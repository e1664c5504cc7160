/** Authentication and roster updates end to end: the hub's checks, the endorser's cosignature
    fetched through the router, and the backend's optimistic lock. */
module HubServer {
  import opened Wrappers
  import opened Words
  import opened BackendState
  import opened BackendInvariant
  import BackendObjects
  import BackendRuns
  import BackendTheorems
  import opened RoutingObjects
  import Routing
  import RoutingInvariant
  import RoutingRuns
  import RoutingTheorems

  datatype Code =
    | Unauthenticated | ResourceExhausted | InvalidArgument | PermissionDenied
    | Unavailable | FailedPrecondition | Internal
    | FromBackend(code: BackendObjects.Code)

  // Who is calling.

  /** The three metadata headers; an absent one reads as empty. */
  datatype Credentials = Credentials(group: string, node: string, authToken: string)

  datatype Caller = Caller(group: GroupId, number: int)

  /** `metadata` is `None` when the call carries none; `scan` reads an int32 off a string; `allowed`
      is the rate limiter's verdict. */
  method Authenticate(
      hash: string -> string, scan: string -> Option<int>, allowed: bool,
      metadata: Option<Credentials>, backend: BackendObjects.Backend, fault: BackendObjects.Fault)
    returns (r: Result<Caller, Code>)
    ensures r.Ok? <==>
            && metadata != None && metadata.value.group != "" && metadata.value.node != ""
            && metadata.value.authToken != "" && scan(metadata.value.node) != None && allowed
            && fault != BackendObjects.AtStatement(0)
            && var key := NodeKey(metadata.value.group, scan(metadata.value.node).value);
               && key in backend.nodes && backend.nodes[key].deletedAt == None
               && backend.nodes[key].authTokenHash == hash(metadata.value.authToken)
    ensures r.Ok? ==> r.value == Caller(metadata.value.group, scan(metadata.value.node).value)
    ensures r.Err? ==>
              r.error ==
              if metadata == None || metadata.value.group == "" || metadata.value.node == ""
                 || metadata.value.authToken == "" || scan(metadata.value.node) == None
              then Unauthenticated
              else if !allowed then ResourceExhausted
              else if fault == BackendObjects.AtStatement(0) then FromBackend(BackendObjects.Internal)
              else FromBackend(BackendObjects.Unauthenticated)
  {
    if metadata.None? {
      return Err(Unauthenticated);
    }
    var c := metadata.value;
    if c.group == "" || c.node == "" || c.authToken == "" {
      return Err(Unauthenticated);
    }
    match scan(c.node)
    case None => return Err(Unauthenticated);
    case Some(number) =>
      if !allowed {
        return Err(ResourceExhausted);
      }
      var checked := backend.AuthenticateNode(hash, c.group, number, c.authToken, fault);
      match checked
      case Err(e) => return Err(FromBackend(e));
      case Ok(_) => return Ok(Caller(c.group, number));
  }

  // Rosters, as objects sharing activations with their handlers and as plain values. An absent
  // payload reads as one full of zeros; `rest` stands for the fields the hub only passes on.

  type Int64 = n: int | IsInt64(n)

  datatype ActivationPayload = ActivationPayload(version: Int64, newNode: int, endorser: int, rest: Bytes)

  datatype RevocationPayload = RevocationPayload(version: Int64, revoker: int, rest: Bytes)

  class Activation {
    const payload: ActivationPayload
    const rest: Bytes
    var endorserSignature: Bytes

    constructor (payload: ActivationPayload, rest: Bytes, endorserSignature: Bytes)
      ensures this.payload == payload && this.rest == rest && this.endorserSignature == endorserSignature
    {
      this.payload, this.rest, this.endorserSignature := payload, rest, endorserSignature;
    }
  }

  datatype Addendum =
    | ActivationRef(activation: Activation)
    | RevocationRef(revocation: RevocationPayload, rest: Bytes)
    | NoRef

  datatype Roster = Roster(version: Int64, addenda: seq<Addendum>, rest: Bytes)

  datatype AddendumValue =
    | Activates(payload: ActivationPayload, rest: Bytes, endorserSignature: Bytes)
    | Revokes(revocation: RevocationPayload, rest: Bytes)
    | NoKind

  datatype RosterValue = RosterValue(version: Int64, addenda: seq<AddendumValue>, rest: Bytes)

  function Activations(addenda: seq<Addendum>): set<Activation> {
    set i | 0 <= i < |addenda| && addenda[i].ActivationRef? :: addenda[i].activation
  }

  /** Decoding a message makes a new object for every activation. */
  ghost predicate Decoded(addenda: seq<Addendum>) {
    forall i, j | 0 <= i < j < |addenda| && addenda[i].ActivationRef? && addenda[j].ActivationRef? ::
      addenda[i].activation != addenda[j].activation
  }

  function AddendumView(a: Addendum): AddendumValue
      reads if a.ActivationRef? then {a.activation} else {}
  {
    match a
    case ActivationRef(x) => Activates(x.payload, x.rest, x.endorserSignature)
    case RevocationRef(p, rest) => Revokes(p, rest)
    case NoRef => NoKind
  }

  function AddendaView(addenda: seq<Addendum>): (v: seq<AddendumValue>)
    reads Activations(addenda)
    ensures |v| == |addenda|
  {
    if addenda == [] then []
    else
      var n := |addenda| - 1;
      assert Activations(addenda[..n]) <= Activations(addenda);
      assert addenda[n].ActivationRef? ==> addenda[n].activation in Activations(addenda);
      AddendaView(addenda[..n]) + [AddendumView(addenda[n])]
  }

  function View(r: Roster): RosterValue
    reads Activations(r.addenda)
  {
    RosterValue(r.version, AddendaView(r.addenda), r.rest)
  }

  /** The value of a roster is what its objects hold, addendum by addendum. */
  lemma {:induction false} AddendaViewAt(addenda: seq<Addendum>, i: nat)
    requires i < |addenda|
    ensures match addenda[i]
            case ActivationRef(x) => AddendaView(addenda)[i] == Activates(x.payload, x.rest, x.endorserSignature)
            case RevocationRef(p, rest) => AddendaView(addenda)[i] == Revokes(p, rest)
            case NoRef => AddendaView(addenda)[i] == NoKind
  {
    var n := |addenda| - 1;
    if i < n {
      AddendaViewAt(addenda[..n], i);
    }
  }

  lemma ViewKeepsAll(r: Roster)
    ensures View(r).version == r.version && View(r).rest == r.rest && |View(r).addenda| == |r.addenda|
  {
  }

  // What may be stored.

  function Last(r: RosterValue): AddendumValue
    requires r.addenda != []
  {
    r.addenda[|r.addenda| - 1]
  }

  /** The endorser replied, without an error and with a cosignature. */
  predicate Consents(a: Awaited) {
    a.Answer? && a.resp.error == "" && a.resp.kind.RosterCosign?
  }

  /** Activations are submitted by the activated node, with its endorser's consent; revocations by
      the revoker. */
  predicate MayAppend(caller: int, last: AddendumValue, awaited: Awaited) {
    match last
    case Activates(p, _, _) => caller == p.newNode && Consents(awaited)
    case Revokes(p, _) => caller == p.revoker
    case NoKind => false
  }

  function AddendumVersion(a: AddendumValue): Int64 {
    match a
    case Activates(p, _, _) => p.version
    case Revokes(p, _) => p.version
    case NoKind => 0
  }

  /** The roster with the awaited cosignature in its last addendum, if that is an activation. */
  function Cosigned(r: RosterValue, awaited: Awaited): RosterValue {
    if r.addenda != [] && Last(r).Activates? && Consents(awaited)
    then r.(addenda := r.addenda[|r.addenda| - 1 := Last(r).(endorserSignature := awaited.resp.kind.signature)])
    else r
  }

  /** The optimistic lock's version: one below the addendum's, in 64 bits. */
  function ExpectedVersion(a: AddendumValue): Int64 {
    Wrap64(AddendumVersion(a) - 1)
  }

  /** The database operation a call reaches, if it gets that far; `marshal` is the protobuf encoder. */
  function Submission(marshal: RosterValue -> Option<Bytes>, caller: Caller, roster: RosterValue, awaited: Awaited)
    : Option<Op>
  {
    if roster.addenda == [] || !MayAppend(caller.number, Last(roster), awaited) then None
    else match marshal(Cosigned(roster, awaited))
      case None => None
      case Some(bytes) => Some(SetRoster(caller.group, bytes, roster.version, ExpectedVersion(Last(roster))))
  }

  /** Why a call that submits nothing fails. */
  function Refusal(caller: int, roster: RosterValue, awaited: Awaited): Code {
    if roster.addenda == [] || Last(roster).NoKind? then InvalidArgument
    else if MayAppend(caller, Last(roster), awaited) then Internal
    else if Last(roster).Activates? && caller == Last(roster).payload.newNode then
      match awaited
      case Answer(resp) => if resp.error != "" then FailedPrecondition else Internal
      case _ => Unavailable
    else PermissionDenied
  }

  /** Who may store what: the new node of an activation to which the endorser replied with a
      cosignature and no error, that signature filled in; or the revoker of a revocation. The expected
      version is one below the addendum's, which wraps around at the bottom. */
  lemma SubmissionIff(
      marshal: RosterValue -> Option<Bytes>, caller: Caller, roster: RosterValue, awaited: Awaited, op: Op)
    ensures Submission(marshal, caller, roster, awaited) == Some(op) <==>
            && roster.addenda != []
            && var n := |roster.addenda| - 1;
               match roster.addenda[n]
               case Activates(p, rest, _) =>
                 && caller.number == p.newNode
                 && awaited.Answer? && awaited.resp.error == "" && awaited.resp.kind.RosterCosign?
                 && (var signed := roster.addenda[n := Activates(p, rest, awaited.resp.kind.signature)];
                     && marshal(roster.(addenda := signed)).Some?
                     && op == SetRoster(caller.group, marshal(roster.(addenda := signed)).value, roster.version,
                                        if p.version == MIN_INT64 then MAX_INT64 else p.version - 1))
               case Revokes(p, _) =>
                 && caller.number == p.revoker && marshal(roster).Some?
                 && op == SetRoster(caller.group, marshal(roster).value, roster.version,
                                    if p.version == MIN_INT64 then MAX_INT64 else p.version - 1)
               case NoKind => false
  {
  }

  lemma AcceptanceIff(
      marshal: RosterValue -> Option<Bytes>, caller: Caller, roster: RosterValue, awaited: Awaited, db: Db)
    ensures var op := Submission(marshal, caller, roster, awaited);
            op.Some? && Accepts(db, op.value.group, op.value.newVersion, op.value.expectedVersion) <==>
            && roster.addenda != []
            && var before, g := roster, caller.group;
               var n := |before.addenda| - 1;
               match before.addenda[n]
               case Activates(p, rest, _) =>
                 && caller.number == p.newNode
                 && awaited.Answer? && awaited.resp.error == "" && awaited.resp.kind.RosterCosign?
                 && var signed := before.addenda[n := Activates(p, rest, awaited.resp.kind.signature)];
                    var expected := if p.version == MIN_INT64 then MAX_INT64 else p.version - 1;
                    && marshal(before.(addenda := signed)).Some?
                    && g in db.groups && db.groups[g].deletedAt == None
                    && db.groups[g].rosterVersion == expected < before.version
               case Revokes(p, _) =>
                 && caller.number == p.revoker
                 && var expected := if p.version == MIN_INT64 then MAX_INT64 else p.version - 1;
                    && marshal(before).Some?
                    && g in db.groups && db.groups[g].deletedAt == None
                    && db.groups[g].rosterVersion == expected < before.version
               case NoKind => false
  {
    if Submission(marshal, caller, roster, awaited).Some? {
      SubmissionIff(marshal, caller, roster, awaited, Submission(marshal, caller, roster, awaited).value);
    }
  }

  /** What the caller is told when nothing is submitted: the checks in their order. */
  lemma RefusalIs(marshal: RosterValue -> Option<Bytes>, caller: Caller, roster: RosterValue, awaited: Awaited)
    requires Submission(marshal, caller, roster, awaited) == None
    ensures Refusal(caller.number, roster, awaited) ==
            if roster.addenda == [] then InvalidArgument
            else match roster.addenda[|roster.addenda| - 1]
              case Activates(p, _, _) =>
                if caller.number != p.newNode then PermissionDenied
                else if !awaited.Answer? then Unavailable
                else if awaited.resp.error != "" then FailedPrecondition
                else Internal
              case Revokes(p, _) => if caller.number != p.revoker then PermissionDenied else Internal
              case NoKind => InvalidArgument
  {
  }

  /** The roster refers to the activation too, so writing the reply's signature through it changes
      the roster that is stored later. */
  method GetEndorserCosignature(roster: Roster, activation: Activation, awaited: Awaited) returns (r: Result<(), Code>)
    requires Decoded(roster.addenda) && roster.addenda != []
    requires roster.addenda[|roster.addenda| - 1] == ActivationRef(activation)
    modifies activation`endorserSignature
    ensures r.Ok? <==> awaited.Answer? && awaited.resp.error == "" && awaited.resp.kind.RosterCosign?
    ensures r.Ok? ==> activation.endorserSignature == awaited.resp.kind.signature
    ensures r.Err? ==> activation.endorserSignature == old(activation.endorserSignature)
    ensures r == Err(Unavailable) <==> !awaited.Answer?
    ensures r == Err(FailedPrecondition) <==> awaited.Answer? && awaited.resp.error != ""
    ensures r.Err? && !r.error.Unavailable? && !r.error.FailedPrecondition? ==> r.error.Internal?
    ensures View(roster) == Cosigned(old(View(roster)), awaited)
  {
    match awaited {
      case RoutingFailed(_) => return Err(Unavailable);
      case ContextDone => return Err(Unavailable);
      case Answer(resp) =>
        if resp.error != "" {
          return Err(FailedPrecondition);
        }
        if !resp.kind.RosterCosign? {
          return Err(Internal);
        }
        activation.endorserSignature := resp.kind.signature;
        assert activation !in Activations(roster.addenda[..|roster.addenda| - 1]);
        return Ok(());
    }
  }

  /** The switch over the last addendum's kind: its author, and an endorser's cosignature. */
  method Authorize(caller: int, roster: Roster, awaited: Awaited) returns (r: Result<Int64, Code>)
    requires Decoded(roster.addenda) && roster.addenda != []
    modifies Activations(roster.addenda)
    ensures r.Ok? <==> MayAppend(caller, Last(old(View(roster))), awaited)
    ensures r.Ok? ==> r.value == ExpectedVersion(Last(old(View(roster))))
    ensures r.Ok? ==> View(roster) == Cosigned(old(View(roster)), awaited)
    ensures r.Err? ==> r.error == Refusal(caller, old(View(roster)), awaited)
  {
    match roster.addenda[|roster.addenda| - 1]
    case ActivationRef(activation) =>
      if caller != activation.payload.newNode {
        return Err(PermissionDenied);
      }
      assert activation in Activations(roster.addenda);
      var cosigned := GetEndorserCosignature(roster, activation, awaited);
      if cosigned.Err? {
        return Err(cosigned.error);
      }
      return Ok(Wrap64(activation.payload.version - 1));
    case RevocationRef(payload, _) =>
      if caller != payload.revoker {
        return Err(PermissionDenied);
      }
      return Ok(Wrap64(payload.version - 1));
    case NoRef =>
      return Err(InvalidArgument);
  }

  /** The hub's own part of a roster update, up to the call of the backend. */
  method Prepare(marshal: RosterValue -> Option<Bytes>, caller: Caller, roster: Roster, awaited: Awaited)
    returns (r: Result<Op, Code>)
    requires Decoded(roster.addenda)
    modifies Activations(roster.addenda)
    ensures r.Ok? ==> Submission(marshal, caller, old(View(roster)), awaited) == Some(r.value)
    ensures r.Err? ==> Submission(marshal, caller, old(View(roster)), awaited) == None
    ensures r.Ok? ==> View(roster) == Cosigned(old(View(roster)), awaited)
    ensures r.Err? ==> r.error == Refusal(caller.number, old(View(roster)), awaited)
  {
    if |roster.addenda| == 0 {
      return Err(InvalidArgument);
    }
    var expected := Authorize(caller.number, roster, awaited);
    if expected.Err? {
      return Err(expected.error);
    }
    match marshal(View(roster))
    case None => return Err(Internal);
    case Some(bytes) => return Ok(SetRoster(caller.group, bytes, roster.version, expected.value));
  }

  /** Whatever ends the call early leaves the database as it was; otherwise the database takes the
      submitted operation, and accepts it or not by the stored version. */
  method UpdateRoster(
      marshal: RosterValue -> Option<Bytes>, auth: Result<Caller, Code>, roster: Roster, awaited: Awaited,
      backend: BackendObjects.Backend, fault: BackendObjects.Fault)
    returns (r: Result<RosterValue, Code>)
    requires Decoded(roster.addenda)
    modifies backend, Activations(roster.addenda)
    ensures auth.Err? ==> r == Err(auth.error)
    ensures r.Err? ==> backend.View() == old(backend.View())
    ensures auth.Ok? ==>
              var op := Submission(marshal, auth.value, old(View(roster)), awaited);
              && (op.None? ==> r == Err(Refusal(auth.value.number, old(View(roster)), awaited)))
              && (op.Some? ==> (r.Ok? <==>
                    Accepts(old(backend.View()), op.value.group, op.value.newVersion, op.value.expectedVersion)
                    && fault != BackendObjects.AtStatement(0)))
              && (r.Ok? ==> backend.View() == Next(old(backend.View()), op.value))
              && (op.Some? && r.Err? ==>
                    r.error == FromBackend(
                      if op.value.newVersion <= op.value.expectedVersion then BackendObjects.InvalidArgument
                      else if fault == BackendObjects.AtStatement(0) then BackendObjects.Internal
                      else BackendObjects.Aborted))
    ensures r.Ok? <==>
            && auth.Ok? && fault != BackendObjects.AtStatement(0)
            && roster.addenda != []
            && var before, g := old(View(roster)), auth.value.group;
               var n := |before.addenda| - 1;
               match before.addenda[n]
               case Activates(p, rest, _) =>
                 && auth.value.number == p.newNode
                 && awaited.Answer? && awaited.resp.error == "" && awaited.resp.kind.RosterCosign?
                 && var signed := before.addenda[n := Activates(p, rest, awaited.resp.kind.signature)];
                    var expected := if p.version == MIN_INT64 then MAX_INT64 else p.version - 1;
                    && marshal(before.(addenda := signed)).Some?
                    && g in old(backend.groups) && old(backend.groups)[g].deletedAt == None
                    && old(backend.groups)[g].rosterVersion == expected < before.version
               case Revokes(p, _) =>
                 && auth.value.number == p.revoker
                 && var expected := if p.version == MIN_INT64 then MAX_INT64 else p.version - 1;
                    && marshal(before).Some?
                    && g in old(backend.groups) && old(backend.groups)[g].deletedAt == None
                    && old(backend.groups)[g].rosterVersion == expected < before.version
               case NoKind => false
    ensures r.Ok? ==> r.value == View(roster) == Cosigned(old(View(roster)), awaited)
    ensures r.Ok? ==>
              && backend.nodes == old(backend.nodes) && backend.tokens == old(backend.tokens)
              && marshal(r.value).Some? && auth.value.group in old(backend.groups)
              && backend.groups == old(backend.groups)[auth.value.group :=
                   old(backend.groups)[auth.value.group].(roster := marshal(r.value), rosterVersion := roster.version)]
  {
    if auth.Err? {
      return Err(auth.error);
    }
    AcceptanceIff(marshal, auth.value, View(roster), awaited, backend.View());
    var op := Prepare(marshal, auth.value, roster, awaited);
    if op.Err? {
      return Err(op.error);
    }
    var update := op.value;
    var stored := backend.UpdateRoster(update.group, update.roster, update.newVersion, update.expectedVersion, fault);
    match stored
    case Err(e) => return Err(FromBackend(e));
    case Ok(_) => return Ok(View(roster));
  }

  // End to end.

  /** A roster stored through the hub at step `j` extends what was stored by exactly one addendum
      version, even though the expected version is computed with wrap-around. The group's version
      becomes the roster's own, which the hub never compares with the addendum's: it is at least
      that, and the same exactly if the caller made them the same. */
  lemma AcceptedIsNext(
      marshal: RosterValue -> Option<Bytes>, caller: Caller, roster: RosterValue, awaited: Awaited, r: Run, j: nat)
    requires r.Valid() && BackendRuns.AcceptedAt(r, j, caller.group)
    requires Submission(marshal, caller, roster, awaited) == Some(r.ops[j])
    ensures var s, t := r.states[j].groups[caller.group], r.states[j + 1].groups;
            var v := AddendumVersion(Last(roster));
            && v == s.rosterVersion + 1
            && caller.group in t && t[caller.group].rosterVersion == roster.version >= v
            && (t[caller.group].rosterVersion == v <==> roster.version == v)
            && t[caller.group].roster == marshal(Cosigned(roster, awaited))
  {
    assert r.Follows(j);
    RunInv(r, j);
    assert GroupInv(r.states[j], caller.group);
  }

  /** A concrete run: node 1 registers and takes its group from version 0 to version 5 with a single
      revocation of version 1, whatever the encoder. */
  lemma VersionRunsAhead(marshal: RosterValue -> Option<Bytes>) returns (caller: Caller, roster: RosterValue, r: Run)
    ensures marshal(roster).Some? ==>
              && r.Valid() && BackendRuns.AcceptedAt(r, 3, caller.group)
              && LiveNode(r.states[3], NodeKey(caller.group, caller.number))
              && Submission(marshal, caller, roster, ContextDone) == Some(r.ops[3])
              && AddendumVersion(Last(roster)) == 1
              && caller.group in r.states[4].groups && r.states[4].groups[caller.group].rosterVersion == 5
  {
    caller := Caller("g", 1);
    roster := RosterValue(5, [Revokes(RevocationPayload(1, 1, []), [])], []);
    r := OneNode();
    if marshal(roster).Some? {
      r := Append(r, SetRoster("g", marshal(roster).value, 5, 0));
    }
  }

  /** A group with one registered node. */
  lemma OneNode() returns (r: Run)
    ensures r.Valid() && |r.ops| == 3
    ensures var db := r.states[3];
            && LiveNode(db, NodeKey("g", 1)) && NodeKey("g", 2) !in db.nodes && "u" !in db.tokens
            && db.groups == map["g" := GroupRow(None, None, 2, None, 0, 0, None)]
  {
    r := Append(Run([EMPTY], []), CreateGroup("g", None, None, 0));
    r := Append(r, MintToken("t", "g", "h", None, None, 1, 10));
    r := Append(r, Redeem("t", "h", "a", 2, 2, 2));
  }

  lemma Append(r: Run, op: Op) returns (r': Run)
    requires r.Valid() && Enabled(r.states[|r.ops|], op)
    ensures r'.Valid() && r'.ops == r.ops + [op]
    ensures r'.states == r.states + [Next(r.states[|r.ops|], op)]
  {
    r' := Run(r.states + [Next(r.states[|r.ops|], op)], r.ops + [op]);
    forall i | 0 <= i < |r'.ops|
      ensures r'.Follows(i)
    {
      assert i < |r.ops| ==> r.Follows(i);
    }
  }

  /** A group with two registered nodes and no roster. */
  lemma TwoNodes() returns (r: Run)
    ensures r.Valid() && |r.ops| == 5
    ensures var db := r.states[5];
            && LiveNode(db, NodeKey("g", 1)) && LiveNode(db, NodeKey("g", 2))
            && db.groups == map["g" := GroupRow(None, None, 3, None, 0, 0, None)]
  {
    r := OneNode();
    r := Append(r, MintToken("u", "g", "k", None, None, 3, 10));
    r := Append(r, Redeem("u", "k", "b", 4, 4, 4));
  }

  /** A concrete run: a group's first activation. Node 2 submits roster version 1, endorsed by node 1,
      and it is stored with the signature from the reply. */
  lemma FirstActivation(marshal: RosterValue -> Option<Bytes>, reqId: int, signature: Bytes)
    returns (caller: Caller, roster: RosterValue, r: Run)
    ensures caller == Caller("g", 2)
    ensures roster == RosterValue(1, [Activates(ActivationPayload(1, 2, 1, []), [], [])], [])
    ensures var signed := RosterValue(1, [Activates(ActivationPayload(1, 2, 1, []), [], signature)], []);
            var awaited := Answer(Routing.Response(reqId, "", Routing.RosterCosign(signature)));
            marshal(signed).Some? ==>
              && r.Valid() && BackendRuns.AcceptedAt(r, 5, "g") && LiveNode(r.states[5], NodeKey("g", 2))
              && Submission(marshal, caller, roster, awaited) == Some(r.ops[5])
              && "g" in r.states[6].groups && r.states[6].groups["g"].rosterVersion == 1
              && r.states[6].groups["g"].roster == marshal(signed)
  {
    caller := Caller("g", 2);
    roster := RosterValue(1, [Activates(ActivationPayload(1, 2, 1, []), [], [])], []);
    var signed := RosterValue(1, [Activates(ActivationPayload(1, 2, 1, []), [], signature)], []);
    r := TwoNodes();
    if marshal(signed).Some? {
      r := Append(r, SetRoster("g", marshal(signed).value, 1, 0));
      assert roster.addenda[0 := Activates(ActivationPayload(1, 2, 1, []), [], signature)] == signed.addenda;
    }
  }

  /** Authentication and update are separate statements. A caller whose node was live when it
      authenticated at step `i` is live when its roster is accepted exactly if nothing deleted the
      node in between; the update is accepted either way. */
  lemma AuthorLiveIff(
      marshal: RosterValue -> Option<Bytes>, caller: Caller, roster: RosterValue, awaited: Awaited,
      r: Run, i: nat, j: nat)
    requires r.Valid() && i <= j && BackendRuns.AcceptedAt(r, j, caller.group)
    requires LiveNode(r.states[i], NodeKey(caller.group, caller.number))
    requires Submission(marshal, caller, roster, awaited) == Some(r.ops[j])
    ensures var k := NodeKey(caller.group, caller.number);
            && (LiveNode(r.states[j], k) <==> forall q: nat | i <= q < j :: !BackendTheorems.Deletes(r.ops[q], k))
            && (LiveNode(r.states[j + 1], k) <==> LiveNode(r.states[j], k))
    ensures Last(roster).Activates? ==> caller.number == Last(roster).payload.newNode
    ensures Last(roster).Revokes? ==> caller.number == Last(roster).revocation.revoker
  {
    assert r.Follows(j);
    BackendTheorems.StaysLiveIff(r, i, j, NodeKey(caller.group, caller.number));
  }

  /** A concrete run: the author deregisters between its authentication and the acceptance. */
  lemma AuthorDeletedMeanwhile(marshal: RosterValue -> Option<Bytes>)
    returns (caller: Caller, roster: RosterValue, r: Run)
    ensures marshal(roster).Some? ==>
              && r.Valid() && BackendRuns.AcceptedAt(r, 4, caller.group)
              && Submission(marshal, caller, roster, ContextDone) == Some(r.ops[4])
              && LiveNode(r.states[3], NodeKey(caller.group, caller.number))
              && !LiveNode(r.states[4], NodeKey(caller.group, caller.number))
  {
    caller := Caller("g", 1);
    roster := RosterValue(1, [Revokes(RevocationPayload(1, 1, []), [])], []);
    r := OneNode();
    if marshal(roster).Some? {
      r := Append(r, Deregister("g", 1, 3));
      r := Append(r, SetRoster("g", marshal(roster).value, 1, 0));
    }
  }

  /** Two accepted updates of one epoch never add the same addendum version. */
  lemma AddendaAdvance(
      marshal: RosterValue -> Option<Bytes>, r: Run, i: nat, j: nat,
      first: Caller, old1: RosterValue, await1: Awaited, second: Caller, old2: RosterValue, await2: Awaited)
    requires r.Valid() && i < j && first.group == second.group && BackendRuns.SameEpoch(r, i + 1, j, first.group)
    requires BackendRuns.AcceptedAt(r, i, first.group) && Submission(marshal, first, old1, await1) == Some(r.ops[i])
    requires BackendRuns.AcceptedAt(r, j, first.group) && Submission(marshal, second, old2, await2) == Some(r.ops[j])
    ensures AddendumVersion(Last(old1)) <= old1.version < AddendumVersion(Last(old2)) <= old2.version
  {
    BackendRuns.RosterChain(r, i, j, first.group);
    AcceptedIsNext(marshal, first, old1, await1, r, i);
    AcceptedIsNext(marshal, second, old2, await2, r, j);
  }

  /** A resolved call to a node was handed off, before the reply, on a connector of that node. */
  lemma RepliedWasHandedOff(run: Routing.Run, n: nat, k: nat) returns (h: nat)
    requires run.Valid() && run.IdsLast() && n < |run.states| && k < |run.states[n].calls|
    requires RoutingInvariant.InTable(run.states[n], k)
    ensures h < n && run.steps[h] == Routing.HandOff(k) && k < |run.states[h].calls| && run.states[h].calls[k].pc.Found?
    ensures var c := run.states[h].calls[k].pc.conn;
            && c < |run.states[h].conns|
            && run.states[h].conns[c].node == run.states[h].calls[k].node == run.states[n].calls[k].node
  {
    RoutingRuns.RunInv(run, n);
    var s := run.states[n];
    assert RoutingInvariant.Waiting(s, s.calls[k].reqId, s.futures[s.calls[k].reqId]);
    var c := s.calls[k].pc.conn;
    var g := RoutingTheorems.EnteredAt(run, n, k, Routing.Register(k), Routing.HandedOff(c));
    h := RoutingTheorems.EnteredAt(run, g, k, Routing.HandOff(k), Routing.Found(c));
    RoutingRuns.RunInv(run, h);
    assert RoutingInvariant.CallInv(run.states[h], k);
    RoutingTheorems.CallAt(run, h, n, k);
  }

  /** Where the signature stored with an activation comes from: `k` is this call's request to the
      endorser in the run of the caller's group. It was handed off on a connector of the endorser,
      and then a reply carrying its request ID, which no other call has, came in on a stream of the
      group. The router does not ask on which one. */
  lemma SignatureIsTheReply(
      marshal: RosterValue -> Option<Bytes>, caller: Caller, roster: RosterValue, awaited: Awaited, op: Op,
      run: Routing.Run, i: nat, k: nat)
    returns (h: nat, n: nat)
    requires Submission(marshal, caller, roster, awaited) == Some(op) && Last(roster).Activates?
    requires run.Valid() && run.IdsLast() && i < |run.states| && k < |run.states[i].calls|
    requires run.states[0].cgId == caller.group && run.states[i].calls[k].node == Last(roster).payload.endorser
    requires AwaitMayReturn(run.states[i].calls[k].outcome, awaited)
    ensures caller.number == Last(roster).payload.newNode
    ensures h < n < i && run.steps[h] == Routing.HandOff(k) && run.steps[n].Receive?
    ensures k < |run.states[h].calls| && run.states[h].calls[k].pc.Found?
    ensures var c := run.states[h].calls[k].pc.conn;
            c < |run.states[h].conns| && run.states[h].conns[c].node == Last(roster).payload.endorser
    ensures run.states[h].cgId == run.states[n].cgId == op.group
    ensures run.steps[n].resp.requestId == run.states[i].calls[k].reqId
    ensures run.steps[n].resp.error == "" && run.steps[n].resp.kind.RosterCosign?
    ensures var signed := Last(roster).(endorserSignature := run.steps[n].resp.kind.signature);
            marshal(roster.(addenda := roster.addenda[|roster.addenda| - 1 := signed])) == Some(op.roster)
    ensures forall other: nat | other < |run.states[i].calls| && other != k ::
              run.states[i].calls[other].reqId != run.states[i].calls[k].reqId
  {
    n := RoutingTheorems.ReplyIsOwn(run, i, k);
    h := RepliedWasHandedOff(run, n, k);
    RoutingRuns.RunLater(run, 0, h);
    RoutingRuns.RunLater(run, 0, n);
    RoutingTheorems.CallAt(run, n, i, k);
    IdIsUnshared(run, i, k);
  }

  lemma IdIsUnshared(run: Routing.Run, i: nat, k: nat)
    requires run.Valid() && run.IdsLast() && i < |run.states| && k < |run.states[i].calls|
    ensures forall other: nat | other < |run.states[i].calls| && other != k ::
              run.states[i].calls[other].reqId != run.states[i].calls[k].reqId
  {
    forall other: nat | other < |run.states[i].calls| && other != k
      ensures run.states[i].calls[other].reqId != run.states[i].calls[k].reqId
    {
      if other < k {
        RoutingTheorems.RequestIdsUnique(run, i, other, k);
      } else {
        RoutingTheorems.RequestIdsUnique(run, i, k, other);
      }
    }
  }
}
