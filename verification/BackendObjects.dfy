/** The backend's handlers on mutable tables. Each statement or transaction is proved to be one
    operation of `BackendState`, or none when it fails and rolls back. */
module BackendObjects {
  import opened Wrappers
  import opened Words
  import opened BackendState
  import opened BackendInvariant
  import Tokens

  datatype Code = NotFound | Unauthenticated | InvalidArgument | Aborted | Conflict | BadRequest | Internal

  datatype Registration = Registration(group: GroupId, number: int, authToken: string)

  datatype RosterNode = RosterNode(number: int, revoked: bool)

  /** Where the database fails during a call; `Nowhere` lets every statement through. */
  datatype Fault = Nowhere | AtStatement(index: nat)

  /** Clock readings of one call, in the order it takes them. */
  datatype Clock = Clock(first: int, second: int, third: int)

  function RedeemOp(t: TokenId, submittedHash: string, authTokenHash: string, clock: Clock): Op {
    Redeem(t, submittedHash, authTokenHash, clock.first, clock.second, clock.third)
  }

  class Backend {
    var groups: map<GroupId, GroupRow>
    var nodes: map<NodeKey, NodeRow>
    var tokens: map<TokenId, TokenRow>

    function View(): Db
      reads this
    {
      Db(groups, nodes, tokens)
    }

    constructor ()
      ensures View() == EMPTY
    {
      groups, nodes, tokens := map[], map[], map[];
    }

    method Rollback(saved: Db)
      modifies this
      ensures View() == saved
    {
      groups, nodes, tokens := saved.groups, saved.nodes, saved.tokens;
    }

    /** The transaction once the look-up has found token row `t`: number assignment, node row, token
        mark, commit. All of it or none. */
    method RedeemRow(t: TokenId, submittedHash: string, authTokenHash: string, clock: Clock, fault: Fault)
      returns (number: Option<int>)
      requires Inv(View()) && Redeemable(View(), t, submittedHash, clock.first)
      modifies this
      ensures number.None? ==> View() == old(View())
      ensures number.None? && fault.Nowhere? ==> old(groups[tokens[t].group].nextNodeNumber) == NUMBER_CEILING
      ensures number.Some? ==>
                && Enabled(old(View()), RedeemOp(t, submittedHash, authTokenHash, clock))
                && View() == Next(old(View()), RedeemOp(t, submittedHash, authTokenHash, clock))
                && number.value == old(groups[tokens[t].group].nextNodeNumber)
      ensures number.Some? ==>
                var token, g := old(tokens)[t], old(tokens)[t].group;
                && groups == old(groups)[g := old(groups)[g].(nextNodeNumber := number.value + 1)]
                && nodes == old(nodes)[NodeKey(g, number.value) :=
                     NodeRow(token.nodeName, authTokenHash, token.nodeMetadata, None, clock.second, None)]
                && tokens == old(tokens)[t := token.(usedAt := Some(clock.third))]
    {
      var saved := View();
      var token := tokens[t];
      var g := token.group;
      assert GroupInv(saved, g);
      groups := groups[g := groups[g].(nextNodeNumber := groups[g].nextNodeNumber + 1)];
      var n := groups[g].nextNodeNumber - 1;
      if fault == AtStatement(1) || !(-MAX_INT32 - 1 <= n <= MAX_INT32) {
        Rollback(saved);
        return None;
      }
      if fault == AtStatement(2) || NodeKey(g, n) in nodes {
        Rollback(saved);
        return None;
      }
      nodes := nodes[NodeKey(g, n) :=
        NodeRow(token.nodeName, authTokenHash, token.nodeMetadata, None, clock.second, None)];
      if fault == AtStatement(3) {
        Rollback(saved);
        return None;
      }
      tokens := tokens[t := token.(usedAt := Some(clock.third))];
      if fault == AtStatement(4) {
        Rollback(saved);
        return None;
      }
      return Some(n);
    }

    /** Look-up and redemption in one transaction. Which row a hash shared by several tokens
        resolves to is up to the database. */
    method CompleteNodeRegistration(
        hash: string -> string, submitted: string, authToken: string, clock: Clock, fault: Fault)
      returns (r: Result<Registration, Code>)
      requires Inv(View())
      modifies this
      ensures r.Err? ==> View() == old(View()) && (r.error.NotFound? || r.error.Internal?)
      ensures r == Err(NotFound) <==>
                && fault != AtStatement(0)
                && forall t | t in old(tokens) ::
                     var token := old(tokens)[t];
                     !(&& token.tokenHash == hash(submitted) && token.usedAt == None && clock.first < token.expiresAt
                       && token.group in old(groups) && old(groups)[token.group].deletedAt == None)
      ensures r == Err(Internal) && fault.Nowhere? ==>
                exists t | Redeemable(old(View()), t, hash(submitted), clock.first) ::
                  old(View()).groups[old(View()).tokens[t].group].nextNodeNumber == NUMBER_CEILING
      ensures r.Ok? ==>
                exists t :: IsRegistration(old(View()), View(), t, hash, submitted, authToken, clock, r.value)
      ensures r.Ok? ==> r.value.authToken == authToken
      ensures r.Ok? ==> exists t | t in old(tokens) ::
                var token := old(tokens)[t];
                && token.tokenHash == hash(submitted) && token.usedAt == None && clock.first < token.expiresAt
                && token.group == r.value.group && r.value.group in old(groups)
                && old(groups)[r.value.group].deletedAt == None
                && r.value.number == old(groups)[r.value.group].nextNodeNumber
                && groups == old(groups)[r.value.group :=
                     old(groups)[r.value.group].(nextNodeNumber := r.value.number + 1)]
                && nodes == old(nodes)[NodeKey(r.value.group, r.value.number) :=
                     NodeRow(token.nodeName, hash(authToken), token.nodeMetadata, None, clock.second, None)]
                && tokens == old(tokens)[t := token.(usedAt := Some(clock.third))]
    {
      if fault == AtStatement(0) {
        return Err(Internal);
      }
      if t :| t in tokens && Redeemable(View(), t, hash(submitted), clock.first) {
        var g := tokens[t].group;
        var number := RedeemRow(t, hash(submitted), hash(authToken), clock, fault);
        match number
        case None => return Err(Internal);
        case Some(n) =>
          r := Ok(Registration(g, n, authToken));
          assert IsRegistration(old(View()), View(), t, hash, submitted, authToken, clock, r.value);
      } else {
        return Err(NotFound);
      }
    }

    method AuthenticateNode(hash: string -> string, g: GroupId, number: int, authToken: string, fault: Fault)
      returns (r: Result<(), Code>)
      ensures r.Ok? <==>
              && fault != AtStatement(0)
              && NodeKey(g, number) in nodes && nodes[NodeKey(g, number)].deletedAt == None
              && nodes[NodeKey(g, number)].authTokenHash == hash(authToken)
      ensures r.Err? ==> r.error == if fault == AtStatement(0) then Internal else Unauthenticated
    {
      var k := NodeKey(g, number);
      if fault == AtStatement(0) {
        return Err(Internal);
      }
      if k !in nodes || nodes[k].deletedAt.Some? {
        return Err(Unauthenticated);
      }
      if hash(authToken) != nodes[k].authTokenHash {
        return Err(Unauthenticated);
      }
      return Ok(());
    }

    /** The group's live nodes, in order of node number. */
    method ListNodes(g: GroupId, fault: Fault) returns (r: Result<seq<int>, Code>)
      requires Inv(View())
      ensures r.Ok? <==> fault != AtStatement(0)
      ensures r.Err? ==> r.error.Internal?
      ensures r.Ok? ==>
                && (forall i, j | 0 <= i < j < |r.value| :: r.value[i] < r.value[j])
                && (forall n :: n in r.value <==> NodeKey(g, n) in nodes && nodes[NodeKey(g, n)].deletedAt == None)
    {
      if fault == AtStatement(0) {
        return Err(Internal);
      }
      var numbers := LiveNumbers(g);
      return Ok(numbers);
    }

    method LiveNumbers(g: GroupId) returns (numbers: seq<int>)
      requires Inv(View())
      ensures forall i, j | 0 <= i < j < |numbers| :: numbers[i] < numbers[j]
      ensures forall n :: n in numbers <==> NodeKey(g, n) in nodes && nodes[NodeKey(g, n)].deletedAt == None
    {
      numbers := [];
      if g !in groups {
        return;
      }
      assert GroupInv(View(), g);
      var n := 1;
      while n < groups[g].nextNodeNumber
        invariant 1 <= n <= groups[g].nextNodeNumber
        invariant forall i, j | 0 <= i < j < |numbers| :: numbers[i] < numbers[j]
        invariant forall i | 0 <= i < |numbers| :: numbers[i] < n
        invariant forall m :: m in numbers <==> 1 <= m < n && LiveNode(View(), NodeKey(g, m))
      {
        if nodes[NodeKey(g, n)].deletedAt.None? {
          numbers := numbers + [n];
        }
        n := n + 1;
      }
      assert forall m | NodeKey(g, m) in nodes :: 1 <= m < groups[g].nextNodeNumber;
    }

    method UpdateRoster(g: GroupId, roster: Bytes, newVersion: int, expectedVersion: int, fault: Fault)
      returns (r: Result<(), Code>)
      modifies this`groups
      ensures r.Ok? <==>
                && newVersion > expectedVersion && fault != AtStatement(0)
                && g in old(groups) && old(groups)[g].deletedAt == None
                && old(groups)[g].rosterVersion == expectedVersion
      ensures r.Ok? ==>
                && Accepts(old(View()), g, newVersion, expectedVersion)
                && View() == Next(old(View()), SetRoster(g, roster, newVersion, expectedVersion))
                && groups == old(groups)[g := old(groups)[g].(roster := Some(roster), rosterVersion := newVersion)]
      ensures r.Err? ==> View() == old(View())
      ensures r.Err? ==>
                r.error == (if newVersion <= expectedVersion then InvalidArgument
                            else if fault == AtStatement(0) then Internal
                            else Aborted)
    {
      if newVersion <= expectedVersion {
        return Err(InvalidArgument);
      }
      if fault == AtStatement(0) {
        return Err(Internal);
      }
      if g in groups && groups[g].rosterVersion == expectedVersion && groups[g].deletedAt.None? {
        groups := groups[g := groups[g].(roster := Some(roster), rosterVersion := newVersion)];
        return Ok(());
      }
      return Err(Aborted);
    }

    method DeregisterNode(g: GroupId, number: int, now: int, fault: Fault) returns (r: Result<(), Code>)
      modifies this`nodes
      ensures r == if fault == AtStatement(0) then Err(Internal) else Ok(())
      ensures View() == if r.Ok? then Next(old(View()), Deregister(g, number, now)) else old(View())
      ensures r.Ok? ==>
                var k := NodeKey(g, number);
                nodes == if k in old(nodes) then old(nodes)[k := old(nodes)[k].(deletedAt := Some(now))] else old(nodes)
    {
      var k := NodeKey(g, number);
      if fault == AtStatement(0) {
        return Err(Internal);
      }
      if k in nodes {
        nodes := nodes[k := nodes[k].(deletedAt := Some(now))];
      }
      return Ok(());
    }

    method SoftDeleteNodes(g: GroupId, now: int)
      modifies this`nodes
      ensures View() == Next(old(View()), BackendState.SoftDeleteNodes(g, now))
    {
      nodes := map k | k in nodes ::
        if k.group == g && nodes[k].deletedAt.None? then nodes[k].(deletedAt := Some(now)) else nodes[k];
    }

    /** Two statements outside a transaction, here with nothing in between; a fault at the second
        leaves the group live and empty of nodes. */
    method DeleteConnectivityGroup(g: GroupId, now: int, fault: Fault) returns (r: Result<(), Code>)
      modifies this`nodes, this`groups
      ensures r.Ok? <==> fault != AtStatement(0) && fault != AtStatement(1)
      ensures fault == AtStatement(0) ==> View() == old(View())
      ensures fault == AtStatement(1) ==> View() == Next(old(View()), BackendState.SoftDeleteNodes(g, now))
      ensures r.Ok? ==>
                View() == Next(Next(old(View()), BackendState.SoftDeleteNodes(g, now)), MarkGroupDeleted(g, now))
      ensures r.Ok? ==> !Live(View(), g) && forall n :: !LiveNode(View(), NodeKey(g, n))
    {
      if fault == AtStatement(0) {
        return Err(Internal);
      }
      SoftDeleteNodes(g, now);
      if fault == AtStatement(1) {
        return Err(Internal);
      }
      if g in groups && groups[g].deletedAt.None? {
        groups := groups[g := groups[g].(deletedAt := Some(now))];
      }
      return Ok(());
    }

    /** The liveness check and two updates, here with nothing in between; a fault at the last leaves
        the roster in place and no live nodes. */
    method ResetConnectivityGroup(g: GroupId, now: int, fault: Fault) returns (r: Result<(), Code>)
      modifies this`nodes, this`groups
      ensures r == Err(NotFound) <==> fault != AtStatement(0) && !Live(old(View()), g)
      ensures r.Ok? <==> Live(old(View()), g) && forall i | 0 <= i < 3 :: fault != AtStatement(i)
      ensures r.Err? ==> r.error.NotFound? || r.error.Internal?
      ensures r.Err? && (fault != AtStatement(2) || r.error.NotFound?) ==> View() == old(View())
      ensures r == Err(Internal) && fault == AtStatement(2) ==>
                View() == Next(old(View()), BackendState.SoftDeleteNodes(g, now))
      ensures r.Ok? ==>
                && View() == Next(Next(old(View()), BackendState.SoftDeleteNodes(g, now)), ResetRoster(g))
                && Live(View(), g) && groups[g].roster.None? && groups[g].rosterVersion == 0
                && groups[g].nextNodeNumber == old(groups[g].nextNodeNumber)
                && forall n :: !LiveNode(View(), NodeKey(g, n))
    {
      if fault == AtStatement(0) {
        return Err(Internal);
      }
      if g !in groups || groups[g].deletedAt.Some? {
        return Err(NotFound);
      }
      if fault == AtStatement(1) {
        return Err(Internal);
      }
      SoftDeleteNodes(g, now);
      if fault == AtStatement(2) {
        return Err(Internal);
      }
      groups := groups[g := groups[g].(roster := None, rosterVersion := 0)];
      return Ok(());
    }

    /** The liveness check and the insert, here with nothing in between. Only the hash is stored.
        `id` is a fresh row key. */
    method PostRegistrationToken(
        hash: string -> string, g: GroupId, req: Tokens.TokenRequest, random: seq<Byte>, id: TokenId, now: int,
        fault: Fault)
      returns (r: Result<Tokens.MintedToken, Code>)
      requires |random| >= 8 && id !in tokens
      modifies this`tokens
      ensures r.Err? ==> View() == old(View())
      ensures r == Err(NotFound) <==>
                fault != AtStatement(0) && !(g in old(groups) && old(groups)[g].deletedAt == None)
      ensures r == Err(BadRequest) <==>
                && fault != AtStatement(0) && g in old(groups) && old(groups)[g].deletedAt == None
                && Tokens.MintRegistrationToken(hash, req, random, now).Err?
      ensures r == Err(Internal) ==> fault == AtStatement(0) || fault == AtStatement(1)
      ensures r.Err? ==> r.error.NotFound? || r.error.BadRequest? || r.error.Internal?
      ensures r.Ok? ==>
                && fault != AtStatement(0) && fault != AtStatement(1)
                && Tokens.MintRegistrationToken(hash, req, random, now) == Ok(r.value)
                && View() == Next(old(View()), MintToken(id, g, r.value.tokenHash, req.nodeName, req.nodeMetadata,
                                                         now, r.value.expiresAt))
                && tokens == old(tokens)[id :=
                     TokenRow(g, r.value.tokenHash, req.nodeName, req.nodeMetadata, now, r.value.expiresAt, None)]
    {
      if fault == AtStatement(0) {
        return Err(Internal);
      }
      if g !in groups || groups[g].deletedAt.Some? {
        return Err(NotFound);
      }
      match Tokens.MintRegistrationToken(hash, req, random, now)
      case Err(_) => return Err(BadRequest);
      case Ok(minted) =>
        if fault == AtStatement(1) {
          return Err(Internal);
        }
        tokens := tokens[id :=
          TokenRow(g, minted.tokenHash, req.nodeName, req.nodeMetadata, now, minted.expiresAt, None)];
        return Ok(minted);
    }

    /** Two look-ups and the update, here with nothing in between. `unmarshal` is the protobuf
        decoder, `None` its failure. */
    method DeleteNode(
        unmarshal: Bytes -> Option<seq<RosterNode>>, g: GroupId, number: int, now: int, fault: Fault)
      returns (r: Result<(), Code>)
      modifies this`nodes
      ensures r.Err? ==> View() == old(View())
      ensures r.Ok? ==> View() == Next(old(View()), BackendState.DeleteNode(g, number, now))
      ensures var live := g in old(groups) && old(groups)[g].deletedAt == None;
              var found := live && NodeKey(g, number) in old(nodes) && old(nodes)[NodeKey(g, number)].deletedAt == None;
              var revoked := found && RevokedIn(unmarshal, old(groups)[g].roster, number);
              && (r.Ok? <==> revoked && forall i | 0 <= i < 3 :: fault != AtStatement(i))
              && (r == Err(Conflict) <==> found && !revoked && fault != AtStatement(0) && fault != AtStatement(1))
              && (r == Err(NotFound) <==>
                    && fault != AtStatement(0)
                    && (!live || (fault != AtStatement(1) && !found)))
              && (r.Err? ==> r.error.Conflict? || r.error.NotFound? || r.error.Internal?)
    {
      if fault == AtStatement(0) {
        return Err(Internal);
      }
      if g !in groups || groups[g].deletedAt.Some? {
        return Err(NotFound);
      }
      if fault == AtStatement(1) {
        return Err(Internal);
      }
      var k := NodeKey(g, number);
      if k !in nodes || nodes[k].deletedAt.Some? {
        return Err(NotFound);
      }
      var revoked := NodeRevokedInRoster(unmarshal, groups[g].roster, number);
      if !revoked {
        return Err(Conflict);
      }
      if fault == AtStatement(2) {
        return Err(Internal);
      }
      nodes := nodes[k := nodes[k].(deletedAt := Some(now))];
      return Ok(());
    }
  }

  /** A committed registration: one Redeem operation, reported truthfully. */
  ghost predicate IsRegistration(
      before: Db, after: Db, t: TokenId, hash: string -> string, submitted: string, authToken: string, clock: Clock,
      reg: Registration)
  {
    var op := RedeemOp(t, hash(submitted), hash(authToken), clock);
    && Enabled(before, op) && after == Next(before, op)
    && reg == Registration(before.tokens[t].group, before.groups[before.tokens[t].group].nextNodeNumber, authToken)
  }

  /** A stored NULL unmarshals like the empty message, which lists no nodes. */
  ghost predicate RevokedIn(unmarshal: Bytes -> Option<seq<RosterNode>>, roster: Option<Bytes>, number: int) {
    var listed := unmarshal(match roster case None => [] case Some(b) => b);
    listed.Some? && exists n | n in listed.value :: n.number == number && n.revoked
  }

  method NodeRevokedInRoster(unmarshal: Bytes -> Option<seq<RosterNode>>, roster: Option<Bytes>, number: int)
    returns (revoked: bool)
    ensures revoked <==> RevokedIn(unmarshal, roster, number)
    ensures revoked <==>
            var listed := unmarshal(if roster == None then [] else roster.value);
            listed.Some? && exists n | n in listed.value :: n.number == number && n.revoked
  {
    var bytes := match roster case None => [] case Some(b) => b;
    match unmarshal(bytes)
    case None => return false;
    case Some(listed) =>
      for i := 0 to |listed|
        invariant forall j | 0 <= j < i :: !(listed[j].number == number && listed[j].revoked)
      {
        if listed[i].number == number && listed[i].revoked {
          return true;
        }
      }
      return false;
  }
}
