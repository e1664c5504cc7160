/** Deletion, authentication and quota over runs of the backend. */
module BackendTheorems {
  import opened Wrappers
  import opened Words
  import opened BackendState
  import opened BackendInvariant
  import opened BackendRuns
  import Tokens

  // Deletion.

  ghost predicate DeletedAt(r: Run, i: nat, g: GroupId)
    requires r.Valid()
  {
    i < |r.states| && g in r.states[i].groups && r.states[i].groups[g].deletedAt.Some?
  }

  /** Once a group is marked deleted its row is frozen, none of its tokens is redeemed, and its set
      of live nodes only shrinks. */
  lemma DeletedIsFrozen(r: Run, i: nat, j: nat, g: GroupId)
    requires r.Valid() && i <= j < |r.states| && DeletedAt(r, i, g)
    ensures g in r.states[j].groups && r.states[j].groups[g] == r.states[i].groups[g]
    ensures j < |r.ops| && r.ops[j].Redeem? ==> IssuedKey(r, j).group != g
    ensures forall n | LiveNode(r.states[j], NodeKey(g, n)) :: LiveNode(r.states[i], NodeKey(g, n))
  {
    RunLater(r, i, j);
    RunInv(r, i);
    RunInv(r, j);
    assert GroupInv(r.states[i], g) && GroupInv(r.states[j], g);
    if j < |r.ops| && r.ops[j].Redeem? {
      assert r.Follows(j);
    }
    forall n | LiveNode(r.states[j], NodeKey(g, n))
      ensures LiveNode(r.states[i], NodeKey(g, n))
    {
      assert NodeKey(g, n) in r.states[i].nodes;
    }
  }

  /** After the node-deleting statement, the live nodes are among those registered since. */
  lemma LiveMeansRegisteredSince(r: Run, i: nat, m: nat, g: GroupId, now: int, n: int)
    requires r.Valid() && i < m < |r.states| && i < |r.ops| && r.ops[i] == SoftDeleteNodes(g, now)
    requires g in r.states[i].groups && LiveNode(r.states[m], NodeKey(g, n))
    ensures g in r.states[m].groups
    ensures r.states[i].groups[g].nextNodeNumber <= n < r.states[m].groups[g].nextNodeNumber
  {
    var k := NodeKey(g, n);
    var p := RegistrationOf(r, m, k);
    LiveSinceRegistration(r, p, m, k);
    assert Deletes(r.ops[i], k);
    NumberDrawnWithin(r, i, p, m);
  }

  lemma NumberDrawnWithin(r: Run, i: nat, p: nat, m: nat)
    requires r.Valid() && p < m < |r.states| && p < |r.ops| && r.ops[p].Redeem?
    ensures var k := IssuedKey(r, p);
            && k.group in r.states[m].groups && k.number < r.states[m].groups[k.group].nextNodeNumber
            && (i <= p && k.group in r.states[i].groups ==> r.states[i].groups[k.group].nextNodeNumber <= k.number)
  {
    NumberDrawn(r, p);
    RunLater(r, p + 1, m);
    if i <= p {
      RunLater(r, i, p);
    }
  }

  /** The two statements of deleteConnectivityGroup at steps `i` and `j`: whatever is live in the
      deleted group later on was registered between them; with no registration in between, and in
      particular when they are adjacent, nothing is. */
  lemma DeleteGroup(r: Run, i: nat, j: nat, m: nat, g: GroupId, now: int, n: int)
    requires r.Valid() && i < j < m < |r.states| && j < |r.ops|
    requires r.ops[i] == SoftDeleteNodes(g, now) && r.ops[j] == MarkGroupDeleted(g, now)
    requires g in r.states[i].groups && Live(r.states[j], g)
    ensures DeletedAt(r, m, g)
    ensures LiveNode(r.states[m], NodeKey(g, n)) ==>
              r.states[i].groups[g].nextNodeNumber <= n < r.states[j].groups[g].nextNodeNumber
    ensures j == i + 1 ==> r.states[j].groups[g].nextNodeNumber == r.states[i].groups[g].nextNodeNumber
  {
    assert r.Follows(i) && r.Follows(j);
    DeletedIsFrozen(r, j + 1, m, g);
    if LiveNode(r.states[m], NodeKey(g, n)) {
      LiveMeansRegisteredSince(r, i, m, g, now, n);
    }
  }

  // Who is live.

  /** The operation marks this node deleted, if it is there. */
  predicate Deletes(op: Op, k: NodeKey) {
    || (op.SoftDeleteNodes? && op.group == k.group)
    || ((op.Deregister? || op.DeleteNode?) && NodeKey(op.group, op.number) == k)
  }

  /** Step `p` registers the node. */
  ghost predicate Registers(r: Run, p: nat, k: NodeKey)
    requires r.Valid()
  {
    p < |r.ops| && r.ops[p].Redeem? && IssuedKey(r, p) == k
  }

  /** Some operation in between deletes the node. */
  ghost predicate DeletedWithin(r: Run, i: nat, m: nat, k: NodeKey) {
    exists q: nat :: i < q < m && q < |r.ops| && Deletes(r.ops[q], k)
  }

  lemma LiveStep(s: Db, op: Op, k: NodeKey)
    requires Enabled(s, op) && k in s.nodes
    ensures k in Next(s, op).nodes
    ensures LiveNode(Next(s, op), k) <==> LiveNode(s, k) && !Deletes(op, k)
  {
    if op.Redeem? {
      assert k in Next(s, op).nodes;
    }
  }

  lemma NewNodeStep(s: Db, op: Op, k: NodeKey)
    requires Enabled(s, op) && k !in s.nodes && k in Next(s, op).nodes
    ensures op.Redeem? && LiveNode(Next(s, op), k)
    ensures s.tokens[op.token].group == k.group && s.groups[k.group].nextNodeNumber == k.number
  {
  }

  /** The step that registered a node, and no operation can have deleted it before. */
  lemma {:induction false} RegistrationOf(r: Run, m: nat, k: NodeKey) returns (p: nat)
    requires r.Valid() && m < |r.states| && k in r.states[m].nodes
    ensures p < m && Registers(r, p, k)
  {
    assert r.Follows(m - 1);
    if k in r.states[m - 1].nodes {
      p := RegistrationOf(r, m - 1, k);
    } else {
      p := m - 1;
      NewNodeStep(r.states[p], r.ops[p], k);
    }
  }

  /** A registered node is live exactly until an operation deletes it. */
  lemma {:induction false} LiveSinceRegistration(r: Run, p: nat, m: nat, k: NodeKey)
    requires r.Valid() && p < m < |r.states| && Registers(r, p, k)
    ensures k in r.states[m].nodes
    ensures LiveNode(r.states[m], k) <==> !DeletedWithin(r, p, m, k)
    decreases m - p
  {
    if m == p + 1 {
      RedemptionAddsOneNode(r, p, r.ops[p].token);
    } else {
      LiveSinceRegistration(r, p, m - 1, k);
      assert r.Follows(m - 1);
      LiveStep(r.states[m - 1], r.ops[m - 1], k);
      if Deletes(r.ops[m - 1], k) {
        assert DeletedWithin(r, p, m, k);
      }
    }
  }

  /** In any run a node is live exactly if it was registered and nothing deleted it since. */
  lemma LiveIffRegistered(r: Run, m: nat, k: NodeKey)
    requires r.Valid() && m < |r.states|
    ensures LiveNode(r.states[m], k) <==> exists p: nat :: p < m && Registers(r, p, k) && !DeletedWithin(r, p, m, k)
  {
    if k in r.states[m].nodes {
      var p := RegistrationOf(r, m, k);
      LiveSinceRegistration(r, p, m, k);
    }
    forall p: nat | p < m && Registers(r, p, k)
      ensures LiveNode(r.states[m], k) <==> !DeletedWithin(r, p, m, k)
    {
      LiveSinceRegistration(r, p, m, k);
    }
  }

  /** Every node registered between two steps is deleted again before the second. */
  ghost predicate AllDeletedAgain(r: Run, i: nat, m: nat, g: GroupId)
    requires r.Valid()
  {
    forall p: nat | i < p < m && p < |r.ops| && r.ops[p].Redeem? ::
      IssuedKey(r, p).group == g ==> DeletedWithin(r, p, m, IssuedKey(r, p))
  }

  ghost predicate NoLiveNodes(db: Db, g: GroupId) {
    forall n :: !LiveNode(db, NodeKey(g, n))
  }

  /** Any time after the node-deleting statement at step `i`, the group has no live node exactly if
      every node registered since has been deleted. */
  lemma EmptySinceIff(r: Run, i: nat, m: nat, g: GroupId, now: int)
    requires r.Valid() && i < m < |r.states| && i < |r.ops| && r.ops[i] == SoftDeleteNodes(g, now)
    ensures NoLiveNodes(r.states[m], g) <==> AllDeletedAgain(r, i, m, g)
  {
    if NoLiveNodes(r.states[m], g) {
      forall p: nat | i < p < m && p < |r.ops| && r.ops[p].Redeem? && IssuedKey(r, p).group == g
        ensures DeletedWithin(r, p, m, IssuedKey(r, p))
      {
        var k := IssuedKey(r, p);
        LiveSinceRegistration(r, p, m, k);
        assert !LiveNode(r.states[m], NodeKey(g, k.number));
      }
    }
    if AllDeletedAgain(r, i, m, g) {
      forall n
        ensures !LiveNode(r.states[m], NodeKey(g, n))
      {
        DeletedSince(r, i, m, NodeKey(g, n));
      }
    }
  }

  lemma DeletedSince(r: Run, i: nat, m: nat, k: NodeKey)
    requires r.Valid() && i < m < |r.states| && i < |r.ops| && Deletes(r.ops[i], k)
    requires AllDeletedAgain(r, i, m, k.group)
    ensures !LiveNode(r.states[m], k)
  {
    if k in r.states[m].nodes {
      var p := RegistrationOf(r, m, k);
      LiveSinceRegistration(r, p, m, k);
      if p < i {
        assert DeletedWithin(r, p, m, k);
      }
    }
  }

  /** deleteConnectivityGroup with its statements at steps `i` and `j` and anything in between: the
      group it leaves has no live node exactly if every node registered between the two statements
      was deleted between them, too. */
  lemma DeletedGroupIsEmptyIff(r: Run, i: nat, j: nat, g: GroupId, now: int)
    requires r.Valid() && i < j < |r.ops|
    requires r.ops[i] == SoftDeleteNodes(g, now) && r.ops[j] == MarkGroupDeleted(g, now)
    ensures g in r.states[j].groups ==> DeletedAt(r, j + 1, g)
    ensures NoLiveNodes(r.states[j + 1], g) <==> AllDeletedAgain(r, i, j, g)
  {
    assert r.Follows(j);
    EmptySinceIff(r, i, j, g, now);
    assert r.states[j + 1].nodes == r.states[j].nodes;
  }

  /** The same of resetConnectivityGroup. */
  lemma ResetGroupIsEmptyIff(r: Run, i: nat, j: nat, g: GroupId, now: int)
    requires r.Valid() && i < j < |r.ops|
    requires r.ops[i] == SoftDeleteNodes(g, now) && r.ops[j] == ResetRoster(g)
    ensures Live(r.states[j], g) ==>
              && Live(r.states[j + 1], g) && r.states[j + 1].groups[g].roster.None?
              && r.states[j + 1].groups[g].rosterVersion == 0
    ensures NoLiveNodes(r.states[j + 1], g) <==> AllDeletedAgain(r, i, j, g)
  {
    assert r.Follows(j);
    EmptySinceIff(r, i, j, g, now);
    assert r.states[j + 1].nodes == r.states[j].nodes;
  }

  ghost predicate Undisturbed(r: Run, i: nat, j: nat, g: GroupId) {
    forall q: nat, n: int | i < q < j && q < |r.ops| :: !Deletes(r.ops[q], NodeKey(g, n))
  }

  /** If nothing else deletes nodes of the group meanwhile, no registration may come in between. */
  lemma UndisturbedDeleteIsEmptyIff(r: Run, i: nat, j: nat, g: GroupId, now: int)
    requires r.Valid() && i < j < |r.ops| && Undisturbed(r, i, j, g)
    requires r.ops[i] == SoftDeleteNodes(g, now) && r.ops[j] == MarkGroupDeleted(g, now)
    requires g in r.states[i].groups
    ensures g in r.states[j].groups
    ensures NoLiveNodes(r.states[j + 1], g)
       <==> r.states[i].groups[g].nextNodeNumber == r.states[j].groups[g].nextNodeNumber
  {
    DeletedGroupIsEmptyIff(r, i, j, g, now);
    RunLater(r, i, j);
    if r.states[i].groups[g].nextNodeNumber < r.states[j].groups[g].nextNodeNumber {
      FirstSurvives(r, i, j, g, now);
    } else {
      forall p: nat | i < p < j && r.ops[p].Redeem? && IssuedKey(r, p).group == g
        ensures false
      {
        NumberDrawnWithin(r, i, p, j);
      }
    }
  }

  /** The first node registered in between is not deleted again. */
  lemma FirstSurvives(r: Run, i: nat, j: nat, g: GroupId, now: int)
    requires r.Valid() && i < j < |r.ops| && Undisturbed(r, i, j, g) && r.ops[i] == SoftDeleteNodes(g, now)
    requires g in r.states[i].groups && g in r.states[j].groups
    requires r.states[i].groups[g].nextNodeNumber < r.states[j].groups[g].nextNodeNumber
    ensures !AllDeletedAgain(r, i, j, g)
  {
    var k := NodeKey(g, r.states[i].groups[g].nextNodeNumber);
    NumberInTable(r, i, k);
    NumberInTable(r, j, k);
    var p := RegistrationOf(r, j, k);
    if p < i {
      LiveSinceRegistration(r, p, i, k);
    }
    assert p != i;
    assert !DeletedWithin(r, p, j, k) by {
      assert forall q: nat | p < q < j :: !Deletes(r.ops[q], NodeKey(g, k.number));
    }
  }

  lemma NumberInTable(r: Run, i: nat, k: NodeKey)
    requires r.Valid() && i < |r.states| && k.group in r.states[i].groups
    ensures k in r.states[i].nodes <==> 1 <= k.number < r.states[i].groups[k.group].nextNodeNumber
    ensures r.states[i].groups[k.group].nextNodeNumber >= 1
  {
    RunInv(r, i);
    assert GroupInv(r.states[i], k.group);
    assert k == NodeKey(k.group, k.number);
  }

  /** A live node stays live exactly as long as no operation deletes it. */
  lemma {:induction false} StaysLiveIff(r: Run, i: nat, j: nat, k: NodeKey)
    requires r.Valid() && i <= j < |r.states| && LiveNode(r.states[i], k)
    ensures LiveNode(r.states[j], k) <==> forall q: nat | i <= q < j :: !Deletes(r.ops[q], k)
    ensures k in r.states[j].nodes
    decreases j - i
  {
    if i < j {
      StaysLiveIff(r, i, j - 1, k);
      assert r.Follows(j - 1);
      LiveStep(r.states[j - 1], r.ops[j - 1], k);
    }
  }

  /** A concrete run: the only node of a deleted group, registered between the two statements. */
  lemma LiveNodeInDeletedGroup() returns (r: Run)
    ensures r.Valid() && DeletedAt(r, 5, "g") && LiveNode(r.states[5], NodeKey("g", 1))
  {
    var ops := [CreateGroup("g", None, None, 0), MintToken("t", "g", "h", None, None, 1, 10),
                SoftDeleteNodes("g", 2), Redeem("t", "h", "a", 3, 3, 3), MarkGroupDeleted("g", 2)];
    var s1 := Next(EMPTY, ops[0]);
    var s2 := Next(s1, ops[1]);
    var s3 := Next(s2, ops[2]);
    assert s3 == s2;
    var s4 := Next(s3, ops[3]);
    var s5 := Next(s4, ops[4]);
    r := Run([EMPTY, s1, s2, s3, s4, s5], ops);
    assert r.Follows(0) && r.Follows(1) && r.Follows(2) && r.Follows(3) && r.Follows(4);
  }

  // Numbering.

  /** The primary key of a new node row is always free, so numbering fails only when the group has
      used up the 32-bit numbers; from then on every registration in it rolls back. */
  lemma NumberingFailsOnlyWhenExhausted(r: Run, i: nat, g: GroupId)
    requires r.Valid() && i < |r.states| && g in r.states[i].groups
    ensures CanNumber(r.states[i], g) <==> r.states[i].groups[g].nextNodeNumber != NUMBER_CEILING
    ensures r.states[i].groups[g].nextNodeNumber <= NUMBER_CEILING
  {
    RunInv(r, i);
    assert GroupInv(r.states[i], g);
  }

  // Authentication.

  predicate Authenticates(hash: string -> string, db: Db, k: NodeKey, authToken: string) {
    LiveNode(db, k) && hash(authToken) == db.nodes[k].authTokenHash
  }

  /** The token handed out at registration opens its node at every later moment at which the node
      is not deleted, and only what hashes alike does. */
  lemma RegistrationAuthenticates(hash: string -> string, r: Run, i: nat, j: nat, authToken: string, other: string)
    requires r.Valid() && i < j < |r.states| && i < |r.ops|
    requires r.ops[i].Redeem? && r.ops[i].authTokenHash == hash(authToken)
    ensures Authenticates(hash, r.states[j], IssuedKey(r, i), other) <==>
            LiveNode(r.states[j], IssuedKey(r, i)) && hash(other) == hash(authToken)
  {
    RedemptionAddsOneNode(r, i, r.ops[i].token);
    RunLater(r, i + 1, j);
  }

  /** A deleted node stays deleted and never authenticates again. */
  lemma DeletedNodeStaysOut(hash: string -> string, r: Run, i: nat, j: nat, k: NodeKey, authToken: string)
    requires r.Valid() && i <= j < |r.states|
    requires k in r.states[i].nodes && r.states[i].nodes[k].deletedAt.Some?
    ensures k in r.states[j].nodes && !Authenticates(hash, r.states[j], k, authToken)
  {
    RunLater(r, i, j);
  }

  // Finalizing a registration.

  /** The row stored for a minted token can be redeemed at a later moment exactly when it is unused
      and unexpired in a live group and the submission hashes like codehalf followed by token; so
      under a collision-free hash nothing else, not even the bare token, finalizes it. */
  lemma MintedTokenFinalizes(
      hash: string -> string, req: Tokens.TokenRequest, random: seq<Byte>, minted: Tokens.MintedToken,
      r: Run, i: nat, j: nat, submitted: string, now: int)
    requires r.Valid() && i < j < |r.states| && i < |r.ops| && r.ops[i].MintToken?
    requires |random| >= 8
    requires Tokens.MintRegistrationToken(hash, req, random, r.ops[i].now) == Ok(minted)
    requires r.ops[i].tokenHash == minted.tokenHash && r.ops[i].expiresAt == minted.expiresAt
    ensures r.ops[i].token in r.states[j].tokens
    ensures Redeemable(r.states[j], r.ops[i].token, hash(submitted), now) <==>
            && r.states[j].tokens[r.ops[i].token].usedAt.None?
            && Live(r.states[j], r.ops[i].group)
            && now < minted.expiresAt
            && hash(submitted) == hash(Tokens.CodehalfOf(req) + minted.token)
  {
    assert r.Follows(i);
    RunLater(r, i + 1, j);
    Tokens.MintedTokenShape(hash, req, random, r.ops[i].now, minted);
  }

  // Quota.

  function MintedTokens(db: Db, g: GroupId): set<TokenId> {
    set t | t in db.tokens && db.tokens[t].group == g
  }

  function PendingTokens(db: Db, g: GroupId, now: int): set<TokenId> {
    set t | t in db.tokens && db.tokens[t].group == g && db.tokens[t].usedAt.None? && db.tokens[t].expiresAt > now
  }

  function ExpiredTokens(db: Db, g: GroupId, now: int): set<TokenId> {
    set t | t in db.tokens && db.tokens[t].group == g && db.tokens[t].usedAt.None? && db.tokens[t].expiresAt <= now
  }

  function LiveNodes(db: Db, g: GroupId): set<NodeKey> {
    set k | k in db.nodes && k.group == g && db.nodes[k].deletedAt.None?
  }

  function DeletedNodes(db: Db, g: GroupId): set<NodeKey> {
    set k | k in db.nodes && k.group == g && db.nodes[k].deletedAt.Some?
  }

  /** NodeQuota.Current as getConnectivityGroup reports it: listed nodes plus pending tokens. */
  function Current(db: Db, g: GroupId, now: int): nat {
    |LiveNodes(db, g)| + |PendingTokens(db, g, now)|
  }

  function KeysBelow(g: GroupId, m: nat): set<NodeKey> {
    set n | 1 <= n < m :: NodeKey(g, n)
  }

  lemma {:induction false} KeysBelowSize(g: GroupId, m: nat)
    requires m >= 1
    ensures |KeysBelow(g, m)| == m - 1
  {
    if m == 1 {
      assert KeysBelow(g, m) == {};
    } else {
      KeysBelowSize(g, m - 1);
      assert KeysBelow(g, m) == KeysBelow(g, m - 1) + {NodeKey(g, m - 1)};
    }
  }

  lemma NodesMatchNumbers(db: Db, g: GroupId)
    requires Inv(db) && g in db.groups
    ensures |LiveNodes(db, g)| + |DeletedNodes(db, g)| == db.groups[g].nextNodeNumber - 1
  {
    assert GroupInv(db, g);
    var next := db.groups[g].nextNodeNumber;
    KeysBelowSize(g, next);
    forall k
      ensures k in LiveNodes(db, g) + DeletedNodes(db, g) <==> k in KeysBelow(g, next)
    {
      assert k == NodeKey(k.group, k.number);
      if k.group == g {
        assert NodeKey(g, k.number) in db.nodes <==> 1 <= k.number < next;
      }
    }
    assert LiveNodes(db, g) + DeletedNodes(db, g) == KeysBelow(g, next);
  }

  lemma TokensPartition(db: Db, g: GroupId, now: int)
    ensures |MintedTokens(db, g)| == |PendingTokens(db, g, now)| + |ExpiredTokens(db, g, now)| + |UsedTokens(db, g)|
  {
    var pending, expired, used := PendingTokens(db, g, now), ExpiredTokens(db, g, now), UsedTokens(db, g);
    assert MintedTokens(db, g) == pending + expired + used;
    assert |pending + expired| == |pending| + |expired|;
  }

  /** Tokens and nodes balance at any clock time, so the reported quota is what was minted less
      what expired unused and what was deleted. */
  lemma QuotaConservation(r: Run, i: nat, g: GroupId, now: int)
    requires r.Valid() && i < |r.states| && g in r.states[i].groups
    ensures var db := r.states[i];
            && |UsedTokens(db, g)| == |LiveNodes(db, g)| + |DeletedNodes(db, g)|
            && Current(db, g, now) ==
               |MintedTokens(db, g)| - |ExpiredTokens(db, g, now)| - |DeletedNodes(db, g)|
  {
    RunInv(r, i);
    assert GroupInv(r.states[i], g);
    NodesMatchNumbers(r.states[i], g);
    TokensPartition(r.states[i], g, now);
  }

  lemma RedeemMovesOne(s: Db, op: Op, now: int)
    requires Inv(s) && op.Redeem? && Enabled(s, op)
    ensures var g := s.tokens[op.token].group;
            var k := NodeKey(g, s.groups[g].nextNodeNumber);
            && (op.token in PendingTokens(s, g, now) <==> now < s.tokens[op.token].expiresAt)
            && k !in LiveNodes(s, g)
            && PendingTokens(Next(s, op), g, now) == PendingTokens(s, g, now) - {op.token}
            && LiveNodes(Next(s, op), g) == LiveNodes(s, g) + {k}
  {
  }

  /** Redeeming turns a token into a node, so a report for a clock time at which the token had not
      expired is unchanged by it, and one for a later time grows by one. A report that reads its
      node list before the registration and counts tokens after it misses one in the first case. */
  lemma RedeemKeepsQuotaIff(s: Db, op: Op, now: int)
    requires Inv(s) && op.Redeem? && Enabled(s, op)
    ensures var g := s.tokens[op.token].group;
            var pending := now < s.tokens[op.token].expiresAt;
            && (Current(Next(s, op), g, now) == Current(s, g, now) <==> pending)
            && Current(Next(s, op), g, now) == Current(s, g, now) + (if pending then 0 else 1)
            && |LiveNodes(s, g)| + |PendingTokens(Next(s, op), g, now)| ==
               Current(s, g, now) - (if pending then 1 else 0)
  {
    RedeemMovesOne(s, op, now);
  }
}
