/** What holds across whole runs of the backend. */
module BackendRuns {
  import opened Wrappers
  import opened Words
  import opened BackendState
  import opened BackendInvariant

  /** Everything that is never undone. */
  ghost predicate Later(s: Db, t: Db) {
    && (forall g | g in s.groups :: g in t.groups && s.groups[g].nextNodeNumber <= t.groups[g].nextNodeNumber)
    && (forall g | g in s.groups && s.groups[g].deletedAt.Some? :: g in t.groups && t.groups[g] == s.groups[g])
    && (forall k | k in s.nodes :: k in t.nodes && t.nodes[k].authTokenHash == s.nodes[k].authTokenHash)
    && (forall k | k in s.nodes && s.nodes[k].deletedAt.Some? :: k in t.nodes && t.nodes[k].deletedAt.Some?)
    && (forall x | x in s.tokens :: x in t.tokens && TokenAfter(s.tokens[x], t.tokens[x]))
  }

  predicate TokenAfter(a: TokenRow, b: TokenRow) {
    && b.(usedAt := a.usedAt) == a
    && (a.usedAt.Some? ==> b == a)
  }

  lemma LaterTransitive(s: Db, t: Db, u: Db)
    requires Later(s, t) && Later(t, u)
    ensures Later(s, u)
  {
  }

  lemma LaterOnNodes(s: Db, op: Op)
    requires OnNodes(op)
    ensures Later(s, Next(s, op))
  {
    NodeOpsKeepKeys(s, op);
  }

  lemma LaterRedeem(s: Db, op: Op)
    requires op.Redeem? && Enabled(s, op)
    ensures Later(s, Next(s, op))
  {
  }

  lemma StepLater(s: Db, op: Op)
    requires Enabled(s, op)
    ensures Later(s, Next(s, op))
  {
    if op.Redeem? {
      LaterRedeem(s, op);
    } else if OnNodes(op) {
      LaterOnNodes(s, op);
    }
  }

  lemma {:induction false} RunLater(r: Run, i: nat, j: nat)
    requires r.Valid() && i <= j < |r.states|
    ensures Later(r.states[i], r.states[j])
    decreases j - i
  {
    if i < j {
      RunLater(r, i, j - 1);
      assert r.Follows(j - 1);
      StepLater(r.states[j - 1], r.ops[j - 1]);
      LaterTransitive(r.states[i], r.states[j - 1], r.states[j]);
    }
  }

  // Node numbers.

  predicate Redeems(r: Run, i: nat, t: TokenId) {
    i < |r.ops| && r.ops[i].Redeem? && r.ops[i].token == t
  }

  /** The node created by the redemption at step `i`. */
  ghost function IssuedKey(r: Run, i: nat): NodeKey
    requires r.Valid() && i < |r.ops| && r.ops[i].Redeem?
  {
    assert r.Follows(i);
    var g := r.states[i].tokens[r.ops[i].token].group;
    NodeKey(g, r.states[i].groups[g].nextNodeNumber)
  }

  lemma NumberDrawn(r: Run, i: nat)
    requires r.Valid() && i < |r.ops| && r.ops[i].Redeem?
    ensures var k := IssuedKey(r, i);
            && k.group in r.states[i].groups && k.group in r.states[i + 1].groups
            && k.number == r.states[i].groups[k.group].nextNodeNumber
            && k.number + 1 == r.states[i + 1].groups[k.group].nextNodeNumber
            && 1 <= k.number <= MAX_INT32
  {
    RunInv(r, i);
    assert r.Follows(i);
    assert GroupInv(r.states[i], IssuedKey(r, i).group);
  }

  /** No (group, number) pair is issued twice, whatever is deleted or reset in between. */
  lemma NumbersNeverReissued(r: Run, i: nat, j: nat)
    requires r.Valid() && i < j < |r.ops| && r.ops[i].Redeem? && r.ops[j].Redeem?
    ensures IssuedKey(r, i) != IssuedKey(r, j)
    ensures IssuedKey(r, i).group == IssuedKey(r, j).group ==> IssuedKey(r, i).number < IssuedKey(r, j).number
    ensures 1 <= IssuedKey(r, i).number <= MAX_INT32
  {
    NumberDrawn(r, i);
    NumberDrawn(r, j);
    RunLater(r, i + 1, j);
  }

  // Tokens.

  lemma RedeemedAt(r: Run, i: nat, t: TokenId)
    requires r.Valid() && Redeems(r, i, t)
    ensures t in r.states[i].tokens && r.states[i].tokens[t].usedAt.None?
    ensures t in r.states[i + 1].tokens && r.states[i + 1].tokens[t].usedAt.Some?
  {
    assert r.Follows(i);
  }

  lemma UsedStaysUsed(r: Run, i: nat, j: nat, t: TokenId)
    requires r.Valid() && i <= j < |r.states| && t in r.states[i].tokens && r.states[i].tokens[t].usedAt.Some?
    ensures t in r.states[j].tokens && r.states[j].tokens[t] == r.states[i].tokens[t]
  {
    RunLater(r, i, j);
  }

  /** A token row is redeemed at most once in any run. */
  lemma TokenRedeemedOnce(r: Run, i: nat, j: nat, t: TokenId)
    requires r.Valid() && Redeems(r, i, t) && Redeems(r, j, t)
    ensures i == j
  {
    RedeemedAt(r, i, t);
    RedeemedAt(r, j, t);
    if i < j {
      UsedStaysUsed(r, i + 1, j, t);
    } else if j < i {
      UsedStaysUsed(r, j + 1, i, t);
    }
  }

  /** Redemption happens before the token expires and while its group is live, and comes with
      exactly one node row that was not there before. */
  lemma RedemptionAddsOneNode(r: Run, i: nat, t: TokenId)
    requires r.Valid() && Redeems(r, i, t)
    ensures var s, u := r.states[i], r.states[i + 1];
            && t in s.tokens && s.tokens[t].expiresAt > r.ops[i].lookedUpAt
            && Live(s, s.tokens[t].group) && IssuedKey(r, i).group == s.tokens[t].group
            && IssuedKey(r, i) !in s.nodes
            && u.nodes.Keys == s.nodes.Keys + {IssuedKey(r, i)}
            && LiveNode(u, IssuedKey(r, i))
            && u.nodes[IssuedKey(r, i)] ==
               NodeRow(s.tokens[t].nodeName, r.ops[i].authTokenHash, s.tokens[t].nodeMetadata,
                       None, r.ops[i].createdAt, None)
            && t in u.tokens && u.tokens[t] == s.tokens[t].(usedAt := Some(r.ops[i].usedAt))
            && (forall x | x in u.tokens && x != t :: x in s.tokens && u.tokens[x] == s.tokens[x])
  {
    assert r.Follows(i);
    RunInv(r, i);
    RedeemEffect(r.states[i], r.ops[i]);
  }

  // The roster chain.

  ghost predicate AcceptedAt(r: Run, i: nat, g: GroupId)
    requires r.Valid()
  {
    && i < |r.ops| && r.ops[i].SetRoster? && r.ops[i].group == g
    && Accepts(r.states[i], g, r.ops[i].newVersion, r.ops[i].expectedVersion)
  }

  ghost predicate ResetAt(r: Run, i: nat, g: GroupId)
    requires r.Valid()
  {
    i < |r.ops| && r.ops[i] == ResetRoster(g) && Live(r.states[i], g)
  }

  /** Only an accepted update, a reset or the group's creation touches the roster columns. */
  lemma RosterUntouched(r: Run, i: nat, g: GroupId)
    requires r.Valid() && i < |r.ops|
    requires !AcceptedAt(r, i, g) && !ResetAt(r, i, g)
    ensures g in r.states[i].groups ==>
              && g in r.states[i + 1].groups
              && r.states[i + 1].groups[g].roster == r.states[i].groups[g].roster
              && r.states[i + 1].groups[g].rosterVersion == r.states[i].groups[g].rosterVersion
    ensures g !in r.states[i].groups && g in r.states[i + 1].groups ==>
              r.states[i + 1].groups[g].roster.None? && r.states[i + 1].groups[g].rosterVersion == 0
  {
    assert r.Follows(i);
  }

  /** Between two steps no reset of the group took effect. */
  ghost predicate SameEpoch(r: Run, i: nat, j: nat, g: GroupId)
    requires r.Valid()
  {
    forall n: nat | i <= n < j :: !ResetAt(r, n, g)
  }

  /** Stored versions never go back within an epoch. */
  lemma {:induction false} VersionsGrow(r: Run, i: nat, j: nat, g: GroupId)
    requires r.Valid() && i <= j < |r.states| && g in r.states[i].groups && SameEpoch(r, i, j, g)
    ensures g in r.states[j].groups
    ensures r.states[i].groups[g].rosterVersion <= r.states[j].groups[g].rosterVersion
    decreases j - i
  {
    if i < j {
      VersionsGrow(r, i, j - 1, g);
      if !AcceptedAt(r, j - 1, g) {
        RosterUntouched(r, j - 1, g);
      } else {
        assert r.Follows(j - 1);
      }
    }
  }

  /** Accepted updates of one epoch form a chain: each expects at least the version its predecessor
      set, so versions strictly increase, and no two accepted updates expect the same version. */
  lemma RosterChain(r: Run, i: nat, j: nat, g: GroupId)
    requires r.Valid() && i < j && AcceptedAt(r, i, g) && AcceptedAt(r, j, g) && SameEpoch(r, i + 1, j, g)
    ensures r.ops[i].expectedVersion < r.ops[i].newVersion <= r.ops[j].expectedVersion < r.ops[j].newVersion
    ensures (forall n: nat | i < n < j :: !AcceptedAt(r, n, g)) ==> r.ops[j].expectedVersion == r.ops[i].newVersion
  {
    assert r.Follows(i);
    VersionsGrow(r, i + 1, j, g);
    if forall n: nat | i < n < j :: !AcceptedAt(r, n, g) {
      UntouchedBetween(r, i + 1, j, g);
    }
  }

  lemma {:induction false} UntouchedBetween(r: Run, i: nat, j: nat, g: GroupId)
    requires r.Valid() && i <= j < |r.states| && g in r.states[i].groups && SameEpoch(r, i, j, g)
    requires forall n: nat | i <= n < j :: !AcceptedAt(r, n, g)
    ensures g in r.states[j].groups
    ensures r.states[j].groups[g].roster == r.states[i].groups[g].roster
    ensures r.states[j].groups[g].rosterVersion == r.states[i].groups[g].rosterVersion
    decreases j - i
  {
    if i < j {
      UntouchedBetween(r, i, j - 1, g);
      RosterUntouched(r, j - 1, g);
    }
  }

  /** Of any updates naming the same expected version within an epoch, at most one is accepted. */
  lemma AtMostOneWins(r: Run, i: nat, j: nat, g: GroupId)
    requires r.Valid() && AcceptedAt(r, i, g) && AcceptedAt(r, j, g)
    requires SameEpoch(r, i, j, g) && SameEpoch(r, j, i, g)
    requires r.ops[i].expectedVersion == r.ops[j].expectedVersion
    ensures i == j
  {
    if i < j {
      RosterChain(r, i, j, g);
    } else if j < i {
      RosterChain(r, j, i, g);
    }
  }

  /** What a group's roster columns hold: the last accepted update, or nothing at version 0 if the
      epoch has none yet. */
  lemma {:induction false} StoredIsLastAccepted(r: Run, m: nat, g: GroupId) returns (last: Option<nat>)
    requires r.Valid() && m < |r.states| && g in r.states[m].groups
    ensures last.Some? ==>
              && last.value < m && AcceptedAt(r, last.value, g)
              && SameEpoch(r, last.value, m, g)
              && (forall n: nat | last.value < n < m :: !AcceptedAt(r, n, g))
              && r.states[m].groups[g].roster == Some(r.ops[last.value].roster)
              && r.states[m].groups[g].rosterVersion == r.ops[last.value].newVersion
    ensures last.None? ==>
              && r.states[m].groups[g].roster.None? && r.states[m].groups[g].rosterVersion == 0
              && (forall n: nat | n < m && AcceptedAt(r, n, g) :: !SameEpoch(r, n, m, g))
  {
    assert r.Follows(m - 1);
    if AcceptedAt(r, m - 1, g) {
      last := Some(m - 1);
    } else if ResetAt(r, m - 1, g) {
      last := None;
    } else {
      RosterUntouched(r, m - 1, g);
      if g in r.states[m - 1].groups {
        last := StoredIsLastAccepted(r, m - 1, g);
      } else {
        last := None;
        NoUpdateBeforeCreation(r, m - 1, g);
      }
    }
  }

  lemma NoUpdateBeforeCreation(r: Run, m: nat, g: GroupId)
    requires r.Valid() && m < |r.states| && g !in r.states[m].groups
    ensures forall n: nat | n <= m :: !AcceptedAt(r, n, g)
  {
    forall n: nat | n <= m
      ensures !AcceptedAt(r, n, g)
    {
      RunLater(r, n, m);
    }
  }

  /** The first accepted update of an epoch expects version 0. */
  lemma EpochStartsAtZero(r: Run, i: nat, g: GroupId)
    requires r.Valid() && AcceptedAt(r, i, g)
    requires forall n: nat | n < i && AcceptedAt(r, n, g) :: !SameEpoch(r, n, i, g)
    ensures r.ops[i].expectedVersion == 0
  {
    var last := StoredIsLastAccepted(r, i, g);
  }
}
