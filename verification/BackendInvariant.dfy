/** What every backend operation keeps: node numbering, token accounting and roster versions. */
module BackendInvariant {
  import opened Wrappers
  import opened BackendState

  const NUMBER_CEILING: int := 0x8000_0000

  /** A group's node rows are numbered 1, 2, ... without gaps, and stop below 2^31. */
  ghost predicate NumberingInv(db: Db, g: GroupId)
    requires g in db.groups
  {
    && 1 <= db.groups[g].nextNodeNumber <= NUMBER_CEILING
    && forall n :: NodeKey(g, n) in db.nodes <==> 1 <= n < db.groups[g].nextNodeNumber
  }

  function UsedTokens(db: Db, g: GroupId): set<TokenId> {
    set t | t in db.tokens && db.tokens[t].group == g && db.tokens[t].usedAt.Some?
  }

  ghost predicate TokensInv(db: Db, g: GroupId)
    requires g in db.groups
  {
    |UsedTokens(db, g)| == db.groups[g].nextNodeNumber - 1
  }

  ghost predicate RosterInv(db: Db, g: GroupId)
    requires g in db.groups
  {
    && db.groups[g].rosterVersion >= 0
    && (db.groups[g].rosterVersion == 0 <==> db.groups[g].roster.None?)
  }

  ghost predicate GroupInv(db: Db, g: GroupId)
    requires g in db.groups
  {
    NumberingInv(db, g) && TokensInv(db, g) && RosterInv(db, g)
  }

  /** Rows refer to existing groups: the two foreign keys. */
  ghost predicate ForeignKeys(db: Db) {
    && (forall k | k in db.nodes :: k.group in db.groups)
    && (forall t | t in db.tokens :: db.tokens[t].group in db.groups)
  }

  ghost predicate KeysUnique(db: Db) {
    forall g, h | Live(db, g) && Live(db, h) && g != h ::
      db.groups[g].associationKey.Some? ==> db.groups[g].associationKey != db.groups[h].associationKey
  }

  ghost predicate Inv(db: Db) {
    && ForeignKeys(db)
    && KeysUnique(db)
    && forall g | g in db.groups :: GroupInv(db, g)
  }

  lemma InvInit()
    ensures Inv(EMPTY)
  {
  }

  /** Operations on the node columns or the roster leave numbering and accounting alone. */
  ghost predicate SameAccounts(s: Db, t: Db) {
    && s.groups.Keys == t.groups.Keys
    && (forall g | g in s.groups :: t.groups[g].nextNodeNumber == s.groups[g].nextNodeNumber)
    && s.nodes.Keys == t.nodes.Keys
    && s.tokens == t.tokens
  }

  lemma FrameAccounts(s: Db, t: Db)
    requires Inv(s) && SameAccounts(s, t)
    ensures ForeignKeys(t)
    ensures forall g | g in t.groups :: NumberingInv(t, g) && TokensInv(t, g)
  {
  }

  lemma FrameNodes(s: Db, t: Db)
    requires Inv(s) && t.groups == s.groups && t.nodes.Keys == s.nodes.Keys && t.tokens == s.tokens
    ensures Inv(t)
  {
    FrameAccounts(s, t);
    forall g | g in t.groups
      ensures RosterInv(t, g)
    {
      assert GroupInv(s, g);
    }
    assert forall g :: Live(t, g) == Live(s, g);
  }

  predicate OnNodes(op: Op) {
    op.SoftDeleteNodes? || op.Deregister? || op.DeleteNode? || op.TouchNode? || op.RenameNode?
  }

  lemma NodeOpsKeepKeys(s: Db, op: Op)
    requires OnNodes(op)
    ensures var t := Next(s, op);
            t.groups == s.groups && t.nodes.Keys == s.nodes.Keys && t.tokens == s.tokens
  {
  }

  /** Changing one group's roster columns or deletion mark. */
  lemma FrameGroup(s: Db, g: GroupId, row: GroupRow)
    requires Inv(s) && Live(s, g)
    requires row.nextNodeNumber == s.groups[g].nextNodeNumber && row.associationKey == s.groups[g].associationKey
    requires row.rosterVersion >= 0 && (row.rosterVersion == 0 <==> row.roster.None?)
    ensures Inv(s.(groups := s.groups[g := row]))
  {
  }

  lemma KeepsRoster(s: Db, op: Op)
    requires Inv(s) && (op.SetRoster? || op.ResetRoster? || op.MarkGroupDeleted?)
    ensures Inv(Next(s, op))
  {
    var g := op.group;
    if Live(s, g) {
      assert GroupInv(s, g);
      match op
      case SetRoster(_, roster, newVersion, expectedVersion) =>
        if Accepts(s, g, newVersion, expectedVersion) {
          FrameGroup(s, g, s.groups[g].(roster := Some(roster), rosterVersion := newVersion));
        }
      case ResetRoster(_) => FrameGroup(s, g, s.groups[g].(roster := None, rosterVersion := 0));
      case MarkGroupDeleted(_, now) => FrameGroup(s, g, s.groups[g].(deletedAt := Some(now)));
    }
  }

  lemma CreateKeepsGroup(s: Db, op: Op, g: GroupId)
    requires Inv(s) && op.CreateGroup? && Enabled(s, op) && g in Next(s, op).groups
    ensures GroupInv(Next(s, op), g)
  {
    var t := Next(s, op);
    if g == op.group {
      assert UsedTokens(t, g) == {};
    } else {
      assert GroupInv(s, g) && UsedTokens(t, g) == UsedTokens(s, g);
    }
  }

  lemma CreateKeepsRows(s: Db, op: Op)
    requires Inv(s) && op.CreateGroup? && Enabled(s, op)
    ensures ForeignKeys(Next(s, op)) && KeysUnique(Next(s, op))
  {
  }

  lemma KeepsCreate(s: Db, op: Op)
    requires Inv(s) && op.CreateGroup? && Enabled(s, op)
    ensures Inv(Next(s, op))
  {
    CreateKeepsRows(s, op);
    forall g | g in Next(s, op).groups
      ensures GroupInv(Next(s, op), g)
    {
      CreateKeepsGroup(s, op, g);
    }
  }

  lemma KeepsMint(s: Db, op: Op)
    requires Inv(s) && op.MintToken? && Enabled(s, op)
    ensures Inv(Next(s, op))
  {
    var t := Next(s, op);
    forall g | g in t.groups
      ensures GroupInv(t, g)
    {
      assert GroupInv(s, g) && UsedTokens(t, g) == UsedTokens(s, g);
    }
    assert forall g :: Live(t, g) == Live(s, g);
  }

  /** The transaction as a whole: one token used, one number drawn, one node row added. */
  lemma RedeemEffect(s: Db, op: Op)
    requires Inv(s) && op.Redeem? && Enabled(s, op)
    ensures var t := Next(s, op);
            var g := s.tokens[op.token].group;
            && g in s.groups && g in t.groups
            && (forall h :: UsedTokens(t, h) == if h == g then UsedTokens(s, h) + {op.token} else UsedTokens(s, h))
            && op.token !in UsedTokens(s, g)
            && t.nodes.Keys == s.nodes.Keys + {NodeKey(g, s.groups[g].nextNodeNumber)}
            && NodeKey(g, s.groups[g].nextNodeNumber) !in s.nodes
            && t.groups[g].nextNodeNumber == s.groups[g].nextNodeNumber + 1
  {
  }

  lemma RedeemNumbering(s: Db, op: Op, h: GroupId)
    requires Inv(s) && op.Redeem? && Enabled(s, op) && h in s.groups
    ensures NumberingInv(Next(s, op), h)
  {
  }

  lemma RedeemAccounts(s: Db, op: Op, h: GroupId)
    requires Inv(s) && op.Redeem? && Enabled(s, op) && h in s.groups
    ensures TokensInv(Next(s, op), h) && RosterInv(Next(s, op), h)
  {
    RedeemEffect(s, op);
    assert GroupInv(s, h);
  }

  lemma RedeemRows(s: Db, op: Op)
    requires Inv(s) && op.Redeem? && Enabled(s, op)
    ensures ForeignKeys(Next(s, op)) && KeysUnique(Next(s, op))
  {
  }

  lemma KeepsRedeem(s: Db, op: Op)
    requires Inv(s) && op.Redeem? && Enabled(s, op)
    ensures Inv(Next(s, op))
  {
    RedeemRows(s, op);
    forall h | h in Next(s, op).groups
      ensures GroupInv(Next(s, op), h)
    {
      RedeemAccounts(s, op, h);
      RedeemNumbering(s, op, h);
    }
  }

  /** Every operation, committed or rolled back, keeps the invariant. */
  lemma InvStep(s: Db, op: Op)
    requires Inv(s) && Enabled(s, op)
    ensures Inv(Next(s, op))
  {
    match op
    case CreateGroup(_, _, _, _) => KeepsCreate(s, op);
    case MintToken(_, _, _, _, _, _, _) => KeepsMint(s, op);
    case Redeem(_, _, _, _, _, _) => KeepsRedeem(s, op);
    case RollBack =>
    case SetRoster(_, _, _, _) => KeepsRoster(s, op);
    case ResetRoster(_) => KeepsRoster(s, op);
    case MarkGroupDeleted(_, _) => KeepsRoster(s, op);
    case _ =>
      NodeOpsKeepKeys(s, op);
      FrameNodes(s, Next(s, op));
  }

  lemma {:induction false} RunInv(r: Run, i: nat)
    requires r.Valid() && i < |r.states|
    ensures Inv(r.states[i])
  {
    if i == 0 {
      InvInit();
    } else {
      RunInv(r, i - 1);
      assert r.Follows(i - 1);
      InvStep(r.states[i - 1], r.ops[i - 1]);
    }
  }
}
