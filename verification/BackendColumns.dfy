/** What each operation writes to each column, and where the columns of a row come from over runs. */
module BackendColumns {
  import opened Wrappers
  import opened Words
  import opened BackendState
  import opened BackendInvariant
  import opened BackendRuns
  import opened BackendTheorems

  // Single operations.

  /** When an operation goes through: unique keys, existing references, and for a registration the
      look-up's conditions and a next number that fits an int32. */
  lemma EnabledIff(db: Db, op: Op)
    ensures Enabled(db, op) <==>
            match op
            case CreateGroup(g, _, key, _) =>
              && g !in db.groups
              && (key == None ||
                  forall h | h in db.groups && db.groups[h].deletedAt == None :: db.groups[h].associationKey != key)
            case MintToken(t, g, _, _, _, _, _) => t !in db.tokens && g in db.groups
            case Redeem(t, hash, _, now, _, _) =>
              && t in db.tokens && db.tokens[t].tokenHash == hash
              && db.tokens[t].usedAt == None && now < db.tokens[t].expiresAt
              && (var g := db.tokens[t].group;
                  && g in db.groups && db.groups[g].deletedAt == None
                  && -0x8000_0000 <= db.groups[g].nextNodeNumber < 0x8000_0000
                  && NodeKey(g, db.groups[g].nextNodeNumber) !in db.nodes)
            case _ => true
  {
  }

  /** Which operations write to a node row, and what. */
  lemma NodeStep(s: Db, op: Op, k: NodeKey)
    requires Enabled(s, op) && k in s.nodes
    requires op.Redeem? ==> k != NodeKey(s.tokens[op.token].group, s.groups[s.tokens[op.token].group].nextNodeNumber)
    ensures k in Next(s, op).nodes
    ensures var row := s.nodes[k];
            Next(s, op).nodes[k] ==
            match op
            case RenameNode(g, n, name) =>
              if k == NodeKey(g, n) && row.deletedAt == None then row.(name := Some(name)) else row
            case TouchNode(g, n, now) => if k == NodeKey(g, n) then row.(lastSeenAt := Some(now)) else row
            case SoftDeleteNodes(g, now) =>
              if k.group == g && row.deletedAt == None then row.(deletedAt := Some(now)) else row
            case DeleteNode(g, n, now) =>
              if k == NodeKey(g, n) && row.deletedAt == None then row.(deletedAt := Some(now)) else row
            case Deregister(g, n, now) => if k == NodeKey(g, n) then row.(deletedAt := Some(now)) else row
            case _ => row
  {
  }

  /** A new node row: name and metadata from the token, credential and creation time from the
      operation, not yet seen, not deleted. Nothing else adds rows, and nothing removes any. */
  lemma NewNodeRow(s: Db, op: Op, k: NodeKey)
    requires Enabled(s, op)
    ensures k in Next(s, op).nodes && k !in s.nodes <==>
            && op.Redeem?
            && k == NodeKey(s.tokens[op.token].group, s.groups[s.tokens[op.token].group].nextNodeNumber)
    ensures k in Next(s, op).nodes && k !in s.nodes ==>
              var token := s.tokens[op.token];
              Next(s, op).nodes[k] ==
              NodeRow(token.nodeName, op.authTokenHash, token.nodeMetadata, None, op.createdAt, None)
  {
  }

  /** Which operations write to a group row, and what. */
  lemma GroupStep(s: Db, op: Op, g: GroupId)
    requires Enabled(s, op) && g in s.groups
    ensures g in Next(s, op).groups
    ensures var row := s.groups[g];
            Next(s, op).groups[g] ==
            match op
            case Redeem(t, _, _, _, _, _) =>
              if s.tokens[t].group == g then row.(nextNodeNumber := row.nextNodeNumber + 1) else row
            case SetRoster(h, roster, newVersion, expectedVersion) =>
              if h == g && row.deletedAt == None && row.rosterVersion == expectedVersion < newVersion
              then row.(roster := Some(roster), rosterVersion := newVersion) else row
            case ResetRoster(h) =>
              if h == g && row.deletedAt == None then row.(roster := None, rosterVersion := 0) else row
            case MarkGroupDeleted(h, now) =>
              if h == g && row.deletedAt == None then row.(deletedAt := Some(now)) else row
            case _ => row
  {
  }

  /** A new group row: numbering starts at 1, no roster at version 0. */
  lemma NewGroupStep(s: Db, op: Op, g: GroupId)
    requires Enabled(s, op)
    ensures g in Next(s, op).groups && g !in s.groups <==> op.CreateGroup? && op.group == g
    ensures op.CreateGroup? && op.group == g ==>
              Next(s, op).groups[g] == GroupRow(op.name, op.associationKey, 1, None, 0, op.now, None)
  {
  }

  /** A token row is written when it is minted and when it is used. */
  lemma TokenStep(s: Db, op: Op, t: TokenId)
    requires Enabled(s, op)
    ensures t in s.tokens ==>
              && t in Next(s, op).tokens
              && Next(s, op).tokens[t] ==
                 if op.Redeem? && op.token == t then s.tokens[t].(usedAt := Some(op.usedAt)) else s.tokens[t]
    ensures t in Next(s, op).tokens && t !in s.tokens <==> op.MintToken? && op.token == t
    ensures op.MintToken? && op.token == t ==>
              Next(s, op).tokens[t] ==
              TokenRow(op.group, op.tokenHash, op.nodeName, op.nodeMetadata, op.now, op.expiresAt, None)
  {
  }

  // Whole runs.

  /** The operation that minted a token, whose columns it keeps but for the used mark. */
  lemma {:induction false} MintOf(r: Run, m: nat, t: TokenId) returns (p: nat)
    requires r.Valid() && m < |r.states| && t in r.states[m].tokens
    ensures p < m && p < |r.ops| && r.ops[p].MintToken? && r.ops[p].token == t
    ensures var op := r.ops[p];
            r.states[m].tokens[t].(usedAt := None) ==
            TokenRow(op.group, op.tokenHash, op.nodeName, op.nodeMetadata, op.now, op.expiresAt, None)
  {
    assert r.Follows(m - 1);
    TokenStep(r.states[m - 1], r.ops[m - 1], t);
    if t in r.states[m - 1].tokens {
      p := MintOf(r, m - 1, t);
    } else {
      p := m - 1;
    }
  }

  predicate Renames(op: Op, k: NodeKey) {
    op.RenameNode? && NodeKey(op.group, op.number) == k
  }

  predicate Touches(op: Op, k: NodeKey) {
    op.TouchNode? && NodeKey(op.group, op.number) == k
  }

  /** A registered node's columns right after its registration: those of the request that minted its
      token, and of the registration. */
  lemma RegisteredColumns(r: Run, p: nat, k: NodeKey) returns (q: nat)
    requires r.Valid() && Registers(r, p, k)
    ensures k in r.states[p + 1].nodes
    ensures q < p && r.ops[q].MintToken? && r.ops[q].token == r.ops[p].token && r.ops[q].group == k.group
    ensures r.states[p + 1].nodes[k] ==
            NodeRow(r.ops[q].nodeName, r.ops[p].authTokenHash, r.ops[q].nodeMetadata, None, r.ops[p].createdAt, None)
  {
    assert r.Follows(p);
    RunInv(r, p);
    RedeemEffect(r.states[p], r.ops[p]);
    NewNodeRow(r.states[p], r.ops[p], k);
    q := MintOf(r, p, r.ops[p].token);
  }

  lemma NodeStepAt(r: Run, n: nat, k: NodeKey)
    requires r.Valid() && n < |r.ops| && k in r.states[n].nodes
    ensures k in r.states[n + 1].nodes
    ensures var a, b, op := r.states[n].nodes[k], r.states[n + 1].nodes[k], r.ops[n];
            && b.authTokenHash == a.authTokenHash && b.metadata == a.metadata && b.createdAt == a.createdAt
            && b.name == (if Renames(op, k) && a.deletedAt == None then Some(op.newName) else a.name)
            && b.lastSeenAt == (if Touches(op, k) then Some(op.now) else a.lastSeenAt)
  {
    assert r.Follows(n);
    if r.ops[n].Redeem? {
      RunInv(r, n);
      RedeemEffect(r.states[n], r.ops[n]);
    }
    NodeStep(r.states[n], r.ops[n], k);
  }

  /** Between two steps credential, metadata and creation time stay, the name stays unless the node is
      renamed, and the last-seen time unless it connects. */
  lemma {:induction false} ColumnsStay(r: Run, i: nat, m: nat, k: NodeKey)
    requires r.Valid() && i <= m < |r.states| && k in r.states[i].nodes
    ensures k in r.states[m].nodes
    ensures var a, b := r.states[i].nodes[k], r.states[m].nodes[k];
            && b.authTokenHash == a.authTokenHash && b.metadata == a.metadata && b.createdAt == a.createdAt
            && ((forall n: nat | i <= n < m :: !Renames(r.ops[n], k)) ==> b.name == a.name)
            && ((forall n: nat | i <= n < m :: !Touches(r.ops[n], k)) ==> b.lastSeenAt == a.lastSeenAt)
    decreases m - i
  {
    if i < m {
      ColumnsStay(r, i, m - 1, k);
      NodeStepAt(r, m - 1, k);
    }
  }

  /** Over any run, a node carries the metadata of the request that minted its token for good, and
      that request's node name until it is renamed. */
  lemma NodeCarriesRequest(r: Run, p: nat, m: nat, k: NodeKey) returns (q: nat)
    requires r.Valid() && p < m < |r.states| && Registers(r, p, k)
    ensures q < p && r.ops[q].MintToken? && r.ops[q].token == r.ops[p].token && r.ops[q].group == k.group
    ensures k in r.states[m].nodes
    ensures r.states[m].nodes[k].metadata == r.ops[q].nodeMetadata
    ensures r.states[m].nodes[k].authTokenHash == r.ops[p].authTokenHash
    ensures r.states[m].nodes[k].createdAt == r.ops[p].createdAt
    ensures (forall n: nat | p < n < m :: !Renames(r.ops[n], k)) ==> r.states[m].nodes[k].name == r.ops[q].nodeName
    ensures (forall n: nat | p < n < m :: !Touches(r.ops[n], k)) ==> r.states[m].nodes[k].lastSeenAt == None
  {
    q := RegisteredColumns(r, p, k);
    ColumnsStay(r, p + 1, m, k);
  }

  /** A rename of a live node holds until the next one, a last-seen time until the next. */
  lemma LastWriteHolds(r: Run, n: nat, m: nat, k: NodeKey)
    requires r.Valid() && n < m < |r.states| && k in r.states[n].nodes
    ensures k in r.states[m].nodes
    ensures Renames(r.ops[n], k) && LiveNode(r.states[n], k) && (forall q: nat | n < q < m :: !Renames(r.ops[q], k)) ==>
              r.states[m].nodes[k].name == Some(r.ops[n].newName)
    ensures Touches(r.ops[n], k) && (forall q: nat | n < q < m :: !Touches(r.ops[q], k)) ==>
              r.states[m].nodes[k].lastSeenAt == Some(r.ops[n].now)
  {
    NodeStepAt(r, n, k);
    ColumnsStay(r, n + 1, m, k);
  }

  /** A group keeps the name, key and creation time it was created with. */
  lemma {:induction false} GroupKeepsIdentity(r: Run, m: nat, g: GroupId) returns (p: nat)
    requires r.Valid() && m < |r.states| && g in r.states[m].groups
    ensures p < m && p < |r.ops| && r.ops[p].CreateGroup? && r.ops[p].group == g
    ensures var row := r.states[m].groups[g];
            row.name == r.ops[p].name && row.associationKey == r.ops[p].associationKey && row.createdAt == r.ops[p].now
  {
    assert r.Follows(m - 1);
    NewGroupStep(r.states[m - 1], r.ops[m - 1], g);
    if g in r.states[m - 1].groups {
      GroupStep(r.states[m - 1], r.ops[m - 1], g);
      p := GroupKeepsIdentity(r, m - 1, g);
    } else {
      p := m - 1;
    }
  }
}
