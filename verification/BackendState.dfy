/** The standalone backend's tables, and every SQL statement or transaction on them as one atomic
    operation: the pool holds a single connection. */
module BackendState {
  import opened Wrappers
  import opened Words

  type GroupId = string
  type TokenId = string
  type Bytes = seq<bv8>

  datatype GroupRow = GroupRow(
    name: Option<string>, associationKey: Option<string>, nextNodeNumber: int,
    roster: Option<Bytes>, rosterVersion: int, createdAt: int, deletedAt: Option<int>)

  datatype NodeRow = NodeRow(
    name: Option<string>, authTokenHash: string, metadata: Option<string>,
    lastSeenAt: Option<int>, createdAt: int, deletedAt: Option<int>)

  datatype TokenRow = TokenRow(
    group: GroupId, tokenHash: string, nodeName: Option<string>, nodeMetadata: Option<string>,
    createdAt: int, expiresAt: int, usedAt: Option<int>)

  datatype NodeKey = NodeKey(group: GroupId, number: int)

  datatype Db = Db(groups: map<GroupId, GroupRow>, nodes: map<NodeKey, NodeRow>, tokens: map<TokenId, TokenRow>)

  const EMPTY: Db := Db(map[], map[], map[])

  /** `Redeem` is a registration transaction that commits, with the times its statements read off
      the clock; `RollBack` is any transaction or statement that fails. */
  datatype Op =
    | CreateGroup(group: GroupId, name: Option<string>, associationKey: Option<string>, now: int)
    | MintToken(token: TokenId, group: GroupId, tokenHash: string, nodeName: Option<string>,
                nodeMetadata: Option<string>, now: int, expiresAt: int)
    | Redeem(token: TokenId, tokenHash: string, authTokenHash: string, lookedUpAt: int, createdAt: int, usedAt: int)
    | RollBack
    | SetRoster(group: GroupId, roster: Bytes, newVersion: int, expectedVersion: int)
    | ResetRoster(group: GroupId)
    | SoftDeleteNodes(group: GroupId, now: int)
    | MarkGroupDeleted(group: GroupId, now: int)
    | Deregister(group: GroupId, number: int, now: int)
    | DeleteNode(group: GroupId, number: int, now: int)
    | TouchNode(group: GroupId, number: int, now: int)
    | RenameNode(group: GroupId, number: int, newName: string)

  predicate Live(db: Db, g: GroupId) {
    g in db.groups && db.groups[g].deletedAt.None?
  }

  predicate LiveNode(db: Db, k: NodeKey) {
    k in db.nodes && db.nodes[k].deletedAt.None?
  }

  /** The partial unique index on live association keys. */
  predicate AssociationKeyFree(db: Db, key: Option<string>) {
    key.Some? ==> forall g | Live(db, g) && g in db.groups :: db.groups[g].associationKey != key
  }

  /** The WHERE clause of the token look-up. */
  predicate Redeemable(db: Db, t: TokenId, hash: string, now: int) {
    && t in db.tokens
    && db.tokens[t].tokenHash == hash
    && db.tokens[t].usedAt.None?
    && db.tokens[t].expiresAt > now
    && Live(db, db.tokens[t].group)
  }

  /** The next number still scans into an int32, and its primary key is free. */
  predicate CanNumber(db: Db, g: GroupId) {
    && g in db.groups
    && -MAX_INT32 - 1 <= db.groups[g].nextNodeNumber <= MAX_INT32
    && NodeKey(g, db.groups[g].nextNodeNumber) !in db.nodes
  }

  predicate Accepts(db: Db, g: GroupId, newVersion: int, expectedVersion: int) {
    newVersion > expectedVersion && Live(db, g) && db.groups[g].rosterVersion == expectedVersion
  }

  predicate Enabled(db: Db, op: Op) {
    match op
    case CreateGroup(g, _, key, _) => g !in db.groups && AssociationKeyFree(db, key)
    case MintToken(t, g, _, _, _, _, _) => t !in db.tokens && g in db.groups
    case Redeem(t, hash, _, now, _, _) => Redeemable(db, t, hash, now) && CanNumber(db, db.tokens[t].group)
    case _ => true
  }

  function DoRedeem(db: Db, t: TokenId, authTokenHash: string, createdAt: int, usedAt: int): Db
    requires t in db.tokens && db.tokens[t].group in db.groups
  {
    var token := db.tokens[t];
    var group := db.groups[token.group];
    Db(db.groups[token.group := group.(nextNodeNumber := group.nextNodeNumber + 1)],
       db.nodes[NodeKey(token.group, group.nextNodeNumber) :=
         NodeRow(token.nodeName, authTokenHash, token.nodeMetadata, None, createdAt, None)],
       db.tokens[t := token.(usedAt := Some(usedAt))])
  }

  function DoSoftDeleteNodes(db: Db, g: GroupId, now: int): Db {
    db.(nodes := map k | k in db.nodes ::
          if k.group == g && db.nodes[k].deletedAt.None? then db.nodes[k].(deletedAt := Some(now)) else db.nodes[k])
  }

  function SetNode(db: Db, k: NodeKey, row: NodeRow): Db {
    db.(nodes := db.nodes[k := row])
  }

  function Next(db: Db, op: Op): Db
    requires Enabled(db, op)
  {
    match op
    case CreateGroup(g, name, key, now) =>
      db.(groups := db.groups[g := GroupRow(name, key, 1, None, 0, now, None)])
    case MintToken(t, g, hash, name, metadata, now, expiresAt) =>
      db.(tokens := db.tokens[t := TokenRow(g, hash, name, metadata, now, expiresAt, None)])
    case Redeem(t, _, auth, _, createdAt, usedAt) => DoRedeem(db, t, auth, createdAt, usedAt)
    case RollBack => db
    case SetRoster(g, roster, newVersion, expectedVersion) =>
      if Accepts(db, g, newVersion, expectedVersion)
      then db.(groups := db.groups[g := db.groups[g].(roster := Some(roster), rosterVersion := newVersion)])
      else db
    case ResetRoster(g) =>
      if Live(db, g) then db.(groups := db.groups[g := db.groups[g].(roster := None, rosterVersion := 0)])
      else db
    case SoftDeleteNodes(g, now) => DoSoftDeleteNodes(db, g, now)
    case MarkGroupDeleted(g, now) =>
      if Live(db, g) then db.(groups := db.groups[g := db.groups[g].(deletedAt := Some(now))]) else db
    case Deregister(g, n, now) =>
      var k := NodeKey(g, n);
      if k in db.nodes then SetNode(db, k, db.nodes[k].(deletedAt := Some(now))) else db
    case DeleteNode(g, n, now) =>
      var k := NodeKey(g, n);
      if LiveNode(db, k) then SetNode(db, k, db.nodes[k].(deletedAt := Some(now))) else db
    case TouchNode(g, n, now) =>
      var k := NodeKey(g, n);
      if k in db.nodes then SetNode(db, k, db.nodes[k].(lastSeenAt := Some(now))) else db
    case RenameNode(g, n, name) =>
      var k := NodeKey(g, n);
      if LiveNode(db, k) then SetNode(db, k, db.nodes[k].(name := Some(name))) else db
  }

  /** A finite run of operations from the empty schema. */
  datatype Run = Run(states: seq<Db>, ops: seq<Op>) {
    ghost predicate Valid() {
      && |states| == |ops| + 1
      && states[0] == EMPTY
      && forall i | 0 <= i < |ops| :: Follows(i)
    }

    ghost predicate Follows(i: int)
      requires 0 <= i < |ops| < |states|
    {
      Enabled(states[i], ops[i]) && states[i + 1] == Next(states[i], ops[i])
    }
  }
}
