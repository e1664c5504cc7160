/** What every atomic step of the router keeps. */
module RoutingInvariant {
  import opened Wrappers
  import opened Words
  import opened Streams
  import opened Routing

  /** Request IDs are the wrapped call numbers; they repeat only after 2^64 calls. */
  ghost predicate IdsInv(s: Group) {
    && |s.calls| <= TWO_64
    && s.counter == Wrap64(|s.calls|)
    && forall k | 0 <= k < |s.calls| :: s.calls[k].reqId == Wrap64(k + 1)
  }

  predicate Waiting(s: Group, id: int, k: nat) {
    k < |s.calls| && s.calls[k].reqId == id && s.calls[k].pc.Registered? && s.calls[k].outcome.Pending?
  }

  ghost predicate FuturesInv(s: Group) {
    forall id | id in s.futures :: Waiting(s, id, s.futures[id])
  }

  predicate OnConn(s: Group, k: nat, c: nat)
    requires k < |s.calls|
  {
    c < |s.conns| && s.conns[c].node == s.calls[k].node
  }

  predicate InTable(s: Group, k: nat)
    requires k < |s.calls|
  {
    s.calls[k].reqId in s.futures && s.futures[s.calls[k].reqId] == k
  }

  predicate CallInv(s: Group, k: nat)
    requires k < |s.calls|
  {
    var call := s.calls[k];
    match call.pc
    case Started => call.outcome.Pending?
    case Found(c) => call.outcome.Pending? && OnConn(s, k, c)
    case HandedOff(c) => call.outcome.Pending? && OnConn(s, k, c)
    case Registered(c) =>
      && OnConn(s, k, c)
      && (call.outcome.Pending? ==> InTable(s, k))
      && (call.outcome.Resolved? ==> call.outcome.resp.requestId == call.reqId && !call.outcome.resp.kind.CheckIn?)
    case Abandoned => call.outcome.FailedWith?
  }

  ghost predicate CallsInv(s: Group) {
    forall k | 0 <= k < |s.calls| :: CallInv(s, k)
  }

  predicate IsCurrent(s: Group, c: nat)
    requires c < |s.conns|
  {
    s.conns[c].node in s.current && s.current[s.conns[c].node] == c
  }

  /** A newer connector for the same node. */
  ghost predicate Replaced(s: Group, c: nat)
    requires c < |s.conns|
  {
    exists d | c < d < |s.conns| :: s.conns[d].node == s.conns[c].node
  }

  ghost predicate CurrentInv(s: Group) {
    forall n | n in s.current ::
      s.current[n] < |s.conns| && s.conns[s.current[n]].node == n
  }

  /** A connector is current, or it was evicted by a newer one, or its handler disconnected. */
  ghost predicate CurrencyInv(s: Group, c: nat)
    requires c < |s.conns|
  {
    && (IsCurrent(s, c) ==> !s.conns[c].evicted && !s.conns[c].handler.Gone?)
    && (!IsCurrent(s, c) ==> s.conns[c].evicted || s.conns[c].handler.Gone?)
    && (s.conns[c].evicted ==> s.conns[c].cancelled && Replaced(s, c))
  }

  ghost predicate ConnsInv(s: Group) {
    forall c | 0 <= c < |s.conns| :: ConnInv(s.cgId, s.shard, s.conns[c]) && CurrencyInv(s, c)
  }

  /** Between the two halves of a replacement the node has no registered future. */
  ghost predicate LockInv(s: Group) {
    s.lock.Replacing? ==>
      && s.lock.node in s.current && s.current[s.lock.node] == s.lock.previous
      && s.lock.previous < |s.conns| && s.conns[s.lock.previous].cancelled
      && forall id | id in s.futures :: !Hit(s, s.lock.node, id)
  }

  predicate Sent(s: Group, k: nat, c: nat) {
    k < |s.calls| && (s.calls[k].pc == HandedOff(c) || s.calls[k].pc == Registered(c))
  }

  predicate NoDuplicates(q: seq<nat>) {
    forall i, j | 0 <= i < j < |q| :: q[i] != q[j]
  }

  /** Each send loop took exactly the calls whose send returned nil, once each. */
  ghost predicate TakenInv(s: Group) {
    forall c | 0 <= c < |s.conns| ::
      && NoDuplicates(s.conns[c].taken)
      && forall k: nat :: k in s.conns[c].taken <==> Sent(s, k, c)
  }

  ghost predicate Inv(s: Group) {
    && IdsInv(s)
    && FuturesInv(s)
    && CallsInv(s)
    && CurrentInv(s)
    && ConnsInv(s)
    && LockInv(s)
    && TakenInv(s)
    && !s.panicked
  }

  lemma InvInit(cgId: string, shard: int)
    ensures Inv(NewGroup(cgId, shard))
  {
  }

  // Framing: which parts of the invariant survive a change of the connectors.

  /** Connectors keep their index, their node and what they took; `cancelled` is never cleared. */
  ghost predicate SameConns(s: Group, t: Group) {
    && |s.conns| <= |t.conns|
    && forall c | 0 <= c < |s.conns| ::
         && t.conns[c].node == s.conns[c].node
         && t.conns[c].taken == s.conns[c].taken
         && (s.conns[c].cancelled ==> t.conns[c].cancelled)
  }

  ghost predicate SameTable(s: Group, t: Group) {
    s.calls == t.calls && s.futures == t.futures && s.counter == t.counter && s.panicked == t.panicked
  }

  ghost predicate TableInv(s: Group) {
    IdsInv(s) && FuturesInv(s) && CallsInv(s) && !s.panicked
  }

  lemma FrameTable(s: Group, t: Group)
    requires TableInv(s) && SameConns(s, t) && SameTable(s, t)
    ensures TableInv(t)
  {
    forall k: nat | k < |t.calls|
      ensures CallInv(t, k)
    {
      assert CallInv(s, k);
    }
    assert forall id | id in t.futures :: Waiting(s, id, t.futures[id]);
  }

  lemma FrameTaken(s: Group, t: Group)
    requires TakenInv(s) && SameConns(s, t) && s.calls == t.calls
    requires forall c | |s.conns| <= c < |t.conns| :: t.conns[c].taken == []
    requires forall k: nat, c: nat :: Sent(s, k, c) ==> c < |s.conns|
    ensures TakenInv(t)
  {
    forall c: nat, k: nat | c < |t.conns|
      ensures k in t.conns[c].taken <==> Sent(t, k, c)
      ensures NoDuplicates(t.conns[c].taken)
    {
      assert Sent(t, k, c) == Sent(s, k, c);
    }
  }

  lemma SentOnConn(s: Group)
    requires CallsInv(s)
    ensures forall k: nat, c: nat :: Sent(s, k, c) ==> c < |s.conns|
  {
    forall k: nat, c: nat | Sent(s, k, c)
      ensures c < |s.conns|
    {
      assert CallInv(s, k);
    }
  }

  lemma FrameLock(s: Group, t: Group)
    requires LockInv(s) && SameConns(s, t) && SameTable(s, t) && s.lock == t.lock
    requires t.lock.Free? || s.current == t.current
    ensures LockInv(t)
  {
  }

  lemma NodesKeepReplaced(s: Group, t: Group, c: nat)
    requires c < |s.conns| <= |t.conns|
    requires forall d | 0 <= d < |s.conns| :: t.conns[d].node == s.conns[d].node
    ensures Replaced(s, c) ==> Replaced(t, c)
  {
  }

  lemma FrameConns(s: Group, t: Group)
    requires ConnsInv(s) && CurrentInv(s)
    requires t.conns == s.conns && t.current == s.current && t.cgId == s.cgId && t.shard == s.shard
    ensures ConnsInv(t) && CurrentInv(t)
  {
  }

  lemma FrameSent(s: Group, t: Group)
    requires TakenInv(s) && t.conns == s.conns
    requires forall k: nat, c: nat :: Sent(s, k, c) == Sent(t, k, c)
    ensures TakenInv(t)
  {
  }

  /** `t` differs from `s` only inside connector `c`. */
  ghost predicate OnlyConn(s: Group, t: Group, c: nat) {
    && c < |s.conns| == |t.conns|
    && t == s.(conns := t.conns)
    && SameConns(s, t)
    && forall d | 0 <= d < |s.conns| && d != c :: t.conns[d] == s.conns[d]
  }

  lemma FrameOnlyConn(s: Group, t: Group, c: nat)
    requires Inv(s) && OnlyConn(s, t, c)
    ensures TableInv(t) && CurrentInv(t) && LockInv(t) && TakenInv(t)
  {
    FrameTable(s, t);
    FrameLock(s, t);
    SentOnConn(s);
    FrameTaken(s, t);
  }

  lemma FrameCurrency(s: Group, t: Group, c: nat, d: nat)
    requires Inv(s) && OnlyConn(s, t, c) && d < |s.conns|
    requires t.conns[c].evicted == s.conns[c].evicted
    requires s.conns[c].handler.Gone? == t.conns[c].handler.Gone?
    ensures CurrencyInv(t, d)
  {
  }

  lemma StreamOnlyConn(s: Group, c: nat, e: Event)
    requires Enabled(s, Stream(c, e))
    ensures var t := Next(s, Stream(c, e));
            && OnlyConn(s, t, c)
            && t.conns[c].evicted == s.conns[c].evicted
            && s.conns[c].handler.Gone? == t.conns[c].handler.Gone?
  {
    AfterKeepsIdentity(s.cgId, s.shard, s.conns[c], e);
  }

  lemma StreamConns(s: Group, c: nat, e: Event)
    requires Inv(s) && Enabled(s, Stream(c, e))
    ensures ConnsInv(Next(s, Stream(c, e)))
  {
    var t := Next(s, Stream(c, e));
    StreamOnlyConn(s, c, e);
    ConnInvStep(s.cgId, s.shard, s.conns[c], e);
    assert t.conns[c] == After(s.cgId, s.shard, s.conns[c], e);
    forall d: nat | d < |t.conns|
      ensures ConnInv(t.cgId, t.shard, t.conns[d]) && CurrencyInv(t, d)
    {
      FrameCurrency(s, t, c, d);
    }
  }

  lemma KeepsStream(s: Group, c: nat, e: Event)
    requires Inv(s) && Enabled(s, Stream(c, e))
    ensures Inv(Next(s, Stream(c, e)))
  {
    StreamOnlyConn(s, c, e);
    StreamConns(s, c, e);
    FrameOnlyConn(s, Next(s, Stream(c, e)), c);
  }

  lemma KeepsConnectFresh(s: Group, node: int, header: Option<string>)
    requires Inv(s) && Enabled(s, ConnectFresh(node, header))
    ensures Inv(DoConnectFresh(s, node, header))
  {
    var t := DoConnectFresh(s, node, header);
    FrameTable(s, t);
    FrameLock(s, t);
    SentOnConn(s);
    FrameTaken(s, t);
    NewConnInv(s.cgId, s.shard, node, header);
    forall c: nat | c < |t.conns|
      ensures ConnInv(t.cgId, t.shard, t.conns[c]) && CurrencyInv(t, c)
    {
      if c < |s.conns| {
        assert CurrencyInv(s, c);
        NodesKeepReplaced(s, t, c);
      }
    }
  }

  // The calls.

  lemma KeepsBegin(s: Group, node: int)
    requires Inv(s) && |s.calls| < TWO_64
    ensures Inv(DoBegin(s, node))
  {
    var t := DoBegin(s, node);
    assert Wrap64(Wrap64(|s.calls|) + 1) == Wrap64(|s.calls| + 1);
    forall k: nat | k < |t.calls|
      ensures CallInv(t, k)
    {
      if k < |s.calls| {
        assert CallInv(s, k);
      }
    }
    FrameGrownCalls(s, t);
  }

  /** Facts about futures, the lock and the send loops when calls change outside the table. */
  lemma FrameGrownCalls(s: Group, t: Group)
    requires Inv(s)
    requires |s.calls| <= |t.calls|
    requires s.conns == t.conns && s.futures == t.futures && s.lock == t.lock && s.current == t.current
    requires s.cgId == t.cgId && s.shard == t.shard
    requires forall k: nat | k < |s.calls| ::
               t.calls[k] == s.calls[k] || (s.calls[k].outcome.Pending? && !s.calls[k].pc.Registered?)
    requires forall k: nat | k < |s.calls| ::
               t.calls[k].node == s.calls[k].node && t.calls[k].reqId == s.calls[k].reqId
    requires forall k: nat, c: nat :: Sent(s, k, c) == Sent(t, k, c)
    ensures FuturesInv(t) && CurrentInv(t) && ConnsInv(t) && LockInv(t) && TakenInv(t)
  {
  }

  lemma KeepsLookUp(s: Group, k: nat)
    requires Inv(s) && Enabled(s, LookUp(k))
    ensures Inv(DoLookUp(s, k))
  {
    var t := DoLookUp(s, k);
    forall j: nat | j < |t.calls|
      ensures CallInv(t, j)
    {
      assert CallInv(s, j);
    }
    assert CallInv(s, k);
    FrameGrownCalls(s, t);
  }

  lemma KeepsSendFail(s: Group, k: nat)
    requires Inv(s) && Enabled(s, SendFail(k))
    ensures Inv(DoSendFail(s, k))
  {
    var t := DoSendFail(s, k);
    forall j: nat | j < |t.calls|
      ensures CallInv(t, j)
    {
      assert CallInv(s, j);
    }
    assert CallInv(s, k);
    FrameGrownCalls(s, t);
  }

  lemma HandOffConns(s: Group, k: nat)
    requires Inv(s) && Enabled(s, HandOff(k))
    ensures ConnsInv(DoHandOff(s, k))
  {
    var c := s.calls[k].pc.conn;
    var t := DoHandOff(s, k);
    ConnInvTake(s.cgId, s.shard, s.conns[c], k);
    forall d: nat | d < |t.conns|
      ensures ConnInv(t.cgId, t.shard, t.conns[d]) && CurrencyInv(t, d)
    {
      assert CurrencyInv(s, d);
      NodesKeepReplaced(s, t, d);
    }
  }

  lemma KeepsHandOff(s: Group, k: nat)
    requires Inv(s) && Enabled(s, HandOff(k))
    ensures Inv(DoHandOff(s, k))
  {
    var t := DoHandOff(s, k);
    assert CallInv(s, k);
    forall j: nat | j < |t.calls|
      ensures CallInv(t, j)
    {
      assert CallInv(s, j);
    }
    assert forall id | id in t.futures :: Waiting(s, id, s.futures[id]) && Waiting(t, id, t.futures[id]);
    assert forall node, id :: Hit(t, node, id) == Hit(s, node, id);
    HandOffConns(s, k);
    TakenByHandOff(s, k);
  }

  lemma TakenByHandOff(s: Group, k: nat)
    requires Inv(s) && Enabled(s, HandOff(k))
    ensures TakenInv(DoHandOff(s, k))
  {
    var t := DoHandOff(s, k);
    var c := s.calls[k].pc.conn;
    assert !Sent(s, k, c);
    forall d: nat | d < |t.conns|
      ensures NoDuplicates(t.conns[d].taken)
    {
      assert d == c ==> t.conns[d].taken == s.conns[d].taken + [k];
    }
    forall d: nat, j: nat | d < |t.conns|
      ensures j in t.conns[d].taken <==> Sent(t, j, d)
    {
      assert j in s.conns[d].taken <==> Sent(s, j, d);
      assert d == c ==> t.conns[d].taken == s.conns[d].taken + [k];
      assert Sent(t, j, d) <==> Sent(s, j, d) || (j == k && d == c);
    }
  }

  /** Registration fills a slot that is free: no future is ever overwritten. */
  lemma RegisterIsFresh(s: Group, k: nat)
    requires Inv(s) && Enabled(s, Register(k))
    ensures s.calls[k].reqId !in s.futures
  {
  }

  lemma KeepsRegister(s: Group, k: nat)
    requires Inv(s) && Enabled(s, Register(k))
    ensures Inv(DoRegister(s, k))
  {
    var t := DoRegister(s, k);
    RegisterIsFresh(s, k);
    assert CallInv(s, k);
    forall j: nat | j < |t.calls|
      ensures CallInv(t, j)
    {
      assert CallInv(s, j);
    }
    assert forall id | id in t.futures ::
        (id in s.futures ==> Waiting(s, id, s.futures[id])) && Waiting(t, id, t.futures[id]);
    assert forall j: nat, c: nat :: Sent(t, j, c) == Sent(s, j, c);
    FrameConns(s, t);
    FrameSent(s, t);
  }

  lemma ReceiveKeepsCalls(s: Group, c: nat, resp: Response)
    requires Inv(s) && Enabled(s, Receive(c, resp))
    ensures TableInv(DoReceive(s, resp))
    ensures forall j: nat, d: nat :: Sent(DoReceive(s, resp), j, d) == Sent(s, j, d)
  {
    var t := DoReceive(s, resp);
    if !resp.kind.CheckIn? && resp.requestId in s.futures {
      assert Waiting(s, resp.requestId, s.futures[resp.requestId]);
      assert CallInv(s, s.futures[resp.requestId]);
    }
    forall j: nat | j < |t.calls|
      ensures CallInv(t, j)
    {
      assert CallInv(s, j);
    }
    assert forall id | id in t.futures :: Waiting(s, id, s.futures[id]) && Waiting(t, id, t.futures[id]);
  }

  lemma KeepsReceive(s: Group, c: nat, resp: Response)
    requires Inv(s) && Enabled(s, Receive(c, resp))
    ensures Inv(DoReceive(s, resp))
  {
    var t := DoReceive(s, resp);
    ReceiveKeepsCalls(s, c, resp);
    FrameConns(s, t);
    FrameSent(s, t);
  }

  // Connecting and disconnecting.

  lemma WaitingAreValues(s: Group)
    requires TableInv(s)
    ensures forall k: nat | k < |s.calls| ::
              k in s.futures.Values <==> s.calls[k].pc.Registered? && s.calls[k].outcome.Pending?
  {
    forall k: nat | k < |s.calls|
      ensures k in s.futures.Values <==> s.calls[k].pc.Registered? && s.calls[k].outcome.Pending?
    {
      assert CallInv(s, k);
      assert forall id | id in s.futures :: Waiting(s, id, s.futures[id]);
      if InTable(s, k) {
        assert s.futures[s.calls[k].reqId] in s.futures.Values;
      }
    }
  }

  /** What clearFutures leaves behind: the node's waiting calls failed, all others untouched. */
  lemma ClearEffect(s: Group, node: int)
    requires TableInv(s)
    ensures var t := Clear(s, node);
            && TableInv(t)
            && (forall id :: id in t.futures <==> id in s.futures && s.calls[s.futures[id]].node != node)
            && (forall id | id in t.futures :: t.futures[id] == s.futures[id])
            && |t.calls| == |s.calls|
            && forall k: nat | k < |s.calls| ::
                 t.calls[k] == if s.calls[k].node == node && s.calls[k].pc.Registered? && s.calls[k].outcome.Pending?
                               then s.calls[k].(outcome := FailedWith(Disconnected(node)))
                               else s.calls[k]
  {
    var t := Clear(s, node);
    WaitingAreValues(s);
    forall id | id in s.futures
      ensures Waiting(s, id, s.futures[id])
      ensures id in t.futures <==> s.calls[s.futures[id]].node != node
      ensures id in t.futures ==> Waiting(t, id, t.futures[id])
    {
    }
    forall k: nat | k < |t.calls|
      ensures CallInv(t, k)
    {
      assert CallInv(s, k);
    }
  }

  lemma ClearKeepsTaken(s: Group, node: int)
    requires TableInv(s) && TakenInv(s)
    ensures TakenInv(Clear(s, node))
  {
  }

  lemma KeepsConnectCancel(s: Group, node: int)
    requires Inv(s) && Enabled(s, ConnectCancel(node))
    ensures Inv(DoConnectCancel(s, node))
  {
    var p := s.current[node];
    var u := Clear(s, node);
    var t := DoConnectCancel(s, node);
    ClearEffect(s, node);
    ClearKeepsTaken(s, node);
    FrameTable(u, t);
    SentOnConn(u);
    FrameTaken(u, t);
    ConnInvFlags(s.cgId, s.shard, s.conns[p], true, s.conns[p].evicted);
    forall d: nat | d < |t.conns|
      ensures ConnInv(t.cgId, t.shard, t.conns[d]) && CurrencyInv(t, d)
    {
      assert CurrencyInv(s, d);
      NodesKeepReplaced(s, t, d);
    }
    forall id | id in t.futures
      ensures !Hit(t, node, id)
    {
      assert id in u.futures;
    }
  }

  lemma InstallFields(s: Group, header: Option<string>)
    requires Enabled(s, ConnectInstall(header))
    ensures var t, p := DoConnectInstall(s, header), s.lock.previous;
            && t.cgId == s.cgId && t.shard == s.shard
            && t.conns == s.conns[p := s.conns[p].(evicted := true)] + [NewConn(s.lock.node, header)]
            && t.current == s.current[s.lock.node := |s.conns|]
  {
  }

  lemma ReplacementCurrency(s: Group, t: Group, p: nat, node: int, header: Option<string>, d: nat)
    requires p < |s.conns| && s.conns[p].node == node && s.conns[p].cancelled && IsCurrent(s, p)
    requires CurrentInv(s) && d < |s.conns| && CurrencyInv(s, d)
    requires t.conns == s.conns[p := s.conns[p].(evicted := true)] + [NewConn(node, header)]
    requires t.current == s.current[node := |s.conns|]
    ensures CurrencyInv(t, d)
  {
    NodesKeepReplaced(s, t, d);
    assert t.conns[|s.conns|].node == node;
  }

  lemma InstallConns(s: Group, header: Option<string>)
    requires Inv(s) && Enabled(s, ConnectInstall(header))
    ensures ConnsInv(DoConnectInstall(s, header)) && CurrentInv(DoConnectInstall(s, header))
  {
    var p := s.lock.previous;
    var t := DoConnectInstall(s, header);
    InstallFields(s, header);
    NewConnInv(s.cgId, s.shard, s.lock.node, header);
    ConnInvFlags(s.cgId, s.shard, s.conns[p], true, true);
    forall d: nat | d < |s.conns|
      ensures CurrencyInv(t, d)
    {
      assert CurrencyInv(s, d);
      ReplacementCurrency(s, t, p, s.lock.node, header, d);
    }
  }

  lemma KeepsConnectInstall(s: Group, header: Option<string>)
    requires Inv(s) && Enabled(s, ConnectInstall(header))
    ensures Inv(DoConnectInstall(s, header))
  {
    var t := DoConnectInstall(s, header);
    FrameTable(s, t);
    SentOnConn(s);
    FrameTaken(s, t);
    InstallConns(s, header);
  }

  lemma KeepsDisconnect(s: Group, c: nat)
    requires Inv(s) && Enabled(s, Disconnect(c))
    ensures Inv(DoDisconnect(s, c))
  {
    var x := s.conns[c];
    var u := SetConn(s, c, x.(handler := Gone(x.handler.status)));
    FrameOnlyConn(s, u, c);
    if IsCurrent(s, c) {
      var v := u.(current := s.current - {x.node});
      FrameTable(u, v);
      ClearEffect(v, x.node);
      assert TakenInv(v) by {
        assert forall k: nat, d: nat :: Sent(v, k, d) == Sent(u, k, d);
      }
      ClearKeepsTaken(v, x.node);
    }
    DisconnectConns(s, c);
  }

  lemma DisconnectConns(s: Group, c: nat)
    requires Inv(s) && Enabled(s, Disconnect(c))
    ensures ConnsInv(DoDisconnect(s, c)) && CurrentInv(DoDisconnect(s, c))
  {
    var t := DoDisconnect(s, c);
    DisconnectFields(s, c);
    ConnInvGone(s.cgId, s.shard, s.conns[c]);
    forall d: nat | d < |t.conns|
      ensures CurrencyInv(t, d)
    {
      assert CurrencyInv(s, d);
      GoneKeepsCurrency(s, t, c, d);
    }
  }

  lemma DisconnectFields(s: Group, c: nat)
    requires Enabled(s, Disconnect(c))
    ensures var t := DoDisconnect(s, c);
            && t.cgId == s.cgId && t.shard == s.shard
            && t.conns == s.conns[c := s.conns[c].(handler := Gone(s.conns[c].handler.status))]
            && t.current == if IsCurrent(s, c) then s.current - {s.conns[c].node} else s.current
  {
  }

  lemma GoneKeepsCurrency(s: Group, t: Group, c: nat, d: nat)
    requires c < |s.conns| && d < |s.conns| && CurrencyInv(s, d) && s.conns[c].handler.Stopped?
    requires t.conns == s.conns[c := s.conns[c].(handler := Gone(s.conns[c].handler.status))]
    requires t.current == if IsCurrent(s, c) then s.current - {s.conns[c].node} else s.current
    ensures CurrencyInv(t, d)
  {
    NodesKeepReplaced(s, t, d);
    if s.conns[c].node != s.conns[d].node {
      assert IsCurrent(t, d) == IsCurrent(s, d);
    }
  }

  /** Every step keeps the invariant, for as long as request IDs have not wrapped around. */
  lemma InvStep(s: Group, step: Step)
    requires Inv(s) && Enabled(s, step)
    requires |Next(s, step).calls| <= TWO_64
    ensures Inv(Next(s, step))
  {
    match step
    case ConnectFresh(node, header) => KeepsConnectFresh(s, node, header);
    case ConnectCancel(node) => KeepsConnectCancel(s, node);
    case ConnectInstall(header) => KeepsConnectInstall(s, header);
    case Disconnect(c) => KeepsDisconnect(s, c);
    case Begin(node) => KeepsBegin(s, node);
    case LookUp(k) => KeepsLookUp(s, k);
    case HandOff(k) => KeepsHandOff(s, k);
    case SendFail(k) => KeepsSendFail(s, k);
    case Register(k) => KeepsRegister(s, k);
    case Receive(c, resp) => KeepsReceive(s, c, resp);
    case Stream(c, e) => KeepsStream(s, c, e);
  }
}
