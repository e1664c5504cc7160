/** What holds across whole runs of the router. */
module RoutingRuns {
  import opened Wrappers
  import opened Streams
  import opened Routing
  import opened RoutingInvariant

  /** How far a call can have come. */
  predicate PcAfter(p: CallPc, q: CallPc) {
    match p
    case Started => true
    case Found(c) => q == Found(c) || q == HandedOff(c) || q == Registered(c) || q == Abandoned
    case HandedOff(c) => q == HandedOff(c) || q == Registered(c)
    case Registered(c) => q == Registered(c)
    case Abandoned => q == Abandoned
  }

  predicate CallAfter(a: Call, b: Call) {
    && b.node == a.node && b.reqId == a.reqId
    && PcAfter(a.pc, b.pc)
    && (!a.outcome.Pending? ==> b.outcome == a.outcome)
  }

  predicate ConnAfter(a: Conn, b: Conn) {
    && b.node == a.node && b.header == a.header
    && (a.cancelled ==> b.cancelled)
    && (a.evicted ==> b.evicted)
    && (a.handler.Gone? ==> b.handler == a.handler)
    && (!a.loop.NotStarted? ==> !b.loop.NotStarted?)
    && a.wire <= b.wire
    && a.taken <= b.taken
  }

  /** Everything that is never undone. */
  ghost predicate Later(s: Group, t: Group) {
    && |s.calls| <= |t.calls| && |s.conns| <= |t.conns|
    && s.cgId == t.cgId && s.shard == t.shard
    && (forall k | 0 <= k < |s.calls| :: CallAfter(s.calls[k], t.calls[k]))
    && (forall c | 0 <= c < |s.conns| :: ConnAfter(s.conns[c], t.conns[c]))
    && (forall c | 0 <= c < |s.conns| :: !IsCurrent(s, c) ==> !IsCurrent(t, c))
  }

  lemma LaterReflexive(s: Group)
    ensures Later(s, s)
  {
  }

  lemma LaterTransitive(s: Group, t: Group, u: Group)
    requires Later(s, t) && Later(t, u)
    ensures Later(s, u)
  {
  }

  lemma LaterClear(s: Group, node: int)
    requires TableInv(s)
    ensures Later(s, Clear(s, node))
  {
    ClearEffect(s, node);
  }

  lemma LaterConn(s: Group, t: Group, c: nat)
    requires c < |s.conns| == |t.conns|
    requires t.calls == s.calls && t.current == s.current && t.cgId == s.cgId && t.shard == s.shard
    requires t.conns == s.conns[c := t.conns[c]] && ConnAfter(s.conns[c], t.conns[c])
    ensures Later(s, t)
  {
  }

  lemma LaterCall(s: Group, t: Group, k: nat)
    requires k < |s.calls| == |t.calls|
    requires t.conns == s.conns && t.current == s.current && t.cgId == s.cgId && t.shard == s.shard
    requires t.calls == s.calls[k := t.calls[k]] && CallAfter(s.calls[k], t.calls[k])
    ensures Later(s, t)
  {
  }

  lemma LaterStream(s: Group, c: nat, e: Event)
    requires Enabled(s, Stream(c, e))
    ensures Later(s, Next(s, Stream(c, e)))
  {
    AfterKeepsIdentity(s.cgId, s.shard, s.conns[c], e);
    LaterConn(s, Next(s, Stream(c, e)), c);
  }

  lemma LaterDisconnect(s: Group, c: nat)
    requires Inv(s) && Enabled(s, Disconnect(c))
    ensures Later(s, DoDisconnect(s, c))
  {
    var x := s.conns[c];
    var u := SetConn(s, c, x.(handler := Gone(x.handler.status)));
    LaterConn(s, u, c);
    if IsCurrent(s, c) {
      var v := u.(current := s.current - {x.node});
      assert Later(u, v);
      FrameOnlyConn(s, u, c);
      FrameTable(u, v);
      LaterClear(v, x.node);
      LaterTransitive(s, u, v);
      LaterTransitive(s, v, DoDisconnect(s, c));
    }
  }

  lemma LaterConnectFresh(s: Group, node: int, header: Option<string>)
    ensures Later(s, DoConnectFresh(s, node, header))
  {
  }

  lemma LaterConnectCancel(s: Group, node: int)
    requires Inv(s) && Enabled(s, ConnectCancel(node))
    ensures Later(s, DoConnectCancel(s, node))
  {
    var p := s.current[node];
    var u := Clear(s, node);
    LaterClear(s, node);
    LaterConn(u, DoConnectCancel(s, node), p);
    LaterTransitive(s, u, DoConnectCancel(s, node));
  }

  lemma LaterConnectInstall(s: Group, header: Option<string>)
    requires Enabled(s, ConnectInstall(header))
    ensures Later(s, DoConnectInstall(s, header))
  {
  }

  lemma LaterHandOff(s: Group, k: nat)
    requires Enabled(s, HandOff(k))
    ensures Later(s, DoHandOff(s, k))
  {
  }

  lemma LaterBegin(s: Group, node: int)
    ensures Later(s, DoBegin(s, node))
  {
  }

  lemma LaterLookUp(s: Group, k: nat)
    requires Inv(s) && Enabled(s, LookUp(k))
    ensures Later(s, DoLookUp(s, k))
  {
    assert CallInv(s, k);
    LaterCall(s, DoLookUp(s, k), k);
  }

  lemma LaterSendFail(s: Group, k: nat)
    requires Inv(s) && Enabled(s, SendFail(k))
    ensures Later(s, DoSendFail(s, k))
  {
    assert CallInv(s, k);
    LaterCall(s, DoSendFail(s, k), k);
  }

  lemma LaterReceive(s: Group, c: nat, resp: Response)
    requires Inv(s) && Enabled(s, Receive(c, resp))
    ensures Later(s, DoReceive(s, resp))
  {
    if !resp.kind.CheckIn? && resp.requestId in s.futures {
      assert Waiting(s, resp.requestId, s.futures[resp.requestId]);
      LaterCall(s, DoReceive(s, resp), s.futures[resp.requestId]);
    } else {
      LaterReflexive(s);
    }
  }

  /** No step undoes anything in `Later`. */
  lemma StepLater(s: Group, step: Step)
    requires Inv(s) && Enabled(s, step)
    ensures Later(s, Next(s, step))
  {
    match step
    case ConnectFresh(node, header) => LaterConnectFresh(s, node, header);
    case ConnectCancel(node) => LaterConnectCancel(s, node);
    case ConnectInstall(header) => LaterConnectInstall(s, header);
    case Disconnect(c) => LaterDisconnect(s, c);
    case Begin(node) => LaterBegin(s, node);
    case LookUp(k) => LaterLookUp(s, k);
    case HandOff(k) => LaterHandOff(s, k);
    case SendFail(k) => LaterSendFail(s, k);
    case Register(k) => LaterCall(s, DoRegister(s, k), k);
    case Receive(c, resp) => LaterReceive(s, c, resp);
    case Stream(c, e) => LaterStream(s, c, e);
  }

  // From steps to runs.

  lemma CallsOnlyGrow(s: Group, step: Step)
    requires Enabled(s, step)
    ensures |s.calls| <= |Next(s, step).calls|
  {
  }

  lemma NewCallsStart(s: Group, step: Step, k: nat)
    requires Enabled(s, step)
    ensures |s.calls| <= k < |Next(s, step).calls| ==>
              Next(s, step).calls[k].pc.Started? && Next(s, step).calls[k].outcome.Pending?
  {
  }

  lemma {:induction false} CallsGrowAlong(r: Run, i: nat)
    requires r.Valid() && i < |r.states|
    ensures |r.states[i].calls| <= |r.Last().calls|
    decreases |r.states| - i
  {
    if i < |r.steps| {
      assert r.Follows(i);
      CallsOnlyGrow(r.states[i], r.steps[i]);
      CallsGrowAlong(r, i + 1);
    }
  }

  /** Every state of a run satisfies the invariant. */
  lemma {:induction false} RunInv(r: Run, i: nat)
    requires r.Valid() && r.IdsLast() && i < |r.states|
    ensures Inv(r.states[i])
  {
    if i == 0 {
      InvInit(r.states[0].cgId, r.states[0].shard);
    } else {
      RunInv(r, i - 1);
      CallsGrowAlong(r, i);
      assert r.Follows(i - 1);
      InvStep(r.states[i - 1], r.steps[i - 1]);
    }
  }

  lemma RunStep(r: Run, i: nat)
    requires r.Valid() && r.IdsLast() && i < |r.steps|
    ensures Inv(r.states[i]) && Inv(r.states[i + 1])
    ensures Enabled(r.states[i], r.steps[i]) && r.states[i + 1] == Next(r.states[i], r.steps[i])
  {
    assert r.Follows(i);
    RunInv(r, i);
    RunInv(r, i + 1);
  }

  lemma RunStepLater(r: Run, i: nat)
    requires r.Valid() && r.IdsLast() && i < |r.steps|
    ensures Later(r.states[i], r.states[i + 1])
  {
    assert r.Follows(i);
    RunInv(r, i);
    StepLater(r.states[i], r.steps[i]);
  }

  lemma {:induction false} RunLater(r: Run, i: nat, j: nat)
    requires r.Valid() && r.IdsLast() && i <= j < |r.states|
    ensures Later(r.states[i], r.states[j])
    decreases j - i
  {
    if i == j {
      LaterReflexive(r.states[i]);
    } else {
      RunLater(r, i, j - 1);
      RunStepLater(r, j - 1);
      LaterTransitive(r.states[i], r.states[j - 1], r.states[j]);
    }
  }

  // Futures.

  /** Still held by its unfinished routeRequest call. */
  predicate Held(pc: CallPc) {
    pc.Started? || pc.Found? || pc.HandedOff?
  }

  predicate ExactlyOne(a: bool, b: bool, c: bool) {
    (a && !b && !c) || (!a && b && !c) || (!a && !b && c)
  }

  /** At every moment a future is completed, or in the futures map under its own request ID and no
      other, or held by its caller; and no done channel was ever closed twice. */
  lemma FutureFate(r: Run, i: nat, k: nat)
    requires r.Valid() && r.IdsLast() && i < |r.states| && k < |r.states[i].calls|
    ensures var s := r.states[i];
            && ExactlyOne(!s.calls[k].outcome.Pending?, InTable(s, k), Held(s.calls[k].pc))
            && (forall id | id in s.futures && s.futures[id] == k :: id == s.calls[k].reqId)
            && !s.panicked
  {
    RunInv(r, i);
    var s := r.states[i];
    assert CallInv(s, k);
    assert forall id | id in s.futures :: Waiting(s, id, s.futures[id]);
  }

  lemma CompletesOnce(r: Run, m: nat, n: nat, k: nat)
    requires r.Valid() && r.IdsLast() && Completes(r, m, k) && Completes(r, n, k)
    ensures m == n
  {
    if m < n {
      RunLater(r, m + 1, n);
    } else if n < m {
      RunLater(r, n + 1, m);
    }
  }

  /** A completed future keeps its result, and completes in exactly one step of the run. */
  lemma FutureCompletesOnce(r: Run, i: nat, j: nat, k: nat)
    requires r.Valid() && r.IdsLast() && i <= j < |r.states|
    requires k < |r.states[i].calls| && !r.states[i].calls[k].outcome.Pending?
    ensures k < |r.states[j].calls| && r.states[j].calls[k].outcome == r.states[i].calls[k].outcome
    ensures exists n: nat :: Completes(r, n, k) && forall m: nat | Completes(r, m, k) :: m == n
  {
    RunLater(r, i, j);
    var n := CompletionStep(r, i, k);
    forall m: nat | Completes(r, m, k)
      ensures m == n
    {
      CompletesOnce(r, m, n, k);
    }
  }

  ghost predicate Completes(r: Run, n: nat, k: nat) {
    && n + 1 < |r.states|
    && k < |r.states[n].calls| && k < |r.states[n + 1].calls|
    && r.states[n].calls[k].outcome.Pending? && !r.states[n + 1].calls[k].outcome.Pending?
  }

  lemma {:induction false} CompletionStep(r: Run, i: nat, k: nat) returns (n: nat)
    requires r.Valid() && r.IdsLast() && i < |r.states|
    requires k < |r.states[i].calls| && !r.states[i].calls[k].outcome.Pending?
    ensures n < i && Completes(r, n, k)
    ensures r.states[n + 1].calls[k].outcome == r.states[i].calls[k].outcome
  {
    RunStepLater(r, i - 1);
    if k < |r.states[i - 1].calls| && !r.states[i - 1].calls[k].outcome.Pending? {
      n := CompletionStep(r, i - 1, k);
    } else {
      assert r.Follows(i - 1);
      NewCallsStart(r.states[i - 1], r.steps[i - 1], k);
      n := i - 1;
    }
  }
}
