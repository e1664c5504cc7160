/** In runs where no call loses its connector between look-up and registration, the router is an
    atomic table of remote calls. */
module RpcTable {
  import opened Streams
  import opened Routing
  import opened RoutingInvariant
  import opened RoutingRuns
  import opened RoutingTheorems

  datatype Entry = Outstanding(node: int, conn: nat) | Done(outcome: Outcome)

  /** Which connection each node is reachable on, and what became of each call. */
  datatype Rpc = Rpc(up: map<int, nat>, table: map<nat, Entry>)

  datatype RpcEvent =
    | Silent
    | Up(node: int, conn: nat)
    | Down(node: int)
    | Issue(call: nat, node: int)
    | Reject(call: nat, err: RouteError)
    | Reply(call: nat, resp: Response)

  /** A node going down fails its waiting calls in the same instant. */
  function FailAll(table: map<nat, Entry>, node: int): map<nat, Entry> {
    map k | k in table ::
      if table[k].Outstanding? && table[k].node == node then Done(FailedWith(Disconnected(node))) else table[k]
  }

  predicate RpcEnabled(a: Rpc, e: RpcEvent) {
    match e
    case Silent => true
    case Up(node, _) => node !in a.up
    case Down(node) => node in a.up
    case Issue(k, node) => k !in a.table && node in a.up
    case Reject(k, _) => k !in a.table
    case Reply(k, _) => k in a.table && a.table[k].Outstanding?
  }

  function RpcNext(a: Rpc, e: RpcEvent): Rpc
    requires RpcEnabled(a, e)
  {
    match e
    case Silent => a
    case Up(node, conn) => a.(up := a.up[node := conn])
    case Down(node) => Rpc(a.up - {node}, FailAll(a.table, node))
    case Issue(k, node) => a.(table := a.table[k := Outstanding(node, a.up[node])])
    case Reject(k, err) => a.(table := a.table[k := Done(FailedWith(err))])
    case Reply(k, resp) => a.(table := a.table[k := Done(Resolved(resp))])
  }

  /** Every waiting call waits on the connection its node is reachable on. */
  ghost predicate RpcInv(a: Rpc) {
    forall k | k in a.table && a.table[k].Outstanding? ::
      a.table[k].node in a.up && a.up[a.table[k].node] == a.table[k].conn
  }

  lemma RpcInvKept(a: Rpc, e: RpcEvent)
    requires RpcInv(a) && RpcEnabled(a, e)
    ensures RpcInv(RpcNext(a, e))
  {
  }

  // The abstraction.

  predicate Known(c: Call) {
    c.pc.Registered? || c.pc.Abandoned?
  }

  function EntryOf(c: Call): Entry
    requires Known(c)
  {
    if c.outcome.Pending? && c.pc.Registered? then Outstanding(c.node, c.pc.conn) else Done(c.outcome)
  }

  /** A call is in the table from the moment its future is registered or has failed; a node being
      reconnected is down until its new connector is installed. */
  function Abs(s: Group): Rpc {
    Rpc(if s.lock.Replacing? then s.current - {s.lock.node} else s.current,
        map k: nat | k < |s.calls| && Known(s.calls[k]) :: EntryOf(s.calls[k]))
  }

  /** The table event a router step stands for. */
  function Observed(s: Group, step: Step): RpcEvent
    requires Enabled(s, step)
  {
    match step
    case ConnectFresh(node, _) => Up(node, |s.conns|)
    case ConnectCancel(node) => Down(node)
    case ConnectInstall(_) => Up(s.lock.node, |s.conns|)
    case Disconnect(c) =>
      if s.conns[c].node in s.current && s.current[s.conns[c].node] == c then Down(s.conns[c].node) else Silent
    case LookUp(k) =>
      if s.calls[k].node in s.current then Silent else Reject(k, NotConnected(s.calls[k].node))
    case SendFail(k) => Reject(k, Disconnected(s.conns[s.calls[k].pc.conn].node))
    case Register(k) => Issue(k, s.calls[k].node)
    case Receive(_, resp) =>
      if !resp.kind.CheckIn? && resp.requestId in s.futures then Reply(s.futures[resp.requestId], resp) else Silent
    case Begin(_) => Silent
    case HandOff(_) => Silent
    case Stream(_, _) => Silent
  }

  /** The step is an atomic table event. */
  ghost predicate Simulates(s: Group, step: Step)
    requires Enabled(s, step)
  {
    && RpcEnabled(Abs(s), Observed(s, step))
    && Abs(Next(s, step)) == RpcNext(Abs(s), Observed(s, step))
  }

  lemma ClearKeepsKnown(s: Group, node: int)
    requires TableInv(s)
    ensures Abs(Clear(s, node)).table.Keys == Abs(s).table.Keys
  {
    ClearEffect(s, node);
  }

  lemma ClearFailsKnown(s: Group, node: int, k: nat)
    requires TableInv(s) && k in Abs(s).table
    ensures var t, failed := Abs(Clear(s, node)).table, FailAll(Abs(s).table, node);
            k in t && k in failed && t[k] == failed[k]
  {
    ClearEffect(s, node);
  }

  lemma ClearIsFailAll(s: Group, node: int)
    requires TableInv(s)
    ensures Abs(Clear(s, node)).table == FailAll(Abs(s).table, node)
  {
    var t, failed := Abs(Clear(s, node)).table, FailAll(Abs(s).table, node);
    ClearKeepsKnown(s, node);
    assert t.Keys == failed.Keys;
    forall k | k in t
      ensures t[k] == failed[k]
    {
      ClearFailsKnown(s, node, k);
    }
  }

  /** Changing one call changes one entry. */
  lemma CallUpdated(s: Group, t: Group, k: nat)
    requires k < |s.calls| == |t.calls| && t.calls == s.calls[k := t.calls[k]]
    requires Known(s.calls[k]) ==> Known(t.calls[k])
    ensures Abs(t).table == if Known(t.calls[k]) then Abs(s).table[k := EntryOf(t.calls[k])] else Abs(s).table
  {
  }

  lemma SimulatesConnectCancel(s: Group, node: int)
    requires Inv(s) && Enabled(s, ConnectCancel(node))
    ensures Simulates(s, ConnectCancel(node))
  {
    ClearIsFailAll(s, node);
    assert Abs(DoConnectCancel(s, node)).table == Abs(Clear(s, node)).table;
  }

  lemma SimulatesDisconnect(s: Group, c: nat)
    requires Inv(s) && Enabled(s, Disconnect(c))
    ensures Simulates(s, Disconnect(c))
  {
    var x := s.conns[c];
    var u := SetConn(s, c, x.(handler := Gone(x.handler.status)));
    FrameOnlyConn(s, u, c);
    if IsCurrent(s, c) {
      var v := u.(current := s.current - {x.node});
      FrameTable(u, v);
      ClearIsFailAll(v, x.node);
      assert Abs(v).table == Abs(s).table;
    }
  }

  lemma SimulatesReceive(s: Group, c: nat, resp: Response)
    requires Inv(s) && Enabled(s, Receive(c, resp))
    ensures Simulates(s, Receive(c, resp))
  {
    if !resp.kind.CheckIn? && resp.requestId in s.futures {
      var k := s.futures[resp.requestId];
      assert Waiting(s, resp.requestId, k);
      CallUpdated(s, DoReceive(s, resp), k);
    }
  }

  lemma SimulatesRegister(s: Group, k: nat)
    requires Inv(s) && Enabled(s, Register(k))
    requires var c := s.calls[k].pc.conn; c < |s.conns| && IsCurrent(s, c)
    ensures Simulates(s, Register(k))
  {
    assert CallInv(s, k);
    CallUpdated(s, DoRegister(s, k), k);
  }

  lemma SimulatesFailure(s: Group, step: Step)
    requires Inv(s) && Enabled(s, step) && (step.LookUp? || step.SendFail?)
    ensures Simulates(s, step)
  {
    var k := step.call;
    CallUpdated(s, Next(s, step), k);
  }

  lemma SimulatesSilently(s: Group, step: Step)
    requires Inv(s) && Enabled(s, step) && (step.Begin? || step.HandOff? || step.Stream?)
    ensures Simulates(s, step)
  {
  }

  lemma SimulatesConnect(s: Group, step: Step)
    requires Inv(s) && Enabled(s, step) && (step.ConnectFresh? || step.ConnectInstall?)
    ensures Simulates(s, step)
  {
  }

  /** Every step but a registration is atomic as it stands; a registration is as long as its
      connector is still current. */
  lemma StepSimulates(s: Group, step: Step)
    requires Inv(s) && Enabled(s, step)
    requires step.Register? ==> var c := s.calls[step.call].pc.conn; c < |s.conns| && IsCurrent(s, c)
    ensures Simulates(s, step)
  {
    match step
    case ConnectFresh(_, _) => SimulatesConnect(s, step);
    case ConnectInstall(_) => SimulatesConnect(s, step);
    case ConnectCancel(node) => SimulatesConnectCancel(s, node);
    case Disconnect(c) => SimulatesDisconnect(s, c);
    case LookUp(_) => SimulatesFailure(s, step);
    case SendFail(_) => SimulatesFailure(s, step);
    case Register(k) => SimulatesRegister(s, k);
    case Receive(c, resp) => SimulatesReceive(s, c, resp);
    case Begin(_) => SimulatesSilently(s, step);
    case HandOff(_) => SimulatesSilently(s, step);
    case Stream(_, _) => SimulatesSilently(s, step);
  }

  // Runs without gap steps.

  /** Step `n` removes the connector of a call that is between its look-up and its registration. */
  ghost predicate GapStep(r: Run, n: nat, k: nat, g: nat) {
    && n < g < |r.steps| < |r.states| && r.steps[g] == Register(k)
    && k < |r.states[n].calls|
    && (r.states[n].calls[k].pc.Found? || r.states[n].calls[k].pc.HandedOff?)
    && Removes(r, n, r.states[n].calls[k].pc.conn)
  }

  ghost predicate GapFree(r: Run) {
    forall n: nat, k: nat, g: nat :: !GapStep(r, n, k, g)
  }

  lemma RegistersCurrent(r: Run, g: nat, k: nat)
    requires r.Valid() && r.IdsLast() && GapFree(r)
    requires g < |r.steps| && r.steps[g] == Register(k)
    ensures k < |r.states[g].calls| && r.states[g].calls[k].pc.HandedOff?
    ensures var c := r.states[g].calls[k].pc.conn; c < |r.states[g].conns| && IsCurrent(r.states[g], c)
  {
    assert r.Follows(g);
    var c := r.states[g].calls[k].pc.conn;
    var h := EnteredAt(r, g, k, HandOff(k), Found(c));
    var l := EnteredAt(r, h, k, LookUp(k), Started);
    CurrentAfterLookUp(r, l, k, c);
    CurrentUnlessRemoved(r, l + 1, g, c);
    forall n: nat | l + 1 <= n < g
      ensures !Removes(r, n, c)
    {
      CallAt(r, l + 1, n, k);
      CallAt(r, n, g, k);
      assert !GapStep(r, n, k, g);
    }
  }

  /** The main refinement: along a gap-free run the abstraction starts empty, moves by the atomic
      event of each step, and every waiting call has its connection. */
  lemma {:induction false} RunRefinesRpc(r: Run, n: nat)
    requires r.Valid() && r.IdsLast() && GapFree(r) && n < |r.states|
    ensures Abs(r.states[0]) == Rpc(map[], map[])
    ensures RpcInv(Abs(r.states[n]))
    ensures n < |r.steps| ==>
              && r.Follows(n)
              && RpcEnabled(Abs(r.states[n]), Observed(r.states[n], r.steps[n]))
              && Abs(r.states[n + 1]) == RpcNext(Abs(r.states[n]), Observed(r.states[n], r.steps[n]))
  {
    if n > 0 {
      RunRefinesRpc(r, n - 1);
      RpcInvKept(Abs(r.states[n - 1]), Observed(r.states[n - 1], r.steps[n - 1]));
    }
    if n < |r.steps| {
      RefinesAt(r, n);
    }
  }

  lemma RefinesAt(r: Run, n: nat)
    requires r.Valid() && r.IdsLast() && GapFree(r) && n < |r.steps|
    ensures Enabled(r.states[n], r.steps[n]) && Simulates(r.states[n], r.steps[n])
    ensures r.states[n + 1] == Next(r.states[n], r.steps[n])
  {
    RunStep(r, n);
    if r.steps[n].Register? {
      RegistersCurrent(r, n, r.steps[n].call);
    }
    StepSimulates(r.states[n], r.steps[n]);
  }

  /** In a gap-free run no pending registered future is stranded. */
  lemma PendingMeansConnected(r: Run, n: nat, k: nat)
    requires r.Valid() && r.IdsLast() && GapFree(r) && n < |r.states|
    requires k < |r.states[n].calls| && r.states[n].calls[k].pc.Registered? && r.states[n].calls[k].outcome.Pending?
    ensures var c := r.states[n].calls[k].pc.conn;
            && c < |r.states[n].conns| && r.states[n].conns[c].node == r.states[n].calls[k].node
            && IsCurrent(r.states[n], c)
  {
    RunRefinesRpc(r, n);
    RunInv(r, n);
    assert CallInv(r.states[n], k);
    assert Abs(r.states[n]).table[k] == Outstanding(r.states[n].calls[k].node, r.states[n].calls[k].pc.conn);
  }
}
