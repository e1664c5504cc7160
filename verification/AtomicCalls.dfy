/** The router as an atomic call table in which a call is issued at its hand-off, so that every reply
    from then on counts: which steps fit that picture, and which runs. */
module AtomicCalls {
  import opened Wrappers
  import opened Words
  import opened Streams
  import opened Routing
  import opened RoutingInvariant
  import opened RoutingRuns
  import opened RpcTable

  /** In the table from the hand-off, or the failure, on. */
  predicate Issued(c: Call) {
    c.pc.HandedOff? || c.pc.Registered? || c.pc.Abandoned?
  }

  function IssuedEntry(c: Call): Entry
    requires Issued(c)
  {
    if c.outcome.Pending? && !c.pc.Abandoned? then Outstanding(c.node, c.pc.conn) else Done(c.outcome)
  }

  function Table(s: Group): Rpc {
    Rpc(Abs(s).up, map k: nat | k < |s.calls| && Issued(s.calls[k]) :: IssuedEntry(s.calls[k]))
  }

  predicate AwaitsReply(s: Group, k: nat, id: int) {
    && k < |s.calls| && s.calls[k].reqId == id && s.calls[k].outcome.Pending?
    && (s.calls[k].pc.HandedOff? || s.calls[k].pc.Registered?)
  }

  /** The issued call a reply with this request ID answers, whether it is registered yet or not. */
  ghost function Addressee(s: Group, id: int): (k: Option<nat>)
    ensures k.Some? ==> AwaitsReply(s, k.value, id)
    ensures k.None? ==> forall j: nat :: !AwaitsReply(s, j, id)
  {
    if exists k: nat :: AwaitsReply(s, k, id) then
      var k: nat :| AwaitsReply(s, k, id);
      Some(k)
    else None
  }

  /** What a step should do to the table. */
  ghost function TableEvent(s: Group, step: Step): RpcEvent
    requires Enabled(s, step)
  {
    match step
    case HandOff(k) => Issue(k, s.calls[k].node)
    case Register(_) => Silent
    case Receive(_, resp) =>
      if !resp.kind.CheckIn? && Addressee(s, resp.requestId).Some?
      then Reply(Addressee(s, resp.requestId).value, resp)
      else Silent
    case _ => Observed(s, step)
  }

  ghost predicate Atomic(s: Group, step: Step)
    requires Enabled(s, step)
  {
    && RpcEnabled(Table(s), TableEvent(s, step))
    && Table(Next(s, step)) == RpcNext(Table(s), TableEvent(s, step))
  }

  /** Some call to the node is between its hand-off and its registration. */
  ghost predicate InFlight(s: Group, node: int) {
    exists k: nat :: k < |s.calls| && s.calls[k].pc.HandedOff? && s.calls[k].node == node
  }

  ghost predicate Overtaken(s: Group, id: int) {
    exists k: nat :: k < |s.calls| && s.calls[k].pc.HandedOff? && s.calls[k].reqId == id
  }

  /** The steps that fall into a gap: a hand-off on a connector already on its way out, and a removal
      or a reply that overtakes the registration it concerns. */
  ghost predicate Gap(s: Group, step: Step)
    requires Enabled(s, step)
  {
    match step
    case HandOff(k) =>
      var up, node := Table(s).up, s.calls[k].node;
      !(node in up && up[node] == s.calls[k].pc.conn)
    case ConnectCancel(node) => InFlight(s, node)
    case Disconnect(c) => IsCurrent(s, c) && InFlight(s, s.conns[c].node)
    case Receive(_, resp) => !resp.kind.CheckIn? && Overtaken(s, resp.requestId)
    case _ => false
  }

  lemma TableUpdated(s: Group, t: Group, k: nat)
    requires k < |s.calls| == |t.calls| && t.calls == s.calls[k := t.calls[k]]
    requires Issued(s.calls[k]) ==> Issued(t.calls[k])
    ensures Table(t).table ==
            if Issued(t.calls[k]) then Table(s).table[k := IssuedEntry(t.calls[k])] else Table(s).table
  {
    assert forall j: nat | j < |s.calls| && j != k :: t.calls[j] == s.calls[j];
  }

  /** Clearing does to an issued call what failing does, unless it is in flight. */
  lemma ClearFailsIssued(s: Group, node: int, k: nat)
    requires TableInv(s) && k in Table(s).table
    ensures var t, failed := Table(Clear(s, node)).table, FailAll(Table(s).table, node);
            && k in t && k in failed
            && (t[k] == failed[k] <==> !(s.calls[k].pc.HandedOff? && s.calls[k].node == node))
  {
    ClearEffect(s, node);
    assert CallInv(s, k);
  }

  lemma InFlightSurvives(s: Group, node: int)
    requires TableInv(s) && InFlight(s, node)
    ensures Table(Clear(s, node)).table != FailAll(Table(s).table, node)
  {
    var k: nat :| k < |s.calls| && s.calls[k].pc.HandedOff? && s.calls[k].node == node;
    ClearFailsIssued(s, node, k);
  }

  lemma ClearFailsAll(s: Group, node: int)
    requires TableInv(s) && !InFlight(s, node)
    ensures Table(Clear(s, node)).table == FailAll(Table(s).table, node)
  {
    var t, failed := Table(Clear(s, node)).table, FailAll(Table(s).table, node);
    ClearKeepsIssued(s, node);
    assert t.Keys == failed.Keys;
    forall k | k in t
      ensures t[k] == failed[k]
    {
      ClearFailsIssued(s, node, k);
    }
  }

  /** Clearing is failing everything exactly if nothing is in flight. */
  lemma ClearIsAtomicIff(s: Group, node: int)
    requires TableInv(s)
    ensures Table(Clear(s, node)).table == FailAll(Table(s).table, node) <==> !InFlight(s, node)
  {
    if InFlight(s, node) {
      InFlightSurvives(s, node);
    } else {
      ClearFailsAll(s, node);
    }
  }

  lemma ClearKeepsIssued(s: Group, node: int)
    requires TableInv(s)
    ensures Table(Clear(s, node)).table.Keys == Table(s).table.Keys
  {
    ClearEffect(s, node);
  }

  lemma ConnectCancelAtomicIff(s: Group, node: int)
    requires Inv(s) && Enabled(s, ConnectCancel(node))
    ensures Atomic(s, ConnectCancel(node)) <==> !Gap(s, ConnectCancel(node))
  {
    ClearIsAtomicIff(s, node);
    assert Table(DoConnectCancel(s, node)).table == Table(Clear(s, node)).table;
  }

  /** What a disconnect does to the table. */
  lemma DisconnectTable(s: Group, c: nat)
    requires Inv(s) && Enabled(s, Disconnect(c))
    ensures var x, t := s.conns[c], Table(DoDisconnect(s, c));
            if IsCurrent(s, c) then
              && t.up == Table(s).up - {x.node}
              && (t.table == FailAll(Table(s).table, x.node) <==> !InFlight(s, x.node))
            else t == Table(s)
  {
    var x := s.conns[c];
    var u := SetConn(s, c, x.(handler := Gone(x.handler.status)));
    if IsCurrent(s, c) {
      FrameOnlyConn(s, u, c);
      var v := u.(current := s.current - {x.node});
      FrameTable(u, v);
      ClearIsAtomicIff(v, x.node);
      assert Table(v).table == Table(s).table && InFlight(v, x.node) == InFlight(s, x.node);
    }
  }

  lemma DisconnectAtomicIff(s: Group, c: nat)
    requires Inv(s) && Enabled(s, Disconnect(c))
    ensures Atomic(s, Disconnect(c)) <==> !Gap(s, Disconnect(c))
  {
    DisconnectTable(s, c);
  }

  lemma HandOffAtomicIff(s: Group, k: nat)
    requires Inv(s) && Enabled(s, HandOff(k))
    ensures Atomic(s, HandOff(k)) <==> !Gap(s, HandOff(k))
  {
    var t := DoHandOff(s, k);
    assert CallInv(s, k);
    TableUpdated(s, t, k);
    assert Table(t).table[k] == Outstanding(s.calls[k].node, s.calls[k].pc.conn);
  }

  /** Two calls never await the same reply. */
  lemma AwaitsUnshared(s: Group, j: nat, k: nat, id: int)
    requires IdsInv(s) && AwaitsReply(s, j, id) && AwaitsReply(s, k, id)
    ensures j == k
  {
    if j < k {
      Wrap64Injective(j + 1, k + 1);
    } else if k < j {
      Wrap64Injective(k + 1, j + 1);
    }
  }

  lemma LostReply(s: Group, c: nat, resp: Response, k: nat)
    requires Inv(s) && Enabled(s, Receive(c, resp)) && !resp.kind.CheckIn?
    requires AwaitsReply(s, k, resp.requestId) && s.calls[k].pc.HandedOff?
    ensures DoReceive(s, resp) == s && k in Table(s).table && Table(s).table[k].Outstanding?
    ensures Overtaken(s, resp.requestId)
  {
    NotInTable(s, k);
  }

  lemma DeliveredReply(s: Group, c: nat, resp: Response, k: nat)
    requires Inv(s) && Enabled(s, Receive(c, resp)) && !resp.kind.CheckIn?
    requires AwaitsReply(s, k, resp.requestId) && s.calls[k].pc.Registered?
    ensures k in Table(s).table && Table(s).table[k].Outstanding?
    ensures Table(DoReceive(s, resp)) == RpcNext(Table(s), Reply(k, resp))
    ensures !Overtaken(s, resp.requestId)
  {
    assert CallInv(s, k) && InTable(s, k);
    TableUpdated(s, DoReceive(s, resp), k);
    NoneOvertaken(s, k, resp.requestId);
  }

  lemma ReceiveAtomicIff(s: Group, c: nat, resp: Response)
    requires Inv(s) && Enabled(s, Receive(c, resp))
    ensures Atomic(s, Receive(c, resp)) <==> !Gap(s, Receive(c, resp))
  {
    if !resp.kind.CheckIn? {
      var k := Addressee(s, resp.requestId);
      if k.None? {
        NobodyAwaits(s, resp.requestId);
      } else if s.calls[k.value].pc.HandedOff? {
        LostReply(s, c, resp, k.value);
      } else {
        DeliveredReply(s, c, resp, k.value);
      }
    }
  }

  lemma NotInTable(s: Group, k: nat)
    requires Inv(s) && k < |s.calls| && s.calls[k].pc.HandedOff?
    ensures s.calls[k].reqId !in s.futures
  {
    var id := s.calls[k].reqId;
    if id in s.futures {
      var j := s.futures[id];
      assert Waiting(s, id, j) && CallInv(s, k);
      AwaitsUnshared(s, j, k, id);
    }
  }

  lemma NoneOvertaken(s: Group, k: nat, id: int)
    requires Inv(s) && AwaitsReply(s, k, id) && s.calls[k].pc.Registered?
    ensures !Overtaken(s, id)
  {
    forall j: nat | j < |s.calls| && s.calls[j].pc.HandedOff? && s.calls[j].reqId == id
      ensures false
    {
      assert CallInv(s, j);
      AwaitsUnshared(s, j, k, id);
    }
  }

  lemma NobodyAwaits(s: Group, id: int)
    requires Inv(s) && Addressee(s, id).None?
    ensures id !in s.futures && !Overtaken(s, id)
  {
    if id in s.futures {
      assert Waiting(s, id, s.futures[id]);
      assert AwaitsReply(s, s.futures[id], id);
    }
    forall j: nat | j < |s.calls| && s.calls[j].pc.HandedOff? && s.calls[j].reqId == id
      ensures false
    {
      assert CallInv(s, j) && AwaitsReply(s, j, id);
    }
  }

  lemma FailureAtomic(s: Group, step: Step)
    requires Inv(s) && Enabled(s, step) && (step.LookUp? || step.SendFail?)
    ensures Atomic(s, step)
  {
    assert CallInv(s, step.call);
    TableUpdated(s, Next(s, step), step.call);
  }

  lemma RegisterAtomic(s: Group, k: nat)
    requires Inv(s) && Enabled(s, Register(k))
    ensures Atomic(s, Register(k))
  {
    var t := DoRegister(s, k);
    assert CallInv(s, k);
    TableUpdated(s, t, k);
    assert Table(t).table == Table(s).table;
  }

  lemma ConnStepAtomic(s: Group, step: Step)
    requires Inv(s) && Enabled(s, step) && (step.ConnectFresh? || step.ConnectInstall? || step.Stream?)
    ensures Atomic(s, step)
  {
    var t := Next(s, step);
    assert t.calls == s.calls;
    assert Table(t).table == Table(s).table;
    if !step.Stream? {
      SimulatesConnect(s, step);
    }
  }

  lemma BeginAtomic(s: Group, node: int)
    ensures Atomic(s, Begin(node))
  {
    var t := DoBegin(s, node);
    assert forall k: nat | k < |s.calls| :: t.calls[k] == s.calls[k];
    assert !Issued(t.calls[|s.calls|]);
    assert Table(t).table == Table(s).table;
  }

  /** Exactly the gap steps are not atomic. */
  lemma AtomicIff(s: Group, step: Step)
    requires Inv(s) && Enabled(s, step)
    ensures Atomic(s, step) <==> !Gap(s, step)
  {
    match step
    case ConnectCancel(node) => ConnectCancelAtomicIff(s, node);
    case Disconnect(c) => DisconnectAtomicIff(s, c);
    case HandOff(k) => HandOffAtomicIff(s, k);
    case Receive(c, resp) => ReceiveAtomicIff(s, c, resp);
    case LookUp(_) => FailureAtomic(s, step);
    case SendFail(_) => FailureAtomic(s, step);
    case Register(k) => RegisterAtomic(s, k);
    case Begin(node) => BeginAtomic(s, node);
    case _ => ConnStepAtomic(s, step);
  }

  // Whole runs.

  ghost predicate GapAt(r: Run, n: nat) {
    n < |r.steps| < |r.states| && Enabled(r.states[n], r.steps[n]) && Gap(r.states[n], r.steps[n])
  }

  ghost predicate AtomicAt(r: Run, n: nat) {
    n < |r.steps| < |r.states| && Enabled(r.states[n], r.steps[n]) && Atomic(r.states[n], r.steps[n])
    && r.states[n + 1] == Next(r.states[n], r.steps[n])
  }

  /** A run is a run of the atomic table, from the empty one on, exactly as far as it has no gap
      step. */
  lemma RunIsAtomicIff(r: Run, m: nat)
    requires r.Valid() && r.IdsLast() && m <= |r.steps|
    ensures Table(r.states[0]) == Rpc(map[], map[])
    ensures (forall n: nat | n < m :: AtomicAt(r, n)) <==> (forall n: nat | n < m :: !GapAt(r, n))
  {
    forall n: nat | n < m
      ensures AtomicAt(r, n) <==> !GapAt(r, n)
    {
      RunStep(r, n);
      AtomicIff(r.states[n], r.steps[n]);
    }
  }

  lemma AtomicKeepsReachable(s: Group, step: Step)
    requires Enabled(s, step) && Atomic(s, step) && RpcInv(Table(s))
    ensures RpcInv(Table(Next(s, step)))
  {
    RpcInvKept(Table(s), TableEvent(s, step));
  }

  /** Up to the first gap step every waiting call, registered or not, has its connection up. */
  lemma {:induction false} WaitingIsReachable(r: Run, m: nat)
    requires r.Valid() && r.IdsLast() && m < |r.states|
    requires forall n: nat | n < m :: !GapAt(r, n)
    ensures RpcInv(Table(r.states[m]))
  {
    RunIsAtomicIff(r, m);
    if m > 0 {
      WaitingIsReachable(r, m - 1);
      assert AtomicAt(r, m - 1);
      AtomicKeepsReachable(r.states[m - 1], r.steps[m - 1]);
    }
  }

  /** A reply to an issued waiting call completes that call, unless the step is a gap step, in which
      case the reply is lost. */
  lemma ReplyCountsIff(r: Run, n: nat, k: nat)
    requires r.Valid() && r.IdsLast() && n < |r.steps| && r.steps[n].Receive? && !r.steps[n].resp.kind.CheckIn?
    requires AwaitsReply(r.states[n], k, r.steps[n].resp.requestId)
    ensures r.Follows(n) && TableEvent(r.states[n], r.steps[n]) == Reply(k, r.steps[n].resp)
    ensures k < |r.states[n + 1].calls|
    ensures r.states[n + 1].calls[k].outcome == if GapAt(r, n) then Pending else Resolved(r.steps[n].resp)
  {
    RunStep(r, n);
    var s, resp := r.states[n], r.steps[n].resp;
    AwaitsUnshared(s, Addressee(s, resp.requestId).value, k, resp.requestId);
    assert CallInv(s, k);
    if s.calls[k].pc.HandedOff? {
      NotInTable(s, k);
    } else {
      NoneOvertaken(s, k, resp.requestId);
    }
  }
}
