/** What each step of the router changes, field by field, and when it can be taken. */
module RoutingEffects {
  import opened Wrappers
  import opened Words
  import opened Streams
  import opened Routing
  import opened RoutingInvariant
  import opened RoutingRuns

  /** Steps that take the mutex wait for it; look-up, hand-off and registration follow each other; a
      send either meets a waiting loop or fails on a cancelled connector. */
  lemma EnabledIff(s: Group, step: Step)
    ensures Enabled(s, step) <==>
            match step
            case ConnectFresh(node, _) => s.lock == Free && node !in s.current
            case ConnectCancel(node) => s.lock == Free && node in s.current && s.current[node] < |s.conns|
            case ConnectInstall(_) => s.lock != Free && s.lock.previous < |s.conns|
            case Disconnect(c) => s.lock == Free && c < |s.conns| && s.conns[c].handler.Stopped?
            case Begin(_) => true
            case LookUp(k) => s.lock == Free && k < |s.calls| && s.calls[k].pc == Started
            case HandOff(k) =>
              && k < |s.calls| && s.calls[k].pc.Found? && s.calls[k].pc.conn < |s.conns|
              && s.conns[s.calls[k].pc.conn].loop == Selecting
            case SendFail(k) =>
              && k < |s.calls| && s.calls[k].pc.Found? && s.calls[k].pc.conn < |s.conns|
              && s.conns[s.calls[k].pc.conn].cancelled
            case Register(k) => s.lock == Free && k < |s.calls| && s.calls[k].pc.HandedOff?
            case Receive(c, resp) =>
              (s.lock == Free || resp.kind == CheckIn) && c < |s.conns| && s.conns[c].loop != NotStarted
            case Stream(c, e) => c < |s.conns| && Possible(s.conns[c], e)
  {
  }

  /** A new connector, not yet served and with nothing sent, becomes its node's current one. */
  lemma ConnectFreshEffect(s: Group, node: int, header: Option<string>)
    requires Enabled(s, ConnectFresh(node, header))
    ensures Next(s, ConnectFresh(node, header)) ==
            s.(conns := s.conns + [Conn(node, header, false, false, Connected, NotStarted, NoTimer, [], [])],
               current := s.current[node := |s.conns|])
  {
  }

  /** The registered futures of a node fail with "node disconnected" and leave the map; nobody else's
      do. */
  ghost predicate Failed(s: Group, t: Group, node: int) {
    && |t.calls| == |s.calls|
    && (forall k | 0 <= k < |s.calls| ::
          t.calls[k] == if s.calls[k].node == node && s.calls[k].pc.Registered? && s.calls[k].outcome == Pending
                        then s.calls[k].(outcome := FailedWith(Disconnected(node)))
                        else s.calls[k])
    && (forall id :: id in t.futures <==>
          id in s.futures && s.futures[id] < |s.calls| && s.calls[s.futures[id]].node != node)
    && (forall id | id in t.futures && id in s.futures :: t.futures[id] == s.futures[id])
  }

  /** First half of a reconnect: the previous connector is cancelled, its node's futures failed. */
  lemma ConnectCancelEffect(s: Group, node: int)
    requires TableInv(s) && Enabled(s, ConnectCancel(node))
    ensures var t, p := Next(s, ConnectCancel(node)), s.current[node];
            && Failed(s, t, node)
            && t.conns == s.conns[p := s.conns[p].(cancelled := true)]
            && t.lock == Replacing(node, p)
            && t.current == s.current && t.counter == s.counter && t.cgId == s.cgId && t.shard == s.shard
            && !t.panicked
  {
    ClearEffect(s, node);
    assert forall id | id in s.futures :: Waiting(s, id, s.futures[id]);
  }

  /** Second half: the previous connector is evicted, the new one current. */
  lemma ConnectInstallEffect(s: Group, header: Option<string>)
    requires Enabled(s, ConnectInstall(header))
    ensures var p, node := s.lock.previous, s.lock.node;
            Next(s, ConnectInstall(header)) ==
            s.(conns := s.conns[p := s.conns[p].(evicted := true)] +
                        [Conn(node, header, false, false, Connected, NotStarted, NoTimer, [], [])],
               current := s.current[node := |s.conns|],
               lock := Free)
  {
  }

  /** A current connector goes with its node's futures, a superseded one alone. */
  lemma DisconnectEffect(s: Group, c: nat)
    requires TableInv(s) && Enabled(s, Disconnect(c))
    ensures var t, node := Next(s, Disconnect(c)), s.conns[c].node;
            && t.conns == s.conns[c := s.conns[c].(handler := Gone(s.conns[c].handler.status))]
            && (if node in s.current && s.current[node] == c
                then Failed(s, t, node) && t.current == s.current - {node}
                else t.calls == s.calls && t.futures == s.futures && t.current == s.current)
            && t.lock == s.lock && t.counter == s.counter && t.cgId == s.cgId && t.shard == s.shard && !t.panicked
  {
    var x := s.conns[c];
    var u := SetConn(s, c, x.(handler := Gone(x.handler.status)));
    FrameTable(s, u);
    var v := u.(current := s.current - {x.node});
    FrameTable(u, v);
    ClearEffect(v, x.node);
    assert forall id | id in s.futures :: Waiting(s, id, s.futures[id]);
  }

  /** A call starts with the next request ID, in 64 bits, and a pending future. */
  lemma BeginEffect(s: Group, node: int)
    requires IsInt64(s.counter)
    ensures var id := if s.counter < MAX_INT64 then s.counter + 1 else MIN_INT64;
            Next(s, Begin(node)) == s.(counter := id, calls := s.calls + [Call(node, id, Started, Pending)])
  {
  }

  /** A look-up takes the node's current connector, or gives up with "not connected". */
  lemma LookUpEffect(s: Group, k: nat)
    requires Enabled(s, LookUp(k)) && s.calls[k].outcome == Pending
    ensures var call := s.calls[k];
            Next(s, LookUp(k)) ==
            s.(calls := s.calls[k :=
              if call.node in s.current then call.(pc := Found(s.current[call.node]))
              else call.(pc := Abandoned, outcome := FailedWith(NotConnected(call.node)))])
  {
  }

  /** The waiting loop takes the call and is about to write it. */
  lemma HandOffEffect(s: Group, k: nat)
    requires Enabled(s, HandOff(k))
    ensures var c := s.calls[k].pc.conn;
            Next(s, HandOff(k)) ==
            s.(calls := s.calls[k := s.calls[k].(pc := HandedOff(c))],
               conns := s.conns[c := s.conns[c].(loop := Sending(k), taken := s.conns[c].taken + [k])])
  {
  }

  /** A send that fails gives the call up with "node disconnected". */
  lemma SendFailEffect(s: Group, k: nat)
    requires TableInv(s) && Enabled(s, SendFail(k))
    ensures var call := s.calls[k];
            Next(s, SendFail(k)) ==
            s.(calls := s.calls[k := call.(pc := Abandoned, outcome := FailedWith(Disconnected(call.node)))])
  {
    assert CallInv(s, k);
  }

  lemma RegisterEffect(s: Group, k: nat)
    requires Enabled(s, Register(k))
    ensures Next(s, Register(k)) ==
            s.(calls := s.calls[k := s.calls[k].(pc := Registered(s.calls[k].pc.conn))],
               futures := s.futures[s.calls[k].reqId := k])
  {
  }

  /** A reply resolves and removes the future under its request ID; a check-in, or a reply to an
      unknown ID, does nothing. */
  lemma ReceiveEffect(s: Group, c: nat, resp: Response)
    requires TableInv(s) && Enabled(s, Receive(c, resp))
    ensures Next(s, Receive(c, resp)) ==
            if resp.kind == CheckIn || resp.requestId !in s.futures then s
            else
              var k := s.futures[resp.requestId];
              s.(futures := s.futures - {resp.requestId},
                 calls := if k < |s.calls| then s.calls[k := s.calls[k].(outcome := Resolved(resp))] else s.calls)
  {
    assert forall id | id in s.futures :: Waiting(s, id, s.futures[id]);
  }

  /** The stream's own events touch their connector alone. */
  lemma StreamEffect(s: Group, c: nat, e: Event)
    requires Enabled(s, Stream(c, e))
    ensures Next(s, Stream(c, e)) == s.(conns := s.conns[c := After(s.cgId, s.shard, s.conns[c], e)])
  {
  }

  /** An unfinished call is never stuck for good: with the mutex free it can look up and register,
      and on the connector it found it can hand off or fail as soon as the loop waits or the
      connector is cancelled. */
  lemma CallProgress(s: Group, k: nat)
    requires Inv(s) && k < |s.calls| && s.calls[k].outcome == Pending && s.lock == Free
    ensures match s.calls[k].pc
            case Started => Enabled(s, LookUp(k))
            case Found(c) =>
              && c < |s.conns|
              && (s.conns[c].loop == Selecting ==> Enabled(s, HandOff(k)))
              && (s.conns[c].cancelled ==> Enabled(s, SendFail(k)))
            case HandedOff(c) => Enabled(s, Register(k))
            case Registered(c) =>
              && s.calls[k].reqId in s.futures && s.futures[s.calls[k].reqId] == k
            case Abandoned => false
  {
    assert CallInv(s, k);
  }

  // Failures over runs.

  /** The only ways for a future to fail, and the error each one gives. */
  lemma FailureStep(s: Group, step: Step, k: nat)
    requires Inv(s) && Enabled(s, step) && k < |s.calls| && s.calls[k].outcome == Pending
    requires k < |Next(s, step).calls| && Next(s, step).calls[k].outcome.FailedWith?
    ensures var node, err := s.calls[k].node, Next(s, step).calls[k].outcome.err;
            || (step == LookUp(k) && node !in s.current && err == NotConnected(node))
            || (step == SendFail(k) && err == Disconnected(node))
            || (s.calls[k].pc.Registered? && step == ConnectCancel(node) && err == Disconnected(node))
            || (&& s.calls[k].pc.Registered? && step.Disconnect? && err == Disconnected(node)
                && node in s.current && s.current[node] == step.conn)
  {
    match step
    case LookUp(j) => assert CallInv(s, j); LookUpEffect(s, j);
    case SendFail(j) => SendFailEffect(s, j);
    case ConnectCancel(node) => ConnectCancelEffect(s, node);
    case Disconnect(c) => DisconnectEffect(s, c);
    case Receive(c, resp) => ReceiveEffect(s, c, resp);
    case _ =>
  }

  /** Why a call failed: its node had no connector at the look-up, or the connector found went away
      before the send, or the node's connector was replaced or disconnected while the call was
      registered. */
  lemma WhyItFailed(r: Run, i: nat, k: nat) returns (n: nat)
    requires r.Valid() && r.IdsLast() && i < |r.states|
    requires k < |r.states[i].calls| && r.states[i].calls[k].outcome.FailedWith?
    ensures n < i && k < |r.states[n].calls| && r.states[n].calls[k].outcome == Pending
    ensures var s, node := r.states[n], r.states[i].calls[k].node;
            if r.states[i].calls[k].outcome == FailedWith(NotConnected(node)) then
              r.steps[n] == LookUp(k) && node !in s.current
            else
              && r.states[i].calls[k].outcome == FailedWith(Disconnected(node))
              && (|| (&& r.steps[n] == SendFail(k) && s.calls[k].pc.Found? && s.calls[k].pc.conn < |s.conns|
                      && s.conns[s.calls[k].pc.conn].cancelled)
                  || (&& s.calls[k].pc.Registered? && node in s.current
                      && (r.steps[n] == ConnectCancel(node) || r.steps[n] == Disconnect(s.current[node]))))
  {
    n := CompletionStep(r, i, k);
    RunStep(r, n);
    RunLater(r, n, i);
    FailureStep(r.states[n], r.steps[n], k);
  }
}
