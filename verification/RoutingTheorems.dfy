/** The router's promises over whole runs: correlation, currency, stranding, streams and exits. */
module RoutingTheorems {
  import opened Words
  import opened Streams
  import opened Routing
  import opened RoutingInvariant
  import opened RoutingRuns
  import Sharding
  import Versions

  // Correlation.

  /** Request IDs never repeat, and are positive until the 64-bit counter overflows. */
  lemma RequestIdsUnique(r: Run, i: nat, j: nat, k: nat)
    requires r.Valid() && r.IdsLast() && i < |r.states|
    requires j < k < |r.states[i].calls|
    ensures r.states[i].calls[j].reqId != r.states[i].calls[k].reqId
    ensures k < MAX_INT64 ==> r.states[i].calls[k].reqId == k + 1
  {
    RunInv(r, i);
    if Wrap64(j + 1) == Wrap64(k + 1) {
      Wrap64Injective(j + 1, k + 1);
    }
  }

  lemma OnlyReceiveResolves(s: Group, step: Step, k: nat)
    requires Inv(s) && Enabled(s, step) && k < |s.calls|
    requires s.calls[k].outcome.Pending? && Next(s, step).calls[k].outcome.Resolved?
    ensures step.Receive? && step.resp == Next(s, step).calls[k].outcome.resp
    ensures step.resp.requestId == s.calls[k].reqId && InTable(s, k)
  {
    match step
    case ConnectCancel(node) => ClearEffect(s, node);
    case Disconnect(c) => DisconnectResolvesNothing(s, c, k);
    case Receive(c, resp) => assert Waiting(s, resp.requestId, s.futures[resp.requestId]);
    case _ =>
  }

  lemma DisconnectResolvesNothing(s: Group, c: nat, k: nat)
    requires Inv(s) && Enabled(s, Disconnect(c)) && k < |s.calls|
    ensures DoDisconnect(s, c).calls[k] == s.calls[k]
         || DoDisconnect(s, c).calls[k].outcome == FailedWith(Disconnected(s.conns[c].node))
  {
  }

  /** A resolved future holds the reply that came in, on some stream of the same group, under the
      future's own request ID while it was registered. */
  lemma ReplyIsOwn(r: Run, i: nat, k: nat) returns (n: nat)
    requires r.Valid() && r.IdsLast() && i < |r.states|
    requires k < |r.states[i].calls| && r.states[i].calls[k].outcome.Resolved?
    ensures n < i && r.steps[n].Receive?
    ensures r.steps[n].resp == r.states[i].calls[k].outcome.resp
    ensures r.steps[n].resp.requestId == r.states[i].calls[k].reqId
    ensures k < |r.states[n].calls| && InTable(r.states[n], k)
  {
    n := CompletionStep(r, i, k);
    RunInv(r, n);
    RunLater(r, n, i);
    assert r.Follows(n);
    OnlyReceiveResolves(r.states[n], r.steps[n], k);
  }

  /** The step that completed the call is a reply on a stream of the node called. */
  ghost predicate AnsweredByNode(r: Run, k: nat) {
    exists n: nat ::
      && Completes(r, n, k) && n < |r.steps| && r.steps[n].Receive?
      && r.steps[n].conn < |r.states[n].conns|
      && r.states[n].conns[r.steps[n].conn].node == r.states[n].calls[k].node
  }

  /** Whether a resolved call was answered by the node called depends on the stream of its one
      completing reply alone, which the router does not look at. */
  lemma AnsweredByNodeIff(r: Run, i: nat, k: nat) returns (n: nat)
    requires r.Valid() && r.IdsLast() && i < |r.states|
    requires k < |r.states[i].calls| && r.states[i].calls[k].outcome.Resolved?
    ensures n < i && Completes(r, n, k) && r.steps[n].Receive? && r.steps[n].conn < |r.states[n].conns|
    ensures r.steps[n].resp == r.states[i].calls[k].outcome.resp
    ensures AnsweredByNode(r, k)
       <==> r.states[n].conns[r.steps[n].conn].node == r.states[i].calls[k].node
  {
    n := CompletionStep(r, i, k);
    RunStep(r, n);
    CallAt(r, n, i, k);
    OnlyReceiveResolves(r.states[n], r.steps[n], k);
    if AnsweredByNode(r, k) {
      var m: nat :| Completes(r, m, k) && m < |r.steps| && r.steps[m].Receive? &&
                    r.steps[m].conn < |r.states[m].conns| &&
                    r.states[m].conns[r.steps[m].conn].node == r.states[m].calls[k].node;
      CompletesOnce(r, m, n, k);
    }
  }

  // Currency.

  ghost predicate Removes(r: Run, n: nat, c: nat) {
    && n + 1 < |r.states|
    && c < |r.states[n].conns| && c < |r.states[n + 1].conns|
    && IsCurrent(r.states[n], c) && !IsCurrent(r.states[n + 1], c)
  }

  /** A connector that stopped being current never becomes current again; a current one is not
      evicted; any other was evicted by a newer connector or disconnected itself. */
  lemma CurrencyOverRuns(r: Run, i: nat, j: nat, c: nat)
    requires r.Valid() && r.IdsLast() && i <= j < |r.states| && c < |r.states[i].conns|
    ensures c < |r.states[j].conns|
    ensures !IsCurrent(r.states[i], c) ==> !IsCurrent(r.states[j], c)
    ensures IsCurrent(r.states[i], c) ==> !r.states[i].conns[c].evicted
    ensures !IsCurrent(r.states[i], c) ==>
              || (r.states[i].conns[c].evicted && r.states[i].conns[c].cancelled && Replaced(r.states[i], c))
              || r.states[i].conns[c].handler.Gone?
  {
    RunLater(r, i, j);
    RunInv(r, i);
    assert CurrencyInv(r.states[i], c);
  }

  /** Disconnect of a superseded connector only ends its handler. */
  lemma SupersededDisconnect(s: Group, c: nat)
    requires Enabled(s, Disconnect(c)) && !IsCurrent(s, c)
    ensures Next(s, Disconnect(c)) ==
            s.(conns := s.conns[c := s.conns[c].(handler := Gone(s.conns[c].handler.status))])
  {
  }

  ghost predicate NoneRegistered(s: Group, node: int) {
    forall id | id in s.futures :: !Hit(s, node, id)
  }

  predicate NoneWaiting(s: Group, node: int) {
    forall k | 0 <= k < |s.calls| ::
      s.calls[k].node == node && s.calls[k].pc.Registered? ==> !s.calls[k].outcome.Pending?
  }

  lemma NoHitNoneWaiting(s: Group, node: int)
    requires TableInv(s) && NoneRegistered(s, node)
    ensures NoneWaiting(s, node)
  {
    forall k | 0 <= k < |s.calls| && s.calls[k].node == node && s.calls[k].pc.Registered?
      ensures !s.calls[k].outcome.Pending?
    {
      assert CallInv(s, k);
      if s.calls[k].outcome.Pending? {
        assert Hit(s, node, s.calls[k].reqId);
      }
    }
  }

  lemma RemovalStep(s: Group, step: Step, c: nat)
    requires Inv(s) && Enabled(s, step) && c < |s.conns| <= |Next(s, step).conns|
    requires IsCurrent(s, c) && !IsCurrent(Next(s, step), c)
    ensures step.ConnectInstall? || step == Disconnect(c)
    ensures NoneWaiting(Next(s, step), s.conns[c].node)
  {
    match step
    case ConnectInstall(header) =>
      NoHitNoneWaiting(s, s.lock.node);
    case Disconnect(d) =>
      RemovalByDisconnect(s, d, c);
    case Stream(d, e) =>
      AfterKeepsIdentity(s.cgId, s.shard, s.conns[d], e);
    case _ =>
  }

  lemma RemovalByDisconnect(s: Group, d: nat, c: nat)
    requires Inv(s) && Enabled(s, Disconnect(d)) && c < |s.conns|
    requires IsCurrent(s, c) && !IsCurrent(DoDisconnect(s, d), c)
    ensures c == d && NoneWaiting(DoDisconnect(s, d), s.conns[c].node)
  {
    var x := s.conns[d];
    var u := SetConn(s, d, x.(handler := Gone(x.handler.status)));
    assert IsCurrent(s, d);
    var v := u.(current := s.current - {x.node});
    FrameOnlyConn(s, u, d);
    FrameTable(u, v);
    ClearEffect(v, x.node);
  }

  /** At the moment a connector stops being current, every future registered for its node has been
      failed and is gone from the table. */
  lemma RemovalFailsFutures(r: Run, n: nat, c: nat)
    requires r.Valid() && r.IdsLast() && Removes(r, n, c)
    ensures r.steps[n].ConnectInstall? || r.steps[n] == Disconnect(c)
    ensures NoneWaiting(r.states[n + 1], r.states[n].conns[c].node)
    ensures NoneRegistered(r.states[n + 1], r.states[n].conns[c].node)
  {
    RunStep(r, n);
    RemovalStep(r.states[n], r.steps[n], c);
    var t := r.states[n + 1];
    forall id | id in t.futures
      ensures !Hit(t, r.states[n].conns[c].node, id)
    {
      assert Waiting(t, id, t.futures[id]);
    }
  }

  // Stranding.

  /** The three steps of a call whose future was registered. */
  ghost predicate Phases(r: Run, k: nat, l: nat, h: nat, g: nat) {
    && l < h < g < |r.steps|
    && r.steps[l] == LookUp(k) && r.steps[h] == HandOff(k) && r.steps[g] == Register(k)
  }

  /** A reply carrying the call's request ID is processed. */
  predicate Replies(r: Run, n: nat, id: int) {
    n < |r.steps| && r.steps[n].Receive? && !r.steps[n].resp.kind.CheckIn? && r.steps[n].resp.requestId == id
  }

  /** The only ways for a call to move on. */
  predicate PcStep(step: Step, k: nat, p: CallPc, q: CallPc) {
    match p
    case Started => step == LookUp(k) && (q.Found? || q.Abandoned?)
    case Found(c) => (step == HandOff(k) && q == HandedOff(c)) || (step == SendFail(k) && q == Abandoned)
    case HandedOff(c) => step == Register(k) && q == Registered(c)
    case _ => false
  }

  lemma PcChange(s: Group, step: Step, k: nat)
    requires Inv(s) && Enabled(s, step) && k < |s.calls|
    requires Next(s, step).calls[k].pc != s.calls[k].pc
    ensures PcStep(step, k, s.calls[k].pc, Next(s, step).calls[k].pc)
  {
    match step
    case ConnectCancel(node) => ClearEffect(s, node);
    case Disconnect(c) => DisconnectKeepsPc(s, c, k);
    case _ =>
  }

  lemma DisconnectKeepsPc(s: Group, c: nat, k: nat)
    requires Inv(s) && Enabled(s, Disconnect(c)) && k < |s.calls|
    ensures DoDisconnect(s, c).calls[k].pc == s.calls[k].pc
  {
  }

  lemma CallAt(r: Run, i: nat, j: nat, k: nat)
    requires r.Valid() && r.IdsLast() && i <= j < |r.states| && k < |r.states[i].calls|
    ensures k < |r.states[j].calls| && CallAfter(r.states[i].calls[k], r.states[j].calls[k])
  {
    RunLater(r, i, j);
  }

  lemma PcChangeAt(r: Run, n: nat, k: nat)
    requires r.Valid() && r.IdsLast() && n < |r.steps| && k < |r.states[n].calls|
    ensures k < |r.states[n + 1].calls|
    ensures r.states[n].calls[k].pc == r.states[n + 1].calls[k].pc
         || PcStep(r.steps[n], k, r.states[n].calls[k].pc, r.states[n + 1].calls[k].pc)
  {
    CallAt(r, n, n + 1, k);
    RunStep(r, n);
    if r.states[n].calls[k].pc != r.states[n + 1].calls[k].pc {
      PcChange(r.states[n], r.steps[n], k);
    }
  }

  lemma NewCallsAt(r: Run, n: nat, k: nat)
    requires r.Valid() && r.IdsLast() && n < |r.steps|
    requires |r.states[n].calls| <= k < |r.states[n + 1].calls|
    ensures r.states[n + 1].calls[k].pc.Started?
  {
    assert r.Follows(n);
    NewCallsStart(r.states[n], r.steps[n], k);
  }

  /** The step that took a call from `before` to its present program counter. */
  lemma {:induction false} EnteredAt(r: Run, i: nat, k: nat, step: Step, before: CallPc) returns (n: nat)
    requires r.Valid() && r.IdsLast() && i < |r.states| && k < |r.states[i].calls|
    requires match r.states[i].calls[k].pc
             case Found(c) => step == LookUp(k) && before == Started
             case HandedOff(c) => step == HandOff(k) && before == Found(c)
             case Registered(c) => step == Register(k) && before == HandedOff(c)
             case _ => false
    ensures n < i && r.steps[n] == step
    ensures k < |r.states[n].calls| && r.states[n].calls[k].pc == before
    ensures k < |r.states[n + 1].calls| && r.states[n + 1].calls[k].pc == r.states[i].calls[k].pc
  {
    if k < |r.states[i - 1].calls| {
      PcChangeAt(r, i - 1, k);
      if r.states[i - 1].calls[k].pc == r.states[i].calls[k].pc {
        n := EnteredAt(r, i - 1, k, step, before);
      } else {
        n := i - 1;
      }
    } else {
      NewCallsAt(r, i - 1, k);
    }
  }

  /** A registered call went through look-up, hand-off and registration, in that order, with the
      connector that was current at its look-up. */
  lemma PhasesExist(r: Run, k: nat, c: nat) returns (l: nat, h: nat, g: nat)
    requires r.Valid() && r.IdsLast()
    requires k < |r.Last().calls| && r.Last().calls[k].pc == Registered(c)
    ensures Phases(r, k, l, h, g)
    ensures k < |r.states[g + 1].calls| && r.states[g + 1].calls[k].pc == Registered(c)
    ensures k < |r.states[l + 1].calls| && r.states[l + 1].calls[k].pc == Found(c)
  {
    g := EnteredAt(r, |r.steps|, k, Register(k), HandedOff(c));
    h := EnteredAt(r, g, k, HandOff(k), Found(c));
    l := EnteredAt(r, h, k, LookUp(k), Started);
  }

  lemma {:induction false} LosesCurrency(r: Run, a: nat, b: nat, c: nat) returns (n: nat)
    requires r.Valid() && r.IdsLast() && a <= b < |r.states|
    requires c < |r.states[a].conns| && c < |r.states[b].conns|
    requires IsCurrent(r.states[a], c) && !IsCurrent(r.states[b], c)
    ensures a <= n < b && Removes(r, n, c)
    decreases b - a
  {
    RunStepLater(r, a);
    if IsCurrent(r.states[a + 1], c) {
      n := LosesCurrency(r, a + 1, b, c);
    } else {
      n := a;
    }
  }

  /** A removal completes the registered futures of the connector it removes. */
  lemma RemovalFinishes(r: Run, a: nat, n: nat, k: nat, c: nat)
    requires r.Valid() && r.IdsLast() && a <= n < |r.steps|
    requires k < |r.states[a].calls| && r.states[a].calls[k].pc == Registered(c)
    requires Removes(r, n, c)
    ensures k < |r.states[n + 1].calls| && !r.states[n + 1].calls[k].outcome.Pending?
  {
    CallAt(r, a, n, k);
    CallAt(r, n, n + 1, k);
    RemovalFailsFutures(r, n, c);
    RunInv(r, n);
    assert CallInv(r.states[n], k);
  }

  /** While a registered future stays pending, its connector stays current if it was. */
  lemma PendingKeepsCurrency(r: Run, a: nat, b: nat, k: nat, c: nat)
    requires r.Valid() && r.IdsLast() && a <= b < |r.states|
    requires k < |r.states[a].calls| && r.states[a].calls[k].pc == Registered(c)
    requires k < |r.states[b].calls| && r.states[b].calls[k].outcome.Pending?
    requires c < |r.states[a].conns| && IsCurrent(r.states[a], c)
    ensures c < |r.states[b].conns| && IsCurrent(r.states[b], c)
  {
    StaysRemoved(r, a, b, c);
    if !IsCurrent(r.states[b], c) {
      var n := LosesCurrency(r, a, b, c);
      RemovalFinishes(r, a, n, k, c);
      CallAt(r, n + 1, b, k);
    }
  }

  lemma LookUpFindsCurrent(s: Group, k: nat)
    requires Inv(s) && Enabled(s, LookUp(k)) && DoLookUp(s, k).calls[k].pc.Found?
    ensures var c := DoLookUp(s, k).calls[k].pc.conn; c < |s.conns| && IsCurrent(s, c)
    ensures DoLookUp(s, k).current == s.current && DoLookUp(s, k).conns == s.conns
  {
  }

  /** The connector a call that ends up registered finds, hands off to and registers with. */
  lemma PhaseConns(r: Run, k: nat, l: nat, h: nat, g: nat, c: nat)
    requires r.Valid() && r.IdsLast() && Phases(r, k, l, h, g)
    requires k < |r.Last().calls| && r.Last().calls[k].pc == Registered(c)
    ensures k < |r.states[l + 1].calls| && r.states[l + 1].calls[k].pc == Found(c)
    ensures k < |r.states[h].calls| && r.states[h].calls[k].pc == Found(c)
    ensures k < |r.states[g + 1].calls| && r.states[g + 1].calls[k].pc == Registered(c)
  {
    assert r.Follows(l) && r.Follows(h) && r.Follows(g);
    CallAt(r, l + 1, h, k);
    CallAt(r, h, |r.steps|, k);
    CallAt(r, g + 1, |r.steps|, k);
  }

  lemma CurrentAfterLookUp(r: Run, l: nat, k: nat, c: nat)
    requires r.Valid() && r.IdsLast() && l < |r.steps| && r.steps[l] == LookUp(k)
    requires k < |r.states[l + 1].calls| && r.states[l + 1].calls[k].pc == Found(c)
    ensures c < |r.states[l + 1].conns| && IsCurrent(r.states[l + 1], c)
  {
    RunStep(r, l);
    LookUpFindsCurrent(r.states[l], k);
  }

  lemma RegisterKeepsConns(r: Run, g: nat, k: nat)
    requires r.Valid() && g < |r.steps| && r.steps[g] == Register(k)
    ensures r.states[g + 1].conns == r.states[g].conns && r.states[g + 1].current == r.states[g].current
  {
    assert r.Follows(g);
  }

  lemma StaysRemoved(r: Run, i: nat, j: nat, c: nat)
    requires r.Valid() && r.IdsLast() && i <= j < |r.states| && c < |r.states[i].conns|
    ensures c < |r.states[j].conns|
    ensures !IsCurrent(r.states[i], c) ==> !IsCurrent(r.states[j], c)
  {
    RunLater(r, i, j);
  }

  lemma CurrentUnlessRemoved(r: Run, a: nat, b: nat, c: nat)
    requires r.Valid() && r.IdsLast() && a <= b < |r.states|
    requires c < |r.states[a].conns| && IsCurrent(r.states[a], c)
    ensures c < |r.states[b].conns|
    ensures IsCurrent(r.states[b], c) <==> forall n: nat | a <= n < b :: !Removes(r, n, c)
  {
    StaysRemoved(r, a, b, c);
    if n: nat :| a <= n < b && Removes(r, n, c) {
      StaysRemoved(r, n + 1, b, c);
    } else if !IsCurrent(r.states[b], c) {
      var n := LosesCurrency(r, a, b, c);
    }
  }

  /** A pending registered future has lost its connector exactly when the removal fell between the
      call's look-up and its registration. */
  lemma StrandedByRemoval(r: Run, k: nat, l: nat, h: nat, g: nat, c: nat)
    requires r.Valid() && r.IdsLast() && Phases(r, k, l, h, g)
    requires k < |r.Last().calls| && r.Last().calls[k].outcome.Pending? && r.Last().calls[k].pc == Registered(c)
    ensures c < |r.Last().conns|
    ensures !IsCurrent(r.Last(), c) <==> exists n: nat :: l < n < g && Removes(r, n, c)
  {
    var last := |r.steps|;
    PhaseConns(r, k, l, h, g, c);
    CurrentAfterLookUp(r, l, k, c);
    CurrentUnlessRemoved(r, l + 1, g, c);
    RegisterKeepsConns(r, g, k);
    StaysRemoved(r, g, last, c);
    if IsCurrent(r.states[g], c) {
      PendingKeepsCurrency(r, g + 1, last, k, c);
    }
  }

  /** On a connector that was not yet cancelled at the hand-off, the removal can only have come
      after the hand-off. */
  lemma LiveHandOffNarrowsGap(r: Run, k: nat, l: nat, h: nat, g: nat, c: nat, n: nat)
    requires r.Valid() && r.IdsLast() && Phases(r, k, l, h, g)
    requires k < |r.Last().calls| && r.Last().calls[k].pc == Registered(c)
    requires c < |r.states[h].conns| && !r.states[h].conns[c].cancelled
    requires l < n < g && Removes(r, n, c)
    ensures h < n
  {
    PhaseConns(r, k, l, h, g, c);
    RunStep(r, h);
    RemovedIsCancelled(r.states[h], c);
    if n < h {
      StaysRemoved(r, n + 1, h, c);
    }
  }

  /** Both together: after a hand-off on a live connector, only a removal between hand-off and
      registration strands the future. */
  lemma StrandedAfterLiveHandOff(r: Run, k: nat, l: nat, h: nat, g: nat, c: nat)
    requires r.Valid() && r.IdsLast() && Phases(r, k, l, h, g)
    requires k < |r.Last().calls| && r.Last().calls[k].outcome.Pending? && r.Last().calls[k].pc == Registered(c)
    requires c < |r.states[h].conns| && !r.states[h].conns[c].cancelled
    ensures c < |r.Last().conns|
    ensures !IsCurrent(r.Last(), c) <==> exists n: nat :: h < n < g && Removes(r, n, c)
  {
    StrandedByRemoval(r, k, l, h, g, c);
    forall n: nat | l < n < g && Removes(r, n, c)
      ensures h < n
    {
      LiveHandOffNarrowsGap(r, k, l, h, g, c, n);
    }
  }

  lemma RemovedIsCancelled(s: Group, c: nat)
    requires Inv(s) && c < |s.conns|
    ensures !IsCurrent(s, c) && !s.conns[c].loop.NotStarted? ==> s.conns[c].cancelled
  {
  }

  lemma ReplyCompletes(s: Group, c: nat, resp: Response, k: nat)
    requires Inv(s) && Enabled(s, Receive(c, resp)) && !resp.kind.CheckIn?
    requires k < |s.calls| && s.calls[k].pc.Registered? && resp.requestId == s.calls[k].reqId
    ensures !DoReceive(s, resp).calls[k].outcome.Pending?
  {
    assert CallInv(s, k);
  }

  /** A reply to a registered call completes its future. */
  lemma ReplyFinishes(r: Run, a: nat, n: nat, k: nat)
    requires r.Valid() && r.IdsLast() && a <= n < |r.steps|
    requires k < |r.states[a].calls| && r.states[a].calls[k].pc.Registered?
    requires Replies(r, n, r.states[a].calls[k].reqId)
    ensures k < |r.states[n + 1].calls| && !r.states[n + 1].calls[k].outcome.Pending?
  {
    CallAt(r, a, n, k);
    CallAt(r, n, n + 1, k);
    RunStep(r, n);
    ReplyCompletes(r.states[n], r.steps[n].conn, r.steps[n].resp, k);
  }

  /** A pending registered future has missed its reply exactly when the reply was processed between
      the hand-off and the registration. */
  lemma StrandedByReply(r: Run, k: nat, l: nat, h: nat, g: nat)
    requires r.Valid() && r.IdsLast() && Phases(r, k, l, h, g)
    requires k < |r.Last().calls| && r.Last().calls[k].outcome.Pending? && r.Last().calls[k].pc.Registered?
    ensures (exists n: nat :: h < n && Replies(r, n, r.Last().calls[k].reqId))
       <==> (exists n: nat :: h < n < g && Replies(r, n, r.Last().calls[k].reqId))
  {
    PhaseConns(r, k, l, h, g, r.Last().calls[k].pc.conn);
    CallAt(r, g + 1, |r.steps|, k);
    forall n: nat | g <= n && Replies(r, n, r.Last().calls[k].reqId)
      ensures false
    {
      ReplyFinishes(r, g + 1, n, k);
      CallAt(r, n + 1, |r.steps|, k);
    }
  }

  // Streams.

  /** On every stream, at every moment: one sender at most, Welcome first, requests in hand-off
      order; and each call whose send returned nil was taken exactly once, by the send loop of the
      connector it found. */
  lemma StreamsOverRuns(r: Run, i: nat, c: nat)
    requires r.Valid() && r.IdsLast() && i < |r.states| && c < |r.states[i].conns|
    ensures var s := r.states[i];
            && Senders(s.conns[c]) <= 1
            && InHandOffOrder(s.conns[c].wire, s.conns[c].taken)
            && NoDuplicates(s.conns[c].taken)
            && forall k: nat | k < |s.calls| ::
                 k in s.conns[c].taken <==> s.calls[k].pc == HandedOff(c) || s.calls[k].pc == Registered(c)
  {
    RunInv(r, i);
    var s := r.states[i];
    StreamDiscipline(s.cgId, s.shard, s.conns[c]);
    assert forall k: nat :: k in s.conns[c].taken <==> Sent(s, k, c);
  }

  predicate HandsTo(s: Group, k: nat, c: nat) {
    k < |s.calls| && s.calls[k].pc == Found(c)
  }

  /** The order of hand-offs on a connector is the order of its log, which only ever grows. */
  lemma HandOffsAppend(r: Run, i: nat, j: nat, c: nat)
    requires r.Valid() && r.IdsLast() && i <= j < |r.states| && c < |r.states[i].conns|
    ensures c < |r.states[j].conns|
    ensures r.states[i].conns[c].taken <= r.states[j].conns[c].taken
    ensures r.states[i].conns[c].wire <= r.states[j].conns[c].wire
    ensures i < j && r.steps[i].HandOff? && HandsTo(r.states[i], r.steps[i].call, c) ==>
              r.states[i].conns[c].taken + [r.steps[i].call] <= r.states[j].conns[c].taken
  {
    RunLater(r, i, j);
    if i < j {
      assert r.Follows(i);
      RunLater(r, i + 1, j);
    }
  }

  // Exit statuses of StartServing.

  /** A handler that ends with Aborted was superseded by a newer connector of its node; one that
      ends with the resharding status had a timer armed under all three guards, and it fired. */
  lemma ExitStatusSound(r: Run, i: nat, c: nat)
    requires r.Valid() && r.IdsLast() && i < |r.states| && c < |r.states[i].conns|
    ensures var s := r.states[i];
            var conn := s.conns[c];
            && (Exits(conn.handler) && conn.handler.status.Aborted? ==> conn.evicted && Replaced(s, c))
            && (Exits(conn.handler) && conn.handler.status.Resharding? ==>
                  && s.shard != 0 && Sharding.GetShard(s.cgId) != s.shard
                  && Versions.ClientIsShedSafe(conn.header)
                  && (conn.timer.Fired? || conn.timer.Shed?))
            && (Sharding.GetShard(s.cgId) == s.shard ==>
                  conn.timer.NoTimer? && !(Exits(conn.handler) && conn.handler.status.Resharding?))
  {
    RunInv(r, i);
    var s := r.states[i];
    assert CurrencyInv(s, c);
    StreamDiscipline(s.cgId, s.shard, s.conns[c]);
  }

  /** Handler program counters at which the evicted flag has been read. */
  predicate FlagRead(h: Handler) {
    h.NotEvicted? || (Exits(h) && !h.status.WelcomeFailed?)
  }

  predicate SawEviction(h: Handler) {
    Exits(h) && h.status.Aborted?
  }

  /** The verdict on eviction stands once the flag has been read. */
  predicate SameVerdict(a: Handler, b: Handler) {
    (FlagRead(a) <==> FlagRead(b)) && (SawEviction(a) <==> SawEviction(b))
  }

  lemma EventVerdict(cgId: string, shard: int, a: Conn, e: Event)
    requires Possible(a, e)
    ensures var b := After(cgId, shard, a, e);
            if e.ReadEvicted?
            then !FlagRead(a.handler) && FlagRead(b.handler) && (SawEviction(b.handler) <==> a.evicted)
            else SameVerdict(a.handler, b.handler)
  {
  }

  lemma StepKeepsVerdict(s: Group, step: Step, c: nat)
    requires Enabled(s, step) && c < |s.conns| <= |Next(s, step).conns|
    requires step != Stream(c, ReadEvicted)
    ensures SameVerdict(s.conns[c].handler, Next(s, step).conns[c].handler)
  {
    if step.Stream? {
      EventVerdict(s.cgId, s.shard, s.conns[step.conn], step.event);
    } else if !step.Disconnect? {
      HandlersOnlyMoveThemselves(s, step, c);
    }
  }

  lemma HandlersOnlyMoveThemselves(s: Group, step: Step, c: nat)
    requires Enabled(s, step) && c < |s.conns| <= |Next(s, step).conns|
    requires !step.Stream? && !step.Disconnect?
    ensures Next(s, step).conns[c].handler == s.conns[c].handler
  {
  }

  lemma VerdictAt(r: Run, n: nat, c: nat)
    requires r.Valid() && n < |r.steps| && c < |r.states[n + 1].conns|
    ensures if c >= |r.states[n].conns| then !FlagRead(r.states[n + 1].conns[c].handler)
            else if r.steps[n] == Stream(c, ReadEvicted) then
              SawEviction(r.states[n + 1].conns[c].handler) <==> r.states[n].conns[c].evicted
            else SameVerdict(r.states[n].conns[c].handler, r.states[n + 1].conns[c].handler)
  {
    assert r.Follows(n);
    var s, step := r.states[n], r.steps[n];
    if c >= |s.conns| {
      NewConnsStart(s, step, c);
    } else if step == Stream(c, ReadEvicted) {
      EventVerdict(s.cgId, s.shard, s.conns[c], ReadEvicted);
    } else {
      StepKeepsVerdict(s, step, c);
    }
  }

  /** Exactly when an eviction is reported: the flag was already set when the handler read it. */
  lemma {:induction false} AbortedIffSeen(r: Run, i: nat, c: nat) returns (n: nat)
    requires r.Valid() && i < |r.states| && c < |r.states[i].conns|
    requires FlagRead(r.states[i].conns[c].handler)
    ensures n < i && r.steps[n] == Stream(c, ReadEvicted) && c < |r.states[n].conns|
    ensures SawEviction(r.states[i].conns[c].handler) <==> r.states[n].conns[c].evicted
  {
    VerdictAt(r, i - 1, c);
    if r.steps[i - 1] == Stream(c, ReadEvicted) && c < |r.states[i - 1].conns| {
      n := i - 1;
    } else {
      n := AbortedIffSeen(r, i - 1, c);
    }
  }

  lemma {:induction false} FlagStaysRead(r: Run, a: nat, b: nat, c: nat)
    requires r.Valid() && a <= b < |r.states| && c < |r.states[a].conns| && FlagRead(r.states[a].conns[c].handler)
    ensures c < |r.states[b].conns| && FlagRead(r.states[b].conns[c].handler)
    decreases b - a
  {
    if a < b {
      FlagStaysRead(r, a, b - 1, c);
      assert r.Follows(b - 1);
      ConnsOnlyGrow(r.states[b - 1], r.steps[b - 1]);
      VerdictAt(r, b - 1, c);
    }
  }

  lemma ConnsOnlyGrow(s: Group, step: Step)
    requires Enabled(s, step)
    ensures |s.conns| <= |Next(s, step).conns|
  {
  }

  /** Eviction takes precedence: a handler whose stream was evicted before it read the flag ends with
      Aborted, never with a clean or a resharding status. */
  lemma EvictionIsReported(r: Run, j: nat, i: nat, c: nat)
    requires r.Valid() && r.IdsLast() && j <= i < |r.states| && c < |r.states[j].conns|
    requires r.states[j].conns[c].evicted && !FlagRead(r.states[j].conns[c].handler)
    ensures c < |r.states[i].conns|
    ensures FlagRead(r.states[i].conns[c].handler) ==> SawEviction(r.states[i].conns[c].handler)
  {
    RunLater(r, j, i);
    if FlagRead(r.states[i].conns[c].handler) {
      var n := AbortedIffSeen(r, i, c);
      assert r.Follows(n);
      if n < j {
        EventVerdict(r.states[n].cgId, r.states[n].shard, r.states[n].conns[c], ReadEvicted);
        FlagStaysRead(r, n + 1, j, c);
      } else {
        RunLater(r, j, n);
      }
    }
  }

  /** Handler program counters past the read of the shed flag. */
  predicate ShedRead(h: Handler) {
    (h.Leaving? || h.Stopped? || h.Gone?) && (h.status == Clean || h.status == Resharding)
  }

  lemma StepKeepsShedRead(s: Group, step: Step, c: nat)
    requires Enabled(s, step) && c < |s.conns| <= |Next(s, step).conns| && step != Stream(c, ReadShed)
    ensures ShedRead(Next(s, step).conns[c].handler) ==>
              ShedRead(s.conns[c].handler) && Next(s, step).conns[c].handler.status == s.conns[c].handler.status
  {
    if step.Stream? {
      HandlerEffect(s.cgId, s.shard, s.conns[step.conn], step.event);
    } else if !step.Disconnect? {
      HandlersOnlyMoveThemselves(s, step, c);
    }
  }

  /** A stream the shard timer shed is reported as such: a handler that got past the shed flag read it
      at one step, and ends with the resharding status exactly if the timer had fired by then, and
      clean otherwise. */
  lemma {:induction false} ReshardingIffFired(r: Run, i: nat, c: nat) returns (n: nat)
    requires r.Valid() && i < |r.states| && c < |r.states[i].conns|
    requires ShedRead(r.states[i].conns[c].handler)
    ensures n < i && r.steps[n] == Stream(c, ReadShed) && c < |r.states[n].conns|
    ensures r.states[i].conns[c].handler.status ==
            if r.states[n].conns[c].timer == Fired || r.states[n].conns[c].timer == Shed then Resharding else Clean
  {
    assert r.Follows(i - 1);
    var s, step := r.states[i - 1], r.steps[i - 1];
    if c >= |s.conns| {
      NewConnsStart(s, step, c);
    } else if step == Stream(c, ReadShed) {
      HandlerEffect(s.cgId, s.shard, s.conns[c], ReadShed);
      n := i - 1;
    } else {
      StepKeepsShedRead(s, step, c);
      n := ReshardingIffFired(r, i - 1, c);
    }
  }

  /** When the handler decides on a timer, one is armed exactly under the three guards. */
  lemma ArmedIff(r: Run, n: nat, c: nat)
    requires r.Valid() && n < |r.steps| && r.steps[n] == Stream(c, DecideShed)
    ensures c < |r.states[n].conns| && c < |r.states[n + 1].conns|
    ensures var s := r.states[n];
            && r.states[n + 1].conns[c].handler == Ready
            && (r.states[n + 1].conns[c].timer == Armed <==>
                s.shard != 0 && Sharding.GetShard(s.cgId) != s.shard && Versions.ClientIsShedSafe(s.conns[c].header))
            && (r.states[n + 1].conns[c].timer != Armed ==> r.states[n + 1].conns[c].timer == NoTimer)
  {
    assert r.Follows(n);
    var s := r.states[n];
    HandlerEffect(s.cgId, s.shard, s.conns[c], DecideShed);
    OtherEffects(s.cgId, s.shard, s.conns[c], DecideShed);
  }

  lemma NewConnsStart(s: Group, step: Step, c: nat)
    requires Enabled(s, step) && |s.conns| <= c < |Next(s, step).conns|
    ensures Next(s, step).conns[c].handler.Connected?
  {
  }
}
