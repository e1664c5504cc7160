/** The router's mutable objects. Each method is proved against the step function of `Routing` it
    implements, so that everything proved of runs of steps holds of runs of these methods. */
module RoutingObjects {
  import opened Wrappers
  import opened Words
  import opened Streams
  import opened Routing
  import opened RoutingInvariant
  import RoutingEffects

  /** What Await returns: the reply, the routing error, or its context's own error. */
  datatype Awaited = Answer(resp: Response) | RoutingFailed(err: RouteError) | ContextDone

  /** A pending future can only be left through the context. */
  predicate AwaitMayReturn(o: Outcome, a: Awaited) {
    match a
    case Answer(resp) => o == Resolved(resp)
    case RoutingFailed(err) => o == FailedWith(err)
    case ContextDone => true
  }

  class FutureResponse {
    const nodeNum: int
    ghost const id: nat
    var resp: Option<Response>
    var err: Option<RouteError>
    var done: bool  // the done channel is closed

    ghost predicate Valid()
      reads this
    {
      if done then resp.Some? != err.Some? else resp.None? && err.None?
    }

    ghost function View(): Outcome
      requires Valid()
      reads this
    {
      if !done then Pending else if resp.Some? then Resolved(resp.value) else FailedWith(err.value)
    }

    constructor (nodeNum: int, ghost id: nat)
      ensures Valid() && View() == Pending && this.nodeNum == nodeNum && this.id == id
    {
      this.nodeNum, this.id := nodeNum, id;
      resp, err, done := None, None, false;
    }

    /** Closing a closed channel panics, so both completions demand a pending future. */
    method Resolve(r: Response)
      requires Valid() && !done
      modifies this
      ensures Valid() && View() == Resolved(r)
      ensures done && resp == Some(r) && err == old(err)
    {
      resp := Some(r);
      done := true;
    }

    /** With both channels ready the select takes either, here as `pickContext` says. */
    method Await(contextDone: bool, pickContext: bool) returns (a: Awaited)
      requires Valid() && (done || contextDone)
      ensures AwaitMayReturn(View(), a)
      ensures a.Answer? ==> View() == Resolved(a.resp)
      ensures a.RoutingFailed? ==> View() == FailedWith(a.err)
      ensures View() == Pending ==> a == ContextDone
      ensures !contextDone ==> !a.ContextDone?
    {
      if done && !(contextDone && pickContext) {
        if resp.Some? {
          return Answer(resp.value);
        }
        return RoutingFailed(err.value);
      }
      return ContextDone;
    }

    method Fail(e: RouteError)
      requires Valid() && !done
      modifies this
      ensures Valid() && View() == FailedWith(e)
      ensures done && err == Some(e) && resp == old(resp)
    {
      err := Some(e);
      done := true;
    }

    method Finish(o: Outcome)
      requires Valid() && !done && !o.Pending?
      modifies this
      ensures Valid() && View() == o
    {
      if o.Resolved? {
        Resolve(o.resp);
      } else {
        Fail(o.err);
      }
    }
  }

  class Connector {
    const nodeNum: int
    ghost const id: nat
    var cancelled: bool
    var evicted: bool
    ghost var stream: Conn  // the serving side, stepped by the rules of `Streams`

    ghost function View(): Conn
      reads this
    {
      stream.(node := nodeNum, cancelled := cancelled, evicted := evicted)
    }

    constructor (nodeNum: int, ghost header: Option<string>, ghost id: nat)
      ensures View() == NewConn(nodeNum, header) && this.id == id && this.nodeNum == nodeNum
    {
      this.nodeNum, this.id := nodeNum, id;
      cancelled, evicted := false, false;
      stream := NewConn(nodeNum, header);
    }

    method Cancel()
      modifies this`cancelled
      ensures View() == old(View()).(cancelled := true)
    {
      cancelled := true;
    }
  }

  /** connect() as a whole: both halves of a replacement, or a plain installation. */
  ghost function Reconnected(s: Group, node: int, header: Option<string>): Group
    requires s.lock.Free? && (node in s.current ==> s.current[node] < |s.conns|)
  {
    if node in s.current then DoConnectInstall(DoConnectCancel(s, node), header)
    else DoConnectFresh(s, node, header)
  }

  /** A plain connect adds a connector and makes it current. */
  lemma FirstConnectIs(s: Group, node: int, header: Option<string>)
    requires s.lock == Free && node !in s.current
    ensures Reconnected(s, node, header) ==
            s.(conns := s.conns + [Conn(node, header, false, false, Connected, NotStarted, NoTimer, [], [])],
               current := s.current[node := |s.conns|])
  {
  }

  /** The state a reconnect leads to: the connector replaced is cancelled and evicted, its node's
      registered futures have failed, and the new connector is current. */
  ghost predicate ReplacedBy(s: Group, t: Group, node: int, header: Option<string>)
    requires node in s.current && s.current[node] < |s.conns|
  {
    var p := s.current[node];
    && RoutingEffects.Failed(s, t, node)
    && t.conns == s.conns[p := s.conns[p].(cancelled := true, evicted := true)] +
                  [Conn(node, header, false, false, Connected, NotStarted, NoTimer, [], [])]
    && t.current == s.current[node := |s.conns|] && t.lock == Free && t.counter == s.counter
  }

  lemma ReconnectIs(s: Group, node: int, header: Option<string>)
    requires TableInv(s) && s.lock == Free && node in s.current && s.current[node] < |s.conns|
    ensures ReplacedBy(s, Reconnected(s, node, header), node, header)
  {
    var u := FirstHalf(s, node);
    SecondHalf(s, u, node, header);
  }

  lemma FirstHalf(s: Group, node: int) returns (u: Group)
    requires TableInv(s) && s.lock == Free && node in s.current && s.current[node] < |s.conns|
    ensures u == DoConnectCancel(s, node)
    ensures RoutingEffects.Failed(s, u, node) && u.lock == Replacing(node, s.current[node])
    ensures u.conns == s.conns[s.current[node] := s.conns[s.current[node]].(cancelled := true)]
    ensures u.current == s.current && u.counter == s.counter
  {
    RoutingEffects.ConnectCancelEffect(s, node);
    u := Next(s, ConnectCancel(node));
  }

  lemma SecondHalf(s: Group, u: Group, node: int, header: Option<string>)
    requires node in s.current && s.current[node] < |s.conns|
    requires RoutingEffects.Failed(s, u, node) && u.lock == Replacing(node, s.current[node])
    requires u.conns == s.conns[s.current[node] := s.conns[s.current[node]].(cancelled := true)]
    requires u.current == s.current && u.counter == s.counter
    ensures ReplacedBy(s, Next(u, ConnectInstall(header)), node, header)
  {
    RoutingEffects.ConnectInstallEffect(u, header);
  }

  /** clearFutures after visiting every request ID outside `ids`. */
  ghost function PartlyCleared(s: Group, node: int, ids: set<int>): Group {
    s.(futures := map r | r in s.futures && (r in ids || !Hit(s, node, r)) :: s.futures[r],
       calls := seq(|s.calls|, k requires 0 <= k < |s.calls| =>
         if s.calls[k].node == node && InTable(s, k) && s.calls[k].reqId !in ids
         then s.calls[k].(outcome := FailedWith(Disconnected(node)))
         else s.calls[k]))
  }

  lemma NothingCleared(s: Group, node: int)
    ensures PartlyCleared(s, node, s.futures.Keys) == s
  {
  }

  lemma AllCleared(s: Group, node: int)
    requires TableInv(s)
    ensures PartlyCleared(s, node, {}) == Clear(s, node)
  {
    ClearEffect(s, node);
    var t := PartlyCleared(s, node, {});
    forall k: nat | k < |s.calls|
      ensures t.calls[k] == Clear(s, node).calls[k]
    {
      assert CallInv(s, k);
      if InTable(s, k) {
        assert Waiting(s, s.calls[k].reqId, k);
      }
    }
    assert !t.panicked && !Clear(s, node).panicked;
  }

  lemma ClearOne(s: Group, node: int, ids: set<int>, r: int)
    requires TableInv(s) && r in ids && r in s.futures
    ensures var t := PartlyCleared(s, node, ids);
            && TableInv(t) && r in t.futures && t.futures[r] < |t.calls|
            && t.calls[t.futures[r]].node == s.calls[s.futures[r]].node
            && PartlyCleared(s, node, ids - {r}) ==
               if t.calls[t.futures[r]].node == node
               then Finish(t.(futures := t.futures - {r}), t.futures[r], FailedWith(Disconnected(node)))
               else t
  {
    var t := PartlyCleared(s, node, ids);
    var k := s.futures[r];
    assert Waiting(s, r, k) && InTable(s, k);
    forall j: nat | j < |t.calls|
      ensures CallInv(t, j)
    {
      assert CallInv(s, j);
    }
    forall q | q in t.futures
      ensures Waiting(t, q, t.futures[q])
    {
      assert Waiting(s, q, s.futures[q]);
    }
    PartlyClearedCalls(s, node, ids, r);
  }

  lemma PartlyClearedCalls(s: Group, node: int, ids: set<int>, r: int)
    requires TableInv(s) && r in ids && r in s.futures
    ensures var k := s.futures[r];
            var t, u := PartlyCleared(s, node, ids).calls, PartlyCleared(s, node, ids - {r}).calls;
            && k < |s.calls|
            && t[k] == s.calls[k]
            && u == (if s.calls[k].node == node then t[k := t[k].(outcome := FailedWith(Disconnected(node)))] else t)
  {
  }

  lemma GoneKeepsTable(s: Group, c: nat)
    requires TableInv(s) && Enabled(s, Disconnect(c))
    ensures TableInv(SetConn(s, c, s.conns[c].(handler := Gone(s.conns[c].handler.status))))
  {
    FrameTable(s, SetConn(s, c, s.conns[c].(handler := Gone(s.conns[c].handler.status))));
  }

  lemma NoMember(ids: set<int>)
    ensures ids != {} ==> exists r :: r in ids
  {
    assert (forall r :: r !in ids) ==> ids == {};
  }

  /** The local variables of one routeRequest call. */
  datatype Frame = Frame(node: int, reqId: int, pc: FramePc, future: FutureResponse?)

  datatype FramePc = AtStart | AtSend(c: Connector) | AtRegister(c: Connector) | Done(c: Connector) | GaveUp

  class ConnectivityGroup {
    const id: string
    ghost const shard: int
    var connectors: map<int, Connector>
    var msgCounter: int
    var futures: map<int, FutureResponse>
    ghost var conns: seq<Connector>  // every connector ever installed
    ghost var frames: seq<Frame>     // every call of routeRequest
    ghost var lock: Lock             // whether connect() is between its two halves

    ghost function FutureSet(): set<FutureResponse>
      reads `frames
    {
      set k | 0 <= k < |frames| && frames[k].future != null :: frames[k].future
    }

    ghost function ConnSet(): set<Connector>
      reads `conns
    {
      set c | c in conns
    }

    ghost function Footprint(): set<object>
      reads `frames, `conns
    {
      {this} + FutureSet() + ConnSet()
    }

    ghost predicate KnownConn(c: Connector)
      reads `conns
    {
      c.id < |conns| && conns[c.id] == c
    }

    ghost predicate ValidFrame(k: nat)
      requires k < |frames|
      reads `frames, `conns, frames[k].future
    {
      var f := frames[k];
      && (f.future != null ==> f.future.id == k && f.future.nodeNum == f.node && f.future.Valid())
      && (f.pc == AtStart <==> f.future == null)
      && (f.pc.AtSend? || f.pc.AtRegister? || f.pc.Done? ==> KnownConn(f.pc.c))
    }

    ghost predicate Valid()
      reads this, FutureSet()
    {
      && (forall i: nat | i < |conns| :: conns[i].id == i)
      && (forall n | n in connectors :: KnownConn(connectors[n]))
      && (forall k: nat | k < |frames| :: ValidFrame(k))
      && (forall r | r in futures :: futures[r].id < |frames| && frames[futures[r].id].future == futures[r])
    }

    ghost function PcView(pc: FramePc): CallPc {
      match pc
      case AtStart => Started
      case AtSend(c) => Found(c.id)
      case AtRegister(c) => HandedOff(c.id)
      case Done(c) => Registered(c.id)
      case GaveUp => Abandoned
    }

    ghost function CallView(k: nat): Call
      requires k < |frames| && ValidFrame(k)
      reads `frames, `conns, frames[k].future
    {
      var f := frames[k];
      Call(f.node, f.reqId, PcView(f.pc), if f.future == null then Pending else f.future.View())
    }

    ghost function View(): Group
      requires Valid()
      reads this, conns, FutureSet()
    {
      Group(id, shard,
            seq(|conns|, i requires 0 <= i < |conns| reads this, conns => conns[i].View()),
            map n | n in connectors :: connectors[n].id,
            msgCounter,
            seq(|frames|, k requires 0 <= k < |frames| && ValidFrame(k) reads this, FutureSet() => CallView(k)),
            map r | r in futures :: futures[r].id,
            lock, false)
    }

    constructor (id: string, ghost shard: int)
      ensures Valid() && View() == NewGroup(id, shard)
      ensures fresh(this) && Footprint() == {this} && lock.Free?
    {
      this.id, this.shard := id, shard;
      connectors, msgCounter, futures := map[], 0, map[];
      conns, frames, lock := [], [], Free;
    }

    lemma FutureWaits(r: int)
      requires Valid() && TableInv(View()) && r in futures
      ensures var k := futures[r].id;
              && k < |frames| && frames[k].future == futures[r] && ValidFrame(k) && !futures[r].done
              && View().calls[k] == CallView(k)
    {
      var k := futures[r].id;
      assert r in View().futures && View().futures[r] == k;
      assert Waiting(View(), r, k);
      assert ValidFrame(k) && View().calls[k] == CallView(k);
    }

    /** Takes a future out of the table and completes it. */
    method Complete(r: int, o: Outcome)
      requires Valid() && TableInv(View()) && r in futures && !o.Pending?
      modifies this`futures, futures[r]
      ensures Valid() && frames == old(frames) && conns == old(conns)
      ensures futures == old(futures) - {r}
      ensures View() == Finish(old(View()).(futures := old(View()).futures - {r}), old(futures[r].id), o)
    {
      ghost var s := View();
      var f := futures[r];
      ghost var k := f.id;
      FutureWaits(r);
      futures := futures - {r};
      f.Finish(o);
      forall j: nat | j < |frames| && j != k
        ensures ValidFrame(j) && CallView(j) == s.calls[j]
      {
        assert old(ValidFrame(j)) && s.calls[j] == old(CallView(j));
        assert frames[j].future != f;
      }
      assert ValidFrame(k) && CallView(k) == s.calls[k].(outcome := o);
      assert View().calls == s.calls[k := s.calls[k].(outcome := o)];
    }

    /** How far clearFutures has come when `ids` are left to visit. */
    ghost predicate Clearing(s: Group, nodeNum: int, ids: set<int>)
      reads this, conns, FutureSet()
    {
      && Valid()
      && View() == PartlyCleared(s, nodeNum, ids)
      && ids <= futures.Keys && futures.Keys <= s.futures.Keys
    }

    lemma FutureInSet(r: int)
      requires Valid() && r in futures
      ensures futures[r] in FutureSet()
    {
    }

    /** One iteration of clearFutures: some request ID not yet visited. */
    method ClearNext(nodeNum: int, ids: set<int>, ghost s: Group) returns (rest: set<int>)
      requires ids != {} && TableInv(s) && Clearing(s, nodeNum, ids)
      modifies this`futures, FutureSet()
      ensures frames == old(frames) && conns == old(conns)
      ensures Clearing(s, nodeNum, rest) && rest < ids
    {
      NoMember(ids);
      var r :| r in ids;
      rest := ids - {r};
      FutureInSet(r);
      ClearOne(s, nodeNum, ids, r);
      assert ValidFrame(futures[r].id);
      assert View().calls[futures[r].id] == CallView(futures[r].id);
      if futures[r].nodeNum == nodeNum {
        Complete(r, FailedWith(Disconnected(nodeNum)));
      }
    }

    /** Deletes while iterating, as Go's range loop allows. Must be called under the mutex. */
    method ClearFutures(nodeNum: int)
      requires Valid() && TableInv(View())
      modifies this`futures, FutureSet()
      ensures Valid() && frames == old(frames) && conns == old(conns)
      ensures View() == Clear(old(View()), nodeNum)
    {
      ghost var s := View();
      var ids := futures.Keys;
      NothingCleared(s, nodeNum);
      while ids != {}
        invariant frames == old(frames) && conns == old(conns)
        invariant Clearing(s, nodeNum, ids)
      {
        ids := ClearNext(nodeNum, ids, s);
      }
      AllCleared(s, nodeNum);
    }

    lemma CurrentNode(nodeNum: int)
      requires Valid() && CurrentInv(View()) && nodeNum in connectors
      ensures connectors[nodeNum].nodeNum == nodeNum
    {
      var c := connectors[nodeNum];
      assert View().current[nodeNum] == c.id && View().conns[c.id] == c.View();
    }

    /** The first half of a replacement: the previous connector is cancelled, not yet evicted. */
    method CancelPrevious(nodeNum: int) returns (previous: Connector)
      requires Valid() && TableInv(View()) && lock.Free?
      requires nodeNum in connectors && connectors[nodeNum].nodeNum == nodeNum
      modifies this`futures, this`lock, FutureSet(), ConnSet()
      ensures Valid() && frames == old(frames) && conns == old(conns) && connectors == old(connectors)
      ensures KnownConn(previous) && lock == Replacing(nodeNum, previous.id)
      ensures View() == DoConnectCancel(old(View()), nodeNum)
    {
      previous := connectors[nodeNum];
      ClearAndCancel(previous);
      SetLock(Replacing(nodeNum, previous.id));
    }

    ghost method SetLock(l: Lock)
      requires Valid()
      modifies this`lock
      ensures Valid() && lock == l && View() == old(View()).(lock := l)
    {
      lock := l;
    }

    method ClearAndCancel(previous: Connector)
      requires Valid() && TableInv(View()) && KnownConn(previous)
      modifies this`futures, FutureSet(), previous`cancelled
      ensures Valid() && frames == old(frames) && conns == old(conns)
      ensures var s, p := old(View()), previous.id;
              View() == SetConn(Clear(s, previous.nodeNum), p, s.conns[p].(cancelled := true))
    {
      ClearFutures(previous.nodeNum);
      MarkCancelled(previous);
    }

    method MarkCancelled(previous: Connector)
      requires Valid() && KnownConn(previous)
      modifies previous`cancelled
      ensures Valid()
      ensures View() == SetConn(old(View()), previous.id, old(View()).conns[previous.id].(cancelled := true))
    {
      ghost var s := View();
      ghost var p := previous.id;
      assert s.conns[p] == previous.View();
      previous.Cancel();
      forall i: nat | i < |conns| && i != p
        ensures conns[i].View() == s.conns[i]
      {
        assert conns[i].id == i && conns[i] != previous;
      }
      assert View().conns == s.conns[p := s.conns[p].(cancelled := true)];
    }

    /** Marks the previous connector evicted, still under the mutex. */
    method MarkEvicted(previous: Connector)
      requires Valid() && KnownConn(previous)
      modifies previous`evicted
      ensures Valid()
      ensures View() == SetConn(old(View()), previous.id, old(View()).conns[previous.id].(evicted := true))
    {
      ghost var s := View();
      ghost var p := previous.id;
      assert s.conns[p] == previous.View();
      previous.evicted := true;
      forall i: nat | i < |conns| && i != p
        ensures conns[i].View() == s.conns[i]
      {
        assert conns[i].id == i && conns[i] != previous;
      }
      assert View().conns == s.conns[p := s.conns[p].(evicted := true)];
    }

    /** Makes a connector the current one of its node. */
    method Install(c: Connector, ghost header: Option<string>)
      requires Valid() && c.id == |conns| && c.View() == NewConn(c.nodeNum, header)
      modifies this`connectors, this`conns
      ensures Valid() && frames == old(frames) && conns == old(conns) + [c]
      ensures connectors == old(connectors)[c.nodeNum := c]
      ensures View() == DoConnectFresh(old(View()), c.nodeNum, header)
    {
      ghost var s := View();
      connectors := connectors[c.nodeNum := c];
      conns := conns + [c];
      forall k: nat | k < |frames|
        ensures ValidFrame(k) && CallView(k) == s.calls[k]
      {
        assert old(ValidFrame(k)) && s.calls[k] == old(CallView(k));
      }
      assert View().conns == s.conns + [NewConn(c.nodeNum, header)];
    }

    /** The second half: the previous connector is marked and the new one takes its place. */
    method InstallNext(previous: Connector, c: Connector, ghost header: Option<string>)
      requires Valid() && KnownConn(previous) && lock == Replacing(c.nodeNum, previous.id)
      requires c.id == |conns| && c != previous && c.View() == NewConn(c.nodeNum, header)
      modifies this`connectors, this`conns, this`lock, previous`evicted
      ensures Valid() && frames == old(frames) && conns == old(conns) + [c] && lock.Free?
      ensures connectors == old(connectors)[c.nodeNum := c]
      ensures View() == DoConnectInstall(old(View()), header)
    {
      MarkEvicted(previous);
      SetLock(Free);
      Install(c, header);
    }

    method Replace(c: Connector, ghost header: Option<string>)
      requires Valid() && TableInv(View()) && lock.Free?
      requires c.nodeNum in connectors && connectors[c.nodeNum].nodeNum == c.nodeNum
      requires c !in ConnSet() && c.id == |conns| && c.View() == NewConn(c.nodeNum, header)
      modifies this`futures, this`connectors, this`conns, this`lock, FutureSet(), ConnSet()
      ensures Valid() && frames == old(frames) && conns == old(conns) + [c] && lock.Free?
      ensures connectors == old(connectors)[c.nodeNum := c]
      ensures View() == DoConnectInstall(DoConnectCancel(old(View()), c.nodeNum), header)
    {
      var previous := CancelPrevious(c.nodeNum);
      InstallNext(previous, c, header);
    }

    twostate lemma FootprintGrew(new c: Connector)
      requires frames == old(frames) && conns == old(conns) + [c]
      ensures Footprint() == old(Footprint()) + {c}
    {
      assert ConnSet() == old(ConnSet()) + {c};
    }

    /** connect() when nothing reads the evicted flag between its halves. */
    method Connect(nodeNum: int, ghost header: Option<string>) returns (c: Connector)
      requires Valid() && TableInv(View()) && CurrentInv(View()) && lock.Free?
      modifies this`futures, this`connectors, this`conns, this`lock, FutureSet(), ConnSet()
      ensures Valid() && lock.Free?
      ensures View() == Reconnected(old(View()), nodeNum, header)
      ensures fresh(c) && KnownConn(c) && connectors == old(connectors)[nodeNum := c]
      ensures c.nodeNum == nodeNum && !c.cancelled && !c.evicted
      ensures frames == old(frames) && conns == old(conns) + [c]
    {
      c := new Connector(nodeNum, header, |conns|);
      if nodeNum in connectors {
        CurrentNode(nodeNum);
        Replace(c, header);
      } else {
        Install(c, header);
      }
    }

    /** A connector's own disconnect; a no-op on the tables once it has been superseded. */
    method Disconnect(c: Connector)
      requires Valid() && TableInv(View()) && KnownConn(c) && Enabled(View(), Routing.Disconnect(c.id))
      modifies this`connectors, this`futures, FutureSet(), c`stream
      ensures Valid() && View() == DoDisconnect(old(View()), c.id)
      ensures Footprint() == old(Footprint())
    {
      ghost var s := View();
      assert s.conns[c.id] == c.View();
      CloseHandler(c);
      if c.nodeNum !in connectors || connectors[c.nodeNum] != c {
        return;
      }
      GoneKeepsTable(s, c.id);
      Drop(c.nodeNum);
    }

    method Drop(nodeNum: int)
      requires Valid() && TableInv(View())
      modifies this`connectors, this`futures, FutureSet()
      ensures Valid() && frames == old(frames) && conns == old(conns)
      ensures View() == Clear(old(View()).(current := old(View()).current - {nodeNum}), nodeNum)
    {
      ghost var s := View();
      connectors := connectors - {nodeNum};
      assert View() == s.(current := s.current - {nodeNum});
      FrameTable(s, View());
      ClearFutures(nodeNum);
    }

    /** StartServing's deferred call is its last action on the stream. */
    method CloseHandler(c: Connector)
      requires Valid() && KnownConn(c) && c.View().handler.Stopped?
      modifies c`stream
      ensures Valid()
      ensures View() == SetConn(old(View()), c.id, old(c.View()).(handler := Gone(old(c.View()).handler.status)))
    {
      SetStream(c, c.stream.(handler := Gone(c.stream.handler.status)));
    }

    /** A step of the serving side of one connector. */
    ghost method SetStream(c: Connector, x: Conn)
      requires Valid() && KnownConn(c)
      modifies c`stream
      ensures Valid() && c.stream == x
      ensures View() == SetConn(old(View()), c.id, c.View())
    {
      ghost var s := View();
      c.stream := x;
      assert forall i: nat | i < |conns| && i != c.id :: conns[i].View() == s.conns[i];
      assert View().conns == s.conns[c.id := c.View()];
    }

    method ProcessResponse(resp: Response)
      requires Valid() && TableInv(View()) && (lock.Free? || resp.kind.CheckIn?)
      modifies this`futures, FutureSet()
      ensures Valid() && View() == DoReceive(old(View()), resp)
      ensures frames == old(frames) && conns == old(conns)
    {
      if resp.kind.CheckIn? {
        return;
      }
      if resp.requestId in futures {
        FutureInSet(resp.requestId);
        Complete(resp.requestId, Resolved(resp));
      }
    }

    twostate lemma SameFutures()
      requires conns == old(conns) && |old(frames)| <= |frames|
      requires forall j | 0 <= j < |old(frames)| :: frames[j].future == old(frames)[j].future
      requires forall j | |old(frames)| <= j < |frames| :: frames[j].future == null
      ensures Footprint() == old(Footprint())
    {
      forall k | 0 <= k < |old(frames)| && old(frames)[k].future != null
        ensures old(frames)[k].future in FutureSet()
      {
        assert frames[k].future == old(frames)[k].future;
      }
      assert FutureSet() == old(FutureSet());
    }

    // routeRequest, one method per atomic action. `k` names the call; its goroutine runs Begin,
    // LookUp, then HandOff or SendFail, then Register, with anything in between.

    method Begin(nodeNum: int) returns (reqId: int, ghost k: nat)
      requires Valid()
      modifies this`msgCounter, this`frames
      ensures Valid() && View() == DoBegin(old(View()), nodeNum)
      ensures k == |old(frames)| && frames == old(frames) + [Frame(nodeNum, reqId, AtStart, null)]
      ensures Footprint() == old(Footprint())
    {
      ghost var s := View();
      msgCounter := Wrap64(msgCounter + 1);
      reqId, k := msgCounter, |frames|;
      frames := frames + [Frame(nodeNum, reqId, AtStart, null)];
      forall j: nat | j < |frames|
        ensures ValidFrame(j) && CallView(j) == if j < k then s.calls[j] else Call(nodeNum, reqId, Started, Pending)
      {
        if j < k {
          assert old(ValidFrame(j)) && s.calls[j] == old(CallView(j));
        }
      }
      assert View().calls == s.calls + [Call(nodeNum, reqId, Started, Pending)];
      SameFutures();
    }

    /** Replacing one frame replaces one call of the view. */
    ghost method SetFrame(k: nat, f: Frame)
      requires Valid() && k < |frames| && f.node == frames[k].node
      requires f.future != null && f.future.id == k && f.future.nodeNum == f.node && f.future.Valid()
      requires frames[k].future == null || frames[k].future == f.future
      requires !f.pc.AtStart? && (f.pc.GaveUp? || KnownConn(f.pc.c))
      modifies this`frames
      ensures Valid() && frames == old(frames)[k := f]
      ensures View() ==
              old(View()).(calls := old(View()).calls[k := Call(f.node, f.reqId, PcView(f.pc), f.future.View())])
    {
      ghost var s := View();
      frames := frames[k := f];
      forall j: nat | j < |frames|
        ensures ValidFrame(j) && (j != k ==> CallView(j) == s.calls[j])
      {
        assert old(ValidFrame(j)) && s.calls[j] == old(CallView(j));
      }
      assert View().calls == s.calls[k := CallView(k)];
    }

    twostate lemma NewFuture(k: nat, new f: FutureResponse)
      requires conns == old(conns) && k < |frames| == |old(frames)|
      requires frames[k].future == f && old(frames)[k].future == null
      requires forall j | 0 <= j < |frames| && j != k :: frames[j].future == old(frames)[j].future
      ensures Footprint() == old(Footprint()) + {f}
    {
      assert FutureSet() == old(FutureSet()) + {f};
    }

    /** Look-up under the mutex, and the new future; `c` is null when the node is not connected. */
    method LookUp(nodeNum: int, ghost k: nat) returns (f: FutureResponse, c: Connector?)
      requires Valid() && k < |frames| && frames[k].node == nodeNum && frames[k].pc.AtStart?
      requires lock.Free? && View().calls[k].outcome.Pending?
      modifies this`frames
      ensures fresh(f) && Valid() && k < |frames| && frames[k].future == f && frames[k].node == nodeNum
      ensures c == if nodeNum in old(connectors) then old(connectors)[nodeNum] else null
      ensures frames[k].pc == if c == null then GaveUp else AtSend(c)
      ensures View() == DoLookUp(old(View()), k)
      ensures Footprint() == old(Footprint()) + {f}
    {
      assert ValidFrame(k);
      f := new FutureResponse(nodeNum, k);
      if nodeNum !in connectors {
        c := null;
        f.Fail(NotConnected(nodeNum));
        Attach(f, GaveUp, k);
      } else {
        c := connectors[nodeNum];
        Attach(f, AtSend(c), k);
      }
    }

    /** Gives a call its future, and the program counter the look-up leads to. */
    ghost method Attach(f: FutureResponse, pc: FramePc, k: nat)
      requires Valid() && k < |frames| && frames[k].future == null
      requires f.Valid() && f.id == k && f.nodeNum == frames[k].node
      requires !pc.AtStart? && (pc.GaveUp? || KnownConn(pc.c))
      modifies this`frames
      ensures Valid() && frames == old(frames)[k := Frame(f.nodeNum, old(frames)[k].reqId, pc, f)]
      ensures View() ==
              old(View()).(calls := old(View()).calls[k := Call(f.nodeNum, frames[k].reqId, PcView(pc), f.View())])
      ensures Footprint() == old(Footprint()) + {f}
    {
      SetFrame(k, Frame(f.nodeNum, frames[k].reqId, pc, f));
      NewFuture(k, f);
    }

    /** Both sides of the unbuffered channel at once: send returns nil and the loop holds the call. */
    method HandOff(c: Connector, f: FutureResponse, ghost k: nat)
      requires Valid() && k < |frames| && frames[k].future == f && frames[k].pc == AtSend(c)
      requires c.View().loop.Selecting?
      modifies this`frames, c`stream
      ensures Valid() && k < |frames| && frames[k].future == f && frames[k].pc == AtRegister(c)
      ensures Enabled(old(View()), Routing.HandOff(k)) && View() == DoHandOff(old(View()), k)
      ensures Footprint() == old(Footprint())
    {
      ghost var s := View();
      assert ValidFrame(k) && s.calls[k] == CallView(k) && s.conns[c.id] == c.View();
      SetFrame(k, frames[k].(pc := AtRegister(c)));
      SetStream(c, Take(c.stream, k));
      SameFutures();
    }

    /** The connector's context was done first. */
    method SendFail(c: Connector, f: FutureResponse, ghost k: nat)
      requires Valid() && k < |frames| && frames[k].future == f && frames[k].pc == AtSend(c)
      requires c.cancelled && !f.done
      modifies this`frames, f
      ensures Valid()
      ensures Enabled(old(View()), Routing.SendFail(k)) && View() == DoSendFail(old(View()), k)
      ensures Footprint() == old(Footprint())
    {
      ghost var s := View();
      assert ValidFrame(k) && s.calls[k] == CallView(k) && s.conns[c.id] == c.View();
      f.Fail(Disconnected(c.nodeNum));
      forall j: nat | j < |frames|
        ensures ValidFrame(j) && (j != k ==> CallView(j) == s.calls[j])
      {
        assert old(ValidFrame(j)) && s.calls[j] == old(CallView(j));
      }
      SetFrame(k, frames[k].(pc := GaveUp));
      SameFutures();
    }

    method Register(reqId: int, f: FutureResponse, ghost k: nat)
      requires Valid() && lock.Free? && k < |frames| && frames[k].future == f && frames[k].reqId == reqId
      requires frames[k].pc.AtRegister?
      modifies this`frames, this`futures
      ensures Valid() && View() == DoRegister(old(View()), k)
      ensures Footprint() == old(Footprint())
    {
      ghost var s := View();
      assert ValidFrame(k) && s.calls[k] == CallView(k);
      SetFrame(k, frames[k].(pc := Done(frames[k].pc.c)));
      Enter(reqId, f);
      SameFutures();
    }

    method Enter(reqId: int, f: FutureResponse)
      requires Valid() && f.id < |frames| && frames[f.id].future == f
      modifies this`futures
      ensures Valid() && View() == old(View()).(futures := old(View()).futures[reqId := f.id])
    {
      futures := futures[reqId := f];
    }
  }

  class Router {
    const assignedShard: int
    var groups: map<string, ConnectivityGroup>
    ghost var Repr: set<object>

    ghost predicate ValidGroup(id: string)
      requires id in groups
      reads this, Repr
    {
      var g := groups[id];
      && g in Repr && g.FutureSet() <= Repr && g.ConnSet() <= Repr && this !in g.Footprint()
      && g.id == id && g.shard == assignedShard && g.Valid() && g.lock.Free?
    }

    /** Groups share no object, so a step in one cannot touch another. */
    ghost predicate Valid()
      reads this, Repr
    {
      && this in Repr
      && (forall id | id in groups :: ValidGroup(id))
      && (forall a, b | a in groups && b in groups && a != b :: groups[a].Footprint() !! groups[b].Footprint())
    }

    ghost function GroupView(id: string): Group
      requires id in groups && ValidGroup(id)
      reads this, Repr
    {
      groups[id].View()
    }

    constructor (assignedShard: int)
      ensures Valid() && groups == map[] && fresh(Repr)
    {
      this.assignedShard := assignedShard;
      groups := map[];
      Repr := {this};
    }

    twostate lemma GroupUntouched(id: string)
      requires id in old(groups) && id in groups && groups[id] == old(groups[id])
      requires old(ValidGroup(id)) && old(Repr) <= Repr
      requires forall o | o in old(groups[id].Footprint()) :: unchanged(o)
      ensures ValidGroup(id) && groups[id].Footprint() == old(groups[id].Footprint())
      ensures GroupView(id) == old(GroupView(id))
    {
      var g := groups[id];
      assert g in old(g.Footprint()) && unchanged(g);
      assert forall f | f in old(g.FutureSet()) :: f in old(g.Footprint()) && unchanged(f);
      assert forall c | c in old(g.ConnSet()) :: c in old(g.Footprint()) && unchanged(c);
      assert g.Valid();
      forall i: nat | i < |g.conns|
        ensures g.conns[i].View() == old(g.conns[i].View())
      {
        assert g.conns[i] in g.ConnSet();
      }
      forall k: nat | k < |g.frames|
        ensures g.CallView(k) == old(g.CallView(k))
      {
        assert old(g.ValidFrame(k)) && g.ValidFrame(k);
        assert g.frames[k].future != null ==> g.frames[k].future in g.FutureSet();
      }
      assert g.View().conns == old(g.View().conns) && g.View().calls == old(g.View().calls);
    }

    /** What a step that writes only to one group's objects, and to new ones, leaves alone. */
    twostate lemma OthersUntouched(id: string)
      requires old(Valid()) && groups == old(groups) && id in groups && old(Repr) <= Repr
      requires forall o | o in old(Repr) && o != this && o !in old(groups[id].Footprint()) :: unchanged(o)
      ensures forall other | other in groups && other != id ::
                && ValidGroup(other) && groups[other].Footprint() == old(groups[other].Footprint())
                && GroupView(other) == old(GroupView(other))
    {
      forall other | other in groups && other != id
        ensures ValidGroup(other) && groups[other].Footprint() == old(groups[other].Footprint())
        ensures GroupView(other) == old(GroupView(other))
      {
        assert old(ValidGroup(other)) && old(groups[id].Footprint() !! groups[other].Footprint());
        GroupUntouched(other);
      }
    }

    method FindOrCreateGroup(id: string) returns (g: ConnectivityGroup)
      requires Valid()
      modifies this
      ensures Valid() && fresh(Repr - old(Repr)) && id in groups && groups[id] == g
      ensures id in old(groups) ==> groups == old(groups)
      ensures id !in old(groups) ==> groups == old(groups)[id := g] && GroupView(id) == NewGroup(id, assignedShard)
      ensures forall other | other in old(groups) :: ValidGroup(other) && GroupView(other) == old(GroupView(other))
    {
      if id in groups {
        return groups[id];
      }
      g := new ConnectivityGroup(id, assignedShard);
      Add(g);
    }

    method Add(g: ConnectivityGroup)
      requires Valid() && g !in Repr && g.id !in groups && g.shard == assignedShard
      requires g.Valid() && g.lock.Free? && g.Footprint() == {g}
      modifies this
      ensures Valid() && groups == old(groups)[g.id := g] && Repr == old(Repr) + {g}
      ensures GroupView(g.id) == old(g.View())
      ensures forall other | other in old(groups) :: ValidGroup(other) && GroupView(other) == old(GroupView(other))
    {
      groups := groups[g.id := g];
      Repr := Repr + {g};
      forall other | other in old(groups)
        ensures ValidGroup(other) && groups[other].Footprint() !! {g}
        ensures groups[other].Footprint() == old(groups[other].Footprint())
        ensures GroupView(other) == old(GroupView(other))
      {
        GroupUntouched(other);
      }
      assert ValidGroup(g.id);
    }

    method IsNodeConnected(id: string, nodeNum: int) returns (connected: bool)
      requires Valid()
      ensures connected <==> id in groups && nodeNum in GroupView(id).current
    {
      connected := id in groups && nodeNum in groups[id].connectors;
    }

    /** The objects a group gained are its own. */
    twostate lemma StayApart(id: string)
      requires old(Valid()) && groups == old(groups) && id in groups
      requires forall o | o in groups[id].Footprint() && o !in old(groups[id].Footprint()) :: fresh(o)
      requires forall other | other in groups && other != id ::
                 groups[other].Footprint() == old(groups[other].Footprint())
      ensures forall a, b | a in groups && b in groups && a != b :: groups[a].Footprint() !! groups[b].Footprint()
    {
    }

    /** A step of one group, which may have gained new objects, leaves it apart from the others and
        all of them as they were. */
    twostate lemma GroupStepped(id: string)
      requires old(Valid()) && groups == old(groups) && id in groups
      requires Repr == old(Repr) + groups[id].Footprint()
      requires groups[id].Valid() && groups[id].lock.Free?
      requires forall o | o in groups[id].Footprint() && o !in old(groups[id].Footprint()) :: fresh(o)
      requires forall o | o in old(Repr) && o != this && o !in old(groups[id].Footprint()) :: unchanged(o)
      ensures Valid() && fresh(Repr - old(Repr))
      ensures forall other | other in groups && other != id :: GroupView(other) == old(GroupView(other))
    {
      OthersUntouched(id);
      StayApart(id);
      assert old(ValidGroup(id));
      assert ValidGroup(id);
    }

    method ConnectIn(id: string, nodeNum: int, ghost header: Option<string>) returns (c: Connector)
      requires Valid() && id in groups && TableInv(GroupView(id)) && CurrentInv(GroupView(id))
      modifies Repr
      ensures Valid() && fresh(Repr - old(Repr)) && groups == old(groups) && groups[id].KnownConn(c)
      ensures fresh(c) && c.nodeNum == nodeNum && !c.cancelled && !c.evicted
      ensures groups[id].connectors == old(groups[id].connectors)[nodeNum := c]
      ensures groups[id].conns == old(groups[id].conns) + [c]
      ensures GroupView(id) == Reconnected(old(GroupView(id)), nodeNum, header)
      ensures forall other | other in groups && other != id :: GroupView(other) == old(GroupView(other))
    {
      var g := groups[id];
      assert ValidGroup(id);
      c := g.Connect(nodeNum, header);
      Repr := Repr + g.Footprint();
      g.FootprintGrew(c);
      GroupStepped(id);
    }

    /** Connecting in one group, created on first use, leaves all others alone. */
    method Connect(id: string, nodeNum: int, ghost header: Option<string>) returns (c: Connector)
      requires Valid() && (id in groups ==> TableInv(GroupView(id)) && CurrentInv(GroupView(id)))
      modifies Repr
      ensures Valid() && fresh(Repr - old(Repr)) && id in groups && groups[id].KnownConn(c)
      ensures fresh(c) && c.nodeNum == nodeNum && !c.cancelled && !c.evicted
      ensures nodeNum in groups[id].connectors && groups[id].connectors[nodeNum] == c
      ensures nodeNum in GroupView(id).current && GroupView(id).current[nodeNum] == c.id
      ensures id in old(groups) ==> GroupView(id) == Reconnected(old(GroupView(id)), nodeNum, header)
      ensures id !in old(groups) ==>
                GroupView(id) == DoConnectFresh(NewGroup(id, assignedShard), nodeNum, header)
      ensures forall other | other in old(groups) && other != id ::
                other in groups && GroupView(other) == old(GroupView(other))
    {
      InvInit(id, assignedShard);
      var g := FindOrCreateGroup(id);
      c := ConnectIn(id, nodeNum, header);
    }

    /** A reply arriving on a stream of one group changes that group and no other. */
    method ProcessResponse(id: string, resp: Response)
      requires Valid() && id in groups && TableInv(GroupView(id))
      modifies Repr - {this}
      ensures Valid() && groups == old(groups)
      ensures GroupView(id) == DoReceive(old(GroupView(id)), resp)
      ensures forall other | other in groups && other != id :: GroupView(other) == old(GroupView(other))
    {
      var g := groups[id];
      assert ValidGroup(id);
      g.ProcessResponse(resp);
      assert g.Footprint() == old(g.Footprint());
      GroupStepped(id);
    }

    method Disconnect(id: string, c: Connector)
      requires Valid() && id in groups && TableInv(GroupView(id))
      requires groups[id].KnownConn(c) && Enabled(GroupView(id), Routing.Disconnect(c.id))
      modifies Repr - {this}
      ensures Valid() && groups == old(groups) && Repr == old(Repr)
      ensures GroupView(id) == DoDisconnect(old(GroupView(id)), c.id)
      ensures forall other | other in groups && other != id :: GroupView(other) == old(GroupView(other))
    {
      var g := groups[id];
      assert ValidGroup(id);
      g.Disconnect(c);
      GroupStepped(id);
    }

    // RouteRequest, action by action: finding the group and drawing an ID, then the group's own.

    method BeginIn(id: string, nodeNum: int) returns (reqId: int, ghost k: nat)
      requires Valid() && id in groups
      modifies Repr - {this}
      ensures Valid() && groups == old(groups) && Repr == old(Repr)
      ensures GroupView(id) == DoBegin(old(GroupView(id)), nodeNum)
      ensures k == |old(groups[id].frames)|
      ensures groups[id].frames == old(groups[id].frames) + [Frame(nodeNum, reqId, AtStart, null)]
      ensures forall other | other in groups && other != id :: GroupView(other) == old(GroupView(other))
    {
      var g := groups[id];
      assert ValidGroup(id);
      reqId, k := g.Begin(nodeNum);
      GroupStepped(id);
    }

    method RouteRequest(id: string, nodeNum: int) returns (reqId: int, ghost k: nat)
      requires Valid()
      modifies Repr
      ensures Valid() && fresh(Repr - old(Repr)) && id in groups
      ensures k < |groups[id].frames| && groups[id].frames[k] == Frame(nodeNum, reqId, AtStart, null)
      ensures k == |GroupView(id).calls| - 1 && GroupView(id).calls[k].reqId == reqId
      ensures id in old(groups) ==> GroupView(id) == DoBegin(old(GroupView(id)), nodeNum)
      ensures id !in old(groups) ==> GroupView(id) == DoBegin(NewGroup(id, assignedShard), nodeNum)
      ensures forall other | other in old(groups) && other != id ::
                other in groups && GroupView(other) == old(GroupView(other))
    {
      var g := FindOrCreateGroup(id);
      reqId, k := BeginIn(id, nodeNum);
    }

    method LookUp(id: string, nodeNum: int, ghost k: nat) returns (f: FutureResponse, c: Connector?)
      requires Valid() && id in groups && k < |groups[id].frames|
      requires groups[id].frames[k].node == nodeNum && groups[id].frames[k].pc.AtStart?
      requires GroupView(id).calls[k].outcome.Pending?
      modifies Repr
      ensures Valid() && groups == old(groups) && fresh(f) && fresh(Repr - old(Repr))
      ensures k < |groups[id].frames| && groups[id].frames[k].future == f
      ensures groups[id].frames[k].pc == if c == null then GaveUp else AtSend(c)
      ensures c == null <==> nodeNum !in old(GroupView(id)).current
      ensures c != null ==> groups[id].KnownConn(c) && c.id == old(GroupView(id)).current[nodeNum]
      ensures GroupView(id) == DoLookUp(old(GroupView(id)), k)
      ensures forall other | other in groups && other != id :: GroupView(other) == old(GroupView(other))
    {
      var g := groups[id];
      assert ValidGroup(id);
      f, c := g.LookUp(nodeNum, k);
      Repr := Repr + g.Footprint();
      GroupStepped(id);
    }

    method HandOff(id: string, c: Connector, f: FutureResponse, ghost k: nat)
      requires Valid() && id in groups && k < |groups[id].frames|
      requires groups[id].frames[k].future == f && groups[id].frames[k].pc == AtSend(c)
      requires groups[id].ValidFrame(k) && c.View().loop.Selecting?
      modifies Repr - {this}
      ensures Valid() && groups == old(groups) && Repr == old(Repr)
      ensures Enabled(old(GroupView(id)), Routing.HandOff(k))
      ensures GroupView(id) == DoHandOff(old(GroupView(id)), k)
      ensures forall other | other in groups && other != id :: GroupView(other) == old(GroupView(other))
    {
      var g := groups[id];
      assert ValidGroup(id);
      g.HandOff(c, f, k);
      GroupStepped(id);
    }

    method SendFail(id: string, c: Connector, f: FutureResponse, ghost k: nat)
      requires Valid() && id in groups && k < |groups[id].frames|
      requires groups[id].frames[k].future == f && groups[id].frames[k].pc == AtSend(c)
      requires c.cancelled && !f.done
      modifies Repr - {this}
      ensures Valid() && groups == old(groups) && Repr == old(Repr)
      ensures Enabled(old(GroupView(id)), Routing.SendFail(k))
      ensures GroupView(id) == DoSendFail(old(GroupView(id)), k)
      ensures forall other | other in groups && other != id :: GroupView(other) == old(GroupView(other))
    {
      var g := groups[id];
      assert ValidGroup(id);
      g.SendFail(c, f, k);
      GroupStepped(id);
    }

    method Register(id: string, reqId: int, f: FutureResponse, ghost k: nat)
      requires Valid() && id in groups && k < |groups[id].frames|
      requires groups[id].frames[k].future == f && groups[id].frames[k].reqId == reqId
      requires groups[id].frames[k].pc.AtRegister?
      modifies Repr - {this}
      ensures Valid() && groups == old(groups) && Repr == old(Repr)
      ensures GroupView(id) == DoRegister(old(GroupView(id)), k)
      ensures forall other | other in groups && other != id :: GroupView(other) == old(GroupView(other))
    {
      var g := groups[id];
      assert ValidGroup(id);
      g.Register(reqId, f, k);
      GroupStepped(id);
    }
  }
}
