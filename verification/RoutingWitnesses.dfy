/** Concrete runs showing that two tempting claims are false of the router, and that a call can be
    stranded in each of the ways that `RoutingTheorems` characterises. */
module RoutingWitnesses {
  import opened Wrappers
  import opened Streams
  import opened Routing
  import opened RoutingInvariant
  import Sharding
  import Versions

  /** A group with a single connector, current for node 1, and no call. */
  function Lone(cgId: string, conn: Conn): Group {
    Group(cgId, 0, [conn], map[1 := 0], 0, [], map[], Free, false)
  }

  const SERVING := Conn(1, None, false, false, Running, Selecting, NoTimer, [Welcome], [])

  /** Node 1 connects, is greeted, and its loops start. */
  lemma ServeNode(cgId: string) returns (r: Run)
    ensures r.Valid() && r.Last() == Lone(cgId, SERVING) && |r.steps| == 5
  {
    r := Run([NewGroup(cgId, 0)], []);
    var c := NewConn(1, None);
    r := Then(r, ConnectFresh(1, None));
    assert r.Last() == Lone(cgId, c);
    r := Then(r, Stream(0, DecideShed));
    assert r.Last() == Lone(cgId, c.(handler := Ready));
    r := Then(r, Stream(0, WelcomeStart));
    assert r.Last() == Lone(cgId, c.(handler := Welcoming));
    r := Then(r, Stream(0, WelcomeEnd(true)));
    assert [] + [Welcome] == [Welcome];
    assert r.Last() == Lone(cgId, c.(handler := Welcomed, wire := [Welcome]));
    r := Then(r, Stream(0, RunStart));
  }

  lemma Then(r: Run, step: Step) returns (r': Run)
    requires r.Valid() && Enabled(r.Last(), step)
    ensures r'.Valid() && r'.Last() == Next(r.Last(), step)
    ensures r'.steps == r.steps + [step]
  {
    r' := Run(r.states + [Next(r.Last(), step)], r.steps + [step]);
    forall i | 0 <= i < |r'.steps|
      ensures r'.Follows(i)
    {
      assert i < |r.steps| ==> r.Follows(i);
    }
  }

  /** The only call made, still waiting. */
  function OneCall(cgId: string, conns: seq<Conn>, current: map<int, nat>, pc: CallPc, lock: Lock): Group {
    Group(cgId, 0, conns, current, 1, [Call(1, 1, pc, Pending)], map[], lock, false)
  }

  const WRITTEN := SERVING.(taken := [0], wire := [Welcome, Routed(0)])

  lemma FindNode(cgId: string) returns (r: Run)
    ensures r.Valid() && |r.steps| == 7 && r.steps[6] == LookUp(0)
    ensures r.Last() == OneCall(cgId, [SERVING], map[1 := 0], Found(0), Free)
  {
    r := ServeNode(cgId);
    r := Then(r, Begin(1));
    assert r.Last() == OneCall(cgId, [SERVING], map[1 := 0], Started, Free);
    r := Then(r, LookUp(0));
  }

  /** A call to node 1 is handed off to its send loop and written out. */
  lemma CallNode(cgId: string) returns (r: Run)
    ensures r.Valid() && |r.steps| == 9 && r.steps[6] == LookUp(0) && r.steps[7] == HandOff(0)
    ensures r.Last() == OneCall(cgId, [WRITTEN], map[1 := 0], HandedOff(0), Free)
  {
    r := FindNode(cgId);
    r := Then(r, HandOff(0));
    assert r.Last() == OneCall(cgId, [SERVING.(loop := Sending(0), taken := [0])], map[1 := 0], HandedOff(0), Free) by {
      assert [] + [0] == [0];
    }
    r := Then(r, Stream(0, LoopSent(true)));
    assert [Welcome] + [Routed(0)] == [Welcome, Routed(0)];
    assert r.Last().conns == [WRITTEN];
  }

  /** "Every registered future's node is connected" is false: the node hangs up between the
      hand-off and the registration, and the future stays registered for a node without connector. */
  lemma RegisteredWithoutConnector(cgId: string) returns (r: Run)
    ensures r.Valid() && r.IdsLast()
    ensures |r.Last().calls| == 1 && InTable(r.Last(), 0) && r.Last().calls[0].outcome.Pending?
    ensures r.Last().calls[0].node == 1 && 1 !in r.Last().current
  {
    r := CallNode(cgId);
    r := HangUp(r, cgId);
    r := Then(r, Register(0));
  }

  lemma HangUp(r0: Run, cgId: string) returns (r: Run)
    requires r0.Valid() && r0.Last() == OneCall(cgId, [WRITTEN], map[1 := 0], HandedOff(0), Free)
    ensures r.Valid()
    ensures r.Last().calls == [Call(1, 1, HandedOff(0), Pending)] && r.Last().lock.Free? && r.Last().current == map[]
  {
    r := Then(r0, Stream(0, StreamCancel));
    var c := WRITTEN.(cancelled := true);
    assert r.Last() == OneCall(cgId, [c], map[1 := 0], HandedOff(0), Free);
    r := Then(r, Stream(0, RunReturn));
    assert r.Last() == OneCall(cgId, [c.(handler := Returned)], map[1 := 0], HandedOff(0), Free);
    r := Then(r, Stream(0, ReadEvicted));
    r := LeaveCleanly(r, cgId, c);
  }

  lemma LeaveCleanly(r0: Run, cgId: string, c: Conn) returns (r: Run)
    requires c.node == 1 && c.timer.NoTimer?
    requires r0.Valid()
    requires r0.Last() == OneCall(cgId, [c.(handler := NotEvicted)], map[1 := 0], HandedOff(0), Free)
    ensures r.Valid()
    ensures r.Last().calls == [Call(1, 1, HandedOff(0), Pending)] && r.Last().lock.Free? && r.Last().current == map[]
  {
    r := Then(r0, Stream(0, ReadShed));
    assert r.Last() == OneCall(cgId, [c.(handler := Leaving(Clean))], map[1 := 0], HandedOff(0), Free);
    r := Then(r, Stream(0, StopTimer));
    assert r.Last() == OneCall(cgId, [c.(handler := Stopped(Clean))], map[1 := 0], HandedOff(0), Free);
    r := Then(r, Disconnect(0));
    assert r.Last().calls == [Call(1, 1, HandedOff(0), Pending)];
  }

  /** A reply can overtake the registration of the call it answers: it is dropped as unknown, and the
      future stays registered with nothing to wait for. */
  lemma OvertakenByReply(cgId: string) returns (r: Run)
    ensures r.Valid() && r.IdsLast()
    ensures |r.Last().calls| == 1 && InTable(r.Last(), 0) && r.Last().calls[0].outcome.Pending?
    ensures |r.steps| == 11 && r.steps[7] == HandOff(0) && r.steps[10] == Register(0)
    ensures r.steps[9] == Receive(0, Response(1, "", OtherReply)) && r.Last().calls[0].reqId == 1
  {
    r := CallNode(cgId);
    r := Then(r, Receive(0, Response(1, "", OtherReply)));
    assert r.Last() == OneCall(cgId, [WRITTEN], map[1 := 0], HandedOff(0), Free);
    r := Then(r, Register(0));
  }

  /** The gap can open before the hand-off already. The model is the permissive reading of select: as
      long as the send loop is waiting, the send on a connector cancelled after the look-up may still
      be picked. A runtime that wakes the loop for good on cancellation has fewer runs. */
  lemma StrandedBeforeHandOff(cgId: string) returns (r: Run)
    ensures r.Valid() && r.IdsLast()
    ensures |r.Last().calls| == 1 && InTable(r.Last(), 0) && r.Last().calls[0].outcome.Pending?
    ensures r.Last().calls[0].pc == Registered(0) && r.Last().current == map[1 := 1]
    ensures |r.steps| == 11 && r.steps[6] == LookUp(0) && r.steps[9] == HandOff(0) && r.steps[10] == Register(0)
  {
    r := FindNode(cgId);
    r := Reconnect(r, cgId);
    r := Then(r, HandOff(0));
    assert r.Last().calls == [Call(1, 1, HandedOff(0), Pending)];
    r := Then(r, Register(0));
  }

  /** The node reconnects while the call is between look-up and hand-off. */
  lemma Reconnect(r0: Run, cgId: string) returns (r: Run)
    requires r0.Valid() && r0.Last() == OneCall(cgId, [SERVING], map[1 := 0], Found(0), Free)
    ensures r.Valid() && r.steps == r0.steps + [ConnectCancel(1), ConnectInstall(None)]
    ensures r.Last() ==
            OneCall(cgId, [SERVING.(cancelled := true, evicted := true), NewConn(1, None)], map[1 := 1], Found(0), Free)
  {
    r := Then(r0, ConnectCancel(1));
    assert r.Last() == OneCall(cgId, [SERVING.(cancelled := true)], map[1 := 0], Found(0), Replacing(1, 0));
    r := Then(r, ConnectInstall(None));
  }

  /** A group in which both nodes are being served and the call to node 1 is registered. */
  function Two(cgId: string, second: Conn): Group {
    OneCall(cgId, [WRITTEN, second], map[1 := 0, 2 := 1], Registered(0), Free).(futures := map[1 := 0])
  }

  /** "The reply to a call comes from the node called" is false: a reply is matched by its request ID
      alone, on whichever stream of the group it arrives. */
  lemma AnsweredByAnother(cgId: string) returns (r: Run)
    ensures r.Valid() && r.IdsLast() && |r.steps| >= 1
    ensures |r.Last().calls| == 1 && r.Last().calls[0].node == 1 && r.Last().calls[0].outcome.Resolved?
    ensures r.steps[|r.steps| - 1] == Receive(1, Response(1, "", OtherReply))
    ensures |r.Last().conns| == 2 && r.Last().conns[1].node == 2
  {
    r := CallNode(cgId);
    r := Then(r, Register(0));
    r := ServeSecond(r, cgId);
    r := Then(r, Receive(1, Response(1, "", OtherReply)));
  }

  lemma ServeSecond(r0: Run, cgId: string) returns (r: Run)
    requires r0.Valid()
    requires r0.Last() == OneCall(cgId, [WRITTEN], map[1 := 0], Registered(0), Free).(futures := map[1 := 0])
    ensures r.Valid() && r.Last() == Two(cgId, SERVING.(node := 2))
  {
    var c := NewConn(2, None);
    r := Then(r0, ConnectFresh(2, None));
    assert r.Last() == Two(cgId, c);
    r := StepSecond(r, cgId, c, DecideShed);
    c := c.(handler := Ready);
    r := StepSecond(r, cgId, c, WelcomeStart);
    c := c.(handler := Welcoming);
    r := StepSecond(r, cgId, c, WelcomeEnd(true));
    assert [] + [Welcome] == [Welcome];
    c := c.(handler := Welcomed, wire := [Welcome]);
    r := StepSecond(r, cgId, c, RunStart);
  }

  lemma StepSecond(r0: Run, cgId: string, c: Conn, e: Event) returns (r: Run)
    requires r0.Valid() && r0.Last() == Two(cgId, c) && Possible(c, e)
    ensures r.Valid() && r.Last() == Two(cgId, After(cgId, 0, c, e))
  {
    r := Then(r0, Stream(1, e));
  }

  /** "An evicted stream always ends with Aborted" is false: the handler can notice the cancelled
      context and read the evicted flag before connect() sets it. */
  lemma EvictedWithoutAborted(cgId: string) returns (r: Run)
    ensures r.Valid() && r.IdsLast()
    ensures r.Last().conns != [] && r.Last().conns[0].evicted && r.Last().conns[0].handler == Leaving(Clean)
  {
    r := ServeNode(cgId);
    r := Then(r, ConnectCancel(1));
    var c := SERVING.(cancelled := true);
    assert r.Last() == Lone(cgId, c).(lock := Replacing(1, 0));
    r := Then(r, Stream(0, RunReturn));
    assert r.Last() == Lone(cgId, c.(handler := Returned)).(lock := Replacing(1, 0));
    r := Then(r, Stream(0, ReadEvicted));
    assert r.Last() == Lone(cgId, c.(handler := NotEvicted)).(lock := Replacing(1, 0));
    r := Then(r, ConnectInstall(None));
    assert r.Last().conns == [c.(handler := NotEvicted, evicted := true), NewConn(1, None)];
    r := Then(r, Stream(0, ReadShed));
  }

  /** A group with one stream and no call. */
  function Sole(cgId: string, shard: int, conn: Conn): Group {
    Group(cgId, shard, [conn], map[1 := 0], 0, [], map[], Free, false)
  }

  lemma StepSole(r0: Run, cgId: string, shard: int, c: Conn, e: Event) returns (r: Run)
    requires r0.Valid() && r0.Last() == Sole(cgId, shard, c) && Possible(c, e)
    ensures r.Valid() && r.Last() == Sole(cgId, shard, After(cgId, shard, c, e))
  {
    r := Then(r0, Stream(0, e));
  }

  /** Under the three guards a stream can be shed, and then it is reported as resharded: timer armed
      and fired, stream closed, flag read. */
  lemma ShedAndReported(cgId: string, shard: int, header: Option<string>) returns (r: Run)
    requires shard != 0 && Sharding.GetShard(cgId) != shard && Versions.ClientIsShedSafe(header)
    ensures r.Valid() && r.IdsLast() && r.Last().cgId == cgId && r.Last().shard == shard
    ensures r.Last().conns != [] && r.Last().conns[0].header == header
    ensures r.Last().conns[0].handler == Leaving(Resharding)
  {
    r := ArmSole(cgId, shard, header);
    r := ServeSole(r, cgId, shard, NewConn(1, header).(handler := Ready, timer := Armed));
  }

  /** The guards can be met: a client of release 0.14.0 in a group of shard 2, on the hub of shard 1. */
  lemma SomeStreamIsShed() returns (r: Run)
    ensures r.Valid() && r.Last().cgId == "d" && r.Last().shard == 1
    ensures r.Last().conns != [] && r.Last().conns[0].header == Some("0.14.0")
    ensures r.Last().conns[0].handler == Leaving(Resharding)
  {
    Versions.ShedFloorIsShedSafe();
    Sharding.ShardByFirstCharacter("d");
    r := ShedAndReported("d", 1, Some("0.14.0"));
  }

  lemma ArmSole(cgId: string, shard: int, header: Option<string>) returns (r: Run)
    requires ShouldShed(cgId, shard, header)
    ensures r.Valid() && r.Last() == Sole(cgId, shard, NewConn(1, header).(handler := Ready, timer := Armed))
  {
    r := Then(Run([NewGroup(cgId, shard)], []), ConnectFresh(1, header));
    assert r.Last() == Sole(cgId, shard, NewConn(1, header));
    r := StepSole(r, cgId, shard, NewConn(1, header), DecideShed);
  }

  lemma ServeSole(r0: Run, cgId: string, shard: int, c0: Conn) returns (r: Run)
    requires r0.Valid() && r0.Last() == Sole(cgId, shard, c0) && c0.handler == Ready && c0.timer == Armed && !c0.evicted
    ensures r.Valid() && r.Last().calls == [] && r.Last().cgId == cgId && r.Last().shard == shard
    ensures r.Last().conns != [] && r.Last().conns[0].header == c0.header
    ensures r.Last().conns[0].handler == Leaving(Resharding)
  {
    var c := c0;
    r := StepSole(r0, cgId, shard, c, WelcomeStart);
    c := c.(handler := Welcoming);
    r := StepSole(r, cgId, shard, c, WelcomeEnd(true));
    c := c.(handler := Welcomed, wire := c.wire + [Welcome]);
    r := StepSole(r, cgId, shard, c, RunStart);
    r := ShedNow(r, cgId, shard, c.(handler := Running, loop := Selecting));
  }

  lemma ShedNow(r0: Run, cgId: string, shard: int, c0: Conn) returns (r: Run)
    requires r0.Valid() && r0.Last() == Sole(cgId, shard, c0)
    requires c0.handler == Running && c0.timer == Armed && !c0.evicted
    ensures r.Valid()
    ensures r.Last() == Sole(cgId, shard, c0.(handler := Leaving(Resharding), timer := Shed, cancelled := true))
  {
    var c := c0;
    r := StepSole(r0, cgId, shard, c, TimerFire);
    c := c.(timer := Fired);
    r := StepSole(r, cgId, shard, c, TimerClose);
    c := c.(timer := Shed, cancelled := true);
    r := StepSole(r, cgId, shard, c, RunReturn);
    c := c.(handler := Returned);
    r := StepSole(r, cgId, shard, c, ReadEvicted);
    c := c.(handler := NotEvicted);
    r := StepSole(r, cgId, shard, c, ReadShed);
  }
}
