/** A connectivity group's request router as a transition system. Any number of goroutines run
    routeRequest, StartServing, the send and receive loops and the shard timers; every value of
    `Step` is one atomic action of one of them. */
module Routing {
  import opened Wrappers
  import opened Words
  import opened Streams

  datatype ReplyKind = CheckIn | RosterCosign(signature: seq<bv8>) | OtherReply

  datatype Response = Response(requestId: int, error: string, kind: ReplyKind)

  datatype RouteError = NotConnected(node: int) | Disconnected(node: int)

  /** State of a FutureResponse; anything but `Pending` means its done channel is closed. */
  datatype Outcome = Pending | Resolved(resp: Response) | FailedWith(err: RouteError)

  /** Program counter of one routeRequest call. */
  datatype CallPc =
    | Started                  // request ID drawn; about to look the connector up
    | Found(conn: nat)         // about to send on this connector
    | HandedOff(conn: nat)     // send returned nil; about to register the future
    | Registered(conn: nat)
    | Abandoned                // returned a failed future that was never registered

  datatype Call = Call(node: int, reqId: int, pc: CallPc, outcome: Outcome)

  /** `Replacing`: connect() holds the mutex, has failed the node's futures and cancelled the
      previous connector, but has not yet set its evicted flag. */
  datatype Lock = Free | Replacing(node: int, previous: nat)

  /** `panicked` records a second close of some future's done channel. */
  datatype Group = Group(
    cgId: string, shard: int,
    conns: seq<Conn>, current: map<int, nat>,
    counter: int, calls: seq<Call>, futures: map<int, nat>,
    lock: Lock, panicked: bool)

  datatype Step =
    | ConnectFresh(node: int, header: Option<string>)
    | ConnectCancel(node: int)
    | ConnectInstall(header: Option<string>)
    | Disconnect(conn: nat)
    | Begin(node: int)
    | LookUp(call: nat)
    | HandOff(call: nat)
    | SendFail(call: nat)
    | Register(call: nat)
    | Receive(conn: nat, resp: Response)
    | Stream(conn: nat, event: Event)

  function NewGroup(cgId: string, shard: int): Group {
    Group(cgId, shard, [], map[], 0, [], map[], Free, false)
  }

  predicate Enabled(s: Group, step: Step) {
    match step
    case ConnectFresh(node, _) => s.lock.Free? && node !in s.current
    case ConnectCancel(node) => s.lock.Free? && node in s.current && s.current[node] < |s.conns|
    case ConnectInstall(_) => s.lock.Replacing? && s.lock.previous < |s.conns|
    case Disconnect(c) => s.lock.Free? && c < |s.conns| && s.conns[c].handler.Stopped?
    case Begin(_) => true
    case LookUp(k) => s.lock.Free? && k < |s.calls| && s.calls[k].pc.Started?
    case HandOff(k) =>
      && k < |s.calls| && s.calls[k].pc.Found?
      && s.calls[k].pc.conn < |s.conns| && s.conns[s.calls[k].pc.conn].loop.Selecting?
    case SendFail(k) =>
      && k < |s.calls| && s.calls[k].pc.Found?
      && s.calls[k].pc.conn < |s.conns| && s.conns[s.calls[k].pc.conn].cancelled
    case Register(k) => s.lock.Free? && k < |s.calls| && s.calls[k].pc.HandedOff?
    case Receive(c, resp) =>
      && (s.lock.Free? || resp.kind.CheckIn?)
      && c < |s.conns| && !s.conns[c].loop.NotStarted?
    case Stream(c, e) => c < |s.conns| && Possible(s.conns[c], e)
  }

  /** Closing a future's done channel; closing it again is the panic. */
  function Finish(s: Group, k: nat, o: Outcome): Group
    requires k < |s.calls|
  {
    s.(calls := s.calls[k := s.calls[k].(outcome := o)],
       panicked := s.panicked || !s.calls[k].outcome.Pending?)
  }

  /** The registered futures of a node: what clearFutures walks over. */
  predicate Hit(s: Group, node: int, id: int) {
    id in s.futures && s.futures[id] < |s.calls| && s.calls[s.futures[id]].node == node
  }

  function Clear(s: Group, node: int): Group {
    s.(futures := map id | id in s.futures && !Hit(s, node, id) :: s.futures[id],
       calls := seq(|s.calls|, k requires 0 <= k < |s.calls| =>
         if s.calls[k].node == node && k in s.futures.Values
         then s.calls[k].(outcome := FailedWith(Disconnected(node)))
         else s.calls[k]),
       panicked := s.panicked || exists id ::
         Hit(s, node, id) && id in s.futures && !s.calls[s.futures[id]].outcome.Pending?)
  }

  function SetConn(s: Group, c: nat, x: Conn): Group
    requires c < |s.conns|
  {
    s.(conns := s.conns[c := x])
  }

  function SetPc(s: Group, k: nat, pc: CallPc): Group
    requires k < |s.calls|
  {
    s.(calls := s.calls[k := s.calls[k].(pc := pc)])
  }

  function DoConnectFresh(s: Group, node: int, header: Option<string>): Group {
    s.(current := s.current[node := |s.conns|], conns := s.conns + [NewConn(node, header)])
  }

  function DoConnectCancel(s: Group, node: int): Group
    requires Enabled(s, ConnectCancel(node))
  {
    var p := s.current[node];
    SetConn(Clear(s, node), p, s.conns[p].(cancelled := true)).(lock := Replacing(node, p))
  }

  function DoConnectInstall(s: Group, header: Option<string>): Group
    requires Enabled(s, ConnectInstall(header))
  {
    var p := s.lock.previous;
    DoConnectFresh(SetConn(s, p, s.conns[p].(evicted := true)).(lock := Free), s.lock.node, header)
  }

  function DoDisconnect(s: Group, c: nat): Group
    requires Enabled(s, Disconnect(c))
  {
    var x := s.conns[c];
    var t := SetConn(s, c, x.(handler := Gone(x.handler.status)));
    if x.node in s.current && s.current[x.node] == c then
      Clear(t.(current := s.current - {x.node}), x.node)
    else t
  }

  function DoBegin(s: Group, node: int): Group {
    var id := Wrap64(s.counter + 1);
    s.(counter := id, calls := s.calls + [Call(node, id, Started, Pending)])
  }

  function DoLookUp(s: Group, k: nat): Group
    requires Enabled(s, LookUp(k))
  {
    var node := s.calls[k].node;
    if node in s.current then SetPc(s, k, Found(s.current[node]))
    else Finish(SetPc(s, k, Abandoned), k, FailedWith(NotConnected(node)))
  }

  function DoHandOff(s: Group, k: nat): Group
    requires Enabled(s, HandOff(k))
  {
    var c := s.calls[k].pc.conn;
    SetConn(SetPc(s, k, HandedOff(c)), c, Take(s.conns[c], k))
  }

  function DoSendFail(s: Group, k: nat): Group
    requires Enabled(s, SendFail(k))
  {
    Finish(SetPc(s, k, Abandoned), k, FailedWith(Disconnected(s.conns[s.calls[k].pc.conn].node)))
  }

  function DoRegister(s: Group, k: nat): Group
    requires Enabled(s, Register(k))
  {
    SetPc(s, k, Registered(s.calls[k].pc.conn)).(futures := s.futures[s.calls[k].reqId := k])
  }

  function DoReceive(s: Group, resp: Response): Group {
    if resp.kind.CheckIn? then s
    else if resp.requestId in s.futures && s.futures[resp.requestId] < |s.calls| then
      Finish(s.(futures := s.futures - {resp.requestId}), s.futures[resp.requestId], Resolved(resp))
    else s
  }

  function Next(s: Group, step: Step): Group
    requires Enabled(s, step)
  {
    match step
    case ConnectFresh(node, header) => DoConnectFresh(s, node, header)
    case ConnectCancel(node) => DoConnectCancel(s, node)
    case ConnectInstall(header) => DoConnectInstall(s, header)
    case Disconnect(c) => DoDisconnect(s, c)
    case Begin(node) => DoBegin(s, node)
    case LookUp(k) => DoLookUp(s, k)
    case HandOff(k) => DoHandOff(s, k)
    case SendFail(k) => DoSendFail(s, k)
    case Register(k) => DoRegister(s, k)
    case Receive(_, resp) => DoReceive(s, resp)
    case Stream(c, e) => SetConn(s, c, After(s.cgId, s.shard, s.conns[c], e))
  }

  /** A finite run: `states[i + 1]` is the result of taking `steps[i]` in `states[i]`. */
  datatype Run = Run(states: seq<Group>, steps: seq<Step>) {
    ghost predicate Valid() {
      && |states| == |steps| + 1
      && states[0] == NewGroup(states[0].cgId, states[0].shard)
      && forall i | 0 <= i < |steps| :: Follows(i)
    }

    ghost predicate Follows(i: int)
      requires 0 <= i < |steps| < |states|
    {
      Enabled(states[i], steps[i]) && states[i + 1] == Next(states[i], steps[i])
    }

    function Last(): Group
      requires states != []
    {
      states[|states| - 1]
    }

    /** No more calls than there are 64-bit request IDs. */
    ghost predicate IdsLast()
      requires states != []
    {
      |Last().calls| <= TWO_64
    }
  }
}
