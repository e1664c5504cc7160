/** One serving stream: the StartServing handler, its send loop and its shard timer, as they run
    side by side on a connector. */
module Streams {
  import opened Wrappers
  import Versions
  import Sharding

  /** What reaches the client: the handler's greeting, or the request of routing call `call`. */
  datatype Msg = Welcome | Routed(call: nat)

  datatype Status = Clean | Aborted | Resharding | WelcomeFailed

  /** Program counter of StartServing after `router.Connect` returned. The deferred clean-up runs
      between `Leaving` and `Gone`: first the timer is stopped, then `Disconnect` is called. */
  datatype Handler =
    | Connected                // about to decide on a shed timer
    | Ready                    // about to send Welcome
    | Welcoming                // inside stream.Send
    | Welcomed                 // about to call Run
    | Running                  // loops started, waiting for the context
    | Returned                 // Run came back; about to read the evicted flag
    | NotEvicted               // the flag was false; about to read the shed flag
    | Leaving(status: Status)
    | Stopped(status: Status)  // timer stopped; about to call Disconnect
    | Gone(status: Status)

  datatype Loop = NotStarted | Selecting | Sending(call: nat) | Failed | Exited

  datatype Timer = NoTimer | Armed | Fired | Shed | Disarmed

  /** `wire` lists the messages stream.Send wrote; `taken` the calls the send loop accepted. */
  datatype Conn = Conn(
    node: int, header: Option<string>, cancelled: bool, evicted: bool,
    handler: Handler, loop: Loop, timer: Timer, wire: seq<Msg>, taken: seq<nat>)

  datatype Event =
    | StreamCancel             // client gone, receive error, or the transport closing the stream
    | DecideShed
    | WelcomeStart
    | WelcomeEnd(ok: bool)
    | RunStart
    | RunReturn
    | ReadEvicted
    | ReadShed
    | StopTimer
    | LoopSent(ok: bool)
    | LoopQuit
    | LoopCancel
    | TimerFire
    | TimerClose

  function NewConn(node: int, header: Option<string>): Conn {
    Conn(node, header, false, false, Connected, NotStarted, NoTimer, [], [])
  }

  /** The three guards in front of ShedAfterTTL; shard 0 means the hub has none assigned. */
  predicate ShouldShed(cgId: string, assignedShard: int, header: Option<string>) {
    && assignedShard != 0
    && Versions.ClientIsShedSafe(header)
    && Sharding.GetShard(cgId) != assignedShard
  }

  predicate Possible(c: Conn, e: Event) {
    match e
    case StreamCancel => true
    case DecideShed => c.handler.Connected?
    case WelcomeStart => c.handler.Ready?
    case WelcomeEnd(_) => c.handler.Welcoming?
    case RunStart => c.handler.Welcomed?
    case RunReturn => c.handler.Running? && c.cancelled
    case ReadEvicted => c.handler.Returned?
    case ReadShed => c.handler.NotEvicted?
    case StopTimer => c.handler.Leaving?
    case LoopSent(_) => c.loop.Sending?
    case LoopQuit => c.loop.Selecting? && c.cancelled
    case LoopCancel => c.loop.Failed?
    case TimerFire => c.timer.Armed?
    case TimerClose => c.timer.Fired?
  }

  function After(cgId: string, shard: int, c: Conn, e: Event): Conn
    requires Possible(c, e)
  {
    match e
    case StreamCancel => c.(cancelled := true)
    case DecideShed =>
      c.(handler := Ready, timer := if ShouldShed(cgId, shard, c.header) then Armed else NoTimer)
    case WelcomeStart => c.(handler := Welcoming)
    case WelcomeEnd(ok) =>
      if ok then c.(handler := Welcomed, wire := c.wire + [Welcome])
      else c.(handler := Leaving(WelcomeFailed))
    case RunStart => c.(handler := Running, loop := Selecting)
    case RunReturn => c.(handler := Returned)
    case ReadEvicted => c.(handler := if c.evicted then Leaving(Aborted) else NotEvicted)
    case ReadShed =>
      c.(handler := Leaving(if c.timer.Fired? || c.timer.Shed? then Resharding else Clean))
    case StopTimer => c.(handler := Stopped(c.handler.status), timer := if c.timer.Armed? then Disarmed else c.timer)
    case LoopSent(ok) =>
      if ok then c.(loop := Selecting, wire := c.wire + [Routed(c.loop.call)])
      else c.(loop := Failed)
    case LoopQuit => c.(loop := Exited)
    case LoopCancel => c.(loop := Exited, cancelled := true)
    case TimerFire => c.(timer := Fired)
    case TimerClose => c.(timer := Shed, cancelled := true)
  }

  /** The send loop's half of a hand-off on the unbuffered channel. */
  function Take(c: Conn, call: nat): Conn {
    c.(loop := Sending(call), taken := c.taken + [call])
  }

  /** When each thread can move: the handler in its fixed order, waiting for the context once the
      loops run; the loop while it waits or writes; the timer while it is armed. */
  lemma PossibleIff(c: Conn, e: Event)
    ensures Possible(c, e) <==>
            match e
            case StreamCancel => true
            case DecideShed => c.handler == Connected
            case WelcomeStart => c.handler == Ready
            case WelcomeEnd(_) => c.handler == Welcoming
            case RunStart => c.handler == Welcomed
            case RunReturn => c.handler == Running && c.cancelled
            case ReadEvicted => c.handler == Returned
            case ReadShed => c.handler == NotEvicted
            case StopTimer => c.handler.Leaving?
            case LoopSent(_) => c.loop.Sending?
            case LoopQuit => c.loop == Selecting && c.cancelled
            case LoopCancel => c.loop == Failed
            case TimerFire => c.timer == Armed
            case TimerClose => c.timer == Fired
  {
  }

  /** Which events move the handler, and where to. */
  lemma HandlerEffect(cgId: string, shard: int, c: Conn, e: Event)
    requires Possible(c, e)
    ensures After(cgId, shard, c, e).handler ==
            match e
            case DecideShed => Ready
            case WelcomeStart => Welcoming
            case WelcomeEnd(true) => Welcomed
            case WelcomeEnd(false) => Leaving(WelcomeFailed)
            case RunStart => Running
            case RunReturn => Returned
            case ReadEvicted => if c.evicted then Leaving(Aborted) else NotEvicted
            case ReadShed => if c.timer == Fired || c.timer == Shed then Leaving(Resharding) else Leaving(Clean)
            case StopTimer => Stopped(c.handler.status)
            case _ => c.handler
  {
  }

  /** What the client sees grows only by completed sends; the context is cancelled only by the client,
      a failed write or the shard timer; the timer is armed once, under the three guards, and stopped
      for good unless it has fired. */
  lemma OtherEffects(cgId: string, shard: int, c: Conn, e: Event)
    requires Possible(c, e)
    ensures var d := After(cgId, shard, c, e);
            && d.wire == (if e == WelcomeEnd(true) then c.wire + [Welcome]
                          else if e == LoopSent(true) then c.wire + [Routed(c.loop.call)]
                          else c.wire)
            && d.cancelled == (c.cancelled || e == StreamCancel || e == LoopCancel || e == TimerClose)
            && d.loop == (match e
                          case RunStart => Selecting
                          case LoopSent(true) => Selecting
                          case LoopSent(false) => Failed
                          case LoopQuit => Exited
                          case LoopCancel => Exited
                          case _ => c.loop)
            && d.timer == (match e
                           case DecideShed =>
                             if && shard != 0 && Sharding.GetShard(cgId) != shard
                                && Versions.ClientIsShedSafe(c.header)
                             then Armed else NoTimer
                           case TimerFire => Fired
                           case TimerClose => Shed
                           case StopTimer => if c.timer == Armed then Disarmed else c.timer
                           case _ => c.timer)
            && d.node == c.node && d.header == c.header && d.evicted == c.evicted && d.taken == c.taken
  {
  }

  function Requests(calls: seq<nat>): (w: seq<Msg>)
    ensures |w| == |calls| && forall i | 0 <= i < |w| :: w[i] == Routed(calls[i])
  {
    seq(|calls|, i requires 0 <= i < |calls| => Routed(calls[i]))
  }

  predicate Exits(h: Handler) {
    h.Leaving? || h.Stopped? || h.Gone?
  }

  predicate BeforeRun(h: Handler) {
    || h.Connected? || h.Ready? || h.Welcoming? || h.Welcomed?
    || (Exits(h) && h.status.WelcomeFailed?)
  }

  predicate Greeted(h: Handler) {
    h.Welcomed? || !BeforeRun(h)
  }

  /** What is on the wire follows from what was taken: Welcome first, then the taken requests in
      hand-off order, short of at most the one being written or the one whose write failed. */
  predicate WireInv(c: Conn) {
    var greeting := if Greeted(c.handler) then [Welcome] else [];
    match c.loop
    case NotStarted => c.taken == [] && c.wire == greeting
    case Selecting => c.wire == greeting + Requests(c.taken)
    case Sending(k) =>
      && |c.taken| > 0 && c.taken[|c.taken| - 1] == k
      && c.wire == greeting + Requests(c.taken[..|c.taken| - 1])
    case Failed => |c.taken| > 0 && c.wire == greeting + Requests(c.taken[..|c.taken| - 1])
    case Exited => || c.wire == greeting + Requests(c.taken)
                   || (|c.taken| > 0 && c.wire == greeting + Requests(c.taken[..|c.taken| - 1]))
  }

  /** Inductive invariant of a single stream. */
  predicate ConnInv(cgId: string, shard: int, c: Conn) {
    && (c.loop.NotStarted? <==> BeforeRun(c.handler))
    && WireInv(c)
    && (c.handler.Connected? ==> c.timer.NoTimer?)
    && (!c.timer.NoTimer? ==> ShouldShed(cgId, shard, c.header))
    && (Exits(c.handler) && c.handler.status.Aborted? ==> c.evicted)
    && (Exits(c.handler) && c.handler.status.Resharding? ==> c.timer.Fired? || c.timer.Shed?)
    && (c.timer.Shed? ==> c.cancelled)
    && (c.loop.Exited? || c.handler.Returned? || c.handler.NotEvicted? ==> c.cancelled)
    && (Exits(c.handler) && !c.handler.status.WelcomeFailed? ==> c.cancelled)
  }

  /** Threads currently inside `stream.Send` on this stream. */
  function Senders(c: Conn): nat {
    (if c.handler.Welcoming? then 1 else 0) + (if c.loop.Sending? then 1 else 0)
  }

  lemma ConnInvSent(cgId: string, shard: int, c: Conn, ok: bool)
    requires ConnInv(cgId, shard, c) && c.loop.Sending?
    ensures ConnInv(cgId, shard, After(cgId, shard, c, LoopSent(ok)))
  {
    var n := |c.taken| - 1;
    assert Requests(c.taken) == Requests(c.taken[..n]) + [Routed(c.taken[n])];
  }

  lemma ConnInvLoop(cgId: string, shard: int, c: Conn, e: Event)
    requires ConnInv(cgId, shard, c) && Possible(c, e)
    requires e.LoopQuit? || e.LoopCancel? || e.TimerFire? || e.TimerClose? || e.StopTimer? || e.StreamCancel?
    ensures ConnInv(cgId, shard, After(cgId, shard, c, e))
  {
  }

  lemma ConnInvHandler(cgId: string, shard: int, c: Conn, e: Event)
    requires ConnInv(cgId, shard, c) && Possible(c, e)
    requires || e.DecideShed? || e.WelcomeStart? || e.WelcomeEnd? || e.RunStart? || e.RunReturn?
             || e.ReadEvicted? || e.ReadShed?
    ensures ConnInv(cgId, shard, After(cgId, shard, c, e))
  {
  }

  lemma ConnInvStep(cgId: string, shard: int, c: Conn, e: Event)
    requires ConnInv(cgId, shard, c) && Possible(c, e)
    ensures ConnInv(cgId, shard, After(cgId, shard, c, e))
  {
    match e
    case LoopSent(ok) => ConnInvSent(cgId, shard, c, ok);
    case StreamCancel => ConnInvLoop(cgId, shard, c, e);
    case StopTimer => ConnInvLoop(cgId, shard, c, e);
    case LoopQuit => ConnInvLoop(cgId, shard, c, e);
    case LoopCancel => ConnInvLoop(cgId, shard, c, e);
    case TimerFire => ConnInvLoop(cgId, shard, c, e);
    case TimerClose => ConnInvLoop(cgId, shard, c, e);
    case _ => ConnInvHandler(cgId, shard, c, e);
  }

  /** The stream's own events never touch what the router keys on. */
  lemma AfterKeepsIdentity(cgId: string, shard: int, c: Conn, e: Event)
    requires Possible(c, e)
    ensures var d := After(cgId, shard, c, e);
            && d.node == c.node && d.header == c.header && d.taken == c.taken && d.evicted == c.evicted
            && (c.cancelled ==> d.cancelled)
            && d.handler.Gone? == c.handler.Gone?
            && c.wire <= d.wire
            && (!c.loop.NotStarted? ==> !d.loop.NotStarted?)
  {
  }

  lemma NewConnInv(cgId: string, shard: int, node: int, header: Option<string>)
    ensures ConnInv(cgId, shard, NewConn(node, header))
  {
  }

  lemma ConnInvTake(cgId: string, shard: int, c: Conn, k: nat)
    requires ConnInv(cgId, shard, c) && c.loop.Selecting?
    ensures ConnInv(cgId, shard, Take(c, k))
  {
  }

  lemma ConnInvGone(cgId: string, shard: int, c: Conn)
    requires ConnInv(cgId, shard, c) && c.handler.Stopped?
    ensures ConnInv(cgId, shard, c.(handler := Gone(c.handler.status)))
  {
  }

  /** Marking a stream cancelled and evicted, as its replacement does, keeps it consistent. */
  lemma ConnInvFlags(cgId: string, shard: int, c: Conn, cancelled: bool, evicted: bool)
    requires ConnInv(cgId, shard, c)
    requires c.cancelled ==> cancelled
    requires c.evicted ==> evicted
    ensures ConnInv(cgId, shard, c.(cancelled := cancelled, evicted := evicted))
  {
  }

  /** Welcome first, then the taken requests in hand-off order, all but at most the last. */
  predicate InHandOffOrder(wire: seq<Msg>, taken: seq<nat>) {
    if wire == [] then taken == []
    else
      && wire[0] == Welcome
      && |wire| - 1 <= |taken| <= |wire|
      && forall i | 1 <= i < |wire| :: wire[i] == Routed(taken[i - 1])
  }

  /** What a consistent stream shows its client and reports on exit. */
  lemma StreamDiscipline(cgId: string, shard: int, c: Conn)
    requires ConnInv(cgId, shard, c)
    ensures Senders(c) <= 1
    ensures InHandOffOrder(c.wire, c.taken)
    ensures Exits(c.handler) && c.handler.status.Aborted? ==> c.evicted
    ensures Exits(c.handler) && c.handler.status.Resharding? ==>
              shard != 0 && Sharding.GetShard(cgId) != shard && Versions.ClientIsShedSafe(c.header)
              && (c.timer.Fired? || c.timer.Shed?)
    ensures Sharding.GetShard(cgId) == shard ==> c.timer.NoTimer?
  {
  }

  /** A stream that is evicted before the handler reads the flag can only end as Aborted, unless
      Welcome itself failed: eviction takes precedence over resharding. */
  predicate EvictionDecided(c: Conn) {
    && c.evicted
    && (|| c.handler.NotEvicted?
        || (Exits(c.handler) && !c.handler.status.Aborted? && !c.handler.status.WelcomeFailed?))
  }

  lemma EvictionTakesPrecedence(cgId: string, shard: int, c: Conn, e: Event)
    requires Possible(c, e) && c.evicted && !EvictionDecided(c)
    ensures !EvictionDecided(After(cgId, shard, c, e))
  {
  }
}
