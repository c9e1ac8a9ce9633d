/**
 The server as one transition system: any number of connections (easyrpc/server/connection.hpp)
 whose read handlers, timers and destructors interleave with each other and with the producers,
 workers and stopper of the one worker pool they share.

 A connection is owned through shared_ptr; `refs` is the set of owners that exist, and the owner
 that goes last runs the destructor.  Handlers of one connection run one at a time; a body
 handler that is blocked inside add_task is still running.
 */
module ServerSystem {
  import opened Wrappers
  import opened Wire
  import P = PoolModel

  /** Where the chain of read handlers of one connection stands. */
  datatype Phase =
    | HeadPending        // async_read of read_head, 71
    | BodyPending        // async_read of read_protocol_and_body, 107
    | Routing(call: nat) // inside the body handler, in add_task for this call, 124-126
    | Quiet              // no read pending and no handler running

  /** The deadline timer; Expired means that the wait completed and its handler is queued. */
  datatype TimerPhase = Idle | Armed | Expired

  datatype Ref = HeadReadRef | BodyReadRef | HandlerRef | TimerRef | TaskRef(call: nat)

  datatype Conn = Conn(
    open: bool,
    phase: Phase,
    received: Bytes,
    timer: TimerPhase,
    refs: set<Ref>,
    routed: Option<nat>,
    written: Bytes)  // all bytes that the connection took from the server

  /** What route was given for one call of add_task. */
  datatype Request = Request(conn: nat, protocol: Bytes, mode: U32, body: Bytes)

  /** The timeout, which names are bound, and the frame or failure that the task for a request ends with. */
  datatype Config = Config(timeout: nat, routable: (Bytes, U32) -> bool, reply: (Bytes, U32, Bytes) -> Result<Bytes>)

  datatype State = State(pool: P.State, requests: seq<Request>, conns: seq<Conn>)

  datatype Action =
    | Accept                                     // server::accept and connection::start
    | HeadDone(c: nat, data: Bytes, ok: bool)    // completion of the first read; ok says !ec
    | BodyDone(c: nat, data: Bytes, ok: bool)
    | RouteReturns(c: nat)
    | TimerExpires(c: nat)
    | TimerFires(c: nat)
    | PoolStep(a: P.Action, taken: nat)          // a step of the pool; a task that writes gets `taken` bytes out

  function Init(workers: nat): State { State(P.Init(workers), [], []) }

  // ---- connection operations ----

  /** disconnect, 56-64. */
  function Disconnect(c: Conn): Conn { c.(open := false) }

  /** stop_timer, 156-163: cancels a wait that has not completed. */
  function StopTimer(c: Conn): Conn { c.(timer := if c.timer == Armed then Idle else c.timer) }

  /** Owners go; the last one runs the destructor, 27-31. */
  function Release(c: Conn, gone: set<Ref>): Conn {
    var c1 := c.(refs := c.refs - gone);
    if c1.refs == {} then Disconnect(StopTimer(c1)) else c1
  }

  function Fresh(cfg: Config): Conn {
    if cfg.timeout == 0 then Conn(true, HeadPending, [], Idle, {HeadReadRef}, None, [])
    else Conn(true, HeadPending, [], Armed, {HeadReadRef, TimerRef}, None, [])
  }

  /** The handler of read_head, 72-92: its guard closes on every exit but the last. */
  function AfterHead(c: Conn, data: Bytes, ok: bool): Conn
    requires ok ==> |data| == REQUEST_HEADER_LEN
  {
    if c.open && ok && CheckHead(DecodeRequestHeader(data)) then
      c.(phase := BodyPending, received := data, refs := c.refs - {HeadReadRef} + {BodyReadRef})
    else
      Release(Disconnect(StopTimer(c.(phase := Quiet))), {HeadReadRef})
  }

  /** The exits of the body handler that do not route, 110-131. */
  function AfterBodyFailure(c: Conn): Conn {
    Release(Disconnect(StopTimer(c.(phase := Quiet))), {BodyReadRef})
  }

  /** The pieces are handed on in add_task call number `k`. */
  function HandedOn(c: Conn, data: Bytes, k: nat): Conn {
    c.(phase := Routing(k), received := c.received + data, routed := Some(k),
       refs := c.refs - {BodyReadRef} + {HandlerRef, TaskRef(k)})
  }

  /** The body handler on its way into add_task, its timer stopped. */
  function AfterBodyRouted(c: Conn, data: Bytes, k: nat): Conn {
    HandedOn(StopTimer(c), data, k)
  }

  /**
   A task ends, easyrpc/server/router.hpp:26-40: all bytes are out, or its write throws.  Its closure,
   which owns the connection, goes only at the end of the worker's loop body, after the notification.
   */
  function AfterTask(c: Conn, reply: Result<Bytes>, taken: nat): Conn {
    if reply.Ok? && c.open then
      var c1 := c.(written := c.written + Taken(reply.value, taken));
      if taken < |reply.value| then Disconnect(c1) else c1
    else Disconnect(c)
  }

  // ---- actions ----

  predicate HasConn(s: State, c: nat) { c < |s.conns| }

  function HeaderOf(c: Conn): RequestHeader
    requires |c.received| == REQUEST_HEADER_LEN
  {
    DecodeRequestHeader(c.received)
  }

  /** A completed body read delivers the announced bytes; lengths that sum to 2^32 or more are left out. */
  predicate BodyFits(c: Conn, data: Bytes) {
    && |c.received| == REQUEST_HEADER_LEN
    && HeaderOf(c).protocolLen + HeaderOf(c).bodyLen < TWO_TO_THE_32
    && |data| == HeaderOf(c).protocolLen + HeaderOf(c).bodyLen
  }

  predicate Enabled(s: State, a: Action) {
    match a
    case Accept => true
    case HeadDone(c, data, ok) =>
      HasConn(s, c) && s.conns[c].phase == HeadPending && (ok ==> |data| == REQUEST_HEADER_LEN)
    case BodyDone(c, data, ok) =>
      HasConn(s, c) && s.conns[c].phase == BodyPending && (ok ==> BodyFits(s.conns[c], data))
    case RouteReturns(c) =>
      && HasConn(s, c) && s.conns[c].phase.Routing? && s.conns[c].phase.call < |s.pool.producers|
      && s.pool.producers[s.conns[c].phase.call] in {P.PDone, P.PRefused}
    case TimerExpires(c) => HasConn(s, c) && s.conns[c].timer == Armed
    case TimerFires(c) => HasConn(s, c) && s.conns[c].timer == Expired && !s.conns[c].phase.Routing?
    case PoolStep(pa, _) => pa != P.Call && P.Enabled(s.pool, pa)
  }

  function SetConn(s: State, c: nat, conn: Conn): State
    requires HasConn(s, c)
  {
    s.(conns := s.conns[c := conn])
  }

  /** The body handler once its guards have passed: route, 124-132. */
  function DoRoute(cfg: Config, s: State, c: nat, data: Bytes): State
    requires HasConn(s, c) && BodyFits(s.conns[c], data)
  {
    var h := HeaderOf(s.conns[c]);
    var protocol, body := data[..h.protocolLen], data[h.protocolLen..];
    if cfg.routable(protocol, h.mode) then
      SetConn(s, c, AfterBodyRouted(s.conns[c], data, |s.pool.producers|))
      .(pool := P.Apply(s.pool, P.Call), requests := s.requests + [Request(c, protocol, h.mode, body)])
    else SetConn(s, c, AfterBodyFailure(s.conns[c]))
  }

  /** The owners of connection `c` that a pool step destroys. */
  function Dropped(s: State, pa: P.Action, c: nat): set<Ref> {
    if pa.StepP? && pa.p < |s.requests| && pa.p < |s.pool.producers| && s.pool.producers[pa.p] == P.PEntry && s.pool.stop
       && s.requests[pa.p].conn == c
    then {TaskRef(pa.p)}
    else if pa.StepW? && pa.w < |s.pool.workers| == |s.pool.held| && s.pool.workers[pa.w] == P.WNotifying
       && s.pool.held[pa.w] < |s.requests| && s.requests[s.pool.held[pa.w]].conn == c
    then {TaskRef(s.pool.held[pa.w])}
    else if pa.StepS? && s.pool.stopper == P.SJoining(|s.pool.workers|)
    then set k | k in s.pool.queue && k < |s.requests| && s.requests[k].conn == c :: TaskRef(k)
    else {}
  }

  function LetGo(c: Conn, gone: set<Ref>): Conn {
    if gone == {} then c else Release(c, gone)
  }

  predicate Finishes(s: State, pa: P.Action) {
    && pa.StepW? && pa.w < |s.pool.workers| == |s.pool.held| && s.pool.workers[pa.w] == P.WRunning
    && s.pool.held[pa.w] < |s.requests|
    && s.requests[s.pool.held[pa.w]].conn < |s.conns|
  }

  /** The task that ends is that of connection `c`. */
  predicate FinishesFor(s: State, pa: P.Action, c: nat) {
    Finishes(s, pa) && s.requests[s.pool.held[pa.w]].conn == c
  }

  /** The reply that the task finished by `pa` has for its request. */
  function ReplyOf(cfg: Config, s: State, pa: P.Action): Result<Bytes>
    requires Finishes(s, pa)
  {
    var r := s.requests[s.pool.held[pa.w]];
    cfg.reply(r.protocol, r.mode, r.body)
  }

  function DoPoolStep(cfg: Config, s: State, pa: P.Action, taken: nat): State
    requires P.Enabled(s.pool, pa)
  {
    var pool := P.Apply(s.pool, pa);
    if Finishes(s, pa) then
      var c := s.requests[s.pool.held[pa.w]].conn;
      SetConn(s, c, AfterTask(s.conns[c], ReplyOf(cfg, s, pa), taken)).(pool := pool)
    else
      s.(pool := pool, conns := seq(|s.conns|, c requires 0 <= c < |s.conns| =>
        LetGo(s.conns[c], Dropped(s, pa, c))))
  }

  function Apply(cfg: Config, s: State, a: Action): State
    requires Enabled(s, a)
  {
    match a
    case Accept => s.(conns := s.conns + [Fresh(cfg)])
    case HeadDone(c, data, ok) => SetConn(s, c, AfterHead(s.conns[c], data, ok))
    case BodyDone(c, data, ok) =>
      if s.conns[c].open && ok then DoRoute(cfg, s, c, data) else SetConn(s, c, AfterBodyFailure(s.conns[c]))
    case RouteReturns(c) => SetConn(s, c, Release(s.conns[c].(phase := Quiet), {HandlerRef}))
    case TimerExpires(c) => SetConn(s, c, s.conns[c].(timer := Expired))
    case TimerFires(c) => SetConn(s, c, Disconnect(s.conns[c].(timer := Idle)))
    case PoolStep(pa, taken) => DoPoolStep(cfg, s, pa, taken)
  }

  ghost predicate IsRun(cfg: Config, s: State, acts: seq<Action>, t: State)
    decreases |acts|
  {
    if acts == [] then s == t
    else Enabled(s, acts[0]) && IsRun(cfg, Apply(cfg, s, acts[0]), acts[1..], t)
  }
}
