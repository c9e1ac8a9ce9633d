/**
 The client side of a connection: easyrpc/client/rpc_session.hpp and the lock-connect-call-
 disconnect discipline of easyrpc/client/client.hpp.  The timer has a thread of its own: a wait
 that completes queues a handler, which disconnects whatever the socket is connected to when it
 runs, in this call or a later one.  `Net` says what the network and the timer thread do during
 one call.
 */
module Session {
  import opened Wire
  import opened ScopeGuards
  import opened ATimers
  import RC = RemoteCall
  import I = Invoker

  datatype Net = Net(
    connectOk: bool,
    leftOpen: bool,     // a failed connect left the socket open
    early: nat,         // handlers that the timer thread runs between connect and write, if as many are queued
    taken: nat,         // bytes of the request that the connection takes
    incoming: Bytes,    // what the peer delivers before it, or an error, ends the stream
    expires: bool,      // the wait started by this call completes before stop_timer
    during: nat,        // handlers that run while the response is read, if as many are queued
    arrived: nat)       // bytes of the response that are in by then

  datatype CallArgs = CallArgs(protocol: Bytes, mode: U32, body: Bytes)

  /** A call of the client, or a queued handler that runs while no call is being made. */
  datatype Event = Called(a: CallArgs, net: Net) | Handled

  // ---- specification ----

  datatype SessionState = SessionState(
    isOpen: bool,
    callbacks: nat,
    pending: bool,
    queued: nat,   // handlers of completed waits that have not run
    ran: nat,      // history: handlers that have run
    sent: Bytes)

  const START: SessionState := SessionState(false, 0, false, 0, 0, [])

  function Min(a: nat, b: nat): nat { if a < b then a else b }

  /** `n` queued handlers run, or all if there are fewer: each disconnects. */
  function AfterHandlers(s: SessionState, n: nat): SessionState {
    var k := Min(n, s.queued);
    if k == 0 then s else s.(isOpen := false, queued := s.queued - k, ran := s.ran + k)
  }

  function Connected(s: SessionState, net: Net): SessionState {
    AfterHandlers(s.(isOpen := true), net.early)
  }

  /** All of the request goes out on the socket as it is. */
  predicate Writes(s: SessionState, a: CallArgs, net: Net) {
    s.isOpen && var frame := EncodeRequest(a.protocol, a.mode, a.body); frame.Ok? && net.taken >= |frame.value|
  }

  /** The call connects and sends all of its request. */
  predicate Sends(s: SessionState, a: CallArgs, net: Net) {
    net.connectOk && Writes(Connected(s, net), a, net)
  }

  /** start_timer, and the wait may complete: its handler is queued. */
  function AfterStart(timeout: nat, s: SessionState, net: Net): SessionState {
    if timeout == 0 then s
    else s.(callbacks := s.callbacks + 1, pending := !net.expires, queued := s.queued + if net.expires then 1 else 0)
  }

  /** read, 112-119: the guard stops the timer, which does not touch queued handlers. */
  function AfterRead(timeout: nat, s: SessionState, net: Net): SessionState {
    var t := AfterHandlers(AfterStart(timeout, s, net), net.during);
    if timeout == 0 then t else t.(pending := false)
  }

  /** The bytes that read gets: a handler that runs meanwhile ends the stream. */
  function Stream(timeout: nat, s: SessionState, net: Net): Bytes {
    if Min(net.during, AfterStart(timeout, s, net).queued) > 0 then Taken(net.incoming, net.arrived) else net.incoming
  }

  function Received(stream: Bytes): Result<Bytes> {
    match DecodeResponse(stream)
    case EndOfStream => Error("End of file")
    case TooBig => Error("Body len is too big")
    case Body(body, _) => Ok(body)
  }

  /** rpc_session::call, 56-60, once connected: what it returns; an exception is an Error. */
  function Transferred(timeout: nat, s: SessionState, a: CallArgs, net: Net): Result<Bytes> {
    match EncodeRequest(a.protocol, a.mode, a.body)
    case Error(m) => Error(m)
    case Ok(_) => if Writes(s, a, net) then Received(Stream(timeout, s, net)) else Error("Write failed")
  }

  /** And what it leaves behind. */
  function AfterTransfer(timeout: nat, s: SessionState, a: CallArgs, net: Net): SessionState {
    var frame := EncodeRequest(a.protocol, a.mode, a.body);
    if frame.Error? || !s.isOpen then s
    else
      var t := s.(sent := s.sent + Taken(frame.value, net.taken));
      if Writes(s, a, net) then AfterRead(timeout, t, net) else t
  }

  /** What a call of the client returns. */
  function Outcome(timeout: nat, s: SessionState, a: CallArgs, net: Net): Result<Bytes> {
    if net.connectOk then Transferred(timeout, Connected(s, net), a, net) else Error("Connect failed")
  }

  /** What a call of the client leaves behind: its guard disconnects on every exit after connecting. */
  function AfterCall(timeout: nat, s: SessionState, a: CallArgs, net: Net): SessionState {
    if net.connectOk then AfterTransfer(timeout, Connected(s, net), a, net).(isOpen := false)
    else s.(isOpen := net.leftOpen)
  }

  function AfterEvent(timeout: nat, s: SessionState, e: Event): SessionState {
    match e
    case Called(a, net) => AfterCall(timeout, s, a, net)
    case Handled => AfterHandlers(s, 1)
  }

  function After(timeout: nat, events: seq<Event>): SessionState
    decreases |events|
  {
    if events == [] then START
    else AfterEvent(timeout, After(timeout, events[..|events| - 1]), events[|events| - 1])
  }

  /** The calls that came to read a response, and those of them whose wait completed. */
  function Reads(timeout: nat, events: seq<Event>, overdue: bool): nat
    decreases |events|
  {
    if events == [] then 0
    else
      var before, e := events[..|events| - 1], events[|events| - 1];
      Reads(timeout, before, overdue)
      + if e.Called? && Sends(After(timeout, before), e.a, e.net) && (overdue ==> e.net.expires) then 1 else 0
  }

  /** The effect of a handler that runs `n` callbacks: n times disconnect(). */
  function Disconnects(s: SessionState, n: nat): SessionState {
    if n == 0 then s else Disconnects(s, n - 1).(isOpen := false)
  }

  /** Running any positive number of identical callbacks has the effect of one disconnect(). */
  lemma {:induction false} FiringIsOneDisconnect(s: SessionState, n: nat)
    ensures Disconnects(s, n) == if n == 0 then s else s.(isOpen := false)
  {
    if n > 0 {
      FiringIsOneDisconnect(s, n - 1);
    }
  }

  /**
   In every run of calls and handlers: after a call whose connect succeeded the socket is closed; no
   wait is left running; one callback was bound by each call that came to read; every completed
   wait has its handler run once or still queued; and a handler that runs now does one disconnect().
   */
  lemma {:induction false} SessionDiscipline(timeout: nat, events: seq<Event>)
    ensures var s := After(timeout, events);
            && (events != [] && events[|events| - 1].Called? && events[|events| - 1].net.connectOk ==> !s.isOpen)
            && !s.pending
            && s.callbacks == (if timeout == 0 then 0 else Reads(timeout, events, false))
            && s.queued + s.ran == (if timeout == 0 then 0 else Reads(timeout, events, true))
            && (s.queued > 0 ==> Disconnects(s, s.callbacks) == s.(isOpen := false))
    decreases |events|
  {
    var s := After(timeout, events);
    FiringIsOneDisconnect(s, s.callbacks);
    OverdueAreReads(timeout, events);
    if events != [] {
      var before := events[..|events| - 1];
      SessionDiscipline(timeout, before);
      EventAccounts(timeout, After(timeout, before), events[|events| - 1]);
    }
  }

  lemma EventAccounts(timeout: nat, s: SessionState, e: Event)
    requires !s.pending
    ensures var t, read := AfterEvent(timeout, s, e), timeout != 0 && e.Called? && Sends(s, e.a, e.net);
            && !t.pending && (e.Called? && e.net.connectOk ==> !t.isOpen)
            && t.callbacks == s.callbacks + (if read then 1 else 0)
            && t.queued + t.ran == s.queued + s.ran + if read && e.net.expires then 1 else 0
  {
  }

  lemma {:induction false} OverdueAreReads(timeout: nat, events: seq<Event>)
    ensures Reads(timeout, events, true) <= Reads(timeout, events, false)
    decreases |events|
  {
    if events != [] {
      OverdueAreReads(timeout, events[..|events| - 1]);
    }
  }

  // ---- when a call returns ----

  /** A handler of an earlier call closes the socket before the request is written. */
  predicate Broken(s: SessionState, net: Net) { net.early > 0 && s.queued > 0 }

  /** A handler, of an earlier call or of this one, closes the socket while the response is read. */
  predicate Cut(timeout: nat, s: SessionState, net: Net) {
    net.during > 0 && (s.queued > 0 || (timeout != 0 && net.expires))
  }

  /**
   For every session, network and schedule of the timer thread: a call returns exactly if it connects,
   its request may be and is sent in full, a whole response comes, no handler closes the socket before
   the request is out, and none closes it before the response is in.  Then it returns the body of the
   response; otherwise it throws.  The socket is closed in either case, unless it never connected.
   */
  lemma CallReturnsIff(timeout: nat, s: SessionState, a: CallArgs, net: Net)
    ensures var r := Outcome(timeout, s, a, net);
            && (r.Ok? <==>
                  && net.connectOk && (|a.protocol| + |a.body|) % 0x1_0000_0000 <= 8388608
                  && net.taken >= 12 + |a.protocol| + |a.body| && !Broken(s, net)
                  && DecodeResponse(net.incoming).Body?
                  && (Cut(timeout, s, net) ==> net.arrived >= 4 + |DecodeResponse(net.incoming).body|))
            && (r.Ok? ==> r.value == DecodeResponse(net.incoming).body)
    ensures AfterCall(timeout, s, a, net).isOpen == (!net.connectOk && net.leftOpen)
  {
    ClientSendsIff(a.protocol, a.mode, a.body);
    if net.connectOk && EncodeRequest(a.protocol, a.mode, a.body).Ok? {
      if Broken(s, net) {
        assert !Connected(s, net).isOpen;
      } else {
        assert Connected(s, net).isOpen && Connected(s, net).queued == s.queued;
        CutStream(net.incoming, net.arrived);
      }
    }
  }

  lemma CutStream(incoming: Bytes, arrived: nat)
    ensures Received(Taken(incoming, arrived)).Ok? <==>
              DecodeResponse(incoming).Body? && arrived >= 4 + |DecodeResponse(incoming).body|
    ensures Received(Taken(incoming, arrived)).Ok? ==>
              Received(Taken(incoming, arrived)).value == DecodeResponse(incoming).body
  {
    if arrived < |incoming| {
      if DecodeResponse(incoming).Body? {
        ResponseArrives(incoming, arrived);
      } else if DecodeResponse(incoming[..arrived]).Body? {
        ResponseOfPrefix(incoming, arrived);
      }
    }
  }

  /** What a call puts on its socket: all, a beginning, or none of the one frame. */
  lemma CallSends(timeout: nat, s: SessionState, a: CallArgs, net: Net)
    ensures var t, frame := AfterCall(timeout, s, a, net), EncodeRequest(a.protocol, a.mode, a.body);
            t.sent == if net.connectOk && frame.Ok? && !Broken(s, net) then s.sent + Taken(frame.value, net.taken)
                      else s.sent
  {
  }

  /**
   The deadline works: a served call whose own handler runs while it reads returns the response exactly if
   all of it had arrived by then; otherwise it throws, and the socket is closed either way.
   */
  lemma DeadlineEndsCallIff(timeout: nat, s: SessionState, a: CallArgs, net: Net)
    requires timeout != 0 && s.queued == 0 && Served(a, net) && net.expires && net.during > 0
    ensures var r := Outcome(timeout, s, a, net);
            && (r == Ok(DecodeResponse(net.incoming).body) <==> net.arrived >= 4 + |DecodeResponse(net.incoming).body|)
            && (r.Error? <==> net.arrived < 4 + |DecodeResponse(net.incoming).body|)
            && !AfterCall(timeout, s, a, net).isOpen
  {
    CallReturnsIff(timeout, s, a, net);
    FrameLength(a);
  }

  lemma FrameLength(a: CallArgs)
    requires EncodeRequest(a.protocol, a.mode, a.body).Ok?
    ensures |EncodeRequest(a.protocol, a.mode, a.body).value| == 12 + |a.protocol| + |a.body|
    ensures (|a.protocol| + |a.body|) % 0x1_0000_0000 <= 8388608
  {
    ClientSendsIff(a.protocol, a.mode, a.body);
  }

  // ---- stale handlers ----

  /** The network serves the call: all of the request is taken and a whole response is delivered. */
  predicate Served(a: CallArgs, net: Net) {
    && net.connectOk && DecodeResponse(net.incoming).Body?
    && var frame := EncodeRequest(a.protocol, a.mode, a.body); frame.Ok? && net.taken >= |frame.value|
  }

  /** The same network, with another schedule of the timer thread. */
  function Scheduled(net: Net, early: nat, during: nat, arrived: nat): Net {
    net.(early := early, during := during, arrived := arrived)
  }

  /**
   A call that the network serves and whose own deadline does not pass returns the response under
   every schedule of the timer thread if and only if no handler of an earlier call is still queued.
   */
  lemma StaleHandlerIff(timeout: nat, events: seq<Event>, a: CallArgs, net: Net)
    requires Served(a, net) && !net.expires
    ensures (forall early, during, arrived ::
               Outcome(timeout, After(timeout, events), a, Scheduled(net, early, during, arrived)) == Received(net.incoming))
            <==> After(timeout, events).queued == 0
  {
    var s := After(timeout, events);
    if s.queued > 0 {
      assert Outcome(timeout, s, a, Scheduled(net, 1, 0, 0)) == Error("Write failed");
    } else {
      forall early, during, arrived
        ensures Outcome(timeout, s, a, Scheduled(net, early, during, arrived)) == Received(net.incoming)
      {
        assert Connected(s, Scheduled(net, early, during, arrived)) == s.(isOpen := true);
      }
    }
  }

  /**
   And that happens: a call whose wait completes after the response is in returns it, and its handler
   then breaks the next call, although the network serves both.
   */
  lemma StaleHandlerBreaksNextCall(timeout: nat, a: CallArgs, net: Net)
    requires timeout != 0 && Served(a, net)
    ensures var late := Scheduled(net, 0, 0, 0).(expires := true);
            var next := Scheduled(net, 1, 0, 0).(expires := false);
            var s := After(timeout, [Called(a, late)]);
            && Outcome(timeout, START, a, late) == Received(net.incoming)
            && s.queued == 1
            && Outcome(timeout, s, a, next) == Error("Write failed")
  {
    var late := Scheduled(net, 0, 0, 0).(expires := true);
    var events := [Called(a, late)];
    assert events[..0] == [];
    assert After(timeout, events) == AfterCall(timeout, START, a, late);
  }

  /** The network, when it delivers the reply of a server to all of the request. */
  function Answering<Type, V, Parser>(
    c: I.Codec<Type, V, Parser>, reg: RC.Registry<Type, V>, a: CallArgs, net: Net): Net
  {
    var frame := EncodeRequest(a.protocol, a.mode, a.body);
    if frame.Error? then net
    else
      var reply := RC.Serve(c, reg, frame.value).reply;
      net.(taken := |frame.value|, incoming := if reply.Ok? then reply.value else [])
  }

  /** Against a server, an undisturbed call returns what the end-to-end model of a remote call says. */
  lemma CallIsExchange<Type, V, Parser>(
    c: I.Codec<Type, V, Parser>, reg: RC.Registry<Type, V>, timeout: nat, s: SessionState, a: CallArgs, net: Net)
    requires net.connectOk && s.queued == 0 && !net.expires
    ensures Outcome(timeout, s, a, Answering(c, reg, a, net)) == RC.Exchange(c, reg, a.protocol, a.mode, a.body).0
  {
    assert Connected(s, Answering(c, reg, a, net)) == s.(isOpen := true);
  }

  // ---- the classes ----

  class RpcSession {
    const timer: ATimer<Callback>
    const timeoutMilli: nat
    var isOpen: bool
    var resHead: U32       // body_len of the last response header
    var body: Bytes
    var unread: Bytes      // what the socket still delivers before the stream ends
    ghost var sent: Bytes
    ghost var ran: nat

    ghost predicate Valid()
      reads this, timer
    {
      && (timer.isSingleShot || (timer.funcVec == [] && !timer.pending))
      && (timer.queued != [] ==> timer.isSingleShot && timer.funcVec != [])
      && (timer.pending ==> timer.duration == timeoutMilli)
    }

    ghost function Abs(): SessionState
      reads this, timer
    {
      SessionState(isOpen, |timer.funcVec|, timer.pending, |timer.queued|, ran, sent)
    }

    constructor (timeout: nat)
      ensures Valid() && timeoutMilli == timeout && fresh(timer)
      ensures Abs() == START
    {
      timer := new ATimer();
      timeoutMilli, isOpen, resHead, body, unread, sent, ran := timeout, false, 0, [], [], [], 0;
    }

    /** 56-60. */
    method Call(a: CallArgs, net: Net) returns (r: Result<Bytes>)
      requires Valid() && unread == net.incoming
      modifies this, timer
      ensures Valid() && Abs() == AfterTransfer(timeoutMilli, old(Abs()), a, net)
      ensures r == Transferred(timeoutMilli, old(Abs()), a, net)
    {
      var written := Write(a, net.taken);
      if written.Error? {
        return Error(written.message);
      }
      r := Read(net);
    }

    /** 62-65. */
    method Connect(net: Net) returns (r: Result<()>)
      modifies this`isOpen, this`unread
      ensures r == if net.connectOk then Ok(()) else Error("Connect failed")
      ensures isOpen == if net.connectOk then true else net.leftOpen
      ensures net.connectOk ==> unread == net.incoming
    {
      if net.connectOk {
        isOpen, unread := true, net.incoming;
        r := Ok(());
      } else {
        isOpen := net.leftOpen;
        r := Error("Connect failed");
      }
    }

    /** 67-75. */
    method Disconnect()
      modifies this`isOpen
      ensures !isOpen
    {
      if isOpen {
        isOpen := false;
      }
    }

    /** 78-110: a failed write may have sent a part. */
    method Write(a: CallArgs, taken: nat) returns (r: Result<()>)
      modifies this`sent
      ensures match EncodeRequest(a.protocol, a.mode, a.body)
              case Error(m) => r == Error(m) && sent == old(sent)
              case Ok(frame) =>
                && sent == (if isOpen then old(sent) + Taken(frame, taken) else old(sent))
                && r == if isOpen && taken >= |frame| then Ok(()) else Error("Write failed")
    {
      var protocolLen, bodyLen := CastU32(|a.protocol|), CastU32(|a.body|);
      if AddU32(protocolLen, bodyLen) > MAX_BUFFER_LEN {
        return Error("Send data is too big");
      }
      var header := EncodeRequestHeader(RequestHeader(protocolLen, bodyLen, a.mode));
      var buffer := header + a.protocol + a.body;
      if !isOpen {
        return Error("Write failed");
      }
      sent := sent + Taken(buffer, taken);
      r := if taken < |buffer| then Error("Write failed") else Ok(());
    }

    /** 153-163. */
    method StartTimer()
      requires Valid()
      modifies timer`funcVec, timer`isSingleShot, timer`pending, timer`duration
      ensures Valid()
      ensures timeoutMilli == 0 ==> timer.funcVec == old(timer.funcVec) && timer.pending == old(timer.pending)
      ensures timeoutMilli != 0 ==>
                timer.funcVec == old(timer.funcVec) + [DisconnectIt] && timer.pending && timer.duration == timeoutMilli
    {
      if timeoutMilli == 0 {
        return;
      }
      timer.Bind(DisconnectIt);
      timer.SetSingleShot(true);
      timer.Start(timeoutMilli);
    }

    /** 165-172: a queued handler is not cancelled. */
    method StopTimer()
      requires Valid()
      modifies timer`pending
      ensures Valid() && timer.pending == if timeoutMilli == 0 then old(timer.pending) else false
    {
      if timeoutMilli == 0 {
        return;
      }
      timer.Stop();
    }

    /** The timer thread: the oldest queued handler runs its callbacks one after the other. */
    method RunHandler()
      requires Valid() && timer.queued != []
      modifies this`isOpen, this`ran, timer`pending, timer`duration, timer`queued
      ensures Valid() && timer.queued == old(timer.queued)[1..]
      ensures Abs() == Disconnects(old(Abs()), |timer.funcVec|).(queued := |old(timer.queued)| - 1, ran := old(ran) + 1)
      ensures Abs() == AfterEvent(timeoutMilli, old(Abs()), Handled)
    {
      ghost var s := Abs();
      var run := timer.Handle();
      ran := ran + 1;
      var i := 0;
      while i < |run|
        invariant i <= |run| && isOpen == Disconnects(s, i).isOpen && ran == s.ran + 1
        invariant timer.queued == old(timer.queued)[1..] && timer.pending == s.pending
        invariant timer.duration == old(timer.duration)
      {
        Disconnect();
        i := i + 1;
      }
      FiringIsOneDisconnect(s, |run|);
    }

    /** The timer thread runs up to `n` queued handlers. */
    method RunHandlers(n: nat) returns (some: bool)
      requires Valid()
      modifies this`isOpen, this`ran, timer`pending, timer`duration, timer`queued
      ensures Valid() && Abs() == AfterHandlers(old(Abs()), n)
      ensures some <==> Min(n, |old(timer.queued)|) > 0
    {
      ghost var s := Abs();
      var i := 0;
      while i < n && timer.queued != []
        invariant i <= n && i <= s.queued && Valid() && timer.queued == old(timer.queued)[i..]
        invariant Abs() == AfterHandlers(s, i)
      {
        RunHandler();
        FiringIsOneDisconnect(AfterHandlers(s, i), |timer.funcVec|);
        i := i + 1;
      }
      some := i > 0;
    }

    /** 121-151: the header, its check, and the body. */
    method ReadFrame() returns (r: Result<Bytes>)
      modifies this`resHead, this`body, this`unread
      ensures r == Received(old(unread))
      ensures r.Ok? ==> unread == DecodeResponse(old(unread)).rest
    {
      if |unread| < RESPONSE_HEADER_LEN {
        return Error("End of file");
      }
      resHead := DecodeU32(unread[..RESPONSE_HEADER_LEN]);
      unread := unread[RESPONSE_HEADER_LEN..];
      if resHead > MAX_BUFFER_LEN {
        return Error("Body len is too big");
      }
      body := [];
      if |unread| < resHead {
        return Error("End of file");
      }
      body := unread[..resHead];
      unread := unread[resHead..];
      r := Ok(body);
    }

    /** 112-119: the guard stops the timer on every exit; the timer thread does what `net` says meanwhile. */
    method Read(net: Net) returns (r: Result<Bytes>)
      requires Valid() && unread == net.incoming
      modifies this`resHead, this`body, this`unread, this`isOpen, this`ran, timer
      ensures Valid() && Abs() == AfterRead(timeoutMilli, old(Abs()), net)
      ensures r == Received(Stream(timeoutMilli, old(Abs()), net))
    {
      StartTimer();
      var guard := new ScopeGuard();
      if net.expires && timeoutMilli != 0 {
        timer.Complete();
      }
      assert Abs() == AfterStart(timeoutMilli, old(Abs()), net);
      var cut := RunHandlers(net.during);
      if cut {
        unread := Taken(unread, net.arrived);
      }
      r := ReadFrame();
      var runs := guard.Destroy();
      if runs {
        StopTimer();
      }
    }
  }

  class Client {
    const session: RpcSession

    constructor (timeout: nat)
      ensures fresh(session) && fresh(session.timer) && session.Valid() && session.timeoutMilli == timeout
      ensures session.Abs() == START
    {
      session := new RpcSession(timeout);
    }

    /** call and call_raw, 60-102: connect, then call under a guard that disconnects on every exit. */
    method Call(a: CallArgs, net: Net) returns (r: Result<Bytes>)
      requires session.Valid()
      modifies session, session.timer
      ensures session.Valid()
      ensures r == Outcome(session.timeoutMilli, old(session.Abs()), a, net)
      ensures session.Abs() == AfterCall(session.timeoutMilli, old(session.Abs()), a, net)
    {
      var connected := session.Connect(net);
      if connected.Error? {
        return Error(connected.message);
      }
      var guard := new ScopeGuard();
      var early := session.RunHandlers(net.early);
      assert session.Abs() == Connected(old(session.Abs()), net);
      r := session.Call(a, net);
      var runs := guard.Destroy();
      if runs {
        session.Disconnect();
      }
    }
  }
}
