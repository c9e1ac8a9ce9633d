/**
 The class connection of easyrpc/server/connection.hpp.  Its handlers are written as in the source,
 with their guards and timer, and proved to be the connection operations of the server system.
 Owners are ghost: a handler's lambda lets go of `self` when the handler returns.
 */
module ConnectionClass {
  import opened Wrappers
  import opened Wire
  import opened ScopeGuards
  import opened ATimers
  import S = ServerSystem

  class Connection {
    const timer: ATimer<Callback>
    const timeoutMilli: nat
    var socketOpen: bool
    var head: Bytes
    var reqHead: RequestHeader
    var protocolAndBody: Bytes
    var out: Bytes             // all bytes that the network took
    ghost var phase: S.Phase
    ghost var received: Bytes
    ghost var refs: set<S.Ref>
    ghost var routed: Option<nat>

    ghost predicate Valid()
      reads this, timer
    {
      && (timeoutMilli == 0 ==> !timer.pending && timer.queued == [])
      && (timeoutMilli != 0 ==> timer.isSingleShot && timer.funcVec == [DisconnectIt])
      && |timer.queued| <= (if timer.pending then 0 else 1)
      && (timer.pending ==> timer.duration == timeoutMilli)
      && (phase == S.BodyPending ==>
            |head| == REQUEST_HEADER_LEN && received == head && reqHead == DecodeRequestHeader(head))
    }

    ghost function View(): S.Conn
      reads this, timer
    {
      S.Conn(socketOpen, phase, received,
             if timer.queued != [] then S.Expired else if timer.pending then S.Armed else S.Idle,
             refs, routed, out)
    }

    /** 24-25 and start, 33-37, up to the pending read of the header. */
    constructor (timeout: nat)
      ensures Valid() && timeoutMilli == timeout && fresh(timer)
      ensures View() == S.Fresh(S.Config(timeout, (_, _) => false, (_, _, _) => Error("")))
    {
      timer := new ATimer();
      timeoutMilli, socketOpen, head, protocolAndBody, out := timeout, true, [], [], [];
      reqHead := RequestHeader(0, 0, 0);
      phase, received, routed := S.HeadPending, [], None;
      refs := if timeout == 0 then {S.HeadReadRef} else {S.HeadReadRef, S.TimerRef};
      new;
      StartTimer();
    }

    /** 143-154. */
    method StartTimer()
      requires timer.funcVec == [] && !timer.pending && timer.queued == []
      modifies timer
      ensures timer.queued == []
      ensures timeoutMilli == 0 ==> !timer.pending
      ensures timeoutMilli != 0 ==> timer.isSingleShot && timer.funcVec == [DisconnectIt] && timer.pending
      ensures timeoutMilli != 0 ==> timer.duration == timeoutMilli
    {
      if timeoutMilli == 0 {
        return;
      }
      timer.Bind(DisconnectIt);
      timer.SetSingleShot(true);
      timer.Start(timeoutMilli);
    }

    /** 156-163: a queued handler is not cancelled. */
    method StopTimer()
      requires Valid()
      modifies timer`pending
      ensures Valid() && View() == S.StopTimer(old(View()))
    {
      if timeoutMilli == 0 {
        return;
      }
      timer.Stop();
    }

    /** 56-64. */
    method Disconnect()
      requires Valid()
      modifies this`socketOpen
      ensures Valid() && View() == S.Disconnect(old(View()))
    {
      if socketOpen {
        socketOpen := false;
      }
    }

    /** Owners let go; the last one runs the destructor, 27-31. */
    method Release(ghost gone: set<S.Ref>, last: bool)
      requires Valid() && last == (refs - gone == {})
      modifies this`refs, this`socketOpen, timer`pending
      ensures Valid() && View() == S.Release(old(View()), gone)
    {
      refs := refs - gone;
      if last {
        StopTimer();
        Disconnect();
      }
    }

    /** A read handler ends for good: what its guard does, and `self` goes. */
    method EndHandler(ghost gone: set<S.Ref>, last: bool)
      requires Valid() && last == (refs - gone == {})
      modifies this`phase, this`refs, this`socketOpen, timer`pending
      ensures Valid() && View() == S.Release(S.Disconnect(S.StopTimer(old(View()).(phase := S.Quiet))), gone)
    {
      phase := S.Quiet;
      StopTimer();
      Disconnect();
      Release(gone, last);
    }

    /** 95-100. */
    method CheckTheHead() returns (ok: bool)
      requires |head| == REQUEST_HEADER_LEN
      modifies this`reqHead
      ensures reqHead == DecodeRequestHeader(head) && ok == CheckHead(reqHead)
    {
      reqHead := DecodeRequestHeader(head);
      var len := AddU32(reqHead.protocolLen, reqHead.bodyLen);
      ok := if len > 0 && len < MAX_BUFFER_LEN then true else false;
    }

    /** 102-107: clears the buffer and posts the second read, whose lambda owns the connection. */
    method ReadProtocolAndBody()
      requires Valid() && phase == S.HeadPending && |head| == REQUEST_HEADER_LEN && reqHead == DecodeRequestHeader(head)
      modifies this`protocolAndBody, this`phase, this`received, this`refs
      ensures Valid()
      ensures View() == old(View()).(phase := S.BodyPending, received := head,
                                     refs := old(refs) - {S.HeadReadRef} + {S.BodyReadRef})
    {
      protocolAndBody := [];
      phase, received, refs := S.BodyPending, head, refs - {S.HeadReadRef} + {S.BodyReadRef};
    }

    /** 72-92: the guard stops the timer and disconnects unless it is dismissed. */
    method HeadHandler(data: Bytes, ok: bool, last: bool)
      requires Valid() && phase == S.HeadPending && (ok ==> |data| == REQUEST_HEADER_LEN)
      requires last == (refs - {S.HeadReadRef} == {})
      modifies this, timer`pending
      ensures Valid() && View() == S.AfterHead(old(View()), data, ok)
      ensures phase == S.BodyPending <==>
              old(socketOpen) && ok && 0 < Announced(DecodeRequestHeader(data)) < 8388608
      ensures phase != S.BodyPending ==> !socketOpen && !timer.pending
    {
      var guard := new ScopeGuard();
      if socketOpen && ok {
        head := data;
        var accepted := CheckTheHead();
        if accepted {
          ReadProtocolAndBody();
          guard.Dismiss();
        }
      }
      var runs := guard.Destroy();
      if runs {
        EndHandler({S.HeadReadRef}, last);
      }
    }

    /** 124-126: the two pieces of the buffer go to route, which may or may not find a handler. */
    method HandOn(data: Bytes, bound: (Bytes, U32) -> bool, ghost k: nat) returns (request: Result<(Bytes, U32, Bytes)>)
      requires Valid() && phase == S.BodyPending && S.BodyFits(View(), data)
      modifies this`protocolAndBody, this`phase, this`received, this`routed, this`refs
      ensures Valid()
      ensures var n, mode := reqHead.protocolLen, reqHead.mode;
              if bound(data[..n], mode)
              then request == Ok((data[..n], mode, data[n..])) && View() == S.HandedOn(old(View()), data, k)
              else request.Error? && View() == old(View())
    {
      protocolAndBody := data;
      var protocol := protocolAndBody[..reqHead.protocolLen];
      var body := protocolAndBody[reqHead.protocolLen..];
      if bound(protocol, reqHead.mode) {
        request := Ok((protocol, reqHead.mode, body));
        phase, received, routed := S.Routing(k), received + data, Some(k);
        refs := refs - {S.BodyReadRef} + {S.HandlerRef, S.TaskRef(k)};
      } else {
        request := Error("Router failed");
      }
    }

    /** Stopping the timer before the guard does it again makes no difference. */
    static lemma StoppedTwice(c: S.Conn)
      ensures S.StopTimer(S.StopTimer(c).(phase := S.Quiet)) == S.StopTimer(c.(phase := S.Quiet))
    {
    }

    /**
     108-133: stops the timer; hands the pieces to route; its guard disconnects unless that succeeds.
     `bound` says what route finds for the pieces that it is given, `k` is the call of add_task.
     */
    method BodyHandler(data: Bytes, ok: bool, bound: (Bytes, U32) -> bool, ghost k: nat, last: bool)
      returns (request: Result<(Bytes, U32, Bytes)>)
      requires Valid() && phase == S.BodyPending && (ok ==> S.BodyFits(View(), data))
      requires last == (refs - {S.BodyReadRef} == {})
      modifies this, timer`pending
      ensures Valid()
      ensures var n, mode := old(reqHead).protocolLen, old(reqHead).mode;
              if old(socketOpen) && ok && bound(data[..n], mode)
              then request == Ok((data[..n], mode, data[n..])) && View() == S.AfterBodyRouted(old(View()), data, k)
              else request.Error? && View() == S.AfterBodyFailure(old(View()))
      ensures if request.Ok? then phase == S.Routing(k) && routed == Some(k) && received == old(head) + data && socketOpen
              else phase == S.Quiet && routed == old(routed) && !socketOpen
      ensures !timer.pending
    {
      ghost var before := View();
      StopTimer();
      assert View() == S.StopTimer(before);
      StoppedTwice(before);
      if !socketOpen {
        EndHandler({S.BodyReadRef}, last);
        return Error("Socket is not open");
      }
      var guard := new ScopeGuard();
      request := Error("read failed");
      if ok {
        request := HandOn(data, bound, k);
        if request.Ok? {
          guard.Dismiss();
        }
      }
      var runs := guard.Destroy();
      if runs {
        EndHandler({S.BodyReadRef}, last);
      }
    }

    /** 44-54 with 173-181: throws when the body is too big or the socket does not take all bytes. */
    method Write(body: Bytes, taken: nat) returns (r: Result<()>)
      requires Valid()
      modifies this`out
      ensures Valid()
      ensures var frame := EncodeResponse(body);
              if frame.Ok? && socketOpen
              then out == old(out) + Taken(frame.value, taken) && (r.Ok? <==> taken >= |frame.value|)
              else r.Error? && out == old(out)
    {
      var bodyLen := CastU32(|body|);
      if bodyLen > MAX_BUFFER_LEN {
        return Error("Send data is too big");
      }
      if !socketOpen {
        return Error("Bad file descriptor");
      }
      var buffer := EncodeU32(bodyLen) + body;
      if taken < |buffer| {
        out := out + buffer[..taken];
        return Error("Write failed");
      }
      out := out + buffer;
      r := Ok(());
    }

    /** The end of a task, easyrpc/server/router.hpp:26-40: write the result, or disconnect on an exception. */
    method EndTask(result: Result<Bytes>, taken: nat)
      requires Valid()
      modifies this`out, this`socketOpen
      ensures Valid()
      ensures var reply := if result.Ok? then EncodeResponse(result.value) else Error(result.message);
              View() == S.AfterTask(old(View()), reply, taken)
      ensures socketOpen <==> old(socketOpen) && result.Ok? && |result.value| % 0x1_0000_0000 <= 8388608
                              && taken >= 4 + |result.value|
    {
      var written := Error("exception");
      if result.Ok? {
        written := Write(result.value, taken);
      }
      if written.Error? {
        Disconnect();
      }
    }

    /** The deadline passes: the wait completes and its handler is queued. */
    method DeadlinePasses()
      requires Valid() && timer.pending
      modifies timer`pending, timer`queued
      ensures Valid() && View() == old(View()).(timer := S.Expired)
    {
      timer.Complete();
    }

    /** The queued handler runs its callbacks, 151. */
    method TimerHandler()
      requires Valid() && timer.queued != []
      modifies this`socketOpen, timer`pending, timer`duration, timer`queued
      ensures Valid() && View() == S.Disconnect(old(View()).(timer := S.Idle))
    {
      var callbacks := timer.Handle();
      var i := 0;
      while i < |callbacks|
        invariant i <= |callbacks| && Valid()
        invariant View() == if i == 0 then old(View()).(timer := S.Idle) else S.Disconnect(old(View()).(timer := S.Idle))
      {
        Disconnect();
        i := i + 1;
      }
    }
  }
}
