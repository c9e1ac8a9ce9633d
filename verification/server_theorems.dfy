/**
 The life of a connection over whole runs of the server: when it is routed, owned, open and closed.
 */
module ServerTheorems {
  import opened Wrappers
  import opened Wire
  import P = PoolModel
  import PP = PoolProgress
  import opened ServerSystem
  import opened ServerInvariants

  // ---- the life of a connection ----

  /**
   In every reachable state a connection has been routed for at most one call; a connection whose
   read handlers are done without routing is closed; and an unrouted one has been sent nothing.
   */
  lemma ConnectionSafety(cfg: Config, workers: nat, s: State, c: nat)
    requires Reachable(cfg, workers, s) && c < |s.conns|
    ensures forall j, k :: 0 <= j < |s.requests| && 0 <= k < |s.requests| && s.requests[j].conn == c && s.requests[k].conn == c
                           ==> j == k
    ensures s.conns[c].phase == Quiet && s.conns[c].routed == None ==> !s.conns[c].open
    ensures s.conns[c].routed == None ==> s.conns[c].written == []
  {
    ReachableInv(cfg, workers, s);
    assert ConnOk(cfg, s, c);
    forall j, k | 0 <= j < |s.requests| && 0 <= k < |s.requests| && s.requests[j].conn == c && s.requests[k].conn == c
      ensures j == k
    {
      assert RequestOk(cfg, s, j) && RequestOk(cfg, s, k);
    }
  }

  lemma StepClosed(cfg: Config, s: State, a: Action, c: nat)
    requires Enabled(s, a) && c < |s.conns| && !s.conns[c].open
    ensures var t := Apply(cfg, s, a);
            && c < |t.conns| && !t.conns[c].open
            && t.conns[c].routed == s.conns[c].routed && t.conns[c].written == s.conns[c].written
  {
  }

  /** Once its socket is closed, a connection is never routed and never written to again. */
  lemma {:induction false} NeverRoutedAfterClose(cfg: Config, s: State, acts: seq<Action>, t: State, c: nat)
    requires IsRun(cfg, s, acts, t) && c < |s.conns| && !s.conns[c].open
    ensures c < |t.conns| && !t.conns[c].open
    ensures t.conns[c].routed == s.conns[c].routed && t.conns[c].written == s.conns[c].written
    decreases |acts|
  {
    if acts != [] {
      StepClosed(cfg, s, acts[0], c);
      NeverRoutedAfterClose(cfg, Apply(cfg, s, acts[0]), acts[1..], t, c);
    }
  }

  /** No read pending, no handler running, and no call of it in add_task, in the queue or in a worker. */
  ghost predicate Unattended(s: State, c: nat)
    requires c < |s.conns|
  {
    && s.conns[c].phase == Quiet
    && (s.conns[c].routed.Some? ==> !Pending(s.pool, s.conns[c].routed.value))
  }

  /**
   An unattended connection has no owner left and is closed when the timeout is 0; with any other
   timeout the callback that it bound to its own timer still owns it, and it is never destroyed.
   */
  lemma UnattendedIsClosed(cfg: Config, workers: nat, s: State, c: nat)
    requires Reachable(cfg, workers, s) && c < |s.conns| && Unattended(s, c)
    ensures s.conns[c].refs == if cfg.timeout == 0 then {} else {TimerRef}
    ensures cfg.timeout == 0 ==> !s.conns[c].open
  {
    ReachableInv(cfg, workers, s);
    assert ConnOk(cfg, s, c);
  }

  // ---- after the answer ----

  /** Its task has returned, its timer is idle, and its own timer callback still owns it. */
  ghost predicate Settled(cfg: Config, s: State, c: nat) {
    && cfg.timeout != 0 && c < |s.conns| && s.conns[c].open && s.conns[c].timer == Idle
    && s.conns[c].routed.Some? && s.conns[c].routed.value in s.pool.finished
  }

  lemma StepSettled(cfg: Config, s: State, a: Action, c: nat)
    requires Inv(cfg, s) && Settled(cfg, s, c) && Enabled(s, a)
    ensures Settled(cfg, Apply(cfg, s, a), c)
  {
    if a.PoolStep? {
      PoolStepSettled(cfg, s, a.a, a.taken, c);
    } else {
      assert ConnOk(cfg, s, c);
    }
  }

  lemma PoolStepSettled(cfg: Config, s: State, pa: P.Action, taken: nat, c: nat)
    requires Inv(cfg, s) && Settled(cfg, s, c) && P.Enabled(s.pool, pa) && pa != P.Call
    ensures Settled(cfg, DoPoolStep(cfg, s, pa, taken), c)
  {
    assert ConnOk(cfg, s, c);
    PoolStepEffect(cfg, s, pa, taken, c);
  }

  lemma {:induction false} RunSettled(cfg: Config, s: State, acts: seq<Action>, t: State, c: nat)
    requires Inv(cfg, s) && Settled(cfg, s, c) && IsRun(cfg, s, acts, t)
    ensures Settled(cfg, t, c)
    decreases |acts|
  {
    if acts != [] {
      StepSettled(cfg, s, acts[0], c);
      StepInv(cfg, s, acts[0]);
      RunSettled(cfg, Apply(cfg, s, acts[0]), acts[1..], t, c);
    }
  }

  /** Connection `c` is open now and after every continuation. */
  ghost predicate StaysOpen(cfg: Config, s: State, c: nat) {
    forall acts, t :: IsRun(cfg, s, acts, t) ==> c < |t.conns| && t.conns[c].open
  }

  lemma NotAfter(cfg: Config, s: State, a: Action, c: nat)
    requires Enabled(s, a) && !StaysOpen(cfg, Apply(cfg, s, a), c)
    ensures !StaysOpen(cfg, s, c)
  {
    var acts, t :| IsRun(cfg, Apply(cfg, s, a), acts, t) && !(c < |t.conns| && t.conns[c].open);
    var longer := [a] + acts;
    assert longer[1..] == acts;
    assert IsRun(cfg, s, longer, t);
  }

  lemma NotNow(cfg: Config, s: State, c: nat)
    requires c < |s.conns| && !s.conns[c].open
    ensures !StaysOpen(cfg, s, c)
  {
    assert IsRun(cfg, s, [], s);
  }

  /** A quiet connection whose expiry is queued will be closed by it; without a timeout it is closed already. */
  lemma QuietCloses(cfg: Config, s: State, c: nat)
    requires Inv(cfg, s) && c < |s.conns| && s.conns[c].phase == Quiet
    requires s.conns[c].routed.Some? && !Pending(s.pool, s.conns[c].routed.value)
    requires cfg.timeout == 0 || s.conns[c].timer != Idle
    ensures !StaysOpen(cfg, s, c)
  {
    assert ConnOk(cfg, s, c);
    if cfg.timeout == 0 {
      NotNow(cfg, s, c);
    } else {
      NotNow(cfg, Apply(cfg, s, TimerFires(c)), c);
      NotAfter(cfg, s, TimerFires(c), c);
    }
  }

  /** So is one whose body handler has still to return from add_task. */
  lemma ReturnsAndCloses(cfg: Config, s: State, c: nat)
    requires Inv(cfg, s) && c < |s.conns| && Enabled(s, RouteReturns(c))
    requires s.conns[c].routed.Some? && !Pending(s.pool, s.conns[c].routed.value)
    requires cfg.timeout == 0 || s.conns[c].timer != Idle
    ensures !StaysOpen(cfg, s, c)
  {
    assert ConnOk(cfg, s, c);
    var a := RouteReturns(c);
    var t := Apply(cfg, s, a);
    StepInv(cfg, s, a);
    if t.conns[c].open {
      QuietCloses(cfg, t, c);
    } else {
      NotNow(cfg, t, c);
    }
    NotAfter(cfg, s, a, c);
  }

  lemma FinishedCall(pool: P.State, k: nat)
    requires PoolOk(pool) && k in pool.finished
    ensures k < |pool.producers| && pool.producers[k] in {P.PNotifying, P.PDone}
  {
    PoolInv(pool);
    assert k in pool.started && k in pool.popped && k in pool.accepted;
  }

  /** The call has been taken, run and let go before its add_task has notified: it notifies now. */
  lemma NotifiesAndCloses(cfg: Config, s: State, c: nat, k: nat)
    requires Inv(cfg, s) && c < |s.conns| && s.conns[c].phase == Routing(k) && !Pending(s.pool, k)
    requires k < |s.pool.producers| && s.pool.producers[k] == P.PNotifying
    requires cfg.timeout == 0 || s.conns[c].timer != Idle
    ensures !StaysOpen(cfg, s, c)
  {
    assert ConnOk(cfg, s, c);
    var wake := PP.PickWorker(s.pool);
    var a := PoolStep(P.StepP(k, wake), 0);
    var t := Apply(cfg, s, a);
    StepInv(cfg, s, a);
    NotifyingDrops(s, k, wake, c);
    PoolNotifiesOnce(s.pool);
    PendingStep(s.pool, P.StepP(k, wake), k);
    ReturnsAndCloses(cfg, t, c);
    NotAfter(cfg, s, a, c);
  }

  lemma NotifyingDrops(s: State, k: nat, wake: Option<nat>, c: nat)
    requires k < |s.pool.producers| && s.pool.producers[k] == P.PNotifying && P.CanStepP(s.pool, k, wake)
    ensures Dropped(s, P.StepP(k, wake), c) == {}
    ensures P.DoStepP(s.pool, k, wake).producers[k] == P.PDone && P.DoStepP(s.pool, k, wake).finished == s.pool.finished
  {
  }

  /** The worker has let go of the closure. */
  lemma LetGoCloses(cfg: Config, s: State, c: nat)
    requires Inv(cfg, s) && c < |s.conns| && s.conns[c].routed.Some? && s.conns[c].routed.value in s.pool.finished
    requires !Pending(s.pool, s.conns[c].routed.value)
    requires cfg.timeout == 0 || s.conns[c].timer != Idle
    ensures !StaysOpen(cfg, s, c)
  {
    assert ConnOk(cfg, s, c);
    var k := s.conns[c].routed.value;
    FinishedCall(s.pool, k);
    if s.conns[c].phase == Quiet {
      QuietCloses(cfg, s, c);
    } else if s.pool.producers[k] == P.PDone {
      ReturnsAndCloses(cfg, s, c);
    } else {
      NotifiesAndCloses(cfg, s, c, k);
    }
  }

  lemma AnsweredCloses(cfg: Config, s: State, c: nat)
    requires Inv(cfg, s) && c < |s.conns| && s.conns[c].routed.Some? && s.conns[c].routed.value in s.pool.finished
    requires cfg.timeout == 0 || s.conns[c].timer != Idle
    ensures !StaysOpen(cfg, s, c)
  {
    var k := s.conns[c].routed.value;
    if Pending(s.pool, k) {
      var w :| 0 <= w < |s.pool.workers| == |s.pool.held| && s.pool.workers[w] == P.WNotifying && s.pool.held[w] == k;
      var wake := PP.PickProducer(s.pool);
      EndsAndCloses(cfg, s, c, k, w, wake);
    } else {
      LetGoCloses(cfg, s, c);
    }
  }

  /** The worker that still holds the closure notifies and lets go. */
  lemma EndsAndCloses(cfg: Config, s: State, c: nat, k: nat, w: nat, wake: Option<nat>)
    requires Inv(cfg, s) && c < |s.conns| && s.conns[c].routed == Some(k) && k in s.pool.finished
    requires P.CanStepW(s.pool, w, wake) && s.pool.workers[w] == P.WNotifying && s.pool.held[w] == k
    requires cfg.timeout == 0 || s.conns[c].timer != Idle
    ensures !StaysOpen(cfg, s, c)
  {
    var pa := P.StepW(w, wake);
    var t := Apply(cfg, s, PoolStep(pa, 0));
    StepInv(cfg, s, PoolStep(pa, 0));
    PoolNotifiesOnce(s.pool);
    PendingStep(s.pool, pa, k);
    PoolStepEffect(cfg, s, pa, 0, c);
    if t.conns[c].open {
      LetGoCloses(cfg, t, c);
    } else {
      NotNow(cfg, t, c);
    }
    NotAfter(cfg, s, PoolStep(pa, 0), c);
  }

  /**
   A connection that is open when its task ends stays open in every continuation if and only if its
   reply goes out in full, the timeout is not 0, and its deadline has not completed: a queued
   expiry closes it even after the answer.
   */
  lemma AnsweredStaysOpenIff(cfg: Config, workers: nat, s: State, pa: P.Action, taken: nat)
    requires Reachable(cfg, workers, s) && P.Enabled(s.pool, pa) && Finishes(s, pa)
    requires s.conns[s.requests[s.pool.held[pa.w]].conn].open
    ensures var c, reply := s.requests[s.pool.held[pa.w]].conn, ReplyOf(cfg, s, pa);
            StaysOpen(cfg, Apply(cfg, s, PoolStep(pa, taken)), c) <==>
            reply.Ok? && taken >= |reply.value| && cfg.timeout != 0 && s.conns[c].timer == Idle
  {
    ReachableInv(cfg, workers, s);
    var k := s.pool.held[pa.w];
    var c, reply := s.requests[k].conn, ReplyOf(cfg, s, pa);
    var u := Apply(cfg, s, PoolStep(pa, taken));
    assert RequestOk(cfg, s, k);
    assert ConnOk(cfg, s, c);
    FinishPending(s.pool, pa, k);
    StepInv(cfg, s, PoolStep(pa, taken));
    if !u.conns[c].open {
      NotNow(cfg, u, c);
    } else if cfg.timeout == 0 || s.conns[c].timer != Idle {
      AnsweredCloses(cfg, u, c);
    } else {
      forall acts, t | IsRun(cfg, u, acts, t) ensures c < |t.conns| && t.conns[c].open {
        RunSettled(cfg, u, acts, t, c);
      }
    }
  }

  // ---- both outcomes occur ----

  lemma {:induction false} RunExtend(cfg: Config, s: State, acts: seq<Action>, t: State, a: Action)
    requires IsRun(cfg, s, acts, t) && Enabled(t, a)
    ensures IsRun(cfg, s, acts + [a], Apply(cfg, t, a))
    decreases |acts|
  {
    if acts == [] {
      assert IsRun(cfg, Apply(cfg, s, a), [], Apply(cfg, t, a));
      assert ([a])[1..] == [];
    } else {
      RunExtend(cfg, Apply(cfg, s, acts[0]), acts[1..], t, a);
      assert (acts + [a])[1..] == acts[1..] + [a];
    }
  }

  lemma Step(cfg: Config, workers: nat, s: State, a: Action) returns (t: State)
    requires Reachable(cfg, workers, s) && Enabled(s, a)
    ensures t == Apply(cfg, s, a) && Reachable(cfg, workers, t)
  {
    t := Apply(cfg, s, a);
    var acts :| IsRun(cfg, Init(workers), acts, s);
    RunExtend(cfg, Init(workers), acts, s, a);
  }

  /** A step of a pool that runs, other than the last two of a task, moves nothing but the pool. */
  lemma PoolOnly(cfg: Config, workers: nat, s: State, pa: P.Action) returns (t: State)
    requires Reachable(cfg, workers, s) && P.Enabled(s.pool, pa) && pa != P.Call && pa != P.SetStop
    requires s.pool.stopper == P.SIdle && !s.pool.stop
    requires !(pa.StepW? && s.pool.workers[pa.w] in {P.WRunning, P.WNotifying})
    ensures t == s.(pool := P.Apply(s.pool, pa)) && Reachable(cfg, workers, t)
  {
    t := Step(cfg, workers, s, PoolStep(pa, 0));
    assert forall c :: 0 <= c < |s.conns| ==> Dropped(s, pa, c) == {};
    assert t.conns == s.conns;
  }

  /** One connection is accepted and delivers a header; its deadline, if any, may complete before the second read does. */
  lemma HeadDelivered(cfg: Config, workers: nat, h: RequestHeader, late: bool) returns (s: State)
    requires CheckHead(h) && (late ==> cfg.timeout != 0)
    ensures Reachable(cfg, workers, s)
    ensures var timer := if cfg.timeout == 0 then Idle else if late then Expired else Armed;
            var refs := if cfg.timeout == 0 then {BodyReadRef} else {BodyReadRef, TimerRef};
            s == Init(workers).(conns := [Conn(true, BodyPending, EncodeRequestHeader(h), timer, refs, None, [])])
  {
    var head := EncodeRequestHeader(h);
    HeaderRoundTrip(h, head);
    assert IsRun(cfg, Init(workers), [], Init(workers));
    s := Step(cfg, workers, Init(workers), Accept);
    s := Step(cfg, workers, s, HeadDone(0, head, true));
    assert s.conns[0].refs == if cfg.timeout == 0 then {BodyReadRef} else {BodyReadRef, TimerRef};
    if late {
      s := Step(cfg, workers, s, TimerExpires(0));
    }
  }

  /** And then the body, which is routed. */
  lemma Delivered(cfg: Config, workers: nat, protocol: Bytes, mode: U32, body: Bytes, late: bool) returns (s: State)
    requires cfg.routable(protocol, mode) && 0 < |protocol| + |body| < MAX_BUFFER_LEN && (late ==> cfg.timeout != 0)
    ensures Reachable(cfg, workers, s) && s.pool == P.Apply(P.Init(workers), P.Call)
    ensures s.requests == [Request(0, protocol, mode, body)] && |s.conns| == 1 && s.conns[0].routed == Some(0)
    ensures s.conns[0].open && s.conns[0].phase == Routing(0) && s.conns[0].timer == if late then Expired else Idle
  {
    var h := RequestHeader(|protocol|, |body|, mode);
    HeaderRoundTrip(h, EncodeRequestHeader(h));
    s := HeadDelivered(cfg, workers, h, late);
    var data := protocol + body;
    assert data[..|protocol|] == protocol && data[|protocol|..] == body;
    s := Step(cfg, workers, s, BodyDone(0, data, true));
  }

  /** The call hands its task over and notifies; nobody sleeps. */
  lemma HandedOver(cfg: Config, workers: nat, s: State) returns (t: State)
    requires Reachable(cfg, workers, s) && s.pool == P.Apply(P.Init(workers), P.Call)
    ensures Reachable(cfg, workers, t)
    ensures t == s.(pool := P.Init(workers).(producers := [P.PDone], queue := [0], accepted := [0]))
  {
    var a := P.StepP(0, None);
    t := PoolOnly(cfg, workers, s, a);
    t := PoolOnly(cfg, workers, t, a);
    t := PoolOnly(cfg, workers, t, a);
    t := PoolOnly(cfg, workers, t, a);
    t := PoolOnly(cfg, workers, t, a);
    assert t.pool.producers == [P.PDone];
  }

  /** The first worker takes the task and is about to return from it. */
  lemma Running(cfg: Config, workers: nat, s: State) returns (t: State)
    requires workers >= 1 && Reachable(cfg, workers, s)
    requires s.pool == P.Init(workers).(producers := [P.PDone], queue := [0], accepted := [0])
    ensures Reachable(cfg, workers, t)
    ensures t.conns == s.conns && t.requests == s.requests
    ensures |t.pool.workers| == |t.pool.held| == workers && t.pool.workers[0] == P.WRunning && t.pool.held[0] == 0
  {
    var a := P.StepW(0, None);
    t := PoolOnly(cfg, workers, s, a);
    t := PoolOnly(cfg, workers, t, a);
    t := PoolOnly(cfg, workers, t, a);
    t := PoolOnly(cfg, workers, t, a);
    t := PoolOnly(cfg, workers, t, a);
  }

  /** With a timeout and any request that is answered, both outcomes of `AnsweredStaysOpenIff` occur. */
  lemma BothOutcomesOccur(cfg: Config, workers: nat, protocol: Bytes, mode: U32, body: Bytes, late: bool)
    returns (s: State, pa: P.Action)
    requires workers >= 1 && cfg.timeout != 0
    requires cfg.routable(protocol, mode) && cfg.reply(protocol, mode, body).Ok? && 0 < |protocol| + |body| < MAX_BUFFER_LEN
    ensures Reachable(cfg, workers, s) && P.Enabled(s.pool, pa) && Finishes(s, pa)
    ensures s.conns[s.requests[s.pool.held[pa.w]].conn].open
    ensures var c, answered := s.requests[s.pool.held[pa.w]].conn, |cfg.reply(protocol, mode, body).value|;
            StaysOpen(cfg, Apply(cfg, s, PoolStep(pa, answered)), c) <==> !late
  {
    s := Delivered(cfg, workers, protocol, mode, body, late);
    s := HandedOver(cfg, workers, s);
    s := Running(cfg, workers, s);
    pa := P.StepW(0, None);
    AnsweredStaysOpenIff(cfg, workers, s, pa, |cfg.reply(protocol, mode, body).value|);
  }

  /**
   With a timeout, an open connection that has not been routed always has its deadline running or its
   expiry about to be handled; a routed one has its deadline cancelled; without a timeout there is none.
   */
  lemma DeadlineGuardsReads(cfg: Config, workers: nat, s: State, c: nat)
    requires Reachable(cfg, workers, s) && c < |s.conns|
    ensures cfg.timeout != 0 && s.conns[c].open && s.conns[c].routed == None ==> s.conns[c].timer != Idle
    ensures s.conns[c].routed.Some? ==> s.conns[c].timer != Armed
    ensures cfg.timeout == 0 ==> s.conns[c].timer == Idle
  {
    ReachableInv(cfg, workers, s);
    assert ConnOk(cfg, s, c);
  }

  // ---- what each handler decides ----

  /** The second read is posted exactly on an open socket, after a header whose length is above 0 and below 8 MiB. */
  lemma HeadIsReadOnIff(cfg: Config, s: State, c: nat, data: Bytes, ok: bool)
    requires Enabled(s, HeadDone(c, data, ok))
    ensures var before, after := s.conns[c], Apply(cfg, s, HeadDone(c, data, ok)).conns[c];
            && (after.phase == BodyPending <==>
                  before.open && ok && 0 < Announced(DecodeRequestHeader(data)) < 8388608)
            && (after.phase == BodyPending ==>
                  after.open && after.received == data && after.timer == before.timer)
            && (after.phase != BodyPending ==> after.phase == Quiet && !after.open && after.timer != Armed)
            && after.routed == before.routed && after.written == before.written
  {
  }

  /** A request is routed exactly from an open socket and for a bound name; it is what the bytes say, and its deadline is stopped. */
  lemma BodyIsRoutedIff(cfg: Config, s: State, c: nat, data: Bytes, ok: bool)
    requires Inv(cfg, s) && Enabled(s, BodyDone(c, data, ok))
    ensures var before, t := s.conns[c], Apply(cfg, s, BodyDone(c, data, ok));
            && (t.conns[c].routed.Some? <==>
                  before.open && ok && cfg.routable(data[..HeaderOf(before).protocolLen], HeaderOf(before).mode))
            && (if t.conns[c].routed.Some? then
                  var h := DecodeRequestHeader(before.received);
                  && t.requests == s.requests + [Request(c, data[..h.protocolLen], h.mode, data[h.protocolLen..])]
                  && |t.pool.producers| == |s.pool.producers| + 1 && t.conns[c].routed == Some(|s.requests|)
                  && t.conns[c].open && t.conns[c].received == before.received + data
                else
                  && t.requests == s.requests && t.pool == s.pool && !t.conns[c].open && t.conns[c].phase == Quiet)
            && t.conns[c].timer != Armed && (before.timer == Expired ==> t.conns[c].timer == Expired)
  {
    assert ConnOk(cfg, s, c);
  }

  /** How often the deadline of connection `c` fires in a run. */
  function TimesFired(acts: seq<Action>, c: nat): nat {
    if acts == [] then 0 else (if acts[0] == TimerFires(c) then 1 else 0) + TimesFired(acts[1..], c)
  }

  /** The most often it may still fire. */
  function FiresLeft(cfg: Config, s: State, c: nat): nat {
    if c < |s.conns| then if s.conns[c].timer == Idle then 0 else 1
    else if cfg.timeout == 0 then 0 else 1
  }

  lemma StepFires(cfg: Config, s: State, a: Action, c: nat)
    requires Enabled(s, a)
    ensures FiresLeft(cfg, Apply(cfg, s, a), c) + (if a == TimerFires(c) then 1 else 0) <= FiresLeft(cfg, s, c)
  {
  }

  /** The deadline is single-shot: in every run it fires at most once on each connection, and never with timeout 0. */
  lemma {:induction false} DeadlineFiresOnce(cfg: Config, s: State, acts: seq<Action>, t: State, c: nat)
    requires IsRun(cfg, s, acts, t)
    ensures TimesFired(acts, c) + FiresLeft(cfg, t, c) <= FiresLeft(cfg, s, c) <= 1
    decreases |acts|
  {
    if acts != [] {
      StepFires(cfg, s, acts[0], c);
      DeadlineFiresOnce(cfg, Apply(cfg, s, acts[0]), acts[1..], t, c);
    }
  }

  // ---- the body handler is inside add_task ----

  /** The call of a connection whose body handler has returned has itself returned. */
  ghost predicate Returned(s: State, c: nat) {
    c < |s.conns| && s.conns[c].routed.Some? && !s.conns[c].phase.Routing? ==>
      var k := s.conns[c].routed.value;
      k < |s.pool.producers| && s.pool.producers[k] in {P.PDone, P.PRefused}
  }

  lemma DoneStays(pool: P.State, pa: P.Action, k: nat)
    requires P.Enabled(pool, pa) && k < |pool.producers| && pool.producers[k] in {P.PDone, P.PRefused}
    ensures var t := P.Apply(pool, pa); k < |t.producers| && t.producers[k] == pool.producers[k]
  {
    if pa.StepP? {
      DoneStaysP(pool, pa.p, pa.wake, k);
    } else if pa.StepW? {
      DoneStaysW(pool, pa.w, pa.wake, k);
    }
  }

  lemma DoneStaysP(pool: P.State, p: nat, wake: Option<nat>, k: nat)
    requires P.CanStepP(pool, p, wake) && k < |pool.producers| && pool.producers[k] in {P.PDone, P.PRefused}
    ensures var t := P.DoStepP(pool, p, wake); k < |t.producers| && t.producers[k] == pool.producers[k]
  {
  }

  lemma DoneStaysW(pool: P.State, w: nat, wake: Option<nat>, k: nat)
    requires P.CanStepW(pool, w, wake) && k < |pool.producers| && pool.producers[k] in {P.PDone, P.PRefused}
    ensures var t := P.DoStepW(pool, w, wake); k < |t.producers| && t.producers[k] == pool.producers[k]
  {
  }

  lemma PoolStepReturned(cfg: Config, s: State, pa: P.Action, taken: nat, c: nat)
    requires Inv(cfg, s) && Returned(s, c) && P.Enabled(s.pool, pa) && pa != P.Call && c < |s.conns|
    ensures Returned(DoPoolStep(cfg, s, pa, taken), c)
  {
    PoolStepEffect(cfg, s, pa, taken, c);
    if s.conns[c].routed.Some? && !s.conns[c].phase.Routing? {
      DoneStays(s.pool, pa, s.conns[c].routed.value);
    }
  }

  lemma HandlerStepReturned(cfg: Config, s: State, a: Action, c: nat)
    requires Inv(cfg, s) && Returned(s, c) && Enabled(s, a) && !a.PoolStep?
    ensures Returned(Apply(cfg, s, a), c)
  {
    if c < |s.conns| {
      assert ConnOk(cfg, s, c);
    }
  }

  lemma StepReturned(cfg: Config, s: State, a: Action, c: nat)
    requires Inv(cfg, s) && Returned(s, c) && Enabled(s, a)
    ensures Returned(Apply(cfg, s, a), c)
  {
    if !a.PoolStep? {
      HandlerStepReturned(cfg, s, a, c);
    } else if c < |s.conns| {
      PoolStepReturned(cfg, s, a.a, a.taken, c);
    } else {
      assert |Apply(cfg, s, a).conns| == |s.conns|;
    }
  }

  lemma {:induction false} RunReturned(cfg: Config, s: State, acts: seq<Action>, t: State, c: nat)
    requires Inv(cfg, s) && Returned(s, c) && IsRun(cfg, s, acts, t)
    ensures Returned(t, c)
    decreases |acts|
  {
    if acts != [] {
      StepReturned(cfg, s, acts[0], c);
      StepInv(cfg, s, acts[0]);
      RunReturned(cfg, Apply(cfg, s, acts[0]), acts[1..], t, c);
    }
  }

  /**
   A body handler returns exactly when its call of add_task has: never before, and always afterwards,
   so that when the threads are at rest only a call asleep on a full queue keeps its handler.
   */
  lemma HandlerReturnsWithCall(cfg: Config, workers: nat, s: State, c: nat)
    requires Reachable(cfg, workers, s) && c < |s.conns| && s.conns[c].routed.Some?
    ensures var k := s.conns[c].routed.value;
            && k < |s.pool.producers|
            && (s.conns[c].phase == Quiet ==> s.pool.producers[k] in {P.PDone, P.PRefused})
            && (s.conns[c].phase != Quiet ==> s.conns[c].phase == Routing(k))
            && (s.conns[c].phase == Routing(k) && P.Quiescent(s.pool) && s.pool.producers[k] != P.PSleeping ==>
                  Enabled(s, RouteReturns(c)))
  {
    var acts :| IsRun(cfg, Init(workers), acts, s);
    InitInv(cfg, workers);
    RunReturned(cfg, Init(workers), acts, s, c);
    ReachableInv(cfg, workers, s);
    assert ConnOk(cfg, s, c);
    PoolInv(s.pool);
    if P.Quiescent(s.pool) {
      PP.QuiescentShape(s.pool);
    }
  }

  /** While the body handler is inside add_task, nothing but its own task closes the connection; a queued expiry waits. */
  lemma OnlyTheTaskCloses(cfg: Config, s: State, a: Action, c: nat)
    requires Inv(cfg, s) && Enabled(s, a) && c < |s.conns| && s.conns[c].open && s.conns[c].phase.Routing?
    requires !Apply(cfg, s, a).conns[c].open
    ensures (a.PoolStep? && FinishesFor(s, a.a, c)) || a == RouteReturns(c)
  {
    assert ConnOk(cfg, s, c);
    if a.PoolStep? {
      PoolStepEffect(cfg, s, a.a, a.taken, c);
    }
  }
}
