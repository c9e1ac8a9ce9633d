/**
 Answers over whole runs of the server: when a routed call gets its reply, that it is the reply its
 own bytes deserve, and that a remote call among any number of others is a local call.
 */
module ServerAnswers {
  import opened Wrappers
  import opened Wire
  import I = Invoker
  import RC = RemoteCall
  import P = PoolModel
  import PI = PoolInvariants
  import PP = PoolProgress
  import opened ServerSystem
  import opened ServerInvariants
  import opened ServerTheorems

  // ---- what is written is final ----

  lemma StepWritten(cfg: Config, s: State, a: Action, c: nat)
    requires Inv(cfg, s) && Enabled(s, a) && c < |s.conns|
    requires s.conns[c].routed.Some? && s.conns[c].routed.value in s.pool.finished
    ensures var t := Apply(cfg, s, a);
            && c < |t.conns| && t.conns[c].routed == s.conns[c].routed && t.conns[c].received == s.conns[c].received
            && t.conns[c].written == s.conns[c].written && s.conns[c].routed.value in t.pool.finished
  {
    assert ConnOk(cfg, s, c);
    if a.PoolStep? {
      PoolStepEffect(cfg, s, a.a, a.taken, c);
    }
  }

  lemma {:induction false} RunWritten(cfg: Config, s: State, acts: seq<Action>, t: State, c: nat)
    requires Inv(cfg, s) && IsRun(cfg, s, acts, t) && c < |s.conns|
    requires s.conns[c].routed.Some? && s.conns[c].routed.value in s.pool.finished
    ensures c < |t.conns| && t.conns[c].written == s.conns[c].written
    decreases |acts|
  {
    if acts != [] {
      StepWritten(cfg, s, acts[0], c);
      StepInv(cfg, s, acts[0]);
      RunWritten(cfg, Apply(cfg, s, acts[0]), acts[1..], t, c);
    }
  }

  /** What the end of its task puts on a connection: nothing if it is closed, else what the network takes of the reply. */
  function Answer(reply: Result<Bytes>, open: bool, taken: nat): Bytes {
    if reply.Ok? && open then Taken(reply.value, taken) else []
  }

  /** Now and in every continuation, exactly `bytes` are written on connection `c`. */
  ghost predicate WrittenForGood(cfg: Config, s: State, c: nat, bytes: Bytes) {
    forall acts, t :: IsRun(cfg, s, acts, t) ==> c < |t.conns| && t.conns[c].written == bytes
  }

  /**
   The end of its task decides once and for all what is written on a connection: in every
   continuation it is the whole reply if and only if the connection was open at that moment and the
   network took all of it.
   */
  lemma AnswerIsFinal(cfg: Config, workers: nat, s: State, pa: P.Action, taken: nat)
    requires Reachable(cfg, workers, s) && P.Enabled(s.pool, pa) && Finishes(s, pa)
    ensures var c, reply, u := s.requests[s.pool.held[pa.w]].conn, ReplyOf(cfg, s, pa), Apply(cfg, s, PoolStep(pa, taken));
            && WrittenForGood(cfg, u, c, Answer(reply, s.conns[c].open, taken))
            && (reply.Ok? && reply.value != [] ==>
                  (WrittenForGood(cfg, u, c, reply.value) <==> s.conns[c].open && taken >= |reply.value|))
  {
    ReachableInv(cfg, workers, s);
    var c := s.requests[s.pool.held[pa.w]].conn;
    var u := Apply(cfg, s, PoolStep(pa, taken));
    FinishWrites(cfg, s, pa, taken, c);
    StepInv(cfg, s, PoolStep(pa, taken));
    forall acts, t | IsRun(cfg, u, acts, t) ensures c < |t.conns| && t.conns[c].written == u.conns[c].written {
      RunWritten(cfg, u, acts, t, c);
    }
    assert IsRun(cfg, u, [], u);
  }

  lemma FinishWrites(cfg: Config, s: State, pa: P.Action, taken: nat, c: nat)
    requires Inv(cfg, s) && P.Enabled(s.pool, pa) && FinishesFor(s, pa, c)
    ensures var k, u := s.pool.held[pa.w], Apply(cfg, s, PoolStep(pa, taken));
            && c < |u.conns| && s.conns[c].routed == u.conns[c].routed == Some(k)
            && k !in s.pool.finished && k in u.pool.finished
            && u.conns[c].written == Answer(ReplyOf(cfg, s, pa), s.conns[c].open, taken)
  {
    assert ConnOk(cfg, s, c);
    PoolStepEffect(cfg, s, pa, taken, c);
  }

  // ---- open until answered ----

  /** The connection is routed, no expiry of its is queued, and it is open as long as its call is on its way. */
  ghost predicate Attended(s: State, c: nat) {
    && c < |s.conns| && s.conns[c].routed.Some? && s.conns[c].timer == Idle
    && var k := s.conns[c].routed.value;
       Pending(s.pool, k) && k !in s.pool.finished ==> s.conns[c].open
  }

  lemma StepAttended(cfg: Config, s: State, a: Action, c: nat)
    requires Inv(cfg, s) && Attended(s, c) && Enabled(s, a)
    ensures Attended(Apply(cfg, s, a), c) && Apply(cfg, s, a).conns[c].routed == s.conns[c].routed
  {
    assert ConnOk(cfg, s, c);
    if a.PoolStep? {
      PoolStepAttended(cfg, s, a.a, a.taken, c);
    } else if a.BodyDone? {
      PendingAfterCall(s.pool, s.conns[c].routed.value);
    }
  }

  lemma PoolStepAttended(cfg: Config, s: State, pa: P.Action, taken: nat, c: nat)
    requires Inv(cfg, s) && Attended(s, c) && P.Enabled(s.pool, pa) && pa != P.Call
    ensures var t := DoPoolStep(cfg, s, pa, taken); Attended(t, c) && t.conns[c].routed == s.conns[c].routed
  {
    var k := s.conns[c].routed.value;
    PoolStepEffect(cfg, s, pa, taken, c);
    if pa.StepW? && s.pool.workers[pa.w] == P.WRunning {
      FinishPending(s.pool, pa, k);
    } else {
      UnfinishedIsKept(cfg, s, pa, c, k);
    }
  }

  /** A pool step that leaves the call on its way drops no owner of its connection. */
  lemma UnfinishedIsKept(cfg: Config, s: State, pa: P.Action, c: nat, k: nat)
    requires Inv(cfg, s) && P.Enabled(s.pool, pa) && pa != P.Call && c < |s.conns| && s.conns[c].routed == Some(k)
    requires !(pa.StepW? && s.pool.workers[pa.w] == P.WRunning)
    ensures var t := P.Apply(s.pool, pa);
            Pending(t, k) && k !in t.finished ==>
              Pending(s.pool, k) && k !in s.pool.finished && Dropped(s, pa, c) == {}
  {
    PoolNotifiesOnce(s.pool);
    PendingStep(s.pool, pa, k);
    DroppedIs(cfg, s, pa, c);
  }

  /** Routing in time, with no expiry queued, attends to the connection. */
  lemma RoutingAttends(cfg: Config, s: State, a: Action, c: nat)
    requires Inv(cfg, s) && Enabled(s, a) && c < |Apply(cfg, s, a).conns|
    requires !(c < |s.conns| && s.conns[c].routed.Some?) && Apply(cfg, s, a).conns[c].routed.Some?
    ensures a.BodyDone? && a.c == c && c < |s.conns|
    ensures Apply(cfg, s, a).conns[c].routed == Some(|s.pool.producers|)
    ensures s.conns[c].timer != Expired ==> Attended(Apply(cfg, s, a), c)
  {
    if a.PoolStep? {
      PoolStepEffect(cfg, s, a.a, a.taken, c);
    }
  }

  lemma {:induction false} RunAttended(cfg: Config, s: State, acts: seq<Action>, t: State, c: nat)
    requires Inv(cfg, s) && IsRun(cfg, s, acts, t) && cfg.timeout == 0
    requires c < |s.conns| && s.conns[c].routed.Some? ==> Attended(s, c)
    ensures c < |t.conns| && t.conns[c].routed.Some? ==> Attended(t, c)
    decreases |acts|
  {
    if acts != [] {
      var u := Apply(cfg, s, acts[0]);
      StepInv(cfg, s, acts[0]);
      if c < |s.conns| && s.conns[c].routed.Some? {
        StepAttended(cfg, s, acts[0], c);
      } else if c < |u.conns| && u.conns[c].routed.Some? {
        RoutingAttends(cfg, s, acts[0], c);
        assert ConnOk(cfg, s, c);
      }
      RunAttended(cfg, u, acts[1..], t, c);
    }
  }

  /** With timeout 0 every routed connection is open until its task has ended or its closure is destroyed. */
  lemma OpenUntilAnswered(cfg: Config, workers: nat, s: State, c: nat)
    requires Reachable(cfg, workers, s) && cfg.timeout == 0 && c < |s.conns| && s.conns[c].routed.Some?
    requires Pending(s.pool, s.conns[c].routed.value) && s.conns[c].routed.value !in s.pool.finished
    ensures s.conns[c].open
  {
    var acts :| IsRun(cfg, Init(workers), acts, s);
    InitInv(cfg, workers);
    RunAttended(cfg, Init(workers), acts, s, c);
  }

  // ---- answered ----

  /** The body of connection `c` does not come in after its deadline has completed. */
  predicate InTime(s: State, a: Action, c: nat) {
    a.BodyDone? && a.c == c && c < |s.conns| ==> s.conns[c].timer != Expired
  }

  /** The network takes all of the reply on connection `c`. */
  predicate TakesReply(cfg: Config, s: State, a: Action, c: nat) {
    a.PoolStep? && FinishesFor(s, a.a, c) && ReplyOf(cfg, s, a.a).Ok? ==> a.taken >= |ReplyOf(cfg, s, a.a).value|
  }

  ghost predicate RoutedInTime(cfg: Config, s: State, acts: seq<Action>, c: nat)
    decreases |acts|
  {
    acts == [] ||
    (InTime(s, acts[0], c) && (Enabled(s, acts[0]) ==> RoutedInTime(cfg, Apply(cfg, s, acts[0]), acts[1..], c)))
  }

  ghost predicate ReplyTaken(cfg: Config, s: State, acts: seq<Action>, c: nat)
    decreases |acts|
  {
    acts == [] ||
    (TakesReply(cfg, s, acts[0], c) && (Enabled(s, acts[0]) ==> ReplyTaken(cfg, Apply(cfg, s, acts[0]), acts[1..], c)))
  }

  function ReplyTo(cfg: Config, s: State, k: nat): Result<Bytes>
    requires k < |s.requests|
  {
    cfg.reply(s.requests[k].protocol, s.requests[k].mode, s.requests[k].body)
  }

  /** If the connection is routed then it is attended to, and has its whole reply once its task is over. */
  ghost predicate Answered(cfg: Config, s: State, c: nat) {
    c < |s.conns| && s.conns[c].routed.Some? ==>
      var k := s.conns[c].routed.value;
      && Attended(s, c) && k < |s.requests|
      && (k in s.pool.finished && ReplyTo(cfg, s, k).Ok? ==> s.conns[c].written == ReplyTo(cfg, s, k).value)
  }

  lemma StepAnswered(cfg: Config, s: State, a: Action, c: nat)
    requires Inv(cfg, s) && Enabled(s, a) && Answered(cfg, s, c) && TakesReply(cfg, s, a, c)
    requires cfg.timeout == 0 || InTime(s, a, c) || (c < |s.conns| && s.conns[c].routed.Some?)
    ensures Answered(cfg, Apply(cfg, s, a), c)
  {
    var t := Apply(cfg, s, a);
    StepInv(cfg, s, a);
    if c < |s.conns| && s.conns[c].routed.Some? {
      StepAnsweredRouted(cfg, s, a, c);
    } else if c < |t.conns| && t.conns[c].routed.Some? {
      RoutingAttends(cfg, s, a, c);
      assert ConnOk(cfg, s, c) && ConnOk(cfg, t, c);
      NewCallIsUnfinished(s.pool);
    }
  }

  lemma StepAnsweredRouted(cfg: Config, s: State, a: Action, c: nat)
    requires Inv(cfg, s) && Enabled(s, a) && Answered(cfg, s, c) && TakesReply(cfg, s, a, c)
    requires c < |s.conns| && s.conns[c].routed.Some?
    ensures Answered(cfg, Apply(cfg, s, a), c)
    ensures Apply(cfg, s, a).conns[c].routed == s.conns[c].routed
  {
    var k, t := s.conns[c].routed.value, Apply(cfg, s, a);
    StepAttended(cfg, s, a, c);
    RequestsKept(cfg, s, a, k);
    if k in s.pool.finished {
      StepWritten(cfg, s, a, c);
    } else if a.PoolStep? {
      PoolStepEffect(cfg, s, a.a, a.taken, c);
      if FinishesFor(s, a.a, c) {
        FinishWrites(cfg, s, a.a, a.taken, c);
      }
    }
  }

  lemma RequestsKept(cfg: Config, s: State, a: Action, k: nat)
    requires Enabled(s, a) && k < |s.requests|
    ensures k < |Apply(cfg, s, a).requests| && Apply(cfg, s, a).requests[k] == s.requests[k]
    ensures !a.PoolStep? ==> Apply(cfg, s, a).pool.finished == s.pool.finished
  {
  }

  lemma {:induction false} RunAnswered(cfg: Config, s: State, acts: seq<Action>, t: State, c: nat)
    requires Inv(cfg, s) && IsRun(cfg, s, acts, t) && Answered(cfg, s, c) && ReplyTaken(cfg, s, acts, c)
    requires cfg.timeout == 0 || RoutedInTime(cfg, s, acts, c)
    ensures Answered(cfg, t, c)
    decreases |acts|
  {
    if acts != [] {
      StepInv(cfg, s, acts[0]);
      StepAnswered(cfg, s, acts[0], c);
      RunAnswered(cfg, Apply(cfg, s, acts[0]), acts[1..], t, c);
    }
  }

  /** From a state in which the connection is routed, nothing about its deadline is needed any more. */
  lemma {:induction false} RunAnsweredRouted(cfg: Config, s: State, acts: seq<Action>, t: State, c: nat)
    requires Inv(cfg, s) && IsRun(cfg, s, acts, t) && Answered(cfg, s, c) && ReplyTaken(cfg, s, acts, c)
    requires c < |s.conns| && s.conns[c].routed.Some?
    ensures Answered(cfg, t, c) && c < |t.conns| && t.conns[c].routed == s.conns[c].routed
    ensures ReplyTo(cfg, s, s.conns[c].routed.value) == ReplyTo(cfg, t, s.conns[c].routed.value)
    decreases |acts|
  {
    if acts != [] {
      StepInv(cfg, s, acts[0]);
      StepAnsweredRouted(cfg, s, acts[0], c);
      RequestsKept(cfg, s, acts[0], s.conns[c].routed.value);
      RunAnsweredRouted(cfg, Apply(cfg, s, acts[0]), acts[1..], t, c);
    }
  }

  /**
   In every run in which the network takes all of its reply, a connection whose call has finished has
   been sent all of it; with a timeout, if its body came in before the deadline completed.
   */
  lemma FinishedCallsAreAnswered(cfg: Config, workers: nat, acts: seq<Action>, s: State, c: nat)
    requires IsRun(cfg, Init(workers), acts, s) && ReplyTaken(cfg, Init(workers), acts, c)
    requires cfg.timeout == 0 || RoutedInTime(cfg, Init(workers), acts, c)
    requires c < |s.conns| && s.conns[c].routed.Some? && s.conns[c].routed.value in s.pool.finished
    ensures var k := s.conns[c].routed.value;
            k < |s.requests| && (ReplyTo(cfg, s, k).Ok? ==> s.conns[c].written == ReplyTo(cfg, s, k).value)
  {
    InitInv(cfg, workers);
    RunAnswered(cfg, Init(workers), acts, s, c);
  }

  // ---- exactly when an answer is certain ----

  /** Whatever happens, once the call of `c` has finished it has its reply, if the network takes it. */
  ghost predicate AnswerIsCertain(cfg: Config, s: State, c: nat)
    requires c < |s.conns| && s.conns[c].routed.Some? && s.conns[c].routed.value < |s.requests|
    requires ReplyTo(cfg, s, s.conns[c].routed.value).Ok?
  {
    var k := s.conns[c].routed.value;
    forall acts, t ::
      IsRun(cfg, s, acts, t) && ReplyTaken(cfg, s, acts, c) && k in t.pool.finished ==>
        c < |t.conns| && t.conns[c].written == ReplyTo(cfg, s, k).value
  }

  /** Some run in which the network would take all of the reply ends with the call finished and nothing written. */
  ghost predicate CanMissAnswer(cfg: Config, s: State, c: nat, k: nat) {
    exists acts, t ::
      && IsRun(cfg, s, acts, t) && ReplyTaken(cfg, s, acts, c) && k in t.pool.finished
      && c < |t.conns| && t.conns[c].written == []
  }

  lemma MissesAfter(cfg: Config, s: State, a: Action, c: nat, k: nat)
    requires Enabled(s, a) && TakesReply(cfg, s, a, c) && CanMissAnswer(cfg, Apply(cfg, s, a), c, k)
    ensures CanMissAnswer(cfg, s, c, k)
  {
    var u := Apply(cfg, s, a);
    var acts, t :| IsRun(cfg, u, acts, t) && ReplyTaken(cfg, u, acts, c) && k in t.pool.finished
                   && c < |t.conns| && t.conns[c].written == [];
    var longer := [a] + acts;
    assert longer[1..] == acts;
    assert IsRun(cfg, s, longer, t) && ReplyTaken(cfg, s, longer, c);
  }

  /** A pool step of its own, with as much of a reply taken as there is. */
  function Generous(cfg: Config, s: State, pa: P.Action): Action {
    PoolStep(pa, if Finishes(s, pa) && ReplyOf(cfg, s, pa).Ok? then |ReplyOf(cfg, s, pa).value| else 0)
  }

  /** A closed connection is not written to when the pool then drains. */
  lemma {:induction false} ClosedMisses(cfg: Config, workers: nat, s: State, c: nat, k: nat)
    requires workers >= 1 && PI.Reachable(workers, s.pool) && !s.pool.stop && k < |s.pool.producers|
    requires c < |s.conns| && !s.conns[c].open && s.conns[c].written == []
    ensures CanMissAnswer(cfg, s, c, k)
    decreases PP.DrainMeasure(s.pool)
  {
    if P.Quiescent(s.pool) {
      PP.QuiescentMeansDrained(workers, s.pool);
      assert IsRun(cfg, s, [], s) && ReplyTaken(cfg, s, [], c);
    } else {
      var pa: P.Action :| P.Enabled(s.pool, pa) && !P.Environment(pa);
      var a := Generous(cfg, s, pa);
      PP.ReachableDrainStep(workers, s.pool, pa);
      StepClosed(cfg, s, a, c);
      CallsKept(s.pool, pa);
      ClosedMisses(cfg, workers, Apply(cfg, s, a), c, k);
      MissesAfter(cfg, s, a, c, k);
    }
  }

  lemma CallsKept(pool: P.State, pa: P.Action)
    requires P.Enabled(pool, pa) && pa != P.Call
    ensures |P.Apply(pool, pa).producers| == |pool.producers|
  {
    if pa.StepP? {
      CallsKeptP(pool, pa.p, pa.wake);
    } else if pa.StepW? {
      CallsKeptW(pool, pa.w, pa.wake);
    }
  }

  lemma CallsKeptP(pool: P.State, p: nat, wake: Option<nat>)
    requires P.CanStepP(pool, p, wake)
    ensures |P.DoStepP(pool, p, wake).producers| == |pool.producers|
  {
  }

  lemma CallsKeptW(pool: P.State, w: nat, wake: Option<nat>)
    requires P.CanStepW(pool, w, wake)
    ensures |P.DoStepW(pool, w, wake).producers| == |pool.producers|
  {
  }

  /** The call is on its way, and an expiry is queued on its connection. */
  ghost predicate Late(cfg: Config, workers: nat, s: State, c: nat, k: nat) {
    && Inv(cfg, s) && PI.Reachable(workers, s.pool) && !s.pool.stop
    && c < |s.conns| && s.conns[c].routed == Some(k) && s.conns[c].timer == Expired && k !in s.pool.finished
  }

  lemma LateFacts(cfg: Config, workers: nat, s: State, c: nat, k: nat)
    requires Late(cfg, workers, s, c, k)
    ensures k < |s.pool.producers| && s.conns[c].written == []
    ensures s.conns[c].phase == Quiet || s.conns[c].phase == Routing(k)
    ensures Pending(s.pool, k)
  {
    assert ConnOk(cfg, s, c);
    PoolInv(s.pool);
  }

  lemma QuietMisses(cfg: Config, workers: nat, s: State, c: nat, k: nat)
    requires workers >= 1 && Late(cfg, workers, s, c, k) && s.conns[c].phase == Quiet
    ensures CanMissAnswer(cfg, s, c, k)
  {
    LateFacts(cfg, workers, s, c, k);
    var t := Apply(cfg, s, TimerFires(c));
    assert t.pool == s.pool && !t.conns[c].open && t.conns[c].written == [];
    ClosedMisses(cfg, workers, t, c, k);
    MissesAfter(cfg, s, TimerFires(c), c, k);
  }

  lemma ReturningMisses(cfg: Config, workers: nat, s: State, c: nat, k: nat)
    requires workers >= 1 && Late(cfg, workers, s, c, k) && s.conns[c].phase == Routing(k)
    requires k < |s.pool.producers| && s.pool.producers[k] == P.PDone
    ensures CanMissAnswer(cfg, s, c, k)
  {
    LateFacts(cfg, workers, s, c, k);
    assert ConnOk(cfg, s, c);
    var a := RouteReturns(c);
    StepInv(cfg, s, a);
    assert TaskRef(k) in s.conns[c].refs;
    QuietMisses(cfg, workers, Apply(cfg, s, a), c, k);
    MissesAfter(cfg, s, a, c, k);
  }

  /** A step of its own that brings call `k` closer to its return without finishing it. */
  lemma StepTowardsReturn(workers: nat, pool: P.State, k: nat) returns (pa: P.Action)
    requires workers >= 1 && PI.Reachable(workers, pool) && !pool.stop && k < |pool.producers|
    requires pool.producers[k] != P.PDone && k !in pool.finished
    ensures P.Enabled(pool, pa) && !P.Environment(pa)
    ensures pa.StepW? && pool.workers[pa.w] == P.WRunning ==> pool.held[pa.w] != k
  {
    if pool.producers[k] == P.PNotifying {
      var wake := PP.PickWorker(pool);
      pa := P.StepP(k, wake);
    } else {
      if P.Quiescent(pool) {
        PP.QuiescentMeansDrained(workers, pool);
        assert false;
      }
      pa :| P.Enabled(pool, pa) && !P.Environment(pa);
      PI.ReachableTasks(workers, pool);
      assert k !in pool.accepted;
      if pa.StepW? && pool.workers[pa.w] == P.WRunning {
        var j := pool.held[pa.w];
        assert j in pool.started && j in pool.popped && j in pool.accepted;
      }
    }
  }

  lemma {:induction false} LateMisses(cfg: Config, workers: nat, s: State, c: nat, k: nat)
    requires workers >= 1 && Late(cfg, workers, s, c, k)
    ensures CanMissAnswer(cfg, s, c, k)
    decreases PP.DrainMeasure(s.pool)
  {
    LateFacts(cfg, workers, s, c, k);
    if s.conns[c].phase == Quiet {
      QuietMisses(cfg, workers, s, c, k);
    } else if s.pool.producers[k] == P.PDone {
      ReturningMisses(cfg, workers, s, c, k);
    } else {
      var pa := StepTowardsReturn(workers, s.pool, k);
      var a := Generous(cfg, s, pa);
      PoolStepEffect(cfg, s, pa, a.taken, c);
      PP.ReachableDrainStep(workers, s.pool, pa);
      StepInv(cfg, s, a);
      LateMisses(cfg, workers, Apply(cfg, s, a), c, k);
      MissesAfter(cfg, s, a, c, k);
    }
  }

  /**
   A routed, unanswered call of a running pool is certain to get its reply on its open connection,
   provided the network takes it, if and only if no expiry is queued there: always with timeout 0,
   otherwise exactly if the body came in before the deadline completed.
   */
  lemma AnswerIsCertainIff(cfg: Config, workers: nat, s: State, c: nat)
    requires workers >= 1 && Reachable(cfg, workers, s) && !s.pool.stop
    requires c < |s.conns| && s.conns[c].open && s.conns[c].routed.Some? && s.conns[c].routed.value < |s.requests|
    requires s.conns[c].routed.value !in s.pool.finished
    requires var reply := ReplyTo(cfg, s, s.conns[c].routed.value); reply.Ok? && reply.value != []
    ensures AnswerIsCertain(cfg, s, c) <==> s.conns[c].timer == Idle
    ensures cfg.timeout == 0 ==> s.conns[c].timer == Idle
  {
    ReachableInv(cfg, workers, s);
    assert ConnOk(cfg, s, c);
    var k := s.conns[c].routed.value;
    if s.conns[c].timer == Idle {
      forall acts, t | IsRun(cfg, s, acts, t) && ReplyTaken(cfg, s, acts, c) && k in t.pool.finished
        ensures c < |t.conns| && t.conns[c].written == ReplyTo(cfg, s, k).value
      {
        RunAnsweredRouted(cfg, s, acts, t, c);
      }
    } else {
      ReachablePool(cfg, workers, s);
      LateMisses(cfg, workers, s, c, k);
    }
  }

  /** With every timeout, a request that has a reply can be answered. */
  lemma AnswersOccur(cfg: Config, workers: nat, protocol: Bytes, mode: U32, body: Bytes) returns (s: State)
    requires workers >= 1 && cfg.routable(protocol, mode) && 0 < |protocol| + |body| < MAX_BUFFER_LEN
    requires cfg.reply(protocol, mode, body).Ok?
    ensures Reachable(cfg, workers, s) && |s.conns| == 1 && s.conns[0].routed == Some(0)
    ensures s.conns[0].written == cfg.reply(protocol, mode, body).value
  {
    var u := Delivered(cfg, workers, protocol, mode, body, false);
    u := HandedOver(cfg, workers, u);
    u := Running(cfg, workers, u);
    var pa, all := P.StepW(0, None), |cfg.reply(protocol, mode, body).value|;
    s := Step(cfg, workers, u, PoolStep(pa, all));
    ReachableInv(cfg, workers, u);
    FinishWrites(cfg, u, pa, all, 0);
  }

  // ---- isolation ----

  /** The server with a serializer and fixed bindings. */
  function ConfigOf<Type, V, Parser>(c: I.Codec<Type, V, Parser>, reg: RC.Registry<Type, V>, timeout: nat): Config {
    Config(timeout,
           (protocol: Bytes, mode: U32) =>
             (mode == NON_RAW && protocol in reg.functions) || (mode == RAW && protocol in reg.rawFunctions),
           (protocol: Bytes, mode: U32, body: Bytes) => RC.Dispatch(c, reg, protocol, mode, body).reply)
  }

  /** The reply of the server that serves nobody else. */
  lemma ReplyIsAlone<Type, V, Parser>(
    codec: I.Codec<Type, V, Parser>, reg: RC.Registry<Type, V>, timeout: nat, s: State, c: nat)
    requires Inv(ConfigOf(codec, reg, timeout), s) && c < |s.conns| && s.conns[c].routed.Some?
    ensures var k := s.conns[c].routed.value;
            && k < |s.requests| && k < |s.pool.producers| && s.requests[k].conn == c
            && ReplyTo(ConfigOf(codec, reg, timeout), s, k) == RC.Serve(codec, reg, s.conns[c].received).reply
  {
    var cfg := ConfigOf(codec, reg, timeout);
    assert ConnOk(cfg, s, c);
    assert RequestOk(cfg, s, s.conns[c].routed.value);
  }

  /** The step of a run that ends the task of connection `c`, and the state before it. */
  lemma {:induction false} WhoFinished(cfg: Config, s: State, acts: seq<Action>, t: State, c: nat, k: nat)
    returns (i: nat, u: State)
    requires Inv(cfg, s) && IsRun(cfg, s, acts, t) && k !in s.pool.finished && k in t.pool.finished
    requires c < |t.conns| && t.conns[c].routed == Some(k)
    ensures i < |acts| && IsRun(cfg, s, acts[..i], u) && acts[i].PoolStep? && FinishesFor(u, acts[i].a, c)
    ensures u.pool.held[acts[i].a.w] == k && k < |t.requests| && ReplyOf(cfg, u, acts[i].a) == ReplyTo(cfg, t, k)
    ensures t.conns[c].written == Answer(ReplyTo(cfg, t, k), u.conns[c].open, acts[i].taken)
    decreases |acts|
  {
    var a, v := acts[0], Apply(cfg, s, acts[0]);
    StepInv(cfg, s, a);
    RunInv(cfg, v, acts[1..], t);
    assert RequestsOk(cfg, t) && ConnOk(cfg, t, c);
    if k in v.pool.finished {
      i, u := 0, s;
      assert acts[..0] == [];
      FinishingStep(cfg, s, a, k);
      RunKeepsRequest(cfg, v, acts[1..], t, k);
      FinishWrites(cfg, s, a.a, a.taken, c);
      RunWritten(cfg, v, acts[1..], t, c);
    } else {
      i, u := WhoFinished(cfg, v, acts[1..], t, c, k);
      assert acts[..i + 1][1..] == acts[1..][..i] && acts[i + 1] == acts[1..][i];
      i := i + 1;
    }
  }

  lemma FinishingStep(cfg: Config, s: State, a: Action, k: nat)
    requires Inv(cfg, s) && Enabled(s, a) && k !in s.pool.finished && k in Apply(cfg, s, a).pool.finished
    ensures a.PoolStep? && Finishes(s, a.a) && s.pool.held[a.a.w] == k
    ensures k < |s.requests| == |Apply(cfg, s, a).requests| && s.requests[k] == Apply(cfg, s, a).requests[k]
  {
    if a.PoolStep? {
      if a.a.StepW? && s.pool.workers[a.a.w] == P.WRunning {
        FinishPending(s.pool, a.a, k);
        assert RequestOk(cfg, s, s.pool.held[a.a.w]);
      } else {
        FinishedKept(s.pool, a.a);
      }
    }
  }

  lemma {:induction false} RunKeepsRequest(cfg: Config, s: State, acts: seq<Action>, t: State, k: nat)
    requires IsRun(cfg, s, acts, t) && k < |s.requests|
    ensures k < |t.requests| && t.requests[k] == s.requests[k]
    decreases |acts|
  {
    if acts != [] {
      RequestsKept(cfg, s, acts[0], k);
      RunKeepsRequest(cfg, Apply(cfg, s, acts[0]), acts[1..], t, k);
    }
  }

  /**
   With any number of connections and workers: what is written on a connection is at most once the
   reply that its own bytes get from a server that serves nobody else, or a beginning of it.  Once
   its call has finished, it is what the network took of that reply in the one step that ended the
   task, if the connection was open then; all of it if the network took all of it and, with a
   timeout, the body came in before the deadline completed.
   */
  lemma EndToEndIsolation<Type, V, Parser>(
    codec: I.Codec<Type, V, Parser>, reg: RC.Registry<Type, V>, timeout: nat, workers: nat,
    acts: seq<Action>, s: State, c: nat)
    returns (i: nat, u: State)
    requires IsRun(ConfigOf(codec, reg, timeout), Init(workers), acts, s) && c < |s.conns|
    ensures var conn, reply := s.conns[c], RC.Serve(codec, reg, s.conns[c].received).reply;
            && (conn.written == [] || (reply.Ok? && conn.written <= reply.value))
            && (conn.written != [] ==> conn.routed.Some? && conn.routed.value in s.pool.finished)
    ensures s.conns[c].routed.Some? && s.conns[c].routed.value in s.pool.finished ==>
              var cfg, reply := ConfigOf(codec, reg, timeout), RC.Serve(codec, reg, s.conns[c].received).reply;
              && i < |acts| && IsRun(cfg, Init(workers), acts[..i], u)
              && acts[i].PoolStep? && FinishesFor(u, acts[i].a, c) && ReplyOf(cfg, u, acts[i].a) == reply
              && s.conns[c].written == Answer(reply, u.conns[c].open, acts[i].taken)
              && (s.conns[c].open ==> reply.Ok? && s.conns[c].written == reply.value)
              && (ReplyTaken(cfg, Init(workers), acts, c) && reply.Ok?
                  && (timeout == 0 || RoutedInTime(cfg, Init(workers), acts, c)) ==>
                    s.conns[c].written == reply.value)
  {
    var cfg := ConfigOf(codec, reg, timeout);
    i, u := 0, s;
    InitInv(cfg, workers);
    RunInv(cfg, Init(workers), acts, s);
    assert ConnOk(cfg, s, c);
    if s.conns[c].routed.Some? {
      ReplyIsAlone(codec, reg, timeout, s, c);
      var k := s.conns[c].routed.value;
      if k in s.pool.finished {
        i, u := WhoFinished(cfg, Init(workers), acts, s, c, k);
        if ReplyTaken(cfg, Init(workers), acts, c) && (timeout == 0 || RoutedInTime(cfg, Init(workers), acts, c)) {
          FinishedCallsAreAnswered(cfg, workers, acts, s, c);
        }
      }
    }
  }

  // ---- at rest ----

  /** The pool of a reachable server is in a state that the pool alone can reach. */
  lemma {:induction false} RunPool(cfg: Config, workers: nat, s: State, acts: seq<Action>, t: State)
    requires PI.Reachable(workers, s.pool) && IsRun(cfg, s, acts, t)
    ensures PI.Reachable(workers, t.pool)
    decreases |acts|
  {
    if acts != [] {
      PoolPart(cfg, workers, s, acts[0]);
      RunPool(cfg, workers, Apply(cfg, s, acts[0]), acts[1..], t);
    }
  }

  lemma PoolPart(cfg: Config, workers: nat, s: State, a: Action)
    requires PI.Reachable(workers, s.pool) && Enabled(s, a)
    ensures PI.Reachable(workers, Apply(cfg, s, a).pool)
  {
    PI.ReachableStep(workers, s.pool, P.Call);
    if a.PoolStep? {
      PI.ReachableStep(workers, s.pool, a.a);
    }
  }

  lemma ReachablePool(cfg: Config, workers: nat, s: State)
    requires Reachable(cfg, workers, s)
    ensures PI.Reachable(workers, s.pool)
  {
    var acts :| IsRun(cfg, Init(workers), acts, s);
    assert P.IsRun(P.Init(workers), [], P.Init(workers));
    RunPool(cfg, workers, Init(workers), acts, s);
  }

  lemma PoolIsDrained(cfg: Config, workers: nat, s: State)
    requires workers >= 1 && Reachable(cfg, workers, s) && !s.pool.stop && P.Quiescent(s.pool)
    ensures PP.Drained(s.pool)
  {
    ReachablePool(cfg, workers, s);
    PP.QuiescentMeansDrained(workers, s.pool);
  }

  /**
   No request is forgotten: when the threads of a running pool have come to rest, the task of every
   connection that was ever routed has ended, in one step of the run; what is written is the reply
   that its own bytes get alone, all of it if the connection was open at that step and the network
   took all of it, which with timeout 0, or with a body that came in before the deadline completed,
   leaves only the network.
   */
  lemma EveryRoutedCallIsAnswered<Type, V, Parser>(
    codec: I.Codec<Type, V, Parser>, reg: RC.Registry<Type, V>, timeout: nat, workers: nat,
    acts: seq<Action>, s: State, c: nat)
    returns (i: nat, u: State)
    requires workers >= 1 && IsRun(ConfigOf(codec, reg, timeout), Init(workers), acts, s)
    requires !s.pool.stop && P.Quiescent(s.pool)
    requires c < |s.conns| && s.conns[c].routed.Some?
    ensures var cfg, reply := ConfigOf(codec, reg, timeout), RC.Serve(codec, reg, s.conns[c].received).reply;
            && i < |acts| && IsRun(cfg, Init(workers), acts[..i], u)
            && acts[i].PoolStep? && FinishesFor(u, acts[i].a, c) && ReplyOf(cfg, u, acts[i].a) == reply
            && s.conns[c].written == Answer(reply, u.conns[c].open, acts[i].taken)
            && (s.conns[c].open ==> reply.Ok? && s.conns[c].written == reply.value)
            && (ReplyTaken(cfg, Init(workers), acts, c) && reply.Ok?
                && (timeout == 0 || RoutedInTime(cfg, Init(workers), acts, c)) ==>
                  s.conns[c].written == reply.value)
  {
    var cfg := ConfigOf(codec, reg, timeout);
    assert Reachable(cfg, workers, s);
    ReachableInv(cfg, workers, s);
    PoolIsDrained(cfg, workers, s);
    ReplyIsAlone(codec, reg, timeout, s, c);
    i, u := EndToEndIsolation(codec, reg, timeout, workers, acts, s, c);
  }

  /**
   No handler runs for a request that was not routed: every task that a worker started belongs to
   one connection, was started once, and is the dispatch of what that connection received.
   */
  lemma EveryStartWasRouted<Type, V, Parser>(
    codec: I.Codec<Type, V, Parser>, reg: RC.Registry<Type, V>, timeout: nat, workers: nat, s: State, k: nat)
    requires Reachable(ConfigOf(codec, reg, timeout), workers, s) && k in s.pool.started
    ensures PI.Distinct(s.pool.started) && k < |s.requests|
    ensures var r := s.requests[k];
            && r.conn < |s.conns| && s.conns[r.conn].routed == Some(k)
            && Decode(s.conns[r.conn].received) == Routed(r.protocol, r.mode, r.body, [])
            && RC.Serve(codec, reg, s.conns[r.conn].received) == RC.Dispatch(codec, reg, r.protocol, r.mode, r.body)
            && ((r.mode == NON_RAW && r.protocol in reg.functions) || (r.mode == RAW && r.protocol in reg.rawFunctions))
  {
    var cfg := ConfigOf(codec, reg, timeout);
    ReachableInv(cfg, workers, s);
    StartedIsCall(s.pool, k);
    assert RequestOk(cfg, s, k);
  }

  lemma StartedIsCall(pool: P.State, k: nat)
    requires PoolOk(pool) && k in pool.started
    ensures PI.Distinct(pool.started) && k < |pool.producers|
  {
    PoolInv(pool);
    assert k in pool.popped && k in pool.accepted;
  }

  // ---- a remote call among many ----

  /** What the caller of a function that returned `value` reads from the bytes written to it. */
  ghost predicate Reads<Type, V, Parser>(codec: I.Codec<Type, V, Parser>, ret: Type, written: Bytes, value: V) {
    match DecodeResponse(written)
    case Body(text, rest) => rest == [] && RC.UnpackOne(codec, ret, text) == Ok(value)
    case _ => false
  }

  /**
   A remote call among many is a local call.  When the threads have come to rest, a connection that
   delivered the framed call of a bound function has had it invoked exactly once, on the caller's
   arguments, by one task that was started once.  Its caller reads the value the function returned
   if the connection was open when the task ended and the network took the reply, and the end of
   the stream otherwise; so with timeout 0, or a body in before the deadline, and a network that
   takes the reply, it reads the value.
   */
  lemma RemoteCallAmongMany<Type(!new), V(!new), Parser(!new)>(
    codec: I.Codec<Type, V, Parser>, reg: RC.Registry<Type, V>, timeout: nat, workers: nat,
    acts: seq<Action>, s: State, c: nat, protocol: Bytes, ret: Type, args: seq<V>, value: V)
    returns (i: nat, u: State)
    requires workers >= 1 && IsRun(ConfigOf(codec, reg, timeout), Init(workers), acts, s)
    requires !s.pool.stop && P.Quiescent(s.pool)
    requires RC.RoundTrips(codec)
    requires protocol in reg.functions && RC.HaveTypes(codec, args, reg.functions[protocol].params)
    requires codec.pack(args).Ok? && 0 < |protocol| + |codec.pack(args).value| < MAX_BUFFER_LEN
    requires reg.functions[protocol].run(args) == Ok(I.Value(value)) && codec.hasType(value, ret)
    requires codec.pack([value]).Ok? && |codec.pack([value]).value| <= MAX_BUFFER_LEN
    requires c < |s.conns| && s.conns[c].routed.Some?
    requires Ok(s.conns[c].received) == EncodeRequest(protocol, NON_RAW, codec.pack(args).value)
    ensures var conn, alone := s.conns[c], RC.Serve(codec, reg, s.conns[c].received);
            && alone.calls == [args] && alone.rawCalls == []
            && PI.Distinct(s.pool.started) && conn.routed.value in s.pool.started
    ensures var cfg, written := ConfigOf(codec, reg, timeout), s.conns[c].written;
            && i < |acts| && IsRun(cfg, Init(workers), acts[..i], u)
            && acts[i].PoolStep? && FinishesFor(u, acts[i].a, c) && ReplyOf(cfg, u, acts[i].a).Ok?
            && (Reads(codec, ret, written, value) <==>
                  u.conns[c].open && acts[i].taken >= |ReplyOf(cfg, u, acts[i].a).value|)
            && (!Reads(codec, ret, written, value) ==> DecodeResponse(written) == EndOfStream)
            && (s.conns[c].open ==> Reads(codec, ret, written, value))
            && (ReplyTaken(cfg, Init(workers), acts, c) && (timeout == 0 || RoutedInTime(cfg, Init(workers), acts, c)) ==>
                  Reads(codec, ret, written, value))
  {
    var cfg := ConfigOf(codec, reg, timeout);
    i, u := EveryRoutedCallIsAnswered(codec, reg, timeout, workers, acts, s, c);
    assert Reachable(cfg, workers, s);
    RoutedIsStarted(codec, reg, timeout, workers, s, c);
    RC.ServedCall(codec, reg, protocol, args);
    RC.ValueUnpacks(codec, value, ret);
    ReadBack(codec.pack([value]).value, s.conns[c].written);
  }

  /**
   The same for a raw call: the handler was invoked once, on the caller's bytes, and the caller reads the
   bytes that it returned, exactly under the same condition.
   */
  lemma RawCallAmongMany<Type(!new), V(!new), Parser(!new)>(
    codec: I.Codec<Type, V, Parser>, reg: RC.Registry<Type, V>, timeout: nat, workers: nat,
    acts: seq<Action>, s: State, c: nat, protocol: Bytes, body: Bytes, bytes: Bytes)
    returns (i: nat, u: State)
    requires workers >= 1 && IsRun(ConfigOf(codec, reg, timeout), Init(workers), acts, s)
    requires !s.pool.stop && P.Quiescent(s.pool)
    requires protocol in reg.rawFunctions && 0 < |protocol| + |body| < MAX_BUFFER_LEN
    requires reg.rawFunctions[protocol].run(body) == Ok(I.Value(bytes)) && |bytes| <= MAX_BUFFER_LEN
    requires c < |s.conns| && s.conns[c].routed.Some?
    requires Ok(s.conns[c].received) == EncodeRequest(protocol, RAW, body)
    ensures var conn, alone := s.conns[c], RC.Serve(codec, reg, s.conns[c].received);
            && alone.rawCalls == [body] && alone.calls == []
            && PI.Distinct(s.pool.started) && conn.routed.value in s.pool.started
    ensures var cfg, read := ConfigOf(codec, reg, timeout), DecodeResponse(s.conns[c].written);
            && i < |acts| && IsRun(cfg, Init(workers), acts[..i], u)
            && acts[i].PoolStep? && FinishesFor(u, acts[i].a, c)
            && (read == Body(bytes, []) <==> u.conns[c].open && acts[i].taken >= 4 + |bytes|)
            && (read != Body(bytes, []) ==> read == EndOfStream)
            && (s.conns[c].open ==> read == Body(bytes, []))
            && (ReplyTaken(cfg, Init(workers), acts, c) && (timeout == 0 || RoutedInTime(cfg, Init(workers), acts, c)) ==>
                  read == Body(bytes, []))
  {
    var cfg := ConfigOf(codec, reg, timeout);
    i, u := EveryRoutedCallIsAnswered(codec, reg, timeout, workers, acts, s, c);
    assert Reachable(cfg, workers, s);
    RoutedIsStarted(codec, reg, timeout, workers, s, c);
    RC.ServedRawCall(codec, reg, protocol, body);
    ReadBack(bytes, s.conns[c].written);
  }

  /** What a client reads from a response, or from a beginning of one. */
  lemma ReadBack(body: Bytes, written: Bytes)
    requires |body| <= MAX_BUFFER_LEN
    ensures EncodeResponse(body).Ok? && |EncodeResponse(body).value| == 4 + |body|
    ensures written <= EncodeResponse(body).value ==>
              DecodeResponse(written) == if written == EncodeResponse(body).value then Body(body, []) else EndOfStream
  {
    RC.ReplyArrives(body);
    if written < EncodeResponse(body).value {
      ReplyCutShort(body, |written|);
      assert EncodeResponse(body).value[..|written|] == written;
    }
  }

  lemma RoutedIsStarted<Type, V, Parser>(
    codec: I.Codec<Type, V, Parser>, reg: RC.Registry<Type, V>, timeout: nat, workers: nat, s: State, c: nat)
    requires workers >= 1 && Reachable(ConfigOf(codec, reg, timeout), workers, s)
    requires !s.pool.stop && P.Quiescent(s.pool)
    requires c < |s.conns| && s.conns[c].routed.Some?
    ensures PI.Distinct(s.pool.started) && s.conns[c].routed.value in s.pool.started
  {
    var cfg := ConfigOf(codec, reg, timeout);
    PoolIsDrained(cfg, workers, s);
    ReachableInv(cfg, workers, s);
    ReplyIsAlone(codec, reg, timeout, s, c);
    PoolInv(s.pool);
  }
}
