/**
 The pool after its stop flag is set: how far the queue may still grow, what is still executed,
 and exactly when `stop` may wait for a join forever.
 */
module PoolStopping {
  import opened Wrappers
  import opened PoolModel
  import opened PoolInvariants
  import opened PoolProgress
  import opened Totals
  import PoolOrder

  // ---- capacity ----

  /** 1 for a call that passed the flag check at 51/61 and has not pushed yet. */
  function UnpushedRank(pc: ProducerPc): nat {
    if pc in {PLocking, PTesting, PWaiting, PSleeping, PWoken, PPushing} then 1 else 0
  }

  function Unpushed(s: State): nat {
    Total(UnpushedRank, s.producers)
  }

  lemma StepCapacity(s: State, a: Action)
    requires s.stop && Enabled(s, a)
    ensures Apply(s, a).stop
    ensures |Apply(s, a).queue| + Unpushed(Apply(s, a)) <= |s.queue| + Unpushed(s)
  {
    match a
    case Call => TotalPush(UnpushedRank, s.producers, PEntry);
    case StepP(p, wake) => StepCapacityP(s, p, wake);
    case SpuriousP(p) => TotalUpdate(UnpushedRank, s.producers, p, PWoken);
    case StepW(w, wake) => StepCapacityW(s, w, wake);
    case _ =>
  }

  lemma StepCapacityP(s: State, p: nat, wake: Option<nat>)
    requires s.stop && CanStepP(s, p, wake)
    ensures var t := DoStepP(s, p, wake); t.stop && |t.queue| + Unpushed(t) <= |s.queue| + Unpushed(s)
  {
    TotalUpdate(UnpushedRank, s.producers, p, DoStepP(s, p, wake).producers[p]);
  }

  lemma StepCapacityW(s: State, w: nat, wake: Option<nat>)
    requires s.stop && CanStepW(s, w, wake)
    ensures var t := DoStepW(s, w, wake); t.stop && |t.queue| + Unpushed(t) <= |s.queue| + Unpushed(s)
  {
    if wake.Some? {
      TotalUpdate(UnpushedRank, s.producers, wake.value, PWoken);
    }
  }

  lemma {:induction false} RunCapacity(s: State, acts: seq<Action>, t: State)
    requires s.stop && IsRun(s, acts, t)
    ensures |t.queue| + Unpushed(t) <= |s.queue| + Unpushed(s)
    decreases |acts|
  {
    if acts != [] {
      StepCapacity(s, acts[0]);
      RunCapacity(Apply(s, acts[0]), acts[1..], t);
    }
  }

  /**
   Although the full test is ==, the queue never exceeds its bound before the flag is set, and
   afterwards exceeds it by at most the calls that were past the flag check at that moment.
   */
  lemma CapacityBound(n: nat, s: State, acts: seq<Action>, t: State)
    requires Reachable(n, s) && !s.stop
    requires Enabled(s, SetStop) && IsRun(Apply(s, SetStop), acts, t)
    ensures |s.queue| <= MAX_TASK_QUEUE_SIZE
    ensures |t.queue| <= MAX_TASK_QUEUE_SIZE + Unpushed(s)
  {
    ReachableInv(n, s);
    RunCapacity(Apply(s, SetStop), acts, t);
  }

  // ---- what is still executed ----

  /** How often worker `w` calls a task in the run `acts` from `s`. */
  ghost function StartsBy(s: State, acts: seq<Action>, w: nat): nat
    decreases |acts|
  {
    if acts == [] || !Enabled(s, acts[0]) then 0
    else (if acts[0].StepW? && acts[0].w == w && s.workers[w] == WPopped then 1 else 0)
         + StartsBy(Apply(s, acts[0]), acts[1..], w)
  }

  /** 1 for a worker past the stop check that has not called its task yet. */
  function StartsLeft(s: State, w: nat): nat {
    if w < |s.workers| && (s.workers[w] == WTaking || s.workers[w] == WPopped) then 1 else 0
  }

  /** After the flag each worker starts at most one further task, and none unless it was past the check at 131. */
  lemma {:induction false} StartsAfterStop(s: State, acts: seq<Action>, t: State, w: nat)
    requires s.stop && IsRun(s, acts, t)
    ensures StartsBy(s, acts, w) + StartsLeft(t, w) <= StartsLeft(s, w)
    decreases |acts|
  {
    if acts != [] {
      StartsStep(s, acts[0], w);
      StartsAfterStop(Apply(s, acts[0]), acts[1..], t, w);
    }
  }

  lemma StartsStep(s: State, a: Action, w: nat)
    requires s.stop && Enabled(s, a)
    ensures Apply(s, a).stop
    ensures (if a.StepW? && a.w == w && s.workers[w] == WPopped then 1 else 0)
            + StartsLeft(Apply(s, a), w) <= StartsLeft(s, w)
  {
    if a.StepW? {
      WorkerStartsStep(s, a.w, a.wake, w);
    }
  }

  lemma WorkerStartsStep(s: State, v: nat, wake: Option<nat>, w: nat)
    requires s.stop && CanStepW(s, v, wake)
    ensures DoStepW(s, v, wake).stop
    ensures (if v == w && s.workers[w] == WPopped then 1 else 0) + StartsLeft(DoStepW(s, v, wake), w) <= StartsLeft(s, w)
  {
  }

  /** No worker that has been joined starts anything again. */
  lemma JoinedWorkersStartNothing(n: nat, s: State, acts: seq<Action>, t: State, w: nat)
    requires Reachable(n, s) && s.stopper.SJoining? && w < s.stopper.joined
    requires IsRun(s, acts, t)
    ensures StartsBy(s, acts, w) == 0
  {
    ReachableInv(n, s);
    StartsAfterStop(s, acts, t, w);
  }

  /** The one queued task, if any, that a worker past the stop check is about to take. */
  function AboutToTake(s: State): set<nat> {
    if s.lock.ByWorker? && s.lock.w < |s.workers| && s.workers[s.lock.w] == WTaking && s.queue != []
    then {s.queue[0]} else {}
  }

  lemma StepTakes(s: State, a: Action)
    requires Exclusive(s) && s.stop && Enabled(s, a)
    ensures Apply(s, a).stop
    ensures forall k :: k in Apply(s, a).popped || k in AboutToTake(Apply(s, a)) ==> k in s.popped || k in AboutToTake(s)
  {
    if a.StepW? {
      WorkerTakes(s, a.w, a.wake);
    }
  }

  lemma WorkerTakes(s: State, w: nat, wake: Option<nat>)
    requires Exclusive(s) && s.stop && CanStepW(s, w, wake)
    ensures var t := DoStepW(s, w, wake);
            t.stop && forall k :: k in t.popped || k in AboutToTake(t) ==> k in s.popped || k in AboutToTake(s)
  {
  }

  /**
   A task that is queued when the flag is set, other than the one a worker is about to take, or
   that a late call pushes afterwards, is never taken and so never executed.
   */
  lemma {:induction false} LateTasksNeverRun(s: State, acts: seq<Action>, t: State)
    requires Inv(s) && s.stop && IsRun(s, acts, t)
    ensures forall k :: k in t.popped ==> k in s.popped || k in AboutToTake(s)
    ensures forall k :: k in t.started ==> k in s.popped || k in AboutToTake(s)
    decreases |acts|
  {
    if acts != [] {
      StepInv(s, acts[0]);
      StepTakes(s, acts[0]);
      LateTasksNeverRun(Apply(s, acts[0]), acts[1..], t);
    }
  }

  // ---- the joins ----

  function WorkerStopRank(pc: WorkerPc): nat {
    match pc
    case WExited => 0
    case WChecking => 1
    case WTesting => 2
    case WLocking | WWoken => 3
    case WNotifying | WSleeping => 4
    case WRunning | WWaiting => 5
    case WPopped => 6
    case WTaking => 7
  }

  function ProducerStopRank(pc: ProducerPc): nat {
    match pc
    case PDone | PRefused => 0
    case PNotifying => 1
    case PPushing => 2
    case PTesting => 3
    case PLocking | PWoken => 4
    case PSleeping | PEntry => 5
    case PWaiting => 6
  }

  function StopperRank(s: State): int {
    match s.stopper
    case SIdle => |s.workers| + 3
    case SFlagged => |s.workers| + 2
    case SJoining(k) => |s.workers| + 1 - k
    case SDone => 0
  }

  function StopMeasure(s: State): int {
    Total(WorkerStopRank, s.workers) + Total(ProducerStopRank, s.producers) + StopperRank(s)
  }

  lemma StopStep(s: State, a: Action)
    requires s.stop && Enabled(s, a) && a != SetStop
    ensures Apply(s, a).stop
    ensures StopMeasure(Apply(s, a)) <= StopMeasure(s) + if a == Call then 5 else -1
  {
    var t := Apply(s, a);
    match a
    case Call => TotalPush(ProducerStopRank, s.producers, PEntry);
    case StepP(p, wake) => StopStepP(s, p, wake);
    case SpuriousP(p) => TotalUpdate(ProducerStopRank, s.producers, p, PWoken);
    case StepW(w, wake) => StopStepW(s, w, wake);
    case SpuriousW(w) => TotalUpdate(WorkerStopRank, s.workers, w, WWoken);
    case StepS => TotalMonotone(WorkerStopRank, t.workers, s.workers);
  }

  lemma StopStepP(s: State, p: nat, wake: Option<nat>)
    requires s.stop && CanStepP(s, p, wake)
    ensures DoStepP(s, p, wake).stop && StopMeasure(DoStepP(s, p, wake)) < StopMeasure(s)
  {
    TotalUpdate(ProducerStopRank, s.producers, p, DoStepP(s, p, wake).producers[p]);
    if wake.Some? {
      TotalUpdate(WorkerStopRank, s.workers, wake.value, WWoken);
    }
  }

  lemma StopStepW(s: State, w: nat, wake: Option<nat>)
    requires s.stop && CanStepW(s, w, wake)
    ensures DoStepW(s, w, wake).stop && StopMeasure(DoStepW(s, w, wake)) < StopMeasure(s)
  {
    TotalUpdate(WorkerStopRank, s.workers, w, DoStepW(s, w, wake).workers[w]);
    if wake.Some? {
      TotalUpdate(ProducerStopRank, s.producers, wake.value, PWoken);
    }
  }

  function Calls(acts: seq<Action>): nat {
    if acts == [] then 0 else (if acts[0] == Call then 1 else 0) + Calls(acts[1..])
  }

  /** After the flag every run is finite, spurious wakeups included; each late call adds at most 6 steps. */
  lemma {:induction false} StoppingIsFinite(n: nat, s: State, acts: seq<Action>, t: State)
    requires Reachable(n, s) && s.stop && IsRun(s, acts, t)
    ensures |acts| <= StopMeasure(s) - StopMeasure(t) + 6 * Calls(acts)
    ensures Reachable(n, t) && t.stop && StopMeasure(t) >= 0
    decreases |acts|
  {
    if acts != [] {
      ReachableStopStep(n, s, acts[0]);
      StoppingIsFinite(n, Apply(s, acts[0]), acts[1..], t);
    } else {
      MeasureIsNatural(n, s);
    }
  }

  lemma MeasureIsNatural(n: nat, s: State)
    requires Reachable(n, s)
    ensures StopMeasure(s) >= 0
  {
    ReachableInv(n, s);
  }

  lemma ReachableStopStep(n: nat, s: State, a: Action)
    requires Reachable(n, s) && s.stop && Enabled(s, a)
    ensures a != SetStop && Reachable(n, Apply(s, a)) && Apply(s, a).stop
    ensures StopMeasure(Apply(s, a)) <= StopMeasure(s) + if a == Call then 5 else -1
  {
    ReachableInv(n, s);
    ReachableStep(n, s, a);
    StopStep(s, a);
  }

  /** A worker sleeps although `notify_all` is over: nobody is bound to wake it. */
  ghost predicate Missed(s: State) {
    s.stop && s.stopper != SFlagged && WSleeping in s.workers
  }

  /** No worker sleeps past `notify_all`, and none is on its way to. */
  ghost predicate Unmissable(s: State) {
    s.stop && WWaiting !in s.workers && (s.stopper != SFlagged ==> WSleeping !in s.workers)
  }

  lemma StepUnmissable(s: State, a: Action)
    requires Unmissable(s) && Enabled(s, a) && a != SetStop
    ensures Unmissable(Apply(s, a))
  {
    if a.StepP? {
      StepUnmissableP(s, a.p, a.wake);
    } else if a.StepW? {
      StepUnmissableW(s, a.w, a.wake);
    } else if a == StepS {
      var t := Apply(s, a);
      assert forall w :: 0 <= w < |t.workers| ==> t.workers[w] != WWaiting;
      assert s.stopper == SFlagged ==> forall w :: 0 <= w < |t.workers| ==> t.workers[w] != WSleeping;
    }
  }

  /** No worker gets between its test and its sleep, or falls asleep. */
  lemma NobodyFalls(s: State, t: State)
    requires Unmissable(s) && t.stop && t.stopper == s.stopper && |t.workers| == |s.workers|
    requires forall w :: 0 <= w < |t.workers| ==> t.workers[w] == s.workers[w] || t.workers[w] !in {WWaiting, WSleeping}
    ensures Unmissable(t)
  {
  }

  lemma StepUnmissableP(s: State, p: nat, wake: Option<nat>)
    requires Unmissable(s) && CanStepP(s, p, wake)
    ensures Unmissable(DoStepP(s, p, wake))
  {
    NobodyFalls(s, DoStepP(s, p, wake));
  }

  lemma StepUnmissableW(s: State, w: nat, wake: Option<nat>)
    requires Unmissable(s) && CanStepW(s, w, wake)
    ensures Unmissable(DoStepW(s, w, wake))
  {
    assert s.workers[w] != WWaiting;
    NobodyFalls(s, DoStepW(s, w, wake));
  }

  lemma {:induction false} RunUnmissable(n: nat, s: State, acts: seq<Action>, t: State)
    requires Reachable(n, s) && Unmissable(s) && IsRun(s, acts, t)
    ensures Unmissable(t)
    decreases |acts|
  {
    if acts != [] {
      ReachableStopStep(n, s, acts[0]);
      StepUnmissable(s, acts[0]);
      RunUnmissable(n, Apply(s, acts[0]), acts[1..], t);
    }
  }

  /** Some schedule from here leaves a worker asleep after `notify_all`. */
  ghost predicate CanMiss(s: State) {
    exists acts, t :: IsRun(s, acts, t) && Missed(t)
  }

  /**
   The flag is written without the mutex (101), so `notify_all` can fall between a worker's test
   at 126 and its sleep at 128.  Some schedule makes it miss a worker exactly when a worker is
   between the two while the flag is already set.
   */
  lemma MissedIff(n: nat, s: State)
    requires Reachable(n, s) && s.stopper == SFlagged
    ensures CanMiss(s) <==> WWaiting in s.workers
  {
    if WWaiting in s.workers {
      ReachableInv(n, s);
      var acts, t := MissedWorker(s);
    } else {
      CannotMiss(n, s);
    }
  }

  lemma CannotMiss(n: nat, s: State)
    requires Reachable(n, s) && s.stopper == SFlagged && WWaiting !in s.workers
    ensures !CanMiss(s)
  {
    FlagIsSet(n, s);
    if acts, t :| IsRun(s, acts, t) && Missed(t) {
      RunUnmissable(n, s, acts, t);
    }
  }

  lemma MissedWorker(s: State) returns (acts: seq<Action>, t: State)
    requires Exclusive(s) && s.stop && s.stopper == SFlagged && WWaiting in s.workers
    ensures IsRun(s, acts, t) && Missed(t) && CanMiss(s)
  {
    var w :| 0 <= w < |s.workers| && s.workers[w] == WWaiting;
    var u := Apply(s, StepS);
    t := Apply(u, StepW(w, None));
    assert t.workers[w] == WSleeping;
    acts := [StepS, StepW(w, None)];
    assert acts[1..] == [StepW(w, None)] && acts[1..][1..] == [];
    assert IsRun(t, acts[1..][1..], t);
    assert IsRun(u, acts[1..], t);
    assert IsRun(s, acts, t) && Missed(t);
  }

  // ---- when stop hangs ----

  /** Asleep, or between the test at 126 and the sleep at 128. */
  predicate Idling(pc: WorkerPc) { pc == WWaiting || pc == WSleeping }

  /**
   A worker is between its test and its sleep, no call is past the flag check and on its way to
   the mutex, and no worker that has yet to notify `task_put_` can send a sleeping call there.
   */
  ghost predicate Exposed(s: State) {
    && WWaiting in s.workers
    && PLocking !in s.producers && PWoken !in s.producers
    && NoneToWake(s)
  }

  ghost predicate NoneToWake(s: State) {
    PSleeping in s.producers ==> forall w :: 0 <= w < |s.workers| ==> !BetweenPopAndNotify(s.workers[w])
  }

  /** Some call is bound to notify `task_get_` after the worker that may be missed has fallen asleep. */
  ghost predicate Rescuer(s: State) {
    || (exists p :: 0 <= p < |s.producers| && s.producers[p] in {PLocking, PWoken, PTesting, PPushing})
    || (PNotifying in s.producers && WWaiting !in s.workers)
    || !NoneToWake(s)
  }

  /** At most one worker is still to be woken after `notify_all`. */
  ghost predicate OneIdler(s: State) {
    s.stopper != SFlagged ==>
      forall v, w :: 0 <= v < w < |s.workers| ==> !(Idling(s.workers[v]) && Idling(s.workers[w]))
  }

  /** After `notify_all` at most one worker is still to be woken, and then a call will wake it. */
  ghost predicate Rescued(s: State) {
    s.stop && OneIdler(s) && (Unmissable(s) || Rescuer(s))
  }

  lemma StepRescued(s: State, a: Action)
    requires Exclusive(s) && Rescued(s) && Enabled(s, a) && a != SetStop
    ensures Rescued(Apply(s, a))
  {
    if Unmissable(s) {
      StepUnmissable(s, a);
    }
    match a
    case Call => CallRescued(s);
    case StepP(p, wake) => StepRescuedP(s, p, wake);
    case SpuriousP(p) => assert Apply(s, a).producers[p] == PWoken;
    case StepW(w, wake) => StepRescuedW(s, w, wake);
    case SpuriousW(w) => SpuriousRescued(s, w);
    case StepS => NotifyAllRescued(s);
  }

  lemma CallRescued(s: State)
    requires Rescued(s)
    ensures Rescued(Apply(s, Call))
  {
    var t := Apply(s, Call);
    assert forall p :: 0 <= p < |s.producers| ==> t.producers[p] == s.producers[p];
  }

  lemma StepRescuedP(s: State, p: nat, wake: Option<nat>)
    requires Exclusive(s) && Rescued(s) && CanStepP(s, p, wake)
    requires Unmissable(s) ==> Unmissable(DoStepP(s, p, wake))
    ensures Rescued(DoStepP(s, p, wake))
  {
    var t := DoStepP(s, p, wake);
    assert OneIdler(t);
    if !NoneToWake(s) {
      SleeperKept(s, p, wake);
    } else if !Unmissable(s) {
      MoverRescues(s, p, wake);
    }
  }

  lemma SleeperKept(s: State, p: nat, wake: Option<nat>)
    requires CanStepP(s, p, wake) && !NoneToWake(s)
    ensures !NoneToWake(DoStepP(s, p, wake))
  {
    var t := DoStepP(s, p, wake);
    var q :| 0 <= q < |s.producers| && s.producers[q] == PSleeping;
    assert t.producers[q] == PSleeping;
    var w :| 0 <= w < |s.workers| && BetweenPopAndNotify(s.workers[w]);
    assert t.workers[w] == s.workers[w];
  }

  /** The call that steps is the one that was to wake the worker and still is, or it wakes it. */
  lemma MoverRescues(s: State, p: nat, wake: Option<nat>)
    requires Exclusive(s) && Rescued(s) && !Unmissable(s) && NoneToWake(s) && CanStepP(s, p, wake)
    ensures var t := DoStepP(s, p, wake); Unmissable(t) || Rescuer(t)
  {
    var t := DoStepP(s, p, wake);
    if q :| 0 <= q < |s.producers| && s.producers[q] in {PLocking, PWoken, PTesting, PPushing} {
      if q == p && s.producers[p] == PPushing {
        assert s.lock == ByProducer(p) && t.producers[p] == PNotifying;
        assert forall v :: 0 <= v < |s.workers| ==> t.workers[v] != WWaiting;
      } else {
        assert t.producers[q] in {PLocking, PWoken, PTesting, PPushing};
      }
    } else {
      var q :| 0 <= q < |s.producers| && s.producers[q] == PNotifying;
      assert WWaiting !in t.workers;
      if q != p {
        assert t.producers[q] == PNotifying;
      } else if wake.Some? {
        assert forall v :: 0 <= v < |s.workers| && v != wake.value ==> t.workers[v] == s.workers[v];
      }
    }
  }

  lemma StepRescuedW(s: State, w: nat, wake: Option<nat>)
    requires Exclusive(s) && Rescued(s) && CanStepW(s, w, wake)
    requires Unmissable(s) ==> Unmissable(DoStepW(s, w, wake))
    ensures Rescued(DoStepW(s, w, wake))
  {
    IdlersStay(s, w, wake);
    if !Unmissable(s) {
      WorkerKeepsRescuer(s, w, wake);
    }
  }

  lemma IdlersStay(s: State, w: nat, wake: Option<nat>)
    requires s.stop && OneIdler(s) && CanStepW(s, w, wake)
    ensures DoStepW(s, w, wake).stop && OneIdler(DoStepW(s, w, wake))
  {
    var t := DoStepW(s, w, wake);
    assert forall v :: 0 <= v < |s.workers| && Idling(t.workers[v]) ==> Idling(s.workers[v]);
  }

  lemma WorkerKeepsRescuer(s: State, w: nat, wake: Option<nat>)
    requires Exclusive(s) && s.stop && Rescuer(s) && CanStepW(s, w, wake)
    ensures Rescuer(DoStepW(s, w, wake))
  {
    var t := DoStepW(s, w, wake);
    if q :| 0 <= q < |s.producers| && s.producers[q] in {PLocking, PWoken, PTesting, PPushing} {
      assert t.producers[q] == s.producers[q];
    } else if !NoneToWake(s) {
      NotifierKept(s, w, wake);
    } else {
      var q :| 0 <= q < |s.producers| && s.producers[q] == PNotifying;
      assert t.producers[q] == PNotifying;
      assert forall v :: 0 <= v < |s.workers| ==> t.workers[v] != WWaiting;
    }
  }

  lemma NotifierKept(s: State, w: nat, wake: Option<nat>)
    requires CanStepW(s, w, wake) && !NoneToWake(s)
    ensures !NoneToWake(DoStepW(s, w, wake)) || PWoken in DoStepW(s, w, wake).producers
  {
    var t := DoStepW(s, w, wake);
    if wake.Some? {
      assert t.producers[wake.value] == PWoken;
    } else {
      var q :| 0 <= q < |s.producers| && s.producers[q] == PSleeping;
      assert t.producers[q] == PSleeping;
      var v :| 0 <= v < |s.workers| && BetweenPopAndNotify(s.workers[v]);
      assert BetweenPopAndNotify(t.workers[v]);
    }
  }

  lemma RescuerFrame(s: State, t: State)
    requires Rescuer(s) && t.producers == s.producers && |t.workers| == |s.workers|
    requires forall w :: 0 <= w < |s.workers| ==> t.workers[w] == s.workers[w] || s.workers[w] == WSleeping
    requires forall w :: 0 <= w < |s.workers| && t.workers[w] == WWaiting ==> s.workers[w] == WWaiting
    ensures Rescuer(t)
  {
    if !NoneToWake(s) {
      var w :| 0 <= w < |s.workers| && BetweenPopAndNotify(s.workers[w]);
      assert BetweenPopAndNotify(t.workers[w]);
    }
  }

  lemma SpuriousRescued(s: State, w: nat)
    requires Rescued(s) && Enabled(s, SpuriousW(w))
    requires Unmissable(s) ==> Unmissable(Apply(s, SpuriousW(w)))
    ensures Rescued(Apply(s, SpuriousW(w)))
  {
    if !Unmissable(s) {
      RescuerFrame(s, Apply(s, SpuriousW(w)));
    }
  }

  lemma NotifyAllRescued(s: State)
    requires Exclusive(s) && Rescued(s) && CanStepS(s)
    requires Unmissable(s) ==> Unmissable(DoStepS(s))
    ensures Rescued(DoStepS(s))
  {
    var t := DoStepS(s);
    assert OneIdler(t);
    if !Unmissable(s) {
      RescuerFrame(s, t);
    }
  }

  lemma {:induction false} RunRescued(n: nat, s: State, acts: seq<Action>, t: State)
    requires Reachable(n, s) && Rescued(s) && IsRun(s, acts, t)
    ensures Rescued(t)
    decreases |acts|
  {
    if acts != [] {
      ReachableInv(n, s);
      ReachableStopStep(n, s, acts[0]);
      StepRescued(s, acts[0]);
      RunRescued(n, Apply(s, acts[0]), acts[1..], t);
    }
  }

  /**
   Unless the pool is exposed when the flag is set, every run, late calls and spurious wakeups
   included, is bounded, and one that comes to rest has joined all workers and cleaned the queue.
   */
  lemma StopCompletes(n: nat, s: State, acts: seq<Action>, t: State)
    requires Reachable(n, s) && s.stopper == SFlagged && !Exposed(s)
    requires IsRun(s, acts, t)
    ensures |acts| <= StopMeasure(s) + 6 * Calls(acts)
    ensures Quiescent(t) ==> t.stopper == SDone && forall w :: 0 <= w < |t.workers| ==> t.workers[w] == WExited
  {
    FlagIsSet(n, s);
    StoppingIsFinite(n, s, acts, t);
    RunRescued(n, s, acts, t);
    if Quiescent(t) {
      StoppedAtRest(n, t);
    }
  }

  lemma FlagIsSet(n: nat, s: State)
    requires Reachable(n, s) && s.stopper == SFlagged
    ensures s.stop
  {
    ReachableInv(n, s);
  }

  lemma StoppedAtRest(n: nat, t: State)
    requires Reachable(n, t) && Rescued(t) && Quiescent(t)
    ensures t.stopper == SDone && forall w :: 0 <= w < |t.workers| ==> t.workers[w] == WExited
  {
    ReachableInv(n, t);
    QuiescentShape(t);
    assert !Enabled(t, StepS);
  }

  /** Worker `w` sleeps past `notify_all` and nobody is bound to notify `task_get_` any more. */
  ghost predicate Stranded(s: State, w: nat) {
    && s.stop && s.stopper.SJoining? && w < |s.workers| && s.workers[w] == WSleeping
    && s.stopper.joined <= w
    && (forall p :: 0 <= p < |s.producers| ==> s.producers[p] in {PEntry, PDone, PRefused, PSleeping})
    && NoneToWake(s) && WTaking !in s.workers
  }

  lemma StrandedStep(s: State, w: nat, a: Action)
    requires Stranded(s, w) && Enabled(s, a) && !a.SpuriousW? && !a.SpuriousP?
    ensures Stranded(Apply(s, a), w)
  {
    match a
    case StepP(p, wake) => StrandedStepP(s, w, p, wake);
    case StepW(v, wake) => StrandedStepW(s, w, v, wake);
    case Call => assert forall p :: 0 <= p < |s.producers| ==> Apply(s, a).producers[p] == s.producers[p];
    case _ =>
  }

  lemma StrandedStepP(s: State, w: nat, p: nat, wake: Option<nat>)
    requires Stranded(s, w) && CanStepP(s, p, wake)
    ensures Stranded(DoStepP(s, p, wake), w)
  {
    assert s.producers[p] == PEntry && DoStepP(s, p, wake) == SetP(s, p, PRefused);
  }

  lemma StrandedStepW(s: State, w: nat, v: nat, wake: Option<nat>)
    requires Stranded(s, w) && CanStepW(s, v, wake)
    ensures Stranded(DoStepW(s, v, wake), w)
  {
    assert wake == None && v != w;
    assert BetweenPopAndNotify(DoStepW(s, v, wake).workers[v]) ==> BetweenPopAndNotify(s.workers[v]);
  }

  /** Such a worker sleeps forever unless somebody wakes spuriously, and `stop` never returns. */
  lemma {:induction false} StrandedForever(s: State, w: nat, acts: seq<Action>, t: State)
    requires Stranded(s, w) && IsRun(s, acts, t)
    requires forall i :: 0 <= i < |acts| ==> !acts[i].SpuriousW? && !acts[i].SpuriousP?
    ensures Stranded(t, w) && t.stopper != SDone
    decreases |acts|
  {
    if acts != [] {
      StrandedStep(s, w, acts[0]);
      StrandedForever(Apply(s, acts[0]), w, acts[1..], t);
    }
  }

  /** Some run of the threads' own steps comes to rest with `stop` still waiting. */
  ghost predicate CanHang(s: State) {
    exists acts, t :: IsRun(s, acts, t) && OwnSteps(acts) && Quiescent(t) && t.stopper != SDone
  }

  lemma HangsAfter(s: State, a: Action)
    requires Enabled(s, a) && !Environment(a) && CanHang(Apply(s, a))
    ensures CanHang(s)
  {
    var acts, t :| IsRun(Apply(s, a), acts, t) && OwnSteps(acts) && Quiescent(t) && t.stopper != SDone;
    var longer := [a] + acts;
    assert longer[1..] == acts;
    assert IsRun(s, longer, t) && OwnSteps(longer);
  }

  /** A stranded pool comes to rest by its own steps, with the worker still stranded. */
  lemma {:induction false} StrandedHangs(n: nat, s: State, w: nat)
    requires Reachable(n, s) && Stranded(s, w)
    ensures CanHang(s)
    decreases StopMeasure(s)
  {
    if Quiescent(s) {
      assert IsRun(s, [], s) && OwnSteps([]);
    } else {
      var a: Action :| Enabled(s, a) && !Environment(a);
      ReachableStopStep(n, s, a);
      MeasureIsNatural(n, Apply(s, a));
      StrandedStep(s, w, a);
      StrandedHangs(n, Apply(s, a), w);
      HangsAfter(s, a);
    }
  }

  /** After `notify_all`, with worker `w` still on its way to sleep: pending notifications find no sleeper. */
  ghost predicate Falling(s: State, w: nat) {
    && s.stop && s.stopper == SJoining(0) && w < |s.workers| && s.workers[w] == WWaiting
    && WSleeping !in s.workers && PLocking !in s.producers && PWoken !in s.producers && NoneToWake(s)
  }

  lemma {:induction false} FallingHangs(n: nat, s: State, w: nat)
    requires Reachable(n, s) && Falling(s, w)
    ensures CanHang(s)
    decreases StopMeasure(s)
  {
    ReachableInv(n, s);
    var a := StepW(w, None);
    if PNotifying in s.producers {
      var p :| 0 <= p < |s.producers| && s.producers[p] == PNotifying;
      a := StepP(p, None);
      assert Falling(Apply(s, a), w);
      ReachableStopStep(n, s, a);
      MeasureIsNatural(n, Apply(s, a));
      FallingHangs(n, Apply(s, a), w);
    } else {
      FallsAsleep(s, w);
      ReachableStep(n, s, a);
      StrandedHangs(n, Apply(s, a), w);
    }
    HangsAfter(s, a);
  }

  lemma FallsAsleep(s: State, w: nat)
    requires Exclusive(s) && Falling(s, w) && PNotifying !in s.producers
    ensures CanStepW(s, w, None) && Stranded(DoStepW(s, w, None), w)
  {
    assert s.lock == ByWorker(w);
    assert forall p :: 0 <= p < |s.producers| ==> !InsideP(s.producers[p]);
    assert forall v :: 0 <= v < |s.workers| && v != w ==> s.workers[v] != WTaking;
  }

  lemma ExposedHangs(n: nat, s: State)
    requires Reachable(n, s) && s.stopper == SFlagged && Exposed(s)
    ensures CanHang(s)
  {
    FlagIsSet(n, s);
    var w :| 0 <= w < |s.workers| && s.workers[w] == WWaiting;
    var u := Apply(s, StepS);
    assert u.workers[w] == WWaiting && WSleeping !in u.workers;
    ReachableStep(n, s, StepS);
    FallingHangs(n, u, w);
    HangsAfter(s, StepS);
  }

  /**
   Once the flag is set, the threads can come to rest with `stop` still waiting for a join if and
   only if the pool is exposed.
   */
  lemma StopHangsIff(n: nat, s: State)
    requires Reachable(n, s) && s.stopper == SFlagged
    ensures CanHang(s) <==> Exposed(s)
  {
    if Exposed(s) {
      ExposedHangs(n, s);
    } else if acts, t :| IsRun(s, acts, t) && OwnSteps(acts) && Quiescent(t) && t.stopper != SDone {
      StopCompletes(n, s, acts, t);
    }
  }

  /** Every pool of at least one worker can get there: the flag is set while an idle worker falls asleep. */
  lemma StopMayHang(n: nat) returns (s: State)
    requires n >= 1
    ensures Reachable(n, s) && s.stopper == SFlagged && s.accepted == [] && s.producers == []
    ensures CanHang(s)
  {
    assert IsRun(Init(n), [], Init(n));
    s := PoolOrder.Step(n, Init(n), StepW(0, None));
    s := PoolOrder.Step(n, s, StepW(0, None));
    s := PoolOrder.Step(n, s, SetStop);
    assert s.workers[0] == WWaiting;
    ExposedHangs(n, s);
  }
}
