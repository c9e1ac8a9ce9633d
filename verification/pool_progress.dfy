/**
 Progress of the running pool: no lost wakeup, no deadlock, and draining.  Draining is shown
 with an explicit measure that every step of a pool thread decreases, so a run without new
 calls and spurious wakeups is finite, and it can only end with every task executed.
 */
module PoolProgress {
  import opened Wrappers
  import opened PoolModel
  import opened PoolInvariants
  import opened Totals

  // ---- no lost wakeup ----

  /** A thread that is neither asleep on a condition variable nor gone. */
  predicate AwakeW(pc: WorkerPc) {
    pc != WSleeping && pc != WExited
  }

  predicate BetweenPopAndNotify(pc: WorkerPc) {
    pc == WPopped || pc == WRunning || pc == WNotifying
  }

  lemma NoLostWakeup(n: nat, s: State)
    requires Reachable(n, s) && !s.stop
    ensures n >= 1 && s.queue != [] ==>
              || (exists w :: 0 <= w < |s.workers| && AwakeW(s.workers[w]))
              || (exists p :: 0 <= p < |s.producers| && s.producers[p] == PNotifying)
    ensures PSleeping in s.producers && |s.queue| != MAX_TASK_QUEUE_SIZE ==>
              || (exists w :: 0 <= w < |s.workers| && BetweenPopAndNotify(s.workers[w]))
              || (exists p :: 0 <= p < |s.producers| && s.producers[p] in {PWoken, PTesting, PPushing})
    ensures s.lock != Free ==> exists a: Action :: !Environment(a) && Enabled(s, a)
  {
    ReachableInv(n, s);
    if n >= 1 && s.queue != [] && !AwakeW(s.workers[0]) {
      QueuedAttended(s);
    }
    if PSleeping in s.producers && |s.queue| != MAX_TASK_QUEUE_SIZE {
      SleeperAttended(s);
    }
    if s.lock != Free {
      HolderMoves(s);
    }
  }

  lemma QueuedAttended(s: State)
    requires Exclusive(s) && GetWakeups(s) && !s.stop && s.queue != [] && WSleeping in s.workers
    ensures || (exists w :: 0 <= w < |s.workers| && AwakeW(s.workers[w]))
            || (exists p :: 0 <= p < |s.producers| && s.producers[p] == PNotifying)
  {
    TotalZeroIff(SleepingW, s.workers);
    var v :| 0 <= v < |s.workers| && s.workers[v] == WSleeping;
    assert SleepingW(s.workers[v]) > 0;
    if Total(NotifyingP, s.producers) > 0 {
      TotalZeroIff(NotifyingP, s.producers);
    } else if Total(WokenW, s.workers) > 0 {
      TotalZeroIff(WokenW, s.workers);
      var w :| 0 <= w < |s.workers| && WokenW(s.workers[w]) != 0;
      assert AwakeW(s.workers[w]);
    } else {
      assert AwakeW(s.workers[s.lock.w]);
    }
  }

  lemma SleeperAttended(s: State)
    requires Exclusive(s) && Capacity(s) && PutWakeups(s) && !s.stop
    requires PSleeping in s.producers && |s.queue| != MAX_TASK_QUEUE_SIZE
    ensures || (exists w :: 0 <= w < |s.workers| && BetweenPopAndNotify(s.workers[w]))
            || (exists p :: 0 <= p < |s.producers| && s.producers[p] in {PWoken, PTesting, PPushing})
  {
    TotalZeroIff(SleepingP, s.producers);
    var q :| 0 <= q < |s.producers| && s.producers[q] == PSleeping;
    assert SleepingP(s.producers[q]) > 0;
    if Total(WokenP, s.producers) > 0 {
      TotalZeroIff(WokenP, s.producers);
    } else if Total(BetweenW, s.workers) > 0 {
      TotalZeroIff(BetweenW, s.workers);
      var w :| 0 <= w < |s.workers| && BetweenW(s.workers[w]) != 0;
      assert BetweenPopAndNotify(s.workers[w]);
    } else {
      assert s.producers[s.lock.p] in {PTesting, PPushing};
    }
  }

  /** Whoever holds the mutex can always take its next step. */
  lemma HolderMoves(s: State)
    requires Exclusive(s) && s.lock != Free
    ensures exists a: Action :: !Environment(a) && Enabled(s, a)
  {
    match s.lock
    case ByProducer(p) => assert Enabled(s, StepP(p, None));
    case ByWorker(w) => assert Enabled(s, StepW(w, None));
  }

  // ---- quiescence ----

  /** A sleeper that `notify_one` may choose, or None when there is none. */
  lemma PickWorker(s: State) returns (wake: Option<nat>)
    ensures WakesWorker(s, wake)
  {
    if WSleeping in s.workers {
      var w :| 0 <= w < |s.workers| && s.workers[w] == WSleeping;
      wake := Some(w);
    } else {
      wake := None;
    }
  }

  lemma PickProducer(s: State) returns (wake: Option<nat>)
    ensures WakesProducer(s, wake)
  {
    if PSleeping in s.producers {
      var p :| 0 <= p < |s.producers| && s.producers[p] == PSleeping;
      wake := Some(p);
    } else {
      wake := None;
    }
  }

  /** In a quiescent state the mutex is free and every thread is asleep or has left. */
  lemma QuiescentShape(s: State)
    requires Exclusive(s) && Quiescent(s)
    ensures s.lock == Free
    ensures forall p :: 0 <= p < |s.producers| ==> s.producers[p] in {PSleeping, PDone, PRefused}
    ensures forall w :: 0 <= w < |s.workers| ==> s.workers[w] in {WSleeping, WExited}
  {
    if s.lock != Free {
      HolderMoves(s);
    }
    forall p | 0 <= p < |s.producers| ensures s.producers[p] in {PSleeping, PDone, PRefused} {
      var wake := PickWorker(s);
      assert !Enabled(s, StepP(p, None)) && !Enabled(s, StepP(p, wake));
    }
    forall w | 0 <= w < |s.workers| ensures s.workers[w] in {WSleeping, WExited} {
      var wake := PickProducer(s);
      assert !Enabled(s, StepW(w, None)) && !Enabled(s, StepW(w, wake));
    }
  }

  /** Every call has returned and every task handed over has been executed, once. */
  ghost predicate Drained(s: State) {
    && s.queue == [] && s.discarded == []
    && Distinct(s.finished)
    && (forall p :: 0 <= p < |s.producers| ==> s.producers[p] == PDone)
    && (forall k: nat :: k in s.finished <==> k < |s.producers|)
  }

  /** Deadlock freedom: a running pool comes to rest only when nothing is left to do. */
  lemma QuiescentMeansDrained(n: nat, s: State)
    requires n >= 1 && Reachable(n, s) && Quiescent(s) && !s.stop
    ensures Drained(s)
  {
    ReachableInv(n, s);
    QuiescentShape(s);
    assert s.workers[0] == WSleeping;
    if s.queue != [] {
      QueuedAttended(s);
      assert false;
    }
    if PSleeping in s.producers {
      SleeperAttended(s);
      assert false;
    }
    forall k: nat ensures k in s.finished <==> k < |s.producers| {
      assert k in s.accepted <==> k in s.popped;
      assert k in s.popped <==> k in s.started;
      assert k in s.started <==> k in s.finished;
    }
  }

  // ---- draining terminates ----

  /** An upper bound on the steps that a worker at `pc` still takes before it sleeps. */
  function WorkerRank(pc: WorkerPc): nat {
    match pc
    case WSleeping | WTaking | WExited => 0
    case WWaiting | WChecking => 1
    case WTesting => 2
    case WLocking | WWoken => 3
    case WNotifying => 7
    case WRunning => 8
    case WPopped => 9
  }

  function ProducerRank(pc: ProducerPc): nat {
    match pc
    case PDone | PRefused => 0
    case PNotifying => 4
    case PSleeping => 14
    case PWaiting | PPushing => 15
    case PTesting => 16
    case PLocking | PWoken => 17
    case PEntry => 18
  }

  /** Unpushed tasks, queued tasks, running tasks, pending notifications and woken threads, weighted. */
  function DrainMeasure(s: State): nat {
    Total(WorkerRank, s.workers) + Total(ProducerRank, s.producers) + 10 * |s.queue|
  }

  lemma DrainStep(s: State, a: Action)
    requires Exclusive(s) && TestsHold(s) && StopOrdered(s) && Enabled(s, a) && !Environment(a) && !s.stop
    ensures DrainMeasure(Apply(s, a)) < DrainMeasure(s)
    ensures !Apply(s, a).stop
  {
    match a
    case StepP(p, wake) => DrainStepP(s, p, wake);
    case StepW(w, wake) => DrainStepW(s, w, wake);
    case StepS =>
  }

  lemma DrainStepP(s: State, p: nat, wake: Option<nat>)
    requires CanStepP(s, p, wake) && !s.stop
    ensures DrainMeasure(DoStepP(s, p, wake)) < DrainMeasure(s)
  {
    var t := DoStepP(s, p, wake);
    TotalUpdate(ProducerRank, s.producers, p, t.producers[p]);
    if wake.Some? {
      TotalUpdate(WorkerRank, s.workers, wake.value, WWoken);
    }
  }

  lemma DrainStepW(s: State, w: nat, wake: Option<nat>)
    requires Exclusive(s) && TestsHold(s) && CanStepW(s, w, wake) && !s.stop
    ensures DrainMeasure(DoStepW(s, w, wake)) < DrainMeasure(s)
  {
    var t := DoStepW(s, w, wake);
    TotalUpdate(WorkerRank, s.workers, w, t.workers[w]);
    if wake.Some? {
      TotalUpdate(ProducerRank, s.producers, wake.value, PWoken);
    }
  }

  ghost predicate OwnSteps(acts: seq<Action>) {
    forall i :: 0 <= i < |acts| ==> !Environment(acts[i])
  }

  lemma ReachableDrainStep(n: nat, s: State, a: Action)
    requires Reachable(n, s) && Enabled(s, a) && !Environment(a) && !s.stop
    ensures Reachable(n, Apply(s, a)) && !Apply(s, a).stop
    ensures DrainMeasure(Apply(s, a)) < DrainMeasure(s)
  {
    ReachableInv(n, s);
    ReachableStep(n, s, a);
    DrainStep(s, a);
  }

  /** Without new calls, stop and spurious wakeups a running pool takes at most DrainMeasure(s) steps. */
  lemma {:induction false} DrainingIsFinite(n: nat, s: State, acts: seq<Action>, t: State)
    requires Reachable(n, s) && !s.stop && IsRun(s, acts, t) && OwnSteps(acts)
    ensures |acts| + DrainMeasure(t) <= DrainMeasure(s)
    ensures Reachable(n, t) && !t.stop
    decreases |acts|
  {
    if acts != [] {
      ReachableDrainStep(n, s, acts[0]);
      assert OwnSteps(acts[1..]);
      DrainingIsFinite(n, Apply(s, acts[0]), acts[1..], t);
    }
  }

  /**
   From every state that a running pool of at least one worker can reach: whatever its threads do
   on their own is finite, and when nothing more can move every task has been executed exactly once.
   */
  lemma Draining(n: nat, s: State, acts: seq<Action>, t: State)
    requires n >= 1 && Reachable(n, s) && !s.stop
    requires IsRun(s, acts, t) && OwnSteps(acts)
    ensures |acts| <= DrainMeasure(s)
    ensures Quiescent(t) ==> Drained(t)
  {
    DrainingIsFinite(n, s, acts, t);
    if Quiescent(t) {
      QuiescentMeansDrained(n, t);
    }
  }

  /** And the pool can always be run to that end. */
  lemma {:induction false} CanDrain(n: nat, s: State) returns (acts: seq<Action>, t: State)
    requires n >= 1 && Reachable(n, s) && !s.stop
    ensures IsRun(s, acts, t) && OwnSteps(acts) && Quiescent(t) && Drained(t)
    decreases DrainMeasure(s)
  {
    if Quiescent(s) {
      acts, t := [], s;
      QuiescentMeansDrained(n, s);
    } else {
      var a: Action :| Enabled(s, a) && !Environment(a);
      ReachableDrainStep(n, s, a);
      var rest;
      rest, t := CanDrain(n, Apply(s, a));
      acts := [a] + rest;
      assert acts[1..] == rest;
    }
  }
}
