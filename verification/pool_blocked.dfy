/**
 Calls that are blocked on a full queue when the pool's stop flag is set.  `terminate_all` notifies
 only `task_get_`, so a call asleep on `task_put_` depends on the workers that have still to return
 from a task: each of them notifies once more, and wakes one call.
 */
module PoolBlocked {
  import opened Wrappers
  import opened PoolModel
  import opened PoolInvariants
  import opened PoolProgress
  import opened PoolStopping
  import opened Totals
  import PoolOrder

  /** The calls asleep on `task_put_`. */
  function Asleep(s: State): nat { Total(SleepingP, s.producers) }

  function NotifierRank(pc: WorkerPc): nat { if pc in {WTaking, WPopped, WRunning, WNotifying} then 1 else 0 }

  /** The workers past the stop check that have still to notify `task_put_`, 146. */
  function Notifiers(s: State): nat { Total(NotifierRank, s.workers) }

  /** How many calls more are asleep than there are notifications to come. */
  function Excess(s: State): nat {
    if Asleep(s) > Notifiers(s) then Asleep(s) - Notifiers(s) else 0
  }

  lemma AsleepIff(s: State)
    ensures Asleep(s) > 0 <==> PSleeping in s.producers
  {
    TotalZeroIff(SleepingP, s.producers);
    if PSleeping in s.producers {
      var p :| 0 <= p < |s.producers| && s.producers[p] == PSleeping;
      assert SleepingP(s.producers[p]) == 1;
    }
  }

  // ---- the excess does not change ----

  lemma StepExcess(s: State, a: Action)
    requires Exclusive(s) && TestsHold(s) && s.stop && PWaiting !in s.producers
    requires Enabled(s, a) && !a.SpuriousP?
    ensures var t := Apply(s, a); t.stop && PWaiting !in t.producers && Excess(t) == Excess(s)
  {
    var t := Apply(s, a);
    match a
    case Call => TotalPush(SleepingP, s.producers, PEntry);
    case StepP(p, wake) => StepExcessP(s, p, wake);
    case StepW(w, wake) => StepExcessW(s, w, wake);
    case SpuriousW(w) => TotalUpdate(NotifierRank, s.workers, w, WWoken);
    case StepS =>
      TotalMonotone(NotifierRank, t.workers, s.workers);
      TotalMonotone(NotifierRank, s.workers, t.workers);
    case _ =>
  }

  lemma StepExcessP(s: State, p: nat, wake: Option<nat>)
    requires s.stop && PWaiting !in s.producers && CanStepP(s, p, wake)
    ensures var t := DoStepP(s, p, wake); t.stop && PWaiting !in t.producers && Excess(t) == Excess(s)
  {
    TotalUpdate(SleepingP, s.producers, p, DoStepP(s, p, wake).producers[p]);
    if wake.Some? {
      TotalUpdate(NotifierRank, s.workers, wake.value, WWoken);
    }
  }

  lemma StepExcessW(s: State, w: nat, wake: Option<nat>)
    requires Exclusive(s) && TestsHold(s) && s.stop && PWaiting !in s.producers && CanStepW(s, w, wake)
    ensures var t := DoStepW(s, w, wake); t.stop && PWaiting !in t.producers && Excess(t) == Excess(s)
  {
    TotalUpdate(NotifierRank, s.workers, w, DoStepW(s, w, wake).workers[w]);
    if wake.Some? {
      TotalUpdate(SleepingP, s.producers, wake.value, PWoken);
    } else if s.workers[w] == WNotifying {
      AsleepIff(s);
    }
  }

  lemma {:induction false} RunExcess(n: nat, s: State, acts: seq<Action>, t: State)
    requires Reachable(n, s) && s.stop && PWaiting !in s.producers && IsRun(s, acts, t)
    requires forall i :: 0 <= i < |acts| ==> !acts[i].SpuriousP?
    ensures Excess(t) == Excess(s) && Reachable(n, t)
    decreases |acts|
  {
    if acts != [] {
      ReachableInv(n, s);
      StepExcess(s, acts[0]);
      ReachableStep(n, s, acts[0]);
      RunExcess(n, Apply(s, acts[0]), acts[1..], t);
    }
  }

  lemma RestHasNoNotifier(n: nat, t: State)
    requires Reachable(n, t) && Quiescent(t)
    ensures Excess(t) == Asleep(t)
  {
    ReachableInv(n, t);
    QuiescentShape(t);
    TotalZeroIff(NotifierRank, t.workers);
  }

  /**
   Whatever the schedule, late calls included: if no call stood between its test and its sleep when the
   flag was set, then at rest exactly those calls are asleep that outnumber the notifications to come.
   */
  lemma BlockedAtRest(n: nat, s: State, acts: seq<Action>, t: State)
    requires Reachable(n, s) && s.stop && PWaiting !in s.producers
    requires IsRun(s, acts, t) && Quiescent(t)
    requires forall i :: 0 <= i < |acts| ==> !acts[i].SpuriousP?
    ensures Asleep(t) == Excess(s)
    ensures forall p :: 0 <= p < |t.producers| && t.producers[p] != PSleeping ==> t.producers[p] in {PDone, PRefused}
  {
    RunExcess(n, s, acts, t);
    RestHasNoNotifier(n, t);
    ReachableInv(n, t);
    QuiescentShape(t);
  }

  // ---- exactly when a call may never return ----

  /** Some run of the threads' own steps comes to rest with a call still asleep in add_task. */
  ghost predicate CallsCanHang(s: State) {
    exists acts, t :: IsRun(s, acts, t) && OwnSteps(acts) && Quiescent(t) && PSleeping in t.producers
  }

  lemma CallsHangAfter(s: State, a: Action)
    requires Enabled(s, a) && !Environment(a) && CallsCanHang(Apply(s, a))
    ensures CallsCanHang(s)
  {
    var acts, t :| IsRun(Apply(s, a), acts, t) && OwnSteps(acts) && Quiescent(t) && PSleeping in t.producers;
    var longer := [a] + acts;
    assert longer[1..] == acts;
    assert IsRun(s, longer, t) && OwnSteps(longer);
  }

  lemma {:induction false} ExcessHangs(n: nat, s: State)
    requires Reachable(n, s) && s.stop && PWaiting !in s.producers && Excess(s) > 0
    ensures CallsCanHang(s)
    decreases StopMeasure(s)
  {
    if Quiescent(s) {
      RestHasNoNotifier(n, s);
      AsleepIff(s);
      assert IsRun(s, [], s) && OwnSteps([]);
    } else {
      var a: Action :| Enabled(s, a) && !Environment(a);
      ReachableInv(n, s);
      StepExcess(s, a);
      ReachableStopStep(n, s, a);
      MeasureIsNatural(n, Apply(s, a));
      ExcessHangs(n, Apply(s, a));
      CallsHangAfter(s, a);
    }
  }

  /** A worker between pop and notify can take its next step, whoever holds the mutex. */
  lemma NotifierMoves(s: State, w: nat, p: nat) returns (wake: Option<nat>)
    requires w < |s.workers| == |s.held| && BetweenPopAndNotify(s.workers[w])
    requires p < |s.producers| && s.producers[p] == PWaiting
    ensures CanStepW(s, w, wake)
    ensures var t := DoStepW(s, w, wake); p < |t.producers| && t.producers[p] == PWaiting
  {
    wake := PickProducer(s);
    wake := if s.workers[w] == WNotifying then wake else None;
  }

  /** A call between its test and its sleep: all notifications may come before it is asleep. */
  lemma {:induction false} WaitingHangs(n: nat, s: State, p: nat)
    requires Reachable(n, s) && s.stop && p < |s.producers| && s.producers[p] == PWaiting
    ensures CallsCanHang(s)
    decreases StopMeasure(s)
  {
    ReachableTasks(n, s);
    if w :| 0 <= w < |s.workers| && BetweenPopAndNotify(s.workers[w]) {
      var wake := NotifierMoves(s, w, p);
      var a := StepW(w, wake);
      ReachableStopStep(n, s, a);
      MeasureIsNatural(n, Apply(s, a));
      WaitingHangs(n, Apply(s, a), p);
      CallsHangAfter(s, a);
    } else {
      var a := StepP(p, None);
      ReachableInv(n, s);
      ReachableStopStep(n, s, a);
      LastOneSleeps(s, p);
      ExcessHangs(n, Apply(s, a));
      CallsHangAfter(s, a);
    }
  }

  lemma LastOneSleeps(s: State, p: nat)
    requires Exclusive(s) && p < |s.producers| && s.producers[p] == PWaiting
    requires forall w :: 0 <= w < |s.workers| ==> !BetweenPopAndNotify(s.workers[w])
    ensures var t := DoStepP(s, p, None); PWaiting !in t.producers && Excess(t) > 0
  {
    var t := DoStepP(s, p, None);
    assert s.lock == ByProducer(p);
    assert forall q :: 0 <= q < |s.producers| && q != p ==> s.producers[q] != PWaiting;
    assert forall w :: 0 <= w < |t.workers| ==> NotifierRank(t.workers[w]) == 0;
    TotalZeroIff(NotifierRank, t.workers);
    assert t.producers[p] == PSleeping;
    AsleepIff(t);
  }

  /**
   Once the flag is set, a call of add_task may never return if and only if one stands between its
   test at 88 and its sleep at 90, or more calls are asleep than workers have still to notify.
   */
  lemma CallsHangIff(n: nat, s: State)
    requires Reachable(n, s) && s.stop
    ensures CallsCanHang(s) <==> PWaiting in s.producers || Asleep(s) > Notifiers(s)
  {
    if PWaiting in s.producers {
      var p :| 0 <= p < |s.producers| && s.producers[p] == PWaiting;
      WaitingHangs(n, s, p);
    } else if Asleep(s) > Notifiers(s) {
      ExcessHangs(n, s);
    } else if acts, t :| IsRun(s, acts, t) && OwnSteps(acts) && Quiescent(t) && PSleeping in t.producers {
      BlockedAtRest(n, s, acts, t);
      AsleepIff(t);
    }
  }

  // ---- it happens ----

  /** `k` calls have handed their tasks over before any worker has looked. */
  lemma {:induction false} Filled(n: nat, k: nat) returns (s: State)
    requires k <= MAX_TASK_QUEUE_SIZE
    ensures Reachable(n, s) && s.lock == Free && !s.stop && s.stopper == SIdle && |s.queue| == k
  {
    if k == 0 {
      s := Init(n);
      assert IsRun(Init(n), [], s);
    } else {
      s := Filled(n, k - 1);
      s := PoolOrder.HandOver(n, s);
    }
  }

  /** Every pool can get there: the queue is full, one more call is about to wait, and the flag is set. */
  lemma CallsMayHang(n: nat) returns (s: State)
    ensures Reachable(n, s) && s.stopper == SFlagged && |s.queue| == MAX_TASK_QUEUE_SIZE
    ensures CallsCanHang(s)
  {
    s := Filled(n, MAX_TASK_QUEUE_SIZE);
    var p := |s.producers|;
    s := PoolOrder.Step(n, s, Call);
    s := PoolOrder.Step(n, s, StepP(p, None));
    s := PoolOrder.Step(n, s, StepP(p, None));
    s := PoolOrder.Step(n, s, StepP(p, None));
    s := PoolOrder.Step(n, s, SetStop);
    assert s.producers[p] == PWaiting;
    CallsHangIff(n, s);
  }
}
