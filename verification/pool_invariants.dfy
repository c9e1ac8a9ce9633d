/**
 What every step of the worker pool keeps: mutual exclusion, exact accounting of tasks,
 the capacity bound, and the two wakeup invariants from which the absence of lost wakeups follows.
 */
module PoolInvariants {
  import opened Wrappers
  import opened PoolModel
  import opened Totals

  predicate InsideP(pc: ProducerPc) {
    pc == PTesting || pc == PWaiting || pc == PPushing
  }

  predicate InsideW(pc: WorkerPc) {
    pc == WTesting || pc == WWaiting || pc == WChecking || pc == WTaking
  }

  /** The mutex has at most one holder and its holder is the thread inside a critical section. */
  ghost predicate Exclusive(s: State) {
    && |s.held| == |s.workers|
    && (forall p :: 0 <= p < |s.producers| ==> (InsideP(s.producers[p]) <==> s.lock == ByProducer(p)))
    && (forall w :: 0 <= w < |s.workers| ==> (InsideW(s.workers[w]) <==> s.lock == ByWorker(w)))
    && (s.lock.ByProducer? ==> s.lock.p < |s.producers|)
    && (s.lock.ByWorker? ==> s.lock.w < |s.workers|)
  }

  /** The thread that tests the queue under the mutex may rely on the outcome of its test. */
  ghost predicate TestsHold(s: State)
    requires Exclusive(s)
  {
    && (s.lock.ByProducer? ==>
          && (s.producers[s.lock.p] == PWaiting ==> |s.queue| == MAX_TASK_QUEUE_SIZE)
          && (s.producers[s.lock.p] == PPushing ==> s.stop || |s.queue| < MAX_TASK_QUEUE_SIZE))
    && (s.lock.ByWorker? ==>
          && (s.workers[s.lock.w] == WWaiting ==> s.queue == [])
          && (s.workers[s.lock.w] == WChecking && !s.stop ==> s.queue != [])
          && (s.workers[s.lock.w] == WTaking ==> s.queue != []))
  }

  predicate HandedOver(pc: ProducerPc) {
    pc == PNotifying || pc == PDone
  }

  ghost predicate Distinct(q: seq<nat>) {
    forall i, j :: 0 <= i < j < |q| ==> q[i] != q[j]
  }

  /** Acceptance order is pop order, then discard order, then queue order; nothing is lost or doubled. */
  ghost predicate Accounted(s: State) {
    && s.accepted == s.popped + s.discarded + s.queue
    && (s.discarded != [] ==> s.stopper == SDone)
    && Distinct(s.accepted)
    && (forall k: nat :: k in s.accepted <==> k < |s.producers| && HandedOver(s.producers[k]))
  }

  /** Calls are refused and workers leave only after the flag; the stopper joins in order, then cleans. */
  ghost predicate StopOrdered(s: State) {
    && (s.stop <==> s.stopper != SIdle)
    && (!s.stop ==> forall p :: 0 <= p < |s.producers| ==> s.producers[p] != PRefused)
    && (s.stopper.SJoining? ==> s.stopper.joined <= |s.workers|)
    && (s.stopper.SJoining? ==> forall w :: 0 <= w < s.stopper.joined ==> s.workers[w] == WExited)
    && (s.stopper == SDone ==> forall w :: 0 <= w < |s.workers| ==> s.workers[w] == WExited)
    && (forall w :: 0 <= w < |s.workers| && s.workers[w] == WExited ==> s.stop)
  }

  /** Some worker at `pc` holds task `k`. */
  ghost predicate Holds(workers: seq<WorkerPc>, held: seq<nat>, pc: WorkerPc, k: nat)
    requires |held| == |workers|
  {
    exists w :: 0 <= w < |workers| && workers[w] == pc && held[w] == k
  }

  /** The tasks of `done` are exactly those of `due` that no worker at `pc` still holds. */
  ghost predicate Tracked(workers: seq<WorkerPc>, held: seq<nat>, pc: WorkerPc, due: seq<nat>, done: seq<nat>)
    requires |held| == |workers|
  {
    && (forall w :: 0 <= w < |workers| && workers[w] == pc ==> held[w] in due && held[w] !in done)
    && (forall v, w :: 0 <= v < w < |workers| && workers[v] == pc && workers[w] == pc ==> held[v] != held[w])
    && Distinct(done)
    && (forall k :: k in done ==> k in due)
    && (forall k :: k in due && k !in done ==> Holds(workers, held, pc, k))
  }

  /** A popped task is held by one worker that has not called it yet, or has been started once. */
  ghost predicate StartsOnce(s: State)
    requires |s.held| == |s.workers|
  {
    Tracked(s.workers, s.held, WPopped, s.popped, s.started)
  }

  /** A started task is running in one worker or has finished once. */
  ghost predicate FinishesOnce(s: State)
    requires |s.held| == |s.workers|
  {
    Tracked(s.workers, s.held, WRunning, s.started, s.finished)
  }

  // The threads that the wakeup invariants count.

  function SleepingP(pc: ProducerPc): nat { if pc == PSleeping then 1 else 0 }

  function WokenP(pc: ProducerPc): nat { if pc == PWoken then 1 else 0 }

  function NotifyingP(pc: ProducerPc): nat { if pc == PNotifying then 1 else 0 }

  function SleepingW(pc: WorkerPc): nat { if pc == WSleeping then 1 else 0 }

  function WokenW(pc: WorkerPc): nat { if pc == WWoken then 1 else 0 }

  /** Between pop and notify. */
  function BetweenW(pc: WorkerPc): nat { if pc in {WPopped, WRunning, WNotifying} then 1 else 0 }

  /** 1 when the mutex is held by a worker that will look at the queue before it sleeps again. */
  function WorkerAttends(s: State): nat {
    if s.lock.ByWorker? && s.lock.w < |s.workers| && s.workers[s.lock.w] != WWaiting then 1 else 0
  }

  function ProducerAttends(s: State): nat {
    if s.lock.ByProducer? && s.lock.p < |s.producers| && s.producers[s.lock.p] != PWaiting then 1 else 0
  }

  ghost predicate Capacity(s: State) {
    !s.stop ==> |s.queue| <= MAX_TASK_QUEUE_SIZE
  }

  /** While a worker sleeps, every queued task is matched by somebody who will see to it. */
  ghost predicate GetWakeups(s: State) {
    !s.stop && Total(SleepingW, s.workers) > 0 ==>
      |s.queue| <= Total(NotifyingP, s.producers) + Total(WokenW, s.workers) + WorkerAttends(s)
  }

  /** While a producer sleeps, every free slot is matched by somebody who will see to it. */
  ghost predicate PutWakeups(s: State) {
    !s.stop && Total(SleepingP, s.producers) > 0 ==>
      MAX_TASK_QUEUE_SIZE - |s.queue| <= Total(BetweenW, s.workers) + Total(WokenP, s.producers) + ProducerAttends(s)
  }

  ghost predicate Inv(s: State) {
    && Exclusive(s)
    && TestsHold(s)
    && StopOrdered(s)
    && Accounted(s)
    && StartsOnce(s)
    && FinishesOnce(s)
    && Capacity(s)
    && GetWakeups(s)
    && PutWakeups(s)
  }

  lemma InitInv(n: nat)
    ensures Inv(Init(n))
  {
    var s := Init(n);
    assert forall w :: 0 <= w < n ==> s.workers[w] == WLocking;
    TotalZeroIff(SleepingW, s.workers);
  }

  // ---- mutual exclusion, tests, capacity, stop order ----

  lemma StepExclusive(s: State, a: Action)
    requires Exclusive(s) && Enabled(s, a)
    ensures Exclusive(Apply(s, a))
  {
    if a.StepP? {
      StepExclusiveP(s, a.p, a.wake);
    } else if a.StepW? {
      StepExclusiveW(s, a.w, a.wake);
    }
  }

  lemma StepExclusiveP(s: State, p: nat, wake: Option<nat>)
    requires Exclusive(s) && CanStepP(s, p, wake)
    ensures Exclusive(DoStepP(s, p, wake))
  {
  }

  lemma StepExclusiveW(s: State, w: nat, wake: Option<nat>)
    requires Exclusive(s) && CanStepW(s, w, wake)
    ensures Exclusive(DoStepW(s, w, wake))
  {
    if s.workers[w] in {WLocking, WWoken} {
      LockExclusiveW(s, w);
    }
  }

  lemma LockExclusiveW(s: State, w: nat)
    requires Exclusive(s) && CanStepW(s, w, None) && s.workers[w] in {WLocking, WWoken}
    ensures Exclusive(DoStepW(s, w, None))
  {
  }

  lemma StepTestsHold(s: State, a: Action)
    requires Exclusive(s) && TestsHold(s) && Capacity(s) && Enabled(s, a)
    requires Exclusive(Apply(s, a))
    ensures TestsHold(Apply(s, a)) && Capacity(Apply(s, a))
  {
    if a.StepP? {
      StepTestsHoldP(s, a.p, a.wake);
    } else if a.StepW? {
      StepTestsHoldW(s, a.w, a.wake);
    }
  }

  lemma StepTestsHoldP(s: State, p: nat, wake: Option<nat>)
    requires Exclusive(s) && TestsHold(s) && Capacity(s) && CanStepP(s, p, wake)
    requires Exclusive(DoStepP(s, p, wake))
    ensures TestsHold(DoStepP(s, p, wake)) && Capacity(DoStepP(s, p, wake))
  {
  }

  lemma StepTestsHoldW(s: State, w: nat, wake: Option<nat>)
    requires Exclusive(s) && TestsHold(s) && Capacity(s) && CanStepW(s, w, wake)
    requires Exclusive(DoStepW(s, w, wake))
    ensures TestsHold(DoStepW(s, w, wake)) && Capacity(DoStepW(s, w, wake))
  {
  }

  lemma StepStopOrdered(s: State, a: Action)
    requires Exclusive(s) && StopOrdered(s) && Enabled(s, a)
    ensures StopOrdered(Apply(s, a))
  {
    if a.StepP? {
      StepStopOrderedP(s, a.p, a.wake);
    } else if a.StepW? {
      StepStopOrderedW(s, a.w, a.wake);
    }
  }

  lemma StepStopOrderedP(s: State, p: nat, wake: Option<nat>)
    requires StopOrdered(s) && CanStepP(s, p, wake)
    ensures StopOrdered(DoStepP(s, p, wake))
  {
  }

  lemma StepStopOrderedW(s: State, w: nat, wake: Option<nat>)
    requires StopOrdered(s) && CanStepW(s, w, wake)
    ensures StopOrdered(DoStepW(s, w, wake))
  {
  }

  // ---- accounting ----

  lemma StepAccounted(s: State, a: Action)
    requires Exclusive(s) && StopOrdered(s) && Accounted(s) && Enabled(s, a)
    ensures Accounted(Apply(s, a))
  {
    if a.StepP? && s.producers[a.p] == PPushing {
      PushAccounted(s, a.p, a.wake);
    } else if a.StepP? {
      StepAccountedP(s, a.p, a.wake);
    } else if a.StepW? {
      StepAccountedW(s, a.w, a.wake);
    }
  }

  lemma PushAccounted(s: State, p: nat, wake: Option<nat>)
    requires Accounted(s) && CanStepP(s, p, wake) && s.producers[p] == PPushing
    ensures Accounted(DoStepP(s, p, wake))
  {
    var t := DoStepP(s, p, wake);
    assert t.accepted == t.popped + t.discarded + t.queue;
  }

  lemma StepAccountedP(s: State, p: nat, wake: Option<nat>)
    requires Accounted(s) && CanStepP(s, p, wake) && s.producers[p] != PPushing
    ensures Accounted(DoStepP(s, p, wake))
  {
    assert DoStepP(s, p, wake).accepted == s.accepted;
  }

  lemma StepAccountedW(s: State, w: nat, wake: Option<nat>)
    requires Exclusive(s) && StopOrdered(s) && Accounted(s) && CanStepW(s, w, wake)
    ensures Accounted(DoStepW(s, w, wake))
  {
    var t := DoStepW(s, w, wake);
    if s.workers[w] == WTaking && s.queue != [] {
      assert s.discarded == [];
      assert s.accepted == t.popped + t.discarded + t.queue;
    }
  }

  lemma TrackedFrame(
    workers: seq<WorkerPc>, workers': seq<WorkerPc>, held: seq<nat>, pc: WorkerPc, due: seq<nat>, done: seq<nat>)
    requires |workers'| == |workers| == |held| && Tracked(workers, held, pc, due, done)
    requires forall w :: 0 <= w < |workers| ==> (workers'[w] == pc <==> workers[w] == pc)
    ensures Tracked(workers', held, pc, due, done)
  {
    forall k | k in due && k !in done
      ensures Holds(workers', held, pc, k)
    {
      var w :| 0 <= w < |workers| && workers[w] == pc && held[w] == k;
      assert workers'[w] == pc;
    }
  }

  lemma TrackedEnter(
    workers: seq<WorkerPc>, held: seq<nat>, pc: WorkerPc, due: seq<nat>, done: seq<nat>, w: nat, k: nat)
    requires |workers| == |held| && Tracked(workers, held, pc, due, done)
    requires w < |workers| && workers[w] != pc && k !in due
    ensures Tracked(workers[w := pc], held[w := k], pc, due + [k], done)
  {
    TrackedEnterHeld(workers, held, pc, due, done, w, k);
    forall j | j in due + [k] && j !in done
      ensures Holds(workers[w := pc], held[w := k], pc, j)
    {
      TrackedEnterHolder(workers, held, pc, due, done, w, k, j);
    }
  }

  lemma TrackedEnterHeld(
    workers: seq<WorkerPc>, held: seq<nat>, pc: WorkerPc, due: seq<nat>, done: seq<nat>, w: nat, k: nat)
    requires |workers| == |held| && Tracked(workers, held, pc, due, done)
    requires w < |workers| && workers[w] != pc && k !in due
    ensures var workers', held' := workers[w := pc], held[w := k];
            && (forall v :: 0 <= v < |workers'| && workers'[v] == pc ==> held'[v] in due + [k] && held'[v] !in done)
            && (forall u, v :: 0 <= u < v < |workers'| && workers'[u] == pc && workers'[v] == pc ==> held'[u] != held'[v])
  {
  }

  lemma TrackedEnterHolder(
    workers: seq<WorkerPc>, held: seq<nat>, pc: WorkerPc, due: seq<nat>, done: seq<nat>, w: nat, k: nat, j: nat)
    requires |workers| == |held| && Tracked(workers, held, pc, due, done)
    requires w < |workers| && workers[w] != pc && j in due + [k] && j !in done
    ensures Holds(workers[w := pc], held[w := k], pc, j)
  {
    if j == k {
      assert workers[w := pc][w] == pc && held[w := k][w] == j;
    } else {
      var v :| 0 <= v < |workers| && workers[v] == pc && held[v] == j;
      assert workers[w := pc][v] == pc && held[w := k][v] == j;
    }
  }

  lemma TrackedLeave(
    workers: seq<WorkerPc>, held: seq<nat>, pc: WorkerPc, due: seq<nat>, done: seq<nat>, w: nat, next: WorkerPc)
    requires |workers| == |held| && Tracked(workers, held, pc, due, done)
    requires w < |workers| && workers[w] == pc != next
    ensures Tracked(workers[w := next], held, pc, due, done + [held[w]])
  {
    var workers', done' := workers[w := next], done + [held[w]];
    forall j | j in due && j !in done'
      ensures Holds(workers', held, pc, j)
    {
      assert j !in done;
      var v :| 0 <= v < |workers| && workers[v] == pc && held[v] == j;
      assert workers'[v] == pc;
    }
  }

  /** The step moves no worker into or out of the states in which a task is held. */
  predicate HandlesNoTask(s: State, a: Action)
    requires Enabled(s, a)
  {
    a.StepW? ==> s.workers[a.w] != WTaking && s.workers[a.w] != WPopped && s.workers[a.w] != WRunning
  }

  lemma StepTracked(s: State, a: Action)
    requires Exclusive(s) && StopOrdered(s) && Accounted(s) && StartsOnce(s) && FinishesOnce(s) && Enabled(s, a)
    requires Exclusive(Apply(s, a))
    ensures StartsOnce(Apply(s, a)) && FinishesOnce(Apply(s, a))
  {
    var t := Apply(s, a);
    if HandlesNoTask(s, a) {
      KeepsTasks(s, a);
      TrackedFrame(s.workers, t.workers, s.held, WPopped, s.popped, s.started);
      TrackedFrame(s.workers, t.workers, s.held, WRunning, s.started, s.finished);
    } else if s.workers[a.w] == WTaking {
      TakeTracked(s, a.w, a.wake);
    } else if s.workers[a.w] == WPopped {
      TrackedLeave(s.workers, s.held, WPopped, s.popped, s.started, a.w, WRunning);
      TrackedEnter(s.workers, s.held, WRunning, s.started, s.finished, a.w, s.held[a.w]);
      assert s.held[a.w := s.held[a.w]] == s.held;
    } else {
      TrackedFrame(s.workers, t.workers, s.held, WPopped, s.popped, s.started);
      TrackedLeave(s.workers, s.held, WRunning, s.started, s.finished, a.w, WNotifying);
    }
  }

  /** `t` differs from `s` in nothing that says which tasks are held. */
  ghost predicate SameTasks(s: State, t: State) {
    && t.held == s.held && t.popped == s.popped && t.started == s.started && t.finished == s.finished
    && |t.workers| == |s.workers|
    && forall w :: 0 <= w < |s.workers| ==>
         && (t.workers[w] == WPopped <==> s.workers[w] == WPopped)
         && (t.workers[w] == WRunning <==> s.workers[w] == WRunning)
  }

  lemma KeepsTasks(s: State, a: Action)
    requires Enabled(s, a) && HandlesNoTask(s, a)
    ensures SameTasks(s, Apply(s, a))
  {
    match a
    case StepP(p, wake) => KeepsTasksP(s, p, wake);
    case StepW(w, wake) => KeepsTasksW(s, w, wake);
    case _ =>
  }

  lemma KeepsTasksP(s: State, p: nat, wake: Option<nat>)
    requires CanStepP(s, p, wake)
    ensures SameTasks(s, DoStepP(s, p, wake))
  {
  }

  lemma KeepsTasksW(s: State, w: nat, wake: Option<nat>)
    requires CanStepW(s, w, wake) && s.workers[w] !in {WTaking, WPopped, WRunning}
    ensures SameTasks(s, DoStepW(s, w, wake))
  {
  }

  lemma FrontIsNew(s: State, w: nat)
    requires StopOrdered(s) && Accounted(s) && s.queue != []
    requires w < |s.workers| && s.workers[w] != WExited
    ensures s.discarded == [] && s.queue[0] !in s.popped
  {
    assert s.accepted[|s.popped|] == s.queue[0];
    forall i | 0 <= i < |s.popped| ensures s.popped[i] != s.queue[0] {
      assert s.accepted[i] == s.popped[i];
    }
  }

  lemma TakeTracked(s: State, w: nat, wake: Option<nat>)
    requires Exclusive(s) && StopOrdered(s) && Accounted(s) && StartsOnce(s) && FinishesOnce(s) && CanStepW(s, w, wake)
    requires s.workers[w] == WTaking
    ensures var t := DoStepW(s, w, wake); |t.held| == |t.workers| && StartsOnce(t) && FinishesOnce(t)
  {
    var t := DoStepW(s, w, wake);
    if s.queue != [] {
      FrontIsNew(s, w);
      TrackedEnter(s.workers, s.held, WPopped, s.popped, s.started, w, s.queue[0]);
      TrackedOverwrite(s.workers, s.held, s.started, s.finished, w, s.queue[0]);
    } else {
      TrackedFrame(s.workers, t.workers, s.held, WPopped, s.popped, s.started);
      TrackedFrame(s.workers, t.workers, s.held, WRunning, s.started, s.finished);
    }
  }

  /** Taking a task overwrites what worker `w` held, which no longer matters to the running tasks. */
  lemma TrackedOverwrite(workers: seq<WorkerPc>, held: seq<nat>, due: seq<nat>, done: seq<nat>, w: nat, k: nat)
    requires |workers| == |held| && Tracked(workers, held, WRunning, due, done)
    requires w < |workers| && workers[w] == WTaking
    ensures Tracked(workers[w := WPopped], held[w := k], WRunning, due, done)
  {
    var workers', held' := workers[w := WPopped], held[w := k];
    forall j | j in due && j !in done
      ensures Holds(workers', held', WRunning, j)
    {
      var v :| 0 <= v < |workers| && workers[v] == WRunning && held[v] == j;
      assert workers'[v] == WRunning && held'[v] == j;
    }
  }

  // ---- wakeups ----

  /** What call `p` knows at its program counter: whether it holds the mutex, and the outcome of its test. */
  predicate KnowsP(s: State, p: nat) {
    && p < |s.producers|
    && (InsideP(s.producers[p]) <==> s.lock == ByProducer(p))
    && (s.producers[p] == PWaiting ==> |s.queue| == MAX_TASK_QUEUE_SIZE)
  }

  predicate KnowsW(s: State, w: nat) {
    && w < |s.workers|
    && (InsideW(s.workers[w]) <==> s.lock == ByWorker(w))
    && (s.workers[w] == WWaiting ==> s.queue == [])
  }

  lemma StepGetWakeups(s: State, a: Action)
    requires Exclusive(s) && StopOrdered(s) && TestsHold(s) && GetWakeups(s) && Enabled(s, a)
    ensures GetWakeups(Apply(s, a))
  {
    match a
    case Call => TotalPush(NotifyingP, s.producers, PEntry);
    case StepP(p, wake) => StepGetWakeupsP(s, p, wake);
    case SpuriousP(p) => TotalUpdate(NotifyingP, s.producers, p, PWoken);
    case StepW(w, wake) => StepGetWakeupsW(s, w, wake);
    case SpuriousW(w) =>
      TotalUpdate(SleepingW, s.workers, w, WWoken);
      TotalUpdate(WokenW, s.workers, w, WWoken);
    case _ =>
  }

  lemma StepGetWakeupsP(s: State, p: nat, wake: Option<nat>)
    requires KnowsP(s, p) && GetWakeups(s) && CanStepP(s, p, wake)
    ensures GetWakeups(DoStepP(s, p, wake))
  {
    TotalUpdate(NotifyingP, s.producers, p, DoStepP(s, p, wake).producers[p]);
    if wake.Some? {
      TotalUpdate(SleepingW, s.workers, wake.value, WWoken);
      TotalUpdate(WokenW, s.workers, wake.value, WWoken);
    } else if s.producers[p] == PNotifying {
      TotalZeroIff(SleepingW, s.workers);
    }
  }

  lemma StepGetWakeupsW(s: State, w: nat, wake: Option<nat>)
    requires KnowsW(s, w) && GetWakeups(s) && CanStepW(s, w, wake)
    ensures GetWakeups(DoStepW(s, w, wake))
  {
    var pc := DoStepW(s, w, wake).workers[w];
    TotalUpdate(SleepingW, s.workers, w, pc);
    TotalUpdate(WokenW, s.workers, w, pc);
    if wake.Some? {
      TotalUpdate(NotifyingP, s.producers, wake.value, PWoken);
    }
  }

  lemma StepPutWakeups(s: State, a: Action)
    requires Exclusive(s) && StopOrdered(s) && TestsHold(s) && Capacity(s) && PutWakeups(s) && Enabled(s, a)
    ensures PutWakeups(Apply(s, a))
  {
    match a
    case Call =>
      TotalPush(SleepingP, s.producers, PEntry);
      TotalPush(WokenP, s.producers, PEntry);
    case StepP(p, wake) => StepPutWakeupsP(s, p, wake);
    case SpuriousP(p) =>
      TotalUpdate(SleepingP, s.producers, p, PWoken);
      TotalUpdate(WokenP, s.producers, p, PWoken);
    case StepW(w, wake) => StepPutWakeupsW(s, w, wake);
    case SpuriousW(w) => TotalUpdate(BetweenW, s.workers, w, WWoken);
    case _ =>
  }

  lemma StepPutWakeupsP(s: State, p: nat, wake: Option<nat>)
    requires KnowsP(s, p) && PutWakeups(s) && CanStepP(s, p, wake)
    ensures PutWakeups(DoStepP(s, p, wake))
  {
    var pc := DoStepP(s, p, wake).producers[p];
    TotalUpdate(SleepingP, s.producers, p, pc);
    TotalUpdate(WokenP, s.producers, p, pc);
    if wake.Some? {
      TotalUpdate(BetweenW, s.workers, wake.value, WWoken);
    }
  }

  lemma StepPutWakeupsW(s: State, w: nat, wake: Option<nat>)
    requires KnowsW(s, w) && PutWakeups(s) && CanStepW(s, w, wake)
    ensures PutWakeups(DoStepW(s, w, wake))
  {
    if s.workers[w] == WNotifying {
      NotifyPutWakeups(s, w, wake);
    } else {
      TotalUpdate(BetweenW, s.workers, w, DoStepW(s, w, wake).workers[w]);
    }
  }

  /** One notification of `task_put_` turns one sleeper into a woken producer, or finds no sleeper. */
  lemma NotifyPutWakeups(s: State, w: nat, wake: Option<nat>)
    requires KnowsW(s, w) && PutWakeups(s) && CanStepW(s, w, wake) && s.workers[w] == WNotifying
    ensures PutWakeups(DoStepW(s, w, wake))
  {
    TotalUpdate(BetweenW, s.workers, w, WLocking);
    if wake.Some? {
      TotalUpdate(SleepingP, s.producers, wake.value, PWoken);
      TotalUpdate(WokenP, s.producers, wake.value, PWoken);
    } else {
      TotalZeroIff(SleepingP, s.producers);
    }
  }

  // ---- every reachable state ----

  lemma StepInv(s: State, a: Action)
    requires Inv(s) && Enabled(s, a)
    ensures Inv(Apply(s, a))
  {
    StepExclusive(s, a);
    StepTestsHold(s, a);
    StepStopOrdered(s, a);
    StepAccounted(s, a);
    StepTracked(s, a);
    StepGetWakeups(s, a);
    StepPutWakeups(s, a);
  }

  lemma {:induction false} RunInv(s: State, acts: seq<Action>, t: State)
    requires Inv(s) && IsRun(s, acts, t)
    ensures Inv(t) && |t.workers| == |s.workers|
    decreases |acts|
  {
    if acts != [] {
      StepInv(s, acts[0]);
      RunInv(Apply(s, acts[0]), acts[1..], t);
    }
  }

  /** A state of a pool started with `n` workers, after any schedule of calls, steps and wakeups. */
  ghost predicate Reachable(n: nat, s: State) {
    exists acts :: IsRun(Init(n), acts, s)
  }

  lemma ReachableInv(n: nat, s: State)
    requires Reachable(n, s)
    ensures Inv(s) && |s.workers| == n
  {
    var acts :| IsRun(Init(n), acts, s);
    InitInv(n);
    RunInv(Init(n), acts, s);
  }

  lemma {:induction false} RunExtend(s: State, acts: seq<Action>, t: State, a: Action)
    requires IsRun(s, acts, t) && Enabled(t, a)
    ensures IsRun(s, acts + [a], Apply(t, a))
    decreases |acts|
  {
    if acts == [] {
      assert IsRun(Apply(s, a), [], Apply(t, a));
      assert ([a])[1..] == [];
    } else {
      RunExtend(Apply(s, acts[0]), acts[1..], t, a);
      assert (acts + [a])[1..] == acts[1..] + [a];
    }
  }

  lemma ReachableTasks(n: nat, s: State)
    requires Reachable(n, s)
    ensures |s.held| == |s.workers| == n && Accounted(s) && StartsOnce(s) && FinishesOnce(s)
  {
    ReachableInv(n, s);
  }

  lemma ReachableStep(n: nat, s: State, a: Action)
    requires Reachable(n, s) && Enabled(s, a)
    ensures Reachable(n, Apply(s, a))
  {
    var acts :| IsRun(Init(n), acts, s);
    RunExtend(Init(n), acts, s, a);
  }

  // ---- the closure that a worker keeps until the end of its loop body ----

  /** A task that returned is held by the worker that has still to notify `task_put_`, and by no other. */
  ghost predicate NotifiesOnce(s: State) {
    && |s.held| == |s.workers|
    && (forall w :: 0 <= w < |s.workers| && s.workers[w] == WNotifying ==> s.held[w] in s.finished)
    && (forall v, w :: 0 <= v < w < |s.workers| && s.workers[v] == WNotifying && s.workers[w] == WNotifying
                       ==> s.held[v] != s.held[w])
  }

  lemma StepNotifiesOnce(s: State, a: Action)
    requires Exclusive(s) && FinishesOnce(s) && NotifiesOnce(s) && Enabled(s, a)
    ensures NotifiesOnce(Apply(s, a))
  {
    if a.StepP? {
      StepNotifiesOnceP(s, a.p, a.wake);
    } else if a.StepW? {
      StepNotifiesOnceW(s, a.w, a.wake);
    }
  }

  lemma NotifiesFrame(s: State, t: State)
    requires NotifiesOnce(s) && |t.held| == |t.workers| == |s.workers| && s.finished <= t.finished
    requires forall w :: 0 <= w < |t.workers| && t.workers[w] == WNotifying ==>
                           s.workers[w] == WNotifying && t.held[w] == s.held[w]
    ensures NotifiesOnce(t)
  {
    assert forall k :: k in s.finished ==> k in t.finished;
  }

  lemma StepNotifiesOnceP(s: State, p: nat, wake: Option<nat>)
    requires NotifiesOnce(s) && CanStepP(s, p, wake)
    ensures NotifiesOnce(DoStepP(s, p, wake))
  {
    NotifiesFrame(s, DoStepP(s, p, wake));
  }

  lemma StepNotifiesOnceW(s: State, w: nat, wake: Option<nat>)
    requires |s.held| == |s.workers| && FinishesOnce(s) && NotifiesOnce(s) && CanStepW(s, w, wake)
    ensures NotifiesOnce(DoStepW(s, w, wake))
  {
    if s.workers[w] == WRunning {
      assert s.held[w] !in s.finished;
      ReturnNotifiesOnce(s, w, wake);
    } else {
      NotifiesFrame(s, DoStepW(s, w, wake));
    }
  }

  lemma ReturnNotifiesOnce(s: State, w: nat, wake: Option<nat>)
    requires NotifiesOnce(s) && CanStepW(s, w, wake) && s.workers[w] == WRunning && s.held[w] !in s.finished
    ensures NotifiesOnce(DoStepW(s, w, wake))
  {
    assert forall v :: 0 <= v < |s.workers| && s.workers[v] == WNotifying ==> s.held[v] != s.held[w];
  }

  lemma {:induction false} RunNotifiesOnce(s: State, acts: seq<Action>, t: State)
    requires Inv(s) && NotifiesOnce(s) && IsRun(s, acts, t)
    ensures NotifiesOnce(t)
    decreases |acts|
  {
    if acts != [] {
      StepInv(s, acts[0]);
      StepNotifiesOnce(s, acts[0]);
      RunNotifiesOnce(Apply(s, acts[0]), acts[1..], t);
    }
  }

  lemma ReachableNotifiesOnce(n: nat, s: State)
    requires Reachable(n, s)
    ensures NotifiesOnce(s)
  {
    var acts :| IsRun(Init(n), acts, s);
    InitInv(n);
    RunNotifiesOnce(Init(n), acts, s);
  }
}
