/**
 The class thread_pool of easyrpc/base/thread_pool.hpp.  Its methods are the critical sections
 of the source on the real queue and flag.  Each is tied to a function on the state of the
 transition system, and a lemma says that the function is a run of that thread's own steps.  The
 steps between them (notifying, running a task, waking, joining) touch neither the queue nor the
 flag; a ghost method takes them.  So the methods interleave as the threads do, and the object is
 always in a reachable state.
 */
module ThreadPoolClass {
  import opened Wrappers
  import opened PoolModel
  import opened PoolInvariants
  import PoolOrder

  const MAX_THREAD_SIZE: nat := 30

  datatype InitResult = Started | InvalidArgument

  /** What a worker's critical section (123-141) ends with; Got(None) would be the null task of 143. */
  datatype TakeOutcome<+T> = Asleep | Leave | Got(task: Option<T>)

  // ---- critical sections as functions on the state ----

  predicate MustWait(s: State) {
    |s.queue| == MAX_TASK_QUEUE_SIZE && !s.stop
  }

  /** 84-95 for call `p`, from locking to the push or to sleep. */
  function AfterPut(s: State, p: nat): State
    requires p < |s.producers|
  {
    if MustWait(s) then SetP(s, p, PSleeping)
    else SetP(s, p, PNotifying).(queue := s.queue + [p], accepted := s.accepted + [p])
  }

  /** 123-141 for worker `w`, from locking to sleep, to leaving or to a popped task. */
  function AfterTake(s: State, w: nat): State
    requires w < |s.workers| == |s.held|
  {
    if s.stop then SetW(s, w, WExited)
    else if s.queue == [] then SetW(s, w, WSleeping)
    else SetW(s, w, WPopped).(held := s.held[w := s.queue[0]], queue := s.queue[1..],
                              popped := s.popped + [s.queue[0]])
  }

  function AfterCall(s: State): State {
    s.(producers := s.producers + [if s.stop then PRefused else PLocking])
  }

  function AfterClean(s: State): State {
    s.(discarded := s.discarded + s.queue, queue := [], stopper := SDone)
  }

  /** One step more of a run from `s`. */
  lemma Go(n: nat, s: State, acts: seq<Action>, t: State, a: Action) returns (acts': seq<Action>, t': State)
    requires Reachable(n, t) && IsRun(s, acts, t) && Enabled(t, a)
    ensures acts' == acts + [a] && t' == Apply(t, a) && Reachable(n, t') && IsRun(s, acts', t')
  {
    acts', t' := acts + [a], Apply(t, a);
    RunExtend(s, acts, t, a);
    ReachableStep(n, t, a);
  }

  /** A call begins and reads the flag: it goes on to the mutex, or is refused once the flag is set. */
  lemma CallIsARun(n: nat, s: State) returns (acts: seq<Action>)
    requires Reachable(n, s)
    ensures Reachable(n, AfterCall(s)) && IsRun(s, acts, AfterCall(s))
    ensures acts == [Call, StepP(|s.producers|, None)]
    ensures AfterCall(s).producers == s.producers + [if s.stop then PRefused else PLocking]
  {
    var t;
    acts, t := Go(n, s, [], s, Call);
    acts, t := Go(n, s, acts, t, StepP(|s.producers|, None));
    assert t.producers == AfterCall(s).producers;
  }

  /** All of `acts` are steps of call `p` on its own. */
  ghost predicate OwnP(acts: seq<Action>, p: nat) {
    acts != [] && forall i :: 0 <= i < |acts| ==> acts[i] == StepP(p, None)
  }

  ghost predicate OwnW(acts: seq<Action>, w: nat) {
    acts != [] && forall i :: 0 <= i < |acts| ==> acts[i] == StepW(w, None)
  }

  /**
   The producer's critical section is a run of its own steps that ends with the mutex free: asleep
   exactly at the bound with the flag clear, otherwise with its task at the end of the queue.
   */
  lemma PutIsARun(n: nat, s: State, p: nat) returns (acts: seq<Action>)
    requires Reachable(n, s) && s.lock == Free && p < |s.producers| && s.producers[p] in {PLocking, PWoken}
    ensures Reachable(n, AfterPut(s, p)) && IsRun(s, acts, AfterPut(s, p)) && OwnP(acts, p)
    ensures var t := AfterPut(s, p);
            && t.lock == Free && p < |t.producers|
            && if |s.queue| == 100000 && !s.stop then t.producers[p] == PSleeping && t.queue == s.queue
               else t.producers[p] == PNotifying && t.queue == s.queue + [p]
  {
    var t;
    acts, t := Go(n, s, [], s, StepP(p, None));
    acts, t := Go(n, s, acts, t, StepP(p, None));
    acts, t := Go(n, s, acts, t, StepP(p, None));
    assert t == AfterPut(s, p);
  }

  /**
   The worker's critical section is a run of its own steps that ends with the mutex free: gone once the
   flag is set, otherwise asleep exactly on an empty queue, otherwise with the front task in hand.
   */
  lemma TakeIsARun(n: nat, s: State, w: nat) returns (acts: seq<Action>)
    requires Reachable(n, s) && s.lock == Free && w < |s.workers| == |s.held| && s.workers[w] in {WLocking, WWoken}
    ensures Reachable(n, AfterTake(s, w)) && IsRun(s, acts, AfterTake(s, w)) && OwnW(acts, w)
    ensures var t := AfterTake(s, w);
            && t.lock == Free && w < |t.workers| == |t.held|
            && if s.stop then t.workers[w] == WExited && t.queue == s.queue
               else if s.queue == [] then t.workers[w] == WSleeping && t.queue == s.queue
               else t.workers[w] == WPopped && [t.held[w]] + t.queue == s.queue
  {
    if s.stop || s.queue == [] {
      acts := LeaveOrSleep(n, s, w);
    } else {
      acts := TakeTheFront(n, s, w);
    }
  }

  lemma LeaveOrSleep(n: nat, s: State, w: nat) returns (acts: seq<Action>)
    requires Reachable(n, s) && s.lock == Free && w < |s.workers| == |s.held| && s.workers[w] in {WLocking, WWoken}
    requires s.stop || s.queue == []
    ensures Reachable(n, AfterTake(s, w)) && IsRun(s, acts, AfterTake(s, w)) && OwnW(acts, w)
  {
    var t;
    acts, t := Go(n, s, [], s, StepW(w, None));
    acts, t := Go(n, s, acts, t, StepW(w, None));
    acts, t := Go(n, s, acts, t, StepW(w, None));
    assert t == AfterTake(s, w);
  }

  lemma TakeTheFront(n: nat, s: State, w: nat) returns (acts: seq<Action>)
    requires Reachable(n, s) && s.lock == Free && w < |s.workers| == |s.held| && s.workers[w] in {WLocking, WWoken}
    requires !s.stop && s.queue != []
    ensures Reachable(n, AfterTake(s, w)) && IsRun(s, acts, AfterTake(s, w)) && OwnW(acts, w)
  {
    var t;
    acts, t := Go(n, s, [], s, StepW(w, None));
    acts, t := Go(n, s, acts, t, StepW(w, None));
    acts, t := Go(n, s, acts, t, StepW(w, None));
    acts, t := Go(n, s, acts, t, StepW(w, None));
    assert t == AfterTake(s, w);
  }

  /** Cleaning is the last step of the stopper, after all joins. */
  lemma CleanIsARun(n: nat, s: State)
    requires Reachable(n, s) && s.lock == Free && s.stopper == SJoining(n)
    ensures Reachable(n, AfterClean(s)) && CanStepS(s) && AfterClean(s) == DoStepS(s)
    ensures AfterClean(s).queue == [] && AfterClean(s).stopper == SDone
    ensures forall w :: 0 <= w < |s.workers| ==> s.workers[w] == WExited
  {
    ReachableInv(n, s);
    var t := PoolOrder.Step(n, s, StepS);
  }

  lemma KeepsFlag(s: State, a: Action)
    requires Enabled(s, a) && a != Call && a != SetStop
    ensures Apply(s, a).stop == s.stop && |Apply(s, a).producers| == |s.producers|
  {
    match a
    case StepP(p, wake) => KeepsFlagP(s, p, wake);
    case StepW(w, wake) => KeepsFlagW(s, w, wake);
    case _ =>
  }

  lemma KeepsFlagP(s: State, p: nat, wake: Option<nat>)
    requires CanStepP(s, p, wake)
    ensures DoStepP(s, p, wake).stop == s.stop && |DoStepP(s, p, wake).producers| == |s.producers|
  {
  }

  lemma KeepsFlagW(s: State, w: nat, wake: Option<nat>)
    requires CanStepW(s, w, wake)
    ensures DoStepW(s, w, wake).stop == s.stop && |DoStepW(s, w, wake).producers| == |s.producers|
  {
  }

  // ---- starting threads on a pool in use ----

  /** The same pool with `m` more threads at the start of `run_task`. */
  function Widen(s: State, m: nat): State {
    s.(workers := s.workers + seq(m, _ => WLocking), held := s.held + seq(m, _ => 0))
  }

  lemma WidenStep(s: State, a: Action, m: nat)
    requires |s.held| == |s.workers| && s.stopper == SIdle && Enabled(s, a) && a != SetStop
    ensures Apply(s, a).stopper == SIdle && |Apply(s, a).held| == |Apply(s, a).workers|
    ensures Enabled(Widen(s, m), a) && Apply(Widen(s, m), a) == Widen(Apply(s, a), m)
  {
    match a
    case StepP(p, wake) => WidenStepP(s, p, wake, m);
    case StepW(w, wake) => WidenStepW(s, w, wake, m);
    case SpuriousW(w) => assert Widen(s, m).workers[w := WWoken] == s.workers[w := WWoken] + seq(m, _ => WLocking);
    case _ =>
  }

  lemma WidenStepP(s: State, p: nat, wake: Option<nat>, m: nat)
    requires CanStepP(s, p, wake)
    ensures CanStepP(Widen(s, m), p, wake) && DoStepP(Widen(s, m), p, wake) == Widen(DoStepP(s, p, wake), m)
  {
    if wake.Some? {
      assert Widen(s, m).workers[wake.value := WWoken] == s.workers[wake.value := WWoken] + seq(m, _ => WLocking);
    }
  }

  lemma WidenStepW(s: State, w: nat, wake: Option<nat>, m: nat)
    requires CanStepW(s, w, wake)
    ensures CanStepW(Widen(s, m), w, wake) && DoStepW(Widen(s, m), w, wake) == Widen(DoStepW(s, w, wake), m)
  {
    var pc := DoStepW(s, w, wake).workers[w];
    assert Widen(s, m).workers[w := pc] == s.workers[w := pc] + seq(m, _ => WLocking);
    if s.queue != [] {
      assert Widen(s, m).held[w := s.queue[0]] == s.held[w := s.queue[0]] + seq(m, _ => 0);
    }
  }

  lemma StopperStays(s: State, a: Action)
    requires Enabled(s, a) && Apply(s, a).stopper == SIdle
    ensures s.stopper == SIdle && a != SetStop
  {
  }

  lemma {:induction false} IdleBefore(s: State, acts: seq<Action>, t: State)
    requires IsRun(s, acts, t) && t.stopper == SIdle
    ensures s.stopper == SIdle
    decreases |acts|
  {
    if acts != [] {
      IdleBefore(Apply(s, acts[0]), acts[1..], t);
      StopperStays(s, acts[0]);
    }
  }

  lemma {:induction false} WidenRun(s: State, acts: seq<Action>, t: State, m: nat)
    requires |s.held| == |s.workers| && IsRun(s, acts, t) && t.stopper == SIdle
    ensures IsRun(Widen(s, m), acts, Widen(t, m))
    decreases |acts|
  {
    if acts != [] {
      IdleBefore(Apply(s, acts[0]), acts[1..], t);
      StopperStays(s, acts[0]);
      WidenStep(s, acts[0], m);
      WidenRun(Apply(s, acts[0]), acts[1..], t, m);
    }
  }

  /** Until the pool is stopped, threads started late make a pool that could have been started with all of them. */
  lemma LateThreads(n: nat, s: State, m: nat)
    requires Reachable(n, s) && s.stopper == SIdle
    ensures Reachable(n + m, Widen(s, m))
  {
    var acts :| IsRun(Init(n), acts, s);
    WidenRun(Init(n), acts, s, m);
    assert Widen(Init(n), m).workers == Init(n + m).workers && Widen(Init(n), m).held == Init(n + m).held;
  }

  class ThreadPool<T> {
    var threadCount: nat
    var taskQueue: seq<T>
    var isStopThreadpool: bool
    ghost var model: State
    ghost var payload: seq<T>  // the task that each call of add_task hands over

    /** `tasks` are the tasks of the calls `ids`. */
    static ghost predicate Carries(tasks: seq<T>, ids: seq<nat>, payload: seq<T>) {
      && |tasks| == |ids|
      && forall i :: 0 <= i < |ids| ==> ids[i] < |payload| && tasks[i] == payload[ids[i]]
    }

    ghost predicate Valid()
      reads this
    {
      && Reachable(threadCount, model)
      && threadCount == |model.workers| == |model.held|
      && isStopThreadpool == model.stop
      && |payload| == |model.producers|
      && Carries(taskQueue, model.queue, payload)
    }

    constructor ()
      ensures Valid() && model == Init(0) && taskQueue == [] && payload == [] && !isStopThreadpool
    {
      threadCount, taskQueue, isStopThreadpool := 0, [], false;
      model, payload := Init(0), [];
      new;
      assert IsRun(Init(0), [], Init(0));
    }

    /** 33-46, on a pool that is not being stopped; it may be in use. */
    method InitThreadNum(num: nat) returns (r: InitResult)
      requires Valid() && model.stopper == SIdle
      modifies this
      ensures Valid() && taskQueue == old(taskQueue) && payload == old(payload)
      ensures isStopThreadpool == old(isStopThreadpool)
      ensures r == Started <==> 1 <= num <= MAX_THREAD_SIZE
      ensures threadCount == old(threadCount) + if r == Started then num else 0
      ensures model == Widen(old(model), if r == Started then num else 0)
    {
      if num <= 0 || num > MAX_THREAD_SIZE {
        assert Widen(model, 0) == model;
        return InvalidArgument;
      }
      LateThreads(threadCount, model, num);
      var i := 0;
      assert model == Widen(old(model), 0);
      while i < num
        invariant i <= num && threadCount == old(threadCount) + i && model == Widen(old(model), i)
        invariant taskQueue == old(taskQueue) && payload == old(payload)
        invariant isStopThreadpool == old(isStopThreadpool)
      {
        threadCount := threadCount + 1;
        model := model.(workers := model.workers + [WLocking], held := model.held + [0]);
        i := i + 1;
        assert model == Widen(old(model), i);
      }
      r := Started;
    }

    /** 48-66: a new call and its flag check; `accepted` says that it goes on to `AddTaskImpl`. */
    method AddTask(task: T) returns (accepted: bool, ghost p: nat)
      requires Valid()
      modifies this
      ensures Valid() && threadCount == old(threadCount)
      ensures taskQueue == old(taskQueue) && isStopThreadpool == old(isStopThreadpool)
      ensures accepted == !old(isStopThreadpool)
      ensures p == |old(payload)| && payload == old(payload) + [task] && model == AfterCall(old(model))
      ensures p < |model.producers| && model.producers[p] == if accepted then PLocking else PRefused
    {
      p := |model.producers|;
      ghost var acts := CallIsARun(threadCount, model);
      model, payload := AfterCall(model), payload + [task];
      accepted := !isStopThreadpool;
    }

    /** 84-95: one pass under the mutex, which ends with the push or asleep on `task_put_`. */
    method AddTaskImpl(ghost p: nat, task: T) returns (pushed: bool)
      requires Valid() && model.lock == Free
      requires p < |model.producers| && model.producers[p] in {PLocking, PWoken} && payload[p] == task
      modifies this
      ensures Valid() && threadCount == old(threadCount) && payload == old(payload)
      ensures isStopThreadpool == old(isStopThreadpool) && model == AfterPut(old(model), p)
      ensures pushed <==> |old(taskQueue)| != MAX_TASK_QUEUE_SIZE || isStopThreadpool
      ensures taskQueue == if pushed then old(taskQueue) + [task] else old(taskQueue)
      ensures p < |model.producers| && model.producers[p] == if pushed then PNotifying else PSleeping
    {
      ghost var acts := PutIsARun(threadCount, model, p);
      model := AfterPut(model, p);
      if |taskQueue| == MAX_TASK_QUEUE_SIZE && !isStopThreadpool {
        pushed := false;
      } else {
        taskQueue := taskQueue + [task];
        pushed := true;
      }
    }

    /** 123-141: one pass under the mutex. */
    method TakeTask(ghost w: nat) returns (r: TakeOutcome<T>)
      requires Valid() && model.lock == Free
      requires w < |model.workers| && model.workers[w] in {WLocking, WWoken}
      modifies this
      ensures Valid() && threadCount == old(threadCount) && payload == old(payload)
      ensures isStopThreadpool == old(isStopThreadpool) && model == AfterTake(old(model), w)
      ensures r == Asleep <==> old(taskQueue) == [] && !isStopThreadpool
      ensures r == Leave <==> isStopThreadpool
      ensures r.Got? ==> r.task.Some? && [r.task.value] + taskQueue == old(taskQueue)
      ensures r.Got? ==> payload[old(model).queue[0]] == r.task.value
      ensures !r.Got? ==> taskQueue == old(taskQueue)
      ensures w < |model.workers| && model.workers[w] == match r case Asleep => WSleeping case Leave => WExited case Got(_) => WPopped
    {
      ghost var acts := TakeIsARun(threadCount, model, w);
      model := AfterTake(model, w);
      if taskQueue == [] && !isStopThreadpool {
        return Asleep;
      }
      if isStopThreadpool {
        return Leave;
      }
      var task := None;
      if taskQueue != [] {
        task := Some(taskQueue[0]);
        taskQueue := taskQueue[1..];
      }
      r := Got(task);
    }

    /** Any step that leaves the queue and the flag alone, in particular all those between the critical sections. */
    ghost method OtherStep(a: Action)
      requires Valid() && Enabled(model, a) && a != Call && a != SetStop && Apply(model, a).queue == model.queue
      modifies this`model
      ensures Valid() && model == Apply(old(model), a)
    {
      ReachableInv(threadCount, model);
      ReachableStep(threadCount, model, a);
      ReachableInv(threadCount, Apply(model, a));
      KeepsFlag(model, a);
      model := Apply(model, a);
    }

    /** 101: the flag, written without the mutex. */
    method SetStopFlag()
      requires Valid() && model.stopper == SIdle
      modifies this
      ensures Valid() && threadCount == old(threadCount) && payload == old(payload) && taskQueue == old(taskQueue)
      ensures isStopThreadpool && model == Apply(old(model), SetStop)
    {
      ReachableStep(threadCount, model, SetStop);
      model := Apply(model, SetStop);
      isStopThreadpool := true;
    }

    /** 151-158: pops until the queue is empty; runs after all joins. */
    method CleanTaskQueue()
      requires Valid() && model.lock == Free && model.stopper == SJoining(threadCount)
      modifies this
      ensures Valid() && threadCount == old(threadCount) && payload == old(payload)
      ensures taskQueue == [] && isStopThreadpool == old(isStopThreadpool) && model == AfterClean(old(model))
    {
      CleanIsARun(threadCount, model);
      model := AfterClean(model);
      while taskQueue != []
        invariant model == AfterClean(old(model)) && payload == old(payload)
        invariant threadCount == old(threadCount) && isStopThreadpool == old(isStopThreadpool)
      {
        taskQueue := taskQueue[1..];
      }
    }
  }
}
