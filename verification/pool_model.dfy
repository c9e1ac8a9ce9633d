/**
 The worker pool of easyrpc/base/thread_pool.hpp as a transition system.

 A producer is one call of `add_task`; calls are numbered in the order they begin, and the
 task a call hands over is named by that number.  A worker is one thread in `run_task`.
 The mutex, the two condition variables and the atomic stop flag are explicit: a condition
 variable is the set of threads whose program counter says they sleep on it, and the flag is
 written by the stopper without the mutex.
 */
module PoolModel {
  import opened Wrappers

  const MAX_TASK_QUEUE_SIZE: nat := 100000

  /** Program counter of one `add_task` call (lines 48-66, 84-97). */
  datatype ProducerPc =
    | PEntry      // about to read the stop flag, 51/61
    | PLocking    // passed the flag check, about to lock, 87
    | PTesting    // holds the mutex, about to evaluate the loop test, 88
    | PWaiting    // holds the mutex, test was true, about to wait, 90
    | PSleeping   // asleep on task_put_
    | PWoken      // notified or woken spuriously, about to lock again
    | PPushing    // holds the mutex, test was false, about to push, 93
    | PNotifying  // pushed and unlocked, about to notify task_get_, 96
    | PDone       // returned after handing the task over
    | PRefused    // returned because the flag was set at 51/61

  /** Program counter of one worker (lines 119-149). */
  datatype WorkerPc =
    | WLocking    // about to lock, 125
    | WTesting    // holds the mutex, about to evaluate the loop test, 126
    | WWaiting    // holds the mutex, test was true, about to wait, 128
    | WSleeping   // asleep on task_get_
    | WWoken      // notified or woken spuriously, about to lock again
    | WChecking   // holds the mutex, about to read the stop flag, 131
    | WTaking     // holds the mutex, flag was clear, about to take the front task, 136
    | WPopped     // holds a task, mutex released, about to call it, 145
    | WRunning    // inside the task
    | WNotifying  // task returned, about to notify task_put_, 146
    | WExited     // left run_task, 133

  /** Program counter of the one caller that runs `terminate_all` (lines 99-117). */
  datatype StopperPc = SIdle | SFlagged | SJoining(joined: nat) | SDone

  datatype Owner = Free | ByProducer(p: nat) | ByWorker(w: nat)

  datatype State = State(
    workers: seq<WorkerPc>,
    held: seq<nat>,          // per worker, the task it popped last
    producers: seq<ProducerPc>,
    queue: seq<nat>,
    lock: Owner,
    stop: bool,
    stopper: StopperPc,
    // history
    accepted: seq<nat>,
    popped: seq<nat>,
    discarded: seq<nat>,
    started: seq<nat>,
    finished: seq<nat>)

  /**
   A program counter says what its thread does next, so an action names the thread that moves;
   `wake` is the sleeper chosen by `notify_one` and is None for every other step.
   */
  datatype Action =
    | Call                              // some thread calls add_task
    | StepP(p: nat, wake: Option<nat>)  // the next step of call p
    | SpuriousP(p: nat)
    | StepW(w: nat, wake: Option<nat>)  // the next step of worker w
    | SpuriousW(w: nat)
    | SetStop                           // 101
    | StepS                             // the next step of terminate_all after 101

  function Init(n: nat): State {
    State(seq(n, _ => WLocking), seq(n, _ => 0), [], [], Free, false, SIdle, [], [], [], [], [])
  }

  function SetP(s: State, p: nat, pc: ProducerPc): State
    requires p < |s.producers|
  {
    s.(producers := s.producers[p := pc])
  }

  function SetW(s: State, w: nat, pc: WorkerPc): State
    requires w < |s.workers|
  {
    s.(workers := s.workers[w := pc])
  }

  /** `notify_one` wakes one sleeper of its choice, and nobody exactly when nobody sleeps. */
  predicate WakesWorker(s: State, wake: Option<nat>) {
    match wake
    case Some(w) => w < |s.workers| && s.workers[w] == WSleeping
    case None => WSleeping !in s.workers
  }

  predicate WakesProducer(s: State, wake: Option<nat>) {
    match wake
    case Some(p) => p < |s.producers| && s.producers[p] == PSleeping
    case None => PSleeping !in s.producers
  }

  predicate CanStepP(s: State, p: nat, wake: Option<nat>) {
    && p < |s.producers|
    && match s.producers[p]
       case PLocking | PWoken => s.lock == Free && wake == None
       case PNotifying => WakesWorker(s, wake)
       case PSleeping | PDone | PRefused => false
       case _ => wake == None
  }

  function DoStepP(s: State, p: nat, wake: Option<nat>): State
    requires CanStepP(s, p, wake)
  {
    match s.producers[p]
    case PEntry => SetP(s, p, if s.stop then PRefused else PLocking)
    case PLocking | PWoken => SetP(s, p, PTesting).(lock := ByProducer(p))
    case PTesting => // the test is ==, not >=
      SetP(s, p, if |s.queue| == MAX_TASK_QUEUE_SIZE && !s.stop then PWaiting else PPushing)
    case PWaiting => SetP(s, p, PSleeping).(lock := Free)
    case PPushing =>
      SetP(s, p, PNotifying).(lock := Free, queue := s.queue + [p], accepted := s.accepted + [p])
    case PNotifying =>
      var s1 := SetP(s, p, PDone);
      if wake.Some? then SetW(s1, wake.value, WWoken) else s1
  }

  predicate CanStepW(s: State, w: nat, wake: Option<nat>) {
    && w < |s.workers| == |s.held|
    && match s.workers[w]
       case WLocking | WWoken => s.lock == Free && wake == None
       case WNotifying => WakesProducer(s, wake)
       case WSleeping | WExited => false
       case _ => wake == None
  }

  function DoStepW(s: State, w: nat, wake: Option<nat>): State
    requires CanStepW(s, w, wake)
  {
    match s.workers[w]
    case WLocking | WWoken => SetW(s, w, WTesting).(lock := ByWorker(w))
    case WTesting => SetW(s, w, if s.queue == [] && !s.stop then WWaiting else WChecking)
    case WWaiting => SetW(s, w, WSleeping).(lock := Free)
    case WChecking => if s.stop then SetW(s, w, WExited).(lock := Free) else SetW(s, w, WTaking)
    case WTaking =>
      if s.queue != [] then
        SetW(s, w, WPopped).(lock := Free, held := s.held[w := s.queue[0]],
                             queue := s.queue[1..], popped := s.popped + [s.queue[0]])
      else
        SetW(s, w, WLocking).(lock := Free)
    case WPopped => SetW(s, w, WRunning).(started := s.started + [s.held[w]])
    case WRunning => SetW(s, w, WNotifying).(finished := s.finished + [s.held[w]])
    case WNotifying =>
      var s1 := SetW(s, w, WLocking);
      if wake.Some? then SetP(s1, wake.value, PWoken) else s1
  }

  predicate CanStepS(s: State) {
    match s.stopper
    case SIdle | SDone => false
    case SFlagged => true
    case SJoining(k) =>
      if k < |s.workers| then s.workers[k] == WExited else k == |s.workers| && s.lock == Free
  }

  function WakeAll(workers: seq<WorkerPc>): (r: seq<WorkerPc>)
    ensures |r| == |workers|
    ensures forall w :: 0 <= w < |r| ==> r[w] == if workers[w] == WSleeping then WWoken else workers[w]
  {
    seq(|workers|, w requires 0 <= w < |workers| => if workers[w] == WSleeping then WWoken else workers[w])
  }

  function DoStepS(s: State): State
    requires CanStepS(s)
  {
    match s.stopper
    case SFlagged => s.(workers := WakeAll(s.workers), stopper := SJoining(0))
    case SJoining(k) =>
      if k < |s.workers| then s.(stopper := SJoining(k + 1))
      else s.(discarded := s.discarded + s.queue, queue := [], stopper := SDone)
  }

  predicate Enabled(s: State, a: Action) {
    match a
    case Call => true
    case StepP(p, wake) => CanStepP(s, p, wake)
    case SpuriousP(p) => p < |s.producers| && s.producers[p] == PSleeping
    case StepW(w, wake) => CanStepW(s, w, wake)
    case SpuriousW(w) => w < |s.workers| && s.workers[w] == WSleeping
    case SetStop => s.stopper == SIdle
    case StepS => CanStepS(s)
  }

  function Apply(s: State, a: Action): State
    requires Enabled(s, a)
  {
    match a
    case Call => s.(producers := s.producers + [PEntry])
    case StepP(p, wake) => DoStepP(s, p, wake)
    case SpuriousP(p) => SetP(s, p, PWoken)
    case StepW(w, wake) => DoStepW(s, w, wake)
    case SpuriousW(w) => SetW(s, w, WWoken)
    case SetStop => s.(stop := true, stopper := SFlagged)
    case StepS => DoStepS(s)
  }

  /** `acts` is a schedule that the pool can follow from `s` and that leads to `t`. */
  ghost predicate IsRun(s: State, acts: seq<Action>, t: State)
    decreases |acts|
  {
    if acts == [] then s == t
    else Enabled(s, acts[0]) && IsRun(Apply(s, acts[0]), acts[1..], t)
  }

  /** Actions that the environment chooses: new calls, spurious wakeups and the request to stop. */
  predicate Environment(a: Action) {
    a.Call? || a.SpuriousP? || a.SpuriousW? || a.SetStop?
  }

  /** No thread of the pool can move of its own accord. */
  ghost predicate Quiescent(s: State) {
    forall a: Action :: Enabled(s, a) ==> Environment(a)
  }
}
