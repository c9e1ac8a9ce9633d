/**
 The order in which tasks are accepted, taken and started, over whole runs.  Taking is always
 first-in first-out; starting is so exactly for a single worker, because a worker calls its
 task after it has released the mutex.
 */
module PoolOrder {
  import opened Wrappers
  import opened PoolModel
  import opened PoolInvariants

  /**
   In every reachable state the accepted tasks are, in order, those taken, those discarded by
   cleaning and those queued; each is taken, started and finished at most once, and none is both
   started and discarded.
   */
  lemma WholeRunAccounting(n: nat, s: State)
    requires Reachable(n, s)
    ensures s.accepted == s.popped + s.discarded + s.queue
    ensures Distinct(s.accepted) && Distinct(s.popped) && Distinct(s.started) && Distinct(s.finished)
    ensures forall k :: k in s.finished ==> k in s.started
    ensures forall k :: k in s.started ==> k in s.popped && k !in s.discarded && k !in s.queue
  {
    ReachableTasks(n, s);
    assert s.accepted == s.popped + (s.discarded + s.queue);
    PrefixDistinct(s.popped, s.discarded + s.queue);
    forall k | k in s.started ensures k !in s.discarded + s.queue {
      assert k in s.popped;
    }
  }

  /** A sequence without repetition: no repetition in a prefix, and nothing of it in the rest. */
  lemma PrefixDistinct(q: seq<nat>, r: seq<nat>)
    requires Distinct(q + r)
    ensures Distinct(q) && forall k :: k in q ==> k !in r
  {
    forall i, j | 0 <= i < j < |q| ensures q[i] != q[j] {
      assert (q + r)[i] == q[i] && (q + r)[j] == q[j];
    }
    forall i, j | 0 <= i < |q| && 0 <= j < |r| ensures q[i] != r[j] {
      assert (q + r)[i] == q[i] && (q + r)[|q| + j] == r[j];
    }
  }

  /** A worker that passed the stop check always finds a task: the re-test at 136 cannot fail. */
  lemma TakingFindsATask(n: nat, s: State)
    requires Reachable(n, s) && WTaking in s.workers
    ensures s.queue != []
  {
    ReachableInv(n, s);
    var w :| 0 <= w < |s.workers| && s.workers[w] == WTaking;
    assert s.lock == ByWorker(w);
  }

  /** Tasks start in the order of acceptance, in every run, exactly when there is at most one worker. */
  lemma StartOrderIff(n: nat)
    ensures (forall s :: Reachable(n, s) ==> s.started <= s.accepted) <==> n <= 1
  {
    if n <= 1 {
      forall s | Reachable(n, s) ensures s.started <= s.accepted {
        OneWorkerOrder(n, s);
      }
    } else {
      var s := Overtaking(n);
      assert s.started[0] != s.accepted[0];
    }
  }

  // ---- one worker ----

  ghost predicate StartedInOrder(s: State) {
    && |s.workers| <= 1 && |s.held| == |s.workers|
    && s.popped == s.started + if |s.workers| == 1 && s.workers[0] == WPopped then [s.held[0]] else []
  }

  lemma StepStartedInOrder(s: State, a: Action)
    requires StartedInOrder(s) && Enabled(s, a)
    ensures StartedInOrder(Apply(s, a))
  {
    if a.StepW? {
      WorkerStartsInOrder(s, a.w, a.wake);
    } else {
      KeepsTasks(s, a);
    }
  }

  lemma WorkerStartsInOrder(s: State, w: nat, wake: Option<nat>)
    requires StartedInOrder(s) && CanStepW(s, w, wake)
    ensures StartedInOrder(DoStepW(s, w, wake))
  {
    var t := DoStepW(s, w, wake);
    assert w == 0 && |t.workers| == 1;
  }

  lemma {:induction false} RunStartedInOrder(s: State, acts: seq<Action>, t: State)
    requires StartedInOrder(s) && IsRun(s, acts, t)
    ensures StartedInOrder(t)
    decreases |acts|
  {
    if acts != [] {
      StepStartedInOrder(s, acts[0]);
      RunStartedInOrder(Apply(s, acts[0]), acts[1..], t);
    }
  }

  lemma OneWorkerOrder(n: nat, s: State)
    requires n <= 1 && Reachable(n, s)
    ensures s.started <= s.accepted
  {
    ReachableTasks(n, s);
    var acts :| IsRun(Init(n), acts, s);
    RunStartedInOrder(Init(n), acts, s);
    assert s.accepted[..|s.started|] == s.started;
  }

  // ---- two workers: the second task may start first ----

  lemma Step(n: nat, s: State, a: Action) returns (t: State)
    requires Reachable(n, s) && Enabled(s, a)
    ensures t == Apply(s, a) && Reachable(n, t)
  {
    t := Apply(s, a);
    ReachableStep(n, s, a);
  }

  /** One more call runs up to its notification while the other threads stand still. */
  lemma HandOver(n: nat, s: State) returns (t: State)
    requires Reachable(n, s) && s.lock == Free && !s.stop && |s.queue| < MAX_TASK_QUEUE_SIZE
    ensures Reachable(n, t)
    ensures var p := |s.producers|;
            t == s.(producers := s.producers + [PNotifying], queue := s.queue + [p], accepted := s.accepted + [p])
  {
    var p := |s.producers|;
    t := Step(n, s, Call);
    t := Step(n, t, StepP(p, None));
    t := Step(n, t, StepP(p, None));
    t := Step(n, t, StepP(p, None));
    t := Step(n, t, StepP(p, None));
    assert t.producers == s.producers + [PNotifying];
  }

  /** Worker `w` takes the front task and releases the mutex while the other threads stand still. */
  lemma TakeFront(n: nat, s: State, w: nat) returns (t: State)
    requires Reachable(n, s) && s.lock == Free && !s.stop && s.queue != []
    requires w < |s.workers| == |s.held| && s.workers[w] == WLocking
    ensures Reachable(n, t)
    ensures t == s.(workers := s.workers[w := WPopped], held := s.held[w := s.queue[0]],
                    queue := s.queue[1..], popped := s.popped + [s.queue[0]])
  {
    t := Step(n, s, StepW(w, None));
    t := Step(n, t, StepW(w, None));
    t := Step(n, t, StepW(w, None));
    t := Step(n, t, StepW(w, None));
    assert t.workers == s.workers[w := WPopped];
  }

  lemma Overtaking(n: nat) returns (s: State)
    requires n >= 2
    ensures Reachable(n, s) && s.accepted == [0, 1] && s.started == [1]
  {
    s := Init(n);
    assert IsRun(s, [], s);
    s := HandOver(n, s);
    s := HandOver(n, s);
    s := TakeFront(n, s, 0);
    s := TakeFront(n, s, 1);
    s := Step(n, s, StepW(1, None));
  }
}
