/**
 easyrpc/base/scope_guard.hpp and easyrpc/base/atimer.hpp.
 */
module ScopeGuards {

  class ScopeGuard {
    var dismissed: bool

    /** 17-18. */
    constructor ()
      ensures !dismissed
    {
      dismissed := false;
    }

    /** 28-32: the new guard takes over, even from a guard that was dismissed. */
    constructor Move(other: ScopeGuard)
      modifies other
      ensures !dismissed && other.dismissed
    {
      dismissed := false;
      new;
      other.Dismiss();
    }

    /** 34-37. */
    method Dismiss()
      modifies this
      ensures dismissed
    {
      dismissed := true;
    }

    /** 20-26: the destructor; `runs` says that it runs the function. */
    method Destroy() returns (runs: bool)
      ensures runs == !dismissed
    {
      runs := !dismissed;
    }
  }

  datatype GuardAction = MoveOn | DismissIt

  /** The dismiss_ flags of the guards of one function: moved along, or dismissed where it is. */
  function Flags(acts: seq<GuardAction>): (flags: seq<bool>)
    ensures |flags| > 0
    decreases |acts|
  {
    if acts == [] then [false]
    else
      var flags := Flags(acts[..|acts| - 1]);
      match acts[|acts| - 1]
      case MoveOn => flags[|flags| - 1 := true] + [false]
      case DismissIt => flags[|flags| - 1 := true]
  }

  /** How many of the destructors run the function. */
  function Runs(flags: seq<bool>): nat {
    if flags == [] then 0 else Runs(flags[..|flags| - 1]) + if flags[|flags| - 1] then 0 else 1
  }

  /** The guard that holds the function in the end was dismissed after it took over. */
  predicate DismissedLast(acts: seq<GuardAction>) {
    acts != [] && acts[|acts| - 1] == DismissIt
  }

  lemma {:induction false} AllDismissed(flags: seq<bool>)
    requires forall i :: 0 <= i < |flags| ==> flags[i]
    ensures Runs(flags) == 0
  {
    if flags != [] {
      AllDismissed(flags[..|flags| - 1]);
    }
  }

  lemma {:induction false} OnlyLastCounts(acts: seq<GuardAction>)
    ensures var flags := Flags(acts);
            && (forall i :: 0 <= i < |flags| - 1 ==> flags[i])
            && (flags[|flags| - 1] <==> DismissedLast(acts))
    decreases |acts|
  {
    if acts != [] {
      OnlyLastCounts(acts[..|acts| - 1]);
    }
  }

  /**
   However often a guard is moved, all destructors together run the function exactly once, unless it
   was dismissed after the last move.  A dismissal before a move is undone by the move.
   */
  lemma {:induction false} RunsOnceUnlessDismissedLast(acts: seq<GuardAction>)
    ensures Runs(Flags(acts)) == if DismissedLast(acts) then 0 else 1
  {
    OnlyLastCounts(acts);
    AllDismissed(Flags(acts)[..|Flags(acts)| - 1]);
  }
}

module ATimers {

  /** What the connections bind to their timers: [this]{ disconnect(); }. */
  datatype Callback = DisconnectIt

  class ATimer<F> {
    var funcVec: seq<F>
    var isSingleShot: bool
    var pending: bool      // an async_wait that is neither cancelled nor completed
    var duration: nat
    var queued: seq<nat>   // completed waits whose handlers have not run yet, with the durations they captured

    constructor ()
      ensures funcVec == [] && !isSingleShot && !pending && queued == []
    {
      funcVec, isSingleShot, pending, duration, queued := [], false, false, 0, [];
    }

    /** 24-44: setting the expiry cancels an earlier wait. */
    method Start(d: nat)
      modifies this`pending, this`duration
      ensures pending && duration == d
    {
      duration, pending := d, true;
    }

    /** 46-49: a wait that has completed is no longer there to be cancelled. */
    method Stop()
      modifies this`pending
      ensures !pending
    {
      pending := false;
    }

    /** 51-54: callbacks are only ever added. */
    method Bind(func: F)
      modifies this`funcVec
      ensures funcVec == old(funcVec) + [func]
    {
      funcVec := funcVec + [func];
    }

    /** 56-59. */
    method SetSingleShot(single: bool)
      modifies this`isSingleShot
      ensures isSingleShot == single
    {
      isSingleShot := single;
    }

    /** The duration passes: the wait of 27 completes without error and its handler is queued. */
    method Complete()
      requires pending
      modifies this`pending, this`queued
      ensures !pending && queued == old(queued) + [duration]
    {
      pending, queued := false, queued + [duration];
    }

    /** 27-43: the oldest queued handler; the callbacks bound by now, in order, then re-arming unless single-shot. */
    method Handle() returns (run: seq<F>)
      requires queued != []
      modifies this`pending, this`duration, this`queued
      ensures run == funcVec && queued == old(queued)[1..]
      ensures if isSingleShot then pending == old(pending) && duration == old(duration)
              else pending && duration == old(queued)[0]
    {
      var d := queued[0];
      queued := queued[1..];
      run := [];
      var i := 0;
      while i < |funcVec|
        invariant i <= |funcVec| && run == funcVec[..i] && queued == old(queued)[1..]
        invariant pending == old(pending) && duration == old(duration)
      {
        run := run + [funcVec[i]];
        i := i + 1;
      }
      if !isSingleShot {
        Start(d);
      }
    }
  }
}
