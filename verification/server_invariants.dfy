/**
 What every interleaving of the server keeps: each connection's owners are exactly the ones that
 exist, it is routed at most once and only while open, and what is written to it is the reply to
 the request that its own bytes decode to.
 */
module ServerInvariants {
  import opened Wrappers
  import opened Wire
  import P = PoolModel
  import PI = PoolInvariants
  import PO = PoolOrder
  import opened ServerSystem

  /** A worker has returned from call `k` but not yet notified, 145-146: it still holds the closure. */
  ghost predicate Ending(pool: P.State, k: nat) {
    exists w :: 0 <= w < |pool.workers| == |pool.held| && pool.workers[w] == P.WNotifying && pool.held[w] == k
  }

  /** The closure of call `k` still exists: in add_task, in the queue, or in a worker. */
  ghost predicate Pending(pool: P.State, k: nat) {
    && k < |pool.producers| && pool.producers[k] != P.PRefused
    && k !in pool.discarded && (k !in pool.finished || Ending(pool, k))
  }

  /** `request` is what the bytes received on its connection decode to. */
  ghost predicate RequestOk(cfg: Config, s: State, k: nat)
    requires k < |s.requests|
  {
    var r := s.requests[k];
    && r.conn < |s.conns|
    && s.conns[r.conn].routed == Some(k)
    && cfg.routable(r.protocol, r.mode)
    && Decode(s.conns[r.conn].received) == Routed(r.protocol, r.mode, r.body, [])
  }

  ghost predicate RequestsOk(cfg: Config, s: State) {
    && |s.requests| == |s.pool.producers|
    && forall k :: 0 <= k < |s.requests| ==> RequestOk(cfg, s, k)
  }

  /** The read handlers have got as far as the phase says. */
  ghost predicate PhaseOk(conn: Conn) {
    match conn.phase
    case HeadPending => conn.routed == None && conn.received == []
    case BodyPending => conn.routed == None && |conn.received| == REQUEST_HEADER_LEN && CheckHead(HeaderOf(conn))
    case Routing(k) => conn.routed == Some(k)
    case Quiet => conn.routed == None ==> !conn.open
  }

  /** The owners that exist, for a connection routed as call `k`. */
  ghost function Owners(cfg: Config, pool: P.State, conn: Conn): set<Ref> {
    (match conn.phase
     case HeadPending => {HeadReadRef}
     case BodyPending => {BodyReadRef}
     case Routing(_) => {HandlerRef}
     case Quiet => {})
    + (if cfg.timeout != 0 then {TimerRef} else {})
    + (if conn.routed.Some? && Pending(pool, conn.routed.value) then {TaskRef(conn.routed.value)} else {})
  }

  predicate Reading(conn: Conn) {
    conn.phase == HeadPending || conn.phase == BodyPending
  }

  /** The deadline runs while a read is pending on an open socket, and is cancelled with the last read. */
  predicate DeadlineOk(cfg: Config, conn: Conn) {
    && (conn.timer != Idle ==> cfg.timeout != 0)
    && (conn.timer == Armed ==> Reading(conn))
    && (cfg.timeout != 0 && Reading(conn) && conn.open ==> conn.timer != Idle)
  }

  ghost predicate OwnersOk(cfg: Config, pool: P.State, conn: Conn) {
    && conn.refs == Owners(cfg, pool, conn)
    && (conn.refs == {} ==> !conn.open)
    && DeadlineOk(cfg, conn)
  }

  /** Nothing is written before the task has run; then the one reply is, in full, or cut short by the socket's closing. */
  ghost predicate WrittenOk(cfg: Config, s: State, c: nat)
    requires c < |s.conns|
  {
    var conn := s.conns[c];
    && (conn.routed == None ==> conn.written == [])
    && (conn.routed.Some? ==>
          var k := conn.routed.value;
          && k < |s.requests| && s.requests[k].conn == c
          && (k !in s.pool.finished ==> conn.written == [])
          && Replied(conn, cfg.reply(s.requests[k].protocol, s.requests[k].mode, s.requests[k].body), k in s.pool.finished))
  }

  /** What was written is part of the one reply, and once the task is over all of it unless the socket was closed. */
  predicate Replied(conn: Conn, reply: Result<Bytes>, finished: bool) {
    && (conn.written == [] || (reply.Ok? && conn.written <= reply.value))
    && (finished ==> (reply.Ok? && conn.written == reply.value) || !conn.open)
  }

  ghost predicate ConnOk(cfg: Config, s: State, c: nat)
    requires c < |s.conns|
  {
    PhaseOk(s.conns[c]) && OwnersOk(cfg, s.pool, s.conns[c]) && WrittenOk(cfg, s, c)
  }

  ghost predicate PoolOk(pool: P.State) {
    exists n :: PI.Reachable(n, pool)
  }

  ghost predicate Inv(cfg: Config, s: State) {
    && PoolOk(s.pool)
    && RequestsOk(cfg, s)
    && forall c :: 0 <= c < |s.conns| ==> ConnOk(cfg, s, c)
  }

  // ---- facts about the pool that the connections rely on ----

  lemma PoolInv(pool: P.State)
    requires PoolOk(pool)
    ensures PI.Inv(pool)
  {
    var n :| PI.Reachable(n, pool);
    PI.ReachableInv(n, pool);
  }

  lemma PoolStepOk(pool: P.State, pa: P.Action)
    requires PoolOk(pool) && P.Enabled(pool, pa)
    ensures PoolOk(P.Apply(pool, pa))
  {
    var n :| PI.Reachable(n, pool);
    var t := PO.Step(n, pool, pa);
  }

  lemma PoolNotifiesOnce(pool: P.State)
    requires PoolOk(pool)
    ensures PI.NotifiesOnce(pool)
  {
    var n :| PI.Reachable(n, pool);
    PI.ReachableNotifiesOnce(n, pool);
  }

  /** The task a worker is running belongs to an unfinished call; its closure outlives the return. */
  lemma FinishPending(pool: P.State, pa: P.Action, j: nat)
    requires PoolOk(pool) && P.Enabled(pool, pa) && pa.StepW? && pool.workers[pa.w] == P.WRunning
    ensures var k, t := pool.held[pa.w], P.Apply(pool, pa);
            && k < |pool.producers| && Pending(pool, k) && k !in pool.finished
            && t.producers == pool.producers && t.finished == pool.finished + [k]
            && (Pending(t, j) <==> Pending(pool, j))
  {
    PoolInv(pool);
    RunningTask(pool, pa.w);
    EndingBegins(pool, pa.w, pa.wake, j);
  }

  lemma RunningTask(pool: P.State, w: nat)
    requires PI.Inv(pool) && w < |pool.workers| && pool.workers[w] == P.WRunning
    ensures pool.held[w] < |pool.producers| && Pending(pool, pool.held[w]) && pool.held[w] !in pool.finished
  {
    var k := pool.held[w];
    assert k in pool.started && k in pool.popped && k in pool.accepted;
    assert pool.discarded == [];
  }

  lemma EndingBegins(pool: P.State, w: nat, wake: Option<nat>, j: nat)
    requires P.CanStepW(pool, w, wake) && pool.workers[w] == P.WRunning
    ensures Ending(P.DoStepW(pool, w, wake), j) <==> Ending(pool, j) || j == pool.held[w]
  {
    var t := P.DoStepW(pool, w, wake);
    if Ending(pool, j) {
      var v :| 0 <= v < |pool.workers| && pool.workers[v] == P.WNotifying && pool.held[v] == j;
      assert t.workers[v] == P.WNotifying;
    }
    assert t.workers[w] == P.WNotifying && t.held == pool.held;
  }

  /** The call, if any, whose closure a pool step destroys. */
  predicate Destroys(pool: P.State, pa: P.Action, k: nat) {
    || (pa.StepP? && pa.p == k && k < |pool.producers| && pool.producers[k] == P.PEntry && pool.stop)
    || (pa.StepW? && pa.w < |pool.workers| == |pool.held| && pool.workers[pa.w] == P.WNotifying && pool.held[pa.w] == k)
    || (pa.StepS? && pool.stopper == P.SJoining(|pool.workers|) && k in pool.queue)
  }

  /** How a pool step other than a return from a task changes which calls are pending. */
  lemma PendingStep(pool: P.State, pa: P.Action, k: nat)
    requires PI.NotifiesOnce(pool) && P.Enabled(pool, pa) && pa != P.Call
    requires !(pa.StepW? && pool.workers[pa.w] == P.WRunning)
    ensures var t := P.Apply(pool, pa);
            && |t.producers| == |pool.producers| && t.finished == pool.finished
            && (Pending(t, k) <==> Pending(pool, k) && !Destroys(pool, pa, k))
  {
    if pa.StepP? {
      EndingKept(pool, P.DoStepP(pool, pa.p, pa.wake), k);
      if k < |pool.producers| {
        RefusedStep(pool, pa.p, pa.wake, k);
      }
    } else if pa.StepW? {
      EndingEnds(pool, pa.w, pa.wake, k);
      if k < |pool.producers| {
        KeepsCalls(pool, pa.w, pa.wake, k);
      }
    } else {
      EndingKept(pool, P.Apply(pool, pa), k);
    }
  }

  /** The step moves no worker to or from the notification. */
  lemma EndingKept(pool: P.State, t: P.State, k: nat)
    requires |t.workers| == |pool.workers| && t.held == pool.held
    requires forall w :: 0 <= w < |pool.workers| ==> (t.workers[w] == P.WNotifying <==> pool.workers[w] == P.WNotifying)
    ensures Ending(t, k) <==> Ending(pool, k)
  {
  }

  lemma EndingEnds(pool: P.State, w: nat, wake: Option<nat>, k: nat)
    requires PI.NotifiesOnce(pool) && P.CanStepW(pool, w, wake) && pool.workers[w] != P.WRunning
    ensures Ending(P.DoStepW(pool, w, wake), k) <==> Ending(pool, k) && !Destroys(pool, P.StepW(w, wake), k)
    ensures Destroys(pool, P.StepW(w, wake), k) ==> k in pool.finished
  {
    var t := P.DoStepW(pool, w, wake);
    assert forall v :: 0 <= v < |pool.workers| && v != w ==> t.workers[v] == pool.workers[v] && t.held[v] == pool.held[v];
    assert t.workers[w] != P.WNotifying;
    if Ending(pool, k) && !Destroys(pool, P.StepW(w, wake), k) {
      var v :| 0 <= v < |pool.workers| && pool.workers[v] == P.WNotifying && pool.held[v] == k;
      assert t.workers[v] == P.WNotifying;
    }
  }

  lemma RefusedStep(pool: P.State, p: nat, wake: Option<nat>, k: nat)
    requires P.CanStepP(pool, p, wake) && k < |pool.producers|
    ensures var t := P.DoStepP(pool, p, wake);
            && |t.producers| == |pool.producers| && t.finished == pool.finished && t.discarded == pool.discarded
            && (t.producers[k] == P.PRefused <==>
                  pool.producers[k] == P.PRefused || (p == k && pool.producers[k] == P.PEntry && pool.stop))
  {
  }

  lemma KeepsCalls(pool: P.State, w: nat, wake: Option<nat>, k: nat)
    requires P.CanStepW(pool, w, wake) && k < |pool.producers| && pool.workers[w] != P.WRunning
    ensures var t := P.DoStepW(pool, w, wake);
            && |t.producers| == |pool.producers| && t.finished == pool.finished && t.discarded == pool.discarded
            && (t.producers[k] == P.PRefused <==> pool.producers[k] == P.PRefused)
  {
  }

  /** The handlers of a connection do not touch the pool, and a new call changes nothing for the earlier ones. */
  lemma PendingAfterCall(pool: P.State, k: nat)
    requires PoolOk(pool) && k <= |pool.producers|
    ensures Pending(P.Apply(pool, P.Call), k) <==> Pending(pool, k) || k == |pool.producers|
  {
    PoolInv(pool);
    NewCallIsUnfinished(pool);
    assert forall j :: j in pool.discarded ==> j in pool.accepted;
    EndingKept(pool, P.Apply(pool, P.Call), k);
  }

  // ---- steps ----

  /** A step that changes one connection but not what was routed, opens nothing and leaves the pool alone. */
  lemma OneConnKeeps(cfg: Config, s: State, c: nat, conn: Conn)
    requires Inv(cfg, s) && HasConn(s, c)
    requires conn.routed == s.conns[c].routed && conn.written == s.conns[c].written
    requires conn.routed.Some? ==> conn.received == s.conns[c].received
    requires conn.open ==> s.conns[c].open
    requires PhaseOk(conn) && OwnersOk(cfg, s.pool, conn)
    ensures Inv(cfg, SetConn(s, c, conn))
  {
    var t := SetConn(s, c, conn);
    forall k | 0 <= k < |t.requests| ensures RequestOk(cfg, t, k) {
      assert RequestOk(cfg, s, k);
    }
    forall d | 0 <= d < |t.conns| ensures ConnOk(cfg, t, d) {
      assert ConnOk(cfg, s, d) && ConnOk(cfg, s, c);
    }
  }

  lemma StepHandlers(cfg: Config, s: State, a: Action)
    requires Inv(cfg, s) && Enabled(s, a) && !a.PoolStep? && !a.Accept?
    requires !(a.BodyDone? && s.conns[a.c].open && a.ok)
    ensures Inv(cfg, Apply(cfg, s, a))
  {
    assert ConnOk(cfg, s, a.c);
    OneConnKeeps(cfg, s, a.c, Apply(cfg, s, a).conns[a.c]);
  }

  lemma StepAccept(cfg: Config, s: State)
    requires Inv(cfg, s)
    ensures Inv(cfg, Apply(cfg, s, Accept))
  {
    var t := Apply(cfg, s, Accept);
    forall k | 0 <= k < |t.requests| ensures RequestOk(cfg, t, k) {
      assert RequestOk(cfg, s, k);
    }
    forall d | 0 <= d < |t.conns| ensures ConnOk(cfg, t, d) {
      if d < |s.conns| {
        assert ConnOk(cfg, s, d) && t.conns[d] == s.conns[d];
      }
    }
  }

  /** The bytes of both reads together decode to what route is given. */
  lemma ReceivedDecodes(received: Bytes, data: Bytes)
    requires |received| == REQUEST_HEADER_LEN
    requires var h := DecodeRequestHeader(received);
             CheckHead(h) && h.protocolLen + h.bodyLen < TWO_TO_THE_32 && |data| == h.protocolLen + h.bodyLen
    ensures var h := DecodeRequestHeader(received);
            Decode(received + data) == Routed(data[..h.protocolLen], h.mode, data[h.protocolLen..], [])
  {
    var h, stream := DecodeRequestHeader(received), received + data;
    assert stream[..REQUEST_HEADER_LEN] == received && stream[REQUEST_HEADER_LEN..] == data;
    NoWrap(h.protocolLen, h.bodyLen);
    assert data[h.protocolLen..h.protocolLen + h.bodyLen] == data[h.protocolLen..];
    assert data[h.protocolLen + h.bodyLen..] == [];
  }

  lemma StepRoute(cfg: Config, s: State, a: Action)
    requires Inv(cfg, s) && Enabled(s, a) && a.BodyDone? && s.conns[a.c].open && a.ok
    ensures Inv(cfg, Apply(cfg, s, a))
  {
    var c, data, t := a.c, a.data, Apply(cfg, s, a);
    assert ConnOk(cfg, s, c);
    var h := HeaderOf(s.conns[c]);
    if cfg.routable(data[..h.protocolLen], h.mode) {
      ReceivedDecodes(s.conns[c].received, data);
      PoolStepOk(s.pool, P.Call);
      forall k | 0 <= k < |t.requests| ensures RequestOk(cfg, t, k) {
        if k < |s.requests| {
          assert RequestOk(cfg, s, k);
        }
      }
      forall d | 0 <= d < |t.conns| ensures ConnOk(cfg, t, d) {
        RouteConn(cfg, s, a, d);
      }
    } else {
      OneConnKeeps(cfg, s, c, t.conns[c]);
    }
  }

  lemma RouteConn(cfg: Config, s: State, a: Action, d: nat)
    requires Inv(cfg, s) && Enabled(s, a) && a.BodyDone? && s.conns[a.c].open && a.ok && d < |s.conns|
    requires var h := HeaderOf(s.conns[a.c]); cfg.routable(a.data[..h.protocolLen], h.mode)
    ensures ConnOk(cfg, Apply(cfg, s, a), d)
  {
    var t, n := Apply(cfg, s, a), |s.pool.producers|;
    assert ConnOk(cfg, s, d);
    if d == a.c {
      PendingAfterCall(s.pool, n);
      assert n !in s.pool.finished by {
        NewCallIsUnfinished(s.pool);
      }
    } else if s.conns[d].routed.Some? {
      PendingAfterCall(s.pool, s.conns[d].routed.value);
    }
  }

  lemma NewCallIsUnfinished(pool: P.State)
    requires PoolOk(pool)
    ensures |pool.producers| !in pool.finished
  {
    PoolInv(pool);
    assert forall j :: j in pool.finished ==> j in pool.started && j in pool.popped && j in pool.accepted;
  }

  lemma StepFinish(cfg: Config, s: State, pa: P.Action, taken: nat)
    requires Inv(cfg, s) && P.Enabled(s.pool, pa) && pa.StepW? && s.pool.workers[pa.w] == P.WRunning
    ensures Inv(cfg, DoPoolStep(cfg, s, pa, taken))
  {
    var k, t := s.pool.held[pa.w], DoPoolStep(cfg, s, pa, taken);
    FinishPending(s.pool, pa, k);
    PoolStepOk(s.pool, pa);
    assert RequestOk(cfg, s, k);
    forall j | 0 <= j < |t.requests| ensures RequestOk(cfg, t, j) {
      assert RequestOk(cfg, s, j);
    }
    forall d | 0 <= d < |t.conns| ensures ConnOk(cfg, t, d) {
      FinishConn(cfg, s, pa, taken, d);
    }
  }

  /** The end of its task changes no owner of a connection; what it writes is its reply. */
  lemma TaskEnds(cfg: Config, pool: P.State, t: P.State, conn: Conn, reply: Result<Bytes>, k: nat, taken: nat)
    requires OwnersOk(cfg, pool, conn) && PhaseOk(conn) && conn.routed == Some(k) && Pending(pool, k) && Pending(t, k)
    requires conn.written == []
    ensures var after := AfterTask(conn, reply, taken);
            && OwnersOk(cfg, t, after) && PhaseOk(after) && Replied(after, reply, true)
            && after.routed == conn.routed && after.received == conn.received
  {
  }

  lemma FinishConn(cfg: Config, s: State, pa: P.Action, taken: nat, d: nat)
    requires Inv(cfg, s) && P.Enabled(s.pool, pa) && pa.StepW? && s.pool.workers[pa.w] == P.WRunning && d < |s.conns|
    requires Finishes(s, pa) && RequestOk(cfg, s, s.pool.held[pa.w])
    ensures ConnOk(cfg, DoPoolStep(cfg, s, pa, taken), d)
  {
    var k := s.pool.held[pa.w];
    assert ConnOk(cfg, s, d);
    if d == s.requests[k].conn {
      var r := s.requests[k];
      FinishPending(s.pool, pa, k);
      TaskEnds(cfg, s.pool, P.Apply(s.pool, pa), s.conns[d], cfg.reply(r.protocol, r.mode, r.body), k, taken);
    } else {
      FinishPending(s.pool, pa, if s.conns[d].routed.Some? then s.conns[d].routed.value else k);
    }
  }

  lemma StepPool(cfg: Config, s: State, pa: P.Action, taken: nat)
    requires Inv(cfg, s) && P.Enabled(s.pool, pa) && pa != P.Call
    requires !(pa.StepW? && s.pool.workers[pa.w] == P.WRunning)
    ensures Inv(cfg, DoPoolStep(cfg, s, pa, taken))
  {
    var t := DoPoolStep(cfg, s, pa, taken);
    PoolStepOk(s.pool, pa);
    PoolNotifiesOnce(s.pool);
    PendingStep(s.pool, pa, 0);
    forall d | 0 <= d < |t.conns| ensures ConnOk(cfg, t, d) && SameButOwners(s.conns[d], t.conns[d]) {
      PoolStepConn(cfg, s, pa, taken, d);
    }
    forall k | 0 <= k < |t.requests| ensures RequestOk(cfg, t, k) {
      assert RequestOk(cfg, s, k);
    }
  }

  predicate SameButOwners(c: Conn, d: Conn) {
    d.routed == c.routed && d.received == c.received && d.written == c.written && d.phase == c.phase
  }

  lemma PoolStepConn(cfg: Config, s: State, pa: P.Action, taken: nat, d: nat)
    requires Inv(cfg, s) && P.Enabled(s.pool, pa) && pa != P.Call && d < |s.conns|
    requires !(pa.StepW? && s.pool.workers[pa.w] == P.WRunning)
    ensures var t := DoPoolStep(cfg, s, pa, taken); ConnOk(cfg, t, d) && SameButOwners(s.conns[d], t.conns[d])
  {
    assert ConnOk(cfg, s, d);
    var conn := s.conns[d];
    DroppedIs(cfg, s, pa, d);
    PoolNotifiesOnce(s.pool);
    PendingStep(s.pool, pa, if conn.routed.Some? then conn.routed.value else 0);
    OwnersDropped(cfg, s.pool, P.Apply(s.pool, pa), conn, Dropped(s, pa, d));
  }

  /** Destroying the closure of its call takes the owner for it away from a connection. */
  lemma OwnersDropped(cfg: Config, pool: P.State, t: P.State, conn: Conn, dropped: set<Ref>)
    requires OwnersOk(cfg, pool, conn) && PhaseOk(conn)
    requires dropped == {} || (conn.routed.Some? && dropped == {TaskRef(conn.routed.value)})
    requires conn.routed.Some? ==> (Pending(t, conn.routed.value) <==> Pending(pool, conn.routed.value) && dropped == {})
    ensures var after := LetGo(conn, dropped);
            OwnersOk(cfg, t, after) && PhaseOk(after) && SameButOwners(conn, after)
  {
  }

  /** What a pool step drops of connection `d` is the owner for the call it was routed as, or nothing. */
  lemma DroppedIs(cfg: Config, s: State, pa: P.Action, d: nat)
    requires RequestsOk(cfg, s) && d < |s.conns|
    ensures var k := s.conns[d].routed;
            Dropped(s, pa, d) ==
            if k.Some? && k.value < |s.requests| && s.requests[k.value].conn == d && Destroys(s.pool, pa, k.value)
            then {TaskRef(k.value)} else {}
  {
    forall k: nat | k < |s.requests| && s.requests[k].conn == d ensures s.conns[d].routed == Some(k) {
      assert RequestOk(cfg, s, k);
    }
  }

  /** What a pool step does to one connection. */
  lemma PoolStepEffect(cfg: Config, s: State, pa: P.Action, taken: nat, c: nat)
    requires Inv(cfg, s) && P.Enabled(s.pool, pa) && pa != P.Call && c < |s.conns|
    ensures var t := DoPoolStep(cfg, s, pa, taken);
            && |t.conns| == |s.conns| && t.requests == s.requests
            && t.conns[c] == (if FinishesFor(s, pa, c) then AfterTask(s.conns[c], ReplyOf(cfg, s, pa), taken)
                              else LetGo(s.conns[c], Dropped(s, pa, c)))
    ensures FinishesFor(s, pa, c) ==>
              var k := s.pool.held[pa.w];
              && s.conns[c].routed == Some(k) && k !in s.pool.finished && Pending(s.pool, k)
              && P.Apply(s.pool, pa).finished == s.pool.finished + [k]
    ensures !FinishesFor(s, pa, c) && s.conns[c].routed.Some? ==>
              var k := s.conns[c].routed.value;
              && Dropped(s, pa, c) <= {TaskRef(k)}
              && (k in P.Apply(s.pool, pa).finished <==> k in s.pool.finished)
  {
    assert ConnOk(cfg, s, c);
    DroppedIs(cfg, s, pa, c);
    if pa.StepW? && s.pool.workers[pa.w] == P.WRunning {
      var k := s.pool.held[pa.w];
      FinishPending(s.pool, pa, k);
      assert RequestOk(cfg, s, k);
    } else {
      FinishedKept(s.pool, pa);
    }
  }

  lemma FinishedKept(pool: P.State, pa: P.Action)
    requires P.Enabled(pool, pa) && !(pa.StepW? && pool.workers[pa.w] == P.WRunning)
    ensures P.Apply(pool, pa).finished == pool.finished
  {
    if pa.StepP? {
      FinishedKeptP(pool, pa.p, pa.wake);
    } else if pa.StepW? {
      FinishedKeptW(pool, pa.w, pa.wake);
    }
  }

  lemma FinishedKeptP(pool: P.State, p: nat, wake: Option<nat>)
    requires P.CanStepP(pool, p, wake)
    ensures P.DoStepP(pool, p, wake).finished == pool.finished
  {
  }

  lemma FinishedKeptW(pool: P.State, w: nat, wake: Option<nat>)
    requires P.CanStepW(pool, w, wake) && pool.workers[w] != P.WRunning
    ensures P.DoStepW(pool, w, wake).finished == pool.finished
  {
  }

  lemma StepInv(cfg: Config, s: State, a: Action)
    requires Inv(cfg, s) && Enabled(s, a)
    ensures Inv(cfg, Apply(cfg, s, a))
  {
    if a.Accept? {
      StepAccept(cfg, s);
    } else if a.BodyDone? && s.conns[a.c].open && a.ok {
      StepRoute(cfg, s, a);
    } else if a.PoolStep? {
      if a.a.StepW? && s.pool.workers[a.a.w] == P.WRunning {
        StepFinish(cfg, s, a.a, a.taken);
      } else {
        StepPool(cfg, s, a.a, a.taken);
      }
    } else {
      StepHandlers(cfg, s, a);
    }
  }

  lemma InitInv(cfg: Config, workers: nat)
    ensures Inv(cfg, Init(workers))
  {
    assert P.IsRun(P.Init(workers), [], P.Init(workers));
    assert PI.Reachable(workers, P.Init(workers));
  }

  lemma {:induction false} RunInv(cfg: Config, s: State, acts: seq<Action>, t: State)
    requires Inv(cfg, s) && IsRun(cfg, s, acts, t)
    ensures Inv(cfg, t)
    decreases |acts|
  {
    if acts != [] {
      StepInv(cfg, s, acts[0]);
      RunInv(cfg, Apply(cfg, s, acts[0]), acts[1..], t);
    }
  }

  /** A state of a server started with `workers` workers, after any interleaving. */
  ghost predicate Reachable(cfg: Config, workers: nat, s: State) {
    exists acts :: IsRun(cfg, Init(workers), acts, s)
  }

  lemma ReachableInv(cfg: Config, workers: nat, s: State)
    requires Reachable(cfg, workers, s)
    ensures Inv(cfg, s)
  {
    var acts :| IsRun(cfg, Init(workers), acts, s);
    InitInv(cfg, workers);
    RunInv(cfg, Init(workers), acts, s);
  }
}
