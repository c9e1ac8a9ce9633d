/**
 The registry of easyrpc/server/router.hpp.  `add_task` captures the found map element by
 reference (easyrpc/base/thread_pool.hpp:58-66), so a queued call refers to a node of the map and
 not to a copy of the handler.  Nodes keep their address under insertion and assignment; erasing
 destroys them.
 */
module Router {
  import opened Wrappers
  import opened Wire

  /** A call queued by route; `since` is the number of actions before it was routed. */
  datatype QueuedCall = QueuedCall(mode: U32, name: Bytes, node: nat, body: Bytes, conn: nat, since: nat)

  /** The handler a worker ran for a queued call; None when the node was gone. */
  datatype Executed<+H> = Executed(call: QueuedCall, handler: Option<H>)

  datatype State<+H> = State(
    invokerMap: map<Bytes, nat>,
    invokerRawMap: map<Bytes, nat>,
    nodes: map<nat, H>,
    nextNode: nat,
    queue: seq<QueuedCall>,
    stopped: bool,
    executed: seq<Executed<H>>,
    clock: nat)

  datatype Action<+H> =
    | Bind(mode: U32, name: Bytes, handler: H)
    | Unbind(mode: U32, name: Bytes)
    | Route(mode: U32, name: Bytes, body: Bytes, conn: nat)
    | Execute(i: nat)  // a worker runs call `i` of those not run yet: workers may overtake each other
    | SetStop          // the stop flag of the pool, 101 of easyrpc/base/thread_pool.hpp

  predicate ValidMode(mode: U32) { mode == RAW || mode == NON_RAW }

  predicate Enabled<H>(s: State<H>, a: Action<H>) {
    match a
    case Bind(mode, _, _) => ValidMode(mode)
    case Unbind(mode, _) => ValidMode(mode)
    case Route(_, _, _, _) => true
    case Execute(i) => i < |s.queue|
    case SetStop => true
  }

  function Table<H>(s: State<H>, mode: U32): map<Bytes, nat> {
    if mode == NON_RAW then s.invokerMap else if mode == RAW then s.invokerRawMap else map[]
  }

  function SetTable<H>(s: State<H>, mode: U32, table: map<Bytes, nat>): State<H> {
    if mode == NON_RAW then s.(invokerMap := table) else s.(invokerRawMap := table)
  }

  /** invoker_map_[protocol] = ..., 369-395: assign into the node, creating it if need be. */
  function DoBind<H>(s: State<H>, mode: U32, name: Bytes, handler: H): State<H> {
    var table := Table(s, mode);
    if name in table then s.(nodes := s.nodes[table[name] := handler])
    else SetTable(s, mode, table[name := s.nextNode]).(nodes := s.nodes[s.nextNode := handler], nextNode := s.nextNode + 1)
  }

  /** erase, 118-121 and 145-148. */
  function DoUnbind<H>(s: State<H>, mode: U32, name: Bytes): State<H> {
    var table := Table(s, mode);
    if name in table then SetTable(s, mode, table - {name}).(nodes := s.nodes - {table[name]})
    else s
  }

  /** route, 160-190: false, and nothing queued, when the mode is unknown or the name unbound. */
  predicate CanRoute<H>(s: State<H>, mode: U32, name: Bytes) {
    name in Table(s, mode)
  }

  /** A stopped pool takes no call (61 of easyrpc/base/thread_pool.hpp), which route does not notice. */
  function DoRoute<H>(s: State<H>, mode: U32, name: Bytes, body: Bytes, conn: nat): State<H> {
    if CanRoute(s, mode, name) && !s.stopped
    then s.(queue := s.queue + [QueuedCall(mode, name, Table(s, mode)[name], body, conn, s.clock)])
    else s
  }

  /** A worker runs what the node of call `i` holds now. */
  function DoExecute<H>(s: State<H>, i: nat): State<H>
    requires i < |s.queue|
  {
    var call := s.queue[i];
    var handler := if call.node in s.nodes then Some(s.nodes[call.node]) else None;
    s.(queue := s.queue[..i] + s.queue[i + 1..], executed := s.executed + [Executed(call, handler)])
  }

  function Apply<H>(s: State<H>, a: Action<H>): State<H>
    requires Enabled(s, a)
  {
    var t := match a
      case Bind(mode, name, handler) => DoBind(s, mode, name, handler)
      case Unbind(mode, name) => DoUnbind(s, mode, name)
      case Route(mode, name, body, conn) => DoRoute(s, mode, name, body, conn)
      case Execute(i) => DoExecute(s, i)
      case SetStop => s.(stopped := true);
    t.(clock := s.clock + 1)
  }

  function Init<H>(): State<H> { State(map[], map[], map[], 0, [], false, [], 0) }

  /** The state after a history, None when some action of it was not possible. */
  function After<H>(history: seq<Action<H>>): Option<State<H>>
    decreases |history|
  {
    if history == [] then Some(Init())
    else
      var before := After(history[..|history| - 1]);
      var a := history[|history| - 1];
      if before.Some? && Enabled(before.value, a) then Some(Apply(before.value, a)) else None
  }

  // ---- the meaning of a name, read off the history alone ----

  /** The handler bound last to `name` in the registry of `mode`, unless it was unbound since. */
  function LastBound<H>(history: seq<Action<H>>, mode: U32, name: Bytes): Option<H>
    decreases |history|
  {
    if history == [] then None
    else
      var a, before := history[|history| - 1], history[..|history| - 1];
      match a
      case Bind(m, n, handler) => if m == mode && n == name then Some(handler) else LastBound(before, mode, name)
      case Unbind(m, n) => if m == mode && n == name then None else LastBound(before, mode, name)
      case _ => LastBound(before, mode, name)
  }

  /** `name` has been unbound in the registry of `mode` since action number `since`. */
  predicate UnboundSince<H(==)>(history: seq<Action<H>>, mode: U32, name: Bytes, since: nat) {
    exists i :: since <= i < |history| && history[i].Unbind? && history[i].mode == mode && history[i].name == name
  }

  // ---- invariant ----

  /** Tables refer to live nodes, each node belongs to one name of one registry. */
  ghost predicate TablesOk<H>(s: State<H>) {
    && (forall n :: n in s.invokerMap ==> s.invokerMap[n] in s.nodes)
    && (forall n :: n in s.invokerRawMap ==> s.invokerRawMap[n] in s.nodes)
    && (forall m, n :: m in s.invokerMap && n in s.invokerMap && m != n ==> s.invokerMap[m] != s.invokerMap[n])
    && (forall m, n :: m in s.invokerRawMap && n in s.invokerRawMap && m != n ==> s.invokerRawMap[m] != s.invokerRawMap[n])
    && (forall m, n :: m in s.invokerMap && n in s.invokerRawMap ==> s.invokerMap[m] != s.invokerRawMap[n])
    && (forall k :: k in s.nodes ==> k < s.nextNode)
  }

  /** What the tables hold for `name` in the registry of `mode`. */
  ghost function Lookup<H>(s: State<H>, mode: U32, name: Bytes): Option<H>
    requires TablesOk(s)
  {
    if ValidMode(mode) && name in Table(s, mode) then Some(s.nodes[Table(s, mode)[name]]) else None
  }

  ghost predicate TablesAre<H(!new)>(s: State<H>, history: seq<Action<H>>)
    requires TablesOk(s)
  {
    forall mode, name :: LastBound(history, mode, name) == Lookup(s, mode, name)
  }

  /** A queued call still names its node, unless its name was unbound since; then the node is gone. */
  ghost predicate CallOk<H>(s: State<H>, history: seq<Action<H>>, q: QueuedCall) {
    && ValidMode(q.mode) && q.node < s.nextNode && q.since < |history|
    && history[q.since] == Route(q.mode, q.name, q.body, q.conn)
    && if UnboundSince(history, q.mode, q.name, q.since) then q.node !in s.nodes
       else q.name in Table(s, q.mode) && Table(s, q.mode)[q.name] == q.node
  }

  ghost predicate CallsOk<H>(s: State<H>, history: seq<Action<H>>) {
    forall i :: 0 <= i < |s.queue| ==> CallOk(s, history, s.queue[i])
  }

  ghost predicate Inv<H(!new)>(s: State<H>, history: seq<Action<H>>) {
    s.clock == |history| && TablesOk(s) && TablesAre(s, history) && CallsOk(s, history)
  }

  lemma BindTablesOk<H>(s: State<H>, mode: U32, name: Bytes, handler: H)
    requires TablesOk(s) && ValidMode(mode)
    ensures TablesOk(DoBind(s, mode, name, handler))
  {
    var t := DoBind(s, mode, name, handler);
    if name in Table(s, mode) {
      assert t.nodes.Keys == s.nodes.Keys;
    } else {
      assert s.nextNode !in s.nodes;
    }
  }

  lemma UnbindTablesOk<H>(s: State<H>, mode: U32, name: Bytes)
    requires TablesOk(s) && ValidMode(mode)
    ensures TablesOk(DoUnbind(s, mode, name))
  {
  }

  lemma BindTablesAre<H(!new)>(s: State<H>, history: seq<Action<H>>, a: Action<H>)
    requires TablesOk(s) && TablesAre(s, history) && a.Bind? && ValidMode(a.mode) && TablesOk(Apply(s, a))
    ensures TablesAre(Apply(s, a), history + [a])
  {
    var t, history' := Apply(s, a), history + [a];
    assert history'[..|history|] == history;
    forall mode, name
      ensures LastBound(history', mode, name) == Lookup(t, mode, name)
    {
      assert LastBound(history, mode, name) == Lookup(s, mode, name);
    }
  }

  lemma UnbindTablesAre<H(!new)>(s: State<H>, history: seq<Action<H>>, a: Action<H>)
    requires TablesOk(s) && TablesAre(s, history) && a.Unbind? && ValidMode(a.mode) && TablesOk(Apply(s, a))
    ensures TablesAre(Apply(s, a), history + [a])
  {
    var t, history' := Apply(s, a), history + [a];
    assert history'[..|history|] == history;
    forall mode, name
      ensures LastBound(history', mode, name) == Lookup(t, mode, name)
    {
      assert LastBound(history, mode, name) == Lookup(s, mode, name);
    }
  }

  lemma StepTables<H(!new)>(s: State<H>, history: seq<Action<H>>, a: Action<H>)
    requires TablesOk(s) && TablesAre(s, history) && Enabled(s, a)
    ensures TablesOk(Apply(s, a)) && TablesAre(Apply(s, a), history + [a])
  {
    if a.Bind? {
      BindTablesOk(s, a.mode, a.name, a.handler);
      BindTablesAre(s, history, a);
    } else if a.Unbind? {
      UnbindTablesOk(s, a.mode, a.name);
      UnbindTablesAre(s, history, a);
    } else {
      assert (history + [a])[..|history|] == history;
      assert forall mode, name :: LastBound(history + [a], mode, name) == LastBound(history, mode, name);
      assert forall mode, name :: LastBound(history, mode, name) == Lookup(s, mode, name);
    }
  }

  lemma StepCall<H(!new)>(s: State<H>, history: seq<Action<H>>, a: Action<H>, q: QueuedCall)
    requires Inv(s, history) && Enabled(s, a) && CallOk(s, history, q)
    ensures CallOk(Apply(s, a), history + [a], q)
  {
    UnboundNow(history, a, q.mode, q.name, q.since);
  }

  lemma UnboundNow<H(!new)>(history: seq<Action<H>>, a: Action<H>, mode: U32, name: Bytes, since: nat)
    requires since <= |history|
    ensures UnboundSince(history + [a], mode, name, since) <==>
            UnboundSince(history, mode, name, since) || (a.Unbind? && a.mode == mode && a.name == name)
  {
    var history' := history + [a];
    assert history'[|history|] == a;
    assert forall i :: 0 <= i < |history| ==> history'[i] == history[i];
  }

  lemma StepInv<H(!new)>(s: State<H>, history: seq<Action<H>>, a: Action<H>)
    requires Inv(s, history) && Enabled(s, a)
    ensures Inv(Apply(s, a), history + [a])
  {
    StepTables(s, history, a);
    var t := Apply(s, a);
    forall i | 0 <= i < |t.queue| ensures CallOk(t, history + [a], t.queue[i]) {
      if a.Execute? {
        StepCall(s, history, a, s.queue[if i < a.i then i else i + 1]);
      } else if i < |s.queue| {
        assert t.queue[i] == s.queue[i];
        StepCall(s, history, a, s.queue[i]);
      }
    }
  }

  lemma {:induction false} AfterInv<H(!new)>(history: seq<Action<H>>)
    requires After(history).Some?
    ensures Inv(After(history).value, history)
    decreases |history|
  {
    if history != [] {
      var before, a := history[..|history| - 1], history[|history| - 1];
      AfterInv(before);
      StepInv(After(before).value, before, a);
      assert before + [a] == history;
    }
  }

  // ---- main results ----

  /** Which histories happen: any binding, unbinding, routing and stopping, and the execution of a queued call. */
  lemma HistoryGoesOn<H(!new)>(history: seq<Action<H>>, a: Action<H>)
    ensures After<H>([]) == Some(State(map[], map[], map[], 0, [], false, [], 0))
    ensures After(history + [a]).Some? <==>
              && After(history).Some?
              && (a.Bind? ==> a.mode == 0 || a.mode == 1)
              && (a.Unbind? ==> a.mode == 0 || a.mode == 1)
              && (a.Execute? ==> a.i < |After(history).value.queue|)
    ensures After(history + [a]).Some? ==> After(history + [a]).value == Apply(After(history).value, a)
  {
    assert (history + [a])[..|history|] == history;
  }

  /** Routing succeeds exactly for a valid mode and a name whose last (un)binding in that registry was a binding. */
  lemma {:induction false} RouteIff<H(!new)>(history: seq<Action<H>>, mode: U32, name: Bytes)
    requires After(history).Some?
    ensures CanRoute(After(history).value, mode, name) <==> LastBound(history, mode, name).Some?
  {
    AfterInv(history);
    if !ValidMode(mode) {
      assert Table(After(history).value, mode) == map[];
    }
  }

  /**
   Late binding, in whatever order the workers execute: every queued call keeps the body and the
   connection it was routed with; executing it runs the handler its name is bound to at that moment,
   in the registry of its own mode, exactly when the name was not unbound since it was routed.
   Otherwise the node it refers to is gone, even if the name was bound again.
   */
  lemma {:induction false} LateBinding<H(!new)>(history: seq<Action<H>>, i: nat)
    requires After(history).Some? && i < |After(history).value.queue|
    ensures var s := After(history).value;
            var q, t := s.queue[i], Apply(s, Execute(i));
            && t.executed[..|s.executed|] == s.executed && |t.executed| == |s.executed| + 1
            && t.queue == s.queue[..i] + s.queue[i + 1..]
            && q.since < |history| && history[q.since] == Route(q.mode, q.name, q.body, q.conn)
            && var ran := t.executed[|s.executed|];
            && ran.call == q
            && ran.handler ==
               (if UnboundSince(history, q.mode, q.name, q.since) then None else LastBound(history, q.mode, q.name))
            && (ran.handler == None <==> UnboundSince(history, q.mode, q.name, q.since))
  {
    AfterInv(history);
    var s := After(history).value;
    assert CallOk(s, history, s.queue[i]);
  }

  // ---- no call is lost or made up ----

  /** The stop flag has been set in a history. */
  ghost predicate StopSet<H>(history: seq<Action<H>>) {
    exists i :: 0 <= i < |history| && history[i].SetStop?
  }

  lemma {:induction false} StoppedIff<H(!new)>(history: seq<Action<H>>)
    requires After(history).Some?
    ensures After(history).value.stopped <==> StopSet(history)
    decreases |history|
  {
    if history != [] {
      var before, a := history[..|history| - 1], history[|history| - 1];
      StoppedIff(before);
      assert StopSet(history) <==> StopSet(before) || a.SetStop?;
    }
  }

  /**
   route appends exactly one call, for the handler bound to the name, when the name is bound in the
   registry of the mode and the pool was not stopped; otherwise it queues nothing.
   */
  lemma RouteQueuesIff<H(!new)>(history: seq<Action<H>>, mode: U32, name: Bytes, body: Bytes, conn: nat)
    requires After(history).Some?
    ensures var s := After(history).value;
            var t := Apply(s, Action.Route(mode, name, body, conn));
            && t.executed == s.executed && s.queue <= t.queue
            && (if LastBound(history, mode, name).Some? && !StopSet(history) then
                  && |t.queue| == |s.queue| + 1
                  && var q := t.queue[|s.queue|];
                  && q.mode == mode && q.name == name && q.body == body && q.conn == conn && q.since == |history|
                  && q.node in t.nodes && t.nodes[q.node] == LastBound(history, mode, name).value
                else t.queue == s.queue)
  {
    AfterInv(history);
    RouteIff(history, mode, name);
    StoppedIff(history);
    var s := After(history).value;
    assert LastBound(history, mode, name) == Lookup(s, mode, name);
  }

  /** What identifies a call: what was routed, and when. */
  datatype Call = Call(mode: U32, name: Bytes, body: Bytes, conn: nat, since: nat)

  function CallOf(q: QueuedCall): Call { Call(q.mode, q.name, q.body, q.conn, q.since) }

  /** route accepted this call: at its time the name was bound and the pool not stopped. */
  ghost predicate Accepted<H>(history: seq<Action<H>>, c: Call) {
    && c.since < |history| && history[c.since] == Route(c.mode, c.name, c.body, c.conn)
    && LastBound(history[..c.since], c.mode, c.name).Some? && !StopSet(history[..c.since])
  }

  /** How often a call is queued. */
  function TimesQueued(queue: seq<QueuedCall>, c: Call): nat {
    if queue == [] then 0 else (if CallOf(queue[0]) == c then 1 else 0) + TimesQueued(queue[1..], c)
  }

  /** How often a call has been executed. */
  function TimesRun<H>(executed: seq<Executed<H>>, c: Call): nat
    decreases |executed|
  {
    if executed == [] then 0
    else TimesRun(executed[..|executed| - 1], c) + if CallOf(executed[|executed| - 1].call) == c then 1 else 0
  }

  lemma {:induction false} TimesConcat(a: seq<QueuedCall>, b: seq<QueuedCall>, c: Call)
    ensures TimesQueued(a + b, c) == TimesQueued(a, c) + TimesQueued(b, c)
  {
    if a == [] {
      assert a + b == b;
    } else {
      assert (a + b)[1..] == a[1..] + b;
      TimesConcat(a[1..], b, c);
    }
  }

  lemma ExecuteCounts<H>(s: State<H>, i: nat, c: Call)
    requires i < |s.queue|
    ensures var t := DoExecute(s, i);
            TimesQueued(t.queue, c) + TimesRun(t.executed, c) == TimesQueued(s.queue, c) + TimesRun(s.executed, c)
  {
    var front, back := s.queue[..i], s.queue[i + 1..];
    assert s.queue == front + ([s.queue[i]] + back);
    TimesConcat(front, [s.queue[i]] + back, c);
    TimesConcat(front, back, c);
    assert ([s.queue[i]] + back)[1..] == back;
    assert DoExecute(s, i).executed[..|s.executed|] == s.executed;
  }

  lemma RouteCounts<H(!new)>(history: seq<Action<H>>, a: Action<H>, c: Call)
    requires After(history).Some? && a.Route?
    ensures var s := After(history).value;
            TimesQueued(Apply(s, a).queue, c) == TimesQueued(s.queue, c) +
              if c.since == |history| && Accepted(history + [a], c) then 1 else 0
  {
    var s := After(history).value;
    var t := Apply(s, a);
    RouteQueuesIff(history, a.mode, a.name, a.body, a.conn);
    assert (history + [a])[..|history|] == history;
    if t.queue != s.queue {
      var q := t.queue[|s.queue|];
      assert t.queue == s.queue + [q];
      TimesConcat(s.queue, [q], c);
      assert [q][1..] == [];
    }
  }

  lemma AcceptedBefore<H>(history: seq<Action<H>>, a: Action<H>, c: Call)
    requires c.since < |history|
    ensures Accepted(history + [a], c) <==> Accepted(history, c)
  {
    assert (history + [a])[..c.since] == history[..c.since];
  }

  lemma ActionCounts<H(!new)>(history: seq<Action<H>>, a: Action<H>, c: Call)
    requires After(history).Some? && Enabled(After(history).value, a)
    ensures var s := After(history).value;
            var t := Apply(s, a);
            TimesRun(t.executed, c) + TimesQueued(t.queue, c) == TimesRun(s.executed, c) + TimesQueued(s.queue, c) +
              if c.since == |history| && Accepted(history + [a], c) then 1 else 0
  {
    if a.Route? {
      RouteCounts(history, a, c);
    } else if a.Execute? {
      ExecuteCounts(After(history).value, a.i, c);
    }
  }

  /** Over every history: each call that route accepted is executed once or queued once, and no other call is either. */
  lemma {:induction false} AcceptedIsExecutedOrQueued<H(!new)>(history: seq<Action<H>>, c: Call)
    requires After(history).Some?
    ensures var s := After(history).value;
            TimesRun(s.executed, c) + TimesQueued(s.queue, c) == if Accepted(history, c) then 1 else 0
    decreases |history|
  {
    if history != [] {
      var before, a := history[..|history| - 1], history[|history| - 1];
      assert before + [a] == history;
      AcceptedIsExecutedOrQueued(before, c);
      ActionCounts(before, a, c);
      if c.since < |before| {
        AcceptedBefore(before, a, c);
      }
    }
  }

  /** An action on one registry changes nothing that the other registry says. */
  lemma {:induction false} RegistriesAreIndependent<H(!new)>(history: seq<Action<H>>, a: Action<H>, mode: U32, name: Bytes)
    requires a.Bind? || a.Unbind?
    requires a.mode != mode && After(history + [a]).Some? && After(history).Some?
    ensures var s, t := After(history).value, After(history + [a]).value;
            && (CanRoute(t, mode, name) <==> CanRoute(s, mode, name))
            && LastBound(history + [a], mode, name) == LastBound(history, mode, name)
  {
    assert (history + [a])[..|history|] == history;
    RouteIff(history, mode, name);
    RouteIff(history + [a], mode, name);
  }

  // ---- the class ----

  class RouterTables<H> {
    var invokerMap: map<Bytes, nat>
    var invokerRawMap: map<Bytes, nat>
    var nodes: map<nat, H>  // the heap cells of both maps
    var nextNode: nat
    var tasks: seq<QueuedCall>
    var stopped: bool  // the stop flag of the pool
    var clock: nat  // number of calls so far, to date the queued ones
    ghost var executed: seq<Executed<H>>

    ghost function Abs(): State<H>
      reads this
    {
      State(invokerMap, invokerRawMap, nodes, nextNode, tasks, stopped, executed, clock)
    }

    constructor ()
      ensures Abs() == Init()
    {
      invokerMap, invokerRawMap, nodes, nextNode, tasks := map[], map[], map[], 0, [];
      stopped, clock, executed := false, 0, [];
    }

    method Bind(name: Bytes, handler: H)
      modifies this
      ensures Abs() == Apply(old(Abs()), Action.Bind(NON_RAW, name, handler))
    {
      if name in invokerMap {
        nodes := nodes[invokerMap[name] := handler];
      } else {
        invokerMap, nodes, nextNode := invokerMap[name := nextNode], nodes[nextNode := handler], nextNode + 1;
      }
      clock := clock + 1;
    }

    method BindRaw(name: Bytes, handler: H)
      modifies this
      ensures Abs() == Apply(old(Abs()), Action.Bind(RAW, name, handler))
    {
      if name in invokerRawMap {
        nodes := nodes[invokerRawMap[name] := handler];
      } else {
        invokerRawMap, nodes, nextNode := invokerRawMap[name := nextNode], nodes[nextNode := handler], nextNode + 1;
      }
      clock := clock + 1;
    }

    method Unbind(name: Bytes)
      modifies this
      ensures Abs() == Apply(old(Abs()), Action.Unbind(NON_RAW, name))
    {
      if name in invokerMap {
        nodes := nodes - {invokerMap[name]};
        invokerMap := invokerMap - {name};
      }
      clock := clock + 1;
    }

    method UnbindRaw(name: Bytes)
      modifies this
      ensures Abs() == Apply(old(Abs()), Action.Unbind(RAW, name))
    {
      if name in invokerRawMap {
        nodes := nodes - {invokerRawMap[name]};
        invokerRawMap := invokerRawMap - {name};
      }
      clock := clock + 1;
    }

    /** 101-104: what `stop` does to the queueing of calls. */
    method Stop()
      modifies this
      ensures Abs() == Apply(old(Abs()), Action.SetStop)
    {
      stopped := true;
      clock := clock + 1;
    }

    /** 58-66 of easyrpc/base/thread_pool.hpp. */
    method AddTask(call: QueuedCall)
      modifies this`tasks
      ensures tasks == if stopped then old(tasks) else old(tasks) + [call]
    {
      if !stopped {
        tasks := tasks + [call];
      }
    }

    /** 160-190. */
    method Route(name: Bytes, body: Bytes, mode: U32, conn: nat) returns (ok: bool)
      modifies this
      ensures ok == CanRoute(old(Abs()), mode, name)
      ensures ok <==> (mode == 1 && name in invokerMap) || (mode == 0 && name in invokerRawMap)
      ensures var node := if mode == 1 then invokerMap else invokerRawMap;
              tasks == if ok && !stopped then old(tasks) + [QueuedCall(mode, name, node[name], body, conn, old(clock))]
                       else old(tasks)
      ensures Abs() == Apply(old(Abs()), Action.Route(mode, name, body, conn))
    {
      var since := clock;
      clock := clock + 1;
      if mode == NON_RAW {
        if name !in invokerMap {
          return false;
        }
        AddTask(QueuedCall(mode, name, invokerMap[name], body, conn, since));
      } else if mode == RAW {
        if name !in invokerRawMap {
          return false;
        }
        AddTask(QueuedCall(mode, name, invokerRawMap[name], body, conn, since));
      } else {
        return false;
      }
      ok := true;
    }
  }
}
