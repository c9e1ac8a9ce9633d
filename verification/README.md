# easyrpc, modelled and proved in Dafny

easyrpc is a header-only C++14 RPC framework. This project models its three cores and the smaller
ones around them, and proves what they keep over whole runs.

* **The worker pool** (`pool_model.dfy`, `pool_invariants.dfy`, `pool_progress.dfy`, `pool_order.dfy`,
  `pool_stopping.dfy`, `pool_blocked.dfy`, `totals.dfy`, `thread_pool.dfy`). The bounded blocking
  queue is a transition system with explicit program counters for every `add_task` call, every worker
  and the stopper, an explicit mutex, two condition variables with spurious wakeups, and a stop flag
  that is written without the mutex. On top of it: no lost wakeup, deadlock freedom, draining with an
  explicit measure, whole-run accounting, the start order, the capacity bound, the behaviour of `stop`
  and the fate of calls that it finds blocked. `ThreadPoolClass.ThreadPool` is the C++ class; its
  critical sections are tied to runs of the transition system.
* **The wire protocol and the call path** (`wire.dfy`, `reader.dfy`, `invoker.dfy`, `remote_call.dfy`,
  `router.dfy`, `session.dfy`). Byte-level request and response frames, the two-stage reader that
  fills its buffers in place, the recursive argument unpacker with its catch clauses, the registry
  whose queued calls refer to map nodes, the client session with its timer thread, and the theorem
  that a remote call is a local call.
* **The connection lifecycle and the whole server** (`server_system.dfy`, `server_invariants.dfy`,
  `server_theorems.dfy`, `server_answers.dfy`, `connection.dfy`, `guard_timer.dfy`). One transition
  system in which the read handlers, timers, shared owners and destructors of any number of
  connections interleave with the steps of the one pool they share. Its layers are reused: the pool
  part is the pool's transition system, the bytes are decoded by the wire model, and the replies are
  those of the dispatcher. The top result composes all of them: a remote call among any number of
  others is a local call, whose caller reads the value exactly if its connection was open when the
  task ended and the network took the reply.
* **Smaller parts**: the in-place tokenizer (`string_util.dfy`), address parsing (`address.dfy`),
  round-robin placement (`placement.dfy`) and recursive directory creation (`file_util.dfy`).

## Reading the results

Code that changes fields step by step is a class whose methods state their whole new state, mostly as
a function of the old one; the properties of those functions are lemmas over every input or every
reachable state. Several properties one might expect do not hold of the code as it is. They are stated
with the exact condition under which they do hold:

* Tasks are taken in the order of acceptance, but they are *started* in that order exactly when there
  is at most one worker (`PoolOrder.StartOrderIff`).
* `stop` can hang, exactly when the flag is set while a worker stands between its test and its sleep,
  no call past the flag check is on its way to the mutex, and no worker that has still to notify
  `task_put_` can send a sleeping call there; every pool can get there (`PoolStopping.StopHangsIff`,
  `PoolStopping.StopMayHang`).
* `stop` does not notify `task_put_`, so `add_task` may never return, exactly when a call stands between
  its test and its sleep, or more calls are asleep than workers have still to notify
  (`PoolBlocked.CallsHangIff`, `PoolBlocked.CallsMayHang`).
* A routed call is certain to be answered on its open connection, provided the network takes the reply,
  exactly if no expiry is queued there: always with timeout 0, otherwise exactly if its body came in
  before the deadline completed (`ServerAnswers.AnswerIsCertainIff`).
* A guard that was dismissed is armed again by a move (`ScopeGuards.RunsOnceUnlessDismissedLast`).
* With a nonzero timeout a connection owns itself through its timer and is never destroyed. Once its
  call has ended it stays open forever exactly if the whole reply went out and its deadline had not
  completed: an expiry that is already queued closes it even after the answer
  (`ServerTheorems.AnsweredStaysOpenIff`, `ServerTheorems.BothOutcomesOccur`).
* Stopping the client's timer does not stop a handler that is already queued: a call that the network
  serves in time returns its response under every schedule exactly if no handler of an earlier call is
  still queued (`Session.StaleHandlerIff`).
* A queued call keeps its handler's map node alive only as long as the name is not unbound
  (`Router.LateBinding`).
* A request of exactly 8 MiB, or of length 0, is sent by the client and rejected by the server
  (`Wire.RequestRoundTrip`).
* A response inverts exactly below 2^32 bytes (`Wire.ResponseRoundTrip`).
* `listen("host:port")` stores that host and port exactly for hosts that are nonempty, have no colon
  and no NUL, and are not "localhost" in any case; `connect` likewise needs a host and a port that are
  nonempty and have neither (`Address.ListenRoundTripIff`, `Address.ConnectRoundTripIff`).

Hypotheses: the serializer is abstract and, where stated, unpacking at the right types inverts packing
(`RemoteCall.RoundTrips`); handlers are deterministic and terminate; the network, the clock and the
scheduler are parameters or choices of the environment. Header integers are laid out little-endian.

## Model

| member | source | states |
|---|---|---|
| PoolInvariants.StepInv | easyrpc/base/thread_pool.hpp:84-158 | every step of every thread keeps mutual exclusion, the outcome of a test under the mutex, exact accounting, the capacity bound and both wakeup invariants |
| PoolInvariants.RunInv | easyrpc/base/thread_pool.hpp:84-158 | so does every run, and the number of workers stays |
| PoolInvariants.ReachableInv | easyrpc/base/thread_pool.hpp:33-158 | every reachable state of a pool started with n workers satisfies the invariant |
| PoolProgress.NoLostWakeup | easyrpc/base/thread_pool.hpp:84-149 | while running, a nonempty queue leaves a worker awake or a notification to send; a sleeping producer with a queue that is not full leaves a worker between pop and notify or another producer on its way; a holder of the mutex can always move |
| PoolProgress.QuiescentMeansDrained | easyrpc/base/thread_pool.hpp:84-149 | deadlock freedom: a running pool of at least one worker is at rest only when every call has returned and every task was executed once |
| PoolProgress.DrainStep | easyrpc/base/thread_pool.hpp:84-149 | every step that is not the environment's decreases an explicit measure |
| PoolProgress.DrainingIsFinite | easyrpc/base/thread_pool.hpp:84-149 | runs without new calls, stop and spurious wakeups are at most as long as the measure |
| PoolProgress.Draining | easyrpc/base/thread_pool.hpp:84-149 | such a run from any reachable running state is finite and, when nothing can move, has executed every task exactly once |
| PoolProgress.CanDrain | easyrpc/base/thread_pool.hpp:84-149 | and a run to that end exists from every reachable running state |
| PoolOrder.WholeRunAccounting | easyrpc/base/thread_pool.hpp:84-158 | accepted tasks are, in order, those taken, those discarded and those queued; each is taken, started and finished at most once; none is both started and discarded |
| PoolOrder.TakingFindsATask | easyrpc/base/thread_pool.hpp:126-141 | a worker past the stop check finds the queue nonempty, so the re-test never fails |
| PoolOrder.StartOrderIff | easyrpc/base/thread_pool.hpp:119-149 | tasks start in acceptance order in every run if and only if there is at most one worker |
| PoolOrder.Overtaking | easyrpc/base/thread_pool.hpp:136-145 | for every pool of two or more workers, a run in which the second task starts first |
| PoolStopping.CapacityBound | easyrpc/base/thread_pool.hpp:48-94 | at most 100000 queued before the flag, and afterwards at most that plus the calls that were past the flag check |
| PoolStopping.StartsAfterStop | easyrpc/base/thread_pool.hpp:99-145 | after the flag each worker starts at most one further task, and only if it was past the check at 131 |
| PoolStopping.JoinedWorkersStartNothing | easyrpc/base/thread_pool.hpp:104-113 | a joined worker starts nothing |
| PoolStopping.LateTasksNeverRun | easyrpc/base/thread_pool.hpp:61-158 | tasks queued at the flag, but for one a worker is about to take, and tasks pushed later are never executed |
| PoolStopping.StoppingIsFinite | easyrpc/base/thread_pool.hpp:99-158 | after the flag every run is finite even with spurious wakeups; each late call adds at most six steps |
| PoolStopping.MissedIff | easyrpc/base/thread_pool.hpp:99-134 | some schedule leaves a worker asleep past notify_all, to be woken by a late call if at all, if and only if a worker is between 126 and 128 while the flag is set |
| PoolStopping.StopCompletes | easyrpc/base/thread_pool.hpp:99-117 | unless the pool is exposed when the flag is set, every run, late calls and spurious wakeups included, is bounded, and one that comes to rest has joined all workers and cleaned the queue |
| PoolStopping.StopHangsIff | easyrpc/base/thread_pool.hpp:84-149 | once the flag is set, some run of the threads' own steps comes to rest with stop still waiting if and only if a worker is between test and sleep, no call is past the flag check and before the mutex, and no worker before its notification can wake a sleeping call |
| PoolStopping.StopMayHang | easyrpc/base/thread_pool.hpp:99-128 | for every pool of at least one worker, a run without any call to a state from which stop can hang |
| PoolStopping.StrandedForever | easyrpc/base/thread_pool.hpp:99-128 | a missed worker that nobody is bound to wake sleeps forever without a spurious wakeup, and stop never returns |
| PoolBlocked.BlockedAtRest | easyrpc/base/thread_pool.hpp:84-149 | after the flag, with no call between test and sleep: at rest exactly as many calls are asleep as outnumber the workers that had still to notify, in every schedule with late calls, and all other calls have returned |
| PoolBlocked.CallsHangIff | easyrpc/base/thread_pool.hpp:84-149 | after the flag, some run comes to rest with a call still in add_task if and only if one stands between its test and its sleep or more are asleep than workers have still to notify |
| PoolBlocked.CallsMayHang | easyrpc/base/thread_pool.hpp:84-102 | for every pool, a run to such a state: the queue is full when the flag is set |
| ThreadPoolClass.CallIsARun | easyrpc/base/thread_pool.hpp:48-66 | a call that begins and reads the flag is two steps of the transition system, and ends before the mutex or, once the flag is set, refused |
| ThreadPoolClass.PutIsARun | easyrpc/base/thread_pool.hpp:84-95 | the producer's critical section is a nonempty run of that call's own steps that frees the mutex: asleep exactly at 100000 tasks with the flag clear, else with its task appended and the notification to come |
| ThreadPoolClass.TakeIsARun | easyrpc/base/thread_pool.hpp:123-141 | the worker's critical section is a nonempty run of that worker's own steps that frees the mutex: gone once the flag is set, else asleep exactly on an empty queue, else with the front task in hand |
| ThreadPoolClass.LateThreads | easyrpc/base/thread_pool.hpp:33-46 | until the pool is stopped, threads started on a pool in use make a state that a pool started with all of them can reach |
| ThreadPoolClass.ThreadPool.InitThreadNum | easyrpc/base/thread_pool.hpp:33-46 | adds exactly num workers to a pool fresh or in use, or refuses numbers outside 1 to 30 and adds none |
| ThreadPoolClass.ThreadPool.AddTask | easyrpc/base/thread_pool.hpp:48-66 | a new call goes on exactly when the flag is clear |
| ThreadPoolClass.ThreadPool.AddTaskImpl | easyrpc/base/thread_pool.hpp:84-95 | appends the task, or waits exactly when the size equals the bound and the flag is clear |
| ThreadPoolClass.ThreadPool.TakeTask | easyrpc/base/thread_pool.hpp:123-141 | sleeps, leaves, or takes exactly the front task, which is the one its call handed over; the worker of the transition system sleeps, has left, or holds it accordingly |
| ThreadPoolClass.ThreadPool.SetStopFlag | easyrpc/base/thread_pool.hpp:101 | sets the flag whoever holds the mutex, and changes nothing else |
| ThreadPoolClass.ThreadPool.CleanTaskQueue | easyrpc/base/thread_pool.hpp:151-158 | after the joins, empties the queue and records all of it as discarded |
| ThreadPoolClass.ThreadPool.OtherStep | easyrpc/base/thread_pool.hpp:96-149 | every step that leaves queue and flag alone (notify, run, wake, join) keeps the object valid, so the methods interleave as the threads do |
| Wire.U32RoundTrip | easyrpc/base/header.hpp:19-29 | a 32-bit field and its four bytes determine each other |
| Wire.HeaderRoundTrip | easyrpc/base/header.hpp:19-24 | the three-field request header and its twelve bytes determine each other |
| Wire.HeaderLayout | easyrpc/base/header.hpp:19-24 | the twelve bytes are protocol_len, body_len and mode in this order, each little-endian |
| Wire.DecodeMeaning | easyrpc/server/connection.hpp:95-126 | for every byte stream: waits below 12 bytes; refuses exactly a header whose lengths sum, modulo 2^32, to 0 or to 8388608 or more; routes exactly when all announced bytes are in, and then the bytes at their places |
| Wire.ClientSendsIff | easyrpc/client/rpc_session.hpp:78-89 | the client sends exactly if the total length, modulo 2^32, is at most 8 MiB |
| Wire.RequestRoundTrip | easyrpc/server/connection.hpp:95-126 | for every request sent, with any bytes following: the same triple and the following bytes unread if 0 < length < 8 MiB, rejected otherwise |
| Wire.PrefixNeedsMore | easyrpc/server/connection.hpp:67-107 | no proper prefix of a frame is taken for a request |
| Wire.ResponseRoundTrip | easyrpc/server/connection.hpp:44-54 | the client accepts every response the server sends, loses no byte, and reads back exactly the body if and only if it is below 2^32 bytes |
| Wire.DecodeResponseMeaning | easyrpc/client/rpc_session.hpp:121-151 | for every byte stream: gives up exactly on a length above 8388608, reads a body exactly when all of it is in |
| Wire.ReplyCutShort | easyrpc/client/rpc_session.hpp:121-151 | no proper prefix of a response below 2^32 bytes is taken for a response; the client sees the stream end |
| Wire.ResponseAgreement | easyrpc/client/rpc_session.hpp:131-138 | both sides agree on body lengths 0 to 8 MiB inclusive |
| Reader.OneChunkIsDecode | easyrpc/server/connection.hpp:67-126 | the two reads together do what one-shot decoding does |
| Reader.FeedTwice | easyrpc/server/connection.hpp:67-126 | from every reader state, where the stream is cut does not matter |
| Reader.FragmentationIndependence | easyrpc/server/connection.hpp:67-126 | for every fragmentation the outcome is that of decoding the whole stream |
| Reader.RefusesIff | easyrpc/server/connection.hpp:95-100 | however the stream is cut, exactly a header whose lengths sum, modulo 2^32, to 0 or to 8388608 or more is refused |
| Reader.RequestReader.HeadRead | easyrpc/server/connection.hpp:87-105 | the full header buffer is checked and, exactly for a length above 0 and below 8388608, sizes the second buffer; it is rejected otherwise |
| Reader.RequestReader.BodyRead | easyrpc/server/connection.hpp:124-126 | the full second buffer is cut at the protocol length |
| Reader.RequestReader.Receive | easyrpc/server/connection.hpp:67-126 | filling the buffers in place byte by byte computes exactly the specified reader state |
| Invoker.ApplyMeaning | easyrpc/server/router.hpp:271-336 | for every arity: one call on the unpacked values in order if all unpack, none otherwise; nothing escapes; the result is the packed value, or empty on failure |
| Invoker.TaskMeaning | easyrpc/server/router.hpp:26-40 | the task of a request does what the specification without levels and exceptions says, and still attempts a reply when the call failed |
| RemoteCall.ServeFrame | easyrpc/server/connection.hpp:102-132 | a request within both limits reaches the dispatcher unchanged |
| RemoteCall.ExchangeOutcome | easyrpc/server/router.hpp:160-214 | the bound function is invoked exactly once on the caller's arguments, whatever it does, and the client receives its packed result, an empty body, or the end of the stream |
| RemoteCall.ReplyByOutcome | easyrpc/server/router.hpp:193-208 | the reply for each thing the function can do: its packed value, the packed nothing of a void function, an empty body when it throws or its value cannot be packed, the end of the stream above 8388608 bytes |
| RemoteCall.UnboundCallFails | easyrpc/server/router.hpp:160-190 | a call of an unbound name or in an unknown mode runs nothing and ends in an error |
| RemoteCall.UnsentCallFails | easyrpc/client/client.hpp:72-81 | arguments that cannot be packed, or a request above 8388608 bytes, give the caller an error and run nothing |
| RemoteCall.RemoteCallIsLocalCall | easyrpc/client/client.hpp:72-81 | a remote call returns what the bound function of any arity returns, having invoked it exactly once |
| RemoteCall.RawCallIsLocalCall | easyrpc/client/client.hpp:93-102 | a raw call invokes the handler once on the caller's bytes and returns the very bytes the handler returned, nothing for a void or throwing one, an error above 8388608 bytes |
| Router.RouteIff | easyrpc/server/router.hpp:160-190 | routing succeeds exactly for a valid mode and a name bound, and not unbound since, in that registry |
| Router.RouteQueuesIff | easyrpc/server/router.hpp:160-190 | after every history, route appends exactly one call, as given and for the handler bound to the name, if the name is bound and the pool was not stopped; otherwise it queues nothing |
| Router.AcceptedIsExecutedOrQueued | easyrpc/server/router.hpp:160-190 | over every history, each accepted call is executed once or queued once, and no other call is either |
| Router.LateBinding | easyrpc/server/router.hpp:118-190 | whichever queued call executes next: it runs the handler its name is bound to then, exactly if the name was not unbound since it was routed; otherwise its node is gone |
| Router.RegistriesAreIndependent | easyrpc/server/router.hpp:369-395 | binding and unbinding in one registry changes nothing in the other |
| Router.RouterTables.Bind | easyrpc/server/router.hpp:369-374 | assigns into the node of the name, or creates one |
| Router.RouterTables.BindRaw | easyrpc/server/router.hpp:383-388 | the same in the raw registry |
| Router.RouterTables.Unbind | easyrpc/server/router.hpp:118-121 | destroys the node of the name, if any |
| Router.RouterTables.UnbindRaw | easyrpc/server/router.hpp:145-148 | the same in the raw registry |
| Router.RouterTables.Route | easyrpc/server/router.hpp:160-190 | true exactly if the name is in the registry of the mode; appends the call with the node found unless the pool is stopped |
| ScopeGuards.RunsOnceUnlessDismissedLast | easyrpc/base/scope_guard.hpp:17-48 | over any moves and dismissals the function runs exactly once, unless it was dismissed after the last move |
| ScopeGuards.ScopeGuard.Move | easyrpc/base/scope_guard.hpp:28-32 | the new guard is armed and the old one dismissed |
| ATimers.ATimer.Complete | easyrpc/base/atimer.hpp:26-32 | the wait is over and its handler is queued, beyond the reach of stop |
| ATimers.ATimer.Handle | easyrpc/base/atimer.hpp:27-43 | a queued handler runs all callbacks bound by now in order, and arms the timer again, with the duration it captured, unless single-shot |
| Session.FiringIsOneDisconnect | easyrpc/base/atimer.hpp:34-37 | any positive number of identical disconnect callbacks has the effect of one |
| Session.SessionDiscipline | easyrpc/client/rpc_session.hpp:112-172 | over every run of calls and handlers: closed after each call whose connect succeeded, no wait left running, one callback per call that came to read, every completed wait handled once or still queued, a handler does one disconnect |
| Session.CallReturnsIff | easyrpc/client/rpc_session.hpp:56-151 | for every session, network and schedule of the timer thread: a call returns the body of the response exactly if it connects, may and does send all of its request, a whole response comes, and no handler closes the socket before the request is out or the response in; it throws otherwise |
| Session.DeadlineEndsCallIff | easyrpc/client/rpc_session.hpp:153-163 | when the handler of its own deadline runs while a served call reads, the call returns the response exactly if all of it had arrived, throws otherwise, and the socket is closed either way |
| Session.CallSends | easyrpc/client/rpc_session.hpp:78-110 | all of a frame, a beginning, or nothing is added to what was sent, for every network |
| Session.StaleHandlerIff | easyrpc/client/rpc_session.hpp:153-172 | a served call within its deadline returns its response under every schedule of the timer thread if and only if no earlier handler is queued |
| Session.StaleHandlerBreaksNextCall | easyrpc/client/rpc_session.hpp:112-172 | a call whose deadline completes after its response is in succeeds, and its handler can make the next call fail |
| Session.CallIsExchange | easyrpc/client/rpc_session.hpp:56-60 | against a server, an undisturbed call of a session returns what the end-to-end model returns |
| Session.RpcSession.Call | easyrpc/client/rpc_session.hpp:56-60 | write, then read: result and state on every exit |
| Session.RpcSession.Write | easyrpc/client/rpc_session.hpp:78-110 | puts exactly the frame on the socket, or throws, with a beginning of the frame sent at most |
| Session.RpcSession.ReadFrame | easyrpc/client/rpc_session.hpp:121-151 | header, check and body read together decode the response |
| Session.RpcSession.StartTimer | easyrpc/client/rpc_session.hpp:153-163 | with a timeout, binds one more callback and starts a wait of exactly the configured time |
| Session.RpcSession.Read | easyrpc/client/rpc_session.hpp:112-119 | binds one more callback with a timeout, gives what arrives before a handler or the peer ends the stream, and stops the wait, but no queued handler, on every exit |
| Session.RpcSession.RunHandlers | easyrpc/base/atimer.hpp:27-43 | queued handlers run every bound callback, each with the effect of one disconnect |
| Session.Client.Call | easyrpc/client/client.hpp:60-102 | connect, call and disconnect by guard: result and state on every exit |
| ServerInvariants.StepInv | easyrpc/server/connection.hpp:27-163 | every interleaved step keeps: owners exactly the existing ones, requests decoded from their own connection's bytes, phases, and at most the one reply written |
| ServerInvariants.ReachableInv | easyrpc/server/connection.hpp:27-163 | so every reachable state of the server satisfies it |
| ServerTheorems.ConnectionSafety | easyrpc/server/connection.hpp:67-134 | a connection is routed at most once; read handlers that end without routing leave it closed; nothing is written before routing |
| ServerTheorems.NeverRoutedAfterClose | easyrpc/server/connection.hpp:75-131 | a closed connection is never reopened, routed or written to |
| ServerTheorems.UnattendedIsClosed | easyrpc/server/connection.hpp:27-31 | with timeout 0, a connection with no read, no handler and no closure of its call in add_task, in the queue or in a worker (until after its notification) is closed; otherwise exactly its own timer still owns it |
| ServerTheorems.AnsweredStaysOpenIff | easyrpc/server/connection.hpp:143-163 | a connection that is open when its task ends stays open in every continuation if and only if the whole reply went out, the timeout is not 0 and its deadline had not completed |
| ServerTheorems.BothOutcomesOccur | easyrpc/server/connection.hpp:102-163 | for every answered request and timeout, a reachable state with each of the two outcomes |
| ServerTheorems.DeadlineGuardsReads | easyrpc/server/connection.hpp:67-163 | with a timeout an open connection that was not routed always has a running or just expired deadline; routing cancels it |
| ServerTheorems.DeadlineFiresOnce | easyrpc/server/connection.hpp:143-154 | in every run the deadline fires at most once on each connection, and never with timeout 0 |
| ServerTheorems.HeadIsReadOnIff | easyrpc/server/connection.hpp:72-92 | the second read is posted exactly on an open socket after a header whose length is above 0 and below 8388608; otherwise the connection is closed and its deadline stopped |
| ServerTheorems.BodyIsRoutedIff | easyrpc/server/connection.hpp:108-133 | a request is routed exactly from an open socket and for a bound name, as the two pieces that the bytes hold; otherwise nothing is routed and the connection is closed |
| ServerTheorems.HandlerReturnsWithCall | easyrpc/server/connection.hpp:124-133 | a body handler returns exactly when its call of add_task has, so at rest only a call asleep on a full queue keeps one |
| ServerTheorems.OnlyTheTaskCloses | easyrpc/server/connection.hpp:107-154 | while a body handler is inside add_task, no step but the end of its own task or its return closes the connection |
| ServerAnswers.AnswerIsFinal | easyrpc/server/router.hpp:26-40 | the end of its task decides what is written on a connection in every continuation: the whole reply if and only if it was open then and the network took all of it |
| ServerAnswers.OpenUntilAnswered | easyrpc/server/connection.hpp:67-134 | with timeout 0 every routed connection is open as long as its call is on its way and unfinished |
| ServerAnswers.FinishedCallsAreAnswered | easyrpc/server/connection.hpp:44-54 | in every run in which the network takes it, each finished call has all of its reply written; with a timeout, if its body came in before the deadline completed |
| ServerAnswers.AnswerIsCertainIff | easyrpc/server/connection.hpp:143-163 | an unfinished call on an open connection is certain to have its reply written, provided the network takes it, if and only if no expiry is queued; with timeout 0 there is never one |
| ServerAnswers.AnswersOccur | easyrpc/server/connection.hpp:67-134 | for every timeout and every request with a reply, a reachable state in which the reply is written |
| ServerAnswers.EndToEndIsolation | easyrpc/server/router.hpp:26-40 | with any number of connections and workers, what is written on a connection is at most once the reply its own bytes get from a server that serves nobody else, or a beginning of it; for a finished call, exactly what the network took in the one step that ended its task, if the connection was open then, hence all of it with a network that takes it and no late body |
| ServerAnswers.EveryRoutedCallIsAnswered | easyrpc/base/thread_pool.hpp:119-149 | when a running pool is at rest, the task of every routed connection has ended in one step of the run, with its reply written as the network took it if the connection was open then; with timeout 0, or a body in before the deadline, and a network that takes it, all of it |
| ServerAnswers.EveryStartWasRouted | easyrpc/server/router.hpp:160-190 | every started task was routed for one connection, once, and is the dispatch of what that connection received |
| ServerAnswers.RemoteCallAmongMany | easyrpc/client/client.hpp:72-81 | with any number of connections and workers, once the threads are at rest: a connection that delivered the framed call of a bound function had it invoked exactly once on the caller's arguments, by a task started once; its caller reads the value if and only if the connection was open when the task ended and the network took the reply, so always with timeout 0 or a body in before the deadline and such a network, and else the end of the stream |
| ServerAnswers.RawCallAmongMany | easyrpc/client/client.hpp:93-102 | the same for a raw call: one invocation on the caller's bytes, and the caller reads the very bytes returned, under the same condition |
| ConnectionClass.Connection.StartTimer | easyrpc/server/connection.hpp:143-154 | with a timeout, binds the one disconnect and starts a single-shot wait of exactly the configured time |
| ConnectionClass.Connection.HeadHandler | easyrpc/server/connection.hpp:71-105 | the handler with its guard is the connection operation of the server system on every exit; it reads on exactly on an open socket after a length above 0 and below 8388608, and otherwise leaves it closed with its timer stopped |
| ConnectionClass.Connection.BodyHandler | easyrpc/server/connection.hpp:107-133 | likewise, and route is given the two pieces of the buffer |
| ConnectionClass.Connection.Write | easyrpc/server/connection.hpp:44-54 | the whole frame is out, or the call throws, with a beginning of the frame out at most |
| ConnectionClass.Connection.EndTask | easyrpc/server/router.hpp:26-40 | writes the result or disconnects; the socket stays open exactly if a result within the limit went out in full |
| ConnectionClass.Connection.StopTimer | easyrpc/server/connection.hpp:156-163 | cancels a pending wait but not a queued handler |
| ConnectionClass.Connection.TimerHandler | easyrpc/server/connection.hpp:150-151 | the queued handler disconnects |
| StringUtil.TokensUnique | easyrpc/base/string_util.hpp:67-86 | any cut into nonempty delimiter-free tokens separated by delimiters is the result of split |
| StringUtil.TokensCut | easyrpc/base/string_util.hpp:67-86 | and the result of split is such a cut |
| StringUtil.StrTok | easyrpc/base/string_util.hpp:67-83 | one strtok_r call returns the next run and continues behind it, changing only a delimiter to NUL |
| StringUtil.Split | easyrpc/base/string_util.hpp:67-86 | returns the runs in order, changing its buffer only by delimiters turned to NUL |
| Address.ListenRoundTripIff | easyrpc/server/server.hpp:25-59 | host:port stores exactly that host and port if and only if the host is nonempty, without colon and NUL, and not localhost |
| Address.ConnectRoundTripIff | easyrpc/client/client.hpp:23-31 | the client resolves exactly the host and port of host:port if and only if both are nonempty and without colon and NUL |
| Address.ListenAcceptsIff | easyrpc/server/server.hpp:25-52 | an address with a colon is accepted exactly with two nonempty pieces of which the second starts with a number, and stores the first or the loopback address with that number modulo 2^16 |
| Address.ThreePieces | easyrpc/server/server.hpp:30-33 | host:port:rest is refused by the server and by the client |
| Address.PortWraps | easyrpc/server/server.hpp:49-52 | a port given as a number is stored modulo 2^16, -1 as 65535, and one of 2^31 or more is refused |
| Address.StoIOfNumber | easyrpc/server/server.hpp:49-52 | blanks, one sign, digits and any rest give the signed number within the range of int, and are refused out of it |
| Address.EqualsIgnoreCaseIff | easyrpc/base/string_util.hpp:62-65 | two strings are equal exactly if they are letter by letter, up to case |
| Address.ListenSpecialCases | easyrpc/server/server.hpp:34-41 | localhost in any case stores the loopback address, a port alone the any-address |
| Address.StoredHostIsFree | easyrpc/server/server.hpp:27-38 | an accepted address with a colon never stores a host with a colon or a NUL |
| Address.ServerAddress.ListenAddress | easyrpc/server/server.hpp:25-42 | for every string, on its own buffer, stores the parsed endpoint or throws and stores nothing |
| Placement.HandedIs | easyrpc/server/io_service_pool.hpp:51-60 | after k requests service j of n was handed out k/n times, plus one if j < k mod n |
| Placement.PoolIsBalanced | easyrpc/server/io_service_pool.hpp:51-60 | in every run of a pool any two services differ by at most one, the acceptor's request included |
| Placement.IoServicePool.Init | easyrpc/server/io_service_pool.hpp:20-34 | as many services as asked for, or the exception at 0 |
| Placement.IoServicePool.GetIoService | easyrpc/server/io_service_pool.hpp:51-60 | the i-th request gets service i mod n |
| Placement.Server.Accept | easyrpc/server/server.hpp:140-152 | connection i is placed on service (i + 1) mod n, after the acceptor on service 0 |
| FileUtil.SameDirectoryIff | easyrpc/base/file_util.hpp:123-131 | two paths name the same directory exactly if they have the same runs without slash up to the first NUL, and both or neither start with a slash |
| FileUtil.FileSystem.Mkdir | easyrpc/base/file_util.hpp:133-176 | true exactly if the path exists or all its missing prefixes may be created, and then it and its cuts at every slash and backslash exist; only prefixes are created, each after its parent, nothing is removed, parents exist even after a failure |
| FileUtil.MkdirTwice | easyrpc/base/file_util.hpp:133-176 | a second call after a successful one succeeds without change |

## Left out

- Sockets, resolver, acceptor and asio scheduling: a read completes with exactly the requested bytes or
  an error, and handlers of one connection run one at a time; the network is a parameter.
- The serializers behind easypack: an abstract codec, with a round-trip hypothesis where it is needed.
- Logging, path and executable-name queries, Windows branches, trimming and case helpers, the start and
  stop of io_service threads, `is_bind`: nothing hard to state about them.
- Compile-time type computation: parameter types are a sequence of type values.
- The `add_task` overload with an object pointer and bound member functions: a member function is a
  function that already knows its object.
- Headers whose two lengths sum to 2^32 or more: one-shot decoding and the reader refuse them as the code
  does or give them an outcome of their own, and the server system assumes they do not occur.
- Requests of 2^32 bytes or more, whose header wraps: nothing is claimed about what they reach.
- Pointers into header temporaries and into empty vectors: frames and buffers are values and slices.
- Tasks that throw anything but `std::exception`, or that do not return: they end the process or the
  worker; draining assumes they do not occur.
- The client mutex: calls of one client are sequential, which is what the mutex enforces.
- ThreadPoolClass.ThreadPool.InitThreadNum: not on a pool that is being stopped, where the source would
  change the vector of threads while it is walked, and not on a stopped one, whose new threads nobody joins.
- The joins, the notifications and the sleeping of threads are not executable code of the class
  ThreadPool; they are steps of the transition system, taken by its ghost method.
- FileUtil.FileSystem.Mkdir: `.` and `..` are names like others, and there are no links.
- A timer handler that runs inside `connect` of the client: it runs before or after.
- The copy of a task's closure in add_task's own frame: the body handler that calls it owns the connection
  for longer.
- A pool step that discards queued calls in the registry model: after the stop flag its calls may still
  execute or stay queued for ever.
- Network order or big-endian layouts: both sides copy the header structs as they lie in memory.
