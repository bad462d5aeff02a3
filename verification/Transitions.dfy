/** The kernel as a transition system. Each critical section and each whole exception handler
  * is one step; every task has a program counter that says which step its thread code takes next.
  * A step also emits the observations from which the ledger is kept. */
module Transitions {
  import opened Base
  import opened Selection
  import opened CoreState

  datatype Pc =
    // any task
    | User                                  // its own code
    | Enter(call: Call)                     // inside a privileged call, before its critical section
    | Resume(call: Call)                    // a privileged call that blocked, after its PendSV
    | Return(result: nat)                   // a privileged call about to return
    | Wake(waiter: Tid, next: Pc)           // popped a waiter, about to call scheduler_wake_task(waiter, 0)
    // the worker, kernel_task_fn
    | Start | Fetch | Empty
    | Dispatch(item: Item)
    | Complete(caller: Tid, result: nat)
    | Sleep(caller: Tid, ticks: nat)

  datatype Obs =
    | Issued(task: Tid, call: Call)
    | Took(task: Tid, sem: Handle)
    | Gave(sem: Handle)
    | Owned(task: Tid, mutex: Handle)
    | Unlocked(task: Tid, mutex: Handle)
    | Pushed(task: Tid, queue: Handle, data: Data)
    | Popped(task: Tid, queue: Handle, data: Data)
    | Refused(task: Tid)
    | Expired(task: Tid)
    | Stored(task: Tid, result: nat)        // written into the saved R0
    | Returned(task: Tid, result: nat)      // returned by a privileged call
    | Posted(item: Item)
    | Fetched(item: Item)
    | Made(task: Tid, call: Call, handle: Handle)
    | Done(task: Tid, result: nat)          // a call was carried out that acquires and makes nothing

  datatype Event =
    | SysTick
    | PendSV
    | GiveFromIsr(sem: Handle)
    | Svc(call: Call)                       // the running task traps
    | Invoke(call: Call)                    // the running task enters a privileged call
    | Continue(made: Option<Handle>)        // the running task takes its next step; `made` is what k_obj_alloc issues in a creation

  /** `worker` runs kernel_task_fn; `idle` never makes a call. */
  datatype Machine = Machine(core: Core, pc: seq<Pc>, worker: Tid, idle: Tid)

  predicate PcInPool(p: Pc, n: nat) {
    match p
    case Wake(w, next) => w < n && PcInPool(next, n)
    case Dispatch(item) => item.caller < n
    case Complete(t, _) => t < n
    case Sleep(t, _) => t < n
    case _ => true
  }

  /** Every index that a step follows is in range. */
  ghost predicate Shaped(m: Machine) {
    && |m.pc| == |m.core.task|
    && m.worker < |m.pc|
    && InPool(m.core)
    && CursorsInLists(m.core.order, m.core.cursor)
    && (forall p, t :: 0 <= p < |m.core.order| && t in m.core.order[p] ==> t < |m.core.task|)
    && (forall t :: 0 <= t < |m.pc| ==> PcInPool(m.pc[t], |m.core.task|))
  }

  datatype Out = Out(m: Machine, obs: seq<Obs>)

  /** Where the acting thread goes when its caller's call ends with `result`. */
  function Finish(m: Machine, actor: Tid, caller: Tid, result: nat): Pc {
    if actor == m.worker then Complete(caller, result) else Return(result)
  }

  function WakeFirst(popped: Option<Tid>, next: Pc): Pc {
    if popped.Some? then Wake(popped.value, next) else next
  }

  /** The thread of `actor` made one attempt of `call` for `caller`; `won` is what it observes on success. */
  function Settle(m: Machine, actor: Tid, caller: Tid, call: Call, a: Attempt, won: Obs): Out
    requires actor < |m.pc|
  {
    match a
    case Got(core, popped) => Out(m.(core := core, pc := m.pc[actor := WakeFirst(popped, Finish(m, actor, caller, 0))]), [won])
    case Denied => Out(m.(pc := m.pc[actor := Finish(m, actor, caller, FAIL)]), [Refused(caller)])
    case Blocked(core) => Out(m.(core := core, pc := m.pc[actor := if actor == m.worker then Fetch else Resume(call)]), [])
  }

  function Fail(m: Machine, actor: Tid, caller: Tid): Out
    requires actor < |m.pc|
  {
    Out(m.(pc := m.pc[actor := Finish(m, actor, caller, FAIL)]), [Refused(caller)])
  }

  function Plain(m: Machine, actor: Tid, caller: Tid, result: nat): Out
    requires actor < |m.pc|
  {
    Out(m.(pc := m.pc[actor := Finish(m, actor, caller, result)]), [Done(caller, result)])
  }

  /** sem_give, from a thread: hand the unit to a waiter or count it. */
  function ServePost(m: Machine, actor: Tid, caller: Tid, h: Handle): Out
    requires Shaped(m) && actor < |m.pc| && h in m.core.sem
  {
    var (core, w) := SemGive(m.core, h);
    Out(m.(core := core, pc := m.pc[actor := WakeFirst(w, Finish(m, actor, caller, 0))]),
        [Done(caller, 0)] + if w.Some? then [Gave(h), Took(w.value, h)] else [Gave(h)])
  }

  /** Unlock: only the owner's request has an effect. */
  function ServeUnlock(m: Machine, actor: Tid, caller: Tid, h: Handle): Out
    requires Shaped(m) && actor < |m.pc| && h in m.core.owner
  {
    var (core, w) := MutexRelease(m.core, h, caller);
    Out(m.(core := core, pc := m.pc[actor := WakeFirst(w, Finish(m, actor, caller, 0))]),
        [Done(caller, 0)] +
        if m.core.owner[h] != Some(caller) then []
        else if w.Some? then [Unlocked(caller, h), Owned(w.value, h)]
        else [Unlocked(caller, h)])
  }

  function ServeCreate(m: Machine, actor: Tid, caller: Tid, call: Call, made: Option<Handle>): Out
    requires actor < |m.pc|
  {
    match made
    case None => Plain(m, actor, caller, FAIL)
    case Some(h) =>
      Out(m.(core := Create(m.core, call, h), pc := m.pc[actor := Finish(m, actor, caller, h)]), [Made(caller, call, h)])
  }

  /** A delay: the worker first stores the result 0 and clears SVC_BLOCKED, then puts the caller to sleep;
    * a privileged task puts itself to sleep unless the delay is zero. */
  function ServeDelay(m: Machine, actor: Tid, caller: Tid, ticks: nat): Out
    requires actor < |m.pc| && caller < |m.core.task|
  {
    if actor == m.worker then
      Out(m.(core := m.core.Set(caller, m.core.task[caller].(savedR0 := 0, svcBlocked := false)),
             pc := m.pc[actor := Sleep(caller, ticks)]),
          [Done(caller, 0), Stored(caller, 0)])
    else if ticks == 0 then Plain(m, actor, caller, 0)
    else Out(m.(core := SleepTask(m.core, caller, ticks), pc := m.pc[actor := Return(0)]), [Done(caller, 0)])
  }

  /** The worker's dispatch of `call` for `caller`, or a task's own privileged call (actor == caller).
    * The worker never waits on a queue: it passes timeout 0. An invalid handle makes every request fail,
    * except that the privileged give and unlock return nothing. */
  function Serve(m: Machine, actor: Tid, caller: Tid, call: Call, made: Option<Handle>): Out
    requires Shaped(m) && actor < |m.pc| && caller < |m.pc|
  {
    var self := actor != m.worker;
    match call
    case Delay(n) => ServeDelay(m, actor, caller, n)
    case QueueSend(q, data, timeout) =>
      if q !in m.core.queue then Fail(m, actor, caller)
      else Settle(m, actor, caller, call, SendAttempt(m.core, q, data, caller, if self then timeout else 0, self), Pushed(caller, q, data))
    case QueueRecv(q, timeout) =>
      if q !in m.core.queue then Fail(m, actor, caller)
      else Settle(m, actor, caller, call, ReceiveAttempt(m.core, q, caller, if self then timeout else 0, self),
                  Popped(caller, q, if m.core.queue[q].items != [] then m.core.queue[q].items[0] else []))
    case SemWait(h, timeout) =>
      if h !in m.core.sem then Fail(m, actor, caller)
      else Settle(m, actor, caller, call, SemAcquire(m.core, h, caller, timeout, self), Took(caller, h))
    case MutexLock(h, timeout) =>
      if h !in m.core.owner then Fail(m, actor, caller)
      else Settle(m, actor, caller, call, MutexAcquire(m.core, h, caller, timeout, self), Owned(caller, h))
    case SemPost(h) =>
      if h in m.core.sem then ServePost(m, actor, caller, h) else Plain(m, actor, caller, if self then 0 else FAIL)
    case MutexUnlock(h) =>
      if h in m.core.owner then ServeUnlock(m, actor, caller, h) else Plain(m, actor, caller, if self then 0 else FAIL)
    case UartWrite => Plain(m, actor, caller, 0)
    case Unknown => Plain(m, actor, caller, FAIL)
    case _ => ServeCreate(m, actor, caller, call, made)
  }

  /** The second attempt of a queue call: it may not wait again. */
  function Retry(call: Call): Call {
    match call
    case QueueSend(q, data, _) => QueueSend(q, data, 0)
    case QueueRecv(q, _) => QueueRecv(q, 0)
    case _ => call
  }

  /** Back from a blocking privileged call. Semaphores and mutexes were handed over unless TIMED_OUT is set;
    * a queue call tries once more, without waiting. */
  function Reenter(m: Machine, t: Tid, call: Call): Out
    requires t < |m.pc| && t < |m.core.task|
  {
    var k := m.core.task[t];
    match call
    case QueueSend(_, _, _) => Out(m.(pc := m.pc[t := if k.timedOut then Return(FAIL) else Enter(Retry(call))]), [])
    case QueueRecv(_, _) => Out(m.(pc := m.pc[t := if k.timedOut then Return(FAIL) else Enter(Retry(call))]), [])
    case _ =>
      Out(m.(core := m.core.Set(t, k.(timedOut := false)), pc := m.pc[t := Return(if k.timedOut then FAIL else 0)]), [])
  }

  /** The next step of the running thread `t`, which is inside the kernel. */
  function Advance(m: Machine, t: Tid, made: Option<Handle>): Out
    requires Shaped(m) && t < |m.pc|
  {
    match m.pc[t]
    case User => Out(m, [])
    case Enter(call) => Serve(m, t, t, call, made)
    case Resume(call) => Reenter(m, t, call)
    case Return(r) => Out(m.(pc := m.pc[t := User]), [Returned(t, r)])
    case Wake(w, next) => Out(m.(core := WakeTask(m.core, w, 0), pc := m.pc[t := next]),
                              if m.core.task[w].svcBlocked then [Stored(w, 0)] else [])
    case Start => Out(m.(core := m.core.(kernelTcb := Some(t)), pc := m.pc[t := Fetch]), [])
    case Fetch =>
      if m.core.ring == [] then Out(m.(pc := m.pc[t := Empty]), [])
      else Out(m.(core := m.core.(ring := m.core.ring[1..]), pc := m.pc[t := Dispatch(m.core.ring[0])]), [Fetched(m.core.ring[0])])
    case Empty => Out(m.(core := m.core.Set(t, m.core.task[t].(state := Waiting)), pc := m.pc[t := Fetch]), [])
    case Dispatch(item) => Serve(m, t, item.caller, item.call, made)
    case Complete(caller, r) => Out(m.(core := WakeTask(m.core, caller, r), pc := m.pc[t := Fetch]),
                                    if m.core.task[caller].svcBlocked then [Stored(caller, r)] else [])
    case Sleep(caller, n) => Out(m.(core := SleepTask(m.core, caller, n), pc := m.pc[t := Fetch]), [])
  }

  /** What a tick reports: each expired waiter, and the -1 stored for one that came in by SVC. */
  function TickObs(c: Core, n: nat): seq<Obs>
    requires n <= |c.task|
  {
    if n == 0 then []
    else
      var t := n - 1;
      TickObs(c, t)
      + if t !in Expiring(c) then []
        else if c.task[t].svcBlocked then [Expired(t), Stored(t, FAIL)]
        else [Expired(t)]
  }

  /** sem_give from an interrupt handler: pop and wake are one step, no thread runs in between. */
  function IsrGive(m: Machine, h: Handle): Out
    requires Shaped(m) && h in m.core.sem
  {
    var (core, w) := SemGive(m.core, h);
    if w.None? then Out(m.(core := core), [Gave(h)])
    else
      assert w.value < |core.task| by { assert w.value in m.core.waiters[SemWaiters(h)]; }
      Out(m.(core := WakeTask(core, w.value, 0)),
          [Gave(h), Took(w.value, h)] + if core.task[w.value].svcBlocked then [Stored(w.value, 0)] else [])
  }

  function Trap(m: Machine, call: Call): Out
    requires Shaped(m) && m.core.current.Some?
  {
    var t := m.core.current.value;
    var (core, ok) := SvcEntry(m.core, call);
    Out(m.(core := core), [Issued(t, call)] + if ok then [Posted(Item(call, t))] else [Stored(t, FAIL)])
  }

  // ---- Which events can happen ----

  predicate CurrentRuns(m: Machine)
    requires |m.pc| == |m.core.task| && m.core.IsTask(m.core.current)
  {
    m.core.current.Some? && m.core.task[m.core.current.value].state == Running
  }

  /** `a` is the running thread. */
  predicate Executes(m: Machine, a: Tid) {
    a < |m.pc| == |m.core.task| && m.core.current == Some(a) && m.core.task[a].state == Running
  }

  /** Thread code runs only while its task is RUNNING: a blocked task has a PendSV pending, which is taken first.
    * The idle task makes no calls and the worker only runs kernel_task_fn. */
  ghost predicate Enabled(m: Machine, e: Event)
    requires Shaped(m)
  {
    match e
    case SysTick => true
    case PendSV => true
    case GiveFromIsr(h) => h in m.core.sem
    case Svc(_) => CurrentRuns(m) && Calls(m, m.core.current.value)
    case Invoke(call) => CurrentRuns(m) && Calls(m, m.core.current.value) && !call.Unknown?
    case Continue(made) => CurrentRuns(m) && MayServe(m, m.core.current.value, made)
  }

  /** What is assumed of a step that serves `call`: a handle that is issued is not in use; a queue is created with sizes
    * for which it gets a whole buffer; and the data of a push are the item-size bytes that the code copies. */
  predicate Allowed(c: Core, call: Call, made: Option<Handle>) {
    && (made.Some? ==> FreshHandle(c, made.value) && (call.QueueCreate? ==> Buildable(call.itemSize, call.capacity)))
    && (call.QueueSend? && call.queue in c.queue ==> |call.data| == c.queue[call.queue].itemSize)
  }

  predicate MayServe(m: Machine, t: Tid, made: Option<Handle>)
    requires t < |m.pc|
  {
    match m.pc[t]
    case Enter(call) => Allowed(m.core, call, made)
    case Dispatch(item) => Allowed(m.core, item.call, made)
    case _ => true
  }

  predicate Calls(m: Machine, t: Tid)
    requires t < |m.pc|
  {
    t != m.worker && t != m.idle && m.pc[t] == User
  }

  function Step(m: Machine, e: Event): Out
    requires Shaped(m) && Enabled(m, e)
  {
    match e
    case SysTick => Out(m.(core := Tick(m.core)), TickObs(m.core, |m.core.task|))
    case PendSV => Out(m.(core := SwitchContext(m.core)), [])
    case GiveFromIsr(h) => IsrGive(m, h)
    case Svc(call) => Trap(m, call)
    case Invoke(call) =>
      var t := m.core.current.value;
      Out(m.(pc := m.pc[t := Enter(call)]), [Issued(t, call)])
    case Continue(made) => Advance(m, m.core.current.value, made)
  }
}
