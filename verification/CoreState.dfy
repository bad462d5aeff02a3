/** The kernel's shared state as a value, and each critical section as a function on it.
  * Wait lists, priority lists and the work ring appear as the sequences that the pointer
  * structures of class `Kernel` represent. */
module CoreState {
  import opened Base
  import opened Selection

  type Handle = nat
  type Data = seq<bv8>

  datatype TaskState = Ready | Running | Waiting | Suspended

  /** The wait lists threaded through TCB.wait_next, one per semaphore and mutex, two per queue. */
  datatype WaitList = SemWaiters(sem: Handle) | MutexWaiters(mutex: Handle) | Senders(queue: Handle) | Receivers(queue: Handle)

  datatype Call =
    | Delay(ticks: nat)
    | QueueSend(queue: Handle, data: Data, timeout: nat)
    | QueueRecv(queue: Handle, timeout: nat)
    | SemPost(sem: Handle)
    | SemWait(sem: Handle, timeout: nat)
    | MutexLock(mutex: Handle, timeout: nat)
    | MutexUnlock(mutex: Handle)
    | UartWrite
    | QueueCreate(itemSize: nat, capacity: nat)
    | SemCreate(initial: int)
    | MutexCreate
    | Unknown

  datatype Item = Item(call: Call, caller: Tid)

  /** The fields of a TCB that the kernel decides on. `savedR0` is stack_pointer[8]. */
  datatype Task = Task(
    state: TaskState,
    prio: nat,
    svcBlocked: bool,
    timedOut: bool,
    delay: nat,
    blockingOn: Option<WaitList>,
    savedR0: nat)

  datatype Queue = Queue(itemSize: nat, capacity: nat, items: seq<Data>)

  /** The buffer has room for all items, and every item has the item size. */
  predicate QueueOk(q: Queue) {
    Buildable(q.itemSize, q.capacity) && |q.items| <= q.capacity && forall x :: x in q.items ==> |x| == q.itemSize
  }

  function ListOf(waiters: map<WaitList, seq<Tid>>, l: WaitList): seq<Tid> {
    if l in waiters then waiters[l] else []
  }

  datatype Core = Core(
    task: seq<Task>,
    current: Option<Tid>,
    order: seq<seq<Tid>>,
    cursor: seq<Option<Tid>>,
    ring: seq<Item>,
    kernelTcb: Option<Tid>,
    sem: map<Handle, int>,
    owner: map<Handle, Option<Tid>>,
    queue: map<Handle, Queue>,
    waiters: map<WaitList, seq<Tid>>)
  {
    function On(l: WaitList): seq<Tid> {
      ListOf(waiters, l)
    }

    function Set(t: Tid, k: Task): Core
      requires t < |task|
    {
      this.(task := task[t := k])
    }

    predicate IsTask(t: Option<Tid>) {
      t.Some? ==> t.value < |task|
    }
  }

  /** All task indices stored anywhere are indices of the pool. */
  ghost predicate InPool(c: Core) {
    && c.IsTask(c.current)
    && c.IsTask(c.kernelTcb)
    && (forall i :: 0 <= i < |c.ring| ==> c.ring[i].caller < |c.task|)
    && (forall l, t :: l in c.waiters && t in c.waiters[l] ==> t < |c.task|)
  }

  // ---- Scheduler (kernel/sched.c) ----

  function Woken(k: Task, result: nat): Task {
    (if k.svcBlocked then k.(savedR0 := result, svcBlocked := false) else k).(state := Ready)
  }

  /** scheduler_wake_task */
  function WakeTask(c: Core, t: Tid, result: nat): Core
    requires t < |c.task|
  {
    c.Set(t, Woken(c.task[t], result))
  }

  /** scheduler_sleep */
  function SleepTask(c: Core, t: Tid, ticks: nat): Core
    requires t < |c.task|
  {
    c.Set(t, c.task[t].(delay := ticks, state := Waiting))
  }

  /** A sleeping task, aged by the first pass of scheduler_tick. */
  predicate Sleeps(k: Task) {
    k.state == Waiting && k.delay > 0 && k.blockingOn == None
  }

  /** A task in a timed wait, aged by the second pass, sync_tick_all. */
  predicate WaitsTimed(k: Task) {
    k.state == Waiting && k.delay > 0 && k.blockingOn.Some?
  }

  predicate Expires(k: Task) {
    WaitsTimed(k) && k.delay == 1
  }

  /** A task after one tick. */
  function Aged(k: Task): Task {
    if Sleeps(k) then
      if k.delay == 1 then k.(delay := 0, state := Ready) else k.(delay := k.delay - 1)
    else if Expires(k) then
      Woken(k.(delay := 0, blockingOn := None, timedOut := true), FAIL)
    else if WaitsTimed(k) then k.(delay := k.delay - 1)
    else k
  }

  /** Only tasks on the list of their priority are aged. */
  predicate Enlisted(c: Core, t: Tid)
    requires t < |c.task|
  {
    c.task[t].prio < |c.order| && t in c.order[c.task[t].prio]
  }

  function Expiring(c: Core): set<Tid> {
    set t | 0 <= t < |c.task| && Enlisted(c, t) && Expires(c.task[t])
  }

  lemma ExpiringInPool(c: Core)
    ensures forall t :: t in Expiring(c) ==> t < |c.task|
  {
  }

  /** scheduler_tick with sync_tick_all: every listed task ages by one tick and the
    * timed-out waiters leave their lists, whose other members keep their order. */
  function Tick(c: Core): Core {
    var gone := Expiring(c);
    c.(task := seq(|c.task|, t requires 0 <= t < |c.task| => if Enlisted(c, t) then Aged(c.task[t]) else c.task[t]),
       waiters := map l | l in c.waiters :: Without(c.waiters[l], gone))
  }

  /** The set of tasks that scheduler_get_next may choose. */
  function ReadySet(task: seq<Task>): set<Tid> {
    set t | 0 <= t < |task| && task[t].state == Ready
  }

  function Preempted(k: Task): Task {
    if k.state == Running then k.(state := Ready) else k
  }

  /** The tasks after a RUNNING current task was made READY. */
  function PreemptedTasks(c: Core): (r: seq<Task>)
    requires c.IsTask(c.current)
    ensures |r| == |c.task|
  {
    if c.current.Some? then c.task[c.current.value := Preempted(c.task[c.current.value])] else c.task
  }

  /** port_switch_context: the running task becomes READY, the next one is chosen and runs.
    * Without any READY task the current one is resumed, whatever its state. */
  function SwitchContext(c: Core): Core
    requires c.IsTask(c.current)
    requires CursorsInLists(c.order, c.cursor)
    requires forall p, t :: 0 <= p < |c.order| && t in c.order[p] ==> t < |c.task|
  {
    var task := PreemptedTasks(c);
    match Select(c.order, c.cursor, ReadySet(task), 0)
    case Nobody =>
      if c.current.Some? then c.(task := task[c.current.value := task[c.current.value].(state := Running)])
      else c
    case Chosen(n, cursor) =>
      assert n < |task| by { var q := SelectIsStrictPriority(c.order, c.cursor, ReadySet(task), 0); }
      c.(task := task[n := task[n].(state := Running)], current := Some(n), cursor := cursor)
  }

  // ---- Work ring and SVC entry (kernel/kwork.c, arch/arm/cortex-m4/syscall.c) ----

  function Roused(k: Task): Task {
    if k.state == Waiting then k.(state := Ready) else k
  }

  /** kwork_push: false when the ring is full. */
  function KworkPush(c: Core, item: Item): (Core, bool)
    requires c.IsTask(c.kernelTcb)
  {
    if |c.ring| == KWORK_QUEUE_SIZE - 1 then (c, false)
    else
      var c1 := c.(ring := c.ring + [item]);
      (if c.kernelTcb.Some? then c1.Set(c.kernelTcb.value, Roused(c.task[c.kernelTcb.value])) else c1, true)
  }

  /** svc_handler_c: false when the item was refused and the caller released with -1. */
  function SvcEntry(c: Core, call: Call): (Core, bool)
    requires c.current.Some? && c.IsTask(c.current) && c.IsTask(c.kernelTcb)
  {
    var t := c.current.value;
    var blocked := c.Set(t, c.task[t].(svcBlocked := true, state := Waiting));
    var (pushed, ok) := KworkPush(blocked, Item(call, t));
    if ok then (pushed, true)
    else (pushed.Set(t, pushed.task[t].(svcBlocked := false, state := Ready, savedR0 := FAIL)), false)
  }

  /** A trap queues one item and wakes a waiting worker, or, with 15 items queued, leaves everything as it was but for the
    * caller, which is READY with the result -1. */
  lemma TrapQueuesOrFails(c: Core, call: Call)
    requires c.current.Some? && c.IsTask(c.current) && c.IsTask(c.kernelTcb) && c.kernelTcb != c.current
    ensures var ((c', ok), t, k) := (SvcEntry(c, call), c.current.value, c.task[c.current.value]);
      && (ok <==> |c.ring| != 15)
      && (if ok then
            && c'.ring == c.ring + [Item(call, t)] && |c'.task| == |c.task|
            && c'.task[t] == k.(svcBlocked := true, state := Waiting)
            && (forall u :: 0 <= u < |c.task| && u != t && Some(u) != c.kernelTcb ==> c'.task[u] == c.task[u])
            && (c.kernelTcb.Some? ==>
                  var w := c.task[c.kernelTcb.value];
                  c'.task[c.kernelTcb.value] == if w.state == Waiting then w.(state := Ready) else w)
          else c' == c.(task := c.task[t := k.(svcBlocked := false, state := Ready, savedR0 := 0xFFFF_FFFF)]))
  {
  }

  // ---- Waiting (kernel/mutex.c, kernel/semaphore.c, kernel/queue.c) ----

  /** The outcome of one attempt: `Got` names a waiter that was popped and must still be woken. */
  datatype Attempt = Got(core: Core, popped: Option<Tid>) | Denied | Blocked(core: Core)

  function Parked(k: Task, l: WaitList, timeout: nat): Task {
    if timeout != WAIT_FOREVER then k.(delay := timeout, blockingOn := Some(l))
    else k.(delay := 0, blockingOn := None)
  }

  /** A task that blocks itself is also marked WAITING and loses a stale time-out mark;
    * a task blocked by the worker is WAITING already. */
  function Halted(k: Task, self: bool): Task {
    if self then k.(timedOut := false, state := Waiting) else k
  }

  /** Mutex and semaphore lists take new waiters at the front, queue lists at the back. */
  function Joined(s: seq<Tid>, l: WaitList, t: Tid): seq<Tid> {
    if l.SemWaiters? || l.MutexWaiters? then [t] + s else s + [t]
  }

  function Block(c: Core, t: Tid, l: WaitList, timeout: nat, self: bool): Core
    requires t < |c.task|
  {
    c.(task := c.task[t := Parked(Halted(c.task[t], self), l, timeout)],
       waiters := c.waiters[l := Joined(c.On(l), l, t)])
  }

  function Released(k: Task): Task {
    k.(delay := 0, blockingOn := None)
  }

  /** The head of a wait list leaves it, if there is one. */
  function PopWaiter(c: Core, l: WaitList): (r: (Core, Option<Tid>))
    requires InPool(c)
  {
    if c.On(l) == [] then (c, None)
    else
      var w := c.On(l)[0];
      assert w in c.waiters[l];
      (c.(task := c.task[w := Released(c.task[w])], waiters := c.waiters[l := c.On(l)[1..]]), Some(w))
  }

  // ---- Semaphores ----

  function SemAcquire(c: Core, h: Handle, t: Tid, timeout: nat, self: bool): Attempt
    requires h in c.sem && t < |c.task|
  {
    if c.sem[h] > 0 then Got(c.(sem := c.sem[h := c.sem[h] - 1]), None)
    else if timeout == 0 then Denied
    else Blocked(Block(c, t, SemWaiters(h), timeout, self))
  }

  function SemGive(c: Core, h: Handle): (Core, Option<Tid>)
    requires h in c.sem && InPool(c)
  {
    if c.On(SemWaiters(h)) != [] then PopWaiter(c, SemWaiters(h))
    else (c.(sem := c.sem[h := c.sem[h] + 1]), None)
  }

  // ---- Mutexes ----

  function MutexAcquire(c: Core, m: Handle, t: Tid, timeout: nat, self: bool): Attempt
    requires m in c.owner && t < |c.task|
  {
    if c.owner[m] == Some(t) then Got(c, None)
    else if c.owner[m] == None then Got(c.(owner := c.owner[m := Some(t)]), None)
    else if timeout == 0 then Denied
    else Blocked(Block(c, t, MutexWaiters(m), timeout, self))
  }

  /** Unlock on behalf of `t`; ownership passes straight to the first waiter. */
  function MutexRelease(c: Core, m: Handle, t: Tid): (Core, Option<Tid>)
    requires m in c.owner && InPool(c)
  {
    if c.owner[m] != Some(t) then (c, None)
    else
      var (c1, w) := PopWaiter(c, MutexWaiters(m));
      (c1.(owner := c1.owner[m := w]), w)
  }

  // ---- Queues ----

  function Enqueued(q: Queue, data: Data): Queue {
    q.(items := q.items + [data])
  }

  function Dequeued(q: Queue): Queue
    requires q.items != []
  {
    q.(items := q.items[1..])
  }

  function SendAttempt(c: Core, q: Handle, data: Data, t: Tid, timeout: nat, self: bool): Attempt
    requires q in c.queue && t < |c.task| && InPool(c)
  {
    if |c.queue[q].items| < c.queue[q].capacity then
      var (c1, w) := PopWaiter(c, Receivers(q));
      Got(c1.(queue := c1.queue[q := Enqueued(c1.queue[q], data)]), w)
    else if timeout == 0 then Denied
    else Blocked(Block(c, t, Senders(q), timeout, self))
  }

  function ReceiveAttempt(c: Core, q: Handle, t: Tid, timeout: nat, self: bool): Attempt
    requires q in c.queue && t < |c.task| && InPool(c)
  {
    if c.queue[q].items != [] then
      var (c1, w) := PopWaiter(c, Senders(q));
      Got(c1.(queue := c1.queue[q := Dequeued(c1.queue[q])]), w)
    else if timeout == 0 then Denied
    else Blocked(Block(c, t, Receivers(q), timeout, self))
  }

  // ---- Creation: `h` is the handle that k_obj_alloc issued ----

  predicate FreshHandle(c: Core, h: Handle) {
    h < FAIL && h !in c.sem && h !in c.owner && h !in c.queue
  }

  function Create(c: Core, call: Call, h: Handle): Core {
    match call
    case SemCreate(n) => c.(sem := c.sem[h := if n >= 0 then n else 0])
    case MutexCreate => c.(owner := c.owner[h := None])
    case QueueCreate(n, k) => c.(queue := c.queue[h := Queue(n, k, [])])
    case _ => c
  }
}
