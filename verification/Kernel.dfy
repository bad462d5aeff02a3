/** The kernel as it is laid out in memory: a TCB pool with link fields, list heads, cursors and a ring buffer,
  * all updated in place. Each method is one critical section or handler of the C code and is proved to compute
  * the corresponding function of module CoreState. The pool is stored column by column. */
module Kernel {
  import opened Base
  import opened ByteQueue
  import opened Selection
  import opened CoreState
  import opened Chains
  import opened KernelLinks
  import opened Sweep
  import Allocator
  import Blocks
  import TaskStack

  class Kernel {
    // TCB pool
    var task: seq<Task>
    var next: Links                        // TCB.next
    var waitNext: Links                    // TCB.wait_next
    var stackAlloc: seq<nat>               // TCB.stack_alloc
    var used: seq<bool>                    // tcb_used
    // kernel/sched.c
    var taskList: seq<Option<Tid>>
    var rrCurrent: seq<Option<Tid>>
    var current: Option<Tid>
    var tickCount: nat
    var priorityMask: set<nat>             // the bits set in g_priority_mask
    // kernel/kwork.c
    const buf: array<Item>
    var head: nat
    var tail: nat
    var kernelTcb: Option<Tid>
    // kernel objects, by handle
    var sem: map<Handle, int>
    var owner: map<Handle, Option<Tid>>
    var queue: map<Handle, Memory>
    var waitList: map<WaitList, Option<Tid>>   // heads of the wait lists

    ghost var order: seq<seq<Tid>>
    ghost var waiters: map<WaitList, seq<Tid>>

    ghost predicate Valid()
      reads this, buf
    {
      && ListsOk(task, next, taskList, rrCurrent, order, priorityMask)
      && WaitsOk(task, waitNext, waitList, waiters)
      && RingOk(buf[..], head, tail, |task|)
      && (current.Some? ==> current.value < |task|)
      && (kernelTcb.Some? ==> kernelTcb.value < |task|)
      && PoolOk(used, |task|, order) && |stackAlloc| == |task|
      && QueuesOk(queue)
    }

    /** The abstract state. */
    ghost function Abs(): Core
      reads this, buf
    {
      Core(task, current, order, rrCurrent, RingOf(buf[..], head, tail), kernelTcb, sem, owner, QueuesOf(queue), waiters)
    }

    /** task_init, scheduler_init and zeroed statics. */
    constructor ()
      ensures Valid() && fresh(buf)
      ensures task == seq(MAX_TASKS, _ => ZEROED) && used == seq(MAX_TASKS, _ => false) && stackAlloc == seq(MAX_TASKS, _ => 0)
      ensures current == None && Abs().ring == [] && kernelTcb == None && rrCurrent == seq(MAX_TASK_PRIORITIES, _ => None)
      ensures order == seq(MAX_TASK_PRIORITIES, _ => []) && waiters == map[] && sem == map[] && owner == map[] && queue == map[]
    {
      task := seq(MAX_TASKS, _ => ZEROED);
      next, waitNext := seq(MAX_TASKS, _ => None), seq(MAX_TASKS, _ => None);
      used, stackAlloc := seq(MAX_TASKS, _ => false), seq(MAX_TASKS, _ => 0);
      taskList := seq(MAX_TASK_PRIORITIES, _ => None);
      rrCurrent := seq(MAX_TASK_PRIORITIES, _ => None);
      current, tickCount, priorityMask := None, 0, {};
      buf := new Item[KWORK_QUEUE_SIZE](_ => Item(Unknown, 0));
      head, tail, kernelTcb := 0, 0, None;
      sem, owner, queue, waitList := map[], map[], map[], map[];
      order := seq(MAX_TASK_PRIORITIES, _ => []);
      waiters := map[];
    }

    // ---- kernel/task.c ----

    /** get_free_tcb: the lowest TCB that is not in use. */
    method GetFreeTcb() returns (t: Option<Tid>)
      requires Valid()
      modifies this`used
      ensures Valid()
      ensures match t
        case None => used == old(used) && forall u :: 0 <= u < |used| ==> used[u]
        case Some(u) => u < |task| && IsLowestFree(old(used), u) && used == old(used)[u := true]
    {
      hide QueuesOk, QueuesOf, ListsOk, WaitsOk, RingOk, RingOf;
      var i := 0;
      while i < MAX_TASKS
        invariant 0 <= i <= MAX_TASKS && forall u :: 0 <= u < i ==> used[u]
      {
        if !used[i] {
          used := used[i := true];
          return Some(i);
        }
        i := i + 1;
      }
      return None;
    }

    /** free_tcb; the pool stays consistent exactly when the TCB is on no priority list. */
    method FreeTcb(t: Tid)
      requires Valid()
      modifies this`used
      ensures |old(used)| == MAX_TASKS && used == if t < MAX_TASKS then old(used)[t := false] else old(used)
      ensures Valid() <==> forall p :: 0 <= p < |order| ==> t !in order[p]
    {
      hide QueuesOk, QueuesOf, ListsOk, WaitsOk, RingOk, RingOf;
      if t < MAX_TASKS {
        used := used[t := false];
      }
    }

    /** The fields that task_create sets in a zeroed TCB; the first frame holds `arg` in R0. */
    method InitTcb(t: Tid, prio: nat, alloc: nat, arg: nat)
      requires Valid() && t < |task| && (forall p :: 0 <= p < |order| ==> t !in order[p]) && OnNoList(waiters, t)
      modifies this`task, this`next, this`waitNext, this`stackAlloc
      ensures Valid() && Abs() == old(Abs()).Set(t, NewTask(prio, arg))
      ensures t < |old(stackAlloc)| && stackAlloc == old(stackAlloc)[t := alloc]
      ensures task == old(task)[t := Task(TaskState.Ready, prio, false, false, 0, None, arg)]
    {
      hide QueuesOk, QueuesOf, ListsOk, WaitsOk, RingOk, RingOf, OnNoList;
      ListsSizes(task, next, taskList, rrCurrent, order, priorityMask);
      ListsFresh(task, next, taskList, rrCurrent, order, priorityMask, t, NewTask(prio, arg));
      WaitsFresh(task, waitNext, waitList, waiters, t, NewTask(prio, arg));
      task := task[t := ZEROED];
      next := next[t := None];
      waitNext := waitNext[t := None];
      stackAlloc := stackAlloc[t := alloc];
      task := task[t := task[t].(savedR0 := arg)];
      task := task[t := task[t].(state := Ready)];
      task := task[t := task[t].(prio := prio)];
      assert task == old(task)[t := NewTask(prio, arg)];
    }

    /** task_create up to the words that it writes to the new stack; `created` is the TCB of the new task. */
    method TaskCreate(heap: Allocator.Heap, prio: nat, stackSize: Word, arg: nat) returns (created: Option<Tid>)
      requires Valid() && heap.Valid() && forall t :: 0 <= t < |used| && !used[t] ==> OnNoList(waiters, t)
      modifies this`task, this`next, this`waitNext, this`stackAlloc, this`used, this`taskList, this`priorityMask, this`order
      modifies heap, heap.mem
      ensures Valid() && heap.Valid()
      ensures created.Some? <==>
                && prio < MAX_TASK_PRIORITIES && 0 < stackSize <= MAX_TASK_STACK_SIZE && HasFree(old(used))
                && Blocks.FirstFit(old(heap.blocks), StackNeed(stackSize)) < |old(heap.blocks)|
      ensures match created
        case None => Abs() == old(Abs()) && used == old(used) && stackAlloc == old(stackAlloc) && heap.blocks == old(heap.blocks)
        case Some(t) =>
          && IsLowestFree(old(used), t) && used == old(used)[t := true]
          && t < |old(task)| && prio < |old(order)| && Abs() == Added(old(Abs()).Set(t, NewTask(prio, arg)), t)
          && StackCut(old(heap.blocks), heap.blocks, stackSize, old(stackAlloc), stackAlloc, t)
          && HoldsStack(heap, stackAlloc[t])
    {
      hide QueuesOk, QueuesOf, ListsOk, WaitsOk, RingOk, RingOf, OnNoList, TaskStack.StackSize, Allocator.Need, Blocks.FirstFit,
           Blocks.Allocate;
      ListsSizes(task, next, taskList, rrCurrent, order, priorityMask);
      if prio >= MAX_TASK_PRIORITIES {
        return None;
      }
      if stackSize == 0 || stackSize > MAX_TASK_STACK_SIZE {
        return None;
      }
      created := GetFreeTcb();
      if created == None {
        return;
      }
      var t := created.value;
      var alloc := MallocStack(heap, stackSize);
      if alloc == 0 {
        FreeTcb(t);
        assert used == old(used);
        return None;
      }
      InitTcb(t, prio, alloc, arg);
      AddTask(t);
    }

    /** task_delete: the TCB leaves its priority list, its stack the heap, and the TCB is free again. */
    method TaskDelete(heap: Allocator.Heap, t: Tid)
      requires Valid() && t < |task| && task[t].prio < MAX_TASK_PRIORITIES
      requires heap.Valid() && (stackAlloc[t] == 0 || HoldsStack(heap, stackAlloc[t]))
      modifies this`next, this`taskList, this`rrCurrent, this`priorityMask, this`order, this`used, this`stackAlloc
      modifies heap, heap.mem
      ensures Valid() && t < |old(used)| && used == old(used)[t := false]
      ensures |old(Abs()).order| == |old(Abs()).cursor| == MAX_TASK_PRIORITIES && Abs() == Removed(old(Abs()), t)
      ensures t < |old(stackAlloc)| && stackAlloc == old(stackAlloc)[t := 0]
      ensures heap.Valid() && heap.blocks == StackFreed(old(heap.blocks), old(stackAlloc[t]))
    {
      hide QueuesOk, QueuesOf, ListsOk, WaitsOk, RingOk, RingOf, Blocks.Release;
      ListsMembers(task, next, taskList, rrCurrent, order, priorityMask);
      RemoveTask(t);
      if stackAlloc[t] != 0 {
        FreeStack(heap, stackAlloc[t]);
        stackAlloc := stackAlloc[t := 0];
      }
      FreeTcb(t);
    }

    // ---- kernel/sched.c ----

    method WakeTask(t: Tid, result: nat)
      requires Valid() && t < |task|
      modifies this`task
      ensures Valid() && Abs() == CoreState.WakeTask(old(Abs()), t, result)
    {
      hide PoolOk, QueuesOk, QueuesOf, ListsOk, WaitsOk, RingOk, RingOf;
      ghost var was := task;
      if task[t].svcBlocked {
        task := task[t := task[t].(savedR0 := result)];
        task := task[t := task[t].(svcBlocked := false)];
      }
      task := task[t := task[t].(state := Ready)];
      FieldsChange(was, task, next, taskList, rrCurrent, order, priorityMask, waitNext, waitList, waiters);
    }

    method Sleep(t: Tid, ticks: nat)
      requires Valid() && t < |task|
      modifies this`task
      ensures Valid() && Abs() == SleepTask(old(Abs()), t, ticks)
    {
      hide PoolOk, QueuesOk, QueuesOf, ListsOk, WaitsOk, RingOk, RingOf;
      ghost var was := task;
      task := task[t := task[t].(delay := ticks)];
      task := task[t := task[t].(state := Waiting)];
      FieldsChange(was, task, next, taskList, rrCurrent, order, priorityMask, waitNext, waitList, waiters);
    }

    /** scheduler_add_task: the new task becomes the head of its priority list. */
    method AddTask(t: Tid)
      requires Valid() && t < |task| && task[t].prio < MAX_TASK_PRIORITIES && t < |used| && used[t]
      requires forall p :: 0 <= p < |order| ==> t !in order[p]
      modifies this`next, this`taskList, this`priorityMask, this`order
      ensures Valid()
      ensures Abs() == Added(old(Abs()), t)
      ensures task[t].prio < |old(order)| && order == old(order)[task[t].prio := [t] + old(order)[task[t].prio]]
    {
      hide PoolOk, QueuesOk, QueuesOf, WaitsOk, RingOk, RingOf, ListsOk;
      ListsSizes(task, next, taskList, rrCurrent, order, priorityMask);
      ListsAdd(task, next, taskList, rrCurrent, order, priorityMask, t);
      PoolAdd(used, |task|, order, task[t].prio, t);
      var p := task[t].prio;
      next := next[t := taskList[p]];
      taskList := taskList[p := Some(t)];
      priorityMask := priorityMask + {p};
      order := order[p := [t] + order[p]];
    }

    // ---- kernel/kwork.c and arch/arm/cortex-m4/syscall.c ----

    /** kwork_push */
    method KworkPush(item: Item) returns (ok: bool)
      requires Valid() && item.caller < |task|
      modifies this`task, this`tail, buf
      ensures Valid()
      ensures (Abs(), ok) == CoreState.KworkPush(old(Abs()), item)
      ensures !ok ==> Abs() == old(Abs())
    {
      hide PoolOk, QueuesOk, QueuesOf, ListsOk, WaitsOk, RingOk, RingOf;
      RingSizes(buf[..], head, tail, |task|);
      var n := (tail + 1) % KWORK_QUEUE_SIZE;
      RingPush(buf[..], head, tail, |task|, item);
      if n == head {
        return false;
      }
      ghost var slots, was := buf[..], task;
      buf[tail] := item;
      assert buf[..] == slots[tail := item];
      tail := n;
      if kernelTcb.Some? && task[kernelTcb.value].state == Waiting {
        task := task[kernelTcb.value := task[kernelTcb.value].(state := Ready)];
      }
      assert kernelTcb.Some? ==> task == was[kernelTcb.value := Roused(was[kernelTcb.value])];
      FieldsChange(was, task, next, taskList, rrCurrent, order, priorityMask, waitNext, waitList, waiters);
      ok := true;
    }

    /** kwork_pop_locked */
    method KworkPop() returns (item: Option<Item>)
      requires Valid()
      modifies this`head
      ensures Valid()
      ensures item == if old(Abs()).ring == [] then None else Some(old(Abs()).ring[0])
      ensures Abs() == if item == None then old(Abs()) else old(Abs()).(ring := old(Abs()).ring[1..])
    {
      hide PoolOk, QueuesOk, QueuesOf, ListsOk, WaitsOk, RingOk, RingOf;
      RingSizes(buf[..], head, tail, |task|);
      RingPop(buf[..], head, tail, |task|);
      if head == tail {
        return None;
      }
      item := Some(buf[head]);
      head := (head + 1) % KWORK_QUEUE_SIZE;
    }

    /** svc_handler_c after the frame was read: false when the ring was full and the caller was released with -1. */
    method SvcHandler(call: Call) returns (ok: bool)
      requires Valid() && current.Some?
      modifies this`task, this`tail, buf
      ensures Valid()
      ensures (Abs(), ok) == SvcEntry(old(Abs()), call)
    {
      hide PoolOk, QueuesOk, QueuesOf, ListsOk, WaitsOk, RingOk, RingOf, CoreState.KworkPush;
      var t := current.value;
      ghost var was := task;
      task := task[t := task[t].(svcBlocked := true)];
      task := task[t := task[t].(state := Waiting)];
      FieldsChange(was, task, next, taskList, rrCurrent, order, priorityMask, waitNext, waitList, waiters);
      ghost var blocked := Abs();
      assert blocked == old(Abs()).Set(t, was[t].(svcBlocked := true, state := Waiting));
      ok := KworkPush(Item(call, t));
      ghost var pushed := Abs();
      assert (pushed, ok) == CoreState.KworkPush(blocked, Item(call, t));
      if !ok {
        was := task;
        task := task[t := task[t].(svcBlocked := false)];
        task := task[t := task[t].(state := Ready)];
        task := task[t := task[t].(savedR0 := FAIL)];
        FieldsChange(was, task, next, taskList, rrCurrent, order, priorityMask, waitNext, waitList, waiters);
        assert Abs() == pushed.Set(t, pushed.task[t].(svcBlocked := false, state := Ready, savedR0 := FAIL));
      }
    }

    // ---- Wait lists (the code repeated in kernel/mutex.c, kernel/semaphore.c and kernel/queue.c) ----

    /** Take the first waiter off list `l`. */
    method PopFirst(l: WaitList) returns (w: Option<Tid>)
      requires Valid()
      modifies this`task, this`waitNext, this`waitList, this`waiters
      ensures InPool(old(Abs()))
      ensures Valid() && (Abs(), w) == PopWaiter(old(Abs()), l)
    {
      hide PoolOk, QueuesOk, QueuesOf, ListsOk, WaitsOk, RingOk, RingOf;
      ValidInPool(this);
      WaitsHead(task, waitNext, waitList, waiters, l);
      w := HeadOf(waitList, l);
      if w.Some? {
        var t := w.value;
        WaitsPop(task, waitNext, waitList, waiters, l);
        ghost var was := task;
        waitList := waitList[l := waitNext[t]];
        waitNext := waitNext[t := None];
        task := task[t := task[t].(delay := 0)];
        task := task[t := task[t].(blockingOn := None)];
        waiters := waiters[l := ListOf(waiters, l)[1..]];
        assert task == was[t := Released(was[t])];
        ListsKeep(was, task, next, taskList, rrCurrent, order, priorityMask);
      }
    }

    /** Put `t` at the front of list `l`; `self` when the current task blocks itself. */
    method BlockFront(t: Tid, l: WaitList, timeout: nat, self: bool)
      requires Valid() && t < |task| && OnNoList(waiters, t) && (l.SemWaiters? || l.MutexWaiters?)
      modifies this`task, this`waitNext, this`waitList, this`waiters
      ensures Valid() && Abs() == Block(old(Abs()), t, l, timeout, self)
    {
      hide PoolOk, QueuesOk, QueuesOf, ListsOk, WaitsOk, RingOk, RingOf, OnNoList, Linked, Marked, NoDuplicates, Chain, Parked;
      ghost var was := task;
      ListsSizes(task, next, taskList, rrCurrent, order, priorityMask);
      ListsParked(task, next, taskList, rrCurrent, order, priorityMask, t, l, timeout, self);
      WaitsJoin(task, waitNext, waitList, waiters, l, t, timeout, self);
      if self {
        task := task[t := task[t].(timedOut := false)];
        task := task[t := task[t].(state := Waiting)];
      }
      waitNext := waitNext[t := HeadOf(waitList, l)];
      waitList := waitList[l := Some(t)];
      SetTimeout(t, l, timeout);
      waiters := waiters[l := [t] + ListOf(waiters, l)];
      assert task == was[t := Parked(Halted(was[t], self), l, timeout)];
    }

    /** The end of every blocking sequence: a finite timeout is remembered with its list. */
    method SetTimeout(t: Tid, l: WaitList, timeout: nat)
      requires t < |task|
      modifies this`task
      ensures task == old(task)[t := Parked(old(task)[t], l, timeout)]
    {
      if timeout != WAIT_FOREVER {
        task := task[t := task[t].(delay := timeout)];
        task := task[t := task[t].(blockingOn := Some(l))];
      } else {
        task := task[t := task[t].(delay := 0)];
        task := task[t := task[t].(blockingOn := None)];
      }
    }

    /** Link `t` in behind the last waiter of list `l`. */
    method Append(t: Tid, l: WaitList)
      requires Linked(waitNext, waitList, waiters) && t < |waitNext| && OnNoList(waiters, t)
      modifies this`waitNext, this`waitList, this`waiters
      ensures Linked(waitNext, waitList, waiters) && |waitNext| == old(|waitNext|)
      ensures waiters == old(waiters)[l := ListOf(old(waiters), l) + [t]]
    {
      ghost var s := ListOf(waiters, l);
      LinkedJoinBack(waitNext, waitList, waiters, l, t);
      hide Linked, OnNoList;
      waitNext := waitNext[t := None];
      var first := HeadOf(waitList, l);
      if first == None {
        waitList := waitList[l := Some(t)];
      } else {
        var last := LastOf(waitNext, first.value, s);
        waitNext := waitNext[last := Some(t)];
        waitList := waitList[l := first];
      }
      waiters := waiters[l := s + [t]];
    }

    /** The current task blocks at the end of queue list `l`. */
    method BlockBack(t: Tid, l: WaitList, timeout: nat)
      requires Valid() && t < |task| && OnNoList(waiters, t) && (l.Senders? || l.Receivers?)
      modifies this`task, this`waitNext, this`waitList, this`waiters
      ensures Valid() && Abs() == Block(old(Abs()), t, l, timeout, true)
    {
      hide PoolOk, QueuesOk, QueuesOf, ListsOk, RingOk, RingOf, OnNoList, Linked, Marked, Parked;
      ghost var was := task;
      ListsParked(task, next, taskList, rrCurrent, order, priorityMask, t, l, timeout, true);
      MarkedJoin(task, waiters, l, t, timeout, true, ListOf(waiters, l) + [t]);
      task := task[t := task[t].(timedOut := false)];
      task := task[t := task[t].(state := Waiting)];
      Append(t, l);
      SetTimeout(t, l, timeout);
      assert task == was[t := Parked(Halted(was[t], true), l, timeout)];
    }

    // ---- kernel/semaphore.c ----

    /** z_impl_sem_try_take_timeout (self = false) and z_impl_sem_take_timeout up to its PendSV (self = true). */
    method SemTake(h: Handle, t: Tid, timeout: nat, self: bool) returns (ok: bool)
      requires Valid() && h in sem && t < |task| && OnNoList(waiters, t)
      modifies this`task, this`waitNext, this`waitList, this`waiters, this`sem
      ensures Valid()
      ensures match SemAcquire(old(Abs()), h, t, timeout, self)
        case Got(c, _) => ok && Abs() == c
        case Denied => !ok && Abs() == old(Abs())
        case Blocked(c) => !ok && Abs() == c
    {
      hide PoolOk, QueuesOk, QueuesOf, ListsOk, WaitsOk, RingOk, RingOf, OnNoList, Block;
      if sem[h] > 0 {
        sem := sem[h := sem[h] - 1];
        return true;
      }
      if timeout == 0 {
        return false;
      }
      BlockFront(t, SemWaiters(h), timeout, self);
      ok := false;
    }

    /** z_impl_sem_give up to the wake-up of the popped waiter. */
    method SemGive(h: Handle) returns (w: Option<Tid>)
      requires Valid() && h in sem
      modifies this`task, this`waitNext, this`waitList, this`waiters, this`sem
      ensures InPool(old(Abs()))
      ensures Valid() && (Abs(), w) == CoreState.SemGive(old(Abs()), h)
    {
      hide PoolOk, QueuesOk, QueuesOf, ListsOk, WaitsOk, RingOk, RingOf, InPool, PopWaiter;
      PopNothing(this, SemWaiters(h));
      if HeadOf(waitList, SemWaiters(h)) != None {
        w := PopFirst(SemWaiters(h));
        return;
      }
      sem := sem[h := sem[h] + 1];
      w := None;
    }

    // ---- kernel/mutex.c ----

    /** z_impl_mutex_try_lock_timeout (self = false) and z_impl_mutex_lock_timeout up to its PendSV (self = true). */
    method MutexLock(m: Handle, t: Tid, timeout: nat, self: bool) returns (ok: bool)
      requires Valid() && m in owner && t < |task| && OnNoList(waiters, t)
      modifies this`task, this`waitNext, this`waitList, this`waiters, this`owner
      ensures Valid()
      ensures match MutexAcquire(old(Abs()), m, t, timeout, self)
        case Got(c, _) => ok && Abs() == c
        case Denied => !ok && Abs() == old(Abs())
        case Blocked(c) => !ok && Abs() == c
    {
      hide PoolOk, QueuesOk, QueuesOf, ListsOk, WaitsOk, RingOk, RingOf, OnNoList, Block;
      if owner[m] == Some(t) {
        return true;
      }
      if owner[m] == None {
        owner := owner[m := Some(t)];
        return true;
      }
      if timeout == 0 {
        return false;
      }
      BlockFront(t, MutexWaiters(m), timeout, self);
      ok := false;
    }

    /** z_impl_mutex_unlock_for, and z_impl_mutex_unlock with t the current task, up to the wake-up. */
    method MutexUnlock(m: Handle, t: Tid) returns (w: Option<Tid>)
      requires Valid() && m in owner
      modifies this`task, this`waitNext, this`waitList, this`waiters, this`owner
      ensures InPool(old(Abs()))
      ensures Valid() && (Abs(), w) == MutexRelease(old(Abs()), m, t)
    {
      hide PoolOk, QueuesOk, QueuesOf, ListsOk, WaitsOk, RingOk, RingOf, InPool, PopWaiter;
      PopNothing(this, MutexWaiters(m));
      if owner[m] != Some(t) {
        return None;
      }
      if HeadOf(waitList, MutexWaiters(m)) != None {
        w := PopFirst(MutexWaiters(m));
        owner := owner[m := w];
      } else {
        owner := owner[m := None];
        w := None;
      }
    }

    // ---- kernel/queue.c (one pass of the retry loops) ----

    /** z_impl_queue_push; `w` is a receiver to wake. */
    method QueuePush(q: Handle, data: Data, t: Tid, timeout: nat) returns (ok: bool, w: Option<Tid>)
      requires Valid() && q in queue && |data| == queue[q].itemSize && t < |task| && OnNoList(waiters, t)
      modifies this`task, this`waitNext, this`waitList, this`waiters, this`queue
      ensures Valid() && InPool(old(Abs())) && q in old(Abs()).queue
      ensures match SendAttempt(old(Abs()), q, data, t, timeout, true)
        case Got(c, popped) => ok && w == popped && Abs() == c
        case Denied => !ok && Abs() == old(Abs())
        case Blocked(c) => !ok && Abs() == c
    {
      hide PoolOk, QueuesOk, QueuesOf, ListsOk, WaitsOk, RingOk, RingOf, OnNoList, Block, InPool, PopWaiter, MemoryOk, IsFull, ItemsOf, ByteQueue.Stored, QueueOf;
      PopNothing(this, Receivers(q));
      var it := queue[q];
      QueueHere(queue, q);
      if !IsFull(it) {
        StoredAppends(it, data);
        QueuePushed(queue, q, data);
        PopIgnoresQueues(Abs(), QueuesOf(queue[q := ByteQueue.Stored(it, data)]), Receivers(q));
        queue := queue[q := ByteQueue.Stored(it, data)];
        w := PopFirst(Receivers(q));
        return true, w;
      }
      if timeout == 0 {
        return false, None;
      }
      BlockBack(t, Senders(q), timeout);
      ok, w := false, None;
    }

    /** z_impl_queue_pop; `w` is a sender to wake. */
    method QueuePop(q: Handle, t: Tid, timeout: nat) returns (item: Option<Data>, w: Option<Tid>)
      requires Valid() && q in queue && t < |task| && OnNoList(waiters, t)
      modifies this`task, this`waitNext, this`waitList, this`waiters, this`queue
      ensures Valid() && InPool(old(Abs())) && q in old(Abs()).queue
      ensures var items := old(Abs()).queue[q].items; item == if items == [] then None else Some(items[0])
      ensures match ReceiveAttempt(old(Abs()), q, t, timeout, true)
        case Got(c, popped) => item.Some? && w == popped && Abs() == c
        case Denied => item == None && Abs() == old(Abs())
        case Blocked(c) => item == None && Abs() == c
    {
      hide PoolOk, QueuesOk, QueuesOf, ListsOk, WaitsOk, RingOk, RingOf, OnNoList, Block, InPool, PopWaiter, MemoryOk, ItemsOf, Front, Dropped, QueueOf;
      PopNothing(this, Senders(q));
      var it := queue[q];
      QueueHere(queue, q);
      if it.head != it.tail {
        DroppedDrops(it);
        QueuePopped(queue, q);
        PopIgnoresQueues(Abs(), QueuesOf(queue[q := Dropped(it)]), Senders(q));
        item := Some(Front(it));
        queue := queue[q := Dropped(it)];
        w := PopFirst(Senders(q));
        return;
      }
      if timeout == 0 {
        return None, None;
      }
      BlockBack(t, Receivers(q), timeout);
      item, w := None, None;
    }

    // ---- Creation: the fields that the create functions set; `h` is the handle that was issued ----

    method CreateSem(h: Handle, initial: int)
      requires Valid() && ListOf(waiters, SemWaiters(h)) == []
      modifies this`sem, this`waitList
      ensures Valid() && Abs() == Create(old(Abs()), SemCreate(initial), h)
    {
      hide PoolOk, QueuesOk, QueuesOf, ListsOk, WaitsOk, RingOk, RingOf;
      WaitsEmpty(task, waitNext, waitList, waiters, SemWaiters(h));
      sem := sem[h := if initial >= 0 then initial else 0];
      waitList := waitList[SemWaiters(h) := None];
    }

    method CreateMutex(h: Handle)
      requires Valid() && ListOf(waiters, MutexWaiters(h)) == []
      modifies this`owner, this`waitList
      ensures Valid() && Abs() == Create(old(Abs()), MutexCreate, h)
    {
      hide PoolOk, QueuesOk, QueuesOf, ListsOk, WaitsOk, RingOk, RingOf;
      WaitsEmpty(task, waitNext, waitList, waiters, MutexWaiters(h));
      owner := owner[h := None];
      waitList := waitList[MutexWaiters(h) := None];
    }

    /** `buffer` is the block that malloc returned for the size that queue_init computes. The new queue is sound exactly when
      * the block is as large as that. */
    method CreateQueue(h: Handle, itemSize: nat, size: nat, buffer: seq<Byte>)
      requires Valid() && ListOf(waiters, Senders(h)) == [] && ListOf(waiters, Receivers(h)) == []
      requires itemSize < TWO_32 && size < TWO_32 && BufferSize(itemSize, size).Some? && BufferSize(itemSize, size).value > 0
      modifies this`queue, this`waitList
      ensures queue == old(queue)[h := Memory(itemSize, size, buffer, 0, 0)]
      ensures Valid() <==> BufferSize(itemSize, size).value <= |buffer|
      ensures Valid() ==> Abs() == Create(old(Abs()), QueueCreate(itemSize, size), h)
    {
      hide PoolOk, QueuesOf, ListsOk, WaitsOk, RingOk, RingOf, MemoryOk, ItemsOf, BufferSize;
      WaitsEmpty(task, waitNext, waitList, waiters, Senders(h));
      WaitsEmpty(task, waitNext, waitList[Senders(h) := None], waiters, Receivers(h));
      EmptyMemory(itemSize, size, buffer);
      var q := Memory(itemSize, size, buffer, 0, 0);
      if BufferSize(itemSize, size).value <= |buffer| {
        QueueChanges(queue, h, q);
      }
      queue := queue[h := q];
      assert queue[h] == q;
      waitList := waitList[Senders(h) := None];
      waitList := waitList[Receivers(h) := None];
    }

    // ---- The worker's own steps, and a blocked call that resumes ----

    /** kernel_task_fn records its TCB. */
    method RecordWorker()
      requires Valid()
      modifies this`kernelTcb
      ensures Valid() && Abs() == old(Abs()).(kernelTcb := current)
    {
      hide PoolOk, QueuesOk, QueuesOf, ListsOk, WaitsOk, RingOk, RingOf;
      kernelTcb := current;
    }

    /** The worker found the ring empty. */
    method BlockWorker()
      requires Valid() && kernelTcb.Some?
      modifies this`task
      ensures Valid() && kernelTcb.value < |old(task)|
      ensures Abs() == old(Abs()).Set(kernelTcb.value, old(task)[kernelTcb.value].(state := Waiting))
    {
      hide PoolOk, QueuesOk, QueuesOf, ListsOk, WaitsOk, RingOk, RingOf;
      ghost var was := task;
      task := task[kernelTcb.value := task[kernelTcb.value].(state := Waiting)];
      FieldsChange(was, task, next, taskList, rrCurrent, order, priorityMask, waitNext, waitList, waiters);
    }

    /** Before a user-mode delay: the result 0 is stored ahead and SVC_BLOCKED cleared. */
    method PrepareDelay(t: Tid)
      requires Valid() && t < |task|
      modifies this`task
      ensures Valid() && Abs() == old(Abs()).Set(t, old(task)[t].(savedR0 := 0, svcBlocked := false))
    {
      hide PoolOk, QueuesOk, QueuesOf, ListsOk, WaitsOk, RingOk, RingOf;
      ghost var was := task;
      task := task[t := task[t].(savedR0 := 0)];
      task := task[t := task[t].(svcBlocked := false)];
      FieldsChange(was, task, next, taskList, rrCurrent, order, priorityMask, waitNext, waitList, waiters);
    }

    /** A privileged semaphore or mutex call looks at TIMED_OUT and clears it. */
    method TakeTimedOut(t: Tid) returns (timedOut: bool)
      requires Valid() && t < |task|
      modifies this`task
      ensures timedOut == old(task)[t].timedOut
      ensures Valid() && Abs() == old(Abs()).Set(t, old(task)[t].(timedOut := false))
    {
      hide PoolOk, QueuesOk, QueuesOf, ListsOk, WaitsOk, RingOk, RingOf;
      ghost var was := task;
      timedOut := task[t].timedOut;
      if timedOut {
        task := task[t := task[t].(timedOut := false)];
      }
      assert task == was[t := was[t].(timedOut := false)];
      FieldsChange(was, task, next, taskList, rrCurrent, order, priorityMask, waitNext, waitList, waiters);
    }

    // ---- kernel/sched.c: selection ----

    /** The do-while walk of scheduler_get_next over one level. */
    method WalkLevel(pr: nat) returns (n: Option<Tid>)
      requires Valid() && pr < |order| && order[pr] != []
      modifies this`rrCurrent
      ensures Valid()
      ensures match First(Rotation(order[pr], old(rrCurrent[pr])), ReadySet(task))
        case None => n == None && rrCurrent == old(rrCurrent)
        case Some(i) =>
          var rot := Rotation(order[pr], old(rrCurrent[pr]));
          n == Some(rot[i]) && rrCurrent == old(rrCurrent)[pr := Some(NextAfter(rot, i))]
    {
      hide PoolOk, QueuesOk, QueuesOf, ListsOk, WaitsOk, RingOk, RingOf, Chain, NoDuplicates, Rotation, ReadySet, CursorsInLists, First, IndexOf;
      ListsLevel(task, next, taskList, rrCurrent, order, priorityMask, pr);
      var list := taskList[pr].value;
      var start := if rrCurrent[pr].Some? then rrCurrent[pr].value else list;
      var t := start;
      ghost var rot := Rotation(order[pr], rrCurrent[pr]);
      ghost var k := 0;
      RotationStart(order[pr], rrCurrent[pr]);
      while true
        invariant rrCurrent == old(rrCurrent) && task == old(task)
        invariant k < |rot| && t == rot[k]
        invariant forall j :: 0 <= j < k ==> task[rot[j]].state != Ready
        decreases |rot| - k
      {
        WalkNext(next, taskList[pr], order[pr], rrCurrent[pr], k);
        var after := if next[t].Some? then next[t].value else list;
        if task[t].state == Ready {
          FirstReady(rot, task, k);
          ListsCursor(task, next, taskList, rrCurrent, order, priorityMask, pr, after);
          rrCurrent := rrCurrent[pr := Some(after)];
          return Some(t);
        }
        t := after;
        if k + 1 < |rot| {
          WalkDistinct(order[pr], rrCurrent[pr], k + 1);
        }
        if t == start {
          break;
        }
        k := k + 1;
      }
      NoneReadyHere(rot, task);
      n := None;
    }

    /** scheduler_get_next */
    method GetNext() returns (n: Option<Tid>)
      requires Valid()
      modifies this`rrCurrent
      ensures Valid()
      ensures CursorsInLists(order, rrCurrent) && CursorsInLists(order, old(rrCurrent))
      ensures match Select(order, old(rrCurrent), ReadySet(task), 0)
        case Nobody => n == None && rrCurrent == old(rrCurrent)
        case Chosen(t, cursor) => n == Some(t) && rrCurrent == cursor
    {
      hide PoolOk, QueuesOk, QueuesOf, ListsOk, WaitsOk, RingOk, RingOf, Chain, NoDuplicates, Rotation, First, ReadySet, CursorsInLists;
      ListsCursors(task, next, taskList, rrCurrent, order, priorityMask);
      ghost var choice := Select(order, rrCurrent, ReadySet(task), 0);
      var pr := 0;
      while pr < MAX_TASK_PRIORITIES
        invariant pr <= MAX_TASK_PRIORITIES && Valid() && rrCurrent == old(rrCurrent)
        invariant Select(order, rrCurrent, ReadySet(task), pr) == choice
      {
        LevelHere(task, next, taskList, rrCurrent, order, priorityMask, pr);
        HeadIsFirst(next, taskList[pr], order[pr]);
        if taskList[pr].Some? {
          n := WalkLevel(pr);
          if n.Some? {
            ListsCursors(task, next, taskList, rrCurrent, order, priorityMask);
            return;
          }
        }
        pr := pr + 1;
      }
      n := None;
    }

    /** The preempted task is made READY so that it can be picked again; a blocked one is left alone. */
    method Preempt()
      requires Valid()
      modifies this`task
      ensures Valid() && Switchable(old(Abs())) && Abs() == old(Abs()).(task := PreemptedTasks(old(Abs())))
    {
      hide PoolOk, QueuesOk, QueuesOf, ListsOk, WaitsOk, RingOk, RingOf, Switchable;
      SwitchableHere(this);
      ghost var was := task;
      var cur := current;
      if cur.Some? && task[cur.value].state == Running {
        task := task[cur.value := task[cur.value].(state := Ready)];
      }
      assert cur.Some? ==> task == was[cur.value := Preempted(was[cur.value])];
      FieldsChange(was, task, next, taskList, rrCurrent, order, priorityMask, waitNext, waitList, waiters);
    }

    method Run(t: Tid)
      requires Valid() && t < |task|
      modifies this`task
      ensures Valid() && Abs() == old(Abs()).Set(t, old(task)[t].(state := Running))
    {
      hide PoolOk, QueuesOk, QueuesOf, ListsOk, WaitsOk, RingOk, RingOf;
      ghost var was := task;
      task := task[t := task[t].(state := Running)];
      FieldsChange(was, task, next, taskList, rrCurrent, order, priorityMask, waitNext, waitList, waiters);
    }

    /** port_switch_context without the register and MPU writes. */
    method SwitchContext()
      requires Valid()
      modifies this`task, this`rrCurrent, this`current
      ensures Valid()
      ensures Switchable(old(Abs())) && Abs() == CoreState.SwitchContext(old(Abs()))
    {
      hide PoolOk, QueuesOk, QueuesOf, ListsOk, WaitsOk, RingOk, RingOf, Select, CoreState.SwitchContext, Switchable, ReadySet, CursorsInLists, PreemptedTasks;
      Preempt();
      SwitchCases(old(Abs()));
      var n := GetNext();
      if n == None {
        if current.Some? {
          Run(current.value);
        }
      } else {
        Run(n.value);
        current := n;
      }
    }

    /** port_start_first_task up to the restore of the first frame: a current task runs as it is, otherwise one is chosen;
      * false when no task can run. */
    method StartFirstTask() returns (ok: bool)
      requires Valid()
      modifies this`task, this`rrCurrent, this`current
      ensures Valid() && Switchable(old(Abs()))
      ensures ok <==> old(current).Some? || Select(old(order), old(rrCurrent), ReadySet(old(task)), 0).Chosen?
      ensures match old(current)
        case None => Abs() == CoreState.SwitchContext(old(Abs()))
        case Some(t) => t < |old(task)| && Abs() == old(Abs()).Set(t, old(task)[t].(state := TaskState.Running))
    {
      hide PoolOk, QueuesOk, QueuesOf, ListsOk, WaitsOk, RingOk, RingOf, Select, CoreState.SwitchContext, Switchable, ReadySet, CursorsInLists;
      SwitchableHere(this);
      SwitchCases(Abs());
      var first := current;
      if first == None {
        first := GetNext();
      }
      if first == None {
        return false;
      }
      current := first;
      Run(first.value);
      return true;
    }

    // ---- kernel/sched.c: ticks ----

    /** First pass of scheduler_tick: sleeping tasks. */
    method AgeSleepers()
      requires Valid()
      modifies this`task
      ensures Valid() && |order| == MAX_TASK_PRIORITIES
      ensures task == Swept(Sleepers, old(task), order, MAX_TASK_PRIORITIES, 0)
    {
      hide PoolOk, QueuesOk, QueuesOf, WaitsOk, RingOk, RingOf, ListsOk, Swept, Expired;
      ghost var was := task;
      ListsMembers(task, next, taskList, rrCurrent, order, priorityMask);
      SweepStart(Sleepers, was, order);
      var pr := 0;
      while pr < MAX_TASK_PRIORITIES
        invariant pr <= MAX_TASK_PRIORITIES
        invariant task == Swept(Sleepers, was, order, pr, 0)
        invariant Valid()
      {
        ListsChain(task, next, taskList, rrCurrent, order, priorityMask, pr);
        var t := taskList[pr];
        ghost var i := 0;
        while t.Some?
          invariant i <= |order[pr]| && t == At(order[pr], i)
          invariant task == Swept(Sleepers, was, order, pr, i)
          invariant Valid()
          decreases |order[pr]| - i
        {
          SweepOne(Sleepers, was, order, pr, i);
          VisitSleeper(t.value);
          t := next[t.value];
          i := i + 1;
        }
        SweepLevel(Sleepers, was, order, pr);
        pr := pr + 1;
      }
    }

    method VisitSleeper(t: Tid)
      requires Valid() && t < |task|
      modifies this`task
      ensures Valid() && task == old(task)[t := Age(Sleepers, old(task)[t])]
    {
      hide PoolOk, QueuesOk, QueuesOf, ListsOk, WaitsOk, RingOk, RingOf;
      ghost var was := task;
      if task[t].state == Waiting && task[t].delay > 0 && task[t].blockingOn == None {
        task := task[t := task[t].(delay := task[t].delay - 1)];
        if task[t].delay == 0 {
          task := task[t := task[t].(state := Ready)];
        }
      }
      assert task == was[t := Age(Sleepers, was[t])];
      FieldsChange(was, task, next, taskList, rrCurrent, order, priorityMask, waitNext, waitList, waiters);
    }

    /** sync_tick_all: tasks in a timed wait; an expired one is spliced out, marked and woken with -1. */
    method SyncTickAll()
      requires Valid()
      modifies this`task, this`waitNext, this`waitList, this`waiters
      ensures Valid() && |order| == MAX_TASK_PRIORITIES
      ensures task == Swept(Timers, old(task), order, MAX_TASK_PRIORITIES, 0)
      ensures waiters == Remaining(old(waiters), Expired(old(task), order, MAX_TASK_PRIORITIES, 0))
    {
      hide PoolOk, QueuesOk, QueuesOf, WaitsOk, RingOk, RingOf, ListsOk, Swept, Expired, Remaining, Levels, Marked;
      ghost var was, ws := task, waiters;
      ListsMembers(task, next, taskList, rrCurrent, order, priorityMask);
      WaitsMarked(task, waitNext, waitList, waiters);
      SweepStart(Timers, was, order);
      RemainingNone(ws);
      var pr := 0;
      while pr < MAX_TASK_PRIORITIES
        invariant pr <= MAX_TASK_PRIORITIES
        invariant task == Swept(Timers, was, order, pr, 0)
        invariant waiters == Remaining(ws, Expired(was, order, pr, 0))
        invariant Valid()
      {
        SyncTickLevel(pr, was, ws);
        pr := pr + 1;
      }
    }

    /** One priority list of sync_tick_all; `was` and `ws` are the tasks and the wait lists before the pass. */
    method SyncTickLevel(pr: nat, ghost was: seq<Task>, ghost ws: map<WaitList, seq<Tid>>)
      requires Valid() && pr < |order| && Levels(was, order) && Marked(was, ws)
      requires task == Swept(Timers, was, order, pr, 0) && waiters == Remaining(ws, Expired(was, order, pr, 0))
      modifies this`task, this`waitNext, this`waitList, this`waiters
      ensures Valid()
      ensures task == Swept(Timers, was, order, pr + 1, 0) && waiters == Remaining(ws, Expired(was, order, pr + 1, 0))
    {
      hide PoolOk, QueuesOk, QueuesOf, WaitsOk, RingOk, RingOf, ListsOk, Swept, Expired, Remaining, Expires, Age, Levels,
           Marked, LessOne, NoDuplicates;
      ListsChain(task, next, taskList, rrCurrent, order, priorityMask, pr);
      var t := taskList[pr];
      ghost var i := 0;
      while t.Some?
        invariant i <= |order[pr]| && t == At(order[pr], i)
        invariant task == Swept(Timers, was, order, pr, i)
        invariant waiters == Remaining(ws, Expired(was, order, pr, i))
        invariant Valid()
        decreases |order[pr]| - i
      {
        SweepOne(Timers, was, order, pr, i);
        RemainingVisit(was, ws, Expired(was, order, pr, i), t.value);
        VisitWaiter(t.value);
        t := next[t.value];
        i := i + 1;
      }
      SweepLevel(Timers, was, order, pr);
    }

    method VisitWaiter(t: Tid)
      requires Valid() && t < |task|
      modifies this`task, this`waitNext, this`waitList, this`waiters
      ensures Valid() && task == old(task)[t := Age(Timers, old(task)[t])]
      ensures waiters == if Expires(old(task)[t]) then LessOne(old(waiters), old(task)[t].blockingOn.value, t) else old(waiters)
    {
      hide PoolOk, QueuesOk, QueuesOf, ListsOk, WaitsOk, RingOk, RingOf, LessOne;
      ghost var was := task;
      if task[t].state == Waiting && task[t].delay > 0 && task[t].blockingOn != None {
        task := task[t := task[t].(delay := task[t].delay - 1)];
        FieldsChange(was, task, next, taskList, rrCurrent, order, priorityMask, waitNext, waitList, waiters);
        if task[t].delay == 0 {
          Splice(task[t].blockingOn.value, t);
          ghost var mid := task;
          task := task[t := task[t].(blockingOn := None)];
          task := task[t := task[t].(timedOut := true)];
          FieldsChange(mid, task, next, taskList, rrCurrent, order, priorityMask, waitNext, waitList, waiters);
          WakeTask(t, FAIL);
        }
      }
      assert task == was[t := Age(Timers, was[t])];
    }

    /** The splice of sync_tick_all: walk the list from its head and unlink `t` if it is there. */
    method Splice(l: WaitList, t: Tid)
      requires Valid() && t < |task|
      modifies this`waitNext, this`waitList, this`waiters
      ensures Valid() && waiters == LessOne(old(waiters), l, t)
    {
      hide PoolOk, QueuesOk, QueuesOf, ListsOk, WaitsOk, RingOk, RingOf, Chain, NoDuplicates, Without;
      ghost var s := ListOf(waiters, l);
      WaitsHead(task, waitNext, waitList, waiters, l);
      var prev, cur := None, HeadOf(waitList, l);
      ghost var i := 0;
      while cur != None && cur != Some(t)
        invariant i <= |s| && cur == At(s, i)
        invariant prev == if i == 0 then None else Some(s[i - 1])
        invariant t !in s[..i]
        decreases |s| - i
      {
        prev := cur;
        cur := waitNext[cur.value];
        i := i + 1;
      }
      if cur == Some(t) {
        WaitsSplice(task, waitNext, waitList, waiters, l, i);
        if prev.Some? {
          waitNext := waitNext[prev.value := waitNext[t]];
          waitList := waitList[l := HeadOf(waitList, l)];
        } else {
          waitList := waitList[l := waitNext[t]];
        }
        waitNext := waitNext[t := None];
        waiters := waiters[l := Without(s, {t})];
      } else {
        assert s[..i] == s;
      }
    }

    /** scheduler_tick */
    method ScheduleTick()
      requires Valid()
      modifies this`task, this`waitNext, this`waitList, this`waiters, this`tickCount
      ensures Valid() && Abs() == Tick(old(Abs()))
      ensures tickCount == (old(tickCount) + 1) % TWO_32
    {
      hide PoolOk, QueuesOk, QueuesOf, ListsOk, WaitsOk, RingOk, RingOf, Swept, Expired, Remaining, Tick;
      tickCount := (tickCount + 1) % TWO_32;
      AgeSleepers();
      SyncTickAll();
      TwoSweepsAreATick(old(Abs()));
    }

    /** scheduler_remove_task */
    method RemoveTask(t: Tid)
      requires Valid() && t < |task| && task[t].prio < MAX_TASK_PRIORITIES
      modifies this`next, this`taskList, this`rrCurrent, this`priorityMask, this`order
      ensures Valid()
      ensures |old(Abs()).order| == |old(Abs()).cursor| == MAX_TASK_PRIORITIES && Abs() == Removed(old(Abs()), t)
    {
      hide PoolOk, QueuesOk, QueuesOf, ListsOk, WaitsOk, RingOk, RingOf, Chain, NoDuplicates, Without;
      var p := task[t].prio;
      ListsSizes(task, next, taskList, rrCurrent, order, priorityMask);
      ghost var cursors := rrCurrent;
      if rrCurrent[p] == Some(t) {
        rrCurrent := rrCurrent[p := None];
      }
      assert rrCurrent == cursors[p := RemovedCursor(cursors[p], t)];
      PoolLess(used, |task|, order, p, t);
      Unlink(p, t, cursors);
      if taskList[p] == None {
        priorityMask := priorityMask - {p};
      }
    }

    /** The walk of scheduler_remove_task: unlink `t` if it is on list `p`. `cursors` are those before `t` was cleared. */
    method Unlink(p: nat, t: Tid, ghost cursors: seq<Option<Tid>>)
      requires p < |order| && ListsOk(task, next, taskList, cursors, order, priorityMask)
      modifies this`next, this`taskList, this`order
      ensures |order| == old(|order|) == |taskList| == |cursors| && order == old(order)[p := Without(old(order)[p], {t})]
      ensures ListsOk(task, next, taskList, cursors[p := RemovedCursor(cursors[p], t)], order, if taskList[p] == None then priorityMask - {p} else priorityMask)
    {
      hide PoolOk, QueuesOk, QueuesOf, ListsOk, Chain, NoDuplicates, Without;
      ListsChain(task, next, taskList, cursors, order, priorityMask, p);
      ghost var s := order[p];
      if t !in s {
        ListsWithout(task, next, taskList, cursors, order, priorityMask, p, t);
        assert cursors[p := RemovedCursor(cursors[p], t)] == cursors;
      }
      var prev, found;
      ghost var i;
      prev, found, i := LinkTo(next, taskList[p], t, s);
      if found {
        ListsUnlink(task, next, taskList, cursors, order, priorityMask, p, i);
        ghost var head := UnlinkedHead(next, taskList[p], s, i);
        assert taskList[p := taskList[p]] == taskList;
        if prev.Some? {
          next := next[prev.value := next[t]];
        } else {
          taskList := taskList[p := next[t]];
        }
        next := next[t := None];
        assert taskList[p] == head;
      }
      order := order[p := Without(s, {t})];
    }
  }

  /** Walks a list to its last element. */
  method LastOf(link: Links, first: Tid, ghost s: seq<Tid>) returns (last: Tid)
    requires s != [] && Chain(link, Some(first), s)
    ensures last == s[|s| - 1] && last < |link|
  {
    last := first;
    ghost var k := 0;
    while link[last].Some?
      invariant k < |s| && last == s[k]
      decreases |s| - k
    {
      last := link[last].value;
      k := k + 1;
    }
  }

  /** Walks a list to the link that points to `t`: `prev` is the element before it, None for the head. */
  method LinkTo(link: Links, head: Option<Tid>, t: Tid, ghost s: seq<Tid>) returns (prev: Option<Tid>, found: bool, ghost i: nat)
    requires Chain(link, head, s)
    ensures found <==> t in s
    ensures found ==> i < |s| && s[i] == t && prev == if i == 0 then None else Some(s[i - 1])
  {
    prev := None;
    var cur := head;
    i := 0;
    while cur.Some? && cur != Some(t)
      invariant i <= |s| && cur == At(s, i)
      invariant prev == if i == 0 then None else Some(s[i - 1])
      invariant t !in s[..i]
      decreases |s| - i
    {
      prev := cur;
      cur := link[cur.value];
      i := i + 1;
    }
    found := cur.Some?;
    assert !found ==> s[..i] == s;
  }

  // ---- The queues ----

  ghost predicate QueuesOk(queue: map<Handle, Memory>) {
    forall q :: q in queue ==> MemoryOk(queue[q])
  }

  /** A queue's byte ring as a bounded sequence of items. */
  ghost function QueueOf(m: Memory): Queue {
    Queue(m.itemSize, m.size, if MemoryOk(m) then ItemsOf(m) else [])
  }

  ghost function QueuesOf(queue: map<Handle, Memory>): map<Handle, Queue> {
    map q | q in queue :: QueueOf(queue[q])
  }

  lemma QueueHere(queue: map<Handle, Memory>, q: Handle)
    requires QueuesOk(queue) && q in queue
    ensures MemoryOk(queue[q]) && q in QueuesOf(queue) && QueuesOf(queue)[q] == Queue(queue[q].itemSize, queue[q].size, ItemsOf(queue[q]))
    ensures IsFull(queue[q]) <==> |ItemsOf(queue[q])| >= queue[q].size
    ensures queue[q].head == queue[q].tail <==> ItemsOf(queue[q]) == []
  {
    FullMeans(queue[q]);
  }

  lemma QueueChanges(queue: map<Handle, Memory>, q: Handle, m: Memory)
    requires QueuesOk(queue) && MemoryOk(m)
    ensures QueuesOk(queue[q := m]) && QueuesOf(queue[q := m]) == QueuesOf(queue)[q := Queue(m.itemSize, m.size, ItemsOf(m))]
  {
    hide MemoryOk, ItemsOf;
    assert QueueOf(m) == Queue(m.itemSize, m.size, ItemsOf(m));
  }

  lemma QueuePushed(queue: map<Handle, Memory>, q: Handle, data: Data)
    requires QueuesOk(queue) && q in queue && MemoryOk(queue[q]) && !IsFull(queue[q]) && |data| == queue[q].itemSize
    requires Offset(queue[q].tail, queue[q].itemSize) + queue[q].itemSize <= |queue[q].buffer|
    ensures var queue' := queue[q := ByteQueue.Stored(queue[q], data)];
      QueuesOk(queue') && QueuesOf(queue') == QueuesOf(queue)[q := Queue(queue[q].itemSize, queue[q].size, ItemsOf(queue[q]) + [data])]
  {
    hide MemoryOk, ItemsOf, QueuesOf, QueuesOk, Offset, NextIndex;
    StoredAppends(queue[q], data);
    QueueChanges(queue, q, ByteQueue.Stored(queue[q], data));
  }

  lemma QueuePopped(queue: map<Handle, Memory>, q: Handle)
    requires QueuesOk(queue) && q in queue && MemoryOk(queue[q]) && queue[q].head != queue[q].tail
    ensures var queue' := queue[q := Dropped(queue[q])];
      QueuesOk(queue') && QueuesOf(queue') == QueuesOf(queue)[q := Queue(queue[q].itemSize, queue[q].size, ItemsOf(queue[q])[1..])]
  {
    hide MemoryOk, ItemsOf, QueuesOf, QueuesOk, Offset, NextIndex;
    DroppedDrops(queue[q]);
    var rest := ItemsOf(Dropped(queue[q]));
    assert ([Front(queue[q])] + rest)[1..] == rest;
    QueueChanges(queue, q, Dropped(queue[q]));
  }

  lemma EmptyMemory(itemSize: nat, size: nat, buffer: seq<Byte>)
    requires itemSize < TWO_32 && size < TWO_32 && BufferSize(itemSize, size).Some? && BufferSize(itemSize, size).value > 0
    ensures var m := Memory(itemSize, size, buffer, 0, 0);
      && (MemoryOk(m) <==> BufferSize(itemSize, size).value <= |buffer|)
      && (MemoryOk(m) ==> ItemsOf(m) == [])
  {
    BufferIsLargeEnough(itemSize, size);
  }

  lemma PopIgnoresQueues(c: Core, queue: map<Handle, Queue>, l: WaitList)
    requires InPool(c)
    ensures InPool(c.(queue := queue))
    ensures PopWaiter(c.(queue := queue), l) == (PopWaiter(c, l).0.(queue := queue), PopWaiter(c, l).1)
  {
  }

  // ---- The TCB pool ----

  predicate HasFree(used: seq<bool>) {
    exists t :: 0 <= t < |used| && !used[t]
  }

  predicate IsLowestFree(used: seq<bool>, t: Tid) {
    t < |used| && !used[t] && forall u :: 0 <= u < t ==> used[u]
  }

  /** The size of the block that malloc cuts for a stack. */
  function StackNeed(stackSize: nat): nat {
    if 1 <= stackSize <= MAX_TASK_STACK_SIZE then Allocator.Need(TaskStack.AllocSize(TaskStack.StackSize(stackSize))) else 0
  }

  /** The stack of task `t` was allocated. */
  predicate StackCut(bs: seq<Blocks.Block>, bs': seq<Blocks.Block>, stackSize: nat, allocs: seq<nat>, allocs': seq<nat>, t: Tid) {
    var i := Blocks.FirstFit(bs, StackNeed(stackSize));
    && i < |bs| && bs' == Blocks.Allocate(bs, StackNeed(stackSize))
    && t < |allocs| && allocs' == allocs[t := bs[i].addr + Blocks.HEADER]
  }

  /** The heap after a task's stack was given back, if it had one. */
  function StackFreed(bs: seq<Blocks.Block>, alloc: nat): seq<Blocks.Block>
    requires alloc == 0 || alloc >= Blocks.HEADER
  {
    if alloc == 0 then bs else Blocks.Release(bs, alloc - Blocks.HEADER)
  }

  ghost predicate HoldsStack(heap: Allocator.Heap, alloc: nat)
    reads heap, heap.mem
  {
    heap.inited && heap.IsLive(alloc) && Blocks.HEADER <= alloc < TWO_32
  }

  method FreeStack(heap: Allocator.Heap, alloc: nat)
    requires heap.Valid() && HoldsStack(heap, alloc)
    modifies heap, heap.mem
    ensures heap.Valid() && heap.blocks == Blocks.Release(old(heap.blocks), alloc - Blocks.HEADER)
  {
    hide Blocks.Release;
    heap.Free(alloc);
  }

  /** The allocation of task_create. */
  method MallocStack(heap: Allocator.Heap, stackSize: Word) returns (alloc: nat)
    requires heap.Valid() && 1 <= stackSize <= MAX_TASK_STACK_SIZE
    modifies heap, heap.mem
    ensures heap.Valid()
    ensures var (bs, i) := (old(heap.blocks), Blocks.FirstFit(old(heap.blocks), StackNeed(stackSize)));
      if i == |bs| then alloc == 0 && heap.blocks == bs
      else
        && alloc == bs[i].addr + Blocks.HEADER && heap.blocks == Blocks.Allocate(bs, StackNeed(stackSize))
        && HoldsStack(heap, alloc)
  {
    hide Blocks.FirstFit, Blocks.Allocate, Allocator.Need;
    ghost var was := heap.blocks;
    var size := TaskStack.NextPowerOfTwo(stackSize);
    TaskStack.StackSizes(stackSize);
    alloc := heap.Malloc(TaskStack.AllocSize(size));
    Blocks.FirstFitMeans(was, StackNeed(stackSize));
    if alloc != 0 {
      heap.Owns(was, StackNeed(stackSize), alloc);
    }
  }

  /** A TCB on a priority list is in use. */
  ghost predicate PoolOk(used: seq<bool>, n: nat, order: seq<seq<Tid>>) {
    && |used| == n == MAX_TASKS
    && (forall p, t {:trigger t in order[p]} :: 0 <= p < |order| && t in order[p] ==> t < n && used[t])
  }

  lemma PoolAdd(used: seq<bool>, n: nat, order: seq<seq<Tid>>, p: nat, t: Tid)
    requires PoolOk(used, n, order) && p < |order| && t < n && used[t]
    ensures PoolOk(used, n, order[p := [t] + order[p]])
  {
  }

  lemma PoolLess(used: seq<bool>, n: nat, order: seq<seq<Tid>>, p: nat, t: Tid)
    requires PoolOk(used, n, order) && p < |order|
    ensures PoolOk(used, n, order[p := Without(order[p], {t})])
  {
  }

  /** A TCB after memset(tcb, 0, sizeof(*tcb)). */
  const ZEROED: Task := Task(Ready, 0, false, false, 0, None, 0)

  function NewTask(prio: nat, arg: nat): Task {
    Task(Ready, prio, false, false, 0, None, arg)
  }

  lemma ValidInPool(k: Kernel)
    requires k.Valid()
    ensures InPool(k.Abs())
  {
    forall l, t | l in k.waiters && t in k.waiters[l] ensures t < |k.task| {
      assert t in ListOf(k.waiters, l);
    }
  }

  /** The head pointer is NULL exactly when the list is empty, and then popping changes nothing. */
  lemma PopNothing(k: Kernel, l: WaitList)
    requires k.Valid()
    ensures InPool(k.Abs())
    ensures HeadOf(k.waitList, l) == None <==> ListOf(k.waiters, l) == []
    ensures ListOf(k.waiters, l) == [] ==> PopWaiter(k.Abs(), l) == (k.Abs(), None)
    ensures PopWaiter(k.Abs(), l).1 == HeadOf(k.waitList, l)
    ensures var c := PopWaiter(k.Abs(), l).0; c.queue == k.Abs().queue && c.owner == k.owner && c.sem == k.sem
  {
    ValidInPool(k);
    WaitsHead(k.task, k.waitNext, k.waitList, k.waiters, l);
  }

  /** What port_switch_context relies on. */
  ghost predicate Switchable(c: Core) {
    && c.IsTask(c.current) && CursorsInLists(c.order, c.cursor)
    && forall p, t {:trigger t in c.order[p]} :: 0 <= p < |c.order| && t in c.order[p] ==> t < |c.task|
  }

  lemma SwitchableHere(k: Kernel)
    requires k.Valid()
    ensures Switchable(k.Abs())
  {
    ListsMembers(k.task, k.next, k.taskList, k.rrCurrent, k.order, k.priorityMask);
  }

  lemma SwitchCases(c: Core)
    requires Switchable(c)
    ensures c.IsTask(c.current) && CursorsInLists(c.order, c.cursor)
    ensures var task := PreemptedTasks(c);
      match Select(c.order, c.cursor, ReadySet(task), 0)
      case Nobody =>
        CoreState.SwitchContext(c) == if c.current.Some? then c.(task := task[c.current.value := task[c.current.value].(state := Running)]) else c.(task := task)
      case Chosen(n, cursor) =>
        n < |task| && CoreState.SwitchContext(c) == c.(task := task[n := task[n].(state := Running)], current := Some(n), cursor := cursor)
  {
    var q := SelectIsStrictPriority(c.order, c.cursor, ReadySet(PreemptedTasks(c)), 0);
  }
}
