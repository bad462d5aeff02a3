/** The structural invariant: every blocked task is in exactly one place, the kernel's lists agree with
  * the places, and the worker's priority keeps its state and the ring consistent. */
module Structure {
  import opened Base
  import opened Selection
  import opened CoreState
  import opened Transitions
  import opened Ledgers
  import opened Places

  ghost predicate Sizes(m: Machine, ph: seq<Phase>, p: seq<Place>) {
    && |m.pc| == |m.core.task| == |p| == |ph| <= MAX_TASKS
    && m.worker < |p| && m.idle < |p| && m.worker != m.idle
  }

  /** The worker and the idle task are never blocked in a place; the idle task stays in its own code. */
  ghost predicate RolesHold(m: Machine, p: seq<Place>)
    requires m.worker < |p| && m.idle < |p| == |m.pc|
  {
    p[m.worker] == Nowhere && p[m.idle] == Nowhere && m.pc[m.idle] == User
  }

  ghost predicate TasksHold(m: Machine, ph: seq<Phase>, p: seq<Place>)
    requires |m.pc| == |m.core.task| == |p| == |ph|
  {
    forall t :: 0 <= t < |p| && t != m.worker ==> TaskHolds(m.core.task[t], m.pc[t], p[t], ph[t])
  }

  /** At most one task is RUNNING, and it is the current one. */
  ghost predicate OneRuns(task: seq<Task>, current: Option<Tid>) {
    && current.Some? && current.value < |task|
    && (forall t :: 0 <= t < |task| && task[t].state == Running ==> current == Some(t))
  }

  /** Once its item left the ring, a task blocked by SVC is switched out: its saved R0 is the stacked one. */
  ghost predicate FramesHold(task: seq<Task>, p: seq<Place>, current: Option<Tid>)
    requires |task| == |p|
  {
    forall t :: 0 <= t < |p| && task[t].svcBlocked && !p[t].InRing? ==> current != Some(t)
  }

  /** Every task is on the list of its priority, once; the worker is alone at priority 0. */
  ghost predicate Listing(order: seq<seq<Tid>>, task: seq<Task>, worker: Tid) {
    && |order| == MAX_TASK_PRIORITIES
    && (forall p, t {:trigger t in order[p]} :: 0 <= p < |order| && t in order[p] ==> t < |task| && task[t].prio == p)
    && (forall t :: 0 <= t < |task| ==> task[t].prio < |order| && t in order[task[t].prio])
    && (forall p :: 0 <= p < |order| ==> NoDuplicates(order[p]))
    && order[0] == [worker]
  }

  predicate ListExists(c: Core, l: WaitList) {
    match l
    case SemWaiters(h) => h in c.sem
    case MutexWaiters(h) => h in c.owner
    case Senders(q) => q in c.queue
    case Receivers(q) => q in c.queue
  }

  ghost predicate ListsExist(c: Core) {
    forall l :: l in c.waiters ==> ListExists(c, l)
  }

  predicate IsWorkerPc(pc: Pc) {
    match pc
    case Start | Fetch | Empty => true
    case Dispatch(_) | Complete(_, _) | Sleep(_, _) => true
    case Wake(_, Complete(_, _)) => true
    case _ => false
  }

  /** No lost wakeup: a WAITING worker has an empty ring. When the worker is not WAITING, no other thread runs:
    * it is the current task, or a switch to it is due because the current task is blocked. */
  ghost predicate WorkerHolds(c: Core, pc: Pc, worker: Tid, ph: Phase)
    requires worker < |c.task| && c.IsTask(c.current)
  {
    var k := c.task[worker];
    && IsWorkerPc(pc) && ph == Quiet
    && !k.svcBlocked && Untimed(k) && k.state != Suspended
    && c.kernelTcb == (if pc == Start then None else Some(worker))
    && (k.state == Waiting ==> pc == Fetch && c.ring == [])
    && (pc == Empty || pc == Start ==> c.ring == [])
    && |c.ring| <= 1
    && (k.state == Ready && c.current.Some? && c.current.value != worker ==> c.task[c.current.value].state != Running)
  }

  ghost predicate Struct(m: Machine, ph: seq<Phase>, p: seq<Place>) {
    && Sizes(m, ph, p)
    && RolesHold(m, p)
    && ListsHold(m.core.waiters, p)
    && RingHolds(m.core.ring, p)
    && HandsHold(m.pc, p)
    && WorkHolds(m.pc[m.worker], p)
    && TasksHold(m, ph, p)
    && OneRuns(m.core.task, m.core.current)
    && FramesHold(m.core.task, p, m.core.current)
    && Listing(m.core.order, m.core.task, m.worker)
    && CursorsInLists(m.core.order, m.core.cursor)
    && ListsExist(m.core)
    && WorkerHolds(m.core, m.pc[m.worker], m.worker, ph[m.worker])
  }

  /** The invariant implies that every step is well defined. */
  lemma StructShaped(m: Machine, ph: seq<Phase>, p: seq<Place>)
    requires Struct(m, ph, p)
    ensures Shaped(m)
  {
    assert m.core.IsTask(m.core.current) && m.core.IsTask(m.core.kernelTcb);
    forall l, t | l in m.core.waiters && t in m.core.waiters[l] ensures t < |p| {
      assert t in ListOf(m.core.waiters, l);
    }
    forall t | 0 <= t < |p| ensures PcInPool(m.pc[t], |p|) {
      if t != m.worker {
        assert TaskHolds(m.core.task[t], m.pc[t], p[t], ph[t]);
      }
    }
  }

  /** While another task runs, the worker is asleep with nothing to do. */
  lemma OthersRunOnlyWhenIdle(m: Machine, ph: seq<Phase>, p: seq<Place>)
    requires Struct(m, ph, p)
    requires CurrentRuns(m) && m.core.current != Some(m.worker)
    ensures m.core.task[m.worker].state == Waiting && m.pc[m.worker] == Fetch && m.core.ring == []
  {
  }

  /** `actor` is the running thread and is about to serve `call` for `caller`. */
  ghost predicate Acting(m: Machine, actor: Tid, caller: Tid, call: Call)
    requires |m.pc| == |m.core.task|
  {
    && actor < |m.pc| && caller < |m.pc|
    && m.core.current == Some(actor) && m.core.task[actor].state == Running
    && if actor == m.worker then m.pc[actor] == Dispatch(Item(call, caller)) && caller != actor
       else caller == actor && m.pc[actor] == Enter(call)
  }

  /** `c'` differs from `c` only in counts, owners and queue contents, and has all its objects. */
  ghost predicate SameTasks(c: Core, c': Core) {
    && c' == c.(sem := c'.sem, owner := c'.owner, queue := c'.queue)
    && c.sem.Keys <= c'.sem.Keys && c.owner.Keys <= c'.owner.Keys && c.queue.Keys <= c'.queue.Keys
  }

  lemma CountChanges(c: Core, h: Handle, n: int)
    ensures SameTasks(c, c.(sem := c.sem[h := n]))
  {
  }

  lemma OwnerChanges(c: Core, h: Handle, o: Option<Tid>)
    ensures SameTasks(c, c.(owner := c.owner[h := o]))
  {
  }

  lemma QueueChanges(c: Core, h: Handle, q: Queue)
    ensures SameTasks(c, c.(queue := c.queue[h := q]))
  {
  }

  lemma ListsStillExist(c: Core, c': Core)
    requires ListsExist(c)
    requires c.sem.Keys <= c'.sem.Keys && c.owner.Keys <= c'.owner.Keys && c.queue.Keys <= c'.queue.Keys
    requires forall l :: l in c'.waiters ==> l in c.waiters || ListExists(c', l)
    ensures ListsExist(c')
  {
    forall l | l in c'.waiters ensures ListExists(c', l) {
      if l in c.waiters {
        assert ListExists(c, l);
      }
    }
  }

  /** Facts about the caller of the call being served. */
  lemma ActingPlaces(m: Machine, ph: seq<Phase>, p: seq<Place>, actor: Tid, caller: Tid, call: Call)
    requires Struct(m, ph, p) && Acting(m, actor, caller, call)
    ensures Sizes(m, ph, p)
    ensures p[actor] == Nowhere && caller != m.worker
    ensures p[caller] == if actor == m.worker then AtWorker(m.pc[actor]) else Nowhere
    ensures ph[caller].Pending? && Attempts(call, ph[caller].call)
    ensures actor == m.worker ==> m.core.task[caller].svcBlocked && ph[caller].call == call
    ensures actor != m.worker ==> m.pc[m.worker] == Fetch && m.core.ring == []
  {
    if actor != m.worker {
      OthersRunOnlyWhenIdle(m, ph, p);
    }
    assert TaskHolds(m.core.task[caller], m.pc[caller], p[caller], ph[caller]);
  }

  lemma ListingSame(order: seq<seq<Tid>>, task: seq<Task>, task': seq<Task>, worker: Tid)
    requires Listing(order, task, worker) && |task'| == |task|
    requires forall t :: 0 <= t < |task| ==> task'[t].prio == task[t].prio
    ensures Listing(order, task', worker)
  {
    hide NoDuplicates;
  }

  // ---- One lemma per way in which a step moves tasks between places ----

  function FinishPlaces(m: Machine, p: seq<Place>, actor: Tid, caller: Tid, next: Pc): seq<Place>
    requires caller < |p|
  {
    if actor == m.worker then p[caller := AtWorker(next)] else p
  }

  /** A caller that the worker serves stays with it at the next stage; any other stays where it is. */
  lemma CallerMoves(m: Machine, ph: seq<Phase>, p: seq<Place>, actor: Tid, caller: Tid, call: Call, next: Pc)
    requires Struct(m, ph, p) && Acting(m, actor, caller, call) && (actor == m.worker ==> Subject(next) == Some(caller))
    ensures var p' := FinishPlaces(m, p, actor, caller, next);
      && ListsHold(m.core.waiters, p') && RingHolds(m.core.ring, p') && HandsHold(m.pc, p')
      && WorkHolds(if actor == m.worker then next else m.pc[m.worker], p')
  {
    hide ListsHold, RingHolds, HandsHold, WorkHolds, Listing, CursorsInLists, ListsExist;
    ActingPlaces(m, ph, p, actor, caller, call);
    if actor == m.worker {
      ListsMove(m.core.waiters, p, caller, AtWorker(next));
      RingMove(m.core.ring, p, caller, AtWorker(next));
      HandsMove(m.pc, p, caller, AtWorker(next));
      WorkAdvance(m.pc[actor], p, caller, next, AtWorker(next));
    }
  }

  /** The call is served and the result `r` is settled; nobody has to be woken. */
  lemma FinishKeeps(m: Machine, ph: seq<Phase>, p: seq<Place>, actor: Tid, caller: Tid, call: Call, r: nat, x: Phase, c': Core)
    returns (p': seq<Place>)
    requires Struct(m, ph, p) && Acting(m, actor, caller, call)
    requires SameTasks(m.core, c') && Answers(x, r)
    ensures Struct(m.(core := c', pc := m.pc[actor := Finish(m, actor, caller, r)]), ph[caller := x], p')
  {
    hide ListsHold, RingHolds, HandsHold, WorkHolds, Listing, CursorsInLists, ListsExist;
    ActingPlaces(m, ph, p, actor, caller, call);
    var next := Finish(m, actor, caller, r);
    p' := FinishPlaces(m, p, actor, caller, next);
    ListsStillExist(m.core, c');
    CallerMoves(m, ph, p, actor, caller, call, next);
    HandsAdvance(m.pc, p', actor, next);
  }

  /** The phase of a waiter that is popped from `l`: a semaphore or mutex is transferred to it. */
  function PoppedPhase(ph: Phase, l: WaitList): Phase {
    if (l.SemWaiters? || l.MutexWaiters?) && ph.Pending? then Decided(ph.call, 0) else ph
  }

  /** A waiter that leaves its list and will be woken. */
  lemma PoppedTaskHolds(k: Task, pc: Pc, ph: Phase, l: WaitList, waker: Tid)
    requires TaskHolds(k, pc, Listed(l), ph)
    ensures k.state == Waiting && ph.Pending? && WaitsOn(ph.call, l)
    ensures TaskHolds(Released(k), pc, Handed(waker), PoppedPhase(ph, l))
  {
  }

  /** The caller of a call that was just settled. */
  lemma SettledTaskHolds(m: Machine, ph: seq<Phase>, p: seq<Place>, actor: Tid, caller: Tid, call: Call, r: nat, x: Phase, popped: Option<Tid>)
    requires Struct(m, ph, p) && Acting(m, actor, caller, call) && Answers(x, r)
    ensures var next := WakeFirst(popped, Finish(m, actor, caller, r));
      TaskHolds(m.core.task[caller], m.pc[actor := next][caller], FinishPlaces(m, p, actor, caller, next)[caller], x)
  {
    ActingPlaces(m, ph, p, actor, caller, call);
    assert TaskHolds(m.core.task[caller], m.pc[caller], p[caller], ph[caller]);
  }

  /** The tasks when a call is settled and a waiter of `l` popped. */
  lemma PoppedTasksHold(m: Machine, ph: seq<Phase>, p: seq<Place>, actor: Tid, caller: Tid, call: Call, r: nat, x: Phase, l: WaitList, c': Core)
    returns (w: Tid)
    requires Struct(m, ph, p) && Acting(m, actor, caller, call)
    requires InPool(m.core) && m.core.On(l) != []
    requires SameTasks(PopWaiter(m.core, l).0, c') && Answers(x, r)
    ensures w == m.core.On(l)[0] && w < |ph| && w != caller && w != m.worker && ph[w].Pending? && WaitsOn(ph[w].call, l)
    ensures p[w] == Listed(l) && |c'.task| == |m.core.task|
    ensures var next := Wake(w, Finish(m, actor, caller, r));
      TasksHold(m.(core := c', pc := m.pc[actor := next]), ph[caller := x][w := PoppedPhase(ph[w], l)],
                FinishPlaces(m, p, actor, caller, next)[w := Handed(actor)])
  {
    hide RingHolds, HandsHold, WorkHolds, Listing, CursorsInLists, ListsExist, TaskHolds, WaitsOn, Answers, PoppedPhase,
         InPool, OneRuns, FramesHold, WorkerHolds, NoDuplicates;
    ActingPlaces(m, ph, p, actor, caller, call);
    w := m.core.On(l)[0];
    assert w in m.core.On(l);
    assert TaskHolds(m.core.task[w], m.pc[w], p[w], ph[w]);
    PoppedTaskHolds(m.core.task[w], m.pc[w], ph[w], l, actor);
    SettledTaskHolds(m, ph, p, actor, caller, call, r, x, Some(w));
  }

  /** The call is served and a waiter of `l` was popped, which the same thread wakes next. */
  lemma FinishPopKeeps(m: Machine, ph: seq<Phase>, p: seq<Place>, actor: Tid, caller: Tid, call: Call, r: nat, x: Phase, l: WaitList, c': Core)
    returns (p': seq<Place>, w: Tid)
    requires Struct(m, ph, p) && Acting(m, actor, caller, call)
    requires InPool(m.core) && m.core.On(l) != []
    requires SameTasks(PopWaiter(m.core, l).0, c') && Answers(x, r)
    ensures w == m.core.On(l)[0] && w < |ph| && w != caller && ph[w].Pending? && WaitsOn(ph[w].call, l)
    ensures p[w] == Listed(l)
    ensures Struct(m.(core := c', pc := m.pc[actor := Wake(w, Finish(m, actor, caller, r))]),
                   ph[caller := x][w := PoppedPhase(ph[w], l)], p')
  {
    hide ListsHold, RingHolds, HandsHold, WorkHolds, Listing, CursorsInLists, ListsExist, TaskHolds, TasksHold, WaitsOn,
         Answers, PoppedPhase, InPool;
    ActingPlaces(m, ph, p, actor, caller, call);
    w := PoppedTasksHold(m, ph, p, actor, caller, call, r, x, l, c');
    var next := Wake(w, Finish(m, actor, caller, r));
    var p1 := FinishPlaces(m, p, actor, caller, next);
    ListsStillExist(m.core, c');
    CallerMoves(m, ph, p, actor, caller, call, next);
    ListsPop(m.core.waiters, p1, l, Handed(actor));
    ListingSame(m.core.order, m.core.task, c'.task, m.worker);
    p' := p1[w := Handed(actor)];
    RingMove(m.core.ring, p1, w, Handed(actor));
    HandsTake(m.pc, p1, actor, w, Finish(m, actor, caller, r));
    WorkMove(if actor == m.worker then next else m.pc[m.worker], p1, w, Handed(actor));
  }

  /** A caller that has to wait on `l`. */
  lemma BlockedTaskHolds(k: Task, pc: Pc, pl: Place, ph: Phase, call: Call, caller: Tid, l: WaitList, self: bool)
    requires TaskHolds(k, pc, pl, ph) && WaitsOn(call, l) && Timeout(call) != 0
    requires if self then pl == Nowhere && pc == Enter(call)
             else pl == AtWorker(Dispatch(Item(call, caller))) && (l.SemWaiters? || l.MutexWaiters?)
    ensures ph == Pending(call)
    ensures TaskHolds(Parked(Halted(k, self), l, Timeout(call)), if self then Resume(call) else pc, Listed(l), ph)
  {
  }

  /** The call has to wait: its caller joins `l`. */
  lemma BlockKeeps(m: Machine, ph: seq<Phase>, p: seq<Place>, actor: Tid, caller: Tid, call: Call, l: WaitList)
    returns (p': seq<Place>)
    requires Struct(m, ph, p) && Acting(m, actor, caller, call)
    requires ListExists(m.core, l) && WaitsOn(call, l) && Timeout(call) != 0
    requires actor == m.worker ==> l.SemWaiters? || l.MutexWaiters?
    ensures ph[caller] == Pending(call)
    ensures Struct(m.(core := Block(m.core, caller, l, Timeout(call), actor != m.worker),
                      pc := m.pc[actor := if actor == m.worker then Fetch else Resume(call)]), ph, p')
  {
    hide ListsHold, RingHolds, HandsHold, WorkHolds, Listing, CursorsInLists, ListsExist, TaskHolds, WaitsOn;
    ActingPlaces(m, ph, p, actor, caller, call);
    p' := p[caller := Listed(l)];
    var next := if actor == m.worker then Fetch else Resume(call);
    var c' := Block(m.core, caller, l, Timeout(call), actor != m.worker);
    ListsStillExist(m.core, c');
    ListingSame(m.core.order, m.core.task, c'.task, m.worker);
    ListsJoin(m.core.waiters, p, l, caller);
    RingMove(m.core.ring, p, caller, Listed(l));
    HandsMove(m.pc, p, caller, Listed(l));
    HandsAdvance(m.pc, p', actor, next);
    if actor == m.worker {
      WorkAdvance(m.pc[actor], p, caller, next, Listed(l));
    } else {
      WorkMove(m.pc[m.worker], p, caller, Listed(l));
    }
    assert TaskHolds(m.core.task[caller], m.pc[caller], p[caller], ph[caller]);
    BlockedTaskHolds(m.core.task[caller], m.pc[caller], p[caller], ph[caller], call, caller, l, actor != m.worker);
  }
}
