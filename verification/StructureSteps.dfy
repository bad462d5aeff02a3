/** The remaining ways in which a step moves tasks between places: delays, wake-ups, SVC entry,
  * the worker's loop, ticks and context switches. */
module StructureSteps {
  import opened Base
  import opened Selection
  import opened CoreState
  import opened Transitions
  import opened Ledgers
  import opened Places
  import opened Structure

  /** A task goes on without moving anyone. */
  lemma LocalKeeps(m: Machine, ph: seq<Phase>, p: seq<Place>, t: Tid, k: Task, next: Pc, x: Phase)
    requires Struct(m, ph, p) && Executes(m, t) && t != m.worker && !m.pc[t].Wake? && !next.Wake?
    requires t != m.idle && k.state == Running && k.prio == m.core.task[t].prio && TaskHolds(k, next, Nowhere, x)
    ensures Struct(m.(core := m.core.Set(t, k), pc := m.pc[t := next]), ph[t := x], p)
  {
    hide ListsHold, RingHolds, HandsHold, WorkHolds, Listing, CursorsInLists, AwakeAt;
    assert p[t] == Nowhere by {
      assert TaskHolds(m.core.task[t], m.pc[t], p[t], ph[t]);
    }
    ListingSame(m.core.order, m.core.task, m.core.task[t := k], m.worker);
    HandsAdvance(m.pc, p, t, next);
  }

  /** A privileged task puts itself to sleep. */
  lemma SelfSleepKeeps(m: Machine, ph: seq<Phase>, p: seq<Place>, t: Tid, n: nat)
    requires Struct(m, ph, p) && Executes(m, t) && t != m.worker && m.pc[t] == Enter(Delay(n)) && n > 0
    ensures t < |ph| && Struct(m.(core := SleepTask(m.core, t, n), pc := m.pc[t := Return(0)]), ph[t := Decided(Delay(n), 0)], p[t := Sleeping])
  {
    hide ListsHold, RingHolds, HandsHold, WorkHolds, Listing, CursorsInLists;
    assert TaskHolds(m.core.task[t], m.pc[t], p[t], ph[t]);
    ListingSame(m.core.order, m.core.task, SleepTask(m.core, t, n).task, m.worker);
    HandsAdvance(m.pc, p, t, Return(0));
    ListsMove(m.core.waiters, p, t, Sleeping);
    RingMove(m.core.ring, p, t, Sleeping);
    HandsMove(m.pc[t := Return(0)], p, t, Sleeping);
    WorkMove(m.pc[m.worker], p, t, Sleeping);
  }

  /** The worker moves on with the task it serves, whose fields may change. */
  lemma StageKeeps(m: Machine, ph: seq<Phase>, p: seq<Place>, t: Tid, k: Task, next: Pc, x: Phase, pl: Place)
    requires Struct(m, ph, p) && Executes(m, m.worker) && Subject(m.pc[m.worker]) == Some(t)
    requires !m.pc[m.worker].Wake? && !next.Wake? && IsWorkerPc(next) && !next.Start? && !next.Empty?
    requires k.state != Running && k.prio == m.core.task[t].prio
    requires !pl.Listed? && !pl.InRing? && !pl.Handed?
    requires if Subject(next) == Some(t) then pl == AtWorker(next) else Subject(next) == None && !pl.AtWorker?
    requires TaskHolds(k, User, pl, x)
    ensures t < |p| && p[t] == AtWorker(m.pc[m.worker]) && t != m.worker && t != m.idle
    ensures Struct(m.(core := m.core.Set(t, k), pc := m.pc[m.worker := next]), ph[t := x], p[t := pl])
  {
    hide ListsHold, RingHolds, HandsHold, Listing, CursorsInLists, Served, Answers;
    var w := m.worker;
    assert TaskHolds(m.core.task[t], m.pc[t], p[t], ph[t]);
    ListingSame(m.core.order, m.core.task, m.core.task[t := k], w);
    HandsAdvance(m.pc, p, w, next);
    ListsMove(m.core.waiters, p, t, pl);
    RingMove(m.core.ring, p, t, pl);
    HandsMove(m.pc[w := next], p, t, pl);
    WorkAdvance(m.pc[w], p, t, next, pl);
  }

  /** The task that waits to be woken by the running thread `a`. */
  lemma HandedHere(m: Machine, ph: seq<Phase>, p: seq<Place>, a: Tid)
    requires Struct(m, ph, p) && a < |m.pc| && m.pc[a].Wake?
    ensures var w := m.pc[a].waiter;
      && w < |p| && p[w] == Handed(a) && w != m.worker && w != m.idle && w != a
      && TaskHolds(m.core.task[w], m.pc[w], Handed(a), ph[w])
    ensures !m.pc[a].next.Wake?
    ensures a != m.worker ==> m.pc[a].next.Return? && Answers(ph[a], m.pc[a].next.result)
  {
    var w := m.pc[a].waiter;
    assert TaskHolds(m.core.task[w], m.pc[w], p[w], ph[w]);
    if a != m.worker {
      assert TaskHolds(m.core.task[a], m.pc[a], p[a], ph[a]);
    }
  }

  function WokenPhase(k: Task, ph: Phase): Phase {
    if k.svcBlocked then Quiet else ph
  }

  /** A popped task is woken by a task that is not the worker. */
  lemma WakeKeeps(m: Machine, ph: seq<Phase>, p: seq<Place>, a: Tid)
    requires Struct(m, ph, p) && Executes(m, a) && a != m.worker && m.pc[a].Wake?
    ensures var w := m.pc[a].waiter;
      && w < |p|
      && Struct(m.(core := WakeTask(m.core, w, 0), pc := m.pc[a := m.pc[a].next]), ph[w := WokenPhase(m.core.task[w], ph[w])], p[w := Nowhere])
  {
    hide ListsHold, RingHolds, HandsHold, WorkHolds, Listing, CursorsInLists, Answers;
    HandedHere(m, ph, p, a);
    var w, next := m.pc[a].waiter, m.pc[a].next;
    assert TaskHolds(m.core.task[a], m.pc[a], p[a], ph[a]);
    ListingSame(m.core.order, m.core.task, WakeTask(m.core, w, 0).task, m.worker);
    HandsGive(m.pc, p, a, next, Nowhere);
    ListsMove(m.core.waiters, p, w, Nowhere);
    RingMove(m.core.ring, p, w, Nowhere);
    WorkMove(m.pc[m.worker], p, w, Nowhere);
  }

  /** A popped task is woken by the worker, which then completes the call it serves. */
  lemma WorkerWakeKeeps(m: Machine, ph: seq<Phase>, p: seq<Place>)
    requires Struct(m, ph, p) && Executes(m, m.worker) && m.pc[m.worker].Wake?
    ensures var a := m.worker;
      var w, next := m.pc[a].waiter, m.pc[a].next;
      && w < |p| && next.Complete? && next.caller < |p|
      && Struct(m.(core := WakeTask(m.core, w, 0), pc := m.pc[a := next]), ph[w := WokenPhase(m.core.task[w], ph[w])],
                p[w := Nowhere][next.caller := AtWorker(next)])
  {
    hide ListsHold, RingHolds, HandsHold, Listing, CursorsInLists, Answers;
    var a := m.worker;
    HandedHere(m, ph, p, a);
    var w, next := m.pc[a].waiter, m.pc[a].next;
    var t := next.caller;
    assert TaskHolds(m.core.task[t], m.pc[t], p[t], ph[t]);
    ListingSame(m.core.order, m.core.task, WakeTask(m.core, w, 0).task, m.worker);
    var p1 := p[w := Nowhere];
    HandsGive(m.pc, p, a, next, Nowhere);
    ListsMove(m.core.waiters, p, w, Nowhere);
    RingMove(m.core.ring, p, w, Nowhere);
    WorkMove(m.pc[a], p, w, Nowhere);
    HandsMove(m.pc[a := next], p1, t, AtWorker(next));
    ListsMove(m.core.waiters, p1, t, AtWorker(next));
    RingMove(m.core.ring, p1, t, AtWorker(next));
    WorkAdvance(m.pc[a], p1, t, next, AtWorker(next));
  }

  /** The worker records its TCB, finds the ring empty, or goes to sleep. */
  lemma IdleWorkerKeeps(m: Machine, ph: seq<Phase>, p: seq<Place>)
    requires Struct(m, ph, p) && Executes(m, m.worker)
    requires m.pc[m.worker].Start? || m.pc[m.worker].Empty? || (m.pc[m.worker].Fetch? && m.core.ring == [])
    ensures Shaped(m) && Struct(Advance(m, m.worker, None).m, ph, p)
  {
    StructShaped(m, ph, p);
    hide ListsHold, RingHolds, HandsHold, Listing, CursorsInLists, TaskHolds;
    var w := m.worker;
    var m' := Advance(m, w, None).m;
    ListingSame(m.core.order, m.core.task, m'.core.task, w);
    HandsAdvance(m.pc, p, w, m'.pc[w]);
  }

  /** The worker takes the oldest item. */
  lemma FetchKeeps(m: Machine, ph: seq<Phase>, p: seq<Place>)
    requires Struct(m, ph, p) && Executes(m, m.worker) && m.pc[m.worker].Fetch? && m.core.ring != []
    ensures Shaped(m) && m.core.ring[0].caller < |p|
      && Struct(Advance(m, m.worker, None).m, ph, p[m.core.ring[0].caller := AtWorker(Dispatch(m.core.ring[0]))])
  {
    hide ListsHold, RingHolds, HandsHold, Listing, CursorsInLists;
    StructShaped(m, ph, p);
    var w, item := m.worker, m.core.ring[0];
    var t, next := item.caller, Dispatch(item);
    RingPop(m.core.ring, p, AtWorker(next));
    assert TaskHolds(m.core.task[t], m.pc[t], p[t], ph[t]);
    ListsMove(m.core.waiters, p, t, AtWorker(next));
    HandsAdvance(m.pc, p, w, next);
    HandsMove(m.pc[w := next], p, t, AtWorker(next));
  }

  /** A trap: the item always fits, the worker is made READY and the caller waits in the ring. */
  lemma TrapKeeps(m: Machine, ph: seq<Phase>, p: seq<Place>, t: Tid, call: Call)
    requires Struct(m, ph, p) && Executes(m, t) && t != m.worker && m.pc[t] == User && t != m.idle
    ensures m.core.IsTask(m.core.kernelTcb) && SvcEntry(m.core, call).1
    ensures Struct(m.(core := SvcEntry(m.core, call).0), ph[t := Pending(call)], p[t := InRing(call)])
  {
    hide ListsHold, RingHolds, HandsHold, WorkHolds, Listing, CursorsInLists;
    RingHasRoom(m.core.ring, p);
    OthersRunOnlyWhenIdle(m, ph, p);
    assert TaskHolds(m.core.task[t], m.pc[t], p[t], ph[t]);
    ListingSame(m.core.order, m.core.task, SvcEntry(m.core, call).0.task, m.worker);
    ListsMove(m.core.waiters, p, t, InRing(call));
    RingPush(m.core.ring, p, Item(call, t));
    HandsMove(m.pc, p, t, InRing(call));
    WorkMove(m.pc[m.worker], p, t, InRing(call));
  }

  // ---- Ticks ----

  function AgedPhase(k: Task, ph: Phase): Phase {
    if Expires(k) && ph.Pending? then
      if k.svcBlocked then Quiet else Decided(ph.call, FAIL)
    else ph
  }

  predicate WakesOnTick(k: Task) {
    Expires(k) || (Sleeps(k) && k.delay == 1)
  }

  function AgedPlace(k: Task, pl: Place): Place {
    if WakesOnTick(k) then Nowhere else pl
  }

  lemma AgedTaskHolds(k: Task, pc: Pc, pl: Place, ph: Phase)
    requires TaskHolds(k, pc, pl, ph)
    ensures TaskHolds(Aged(k), pc, AgedPlace(k, pl), AgedPhase(k, ph))
    ensures Expires(k) ==> pl.Listed? && ph.Pending? && IsTimed(ph.call)
    ensures WakesOnTick(k) && !Expires(k) ==> pl == Sleeping
  {
  }

  function AgedPlaces(task: seq<Task>, p: seq<Place>): (r: seq<Place>)
    requires |task| == |p|
  {
    seq(|p|, t requires 0 <= t < |p| => AgedPlace(task[t], p[t]))
  }

  function AgedPhases(task: seq<Task>, ph: seq<Phase>): seq<Phase>
    requires |task| == |ph|
  {
    seq(|ph|, t requires 0 <= t < |ph| => AgedPhase(task[t], ph[t]))
  }

  /** Tasks leave their lists; all others keep their places. */
  lemma ListsExpire(ws: map<WaitList, seq<Tid>>, p: seq<Place>, gone: set<Tid>, p': seq<Place>)
    requires ListsHold(ws, p) && |p'| == |p|
    requires forall t :: t in gone ==> t < |p| && p'[t] == Nowhere
    requires forall t :: 0 <= t < |p| && t !in gone ==> p'[t] == p[t] || (!p[t].Listed? && !p'[t].Listed?)
    ensures ListsHold(map l | l in ws :: Without(ws[l], gone), p')
  {
    var ws' := map l | l in ws :: Without(ws[l], gone);
    forall k, u {:trigger u in ListOf(ws', k)} | u in ListOf(ws', k) ensures u < |p'| && p'[u] == Listed(k) {
      assert u in ListOf(ws, k);
    }
    forall u | 0 <= u < |p'| && p'[u].Listed? ensures u in ListOf(ws', p'[u].l) {
      assert u in ListOf(ws, p[u].l);
    }
    forall k ensures NoDuplicates(ListOf(ws', k)) {
      assert NoDuplicates(ListOf(ws, k));
      if k in ws {
        WithoutNoDuplicates(ws[k], gone);
      }
    }
  }

  /** Under the invariant a tick ages every task. */
  lemma TickAges(m: Machine, ph: seq<Phase>, p: seq<Place>)
    requires Struct(m, ph, p)
    ensures |Tick(m.core).task| == |m.core.task|
    ensures forall t :: 0 <= t < |p| ==> Tick(m.core).task[t] == Aged(m.core.task[t])
    ensures forall t :: t in Expiring(m.core) <==> 0 <= t < |p| && Expires(m.core.task[t])
  {
    assert forall t :: 0 <= t < |p| ==> Enlisted(m.core, t);
  }

  /** Waiters and sleepers that leave their place do not disturb the other places. */
  lemma LinksAfterTick(m: Machine, p: seq<Place>, p': seq<Place>)
    requires RingHolds(m.core.ring, p) && HandsHold(m.pc, p) && m.worker < |m.pc| && WorkHolds(m.pc[m.worker], p)
    requires |p'| == |p|
    requires forall t :: 0 <= t < |p| ==> p'[t] == p[t] || ((p[t].Listed? || p[t] == Sleeping) && p'[t] == Nowhere)
    ensures RingHolds(m.core.ring, p') && HandsHold(m.pc, p') && WorkHolds(m.pc[m.worker], p')
  {
  }

  /** Each task after a tick, in its new place and phase. */
  lemma TasksAfterTick(m: Machine, ph: seq<Phase>, p: seq<Place>)
    requires Struct(m, ph, p)
    ensures var p', ph' := AgedPlaces(m.core.task, p), AgedPhases(m.core.task, ph);
      && (forall t :: 0 <= t < |p| ==> p'[t] == p[t] || ((p[t].Listed? || p[t] == Sleeping) && p'[t] == Nowhere))
      && (forall t :: 0 <= t < |p| && Expires(m.core.task[t]) ==> p[t].Listed? && p'[t] == Nowhere)
      && (forall t :: 0 <= t < |p| && p[t].Listed? && !Expires(m.core.task[t]) ==> p'[t] == p[t])
      && (forall t :: 0 <= t < |p| && t != m.worker ==> TaskHolds(Aged(m.core.task[t]), m.pc[t], p'[t], ph'[t]))
  {
    hide ListsHold, RingHolds, HandsHold, WorkHolds, Listing, CursorsInLists, ListsExist, TaskHolds;
    forall t | 0 <= t < |p| && t != m.worker
      ensures TaskHolds(Aged(m.core.task[t]), m.pc[t], AgedPlace(m.core.task[t], p[t]), AgedPhase(m.core.task[t], ph[t]))
      ensures Expires(m.core.task[t]) ==> p[t].Listed?
      ensures WakesOnTick(m.core.task[t]) ==> p[t].Listed? || p[t] == Sleeping
      ensures p[t].Listed? && WakesOnTick(m.core.task[t]) ==> Expires(m.core.task[t])
    {
      assert TaskHolds(m.core.task[t], m.pc[t], p[t], ph[t]);
      AgedTaskHolds(m.core.task[t], m.pc[t], p[t], ph[t]);
    }
  }

  /** States and frames after a tick: nobody starts to run. */
  lemma StatesAfterTick(task: seq<Task>, task': seq<Task>, p: seq<Place>, p': seq<Place>, current: Option<Tid>)
    requires |task'| == |task| == |p| == |p'|
    requires forall t :: 0 <= t < |p| ==> task'[t] == Aged(task[t]) && (p[t].InRing? ==> p'[t] == p[t])
    requires OneRuns(task, current) && FramesHold(task, p, current)
    ensures OneRuns(task', current) && FramesHold(task', p', current)
  {
  }

  lemma TickKeeps(m: Machine, ph: seq<Phase>, p: seq<Place>)
    requires Struct(m, ph, p)
    ensures Struct(m.(core := Tick(m.core)), AgedPhases(m.core.task, ph), AgedPlaces(m.core.task, p))
  {
    hide ListsHold, RingHolds, HandsHold, WorkHolds, Listing, CursorsInLists, ListsExist, OneRuns, FramesHold, TaskHolds;
    TickAges(m, ph, p);
    TasksAfterTick(m, ph, p);
    TickParts(m.core);
    hide Tick, Expiring;
    var task, c' := m.core.task, Tick(m.core);
    var p' := AgedPlaces(task, p);
    LinksAfterTick(m, p, p');
    StatesAfterTick(task, c'.task, p, p', m.core.current);
    ListingSame(m.core.order, task, c'.task, m.worker);
    ListsExpire(m.core.waiters, p, Expiring(m.core), p');
    ListsStillExist(m.core, c');
  }

  lemma TickParts(c: Core)
    ensures Tick(c) == c.(task := Tick(c).task, waiters := map l | l in c.waiters :: Without(c.waiters[l], Expiring(c)))
  {
  }

  // ---- Context switches ----

  /** A switch always finds a READY task: at least the idle task. The chosen task is READY, has the
    * smallest priority number of all READY tasks, and is the worker whenever the worker is READY. */
  lemma SwitchChooses(m: Machine, ph: seq<Phase>, p: seq<Place>) returns (task: seq<Task>, n: Tid)
    requires Struct(m, ph, p)
    ensures m.core.current.Some? && m.core.current.value < |p|
    ensures Shaped(m) && task == m.core.task[m.core.current.value := Preempted(m.core.task[m.core.current.value])]
    ensures n < |p| && task[n].state == Ready
    ensures var c' := SwitchContext(m.core);
      && c' == m.core.(task := task[n := task[n].(state := Running)], current := Some(n), cursor := c'.cursor)
      && CursorsInLists(m.core.order, c'.cursor)
    ensures forall t :: 0 <= t < |p| && task[t].state == Ready ==> task[n].prio <= task[t].prio
    ensures task[m.worker].state == Ready ==> n == m.worker
  {
    hide ListsHold, RingHolds, HandsHold, WorkHolds, Shaped, Rotation, First;
    StructShaped(m, ph, p);
    var cur := m.core.current.value;
    task := m.core.task[cur := Preempted(m.core.task[cur])];
    var ready := ReadySet(task);
    var q := SelectIsStrictPriority(m.core.order, m.core.cursor, ready, 0);
    assert m.idle in ready by {
      assert TaskHolds(m.core.task[m.idle], m.pc[m.idle], p[m.idle], ph[m.idle]);
    }
    assert m.idle in m.core.order[m.core.task[m.idle].prio];
    n := Select(m.core.order, m.core.cursor, ready, 0).task;
    assert n in m.core.order[q];
    forall t | 0 <= t < |p| && task[t].state == Ready ensures task[n].prio <= task[t].prio {
      assert t in ready && t in m.core.order[m.core.task[t].prio];
    }
    if task[m.worker].state == Ready {
      assert m.worker in ready && m.worker in m.core.order[0];
    }
  }

  /** READY and RUNNING are interchangeable as far as places are concerned. */
  lemma TaskHoldsAwake(k: Task, s: TaskState, pc: Pc, pl: Place, ph: Phase)
    requires TaskHolds(k, pc, pl, ph)
    requires (k.state == Ready || k.state == Running) && (s == Ready || s == Running)
    ensures pl == Nowhere && !k.svcBlocked && TaskHolds(k.(state := s), pc, pl, ph)
  {
  }

  lemma OneRunsNext(task: seq<Task>, cur: Tid, n: Tid)
    requires OneRuns(task, Some(cur)) && n < |task|
    ensures var task' := task[cur := Preempted(task[cur])];
      OneRuns(task'[n := task'[n].(state := Running)], Some(n))
  {
  }

  /** The tasks around a switch from `cur` to the READY task `n`. */
  lemma SwitchTasks(m: Machine, ph: seq<Phase>, p: seq<Place>, task: seq<Task>, n: Tid, c': Core)
    requires Struct(m, ph, p)
    requires var cur := m.core.current.value; task == m.core.task[cur := Preempted(m.core.task[cur])]
    requires n < |p| && task[n].state == Ready
    requires c' == m.core.(task := task[n := task[n].(state := Running)], current := Some(n), cursor := c'.cursor)
    requires task[m.worker].state == Ready ==> n == m.worker
    ensures TasksHold(m.(core := c'), ph, p) && FramesHold(c'.task, p, c'.current)
    ensures WorkerHolds(c', m.pc[m.worker], m.worker, ph[m.worker])
  {
    hide ListsHold, RingHolds, HandsHold, WorkHolds, Listing, CursorsInLists, TaskHolds;
    var cur := m.core.current.value;
    var task' := c'.task;
    forall t | 0 <= t < |p| && t != m.worker
      ensures TaskHolds(task'[t], m.pc[t], p[t], ph[t])
      ensures t == n ==> !task[t].svcBlocked
    {
      assert TaskHolds(m.core.task[t], m.pc[t], p[t], ph[t]);
      if t == n || (t == cur && m.core.task[t].state == Running) {
        TaskHoldsAwake(m.core.task[t], task'[t].state, m.pc[t], p[t], ph[t]);
      }
    }
  }

  lemma SwitchKeeps(m: Machine, ph: seq<Phase>, p: seq<Place>)
    requires Struct(m, ph, p)
    ensures Shaped(m) && Struct(m.(core := SwitchContext(m.core)), ph, p)
  {
    hide ListsHold, RingHolds, HandsHold, WorkHolds, Listing, CursorsInLists, ListsExist, OneRuns, FramesHold, TasksHold, WorkerHolds, SwitchContext;
    var task, n := SwitchChooses(m, ph, p);
    var c' := SwitchContext(m.core);
    OneRunsNext(m.core.task, m.core.current.value, n);
    SwitchTasks(m, ph, p, task, n, c');
    ListsStillExist(m.core, c');
    ListingSame(m.core.order, m.core.task, c'.task, m.worker);
  }

  // ---- A give from an interrupt handler ----

  lemma IsrWakeKeeps(m: Machine, ph: seq<Phase>, p: seq<Place>, h: Handle)
    requires Struct(m, ph, p) && InPool(m.core) && h in m.core.sem
    requires m.core.On(SemWaiters(h)) != []
    ensures var l := SemWaiters(h);
      var w := m.core.On(l)[0];
      && w < |p| && p[w] == Listed(l) && ph[w].Pending? && WaitsOn(ph[w].call, l)
      && Struct(m.(core := WakeTask(PopWaiter(m.core, l).0, w, 0)),
                ph[w := WokenPhase(m.core.task[w], PoppedPhase(ph[w], l))], p[w := Nowhere])
  {
    hide ListsHold, RingHolds, HandsHold, WorkHolds, Listing, CursorsInLists;
    var l := SemWaiters(h);
    ListsPop(m.core.waiters, p, l, Nowhere);
    var w := m.core.On(l)[0];
    assert TaskHolds(m.core.task[w], m.pc[w], p[w], ph[w]);
    ListingSame(m.core.order, m.core.task, WakeTask(PopWaiter(m.core, l).0, w, 0).task, m.worker);
    RingMove(m.core.ring, p, w, Nowhere);
    HandsMove(m.pc, p, w, Nowhere);
    WorkMove(m.pc[m.worker], p, w, Nowhere);
  }
}
