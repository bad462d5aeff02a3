/** Runs of concrete systems in which a natural expectation fails. */
module Witnesses {
  import opened Base
  import opened Selection
  import opened CoreState
  import opened Transitions
  import opened Runs
  import opened Outcomes
  import Fairness
  import Ledgers
  import Sweep
  import Timers

  /** The first `k` of the events lead from `m` to `m'`, and return nothing to task `t`. */
  ghost predicate Leads(m: Machine, es: seq<Event>, k: nat, m': Machine, t: Tid) {
    k <= |es| && Runnable(m, es[..k]) && Play(m, es[..k]).m == m' && NothingReturned(Play(m, es[..k]).obs, t)
  }

  lemma Starts(m: Machine, es: seq<Event>, t: Tid)
    ensures Leads(m, es, 0, m, t)
  {
    assert es[..0] == [];
  }

  lemma Then(m: Machine, es: seq<Event>, k: nat, m': Machine, t: Tid, out: Out)
    requires Leads(m, es, k, m', t) && k < |es| && Shaped(m') && Enabled(m', es[k]) && Step(m', es[k]) == out
    requires NothingReturned(out.obs, t)
    ensures Leads(m, es, k + 1, out.m, t)
  {
    hide Shaped, Enabled, Step, Runnable, Play;
    PlayOneMore(m, es[..k], es[k]);
    assert es[..k] + [es[k]] == es[..k + 1];
  }

  /** What a run from boot leads to is well formed. */
  lemma LeadsToShaped(m: Machine, es: seq<Event>, k: nat, m': Machine, t: Tid)
    requires Boot(m) && Leads(m, es, k, m', t)
    ensures Shaped(m')
  {
    hide Boot, Runnable, Play, Shaped;
    EveryStepIsDefined(m, es[..k]);
  }

  // ---- Without an idle task a blocked task goes on running ----

  /** The worker without any other task. */
  function LoneWorker(): Machine {
    Machine(
      Core([Task(Running, 0, false, false, 0, None, 0)], Some(0), [[0], [], [], [], [], [], [], []],
           [Some(0), None, None, None, None, None, None, None], [], None, map[], map[], map[], map[]),
      [Start], 0, 1)
  }

  /** The worker records itself, finds the ring empty and blocks. */
  const WORKER_BLOCKS: seq<Event> := [Continue(None), Continue(None), Continue(None)]

  /** Without an idle task the switch that follows makes the worker RUNNING although it is WAITING. */
  lemma WaitingTaskRunsWithoutIdle() returns (blocked: Machine)
    ensures Runnable(LoneWorker(), WORKER_BLOCKS) && blocked == Play(LoneWorker(), WORKER_BLOCKS).m
    ensures Shaped(blocked) && blocked.core.current == Some(0) && |blocked.core.task| == 1 && blocked.core.task[0].state == Waiting
    ensures Step(blocked, PendSV).m.core.task == [blocked.core.task[0].(state := Running)]
  {
    hide Leads, SwitchContext, Runnable, Play;
    var m0 := LoneWorker();
    var m1 := m0.(core := m0.core.(kernelTcb := Some(0)), pc := m0.pc[0 := Fetch]);
    var m2 := m1.(pc := m1.pc[0 := Empty]);
    blocked := m2.(core := m2.core.Set(0, m2.core.task[0].(state := Waiting)), pc := m2.pc[0 := Fetch]);
    Starts(m0, WORKER_BLOCKS, 1);
    Then(m0, WORKER_BLOCKS, 0, m0, 1, Out(m1, []));
    Then(m0, WORKER_BLOCKS, 1, m1, 1, Out(m2, []));
    Then(m0, WORKER_BLOCKS, 2, m2, 1, Out(blocked, []));
    LeadsAll(m0, WORKER_BLOCKS, blocked, 1);
    Fairness.SwitchStep(blocked);
    SwitchAlone(blocked.core);
  }

  lemma LeadsAll(m: Machine, es: seq<Event>, m': Machine, t: Tid)
    requires Leads(m, es, |es|, m', t)
    ensures Runnable(m, es) && Play(m, es).m == m' && NothingReturned(Play(m, es).obs, t)
  {
    assert es[..|es|] == es;
  }

  lemma SwitchAlone(c: Core)
    requires |c.task| == 1 && c.current == Some(0) && c.task[0].state == Waiting
    requires SwitchContext.requires(c)
    ensures SwitchContext(c).task == [c.task[0].(state := Running)]
  {
    SwitchResumesBlockedIffNothingReady(c);
    var q := SelectIsStrictPriority(c.order, c.cursor, ReadySet(PreemptedTasks(c)), 0);
  }

  // ---- The system of src/main.c ----

  const ORDER: seq<seq<Tid>> := [[0], [1], [2], [3], [], [], [], [4]]

  /** A task that was never called by SVC. */
  function Tcb(state: TaskState, prio: nat): Task {
    Task(state, prio, false, false, 0, None, 0)
  }

  /** The tasks: worker, producer, consumer, probe and idle; only the first three ever run here. */
  function Tasks(w: Task, a: Task, b: Task): seq<Task> {
    [w, a, b, Tcb(Ready, 3), Tcb(Ready, 7)]
  }

  function Pcs(w: Pc, a: Pc, b: Pc): seq<Pc> {
    [w, a, b, User, User]
  }

  lemma FiveUpdates<T>(a: T, b: T, c: T, d: T, e: T, x: T)
    ensures [a, b, c, d, e][0 := x] == [x, b, c, d, e] && [a, b, c, d, e][1 := x] == [a, x, c, d, e] && [a, b, c, d, e][2 := x] == [a, b, x, d, e]
  {
  }

  lemma Updates(w: Task, a: Task, b: Task, x: Task, pw: Pc, pa: Pc, pb: Pc, y: Pc)
    ensures Tasks(w, a, b)[0 := x] == Tasks(x, a, b) && Tasks(w, a, b)[1 := x] == Tasks(w, x, b) && Tasks(w, a, b)[2 := x] == Tasks(w, a, x)
    ensures Pcs(pw, pa, pb)[0 := y] == Pcs(y, pa, pb) && Pcs(pw, pa, pb)[1 := y] == Pcs(pw, y, pb) && Pcs(pw, pa, pb)[2 := y] == Pcs(pw, pa, y)
  {
    hide Tcb;
    FiveUpdates(w, a, b, Tcb(Ready, 3), Tcb(Ready, 7), x);
    FiveUpdates(pw, pa, pb, User, User, y);
  }

  /** Level `q`, which holds task `n` alone, is the first with a READY task: the switch runs `n`. */
  lemma SwitchTo(c: Core, n: Tid, q: nat)
    requires SwitchContext.requires(c) && c.order == ORDER && q < |ORDER| && ORDER[q] == [n] && n < |c.task|
    requires PreemptedTasks(c)[n].state == Ready
    requires forall h, t {:trigger t in ORDER[h]} :: 0 <= h < q && t in ORDER[h] ==> t < |c.task| && PreemptedTasks(c)[t].state != Ready
    ensures |c.cursor| == |ORDER|
    ensures SwitchContext(c)
      == c.(task := PreemptedTasks(c)[n := PreemptedTasks(c)[n].(state := Running)], current := Some(n), cursor := c.cursor[q := Some(n)])
  {
    hide TopLevel, Select, Rotation, First;
    var ready := ReadySet(PreemptedTasks(c));
    TopIs(c.order, ready, q, n);
    var i := SelectAtLevel(c.order, c.cursor, ready, 0, q);
    OnlyOne(n, c.cursor[q], ready);
  }

  lemma TopIs(order: seq<seq<Tid>>, ready: set<Tid>, q: nat, n: Tid)
    requires q < |order| && n in order[q] && n in ready
    requires forall h, t {:trigger t in order[h]} :: 0 <= h < q && t in order[h] ==> t !in ready
    ensures TopLevel(order, ready, 0, q)
  {
  }

  lemma OnlyOne(n: Tid, cursor: Option<Tid>, ready: set<Tid>)
    requires CursorInList([n], cursor) && n in ready
    ensures Rotation([n], cursor) == [n] && First([n], ready) == Some(0) && NextAfter([n], 0) == n
  {
  }

  /** A state of the demo system: the tasks that matter, their program counters, the queues and their wait lists. */
  function Sys(current: Tid, w: Task, a: Task, b: Task, pcs: seq<Pc>, cursor: seq<Option<Tid>>, queue: map<Handle, Queue>,
               waiters: map<WaitList, seq<Tid>>): Machine
  {
    Machine(Core(Tasks(w, a, b), Some(current), ORDER, cursor, [], Some(0), map[], map[], queue, waiters), pcs, 0, 4)
  }

  const SLEEPING_WORKER := Tcb(Waiting, 0)
  const CURSOR: seq<Option<Tid>> := [Some(0), None, None, None, None, None, None, None]

  /** One more event of a run of the demo system that returns nothing to task 2. */
  lemma Next(es: seq<Event>, k: nat, m: Machine, out: Out)
    requires Leads(MainSystem(), es, k, m, 2) && k < |es|
    requires Shaped(m) ==> Enabled(m, es[k]) && Step(m, es[k]) == out && NothingReturned(out.obs, 2)
    ensures Leads(MainSystem(), es, k + 1, out.m, 2)
  {
    hide Leads, Shaped, Enabled, Step;
    MainSystemBoots();
    LeadsToShaped(MainSystem(), es, k, m, 2);
    Then(MainSystem(), es, k, m, 2, out);
  }

  /** The switch to task `n`, alone on level `q`, when nobody before it is READY. */
  lemma NextSwitch(es: seq<Event>, k: nat, m: Machine, n: Tid, q: nat)
    requires Leads(MainSystem(), es, k, m, 2) && k < |es| && es[k] == PendSV
    requires m.core.order == ORDER && q < |ORDER| && ORDER[q] == [n] && n < |m.core.task| && |m.core.cursor| == |ORDER|
    requires m.core.IsTask(m.core.current) && PreemptedTasks(m.core) == m.core.task && m.core.task[n].state == Ready
    requires forall h, t {:trigger t in ORDER[h]} :: 0 <= h < q && t in ORDER[h] ==> t < |m.core.task| && m.core.task[t].state != Ready
    ensures Leads(MainSystem(), es, k + 1,
      m.(core := m.core.(task := m.core.task[n := m.core.task[n].(state := Running)], current := Some(n), cursor := m.core.cursor[q := Some(n)])), 2)
  {
    hide Leads, SwitchContext;
    MainSystemBoots();
    LeadsToShaped(MainSystem(), es, k, m, 2);
    Fairness.SwitchStep(m);
    SwitchTo(m.core, n, q);
    Next(es, k, m, Step(m, PendSV));
  }

  lemma NextInvoke(es: seq<Event>, k: nat, m: Machine, t: Tid, call: Call)
    requires Leads(MainSystem(), es, k, m, 2) && k < |es| && es[k] == Invoke(call) && !call.Unknown?
    requires Executes(m, t) && Calls(m, t)
    ensures Leads(MainSystem(), es, k + 1, m.(pc := m.pc[t := Enter(call)]), 2)
  {
    hide Leads;
    Next(es, k, m, Out(m.(pc := m.pc[t := Enter(call)]), [Issued(t, call)]));
  }

  lemma NextReturn(es: seq<Event>, k: nat, m: Machine, t: Tid, r: nat)
    requires Leads(MainSystem(), es, k, m, 2) && k < |es| && es[k] == Continue(None)
    requires Executes(m, t) && m.pc[t] == Return(r) && t != 2
    ensures Leads(MainSystem(), es, k + 1, m.(pc := m.pc[t := User]), 2)
  {
    hide Leads;
    Next(es, k, m, Out(m.(pc := m.pc[t := User]), [Returned(t, r)]));
  }

  lemma NextAdvance(es: seq<Event>, k: nat, m: Machine, t: Tid, made: Option<Handle>, out: Out)
    requires Leads(MainSystem(), es, k, m, 2) && k < |es| && es[k] == Continue(made)
    requires Executes(m, t) && MayServe(m, t, made)
    requires (Shaped(m) ==> Advance(m, t, made) == out) && NothingReturned(out.obs, 2)
    ensures Leads(MainSystem(), es, k + 1, out.m, 2)
  {
    hide Leads, Advance, FreshHandle;
    Next(es, k, m, out);
  }

  lemma WorkerBlocks(es: seq<Event>)
    requires |es| >= 3 && es[0] == es[1] == es[2] == Continue(None)
    ensures Leads(MainSystem(), es, 3,
      Sys(0, SLEEPING_WORKER, Tcb(Ready, 1), Tcb(Ready, 2), Pcs(Fetch, User, User), CURSOR, map[], map[]), 2)
  {
    hide Leads, SwitchContext, Allowed, Enabled, Step, Shaped;
    var m0 := MainSystem();
    assert m0.core.task == Tasks(Tcb(Running, 0), Tcb(Ready, 1), Tcb(Ready, 2));
    assert m0.pc == Pcs(Start, User, User);
    Updates(Tcb(Running, 0), Tcb(Ready, 1), Tcb(Ready, 2), SLEEPING_WORKER, Start, User, User, Fetch);
    Updates(Tcb(Running, 0), Tcb(Ready, 1), Tcb(Ready, 2), SLEEPING_WORKER, Fetch, User, User, Empty);
    Updates(Tcb(Running, 0), Tcb(Ready, 1), Tcb(Ready, 2), SLEEPING_WORKER, Empty, User, User, Fetch);
    var m1 := Sys(0, Tcb(Running, 0), Tcb(Ready, 1), Tcb(Ready, 2), Pcs(Fetch, User, User), CURSOR, map[], map[]);
    var m2 := m1.(pc := Pcs(Empty, User, User));
    var m3 := Sys(0, SLEEPING_WORKER, Tcb(Ready, 1), Tcb(Ready, 2), Pcs(Fetch, User, User), CURSOR, map[], map[]);
    Starts(m0, es, 2);
    NextAdvance(es, 0, m0, 0, None, Out(m1, []));
    NextAdvance(es, 1, m1, 0, None, Out(m2, []));
    NextAdvance(es, 2, m2, 0, None, Out(m3, []));
  }

  /** The worker blocks and the producer runs. */
  lemma ProducerRuns(es: seq<Event>)
    requires |es| >= 4 && es[0] == es[1] == es[2] == Continue(None) && es[3] == PendSV
    ensures Leads(MainSystem(), es, 4,
      Sys(1, SLEEPING_WORKER, Tcb(Running, 1), Tcb(Ready, 2), Pcs(Fetch, User, User), CURSOR[1 := Some(1)], map[], map[]), 2)
  {
    hide Leads, SwitchContext;
    WorkerBlocks(es);
    Updates(SLEEPING_WORKER, Tcb(Ready, 1), Tcb(Ready, 2), Tcb(Running, 1), Empty, User, User, Fetch);
    var m := Sys(0, SLEEPING_WORKER, Tcb(Ready, 1), Tcb(Ready, 2), Pcs(Fetch, User, User), CURSOR, map[], map[]);
    NextSwitch(es, 3, m, 1, 1);
  }

  // ---- A user-mode delay of zero ticks ----

  /** The producer traps for a delay of zero, and the worker comes to put it to sleep. */
  const ZERO_DELAY: seq<Event> :=
    [Continue(None), Continue(None), Continue(None), PendSV, Svc(Delay(0)), PendSV, Continue(None), Continue(None)]

  /** The run leads from `m` to `m'`. */
  ghost predicate Reaches(m: Machine, es: seq<Event>, m': Machine) {
    Runnable(m, es) && Play(m, es).m == m'
  }

  /** The worker is about to put task `t` to sleep for zero ticks, and no continuation makes it READY. */
  ghost predicate StrandsNext(m: Machine, t: Tid) {
    && Shaped(m) && Executes(m, m.worker) && m.pc[m.worker] == Sleep(t, 0)
    && !exists es :: Timers.EndsReady(Step(m, Continue(None)).m, es, t)
  }

  const CALLER: Task := Tcb(Waiting, 1).(svcBlocked := true)
  const DELAY_ITEM: Item := Item(Delay(0), 1)

  /** The worker runs again, with the item of the producer's trap queued or taken. */
  function Serving(w: Task, a: Task, pw: Pc, ring: seq<Item>): Machine {
    var m := Sys(0, w, a, Tcb(Ready, 2), Pcs(pw, User, User), CURSOR[1 := Some(1)][0 := Some(0)], map[], map[]);
    m.(core := m.core.(ring := ring))
  }

  lemma ProducerTraps(es: seq<Event>)
    requires |es| >= 6 && es[0] == es[1] == es[2] == Continue(None) && es[3] == PendSV && es[4] == Svc(Delay(0)) && es[5] == PendSV
    ensures Leads(MainSystem(), es, 6, Serving(Tcb(Running, 0), CALLER, Fetch, [DELAY_ITEM]), 2)
  {
    hide Leads, SwitchContext;
    ProducerRuns(es);
    Updates(SLEEPING_WORKER, Tcb(Running, 1), Tcb(Ready, 2), CALLER, Fetch, User, User, User);
    Updates(SLEEPING_WORKER, CALLER, Tcb(Ready, 2), Tcb(Ready, 0), Fetch, User, User, User);
    Updates(Tcb(Ready, 0), CALLER, Tcb(Ready, 2), Tcb(Running, 0), Fetch, User, User, User);
    var m4 := Sys(1, SLEEPING_WORKER, Tcb(Running, 1), Tcb(Ready, 2), Pcs(Fetch, User, User), CURSOR[1 := Some(1)], map[], map[]);
    var m5 := m4.(core := m4.core.(task := Tasks(Tcb(Ready, 0), CALLER, Tcb(Ready, 2)), ring := [DELAY_ITEM]));
    Next(es, 4, m4, Out(m5, [Issued(1, Delay(0)), Posted(DELAY_ITEM)]));
    NextSwitch(es, 5, m5, 0, 0);
  }

  lemma DelayIsPrepared(es: seq<Event>)
    requires Leads(MainSystem(), es, 6, Serving(Tcb(Running, 0), CALLER, Fetch, [DELAY_ITEM]), 2)
    requires |es| >= 8 && es[6] == es[7] == Continue(None)
    ensures Leads(MainSystem(), es, 8, Serving(Tcb(Running, 0), Tcb(Waiting, 1), Sleep(1, 0), []), 2)
  {
    hide Leads;
    Updates(Tcb(Running, 0), CALLER, Tcb(Ready, 2), Tcb(Waiting, 1), Fetch, User, User, Dispatch(DELAY_ITEM));
    Updates(Tcb(Running, 0), CALLER, Tcb(Ready, 2), Tcb(Waiting, 1), Dispatch(DELAY_ITEM), User, User, Sleep(1, 0));
    var m7 := Serving(Tcb(Running, 0), CALLER, Dispatch(DELAY_ITEM), []);
    NextAdvance(es, 6, Serving(Tcb(Running, 0), CALLER, Fetch, [DELAY_ITEM]), 0, None, Out(m7, [Fetched(DELAY_ITEM)]));
    NextAdvance(es, 7, m7, 0, None, Out(Serving(Tcb(Running, 0), Tcb(Waiting, 1), Sleep(1, 0), []), [Done(1, 0), Stored(1, 0)]));
  }

  /** The run reaches the worker about to put the producer to sleep for zero ticks; no continuation makes it READY. */
  lemma ZeroDelayIsReached() returns (m: Machine)
    ensures Boot(MainSystem()) && Reaches(MainSystem(), ZERO_DELAY, m) && StrandsNext(m, 1)
  {
    hide Leads, SwitchContext, Runnable, Play, Shaped, Boot, Timers.EndsReady;
    MainSystemBoots();
    ProducerTraps(ZERO_DELAY);
    DelayIsPrepared(ZERO_DELAY);
    m := Serving(Tcb(Running, 0), Tcb(Waiting, 1), Sleep(1, 0), []);
    LeadsAll(MainSystem(), ZERO_DELAY, m, 2);
    EveryStepIsDefined(MainSystem(), ZERO_DELAY);
    Timers.DelayReturnsIff(MainSystem(), ZERO_DELAY);
  }

  // ---- A pop that waits for ever, is woken and fails ----

  /** The handle that the first creation is given: generation 1, index 0. */
  const H: Handle := 0x1_0000
  const ITEM: Data := [7]
  const POP: Call := QueueRecv(H, WAIT_FOREVER)

  /** The producer creates a queue and sleeps; the consumer pops without a time limit and blocks. */
  const UNTIL_BLOCKED: seq<Event> :=
    [Continue(None), Continue(None), Continue(None), PendSV,
     Invoke(QueueCreate(1, 1)), Continue(Some(H)), Continue(None),
     Invoke(Delay(1)), Continue(None), PendSV,
     Invoke(POP), Continue(None)]

  /** The producer wakes up, pushes an item, which wakes the consumer, and pops it again before the consumer runs; the
    * consumer makes its second attempt. */
  const UNTIL_REFUSED: seq<Event> :=
    [SysTick, PendSV, Continue(None),
     Invoke(QueueSend(H, ITEM, 0)), Continue(None), Continue(None), Continue(None),
     Invoke(QueueRecv(H, 0)), Continue(None), Continue(None),
     Invoke(Delay(1)), Continue(None), PendSV,
     Continue(None), Continue(None)]

  const ASLEEP: Task := Tcb(Waiting, 1).(delay := 1)

  function Started(queue: map<Handle, Queue>, pa: Pc): Machine {
    Sys(1, SLEEPING_WORKER, Tcb(Running, 1), Tcb(Ready, 2), Pcs(Fetch, pa, User), CURSOR[1 := Some(1)], queue, map[])
  }

  /** Queue H with the given items. */
  function OneQueue(items: seq<Data>): map<Handle, Queue> {
    map[H := Queue(1, 1, items)]
  }

  /** The consumer blocked on the queue while the producer sleeps. */
  function ConsumerBlocked(): Machine {
    Sys(2, SLEEPING_WORKER, ASLEEP, Tcb(Waiting, 2), Pcs(Fetch, Return(0), Resume(POP)), CURSORS,
        OneQueue([]), map[Receivers(H) := [2]])
  }

  /** The cursors from then on: every switch moves one to where it already is. */
  const CURSORS: seq<Option<Tid>> := CURSOR[1 := Some(1)][2 := Some(2)]

  lemma QueueIsCreated(es: seq<Event>)
    requires Leads(MainSystem(), es, 4, Started(map[], User), 2) && |es| >= 7
    requires es[4] == Invoke(QueueCreate(1, 1)) && es[5] == Continue(Some(H)) && es[6] == Continue(None)
    ensures Leads(MainSystem(), es, 7, Started(OneQueue([]), User), 2)
  {
    hide Leads, Advance;
    var b := Tcb(Ready, 2);
    Updates(SLEEPING_WORKER, b, b, b, Fetch, User, User, Enter(QueueCreate(1, 1)));
    Updates(SLEEPING_WORKER, b, b, b, Fetch, Enter(QueueCreate(1, 1)), User, Return(H));
    Updates(SLEEPING_WORKER, b, b, b, Fetch, Return(H), User, User);
    NextInvoke(es, 4, Started(map[], User), 1, QueueCreate(1, 1));
    CreateStep(Started(map[], Enter(QueueCreate(1, 1))));
    NextAdvance(es, 5, Started(map[], Enter(QueueCreate(1, 1))), 1, Some(H), Out(Started(OneQueue([]), Return(H)), [Made(1, QueueCreate(1, 1), H)]));
    NextReturn(es, 6, Started(OneQueue([]), Return(H)), 1, H);
  }

  lemma CreateStep(m: Machine)
    requires m == Started(map[], Enter(QueueCreate(1, 1)))
    ensures Shaped(m) ==> Advance(m, 1, Some(H)) == Out(Started(OneQueue([]), Return(H)), [Made(1, QueueCreate(1, 1), H)])
  {
    var b := Tcb(Ready, 2);
    Updates(SLEEPING_WORKER, b, b, b, Fetch, Enter(QueueCreate(1, 1)), User, Return(H));
  }

  /** The producer goes to sleep for one tick. */
  lemma ProducerSleeps(es: seq<Event>, k: nat, m: Machine, pb: Pc)
    requires Leads(MainSystem(), es, k, m, 2) && k + 2 <= |es| && es[k] == Invoke(Delay(1)) && es[k + 1] == Continue(None)
    requires m.pc == Pcs(Fetch, User, pb) && m.worker == 0 && m.idle == 4
    requires |m.core.task| == 5 && Executes(m, 1) && m.core.task[1] == Tcb(Running, 1)
    ensures Leads(MainSystem(), es, k + 2, m.(core := m.core.(task := m.core.task[1 := ASLEEP]), pc := Pcs(Fetch, Return(0), pb)), 2)
  {
    hide Leads;
    var w := Tcb(Ready, 0);
    Updates(w, w, w, w, Fetch, User, pb, Enter(Delay(1)));
    Updates(w, w, w, w, Fetch, Enter(Delay(1)), pb, Return(0));
    var m1 := m.(pc := Pcs(Fetch, Enter(Delay(1)), pb));
    NextInvoke(es, k, m, 1, Delay(1));
    NextAdvance(es, k + 1, m1, 1, None, Out(m.(core := m.core.(task := m.core.task[1 := ASLEEP]), pc := Pcs(Fetch, Return(0), pb)), [Done(1, 0)]));
  }

  /** The consumer runs, with nothing in the queue. */
  function ConsumerRunning(pb: Pc): Machine {
    Sys(2, SLEEPING_WORKER, ASLEEP, Tcb(Running, 2), Pcs(Fetch, Return(0), pb), CURSORS, OneQueue([]), map[])
  }

  lemma ConsumerRuns(es: seq<Event>)
    requires Leads(MainSystem(), es, 7, Started(OneQueue([]), User), 2) && |es| >= 10
    requires es[7] == Invoke(Delay(1)) && es[8] == Continue(None) && es[9] == PendSV
    ensures Leads(MainSystem(), es, 10, ConsumerRunning(User), 2)
  {
    hide Leads, SwitchContext;
    Updates(SLEEPING_WORKER, Tcb(Running, 1), Tcb(Ready, 2), ASLEEP, Fetch, User, User, User);
    Updates(SLEEPING_WORKER, ASLEEP, Tcb(Ready, 2), Tcb(Running, 2), Fetch, User, User, User);
    ProducerSleeps(es, 7, Started(OneQueue([]), User), User);
    var m9 := Sys(1, SLEEPING_WORKER, ASLEEP, Tcb(Ready, 2), Pcs(Fetch, Return(0), User), CURSOR[1 := Some(1)], OneQueue([]), map[]);
    NextSwitch(es, 9, m9, 2, 2);
  }

  /** The consumer pops the empty queue without a time limit and blocks. */
  lemma ConsumerBlocks(es: seq<Event>)
    requires |es| >= 12 && es[10] == Invoke(POP) && es[11] == Continue(None)
    requires Leads(MainSystem(), es, 10, ConsumerRunning(User), 2)
    ensures Leads(MainSystem(), es, 12, ConsumerBlocked(), 2)
  {
    hide Leads, Advance;
    var w := Tcb(Ready, 0);
    Updates(w, w, w, w, Fetch, Return(0), User, Enter(POP));
    NextInvoke(es, 10, ConsumerRunning(User), 2, POP);
    PopBlocks(ConsumerRunning(Enter(POP)));
    NextAdvance(es, 11, ConsumerRunning(Enter(POP)), 2, None, Out(ConsumerBlocked(), []));
  }

  lemma PopBlocks(m: Machine)
    requires m == ConsumerRunning(Enter(POP))
    ensures Shaped(m) ==> Advance(m, 2, None) == Out(ConsumerBlocked(), [])
  {
    Updates(SLEEPING_WORKER, ASLEEP, Tcb(Running, 2), Tcb(Waiting, 2), Fetch, Return(0), Enter(POP), Resume(POP));
    assert [] + [2] == [2];
    assert m.core.waiters[Receivers(H) := [2]] == map[Receivers(H) := [2]];
    assert Parked(Halted(Tcb(Running, 2), true), Receivers(H), WAIT_FOREVER) == Tcb(Waiting, 2);
  }

  function Awake(b: Task, pa: Pc, items: seq<Data>, waiting: seq<Tid>): Machine {
    Sys(1, SLEEPING_WORKER, Tcb(Running, 1), b, Pcs(Fetch, pa, Resume(POP)), CURSORS, OneQueue(items), map[Receivers(H) := waiting])
  }

  /** A tick wakes the producer. */
  lemma ProducerWakes(es: seq<Event>)
    requires Leads(MainSystem(), es, 12, ConsumerBlocked(), 2) && |es| >= 15
    requires es[12] == SysTick && es[13] == PendSV && es[14] == Continue(None)
    ensures Leads(MainSystem(), es, 15, Awake(Tcb(Waiting, 2), User, [], [2]), 2)
  {
    hide Leads, SwitchContext, Tick, TickObs;
    var m12 := ConsumerBlocked();
    var m13 := m12.(core := m12.core.(task := Tasks(SLEEPING_WORKER, Tcb(Ready, 1), Tcb(Waiting, 2))));
    TickWakes(m12);
    Next(es, 12, m12, Out(m13, TickObs(m12.core, 5)));
    Updates(SLEEPING_WORKER, Tcb(Ready, 1), Tcb(Waiting, 2), Tcb(Running, 1), Fetch, Return(0), Resume(POP), User);
    CursorStays();
    NextSwitch(es, 13, m13, 1, 1);
    NextReturn(es, 14, Awake(Tcb(Waiting, 2), Return(0), [], [2]), 1, 0);
  }

  lemma CursorStays()
    ensures CURSORS[1 := Some(1)] == CURSORS && CURSORS[2 := Some(2)] == CURSORS
  {
  }

  lemma TickWakes(m: Machine)
    requires m == ConsumerBlocked()
    ensures |m.core.task| == 5 && NothingReturned(TickObs(m.core, 5), 2)
    ensures Tick(m.core) == m.core.(task := Tasks(SLEEPING_WORKER, Tcb(Ready, 1), Tcb(Waiting, 2)))
  {
    hide TickObs;
    TickObsMean(m.core, 5, 2);
    assert Expiring(m.core) == {};
    Sweep.RemainingNone(m.core.waiters);
    assert Tick(m.core).task == Tasks(SLEEPING_WORKER, Tcb(Ready, 1), Tcb(Waiting, 2));
  }

  const SEND: Call := QueueSend(H, ITEM, 0)
  const TAKE: Call := QueueRecv(H, 0)

  /** The producer pushes an item, which pops the consumer off the wait list. */
  lemma ItemIsPushed(es: seq<Event>)
    requires Leads(MainSystem(), es, 15, Awake(Tcb(Waiting, 2), User, [], [2]), 2) && |es| >= 17
    requires es[15] == Invoke(SEND) && es[16] == Continue(None)
    ensures Leads(MainSystem(), es, 17, Awake(Tcb(Waiting, 2), Wake(2, Return(0)), [ITEM], []), 2)
  {
    hide Leads, Advance;
    var b := Tcb(Waiting, 2);
    Updates(b, b, b, b, Fetch, User, Resume(POP), Enter(SEND));
    NextInvoke(es, 15, Awake(b, User, [], [2]), 1, SEND);
    SendWakes(Awake(b, Enter(SEND), [], [2]));
    NextAdvance(es, 16, Awake(b, Enter(SEND), [], [2]), 1, None, Out(Awake(b, Wake(2, Return(0)), [ITEM], []), [Pushed(1, H, ITEM)]));
  }

  /** The producer wakes the consumer and returns. */
  lemma ConsumerIsWoken(es: seq<Event>)
    requires Leads(MainSystem(), es, 17, Awake(Tcb(Waiting, 2), Wake(2, Return(0)), [ITEM], []), 2) && |es| >= 19
    requires es[17] == es[18] == Continue(None)
    ensures Leads(MainSystem(), es, 19, Awake(Tcb(Ready, 2), User, [ITEM], []), 2)
  {
    hide Leads, Advance;
    var b := Tcb(Waiting, 2);
    Updates(b, b, b, b, Fetch, Return(0), Resume(POP), User);
    WakeStep(Awake(b, Wake(2, Return(0)), [ITEM], []));
    NextAdvance(es, 17, Awake(b, Wake(2, Return(0)), [ITEM], []), 1, None, Out(Awake(Tcb(Ready, 2), Return(0), [ITEM], []), []));
    NextReturn(es, 18, Awake(Tcb(Ready, 2), Return(0), [ITEM], []), 1, 0);
  }

  lemma SendWakes(m: Machine)
    requires m == Awake(Tcb(Waiting, 2), Enter(SEND), [], [2])
    ensures Shaped(m) ==> Advance(m, 1, None) == Out(Awake(Tcb(Waiting, 2), Wake(2, Return(0)), [ITEM], []), [Pushed(1, H, ITEM)])
  {
    Updates(SLEEPING_WORKER, Tcb(Running, 1), Tcb(Waiting, 2), Tcb(Waiting, 2), Fetch, Enter(SEND), Resume(POP), Wake(2, Return(0)));
    assert m.core.On(Receivers(H)) == [2] && [2][1..] == [] && [] + [ITEM] == [ITEM];
    assert m.core.waiters[Receivers(H) := []] == map[Receivers(H) := []];
    assert m.core.queue[H := Queue(1, 1, [ITEM])] == OneQueue([ITEM]);
  }

  lemma WakeStep(m: Machine)
    requires m == Awake(Tcb(Waiting, 2), Wake(2, Return(0)), [ITEM], [])
    ensures Shaped(m) ==> Advance(m, 1, None) == Out(Awake(Tcb(Ready, 2), Return(0), [ITEM], []), [])
  {
    Updates(SLEEPING_WORKER, Tcb(Running, 1), Tcb(Waiting, 2), Tcb(Ready, 2), Fetch, Wake(2, Return(0)), Resume(POP), Return(0));
  }

  /** Before the consumer runs the producer pops the item again. */
  lemma ItemIsTaken(es: seq<Event>)
    requires Leads(MainSystem(), es, 19, Awake(Tcb(Ready, 2), User, [ITEM], []), 2) && |es| >= 22
    requires es[19] == Invoke(TAKE) && es[20] == es[21] == Continue(None)
    ensures Leads(MainSystem(), es, 22, Awake(Tcb(Ready, 2), User, [], []), 2)
  {
    hide Leads, Advance;
    var b := Tcb(Ready, 2);
    Updates(b, b, b, b, Fetch, User, Resume(POP), Enter(TAKE));
    Updates(b, b, b, b, Fetch, Return(0), Resume(POP), User);
    NextInvoke(es, 19, Awake(b, User, [ITEM], []), 1, TAKE);
    TakeStep(Awake(b, Enter(TAKE), [ITEM], []));
    NextAdvance(es, 20, Awake(b, Enter(TAKE), [ITEM], []), 1, None, Out(Awake(b, Return(0), [], []), [Popped(1, H, ITEM)]));
    NextReturn(es, 21, Awake(b, Return(0), [], []), 1, 0);
  }

  lemma TakeStep(m: Machine)
    requires m == Awake(Tcb(Ready, 2), Enter(TAKE), [ITEM], [])
    ensures Shaped(m) ==> Advance(m, 1, None) == Out(Awake(Tcb(Ready, 2), Return(0), [], []), [Popped(1, H, ITEM)])
  {
    Updates(SLEEPING_WORKER, Tcb(Running, 1), Tcb(Ready, 2), Tcb(Ready, 2), Fetch, Enter(TAKE), Resume(POP), Return(0));
    assert m.core.On(Senders(H)) == [] && [ITEM][1..] == [];
    assert m.core.queue[H := Queue(1, 1, [])] == OneQueue([]);
  }

  /** The consumer runs again. */
  function Resumed(pb: Pc): Machine {
    Sys(2, SLEEPING_WORKER, ASLEEP, Tcb(Running, 2), Pcs(Fetch, Return(0), pb), CURSORS, OneQueue([]), map[Receivers(H) := []])
  }

  lemma ConsumerResumes(es: seq<Event>)
    requires Leads(MainSystem(), es, 22, Awake(Tcb(Ready, 2), User, [], []), 2) && |es| >= 27
    requires es[22] == Invoke(Delay(1)) && es[23] == Continue(None) && es[24] == PendSV && es[25] == es[26] == Continue(None)
    ensures Leads(MainSystem(), es, 27, Resumed(Return(FAIL)), 2)
  {
    hide Leads, SwitchContext, Advance;
    Updates(SLEEPING_WORKER, Tcb(Running, 1), Tcb(Ready, 2), ASLEEP, Fetch, User, User, User);
    Updates(SLEEPING_WORKER, ASLEEP, Tcb(Ready, 2), Tcb(Running, 2), Fetch, User, User, User);
    ProducerSleeps(es, 22, Awake(Tcb(Ready, 2), User, [], []), Resume(POP));
    CursorStays();
    var m24 := Sys(1, SLEEPING_WORKER, ASLEEP, Tcb(Ready, 2), Pcs(Fetch, Return(0), Resume(POP)), CURSORS, OneQueue([]), map[Receivers(H) := []]);
    NextSwitch(es, 24, m24, 2, 2);
    ResumeThenFail();
    NextAdvance(es, 25, Resumed(Resume(POP)), 2, None, Out(Resumed(Enter(TAKE)), []));
    NextAdvance(es, 26, Resumed(Enter(TAKE)), 2, None, Out(Resumed(Return(FAIL)), [Refused(2)]));
  }

  lemma ResumeThenFail()
    ensures Shaped(Resumed(Resume(POP))) ==> Advance(Resumed(Resume(POP)), 2, None) == Out(Resumed(Enter(TAKE)), [])
    ensures Shaped(Resumed(Enter(TAKE))) ==> Advance(Resumed(Enter(TAKE)), 2, None) == Out(Resumed(Return(FAIL)), [Refused(2)])
  {
    var w := Tcb(Ready, 0);
    Updates(w, w, w, w, Fetch, Return(0), Resume(POP), Enter(TAKE));
    Updates(w, w, w, w, Fetch, Return(0), Enter(TAKE), Return(FAIL));
  }

  lemma {:induction false} SplitRun(m: Machine, a: seq<Event>, b: seq<Event>)
    requires Runnable(m, a + b)
    ensures Runnable(m, a) && Runnable(Play(m, a).m, b)
    ensures Play(m, a + b).m == Play(Play(m, a).m, b).m && Play(m, a + b).obs == Play(m, a).obs + Play(Play(m, a).m, b).obs
    decreases |a|
  {
    hide Shaped, Enabled, Step;
    if a == [] {
      assert a + b == b;
    } else {
      assert (a + b)[1..] == a[1..] + b;
      SplitRun(Step(m, a[0]).m, a[1..], b);
    }
  }

  /** From boot, `es` leads to task `t` blocked in the queue call `call`, which has no time limit; `es'` follows, and
    * then event `e` returns `r` to it. */
  ghost predicate UntimedCallReturns(m: Machine, es: seq<Event>, es': seq<Event>, e: Event, t: Tid, call: Call, r: nat) {
    && Boot(m) && Runnable(m, es) && IsQueueCall(call) && !Ledgers.IsTimed(call)
    && var m1 := Play(m, es).m;
       t < |m1.pc| == |m1.core.task| && m1.pc[t] == Resume(call) && m1.core.task[t].state == Waiting && ReturnsFirst(m1, es', e, t, r)
  }

  /** A pop with WAIT_FOREVER in the demo system: it blocks, the push of an item wakes it, and it returns -1. */
  lemma WaitForeverPopFails()
    ensures UntimedCallReturns(MainSystem(), UNTIL_BLOCKED, UNTIL_REFUSED, Continue(None), 2, POP, FAIL)
  {
    hide Leads, Runnable, Play, Boot, ReturnsFirst;
    var es := UNTIL_BLOCKED + UNTIL_REFUSED;
    EventsInOrder(es);
    ProducerRuns(es);
    QueueIsCreated(es);
    ConsumerRuns(es);
    ConsumerBlocks(es);
    LeadsPrefix(es, 12, ConsumerBlocked());
    ProducerWakes(es);
    ItemIsPushed(es);
    ConsumerIsWoken(es);
    ItemIsTaken(es);
    ConsumerResumes(es);
    MainSystemBoots();
    assert es[..12] == UNTIL_BLOCKED && es[..27] == UNTIL_BLOCKED + UNTIL_REFUSED;
    LeadsPrefix(es, 27, Resumed(Return(FAIL)));
    LeadsToShaped(MainSystem(), es, 27, Resumed(Return(FAIL)), 2);
    SplitRun(MainSystem(), UNTIL_BLOCKED, UNTIL_REFUSED);
    FailsAtLast();
    ReturnsFirstHere(ConsumerBlocked(), UNTIL_REFUSED);
  }

  lemma EventsInOrder(es: seq<Event>)
    requires es == UNTIL_BLOCKED + UNTIL_REFUSED
    ensures |es| == 27
    ensures es[0] == es[1] == es[2] == Continue(None) && es[3] == PendSV
    ensures es[4] == Invoke(QueueCreate(1, 1)) && es[5] == Continue(Some(H)) && es[6] == Continue(None)
    ensures es[7] == Invoke(Delay(1)) && es[8] == Continue(None) && es[9] == PendSV
    ensures es[10] == Invoke(POP) && es[11] == Continue(None)
    ensures es[12] == SysTick && es[13] == PendSV && es[14] == Continue(None)
    ensures es[15] == Invoke(SEND) && es[16] == es[17] == es[18] == Continue(None)
    ensures es[19] == Invoke(TAKE) && es[20] == es[21] == Continue(None)
    ensures es[22] == Invoke(Delay(1)) && es[23] == Continue(None) && es[24] == PendSV && es[25] == es[26] == Continue(None)
  {
    assert |UNTIL_BLOCKED| == 12 && |UNTIL_REFUSED| == 15;
  }

  lemma LeadsPrefix(es: seq<Event>, k: nat, m: Machine)
    requires Leads(MainSystem(), es, k, m, 2)
    ensures k <= |es| && Runnable(MainSystem(), es[..k]) && Play(MainSystem(), es[..k]).m == m
    ensures NothingReturned(Play(MainSystem(), es[..k]).obs, 2)
  {
    hide Runnable, Play, NothingReturned;
  }

  lemma FailsAtLast()
    ensures var m := Resumed(Return(FAIL)); Shaped(m) ==> Enabled(m, Continue(None)) && Returned(2, FAIL) in Step(m, Continue(None)).obs
  {
  }

  lemma ReturnsFirstHere(m: Machine, es: seq<Event>)
    requires Runnable(m, es) && NothingReturned(Play(m, es).obs, 2) && Shaped(Play(m, es).m)
    requires Enabled(Play(m, es).m, Continue(None)) && Returned(2, FAIL) in Step(Play(m, es).m, Continue(None)).obs
    ensures ReturnsFirst(m, es, Continue(None), 2, FAIL)
  {
    hide Runnable, Play, Shaped, Enabled, Step, NothingReturned;
  }
}
