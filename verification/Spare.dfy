/** TCBs that were never handed out do not matter: the kernel has a fixed pool, the run theorems speak of the tasks that
  * were created, and every step does the same to both. */
module Spare {
  import opened Base
  import opened Selection
  import opened CoreState
  import opened Transitions
  import opened Ledgers
  import opened Places
  import opened Serving
  import opened Runs
  import Invariant
  import Kernel
  import Structure

  /** The state without the TCBs from `n` on, which were never handed out. */
  function Created(c: Core, n: nat): Core
    requires n <= |c.task|
  {
    c.(task := c.task[..n])
  }

  /** The machine of the first `n` tasks. */
  function Trimmed(m: Machine, n: nat): Machine
    requires n <= |m.core.task| && n <= |m.pc|
  {
    m.(core := Created(m.core, n), pc := m.pc[..n])
  }

  /** The tasks from `n` on were never created: their threads take no step. */
  ghost predicate HasSpare(m: Machine, n: nat) {
    n <= |m.core.task| == |m.pc| && forall t :: n <= t < |m.pc| ==> m.pc[t] == User
  }

  // ---- The scheduler ----

  /** Everything that a switch or a tick looks at lies below `n`. */
  ghost predicate Below(c: Core, n: nat) {
    n <= |c.task| && Kernel.Switchable(Created(c, n))
  }

  lemma {:induction false} FirstSame(s: seq<Tid>, a: set<Tid>, b: set<Tid>)
    requires forall t :: t in s ==> (t in a <==> t in b)
    ensures First(s, a) == First(s, b)
    decreases |s|
  {
    if s != [] {
      FirstSame(s[1..], a, b);
    }
  }

  lemma {:induction false} SelectSame(order: seq<seq<Tid>>, cursor: seq<Option<Tid>>, a: set<Tid>, b: set<Tid>, p: nat)
    requires p <= |order| && CursorsInLists(order, cursor)
    requires forall q, t {:trigger t in order[q]} :: 0 <= q < |order| && t in order[q] ==> (t in a <==> t in b)
    ensures Select(order, cursor, a, p) == Select(order, cursor, b, p)
    decreases |order| - p
  {
    if p < |order| {
      FirstSame(Rotation(order[p], cursor[p]), a, b);
      SelectSame(order, cursor, a, b, p + 1);
    }
  }

  /** A context switch neither sees nor touches the others. */
  lemma SwitchIgnoresSpare(c: Core, n: nat)
    requires Below(c, n)
    ensures SwitchContext.requires(c) && SwitchContext.requires(Created(c, n))
    ensures |SwitchContext(c).task| == |c.task| && Created(SwitchContext(c), n) == SwitchContext(Created(c, n))
  {
    hide Select, Rotation, First, SwitchContext;
    var d := Created(c, n);
    assert PreemptedTasks(d) == PreemptedTasks(c)[..n];
    SelectSame(c.order, c.cursor, ReadySet(PreemptedTasks(c)), ReadySet(PreemptedTasks(d)), 0);
    Kernel.SwitchCases(c);
    Kernel.SwitchCases(d);
    var q := SelectIsStrictPriority(c.order, c.cursor, ReadySet(PreemptedTasks(c)), 0);
  }

  /** Neither does a tick. */
  lemma TickIgnoresSpare(c: Core, n: nat)
    requires Below(c, n)
    ensures |Tick(c).task| == |c.task| && Created(Tick(c), n) == Tick(Created(c, n)) && Expiring(c) == Expiring(Created(c, n))
  {
    var d := Created(c, n);
    assert Expiring(c) == Expiring(d);
    assert Tick(c).task[..n] == Tick(d).task;
  }

  lemma {:induction false} TickObsIgnoreSpare(c: Core, n: nat, k: nat)
    requires n <= |c.task| && k <= |c.task| && Expiring(c) == Expiring(Created(c, n))
    ensures TickObs(c, k) == TickObs(Created(c, n), if k < n then k else n)
    decreases k
  {
    hide Expiring;
    if k > 0 {
      TickObsIgnoreSpare(c, n, k - 1);
      ExpiringInPool(Created(c, n));
    }
  }

  // ---- Updates below n ----

  lemma UpdateTrims<T>(s: seq<T>, t: nat, x: T, n: nat)
    requires t < n <= |s|
    ensures s[t := x][..n] == s[..n][t := x]
  {
  }

  lemma SetTrims(c: Core, t: Tid, k: Task, n: nat)
    requires t < n <= |c.task|
    ensures c.task[t] == Created(c, n).task[t]
    ensures |c.Set(t, k).task| == |c.task| && Created(c.Set(t, k), n) == Created(c, n).Set(t, k)
  {
    UpdateTrims(c.task, t, k, n);
  }

  lemma PopTrims(c: Core, l: WaitList, n: nat)
    requires n <= |c.task| && InPool(Created(c, n))
    ensures InPool(c) && |PopWaiter(c, l).0.task| == |c.task|
    ensures Created(PopWaiter(c, l).0, n) == PopWaiter(Created(c, n), l).0 && PopWaiter(c, l).1 == PopWaiter(Created(c, n), l).1
    ensures PopWaiter(c, l).1.Some? ==> PopWaiter(c, l).1.value < n
  {
    if c.On(l) != [] {
      var w := c.On(l)[0];
      assert w in c.waiters[l];
      UpdateTrims(c.task, w, Released(c.task[w]), n);
    }
  }

  lemma BlockTrims(c: Core, t: Tid, l: WaitList, timeout: nat, self: bool, n: nat)
    requires t < n <= |c.task|
    ensures |Block(c, t, l, timeout, self).task| == |c.task|
    ensures Created(Block(c, t, l, timeout, self), n) == Block(Created(c, n), t, l, timeout, self)
  {
    UpdateTrims(c.task, t, Parked(Halted(c.task[t], self), l, timeout), n);
  }

  /** Two attempts that agree below `n`. */
  ghost predicate SameAttempt(a: Attempt, b: Attempt, size: nat, n: nat)
    requires n <= size
  {
    match a
    case Got(core, w) => |core.task| == size && b == Got(Created(core, n), w)
    case Denied => b == Denied
    case Blocked(core) => |core.task| == size && b == Blocked(Created(core, n))
  }

  lemma AttemptTrims(c: Core, call: Call, t: Tid, timeout: nat, self: bool, n: nat)
    requires t < n <= |c.task| && InPool(Created(c, n))
    ensures InPool(c)
    ensures call.SemWait? && call.sem in c.sem ==>
      SameAttempt(SemAcquire(c, call.sem, t, timeout, self), SemAcquire(Created(c, n), call.sem, t, timeout, self), |c.task|, n)
    ensures call.MutexLock? && call.mutex in c.owner ==>
      SameAttempt(MutexAcquire(c, call.mutex, t, timeout, self), MutexAcquire(Created(c, n), call.mutex, t, timeout, self), |c.task|, n)
    ensures call.QueueSend? && call.queue in c.queue ==>
      SameAttempt(SendAttempt(c, call.queue, call.data, t, timeout, self),
                  SendAttempt(Created(c, n), call.queue, call.data, t, timeout, self), |c.task|, n)
    ensures call.QueueRecv? && call.queue in c.queue ==>
      SameAttempt(ReceiveAttempt(c, call.queue, t, timeout, self),
                  ReceiveAttempt(Created(c, n), call.queue, t, timeout, self), |c.task|, n)
  {
    hide PopWaiter, Block;
    match call {
      case SemWait(h, _) => BlockTrims(c, t, SemWaiters(h), timeout, self, n);
      case MutexLock(h, _) => BlockTrims(c, t, MutexWaiters(h), timeout, self, n);
      case QueueSend(q, _, _) =>
        BlockTrims(c, t, Senders(q), timeout, self, n);
        PopTrims(c, Receivers(q), n);
        PopKeepsQueues(c, Receivers(q));
      case QueueRecv(q, _) =>
        BlockTrims(c, t, Receivers(q), timeout, self, n);
        PopTrims(c, Senders(q), n);
        PopKeepsQueues(c, Senders(q));
      case _ =>
    }
  }

  lemma PopKeepsQueues(c: Core, l: WaitList)
    requires InPool(c)
    ensures PopWaiter(c, l).0.queue == c.queue && PopWaiter(c, l).0.owner == c.owner
  {
  }

  // ---- Serving ----

  /** Two outcomes that agree below `n`. */
  ghost predicate SameOut(a: Out, b: Out, n: nat) {
    HasSpare(a.m, n) && b == Out(Trimmed(a.m, n), a.obs)
  }

  lemma MoveTrims(m: Machine, c: Core, a: Tid, next: Pc, n: nat)
    requires HasSpare(m, n) && |c.task| == |m.core.task| && a < n
    ensures var m' := m.(core := c, pc := m.pc[a := next]);
      HasSpare(m', n) && Trimmed(m', n) == Trimmed(m, n).(core := Created(c, n), pc := Trimmed(m, n).pc[a := next])
  {
    UpdateTrims(m.pc, a, next, n);
  }

  lemma SettleTrims(m: Machine, actor: Tid, caller: Tid, call: Call, x: Attempt, y: Attempt, won: Obs, n: nat)
    requires HasSpare(m, n) && actor < n && m.worker < n && SameAttempt(x, y, |m.pc|, n)
    ensures SameOut(Settle(m, actor, caller, call, x, won), Settle(Trimmed(m, n), actor, caller, call, y, won), n)
  {
    match x {
      case Got(core, w) => MoveTrims(m, core, actor, WakeFirst(w, Finish(m, actor, caller, 0)), n);
      case Denied => MoveTrims(m, m.core, actor, Finish(m, actor, caller, FAIL), n);
      case Blocked(core) => MoveTrims(m, core, actor, if actor == m.worker then Fetch else Resume(call), n);
    }
  }

  lemma PlainTrims(m: Machine, actor: Tid, caller: Tid, r: nat, n: nat)
    requires HasSpare(m, n) && actor < n
    ensures SameOut(Plain(m, actor, caller, r), Plain(Trimmed(m, n), actor, caller, r), n)
    ensures SameOut(Fail(m, actor, caller), Fail(Trimmed(m, n), actor, caller), n)
  {
    MoveTrims(m, m.core, actor, Finish(m, actor, caller, r), n);
    MoveTrims(m, m.core, actor, Finish(m, actor, caller, FAIL), n);
  }

  lemma CreateTrims(m: Machine, actor: Tid, caller: Tid, call: Call, made: Option<Handle>, n: nat)
    requires HasSpare(m, n) && actor < n
    ensures SameOut(ServeCreate(m, actor, caller, call, made), ServeCreate(Trimmed(m, n), actor, caller, call, made), n)
  {
    PlainTrims(m, actor, caller, FAIL, n);
    if made.Some? {
      MoveTrims(m, Create(m.core, call, made.value), actor, Finish(m, actor, caller, made.value), n);
    }
  }

  lemma DelayTrims(m: Machine, actor: Tid, caller: Tid, ticks: nat, n: nat)
    requires HasSpare(m, n) && actor < n && caller < n
    ensures SameOut(ServeDelay(m, actor, caller, ticks), ServeDelay(Trimmed(m, n), actor, caller, ticks), n)
  {
    PlainTrims(m, actor, caller, 0, n);
    var k := m.core.task[caller];
    var served, asleep := k.(savedR0 := 0, svcBlocked := false), k.(delay := ticks, state := Waiting);
    SetTrims(m.core, caller, served, n);
    SetTrims(m.core, caller, asleep, n);
    MoveTrims(m, m.core.Set(caller, served), actor, Sleep(caller, ticks), n);
    MoveTrims(m, m.core.Set(caller, asleep), actor, Return(0), n);
  }

  lemma PostTrims(m: Machine, actor: Tid, caller: Tid, h: Handle, n: nat)
    requires HasSpare(m, n) && Shaped(m) && Shaped(Trimmed(m, n)) && actor < n && h in m.core.sem
    ensures SameOut(ServePost(m, actor, caller, h), ServePost(Trimmed(m, n), actor, caller, h), n)
  {
    hide PopWaiter, Shaped;
    PoolNow(Trimmed(m, n));
    PopTrims(m.core, SemWaiters(h), n);
    var (core, w) := SemGive(m.core, h);
    MoveTrims(m, core, actor, WakeFirst(w, Finish(m, actor, caller, 0)), n);
  }

  lemma UnlockTrims(m: Machine, actor: Tid, caller: Tid, h: Handle, n: nat)
    requires HasSpare(m, n) && Shaped(m) && Shaped(Trimmed(m, n)) && actor < n && h in m.core.owner
    ensures SameOut(ServeUnlock(m, actor, caller, h), ServeUnlock(Trimmed(m, n), actor, caller, h), n)
  {
    hide PopWaiter, Shaped;
    PoolNow(Trimmed(m, n));
    PopTrims(m.core, MutexWaiters(h), n);
    PopKeepsQueues(m.core, MutexWaiters(h));
    var (core, w) := MutexRelease(m.core, h, caller);
    MoveTrims(m, core, actor, WakeFirst(w, Finish(m, actor, caller, 0)), n);
  }

  lemma ServeTrims(m: Machine, actor: Tid, caller: Tid, call: Call, made: Option<Handle>, n: nat)
    requires HasSpare(m, n) && Shaped(m) && Shaped(Trimmed(m, n)) && actor < n && caller < n
    ensures SameOut(Serve(m, actor, caller, call, made), Serve(Trimmed(m, n), actor, caller, call, made), n)
  {
    hide PopWaiter, SemAcquire, MutexAcquire, SendAttempt, ReceiveAttempt, ServePost, ServeUnlock, ServeCreate, ServeDelay,
         Plain, Fail, Settle, SameOut, SameAttempt;
    ShapedWithSpare(m, n);
    PlainTrims(m, actor, caller, FAIL, n);
    PlainTrims(m, actor, caller, 0, n);
    var c, d, self := m.core, Created(m.core, n), actor != m.worker;
    match call {
      case Delay(ticks) => DelayTrims(m, actor, caller, ticks, n);
      case QueueSend(q, data, timeout) =>
        if q in c.queue {
          var limit := if self then timeout else 0;
          AttemptTrims(c, call, caller, limit, self, n);
          SettleTrims(m, actor, caller, call, SendAttempt(c, q, data, caller, limit, self),
                      SendAttempt(d, q, data, caller, limit, self), Pushed(caller, q, data), n);
        }
      case QueueRecv(q, timeout) =>
        if q in c.queue {
          var limit := if self then timeout else 0;
          AttemptTrims(c, call, caller, limit, self, n);
          SettleTrims(m, actor, caller, call, ReceiveAttempt(c, q, caller, limit, self),
                      ReceiveAttempt(d, q, caller, limit, self),
                      Popped(caller, q, if c.queue[q].items != [] then c.queue[q].items[0] else []), n);
        }
      case SemWait(h, timeout) =>
        if h in c.sem {
          AttemptTrims(c, call, caller, timeout, self, n);
          SettleTrims(m, actor, caller, call, SemAcquire(c, h, caller, timeout, self),
                      SemAcquire(d, h, caller, timeout, self), Took(caller, h), n);
        }
      case MutexLock(h, timeout) =>
        if h in c.owner {
          AttemptTrims(c, call, caller, timeout, self, n);
          SettleTrims(m, actor, caller, call, MutexAcquire(c, h, caller, timeout, self),
                      MutexAcquire(d, h, caller, timeout, self), Owned(caller, h), n);
        }
      case SemPost(h) => if h in c.sem { PostTrims(m, actor, caller, h, n); }
      case MutexUnlock(h) => if h in c.owner { UnlockTrims(m, actor, caller, h, n); }
      case UartWrite =>
      case Unknown =>
      case _ => CreateTrims(m, actor, caller, call, made, n);
    }
  }

  // ---- Every step ----

  lemma ShapedWithSpare(m: Machine, n: nat)
    requires HasSpare(m, n) && Shaped(Trimmed(m, n))
    ensures Shaped(m) && InPool(Trimmed(m, n).core) && Below(m.core, n) && m.worker < n
    ensures m.core.current.Some? ==> m.core.current.value < n
    ensures m.core.kernelTcb.Some? ==> m.core.kernelTcb.value < n
    ensures forall t :: 0 <= t < n ==> PcInPool(m.pc[t], n) && Trimmed(m, n).pc[t] == m.pc[t]
  {
    forall t | 0 <= t < |m.pc| ensures PcInPool(m.pc[t], |m.pc|) {
      if t < n {
        assert Trimmed(m, n).pc[t] == m.pc[t];
        PcInLarger(m.pc[t], n, |m.pc|);
      }
    }
  }

  lemma PcInLarger(p: Pc, n: nat, k: nat)
    requires PcInPool(p, n) && n <= k
    ensures PcInPool(p, k)
  {
    if p.Wake? {
      PcInLarger(p.next, n, k);
    }
  }

  lemma AdvanceTrims(m: Machine, t: Tid, made: Option<Handle>, n: nat)
    requires HasSpare(m, n) && Shaped(m) && Shaped(Trimmed(m, n)) && t < n
    ensures SameOut(Advance(m, t, made), Advance(Trimmed(m, n), t, made), n)
  {
    hide Serve, Shaped;
    ShapedWithSpare(m, n);
    var k := m.core.task[t];
    match m.pc[t] {
      case User =>
      case Enter(call) => ServeTrims(m, t, t, call, made, n);
      case Dispatch(item) => ServeTrims(m, t, item.caller, item.call, made, n);
      case Resume(call) =>
        SetTrims(m.core, t, k.(timedOut := false), n);
        MoveTrims(m, m.core, t, if k.timedOut then Return(FAIL) else Enter(Retry(call)), n);
        MoveTrims(m, m.core.Set(t, k.(timedOut := false)), t, Return(if k.timedOut then FAIL else 0), n);
      case Return(_) => MoveTrims(m, m.core, t, User, n);
      case Wake(w, next) =>
        SetTrims(m.core, w, Woken(m.core.task[w], 0), n);
        MoveTrims(m, WakeTask(m.core, w, 0), t, next, n);
      case Start => MoveTrims(m, m.core.(kernelTcb := Some(t)), t, Fetch, n);
      case Fetch =>
        MoveTrims(m, m.core, t, Empty, n);
        if m.core.ring != [] {
          MoveTrims(m, m.core.(ring := m.core.ring[1..]), t, Dispatch(m.core.ring[0]), n);
        }
      case Empty =>
        SetTrims(m.core, t, k.(state := Waiting), n);
        MoveTrims(m, m.core.Set(t, k.(state := Waiting)), t, Fetch, n);
      case Complete(caller, r) =>
        SetTrims(m.core, caller, Woken(m.core.task[caller], r), n);
        MoveTrims(m, WakeTask(m.core, caller, r), t, Fetch, n);
      case Sleep(caller, ticks) =>
        SetTrims(m.core, caller, m.core.task[caller].(delay := ticks, state := Waiting), n);
        MoveTrims(m, SleepTask(m.core, caller, ticks), t, Fetch, n);
    }
  }

  lemma TrapTrims(m: Machine, call: Call, n: nat)
    requires HasSpare(m, n) && Shaped(m) && Shaped(Trimmed(m, n)) && m.core.current.Some?
    ensures SameOut(Trap(m, call), Trap(Trimmed(m, n), call), n)
  {
    hide Shaped;
    ShapedWithSpare(m, n);
    var t := m.core.current.value;
    var blocked := m.core.Set(t, m.core.task[t].(svcBlocked := true, state := Waiting));
    SetTrims(m.core, t, m.core.task[t].(svcBlocked := true, state := Waiting), n);
    PushTrims(blocked, Item(call, t), n);
    var (pushed, ok) := KworkPush(blocked, Item(call, t));
    SetTrims(pushed, t, pushed.task[t].(svcBlocked := false, state := Ready, savedR0 := FAIL), n);
  }

  lemma PushTrims(c: Core, item: Item, n: nat)
    requires n <= |c.task| && Created(c, n).IsTask(c.kernelTcb)
    ensures var ((c', ok), (d', ok')) := (KworkPush(c, item), KworkPush(Created(c, n), item));
      ok == ok' && |c'.task| == |c.task| && Created(c', n) == d'
  {
    if c.kernelTcb.Some? {
      var c1 := c.(ring := c.ring + [item]);
      SetTrims(c1, c.kernelTcb.value, Roused(c.task[c.kernelTcb.value]), n);
    }
  }

  lemma IsrGiveTrims(m: Machine, h: Handle, n: nat)
    requires HasSpare(m, n) && Shaped(m) && Shaped(Trimmed(m, n)) && h in m.core.sem
    ensures SameOut(IsrGive(m, h), IsrGive(Trimmed(m, n), h), n)
  {
    hide Shaped, PopWaiter;
    ShapedWithSpare(m, n);
    PopTrims(m.core, SemWaiters(h), n);
    var (core, w) := SemGive(m.core, h);
    if w.Some? {
      SetTrims(core, w.value, Woken(core.task[w.value], 0), n);
    }
  }

  lemma EnabledTrims(m: Machine, e: Event, n: nat)
    requires HasSpare(m, n) && Shaped(m) && Shaped(Trimmed(m, n))
    ensures Enabled(m, e) <==> Enabled(Trimmed(m, n), e)
  {
    hide Shaped, Allowed;
    ShapedWithSpare(m, n);
    if m.core.current.Some? {
      var t, d := m.core.current.value, Trimmed(m, n);
      assert d.pc[t] == m.pc[t] && d.core.task[t] == m.core.task[t];
      if e.Continue? {
        match m.pc[t] {
          case Enter(call) => AllowedTrims(m.core, call, e.made, n);
          case Dispatch(item) => AllowedTrims(m.core, item.call, e.made, n);
          case _ =>
        }
      }
    }
  }

  lemma AllowedTrims(c: Core, call: Call, made: Option<Handle>, n: nat)
    requires n <= |c.task|
    ensures Allowed(c, call, made) <==> Allowed(Created(c, n), call, made)
  {
  }

  /** Whatever happens, happens to the created tasks alone and is enabled by them alone. */
  lemma StepIgnoresSpare(m: Machine, e: Event, n: nat)
    requires HasSpare(m, n) && Shaped(Trimmed(m, n))
    ensures Shaped(m) && (Enabled(m, e) <==> Enabled(Trimmed(m, n), e))
    ensures Enabled(m, e) ==> SameOut(Step(m, e), Step(Trimmed(m, n), e), n)
  {
    hide Shaped, Tick, SwitchContext, IsrGive, Trap, Advance, Allowed, Below;
    ShapedWithSpare(m, n);
    EnabledTrims(m, e, n);
    if Enabled(m, e) {
      match e {
        case SysTick =>
          TickIgnoresSpare(m.core, n);
          TickObsIgnoreSpare(m.core, n, |m.core.task|);
        case PendSV => SwitchIgnoresSpare(m.core, n);
        case GiveFromIsr(h) => IsrGiveTrims(m, h, n);
        case Svc(call) => TrapTrims(m, call, n);
        case Invoke(call) => MoveTrims(m, m.core, m.core.current.value, Enter(call), n);
        case Continue(made) => AdvanceTrims(m, m.core.current.value, made, n);
      }
    }
  }

  lemma {:induction false} RunTrims(m: Machine, es: seq<Event>, n: nat, g: Ledger, p: seq<Place>)
    requires HasSpare(m, n) && Inv(Trimmed(m, n), g, p)
    ensures Runnable(m, es) <==> Runnable(Trimmed(m, n), es)
    ensures Runnable(m, es) ==> SameOut(Play(m, es), Play(Trimmed(m, n), es), n)
    decreases |es|
  {
    hide Inv, Shaped, Enabled, Step, Read;
    if es != [] {
      var d := Trimmed(m, n);
      InvSizes(d, g, p);
      Structure.StructShaped(d, g.phase, p);
      StepIgnoresSpare(m, es[0], n);
      if Enabled(m, es[0]) {
        var out := Step(d, es[0]);
        var p1 := Invariant.StepKeeps(d, g, p, es[0]);
        RunTrims(Step(m, es[0]).m, es[1..], n, Read(g, out.obs), p1);
      }
    }
  }

  /** The kernel with its whole pool has exactly the runs of the machine of the created tasks, with the same observations
    * and the same state of these tasks: what is proved of every run from boot holds of the kernel as it is. */
  lemma RunsIgnoreSpare(m: Machine, es: seq<Event>, n: nat)
    requires HasSpare(m, n) && Boot(Trimmed(m, n))
    ensures Runnable(m, es) <==> Runnable(Trimmed(m, n), es)
    ensures Runnable(m, es) ==> SameOut(Play(m, es), Play(Trimmed(m, n), es), n)
  {
    hide Boot, Inv, Runnable, Play;
    var p := BootInv(Trimmed(m, n));
    RunTrims(m, es, n, Blank(Trimmed(m, n).core.task), p);
  }
}
