/** Exact timing: a sleeping task and a timed waiter are made READY by the n-th tick and by no other,
  * unless a waiter is popped first; a user-mode delay of zero ends in a sleep without end. */
module Timers {
  import opened Base
  import opened Selection
  import opened CoreState
  import opened Transitions
  import opened Ledgers
  import opened Places
  import opened Structure
  import opened StructureSteps
  import opened Serving
  import opened Invariant
  import opened Runs

  /** `t` was the head of a wait list and was popped. */
  ghost predicate Left(c: Core, c': Core, t: Tid) {
    exists l :: c.On(l) != [] && c.On(l)[0] == t && c'.On(l) == c.On(l)[1..]
  }

  ghost predicate Untouched(c: Core, c': Core, t: Tid)
    requires t < |c.task|
  {
    t < |c'.task| && (c'.task[t] == c.task[t] || Left(c, c', t))
  }

  lemma PopTouches(c: Core, l: WaitList, t: Tid)
    requires InPool(c) && t < |c.task|
    ensures Untouched(c, PopWaiter(c, l).0, t)
  {
    if c.On(l) != [] {
      assert c.On(l)[0] in c.waiters[l];
      assert PopWaiter(c, l).0.On(l) == c.On(l)[1..];
    }
  }

  lemma AttemptTouches(c: Core, call: Call, t: Tid, u: Tid, timeout: nat, self: bool)
    requires InPool(c) && t < |c.task| && u < |c.task| && t != u
    ensures call.SemWait? && call.sem in c.sem && SemAcquire(c, call.sem, u, timeout, self) != Denied ==>
      Untouched(c, SemAcquire(c, call.sem, u, timeout, self).core, t)
    ensures call.MutexLock? && call.mutex in c.owner && MutexAcquire(c, call.mutex, u, timeout, self) != Denied ==>
      Untouched(c, MutexAcquire(c, call.mutex, u, timeout, self).core, t)
    ensures call.QueueSend? && call.queue in c.queue && SendAttempt(c, call.queue, call.data, u, timeout, self) != Denied ==>
      Untouched(c, SendAttempt(c, call.queue, call.data, u, timeout, self).core, t)
    ensures call.QueueRecv? && call.queue in c.queue && ReceiveAttempt(c, call.queue, u, timeout, self) != Denied ==>
      Untouched(c, ReceiveAttempt(c, call.queue, u, timeout, self).core, t)
  {
    if call.QueueSend? {
      PopTouches(c, Receivers(call.queue), t);
      LeftSame(c, PopWaiter(c, Receivers(call.queue)).0, t);
    }
    if call.QueueRecv? {
      PopTouches(c, Senders(call.queue), t);
      LeftSame(c, PopWaiter(c, Senders(call.queue)).0, t);
    }
  }

  /** Popping is about the wait lists only. */
  lemma LeftSame(c: Core, c1: Core, t: Tid)
    ensures forall c2: Core :: c2.waiters == c1.waiters ==> (Left(c, c2, t) <==> Left(c, c1, t))
  {
    forall c2: Core | c2.waiters == c1.waiters ensures Left(c, c2, t) <==> Left(c, c1, t) {
      assert forall l :: c2.On(l) == c1.On(l);
    }
  }

  /** Serving a call touches the caller and the waiter it pops, nobody else. */
  lemma ServeTouches(m: Machine, actor: Tid, caller: Tid, call: Call, made: Option<Handle>, t: Tid)
    requires Shaped(m) && actor < |m.pc| && caller < |m.pc| && t < |m.pc| && t != caller
    ensures Untouched(m.core, Serve(m, actor, caller, call, made).m.core, t)
  {
    hide Untouched, PopWaiter, SemAcquire, MutexAcquire, SendAttempt, ReceiveAttempt, SemGive, MutexRelease, Finish, InPool;
    ShapedMeans(m);
    var c, self := m.core, actor != m.worker;
    SameUntouched(c, t);
    match call {
      case SemWait(_, n) => AttemptTouches(c, call, t, caller, n, self);
      case MutexLock(_, n) => AttemptTouches(c, call, t, caller, n, self);
      case QueueSend(_, _, n) => AttemptTouches(c, call, t, caller, if self then n else 0, self);
      case QueueRecv(_, n) => AttemptTouches(c, call, t, caller, if self then n else 0, self);
      case SemPost(h) => if h in c.sem { GiveTouches(c, h, t); }
      case MutexUnlock(h) => if h in c.owner { ReleaseTouches(c, h, caller, t); }
      case Delay(n) => DelayTouches(m, actor, caller, n, t);
      case _ => CreateTouches(c, call, made, t);
    }
  }

  lemma TaskTouches(c: Core, c': Core, t: Tid)
    requires t < |c.task| == |c'.task| && c'.task[t] == c.task[t]
    ensures Untouched(c, c', t)
  {
  }

  lemma ResumeTouches(m: Machine, a: Tid, call: Call, t: Tid)
    requires a < |m.pc| && a < |m.core.task| && t < |m.core.task| && t != a
    ensures Untouched(m.core, Reenter(m, a, call).m.core, t)
  {
  }

  lemma SameUntouched(c: Core, t: Tid)
    requires t < |c.task|
    ensures Untouched(c, c, t)
  {
  }

  lemma GiveTouches(c: Core, h: Handle, t: Tid)
    requires InPool(c) && h in c.sem && t < |c.task|
    ensures Untouched(c, SemGive(c, h).0, t)
  {
    PopTouches(c, SemWaiters(h), t);
  }

  lemma ReleaseTouches(c: Core, h: Handle, u: Tid, t: Tid)
    requires InPool(c) && h in c.owner && t < |c.task|
    ensures Untouched(c, MutexRelease(c, h, u).0, t)
  {
    PopTouches(c, MutexWaiters(h), t);
    LeftSame(c, PopWaiter(c, MutexWaiters(h)).0, t);
  }

  lemma DelayTouches(m: Machine, actor: Tid, caller: Tid, n: nat, t: Tid)
    requires actor < |m.pc| && caller < |m.core.task| && t < |m.core.task| && t != caller
    ensures Untouched(m.core, ServeDelay(m, actor, caller, n).m.core, t)
  {
  }

  lemma CreateTouches(c: Core, call: Call, made: Option<Handle>, t: Tid)
    requires t < |c.task|
    ensures made.Some? ==> Untouched(c, Create(c, call, made.value), t)
  {
  }

  /** A task that is asleep or on a wait list. */
  predicate IsParked(x: Place) {
    x == Sleeping || x == Stranded || x.Listed?
  }

  /** Whom the running thread may touch directly is never a parked task. */
  lemma ParkedMeans(m: Machine, ph: seq<Phase>, p: seq<Place>, t: Tid)
    requires Struct(m, ph, p) && t < |p| && IsParked(p[t])
    ensures |p| == |m.core.task| == |m.pc| && m.core.task[t].state == Waiting
    ensures t != m.worker && IsWorkerPc(m.pc[m.worker]) && Subject(m.pc[m.worker]) != Some(t)
    ensures Subject(m.pc[m.worker]).Some? ==> Subject(m.pc[m.worker]).value < |p|
    ensures forall a :: 0 <= a < |m.pc| && m.pc[a].Wake? ==> m.pc[a].waiter < |p| && m.pc[a].waiter != t
    ensures forall l {:trigger m.core.On(l)} :: t in m.core.On(l) ==> p[t] == Listed(l)
  {
    assert TaskHolds(m.core.task[t], m.pc[t], p[t], ph[t]);
  }

  lemma AdvanceTouches(m: Machine, g: Ledger, p: seq<Place>, a: Tid, made: Option<Handle>, t: Tid)
    requires Inv(m, g, p) && Shaped(m) && Executes(m, a)
    requires t < |p| && IsParked(p[t])
    ensures t < |m.core.task| && Untouched(m.core, Advance(m, a, made).m.core, t)
  {
    hide Struct, Books.BooksAgree, Shaped, Serve, IsParked, Untouched, Left, Reenter;
    ParkedMeans(m, g.phase, p, t);
    InvSizes(m, g, p);
    WorkerPcMeans(m, g.phase, p, a);
    match m.pc[a] {
      case Enter(call) => ServeTouches(m, a, a, call, made, t);
      case Dispatch(item) => CallersAreTasks(m, g.phase, p); ServeTouches(m, a, item.caller, item.call, made, t);
      case Wake(_, _) => TaskTouches(m.core, Advance(m, a, made).m.core, t);
      case Resume(call) => ResumeTouches(m, a, call, t);
      case _ => TaskTouches(m.core, Advance(m, a, made).m.core, t);
    }
  }

  lemma CallersAreTasks(m: Machine, ph: seq<Phase>, p: seq<Place>)
    requires Struct(m, ph, p)
    ensures m.worker < |m.pc| && (m.pc[m.worker].Dispatch? ==> m.pc[m.worker].item.caller < |m.pc|)
  {
  }

  lemma IsrTouches(m: Machine, h: Handle, t: Tid)
    requires Shaped(m) && h in m.core.sem && t < |m.core.task|
    ensures Untouched(m.core, IsrGive(m, h).m.core, t)
  {
    var l := SemWaiters(h);
    GiveTouches(m.core, h, t);
    if m.core.On(l) != [] {
      assert m.core.On(l)[0] in m.core.waiters[l];
      assert IsrGive(m, h).m.core.On(l) == m.core.On(l)[1..];
    }
  }

  /** Between ticks a parked task keeps every field, unless a step pops it from its wait list. */
  lemma ParkedTasksKeep(m: Machine, g: Ledger, p: seq<Place>, e: Event, t: Tid)
    requires Inv(m, g, p) && Shaped(m) && Enabled(m, e) && e != SysTick
    requires t < |p| && IsParked(p[t])
    ensures t < |m.core.task| && Untouched(m.core, Step(m, e).m.core, t)
  {
    hide Struct, Books.BooksAgree, Shaped, Advance, IsrGive, SvcEntry, SwitchContext, IsParked;
    ParkedMeans(m, g.phase, p, t);
    SizesHere(m, g.phase, p);
    match e {
      case PendSV =>
        var task, n := SwitchChooses(m, g.phase, p);
      case GiveFromIsr(h) => IsrTouches(m, h, t);
      case Svc(call) => TrapTouches(m, g.phase, p, call, t);
      case Invoke(_) =>
      case Continue(made) => AdvanceTouches(m, g, p, m.core.current.value, made, t);
    }
  }

  lemma TrapTouches(m: Machine, ph: seq<Phase>, p: seq<Place>, call: Call, t: Tid)
    requires Struct(m, ph, p) && Shaped(m) && CurrentRuns(m) && t < |p| && IsParked(p[t])
    ensures t < |m.core.task| && Untouched(m.core, Trap(m, call).m.core, t)
  {
    ParkedMeans(m, ph, p, t);
    hide ListsHold, RingHolds, HandsHold, WorkHolds, Listing, TasksHold, IsParked;
  }

  // ---- Runs ----

  function Ticks(es: seq<Event>): nat {
    if es == [] then 0 else (if es[0] == SysTick then 1 else 0) + Ticks(es[1..])
  }

  /** Through the run, `t` is asleep or on list `l` in every state: nobody pops it. */
  ghost predicate Stays(m: Machine, es: seq<Event>, t: Tid, at: Place)
    requires Runnable(m, es)
    decreases |es|
  {
    es == [] || ((at.Listed? ==> t in Step(m, es[0]).m.core.On(at.l)) && Stays(Step(m, es[0]).m, es[1..], t, at))
  }

  // ---- What a step does to the program counters ----

  ghost predicate PcMoves(m: Machine, m': Machine, a: Tid)
    requires a < |m.pc|
  {
    && m'.worker == m.worker && m'.idle == m.idle
    && |m'.pc| == |m.pc| && m'.pc == m.pc[a := m'.pc[a]]
  }

  lemma ServeMoves(m: Machine, actor: Tid, caller: Tid, call: Call, made: Option<Handle>)
    requires Shaped(m) && actor < |m.pc| && caller < |m.pc|
    ensures var m' := Serve(m, actor, caller, call, made).m;
      PcMoves(m, m', actor) && (m'.pc[actor].Sleep? ==> m'.pc[actor].caller == caller)
  {
    hide Shaped, SemGive, MutexRelease, SemAcquire, MutexAcquire, SendAttempt, ReceiveAttempt, Create;
    ShapedMeans(m);
  }

  lemma AdvanceMoves(m: Machine, a: Tid, made: Option<Handle>)
    requires Shaped(m) && a < |m.pc|
    ensures var m' := Advance(m, a, made).m;
      PcMoves(m, m', a) && (m.pc[a].Dispatch? && m'.pc[a].Sleep? ==> m'.pc[a].caller == m.pc[a].item.caller)
  {
    hide Serve;
    match m.pc[a] {
      case Enter(call) => ServeMoves(m, a, a, call, made);
      case Dispatch(item) => ServeMoves(m, a, item.caller, item.call, made);
      case _ =>
    }
  }

  /** Only the running thread moves, and its caller stays its caller. */
  lemma StepMoves(m: Machine, g: Ledger, p: seq<Place>, e: Event, t: Tid)
    requires Inv(m, g, p) && Shaped(m) && Enabled(m, e) && e != SysTick && t < |p| && IsParked(p[t])
    ensures var m' := Step(m, e).m;
      && |m'.pc| == |m.pc| && t < |m.pc| && m.worker < |m.pc| && m'.worker == m.worker
      && (p[t] == Stranded ==> m'.pc[t] == m.pc[t])
      && !(m'.pc[m.worker].Sleep? && m'.pc[m.worker].caller == t)
  {
    hide Struct, Books.BooksAgree, Advance, InPool, Tick, SwitchContext, SvcEntry, SemGive;
    ParkedMeans(m, g.phase, p, t);
    SizesHere(m, g.phase, p);
    if e.Continue? {
      var a := m.core.current.value;
      AdvanceMoves(m, a, e.made);
      if a == m.worker {
        SleepComesFromDispatch(m, a, e.made);
      }
    }
  }

  lemma SleepComesFromDispatch(m: Machine, a: Tid, made: Option<Handle>)
    requires Shaped(m) && a < |m.pc| && IsWorkerPc(m.pc[a])
    requires |Advance(m, a, made).m.pc| == |m.pc|
    ensures Advance(m, a, made).m.pc[a].Sleep? ==> m.pc[a].Dispatch?
  {
    hide Serve;
  }

  /** One event other than a tick: a task that is not popped stays parked, in its place and with its fields. */
  lemma ParkedStep(m: Machine, g: Ledger, p: seq<Place>, e: Event, t: Tid) returns (p': seq<Place>)
    requires Inv(m, g, p) && Shaped(m) && Enabled(m, e) && e != SysTick
    requires t < |p| && IsParked(p[t])
    requires p[t].Listed? ==> t in Step(m, e).m.core.On(p[t].l)
    ensures var out := Step(m, e);
      && Inv(out.m, Read(g, out.obs), p')
      && t < |p'| == |out.m.core.task| && t < |m.core.task|
      && p'[t] == p[t] && out.m.core.task[t] == m.core.task[t]
  {
    hide Struct, Books.BooksAgree, Inv, Shaped, Enabled, Step, Read, Occupies, Untouched;
    p' := StepKeeps(m, g, p, e);
    var m', g' := Step(m, e).m, Read(g, Step(m, e).obs);
    InvSizes(m, g, p);
    InvSizes(m', g', p');
    ParkedTasksKeep(m, g, p, e, t);
    NotPopped(m, g, p, m', g', p', t);
    StepMoves(m, g, p, e, t);
    match p[t] {
      case Listed(l) => ListedPlace(m', g'.phase, p', l, t);
      case Sleeping => SleeperPlace(m, g, p, m', g', p', t);
      case Stranded => StrandedPlace(m, g, p, m', g', p', t);
    }
  }

  lemma ListedPlace(m: Machine, ph: seq<Phase>, p: seq<Place>, l: WaitList, t: Tid)
    requires Struct(m, ph, p) && t in m.core.On(l)
    ensures t < |p| && p[t] == Listed(l)
  {
  }

  /** A task that is still where it was has not been popped, so nothing touched it. */
  lemma NotPopped(m: Machine, g: Ledger, p: seq<Place>, m': Machine, g': Ledger, p': seq<Place>, t: Tid)
    requires Inv(m, g, p) && Inv(m', g', p') && t < |m.core.task| && t < |p| && IsParked(p[t])
    requires Untouched(m.core, m'.core, t)
    requires p[t].Listed? ==> t in m'.core.On(p[t].l)
    ensures t < |m'.core.task| && m'.core.task[t] == m.core.task[t]
  {
    hide RingHolds, HandsHold, WorkHolds, Listing, TasksHold, Books.BooksAgree;
    if Left(m.core, m'.core, t) {
      var l :| m.core.On(l) != [] && m.core.On(l)[0] == t && m'.core.On(l) == m.core.On(l)[1..];
      assert t in ListOf(m.core.waiters, l);
      TailOnce(m.core.On(l));
      assert false;
    }
  }

  lemma SleeperPlace(m: Machine, g: Ledger, p: seq<Place>, m': Machine, g': Ledger, p': seq<Place>, t: Tid)
    requires Inv(m, g, p) && Inv(m', g', p') && t < |m.core.task| == |p| && t < |m'.core.task| == |p'|
    requires p[t] == Sleeping && m'.core.task[t] == m.core.task[t] && m'.worker == m.worker
    ensures p'[t] == Sleeping
  {
    hide Books.BooksAgree, Struct;
    ParkedMeans(m, g.phase, p, t);
    PlaceIsOccupied(m, g, p, t, Sleeping);
    PlaceIsOccupied(m', g', p', t, Sleeping);
  }

  lemma StrandedPlace(m: Machine, g: Ledger, p: seq<Place>, m': Machine, g': Ledger, p': seq<Place>, t: Tid)
    requires Inv(m, g, p) && Inv(m', g', p') && t < |m.core.task| == |p| == |m.pc| && t < |m'.core.task| == |p'| == |m'.pc|
    requires m'.worker == m.worker && m.worker < |m.pc|
    requires p[t] == Stranded && m'.core.task[t] == m.core.task[t]
    requires m'.pc[t] == m.pc[t] && !(m'.pc[m.worker].Sleep? && m'.pc[m.worker].caller == t)
    ensures p'[t] == Stranded
  {
    hide ListsHold, RingHolds, HandsHold, Listing, Books.BooksAgree;
    assert TaskHolds(m.core.task[t], m.pc[t], p[t], g.phase[t]);
    assert TaskHolds(m'.core.task[t], m'.pc[t], p'[t], g'.phase[t]);
  }

  // ---- Exact timing ----

  /** A tick: a sleeper or timed waiter loses one tick; with one tick left it becomes READY and leaves its place,
    * a waiter marked TIMED_OUT. A task without time limit keeps its place and fields. */
  lemma TickStep(m: Machine, g: Ledger, p: seq<Place>, t: Tid) returns (p': seq<Place>)
    requires Inv(m, g, p) && Shaped(m) && t < |p| && IsParked(p[t])
    ensures var out := Step(m, SysTick);
      && Inv(out.m, Read(g, out.obs), p')
      && t < |p'| == |out.m.core.task| && t < |m.core.task|
      && var k, k' := m.core.task[t], out.m.core.task[t];
      if k.delay == 0 then p'[t] == p[t] && k' == k
      else if k.delay > 1 then p'[t] == p[t] && k' == k.(delay := k.delay - 1)
      else p'[t] == Nowhere && k'.state == Ready && (p[t].Listed? ==> k'.timedOut)
  {
    hide Struct, Books.BooksAgree, Shaped, Tick, TickObs, Read;
    InvSizes(m, g, p);
    p' := TickStepKeeps(m, g, p);
    TickAges(m, g.phase, p);
    ParkedFields(m, g.phase, p, t);
  }

  lemma ParkedFields(m: Machine, ph: seq<Phase>, p: seq<Place>, t: Tid)
    requires Struct(m, ph, p) && t < |p| && IsParked(p[t])
    ensures t < |m.core.task|
    ensures var k := m.core.task[t];
      && k.state == Waiting
      && (p[t] == Sleeping <==> Sleeps(k))
      && (p[t] == Stranded ==> k.delay == 0)
      && (p[t].Listed? && k.delay > 0 ==> WaitsTimed(k))
  {
    assert TaskHolds(m.core.task[t], m.pc[t], p[t], ph[t]);
  }

  /** Exact time-outs, first half. A task parked with `delay` ticks to go, and not popped, is still waiting with
    * the rest of its ticks as long as fewer ticks have passed. */
  lemma {:induction false} ParkedUntilTheLastTick(m: Machine, g: Ledger, p: seq<Place>, es: seq<Event>, t: Tid)
    returns (g': Ledger, p': seq<Place>)
    requires Inv(m, g, p) && Runnable(m, es) && t < |p| && IsParked(p[t])
    requires Stays(m, es, t, p[t])
    requires t < |m.core.task| && (m.core.task[t].delay > 0 ==> Ticks(es) < m.core.task[t].delay)
    ensures var m' := Play(m, es).m;
      && Inv(m', g', p') && t < |p'| && p'[t] == p[t] && t < |m'.core.task|
      && m'.core.task[t].state == Waiting
      && m'.core.task[t].delay == if m.core.task[t].delay > 0 then m.core.task[t].delay - Ticks(es) else 0
    decreases |es|
  {
    hide Inv, Shaped, Enabled, Step, Read, IsParked;
    if es == [] {
      g', p' := g, p;
      InvSizes(m, g, p);
      ParkedFields(m, g.phase, p, t);
    } else {
      var out := Step(m, es[0]);
      var p1;
      if es[0] == SysTick {
        p1 := TickStep(m, g, p, t);
      } else {
        p1 := ParkedStep(m, g, p, es[0], t);
      }
      g', p' := ParkedUntilTheLastTick(out.m, Read(g, out.obs), p1, es[1..], t);
    }
  }

  /** Exact time-outs, second half: the `delay`-th tick makes the task READY, and a waiter TIMED_OUT. */
  lemma ReadyAtTheLastTick(m: Machine, g: Ledger, p: seq<Place>, es: seq<Event>, t: Tid)
    requires Inv(m, g, p) && Runnable(m, es) && t < |p| && IsParked(p[t])
    requires Stays(m, es, t, p[t])
    requires t < |m.core.task| && m.core.task[t].delay > 0 && Ticks(es) == m.core.task[t].delay - 1
    requires Shaped(Play(m, es).m)
    ensures var m' := Step(Play(m, es).m, SysTick).m;
      && t < |m'.core.task| && m'.core.task[t].state == Ready
      && (p[t].Listed? ==> m'.core.task[t].timedOut)
  {
    hide Inv, Shaped, Step, Read, IsParked;
    var g1, p1 := ParkedUntilTheLastTick(m, g, p, es, t);
    var p2 := TickStep(Play(m, es).m, g1, p1, t);
  }

  /** A user-mode delay is served by a sleep of exactly that many ticks; a delay of zero strands its caller. */
  lemma UserDelaySleeps(m: Machine, g: Ledger, p: seq<Place>) returns (p': seq<Place>)
    requires Inv(m, g, p) && Shaped(m) && Executes(m, m.worker) && m.pc[m.worker].Sleep?
    ensures var (out, t, n) := (Step(m, Continue(None)), m.pc[m.worker].caller, m.pc[m.worker].ticks);
      && Inv(out.m, Read(g, out.obs), p')
      && t < |p'| == |out.m.core.task|
      && out.m.core.task[t].delay == n && out.m.core.task[t].state == Waiting
      && p'[t] == if n > 0 then Sleeping else Stranded
  {
    hide Struct, Books.BooksAgree, Shaped, Read;
    InvSizes(m, g, p);
    p' := SleepStepKeeps(m, g, p, m.worker);
    var t, n := m.pc[m.worker].caller, m.pc[m.worker].ticks;
    ServedHere(m, g.phase, p, t);
    var out := Step(m, Continue(None));
    InvSizes(out.m, Read(g, out.obs), p');
    PlaceIsOccupied(out.m, Read(g, out.obs), p', t, if n > 0 then Sleeping else Stranded);
  }

  /** A stranded task is never READY again, whatever happens. With UserDelaySleeps and ReadyAtTheLastTick: a
    * user-mode task_delay(n) ends, at its n-th tick, if and only if n > 0. */
  lemma {:induction false} StrandedForEver(m: Machine, g: Ledger, p: seq<Place>, es: seq<Event>, t: Tid)
    requires Inv(m, g, p) && Runnable(m, es) && t < |p| && p[t] == Stranded
    ensures t < |Play(m, es).m.core.task| && Play(m, es).m.core.task[t].state == Waiting
  {
    hide Inv, Shaped, Enabled, Step, Read;
    InvSizes(m, g, p);
    ParkedFields(m, g.phase, p, t);
    StrandedStays(m, es, t);
    var g', p' := ParkedUntilTheLastTick(m, g, p, es, t);
  }

  lemma {:induction false} StrandedStays(m: Machine, es: seq<Event>, t: Tid)
    requires Runnable(m, es)
    ensures Stays(m, es, t, Stranded)
    decreases |es|
  {
    if es != [] {
      StrandedStays(Step(m, es[0]).m, es[1..], t);
    }
  }

  // ---- The same from boot ----

  lemma {:induction false} SleepersStay(m: Machine, es: seq<Event>, t: Tid)
    requires Runnable(m, es)
    ensures Stays(m, es, t, Sleeping)
    decreases |es|
  {
    if es != [] {
      SleepersStay(Step(m, es[0]).m, es[1..], t);
    }
  }

  /** In any reachable state, a task asleep with `d` ticks to go sleeps through every run with fewer than `d`
    * ticks and is made READY by the d-th tick: nothing else wakes it. */
  lemma SleepersWakeOnTheExactTick(m: Machine, es: seq<Event>, es': seq<Event>, t: Tid)
    requires Boot(m) && Runnable(m, es)
    requires var m1 := After(m, es).0; t < |m1.core.task| && Sleeps(m1.core.task[t]) && Runnable(m1, es')
    ensures var (m1, m2) := (After(m, es).0, Play(After(m, es).0, es').m);
      var d := m1.core.task[t].delay;
      && (Ticks(es') < d ==> t < |m2.core.task| && m2.core.task[t].state == Waiting && m2.core.task[t].delay == d - Ticks(es'))
      && (Ticks(es') == d - 1 ==> t < |Tick(m2.core).task| && Tick(m2.core).task[t].state == Ready)
  {
    hide Boot, Runnable, Play, After, Inv, Shaped, Step, Tick, Occupies, Struct, Stays;
    var (m1, g) := After(m, es);
    var p := RunInv(m, es);
    InvSizes(m1, g, p);
    NotTheWorker(m1, g, p, t);
    SleeperIsSleeping(m1, g, p, t);
    SleepersStay(m1, es', t);
    var m2 := Play(m1, es').m;
    if Ticks(es') < m1.core.task[t].delay {
      var g3, p3 := ParkedUntilTheLastTick(m1, g, p, es', t);
      if Ticks(es') == m1.core.task[t].delay - 1 {
        InvSizes(m2, g3, p3);
        StructShaped(m2, g3.phase, p3);
        ReadyAtTheLastTick(m1, g, p, es', t);
        TickIsSysTick(m2);
      }
    }
  }

  lemma TickIsSysTick(m: Machine)
    requires Shaped(m)
    ensures Step(m, SysTick).m.core == Tick(m.core)
  {
    hide Tick, TickObs;
  }

  lemma NotTheWorker(m: Machine, g: Ledger, p: seq<Place>, t: Tid)
    requires Inv(m, g, p) && t < |m.core.task| && m.core.task[t].delay > 0
    ensures t != m.worker
  {
  }

  lemma SleeperIsSleeping(m: Machine, g: Ledger, p: seq<Place>, t: Tid)
    requires Inv(m, g, p) && t < |p| && t != m.worker && t < |m.core.task| && Sleeps(m.core.task[t])
    ensures p[t] == Sleeping
  {
    hide Struct, Books.BooksAgree;
    PlaceIsOccupied(m, g, p, t, Sleeping);
  }

  /** In any reachable state, a waiter with time limit `d` that nobody pops waits through every run with fewer
    * than `d` ticks; the d-th tick makes it READY and TIMED_OUT. */
  lemma WaitersExpireOnTheExactTick(m: Machine, es: seq<Event>, es': seq<Event>, l: WaitList, t: Tid)
    requires Boot(m) && Runnable(m, es)
    requires var m1 := After(m, es).0; t in m1.core.On(l) && t < |m1.core.task| && m1.core.task[t].delay > 0 && Runnable(m1, es')
    requires Stays(After(m, es).0, es', t, Listed(l))
    ensures var (m1, m2) := (After(m, es).0, Play(After(m, es).0, es').m);
      var d := m1.core.task[t].delay;
      && (Ticks(es') < d ==> t < |m2.core.task| && m2.core.task[t].state == Waiting && m2.core.task[t].delay == d - Ticks(es'))
      && (Ticks(es') == d - 1 ==>
            && t < |Tick(m2.core).task|
            && Tick(m2.core).task[t].state == Ready && Tick(m2.core).task[t].timedOut)
  {
    hide Boot, Runnable, Play, After, Inv, Shaped, Step, Tick, Occupies, Struct;
    var (m1, g) := After(m, es);
    var p := RunInv(m, es);
    InvSizes(m1, g, p);
    ListedPlace(m1, g.phase, p, l, t);
    var m2 := Play(m1, es').m;
    if Ticks(es') < m1.core.task[t].delay {
      var g3, p3 := ParkedUntilTheLastTick(m1, g, p, es', t);
      if Ticks(es') == m1.core.task[t].delay - 1 {
        InvSizes(m2, g3, p3);
        StructShaped(m2, g3.phase, p3);
        ReadyAtTheLastTick(m1, g, p, es', t);
        TickIsSysTick(m2);
      }
    }
  }

  /** The run ends with `t` READY. */
  ghost predicate EndsReady(m: Machine, es: seq<Event>, t: Tid) {
    Runnable(m, es) && t < |Play(m, es).m.core.task| && Play(m, es).m.core.task[t].state == Ready
  }

  function OnlyTicks(n: nat): (es: seq<Event>)
    ensures Ticks(es) == n
  {
    if n == 0 then [] else [SysTick] + OnlyTicks(n - 1)
  }

  lemma {:induction false} TicksCanHappen(m: Machine, g: Ledger, p: seq<Place>, n: nat)
    requires Inv(m, g, p)
    ensures Runnable(m, OnlyTicks(n))
    decreases n
  {
    hide Inv, Shaped, Step, Read;
    if n > 0 {
      InvSizes(m, g, p);
      StructShaped(m, g.phase, p);
      var p' := StepKeeps(m, g, p, SysTick);
      var out := Step(m, SysTick);
      TicksCanHappen(out.m, Read(g, out.obs), p', n - 1);
      assert OnlyTicks(n)[1..] == OnlyTicks(n - 1);
    }
  }

  /** In any reachable state in which the worker completes a user-mode delay: some run makes the caller READY again
    * if and only if the delay is not zero. */
  lemma DelayReturnsIff(m: Machine, es: seq<Event>)
    requires Boot(m) && Runnable(m, es)
    requires var m1 := After(m, es).0;
      Executes(m1, m1.worker) && m1.pc[m1.worker].Sleep?
    ensures var m1 := After(m, es).0;
      Shaped(m1) && ((exists es' :: EndsReady(Step(m1, Continue(None)).m, es', m1.pc[m1.worker].caller)) <==> m1.pc[m1.worker].ticks > 0)
  {
    hide Boot, Runnable, Play, After, Inv, Shaped, Step, Struct, Stays, OnlyTicks;
    var (m1, g) := After(m, es);
    var p := RunInv(m, es);
    InvSizes(m1, g, p);
    StructShaped(m1, g.phase, p);
    var p1 := UserDelaySleeps(m1, g, p);
    var out := Step(m1, Continue(None));
    var g1 := Read(g, out.obs);
    var t, n := m1.pc[m1.worker].caller, m1.pc[m1.worker].ticks;
    if n > 0 {
      var es' := OnlyTicks(n - 1);
      TicksCanHappen(out.m, g1, p1, n - 1);
      SleepersStay(out.m, es', t);
      var g2, p2 := ParkedUntilTheLastTick(out.m, g1, p1, es', t);
      InvSizes(Play(out.m, es').m, g2, p2);
      StructShaped(Play(out.m, es').m, g2.phase, p2);
      ReadyAtTheLastTick(out.m, g1, p1, es', t);
      PlayOneMore(out.m, es', SysTick);
      assert EndsReady(out.m, es' + [SysTick], t);
    } else {
      forall es' | EndsReady(out.m, es', t) ensures false {
        StrandedForEver(out.m, g1, p1, es', t);
      }
    }
  }
}
