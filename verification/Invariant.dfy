/** Every enabled event keeps the invariant. */
module Invariant {
  import opened Base
  import opened Selection
  import opened CoreState
  import opened Transitions
  import opened Ledgers
  import opened Places
  import opened Structure
  import opened StructureSteps
  import opened Books
  import opened Serving

  /** A wake-up delivers `r` to a task blocked by SVC and otherwise only makes its task READY. */
  lemma BooksAfterWake(c: Core, g: Ledger, t: Tid, r: nat)
    requires BooksAgree(c, g) && t < |c.task| == |g.phase|
    requires c.task[t].svcBlocked ==> Answers(g.phase[t], r)
    ensures var g' := Read(g, if c.task[t].svcBlocked then [Stored(t, r)] else []);
      && g'.phase == g.phase[t := WokenPhase(c.task[t], g.phase[t])]
      && BooksAgree(WakeTask(c, t, r), g')
  {
    hide SemsHold, OwnersHold, WinsHold, ToldHold, QueuesHold;
    if c.task[t].svcBlocked {
      ReadOne(g, Stored(t, r));
      DeliveryKeeps(c.owner, g.phase, g.told, Stored(t, r));
    } else {
      assert g.phase[t := g.phase[t]] == g.phase;
    }
  }

  /** A step that changes neither objects nor lists, only tasks, the current task, the cursors or the worker's record. */
  lemma BooksAfterQuiet(c: Core, g: Ledger, c': Core)
    requires BooksAgree(c, g)
    requires c' == c.(task := c'.task, current := c'.current, cursor := c'.cursor, kernelTcb := c'.kernelTcb)
    requires |c'.task| == |c.task| && forall t :: 0 <= t < |c.task| ==> c'.task[t].savedR0 == c.task[t].savedR0
    ensures BooksAgree(c', g)
  {
    hide SemsHold, OwnersHold, WinsHold, ToldHold, QueuesHold;
  }

  lemma WakeStepKeeps(m: Machine, g: Ledger, p: seq<Place>, a: Tid) returns (p': seq<Place>)
    requires Inv(m, g, p) && Shaped(m) && Executes(m, a) && m.pc[a].Wake?
    ensures var out := Advance(m, a, None); Inv(out.m, Read(g, out.obs), p')
  {
    hide Struct, BooksAgree, Shaped, Read, Answers;
    WakeFacts(m, g, p, a);
    var w := m.pc[a].waiter;
    BooksAfterWake(m.core, g, w, 0);
    if a == m.worker {
      WorkerWakeKeeps(m, g.phase, p);
      p' := p[w := Nowhere][m.pc[a].next.caller := AtWorker(m.pc[a].next)];
    } else {
      WakeKeeps(m, g.phase, p, a);
      p' := p[w := Nowhere];
    }
  }

  lemma WakeFacts(m: Machine, g: Ledger, p: seq<Place>, a: Tid)
    requires Struct(m, g.phase, p) && a < |m.pc| && m.pc[a].Wake?
    ensures |g.phase| == |m.core.task| == |p| && m.pc[a].waiter < |p|
    ensures m.core.task[m.pc[a].waiter].svcBlocked ==> Answers(g.phase[m.pc[a].waiter], 0)
    ensures a == m.worker ==> m.pc[a].next.Complete? && m.pc[a].next.caller < |p|
  {
    HandedHere(m, g.phase, p, a);
  }

  lemma CompleteStepKeeps(m: Machine, g: Ledger, p: seq<Place>, a: Tid) returns (p': seq<Place>)
    requires Inv(m, g, p) && Shaped(m) && Executes(m, a) && m.pc[a].Complete?
    ensures var out := Advance(m, a, None); Inv(out.m, Read(g, out.obs), p')
  {
    hide BooksAgree, Shaped, Read, ListsHold, RingHolds, HandsHold, WorkHolds, FramesHold, TasksHold;
    WorkerPcMeans(m, g.phase, p, a);
    var t, r := m.pc[a].caller, m.pc[a].result;
    ServedHere(m, g.phase, p, t);
    BooksAfterWake(m.core, g, t, r);
    StageKeeps(m, g.phase, p, t, Woken(m.core.task[t], r), Fetch, Quiet, Nowhere);
    p' := p[t := Nowhere];
  }

  /** Only the worker is ever at a worker's step. */
  lemma WorkerPcMeans(m: Machine, ph: seq<Phase>, p: seq<Place>, a: Tid)
    requires Struct(m, ph, p) && Executes(m, a)
    ensures IsWorkerPc(m.pc[a]) ==> a == m.worker
  {
    if a != m.worker {
      assert TaskHolds(m.core.task[a], m.pc[a], p[a], ph[a]);
    }
  }

  lemma SleepStepKeeps(m: Machine, g: Ledger, p: seq<Place>, a: Tid) returns (p': seq<Place>)
    requires Inv(m, g, p) && Shaped(m) && Executes(m, a) && m.pc[a].Sleep?
    ensures var out := Advance(m, a, None); Inv(out.m, Read(g, out.obs), p')
  {
    hide BooksAgree, Shaped, ListsHold, RingHolds, HandsHold, WorkHolds, FramesHold, TasksHold;
    WorkerPcMeans(m, g.phase, p, a);
    var t, n := m.pc[a].caller, m.pc[a].ticks;
    ServedHere(m, g.phase, p, t);
    var pl := if n > 0 then Sleeping else Stranded;
    assert g.phase[t] == Quiet && g.phase[t := Quiet] == g.phase;
    StageKeeps(m, g.phase, p, t, m.core.task[t].(delay := n, state := Waiting), Fetch, Quiet, pl);
    BooksAfterQuiet(m.core, g, SleepTask(m.core, t, n));
    p' := p[t := pl];
  }

  /** The worker starts, finds nothing to do, or goes to sleep. */
  lemma LoopStepKeeps(m: Machine, g: Ledger, p: seq<Place>, a: Tid) returns (p': seq<Place>)
    requires Inv(m, g, p) && Shaped(m) && Executes(m, a)
    requires m.pc[a].Start? || m.pc[a].Empty? || (m.pc[a].Fetch? && m.core.ring == [])
    ensures var out := Advance(m, a, None); Inv(out.m, Read(g, out.obs), p')
  {
    hide Struct, BooksAgree, Shaped;
    WorkerPcMeans(m, g.phase, p, a);
    IdleWorkerKeeps(m, g.phase, p);
    var out := Advance(m, a, None);
    ReadNone(g);
    BooksAfterQuiet(m.core, g, out.m.core);
    p' := p;
  }

  lemma BooksAfterFetch(c: Core, g: Ledger)
    requires BooksAgree(c, g) && c.ring != []
    ensures var g' := Read(g, [Fetched(c.ring[0])]);
      g'.phase == g.phase && BooksAgree(c.(ring := c.ring[1..]), g')
  {
    hide SemsHold, OwnersHold, WinsHold, ToldHold, QueuesHold;
    ReadOne(g, Fetched(c.ring[0]));
    assert g.fetched + c.ring == (g.fetched + [c.ring[0]]) + c.ring[1..];
  }

  lemma FetchStepKeeps(m: Machine, g: Ledger, p: seq<Place>, a: Tid) returns (p': seq<Place>)
    requires Inv(m, g, p) && Shaped(m) && Executes(m, a)
    requires m.pc[a].Fetch? && m.core.ring != []
    ensures var out := Advance(m, a, None); Inv(out.m, Read(g, out.obs), p')
  {
    hide Struct, BooksAgree, Shaped, Read;
    WorkerPcMeans(m, g.phase, p, a);
    FetchKeeps(m, g.phase, p);
    BooksAfterFetch(m.core, g);
    p' := p[m.core.ring[0].caller := AtWorker(Dispatch(m.core.ring[0]))];
  }

  /** A running task other than the worker: where it is in its code and what that says about its call. */
  lemma RunningTaskMeans(m: Machine, ph: seq<Phase>, p: seq<Place>, t: Tid)
    requires Struct(m, ph, p) && Executes(m, t) && !IsWorkerPc(m.pc[t])
    ensures t != m.worker && t < |ph|
    ensures TaskHolds(m.core.task[t], m.pc[t], Nowhere, ph[t])
    ensures m.pc[t] != User ==> t != m.idle
  {
    assert TaskHolds(m.core.task[t], m.pc[t], p[t], ph[t]);
  }

  /** A privileged call returns its result. */
  lemma ReturnStepKeeps(m: Machine, g: Ledger, p: seq<Place>, t: Tid) returns (p': seq<Place>)
    requires Inv(m, g, p) && Shaped(m) && Executes(m, t) && m.pc[t].Return?
    ensures var out := Advance(m, t, None); Inv(out.m, Read(g, out.obs), p')
  {
    hide Struct, Shaped, SemsHold, OwnersHold, WinsHold, ToldHold, QueuesHold;
    RunningTaskMeans(m, g.phase, p, t);
    var o := Returned(t, m.pc[t].result);
    ReadOne(g, o);
    DeliveryKeeps(m.core.owner, g.phase, g.told, o);
    LocalKeeps(m, g.phase, p, t, m.core.task[t], User, Quiet);
    assert m.core.Set(t, m.core.task[t]) == m.core;
    p' := p;
  }

  /** A privileged call that blocked looks at TIMED_OUT. */
  lemma ResumeStepKeeps(m: Machine, g: Ledger, p: seq<Place>, t: Tid) returns (p': seq<Place>)
    requires Inv(m, g, p) && Shaped(m) && Executes(m, t) && m.pc[t].Resume?
    ensures var out := Advance(m, t, None); Inv(out.m, Read(g, out.obs), p')
  {
    hide Struct, BooksAgree, Shaped;
    RunningTaskMeans(m, g.phase, p, t);
    var out := Advance(m, t, None);
    ReadNone(g);
    var k := out.m.core.task[t];
    LocalKeeps(m, g.phase, p, t, k, out.m.pc[t], g.phase[t]);
    assert m.core.Set(t, k) == out.m.core;
    assert g.phase[t := g.phase[t]] == g.phase;
    BooksAfterQuiet(m.core, g, out.m.core);
    p' := p;
  }

  /** Any call, served by the worker or by the task itself. */
  lemma ServeStepKeeps(m: Machine, g: Ledger, p: seq<Place>, a: Tid, made: Option<Handle>) returns (p': seq<Place>)
    requires Inv(m, g, p) && Shaped(m) && Executes(m, a) && (m.pc[a].Enter? || m.pc[a].Dispatch?)
    requires a < |m.pc| && MayServe(m, a, made)
    ensures var out := Advance(m, a, made); Inv(out.m, Read(g, out.obs), p')
  {
    hide Struct, BooksAgree, Shaped, Read, FreshHandle, Serve;
    match m.pc[a] {
      case Enter(call) =>
        RunningTaskMeans(m, g.phase, p, a);
        p' := ServeKeeps(m, g, p, a, a, call, made);
      case Dispatch(item) =>
        WorkerPcMeans(m, g.phase, p, a);
        ServedHere(m, g.phase, p, item.caller);
        DispatchedIsOther(m, g.phase, p);
        p' := ServeKeeps(m, g, p, a, item.caller, item.call, made);
    }
  }

  lemma DispatchedIsOther(m: Machine, ph: seq<Phase>, p: seq<Place>)
    requires Struct(m, ph, p) && m.pc[m.worker].Dispatch?
    ensures m.pc[m.worker].item.caller < |m.pc| && m.pc[m.worker].item.caller != m.worker
  {
  }

  /** Every step of the running thread. */
  lemma AdvanceKeeps(m: Machine, g: Ledger, p: seq<Place>, a: Tid, made: Option<Handle>) returns (p': seq<Place>)
    requires Inv(m, g, p) && Shaped(m) && Executes(m, a)
    requires a < |m.pc| && MayServe(m, a, made)
    ensures var out := Advance(m, a, made); Inv(out.m, Read(g, out.obs), p')
  {
    hide Inv, Shaped, Read, FreshHandle, Serve, Reenter;
    match m.pc[a] {
      case User => ReadNone(g); p' := p;
      case Enter(_) | Dispatch(_) => p' := ServeStepKeeps(m, g, p, a, made);
      case Resume(_) => p' := ResumeStepKeeps(m, g, p, a);
      case Return(_) => p' := ReturnStepKeeps(m, g, p, a);
      case Wake(_, _) => p' := WakeStepKeeps(m, g, p, a);
      case Complete(_, _) => p' := CompleteStepKeeps(m, g, p, a);
      case Sleep(_, _) => p' := SleepStepKeeps(m, g, p, a);
      case Start | Empty => p' := LoopStepKeeps(m, g, p, a);
      case Fetch =>
        if m.core.ring == [] {
          p' := LoopStepKeeps(m, g, p, a);
        } else {
          p' := FetchStepKeeps(m, g, p, a);
        }
    }
  }

  // ---- Events from outside the running thread ----

  lemma SizesHere(m: Machine, ph: seq<Phase>, p: seq<Place>)
    requires Struct(m, ph, p)
    ensures |ph| == |m.core.task| == |p| == |m.pc|
    ensures m.core.current.Some? && m.core.current.value < |p| && m.core.IsTask(m.core.kernelTcb)
  {
  }

  /** An expired waiter: its wait is decided against it, and the SVC path is answered at once. */
  lemma BooksAfterExpiry(c: Core, g: Ledger, t: Tid)
    requires BooksAgree(c, g) && t < |c.task| == |g.phase|
    requires g.phase[t].Pending? && IsTimed(g.phase[t].call) && Expires(c.task[t])
    ensures var g' := Read(g, if c.task[t].svcBlocked then [Expired(t), Stored(t, FAIL)] else [Expired(t)]);
      && g'.phase == g.phase[t := AgedPhase(c.task[t], g.phase[t])]
      && BooksAgree(c.Set(t, Aged(c.task[t])), g')
  {
    hide BooksAgree, Read, Observe, AgedPhase, Aged;
    var k, ph := c.task[t], g.phase[t];
    ExpiryMeans(k, ph);
    var g1 := Observe(g, Expired(t));
    BooksAfterDecision(c, g, t);
    if k.svcBlocked {
      ReadTwo(g, Expired(t), Stored(t, FAIL));
      ReadOne(g1, Stored(t, FAIL));
      BooksAfterWake(c, g1, t, FAIL);
      BooksAfterQuiet(WakeTask(c, t, FAIL), Observe(g1, Stored(t, FAIL)), c.Set(t, Aged(k)));
    } else {
      ReadOne(g, Expired(t));
      BooksAfterQuiet(c, g1, c.Set(t, Aged(k)));
    }
  }

  lemma ExpiryMeans(k: Task, ph: Phase)
    requires Expires(k) && ph.Pending?
    ensures AgedPhase(k, ph) == if k.svcBlocked then Quiet else Decided(ph.call, FAIL)
    ensures Aged(k).savedR0 == if k.svcBlocked then FAIL else k.savedR0
  {
  }

  lemma BooksAfterDecision(c: Core, g: Ledger, t: Tid)
    requires BooksAgree(c, g) && t < |g.phase| && g.phase[t].Pending? && IsTimed(g.phase[t].call)
    ensures var g' := Observe(g, Expired(t));
      g'.phase == g.phase[t := Decided(g.phase[t].call, FAIL)] && BooksAgree(c, g')
  {
    hide SemsHold, OwnersHold, WinsHold, ToldHold, QueuesHold;
    WinsAfter(c.owner, g.phase, t, Decided(g.phase[t].call, FAIL));
  }

  /** The tasks below `n` aged, the others not yet. */
  function AgedUpTo(c: Core, n: nat): (r: seq<Task>)
    requires n <= |c.task|
    ensures |r| == |c.task|
  {
    seq(|c.task|, t requires 0 <= t < |c.task| => if t < n then Aged(c.task[t]) else c.task[t])
  }

  function PhasesUpTo(c: Core, ph: seq<Phase>, n: nat): (r: seq<Phase>)
    requires n <= |c.task| == |ph|
    ensures |r| == |ph|
  {
    seq(|ph|, t requires 0 <= t < |ph| => if t < n then AgedPhase(c.task[t], ph[t]) else ph[t])
  }

  lemma {:induction false} BooksAfterTick(c: Core, g: Ledger, n: nat)
    requires BooksAgree(c, g) && n <= |c.task| == |g.phase|
    requires forall t :: t in Expiring(c) <==> 0 <= t < |c.task| && Expires(c.task[t])
    requires forall t :: 0 <= t < |c.task| && Expires(c.task[t]) ==> g.phase[t].Pending? && IsTimed(g.phase[t].call)
    ensures var g' := Read(g, TickObs(c, n));
      g'.phase == PhasesUpTo(c, g.phase, n) && BooksAgree(c.(task := AgedUpTo(c, n)), g')
  {
    hide BooksAgree, Expires, Aged, AgedPhase, Expiring, Read, IsTimed;
    if n == 0 {
      ReadNone(g);
      assert AgedUpTo(c, 0) == c.task && PhasesUpTo(c, g.phase, 0) == g.phase;
    } else {
      var t := n - 1;
      BooksAfterTick(c, g, t);
      var g1, c1 := Read(g, TickObs(c, t)), c.(task := AgedUpTo(c, t));
      var last := TickObs(c, n)[|TickObs(c, t)|..];
      assert TickObs(c, n) == TickObs(c, t) + last;
      ReadAppend(g, TickObs(c, t), last);
      assert AgedUpTo(c, n) == c1.task[t := Aged(c.task[t])];
      assert PhasesUpTo(c, g.phase, n) == g1.phase[t := AgedPhase(c.task[t], g.phase[t])];
      if Expires(c.task[t]) {
        BooksAfterExpiry(c1, g1, t);
      } else {
        ReadNone(g1);
        QuietTick(c.task[t], g.phase[t]);
        BooksAfterQuiet(c1, g1, c.(task := AgedUpTo(c, n)));
      }
    }
  }

  lemma QuietTick(k: Task, ph: Phase)
    requires !Expires(k)
    ensures AgedPhase(k, ph) == ph && Aged(k).savedR0 == k.savedR0
  {
  }

  lemma ExpiringMeans(m: Machine, ph: seq<Phase>, p: seq<Place>)
    requires Struct(m, ph, p)
    ensures |ph| == |m.core.task| == |p|
    ensures forall t :: 0 <= t < |p| && Expires(m.core.task[t]) ==> ph[t].Pending? && IsTimed(ph[t].call) && p[t].Listed?
  {
    forall t | 0 <= t < |p| && Expires(m.core.task[t]) ensures ph[t].Pending? && IsTimed(ph[t].call) && p[t].Listed? {
      assert t != m.worker;
      assert TaskHolds(m.core.task[t], m.pc[t], p[t], ph[t]);
    }
  }

  lemma BooksAfterLeaving(c: Core, g: Ledger, gone: set<Tid>, c': Core)
    requires BooksAgree(c, g)
    requires c' == c.(waiters := map l | l in c.waiters :: Without(c.waiters[l], gone))
    ensures BooksAgree(c', g)
  {
    hide SemsHold, OwnersHold, WinsHold, ToldHold, QueuesHold;
    SemsAfterLeave(c.sem, c.waiters, g.balance, c'.waiters);
    OwnersAfterLeave(c.owner, c.waiters, c'.waiters);
  }

  lemma TickStepKeeps(m: Machine, g: Ledger, p: seq<Place>) returns (p': seq<Place>)
    requires Inv(m, g, p)
    ensures p' == AgedPlaces(m.core.task, p)
    ensures Inv(m.(core := Tick(m.core)), Read(g, TickObs(m.core, |m.core.task|)), p')
  {
    hide Struct, BooksAgree, Read, Tick, Expiring, Aged, AgedPhase, AgedPlace, Expires, IsTimed;
    var c, n := m.core, |m.core.task|;
    TickAges(m, g.phase, p);
    ExpiringMeans(m, g.phase, p);
    TickKeeps(m, g.phase, p);
    BooksAfterTick(c, g, n);
    TickParts(c);
    assert AgedUpTo(c, n) == Tick(c).task;
    assert PhasesUpTo(c, g.phase, n) == AgedPhases(c.task, g.phase);
    BooksAfterLeaving(c.(task := AgedUpTo(c, n)), Read(g, TickObs(c, n)), Expiring(c), Tick(c));
    p' := AgedPlaces(c.task, p);
  }

  lemma SwitchStepKeeps(m: Machine, g: Ledger, p: seq<Place>)
    requires Inv(m, g, p) && Shaped(m)
    ensures Inv(m.(core := SwitchContext(m.core)), Read(g, []), p)
  {
    hide Struct, BooksAgree, SwitchContext;
    SizesHere(m, g.phase, p);
    SwitchKeeps(m, g.phase, p);
    var task, n := SwitchChooses(m, g.phase, p);
    ReadNone(g);
    BooksAfterQuiet(m.core, g, SwitchContext(m.core));
  }

  lemma BooksAfterTrap(c: Core, g: Ledger, t: Tid, call: Call)
    requires BooksAgree(c, g) && c.current == Some(t) && t < |c.task| == |g.phase| && c.IsTask(c.kernelTcb)
    requires g.phase[t] == Quiet && SvcEntry(c, call).1
    ensures var g' := Read(g, [Issued(t, call), Posted(Item(call, t))]);
      g'.phase == g.phase[t := Pending(call)] && BooksAgree(SvcEntry(c, call).0, g')
  {
    hide SemsHold, OwnersHold, WinsHold, ToldHold, QueuesHold, Read;
    ReadTwo(g, Issued(t, call), Posted(Item(call, t)));
    WinsAfter(c.owner, g.phase, t, Pending(call));
  }

  /** Trapping issues the call and queues its item, which always fits. */
  lemma TrapStepKeeps(m: Machine, g: Ledger, p: seq<Place>, call: Call) returns (p': seq<Place>)
    requires Inv(m, g, p) && Shaped(m) && CurrentRuns(m) && Calls(m, m.core.current.value)
    ensures SvcEntry(m.core, call).1
    ensures var out := Trap(m, call); Inv(out.m, Read(g, out.obs), p')
  {
    hide Struct, BooksAgree, Shaped, Read, SvcEntry;
    SizesHere(m, g.phase, p);
    var t := m.core.current.value;
    RunningTaskMeans(m, g.phase, p, t);
    TrapKeeps(m, g.phase, p, t, call);
    BooksAfterTrap(m.core, g, t, call);
    assert [Issued(t, call)] + [Posted(Item(call, t))] == [Issued(t, call), Posted(Item(call, t))];
    p' := p[t := InRing(call)];
  }

  lemma InvokeStepKeeps(m: Machine, g: Ledger, p: seq<Place>, t: Tid, call: Call)
    requires Inv(m, g, p) && Shaped(m) && CurrentRuns(m) && m.core.current == Some(t) && Calls(m, t)
    ensures Inv(m.(pc := m.pc[t := Enter(call)]), Read(g, [Issued(t, call)]), p)
  {
    hide Struct, Shaped, SemsHold, OwnersHold, WinsHold, ToldHold, QueuesHold;
    SizesHere(m, g.phase, p);
    RunningTaskMeans(m, g.phase, p, t);
    LocalKeeps(m, g.phase, p, t, m.core.task[t], Enter(call), Pending(call));
    assert m.core.Set(t, m.core.task[t]) == m.core;
    ReadOne(g, Issued(t, call));
    WinsAfter(m.core.owner, g.phase, t, Pending(call));
  }

  /** A give from an interrupt with a waiter: the transfer and the wake-up are one step. */
  lemma IsrHandOverKeeps(m: Machine, g: Ledger, p: seq<Place>, h: Handle) returns (p': seq<Place>)
    requires Inv(m, g, p) && Shaped(m) && h in m.core.sem && m.core.On(SemWaiters(h)) != []
    ensures var out := IsrGive(m, h); Inv(out.m, Read(g, out.obs), p')
  {
    hide Struct, BooksAgree, Shaped, Read, InPool, PopWaiter, SemGive;
    SizesHere(m, g.phase, p);
    var l := SemWaiters(h);
    var w := m.core.On(l)[0];
    ShapedMeans(m);
    GiveCases(m.core, h);
    PopMeans(m.core, l);
    var c1 := PopWaiter(m.core, l).0;
    IsrWakeKeeps(m, g.phase, p, h);
    BooksAfterHandOver(m.core, g, h);
    var transfer, answer := [Gave(h), Took(w, h)], if c1.task[w].svcBlocked then [Stored(w, 0)] else [];
    var g1 := Read(g, transfer);
    BooksAfterWake(c1, g1, w, 0);
    ReadAppend(g, transfer, answer);
    assert Read(g, transfer + answer).phase == g.phase[w := WokenPhase(m.core.task[w], PoppedPhase(g.phase[w], l))];
    p' := p[w := Nowhere];
  }

  lemma ShapedMeans(m: Machine)
    requires Shaped(m)
    ensures InPool(m.core)
  {
  }

  lemma PopMeans(c: Core, l: WaitList)
    requires InPool(c) && c.On(l) != []
    ensures c.On(l)[0] < |c.task|
    ensures var (c1, w) := PopWaiter(c, l);
      w == Some(c.On(l)[0]) && |c1.task| == |c.task| && c1.task[w.value].svcBlocked == c.task[w.value].svcBlocked
  {
    assert c.On(l)[0] in c.waiters[l];
  }

  lemma IsrGiveKeeps(m: Machine, g: Ledger, p: seq<Place>, h: Handle) returns (p': seq<Place>)
    requires Inv(m, g, p) && Shaped(m) && h in m.core.sem
    ensures var out := IsrGive(m, h); Inv(out.m, Read(g, out.obs), p')
  {
    hide Struct, BooksAgree, Shaped, Read, InPool, SemGive;
    ShapedMeans(m);
    if m.core.On(SemWaiters(h)) == [] {
      GiveCases(m.core, h);
      BooksAfterGive(m.core, g, h);
      CountsKeep(m, g.phase, p, h, m.core.sem[h] + 1);
      p' := p;
    } else {
      p' := IsrHandOverKeeps(m, g, p, h);
    }
  }

  lemma CountsKeep(m: Machine, ph: seq<Phase>, p: seq<Place>, h: Handle, n: int)
    requires Struct(m, ph, p)
    ensures Struct(m.(core := m.core.(sem := m.core.sem[h := n])), ph, p)
  {
    hide ListsHold, RingHolds, HandsHold, WorkHolds, Listing, CursorsInLists, TaskHolds;
    ListsStillExist(m.core, m.core.(sem := m.core.sem[h := n]));
  }

  /** Every step of the machine keeps the invariant. */
  lemma StepKeeps(m: Machine, g: Ledger, p: seq<Place>, e: Event) returns (p': seq<Place>)
    requires Inv(m, g, p) && Shaped(m) && Enabled(m, e)
    ensures var out := Step(m, e); Inv(out.m, Read(g, out.obs), p')
  {
    hide Inv, Read, Tick, TickObs, SwitchContext, IsrGive, Trap, Advance, FreshHandle;
    match e {
      case SysTick => p' := TickStepKeeps(m, g, p);
      case PendSV => SwitchStepKeeps(m, g, p); p' := p;
      case GiveFromIsr(h) => p' := IsrGiveKeeps(m, g, p, h);
      case Svc(call) => p' := TrapStepKeeps(m, g, p, call);
      case Invoke(call) => InvokeStepKeeps(m, g, p, m.core.current.value, call); p' := p;
      case Continue(made) => p' := AdvanceKeeps(m, g, p, m.core.current.value, made);
    }
  }
}
