/** Fairness: queue waiters are served first in, first out, and the tasks of one priority take turns. */
module Fairness {
  import opened Base
  import opened CoreState
  import opened Transitions
  import opened Selection
  import opened Handover
  import opened Ledgers
  import Books
  import Invariant
  import opened Places
  import opened Runs
  import opened Serving
  import Structure
  import StructureSteps
  import opened Timers

  /** The list lost its head, gained one member where its kind takes new ones, or stayed. */
  ghost predicate Changes(c: Core, c': Core, l: WaitList) {
    || c'.On(l) == c.On(l)
    || (c.On(l) != [] && c'.On(l) == c.On(l)[1..])
    || (exists t :: Joins(c.On(l), c'.On(l), l, t))
  }

  lemma PopChanges(c: Core, k: WaitList, l: WaitList)
    requires InPool(c)
    ensures Changes(c, PopWaiter(c, k).0, l)
  {
  }

  lemma BlockChanges(c: Core, t: Tid, k: WaitList, timeout: nat, self: bool, l: WaitList)
    requires t < |c.task|
    ensures Changes(c, Block(c, t, k, timeout, self), l)
  {
    BlockLists(c, t, k, timeout, self, l);
  }

  lemma AttemptChanges(c: Core, call: Call, u: Tid, timeout: nat, self: bool, l: WaitList)
    requires InPool(c) && u < |c.task|
    ensures call.SemWait? && call.sem in c.sem && SemAcquire(c, call.sem, u, timeout, self) != Denied ==>
      Changes(c, SemAcquire(c, call.sem, u, timeout, self).core, l)
    ensures call.MutexLock? && call.mutex in c.owner && MutexAcquire(c, call.mutex, u, timeout, self) != Denied ==>
      Changes(c, MutexAcquire(c, call.mutex, u, timeout, self).core, l)
    ensures call.QueueSend? && call.queue in c.queue && SendAttempt(c, call.queue, call.data, u, timeout, self) != Denied ==>
      Changes(c, SendAttempt(c, call.queue, call.data, u, timeout, self).core, l)
    ensures call.QueueRecv? && call.queue in c.queue && ReceiveAttempt(c, call.queue, u, timeout, self) != Denied ==>
      Changes(c, ReceiveAttempt(c, call.queue, u, timeout, self).core, l)
  {
    hide PopWaiter, Block, InPool, Changes;
    match call {
      case SemWait(h, _) =>
        BlockChanges(c, u, SemWaiters(h), timeout, self, l);
        Same(c, l);
      case MutexLock(h, _) =>
        BlockChanges(c, u, MutexWaiters(h), timeout, self, l);
        Same(c, l);
      case QueueSend(q, _, _) =>
        BlockChanges(c, u, Senders(q), timeout, self, l);
        PopChanges(c, Receivers(q), l);
        SameAfter(c, PopWaiter(c, Receivers(q)).0, l);
      case QueueRecv(q, _) =>
        BlockChanges(c, u, Receivers(q), timeout, self, l);
        PopChanges(c, Senders(q), l);
        SameAfter(c, PopWaiter(c, Senders(q)).0, l);
      case _ =>
    }
  }

  lemma Same(c: Core, l: WaitList)
    ensures forall c': Core {:trigger Changes(c, c', l)} :: c'.waiters == c.waiters ==> Changes(c, c', l)
  {
  }

  lemma SameAfter(c: Core, c1: Core, l: WaitList)
    ensures forall c2: Core {:trigger Changes(c, c2, l)} :: c2.waiters == c1.waiters ==> (Changes(c, c2, l) <==> Changes(c, c1, l))
  {
  }

  lemma ServeChanges(m: Machine, actor: Tid, caller: Tid, call: Call, made: Option<Handle>, l: WaitList)
    requires Shaped(m) && actor < |m.pc| && caller < |m.pc|
    ensures Changes(m.core, Serve(m, actor, caller, call, made).m.core, l)
  {
    hide PopWaiter, SemAcquire, MutexAcquire, SendAttempt, ReceiveAttempt, Changes, InPool, Block;
    Same(m.core, l);
    var self := actor != m.worker;
    var timeout := if (call.QueueSend? || call.QueueRecv?) && !self then 0 else Ledgers.Timeout(call);
    AttemptChanges(m.core, call, caller, timeout, self, l);
    match call {
      case SemPost(h) => PopChanges(m.core, SemWaiters(h), l);
      case MutexUnlock(h) =>
        PopChanges(m.core, MutexWaiters(h), l);
        SameAfter(m.core, PopWaiter(m.core, MutexWaiters(h)).0, l);
      case _ =>
    }
  }

  /** Between ticks every step changes a wait list only by taking its head or by adding one task at the end where its kind
    * takes new ones: the front for semaphores and mutexes, the back for queues. */
  lemma StepChanges(m: Machine, e: Event, l: WaitList)
    requires Shaped(m) && Enabled(m, e) && e != SysTick
    ensures Changes(m.core, Step(m, e).m.core, l)
  {
    hide Changes, Serve, PopWaiter, SwitchContext;
    Same(m.core, l);
    match e {
      case GiveFromIsr(h) =>
        PopChanges(m.core, SemWaiters(h), l);
        SameAfter(m.core, SemGive(m.core, h).0, l);
      case PendSV => SwitchSame(m.core);
      case Continue(made) =>
        var t := m.core.current.value;
        match m.pc[t] {
          case Enter(call) => ServeChanges(m, t, t, call, made, l);
          case Dispatch(item) => ServeChanges(m, t, item.caller, item.call, made, l);
          case _ =>
        }
      case _ =>
    }
  }

  lemma SwitchSame(c: Core)
    requires SwitchContext.requires(c)
    ensures SwitchContext(c).waiters == c.waiters
  {
  }

  /** A tick takes the expired waiters off the lists and leaves the others in their order. */
  lemma TickChanges(c: Core, l: WaitList)
    ensures Tick(c).On(l) == Without(c.On(l), Expiring(c))
  {
  }

  // ---- Nobody is overtaken in a queue ----

  ghost predicate Ahead(s: seq<Tid>, u: Tid, v: Tid) {
    exists i, j :: 0 <= i < j < |s| && s[i] == u && s[j] == v
  }

  lemma AheadKept(c: Core, c': Core, l: WaitList, u: Tid, v: Tid)
    requires (l.Senders? || l.Receivers?) && Changes(c, c', l) && NoDuplicates(c.On(l))
    requires Ahead(c.On(l), u, v) && u in c'.On(l)
    ensures Ahead(c'.On(l), u, v)
  {
    var s, s' := c.On(l), c'.On(l);
    var i, j :| 0 <= i < j < |s| && s[i] == u && s[j] == v;
    if s' == s[1..] {
      var k :| 0 <= k < |s'| && s'[k] == u;
      assert s[k + 1] == s[i];
      assert i > 0 && s'[i - 1] == u && s'[j - 1] == v;
    } else if s' != s {
      var t :| Joins(s, s', l, t);
      assert s'[i] == u && s'[j] == v;
    }
  }

  lemma {:induction false} WithoutAhead(s: seq<Tid>, gone: set<Tid>, u: Tid, v: Tid)
    requires Ahead(s, u, v) && u !in gone && v !in gone
    ensures Ahead(Without(s, gone), u, v)
    decreases |s|
  {
    var i, j :| 0 <= i < j < |s| && s[i] == u && s[j] == v;
    var rest, r := s[1..], Without(s[1..], gone);
    assert rest[j - 1] == v;
    if i == 0 {
      assert v in r;
      var k :| 0 <= k < |r| && r[k] == v;
      assert Without(s, gone) == [u] + r;
      assert Without(s, gone)[0] == u && Without(s, gone)[k + 1] == v;
    } else {
      assert rest[i - 1] == u;
      WithoutAhead(rest, gone, u, v);
      var a, b :| 0 <= a < b < |r| && r[a] == u && r[b] == v;
      if s[0] !in gone {
        assert Without(s, gone)[a + 1] == u && Without(s, gone)[b + 1] == v;
      } else {
        assert Without(s, gone) == r;
      }
    }
  }

  lemma StepKeepsOrder(m: Machine, g: Ledgers.Ledger, p: seq<Place>, e: Event, l: WaitList, u: Tid, v: Tid)
    requires Serving.Inv(m, g, p) && Shaped(m) && Enabled(m, e)
    requires (l.Senders? || l.Receivers?) && Ahead(m.core.On(l), u, v)
    requires u in Step(m, e).m.core.On(l) && (e == SysTick ==> v in Step(m, e).m.core.On(l))
    ensures Ahead(Step(m, e).m.core.On(l), u, v)
  {
    hide Step, Ahead, Serving.Inv, Shaped, Changes, Enabled, Tick;
    if e == SysTick {
      TickIsSysTick(m);
      TickChanges(m.core, l);
      WithoutAhead(m.core.On(l), Expiring(m.core), u, v);
    } else {
      StepChanges(m, e, l);
      ListIsOnce(m, g, p, l);
      AheadKept(m.core, Step(m, e).m.core, l, u, v);
    }
  }

  lemma ListIsOnce(m: Machine, g: Ledgers.Ledger, p: seq<Place>, l: WaitList)
    requires Serving.Inv(m, g, p)
    ensures NoDuplicates(m.core.On(l))
  {
    hide NoDuplicates, Books.BooksAgree;
  }

  lemma {:induction false} RunKeepsOrder(m: Machine, g: Ledgers.Ledger, p: seq<Place>, es: seq<Event>, l: WaitList, u: Tid, v: Tid)
    returns (g': Ledgers.Ledger, p': seq<Place>)
    requires Serving.Inv(m, g, p) && Runnable(m, es)
    requires (l.Senders? || l.Receivers?) && Ahead(m.core.On(l), u, v)
    requires Stays(m, es, u, Listed(l)) && Stays(m, es, v, Listed(l))
    ensures Serving.Inv(Play(m, es).m, g', p') && Ahead(Play(m, es).m.core.On(l), u, v)
    decreases |es|
  {
    hide Step, Ahead, Serving.Inv, Shaped, Enabled, Ledgers.Read;
    if es == [] {
      g', p' := g, p;
    } else {
      StepKeepsOrder(m, g, p, es[0], l, u, v);
      var out := Step(m, es[0]);
      var p1 := Invariant.StepKeeps(m, g, p, es[0]);
      g', p' := RunKeepsOrder(out.m, Ledgers.Read(g, out.obs), p1, es[1..], l, u, v);
    }
  }

  /** Queue waiters are served first in, first out: if u waits ahead of v on a queue's list in a reachable state, it is
    * still ahead after every run through which both wait, and then no step other than a tick takes v off the list
    * while u stays. */
  lemma QueueWaitersAreNotOvertaken(m: Machine, es: seq<Event>, es': seq<Event>, e: Event, l: WaitList, u: Tid, v: Tid)
    requires Boot(m) && Runnable(m, es) && (l.Senders? || l.Receivers?)
    requires var m1 := After(m, es).0;
      && Ahead(m1.core.On(l), u, v) && Runnable(m1, es')
      && Stays(m1, es', u, Listed(l)) && Stays(m1, es', v, Listed(l))
    ensures var m2 := Play(After(m, es).0, es').m;
      && Shaped(m2) && Ahead(m2.core.On(l), u, v)
      && (Enabled(m2, e) && e != SysTick && u in Step(m2, e).m.core.On(l) ==> Ahead(Step(m2, e).m.core.On(l), u, v))
  {
    hide Boot, Runnable, After, Play, Serving.Inv, Ahead, Shaped, Enabled, Step, Stays;
    var (m1, g) := After(m, es);
    var p := RunInv(m, es);
    var g2, p2 := RunKeepsOrder(m1, g, p, es', l, u, v);
    var m2 := Play(m1, es').m;
    InvSizes(m2, g2, p2);
    Structure.StructShaped(m2, g2.phase, p2);
    if Enabled(m2, e) && e != SysTick && u in Step(m2, e).m.core.On(l) {
      StepKeepsOrder(m2, g2, p2, e, l, u, v);
    }
  }

  // ---- Bounded waiting at one priority ----

  /** The switch in state `c` chooses from level `q`. */
  ghost predicate ServesLevel(c: Core, q: nat)
    requires c.IsTask(c.current)
  {
    q < |c.order| && TopLevel(c.order, ReadySet(PreemptedTasks(c)), 0, q)
  }

  /** Event `e` in state `m` is a context switch that chooses from level `q`. */
  ghost predicate Serves(m: Machine, e: Event, q: nat) {
    e == PendSV && m.core.IsTask(m.core.current) && ServesLevel(m.core, q)
  }

  /** The number of switches in the run that choose from level `q`. */
  ghost function Switches(m: Machine, es: seq<Event>, q: nat): nat
    requires Runnable(m, es)
    decreases |es|
  {
    if es == [] then 0
    else (if Serves(m, es[0], q) then 1 else 0) + Switches(Step(m, es[0]).m, es[1..], q)
  }

  /** Task `t` is READY at every switch of the run that chooses from level `q`. */
  ghost predicate ReadyWhenServed(m: Machine, es: seq<Event>, t: Tid, q: nat)
    requires Runnable(m, es)
    decreases |es|
  {
    es == []
    || ((Serves(m, es[0], q) ==> t in ReadySet(PreemptedTasks(m.core))) && ReadyWhenServed(Step(m, es[0]).m, es[1..], t, q))
  }

  /** Only switches move the cursors, and nothing changes the priority lists. */
  lemma StepKeepsCursors(m: Machine, e: Event)
    requires Shaped(m) && Enabled(m, e)
    ensures var c := Step(m, e).m.core; c.order == m.core.order && (e != PendSV ==> c.cursor == m.core.cursor)
  {
    hide Serve, PopWaiter, SwitchContext, Tick, SvcEntry;
    match e {
      case SysTick => StructureSteps.TickParts(m.core);
      case PendSV => SwitchKeepsLists(m.core);
      case Svc(call) => TrapKeepsLists(m.core, call);
      case Continue(made) =>
        var t := m.core.current.value;
        match m.pc[t] {
          case Enter(call) => ServeKeepsLists(m, t, t, call, made);
          case Dispatch(item) => ServeKeepsLists(m, t, item.caller, item.call, made);
          case _ =>
        }
      case GiveFromIsr(h) => PopKeepsLists(m.core, SemWaiters(h));
      case _ =>
    }
  }

  lemma PopKeepsLists(c: Core, l: WaitList)
    requires InPool(c)
    ensures PopWaiter(c, l).0.order == c.order && PopWaiter(c, l).0.cursor == c.cursor
  {
  }

  lemma SwitchKeepsLists(c: Core)
    requires SwitchContext.requires(c)
    ensures SwitchContext(c).order == c.order
  {
  }

  lemma TrapKeepsLists(c: Core, call: Call)
    requires SvcEntry.requires(c, call)
    ensures SvcEntry(c, call).0.order == c.order && SvcEntry(c, call).0.cursor == c.cursor
  {
  }

  lemma ServeKeepsLists(m: Machine, actor: Tid, caller: Tid, call: Call, made: Option<Handle>)
    requires Shaped(m) && actor < |m.pc| && caller < |m.pc|
    ensures var c := Serve(m, actor, caller, call, made).m.core; c.order == m.core.order && c.cursor == m.core.cursor
  {
    hide PopWaiter, InPool;
    match call {
      case QueueSend(q, _, _) => PopKeepsLists(m.core, Receivers(q));
      case QueueRecv(q, _) => PopKeepsLists(m.core, Senders(q));
      case SemPost(h) => PopKeepsLists(m.core, SemWaiters(h));
      case MutexUnlock(h) => PopKeepsLists(m.core, MutexWaiters(h));
      case _ =>
    }
  }

  /** A switch that chooses from level `q`: the first READY task of the walk runs and the cursor moves behind it. */
  lemma SwitchFromLevel(c: Core, q: nat) returns (i: nat)
    requires SwitchContext.requires(c) && ServesLevel(c, q)
    ensures |c.cursor| == |c.order| && CursorInList(c.order[q], c.cursor[q])
    ensures var rot := Rotation(c.order[q], c.cursor[q]);
      && First(rot, ReadySet(PreemptedTasks(c))) == Some(i)
      && SwitchContext(c).current == Some(rot[i])
      && SwitchContext(c).cursor == c.cursor[q := Some(NextAfter(rot, i))]
  {
    hide Rotation, First, NextAfter, TopLevel, Select;
    i := SelectAtLevel(c.order, c.cursor, ReadySet(PreemptedTasks(c)), 0, q);
  }

  /** A switch that chooses from another level leaves the cursor of `q` alone. */
  lemma SwitchElsewhere(c: Core, q: nat)
    requires SwitchContext.requires(c) && !ServesLevel(c, q) && q < |c.order|
    ensures |SwitchContext(c).cursor| == |c.cursor| == |c.order| && SwitchContext(c).cursor[q] == c.cursor[q]
  {
    hide Rotation, First, NextAfter, TopLevel;
    var top := SelectIsStrictPriority(c.order, c.cursor, ReadySet(PreemptedTasks(c)), 0);
  }

  /** The event numbered `n` of the run is a switch from level `q` to task `t`. */
  ghost predicate ChosenAt(m: Machine, es: seq<Event>, n: nat, t: Tid, q: nat)
    requires Runnable(m, es)
  {
    n < |es| && Serves(StateAt(m, es, n), es[n], q) && Step(StateAt(m, es, n), es[n]).m.core.current == Some(t)
  }

  lemma ChosenLater(m: Machine, es: seq<Event>, n: nat, t: Tid, q: nat)
    requires Runnable(m, es) && es != [] && ChosenAt(Step(m, es[0]).m, es[1..], n, t, q)
    ensures ChosenAt(m, es, n + 1, t, q)
  {
    hide Shaped, Enabled, Step, Serves;
    StateAtShifts(m, es);
  }

  lemma {:induction false} ServedWithinDistance(m: Machine, es: seq<Event>, t: Tid, q: nat) returns (n: nat)
    requires Runnable(m, es) && ReadyWhenServed(m, es, t, q)
    requires q < |m.core.order| == |m.core.cursor| && NoDuplicates(m.core.order[q])
    requires t in m.core.order[q] && CursorInList(m.core.order[q], m.core.cursor[q])
    requires Distance(m.core.order[q], m.core.cursor[q], t) < Switches(m, es, q)
    ensures ChosenAt(m, es, n, t, q)
    decreases |es|
  {
    hide Runnable, NoDuplicates, ServesLevel, Distance, Rotation, First, NextAfter, Step, Shaped, Enabled, ChosenAt, Switches, ReadyWhenServed;
    RunUnfolds(m, es, t, q);
    var m' := Step(m, es[0]).m;
    StepKeepsCursors(m, es[0]);
    if Serves(m, es[0], q) {
      SwitchStep(m);
      var i := SwitchFromLevel(m.core, q);
      if Rotation(m.core.order[q], m.core.cursor[q])[i] == t {
        n := 0;
        ChosenNow(m, es, t, q);
      } else {
        WalkStops(m.core.order[q], m.core.cursor[q], t, ReadySet(PreemptedTasks(m.core)), i);
        n := ServedWithinDistance(m', es[1..], t, q);
        ChosenLater(m, es, n, t, q);
        n := n + 1;
      }
    } else {
      if es[0] == PendSV {
        SwitchStep(m);
        SwitchElsewhere(m.core, q);
      }
      n := ServedWithinDistance(m', es[1..], t, q);
      ChosenLater(m, es, n, t, q);
      n := n + 1;
    }
  }

  lemma RunUnfolds(m: Machine, es: seq<Event>, t: Tid, q: nat)
    requires Runnable(m, es) && ReadyWhenServed(m, es, t, q) && Switches(m, es, q) > 0
    ensures es != [] && Shaped(m) && Enabled(m, es[0]) && Runnable(Step(m, es[0]).m, es[1..])
    ensures Serves(m, es[0], q) ==> t in ReadySet(PreemptedTasks(m.core))
    ensures ReadyWhenServed(Step(m, es[0]).m, es[1..], t, q)
    ensures Switches(m, es, q) == (if Serves(m, es[0], q) then 1 else 0) + Switches(Step(m, es[0]).m, es[1..], q)
  {
    hide Shaped, Enabled, Step, Serves;
  }

  lemma SwitchStep(m: Machine)
    requires Shaped(m)
    ensures SwitchContext.requires(m.core) && Step(m, PendSV).m.core == SwitchContext(m.core)
  {
    hide SwitchContext;
  }

  lemma ChosenNow(m: Machine, es: seq<Event>, t: Tid, q: nat)
    requires Runnable(m, es) && es != [] && Serves(m, es[0], q) && Step(m, es[0]).m.core.current == Some(t)
    ensures ChosenAt(m, es, 0, t, q)
  {
    hide Shaped, Enabled, Step, Serves;
  }

  /** The walk does not pass a READY task; when it stops before `t` the cursor comes closer to it. */
  lemma WalkStops(list: seq<Tid>, cursor: Option<Tid>, t: Tid, ready: set<Tid>, i: nat)
    requires NoDuplicates(list) && CursorInList(list, cursor) && t in list && t in ready
    requires First(Rotation(list, cursor), ready) == Some(i) && Rotation(list, cursor)[i] != t
    ensures var next := NextAfter(Rotation(list, cursor), i);
      next in list && Distance(list, Some(next), t) < Distance(list, cursor, t)
  {
    var d := Distance(list, cursor, t);
    assert Rotation(list, cursor)[d] == t;
    DistanceShrinks(list, cursor, t, i);
  }

  /** How many tasks the walk of its level passes before it meets `t`. */
  ghost function RingDistance(c: Core, t: Tid): nat
    requires t < |c.task|
  {
    var q := c.task[t].prio;
    if q < |c.order| && q < |c.cursor| && t in c.order[q] && CursorInList(c.order[q], c.cursor[q])
    then Distance(c.order[q], c.cursor[q], t) else 0
  }

  /** How many tasks share the priority of `t`. */
  function LevelSize(c: Core, t: Tid): nat
    requires t < |c.task|
  {
    if c.task[t].prio < |c.order| then |c.order[c.task[t].prio]| else 0
  }

  /** Bounded waiting: from any reachable state, a task that is READY at every switch that chooses from its priority is
    * chosen by one of the next d + 1 such switches, where d is its ring distance from the cursor. */
  lemma RoundRobinBoundedWaiting(m: Machine, es: seq<Event>, es': seq<Event>, t: Tid) returns (n: nat)
    requires Boot(m) && Runnable(m, es)
    requires var m1 := After(m, es).0;
      && t < |m1.core.task| && Runnable(m1, es') && ReadyWhenServed(m1, es', t, m1.core.task[t].prio)
    requires var m1 := After(m, es).0; RingDistance(m1.core, t) < Switches(m1, es', m1.core.task[t].prio)
    ensures var m1 := After(m, es).0; ChosenAt(m1, es', n, t, m1.core.task[t].prio)
  {
    hide Boot, Runnable, After, Inv, ReadyWhenServed, Switches, ChosenAt, Distance;
    var (m1, g) := After(m, es);
    var p := RunInv(m, es);
    InvSizes(m1, g, p);
    ListedHere(m1, g.phase, p, t);
    n := ServedWithinDistance(m1, es', t, m1.core.task[t].prio);
  }

  lemma ListedHere(m: Machine, ph: seq<Phase>, p: seq<Place>, t: Tid)
    requires Structure.Struct(m, ph, p) && t < |m.core.task|
    ensures var q := m.core.task[t].prio;
      && q < |m.core.order| == |m.core.cursor| && t in m.core.order[q] && NoDuplicates(m.core.order[q])
      && CursorInList(m.core.order[q], m.core.cursor[q])
  {
  }

  /** The same bound in terms of the level alone: among as many switches from its level as the level has tasks, one
    * chooses it. */
  lemma RoundRobinServesEveryone(m: Machine, es: seq<Event>, es': seq<Event>, t: Tid) returns (n: nat)
    requires Boot(m) && Runnable(m, es)
    requires var m1 := After(m, es).0;
      && t < |m1.core.task| && Runnable(m1, es') && ReadyWhenServed(m1, es', t, m1.core.task[t].prio)
      && LevelSize(m1.core, t) <= Switches(m1, es', m1.core.task[t].prio)
    ensures var m1 := After(m, es).0; ChosenAt(m1, es', n, t, m1.core.task[t].prio)
  {
    hide Boot, Runnable, After, ReadyWhenServed, Switches, ChosenAt, Inv;
    var (m1, g) := After(m, es);
    var p := RunInv(m, es);
    InvSizes(m1, g, p);
    ListedHere(m1, g.phase, p, t);
    n := RoundRobinBoundedWaiting(m, es, es', t);
  }
}
