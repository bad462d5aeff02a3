/** Safety over whole runs: whatever events happen after boot, in any order and number. */
module Runs {
  import opened Base
  import opened Selection
  import opened CoreState
  import opened Transitions
  import opened Ledgers
  import opened Places
  import opened Structure
  import StructureSteps
  import opened Books
  import opened Serving
  import opened Invariant
  import Chains

  /** A fixed set of tasks right after port_start_first_task: the worker, alone at priority 0, was picked first;
    * everything else is READY and nothing was created or posted yet. */
  ghost predicate Boot(m: Machine) {
    && |m.pc| == |m.core.task| <= MAX_TASKS
    && m.worker < |m.pc| && m.idle < |m.pc| && m.worker != m.idle
    && (forall t :: 0 <= t < |m.pc| ==> FreshTask(m.core.task[t], m.pc[t], t == m.worker))
    && Listing(m.core.order, m.core.task, m.worker)
    && CursorsInLists(m.core.order, m.core.cursor)
    && m.core.current == Some(m.worker) && m.core.kernelTcb == None
    && m.core.ring == []
    && m.core.sem == map[] && m.core.owner == map[] && m.core.queue == map[] && m.core.waiters == map[]
  }

  predicate FreshTask(k: Task, pc: Pc, isWorker: bool) {
    && k.state == (if isWorker then Running else Ready)
    && pc == (if isWorker then Start else User)
    && !k.svcBlocked && Untimed(k)
  }

  ghost predicate Runnable(m: Machine, es: seq<Event>)
    decreases |es|
  {
    es == [] || (Shaped(m) && Enabled(m, es[0]) && Runnable(Step(m, es[0]).m, es[1..]))
  }

  /** The machine after the events, and everything observed on the way. */
  ghost function Play(m: Machine, es: seq<Event>): Out
    requires Runnable(m, es)
    decreases |es|
  {
    if es == [] then Out(m, [])
    else
      var first := Step(m, es[0]);
      var rest := Play(first.m, es[1..]);
      Out(rest.m, first.obs + rest.obs)
  }

  /** The machine before event `n` of the run, or at its end. */
  ghost function StateAt(m: Machine, es: seq<Event>, n: nat): (r: Machine)
    requires Runnable(m, es) && n <= |es|
    ensures n < |es| ==> Shaped(r) && Enabled(r, es[n])
    decreases |es|
  {
    if n == 0 then m else StateAt(Step(m, es[0]).m, es[1..], n - 1)
  }

  lemma {:induction false} StateAtIsPlayed(m: Machine, es: seq<Event>, n: nat)
    requires Runnable(m, es) && n <= |es|
    ensures Runnable(m, es[..n]) && Play(m, es[..n]).m == StateAt(m, es, n)
    ensures Play(m, es[..n]).obs <= Play(m, es).obs
    decreases |es|
  {
    hide Shaped, Enabled, Step;
    if n == 0 {
      assert es[..0] == [];
    } else {
      StateAtIsPlayed(Step(m, es[0]).m, es[1..], n - 1);
      assert es[..n][1..] == es[1..][..n - 1] && es[..n][0] == es[0];
    }
  }

  lemma StateAtShifts(m: Machine, es: seq<Event>)
    requires Runnable(m, es) && es != []
    ensures Runnable(Step(m, es[0]).m, es[1..])
    ensures StateAt(m, es, 0) == m
    ensures forall j :: 0 < j <= |es| ==> StateAt(m, es, j) == StateAt(Step(m, es[0]).m, es[1..], j - 1)
  {
    hide Shaped, Enabled, Step;
  }

  lemma {:induction false} PlayOneMore(m: Machine, es: seq<Event>, e: Event)
    requires Runnable(m, es) && Shaped(Play(m, es).m) && Enabled(Play(m, es).m, e)
    ensures Runnable(m, es + [e]) && Play(m, es + [e]).m == Step(Play(m, es).m, e).m
    ensures Play(m, es + [e]).obs == Play(m, es).obs + Step(Play(m, es).m, e).obs
    decreases |es|
  {
    hide Shaped, Enabled, Step;
    if es == [] {
      assert es + [e] == [e] && [e][1..] == [];
      assert Play(Step(m, e).m, []) == Out(Step(m, e).m, []);
    } else {
      var first := Step(m, es[0]);
      PlayOneMore(first.m, es[1..], e);
      assert (es + [e])[1..] == es[1..] + [e];
    }
  }

  lemma BootInv(m: Machine) returns (p: seq<Place>)
    requires Boot(m)
    ensures Inv(m, Blank(m.core.task), p)
  {
    p := seq(|m.pc|, _ => Nowhere);
  }

  lemma {:induction false} PlayKeeps(m: Machine, g: Ledger, p: seq<Place>, es: seq<Event>) returns (p': seq<Place>)
    requires Inv(m, g, p) && Runnable(m, es)
    ensures var out := Play(m, es); Inv(out.m, Read(g, out.obs), p')
    decreases |es|
  {
    hide Inv, Step, Shaped, Enabled, Read;
    if es == [] {
      ReadNone(g);
      p' := p;
    } else {
      var first := Step(m, es[0]);
      var p1 := StepKeeps(m, g, p, es[0]);
      var g1 := Read(g, first.obs);
      p' := PlayKeeps(first.m, g1, p1, es[1..]);
      ReadAppend(g, first.obs, Play(first.m, es[1..]).obs);
    }
  }

  /** The machine and the ledger after a run from boot. */
  ghost function After(m: Machine, es: seq<Event>): (r: (Machine, Ledger))
    requires Boot(m) && Runnable(m, es)
  {
    (Play(m, es).m, Read(Blank(m.core.task), Play(m, es).obs))
  }

  lemma RunInv(m: Machine, es: seq<Event>) returns (p: seq<Place>)
    requires Boot(m) && Runnable(m, es)
    ensures var (m', g) := After(m, es); Inv(m', g, p)
  {
    hide Boot, Inv, Runnable, Play, Read;
    var p0 := BootInv(m);
    p := PlayKeeps(m, Blank(m.core.task), p0, es);
  }

  // ---- What holds in every reachable state ----

  /** No step of any run is ill-defined. */
  lemma EveryStepIsDefined(m: Machine, es: seq<Event>)
    requires Boot(m) && Runnable(m, es)
    ensures Shaped(After(m, es).0)
  {
    hide Boot, Runnable, After;
    var p := RunInv(m, es);
    StructShaped(After(m, es).0, After(m, es).1.phase, p);
  }

  /** Exactly-once completion. No task's calls ever leave the protocol: one result per call, equal to the one
    * decided by the transfer, the refusal or the time-out; the saved R0 is the last result stored; and a task
    * that runs its own code again has been answered. */
  lemma CallsCompleteExactlyOnce(m: Machine, es: seq<Event>, t: Tid)
    requires Boot(m) && Runnable(m, es)
    requires t < |After(m, es).1.phase|
    ensures var (m', g) := After(m, es);
      && |m'.core.task| == |m'.pc| == |g.phase| == |g.stored|
      && g.phase[t] != Broken
      && g.stored[t] == m'.core.task[t].savedR0
      && (m'.pc[t] == User && m'.core.task[t].state != Waiting ==> g.phase[t] == Quiet)
  {
    hide Boot, Runnable, After, ListsHold, RingHolds, HandsHold, WorkHolds, Listing, SemsHold, OwnersHold, WinsHold, ToldHold, QueuesHold;
    var (m', g) := After(m, es);
    var p := RunInv(m, es);
    assert t != m'.worker ==> TaskHolds(m'.core.task[t], m'.pc[t], p[t], g.phase[t]);
  }

  /** The work ring never fills, so a trap never fails, and items are fetched in the order they were posted. */
  lemma WorkRingNeverOverflows(m: Machine, es: seq<Event>)
    requires Boot(m) && Runnable(m, es)
    ensures var (m', g) := After(m, es);
      && |m'.core.ring| < KWORK_QUEUE_SIZE - 1
      && g.posted == g.fetched + m'.core.ring
      && Shaped(m')
      && (CurrentRuns(m') ==> forall call :: SvcEntry(m'.core, call).1)
  {
    hide Boot, Runnable, After, Shaped, ListsHold, HandsHold, WorkHolds, Listing, SemsHold, OwnersHold, WinsHold, ToldHold, QueuesHold, TasksHold;
    var (m', g) := After(m, es);
    var p := RunInv(m, es);
    StructShaped(m', g.phase, p);
    RingHasRoom(m'.core.ring, p);
  }

  /** No lost wakeup: a worker that waits has nothing to do, and whoever runs meanwhile finds it so. */
  lemma NoLostWakeup(m: Machine, es: seq<Event>)
    requires Boot(m) && Runnable(m, es)
    ensures var m' := After(m, es).0;
      && m'.worker < |m'.core.task| == |m'.pc|
      && (m'.core.task[m'.worker].state == Waiting ==> m'.core.ring == [] && m'.pc[m'.worker] == Fetch)
      && (forall t :: 0 <= t < |m'.core.task| && t != m'.worker && m'.core.task[t].state == Running ==>
            m'.core.task[m'.worker].state == Waiting)
  {
    hide Boot, Runnable, After, ListsHold, RingHolds, HandsHold, WorkHolds, Listing, TasksHold, BooksAgree;
    var p := RunInv(m, es);
  }

  /** Conservation of units, with transfers counted as takes. A positive count means nobody waits. */
  lemma SemaphoresConserveUnits(m: Machine, es: seq<Event>, h: Handle)
    requires Boot(m) && Runnable(m, es)
    requires h in After(m, es).0.core.sem
    ensures var (m', g) := After(m, es);
      && m'.core.sem[h] == At(g.balance, h, 0) >= 0
      && (m'.core.sem[h] > 0 ==> m'.core.On(SemWaiters(h)) == [])
  {
    hide Boot, Runnable, After, Struct, OwnersHold, WinsHold, ToldHold, QueuesHold;
    var p := RunInv(m, es);
  }

  /** Mutual exclusion over runs: every task that was told it holds the mutex, and has not unlocked since, is the
    * owner, so there is at most one. Waiters imply an owner, and the owner is not among them. */
  lemma MutexesExclude(m: Machine, es: seq<Event>, h: Handle)
    requires Boot(m) && Runnable(m, es)
    ensures var (m', g) := After(m, es);
      && (forall t :: t in At(g.told, h, {}) ==> Holds(m'.core.owner, h, t))
      && (forall t, u :: t in At(g.told, h, {}) && u in At(g.told, h, {}) ==> t == u)
      && (h in m'.core.owner && m'.core.On(MutexWaiters(h)) != [] ==>
            m'.core.owner[h].Some? && m'.core.owner[h].value !in m'.core.On(MutexWaiters(h)))
  {
    hide Boot, Runnable, After, Struct, SemsHold, WinsHold, QueuesHold;
    var (m', g) := After(m, es);
    var p := RunInv(m, es);
    forall t, u | t in At(g.told, h, {}) && u in At(g.told, h, {}) ensures t == u {
      assert Holds(m'.core.owner, h, t) && Holds(m'.core.owner, h, u);
    }
  }

  /** Every queue is a bounded FIFO: the popped items are a prefix of the pushed ones, the rest is queued, and it is never
    * more than the queue's buffer has room for. */
  lemma QueuesAreFifo(m: Machine, es: seq<Event>, q: Handle)
    requires Boot(m) && Runnable(m, es)
    requires q in After(m, es).0.core.queue
    ensures var (m', g) := After(m, es);
      && At(g.popped, q, []) <= At(g.pushed, q, [])
      && At(g.pushed, q, []) == At(g.popped, q, []) + m'.core.queue[q].items
      && QueueOk(m'.core.queue[q])
  {
    hide Boot, Runnable, After, Struct, SemsHold, OwnersHold, WinsHold, ToldHold;
    var p := RunInv(m, es);
  }

  // ---- Exactly one place ----

  /** Task `t` is in place `x`, read off the kernel's data alone. */
  ghost predicate Occupies(m: Machine, t: Tid, x: Place)
    requires t < |m.core.task| == |m.pc| && m.worker < |m.pc|
  {
    var k := m.core.task[t];
    match x
    case Nowhere => k.state != Waiting
    case InRing(call) => Item(call, t) in m.core.ring
    case AtWorker(stage) => stage == m.pc[m.worker] && Subject(stage) == Some(t)
    case Listed(l) => t in m.core.On(l)
    case Handed(a) => a < |m.pc| && m.pc[a].Wake? && m.pc[a].waiter == t
    case Sleeping => Sleeps(k)
    case Stranded => k.state == Waiting && Untimed(k) && !k.svcBlocked && m.pc[t] == User && Subject(m.pc[m.worker]) != Some(t)
  }

  lemma PlaceIsOccupied(m: Machine, g: Ledger, p: seq<Place>, t: Tid, x: Place)
    requires Inv(m, g, p) && t < |p| && t != m.worker
    ensures |m.pc| == |m.core.task| == |p| && m.worker < |p|
    ensures Occupies(m, t, x) <==> x == p[t]
  {
    hide BooksAgree, Listing, CursorsInLists, ListsExist, NoDuplicates;
    assert TaskHolds(m.core.task[t], m.pc[t], p[t], g.phase[t]);
    if x.InRing? && Occupies(m, t, x) {
      var i :| 0 <= i < |m.core.ring| && m.core.ring[i] == Item(x.call, t);
    }
  }

  /** In every reachable state each task except the worker is in exactly one place: awake, in the ring, being
    * served, on one wait list, being handed over, asleep, or asleep for ever. */
  lemma BlockedTasksAreInOnePlace(m: Machine, es: seq<Event>, t: Tid) returns (at: Place)
    requires Boot(m) && Runnable(m, es)
    requires var m' := After(m, es).0; t < |m'.core.task| && t != m'.worker
    ensures var m' := After(m, es).0;
      && |m'.core.task| == |m'.pc| && m'.worker < |m'.pc|
      && forall x :: Occupies(m', t, x) <==> x == at
  {
    hide Boot, Runnable, After, Inv, Occupies;
    var (m', g) := After(m, es);
    var p := RunInv(m, es);
    InvSizes(m', g, p);
    at := p[t];
    forall x ensures Occupies(m', t, x) <==> x == at {
      PlaceIsOccupied(m', g, p, t, x);
    }
  }

  lemma InvSizes(m: Machine, g: Ledger, p: seq<Place>)
    requires Inv(m, g, p)
    ensures |m.pc| == |m.core.task| == |p| == |g.phase| && m.worker < |p| && Struct(m, g.phase, p)
  {
  }

  /** The wait lists never share a member and no member occurs twice. A member waits, and is marked with its own list if
    * it has a time limit, unmarked otherwise; and a task that is marked with a list is on it, with a time limit. */
  lemma WaitListsAreDisjoint(m: Machine, es: seq<Event>, l: WaitList, t: Tid)
    requires Boot(m) && Runnable(m, es) && t < |After(m, es).0.core.task|
    ensures var c := After(m, es).0.core;
      && NoDuplicates(c.On(l))
      && (t in c.On(l) ==>
            && c.task[t].state == Waiting
            && (forall l' :: t in c.On(l') ==> l' == l)
            && (if c.task[t].delay > 0 then c.task[t].blockingOn == Some(l) else c.task[t].blockingOn == None))
      && (c.task[t].blockingOn == Some(l) ==> t in c.On(l) && c.task[t].delay > 0)
      && (forall u :: u in c.On(l) ==> u < |c.task|)
  {
    hide Boot, Runnable, After, RingHolds, HandsHold, WorkHolds, Listing, BooksAgree, NoDuplicates;
    var (m', g) := After(m, es);
    var p := RunInv(m, es);
    assert t != m'.worker ==> TaskHolds(m'.core.task[t], m'.pc[t], p[t], g.phase[t]);
  }

  /** A task that runs, or whose call the worker is serving, is on no wait list: what the blocking methods of
    * class Kernel require of the task that they append. */
  lemma CallersAreOnNoList(m: Machine, es: seq<Event>, t: Tid)
    requires Boot(m) && Runnable(m, es)
    requires var m' := After(m, es).0; t < |m'.core.task| && t != m'.worker && m'.worker < |m'.pc|
    requires var m' := After(m, es).0; m'.core.task[t].state != Waiting || Subject(m'.pc[m'.worker]) == Some(t)
    ensures Chains.OnNoList(After(m, es).0.core.waiters, t)
  {
    hide Boot, Runnable, After, Occupies, Inv;
    var m' := After(m, es).0;
    var at := BlockedTasksAreInOnePlace(m, es, t);
    var served := AtWorker(m'.pc[m'.worker]);
    AwakeOrServed(m', t);
    forall l ensures t !in ListOf(m'.core.waiters, l) {
      ListedMeans(m', t, l);
      assert Occupies(m', t, Listed(l)) <==> Listed(l) == at;
      assert Occupies(m', t, Nowhere) <==> Nowhere == at;
      assert Occupies(m', t, served) <==> served == at;
    }
  }

  lemma AwakeOrServed(m: Machine, t: Tid)
    requires t < |m.core.task| == |m.pc| && m.worker < |m.pc|
    requires m.core.task[t].state != Waiting || Subject(m.pc[m.worker]) == Some(t)
    ensures Occupies(m, t, Nowhere) || Occupies(m, t, AtWorker(m.pc[m.worker]))
  {
  }

  lemma ListedMeans(m: Machine, t: Tid, l: WaitList)
    requires t < |m.core.task| == |m.pc| && m.worker < |m.pc|
    ensures Occupies(m, t, Listed(l)) <==> t in ListOf(m.core.waiters, l)
  {
  }

  // ---- Context switches ----

  /** After a switch exactly the chosen task runs; it was READY, or RUNNING before the switch, and no READY task
    * has a smaller priority number. */
  lemma SwitchRunsTopPriority(m: Machine, es: seq<Event>)
    requires Boot(m) && Runnable(m, es)
    ensures var m' := After(m, es).0;
      && Shaped(m')
      && var c' := SwitchContext(m'.core);
      && c'.current.Some? && c'.current.value < |c'.task| == |m'.core.task|
      && m'.core.task[c'.current.value].state in {Ready, Running}
      && (forall t :: 0 <= t < |c'.task| ==> (c'.task[t].state == Running <==> c'.current == Some(t)))
      && (forall t :: 0 <= t < |c'.task| && c'.task[t].state == Ready ==> c'.task[c'.current.value].prio <= c'.task[t].prio)
  {
    hide Boot, Runnable, After, Shaped, SwitchContext, ListsHold, RingHolds, HandsHold, WorkHolds, Listing, TasksHold, BooksAgree;
    var (m', g) := After(m, es);
    var p := RunInv(m, es);
    var task, n := StructureSteps.SwitchChooses(m', g.phase, p);
  }

  /** The idle task is needed: a switch turns a blocked current task into the RUNNING one exactly when no task
    * that is on a list is READY. */
  lemma SwitchResumesBlockedIffNothingReady(c: Core)
    requires c.current.Some? && c.IsTask(c.current) && c.task[c.current.value].state == Waiting
    requires CursorsInLists(c.order, c.cursor)
    requires forall p, t {:trigger t in c.order[p]} :: 0 <= p < |c.order| && t in c.order[p] ==> t < |c.task|
    ensures |SwitchContext(c).task| == |c.task|
    ensures SwitchContext(c).task[c.current.value].state == Running
      <==> (forall p, t {:trigger t in c.order[p]} :: 0 <= p < |c.order| && t in c.order[p] ==> c.task[t].state != Ready)
  {
    var cur := c.current.value;
    assert c.task[cur := Preempted(c.task[cur])] == c.task;
    var q := SelectIsStrictPriority(c.order, c.cursor, ReadySet(c.task), 0);
    if q < |c.order| {
      var n := Select(c.order, c.cursor, ReadySet(c.task), 0).task;
      assert n in c.order[q] && c.task[n].state == Ready;
    } else {
      forall p, t {:trigger t in c.order[p]} | 0 <= p < |c.order| && t in c.order[p] ensures c.task[t].state != Ready {
        assert NoneReady(c.order[p], ReadySet(c.task));
      }
    }
  }

  // ---- The system of src/main.c boots ----

  /** The five tasks of the demo application: worker, producer, consumer, probe and idle. */
  function MainSystem(): Machine {
    var prios := [0, 1, 2, 3, 7];
    var task := seq(5, t requires 0 <= t < 5 => Task(if t == 0 then Running else Ready, prios[t], false, false, 0, None, 0));
    Machine(
      Core(task, Some(0), [[0], [1], [2], [3], [], [], [], [4]], [Some(0), None, None, None, None, None, None, None],
           [], None, map[], map[], map[], map[]),
      [Start, User, User, User, User], 0, 4)
  }

  lemma MainListing(task: seq<Task>)
    requires |task| == 5 && task[0].prio == 0 && task[1].prio == 1 && task[2].prio == 2 && task[3].prio == 3 && task[4].prio == 7
    ensures Listing([[0], [1], [2], [3], [], [], [], [4]], task, 0)
  {
  }

  lemma MainSystemBoots()
    ensures Boot(MainSystem())
  {
    hide Listing;
    var m := MainSystem();
    MainListing(m.core.task);
    assert m.core.order[0] == [0] && m.core.order[1] == [1] && m.core.order[2] == [2] && m.core.order[3] == [3] && m.core.order[7] == [4];
    assert CursorInList(m.core.order[0], m.core.cursor[0]);
  }
}
