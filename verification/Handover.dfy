/** What an attempt does to its caller and to the wait lists: it succeeds, fails or waits exactly when it should, and whoever
  * frees something releases the first that waits for it. */
module Handover {
  import Books
  import opened Base
  import opened CoreState
  import opened Transitions
  import opened Ledgers
  import opened Places
  import opened Serving
  import opened Runs
  import opened Outcomes
  import Structure

  /** The observation frees what the tasks on `l` wait for: room, an item, a unit or a mutex. */
  predicate Releases(o: Obs, l: WaitList) {
    match o
    case Popped(_, q, _) => l == Senders(q)
    case Pushed(_, q, _) => l == Receivers(q)
    case Gave(h) => l == SemWaiters(h)
    case Unlocked(_, h) => l == MutexWaiters(h)
    case _ => false
  }

  ghost predicate Releasing(obs: seq<Obs>, l: WaitList) {
    exists o :: o in obs && Releases(o, l)
  }

  /** The call has to wait on `l`: it cannot be satisfied now, and it may wait. */
  predicate MustWait(c: Core, call: Call, t: Tid, byWorker: bool, l: WaitList) {
    IsAttempt(call) && WaitsOn(call, l) && Unavailable(c, call, t) && !MustFail(c, call, t, byWorker)
  }

  /** Mutexes and semaphores serve the last that came first, queues the first that came. */
  ghost predicate Joins(s: seq<Tid>, s': seq<Tid>, l: WaitList, t: Tid) {
    match l
    case SemWaiters(_) => s' == [t] + s
    case MutexWaiters(_) => s' == [t] + s
    case _ => s' == s + [t]
  }

  /** How `l` changes in a step that makes the observations `obs` and in which `joins`, if anybody, has to wait. */
  ghost predicate ListChanges(c: Core, c': Core, obs: seq<Obs>, l: WaitList, joins: Option<Tid>) {
    if Releasing(obs, l) && c.On(l) != [] then c'.On(l) == c.On(l)[1..]
    else if joins.Some? then Joins(c.On(l), c'.On(l), l, joins.value)
    else c'.On(l) == c.On(l)
  }

  function Joiner(c: Core, call: Call, t: Tid, byWorker: bool, l: WaitList): Option<Tid> {
    if MustWait(c, call, t, byWorker, l) then Some(t) else None
  }

  // ---- Serving a call ----

  lemma PopLists(c: Core, k: WaitList, l: WaitList)
    requires InPool(c)
    ensures var (c', w) := PopWaiter(c, k);
      c'.On(l) == if l == k && c.On(k) != [] then c.On(k)[1..] else c.On(l)
  {
  }

  lemma BlockLists(c: Core, t: Tid, k: WaitList, timeout: nat, self: bool, l: WaitList)
    requires t < |c.task|
    ensures var c' := Block(c, t, k, timeout, self);
      && (if l == k then Joins(c.On(l), c'.On(l), l, t) else c'.On(l) == c.On(l))
      && t < |c'.task| && LimitSet(c'.task[t], k, timeout) && (self ==> c'.task[t].state == Waiting && !c'.task[t].timedOut)
      && (!self ==> c'.task[t].state == c.task[t].state)
  {
  }

  /** The task remembers the time limit of its wait, and on which list it waits, or that there is no limit. */
  predicate LimitSet(k: Task, l: WaitList, timeout: nat) {
    if timeout == WAIT_FOREVER then k.delay == 0 && k.blockingOn == None else k.delay == timeout && k.blockingOn == Some(l)
  }

  /** An attempt succeeds, fails or waits. */
  ghost predicate AttemptEnds(m: Machine, out: Out, caller: Tid, call: Call, byWorker: bool) {
    if !Unavailable(m.core, call, caller) then |out.obs| == 1 && Decides(out.obs[0], caller, call, 0)
    else if MustFail(m.core, call, caller, byWorker) then out.obs == [Refused(caller)]
    else
      && out.obs == [] && caller < |out.m.core.task|
      && (forall l :: WaitsOn(call, l) ==> LimitSet(out.m.core.task[caller], l, Timeout(call)) && caller in out.m.core.On(l))
      && (!byWorker ==> out.m.core.task[caller].state == Waiting)
  }

  lemma AcquireServed(m: Machine, actor: Tid, caller: Tid, call: Call, made: Option<Handle>)
    requires Shaped(m) && actor < |m.pc| && caller < |m.pc| && (call.SemWait? || call.MutexLock?)
    ensures AttemptEnds(m, Serve(m, actor, caller, call, made), caller, call, actor == m.worker)
  {
    hide InPool, Block;
    var l := if call.SemWait? then SemWaiters(call.sem) else MutexWaiters(call.mutex);
    BlockLists(m.core, caller, l, call.timeout, actor != m.worker, l);
  }

  lemma QueueServed(m: Machine, actor: Tid, caller: Tid, call: Call, made: Option<Handle>)
    requires Shaped(m) && actor < |m.pc| && caller < |m.pc| && IsQueueCall(call)
    ensures AttemptEnds(m, Serve(m, actor, caller, call, made), caller, call, actor == m.worker)
  {
    hide PopWaiter, InPool, Block;
    var l := if call.QueueSend? then Senders(call.queue) else Receivers(call.queue);
    BlockLists(m.core, caller, l, if actor != m.worker then call.timeout else 0, actor != m.worker, l);
  }

  lemma ReleasingIs(obs: seq<Obs>, l: WaitList)
    ensures obs == [] ==> !Releasing(obs, l)
    ensures |obs| == 1 ==> (Releasing(obs, l) <==> Releases(obs[0], l))
    ensures |obs| == 2 ==> (Releasing(obs, l) <==> Releases(obs[0], l) || Releases(obs[1], l))
    ensures |obs| == 3 ==> (Releasing(obs, l) <==> Releases(obs[0], l) || Releases(obs[1], l) || Releases(obs[2], l))
  {
    if |obs| > 0 && Releases(obs[0], l) {
      assert Releasing(obs, l);
    }
    if |obs| > 1 && Releases(obs[1], l) {
      assert Releasing(obs, l);
    }
    if |obs| > 2 && Releases(obs[2], l) {
      assert Releasing(obs, l);
    }
  }

  /** The step of `actor` changes list `l` as it should. */
  ghost predicate ServesList(m: Machine, actor: Tid, caller: Tid, call: Call, out: Out, l: WaitList) {
    ListChanges(m.core, out.m.core, out.obs, l, Joiner(m.core, call, caller, actor == m.worker, l))
  }

  lemma TakeLists(m: Machine, actor: Tid, caller: Tid, call: Call, made: Option<Handle>, l: WaitList)
    requires Shaped(m) && actor < |m.pc| && caller < |m.pc| && call.SemWait?
    ensures ServesList(m, actor, caller, call, Serve(m, actor, caller, call, made), l)
  {
    hide InPool, Block, Joins, Releasing;
    ReleasingIs(Serve(m, actor, caller, call, made).obs, l);
    PoolNow(m);
    BlockLists(m.core, caller, SemWaiters(call.sem), call.timeout, actor != m.worker, l);
  }

  lemma LockLists(m: Machine, actor: Tid, caller: Tid, call: Call, made: Option<Handle>, l: WaitList)
    requires Shaped(m) && actor < |m.pc| && caller < |m.pc| && call.MutexLock?
    ensures ServesList(m, actor, caller, call, Serve(m, actor, caller, call, made), l)
  {
    hide InPool, Block, Joins, Releasing;
    ReleasingIs(Serve(m, actor, caller, call, made).obs, l);
    PoolNow(m);
    BlockLists(m.core, caller, MutexWaiters(call.mutex), call.timeout, actor != m.worker, l);
  }

  lemma SendLists(m: Machine, actor: Tid, caller: Tid, call: Call, made: Option<Handle>, l: WaitList)
    requires Shaped(m) && actor < |m.pc| && caller < |m.pc| && call.QueueSend?
    ensures ServesList(m, actor, caller, call, Serve(m, actor, caller, call, made), l)
  {
    hide PopWaiter, InPool, Block, Joins, Releasing;
    ReleasingIs(Serve(m, actor, caller, call, made).obs, l);
    PoolNow(m);
    BlockLists(m.core, caller, Senders(call.queue), if actor != m.worker then call.timeout else 0, actor != m.worker, l);
    PopLists(m.core, Receivers(call.queue), l);
  }

  lemma RecvLists(m: Machine, actor: Tid, caller: Tid, call: Call, made: Option<Handle>, l: WaitList)
    requires Shaped(m) && actor < |m.pc| && caller < |m.pc| && call.QueueRecv?
    ensures ServesList(m, actor, caller, call, Serve(m, actor, caller, call, made), l)
  {
    hide PopWaiter, InPool, Block, Joins, Releasing;
    ReleasingIs(Serve(m, actor, caller, call, made).obs, l);
    PoolNow(m);
    BlockLists(m.core, caller, Receivers(call.queue), if actor != m.worker then call.timeout else 0, actor != m.worker, l);
    PopLists(m.core, Senders(call.queue), l);
  }

  lemma FreeLists(m: Machine, actor: Tid, caller: Tid, call: Call, made: Option<Handle>, l: WaitList)
    requires Shaped(m) && actor < |m.pc| && caller < |m.pc| && !IsAttempt(call)
    ensures ServesList(m, actor, caller, call, Serve(m, actor, caller, call, made), l)
  {
    hide PopWaiter, InPool, Joins, Releasing;
    ReleasingIs(Serve(m, actor, caller, call, made).obs, l);
    PoolNow(m);
    match call {
      case SemPost(h) => PopLists(m.core, SemWaiters(h), l);
      case MutexUnlock(h) => PopLists(m.core, MutexWaiters(h), l);
      case _ =>
    }
  }

  lemma ServeLists(m: Machine, actor: Tid, caller: Tid, call: Call, made: Option<Handle>, l: WaitList)
    requires Shaped(m) && actor < |m.pc| && caller < |m.pc|
    ensures ServesList(m, actor, caller, call, Serve(m, actor, caller, call, made), l)
  {
    hide Shaped, Serve, ServesList;
    match call {
      case SemWait(_, _) => TakeLists(m, actor, caller, call, made, l);
      case MutexLock(_, _) => LockLists(m, actor, caller, call, made, l);
      case QueueSend(_, _, _) => SendLists(m, actor, caller, call, made, l);
      case QueueRecv(_, _) => RecvLists(m, actor, caller, call, made, l);
      case _ => FreeLists(m, actor, caller, call, made, l);
    }
  }

  /** Who is released when `o` is observed, and what it is given. */
  ghost predicate Released(c: Core, c': Core, obs: seq<Obs>, o: Obs, l: WaitList) {
    && InPool(c)
    && match o
       case Gave(h) =>
         && h in c.sem && h in c'.sem
         && (if c.On(l) == [] then c'.sem[h] == c.sem[h] + 1 else c'.sem[h] == c.sem[h] && Took(c.On(l)[0], h) in obs)
       case Unlocked(t, h) =>
         && h in c.owner && h in c'.owner && c.owner[h] == Some(t)
         && (if c.On(l) == [] then c'.owner[h] == None else c'.owner[h] == Some(c.On(l)[0]) && Owned(c.On(l)[0], h) in obs)
       case _ => true
  }

  lemma ServeReleases(m: Machine, actor: Tid, caller: Tid, call: Call, made: Option<Handle>, o: Obs, l: WaitList)
    requires Shaped(m) && actor < |m.pc| && caller < |m.pc| && o in Serve(m, actor, caller, call, made).obs && Releases(o, l)
    ensures var out := Serve(m, actor, caller, call, made);
      && Released(m.core, out.m.core, out.obs, o, l) && actor < |out.m.pc|
      && (m.core.On(l) != [] ==> out.m.pc[actor].Wake? && out.m.pc[actor].waiter == m.core.On(l)[0])
  {
    hide InPool, Block;
    PoolNow(m);
  }

  /** A step that frees something frees one thing, and nobody waits in it. */
  lemma ServeReleasesOne(m: Machine, actor: Tid, caller: Tid, call: Call, made: Option<Handle>, o: Obs, l: WaitList)
    requires Shaped(m) && actor < |m.pc| && caller < |m.pc| && o in Serve(m, actor, caller, call, made).obs && Releases(o, l)
    ensures forall x, k :: x in Serve(m, actor, caller, call, made).obs && Releases(x, k) ==> k == l
    ensures forall byWorker, k :: !MustWait(m.core, call, caller, byWorker, k)
  {
    hide InPool, Block, PopWaiter;
  }

  // ---- Steps ----

  function StepJoiner(m: Machine, e: Event, l: WaitList): Option<Tid> {
    match ServedNow(m)
    case Some(q) => if e.Continue? then Joiner(m.core, q.call, q.task, q.byWorker, l) else None
    case None => None
  }

  lemma SameLists(c: Core, c': Core, obs: seq<Obs>, l: WaitList)
    requires c'.waiters == c.waiters && forall o :: o in obs ==> !Releases(o, l)
    ensures ListChanges(c, c', obs, l, None)
  {
  }

  lemma SwitchLists(c: Core)
    requires SwitchContext.requires(c)
    ensures SwitchContext(c).waiters == c.waiters
  {
  }

  lemma HeadInPool(c: Core, l: WaitList)
    requires InPool(c)
    ensures c.On(l) != [] ==> c.On(l)[0] < |c.task|
  {
    assert c.On(l) != [] ==> c.On(l)[0] in c.waiters[l];
  }

  lemma IsrLists(m: Machine, h: Handle, l: WaitList)
    requires Shaped(m) && h in m.core.sem
    ensures var out := IsrGive(m, h);
      && ListChanges(m.core, out.m.core, out.obs, l, None)
      && Released(m.core, out.m.core, out.obs, Gave(h), SemWaiters(h))
      && (m.core.On(SemWaiters(h)) != [] ==>
            m.core.On(SemWaiters(h))[0] < |out.m.core.task| && out.m.core.task[m.core.On(SemWaiters(h))[0]].state == Ready)
      && (forall o, k :: o in out.obs && Releases(o, k) ==> o == Gave(h))
  {
    hide InPool, Joins, Releasing;
    PoolNow(m);
    ReleasingIs(IsrGive(m, h).obs, l);
    PopLists(m.core, SemWaiters(h), l);
    HeadInPool(m.core, SemWaiters(h));
  }

  /** Between ticks a list changes in two ways only: its first member is released, or the task that has to wait joins. */
  lemma StepLists(m: Machine, e: Event, l: WaitList)
    requires Shaped(m) && Enabled(m, e) && WorkerDispatches(m) && e != SysTick
    ensures ListChanges(m.core, Step(m, e).m.core, Step(m, e).obs, l, StepJoiner(m, e, l))
  {
    hide Serve, IsrGive, SwitchContext, ListChanges, Joiner, PopWaiter;
    match e {
      case GiveFromIsr(h) => IsrLists(m, h, l);
      case PendSV => SwitchLists(m.core); SameLists(m.core, Step(m, e).m.core, [], l);
      case Continue(made) =>
        var a := m.core.current.value;
        match m.pc[a] {
          case Enter(call) => ServeLists(m, a, a, call, made, l);
          case Dispatch(item) => ServeLists(m, a, item.caller, item.call, made, l);
          case _ => SameLists(m.core, Step(m, e).m.core, Step(m, e).obs, l);
        }
      case Svc(_) => SameLists(m.core, Step(m, e).m.core, Step(m, e).obs, l);
      case Invoke(_) => SameLists(m.core, Step(m, e).m.core, Step(m, e).obs, l);
    }
  }

  lemma StepAttempt(m: Machine, e: Event)
    requires Shaped(m) && Enabled(m, e) && WorkerDispatches(m) && e.Continue?
    requires ServedNow(m).Some? && IsAttempt(ServedNow(m).value.call)
    ensures var q := ServedNow(m).value; AttemptEnds(m, Step(m, e), q.task, q.call, q.byWorker)
  {
    hide Serve, AttemptEnds;
    var q, a := ServedNow(m).value, m.core.current.value;
    if IsQueueCall(q.call) {
      QueueServed(m, a, q.task, q.call, e.made);
    } else {
      AcquireServed(m, a, q.task, q.call, e.made);
    }
  }

  /** The thread of the step wakes `w` next; an interrupt handler has done it already. */
  ghost predicate WakesNext(m: Machine, e: Event, m': Machine, w: Tid) {
    if e.GiveFromIsr? then w < |m'.core.task| && m'.core.task[w].state == Ready
    else
      && e.Continue? && m.core.current.Some? && m.core.current.value < |m'.pc|
      && m'.pc[m.core.current.value].Wake? && m'.pc[m.core.current.value].waiter == w
  }

  lemma StepReleases(m: Machine, e: Event, o: Obs, l: WaitList)
    requires Shaped(m) && Enabled(m, e) && o in Step(m, e).obs && Releases(o, l)
    ensures Released(m.core, Step(m, e).m.core, Step(m, e).obs, o, l)
    ensures m.core.On(l) != [] ==> WakesNext(m, e, Step(m, e).m, m.core.On(l)[0])
  {
    hide Serve, IsrGive, SwitchContext, Tick, Released, SvcEntry;
    match e {
      case SysTick => TickReleasesNothing(m.core, |m.core.task|, l);
      case GiveFromIsr(h) => IsrLists(m, h, l);
      case Continue(made) =>
        var a := m.core.current.value;
        match m.pc[a] {
          case Enter(call) => ServeReleases(m, a, a, call, made, o, l);
          case Dispatch(item) => ServeReleases(m, a, item.caller, item.call, made, o, l);
          case _ =>
        }
      case _ =>
    }
  }

  lemma {:induction false} TickReleasesNothing(c: Core, n: nat, l: WaitList)
    requires n <= |c.task|
    ensures forall o :: o in TickObs(c, n) ==> !Releases(o, l)
  {
    if n > 0 {
      TickReleasesNothing(c, n - 1, l);
    }
  }

  // ---- Runs ----

  /** In every reachable state, an attempt that is served succeeds if it can be satisfied, and is then observed; fails if it
    * cannot and may not wait; and otherwise puts its caller on the list of what it asked for, with its time limit. */
  lemma AttemptsAreExact(m: Machine, es: seq<Event>, made: Option<Handle>)
    requires Boot(m) && Runnable(m, es)
    requires var m' := After(m, es).0; Shaped(m') && Enabled(m', Continue(made)) && ServedNow(m').Some? && IsAttempt(ServedNow(m').value.call)
    ensures var m' := After(m, es).0;
      var q := ServedNow(m').value;
      AttemptEnds(m', Step(m', Continue(made)), q.task, q.call, q.byWorker)
  {
    hide Boot, Runnable, After, Inv, Shaped, Enabled, Step, AttemptEnds, ServedNow;
    var (m', g) := After(m, es);
    var p := RunInv(m, es);
    InvSizes(m', g, p);
    DispatchingMeans(m', g.phase, p);
    StepAttempt(m', Continue(made));
  }

  /** In every reachable state, between ticks each wait list changes exactly so: whoever pops or pushes an item, gives a unit
    * or unlocks takes its first member off; a caller that has to wait joins it; nothing else changes it. */
  lemma ListsChangeExactly(m: Machine, es: seq<Event>, e: Event, l: WaitList)
    requires Boot(m) && Runnable(m, es)
    requires var m' := After(m, es).0; Shaped(m') && Enabled(m', e) && e != SysTick
    ensures var m' := After(m, es).0; ListChanges(m'.core, Step(m', e).m.core, Step(m', e).obs, l, StepJoiner(m', e, l))
  {
    hide Boot, Runnable, After, Inv, Shaped, Enabled, Step, ListChanges, StepJoiner;
    var (m', g) := After(m, es);
    var p := RunInv(m, es);
    InvSizes(m', g, p);
    DispatchingMeans(m', g.phase, p);
    StepLists(m', e, l);
  }

  /** Along the run the thread of `a` takes no step. */
  ghost predicate Rests(m: Machine, es: seq<Event>, a: Tid)
    requires Runnable(m, es)
    decreases |es|
  {
    es == [] || (!(es[0].Continue? && m.core.current == Some(a)) && Rests(Step(m, es[0]).m, es[1..], a))
  }

  lemma {:induction false} RestingStays(m: Machine, es: seq<Event>, a: Tid)
    requires Runnable(m, es) && Rests(m, es, a) && a < |m.pc| && m.pc[a] != User
    ensures var m' := Play(m, es).m; a < |m'.pc| && m'.pc[a] == m.pc[a]
    decreases |es|
  {
    hide Shaped, Enabled, Step;
    if es != [] {
      OthersStay(m, es[0], a);
      RestingStays(Step(m, es[0]).m, es[1..], a);
    }
  }

  lemma WakeMakesReady(m: Machine, a: Tid, made: Option<Handle>)
    requires Shaped(m) && Enabled(m, Continue(made)) && m.core.current == Some(a) && m.pc[a].Wake?
    ensures var (w, m') := (m.pc[a].waiter, Step(m, Continue(made)).m); w < |m'.core.task| && m'.core.task[w].state == Ready
  {
  }

  /** Whoever frees something releases the first task that waits for it, in every reachable state: a pop the first sender, a
    * push the first receiver, a give the first taker, which gets the unit, and an unlock the first locker, which becomes the
    * owner. If nobody waits, no list changes, a unit is counted and a mutex is free. The released task leaves its list, no
    * other list changes, and the next step of the same thread, whenever it comes, makes that task READY; an interrupt
    * handler has made it READY already. */
  lemma TheFirstIsReleased(m: Machine, es: seq<Event>, e: Event, o: Obs, l: WaitList, es': seq<Event>, made: Option<Handle>)
    requires Boot(m) && Runnable(m, es)
    requires var m1 := After(m, es).0; Shaped(m1) && Enabled(m1, e) && o in Step(m1, e).obs && Releases(o, l)
    ensures var (m1, out) := (After(m, es).0, Step(After(m, es).0, e));
      && e != SysTick && Released(m1.core, out.m.core, out.obs, o, l)
      && (forall k :: k != l ==> out.m.core.On(k) == m1.core.On(k))
      && out.m.core.On(l) == (if m1.core.On(l) == [] then [] else m1.core.On(l)[1..])
      && (m1.core.On(l) != [] ==>
            var w := m1.core.On(l)[0];
            if e.GiveFromIsr? then w < |out.m.core.task| && out.m.core.task[w].state == Ready
            else
              && m1.core.current.Some?
              && var a := m1.core.current.value;
                 Runnable(out.m, es') && Rests(out.m, es', a) ==>
                   var m2 := Play(out.m, es').m;
                   Shaped(m2) && Enabled(m2, Continue(made)) && m2.core.current == Some(a) ==>
                     var m3 := Step(m2, Continue(made)).m; w < |m3.core.task| && m3.core.task[w].state == Ready)
  {
    hide Boot, Runnable, After, Inv, Shaped, Enabled, Step, Released, Play, Rests, ListChanges, StepJoiner;
    var (m1, g) := After(m, es);
    var p := RunInv(m, es);
    InvSizes(m1, g, p);
    DispatchingMeans(m1, g.phase, p);
    var out := Step(m1, e);
    StepReleases(m1, e, o, l);
    ReleasesAlone(m1, e, o, l);
    forall k ensures out.m.core.On(k) == if k == l && m1.core.On(k) != [] then m1.core.On(k)[1..] else m1.core.On(k) {
      StepLists(m1, e, k);
      ListAfter(m1, e, o, l, k);
    }
    if m1.core.On(l) != [] && !e.GiveFromIsr? {
      var a := m1.core.current.value;
      if Runnable(out.m, es') && Rests(out.m, es', a) {
        RestingStays(out.m, es', a);
        var m2 := Play(out.m, es').m;
        if Shaped(m2) && Enabled(m2, Continue(made)) && m2.core.current == Some(a) {
          WakeMakesReady(m2, a, made);
        }
      }
    }
  }

  lemma ReleasesAlone(m: Machine, e: Event, o: Obs, l: WaitList)
    requires Shaped(m) && Enabled(m, e) && WorkerDispatches(m) && o in Step(m, e).obs && Releases(o, l)
    ensures e != SysTick
    ensures forall k :: Releasing(Step(m, e).obs, k) <==> k == l
    ensures forall k :: StepJoiner(m, e, k) == None
  {
    hide Serve, IsrGive, SwitchContext, Tick, SvcEntry, MustWait;
    var obs := Step(m, e).obs;
    match e {
      case SysTick => TickReleasesNothing(m.core, |m.core.task|, l);
      case GiveFromIsr(h) => IsrLists(m, h, l);
      case Continue(made) =>
        var a := m.core.current.value;
        match m.pc[a] {
          case Enter(call) => ServeReleasesOne(m, a, a, call, made, o, l);
          case Dispatch(item) => ServeReleasesOne(m, a, item.caller, item.call, made, o, l);
          case _ =>
        }
      case _ =>
    }
    assert Releasing(obs, l);
  }

  lemma ListAfter(m: Machine, e: Event, o: Obs, l: WaitList, k: WaitList)
    requires Shaped(m) && Enabled(m, e)
    requires ListChanges(m.core, Step(m, e).m.core, Step(m, e).obs, k, StepJoiner(m, e, k))
    requires (Releasing(Step(m, e).obs, k) <==> k == l) && StepJoiner(m, e, k) == None
    ensures Step(m, e).m.core.On(k) == if k == l && m.core.On(k) != [] then m.core.On(k)[1..] else m.core.On(k)
  {
    hide Step, StepJoiner, Releasing;
  }
}
