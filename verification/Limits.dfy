/** From the issued call to the tick: a wait lasts exactly as long as its call asked for, and so does a sleep. */
module Limits {
  import Books
  import opened Base
  import opened CoreState
  import opened Transitions
  import opened Ledgers
  import opened Places
  import opened Serving
  import opened Runs
  import opened Timers
  import opened Outcomes
  import opened Handover
  import Invariant
  import Structure

  // ---- Timed waits ----

  /** The step puts `t` on list `l`. */
  ghost predicate PutsOn(m: Machine, e: Event, l: WaitList, t: Tid) {
    Shaped(m) && Enabled(m, e) && t !in m.core.On(l) && t in Step(m, e).m.core.On(l)
  }

  lemma NoTickPutsOn(m: Machine, e: Event, l: WaitList, t: Tid)
    requires PutsOn(m, e, l, t)
    ensures e != SysTick
  {
    hide TickObs, Expiring;
  }

  lemma OnlyTheJoinerIsPut(c: Core, c': Core, obs: seq<Obs>, l: WaitList, joins: Option<Tid>, t: Tid)
    requires ListChanges(c, c', obs, l, joins) && t !in c.On(l) && t in c'.On(l)
    ensures joins == Some(t)
  {
    hide Releasing;
  }

  /** A second attempt may not wait. */
  lemma WaitingIsFirst(c: Core, served: Call, issued: Call, t: Tid, byWorker: bool, l: WaitList)
    requires MustWait(c, served, t, byWorker, l) && Attempts(served, issued)
    ensures served == issued && Timeout(issued) != 0
  {
  }

  /** In every run, a task that a step puts on a wait list has issued a call that waits there, and its remaining ticks are
    * the time limit of that call, or 0 if it has none. */
  lemma WaitsStartWithTheirLimit(m: Machine, es: seq<Event>, e: Event, l: WaitList, t: Tid)
    requires Boot(m) && Runnable(m, es) && PutsOn(After(m, es).0, e, l, t)
    ensures var (m1, g) := After(m, es);
      && t < |g.phase| && g.phase[t].Pending? && WaitsOn(g.phase[t].call, l)
      && var (call, c) := (g.phase[t].call, Step(m1, e).m.core);
         && t < |c.task| && c.task[t].state == Waiting
         && c.task[t].delay == if IsTimed(call) then Timeout(call) else 0
  {
    hide Boot, Runnable, After, Inv, Shaped, Enabled, Step, ServedNow, ListChanges, Play, Structure.Struct, Attempts, Unavailable, MustFail, MustWait;
    var (m1, g) := After(m, es);
    var p := RunInv(m, es);
    InvSizes(m1, g, p);
    DispatchingMeans(m1, g.phase, p);
    NoTickPutsOn(m1, e, l, t);
    StepLists(m1, e, l);
    OnlyTheJoinerIsPut(m1.core, Step(m1, e).m.core, Step(m1, e).obs, l, StepJoiner(m1, e, l), t);
    var q := ServedNow(m1).value;
    ServedIsPending(m1, g, p, t);
    MustWaitMeans(m1.core, q.call, t, q.byWorker, l);
    if q.byWorker {
      WaitingIsFirstAtWorker(m1.core, q.call, t, q.byWorker, l);
    } else {
      WaitingIsFirst(m1.core, q.call, g.phase[t].call, t, q.byWorker, l);
    }
    StepAttempt(m1, e);
    EndsWaiting(m1, Step(m1, e), t, q.call, q.byWorker, l);
    OneMore(m, es, e);
    WaitListsAreDisjoint(m, es + [e], l, t);
  }

  lemma MustWaitMeans(c: Core, call: Call, t: Tid, byWorker: bool, l: WaitList)
    requires MustWait(c, call, t, byWorker, l)
    ensures IsAttempt(call) && WaitsOn(call, l)
  {
  }

  lemma WaitingIsFirstAtWorker(c: Core, call: Call, t: Tid, byWorker: bool, l: WaitList)
    requires MustWait(c, call, t, byWorker, l)
    ensures Timeout(call) != 0
  {
  }

  lemma EndsWaiting(m: Machine, out: Out, t: Tid, call: Call, byWorker: bool, l: WaitList)
    requires AttemptEnds(m, out, t, call, byWorker) && MustWait(m.core, call, t, byWorker, l)
    ensures t < |out.m.core.task| && LimitSet(out.m.core.task[t], l, Timeout(call))
  {
  }

  lemma OneMore(m: Machine, es: seq<Event>, e: Event)
    requires Boot(m) && Runnable(m, es) && Shaped(After(m, es).0) && Enabled(After(m, es).0, e)
    ensures Runnable(m, es + [e]) && After(m, es + [e]).0 == Step(After(m, es).0, e).m
  {
    hide Boot, Shaped, Enabled, Step, Runnable, Play;
    PlayOneMore(m, es, e);
  }

  /** Exact time-outs from the issued call: through every later run in which nobody pops it, a task that a step puts on a
    * wait list waits as long as fewer ticks have passed since that step than its call allows, and the tick that makes them
    * up makes it READY and TIMED_OUT. Without a time limit it waits. */
  lemma WaitsLastTheirLimit(m: Machine, es: seq<Event>, e: Event, es': seq<Event>, l: WaitList, t: Tid)
    requires Boot(m) && Runnable(m, es) && PutsOn(After(m, es).0, e, l, t)
    requires var m2 := Step(After(m, es).0, e).m; Runnable(m2, es') && Stays(m2, es', t, Listed(l))
    ensures var (m1, g) := After(m, es);
      && t < |g.phase| && g.phase[t].Pending?
      && var (call, m3) := (g.phase[t].call, Play(Step(m1, e).m, es').m);
         && (IsTimed(call) && Ticks(es') < Timeout(call) ==> t < |m3.core.task| && m3.core.task[t].state == Waiting)
         && (IsTimed(call) && Ticks(es') == Timeout(call) - 1 ==>
               && t < |Tick(m3.core).task|
               && Tick(m3.core).task[t].state == Ready && Tick(m3.core).task[t].timedOut)
         && (!IsTimed(call) ==> t < |m3.core.task| && m3.core.task[t].state == Waiting)
  {
    hide Boot, Runnable, After, Inv, Shaped, Enabled, Step, Play, Stays, Tick;
    WaitsStartWithTheirLimit(m, es, e, l, t);
    OneMore(m, es, e);
    var call := After(m, es).1.phase[t].call;
    if IsTimed(call) {
      WaitersExpireOnTheExactTick(m, es + [e], es', l, t);
    } else {
      var (m2, g2) := After(m, es + [e]);
      var p2 := RunInv(m, es + [e]);
      InvSizes(m2, g2, p2);
      ListedPlace(m2, g2.phase, p2, l, t);
      var g3, p3 := ParkedUntilTheLastTick(m2, g2, p2, es', t);
    }
  }

  // ---- Delays ----

  /** `t` waits through `es` if it has fewer than `n` ticks, or n is 0, and is READY after the tick that makes up n. */
  ghost predicate SleepsThrough(m: Machine, es: seq<Event>, t: Tid, n: nat)
    requires Runnable(m, es)
  {
    var c := Play(m, es).m.core;
    && (n == 0 || Ticks(es) < n ==> t < |c.task| && c.task[t].state == Waiting)
    && (n > 0 && Ticks(es) == n - 1 ==> t < |Tick(c).task| && Tick(c).task[t].state == Ready)
  }

  lemma SleepLasts(m: Machine, g: Ledger, p: seq<Place>, es: seq<Event>, t: Tid, n: nat)
    requires Inv(m, g, p) && Runnable(m, es) && t < |p| && t < |m.core.task| && m.core.task[t].delay == n
    requires p[t] == if n > 0 then Sleeping else Stranded
    ensures SleepsThrough(m, es, t, n)
  {
    hide Inv, Shaped, Enabled, Step, Play, Tick, Structure.Struct;
    if n == 0 {
      StrandedForEver(m, g, p, es, t);
    } else {
      SleepersStay(m, es, t);
      if Ticks(es) < n {
        var g', p' := ParkedUntilTheLastTick(m, g, p, es, t);
        if Ticks(es) == n - 1 {
          InvSizes(Play(m, es).m, g', p');
          Structure.StructShaped(Play(m, es).m, g'.phase, p');
          ReadyAtTheLastTick(m, g, p, es, t);
          TickIsSysTick(Play(m, es).m);
        }
      }
    }
  }

  lemma DelayServed(m: Machine, t: Tid, n: nat, made: Option<Handle>)
    requires Shaped(m) && Enabled(m, Continue(made)) && ServedNow(m) == Some(Request(t, Delay(n), true)) && WorkerDispatches(m)
    ensures var m' := Step(m, Continue(made)).m;
      m.core.current == Some(m.worker) && m.worker < |m'.pc| && m'.worker == m.worker && m'.pc[m.worker] == Sleep(t, n)
  {
  }

  lemma {:induction false} WorkerRests(m: Machine, es: seq<Event>, a: Tid)
    requires Runnable(m, es) && Rests(m, es, a) && a < |m.pc| && m.pc[a] != User
    ensures Play(m, es).m.worker == m.worker
    decreases |es|
  {
    hide Shaped, Enabled, Step;
    if es != [] {
      OthersStay(m, es[0], a);
      WorkerRests(Step(m, es[0]).m, es[1..], a);
    }
  }

  /** A user-mode delay, from its dispatch: the worker's next step, whenever it comes, puts the caller to sleep, and it sleeps
    * for exactly the ticks that its call asked for, or for ever if these are none. */
  lemma UserDelayLasts(m: Machine, es: seq<Event>, made: Option<Handle>, es': seq<Event>, made': Option<Handle>, es'': seq<Event>, t: Tid, n: nat)
    requires Boot(m) && Runnable(m, es)
    requires var m1 := After(m, es).0; Shaped(m1) && Enabled(m1, Continue(made)) && ServedNow(m1) == Some(Request(t, Delay(n), true))
    requires var m2 := Step(After(m, es).0, Continue(made)).m; Runnable(m2, es') && Rests(m2, es', m2.worker)
    requires var m3 := Play(Step(After(m, es).0, Continue(made)).m, es').m;
      && Shaped(m3) && Enabled(m3, Continue(made')) && m3.core.current == Some(m3.worker)
      && Runnable(Step(m3, Continue(made')).m, es'')
    ensures var (m1, g) := After(m, es);
      && t < |g.phase| && g.phase[t] == Pending(Delay(n))
      && SleepsThrough(Step(Play(Step(m1, Continue(made)).m, es').m, Continue(made')).m, es'', t, n)
  {
    hide Boot, Runnable, After, Inv, Shaped, Enabled, Step, Play, Rests, Structure.Struct, ServedNow, SleepsThrough, Read;
    var (m1, g) := After(m, es);
    var p := RunInv(m, es);
    InvSizes(m1, g, p);
    DispatchingMeans(m1, g.phase, p);
    ServedIsPending(m1, g, p, t);
    DelayServed(m1, t, n, made);
    OneMore(m, es, Continue(made));
    var (m2, g2) := After(m, es + [Continue(made)]);
    var p2 := RunInv(m, es + [Continue(made)]);
    RestingStays(m2, es', m2.worker);
    WorkerRests(m2, es', m2.worker);
    var m3, g3 := Play(m2, es').m, Read(g2, Play(m2, es').obs);
    var p3 := PlayKeeps(m2, g2, p2, es');
    SameStep(m3, made');
    var p4 := UserDelaySleeps(m3, g3, p3);
    SleepLasts(Step(m3, Continue(None)).m, Read(g3, Step(m3, Continue(None)).obs), p4, es'', t, n);
  }

  lemma SameStep(m: Machine, made: Option<Handle>)
    requires Shaped(m) && Enabled(m, Continue(made)) && m.core.current == Some(m.worker) && m.pc[m.worker].Sleep?
    ensures Enabled(m, Continue(None)) && Step(m, Continue(made)) == Step(m, Continue(None)) && Executes(m, m.worker)
  {
  }

  /** A privileged delay: with n > 0 the caller sleeps from this step on, for exactly n ticks; with 0 it goes on. */
  lemma PrivilegedDelayLasts(m: Machine, es: seq<Event>, made: Option<Handle>, es': seq<Event>, t: Tid, n: nat)
    requires Boot(m) && Runnable(m, es)
    requires var m1 := After(m, es).0; Shaped(m1) && Enabled(m1, Continue(made)) && ServedNow(m1) == Some(Request(t, Delay(n), false))
    requires Runnable(Step(After(m, es).0, Continue(made)).m, es')
    ensures var (m1, g) := After(m, es);
      && t < |g.phase| && g.phase[t] == Pending(Delay(n))
      && var m2 := Step(m1, Continue(made)).m;
         if n > 0 then SleepsThrough(m2, es', t, n) else m2.core == m1.core && t < |m2.pc| && m2.pc[t] == Return(0)
  {
    hide Boot, Runnable, After, Inv, Shaped, Enabled, Step, Play, Structure.Struct, ServedNow, SleepsThrough;
    var (m1, g) := After(m, es);
    var p := RunInv(m, es);
    InvSizes(m1, g, p);
    DispatchingMeans(m1, g.phase, p);
    ServedIsPending(m1, g, p, t);
    PrivilegedDelayServed(m1, t, n, made);
    if n > 0 {
      OneMore(m, es, Continue(made));
      var (m2, g2) := After(m, es + [Continue(made)]);
      var p2 := RunInv(m, es + [Continue(made)]);
      InvSizes(m2, g2, p2);
      NotTheWorker(m2, g2, p2, t);
      DelayIsUnmarked(m2, g2, p2, t);
      SleeperIsSleeping(m2, g2, p2, t);
      SleepLasts(m2, g2, p2, es', t, n);
    }
  }

  lemma PrivilegedDelayServed(m: Machine, t: Tid, n: nat, made: Option<Handle>)
    requires Shaped(m) && Enabled(m, Continue(made)) && ServedNow(m) == Some(Request(t, Delay(n), false)) && WorkerDispatches(m)
    ensures var m' := Step(m, Continue(made)).m;
      && t < |m'.pc| && m'.pc[t] == Return(0)
      && (if n == 0 then m'.core == m.core else t < |m'.core.task| && m'.core.task[t].delay == n && m'.core.task[t].state == Waiting)
  {
  }

  /** A task that waits inside a privileged call and is about to return is on no list. */
  lemma DelayIsUnmarked(m: Machine, g: Ledger, p: seq<Place>, t: Tid)
    requires Inv(m, g, p) && t < |m.core.task| && t < |m.pc| && t != m.worker && m.pc[t] == Return(0)
    requires m.core.task[t].state == Waiting && m.core.task[t].delay > 0
    ensures Sleeps(m.core.task[t])
  {
    hide Books.BooksAgree, Structure.Listing;
    assert TaskHolds(m.core.task[t], m.pc[t], p[t], g.phase[t]);
  }
}
