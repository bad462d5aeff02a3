/** What calls return that acquire nothing: creations their handle, the others 0 or -1 as the code says. */
module Results {
  import opened Base
  import opened CoreState
  import opened Transitions
  import opened Ledgers
  import opened Places
  import opened Serving
  import opened Runs
  import opened Outcomes

  /** What the code returns for a call that is neither an attempt nor a creation. The privileged give and unlock return
    * nothing, which is 0 here. */
  function Expected(c: Core, call: Call, byWorker: bool): nat {
    match call
    case SemPost(h) => if byWorker && h !in c.sem then FAIL else 0
    case MutexUnlock(h) => if byWorker && h !in c.owner then FAIL else 0
    case Unknown => FAIL
    case _ => 0
  }

  /** The running thread carries out a call of `t` with result `r` that acquires and makes nothing. */
  predicate CarriesOut(m: Machine, e: Event, t: Tid, r: nat) {
    e.Continue? &&
    match ServedNow(m)
    case None => false
    case Some(q) =>
      && q.task == t && !IsAttempt(q.call)
      && if IsCreation(q.call) then e.made == None && r == FAIL else r == Expected(m.core, q.call, q.byWorker)
  }

  /** The running thread makes the object of `call` for `t`, with handle `h`. */
  predicate Makes(m: Machine, e: Event, t: Tid, call: Call, h: Handle) {
    e.Continue? &&
    match ServedNow(m)
    case None => false
    case Some(q) => q.task == t && q.call == call && IsCreation(call) && e.made == Some(h)
  }

  /** The object that `call` asked for, as it is created. */
  predicate IsNew(c: Core, call: Call, h: Handle) {
    match call
    case SemCreate(n) => h in c.sem && c.sem[h] == if n < 0 then 0 else n
    case MutexCreate => h in c.owner && c.owner[h] == None
    case QueueCreate(itemSize, capacity) => h in c.queue && c.queue[h] == Queue(itemSize, capacity, [])
    case _ => false
  }

  lemma ServeDoes(m: Machine, actor: Tid, caller: Tid, call: Call, made: Option<Handle>, t: Tid, r: nat)
    requires Shaped(m) && actor < |m.pc| && caller < |m.pc|
    ensures Done(t, r) in Serve(m, actor, caller, call, made).obs <==>
      && t == caller && !IsAttempt(call)
      && if IsCreation(call) then made == None && r == FAIL else r == Expected(m.core, call, actor == m.worker)
  {
    hide PopWaiter, Create, InPool;
  }

  lemma ServeMakes(m: Machine, actor: Tid, caller: Tid, call: Call, made: Option<Handle>, t: Tid, call': Call, h: Handle)
    requires Shaped(m) && actor < |m.pc| && caller < |m.pc|
    ensures Made(t, call', h) in Serve(m, actor, caller, call, made).obs <==>
      t == caller && call' == call && IsCreation(call) && made == Some(h)
    ensures IsCreation(call) && made == Some(h) ==> IsNew(Serve(m, actor, caller, call, made).m.core, call, h)
  {
    hide PopWaiter, InPool;
  }

  /** Such an observation is the first that its step makes. */
  lemma DoneIsFirst(m: Machine, e: Event, x: nat)
    requires Shaped(m) && Enabled(m, e) && x < |Step(m, e).obs| && (Step(m, e).obs[x].Done? || Step(m, e).obs[x].Made?)
    ensures x == 0
  {
    hide Serve, SemGive, SvcEntry, SwitchContext, Tick;
    match e {
      case SysTick => NoneInTick(m.core, |m.core.task|);
      case Continue(made) =>
        var a := m.core.current.value;
        match m.pc[a] {
          case Enter(call) => ServeDoneFirst(m, a, a, call, made);
          case Dispatch(item) => ServeDoneFirst(m, a, item.caller, item.call, made);
          case _ =>
        }
      case _ =>
    }
  }

  lemma ServeDoneFirst(m: Machine, actor: Tid, caller: Tid, call: Call, made: Option<Handle>)
    requires Shaped(m) && actor < |m.pc| && caller < |m.pc|
    ensures var obs := Serve(m, actor, caller, call, made).obs; forall x :: 0 < x < |obs| ==> !obs[x].Done? && !obs[x].Made?
  {
    hide PopWaiter, Create, InPool;
  }

  lemma {:induction false} NoneInTick(c: Core, n: nat)
    requires n <= |c.task|
    ensures forall x :: 0 <= x < |TickObs(c, n)| ==> !TickObs(c, n)[x].Done? && !TickObs(c, n)[x].Made?
  {
    if n > 0 {
      NoneInTick(c, n - 1);
    }
  }

  lemma StepCarriesOut(m: Machine, e: Event, t: Tid, r: nat)
    requires Shaped(m) && Enabled(m, e) && WorkerDispatches(m)
    ensures Done(t, r) in Step(m, e).obs <==> CarriesOut(m, e, t, r)
  {
    hide Serve, SemGive, SvcEntry, SwitchContext, Tick, Expected;
    match e {
      case SysTick => NoneInTick(m.core, |m.core.task|);
      case Continue(made) =>
        var a := m.core.current.value;
        match m.pc[a] {
          case Enter(call) => ServeDoes(m, a, a, call, made, t, r);
          case Dispatch(item) => ServeDoes(m, a, item.caller, item.call, made, t, r);
          case _ =>
        }
      case _ =>
    }
  }

  lemma StepMakes(m: Machine, e: Event, t: Tid, call: Call, h: Handle)
    requires Shaped(m) && Enabled(m, e) && WorkerDispatches(m)
    ensures Made(t, call, h) in Step(m, e).obs <==> Makes(m, e, t, call, h)
    ensures Makes(m, e, t, call, h) ==> h < FAIL && IsNew(Step(m, e).m.core, call, h)
  {
    hide Serve, SemGive, SvcEntry, SwitchContext, Tick, IsNew;
    match e {
      case SysTick => NoneInTick(m.core, |m.core.task|);
      case Continue(made) =>
        var a := m.core.current.value;
        match m.pc[a] {
          case Enter(c) => ServeMakes(m, a, a, c, made, t, call, h);
          case Dispatch(item) => ServeMakes(m, a, item.caller, item.call, made, t, call, h);
          case _ =>
        }
      case _ =>
    }
  }

  /** In every reachable state a step carries out, or makes an object for, exactly the call that the running thread serves,
    * and the new object is as it was asked for. */
  lemma CallsAreCarriedOut(m: Machine, es: seq<Event>, e: Event, t: Tid, r: nat, call: Call, h: Handle)
    requires Boot(m) && Runnable(m, es)
    requires Shaped(After(m, es).0) && Enabled(After(m, es).0, e)
    ensures var m' := After(m, es).0;
      && (Done(t, r) in Step(m', e).obs <==> CarriesOut(m', e, t, r))
      && (Made(t, call, h) in Step(m', e).obs <==> Makes(m', e, t, call, h))
      && (Makes(m', e, t, call, h) ==> h < FAIL && IsNew(Step(m', e).m.core, call, h))
  {
    hide Boot, Runnable, After, Inv, Shaped, Enabled, Step, CarriesOut, Makes, IsNew;
    var (m', g) := After(m, es);
    var p := RunInv(m, es);
    InvSizes(m', g, p);
    DispatchingMeans(m', g.phase, p);
    StepCarriesOut(m', e, t, r);
    StepMakes(m', e, t, call, h);
  }

  /** The answer to a call that acquires nothing is `r`: event `n` served the call; a creation is answered with the handle
    * that this event made, and with -1 if it made none; any other call as expected in the state in which it was served. */
  ghost predicate AnsweredBy(m: Machine, e: Event, t: Tid, call: Call, r: nat) {
    match ServedNow(m)
    case None => false
    case Some(q) =>
      && e.Continue? && q.task == t && q.call == call
      && r == if IsCreation(call) then (match e.made case Some(h) => h case None => FAIL)
              else Expected(m.core, call, q.byWorker)
  }

  lemma AnsweredHere(m: Machine, g: Ledger, p: seq<Place>, e: Event, t: Tid, call: Call, o: Obs, r: nat)
    requires Inv(m, g, p) && Shaped(m) && Enabled(m, e) && t < |g.phase| && g.phase[t] == Pending(call)
    requires o in Step(m, e).obs && Decides(o, t, call, r) && !IsAttempt(call)
    ensures AnsweredBy(m, e, t, call, r)
    ensures if o.Made? then IsCreation(call) && r < FAIL && IsNew(Step(m, e).m.core, call, r)
            else IsCreation(call) ==> r == FAIL
  {
    hide Inv, Shaped, Enabled, Step, Expected, IsNew;
    InvSizes(m, g, p);
    DispatchingMeans(m, g.phase, p);
    if o.Made? {
      StepMakes(m, e, t, call, r);
    } else {
      StepCarriesOut(m, e, t, r);
      ServedIsPending(m, g, p, t);
    }
  }

  /** Every answer to a call that acquires nothing, in every run: exactly one event between issue and answer served the call.
    * A creation is answered with the handle of the object that it made, and with -1 exactly when it made none. A give or an
    * unlock at the worker is answered with -1 exactly when the handle was invalid then; a delay and a write with 0; an
    * unknown call with -1. */
  lemma PlainAnswersAreExact(m: Machine, es: seq<Event>, j: nat, t: Tid, r: nat) returns (i: nat, k: nat, n: nat)
    requires Boot(m) && Runnable(m, es) && t < |m.pc| && j < |Play(m, es).obs|
    requires Play(m, es).obs[j] == Stored(t, r) || Play(m, es).obs[j] == Returned(t, r)
    ensures var obs := Play(m, es).obs;
      && i < k < j && obs[i].Issued? && obs[i].task == t && Silent(obs, t, i, k) && Silent(obs, t, k, j)
      && n < |es| && Runnable(m, es[..n])
      && |Play(m, es[..n]).obs| <= k < |Play(m, es[..n]).obs| + |Step(StateAt(m, es, n), es[n]).obs|
      && var call := obs[i].call;
         !IsAttempt(call) ==>
           && AnsweredBy(StateAt(m, es, n), es[n], t, call, r)
           && (IsCreation(call) ==>
                 && (r == FAIL <==> !obs[k].Made?)
                 && (obs[k].Made? ==> obs[k] == Made(t, call, r) && IsNew(Step(StateAt(m, es, n), es[n]).m.core, call, r)))
  {
    hide Boot, Runnable, Play, Read, Silent, Inv, Shaped, Enabled, Step, AnsweredBy, IsNew, StateAt;
    i, k := AnswersAreTraced(m, es, j, t, r);
    var obs := Play(m, es).obs;
    var call := obs[i].call;
    n := Locate(m, es, k);
    if !IsAttempt(call) {
      StateAtIsPlayed(m, es, n);
      var (m', g) := After(m, es[..n]);
      var p := RunInv(m, es[..n]);
      var here := Step(m', es[n]).obs;
      var first := |Play(m, es[..n]).obs|;
      DoneIsFirst(m', es[n], k - first);
      assert obs[..k] == Play(m, es[..n]).obs;
      AnsweredHere(m', g, p, es[n], t, call, obs[k], r);
    }
  }
}
