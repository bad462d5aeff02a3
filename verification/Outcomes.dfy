/** What the results of calls mean: every answer is traced to what decided it, and every -1 to the state that justified it. */
module Outcomes {
  import opened Base
  import opened CoreState
  import opened Transitions
  import opened Ledgers
  import opened Places
  import opened Serving
  import opened Runs
  import Invariant
  import Structure
  import Books
  import Timers

  // ---- When a request is refused ----

  /** `call` cannot be satisfied for `t` now. */
  predicate Unavailable(c: Core, call: Call, t: Tid) {
    match call
    case SemWait(h, _) => h in c.sem ==> c.sem[h] <= 0
    case MutexLock(h, _) => h in c.owner ==> c.owner[h] != None && c.owner[h] != Some(t)
    case QueueSend(q, _, _) => q in c.queue ==> |c.queue[q].items| >= c.queue[q].capacity
    case QueueRecv(q, _) => q in c.queue ==> c.queue[q].items == []
    case _ => false
  }

  predicate HandleExists(c: Core, call: Call) {
    match call
    case SemWait(h, _) => h in c.sem
    case MutexLock(h, _) => h in c.owner
    case QueueSend(q, _, _) => q in c.queue
    case QueueRecv(q, _) => q in c.queue
    case _ => true
  }

  predicate IsQueueCall(call: Call) {
    call.QueueSend? || call.QueueRecv?
  }

  /** The call cannot be satisfied and may not wait: its handle is invalid, its timeout is 0, or it is a queue call that
    * the worker serves. */
  predicate MustFail(c: Core, call: Call, t: Tid, byWorker: bool) {
    && IsAttempt(call) && Unavailable(c, call, t)
    && (!HandleExists(c, call) || Timeout(call) == 0 || (byWorker && IsQueueCall(call)))
  }

  lemma ServeRefuses(m: Machine, actor: Tid, caller: Tid, call: Call, made: Option<Handle>, t: Tid)
    requires Shaped(m) && actor < |m.pc| && caller < |m.pc|
    ensures Refused(t) in Serve(m, actor, caller, call, made).obs <==> t == caller && MustFail(m.core, call, t, actor == m.worker)
    ensures Refused(t) in Serve(m, actor, caller, call, made).obs ==> Serve(m, actor, caller, call, made).obs == [Refused(t)]
  {
    hide PopWaiter, Create, InPool;
  }

  datatype Request = Request(task: Tid, call: Call, byWorker: bool)

  /** What the running thread serves in its next step: its own privileged call, or as the worker one that came in by SVC. */
  function ServedNow(m: Machine): Option<Request> {
    if m.core.current.None? || !Executes(m, m.core.current.value) then None
    else
      match m.pc[m.core.current.value]
      case Enter(call) => Some(Request(m.core.current.value, call, false))
      case Dispatch(item) => Some(Request(item.caller, item.call, true))
      case _ => None
  }

  /** The running thread is about to serve a call of `t` that must fail. */
  predicate RefusesNow(m: Machine, t: Tid) {
    match ServedNow(m)
    case None => false
    case Some(r) => r.task == t && MustFail(m.core, r.call, t, r.byWorker)
  }

  /** Only the worker dispatches, and it makes no calls of its own. */
  ghost predicate WorkerDispatches(m: Machine) {
    forall a :: 0 <= a < |m.pc| && Executes(m, a) ==> (m.pc[a].Enter? ==> a != m.worker) && (m.pc[a].Dispatch? ==> a == m.worker)
  }

  lemma DispatchingMeans(m: Machine, ph: seq<Phase>, p: seq<Place>)
    requires Structure.Struct(m, ph, p)
    ensures WorkerDispatches(m)
  {
    forall a | 0 <= a < |m.pc| && Executes(m, a)
      ensures (m.pc[a].Enter? ==> a != m.worker) && (m.pc[a].Dispatch? ==> a == m.worker)
    {
      Invariant.WorkerPcMeans(m, ph, p, a);
    }
  }

  lemma {:induction false} TickObsMean(c: Core, n: nat, t: Tid)
    requires n <= |c.task|
    ensures Refused(t) !in TickObs(c, n) && forall r :: Returned(t, r) !in TickObs(c, n)
    ensures Expired(t) in TickObs(c, n) <==> t < n && t in Expiring(c)
  {
    if n > 0 {
      TickObsMean(c, n - 1, t);
    }
  }

  /** A refusal is observed exactly when a call that must fail is served. */
  lemma StepRefuses(m: Machine, e: Event, t: Tid)
    requires Shaped(m) && Enabled(m, e) && WorkerDispatches(m)
    ensures Refused(t) in Step(m, e).obs <==> e.Continue? && RefusesNow(m, t)
    ensures Refused(t) in Step(m, e).obs ==> Step(m, e).obs == [Refused(t)]
  {
    hide Serve, MustFail, SemGive, SvcEntry, SwitchContext, Tick;
    match e {
      case SysTick => TickObsMean(m.core, |m.core.task|, t);
      case Continue(made) =>
        var a := m.core.current.value;
        match m.pc[a] {
          case Enter(call) => ServeRefuses(m, a, a, call, made, t);
          case Dispatch(item) => ServeRefuses(m, a, item.caller, item.call, made, t);
          case _ =>
        }
      case _ =>
    }
  }

  lemma StepExpires(m: Machine, e: Event, t: Tid)
    requires Shaped(m) && Enabled(m, e)
    ensures Expired(t) in Step(m, e).obs <==> e == SysTick && t in Expiring(m.core)
  {
    hide Serve, SemGive, SvcEntry, SwitchContext, Tick, Expiring;
    match e {
      case SysTick =>
        TickObsMean(m.core, |m.core.task|, t);
        ExpiringInPool(m.core);
      case Continue(made) =>
        var a := m.core.current.value;
        match m.pc[a] {
          case Enter(call) => ServeDoesNotExpire(m, a, a, call, made, t);
          case Dispatch(item) => ServeDoesNotExpire(m, a, item.caller, item.call, made, t);
          case _ =>
        }
      case _ =>
    }
  }

  lemma ServeDoesNotExpire(m: Machine, actor: Tid, caller: Tid, call: Call, made: Option<Handle>, t: Tid)
    requires Shaped(m) && actor < |m.pc| && caller < |m.pc|
    ensures Expired(t) !in Serve(m, actor, caller, call, made).obs
    ensures forall r :: Returned(t, r) !in Serve(m, actor, caller, call, made).obs
  {
    hide PopWaiter, Create, InPool;
  }

  // ---- Where an answer comes from ----

  /** No observation about `t` strictly between positions i and j. */
  ghost predicate Silent(obs: seq<Obs>, t: Tid, i: nat, j: nat)
    requires j <= |obs|
  {
    forall k :: i < k < j ==> About(obs[k]) != Some(t)
  }

  /** The observation settles `call` of task `t` with result `r`: a unit, an ownership or an item was transferred, the
    * call was refused or timed out, an object was made, or any other call was carried out. */
  predicate Decides(o: Obs, t: Tid, call: Call, r: nat) {
    match o
    case Took(u, h) => u == t && call.SemWait? && call.sem == h && r == 0
    case Owned(u, h) => u == t && call.MutexLock? && call.mutex == h && r == 0
    case Pushed(u, q, data) => u == t && call.QueueSend? && call.queue == q && call.data == data && r == 0
    case Popped(u, q, _) => u == t && call.QueueRecv? && call.queue == q && r == 0
    case Refused(u) => u == t && IsAttempt(call) && r == FAIL
    case Expired(u) => u == t && IsTimed(call) && r == FAIL
    case Made(u, made, h) => u == t && made == call && IsCreation(call) && r == h
    case Done(u, x) => u == t && !IsAttempt(call) && r == x
    case _ => false
  }

  lemma ReadLast(g: Ledger, obs: seq<Obs>, t: Tid)
    requires obs != [] && t < |g.phase|
    ensures |Read(g, obs[..|obs| - 1]).phase| == |g.phase| == |Read(g, obs).phase|
    ensures var (before, o) := (Read(g, obs[..|obs| - 1]).phase[t], obs[|obs| - 1]);
      Read(g, obs).phase[t] == if About(o) == Some(t) then NextPhase(before, o) else before
  {
    var n := |obs| - 1;
    assert obs == obs[..n] + [obs[n]];
    ReadAppend(g, obs[..n], [obs[n]]);
    ReadOne(Read(g, obs[..n]), obs[n]);
    PhaseCount(g, obs[..n]);
  }

  lemma {:induction false} PhaseCount(g: Ledger, obs: seq<Obs>)
    ensures |Read(g, obs).phase| == |g.phase|
    decreases |obs|
  {
    if obs != [] {
      PhaseCount(Observe(g, obs[0]), obs[1..]);
    }
  }

  /** A broken protocol stays broken. */
  lemma {:induction false} BrokenStays(g: Ledger, a: seq<Obs>, b: seq<Obs>, t: Tid)
    requires t < |g.phase|
    ensures |Read(g, a).phase| == |g.phase| == |Read(g, a + b).phase|
    ensures Read(g, a + b).phase[t] != Broken ==> Read(g, a).phase[t] != Broken
    decreases |b|
  {
    hide Read;
    PhaseCount(g, a);
    PhaseCount(g, a + b);
    if b == [] {
      assert a + b == a;
    } else {
      var n := |b| - 1;
      BrokenStays(g, a, b[..n], t);
      assert (a + b)[..|a + b| - 1] == a + b[..n];
      ReadLast(g, a + b, t);
    }
  }

  lemma PhaseEntered(ph: Phase, o: Obs, t: Tid)
    requires About(o) == Some(t)
    ensures var after := NextPhase(ph, o);
      && (after.Pending? ==> o == Issued(t, after.call))
      && (after.Decided? ==> ph == Pending(after.call) && Decides(o, t, after.call, after.result))
  {
  }

  lemma {:induction false} TracePending(g: Ledger, obs: seq<Obs>, t: Tid, call: Call) returns (i: nat)
    requires t < |g.phase| == |Read(g, obs).phase| && g.phase[t] == Quiet && Read(g, obs).phase[t] == Pending(call)
    ensures i < |obs| && obs[i] == Issued(t, call) && Silent(obs, t, i, |obs|)
    decreases |obs|
  {
    hide Read, NextPhase, Decides;
    if obs == [] {
      ReadNone(g);
    } else {
      var n := |obs| - 1;
      ReadLast(g, obs, t);
      if About(obs[n]) == Some(t) {
        PhaseEntered(Read(g, obs[..n]).phase[t], obs[n], t);
        i := n;
      } else {
        i := TracePending(g, obs[..n], t, call);
      }
    }
  }

  lemma {:induction false} TraceDecided(g: Ledger, obs: seq<Obs>, t: Tid, call: Call, r: nat) returns (i: nat, k: nat)
    requires t < |g.phase| == |Read(g, obs).phase| && g.phase[t] == Quiet && Read(g, obs).phase[t] == Decided(call, r)
    ensures i < k < |obs| && obs[i] == Issued(t, call) && Decides(obs[k], t, call, r)
    ensures Silent(obs, t, i, k) && Silent(obs, t, k, |obs|)
    ensures |Read(g, obs[..k]).phase| == |g.phase| && Read(g, obs[..k]).phase[t] == Pending(call)
    decreases |obs|
  {
    hide Read, NextPhase, Decides;
    if obs == [] {
      ReadNone(g);
    } else {
      var n := |obs| - 1;
      ReadLast(g, obs, t);
      if About(obs[n]) == Some(t) {
        PhaseEntered(Read(g, obs[..n]).phase[t], obs[n], t);
        k := n;
        i := TracePending(g, obs[..n], t, call);
      } else {
        i, k := TraceDecided(g, obs[..n], t, call, r);
        assert obs[..n][..k] == obs[..k];
      }
    }
  }

  // ---- Which step made an observation ----

  /** Observation `k` of a run was made by event `n`. */
  lemma {:induction false} Locate(m: Machine, es: seq<Event>, k: nat) returns (n: nat)
    requires Runnable(m, es) && k < |Play(m, es).obs|
    ensures n < |es| && Runnable(m, es[..n])
    ensures var (before, here) := (|Play(m, es[..n]).obs|, Step(StateAt(m, es, n), es[n]).obs);
      && before <= k < before + |here| <= |Play(m, es).obs| && here[k - before] == Play(m, es).obs[k]
      && Play(m, es).obs[..before] == Play(m, es[..n]).obs
    decreases |es|
  {
    hide Shaped, Enabled, Step;
    var first := Step(m, es[0]);
    if k < |first.obs| {
      n := 0;
      assert es[..0] == [];
    } else {
      n := Locate(first.m, es[1..], k - |first.obs|);
      n := n + 1;
      assert es[..n][1..] == es[1..][..n - 1] && es[..n][0] == es[0];
    }
  }

  /** Every answer is traced: it follows the issue of its call, with nothing about the task in between but the one
    * observation that settled it with that very result. */
  lemma AnswersAreTraced(m: Machine, es: seq<Event>, j: nat, t: Tid, r: nat) returns (i: nat, k: nat)
    requires Boot(m) && Runnable(m, es) && t < |m.pc| && j < |Play(m, es).obs|
    requires Play(m, es).obs[j] == Stored(t, r) || Play(m, es).obs[j] == Returned(t, r)
    ensures var obs := Play(m, es).obs;
      && i < j && obs[i].Issued? && obs[i].task == t
      && i < k < j && Decides(obs[k], t, obs[i].call, r) && Silent(obs, t, i, k) && Silent(obs, t, k, j)
      && var g := Read(Blank(m.core.task), obs[..k]); t < |g.phase| && g.phase[t] == Pending(obs[i].call)
  {
    hide Runnable, Play, Read, NextPhase, Decides, Silent;
    var obs, g0 := Play(m, es).obs, Blank(m.core.task);
    BlankIsQuiet(m);
    RunNeverBreaks(m, es, t);
    assert obs == obs[..j + 1] + obs[j + 1..] && obs[..j + 1][..j] == obs[..j];
    BrokenStays(g0, obs[..j + 1], obs[j + 1..], t);
    ReadLast(g0, obs[..j + 1], t);
    var ph := Read(g0, obs[..j]).phase[t];
    AnswerMeans(ph, obs[j], t, r);
    i, k := TraceDecided(g0, obs[..j], t, ph.call, r);
    SilentInPrefix(obs, j, t, i, k);
    SilentInPrefix(obs, j, t, k, j);
    assert obs[..j][..k] == obs[..k];
  }

  lemma BlankIsQuiet(m: Machine)
    requires Boot(m)
    ensures |Blank(m.core.task).phase| == |m.core.task| == |m.pc|
    ensures forall t :: 0 <= t < |m.pc| ==> Blank(m.core.task).phase[t] == Quiet
  {
  }

  lemma RunNeverBreaks(m: Machine, es: seq<Event>, t: Tid)
    requires Boot(m) && Runnable(m, es) && t < |m.pc|
    ensures var g := Read(Blank(m.core.task), Play(m, es).obs); t < |g.phase| && g.phase[t] != Broken
  {
    hide Boot, Runnable, Play, Read;
    BlankIsQuiet(m);
    PhaseCount(Blank(m.core.task), Play(m, es).obs);
    CallsCompleteExactlyOnce(m, es, t);
  }

  lemma AnswerMeans(ph: Phase, o: Obs, t: Tid, r: nat)
    requires o == Stored(t, r) || o == Returned(t, r)
    requires About(o) == Some(t) ==> NextPhase(ph, o) != Broken
    ensures ph.Decided? && ph.result == r
  {
  }

  lemma SilentInPrefix(obs: seq<Obs>, n: nat, t: Tid, i: nat, j: nat)
    requires j <= n <= |obs|
    ensures Silent(obs[..n], t, i, j) <==> Silent(obs, t, i, j)
  {
  }

  // ---- Every -1 is justified ----

  /** In every reachable state a step refuses a call of `t` exactly when the running thread serves one that must fail:
    * its own privileged call, or as the worker one that came in by SVC. It lets a call of `t` expire exactly when it is
    * a tick and `t` waits with one tick left. */
  lemma RefusalsAreExact(m: Machine, es: seq<Event>, e: Event, t: Tid)
    requires Boot(m) && Runnable(m, es)
    requires Shaped(After(m, es).0) && Enabled(After(m, es).0, e)
    ensures var m' := After(m, es).0;
      && (Refused(t) in Step(m', e).obs <==> e.Continue? && RefusesNow(m', t))
      && (Expired(t) in Step(m', e).obs <==> e == SysTick && t < |m'.core.task| && Expires(m'.core.task[t]))
  {
    hide Boot, Runnable, After, Inv, Shaped, Enabled, Step, RefusesNow, Expires;
    var (m', g) := After(m, es);
    var p := RunInv(m, es);
    InvSizes(m', g, p);
    DispatchingMeans(m', g.phase, p);
    StepRefuses(m', e, t);
    StepExpires(m', e, t);
    ExpiringMeans(m', g.phase, p, t);
  }

  lemma ExpiringMeans(m: Machine, ph: seq<Phase>, p: seq<Place>, t: Tid)
    requires Structure.Struct(m, ph, p)
    ensures t in Expiring(m.core) <==> t < |m.core.task| && Expires(m.core.task[t])
  {
  }

  /** Event `e` in state `m` is a reason for `call` of task `t` to fail: a tick with which its time limit runs out, or a
    * step that serves it, in the privileged case possibly as the second attempt of a queue call, when it must fail. */
  ghost predicate Justifies(m: Machine, e: Event, t: Tid, call: Call) {
    || (e == SysTick && t < |m.core.task| && Expires(m.core.task[t]) && IsTimed(call))
    || (e.Continue? && RefusesNow(m, t) &&
        var r := ServedNow(m).value; if r.byWorker then r.call == call else Attempts(r.call, call))
  }

  /** A call that is served is the one its task waits for. */
  lemma ServedIsPending(m: Machine, g: Ledger, p: seq<Place>, t: Tid)
    requires Inv(m, g, p) && ServedNow(m).Some? && ServedNow(m).value.task == t
    ensures t < |g.phase| && t != m.worker && g.phase[t].Pending?
    ensures var q := ServedNow(m).value; if q.byWorker then q.call == g.phase[t].call else Attempts(q.call, g.phase[t].call)
  {
    hide Books.BooksAgree, Structure.Listing;
    var a := m.core.current.value;
    DispatchingMeans(m, g.phase, p);
    if m.pc[a].Dispatch? {
      assert Subject(m.pc[m.worker]) == Some(t) && p[t] == AtWorker(m.pc[a]);
    }
    assert t != m.worker && TaskHolds(m.core.task[t], m.pc[t], p[t], g.phase[t]);
  }

  lemma RefusedCallMeans(m: Machine, g: Ledger, p: seq<Place>, t: Tid, call: Call)
    requires Inv(m, g, p) && t < |g.phase| && g.phase[t] == Pending(call) && RefusesNow(m, t)
    ensures Justifies(m, Continue(None), t, call)
  {
    hide Inv, MustFail, ServedNow;
    ServedIsPending(m, g, p, t);
  }

  /** Every -1 that reaches a caller is justified: between the issue of the call and the answer there is one event that
    * lets it expire, or that serves it when its handle is invalid, or when it is unavailable and may not wait. */
  lemma FailuresAreJustified(m: Machine, es: seq<Event>, j: nat, t: Tid) returns (i: nat, k: nat, n: nat)
    requires Boot(m) && Runnable(m, es) && t < |m.pc| && j < |Play(m, es).obs|
    requires Play(m, es).obs[j] == Stored(t, FAIL) || Play(m, es).obs[j] == Returned(t, FAIL)
    ensures var obs := Play(m, es).obs;
      && i < j && obs[i].Issued? && obs[i].task == t
      && (IsAttempt(obs[i].call) ==>
            && i < k < j && n < |es| && Runnable(m, es[..n])
            && |Play(m, es[..n]).obs| <= k < |Play(m, es[..n]).obs| + |Step(StateAt(m, es, n), es[n]).obs|
            && Justifies(StateAt(m, es, n), es[n], t, obs[i].call))
  {
    hide Boot, Runnable, Play, Read, Silent, Inv, Shaped, Enabled, Step, RefusesNow, Justifies, Expires, StateAt;
    i, k := AnswersAreTraced(m, es, j, t, FAIL);
    var obs := Play(m, es).obs;
    var call := obs[i].call;
    n := 0;
    if IsAttempt(call) {
      n := Locate(m, es, k);
      var here := Step(StateAt(m, es, n), es[n]).obs;
      StateAtIsPlayed(m, es, n);
      var (m', g) := After(m, es[..n]);
      var p := RunInv(m, es[..n]);
      InvSizes(m', g, p);
      StructureIsShaped(m', g, p);
      FailureDecided(obs[k], t, call);
      RefusalsAreExact(m, es[..n], es[n], t);
      if obs[k] == Refused(t) {
        DispatchingMeans(m', g.phase, p);
        StepRefuses(m', es[n], t);
        assert obs[..k] == Play(m, es[..n]).obs;
        RefusedCallMeans(m', g, p, t, call);
        JustifiedBy(m', es[n], t, call);
      } else {
        JustifiedBy(m', es[n], t, call);
      }
    }
  }

  lemma StructureIsShaped(m: Machine, g: Ledger, p: seq<Place>)
    requires Inv(m, g, p)
    ensures Shaped(m)
  {
    hide Structure.Struct, Books.BooksAgree, Shaped;
    Structure.StructShaped(m, g.phase, p);
  }

  lemma FailureDecided(o: Obs, t: Tid, call: Call)
    requires Decides(o, t, call, FAIL) && IsAttempt(call)
    ensures o == Refused(t) || (o == Expired(t) && IsTimed(call))
  {
  }

  lemma JustifiedBy(m: Machine, e: Event, t: Tid, call: Call)
    ensures e.Continue? && Justifies(m, Continue(None), t, call) ==> Justifies(m, e, t, call)
    ensures e == SysTick && t < |m.core.task| && Expires(m.core.task[t]) && IsTimed(call) ==> Justifies(m, e, t, call)
  {
  }

  // ---- A queue call that waited ----

  /** Nobody but the running thread moves, so a task inside the kernel stays where it is. */
  lemma OthersStay(m: Machine, e: Event, t: Tid)
    requires Shaped(m) && Enabled(m, e) && t < |m.pc| && m.pc[t] != User
    requires !(e.Continue? && m.core.current == Some(t))
    ensures var m' := Step(m, e).m; |m'.pc| == |m.pc| && m'.worker == m.worker && m'.pc[t] == m.pc[t]
  {
    hide Advance, Tick, SwitchContext, SvcEntry, SemGive;
    if e.Continue? {
      Timers.AdvanceMoves(m, m.core.current.value, e.made);
    }
  }

  /** A result is returned by the step of its own thread that holds it. */
  lemma ReturnedMeans(m: Machine, e: Event, t: Tid, r: nat)
    requires Shaped(m) && Enabled(m, e) && Returned(t, r) in Step(m, e).obs
    ensures e.Continue? && Executes(m, t) && m.pc[t] == Return(r)
  {
    hide Serve, SemGive, SvcEntry, SwitchContext, Tick;
    match e {
      case SysTick => TickObsMean(m.core, |m.core.task|, t);
      case Continue(made) =>
        var a := m.core.current.value;
        match m.pc[a] {
          case Enter(call) => ServeDoesNotExpire(m, a, a, call, made, t);
          case Dispatch(item) => ServeDoesNotExpire(m, a, item.caller, item.call, made, t);
          case _ =>
        }
      case _ =>
    }
  }

  /** The thread is about to return `r`, after waking a task at most. */
  predicate Ending(pc: Pc, r: nat) {
    pc == Return(r) || (pc.Wake? && pc.next == Return(r))
  }

  /** Event `e` in state `m` is the second attempt of queue call `call` by `t`. */
  ghost predicate Retries(m: Machine, e: Event, t: Tid, call: Call) {
    e.Continue? && Executes(m, t) && m.pc[t] == Enter(Retry(call))
  }

  lemma AfterRetry(m: Machine, t: Tid, call: Call, made: Option<Handle>)
    requires Shaped(m) && Executes(m, t) && t != m.worker && IsQueueCall(call) && m.pc[t] == Enter(Retry(call))
    ensures var m' := Advance(m, t, made).m;
      |m'.pc| == |m.pc| && Ending(m'.pc[t], if Unavailable(m.core, call, t) then FAIL else 0)
  {
    hide PopWaiter, InPool;
  }

  lemma EndingStep(m: Machine, t: Tid, r: nat, made: Option<Handle>)
    requires Shaped(m) && Executes(m, t) && Ending(m.pc[t], r)
    ensures var out := Advance(m, t, made); |out.m.pc| == |m.pc| && (Ending(out.m.pc[t], r) || Returned(t, r) in out.obs)
  {
  }

  ghost predicate NothingReturned(obs: seq<Obs>, t: Tid) {
    forall r :: Returned(t, r) !in obs
  }

  /** After the run, event `e` returns `r` to `t` for the first time. */
  ghost predicate ReturnsFirst(m: Machine, es: seq<Event>, e: Event, t: Tid, r: nat) {
    && Runnable(m, es) && NothingReturned(Play(m, es).obs, t)
    && Shaped(Play(m, es).m) && Enabled(Play(m, es).m, e) && Returned(t, r) in Step(Play(m, es).m, e).obs
  }

  lemma ReturnsLater(m: Machine, es: seq<Event>, e: Event, t: Tid, r: nat)
    requires ReturnsFirst(m, es, e, t, r)
    ensures es == [] ==> e.Continue? && Executes(m, t) && m.pc[t] == Return(r)
    ensures es != [] ==>
      Shaped(m) && Enabled(m, es[0]) && NothingReturned(Step(m, es[0]).obs, t) && ReturnsFirst(Step(m, es[0]).m, es[1..], e, t, r)
  {
    hide Shaped, Enabled, Step;
    if es == [] {
      ReturnedMeans(m, e, t, r);
    }
  }

  lemma {:induction false} FromEnding(m: Machine, es: seq<Event>, e: Event, t: Tid, call: Call, r0: nat, r: nat)
    requires ReturnsFirst(m, es, e, t, r) && t < |m.pc| && Ending(m.pc[t], r0)
    ensures r == r0
    ensures forall j :: 0 <= j < |es| ==> !Retries(StateAt(m, es, j), es[j], t, call)
    decreases |es|
  {
    hide Shaped, Enabled, Step, ReturnsFirst, Runnable;
    ReturnsRunnable(m, es, e, t, r);
    ReturnsLater(m, es, e, t, r);
    if es != [] {
      if es[0].Continue? && m.core.current == Some(t) {
        MovesHere(m, es[0], t);
        EndingStep(m, t, r0, es[0].made);
      } else {
        OthersStay(m, es[0], t);
      }
      FromEnding(Step(m, es[0]).m, es[1..], e, t, call, r0, r);
      StateAtShifts(m, es);
    }
  }

  lemma ReturnsRunnable(m: Machine, es: seq<Event>, e: Event, t: Tid, r: nat)
    requires ReturnsFirst(m, es, e, t, r)
    ensures Runnable(m, es)
  {
  }

  lemma MovesHere(m: Machine, e: Event, t: Tid)
    requires Shaped(m) && Enabled(m, e) && e.Continue? && m.core.current == Some(t)
    ensures Executes(m, t) && Step(m, e) == Advance(m, t, e.made)
  {
    hide Advance;
  }

  /** The second attempt is the event numbered `k` of the run, the only one, and decides the result. */
  ghost predicate RetryDecides(m: Machine, es: seq<Event>, t: Tid, call: Call, k: nat, r: nat) {
    && Runnable(m, es) && k < |es| && Retries(StateAt(m, es, k), es[k], t, call)
    && (forall j :: 0 <= j < |es| && Retries(StateAt(m, es, j), es[j], t, call) ==> j == k)
    && r == if Unavailable(StateAt(m, es, k).core, call, t) then FAIL else 0
  }

  lemma RetryLater(m: Machine, es: seq<Event>, t: Tid, call: Call, k: nat, r: nat)
    requires Runnable(m, es) && es != [] && RetryDecides(Step(m, es[0]).m, es[1..], t, call, k, r)
    requires !Retries(m, es[0], t, call)
    ensures RetryDecides(m, es, t, call, k + 1, r)
  {
    hide Shaped, Enabled, Step, Retries, Unavailable;
    StateAtShifts(m, es);
  }

  lemma {:induction false} FromRetry(m: Machine, es: seq<Event>, e: Event, t: Tid, call: Call, r: nat) returns (k: nat)
    requires ReturnsFirst(m, es, e, t, r) && IsQueueCall(call)
    requires t < |m.pc| && t != m.worker && m.pc[t] == Enter(Retry(call))
    ensures RetryDecides(m, es, t, call, k, r)
    decreases |es|
  {
    hide Shaped, Enabled, Step, ReturnsFirst, Runnable, RetryDecides, Unavailable, Retry;
    ReturnsRunnable(m, es, e, t, r);
    ReturnsLater(m, es, e, t, r);
    if es[0].Continue? && m.core.current == Some(t) {
      MovesHere(m, es[0], t);
      AfterRetry(m, t, call, es[0].made);
      FromEnding(Step(m, es[0]).m, es[1..], e, t, call, if Unavailable(m.core, call, t) then FAIL else 0, r);
      k := 0;
      RetryIsFirst(m, es, t, call, r);
    } else {
      OthersStay(m, es[0], t);
      k := FromRetry(Step(m, es[0]).m, es[1..], e, t, call, r);
      RetryLater(m, es, t, call, k, r);
      k := k + 1;
    }
  }

  lemma RetryIsFirst(m: Machine, es: seq<Event>, t: Tid, call: Call, r: nat)
    requires Runnable(m, es) && es != [] && Retries(m, es[0], t, call)
    requires r == if Unavailable(m.core, call, t) then FAIL else 0
    requires var m' := Step(m, es[0]).m; forall j :: 0 <= j < |es[1..]| ==> !Retries(StateAt(m', es[1..], j), es[1..][j], t, call)
    ensures RetryDecides(m, es, t, call, 0, r)
  {
    hide Shaped, Enabled, Step, Retries, Unavailable;
    StateAtShifts(m, es);
    forall j | 0 < j < |es| ensures !Retries(StateAt(m, es, j), es[j], t, call) {
      assert es[j] == es[1..][j - 1];
    }
  }

  // ---- How a queue call that waited goes on ----

  /** Event `e` in state `m` is the step with which `t` goes on after its wait in `call`. */
  ghost predicate Resumes(m: Machine, e: Event, t: Tid, call: Call) {
    e.Continue? && Executes(m, t) && m.pc[t] == Resume(call)
  }

  ghost predicate NeverRetries(m: Machine, es: seq<Event>, t: Tid, call: Call)
    requires Runnable(m, es)
  {
    forall j :: 0 <= j < |es| ==> !Retries(StateAt(m, es, j), es[j], t, call)
  }

  /** The wait ends with event `n` of the run, the first of its kind. If `t` is TIMED_OUT then, its call had a time limit
    * and fails without another attempt; otherwise the second attempt, event `k`, decides. */
  ghost predicate ResumeDecides(m: Machine, es: seq<Event>, t: Tid, call: Call, n: nat, k: nat, r: nat) {
    && Runnable(m, es) && n < |es| && Resumes(StateAt(m, es, n), es[n], t, call)
    && (forall j :: 0 <= j < n ==> !Resumes(StateAt(m, es, j), es[j], t, call))
    && if StateAt(m, es, n).core.task[t].timedOut then IsTimed(call) && r == FAIL && NeverRetries(m, es, t, call)
       else n < k && RetryDecides(m, es, t, call, k, r)
  }

  lemma ResumeLater(m: Machine, es: seq<Event>, t: Tid, call: Call, n: nat, k: nat, r: nat)
    requires Runnable(m, es) && es != [] && ResumeDecides(Step(m, es[0]).m, es[1..], t, call, n, k, r)
    requires !Resumes(m, es[0], t, call) && !Retries(m, es[0], t, call)
    ensures ResumeDecides(m, es, t, call, n + 1, k + 1, r)
  {
    hide Shaped, Enabled, Step, Retries, Unavailable, RetryDecides;
    StateAtShifts(m, es);
    forall j | 0 <= j < n + 1 ensures !Resumes(StateAt(m, es, j), es[j], t, call) {
      assert j > 0 ==> es[j] == es[1..][j - 1];
    }
    if StateAt(m, es, n + 1).core.task[t].timedOut {
      forall j | 0 <= j < |es| ensures !Retries(StateAt(m, es, j), es[j], t, call) {
        assert j > 0 ==> es[j] == es[1..][j - 1];
      }
    } else {
      RetryLater(m, es, t, call, k, r);
    }
  }

  lemma ResumeIsFirst(m: Machine, es: seq<Event>, t: Tid, call: Call, k: nat, r: nat)
    requires Runnable(m, es) && es != [] && Resumes(m, es[0], t, call) && !Retries(m, es[0], t, call)
    requires if m.core.task[t].timedOut then IsTimed(call) && r == FAIL && NeverRetries(Step(m, es[0]).m, es[1..], t, call)
             else RetryDecides(Step(m, es[0]).m, es[1..], t, call, k, r)
    ensures ResumeDecides(m, es, t, call, 0, k + 1, r)
  {
    hide Shaped, Enabled, Step, Retries, Unavailable, RetryDecides;
    StateAtShifts(m, es);
    if m.core.task[t].timedOut {
      forall j | 0 <= j < |es| ensures !Retries(StateAt(m, es, j), es[j], t, call) {
        assert j > 0 ==> es[j] == es[1..][j - 1];
      }
    } else {
      RetryLater(m, es, t, call, k, r);
    }
  }

  lemma {:induction false} FromResume(m: Machine, g: Ledger, p: seq<Place>, es: seq<Event>, e: Event, t: Tid, call: Call, r: nat)
    returns (n: nat, k: nat)
    requires Inv(m, g, p) && ReturnsFirst(m, es, e, t, r) && IsQueueCall(call)
    requires t < |m.pc| && m.pc[t] == Resume(call)
    ensures ResumeDecides(m, es, t, call, n, k, r)
    decreases |es|
  {
    hide Inv, Shaped, Enabled, Step, ReturnsFirst, Runnable, RetryDecides, Unavailable, Retry, Read, IsTimed, ResumeDecides;
    ReturnsRunnable(m, es, e, t, r);
    ReturnsLater(m, es, e, t, r);
    ResumingMeans(m, g, p, t, call);
    if es[0].Continue? && m.core.current == Some(t) {
      MovesHere(m, es[0], t);
      ResumeStep(m, t, call, es[0].made);
      k := 0;
      if m.core.task[t].timedOut {
        FromEnding(Step(m, es[0]).m, es[1..], e, t, call, FAIL, r);
      } else {
        k := FromRetry(Step(m, es[0]).m, es[1..], e, t, call, r);
      }
      ResumeIsFirst(m, es, t, call, k, r);
      n := 0;
    } else {
      OthersStay(m, es[0], t);
      var p' := Invariant.StepKeeps(m, g, p, es[0]);
      n, k := FromResume(Step(m, es[0]).m, Read(g, Step(m, es[0]).obs), p', es[1..], e, t, call, r);
      ResumeLater(m, es, t, call, n, k, r);
      n := n + 1;
    }
    k := k + 1;
  }

  /** Only a call with a time limit is ever marked TIMED_OUT. */
  lemma ResumingMeans(m: Machine, g: Ledger, p: seq<Place>, t: Tid, call: Call)
    requires Inv(m, g, p) && t < |m.pc| && m.pc[t] == Resume(call)
    ensures t < |m.core.task| && t != m.worker && (m.core.task[t].timedOut ==> IsTimed(call))
  {
    hide Books.BooksAgree, Structure.Listing, ListsHold, RingHolds, HandsHold, WorkHolds;
    if t != m.worker {
      assert TaskHolds(m.core.task[t], m.pc[t], p[t], g.phase[t]);
    }
  }

  lemma ResumeStep(m: Machine, t: Tid, call: Call, made: Option<Handle>)
    requires Shaped(m) && Executes(m, t) && m.pc[t] == Resume(call) && IsQueueCall(call)
    ensures var m' := Advance(m, t, made).m;
      && |m'.pc| == |m.pc| && m'.worker == m.worker
      && m'.pc[t] == if m.core.task[t].timedOut then Return(FAIL) else Enter(Retry(call))
  {
  }

  /** A queue call that waited, in a reachable state, returns -1 if and only if its task goes on TIMED_OUT, which takes a
    * time limit, or the queue is full (empty, for a pop) in the state of its one second attempt; otherwise it returns 0.
    * So even with WAIT_FOREVER, which never times out, a call may fail. */
  lemma WaitedQueueCallFailsIff(m: Machine, es: seq<Event>, es': seq<Event>, e: Event, t: Tid, call: Call, r: nat) returns (n: nat, k: nat)
    requires Boot(m) && Runnable(m, es) && IsQueueCall(call)
    requires var m1 := After(m, es).0; t < |m1.pc| && m1.pc[t] == Resume(call) && ReturnsFirst(m1, es', e, t, r)
    ensures ResumeDecides(After(m, es).0, es', t, call, n, k, r)
  {
    hide Boot, Runnable, After, Inv, ReturnsFirst, ResumeDecides;
    var (m1, g) := After(m, es);
    var p := RunInv(m, es);
    n, k := FromResume(m1, g, p, es', e, t, call, r);
  }

  // ---- User-mode queue calls ----

  /** A user-mode queue call never waits, whatever its timeout: in every reachable state a task on a queue's list made a
    * privileged call, ... */
  lemma UserQueueCallsNeverWait(m: Machine, es: seq<Event>, l: WaitList, t: Tid)
    requires Boot(m) && Runnable(m, es) && (l.Senders? || l.Receivers?) && t in After(m, es).0.core.On(l)
    ensures var m' := After(m, es).0;
      t < |m'.core.task| == |m'.pc| && !m'.core.task[t].svcBlocked && m'.pc[t].Resume? && WaitsOn(m'.pc[t].call, l)
  {
    hide Boot, Runnable, After, RingHolds, HandsHold, WorkHolds, Structure.Listing, Books.BooksAgree, NoDuplicates;
    var (m', g) := After(m, es);
    var p := RunInv(m, es);
    assert t != m'.worker ==> TaskHolds(m'.core.task[t], m'.pc[t], p[t], g.phase[t]);
  }

  /** ... and the step that dispatches a user-mode queue call settles it, with -1 exactly when the queue is full (empty). */
  lemma UserQueueCallsAreSettled(m: Machine, item: Item, made: Option<Handle>) returns (o: Obs)
    requires Shaped(m) && Enabled(m, Continue(made)) && m.core.current == Some(m.worker)
    requires m.pc[m.worker] == Dispatch(item) && IsQueueCall(item.call)
    ensures Step(m, Continue(made)).obs == [o]
    ensures Decides(o, item.caller, item.call, if Unavailable(m.core, item.call, item.caller) then FAIL else 0)
  {
    hide PopWaiter, InPool;
    o := Step(m, Continue(made)).obs[0];
  }

  /** A semaphore or mutex call that waited ends with its task's next step: -1 if it is TIMED_OUT, 0 otherwise, and the mark
    * is cleared. */
  lemma WaitedAcquireReturns(m: Machine, es: seq<Event>, made: Option<Handle>, t: Tid, call: Call)
    requires Boot(m) && Runnable(m, es) && (call.SemWait? || call.MutexLock?)
    requires var m1 := After(m, es).0; Shaped(m1) && Enabled(m1, Continue(made)) && Executes(m1, t) && m1.pc[t] == Resume(call)
    ensures var (m1, m2) := (After(m, es).0, Step(After(m, es).0, Continue(made)).m);
      && t < |m2.pc| && t < |m2.core.task| && t < |m1.core.task| && !m2.core.task[t].timedOut
      && m2.pc[t] == Return(if m1.core.task[t].timedOut then FAIL else 0)
      && (m1.core.task[t].timedOut ==> IsTimed(call))
  {
    hide Boot, Runnable, After, Inv;
    var (m1, g) := After(m, es);
    var p := RunInv(m, es);
    ResumingMeans(m1, g, p, t, call);
  }
}
