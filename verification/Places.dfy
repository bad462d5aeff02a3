/** Where a blocked task is. The places of all tasks form a sequence, so "exactly one place" is
  * what the sequence says; the predicates below tie it to the kernel's data, in both directions. */
module Places {
  import opened Base
  import opened CoreState
  import opened Transitions
  import opened Ledgers

  datatype Place =
    | Nowhere                    // not blocked
    | InRing(call: Call)         // its work item is queued
    | AtWorker(stage: Pc)        // the worker is serving its call
    | Listed(l: WaitList)        // on a wait list
    | Handed(waker: Tid)            // popped by thread `waker`, which has yet to wake it
    | Sleeping
    | Stranded                   // asleep with a delay of zero: no tick will wake it

  ghost predicate ListsHold(ws: map<WaitList, seq<Tid>>, p: seq<Place>) {
    && (forall l, t {:trigger t in ListOf(ws, l)} :: t in ListOf(ws, l) ==> t < |p| && p[t] == Listed(l))
    && (forall t :: 0 <= t < |p| && p[t].Listed? ==> t in ListOf(ws, p[t].l))
    && (forall l :: NoDuplicates(ListOf(ws, l)))
  }

  ghost predicate RingHolds(ring: seq<Item>, p: seq<Place>) {
    && (forall i :: 0 <= i < |ring| ==> ring[i].caller < |p| && p[ring[i].caller] == InRing(ring[i].call))
    && (forall t :: 0 <= t < |p| && p[t].InRing? ==> Item(p[t].call, t) in ring)
    && (forall i, j :: 0 <= i < j < |ring| ==> ring[i].caller != ring[j].caller)
  }

  ghost predicate HandsHold(pc: seq<Pc>, p: seq<Place>) {
    && (forall b :: 0 <= b < |pc| && pc[b].Wake? ==> pc[b].waiter < |p| && p[pc[b].waiter] == Handed(b))
    && (forall t :: 0 <= t < |p| && p[t].Handed? ==> p[t].waker < |pc| && pc[p[t].waker].Wake? && pc[p[t].waker].waiter == t)
  }

  /** The task whose call the worker is serving. */
  function Subject(stage: Pc): Option<Tid> {
    match stage
    case Dispatch(item) => Some(item.caller)
    case Complete(t, _) => Some(t)
    case Wake(_, Complete(t, _)) => Some(t)
    case Sleep(t, _) => Some(t)
    case _ => None
  }

  ghost predicate WorkHolds(stage: Pc, p: seq<Place>) {
    && (Subject(stage).Some? ==> Subject(stage).value < |p| && p[Subject(stage).value] == AtWorker(stage))
    && (forall t :: 0 <= t < |p| && p[t].AtWorker? ==> Subject(stage) == Some(t) && p[t].stage == stage)
  }

  // ---- What a task's own fields look like in each place ----

  /** The calls that may wait on `l`. */
  predicate WaitsOn(call: Call, l: WaitList) {
    match l
    case SemWaiters(h) => call.SemWait? && call.sem == h
    case MutexWaiters(h) => call.MutexLock? && call.mutex == h
    case Senders(q) => call.QueueSend? && call.queue == q
    case Receivers(q) => call.QueueRecv? && call.queue == q
  }

  /** What a blocked privileged call has been given when it resumes without a time-out: semaphores and
    * mutexes were transferred to it, a queue call must try again. */
  predicate Granted(call: Call, ph: Phase) {
    IsAttempt(call) && ph == if call.SemWait? || call.MutexLock? then Decided(call, 0) else Pending(call)
  }

  /** `entered` is the issued call, or the second, non-waiting attempt of a queue call. */
  predicate Attempts(entered: Call, issued: Call) {
    entered == issued || entered == Retry(issued)
  }

  predicate AwakeAt(pc: Pc, ph: Phase, timedOut: bool) {
    match pc
    case User => ph == Quiet
    case Enter(call) => ph.Pending? && Attempts(call, ph.call)
    case Resume(call) => if timedOut then ph == Decided(call, FAIL) && IsTimed(call) else Granted(call, ph)
    case Return(r) => Answers(ph, r)
    case Wake(_, Return(r)) => Answers(ph, r)
    case _ => false
  }

  predicate Served(stage: Pc, svcBlocked: bool, ph: Phase) {
    match stage
    case Dispatch(item) => svcBlocked && ph == Pending(item.call)
    case Complete(_, r) => svcBlocked && Answers(ph, r)
    case Wake(_, Complete(_, r)) => svcBlocked && Answers(ph, r)
    case Sleep(_, _) => !svcBlocked && ph == Quiet
    case _ => false
  }

  predicate Untimed(k: Task) {
    k.delay == 0 && k.blockingOn == None
  }

  predicate TaskHolds(k: Task, pc: Pc, pl: Place, ph: Phase) {
    match pl
    case Nowhere => (k.state == Ready || k.state == Running) && !k.svcBlocked && Untimed(k) && AwakeAt(pc, ph, k.timedOut)
    case InRing(call) => k.state == Waiting && k.svcBlocked && Untimed(k) && pc == User && ph == Pending(call)
    case AtWorker(stage) => k.state == Waiting && Untimed(k) && pc == User && Served(stage, k.svcBlocked, ph)
    case Listed(l) =>
      && k.state == Waiting
      && (Untimed(k) || (k.delay > 0 && k.blockingOn == Some(l) && ph.Pending? && IsTimed(ph.call)))
      && ph.Pending? && WaitsOn(ph.call, l)
      && ((pc == User && k.svcBlocked && (l.SemWaiters? || l.MutexWaiters?)) || (pc == Resume(ph.call) && !k.svcBlocked && !k.timedOut))
    case Handed(_) =>
      && k.state == Waiting && Untimed(k)
      && ((pc == User && k.svcBlocked && Answers(ph, 0)) || (pc.Resume? && !k.svcBlocked && !k.timedOut && Granted(pc.call, ph)))
    case Sleeping =>
      && k.state == Waiting && k.delay > 0 && k.blockingOn == None && !k.svcBlocked
      && ((pc == User && ph == Quiet) || (pc == Return(0) && Answers(ph, 0)))
    case Stranded => k.state == Waiting && Untimed(k) && !k.svcBlocked && pc == User && ph == Quiet
  }

  // ---- How the links follow a task that changes place ----

  lemma ListsMove(ws: map<WaitList, seq<Tid>>, p: seq<Place>, t: Tid, x: Place)
    requires ListsHold(ws, p) && t < |p| && !p[t].Listed? && !x.Listed?
    ensures ListsHold(ws, p[t := x])
  {
  }

  lemma RingMove(ring: seq<Item>, p: seq<Place>, t: Tid, x: Place)
    requires RingHolds(ring, p) && t < |p| && !p[t].InRing? && !x.InRing?
    ensures RingHolds(ring, p[t := x])
  {
  }

  lemma HandsMove(pc: seq<Pc>, p: seq<Place>, t: Tid, x: Place)
    requires HandsHold(pc, p) && t < |p| && !p[t].Handed? && !x.Handed?
    ensures HandsHold(pc, p[t := x])
  {
  }

  /** A thread that is not waking anybody goes on to another step of that kind. */
  lemma HandsAdvance(pc: seq<Pc>, p: seq<Place>, a: Tid, next: Pc)
    requires HandsHold(pc, p) && a < |pc| && !pc[a].Wake? && !next.Wake?
    ensures HandsHold(pc[a := next], p)
  {
  }

  lemma WorkMove(stage: Pc, p: seq<Place>, t: Tid, x: Place)
    requires WorkHolds(stage, p) && t < |p| && !p[t].AtWorker? && !x.AtWorker?
    ensures WorkHolds(stage, p[t := x])
  {
  }

  /** The worker goes from one stage to the next with the same task, or lets it go to place `x`. */
  lemma WorkAdvance(stage: Pc, p: seq<Place>, t: Tid, stage': Pc, x: Place)
    requires WorkHolds(stage, p) && Subject(stage) == Some(t)
    requires if Subject(stage') == Some(t) then x == AtWorker(stage') else Subject(stage') == None && !x.AtWorker?
    ensures t < |p| && WorkHolds(stage', p[t := x])
  {
  }

  lemma JoinedOnce(s: seq<Tid>, l: WaitList, t: Tid)
    requires NoDuplicates(s) && t !in s
    ensures NoDuplicates(Joined(s, l, t))
  {
  }

  lemma ListsJoin(ws: map<WaitList, seq<Tid>>, p: seq<Place>, l: WaitList, t: Tid)
    requires ListsHold(ws, p) && t < |p| && !p[t].Listed?
    ensures ListsHold(ws[l := Joined(ListOf(ws, l), l, t)], p[t := Listed(l)])
  {
    JoinedOnce(ListOf(ws, l), l, t);
    var ws', p' := ws[l := Joined(ListOf(ws, l), l, t)], p[t := Listed(l)];
    forall k, u {:trigger u in ListOf(ws', k)} | u in ListOf(ws', k) ensures u < |p'| && p'[u] == Listed(k) {
      if k != l || u != t {
        assert u in ListOf(ws, k);
      }
    }
    forall u | 0 <= u < |p'| && p'[u].Listed? ensures u in ListOf(ws', p'[u].l) {
      if u != t {
        assert u in ListOf(ws, p[u].l);
      }
    }
    forall k ensures NoDuplicates(ListOf(ws', k)) {
      assert NoDuplicates(ListOf(ws, k));
    }
  }

  lemma TailOnce(s: seq<Tid>)
    requires NoDuplicates(s) && s != []
    ensures NoDuplicates(s[1..]) && s[0] !in s[1..]
  {
  }

  lemma ListsPop(ws: map<WaitList, seq<Tid>>, p: seq<Place>, l: WaitList, x: Place)
    requires ListsHold(ws, p) && ListOf(ws, l) != [] && !x.Listed?
    ensures var t := ListOf(ws, l)[0]; t < |p| && p[t] == Listed(l) && ListsHold(ws[l := ListOf(ws, l)[1..]], p[t := x])
  {
    TailOnce(ListOf(ws, l));
    var t := ListOf(ws, l)[0];
    assert t in ListOf(ws, l);
    var ws', p' := ws[l := ListOf(ws, l)[1..]], p[t := x];
    forall k, u {:trigger u in ListOf(ws', k)} | u in ListOf(ws', k) ensures u < |p'| && p'[u] == Listed(k) {
      assert u in ListOf(ws, k);
    }
    forall u | 0 <= u < |p'| && p'[u].Listed? ensures u in ListOf(ws', p'[u].l) {
      assert u in ListOf(ws, p[u].l);
    }
    forall k ensures NoDuplicates(ListOf(ws', k)) {
      assert NoDuplicates(ListOf(ws, k));
    }
  }

  lemma RingPush(ring: seq<Item>, p: seq<Place>, item: Item)
    requires RingHolds(ring, p) && item.caller < |p| && !p[item.caller].InRing?
    ensures RingHolds(ring + [item], p[item.caller := InRing(item.call)])
  {
  }

  lemma RingPop(ring: seq<Item>, p: seq<Place>, x: Place)
    requires RingHolds(ring, p) && ring != [] && !x.InRing?
    ensures ring[0].caller < |p| && p[ring[0].caller] == InRing(ring[0].call)
    ensures RingHolds(ring[1..], p[ring[0].caller := x])
  {
    var rest, p' := ring[1..], p[ring[0].caller := x];
    forall t | 0 <= t < |p'| && p'[t].InRing? ensures Item(p'[t].call, t) in rest {
      assert Item(p[t].call, t) in ring;
    }
  }

  /** Thread `a` pops `t` and is about to wake it. */
  lemma HandsTake(pc: seq<Pc>, p: seq<Place>, a: Tid, t: Tid, next: Pc)
    requires HandsHold(pc, p) && a < |pc| && !pc[a].Wake? && t < |p| && !p[t].Handed?
    ensures HandsHold(pc[a := Wake(t, next)], p[t := Handed(a)])
  {
  }

  lemma HandsGive(pc: seq<Pc>, p: seq<Place>, a: Tid, next: Pc, x: Place)
    requires HandsHold(pc, p) && a < |pc| && pc[a].Wake? && !next.Wake? && !x.Handed?
    ensures pc[a].waiter < |p| && p[pc[a].waiter] == Handed(a) && HandsHold(pc[a := next], p[pc[a].waiter := x])
  {
  }

  /** Pigeonhole: distinct numbers below `n` are at most `n` many. */
  lemma {:induction false} Pigeonhole(s: seq<nat>, n: nat)
    requires forall i :: 0 <= i < |s| ==> s[i] < n
    requires forall i, j :: 0 <= i < j < |s| ==> s[i] != s[j]
    ensures |s| <= n
  {
    if s != [] {
      assert s[0] < n;
      if i :| 0 <= i < |s| && s[i] == n - 1 {
        var rest := s[..i] + s[i + 1..];
        assert forall k :: 0 <= k < |rest| ==> rest[k] == s[if k < i then k else k + 1];
        Pigeonhole(rest, n - 1);
      } else {
        Pigeonhole(s, n - 1);
      }
    }
  }

  /** At most one item per task is queued, so the ring never fills. */
  lemma RingHasRoom(ring: seq<Item>, p: seq<Place>)
    requires RingHolds(ring, p) && |p| <= MAX_TASKS
    ensures |ring| < KWORK_QUEUE_SIZE - 1
  {
    var callers := seq(|ring|, i requires 0 <= i < |ring| => ring[i].caller);
    Pigeonhole(callers, |p|);
  }
}
