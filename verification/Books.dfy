/** The accounting invariants: what the kernel's counters, owners and queues have to do with
  * what the ledger has seen. */
module Books {
  import opened Base
  import opened CoreState
  import opened Transitions
  import opened Ledgers

  /** Conservation of units: count == initial + gives - takes. A positive count means nobody waits. */
  ghost predicate SemsHold(sem: map<Handle, int>, ws: map<WaitList, seq<Tid>>, balance: map<Handle, int>) {
    forall h :: h in sem ==>
      && sem[h] >= 0
      && sem[h] == At(balance, h, 0)
      && (sem[h] > 0 ==> ListOf(ws, SemWaiters(h)) == [])
  }

  /** A mutex with waiters has an owner, who is not one of them. */
  ghost predicate OwnersHold(owner: map<Handle, Option<Tid>>, ws: map<WaitList, seq<Tid>>) {
    forall h :: h in owner ==>
      && (ListOf(ws, MutexWaiters(h)) != [] ==> owner[h].Some?)
      && (owner[h].Some? ==> owner[h].value !in ListOf(ws, MutexWaiters(h)))
  }

  predicate Holds(owner: map<Handle, Option<Tid>>, h: Handle, t: Tid) {
    h in owner && owner[h] == Some(t)
  }

  predicate LockWon(ph: Phase, h: Handle) {
    ph.Decided? && ph.result == 0 && ph.call.MutexLock? && ph.call.mutex == h
  }

  /** A lock that is decided, but whose task has not run yet, is already backed by ownership. */
  ghost predicate WinsHold(owner: map<Handle, Option<Tid>>, phase: seq<Phase>) {
    forall t, h :: 0 <= t < |phase| && LockWon(phase[t], h) ==> Holds(owner, h, t)
  }

  /** Mutual exclusion: whoever was told that it holds the mutex, and has not unlocked since, is the owner. */
  ghost predicate ToldHold(owner: map<Handle, Option<Tid>>, told: map<Handle, set<Tid>>) {
    forall h, t :: t in At(told, h, {}) ==> Holds(owner, h, t)
  }

  /** FIFO: what was pushed is what was popped followed by what is queued, in a buffer that has room for it. */
  ghost predicate QueuesHold(queue: map<Handle, Queue>, pushed: map<Handle, seq<Data>>, popped: map<Handle, seq<Data>>) {
    forall q ::
      if q in queue then
        && At(pushed, q, []) == At(popped, q, []) + queue[q].items
        && QueueOk(queue[q])
      else At(pushed, q, []) == At(popped, q, []) == []
  }

  /** The saved R0 of every task is the last result stored for it. */
  ghost predicate StoredHold(task: seq<Task>, stored: seq<nat>) {
    |stored| == |task| && forall t :: 0 <= t < |task| ==> stored[t] == task[t].savedR0
  }

  ghost predicate BooksAgree(c: Core, g: Ledger) {
    && SemsHold(c.sem, c.waiters, g.balance)
    && OwnersHold(c.owner, c.waiters)
    && WinsHold(c.owner, g.phase)
    && ToldHold(c.owner, g.told)
    && QueuesHold(c.queue, g.pushed, g.popped)
    && g.posted == g.fetched + c.ring
    && StoredHold(c.task, g.stored)
  }

  // ---- Wait lists that change ----

  /** Lists other than those of semaphores may change freely, those of semaphores may only lose members. */
  lemma SemsAfterLeave(sem: map<Handle, int>, ws: map<WaitList, seq<Tid>>, balance: map<Handle, int>, ws': map<WaitList, seq<Tid>>)
    requires SemsHold(sem, ws, balance)
    requires forall h :: ListOf(ws, SemWaiters(h)) == [] ==> ListOf(ws', SemWaiters(h)) == []
    ensures SemsHold(sem, ws', balance)
  {
  }

  lemma OwnersAfterLeave(owner: map<Handle, Option<Tid>>, ws: map<WaitList, seq<Tid>>, ws': map<WaitList, seq<Tid>>)
    requires OwnersHold(owner, ws)
    requires forall h, t {:trigger t in ListOf(ws', MutexWaiters(h))} :: t in ListOf(ws', MutexWaiters(h)) ==> t in ListOf(ws, MutexWaiters(h))
    ensures OwnersHold(owner, ws')
  {
    forall h | h in owner && ListOf(ws', MutexWaiters(h)) != [] ensures owner[h].Some? {
      assert ListOf(ws', MutexWaiters(h))[0] in ListOf(ws', MutexWaiters(h));
      assert ListOf(ws', MutexWaiters(h))[0] in ListOf(ws, MutexWaiters(h));
    }
  }

  lemma WinsAfter(owner: map<Handle, Option<Tid>>, phase: seq<Phase>, t: Tid, x: Phase)
    requires WinsHold(owner, phase) && t < |phase|
    requires forall h :: LockWon(x, h) ==> Holds(owner, h, t)
    ensures WinsHold(owner, phase[t := x])
  {
  }

  /** A result is delivered: the phase ends, and a lock answered with 0 is told to its task. */
  lemma DeliveryKeeps(owner: map<Handle, Option<Tid>>, phase: seq<Phase>, told: map<Handle, set<Tid>>, o: Obs)
    requires WinsHold(owner, phase) && ToldHold(owner, told)
    requires (o.Stored? || o.Returned?) && o.task < |phase| && Answers(phase[o.task], o.result)
    ensures PhaseAfter(phase, o) == phase[o.task := Quiet]
    ensures WinsHold(owner, PhaseAfter(phase, o)) && ToldHold(owner, ToldAfter(told, phase, o))
  {
    var ph := phase[o.task];
    if o.result == 0 && ph.Decided? && ph.call.MutexLock? {
      assert LockWon(ph, ph.call.mutex);
    }
  }
}
