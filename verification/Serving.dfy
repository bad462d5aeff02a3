/** Serving a call, by the worker or by a privileged task itself, keeps the invariant. */
module Serving {
  import opened Base
  import opened CoreState
  import opened Transitions
  import opened Ledgers
  import opened Places
  import opened Structure
  import opened StructureSteps
  import opened Books

  /** The invariant of the whole kernel, with the places as witness. */
  ghost predicate Inv(m: Machine, g: Ledger, p: seq<Place>) {
    Struct(m, g.phase, p) && BooksAgree(m.core, g)
  }

  lemma InvFrom(m: Machine, g: Ledger, p: seq<Place>)
    requires Struct(m, g.phase, p) && BooksAgree(m.core, g)
    ensures Inv(m, g, p)
  {
  }

  /** What serving a call needs to know of its caller. */
  lemma CallerFacts(m: Machine, g: Ledger, p: seq<Place>, actor: Tid, caller: Tid, call: Call)
    requires Inv(m, g, p) && Acting(m, actor, caller, call)
    ensures actor < |m.pc| && caller < |g.phase| == |m.pc| == |m.core.task| && Struct(m, g.phase, p) && BooksAgree(m.core, g)
    ensures g.phase[caller].Pending? && Attempts(call, g.phase[caller].call)
    ensures !IsAttempt(call) ==> g.phase[caller] == Pending(call)
    ensures InPool(m.core) && ListsExist(m.core)
  {
    StructShaped(m, g.phase, p);
    ActingPlaces(m, g.phase, p, actor, caller, call);
  }

  lemma PopCases(c: Core, l: WaitList)
    requires InPool(c)
    ensures var (c1, w) := PopWaiter(c, l);
      && c1 == c.(task := c1.task, waiters := c1.waiters)
      && if c.On(l) == [] then c1 == c && w == None else w == Some(c.On(l)[0])
  {
  }

  lemma GiveCases(c: Core, h: Handle)
    requires InPool(c) && h in c.sem
    ensures SemGive(c, h) == if c.On(SemWaiters(h)) == [] then (c.(sem := c.sem[h := c.sem[h] + 1]), None) else PopWaiter(c, SemWaiters(h))
  {
  }

  /** An attempt fails: the handle is invalid, or waiting is needed and not allowed. */
  lemma FailKeeps(m: Machine, g: Ledger, p: seq<Place>, actor: Tid, caller: Tid, call: Call) returns (p': seq<Place>)
    requires Inv(m, g, p) && Acting(m, actor, caller, call) && IsAttempt(call)
    ensures var out := Fail(m, actor, caller); Inv(out.m, Read(g, out.obs), p')
  {
    hide Struct, SemsHold, OwnersHold, WinsHold, ToldHold, QueuesHold, StoredHold;
    ActingPlaces(m, g.phase, p, actor, caller, call);
    var x := Decided(g.phase[caller].call, FAIL);
    p' := FinishKeeps(m, g.phase, p, actor, caller, call, FAIL, x, m.core);
    ReadOne(g, Refused(caller));
    WinsAfter(m.core.owner, g.phase, caller, x);
  }

  /** The books after a call other than an attempt or a creation was carried out. */
  lemma DoneKeeps(c: Core, g: Ledger, t: Tid, call: Call, r: nat)
    requires BooksAgree(c, g) && t < |g.phase| && g.phase[t] == Pending(call) && !IsAttempt(call)
    ensures Observe(g, Done(t, r)) == g.(phase := g.phase[t := Decided(call, r)])
    ensures BooksAgree(c, Observe(g, Done(t, r)))
  {
    hide SemsHold, OwnersHold, WinsHold, ToldHold, QueuesHold, StoredHold;
    WinsAfter(c.owner, g.phase, t, Decided(call, r));
  }

  /** A call whose result is known at once. */
  lemma PlainKeeps(m: Machine, g: Ledger, p: seq<Place>, actor: Tid, caller: Tid, call: Call, r: nat) returns (p': seq<Place>)
    requires Inv(m, g, p) && Acting(m, actor, caller, call) && !IsAttempt(call)
    ensures var out := Plain(m, actor, caller, r); Inv(out.m, Read(g, out.obs), p')
  {
    hide Struct, SemsHold, OwnersHold, WinsHold, ToldHold, QueuesHold, StoredHold;
    ActingPlaces(m, g.phase, p, actor, caller, call);
    p' := FinishKeeps(m, g.phase, p, actor, caller, call, r, Decided(call, r), m.core);
    DoneKeeps(m.core, g, caller, call, r);
    ReadOne(g, Done(caller, r));
  }

  // ---- Semaphores ----

  lemma SemTakeKeeps(m: Machine, g: Ledger, p: seq<Place>, actor: Tid, caller: Tid, call: Call) returns (p': seq<Place>)
    requires Inv(m, g, p) && Acting(m, actor, caller, call)
    requires call.SemWait? && call.sem in m.core.sem && m.core.sem[call.sem] > 0
    ensures var h := call.sem;
      var out := Settle(m, actor, caller, call, SemAcquire(m.core, h, caller, call.timeout, actor != m.worker), Took(caller, h));
      Inv(out.m, Read(g, out.obs), p')
  {
    hide Struct, OwnersHold, WinsHold, ToldHold, QueuesHold, StoredHold;
    var h := call.sem;
    ActingPlaces(m, g.phase, p, actor, caller, call);
    var x := Decided(g.phase[caller].call, 0);
    p' := FinishKeeps(m, g.phase, p, actor, caller, call, 0, x, m.core.(sem := m.core.sem[h := m.core.sem[h] - 1]));
    ReadOne(g, Took(caller, h));
    WinsAfter(m.core.owner, g.phase, caller, x);
  }

  lemma SemBlockKeeps(m: Machine, g: Ledger, p: seq<Place>, actor: Tid, caller: Tid, call: Call) returns (p': seq<Place>)
    requires Inv(m, g, p) && Acting(m, actor, caller, call)
    requires call.SemWait? && call.sem in m.core.sem && m.core.sem[call.sem] <= 0 && call.timeout != 0
    ensures var h := call.sem;
      var out := Settle(m, actor, caller, call, SemAcquire(m.core, h, caller, call.timeout, actor != m.worker), Took(caller, h));
      Inv(out.m, Read(g, out.obs), p')
  {
    hide Struct, OwnersHold, WinsHold, ToldHold, QueuesHold;
    ActingPlaces(m, g.phase, p, actor, caller, call);
    var l := SemWaiters(call.sem);
    p' := BlockKeeps(m, g.phase, p, actor, caller, call, l);
    var c' := Block(m.core, caller, l, call.timeout, actor != m.worker);
    OwnersAfterLeave(m.core.owner, m.core.waiters, c'.waiters);
  }

  lemma SemWaitKeeps(m: Machine, g: Ledger, p: seq<Place>, actor: Tid, caller: Tid, call: Call) returns (p': seq<Place>)
    requires Inv(m, g, p) && Acting(m, actor, caller, call) && call.SemWait? && Shaped(m)
    ensures var out := Serve(m, actor, caller, call, None); Inv(out.m, Read(g, out.obs), p')
  {
    hide Struct, BooksAgree, Inv, Read;
    if call.sem !in m.core.sem || (m.core.sem[call.sem] <= 0 && call.timeout == 0) {
      p' := FailKeeps(m, g, p, actor, caller, call);
    } else if m.core.sem[call.sem] > 0 {
      p' := SemTakeKeeps(m, g, p, actor, caller, call);
    } else {
      p' := SemBlockKeeps(m, g, p, actor, caller, call);
    }
  }

  // ---- Mutexes ----

  lemma MutexTakeKeeps(m: Machine, g: Ledger, p: seq<Place>, actor: Tid, caller: Tid, call: Call) returns (p': seq<Place>)
    requires Inv(m, g, p) && Acting(m, actor, caller, call)
    requires call.MutexLock? && call.mutex in m.core.owner && (m.core.owner[call.mutex] == None || m.core.owner[call.mutex] == Some(caller))
    ensures var h := call.mutex;
      var out := Settle(m, actor, caller, call, MutexAcquire(m.core, h, caller, call.timeout, actor != m.worker), Owned(caller, h));
      Inv(out.m, Read(g, out.obs), p')
  {
    hide Struct, SemsHold, ToldHold, QueuesHold, StoredHold;
    var h := call.mutex;
    ActingPlaces(m, g.phase, p, actor, caller, call);
    var x := Decided(g.phase[caller].call, 0);
    var owner := m.core.owner[h := Some(caller)];
    p' := FinishKeeps(m, g.phase, p, actor, caller, call, 0, x, m.core.(owner := owner));
    ReadOne(g, Owned(caller, h));
    assert m.core.owner[h] == Some(caller) ==> owner == m.core.owner;
    ToldAfterTake(m.core.owner, h, caller, g.told);
    WinsAfter(owner, g.phase, caller, x);
  }

  lemma ToldAfterTake(owner: map<Handle, Option<Tid>>, h: Handle, t: Tid, told: map<Handle, set<Tid>>)
    requires h in owner && (owner[h] == None || owner[h] == Some(t)) && ToldHold(owner, told)
    ensures ToldHold(owner[h := Some(t)], told)
  {
    var owner' := owner[h := Some(t)];
    forall k, u | u in At(told, k, {}) ensures Holds(owner', k, u) {
      assert Holds(owner, k, u);
    }
  }

  lemma MutexBlockKeeps(m: Machine, g: Ledger, p: seq<Place>, actor: Tid, caller: Tid, call: Call) returns (p': seq<Place>)
    requires Inv(m, g, p) && Acting(m, actor, caller, call)
    requires call.MutexLock? && call.mutex in m.core.owner && call.timeout != 0
    requires m.core.owner[call.mutex] != None && m.core.owner[call.mutex] != Some(caller)
    ensures var h := call.mutex;
      var out := Settle(m, actor, caller, call, MutexAcquire(m.core, h, caller, call.timeout, actor != m.worker), Owned(caller, h));
      Inv(out.m, Read(g, out.obs), p')
  {
    hide Struct, SemsHold, WinsHold, ToldHold, QueuesHold;
    ActingPlaces(m, g.phase, p, actor, caller, call);
    var l := MutexWaiters(call.mutex);
    p' := BlockKeeps(m, g.phase, p, actor, caller, call, l);
    var c' := Block(m.core, caller, l, call.timeout, actor != m.worker);
    SemsAfterLeave(m.core.sem, m.core.waiters, g.balance, c'.waiters);
  }

  lemma MutexLockKeeps(m: Machine, g: Ledger, p: seq<Place>, actor: Tid, caller: Tid, call: Call) returns (p': seq<Place>)
    requires Inv(m, g, p) && Acting(m, actor, caller, call) && call.MutexLock? && Shaped(m)
    ensures var out := Serve(m, actor, caller, call, None); Inv(out.m, Read(g, out.obs), p')
  {
    hide Struct, BooksAgree, Inv, Read;
    if call.mutex !in m.core.owner {
      p' := FailKeeps(m, g, p, actor, caller, call);
    } else if m.core.owner[call.mutex] == None || m.core.owner[call.mutex] == Some(caller) {
      p' := MutexTakeKeeps(m, g, p, actor, caller, call);
    } else if call.timeout == 0 {
      p' := FailKeeps(m, g, p, actor, caller, call);
    } else {
      p' := MutexBlockKeeps(m, g, p, actor, caller, call);
    }
  }

  // ---- Queues ----

  /** The queue contents after an item entered or left agree with the ledger. */
  lemma QueuesAfterPush(queue: map<Handle, Queue>, pushed: map<Handle, seq<Data>>, popped: map<Handle, seq<Data>>, q: Handle, data: Data)
    requires QueuesHold(queue, pushed, popped) && q in queue && |queue[q].items| < queue[q].capacity && |data| == queue[q].itemSize
    ensures QueuesHold(queue[q := Enqueued(queue[q], data)], pushed[q := At(pushed, q, []) + [data]], popped)
  {
  }

  lemma QueuesAfterPop(queue: map<Handle, Queue>, pushed: map<Handle, seq<Data>>, popped: map<Handle, seq<Data>>, q: Handle)
    requires QueuesHold(queue, pushed, popped) && q in queue && queue[q].items != []
    ensures QueuesHold(queue[q := Dequeued(queue[q])], pushed, popped[q := At(popped, q, []) + [queue[q].items[0]]])
  {
    var items := queue[q].items;
    assert At(popped, q, []) + items == (At(popped, q, []) + [items[0]]) + items[1..];
  }

  /** The books after the queue `q` got its new contents `q'` and lost a waiter on `l`, if there was one. */
  lemma BooksAfterQueue(c: Core, g: Ledger, call: Call, q: Handle, l: WaitList, q': Queue, o: Obs, t: Tid)
    requires BooksAgree(c, g) && InPool(c) && q in c.queue && (l == Senders(q) || l == Receivers(q))
    requires QueueObs(call, q, o, t) && t < |g.phase| && g.phase[t].Pending? && Attempts(call, g.phase[t].call)
    requires QueuesHold(c.queue[q := q'], Observe(g, o).pushed, Observe(g, o).popped)
    ensures var g' := Read(g, [o]);
      && g'.phase == g.phase[t := Decided(g.phase[t].call, 0)]
      && BooksAgree(PopWaiter(c, l).0.(queue := c.queue[q := q']), g')
  {
    hide SemsHold, OwnersHold, WinsHold, ToldHold, QueuesHold;
    var c1 := PopWaiter(c, l).0;
    assert c.On(l) != [] ==> c.On(l)[0] in c.waiters[l];
    ReadOne(g, o);
    WinsAfter(c.owner, g.phase, t, Decided(g.phase[t].call, 0));
    SemsAfterLeave(c.sem, c.waiters, g.balance, c1.waiters);
    OwnersAfterLeave(c.owner, c.waiters, c1.waiters);
  }

  /** The observation that goes with a successful queue call of `t`. */
  predicate QueueObs(call: Call, q: Handle, o: Obs, t: Tid) {
    || (call.QueueSend? && call.queue == q && o == Pushed(t, q, call.data))
    || (call.QueueRecv? && call.queue == q && o.Popped? && o.task == t && o.queue == q)
  }

  /** A queue call succeeds; a waiter of `l`, if there is one, is on its way to a new attempt. */
  lemma QueueGotKeeps(m: Machine, g: Ledger, p: seq<Place>, actor: Tid, caller: Tid, call: Call, q: Handle, l: WaitList, q': Queue, o: Obs)
    returns (p': seq<Place>)
    requires Inv(m, g, p) && Acting(m, actor, caller, call) && InPool(m.core)
    requires q in m.core.queue && (l == Senders(q) || l == Receivers(q)) && QueueObs(call, q, o, caller)
    requires QueuesHold(m.core.queue[q := q'], Observe(g, o).pushed, Observe(g, o).popped)
    ensures var (c1, w) := PopWaiter(m.core, l);
      Inv(m.(core := c1.(queue := m.core.queue[q := q']), pc := m.pc[actor := WakeFirst(w, Finish(m, actor, caller, 0))]), Read(g, [o]), p')
  {
    hide Inv, Struct, BooksAgree, Read, Observe, QueuesHold, Acting, InPool, SameTasks, Attempts, QueueObs, PopWaiter, ListOf;
    CallerFacts(m, g, p, actor, caller, call);
    BooksAfterQueue(m.core, g, call, q, l, q', o, caller);
    var x := Decided(g.phase[caller].call, 0);
    var (c1, popped) := PopWaiter(m.core, l);
    PopCases(m.core, l);
    QueueChanges(c1, q, q');
    if popped.None? {
      p' := FinishKeeps(m, g.phase, p, actor, caller, call, 0, x, c1.(queue := m.core.queue[q := q']));
    } else {
      var w;
      p', w := FinishPopKeeps(m, g.phase, p, actor, caller, call, 0, x, l, c1.(queue := m.core.queue[q := q']));
      assert g.phase[caller := x][w := PoppedPhase(g.phase[w], l)] == g.phase[caller := x];
    }
    InvFrom(m.(core := c1.(queue := m.core.queue[q := q']), pc := m.pc[actor := WakeFirst(popped, Finish(m, actor, caller, 0))]), Read(g, [o]), p');
  }

  lemma QueueBlockKeeps(m: Machine, g: Ledger, p: seq<Place>, actor: Tid, caller: Tid, call: Call, l: WaitList) returns (p': seq<Place>)
    requires Inv(m, g, p) && Acting(m, actor, caller, call) && actor != m.worker
    requires (call.QueueSend? && l == Senders(call.queue)) || (call.QueueRecv? && l == Receivers(call.queue))
    requires call.queue in m.core.queue && Timeout(call) != 0
    ensures Inv(m.(core := Block(m.core, caller, l, Timeout(call), true), pc := m.pc[actor := Resume(call)]), g, p')
  {
    hide Struct, SemsHold, OwnersHold, WinsHold, ToldHold, QueuesHold;
    ActingPlaces(m, g.phase, p, actor, caller, call);
    p' := BlockKeeps(m, g.phase, p, actor, caller, call, l);
    var c' := Block(m.core, caller, l, Timeout(call), true);
    SemsAfterLeave(m.core.sem, m.core.waiters, g.balance, c'.waiters);
    OwnersAfterLeave(m.core.owner, m.core.waiters, c'.waiters);
  }

  lemma QueuesNow(m: Machine, g: Ledger, p: seq<Place>)
    requires Inv(m, g, p)
    ensures QueuesHold(m.core.queue, g.pushed, g.popped)
  {
    hide Struct, SemsHold, OwnersHold, WinsHold, ToldHold, QueuesHold;
  }

  lemma PoolNow(m: Machine)
    requires Shaped(m)
    ensures InPool(m.core) && |m.pc| == |m.core.task|
  {
  }

  lemma PushKeeps(m: Machine, g: Ledger, p: seq<Place>, actor: Tid, caller: Tid, call: Call, timeout: nat) returns (p': seq<Place>)
    requires Inv(m, g, p) && Acting(m, actor, caller, call) && Shaped(m)
    requires call.QueueSend? && call.queue in m.core.queue && |m.core.queue[call.queue].items| < m.core.queue[call.queue].capacity
    requires |call.data| == m.core.queue[call.queue].itemSize
    ensures var q := call.queue;
      var out := Settle(m, actor, caller, call, SendAttempt(m.core, q, call.data, caller, timeout, actor != m.worker), Pushed(caller, q, call.data));
      Inv(out.m, Read(g, out.obs), p')
  {
    hide Struct, BooksAgree, Inv, Read, QueuesHold;
    var q, data := call.queue, call.data;
    QueuesNow(m, g, p);
    QueuesAfterPush(m.core.queue, g.pushed, g.popped, q, data);
    p' := QueueGotKeeps(m, g, p, actor, caller, call, q, Receivers(q),
                        Enqueued(m.core.queue[q], data), Pushed(caller, q, data));
  }

  lemma PopKeeps(m: Machine, g: Ledger, p: seq<Place>, actor: Tid, caller: Tid, call: Call, timeout: nat) returns (p': seq<Place>)
    requires Inv(m, g, p) && Acting(m, actor, caller, call) && Shaped(m)
    requires call.QueueRecv? && call.queue in m.core.queue && m.core.queue[call.queue].items != []
    ensures var q := call.queue;
      var out := Settle(m, actor, caller, call, ReceiveAttempt(m.core, q, caller, timeout, actor != m.worker), Popped(caller, q, m.core.queue[q].items[0]));
      Inv(out.m, Read(g, out.obs), p')
  {
    hide Struct, BooksAgree, Inv, Read, QueuesHold;
    var q := call.queue;
    QueuesNow(m, g, p);
    QueuesAfterPop(m.core.queue, g.pushed, g.popped, q);
    p' := QueueGotKeeps(m, g, p, actor, caller, call, q, Senders(q),
                        Dequeued(m.core.queue[q]), Popped(caller, q, m.core.queue[q].items[0]));
  }

  lemma QueueSendKeeps(m: Machine, g: Ledger, p: seq<Place>, actor: Tid, caller: Tid, call: Call) returns (p': seq<Place>)
    requires Inv(m, g, p) && Acting(m, actor, caller, call) && call.QueueSend? && Shaped(m)
    requires call.queue in m.core.queue ==> |call.data| == m.core.queue[call.queue].itemSize
    ensures var out := Serve(m, actor, caller, call, None); Inv(out.m, Read(g, out.obs), p')
  {
    ReadNone(g);
    hide Struct, BooksAgree, Inv, Read;
    var q := call.queue;
    if q !in m.core.queue {
      p' := FailKeeps(m, g, p, actor, caller, call);
    } else if |m.core.queue[q].items| < m.core.queue[q].capacity {
      p' := PushKeeps(m, g, p, actor, caller, call, if actor != m.worker then call.timeout else 0);
    } else if actor == m.worker || call.timeout == 0 {
      p' := FailKeeps(m, g, p, actor, caller, call);
    } else {
      p' := QueueBlockKeeps(m, g, p, actor, caller, call, Senders(q));
    }
  }

  lemma QueueRecvKeeps(m: Machine, g: Ledger, p: seq<Place>, actor: Tid, caller: Tid, call: Call) returns (p': seq<Place>)
    requires Inv(m, g, p) && Acting(m, actor, caller, call) && call.QueueRecv? && Shaped(m)
    ensures var out := Serve(m, actor, caller, call, None); Inv(out.m, Read(g, out.obs), p')
  {
    ReadNone(g);
    hide Struct, BooksAgree, Inv, Read;
    var q := call.queue;
    if q !in m.core.queue {
      p' := FailKeeps(m, g, p, actor, caller, call);
    } else if m.core.queue[q].items != [] {
      p' := PopKeeps(m, g, p, actor, caller, call, if actor != m.worker then call.timeout else 0);
    } else if actor == m.worker || call.timeout == 0 {
      p' := FailKeeps(m, g, p, actor, caller, call);
    } else {
      p' := QueueBlockKeeps(m, g, p, actor, caller, call, Receivers(q));
    }
  }

  // ---- Give and unlock ----

  lemma SemsAfterGive(sem: map<Handle, int>, ws: map<WaitList, seq<Tid>>, balance: map<Handle, int>, h: Handle)
    requires SemsHold(sem, ws, balance) && h in sem && ListOf(ws, SemWaiters(h)) == []
    ensures SemsHold(sem[h := sem[h] + 1], ws, balance[h := At(balance, h, 0) + 1])
  {
  }

  lemma SemsAfterHandOver(sem: map<Handle, int>, ws: map<WaitList, seq<Tid>>, balance: map<Handle, int>, h: Handle)
    requires SemsHold(sem, ws, balance) && h in sem && ListOf(ws, SemWaiters(h)) != []
    ensures var up := balance[h := At(balance, h, 0) + 1];
      SemsHold(sem, ws[SemWaiters(h) := ListOf(ws, SemWaiters(h))[1..]], up[h := At(up, h, 0) - 1])
  {
  }

  lemma BooksAfterHandOver(c: Core, g: Ledger, h: Handle)
    requires BooksAgree(c, g) && InPool(c) && h in c.sem && c.On(SemWaiters(h)) != []
    requires var w := c.On(SemWaiters(h))[0]; w < |g.phase| && g.phase[w].Pending? && WaitsOn(g.phase[w].call, SemWaiters(h))
    ensures var (l, w) := (SemWaiters(h), c.On(SemWaiters(h))[0]);
      var g' := Read(g, [Gave(h), Took(w, h)]);
      g'.phase == g.phase[w := PoppedPhase(g.phase[w], l)] && BooksAgree(PopWaiter(c, l).0, g')
  {
    hide SemsHold, OwnersHold, WinsHold, ToldHold, QueuesHold, Read, PoppedPhase, WaitsOn;
    var l, w, c' := SemWaiters(h), c.On(SemWaiters(h))[0], PopWaiter(c, SemWaiters(h)).0;
    assert w in c.waiters[l];
    HandOverRead(g, h, w);
    SemsAfterHandOver(c.sem, c.waiters, g.balance, h);
    OwnersAfterLeave(c.owner, c.waiters, c'.waiters);
    WinsAfter(c.owner, g.phase, w, PoppedPhase(g.phase[w], l));
  }

  /** What the ledger reads from a transferred unit. */
  lemma HandOverRead(g: Ledger, h: Handle, w: Tid)
    requires w < |g.phase| && g.phase[w].Pending? && WaitsOn(g.phase[w].call, SemWaiters(h))
    ensures var up := g.balance[h := At(g.balance, h, 0) + 1];
      Read(g, [Gave(h), Took(w, h)])
        == g.(phase := g.phase[w := PoppedPhase(g.phase[w], SemWaiters(h))], balance := up[h := At(up, h, 0) - 1])
    ensures forall k :: !LockWon(PoppedPhase(g.phase[w], SemWaiters(h)), k)
  {
    ReadTwo(g, Gave(h), Took(w, h));
  }

  lemma BooksAfterGive(c: Core, g: Ledger, h: Handle)
    requires BooksAgree(c, g) && h in c.sem && c.On(SemWaiters(h)) == []
    ensures var g' := Read(g, [Gave(h)]);
      g'.phase == g.phase && BooksAgree(c.(sem := c.sem[h := c.sem[h] + 1]), g')
  {
    hide SemsHold, OwnersHold, WinsHold, ToldHold, QueuesHold;
    ReadOne(g, Gave(h));
    SemsAfterGive(c.sem, c.waiters, g.balance, h);
  }

  /** Nobody waits: the unit is counted. */
  lemma GiveKeeps(m: Machine, g: Ledger, p: seq<Place>, actor: Tid, caller: Tid, call: Call) returns (p': seq<Place>)
    requires Inv(m, g, p) && Acting(m, actor, caller, call) && Shaped(m)
    requires call.SemPost? && call.sem in m.core.sem && m.core.On(SemWaiters(call.sem)) == []
    ensures var out := ServePost(m, actor, caller, call.sem); Inv(out.m, Read(g, out.obs), p')
  {
    hide Inv, Struct, BooksAgree, Read, Observe, Acting, Shaped, InPool, SameTasks, SemGive;
    CallerFacts(m, g, p, actor, caller, call);
    var h := call.sem;
    var c' := m.core.(sem := m.core.sem[h := m.core.sem[h] + 1]);
    GiveCases(m.core, h);
    CountChanges(m.core, h, m.core.sem[h] + 1);
    p' := FinishKeeps(m, g.phase, p, actor, caller, call, 0, Decided(call, 0), c');
    DoneKeeps(m.core, g, caller, call, 0);
    ReadCons(g, Done(caller, 0), [Gave(h)]);
    BooksAfterGive(m.core, Observe(g, Done(caller, 0)), h);
    InvFrom(m.(core := c', pc := m.pc[actor := Finish(m, actor, caller, 0)]), Read(g, [Done(caller, 0)] + [Gave(h)]), p');
  }

  /** A unit goes straight to the first waiter. */
  lemma HandOverKeeps(m: Machine, g: Ledger, p: seq<Place>, actor: Tid, caller: Tid, call: Call) returns (p': seq<Place>)
    requires Inv(m, g, p) && Acting(m, actor, caller, call) && Shaped(m)
    requires call.SemPost? && call.sem in m.core.sem && m.core.On(SemWaiters(call.sem)) != []
    ensures var out := ServePost(m, actor, caller, call.sem); Inv(out.m, Read(g, out.obs), p')
  {
    hide Inv, Struct, BooksAgree, Read, Observe, Acting, Shaped, InPool, PopWaiter, SemGive;
    CallerFacts(m, g, p, actor, caller, call);
    var l := SemWaiters(call.sem);
    GiveCases(m.core, call.sem);
    PopCases(m.core, l);
    var w;
    p', w := FinishPopKeeps(m, g.phase, p, actor, caller, call, 0, Decided(call, 0), l, PopWaiter(m.core, l).0);
    DoneKeeps(m.core, g, caller, call, 0);
    ReadCons(g, Done(caller, 0), [Gave(call.sem), Took(w, call.sem)]);
    BooksAfterHandOver(m.core, Observe(g, Done(caller, 0)), call.sem);
    InvFrom(m.(core := PopWaiter(m.core, l).0, pc := m.pc[actor := Wake(w, Finish(m, actor, caller, 0))]),
            Read(g, [Done(caller, 0)] + [Gave(call.sem), Took(w, call.sem)]), p');
  }

  /** Ownership of `h` goes from `t`, which is in the middle of a call, to `w`, the first waiter, or to nobody. */
  lemma OwnersAfterUnlock(owner: map<Handle, Option<Tid>>, ws: map<WaitList, seq<Tid>>, phase: seq<Phase>, told: map<Handle, set<Tid>>, h: Handle, t: Tid)
    requires OwnersHold(owner, ws) && WinsHold(owner, phase) && ToldHold(owner, told)
    requires Holds(owner, h, t) && t < |phase| && forall k :: !LockWon(phase[t], k)
    requires NoDuplicates(ListOf(ws, MutexWaiters(h)))
    ensures var s := ListOf(ws, MutexWaiters(h));
      var owner' := owner[h := if s == [] then None else Some(s[0])];
      && OwnersHold(owner', if s == [] then ws else ws[MutexWaiters(h) := s[1..]])
      && WinsHold(owner', phase)
      && ToldHold(owner', told[h := At(told, h, {}) - {t}])
  {
    var s := ListOf(ws, MutexWaiters(h));
    var owner' := owner[h := if s == [] then None else Some(s[0])];
    var told' := told[h := At(told, h, {}) - {t}];
    forall k, u | u in At(told', k, {}) ensures Holds(owner', k, u) {
      assert u in At(told, k, {});
      assert Holds(owner, k, u);
    }
  }

  /** The books when ownership passes to the first waiter, or to nobody. */
  lemma BooksAfterUnlock(c: Core, g: Ledger, h: Handle, t: Tid)
    requires BooksAgree(c, g) && InPool(c) && Holds(c.owner, h, t) && NoDuplicates(c.On(MutexWaiters(h)))
    requires t < |g.phase| && forall k :: !LockWon(g.phase[t], k)
    requires c.On(MutexWaiters(h)) != [] ==>
      var w := c.On(MutexWaiters(h))[0]; w < |g.phase| && g.phase[w].Pending? && WaitsOn(g.phase[w].call, MutexWaiters(h))
    ensures var l := MutexWaiters(h);
      var (c', w) := MutexRelease(c, h, t);
      if w.None? then
        var g' := Read(g, [Unlocked(t, h)]);
        g'.phase == g.phase && BooksAgree(c', g')
      else
        var g' := Read(g, [Unlocked(t, h), Owned(w.value, h)]);
        w.value < |g.phase| && g'.phase == g.phase[w.value := PoppedPhase(g.phase[w.value], l)] && BooksAgree(c', g')
  {
    hide SemsHold, OwnersHold, WinsHold, ToldHold, QueuesHold, NoDuplicates, Read;
    var l := MutexWaiters(h);
    var (c', w) := MutexRelease(c, h, t);
    OwnersAfterUnlock(c.owner, c.waiters, g.phase, g.told, h, t);
    SemsAfterLeave(c.sem, c.waiters, g.balance, c'.waiters);
    if w.None? {
      ReadOne(g, Unlocked(t, h));
    } else {
      assert w.value in c.waiters[l];
      ReadTwo(g, Unlocked(t, h), Owned(w.value, h));
      WinsAfter(c'.owner, g.phase, w.value, PoppedPhase(g.phase[w.value], l));
    }
  }

  lemma ListOnce(m: Machine, ph: seq<Phase>, p: seq<Place>, l: WaitList)
    requires Struct(m, ph, p)
    ensures NoDuplicates(m.core.On(l))
  {
  }

  lemma UnlockKeeps(m: Machine, g: Ledger, p: seq<Place>, actor: Tid, caller: Tid, call: Call) returns (p': seq<Place>)
    requires Inv(m, g, p) && Acting(m, actor, caller, call) && Shaped(m)
    requires call.MutexUnlock? && Holds(m.core.owner, call.mutex, caller)
    ensures var out := ServeUnlock(m, actor, caller, call.mutex); Inv(out.m, Read(g, out.obs), p')
  {
    hide Struct, BooksAgree, Read, Observe, Acting, Shaped, InPool, NoDuplicates, SameTasks;
    CallerFacts(m, g, p, actor, caller, call);
    PoolNow(m);
    var h, l := call.mutex, MutexWaiters(call.mutex);
    ListOnce(m, g.phase, p, l);
    if m.core.On(l) == [] {
      OwnerChanges(m.core, h, None);
      p' := FinishKeeps(m, g.phase, p, actor, caller, call, 0, Decided(call, 0), m.core.(owner := m.core.owner[h := None]));
    } else {
      var c1, o := PopWaiter(m.core, l).0, Some(m.core.On(l)[0]);
      OwnerChanges(c1, h, o);
      var w;
      p', w := FinishPopKeeps(m, g.phase, p, actor, caller, call, 0, Decided(call, 0), l, c1.(owner := c1.owner[h := o]));
    }
    DoneKeeps(m.core, g, caller, call, 0);
    var rest := ServeUnlock(m, actor, caller, h).obs[1..];
    assert ServeUnlock(m, actor, caller, h).obs == [Done(caller, 0)] + rest;
    ReadCons(g, Done(caller, 0), rest);
    BooksAfterUnlock(m.core, Observe(g, Done(caller, 0)), h, caller);
  }

  lemma MutexUnlockKeeps(m: Machine, g: Ledger, p: seq<Place>, actor: Tid, caller: Tid, call: Call) returns (p': seq<Place>)
    requires Inv(m, g, p) && Acting(m, actor, caller, call) && Shaped(m)
    requires call.MutexUnlock? && call.mutex in m.core.owner
    ensures var out := ServeUnlock(m, actor, caller, call.mutex); Inv(out.m, Read(g, out.obs), p')
  {
    hide Struct, BooksAgree, Inv, Read;
    if m.core.owner[call.mutex] == Some(caller) {
      p' := UnlockKeeps(m, g, p, actor, caller, call);
    } else {
      assert ServeUnlock(m, actor, caller, call.mutex) == Plain(m, actor, caller, 0);
      p' := PlainKeeps(m, g, p, actor, caller, call, 0);
    }
  }

  // ---- Creation and delay ----

  lemma FreshSem(sem: map<Handle, int>, ws: map<WaitList, seq<Tid>>, balance: map<Handle, int>, h: Handle, n: nat)
    requires SemsHold(sem, ws, balance) && ListOf(ws, SemWaiters(h)) == []
    ensures SemsHold(sem[h := n], ws, balance[h := n])
  {
  }

  lemma FreshMutex(owner: map<Handle, Option<Tid>>, ws: map<WaitList, seq<Tid>>, phase: seq<Phase>, told: map<Handle, set<Tid>>, h: Handle)
    requires OwnersHold(owner, ws) && WinsHold(owner, phase) && ToldHold(owner, told)
    requires h !in owner && ListOf(ws, MutexWaiters(h)) == []
    ensures OwnersHold(owner[h := None], ws) && WinsHold(owner[h := None], phase) && ToldHold(owner[h := None], told)
  {
    forall k, t | t in At(told, k, {}) ensures Holds(owner[h := None], k, t) {
      assert Holds(owner, k, t);
    }
    forall t, k | 0 <= t < |phase| && LockWon(phase[t], k) ensures Holds(owner[h := None], k, t) {
      assert Holds(owner, k, t);
    }
  }

  lemma FreshQueue(queue: map<Handle, Queue>, pushed: map<Handle, seq<Data>>, popped: map<Handle, seq<Data>>, h: Handle, q: Queue)
    requires QueuesHold(queue, pushed, popped) && h !in queue && QueueOk(q) && q.items == []
    ensures QueuesHold(queue[h := q], pushed, popped)
  {
  }

  lemma FreshLists(c: Core, h: Handle)
    requires ListsExist(c) && FreshHandle(c, h)
    ensures c.On(SemWaiters(h)) == [] && c.On(MutexWaiters(h)) == []
  {
  }

  lemma MadeMeans(g: Ledger, t: Tid, call: Call, h: Handle)
    requires t < |g.phase| && g.phase[t] == Pending(call) && IsCreation(call)
    ensures Observe(g, Made(t, call, h)) ==
      g.(phase := g.phase[t := Decided(call, h)],
         balance := if call.SemCreate? then g.balance[h := if call.initial >= 0 then call.initial else 0] else g.balance)
  {
  }

  lemma CreateSame(c: Core, call: Call, h: Handle)
    ensures SameTasks(c, Create(c, call, h))
  {
  }

  /** A fresh object has no waiters and no history. */
  lemma FreshKeeps(c: Core, g: Ledger, t: Tid, call: Call, h: Handle)
    requires BooksAgree(c, g) && ListsExist(c) && FreshHandle(c, h) && IsCreation(call)
    requires t < |g.phase| && g.phase[t] == Pending(call)
    requires call.QueueCreate? ==> Buildable(call.itemSize, call.capacity)
    ensures BooksAgree(Create(c, call, h), Observe(g, Made(t, call, h))) && SameTasks(c, Create(c, call, h))
    ensures Observe(g, Made(t, call, h)).phase == g.phase[t := Decided(call, h)]
  {
    hide Buildable, ListsExist, SemsHold, OwnersHold, WinsHold, ToldHold, QueuesHold, StoredHold, Observe, SameTasks;
    FreshLists(c, h);
    MadeMeans(g, t, call, h);
    CreateSame(c, call, h);
    WinsAfter(c.owner, g.phase, t, Decided(call, h));
    match call {
      case SemCreate(n) => FreshSem(c.sem, c.waiters, g.balance, h, if n >= 0 then n else 0);
      case MutexCreate => FreshMutex(c.owner, c.waiters, g.phase[t := Decided(call, h)], g.told, h);
      case QueueCreate(n, k) => FreshQueue(c.queue, g.pushed, g.popped, h, Queue(n, k, []));
    }
  }

  lemma CreateKeeps(m: Machine, g: Ledger, p: seq<Place>, actor: Tid, caller: Tid, call: Call, made: Option<Handle>) returns (p': seq<Place>)
    requires Inv(m, g, p) && Acting(m, actor, caller, call) && IsCreation(call)
    requires Allowed(m.core, call, made)
    ensures var out := ServeCreate(m, actor, caller, call, made); Inv(out.m, Read(g, out.obs), p')
  {
    hide Inv, Struct, BooksAgree, Create, FreshHandle, Read, Observe, ListsExist, InPool, Acting, SameTasks;
    if made.None? {
      p' := PlainKeeps(m, g, p, actor, caller, call, FAIL);
    } else {
      var h := made.value;
      CallerFacts(m, g, p, actor, caller, call);
      FreshKeeps(m.core, g, caller, call, h);
      ReadOne(g, Made(caller, call, h));
      var c' := Create(m.core, call, h);
      p' := FinishKeeps(m, g.phase, p, actor, caller, call, h, Decided(call, h), c');
      InvFrom(m.(core := c', pc := m.pc[actor := Finish(m, actor, caller, h)]), Observe(g, Made(caller, call, h)), p');
    }
  }

  lemma DelayKeeps(m: Machine, g: Ledger, p: seq<Place>, actor: Tid, caller: Tid, call: Call) returns (p': seq<Place>)
    requires Inv(m, g, p) && Acting(m, actor, caller, call) && call.Delay?
    ensures var out := ServeDelay(m, actor, caller, call.ticks); Inv(out.m, Read(g, out.obs), p')
  {
    hide Struct, SemsHold, OwnersHold, WinsHold, ToldHold, QueuesHold, Read;
    var n := call.ticks;
    ActingPlaces(m, g.phase, p, actor, caller, call);
    DoneKeeps(m.core, g, caller, call, 0);
    var g1 := Observe(g, Done(caller, 0));
    if actor == m.worker {
      ServedHere(m, g.phase, p, caller);
      var k := m.core.task[caller].(savedR0 := 0, svcBlocked := false);
      var pl := AtWorker(Sleep(caller, n));
      StageKeeps(m, g.phase, p, caller, k, Sleep(caller, n), Quiet, pl);
      p' := p[caller := pl];
      ReadTwo(g, Done(caller, 0), Stored(caller, 0));
      DeliveryKeeps(m.core.owner, g1.phase, g1.told, Stored(caller, 0));
      assert g1.phase[caller := Quiet] == g.phase[caller := Quiet];
    } else if n == 0 {
      p' := PlainKeeps(m, g, p, actor, caller, call, 0);
    } else {
      ReadOne(g, Done(caller, 0));
      SelfSleepKeeps(m, g.phase, p, caller, n);
      p' := p[caller := Sleeping];
    }
  }

  /** The task whose call the worker serves. */
  lemma ServedHere(m: Machine, ph: seq<Phase>, p: seq<Place>, t: Tid)
    requires Struct(m, ph, p) && Subject(m.pc[m.worker]) == Some(t)
    ensures t < |p| && t != m.worker && p[t] == AtWorker(m.pc[m.worker])
    ensures TaskHolds(m.core.task[t], m.pc[t], p[t], ph[t]) && m.pc[t] == User && m.core.task[t].state == Waiting
  {
    assert TaskHolds(m.core.task[t], m.pc[t], p[t], ph[t]);
  }

  /** Whatever call is served, the invariant is kept. */
  lemma ServeKeeps(m: Machine, g: Ledger, p: seq<Place>, actor: Tid, caller: Tid, call: Call, made: Option<Handle>) returns (p': seq<Place>)
    requires Inv(m, g, p) && Acting(m, actor, caller, call) && Shaped(m)
    requires Allowed(m.core, call, made)
    ensures var out := Serve(m, actor, caller, call, made); Inv(out.m, Read(g, out.obs), p')
  {
    hide Struct, BooksAgree, Inv, Read, Acting, FreshHandle, ServePost, ServeUnlock, ServeCreate, ServeDelay, Plain;
    var self := actor != m.worker;
    match call {
      case Delay(_) => p' := DelayKeeps(m, g, p, actor, caller, call);
      case QueueSend(_, _, _) => p' := QueueSendKeeps(m, g, p, actor, caller, call);
      case QueueRecv(_, _) => p' := QueueRecvKeeps(m, g, p, actor, caller, call);
      case SemWait(_, _) => p' := SemWaitKeeps(m, g, p, actor, caller, call);
      case MutexLock(_, _) => p' := MutexLockKeeps(m, g, p, actor, caller, call);
      case SemPost(h) =>
        if h in m.core.sem && m.core.On(SemWaiters(h)) == [] {
          p' := GiveKeeps(m, g, p, actor, caller, call);
        } else if h in m.core.sem {
          p' := HandOverKeeps(m, g, p, actor, caller, call);
        } else {
          p' := PlainKeeps(m, g, p, actor, caller, call, if self then 0 else FAIL);
        }
      case MutexUnlock(h) =>
        if h in m.core.owner {
          p' := MutexUnlockKeeps(m, g, p, actor, caller, call);
        } else {
          p' := PlainKeeps(m, g, p, actor, caller, call, if self then 0 else FAIL);
        }
      case UartWrite => p' := PlainKeeps(m, g, p, actor, caller, call, 0);
      case Unknown => p' := PlainKeeps(m, g, p, actor, caller, call, FAIL);
      case _ => p' := CreateKeeps(m, g, p, actor, caller, call, made);
    }
  }
}
