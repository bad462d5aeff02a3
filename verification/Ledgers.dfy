/** What an observer concludes from the observations of a run alone. */
module Ledgers {
  import opened Base
  import opened CoreState
  import opened Transitions

  /** The protocol of one task's calls: issued, decided, answered. `Broken` is reached by a second answer, an answer
    * without a decision or different from it, a unit, ownership or object nobody asked for, or a call inside a call. */
  datatype Phase = Quiet | Pending(call: Call) | Decided(call: Call, result: nat) | Broken

  function Timeout(call: Call): nat {
    match call
    case SemWait(_, n) => n
    case MutexLock(_, n) => n
    case QueueSend(_, _, n) => n
    case QueueRecv(_, n) => n
    case _ => 0
  }

  predicate IsTimed(call: Call) {
    Timeout(call) != 0 && Timeout(call) != 0xFFFF_FFFF
  }

  /** Calls whose result is decided by an acquisition, a transfer, a refusal or a time-out. */
  predicate IsAttempt(call: Call) {
    call.SemWait? || call.MutexLock? || call.QueueSend? || call.QueueRecv?
  }

  predicate IsCreation(call: Call) {
    call.SemCreate? || call.MutexCreate? || call.QueueCreate?
  }

  /** The result `r` may be delivered in this phase. */
  predicate Answers(ph: Phase, r: nat) {
    ph.Decided? && ph.result == r
  }

  function Decide(ph: Phase, asked: bool, result: nat): Phase
    requires asked ==> ph.Pending?
  {
    if asked then Decided(ph.call, result) else Broken
  }

  function NextPhase(ph: Phase, o: Obs): Phase {
    match o
    case Issued(_, call) => if ph == Quiet then Pending(call) else Broken
    case Took(_, h) => Decide(ph, ph.Pending? && ph.call.SemWait? && ph.call.sem == h, 0)
    case Owned(_, h) => Decide(ph, ph.Pending? && ph.call.MutexLock? && ph.call.mutex == h, 0)
    case Pushed(_, q, data) => Decide(ph, ph.Pending? && ph.call.QueueSend? && ph.call.queue == q && ph.call.data == data, 0)
    case Popped(_, q, _) => Decide(ph, ph.Pending? && ph.call.QueueRecv? && ph.call.queue == q, 0)
    case Refused(_) => Decide(ph, ph.Pending? && IsAttempt(ph.call), FAIL)
    case Expired(_) => Decide(ph, ph.Pending? && IsTimed(ph.call), FAIL)
    case Made(_, call, h) => Decide(ph, ph == Pending(call) && IsCreation(call), h)
    case Done(_, r) => Decide(ph, ph.Pending? && !IsAttempt(ph.call), r)
    case Stored(_, r) => if Answers(ph, r) then Quiet else Broken
    case Returned(_, r) => if Answers(ph, r) then Quiet else Broken
    case _ => ph
  }

  function About(o: Obs): Option<Tid> {
    match o
    case Issued(t, _) => Some(t)
    case Took(t, _) => Some(t)
    case Owned(t, _) => Some(t)
    case Pushed(t, _, _) => Some(t)
    case Popped(t, _, _) => Some(t)
    case Refused(t) => Some(t)
    case Expired(t) => Some(t)
    case Made(t, _, _) => Some(t)
    case Done(t, _) => Some(t)
    case Stored(t, _) => Some(t)
    case Returned(t, _) => Some(t)
    case _ => None
  }

  function At<K, V>(m: map<K, V>, k: K, default: V): V {
    if k in m then m[k] else default
  }

  /** - `balance`: initial count + gives - takes of each semaphore;
    * - `told`: for each mutex the tasks told that they hold it and that have not unlocked since;
    * - `pushed`, `popped`: the items that entered and left each queue;
    * - `posted`, `fetched`: the work items that entered and left the ring;
    * - `stored`: the last result stored into each task's saved R0. */
  datatype Ledger = Ledger(
    phase: seq<Phase>,
    balance: map<Handle, int>,
    told: map<Handle, set<Tid>>,
    pushed: map<Handle, seq<Data>>,
    popped: map<Handle, seq<Data>>,
    posted: seq<Item>,
    fetched: seq<Item>,
    stored: seq<nat>)

  /** The ledger before the first step. */
  function Blank(task: seq<Task>): Ledger {
    Ledger(seq(|task|, _ => Quiet), map[], map[], map[], map[], [], [],
           seq(|task|, t requires 0 <= t < |task| => task[t].savedR0))
  }

  function PhaseAfter(phase: seq<Phase>, o: Obs): (r: seq<Phase>)
    ensures |r| == |phase|
  {
    match About(o)
    case Some(t) => if t < |phase| then phase[t := NextPhase(phase[t], o)] else phase
    case None => phase
  }

  function BalanceAfter(balance: map<Handle, int>, o: Obs): map<Handle, int> {
    match o
    case Took(_, h) => balance[h := At(balance, h, 0) - 1]
    case Gave(h) => balance[h := At(balance, h, 0) + 1]
    case Made(_, SemCreate(n), h) => balance[h := if n >= 0 then n else 0]
    case _ => balance
  }

  /** A lock that is answered with 0 tells its task that it holds the mutex. */
  function ToldAfter(told: map<Handle, set<Tid>>, phase: seq<Phase>, o: Obs): map<Handle, set<Tid>> {
    match o
    case Stored(t, 0) => TellAfter(told, phase, t)
    case Returned(t, 0) => TellAfter(told, phase, t)
    case Unlocked(t, h) => told[h := At(told, h, {}) - {t}]
    case _ => told
  }

  function TellAfter(told: map<Handle, set<Tid>>, phase: seq<Phase>, t: Tid): map<Handle, set<Tid>> {
    if t < |phase| && phase[t].Decided? && phase[t].call.MutexLock? then
      var h := phase[t].call.mutex;
      told[h := At(told, h, {}) + {t}]
    else told
  }

  function Observe(g: Ledger, o: Obs): Ledger {
    Ledger(
      PhaseAfter(g.phase, o),
      BalanceAfter(g.balance, o),
      ToldAfter(g.told, g.phase, o),
      match o { case Pushed(_, q, data) => g.pushed[q := At(g.pushed, q, []) + [data]] case _ => g.pushed },
      match o { case Popped(_, q, data) => g.popped[q := At(g.popped, q, []) + [data]] case _ => g.popped },
      match o { case Posted(item) => g.posted + [item] case _ => g.posted },
      match o { case Fetched(item) => g.fetched + [item] case _ => g.fetched },
      match o { case Stored(t, r) => if t < |g.stored| then g.stored[t := r] else g.stored case _ => g.stored })
  }

  function Read(g: Ledger, obs: seq<Obs>): Ledger
    decreases |obs|
  {
    if obs == [] then g else Read(Observe(g, obs[0]), obs[1..])
  }

  lemma {:induction false} ReadAppend(g: Ledger, a: seq<Obs>, b: seq<Obs>)
    ensures Read(g, a + b) == Read(Read(g, a), b)
    decreases |a|
  {
    if a == [] {
      assert a + b == b;
    } else {
      assert (a + b)[0] == a[0] && (a + b)[1..] == a[1..] + b;
      ReadAppend(Observe(g, a[0]), a[1..], b);
    }
  }

  lemma ReadNone(g: Ledger)
    ensures Read(g, []) == g
  {
  }

  lemma ReadOne(g: Ledger, o: Obs)
    ensures Read(g, [o]) == Observe(g, o)
  {
    assert [o][1..] == [];
  }

  lemma ReadCons(g: Ledger, o: Obs, rest: seq<Obs>)
    ensures Read(g, [o] + rest) == Read(Observe(g, o), rest)
  {
    assert ([o] + rest)[1..] == rest;
  }

  lemma ReadTwo(g: Ledger, o: Obs, o': Obs)
    ensures Read(g, [o, o']) == Observe(Observe(g, o), o')
  {
    assert [o, o'][1..] == [o'];
    ReadOne(Observe(g, o), o');
  }
}
