/** The kernel's pointer structures as values, the sequences they represent, and how each pointer operation
  * changes what is represented. */
module KernelLinks {
  import opened Base
  import opened Selection
  import opened CoreState
  import opened Chains
  import opened Sweep
  import Rings

  // ---- What the pointers represent ----

  /** The priority lists and their cursors; the mask has a bit for every list that is not empty. */
  ghost predicate ListsOk(task: seq<Task>, next: Links, taskList: seq<Option<Tid>>, rrCurrent: seq<Option<Tid>>, order: seq<seq<Tid>>, mask: set<nat>) {
    && |next| == |task|
    && |taskList| == |rrCurrent| == |order| == MAX_TASK_PRIORITIES
    && (forall p :: 0 <= p < |order| ==> Chain(next, taskList[p], order[p]) && NoDuplicates(order[p]))
    && (forall p, t {:trigger t in order[p]} :: 0 <= p < |order| && t in order[p] ==> t < |task| && task[t].prio == p)
    && CursorsInLists(order, rrCurrent)
    && (forall p :: 0 <= p < |order| ==> (p in mask <==> order[p] != []))
  }

  /** The wait lists; a member that is marked with a list is on that list. */
  ghost predicate WaitsOk(task: seq<Task>, waitNext: Links, waitList: map<WaitList, Option<Tid>>, waiters: map<WaitList, seq<Tid>>) {
    |waitNext| == |task| && Linked(waitNext, waitList, waiters) && Marked(task, waiters)
  }

  ghost predicate Marked(task: seq<Task>, ws: map<WaitList, seq<Tid>>) {
    forall l, t {:trigger t in ListOf(ws, l)} :: t in ListOf(ws, l) ==>
      t < |task| && (task[t].blockingOn.Some? ==> task[t].blockingOn == Some(l))
  }

  ghost predicate RingOk(slots: seq<Item>, head: nat, tail: nat, n: nat) {
    && |slots| == KWORK_QUEUE_SIZE && Rings.IsRing(slots, head, tail)
    && (forall i :: 0 <= i < |RingOf(slots, head, tail)| ==> RingOf(slots, head, tail)[i].caller < n)
  }

  ghost function RingOf(slots: seq<Item>, head: nat, tail: nat): seq<Item> {
    if head < |slots| && tail < |slots| then Rings.Contents(slots, head, tail) else []
  }

  /** The effect of scheduler_add_task on the abstract state. */
  ghost function Added(c: Core, t: Tid): Core
    requires t < |c.task| && c.task[t].prio < |c.order|
  {
    var p := c.task[t].prio;
    c.(order := c.order[p := [t] + c.order[p]])
  }

  /** Changing task fields other than the priority and the list mark leaves all lists alone. */
  lemma FieldsChange(task: seq<Task>, task': seq<Task>, next: Links, taskList: seq<Option<Tid>>, rrCurrent: seq<Option<Tid>>, order: seq<seq<Tid>>, mask: set<nat>,
                     waitNext: Links, waitList: map<WaitList, Option<Tid>>, waiters: map<WaitList, seq<Tid>>)
    requires ListsOk(task, next, taskList, rrCurrent, order, mask) && WaitsOk(task, waitNext, waitList, waiters)
    requires |task'| == |task|
    requires forall t :: 0 <= t < |task| ==> task'[t].prio == task[t].prio && (task'[t].blockingOn == task[t].blockingOn || task'[t].blockingOn == None)
    ensures ListsOk(task', next, taskList, rrCurrent, order, mask) && WaitsOk(task', waitNext, waitList, waiters)
  {
    hide NoDuplicates, Chain, Linked;
  }

  lemma ListsSizes(task: seq<Task>, next: Links, taskList: seq<Option<Tid>>, rrCurrent: seq<Option<Tid>>, order: seq<seq<Tid>>, mask: set<nat>)
    requires ListsOk(task, next, taskList, rrCurrent, order, mask)
    ensures |next| == |task| && |taskList| == |rrCurrent| == |order| == MAX_TASK_PRIORITIES
  {
  }

  lemma ListsAdd(task: seq<Task>, next: Links, taskList: seq<Option<Tid>>, rrCurrent: seq<Option<Tid>>, order: seq<seq<Tid>>, mask: set<nat>, t: Tid)
    requires ListsOk(task, next, taskList, rrCurrent, order, mask)
    requires t < |task| && task[t].prio < |order| && forall p :: 0 <= p < |order| ==> t !in order[p]
    ensures var p := task[t].prio;
      && |taskList| == |order| && |next| == |task|
      && ListsOk(task, next[t := taskList[p]], taskList[p := Some(t)], rrCurrent, order[p := [t] + order[p]], mask + {p})
  {
    var p := task[t].prio;
    var next' := next[t := taskList[p]];
    ChainPush(next, taskList[p], order[p], t);
    assert NoDuplicates([t] + order[p]);
    hide NoDuplicates, Chain;
    forall q | 0 <= q < |order| && q != p ensures Chain(next', taskList[q], order[q]) {
      ChainFrame(next, next', taskList[q], order[q]);
    }
    assert CursorInList(order[p], rrCurrent[p]);
  }

  lemma RingSizes(slots: seq<Item>, head: nat, tail: nat, n: nat)
    requires RingOk(slots, head, tail, n)
    ensures |slots| == KWORK_QUEUE_SIZE && head < |slots| && tail < |slots|
  {
  }

  lemma RingPush(slots: seq<Item>, head: nat, tail: nat, n: nat, item: Item)
    requires RingOk(slots, head, tail, n) && item.caller < n && tail < |slots|
    ensures var tail' := (tail + 1) % KWORK_QUEUE_SIZE;
      if tail' == head then |RingOf(slots, head, tail)| == KWORK_QUEUE_SIZE - 1
      else
        && |RingOf(slots, head, tail)| != KWORK_QUEUE_SIZE - 1
        && RingOf(slots[tail := item], head, tail') == RingOf(slots, head, tail) + [item]
        && RingOk(slots[tail := item], head, tail', n)
  {
    Rings.FullAndEmpty(slots, head, tail);
    if (tail + 1) % KWORK_QUEUE_SIZE != head {
      Rings.StoreAppends(slots, head, tail, item);
    }
  }

  lemma RingPop(slots: seq<Item>, head: nat, tail: nat, n: nat)
    requires RingOk(slots, head, tail, n) && head < |slots|
    ensures head == tail <==> RingOf(slots, head, tail) == []
    ensures head != tail ==>
      var head' := (head + 1) % KWORK_QUEUE_SIZE;
      && RingOf(slots, head, tail)[0] == slots[head]
      && RingOf(slots, head', tail) == RingOf(slots, head, tail)[1..]
      && RingOk(slots, head', tail, n)
  {
    Rings.FullAndEmpty(slots, head, tail);
    if head != tail {
      Rings.AdvanceDrops(slots, head, tail);
      var head' := (head + 1) % KWORK_QUEUE_SIZE;
      assert forall i :: 0 <= i < |RingOf(slots, head', tail)| ==> RingOf(slots, head', tail)[i] == RingOf(slots, head, tail)[i + 1];
    }
  }

  // ---- What the operations on wait lists do to the invariant ----

  lemma ListsKeep(task: seq<Task>, task': seq<Task>, next: Links, taskList: seq<Option<Tid>>, rrCurrent: seq<Option<Tid>>, order: seq<seq<Tid>>, mask: set<nat>)
    requires ListsOk(task, next, taskList, rrCurrent, order, mask) && |task'| == |task|
    requires forall t :: 0 <= t < |task| ==> task'[t].prio == task[t].prio
    ensures ListsOk(task', next, taskList, rrCurrent, order, mask)
  {
    hide NoDuplicates, Chain;
  }

  lemma ListsParked(task: seq<Task>, next: Links, taskList: seq<Option<Tid>>, rrCurrent: seq<Option<Tid>>, order: seq<seq<Tid>>, mask: set<nat>, t: Tid, l: WaitList, timeout: nat, self: bool)
    requires ListsOk(task, next, taskList, rrCurrent, order, mask) && t < |task|
    ensures ListsOk(task[t := Parked(Halted(task[t], self), l, timeout)], next, taskList, rrCurrent, order, mask)
  {
    hide ListsOk;
    ListsKeep(task, task[t := Parked(Halted(task[t], self), l, timeout)], next, taskList, rrCurrent, order, mask);
  }

  lemma WaitsHead(task: seq<Task>, waitNext: Links, waitList: map<WaitList, Option<Tid>>, waiters: map<WaitList, seq<Tid>>, l: WaitList)
    requires WaitsOk(task, waitNext, waitList, waiters)
    ensures |waitNext| == |task|
    ensures HeadOf(waitList, l) == At(ListOf(waiters, l), 0)
    ensures forall i :: 0 <= i < |ListOf(waiters, l)| ==> ListOf(waiters, l)[i] < |waitNext| && waitNext[ListOf(waiters, l)[i]] == At(ListOf(waiters, l), i + 1)
    ensures NoDuplicates(ListOf(waiters, l)) && Chain(waitNext, HeadOf(waitList, l), ListOf(waiters, l))
  {
    assert Chain(waitNext, HeadOf(waitList, l), ListOf(waiters, l));
  }

  lemma WaitsPop(task: seq<Task>, waitNext: Links, waitList: map<WaitList, Option<Tid>>, waiters: map<WaitList, seq<Tid>>, l: WaitList)
    requires WaitsOk(task, waitNext, waitList, waiters) && ListOf(waiters, l) != []
    ensures var t := ListOf(waiters, l)[0];
      && t < |task| == |waitNext|
      && WaitsOk(task[t := Released(task[t])], waitNext[t := None], waitList[l := waitNext[t]], waiters[l := ListOf(waiters, l)[1..]])
  {
    hide NoDuplicates;
    LinkedPop(waitNext, waitList, waiters, l);
    var ws' := waiters[l := ListOf(waiters, l)[1..]];
    forall k, u {:trigger u in ListOf(ws', k)} | u in ListOf(ws', k) ensures u in ListOf(waiters, k) {
    }
  }

  /** `t` joins list `l` with the given links. */
  lemma MarkedJoin(task: seq<Task>, ws: map<WaitList, seq<Tid>>, l: WaitList, t: Tid, timeout: nat, self: bool, s': seq<Tid>)
    requires Marked(task, ws) && t < |task| && OnNoList(ws, t)
    requires forall u :: u in s' ==> u == t || u in ListOf(ws, l)
    ensures Marked(task[t := Parked(Halted(task[t], self), l, timeout)], ws[l := s'])
  {
    var ws' := ws[l := s'];
    forall k, u {:trigger u in ListOf(ws', k)} | u in ListOf(ws', k) ensures (k == l && u == t) || (u != t && u in ListOf(ws, k)) {
      assert k != l ==> ListOf(ws', k) == ListOf(ws, k);
      assert t !in ListOf(ws, k);
    }
  }

  lemma WaitsJoin(task: seq<Task>, waitNext: Links, waitList: map<WaitList, Option<Tid>>, waiters: map<WaitList, seq<Tid>>, l: WaitList, t: Tid, timeout: nat, self: bool)
    requires WaitsOk(task, waitNext, waitList, waiters) && t < |task| && OnNoList(waiters, t)
    ensures |waitNext| == |task|
    ensures WaitsOk(task[t := Parked(Halted(task[t], self), l, timeout)], waitNext[t := HeadOf(waitList, l)], waitList[l := Some(t)], waiters[l := [t] + ListOf(waiters, l)])
  {
    LinkedPush(waitNext, waitList, waiters, l, t);
    MarkedJoin(task, waiters, l, t, timeout, self, [t] + ListOf(waiters, l));
  }

  lemma LinkedJoinBack(waitNext: Links, waitList: map<WaitList, Option<Tid>>, waiters: map<WaitList, seq<Tid>>, l: WaitList, t: Tid)
    requires Linked(waitNext, waitList, waiters) && t < |waitNext| && OnNoList(waiters, t)
    ensures var s := ListOf(waiters, l);
      && HeadOf(waitList, l) == At(s, 0)
      && if s == [] then Linked(waitNext[t := None], waitList[l := Some(t)], waiters[l := s + [t]])
         else
           && Chain(waitNext[t := None], Some(s[0]), s) && s[|s| - 1] < |waitNext|
           && Linked(waitNext[t := None][s[|s| - 1] := Some(t)], waitList[l := Some(s[0])], waiters[l := s + [t]])
  {
    var s := ListOf(waiters, l);
    assert Chain(waitNext, HeadOf(waitList, l), s);
    if s == [] {
      LinkedPush(waitNext, waitList, waiters, l, t);
      assert [t] + s == s + [t];
    } else {
      LinkedAppend(waitNext, waitList, waiters, l, t);
      ChainFrame(waitNext, waitNext[t := None], HeadOf(waitList, l), s);
    }
  }

  /** Removing `t` from the list it is on, at position `i`. */
  lemma WaitsSplice(task: seq<Task>, waitNext: Links, waitList: map<WaitList, Option<Tid>>, waiters: map<WaitList, seq<Tid>>, l: WaitList, i: nat)
    requires WaitsOk(task, waitNext, waitList, waiters) && i < |ListOf(waiters, l)|
    ensures l in waiters && |waitNext| == |task|
    ensures var s := ListOf(waiters, l);
      && s[i] < |task|
      && var ws' := waiters[l := Without(s, {s[i]})];
      if i == 0 then WaitsOk(task, waitNext[s[i] := None], waitList[l := waitNext[s[i]]], ws')
      else s[i - 1] < |task| && WaitsOk(task, waitNext[s[i - 1] := waitNext[s[i]]][s[i] := None], waitList[l := HeadOf(waitList, l)], ws')
  {
    var s := ListOf(waiters, l);
    WithoutOne(s, i);
    assert s[i] in s;
    MarkedLess(task, waiters, l, Without(s, {s[i]}));
    hide Marked, NoDuplicates;
    if i == 0 {
      LinkedPop(waitNext, waitList, waiters, l);
      assert s[..0] + s[1..] == s[1..];
    } else {
      LinkedUnlink(waitNext, waitList, waiters, l, i);
    }
  }

  lemma MarkedLess(task: seq<Task>, ws: map<WaitList, seq<Tid>>, l: WaitList, s': seq<Tid>)
    requires Marked(task, ws) && forall u :: u in s' ==> u in ListOf(ws, l)
    ensures Marked(task, ws[l := s'])
  {
    var ws' := ws[l := s'];
    forall k, u {:trigger u in ListOf(ws', k)} | u in ListOf(ws', k) ensures u in ListOf(ws, k) {
    }
  }

  /** A task is on no other list than the one it is marked with. */
  lemma OnMarkedList(task: seq<Task>, waiters: map<WaitList, seq<Tid>>, t: Tid, l: WaitList)
    requires Marked(task, waiters) && t < |task| && task[t].blockingOn == Some(l)
    ensures forall k {:trigger ListOf(waiters, k)} :: t in ListOf(waiters, k) ==> k == l
  {
    forall k {:trigger ListOf(waiters, k)} | t in ListOf(waiters, k) ensures k == l {
      assert t in ListOf(waiters, k);
    }
  }

  lemma RotationAt(s: seq<Tid>, cursor: Option<Tid>) returns (i: nat)
    requires CursorInList(s, cursor)
    ensures i <= |s| && Rotation(s, cursor) == s[i..] + s[..i] && (i == |s| ==> s == [])
  {
    i := if cursor.None? then 0 else IndexOf(s, cursor.value);
  }

  /** The circular successor in a linked priority list is the next stop of the walk. */
  lemma WalkNext(next: Links, head: Option<Tid>, s: seq<Tid>, cursor: Option<Tid>, k: nat)
    requires Chain(next, head, s) && CursorInList(s, cursor) && k < |s|
    ensures var rot := Rotation(s, cursor);
      && rot[k] < |next| && head.Some?
      && (if next[rot[k]].Some? then next[rot[k]].value else head.value) == NextAfter(rot, k)
  {
    hide IndexOf, Rotation;
    var rot := Rotation(s, cursor);
    var i := RotationAt(s, cursor);
    var j := if i + k < |s| then i + k else i + k - |s|;
    assert rot[k] == s[j];
    assert next[s[j]] == At(s, j + 1);
    if k + 1 < |s| {
      assert rot[k + 1] == s[if i + k + 1 < |s| then i + k + 1 else i + k + 1 - |s|];
    } else {
      assert rot[0] == s[i];
    }
  }

  /** The walk's stops are pairwise different, so it meets its start again only after the last one. */
  lemma WalkDistinct(s: seq<Tid>, cursor: Option<Tid>, k: nat)
    requires NoDuplicates(s) && CursorInList(s, cursor) && 0 < k < |s|
    ensures Rotation(s, cursor)[k] != Rotation(s, cursor)[0]
  {
    var i := if cursor.None? then 0 else IndexOf(s, cursor.value);
    assert Rotation(s, cursor) == s[i..] + s[..i];
    Distinct(s, i, if i + k < |s| then i + k else i + k - |s|);
  }

  lemma RotationStart(s: seq<Tid>, cursor: Option<Tid>)
    requires CursorInList(s, cursor) && s != []
    ensures Rotation(s, cursor)[0] == if cursor.Some? then cursor.value else s[0]
  {
  }

  lemma FirstReady(s: seq<Tid>, task: seq<Task>, k: nat)
    requires k < |s| && s[k] < |task| && task[s[k]].state == Ready
    requires forall j :: 0 <= j < k ==> s[j] < |task| && task[s[j]].state != Ready
    ensures First(s, ReadySet(task)) == Some(k)
  {
    assert s[k] in ReadySet(task);
  }

  lemma NoneReadyHere(s: seq<Tid>, task: seq<Task>)
    requires forall j :: 0 <= j < |s| ==> s[j] < |task| && task[s[j]].state != Ready
    ensures First(s, ReadySet(task)) == None
  {
  }

  /** One level, its head and its cursor. */
  lemma ListsLevel(task: seq<Task>, next: Links, taskList: seq<Option<Tid>>, rrCurrent: seq<Option<Tid>>, order: seq<seq<Tid>>, mask: set<nat>, pr: nat)
    requires ListsOk(task, next, taskList, rrCurrent, order, mask) && pr < |order| && order[pr] != []
    ensures |taskList| == |order| == |rrCurrent| && |next| == |task| && taskList[pr] == Some(order[pr][0])
    ensures Chain(next, taskList[pr], order[pr]) && NoDuplicates(order[pr]) && CursorInList(order[pr], rrCurrent[pr])
    ensures forall i :: 0 <= i < |order[pr]| ==> Rotation(order[pr], rrCurrent[pr])[i] < |task| && Rotation(order[pr], rrCurrent[pr])[i] in order[pr]
    ensures forall i :: 0 <= i < |order[pr]| ==> NextAfter(Rotation(order[pr], rrCurrent[pr]), i) in order[pr]
  {
    var rot := Rotation(order[pr], rrCurrent[pr]);
    forall i | 0 <= i < |order[pr]| ensures rot[i] in order[pr] && NextAfter(rot, i) in order[pr] {
      assert rot[i] in rot && NextAfter(rot, i) in rot;
    }
  }

  lemma ListsCursor(task: seq<Task>, next: Links, taskList: seq<Option<Tid>>, rrCurrent: seq<Option<Tid>>, order: seq<seq<Tid>>, mask: set<nat>, pr: nat, t: Tid)
    requires ListsOk(task, next, taskList, rrCurrent, order, mask) && pr < |order| && t in order[pr]
    ensures |rrCurrent| == |order| && ListsOk(task, next, taskList, rrCurrent[pr := Some(t)], order, mask)
  {
    hide Chain, NoDuplicates;
  }

  lemma HeadIsFirst(next: Links, head: Option<Tid>, s: seq<Tid>)
    requires Chain(next, head, s)
    ensures head == None <==> s == []
    ensures s == [] ==> forall cursor: Option<Tid>, ready :: CursorInList(s, cursor) ==> First(Rotation(s, cursor), ready) == None
  {
  }

  lemma ListsMembers(task: seq<Task>, next: Links, taskList: seq<Option<Tid>>, rrCurrent: seq<Option<Tid>>, order: seq<seq<Tid>>, mask: set<nat>)
    requires ListsOk(task, next, taskList, rrCurrent, order, mask)
    ensures CursorsInLists(order, rrCurrent) && |order| == MAX_TASK_PRIORITIES
    ensures forall p, t {:trigger t in order[p]} :: 0 <= p < |order| && t in order[p] ==> t < |task|
    ensures Levels(task, order)
  {
    hide Chain, NoDuplicates;
  }

  lemma ListsChain(task: seq<Task>, next: Links, taskList: seq<Option<Tid>>, rrCurrent: seq<Option<Tid>>, order: seq<seq<Tid>>, mask: set<nat>, pr: nat)
    requires ListsOk(task, next, taskList, rrCurrent, order, mask) && pr < |order|
    ensures |next| == |task| && |taskList| == |rrCurrent| == |order| && NoDuplicates(order[pr])
    ensures taskList[pr] == At(order[pr], 0)
    ensures forall i :: 0 <= i < |order[pr]| ==> order[pr][i] < |next| && next[order[pr][i]] == At(order[pr], i + 1)
  {
    assert Chain(next, taskList[pr], order[pr]);
  }

  lemma WaitsMarked(task: seq<Task>, waitNext: Links, waitList: map<WaitList, Option<Tid>>, waiters: map<WaitList, seq<Tid>>)
    requires WaitsOk(task, waitNext, waitList, waiters)
    ensures Marked(task, waiters)
  {
  }

  /** The wait lists without `t`, which is at most on list `l`. */
  function LessOne(ws: map<WaitList, seq<Tid>>, l: WaitList, t: Tid): map<WaitList, seq<Tid>> {
    if t in ListOf(ws, l) then ws[l := Without(ListOf(ws, l), {t})] else ws
  }

  /** One visit of the second pass. */
  lemma RemainingVisit(was: seq<Task>, ws: map<WaitList, seq<Tid>>, gone: set<Tid>, t: Tid)
    requires Marked(was, ws) && t < |was| && t !in gone
    ensures var now := Remaining(ws, gone);
      if Expires(was[t]) then Remaining(ws, gone + {t}) == LessOne(now, was[t].blockingOn.value, t)
      else Remaining(ws, gone + {}) == now
  {
    if Expires(was[t]) {
      OnMarkedList(was, ws, t, was[t].blockingOn.value);
      RemainingOne(ws, gone, t, was[t].blockingOn.value);
    } else {
      assert gone + {} == gone;
    }
  }

  /** Both passes together are one tick of the abstract state. */
  lemma TwoSweepsAreATick(c: Core)
    requires |c.order| == MAX_TASK_PRIORITIES
    ensures var mid := Swept(Sleepers, c.task, c.order, MAX_TASK_PRIORITIES, 0);
      Tick(c) == c.(task := Swept(Timers, mid, c.order, MAX_TASK_PRIORITIES, 0),
                    waiters := Remaining(c.waiters, Expired(mid, c.order, MAX_TASK_PRIORITIES, 0)))
  {
    var mid := Swept(Sleepers, c.task, c.order, MAX_TASK_PRIORITIES, 0);
    var end := Swept(Timers, mid, c.order, MAX_TASK_PRIORITIES, 0);
    hide Swept, Expired, Age, Aged, Expires;
    SweepEnd(Sleepers, c.task, c.order);
    SweepEnd(Timers, mid, c.order);
    forall t | 0 <= t < |c.task|
      ensures end[t] == if Enlisted(c, t) then Aged(c.task[t]) else c.task[t]
      ensures mid[t].prio == c.task[t].prio && (Enlisted(c, t) ==> Expires(mid[t]) == Expires(c.task[t]))
    {
      TwoPassesAgeOnce(c.task[t]);
    }
    assert Expired(mid, c.order, MAX_TASK_PRIORITIES, 0) == Expiring(c);
  }

  // ---- Removing a task from its priority list ----

  function RemovedCursor(cursor: Option<Tid>, t: Tid): Option<Tid> {
    if cursor == Some(t) then None else cursor
  }

  /** The effect of scheduler_remove_task on the abstract state. */
  ghost function Removed(c: Core, t: Tid): Core
    requires t < |c.task| && c.task[t].prio < |c.order| == |c.cursor|
  {
    var p := c.task[t].prio;
    c.(order := c.order[p := Without(c.order[p], {t})], cursor := c.cursor[p := RemovedCursor(c.cursor[p], t)])
  }

  function UnlinkedHead(next: Links, head: Option<Tid>, s: seq<Tid>, i: nat): Option<Tid>
    requires i < |s| && s[i] < |next|
  {
    if i == 0 then next[s[i]] else head
  }

  function UnlinkedNext(next: Links, s: seq<Tid>, i: nat): Links
    requires i < |s| && forall j :: 0 <= j < |s| ==> s[j] < |next|
  {
    (if i == 0 then next else next[s[i - 1] := next[s[i]]])[s[i] := None]
  }

  lemma UnlinkChain(next: Links, head: Option<Tid>, s: seq<Tid>, i: nat)
    requires Chain(next, head, s) && NoDuplicates(s) && i < |s|
    ensures forall j :: 0 <= j < |s| ==> s[j] < |next|
    ensures Chain(UnlinkedNext(next, s, i), UnlinkedHead(next, head, s, i), Without(s, {s[i]}))
    ensures NoDuplicates(Without(s, {s[i]}))
    ensures |UnlinkedNext(next, s, i)| == |next|
    ensures forall t :: 0 <= t < |next| && t !in s ==> UnlinkedNext(next, s, i)[t] == next[t]
  {
    hide Chain, NoDuplicates, Without;
    MembersInRange(next, head, s);
    forall j | 0 <= j < |s| ensures s[j] < |next| {
      assert s[j] in s;
    }
    WithoutOne(s, i);
    WithoutNoDuplicates(s, {s[i]});
    if i == 0 {
      ChainPop(next, head, s);
      assert s[..0] + s[1..] == s[1..];
    } else {
      ChainUnlink(next, head, s, i);
    }
  }

  /** Level `p` gets fewer members, new links and a cursor that is still inside. */
  lemma ListsReplace(task: seq<Task>, next: Links, taskList: seq<Option<Tid>>, rrCurrent: seq<Option<Tid>>, order: seq<seq<Tid>>, mask: set<nat>, p: nat,
                     next': Links, head': Option<Tid>, s': seq<Tid>, cursor': Option<Tid>)
    requires ListsOk(task, next, taskList, rrCurrent, order, mask) && p < |order|
    requires Chain(next', head', s') && NoDuplicates(s') && |next'| == |next|
    requires forall t :: t in s' ==> t in order[p]
    requires forall t :: 0 <= t < |next| && t !in order[p] ==> next'[t] == next[t]
    requires CursorInList(s', cursor') && (s' != [] ==> order[p] != [])
    ensures |taskList| == |rrCurrent| == |order|
    ensures ListsOk(task, next', taskList[p := head'], rrCurrent[p := cursor'], order[p := s'], if s' == [] then mask - {p} else mask)
  {
    hide Chain, NoDuplicates;
    OthersKeepChains(task, next, taskList, order, p, next');
  }

  /** The task at position `i` of level `p` is unlinked and no cursor is left on it. */
  lemma ListsUnlink(task: seq<Task>, next: Links, taskList: seq<Option<Tid>>, rrCurrent: seq<Option<Tid>>, order: seq<seq<Tid>>, mask: set<nat>, p: nat, i: nat)
    requires ListsOk(task, next, taskList, rrCurrent, order, mask) && p < |order| && i < |order[p]|
    ensures |next| == |task| && |taskList| == |rrCurrent| == |order|
    ensures var s := order[p];
      && (forall j :: 0 <= j < |s| ==> s[j] < |next|)
      && var (head', s') := (UnlinkedHead(next, taskList[p], s, i), Without(s, {s[i]}));
      && (head' == None <==> s' == [])
      && ListsOk(task, UnlinkedNext(next, s, i), taskList[p := head'], rrCurrent[p := RemovedCursor(rrCurrent[p], s[i])],
                 order[p := s'], if s' == [] then mask - {p} else mask)
  {
    hide ListsOk, Chain, NoDuplicates, Without, UnlinkedNext, UnlinkedHead, CursorInList;
    ListsSizes(task, next, taskList, rrCurrent, order, mask);
    LevelHere(task, next, taskList, rrCurrent, order, mask, p);
    var s := order[p];
    UnlinkChain(next, taskList[p], s, i);
    var (head', s') := (UnlinkedHead(next, taskList[p], s, i), Without(s, {s[i]}));
    ChainHead(UnlinkedNext(next, s, i), head', s');
    CursorLeaves(s, rrCurrent[p], s[i]);
    ListsReplace(task, next, taskList, rrCurrent, order, mask, p, UnlinkedNext(next, s, i), head', s', RemovedCursor(rrCurrent[p], s[i]));
  }

  lemma LevelHere(task: seq<Task>, next: Links, taskList: seq<Option<Tid>>, rrCurrent: seq<Option<Tid>>, order: seq<seq<Tid>>, mask: set<nat>, p: nat)
    requires ListsOk(task, next, taskList, rrCurrent, order, mask) && p < |order|
    ensures |taskList| == |rrCurrent| == |order|
    ensures Chain(next, taskList[p], order[p]) && NoDuplicates(order[p]) && CursorInList(order[p], rrCurrent[p])
  {
  }

  lemma ListsCursors(task: seq<Task>, next: Links, taskList: seq<Option<Tid>>, rrCurrent: seq<Option<Tid>>, order: seq<seq<Tid>>, mask: set<nat>)
    requires ListsOk(task, next, taskList, rrCurrent, order, mask)
    ensures |taskList| == |order| == MAX_TASK_PRIORITIES && CursorsInLists(order, rrCurrent)
  {
  }

  /** A task on no priority list may be overwritten, link and all. */
  lemma ListsFresh(task: seq<Task>, next: Links, taskList: seq<Option<Tid>>, rrCurrent: seq<Option<Tid>>, order: seq<seq<Tid>>, mask: set<nat>,
                   t: Tid, k: Task)
    requires ListsOk(task, next, taskList, rrCurrent, order, mask)
    requires t < |task| && forall p :: 0 <= p < |order| ==> t !in order[p]
    ensures |next| == |task| && ListsOk(task[t := k], next[t := None], taskList, rrCurrent, order, mask)
  {
    hide NoDuplicates, Chain;
    forall p | 0 <= p < |order| ensures Chain(next[t := None], taskList[p], order[p]) {
      MembersInRange(next, taskList[p], order[p]);
      ChainFrame(next, next[t := None], taskList[p], order[p]);
    }
  }

  /** A new object's list head is NULL. */
  lemma WaitsEmpty(task: seq<Task>, waitNext: Links, waitList: map<WaitList, Option<Tid>>, waiters: map<WaitList, seq<Tid>>, l: WaitList)
    requires WaitsOk(task, waitNext, waitList, waiters) && ListOf(waiters, l) == []
    ensures WaitsOk(task, waitNext, waitList[l := None], waiters)
  {
    hide NoDuplicates;
    forall k ensures Chain(waitNext, HeadOf(waitList[l := None], k), ListOf(waiters, k)) {
      assert Chain(waitNext, HeadOf(waitList, k), ListOf(waiters, k));
    }
  }

  /** A task on no wait list may be overwritten, link and all. */
  lemma WaitsFresh(task: seq<Task>, waitNext: Links, waitList: map<WaitList, Option<Tid>>, waiters: map<WaitList, seq<Tid>>, t: Tid, k: Task)
    requires WaitsOk(task, waitNext, waitList, waiters) && t < |task| && OnNoList(waiters, t)
    ensures |waitNext| == |task| && WaitsOk(task[t := k], waitNext[t := None], waitList, waiters)
  {
    hide NoDuplicates, Chain;
    forall l ensures Chain(waitNext[t := None], HeadOf(waitList, l), ListOf(waiters, l)) {
      MembersInRange(waitNext, HeadOf(waitList, l), ListOf(waiters, l));
      ChainFrame(waitNext, waitNext[t := None], HeadOf(waitList, l), ListOf(waiters, l));
    }
  }

  lemma CursorLeaves(s: seq<Tid>, cursor: Option<Tid>, t: Tid)
    requires CursorInList(s, cursor)
    ensures CursorInList(Without(s, {t}), RemovedCursor(cursor, t))
  {
  }

  lemma ChainHead(link: Links, head: Option<Tid>, s: seq<Tid>)
    requires Chain(link, head, s)
    ensures head == None <==> s == []
  {
  }

  /** Changing links of members of level `p` leaves the other levels alone. */
  lemma OthersKeepChains(task: seq<Task>, next: Links, taskList: seq<Option<Tid>>, order: seq<seq<Tid>>, p: nat, next': Links)
    requires |taskList| == |order| && p < |order| && |next'| == |next| == |task|
    requires forall q :: 0 <= q < |order| ==> Chain(next, taskList[q], order[q])
    requires forall q, t {:trigger t in order[q]} :: 0 <= q < |order| && t in order[q] ==> t < |task| && task[t].prio == q
    requires forall t :: 0 <= t < |next| && t !in order[p] ==> next'[t] == next[t]
    ensures forall q :: 0 <= q < |order| && q != p ==> Chain(next', taskList[q], order[q])
  {
    hide Chain;
    forall q | 0 <= q < |order| && q != p ensures Chain(next', taskList[q], order[q]) {
      forall t | t in order[q] ensures t < |next| && next'[t] == next[t] {
        assert t !in order[p];
      }
      ChainFrame(next, next', taskList[q], order[q]);
    }
  }

  /** A task that is not on its list: nothing to unlink, and no cursor points to it. */
  lemma ListsWithout(task: seq<Task>, next: Links, taskList: seq<Option<Tid>>, rrCurrent: seq<Option<Tid>>, order: seq<seq<Tid>>, mask: set<nat>, p: nat, t: Tid)
    requires ListsOk(task, next, taskList, rrCurrent, order, mask) && p < |order| && t !in order[p]
    ensures |taskList| == |rrCurrent| == |order|
    ensures rrCurrent[p] != Some(t) && order[p := Without(order[p], {t})] == order
    ensures ListsOk(task, next, taskList, rrCurrent, order, if taskList[p] == None then mask - {p} else mask)
  {
    WithoutNone(order[p], {t});
    assert CursorInList(order[p], rrCurrent[p]);
    assert Chain(next, taskList[p], order[p]);
    ChainHead(next, taskList[p], order[p]);
    hide Chain, NoDuplicates, Without;
  }
}
