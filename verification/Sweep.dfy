/** The two passes of scheduler_tick over the priority lists, as functions of how far they have come. */
module Sweep {
  import opened Base
  import opened CoreState

  datatype Pass = Sleepers | Timers

  /** One visit of a task by the first or the second pass. */
  function Age(pass: Pass, k: Task): Task {
    match pass
    case Sleepers =>
      if Sleeps(k) then
        if k.delay == 1 then k.(delay := 0, state := Ready) else k.(delay := k.delay - 1)
      else k
    case Timers =>
      if Expires(k) then Woken(k.(delay := 0, blockingOn := None, timedOut := true), FAIL)
      else if WaitsTimed(k) then k.(delay := k.delay - 1)
      else k
  }

  /** Visited by both passes, a task ages by exactly one tick: neither twice nor not at all. */
  lemma TwoPassesAgeOnce(k: Task)
    ensures Age(Timers, Age(Sleepers, k)) == Aged(k)
    ensures Expires(Age(Sleepers, k)) == Expires(k) && Age(Sleepers, k).prio == k.prio && Age(Timers, k).prio == k.prio
  {
  }

  /** A task of priority `prio` was visited when the walk is at position `i` of level `pr`. */
  predicate Visited(order: seq<seq<Tid>>, prio: nat, pr: nat, i: nat, t: Tid) {
    && prio < |order| && t in order[prio]
    && (prio < pr || (prio == pr && i <= |order[pr]| && t in order[pr][..i]))
  }

  function Swept(pass: Pass, was: seq<Task>, order: seq<seq<Tid>>, pr: nat, i: nat): (r: seq<Task>)
    ensures |r| == |was|
  {
    seq(|was|, t requires 0 <= t < |was| => if Visited(order, was[t].prio, pr, i, t) then Age(pass, was[t]) else was[t])
  }

  function Expired(was: seq<Task>, order: seq<seq<Tid>>, pr: nat, i: nat): set<Tid> {
    set t | 0 <= t < |was| && Visited(order, was[t].prio, pr, i, t) && Expires(was[t])
  }

  ghost predicate Levels(was: seq<Task>, order: seq<seq<Tid>>) {
    && (forall p :: 0 <= p < |order| ==> NoDuplicates(order[p]))
    && (forall p, t {:trigger t in order[p]} :: 0 <= p < |order| && t in order[p] ==> t < |was| && was[t].prio == p)
  }

  lemma VisitNext(was: seq<Task>, order: seq<seq<Tid>>, pr: nat, i: nat)
    requires Levels(was, order) && pr < |order| && i < |order[pr]|
    ensures var t := order[pr][i];
      && t < |was| && was[t].prio == pr
      && !Visited(order, was[t].prio, pr, i, t)
      && forall u :: 0 <= u < |was| ==> (Visited(order, was[u].prio, pr, i + 1, u) <==> Visited(order, was[u].prio, pr, i, u) || u == t)
  {
    var t := order[pr][i];
    assert t in order[pr];
    assert order[pr][..i + 1] == order[pr][..i] + [t];
    assert NoDuplicates(order[pr]);
  }

  lemma SweepOne(pass: Pass, was: seq<Task>, order: seq<seq<Tid>>, pr: nat, i: nat)
    requires Levels(was, order) && pr < |order| && i < |order[pr]|
    ensures var t := order[pr][i];
      && t < |was| && Swept(pass, was, order, pr, i)[t] == was[t]
      && Swept(pass, was, order, pr, i + 1) == Swept(pass, was, order, pr, i)[t := Age(pass, was[t])]
      && Expired(was, order, pr, i + 1) == Expired(was, order, pr, i) + (if Expires(was[t]) then {t} else {})
      && t !in Expired(was, order, pr, i)
  {
    hide Visited, Age, Expires, Levels;
    VisitNext(was, order, pr, i);
  }

  lemma SweepLevel(pass: Pass, was: seq<Task>, order: seq<seq<Tid>>, pr: nat)
    requires pr < |order|
    ensures Swept(pass, was, order, pr, |order[pr]|) == Swept(pass, was, order, pr + 1, 0)
    ensures Expired(was, order, pr, |order[pr]|) == Expired(was, order, pr + 1, 0)
  {
    hide Age, Expires;
    VisitLevel(was, order, pr);
    hide Visited;
  }

  lemma VisitLevel(was: seq<Task>, order: seq<seq<Tid>>, pr: nat)
    requires pr < |order|
    ensures forall u :: 0 <= u < |was| ==> (Visited(order, was[u].prio, pr, |order[pr]|, u) <==> Visited(order, was[u].prio, pr + 1, 0, u))
  {
    assert order[pr][..|order[pr]|] == order[pr];
  }

  lemma SweepStart(pass: Pass, was: seq<Task>, order: seq<seq<Tid>>)
    ensures Swept(pass, was, order, 0, 0) == was && Expired(was, order, 0, 0) == {}
  {
  }

  /** A full sweep visits exactly the tasks that are on the list of their priority. */
  lemma SweepEnd(pass: Pass, was: seq<Task>, order: seq<seq<Tid>>)
    ensures forall t :: 0 <= t < |was| ==>
      Swept(pass, was, order, |order|, 0)[t] == (if was[t].prio < |order| && t in order[was[t].prio] then Age(pass, was[t]) else was[t])
    ensures Expired(was, order, |order|, 0) == set t | 0 <= t < |was| && was[t].prio < |order| && t in order[was[t].prio] && Expires(was[t])
  {
  }

  /** Leaving in two steps. */
  lemma {:induction false} WithoutTwice(s: seq<Tid>, a: set<Tid>, b: set<Tid>)
    ensures Without(Without(s, a), b) == Without(s, a + b)
  {
    if s != [] {
      WithoutTwice(s[1..], a, b);
      if s[0] !in a {
        var rest := Without(s[1..], a);
        assert Without(s, a) == [s[0]] + rest && ([s[0]] + rest)[1..] == rest;
      }
    }
  }

  function Remaining(ws: map<WaitList, seq<Tid>>, gone: set<Tid>): map<WaitList, seq<Tid>> {
    map l | l in ws :: Without(ws[l], gone)
  }

  lemma RemainingNone(ws: map<WaitList, seq<Tid>>)
    ensures Remaining(ws, {}) == ws
  {
    forall l | l in ws ensures Without(ws[l], {}) == ws[l] {
      WithoutNone(ws[l], {});
    }
  }

  /** One more task leaves: only the list it is on changes. */
  lemma RemainingOne(ws: map<WaitList, seq<Tid>>, gone: set<Tid>, t: Tid, l: WaitList)
    requires forall k {:trigger ListOf(ws, k)} :: t in ListOf(ws, k) ==> k == l
    requires t !in gone
    ensures var now := Remaining(ws, gone);
      && (t in ListOf(now, l) <==> t in ListOf(ws, l))
      && Remaining(ws, gone + {t}) == if t in ListOf(now, l) then now[l := Without(ListOf(now, l), {t})] else now
  {
    var now, then' := Remaining(ws, gone), Remaining(ws, gone + {t});
    forall k | k in ws ensures then'[k] == if k == l && t in ListOf(now, l) then Without(now[k], {t}) else now[k] {
      WithoutTwice(ws[k], gone, {t});
      if t !in ListOf(ws, k) {
        WithoutNone(now[k], {t});
      }
    }
  }
}
