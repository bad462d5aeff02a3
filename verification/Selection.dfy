/** The selection policy of the scheduler as a function: strict priority between
  * levels, a circular walk from the cursor inside a level (kernel/sched.c). */
module Selection {
  import opened Base

  datatype Choice = Nobody | Chosen(task: Tid, cursor: seq<Option<Tid>>)

  /** Position of `t` in its priority list. */
  function IndexOf(list: seq<Tid>, t: Tid): (i: nat)
    requires t in list
    ensures i < |list| && list[i] == t && t !in list[..i]
  {
    if list[0] == t then 0 else 1 + IndexOf(list[1..], t)
  }

  /** A cursor is NULL or points into the list of its own level. */
  ghost predicate CursorsInLists(order: seq<seq<Tid>>, cursor: seq<Option<Tid>>) {
    && |order| == |cursor|
    && forall p :: 0 <= p < |order| ==> CursorInList(order[p], cursor[p])
  }

  predicate CursorInList(list: seq<Tid>, cursor: Option<Tid>) {
    cursor.Some? ==> cursor.value in list
  }

  /** The list as the circular walk visits it: from the cursor, or from the head when the cursor is NULL. */
  function Rotation(list: seq<Tid>, cursor: Option<Tid>): (r: seq<Tid>)
    requires CursorInList(list, cursor)
    ensures |r| == |list|
    ensures forall t :: t in r <==> t in list
  {
    match cursor
    case None => list
    case Some(t) =>
      var i := IndexOf(list, t);
      assert list == list[..i] + list[i..];
      list[i..] + list[..i]
  }

  /** Index of the first entry of `s` that is in `ready`. */
  function First(s: seq<Tid>, ready: set<Tid>): (r: Option<nat>)
    ensures r.None? <==> (forall t :: t in s ==> t !in ready)
    ensures r.Some? ==> r.value < |s| && s[r.value] in ready && (forall i :: 0 <= i < r.value ==> s[i] !in ready)
  {
    if s == [] then None
    else if s[0] in ready then Some(0)
    else
      match First(s[1..], ready)
      case None => None
      case Some(i) => Some(i + 1)
  }

  /** The entry that follows position `i` in a circular list. */
  function NextAfter(s: seq<Tid>, i: nat): Tid
    requires i < |s|
  {
    if i + 1 < |s| then s[i + 1] else s[0]
  }

  /** scheduler_get_next from level `p` on: the chosen task and the advanced cursors. */
  function Select(order: seq<seq<Tid>>, cursor: seq<Option<Tid>>, ready: set<Tid>, p: nat): Choice
    requires p <= |order|
    requires CursorsInLists(order, cursor)
    decreases |order| - p
  {
    if p == |order| then Nobody
    else
      var rot := Rotation(order[p], cursor[p]);
      match First(rot, ready)
      case None => Select(order, cursor, ready, p + 1)
      case Some(i) => Chosen(rot[i], cursor[p := Some(NextAfter(rot, i))])
  }

  ghost predicate NoneReady(list: seq<Tid>, ready: set<Tid>) {
    forall t :: t in list ==> t !in ready
  }

  /** `q` is the highest level, from `p` on, that has a ready task; |order| when there is none. */
  ghost predicate TopLevel(order: seq<seq<Tid>>, ready: set<Tid>, p: nat, q: nat) {
    && p <= q <= |order|
    && (forall h :: p <= h < q ==> NoneReady(order[h], ready))
    && (q < |order| ==> !NoneReady(order[q], ready))
  }

  /** Strict priority: nobody is chosen exactly when no listed task is ready; otherwise the chosen task is
    * ready, sits on the highest level with a ready task, and only that level's cursor moves, inside its list. */
  lemma {:induction false} SelectIsStrictPriority(order: seq<seq<Tid>>, cursor: seq<Option<Tid>>, ready: set<Tid>, p: nat)
    returns (q: nat)
    requires p <= |order|
    requires CursorsInLists(order, cursor)
    ensures TopLevel(order, ready, p, q)
    ensures Select(order, cursor, ready, p).Nobody? <==> q == |order|
    ensures q < |order| ==>
      var c := Select(order, cursor, ready, p);
      && c.task in ready && c.task in order[q]
      && CursorsInLists(order, c.cursor)
      && c.cursor == cursor[q := c.cursor[q]]
    decreases |order| - p
  {
    if p == |order| {
      q := p;
    } else {
      var rot := Rotation(order[p], cursor[p]);
      match First(rot, ready) {
        case None =>
          q := SelectIsStrictPriority(order, cursor, ready, p + 1);
        case Some(i) =>
          q := p;
          assert rot[i] in order[p];
          assert NextAfter(rot, i) in rot;
          assert CursorInList(order[p], Some(NextAfter(rot, i)));
      }
    }
  }

  // ---- Round-robin fairness on one level ----

  /** Ring distance from the cursor to `t`: how many entries the walk passes before it meets `t`. */
  function Distance(list: seq<Tid>, cursor: Option<Tid>, t: Tid): (d: nat)
    requires CursorInList(list, cursor) && t in list
    ensures d < |list|
  {
    IndexOf(Rotation(list, cursor), t)
  }

  lemma {:induction false} IndexIsUnique(list: seq<Tid>, i: nat)
    requires i < |list| && forall j :: 0 <= j < i ==> list[j] != list[i]
    ensures IndexOf(list, list[i]) == i
  {
    if i > 0 {
      IndexIsUnique(list[1..], i - 1);
    }
  }

  lemma TurnTwice(list: seq<Tid>, s: nat, k: nat)
    requires s <= |list| && k <= |list|
    ensures var rot := list[s..] + list[..s];
      var m := if s + k < |list| then s + k else s + k - |list|;
      rot[k..] + rot[..k] == list[m..] + list[..m]
  {
    var rot := list[s..] + list[..s];
    if s + k < |list| {
      assert rot[k..] == list[s + k..] + list[..s];
      assert list[..s + k] == list[..s] + rot[..k];
    } else {
      var m := s + k - |list|;
      assert rot[k..] == list[m..s];
      assert rot[..k] == list[s..] + list[..m];
      assert list[m..] == list[m..s] + list[s..];
    }
  }

  /** Advancing the cursor past position `i` of the walk turns the walk by i + 1 places. */
  lemma RotationTurns(list: seq<Tid>, cursor: Option<Tid>, i: nat)
    requires NoDuplicates(list) && CursorInList(list, cursor)
    requires i + 1 < |list|
    ensures var rot := Rotation(list, cursor);
      rot[i + 1] in list && Rotation(list, Some(rot[i + 1])) == rot[i + 1..] + rot[..i + 1]
  {
    var rot := Rotation(list, cursor);
    assert rot[i + 1] in rot;
    var s := if cursor.None? then 0 else IndexOf(list, cursor.value);
    assert rot == list[s..] + list[..s];
    var m := if s + i + 1 < |list| then s + i + 1 else s + i + 1 - |list|;
    assert list[m] == rot[i + 1];
    assert IndexOf(list, list[m]) == m by { IndexIsUnique(list, m); }
    assert rot[i + 1..] + rot[..i + 1] == list[m..] + list[..m] by { TurnTwice(list, s, i + 1); }
  }

  /** Choosing another task than `t`, which is ready, brings the cursor strictly closer to `t`. */
  lemma DistanceShrinks(list: seq<Tid>, cursor: Option<Tid>, t: Tid, i: nat)
    requires NoDuplicates(list) && CursorInList(list, cursor) && t in list
    requires i < Distance(list, cursor, t)
    ensures NextAfter(Rotation(list, cursor), i) in list
    ensures Distance(list, Some(NextAfter(Rotation(list, cursor), i)), t) == Distance(list, cursor, t) - i - 1
  {
    var rot := Rotation(list, cursor);
    hide Rotation;
    var d := Distance(list, cursor, t);
    RotationTurns(list, cursor, i);
    assert NextAfter(rot, i) == rot[i + 1];
    IndexAfterTurn(rot, t, i + 1);
  }

  /** The list turned by `m` places, up to the position of `t`, has `t` that much earlier. */
  lemma IndexAfterTurn(s: seq<Tid>, t: Tid, m: nat)
    requires t in s && m <= IndexOf(s, t)
    ensures t in s[m..] + s[..m] && IndexOf(s[m..] + s[..m], t) == IndexOf(s, t) - m
  {
    var d := IndexOf(s, t);
    var turned := s[m..] + s[..m];
    assert turned[d - m] == s[d];
    forall j | 0 <= j < d - m ensures turned[j] != t {
      assert turned[j] == s[m + j] == s[..d][m + j];
    }
    IndexIsUnique(turned, d - m);
  }

  /** From the top level the walk chooses the first ready task and leaves the cursor behind it. */
  lemma {:induction false} SelectAtLevel(order: seq<seq<Tid>>, cursor: seq<Option<Tid>>, ready: set<Tid>, p: nat, q: nat) returns (i: nat)
    requires p <= |order| && CursorsInLists(order, cursor) && TopLevel(order, ready, p, q) && q < |order|
    ensures var rot := Rotation(order[q], cursor[q]);
      && First(rot, ready) == Some(i)
      && Select(order, cursor, ready, p) == Chosen(rot[i], cursor[q := Some(NextAfter(rot, i))])
    decreases |order| - p
  {
    var rot := Rotation(order[p], cursor[p]);
    if p == q {
      assert exists t :: t in rot && t in ready;
      i := First(rot, ready).value;
    } else {
      assert NoneReady(order[p], ready);
      i := SelectAtLevel(order, cursor, ready, p + 1, q);
    }
  }
}
