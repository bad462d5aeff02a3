/** Singly linked lists threaded through a column of next pointers, and the sequences they represent. */
module Chains {
  import opened Base
  import opened CoreState

  type Links = seq<Option<Tid>>

  function At(s: seq<Tid>, i: nat): Option<Tid> {
    if i < |s| then Some(s[i]) else None
  }

  /** Following `link` from `head` visits exactly `s` and ends in NULL. */
  ghost predicate Chain(link: Links, head: Option<Tid>, s: seq<Tid>) {
    && head == At(s, 0)
    && (forall k :: 0 <= k < |s| ==> s[k] < |link| && link[s[k]] == At(s, k + 1))
  }

  lemma ChainFrame(link: Links, link': Links, head: Option<Tid>, s: seq<Tid>)
    requires Chain(link, head, s) && |link'| == |link|
    requires forall t :: t in s ==> t < |link| && link'[t] == link[t]
    ensures Chain(link', head, s)
  {
  }

  lemma ChainPush(link: Links, head: Option<Tid>, s: seq<Tid>, t: Tid)
    requires Chain(link, head, s) && t !in s && t < |link|
    ensures Chain(link[t := head], Some(t), [t] + s)
  {
    var s' := [t] + s;
    forall k | 0 <= k < |s'| ensures link[t := head][s'[k]] == At(s', k + 1) {
      if k > 0 {
        assert s'[k] == s[k - 1];
      }
    }
  }

  lemma ChainPop(link: Links, head: Option<Tid>, s: seq<Tid>)
    requires Chain(link, head, s) && s != [] && NoDuplicates(s)
    ensures Chain(link[s[0] := None], link[s[0]], s[1..])
  {
    var s' := s[1..];
    forall k | 0 <= k < |s'| ensures link[s[0] := None][s'[k]] == At(s', k + 1) {
      assert s'[k] == s[k + 1];
    }
  }

  lemma ChainAppend(link: Links, head: Option<Tid>, s: seq<Tid>, t: Tid)
    requires Chain(link, head, s) && s != [] && NoDuplicates(s) && t !in s && t < |link|
    ensures Chain(link[t := None][s[|s| - 1] := Some(t)], head, s + [t])
  {
    var s' := s + [t];
    forall k | 0 <= k < |s'| ensures link[t := None][s[|s| - 1] := Some(t)][s'[k]] == At(s', k + 1) {
      if k < |s| {
        assert s'[k] == s[k];
      }
    }
  }

  lemma Distinct(s: seq<Tid>, i: nat, j: nat)
    requires NoDuplicates(s) && i < |s| && j < |s| && i != j
    ensures s[i] != s[j]
  {
  }

  /** Unlinking the k-th element, which is not the first. */
  lemma ChainUnlink(link: Links, head: Option<Tid>, s: seq<Tid>, k: nat)
    requires Chain(link, head, s) && 0 < k < |s| && NoDuplicates(s)
    ensures Chain(link[s[k - 1] := link[s[k]]][s[k] := None], head, s[..k] + s[k + 1..])
  {
    hide NoDuplicates;
    var s' := s[..k] + s[k + 1..];
    var link' := link[s[k - 1] := link[s[k]]][s[k] := None];
    forall i | 0 <= i < |s'| ensures s'[i] < |link'| && link'[s'[i]] == At(s', i + 1) {
      var j := if i < k then i else i + 1;
      Distinct(s, j, k);
      if j != k - 1 {
        Distinct(s, j, k - 1);
      }
    }
  }

  /** Removing one element by its position. */
  lemma {:induction false} WithoutOne(s: seq<Tid>, k: nat)
    requires k < |s| && NoDuplicates(s)
    ensures Without(s, {s[k]}) == s[..k] + s[k + 1..]
  {
    if k == 0 {
      assert forall t :: t in s[1..] ==> t !in {s[0]};
      WithoutNone(s[1..], {s[0]});
    } else {
      var rest := s[1..];
      assert NoDuplicates(rest) && rest[k - 1] == s[k] && s[0] != s[k];
      WithoutOne(rest, k - 1);
      assert s[..k] == [s[0]] + rest[..k - 1] && s[k + 1..] == rest[k..];
    }
  }

  // ---- All wait lists together: they share one link column ----

  function HeadOf(heads: map<WaitList, Option<Tid>>, l: WaitList): Option<Tid> {
    if l in heads then heads[l] else None
  }

  ghost predicate Disjoint(ws: map<WaitList, seq<Tid>>) {
    forall l, k, t {:trigger t in ListOf(ws, l), t in ListOf(ws, k)} :: t in ListOf(ws, l) && t in ListOf(ws, k) ==> l == k
  }

  ghost predicate Linked(link: Links, heads: map<WaitList, Option<Tid>>, ws: map<WaitList, seq<Tid>>) {
    && (forall l :: Chain(link, HeadOf(heads, l), ListOf(ws, l)))
    && (forall l :: NoDuplicates(ListOf(ws, l)))
    && Disjoint(ws)
  }

  ghost predicate OnNoList(ws: map<WaitList, seq<Tid>>, t: Tid) {
    forall l {:trigger ListOf(ws, l)} :: t !in ListOf(ws, l)
  }

  /** One list is rewritten by an operation that moves only links of its own members and of `t`. */
  lemma LinkedAfter(link: Links, heads: map<WaitList, Option<Tid>>, ws: map<WaitList, seq<Tid>>,
                    l: WaitList, link': Links, head': Option<Tid>, s': seq<Tid>, t: Tid)
    requires Linked(link, heads, ws) && |link'| == |link|
    requires Chain(link', head', s') && NoDuplicates(s')
    requires forall u :: u in s' ==> u in ListOf(ws, l) || (u == t && OnNoList(ws, t))
    requires t in ListOf(ws, l) || OnNoList(ws, t)
    requires forall u :: 0 <= u < |link| && u !in ListOf(ws, l) && u != t ==> link'[u] == link[u]
    ensures Linked(link', heads[l := head'], ws[l := s'])
  {
    hide NoDuplicates, Chain;
    var heads', ws' := heads[l := head'], ws[l := s'];
    forall k ensures Chain(link', HeadOf(heads', k), ListOf(ws', k)) && NoDuplicates(ListOf(ws', k)) {
      if k != l {
        MembersInRange(link, HeadOf(heads, k), ListOf(ws, k));
        ChainFrame(link, link', HeadOf(heads, k), ListOf(ws, k));
      }
    }
    forall j, k, u {:trigger u in ListOf(ws', j), u in ListOf(ws', k)} | u in ListOf(ws', j) && u in ListOf(ws', k) ensures j == k {
      assert j != l ==> u in ListOf(ws, j);
      assert k != l ==> u in ListOf(ws, k);
    }
  }

  lemma MembersInRange(link: Links, head: Option<Tid>, s: seq<Tid>)
    requires Chain(link, head, s)
    ensures forall t :: t in s ==> t < |link|
  {
  }

  lemma LinkedPush(link: Links, heads: map<WaitList, Option<Tid>>, ws: map<WaitList, seq<Tid>>, l: WaitList, t: Tid)
    requires Linked(link, heads, ws) && OnNoList(ws, t) && t < |link|
    ensures Linked(link[t := HeadOf(heads, l)], heads[l := Some(t)], ws[l := [t] + ListOf(ws, l)])
  {
    var s := ListOf(ws, l);
    ChainPush(link, HeadOf(heads, l), s, t);
    assert NoDuplicates([t] + s);
    LinkedAfter(link, heads, ws, l, link[t := HeadOf(heads, l)], Some(t), [t] + s, t);
  }

  lemma LinkedAppend(link: Links, heads: map<WaitList, Option<Tid>>, ws: map<WaitList, seq<Tid>>, l: WaitList, t: Tid)
    requires Linked(link, heads, ws) && OnNoList(ws, t) && t < |link| && ListOf(ws, l) != []
    ensures var s := ListOf(ws, l);
      s[|s| - 1] < |link| && Linked(link[t := None][s[|s| - 1] := Some(t)], heads[l := HeadOf(heads, l)], ws[l := s + [t]])
  {
    var s := ListOf(ws, l);
    ChainAppend(link, HeadOf(heads, l), s, t);
    assert NoDuplicates(s + [t]);
    LinkedAfter(link, heads, ws, l, link[t := None][s[|s| - 1] := Some(t)], HeadOf(heads, l), s + [t], t);
  }

  lemma LinkedPop(link: Links, heads: map<WaitList, Option<Tid>>, ws: map<WaitList, seq<Tid>>, l: WaitList)
    requires Linked(link, heads, ws) && ListOf(ws, l) != []
    ensures var s := ListOf(ws, l);
      && s[0] < |link|
      && Linked(link[s[0] := None], heads[l := link[s[0]]], ws[l := s[1..]])
  {
    var s := ListOf(ws, l);
    ChainPop(link, HeadOf(heads, l), s);
    assert NoDuplicates(s[1..]);
    LinkedAfter(link, heads, ws, l, link[s[0] := None], link[s[0]], s[1..], s[0]);
  }

  lemma LinkedUnlink(link: Links, heads: map<WaitList, Option<Tid>>, ws: map<WaitList, seq<Tid>>, l: WaitList, k: nat)
    requires Linked(link, heads, ws) && 0 < k < |ListOf(ws, l)|
    ensures var s := ListOf(ws, l);
      && s[k] < |link| && s[k - 1] < |link|
      && Linked(link[s[k - 1] := link[s[k]]][s[k] := None], heads[l := HeadOf(heads, l)], ws[l := s[..k] + s[k + 1..]])
  {
    var s := ListOf(ws, l);
    ChainUnlink(link, HeadOf(heads, l), s, k);
    assert NoDuplicates(s[..k] + s[k + 1..]);
    LinkedAfter(link, heads, ws, l, link[s[k - 1] := link[s[k]]][s[k] := None], HeadOf(heads, l), s[..k] + s[k + 1..], s[k]);
  }
}
