/** Ring buffers with one slot left free, as used by the work ring and by queues: slots head .. tail, circularly. */
module Rings {

  ghost predicate IsRing<T>(slots: seq<T>, head: nat, tail: nat) {
    head < |slots| && tail < |slots|
  }

  function Advance(i: nat, n: nat): nat
    requires n > 0
  {
    (i + 1) % n
  }

  /** The queued elements, oldest first. */
  function Contents<T>(slots: seq<T>, head: nat, tail: nat): (r: seq<T>)
    requires IsRing(slots, head, tail)
    ensures |r| < |slots|
  {
    if head <= tail then slots[head..tail] else slots[head..] + slots[..tail]
  }

  lemma AdvanceMeans(i: nat, n: nat)
    requires i < n
    ensures Advance(i, n) == if i + 1 < n then i + 1 else 0
  {
    if i + 1 < n {
      assert (i + 1) % n == i + 1;
    }
  }

  /** The ring is full exactly when the next tail would meet the head, and empty when the indices are equal. */
  lemma FullAndEmpty<T>(slots: seq<T>, head: nat, tail: nat)
    requires IsRing(slots, head, tail)
    ensures Advance(tail, |slots|) == head <==> |Contents(slots, head, tail)| == |slots| - 1
    ensures head == tail <==> Contents(slots, head, tail) == []
  {
    AdvanceMeans(tail, |slots|);
  }

  /** Storing at the tail appends. */
  lemma StoreAppends<T>(slots: seq<T>, head: nat, tail: nat, x: T)
    requires IsRing(slots, head, tail) && Advance(tail, |slots|) != head
    ensures var tail' := Advance(tail, |slots|);
      && IsRing(slots[tail := x], head, tail')
      && Contents(slots[tail := x], head, tail') == Contents(slots, head, tail) + [x]
  {
    AdvanceMeans(tail, |slots|);
  }

  /** Advancing the head drops the oldest element, which is the one at the head. */
  lemma AdvanceDrops<T>(slots: seq<T>, head: nat, tail: nat)
    requires IsRing(slots, head, tail) && head != tail
    ensures var head' := Advance(head, |slots|);
      && IsRing(slots, head', tail)
      && Contents(slots, head, tail) == [slots[head]] + Contents(slots, head', tail)
  {
    AdvanceMeans(head, |slots|);
  }
}
