/** The table of generation-tagged handles (kernel/kobject.c). */
module KObject {
  import opened Base

  const KOBJ_MAX: nat := 32
  const KOBJ_INVALID: nat := FAIL
  const TWO_16: nat := 0x1_0000

  type U16 = g: nat | g < TWO_16

  datatype Kind = Queue | Sem | Mutex
  datatype Object = Object(ptr: nat, kind: Kind)
  datatype Slot = Slot(ptr: nat, kind: Kind, inUse: bool, gen: U16)

  /** The next generation: 16 bits, and never 0. */
  function Bump(g: U16): U16 {
    var next := (g + 1) % TWO_16;
    if next == 0 then 1 else next
  }

  function Pack(gen: U16, i: nat): nat
    requires i < TWO_16
  {
    gen * TWO_16 + i
  }

  function Index(h: nat): nat {
    h % TWO_16
  }

  function Gen(h: nat): nat {
    h / TWO_16 % TWO_16
  }

  lemma Unpacks(gen: U16, i: nat)
    requires i < TWO_16
    ensures Gen(Pack(gen, i)) == gen && Index(Pack(gen, i)) == i
    ensures forall h: nat :: h < TWO_32 && Gen(h) == gen && Index(h) == i ==> h == Pack(gen, i)
  {
  }

  // ---- The three operations on the table as a value ----

  /** A table; a slot holds an object exactly when it is in use. */
  predicate IsTable(t: seq<Slot>) {
    |t| == KOBJ_MAX && forall i :: 0 <= i < KOBJ_MAX ==> (t[i].inUse <==> t[i].ptr != 0)
  }

  const EMPTY_SLOT := Slot(0, Queue, false, 0)

  function Empty(): (t: seq<Slot>)
    ensures IsTable(t)
  {
    seq(KOBJ_MAX, _ => EMPTY_SLOT)
  }

  /** The lowest slot that is not in use, |t| when all are. */
  function FreeSlot(t: seq<Slot>): (i: nat)
    ensures i <= |t| && (i < |t| ==> !t[i].inUse)
    ensures forall j :: 0 <= j < i ==> t[j].inUse
  {
    if t == [] || !t[0].inUse then 0 else 1 + FreeSlot(t[1..])
  }

  predicate CanAlloc(t: seq<Slot>, ptr: nat) {
    ptr != 0 && FreeSlot(t) < |t|
  }

  function Filled(t: seq<Slot>, ptr: nat, kind: Kind): seq<Slot> {
    if !CanAlloc(t, ptr) then t
    else t[FreeSlot(t) := Slot(ptr, kind, true, Bump(t[FreeSlot(t)].gen))]
  }

  function Issued(t: seq<Slot>, ptr: nat): nat
    requires IsTable(t)
  {
    if CanAlloc(t, ptr) then Pack(Bump(t[FreeSlot(t)].gen), FreeSlot(t)) else KOBJ_INVALID
  }

  /** A handle has the slot's index in its lower half and its generation, never 0, in its upper half; the slot is the lowest
    * that was not in use. */
  lemma HandleLayout(t: seq<Slot>, ptr: nat, kind: Kind)
    requires IsTable(t) && CanAlloc(t, ptr)
    ensures var h := Issued(t, ptr);
      var (i, gen) := (h % 0x1_0000, h / 0x1_0000);
      && i < 32 && !t[i].inUse && (forall j :: 0 <= j < i ==> t[j].inUse)
      && 0 < gen < 0x1_0000 && Filled(t, ptr, kind) == t[i := Slot(ptr, kind, true, gen)]
  {
    Unpacks(Bump(t[FreeSlot(t)].gen), FreeSlot(t));
  }

  /** The slot that a handle names at present. */
  predicate Names(t: seq<Slot>, h: nat)
    requires IsTable(t)
  {
    h != KOBJ_INVALID && Index(h) < KOBJ_MAX && t[Index(h)].inUse && t[Index(h)].gen == Gen(h)
  }

  function Lookup(t: seq<Slot>, h: nat, kind: Kind): nat
    requires IsTable(t)
  {
    if Names(t, h) && t[Index(h)].kind == kind then t[Index(h)].ptr else 0
  }

  function Freed(t: seq<Slot>, h: nat): seq<Slot>
    requires IsTable(t)
  {
    if Names(t, h) then t[Index(h) := Slot(0, Queue, false, Bump(t[Index(h)].gen))] else t
  }

  // ---- Between frees the table is a map from handles to objects ----

  /** The handles that the table accepts, each with its object. */
  function View(t: seq<Slot>): map<nat, Object>
    requires IsTable(t)
  {
    map h | h in (set i | 0 <= i < KOBJ_MAX && t[i].inUse :: Pack(t[i].gen, i)) && Index(h) < KOBJ_MAX ::
      Object(t[Index(h)].ptr, t[Index(h)].kind)
  }

  lemma ViewMeans(t: seq<Slot>, h: nat)
    requires IsTable(t) && h < TWO_32
    ensures h in View(t) <==> Names(t, h)
    ensures h in View(t) ==> View(t)[h] == Object(t[Index(h)].ptr, t[Index(h)].kind) && View(t)[h].ptr != 0
  {
    var handles := set i | 0 <= i < KOBJ_MAX && t[i].inUse :: Pack(t[i].gen, i);
    if h in View(t) {
      var i :| 0 <= i < KOBJ_MAX && t[i].inUse && h == Pack(t[i].gen, i);
      Unpacks(t[i].gen, i);
    }
    if Names(t, h) {
      var i := Index(h);
      Unpacks(t[i].gen, i);
      assert Pack(t[i].gen, i) in handles;
    }
  }

  lemma ViewRange(t: seq<Slot>)
    requires IsTable(t)
    ensures forall h :: h in View(t) ==> h < TWO_32
  {
    forall h | h in View(t) ensures h < TWO_32 {
      var i :| 0 <= i < KOBJ_MAX && t[i].inUse && h == Pack(t[i].gen, i);
    }
  }

  /** k_obj_alloc issues a new handle, never the invalid one, and adds exactly its object; it fails, changing nothing,
    * exactly when the pointer is NULL or every slot is in use. */
  lemma AllocAddsOne(t: seq<Slot>, ptr: nat, kind: Kind)
    requires IsTable(t)
    ensures var h := Issued(t, ptr);
      if ptr != 0 && exists i :: 0 <= i < KOBJ_MAX && !t[i].inUse then
        h < KOBJ_INVALID && h !in View(t) && View(Filled(t, ptr, kind)) == View(t)[h := Object(ptr, kind)]
      else h == KOBJ_INVALID && Filled(t, ptr, kind) == t
  {
    hide View;
    var h, t' := Issued(t, ptr), Filled(t, ptr, kind);
    if CanAlloc(t, ptr) {
      var i := FreeSlot(t);
      Unpacks(Bump(t[i].gen), i);
      ViewRange(t);
      ViewRange(t');
      ViewMeans(t, h);
      forall x: nat | x < TWO_32 ensures x in View(t') <==> x == h || x in View(t)
        ensures x in View(t') ==> View(t')[x] == if x == h then Object(ptr, kind) else View(t)[x]
      {
        ViewMeans(t, x);
        ViewMeans(t', x);
        Unpacks(t'[i].gen, i);
      }
      assert View(t') == View(t)[h := Object(ptr, kind)];
    }
  }

  /** k_obj_get finds exactly the objects of the map, of the kind asked for. */
  lemma GetLooksUp(t: seq<Slot>, h: nat, kind: Kind)
    requires IsTable(t) && h < TWO_32
    ensures Lookup(t, h, kind) == if h in View(t) && View(t)[h].kind == kind then View(t)[h].ptr else 0
  {
    hide View;
    ViewMeans(t, h);
  }

  /** k_obj_free removes exactly its handle; any other number is ignored. */
  lemma FreeRemovesOne(t: seq<Slot>, h: nat)
    requires IsTable(t) && h < TWO_32
    ensures View(Freed(t, h)) == View(t) - {h}
    ensures h !in View(t) ==> Freed(t, h) == t
  {
    hide View;
    var t' := Freed(t, h);
    ViewMeans(t, h);
    ViewRange(t);
    ViewRange(t');
    forall x: nat | x < TWO_32 ensures x in View(t') <==> x in View(t) && x != h
      ensures x in View(t') ==> View(t')[x] == View(t)[x]
    {
      ViewMeans(t, x);
      ViewMeans(t', x);
      ViewMeans(t, h);
      if Index(x) == Index(h) && Gen(x) == Gen(h) {
        SameHandle(x, h);
      }
    }
  }

  lemma SameHandle(x: nat, y: nat)
    requires x < TWO_32 && y < TWO_32 && Index(x) == Index(y) && Gen(x) == Gen(y)
    ensures x == y
  {
  }

  // ---- Histories ----

  datatype Op = Alloc(ptr: nat, kind: Kind) | Free(handle: nat)

  function Apply(t: seq<Slot>, op: Op): (r: seq<Slot>)
    requires IsTable(t)
    ensures IsTable(r)
  {
    match op
    case Alloc(ptr, kind) => Filled(t, ptr, kind)
    case Free(h) => Freed(t, h)
  }

  function Run(t: seq<Slot>, ops: seq<Op>): (r: seq<Slot>)
    requires IsTable(t)
    ensures IsTable(r)
    decreases |ops|
  {
    if ops == [] then t else Run(Apply(t, ops[0]), ops[1..])
  }

  /** The operation allocates slot `i`. */
  predicate Takes(t: seq<Slot>, op: Op, i: nat) {
    op.Alloc? && CanAlloc(t, op.ptr) && FreeSlot(t) == i
  }

  /** How often a history allocates slot `i`. */
  function Allocs(t: seq<Slot>, ops: seq<Op>, i: nat): nat
    requires IsTable(t)
    decreases |ops|
  {
    if ops == [] then 0
    else (if Takes(t, ops[0], i) then 1 else 0) + Allocs(Apply(t, ops[0]), ops[1..], i)
  }

  /** The generation of a slot that was allocated n times: it moves through 1..65535, once at each allocation and once
    * at each free. */
  function GenOf(n: nat, inUse: bool): (g: nat)
    ensures g < TWO_16
  {
    if n == 0 then 0
    else if inUse then (2 * n - 2) % 65535 + 1
    else (2 * n - 1) % 65535 + 1
  }

  predicate Counted(s: Slot, n: nat) {
    (s.inUse ==> n > 0) && s.gen == GenOf(n, s.inUse)
  }

  lemma BumpCounts(n: nat)
    ensures Bump(GenOf(n, false)) == GenOf(n + 1, true)
    ensures n > 0 ==> Bump(GenOf(n, true)) == GenOf(n, false)
  {
    hide Bump;
    if n > 0 {
      BumpFollows(2 * n - 2);
      BumpFollows(2 * n - 1);
    } else {
      BumpZero();
    }
  }

  lemma BumpZero()
    ensures Bump(0) == 1
  {
  }

  /** The generations after 0 run through 1..65535 in a circle. */
  lemma BumpFollows(k: nat)
    ensures Bump(k % 65535 + 1) == (k + 1) % 65535 + 1
  {
    var r := k % 65535;
    assert (k + 1) % 65535 == if r == 65534 then 0 else r + 1;
  }

  /** The generation is a function of the number of allocations, whatever the history. */
  lemma {:induction false} GenerationsCount(t: seq<Slot>, ops: seq<Op>, i: nat, n: nat)
    requires IsTable(t) && i < KOBJ_MAX && Counted(t[i], n)
    ensures Counted(Run(t, ops)[i], n + Allocs(t, ops, i))
    decreases |ops|
  {
    if ops != [] {
      BumpCounts(n);
      GenerationsCount(Apply(t, ops[0]), ops[1..], i, n + if Takes(t, ops[0], i) then 1 else 0);
    }
  }

  /** Two allocations of a slot get the same generation exactly when 65535 divides the number between them. */
  lemma GenerationsRecur(m: nat, n: nat)
    requires 0 < m <= n
    ensures GenOf(m, true) == GenOf(n, true) <==> (n - m) % 65535 == 0
  {
    SameRemainder(2 * m - 2, 2 * n - 2);
    DoubleRemainder(n - m);
  }

  lemma SameRemainder(a: nat, b: nat)
    requires a <= b
    ensures a % 65535 == b % 65535 <==> (b - a) % 65535 == 0
  {
  }

  /** 65535 is odd. */
  lemma DoubleRemainder(d: nat)
    ensures (2 * d) % 65535 == 0 <==> d % 65535 == 0
  {
  }

  lemma EmptyCounted(i: nat)
    requires i < KOBJ_MAX
    ensures Counted(Empty()[i], 0)
  {
  }

  /** A handle issued after any history is accepted, after any further history, exactly when its slot is in use by an
    * object of the kind asked for and the slot has been allocated a multiple of 65535 times since. */
  lemma IssuedHandleIsAccepted(before: seq<Op>, ptr: nat, kind: Kind, since: seq<Op>, asked: Kind)
    requires CanAlloc(Run(Empty(), before), ptr)
    ensures var t := Run(Empty(), before);
      var h := Issued(t, ptr);
      var issued := Filled(t, ptr, kind);
      var now := Run(issued, since);
      Index(h) < KOBJ_MAX && IsTable(issued) &&
      (Lookup(now, h, asked) != 0 <==>
        now[Index(h)].inUse && now[Index(h)].kind == asked && Allocs(issued, since, Index(h)) % 65535 == 0)
  {
    var t := Run(Empty(), before);
    var i, h := FreeSlot(t), Issued(t, ptr);
    var issued := Filled(t, ptr, kind);
    var n := Allocs(Empty(), before, i);
    Unpacks(Bump(t[i].gen), i);
    EmptyCounted(i);
    GenerationsCount(Empty(), before, i, 0);
    BumpCounts(n);
    GenerationsCount(issued, since, i, n + 1);
    GenerationsRecur(n + 1, n + 1 + Allocs(issued, since, i));
  }

  /** A slot that is not in use stays so until it is allocated. */
  lemma {:induction false} UnusedUntilAllocated(t: seq<Slot>, ops: seq<Op>, i: nat)
    requires IsTable(t) && i < KOBJ_MAX && !t[i].inUse && Allocs(t, ops, i) == 0
    ensures !Run(t, ops)[i].inUse
    decreases |ops|
  {
    if ops != [] {
      UnusedUntilAllocated(Apply(t, ops[0]), ops[1..], i);
    }
  }

  lemma {:induction false} RunAppend(t: seq<Slot>, a: seq<Op>, b: seq<Op>, i: nat)
    requires IsTable(t)
    ensures Run(t, a + b) == Run(Run(t, a), b) && Allocs(t, a + b, i) == Allocs(t, a, i) + Allocs(Run(t, a), b, i)
    decreases |a|
  {
    if a == [] {
      assert a + b == b;
    } else {
      assert (a + b)[1..] == a[1..] + b;
      RunAppend(Apply(t, a[0]), a[1..], b, i);
    }
  }

  lemma RunFree(t: seq<Slot>, h: nat, since: seq<Op>, i: nat)
    requires IsTable(t)
    ensures Run(t, [Free(h)] + since) == Run(Freed(t, h), since)
    ensures Allocs(t, [Free(h)] + since, i) == Allocs(Freed(t, h), since, i)
  {
    assert ([Free(h)] + since)[1..] == since;
  }

  lemma NamedIsFound(t: seq<Slot>, h: nat)
    requires IsTable(t) && Names(t, h)
    ensures Lookup(t, h, t[Index(h)].kind) != 0
  {
  }

  /** A freed handle stays rejected until its slot has been allocated again 65535 times, or a further multiple of that:
    * then, and only then, it names the object that is in the slot. `held` is what happened between issue and free. */
  lemma FreedHandleIsAccepted(before: seq<Op>, ptr: nat, kind: Kind, held: seq<Op>, since: seq<Op>, asked: Kind)
    requires CanAlloc(Run(Empty(), before), ptr)
    requires var t := Run(Empty(), before); Names(Run(Filled(t, ptr, kind), held), Issued(t, ptr))
    ensures var t := Run(Empty(), before);
      var h := Issued(t, ptr);
      var freed := Freed(Run(Filled(t, ptr, kind), held), h);
      var now := Run(freed, since);
      var again := Allocs(freed, since, Index(h));
      Index(h) < KOBJ_MAX &&
      (Lookup(now, h, asked) != 0 <==>
        now[Index(h)].inUse && now[Index(h)].kind == asked && again >= 65535 && again % 65535 == 0)
  {
    hide Run, Allocs, Lookup;
    var t := Run(Empty(), before);
    var h := Issued(t, ptr);
    var i := Index(h);
    Unpacks(Bump(t[FreeSlot(t)].gen), FreeSlot(t));
    var issued := Filled(t, ptr, kind);
    var last := Run(issued, held);
    var freed := Freed(last, h);
    IssuedHandleIsAccepted(before, ptr, kind, held, last[i].kind);
    NamedIsFound(last, h);
    IssuedHandleIsAccepted(before, ptr, kind, held + ([Free(h)] + since), asked);
    RunAppend(issued, held, [Free(h)] + since, i);
    RunFree(last, h, since, i);
    if Allocs(freed, since, i) == 0 {
      UnusedUntilAllocated(freed, since, i);
    }
  }

  /** n times over: an object is created and destroyed again. */
  function Churn(t: seq<Slot>, n: nat): seq<Op>
    requires IsTable(t)
    decreases n
  {
    if n == 0 then []
    else [Alloc(1, Queue), Free(Issued(t, 1))] + Churn(Freed(Filled(t, 1, Queue), Issued(t, 1)), n - 1)
  }

  /** Creating and destroying an object uses the same slot each time. */
  lemma {:induction false} ChurnCounts(t: seq<Slot>, n: nat)
    requires IsTable(t) && !t[0].inUse
    ensures Allocs(t, Churn(t, n) + [Alloc(1, Queue)], 0) == n + 1
    ensures var now := Run(t, Churn(t, n) + [Alloc(1, Queue)])[0]; now.inUse && now.kind == Queue
    decreases n
  {
    var ops := Churn(t, n) + [Alloc(1, Queue)];
    if n == 0 {
      assert ops == [Alloc(1, Queue)] && ops[1..] == [];
    } else {
      var t1 := Filled(t, 1, Queue);
      var t2 := Freed(t1, Issued(t, 1));
      Unpacks(t1[0].gen, 0);
      assert ops[0] == Alloc(1, Queue) && ops[1..][0] == Free(Issued(t, 1));
      assert ops[1..][1..] == Churn(t2, n - 1) + [Alloc(1, Queue)];
      ChurnCounts(t2, n - 1);
    }
  }

  /** The bound is reached: the first handle of all, freed, is accepted again after 65535 further allocations. */
  lemma FreedHandleRecurs()
    ensures var h := Issued(Empty(), 1);
      var freed := Freed(Filled(Empty(), 1, Queue), h);
      Lookup(Run(freed, Churn(freed, 65534) + [Alloc(1, Queue)]), h, Queue) != 0
  {
    hide Churn;
    var h, t := Issued(Empty(), 1), Filled(Empty(), 1, Queue);
    var freed := Freed(t, h);
    var since := Churn(freed, 65534) + [Alloc(1, Queue)];
    assert Run(Empty(), []) == Empty() && Run(t, []) == t;
    Unpacks(Bump(0), 0);
    ChurnCounts(freed, 65534);
    FreedHandleIsAccepted([], 1, Queue, [], since, Queue);
  }

  // ---- The table in memory ----

  class KObjects {
    const table: array<Slot>

    ghost predicate Valid()
      reads this, table
    {
      IsTable(table[..])
    }

    constructor ()
      ensures Valid() && fresh(table) && table[..] == Empty()
    {
      table := new Slot[KOBJ_MAX](_ => EMPTY_SLOT);
      new;
      assert table[..] == Empty();
    }

    method Alloc(ptr: nat, kind: Kind) returns (h: nat)
      requires Valid()
      modifies table
      ensures Valid() && table[..] == Filled(old(table[..]), ptr, kind) && h == Issued(old(table[..]), ptr)
    {
      if ptr == 0 {
        return KOBJ_INVALID;
      }
      var i := 0;
      while i < KOBJ_MAX
        invariant 0 <= i <= KOBJ_MAX && table[..] == old(table[..])
        invariant forall j :: 0 <= j < i ==> table[..][j].inUse
      {
        if !table[i].inUse {
          FreeSlotIs(table[..], i);
          var gen := (table[i].gen + 1) % TWO_16;
          if gen == 0 {
            gen := 1;
          }
          table[i] := Slot(ptr, kind, true, gen);
          return Pack(gen, i);
        }
        i := i + 1;
      }
      FreeSlotIs(table[..], i);
      return KOBJ_INVALID;
    }

    method Get(h: nat, kind: Kind) returns (ptr: nat)
      requires Valid() && h < TWO_32
      ensures ptr == Lookup(table[..], h, kind)
    {
      if h == KOBJ_INVALID || Index(h) >= KOBJ_MAX {
        return 0;
      }
      var slot := table[Index(h)];
      if !slot.inUse || slot.gen != Gen(h) || slot.kind != kind {
        return 0;
      }
      return slot.ptr;
    }

    method Free(h: nat)
      requires Valid() && h < TWO_32
      modifies table
      ensures Valid() && table[..] == Freed(old(table[..]), h)
    {
      if h == KOBJ_INVALID || Index(h) >= KOBJ_MAX {
        return;
      }
      var i := Index(h);
      if table[i].inUse && table[i].gen == Gen(h) {
        var gen := (table[i].gen + 1) % TWO_16;
        if gen == 0 {
          gen := 1;
        }
        table[i] := Slot(0, Queue, false, gen);
      }
    }
  }

  lemma FreeSlotIs(t: seq<Slot>, i: nat)
    requires i <= |t| && (forall j :: 0 <= j < i ==> t[j].inUse) && (i < |t| ==> !t[i].inUse)
    ensures FreeSlot(t) == i
  {
  }
}
