/** The heap as a sequence of blocks in address order, and what malloc and free do to it (kernel/alloc.c).
  * Main result: a heap without adjacent free blocks is determined by its live blocks. */
module Blocks {
  datatype Block = Block(addr: nat, size: nat, live: bool)

  const HEADER: nat := 8
  const MIN_BLOCK: nat := 16

  predicate WellSized(b: Block) {
    b.size >= MIN_BLOCK && b.size % 8 == 0
  }

  /** The blocks partition [lo, hi). */
  ghost predicate Tiles(bs: seq<Block>, lo: nat, hi: nat) {
    if bs == [] then lo == hi
    else bs[0].addr == lo && WellSized(bs[0]) && Tiles(bs[1..], lo + bs[0].size, hi)
  }

  /** No two adjacent free blocks. */
  ghost predicate Coalesced(bs: seq<Block>) {
    forall i, j :: 0 <= i && j == i + 1 && j < |bs| ==> bs[i].live || bs[j].live
  }

  ghost predicate Canonical(bs: seq<Block>, lo: nat, hi: nat) {
    Tiles(bs, lo, hi) && Coalesced(bs)
  }

  /** The live blocks: address and size. */
  function Live(bs: seq<Block>): map<nat, nat> {
    if bs == [] then map[]
    else
      var rest := Live(bs[1..]);
      if bs[0].live then rest[bs[0].addr := bs[0].size] else rest
  }

  lemma {:induction false} TilesBounds(bs: seq<Block>, lo: nat, hi: nat)
    requires Tiles(bs, lo, hi)
    ensures lo <= hi && (bs != [] ==> lo + bs[0].size <= hi)
    ensures forall i :: 0 <= i < |bs| ==> lo <= bs[i].addr && bs[i].addr + bs[i].size <= hi && WellSized(bs[i]) && (bs[i].addr - lo) % 8 == 0
  {
    if bs != [] {
      TilesBounds(bs[1..], lo + bs[0].size, hi);
      forall i | 0 <= i < |bs|
        ensures lo <= bs[i].addr && bs[i].addr + bs[i].size <= hi && WellSized(bs[i]) && (bs[i].addr - lo) % 8 == 0
      {
        if i > 0 {
          assert bs[i] == bs[1..][i - 1];
        }
      }
    }
  }

  lemma {:induction false} TilesAppend(a: seq<Block>, b: seq<Block>, lo: nat, mid: nat, hi: nat)
    requires Tiles(a, lo, mid) && Tiles(b, mid, hi)
    ensures Tiles(a + b, lo, hi)
  {
    if a == [] {
      assert a + b == b;
    } else {
      assert (a + b)[1..] == a[1..] + b;
      TilesAppend(a[1..], b, lo + a[0].size, mid, hi);
    }
  }

  lemma {:induction false} TilesSplit(a: seq<Block>, b: seq<Block>, lo: nat, hi: nat) returns (mid: nat)
    requires Tiles(a + b, lo, hi)
    ensures Tiles(a, lo, mid) && Tiles(b, mid, hi)
    ensures b != [] ==> mid == b[0].addr
  {
    if a == [] {
      mid := lo;
      assert a + b == b;
    } else {
      assert (a + b)[1..] == a[1..] + b;
      mid := TilesSplit(a[1..], b, lo + a[0].size, hi);
    }
  }

  lemma {:induction false} LiveAppend(a: seq<Block>, b: seq<Block>, lo: nat, mid: nat, hi: nat)
    requires Tiles(a, lo, mid) && Tiles(b, mid, hi)
    ensures Live(a + b) == Live(a) + Live(b)
    ensures Live(a).Keys !! Live(b).Keys
  {
    LiveBounds(a, lo, mid);
    LiveBounds(b, mid, hi);
    if a == [] {
      assert a + b == b;
    } else {
      assert (a + b)[1..] == a[1..] + b;
      LiveAppend(a[1..], b, lo + a[0].size, mid, hi);
    }
  }

  lemma {:induction false} LiveBounds(bs: seq<Block>, lo: nat, hi: nat)
    requires Tiles(bs, lo, hi)
    ensures forall a :: a in Live(bs) ==> lo <= a < hi
    ensures bs != [] ==> forall a :: a in Live(bs) ==> a == lo || lo + bs[0].size <= a
    ensures bs != [] ==> (lo in Live(bs) <==> bs[0].live) && (bs[0].live ==> Live(bs)[lo] == bs[0].size)
    ensures bs != [] && bs[0].live ==> Live(bs[1..]) == Live(bs) - {lo}
  {
    TilesBounds(bs, lo, hi);
    if bs != [] {
      LiveBounds(bs[1..], lo + bs[0].size, hi);
    }
  }

  /** An address is live exactly when some live block starts there. */
  lemma {:induction false} LiveMeans(bs: seq<Block>, lo: nat, hi: nat, a: nat, n: nat)
    requires Tiles(bs, lo, hi)
    ensures (a in Live(bs) && Live(bs)[a] == n) <==> Block(a, n, true) in bs
  {
    LiveBounds(bs, lo, hi);
    TilesBounds(bs, lo, hi);
    if bs != [] {
      LiveMeans(bs[1..], lo + bs[0].size, hi, a, n);
      LiveBounds(bs[1..], lo + bs[0].size, hi);
      assert bs == [bs[0]] + bs[1..];
    }
  }

  // ---- A canonical heap is a function of its live blocks ----

  /** The first free block ends where the next live block starts, or at the end of the heap. */
  lemma FreeFirst(xs: seq<Block>, ys: seq<Block>, lo: nat, hi: nat)
    requires Canonical(xs, lo, hi) && Canonical(ys, lo, hi) && Live(xs) == Live(ys)
    requires xs != [] && ys != [] && !xs[0].live && !ys[0].live
    ensures xs[0].size >= ys[0].size
  {
    TilesBounds(xs, lo, hi);
    TilesBounds(ys, lo, hi);
    LiveBounds(xs, lo, hi);
    LiveBounds(ys, lo, hi);
    assert Tiles(xs[1..], lo + xs[0].size, hi);
    if |xs| > 1 {
      LiveBounds(xs[1..], lo + xs[0].size, hi);
      assert xs[1].live;
      assert lo + xs[0].size in Live(xs[1..]);
    }
  }

  /** Canonicity: two heaps over the same range with the same live blocks are the same heap, free list included. */
  lemma {:induction false} CanonicalIsUnique(xs: seq<Block>, ys: seq<Block>, lo: nat, hi: nat)
    requires Canonical(xs, lo, hi) && Canonical(ys, lo, hi)
    requires Live(xs) == Live(ys)
    ensures xs == ys
    decreases |xs|
  {
    TilesBounds(xs, lo, hi);
    TilesBounds(ys, lo, hi);
    if xs != [] && ys != [] {
      LiveBounds(xs, lo, hi);
      LiveBounds(ys, lo, hi);
      if !xs[0].live {
        FreeFirst(xs, ys, lo, hi);
        FreeFirst(ys, xs, lo, hi);
      }
      assert xs[0] == ys[0];
      CoalescedTail(xs);
      CoalescedTail(ys);
      CanonicalIsUnique(xs[1..], ys[1..], lo + xs[0].size, hi);
    }
  }

  lemma CoalescedTail(bs: seq<Block>)
    requires Coalesced(bs) && bs != []
    ensures Coalesced(bs[1..])
  {
  }

  lemma TwoBlocksMeanLive(bs: seq<Block>, lo: nat, hi: nat)
    requires Canonical(bs, lo, hi)
    ensures |bs| > 1 ==> Live(bs) != map[]
  {
    if |bs| > 1 {
      LiveBounds(bs, lo, hi);
      LiveBounds(bs[1..], lo + bs[0].size, hi);
      assert bs[0].live || bs[1].live;
      assert bs[1].live ==> lo + bs[0].size in Live(bs[1..]);
    }
  }

  /** With nothing live the heap is one free block, or empty. */
  lemma EmptyHeap(bs: seq<Block>, lo: nat, hi: nat)
    requires Canonical(bs, lo, hi) && Live(bs) == map[]
    ensures lo <= hi
    ensures bs == if lo == hi then [] else [Block(lo, hi - lo, false)]
  {
    TilesBounds(bs, lo, hi);
    TwoBlocksMeanLive(bs, lo, hi);
    if bs != [] {
      assert Tiles(bs[1..], lo + bs[0].size, hi);
      LiveBounds(bs, lo, hi);
    }
  }

  // ---- malloc ----

  /** What becomes of a free block of which `need` bytes are taken: split, or used whole when the rest is too small. */
  function Carve(b: Block, need: nat): seq<Block>
    requires need <= b.size
  {
    if b.size - need >= MIN_BLOCK then [Block(b.addr, need, true), Block(b.addr + need, b.size - need, false)]
    else [Block(b.addr, b.size, true)]
  }

  /** The size of the block that becomes live. */
  function Granted(b: Block, need: nat): nat
    requires need <= b.size
  {
    if b.size - need >= MIN_BLOCK then need else b.size
  }

  predicate Fits(b: Block, need: nat) {
    !b.live && b.size >= need
  }

  /** Index of the first free block that fits, |bs| when there is none. */
  function FirstFit(bs: seq<Block>, need: nat): (i: nat)
    ensures i <= |bs| && (i < |bs| ==> Fits(bs[i], need))
    ensures forall j :: 0 <= j < i ==> !Fits(bs[j], need)
  {
    if bs == [] then 0
    else if Fits(bs[0], need) then 0
    else 1 + FirstFit(bs[1..], need)
  }

  /** malloc: first fit. */
  function Allocate(bs: seq<Block>, need: nat): seq<Block> {
    var i := FirstFit(bs, need);
    if i == |bs| then bs else bs[..i] + Carve(bs[i], need) + bs[i + 1..]
  }

  lemma FirstFitMeans(bs: seq<Block>, need: nat)
    ensures FirstFit(bs, need) <= |bs|
    ensures FirstFit(bs, need) == |bs| ==> Allocate(bs, need) == bs
  {
  }

  lemma CarveTiles(b: Block, need: nat, hi: nat)
    requires Tiles([b], b.addr, hi) && WellSized(Block(0, need, true)) && need <= b.size
    ensures Tiles(Carve(b, need), b.addr, hi)
    ensures Live(Carve(b, need)) == map[b.addr := Granted(b, need)]
  {
    assert hi == b.addr + b.size by { assert Tiles([b][1..], b.addr + b.size, hi); }
    var c := Carve(b, need);
    if |c| == 2 {
      assert c[1..] == [c[1]] && c[1..][1..] == [];
      assert Tiles([c[1]], b.addr + need, hi);
      assert Live([c[1]][1..]) == map[];
      assert Live([c[1]]) == map[];
    } else {
      assert c[1..] == [];
    }
  }

  /** Replacing a stretch of blocks by another tiling of the same range. */
  lemma ReplaceMiddle(front: seq<Block>, old': seq<Block>, tail: seq<Block>, new': seq<Block>, lo: nat, hi: nat) returns (a: nat, b: nat)
    requires Tiles(front + old' + tail, lo, hi) && old' != []
    requires forall end :: Tiles(old', old'[0].addr, end) ==> Tiles(new', old'[0].addr, end)
    ensures a == old'[0].addr && Tiles(front, lo, a) && Tiles(old', a, b) && Tiles(tail, b, hi)
    ensures Tiles(front + new' + tail, lo, hi)
    ensures Live(front + old' + tail) == Live(front) + Live(old') + Live(tail)
    ensures Live(front + new' + tail) == Live(front) + Live(new') + Live(tail)
    ensures Live(front).Keys !! Live(old').Keys !! Live(tail).Keys
    ensures Live(front).Keys !! Live(new').Keys !! Live(tail).Keys
  {
    assert front + old' + tail == front + (old' + tail);
    a := TilesSplit(front, old' + tail, lo, hi);
    b := TilesSplit(old', tail, a, hi);
    TilesAppend(new', tail, a, b, hi);
    TilesAppend(front, new' + tail, lo, a, hi);
    assert front + new' + tail == front + (new' + tail);
    LiveAppend(old', tail, a, b, hi);
    LiveAppend(new', tail, a, b, hi);
    TilesAppend(old', tail, a, b, hi);
    LiveAppend(front, old' + tail, lo, a, hi);
    LiveAppend(front, new' + tail, lo, a, hi);
  }

  lemma GrantedMeans(b: Block, need: nat)
    requires WellSized(b) && Fits(b, need) && need % 8 == 0
    ensures Granted(b, need) == need || Granted(b, need) == need + 8
  {
  }

  lemma CarveAt(bs: seq<Block>, i: nat, need: nat, lo: nat, hi: nat)
    requires Tiles(bs, lo, hi) && i < |bs| && Fits(bs[i], need) && need >= MIN_BLOCK && need % 8 == 0
    ensures var bs' := bs[..i] + Carve(bs[i], need) + bs[i + 1..];
      Tiles(bs', lo, hi) && Live(bs') == Live(bs)[bs[i].addr := Granted(bs[i], need)]
  {
    hide Tiles, Live;
    var front, b, tail := bs[..i], bs[i], bs[i + 1..];
    assert bs == front + [b] + tail;
    forall end | Tiles([b], b.addr, end) ensures Tiles(Carve(b, need), b.addr, end) {
      CarveTiles(b, need, end);
    }
    var x, y := ReplaceMiddle(front, [b], tail, Carve(b, need), lo, hi);
    CarveTiles(b, need, y);
    LiveOfOne(b);
  }

  lemma LiveOfOne(b: Block)
    ensures Live([b]) == if b.live then map[b.addr := b.size] else map[]
  {
    assert [b][1..] == [];
  }

  /** malloc keeps the heap canonical and makes one block live: at the lowest address with a free block that fits,
    * with the requested size or, when the rest is too small to split, 8 bytes more. Nothing changes when none fits. */
  lemma AllocateIsFirstFit(bs: seq<Block>, need: nat, lo: nat, hi: nat)
    requires Canonical(bs, lo, hi) && need >= MIN_BLOCK && need % 8 == 0
    ensures Canonical(Allocate(bs, need), lo, hi)
    ensures var i := FirstFit(bs, need);
      if i == |bs| then (forall b :: b in bs ==> b.live || b.size < need) && Allocate(bs, need) == bs
      else
        && bs[i].addr !in Live(bs) && !bs[i].live && bs[i].size >= need
        && (Granted(bs[i], need) == need || Granted(bs[i], need) == need + 8)
        && Live(Allocate(bs, need)) == Live(bs)[bs[i].addr := Granted(bs[i], need)]
        && (forall b :: b in bs && !b.live && b.size >= need ==> bs[i].addr <= b.addr)
  {
    hide Tiles, Live, Granted, Carve, WellSized, Coalesced;
    var i := FirstFit(bs, need);
    if i < |bs| {
      TilesBounds(bs, lo, hi);
      CarveAt(bs, i, need, lo, hi);
      CarveCoalesced(bs, i, need);
      AddressesGrow(bs, lo, hi);
      LiveMeansFree(bs, lo, hi, i);
      GrantedMeans(bs[i], need);
    }
  }

  lemma CarveCoalesced(bs: seq<Block>, i: nat, need: nat)
    requires Coalesced(bs) && i < |bs| && Fits(bs[i], need)
    ensures Coalesced(bs[..i] + Carve(bs[i], need) + bs[i + 1..])
  {
  }

  lemma {:induction false} AddressesGrow(bs: seq<Block>, lo: nat, hi: nat)
    requires Tiles(bs, lo, hi)
    ensures forall i, j :: 0 <= i < j < |bs| ==> bs[i].addr + bs[i].size <= bs[j].addr
  {
    if bs != [] {
      AddressesGrow(bs[1..], lo + bs[0].size, hi);
      TilesBounds(bs[1..], lo + bs[0].size, hi);
      forall i, j | 0 <= i < j < |bs| ensures bs[i].addr + bs[i].size <= bs[j].addr {
        assert bs[j] == bs[1..][j - 1];
        if i > 0 {
          assert bs[i] == bs[1..][i - 1];
        }
      }
    }
  }

  lemma LiveMeansFree(bs: seq<Block>, lo: nat, hi: nat, i: nat)
    requires Tiles(bs, lo, hi) && i < |bs| && !bs[i].live
    ensures bs[i].addr !in Live(bs)
  {
    AddressesGrow(bs, lo, hi);
    TilesBounds(bs, lo, hi);
    var a := bs[i].addr;
    LiveMeans(bs, lo, hi, a, if a in Live(bs) then Live(bs)[a] else 0);
  }

  // ---- free ----

  /** The live block at `a` becomes free; nothing is merged yet. */
  function Mark(bs: seq<Block>, a: nat): seq<Block> {
    if bs == [] then []
    else if bs[0].live && bs[0].addr == a then [bs[0].(live := false)] + bs[1..]
    else [bs[0]] + Mark(bs[1..], a)
  }

  function Join(b: Block, rest: seq<Block>): seq<Block> {
    if rest != [] && !b.live && !rest[0].live then [Block(b.addr, b.size + rest[0].size, false)] + rest[1..]
    else [b] + rest
  }

  /** Every run of adjacent free blocks becomes one. */
  function Merge(bs: seq<Block>): seq<Block> {
    if bs == [] then [] else Join(bs[0], Merge(bs[1..]))
  }

  function Release(bs: seq<Block>, a: nat): seq<Block> {
    Merge(Mark(bs, a))
  }

  lemma {:induction false} MarkFrees(bs: seq<Block>, a: nat, lo: nat, hi: nat)
    requires Tiles(bs, lo, hi)
    ensures Tiles(Mark(bs, a), lo, hi) && Live(Mark(bs, a)) == Live(bs) - {a}
  {
    if bs != [] {
      LiveBounds(bs, lo, hi);
      var rest, next := bs[1..], lo + bs[0].size;
      LiveBounds(rest, next, hi);
      MarkFrees(rest, a, next, hi);
      assert Mark(bs, a)[1..] == if bs[0].live && bs[0].addr == a then rest else Mark(rest, a);
    }
  }

  lemma JoinKeeps(b: Block, rest: seq<Block>, hi: nat)
    requires WellSized(b) && Canonical(rest, b.addr + b.size, hi)
    ensures Canonical(Join(b, rest), b.addr, hi)
    ensures Live(Join(b, rest)) == if b.live then Live(rest)[b.addr := b.size] else Live(rest)
  {
    var j := Join(b, rest);
    assert ([b] + rest)[1..] == rest;
    if rest != [] && !b.live && !rest[0].live {
      assert j[1..] == rest[1..];
      assert forall i :: 0 < i < |j| ==> j[i] == rest[i];
    } else {
      assert forall i :: 0 < i < |j| ==> j[i] == rest[i - 1];
    }
  }

  lemma {:induction false} MergeKeeps(bs: seq<Block>, lo: nat, hi: nat)
    requires Tiles(bs, lo, hi)
    ensures Canonical(Merge(bs), lo, hi) && Live(Merge(bs)) == Live(bs)
  {
    if bs != [] {
      MergeKeeps(bs[1..], lo + bs[0].size, hi);
      JoinKeeps(bs[0], Merge(bs[1..]), hi);
    }
  }

  /** free keeps the heap canonical and makes exactly its block not live. */
  lemma ReleaseRemoves(bs: seq<Block>, a: nat, lo: nat, hi: nat)
    requires Tiles(bs, lo, hi)
    ensures Canonical(Release(bs, a), lo, hi) && Live(Release(bs, a)) == Live(bs) - {a}
  {
    MarkFrees(bs, a, lo, hi);
    MergeKeeps(Mark(bs, a), lo, hi);
  }

  // ---- Consequences of canonicity ----

  /** Frees commute: the order in which two blocks are freed leaves no trace. */
  lemma ReleasesCommute(bs: seq<Block>, a: nat, b: nat, lo: nat, hi: nat)
    requires Canonical(bs, lo, hi)
    ensures Release(Release(bs, a), b) == Release(Release(bs, b), a)
  {
    hide Tiles, Live, Release, Coalesced;
    ReleaseRemoves(bs, a, lo, hi);
    ReleaseRemoves(bs, b, lo, hi);
    ReleaseRemoves(Release(bs, a), b, lo, hi);
    ReleaseRemoves(Release(bs, b), a, lo, hi);
    assert Live(bs) - {a} - {b} == Live(bs) - {b} - {a};
    CanonicalIsUnique(Release(Release(bs, a), b), Release(Release(bs, b), a), lo, hi);
  }

  /** free undoes malloc: the heap and its free list are restored exactly. */
  lemma ReleaseUndoesAllocate(bs: seq<Block>, need: nat, lo: nat, hi: nat)
    requires Canonical(bs, lo, hi) && need >= MIN_BLOCK && need % 8 == 0
    requires FirstFit(bs, need) < |bs|
    ensures Release(Allocate(bs, need), bs[FirstFit(bs, need)].addr) == bs
  {
    hide Tiles, Live, Release, Coalesced, Allocate, Granted;
    var a := bs[FirstFit(bs, need)].addr;
    AllocateIsFirstFit(bs, need, lo, hi);
    ReleaseRemoves(Allocate(bs, need), a, lo, hi);
    assert Live(bs)[a := Granted(bs[FirstFit(bs, need)], need)] - {a} == Live(bs);
    CanonicalIsUnique(Release(Allocate(bs, need), a), bs, lo, hi);
  }

  /** [a, a + n) is a maximal stretch of the heap without live blocks. */
  ghost predicate IsGap(live: map<nat, nat>, lo: nat, hi: nat, a: nat, n: nat) {
    && n > 0 && lo <= a && a + n <= hi
    && (forall x :: x in live ==> x + live[x] <= a || a + n <= x)
    && (a == lo || exists x :: x in live && x + live[x] == a)
    && (a + n == hi || a + n in live)
  }

  lemma {:induction false} NextStarts(bs: seq<Block>, lo: nat, hi: nat, i: nat)
    requires Tiles(bs, lo, hi) && i < |bs|
    ensures bs[i].addr + bs[i].size == if i + 1 < |bs| then bs[i + 1].addr else hi
  {
    assert Tiles(bs[1..], lo + bs[0].size, hi);
    if i > 0 {
      NextStarts(bs[1..], lo + bs[0].size, hi, i - 1);
    }
  }

  /** The live blocks, by position. */
  lemma LiveAt(bs: seq<Block>, lo: nat, hi: nat)
    requires Tiles(bs, lo, hi)
    ensures forall i :: 0 <= i < |bs| && bs[i].live ==> bs[i].addr in Live(bs) && Live(bs)[bs[i].addr] == bs[i].size
    ensures forall x :: x in Live(bs) ==> Block(x, Live(bs)[x], true) in bs
  {
    forall i | 0 <= i < |bs| && bs[i].live ensures bs[i].addr in Live(bs) && Live(bs)[bs[i].addr] == bs[i].size {
      LiveMeans(bs, lo, hi, bs[i].addr, bs[i].size);
      assert bs[i] in bs;
    }
    forall x | x in Live(bs) ensures Block(x, Live(bs)[x], true) in bs {
      LiveMeans(bs, lo, hi, x, Live(bs)[x]);
    }
  }

  /** A free block overlaps no live one. */
  lemma FreeIsApart(bs: seq<Block>, lo: nat, hi: nat, k: nat, x: nat)
    requires Tiles(bs, lo, hi) && k < |bs| && !bs[k].live && x in Live(bs)
    ensures x + Live(bs)[x] <= bs[k].addr || bs[k].addr + bs[k].size <= x
  {
    hide Tiles, Live;
    LiveAt(bs, lo, hi);
    AddressesGrow(bs, lo, hi);
    var j :| 0 <= j < |bs| && bs[j] == Block(x, Live(bs)[x], true);
  }

  lemma FreeBlockIsGap(bs: seq<Block>, lo: nat, hi: nat, k: nat)
    requires Canonical(bs, lo, hi) && k < |bs| && !bs[k].live
    ensures IsGap(Live(bs), lo, hi, bs[k].addr, bs[k].size)
  {
    hide Tiles, Live;
    var live, b := Live(bs), bs[k];
    TilesBounds(bs, lo, hi);
    assert WellSized(b);
    LiveAt(bs, lo, hi);
    NextStarts(bs, lo, hi, k);
    FirstStarts(bs, lo, hi);
    forall x | x in live ensures x + live[x] <= b.addr || b.addr + b.size <= x {
      FreeIsApart(bs, lo, hi, k, x);
    }
    if k > 0 {
      NextStarts(bs, lo, hi, k - 1);
      var x := bs[k - 1].addr;
      assert x in live && x + live[x] == b.addr;
    }
    assert k + 1 < |bs| ==> bs[k + 1].live;
  }

  lemma FirstStarts(bs: seq<Block>, lo: nat, hi: nat)
    requires Tiles(bs, lo, hi)
    ensures if bs == [] then lo == hi else bs[0].addr == lo
  {
  }

  /** A block starts at every gap. */
  lemma GapIsBlock(bs: seq<Block>, lo: nat, hi: nat, a: nat, n: nat) returns (k: nat)
    requires Tiles(bs, lo, hi) && IsGap(Live(bs), lo, hi, a, n)
    ensures k < |bs| && bs[k].addr == a && !bs[k].live
  {
    hide Tiles, Live;
    var live := Live(bs);
    TilesBounds(bs, lo, hi);
    LiveAt(bs, lo, hi);
    FirstStarts(bs, lo, hi);
    if a == lo {
      k := 0;
    } else {
      var x :| x in live && x + live[x] == a;
      var j :| 0 <= j < |bs| && bs[j] == Block(x, live[x], true);
      NextStarts(bs, lo, hi, j);
      k := j + 1;
    }
    assert bs[k].live ==> a in live;
  }

  /** The free list is exactly the address-ordered list of the maximal gaps between live blocks. */
  lemma FreeBlocksAreTheGaps(bs: seq<Block>, lo: nat, hi: nat, a: nat, n: nat)
    requires Canonical(bs, lo, hi)
    ensures Block(a, n, false) in bs <==> IsGap(Live(bs), lo, hi, a, n)
  {
    hide Tiles, Live, Coalesced;
    if Block(a, n, false) in bs {
      var k :| 0 <= k < |bs| && bs[k] == Block(a, n, false);
      FreeBlockIsGap(bs, lo, hi, k);
    }
    if IsGap(Live(bs), lo, hi, a, n) {
      var k := GapIsBlock(bs, lo, hi, a, n);
      FreeBlockIsGap(bs, lo, hi, k);
      assert bs[k].size == n;
      assert bs[k] in bs;
    }
  }

  // ---- Histories ----

  datatype Op = Malloc(need: nat) | Free(addr: nat)

  predicate IsOp(op: Op) {
    op.Malloc? ==> op.need >= MIN_BLOCK && op.need % 8 == 0
  }

  function Apply(bs: seq<Block>, op: Op): seq<Block> {
    match op
    case Malloc(need) => Allocate(bs, need)
    case Free(a) => Release(bs, a)
  }

  function History(bs: seq<Block>, ops: seq<Op>): seq<Block>
    decreases |ops|
  {
    if ops == [] then bs else History(Apply(bs, ops[0]), ops[1..])
  }

  lemma {:induction false} HistoryKeeps(bs: seq<Block>, ops: seq<Op>, lo: nat, hi: nat)
    requires Canonical(bs, lo, hi) && forall op :: op in ops ==> IsOp(op)
    ensures Canonical(History(bs, ops), lo, hi)
    decreases |ops|
  {
    hide Tiles, Coalesced, Allocate, Release;
    if ops != [] {
      assert IsOp(ops[0]);
      match ops[0] {
        case Malloc(need) => AllocateIsFirstFit(bs, need, lo, hi);
        case Free(a) => ReleaseRemoves(bs, a, lo, hi);
      }
      HistoryKeeps(Apply(bs, ops[0]), ops[1..], lo, hi);
    }
  }

  /** Any two histories that leave the same blocks live leave the same heap; one that leaves none live restores
    * the initial single block. */
  lemma HistoriesLeaveNoTrace(bs: seq<Block>, ops: seq<Op>, ops': seq<Op>, lo: nat, hi: nat)
    requires Canonical(bs, lo, hi)
    requires forall op :: op in ops || op in ops' ==> IsOp(op)
    ensures Live(History(bs, ops)) == Live(History(bs, ops')) ==> History(bs, ops) == History(bs, ops')
    ensures lo < hi && Live(History(bs, ops)) == map[] ==> History(bs, ops) == [Block(lo, hi - lo, false)]
  {
    hide Tiles, Live, Coalesced, History;
    HistoryKeeps(bs, ops, lo, hi);
    HistoryKeeps(bs, ops', lo, hi);
    if Live(History(bs, ops)) == Live(History(bs, ops')) {
      CanonicalIsUnique(History(bs, ops), History(bs, ops'), lo, hi);
    }
    if lo < hi && Live(History(bs, ops)) == map[] {
      EmptyHeap(History(bs, ops), lo, hi);
    }
  }
}
