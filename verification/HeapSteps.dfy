/** What the header writes of malloc and free do to the heap in memory. */
module HeapSteps {
  import opened Base
  import opened Blocks
  import opened HeapMemory

  // ---- A hole in the heap, and what may be written there ----

  /** The blocks before and after the bytes [start, end). */
  datatype Hole = Hole(front: seq<Block>, start: nat, end: nat, tail: seq<Block>)

  /** Outside the hole the heap is laid out; the free list reaches the hole at `p` and goes on after it at `q`. */
  ghost predicate Around(mem: seq<Word>, lo: nat, hi: nat, h: nat, g: Hole, p: nat, q: nat) {
    && 0 < lo <= g.start <= g.end <= hi < TWO_32
    && (g.start - lo) % 8 == 0 && (g.end - lo) % 8 == 0 && (hi - lo) % 8 == 0
    && 4 * |mem| == hi - lo
    && Tiles(g.front, lo, g.start) && Tiles(g.tail, g.end, hi)
    && Seg(mem, lo, h, g.front, p) && Seg(mem, lo, q, g.tail, 0)
  }

  lemma AlignedEnd(bs: seq<Block>, lo: nat, start: nat, end: nat)
    requires Tiles(bs, start, end) && lo <= start && (start - lo) % 8 == 0
    ensures start <= end && (end - lo) % 8 == 0
    decreases |bs|
  {
    if bs != [] {
      AlignedEnd(bs[1..], lo, start + bs[0].size, end);
    }
  }

  /** Taking the blocks `middle` out of the heap. */
  lemma Dig(mem: seq<Word>, lo: nat, hi: nat, h: nat, front: seq<Block>, middle: seq<Block>, tail: seq<Block>) returns (g: Hole, p: nat, q: nat)
    requires Laid(mem, lo, hi, h, front + middle + tail)
    ensures g.front == front && g.tail == tail && Around(mem, lo, hi, h, g, p, q)
    ensures Tiles(middle, g.start, g.end) && Seg(mem, lo, p, middle, q)
    ensures middle != [] ==> g.start == middle[0].addr
  {
    hide Tiles, Seg;
    assert front + middle + tail == front + (middle + tail);
    var start := TilesSplit(front, middle + tail, lo, hi);
    var end := TilesSplit(middle, tail, start, hi);
    AlignedEnd(front, lo, lo, start);
    AlignedEnd(middle, lo, start, end);
    TilesBounds(tail, end, hi);
    TilesFirst(middle, start, end);
    p := SegSplit(mem, lo, h, front, middle + tail, 0);
    q := SegSplit(mem, lo, p, middle, tail, 0);
    g := Hole(front, start, end, tail);
  }

  lemma TilesFirst(bs: seq<Block>, lo: nat, hi: nat)
    requires Tiles(bs, lo, hi)
    ensures bs != [] ==> bs[0].addr == lo
  {
  }

  /** Putting other blocks into the hole. */
  lemma Fill(mem: seq<Word>, lo: nat, hi: nat, h: nat, g: Hole, p: nat, q: nat, middle: seq<Block>)
    requires Around(mem, lo, hi, h, g, p, q) && Tiles(middle, g.start, g.end) && Seg(mem, lo, p, middle, q)
    ensures Laid(mem, lo, hi, h, g.front + middle + g.tail)
  {
    hide Tiles, Seg;
    TilesAppend(g.front, middle, lo, g.start, g.end);
    TilesAppend(g.front + middle, g.tail, lo, g.end, hi);
    SegAppend(mem, lo, h, g.front, p, middle, q);
    SegAppend(mem, lo, h, g.front + middle, q, g.tail, 0);
  }

  /** A write inside the hole. */
  lemma WriteInside(mem: seq<Word>, lo: nat, hi: nat, h: nat, g: Hole, p: nat, q: nat, j: nat, x: Word)
    requires Around(mem, lo, hi, h, g, p, q) && g.start <= lo + 4 * j < g.end
    ensures j < |mem| && Around(mem[j := x], lo, hi, h, g, p, q)
  {
    hide Tiles, Seg, Outside;
    OutsideRange(g.front, lo, lo, g.start, j);
    OutsideRange(g.tail, lo, g.end, hi, j);
    SegFrame(mem, lo, h, g.front, p, j, x);
    SegFrame(mem, lo, q, g.tail, 0, j, x);
  }

  lemma WApart(lo: nat, a: nat, b: nat)
    requires lo <= a && a + HEADER <= b && (a - lo) % 8 == 0 && (b - lo) % 8 == 0
    ensures W(lo, a) + 1 < W(lo, b)
  {
  }

  /** Redirecting the free list before the hole: the link of the last free block there, or the head. */
  lemma RelinkBefore(mem: seq<Word>, lo: nat, hi: nat, h: nat, g: Hole, p: nat, q: nat, x: Word)
    requires Around(mem, lo, hi, h, g, p, q)
    ensures var prev := LastFree(g.front);
      && (prev != 0 ==> IsHeader(mem, lo, prev) && prev + MIN_BLOCK <= g.start)
      && Around(Relinked(mem, lo, prev, x), lo, hi, if prev != 0 then h else x, g, x, q)
  {
    hide Tiles, Seg, Outside;
    var prev := LastFree(g.front);
    Relink(mem, lo, h, g.front, p, x, lo, g.start);
    if prev != 0 {
      WExact(lo, prev);
      OutsideRange(g.tail, lo, g.end, hi, W(lo, prev) + 1);
      SegFrame(mem, lo, q, g.tail, 0, W(lo, prev) + 1, x);
    }
  }

  // ---- One or two blocks in memory ----

  lemma OneBlock(mem: seq<Word>, lo: nat, b: Block, p: nat, q: nat)
    ensures Seg(mem, lo, p, [b], q) <==>
      && IsHeader(mem, lo, b.addr) && mem[W(lo, b.addr)] == SizeWord(b)
      && if b.live then p == q else p == b.addr && q == mem[W(lo, b.addr) + 1]
  {
    assert [b][1..] == [];
  }

  lemma OneTile(b: Block, lo: nat, hi: nat)
    ensures Tiles([b], lo, hi) <==> b.addr == lo && WellSized(b) && hi == lo + b.size
  {
    assert [b][1..] == [];
  }

  lemma TwoBlocks(mem: seq<Word>, lo: nat, b: Block, c: Block, p: nat, q: nat) returns (m: nat)
    requires Seg(mem, lo, p, [b, c], q)
    ensures Seg(mem, lo, p, [b], m) && Seg(mem, lo, m, [c], q)
  {
    m := SegSplit(mem, lo, p, [b], [c], q);
    assert [b, c] == [b] + [c];
  }

  // ---- malloc ----

  /** The whole free block `b` becomes live and leaves the free list. */
  function TakenWhole(mem: seq<Word>, lo: nat, prev: nat, b: Block): (r: seq<Word>)
    requires IsHeader(mem, lo, b.addr) && (prev != 0 ==> IsHeader(mem, lo, prev)) && b.size + 1 < TWO_32
  {
    Relinked(mem, lo, prev, mem[W(lo, b.addr) + 1])[W(lo, b.addr) := b.size + 1]
  }

  /** The first `need` bytes of `b` become live and the rest takes its place in the free list. */
  function TakenSplit(mem: seq<Word>, lo: nat, prev: nat, b: Block, need: nat): (r: seq<Word>)
    requires IsHeader(mem, lo, b.addr) && IsHeader(mem, lo, b.addr + need) && (prev != 0 ==> IsHeader(mem, lo, prev))
    requires need <= b.size && need + 1 < TWO_32 && b.addr + need < TWO_32 && b.size < TWO_32
  {
    var n := b.addr + need;
    var withRest := mem[W(lo, n) := b.size - need][W(lo, n) + 1 := mem[W(lo, b.addr) + 1]];
    Relinked(withRest, lo, prev, n)[W(lo, b.addr) := need + 1]
  }

  /** A free block of the heap: where it is and what its header holds. */
  lemma FreeBlock(mem: seq<Word>, lo: nat, hi: nat, h: nat, bs: seq<Block>, i: nat) returns (g: Hole)
    requires Laid(mem, lo, hi, h, bs) && i < |bs| && !bs[i].live
    ensures bs == bs[..i] + [bs[i]] + bs[i + 1..]
    ensures WellSized(bs[i]) && IsHeader(mem, lo, bs[i].addr) && mem[W(lo, bs[i].addr)] == bs[i].size
    ensures g == Hole(bs[..i], bs[i].addr, bs[i].addr + bs[i].size, bs[i + 1..])
    ensures Around(mem, lo, hi, h, g, bs[i].addr, mem[W(lo, bs[i].addr) + 1])
  {
    hide Tiles, Seg, Around, IsHeader;
    var p, q;
    assert bs == bs[..i] + [bs[i]] + bs[i + 1..];
    g, p, q := Dig(mem, lo, hi, h, bs[..i], [bs[i]], bs[i + 1..]);
    OneBlock(mem, lo, bs[i], p, q);
    OneTile(bs[i], g.start, g.end);
  }

  lemma PrevIsHeader(mem: seq<Word>, lo: nat, hi: nat, h: nat, bs: seq<Block>, i: nat)
    requires Laid(mem, lo, hi, h, bs) && i < |bs| && !bs[i].live
    ensures var prev := LastFree(bs[..i]); prev != 0 ==> IsHeader(mem, lo, prev) && prev + MIN_BLOCK <= bs[i].addr
  {
    hide Tiles, Seg, Around;
    var g := FreeBlock(mem, lo, hi, h, bs, i);
    RelinkBefore(mem, lo, hi, h, g, bs[i].addr, mem[W(lo, bs[i].addr) + 1], 0);
  }

  lemma HeaderFits(mem: seq<Word>, lo: nat, hi: nat, h: nat, g: Hole, p: nat, q: nat)
    requires Around(mem, lo, hi, h, g, p, q)
    ensures g.end < TWO_32 && g.end - g.start < TWO_32 - 1
    ensures forall a :: g.start <= a && a + 8 <= g.end && (a - lo) % 8 == 0 ==> IsHeader(mem, lo, a)
  {
  }

  lemma WholeKeeps(mem: seq<Word>, lo: nat, hi: nat, h: nat, bs: seq<Block>, i: nat)
    requires Laid(mem, lo, hi, h, bs) && i < |bs| && !bs[i].live
    ensures var (b, prev) := (bs[i], LastFree(bs[..i]));
      && IsHeader(mem, lo, b.addr) && (prev != 0 ==> IsHeader(mem, lo, prev)) && b.size + 1 < TWO_32
      && Laid(TakenWhole(mem, lo, prev, b), lo, hi, if prev != 0 then h else mem[W(lo, b.addr) + 1],
              bs[..i] + [Block(b.addr, b.size, true)] + bs[i + 1..])
  {
    hide Tiles, Seg, Around, LastFree;
    var g := FreeBlock(mem, lo, hi, h, bs, i);
    var b, next, prev := bs[i], mem[W(lo, bs[i].addr) + 1], LastFree(bs[..i]);
    var new' := Block(b.addr, b.size, true);
    WExact(lo, b.addr);
    PrevIsHeader(mem, lo, hi, h, bs, i);
    RelinkBefore(mem, lo, hi, h, g, b.addr, next, next);
    var h' := if prev != 0 then h else next;
    var m1 := Relinked(mem, lo, prev, next);
    HeaderFits(m1, lo, hi, h', g, next, next);
    WriteInside(m1, lo, hi, h', g, next, next, W(lo, b.addr), b.size + 1);
    var m2 := TakenWhole(mem, lo, prev, b);
    OneBlock(m2, lo, new', next, next);
    OneTile(b, g.start, g.end);
    OneTile(new', g.start, g.end);
    Fill(m2, lo, hi, h', g, next, next, [new']);
  }

  lemma SplitKeeps(mem: seq<Word>, lo: nat, hi: nat, h: nat, bs: seq<Block>, i: nat, need: nat)
    requires Laid(mem, lo, hi, h, bs) && i < |bs| && !bs[i].live
    requires MIN_BLOCK <= need && need % 8 == 0 && need + MIN_BLOCK <= bs[i].size
    ensures var (b, prev) := (bs[i], LastFree(bs[..i]));
      && IsHeader(mem, lo, b.addr) && IsHeader(mem, lo, b.addr + need) && (prev != 0 ==> IsHeader(mem, lo, prev))
      && need + 1 < TWO_32 && b.addr + need < TWO_32 && b.size < TWO_32
      && Laid(TakenSplit(mem, lo, prev, b, need), lo, hi, if prev != 0 then h else b.addr + need,
              bs[..i] + [Block(b.addr, need, true), Block(b.addr + need, b.size - need, false)] + bs[i + 1..])
  {
    hide Tiles, Seg, Around, LastFree, W;
    var g := FreeBlock(mem, lo, hi, h, bs, i);
    var b, next, prev := bs[i], mem[W(lo, bs[i].addr) + 1], LastFree(bs[..i]);
    var n := b.addr + need;
    PrevIsHeader(mem, lo, hi, h, bs, i);
    HeaderFits(mem, lo, hi, h, g, b.addr, next);
    WExact(lo, b.addr);
    WExact(lo, n);
    assert IsHeader(mem, lo, n);
    WApart(lo, b.addr, n);
    if prev != 0 {
      WApart(lo, prev, b.addr);
    }
    var m1 := mem[W(lo, n) := b.size - need];
    WriteInside(mem, lo, hi, h, g, b.addr, next, W(lo, n), b.size - need);
    var m2 := m1[W(lo, n) + 1 := next];
    WriteInside(m1, lo, hi, h, g, b.addr, next, W(lo, n) + 1, next);
    RelinkBefore(m2, lo, hi, h, g, b.addr, next, n);
    var h' := if prev != 0 then h else n;
    var m3 := Relinked(m2, lo, prev, n);
    WriteInside(m3, lo, hi, h', g, n, next, W(lo, b.addr), need + 1);
    SplitFills(TakenSplit(mem, lo, prev, b, need), lo, hi, h', g, b, need, next);
  }

  lemma SplitFills(mem: seq<Word>, lo: nat, hi: nat, h: nat, g: Hole, b: Block, need: nat, q: nat)
    requires Around(mem, lo, hi, h, g, b.addr + need, q) && g.start == b.addr && g.end == b.addr + b.size && WellSized(b)
    requires MIN_BLOCK <= need && need % 8 == 0 && need + MIN_BLOCK <= b.size
    requires var n := b.addr + need;
      && IsHeader(mem, lo, b.addr) && mem[W(lo, b.addr)] == need + 1
      && IsHeader(mem, lo, n) && mem[W(lo, n)] == b.size - need && mem[W(lo, n) + 1] == q
    ensures Laid(mem, lo, hi, h, g.front + [Block(b.addr, need, true), Block(b.addr + need, b.size - need, false)] + g.tail)
  {
    hide Tiles, Seg, Around;
    var n := b.addr + need;
    var taken, rest := Block(b.addr, need, true), Block(n, b.size - need, false);
    OneBlock(mem, lo, taken, n, n);
    OneBlock(mem, lo, rest, n, q);
    SegAppend(mem, lo, n, [taken], n, [rest], q);
    OneTile(taken, b.addr, n);
    OneTile(rest, n, g.end);
    TilesAppend([taken], [rest], b.addr, n, g.end);
    assert [taken] + [rest] == [taken, rest];
    Fill(mem, lo, hi, h, g, n, q, [taken, rest]);
  }

  // ---- free ----

  /** A live block of the heap: where it is and what its header holds. */
  lemma LiveBlock(mem: seq<Word>, lo: nat, hi: nat, h: nat, bs: seq<Block>, i: nat) returns (g: Hole, p: nat)
    requires Laid(mem, lo, hi, h, bs) && i < |bs| && bs[i].live
    ensures bs == bs[..i] + [bs[i]] + bs[i + 1..]
    ensures WellSized(bs[i]) && IsHeader(mem, lo, bs[i].addr) && mem[W(lo, bs[i].addr)] == bs[i].size + 1
    ensures g == Hole(bs[..i], bs[i].addr, bs[i].addr + bs[i].size, bs[i + 1..])
    ensures Around(mem, lo, hi, h, g, p, p) && p < TWO_32 && bs[i].addr + bs[i].size <= hi < TWO_32
  {
    hide Tiles, Seg;
    var q;
    assert bs == bs[..i] + [bs[i]] + bs[i + 1..];
    g, p, q := Dig(mem, lo, hi, h, bs[..i], [bs[i]], bs[i + 1..]);
    OneBlock(mem, lo, bs[i], p, q);
    OneTile(bs[i], g.start, g.end);
    SegPointer(mem, lo, q, bs[i + 1..], g.end, hi);
  }

  /** A free list that ends in NULL holds addresses of the heap. */
  lemma {:induction false} SegPointer(mem: seq<Word>, lo: nat, p: nat, bs: seq<Block>, start: nat, end: nat)
    requires Seg(mem, lo, p, bs, 0) && Tiles(bs, start, end)
    ensures p == 0 || start <= p < end
    decreases |bs|
  {
    if bs != [] {
      SegPointer(mem, lo, if bs[0].live then p else mem[W(lo, bs[0].addr) + 1], bs[1..], start + bs[0].size, end);
      TilesBounds(bs, start, end);
    }
  }

  /** A live block is marked free and linked in after the last free block before it. */
  function Inserted(mem: seq<Word>, lo: nat, prev: nat, a: nat, size: Word, curr: Word): (r: seq<Word>)
    requires IsHeader(mem, lo, a) && (prev != 0 ==> IsHeader(mem, lo, prev)) && a < TWO_32
  {
    Relinked(mem[W(lo, a) := size][W(lo, a) + 1 := curr], lo, prev, a)
  }

  lemma InsertKeeps(mem: seq<Word>, lo: nat, hi: nat, h: nat, bs: seq<Block>, i: nat, curr: nat)
    requires Laid(mem, lo, hi, h, bs) && i < |bs| && bs[i].live
    requires Seg(mem, lo, h, bs[..i], curr)
    ensures var (b, prev) := (bs[i], LastFree(bs[..i]));
      && IsHeader(mem, lo, b.addr) && (prev != 0 ==> IsHeader(mem, lo, prev)) && b.addr < TWO_32 && b.size < TWO_32 && curr < TWO_32
      && Laid(Inserted(mem, lo, prev, b.addr, b.size, curr), lo, hi, if prev != 0 then h else b.addr,
              bs[..i] + [Block(b.addr, b.size, false)] + bs[i + 1..])
  {
    hide Tiles, Seg, Around, LastFree;
    var g, p := LiveBlock(mem, lo, hi, h, bs, i);
    AroundGives(mem, lo, hi, h, g, p, p);
    SegEndIsUnique(mem, lo, h, bs[..i], p, curr);
    var b, prev := bs[i], LastFree(bs[..i]);
    RelinkBefore(mem, lo, hi, h, g, p, p, 0);
    HeaderFits(mem, lo, hi, h, g, p, p);
    WExact(lo, b.addr);
    var m1 := mem[W(lo, b.addr) := b.size];
    WriteInside(mem, lo, hi, h, g, p, p, W(lo, b.addr), b.size);
    var m2 := m1[W(lo, b.addr) + 1 := curr];
    WriteInside(m1, lo, hi, h, g, p, p, W(lo, b.addr) + 1, curr);
    RelinkBefore(m2, lo, hi, h, g, p, p, b.addr);
    var h' := if prev != 0 then h else b.addr;
    var m3 := Inserted(mem, lo, prev, b.addr, b.size, curr);
    var new' := Block(b.addr, b.size, false);
    OneBlock(m3, lo, new', b.addr, p);
    OneTile(b, g.start, g.end);
    OneTile(new', g.start, g.end);
    Fill(m3, lo, hi, h', g, b.addr, p, [new']);
  }

  lemma AroundGives(mem: seq<Word>, lo: nat, hi: nat, h: nat, g: Hole, p: nat, q: nat)
    requires Around(mem, lo, hi, h, g, p, q)
    ensures Seg(mem, lo, h, g.front, p) && Seg(mem, lo, q, g.tail, 0)
  {
  }

  lemma {:induction false} SegEndIsUnique(mem: seq<Word>, lo: nat, p: nat, bs: seq<Block>, q: nat, q': nat)
    requires Seg(mem, lo, p, bs, q) && Seg(mem, lo, p, bs, q')
    ensures q == q'
    decreases |bs|
  {
    if bs != [] {
      SegEndIsUnique(mem, lo, if bs[0].live then p else mem[W(lo, bs[0].addr) + 1], bs[1..], q, q');
    }
  }

  /** Two adjacent free blocks become one: the first takes over the second's bytes and its link. */
  function Coalesce(mem: seq<Word>, lo: nat, x: Block, y: Block): (r: seq<Word>)
    requires IsHeader(mem, lo, x.addr) && IsHeader(mem, lo, y.addr) && x.size + y.size < TWO_32
  {
    mem[W(lo, x.addr) := x.size + y.size][W(lo, x.addr) + 1 := mem[W(lo, y.addr) + 1]]
  }

  lemma CoalesceKeeps(mem: seq<Word>, lo: nat, hi: nat, h: nat, bs: seq<Block>, i: nat)
    requires Laid(mem, lo, hi, h, bs) && i + 1 < |bs| && !bs[i].live && !bs[i + 1].live
    ensures var (x, y) := (bs[i], bs[i + 1]);
      && IsHeader(mem, lo, x.addr) && IsHeader(mem, lo, y.addr) && x.size + y.size < TWO_32
      && mem[W(lo, x.addr)] == x.size && mem[W(lo, y.addr)] == y.size
      && Laid(Coalesce(mem, lo, x, y), lo, hi, h, bs[..i] + [Block(x.addr, x.size + y.size, false)] + bs[i + 2..])
  {
    hide Tiles, Seg, Around, W;
    var x, y := bs[i], bs[i + 1];
    assert bs == bs[..i] + [x, y] + bs[i + 2..];
    var g, p, q := Dig(mem, lo, hi, h, bs[..i], [x, y], bs[i + 2..]);
    var m := TwoBlocks(mem, lo, x, y, p, q);
    OneBlock(mem, lo, x, p, m);
    OneBlock(mem, lo, y, m, q);
    assert [x, y] == [x] + [y];
    var mid := TilesSplit([x], [y], g.start, g.end);
    OneTile(x, g.start, mid);
    OneTile(y, mid, g.end);
    HeaderFits(mem, lo, hi, h, g, p, q);
    WExact(lo, x.addr);
    WApart(lo, x.addr, y.addr);
    var m1 := mem[W(lo, x.addr) := x.size + y.size];
    WriteInside(mem, lo, hi, h, g, p, q, W(lo, x.addr), x.size + y.size);
    WriteInside(m1, lo, hi, h, g, p, q, W(lo, x.addr) + 1, q);
    var new' := Block(x.addr, x.size + y.size, false);
    var m2 := Coalesce(mem, lo, x, y);
    OneBlock(m2, lo, new', p, q);
    OneTile(new', g.start, g.end);
    Fill(m2, lo, hi, h, g, p, q, [new']);
  }
}
