/** The kernel heap: malloc and free over a word array with the free list inside it (kernel/alloc.c). */
module Allocator {
  import opened Base
  import opened Blocks
  import opened HeapMemory
  import opened HeapSteps
  import opened HeapWalk

  /** align_up on 32-bit unsigned integers. */
  function AlignUp(x: nat): (r: nat)
    requires x < TWO_32
    ensures r % 8 == 0 && r < TWO_32
  {
    (x + 7) % TWO_32 / 8 * 8
  }

  /** The block size that a request is turned into. */
  function Need(size: nat): (r: nat)
    requires size < TWO_32
    ensures r % 8 == 0 && MIN_BLOCK <= r < TWO_32
  {
    var need := (AlignUp(size) + HEADER) % TWO_32;
    if need < MIN_BLOCK then MIN_BLOCK else need
  }

  /** A block of the needed size holds the request exactly when it is at most 2^32 - 16 bytes: above that the rounding
    * or the header wraps, and malloc hands out a minimal block. */
  lemma RequestFitsIff(size: nat)
    requires 0 < size < TWO_32
    ensures Need(size) >= size + HEADER <==> size <= TWO_32 - 16
    ensures size > TWO_32 - 16 ==> Need(size) == MIN_BLOCK
    ensures size <= TWO_32 - 16 ==> Need(size) < size + HEADER + 8
  {
    if size <= TWO_32 - 16 {
      assert AlignUp(size) == (size + 7) / 8 * 8;
    } else if size > TWO_32 - 8 {
      assert AlignUp(size) == 0;
    } else {
      assert AlignUp(size) == TWO_32 - 8;
    }
  }

  /** The smallest request that is too large gets 8 usable bytes. */
  lemma RequestWrapsAt()
    ensures Need(0xFFFF_FFF1) - HEADER == 8
  {
    RequestFitsIff(0xFFFF_FFF1);
  }

  function Initial(lo: nat, hi: nat): seq<Block>
    requires lo <= hi
  {
    if lo == hi then [] else [Block(lo, hi - lo, false)]
  }

  lemma InitialIsCanonical(lo: nat, hi: nat)
    requires lo == hi || (lo + MIN_BLOCK <= hi && (hi - lo) % 8 == 0)
    ensures Canonical(Initial(lo, hi), lo, hi)
  {
    if lo < hi {
      OneTile(Block(lo, hi - lo, false), lo, hi);
    }
  }

  // ---- Which words change ----

  /** Outside the payloads of `bs` anything may change. */
  ghost predicate PayloadsKept(bs: seq<Block>, lo: nat, before: seq<Word>, after: seq<Word>) {
    |after| == |before| && forall j :: 0 <= j < |before| && InPayload(bs, lo, j) ==> after[j] == before[j]
  }

  lemma KeptByFreeWrite(bs: seq<Block>, lo: nat, hi: nat, k: nat, j: nat, before: seq<Word>, mem: seq<Word>, x: Word)
    requires Tiles(bs, lo, hi) && k < |bs| && !bs[k].live && bs[k].addr <= lo + 4 * j < bs[k].addr + bs[k].size
    requires PayloadsKept(bs, lo, before, mem) && j < |mem|
    ensures PayloadsKept(bs, lo, before, mem[j := x])
  {
    hide InPayload, Tiles;
    FreeIsNoPayload(bs, lo, hi, k, j);
  }

  lemma KeptByHeaderWrite(bs: seq<Block>, lo: nat, hi: nat, k: nat, j: nat, before: seq<Word>, mem: seq<Word>, x: Word)
    requires Tiles(bs, lo, hi) && k < |bs| && bs[k].addr <= lo + 4 * j < bs[k].addr + HEADER
    requires PayloadsKept(bs, lo, before, mem) && j < |mem|
    ensures PayloadsKept(bs, lo, before, mem[j := x])
  {
    hide InPayload, Tiles;
    HeaderIsNoPayload(bs, lo, hi, k, j);
  }

  lemma KeptByRelink(bs: seq<Block>, lo: nat, hi: nat, i: nat, before: seq<Word>, mem: seq<Word>, x: Word)
    requires Tiles(bs, lo, hi) && lo > 0 && i < |bs| && PayloadsKept(bs, lo, before, mem)
    requires var prev := LastFree(bs[..i]); prev != 0 ==> IsHeader(mem, lo, prev)
    ensures PayloadsKept(bs, lo, before, Relinked(mem, lo, LastFree(bs[..i]), x))
  {
    hide Tiles, PayloadsKept, LastFree;
    var prev := LastFree(bs[..i]);
    if prev != 0 {
      assert bs == bs[..i] + bs[i..];
      var mid := TilesSplit(bs[..i], bs[i..], lo, hi);
      LastFreeHere(bs[..i], lo, mid);
      var k :| 0 <= k < i && bs[..i][k].addr == prev;
      WExact(lo, prev);
      KeptByHeaderWrite(bs, lo, hi, k, W(lo, prev) + 1, before, mem, x);
    }
  }

  lemma SplitKept(mem: seq<Word>, lo: nat, hi: nat, h: nat, bs: seq<Block>, i: nat, need: nat)
    requires Laid(mem, lo, hi, h, bs) && i < |bs| && !bs[i].live
    requires MIN_BLOCK <= need && need % 8 == 0 && need + MIN_BLOCK <= bs[i].size
    requires var (b, prev) := (bs[i], LastFree(bs[..i]));
      && IsHeader(mem, lo, b.addr) && IsHeader(mem, lo, b.addr + need) && (prev != 0 ==> IsHeader(mem, lo, prev))
      && need + 1 < TWO_32 && b.addr + need < TWO_32 && b.size < TWO_32
    ensures PayloadsKept(bs, lo, mem, TakenSplit(mem, lo, LastFree(bs[..i]), bs[i], need))
  {
    hide Tiles, Seg, LastFree, InPayload;
    var b, prev := bs[i], LastFree(bs[..i]);
    var n, next := b.addr + need, mem[W(lo, b.addr) + 1];
    WExact(lo, b.addr);
    WExact(lo, n);
    KeptByFreeWrite(bs, lo, hi, i, W(lo, n), mem, mem, b.size - need);
    var m1 := mem[W(lo, n) := b.size - need];
    KeptByFreeWrite(bs, lo, hi, i, W(lo, n) + 1, mem, m1, next);
    var m2 := m1[W(lo, n) + 1 := next];
    KeptByRelink(bs, lo, hi, i, mem, m2, n);
    KeptByFreeWrite(bs, lo, hi, i, W(lo, b.addr), mem, Relinked(m2, lo, prev, n), need + 1);
  }

  lemma WholeKept(mem: seq<Word>, lo: nat, hi: nat, h: nat, bs: seq<Block>, i: nat)
    requires Laid(mem, lo, hi, h, bs) && i < |bs| && !bs[i].live && bs[i].size >= MIN_BLOCK
    requires var (b, prev) := (bs[i], LastFree(bs[..i]));
      && IsHeader(mem, lo, b.addr) && (prev != 0 ==> IsHeader(mem, lo, prev)) && b.size + 1 < TWO_32
    ensures PayloadsKept(bs, lo, mem, TakenWhole(mem, lo, LastFree(bs[..i]), bs[i]))
  {
    hide Tiles, Seg, LastFree, InPayload;
    var b, prev := bs[i], LastFree(bs[..i]);
    var next := mem[W(lo, b.addr) + 1];
    WExact(lo, b.addr);
    KeptByRelink(bs, lo, hi, i, mem, mem, next);
    KeptByFreeWrite(bs, lo, hi, i, W(lo, b.addr), mem, Relinked(mem, lo, prev, next), b.size + 1);
  }

  lemma InsertKept(mem: seq<Word>, lo: nat, hi: nat, h: nat, bs: seq<Block>, i: nat, curr: Word)
    requires Laid(mem, lo, hi, h, bs) && i < |bs|
    requires var (b, prev) := (bs[i], LastFree(bs[..i]));
      IsHeader(mem, lo, b.addr) && (prev != 0 ==> IsHeader(mem, lo, prev)) && b.addr < TWO_32 && b.size < TWO_32
    ensures PayloadsKept(bs, lo, mem, Inserted(mem, lo, LastFree(bs[..i]), bs[i].addr, bs[i].size, curr))
  {
    hide Tiles, Seg, LastFree, PayloadsKept;
    var b := bs[i];
    WExact(lo, b.addr);
    KeptRefl(bs, lo, mem);
    KeptByHeaderWrite(bs, lo, hi, i, W(lo, b.addr), mem, mem, b.size);
    var m1 := mem[W(lo, b.addr) := b.size];
    KeptByHeaderWrite(bs, lo, hi, i, W(lo, b.addr) + 1, mem, m1, curr);
    KeptByRelink(bs, lo, hi, i, mem, m1[W(lo, b.addr) + 1 := curr], b.addr);
  }

  /** Coalescing into a block whose header was already a header of `bs`. */
  lemma CoalesceKept(bs: seq<Block>, lo: nat, hi: nat, k: nat, before: seq<Word>, mem: seq<Word>, x: Block, y: Block)
    requires Tiles(bs, lo, hi) && k < |bs| && bs[k].addr == x.addr && PayloadsKept(bs, lo, before, mem)
    requires IsHeader(mem, lo, x.addr) && IsHeader(mem, lo, y.addr) && x.size + y.size < TWO_32
    ensures PayloadsKept(bs, lo, before, Coalesce(mem, lo, x, y))
  {
    hide Tiles, PayloadsKept;
    WExact(lo, x.addr);
    KeptByHeaderWrite(bs, lo, hi, k, W(lo, x.addr), before, mem, x.size + y.size);
    KeptByHeaderWrite(bs, lo, hi, k, W(lo, x.addr) + 1, before, mem[W(lo, x.addr) := x.size + y.size], mem[W(lo, y.addr) + 1]);
  }

  /** Before the heap is set up nothing is live. */
  lemma NothingLive(lo: nat, hi: nat, mem: seq<Word>)
    requires lo <= hi
    ensures forall after: seq<Word> :: |after| == |mem| ==> PayloadsKept(Initial(lo, hi), lo, mem, after)
  {
  }

  lemma KeptRefl(bs: seq<Block>, lo: nat, mem: seq<Word>)
    ensures PayloadsKept(bs, lo, mem, mem)
  {
  }

  lemma TakeApart(lo: nat, prev: nat, curr: nat, need: nat)
    requires need % 8 == 0 && need >= HEADER && lo <= curr && (curr - lo) % 8 == 0
    requires prev != 0 ==> lo <= prev && (prev - lo) % 8 == 0 && prev + MIN_BLOCK <= curr
    ensures W(lo, curr) + 1 < W(lo, curr + need)
    ensures prev != 0 ==> W(lo, prev) + 1 < W(lo, curr)
  {
  }

  /** A payload holds no header. */
  lemma PayloadWrite(mem: seq<Word>, lo: nat, hi: nat, h: nat, bs: seq<Block>, j: nat, x: Word)
    requires Laid(mem, lo, hi, h, bs) && j < |mem| && InPayload(bs, lo, j)
    ensures Laid(mem[j := x], lo, hi, h, bs)
  {
    hide Tiles, Seg, Outside, InPayload;
    PayloadIsOutside(bs, lo, hi, j);
    SegFrame(mem, lo, h, bs, 0, j, x);
  }

  lemma PayloadIsOutside(bs: seq<Block>, lo: nat, hi: nat, j: nat)
    requires Tiles(bs, lo, hi) && InPayload(bs, lo, j)
    ensures Outside(bs, lo, j)
  {
    hide Tiles, W;
    AddressesGrow(bs, lo, hi);
    TilesBounds(bs, lo, hi);
    var k :| 0 <= k < |bs| && bs[k].addr + HEADER <= lo + 4 * j < bs[k].addr + bs[k].size;
    forall i | 0 <= i < |bs| ensures lo <= bs[i].addr && j != W(lo, bs[i].addr) && j != W(lo, bs[i].addr) + 1 {
      WExact(lo, bs[i].addr);
      assert bs[i].addr + HEADER <= bs[i].addr + bs[i].size;
    }
  }

  // ---- First fit ----

  lemma FirstFitHere(bs: seq<Block>, need: nat, i: nat)
    requires i < |bs| && Fits(bs[i], need) && forall j :: 0 <= j < i ==> !Fits(bs[j], need)
    ensures FirstFit(bs, need) == i
    ensures Allocate(bs, need) == bs[..i] + Carve(bs[i], need) + bs[i + 1..]
  {
  }

  lemma FirstFitNowhere(bs: seq<Block>, need: nat)
    requires forall j :: 0 <= j < |bs| ==> !Fits(bs[j], need)
    ensures FirstFit(bs, need) == |bs| && Allocate(bs, need) == bs
  {
  }

  /** What malloc promises when it finds a block: the payload is 8-aligned, lies in the heap, overlaps no live block, and
    * is as large as requested, exactly when the request is at most 2^32 - 16. */
  lemma PayloadContract(bs: seq<Block>, size: nat, lo: nat, hi: nat)
    requires Canonical(bs, lo, hi) && lo % 8 == 0 && 0 < size < TWO_32 && FirstFit(bs, Need(size)) < |bs|
    ensures var b := bs[FirstFit(bs, Need(size))];
      var (payload, usable) := (b.addr + HEADER, Granted(b, Need(size)) - HEADER);
      && payload % 8 == 0 && lo < payload && payload + usable <= hi
      && (forall a :: a in Live(bs) ==> a + Live(bs)[a] <= payload - HEADER || payload + usable <= a)
      && (usable >= size <==> size <= TWO_32 - 16)
  {
    hide Tiles, Live, Need, Coalesced, FirstFit, AlignUp;
    var i := FirstFit(bs, Need(size));
    TilesBounds(bs, lo, hi);
    RequestFitsIff(size);
    forall a | a in Live(bs) ensures a + Live(bs)[a] <= bs[i].addr || bs[i].addr + bs[i].size <= a {
      FreeIsApart(bs, lo, hi, i, a);
    }
  }

  // ---- Header words ----

  /** hdr_size: the allocated bit is cleared. */
  function HdrSize(w: Word): Word {
    w / 2 * 2
  }

  lemma HdrSizeOf(w: Word, b: Block)
    requires WellSized(b) && w == SizeWord(b)
    ensures HdrSize(w) == b.size
  {
  }

  class Heap {
    /** The linker symbols that bound the heap. */
    const heapStart: nat
    const heapEnd: nat
    const mem: array<Word>
    var freeList: Word
    var inited: bool
    ghost var blocks: seq<Block>

    function Lo(): nat {
      (heapStart + 7) / 8 * 8
    }

    predicate Bounds() {
      && 0 < heapStart <= heapEnd < TWO_32 && heapEnd % 8 == 0
      && (Lo() == heapEnd || Lo() + MIN_BLOCK <= heapEnd)
      && 4 * mem.Length == heapEnd - Lo()
    }

    ghost predicate Valid()
      reads this, mem
    {
      && Bounds()
      && if inited then Laid(mem[..], Lo(), heapEnd, freeList, blocks) && Coalesced(blocks)
         else blocks == Initial(Lo(), heapEnd)
    }

    constructor (heapStart: nat, heapEnd: nat, mem: array<Word>)
      requires 0 < heapStart <= heapEnd < TWO_32 && heapEnd % 8 == 0
      requires var lo := AlignUp(heapStart); (lo == heapEnd || lo + MIN_BLOCK <= heapEnd) && 4 * mem.Length == heapEnd - lo
      ensures Valid() && !inited && this.heapStart == heapStart && this.heapEnd == heapEnd && this.mem == mem
      ensures blocks == Initial(Lo(), heapEnd)
      ensures blocks == if Lo() == heapEnd then [] else [Block(Lo(), heapEnd - Lo(), false)]
    {
      this.heapStart, this.heapEnd, this.mem := heapStart, heapEnd, mem;
      freeList, inited := 0, false;
      blocks := Initial((heapStart + 7) / 8 * 8, heapEnd);
    }

    lemma IsCanonical()
      requires Valid()
      ensures Canonical(blocks, Lo(), heapEnd)
    {
      hide Seg, Tiles, Coalesced, Initial;
      if !inited {
        InitialIsCanonical(Lo(), heapEnd);
      }
    }

    /** What malloc returned is live. */
    lemma Owns(before: seq<Block>, need: nat, ptr: nat)
      requires Valid() && blocks == Allocate(before, need) && FirstFit(before, need) < |before|
      requires ptr == before[FirstFit(before, need)].addr + HEADER
      ensures IsLive(ptr) && ptr < TWO_32
    {
      hide Seg, FirstFit;
      var i := FirstFit(before, need);
      assert blocks[i] == Carve(before[i], need)[0];
      IsCanonical();
      TilesBounds(blocks, Lo(), heapEnd);
    }

    /** heap_init: one free block over the whole heap. */
    method HeapInit()
      requires Valid() && !inited
      modifies this`freeList, this`inited, mem
      ensures Valid() && inited && blocks == old(blocks)
    {
      if heapEnd <= Lo() {
        inited, freeList := true, 0;
        return;
      }
      freeList := Lo();
      mem[0] := heapEnd - Lo();
      mem[1] := 0;
      inited := true;
      OneTile(blocks[0], Lo(), heapEnd);
      OneBlock(mem[..], Lo(), blocks[0], Lo(), 0);
    }

    /** The free block before, or else the head of the free list, links to `x`. */
    method Relink(prev: Word, x: Word)
      requires prev != 0 ==> IsHeader(mem[..], Lo(), prev)
      modifies this`freeList, mem
      ensures mem[..] == Relinked(old(mem[..]), Lo(), prev, x)
      ensures freeList == if prev == 0 then x else old(freeList)
    {
      if prev != 0 {
        mem[W(Lo(), prev) + 1] := x;
      } else {
        freeList := x;
      }
    }

    /** The body of malloc's loop once a block fits: `prev` and `curr` are the loop's pointers. */
    method Take(prev: Word, curr: Word, currSize: Word, need: nat, ghost i: nat)
      requires Valid() && inited && i < |blocks|
      requires blocks[i] == Block(curr, currSize, false) && prev == LastFree(blocks[..i])
      requires MIN_BLOCK <= need <= currSize && need % 8 == 0
      modifies this`freeList, this`blocks, mem
      ensures Valid() && blocks == old(blocks)[..i] + Carve(old(blocks)[i], need) + old(blocks)[i + 1..]
      ensures PayloadsKept(old(blocks), Lo(), old(mem[..]), mem[..])
    {
      hide Laid, Coalesced, PayloadsKept, LastFree, Tiles, Seg, Around, WellSized, W;
      ghost var was: seq<Word>, lo := mem[..], Lo();
      ghost var g := FreeBlock(was, lo, heapEnd, freeList, blocks, i);
      PrevIsHeader(was, lo, heapEnd, freeList, blocks, i);
      CarveCoalesced(blocks, i, need);
      if currSize - need >= MIN_BLOCK {
        SplitKeeps(was, lo, heapEnd, freeList, blocks, i, need);
        SplitKept(was, lo, heapEnd, freeList, blocks, i, need);
        TakeApart(lo, prev, curr, need);
        var next := curr + need;
        mem[W(Lo(), next)] := currSize - need;
        mem[W(Lo(), next) + 1] := mem[W(Lo(), curr) + 1];
        ghost var withRest := was[W(lo, next) := currSize - need][W(lo, next) + 1 := was[W(lo, curr) + 1]];
        assert mem[..] == withRest;
        Relink(prev, next);
        mem[W(Lo(), curr)] := need + 1;
        assert mem[..] == TakenSplit(was, lo, prev, blocks[i], need);
      } else {
        WholeKeeps(was, lo, heapEnd, freeList, blocks, i);
        WholeKept(was, lo, heapEnd, freeList, blocks, i);
        TakeApart(lo, prev, curr, need);
        Relink(prev, mem[W(Lo(), curr) + 1]);
        mem[W(Lo(), curr)] := currSize + 1;
        assert mem[..] == TakenWhole(was, lo, prev, blocks[i]);
      }
      blocks := blocks[..i] + Carve(blocks[i], need) + blocks[i + 1..];
    }

    method Malloc(size: nat) returns (ptr: nat)
      requires Valid() && size < TWO_32
      modifies this, mem
      ensures Valid()
      ensures size == 0 ==> ptr == 0 && blocks == old(blocks) && mem[..] == old(mem[..]) && inited == old(inited)
      ensures size > 0 ==> inited && blocks == Allocate(old(blocks), Need(size))
      ensures var i := FirstFit(old(blocks), Need(size));
        size > 0 ==> ptr == if i == |old(blocks)| then 0 else old(blocks)[i].addr + HEADER
      ensures PayloadsKept(old(blocks), Lo(), old(mem[..]), mem[..])
    {
      hide Laid, Cursor, Coalesced, Need, PayloadsKept, LastFree, FirstFit, Allocate, Carve, W, HdrSize, WellSized;
      if size == 0 {
        KeptRefl(blocks, Lo(), mem[..]);
        return 0;
      }
      var need := Need(size);
      if !inited {
        NothingLive(Lo(), heapEnd, old(mem[..]));
        HeapInit();
      }
      ghost var was := mem[..];
      var prev: Word, curr: Word := 0, freeList;
      ghost var k := 0;
      CursorStarts(was, Lo(), heapEnd, freeList, blocks);
      while curr != 0
        invariant mem[..] == was && inited && blocks == old(blocks) && Valid()
        invariant Cursor(was, Lo(), freeList, blocks, k, prev, curr)
        invariant 0 <= k <= |blocks| && forall j :: 0 <= j < k ==> !Fits(blocks[j], need)
        decreases |blocks| - k
      {
        ghost var i := CursorSteps(was, Lo(), heapEnd, freeList, blocks, k, prev, curr);
        HdrSizeOf(was[W(Lo(), curr)], blocks[i]);
        var currSize := HdrSize(mem[W(Lo(), curr)]);
        if currSize >= need {
          FirstFitHere(blocks, need, i);
          Take(prev, curr, currSize, need, i);
          return curr + HEADER;
        }
        prev := curr;
        curr := mem[W(Lo(), curr) + 1];
        k := i + 1;
      }
      CursorEnds(was, Lo(), freeList, blocks, k, prev);
      FirstFitNowhere(blocks, need);
      KeptRefl(blocks, Lo(), was);
      return 0;
    }

    /** The owner of a payload writes to it: the heap does not notice. */
    method Store(j: nat, x: Word)
      requires Valid() && inited && j < mem.Length && InPayload(blocks, Lo(), j)
      modifies mem
      ensures Valid() && mem[..] == old(mem[..])[j := x]
    {
      hide Laid, Coalesced, InPayload;
      PayloadWrite(mem[..], Lo(), heapEnd, freeList, blocks, j, x);
      mem[j] := x;
    }

    // ---- free ----

    /** Header address of a payload pointer. */
    function Header(ptr: nat): nat {
      (ptr + TWO_32 - HEADER) % TWO_32
    }

    /** The pointers that free ignores. */
    predicate Rejected(ptr: nat)
      requires Bounds()
      reads this, mem
    {
      var hdr := Header(ptr);
      || ptr == 0
      || hdr < Lo()
      || hdr >= heapEnd
      || !inited
      || ((hdr - Lo()) % 4 == 0 &&
          var size := HdrSize(mem[W(Lo(), hdr)]);
          size < HEADER || (hdr + size) % TWO_32 > heapEnd)
    }

    ghost predicate IsLive(ptr: nat)
      reads this
    {
      exists i :: 0 <= i < |blocks| && blocks[i].live && blocks[i].addr + HEADER == ptr
    }

    /** hdr->next is adjacent: the two become one. */
    method JoinWithNext(hdr: Word, ghost i: nat, ghost bs: seq<Block>, ghost k: nat, ghost before: seq<Word>)
      requires Bounds() && Laid(mem[..], Lo(), heapEnd, freeList, blocks)
      requires i < |blocks| && !blocks[i].live && blocks[i].addr == hdr
      requires Tiles(bs, Lo(), heapEnd) && k < |bs| && bs[k].addr == hdr && PayloadsKept(bs, Lo(), before, mem[..])
      modifies this`blocks, mem
      ensures Laid(mem[..], Lo(), heapEnd, freeList, blocks)
      ensures blocks == JoinedNext(old(blocks), i)
      ensures PayloadsKept(bs, Lo(), before, mem[..])
    {
      hide Laid, Tiles, Seg, PayloadsKept, W, WellSized, Around;
      ghost var was: seq<Word>, lo := mem[..], Lo();
      ghost var g := FreeBlock(was, lo, heapEnd, freeList, blocks, i);
      HdrSizeOf(was[W(lo, hdr)], blocks[i]);
      NextIsAdjacent(was, lo, heapEnd, freeList, blocks, i);
      var next := mem[W(Lo(), hdr) + 1];
      if next != 0 {
        var end := hdr + HdrSize(mem[W(Lo(), hdr)]);
        if end == next {
          ghost var f := FreeBlock(was, lo, heapEnd, freeList, blocks, i + 1);
          NextStart(was, lo, heapEnd, freeList, blocks, i);
          HdrSizeOf(was[W(lo, next)], blocks[i + 1]);
          CoalesceKeeps(was, lo, heapEnd, freeList, blocks, i);
          CoalesceKept(bs, lo, heapEnd, k, before, was, blocks[i], blocks[i + 1]);
          mem[W(Lo(), hdr)] := HdrSize(mem[W(Lo(), hdr)]) + HdrSize(mem[W(Lo(), next)]);
          mem[W(Lo(), hdr) + 1] := mem[W(Lo(), next) + 1];
          assert mem[..] == Coalesce(was, lo, blocks[i], blocks[i + 1]);
          blocks := Joined(blocks, i);
        }
      }
    }

    /** The free block before is adjacent: it takes over the freed one. */
    method JoinWithPrev(prev: Word, hdr: Word, ghost i: nat, ghost bs: seq<Block>, ghost before: seq<Word>)
      requires Bounds() && Laid(mem[..], Lo(), heapEnd, freeList, blocks)
      requires i < |blocks| && !blocks[i].live && blocks[i].addr == hdr && prev == LastFree(blocks[..i])
      requires Tiles(bs, Lo(), heapEnd) && i <= |bs| && bs[..i] == blocks[..i] && PayloadsKept(bs, Lo(), before, mem[..])
      modifies this`blocks, mem
      ensures Laid(mem[..], Lo(), heapEnd, freeList, blocks)
      ensures blocks == JoinedPrev(old(blocks), i)
      ensures PayloadsKept(bs, Lo(), before, mem[..])
    {
      hide Laid, Tiles, Seg, PayloadsKept, W, WellSized, Around, LastFree;
      ghost var was: seq<Word>, lo := mem[..], Lo();
      PrevIsAdjacent(was, lo, heapEnd, freeList, blocks, i);
      if prev != 0 {
        ghost var j := PrevBlock(was, lo, heapEnd, freeList, blocks, i);
        HdrSizeOf(was[W(lo, prev)], blocks[j]);
        var end := prev + HdrSize(mem[W(Lo(), prev)]);
        if end == hdr {
          ghost var f := FreeBlock(was, lo, heapEnd, freeList, blocks, i);
          NextStart(was, lo, heapEnd, freeList, blocks, i - 1);
          HdrSizeOf(was[W(lo, hdr)], blocks[i]);
          CoalesceKeeps(was, lo, heapEnd, freeList, blocks, i - 1);
          assert bs[i - 1] == bs[..i][i - 1] == blocks[i - 1];
          CoalesceKept(bs, lo, heapEnd, i - 1, before, was, blocks[i - 1], blocks[i]);
          mem[W(Lo(), prev)] := HdrSize(mem[W(Lo(), prev)]) + HdrSize(mem[W(Lo(), hdr)]);
          mem[W(Lo(), prev) + 1] := mem[W(Lo(), hdr) + 1];
          assert mem[..] == Coalesce(was, lo, blocks[i - 1], blocks[i]);
          blocks := Joined(blocks, i - 1);
        }
      }
    }

    /** The block is marked free and linked in behind the last free block before it. */
    method Insert(hdr: Word, size: Word, ghost i: nat) returns (prev: Word)
      requires Valid() && inited && i < |blocks| && blocks[i] == Block(hdr, size, true)
      modifies this`freeList, this`blocks, mem
      ensures Bounds() && Laid(mem[..], Lo(), heapEnd, freeList, blocks)
      ensures blocks == Marked(old(blocks), i) && prev == LastFree(old(blocks)[..i])
      ensures PayloadsKept(old(blocks), Lo(), old(mem[..]), mem[..])
    {
      hide Laid, Cursor, Coalesced, PayloadsKept, Seg, Tiles, LastFree, W, Around, WellSized, HdrSize;
      ghost var was: seq<Word>, lo, bs := mem[..], Lo(), blocks;
      ghost var g, p := LiveBlock(was, lo, heapEnd, freeList, bs, i);
      mem[W(Lo(), hdr)] := size;
      var curr: Word := freeList;
      prev := 0;
      ghost var k := 0;
      CursorStarts(was, lo, heapEnd, freeList, bs);
      while curr != 0 && curr < hdr
        invariant mem[..] == was[W(lo, hdr) := size] && blocks == bs && freeList == old(freeList)
        invariant Cursor(was, lo, freeList, bs, k, prev, curr)
        invariant 0 <= k <= i
        decreases |bs| - k
      {
        ghost var j := CursorSteps(was, lo, heapEnd, freeList, bs, k, prev, curr);
        WalkBefore(was, lo, heapEnd, freeList, bs, i, j);
        prev := curr;
        curr := mem[W(Lo(), curr) + 1];
        k := j + 1;
      }
      CursorStops(was, lo, heapEnd, freeList, bs, k, prev, curr, i);
      CursorGives(was, lo, freeList, bs, i, prev, curr);
      InsertKeeps(was, lo, heapEnd, freeList, bs, i, curr);
      InsertKept(was, lo, heapEnd, freeList, bs, i, curr);
      mem[W(Lo(), hdr) + 1] := curr;
      Relink(prev, hdr);
      assert mem[..] == Inserted(was, lo, prev, hdr, size, curr);
      blocks := Marked(bs, i);
    }

    /** A live block passes the checks that free makes. */
    ghost method FindLive(ptr: nat) returns (i: nat)
      requires Valid() && inited && ptr < TWO_32 && IsLive(ptr)
      ensures ptr >= HEADER && !Rejected(ptr) && Header(ptr) == ptr - HEADER
      ensures var hdr := Header(ptr);
        var size := HdrSize(mem[W(Lo(), hdr)]);
        && i < |blocks| && blocks[i] == Block(hdr, size, true)
        && Lo() <= hdr && (hdr - Lo()) % 8 == 0 && size >= MIN_BLOCK && hdr + size <= heapEnd
    {
      hide Laid, Coalesced, Seg, Tiles, Around, HdrSize;
      i :| 0 <= i < |blocks| && blocks[i].live && blocks[i].addr + HEADER == ptr;
      var g, p := LiveBlock(mem[..], Lo(), heapEnd, freeList, blocks, i);
      HdrSizeOf(mem[..][W(Lo(), blocks[i].addr)], blocks[i]);
      LaidBounds(mem[..], Lo(), heapEnd, freeList, blocks);
    }

    method Free(ptr: nat)
      requires Valid() && ptr < TWO_32 && (Rejected(ptr) || IsLive(ptr))
      modifies this`freeList, this`blocks, mem
      ensures Valid()
      ensures old(Rejected(ptr)) ==> blocks == old(blocks) && freeList == old(freeList) && mem[..] == old(mem[..])
      ensures old(!Rejected(ptr)) ==> blocks == Release(old(blocks), ptr - HEADER)
      ensures old(inited && IsLive(ptr)) ==> old(!Rejected(ptr))
      ensures PayloadsKept(old(blocks), Lo(), old(mem[..]), mem[..])
    {
      hide Laid, Coalesced, Release, PayloadsKept, Tiles, LastFree, HdrSize, IsLive, Seg, JoinedNext, JoinedPrev, Joined, Live;
      KeptRefl(blocks, Lo(), mem[..]);
      if inited && IsLive(ptr) {
        ghost var j := FindLive(ptr);
      }
      if ptr == 0 {
        return;
      }
      var hdr := Header(ptr);
      if hdr < Lo() || hdr >= heapEnd {
        return;
      }
      if !inited {
        return;
      }
      var size := HdrSize(mem[W(Lo(), hdr)]);
      if size < HEADER || (hdr + size) % TWO_32 > heapEnd {
        return;
      }
      ghost var was: seq<Word>, bs := mem[..], blocks;
      ghost var i := FindLive(ptr);
      LaidBounds(was, Lo(), heapEnd, freeList, bs);
      JoinsAreRelease(bs, i, Lo(), heapEnd);
      ReleaseRemoves(bs, hdr, Lo(), heapEnd);
      assert Marked(bs, i)[..i] == bs[..i];
      var prev := Insert(hdr, size, i);
      JoinWithNext(hdr, i, bs, i, was);
      JoinedIndex(Marked(bs, i), i);
      JoinWithPrev(prev, hdr, i, bs, was);
    }
  }
}
