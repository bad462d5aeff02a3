/** The heap's blocks as they lie in memory: every block starts with a header of two words, its size with the
  * allocated bit and, in a free block, the address of the next free block (kernel/alloc.c). */
module HeapMemory {
  import opened Base
  import opened Blocks

  /** Index of the word at address `a` of a heap that starts at `lo`. */
  function W(lo: nat, a: nat): nat
    requires lo <= a
  {
    (a - lo) / 4
  }

  /** Index and address agree for aligned addresses. */
  lemma WExact(lo: nat, a: nat)
    requires lo <= a && (a - lo) % 8 == 0
    ensures lo + 4 * W(lo, a) == a && W(lo, a) % 2 == 0
  {
  }

  predicate IsHeader(mem: seq<Word>, lo: nat, a: nat) {
    lo <= a && W(lo, a) + 1 < |mem| && (a - lo) % 8 == 0
  }

  function SizeWord(b: Block): nat {
    if b.live then b.size + 1 else b.size
  }

  /** The headers of `bs` are in memory, and following the free list from `p` through them ends at pointer `q`. */
  ghost predicate Seg(mem: seq<Word>, lo: nat, p: nat, bs: seq<Block>, q: nat)
    decreases |bs|
  {
    if bs == [] then p == q
    else
      var b := bs[0];
      && IsHeader(mem, lo, b.addr)
      && mem[W(lo, b.addr)] == SizeWord(b)
      && if b.live then Seg(mem, lo, p, bs[1..], q)
         else p == b.addr && Seg(mem, lo, mem[W(lo, b.addr) + 1], bs[1..], q)
  }

  lemma {:induction false} SegAppend(mem: seq<Word>, lo: nat, p: nat, a: seq<Block>, m: nat, b: seq<Block>, q: nat)
    requires Seg(mem, lo, p, a, m) && Seg(mem, lo, m, b, q)
    ensures Seg(mem, lo, p, a + b, q)
    decreases |a|
  {
    if a == [] {
      assert a + b == b;
    } else {
      assert (a + b)[1..] == a[1..] + b;
      SegAppend(mem, lo, if a[0].live then p else mem[W(lo, a[0].addr) + 1], a[1..], m, b, q);
    }
  }

  lemma {:induction false} SegSplit(mem: seq<Word>, lo: nat, p: nat, a: seq<Block>, b: seq<Block>, q: nat) returns (m: nat)
    requires Seg(mem, lo, p, a + b, q)
    ensures Seg(mem, lo, p, a, m) && Seg(mem, lo, m, b, q)
    decreases |a|
  {
    if a == [] {
      assert a + b == b;
      m := p;
    } else {
      assert (a + b)[1..] == a[1..] + b;
      m := SegSplit(mem, lo, if a[0].live then p else mem[W(lo, a[0].addr) + 1], a[1..], b, q);
    }
  }

  /** Word `j` is in no header of `bs`. */
  ghost predicate Outside(bs: seq<Block>, lo: nat, j: nat) {
    forall i :: 0 <= i < |bs| ==> lo <= bs[i].addr && j != W(lo, bs[i].addr) && j != W(lo, bs[i].addr) + 1
  }

  lemma {:induction false} SegFrame(mem: seq<Word>, lo: nat, p: nat, bs: seq<Block>, q: nat, j: nat, x: Word)
    requires Seg(mem, lo, p, bs, q) && Outside(bs, lo, j) && j < |mem|
    ensures Seg(mem[j := x], lo, p, bs, q)
    decreases |bs|
  {
    if bs != [] {
      assert Outside(bs[1..], lo, j);
      SegFrame(mem, lo, if bs[0].live then p else mem[W(lo, bs[0].addr) + 1], bs[1..], q, j, x);
    }
  }

  /** A word at an address outside the range that `bs` tiles is in none of its headers. */
  lemma OutsideRange(bs: seq<Block>, lo: nat, start: nat, end: nat, j: nat)
    requires Tiles(bs, start, end) && lo <= start && (start - lo) % 8 == 0
    requires lo + 4 * j < start || end <= lo + 4 * j
    ensures Outside(bs, lo, j)
  {
    hide W, Tiles;
    TilesBounds(bs, start, end);
    forall i | 0 <= i < |bs| ensures lo <= bs[i].addr && j != W(lo, bs[i].addr) && j != W(lo, bs[i].addr) + 1 {
      assert (bs[i].addr - start) % 8 == 0;
      assert (bs[i].addr - lo) % 8 == 0;
      WExact(lo, bs[i].addr);
    }
  }

  /** Address of the last free block of `bs`, NULL when there is none. */
  function LastFree(bs: seq<Block>): nat
    decreases |bs|
  {
    if bs == [] then 0
    else
      var rest := LastFree(bs[1..]);
      if rest != 0 then rest else if bs[0].live then 0 else bs[0].addr
  }

  function Relinked(mem: seq<Word>, lo: nat, prev: nat, x: Word): (r: seq<Word>)
    requires prev != 0 ==> IsHeader(mem, lo, prev)
    ensures |r| == |mem|
  {
    if prev != 0 then mem[W(lo, prev) + 1 := x] else mem
  }

  lemma {:induction false} LastFreeHere(bs: seq<Block>, lo: nat, hi: nat)
    requires Tiles(bs, lo, hi) && lo > 0
    ensures var a := LastFree(bs);
      if a == 0 then forall b :: b in bs ==> b.live
      else exists i :: 0 <= i < |bs| && bs[i].addr == a && !bs[i].live && (forall j :: i < j < |bs| ==> bs[j].live)
    decreases |bs|
  {
    if bs != [] {
      LastFreeHere(bs[1..], lo + bs[0].size, hi);
      var a := LastFree(bs[1..]);
      if a != 0 {
        var i :| 0 <= i < |bs[1..]| && bs[1..][i].addr == a && !bs[1..][i].live && (forall j :: i < j < |bs[1..]| ==> bs[1..][j].live);
        assert bs[i + 1].addr == a && !bs[i + 1].live;
        forall j | i + 1 < j < |bs| ensures bs[j].live {
          assert bs[j] == bs[1..][j - 1];
        }
      } else {
        forall j | 0 < j < |bs| ensures bs[j].live {
          assert bs[j] == bs[1..][j - 1] && bs[j] in bs[1..];
        }
        assert bs[0].live ==> forall b :: b in bs ==> b == bs[0] || b in bs[1..];
      }
    }
  }

  /** Redirecting the end of a stretch of the free list: the last free block's link, or the head when there is none. */
  lemma {:induction false} Relink(mem: seq<Word>, lo: nat, h: nat, bs: seq<Block>, q: nat, x: Word, start: nat, end: nat)
    requires Seg(mem, lo, h, bs, q) && Tiles(bs, start, end) && 0 < lo <= start && (start - lo) % 8 == 0
    ensures var last := LastFree(bs);
      && (last != 0 ==> IsHeader(mem, lo, last) && start <= last && last + MIN_BLOCK <= end)
      && Seg(Relinked(mem, lo, last, x), lo, if last != 0 then h else x, bs, x)
    decreases |bs|
  {
    if bs != [] {
      var b, rest, mid := bs[0], bs[1..], start + bs[0].size;
      assert (mid - lo) % 8 == 0;
      var p := if b.live then h else mem[W(lo, b.addr) + 1];
      TilesBounds(bs, start, end);
      Relink(mem, lo, p, rest, q, x, mid, end);
      if LastFree(rest) == 0 && !b.live {
        OutsideRange(rest, lo, mid, end, W(lo, b.addr) + 1);
        SegFrame(mem, lo, x, rest, x, W(lo, b.addr) + 1, x);
      }
    }
  }

  /** Stretches of live blocks pass the pointer through. */
  lemma {:induction false} SegThroughLive(mem: seq<Word>, lo: nat, p: nat, bs: seq<Block>, q: nat)
    requires Seg(mem, lo, p, bs, q) && forall b :: b in bs ==> b.live
    ensures p == q
    decreases |bs|
  {
    if bs != [] {
      SegThroughLive(mem, lo, p, bs[1..], q);
    }
  }

  /** A free list that is not at its end points to the first free block that follows. */
  lemma {:induction false} SegNext(mem: seq<Word>, lo: nat, p: nat, bs: seq<Block>) returns (k: nat)
    requires Seg(mem, lo, p, bs, 0) && p != 0
    ensures k < |bs| && bs[k].addr == p && !bs[k].live && (forall j :: 0 <= j < k ==> bs[j].live)
    decreases |bs|
  {
    if bs[0].live {
      k := SegNext(mem, lo, p, bs[1..]);
      k := k + 1;
    } else {
      k := 0;
    }
  }

  /** A free list that is at its end passes only live blocks. */
  lemma {:induction false} SegEnds(mem: seq<Word>, lo: nat, bs: seq<Block>)
    requires Seg(mem, lo, 0, bs, 0) && lo > 0
    ensures forall b :: b in bs ==> b.live
    decreases |bs|
  {
    if bs != [] {
      SegEnds(mem, lo, bs[1..]);
      assert forall b :: b in bs ==> b == bs[0] || b in bs[1..];
    }
  }

  // ---- The heap in memory ----

  /** Memory of `hi - lo` bytes is laid out as `bs`, and its free blocks are linked from head `h` in address order. */
  ghost predicate Laid(mem: seq<Word>, lo: nat, hi: nat, h: nat, bs: seq<Block>) {
    && 0 < lo <= hi < TWO_32 && (hi - lo) % 8 == 0 && 4 * |mem| == hi - lo
    && Tiles(bs, lo, hi)
    && Seg(mem, lo, h, bs, 0)
  }

  /** Both memories hold the same header for `b`; the link counts only in a free block. */
  predicate SameHeader(mem: seq<Word>, mem': seq<Word>, lo: nat, b: Block) {
    && IsHeader(mem, lo, b.addr) && IsHeader(mem', lo, b.addr)
    && mem[W(lo, b.addr)] == mem'[W(lo, b.addr)]
    && (!b.live ==> mem[W(lo, b.addr) + 1] == mem'[W(lo, b.addr) + 1])
  }

  /** The blocks determine every header and the free list: memories laid out as the same blocks agree on the list head
    * and on every word that malloc and free read. */
  lemma {:induction false} HeadersAreDetermined(mem: seq<Word>, mem': seq<Word>, lo: nat, h: nat, h': nat, bs: seq<Block>)
    requires Seg(mem, lo, h, bs, 0) && Seg(mem', lo, h', bs, 0) && lo > 0
    ensures h == h'
    ensures forall i :: 0 <= i < |bs| ==> SameHeader(mem, mem', lo, bs[i])
    decreases |bs|
  {
    if bs != [] {
      var b := bs[0];
      HeadersAreDetermined(mem, mem', lo, if b.live then h else mem[W(lo, b.addr) + 1], if b.live then h' else mem'[W(lo, b.addr) + 1], bs[1..]);
      assert forall i :: 0 < i < |bs| ==> bs[i] == bs[1..][i - 1];
    }
  }

  /** Word `i` is part of the payload of a live block. */
  ghost predicate InPayload(bs: seq<Block>, lo: nat, i: nat) {
    exists b :: b in bs && b.live && b.addr + HEADER <= lo + 4 * i < b.addr + b.size
  }

  /** A word of a free block is in no payload. */
  lemma FreeIsNoPayload(bs: seq<Block>, lo: nat, hi: nat, k: nat, i: nat)
    requires Tiles(bs, lo, hi) && k < |bs| && !bs[k].live && bs[k].addr <= lo + 4 * i < bs[k].addr + bs[k].size
    ensures !InPayload(bs, lo, i)
  {
    AddressesGrow(bs, lo, hi);
  }

  /** A header word is in no payload. */
  lemma HeaderIsNoPayload(bs: seq<Block>, lo: nat, hi: nat, k: nat, i: nat)
    requires Tiles(bs, lo, hi) && k < |bs| && bs[k].addr <= lo + 4 * i < bs[k].addr + HEADER
    ensures !InPayload(bs, lo, i)
  {
    AddressesGrow(bs, lo, hi);
    TilesBounds(bs, lo, hi);
  }
}
