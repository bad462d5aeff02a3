/** Walking the free list, and the adjacency tests of free (kernel/alloc.c). */
module HeapWalk {
  import opened Base
  import opened Blocks
  import opened HeapMemory
  import opened HeapSteps

  // ---- The cursor (prev, curr) of both search loops ----

  lemma {:induction false} LastFreeAppend(a: seq<Block>, b: seq<Block>)
    ensures LastFree(a + b) == if LastFree(b) != 0 then LastFree(b) else LastFree(a)
    decreases |a|
  {
    if a == [] {
      assert a + b == b;
    } else {
      assert (a + b)[1..] == a[1..] + b;
      LastFreeAppend(a[1..], b);
    }
  }

  lemma {:induction false} LastFreeOfLive(bs: seq<Block>)
    requires forall b :: b in bs ==> b.live
    ensures LastFree(bs) == 0
    decreases |bs|
  {
    if bs != [] {
      LastFreeOfLive(bs[1..]);
    }
  }

  /** The first k blocks have been passed: `prev` is the last free one among them, `curr` the next free one, NULL when
    * there is none. */
  ghost predicate Cursor(mem: seq<Word>, lo: nat, h: nat, bs: seq<Block>, k: nat, prev: nat, curr: nat) {
    k <= |bs| && prev == LastFree(bs[..k]) && Seg(mem, lo, h, bs[..k], curr) && Seg(mem, lo, curr, bs[k..], 0)
  }

  lemma CursorStarts(mem: seq<Word>, lo: nat, hi: nat, h: nat, bs: seq<Block>)
    requires Laid(mem, lo, hi, h, bs)
    ensures Cursor(mem, lo, h, bs, 0, 0, h)
  {
    assert bs[..0] == [] && bs[0..] == bs;
  }

  /** Live blocks are passed without a step. */
  lemma CursorSkips(mem: seq<Word>, lo: nat, h: nat, bs: seq<Block>, k: nat, prev: nat, curr: nat, i: nat)
    requires Cursor(mem, lo, h, bs, k, prev, curr) && k <= i <= |bs| && forall j :: k <= j < i ==> bs[j].live
    ensures Cursor(mem, lo, h, bs, i, prev, curr)
  {
    hide Seg, LastFree;
    assert bs[k..] == bs[k..i] + bs[i..] && bs[..i] == bs[..k] + bs[k..i];
    var m := SegSplit(mem, lo, curr, bs[k..i], bs[i..], 0);
    SegThroughLive(mem, lo, curr, bs[k..i], m);
    SegAppend(mem, lo, h, bs[..k], curr, bs[k..i], curr);
    LastFreeOfLive(bs[k..i]);
    LastFreeAppend(bs[..k], bs[k..i]);
  }

  /** A cursor that is not at the end stands before a free block; one step takes it behind. */
  lemma CursorSteps(mem: seq<Word>, lo: nat, hi: nat, h: nat, bs: seq<Block>, k: nat, prev: nat, curr: nat) returns (i: nat)
    requires Laid(mem, lo, hi, h, bs) && Cursor(mem, lo, h, bs, k, prev, curr) && curr != 0
    ensures k <= i < |bs| && bs[i].addr == curr && !bs[i].live && (forall j :: k <= j < i ==> bs[j].live)
    ensures IsHeader(mem, lo, curr) && mem[W(lo, curr)] == bs[i].size && WellSized(bs[i])
    ensures prev == LastFree(bs[..i])
    ensures Cursor(mem, lo, h, bs, i, prev, curr)
    ensures Cursor(mem, lo, h, bs, i + 1, curr, mem[W(lo, curr) + 1])
  {
    hide Seg, Tiles, LastFree, Around;
    var d := SegNext(mem, lo, curr, bs[k..]);
    i := k + d;
    assert forall j :: k <= j < i ==> bs[j] == bs[k..][j - k];
    CursorSkips(mem, lo, h, bs, k, prev, curr, i);
    var g := FreeBlock(mem, lo, hi, h, bs, i);
    var next := mem[W(lo, curr) + 1];
    AroundGives(mem, lo, hi, h, g, curr, next);
    OneBlock(mem, lo, bs[i], curr, next);
    SegAppend(mem, lo, h, bs[..i], curr, [bs[i]], next);
    assert bs[..i + 1] == bs[..i] + [bs[i]];
    LastFreeAppend(bs[..i], [bs[i]]);
    LastFreeOfOne(bs[i]);
    HeaderAddress(mem, lo, hi, h, g, curr, next);
  }

  lemma LastFreeOfOne(b: Block)
    ensures LastFree([b]) == if b.live then 0 else b.addr
  {
  }

  lemma HeaderAddress(mem: seq<Word>, lo: nat, hi: nat, h: nat, g: Hole, p: nat, q: nat)
    requires Around(mem, lo, hi, h, g, p, q)
    ensures g.start > 0
  {
  }

  /** A cursor at the end has only live blocks left. */
  lemma CursorEnds(mem: seq<Word>, lo: nat, h: nat, bs: seq<Block>, k: nat, prev: nat)
    requires Cursor(mem, lo, h, bs, k, prev, 0) && lo > 0
    ensures forall j :: k <= j < |bs| ==> bs[j].live
  {
    SegEnds(mem, lo, bs[k..]);
    forall j | k <= j < |bs| ensures bs[j].live {
      assert bs[j] == bs[k..][j - k];
    }
  }

  /** The walk of free stops where the freed block belongs. */
  lemma CursorStops(mem: seq<Word>, lo: nat, hi: nat, h: nat, bs: seq<Block>, k: nat, prev: nat, curr: nat, i: nat)
    requires Laid(mem, lo, hi, h, bs) && Cursor(mem, lo, h, bs, k, prev, curr)
    requires k <= i < |bs| && (curr == 0 || bs[i].addr <= curr)
    ensures Cursor(mem, lo, h, bs, i, prev, curr)
  {
    hide Seg, Tiles, LastFree, Cursor;
    AddressesGrow(bs, lo, hi);
    LaidBounds(mem, lo, hi, h, bs);
    if curr == 0 {
      CursorEnds(mem, lo, h, bs, k, prev);
    } else {
      var d := CursorSteps(mem, lo, hi, h, bs, k, prev, curr);
      assert i <= d;
    }
    CursorSkips(mem, lo, h, bs, k, prev, curr, i);
  }

  lemma LaidBounds(mem: seq<Word>, lo: nat, hi: nat, h: nat, bs: seq<Block>)
    requires Laid(mem, lo, hi, h, bs)
    ensures 0 < lo <= hi < TWO_32 && Tiles(bs, lo, hi)
    ensures forall i :: 0 <= i < |bs| ==> lo <= bs[i].addr && bs[i].addr + bs[i].size <= hi && WellSized(bs[i]) && (bs[i].addr - lo) % 8 == 0
  {
    TilesBounds(bs, lo, hi);
  }

  lemma NextStart(mem: seq<Word>, lo: nat, hi: nat, h: nat, bs: seq<Block>, i: nat)
    requires Laid(mem, lo, hi, h, bs) && i + 1 < |bs|
    ensures bs[i].addr + bs[i].size == bs[i + 1].addr
    ensures lo <= bs[i].addr && W(lo, bs[i].addr) + 1 < W(lo, bs[i + 1].addr)
  {
    NextStarts(bs, lo, hi, i);
    LaidBounds(mem, lo, hi, h, bs);
    WApart(lo, bs[i].addr, bs[i + 1].addr);
  }

  // ---- The adjacency tests ----

  /** The link of a free block points just past it exactly when the next block is free. */
  lemma NextIsAdjacent(mem: seq<Word>, lo: nat, hi: nat, h: nat, bs: seq<Block>, i: nat)
    requires Laid(mem, lo, hi, h, bs) && i < |bs| && !bs[i].live
    ensures IsHeader(mem, lo, bs[i].addr)
    ensures var next := mem[W(lo, bs[i].addr) + 1];
      (next != 0 && bs[i].addr + bs[i].size == next) <==> (i + 1 < |bs| && !bs[i + 1].live)
  {
    hide Tiles, Around, Seg;
    var g := FreeBlock(mem, lo, hi, h, bs, i);
    var next := mem[W(lo, bs[i].addr) + 1];
    var tail := bs[i + 1..];
    AroundGives(mem, lo, hi, h, g, bs[i].addr, next);
    LaidBounds(mem, lo, hi, h, bs);
    NextStarts(bs, lo, hi, i);
    AddressesGrow(bs, lo, hi);
    if next != 0 {
      var k := SegNext(mem, lo, next, tail);
      assert bs[i + 1 + k].addr == next && WellSized(bs[i + 1]);
    }
    SegFirst(mem, lo, next, tail);
  }

  lemma SegFirst(mem: seq<Word>, lo: nat, p: nat, bs: seq<Block>)
    requires Seg(mem, lo, p, bs, 0)
    ensures bs != [] && !bs[0].live ==> p == bs[0].addr
  {
  }

  /** The last free block before block i. */
  lemma PrevBlock(mem: seq<Word>, lo: nat, hi: nat, h: nat, bs: seq<Block>, i: nat) returns (j: nat)
    requires Laid(mem, lo, hi, h, bs) && i <= |bs| && LastFree(bs[..i]) != 0
    ensures j < i && bs[j].addr == LastFree(bs[..i]) && !bs[j].live && (forall k :: j < k < i ==> bs[k].live)
    ensures IsHeader(mem, lo, bs[j].addr) && mem[W(lo, bs[j].addr)] == bs[j].size && WellSized(bs[j])
  {
    hide Tiles, Around, Seg, LastFree;
    LaidBounds(mem, lo, hi, h, bs);
    assert bs == bs[..i] + bs[i..];
    var mid := TilesSplit(bs[..i], bs[i..], lo, hi);
    LastFreeHere(bs[..i], lo, mid);
    j :| 0 <= j < i && bs[..i][j].addr == LastFree(bs[..i]) && !bs[..i][j].live && (forall k :: j < k < i ==> bs[..i][k].live);
    assert forall k :: j <= k < i ==> bs[..i][k] == bs[k];
    var g := FreeBlock(mem, lo, hi, h, bs, j);
  }

  lemma NoPrevBlock(bs: seq<Block>, lo: nat, hi: nat, i: nat)
    requires Tiles(bs, lo, hi) && lo > 0 && i <= |bs| && LastFree(bs[..i]) == 0
    ensures forall k :: 0 <= k < i ==> bs[k].live
  {
    hide Tiles, LastFree;
    assert bs == bs[..i] + bs[i..];
    var mid := TilesSplit(bs[..i], bs[i..], lo, hi);
    LastFreeHere(bs[..i], lo, mid);
    assert forall k :: 0 <= k < i ==> bs[k] in bs[..i];
  }

  /** The last free block before block i ends at block i exactly when it is its neighbour. */
  lemma PrevIsAdjacent(mem: seq<Word>, lo: nat, hi: nat, h: nat, bs: seq<Block>, i: nat)
    requires Laid(mem, lo, hi, h, bs) && i < |bs|
    ensures var prev := LastFree(bs[..i]);
      && (prev != 0 ==> IsHeader(mem, lo, prev))
      && ((prev != 0 && prev + mem[W(lo, prev)] == bs[i].addr) <==> (i > 0 && !bs[i - 1].live))
      && (i > 0 && !bs[i - 1].live ==> prev == bs[i - 1].addr)
  {
    hide Tiles, Around, Seg, LastFree, WellSized;
    LaidBounds(mem, lo, hi, h, bs);
    if LastFree(bs[..i]) == 0 {
      NoPrevBlock(bs, lo, hi, i);
    } else {
      var j := PrevBlock(mem, lo, hi, h, bs, i);
      NextStarts(bs, lo, hi, j);
      AddressesGrow(bs, lo, hi);
      LaidBounds(mem, lo, hi, h, bs);
      SizesPositive(bs, lo, hi);
    }
  }

  lemma SizesPositive(bs: seq<Block>, lo: nat, hi: nat)
    requires Tiles(bs, lo, hi)
    ensures forall k :: 0 <= k < |bs| ==> bs[k].size > 0
  {
    TilesBounds(bs, lo, hi);
  }

  /** A free block that starts below block i comes before it. */
  lemma WalkBefore(mem: seq<Word>, lo: nat, hi: nat, h: nat, bs: seq<Block>, i: nat, j: nat)
    requires Laid(mem, lo, hi, h, bs) && i < |bs| && j < |bs| && bs[j].addr < bs[i].addr
    ensures j < i && lo <= bs[j].addr && W(lo, bs[j].addr) + 1 < W(lo, bs[i].addr)
  {
    hide Tiles;
    AddressesGrow(bs, lo, hi);
    LaidBounds(mem, lo, hi, h, bs);
    WApart(lo, bs[j].addr, bs[i].addr);
  }

  lemma CursorGives(mem: seq<Word>, lo: nat, h: nat, bs: seq<Block>, k: nat, prev: nat, curr: nat)
    requires Cursor(mem, lo, h, bs, k, prev, curr)
    ensures k <= |bs| && prev == LastFree(bs[..k]) && Seg(mem, lo, h, bs[..k], curr)
  {
  }

  // ---- What the pieces of free add up to ----

  function Marked(bs: seq<Block>, i: nat): seq<Block>
    requires i < |bs|
  {
    bs[..i] + [Block(bs[i].addr, bs[i].size, false)] + bs[i + 1..]
  }

  function Joined(bs: seq<Block>, i: nat): seq<Block>
    requires i + 1 < |bs|
  {
    bs[..i] + [Block(bs[i].addr, bs[i].size + bs[i + 1].size, false)] + bs[i + 2..]
  }

  function JoinedNext(bs: seq<Block>, i: nat): seq<Block>
    requires i < |bs|
  {
    if i + 1 < |bs| && !bs[i + 1].live then Joined(bs, i) else bs
  }

  function JoinedPrev(bs: seq<Block>, i: nat): seq<Block>
    requires i < |bs|
  {
    if i > 0 && !bs[i - 1].live then Joined(bs, i - 1) else bs
  }

  lemma MarkedLive(bs: seq<Block>, i: nat, lo: nat, hi: nat)
    requires Tiles(bs, lo, hi) && i < |bs| && bs[i].live
    ensures Tiles(Marked(bs, i), lo, hi) && Live(Marked(bs, i)) == Live(bs) - {bs[i].addr}
  {
    hide Tiles, Live;
    var b := bs[i];
    var c := Block(b.addr, b.size, false);
    assert bs == bs[..i] + [b] + bs[i + 1..];
    forall end | Tiles([b], b.addr, end) ensures Tiles([c], b.addr, end) {
      OneTile(b, b.addr, end);
      OneTile(c, b.addr, end);
    }
    var x, y := ReplaceMiddle(bs[..i], [b], bs[i + 1..], [c], lo, hi);
    LiveOfOne(b);
    LiveOfOne(c);
    assert b.addr in Live([b]).Keys;
  }

  lemma JoinedLive(bs: seq<Block>, i: nat, lo: nat, hi: nat)
    requires Tiles(bs, lo, hi) && i + 1 < |bs| && !bs[i].live && !bs[i + 1].live
    ensures Tiles(Joined(bs, i), lo, hi) && Live(Joined(bs, i)) == Live(bs)
  {
    hide Tiles, Live;
    var b, b' := bs[i], bs[i + 1];
    var c := Block(b.addr, b.size + b'.size, false);
    assert bs == bs[..i] + [b, b'] + bs[i + 2..] && [b, b'] == [b] + [b'];
    forall end | Tiles([b, b'], b.addr, end) ensures Tiles([c], b.addr, end) {
      var mid := TilesSplit([b], [b'], b.addr, end);
      OneTile(b, b.addr, mid);
      OneTile(b', mid, end);
      OneTile(c, b.addr, end);
    }
    var x, y := ReplaceMiddle(bs[..i], [b, b'], bs[i + 2..], [c], lo, hi);
    LiveOfOne(c);
    LiveOfTwo(b, b');
  }

  lemma LiveOfTwo(b: Block, b': Block)
    requires !b.live && !b'.live
    ensures Live([b, b']) == map[]
  {
    assert [b, b'][1..] == [b'];
    LiveOfOne(b');
  }

  lemma JoinedCoalesced(bs: seq<Block>, i: nat)
    requires Coalesced(bs) && i < |bs| && bs[i].live
    ensures Coalesced(JoinedPrev(JoinedNext(Marked(bs, i), i), i))
  {
    var one := Marked(bs, i);
    var two := JoinedNext(one, i);
    assert forall j :: 0 <= j < i ==> two[j] == bs[j];
    assert !two[i].live;
    assert forall j :: i < j < |two| ==> two[j] == bs[j + |bs| - |two|];
    assert i + 1 < |two| ==> two[i + 1].live by {
      if i + 1 < |two| {
        assert |two| == |bs| - 1 ==> bs[i + 1].live || bs[i + 2].live;
      }
    }
    JoinedPrevCoalesced(two, i);
  }

  lemma JoinedPrevCoalesced(bs: seq<Block>, i: nat)
    requires i < |bs| && !bs[i].live && (i + 1 < |bs| ==> bs[i + 1].live)
    requires forall j :: 0 <= j < |bs| - 1 && j != i && j + 1 != i ==> bs[j].live || bs[j + 1].live
    ensures Coalesced(JoinedPrev(bs, i))
  {
    var r := JoinedPrev(bs, i);
    if i > 0 && !bs[i - 1].live {
      assert forall j :: 0 <= j < i - 1 ==> r[j] == bs[j];
      assert forall j :: i <= j < |r| ==> r[j] == bs[j + 1];
      assert i > 1 ==> bs[i - 2].live;
    }
  }

  /** Marking the block, joining it with a free next block and then with a free previous one, is Release. */
  lemma JoinsAreRelease(bs: seq<Block>, i: nat, lo: nat, hi: nat)
    requires Canonical(bs, lo, hi) && i < |bs| && bs[i].live
    ensures JoinedPrev(JoinedNext(Marked(bs, i), i), i) == Release(bs, bs[i].addr)
  {
    hide Tiles, Live, Coalesced, Release, Joined;
    var one := Marked(bs, i);
    var two := JoinedNext(one, i);
    MarkedLive(bs, i, lo, hi);
    if i + 1 < |one| && !one[i + 1].live {
      JoinedLive(one, i, lo, hi);
    }
    JoinedIndex(one, i);
    if i > 0 && !two[i - 1].live {
      JoinedLive(two, i - 1, lo, hi);
    }
    JoinedCoalesced(bs, i);
    ReleaseRemoves(bs, bs[i].addr, lo, hi);
    CanonicalIsUnique(JoinedPrev(two, i), Release(bs, bs[i].addr), lo, hi);
  }

  lemma JoinedIndex(bs: seq<Block>, i: nat)
    requires i < |bs| && !bs[i].live
    ensures i < |JoinedNext(bs, i)| && !JoinedNext(bs, i)[i].live && JoinedNext(bs, i)[i].addr == bs[i].addr
    ensures JoinedNext(bs, i)[..i] == bs[..i]
    ensures i > 0 ==> JoinedNext(bs, i)[i - 1] == bs[i - 1]
  {
  }
}
