/** Message queues as they lie in memory: the byte ring behind queue push and pop, and its creation
  * (kernel/queue.c). The wait lists of a queue are in Kernel and CoreState. */
module ByteQueue {
  import opened Arithmetic
  import opened Base
  import opened Rings
  import opened Blocks
  import Allocator

  type Byte = bv8

  // ---- Sizes ----

  /** The size that queue_init computes for the buffer, and None where it gives up. Everything is 32 bits wide. */
  function BufferSize(itemSize: nat, size: nat): Option<nat>
    requires itemSize < TWO_32 && size < TWO_32
  {
    if itemSize == 0 || size == 0 then None
    else
      var slots := (size + 1) % TWO_32;
      var total := (itemSize * slots) % TWO_32;
      if slots != 0 && total / slots != itemSize then None else Some(total)
  }

  /** The division test finds exactly the products that wrap. */
  lemma DivisionFindsWrap(i: nat, s: nat)
    requires 0 < s && i < TWO_32
    ensures (i * s) % TWO_32 / s == i <==> i * s < TWO_32
  {
    var total := (i * s) % TWO_32;
    var q := total / s;
    Division(total, s);
    ProductDivides(i, s);
    if i * s >= TWO_32 {
      assert q * s <= total < i * s;
      ProductsOrder(q, i, s);
    }
  }

  /** queue_init asks for a non-empty buffer exactly when both sizes are positive and neither the number of slots nor the
    * number of bytes wraps; then it asks for exactly `size + 1` items. */
  lemma BufferIsLargeEnough(itemSize: nat, size: nat)
    requires itemSize < TWO_32 && size < TWO_32
    ensures var b := BufferSize(itemSize, size);
      && (b.Some? && b.value > 0 <==> itemSize > 0 && 0 < size < TWO_32 - 1 && itemSize * (size + 1) < TWO_32)
      && (b.Some? && b.value > 0 ==> b.value == itemSize * (size + 1))
  {
    if itemSize > 0 && 0 < size < TWO_32 - 1 {
      assert (size + 1) % TWO_32 == size + 1;
      DivisionFindsWrap(itemSize, size + 1);
      assert itemSize * (size + 1) >= 1 * (size + 1);
    } else if itemSize > 0 && size == TWO_32 - 1 {
      assert (size + 1) % TWO_32 == 0;
    }
  }

  /** sizeof(queue_t): eight words. */
  const QUEUE_BYTES: nat := 32

  /** z_impl_queue_create on the kernel heap. A failed creation leaves the heap as it was. After a successful one neither
    * size computation wrapped, and the buffer block holds `size + 1` items exactly when these are at most 2^32 - 16 bytes:
    * above that malloc's own rounding wraps. */
  method CreateQueue(heap: Allocator.Heap, itemSize: nat, size: nat) returns (queue: nat, buffer: nat)
    requires heap.Valid() && itemSize < TWO_32 && size < TWO_32
    modifies heap, heap.mem
    ensures heap.Valid()
    ensures queue == 0 ==> heap.blocks == old(heap.blocks)
    ensures var (total, one) := (itemSize * (size + 1), Allocate(old(heap.blocks), Allocator.Need(QUEUE_BYTES)));
      && (queue != 0 <==>
            && itemSize > 0 && 0 < size < TWO_32 - 1 && total < TWO_32
            && FirstFit(old(heap.blocks), Allocator.Need(QUEUE_BYTES)) < |old(heap.blocks)|
            && FirstFit(one, Allocator.Need(total)) < |one|)
      && (queue != 0 ==>
            && heap.blocks == Allocate(one, Allocator.Need(total)) && buffer == one[FirstFit(one, Allocator.Need(total))].addr + HEADER
            && (Allocator.Need(total) - HEADER >= total <==> total <= TWO_32 - 16))
  {
    hide Allocate, Allocator.Need, Release, FirstFit, Canonical, BufferSize, Allocator.PayloadsKept;
    if itemSize == 0 || size == 0 {
      return 0, 0;
    }
    ghost var was, need := heap.blocks, Allocator.Need(QUEUE_BYTES);
    heap.IsCanonical();
    FirstFitMeans(was, need);
    queue := heap.Malloc(QUEUE_BYTES);
    if queue == 0 {
      return 0, 0;
    }
    ghost var one := heap.blocks;
    heap.Owns(was, need, queue);
    BufferIsLargeEnough(itemSize, size);
    buffer := QueueInit(heap, itemSize, size);
    if buffer == 0 {
      heap.Free(queue);
      ReleaseUndoesAllocate(was, need, heap.Lo(), heap.heapEnd);
      return 0, 0;
    }
    Allocator.RequestFitsIff(itemSize * (size + 1));
  }

  /** queue_init: the buffer's address, NULL on failure. */
  method QueueInit(heap: Allocator.Heap, itemSize: nat, size: nat) returns (buffer: nat)
    requires heap.Valid() && heap.inited && itemSize < TWO_32 && size < TWO_32
    modifies heap, heap.mem
    ensures heap.Valid() && heap.inited
    ensures buffer == 0 ==> heap.blocks == old(heap.blocks)
    ensures var b := BufferSize(itemSize, size);
      && (buffer != 0 <==> b.Some? && b.value > 0 && FirstFit(old(heap.blocks), Allocator.Need(b.value)) < |old(heap.blocks)|)
      && (buffer != 0 ==>
            var (was, need) := (old(heap.blocks), Allocator.Need(b.value));
            heap.blocks == Allocate(was, need) && buffer == was[FirstFit(was, need)].addr + HEADER)
  {
    hide Allocate, Allocator.Need, FirstFit, Allocator.PayloadsKept;
    if itemSize == 0 || size == 0 {
      return 0;
    }
    var slots := (size + 1) % TWO_32;
    var total := (itemSize * slots) % TWO_32;
    if slots != 0 && total / slots != itemSize {
      return 0;
    }
    FirstFitMeans(heap.blocks, Allocator.Need(total));
    buffer := heap.Malloc(total);
  }

  /** A run may create a queue of these sizes exactly when queue_init asks malloc for a buffer and a block that malloc cuts
    * for it is large enough. */
  lemma BuildableMeans(itemSize: nat, size: nat)
    requires itemSize < TWO_32 && size < TWO_32
    ensures var b := BufferSize(itemSize, size);
      Buildable(itemSize, size) <==> b.Some? && b.value > 0 && Allocator.Need(b.value) >= b.value + HEADER
  {
    hide Allocator.Need, BufferSize;
    var b := BufferSize(itemSize, size);
    BufferIsLargeEnough(itemSize, size);
    if Buildable(itemSize, size) {
      Below(1, itemSize, size + 1);
    }
    if b.Some? && b.value > 0 {
      Allocator.RequestFitsIff(b.value);
    }
  }

  /** A queue of 0xFFFF_FFF0 items of one byte is created on a heap of 64 bytes, with a buffer of 16. */
  method UndersizedBuffer() returns (heap: Allocator.Heap, queue: nat, buffer: nat)
    ensures fresh(heap) && heap.Valid() && queue != 0 && !Buildable(1, 0xFFFF_FFF0)
    ensures heap.blocks == [Block(8, 40, true), Block(48, 24, true)] && buffer == 48 + HEADER
  {
    var mem := new Word[16](_ => 0);
    heap := new Allocator.Heap(8, 72, mem);
    assert heap.blocks == [Block(8, 64, false)];
    ghost var one := [Block(8, 40, true), Block(48, 24, false)];
    Allocator.RequestWrapsAt();
    assert Allocator.Need(QUEUE_BYTES) == 40;
    assert FirstFit(heap.blocks, 40) == 0 && Allocate(heap.blocks, 40) == one;
    assert FirstFit(one[1..], 16) == 0 && FirstFit(one, 16) == 1 && Allocate(one, 16) == [one[0], Block(48, 24, true)];
    queue, buffer := CreateQueue(heap, 1, 0xFFFF_FFF0);
  }

  // ---- The byte ring ----

  /** The bytes of slot `i`. */
  function SlotOf(bytes: seq<Byte>, n: nat, i: nat): seq<Byte>
    requires (i + 1) * n <= |bytes|
  {
    bytes[i * n..(i + 1) * n]
  }

  lemma SlotBounds(n: nat, i: nat, slots: nat)
    requires i < slots
    ensures i * n + n == (i + 1) * n <= slots * n
  {
    Below(i + 1, slots, n);
  }

  /** The buffer as a sequence of items, one for each slot. */
  ghost function Slots(bytes: seq<Byte>, n: nat, slots: nat): (r: seq<seq<Byte>>)
    requires slots * n <= |bytes|
    ensures |r| == slots && forall i :: 0 <= i < slots ==> (i + 1) * n <= |bytes| && r[i] == SlotOf(bytes, n, i)
  {
    seq(slots, i requires 0 <= i < slots => (SlotBounds(n, i, slots); SlotOf(bytes, n, i)))
  }

  /** Copying an item to slot `k` changes that slot and no other. */
  lemma OnlyOneSlotChanges(before: seq<Byte>, after: seq<Byte>, n: nat, slots: nat, k: nat, item: seq<Byte>)
    requires k < slots && slots * n <= |before| == |after| && |item| == n
    requires (k + 1) * n <= |before| && after == before[..k * n] + item + before[k * n + n..]
    ensures Slots(after, n, slots) == Slots(before, n, slots)[k := item]
  {
    hide Slots;
    SlotBounds(n, k, slots);
    forall i | 0 <= i < slots ensures Slots(after, n, slots)[i] == Slots(before, n, slots)[k := item][i] {
      SlotBounds(n, i, slots);
      if i < k {
        Below(i + 1, k, n);
      } else if i > k {
        Below(k + 1, i, n);
      }
    }
  }

  /** The byte offset of slot `i`, in 32 bits. */
  function Offset(i: nat, n: nat): nat {
    i * n % TWO_32
  }

  lemma OffsetIs(i: nat, n: nat, slots: nat)
    requires i < slots && slots * n < TWO_32
    ensures Offset(i, n) == i * n && i * n + n == (i + 1) * n <= slots * n
  {
    SlotBounds(n, i, slots);
  }

  /** Pushes and pops stay inside the buffer, whatever slot it is the turn of, exactly when it is as large as requested. */
  lemma SlotsFitIff(itemSize: nat, size: nat, length: nat)
    requires itemSize < TWO_32 && size < TWO_32 && BufferSize(itemSize, size).Some? && BufferSize(itemSize, size).value > 0
    ensures (forall i :: 0 <= i <= size ==> Offset(i, itemSize) + itemSize <= length) <==> BufferSize(itemSize, size).value <= length
  {
    hide Offset, BufferSize;
    BufferIsLargeEnough(itemSize, size);
    forall i | 0 <= i <= size
      ensures Offset(i, itemSize) + itemSize == (i + 1) * itemSize <= BufferSize(itemSize, size).value
    {
      OffsetIs(i, itemSize, size + 1);
    }
    assert Offset(size, itemSize) + itemSize == BufferSize(itemSize, size).value;
  }

  /** The next index around the ring, in 32 bits. */
  function NextIndex(i: nat, slots: nat): nat
    requires slots > 0
  {
    (i + 1) % TWO_32 % slots
  }

  lemma NextIndexIs(i: nat, slots: nat)
    requires i < slots < TWO_32
    ensures NextIndex(i, slots) == Advance(i, slots) < slots
  {
  }

  /** A queue's descriptor fields and buffer. */
  datatype Memory = Memory(itemSize: nat, size: nat, buffer: seq<Byte>, head: nat, tail: nat)
  {
    function SlotCount(): nat {
      size + 1
    }
  }

  ghost predicate MemoryOk(m: Memory) {
    && m.itemSize > 0 && m.size > 0 && m.SlotCount() < TWO_32
    && m.SlotCount() * m.itemSize <= |m.buffer| && m.SlotCount() * m.itemSize < TWO_32
    && m.head < m.SlotCount() && m.tail < m.SlotCount()
  }

  /** The queued items, oldest first. */
  ghost function ItemsOf(m: Memory): (r: seq<seq<Byte>>)
    requires MemoryOk(m)
    ensures |r| <= m.size
  {
    Contents(Slots(m.buffer, m.itemSize, m.SlotCount()), m.head, m.tail)
  }

  predicate IsFull(m: Memory) {
    NextIndex(m.tail, m.SlotCount()) == m.head
  }

  lemma FullMeans(m: Memory)
    requires MemoryOk(m)
    ensures IsFull(m) <==> |ItemsOf(m)| == m.size
    ensures m.head == m.tail <==> ItemsOf(m) == []
  {
    hide Slots, Contents, Advance, NextIndex;
    NextIndexIs(m.tail, m.SlotCount());
    FullAndEmpty(Slots(m.buffer, m.itemSize, m.SlotCount()), m.head, m.tail);
  }

  /** An item is copied to the tail slot and the tail moves on. */
  function Stored(m: Memory, item: seq<Byte>): (r: Memory)
    requires |item| == m.itemSize && Offset(m.tail, m.itemSize) + m.itemSize <= |m.buffer|
  {
    var start := Offset(m.tail, m.itemSize);
    m.(buffer := m.buffer[..start] + item + m.buffer[start + m.itemSize..], tail := NextIndex(m.tail, m.SlotCount()))
  }

  ghost predicate HasStored(m: Memory, item: seq<Byte>, m': Memory) {
    |item| == m.itemSize && Offset(m.tail, m.itemSize) + m.itemSize <= |m.buffer| && m' == Stored(m, item)
  }

  /** The bytes at the head. */
  function Front(m: Memory): (item: seq<Byte>)
    requires Offset(m.head, m.itemSize) + m.itemSize <= |m.buffer|
    ensures |item| == m.itemSize
  {
    m.buffer[Offset(m.head, m.itemSize)..Offset(m.head, m.itemSize) + m.itemSize]
  }

  function Dropped(m: Memory): Memory {
    m.(head := NextIndex(m.head, m.SlotCount()))
  }

  lemma OffsetsFit(m: Memory)
    requires MemoryOk(m)
    ensures Offset(m.head, m.itemSize) + m.itemSize <= |m.buffer| && Offset(m.tail, m.itemSize) + m.itemSize <= |m.buffer|
  {
    hide Offset;
    OffsetIs(m.head, m.itemSize, m.SlotCount());
    OffsetIs(m.tail, m.itemSize, m.SlotCount());
  }

  /** Byte for byte, storing appends an item. */
  lemma StoredAppends(m: Memory, item: seq<Byte>)
    requires MemoryOk(m) && !IsFull(m) && |item| == m.itemSize
    ensures Offset(m.tail, m.itemSize) + m.itemSize <= |m.buffer|
    ensures MemoryOk(Stored(m, item)) && ItemsOf(Stored(m, item)) == ItemsOf(m) + [item]
  {
    hide Slots, Contents, Advance, Offset, NextIndex;
    var n, slots := m.itemSize, m.SlotCount();
    OffsetsFit(m);
    NextIndexIs(m.tail, slots);
    OffsetIs(m.tail, n, slots);
    StoreAppends(Slots(m.buffer, n, slots), m.head, m.tail, item);
    OnlyOneSlotChanges(m.buffer, Stored(m, item).buffer, n, slots, m.tail, item);
  }

  /** Byte for byte, dropping the head removes the oldest item. */
  lemma DroppedDrops(m: Memory)
    requires MemoryOk(m) && m.head != m.tail
    ensures Offset(m.head, m.itemSize) + m.itemSize <= |m.buffer|
    ensures MemoryOk(Dropped(m)) && ItemsOf(m) == [Front(m)] + ItemsOf(Dropped(m))
  {
    hide Slots, Contents, SlotOf, Advance, Offset, NextIndex;
    var n, slots := m.itemSize, m.SlotCount();
    OffsetsFit(m);
    NextIndexIs(m.head, slots);
    OffsetIs(m.head, n, slots);
    AdvanceDrops(Slots(m.buffer, n, slots), m.head, m.tail);
    SlotIs(m.buffer, n, m.head, Offset(m.head, n));
  }

  /** The queue with its buffer as an array that is updated in place. */
  class Ring {
    const itemSize: nat
    const size: nat
    const slots: nat
    const buffer: array<Byte>
    var head: nat
    var tail: nat

    ghost function State(): Memory
      reads this, buffer
    {
      Memory(itemSize, size, buffer[..], head, tail)
    }

    ghost predicate Valid()
      reads this, buffer
    {
      slots == size + 1 && MemoryOk(State())
    }

    ghost function Items(): seq<seq<Byte>>
      requires Valid()
      reads this, buffer
    {
      ItemsOf(State())
    }

    /** On a buffer of at least the size that queue_init computes. */
    constructor (itemSize: nat, size: nat, buffer: array<Byte>)
      requires itemSize < TWO_32 && size < TWO_32 && BufferSize(itemSize, size).Some? && BufferSize(itemSize, size).value > 0
      requires buffer.Length >= BufferSize(itemSize, size).value
      ensures Valid() && Items() == [] && this.itemSize == itemSize && this.size == size && this.buffer == buffer
    {
      BufferIsLargeEnough(itemSize, size);
      this.itemSize, this.size, this.buffer := itemSize, size, buffer;
      slots := (size + 1) % TWO_32;
      head, tail := 0, 0;
    }

    /** The attempt of z_impl_queue_push: the item is copied in unless the queue is full. */
    method Push(item: array<Byte>) returns (ok: bool)
      requires Valid() && item != buffer && item.Length >= itemSize
      modifies this`tail, buffer
      ensures Valid() && item[..] == old(item[..])
      ensures ok <==> |old(Items())| < size
      ensures Items() == if ok then old(Items()) + [item[..itemSize]] else old(Items())
      ensures if ok then HasStored(old(State()), item[..itemSize], State()) else State() == old(State())
    {
      hide MemoryOk, ItemsOf, Offset, NextIndex;
      ghost var was := State();
      FullMeans(was);
      OffsetsFit(was);
      SlotsPositive(was);
      var next := NextIndex(tail, slots);
      if next == head {
        return false;
      }
      StoredAppends(was, item[..itemSize]);
      Copy(buffer, Offset(tail, itemSize), item, 0, itemSize);
      tail := next;
      return true;
    }

    /** The attempt of z_impl_queue_pop: the oldest item is copied out unless the queue is empty. */
    method Pop(item: array<Byte>) returns (ok: bool)
      requires Valid() && item != buffer && item.Length >= itemSize
      modifies this`head, item
      ensures Valid() && item[itemSize..] == old(item[itemSize..])
      ensures ok <==> old(Items()) != []
      ensures if ok then old(Items()) == [item[..itemSize]] + Items() else Items() == old(Items()) && item[..] == old(item[..])
      ensures State() == if ok then Dropped(old(State())) else old(State())
    {
      hide MemoryOk, ItemsOf, Offset, NextIndex;
      ghost var was := State();
      FullMeans(was);
      OffsetsFit(was);
      SlotsPositive(was);
      if head == tail {
        return false;
      }
      DroppedDrops(was);
      Copy(item, 0, buffer, Offset(head, itemSize), itemSize);
      Replaced(old(item[..]), item[..], Front(was));
      head := NextIndex(head, slots);
      return true;
    }
  }

  lemma SlotsPositive(m: Memory)
    requires MemoryOk(m)
    ensures m.SlotCount() > 0 && |ItemsOf(m)| <= m.size
  {
  }

  lemma Replaced(before: seq<Byte>, after: seq<Byte>, x: seq<Byte>)
    requires |x| <= |before| && after == before[..0] + x + before[0 + |x|..]
    ensures after[..|x|] == x && after[|x|..] == before[|x|..]
  {
  }

  lemma SlotIs(bytes: seq<Byte>, n: nat, i: nat, start: nat)
    requires start == i * n && (i + 1) * n <= |bytes|
    ensures start + n <= |bytes| && SlotOf(bytes, n, i) == bytes[start..start + n]
  {
  }

  /** memcpy */
  method Copy(dst: array<Byte>, d: nat, src: array<Byte>, s: nat, n: nat)
    requires dst != src && d + n <= dst.Length && s + n <= src.Length
    modifies dst
    ensures dst[..] == old(dst[..])[..d] + src[s..s + n] + old(dst[..])[d + n..]
  {
    var i := 0;
    while i < n
      invariant 0 <= i <= n
      invariant forall j :: 0 <= j < dst.Length ==> dst[j] == if d <= j < d + i then src[s + j - d] else old(dst[j])
    {
      dst[d + i] := src[s + i];
      i := i + 1;
    }
  }
}
