/** Where task_create puts a task's stack, and the first frame on it (kernel/task.c). */
module TaskStack {
  import opened Arithmetic
  import opened Base
  import opened Blocks
  import Allocator

  const PORT_STACK_GUARD_SIZE: nat := 256
  const CANARY: Word := 0xDEAD_BEEF

  // ---- Bit smearing ----

  /** Bitwise or. */
  function Or(a: nat, b: nat): nat {
    if a == 0 && b == 0 then 0
    else 2 * Or(a / 2, b / 2) + if a % 2 == 1 || b % 2 == 1 then 1 else 0
  }

  function Shift(v: nat, k: nat): nat {
    if k == 0 then v else Shift(v / 2, k - 1)
  }

  /** v | v >> 1 | ... | v >> (k - 1) */
  function Smear(v: nat, k: nat): nat {
    if k == 0 then 0 else Or(v, Smear(v / 2, k - 1))
  }

  /** As many ones as v has binary digits. */
  function AllOnes(v: nat): nat {
    if v == 0 then 0 else 2 * AllOnes(v / 2) + 1
  }

  predicate IsPowerOfTwo(p: nat) {
    p == 1 || (p > 1 && p % 2 == 0 && IsPowerOfTwo(p / 2))
  }

  /** Or joins the digits: bit k is set exactly when it is set in one of the two. */
  lemma {:induction false} OrJoinsBits(a: nat, b: nat, k: nat)
    ensures Shift(Or(a, b), k) % 2 == 1 <==> Shift(a, k) % 2 == 1 || Shift(b, k) % 2 == 1
    decreases k
  {
    if k > 0 {
      OrHalves(a, b);
      OrJoinsBits(a / 2, b / 2, k - 1);
    }
  }

  lemma {:induction false} OrAssociates(a: nat, b: nat, c: nat)
    ensures Or(Or(a, b), c) == Or(a, Or(b, c))
  {
    if a != 0 || b != 0 || c != 0 {
      OrAssociates(a / 2, b / 2, c / 2);
    }
  }

  lemma {:induction false} OrZero(a: nat)
    ensures Or(0, a) == a && Or(a, 0) == a
  {
    if a != 0 {
      OrZero(a / 2);
    }
  }

  lemma OrHalves(a: nat, b: nat)
    ensures Or(a, b) / 2 == Or(a / 2, b / 2)
  {
  }

  lemma {:induction false} SmearHalves(v: nat, k: nat)
    ensures Smear(v / 2, k) == Smear(v, k) / 2
    decreases k
  {
    if k > 0 {
      SmearHalves(v / 2, k - 1);
      OrHalves(v, Smear(v / 2, k - 1));
    }
  }

  lemma {:induction false} SmearShifts(v: nat, k: nat, j: nat)
    ensures Smear(Shift(v, j), k) == Shift(Smear(v, k), j)
    decreases j
  {
    if j > 0 {
      SmearHalves(v, k);
      SmearShifts(v / 2, k, j - 1);
    }
  }

  lemma {:induction false} SmearSplits(v: nat, j: nat, k: nat)
    ensures Smear(v, j + k) == Or(Smear(v, j), Smear(Shift(v, j), k))
    decreases j
  {
    if j == 0 {
      OrZero(Smear(v, k));
    } else {
      SmearSplits(v / 2, j - 1, k);
      OrAssociates(v, Smear(v / 2, j - 1), Smear(Shift(v / 2, j - 1), k));
    }
  }

  /** One smearing step doubles the number of shifts that are joined. */
  lemma SmearDoubles(v: nat, k: nat)
    ensures Or(Smear(v, k), Shift(Smear(v, k), k)) == Smear(v, 2 * k)
  {
    SmearSplits(v, k, k);
    SmearShifts(v, k, k);
  }

  lemma {:induction false} OrFills(v: nat)
    ensures Or(v, AllOnes(v / 2)) == AllOnes(v)
  {
    if v > 1 {
      OrFills(v / 2);
    }
  }

  /** Smearing over as many places as a number has digits turns all of them into ones. */
  lemma {:induction false} SmearFills(v: nat, k: nat)
    requires v < TwoTo(k)
    ensures Smear(v, k) == AllOnes(v)
    decreases k
  {
    if k > 0 {
      SmearFills(v / 2, k - 1);
      OrFills(v);
    }
  }

  lemma ShiftsByFour(v: nat)
    ensures Shift(v, 1) == v / 2 && Shift(v, 2) == v / 4 && Shift(v, 4) == v / 16
  {
    assert Shift(v, 2) == Shift(v / 2, 1) == Shift(v / 2 / 2, 0);
    ShiftsAdd(v, 2, 2);
    assert Shift(v / 4, 2) == Shift(v / 4 / 2, 1) == Shift(v / 4 / 2 / 2, 0);
  }

  lemma Shifts(v: nat)
    ensures Shift(v, 1) == v / 2 && Shift(v, 2) == v / 4 && Shift(v, 4) == v / 16
    ensures Shift(v, 8) == v / 256 && Shift(v, 16) == v / 65536
  {
    hide Shift;
    ShiftsByFour(v);
    ShiftsByFour(v / 16);
    ShiftsByFour(v / 256);
    ShiftsByFour(v / 4096);
    ShiftsAdd(v, 4, 4);
    ShiftsAdd(v, 8, 8);
    ShiftsAdd(v / 256, 4, 4);
  }

  lemma {:induction false} ShiftsAdd(v: nat, j: nat, k: nat)
    ensures Shift(v, j + k) == Shift(Shift(v, j), k)
    decreases j
  {
    if j > 0 {
      ShiftsAdd(v / 2, j - 1, k);
    }
  }

  // ---- Powers of two ----

  /** The number above all ones is the least power of two above v. */
  lemma {:induction false} OnesAreLeast(v: nat)
    ensures IsPowerOfTwo(AllOnes(v) + 1) && v <= AllOnes(v) && (v > 0 ==> AllOnes(v) < 2 * v)
    ensures forall q: nat :: IsPowerOfTwo(q) && q > v ==> q > AllOnes(v)
  {
    if v > 0 {
      OnesAreLeast(v / 2);
      forall q: nat | IsPowerOfTwo(q) && q > v ensures q > AllOnes(v) {
        assert IsPowerOfTwo(q / 2) && q / 2 > v / 2;
      }
    }
  }

  /** What next_power_of_two returns. */
  function RoundUp(v: nat): nat {
    if v <= 32 then 32 else (AllOnes(v - 1) + 1) % TWO_32
  }

  lemma {:induction false} OnesBelow(v: nat, k: nat)
    requires v < TwoTo(k)
    ensures AllOnes(v) < TwoTo(k)
    decreases k
  {
    if k > 0 {
      OnesBelow(v / 2, k - 1);
    }
  }

  lemma {:induction false} OnesAbove(v: nat, k: nat)
    requires v >= TwoTo(k)
    ensures AllOnes(v) >= 2 * TwoTo(k) - 1
    decreases k
  {
    if k > 0 {
      OnesAbove(v / 2, k - 1);
    }
  }

  lemma Powers()
    ensures TwoTo(31) == 0x8000_0000 && TwoTo(32) == TWO_32
  {
    assert TwoTo(8) == 256;
    assert TwoTo(16) == 65536;
    assert TwoTo(24) == 0x100_0000;
  }

  lemma ThirtyTwo()
    ensures IsPowerOfTwo(32)
  {
  }

  /** next_power_of_two gives the least power of two that is at least v and 32, exactly for v up to 2^31; above that the
    * increment wraps and it gives 0. */
  lemma RoundUpIsLeast(v: nat)
    requires v < TWO_32
    ensures RoundUp(v) >= v <==> v <= 0x8000_0000
    ensures v <= 0x8000_0000 ==>
              && IsPowerOfTwo(RoundUp(v)) && RoundUp(v) >= v && RoundUp(v) >= 32
              && forall q: nat :: IsPowerOfTwo(q) && q >= v && q >= 32 ==> q >= RoundUp(v)
    ensures v > 0x8000_0000 ==> RoundUp(v) == 0
  {
    hide IsPowerOfTwo, AllOnes, TwoTo;
    Powers();
    if v <= 32 {
      ThirtyTwo();
    } else {
      OnesAreLeast(v - 1);
      OnesBelow(v - 1, 32);
      if v <= 0x8000_0000 {
        OnesBelow(v - 1, 31);
      } else {
        OnesAbove(v - 1, 31);
      }
    }
  }

  lemma SmearOne(v: nat)
    ensures Smear(v, 1) == v
  {
    OrZero(v);
    assert Smear(v / 2, 0) == 0;
  }

  method NextPowerOfTwo(size: Word) returns (r: Word)
    ensures r == RoundUp(size)
  {
    if size == 0 {
      return 32;
    }
    if size <= 32 {
      return 32;
    }
    hide Or, Shift, Smear, AllOnes, TwoTo;
    var v: nat := size - 1;
    ghost var w := v;
    SmearSteps(w);
    v := Or(v, v / 2);
    assert v == Smear(w, 2);
    v := Or(v, v / 4);
    assert v == Smear(w, 4);
    v := Or(v, v / 16);
    assert v == Smear(w, 8);
    v := Or(v, v / 256);
    assert v == Smear(w, 16);
    v := Or(v, v / 65536);
    assert v == AllOnes(w);
    v := (v + 1) % TWO_32;
    return v;
  }

  lemma SmearSteps(w: nat)
    requires w < TWO_32
    ensures Or(w, w / 2) == Smear(w, 2)
    ensures Or(Smear(w, 2), Smear(w, 2) / 4) == Smear(w, 4)
    ensures Or(Smear(w, 4), Smear(w, 4) / 16) == Smear(w, 8)
    ensures Or(Smear(w, 8), Smear(w, 8) / 256) == Smear(w, 16)
    ensures Or(Smear(w, 16), Smear(w, 16) / 65536) == AllOnes(w)
  {
    hide Or, Shift, Smear, AllOnes, TwoTo;
    SmearOne(w);
    SmearDoubles(w, 1);
    SmearDoubles(w, 2);
    SmearDoubles(w, 4);
    SmearDoubles(w, 8);
    SmearDoubles(w, 16);
    Shifts(w);
    Shifts(Smear(w, 2));
    Shifts(Smear(w, 4));
    Shifts(Smear(w, 8));
    Shifts(Smear(w, 16));
    Powers();
    SmearFills(w, 32);
  }

  // ---- Placement ----

  /** Bytes that task_create asks malloc for. */
  function AllocSize(size: nat): nat
    requires size > 0
  {
    size + PORT_STACK_GUARD_SIZE + (size - 1)
  }

  predicate IsStackSize(size: nat) {
    size in {32, 64, 128, 256, 512}
  }

  /** The size of the stack of a task that asked for `n` bytes. */
  function StackSize(n: nat): (size: nat)
    requires 1 <= n <= MAX_TASK_STACK_SIZE
    ensures IsStackSize(size) && size >= n && (size == 32 <==> n <= 32)
  {
    StackSizes(n);
    RoundUp(n)
  }

  lemma StackSizes(n: nat)
    requires 1 <= n <= MAX_TASK_STACK_SIZE
    ensures IsStackSize(RoundUp(n)) && RoundUp(n) >= n && (RoundUp(n) == 32 <==> n <= 32)
  {
    hide RoundUp;
    RoundUpIsLeast(n);
    assert IsPowerOfTwo(512) && IsPowerOfTwo(32);
    SmallPowers(RoundUp(n));
  }

  lemma SmallPowers(p: nat)
    requires IsPowerOfTwo(p) && 32 <= p <= 512
    ensures IsStackSize(p)
  {
    HalfIsPower(p);
    HalfIsPower(p / 2);
    HalfIsPower(p / 2 / 2);
    HalfIsPower(p / 2 / 2 / 2);
    HalfIsPower(p / 2 / 2 / 2 / 2);
    FewPowers(p / 2 / 2 / 2 / 2 / 2);
  }

  lemma HalfIsPower(p: nat)
    requires IsPowerOfTwo(p) && p > 1
    ensures p % 2 == 0 && IsPowerOfTwo(p / 2)
  {
  }

  lemma FewPowers(q: nat)
    requires IsPowerOfTwo(q) && q <= 16
    ensures q in {1, 2, 4, 8, 16}
  {
    assert q > 1 ==> IsPowerOfTwo(q / 2);
    assert q > 2 ==> IsPowerOfTwo(q / 2 / 2);
    assert q > 4 ==> IsPowerOfTwo(q / 2 / 2 / 2);
  }

  /** The low bits are cleared: `size` is a power of two, so masking them is rounding down to a multiple. */
  function AlignDown(x: nat, size: nat): nat
    requires size > 0
  {
    x / size * size
  }

  lemma AlignDownIsBelow(x: nat, size: nat)
    requires IsStackSize(size)
    ensures AlignDown(x, size) % size == 0 && AlignDown(x, size) % 8 == 0 && AlignDown(x, size) <= x < AlignDown(x, size) + size
  {
    var q, k := x / size, size / 8;
    Division(x, size);
    ProductDivides(q, size);
    assert q * size == (q * k) * 8;
    ProductDivides(q * k, 8);
  }

  /** The lowest multiple of `size` that leaves room for the guard below it. */
  function StackBase(alloc: nat, size: nat): nat
    requires size > 0
  {
    AlignDown((alloc + PORT_STACK_GUARD_SIZE + (size - 1)) % TWO_32, size)
  }

  /** The stack is aligned to its size, and the stack with the guard below it lies inside the allocation. */
  lemma StackIsPlaced(alloc: nat, size: nat)
    requires IsStackSize(size) && alloc + AllocSize(size) <= TWO_32
    ensures var base := StackBase(alloc, size);
      && base % size == 0 && base % 8 == 0
      && alloc + PORT_STACK_GUARD_SIZE <= base && base + size <= alloc + AllocSize(size)
  {
    hide AlignDown;
    AlignDownIsBelow(alloc + PORT_STACK_GUARD_SIZE + (size - 1), size);
  }

  /** Stacks with their guards, in two live blocks of the heap that malloc cut for them, do not overlap. */
  lemma StacksAreApart(bs: seq<Block>, lo: nat, hi: nat, i: nat, j: nat, n: nat, n': nat)
    requires Tiles(bs, lo, hi) && hi <= TWO_32 && i < j < |bs| && bs[i].live && bs[j].live
    requires 1 <= n <= MAX_TASK_STACK_SIZE && 1 <= n' <= MAX_TASK_STACK_SIZE
    requires bs[i].size >= Allocator.Need(AllocSize(StackSize(n))) && bs[j].size >= Allocator.Need(AllocSize(StackSize(n')))
    ensures StackBase(bs[i].addr + HEADER, StackSize(n)) + StackSize(n)
         <= StackBase(bs[j].addr + HEADER, StackSize(n')) - PORT_STACK_GUARD_SIZE
  {
    hide StackSize, Tiles, Allocator.Need, StackBase;
    AddressesGrow(bs, lo, hi);
    TilesBounds(bs, lo, hi);
    Allocator.RequestFitsIff(AllocSize(StackSize(n)));
    Allocator.RequestFitsIff(AllocSize(StackSize(n')));
    StackIsPlaced(bs[i].addr + HEADER, StackSize(n));
    StackIsPlaced(bs[j].addr + HEADER, StackSize(n'));
  }

  // ---- The first frame ----

  /** R4-R11, R0-R3, R12, LR, PC and xPSR, from the lowest address up. */
  function Frame(fn: Word, arg: Word): seq<Word> {
    [0, 0, 0, 0, 0, 0, 0, 0, arg, 0, 0, 0, 0, 0xFFFF_FFFD, fn, 0x0100_0000]
  }

  /** What the context switch and the exception return restore from the words at index `k`: R4 to R11, then the registers
    * that the processor stacks. */
  datatype Registers = Registers(r4to11: seq<Word>, r0: Word, r1: Word, r2: Word, r3: Word, r12: Word, lr: Word, pc: Word, xpsr: Word)

  function Restored(mem: seq<Word>, k: nat): Registers
    requires k + 16 <= |mem|
  {
    Registers(mem[k..k + 8], mem[k + 8], mem[k + 9], mem[k + 10], mem[k + 11], mem[k + 12], mem[k + 13], mem[k + 14], mem[k + 15])
  }

  /** The task starts at `fn` with `arg` as its first argument, in thread mode on the process stack without floating-point
    * state, in Thumb state, and with all other registers 0. */
  predicate Starts(r: Registers, fn: Word, arg: Word) {
    && r.pc == fn && r.r0 == arg
    && r.lr == 0xFFFF_FFFD && r.xpsr == 0x0100_0000
    && r.r1 == r.r2 == r.r3 == r.r12 == 0 && r.r4to11 == [0, 0, 0, 0, 0, 0, 0, 0]
  }

  /** The 16 words at byte address `sp` of the memory at `alloc` start the task, and no other word changed but the first,
    * which now is `first`. */
  ghost predicate TaskReady(before: seq<Word>, after: seq<Word>, alloc: nat, sp: nat, first: Word, fn: Word, arg: Word) {
    && alloc <= sp && |after| == |before|
    && var k := (sp - alloc) / 4;
       && k + 16 <= |after| && Starts(Restored(after, k), fn, arg)
       && (forall j :: 0 <= j < |after| && !(k <= j < k + 16) ==> after[j] == if j == 0 then first else before[j])
  }

  lemma FrameStarts(before: seq<Word>, k: nat, fn: Word, arg: Word)
    requires k + 16 <= |before|
    ensures |Frame(fn, arg)| == 16 && |Overwritten(before, k, Frame(fn, arg))| == |before|
    ensures Starts(Restored(Overwritten(before, k, Frame(fn, arg)), k), fn, arg)
    ensures forall j :: 0 <= j < |before| && !(k <= j < k + 16) ==> Overwritten(before, k, Frame(fn, arg))[j] == before[j]
  {
  }

  lemma FrameIsReady(before: seq<Word>, alloc: nat, sp: nat, fn: Word, arg: Word)
    requires alloc <= sp && (sp - alloc) / 4 + 16 <= |before|
    ensures |Frame(fn, arg)| == 16
    ensures TaskReady(before, Overwritten(before, (sp - alloc) / 4, Frame(fn, arg)), alloc, sp, before[0], fn, arg)
  {
    hide Starts, Restored, Frame;
    FrameStarts(before, (sp - alloc) / 4, fn, arg);
  }

  /** The words from `k` on are replaced by `ws`. */
  function Overwritten(mem: seq<Word>, k: nat, ws: seq<Word>): seq<Word>
    requires k + |ws| <= |mem|
  {
    mem[..k] + ws + mem[k + |ws|..]
  }

  /** The frame that the processor would have pushed, below word `p`. */
  method PushException(mem: array<Word>, p: nat, fn: Word, arg: Word)
    requires 8 <= p <= mem.Length
    modifies mem
    ensures mem[..] == Overwritten(old(mem[..]), p - 8, Frame(fn, arg)[8..])
  {
    hide Overwritten;
    mem[p - 1] := 0x0100_0000;
    mem[p - 2] := fn;
    mem[p - 3] := 0xFFFF_FFFD;
    mem[p - 4] := 0;
    mem[p - 5] := 0;
    mem[p - 6] := 0;
    mem[p - 7] := 0;
    mem[p - 8] := arg;
    ghost var was := old(mem[..]);
    assert forall j :: 0 <= j < mem.Length && !(p - 8 <= j < p) ==> mem[j] == was[j];
    AsParts(was, mem[..], p - 8, Frame(fn, arg)[8..]);
  }

  lemma AsParts(before: seq<Word>, after: seq<Word>, k: nat, ws: seq<Word>)
    requires |after| == |before| && k + |ws| <= |before|
    requires forall j :: 0 <= j < |before| && !(k <= j < k + |ws|) ==> after[j] == before[j]
    requires forall j :: 0 <= j < |ws| ==> after[k + j] == ws[j]
    ensures after == Overwritten(before, k, ws)
  {
  }

  /** The callee-saved registers, zeroed, from word `k` up. */
  method PushRegisters(mem: array<Word>, k: nat)
    requires k + 8 <= mem.Length
    modifies mem
    ensures mem[..] == Overwritten(old(mem[..]), k, [0, 0, 0, 0, 0, 0, 0, 0])
  {
    var i := 0;
    while i < 8
      invariant 0 <= i <= 8
      invariant forall j :: 0 <= j < mem.Length ==> mem[j] == if k <= j < k + i then 0 else old(mem[j])
    {
      mem[k + i] := 0;
      i := i + 1;
    }
    assert mem[..] == mem[..k] + mem[k..k + 8] + mem[k + 8..];
  }

  lemma FrameInParts(mem: seq<Word>, k: nat, fn: Word, arg: Word)
    requires k + 16 <= |mem|
    ensures Overwritten(Overwritten(mem, k + 8, Frame(fn, arg)[8..]), k, [0, 0, 0, 0, 0, 0, 0, 0]) == Overwritten(mem, k, Frame(fn, arg))
  {
    var half := Overwritten(mem, k + 8, Frame(fn, arg)[8..]);
    assert half[..k] == mem[..k];
    assert half[k + 8..] == Frame(fn, arg)[8..] + mem[k + 16..];
    assert Frame(fn, arg) == [0, 0, 0, 0, 0, 0, 0, 0] + Frame(fn, arg)[8..];
  }

  lemma TopIs(alloc: nat, base: nat, size: nat)
    requires alloc % 8 == 0 && base % 8 == 0 && size % 8 == 0 && base + size < TWO_32 && alloc + 64 <= base + size
    ensures (base + size) % TWO_32 / 8 * 8 == base + size
    ensures var p := (base + size - alloc) / 4; alloc + 4 * p == base + size && p >= 16 && (base + size - 64 - alloc) / 4 == p - 16
  {
  }

  /** stack_init, on the words of the memory that starts at `alloc`. */
  method StackInit(mem: array<Word>, alloc: nat, base: nat, size: nat, fn: Word, arg: Word) returns (sp: nat)
    requires alloc % 8 == 0 && base % 8 == 0 && size % 8 == 0 && base + size < TWO_32
    requires alloc + 64 <= base + size <= alloc + 4 * mem.Length
    modifies mem
    ensures sp == base + size - 64
    ensures mem[..] == Overwritten(old(mem[..]), (sp - alloc) / 4, Frame(fn, arg))
    ensures mem.Length > 0 && TaskReady(old(mem[..]), mem[..], alloc, sp, old(mem[0]), fn, arg)
  {
    hide Overwritten, Frame, TaskReady;
    var top := (base + size) % TWO_32 / 8 * 8;
    var p := (top - alloc) / 4;
    TopIs(alloc, base, size);
    PushException(mem, p, fn, arg);
    PushRegisters(mem, p - 16);
    FrameInParts(old(mem[..]), p - 16, fn, arg);
    sp := alloc + 4 * (p - 16);
    FrameIsReady(old(mem[..]), alloc, sp, fn, arg);
  }

  /** The frame was written at `sp` and the canary at the bottom of the allocation; nothing else changed. */
  ghost predicate FramePlaced(before: seq<Word>, after: seq<Word>, alloc: nat, sp: nat, fn: Word, arg: Word) {
    && alloc <= sp && before != [] && (sp - alloc) / 4 + 16 <= |before|
    && after == Overwritten(before[0 := CANARY], (sp - alloc) / 4, Frame(fn, arg)) && after[0] == CANARY
  }

  /** The part of task_create that runs on the allocation `mem` at address `alloc`. The frame is inside the stack exactly
    * when more than 32 bytes were asked for; a smaller stack has 32 bytes and its frame starts in the guard. */
  method PlaceStack(mem: array<Word>, alloc: nat, stackSize: Word, fn: Word, arg: Word) returns (base: nat, size: nat, sp: nat)
    requires 1 <= stackSize <= MAX_TASK_STACK_SIZE && alloc % 8 == 0
    requires AllocSize(StackSize(stackSize)) <= 4 * mem.Length && alloc + 4 * mem.Length < TWO_32
    modifies mem
    ensures size == StackSize(stackSize) && base == StackBase(alloc, size)
    ensures sp == base + size - 64 && alloc + 4 <= sp
    ensures sp >= base <==> stackSize > 32
    ensures FramePlaced(old(mem[..]), mem[..], alloc, sp, fn, arg)
    ensures TaskReady(old(mem[..]), mem[..], alloc, sp, 0xDEAD_BEEF, fn, arg)
  {
    hide RoundUp, AlignDown, StackBase;
    size := NextPowerOfTwo(stackSize);
    StackIsPlaced(alloc, size);
    base := StackBase(alloc, size);
    mem[0] := CANARY;
    ghost var was := mem[..];
    sp := StackInit(mem, alloc, base, size, fn, arg);
    assert mem[..][0] == was[0];
  }
}
