/** From zeroed statics to the first task: what main and port_start_first_task build is the state in which the run
  * theorems start (src/main.c, arch/arm/cortex-m4/port.c). */
module Startup {
  import opened Base
  import opened Selection
  import opened CoreState
  import opened Runs
  import opened Transitions
  import Allocator
  import Blocks
  import Kernel
  import KernelLinks
  import opened Spare
  import TaskStack
  import Witnesses

  // ---- Creating and deleting a task ----

  /** Deleting a task undoes its creation: the priority lists, the cursors and the heap are as they were. */
  lemma DeleteUndoesCreate(c: Core, t: Tid, x: Task, bs: seq<Blocks.Block>, stackSize: nat, lo: nat, hi: nat)
    requires t < |c.task| && x.prio < |c.order| == |c.cursor| && CursorsInLists(c.order, c.cursor)
    requires forall p :: 0 <= p < |c.order| ==> t !in c.order[p]
    requires Blocks.Canonical(bs, lo, hi) && 1 <= stackSize <= MAX_TASK_STACK_SIZE
    requires Blocks.FirstFit(bs, Kernel.StackNeed(stackSize)) < |bs|
    ensures KernelLinks.Removed(KernelLinks.Added(c.Set(t, x), t), t) == c.Set(t, x)
    ensures var need := Kernel.StackNeed(stackSize);
      Kernel.StackFreed(Blocks.Allocate(bs, need), bs[Blocks.FirstFit(bs, need)].addr + Blocks.HEADER) == bs
  {
    hide Blocks.Allocate, Blocks.Release, Blocks.Canonical, Blocks.FirstFit, Allocator.Need, TaskStack.StackSize;
    Blocks.ReleaseUndoesAllocate(bs, Kernel.StackNeed(stackSize), lo, hi);
    var p := x.prio;
    var list := c.order[p];
    WithoutNone(list, {t});
    assert ([t] + list)[1..] == list;
    assert CursorInList(list, c.cursor[p]);
    assert c.order[p := [t] + list][p := list] == c.order && c.cursor[p := c.cursor[p]] == c.cursor;
  }

  // ---- main ----

  const PRIORITIES: seq<nat> := [0, 1, 2, 3, 7]

  /** After `n` of the demo application's tasks were created. */
  function Stage(n: nat): Core
    requires n <= 5
  {
    Core(seq(MAX_TASKS, i requires 0 <= i < MAX_TASKS => if i < n then Kernel.NewTask(PRIORITIES[i], 0) else Kernel.ZEROED),
         None,
         seq(MAX_TASK_PRIORITIES, p requires 0 <= p < MAX_TASK_PRIORITIES =>
           if p < n && p < 4 then [p] else if p == 7 && n == 5 then [4] else []),
         seq(MAX_TASK_PRIORITIES, _ => None), [], None, map[], map[], map[], map[])
  }

  lemma NextStage(n: nat)
    requires n < 5
    ensures KernelLinks.Added(Stage(n).Set(n, Kernel.NewTask(PRIORITIES[n], 0)), n) == Stage(n + 1)
  {
    assert Stage(n).task[n := Kernel.NewTask(PRIORITIES[n], 0)] == Stage(n + 1).task;
    var p := PRIORITIES[n];
    assert Stage(n).order[p] == [] && [n] + [] == [n];
    assert Stage(n).order[PRIORITIES[n] := [n] + Stage(n).order[PRIORITIES[n]]] == Stage(n + 1).order;
  }

  /** Nothing waits yet, and the first `n` TCBs are in use. */
  ghost predicate AtStage(k: Kernel.Kernel, n: nat)
    requires n <= 5
    reads k, k.buf
  {
    k.Valid() && k.Abs() == Stage(n) && k.used == seq(MAX_TASKS, i => i < n)
  }

  lemma FirstStage(k: Kernel.Kernel)
    requires k.Valid() && k.task == seq(MAX_TASKS, _ => Kernel.ZEROED) && k.used == seq(MAX_TASKS, _ => false)
    requires k.current == None && k.Abs().ring == [] && k.kernelTcb == None && k.rrCurrent == seq(MAX_TASK_PRIORITIES, _ => None)
    requires k.order == seq(MAX_TASK_PRIORITIES, _ => []) && k.waiters == map[] && k.sem == map[] && k.owner == map[] && k.queue == map[]
    ensures AtStage(k, 0)
  {
    assert k.task == Stage(0).task && k.order == Stage(0).order;
    assert k.used == seq(MAX_TASKS, i => i < 0);
  }

  const STACK_SIZE: Word := 512

  /** The heap has room for the stacks of `n` more tasks. */
  predicate Room(bs: seq<Blocks.Block>, n: nat)
    decreases n
  {
    n > 0 ==>
      var need := Kernel.StackNeed(STACK_SIZE);
      Blocks.FirstFit(bs, need) < |bs| && Room(Blocks.Allocate(bs, need), n - 1)
  }

  /** It has if a free block of that total size follows any number of live ones. */
  lemma {:induction false} LargeHeapHasRoom(bs: seq<Blocks.Block>, last: Blocks.Block, n: nat)
    requires !last.live && last.size >= n * Kernel.StackNeed(STACK_SIZE) && forall b :: b in bs ==> b.live
    ensures Room(bs + [last], n)
    decreases n
  {
    hide Kernel.StackNeed, Blocks.FirstFit;
    var all, need := bs + [last], Kernel.StackNeed(STACK_SIZE);
    if n > 0 {
      StackNeedIs();
      assert all[|bs|] == last;
      Blocks.FirstFitMeans(all, need);
      LastFits(bs, last, need);
      var live := bs + [Blocks.Block(last.addr, need, true)];
      if last.size - need >= Blocks.MIN_BLOCK {
        var rest := Blocks.Block(last.addr + need, last.size - need, false);
        LargeHeapHasRoom(live, rest, n - 1);
        assert Blocks.Allocate(all, need) == live + [rest];
      }
    }
  }

  lemma LastFits(bs: seq<Blocks.Block>, last: Blocks.Block, need: nat)
    requires (forall b :: b in bs ==> b.live) && Blocks.Fits(last, need)
    ensures Blocks.FirstFit(bs + [last], need) == |bs|
  {
    hide Blocks.FirstFit;
    assert (bs + [last])[|bs|] == last;
  }

  lemma StackNeedIs()
    ensures Kernel.StackNeed(STACK_SIZE) == 1288
  {
    hide TaskStack.RoundUp;
  }

  method CreateNext(k: Kernel.Kernel, heap: Allocator.Heap, n: nat)
    requires n < 5 && AtStage(k, n) && heap.Valid() && Room(heap.blocks, 5 - n)
    modifies k, heap, heap.mem
    ensures AtStage(k, n + 1) && heap.Valid() && Room(heap.blocks, 5 - (n + 1))
  {
    hide Kernel.StackNeed, Blocks.FirstFit, Blocks.Allocate, KernelLinks.Added;
    NextStage(n);
    NobodyWaits(k, n);
    assert !k.used[n];
    var created := k.TaskCreate(heap, PRIORITIES[n], STACK_SIZE, 0);
    assert created == Some(n);
    assert k.used == seq(MAX_TASKS, i => i < n + 1);
  }

  lemma NobodyWaits(k: Kernel.Kernel, n: nat)
    requires n <= 5 && AtStage(k, n)
    ensures k.Abs().waiters == map[] == k.waiters
  {
  }

  lemma FirstSwitch()
    ensures Kernel.Switchable(Stage(5))
    ensures var c := SwitchContext(Stage(5));
      |c.task| == MAX_TASKS && Below(c, 5) && Created(c, 5) == MainSystem().core
  {
    hide SwitchContext;
    var c := Stage(5);
    StageOrder();
    SwitchNeeds(c);
    assert PreemptedTasks(c) == c.task;
    Witnesses.SwitchTo(c, 0, 0);
    var c' := SwitchContext(c);
    assert Created(c', 5).task == MainSystem().core.task;
    assert c'.cursor == MainSystem().core.cursor;
  }

  lemma SwitchNeeds(c: Core)
    requires Kernel.Switchable(c)
    ensures SwitchContext.requires(c)
  {
  }

  lemma StageOrder()
    ensures Stage(5).order == Witnesses.ORDER
  {
  }

  lemma StageGives(k: Kernel.Kernel, n: nat)
    requires n <= 5 && AtStage(k, n)
    ensures k.Valid() && k.current == None && k.Abs() == Stage(n)
  {
  }

  /** main creates its five tasks and starts the first one, on a heap with room for their stacks: the kernel is then in the
    * boot state of the run theorems. */
  method BootDemo(heap: Allocator.Heap) returns (k: Kernel.Kernel)
    requires heap.Valid() && Room(heap.blocks, 5)
    modifies heap, heap.mem
    ensures fresh(k) && k.Valid() && 5 <= |k.Abs().task| && Below(k.Abs(), 5)
    ensures Created(k.Abs(), 5) == MainSystem().core
  {
    hide SwitchContext, Stage, MainSystem, Below, Kernel.Switchable, AtStage, Room;
    k := new Kernel.Kernel();
    FirstStage(k);
    CreateNext(k, heap, 0);
    CreateNext(k, heap, 1);
    CreateNext(k, heap, 2);
    CreateNext(k, heap, 3);
    CreateNext(k, heap, 4);
    FirstSwitch();
    StageGives(k, 5);
    var ok := k.StartFirstTask();
  }

  /** The whole pool after BootDemo: threads of TCBs that were not handed out take no step. */
  function WholeSystem(c: Core): Machine
    requires |c.task| >= 5
  {
    Machine(c, MainSystem().pc + seq(|c.task| - 5, _ => User), MainSystem().worker, MainSystem().idle)
  }

  /** What BootDemo leaves behind has exactly the runs of MainSystem. */
  lemma DemoRunsAreMainSystems(c: Core, es: seq<Event>)
    requires 5 <= |c.task| && Created(c, 5) == MainSystem().core
    ensures Runnable(WholeSystem(c), es) <==> Runnable(MainSystem(), es)
    ensures Runnable(WholeSystem(c), es) ==> SameOut(Play(WholeSystem(c), es), Play(MainSystem(), es), 5)
  {
    hide Boot, Runnable, Play, SameOut;
    var m := WholeSystem(c);
    assert m.pc[..5] == MainSystem().pc;
    assert Trimmed(m, 5) == MainSystem();
    MainSystemBoots();
    RunsIgnoreSpare(m, es, 5);
  }
}
