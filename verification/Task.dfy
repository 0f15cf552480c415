/** The FIFO queue: a list that is filled at the back and emptied at the front. */
module Queues {
  import opened Lists

  /** `struct gt_queue` */
  class Queue {
    const list: List

    constructor ()
      ensures fresh(list) && fresh(list.head) && list.head.home == list && list.head.live
      ensures list.head.prev == list.head.next == null && list.nodes == []
    {
      list := new List();
    }

    /** `gt_queue_init` */
    method Init()
      requires list.head.home == list && list.head.live
      modifies list`nodes, list.head`next, list.head`prev
      ensures list.Valid() && list.nodes == []
    {
      list.Init();
    }

    /** `gt_queue_is_empty` */
    method IsEmpty() returns (empty: bool)
      requires list.Valid()
      ensures empty <==> list.nodes == []
    {
      list.EmptyMeansNone();
      empty := list.IsEmpty();
    }

    /** `gt_queue_peek` */
    method Peek() returns (node: Node?)
      requires list.Valid()
      ensures node == if list.nodes == [] then null else list.nodes[0]
    {
      node := list.Front();
    }

    /** `gt_queue_enqueue` */
    method Enqueue(node: Node)
      requires list.Valid() && node.home == null && node.live
      modifies list`nodes, node`prev, node`next, node`home, list.head`prev, list.At(|list.nodes| - 1)`next
      ensures list.Valid() && node.home == list && node.live
      ensures list.nodes == old(list.nodes) + [node]
      ensures forall m: List | old(allocated(m)) && m != list && old(m.Valid()) :: m.Valid() && m.nodes == old(m.nodes)
    {
      PushBack(list, node);
    }

    /** `gt_queue_dequeue` */
    method Dequeue() returns (node: Node?)
      requires list.Valid()
      modifies list`nodes, list.Firsts()`prev, list.Firsts()`next, list.Firsts()`home, list.head`next, list.At(1)`prev
      ensures list.Valid()
      ensures if old(list.nodes) == [] then node == null && list.nodes == []
              else node == old(list.nodes)[0] && list.nodes == old(list.nodes)[1..]
                   && node.prev == node.next == null && node.home == null && node.live
      ensures forall m: List | old(allocated(m)) && m != list && old(m.Valid()) :: m.Valid() && m.nodes == old(m.nodes)
    {
      node := list.Front();
      if node != null {
        Remove(node, list, 0);
      }
    }
  }
}

/** Tasks, the heap blocks they live in, and the scheduler that orders them. */
module Tasks {
  import opened Programs
  import opened Statuses
  import opened Journals
  import opened Lists
  import opened Queues
  import opened Memories
  import opened VirtualMemory
  import opened Stacks
  import opened Contexts
  import opened Machine
  import opened Bitmaps
  import opened IdPools
  import Pages

  datatype TaskState = NewTask | ReadyTask | RunningTask | ZombieTask

  /** Where the runtime's own code lies: the context start routine, and the trampoline all tasks start with. */
  datatype Boot = Boot(code: Code, trampoline: Word)

  /** `struct gt_task`: `entry` is the entry function with its argument, `rest` what the saved
      context will go on with when it is loaded, `rsp` the stack pointer in the saved context.
      `address` is where the structure lies; once the task has `begun`, its context no longer leads into the
      trampoline, which calls `entry`.  `request` is the stack size that was asked for. */
  class Task {
    var id: nat
    var state: TaskState
    var entry: Program
    var rest: Program
    var stack: Stack
    var rsp: Word
    var begun: bool
    ghost var request: nat
    const address: Word
    const readyNode: Node
    const runtimeNode: Node

    /** A block as the heap hands it out: all zeros. */
    constructor (address: Word)
      ensures fresh(readyNode) && fresh(runtimeNode) && Wired()
      ensures Cleared() && Detached() && this.address == address
      ensures readyNode.live && runtimeNode.live
    {
      id, state, entry, rest, stack, rsp, begun := 0, NewTask, Done, Done, NO_STACK, 0, false;
      request := 0;
      this.address := address;
      readyNode := new Node(null);
      runtimeNode := new Node(null);
      new;
      readyNode.owner := this;
      runtimeNode.owner := this;
    }

    /** The two embedded nodes lead back to this task. */
    ghost predicate Wired()
      reads readyNode`owner, runtimeNode`owner
    {
      && readyNode.owner == this && runtimeNode.owner == this
      && readyNode != runtimeNode
    }

    ghost predicate Cleared()
      reads this, readyNode, runtimeNode
    {
      && id == 0 && state == NewTask && entry == Done && rest == Done && stack == NO_STACK && rsp == 0 && !begun
      && request == 0
      && readyNode.prev == readyNode.next == runtimeNode.prev == runtimeNode.next == null
    }

    ghost predicate Detached()
      reads readyNode`home, runtimeNode`home
    {
      readyNode.home == null && runtimeNode.home == null
    }

    /** Its first load will lead through the start routine into the trampoline, with the task as argument, and the
        trampoline will call what the task is to run. */
    ghost predicate Poised(boot: Boot, memory: Memory)
      reads `stack, `rsp, `entry, `rest
    {
      var top := stack.base + stack.size;
      && entry == rest
      && FRAME <= top < Pages.SIZE_MODULUS && top % STACK_ALIGNMENT == 0
      && address != 0 && rsp == Down(top, FRAME) && Read(memory, Down(top, FRAME)) == boot.code.start
      && Read(memory, Down(top, 16)) == boot.trampoline && Read(memory, Down(top, 8)) == address
    }

    /** `__gt_task_clear`: wipes the whole structure, the links of both nodes included. */
    method Clear()
      requires readyNode.live && runtimeNode.live
      modifies this, readyNode`prev, readyNode`next, runtimeNode`prev, runtimeNode`next
      ensures Cleared()
    {
      id, state, entry, rest, stack, rsp, begun := 0, NewTask, Done, Done, NO_STACK, 0, false;
      request := 0;
      readyNode.prev, readyNode.next := null, null;
      runtimeNode.prev, runtimeNode.next := null, null;
    }

    /** The fields of a new task. */
    method Begin(id: nat, entry: Program)
      requires readyNode.live && runtimeNode.live
      modifies this, readyNode`prev, readyNode`next, runtimeNode`prev, runtimeNode`next
      ensures this.id == id && state == NewTask && this.entry == entry && !begun
    {
      Clear();
      this.id := id;
      state := NewTask;
      this.entry := entry;
    }

    /** `gt_task_init`: takes a stack and a context, or gives back what it took. */
    method Init(id: nat, entry: Program, stackSize: nat, vm: Vm, taken: set<Word>)
      returns (status: Status, ghost verdict: Verdict)
      requires readyNode.live && runtimeNode.live
      requires vm.Valid() && Supported(vm.page.size) && Legal(stackSize, vm.page.size)
      modifies this, readyNode`prev, readyNode`next, runtimeNode`prev, runtimeNode`next, vm`live, vm.journal
      ensures vm.Valid()
      ensures status == Success ==>
                && verdict == Granted
                && vm.journal.entries == old(vm.journal.entries) + Middle(3)
                && this.id == id && state == NewTask && this.entry == entry && !begun && request == stackSize
                && Laid(stack, stackSize, vm.page.size) && stack.mapping.base !in old(vm.live)
                && Unclaimed(taken, stack.mapping.base, stack.mapping.size)
                && vm.live == old(vm.live)[stack.mapping.base := RegionOf(stack)]
                && stack.base + stack.size < Pages.SIZE_MODULUS && rsp == stack.base + stack.size
      ensures status != Success ==>
                && vm.live == old(vm.live)
                && (verdict.NoReservation? || verdict.NoProtection? || verdict.NoContext?)
                && status == Refusal(verdict)
                && vm.journal.entries == old(vm.journal.entries) + Late(verdict)
    {
      hide Laid, Separate, Fitting, Supported, Agreed, Unclaimed;
      MiddleLists();
      Begin(id, entry);
      request := stackSize;
      var s;
      status, s := StackInit(vm, stackSize, taken);
      stack := s;
      verdict := Granted;
      if status != Success {
        verdict := if status == VmProtectionFailed then NoProtection else NoReservation(status == OutOfMemory);
        return;
      }
      StackIsSuited(vm.live, s, stackSize, vm.page.size);
      var sp;
      status, sp := ContextInit(vm.journal, s.base, s.size);
      rsp := sp;
      if status != Success {
        verdict := NoContext(status);
        StackDestroy(vm, stack);
        Clear();
        return;
      }
    }

    /** `gt_task_destroy`: gives the stack back and wipes the structure. */
    method Destroy(vm: Vm)
      requires readyNode.live && runtimeNode.live
      requires vm.Valid() && stack.mapping.base in vm.live && vm.live[stack.mapping.base] == RegionOf(stack)
      modifies this, readyNode`prev, readyNode`next, runtimeNode`prev, runtimeNode`next, vm`live
      ensures vm.Valid() && vm.live == old(vm.live) - {old(stack.mapping.base)}
      ensures Cleared()
    {
      StackDestroy(vm, stack);
      Clear();
    }
  }

  /** Stack sizes that can be asked for: nothing wraps, and the first frame has room. */
  predicate Legal(request: nat, page: nat) {
    Fitting(request, page) && Roomy(request, page)
  }

  // What is heard between the heap and the scheduler

  /** The answers of `n` layers after the heap, all of which agree. */
  function Middle(n: nat): seq<Entry>
    requires n <= 5
  {
    Agreed(n + 1)[1..]
  }

  /** The answers after the heap's when the attempt ends with this refusal. */
  function Late(v: Verdict): seq<Entry>
    requires v != NoHeap && v != Granted
  {
    Middle(Passed(v) - 1) + [Said(ORDER[Passed(v)], Refusal(v))]
  }

  lemma MiddleLists()
    ensures Agreed(1) == [Said(Allocation, Success)]
    ensures Middle(0) == []
    ensures Middle(1) == [Said(Reservation, Success)]
    ensures Middle(2) == [Said(Reservation, Success), Said(Protection, Success)]
    ensures Middle(3) == [Said(Reservation, Success), Said(Protection, Success), Said(ContextSetup, Success)]
    ensures Middle(4) == Middle(3) + [Said(EntrySetup, Success)]
    ensures Middle(5) == Middle(4) + [Said(Admission, Success)]
  {
    assert Agreed(2) == Agreed(1) + [Said(Reservation, Success)];
    assert Agreed(3) == Agreed(2) + [Said(Protection, Success)];
    assert Agreed(4) == Agreed(3) + [Said(ContextSetup, Success)];
    assert Agreed(5) == Agreed(4) + [Said(EntrySetup, Success)];
    assert Agreed(6) == Agreed(5) + [Said(Admission, Success)];
  }

  lemma {:induction false} AgreedStarts(n: nat)
    requires 0 < n <= 6
    ensures Agreed(n) == [Said(Allocation, Success)] + Agreed(n)[1..]
  {
    if n > 1 {
      AgreedStarts(n - 1);
    }
  }

  /** What is heard in all is what the heap said and what was heard after it. */
  lemma HeardInParts(v: Verdict, reply: Reply)
    ensures v != NoHeap && v != Granted ==> Heard(v, reply) == Agreed(1) + Late(v)
    ensures Agreed(6) == Agreed(1) + Middle(5)
  {
    hide Agreed;
    MiddleLists();
    AgreedStarts(6);
    if v != NoHeap && v != Granted {
      AgreedStarts(Passed(v));
    }
  }

  /** A fresh stack meets what contexts demand of theirs. */
  lemma StackIsSuited(live: map<nat, Region>, s: Stack, request: nat, page: nat)
    requires Supported(page) && Separate(live, page) && Laid(s, request, page)
    requires s.mapping.base in live && live[s.mapping.base] == RegionOf(s)
    ensures s.base != 0 && s.size != 0 && s.base % STACK_ALIGNMENT == 0 && s.size % STACK_ALIGNMENT == 0
    ensures s.base + s.size < Pages.SIZE_MODULUS
  {}

  lemma TopOfStack(live: map<nat, Region>, s: Stack, request: nat, page: nat)
    requires Supported(page) && Laid(s, request, page) && Roomy(request, page)
    requires s.mapping.base in live && live[s.mapping.base] == RegionOf(s)
    ensures Serves(s, request, page) && s.base + s.size >= FRAME && (s.base + s.size) % STACK_ALIGNMENT == 0
    ensures forall b: nat | s.base + s.size - FRAME <= b < s.base + s.size :: Accessible(live, b)
  {
    hide Supported, Laid, Roomy, Accessible;
    SupportedIsPositive(page);
    RoomyIsUsable(s, request, page);
    Pages.MultipleSum(s.base, s.size, STACK_ALIGNMENT);
    OpenStack(live, s);
  }

  lemma OpenStack(live: map<nat, Region>, s: Stack)
    requires s.mapping.base in live && live[s.mapping.base] == RegionOf(s)
    ensures forall b: nat | s.base <= b < s.base + s.size :: Accessible(live, b)
  {
    forall b: nat | s.base <= b < s.base + s.size ensures Accessible(live, b) {
      assert live[s.mapping.base].openAt <= b;
    }
  }

  /** `gt_context_init`, for a context that is part of a task and keeps its stack pointer in `Task.rsp`, which
      stands for its record (`Contexts.FieldStandsForRecord`): any backend may refuse.  Masking the low bits of
      the stack's end is rounding down (`Numerals.MaskRoundsDown`), and changes nothing for an aligned stack. */
  method ContextInit(journal: Journal, base: nat, size: nat) returns (status: Status, rsp: Word)
    requires base != 0 && size != 0 && base % STACK_ALIGNMENT == 0 && size % STACK_ALIGNMENT == 0
    requires base + size < Pages.SIZE_MODULUS
    modifies journal
    ensures journal.entries == old(journal.entries) + [Said(ContextSetup, status)]
    ensures rsp == base + size
  {
    status := *;
    journal.Note(ContextSetup, status);
    var stack := base + size;
    rsp := stack - stack % STACK_ALIGNMENT;
  }

  /** `gt_context_configure`: the first frame is pushed onto the stack, which must be there to be written. */
  method ContextConfigure(vm: Vm, boot: Boot, rsp: Word, arg: Word) returns (status: Status, sp: Word)
    requires boot.trampoline != 0 && rsp != 0 && rsp >= FRAME
    requires forall b: nat | rsp - FRAME <= b < rsp :: Accessible(vm.live, b)
    modifies vm`memory, vm.journal
    ensures vm.journal.entries == old(vm.journal.entries) + [Said(EntrySetup, status)]
    ensures status == Success ==>
              vm.memory == Pushed(boot.code, old(vm.memory), rsp, boot.trampoline, arg) && sp == Down(rsp, FRAME)
    ensures status != Success ==> vm.memory == old(vm.memory)
  {
    hide Accessible, Write;
    status := *;
    vm.journal.Note(EntrySetup, status);
    sp := rsp;
    if status == Success {
      sp := Down(sp, 8);
      vm.Store(sp, arg);
      sp := Down(sp, 8);
      vm.Store(sp, boot.trampoline);
      sp := Down(sp, 8);
      vm.Store(sp, boot.code.start);
    }
  }

  /** The heap as far as tasks are concerned: the blocks handed out and not yet freed, and where they lie. */
  class Heap {
    const journal: Journal
    var taken: set<Word>
    ghost var blocks: set<Task>

    /** Each block has its bytes to itself: no other block and no mapping reaches into them. */
    ghost predicate Housed(live: map<nat, Region>)
      reads this
    {
      && (forall t | t in blocks :: t.address in taken)
      && (forall t, u | t in blocks && u in blocks && t != u :: t.address != u.address)
      && (forall a | a in taken :: exists t :: t in blocks && t.address == a)
      && Spaced(taken, live)
    }

    /** Nothing is handed out. */
    ghost predicate Empty()
      reads this
    {
      blocks == {} && taken == {}
    }

    lemma StaysHoused(live: map<nat, Region>, base: nat, region: Region)
      requires Housed(live) && Unclaimed(taken, base, region.size)
      ensures Housed(live[base := region])
    {
      hide Unclaimed;
      MappingAdded(taken, live, base, region);
    }

    lemma StillHoused(live: map<nat, Region>, base: nat)
      requires Housed(live)
      ensures Housed(live - {base})
    {
      hide Unclaimed;
    }

    constructor (journal: Journal)
      ensures Empty() && this.journal == journal
    {
      this.journal := journal;
      taken, blocks := {}, {};
    }

    /** `gt_heap_alloc`: refused, or a block at any place that is free; `live` are the mappings there are. */
    method Alloc(live: map<nat, Region>) returns (t: Task?)
      requires Housed(live)
      modifies this, journal
      ensures Housed(live)
      ensures journal.entries ==
              old(journal.entries) + [Said(Allocation, if t == null then OutOfMemory else Success)]
      ensures t == null ==> blocks == old(blocks) && taken == old(taken)
      ensures t != null ==>
                && fresh(t) && fresh(t.readyNode) && fresh(t.runtimeNode)
                && t.Wired() && t.Cleared() && t.Detached()
                && t.readyNode.live && t.runtimeNode.live && t.address != 0
                && blocks == old(blocks) + {t} && taken == old(taken) + {t.address}
    {
      hide Spaced, Vacant;
      var address: Word := *;
      if !Vacant(taken, live, address) {
        journal.Note(Allocation, OutOfMemory);
        return null;
      }
      journal.Note(Allocation, Success);
      BlockAdded(taken, live, address);
      VacantIsSome(taken, live, address);
      t := new Task(address);
      taken, blocks := taken + {address}, blocks + {t};
    }

    /** `gt_heap_free`: a block is freed at most once, and its memory is not to be touched again. */
    method Free(t: Task, ghost live: map<nat, Region>)
      requires t in blocks && Housed(live)
      modifies this, t.readyNode`live, t.runtimeNode`live
      ensures Housed(live) && blocks == old(blocks) - {t}
      ensures !t.readyNode.live && !t.runtimeNode.live
    {
      FewerBlocks(taken, taken - {t.address}, live);
      taken, blocks := taken - {t.address}, blocks - {t};
      t.readyNode.live, t.runtimeNode.live := false, false;
    }
  }

  lemma VacantIsSome(taken: set<Word>, live: map<nat, Region>, a: Word)
    requires Vacant(taken, live, a)
    ensures a != 0
  {}

  lemma FewerBlocks(taken: set<Word>, fewer: set<Word>, live: map<nat, Region>)
    requires Spaced(taken, live) && fewer <= taken
    ensures Spaced(fewer, live)
  {}

  /** What a task made from a fresh block looks like before it is linked. */
  ghost predicate Made(task: Task, boot: Boot, entry: Program, request: nat, memory: Memory, before: Memory)
    reads task
  {
    var top := task.stack.base + task.stack.size;
    && task.request == request
    && task.state == ReadyTask && task.entry == task.rest == entry && !task.begun && task.address != 0
    && FRAME <= top < Pages.SIZE_MODULUS && top % STACK_ALIGNMENT == 0 && task.rsp == Down(top, FRAME)
    && memory == Pushed(boot.code, before, top, boot.trampoline, task.address)
  }

  /** The middle of `__gt_runtime_task_create`: a task gets its stack and its context, or keeps nothing. */
  method Furnish(task: Task, id: nat, vm: Vm, boot: Boot, entry: Program, stackSize: nat,
                taken: set<Word>)
    returns (status: Status, ghost verdict: Verdict)
    requires task.readyNode.live && task.runtimeNode.live && task.address != 0 && boot.trampoline != 0
    requires vm.Valid() && Supported(vm.page.size) && Legal(stackSize, vm.page.size)
    modifies task, task.readyNode`prev, task.readyNode`next, task.runtimeNode`prev, task.runtimeNode`next
    modifies vm`live, vm`memory, vm.journal
    ensures vm.Valid()
    ensures status == Success ==>
              && verdict == Granted
              && vm.journal.entries == old(vm.journal.entries) + Middle(4)
              && task.id == id && Made(task, boot, entry, stackSize, vm.memory, old(vm.memory))
              && Serves(task.stack, stackSize, vm.page.size) && task.stack.mapping.base !in old(vm.live)
              && Unclaimed(taken, task.stack.mapping.base, task.stack.mapping.size)
              && vm.live == old(vm.live)[task.stack.mapping.base := RegionOf(task.stack)]
    ensures status != Success ==>
              && verdict != Granted && verdict != NoHeap && status == Refusal(verdict)
              && vm.journal.entries == old(vm.journal.entries) + Late(verdict)
              && vm.live == old(vm.live) && vm.memory == old(vm.memory)
  {
    hide Laid, Separate, Fitting, Supported, Agreed, Accessible, Pushed, Serves, Unclaimed;
    MiddleLists();
    status, verdict := task.Init(id, entry, stackSize, vm, taken);
    if status != Success {
      return;
    }
    TopOfStack(vm.live, task.stack, stackSize, vm.page.size);
    var sp;
    status, sp := ContextConfigure(vm, boot, task.rsp, task.address);
    if status != Success {
      verdict := NoEntry(status);
      task.Destroy(vm);
      return;
    }
    task.rsp := sp;
    task.rest := entry;
    task.state := ReadyTask;
  }

  /** A fresh block becomes a task: identifier, stack and context, in this order, or nothing. */
  method Equip(task: Task, ids: IdPool, vm: Vm, boot: Boot, entry: Program, stackSize: nat,
              taken: set<Word>)
    returns (status: Status, ghost verdict: Verdict)
    requires task.readyNode.live && task.runtimeNode.live && task.address != 0 && boot.trampoline != 0
    requires ids.Valid() && ids.bits.totalBits == CAPACITY
    requires vm.Valid() && Supported(vm.page.size) && Legal(stackSize, vm.page.size)
    modifies task, task.readyNode`prev, task.readyNode`next, task.runtimeNode`prev, task.runtimeNode`next
    modifies ids.bits.words, vm`live, vm`memory, vm.journal
    ensures ids.Valid() && vm.Valid()
    ensures status == Success ==>
              && vm.journal.entries == old(vm.journal.entries) + Middle(4)
              && LeastFree(old(ids.Held())) < CAPACITY
              && task.id == LeastFree(old(ids.Held())) && ids.Held() == old(ids.Held()) + {task.id}
              && task.stack.mapping.base !in old(vm.live) && Serves(task.stack, stackSize, vm.page.size)
              && Unclaimed(taken, task.stack.mapping.base, task.stack.mapping.size)
              && vm.live == old(vm.live)[task.stack.mapping.base := RegionOf(task.stack)]
              && Made(task, boot, entry, stackSize, vm.memory, old(vm.memory))
    ensures status != Success ==>
              && verdict != NoHeap && Settles(old(ids.Held()), verdict, Refused(status))
              && vm.journal.entries == old(vm.journal.entries) + (if verdict == Granted then [] else Late(verdict))
              && ids.Held() == old(ids.Held()) && ids.bits.words[..] == old(ids.bits.words[..])
              && vm.live == old(vm.live) && vm.memory == old(vm.memory)
  {
    hide MembersOf, Shaped, LeastFree, Separate, Late, Middle, Serves, Legal, Supported, Made, Unclaimed;
    ghost var words := ids.bits.words[..];
    var ok, id := ids.Allocate();
    if !ok {
      return ResourceExhausted, Granted;
    }
    status, verdict := Furnish(task, id, vm, boot, entry, stackSize, taken);
    if status != Success {
      ids.Release(id);
      MembersDetermineWords(words, ids.bits.words[..], CAPACITY);
    }
  }

  /** The acquiring part of `__gt_runtime_task_create`: heap block, identifier, stack and context, in this
      order; a refusal at any point gives back everything taken so far, in the opposite order. */
  method Acquire(heap: Heap, ids: IdPool, vm: Vm, boot: Boot, entry: Program, stackSize: nat)
    returns (status: Status, task: Task?, ghost verdict: Verdict)
    requires ids.Valid() && ids.bits.totalBits == CAPACITY
    requires heap.journal == vm.journal && boot.trampoline != 0 && heap.Housed(vm.live)
    requires vm.Valid() && Supported(vm.page.size) && Legal(stackSize, vm.page.size)
    modifies heap, ids.bits.words, vm`live, vm`memory, vm.journal
    ensures ids.Valid() && vm.Valid() && heap.Housed(vm.live)
    ensures status == Success ==>
              && vm.journal.entries == old(vm.journal.entries) + (Agreed(1) + Middle(4))
              && LeastFree(old(ids.Held())) < CAPACITY
              && task != null && fresh(task) && fresh(task.readyNode) && fresh(task.runtimeNode)
              && task.Wired() && task.Detached() && task.readyNode.live && task.runtimeNode.live
              && task.id == LeastFree(old(ids.Held())) && ids.Held() == old(ids.Held()) + {task.id}
              && task.stack.mapping.base !in old(vm.live) && Serves(task.stack, stackSize, vm.page.size)
              && vm.live == old(vm.live)[task.stack.mapping.base := RegionOf(task.stack)]
              && heap.blocks == old(heap.blocks) + {task}
              && Made(task, boot, entry, stackSize, vm.memory, old(vm.memory))
    ensures status != Success ==>
              && Settles(old(ids.Held()), verdict, Refused(status))
              && vm.journal.entries == old(vm.journal.entries) + Heard(verdict, Refused(status))
              && ids.Held() == old(ids.Held()) && ids.bits.words[..] == old(ids.bits.words[..])
              && heap.blocks == old(heap.blocks) && vm.live == old(vm.live) && vm.memory == old(vm.memory)
  {
    hide MembersOf, Shaped, LeastFree, Separate, Agreed, Late, Middle, Serves, Legal, Supported, Made;
    hide Heap.Housed, Unclaimed;
    MiddleLists();
    task := heap.Alloc(vm.live);
    if task == null {
      return OutOfMemory, null, NoHeap;
    }
    ghost var live := vm.live;
    status, verdict := Equip(task, ids, vm, boot, entry, stackSize, heap.taken);
    if status != Success {
      heap.Free(task, vm.live);
      HeardInParts(verdict, Refused(status));
      task := null;
    } else {
      heap.StaysHoused(live, task.stack.mapping.base, RegionOf(task.stack));
    }
  }

  /** The releasing part of `__gt_runtime_task_destroy`: stack, identifier and heap block go back, each once. */
  method Release(heap: Heap, ids: IdPool, vm: Vm, t: Task)
    requires t in heap.blocks && t.readyNode.live && t.runtimeNode.live && heap.Housed(vm.live)
    requires ids.Valid() && t.id in ids.Held()
    requires vm.Valid() && t.stack.mapping.base in vm.live && vm.live[t.stack.mapping.base] == RegionOf(t.stack)
    modifies heap, ids.bits.words, vm`live, t, t.readyNode`prev, t.readyNode`next, t.readyNode`live
    modifies t.runtimeNode`prev, t.runtimeNode`next, t.runtimeNode`live
    ensures ids.Valid() && ids.Held() == old(ids.Held()) - {old(t.id)}
    ensures vm.Valid() && vm.live == old(vm.live) - {old(t.stack.mapping.base)}
    ensures heap.blocks == old(heap.blocks) - {t} && heap.Housed(vm.live)
  {
    hide Separate;
    var id := t.id;
    heap.StillHoused(vm.live, t.stack.mapping.base);
    t.Destroy(vm);
    ids.Release(id);
    heap.Free(t, vm.live);
  }

  /** `struct gt_scheduler` */
  class Scheduler {
    const readyQueue: Queue

    constructor ()
      ensures fresh(readyQueue) && fresh(readyQueue.list) && fresh(readyQueue.list.head)
      ensures readyQueue.list.head.home == readyQueue.list && readyQueue.list.head.live
      ensures readyQueue.list.head.prev == readyQueue.list.head.next == null && readyQueue.list.nodes == []
    {
      readyQueue := new Queue();
    }

    /** `gt_scheduler_init` */
    method Init() returns (status: Status)
      requires readyQueue.list.head.home == readyQueue.list && readyQueue.list.head.live
      modifies readyQueue.list`nodes, readyQueue.list.head`prev, readyQueue.list.head`next
      ensures status == Success && readyQueue.list.Valid() && readyQueue.list.nodes == []
    {
      Destroy();
      readyQueue.Init();
      return Success;
    }

    /** `gt_scheduler_destroy`: wipes the queue's sentinel without touching the nodes that were linked to it. */
    method Destroy()
      modifies readyQueue.list`nodes, readyQueue.list.head`prev, readyQueue.list.head`next
      ensures readyQueue.list.nodes == []
      ensures readyQueue.list.head.prev == readyQueue.list.head.next == null
    {
      readyQueue.list.nodes := [];
      readyQueue.list.head.prev, readyQueue.list.head.next := null, null;
    }

    /** What creation hears from the scheduler about a new task.  This one admits every task; as with contexts,
        any refusal is provided for. */
    method Consider(journal: Journal) returns (status: Status)
      modifies journal
      ensures journal.entries == old(journal.entries) + [Said(Admission, status)]
    {
      status := *;
      journal.Note(Admission, status);
    }

    /** `gt_scheduler_admit`: succeeds on every call; the caller has already made the task ready. */
    method Admit(t: Task) returns (status: Status)
      requires readyQueue.list.Valid() && t.state == ReadyTask
      requires t.readyNode.home == null && t.readyNode.live
      modifies readyQueue.list`nodes, t.readyNode`prev, t.readyNode`next, t.readyNode`home
      modifies readyQueue.list.head`prev, readyQueue.list.At(|readyQueue.list.nodes| - 1)`next
      ensures status == Success
      ensures readyQueue.list.Valid() && t.readyNode.home == readyQueue.list && t.readyNode.live
      ensures readyQueue.list.nodes == old(readyQueue.list.nodes) + [t.readyNode]
      ensures forall m: List | old(allocated(m)) && m != readyQueue.list && old(m.Valid()) ::
                m.Valid() && m.nodes == old(m.nodes)
    {
      readyQueue.Enqueue(t.readyNode);
      return Success;
    }

    /** `gt_scheduler_next`: the owner of the front node leaves the queue. */
    method Next() returns (t: Task?)
      requires readyQueue.list.Valid()
      requires forall n | n in readyQueue.list.nodes :: n.owner != null && n.owner is Task
      modifies readyQueue.list`nodes, readyQueue.list.head`next, readyQueue.list.At(1)`prev
      modifies readyQueue.list.Firsts()`prev, readyQueue.list.Firsts()`next, readyQueue.list.Firsts()`home
      ensures readyQueue.list.Valid()
      ensures if old(readyQueue.list.nodes) == [] then t == null && readyQueue.list.nodes == []
              else t != null && t == old(readyQueue.list.nodes[0]).owner
                   && readyQueue.list.nodes == old(readyQueue.list.nodes)[1..]
                   && old(readyQueue.list.nodes[0]).home == null && old(readyQueue.list.nodes[0]).live
      ensures forall m: List | old(allocated(m)) && m != readyQueue.list && old(m.Valid()) ::
                m.Valid() && m.nodes == old(m.nodes)
    {
      var readyNode := readyQueue.Dequeue();
      t := if readyNode != null then readyNode.owner as Task else null;
    }
  }
}
