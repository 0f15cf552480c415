/** Where the runtime's stacks and the machine's first frames meet. */
module Bootstraps {
  import opened Pages
  import opened VirtualMemory
  import opened Stacks
  import opened Tasks
  import opened Runtimes
  import opened Memories
  import opened Contexts
  import opened Machine

  lemma StackOf(runtime: Runtime, t: Task)
    requires runtime.Valid() && t in runtime.heap.blocks
    ensures t.stack.mapping.base in runtime.vm.live
    ensures runtime.vm.live[t.stack.mapping.base] == RegionOf(t.stack) && Usable(t.stack, runtime.vm.page.size)
    ensures runtime.vm.Valid()
  {
    hide Runtime.AllSound, Runtime.Listed, Runtime.Queued, Runtime.Rostered, Runtime.Numbered;
    hide Runtime.Partitioned, Runtime.Mirrors, Runtime.Observed;
  }

  /** The first frame of an owned task can be written, and lies in no other task's mapping, guard pages included. */
  lemma FirstFrameIsItsOwn(runtime: Runtime, t: Task, u: Task, a: nat)
    requires runtime.Valid() && t in runtime.heap.blocks && u in runtime.heap.blocks && t != u
    requires t.stack.base + t.stack.size - FRAME <= a < t.stack.base + t.stack.size
    ensures Accessible(runtime.vm.live, a)
    ensures !(u.stack.mapping.base <= a < u.stack.mapping.base + u.stack.mapping.size)
  {
    hide Runtime.Valid, Accessible;
    StackOf(runtime, t);
    StackOf(runtime, u);
    runtime.StackIsGuarded(t, a);
    runtime.StacksKeepApart(t, u);
  }

  /** Where the context of a task is: behind identifier, state, entry, argument and stack. */
  const CONTEXT_OFFSET: nat := 64

  function ContextOf(t: Task): Word
    requires t.address + BLOCK <= SIZE_MODULUS
  {
    t.address + CONTEXT_OFFSET
  }

  lemma Bytes(a: Word, n: nat, x: Word)
    requires a + n <= SIZE_MODULUS
    ensures Above(a, x) < n <==> a <= x < a + n
  {}

  /** The contexts of two owned tasks share no byte, and no context shares one with the first frame of any task,
      as saving, switching and preparing contexts demand. */
  lemma RecordsKeepApart(runtime: Runtime, t: Task, u: Task)
    requires runtime.Valid() && t in runtime.heap.blocks && u in runtime.heap.blocks
    ensures t.address + BLOCK <= SIZE_MODULUS && u.address + BLOCK <= SIZE_MODULUS
    ensures FRAME <= u.stack.base + u.stack.size < SIZE_MODULUS
    ensures t != u ==> Apart(ContextOf(t), RECORD, ContextOf(u), RECORD)
    ensures Apart(ContextOf(t), RECORD, Down(u.stack.base + u.stack.size, FRAME), FRAME)
  {
    hide Runtime.Valid, Above;
    runtime.StructuresKeepApart(t, u);
    runtime.StructuresKeepApart(u, t);
    StackOf(runtime, u);
    TopFits(runtime.vm.live, u.stack, runtime.vm.page.size);
    var c, d, f := ContextOf(t), ContextOf(u), Down(u.stack.base + u.stack.size, FRAME);
    forall x: Word ensures !(Above(c, x) < RECORD && Above(f, x) < FRAME) {
      Bytes(c, RECORD, x);
      Bytes(f, FRAME, x);
    }
    forall x: Word ensures t != u ==> !(Above(c, x) < RECORD && Above(d, x) < RECORD) {
      Bytes(c, RECORD, x);
      Bytes(d, RECORD, x);
    }
  }

  lemma TopFits(live: map<nat, Region>, s: Stack, page: nat)
    requires page > 0 && Separate(live, page) && Usable(s, page)
    requires s.mapping.base in live && live[s.mapping.base] == RegionOf(s)
    ensures FRAME <= s.base + s.size < SIZE_MODULUS
    ensures s.mapping.base < s.base && s.base + s.size < s.mapping.base + s.mapping.size
  {}

  lemma WaitsPoised(runtime: Runtime, t: Task)
    requires runtime.Valid() && t in runtime.rq && !t.begun
    ensures t.Poised(runtime.boot, runtime.vm.memory) && t.entry == t.rest
  {
    hide Runtime.AllSound, Runtime.Listed, Runtime.Queued, Runtime.Rostered, Runtime.Settled;
    hide Runtime.Mirrors, Runtime.Observed;
  }

  lemma OwnAddress(runtime: Runtime, t: Task)
    requires runtime.Valid() && t in runtime.rq
    ensures t in runtime.heap.blocks
    ensures forall u | u in runtime.heap.blocks && u != t :: u.address != t.address
  {
    hide Runtime.AllSound, Runtime.Listed, Runtime.Numbered, Runtime.Mapped, Runtime.Partitioned;
    hide Runtime.Mirrors, Runtime.Observed;
  }

  /** A task that waits for its first dispatch, whatever was created before and after it: a load of its context
      leads through the start routine into the trampoline, with this task, and no other, as its argument and the
      stack aligned as at any function entry, as long as the frame and the stack pointer in the record are as they
      are now.  The entry function the trampoline then calls is the program the machine has for the task. */
  lemma FirstDispatchReachesTrampoline(runtime: Runtime, k: nat, t: Task, later: State)
    requires runtime.Valid() && k < |runtime.rq| && t == runtime.rq[k] && !t.begun
    requires Read(later.memory, Up(later.rdi, RSP_OFFSET)) == t.rsp
    requires Agree(later.memory, runtime.vm.memory, t.rsp, FRAME)
    ensures Loaded(later).rip == runtime.boot.code.start
    ensures var s := Started(runtime.boot.code, Loaded(later));
            && s.rip == runtime.boot.trampoline && s.rdi == t.address != 0 && Up(s.rsp, 8) % STACK_ALIGNMENT == 0
            && s.rsp == t.stack.base + t.stack.size - 8
            && forall u | u in runtime.heap.blocks && u != t :: u.address != s.rdi
    ensures k < |runtime.model.ready| && runtime.model.ready[k] == TaskRecord(t.id, t.entry)
  {
    hide Runtime.Valid, Read, Loaded, Started, Up;
    WaitsPoised(runtime, t);
    runtime.WaitingIsReady();
    OwnAddress(runtime, t);
    var top: Word := t.stack.base + t.stack.size;
    SameFrame(later.memory, runtime.vm.memory, top);
    FrameLeadsToEntry(runtime.boot.code, top, runtime.boot.trampoline, t.address, later);
  }
}
