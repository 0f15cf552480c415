/** Execution contexts on x86-64: a small machine of registers over byte-addressed memory.

    The registers a function may clobber freely under the System V ABI (AMD64 supplement, section
    3.2.1) are left out, but for rax and rdi, which carry the answer and the argument. */
module Contexts {
  import opened Pages
  import opened Memories
  import opened Stacks

  datatype State = State(
    rip: Word, rsp: Word, rax: Word, rdi: Word,
    rbx: Word, rbp: Word, r12: Word, r13: Word, r14: Word, r15: Word,
    memory: Memory)

  /** Where `gt_context_start` is, and the address behind its call instruction. */
  datatype Code = Code(start: Word, trap: Word)

  const RSP_OFFSET: nat := 0
  const RBX_OFFSET: nat := 8
  const RBP_OFFSET: nat := 16
  const R12_OFFSET: nat := 24
  const R13_OFFSET: nat := 32
  const R14_OFFSET: nat := 40
  const R15_OFFSET: nat := 48

  /** The size of `struct gt_context`. */
  const RECORD: nat := 56

  /** The words of a record, by offset. */
  function Registers(rsp: Word, rbx: Word, rbp: Word, r12: Word, r13: Word, r14: Word, r15: Word): (ws: seq<Word>)
    ensures |ws| == 7
  {
    [rsp, rbx, rbp, r12, r13, r14, r15]
  }

  function Put(m: Memory, ctx: Word, ws: seq<Word>): Memory
    requires |ws| == 7
  {
    WriteAll(m, ctx, ws)
  }

  /** The record holds a zero for each callee-saved register but the stack pointer. */
  predicate Cleared(m: Memory, ctx: Word) {
    && Read(m, Up(ctx, RBX_OFFSET)) == 0 && Read(m, Up(ctx, RBP_OFFSET)) == 0 && Read(m, Up(ctx, R12_OFFSET)) == 0
    && Read(m, Up(ctx, R13_OFFSET)) == 0 && Read(m, Up(ctx, R14_OFFSET)) == 0 && Read(m, Up(ctx, R15_OFFSET)) == 0
  }

  // What the routines do to the state

  function Saved(s: State): State {
    var m := Put(s.memory, s.rdi, Registers(s.rsp, s.rbx, s.rbp, s.r12, s.r13, s.r14, s.r15));
    s.(memory := m, rax := 0, rip := Read(m, s.rsp), rsp := Up(s.rsp, 8))
  }

  function Loaded(s: State): State {
    var m, c := s.memory, s.rdi;
    var sp := Read(m, Up(c, RSP_OFFSET));
    s.(rsp := Up(sp, 8), rip := Read(m, sp), rax := 1,
       rbx := Read(m, Up(c, RBX_OFFSET)), rbp := Read(m, Up(c, RBP_OFFSET)), r12 := Read(m, Up(c, R12_OFFSET)),
       r13 := Read(m, Up(c, R13_OFFSET)), r14 := Read(m, Up(c, R14_OFFSET)), r15 := Read(m, Up(c, R15_OFFSET)))
  }

  /** A call instruction: `back` is the address behind it. */
  function Called(s: State, target: Word, back: Word): State {
    s.(rsp := Down(s.rsp, 8), memory := Write(s.memory, Down(s.rsp, 8), back), rip := target)
  }

  function Started(code: Code, s: State): State {
    var entry, arg := Read(s.memory, s.rsp), Read(s.memory, Up(s.rsp, 8));
    Called(s.(rax := entry, rdi := arg, rsp := Up(Up(s.rsp, 8), 8)), entry, code.trap)
  }

  function Initialized(m: Memory, ctx: Word, top: Word): Memory {
    Write(Put(m, ctx, Registers(0, 0, 0, 0, 0, 0, 0)), Up(ctx, RSP_OFFSET), top - top % STACK_ALIGNMENT)
  }

  /** The initial frame, pushed below `sp`. */
  function Pushed(code: Code, m: Memory, sp: Word, entry: Word, arg: Word): Memory {
    Write(Write(Write(m, Down(sp, 8), arg), Down(Down(sp, 8), 8), entry), Down(Down(Down(sp, 8), 8), 8), code.start)
  }

  function Configured(code: Code, m: Memory, ctx: Word, entry: Word, arg: Word): Memory {
    var sp := Read(m, Up(ctx, RSP_OFFSET));
    Write(Pushed(code, m, sp, entry, arg), Up(ctx, RSP_OFFSET), Down(Down(Down(sp, 8), 8), 8))
  }

  /** The processor, and the memory it works on. */
  class Processor {
    const code: Code
    var rip: Word
    var rsp: Word
    var rax: Word
    var rdi: Word
    var rbx: Word
    var rbp: Word
    var r12: Word
    var r13: Word
    var r14: Word
    var r15: Word
    var memory: Memory

    ghost function Now(): State
      reads this
    {
      State(rip, rsp, rax, rdi, rbx, rbp, r12, r13, r14, r15, memory)
    }

    constructor (code: Code, s: State)
      ensures Now() == s && this.code == code
    {
      this.code := code;
      rip, rsp, rax, rdi := s.rip, s.rsp, s.rax, s.rdi;
      rbx, rbp, r12, r13, r14, r15 := s.rbx, s.rbp, s.r12, s.r13, s.r14, s.r15;
      memory := s.memory;
    }

    /** `movq w, offset(a)` */
    method Store(a: Word, offset: nat, w: Word)
      requires offset < SIZE_MODULUS
      modifies `memory
      ensures memory == Write(old(memory), Up(a, offset), w)
    {
      memory := Write(memory, Up(a, offset), w);
    }

    /** `popq` */
    method Pop() returns (w: Word)
      modifies `rsp
      ensures w == Read(memory, old(rsp)) && rsp == Up(old(rsp), 8)
    {
      w := Read(memory, rsp);
      rsp := Up(rsp, 8);
    }

    /** `call` */
    method Call(target: Word, back: Word)
      modifies `rsp, `memory, `rip
      ensures rip == target && rsp == Down(old(rsp), 8) && memory == Write(old(memory), rsp, back)
    {
      rsp := Down(rsp, 8);
      memory := Write(memory, rsp, back);
      rip := target;
    }

    /** `ret` */
    method Ret()
      modifies `rsp, `rip
      ensures rip == Read(memory, old(rsp)) && rsp == Up(old(rsp), 8)
    {
      rip := Pop();
    }

    /** `__gt_context_save_asm` */
    method Save()
      modifies this
      ensures Now() == Saved(old(Now()))
      ensures rax == 0 && unchanged(`rdi, `rbx, `rbp, `r12, `r13, `r14, `r15)
    {
      hide Up, Read, Write;
      Store(rdi, RSP_OFFSET, rsp);
      Store(rdi, RBX_OFFSET, rbx);
      Store(rdi, RBP_OFFSET, rbp);
      Store(rdi, R12_OFFSET, r12);
      Store(rdi, R13_OFFSET, r13);
      Store(rdi, R14_OFFSET, r14);
      Store(rdi, R15_OFFSET, r15);
      SevenWrites(old(memory), rdi, rsp, rbx, rbp, r12, r13, r14, r15);
      rax := 0;
      Ret();
    }

    /** `__gt_context_load_asm` */
    method Load()
      modifies this
      ensures Now() == Loaded(old(Now()))
      ensures rax == 1 && unchanged(`rdi, `memory)
    {
      hide Up, Read;
      ghost var s := Now();
      rsp := Read(memory, Up(rdi, RSP_OFFSET));
      rbx := Read(memory, Up(rdi, RBX_OFFSET));
      rbp := Read(memory, Up(rdi, RBP_OFFSET));
      r12 := Read(memory, Up(rdi, R12_OFFSET));
      r13 := Read(memory, Up(rdi, R13_OFFSET));
      r14 := Read(memory, Up(rdi, R14_OFFSET));
      r15 := Read(memory, Up(rdi, R15_OFFSET));
      rax := 1;
      assert memory == s.memory && rdi == s.rdi && rsp == Read(s.memory, Up(s.rdi, RSP_OFFSET));
      Ret();
    }

    /** `gt_context_start` up to the entry function; what follows the call is never reached. */
    method Start()
      modifies this
      ensures Now() == Started(code, old(Now()))
      ensures unchanged(`rbx, `rbp, `r12, `r13, `r14, `r15)
    {
      hide Up, Down, Read, Write;
      rax := Pop();
      rdi := Pop();
      Call(rax, code.trap);
    }

    /** `gt_context_init` */
    method ContextInit(ctx: Word, base: Word, size: Word)
      requires base != 0 && size != 0 && base % STACK_ALIGNMENT == 0 && size % STACK_ALIGNMENT == 0
      modifies `memory
      ensures memory == Initialized(old(memory), ctx, Up(base, size))
      ensures Cleared(memory, ctx)
      ensures Read(memory, Up(ctx, RSP_OFFSET)) == Up(base, size) - Up(base, size) % STACK_ALIGNMENT
    {
      InitializedClears(memory, ctx, Up(base, size));
      var stack := Up(base, size);
      stack := stack - stack % STACK_ALIGNMENT;
      memory := Put(memory, ctx, Registers(0, 0, 0, 0, 0, 0, 0));
      Store(ctx, RSP_OFFSET, stack);
    }

    /** `__gt_context_stack_push` */
    method StackPush(sp: Word, w: Word) returns (sp': Word)
      modifies `memory
      ensures sp' == Down(sp, 8) && memory == Write(old(memory), sp', w)
    {
      sp' := Down(sp, 8);
      memory := Write(memory, sp', w);
    }

    /** `gt_context_configure`, with `__gt_context_build_initial_frame` */
    method ContextConfigure(ctx: Word, entry: Word, arg: Word)
      requires entry != 0 && Read(memory, Up(ctx, RSP_OFFSET)) != 0
      modifies `memory
      ensures memory == Configured(code, old(memory), ctx, entry, arg)
    {
      hide Up, Down, Read, Write;
      var sp := Read(memory, Up(ctx, RSP_OFFSET));
      sp := StackPush(sp, arg);
      sp := StackPush(sp, entry);
      sp := StackPush(sp, code.start);
      Store(ctx, RSP_OFFSET, sp);
    }
  }

  // Save and load

  lemma SevenWrites(m: Memory, a: Word, w0: Word, w1: Word, w2: Word, w3: Word, w4: Word, w5: Word, w6: Word)
    ensures Put(m, a, Registers(w0, w1, w2, w3, w4, w5, w6))
            == Write(Write(Write(Write(Write(Write(Write(m, Up(a, 0), w0), Up(a, 8), w1), Up(a, 16), w2),
                                             Up(a, FRAME), w3), Up(a, 32), w4), Up(a, 40), w5), Up(a, 48), w6)
  {
    hide Up, Write, WriteAll;
    OneMore(m, a, [], w0);
    OneMore(m, a, [w0], w1);
    OneMore(m, a, [w0, w1], w2);
    OneMore(m, a, [w0, w1, w2], w3);
    OneMore(m, a, [w0, w1, w2, w3], w4);
    OneMore(m, a, [w0, w1, w2, w3, w4], w5);
    OneMore(m, a, [w0, w1, w2, w3, w4, w5], w6);
    NoneYet(m, a);
    assert [] + [w0] == [w0] && [w0] + [w1] == [w0, w1] && [w0, w1] + [w2] == [w0, w1, w2];
    assert [w0, w1, w2] + [w3] == [w0, w1, w2, w3] && [w0, w1, w2, w3] + [w4] == [w0, w1, w2, w3, w4];
    assert [w0, w1, w2, w3, w4] + [w5] == [w0, w1, w2, w3, w4, w5];
    assert [w0, w1, w2, w3, w4, w5] + [w6] == Registers(w0, w1, w2, w3, w4, w5, w6);
  }

  lemma OneMore(m: Memory, a: Word, ws: seq<Word>, w: Word)
    requires 8 * |ws| + 8 < SIZE_MODULUS
    ensures WriteAll(m, a, ws + [w]) == Write(WriteAll(m, a, ws), Up(a, 8 * |ws|), w)
  {
    assert (ws + [w])[..|ws|] == ws;
  }

  lemma NoneYet(m: Memory, a: Word)
    ensures WriteAll(m, a, []) == m
  {}

  /** A record with these words: all seven can be read back, and no byte outside is written. */
  lemma PutAndGet(m: Memory, ctx: Word, ws: seq<Word>)
    requires |ws| == 7
    ensures var n := Put(m, ctx, ws);
            && Read(n, Up(ctx, RSP_OFFSET)) == ws[0] && Read(n, Up(ctx, RBX_OFFSET)) == ws[1]
            && Read(n, Up(ctx, RBP_OFFSET)) == ws[2] && Read(n, Up(ctx, R12_OFFSET)) == ws[3]
            && Read(n, Up(ctx, R13_OFFSET)) == ws[4] && Read(n, Up(ctx, R14_OFFSET)) == ws[5]
            && Read(n, Up(ctx, R15_OFFSET)) == ws[6]
            && forall b: Word | Above(ctx, b) >= RECORD :: n(b) == m(b)
  {
    hide WriteAll, Read, Up, Above;
    ReadAll(m, ctx, ws);
    assert forall i | 0 <= i < 7 :: Read(WriteAll(m, ctx, ws), Up(ctx, 8 * i)) == ws[i];
  }

  /** Each word of a record depends on the record's bytes only. */
  lemma SameRecord(m: Memory, o: Memory, ctx: Word, k: nat)
    requires Agree(m, o, ctx, RECORD) && k + 8 <= RECORD
    ensures Read(m, Up(ctx, k)) == Read(o, Up(ctx, k))
  {
    hide Read, Up, Above;
    forall b: Word | Above(Up(ctx, k), b) < 8 ensures m(b) == o(b) {
      SlotBytes(ctx, k, b);
    }
    ReadSame(m, o, Up(ctx, k));
  }

  /** The record of a saved context is still as its save left it. */
  ghost predicate Kept(m: Memory, s: State) {
    Agree(m, Saved(s).memory, s.rdi, RECORD)
  }

  lemma KeptWords(m: Memory, s: State)
    requires Kept(m, s)
    ensures Read(m, Up(s.rdi, RSP_OFFSET)) == s.rsp && Read(m, Up(s.rdi, RBX_OFFSET)) == s.rbx
    ensures Read(m, Up(s.rdi, RBP_OFFSET)) == s.rbp && Read(m, Up(s.rdi, R12_OFFSET)) == s.r12
    ensures Read(m, Up(s.rdi, R13_OFFSET)) == s.r13 && Read(m, Up(s.rdi, R14_OFFSET)) == s.r14
    ensures Read(m, Up(s.rdi, R15_OFFSET)) == s.r15
  {
    hide Put, Read, Up, Agree;
    var o := Saved(s).memory;
    PutAndGet(s.memory, s.rdi, Registers(s.rsp, s.rbx, s.rbp, s.r12, s.r13, s.r14, s.r15));
    SameRecord(m, o, s.rdi, RSP_OFFSET);
    SameRecord(m, o, s.rdi, RBX_OFFSET);
    SameRecord(m, o, s.rdi, RBP_OFFSET);
    SameRecord(m, o, s.rdi, R12_OFFSET);
    SameRecord(m, o, s.rdi, R13_OFFSET);
    SameRecord(m, o, s.rdi, R14_OFFSET);
    SameRecord(m, o, s.rdi, R15_OFFSET);
  }

  /** A load after a save, with only the record as it was: stack pointer and callee-saved registers are back,
      eax is 1, and control goes where the slot below the stack pointer says; that is where the save
      returned if and only if the slot still says so. */
  lemma LoadResumesSave(s: State, later: State)
    requires later.rdi == s.rdi && Kept(later.memory, s)
    ensures var first, again := Saved(s), Loaded(later);
            && again.rsp == first.rsp == Up(s.rsp, 8) && again.rdi == first.rdi == s.rdi
            && again.rbx == first.rbx == s.rbx && again.rbp == first.rbp == s.rbp && again.r12 == first.r12 == s.r12
            && again.r13 == first.r13 == s.r13 && again.r14 == first.r14 == s.r14 && again.r15 == first.r15 == s.r15
            && first.rax == 0 && again.rax == 1 && again.memory == later.memory
            && again.rip == Read(later.memory, s.rsp) && first.rip == Read(first.memory, s.rsp)
            && (again.rip == first.rip <==> Read(later.memory, s.rsp) == Read(first.memory, s.rsp))
  {
    hide Put, Read, Up, Kept;
    KeptWords(later.memory, s);
  }

  /** A save writes nothing but its record, so it returns to its caller if that does not overlap the return address. */
  lemma SaveWrites(s: State)
    ensures forall b: Word | Above(s.rdi, b) >= RECORD :: Saved(s).memory(b) == s.memory(b)
    ensures Apart(s.rdi, RECORD, s.rsp, 8) ==> Saved(s).rip == Read(s.memory, s.rsp)
  {
    hide Put, Read, Up, Above;
    PutAndGet(s.memory, s.rdi, Registers(s.rsp, s.rbx, s.rbp, s.r12, s.r13, s.r14, s.r15));
    if Apart(s.rdi, RECORD, s.rsp, 8) {
      ReadSame(Saved(s).memory, s.memory, s.rsp);
    }
  }

  /** The next call of the function that saved, at the same stack depth, takes the slot of the save's return
      address for its own: from then on a load resumes behind that call. */
  lemma NextCallTakesTheSlot(s: State, target: Word, back: Word, later: State)
    requires Apart(s.rdi, RECORD, s.rsp, 8)
    requires later.rdi == s.rdi
    requires Agree(later.memory, Called(Saved(s), target, back).memory, s.rdi, RECORD)
    requires Agree(later.memory, Called(Saved(s), target, back).memory, s.rsp, 8)
    ensures Loaded(later).rip == back && Loaded(later).rsp == Saved(s).rsp
    ensures Kept(later.memory, s)
  {
    hide Put, Read;
    var called := Called(Saved(s), target, back);
    assert called.rsp == s.rsp && called.memory == Write(Saved(s).memory, s.rsp, back);
    ReadWritten(Saved(s).memory, s.rsp, back);
    ReadSame(later.memory, called.memory, s.rsp);
    assert Kept(later.memory, s);
    LoadResumesSave(s, later);
  }

  /** A switch: the running context saves itself, the scheduler runs, and `next` is loaded, which may be the
      one that saved.  If neither the running context, since it was loaded itself (`before` is the memory it
      found), nor the scheduler, between save and load, has touched the records, all records are intact again,
      and `next` has its stack pointer and callee-saved registers back and goes on where its slot says. */
  lemma SwitchKeepsAllRecords(before: Memory, s: State, middle: State, suspended: set<State>, next: State)
    requires forall t | t in suspended :: Kept(before, t)
    requires forall t | t in suspended :: Agree(s.memory, before, t.rdi, RECORD) && Apart(s.rdi, RECORD, t.rdi, RECORD)
    requires forall t | t in suspended + {s} :: Agree(middle.memory, Saved(s).memory, t.rdi, RECORD)
    requires next in suspended + {s} && middle.rdi == next.rdi
    ensures var r := Loaded(middle);
            && (forall t | t in suspended + {s} :: Kept(r.memory, t))
            && r.rsp == Up(next.rsp, 8) && r.rax == 1 && r.rip == Read(r.memory, next.rsp)
            && r.rbx == next.rbx && r.rbp == next.rbp && r.r12 == next.r12
            && r.r13 == next.r13 && r.r14 == next.r14 && r.r15 == next.r15
  {
    hide Saved, Loaded, Read, Up, Above;
    forall t | t in suspended + {s} ensures Kept(middle.memory, t) {
      if t in suspended {
        SaveKeepsRecord(before, s, t);
      }
    }
    LoadResumesSave(next, middle);
  }

  lemma SaveKeepsRecord(before: Memory, s: State, t: State)
    requires Kept(before, t) && Agree(s.memory, before, t.rdi, RECORD) && Apart(s.rdi, RECORD, t.rdi, RECORD)
    ensures Kept(Saved(s).memory, t)
  {
    hide Saved, Above;
    SaveWrites(s);
  }

  // The first frame

  /** The memory of a context made for the stack that ends at `top`. */
  function Prepared(code: Code, m: Memory, ctx: Word, top: Word, entry: Word, arg: Word): Memory {
    Configured(code, Initialized(m, ctx, top), ctx, entry, arg)
  }

  lemma FrameSteps(top: Word)
    ensures Up(Down(top, FRAME), 8) == Down(top, 16) && Up(Down(top, 16), 8) == Down(top, 8)
    ensures Up(Down(top, 8), 8) == top
    ensures Down(Down(top, 8), 8) == Down(top, 16) && Down(Down(top, 16), 8) == Down(top, FRAME)
    ensures forall b: Word | Above(Down(top, FRAME), b) >= FRAME ::
              Above(Down(top, 8), b) >= 8 && Above(Down(top, 16), b) >= 8 && Above(Down(top, FRAME), b) >= 8
  {}

  lemma FrameSlots(top: Word)
    ensures Apart(Down(top, 8), 8, Down(top, 16), 8) && Apart(Down(top, 16), 8, Down(top, 8), 8)
    ensures Apart(Down(top, 8), 8, Down(top, FRAME), 8) && Apart(Down(top, FRAME), 8, Down(top, 8), 8)
    ensures Apart(Down(top, 16), 8, Down(top, FRAME), 8) && Apart(Down(top, FRAME), 8, Down(top, 16), 8)
  {}

  /** The three words of the initial frame, and that nothing else is written. */
  lemma PushedFacts(code: Code, m: Memory, top: Word, entry: Word, arg: Word)
    ensures var n := Pushed(code, m, top, entry, arg);
            && Read(n, Down(top, 8)) == arg && Read(n, Down(top, 16)) == entry
            && Read(n, Down(top, FRAME)) == code.start
            && forall b: Word | Above(Down(top, FRAME), b) >= FRAME :: n(b) == m(b)
  {
    hide Read, Up, Down, Above, Apart;
    FrameSteps(top);
    FrameSlots(top);
    var m1 := Write(m, Down(top, 8), arg);
    var m2 := Write(m1, Down(top, 16), entry);
    ReadWritten(m, Down(top, 8), arg);
    ReadPast(m1, Down(top, 16), entry, Down(top, 8));
    ReadPast(m2, Down(top, FRAME), code.start, Down(top, 8));
    ReadWritten(m1, Down(top, 16), entry);
    ReadPast(m2, Down(top, FRAME), code.start, Down(top, 16));
    ReadWritten(m2, Down(top, FRAME), code.start);
  }

  /** A fresh record holds the stack pointer, and zeros for all other registers. */
  lemma InitializedClears(m: Memory, ctx: Word, top: Word)
    ensures var n := Initialized(m, ctx, top);
            && Read(n, Up(ctx, RSP_OFFSET)) == top - top % STACK_ALIGNMENT && Cleared(n, ctx)
            && forall b: Word | Above(ctx, b) >= RECORD :: n(b) == m(b)
  {
    hide Put, Read, Up, Above;
    var zeros := Registers(0, 0, 0, 0, 0, 0, 0);
    PutAndGet(m, ctx, zeros);
    ReadWritten(Put(m, ctx, zeros), Up(ctx, RSP_OFFSET), top - top % STACK_ALIGNMENT);
    FirstWordAlone(Put(m, ctx, zeros), ctx, top - top % STACK_ALIGNMENT);
    StartOfRecord(ctx);
  }

  lemma StartOfRecord(ctx: Word)
    ensures Up(ctx, RSP_OFFSET) == ctx
  {}

  /** Writing the first word of a record leaves its others alone. */
  lemma FirstWordAlone(m: Memory, ctx: Word, w: Word)
    requires Cleared(m, ctx)
    ensures Cleared(Write(m, Up(ctx, RSP_OFFSET), w), ctx)
  {
    hide Read, Write, Up, Apart;
    OtherWordAlone(m, ctx, w, 1);
    OtherWordAlone(m, ctx, w, 2);
    OtherWordAlone(m, ctx, w, 3);
    OtherWordAlone(m, ctx, w, 4);
    OtherWordAlone(m, ctx, w, 5);
    OtherWordAlone(m, ctx, w, 6);
  }

  lemma OtherWordAlone(m: Memory, ctx: Word, w: Word, i: nat)
    requires 0 < i < 7
    ensures Read(Write(m, Up(ctx, RSP_OFFSET), w), Up(ctx, 8 * i)) == Read(m, Up(ctx, 8 * i))
  {
    hide Read, Write, Up, Above, Apart;
    SlotsApart(ctx, 0, i);
    ReadPast(m, Up(ctx, RSP_OFFSET), w, Up(ctx, 8 * i));
  }

  /** Whether a record is cleared depends on its bytes only. */
  lemma SameCleared(m: Memory, o: Memory, ctx: Word)
    requires Agree(m, o, ctx, RECORD) && Cleared(o, ctx)
    ensures Cleared(m, ctx)
  {
    hide Read, Up, Agree;
    SameRecord(m, o, ctx, RBX_OFFSET);
    SameRecord(m, o, ctx, RBP_OFFSET);
    SameRecord(m, o, ctx, R12_OFFSET);
    SameRecord(m, o, ctx, R13_OFFSET);
    SameRecord(m, o, ctx, R14_OFFSET);
    SameRecord(m, o, ctx, R15_OFFSET);
  }

  lemma InitializedFacts(m: Memory, ctx: Word, top: Word)
    requires top % STACK_ALIGNMENT == 0
    ensures Read(Initialized(m, ctx, top), Up(ctx, RSP_OFFSET)) == top
    ensures forall b: Word | Above(ctx, b) >= RECORD :: Initialized(m, ctx, top)(b) == m(b)
  {
    hide Put, Read, Above;
    PutAndGet(m, ctx, Registers(0, 0, 0, 0, 0, 0, 0));
    ReadWritten(Put(m, ctx, Registers(0, 0, 0, 0, 0, 0, 0)), ctx, top);
  }

  /** Pushing the frame and pointing the record to it leaves the zeros in the record. */
  lemma PreparedClears(code: Code, m: Memory, ctx: Word, top: Word, entry: Word, arg: Word)
    requires top % STACK_ALIGNMENT == 0 && Apart(ctx, RECORD, Down(top, FRAME), FRAME)
    ensures Cleared(Prepared(code, m, ctx, top, entry, arg), ctx)
  {
    hide Cleared, Initialized, Pushed, Read, Up, Down, Above;
    var i := Initialized(m, ctx, top);
    var p := Pushed(code, i, top, entry, arg);
    InitializedClears(m, ctx, top);
    InitializedTop(m, ctx, top);
    PushedFacts(code, i, top, entry, arg);
    FrameSteps(top);
    SameCleared(p, i, ctx);
    FirstWordAlone(p, ctx, Down(top, FRAME));
  }

  lemma InitializedTop(m: Memory, ctx: Word, top: Word)
    requires top % STACK_ALIGNMENT == 0
    ensures Read(Initialized(m, ctx, top), Up(ctx, RSP_OFFSET)) == top
  {
    hide Read, Put, Up;
    InitializedFacts(m, ctx, top);
  }

  /** What a configured context leaves in memory, and that it writes nothing else. */
  lemma PreparedFacts(code: Code, m: Memory, ctx: Word, top: Word, entry: Word, arg: Word)
    requires top % STACK_ALIGNMENT == 0 && Apart(ctx, RECORD, Down(top, FRAME), FRAME)
    ensures var n := Prepared(code, m, ctx, top, entry, arg);
            && Read(n, Up(ctx, RSP_OFFSET)) == Down(top, FRAME)
            && Cleared(n, ctx)
            && Read(n, Down(top, 8)) == arg && Read(n, Down(top, 16)) == entry
            && Read(n, Down(top, FRAME)) == code.start
            && forall b: Word | Above(ctx, b) >= RECORD && Above(Down(top, FRAME), b) >= FRAME :: n(b) == m(b)
  {
    hide Cleared, Initialized, Pushed, Read, Down, Above;
    InitializedFacts(m, ctx, top);
    FrameSteps(top);
    var i := Initialized(m, ctx, top);
    var p := Pushed(code, i, top, entry, arg);
    PushedFacts(code, i, top, entry, arg);
    ReadWritten(p, ctx, Down(top, FRAME));
    FrameBehindRecord(p, ctx, top, Down(top, FRAME));
    PreparedClears(code, m, ctx, top, entry, arg);
  }

  /** Setting up a context in memory, and doing so with the stack pointer in a field of its own, come to the same:
      the record holds what the field holds, and no byte outside the record differs. */
  lemma FieldStandsForRecord(code: Code, m: Memory, ctx: Word, top: Word, entry: Word, arg: Word)
    requires top % STACK_ALIGNMENT == 0 && Apart(ctx, RECORD, Down(top, FRAME), FRAME)
    ensures Read(Initialized(m, ctx, top), Up(ctx, RSP_OFFSET)) == top
    ensures Read(Prepared(code, m, ctx, top, entry, arg), Up(ctx, RSP_OFFSET)) == Down(top, FRAME)
    ensures forall b: Word | Above(ctx, b) >= RECORD ::
              Prepared(code, m, ctx, top, entry, arg)(b) == Pushed(code, m, top, entry, arg)(b)
  {
    hide Initialized, Read, Above;
    InitializedFacts(m, ctx, top);
    PreparedFacts(code, m, ctx, top, entry, arg);
  }

  /** Writing the first word of a record leaves a frame apart from it alone. */
  lemma FrameBehindRecord(m: Memory, ctx: Word, top: Word, w: Word)
    requires Apart(ctx, 8, Down(top, FRAME), FRAME)
    ensures forall k | k in {8, 16, FRAME} :: Read(Write(m, ctx, w), Down(top, k)) == Read(m, Down(top, k))
  {
    forall k | k in {8, 16, FRAME} ensures Read(Write(m, ctx, w), Down(top, k)) == Read(m, Down(top, k)) {
      forall x: Word ensures !(Above(ctx, x) < 8 && Above(Down(top, k), x) < 8) {
        assert Above(Down(top, k), x) < 8 ==> Above(Down(top, FRAME), x) < FRAME;
      }
      ReadPast(m, ctx, w, Down(top, k));
    }
  }

  /** Configuring any context, fresh or not, pushes its frame below the stack pointer in its record and points the
      record to it; no other byte of the record, or anywhere, is written. */
  lemma ConfiguredFacts(code: Code, m: Memory, ctx: Word, entry: Word, arg: Word)
    ensures var sp, n := Read(m, Up(ctx, RSP_OFFSET)), Configured(code, m, ctx, entry, arg);
            && Read(n, Up(ctx, RSP_OFFSET)) == Down(sp, FRAME)
            && (forall b: Word | Above(ctx, b) >= 8 && Above(Down(sp, FRAME), b) >= FRAME :: n(b) == m(b))
            && (Apart(ctx, 8, Down(sp, FRAME), FRAME) ==>
                  && Read(n, Down(sp, 8)) == arg && Read(n, Down(sp, 16)) == entry
                  && Read(n, Down(sp, FRAME)) == code.start)
  {
    hide Pushed, Read, Down, Above;
    var sp := Read(m, Up(ctx, RSP_OFFSET));
    var p := Pushed(code, m, sp, entry, arg);
    FrameSteps(sp);
    PushedFacts(code, m, sp, entry, arg);
    ReadWritten(p, ctx, Down(sp, FRAME));
    if Apart(ctx, 8, Down(sp, FRAME), FRAME) {
      FrameBehindRecord(p, ctx, sp, Down(sp, FRAME));
    }
  }

  /** From a stack with the initial frame on top, and a record that points to it, the first load leads into the
      entry function, with the argument in rdi and the stack aligned as at any function entry (System V ABI,
      AMD64 supplement, sections 3.2.2 and 3.2.3). */
  lemma FrameLeadsToEntry(code: Code, top: Word, entry: Word, arg: Word, later: State)
    requires top % STACK_ALIGNMENT == 0
    requires Read(later.memory, Up(later.rdi, RSP_OFFSET)) == Down(top, FRAME)
    requires Read(later.memory, Down(top, FRAME)) == code.start
    requires Read(later.memory, Down(top, 16)) == entry && Read(later.memory, Down(top, 8)) == arg
    ensures Loaded(later).rip == code.start
    ensures var s := Started(code, Loaded(later));
            && s.rip == entry && s.rdi == arg
            && s.rsp == Down(top, 8) && Up(s.rsp, 8) % STACK_ALIGNMENT == 0
            && s.rbx == Read(later.memory, Up(later.rdi, RBX_OFFSET))
            && s.rbp == Read(later.memory, Up(later.rdi, RBP_OFFSET))
            && s.r12 == Read(later.memory, Up(later.rdi, R12_OFFSET))
            && s.r13 == Read(later.memory, Up(later.rdi, R13_OFFSET))
            && s.r14 == Read(later.memory, Up(later.rdi, R14_OFFSET))
            && s.r15 == Read(later.memory, Up(later.rdi, R15_OFFSET))
            && Read(s.memory, s.rsp) == code.trap
            && forall b: Word | Above(Down(top, 8), b) >= 8 :: s.memory(b) == later.memory(b)
  {
    hide Read, Up, Down, Above;
    FrameSteps(top);
    var l := Loaded(later);
    assert l.rip == code.start && l.rsp == Down(top, 16) && l.memory == later.memory;
    ReadWritten(later.memory, Down(top, 8), code.trap);
  }

  /** The first load of a context configured for the stack that ends at `top` reaches its entry function, with all
      callee-saved registers zero. */
  lemma FirstLoadReachesEntry(code: Code, m: Memory, ctx: Word, top: Word, entry: Word, arg: Word, later: State)
    requires top % STACK_ALIGNMENT == 0 && Apart(ctx, RECORD, Down(top, FRAME), FRAME)
    requires later.rdi == ctx && Agree(later.memory, Prepared(code, m, ctx, top, entry, arg), ctx, RECORD)
    requires Agree(later.memory, Prepared(code, m, ctx, top, entry, arg), Down(top, FRAME), FRAME)
    ensures Loaded(later).rip == code.start
    ensures var s := Started(code, Loaded(later));
            && s.rip == entry && s.rdi == arg && s.rsp == Down(top, 8) && Up(s.rsp, 8) % STACK_ALIGNMENT == 0
            && s.rbx == s.rbp == s.r12 == s.r13 == s.r14 == s.r15 == 0
  {
    hide Prepared, Read, Loaded, Started, Up, Down;
    var n := Prepared(code, m, ctx, top, entry, arg);
    PreparedFacts(code, m, ctx, top, entry, arg);
    SameRecord(later.memory, n, ctx, RSP_OFFSET);
    SameCleared(later.memory, n, ctx);
    SameFrame(later.memory, n, top);
    FrameLeadsToEntry(code, top, entry, arg, later);
  }

  lemma SameFrame(m: Memory, o: Memory, top: Word)
    requires Agree(m, o, Down(top, FRAME), FRAME)
    ensures Read(m, Down(top, 8)) == Read(o, Down(top, 8))
    ensures Read(m, Down(top, 16)) == Read(o, Down(top, 16))
    ensures Read(m, Down(top, FRAME)) == Read(o, Down(top, FRAME))
  {
    hide Read, Up, Down, Above;
    FrameSteps(top);
    ReadSame(m, o, Down(top, FRAME));
    SlotOfFrame(m, o, Down(top, FRAME), 8);
    SlotOfFrame(m, o, Down(top, FRAME), 16);
    UpUp(Down(top, FRAME), 8, 8);
  }

  lemma SlotOfFrame(m: Memory, o: Memory, a: Word, k: nat)
    requires Agree(m, o, a, FRAME) && k + 8 <= FRAME
    ensures Read(m, Up(a, k)) == Read(o, Up(a, k))
  {
    hide Read, Up, Above;
    forall b: Word | Above(Up(a, k), b) < 8 ensures m(b) == o(b) {
      SlotBytes(a, k, b);
    }
    ReadSame(m, o, Up(a, k));
  }

  /** The `n` bytes from `a` on lie among the `size` bytes from `base` on. */
  ghost predicate Inside(a: Word, n: nat, base: nat, size: nat) {
    forall b: Word | Above(a, b) < n :: base <= b < base + size
  }

  lemma FrameBytes(top: Word)
    requires top >= FRAME
    ensures forall b: Word :: Above(Down(top, FRAME), b) < FRAME <==> top - FRAME <= b < top
  {}

  /** Preparing a context writes its record and the top 24 bytes of the stack; these lie inside the stack
      if and only if it has 24 bytes, as a stack laid out on pages of more than 16 bytes always has. */
  lemma FrameStaysInside(code: Code, m: Memory, ctx: Word, s: Stack, request: nat, page: nat, entry: Word, arg: Word)
    requires page > 0 && Laid(s, request, page) && s.base + s.size < SIZE_MODULUS
    requires Apart(ctx, RECORD, Down(s.base + s.size, FRAME), FRAME)
    ensures forall b: Word | Above(ctx, b) >= RECORD && !(s.base + s.size - FRAME <= b < s.base + s.size) ::
              Prepared(code, m, ctx, s.base + s.size, entry, arg)(b) == m(b)
    ensures Inside(Down(s.base + s.size, FRAME), FRAME, s.base, s.size) <==> s.size >= FRAME
    ensures page > STACK_ALIGNMENT ==> s.size >= FRAME
  {
    hide Prepared, Laid, Above, Down, Read;
    LaidAbove(s, request, page);
    var top: Word := s.base + s.size;
    PreparedFacts(code, m, ctx, top, entry, arg);
    FrameBytes(top);
    var lowest: Word := top - FRAME;
    assert Above(Down(top, FRAME), lowest) < FRAME;
  }

  lemma LaidAbove(s: Stack, request: nat, page: nat)
    requires page > 0 && Laid(s, request, page)
    ensures s.base + s.size >= 32 && (s.base + s.size) % STACK_ALIGNMENT == 0
    ensures page > STACK_ALIGNMENT ==> s.size >= FRAME
  {}
}
