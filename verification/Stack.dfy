/** Page size, alignment and the largest size that can be rounded up, in 64-bit unsigned arithmetic. */
module Pages {
  import opened Statuses

  const SIZE_MODULUS: nat := 0x1_0000_0000_0000_0000
  const SIZE_MAX: nat := SIZE_MODULUS - 1

  /** `GT_ALIGN_DOWN_ANY` */
  function AlignDownAny(val: nat, align: nat): (r: nat)
    requires align > 0
    ensures r == val - val % align
  {
    var q := val / align;
    assert val == align * q + val % align;
    q * align
  }

  /** `GT_ALIGN_UP_ANY`: the sum may wrap, which makes the result meaningless. */
  function AlignUpAny(val: nat, align: nat): nat
    requires align > 0
  {
    AlignDownAny((val + align - 1) % SIZE_MODULUS, align)
  }

  /** `r` is the least multiple of `align` that is not below `val`. */
  ghost predicate IsRoundedUp(r: nat, val: nat, align: nat)
    requires align > 0
  {
    r % align == 0 && val <= r < val + align
  }

  predicate PowerOfTwo(n: nat): (b: bool)
    ensures b ==> n > 0
  {
    n == 1 || (n > 1 && n % 2 == 0 && PowerOfTwo(n / 2))
  }

  lemma Grows(d: nat, x: int)
    requires x >= 1
    ensures d * x >= d
  {}

  lemma DivisionIsUnique(n: nat, d: nat, q: nat, r: nat)
    requires r < d && n == d * q + r
    ensures n / d == q && n % d == r
  {
    var p, s := n / d, n % d;
    assert n == d * p + s;
    assert d * (p - q) == d * p - d * q == r - s;
    if p > q {
      Grows(d, p - q);
    } else if p < q {
      assert d * (q - p) == s - r;
      Grows(d, q - p);
    }
  }

  /** A multiple of a multiple of `d` is a multiple of `d`. */
  lemma MultipleOfMultiple(n: nat, d: nat, e: nat)
    requires d > 0 && e > 0 && e % d == 0 && n % e == 0
    ensures n % d == 0
  {
    var q, p := e / d, n / e;
    assert n == (d * q) * p == d * (q * p);
    DivisionIsUnique(n, d, q * p, 0);
  }

  lemma Distribute(d: nat, x: int, y: int)
    ensures d * (x + y) == d * x + d * y
    ensures d * (x - y) == d * x - d * y
  {}

  lemma MultipleSum(a: nat, b: nat, d: nat)
    requires d > 0 && a % d == 0 && b % d == 0
    ensures (a + b) % d == 0
    ensures a >= b ==> (a - b) % d == 0
    ensures a > b ==> a - b >= d
  {
    var q, p := a / d, b / d;
    Distribute(d, q, p);
    DivisionIsUnique(a + b, d, q + p, 0);
    if a >= b {
      MultipleOrder(d, q, p);
      DivisionIsUnique(a - b, d, q - p, 0);
    }
  }

  lemma MultipleOrder(d: nat, q: nat, p: nat)
    requires d > 0 && d * q >= d * p
    ensures q >= p
    ensures d * q > d * p ==> d * q - d * p >= d
  {
    if q < p {
      Distribute(d, p, q);
      Grows(d, p - q);
    } else if q > p {
      Distribute(d, q, p);
      Grows(d, q - p);
    }
  }

  lemma RoundedDown(n: nat, d: nat)
    requires d > 0
    ensures (n - n % d) % d == 0
  {
    DivisionIsUnique(n - n % d, d, n / d, 0);
  }

  lemma {:induction false} PowerOfTwoDivides(n: nat, m: nat)
    requires PowerOfTwo(n) && PowerOfTwo(m) && n <= m
    ensures m % n == 0
    decreases m
  {
    if n == m {
      DivisionIsUnique(m, n, 1, 0);
    } else if n == 1 {
    } else {
      PowerOfTwoDivides(n / 2, m / 2);
      var q := (m / 2) / (n / 2);
      assert m / 2 == (n / 2) * q;
      assert m == n * q;
      DivisionIsUnique(m, n, q, 0);
    }
  }

  lemma Times256(n: nat)
    requires PowerOfTwo(n)
    ensures PowerOfTwo(256 * n)
  {
    hide PowerOfTwo;
    Double(n);
    Double(2 * n);
    Double(4 * n);
    Double(8 * n);
    Double(16 * n);
    Double(32 * n);
    Double(64 * n);
    Double(128 * n);
  }

  lemma Double(n: nat)
    requires PowerOfTwo(n)
    ensures PowerOfTwo(2 * n)
  {
    assert 2 * n / 2 == n;
  }

  lemma ModulusIsPowerOfTwo()
    ensures PowerOfTwo(SIZE_MODULUS)
  {
    Times256(1);
    Times256(0x100);
    Times256(0x1_0000);
    Times256(0x100_0000);
    Times256(0x1_0000_0000);
    Times256(0x100_0000_0000);
    Times256(0x1_0000_0000_0000);
    Times256(0x100_0000_0000_0000);
  }

  /** The number before a multiple of `d` lies in the last full block below it. */
  lemma BeforeMultiple(m: nat, d: nat)
    requires 0 < d <= m && m % d == 0
    ensures (m - 1) % d == d - 1 && (m - d) % d == 0
  {
    var q := m / d;
    MultipleSum(m, d, d);
    Distribute(d, q, 1);
    MultipleOrder(d, q, 1);
    DivisionIsUnique(m - 1, d, q - 1, d - 1);
  }

  /** The cached bound is the modulus less one page. */
  lemma BoundIsModulusLessAlign(align: nat)
    requires PowerOfTwo(align) && align <= SIZE_MAX
    ensures AlignDownAny(SIZE_MAX, align) == SIZE_MODULUS - align
    ensures (SIZE_MODULUS - align) % align == 0
  {
    hide PowerOfTwo;
    ModulusIsPowerOfTwo();
    PowerOfTwoDivides(align, SIZE_MODULUS);
    BeforeMultiple(SIZE_MODULUS, align);
  }

  lemma RoundsUp(val: nat, align: nat)
    requires align > 0
    ensures var sum := val + align - 1;
            IsRoundedUp(sum - sum % align, val, align)
  {
    RoundedDown(val + align - 1, align);
  }

  /** Up to the bound the sum does not wrap, and the result stays within the bound. */
  lemma AlignUpBelow(val: nat, align: nat)
    requires 0 < align <= SIZE_MAX && (SIZE_MODULUS - align) % align == 0 && val <= SIZE_MODULUS - align
    ensures IsRoundedUp(AlignUpAny(val, align), val, align) && AlignUpAny(val, align) <= SIZE_MODULUS - align
  {
    hide IsRoundedUp;
    var sum := val + align - 1;
    assert sum % SIZE_MODULUS == sum;
    assert AlignUpAny(val, align) == sum - sum % align;
    RoundsUp(val, align);
    WithinBound(sum - sum % align, val, align);
  }

  /** The least multiple that is not below a number within the bound is within the bound. */
  lemma WithinBound(r: nat, val: nat, align: nat)
    requires 0 < align <= SIZE_MAX && (SIZE_MODULUS - align) % align == 0 && val <= SIZE_MODULUS - align
    requires IsRoundedUp(r, val, align)
    ensures r <= SIZE_MODULUS - align
  {
    if r > SIZE_MODULUS - align {
      MultipleSum(r, SIZE_MODULUS - align, align);
    }
  }

  /** Beyond the bound the sum wraps, and the result is too small. */
  lemma AlignUpBeyond(val: nat, align: nat)
    requires 0 < align <= SIZE_MAX && SIZE_MODULUS - align < val <= SIZE_MAX
    ensures AlignUpAny(val, align) < val
  {
    var sum := val + align - 1;
    assert sum % SIZE_MODULUS == sum - SIZE_MODULUS;
  }

  /** Rounding up is exact precisely up to the cached bound; every larger size wraps. */
  lemma AlignUpExact(val: nat, align: nat)
    requires PowerOfTwo(align) && align <= SIZE_MAX && val <= SIZE_MAX
    ensures val <= AlignDownAny(SIZE_MAX, align) <==> IsRoundedUp(AlignUpAny(val, align), val, align)
    ensures val <= AlignDownAny(SIZE_MAX, align) ==> AlignUpAny(val, align) <= AlignDownAny(SIZE_MAX, align)
    ensures val > AlignDownAny(SIZE_MAX, align) ==> AlignUpAny(val, align) < val
  {
    hide PowerOfTwo, AlignUpAny, AlignDownAny;
    BoundIsModulusLessAlign(align);
    if val <= SIZE_MODULUS - align {
      AlignUpBelow(val, align);
    } else {
      AlignUpBeyond(val, align);
    }
  }

  /** `src/platform/page`: the page size found at the first initialization is kept for good. */
  class Page {
    var size: nat
    var initialized: bool
    var maxAlignable: nat

    ghost predicate Ready()
      reads this
    {
      && initialized
      && PowerOfTwo(size) && size <= SIZE_MAX
      && maxAlignable == AlignDownAny(SIZE_MAX, size)
    }

    constructor ()
      ensures !initialized
    {
      size, initialized, maxAlignable := 0, false, 0;
    }

    /** `gt_page_init`; `reported` is what the system says its page size is. */
    method Init(reported: int) returns (status: Status)
      requires initialized ==> Ready()
      requires !initialized && reported > 0 ==> PowerOfTwo(reported) && reported <= SIZE_MAX
      modifies this
      ensures status == if old(initialized) || reported > 0 then Success else PageSizeUnavailable
      ensures status == Success ==> Ready() && size == if old(initialized) then old(size) else reported
      ensures status != Success ==> !initialized
    {
      if initialized {
        return Success;
      }
      if reported <= 0 {
        return PageSizeUnavailable;
      }
      size := reported;
      maxAlignable := AlignDownAny(SIZE_MAX, size);
      initialized := true;
      return Success;
    }

    /** `gt_page_align_up` */
    method AlignUp(n: nat) returns (r: nat)
      requires Ready() && n <= maxAlignable
      ensures r == AlignUpAny(n, size) && IsRoundedUp(r, n, size) && r <= maxAlignable
    {
      AlignUpExact(n, size);
      r := AlignUpAny(n, size);
    }
  }
}

/** Virtual memory as the kernel keeps it: which regions are mapped, which part of each is accessible, and
    what is in it. */
module VirtualMemory {
  import opened Pages
  import opened Statuses
  import opened Journals
  import opened Memories

  /** A mapped region of `size` bytes, of which only [openAt, openAt + openSize) can be read and written. */
  datatype Region = Region(size: nat, openAt: nat, openSize: nat)

  datatype Mapping = Mapping(base: nat, size: nat)

  const NO_MAPPING := Mapping(0, 0)

  /** Regions lie on page boundaries inside the address space and do not overlap. */
  ghost predicate Separate(live: map<nat, Region>, page: nat)
    requires page > 0
  {
    && (forall b {:trigger live[b]} | b in live ::
          b > 0 && b % page == 0 && live[b].size > 0 && live[b].size % page == 0 && b + live[b].size <= SIZE_MODULUS)
    && (forall b, c {:trigger live[b], live[c]} | b in live && c in live && b < c :: b + live[b].size <= c)
  }

  /** Whether the kernel could place a region of `size` bytes at `base`. */
  predicate Fits(live: map<nat, Region>, page: nat, base: nat, size: nat)
    requires page > 0
  {
    && base > 0 && base % page == 0 && base + size <= SIZE_MODULUS
    && forall b | b in live :: if b <= base then b + live[b].size <= base else base + size <= b
  }

  /** The size of `struct gt_task`, the one structure the runtime keeps in heap blocks. */
  const BLOCK: nat := 152

  /** No heap block that starts at an address of `taken` overlaps these bytes. */
  predicate Unclaimed(taken: set<Word>, base: nat, size: nat) {
    forall a | a in taken :: a + BLOCK <= base || base + size <= a
  }

  /** Whether the heap could place a block at `a`. */
  predicate Vacant(taken: set<Word>, live: map<nat, Region>, a: Word) {
    && 0 < a && a + BLOCK <= SIZE_MODULUS && Unclaimed(taken, a, BLOCK)
    && forall b | b in live :: b + live[b].size <= a || a + BLOCK <= b
  }

  /** Heap blocks lie inside the address space and overlap neither each other nor a mapping. */
  ghost predicate Spaced(taken: set<Word>, live: map<nat, Region>) {
    && (forall a | a in taken :: 0 < a && a + BLOCK <= SIZE_MODULUS)
    && (forall a, b | a in taken && b in taken && a < b :: a + BLOCK <= b)
    && (forall b {:trigger live[b]} | b in live :: Unclaimed(taken, b, live[b].size))
  }

  lemma BlockAdded(taken: set<Word>, live: map<nat, Region>, a: Word)
    requires Spaced(taken, live) && Vacant(taken, live, a)
    ensures Spaced(taken + {a}, live) && a !in taken
  {}

  lemma MappingAdded(taken: set<Word>, live: map<nat, Region>, base: nat, region: Region)
    requires Spaced(taken, live) && Unclaimed(taken, base, region.size)
    ensures Spaced(taken, live[base := region])
  {}

  ghost predicate Accessible(live: map<nat, Region>, a: nat) {
    exists b {:trigger live[b]} :: b in live && live[b].openAt <= a < live[b].openAt + live[b].openSize
  }

  /** The kernel's side, and the journal of what it says. */
  class Vm {
    const page: Page
    const journal: Journal
    var live: map<nat, Region>
    var memory: Memory

    ghost predicate Valid()
      reads this`live, page
    {
      page.Ready() && Separate(live, page.size)
    }

    constructor (page: Page, journal: Journal)
      ensures this.page == page && this.journal == journal && live == map[]
    {
      this.page := page;
      this.journal := journal;
      live := map[];
      memory := _ => 0;
    }

    /** `gt_vm_mapping_reserve`: the kernel refuses, or picks any place that is free; `taken` is where the heap has
        its blocks. */
    method Reserve(size: nat, taken: set<Word>) returns (status: Status, m: Mapping)
      requires Valid() && size > 0 && size % page.size == 0
      modifies this`live, journal
      ensures Valid() && journal.entries == old(journal.entries) + [Said(Reservation, status)]
      ensures status == Success ==>
                && m.size == size && m.base !in old(live) && Fits(old(live), page.size, m.base, size)
                && Unclaimed(taken, m.base, size)
                && live == old(live)[m.base := Region(size, 0, 0)]
      ensures status != Success ==>
                && (status == OutOfMemory || status == VmReservationFailed)
                && m == NO_MAPPING && live == old(live)
    {
      var base: nat := *;
      var granted: bool := *;
      if granted && Fits(live, page.size, base, size) && Unclaimed(taken, base, size) {
        live := live[base := Region(size, 0, 0)];
        status, m := Success, Mapping(base, size);
      } else {
        var noMemory: bool := *;
        status, m := if noMemory then OutOfMemory else VmReservationFailed, NO_MAPPING;
      }
      journal.Note(Reservation, status);
    }

    /** `gt_vm_mapping_protect` with read and write access, for a part of the region at `base`. */
    method Open(base: nat, part: Mapping) returns (status: Status)
      requires Valid() && base in live && base <= part.base && part.base + part.size <= base + live[base].size
      requires part.base % page.size == 0 && part.size > 0 && part.size % page.size == 0
      modifies this`live, journal
      ensures Valid() && journal.entries == old(journal.entries) + [Said(Protection, status)]
      ensures status == Success ==>
                live == old(live)[base := old(live)[base].(openAt := part.base, openSize := part.size)]
      ensures status != Success ==> status == VmProtectionFailed && live == old(live)
    {
      var granted: bool := *;
      status := VmProtectionFailed;
      if granted {
        live := live[base := live[base].(openAt := part.base, openSize := part.size)];
        status := Success;
      }
      journal.Note(Protection, status);
    }

    /** `gt_vm_mapping_release` */
    method Release(m: Mapping)
      requires Valid() && m.base in live && live[m.base].size == m.size
      modifies this`live
      ensures Valid() && live == old(live) - {m.base}
    {
      live := live - {m.base};
    }

    /** A store of one word, all of whose bytes must be accessible. */
    method Store(a: Word, w: Word)
      requires forall b: nat | a <= b < a + 8 :: Accessible(live, b)
      modifies this`memory
      ensures memory == Write(old(memory), a, w)
    {
      memory := Write(memory, a, w);
    }
  }
}

/** Execution stacks: a usable region with one inaccessible page on each side. */
module Stacks {
  import opened Pages
  import opened Statuses
  import opened Journals
  import opened VirtualMemory
  import Memories

  const STACK_ALIGNMENT: nat := 16
  const GUARD_PAGES: nat := 2
  const DEFAULT_SIZE: nat := 65536

  /** The size of a context's first frame. */
  const FRAME: nat := 24

  /** `struct gt_stack` */
  datatype Stack = Stack(mapping: Mapping, base: nat, size: nat)

  const NO_STACK := Stack(NO_MAPPING, 0, 0)

  /** Page sizes the stack layout works with. */
  predicate Supported(page: nat) {
    PowerOfTwo(page) && STACK_ALIGNMENT <= page && DEFAULT_SIZE % page == 0
  }

  function UsableSize(request: nat, page: nat): nat
    requires page > 0
  {
    if request == 0 then DEFAULT_SIZE else AlignUpAny(request, page)
  }

  /** The requests for which neither the rounding nor the addition of the guard pages wraps. */
  predicate Fitting(request: nat, page: nat) {
    && page > 0
    && request <= AlignDownAny(SIZE_MAX, page)
    && UsableSize(request, page) + GUARD_PAGES * page <= SIZE_MAX
  }

  /** One page below the usable region and one page above it belong to the mapping. */
  ghost predicate Framed(s: Stack, page: nat) {
    && s.size > 0 && s.base == s.mapping.base + page
    && s.mapping.size == s.size + GUARD_PAGES * page
  }

  /** What the runtime relies on in every stack: guards, alignment, and room for the first frame. */
  ghost predicate Usable(s: Stack, page: nat) {
    Framed(s, page) && s.base % STACK_ALIGNMENT == 0 && s.size % STACK_ALIGNMENT == 0 && s.size >= FRAME
  }

  /** The requests for which the stack has room for the first frame. */
  predicate Roomy(request: nat, page: nat) {
    page > STACK_ALIGNMENT || request == 0 || request > STACK_ALIGNMENT
  }

  /** The layout of a stack made for `request` bytes. */
  ghost predicate Laid(s: Stack, request: nat, page: nat)
    requires page > 0
  {
    && (if request == 0 then s.size == DEFAULT_SIZE else IsRoundedUp(s.size, request, page))
    && Framed(s, page) && s.size % page == 0
    && s.base % STACK_ALIGNMENT == 0 && s.size % STACK_ALIGNMENT == 0
  }

  /** What a stack is for whoever asked for `request` bytes: laid out for them, and with room for the first frame. */
  ghost predicate Serves(s: Stack, request: nat, page: nat) {
    page > 0 && Laid(s, request, page) && Usable(s, page)
  }

  /** The region a stack occupies in the kernel's table. */
  function RegionOf(s: Stack): Region {
    Region(s.mapping.size, s.base, s.size)
  }

  /** Only requests of at most 16 bytes on pages of 16 bytes leave no room for the first frame. */
  lemma RoomyIsUsable(s: Stack, request: nat, page: nat)
    requires Supported(page) && Laid(s, request, page)
    ensures Roomy(request, page) <==> Usable(s, page)
  {
    if s.size < FRAME {
      assert s.size == 16;
    }
  }

  /** And such a stack passes all checks: one byte asked for on pages of 16 bytes, with the whole mapping at 16. */
  lemma SmallestStackIsNotUsable()
    ensures var s := Stack(Mapping(16, 48), 32, 16);
            && Supported(16) && Fitting(1, 16) && !Roomy(1, 16)
            && Laid(s, 1, 16) && Separate(map[16 := RegionOf(s)], 16) && !Usable(s, 16)
  {
    assert PowerOfTwo(16) by { Sixteen(); }
    assert AlignUpAny(1, 16) == 16;
  }

  lemma SupportedIsPositive(page: nat)
    requires Supported(page)
    ensures page > 0
  {}

  lemma SupportedAligned(n: nat, page: nat)
    requires Supported(page) && n % page == 0
    ensures n % STACK_ALIGNMENT == 0
  {
    hide PowerOfTwo;
    assert PowerOfTwo(16) by { Sixteen(); }
    PowerOfTwoDivides(16, page);
    MultipleOfMultiple(n, 16, page);
  }

  lemma Sixteen()
    ensures PowerOfTwo(16)
  {}

  lemma TwoPages(n: nat, page: nat)
    requires page > 0 && n % page == 0
    ensures (n + GUARD_PAGES * page) % page == 0 && (n + page) % page == 0
  {
    DivisionIsUnique(page, page, 1, 0);
    MultipleSum(n, page, page);
    MultipleSum(n + page, page, page);
  }

  /** `gt_stack_init`: reserves the whole region, then opens all but the first and the last page. */
  method StackInit(vm: Vm, request: nat, taken: set<Memories.Word>) returns (status: Status, s: Stack)
    requires vm.Valid() && Supported(vm.page.size) && Fitting(request, vm.page.size)
    modifies vm`live, vm.journal
    ensures vm.Valid()
    ensures vm.journal.entries == old(vm.journal.entries) +
              if status == Success || status == VmProtectionFailed then
                [Said(Reservation, Success), Said(Protection, status)]
              else [Said(Reservation, status)]
    ensures status == Success ==>
              && Laid(s, request, vm.page.size) && s.mapping.base !in old(vm.live)
              && Unclaimed(taken, s.mapping.base, s.mapping.size)
              && vm.live == old(vm.live)[s.mapping.base := RegionOf(s)]
    ensures status != Success ==>
              && (status == OutOfMemory || status == VmReservationFailed || status == VmProtectionFailed)
              && s == NO_STACK && vm.live == old(vm.live)
  {
    hide PowerOfTwo, AlignUpAny, AlignDownAny, Separate, Fits, Unclaimed;
    var pageSize := vm.page.size;
    var stackSize := DEFAULT_SIZE;
    if request != 0 {
      stackSize := vm.page.AlignUp(request);
    }
    var guardSize := GUARD_PAGES * pageSize;
    var mappingSize := (stackSize + guardSize) % SIZE_MODULUS;
    assert stackSize == UsableSize(request, pageSize) && mappingSize == stackSize + guardSize;
    var mapping;
    TwoPages(stackSize, pageSize);
    status, mapping := vm.Reserve(mappingSize, taken);
    if status != Success {
      return status, NO_STACK;
    }
    var usable := Mapping(mapping.base + pageSize, mapping.size - guardSize);
    BasesArePageAligned(vm.live, mapping.base, pageSize);
    TwoPages(mapping.base, pageSize);
    status := vm.Open(mapping.base, usable);
    if status != Success {
      vm.Release(mapping);
      return status, NO_STACK;
    }
    SupportedAligned(usable.base, pageSize);
    SupportedAligned(usable.size, pageSize);
    s := Stack(mapping, usable.base, usable.size);
  }

  lemma BasesArePageAligned(live: map<nat, Region>, b: nat, page: nat)
    requires page > 0 && Separate(live, page) && b in live
    ensures b % page == 0
  {}

  /** `gt_stack_destroy` */
  method StackDestroy(vm: Vm, s: Stack)
    requires vm.Valid() && s.mapping.base in vm.live && vm.live[s.mapping.base].size == s.mapping.size
    modifies vm`live
    ensures vm.Valid() && vm.live == old(vm.live) - {s.mapping.base}
  {
    vm.Release(s.mapping);
  }

  // Geometry

  /** Every mapped region is that of a stack between two closed pages. */
  ghost predicate AllFramed(live: map<nat, Region>, page: nat) {
    forall b {:trigger live[b]} | b in live ::
      live[b].openAt == b + page && live[b].size == live[b].openSize + GUARD_PAGES * page
  }

  /** Of the addresses of a stack's mapping exactly the usable ones can be accessed: one page on each side cannot. */
  lemma GuardPagesAreClosed(live: map<nat, Region>, page: nat, s: Stack, a: nat)
    requires page > 0 && Separate(live, page) && AllFramed(live, page)
    requires s.mapping.base in live && live[s.mapping.base] == RegionOf(s) && Framed(s, page)
    requires s.mapping.base <= a < s.mapping.base + s.mapping.size
    ensures Accessible(live, a) <==> s.base <= a < s.base + s.size
    ensures a < s.mapping.base + page || a >= s.mapping.base + s.mapping.size - page <==> !Accessible(live, a)
  {
    assert live[s.mapping.base].openAt == s.base;
  }

  /** The usable regions of two live stacks are at least two pages apart. */
  lemma StacksAreApart(live: map<nat, Region>, page: nat, s: Stack, t: Stack)
    requires page > 0 && Separate(live, page)
    requires s.mapping.base in live && live[s.mapping.base] == RegionOf(s) && Framed(s, page)
    requires t.mapping.base in live && live[t.mapping.base] == RegionOf(t) && Framed(t, page)
    requires s.mapping.base != t.mapping.base
    ensures s.base + s.size + GUARD_PAGES * page <= t.base || t.base + t.size + GUARD_PAGES * page <= s.base
  {
    assert live[s.mapping.base].size > 0 && live[t.mapping.base].size > 0;
  }
}
