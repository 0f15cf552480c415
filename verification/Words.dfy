/** One storage word of the bitmap: `unsigned long` is a 64-bit vector.

    The masks are written with the source's own shift, and-not and or; every other
    module uses only the lemmas at the end, which say what each operation does to the
    single bits of a word.  Bit-vector reasoning stays inside this module. */
module Words {
  type Word = bv64
  type Offset = bv6

  const BITS_PER_WORD: nat := 64
  const ONES: Word := 0xFFFF_FFFF_FFFF_FFFF

  function At(k: nat): Offset
    requires k < 64
  {
    k as bv6
  }

  function MaskAt(a: Offset): Word { 1 << a }

  function BelowAt(a: Offset): Word { MaskAt(a) - 1 }

  function Meet(w: Word, v: Word): Word { w & v }

  function Join(w: Word, v: Word): Word { w | v }

  function Invert(w: Word): Word { !w }

  predicate TestAt(w: Word, a: Offset) { Meet(w, MaskAt(a)) != 0 }

  function SetAt(w: Word, a: Offset): Word { Join(w, MaskAt(a)) }

  function ClearAt(w: Word, a: Offset): Word { Meet(w, Invert(MaskAt(a))) }

  /** Whether bit `k` of `w` is set. */
  predicate Test(w: Word, k: nat)
    requires k < 64
  {
    TestAt(w, At(k))
  }

  function Set(w: Word, k: nat): Word
    requires k < 64
  {
    SetAt(w, At(k))
  }

  function Clear(w: Word, k: nat): Word
    requires k < 64
  {
    ClearAt(w, At(k))
  }

  /** The word whose lowest `k` bits are set. */
  function Low(k: nat): Word
    requires k <= 64
  {
    if k == 64 then ONES else BelowAt(At(k))
  }

  // Facts about offsets

  lemma OffsetRoundTrip(k: nat)
    requires k < 64
    ensures At(k) as nat == k
  {}

  lemma OffsetsDiffer(k: nat, j: nat)
    requires k < 64 && j < 64 && k != j
    ensures At(k) != At(j)
  {
    hide At;
    OffsetRoundTrip(k);
    OffsetRoundTrip(j);
  }

  lemma NextOffset(k: nat)
    requires k < 63
    ensures At(k) != 63 && At(k + 1) == At(k) + 1
  {
    OffsetRoundTrip(k);
    OffsetRoundTrip(k + 1);
  }

  // Facts about bit-vectors

  lemma OneHot(w: Word, a: Offset)
    ensures MaskAt(a) != 0
    ensures Meet(w, MaskAt(a)) == MaskAt(a) || Meet(w, MaskAt(a)) == 0
  {}

  lemma MasksDisjoint(a: Offset, b: Offset)
    requires a != b
    ensures Meet(MaskAt(a), MaskAt(b)) == 0
  {}

  lemma JoinSelf(w: Word, m: Word)
    ensures Meet(Join(w, m), m) == m
  {}

  lemma JoinOther(w: Word, m: Word, n: Word)
    requires Meet(m, n) == 0
    ensures Meet(Join(w, m), n) == Meet(w, n)
  {}

  lemma RemoveSelf(w: Word, m: Word)
    ensures Meet(Meet(w, Invert(m)), m) == 0
  {}

  lemma RemoveOther(w: Word, m: Word, n: Word)
    requires Meet(m, n) == 0
    ensures Meet(Meet(w, Invert(m)), n) == Meet(w, n)
  {}

  lemma InvertFull(w: Word, m: Word)
    requires Meet(w, m) == m
    ensures Meet(Invert(w), m) == 0
  {}

  lemma InvertEmpty(w: Word, m: Word)
    requires Meet(w, m) == 0
    ensures Meet(Invert(w), m) == m
  {}

  lemma MeetSplit(w: Word, v: Word, m: Word)
    ensures Meet(Meet(w, v), m) == Meet(Meet(w, m), Meet(v, m))
    ensures Meet(0, m) == Meet(m, 0) == Meet(0, 0) == 0 && Meet(m, m) == m
  {}

  lemma MeetNothing(w: Word, v: Word)
    requires Meet(w, Invert(v)) == 0 && Meet(v, Invert(w)) == 0
    ensures w == v
  {}

  lemma MeetJoin(w: Word, v: Word, m: Word)
    requires Meet(w, v) == 0 && Meet(w, m) == 0
    ensures Meet(w, Join(v, m)) == 0
  {}

  lemma MeetBounds(w: Word)
    ensures Meet(w, 0) == 0 == Meet(0, w)
    ensures Meet(w, ONES) == w
  {}

  lemma MaskGrows(a: Offset)
    requires a != 63
    ensures BelowAt(a + 1) == SetAt(BelowAt(a), a)
  {}

  lemma MaskEnds()
    ensures SetAt(BelowAt(63), 63) == ONES
    ensures At(63) == 63
    ensures BelowAt(At(0)) == 0
  {}

  // What each operation does to the bits of a word

  lemma SetBit(w: Word, k: nat, j: nat)
    requires k < 64 && j < 64
    ensures Test(Set(w, k), j) <==> (j == k || Test(w, j))
  {
    hide At, MaskAt, Join, Meet;
    if j == k {
      OneHot(w, At(k));
      JoinSelf(w, MaskAt(At(k)));
    } else {
      OffsetsDiffer(k, j);
      MasksDisjoint(At(k), At(j));
      JoinOther(w, MaskAt(At(k)), MaskAt(At(j)));
    }
  }

  lemma ClearBit(w: Word, k: nat, j: nat)
    requires k < 64 && j < 64
    ensures Test(Clear(w, k), j) <==> (j != k && Test(w, j))
  {
    hide At, MaskAt, Invert, Meet;
    if j == k {
      RemoveSelf(w, MaskAt(At(k)));
    } else {
      OffsetsDiffer(k, j);
      MasksDisjoint(At(k), At(j));
      RemoveOther(w, MaskAt(At(k)), MaskAt(At(j)));
    }
  }

  lemma InvertBit(w: Word, j: nat)
    requires j < 64
    ensures Test(Invert(w), j) <==> !Test(w, j)
  {
    hide At, MaskAt, Invert, Meet;
    OneHot(w, At(j));
    if Test(w, j) {
      InvertFull(w, MaskAt(At(j)));
    } else {
      InvertEmpty(w, MaskAt(At(j)));
    }
  }

  lemma MeetBit(w: Word, v: Word, j: nat)
    requires j < 64
    ensures Test(Meet(w, v), j) <==> Test(w, j) && Test(v, j)
  {
    hide At, MaskAt, Meet;
    OneHot(w, At(j));
    OneHot(v, At(j));
    MeetSplit(w, v, MaskAt(At(j)));
  }

  lemma ZeroBit(j: nat)
    requires j < 64
    ensures !Test(0, j)
  {
    hide At, MaskAt, Meet;
    MeetBounds(MaskAt(At(j)));
  }

  lemma LowZero()
    ensures Low(0) == 0
  {
    MaskEnds();
  }

  lemma LowStep(k: nat)
    requires k < 64
    ensures Low(k + 1) == Set(Low(k), k)
  {
    hide At, BelowAt, SetAt;
    MaskEnds();
    if k < 63 {
      NextOffset(k);
      MaskGrows(At(k));
    }
  }

  /** The mask of the last, partly used word selects exactly the bits below `k`. */
  lemma {:induction false} LowBit(k: nat, j: nat)
    requires k <= 64 && j < 64
    ensures Test(Low(k), j) <==> j < k
  {
    hide Low, Test, Set;
    if k == 0 {
      LowZero();
      ZeroBit(j);
    } else {
      LowBit(k - 1, j);
      LowStep(k - 1);
      SetBit(Low(k - 1), k - 1, j);
    }
  }

  lemma {:induction false} MeetLow(w: Word, k: nat)
    requires k <= 64
    requires forall j | 0 <= j < k :: !Test(w, j)
    ensures Meet(w, Low(k)) == 0
  {
    hide Low, At, MaskAt, Join, Meet;
    if k == 0 {
      LowZero();
      MeetBounds(w);
    } else {
      MeetLow(w, k - 1);
      LowStep(k - 1);
      assert !Test(w, k - 1);
      MeetJoin(w, Low(k - 1), MaskAt(At(k - 1)));
    }
  }

  /** A word without a set bit is zero. */
  lemma NoBitsIsZero(w: Word)
    requires forall j | 0 <= j < 64 :: !Test(w, j)
    ensures w == 0
  {
    hide Test, Meet;
    MeetLow(w, 64);
    MeetBounds(w);
  }

  /** Words with the same bits are equal. */
  lemma SameBitsIsSame(w: Word, v: Word)
    requires forall j | 0 <= j < 64 :: Test(w, j) == Test(v, j)
    ensures w == v
  {
    hide Test, Meet, Invert;
    forall j | 0 <= j < 64
      ensures !Test(Meet(w, Invert(v)), j) && !Test(Meet(v, Invert(w)), j)
    {
      MeetBit(w, Invert(v), j);
      MeetBit(v, Invert(w), j);
      InvertBit(v, j);
      InvertBit(w, j);
    }
    NoBitsIsZero(Meet(w, Invert(v)));
    NoBitsIsZero(Meet(v, Invert(w)));
    MeetNothing(w, v);
  }

  /** `__builtin_ctzl`: the position of the lowest set bit. */
  function Ctz(w: Word): (k: nat)
    requires w != 0
    ensures k < 64 && Test(w, k)
    ensures forall j | 0 <= j < k :: !Test(w, j)
  {
    CtzFrom(w, 0)
  }

  function CtzFrom(w: Word, from: nat): (k: nat)
    requires from <= 64 && w != 0
    requires forall j | 0 <= j < from :: !Test(w, j)
    ensures k < 64 && Test(w, k)
    ensures forall j | 0 <= j < k :: !Test(w, j)
    decreases 64 - from
  {
    hide Test;
    assert from < 64 by { if from == 64 { NoBitsIsZero(w); } }
    if Test(w, from) then from else CtzFrom(w, from + 1)
  }

  // The power-of-two test

  lemma OneLess(w: Word, m: Word)
    requires Meet(w, m) == m && Meet(w, m - 1) == 0
    ensures w - 1 == Join(Meet(w, Invert(m)), m - 1)
  {}

  lemma MeetParts(w: Word, v: Word, m: Word)
    requires Meet(w, v) == v && Meet(w, m) == 0
    ensures Meet(w, Join(v, m)) == v
  {}

  lemma MeetTwice(w: Word, v: Word)
    ensures Meet(w, Meet(w, v)) == Meet(w, v)
  {}

  /** Going down by one clears the lowest set bit. */
  lemma ClearsLowest(w: Word, m: Word)
    requires Meet(w, m) == m && Meet(w, m - 1) == 0
    ensures Meet(w, w - 1) == Meet(w, Invert(m))
  {
    hide Meet, Invert, Join;
    OneLess(w, m);
    MeetTwice(w, Invert(m));
    MeetParts(w, Meet(w, Invert(m)), m - 1);
  }

  lemma OneBitPasses(a: Offset)
    ensures Meet(MaskAt(a), MaskAt(a) - 1) == 0
  {}

  lemma OnlyBit(w: Word, m: Word)
    requires Meet(w, m) == m && Meet(w, Invert(m)) == 0
    ensures w == m
  {}

  lemma BelowIsLow(k: nat)
    requires k < 64
    ensures Low(k) == BelowAt(At(k)) == MaskAt(At(k)) - 1
  {}

  /** `GT_IS_POW2`: the test passes if and only if at most one bit is set; zero passes too. */
  lemma PowerOfTwoTest(w: Word)
    ensures Meet(w, w - 1) == 0 <==> w == 0 || exists k: nat :: k < 64 && w == MaskAt(At(k))
  {
    hide Meet, MaskAt, BelowAt, Invert, At, Low;
    if w == 0 {
      MeetBounds(w - 1);
    } else {
      var k := Ctz(w);
      MeetLow(w, k);
      BelowIsLow(k);
      OneHot(w, At(k));
      ClearsLowest(w, MaskAt(At(k)));
      if Meet(w, w - 1) == 0 {
        OnlyBit(w, MaskAt(At(k)));
      }
      forall j: nat | j < 64 && w == MaskAt(At(j)) ensures Meet(w, w - 1) == 0 {
        OneBitPasses(At(j));
      }
    }
  }
}
