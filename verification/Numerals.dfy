/** Words as numbers: the source's bit masks against arithmetic on the numbers the bits stand for. */
module Numerals {
  import opened Words
  import Pages

  /** The number whose binary digits are the bits of `w` from `j` on. */
  function ValueFrom(w: Word, j: nat): nat
    requires j <= 64
    decreases 64 - j
  {
    if j == 64 then 0 else (if Test(w, j) then 1 else 0) + 2 * ValueFrom(w, j + 1)
  }

  function Value(w: Word): nat {
    ValueFrom(w, 0)
  }

  function TwoTo(n: nat): (p: nat)
    ensures p > 0
  {
    if n == 0 then 1 else 2 * TwoTo(n - 1)
  }

  lemma TwoToSixtyFour()
    ensures TwoTo(64) == Pages.SIZE_MODULUS
  {
    assert TwoTo(8) == 0x100;
    assert TwoTo(16) == 0x1_0000;
    assert TwoTo(24) == 0x100_0000;
    assert TwoTo(32) == 0x1_0000_0000;
    assert TwoTo(40) == 0x100_0000_0000;
    assert TwoTo(48) == 0x1_0000_0000_0000;
    assert TwoTo(56) == 0x100_0000_0000_0000;
  }

  /** The word for a number below 2^(64 - j), at bit `j` and above. */
  function WordAbove(n: nat, j: nat): Word
    requires j <= 64
    decreases 64 - j
  {
    if j == 64 then 0
    else if n % 2 == 1 then Set(WordAbove(n / 2, j + 1), j)
    else WordAbove(n / 2, j + 1)
  }

  lemma {:induction false} NoneBelow(n: nat, j: nat, i: nat)
    requires i < j <= 64
    ensures !Test(WordAbove(n, j), i)
    decreases 64 - j
  {
    hide Test, Set;
    if j == 64 {
      ZeroBit(i);
    } else {
      NoneBelow(n / 2, j + 1, i);
      SetBit(WordAbove(n / 2, j + 1), j, i);
    }
  }

  lemma {:induction false} SameAbove(w: Word, v: Word, j: nat)
    requires j <= 64 && forall i | j <= i < 64 :: Test(w, i) == Test(v, i)
    ensures ValueFrom(w, j) == ValueFrom(v, j)
    decreases 64 - j
  {
    hide Test;
    if j < 64 {
      SameAbove(w, v, j + 1);
    }
  }

  /** Every 64-bit number is the value of a word. */
  lemma {:induction false} ValueOfWord(n: nat, j: nat)
    requires j <= 64 && n < TwoTo(64 - j)
    ensures ValueFrom(WordAbove(n, j), j) == n
    decreases 64 - j
  {
    hide Test, Set;
    if j < 64 {
      var above := WordAbove(n / 2, j + 1);
      ValueOfWord(n / 2, j + 1);
      NoneBelow(n / 2, j + 1, j);
      forall i | j <= i < 64 ensures Test(Set(above, j), i) == (i == j || Test(above, i)) {
        SetBit(above, j, i);
      }
      SameAbove(above, WordAbove(n, j), j + 1);
    }
  }

  /** The word for `n`. */
  function WordOf(n: nat): (w: Word)
    requires n < Pages.SIZE_MODULUS
    ensures Value(w) == n
  {
    TwoToSixtyFour();
    ValueOfWord(n, 0);
    WordAbove(n, 0)
  }

  // The power-of-two test

  lemma {:induction false} NoBitsNoValue(w: Word, j: nat)
    requires j <= 64
    ensures ValueFrom(w, j) == 0 <==> forall i | j <= i < 64 :: !Test(w, i)
    decreases 64 - j
  {
    hide Test;
    if j < 64 {
      NoBitsNoValue(w, j + 1);
    }
  }

  /** `k` is the only bit of `w` from `j` on. */
  ghost predicate Single(w: Word, j: nat, k: nat)
    requires k < 64
  {
    j <= k && Test(w, k) && forall i | j <= i < 64 && i != k :: !Test(w, i)
  }

  /** A number is a power of two exactly when one of its binary digits is 1. */
  lemma {:induction false} PowerHasOneBit(w: Word, j: nat)
    requires j <= 64
    ensures Pages.PowerOfTwo(ValueFrom(w, j)) <==> exists k: nat :: k < 64 && Single(w, j, k)
    decreases 64 - j
  {
    hide Test;
    if j < 64 {
      var v := ValueFrom(w, j + 1);
      PowerHasOneBit(w, j + 1);
      NoBitsNoValue(w, j + 1);
      if Test(w, j) {
        assert ValueFrom(w, j) == 1 + 2 * v;
        if v == 0 {
          assert Single(w, j, j);
        } else {
          var i :| j + 1 <= i < 64 && Test(w, i);
          assert forall k: nat | k < 64 :: !Single(w, j, k);
          assert (1 + 2 * v) % 2 == 1 && !Pages.PowerOfTwo(1 + 2 * v);
        }
      } else {
        assert ValueFrom(w, j) == 2 * v && (2 * v) / 2 == v;
        assert Pages.PowerOfTwo(2 * v) <==> Pages.PowerOfTwo(v);
        var next := j + 1;
        if k: nat :| k < 64 && Single(w, next, k) {
          assert Single(w, j, k);
        }
        if k: nat :| k < 64 && Single(w, j, k) {
          assert Single(w, next, k);
        }
      }
    }
  }

  lemma SingleIsMask(w: Word, k: nat)
    requires k < 64
    ensures Single(w, 0, k) <==> w == MaskAt(At(k))
  {
    hide Test, MaskAt, At;
    MaskBits(k);
    if Single(w, 0, k) {
      SameBitsIsSame(w, MaskAt(At(k)));
    }
  }

  lemma MaskBits(k: nat)
    requires k < 64
    ensures Single(MaskAt(At(k)), 0, k)
  {
    hide Test, Join, Meet, MaskAt, At;
    forall i | 0 <= i < 64 ensures Test(MaskAt(At(k)), i) <==> i == k {
      ZeroBit(i);
      SetBit(0, k, i);
      JoinZero(MaskAt(At(k)));
    }
  }

  lemma JoinZero(w: Word)
    ensures Join(0, w) == w
  {}

  /** `GT_IS_POW2` agrees with arithmetic: a positive number passes the mask test if and only if it is a power
      of two. */
  lemma MaskTestIsPowerOfTwo(n: nat)
    requires 0 < n < Pages.SIZE_MODULUS
    ensures Meet(WordOf(n), WordOf(n) - 1) == 0 <==> Pages.PowerOfTwo(n)
  {
    hide Meet, MaskAt, At, Test, WordAbove, WordOf, Single, ValueFrom, Pages.PowerOfTwo;
    var w := WordOf(n);
    NoBitsNoValue(w, 0);
    PowerHasOneBit(w, 0);
    PowerOfTwoTest(w);
    forall k: nat | k < 64 ensures Single(w, 0, k) <==> w == MaskAt(At(k)) {
      SingleIsMask(w, k);
    }
    assert w != 0 by {
      if w == 0 {
        forall i | 0 <= i < 64 ensures !Test(w, i) { ZeroBit(i); }
      }
    }
  }

  // Rounding down by a mask

  function Digits(b0: bool, b1: bool, b2: bool, b3: bool): (d: nat)
    ensures d < 16
  {
    (if b0 then 1 else 0) + (if b1 then 2 else 0) + (if b2 then 4 else 0) + (if b3 then 8 else 0)
  }

  lemma FourDigits(w: Word)
    ensures Value(w) == Digits(Test(w, 0), Test(w, 1), Test(w, 2), Test(w, 3)) + 16 * ValueFrom(w, 4)
  {
    hide Test;
    assert ValueFrom(w, 2) == (if Test(w, 2) then 1 else 0) + 2 * ((if Test(w, 3) then 1 else 0) + 2 * ValueFrom(w, 4));
  }

  lemma MaskedBits(w: Word, i: nat)
    requires i < 64
    ensures Test(Meet(w, Invert(Low(4))), i) <==> Test(w, i) && i >= 4
  {
    hide Test, Meet, Invert, Low;
    MeetBit(w, Invert(Low(4)), i);
    InvertBit(Low(4), i);
    LowBit(4, i);
  }

  /** `GT_ALIGN_DOWN_POT` to 16 agrees with arithmetic: clearing the four low bits takes the remainder away. */
  lemma MaskRoundsDown(w: Word)
    ensures Value(Meet(w, Invert(15))) == Value(w) - Value(w) % 16
  {
    hide Test, Meet, Invert, Low, Value, ValueFrom;
    FifteenIsLow();
    var r := Meet(w, Invert(Low(4)));
    forall i | 0 <= i < 64 ensures Test(r, i) <==> Test(w, i) && i >= 4 {
      MaskedBits(w, i);
    }
    SameAbove(r, w, 4);
    FourDigits(r);
    FourDigits(w);
  }

  lemma FifteenIsLow()
    ensures Low(4) == 15
  {
    LowZero();
    LowStep(0);
    LowStep(1);
    LowStep(2);
    LowStep(3);
  }
}
