/** The bitmap over caller-provided words, refined to a set of indices.

    `MembersOf` is the set a word sequence stands for; the lemmas about it say what one
    word update or one word scan means for that set, and the class proves its in-place
    operations and searches against them. */
module Bitmaps {
  import opened Words
  import opened Pages

  /** Words needed for `totalBits` bits, in the source's 64-bit unsigned arithmetic. */
  function TotalWords(totalBits: nat): nat {
    ((totalBits + BITS_PER_WORD - 1) % SIZE_MODULUS) / BITS_PER_WORD
  }

  /** The wrapped rounding is exact for all sizes but the last 63, where it yields no word at all. */
  lemma TotalWordsExact(totalBits: nat)
    requires totalBits < SIZE_MODULUS
    ensures totalBits + BITS_PER_WORD <= SIZE_MODULUS
            <==> totalBits <= TotalWords(totalBits) * BITS_PER_WORD < totalBits + BITS_PER_WORD
  {
    if totalBits + BITS_PER_WORD <= SIZE_MODULUS {
      assert (totalBits + BITS_PER_WORD - 1) % SIZE_MODULUS == totalBits + BITS_PER_WORD - 1;
    } else {
      assert (totalBits + BITS_PER_WORD - 1) % SIZE_MODULUS == totalBits + BITS_PER_WORD - 1 - SIZE_MODULUS;
      assert TotalWords(totalBits) == 0;
    }
  }

  predicate BitAt(words: seq<Word>, i: nat)
    requires i < BITS_PER_WORD * |words|
  {
    Test(words[i / BITS_PER_WORD], i % BITS_PER_WORD)
  }

  /** The words hold exactly `total` bits, and every bit beyond them is clear. */
  ghost predicate Shaped(words: seq<Word>, total: nat) {
    && 0 < total <= BITS_PER_WORD * |words| < total + BITS_PER_WORD
    && forall i | total <= i < BITS_PER_WORD * |words| :: !BitAt(words, i)
  }

  ghost function MembersOf(words: seq<Word>, total: nat): set<nat>
    requires total <= BITS_PER_WORD * |words|
  {
    set i | 0 <= i < total && BitAt(words, i)
  }

  lemma Position(w: nat, k: nat)
    requires k < BITS_PER_WORD
    ensures (BITS_PER_WORD * w + k) / BITS_PER_WORD == w
    ensures (BITS_PER_WORD * w + k) % BITS_PER_WORD == k
  {}

  lemma SetWord(words: seq<Word>, total: nat, i: nat)
    requires Shaped(words, total) && i < total
    ensures var words' := words[i / BITS_PER_WORD := Set(words[i / BITS_PER_WORD], i % BITS_PER_WORD)];
            Shaped(words', total) && MembersOf(words', total) == MembersOf(words, total) + {i}
  {
    hide Set, Test;
    var words' := words[i / BITS_PER_WORD := Set(words[i / BITS_PER_WORD], i % BITS_PER_WORD)];
    forall j: nat | j < BITS_PER_WORD * |words|
      ensures BitAt(words', j) <==> (j == i || BitAt(words, j))
    {
      if j / BITS_PER_WORD == i / BITS_PER_WORD {
        SetBit(words[i / BITS_PER_WORD], i % BITS_PER_WORD, j % BITS_PER_WORD);
      }
    }
  }

  lemma ClearWord(words: seq<Word>, total: nat, i: nat)
    requires Shaped(words, total) && i < total
    ensures var words' := words[i / BITS_PER_WORD := Clear(words[i / BITS_PER_WORD], i % BITS_PER_WORD)];
            Shaped(words', total) && MembersOf(words', total) == MembersOf(words, total) - {i}
  {
    hide Clear, Test;
    var words' := words[i / BITS_PER_WORD := Clear(words[i / BITS_PER_WORD], i % BITS_PER_WORD)];
    forall j: nat | j < BITS_PER_WORD * |words|
      ensures BitAt(words', j) <==> (j != i && BitAt(words, j))
    {
      if j / BITS_PER_WORD == i / BITS_PER_WORD {
        ClearBit(words[i / BITS_PER_WORD], i % BITS_PER_WORD, j % BITS_PER_WORD);
      }
    }
  }

  lemma ZeroWords(words: seq<Word>, total: nat)
    requires 0 < total <= BITS_PER_WORD * |words| < total + BITS_PER_WORD
    requires forall w | 0 <= w < |words| :: words[w] == 0
    ensures Shaped(words, total) && MembersOf(words, total) == {}
  {
    hide Test;
    forall i: nat | i < BITS_PER_WORD * |words| ensures !BitAt(words, i) {
      ZeroBit(i % BITS_PER_WORD);
    }
  }

  /** No index from `lo` to `hi` (excluded) is a member. */
  ghost predicate NoneIn(members: set<nat>, lo: nat, hi: nat) {
    forall i | lo <= i < hi :: i !in members
  }

  ghost predicate AllIn(members: set<nat>, lo: nat, hi: nat) {
    forall i | lo <= i < hi :: i in members
  }

  /** Where the valid bits of word `w` end: the next word boundary, or `total` in the last word. */
  function WordEnd(total: nat, w: nat): nat {
    if total < BITS_PER_WORD * (w + 1) then total else BITS_PER_WORD * (w + 1)
  }

  /** Bit `k` of word `w` stands for index `64 w + k`; bits beyond `total` stand for nothing and are clear. */
  lemma BitInWord(words: seq<Word>, total: nat, w: nat, k: nat)
    requires Shaped(words, total) && w < |words| && k < BITS_PER_WORD
    ensures Test(words[w], k) <==> BITS_PER_WORD * w + k in MembersOf(words, total)
  {
    hide Test;
    Position(w, k);
    assert BitAt(words, BITS_PER_WORD * w + k) == Test(words[w], k);
  }

  /** A zero word holds no member; a nonzero one holds a member, its lowest at the count of trailing zeros. */
  lemma ScanSet(words: seq<Word>, total: nat, w: nat)
    requires Shaped(words, total) && w < |words|
    ensures words[w] == 0 ==> NoneIn(MembersOf(words, total), BITS_PER_WORD * w, WordEnd(total, w))
    ensures words[w] != 0 ==>
              var i := BITS_PER_WORD * w + Ctz(words[w]);
              i in MembersOf(words, total) && NoneIn(MembersOf(words, total), BITS_PER_WORD * w, i)
  {
    hide Test, MembersOf;
    var end := if words[w] == 0 then BITS_PER_WORD else Ctz(words[w]);
    forall i | BITS_PER_WORD * w <= i < BITS_PER_WORD * w + end
      ensures i !in MembersOf(words, total)
    {
      BitInWord(words, total, w, i - BITS_PER_WORD * w);
      ZeroBit(i - BITS_PER_WORD * w);
    }
    if words[w] != 0 {
      BitInWord(words, total, w, Ctz(words[w]));
    }
  }

  /** The bits of an inverted word, cut to the valid ones, are the indices that are not members. */
  lemma InvertedBit(words: seq<Word>, total: nat, w: nat, k: nat)
    requires Shaped(words, total) && w < |words| && k < BITS_PER_WORD
    ensures BITS_PER_WORD * w <= WordEnd(total, w)
    ensures Test(Meet(Invert(words[w]), Low(WordEnd(total, w) - BITS_PER_WORD * w)), k)
            <==> BITS_PER_WORD * w + k < total && BITS_PER_WORD * w + k !in MembersOf(words, total)
  {
    hide Test, Low, Meet, Invert, MembersOf;
    var valid := WordEnd(total, w) - BITS_PER_WORD * w;
    BitInWord(words, total, w, k);
    InvertBit(words[w], k);
    LowBit(valid, k);
    MeetBit(Invert(words[w]), Low(valid), k);
  }

  /** The inverted word, cut to the valid bits, locates the lowest index that is not a member. */
  lemma ScanClear(words: seq<Word>, total: nat, w: nat, inverted: Word)
    requires Shaped(words, total) && w < |words|
    requires inverted == Meet(Invert(words[w]), Low(WordEnd(total, w) - BITS_PER_WORD * w))
    ensures inverted == 0 ==> AllIn(MembersOf(words, total), BITS_PER_WORD * w, WordEnd(total, w))
    ensures inverted != 0 ==>
              var i := BITS_PER_WORD * w + Ctz(inverted);
              i < total && i !in MembersOf(words, total) &&
              AllIn(MembersOf(words, total), BITS_PER_WORD * w, i)
  {
    hide Test, Low, Meet, Invert, MembersOf;
    if inverted != 0 {
      InvertedBit(words, total, w, Ctz(inverted));
    }
    var end := if inverted == 0 then WordEnd(total, w) else BITS_PER_WORD * w + Ctz(inverted);
    forall i | BITS_PER_WORD * w <= i < end ensures i in MembersOf(words, total) {
      InvertedBit(words, total, w, i - BITS_PER_WORD * w);
      ZeroBit(i - BITS_PER_WORD * w);
    }
  }

  /** A word equals the mask of its valid bits exactly when all of them are members. */
  lemma ScanFull(words: seq<Word>, total: nat, w: nat)
    requires Shaped(words, total) && w < |words|
    ensures BITS_PER_WORD * w <= WordEnd(total, w)
    ensures words[w] == Low(WordEnd(total, w) - BITS_PER_WORD * w)
            <==> AllIn(MembersOf(words, total), BITS_PER_WORD * w, WordEnd(total, w))
  {
    hide Test, Low, MembersOf;
    var valid := WordEnd(total, w) - BITS_PER_WORD * w;
    if words[w] == Low(valid) {
      forall i | BITS_PER_WORD * w <= i < WordEnd(total, w) ensures i in MembersOf(words, total) {
        BitInWord(words, total, w, i - BITS_PER_WORD * w);
        LowBit(valid, i - BITS_PER_WORD * w);
      }
    } else if AllIn(MembersOf(words, total), BITS_PER_WORD * w, WordEnd(total, w)) {
      forall k | 0 <= k < BITS_PER_WORD ensures Test(words[w], k) == Test(Low(valid), k) {
        BitInWord(words, total, w, k);
        LowBit(valid, k);
        MembersInRange(words, total, BITS_PER_WORD * w + k);
      }
      SameBitsIsSame(words[w], Low(valid));
    }
  }

  /** The words are determined by the members: no information hides in the trailing bits. */
  lemma MembersDetermineWords(words: seq<Word>, others: seq<Word>, total: nat)
    requires Shaped(words, total) && Shaped(others, total) && |words| == |others|
    requires MembersOf(words, total) == MembersOf(others, total)
    ensures words == others
  {
    hide Test, Shaped, MembersOf;
    forall w | 0 <= w < |words| ensures words[w] == others[w] {
      forall k | 0 <= k < BITS_PER_WORD ensures Test(words[w], k) == Test(others[w], k) {
        BitInWord(words, total, w, k);
        BitInWord(others, total, w, k);
      }
      SameBitsIsSame(words[w], others[w]);
    }
  }

  lemma MembersInRange(words: seq<Word>, total: nat, i: nat)
    requires total <= BITS_PER_WORD * |words|
    ensures i in MembersOf(words, total) ==> i < total
  {}

  /** The mask of the last word: all ones when the size is a multiple of the word size. */
  function LastWordMask(totalBits: nat): Word {
    if totalBits % BITS_PER_WORD != 0 then BelowAt(At(totalBits % BITS_PER_WORD)) else ONES
  }

  lemma LastWordMaskIsLow(total: nat, wordCount: nat)
    requires 0 < total <= BITS_PER_WORD * wordCount < total + BITS_PER_WORD
    ensures LastWordMask(total) == Low(WordEnd(total, wordCount - 1) - BITS_PER_WORD * (wordCount - 1))
  {
    hide At, BelowAt;
    var last := wordCount - 1;
    assert total == BITS_PER_WORD * last + (total - BITS_PER_WORD * last);
    if total < BITS_PER_WORD * wordCount {
      Position(last, total - BITS_PER_WORD * last);
    } else {
      Position(wordCount, 0);
    }
  }

  lemma InnerWordMask(total: nat, wordCount: nat, w: nat, v: Word)
    requires total <= BITS_PER_WORD * wordCount < total + BITS_PER_WORD && w < wordCount - 1
    ensures v == Meet(v, Low(WordEnd(total, w) - BITS_PER_WORD * w))
    ensures Low(WordEnd(total, w) - BITS_PER_WORD * w) == ONES
  {
    hide Meet;
    MeetBounds(v);
  }

  /** `struct gt_bitmap`: caller-owned words, never allocated here. */
  class Bitmap {
    var words: array?<Word>
    var totalBits: nat
    var totalWords: nat

    ghost predicate Valid()
      reads this, words
    {
      && words != null
      && words.Length == totalWords
      && Shaped(words[..], totalBits)
    }

    ghost function Members(): (members: set<nat>)
      requires Valid()
      reads this, words
      ensures forall i | i in members :: i < totalBits
    {
      MembersOf(words[..], totalBits)
    }

    constructor ()
      ensures words == null && totalBits == 0 && totalWords == 0
    {
      words, totalBits, totalWords := null, 0, 0;
    }

    /** `gt_bitmap_init`: takes the storage over and clears it. */
    method Init(storage: array<Word>, bits: nat)
      requires 0 < bits && bits + BITS_PER_WORD <= SIZE_MODULUS
      requires storage.Length == TotalWords(bits)
      modifies this, storage
      ensures Valid() && words == storage && totalBits == bits
      ensures Members() == {}
    {
      TotalWordsExact(bits);
      words, totalBits, totalWords := storage, bits, TotalWords(bits);
      ClearAll();
    }

    /** `gt_bitmap_is_empty` */
    method IsEmpty() returns (empty: bool)
      requires Valid()
      ensures empty <==> Members() == {}
    {
      hide MembersOf;
      for i := 0 to totalWords
        invariant forall j | 0 <= j < BITS_PER_WORD * i :: j !in Members()
      {
        ScanSet(words[..], totalBits, i);
        if words[i] != 0 {
          return false;
        }
      }
      return true;
    }

    /** `gt_bitmap_is_full` */
    method IsFull() returns (full: bool)
      requires Valid()
      ensures full <==> forall i | 0 <= i < totalBits :: i in Members()
    {
      hide MembersOf, Low, LastWordMask;
      var fullWords := totalBits / BITS_PER_WORD;
      var hasPartialWord := totalWords > fullWords;
      for i := 0 to fullWords
        invariant forall j | 0 <= j < BITS_PER_WORD * i :: j in Members()
      {
        ScanFull(words[..], totalBits, i);
        FullWordMask(totalBits, i);
        if words[i] != ONES {
          assert !AllIn(Members(), BITS_PER_WORD * i, WordEnd(totalBits, i));
          return false;
        }
      }
      if hasPartialWord {
        LastWordMaskIsLow(totalBits, totalWords);
        ScanFull(words[..], totalBits, fullWords);
        if words[fullWords] != LastWordMask(totalBits) {
          assert !AllIn(Members(), BITS_PER_WORD * fullWords, WordEnd(totalBits, fullWords));
          return false;
        }
      }
      return true;
    }

    /** `gt_bitmap_test` */
    method IsSet(i: nat) returns (r: bool)
      requires Valid() && i < totalBits
      ensures r <==> i in Members()
    {
      hide Test;
      r := Test(words[i / BITS_PER_WORD], i % BITS_PER_WORD);
    }

    /** `gt_bitmap_set` */
    method Add(i: nat)
      requires Valid() && i < totalBits
      modifies words
      ensures Valid() && Members() == old(Members()) + {i}
    {
      hide Set, Test;
      SetWord(words[..], totalBits, i);
      ghost var before := words[..];
      words[i / BITS_PER_WORD] := Set(words[i / BITS_PER_WORD], i % BITS_PER_WORD);
      assert words[..] == before[i / BITS_PER_WORD := Set(before[i / BITS_PER_WORD], i % BITS_PER_WORD)];
    }

    /** `gt_bitmap_clear` */
    method Remove(i: nat)
      requires Valid() && i < totalBits
      modifies words
      ensures Valid() && Members() == old(Members()) - {i}
    {
      hide Clear, Test;
      ClearWord(words[..], totalBits, i);
      ghost var before := words[..];
      words[i / BITS_PER_WORD] := Clear(words[i / BITS_PER_WORD], i % BITS_PER_WORD);
      assert words[..] == before[i / BITS_PER_WORD := Clear(before[i / BITS_PER_WORD], i % BITS_PER_WORD)];
    }

    /** `gt_bitmap_set_all`: fills every word, then trims the last one. */
    method AddAll()
      requires words != null && words.Length == totalWords
      requires 0 < totalBits <= BITS_PER_WORD * totalWords < totalBits + BITS_PER_WORD
      modifies words
      ensures Valid() && forall i :: i in Members() <==> 0 <= i < totalBits
    {
      hide Test, Low, Meet;
      forall i | 0 <= i < words.Length {
        words[i] := ONES;
      }
      var last := totalWords - 1;
      words[last] := Meet(words[last], LastWordMask(totalBits));
      LastWordMaskIsLow(totalBits, totalWords);
      forall i: nat | i < BITS_PER_WORD * totalWords
        ensures BitAt(words[..], i) <==> i < totalBits
      {
        LowBit(64, i % BITS_PER_WORD);
        LowIsOnes();
        LowBit(WordEnd(totalBits, last) - BITS_PER_WORD * last, i % BITS_PER_WORD);
        MeetBit(ONES, LastWordMask(totalBits), i % BITS_PER_WORD);
      }
    }

    /** `gt_bitmap_clear_all` */
    method ClearAll()
      requires words != null && words.Length == totalWords
      requires 0 < totalBits <= BITS_PER_WORD * totalWords < totalBits + BITS_PER_WORD
      modifies words
      ensures Valid() && Members() == {}
    {
      forall i | 0 <= i < words.Length {
        words[i] := 0;
      }
      ZeroWords(words[..], totalBits);
    }

    /** `gt_bitmap_find_first_set`: the least member, or none exactly when there is none. */
    method FindFirstSet() returns (found: bool, index: nat)
      requires Valid()
      ensures found <==> Members() != {}
      ensures found ==> index in Members() && forall j | j in Members() :: index <= j
    {
      hide MembersOf, Test;
      for i := 0 to totalWords
        invariant forall j | 0 <= j < BITS_PER_WORD * i :: j !in Members()
      {
        ScanSet(words[..], totalBits, i);
        if words[i] != 0 {
          return true, BITS_PER_WORD * i + Ctz(words[i]);
        }
      }
      return false, 0;
    }

    /** `gt_bitmap_find_first_clear`: the least index that is not a member, or none exactly when all are. */
    method FindFirstClear() returns (found: bool, index: nat)
      requires Valid()
      ensures found <==> exists i :: 0 <= i < totalBits && i !in Members()
      ensures found ==> index < totalBits && index !in Members() && forall j | 0 <= j < index :: j in Members()
    {
      hide MembersOf, Test, Low, Meet, Invert, LastWordMask;
      var partialWordMask := LastWordMask(totalBits);
      LastWordMaskIsLow(totalBits, totalWords);
      for i := 0 to totalWords
        invariant forall j | 0 <= j < BITS_PER_WORD * i && j < totalBits :: j in Members()
      {
        var inverted := Invert(words[i]);
        if i == totalWords - 1 {
          inverted := Meet(inverted, partialWordMask);
        } else {
          InnerWordMask(totalBits, totalWords, i, inverted);
        }
        ScanClear(words[..], totalBits, i, inverted);
        if inverted != 0 {
          index := BITS_PER_WORD * i + Ctz(inverted);
          assert index !in Members();
          return true, index;
        }
      }
      return false, 0;
    }
  }

  lemma LowIsOnes()
    ensures Low(64) == ONES
  {}

  lemma FullWordMask(total: nat, w: nat)
    requires BITS_PER_WORD * (w + 1) <= total
    ensures WordEnd(total, w) == BITS_PER_WORD * (w + 1)
    ensures Low(WordEnd(total, w) - BITS_PER_WORD * w) == ONES
  {}
}
