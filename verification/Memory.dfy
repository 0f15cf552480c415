/** Memory as the processor sees it: a byte at every 64-bit address, read and written eight bytes at a time. */
module Memories {
  import opened Pages

  type Word = w: nat | w < SIZE_MODULUS

  type Byte = b: nat | b < 256

  type Memory = Word -> Byte

  /** The address `k` bytes above or below `a`, in 64-bit arithmetic. */
  function Up(a: Word, k: nat): Word
    requires k < SIZE_MODULUS
  {
    if a + k < SIZE_MODULUS then a + k else a + k - SIZE_MODULUS
  }

  function Down(a: Word, k: nat): Word
    requires k < SIZE_MODULUS
  {
    if a >= k then a - k else a + SIZE_MODULUS - k
  }

  /** How far up `b` is from `a`. */
  function Above(a: Word, b: Word): (k: nat)
    ensures k < SIZE_MODULUS && Up(a, k) == b
  {
    if b >= a then b - a else b + SIZE_MODULUS - a
  }

  lemma AboveUp(a: Word, k: nat)
    requires k < SIZE_MODULUS
    ensures Above(a, Up(a, k)) == k
  {}

  lemma UpUp(a: Word, k: nat, j: nat)
    requires k + j < SIZE_MODULUS
    ensures Up(Up(a, k), j) == Up(a, k + j)
  {}

  // Numbers and their bytes, the lowest first

  function Power(n: nat): (p: nat)
    ensures p > 0
  {
    if n == 0 then 1 else 256 * Power(n - 1)
  }

  lemma PowerOfEight()
    ensures Power(8) == SIZE_MODULUS
  {
    assert Power(2) == 0x1_0000;
    assert Power(4) == 0x1_0000_0000;
    assert Power(6) == 0x1_0000_0000_0000;
  }

  /** What is left of a number after its `i` lowest bytes. */
  function Rest(w: nat, i: nat): nat {
    if i == 0 then w else Rest(w, i - 1) / 256
  }

  function Digit(w: nat, i: nat): Byte {
    Rest(w, i) % 256
  }

  lemma {:induction false} RestShrinks(w: nat, n: nat, i: nat)
    requires w < Power(n) && i <= n
    ensures Rest(w, i) < Power(n - i)
  {
    if i != 0 {
      RestShrinks(w, n, i - 1);
      assert Power(n - i + 1) == 256 * Power(n - i);
    }
  }

  /** The number in the `n` bytes from `a` on. */
  function Number(m: Memory, a: Word, n: nat): (r: nat)
    ensures r < Power(n)
    decreases n
  {
    if n == 0 then 0 else m(a) + 256 * Number(m, Up(a, 1), n - 1)
  }

  function Read(m: Memory, a: Word): Word {
    PowerOfEight();
    Number(m, a, 8)
  }

  function Write(m: Memory, a: Word, w: Word): Memory {
    b => if Above(a, b) < 8 then Digit(w, Above(a, b)) else m(b)
  }

  // Reading after writing

  lemma {:induction false} NumberWritten(m: Memory, a: Word, w: Word, i: nat)
    requires i <= 8
    ensures Number(Write(m, a, w), Up(a, i), 8 - i) == Rest(w, i)
    decreases 8 - i
  {
    hide Up, Above, Power, Rest;
    if i == 8 {
      PowerOfEight();
      RestShrinks(w, 8, 8);
      assert Power(0) == 1 by { PowerOfNone(); }
    } else {
      NumberWritten(m, a, w, i + 1);
      AboveUp(a, i);
      UpUp(a, i, 1);
      RestNext(w, i);
      assert Write(m, a, w)(Up(a, i)) == Digit(w, i);
    }
  }

  lemma PowerOfNone()
    ensures Power(0) == 1
  {}

  lemma RestNext(w: nat, i: nat)
    ensures Rest(w, i) == Rest(w, i) % 256 + 256 * Rest(w, i + 1)
  {}

  lemma ReadWritten(m: Memory, a: Word, w: Word)
    ensures Read(Write(m, a, w), a) == w
  {
    hide Number, Power, Write;
    NumberWritten(m, a, w, 0);
  }

  /** The two memories hold the same bytes at the `n` addresses from `a` on. */
  ghost predicate Agree(m: Memory, o: Memory, a: Word, n: nat) {
    forall b: Word | Above(a, b) < n :: m(b) == o(b)
  }

  lemma {:induction false} NumberSame(m: Memory, o: Memory, a: Word, i: nat, n: nat)
    requires i <= n < SIZE_MODULUS && Agree(m, o, a, n)
    ensures Number(m, Up(a, i), n - i) == Number(o, Up(a, i), n - i)
    decreases n - i
  {
    hide Up, Above;
    if i != n {
      NumberSame(m, o, a, i + 1, n);
      AboveUp(a, i);
      UpUp(a, i, 1);
    }
  }

  lemma ReadSame(m: Memory, o: Memory, a: Word)
    requires Agree(m, o, a, 8)
    ensures Read(m, a) == Read(o, a)
  {
    hide Agree, Number, Power;
    NumberSame(m, o, a, 0, 8);
  }

  /** No address is both one of the `n` from `a` on and one of the `k` from `b` on. */
  ghost predicate Apart(a: Word, n: nat, b: Word, k: nat) {
    forall x: Word :: !(Above(a, x) < n && Above(b, x) < k)
  }

  /** A write leaves alone what does not overlap it. */
  lemma ReadPast(m: Memory, a: Word, w: Word, b: Word)
    requires Apart(a, 8, b, 8)
    ensures Read(Write(m, a, w), b) == Read(m, b)
  {
    ReadSame(Write(m, a, w), m, b);
  }

  // Consecutive words

  /** The words of `ws`, one after the other from `a` on, written in this order. */
  function WriteAll(m: Memory, a: Word, ws: seq<Word>): Memory
    requires 8 * |ws| < SIZE_MODULUS
  {
    if ws == [] then m
    else Write(WriteAll(m, a, ws[..|ws| - 1]), Up(a, 8 * (|ws| - 1)), ws[|ws| - 1])
  }

  lemma SlotsApart(a: Word, i: nat, j: nat)
    requires 8 * i + 8 < SIZE_MODULUS && 8 * j + 8 < SIZE_MODULUS && i != j
    ensures Apart(Up(a, 8 * i), 8, Up(a, 8 * j), 8)
  {
    forall x: Word ensures !(Above(Up(a, 8 * i), x) < 8 && Above(Up(a, 8 * j), x) < 8) {
      SlotBytes(a, 8 * i, x);
      SlotBytes(a, 8 * j, x);
    }
  }

  lemma SlotBytes(a: Word, k: nat, x: Word)
    requires k + 8 < SIZE_MODULUS
    ensures Above(Up(a, k), x) < 8 <==> k <= Above(a, x) < k + 8
  {}

  /** Every word can be read back, and no byte outside is written. */
  lemma {:induction false} ReadAll(m: Memory, a: Word, ws: seq<Word>)
    requires 8 * |ws| + 8 < SIZE_MODULUS
    ensures forall i | 0 <= i < |ws| :: Read(WriteAll(m, a, ws), Up(a, 8 * i)) == ws[i]
    ensures forall b: Word | Above(a, b) >= 8 * |ws| :: WriteAll(m, a, ws)(b) == m(b)
  {
    hide Up, Above, Read, Apart;
    if ws != [] {
      var n := |ws| - 1;
      var before := WriteAll(m, a, ws[..n]);
      ReadAll(m, a, ws[..n]);
      forall i | 0 <= i <= n ensures Read(WriteAll(m, a, ws), Up(a, 8 * i)) == ws[i] {
        if i < n {
          SlotsApart(a, n, i);
          ReadPast(before, Up(a, 8 * n), ws[n], Up(a, 8 * i));
        } else {
          ReadWritten(before, Up(a, 8 * n), ws[n]);
        }
      }
      forall b: Word | Above(a, b) >= 8 * |ws| ensures WriteAll(m, a, ws)(b) == m(b) {
        SlotBytes(a, 8 * n, b);
      }
    }
  }
}
