/** The identifier pool: the lowest free identifier is handed out, released ones come back. */
module IdPools {
  import opened Words
  import opened Bitmaps
  import opened Pages

  // The least identifier that is not held

  /** A set that holds 0, ..., n-1 has at least n elements. */
  lemma {:induction false} SegmentFits(held: set<nat>, n: nat)
    requires forall j | 0 <= j < n :: j in held
    ensures n <= |held|
  {
    if n != 0 {
      SegmentFits(held - {n - 1}, n - 1);
    }
  }

  ghost predicate IsLeastFree(held: set<nat>, id: nat) {
    id !in held && forall j | 0 <= j < id :: j in held
  }

  ghost function LeastFree(held: set<nat>): (id: nat)
    ensures IsLeastFree(held, id)
    ensures id <= |held|
  {
    LeastFreeFrom(held, 0)
  }

  ghost function LeastFreeFrom(held: set<nat>, from: nat): (id: nat)
    requires forall j | 0 <= j < from :: j in held
    ensures IsLeastFree(held, id)
    ensures id <= |held|
    decreases if from <= |held| then |held| - from + 1 else 0
  {
    SegmentFits(held, from);
    if from in held then
      (SegmentFits(held, from + 1); LeastFreeFrom(held, from + 1))
    else
      from
  }

  lemma LeastFreeIsUnique(held: set<nat>, id: nat)
    requires IsLeastFree(held, id)
    ensures id == LeastFree(held)
  {
    var least := LeastFree(held);
    assert !(id < least) && !(least < id);
  }

  /** `struct gt_id_pool`: bit set means allocated. */
  class IdPool {
    const bits: Bitmap

    ghost predicate Valid()
      reads bits, bits.words
    {
      bits.Valid()
    }

    ghost function Held(): (held: set<nat>)
      requires Valid()
      reads bits, bits.words
      ensures forall i | i in held :: i < bits.totalBits
    {
      bits.Members()
    }

    constructor ()
      ensures fresh(bits) && bits.words == null && bits.totalBits == 0 && bits.totalWords == 0
    {
      bits := new Bitmap();
    }

    /** `gt_id_pool_init` */
    method Init(storage: array<Word>, total: nat)
      requires 0 < total && total + BITS_PER_WORD <= SIZE_MODULUS
      requires storage.Length == TotalWords(total)
      modifies bits, storage
      ensures Valid() && bits.words == storage && bits.totalBits == total
      ensures Held() == {}
    {
      bits.Init(storage, total);
    }

    /** `gt_id_pool_allocate`: fails exactly when every identifier is held. */
    method Allocate() returns (ok: bool, id: nat)
      requires Valid()
      modifies bits.words
      ensures Valid()
      ensures ok <==> LeastFree(old(Held())) < bits.totalBits
      ensures ok ==> id == LeastFree(old(Held())) && Held() == old(Held()) + {id}
      ensures !ok ==> Held() == old(Held()) && bits.words[..] == old(bits.words[..])
    {
      ok, id := bits.FindFirstClear();
      if !ok {
        assert LeastFree(Held()) !in Held();
        return false, 0;
      }
      LeastFreeIsUnique(Held(), id);
      bits.Add(id);
    }

    /** `gt_id_pool_release`: releasing an identifier that is not held is a programming error. */
    method Release(id: nat)
      requires Valid() && id in Held()
      modifies bits.words
      ensures Valid() && Held() == old(Held()) - {id}
    {
      bits.Remove(id);
    }

    method IsAllocated(id: nat) returns (r: bool)
      requires Valid() && id < bits.totalBits
      ensures r <==> id in Held()
    {
      r := bits.IsSet(id);
    }

    method IsEmpty() returns (r: bool)
      requires Valid()
      ensures r <==> Held() == {}
    {
      r := bits.IsEmpty();
    }

    method IsFull() returns (r: bool)
      requires Valid()
      ensures r <==> LeastFree(Held()) == bits.totalBits
    {
      r := bits.IsFull();
      if r {
        LeastFreeIsUnique(Held(), bits.totalBits);
      }
    }
  }

  // Histories of a pool

  datatype Use = Take | Give(id: nat)

  /** A pool after some history: what is held, what was handed out in order, and the most ever held at once. */
  datatype History = History(held: set<nat>, handed: seq<nat>, peak: nat)

  const EMPTY_HISTORY := History({}, [], 0)

  ghost function After(capacity: nat, h: History, use: Use): History {
    match use
    case Take =>
      var id := LeastFree(h.held);
      if id < capacity then
        var held := h.held + {id};
        History(held, h.handed + [id], if |held| > h.peak then |held| else h.peak)
      else h
    case Give(id) => h.(held := h.held - {id})
  }

  ghost function AfterAll(capacity: nat, uses: seq<Use>): History {
    if uses == [] then EMPTY_HISTORY
    else After(capacity, AfterAll(capacity, uses[..|uses| - 1]), uses[|uses| - 1])
  }

  /** Identifiers stay dense: over any history, every one handed out is below the most ever held at once. */
  lemma {:induction false} HandedBelowPeak(capacity: nat, uses: seq<Use>)
    ensures var h := AfterAll(capacity, uses);
            && |h.held| <= h.peak <= capacity
            && (forall i | i in h.held :: i < capacity)
            && forall i | i in h.handed :: i < h.peak
  {
    if uses != [] {
      HandedBelowPeak(capacity, uses[..|uses| - 1]);
      var before := AfterAll(capacity, uses[..|uses| - 1]);
      var h := AfterAll(capacity, uses);
      if uses[|uses| - 1].Take? && LeastFree(before.held) < capacity {
        var id := LeastFree(before.held);
        assert |h.held| == |before.held| + 1;
        BelowFits(h.held, capacity);
      } 
    }
  }

  /** A set of numbers below n has at most n elements. */
  lemma {:induction false} BelowFits(held: set<nat>, n: nat)
    requires forall i | i in held :: i < n
    ensures |held| <= n
  {
    if n == 0 {
      assert held == {};
    } else {
      BelowFits(held - {n - 1}, n - 1);
    }
  }

  function Takes(k: nat): (uses: seq<Use>)
    ensures |uses| == k
  {
    if k == 0 then [] else Takes(k - 1) + [Take]
  }

  function UpTo(k: nat): (ids: seq<nat>)
    ensures |ids| == k && forall i | 0 <= i < k :: ids[i] == i
  {
    if k == 0 then [] else UpTo(k - 1) + [k - 1]
  }

  /** With no release in between, k allocations from an empty pool yield 0, ..., k-1 in order. */
  lemma {:induction false} FreshPoolCounts(capacity: nat, k: nat)
    requires k <= capacity
    ensures var h := AfterAll(capacity, Takes(k));
            h.handed == UpTo(k) && forall i :: i in h.held <==> 0 <= i < k
  {
    if k != 0 {
      hide LeastFree;
      var before := AfterAll(capacity, Takes(k - 1));
      FreshPoolCounts(capacity, k - 1);
      assert Takes(k)[..k - 1] == Takes(k - 1) && Takes(k)[k - 1] == Take;
      LeastFreeIsUnique(before.held, k - 1);
      assert AfterAll(capacity, Takes(k)) == After(capacity, before, Take);
    }
  }
}
