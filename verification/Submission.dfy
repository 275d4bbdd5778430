/**
 What every descriptor submitter shares: descriptors, the in-flight counter of the
 embedded direct submitter, and the log of doorbells.

 The direct strategy rings one doorbell per descriptor, so the device receives the
 submitted descriptors one by one and in order. A batching strategy rings one
 doorbell per batch; it refines the direct one when the batches, laid end to end,
 and the descriptors not yet sealed give back that same sequence.
 */
module Submission {
  import Bits

  // The 64 bytes of a descriptor, read as one number; 0 is a zeroed slot.
  type Descriptor = nat

  const DEFAULT_BATCH_SIZE: nat := 32
  const DEFAULT_NUM_BATCHES: nat := 16

  // The batches of a doorbell log laid end to end.
  function Flatten<T>(batches: seq<seq<T>>): seq<T> {
    if batches == [] then []
    else Flatten(batches[..|batches| - 1]) + batches[|batches| - 1]
  }

  lemma FlattenAppend<T>(batches: seq<seq<T>>, last: seq<T>)
    ensures Flatten(batches + [last]) == Flatten(batches) + last
  {
    assert (batches + [last])[..|batches|] == batches;
  }

  // `after` has one doorbell more than `before`, of n descriptors; none if n is 0.
  ghost predicate Rang(before: seq<seq<Descriptor>>, after: seq<seq<Descriptor>>, n: nat) {
    if n == 0 then after == before
    else |after| == |before| + 1 && after[..|before|] == before && |after[|before|]| == n
  }

  // The batch size in force: the requested one (or the default), capped by the
  // work queue when that reports a limit.
  function BatchSize(requested: nat, wqMax: int): (k: nat)
    ensures k >= 1
    ensures var wanted := if requested > 0 then requested else DEFAULT_BATCH_SIZE;
            && k <= wanted && (wqMax > 0 ==> k <= wqMax)
            && (k == wanted || k == wqMax > 0)
  {
    var k := if requested > 0 then requested else DEFAULT_BATCH_SIZE;
    if wqMax > 0 && wqMax < k then wqMax else k
  }

  // `inflight_` after n doorbells completed: a saturating subtraction.
  function NotifyComplete(inflight: nat, n: nat): nat {
    if n <= inflight then inflight - n else 0
  }

  // ---------------------------------------------------------------- ring positions

  // Position p of an endless sequence, stored in a ring of n cells.
  function Index(p: nat, n: nat): (i: nat)
    requires n > 0
    ensures i < n
  {
    p % n
  }

  lemma IndexStep(p: nat, k: nat, n: nat)
    requires n > 0
    ensures Index(p, n) + k < n ==> Index(p + k, n) == Index(p, n) + k
    ensures Index(p, n) + k == n ==> Index(p + k, n) == 0
    ensures n <= Index(p, n) + k < 2 * n ==> Index(p + k, n) == Index(p, n) + k - n
  {
    var q := p / n;
    assert p == q * n + Index(p, n);
    assert (q + 1) * n == q * n + n;
    if Index(p, n) + k < n {
      Bits.ModUnique(p + k, n, q, Index(p, n) + k);
    } else if Index(p, n) + k < 2 * n {
      Bits.ModUnique(p + k, n, q + 1, Index(p, n) + k - n);
    }
  }

  // A window of n consecutive positions occupies n different cells.
  lemma IndexDistinct(a: nat, b: nat, n: nat)
    requires n > 0 && a < b < a + n
    ensures Index(a, n) != Index(b, n)
  {
    IndexStep(a, b - a, n);
  }

  lemma WindowDistinct(lo: nat, n: nat)
    requires n > 0
    ensures forall a: nat, b: nat :: lo <= a < b < lo + n ==> Index(a, n) != Index(b, n)
  {
    forall a: nat, b: nat | lo <= a < b < lo + n ensures Index(a, n) != Index(b, n) {
      IndexDistinct(a, b, n);
    }
  }

  // Some position of every window of n uses cell i.
  lemma PositionOf(lo: nat, n: nat, i: nat) returns (b: nat)
    requires i < n
    ensures lo <= b < lo + n && Index(b, n) == i
  {
    var r := Index(lo, n);
    b := if r <= i then lo + (i - r) else lo + (n - r + i);
    IndexStep(lo, b - lo, n);
  }

  // `pos & (size - 1)`
  function Masked(pos: nat, size: nat): (i: nat)
    requires Bits.IsPow2(size)
    ensures size > 0 && i == Index(pos, size)
  {
    ghost var k: nat :| Bits.Pow2(k) == size;
    Bits.AndMask(pos, k);
    Bits.And(pos, size - 1)
  }
}
