/**
 Word arithmetic of the driver: the shift-or smear behind `round_up_pow2`,
 the masks `pos & (size - 1)`, and the `(n + a - 1) & ~(a - 1)` round-up used
 for pages, descriptors and completion records.

 Words are naturals below 2^64; `And`, `Or` and `Shr` are defined bit by bit, so
 that nothing about them is taken on trust.
 */
module Bits {
  const WORD: nat := 0x1_0000_0000_0000_0000  // 2^64
  const TOP: nat := 0x8000_0000_0000_0000     // 2^63

  function Pow2(k: nat): (p: nat)
    ensures p >= 1
  {
    if k == 0 then 1 else 2 * Pow2(k - 1)
  }

  ghost predicate IsPow2(n: nat) {
    exists k: nat :: Pow2(k) == n
  }

  function Bit(n: nat, i: nat): bool {
    if i == 0 then n % 2 == 1 else Bit(n / 2, i - 1)
  }

  function And(a: nat, b: nat): nat {
    if a == 0 || b == 0 then 0
    else 2 * And(a / 2, b / 2) + (if a % 2 == 1 && b % 2 == 1 then 1 else 0)
  }

  function Or(a: nat, b: nat): nat
    decreases a + b
  {
    if a == 0 then b
    else if b == 0 then a
    else 2 * Or(a / 2, b / 2) + (if a % 2 == 1 || b % 2 == 1 then 1 else 0)
  }

  function Shr(n: nat, k: nat): nat {
    if k == 0 then n else Shr(n / 2, k - 1)
  }

  // ---------------------------------------------------------------- masks

  lemma HalveMod(x: nat, p: nat)
    requires p > 0
    ensures x % (2 * p) == 2 * ((x / 2) % p) + x % 2
  {
    var q, r := (x / 2) / p, (x / 2) % p;
    assert x / 2 == q * p + r;
    assert x == 2 * (x / 2) + x % 2 == q * (2 * p) + (2 * r + x % 2) by {
      assert 2 * (q * p) == q * (2 * p);
    }
    ModUnique(x, 2 * p, q, 2 * r + x % 2);
  }

  lemma Scaled(d: int, n: nat)
    ensures d >= 1 ==> d * n >= n
    ensures d <= -1 ==> d * n + n <= 0
  {
  }

  lemma ModUnique(x: nat, n: nat, q: nat, r: nat)
    requires n > 0 && x == q * n + r && r < n
    ensures x % n == r && x / n == q
  {
    var q', r' := x / n, x % n;
    var d := q' - q;
    assert d * n == r - r' by {
      assert x == q' * n + r';
      assert d * n == q' * n - q * n;
    }
    Scaled(d, n);
    assert d == 0;
  }

  // Two multiples of p that differ by less than p are equal.
  lemma MultiplesApart(a: nat, b: nat, p: nat)
    requires p > 0 && a % p == 0 && b % p == 0 && a <= b < a + p
    ensures a == b
  {
    var d := b / p - a / p;
    assert d * p == b - a by {
      assert a == (a / p) * p && b == (b / p) * p;
      assert d * p == (b / p) * p - (a / p) * p;
    }
    Scaled(d, p);
  }

  // The number formed by the k lowest bits.
  function Low(x: nat, k: nat): (r: nat)
    ensures r <= x
  {
    if k == 0 then 0 else 2 * Low(x / 2, k - 1) + x % 2
  }

  lemma {:induction false} LowIsMod(x: nat, k: nat)
    ensures Low(x, k) == x % Pow2(k)
  {
    if k > 0 {
      LowIsMod(x / 2, k - 1);
      HalveMod(x, Pow2(k - 1));
    }
  }

  lemma {:induction false} AndIsLow(x: nat, k: nat)
    ensures And(x, Pow2(k) - 1) == Low(x, k)
  {
    if k > 0 {
      AndIsLow(x / 2, k - 1);
      AndDouble(x / 2, x % 2, Pow2(k - 1) - 1, 1);
      assert Pow2(k) - 1 == 2 * (Pow2(k - 1) - 1) + 1;
    }
  }

  // Masking with size - 1 is reduction modulo size, for every power of two.
  lemma AndMask(x: nat, k: nat)
    ensures And(x, Pow2(k) - 1) == x % Pow2(k)
  {
    AndIsLow(x, k);
    LowIsMod(x, k);
  }

  // Peeling the lowest bit of both words.
  lemma AndDouble(h: nat, b: nat, m: nat, c: nat)
    requires b < 2 && c < 2
    ensures And(2 * h + b, 2 * m + c) == 2 * And(h, m) + b * c
  {
    var x, y := 2 * h + b, 2 * m + c;
    assert x / 2 == h && x % 2 == b && y / 2 == m && y % 2 == c;
  }

  lemma WordSize()
    ensures Pow2(63) == TOP && Pow2(64) == WORD
  {
    assert Pow2(4) == 16;
    Pow2Add(4, 4);
    assert Pow2(8) == 0x100;
    Pow2Add(8, 8);
    assert Pow2(16) == 0x1_0000;
    Pow2Add(16, 16);
    assert Pow2(32) == 0x1_0000_0000;
    Pow2Add(32, 32);
  }

  lemma {:induction false} Pow2Add(a: nat, b: nat)
    ensures Pow2(a + b) == Pow2(a) * Pow2(b)
  {
    if a > 0 { Pow2Add(a - 1, b); }
  }

  // Masking with ~(2^k - 1) in a w-bit word clears the low k bits.
  lemma {:induction false} AndHighMask(x: nat, w: nat, k: nat)
    requires k <= w && x < Pow2(w)
    ensures Pow2(k) <= Pow2(w)
    ensures And(x, Pow2(w) - Pow2(k)) == x - Low(x, k)
  {
    Pow2Monotone(k, w);
    if k == 0 {
      AndMask(x, w);
      ModUnique(x, Pow2(w), 0, x);
    } else {
      AndHighMask(x / 2, w - 1, k - 1);
      AndDouble(x / 2, x % 2, Pow2(w - 1) - Pow2(k - 1), 0);
      assert Pow2(w) - Pow2(k) == 2 * (Pow2(w - 1) - Pow2(k - 1)) + 0;
    }
  }

  // ---------------------------------------------------------------- round_up_pow2

  lemma {:induction false} BitOr(a: nat, b: nat, i: nat)
    ensures Bit(Or(a, b), i) == (Bit(a, i) || Bit(b, i))
    decreases i
  {
    ZeroBits(i);
    if a != 0 && b != 0 && i > 0 {
      BitOr(a / 2, b / 2, i - 1);
    }
  }

  lemma {:induction false} ZeroBits(i: nat)
    ensures !Bit(0, i)
  {
    if i > 0 { ZeroBits(i - 1); }
  }

  lemma {:induction false} BitShr(n: nat, k: nat, i: nat)
    ensures Bit(Shr(n, k), i) == Bit(n, i + k)
    decreases k
  {
    if k > 0 { BitShr(n / 2, k - 1, i); }
  }

  lemma {:induction false} OrBound(a: nat, b: nat, k: nat)
    requires a < Pow2(k) && b < Pow2(k)
    ensures Or(a, b) < Pow2(k)
    decreases k
  {
    if a != 0 && b != 0 { OrBound(a / 2, b / 2, k - 1); }
  }

  lemma {:induction false} ShrBound(n: nat, k: nat)
    ensures Shr(n, k) <= n
  {
    if k > 0 { ShrBound(n / 2, k - 1); }
  }

  // x has l + 1 significant bits and its top w bits are all set.
  ghost predicate Smeared(x: nat, l: nat, w: nat) {
    x < Pow2(l + 1) && forall i: nat :: l - w < i <= l ==> Bit(x, i)
  }

  lemma SmearStep(x: nat, l: nat, w: nat)
    requires Smeared(x, l, w)
    ensures Smeared(Or(x, Shr(x, w)), l, 2 * w)
  {
    var y := Or(x, Shr(x, w));
    ShrBound(x, w);
    OrBound(x, Shr(x, w), l + 1);
    forall i: nat | l - 2 * w < i <= l ensures Bit(y, i) {
      BitOr(x, Shr(x, w), i);
      BitShr(x, w, i);
    }
  }

  lemma {:induction false} AllOnes(x: nat, k: nat)
    requires x < Pow2(k) && forall i: nat :: i < k ==> Bit(x, i)
    ensures x == Pow2(k) - 1
  {
    if k > 0 {
      assert Bit(x, 0);
      forall i: nat | i < k - 1 ensures Bit(x / 2, i) { assert Bit(x, i + 1); }
      AllOnes(x / 2, k - 1);
    }
  }

  lemma {:induction false} TopBit(x: nat) returns (l: nat)
    requires x > 0
    ensures Pow2(l) <= x < Pow2(l + 1) && Bit(x, l)
  {
    if x == 1 {
      l := 0;
    } else {
      var l' := TopBit(x / 2);
      l := l' + 1;
    }
  }

  lemma {:induction false} Pow2Monotone(a: nat, b: nat)
    requires a <= b
    ensures Pow2(a) <= Pow2(b)
    ensures a < b ==> Pow2(a) < Pow2(b)
  {
    if a < b { Pow2Monotone(a, b - 1); }
  }

  // Powers of two do not collide between 2^l and 2^(l+1).
  lemma NoPowerBetween(k: nat, l: nat)
    ensures !(Pow2(l) < Pow2(k) < Pow2(l + 1))
  {
    if k <= l { Pow2Monotone(k, l); } else { Pow2Monotone(l + 1, k); }
  }

  function SmearOnce(n: nat, k: nat): nat {
    Or(n, Shr(n, k))
  }

  lemma Smear(n: nat) returns (l: nat)
    requires 0 < n < WORD
    ensures Pow2(l) <= n < Pow2(l + 1)
    ensures SmearOnce(SmearOnce(SmearOnce(SmearOnce(SmearOnce(SmearOnce(n, 1), 2), 4), 8), 16), 32) == Pow2(l + 1) - 1
  {
    l := TopBit(n);
    assert l < 64 by {
      WordSize();
      if l >= 64 { Pow2Monotone(64, l); }
    }
    var n1 := SmearOnce(n, 1);
    var n2 := SmearOnce(n1, 2);
    var n3 := SmearOnce(n2, 4);
    var n4 := SmearOnce(n3, 8);
    var n5 := SmearOnce(n4, 16);
    var n6 := SmearOnce(n5, 32);
    assert Smeared(n6, l, 64) by {
      SmearStep(n, l, 1);
      SmearStep(n1, l, 2);
      SmearStep(n2, l, 4);
      SmearStep(n3, l, 8);
      SmearStep(n4, l, 16);
      SmearStep(n5, l, 32);
    }
    AllOnes(n6, l + 1);
  }

  // r is the least power of two that is at least n.
  ghost predicate IsCeilPow2(n: nat, r: nat) {
    IsPow2(r) && n <= r && forall k: nat :: Pow2(k) >= n ==> r <= Pow2(k)
  }

  /** The smear on 64-bit words. It is the least power of two at or above n up to
      2^63; above that the final increment wraps the word and the result is 0. */
  method RoundUpPow2(size: nat) returns (r: nat)
    requires size < WORD
    ensures size <= TOP ==> IsCeilPow2(size, r)
    ensures size > TOP ==> r == 0
  {
    if size <= 1 {
      assert Pow2(0) == 1;
      return 1;
    }
    ghost var l := Smear(size - 1);
    var n := SmearOnce(size - 1, 1);
    n := SmearOnce(n, 2);
    n := SmearOnce(n, 4);
    n := SmearOnce(n, 8);
    n := SmearOnce(n, 16);
    n := SmearOnce(n, 32);
    r := if n + 1 == WORD then 0 else n + 1;
    CeilOrWrap(size, l);
  }

  lemma CeilOrWrap(size: nat, l: nat)
    requires 2 <= size < WORD
    requires Pow2(l) <= size - 1 < Pow2(l + 1)
    ensures size <= TOP ==> Pow2(l + 1) < WORD && IsCeilPow2(size, Pow2(l + 1))
    ensures size > TOP ==> Pow2(l + 1) == WORD
  {
    WordSize();
    if size <= TOP {
      if l >= 63 { Pow2Monotone(63, l); }
      Pow2Monotone(l + 1, 64);
      forall k: nat | Pow2(k) >= size ensures Pow2(l + 1) <= Pow2(k) { NoPowerBetween(k, l); }
    } else {
      if l + 1 < 64 { Pow2Monotone(l + 1, 63); }
      if l + 1 > 64 { Pow2Monotone(64, l); }
    }
  }

  // ---------------------------------------------------------------- alignment

  /** `(n + a - 1) & ~(a - 1)` on 64-bit words, for a = 2^k. */
  function AlignUp(n: nat, k: nat): (r: nat)
    requires k < 64 && n + Pow2(k) - 1 < WORD
    ensures n <= r < n + Pow2(k) && r % Pow2(k) == 0
  {
    AlignSpec(n, k);
    And(n + Pow2(k) - 1, WORD - Pow2(k))
  }

  lemma AlignSpec(n: nat, k: nat)
    requires k < 64 && n + Pow2(k) - 1 < WORD
    ensures Pow2(k) <= WORD
    ensures var r := And(n + Pow2(k) - 1, WORD - Pow2(k)); n <= r < n + Pow2(k) && r % Pow2(k) == 0
  {
    WordSize();
    var x := n + Pow2(k) - 1;
    AndHighMask(x, 64, k);
    LowIsMod(x, k);
    SubtractRemainder(x, Pow2(k));
  }

  lemma SubtractRemainder(x: nat, p: nat)
    requires p > 0
    ensures (x - x % p) % p == 0 && x % p < p
  {
    assert x - x % p == (x / p) * p + 0;
    ModUnique(x - x % p, p, x / p, 0);
  }

  // The aligned record of `size` = 2^k bytes lies inside a buffer of 2 * size - 1
  // bytes wherever the buffer was placed.
  lemma AlignedRecordFits(buffer: nat, k: nat)
    requires k < 64 && buffer + Pow2(k) - 1 < WORD
    ensures buffer <= AlignUp(buffer, k)
    ensures AlignUp(buffer, k) + Pow2(k) <= buffer + 2 * Pow2(k) - 1
    ensures buffer % Pow2(k) == 0 ==> AlignUp(buffer, k) == buffer
  {
    if buffer % Pow2(k) == 0 { MultiplesApart(buffer, AlignUp(buffer, k), Pow2(k)); }
  }

  // The two buffers of an operation: 127 bytes for a 64-byte descriptor, 63 for a
  // 32-byte completion record.
  lemma OperationRecordsFit(descBuffer: nat, compBuffer: nat)
    requires descBuffer + 63 < WORD && compBuffer + 31 < WORD
    ensures Pow2(6) == 64 && Pow2(5) == 32
    ensures descBuffer <= AlignUp(descBuffer, 6) && AlignUp(descBuffer, 6) + 64 <= descBuffer + (64 + 63)
    ensures AlignUp(descBuffer, 6) % 64 == 0
    ensures compBuffer <= AlignUp(compBuffer, 5) && AlignUp(compBuffer, 5) + 32 <= compBuffer + (32 + 31)
    ensures AlignUp(compBuffer, 5) % 32 == 0
  {
    assert Pow2(3) == 8;
    assert Pow2(6) == 64 && Pow2(5) == 32;
    AlignedRecordFits(descBuffer, 6);
    AlignedRecordFits(compBuffer, 5);
  }
}
