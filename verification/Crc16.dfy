/**
 The T10 DIF guard checksum. `Crc16T10Dif` keeps the byte-wise loops of the source on 16-bit
 words; it is proved to be a bit-serial shift register, and that register to compute the
 remainder of a polynomial division over the field of two elements, by the generator 0x18BB7.
 */
module Crc16 {
  // Bit strings, first bit first; as polynomials, highest coefficient first.
  function Xor(a: seq<bool>, b: seq<bool>): (r: seq<bool>)
    requires |a| == |b|
    ensures |r| == |a|
  {
    seq(|a|, i requires 0 <= i < |a| => a[i] != b[i])
  }

  function Zeros(n: nat): (r: seq<bool>)
    ensures |r| == n
  {
    seq(n, i => false)
  }

  // ---------------------------------------------------------------- words as bit strings

  // The mask of bit i, counted from the most significant.
  function Mask(i: nat): bv16 {
    if i == 0 then 0x8000 else Mask(i - 1) >> 1
  }

  function Bits16(x: bv16): (r: seq<bool>)
    ensures |r| == 16
  {
    seq(16, i requires 0 <= i < 16 => x & Mask(i) != 0)
  }

  function Bits8(b: bv8): (r: seq<bool>)
    ensures |r| == 8
  {
    Bits16((b as bv16) << 8)[..8]
  }

  lemma MaskValues()
    ensures Mask(0) == 0x8000
    ensures Mask(1) == 0x4000
    ensures Mask(2) == 0x2000
    ensures Mask(3) == 0x1000
    ensures Mask(4) == 0x0800
    ensures Mask(5) == 0x0400
    ensures Mask(6) == 0x0200
    ensures Mask(7) == 0x0100
    ensures Mask(8) == 0x0080
    ensures Mask(9) == 0x0040
    ensures Mask(10) == 0x0020
    ensures Mask(11) == 0x0010
    ensures Mask(12) == 0x0008
    ensures Mask(13) == 0x0004
    ensures Mask(14) == 0x0002
    ensures Mask(15) == 0x0001
  {
  }

  lemma Masks(i: nat)
    requires i < 16
    ensures Mask(i) & (Mask(i) - 1) == 0
    ensures i < 15 ==> Mask(i) & 1 == 0
    ensures if i < 8 then Mask(i) & 0xFF == 0 else Mask(i) < 0x100 && Mask(i - 8) == Mask(i) << 8
  {
    MaskValues();
  }

  lemma MaskXor(x: bv16, y: bv16, m: bv16)
    requires m & (m - 1) == 0
    ensures (x ^ y) & m != 0 <==> ((x & m != 0) != (y & m != 0))
  {
  }

  lemma XorBits(x: bv16, y: bv16)
    ensures Bits16(x ^ y) == Xor(Bits16(x), Bits16(y))
  {
    forall i | 0 <= i < 16 ensures Bits16(x ^ y)[i] == Xor(Bits16(x), Bits16(y))[i] {
      Masks(i);
      MaskXor(x, y, Mask(i));
    }
  }

  lemma MaskShift(x: bv16, m: bv16)
    requires m & 1 == 0
    ensures (x << 1) & m != 0 <==> x & (m >> 1) != 0
  {
  }

  lemma ShiftBit(x: bv16, i: nat)
    requires i < 15
    ensures Bits16(x << 1)[i] == Bits16(x)[i + 1]
  {
    Masks(i);
    MaskShift(x, Mask(i));
  }

  lemma LastBit(x: bv16)
    ensures !Bits16(x << 1)[15]
  {
    MaskValues();
    assert (x << 1) & 1 == 0;
  }

  lemma ShiftBits(x: bv16)
    ensures Bits16(x << 1) == Bits16(x)[1..] + [false]
  {
    forall i | 0 <= i < 15 ensures Bits16(x << 1)[i] == Bits16(x)[1..][i] { ShiftBit(x, i); }
    LastBit(x);
  }

  lemma ZeroWord(x: bv16)
    requires x & 0x8000 == 0
    requires x & 0x4000 == 0
    requires x & 0x2000 == 0
    requires x & 0x1000 == 0
    requires x & 0x0800 == 0
    requires x & 0x0400 == 0
    requires x & 0x0200 == 0
    requires x & 0x0100 == 0
    requires x & 0x0080 == 0
    requires x & 0x0040 == 0
    requires x & 0x0020 == 0
    requires x & 0x0010 == 0
    requires x & 0x0008 == 0
    requires x & 0x0004 == 0
    requires x & 0x0002 == 0
    requires x & 0x0001 == 0
    ensures x == 0
  {
  }

  lemma ClearBits(x: bv16)
    requires forall i :: 0 <= i < 16 ==> !Bits16(x)[i]
    ensures x == 0
  {
    MaskValues();
    assert !Bits16(x)[0];
    assert !Bits16(x)[1];
    assert !Bits16(x)[2];
    assert !Bits16(x)[3];
    assert !Bits16(x)[4];
    assert !Bits16(x)[5];
    assert !Bits16(x)[6];
    assert !Bits16(x)[7];
    assert !Bits16(x)[8];
    assert !Bits16(x)[9];
    assert !Bits16(x)[10];
    assert !Bits16(x)[11];
    assert !Bits16(x)[12];
    assert !Bits16(x)[13];
    assert !Bits16(x)[14];
    assert !Bits16(x)[15];
    ZeroWord(x);
  }

  // Different words have different bits.
  lemma BitsDetermine(x: bv16, y: bv16)
    requires Bits16(x) == Bits16(y)
    ensures x == y
  {
    XorBits(x, y);
    ClearBits(x ^ y);
    assert x ^ y == 0 ==> x == y;
  }

  lemma LowMask(b: bv8, m: bv16)
    requires m < 0x100
    ensures ((b as bv16) << 8) & m == 0
  {
  }

  // A byte in the upper half of a word.
  lemma UpperByte(b: bv8)
    ensures Bits16((b as bv16) << 8) == Bits8(b) + Zeros(8)
  {
    var w := (b as bv16) << 8;
    forall i | 8 <= i < 16 ensures !Bits16(w)[i] {
      Masks(i);
      LowMask(b, Mask(i));
    }
  }

  function BigEndian(hi: bv8, lo: bv8): bv16 { ((hi as bv16) << 8) | (lo as bv16) }

  lemma HighMask(hi: bv8, lo: bv8, m: bv16)
    requires m & 0xFF == 0
    ensures BigEndian(hi, lo) & m != 0 <==> ((hi as bv16) << 8) & m != 0
  {
  }

  lemma LowHalf(hi: bv8, lo: bv8, m: bv16)
    requires m < 0x100
    ensures BigEndian(hi, lo) & m != 0 <==> ((lo as bv16) << 8) & (m << 8) != 0
  {
  }

  lemma HighBit(hi: bv8, lo: bv8, i: nat)
    requires i < 8
    ensures Bits16(BigEndian(hi, lo))[i] == Bits8(hi)[i]
  {
    Masks(i);
    HighMask(hi, lo, Mask(i));
  }

  lemma LowBit(hi: bv8, lo: bv8, i: nat)
    requires 8 <= i < 16
    ensures Bits16(BigEndian(hi, lo))[i] == Bits8(lo)[i - 8]
  {
    Masks(i);
    LowHalf(hi, lo, Mask(i));
  }

  lemma TwoBytes(hi: bv8, lo: bv8)
    ensures Bits16(BigEndian(hi, lo)) == Bits8(hi) + Bits8(lo)
  {
    var w := BigEndian(hi, lo);
    forall i | 0 <= i < 16 ensures Bits16(w)[i] == (Bits8(hi) + Bits8(lo))[i] {
      if i < 8 { HighBit(hi, lo, i); } else { LowBit(hi, lo, i); }
    }
  }

  // ---------------------------------------------------------------- the register

  // The generator without its leading coefficient.
  function Low(): (r: seq<bool>)
    ensures |r| == 16
  {
    Bits16(0x8BB7)
  }

  // Shift, then take away the generator if the given coefficient came out at the top.
  function Reduce(r: seq<bool>, top: bool): (s: seq<bool>)
    requires |r| == 16
    ensures |s| == 16
  {
    Xor(r[1..] + [false], if top then Low() else Zeros(16))
  }

  // One message bit into the register, and a whole message.
  function Serial(r: seq<bool>, bit: bool): (s: seq<bool>)
    requires |r| == 16
    ensures |s| == 16
  {
    Reduce(r, r[0] != bit)
  }

  function Feed(r: seq<bool>, bits: seq<bool>): (s: seq<bool>)
    requires |r| == 16
    ensures |s| == 16
    decreases |bits|
  {
    if bits == [] then r else Feed(Serial(r, bits[0]), bits[1..])
  }

  function MessageBits(data: seq<bv8>): seq<bool> {
    if data == [] then [] else MessageBits(data[..|data| - 1]) + Bits8(data[|data| - 1])
  }

  function Guard(data: seq<bv8>): (s: seq<bool>)
    ensures |s| == 16
  {
    Feed(Zeros(16), MessageBits(data))
  }

  lemma {:induction false} FeedAppend(r: seq<bool>, a: seq<bool>, b: seq<bool>)
    requires |r| == 16
    ensures Feed(r, a + b) == Feed(Feed(r, a), b)
    decreases |a|
  {
    if a == [] {
      assert a + b == b;
    } else {
      assert (a + b)[1..] == a[1..] + b;
      FeedAppend(Serial(r, a[0]), a[1..], b);
    }
  }

  function Steps(r: seq<bool>, k: nat): (s: seq<bool>)
    requires |r| == 16
    ensures |s| == 16
    decreases k
  {
    if k == 0 then r else Steps(Reduce(r, r[0]), k - 1)
  }

  function Shifted(w: seq<bool>): seq<bool>
    requires |w| == 16
  {
    w[1..] + [false]
  }

  lemma OneAhead(r: seq<bool>, w: seq<bool>)
    requires |r| == |w| == 16
    ensures Reduce(Xor(r, w), Xor(r, w)[0]) == Xor(Serial(r, w[0]), Shifted(w))
  {
  }

  // Bits exclusive-ored in ahead of time, as the source does for a whole byte, have the
  // same effect as bits fed one by one.
  lemma {:induction false} AheadOfTime(r: seq<bool>, w: seq<bool>, k: nat)
    requires |r| == |w| == 16 && k <= 16
    ensures Steps(Xor(r, w), k) == Xor(Feed(r, w[..k]), w[k..] + Zeros(k))
    decreases k
  {
    if k == 0 {
      assert w[0..] + Zeros(0) == w;
    } else {
      OneAhead(r, w);
      AheadOfTime(Serial(r, w[0]), Shifted(w), k - 1);
      assert Shifted(w)[..k - 1] == w[..k][1..];
      assert Shifted(w)[k - 1..] + Zeros(k - 1) == w[k..] + Zeros(k);
    }
  }

  // ---------------------------------------------------------------- the source's loops

  lemma TopBit(crc: bv16)
    ensures Bits16(crc)[0] <==> crc & 0x8000 != 0
  {
  }

  lemma CarryOut(crc: bv16)
    requires Bits16(crc)[0]
    ensures Bits16((crc << 1) ^ 0x8BB7) == Reduce(Bits16(crc), true)
  {
    ShiftBits(crc);
    XorBits(crc << 1, 0x8BB7);
  }

  lemma NoCarry(crc: bv16)
    requires !Bits16(crc)[0]
    ensures Bits16(crc << 1) == Reduce(Bits16(crc), false)
  {
    ShiftBits(crc);
    assert Xor(Bits16(crc << 1), Zeros(16)) == Bits16(crc << 1);
  }

  // A byte in the upper half of the register, then eight steps.
  lemma UpperFed(r: seq<bool>, w: seq<bool>, bits: seq<bool>)
    requires |r| == 16 && |bits| == 8 && w == bits + Zeros(8)
    ensures Steps(Xor(r, w), 8) == Feed(r, bits)
  {
    AheadOfTime(r, w, 8);
    assert w[..8] == bits && w[8..] + Zeros(8) == Zeros(16);
    assert Xor(Feed(r, bits), Zeros(16)) == Feed(r, bits);
  }

  lemma GuardOfNext(data: seq<bv8>, i: nat)
    requires i < |data|
    ensures Guard(data[..i + 1]) == Feed(Guard(data[..i]), Bits8(data[i]))
  {
    assert data[..i + 1][..i] == data[..i];
    FeedAppend(Zeros(16), MessageBits(data[..i]), Bits8(data[i]));
  }

  method FoldByte(before: bv16, b: bv8) returns (crc: bv16)
    ensures Bits16(crc) == Feed(Bits16(before), Bits8(b))
  {
    crc := before ^ ((b as bv16) << 8);
    XorBits(before, (b as bv16) << 8);
    ghost var start := Bits16(crc);
    for k := 0 to 8
      invariant Steps(Bits16(crc), 8 - k) == Steps(start, 8)
    {
      TopBit(crc);
      if crc & 0x8000 != 0 {
        CarryOut(crc);
        crc := (crc << 1) ^ 0x8BB7;
      } else {
        NoCarry(crc);
        crc := crc << 1;
      }
    }
    UpperByte(b);
    UpperFed(Bits16(before), Bits16((b as bv16) << 8), Bits8(b));
  }

  /** The checksum of the source is the register after the message's bits. */
  method Crc16T10Dif(data: seq<bv8>) returns (crc: bv16)
    ensures Bits16(crc) == Guard(data)
  {
    crc := 0;
    assert Bits16(0) == Zeros(16);
    for i := 0 to |data|
      invariant Bits16(crc) == Guard(data[..i])
    {
      crc := FoldByte(crc, data[i]);
      GuardOfNext(data, i);
    }
    assert data[..|data|] == data;
  }

  /** The guard is reported in the top 16 bits of a 64-bit field. */
  method Crc64T10DifField(data: seq<bv8>) returns (field: bv64)
    ensures exists crc: bv16 :: Bits16(crc) == Guard(data) && field == (crc as bv64) * 0x1_0000_0000_0000
  {
    var crc := Crc16T10Dif(data);
    field := (crc as bv64) << 48;
  }

  // ---------------------------------------------------------------- polynomials

  // 0x18BB7: x^16 + x^15 + x^11 + x^9 + x^8 + x^7 + x^5 + x^4 + x^2 + x + 1.
  function Generator(): (g: seq<bool>)
    ensures |g| == 17
  {
    [true] + Low()
  }

  // b times the generator, as the last of n + 17 coefficients.
  function Scaled(n: nat, b: bool): (p: seq<bool>)
    ensures |p| == n + 17
  {
    Zeros(n) + if b then Generator() else Zeros(17)
  }

  // The product with the generator: q x + b times G is (q times G) x plus b times G.
  function Times(q: seq<bool>): (p: seq<bool>)
    ensures |p| == |q| + 16
  {
    if q == [] then Zeros(16)
    else Xor(Times(q[..|q| - 1]) + [false], Scaled(|q| - 1, q[|q| - 1]))
  }

  // r is what is left of m times x^16 after taking away q times the generator.
  ghost predicate Divides(m: seq<bool>, q: seq<bool>, r: seq<bool>) {
    |q| == |m| && |r| == 16 && Xor(Times(q), Zeros(|m|) + r) == m + Zeros(16)
  }

  ghost predicate IsRemainder(m: seq<bool>, r: seq<bool>) {
    exists q :: Divides(m, q, r)
  }

  // ---------------------------------------------------------------- the register divides

  function Quotient(bits: seq<bool>): (q: seq<bool>)
    ensures |q| == |bits|
  {
    if bits == [] then []
    else
      var init := bits[..|bits| - 1];
      Quotient(init) + [Feed(Zeros(16), init)[0] != bits[|bits| - 1]]
  }

  lemma DivisionStep(m: seq<bool>, q: seq<bool>, r: seq<bool>, bit: bool)
    requires Divides(m, q, r)
    ensures Divides(m + [bit], q + [r[0] != bit], Serial(r, bit))
  {
    var carry, n := r[0] != bit, |m|;
    var q', r' := q + [carry], Serial(r, bit);
    assert q'[..|q'| - 1] == q;
    var left, right := Xor(Times(q'), Zeros(n + 1) + r'), (m + [bit]) + Zeros(16);
    var was := Xor(Times(q), Zeros(n) + r);
    forall i | 0 <= i < n + 17 ensures left[i] == right[i] {
      assert i < n + 16 ==> was[i] == (m + Zeros(16))[i];
    }
  }

  /** The register after any message holds the message times x^16 modulo the generator. */
  lemma {:induction false} RegisterDivides(bits: seq<bool>)
    ensures Divides(bits, Quotient(bits), Feed(Zeros(16), bits))
    decreases |bits|
  {
    if bits == [] {
      assert Zeros(0) + Zeros(16) == Zeros(16);
      assert Xor(Times([]), Zeros(16)) == [] + Zeros(16);
    } else {
      var init, last := bits[..|bits| - 1], bits[|bits| - 1];
      var r := Feed(Zeros(16), init);
      RegisterDivides(init);
      DivisionStep(init, Quotient(init), r, last);
      FeedAppend(Zeros(16), init, [last]);
      assert init + [last] == bits;
      assert Feed(r, [last]) == Serial(r, last);
    }
  }

  // ---------------------------------------------------------------- only one remainder

  lemma ScaledLinear(n: nat, a: bool, b: bool)
    ensures Scaled(n, a != b) == Xor(Scaled(n, a), Scaled(n, b))
  {
  }

  lemma SumsOfSums(p: seq<bool>, q: seq<bool>, g: seq<bool>, h: seq<bool>)
    requires |p| == |q| && |g| == |h| == |p| + 1
    ensures Xor(Xor(p, q) + [false], Xor(g, h)) == Xor(Xor(p + [false], g), Xor(q + [false], h))
  {
  }

  lemma {:induction false} TimesLinear(a: seq<bool>, b: seq<bool>)
    requires |a| == |b|
    ensures Times(Xor(a, b)) == Xor(Times(a), Times(b))
    decreases |a|
  {
    if a != [] {
      var n := |a| - 1;
      assert Xor(a, b)[..n] == Xor(a[..n], b[..n]);
      TimesLinear(a[..n], b[..n]);
      ScaledLinear(n, a[n], b[n]);
      SumsOfSums(Times(a[..n]), Times(b[..n]), Scaled(n, a[n]), Scaled(n, b[n]));
    }
  }

  lemma {:induction false} NoProduct(q: seq<bool>)
    requires forall j :: 0 <= j < |q| ==> !q[j]
    ensures Times(q) == Zeros(|q| + 16)
    decreases |q|
  {
    if q != [] { NoProduct(q[..|q| - 1]); }
  }

  // The leading coefficient of a product is that of the factor.
  lemma {:induction false} Leading(q: seq<bool>, i: nat)
    requires i < |q| && forall j :: 0 <= j < i ==> !q[j]
    ensures Times(q)[i] == q[i]
    decreases |q|
  {
    if i < |q| - 1 {
      Leading(q[..|q| - 1], i);
    } else {
      NoProduct(q[..|q| - 1]);
    }
  }

  // A product without its |q| leading coefficients has no factor left.
  lemma {:induction false} NoFactor(q: seq<bool>, n: nat)
    requires n <= |q| && forall i :: 0 <= i < |q| ==> !Times(q)[i]
    ensures forall j :: 0 <= j < n ==> !q[j]
    decreases n
  {
    if n > 0 {
      NoFactor(q, n - 1);
      Leading(q, n - 1);
    }
  }

  /** A message has only one remainder. */
  lemma RemainderUnique(m: seq<bool>, q1: seq<bool>, r1: seq<bool>, q2: seq<bool>, r2: seq<bool>)
    requires Divides(m, q1, r1) && Divides(m, q2, r2)
    ensures r1 == r2
  {
    var q, n := Xor(q1, q2), |m|;
    TimesLinear(q1, q2);
    var left1, left2 := Xor(Times(q1), Zeros(n) + r1), Xor(Times(q2), Zeros(n) + r2);
    forall i | 0 <= i < n ensures !Times(q)[i] { assert left1[i] == left2[i]; }
    NoFactor(q, n);
    NoProduct(q);
    forall i | 0 <= i < 16 ensures r1[i] == r2[i] {
      assert left1[n + i] == left2[n + i];
      assert !Times(q)[n + i];
    }
  }

  /** The checksum is the remainder, and nothing else is. */
  lemma GuardIsTheRemainder(data: seq<bv8>, r: seq<bool>)
    ensures IsRemainder(MessageBits(data), r) <==> r == Guard(data)
  {
    var m := MessageBits(data);
    RegisterDivides(m);
    if IsRemainder(m, r) {
      var q :| Divides(m, q, r);
      RemainderUnique(m, q, r, Quotient(m), Guard(data));
    }
  }

  // ---------------------------------------------------------------- what the checksum detects

  // The generator ends in one: a step can be undone.
  lemma EndsInOne()
    ensures Low()[15]
  {
    MaskValues();
  }

  lemma ReduceInjective(r: seq<bool>, s: seq<bool>, a: bool)
    requires |r| == |s| == 16 && Serial(r, a) == Serial(s, a)
    ensures r == s
  {
    EndsInOne();
    assert Serial(r, a)[15] == (r[0] != a) && Serial(s, a)[15] == (s[0] != a);
    forall i | 1 <= i < 16 ensures r[i] == s[i] { assert Serial(r, a)[i - 1] == Serial(s, a)[i - 1]; }
  }

  lemma {:induction false} FeedInjective(r: seq<bool>, s: seq<bool>, bits: seq<bool>)
    requires |r| == |s| == 16
    ensures Feed(r, bits) == Feed(s, bits) <==> r == s
    decreases |bits|
  {
    if bits != [] {
      FeedInjective(Serial(r, bits[0]), Serial(s, bits[0]), bits[1..]);
      if Serial(r, bits[0]) == Serial(s, bits[0]) { ReduceInjective(r, s, bits[0]); }
    }
  }

  // Feeding the register its own content empties it.
  lemma {:induction false} FeedOwn(w: seq<bool>)
    requires |w| == 16
    ensures Feed(w, w) == Zeros(16)
  {
    AheadOfTime(w, w, 16);
    StepsOfZero(16);
    assert Xor(w, w) == Zeros(16);
    assert w[..16] == w && w[16..] + Zeros(16) == Zeros(16);
    assert Xor(Feed(w, w), Zeros(16)) == Feed(w, w);
  }

  lemma {:induction false} StepsOfZero(k: nat)
    ensures Steps(Zeros(16), k) == Zeros(16)
    decreases k
  {
    if k > 0 {
      assert Reduce(Zeros(16), false) == Zeros(16);
      StepsOfZero(k - 1);
    }
  }

  // Sixteen bits empty the register only if they are its content.
  lemma EmptiesIff(r: seq<bool>, w: seq<bool>)
    requires |r| == |w| == 16
    ensures Feed(r, w) == Zeros(16) <==> r == w
  {
    FeedOwn(w);
    FeedInjective(r, w, w);
  }

  /** Two bytes after a message bring the checksum to zero exactly when they are the
      message's checksum, high byte first. */
  lemma GuardVerifies(data: seq<bv8>, crc: bv16, hi: bv8, lo: bv8)
    requires Bits16(crc) == Guard(data)
    ensures Guard(data + [hi, lo]) == Zeros(16) <==> crc == BigEndian(hi, lo)
  {
    var all, w := data + [hi, lo], BigEndian(hi, lo);
    assert all[..|data|] == data && all[..|data| + 1] == data + [hi] && all[..|data| + 2] == all;
    GuardOfNext(all, |data|);
    GuardOfNext(all, |data| + 1);
    FeedAppend(Guard(data), Bits8(hi), Bits8(lo));
    TwoBytes(hi, lo);
    EmptiesIff(Guard(data), Bits16(w));
    if Bits16(crc) == Bits16(w) { BitsDetermine(crc, w); }
  }

  // The last coefficient of a product is that of the factor.
  lemma {:induction false} Trailing(q: seq<bool>, j: nat)
    requires j < |q| && forall i :: j < i < |q| ==> !q[i]
    ensures Times(q)[j + 16] == q[j]
    decreases |q|
  {
    var n := |q| - 1;
    if j < n {
      Trailing(q[..n], j);
    } else {
      LastOfGenerator();
    }
  }

  lemma LastOfGenerator()
    ensures Generator()[16] && !Zeros(17)[16]
  {
    EndsInOne();
  }

  lemma {:induction false} NoTail(q: seq<bool>, n: nat)
    requires n <= |q| <= 16 && forall i :: |q| <= i < |q| + 16 ==> !Times(q)[i]
    ensures forall j :: |q| - n <= j < |q| ==> !q[j]
    decreases n
  {
    if n > 0 {
      NoTail(q, n - 1);
      Trailing(q, |q| - n);
    }
  }

  // A short message with checksum zero is zero.
  lemma ShortZero(e: seq<bool>)
    requires |e| <= 16 && Feed(Zeros(16), e) == Zeros(16)
    ensures e == Zeros(|e|)
  {
    var q, n := Quotient(e), |e|;
    RegisterDivides(e);
    var left := Xor(Times(q), Zeros(n) + Zeros(16));
    forall i | n <= i < n + 16 ensures !Times(q)[i] { assert left[i] == (e + Zeros(16))[i]; }
    NoTail(q, n);
    NoProduct(q);
    forall i | 0 <= i < n ensures !e[i] { assert left[i] == (e + Zeros(16))[i]; }
  }

  lemma SerialLinear(r: seq<bool>, s: seq<bool>, a: bool, b: bool)
    requires |r| == |s| == 16
    ensures Serial(Xor(r, s), a != b) == Xor(Serial(r, a), Serial(s, b))
  {
  }

  lemma {:induction false} FeedLinear(r: seq<bool>, s: seq<bool>, a: seq<bool>, b: seq<bool>)
    requires |a| == |b| && |r| == |s| == 16
    ensures Feed(Xor(r, s), Xor(a, b)) == Xor(Feed(r, a), Feed(s, b))
    decreases |a|
  {
    if a != [] {
      assert Xor(a, b)[1..] == Xor(a[1..], b[1..]);
      SerialLinear(r, s, a[0], b[0]);
      FeedLinear(Serial(r, a[0]), Serial(s, b[0]), a[1..], b[1..]);
    }
  }

  lemma ShortInjective(r: seq<bool>, a: seq<bool>, b: seq<bool>)
    requires |r| == 16 && |a| == |b| <= 16 && Feed(r, a) == Feed(r, b)
    ensures a == b
  {
    FeedLinear(r, r, a, b);
    assert Xor(r, r) == Zeros(16) && Xor(Feed(r, a), Feed(r, b)) == Zeros(16);
    ShortZero(Xor(a, b));
    forall i | 0 <= i < |a| ensures a[i] == b[i] { assert !Xor(a, b)[i]; }
  }

  /** Two messages that differ only within sixteen consecutive bits have different
      checksums. */
  lemma BurstDetected(prefix: seq<bool>, a: seq<bool>, b: seq<bool>, suffix: seq<bool>)
    requires |a| == |b| <= 16
    ensures Feed(Zeros(16), (prefix + a) + suffix) == Feed(Zeros(16), (prefix + b) + suffix) <==> a == b
  {
    var r := Feed(Zeros(16), prefix);
    FeedAppend(Zeros(16), prefix + a, suffix);
    FeedAppend(Zeros(16), prefix, a);
    FeedAppend(Zeros(16), prefix + b, suffix);
    FeedAppend(Zeros(16), prefix, b);
    FeedInjective(Feed(r, a), Feed(r, b), suffix);
    if Feed(r, a) == Feed(r, b) { ShortInjective(r, a, b); }
  }
}
