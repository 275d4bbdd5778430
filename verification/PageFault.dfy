/**
 `adjust_for_page_fault`: after a partial completion the descriptor is changed in place and
 submitted again. What a descriptor means is given by `Run`; a fault after n bytes has the
 effect of the same descriptor cut to n bytes, and the question is whether the adjusted
 descriptor then completes the original operation.
 */
module PageFault {
  import Bits

  type Byte = b: nat | b < 256

  datatype Opcode = Memmove | CopyCrc | MemFill | CacheFlush | Compare | CompVal | Dualcast | CrcGen | NotAdjusted

  datatype Desc = Desc(opcode: Opcode, src: nat, dst: nat, other: nat, size: nat, pattern: seq<Byte>, seed: nat)

  // `result` is the device's verdict on a comparison, 0 for equal.
  datatype Completion = Completion(bytesCompleted: nat, crcVal: nat, result: nat)

  // 64-bit addresses and 32-bit sizes wrap.
  function Add64(a: nat, n: nat): nat { (a + n) % Bits.WORD }

  function Sub32(a: nat, n: nat): nat { (a - n) % 0x1_0000_0000 }

  // ---------------------------------------------------------------- the adjustment

  // `other` is the second source of a compare and the second destination of a dualcast.
  function Adjusted(d: Desc, c: Completion): Desc {
    var n := c.bytesCompleted;
    match d.opcode
    case Memmove => d.(src := Add64(d.src, n), dst := Add64(d.dst, n), size := Sub32(d.size, n))
    case CopyCrc => d.(seed := c.crcVal % 0x1_0000_0000, src := Add64(d.src, n), dst := Add64(d.dst, n), size := Sub32(d.size, n))
    case MemFill => d.(dst := Add64(d.dst, n), size := Sub32(d.size, n))
    case CacheFlush => d.(dst := Add64(d.dst, n), size := Sub32(d.size, n))
    case Compare => d.(src := Add64(d.src, n), other := Add64(d.other, n), size := Sub32(d.size, n))
    case CompVal => d.(src := Add64(d.src, n), size := Sub32(d.size, n))
    case Dualcast => d.(src := Add64(d.src, n), dst := Add64(d.dst, n), other := Add64(d.other, n), size := Sub32(d.size, n))
    case CrcGen => d.(seed := c.crcVal % 0x1_0000_0000, src := Add64(d.src, n), size := Sub32(d.size, n))
    case NotAdjusted => d
  }

  /** A descriptor in memory. */
  class HwDescriptor {
    const opcode: Opcode
    const pattern: seq<Byte>
    var src: nat
    var dst: nat
    var other: nat
    var size: nat
    var seed: nat

    constructor (d: Desc)
      ensures View() == d
    {
      opcode, pattern, src, dst, other, size, seed := d.opcode, d.pattern, d.src, d.dst, d.other, d.size, d.seed;
    }

    function View(): Desc
      reads this
    {
      Desc(opcode, src, dst, other, size, pattern, seed)
    }

    /** Every address the operation reads or writes moves on by the bytes completed, its size
        shrinks by them, a checksum goes on from its value so far, and nothing else changes. */
    method AdjustForPageFault(c: Completion)
      modifies this
      ensures View() == Adjusted(old(View()), c)
      ensures src == if opcode in {MemFill, CacheFlush, NotAdjusted} then old(src) else (old(src) + c.bytesCompleted) % Bits.WORD
      ensures dst == if opcode in {Memmove, CopyCrc, MemFill, CacheFlush, Dualcast} then (old(dst) + c.bytesCompleted) % Bits.WORD else old(dst)
      ensures other == if opcode in {Compare, Dualcast} then (old(other) + c.bytesCompleted) % Bits.WORD else old(other)
      ensures size == if opcode == NotAdjusted then old(size) else (old(size) - c.bytesCompleted) % 0x1_0000_0000
      ensures seed == if opcode in {CopyCrc, CrcGen} then c.crcVal % 0x1_0000_0000 else old(seed)
    {
      var n := c.bytesCompleted;
      match opcode {
        case Memmove =>
          src := Add64(src, n);
          dst := Add64(dst, n);
          size := Sub32(size, n);
        case CopyCrc =>
          seed := c.crcVal % 0x1_0000_0000;
          src := Add64(src, n);
          dst := Add64(dst, n);
          size := Sub32(size, n);
        case MemFill =>
          dst := Add64(dst, n);
          size := Sub32(size, n);
        case CacheFlush =>
          dst := Add64(dst, n);
          size := Sub32(size, n);
        case Compare =>
          src := Add64(src, n);
          other := Add64(other, n);
          size := Sub32(size, n);
        case CompVal =>
          src := Add64(src, n);
          size := Sub32(size, n);
        case Dualcast =>
          src := Add64(src, n);
          dst := Add64(dst, n);
          other := Add64(other, n);
          size := Sub32(size, n);
        case CrcGen =>
          seed := c.crcVal % 0x1_0000_0000;
          src := Add64(src, n);
          size := Sub32(size, n);
        case NotAdjusted =>
      }
    }
  }

  // ---------------------------------------------------------------- what a descriptor means

  // n bytes from src, read before any is stored, stored at dst.
  function Copy(mem: seq<Byte>, src: nat, dst: nat, n: nat): (r: seq<Byte>)
    requires src + n <= |mem|
    ensures |r| == |mem|
  {
    seq(|mem|, i requires 0 <= i < |mem| => if dst <= i < dst + n then mem[src + (i - dst)] else mem[i])
  }

  // The same to two places, the second stored last where they overlap.
  function CopyToBoth(mem: seq<Byte>, src: nat, dst: nat, other: nat, n: nat): (r: seq<Byte>)
    requires src + n <= |mem|
    ensures |r| == |mem|
  {
    seq(|mem|, i requires 0 <= i < |mem| =>
      if other <= i < other + n then mem[src + (i - other)]
      else if dst <= i < dst + n then mem[src + (i - dst)]
      else mem[i])
  }

  function Fill(mem: seq<Byte>, dst: nat, pattern: seq<Byte>, n: nat): (r: seq<Byte>)
    requires |pattern| == 8
    ensures |r| == |mem|
  {
    seq(|mem|, i requires 0 <= i < |mem| => if dst <= i < dst + n then pattern[(i - dst) % 8] else mem[i])
  }

  predicate SameBytes(mem: seq<Byte>, a: nat, b: nat, n: nat)
    requires a + n <= |mem| && b + n <= |mem|
  {
    forall i :: a <= i < a + n ==> mem[i] == mem[b + (i - a)]
  }

  predicate Matches(mem: seq<Byte>, a: nat, pattern: seq<Byte>, n: nat)
    requires a + n <= |mem| && |pattern| == 8
  {
    n == 0 || (Matches(mem, a, pattern, n - 1) && mem[a + n - 1] == pattern[(n - 1) % 8])
  }

  // A byte-serial checksum of n bytes at a, whatever its step function.
  function Crc(f: (nat, Byte) -> nat, seed: nat, mem: seq<Byte>, a: nat, n: nat): nat
    requires a + n <= |mem|
  {
    if n == 0 then seed else f(Crc(f, seed, mem, a, n - 1), mem[a + n - 1])
  }

  // Effects on memory, lines flushed, whether everything compared equal, and the checksum.
  datatype Outcome = Outcome(mem: seq<Byte>, flushed: set<nat>, equal: bool, crc: nat)

  ghost predicate InBounds(d: Desc, mem: seq<Byte>) {
    && |d.pattern| == 8 && d.size < 0x1_0000_0000 && |mem| < Bits.WORD
    && d.src + d.size <= |mem| && d.dst + d.size <= |mem| && d.other + d.size <= |mem|
  }

  function MemAfter(d: Desc, mem: seq<Byte>): (r: seq<Byte>)
    requires d.src + d.size <= |mem| && |d.pattern| == 8
    ensures |r| == |mem|
  {
    match d.opcode
    case Memmove => Copy(mem, d.src, d.dst, d.size)
    case CopyCrc => Copy(mem, d.src, d.dst, d.size)
    case MemFill => Fill(mem, d.dst, d.pattern, d.size)
    case Dualcast => CopyToBoth(mem, d.src, d.dst, d.other, d.size)
    case _ => mem
  }

  predicate Within(a: nat, start: nat, n: nat) { start <= a < start + n }

  function FlushedBy(d: Desc): set<nat> {
    if d.opcode == CacheFlush then set a: nat | a < d.dst + d.size && Within(a, d.dst, d.size) else {}
  }

  predicate AllEqual(d: Desc, mem: seq<Byte>)
    requires d.src + d.size <= |mem| && d.other + d.size <= |mem| && |d.pattern| == 8
  {
    match d.opcode
    case Compare => SameBytes(mem, d.src, d.other, d.size)
    case CompVal => Matches(mem, d.src, d.pattern, d.size)
    case _ => true
  }

  function Checksum(f: (nat, Byte) -> nat, d: Desc, mem: seq<Byte>): nat
    requires d.src + d.size <= |mem|
  {
    if d.opcode == CopyCrc || d.opcode == CrcGen then Crc(f, d.seed, mem, d.src, d.size) else 0
  }

  ghost function Run(f: (nat, Byte) -> nat, d: Desc, mem: seq<Byte>): (o: Outcome)
    requires InBounds(d, mem)
    ensures |o.mem| == |mem|
  {
    Outcome(MemAfter(d, mem), FlushedBy(d), AllEqual(d, mem), Checksum(f, d, mem))
  }

  // The first n bytes of the operation.
  ghost function Begun(f: (nat, Byte) -> nat, d: Desc, n: nat, mem: seq<Byte>): Outcome
    requires InBounds(d, mem) && n <= d.size
  {
    Run(f, d.(size := n), mem)
  }

  // A comparison ends at the first difference, so it faults only while all bytes are equal.
  ghost predicate CanStop(f: (nat, Byte) -> nat, d: Desc, n: nat, mem: seq<Byte>)
    requires InBounds(d, mem) && n <= d.size
  {
    Begun(f, d, n, mem).equal
  }

  // The completion record of a fault after n bytes.
  ghost function Record(f: (nat, Byte) -> nat, d: Desc, n: nat, mem: seq<Byte>): Completion
    requires InBounds(d, mem) && n <= d.size
  {
    Completion(n, Begun(f, d, n, mem).crc, 0)
  }

  // One part, then the other: what the program finds. Comparison and checksum are those of
  // the last completion record, the only one that is looked at.
  function Joined(first: Outcome, second: Outcome): Outcome {
    Outcome(second.mem, first.flushed + second.flushed, second.equal, second.crc)
  }

  // Checksums are 32-bit words.
  ghost predicate Word32(f: (nat, Byte) -> nat, d: Desc) {
    d.seed < 0x1_0000_0000 && forall s: nat, b: Byte :: f(s, b) < 0x1_0000_0000
  }

  lemma CrcBound(f: (nat, Byte) -> nat, d: Desc, mem: seq<Byte>, n: nat)
    requires Word32(f, d) && d.src + n <= |mem|
    ensures Crc(f, d.seed, mem, d.src, n) < 0x1_0000_0000
  {
    if n > 0 { assert f(Crc(f, d.seed, mem, d.src, n - 1), mem[d.src + n - 1]) < 0x1_0000_0000; }
  }

  // A checksum continues from where it stopped, and depends on no other byte.
  lemma {:induction false} CrcInTwo(f: (nat, Byte) -> nat, seed: nat, mem: seq<Byte>, after: seq<Byte>, a: nat, n: nat, m: nat)
    requires a + n + m <= |mem| == |after|
    requires forall i :: a + n <= i < a + n + m ==> after[i] == mem[i]
    ensures Crc(f, seed, mem, a, n + m) == Crc(f, Crc(f, seed, mem, a, n), after, a + n, m)
    decreases m
  {
    if m > 0 { CrcInTwo(f, seed, mem, after, a, n, m - 1); }
  }

  // Resuming at n does what the whole operation would have done.
  ghost predicate Resumes(f: (nat, Byte) -> nat, d: Desc, n: nat, mem: seq<Byte>)
    requires InBounds(d, mem) && n <= d.size
  {
    var first, d' := Begun(f, d, n, mem), Adjusted(d, Record(f, d, n, mem));
    InBounds(d', first.mem) && Joined(first, Run(f, d', first.mem)) == Run(f, d, mem)
  }

  // ---------------------------------------------------------------- when it does

  // Storing the first n bytes leaves the rest of the source alone.
  predicate SourceSurvives(src: nat, dst: nat, size: nat, n: nat) {
    n == 0 || n == size || dst <= src || src + size <= dst
  }

  // The rest for the first destination does not run over what the second has already.
  predicate SecondSurvives(dst: nat, other: nat, size: nat, n: nat) {
    n == 0 || n == size || other <= dst || dst + size <= other
  }

  predicate BothResumable(src: nat, dst: nat, other: nat, size: nat, n: nat) {
    SourceSurvives(src, dst, size, n) && SourceSurvives(src, other, size, n) && SecondSurvives(dst, other, size, n)
  }

  predicate Resumable(d: Desc, n: nat) {
    match d.opcode
    case Memmove => SourceSurvives(d.src, d.dst, d.size, n)
    case CopyCrc => SourceSurvives(d.src, d.dst, d.size, n)
    case Dualcast => BothResumable(d.src, d.dst, d.other, d.size, n)
    case MemFill => n % 8 == 0 || n == d.size
    case CompVal => n % 8 == 0 || n == d.size
    case _ => true
  }

  // The rest of the operation after n bytes, as integers that do not wrap.
  function Rest(d: Desc, n: nat, crc: nat): Desc
    requires n <= d.size
  {
    match d.opcode
    case Memmove => d.(src := d.src + n, dst := d.dst + n, size := d.size - n)
    case CopyCrc => d.(seed := crc, src := d.src + n, dst := d.dst + n, size := d.size - n)
    case MemFill => d.(dst := d.dst + n, size := d.size - n)
    case CacheFlush => d.(dst := d.dst + n, size := d.size - n)
    case Compare => d.(src := d.src + n, other := d.other + n, size := d.size - n)
    case CompVal => d.(src := d.src + n, size := d.size - n)
    case Dualcast => d.(src := d.src + n, dst := d.dst + n, other := d.other + n, size := d.size - n)
    case CrcGen => d.(seed := crc, src := d.src + n, size := d.size - n)
    case NotAdjusted => d
  }

  lemma Small(a: nat, size: nat, n: nat, limit: nat)
    requires n <= size < 0x1_0000_0000 && a + size <= limit < Bits.WORD
    ensures Add64(a, n) == a + n && Sub32(size, n) == size - n
  {
  }

  // Inside memory nothing wraps around.
  lemma NoWrap(d: Desc, n: nat, crc: nat, mem: seq<Byte>)
    requires InBounds(d, mem) && n <= d.size && crc < 0x1_0000_0000
    ensures Adjusted(d, Completion(n, crc, 0)) == Rest(d, n, crc)
    ensures InBounds(Rest(d, n, crc), mem)
  {
    Small(d.src, d.size, n, |mem|);
    Small(d.dst, d.size, n, |mem|);
    Small(d.other, d.size, n, |mem|);
    assert crc % 0x1_0000_0000 == crc;
  }

  // ---------------------------------------------------------------- opcode by opcode

  lemma CopyInTwo(mem: seq<Byte>, src: nat, dst: nat, size: nat, n: nat)
    requires n <= size && src + size <= |mem| && SourceSurvives(src, dst, size, n)
    ensures Copy(Copy(mem, src, dst, n), src + n, dst + n, size - n) == Copy(mem, src, dst, size)
  {
    RestUntouched(mem, src, dst, size, n);
  }

  lemma RestUntouched(mem: seq<Byte>, src: nat, dst: nat, size: nat, n: nat)
    requires n <= size && src + size <= |mem| && SourceSurvives(src, dst, size, n)
    ensures forall i :: src + n <= i < src + size ==> Copy(mem, src, dst, n)[i] == mem[i]
  {
  }

  lemma BothInTwo(mem: seq<Byte>, src: nat, dst: nat, other: nat, size: nat, n: nat)
    requires n <= size && src + size <= |mem|
    requires BothResumable(src, dst, other, size, n)
    ensures CopyToBoth(CopyToBoth(mem, src, dst, other, n), src + n, dst + n, other + n, size - n) == CopyToBoth(mem, src, dst, other, size)
  {
    var m := CopyToBoth(mem, src, dst, other, n);
    assert forall i :: src + n <= i < src + size ==> m[i] == mem[i];
  }

  lemma SamePhase(n: nat, k: nat)
    requires n % 8 == 0
    ensures (n + k) % 8 == k % 8
  {
  }

  lemma FillInTwo(mem: seq<Byte>, dst: nat, pattern: seq<Byte>, size: nat, n: nat)
    requires n <= size && |pattern| == 8 && (n % 8 == 0 || n == size)
    ensures Fill(Fill(mem, dst, pattern, n), dst + n, pattern, size - n) == Fill(mem, dst, pattern, size)
  {
    var whole, parts := Fill(mem, dst, pattern, size), Fill(Fill(mem, dst, pattern, n), dst + n, pattern, size - n);
    forall i | 0 <= i < |mem| ensures parts[i] == whole[i] {
      if dst + n <= i < dst + size { SamePhase(n, i - dst - n); }
    }
  }

  lemma {:induction false} MatchesInTwo(mem: seq<Byte>, a: nat, pattern: seq<Byte>, size: nat, n: nat)
    requires n <= size && a + size <= |mem| && |pattern| == 8 && (n % 8 == 0 || n == size)
    ensures Matches(mem, a, pattern, size) <==> Matches(mem, a, pattern, n) && Matches(mem, a + n, pattern, size - n)
    decreases size
  {
    if n < size {
      MatchesInTwo(mem, a, pattern, size - 1, n);
      SamePhase(n, size - 1 - n);
    }
  }

  lemma SameInTwo(mem: seq<Byte>, a: nat, b: nat, size: nat, n: nat)
    requires n <= size && a + size <= |mem| && b + size <= |mem|
    ensures SameBytes(mem, a, b, size) <==> SameBytes(mem, a, b, n) && SameBytes(mem, a + n, b + n, size - n)
  {
  }

  lemma CopyResumes(d: Desc, n: nat, crc: nat, mem: seq<Byte>)
    requires InBounds(d, mem) && n <= d.size && Resumable(d, n) && (d.opcode == Memmove || d.opcode == CopyCrc)
    ensures MemAfter(Rest(d, n, crc), MemAfter(d.(size := n), mem)) == MemAfter(d, mem)
  {
    CopyInTwo(mem, d.src, d.dst, d.size, n);
  }

  lemma FillResumes(d: Desc, n: nat, crc: nat, mem: seq<Byte>)
    requires InBounds(d, mem) && n <= d.size && Resumable(d, n) && d.opcode == MemFill
    ensures MemAfter(Rest(d, n, crc), MemAfter(d.(size := n), mem)) == MemAfter(d, mem)
  {
    FillInTwo(mem, d.dst, d.pattern, d.size, n);
  }

  lemma DualcastResumes(d: Desc, n: nat, crc: nat, mem: seq<Byte>)
    requires InBounds(d, mem) && n <= d.size && Resumable(d, n) && d.opcode == Dualcast
    ensures MemAfter(Rest(d, n, crc), MemAfter(d.(size := n), mem)) == MemAfter(d, mem)
  {
    BothInTwo(mem, d.src, d.dst, d.other, d.size, n);
  }

  lemma MemResumes(d: Desc, n: nat, crc: nat, mem: seq<Byte>)
    requires InBounds(d, mem) && n <= d.size && Resumable(d, n) && InBounds(Rest(d, n, crc), mem)
    ensures MemAfter(Rest(d, n, crc), MemAfter(d.(size := n), mem)) == MemAfter(d, mem)
  {
    match d.opcode
    case Memmove => CopyResumes(d, n, crc, mem);
    case CopyCrc => CopyResumes(d, n, crc, mem);
    case MemFill => FillResumes(d, n, crc, mem);
    case Dualcast => DualcastResumes(d, n, crc, mem);
    case _ =>
  }

  lemma FlushResumes(d: Desc, n: nat, crc: nat)
    requires n <= d.size
    ensures FlushedBy(d.(size := n)) + FlushedBy(Rest(d, n, crc)) == FlushedBy(d)
  {
  }

  lemma CompValResumes(d: Desc, n: nat, crc: nat, mem: seq<Byte>)
    requires InBounds(d, mem) && n <= d.size && Resumable(d, n) && d.opcode == CompVal && AllEqual(d.(size := n), mem)
    ensures AllEqual(Rest(d, n, crc), mem) <==> AllEqual(d, mem)
  {
    MatchesInTwo(mem, d.src, d.pattern, d.size, n);
  }

  lemma CompareResumes(d: Desc, n: nat, crc: nat, mem: seq<Byte>)
    requires InBounds(d, mem) && n <= d.size && d.opcode == Compare && AllEqual(d.(size := n), mem)
    ensures AllEqual(Rest(d, n, crc), mem) <==> AllEqual(d, mem)
  {
    SameInTwo(mem, d.src, d.other, d.size, n);
  }

  lemma EqualResumes(d: Desc, n: nat, crc: nat, mem: seq<Byte>)
    requires InBounds(d, mem) && n <= d.size && Resumable(d, n) && InBounds(Rest(d, n, crc), mem)
    requires AllEqual(d.(size := n), mem)
    ensures AllEqual(Rest(d, n, crc), MemAfter(d.(size := n), mem)) <==> AllEqual(d, mem)
  {
    if d.opcode == CompVal { CompValResumes(d, n, crc, mem); }
    if d.opcode == Compare { CompareResumes(d, n, crc, mem); }
  }

  lemma CrcSurvives(f: (nat, Byte) -> nat, seed: nat, mem: seq<Byte>, src: nat, dst: nat, size: nat, n: nat)
    requires n <= size && src + size <= |mem| && SourceSurvives(src, dst, size, n)
    ensures Crc(f, Crc(f, seed, mem, src, n), Copy(mem, src, dst, n), src + n, size - n) == Crc(f, seed, mem, src, size)
  {
    RestUntouched(mem, src, dst, size, n);
    CrcInTwo(f, seed, mem, Copy(mem, src, dst, n), src, n, size - n);
  }

  lemma ChecksumResumes(f: (nat, Byte) -> nat, d: Desc, n: nat, mem: seq<Byte>)
    requires InBounds(d, mem) && n <= d.size && Resumable(d, n) && InBounds(Rest(d, n, Checksum(f, d.(size := n), mem)), mem)
    ensures Checksum(f, Rest(d, n, Checksum(f, d.(size := n), mem)), MemAfter(d.(size := n), mem)) == Checksum(f, d, mem)
  {
    if d.opcode == CrcGen { CrcInTwo(f, d.seed, mem, mem, d.src, n, d.size - n); }
    if d.opcode == CopyCrc { CrcSurvives(f, d.seed, mem, d.src, d.dst, d.size, n); }
  }

  /** One fault, forwards: the completed part followed by the adjusted descriptor is the original
      operation, for every opcode, memory and progress that `Resumable` admits. */
  lemma FaultKeepsMeaning(f: (nat, Byte) -> nat, d: Desc, n: nat, mem: seq<Byte>)
    requires InBounds(d, mem) && n <= d.size && Word32(f, d) && Resumable(d, n) && CanStop(f, d, n, mem)
    ensures Resumes(f, d, n, mem)
  {
    CrcBound(f, d, mem, n);
    var crc := Checksum(f, d.(size := n), mem);
    NoWrap(d, n, crc, mem);
    MemResumes(d, n, crc, mem);
    FlushResumes(d, n, crc);
    EqualResumes(d, n, crc, mem);
    ChecksumResumes(f, d, n, mem);
  }

  // ---------------------------------------------------------------- any number of faults

  // The descriptor after a sequence of page faults.
  function Resumed(d: Desc, faults: seq<Completion>): Desc
    decreases |faults|
  {
    if faults == [] then d else Resumed(Adjusted(d, faults[0]), faults[1..])
  }

  // Each fault is reported truthfully, at a place where the operation can be resumed.
  ghost predicate Truthful(f: (nat, Byte) -> nat, d: Desc, faults: seq<Completion>, mem: seq<Byte>)
    decreases |faults|
  {
    && InBounds(d, mem) && Word32(f, d)
    && (faults != [] ==>
          var n := faults[0].bytesCompleted;
          && n <= d.size && Resumable(d, n) && CanStop(f, d, n, mem) && faults[0] == Record(f, d, n, mem)
          && Truthful(f, Adjusted(d, faults[0]), faults[1..], Begun(f, d, n, mem).mem))
  }

  // The effect of the parts completed before each of the faults.
  ghost function Interrupted(f: (nat, Byte) -> nat, d: Desc, faults: seq<Completion>, mem: seq<Byte>): Outcome
    requires Truthful(f, d, faults, mem)
    decreases |faults|
  {
    if faults == [] then Outcome(mem, {}, true, 0)
    else
      var first := Begun(f, d, faults[0].bytesCompleted, mem);
      Joined(first, Interrupted(f, Adjusted(d, faults[0]), faults[1..], first.mem))
  }

  /** However often and wherever page faults interrupt an operation: the completed parts,
      followed by the descriptor as adjusted for all the faults, have the effect of the
      uninterrupted operation. */
  lemma {:induction false} FaultsKeepMeaning(f: (nat, Byte) -> nat, d: Desc, faults: seq<Completion>, mem: seq<Byte>)
    requires Truthful(f, d, faults, mem)
    ensures InBounds(Resumed(d, faults), Interrupted(f, d, faults, mem).mem)
    ensures var parts := Interrupted(f, d, faults, mem);
            Joined(parts, Run(f, Resumed(d, faults), parts.mem)) == Run(f, d, mem)
    decreases |faults|
  {
    if faults != [] {
      var n := faults[0].bytesCompleted;
      FaultKeepsMeaning(f, d, n, mem);
      FaultsKeepMeaning(f, Adjusted(d, faults[0]), faults[1..], Begun(f, d, n, mem).mem);
    }
  }

  // ---------------------------------------------------------------- and when it does not

  ghost predicate ResumesAlways(f: (nat, Byte) -> nat, d: Desc, n: nat) {
    forall mem: seq<Byte> :: InBounds(d, mem) && n <= d.size ==> Resumes(f, d, n, mem)
  }

  predicate Copies(d: Desc) { d.opcode == Memmove || d.opcode == CopyCrc }

  // A copy that overlaps its source from behind loses the bytes the first part ran over.
  lemma Clobbered(src: nat, dst: nat, size: nat, n: nat, limit: nat) returns (mem: seq<Byte>)
    requires n <= size && src + size <= limit && dst + size <= limit && !SourceSurvives(src, dst, size, n)
    ensures |mem| == limit && Copy(Copy(mem, src, dst, n), src + n, dst + n, size - n) != Copy(mem, src, dst, size)
  {
    var a := if dst < src + n then src + n else dst;
    mem := seq(limit, i => if i == a then 1 else 0);
    var t := a + (dst - src);
    var m := Copy(mem, src, dst, n);
    assert m[a] == 0;
    assert Copy(m, src + n, dst + n, size - n)[t] == m[a];
    assert Copy(mem, src, dst, size)[t] == 1;
  }

  // The descriptor's ranges end inside the address space.
  ghost predicate Addressable(d: Desc) {
    && d.size < 0x1_0000_0000
    && d.src + d.size < Bits.WORD && d.dst + d.size < Bits.WORD && d.other + d.size < Bits.WORD
  }

  // A memory that just holds all of them.
  function Extent(d: Desc): (n: nat)
    ensures d.src + d.size <= n && d.dst + d.size <= n && d.other + d.size <= n
    ensures n in {d.src + d.size, d.dst + d.size, d.other + d.size}
  {
    var n := if d.src < d.dst then d.dst + d.size else d.src + d.size;
    if n < d.other + d.size then d.other + d.size else n
  }

  // Wrong memory is enough for an operation not to be resumed.
  lemma NotResumed(f: (nat, Byte) -> nat, d: Desc, n: nat, crc: nat, mem: seq<Byte>)
    requires InBounds(d, mem) && n <= d.size && crc == Checksum(f, d.(size := n), mem) < 0x1_0000_0000
    requires InBounds(Rest(d, n, crc), mem)
    requires MemAfter(Rest(d, n, crc), MemAfter(d.(size := n), mem)) != MemAfter(d, mem)
    ensures !Resumes(f, d, n, mem)
  {
    NoWrap(d, n, crc, mem);
  }

  lemma ClobberedSource(f: (nat, Byte) -> nat, d: Desc, n: nat) returns (mem: seq<Byte>)
    requires Copies(d) && |d.pattern| == 8 && n <= d.size && Word32(f, d) && Addressable(d)
    requires !SourceSurvives(d.src, d.dst, d.size, n)
    ensures InBounds(d, mem) && !Resumes(f, d, n, mem)
  {
    mem := Clobbered(d.src, d.dst, d.size, n, Extent(d));
    CrcBound(f, d, mem, n);
    var crc := Checksum(f, d.(size := n), mem);
    NoWrap(d, n, crc, mem);
    CopyMemory(d, n, crc, mem);
    NotResumed(f, d, n, crc, mem);
  }

  lemma CopyMemory(d: Desc, n: nat, crc: nat, mem: seq<Byte>)
    requires Copies(d) && InBounds(d, mem) && n <= d.size
    ensures MemAfter(Rest(d, n, crc), MemAfter(d.(size := n), mem))
            == Copy(Copy(mem, d.src, d.dst, n), d.src + n, d.dst + n, d.size - n)
  {
  }

  /** A memory move, with or without checksum, survives a forward fault in every memory exactly when the bytes already
      stored do not overlap the source still to be read. */
  lemma CopyResumesIff(f: (nat, Byte) -> nat, d: Desc, n: nat)
    requires Copies(d) && |d.pattern| == 8 && n <= d.size && Word32(f, d) && Addressable(d)
    ensures ResumesAlways(f, d, n) <==> SourceSurvives(d.src, d.dst, d.size, n)
  {
    if SourceSurvives(d.src, d.dst, d.size, n) {
      forall mem: seq<Byte> | InBounds(d, mem) ensures Resumes(f, d, n, mem) {
        FaultKeepsMeaning(f, d, n, mem);
      }
    } else {
      var mem := ClobberedSource(f, d, n);
    }
  }

  /** A fill survives a fault with every pattern exactly when the stop is a whole number of
      patterns, or the end: the pattern starts over at the new address. */
  lemma FillResumesIff(f: (nat, Byte) -> nat, d: Desc, n: nat, mem: seq<Byte>)
    requires d.opcode == MemFill && InBounds(d, mem) && n <= d.size && Word32(f, d)
    ensures (forall pattern: seq<Byte> :: |pattern| == 8 ==> Resumes(f, d.(pattern := pattern), n, mem)) <==> Resumable(d, n)
  {
    if Resumable(d, n) {
      forall pattern: seq<Byte> | |pattern| == 8 ensures Resumes(f, d.(pattern := pattern), n, mem) {
        FaultKeepsMeaning(f, d.(pattern := pattern), n, mem);
      }
    } else {
      var pattern: seq<Byte> := [1, 0, 0, 0, 0, 0, 0, 0];
      var d1, at := d.(pattern := pattern), d.dst + n;
      NoWrap(d1, n, 0, mem);
      assert Fill(mem, d.dst, pattern, d.size)[at] == pattern[n % 8];
      assert Fill(Fill(mem, d.dst, pattern, n), at, pattern, d.size - n)[at] == pattern[0];
      assert !Resumes(f, d1, n, mem);
    }
  }

  function ResumedBoth(mem: seq<Byte>, src: nat, dst: nat, other: nat, size: nat, n: nat): (r: seq<Byte>)
    requires n <= size && src + size <= |mem|
    ensures |r| == |mem|
  {
    CopyToBoth(CopyToBoth(mem, src, dst, other, n), src + n, dst + n, other + n, size - n)
  }

  // Source byte a is run over before it is read; its copy is missing at the second place.
  lemma SourceLost(mem: seq<Byte>, src: nat, dst: nat, other: nat, size: nat, n: nat, a: nat)
    requires n <= size && src + size <= |mem| && other + size <= |mem| && src + n <= a < src + size
    requires src < other <= a < other + n || (!(other <= a < other + n) && src < dst <= a < dst + n)
    requires forall i :: 0 <= i < |mem| ==> mem[i] == if i == a then 1 else 0
    ensures var t := other + (a - src);
            ResumedBoth(mem, src, dst, other, size, n)[t] == 0 && CopyToBoth(mem, src, dst, other, size)[t] == 1
  {
    assert CopyToBoth(mem, src, dst, other, n)[a] == 0;
  }

  // The first place's rest runs over byte t of the second.
  lemma SecondLost(mem: seq<Byte>, src: nat, dst: nat, other: nat, size: nat, n: nat, t: nat)
    requires n <= size && src + size <= |mem| && other + size <= |mem| && dst < other
    requires other <= t < other + n && dst + n <= t < dst + size
    requires SourceSurvives(src, dst, size, n) && SourceSurvives(src, other, size, n)
    requires forall i :: 0 <= i < |mem| ==> mem[i] == if i == src + (t - other) then 1 else 0
    ensures ResumedBoth(mem, src, dst, other, size, n)[t] == 0 && CopyToBoth(mem, src, dst, other, size)[t] == 1
  {
    assert CopyToBoth(mem, src, dst, other, n)[src + (t - dst)] == 0;
  }

  // A memory and the place of a byte that the resumed dualcast gets wrong.
  lemma DualcastBreaks(src: nat, dst: nat, other: nat, size: nat, n: nat, limit: nat) returns (mem: seq<Byte>, t: nat)
    requires n <= size && !BothResumable(src, dst, other, size, n)
    requires src + size <= limit && dst + size <= limit && other + size <= limit
    ensures |mem| == limit && t < limit
    ensures ResumedBoth(mem, src, dst, other, size, n)[t] == 0 && CopyToBoth(mem, src, dst, other, size)[t] == 1
  {
    if SourceSurvives(src, dst, size, n) && SourceSurvives(src, other, size, n) {
      t := if other < dst + n then dst + n else other;
      mem := seq(limit, i => if i == src + (t - other) then 1 else 0);
      SecondLost(mem, src, dst, other, size, n, t);
    } else {
      var x := if SourceSurvives(src, other, size, n) then dst else other;
      var a := if x < src + n then src + n else x;
      mem := seq(limit, i => if i == a then 1 else 0);
      t := other + (a - src);
      SourceLost(mem, src, dst, other, size, n, a);
    }
  }

  lemma DualcastIs(d: Desc, mem: seq<Byte>)
    requires d.opcode == Dualcast && d.src + d.size <= |mem| && |d.pattern| == 8
    ensures MemAfter(d, mem) == CopyToBoth(mem, d.src, d.dst, d.other, d.size)
  {
  }

  /** A dualcast survives a fault in every memory exactly when what was stored overlaps
      neither the source still to be read nor, from behind, what is still to be stored. */
  lemma DualcastResumesIff(f: (nat, Byte) -> nat, d: Desc, n: nat)
    requires d.opcode == Dualcast && |d.pattern| == 8 && n <= d.size && Word32(f, d) && Addressable(d)
    ensures ResumesAlways(f, d, n) <==> Resumable(d, n)
  {
    if Resumable(d, n) {
      forall mem: seq<Byte> | InBounds(d, mem) ensures Resumes(f, d, n, mem) {
        FaultKeepsMeaning(f, d, n, mem);
      }
    } else {
      var mem, t := DualcastBreaks(d.src, d.dst, d.other, d.size, n, Extent(d));
      NoWrap(d, n, 0, mem);
      DualcastIs(d, mem);
      DualcastIs(d.(size := n), mem);
      DualcastIs(Rest(d, n, 0), MemAfter(d.(size := n), mem));
      NotResumed(f, d, n, 0, mem);
    }
  }

  ghost predicate CompareResumesAlways(f: (nat, Byte) -> nat, d: Desc, n: nat) {
    forall pattern: seq<Byte>, mem: seq<Byte> ::
      InBounds(d.(pattern := pattern), mem) && n <= d.size && CanStop(f, d.(pattern := pattern), n, mem) ==>
        Resumes(f, d.(pattern := pattern), n, mem)
  }

  // Memory that repeats 1, 0, ..., 0 from address a on.
  function Repeating(a: nat, limit: nat): (mem: seq<Byte>)
    ensures |mem| == limit
  {
    var one: Byte, zero: Byte := 1, 0;
    seq(limit, i => if (i - a) % 8 == 0 then one else zero)
  }

  const ONE_IN_EIGHT: seq<Byte> := [1, 0, 0, 0, 0, 0, 0, 0]

  lemma {:induction false} RepeatingMatches(a: nat, n: nat, limit: nat)
    requires a + n <= limit
    ensures Matches(Repeating(a, limit), a, ONE_IN_EIGHT, n)
    decreases n
  {
    if n > 0 { RepeatingMatches(a, n - 1, limit); }
  }

  lemma {:induction false} FirstMatches(mem: seq<Byte>, a: nat, pattern: seq<Byte>, n: nat)
    requires 0 < n && a + n <= |mem| && |pattern| == 8 && Matches(mem, a, pattern, n)
    ensures mem[a] == pattern[0]
    decreases n
  {
    if n > 1 { FirstMatches(mem, a, pattern, n - 1); }
  }

  // From the middle of a pattern the repetition does not match.
  lemma RepetitionBreaks(a: nat, size: nat, n: nat, limit: nat)
    requires n < size && n % 8 != 0 && a + size <= limit
    ensures !Matches(Repeating(a, limit), a + n, ONE_IN_EIGHT, size - n)
  {
    var mem := Repeating(a, limit);
    assert mem[a + n] == 0;
    if Matches(mem, a + n, ONE_IN_EIGHT, size - n) { FirstMatches(mem, a + n, ONE_IN_EIGHT, size - n); }
  }

  lemma OutOfPhase(f: (nat, Byte) -> nat, d: Desc, n: nat, mem: seq<Byte>)
    requires d.opcode == CompVal && InBounds(d, mem) && n < d.size
    requires Matches(mem, d.src, d.pattern, n) && Matches(mem, d.src, d.pattern, d.size)
    requires !Matches(mem, d.src + n, d.pattern, d.size - n)
    ensures CanStop(f, d, n, mem) && !Resumes(f, d, n, mem)
  {
    NoWrap(d, n, 0, mem);
  }

  /** A comparison resumed after a fault reports the verdict on the whole exactly when the
      part before the fault was equal, or the rest differs anyway. */
  lemma CompareResumesIff(f: (nat, Byte) -> nat, d: Desc, n: nat, mem: seq<Byte>)
    requires d.opcode == Compare && InBounds(d, mem) && n <= d.size
    ensures Resumes(f, d, n, mem) <==> CanStop(f, d, n, mem) || !SameBytes(mem, d.src + n, d.other + n, d.size - n)
  {
    NoWrap(d, n, 0, mem);
    SameInTwo(mem, d.src, d.other, d.size, n);
  }

  /** Comparing with a pattern survives a fault, with every pattern and memory, exactly when
      the stop is a whole number of patterns, or the end. */
  lemma CompareValueResumesIff(f: (nat, Byte) -> nat, d: Desc, n: nat)
    requires d.opcode == CompVal && n <= d.size && Word32(f, d) && Addressable(d)
    ensures CompareResumesAlways(f, d, n) <==> Resumable(d, n)
  {
    if Resumable(d, n) {
      forall pattern: seq<Byte>, mem: seq<Byte> | InBounds(d.(pattern := pattern), mem) && CanStop(f, d.(pattern := pattern), n, mem)
        ensures Resumes(f, d.(pattern := pattern), n, mem)
      {
        FaultKeepsMeaning(f, d.(pattern := pattern), n, mem);
      }
    } else {
      var d1, mem := d.(pattern := ONE_IN_EIGHT), Repeating(d.src, Extent(d));
      RepeatingMatches(d.src, n, Extent(d));
      RepeatingMatches(d.src, d.size, Extent(d));
      RepetitionBreaks(d.src, d.size, n, Extent(d));
      OutOfPhase(f, d1, n, mem);
    }
  }

  // The device may also work from the end and report result 1: then the last n bytes are
  // in place.
  function Backwards(d: Desc, n: nat): Desc
    requires n <= d.size
  {
    d.(src := d.src + (d.size - n), dst := d.dst + (d.size - n), size := n)
  }

  // The last n bytes stored, then the descriptor as adjusted for n bytes.
  ghost predicate BackwardResumes(d: Desc, n: nat, crc: nat, mem: seq<Byte>)
    requires InBounds(d, mem) && n <= d.size
  {
    var m, d' := MemAfter(Backwards(d, n), mem), Adjusted(d, Completion(n, crc, 0));
    InBounds(d', m) && MemAfter(d', m) == MemAfter(d, mem)
  }

  lemma BackwardHarmless(mem: seq<Byte>, src: nat, dst: nat, size: nat, n: nat)
    requires n <= size && src + size <= |mem| && (n == 0 || n == size || src == dst)
    ensures Copy(Copy(mem, src + (size - n), dst + (size - n), n), src + n, dst + n, size - n) == Copy(mem, src, dst, size)
  {
    var m := Copy(mem, src + (size - n), dst + (size - n), n);
    if n == 0 || src == dst { assert m == mem; } else { assert Copy(m, src + n, dst + n, 0) == m; }
  }

  // The first byte of the destination is never stored.
  lemma BackwardLoses(src: nat, dst: nat, size: nat, n: nat, limit: nat) returns (mem: seq<Byte>)
    requires 0 < n < size && src != dst && src + size <= limit && dst + size <= limit
    ensures |mem| == limit
    ensures Copy(Copy(mem, src + (size - n), dst + (size - n), n), src + n, dst + n, size - n) != Copy(mem, src, dst, size)
  {
    mem := seq(limit, i => if i == src then 1 else 0);
    var m := Copy(mem, src + (size - n), dst + (size - n), n);
    assert m[dst] == 0;
    assert Copy(m, src + n, dst + n, size - n)[dst] == 0;
    assert Copy(mem, src, dst, size)[dst] == 1;
  }

  lemma MoveIs(d: Desc, mem: seq<Byte>)
    requires d.opcode == Memmove && d.src + d.size <= |mem| && |d.pattern| == 8
    ensures MemAfter(d, mem) == Copy(mem, d.src, d.dst, d.size)
  {
  }

  lemma BackwardIs(d: Desc, n: nat, crc: nat, mem: seq<Byte>)
    requires d.opcode == Memmove && InBounds(d, mem) && n <= d.size && crc < 0x1_0000_0000
    ensures var m := Copy(mem, d.src + (d.size - n), d.dst + (d.size - n), n);
            BackwardResumes(d, n, crc, mem) <==> Copy(m, d.src + n, d.dst + n, d.size - n) == Copy(mem, d.src, d.dst, d.size)
  {
    NoWrap(d, n, crc, mem);
    MoveIs(d, mem);
    MoveIs(Backwards(d, n), mem);
    MoveIs(Rest(d, n, crc), MemAfter(Backwards(d, n), mem));
  }

  lemma BackwardRight(d: Desc, n: nat, crc: nat, mem: seq<Byte>)
    requires d.opcode == Memmove && InBounds(d, mem) && n <= d.size && crc < 0x1_0000_0000
    requires n == 0 || n == d.size || d.src == d.dst
    ensures BackwardResumes(d, n, crc, mem)
  {
    BackwardIs(d, n, crc, mem);
    BackwardHarmless(mem, d.src, d.dst, d.size, n);
  }

  lemma BackwardWrong(d: Desc, n: nat, crc: nat) returns (mem: seq<Byte>)
    requires d.opcode == Memmove && |d.pattern| == 8 && crc < 0x1_0000_0000 && Addressable(d) && 0 < n < d.size && d.src != d.dst
    ensures InBounds(d, mem) && !BackwardResumes(d, n, crc, mem)
  {
    mem := BackwardLoses(d.src, d.dst, d.size, n, Extent(d));
    BackwardIs(d, n, crc, mem);
  }

  /** The adjustment ignores the direction. A memory move between any two places, overlapping
      or not, is resumed correctly after a backward fault in every memory exactly when
      nothing or everything was copied, or source and destination are the same. */
  lemma BackwardFaultIff(d: Desc, n: nat, crc: nat)
    requires d.opcode == Memmove && |d.pattern| == 8 && n <= d.size && crc < 0x1_0000_0000 && Addressable(d)
    ensures (forall mem: seq<Byte> :: InBounds(d, mem) ==> BackwardResumes(d, n, crc, mem))
            <==> n == 0 || n == d.size || d.src == d.dst
  {
    if n == 0 || n == d.size || d.src == d.dst {
      forall mem: seq<Byte> | InBounds(d, mem) ensures BackwardResumes(d, n, crc, mem) { BackwardRight(d, n, crc, mem); }
    } else {
      var mem := BackwardWrong(d, n, crc);
    }
  }

  // ---------------------------------------------------------------- dualcast

  // pre_start_validate: bits 11:0 of the two destinations agree.
  predicate SameOffsetInPage(dst1: nat, dst2: nat) {
    Bits.And(dst1, 0xFFF) == Bits.And(dst2, 0xFFF)
  }

  lemma LowBits(a: nat)
    ensures Bits.And(a, 0xFFF) == a % 4096
  {
    assert Bits.Pow2(3) == 8;
    assert Bits.Pow2(6) == 64;
    assert Bits.Pow2(9) == 512;
    assert Bits.Pow2(12) == 4096;
    Bits.AndMask(a, 12);
  }

  // Moving both destinations by n, with 64-bit wrap-around, keeps their distance modulo 4096.
  lemma ShiftedAlike(a: nat, b: nat, n: nat)
    ensures a % 4096 == b % 4096 <==> Add64(a, n) % 4096 == Add64(b, n) % 4096
  {
    WrapKeepsLow(a + n);
    WrapKeepsLow(b + n);
    SameRemainder(a, b);
    SameRemainder(a + n, b + n);
  }

  lemma SameRemainder(a: nat, b: nat)
    ensures a % 4096 == b % 4096 <==> (a - b) % 4096 == 0
  {
  }

  lemma WrapKeepsLow(x: nat)
    ensures (x % Bits.WORD) % 4096 == x % 4096
  {
    assert x == Bits.WORD * (x / Bits.WORD) + x % Bits.WORD;
    assert Bits.WORD == 4096 * 0x10_0000_0000_0000;
  }

  // An accepted dualcast stays acceptable through any adjustment, and a rejected one would
  // have stayed rejected.
  lemma DualcastStaysAligned(d: Desc, c: Completion)
    requires d.opcode == Dualcast
    ensures SameOffsetInPage(d.dst, d.other) <==> SameOffsetInPage(Adjusted(d, c).dst, Adjusted(d, c).other)
  {
    var d' := Adjusted(d, c);
    LowBits(d.dst);
    LowBits(d.other);
    LowBits(d'.dst);
    LowBits(d'.other);
    ShiftedAlike(d.dst, d.other, c.bytesCompleted);
  }
}
