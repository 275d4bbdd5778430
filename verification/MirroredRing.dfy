/**
 The doubly mapped descriptor memory of `MirroredRingSubmitter`.

 The ring's bytes are rounded up to whole pages and mapped twice, back to back. The
 driver still counts in ring slots, so the second mapping only continues the ring
 where it ends if no rounding happened.
 */
module MirroredRing {
  import opened Submission
  import opened BatchRing
  import Bits

  const DESCRIPTOR_BYTES: nat := 64

  // Bytes of one mapping of a ring of `slots` descriptors, with pages of 2^pageBits.
  function RegionBytes(slots: nat, pageBits: nat): nat
    requires pageBits < 64 && slots * DESCRIPTOR_BYTES + Bits.Pow2(pageBits) - 1 < Bits.WORD
  {
    Bits.AlignUp(slots * DESCRIPTOR_BYTES, pageBits)
  }

  // The byte of the shared object behind byte address a of the double mapping.
  function PhysicalByte(a: nat, region: nat): nat
    requires a < 2 * region
  {
    if a < region then a else a - region
  }

  ghost predicate Mappable(slots: nat, pageBits: nat) {
    && 6 <= pageBits < 64
    && slots * DESCRIPTOR_BYTES + Bits.Pow2(pageBits) - 1 < Bits.WORD
  }

  // A page of at least 64 bytes is a whole number of descriptors.
  lemma {:induction false} PageHoldsDescriptors(pageBits: nat)
    requires pageBits >= 6
    ensures Bits.Pow2(pageBits) % DESCRIPTOR_BYTES == 0
  {
    if pageBits == 6 {
      assert Bits.Pow2(3) == 8;
      assert Bits.Pow2(6) == 64;
    } else {
      PageHoldsDescriptors(pageBits - 1);
    }
  }

  lemma DivisorChain(r: nat, p: nat, d: nat)
    requires p > 0 && d > 0 && r % p == 0 && p % d == 0
    ensures r % d == 0
  {
    var q, m := r / p, p / d;
    assert r == q * p && p == m * d;
    assert r == (q * m) * d;
    Bits.ModUnique(r, d, q * m, 0);
  }

  lemma RegionShape(slots: nat, pageBits: nat)
    requires Mappable(slots, pageBits)
    ensures RegionBytes(slots, pageBits) % DESCRIPTOR_BYTES == 0
    ensures slots * DESCRIPTOR_BYTES <= RegionBytes(slots, pageBits)
    ensures RegionBytes(slots, pageBits) == slots * DESCRIPTOR_BYTES <==> slots * DESCRIPTOR_BYTES % Bits.Pow2(pageBits) == 0
  {
    PageHoldsDescriptors(pageBits);
    DivisorChain(RegionBytes(slots, pageBits), Bits.Pow2(pageBits), DESCRIPTOR_BYTES);
    Bits.AlignedRecordFits(slots * DESCRIPTOR_BYTES, pageBits);
  }

  // Byte k of virtual descriptor v is byte k of descriptor v modulo the region.
  lemma MirrorBytes(v: nat, k: nat, cells: nat)
    requires k < DESCRIPTOR_BYTES && v < 2 * cells
    ensures v * DESCRIPTOR_BYTES + k < 2 * (cells * DESCRIPTOR_BYTES)
    ensures PhysicalByte(v * DESCRIPTOR_BYTES + k, cells * DESCRIPTOR_BYTES) == Index(v, cells) * DESCRIPTOR_BYTES + k
  {
    IndexStep(0, v, cells);
  }

  // Byte k of a descriptor, lowest first.
  function ByteOf(d: Descriptor, k: nat): nat { d / Bits.Pow2(8 * k) % 256 }

  // The shared object: the cells' bytes one after the other.
  function StoredByte(cells: seq<Descriptor>, a: nat): nat
    requires a < |cells| * DESCRIPTOR_BYTES
  {
    ByteOf(cells[a / DESCRIPTOR_BYTES], a % DESCRIPTOR_BYTES)
  }

  // The byte at an address of the double mapping.
  function MappedByte(cells: seq<Descriptor>, a: nat): nat
    requires a < 2 * (|cells| * DESCRIPTOR_BYTES)
  {
    StoredByte(cells, PhysicalByte(a, |cells| * DESCRIPTOR_BYTES))
  }

  lemma FetchedByte(cells: seq<Descriptor>, start: nat, count: nat, j: nat, k: nat)
    requires j < count && k < DESCRIPTOR_BYTES && start + count <= 2 * |cells|
    ensures var a := (start + j) * DESCRIPTOR_BYTES + k;
            a < 2 * (|cells| * DESCRIPTOR_BYTES) && MappedByte(cells, a) == ByteOf(Fetch(cells, start, count)[j], k)
  {
    MirrorBytes(start + j, k, |cells|);
    var i := Index(start + j, |cells|);
    assert (i * DESCRIPTOR_BYTES + k) / DESCRIPTOR_BYTES == i && (i * DESCRIPTOR_BYTES + k) % DESCRIPTOR_BYTES == k;
  }

  /** After every run of the mirrored submitter, in any layout, a batch in flight lies within
      the two mappings, and the bytes the device reads there, from the batch's first address
      on, are those of the descriptors the machine's fetch returns. */
  lemma MirrorReads(c: Config, run: seq<Step>, b: nat, j: nat, k: nat)
    requires c.Valid() && c.mirrored && Legal(c, run) && k < DESCRIPTOR_BYTES
    requires Exec(c, run).batchHead <= b < Exec(c, run).batchFill && j < At(c, Exec(c, run), b).count
    ensures var s := Exec(c, run);
            var e := At(c, s, b);
            var a := (e.start + j) * DESCRIPTOR_BYTES + k;
            && e.start + e.count <= 2 * c.cells && a < 2 * (|s.cells| * DESCRIPTOR_BYTES)
            && MappedByte(s.cells, a) == ByteOf(Fetch(s.cells, e.start, e.count)[j], k)
  {
    DmaSafety(c, run);
    var s := Exec(c, run);
    var e := At(c, s, b);
    FetchedByte(s.cells, e.start, e.count, j, k);
  }

  // The geometry init() sets up for the mirrored submitter.
  ghost function MirrorConfig(slots: nat, batches: nat, maxBatch: nat, pageBits: nat): (c: Config)
    requires Mappable(slots, pageBits) && 1 <= maxBatch && 1 <= batches && maxBatch * batches <= slots
    ensures c.Valid() && c.mirrored
    ensures c.Sound() <==> slots * DESCRIPTOR_BYTES % Bits.Pow2(pageBits) == 0 || maxBatch == 1
  {
    RegionShape(slots, pageBits);
    Config(slots, RegionBytes(slots, pageBits) / DESCRIPTOR_BYTES, batches, maxBatch, true)
  }

  // Every doorbell so far named exactly the descriptors of its batch.
  ghost predicate Delivers(c: Config, s: Ring)
    requires Shaped(c, s)
  {
    Flatten(s.payloads) + Unsealed(c, s) == s.submitted
  }

  // ---------------------------------------------------------------- a bad crossing

  // The cells past the ring's end are never written.
  lemma {:induction false} PaddingStaysZero(c: Config, run: seq<Step>, i: nat)
    requires c.Valid() && Legal(c, run) && c.slots <= i < c.cells
    ensures Exec(c, run).cells[i] == 0
    decreases |run|
  {
    if run != [] {
      PaddingStaysZero(c, run[..|run| - 1], i);
      SlotsPositive(c);
    }
  }

  ghost predicate Idle(c: Config, s: Ring, k: nat)
    requires Shaped(c, s)
  {
    && s.descHead == s.descTail == k && s.batchHead == s.batchFill == k
    && At(c, s, k).state == Free
  }

  ghost function Push(c: Config, run: seq<Step>, step: Step): (r: seq<Step>)
    requires c.Valid() && Legal(c, run) && Enabled(c, Exec(c, run), step)
    ensures Legal(c, r) && Exec(c, r) == Apply(c, Exec(c, run), step)
  {
    Extend(c, run, step);
    run + [step]
  }

  // One descriptor submitted, polled and reclaimed moves every counter by one.
  lemma SingleSteps(c: Config, s: Ring, k: nat)
    requires Inv(c, s) && Idle(c, s, k)
    ensures Enabled(c, s, Open)
    ensures var s1 := Apply(c, s, Open);
            Enabled(c, s1, Append(1)) &&
            var s2 := Apply(c, s1, Append(1));
            Enabled(c, s2, Seal) &&
            var s3 := Apply(c, s2, Seal);
            Enabled(c, s3, Reclaim) && Idle(c, Apply(c, s3, Reclaim), k + 1)
  {
    SlotsPositive(c);
    SameSlot(c, s);
    if c.batches > 1 {
      IndexDistinct(k, k + 1, c.batches);
      assert At(c, s, k + 1).state == Free;
    }
  }

  lemma SingleRoundTrip(c: Config, run: seq<Step>, k: nat) returns (r: seq<Step>)
    requires c.Valid() && Legal(c, run) && Idle(c, Exec(c, run), k)
    ensures Legal(c, r) && Idle(c, Exec(c, r), k + 1)
  {
    RunInv(c, run);
    SingleSteps(c, Exec(c, run), k);
    r := Push(c, Push(c, Push(c, Push(c, run, Open), Append(1)), Seal), Reclaim);
  }

  lemma {:induction false} Singles(c: Config, k: nat) returns (r: seq<Step>)
    requires c.Valid()
    ensures Legal(c, r) && Idle(c, Exec(c, r), k)
  {
    if k == 0 {
      r := [];
    } else {
      var before := Singles(c, k - 1);
      r := SingleRoundTrip(c, before, k - 1);
    }
  }

  // With padding behind the ring and batches of two or more, some run seals a batch
  // across the ring's end and the device is handed padding instead of a descriptor.
  lemma BadCrossing(c: Config) returns (r: seq<Step>)
    requires c.Valid() && c.mirrored && c.slots < c.cells && c.maxBatch >= 2
    ensures Legal(c, r) && !Delivers(c, Exec(c, r))
  {
    SlotsPositive(c);
    Bits.Scaled(c.batches, c.maxBatch);
    var r0 := Singles(c, c.slots - 1);
    RunInv(c, r0);
    CrossingSteps(c, Exec(c, r0));
    var r3 := Push(c, Push(c, Push(c, r0, Open), Append(1)), Append(1));
    RunInv(c, r3);
    PaddingStaysZero(c, r3, c.slots);
    r := Push(c, r3, Seal);
    SealingPadding(c, Exec(c, r3));
  }

  lemma CrossingSteps(c: Config, s: Ring)
    requires Inv(c, s) && c.mirrored && c.maxBatch >= 2 && c.slots >= 2 && Idle(c, s, c.slots - 1)
    ensures Enabled(c, s, Open)
    ensures var s1 := Apply(c, s, Open);
            Enabled(c, s1, Append(1)) &&
            var s2 := Apply(c, s1, Append(1));
            Enabled(c, s2, Append(1)) &&
            var s3 := Apply(c, s2, Append(1));
            && Enabled(c, s3, Seal) && s3.submitted == s.submitted + [1, 1]
            && At(c, s3, s3.batchFill).start == c.slots - 1 && At(c, s3, s3.batchFill).count == 2
  {
    IndexStep(0, c.slots - 1, c.slots);
  }

  lemma SealingPadding(c: Config, s: Ring)
    requires Inv(c, s) && Enabled(c, s, Seal) && c.slots < c.cells && s.cells[c.slots] == 0
    requires At(c, s, s.batchFill).start == c.slots - 1 && At(c, s, s.batchFill).count == 2
    requires |s.submitted| > 0 && s.submitted[|s.submitted| - 1] == 1
    ensures !Delivers(c, Apply(c, s, Seal))
  {
    var t := Apply(c, s, Seal);
    IndexStep(0, c.slots, c.cells);
    var payload := Fetch(s.cells, c.slots - 1, 2);
    assert payload[1] == 0;
    FlattenAppend(s.payloads, payload);
    SealedRecord(c, s);
    var sent := Flatten(t.payloads) + Unsealed(c, t);
    assert sent == Flatten(s.payloads) + payload;
    assert sent[|sent| - 1] == 0;
  }

  /** When the mirror works. Every run of the mirrored submitter hands the device exactly
      the submitted descriptors if and only if the ring fills whole pages or batches
      hold one descriptor each. */
  lemma MirrorWorksIff(slots: nat, batches: nat, maxBatch: nat, pageBits: nat)
    requires Mappable(slots, pageBits) && 1 <= maxBatch && 1 <= batches && maxBatch * batches <= slots
    ensures var c := MirrorConfig(slots, batches, maxBatch, pageBits);
            (forall run :: Legal(c, run) ==> Delivers(c, Exec(c, run)))
            <==> slots * DESCRIPTOR_BYTES % Bits.Pow2(pageBits) == 0 || maxBatch == 1
  {
    var c := MirrorConfig(slots, batches, maxBatch, pageBits);
    if c.Sound() {
      forall run | Legal(c, run) ensures Delivers(c, Exec(c, run)) { DeliversInOrder(c, run); }
    } else {
      var r := BadCrossing(c);
    }
  }

  // 4 KB pages and 16 batches: only a batch size of two breaks the mirror.
  lemma FourKilobytePages(maxBatch: nat, slots: nat)
    requires 1 <= maxBatch && Bits.IsCeilPow2(maxBatch * DEFAULT_NUM_BATCHES, slots)
    ensures slots * DESCRIPTOR_BYTES % Bits.Pow2(12) == 0 || maxBatch == 1 <==> maxBatch != 2
  {
    assert Bits.Pow2(3) == 8;
    assert Bits.Pow2(6) == 64;
    assert Bits.Pow2(9) == 512;
    assert Bits.Pow2(12) == 4096;
    if maxBatch == 2 {
      assert Bits.Pow2(5) == 32;
    } else if maxBatch > 2 {
      var k: nat :| Bits.Pow2(k) == slots;
      assert Bits.Pow2(5) == 32;
      if k < 6 { Bits.Pow2Monotone(k, 5); }
      MultipleOf64(k);
    }
  }

  lemma {:induction false} MultipleOf64(k: nat)
    requires k >= 6
    ensures Bits.Pow2(k) % 64 == 0
  {
    assert Bits.Pow2(3) == 8;
    assert Bits.Pow2(6) == 64;
    if k > 6 { MultipleOf64(k - 1); }
  }
}
