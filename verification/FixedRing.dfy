/**
 `FixedRingSubmitter`: a ring of batch entries, each with a descriptor array of its own.

 Unlike the shared descriptor ring, an entry that held a single descriptor is free again
 as soon as its doorbell rang, while the oldest-batch counter stays behind; so that
 counter may lag the filling one by more than the ring's length, and reclaiming has to
 step over free entries.
 */
module FixedRings {
  import opened Submission
  import Bits

  datatype Config = Config(batches: nat, maxBatch: nat) {
    ghost predicate Valid() { 1 <= batches && 1 <= maxBatch }
  }

  datatype EntryState = Free | Filling | InFlight

  datatype Entry = Entry(descs: seq<Descriptor>, count: nat, state: EntryState, status: nat)

  /** The submitter's fields, the history of descriptors, doorbells and device reads, and
      for each entry the number of the last batch sealed in it. */
  datatype Ring = Ring(entries: seq<Entry>, batchFill: nat, batchHead: nat, inflight: nat,
                       submitted: seq<Descriptor>, payloads: seq<seq<Descriptor>>,
                       fetched: map<nat, seq<Descriptor>>, sealedAs: seq<nat>)

  function Init(c: Config): Ring {
    Ring(seq(c.batches, i => Entry(seq(c.maxBatch, j => 0), 0, Free, 0)), 0, 0, 0, [], [], map[], seq(c.batches, i => 0))
  }

  datatype Step =
    | Open | Append(desc: Descriptor) | Seal
    | SkipFree              // the oldest position's entry is free already
    | Reclaim
    | Complete(entry: nat)  // device

  ghost predicate Shaped(c: Config, s: Ring) {
    && c.Valid() && |s.entries| == c.batches && |s.sealedAs| == c.batches
    && forall i :: 0 <= i < c.batches ==> |s.entries[i].descs| == c.maxBatch && s.entries[i].count <= c.maxBatch
  }

  function At(c: Config, s: Ring, b: nat): Entry
    requires 0 < c.batches == |s.entries|
  {
    s.entries[Index(b, c.batches)]
  }

  ghost predicate Enabled(c: Config, s: Ring, step: Step)
    requires Shaped(c, s)
  {
    var current, oldest := At(c, s, s.batchFill), At(c, s, s.batchHead);
    match step
    case Open => current.state == Free
    case Append(_) => current.state == Filling && current.count < c.maxBatch
    case Seal => current.state == Filling && current.count > 0
    case SkipFree => s.batchHead != s.batchFill && oldest.state == Free
    case Reclaim => s.batchHead != s.batchFill && oldest.state == InFlight && oldest.status != 0
    case Complete(i) => i < c.batches && s.entries[i].state == InFlight && s.entries[i].status == 0
  }

  ghost function Apply(c: Config, s: Ring, step: Step): (t: Ring)
    requires Shaped(c, s) && Enabled(c, s, step)
    ensures Shaped(c, t)
  {
    var f, h := Index(s.batchFill, c.batches), Index(s.batchHead, c.batches);
    var current := s.entries[f];
    match step
    case Open =>
      s.(entries := s.entries[f := current.(state := Filling, count := 0, status := 0)])
    case Append(d) =>
      s.(entries := s.entries[f := current.(descs := current.descs[current.count := d], count := current.count + 1)],
         submitted := s.submitted + [d])
    case Seal =>
      var payload := current.descs[..current.count];
      var single := current.count == 1;
      s.(entries := s.entries[f := current.(state := if single then Free else InFlight)],
         batchFill := s.batchFill + 1,
         inflight := if single then NotifyComplete(s.inflight + 1, 1) else s.inflight + 1,
         payloads := s.payloads + [payload],
         fetched := if single then s.fetched[s.batchFill := payload] else s.fetched,
         sealedAs := s.sealedAs[f := s.batchFill])
    case SkipFree => s.(batchHead := s.batchHead + 1)
    case Reclaim =>
      s.(entries := s.entries[h := s.entries[h].(state := Free)],
         inflight := NotifyComplete(s.inflight, 1),
         batchHead := s.batchHead + 1)
    case Complete(i) =>
      s.(entries := s.entries[i := s.entries[i].(status := 1)],
         fetched := s.fetched[s.sealedAs[i] := s.entries[i].descs[..s.entries[i].count]])
  }

  ghost predicate Legal(c: Config, run: seq<Step>)
    requires c.Valid()
    decreases |run|, 0
  {
    run == [] || (Legal(c, run[..|run| - 1]) && Enabled(c, Exec(c, run[..|run| - 1]), run[|run| - 1]))
  }

  ghost function Exec(c: Config, run: seq<Step>): (s: Ring)
    requires c.Valid() && Legal(c, run)
    ensures Shaped(c, s)
    decreases |run|, 1
  {
    if run == [] then Init(c) else Apply(c, Exec(c, run[..|run| - 1]), run[|run| - 1])
  }

  lemma Extend(c: Config, run: seq<Step>, step: Step)
    requires c.Valid() && Legal(c, run) && Enabled(c, Exec(c, run), step)
    ensures Legal(c, run + [step])
    ensures Exec(c, run + [step]) == Apply(c, Exec(c, run), step)
  {
    assert (run + [step])[..|run|] == run;
  }

  // ---------------------------------------------------------------- invariant

  function InFlightEntries(entries: seq<Entry>): set<nat> {
    set i: nat | i < |entries| && entries[i].state == InFlight
  }

  ghost function Unsealed(c: Config, s: Ring): seq<Descriptor>
    requires Shaped(c, s)
  {
    var e := At(c, s, s.batchFill);
    if e.state == Filling then e.descs[..e.count] else []
  }

  // Entry i is in flight as batch b = sealedAs[i]: not yet passed by the oldest-batch
  // counter, and not a full turn behind the filling one.
  ghost predicate FlightOk(c: Config, s: Ring, i: nat)
    requires Shaped(c, s) && i < c.batches
  {
    var b, e := s.sealedAs[i], s.entries[i];
    && s.batchHead <= b < s.batchFill <= b + c.batches && Index(b, c.batches) == i
    && b < |s.payloads| && e.descs[..e.count] == s.payloads[b]
    && (e.status != 0 <==> b in s.fetched)
  }

  ghost predicate Entries(c: Config, s: Ring)
    requires Shaped(c, s)
  {
    && (forall i: nat :: i < c.batches && s.entries[i].state == InFlight ==> FlightOk(c, s, i))
    && (forall i: nat :: i < c.batches && s.entries[i].state == Filling ==> i == Index(s.batchFill, c.batches) && s.entries[i].status == 0)
  }

  // Batch b has been read by the device, or is the one its entry holds in flight.
  ghost predicate Accounted(c: Config, s: Ring, b: nat)
    requires Shaped(c, s)
  {
    b in s.fetched || (At(c, s, b).state == InFlight && s.sealedAs[Index(b, c.batches)] == b)
  }

  ghost predicate History(c: Config, s: Ring)
    requires Shaped(c, s)
  {
    && s.batchHead <= s.batchFill == |s.payloads|
    && Flatten(s.payloads) + Unsealed(c, s) == s.submitted
    && (forall b :: b in s.fetched ==> b < |s.payloads| && s.fetched[b] == s.payloads[b])
    && (forall b: nat :: b < s.batchFill ==> Accounted(c, s, b))
  }

  ghost predicate Inv(c: Config, s: Ring) {
    Shaped(c, s) && Entries(c, s) && History(c, s) && s.inflight == |InFlightEntries(s.entries)|
  }

  // ---------------------------------------------------------------- preservation

  lemma InitInv(c: Config)
    requires c.Valid()
    ensures Inv(c, Init(c))
  {
    assert InFlightEntries(Init(c).entries) == {};
  }

  lemma OpenKeepsInv(c: Config, s: Ring)
    requires Inv(c, s) && Enabled(c, s, Open)
    ensures Inv(c, Apply(c, s, Open))
  {
    var t := Apply(c, s, Open);
    assert InFlightEntries(t.entries) == InFlightEntries(s.entries);
    forall i: nat | i < c.batches && t.entries[i].state == InFlight ensures FlightOk(c, t, i) {
      assert FlightOk(c, s, i);
    }
    forall b: nat | b < t.batchFill ensures Accounted(c, t, b) { assert Accounted(c, s, b); }
  }

  lemma AppendKeepsInv(c: Config, s: Ring, d: Descriptor)
    requires Inv(c, s) && Enabled(c, s, Append(d))
    ensures Inv(c, Apply(c, s, Append(d)))
  {
    var t := Apply(c, s, Append(d));
    assert InFlightEntries(t.entries) == InFlightEntries(s.entries);
    assert Unsealed(c, t) == Unsealed(c, s) + [d];
    assert Flatten(t.payloads) + Unsealed(c, t) == t.submitted;
    forall i: nat | i < c.batches && t.entries[i].state == InFlight ensures FlightOk(c, t, i) {
      assert FlightOk(c, s, i);
    }
    forall b: nat | b < t.batchFill ensures Accounted(c, t, b) { assert Accounted(c, s, b); }
  }

  // No entry in flight is exactly one turn behind an entry that is not.
  lemma NoLap(c: Config, s: Ring, i: nat)
    requires Inv(c, s) && i < c.batches && s.entries[i].state == InFlight && At(c, s, s.batchFill).state != InFlight
    ensures s.batchFill < s.sealedAs[i] + c.batches
  {
    assert FlightOk(c, s, i);
    IndexStep(s.sealedAs[i], c.batches, c.batches);
  }

  lemma SealKeepsEntries(c: Config, s: Ring)
    requires Inv(c, s) && Enabled(c, s, Seal)
    ensures Entries(c, Apply(c, s, Seal))
  {
    var t := Apply(c, s, Seal);
    forall i: nat | i < c.batches && t.entries[i].state == InFlight ensures FlightOk(c, t, i) {
      if i != Index(s.batchFill, c.batches) {
        assert FlightOk(c, s, i);
        NoLap(c, s, i);
      }
    }
  }

  lemma SealedEntry(c: Config, s: Ring)
    requires Inv(c, s) && Enabled(c, s, Seal)
    ensures var t := Apply(c, s, Seal); At(c, t, t.batchFill).state != Filling
  {
    if c.batches > 1 { IndexDistinct(s.batchFill, s.batchFill + 1, c.batches); }
    else { IndexStep(s.batchFill, 1, 1); }
  }

  lemma SealKeepsHistory(c: Config, s: Ring)
    requires Inv(c, s) && Enabled(c, s, Seal)
    ensures History(c, Apply(c, s, Seal))
  {
    var t := Apply(c, s, Seal);
    var f := Index(s.batchFill, c.batches);
    FlattenAppend(s.payloads, Unsealed(c, s));
    SealedEntry(c, s);
    forall b: nat | b < t.batchFill ensures Accounted(c, t, b) {
      if b < s.batchFill { assert Accounted(c, s, b); }
    }
  }

  lemma SealKeepsInv(c: Config, s: Ring)
    requires Inv(c, s) && Enabled(c, s, Seal)
    ensures Inv(c, Apply(c, s, Seal))
  {
    SealKeepsEntries(c, s);
    SealKeepsHistory(c, s);
    SealInFlight(c, s);
  }

  lemma SealInFlight(c: Config, s: Ring)
    requires Inv(c, s) && Enabled(c, s, Seal)
    ensures var t := Apply(c, s, Seal); t.inflight == |InFlightEntries(t.entries)|
  {
    var t := Apply(c, s, Seal);
    var f := Index(s.batchFill, c.batches);
    if s.entries[f].count == 1 {
      assert InFlightEntries(t.entries) == InFlightEntries(s.entries);
    } else {
      assert InFlightEntries(t.entries) == InFlightEntries(s.entries) + {f};
    }
  }

  lemma SkipFreeKeepsInv(c: Config, s: Ring)
    requires Inv(c, s) && Enabled(c, s, SkipFree)
    ensures Inv(c, Apply(c, s, SkipFree))
  {
    var t := Apply(c, s, SkipFree);
    forall i: nat | i < c.batches && t.entries[i].state == InFlight ensures FlightOk(c, t, i) {
      assert FlightOk(c, s, i);
    }
    forall b: nat | b < t.batchFill ensures Accounted(c, t, b) { assert Accounted(c, s, b); }
  }

  lemma ReclaimEntries(c: Config, s: Ring)
    requires Inv(c, s) && Enabled(c, s, Reclaim)
    ensures Entries(c, Apply(c, s, Reclaim))
  {
    var t := Apply(c, s, Reclaim);
    assert FlightOk(c, s, Index(s.batchHead, c.batches));
    forall i: nat | i < c.batches && t.entries[i].state == InFlight ensures FlightOk(c, t, i) {
      assert FlightOk(c, s, i);
    }
  }

  lemma ReclaimHistory(c: Config, s: Ring)
    requires Inv(c, s) && Enabled(c, s, Reclaim)
    ensures History(c, Apply(c, s, Reclaim))
  {
    var t := Apply(c, s, Reclaim);
    assert FlightOk(c, s, Index(s.batchHead, c.batches));
    assert Unsealed(c, t) == Unsealed(c, s);
    forall b: nat | b < t.batchFill ensures Accounted(c, t, b) { assert Accounted(c, s, b); }
  }

  lemma ReclaimCounts(c: Config, s: Ring)
    requires Inv(c, s) && Enabled(c, s, Reclaim)
    ensures var t := Apply(c, s, Reclaim); t.inflight == |InFlightEntries(t.entries)|
  {
    var h := Index(s.batchHead, c.batches);
    assert h in InFlightEntries(s.entries);
    assert InFlightEntries(Apply(c, s, Reclaim).entries) == InFlightEntries(s.entries) - {h};
  }

  lemma ReclaimKeepsInv(c: Config, s: Ring)
    requires Inv(c, s) && Enabled(c, s, Reclaim)
    ensures Inv(c, Apply(c, s, Reclaim))
  {
    ReclaimEntries(c, s);
    ReclaimHistory(c, s);
    ReclaimCounts(c, s);
  }

  lemma CompleteKeepsInv(c: Config, s: Ring, i: nat)
    requires Inv(c, s) && Enabled(c, s, Complete(i))
    ensures Inv(c, Apply(c, s, Complete(i)))
  {
    var t := Apply(c, s, Complete(i));
    assert InFlightEntries(t.entries) == InFlightEntries(s.entries);
    assert FlightOk(c, s, i);
    forall j: nat | j < c.batches && t.entries[j].state == InFlight ensures FlightOk(c, t, j) {
      assert FlightOk(c, s, j);
    }
    forall b: nat | b < t.batchFill ensures Accounted(c, t, b) { assert Accounted(c, s, b); }
  }

  lemma {:induction false} RunInv(c: Config, run: seq<Step>)
    requires c.Valid() && Legal(c, run)
    ensures Inv(c, Exec(c, run))
    decreases |run|
  {
    if run == [] {
      InitInv(c);
    } else {
      var s := Exec(c, run[..|run| - 1]);
      RunInv(c, run[..|run| - 1]);
      match run[|run| - 1]
      case Open => OpenKeepsInv(c, s);
      case Append(d) => AppendKeepsInv(c, s, d);
      case Seal => SealKeepsInv(c, s);
      case SkipFree => SkipFreeKeepsInv(c, s);
      case Reclaim => ReclaimKeepsInv(c, s);
      case Complete(i) => CompleteKeepsInv(c, s, i);
    }
  }

  // ---------------------------------------------------------------- what every run keeps

  /** After every run: inflight() is the number of entries in flight; each of them is a
      batch the oldest-batch counter has not passed and still holds the descriptors it was
      sealed with. */
  lemma FixedAccounting(c: Config, run: seq<Step>)
    requires c.Valid() && Legal(c, run)
    ensures var s := Exec(c, run); s.inflight == |InFlightEntries(s.entries)|
    ensures var s := Exec(c, run); forall i: nat :: i in InFlightEntries(s.entries) ==>
              && s.batchHead <= s.sealedAs[i] < s.batchFill
              && s.sealedAs[i] < |s.payloads| && s.entries[i].descs[..s.entries[i].count] == s.payloads[s.sealedAs[i]]
  {
    RunInv(c, run);
    var s := Exec(c, run);
    forall i: nat | i in InFlightEntries(s.entries)
      ensures s.batchHead <= s.sealedAs[i] < s.batchFill
      ensures s.sealedAs[i] < |s.payloads| && s.entries[i].descs[..s.entries[i].count] == s.payloads[s.sealedAs[i]]
    {
      assert FlightOk(c, s, i);
    }
  }

  /** Refinement of the direct submitter: doorbells laid end to end, then the open batch,
      are the submitted descriptors in order, and the device read what the doorbells named. */
  lemma FixedDeliversInOrder(c: Config, run: seq<Step>)
    requires c.Valid() && Legal(c, run)
    ensures var s := Exec(c, run);
            && Flatten(s.payloads) + Unsealed(c, s) == s.submitted
            && forall b :: b in s.fetched ==> b < |s.payloads| && s.fetched[b] == s.payloads[b]
  {
    RunInv(c, run);
  }

  // An entry in flight keeps the oldest-batch counter behind, so when reclaiming has
  // stopped and nothing is filling, the oldest batch is unfinished device work.
  lemma StoppedOnDevice(c: Config, s: Ring, i: nat)
    requires Inv(c, s) && i < c.batches && s.entries[i].state == InFlight
    requires At(c, s, s.batchFill).state != Filling
    requires !Enabled(c, s, SkipFree) && !Enabled(c, s, Reclaim)
    ensures Enabled(c, s, Complete(Index(s.batchHead, c.batches)))
  {
    assert FlightOk(c, s, i);
  }

  // ---------------------------------------------------------------- the submitter

  /** The submitter's fields, updated in place; every state change is a step added to
      `run`, as in RingSubmitters.RingSubmitter. `device` is the device's schedule: the
      entries it completes in each turn of a spin loop. */
  class FixedRingSubmitter {
    const config: Config
    const entries: array<Entry>
    var batchFill: nat
    var batchHead: nat
    var inflight: nat

    ghost var run: seq<Step>
    ghost var model: Ring

    ghost predicate Valid()
      reads this, entries
    {
      && config.Valid() && Bits.IsPow2(config.batches) && Legal(config, run) && model == Exec(config, run)
      && model.entries == entries[..] && model.batchFill == batchFill && model.batchHead == batchHead
      && model.inflight == inflight
    }

    ghost function CurrentEntry(): Entry
      requires Valid()
      reads this, entries
    {
      At(config, model, batchFill)
    }

    // Between operations an open batch is neither empty nor full.
    ghost predicate Ready()
      reads this, entries
    {
      Valid() && (CurrentEntry().state == Filling ==> 0 < CurrentEntry().count < config.maxBatch)
    }

    constructor (requested: nat, wqMax: int)
      ensures Ready() && fresh(entries) && run == []
      ensures config == Config(DEFAULT_NUM_BATCHES, BatchSize(requested, wqMax))
    {
      var k := BatchSize(requested, wqMax);
      config := Config(DEFAULT_NUM_BATCHES, k);
      entries := new Entry[DEFAULT_NUM_BATCHES](_ => Entry(seq(k, j => 0), 0, Free, 0));
      batchFill, batchHead, inflight := 0, 0, 0;
      run, model := [], Init(Config(DEFAULT_NUM_BATCHES, k));
      new;
      assert Bits.IsPow2(16) by { assert Bits.Pow2(4) == 16; }
      assert entries[..] == Init(config).entries;
    }

    // inflight() is exact.
    method Inflight() returns (n: nat)
      requires Valid()
      ensures n == |InFlightEntries(entries[..])|
    {
      FixedAccounting(config, run);
      n := inflight;
    }

    // The run went on, without a descriptor being added or a doorbell rung.
    ghost predicate Since(before: seq<Step>, was: Ring)
      reads this
    {
      before <= run && model.submitted == was.submitted && model.payloads == was.payloads
    }

    // The number of descriptors in the open batch.
    ghost function OpenCount(): nat
      requires Valid()
      reads this, entries
    {
      if CurrentEntry().state == Filling then CurrentEntry().count else 0
    }

    // The machine takes a step; the fields must follow.
    ghost method Log(step: Step)
      requires config.Valid() && Legal(config, run) && model == Exec(config, run) && Enabled(config, model, step)
      modifies this`run, this`model
      ensures Legal(config, run) && model == Exec(config, run)
      ensures run == old(run) + [step] && model == Apply(config, old(model), step)
    {
      Extend(config, run, step);
      run, model := run + [step], Apply(config, model, step);
    }

    // The device reads the batch of entry i, then writes its completion record.
    method CompleteOne(i: nat)
      requires Valid() && Enabled(config, model, Complete(i))
      modifies this`run, this`model, entries
      ensures Valid() && run == old(run) + [Complete(i)] && model == Apply(config, old(model), Complete(i))
    {
      Log(Complete(i));
      entries[i] := entries[i].(status := 1);
    }

    method ReclaimOne()
      requires Valid() && Enabled(config, model, Reclaim)
      modifies this`batchHead, this`inflight, this`run, this`model, entries
      ensures Valid() && run == old(run) + [Reclaim] && model == Apply(config, old(model), Reclaim)
    {
      Log(Reclaim);
      var i := Masked(batchHead, config.batches);
      entries[i] := entries[i].(state := Free);
      inflight := NotifyComplete(inflight, 1);
      batchHead := batchHead + 1;
    }

    method SkipOne()
      requires Valid() && Enabled(config, model, SkipFree)
      modifies this`batchHead, this`run, this`model
      ensures Valid() && run == old(run) + [SkipFree] && model == Apply(config, old(model), SkipFree)
    {
      Log(SkipFree);
      batchHead := batchHead + 1;
    }

    method SubmitBatch()
      requires Valid() && Enabled(config, model, Seal)
      modifies this`inflight, this`batchFill, this`run, this`model, entries
      ensures Valid() && run == old(run) + [Seal] && model == Apply(config, old(model), Seal)
    {
      Log(Seal);
      var i := Masked(batchFill, config.batches);
      if entries[i].count == 1 {
        inflight := inflight + 1;
        inflight := NotifyComplete(inflight, 1);
        entries[i] := entries[i].(state := Free);
      } else {
        inflight := inflight + 1;
        entries[i] := entries[i].(state := InFlight);
      }
      batchFill := batchFill + 1;
    }

    method OpenCurrent()
      requires Valid() && Enabled(config, model, Open)
      modifies this`run, this`model, entries
      ensures Valid() && run == old(run) + [Open] && model == Apply(config, old(model), Open)
    {
      Log(Open);
      var i := Masked(batchFill, config.batches);
      entries[i] := entries[i].(state := Filling, count := 0, status := 0);
    }

    method CopyIn(desc: Descriptor)
      requires Valid() && Enabled(config, model, Append(desc))
      modifies this`run, this`model, entries
      ensures Valid() && run == old(run) + [Append(desc)] && model == Apply(config, old(model), Append(desc))
    {
      Log(Append(desc));
      var i := Masked(batchFill, config.batches);
      entries[i] := entries[i].(descs := entries[i].descs[entries[i].count := desc], count := entries[i].count + 1);
    }

    lemma HeadBehind()
      requires Valid()
      ensures Inv(config, model) && batchHead <= batchFill
    {
      RunInv(config, run);
    }

    // Only entries in flight changed state, and those only to Free.
    ghost predicate Released(before: seq<Entry>)
      reads this, entries
    {
      |before| == entries.Length &&
      forall i :: 0 <= i < entries.Length ==>
        && entries[i].count == before[i].count
        && (entries[i].state == before[i].state || (before[i].state == InFlight && entries[i].state == Free))
    }

    method DeviceStep(completions: set<nat>)
      requires Valid()
      modifies this`run, this`model, entries
      ensures Valid() && Since(old(run), old(model)) && Released(old(entries[..]))
    {
      for i := 0 to config.batches
        invariant Valid() && Since(old(run), old(model)) && Released(old(entries[..]))
      {
        if i in completions && entries[i].state == InFlight && entries[i].status == 0 {
          CompleteOne(i);
        }
      }
    }

    /** Moves the oldest-batch counter over free and completed entries, up to the first
        one that is neither. */
    method ReclaimCompleted()
      requires Valid()
      modifies this`batchHead, this`inflight, this`run, this`model, entries
      ensures Valid() && Since(old(run), old(model)) && Released(old(entries[..]))
      ensures !Enabled(config, model, SkipFree) && !Enabled(config, model, Reclaim)
    {
      HeadBehind();
      while batchHead != batchFill
        invariant Valid() && Since(old(run), old(model)) && Released(old(entries[..])) && batchHead <= batchFill
        decreases batchFill - batchHead
      {
        var i := Masked(batchHead, config.batches);
        assert entries[i] == At(config, model, batchHead);
        if entries[i].state == Free {
          SkipOne();
          continue;
        }
        if entries[i].state != InFlight {
          break;
        }
        if entries[i].status == 0 {
          break;
        }
        ReclaimOne();
      }
    }

    method SealAndSubmitCurrent()
      requires Valid()
      modifies this`batchHead, this`batchFill, this`inflight, this`run, this`model, entries
      ensures Valid() && old(run) <= run && model.submitted == old(model.submitted)
      ensures Rang(old(model.payloads), model.payloads, old(OpenCount()))
      ensures old(Enabled(config, model, Seal)) ==> CurrentEntry().state == Free || (CurrentEntry().state == InFlight && !Enabled(config, model, Reclaim))
      ensures !old(Enabled(config, model, Seal)) ==> model == old(model)
    {
      var i := Masked(batchFill, config.batches);
      assert entries[i] == CurrentEntry();
      if entries[i].state != Filling || entries[i].count == 0 {
        return;
      }
      NextNotFilling();
      SubmitBatch();
      var next := Masked(batchFill, config.batches);
      assert entries[next] == CurrentEntry();
      if entries[next].state != Free {
        ReclaimCompleted();
        assert entries[next] == CurrentEntry();
      }
    }

    lemma NextNotFilling()
      requires Valid() && Enabled(config, model, Seal)
      ensures var t := Apply(config, model, Seal); At(config, t, t.batchFill).state != Filling
    {
      RunInv(config, run);
      SealedEntry(config, model);
    }

    /** Spins until entry i is no longer in flight. */
    method WaitForEntry(i: nat, device: seq<set<nat>>, turn: nat) returns (ok: bool, next: nat)
      requires Valid() && i < config.batches && turn <= |device|
      requires entries[i].state == InFlight ==> CurrentEntry().state != Filling
      modifies this`batchHead, this`inflight, this`run, this`model, entries
      ensures Valid() && Since(old(run), old(model)) && turn <= next <= |device| && Released(old(entries[..]))
      ensures ok ==> entries[i].state != InFlight
      ensures !ok ==> old(entries[i].state) == entries[i].state == InFlight && Enabled(config, model, Complete(Index(batchHead, config.batches)))
    {
      next := turn;
      ghost var current := Masked(batchFill, config.batches);
      while entries[i].state == InFlight
        invariant Valid() && Since(old(run), old(model)) && turn <= next <= |device| && Released(old(entries[..]))
        invariant entries[i].state == InFlight ==> entries[current].state != Filling
        decreases |device| - next, if entries[i].state == InFlight then 1 else 0
      {
        ReclaimCompleted();
        if entries[i].state == InFlight {
          if next == |device| {
            Stuck(i);
            return false, next;
          }
          DeviceStep(device[next]);
          next := next + 1;
        }
      }
      ok := true;
    }

    lemma Stuck(i: nat)
      requires Valid() && i < config.batches && entries[i].state == InFlight && CurrentEntry().state != Filling
      requires !Enabled(config, model, SkipFree) && !Enabled(config, model, Reclaim)
      ensures Enabled(config, model, Complete(Index(batchHead, config.batches)))
    {
      RunInv(config, run);
      StoppedOnDevice(config, model, i);
    }

    // Copies one descriptor into the current entry, opening it first if it is free, and
    // seals it at the limit.
    method AppendOne(desc: Descriptor)
      requires Ready() && CurrentEntry().state != InFlight
      modifies this, entries
      ensures Ready() && old(run) <= run && model.submitted == old(model.submitted) + [desc]
      ensures var n := old(OpenCount()) + 1;
              && Rang(old(model.payloads), model.payloads, if n == config.maxBatch then n else 0)
              && OpenCount() == if n == config.maxBatch then 0 else n
    {
      var i := Masked(batchFill, config.batches);
      assert entries[i] == CurrentEntry();
      if entries[i].state == Free {
        OpenCurrent();
      }
      CopyIn(desc);
      assert entries[i] == CurrentEntry();
      if entries[i].count >= config.maxBatch {
        SealAndSubmitCurrent();
      }
    }

    /** A doorbell rings exactly when the descriptor fills its batch, and is that batch's;
        the call waits only if the current entry is in flight. */
    method SubmitDescriptor(desc: Descriptor, device: seq<set<nat>>) returns (done: bool)
      requires Ready()
      modifies this, entries
      ensures Valid() && old(run) <= run
      ensures done ==> Ready() && model.submitted == old(model.submitted) + [desc]
      ensures var n := old(OpenCount()) + 1;
              done ==> && Rang(old(model.payloads), model.payloads, if n == config.maxBatch then n else 0)
                       && OpenCount() == if n == config.maxBatch then 0 else n
      ensures !done ==> model.submitted == old(model.submitted) && model.payloads == old(model.payloads)
      ensures !done ==> old(CurrentEntry().state) == CurrentEntry().state == InFlight
      ensures !done ==> Enabled(config, model, Complete(Index(batchHead, config.batches)))
    {
      var i, next := Masked(batchFill, config.batches), 0;
      assert entries[i] == CurrentEntry();
      done, next := WaitForEntry(i, device, 0);
      assert entries[i] == CurrentEntry();
      if !done { return; }
      AppendOne(desc);
    }

    method PrePoll()
      requires Ready()
      modifies this, entries
      ensures Ready() && old(run) <= run && model.submitted == old(model.submitted)
      ensures Rang(old(model.payloads), model.payloads, old(OpenCount()))
      ensures CurrentEntry().state != Filling && Flatten(model.payloads) == model.submitted
      ensures !Enabled(config, model, SkipFree) && !Enabled(config, model, Reclaim)
    {
      SealAndSubmitCurrent();
      ghost var current := Masked(batchFill, config.batches);
      assert entries[current] == CurrentEntry();
      ReclaimCompleted();
      assert entries[current] == CurrentEntry();
      HeadBehind();
    }

    method WaitForAll(device: seq<set<nat>>) returns (ok: bool)
      requires Valid() && CurrentEntry().state != Filling
      modifies this`batchHead, this`inflight, this`run, this`model, entries
      ensures Valid() && Since(old(run), old(model)) && CurrentEntry().state != Filling
      ensures ok ==> forall j :: 0 <= j < entries.Length ==> entries[j].state != InFlight
      ensures !ok ==> Enabled(config, model, Complete(Index(batchHead, config.batches)))
    {
      var next := 0;
      ghost var current := Masked(batchFill, config.batches);
      for i := 0 to config.batches
        invariant Valid() && Since(old(run), old(model)) && next <= |device| && entries[current].state != Filling
        invariant forall j :: 0 <= j < i ==> entries[j].state != InFlight
      {
        ok, next := WaitForEntry(i, device, next);
        if !ok { return; }
      }
      ok := true;
    }

    /** After drain nothing is filling or in flight, inflight() is 0, and the device has
        read every descriptor submitted. */
    method Drain(device: seq<set<nat>>) returns (done: bool)
      requires Ready()
      modifies this, entries
      ensures Ready() && old(run) <= run && model.submitted == old(model.submitted)
      ensures Rang(old(model.payloads), model.payloads, old(OpenCount()))
      ensures done ==> forall i :: 0 <= i < entries.Length ==> entries[i].state == Free
      ensures done ==> inflight == 0 && Flatten(model.payloads) == model.submitted
      ensures done ==> forall b: nat :: b < |model.payloads| ==> b in model.fetched
      ensures !done ==> Enabled(config, model, Complete(Index(batchHead, config.batches)))
    {
      SealAndSubmitCurrent();
      done := WaitForAll(device);
      if done { Quiescent(); }
    }

    lemma Quiescent()
      requires Valid() && CurrentEntry().state != Filling
      requires forall j :: 0 <= j < entries.Length ==> entries[j].state != InFlight
      ensures forall i :: 0 <= i < entries.Length ==> entries[i].state == Free
      ensures inflight == 0 && Flatten(model.payloads) == model.submitted
      ensures forall b: nat :: b < |model.payloads| ==> b in model.fetched
    {
      HeadBehind();
      assert InFlightEntries(entries[..]) == {};
      forall b: nat | b < |model.payloads| ensures b in model.fetched { assert Accounted(config, model, b); }
    }
  }
}
