/**
 The machine behind `RingSubmitter` and `MirroredRingSubmitter`: a descriptor ring
 and a ring of batch records over it, stepped by the driver and by the device.

 A driver step is one state change of the submitter's code; a device step may fall
 between any two of them. The device reads the descriptors of a batch from memory
 (`Fetch`) at some moment between the doorbell and the completion, and the machine
 records what it saw.
 */
module BatchRing {
  import opened Submission
  import Bits

  /** Geometry of one submitter. `slots` is the ring size the driver computes with,
      `cells` the number of descriptor-sized cells actually backing it: equal for the
      plain ring, rounded up to whole pages for the mirrored one. */
  datatype Config = Config(slots: nat, cells: nat, batches: nat, maxBatch: nat, mirrored: bool) {
    ghost predicate Valid() {
      1 <= maxBatch && 1 <= batches && maxBatch * batches <= slots <= cells
    }

    // The second mapping continues the ring where it ends, or is never needed.
    ghost predicate Sound() {
      mirrored ==> cells == slots || maxBatch == 1
    }
  }

  datatype BatchState = Free | Filling | InFlight

  datatype Batch = Batch(start: nat, count: nat, state: BatchState, status: nat)

  /** The submitter's fields, and the history they are judged by:
      `submitted`  every descriptor handed to submit_descriptor, in order;
      `payloads`   per doorbell, the memory it named at the time it rang;
      `fetched`    per doorbell, what the device read from memory;
      `cuts`       the position in `submitted` where each batch begins. */
  datatype Ring = Ring(cells: seq<Descriptor>, batches: seq<Batch>,
                       descHead: nat, descTail: nat, batchHead: nat, batchFill: nat, inflight: nat,
                       submitted: seq<Descriptor>, payloads: seq<seq<Descriptor>>,
                       fetched: map<nat, seq<Descriptor>>, cuts: seq<nat>)

  function Init(c: Config): Ring {
    Ring(seq(c.cells, i => 0), seq(c.batches, i => Batch(0, 0, Free, 0)), 0, 0, 0, 0, 0, [], [], map[], [0])
  }

  datatype Step =
    | Open                    // a Free record becomes the Filling one
    | Append(desc: Descriptor) // copy a descriptor into the ring
    | Seal                    // ring the doorbell of the current batch
    | Reclaim                 // release the oldest batch, whose completion was seen
    | Complete(batch: nat)    // device: fetch the batch, then write its completion

  ghost predicate Shaped(c: Config, s: Ring) {
    c.Valid() && |s.cells| == c.cells && |s.batches| == c.batches
  }

  function At(c: Config, s: Ring, b: nat): Batch
    requires c.batches > 0 && |s.batches| == c.batches
  {
    s.batches[Index(b, c.batches)]
  }

  // What a read of count cells from cell start on returns: past the last cell the
  // second mapping begins again at the first.
  function Fetch(cells: seq<Descriptor>, start: nat, count: nat): (r: seq<Descriptor>)
    requires |cells| > 0
    ensures |r| == count
  {
    seq(count, j requires 0 <= j < count => cells[Index(start + j, |cells|)])
  }

  function Available(c: Config, s: Ring): int {
    c.slots - (s.descTail - s.descHead)
  }

  ghost predicate Enabled(c: Config, s: Ring, step: Step)
    requires Shaped(c, s)
  {
    var current := At(c, s, s.batchFill);
    match step
    case Open => current.state == Free
    case Append(_) =>
      && current.state == Filling && current.count < c.maxBatch && Available(c, s) > 0
      && !(!c.mirrored && current.count > 0 && Index(s.descTail, c.slots) == 0)
    case Seal => current.state == Filling && current.count > 0
    case Reclaim => s.batchHead != s.batchFill && At(c, s, s.batchHead).state == InFlight && At(c, s, s.batchHead).status != 0
    case Complete(b) => s.batchHead <= b < s.batchFill && At(c, s, b).state == InFlight && At(c, s, b).status == 0
  }

  ghost function Apply(c: Config, s: Ring, step: Step): (t: Ring)
    requires Shaped(c, s) && Enabled(c, s, step)
    ensures Shaped(c, t)
  {
    var fill := Index(s.batchFill, c.batches);
    var current := s.batches[fill];
    match step
    case Open =>
      s.(batches := s.batches[fill := Batch(Index(s.descTail, c.slots), 0, Filling, 0)])
    case Append(d) =>
      s.(cells := s.cells[Index(s.descTail, c.slots) := d],
         batches := s.batches[fill := current.(count := current.count + 1)],
         descTail := s.descTail + 1,
         submitted := s.submitted + [d])
    case Seal =>
      // A single descriptor travels in the doorbell itself and counts as completed
      // at once; a longer batch is named by address.
      var payload := Fetch(s.cells, current.start, current.count);
      s.(batches := s.batches[fill := current.(state := InFlight, status := if current.count == 1 then 1 else current.status)],
         batchFill := s.batchFill + 1,
         inflight := if current.count == 1 then NotifyComplete(s.inflight + 1, 1) else s.inflight + 1,
         payloads := s.payloads + [payload],
         fetched := if current.count == 1 then s.fetched[s.batchFill := payload] else s.fetched,
         cuts := s.cuts + [s.descTail])
    case Reclaim =>
      var head := Index(s.batchHead, c.batches);
      s.(batches := s.batches[head := s.batches[head].(state := Free)],
         descHead := s.descHead + s.batches[head].count,
         batchHead := s.batchHead + 1,
         inflight := NotifyComplete(s.inflight, 1))
    case Complete(b) =>
      var i := Index(b, c.batches);
      s.(batches := s.batches[i := s.batches[i].(status := 1)],
         fetched := s.fetched[b := Fetch(s.cells, s.batches[i].start, s.batches[i].count)])
  }

  // A run, oldest step first.
  ghost predicate Legal(c: Config, run: seq<Step>)
    requires c.Valid()
    decreases |run|, 0
  {
    run == [] || (Legal(c, run[..|run| - 1]) && Enabled(c, Exec(c, run[..|run| - 1]), run[|run| - 1]))
  }

  ghost function Exec(c: Config, run: seq<Step>): (s: Ring)
    requires c.Valid() && Legal(c, run)
    ensures Shaped(c, s)
    decreases |run|, 1
  {
    if run == [] then Init(c)
    else Apply(c, Exec(c, run[..|run| - 1]), run[|run| - 1])
  }

  lemma Extend(c: Config, run: seq<Step>, step: Step)
    requires c.Valid() && Legal(c, run) && Enabled(c, Exec(c, run), step)
    ensures Legal(c, run + [step])
    ensures Exec(c, run + [step]) == Apply(c, Exec(c, run), step)
  {
    assert (run + [step])[..|run|] == run;
  }

  // ---------------------------------------------------------------- invariant

  ghost predicate Counters(c: Config, s: Ring) {
    && s.batchHead <= s.batchFill <= s.batchHead + c.batches
    && s.descTail == |s.submitted|
    && |s.cuts| == s.batchFill + 1 && |s.payloads| == s.batchFill
    && s.cuts[0] == 0
    && (forall a, b :: 0 <= a < b < |s.cuts| ==> s.cuts[a] < s.cuts[b])
    && (forall b :: 0 <= b < s.batchFill ==> s.cuts[b + 1] <= s.cuts[b] + c.maxBatch)
    && s.cuts[s.batchFill] <= s.descTail <= s.cuts[s.batchFill] + c.maxBatch
    && s.descHead == s.cuts[s.batchHead]
    && s.descTail <= s.descHead + c.slots
  }

  // Every descriptor between the two counters is in its cell.
  ghost predicate Stored(c: Config, s: Ring)
    requires Shaped(c, s) && s.descTail == |s.submitted|
  {
    forall p: nat :: s.descHead <= p < s.descTail ==> s.cells[Index(p, c.slots)] == s.submitted[p]
  }

  ghost predicate Contiguous(c: Config, e: Batch) {
    !c.mirrored ==> e.start + e.count <= c.slots
  }

  // Record e describes submitted[lo..hi].
  ghost predicate Describes(c: Config, e: Batch, lo: nat, hi: nat)
    requires c.slots > 0
  {
    lo <= hi && e.start == Index(lo, c.slots) && e.count == hi - lo && Contiguous(c, e)
  }

  ghost predicate Records(c: Config, s: Ring)
    requires Shaped(c, s) && Counters(c, s)
  {
    && (forall b: nat :: s.batchHead <= b < s.batchFill ==>
          At(c, s, b).state == InFlight && Describes(c, At(c, s, b), s.cuts[b], s.cuts[b + 1]))
    && (forall b: nat :: s.batchFill < b < s.batchHead + c.batches ==> At(c, s, b).state == Free)
    && Current(c, s)
  }

  ghost predicate Current(c: Config, s: Ring)
    requires Shaped(c, s) && Counters(c, s)
  {
    if s.batchFill == s.batchHead + c.batches then s.cuts[s.batchFill] == s.descTail
    else
      var e := At(c, s, s.batchFill);
      match e.state
      case Free => s.cuts[s.batchFill] == s.descTail
      case Filling => Describes(c, e, s.cuts[s.batchFill], s.descTail) && e.status == 0
      case InFlight => false
  }

  ghost predicate Completions(c: Config, s: Ring)
    requires Shaped(c, s) && Counters(c, s)
  {
    && (forall b: nat :: s.batchHead <= b < s.batchFill ==> (At(c, s, b).status != 0 <==> b in s.fetched))
    && (forall b: nat :: b < s.batchHead ==> b in s.fetched)
    && (forall b: nat :: b in s.fetched ==> b < s.batchFill)
  }

  ghost predicate Inv(c: Config, s: Ring) {
    Shaped(c, s) && Counters(c, s) && Stored(c, s) && Records(c, s) && Completions(c, s)
  }

  // What the device was and will be given. Needs a sound layout.
  ghost predicate Faithful(s: Ring) {
    && |s.cuts| == |s.payloads| + 1
    && s.cuts[|s.payloads|] <= |s.submitted|
    && Flatten(s.payloads) == s.submitted[..s.cuts[|s.payloads|]]
    && (forall a, b :: 0 <= a < b < |s.cuts| ==> s.cuts[a] < s.cuts[b])
    && (forall b :: 0 <= b < |s.payloads| ==> s.payloads[b] == s.submitted[s.cuts[b]..s.cuts[b + 1]])
    && (forall b :: b in s.fetched ==> b < |s.payloads| && s.fetched[b] == s.payloads[b])
  }

  // ---------------------------------------------------------------- reads

  lemma SlotsPositive(c: Config)
    requires c.Valid()
    ensures c.slots >= 1
  {
    Bits.Scaled(c.maxBatch, c.batches);
  }

  // A range that does not leave the ring, or that leaves it through a sound mirror,
  // reads back as the descriptors submitted at those positions.
  lemma FetchSlice(c: Config, s: Ring, e: Batch, lo: nat, hi: nat)
    requires Shaped(c, s) && c.Sound() && c.slots > 0 && s.descTail == |s.submitted| && Stored(c, s)
    requires s.descHead <= lo <= hi <= s.descTail <= s.descHead + c.slots
    requires Describes(c, e, lo, hi) && hi <= lo + c.maxBatch
    ensures Fetch(s.cells, e.start, e.count) == s.submitted[lo..hi]
  {
    var r := Fetch(s.cells, e.start, e.count);
    forall j | 0 <= j < e.count ensures r[j] == s.submitted[lo + j] {
      IndexStep(lo, j, c.slots);
      IndexStep(0, e.start + j, c.cells);
      assert s.cells[Index(lo + j, c.slots)] == s.submitted[lo + j];
    }
  }

  // ---------------------------------------------------------------- preservation

  lemma InitInv(c: Config)
    requires c.Valid()
    ensures Inv(c, Init(c)) && Faithful(Init(c))
  {
  }

  lemma OpenKeepsInv(c: Config, s: Ring)
    requires Inv(c, s) && Enabled(c, s, Open)
    ensures Inv(c, Apply(c, s, Open))
  {
    var t := Apply(c, s, Open);
    Room(c, s);
    OthersUntouched(c, s, t, s.batchFill, At(c, t, s.batchFill));
  }

  // Position batchHead + batches shares its record with batchHead.
  lemma SameSlot(c: Config, s: Ring)
    requires c.Valid()
    ensures Index(s.batchHead + c.batches, c.batches) == Index(s.batchHead, c.batches)
  {
    IndexStep(s.batchHead, c.batches, c.batches);
  }

  // Only a full window puts the current position on an in-flight record.
  lemma Room(c: Config, s: Ring)
    requires Inv(c, s) && At(c, s, s.batchFill).state != InFlight
    ensures s.batchFill < s.batchHead + c.batches
  {
    SameSlot(c, s);
    assert s.batchHead < s.batchFill ==> At(c, s, s.batchHead).state == InFlight;
  }

  // Changing the record of position b leaves those of the other positions of the
  // window alone.
  lemma OthersUntouched(c: Config, s: Ring, t: Ring, b: nat, e: Batch)
    requires Shaped(c, s) && Shaped(c, t) && s.batchHead <= b < s.batchHead + c.batches
    requires t.batches == s.batches[Index(b, c.batches) := e]
    ensures At(c, t, b) == e
    ensures forall a: nat :: s.batchHead <= a < s.batchHead + c.batches && a != b ==> At(c, t, a) == At(c, s, a)
  {
    WindowDistinct(s.batchHead, c.batches);
  }

  lemma AppendKeepsInv(c: Config, s: Ring, d: Descriptor)
    requires Inv(c, s) && Enabled(c, s, Append(d))
    ensures Inv(c, Apply(c, s, Append(d)))
  {
    Room(c, s);
    AppendStored(c, s, d);
    AppendRecords(c, s, d);
    var t := Apply(c, s, Append(d));
    OthersUntouched(c, s, t, s.batchFill, At(c, t, s.batchFill));
  }

  lemma AppendStored(c: Config, s: Ring, d: Descriptor)
    requires Inv(c, s) && Enabled(c, s, Append(d)) && s.batchFill < s.batchHead + c.batches
    ensures var t := Apply(c, s, Append(d)); Shaped(c, t) && Counters(c, t) && Stored(c, t)
  {
    WindowDistinct(s.descHead, c.slots);
  }

  lemma AppendRecords(c: Config, s: Ring, d: Descriptor)
    requires Inv(c, s) && Enabled(c, s, Append(d)) && s.batchFill < s.batchHead + c.batches
    requires Counters(c, Apply(c, s, Append(d)))
    ensures Records(c, Apply(c, s, Append(d)))
  {
    var t := Apply(c, s, Append(d));
    OthersUntouched(c, s, t, s.batchFill, At(c, t, s.batchFill));
    IndexStep(s.cuts[s.batchFill], At(c, s, s.batchFill).count, c.slots);
  }

  lemma SealKeepsInv(c: Config, s: Ring)
    requires Inv(c, s) && Enabled(c, s, Seal)
    ensures Inv(c, Apply(c, s, Seal))
  {
    SealCounters(c, s);
    SealRecords(c, s);
    SealCompletions(c, s);
  }

  lemma SealCounters(c: Config, s: Ring)
    requires Inv(c, s) && Enabled(c, s, Seal)
    ensures Counters(c, Apply(c, s, Seal)) && s.batchFill < s.batchHead + c.batches
  {
    Room(c, s);
    assert s.cuts[s.batchFill] < s.descTail;
    CutAdded(s.cuts, s.descTail, c.maxBatch);
  }

  lemma CutAdded(cuts: seq<nat>, end: nat, limit: nat)
    requires cuts != [] && cuts[|cuts| - 1] < end <= cuts[|cuts| - 1] + limit
    requires forall a, b :: 0 <= a < b < |cuts| ==> cuts[a] < cuts[b]
    requires forall b :: 0 <= b < |cuts| - 1 ==> cuts[b + 1] <= cuts[b] + limit
    ensures forall a, b :: 0 <= a < b < |cuts + [end]| ==> (cuts + [end])[a] < (cuts + [end])[b]
    ensures forall b :: 0 <= b < |cuts| ==> (cuts + [end])[b + 1] <= (cuts + [end])[b] + limit
  {
  }

  lemma SealRecords(c: Config, s: Ring)
    requires Inv(c, s) && Enabled(c, s, Seal) && Counters(c, Apply(c, s, Seal)) && s.batchFill < s.batchHead + c.batches
    ensures Records(c, Apply(c, s, Seal))
  {
    var t := Apply(c, s, Seal);
    OthersUntouched(c, s, t, s.batchFill, At(c, t, s.batchFill));
    forall b: nat | t.batchHead <= b < t.batchFill
      ensures At(c, t, b).state == InFlight && Describes(c, At(c, t, b), t.cuts[b], t.cuts[b + 1])
    {
      assert t.cuts[b] == s.cuts[b];
      if b < s.batchFill { assert At(c, t, b) == At(c, s, b) && t.cuts[b + 1] == s.cuts[b + 1]; }
    }
    assert Current(c, t);
  }

  lemma SealCompletions(c: Config, s: Ring)
    requires Inv(c, s) && Enabled(c, s, Seal) && Counters(c, Apply(c, s, Seal)) && s.batchFill < s.batchHead + c.batches
    ensures Completions(c, Apply(c, s, Seal))
  {
    var t := Apply(c, s, Seal);
    OthersUntouched(c, s, t, s.batchFill, At(c, t, s.batchFill));
  }

  lemma ReclaimKeepsInv(c: Config, s: Ring)
    requires Inv(c, s) && Enabled(c, s, Reclaim)
    ensures Inv(c, Apply(c, s, Reclaim))
  {
    ReclaimCounters(c, s);
    ReclaimRecords(c, s);
  }

  lemma ReclaimCounters(c: Config, s: Ring)
    requires Inv(c, s) && Enabled(c, s, Reclaim)
    ensures Counters(c, Apply(c, s, Reclaim)) && Stored(c, Apply(c, s, Reclaim))
  {
    assert Describes(c, At(c, s, s.batchHead), s.cuts[s.batchHead], s.cuts[s.batchHead + 1]);
    assert s.cuts[s.batchHead + 1] <= s.cuts[s.batchFill];
  }

  lemma ReclaimRecords(c: Config, s: Ring)
    requires Inv(c, s) && Enabled(c, s, Reclaim) && Counters(c, Apply(c, s, Reclaim))
    ensures Records(c, Apply(c, s, Reclaim)) && Completions(c, Apply(c, s, Reclaim))
  {
    var t := Apply(c, s, Reclaim);
    SameSlot(c, s);
    OthersUntouched(c, s, t, s.batchHead, At(c, t, s.batchHead));
    forall b: nat | t.batchFill < b < t.batchHead + c.batches ensures At(c, t, b).state == Free {
      if b < s.batchHead + c.batches { assert At(c, t, b) == At(c, s, b); }
    }
    assert Current(c, t);
  }

  lemma CompleteRecords(c: Config, s: Ring, b: nat)
    requires Inv(c, s) && Enabled(c, s, Complete(b))
    ensures var t := Apply(c, s, Complete(b)); Shaped(c, t) && Counters(c, t) && Stored(c, t) && Records(c, t)
  {
    var t := Apply(c, s, Complete(b));
    OthersUntouched(c, s, t, b, At(c, t, b));
    forall a: nat | t.batchHead <= a < t.batchFill
      ensures At(c, t, a).state == InFlight && Describes(c, At(c, t, a), t.cuts[a], t.cuts[a + 1])
    {
      assert Describes(c, At(c, s, a), s.cuts[a], s.cuts[a + 1]);
    }
  }

  lemma CompleteKeepsInv(c: Config, s: Ring, b: nat)
    requires Inv(c, s) && Enabled(c, s, Complete(b))
    ensures Inv(c, Apply(c, s, Complete(b)))
  {
    var t := Apply(c, s, Complete(b));
    CompleteRecords(c, s, b);
    OthersUntouched(c, s, t, b, At(c, t, b));
  }

  lemma StepKeepsInv(c: Config, s: Ring, step: Step)
    requires Inv(c, s) && Enabled(c, s, step)
    ensures Inv(c, Apply(c, s, step))
  {
    match step
    case Open => OpenKeepsInv(c, s);
    case Append(d) => AppendKeepsInv(c, s, d);
    case Seal => SealKeepsInv(c, s);
    case Reclaim => ReclaimKeepsInv(c, s);
    case Complete(b) => CompleteKeepsInv(c, s, b);
  }

  lemma SealKeepsFaithful(c: Config, s: Ring)
    requires Inv(c, s) && c.Sound() && Faithful(s) && Enabled(c, s, Seal)
    ensures Faithful(Apply(c, s, Seal))
  {
    var lo := s.cuts[s.batchFill];
    assert Fetch(s.cells, At(c, s, s.batchFill).start, At(c, s, s.batchFill).count) == s.submitted[lo..] by {
      Room(c, s);
      SlotsPositive(c);
      FetchSlice(c, s, At(c, s, s.batchFill), lo, s.descTail);
    }
    SealedHistory(s, Apply(c, s, Seal));
  }

  lemma SealedHistory(s: Ring, t: Ring)
    requires Faithful(s) && s.cuts[|s.payloads|] < |s.submitted| == s.descTail
    requires t.submitted == s.submitted && t.cuts == s.cuts + [s.descTail]
    requires var last := s.submitted[s.cuts[|s.payloads|]..];
             && t.payloads == s.payloads + [last]
             && t.fetched in {s.fetched, s.fetched[|s.payloads| := last]}
    ensures Faithful(t)
  {
    var lo := s.cuts[|s.payloads|];
    FlattenAppend(s.payloads, s.submitted[lo..]);
    assert s.submitted[..lo] + s.submitted[lo..] == s.submitted;
    assert s.submitted[..s.descTail] == s.submitted;
    SealedPayloads(s, t);
  }

  lemma SealedPayloads(s: Ring, t: Ring)
    requires Faithful(s) && s.cuts[|s.payloads|] < |s.submitted| == s.descTail
    requires t.submitted == s.submitted && t.cuts == s.cuts + [s.descTail]
    requires t.payloads == s.payloads + [s.submitted[s.cuts[|s.payloads|]..]]
    ensures forall b :: 0 <= b < |t.payloads| ==> t.payloads[b] == t.submitted[t.cuts[b]..t.cuts[b + 1]]
  {
    forall b | 0 <= b < |t.payloads| ensures t.payloads[b] == t.submitted[t.cuts[b]..t.cuts[b + 1]] {
      assert b < |s.payloads| ==> t.payloads[b] == s.payloads[b];
    }
  }

  lemma CompleteKeepsFaithful(c: Config, s: Ring, b: nat)
    requires Inv(c, s) && c.Sound() && Faithful(s) && Enabled(c, s, Complete(b))
    ensures Faithful(Apply(c, s, Complete(b)))
  {
    SlotsPositive(c);
    FetchSlice(c, s, At(c, s, b), s.cuts[b], s.cuts[b + 1]);
  }

  lemma AppendedHistory(s: Ring, t: Ring, d: Descriptor)
    requires Faithful(s) && t.submitted == s.submitted + [d]
    requires t.payloads == s.payloads && t.cuts == s.cuts && t.fetched == s.fetched
    ensures Faithful(t)
  {
    var n := |s.payloads|;
    assert t.submitted[..t.cuts[n]] == s.submitted[..s.cuts[n]];
    forall b | 0 <= b < n ensures t.payloads[b] == t.submitted[t.cuts[b]..t.cuts[b + 1]] {
      assert s.cuts[b + 1] <= s.cuts[n] by { if b + 1 < n { assert s.cuts[b + 1] < s.cuts[n]; } }
      assert s.cuts[b] < s.cuts[b + 1];
      assert t.submitted[t.cuts[b]..t.cuts[b + 1]] == s.submitted[s.cuts[b]..s.cuts[b + 1]];
    }
  }

  lemma StepKeepsFaithful(c: Config, s: Ring, step: Step)
    requires Inv(c, s) && c.Sound() && Faithful(s) && Enabled(c, s, step)
    ensures Faithful(Apply(c, s, step))
  {
    match step
    case Open =>
    case Append(d) => AppendedHistory(s, Apply(c, s, step), d);
    case Seal => SealKeepsFaithful(c, s);
    case Reclaim =>
    case Complete(b) => CompleteKeepsFaithful(c, s, b);
  }

  lemma {:induction false} RunInv(c: Config, run: seq<Step>)
    requires c.Valid() && Legal(c, run)
    ensures Inv(c, Exec(c, run))
    ensures c.Sound() ==> Faithful(Exec(c, run))
    decreases |run|
  {
    if run == [] {
      InitInv(c);
    } else {
      var before := run[..|run| - 1];
      RunInv(c, before);
      StepKeepsInv(c, Exec(c, before), run[|run| - 1]);
      if c.Sound() { StepKeepsFaithful(c, Exec(c, before), run[|run| - 1]); }
    }
  }

  // The record after a sealed one is free, or already in flight.
  lemma SealedRecord(c: Config, s: Ring)
    requires Inv(c, s) && Enabled(c, s, Seal)
    ensures var t := Apply(c, s, Seal); At(c, t, t.batchFill).state != Filling
  {
    Room(c, s);
    if s.batchFill + 1 < s.batchHead + c.batches {
      IndexDistinct(s.batchFill, s.batchFill + 1, c.batches);
      assert At(c, s, s.batchFill + 1).state == Free;
    } else {
      SameSlot(c, s);
      if s.batchHead < s.batchFill {
        assert At(c, s, s.batchHead).state == InFlight;
        IndexDistinct(s.batchHead, s.batchFill, c.batches);
      }
    }
  }

  // ---------------------------------------------------------------- DMA safety

  // The ring cell of the j-th descriptor of a record.
  function Cell(c: Config, e: Batch, j: nat): nat
    requires c.slots > 0
  {
    Index(e.start + j, c.slots)
  }

  ghost predicate DisjointCells(c: Config, e: Batch, e': Batch)
    requires c.slots > 0
  {
    forall j: nat, j': nat :: j < e.count && j' < e'.count ==> Cell(c, e, j) != Cell(c, e', j')
  }

  // Positions whose record owns part of the ring: sealed and not reclaimed, or filling.
  ghost predicate Owns(c: Config, s: Ring, b: nat)
    requires Shaped(c, s)
  {
    s.batchHead <= b < s.batchFill || (b == s.batchFill && At(c, s, b).state == Filling)
  }

  // The addresses the device reads are mapped: the ring itself, or the ring and its mirror.
  ghost predicate Mapped(c: Config, e: Batch) {
    e.start < c.slots && e.start + e.count <= if c.mirrored then 2 * c.cells else c.slots
  }

  // Every sealed batch that is not reclaimed is one mapped range of addresses.
  ghost predicate InFlightMapped(c: Config, s: Ring)
    requires Shaped(c, s)
  {
    forall b: nat :: s.batchHead <= b < s.batchFill ==> At(c, s, b).state == InFlight && Mapped(c, At(c, s, b))
  }

  ghost predicate InFlightIntact(c: Config, s: Ring)
    requires Shaped(c, s)
  {
    forall b: nat :: s.batchHead <= b < s.batchFill ==>
      && var e := At(c, s, b);
      && b < |s.payloads| && Fetch(s.cells, e.start, e.count) == s.payloads[b]
  }

  ghost predicate OwnersDisjoint(c: Config, s: Ring)
    requires Shaped(c, s) && c.slots > 0
  {
    forall a: nat, b: nat :: Owns(c, s, a) && Owns(c, s, b) && a < b ==>
      DisjointCells(c, At(c, s, a), At(c, s, b))
  }

  lemma CellIsPosition(c: Config, e: Batch, lo: nat, hi: nat, j: nat)
    requires c.slots > 0 && Describes(c, e, lo, hi) && j < e.count <= c.slots
    ensures Cell(c, e, j) == Index(lo + j, c.slots)
  {
    IndexStep(lo, j, c.slots);
    IndexStep(0, e.start, c.slots);
    IndexStep(0, e.start + j, c.slots);
    IndexStep(e.start, j, c.slots);
  }

  lemma RangesDisjoint(c: Config, e: Batch, lo: nat, hi: nat, e': Batch, lo': nat, hi': nat)
    requires c.slots > 0 && Describes(c, e, lo, hi) && Describes(c, e', lo', hi')
    requires hi <= lo' && hi' <= lo + c.slots
    ensures DisjointCells(c, e, e')
  {
    forall j: nat, j': nat | j < e.count && j' < e'.count ensures Cell(c, e, j) != Cell(c, e', j')
    {
      CellIsPosition(c, e, lo, hi, j);
      CellIsPosition(c, e', lo', hi', j');
      IndexDistinct(lo + j, lo' + j', c.slots);
    }
  }

  ghost function EndOf(s: Ring, b: nat): nat
    requires b + 1 < |s.cuts| || b + 1 == |s.cuts|
  {
    if b + 1 < |s.cuts| then s.cuts[b + 1] else s.descTail
  }

  lemma OwnerRange(c: Config, s: Ring, b: nat)
    requires Inv(c, s) && c.slots > 0 && Owns(c, s, b)
    ensures b < |s.cuts| && Describes(c, At(c, s, b), s.cuts[b], EndOf(s, b))
    ensures s.descHead <= s.cuts[b] && EndOf(s, b) <= s.descTail
  {
    if b == s.batchFill { Room(c, s); }
  }

  lemma InvOwnersDisjoint(c: Config, s: Ring)
    requires Inv(c, s) && c.slots > 0
    ensures OwnersDisjoint(c, s)
  {
    forall a: nat, b: nat | Owns(c, s, a) && Owns(c, s, b) && a < b
      ensures DisjointCells(c, At(c, s, a), At(c, s, b))
    {
      OwnerRange(c, s, a);
      OwnerRange(c, s, b);
      assert EndOf(s, a) <= s.cuts[b];
      RangesDisjoint(c, At(c, s, a), s.cuts[a], EndOf(s, a), At(c, s, b), s.cuts[b], EndOf(s, b));
    }
  }

  lemma InvInFlightMapped(c: Config, s: Ring)
    requires Inv(c, s)
    ensures InFlightMapped(c, s)
  {
    SlotsPositive(c);
    MulMonotone(1, c.batches, c.maxBatch);
    forall b: nat | s.batchHead <= b < s.batchFill ensures At(c, s, b).state == InFlight && Mapped(c, At(c, s, b)) {
      assert Describes(c, At(c, s, b), s.cuts[b], s.cuts[b + 1]);
    }
  }

  lemma InvInFlightIntact(c: Config, s: Ring)
    requires Inv(c, s) && c.Sound() && Faithful(s)
    ensures InFlightIntact(c, s)
  {
    SlotsPositive(c);
    forall b: nat | s.batchHead <= b < s.batchFill
      ensures Fetch(s.cells, At(c, s, b).start, At(c, s, b).count) == s.payloads[b]
    {
      var e := At(c, s, b);
      assert Describes(c, e, s.cuts[b], s.cuts[b + 1]);
      assert s.descHead <= s.cuts[b] && s.cuts[b + 1] <= s.descTail;
      FetchSlice(c, s, e, s.cuts[b], s.cuts[b + 1]);
    }
  }

  /** DMA safety. After every run of driver and device steps, each batch the device may
      be reading is one range of mapped addresses and shares no cell with another live
      batch; and in a sound layout it still holds what it was sealed with. */
  lemma DmaSafety(c: Config, run: seq<Step>)
    requires c.Valid() && Legal(c, run)
    ensures c.slots > 0
    ensures InFlightMapped(c, Exec(c, run))
    ensures OwnersDisjoint(c, Exec(c, run))
    ensures c.Sound() ==> InFlightIntact(c, Exec(c, run))
  {
    RunInv(c, run);
    SlotsPositive(c);
    InvInFlightMapped(c, Exec(c, run));
    InvOwnersDisjoint(c, Exec(c, run));
    if c.Sound() { InvInFlightIntact(c, Exec(c, run)); }
  }

  // ---------------------------------------------------------------- refinement

  // The descriptors of the batch still filling, read from memory.
  ghost function Unsealed(c: Config, s: Ring): seq<Descriptor>
    requires Shaped(c, s)
  {
    SlotsPositive(c);
    var e := At(c, s, s.batchFill);
    if e.state == Filling then Fetch(s.cells, e.start, e.count) else []
  }

  // The number of descriptors in the batch still filling.
  ghost function OpenCount(c: Config, s: Ring): (n: nat)
    requires Shaped(c, s)
    ensures n == |Unsealed(c, s)|
  {
    var e := At(c, s, s.batchFill);
    if e.state == Filling then e.count else 0
  }

  // The next descriptor would not follow the open batch in memory.
  ghost predicate AtEnd(c: Config, s: Ring)
    requires Shaped(c, s)
  {
    SlotsPositive(c);
    !c.mirrored && OpenCount(c, s) > 0 && Index(s.descTail, c.slots) == 0
  }

  lemma OpenIsSpan(c: Config, s: Ring)
    requires Inv(c, s)
    ensures OpenCount(c, s) == s.descTail - s.cuts[s.batchFill]
  {
    SlotsPositive(c);
    if At(c, s, s.batchFill).state == Filling { Room(c, s); }
  }

  lemma UnsealedIsSuffix(c: Config, s: Ring)
    requires Inv(c, s) && c.Sound()
    ensures Unsealed(c, s) == s.submitted[s.cuts[s.batchFill]..]
  {
    SlotsPositive(c);
    var e := At(c, s, s.batchFill);
    if e.state == Filling {
      Room(c, s);
      FetchSlice(c, s, e, s.cuts[s.batchFill], s.descTail);
    }
  }

  lemma NothingMissing(c: Config, s: Ring)
    requires Inv(c, s) && c.Sound() && Faithful(s)
    ensures Flatten(s.payloads) + Unsealed(c, s) == s.submitted
  {
    UnsealedIsSuffix(c, s);
    assert s.submitted[..s.cuts[s.batchFill]] + s.submitted[s.cuts[s.batchFill]..] == s.submitted;
  }

  /** Refinement of the direct submitter. After every run, the doorbells' batches laid
      end to end, followed by the batch still filling, are the submitted descriptors in
      order; and whatever the device fetched for a doorbell is what that doorbell named. */
  lemma DeliversInOrder(c: Config, run: seq<Step>)
    requires c.Valid() && c.Sound() && Legal(c, run)
    ensures var s := Exec(c, run); Flatten(s.payloads) + Unsealed(c, s) == s.submitted
    ensures var s := Exec(c, run); forall b :: b in s.fetched ==> b < |s.payloads| && s.fetched[b] == s.payloads[b]
    ensures var s := Exec(c, run); forall b: nat :: b < s.batchHead ==> b in s.fetched
  {
    RunInv(c, run);
    NothingMissing(c, Exec(c, run));
  }

  // ---------------------------------------------------------------- waits

  ghost function LiveCount(c: Config, s: Ring, lo: nat, hi: nat): nat
    requires Shaped(c, s) && lo <= hi
    decreases hi - lo
  {
    if lo == hi then 0 else LiveCount(c, s, lo, hi - 1) + At(c, s, hi - 1).count
  }

  lemma {:induction false} LiveCountIsSpan(c: Config, s: Ring, hi: nat)
    requires Inv(c, s) && s.batchHead <= hi <= s.batchFill
    ensures LiveCount(c, s, s.batchHead, hi) == s.cuts[hi] - s.descHead
    decreases hi
  {
    if hi > s.batchHead { LiveCountIsSpan(c, s, hi - 1); }
  }

  // After every run the counts of the live batches add up to desc_tail - desc_head,
  // and the two batch counters are at most num_batches apart.
  lemma CountsAddUp(c: Config, run: seq<Step>)
    requires c.Valid() && Legal(c, run)
    ensures var s := Exec(c, run);
            && s.batchHead <= s.batchFill <= s.batchHead + c.batches
            && LiveCount(c, s, s.batchHead, s.batchFill) + |Unsealed(c, s)| == s.descTail - s.descHead
            && 0 <= Available(c, s) <= c.slots
  {
    RunInv(c, run);
    var s := Exec(c, run);
    LiveCountIsSpan(c, s, s.batchFill);
    if At(c, s, s.batchFill).state == Filling { Room(c, s); }
  }

  // Between operations a full batch has already been sealed.
  ghost predicate Settled(c: Config, s: Ring)
    requires Shaped(c, s)
  {
    At(c, s, s.batchFill).state == Filling ==> 0 < At(c, s, s.batchFill).count < c.maxBatch
  }

  // d batches hold at most d * maxBatch descriptors, and fewer if one is not full.
  lemma {:induction false} SpanBound(c: Config, s: Ring, a: nat, b: nat)
    requires Shaped(c, s) && Counters(c, s) && a <= b <= s.batchFill
    ensures s.cuts[b] - s.cuts[a] <= (b - a) * c.maxBatch
    ensures (exists x: nat :: a <= x < b && s.cuts[x + 1] - s.cuts[x] != c.maxBatch) ==> s.cuts[b] - s.cuts[a] < (b - a) * c.maxBatch
    decreases b
  {
    if a < b {
      SpanBound(c, s, a, b - 1);
      assert (b - a) * c.maxBatch == (b - 1 - a) * c.maxBatch + c.maxBatch;
    }
  }

  /** A full descriptor ring is full of sealed, full batches: no batch that still waits
      for its doorbell can be what submit_descriptor spins on. */
  lemma FullRingIsInFlight(c: Config, s: Ring)
    requires Inv(c, s) && Settled(c, s) && Available(c, s) == 0
    ensures s.batchFill == s.batchHead + c.batches
    ensures forall i :: 0 <= i < c.batches ==> s.batches[i].state == InFlight && s.batches[i].count == c.maxBatch
  {
    FullRingFullWindow(c, s);
    SpanBound(c, s, s.batchHead, s.batchFill);
    assert c.batches * c.maxBatch == c.maxBatch * c.batches;
    forall i | 0 <= i < c.batches ensures s.batches[i].state == InFlight && s.batches[i].count == c.maxBatch {
      var b := PositionOf(s.batchHead, c.batches, i);
      assert At(c, s, b) == s.batches[i];
      assert s.cuts[b + 1] - s.cuts[b] == c.maxBatch;
    }
  }

  lemma FullRingFullWindow(c: Config, s: Ring)
    requires Inv(c, s) && Settled(c, s) && Available(c, s) == 0
    ensures s.batchFill == s.batchHead + c.batches
  {
    var d := s.batchFill - s.batchHead;
    SpanBound(c, s, s.batchHead, s.batchFill);
    if d < c.batches {
      assert s.descTail - s.cuts[s.batchFill] < c.maxBatch;
      assert (d + 1) * c.maxBatch == d * c.maxBatch + c.maxBatch;
      MulMonotone(d + 1, c.batches, c.maxBatch);
    }
  }

  lemma MulMonotone(a: nat, b: nat, k: nat)
    requires a <= b
    ensures a * k <= b * k && b * k == k * b
  {
  }

  ghost predicate MustWait(c: Config, s: Ring)
    requires Shaped(c, s)
  {
    Available(c, s) == 0 || At(c, s, s.batchFill).state == InFlight
  }

  /** Whenever submit_descriptor has to wait and reclaiming has stopped, the oldest batch
      has rung its doorbell and is unfinished device work; and once the device completes
      it, one reclaim ends the wait. */
  lemma WaitsOnlyOnDevice(c: Config, s: Ring)
    requires Inv(c, s) && Settled(c, s) && MustWait(c, s) && !Enabled(c, s, Reclaim)
    ensures Enabled(c, s, Complete(s.batchHead)) && s.batchHead !in s.fetched
    ensures var t := Apply(c, s, Complete(s.batchHead));
            Enabled(c, t, Reclaim) && !MustWait(c, Apply(c, t, Reclaim))
  {
    if Available(c, s) == 0 { FullRingIsInFlight(c, s); }
    assert s.batchFill == s.batchHead + c.batches;
    assert At(c, s, s.batchHead).state == InFlight && s.cuts[s.batchHead] < s.cuts[s.batchHead + 1];
    CompleteKeepsInv(c, s, s.batchHead);
    ReclaimKeepsInv(c, Apply(c, s, Complete(s.batchHead)));
  }

  lemma InFlightHasPosition(c: Config, s: Ring, i: nat)
    requires Inv(c, s) && i < c.batches && s.batches[i].state == InFlight
    ensures s.batchHead < s.batchFill
  {
    var b := PositionOf(s.batchHead, c.batches, i);
    assert At(c, s, b).state == InFlight;
  }

  // With no record in flight or filling, every counter has caught up.
  lemma AllFree(c: Config, s: Ring)
    requires Inv(c, s) && At(c, s, s.batchFill).state != Filling
    requires forall i :: 0 <= i < c.batches ==> s.batches[i].state != InFlight
    ensures s.batchHead == s.batchFill && s.descHead == s.descTail
    ensures forall i :: 0 <= i < c.batches ==> s.batches[i].state == Free
  {
    assert s.batchHead < s.batchFill ==> At(c, s, s.batchHead).state == InFlight;
    forall i | 0 <= i < c.batches ensures s.batches[i].state == Free {
      var b := PositionOf(s.batchHead, c.batches, i);
      assert At(c, s, b).state != InFlight;
    }
  }
}
