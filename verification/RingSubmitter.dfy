/**
 The two ring submitters as objects with fields updated in place. Their code differs
 in one place, the seal at the ring's end, so one class serves both: `mirrored` says
 which of the two it is.

 Every state change the object goes through is a step of the BatchRing machine and is
 added to the ghost `run`; `Valid()` says that the fields are where that run leads. All
 that is proved of every run therefore holds of the object. In this class the device acts
 inside the spin loops only; the machine's runs also have it act between any two other
 steps.

 A spin loop polls the device once per turn. What the device does is the argument
 `device`: one set of batch numbers per turn, namely those it completes then. A call
 returns false if the schedule ends while it is still spinning.
 */
module RingSubmitters {
  import opened Submission
  import opened BatchRing
  import MirroredRing
  import Bits

  /** The geometry init() computes. `pageBits` is the log2 of the page size and matters
      only to the mirrored ring. */
  method Configure(requested: nat, wqMax: int, mirrored: bool, pageBits: nat) returns (c: Config)
    requires BatchSize(requested, wqMax) * DEFAULT_NUM_BATCHES <= Bits.TOP
    requires mirrored ==>
               forall slots :: Bits.IsCeilPow2(BatchSize(requested, wqMax) * DEFAULT_NUM_BATCHES, slots) ==> MirroredRing.Mappable(slots, pageBits)
    ensures c.Valid() && Bits.IsPow2(c.slots) && Bits.IsPow2(c.batches)
    ensures c.maxBatch == BatchSize(requested, wqMax) && c.batches == DEFAULT_NUM_BATCHES && c.mirrored == mirrored
    ensures Bits.IsCeilPow2(c.maxBatch * c.batches, c.slots)
    ensures !mirrored ==> c.cells == c.slots && c.Sound()
    ensures mirrored ==> (c.Sound() <==> c.slots * MirroredRing.DESCRIPTOR_BYTES % Bits.Pow2(pageBits) == 0 || c.maxBatch == 1)
  {
    var k := BatchSize(requested, wqMax);
    var size := Bits.RoundUpPow2(k * DEFAULT_NUM_BATCHES);
    var cells := size;
    if mirrored {
      MirroredRing.RegionShape(size, pageBits);
      cells := MirroredRing.RegionBytes(size, pageBits) / MirroredRing.DESCRIPTOR_BYTES;
    }
    c := Config(size, cells, DEFAULT_NUM_BATCHES, k, mirrored);
    assert Bits.Pow2(4) == 16;
  }

  class RingSubmitter {
    const config: Config
    const descRing: array<Descriptor>
    const batches: array<Batch>
    var descHead: nat
    var descTail: nat
    var batchFill: nat
    var batchHead: nat
    var inflight: nat

    ghost var run: seq<Step>
    ghost var model: Ring

    ghost predicate Valid()
      reads this, descRing, batches
    {
      && config.Valid() && Bits.IsPow2(config.slots) && Bits.IsPow2(config.batches)
      && Legal(config, run) && model == Exec(config, run)
      && model.cells == descRing[..] && model.batches == batches[..]
      && model.descHead == descHead && model.descTail == descTail
      && model.batchHead == batchHead && model.batchFill == batchFill && model.inflight == inflight
    }

    // Valid, and between two operations.
    ghost predicate Ready()
      reads this, descRing, batches
    {
      Valid() && Settled(config, model)
    }

    lemma Known()
      requires Valid()
      ensures Inv(config, model) && descRing.Length == config.cells && batches.Length == config.batches
      ensures config.slots > 0
      ensures config.Sound() ==> Faithful(model)
      ensures config.Sound() ==> Flatten(model.payloads) + Unsealed(config, model) == model.submitted
    {
      RunInv(config, run);
      SlotsPositive(config);
      if config.Sound() { DeliversInOrder(config, run); }
    }

    constructor (c: Config)
      requires c.Valid() && Bits.IsPow2(c.slots) && Bits.IsPow2(c.batches)
      ensures Ready() && fresh(descRing) && fresh(batches) && config == c
      ensures run == []
    {
      config := c;
      descRing := new Descriptor[c.cells](_ => 0);
      batches := new Batch[c.batches](_ => Batch(0, 0, Free, 0));
      descHead, descTail, batchFill, batchHead, inflight := 0, 0, 0, 0, 0;
      run, model := [], Init(c);
      new;
      assert descRing[..] == Init(c).cells && batches[..] == Init(c).batches;
    }

    method DescAvailable() returns (n: nat)
      requires Valid()
      ensures n == Available(config, model)
    {
      Known();
      n := config.slots - (descTail - descHead);
    }

    // ---------------------------------------------------------------- single steps

    lemma Shape()
      requires Valid()
      ensures Shaped(config, model) && descRing.Length == config.cells && batches.Length == config.batches
      ensures config.slots > 0
    {
      SlotsPositive(config);
    }

    // The run went on, without a descriptor being added or a doorbell rung.
    ghost predicate Since(before: seq<Step>, was: Ring)
      reads this
    {
      && before <= run && model.submitted == was.submitted && model.payloads == was.payloads
      && model.cuts == was.cuts && model.descTail == was.descTail && model.batchFill == was.batchFill
    }

    // The run went on by one doorbell, of `count` descriptors, without one being added.
    ghost predicate SealedSince(before: seq<Step>, was: Ring, count: nat)
      reads this
    {
      && before <= run && model.submitted == was.submitted && model.descTail == was.descTail
      && Rang(was.payloads, model.payloads, count)
      && model.batchFill == was.batchFill + 1 && model.cuts == was.cuts + [was.descTail]
    }

    // Doorbells of the call that submits one more descriptor: their length, 0 for none.
    ghost function NextDoorbell(): nat
      requires Valid()
      reads this, descRing, batches
    {
      if AtEnd(config, model) then OpenCount(config, model)
      else if OpenCount(config, model) + 1 == config.maxBatch then config.maxBatch
      else 0
    }

    lemma OpenIs()
      requires Valid()
      ensures |model.cuts| == batchFill + 1 && model.cuts[batchFill] <= descTail
      ensures OpenCount(config, model) == descTail - model.cuts[batchFill]
    {
      RunInv(config, run);
      OpenIsSpan(config, model);
    }

    // The machine takes a step; the fields must follow.
    ghost method Log(step: Step)
      requires config.Valid() && Legal(config, run) && model == Exec(config, run) && Enabled(config, model, step)
      modifies this`run, this`model
      ensures Legal(config, run) && model == Exec(config, run)
      ensures run == old(run) + [step] && model == Apply(config, old(model), step)
    {
      Extend(config, run, step);
      run, model := run + [step], Apply(config, model, step);
    }

    // The device reads batch b from memory, then writes its completion record.
    method CompleteOne(b: nat)
      requires Valid() && Enabled(config, model, Complete(b))
      modifies this`run, this`model, batches
      ensures Valid() && run == old(run) + [Complete(b)] && model == Apply(config, old(model), Complete(b))
    {
      Log(Complete(b));
      var i := Masked(b, config.batches);
      batches[i] := batches[i].(status := 1);
    }

    method ReclaimOne()
      requires Valid() && Enabled(config, model, Reclaim)
      modifies this`descHead, this`batchHead, this`inflight, this`run, this`model, batches
      ensures Valid() && run == old(run) + [Reclaim] && model == Apply(config, old(model), Reclaim)
    {
      Log(Reclaim);
      var i := Masked(batchHead, config.batches);
      descHead := descHead + batches[i].count;
      batches[i] := batches[i].(state := Free);
      inflight := NotifyComplete(inflight, 1);
      batchHead := batchHead + 1;
    }

    /** submit_batch: a single descriptor goes through the portal itself, a longer batch
        is named by address. */
    method SubmitBatch()
      requires Valid() && Enabled(config, model, Seal)
      modifies this`inflight, this`batchFill, this`run, this`model, batches
      ensures Valid() && run == old(run) + [Seal] && model == Apply(config, old(model), Seal)
    {
      Log(Seal);
      var i := Masked(batchFill, config.batches);
      if batches[i].count == 1 {
        inflight := inflight + 1;
        inflight := NotifyComplete(inflight, 1);
        batches[i] := batches[i].(status := 1, state := InFlight);
      } else {
        inflight := inflight + 1;
        batches[i] := batches[i].(state := InFlight);
      }
      batchFill := batchFill + 1;
    }

    method OpenCurrent()
      requires Valid() && Enabled(config, model, Open)
      modifies this`run, this`model, batches
      ensures Valid() && run == old(run) + [Open] && model == Apply(config, old(model), Open)
    {
      Log(Open);
      var i, start := Masked(batchFill, config.batches), Masked(descTail, config.slots);
      batches[i] := Batch(start, 0, Filling, 0);
    }

    method CopyIn(desc: Descriptor)
      requires Valid() && Enabled(config, model, Append(desc))
      modifies this`descTail, this`run, this`model, batches, descRing
      ensures Valid() && run == old(run) + [Append(desc)] && model == Apply(config, old(model), Append(desc))
    {
      Log(Append(desc));
      var i, cell := Masked(batchFill, config.batches), Masked(descTail, config.slots);
      descRing[cell] := desc;
      descTail := descTail + 1;
      batches[i] := batches[i].(count := batches[i].count + 1);
    }

    // ---------------------------------------------------------------- loops over them

    lemma HeadInFlight()
      requires Valid()
      ensures batchHead <= batchFill && Shaped(config, model)
      ensures forall b: nat :: batchHead <= b < batchFill ==> At(config, model, b).state == InFlight
    {
      RunInv(config, run);
    }

    // No record but those in flight changed state, and those only to Free.
    ghost predicate Released(before: seq<Batch>)
      reads this, batches
    {
      |before| == batches.Length &&
      forall i :: 0 <= i < batches.Length ==>
        && batches[i].count == before[i].count
        && (batches[i].state == before[i].state || (before[i].state == InFlight && batches[i].state == Free))
    }

    /** The device finishes some of the outstanding batches. */
    method DeviceStep(completions: set<nat>)
      requires Valid()
      modifies this`run, this`model, batches
      ensures Valid() && Since(old(run), old(model)) && Released(old(batches[..]))
    {
      HeadInFlight();
      for b := batchHead to batchFill
        invariant Valid() && Since(old(run), old(model)) && Released(old(batches[..]))
      {
        HeadInFlight();
        var i := Masked(b, config.batches);
        if b in completions && batches[i].status == 0 {
          assert batches[i] == At(config, model, b);
          CompleteOne(b);
        }
      }
    }

    /** Releases completed batches from the oldest on, stopping at the first one the
        device has not finished. */
    method ReclaimCompleted()
      requires Valid()
      modifies this`descHead, this`batchHead, this`inflight, this`run, this`model, batches
      ensures Valid() && Since(old(run), old(model)) && Released(old(batches[..])) && descHead >= old(descHead)
      ensures !Enabled(config, model, Reclaim)
    {
      while batchHead != batchFill
        invariant Valid() && Since(old(run), old(model)) && Released(old(batches[..])) && descHead >= old(descHead)
        decreases batchFill - batchHead
      {
        HeadInFlight();
        var i := Masked(batchHead, config.batches);
        assert batches[i] == At(config, model, batchHead);
        // The code also skips a Free record here; there never is one.
        assert batches[i].state == InFlight;
        if batches[i].status == 0 {
          break;
        }
        ReclaimOne();
      }
      Shape();
    }

    /** Rings the doorbell of the current batch if it holds anything. */
    method SealAndSubmitCurrent()
      requires Valid()
      modifies this`descHead, this`batchHead, this`batchFill, this`inflight, this`run, this`model, batches
      ensures Valid() && descHead >= old(descHead)
      ensures old(Enabled(config, model, Seal)) ==> SealedSince(old(run), old(model), old(OpenCount(config, model)))
      ensures old(Enabled(config, model, Seal)) ==> CurrentState() == Free || (CurrentState() == InFlight && !Enabled(config, model, Reclaim))
      ensures !old(Enabled(config, model, Seal)) ==> run == old(run) && model == old(model) && old(OpenCount(config, model)) == 0
    {
      Shape();
      var i := Masked(batchFill, config.batches);
      assert batches[i] == At(config, model, batchFill);
      if batches[i].state != Filling || batches[i].count == 0 {
        return;
      }
      NextNotFilling();
      SubmitBatch();
      Shape();
      var next := Masked(batchFill, config.batches);
      assert batches[next] == At(config, model, batchFill);
      if batches[next].state != Free {
        ReclaimCompleted();
        Shape();
        assert batches[next] == At(config, model, batchFill);
      }
    }

    lemma NextNotFilling()
      requires Valid() && Enabled(config, model, Seal)
      ensures var t := Apply(config, model, Seal); At(config, t, t.batchFill).state != Filling
    {
      RunInv(config, run);
      SealedRecord(config, model);
    }

    // ---------------------------------------------------------------- operations

    ghost function CurrentState(): BatchState
      requires Valid()
      reads this, descRing, batches
    {
      At(config, model, batchFill).state
    }

    /** Spins until batch record i is no longer in flight. `turn` is the first unused turn
        of the device's schedule. */
    method WaitForRecord(i: nat, device: seq<set<nat>>, turn: nat) returns (ok: bool, next: nat)
      requires Valid() && i < config.batches && turn <= |device|
      modifies this`descHead, this`batchHead, this`inflight, this`run, this`model, batches
      ensures Valid() && Since(old(run), old(model)) && turn <= next <= |device|
      ensures descHead >= old(descHead) && Released(old(batches[..]))
      ensures ok ==> batches[i].state != InFlight
      ensures !ok ==> old(batches[i].state) == batches[i].state == InFlight && Enabled(config, model, Complete(batchHead))
    {
      next := turn;
      while batches[i].state == InFlight
        invariant Valid() && Since(old(run), old(model)) && turn <= next <= |device|
        invariant descHead >= old(descHead) && Released(old(batches[..]))
        decreases |device| - next, if batches[i].state == InFlight then 1 else 0
      {
        ReclaimCompleted();
        if batches[i].state == InFlight {
          if next == |device| {
            Stuck(i);
            return false, next;
          }
          DeviceStep(device[next]);
          next := next + 1;
        }
      }
      ok := true;
    }

    lemma Stuck(i: nat)
      requires Valid() && i < batches.Length && batches[i].state == InFlight && !Enabled(config, model, Reclaim)
      ensures Enabled(config, model, Complete(batchHead))
    {
      RunInv(config, run);
      InFlightHasPosition(config, model, i);
    }

    /** Spins until the descriptor ring has room. */
    method WaitForSpace(device: seq<set<nat>>) returns (ok: bool, next: nat)
      requires Ready()
      modifies this`descHead, this`batchHead, this`inflight, this`run, this`model, batches
      ensures Valid() && Since(old(run), old(model)) && next <= |device|
      ensures ok ==> Ready() && Available(config, model) > 0
      ensures old(Available(config, model)) > 0 ==> ok && model == old(model)
      ensures !ok ==> Available(config, model) == 0 && Enabled(config, model, Complete(batchHead))
    {
      next := 0;
      var room := DescAvailable();
      while room == 0
        invariant Ready() && Since(old(run), old(model)) && next <= |device| && room == Available(config, model)
        invariant old(Available(config, model)) > 0 ==> room > 0 && model == old(model)
        decreases |device| - next, if room == 0 then 1 else 0
      {
        ReclaimCompleted();
        room := DescAvailable();
        if room == 0 {
          if next == |device| {
            StuckFull();
            return false, next;
          }
          DeviceStep(device[next]);
          next := next + 1;
        }
      }
      ok := true;
    }

    lemma StuckFull()
      requires Ready() && Available(config, model) == 0 && !Enabled(config, model, Reclaim)
      ensures Enabled(config, model, Complete(batchHead))
    {
      RunInv(config, run);
      WaitsOnlyOnDevice(config, model);
    }

    // The current record can take the next descriptor.
    ghost predicate ReadyToAppend()
      reads this, descRing, batches
    {
      Valid() && Enabled(config, model, Append(0))
    }

    /** The ring's end: seals the current batch and opens the next record at cell 0. */
    method SealAtEnd(device: seq<set<nat>>, turn: nat) returns (ok: bool)
      requires Valid() && Enabled(config, model, Seal) && Available(config, model) > 0 && turn <= |device|
      modifies this`descHead, this`batchHead, this`batchFill, this`inflight, this`run, this`model, batches
      ensures Valid() && SealedSince(old(run), old(model), old(OpenCount(config, model)))
      ensures ok ==> ReadyToAppend()
      ensures !ok ==> MustWait(config, model) && Enabled(config, model, Complete(batchHead))
    {
      SealAndSubmitCurrent();
      var i := Masked(batchFill, config.batches);
      assert batches[i].state == CurrentState();
      var next;
      ok, next := WaitForRecord(i, device, turn);
      assert batches[i].state == CurrentState();
      if !ok { return; }
      assert Available(config, model) > 0;
      OpenCurrent();
    }

    /** Opens the current record if it is free; at the ring's end, moves on to the next. */
    method PrepareRecord(device: seq<set<nat>>, turn: nat) returns (ok: bool)
      requires Ready() && Available(config, model) > 0 && CurrentState() != InFlight && turn <= |device|
      modifies this`descHead, this`batchHead, this`batchFill, this`inflight, this`run, this`model, batches
      ensures Valid() && (ok ==> ReadyToAppend())
      ensures !old(AtEnd(config, model)) ==> ok && Since(old(run), old(model))
      ensures old(AtEnd(config, model)) ==> SealedSince(old(run), old(model), old(OpenCount(config, model)))
      ensures !ok ==> MustWait(config, model) && Enabled(config, model, Complete(batchHead))
    {
      ok := true;
      var i := Masked(batchFill, config.batches);
      assert batches[i] == At(config, model, batchFill);
      if batches[i].state == Free {
        OpenCurrent();
        assert batches[i] == At(config, model, batchFill);
      }
      var cell := Masked(descTail, config.slots);
      if !config.mirrored && batches[i].count > 0 && cell == 0 {
        ok := SealAtEnd(device, turn);
      }
    }

    lemma NotOverfull()
      requires Valid()
      ensures Available(config, model) >= 0
    {
      RunInv(config, run);
    }

    // Spins until the current record is free or filling.
    method AwaitCurrent(device: seq<set<nat>>, turn: nat) returns (ok: bool, next: nat)
      requires Ready() && turn <= |device|
      modifies this`descHead, this`batchHead, this`inflight, this`run, this`model, batches
      ensures Valid() && Since(old(run), old(model)) && descHead >= old(descHead) && next <= |device|
      ensures ok ==> Ready() && CurrentState() != InFlight
      ensures !ok ==> old(CurrentState()) == CurrentState() == InFlight && Enabled(config, model, Complete(batchHead))
    {
      var i := Masked(batchFill, config.batches);
      assert batches[i] == At(config, model, batchFill);
      ok, next := WaitForRecord(i, device, turn);
      assert batches[i] == At(config, model, batchFill);
    }

    // Waits for room in the ring and for the current record.
    method AwaitRoom(device: seq<set<nat>>) returns (ok: bool, next: nat)
      requires Ready()
      modifies this`descHead, this`batchHead, this`inflight, this`run, this`model, batches
      ensures Valid() && Since(old(run), old(model)) && next <= |device|
      ensures ok ==> Ready() && Available(config, model) > 0 && CurrentState() != InFlight
      ensures !ok ==> old(MustWait(config, model)) && MustWait(config, model) && Enabled(config, model, Complete(batchHead))
    {
      NotOverfull();
      ok, next := WaitForSpace(device);
      if ok {
        ok, next := AwaitCurrent(device, next);
      }
    }

    // All the waiting of submit_descriptor.
    method MakeRoom(device: seq<set<nat>>) returns (ok: bool)
      requires Ready()
      modifies this`descHead, this`batchHead, this`batchFill, this`inflight, this`run, this`model, batches
      ensures Valid() && (ok ==> ReadyToAppend())
      ensures !old(AtEnd(config, model)) ==> Since(old(run), old(model))
      ensures ok && old(AtEnd(config, model)) ==> SealedSince(old(run), old(model), old(OpenCount(config, model)))
      ensures !ok ==> Since(old(run), old(model)) || SealedSince(old(run), old(model), old(OpenCount(config, model)))
      ensures !old(MustWait(config, model)) && !old(AtEnd(config, model)) ==> ok
      ensures !ok ==> MustWait(config, model) && Enabled(config, model, Complete(batchHead))
    {
      OpenIs();
      var next;
      ok, next := AwaitRoom(device);
      if !ok { return; }
      OpenIs();
      ok := PrepareRecord(device, next);
    }

    // Copies one descriptor into the open batch and seals it at the limit.
    method AppendOne(desc: Descriptor)
      requires ReadyToAppend()
      modifies this, descRing, batches
      ensures Ready() && old(run) <= run && model.submitted == old(model.submitted) + [desc]
      ensures var n := old(OpenCount(config, model)) + 1;
              && Rang(old(model.payloads), model.payloads, if n == config.maxBatch then n else 0)
              && OpenCount(config, model) == if n == config.maxBatch then 0 else n
    {
      CopyIn(desc);
      var i := Masked(batchFill, config.batches);
      assert batches[i] == At(config, model, batchFill);
      if batches[i].count >= config.maxBatch {
        SealAndSubmitCurrent();
      }
    }

    /** Hands one descriptor to the ring, waiting for room and sealing at the ring's end
        and at the batch limit. A doorbell rings in no other case: at the end that of the
        open batch, at the limit that of a full one. A call that is still spinning when the
        schedule ends is waiting for a batch the device has not completed. */
    method SubmitDescriptor(desc: Descriptor, device: seq<set<nat>>) returns (done: bool)
      requires Ready()
      modifies this, descRing, batches
      ensures Valid() && old(run) <= run
      ensures done ==> Ready() && model.submitted == old(model.submitted) + [desc]
      ensures done ==> Rang(old(model.payloads), model.payloads, old(NextDoorbell()))
      ensures done ==> OpenCount(config, model) ==
                       if old(AtEnd(config, model)) then 1
                       else if old(OpenCount(config, model)) + 1 == config.maxBatch then 0
                       else old(OpenCount(config, model)) + 1
      ensures !old(MustWait(config, model)) && !old(AtEnd(config, model)) ==> done
      ensures !done ==> model.submitted == old(model.submitted) && MustWait(config, model) && Enabled(config, model, Complete(batchHead))
      ensures !done ==> || model.payloads == old(model.payloads)
                        || (old(AtEnd(config, model)) && Rang(old(model.payloads), model.payloads, old(OpenCount(config, model))))
    {
      OpenIs();
      done := MakeRoom(device);
      if !done { return; }
      OpenIs();
      AppendOne(desc);
    }

    /** Rings the doorbell of a partial batch, then reclaims: nothing stays unsealed. */
    method PrePoll()
      requires Ready()
      modifies this, batches
      ensures Ready() && old(run) <= run && model.submitted == old(model.submitted)
      ensures Rang(old(model.payloads), model.payloads, old(OpenCount(config, model)))
      ensures CurrentState() != Filling && !Enabled(config, model, Reclaim)
      ensures config.Sound() ==> Flatten(model.payloads) == model.submitted
    {
      SealAndSubmitCurrent();
      ReclaimCompleted();
      Known();
    }

    // Spins until no record is in flight.
    method WaitForAll(device: seq<set<nat>>) returns (ok: bool)
      requires Valid() && CurrentState() != Filling
      modifies this`descHead, this`batchHead, this`inflight, this`run, this`model, batches
      ensures Valid() && Since(old(run), old(model)) && CurrentState() != Filling
      ensures ok ==> forall j :: 0 <= j < batches.Length ==> batches[j].state != InFlight
      ensures !ok ==> Enabled(config, model, Complete(batchHead))
    {
      var next := 0;
      ghost var current := Masked(batchFill, config.batches);
      for i := 0 to config.batches
        invariant Valid() && Since(old(run), old(model)) && next <= |device|
        invariant batches[current].state != Filling
        invariant forall j :: 0 <= j < i ==> batches[j].state != InFlight
      {
        ok, next := WaitForRecord(i, device, next);
        if !ok { return; }
      }
      ok := true;
    }

    /** Rings the last doorbell and waits for the device: the ring ends up empty, and the
        device has read every descriptor ever submitted. */
    method Drain(device: seq<set<nat>>) returns (done: bool)
      requires Ready()
      modifies this, batches
      ensures Ready() && old(run) <= run && model.submitted == old(model.submitted)
      ensures Rang(old(model.payloads), model.payloads, old(OpenCount(config, model)))
      ensures done ==> forall i :: 0 <= i < batches.Length ==> batches[i].state == Free
      ensures done ==> descHead == descTail && batchHead == batchFill
      ensures done ==> forall b: nat :: b < |model.payloads| ==> b in model.fetched
      ensures done && config.Sound() ==> Flatten(model.payloads) == model.submitted
      ensures !done ==> Enabled(config, model, Complete(batchHead))
    {
      SealAndSubmitCurrent();
      done := WaitForAll(device);
      if done { Quiescent(); }
    }

    lemma Quiescent()
      requires Valid() && CurrentState() != Filling
      requires forall j :: 0 <= j < batches.Length ==> batches[j].state != InFlight
      ensures forall i :: 0 <= i < batches.Length ==> batches[i].state == Free
      ensures descHead == descTail && batchHead == batchFill
      ensures forall b: nat :: b < |model.payloads| ==> b in model.fetched
      ensures config.Sound() ==> Flatten(model.payloads) == model.submitted
    {
      Known();
      AllFree(config, model);
    }
  }
}
