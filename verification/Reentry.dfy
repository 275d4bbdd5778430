/**
 The engine gives the plain ring a callback to run while it waits: the callback polls, and a
 page fault notified there submits a descriptor, entering `submit_descriptor` again inside
 the wait. After the first two waits the code looks at the current record again, and the
 space it does not look at again is there (`SpaceAfterWait`), so what happens in them is a
 run of BatchRing like any other. The third, after the seal at the ring's end, goes on by
 resetting the current record unconditionally, with its start at cell 0.

 This machine adds that path: `WrapSeal` and `Reset` are its two ends, and `waits` are the
 calls between them, innermost last, each with whether its callback may have run.
 */
module Reentry {
  import opened Submission
  import opened BatchRing
  import MirroredRing

  datatype State = State(ring: Ring, waits: seq<bool>)

  datatype Move =
    | Plain(step: Step)
    | WrapSeal    // the seal at the ring's end, before the wait
    | Callback    // the wait finds the current record in flight and runs the callback
    | Reset       // the wait is over: the current record starts at cell 0, empty

  // The seal at the ring's end: the open batch holds something and the next cell is cell 0.
  ghost predicate AtEnd(c: Config, s: Ring)
    requires Shaped(c, s)
  {
    var e := At(c, s, s.batchFill);
    SlotsPositive(c);
    e.state == Filling && 0 < e.count < c.maxBatch && Index(s.descTail, c.slots) == 0
  }

  ghost predicate Allowed(c: Config, s: State, move: Move)
    requires Shaped(c, s.ring)
  {
    match move
    case Plain(step) =>
      && Enabled(c, s.ring, step)
      && (step.Reclaim? || step.Complete? || s.waits == [] || s.waits[|s.waits| - 1])
    case WrapSeal => AtEnd(c, s.ring) && (s.waits == [] || s.waits[|s.waits| - 1])
    case Callback => s.waits != [] && At(c, s.ring, s.ring.batchFill).state == InFlight
    case Reset => s.waits != [] && At(c, s.ring, s.ring.batchFill).state != InFlight
  }

  ghost function ResetRing(c: Config, s: Ring): (t: Ring)
    requires Shaped(c, s)
    ensures Shaped(c, t)
  {
    s.(batches := s.batches[Index(s.batchFill, c.batches) := Batch(0, 0, Filling, 0)])
  }

  ghost function Moved(c: Config, s: State, move: Move): (t: State)
    requires Shaped(c, s.ring) && Allowed(c, s, move)
    ensures Shaped(c, t.ring)
  {
    match move
    case Plain(step) => s.(ring := Apply(c, s.ring, step))
    case WrapSeal => State(Apply(c, s.ring, Seal), s.waits + [false])
    case Callback => s.(waits := s.waits[|s.waits| - 1 := true])
    case Reset => State(ResetRing(c, s.ring), s.waits[..|s.waits| - 1])
  }

  ghost predicate LegalMoves(c: Config, run: seq<Move>)
    requires c.Valid()
    decreases |run|, 0
  {
    run == [] || (LegalMoves(c, run[..|run| - 1]) && Allowed(c, AfterMoves(c, run[..|run| - 1]), run[|run| - 1]))
  }

  ghost function AfterMoves(c: Config, run: seq<Move>): (s: State)
    requires c.Valid() && LegalMoves(c, run)
    ensures Shaped(c, s.ring)
    decreases |run|, 1
  {
    if run == [] then State(Init(c), []) else Moved(c, AfterMoves(c, run[..|run| - 1]), run[|run| - 1])
  }

  /** Once the current record is not in flight, and not full, there is space in the ring. */
  lemma SpaceAfterWait(c: Config, s: Ring)
    requires Inv(c, s) && At(c, s, s.batchFill).state != InFlight
    requires At(c, s, s.batchFill).state == Filling ==> At(c, s, s.batchFill).count < c.maxBatch
    ensures Available(c, s) > 0
  {
    Room(c, s);
    var d := s.batchFill - s.batchHead;
    SpanBound(c, s, s.batchHead, s.batchFill);
    assert s.descTail - s.cuts[s.batchFill] < c.maxBatch;
    assert (d + 1) * c.maxBatch == d * c.maxBatch + c.maxBatch;
    MulMonotone(d + 1, c.batches, c.maxBatch);
  }

  // ---------------------------------------------------------------- when a reset is harmless

  // The record is empty and cell 0 is next, as when nothing was submitted during the wait.
  ghost predicate Harmless(c: Config, s: Ring)
    requires Shaped(c, s)
  {
    SlotsPositive(c);
    var e := At(c, s, s.batchFill);
    Index(s.descTail, c.slots) == 0 && (e.state == Free || (e.state == Filling && e.count == 0))
  }

  lemma EmptyRecord(c: Config, s: Ring)
    requires Inv(c, s) && At(c, s, s.batchFill).state == Filling && At(c, s, s.batchFill).count == 0
    ensures At(c, s, s.batchFill) == Batch(Index(s.descTail, c.slots), 0, Filling, 0)
  {
    Room(c, s);
  }

  // A harmless reset opens the record, or changes nothing.
  lemma HarmlessIsOpen(c: Config, s: Ring)
    requires Inv(c, s) && Harmless(c, s)
    ensures ResetRing(c, s) == if At(c, s, s.batchFill).state == Free then Apply(c, s, Open) else s
  {
    if At(c, s, s.batchFill).state == Filling { EmptyRecord(c, s); }
  }

  /** The reset keeps the ring's invariant if and only if it is harmless. */
  lemma ResetKeepsInvIff(c: Config, s: Ring)
    requires Inv(c, s) && At(c, s, s.batchFill).state != InFlight
    ensures Inv(c, ResetRing(c, s)) <==> Harmless(c, s)
  {
    var t := ResetRing(c, s);
    if Harmless(c, s) {
      HarmlessIsOpen(c, s);
      if At(c, s, s.batchFill).state == Free { OpenKeepsInv(c, s); }
    }
    if Inv(c, t) {
      assert At(c, t, t.batchFill) == Batch(0, 0, Filling, 0);
      Room(c, t);
      assert s.cuts[s.batchFill] == s.descTail;
    }
  }

  // Every reset of the run is harmless.
  ghost predicate AllHarmless(c: Config, run: seq<Move>)
    requires c.Valid() && LegalMoves(c, run)
    decreases |run|
  {
    run == [] || (AllHarmless(c, run[..|run| - 1]) && (run[|run| - 1] == Reset ==> Harmless(c, AfterMoves(c, run[..|run| - 1]).ring)))
  }

  lemma MoveKeeps(c: Config, s: State, move: Move)
    requires Inv(c, s.ring) && c.Sound() && Faithful(s.ring) && Allowed(c, s, move) && (move == Reset ==> Harmless(c, s.ring))
    ensures Inv(c, Moved(c, s, move).ring) && Faithful(Moved(c, s, move).ring)
  {
    match move
    case Plain(step) =>
      StepKeepsInv(c, s.ring, step);
      StepKeepsFaithful(c, s.ring, step);
    case WrapSeal =>
      StepKeepsInv(c, s.ring, Seal);
      StepKeepsFaithful(c, s.ring, Seal);
    case Callback =>
    case Reset =>
      HarmlessIsOpen(c, s.ring);
      if At(c, s.ring, s.ring.batchFill).state == Free {
        StepKeepsInv(c, s.ring, Open);
        StepKeepsFaithful(c, s.ring, Open);
      }
  }

  lemma {:induction false} HarmlessInv(c: Config, run: seq<Move>)
    requires c.Valid() && c.Sound() && LegalMoves(c, run) && AllHarmless(c, run)
    ensures Inv(c, AfterMoves(c, run).ring) && Faithful(AfterMoves(c, run).ring)
    decreases |run|
  {
    if run == [] {
      InitInv(c);
    } else {
      HarmlessInv(c, run[..|run| - 1]);
      MoveKeeps(c, AfterMoves(c, run[..|run| - 1]), run[|run| - 1]);
    }
  }

  /** With any amount of re-entry, as long as every reset is harmless, nothing is missing from
      doorbells and open batch. */
  lemma HarmlessDelivers(c: Config, run: seq<Move>)
    requires c.Valid() && c.Sound() && LegalMoves(c, run) && AllHarmless(c, run)
    ensures MirroredRing.Delivers(c, AfterMoves(c, run).ring)
  {
    HarmlessInv(c, run);
    NothingMissing(c, AfterMoves(c, run).ring);
  }

  // With batches of one descriptor a batch is never open when the ring's end is reached.
  lemma {:induction false} SinglesNeverReset(c: Config, run: seq<Move>)
    requires c.Valid() && c.maxBatch == 1 && LegalMoves(c, run)
    ensures AfterMoves(c, run).waits == [] && AllHarmless(c, run)
    decreases |run|
  {
    if run != [] { SinglesNeverReset(c, run[..|run| - 1]); }
  }

  // ---------------------------------------------------------------- a lost descriptor

  // j batches of two in flight, the oldest numbered k, and the next record free.
  ghost predicate Paired(c: Config, s: Ring, k: nat, j: nat)
    requires Shaped(c, s)
  {
    && s.batchHead == s.descHead == k && s.batchFill == k + j && s.descTail == k + 2 * j
    && At(c, s, s.batchFill).state == Free && k !in s.fetched
  }

  lemma PairSteps(c: Config, s: Ring, k: nat, j: nat)
    requires Inv(c, s) && Paired(c, s, k, j) && c.maxBatch >= 2 && j + 1 < c.batches && k + 2 * j + 1 < c.slots
    ensures Enabled(c, s, Open)
    ensures var s1 := Apply(c, s, Open);
            Enabled(c, s1, Append(1)) &&
            var s2 := Apply(c, s1, Append(1));
            Enabled(c, s2, Append(1)) &&
            var s3 := Apply(c, s2, Append(1));
            Enabled(c, s3, Seal) && Paired(c, Apply(c, s3, Seal), k, j + 1)
  {
    IndexStep(0, k + 2 * j, c.slots);
    IndexStep(0, k + 2 * j + 1, c.slots);
    IndexDistinct(k + j, k + j + 1, c.batches);
    assert At(c, s, k + j + 1).state == Free;
  }

  lemma {:induction false} Pairs(c: Config, k: nat, j: nat) returns (r: seq<Step>)
    requires c.Valid() && c.maxBatch >= 2 && j < c.batches && k + 2 * j < c.slots
    ensures Legal(c, r) && Paired(c, Exec(c, r), k, j)
    decreases j
  {
    if j == 0 {
      r := MirroredRing.Singles(c, k);
      RunInv(c, r);
    } else {
      var r0 := Pairs(c, k, j - 1);
      RunInv(c, r0);
      PairSteps(c, Exec(c, r0), k, j - 1);
      r := MirroredRing.Push(c, MirroredRing.Push(c, MirroredRing.Push(c, MirroredRing.Push(c, r0, Open), Append(1)), Append(1)), Seal);
    }
  }

  // One more descriptor fills the ring's last cell; its batch is open, and once it is
  // sealed every record is in flight.
  lemma EndSteps(c: Config, s: Ring, k: nat)
    requires Inv(c, s) && Paired(c, s, k, c.batches - 1) && c.batches > 1 && c.maxBatch >= 2 && k + 2 * (c.batches - 1) == c.slots - 1
    ensures Enabled(c, s, Open)
    ensures var s1 := Apply(c, s, Open);
            Enabled(c, s1, Append(1)) &&
            var s2 := Apply(c, s1, Append(1));
            AtEnd(c, s2) && Enabled(c, s2, Seal) && Full(c, Apply(c, s2, Seal), k)
  {
    IndexStep(0, c.slots - 1, c.slots);
    IndexStep(c.slots - 1, 1, c.slots);
    IndexStep(k, c.batches, c.batches);
    IndexDistinct(k, k + c.batches - 1, c.batches);
    assert At(c, s, k).state == InFlight;
  }

  // Every record is in flight, and the ring's last cell was the last one filled.
  ghost predicate Full(c: Config, s: Ring, k: nat)
    requires Shaped(c, s)
  {
    && s.batchHead == k == s.descHead && s.batchFill == k + c.batches && s.descTail == c.slots
    && At(c, s, s.batchFill).state == InFlight && k !in s.fetched
  }

  // The oldest batch was completed and reclaimed: its record is current and free.
  ghost predicate Freed(c: Config, s: Ring, k: nat)
    requires Shaped(c, s)
  {
    && s.batchHead == k + 1 && s.batchFill == k + c.batches && s.descTail == c.slots && s.descHead >= 2
    && At(c, s, s.batchFill).state == Free
  }

  lemma FreeOldest(c: Config, s: Ring, k: nat)
    requires Inv(c, s) && Full(c, s, k) && k >= 1
    ensures Enabled(c, s, Complete(k))
    ensures var t := Apply(c, s, Complete(k)); Enabled(c, t, Reclaim) && Freed(c, Apply(c, t, Reclaim), k)
  {
    assert At(c, s, k).state == InFlight;
    SameSlot(c, s);
    assert s.cuts[k] < s.cuts[k + 1] && Describes(c, At(c, s, k), s.cuts[k], s.cuts[k + 1]);
  }

  // The inner call has put one descriptor into the new current batch; the record after that
  // is in flight.
  ghost predicate Entered(c: Config, s: Ring)
    requires Shaped(c, s)
  {
    && At(c, s, s.batchFill).state == Filling && At(c, s, s.batchFill).count == 1
    && s.descTail == c.slots + 1 && Available(c, s) > 0
    && At(c, s, s.batchFill + 1).state == InFlight
  }

  lemma InnerSteps(c: Config, s: Ring, k: nat)
    requires Inv(c, s) && Freed(c, s, k) && c.batches > 1
    ensures Enabled(c, s, Open)
    ensures var s1 := Apply(c, s, Open);
            Enabled(c, s1, Append(2)) && Entered(c, Apply(c, s1, Append(2)))
  {
    IndexStep(k + 1, c.batches, c.batches);
    IndexDistinct(k + 1, k + c.batches, c.batches);
    assert At(c, s, k + 1).state == InFlight;
  }

  // Nothing is left unsealed, and yet the doorbells lack a submitted descriptor.
  ghost predicate Lost(c: Config, s: Ring)
    requires Shaped(c, s)
  {
    Unsealed(c, s) == [] && |Flatten(s.payloads)| < |s.submitted|
  }

  // The outer call's own descriptor, after the reset.
  ghost function OuterAppended(c: Config, s: Ring): (t: Ring)
    requires Shaped(c, s) && Entered(c, s) && c.maxBatch >= 2
    ensures Shaped(c, t) && Enabled(c, ResetRing(c, s), Append(3)) && t == Apply(c, ResetRing(c, s), Append(3))
    ensures At(c, t, t.batchFill) == Batch(0, 1, Filling, 0)
  {
    Apply(c, ResetRing(c, s), Append(3))
  }

  lemma CountsOff(c: Config, s: Ring)
    requires Inv(c, s) && Faithful(s) && Entered(c, s) && c.maxBatch >= 2
    ensures var t := OuterAppended(c, s);
            t.payloads == s.payloads && |t.submitted| == c.slots + 2 && |Flatten(s.payloads)| == c.slots
  {
    Room(c, s);
    assert Describes(c, At(c, s, s.batchFill), s.cuts[s.batchFill], s.descTail);
  }

  lemma NoneUnsealed(c: Config, s: Ring)
    requires Inv(c, s) && Entered(c, s) && c.batches > 1 && c.maxBatch >= 2
    ensures var t := Apply(c, OuterAppended(c, s), Seal); At(c, t, t.batchFill).state == InFlight
  {
    IndexDistinct(s.batchFill, s.batchFill + 1, c.batches);
  }

  // The outer call resets the record, appends its own descriptor and the batch is sealed:
  // two descriptors were submitted and the doorbell names one.
  lemma LossSteps(c: Config, s: Ring)
    requires Inv(c, s) && Faithful(s) && Entered(c, s) && c.batches > 1 && c.maxBatch >= 2
    ensures var t := OuterAppended(c, s); Enabled(c, t, Seal) && Lost(c, Apply(c, t, Seal))
  {
    var t := OuterAppended(c, s);
    CountsOff(c, s);
    NoneUnsealed(c, s);
    FlattenAppend(t.payloads, Fetch(t.cells, 0, 1));
  }

  // ---------------------------------------------------------------- the run

  ghost function Extended(c: Config, run: seq<Move>, move: Move): (r: seq<Move>)
    requires c.Valid() && LegalMoves(c, run) && Allowed(c, AfterMoves(c, run), move)
    ensures LegalMoves(c, r) && AfterMoves(c, r) == Moved(c, AfterMoves(c, run), move)
  {
    assert (run + [move])[..|run|] == run;
    run + [move]
  }

  // A run without re-entry is a run.
  lemma {:induction false} Lifted(c: Config, run: seq<Step>) returns (r: seq<Move>)
    requires c.Valid() && Legal(c, run)
    ensures LegalMoves(c, r) && AfterMoves(c, r) == State(Exec(c, run), [])
    decreases |run|
  {
    if run == [] {
      r := [];
    } else {
      r := Lifted(c, run[..|run| - 1]);
      r := Extended(c, r, Plain(run[|run| - 1]));
    }
  }

  // The ring's end is reached with a batch open and every other record in flight.
  lemma EndReached(c: Config, k: nat) returns (r: seq<Step>)
    requires c.Valid() && c.batches > 1 && c.maxBatch >= 2 && k + 2 * (c.batches - 1) == c.slots - 1
    ensures Legal(c, r) && AtEnd(c, Exec(c, r)) && Enabled(c, Exec(c, r), Seal)
    ensures var t := Apply(c, Exec(c, r), Seal); Inv(c, t) && Full(c, t, k) && (c.Sound() ==> Faithful(t))
  {
    var r0 := Pairs(c, k, c.batches - 1);
    RunInv(c, r0);
    EndSteps(c, Exec(c, r0), k);
    r := MirroredRing.Push(c, MirroredRing.Push(c, r0, Open), Append(1));
    RunInv(c, r);
    SealKeepsInv(c, Exec(c, r));
    if c.Sound() { SealKeepsFaithful(c, Exec(c, r)); }
  }

  // The outer call waits there.
  lemma OuterWaits(c: Config, k: nat) returns (r: seq<Move>)
    requires c.Valid() && c.batches > 1 && c.maxBatch >= 2 && k + 2 * (c.batches - 1) == c.slots - 1
    ensures LegalMoves(c, r) && AfterMoves(c, r).waits == [true]
    ensures Inv(c, AfterMoves(c, r).ring) && Full(c, AfterMoves(c, r).ring, k) && (c.Sound() ==> Faithful(AfterMoves(c, r).ring))
  {
    var steps := EndReached(c, k);
    r := Lifted(c, steps);
    r := Extended(c, r, WrapSeal);
    r := Extended(c, r, Callback);
  }

  // The oldest batch is done, and the wait reclaims it.
  lemma OldestReclaimed(c: Config, k: nat, run: seq<Move>) returns (r: seq<Move>)
    requires c.Valid() && c.Sound() && k >= 1 && LegalMoves(c, run) && AfterMoves(c, run).waits == [true]
    requires Inv(c, AfterMoves(c, run).ring) && Full(c, AfterMoves(c, run).ring, k) && Faithful(AfterMoves(c, run).ring)
    ensures LegalMoves(c, r) && AfterMoves(c, r).waits == [true]
    ensures Inv(c, AfterMoves(c, r).ring) && Freed(c, AfterMoves(c, r).ring, k) && Faithful(AfterMoves(c, r).ring)
  {
    var s := AfterMoves(c, run);
    FreeOldest(c, s.ring, k);
    MoveKeeps(c, s, Plain(Complete(k)));
    r := Extended(c, run, Plain(Complete(k)));
    MoveKeeps(c, AfterMoves(c, r), Plain(Reclaim));
    r := Extended(c, r, Plain(Reclaim));
  }

  // The callback of the wait submits a descriptor.
  lemma InnerSubmits(c: Config, k: nat, run: seq<Move>) returns (r: seq<Move>)
    requires c.Valid() && c.Sound() && c.batches > 1 && LegalMoves(c, run) && AfterMoves(c, run).waits == [true]
    requires Inv(c, AfterMoves(c, run).ring) && Freed(c, AfterMoves(c, run).ring, k) && Faithful(AfterMoves(c, run).ring)
    ensures LegalMoves(c, r) && AfterMoves(c, r).waits == [true]
    ensures Inv(c, AfterMoves(c, r).ring) && Entered(c, AfterMoves(c, r).ring) && Faithful(AfterMoves(c, r).ring)
  {
    var s := AfterMoves(c, run);
    InnerSteps(c, s.ring, k);
    MoveKeeps(c, s, Plain(Open));
    var r1 := Extended(c, run, Plain(Open));
    MoveKeeps(c, AfterMoves(c, r1), Plain(Append(2)));
    r := Extended(c, r1, Plain(Append(2)));
  }

  // The run in which a descriptor is lost.
  lemma DescriptorLost(c: Config) returns (r: seq<Move>)
    requires c.Valid() && !c.mirrored && c.batches > 1 && c.maxBatch >= 2
    ensures LegalMoves(c, r) && Lost(c, AfterMoves(c, r).ring)
  {
    MulMonotone(2, c.maxBatch, c.batches);
    var k := c.slots - 1 - 2 * (c.batches - 1);
    r := OuterWaits(c, k);
    r := OldestReclaimed(c, k, r);
    r := InnerSubmits(c, k, r);
    LossSteps(c, AfterMoves(c, r).ring);
    r := Extended(c, Extended(c, Extended(c, r, Reset), Plain(Append(3))), Plain(Seal));
  }

  /** Under re-entry no run of the plain ring loses a descriptor if and only if batches hold
      one descriptor each. The source has sixteen records; with a single one a batch of one
      descriptor sealed at the ring's end is reclaimed before the wait. */
  lemma ReentryKeepsAllIff(c: Config)
    requires c.Valid() && !c.mirrored && c.batches > 1
    ensures (forall run :: LegalMoves(c, run) ==> MirroredRing.Delivers(c, AfterMoves(c, run).ring)) <==> c.maxBatch == 1
  {
    if c.maxBatch == 1 {
      forall run | LegalMoves(c, run) ensures MirroredRing.Delivers(c, AfterMoves(c, run).ring) {
        SinglesNeverReset(c, run);
        HarmlessDelivers(c, run);
      }
    } else {
      var run := DescriptorLost(c);
      var s := AfterMoves(c, run).ring;
      assert |Flatten(s.payloads) + Unsealed(c, s)| < |s.submitted|;
      assert !MirroredRing.Delivers(c, AfterMoves(c, run).ring);
    }
  }
}
