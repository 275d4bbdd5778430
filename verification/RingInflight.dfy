/**
 The in-flight counter of the two ring submitters. A batch of one descriptor leaves the
 counter when its doorbell rings and is taken off again when its record is reclaimed, so
 the counter can fall short of the batches really in flight; it never exceeds them.
 */
module RingInflight {
  import opened Submission
  import opened BatchRing

  // How many of the batches lo .. hi - 1 hold two or more descriptors.
  ghost function Longer(cuts: seq<nat>, lo: nat, hi: nat): (n: nat)
    requires hi < |cuts|
    ensures n <= if lo <= hi then hi - lo else 0
  {
    if hi <= lo then 0
    else Longer(cuts, lo, hi - 1) + if cuts[hi] > cuts[hi - 1] + 1 then 1 else 0
  }

  lemma {:induction false} LongerPrefix(cuts: seq<nat>, end: nat, lo: nat, hi: nat)
    requires hi < |cuts|
    ensures Longer(cuts + [end], lo, hi) == Longer(cuts, lo, hi)
    decreases hi
  {
    if lo < hi { LongerPrefix(cuts, end, lo, hi - 1); }
  }

  lemma {:induction false} LongerFirst(cuts: seq<nat>, lo: nat, hi: nat)
    requires lo < hi < |cuts|
    ensures Longer(cuts, lo, hi) == Longer(cuts, lo + 1, hi) + if cuts[lo + 1] > cuts[lo] + 1 then 1 else 0
    decreases hi
  {
    if lo + 1 < hi { LongerFirst(cuts, lo, hi - 1); }
  }

  // The batches of two or more descriptors between doorbell and reclaim.
  ghost function Outstanding(s: Ring): nat
    requires s.batchHead <= s.batchFill < |s.cuts|
  {
    Longer(s.cuts, s.batchHead, s.batchFill)
  }

  // The single-descriptor batches reclaimed so far.
  ghost function SinglesReclaimed(s: Ring): nat
    requires s.batchHead < |s.cuts|
  {
    s.batchHead - Longer(s.cuts, 0, s.batchHead)
  }

  ghost predicate Within(s: Ring)
    requires s.batchHead <= s.batchFill < |s.cuts|
  {
    s.inflight <= Outstanding(s) <= s.inflight + SinglesReclaimed(s)
  }

  // ---------------------------------------------------------------- steps

  // What a doorbell changes.
  lemma SealChanges(c: Config, s: Ring)
    requires Inv(c, s) && Enabled(c, s, Seal)
    ensures var t := Apply(c, s, Seal);
            && t.batchHead == s.batchHead && t.batchFill == s.batchFill + 1 && t.cuts == s.cuts + [s.descTail]
            && t.inflight == s.inflight + if s.descTail > s.cuts[s.batchFill] + 1 then 1 else 0
  {
    OpenIsSpan(c, s);
  }

  lemma SealCounts(s: Ring, t: Ring)
    requires s.batchHead <= s.batchFill && |s.cuts| == s.batchFill + 1
    requires t.batchHead == s.batchHead && t.batchFill == s.batchFill + 1 && t.cuts == s.cuts + [s.descTail]
    ensures Outstanding(t) == Outstanding(s) + if s.descTail > s.cuts[s.batchFill] + 1 then 1 else 0
    ensures SinglesReclaimed(t) == SinglesReclaimed(s)
  {
    LongerPrefix(s.cuts, s.descTail, s.batchHead, s.batchFill);
    LongerPrefix(s.cuts, s.descTail, 0, s.batchHead);
  }

  lemma ReclaimChanges(c: Config, s: Ring)
    requires Inv(c, s) && Enabled(c, s, Reclaim)
    ensures var t := Apply(c, s, Reclaim);
            && t.batchHead == s.batchHead + 1 <= t.batchFill == s.batchFill && t.cuts == s.cuts
            && t.inflight == NotifyComplete(s.inflight, 1)
  {
  }

  lemma ReclaimCounts(s: Ring, t: Ring)
    requires s.batchHead < s.batchFill < |s.cuts|
    requires t.batchHead == s.batchHead + 1 && t.batchFill == s.batchFill && t.cuts == s.cuts
    ensures var long := s.cuts[s.batchHead + 1] > s.cuts[s.batchHead] + 1;
            && Outstanding(t) == Outstanding(s) - (if long then 1 else 0)
            && SinglesReclaimed(t) == SinglesReclaimed(s) + if long then 0 else 1
  {
    LongerFirst(s.cuts, s.batchHead, s.batchFill);
  }

  lemma OthersCount(c: Config, s: Ring, step: Step)
    requires Inv(c, s) && Enabled(c, s, step) && step != Seal && step != Reclaim
    ensures var t := Apply(c, s, step);
            t.batchHead == s.batchHead && t.batchFill == s.batchFill && t.cuts == s.cuts && t.inflight == s.inflight
  {
  }

  lemma StepWithin(c: Config, s: Ring, step: Step)
    requires Inv(c, s) && Enabled(c, s, step) && Within(s)
    ensures var t := Apply(c, s, step); t.batchHead <= t.batchFill < |t.cuts| && Within(t)
  {
    if step == Seal {
      SealChanges(c, s);
      SealCounts(s, Apply(c, s, Seal));
    } else if step == Reclaim {
      ReclaimChanges(c, s);
      ReclaimCounts(s, Apply(c, s, Reclaim));
    } else {
      OthersCount(c, s, step);
    }
  }

  /** After every run the counter is at most the number of batches of two or more descriptors
      in flight, and short of it by at most the number of single-descriptor batches
      reclaimed. */
  lemma {:induction false} InflightWithin(c: Config, run: seq<Step>)
    requires c.Valid() && Legal(c, run)
    ensures var s := Exec(c, run);
            && s.batchHead <= s.batchFill < |s.cuts|
            && s.inflight <= Outstanding(s) <= s.inflight + SinglesReclaimed(s)
    decreases |run|
  {
    if run != [] {
      var before := run[..|run| - 1];
      InflightWithin(c, before);
      RunInv(c, before);
      StepWithin(c, Exec(c, before), run[|run| - 1]);
    }
  }

  // ---------------------------------------------------------------- when it is exact

  ghost predicate Exact(s: Ring) {
    s.batchHead <= s.batchFill < |s.cuts| && s.inflight == Outstanding(s)
  }

  lemma {:induction false} AllSingle(c: Config, s: Ring, lo: nat, hi: nat)
    requires Inv(c, s) && c.maxBatch == 1 && hi <= s.batchFill
    ensures Longer(s.cuts, lo, hi) == 0
    decreases hi
  {
    if lo < hi {
      assert s.cuts[(hi - 1) + 1] <= s.cuts[hi - 1] + c.maxBatch;
      AllSingle(c, s, lo, hi - 1);
    }
  }

  // With one record there is at most one batch in flight.
  lemma OneRecordExact(c: Config, s: Ring, step: Step)
    requires Inv(c, s) && Enabled(c, s, step) && c.batches == 1 && Exact(s)
    ensures Exact(Apply(c, s, step))
  {
    if step == Seal {
      Room(c, s);
      SealChanges(c, s);
      SealCounts(s, Apply(c, s, Seal));
    } else if step == Reclaim {
      ReclaimChanges(c, s);
      ReclaimCounts(s, Apply(c, s, Reclaim));
    } else {
      OthersCount(c, s, step);
    }
  }

  lemma {:induction false} ExactRun(c: Config, run: seq<Step>)
    requires c.Valid() && Legal(c, run) && (c.maxBatch == 1 || c.batches == 1)
    ensures Exact(Exec(c, run))
    decreases |run|
  {
    InflightWithin(c, run);
    RunInv(c, run);
    if c.maxBatch == 1 {
      AllSingle(c, Exec(c, run), Exec(c, run).batchHead, Exec(c, run).batchFill);
    } else if run != [] {
      var before := run[..|run| - 1];
      ExactRun(c, before);
      RunInv(c, before);
      OneRecordExact(c, Exec(c, before), run[|run| - 1]);
    }
  }

  lemma Then(c: Config, run: seq<Step>, step: Step) returns (longer: seq<Step>)
    requires c.Valid() && Legal(c, run) && Enabled(c, Exec(c, run), step)
    ensures Legal(c, longer) && Exec(c, longer) == Apply(c, Exec(c, run), step)
  {
    Extend(c, run, step);
    longer := run + [step];
  }

  // Record 0 is as given, and the first free cell is `tail`, within batch 0 or batch 1.
  ghost predicate Looks(c: Config, s: Ring, tail: nat, fill: nat, first: Batch, second: BatchState, cuts: seq<nat>) {
    && Shaped(c, s) && c.batches >= 2 && s.descHead == 0 && s.descTail == tail && s.batchHead == 0 && s.batchFill == fill
    && s.inflight == 0 && s.batches[0] == first && s.batches[1].state == second && s.cuts == cuts
  }

  lemma FourSlots(c: Config)
    requires c.Valid() && c.maxBatch >= 2 && c.batches >= 2
    ensures c.slots >= 4
    ensures forall i: nat :: i < 4 ==> Index(i, c.slots) == i
    ensures Index(0, c.batches) == 0 && Index(1, c.batches) == 1
  {
    assert c.maxBatch * c.batches >= 2 * c.batches;
  }

  // A descriptor in record 0.
  lemma OneAppended(c: Config) returns (run: seq<Step>)
    requires c.Valid() && c.maxBatch >= 2 && c.batches >= 2
    ensures Legal(c, run) && Looks(c, Exec(c, run), 1, 0, Batch(0, 1, Filling, 0), Free, [0])
  {
    FourSlots(c);
    assert Looks(c, Exec(c, []), 0, 0, Batch(0, 0, Free, 0), Free, [0]);
    var filling := Then(c, [], Open);
    assert Looks(c, Exec(c, filling), 0, 0, Batch(0, 0, Filling, 0), Free, [0]);
    run := Then(c, filling, Append(1));
  }

  // Its doorbell, and the next record filling.
  lemma OneSealed(c: Config) returns (run: seq<Step>)
    requires c.Valid() && c.maxBatch >= 2 && c.batches >= 2
    ensures Legal(c, run) && Looks(c, Exec(c, run), 1, 1, Batch(0, 1, InFlight, 1), Filling, [0, 1])
    ensures Exec(c, run).batches[1].count == 0
  {
    FourSlots(c);
    var one := OneAppended(c);
    var sealed := Then(c, one, Seal);
    assert Looks(c, Exec(c, sealed), 1, 1, Batch(0, 1, InFlight, 1), Free, [0, 1]);
    run := Then(c, sealed, Open);
  }

  lemma TwoAppended(c: Config) returns (run: seq<Step>)
    requires c.Valid() && c.maxBatch >= 2 && c.batches >= 2
    ensures Legal(c, run) && Looks(c, Exec(c, run), 3, 1, Batch(0, 1, InFlight, 1), Filling, [0, 1])
    ensures Exec(c, run).batches[1].count == 2
  {
    FourSlots(c);
    var sealed := OneSealed(c);
    var one := Then(c, sealed, Append(1));
    assert Looks(c, Exec(c, one), 2, 1, Batch(0, 1, InFlight, 1), Filling, [0, 1]);
    run := Then(c, one, Append(1));
  }

  /** A single-descriptor batch reclaimed while a longer one is in flight leaves the counter
      at 0. */
  lemma TooLow(c: Config) returns (run: seq<Step>)
    requires c.Valid() && c.maxBatch >= 2 && c.batches >= 2
    ensures Legal(c, run)
    ensures var s := Exec(c, run); s.batchHead <= s.batchFill < |s.cuts| && s.inflight == 0 && Outstanding(s) == 1
  {
    FourSlots(c);
    var two := TwoAppended(c);
    var sealed := Then(c, two, Seal);
    assert Exec(c, sealed).inflight == 1 && Exec(c, sealed).cuts == [0, 1, 3];
    run := Then(c, sealed, Reclaim);
  }

  /** The counter is the number of batches of two or more descriptors in flight, in every
      run, if and only if there is one batch record only or no batch ever holds two. */
  lemma InflightExactIff(c: Config)
    requires c.Valid()
    ensures (forall run :: Legal(c, run) ==> Exact(Exec(c, run))) <==> c.maxBatch == 1 || c.batches == 1
  {
    if c.maxBatch == 1 || c.batches == 1 {
      forall run | Legal(c, run) ensures Exact(Exec(c, run)) { ExactRun(c, run); }
    } else {
      var run := TooLow(c);
      assert !Exact(Exec(c, run));
    }
  }
}
