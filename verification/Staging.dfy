/**
 `StagingSubmitter`: two staging buffers. Descriptors collect in the active one; a flush
 waits until the device is done with the other, rings the doorbell and swaps.
 */
module Staging {
  import opened Submission

  /** The submitter's fields and the history, as in BatchRing. `waiting[i]` says that a
      doorbell named buffer i and its completion was not yet awaited; `sealedAs[i]` is the
      number of that doorbell and `named[i]` how many descriptors it named. */
  datatype State = State(staged: seq<seq<Descriptor>>, comp: seq<nat>, waiting: seq<bool>,
                         count: nat, active: nat, inflight: nat,
                         submitted: seq<Descriptor>, payloads: seq<seq<Descriptor>>,
                         fetched: map<nat, seq<Descriptor>>, sealedAs: seq<nat>, named: seq<nat>)

  function Init(k: nat): State {
    State([seq(k, i => 0), seq(k, i => 0)], [0, 0], [false, false], 0, 0, 0, [], [], map[], [0, 0], [0, 0])
  }

  datatype Step =
    | Stage(desc: Descriptor)
    | Release            // the other buffer's completion was seen
    | Ring               // submit the active buffer and swap
    | Complete(buf: nat) // device

  ghost predicate Shaped(k: nat, s: State) {
    && k >= 1 && |s.staged| == 2 && |s.staged[0]| == |s.staged[1]| == k
    && |s.comp| == |s.waiting| == |s.sealedAs| == |s.named| == 2 && s.active < 2 && s.count <= k
    && s.named[0] <= k && s.named[1] <= k
  }

  function Other(s: State): int { 1 - s.active }

  ghost predicate Enabled(k: nat, s: State, step: Step)
    requires Shaped(k, s)
  {
    match step
    case Stage(_) => s.count < k
    case Release => s.waiting[Other(s)] && s.comp[Other(s)] != 0
    case Ring => s.count > 0 && !s.waiting[Other(s)]
    case Complete(i) => i < 2 && s.waiting[i] && s.comp[i] == 0
  }

  ghost function Payload(s: State): seq<Descriptor>
    requires s.active < |s.staged| && s.count <= |s.staged[s.active]|
  {
    s.staged[s.active][..s.count]
  }

  ghost function Apply(k: nat, s: State, step: Step): (t: State)
    requires Shaped(k, s) && Enabled(k, s, step)
    ensures Shaped(k, t)
  {
    match step
    case Stage(d) =>
      var buffer: seq<Descriptor> := s.staged[s.active][s.count := d];
      s.(staged := s.staged[s.active := buffer],
         count := s.count + 1,
         submitted := s.submitted + [d])
    case Release =>
      s.(waiting := s.waiting[Other(s) := false], inflight := NotifyComplete(s.inflight, 1))
    case Ring =>
      var single := s.count == 1;
      s.(comp := if single then s.comp else s.comp[s.active := 0],
         waiting := if single then s.waiting else s.waiting[s.active := true],
         count := 0,
         active := Other(s),
         inflight := s.inflight + 1,
         payloads := s.payloads + [Payload(s)],
         fetched := if single then s.fetched[|s.payloads| := Payload(s)] else s.fetched,
         sealedAs := s.sealedAs[s.active := |s.payloads|],
         named := s.named[s.active := s.count])
    case Complete(i) =>
      s.(comp := s.comp[i := 1], fetched := s.fetched[s.sealedAs[i] := s.staged[i][..s.named[i]]])
  }

  ghost predicate Legal(k: nat, run: seq<Step>)
    requires k >= 1
    decreases |run|, 0
  {
    run == [] || (Legal(k, run[..|run| - 1]) && Enabled(k, Exec(k, run[..|run| - 1]), run[|run| - 1]))
  }

  ghost function Exec(k: nat, run: seq<Step>): (s: State)
    requires k >= 1 && Legal(k, run)
    ensures Shaped(k, s)
    decreases |run|, 1
  {
    if run == [] then Init(k) else Apply(k, Exec(k, run[..|run| - 1]), run[|run| - 1])
  }

  lemma Extend(k: nat, run: seq<Step>, step: Step)
    requires k >= 1 && Legal(k, run) && Enabled(k, Exec(k, run), step)
    ensures Legal(k, run + [step])
    ensures Exec(k, run + [step]) == Apply(k, Exec(k, run), step)
  {
    assert (run + [step])[..|run|] == run;
  }

  // ---------------------------------------------------------------- invariant

  // The device may still read buffer i: it holds what its doorbell named.
  ghost predicate BufferIntact(k: nat, s: State, i: nat)
    requires Shaped(k, s) && i < 2
  {
    var b := s.sealedAs[i];
    && b < |s.payloads| && s.staged[i][..s.named[i]] == s.payloads[b]
    && (s.comp[i] != 0 <==> b in s.fetched)
  }

  ghost predicate Accounted(s: State, b: nat)
    requires |s.waiting| == |s.sealedAs| == 2
  {
    b in s.fetched || (s.waiting[0] && s.sealedAs[0] == b) || (s.waiting[1] && s.sealedAs[1] == b)
  }

  ghost predicate Inv(k: nat, s: State) {
    && Shaped(k, s)
    && !s.waiting[s.active]
    && (s.waiting[0] ==> BufferIntact(k, s, 0)) && (s.waiting[1] ==> BufferIntact(k, s, 1))
    && Flatten(s.payloads) + Payload(s) == s.submitted
    && (forall b :: b in s.fetched ==> b < |s.payloads| && s.fetched[b] == s.payloads[b])
    && (forall b: nat :: b < |s.payloads| ==> Accounted(s, b))
  }

  lemma StageKeepsInv(k: nat, s: State, d: Descriptor)
    requires Inv(k, s) && Enabled(k, s, Stage(d))
    ensures Inv(k, Apply(k, s, Stage(d)))
  {
    var t := Apply(k, s, Stage(d));
    assert Payload(t) == Payload(s) + [d];
    assert Flatten(s.payloads) + (Payload(s) + [d]) == t.submitted;
    forall b: nat | b < |t.payloads| ensures Accounted(t, b) { assert Accounted(s, b); }
  }

  lemma RingBuffers(k: nat, s: State)
    requires Inv(k, s) && Enabled(k, s, Ring)
    ensures var t := Apply(k, s, Ring);
            && !t.waiting[t.active] && (t.waiting[0] ==> BufferIntact(k, t, 0)) && (t.waiting[1] ==> BufferIntact(k, t, 1))
  {
    var t := Apply(k, s, Ring);
    assert t.waiting[s.active] ==> BufferIntact(k, t, s.active);
  }

  lemma RingAccounts(k: nat, s: State)
    requires Inv(k, s) && Enabled(k, s, Ring)
    ensures var t := Apply(k, s, Ring); forall b: nat :: b < |t.payloads| ==> Accounted(t, b)
  {
    var t := Apply(k, s, Ring);
    forall b: nat | b < |t.payloads| ensures Accounted(t, b) {
      if b < |s.payloads| { assert Accounted(s, b); }
    }
  }

  lemma RingSends(k: nat, s: State)
    requires Inv(k, s) && Enabled(k, s, Ring)
    ensures var t := Apply(k, s, Ring); Flatten(t.payloads) == s.submitted && Payload(t) == []
  {
    FlattenAppend(s.payloads, Payload(s));
  }

  lemma RingHistory(k: nat, s: State)
    requires Inv(k, s) && Enabled(k, s, Ring)
    ensures var t := Apply(k, s, Ring);
            && Flatten(t.payloads) + Payload(t) == t.submitted
            && forall b :: b in t.fetched ==> b < |t.payloads| && t.fetched[b] == t.payloads[b]
  {
    RingSends(k, s);
  }

  lemma RingKeepsInv(k: nat, s: State)
    requires Inv(k, s) && Enabled(k, s, Ring)
    ensures Inv(k, Apply(k, s, Ring))
  {
    RingHistory(k, s);
    RingBuffers(k, s);
    RingAccounts(k, s);
  }

  lemma StepKeepsInv(k: nat, s: State, step: Step)
    requires Inv(k, s) && Enabled(k, s, step)
    ensures Inv(k, Apply(k, s, step))
  {
    var t := Apply(k, s, step);
    match step
    case Stage(d) => StageKeepsInv(k, s, d);
    case Ring => RingKeepsInv(k, s);
    case Release =>
      forall b: nat | b < |t.payloads| ensures Accounted(t, b) { assert Accounted(s, b); }
    case Complete(i) =>
      assert BufferIntact(k, s, i);
      forall b: nat | b < |t.payloads| ensures Accounted(t, b) { assert Accounted(s, b); }
  }

  lemma {:induction false} RunInv(k: nat, run: seq<Step>)
    requires k >= 1 && Legal(k, run)
    ensures Inv(k, Exec(k, run))
    decreases |run|
  {
    if run != [] {
      RunInv(k, run[..|run| - 1]);
      StepKeepsInv(k, Exec(k, run[..|run| - 1]), run[|run| - 1]);
    }
  }

  /** After every run: a buffer the device may still be reading is not the one being
      written and holds what its doorbell named; the doorbells laid end to end, then the
      staged descriptors, are the submitted ones in order; and the device read what the
      doorbells named. */
  lemma StagingDelivers(k: nat, run: seq<Step>)
    requires k >= 1 && Legal(k, run)
    ensures var s := Exec(k, run);
            && !s.waiting[s.active]
            && (forall i: nat :: i < 2 && s.waiting[i] ==> BufferIntact(k, s, i))
            && Flatten(s.payloads) + Payload(s) == s.submitted
            && forall b :: b in s.fetched ==> b < |s.payloads| && s.fetched[b] == s.payloads[b]
  {
    RunInv(k, run);
  }

  // ---------------------------------------------------------------- the counter

  // How many doorbells named a single descriptor.
  function Singles(payloads: seq<seq<Descriptor>>): nat {
    if payloads == [] then 0
    else Singles(payloads[..|payloads| - 1]) + if |payloads[|payloads| - 1]| == 1 then 1 else 0
  }

  // How many buffers are still waited for.
  function Waited(waiting: seq<bool>): nat
    requires |waiting| == 2
  {
    (if waiting[0] then 1 else 0) + if waiting[1] then 1 else 0
  }

  ghost predicate Counted(k: nat, s: State)
    requires Shaped(k, s)
  {
    s.inflight == Singles(s.payloads) + Waited(s.waiting)
  }

  lemma StepCounted(k: nat, s: State, step: Step)
    requires Inv(k, s) && Counted(k, s) && Enabled(k, s, step)
    ensures Counted(k, Apply(k, s, step))
  {
    if step == Ring { assert (s.payloads + [Payload(s)])[..|s.payloads|] == s.payloads; }
  }

  /** After every run the in-flight counter is the number of single-descriptor doorbells,
      which nothing ever takes off, plus the number of buffers still waited for. */
  lemma {:induction false} InflightIs(k: nat, run: seq<Step>)
    requires k >= 1 && Legal(k, run)
    ensures Counted(k, Exec(k, run))
    decreases |run|
  {
    if run != [] {
      InflightIs(k, run[..|run| - 1]);
      RunInv(k, run[..|run| - 1]);
      StepCounted(k, Exec(k, run[..|run| - 1]), run[|run| - 1]);
    }
  }

  // ---------------------------------------------------------------- drain

  // The device has read every batch a doorbell named.
  ghost predicate AllRead(s: State) {
    forall b: nat :: b < |s.payloads| ==> b in s.fetched
  }

  // The other buffer once the device is done with it and the driver has seen that.
  ghost function OtherReleased(k: nat, s: State): (t: State)
    requires Shaped(k, s)
    ensures Shaped(k, t)
  {
    var other := 1 - s.active;
    if !s.waiting[other] then s
    else if s.comp[other] == 0 then Apply(k, Apply(k, s, Complete(other)), Release)
    else Apply(k, s, Release)
  }

  // The state in which a flush, and so a drain, returns.
  ghost function Flushed(k: nat, s: State): (t: State)
    requires Shaped(k, s)
    ensures Shaped(k, t)
  {
    if s.count == 0 then s else Apply(k, OtherReleased(k, s), Ring)
  }

  // Something for the device to read is left: the batch just sent, or, with nothing staged,
  // one sent earlier.
  ghost predicate LeavesUnread(s: State)
    requires s.active < 2 && |s.waiting| == |s.comp| == 2
  {
    s.count > 1 || (s.count == 0 && s.waiting[1 - s.active] && s.comp[1 - s.active] == 0)
  }

  lemma ReleasedInv(k: nat, s: State)
    requires Inv(k, s)
    ensures Inv(k, OtherReleased(k, s)) && !OtherReleased(k, s).waiting[1 - s.active]
    ensures var t := OtherReleased(k, s); t.count == s.count && t.active == s.active && AllRead(t)
  {
    var other := 1 - s.active;
    var t := OtherReleased(k, s);
    if s.waiting[other] && s.comp[other] == 0 {
      StepKeepsInv(k, s, Complete(other));
      StepKeepsInv(k, Apply(k, s, Complete(other)), Release);
    } else if s.waiting[other] {
      StepKeepsInv(k, s, Release);
    }
    forall b: nat | b < |t.payloads| ensures b in t.fetched { assert Accounted(t, b); }
  }

  /** Draining only flushes. In every state it may be called in, the device has read
      everything when it returns if and only if one descriptor was staged, or none was and no
      earlier batch was unread. */
  lemma DrainedIff(k: nat, s: State)
    requires Inv(k, s)
    ensures AllRead(Flushed(k, s)) <==> !LeavesUnread(s)
  {
    if s.count == 0 {
      var other := 1 - s.active;
      forall b: nat | b < |s.payloads| ensures b in s.fetched || (s.waiting[other] && s.sealedAs[other] == b) {
        assert Accounted(s, b);
      }
    } else {
      ReleasedInv(k, s);
      var r := OtherReleased(k, s);
      assert |r.payloads| !in r.fetched && |r.payloads| < |Flushed(k, s).payloads|;
    }
  }

  lemma FlushedInv(k: nat, s: State)
    requires Inv(k, s)
    ensures Inv(k, Flushed(k, s)) && Flushed(k, s).count == 0 && Flushed(k, s).submitted == s.submitted
    ensures Flatten(Flushed(k, s).payloads) == s.submitted
  {
    if s.count > 0 {
      ReleasedInv(k, s);
      RingKeepsInv(k, OtherReleased(k, s));
    }
  }

  lemma FlushRings(k: nat, s: State)
    requires Inv(k, s)
    ensures Rang(s.payloads, Flushed(k, s).payloads, s.count)
  {
    if s.count > 0 {
      assert OtherReleased(k, s).payloads == s.payloads && |Payload(OtherReleased(k, s))| == s.count;
    }
  }

  // With batches of one descriptor no buffer is ever waited for.
  lemma {:induction false} SinglesNeverWait(run: seq<Step>)
    requires Legal(1, run)
    ensures !Exec(1, run).waiting[0] && !Exec(1, run).waiting[1]
    decreases |run|
  {
    if run != [] { SinglesNeverWait(run[..|run| - 1]); }
  }

  lemma SinglesDrained(run: seq<Step>)
    requires Legal(1, run)
    ensures AllRead(Flushed(1, Exec(1, run)))
  {
    RunInv(1, run);
    SinglesNeverWait(run);
    DrainedIff(1, Exec(1, run));
  }

  // Two descriptors staged: a drain leaves them unread, and so does a second drain.
  lemma UnreadAfterDrain(k: nat) returns (run: seq<Step>)
    requires k >= 2
    ensures Legal(k, run) && Exec(k, run).submitted == [1, 2]
    ensures var t := Flushed(k, Exec(k, run));
            && t.payloads == [[1, 2]] && t.fetched == map[] && t.count == 0
            && Flushed(k, t) == t && !AllRead(t)
  {
    run := TwoStaged(k);
    RunInv(k, run);
    DrainedIff(k, Exec(k, run));
  }

  lemma TwoStaged(k: nat) returns (run: seq<Step>)
    requires k >= 2
    ensures Legal(k, run)
    ensures var s := Exec(k, run);
            && s.submitted == [1, 2] && s.count == 2 && s.payloads == [] && s.fetched == map[]
            && s.waiting == [false, false] && Payload(s) == [1, 2]
  {
    Extend(k, [], Stage(1));
    run := [] + [Stage(1)];
    assert Payload(Exec(k, run)) == [1];
    Extend(k, run, Stage(2));
    run := run + [Stage(2)];
  }

  /** A drain waits for the device in every run if and only if batches hold one descriptor. */
  lemma DrainWaitsIff(k: nat)
    requires k >= 1
    ensures (forall run :: Legal(k, run) ==> AllRead(Flushed(k, Exec(k, run)))) <==> k == 1
  {
    if k == 1 {
      forall run | Legal(k, run) ensures AllRead(Flushed(k, Exec(k, run))) { SinglesDrained(run); }
    } else {
      var run := UnreadAfterDrain(k);
    }
  }

  // ---------------------------------------------------------------- the submitter

  /** The submitter's fields, updated in place. The ghost `model` is the machine state that
      `run` leads to, and `Valid()` says that the fields are that state's. */
  class StagingSubmitter {
    const maxBatch: nat
    const first: array<Descriptor>
    const second: array<Descriptor>
    var comp: seq<nat>
    var waiting: seq<bool>
    var count: nat
    var active: nat
    var inflight: nat

    ghost var run: seq<Step>
    ghost var model: State

    ghost predicate Valid()
      reads this, first, second
    {
      && maxBatch >= 1 && first != second && Legal(maxBatch, run) && model == Exec(maxBatch, run)
      && model.staged == [first[..], second[..]] && comp == model.comp && waiting == model.waiting
      && count == model.count && active == model.active && inflight == model.inflight
    }

    ghost predicate Ready()
      reads this, first, second
    {
      Valid() && count < maxBatch
    }

    constructor (requested: nat, wqMax: int)
      ensures Ready() && fresh(first) && fresh(second) && run == []
      ensures maxBatch == BatchSize(requested, wqMax)
    {
      var k := BatchSize(requested, wqMax);
      maxBatch := k;
      first, second := new Descriptor[k](_ => 0), new Descriptor[k](_ => 0);
      comp, waiting, count, active, inflight := [0, 0], [false, false], 0, 0, 0;
      run, model := [], Init(k);
      new;
      assert first[..] == second[..] == seq(k, i => 0);
    }

    // The machine takes a step; the fields must follow.
    ghost method Log(step: Step)
      requires maxBatch >= 1 && Legal(maxBatch, run) && model == Exec(maxBatch, run) && Enabled(maxBatch, model, step)
      modifies this`run, this`model
      ensures Legal(maxBatch, run) && model == Exec(maxBatch, run)
      ensures run == old(run) + [step] && model == Apply(maxBatch, old(model), step)
    {
      Extend(maxBatch, run, step);
      run, model := run + [step], Apply(maxBatch, model, step);
    }

    // The device finishes buffer i, if a doorbell named it.
    method DeviceStep(i: nat)
      requires Valid() && i < 2
      modifies this`comp, this`run, this`model
      ensures Valid() && old(run) <= run
      ensures model == if old(Enabled(maxBatch, model, Complete(i))) then Apply(maxBatch, old(model), Complete(i)) else old(model)
    {
      if waiting[i] && comp[i] == 0 {
        Log(Complete(i));
        comp := comp[i := 1];
      }
    }

    method CopyIn(desc: Descriptor)
      requires Ready()
      modifies this`count, this`run, this`model, first, second
      ensures Valid() && run == old(run) + [Stage(desc)]
      ensures count == old(count) + 1 && model.submitted == old(model.submitted) + [desc]
      ensures model.payloads == old(model.payloads) && active == old(active) && waiting == old(waiting)
    {
      Log(Stage(desc));
      if active == 0 {
        first[count] := desc;
      } else {
        second[count] := desc;
      }
      count := count + 1;
    }

    // Rings the doorbell of the active buffer and swaps.
    method RingDoorbell()
      requires Valid() && Enabled(maxBatch, model, Ring)
      modifies this`comp, this`waiting, this`count, this`active, this`inflight, this`run, this`model
      ensures Valid() && run == old(run) + [Ring] && model == Apply(maxBatch, old(model), Ring)
    {
      Log(Ring);
      if count != 1 {
        comp := comp[active := 0];
        waiting := waiting[active := true];
      }
      inflight := inflight + 1;
      active := 1 - active;
      count := 0;
    }

    // Spins until the device is done with the other buffer.
    method AwaitOther(device: seq<bool>) returns (ok: bool)
      requires Valid() && waiting[1 - active]
      modifies this`comp, this`run, this`model
      ensures Valid() && old(run) <= run && model.submitted == old(model.submitted)
      ensures ok <==> comp[1 - active] != 0
      ensures model == if ok && old(comp[1 - active]) == 0 then Apply(maxBatch, old(model), Complete(1 - active)) else old(model)
    {
      var prev := 1 - active;
      for turn := 0 to |device|
        invariant Valid() && old(run) <= run && active == old(active)
        invariant model == if comp[prev] != 0 && old(comp[1 - active]) == 0 then Apply(maxBatch, old(model), Complete(prev)) else old(model)
      {
        if comp[prev] != 0 { break; }
        if device[turn] { DeviceStep(prev); }
      }
      ok := comp[prev] != 0;
    }

    method ReleaseOther()
      requires Valid() && Enabled(maxBatch, model, Release)
      modifies this`waiting, this`inflight, this`run, this`model
      ensures Valid() && run == old(run) + [Release] && model == Apply(maxBatch, old(model), Release)
    {
      Log(Release);
      waiting := waiting[1 - active := false];
      inflight := NotifyComplete(inflight, 1);
    }

    // Waits for the other buffer if a doorbell named it.
    method FreeOther(device: seq<bool>) returns (ok: bool)
      requires Valid()
      modifies this`comp, this`waiting, this`inflight, this`run, this`model
      ensures Valid() && old(run) <= run
      ensures ok ==> model == OtherReleased(maxBatch, old(model)) && !waiting[1 - active]
      ensures !ok ==> model == old(model) && Enabled(maxBatch, model, Complete(1 - active))
    {
      ok := true;
      if waiting[1 - active] {
        ok := AwaitOther(device);
        if !ok { return; }
        ReleaseOther();
      }
    }

    /** Sends what is staged, after waiting for the other buffer. In each turn of the spin
        loop the device finishes that buffer or not, as `device` says. `pre_poll` and
        `drain` do just this, so what the device has read when they return is what
        `LeavesUnread` tells beforehand. */
    method Flush(device: seq<bool>) returns (done: bool)
      requires Valid()
      modifies this`comp, this`waiting, this`count, this`active, this`inflight, this`run, this`model
      ensures Valid() && old(run) <= run && model.submitted == old(model.submitted)
      ensures done ==> model == Flushed(maxBatch, old(model)) && count == 0 && Flatten(model.payloads) == model.submitted
      ensures done ==> Rang(old(model.payloads), model.payloads, old(count))
      ensures done ==> (AllRead(model) <==> !LeavesUnread(old(model)))
      ensures !done ==> model == old(model) && Enabled(maxBatch, model, Complete(1 - active))
    {
      FlushFacts();
      done := true;
      if count > 0 {
        done := FlushStaged(device);
      }
    }

    method FlushStaged(device: seq<bool>) returns (done: bool)
      requires Valid() && count > 0
      modifies this`comp, this`waiting, this`count, this`active, this`inflight, this`run, this`model
      ensures Valid() && old(run) <= run
      ensures done ==> model == Flushed(maxBatch, old(model))
      ensures !done ==> model == old(model) && Enabled(maxBatch, model, Complete(1 - active))
    {
      done := FreeOther(device);
      if done {
        RingDoorbell();
      }
    }

    lemma FlushFacts()
      requires Valid()
      ensures var t := Flushed(maxBatch, model);
              && t.count == 0 && t.submitted == model.submitted && Flatten(t.payloads) == t.submitted
              && Rang(model.payloads, t.payloads, count) && (AllRead(t) <==> !LeavesUnread(model))
    {
      RunInv(maxBatch, run);
      DrainedIff(maxBatch, model);
      FlushedInv(maxBatch, model);
      FlushRings(maxBatch, model);
    }

    /** A doorbell rings exactly when the descriptor fills the buffer, and is that buffer's;
        the call waits only then, and only if the other buffer is still with the device. */
    method SubmitDescriptor(desc: Descriptor, device: seq<bool>) returns (done: bool)
      requires Ready()
      modifies this, first, second
      ensures Valid() && old(run) <= run && model.submitted == old(model.submitted) + [desc]
      ensures var n := old(count) + 1;
              done ==> && Ready() && count == (if n == maxBatch then 0 else n)
                       && Rang(old(model.payloads), model.payloads, if n == maxBatch then n else 0)
      ensures !done ==> old(count) + 1 == maxBatch && old(waiting[1 - active]) && model.payloads == old(model.payloads)
      ensures !done ==> Enabled(maxBatch, model, Complete(1 - active))
    {
      CopyIn(desc);
      done := true;
      if count >= maxBatch {
        done := Flush(device);
      }
    }
  }
}
