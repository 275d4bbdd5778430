/**
 An operation from start() to its receiver: `DsaOperationMixin::start` and `notify` as
 methods of an operation, and all operations together as a machine whose steps are those of
 the threads that start and poll and of the device. Polls may nest and several operations
 may be in hand at once; the queue is the multiset that every queue's poll conserves.
 */
module Receiver {
  import opened PageFault

  const STATUS_CODES := 128     // status & 0x7f is the remainder by this
  const SUCCESS := 1
  const SUCCESS_PRED := 2
  const PAGE_FAULT_NOBOF := 3

  // What set_value passes to the receiver.
  datatype Delivered = Nothing | Equal(equal: bool) | Checksum32(crc: nat)

  datatype Signal = Value(delivered: Delivered) | DeviceError(status: nat) | SubmitFailed | Rejected

  // An operation: the descriptor it was started with, the descriptor and completion record
  // now, and the page faults it went through.
  datatype Op = Op(original: Desc, desc: Desc, status: nat, comp: Completion, faults: seq<Completion>)

  // What start and notify end with.
  datatype Reaction = Complete(signal: Signal) | Submit

  // The operations whose result type is void.
  predicate IsVoid(opcode: Opcode) {
    opcode != Compare && opcode != CompVal && opcode != CopyCrc && opcode != CrcGen
  }

  // extract_result
  function Extracted(opcode: Opcode, c: Completion): Delivered {
    match opcode
    case Compare => Equal(c.result == 0)
    case CompVal => Equal(c.result == 0)
    case CopyCrc => Checksum32(c.crcVal % 0x1_0000_0000)
    case CrcGen => Checksum32(c.crcVal % 0x1_0000_0000)
    case _ => Nothing
  }

  predicate Succeeded(opcode: Opcode, status: nat) {
    status % STATUS_CODES == SUCCESS || (!IsVoid(opcode) && status % STATUS_CODES == SUCCESS_PRED)
  }

  predicate Faulted(status: nat) { status % STATUS_CODES == PAGE_FAULT_NOBOF }

  // pre_start_validate; only dualcast has one.
  predicate Acceptable(d: Desc) { d.opcode == Dualcast ==> SameOffsetInPage(d.dst, d.other) }

  function Started(d: Desc): Op { Op(d, d, 0, CLEARED, []) }

  const CLEARED := Completion(0, 0, 0)

  function StartReaction(d: Desc, throws: bool): Reaction {
    if !Acceptable(d) then Complete(Rejected) else if throws then Complete(SubmitFailed) else Submit
  }

  function Notified(op: Op): Op {
    if Faulted(op.status)
    then op.(desc := Adjusted(op.desc, op.comp), status := 0, comp := CLEARED, faults := op.faults + [op.comp])
    else op
  }

  function NotifyReaction(op: Op, throws: bool): Reaction {
    if Succeeded(op.desc.opcode, op.status) then Complete(Value(Extracted(op.desc.opcode, op.comp)))
    else if !Faulted(op.status) then Complete(DeviceError(op.status % STATUS_CODES))
    else if throws then Complete(SubmitFailed)
    else Submit
  }

  /** One operation in memory. `signals` counts what its receiver was sent. */
  class DsaOperation {
    const hw: HwDescriptor
    var status: nat
    var comp: Completion
    var signals: seq<Signal>
    ghost const original: Desc
    ghost var faults: seq<Completion>

    constructor (d: Desc)
      ensures View() == Started(d) && signals == [] && fresh(hw)
    {
      original := d;
      hw := new HwDescriptor(d);
      status, comp, signals, faults := 0, CLEARED, [], [];
    }

    ghost function View(): Op
      reads this, hw
    {
      Op(original, hw.View(), status, comp, faults)
    }

    /** `start`: the record is cleared, the operation validated, then submitted. The result
        tells whether the engine now has it; otherwise the receiver has been signalled. */
    method Start(throws: bool) returns (submitted: bool)
      modifies this
      ensures var skewed := hw.opcode == Dualcast && hw.dst % 4096 != hw.other % 4096;
              && (submitted <==> !skewed && !throws)
              && signals == old(signals) + if skewed then [Rejected] else if throws then [SubmitFailed] else []
      ensures submitted <==> StartReaction(hw.View(), throws) == Submit
      ensures signals == old(signals) + (if submitted then [] else [StartReaction(hw.View(), throws).signal])
      ensures View() == old(View()).(status := 0, comp := CLEARED)
    {
      status, comp := 0, CLEARED;
      LowBits(hw.dst);
      LowBits(hw.other);
      if hw.opcode == Dualcast && !SameOffsetInPage(hw.dst, hw.other) {
        signals := signals + [Rejected];
        return false;
      }
      if throws {
        signals := signals + [SubmitFailed];
        return false;
      }
      submitted := true;
    }

    /** `notify`: a success status signals the value, a page fault adjusts the descriptor,
        clears the record and submits again, and any other status is signalled as an error.
        A page fault is signalled only if that submit throws. */
    method Notify(throws: bool) returns (submitted: bool)
      modifies this, hw
      ensures var code := old(status) % STATUS_CODES;
              if code == 1 || (code == 2 && hw.opcode in {Compare, CompVal, CopyCrc, CrcGen}) then
                !submitted && signals == old(signals) + [Value(Extracted(hw.opcode, comp))] && View() == old(View())
              else if code == 3 then
                && (submitted <==> !throws) && signals == old(signals) + (if throws then [SubmitFailed] else [])
                && hw.View() == Adjusted(old(hw.View()), old(comp)) && status == 0 && comp == CLEARED
              else
                !submitted && signals == old(signals) + [DeviceError(code)] && View() == old(View())
      ensures View() == Notified(old(View()))
      ensures submitted <==> NotifyReaction(old(View()), throws) == Submit
      ensures signals == old(signals) + (if submitted then [] else [NotifyReaction(old(View()), throws).signal])
    {
      var code := status % STATUS_CODES;
      if code == SUCCESS || (!IsVoid(hw.opcode) && code == SUCCESS_PRED) {
        signals := signals + [Value(Extracted(hw.opcode, comp))];
        return false;
      }
      if code == PAGE_FAULT_NOBOF {
        hw.AdjustForPageFault(comp);
        faults := faults + [comp];
        status, comp := 0, CLEARED;
        if throws {
          signals := signals + [SubmitFailed];
          return false;
        }
        return true;
      }
      signals := signals + [DeviceError(code)];
      submitted := false;
    }
  }

  // ---------------------------------------------------------------- all operations

  // submitting: between doorbell and push; ready: taken out by a poll, not yet notified;
  // hand: inside notify; adjusted: one entry for each page fault handled.
  datatype State = State(
    ops: map<nat, Op>,
    submitting: multiset<nat>,
    queue: multiset<nat>,
    ready: multiset<nat>,
    hand: multiset<nat>,
    signalled: multiset<nat>,
    outcome: map<nat, Signal>,
    adjusted: multiset<nat>,
    retries: nat)

  const INITIAL := State(map[], multiset{}, multiset{}, multiset{}, multiset{}, multiset{}, map[], multiset{}, 0)

  datatype Step =
    | Start(id: nat, desc: Desc, throws: bool)
    | Push(id: nat)
    | DeviceWrites(id: nat, status: nat, comp: Completion)
    | Poll(taken: multiset<nat>)
    | Begin(id: nat)
    | Conclude(id: nat, throws: bool)

  predicate Enabled(s: State, step: Step) {
    match step
    case Start(id, _, _) => id !in s.ops
    case Push(id) => id in s.submitting
    case DeviceWrites(id, status, _) =>
      (id in s.submitting || id in s.queue) && id in s.ops && s.ops[id].status == 0 && 0 < status < 256
    case Poll(taken) => taken <= s.queue && forall id | id in taken :: id in s.ops && s.ops[id].status != 0
    case Begin(id) => id in s.ready
    case Conclude(id, _) => id in s.hand && id in s.ops
  }

  // The operation leaves start or notify.
  function React(s: State, id: nat, r: Reaction): State {
    match r
    case Submit => s.(submitting := s.submitting + multiset{id})
    case Complete(signal) => s.(signalled := s.signalled + multiset{id}, outcome := s.outcome[id := signal])
  }

  function Starting(s: State, id: nat, desc: Desc): State { s.(ops := s.ops[id := Started(desc)]) }

  // notify up to its reaction.
  function Concluding(s: State, id: nat): State
    requires id in s.ops
  {
    var op := s.ops[id];
    var fault := Faulted(op.status);
    s.(hand := s.hand - multiset{id}, ops := s.ops[id := Notified(op)],
       adjusted := if fault then s.adjusted + multiset{id} else s.adjusted,
       retries := if fault then s.retries + 1 else s.retries)
  }

  function Apply(s: State, step: Step): State
    requires Enabled(s, step)
  {
    match step
    case Start(id, desc, throws) => React(Starting(s, id, desc), id, StartReaction(desc, throws))
    case Push(id) => s.(submitting := s.submitting - multiset{id}, queue := s.queue + multiset{id})
    case DeviceWrites(id, status, comp) => s.(ops := s.ops[id := s.ops[id].(status := status, comp := comp)])
    case Poll(taken) => s.(queue := s.queue - taken, ready := s.ready + taken)
    case Begin(id) => s.(ready := s.ready - multiset{id}, hand := s.hand + multiset{id})
    case Conclude(id, throws) => React(Concluding(s, id), id, NotifyReaction(s.ops[id], throws))
  }

  predicate Legal(run: seq<Step>)
    decreases |run|, 0
  {
    run == [] || (Legal(run[..|run| - 1]) && Enabled(Exec(run[..|run| - 1]), run[|run| - 1]))
  }

  function Exec(run: seq<Step>): State
    requires Legal(run)
    decreases |run|, 1
  {
    if run == [] then INITIAL else Apply(Exec(run[..|run| - 1]), run[|run| - 1])
  }

  // ---------------------------------------------------------------- invariant

  // In how many places an operation is.
  function Places(s: State, id: nat): nat {
    s.submitting[id] + s.queue[id] + s.ready[id] + s.hand[id] + s.signalled[id]
  }

  ghost predicate OnePlace(s: State) {
    forall id :: Places(s, id) == if id in s.ops then 1 else 0
  }

  ghost predicate OpOk(s: State, id: nat, op: Op) {
    && op.desc == Resumed(op.original, op.faults)
    && |op.faults| == s.adjusted[id]
    && (id in s.ready || id in s.hand ==> op.status != 0)
    && (id !in s.signalled ==> Acceptable(op.desc))
    && (id in s.signalled <==> id in s.outcome)
  }

  ghost predicate OutcomeOk(op: Op, signal: Signal) {
    match signal
    case Value(delivered) => Succeeded(op.desc.opcode, op.status) && delivered == Extracted(op.desc.opcode, op.comp)
    case DeviceError(status) => status == op.status % STATUS_CODES && op.status != 0 && !Succeeded(op.desc.opcode, op.status) && !Faulted(op.status)
    case SubmitFailed => op.status == 0
    case Rejected => op.faults == [] && !Acceptable(op.original)
  }

  ghost predicate Inv(s: State) {
    && OnePlace(s)
    && (forall id :: id in s.ops ==> OpOk(s, id, s.ops[id]))
    && (forall id :: id in s.outcome ==> id in s.ops && OutcomeOk(s.ops[id], s.outcome[id]))
    && RetriesOk(s)
  }

  lemma ReactPlaces(s: State, id: nat, r: Reaction, x: nat)
    ensures Places(React(s, id, r), x) == Places(s, x) + if x == id then 1 else 0
  {
  }

  lemma MovePlaces(s: State, step: Step, x: nat)
    requires Enabled(s, step) && !step.Start? && !step.Conclude?
    ensures Places(Apply(s, step), x) == Places(s, x)
  {
  }

  lemma ConcludePlaces(s: State, id: nat, throws: bool, x: nat)
    requires Enabled(s, Conclude(id, throws))
    ensures Places(Apply(s, Conclude(id, throws)), x) == Places(s, x)
  {
    assert Places(Concluding(s, id), x) == Places(s, x) - if x == id then 1 else 0;
    ReactPlaces(Concluding(s, id), id, NotifyReaction(s.ops[id], throws), x);
  }

  lemma StartPlaces(s: State, step: Step, x: nat)
    requires Enabled(s, step) && step.Start?
    ensures Places(Apply(s, step), x) == Places(s, x) + if x == step.id then 1 else 0
  {
    ReactPlaces(Starting(s, step.id, step.desc), step.id, StartReaction(step.desc, step.throws), x);
  }

  lemma StepPlaces(s: State, step: Step, x: nat)
    requires Enabled(s, step)
    ensures Places(Apply(s, step), x) == Places(s, x) + if step.Start? && x == step.id then 1 else 0
  {
    if step.Start? { StartPlaces(s, step, x); }
    else if step.Conclude? { ConcludePlaces(s, step.id, step.throws, x); }
    else { MovePlaces(s, step, x); }
  }

  lemma StepDomain(s: State, step: Step, x: nat)
    requires Enabled(s, step)
    ensures x in Apply(s, step).ops <==> x in s.ops || (step.Start? && x == step.id)
  {
  }

  lemma PlaceAfter(s: State, step: Step, x: nat)
    requires Enabled(s, step) && Places(s, x) == if x in s.ops then 1 else 0
    ensures Places(Apply(s, step), x) == if x in Apply(s, step).ops then 1 else 0
  {
    StepPlaces(s, step, x);
    StepDomain(s, step, x);
  }

  lemma StepOnePlace(s: State, step: Step)
    requires OnePlace(s) && Enabled(s, step)
    ensures OnePlace(Apply(s, step))
  {
    forall x ensures Places(Apply(s, step), x) == if x in Apply(s, step).ops then 1 else 0 { PlaceAfter(s, step, x); }
  }

  // The operations a step works on.
  predicate Touches(step: Step, id: nat) {
    if step.Poll? then id in step.taken else step.id == id
  }

  // An operation whose receiver has been signalled may be gone: no step touches it.
  lemma SignalledUntouched(s: State, step: Step, id: nat)
    requires Inv(s) && Enabled(s, step) && id in s.signalled
    ensures !Touches(step, id)
  {
    assert Places(s, id) == if id in s.ops then 1 else 0;
  }

  // Nothing that concerns the operation changed, except that it may have moved.
  ghost predicate SameFor(s: State, t: State, id: nat) {
    && (id in t.ops <==> id in s.ops) && (id in s.ops ==> t.ops[id] == s.ops[id])
    && t.ready[id] == s.ready[id] && t.hand[id] == s.hand[id]
    && t.signalled[id] == s.signalled[id] && t.adjusted[id] == s.adjusted[id]
    && (id in t.outcome <==> id in s.outcome) && (id in s.outcome ==> t.outcome[id] == s.outcome[id])
  }

  lemma ReactElsewhere(s: State, x: nat, r: Reaction, id: nat)
    requires x != id
    ensures SameFor(s, React(s, x, r), id)
  {
  }

  lemma MoveElsewhere(s: State, step: Step, id: nat)
    requires Enabled(s, step) && !step.Start? && !step.Conclude? && !Touches(step, id)
    ensures SameFor(s, Apply(s, step), id)
  {
  }

  lemma ConcludeElsewhere(s: State, x: nat, throws: bool, id: nat)
    requires Enabled(s, Conclude(x, throws)) && x != id
    ensures SameFor(s, Apply(s, Conclude(x, throws)), id)
  {
    assert SameFor(s, Concluding(s, x), id);
    ReactElsewhere(Concluding(s, x), x, NotifyReaction(s.ops[x], throws), id);
  }

  lemma StartElsewhere(s: State, step: Step, id: nat)
    requires Enabled(s, step) && step.Start? && step.id != id
    ensures SameFor(s, Apply(s, step), id)
  {
    ReactElsewhere(Starting(s, step.id, step.desc), step.id, StartReaction(step.desc, step.throws), id);
  }

  lemma Elsewhere(s: State, step: Step, id: nat)
    requires Enabled(s, step) && !Touches(step, id)
    ensures SameFor(s, Apply(s, step), id)
  {
    if step.Start? { StartElsewhere(s, step, id); }
    else if step.Conclude? { ConcludeElsewhere(s, step.id, step.throws, id); }
    else { MoveElsewhere(s, step, id); }
  }

  lemma SameOk(s: State, t: State, id: nat)
    requires SameFor(s, t, id) && id in s.ops && OpOk(s, id, s.ops[id])
    ensures OpOk(t, id, s.ops[id])
  {
  }

  lemma OtherOps(s: State, step: Step, id: nat)
    requires Inv(s) && Enabled(s, step) && id in s.ops && !Touches(step, id)
    ensures var t := Apply(s, step); SameFor(s, t, id) && OpOk(t, id, s.ops[id])
  {
    Elsewhere(s, step, id);
    SameOk(s, Apply(s, step), id);
  }

  lemma {:induction false} ResumedOnce(d: Desc, faults: seq<Completion>, c: Completion)
    ensures Resumed(d, faults + [c]) == Adjusted(Resumed(d, faults), c)
    decreases |faults|
  {
    if faults == [] {
      assert (faults + [c])[1..] == [];
    } else {
      assert (faults + [c])[1..] == faults[1..] + [c];
      ResumedOnce(Adjusted(d, faults[0]), faults[1..], c);
    }
  }

  lemma AdjustedAcceptable(d: Desc, c: Completion)
    ensures Acceptable(d) ==> Acceptable(Adjusted(d, c))
  {
    if d.opcode == Dualcast { DualcastStaysAligned(d, c); }
  }

  lemma ConcludedOp(s: State, id: nat, throws: bool)
    requires Inv(s) && Enabled(s, Conclude(id, throws))
    ensures var t := Apply(s, Conclude(id, throws)); id in t.ops && OpOk(t, id, t.ops[id])
  {
    var op := s.ops[id];
    assert Places(s, id) == 1 && OpOk(s, id, op);
    ResumedOnce(op.original, op.faults, op.comp);
    AdjustedAcceptable(op.desc, op.comp);
  }

  lemma OwnOp(s: State, step: Step, id: nat)
    requires Inv(s) && Enabled(s, step) && Touches(step, id)
    ensures var t := Apply(s, step); id in t.ops && OpOk(t, id, t.ops[id])
  {
    if step.Conclude? {
      ConcludedOp(s, id, step.throws);
    } else {
      assert Places(s, id) == if id in s.ops then 1 else 0;
      assert id in s.ops ==> OpOk(s, id, s.ops[id]);
    }
  }

  lemma StepOps(s: State, step: Step)
    requires Inv(s) && Enabled(s, step)
    ensures var t := Apply(s, step); forall id :: id in t.ops ==> OpOk(t, id, t.ops[id])
  {
    var t := Apply(s, step);
    forall id | id in t.ops ensures OpOk(t, id, t.ops[id]) {
      if Touches(step, id) {
        OwnOp(s, step, id);
      } else {
        Elsewhere(s, step, id);
        OtherOps(s, step, id);
      }
    }
  }

  lemma OutcomeAfter(s: State, step: Step, id: nat)
    requires Inv(s) && Enabled(s, step) && id in Apply(s, step).outcome
    ensures var t := Apply(s, step); id in t.ops && OutcomeOk(t.ops[id], t.outcome[id])
  {
    if id in s.outcome {
      assert OpOk(s, id, s.ops[id]);
      SignalledUntouched(s, step, id);
      Elsewhere(s, step, id);
    } else {
      OwnOutcome(s, step, id);
    }
  }

  lemma StepOutcomes(s: State, step: Step)
    requires Inv(s) && Enabled(s, step)
    ensures var t := Apply(s, step); forall id :: id in t.outcome ==> id in t.ops && OutcomeOk(t.ops[id], t.outcome[id])
  {
    forall id | id in Apply(s, step).outcome ensures id in Apply(s, step).ops && OutcomeOk(Apply(s, step).ops[id], Apply(s, step).outcome[id]) {
      OutcomeAfter(s, step, id);
    }
  }

  lemma OwnOutcome(s: State, step: Step, id: nat)
    requires Inv(s) && Enabled(s, step) && id !in s.outcome && id in Apply(s, step).outcome
    ensures var t := Apply(s, step); id in t.ops && OutcomeOk(t.ops[id], t.outcome[id])
  {
    assert Places(s, id) == if id in s.ops then 1 else 0;
    if id in s.ops { assert OpOk(s, id, s.ops[id]); }
  }

  ghost predicate RetriesOk(s: State) {
    s.retries == |s.adjusted| && forall id :: id in s.adjusted ==> id in s.ops
  }

  lemma ReactRetries(s: State, id: nat, r: Reaction)
    requires RetriesOk(s)
    ensures RetriesOk(React(s, id, r))
  {
  }

  lemma StepRetries(s: State, step: Step)
    requires RetriesOk(s) && Enabled(s, step)
    ensures RetriesOk(Apply(s, step))
  {
    match step
    case Start(id, desc, throws) => ReactRetries(Starting(s, id, desc), id, StartReaction(desc, throws));
    case Conclude(id, throws) => ReactRetries(Concluding(s, id), id, NotifyReaction(s.ops[id], throws));
    case _ =>
  }

  lemma {:induction false} RunInv(run: seq<Step>)
    requires Legal(run)
    ensures Inv(Exec(run))
    decreases |run|
  {
    if run != [] {
      var before, step := run[..|run| - 1], run[|run| - 1];
      RunInv(before);
      StepOnePlace(Exec(before), step);
      StepOps(Exec(before), step);
      StepOutcomes(Exec(before), step);
      StepRetries(Exec(before), step);
    }
  }

  // ---------------------------------------------------------------- exactly once

  /** In every run a receiver is signalled at most once, and an operation that is not inside
      start, a poll or notify is queued, exactly once, exactly when its receiver has not been
      signalled. */
  lemma ExactlyOnce(run: seq<Step>, id: nat)
    requires Legal(run)
    ensures var s := Exec(run);
            && s.signalled[id] <= 1
            && s.queue[id] <= 1
            && (id in s.ops && id !in s.submitting && id !in s.ready && id !in s.hand ==> (id in s.queue <==> id !in s.signalled))
            && (id !in s.ops ==> id !in s.queue && id !in s.signalled)
  {
    RunInv(run);
    assert Places(Exec(run), id) == if id in Exec(run).ops then 1 else 0;
  }

  /** A receiver gets a value exactly for a status that means success, the device's status
      as an error otherwise, and its operation ended with the descriptor that its page
      faults, all counted in `retries`, led to. */
  lemma SignalExplained(run: seq<Step>, id: nat)
    requires Legal(run) && id in Exec(run).outcome
    ensures var s := Exec(run);
            && id in s.ops && s.signalled[id] == 1
            && OutcomeOk(s.ops[id], s.outcome[id])
            && s.ops[id].desc == Resumed(s.ops[id].original, s.ops[id].faults)
            && |s.ops[id].faults| == s.adjusted[id]
            && s.retries == |s.adjusted|
  {
    RunInv(run);
    var s := Exec(run);
    assert OpOk(s, id, s.ops[id]);
    assert Places(s, id) == if id in s.ops then 1 else 0;
  }

  // The step calls submit for the operation: start if validation passed, notify on a page
  // fault.
  predicate Submits(s: State, step: Step, id: nat) {
    || (step.Start? && step.id == id && Acceptable(step.desc))
    || (step.Conclude? && step.id == id && id in s.ops && s.ops[id].status % 128 == 3)
  }

  // The last time the run called submit for the operation, that call threw.
  ghost predicate Threw(run: seq<Step>, id: nat)
    requires Legal(run)
    decreases |run|
  {
    run != [] &&
    var before, step := run[..|run| - 1], run[|run| - 1];
    if Submits(Exec(before), step, id) then step.throws else Threw(before, id)
  }

  ghost predicate FailedToSubmit(s: State, id: nat) { id in s.outcome && s.outcome[id] == SubmitFailed }

  // An operation inside start or notify has not been signalled.
  lemma NotYetSignalled(s: State, step: Step)
    requires Inv(s) && Enabled(s, step) && (step.Start? || step.Conclude?)
    ensures step.id !in s.outcome
  {
    assert Places(s, step.id) == if step.id in s.ops then 1 else 0;
    if step.id in s.ops { assert OpOk(s, step.id, s.ops[step.id]); }
  }

  lemma KeepsOutcome(s: State, step: Step, id: nat)
    requires Enabled(s, step) && !(step.Start? && step.id == id) && !(step.Conclude? && step.id == id)
    ensures FailedToSubmit(Apply(s, step), id) <==> FailedToSubmit(s, id)
  {
    if !Touches(step, id) { Elsewhere(s, step, id); }
  }

  lemma OwnFailure(s: State, step: Step)
    requires Inv(s) && Enabled(s, step) && (step.Start? || step.Conclude?)
    ensures !FailedToSubmit(s, step.id)
    ensures FailedToSubmit(Apply(s, step), step.id) <==> Submits(s, step, step.id) && step.throws
  {
    NotYetSignalled(s, step);
    if step.Start? { StartFailure(s, step.id, step.desc, step.throws); } else { ConcludeFailure(s, step.id, step.throws); }
  }

  lemma StartFailure(s: State, id: nat, desc: Desc, throws: bool)
    requires id !in s.ops && id !in s.outcome
    ensures FailedToSubmit(Apply(s, Start(id, desc, throws)), id) <==> Acceptable(desc) && throws
  {
  }

  lemma ConcludeFailure(s: State, id: nat, throws: bool)
    requires Enabled(s, Conclude(id, throws)) && id !in s.outcome
    ensures FailedToSubmit(Apply(s, Conclude(id, throws)), id) <==> s.ops[id].status % 128 == 3 && throws
  {
    var op := s.ops[id];
    assert Concluding(s, id).outcome == s.outcome;
    if op.status % 128 == 3 {
      assert NotifyReaction(op, throws) == if throws then Complete(SubmitFailed) else Submit;
    } else {
      assert NotifyReaction(op, throws).Complete? && NotifyReaction(op, throws).signal != SubmitFailed;
    }
  }

  /** In every run a receiver is told that submitting failed if and only if the last submit
      of its operation threw. */
  lemma {:induction false} SubmitFailedIff(run: seq<Step>, id: nat)
    requires Legal(run)
    ensures id in Exec(run).outcome && Exec(run).outcome[id] == SubmitFailed <==> Threw(run, id)
    decreases |run|
  {
    if run != [] {
      var before, step := run[..|run| - 1], run[|run| - 1];
      SubmitFailedIff(before, id);
      RunInv(before);
      if (step.Start? || step.Conclude?) && step.id == id {
        OwnFailure(Exec(before), step);
      } else {
        KeepsOutcome(Exec(before), step, id);
      }
    }
  }

  lemma Concluded(s: State, id: nat, throws: bool)
    requires Inv(s) && Enabled(s, Conclude(id, throws))
    ensures id in s.ops && id !in s.outcome
    ensures var t := Apply(s, Conclude(id, throws));
            var op, fault := s.ops[id], s.ops[id].status % 128 == 3;
            && id in t.ops && (id in t.submitting <==> fault && !throws) && (id in t.outcome <==> !fault || throws)
            && t.retries == s.retries + (if fault then 1 else 0)
            && (fault ==> t.ops[id] == Op(op.original, Adjusted(op.desc, op.comp), 0, CLEARED, op.faults + [op.comp]))
            && (!fault ==> t.ops[id] == op)
  {
    NotYetSignalled(s, Conclude(id, throws));
    assert Places(s, id) == 1;
    ConcludedReacts(s, id, throws);
  }

  lemma ConcludedReacts(s: State, id: nat, throws: bool)
    requires Enabled(s, Conclude(id, throws)) && id !in s.outcome && id !in s.submitting
    ensures var t := Apply(s, Conclude(id, throws));
            var fault := s.ops[id].status % 128 == 3;
            && (id in t.submitting <==> fault && !throws) && (id in t.outcome <==> !fault || throws)
            && t.ops == Concluding(s, id).ops && t.retries == Concluding(s, id).retries
  {
    var op, u := s.ops[id], Concluding(s, id);
    assert u.outcome == s.outcome && u.submitting == s.submitting;
    assert NotifyReaction(op, throws).Submit? <==> op.status % 128 == 3 && !throws;
  }

  /** What a notify ends with, in every run: a page fault whose submit does not throw puts
      the operation back between doorbell and queue, its descriptor adjusted and its record
      cleared, and counts one retry; anything else signals the receiver. */
  lemma FaultGoesAround(run: seq<Step>, id: nat, throws: bool)
    requires Legal(run) && Legal(run + [Conclude(id, throws)])
    ensures id in Exec(run).ops && id !in Exec(run).outcome
    ensures var s, t := Exec(run), Exec(run + [Conclude(id, throws)]);
            var op, fault := s.ops[id], s.ops[id].status % 128 == 3;
            && id in t.ops && (id in t.submitting <==> fault && !throws) && (id in t.outcome <==> !fault || throws)
            && t.retries == s.retries + (if fault then 1 else 0)
            && (fault ==> t.ops[id] == Op(op.original, Adjusted(op.desc, op.comp), 0, CLEARED, op.faults + [op.comp]))
            && (!fault ==> t.ops[id] == op)
  {
    var step := Conclude(id, throws);
    assert (run + [step])[..|run|] == run;
    RunInv(run);
    Concluded(Exec(run), id, throws);
  }

  // The receiver has been signalled, once, and the operation was left in this state.
  ghost predicate Settled(s: State, id: nat, op: Op, signal: Signal) {
    id in s.ops && s.ops[id] == op && s.signalled[id] == 1 && id in s.outcome && s.outcome[id] == signal
  }

  lemma StaysSettled(s: State, step: Step, id: nat, op: Op, signal: Signal)
    requires Inv(s) && Enabled(s, step) && Settled(s, id, op, signal)
    ensures Settled(Apply(s, step), id, op, signal) && !Touches(step, id)
  {
    SignalledUntouched(s, step, id);
    Elsewhere(s, step, id);
  }

  lemma LastStepSettled(run: seq<Step>, id: nat, op: Op, signal: Signal)
    requires run != [] && Legal(run) && Settled(Exec(run[..|run| - 1]), id, op, signal)
    ensures Settled(Exec(run), id, op, signal) && !Touches(run[|run| - 1], id)
  {
    RunInv(run[..|run| - 1]);
    StaysSettled(Exec(run[..|run| - 1]), run[|run| - 1], id, op, signal);
  }

  /** After the signal, however the run continues, its last step does not touch the
      operation, whose memory may be gone: what it holds, its outcome and its number of
      signals stay as they are. */
  lemma {:induction false} SignalIsFinal(run: seq<Step>, longer: seq<Step>, id: nat, op: Op, signal: Signal)
    requires Legal(run) && Legal(longer) && run <= longer && Settled(Exec(run), id, op, signal)
    ensures Settled(Exec(longer), id, op, signal)
    ensures run != longer ==> !Touches(longer[|longer| - 1], id)
    decreases |longer|
  {
    if run != longer {
      SignalIsFinal(run, longer[..|longer| - 1], id, op, signal);
      LastStepSettled(longer, id, op, signal);
    }
  }

  /** Whatever the device is given is acceptable, also after any number of page faults. */
  lemma SubmittedIsAcceptable(run: seq<Step>, id: nat)
    requires Legal(run) && (id in Exec(run).submitting || id in Exec(run).queue)
    ensures id in Exec(run).ops && Acceptable(Exec(run).ops[id].desc)
  {
    RunInv(run);
    var s := Exec(run);
    assert Places(s, id) == if id in s.ops then 1 else 0;
    assert id in s.ops ==> OpOk(s, id, s.ops[id]);
  }

  lemma {:induction false} ResumedOpcode(d: Desc, faults: seq<Completion>)
    ensures Resumed(d, faults).opcode == d.opcode
    decreases |faults|
  {
    if faults != [] { ResumedOpcode(Adjusted(d, faults[0]), faults[1..]); }
  }

  // A completion record that tells what the device did.
  ghost predicate Reports(c: Completion, o: Outcome) {
    (c.result == 0 <==> o.equal) && c.crcVal == o.crc
  }

  // What the receiver of an uninterrupted operation with this outcome is passed.
  ghost function Expected(opcode: Opcode, o: Outcome): Delivered {
    match opcode
    case Compare => Equal(o.equal)
    case CompVal => Equal(o.equal)
    case CopyCrc => Checksum32(o.crc % 0x1_0000_0000)
    case CrcGen => Checksum32(o.crc % 0x1_0000_0000)
    case _ => Nothing
  }

  /** A value means the whole operation, in every run: if the device reported the operation's
      faults and its end truthfully, memory and flushed lines are as the operation that was
      started leaves them, and the value passed to the receiver is the comparison or checksum
      of that operation. */
  lemma ValueIsTheWholeOperation(run: seq<Step>, id: nat, f: (nat, Byte) -> nat, mem: seq<Byte>)
    requires Legal(run) && id in Exec(run).outcome && Exec(run).outcome[id].Value?
    requires id in Exec(run).ops && Truthful(f, Exec(run).ops[id].original, Exec(run).ops[id].faults, mem)
    requires var op := Exec(run).ops[id];
             var parts := Interrupted(f, op.original, op.faults, mem);
             InBounds(op.desc, parts.mem) ==> Reports(op.comp, Run(f, op.desc, parts.mem))
    ensures var op := Exec(run).ops[id];
            var parts := Interrupted(f, op.original, op.faults, mem);
            && Succeeded(op.original.opcode, op.status)
            && InBounds(op.desc, parts.mem)
            && Joined(parts, Run(f, op.desc, parts.mem)) == Run(f, op.original, mem)
            && Exec(run).outcome[id] == Value(Expected(op.original.opcode, Run(f, op.original, mem)))
  {
    SignalExplained(run, id);
    var op := Exec(run).ops[id];
    ResumedOpcode(op.original, op.faults);
    FaultsKeepMeaning(f, op.original, op.faults, mem);
  }
}
