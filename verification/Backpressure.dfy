/**
 `DsaEngine::submit` and `poll` on one thread, with the direct submitter on a dedicated work
 queue of `cap` entries. A submit polls while `cap` doorbells are counted as in flight. A poll
 takes completed operations, notifies each, and only when it returns lowers the counter by
 the number it took; a notification may submit, after a page fault or because a receiver
 starts the next operation, and then polls again inside the poll.

 An operation without a descriptor, such as the scheduler's, is pushed completed and without
 raising the counter; the poll that takes it lowers the counter all the same, down to 0 at
 most.

 Operations are counted, not named: `queued` are pushed and not taken, `done` of them
 completed. `stack` are the calls in progress, innermost last.
 */
module Backpressure {
  import opened Submission

  // A poll in progress has taken some operations and has some of them left to notify.
  datatype Frame = Submitting | Polling(ready: nat, taken: nat)

  datatype State = State(inflight: nat, queued: nat, done: nat, stack: seq<Frame>)

  const INITIAL := State(0, 0, 0, [])

  datatype Step =
    | CallPoll     // by the program, or by a receiver that is being notified
    | CallSubmit
    | Schedule     // push an operation without a descriptor
    | Fault        // a notified operation submits itself again
    | Signal       // a notified operation signals its receiver
    | Wait         // submit polls because the queue is full
    | Enter        // submit rings the doorbell and pushes the operation
    | Return       // poll returns its count
    | Device       // an operation completes

  // wq_capacity() > 0 and inflight() >= wq_capacity()
  predicate Gated(cap: nat, s: State) { 0 < cap <= s.inflight }

  predicate AtTop(s: State, submitting: bool) {
    s.stack != [] && s.stack[|s.stack| - 1].Submitting? == submitting
  }

  // Code of the user runs: the program, or the receiver of an operation the innermost poll
  // has notified.
  predicate UserRuns(s: State) {
    s.stack == [] || (AtTop(s, false) && s.stack[|s.stack| - 1].ready < s.stack[|s.stack| - 1].taken)
  }

  predicate Enabled(cap: nat, s: State, step: Step) {
    match step
    case CallPoll => UserRuns(s)
    case CallSubmit => UserRuns(s)
    case Schedule => UserRuns(s)
    case Fault => AtTop(s, false) && s.stack[|s.stack| - 1].ready > 0
    case Signal => AtTop(s, false) && s.stack[|s.stack| - 1].ready > 0
    case Wait => AtTop(s, true) && Gated(cap, s)
    case Enter => AtTop(s, true) && !Gated(cap, s)
    case Return => AtTop(s, false) && s.stack[|s.stack| - 1].ready == 0
    case Device => s.done < s.queued
  }

  function Polled(s: State): State
    requires s.done <= s.queued
  {
    s.(queued := s.queued - s.done, done := 0, stack := s.stack + [Polling(s.done, s.done)])
  }

  function Notified(s: State): State
    requires AtTop(s, false) && s.stack[|s.stack| - 1].ready > 0
  {
    var top := s.stack[|s.stack| - 1];
    s.(stack := s.stack[..|s.stack| - 1] + [top.(ready := top.ready - 1)])
  }

  function Apply(cap: nat, s: State, step: Step): (t: State)
    requires s.done <= s.queued && Enabled(cap, s, step)
    ensures t.done <= t.queued
  {
    match step
    case CallPoll => Polled(s)
    case CallSubmit => s.(stack := s.stack + [Submitting])
    case Schedule => s.(queued := s.queued + 1, done := s.done + 1)
    case Fault => var n := Notified(s); n.(stack := n.stack + [Submitting])
    case Signal => Notified(s)
    case Wait => Polled(s)
    case Enter => s.(inflight := s.inflight + 1, queued := s.queued + 1, stack := s.stack[..|s.stack| - 1])
    case Return =>
      s.(inflight := NotifyComplete(s.inflight, s.stack[|s.stack| - 1].taken), stack := s.stack[..|s.stack| - 1])
    case Device => s.(done := s.done + 1)
  }

  predicate Legal(cap: nat, run: seq<Step>)
    decreases |run|, 0
  {
    run == [] || (Legal(cap, run[..|run| - 1]) && Enabled(cap, Exec(cap, run[..|run| - 1]), run[|run| - 1]))
  }

  function Exec(cap: nat, run: seq<Step>): (s: State)
    requires Legal(cap, run)
    ensures s.done <= s.queued
    decreases |run|, 1
  {
    if run == [] then INITIAL else Apply(cap, Exec(cap, run[..|run| - 1]), run[|run| - 1])
  }

  // ---------------------------------------------------------------- the counter

  // Operations taken by the polls in progress: notified or not, they still count.
  function Held(stack: seq<Frame>): nat {
    if stack == [] then 0
    else Held(stack[..|stack| - 1]) + (if stack[|stack| - 1].Polling? then stack[|stack| - 1].taken else 0)
  }

  lemma HeldPush(stack: seq<Frame>, frame: Frame)
    ensures Held(stack + [frame]) == Held(stack) + if frame.Polling? then frame.taken else 0
  {
    assert (stack + [frame])[..|stack|] == stack;
  }

  lemma {:induction false} HeldPrefix(stack: seq<Frame>, n: nat)
    requires n <= |stack|
    ensures Held(stack[..n]) <= Held(stack)
    decreases |stack|
  {
    if n == |stack| {
      assert stack[..n] == stack;
    } else {
      assert stack[..|stack| - 1][..n] == stack[..n];
      HeldPrefix(stack[..|stack| - 1], n);
    }
  }

  // Every operation of the run carries a descriptor.
  predicate Plain(run: seq<Step>) { Schedule !in run }

  // The counter is at most what is queued and what polls in progress have taken.
  ghost predicate Inv(s: State) { s.inflight <= s.queued + Held(s.stack) }

  ghost predicate Exact(s: State) { s.inflight == s.queued + Held(s.stack) }

  lemma NotifiedHeld(s: State)
    requires AtTop(s, false) && s.stack[|s.stack| - 1].ready > 0
    ensures Held(Notified(s).stack) == Held(s.stack)
  {
    var top := s.stack[|s.stack| - 1];
    HeldPush(s.stack[..|s.stack| - 1], top.(ready := top.ready - 1));
  }

  lemma StepKeepsInv(cap: nat, s: State, step: Step)
    requires s.done <= s.queued && Inv(s) && Enabled(cap, s, step)
    ensures Inv(Apply(cap, s, step))
    ensures Exact(s) && step != Schedule ==> Exact(Apply(cap, s, step))
  {
    match step
    case CallPoll => HeldPush(s.stack, Polling(s.done, s.done));
    case Wait => HeldPush(s.stack, Polling(s.done, s.done));
    case CallSubmit => HeldPush(s.stack, Submitting);
    case Fault =>
      NotifiedHeld(s);
      HeldPush(Notified(s).stack, Submitting);
    case Signal => NotifiedHeld(s);
    case _ =>
  }

  /** In every run the in-flight counter is at most the queued operations and those taken by
      polls in progress, and equal to that if all of them carry descriptors. */
  lemma {:induction false} RunInv(cap: nat, run: seq<Step>)
    requires Legal(cap, run)
    ensures Inv(Exec(cap, run)) && (Plain(run) ==> Exact(Exec(cap, run)))
    decreases |run|
  {
    if run != [] {
      RunInv(cap, run[..|run| - 1]);
      StepKeepsInv(cap, Exec(cap, run[..|run| - 1]), run[|run| - 1]);
    }
  }

  // ---------------------------------------------------------------- a submit that never returns

  // The calls in progress at the end of run are in progress in s.
  ghost predicate StillInside(s: State, stack: seq<Frame>) { stack <= s.stack }

  // However the run goes on, the innermost call does not return.
  ghost predicate NeverReturns(cap: nat, run: seq<Step>)
    requires Legal(cap, run)
  {
    forall longer :: Legal(cap, longer) && run <= longer ==> StillInside(Exec(cap, longer), Exec(cap, run).stack)
  }

  // Gated, and nothing queued that a poll could take: only empty polls come and go.
  ghost predicate Starved(cap: nat, s: State, stack: seq<Frame>) {
    Gated(cap, s) && s.queued == 0 && (s.stack == stack || s.stack == stack + [Polling(0, 0)])
  }

  lemma StaysStarved(cap: nat, s: State, step: Step, stack: seq<Frame>)
    requires s.done <= s.queued && Enabled(cap, s, step) && Starved(cap, s, stack)
    requires stack != [] && stack[|stack| - 1].Submitting?
    ensures Starved(cap, Apply(cap, s, step), stack)
  {
    if s.stack != stack { assert s.stack[..|s.stack| - 1] == stack; }
  }

  lemma {:induction false} Trapped(cap: nat, run: seq<Step>, longer: seq<Step>)
    requires Legal(cap, run) && Legal(cap, longer) && run <= longer
    requires AtTop(Exec(cap, run), true) && Gated(cap, Exec(cap, run)) && Exec(cap, run).queued == 0
    ensures Starved(cap, Exec(cap, longer), Exec(cap, run).stack)
    decreases |longer|
  {
    if run != longer {
      var before := longer[..|longer| - 1];
      Trapped(cap, run, before);
      StaysStarved(cap, Exec(cap, before), longer[|longer| - 1], Exec(cap, run).stack);
    }
  }

  // ---------------------------------------------------------------- and one that does

  lemma Extended(cap: nat, run: seq<Step>, step: Step) returns (r: seq<Step>)
    requires Legal(cap, run) && Enabled(cap, Exec(cap, run), step)
    ensures r == run + [step] && Legal(cap, r) && Exec(cap, r) == Apply(cap, Exec(cap, run), step)
  {
    r := run + [step];
    assert r[..|r| - 1] == run;
  }

  // The device completes everything that is queued.
  lemma {:induction false} AllComplete(cap: nat, run: seq<Step>) returns (r: seq<Step>)
    requires Legal(cap, run)
    ensures Legal(cap, r) && run <= r && (Plain(run) ==> Plain(r))
    ensures var s := Exec(cap, run); Exec(cap, r) == s.(done := s.queued)
    decreases Exec(cap, run).queued - Exec(cap, run).done
  {
    var s := Exec(cap, run);
    if s.done == s.queued {
      r := run;
    } else {
      var r1 := Extended(cap, run, Device);
      r := AllComplete(cap, r1);
    }
  }

  // The innermost poll notifies what it has left, each with a signal.
  lemma {:induction false} AllSignalled(cap: nat, run: seq<Step>) returns (r: seq<Step>)
    requires Legal(cap, run) && AtTop(Exec(cap, run), false)
    ensures Legal(cap, r) && run <= r && (Plain(run) ==> Plain(r))
    ensures var s := Exec(cap, run);
            var top := s.stack[|s.stack| - 1];
            Exec(cap, r) == s.(stack := s.stack[..|s.stack| - 1] + [top.(ready := 0)])
    decreases Exec(cap, run).stack[|Exec(cap, run).stack| - 1].ready
  {
    var s := Exec(cap, run);
    var top := s.stack[|s.stack| - 1];
    if top.ready == 0 {
      r := run;
      assert s.stack == s.stack[..|s.stack| - 1] + [top];
    } else {
      var r1 := Extended(cap, run, Signal);
      r := AllSignalled(cap, r1);
    }
  }

  // A receiver pushes m operations without descriptors.
  lemma {:induction false} ManyScheduled(cap: nat, run: seq<Step>, m: nat) returns (r: seq<Step>)
    requires Legal(cap, run) && UserRuns(Exec(cap, run))
    ensures Legal(cap, r) && run <= r
    ensures var s := Exec(cap, run); Exec(cap, r) == s.(queued := s.queued + m, done := s.done + m)
    decreases m
  {
    if m == 0 {
      r := run;
    } else {
      r := ManyScheduled(cap, run, m - 1);
      r := Extended(cap, r, Schedule);
    }
  }

  // The nested poll of a gated submit starts, with everything queued completed.
  lemma NestedStart(cap: nat, run: seq<Step>) returns (r: seq<Step>)
    requires Legal(cap, run) && Enabled(cap, Exec(cap, run), Wait)
    ensures Legal(cap, r) && run <= r && (Plain(run) ==> Plain(r))
    ensures var s := Exec(cap, run); Exec(cap, r) == State(s.inflight, 0, 0, s.stack + [Polling(s.queued, s.queued)])
  {
    r := AllComplete(cap, run);
    r := Extended(cap, r, Wait);
  }

  // It ends, with a signal for everything left to notify.
  lemma NestedEnd(cap: nat, run: seq<Step>, stack: seq<Frame>, poll: Frame) returns (r: seq<Step>)
    requires Legal(cap, run) && poll.Polling? && Exec(cap, run).stack == stack + [poll]
    ensures Legal(cap, r) && run <= r && (Plain(run) ==> Plain(r))
    ensures var s := Exec(cap, run); Exec(cap, r) == State(NotifyComplete(s.inflight, poll.taken), s.queued, s.done, stack)
  {
    r := AllSignalled(cap, run);
    assert Exec(cap, r).stack == stack + [poll.(ready := 0)];
    r := Extended(cap, r, Return);
    assert (stack + [poll.(ready := 0)])[..|stack|] == stack;
  }

  // One nested poll.
  lemma NestedPoll(cap: nat, run: seq<Step>) returns (r: seq<Step>)
    requires Legal(cap, run) && Enabled(cap, Exec(cap, run), Wait)
    ensures Legal(cap, r) && run <= r && (Plain(run) ==> Plain(r))
    ensures var s := Exec(cap, run); Exec(cap, r) == State(NotifyComplete(s.inflight, s.queued), 0, 0, s.stack)
  {
    var s := Exec(cap, run);
    r := NestedStart(cap, run);
    r := NestedEnd(cap, r, s.stack, Polling(s.queued, s.queued));
  }

  // The nested poll takes something and has signalled the first receiver.
  lemma FirstSignalled(cap: nat, run: seq<Step>) returns (r: seq<Step>)
    requires Legal(cap, run) && Enabled(cap, Exec(cap, run), Wait) && Exec(cap, run).queued > 0
    ensures Legal(cap, r) && run <= r
    ensures var s := Exec(cap, run); Exec(cap, r) == State(s.inflight, 0, 0, s.stack + [Polling(s.queued - 1, s.queued)])
  {
    var s := Exec(cap, run);
    var r1 := NestedStart(cap, run);
    r := Extended(cap, r1, Signal);
    assert (s.stack + [Polling(s.queued, s.queued)])[..|s.stack|] == s.stack;
  }

  // That receiver schedules as many operations as are counted in flight, and the poll ends.
  lemma SchedulingPoll(cap: nat, run: seq<Step>) returns (r: seq<Step>)
    requires Legal(cap, run) && Enabled(cap, Exec(cap, run), Wait) && Exec(cap, run).queued > 0
    ensures Legal(cap, r) && run <= r
    ensures var s := Exec(cap, run); Exec(cap, r) == State(NotifyComplete(s.inflight, s.queued), s.inflight, s.inflight, s.stack)
  {
    var s := Exec(cap, run);
    var r1 := FirstSignalled(cap, run);
    var r2 := ManyScheduled(cap, r1, s.inflight);
    r := NestedEnd(cap, r2, s.stack, Polling(s.queued - 1, s.queued));
  }

  // With those taken too, the gate is open.
  lemma GateOpened(cap: nat, run: seq<Step>) returns (r: seq<Step>)
    requires Legal(cap, run) && Enabled(cap, Exec(cap, run), Wait) && Exec(cap, run).queued > 0
    ensures Legal(cap, r) && run <= r && Exec(cap, r).stack == Exec(cap, run).stack && !Gated(cap, Exec(cap, r))
  {
    r := SchedulingPoll(cap, run);
    if Gated(cap, Exec(cap, r)) {
      var r1 := r;
      r := NestedPoll(cap, r1);
    }
  }

  lemma Entered(cap: nat, run: seq<Step>) returns (r: seq<Step>)
    requires Legal(cap, run) && Enabled(cap, Exec(cap, run), Enter)
    ensures Legal(cap, r) && run <= r && (Plain(run) ==> Plain(r)) && |Exec(cap, r).stack| < |Exec(cap, run).stack|
  {
    r := Extended(cap, run, Enter);
  }

  lemma Outside(s: State, stack: seq<Frame>)
    requires |s.stack| < |stack|
    ensures !StillInside(s, stack)
  {
  }

  lemma Returns(cap: nat, run: seq<Step>) returns (r: seq<Step>)
    requires Legal(cap, run) && AtTop(Exec(cap, run), true) && !(Gated(cap, Exec(cap, run)) && Exec(cap, run).queued == 0)
    ensures Legal(cap, r) && run <= r && !StillInside(Exec(cap, r), Exec(cap, run).stack)
  {
    var open := run;
    if Gated(cap, Exec(cap, run)) { open := GateOpened(cap, run); }
    r := Entered(cap, open);
    Outside(Exec(cap, r), Exec(cap, run).stack);
  }

  /** In every run a submit never returns, whatever the device and the receivers do, if and
      only if the gate is closed and nothing is queued. */
  lemma SubmitHangsIff(cap: nat, run: seq<Step>)
    requires Legal(cap, run) && AtTop(Exec(cap, run), true)
    ensures NeverReturns(cap, run) <==> Gated(cap, Exec(cap, run)) && Exec(cap, run).queued == 0
  {
    if Gated(cap, Exec(cap, run)) && Exec(cap, run).queued == 0 {
      forall longer | Legal(cap, longer) && run <= longer ensures StillInside(Exec(cap, longer), Exec(cap, run).stack) {
        Trapped(cap, run, longer);
      }
    } else {
      var longer := Returns(cap, run);
    }
  }

  // ---------------------------------------------------------------- with descriptors only

  // As long as every operation carries a descriptor, the innermost call does not return.
  ghost predicate NeverReturnsPlain(cap: nat, run: seq<Step>)
    requires Legal(cap, run)
  {
    forall longer :: Legal(cap, longer) && run <= longer && Plain(longer) ==> StillInside(Exec(cap, longer), Exec(cap, run).stack)
  }

  // A submit under polls that hold `cap` operations or more is gated for good.
  lemma StaysInside(cap: nat, s: State, step: Step, stack: seq<Frame>)
    requires s.done <= s.queued && Exact(s) && Enabled(cap, s, step) && StillInside(s, stack)
    requires stack != [] && stack[|stack| - 1].Submitting? && 0 < cap <= Held(stack)
    ensures StillInside(Apply(cap, s, step), stack)
  {
    HeldPrefix(s.stack, |stack|);
    assert s.stack[..|stack|] == stack && Gated(cap, s);
  }

  lemma {:induction false} TrappedPlain(cap: nat, run: seq<Step>, longer: seq<Step>)
    requires Legal(cap, run) && Legal(cap, longer) && run <= longer && Plain(longer)
    requires AtTop(Exec(cap, run), true) && 0 < cap <= Held(Exec(cap, run).stack)
    ensures StillInside(Exec(cap, longer), Exec(cap, run).stack)
    decreases |longer|
  {
    if run != longer {
      var before := longer[..|longer| - 1];
      TrappedPlain(cap, run, before);
      RunInv(cap, before);
      StaysInside(cap, Exec(cap, before), longer[|longer| - 1], Exec(cap, run).stack);
    }
  }

  lemma ReturnsPlain(cap: nat, run: seq<Step>) returns (r: seq<Step>)
    requires Legal(cap, run) && Plain(run) && AtTop(Exec(cap, run), true) && !(0 < cap <= Held(Exec(cap, run).stack))
    ensures Legal(cap, r) && run <= r && Plain(r) && !StillInside(Exec(cap, r), Exec(cap, run).stack)
  {
    var open := run;
    if Gated(cap, Exec(cap, run)) { open := PlainOpened(cap, run); }
    r := Entered(cap, open);
    Outside(Exec(cap, r), Exec(cap, run).stack);
  }

  lemma PlainOpened(cap: nat, run: seq<Step>) returns (r: seq<Step>)
    requires Legal(cap, run) && Plain(run) && Enabled(cap, Exec(cap, run), Wait) && Held(Exec(cap, run).stack) < cap
    ensures Legal(cap, r) && run <= r && Plain(r) && Exec(cap, r).stack == Exec(cap, run).stack && !Gated(cap, Exec(cap, r))
  {
    RunInv(cap, run);
    r := NestedPoll(cap, run);
  }

  /** If all operations carry descriptors: a submit never returns if and only if the polls in
      progress around it hold at least `cap` operations. */
  lemma PlainSubmitHangsIff(cap: nat, run: seq<Step>)
    requires Legal(cap, run) && Plain(run) && AtTop(Exec(cap, run), true)
    ensures NeverReturnsPlain(cap, run) <==> 0 < cap <= Held(Exec(cap, run).stack)
  {
    if 0 < cap <= Held(Exec(cap, run).stack) {
      forall longer | Legal(cap, longer) && run <= longer && Plain(longer)
        ensures StillInside(Exec(cap, longer), Exec(cap, run).stack)
      {
        TrappedPlain(cap, run, longer);
      }
    } else {
      var longer := ReturnsPlain(cap, run);
    }
  }

  // ---------------------------------------------------------------- a full queue of faults

  lemma {:induction false} Filled(cap: nat, n: nat) returns (r: seq<Step>)
    requires n <= cap
    ensures Legal(cap, r) && Exec(cap, r) == State(n, n, 0, [])
    decreases n
  {
    if n == 0 {
      r := [];
    } else {
      r := Filled(cap, n - 1);
      r := Extended(cap, r, CallSubmit);
      r := Extended(cap, r, Enter);
    }
  }

  // The program polls when `cap` operations are in flight and all of them completed.
  lemma AllTaken(cap: nat) returns (r: seq<Step>)
    ensures Legal(cap, r) && Exec(cap, r) == State(cap, 0, 0, [Polling(cap, cap)])
  {
    r := Filled(cap, cap);
    r := AllComplete(cap, r);
    r := Extended(cap, r, CallPoll);
    assert [] + [Polling(cap, cap)] == [Polling(cap, cap)];
  }

  /** Of those, the first one notified reports a page fault and submits itself again: that
      submit never returns. */
  lemma FaultInFullPoll(cap: nat) returns (r: seq<Step>)
    requires cap > 0
    ensures Legal(cap, r) && AtTop(Exec(cap, r), true) && NeverReturns(cap, r)
  {
    var r0 := AllTaken(cap);
    r := Extended(cap, r0, Fault);
    SubmitHangsIff(cap, r);
  }

  /** Every submit of every run can return if and only if there is no gate: a capacity of 0. */
  lemma GateIsSafeIff(cap: nat)
    ensures (forall run :: Legal(cap, run) && AtTop(Exec(cap, run), true) ==> !NeverReturns(cap, run)) <==> cap == 0
  {
    if cap == 0 {
      forall run | Legal(cap, run) && AtTop(Exec(cap, run), true) ensures !NeverReturns(cap, run) { SubmitHangsIff(cap, run); }
    } else {
      var run := FaultInFullPoll(cap);
    }
  }
}
