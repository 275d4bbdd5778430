/**
 What the engine's gate is for: a dedicated work queue has `cap` entries, and no more than
 `cap` descriptors may be with the device. The counter it looks at is lowered for operations
 without descriptors too, which never raised it, so each of those may let one descriptor too
 many through.
 */
module WorkQueue {
  import opened Submission
  import opened Backpressure

  // The operations without descriptors that a run pushed.
  function Scheduled(run: seq<Step>): nat {
    if run == [] then 0 else Scheduled(run[..|run| - 1]) + if run[|run| - 1] == Schedule then 1 else 0
  }

  // The descriptors rung in and not completed: all that is queued and not done, operations
  // without descriptors being done at once.
  function WithDevice(s: State): int { s.queued - s.done }

  // The counter misses at most n of the operations queued or taken, and is within the gate.
  ghost predicate Missing(cap: nat, s: State, n: nat) {
    s.queued + Held(s.stack) <= s.inflight + n && (cap > 0 ==> s.inflight <= cap)
  }

  lemma StepMisses(cap: nat, s: State, step: Step, n: nat)
    requires s.done <= s.queued && Enabled(cap, s, step) && Missing(cap, s, n)
    ensures Missing(cap, Apply(cap, s, step), n + if step == Schedule then 1 else 0)
  {
    match step
    case CallPoll => HeldPush(s.stack, Polling(s.done, s.done));
    case Wait => HeldPush(s.stack, Polling(s.done, s.done));
    case CallSubmit => HeldPush(s.stack, Submitting);
    case Fault =>
      NotifiedHeld(s);
      HeldPush(Notified(s).stack, Submitting);
    case Signal => NotifiedHeld(s);
    case _ =>
  }

  lemma {:induction false} RunMisses(cap: nat, run: seq<Step>)
    requires Legal(cap, run)
    ensures Missing(cap, Exec(cap, run), Scheduled(run))
    decreases |run|
  {
    if run != [] {
      RunMisses(cap, run[..|run| - 1]);
      StepMisses(cap, Exec(cap, run[..|run| - 1]), run[|run| - 1], Scheduled(run[..|run| - 1]));
    }
  }

  /** In every run the device has at most `cap` descriptors and one more for each operation
      without a descriptor that was pushed. */
  lemma AtMostWithDevice(cap: nat, run: seq<Step>)
    requires cap > 0 && Legal(cap, run)
    ensures 0 <= WithDevice(Exec(cap, run)) <= cap + Scheduled(run)
  {
    RunMisses(cap, run);
  }

  // What a submit that finds the gate open does, from the top level.
  lemma SubmitMoves(cap: nat, inflight: nat, queued: nat)
    requires inflight < cap
    ensures var s, t := State(inflight, queued, 0, []), State(inflight, queued, 0, [Submitting]);
            && Enabled(cap, s, CallSubmit) && Apply(cap, s, CallSubmit) == t
            && Enabled(cap, t, Enter) && Apply(cap, t, Enter) == State(inflight + 1, queued + 1, 0, [])
  {
  }

  // An operation without a descriptor is pushed, and the poll that takes it lowers the counter.
  lemma ScheduleMoves(cap: nat, inflight: nat, queued: nat)
    requires inflight > 0
    ensures var s0, s1 := State(inflight, queued, 0, []), State(inflight, queued + 1, 1, []);
            var s2, s3 := State(inflight, queued, 0, [Polling(1, 1)]), State(inflight, queued, 0, [Polling(0, 1)]);
            && Enabled(cap, s0, Schedule) && Apply(cap, s0, Schedule) == s1
            && Enabled(cap, s1, CallPoll) && Apply(cap, s1, CallPoll) == s2
            && Enabled(cap, s2, Signal) && Apply(cap, s2, Signal) == s3
            && Enabled(cap, s3, Return) && Apply(cap, s3, Return) == State(inflight - 1, queued, 0, [])
  {
  }

  lemma OneMore(cap: nat, run: seq<Step>, inflight: nat, queued: nat) returns (r: seq<Step>)
    requires inflight < cap && Legal(cap, run) && Exec(cap, run) == State(inflight, queued, 0, [])
    ensures Legal(cap, r) && Exec(cap, r) == State(inflight + 1, queued + 1, 0, []) && Scheduled(r) == Scheduled(run)
  {
    SubmitMoves(cap, inflight, queued);
    var called := Next(cap, run, CallSubmit);
    r := Next(cap, called, Enter);
  }

  // Then the gate is open once more.
  lemma OneTooMany(cap: nat, run: seq<Step>, n: nat) returns (r: seq<Step>)
    requires cap > 0 && Legal(cap, run) && Exec(cap, run) == State(cap, n, 0, [])
    ensures Legal(cap, r) && Exec(cap, r) == State(cap, n + 1, 0, []) && Scheduled(r) == Scheduled(run) + 1
  {
    ScheduleMoves(cap, cap, n);
    var r1 := Next(cap, run, Schedule);
    var r2 := Next(cap, r1, CallPoll);
    var r3 := Next(cap, r2, Signal);
    var r4 := Next(cap, r3, Return);
    r := OneMore(cap, r4, cap - 1, n);
  }

  lemma Next(cap: nat, run: seq<Step>, step: Step) returns (r: seq<Step>)
    requires Legal(cap, run) && Enabled(cap, Exec(cap, run), step)
    ensures Legal(cap, r) && Exec(cap, r) == Apply(cap, Exec(cap, run), step)
    ensures Scheduled(r) == Scheduled(run) + if step == Schedule then 1 else 0
  {
    r := Extended(cap, run, step);
    assert r[..|r| - 1] == run;
  }

  // `n` descriptors, one submit after the other.
  lemma {:induction false} RungIn(cap: nat, n: nat) returns (r: seq<Step>)
    requires n <= cap
    ensures Legal(cap, r) && Exec(cap, r) == State(n, n, 0, []) && Scheduled(r) == 0
    decreases n
  {
    r := [];
    if n > 0 {
      var r0 := RungIn(cap, n - 1);
      r := OneMore(cap, r0, n - 1, n - 1);
    }
  }

  /** That bound is reached: for every capacity and every number of operations without
      descriptors there is a run with that many more descriptors than entries. */
  lemma {:induction false} Overfull(cap: nat, k: nat) returns (r: seq<Step>)
    requires cap > 0
    ensures Legal(cap, r) && Scheduled(r) == k && WithDevice(Exec(cap, r)) == cap + k && Exec(cap, r) == State(cap, cap + k, 0, [])
    decreases k
  {
    if k == 0 {
      r := RungIn(cap, cap);
    } else {
      var r0 := Overfull(cap, k - 1);
      r := OneTooMany(cap, r0, cap + k - 1);
    }
  }

  /** For every capacity above 0: the runs in which `k` operations without descriptors are
      pushed all keep within the work queue if and only if `k` is 0. */
  lemma NeverOverfullIff(cap: nat, k: nat)
    requires cap > 0
    ensures (forall run :: Legal(cap, run) && Scheduled(run) == k ==> WithDevice(Exec(cap, run)) <= cap) <==> k == 0
  {
    if k == 0 {
      forall run | Legal(cap, run) && Scheduled(run) == k ensures WithDevice(Exec(cap, run)) <= cap { AtMostWithDevice(cap, run); }
    } else {
      var run := Overfull(cap, k);
      assert WithDevice(Exec(cap, run)) > cap;
    }
  }
}
