/**
 The engine's gate in front of the staging submitter, on a dedicated work queue of `cap`
 entries: a submit polls while `cap` doorbells are counted as in flight, and a poll flushes.
 The submitter lowers its counter only inside a flush, just before it rings the next
 doorbell, and not at all for single descriptors.

 A submit that passes the gate, a poll and a device completion are one move each; a submit
 that waits at the gate is a sequence of polls.
 */
module StagingGate {
  import opened Submission
  import opened Staging

  datatype Move =
    | Submit(desc: Descriptor)
    | Poll
    | Device(buf: nat)

  predicate Gated(cap: nat, s: State) { 0 < cap <= s.inflight }

  ghost predicate Allowed(k: nat, cap: nat, s: State, move: Move)
    requires Shaped(k, s)
  {
    match move
    case Submit(_) => !Gated(cap, s) && s.count < k
    case Poll => true
    case Device(i) => Enabled(k, s, Complete(i))
  }

  // submit_descriptor: a buffer that is full then is flushed.
  ghost function Submitted(k: nat, s: State, d: Descriptor): (t: State)
    requires Shaped(k, s) && s.count < k
    ensures Shaped(k, t)
  {
    var staged := Apply(k, s, Stage(d));
    if staged.count >= k then Flushed(k, staged) else staged
  }

  ghost function Moved(k: nat, cap: nat, s: State, move: Move): (t: State)
    requires Shaped(k, s) && Allowed(k, cap, s, move)
    ensures Shaped(k, t)
  {
    match move
    case Submit(d) => Submitted(k, s, d)
    case Poll => Flushed(k, s)
    case Device(i) => Apply(k, s, Complete(i))
  }

  ghost predicate LegalMoves(k: nat, cap: nat, run: seq<Move>)
    requires k >= 1
    decreases |run|, 0
  {
    run == [] || (LegalMoves(k, cap, run[..|run| - 1]) && Allowed(k, cap, After(k, cap, run[..|run| - 1]), run[|run| - 1]))
  }

  ghost function After(k: nat, cap: nat, run: seq<Move>): (s: State)
    requires k >= 1 && LegalMoves(k, cap, run)
    ensures Shaped(k, s)
    decreases |run|, 1
  {
    if run == [] then Init(k) else Moved(k, cap, After(k, cap, run[..|run| - 1]), run[|run| - 1])
  }

  // ---------------------------------------------------------------- the counter never falls

  ghost predicate Good(k: nat, s: State) { Inv(k, s) && Counted(k, s) && s.count < k }

  lemma ReleasedCounted(k: nat, s: State)
    requires Inv(k, s) && Counted(k, s)
    ensures Counted(k, OtherReleased(k, s))
    ensures OtherReleased(k, s).inflight == s.inflight - if s.waiting[1 - s.active] then 1 else 0
  {
    var other := 1 - s.active;
    if s.waiting[other] && s.comp[other] == 0 {
      StepCounted(k, s, Complete(other));
      StepKeepsInv(k, s, Complete(other));
      StepCounted(k, Apply(k, s, Complete(other)), Release);
    } else if s.waiting[other] {
      StepCounted(k, s, Release);
    }
  }

  /** A flush lowers the counter by at most the one it then adds. */
  lemma FlushCounted(k: nat, s: State)
    requires Inv(k, s) && Counted(k, s)
    ensures Inv(k, Flushed(k, s)) && Counted(k, Flushed(k, s)) && Flushed(k, s).count == 0
    ensures Flushed(k, s).inflight == s.inflight + if s.count > 0 && !s.waiting[1 - s.active] then 1 else 0
  {
    FlushedInv(k, s);
    if s.count > 0 {
      ReleasedInv(k, s);
      ReleasedCounted(k, s);
      StepCounted(k, OtherReleased(k, s), Ring);
    }
  }

  lemma SubmitCounted(k: nat, s: State, d: Descriptor)
    requires Good(k, s)
    ensures Good(k, Submitted(k, s, d)) && Submitted(k, s, d).inflight >= s.inflight
  {
    StepKeepsInv(k, s, Stage(d));
    StepCounted(k, s, Stage(d));
    FlushCounted(k, Apply(k, s, Stage(d)));
  }

  lemma MoveCounted(k: nat, cap: nat, s: State, move: Move)
    requires Good(k, s) && Allowed(k, cap, s, move)
    ensures Good(k, Moved(k, cap, s, move)) && Moved(k, cap, s, move).inflight >= s.inflight
  {
    match move
    case Submit(d) => SubmitCounted(k, s, d);
    case Poll => FlushCounted(k, s);
    case Device(i) =>
      StepKeepsInv(k, s, Complete(i));
      StepCounted(k, s, Complete(i));
  }

  lemma {:induction false} RunGood(k: nat, cap: nat, run: seq<Move>)
    requires k >= 1 && LegalMoves(k, cap, run)
    ensures Good(k, After(k, cap, run))
    decreases |run|
  {
    if run != [] {
      RunGood(k, cap, run[..|run| - 1]);
      MoveCounted(k, cap, After(k, cap, run[..|run| - 1]), run[|run| - 1]);
    }
  }

  // ---------------------------------------------------------------- a gate that stays closed

  // However the run goes on, nothing more is submitted.
  ghost predicate ClosedForGood(k: nat, cap: nat, run: seq<Move>)
    requires k >= 1 && LegalMoves(k, cap, run)
  {
    forall longer :: LegalMoves(k, cap, longer) && run <= longer ==> After(k, cap, longer).submitted == After(k, cap, run).submitted
  }

  lemma MoveGated(k: nat, cap: nat, s: State, move: Move)
    requires Good(k, s) && Gated(cap, s) && Allowed(k, cap, s, move)
    ensures Gated(cap, Moved(k, cap, s, move)) && Moved(k, cap, s, move).submitted == s.submitted
  {
    MoveCounted(k, cap, s, move);
    if move == Poll { FlushedInv(k, s); }
  }

  lemma {:induction false} StaysGated(k: nat, cap: nat, run: seq<Move>, longer: seq<Move>)
    requires k >= 1 && LegalMoves(k, cap, run) && LegalMoves(k, cap, longer) && run <= longer && Gated(cap, After(k, cap, run))
    ensures Gated(cap, After(k, cap, longer)) && After(k, cap, longer).submitted == After(k, cap, run).submitted
    decreases |longer|
  {
    if run != longer {
      var before := longer[..|longer| - 1];
      StaysGated(k, cap, run, before);
      RunGood(k, cap, before);
      MoveGated(k, cap, After(k, cap, before), longer[|longer| - 1]);
    }
  }

  lemma Extended(k: nat, cap: nat, run: seq<Move>, move: Move) returns (r: seq<Move>)
    requires k >= 1 && LegalMoves(k, cap, run) && Allowed(k, cap, After(k, cap, run), move)
    ensures r == run + [move] && LegalMoves(k, cap, r) && After(k, cap, r) == Moved(k, cap, After(k, cap, run), move)
  {
    r := run + [move];
    assert r[..|r| - 1] == run;
  }

  /** In every run the gate is closed for good, to every later submit and from the top level
      too, if and only if single-descriptor doorbells and buffers still waited for amount to
      at least `cap`. */
  lemma GateClosesIff(k: nat, cap: nat, run: seq<Move>)
    requires k >= 1 && LegalMoves(k, cap, run)
    ensures var s := After(k, cap, run);
            ClosedForGood(k, cap, run) <==> 0 < cap <= Singles(s.payloads) + Waited(s.waiting)
  {
    RunGood(k, cap, run);
    var s := After(k, cap, run);
    if Gated(cap, s) {
      forall longer | LegalMoves(k, cap, longer) && run <= longer
        ensures After(k, cap, longer).submitted == After(k, cap, run).submitted
      {
        StaysGated(k, cap, run, longer);
      }
    } else {
      var longer := Extended(k, cap, run, Submit(1));
      OneMore(k, s, 1);
      assert After(k, cap, longer).submitted != s.submitted;
    }
  }

  lemma OneMore(k: nat, s: State, d: Descriptor)
    requires Good(k, s)
    ensures Submitted(k, s, d).submitted == s.submitted + [d]
  {
    StepKeepsInv(k, s, Stage(d));
    FlushedInv(k, Apply(k, s, Stage(d)));
  }

  /** `cap` descriptors, each polled for before the next, close the gate. */
  lemma {:induction false} SinglesClose(k: nat, cap: nat, n: nat) returns (r: seq<Move>)
    requires k >= 1 && n <= cap
    ensures LegalMoves(k, cap, r)
    ensures var s := After(k, cap, r); s.inflight == n && s.count == 0 && !s.waiting[0] && !s.waiting[1]
    ensures 0 < n == cap ==> ClosedForGood(k, cap, r)
    decreases n
  {
    if n == 0 {
      r := [];
    } else {
      r := SinglesClose(k, cap, n - 1);
      RunGood(k, cap, r);
      SingleMoves(k, After(k, cap, r));
      r := Extended(k, cap, r, Submit(1));
      r := Extended(k, cap, r, Poll);
    }
    RunGood(k, cap, r);
    GateClosesIff(k, cap, r);
  }

  lemma SingleMoves(k: nat, s: State)
    requires Good(k, s) && s.count == 0 && !s.waiting[0] && !s.waiting[1]
    ensures var t := Flushed(k, Submitted(k, s, 1));
            t.inflight == s.inflight + 1 && t.count == 0 && !t.waiting[0] && !t.waiting[1]
  {
  }
}
