/**
 What a poll of the lock-free queue does with the verdicts of `check_completion`: the
 operations found complete are the ones notified, and an operation found unfinished goes
 back to the shared list.

 Which operations were pushed, and which verdicts were given on which operations, is read
 off the run itself.
 */
module LockFreeVerdicts {
  import opened Links
  import opened LockFreeList

  // The pushes of a run, in order.
  function Pushes(run: seq<Step>): seq<nat> {
    if run == [] then []
    else Pushes(run[..|run| - 1]) + if run[|run| - 1].Load? then [run[|run| - 1].op] else []
  }

  // How often the run found the operation complete.
  ghost function TimesComplete(run: seq<Step>, op: nat): nat
    requires Legal(run)
    decreases |run|
  {
    if run == [] then 0
    else
      var before, step := run[..|run| - 1], run[|run| - 1];
      TimesComplete(before, op) + if step == SplitOne(true) && Exec(before).poller.reversed == To(op) then 1 else 0
  }

  // The operations found unfinished since the list was last taken over.
  ghost function Unfinished(run: seq<Step>): set<nat>
    requires Legal(run)
    decreases |run|
  {
    if run == [] then {}
    else
      var before, step := run[..|run| - 1], run[|run| - 1];
      if step == Steal then {}
      else if step == SplitOne(false) then Unfinished(before) + {Exec(before).poller.reversed.op}
      else Unfinished(before)
  }

  // The operations that polls have put aside to notify.
  function ToNotify(p: Poller): multiset<nat> {
    match p
    case Idle => multiset{}
    case Reversing(_, _, _, _) => multiset{}
    case Splitting(_, _, _, _, cs, _) => multiset(cs)
    case Readding(_, _, _, _, cs) => multiset(cs)
    case Notifying(_, cs) => multiset(cs)
  }

  function Settled(s: State): multiset<nat> {
    multiset(s.notified) + ToNotify(s.poller) + InOuter(s.outer)
  }

  // ---------------------------------------------------------------- each step

  lemma {:induction false} PushesAre(run: seq<Step>)
    requires Legal(run)
    ensures Exec(run).pushed == Pushes(run)
    decreases |run|
  {
    if run != [] { PushesAre(run[..|run| - 1]); }
  }

  lemma SplitAside(s: State, done: bool)
    requires PollerChains(s.next, s.poller) && Enabled(s, SplitOne(done))
    ensures var t := Apply(s, SplitOne(done));
            && ToNotify(t.poller) == ToNotify(s.poller) + (if done then multiset{s.poller.reversed.op} else multiset{})
            && t.outer == s.outer && t.notified == s.notified
  {
    Consed(s.poller.rs[0], s.poller.cs);
  }

  lemma NotifyAside(s: State)
    requires PollerChains(s.next, s.poller) && Enabled(s, NotifyOne)
    ensures var t, op := Apply(s, NotifyOne), s.poller.completed.op;
            ToNotify(s.poller) == ToNotify(t.poller) + multiset{op} && t.outer == s.outer && t.notified == s.notified + [op]
  {
    HeadTail(s.poller.cs);
  }

  lemma NotifySettles(s: State)
    requires PollerChains(s.next, s.poller) && Enabled(s, NotifyOne)
    ensures Settled(Apply(s, NotifyOne)) == Settled(s)
  {
    NotifyAside(s);
    assert multiset(s.notified + [s.poller.completed.op]) == multiset(s.notified) + multiset{s.poller.completed.op};
  }

  lemma NestSettles(s: State)
    requires Enabled(s, Nest)
    ensures Settled(Apply(s, Nest)) == Settled(s)
  {
    OuterPushed(s.outer, Waiting(s.poller.completed, s.poller.cs));
  }

  lemma UnnestSettles(s: State)
    requires Enabled(s, Unnest)
    ensures Settled(Apply(s, Unnest)) == Settled(s)
  {
  }

  // The other steps neither notify nor put anything aside.
  lemma PushAside(s: State, step: Step)
    requires Enabled(s, step) && (step.Load? || step.Link? || step.Cas?)
    ensures var t := Apply(s, step); ToNotify(t.poller) == ToNotify(s.poller) && t.outer == s.outer && t.notified == s.notified
  {
  }

  lemma PollAside(s: State, step: Step)
    requires Enabled(s, step) && step in {Steal, ReverseOne, EndReverse, EndSplit, TakePending, EndReadd}
    ensures var t := Apply(s, step); ToNotify(t.poller) == ToNotify(s.poller) && t.outer == s.outer && t.notified == s.notified
  {
  }

  lemma EndAside(s: State)
    requires PollerChains(s.next, s.poller) && Enabled(s, EndPoll)
    ensures var t := Apply(s, EndPoll); ToNotify(t.poller) == ToNotify(s.poller) && t.outer == s.outer && t.notified == s.notified
  {
    assert s.poller.cs == [];
  }

  lemma StepSettles(s: State, step: Step, op: nat)
    requires PollerChains(s.next, s.poller) && Enabled(s, step)
    ensures Settled(Apply(s, step))[op] == Settled(s)[op] + if step == SplitOne(true) && s.poller.reversed == To(op) then 1 else 0
  {
    if step.SplitOne? { SplitAside(s, step.done); }
    else if step == NotifyOne { NotifySettles(s); }
    else if step == Nest { NestSettles(s); }
    else if step == Unnest { UnnestSettles(s); }
    else if step == EndPoll { EndAside(s); }
    else if step.Load? || step.Link? || step.Cas? { PushAside(s, step); }
    else { PollAside(s, step); }
  }

  lemma {:induction false} SettledIs(run: seq<Step>, op: nat)
    requires Legal(run)
    ensures Settled(Exec(run))[op] == TimesComplete(run, op)
    decreases |run|
  {
    if run != [] {
      SettledIs(run[..|run| - 1], op);
      RunInv(run[..|run| - 1]);
      StepSettles(Exec(run[..|run| - 1]), run[|run| - 1], op);
    }
  }

  // ---------------------------------------------------------------- unfinished ones

  // Waiting to be put back, being put back, or back in the shared list.
  ghost predicate GoingBack(s: State, op: nat) {
    || (s.poller.Splitting? && op in s.poller.ps)
    || (s.poller.Readding? && (op in s.poller.ps || s.poller.hand == To(op)))
    || op in s.shared
  }

  lemma SplitGoesBack(s: State)
    requires Inv(s) && Enabled(s, SplitOne(false))
    ensures GoingBack(Apply(s, SplitOne(false)), s.poller.reversed.op)
  {
    assert Apply(s, SplitOne(false)).poller.ps[0] == s.poller.reversed.op;
  }

  lemma TakeGoesBack(s: State, op: nat)
    requires Inv(s) && Enabled(s, TakePending) && GoingBack(s, op)
    ensures GoingBack(Apply(s, TakePending), op)
  {
    var ps := s.poller.ps;
    if op in ps && op != ps[0] {
      var i :| 0 <= i < |ps| && ps[i] == op;
      assert ps[1..][i - 1] == op;
    }
  }

  lemma CasGoesBack(s: State, x: nat, weak: bool, op: nat)
    requires Enabled(s, Cas(x, weak)) && GoingBack(s, op)
    ensures GoingBack(Apply(s, Cas(x, weak)), op)
  {
    assert x in [x] + s.shared && forall y :: y in s.shared ==> y in [x] + s.shared;
  }

  lemma StaysGoingBack(s: State, step: Step, op: nat)
    requires Inv(s) && Enabled(s, step) && step != Steal && GoingBack(s, op)
    ensures GoingBack(Apply(s, step), op)
  {
    match step
    case Cas(x, weak) => CasGoesBack(s, x, weak, op);
    case TakePending => TakeGoesBack(s, op);
    case SplitOne(done) =>
      var ps := s.poller.ps;
      assert forall y :: y in ps ==> y in [s.poller.rs[0]] + ps;
    case EndReadd => assert s.poller.ps == [];
    case _ =>
  }

  lemma {:induction false} UnfinishedGoesBack(run: seq<Step>, op: nat)
    requires Legal(run) && op in Unfinished(run)
    ensures GoingBack(Exec(run), op)
    decreases |run|
  {
    var before, step := run[..|run| - 1], run[|run| - 1];
    RunInv(before);
    if op in Unfinished(before) {
      UnfinishedGoesBack(before, op);
      StaysGoingBack(Exec(before), step, op);
    } else {
      SplitGoesBack(Exec(before));
    }
  }

  // ---------------------------------------------------------------- every run

  /** In every run, with polls nested to any depth: an operation was found complete exactly
      as often as it was notified, once more if a poll still has it put aside; what was
      pushed is what `push` was called with; and an operation found unfinished since the list
      was last taken over is on its way back to the list or in it, and put aside by no poll. */
  lemma VerdictsObeyed(run: seq<Step>, op: nat)
    requires Legal(run)
    ensures var s := Exec(run);
            && s.pushed == Pushes(run)
            && multiset(s.notified)[op] + ToNotify(s.poller)[op] + InOuter(s.outer)[op] == TimesComplete(run, op)
            && (op in Unfinished(run) ==> GoingBack(s, op) && op !in ToNotify(s.poller) && op !in InOuter(s.outer))
  {
    PushesAre(run);
    SettledIs(run, op);
    if op in Unfinished(run) {
      UnfinishedGoesBack(run, op);
      RunInv(run);
      BackIsNotAside(Exec(run), op);
    }
  }

  lemma BackIsNotAside(s: State, op: nat)
    requires Inv(s) && GoingBack(s, op)
    ensures op !in ToNotify(s.poller) && op !in InOuter(s.outer)
  {
    assert Places(s)[op] == multiset(s.shared)[op] + InPoller(s.poller)[op] + InOuter(s.outer)[op] + multiset(s.hands.Keys)[op];
  }

  /** When no poll is under way, everything found complete has been notified. */
  lemma AllCompleteNotified(run: seq<Step>, op: nat)
    requires Legal(run) && Exec(run).poller.Idle? && Exec(run).outer == []
    ensures multiset(Exec(run).notified)[op] == TimesComplete(run, op)
  {
    SettledIs(run, op);
  }
}
