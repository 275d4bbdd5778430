/**
 `LockedTaskQueue` under any interleaving: pushes by any threads, and polls by any threads.
 What happens under the lock is one step. A poll takes the lock once, to split the list, and
 then notifies outside the lock, one step for each operation, while others push and poll.

 `stamp` is the number of an operation's latest push, `pushed` and `notified` are histories.
 */
module LockedList {
  import opened Links
  import opened TaskQueues

  // A poll between its locked pass and its return: what it has not notified yet.
  datatype Poll = Poll(completed: Ptr, cs: seq<nat>)

  datatype State = State(head: Ptr, next: map<nat, Ptr>, queue: seq<nat>, polls: map<nat, Poll>,
                         stamp: map<nat, nat>, pushed: seq<nat>, notified: seq<nat>)

  const INITIAL: State := State(Nil, map[], [], map[], map[], [], [])

  // Pass has the links as the locked pass leaves them; `TaskQueues.SplitCompleted` is that
  // pass.
  datatype Step =
    | Push(op: nat)
    | Pass(poller: nat, done: set<nat>, head: Ptr, completed: Ptr, links: map<nat, Ptr>)
    | Notify(poller: nat)
    | Return(poller: nat)

  // The operation is in the queue or in the hands of a poll.
  ghost predicate Held(s: State, op: nat) {
    op in s.queue || exists p :: p in s.polls && op in s.polls[p].cs
  }

  ghost predicate Enabled(s: State, step: Step) {
    match step
    case Push(op) => !Held(s, op)
    case Pass(p, done, head, completed, links) =>
      && p !in s.polls && SameOutside(s.next, links, s.queue)
      && Chain(links, head, Keep(s.queue, done)) && Chain(links, completed, Reverse(Take(s.queue, done)))
    case Notify(p) => p in s.polls && s.polls[p].completed.To? && s.polls[p].completed.op in s.next && s.polls[p].cs != []
    case Return(p) => p in s.polls && s.polls[p].completed.Nil?
  }

  ghost function Apply(s: State, step: Step): State
    requires Enabled(s, step)
  {
    match step
    case Push(op) =>
      s.(next := s.next[op := s.head], head := To(op), queue := [op] + s.queue,
         stamp := s.stamp[op := |s.pushed|], pushed := s.pushed + [op])
    case Pass(p, done, head, completed, links) =>
      s.(next := links, head := head, queue := Keep(s.queue, done),
         polls := s.polls[p := Poll(completed, Reverse(Take(s.queue, done)))])
    case Notify(p) =>
      var op := s.polls[p].completed.op;
      s.(polls := s.polls[p := Poll(s.next[op], s.polls[p].cs[1..])], notified := s.notified + [op])
    case Return(p) => s.(polls := s.polls - {p})
  }

  ghost predicate Legal(run: seq<Step>)
    decreases |run|, 0
  {
    run == [] || (Legal(run[..|run| - 1]) && Enabled(Exec(run[..|run| - 1]), run[|run| - 1]))
  }

  ghost function Exec(run: seq<Step>): State
    requires Legal(run)
    decreases |run|, 1
  {
    if run == [] then INITIAL else Apply(Exec(run[..|run| - 1]), run[|run| - 1])
  }

  // ---------------------------------------------------------------- invariant

  ghost predicate Stamped(s: State, ops: seq<nat>) {
    forall op :: op in ops ==> op in s.stamp && s.stamp[op] < |s.pushed|
  }

  // Latest push first, and earliest push first.
  ghost predicate Descending(stamp: map<nat, nat>, ops: seq<nat>) {
    && (forall op :: op in ops ==> op in stamp)
    && forall i, j :: 0 <= i < j < |ops| ==> stamp[ops[i]] > stamp[ops[j]]
  }

  ghost predicate Ascending(stamp: map<nat, nat>, ops: seq<nat>) {
    && (forall op :: op in ops ==> op in stamp)
    && forall i, j :: 0 <= i < j < |ops| ==> stamp[ops[i]] < stamp[ops[j]]
  }

  ghost predicate Listed(s: State) {
    Chain(s.next, s.head, s.queue) && Descending(s.stamp, s.queue) && Stamped(s, s.queue)
  }

  ghost predicate PollOk(s: State, poll: Poll) {
    && Chain(s.next, poll.completed, poll.cs) && Ascending(s.stamp, poll.cs) && Stamped(s, poll.cs)
    && (forall op :: op in poll.cs ==> op !in s.queue)
  }

  ghost predicate Apart(s: State) {
    forall p, q, op :: p in s.polls && q in s.polls && p != q && op in s.polls[p].cs ==> op !in s.polls[q].cs
  }

  ghost predicate Balanced(s: State) {
    forall op :: multiset(s.pushed)[op] == multiset(s.notified)[op] + if Held(s, op) then 1 else 0
  }

  ghost predicate Inv(s: State) {
    Listed(s) && (forall p :: p in s.polls ==> PollOk(s, s.polls[p])) && Apart(s) && Balanced(s)
  }

  // ---------------------------------------------------------------- a push

  lemma PushPoll(s: State, op: nat, p: nat)
    requires Inv(s) && !Held(s, op) && p in s.polls
    ensures PollOk(Apply(s, Push(op)), s.polls[p])
  {
    assert PollOk(s, s.polls[p]);
    assert op !in s.polls[p].cs;
    ChainFrame(s.next, s.polls[p].completed, s.polls[p].cs, op, s.head);
  }

  lemma PushListed(s: State, op: nat)
    requires Inv(s) && !Held(s, op)
    ensures Listed(Apply(s, Push(op)))
  {
    ChainPush(s.next, s.head, s.queue, op);
  }

  lemma PushBalanced(s: State, op: nat)
    requires Inv(s) && !Held(s, op)
    ensures Balanced(Apply(s, Push(op)))
  {
    var t := Apply(s, Push(op));
    forall x ensures multiset(t.pushed)[x] == multiset(t.notified)[x] + if Held(t, x) then 1 else 0 {
      assert Held(t, x) <==> Held(s, x) || x == op;
    }
  }

  // ---------------------------------------------------------------- a locked pass

  lemma {:induction false} SplitMembers(ops: seq<nat>, d: set<nat>)
    ensures forall op :: op in Take(ops, d) <==> op in ops && op in d
    ensures forall op :: op in Keep(ops, d) <==> op in ops && op !in d
    ensures forall op :: op in Reverse(Take(ops, d)) <==> op in Take(ops, d)
    decreases |ops|
  {
    TakeCount(ops, d);
    ReverseCount(Take(ops, d));
    forall op ensures op in Take(ops, d) <==> op in multiset(Take(ops, d)) { }
    forall op ensures op in Keep(ops, d) <==> op in multiset(Keep(ops, d)) { }
    forall op ensures op in Reverse(Take(ops, d)) <==> op in multiset(Reverse(Take(ops, d))) { }
    forall op ensures op in ops <==> op in multiset(ops) { }
  }

  lemma SortedCons(stamp: map<nat, nat>, x: nat, ops: seq<nat>)
    requires Descending(stamp, ops) && x in stamp && forall op :: op in ops ==> stamp[op] < stamp[x]
    ensures Descending(stamp, [x] + ops)
  {
  }

  lemma FirstIsLatest(stamp: map<nat, nat>, ops: seq<nat>)
    requires Descending(stamp, ops) && ops != []
    ensures Descending(stamp, ops[1..]) && ops[0] in stamp && forall op :: op in ops[1..] ==> stamp[op] < stamp[ops[0]]
  {
  }

  lemma {:induction false} SplitSorted(stamp: map<nat, nat>, ops: seq<nat>, d: set<nat>)
    requires Descending(stamp, ops)
    ensures Descending(stamp, Take(ops, d)) && Descending(stamp, Keep(ops, d))
    decreases |ops|
  {
    if ops != [] {
      FirstIsLatest(stamp, ops);
      SplitSorted(stamp, ops[1..], d);
      SplitMembers(ops[1..], d);
      FrontOf(ops, d);
      if ops[0] in d { SortedCons(stamp, ops[0], Take(ops[1..], d)); } else { SortedCons(stamp, ops[0], Keep(ops[1..], d)); }
    }
  }

  lemma {:induction false} ReverseSorted(stamp: map<nat, nat>, ops: seq<nat>)
    requires Descending(stamp, ops)
    ensures Ascending(stamp, Reverse(ops)) && forall op :: op in Reverse(ops) <==> op in ops
    decreases |ops|
  {
    if ops != [] {
      FirstIsLatest(stamp, ops);
      ReverseSorted(stamp, ops[1..]);
      SortedSnoc(stamp, Reverse(ops[1..]), ops[0]);
    }
  }

  lemma SortedSnoc(stamp: map<nat, nat>, ops: seq<nat>, x: nat)
    requires Ascending(stamp, ops) && x in stamp && forall op :: op in ops ==> stamp[op] < stamp[x]
    ensures Ascending(stamp, ops + [x])
  {
    forall i, j | 0 <= i < j < |ops + [x]| ensures stamp[(ops + [x])[i]] < stamp[(ops + [x])[j]] {
      assert ops[i] in ops;
    }
  }

  lemma {:induction false} ChainOutside(links: map<nat, Ptr>, next: map<nat, Ptr>, p: Ptr, ops: seq<nat>, touched: seq<nat>)
    requires Chain(links, p, ops) && SameOutside(links, next, touched) && forall op :: op in ops ==> op !in touched
    ensures Chain(next, p, ops)
    decreases |ops|
  {
    if ops != [] {
      assert ops[0] !in touched;
      ChainOutside(links, next, links[ops[0]], ops[1..], touched);
    }
  }

  lemma PassListed(s: State, step: Step)
    requires Inv(s) && step.Pass? && Enabled(s, step)
    ensures var t := Apply(s, step); Listed(t) && PollOk(t, t.polls[step.poller])
  {
    SplitMembers(s.queue, step.done);
    SplitSorted(s.stamp, s.queue, step.done);
    ReverseSorted(s.stamp, Take(s.queue, step.done));
  }

  lemma PassOther(s: State, step: Step, p: nat)
    requires Inv(s) && step.Pass? && Enabled(s, step) && p in s.polls
    ensures var t := Apply(s, step); t.polls[p] == s.polls[p] && PollOk(t, s.polls[p])
    ensures forall op :: op in s.polls[p].cs ==> op !in Reverse(Take(s.queue, step.done))
  {
    assert PollOk(s, s.polls[p]);
    SplitMembers(s.queue, step.done);
    ChainOutside(s.next, step.links, s.polls[p].completed, s.polls[p].cs, s.queue);
  }

  lemma PassApart(s: State, step: Step)
    requires Inv(s) && step.Pass? && Enabled(s, step)
    ensures Apart(Apply(s, step))
  {
    var t := Apply(s, step);
    forall p, q, op | p in t.polls && q in t.polls && p != q && op in t.polls[p].cs ensures op !in t.polls[q].cs {
      if p == step.poller { PassOther(s, step, q); }
      else if q == step.poller { PassOther(s, step, p); }
    }
  }

  lemma PassHolds(s: State, step: Step, op: nat)
    requires Inv(s) && step.Pass? && Enabled(s, step)
    ensures Held(Apply(s, step), op) <==> Held(s, op)
  {
    var t := Apply(s, step);
    SplitMembers(s.queue, step.done);
    if op in s.queue { assert op in t.queue || op in t.polls[step.poller].cs; }
    if p :| p in s.polls && op in s.polls[p].cs { assert op in t.polls[p].cs; }
  }

  // ---------------------------------------------------------------- a notification

  lemma NotifiedFirst(s: State, p: nat)
    requires Inv(s) && Enabled(s, Notify(p))
    ensures var cs := s.polls[p].cs;
            cs != [] && s.polls[p].completed == To(cs[0]) && cs[0] !in cs[1..] && PollOk(Apply(s, Notify(p)), Poll(s.next[cs[0]], cs[1..]))
  {
    assert PollOk(s, s.polls[p]);
    var cs := s.polls[p].cs;
    forall j | 0 <= j < |cs[1..]| ensures cs[1..][j] != cs[0] { assert s.stamp[cs[0]] < s.stamp[cs[j + 1]]; }
  }

  lemma NotifyHolds(s: State, p: nat, op: nat)
    requires Inv(s) && Enabled(s, Notify(p))
    ensures Held(Apply(s, Notify(p)), op) <==> Held(s, op) && op != s.polls[p].cs[0]
  {
    NotifiedFirst(s, p);
    var t, cs := Apply(s, Notify(p)), s.polls[p].cs;
    assert PollOk(s, s.polls[p]);
    if Held(s, op) && op != cs[0] && op !in s.queue {
      var q :| q in s.polls && op in s.polls[q].cs;
      assert op in t.polls[q].cs;
    }
    if q :| q in t.polls && op in t.polls[q].cs { assert op in s.polls[q].cs; }
  }

  lemma NotifyKeepsInv(s: State, p: nat)
    requires Inv(s) && Enabled(s, Notify(p))
    ensures Inv(Apply(s, Notify(p)))
  {
    var t, cs := Apply(s, Notify(p)), s.polls[p].cs;
    NotifiedFirst(s, p);
    forall q | q in t.polls ensures PollOk(t, t.polls[q]) { assert PollOk(s, s.polls[q]); }
    forall op ensures multiset(t.pushed)[op] == multiset(t.notified)[op] + if Held(t, op) then 1 else 0 {
      NotifyHolds(s, p, op);
      assert op == cs[0] ==> Held(s, op);
    }
  }

  // ---------------------------------------------------------------- every run

  lemma PushKeepsInv(s: State, op: nat)
    requires Inv(s) && Enabled(s, Push(op))
    ensures Inv(Apply(s, Push(op)))
  {
    PushListed(s, op);
    PushBalanced(s, op);
    forall p | p in s.polls ensures PollOk(Apply(s, Push(op)), s.polls[p]) { PushPoll(s, op, p); }
  }

  lemma PassKeepsInv(s: State, step: Step)
    requires Inv(s) && step.Pass? && Enabled(s, step)
    ensures Inv(Apply(s, step))
  {
    var t := Apply(s, step);
    PassListed(s, step);
    PassApart(s, step);
    forall p | p in t.polls ensures PollOk(t, t.polls[p]) { if p in s.polls { PassOther(s, step, p); } }
    forall op ensures multiset(t.pushed)[op] == multiset(t.notified)[op] + if Held(t, op) then 1 else 0 { PassHolds(s, step, op); }
  }

  lemma ReturnKeepsInv(s: State, p: nat)
    requires Inv(s) && Enabled(s, Return(p))
    ensures Inv(Apply(s, Return(p)))
  {
    var t := Apply(s, Return(p));
    assert PollOk(s, s.polls[p]);
    forall q | q in t.polls ensures PollOk(t, t.polls[q]) { assert PollOk(s, s.polls[q]); }
    forall op ensures Held(t, op) <==> Held(s, op) {
      if q :| q in s.polls && op in s.polls[q].cs { assert q in t.polls && op in t.polls[q].cs; }
    }
  }

  lemma {:induction false} RunInv(run: seq<Step>)
    requires Legal(run)
    ensures Inv(Exec(run))
    decreases |run|
  {
    if run != [] {
      var before, step := run[..|run| - 1], run[|run| - 1];
      RunInv(before);
      match step
      case Push(op) => PushKeepsInv(Exec(before), op);
      case Pass(_, _, _, _, _) => PassKeepsInv(Exec(before), step);
      case Notify(p) => NotifyKeepsInv(Exec(before), p);
      case Return(p) => ReturnKeepsInv(Exec(before), p);
    }
  }

  /** After every run, with pushes and other polls between a poll's pass and its
      notifications: the list has no repetitions, no operation is in two places, and an
      operation is held exactly when it was pushed once more often than it was notified. */
  lemma EveryPushNotifiedOnce(run: seq<Step>)
    requires Legal(run)
    ensures var s := Exec(run);
            && Chain(s.next, s.head, s.queue) && Balanced(s) && Apart(s)
            && (forall i, j :: 0 <= i < j < |s.queue| ==> s.queue[i] != s.queue[j])
            && (forall p, op :: p in s.polls && op in s.polls[p].cs ==> op !in s.queue)
  {
    RunInv(run);
    var s := Exec(run);
    forall p, op | p in s.polls && op in s.polls[p].cs ensures op !in s.queue { assert PollOk(s, s.polls[p]); }
  }

  // The pushes of a run, in order.
  function Pushes(run: seq<Step>): seq<nat> {
    if run == [] then []
    else Pushes(run[..|run| - 1]) + if run[|run| - 1].Push? then [run[|run| - 1].op] else []
  }

  // How often the passes of a run found the operation complete.
  ghost function TimesComplete(run: seq<Step>, op: nat): nat
    requires Legal(run)
    decreases |run|
  {
    if run == [] then 0
    else
      var before, step := run[..|run| - 1], run[|run| - 1];
      TimesComplete(before, op) + if step.Pass? && op in Exec(before).queue && op in step.done then 1 else 0
  }

  // Some poll has put the operation aside to notify.
  ghost predicate Aside(s: State, op: nat) {
    exists p :: p in s.polls && op in s.polls[p].cs
  }

  ghost function TimesSettled(s: State, op: nat): nat {
    multiset(s.notified)[op] + if Aside(s, op) then 1 else 0
  }

  lemma AsideIsNotQueued(s: State, op: nat)
    requires Inv(s) && Aside(s, op)
    ensures op !in s.queue
  {
    var p :| p in s.polls && op in s.polls[p].cs;
    assert PollOk(s, s.polls[p]);
  }

  lemma PassAside(s: State, step: Step, op: nat)
    requires step.Pass? && Enabled(s, step)
    ensures Aside(Apply(s, step), op) <==> Aside(s, op) || (op in s.queue && op in step.done)
  {
    var t := Apply(s, step);
    SplitMembers(s.queue, step.done);
    assert op in t.polls[step.poller].cs <==> op in s.queue && op in step.done;
    if p :| p in s.polls && op in s.polls[p].cs { assert op in t.polls[p].cs; }
    if p :| p in t.polls && op in t.polls[p].cs { assert p == step.poller || op in s.polls[p].cs; }
  }

  lemma PassSettles(s: State, step: Step, op: nat)
    requires Inv(s) && step.Pass? && Enabled(s, step)
    ensures TimesSettled(Apply(s, step), op) == TimesSettled(s, op) + if op in s.queue && op in step.done then 1 else 0
  {
    PassAside(s, step, op);
    if Aside(s, op) { AsideIsNotQueued(s, op); }
  }

  lemma NotifySettles(s: State, p: nat, op: nat)
    requires Inv(s) && Enabled(s, Notify(p))
    ensures TimesSettled(Apply(s, Notify(p)), op) == TimesSettled(s, op)
  {
    var t, first := Apply(s, Notify(p)), s.polls[p].cs[0];
    NotifiedFirst(s, p);
    NotifyHolds(s, p, op);
    assert PollOk(s, s.polls[p]);
    assert first in s.polls[p].cs;
    assert Aside(t, op) <==> Held(t, op) && op !in t.queue by {
      forall q | q in t.polls && op in t.polls[q].cs ensures op in s.polls[q].cs && op !in t.queue { assert PollOk(s, s.polls[q]); }
    }
    assert Aside(s, op) <==> Held(s, op) && op !in s.queue by {
      forall q | q in s.polls && op in s.polls[q].cs ensures op !in s.queue { assert PollOk(s, s.polls[q]); }
    }
  }

  lemma ReturnSettles(s: State, p: nat, op: nat)
    requires Inv(s) && Enabled(s, Return(p))
    ensures TimesSettled(Apply(s, Return(p)), op) == TimesSettled(s, op)
  {
    var t := Apply(s, Return(p));
    assert PollOk(s, s.polls[p]);
    if q :| q in s.polls && op in s.polls[q].cs { assert op in t.polls[q].cs; }
  }

  lemma PushSettles(s: State, x: nat, op: nat)
    requires Enabled(s, Push(x))
    ensures TimesSettled(Apply(s, Push(x)), op) == TimesSettled(s, op)
  {
  }

  lemma {:induction false} SettledIs(run: seq<Step>, op: nat)
    requires Legal(run)
    ensures TimesSettled(Exec(run), op) == TimesComplete(run, op)
    decreases |run|
  {
    if run != [] {
      var before, step := run[..|run| - 1], run[|run| - 1];
      SettledIs(before, op);
      RunInv(before);
      match step
      case Push(x) => PushSettles(Exec(before), x, op);
      case Pass(_, _, _, _, _) => PassSettles(Exec(before), step, op);
      case Notify(p) => NotifySettles(Exec(before), p, op);
      case Return(p) => ReturnSettles(Exec(before), p, op);
    }
  }

  lemma {:induction false} PushesAre(run: seq<Step>)
    requires Legal(run)
    ensures Exec(run).pushed == Pushes(run)
    decreases |run|
  {
    if run != [] { PushesAre(run[..|run| - 1]); }
  }

  /** In every run an operation was found complete exactly as often as it was notified, once
      more if a poll still has it to notify; what was pushed is what `push` was called with. */
  lemma VerdictsObeyed(run: seq<Step>, op: nat)
    requires Legal(run)
    ensures Exec(run).pushed == Pushes(run)
    ensures multiset(Exec(run).notified)[op] + (if Aside(Exec(run), op) then 1 else 0) == TimesComplete(run, op)
  {
    PushesAre(run);
    SettledIs(run, op);
  }

  /** A pass takes out the operations found complete and leaves exactly the others, in the
      order they were in. */
  lemma PassLeavesOthers(run: seq<Step>, step: Step)
    requires Legal(run) && Legal(run + [step]) && step.Pass?
    ensures var s, t := Exec(run), Exec(run + [step]);
            && step.poller in t.polls && Descending(t.stamp, t.queue) && t.stamp == s.stamp
            && (forall op :: op in t.queue <==> op in s.queue && op !in step.done)
            && (forall op :: op in t.polls[step.poller].cs <==> op in s.queue && op in step.done)
  {
    assert (run + [step])[..|run|] == run;
    RunInv(run);
    RunInv(run + [step]);
    SplitMembers(Exec(run).queue, step.done);
  }

  /** Each poll notifies in push order: the operation it notifies next was pushed before
      every other one it still has to notify. */
  lemma NotifiesInPushOrder(run: seq<Step>, p: nat, op: nat)
    requires Legal(run) && Enabled(Exec(run), Notify(p)) && op in Exec(run).polls[p].cs
    ensures var s := Exec(run);
            var first := s.polls[p].completed.op;
            first in s.stamp && op in s.stamp && (op == first || s.stamp[first] < s.stamp[op])
  {
    RunInv(run);
    var s := Exec(run);
    assert PollOk(s, s.polls[p]);
    var cs := s.polls[p].cs;
    var j :| 0 <= j < |cs| && cs[j] == op;
    assert cs[0] in cs;
  }

  /** The locked pass can always be made: `SplitCompleted` computes its links. */
  method LockedPass(ghost run: seq<Step>, next: map<nat, Ptr>, head: Ptr, p: nat, done: set<nat>)
    returns (links: map<nat, Ptr>, kept: Ptr, completed: Ptr)
    requires Legal(run) && next == Exec(run).next && head == Exec(run).head && p !in Exec(run).polls
    ensures Enabled(Exec(run), Pass(p, done, kept, completed, links))
  {
    RunInv(run);
    ghost var s := Exec(run);
    QueueOnce(s);
    links, kept, completed := SplitCompleted(next, head, s.queue, done);
  }

  lemma QueueOnce(s: State)
    requires Inv(s)
    ensures Once(multiset(s.queue))
  {
    SortedOnce(s.stamp, s.queue);
  }

  lemma {:induction false} SortedOnce(stamp: map<nat, nat>, ops: seq<nat>)
    requires Descending(stamp, ops)
    ensures Once(multiset(ops))
    decreases |ops|
  {
    if ops != [] {
      SortedOnce(stamp, ops[1..]);
      HeadTail(ops);
      forall j | 0 <= j < |ops[1..]| ensures ops[1..][j] != ops[0] { assert stamp[ops[0]] > stamp[ops[j + 1]]; }
    }
  }
}
