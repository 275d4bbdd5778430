/**
 The list of `LockFreeTaskQueue`: any number of producers push with compare-and-swap; one
 poller steals the whole list, reverses it, splits it, pushes the unfinished operations
 back with compare-and-swap, and notifies the finished ones. A notification may poll again:
 polls nest to any depth.

 Each access to the shared head is one atomic step, in any interleaving. Nodes are
 operation numbers, `next` their link fields. Beside every pointer the state carries the
 sequence of operations it is meant to lead to; the invariant says that it does.
 */
module LockFreeList {
  import opened Links

  // A push in progress: the head it read, and whether it stored that in op->next.
  datatype Hand = Hand(oldHead: Ptr, linked: bool)

  /** Where the single poller is inside poll(). While it puts an operation back, that one
      is also among the hands. */
  datatype Poller =
    | Idle
    | Reversing(local: Ptr, reversed: Ptr, ls: seq<nat>, rs: seq<nat>)
    | Splitting(reversed: Ptr, completed: Ptr, pending: Ptr, rs: seq<nat>, cs: seq<nat>, ps: seq<nat>)
    | Readding(pending: Ptr, completed: Ptr, hand: Ptr, ps: seq<nat>, cs: seq<nat>)
    | Notifying(completed: Ptr, cs: seq<nat>)

  // A poll inside whose notification the present one runs: what it has left to notify.
  datatype Waiting = Waiting(completed: Ptr, cs: seq<nat>)

  datatype State = State(head: Ptr, next: map<nat, Ptr>, hands: map<nat, Hand>, poller: Poller, outer: seq<Waiting>,
                         shared: seq<nat>, pushed: seq<nat>, notified: seq<nat>)

  const INITIAL: State := State(Nil, map[], map[], Idle, [], [], [], [])

  datatype Step =
    | Load(op: nat)             // a producer reads the head
    | Link(op: nat)             // op->next = old_head
    | Cas(op: nat, weak: bool)  // compare_exchange_weak, which may fail without cause
    | Steal | ReverseOne | EndReverse
    | SplitOne(done: bool)      // check_completion says `done`
    | EndSplit | TakePending | EndReadd | NotifyOne | EndPoll
    | Nest | Unnest             // a notification starts to poll, and is done with that

  function InPoller(p: Poller): multiset<nat> {
    match p
    case Idle => multiset{}
    case Reversing(_, _, ls, rs) => multiset(ls) + multiset(rs)
    case Splitting(_, _, _, rs, cs, ps) => multiset(rs) + multiset(cs) + multiset(ps)
    case Readding(_, _, _, ps, cs) => multiset(ps) + multiset(cs)
    case Notifying(_, cs) => multiset(cs)
  }

  function InOuter(outer: seq<Waiting>): multiset<nat> {
    if outer == [] then multiset{} else InOuter(outer[..|outer| - 1]) + multiset(outer[|outer| - 1].cs)
  }

  // Everything inside the queue: the shared list, the lists of the polls, the hands.
  function Places(s: State): multiset<nat> {
    multiset(s.shared) + InPoller(s.poller) + InOuter(s.outer) + multiset(s.hands.Keys)
  }

  ghost predicate Leads(p: Ptr, next: map<nat, Ptr>) {
    p.To? ==> p.op in next
  }

  // An operation is pushed only while it is not in the queue: once started, or after
  // having been notified.
  ghost predicate Enabled(s: State, step: Step) {
    match step
    case Load(op) => op !in Places(s)
    case Link(op) => op in s.hands && !s.hands[op].linked
    case Cas(op, _) => op in s.hands && s.hands[op].linked
    case Steal => s.poller.Idle?
    case ReverseOne => s.poller.Reversing? && s.poller.local.To? && Leads(s.poller.local, s.next) && s.poller.ls != []
    case EndReverse => s.poller.Reversing? && s.poller.local.Nil?
    case SplitOne(_) => s.poller.Splitting? && s.poller.reversed.To? && Leads(s.poller.reversed, s.next) && s.poller.rs != []
    case EndSplit => s.poller.Splitting? && s.poller.reversed.Nil?
    case TakePending => s.poller.Readding? && s.poller.hand.Nil? && s.poller.pending.To? && Leads(s.poller.pending, s.next) && s.poller.ps != []
    case EndReadd => s.poller.Readding? && s.poller.hand.Nil? && s.poller.pending.Nil?
    case NotifyOne => s.poller.Notifying? && s.poller.completed.To? && Leads(s.poller.completed, s.next) && s.poller.cs != []
    case EndPoll => s.poller.Notifying? && s.poller.completed.Nil?
    case Nest => s.poller.Notifying?
    case Unnest => s.poller.Idle? && s.outer != []
  }

  ghost function Apply(s: State, step: Step): State
    requires Enabled(s, step)
  {
    match step
    case Load(op) =>
      s.(hands := s.hands[op := Hand(s.head, false)], pushed := s.pushed + [op])
    case Link(op) =>
      s.(next := s.next[op := s.hands[op].oldHead], hands := s.hands[op := s.hands[op].(linked := true)])
    case Cas(op, weak) =>
      if s.head == s.hands[op].oldHead && !weak then
        var p := s.poller;
        s.(head := To(op), shared := [op] + s.shared, hands := s.hands - {op},
           poller := if p.Readding? && p.hand == To(op) then p.(hand := Nil) else p)
      else
        s.(hands := s.hands[op := Hand(s.head, false)])
    case Steal =>
      if s.head.Nil? then s
      else s.(head := Nil, shared := [], poller := Reversing(s.head, Nil, s.shared, []))
    case ReverseOne =>
      var p, op := s.poller, s.poller.local.op;
      s.(next := s.next[op := p.reversed],
         poller := Reversing(s.next[op], To(op), p.ls[1..], [p.ls[0]] + p.rs))
    case EndReverse =>
      s.(poller := Splitting(s.poller.reversed, Nil, Nil, s.poller.rs, [], []))
    case SplitOne(done) =>
      var p, op := s.poller, s.poller.reversed.op;
      if done then
        s.(next := s.next[op := p.completed],
           poller := Splitting(s.next[op], To(op), p.pending, p.rs[1..], [p.rs[0]] + p.cs, p.ps))
      else
        s.(next := s.next[op := p.pending],
           poller := Splitting(s.next[op], p.completed, To(op), p.rs[1..], p.cs, [p.rs[0]] + p.ps))
    case EndSplit =>
      s.(poller := Readding(s.poller.pending, s.poller.completed, Nil, s.poller.ps, s.poller.cs))
    case TakePending =>
      var p, op := s.poller, s.poller.pending.op;
      s.(hands := s.hands[op := Hand(s.head, false)],
         poller := Readding(s.next[op], p.completed, To(op), p.ps[1..], p.cs))
    case EndReadd =>
      s.(poller := Notifying(s.poller.completed, s.poller.cs))
    case NotifyOne =>
      var p, op := s.poller, s.poller.completed.op;
      s.(notified := s.notified + [op], poller := Notifying(s.next[op], p.cs[1..]))
    case EndPoll =>
      s.(poller := Idle)
    case Nest =>
      s.(poller := Idle, outer := s.outer + [Waiting(s.poller.completed, s.poller.cs)])
    case Unnest =>
      var last := s.outer[|s.outer| - 1];
      s.(poller := Notifying(last.completed, last.cs), outer := s.outer[..|s.outer| - 1])
  }

  ghost predicate Legal(run: seq<Step>)
    decreases |run|, 0
  {
    run == [] || (Legal(run[..|run| - 1]) && Enabled(Exec(run[..|run| - 1]), run[|run| - 1]))
  }

  ghost function Exec(run: seq<Step>): State
    requires Legal(run)
    decreases |run|, 1
  {
    if run == [] then INITIAL else Apply(Exec(run[..|run| - 1]), run[|run| - 1])
  }

  // ---------------------------------------------------------------- invariant

  ghost predicate PollerChains(next: map<nat, Ptr>, p: Poller) {
    match p
    case Idle => true
    case Reversing(local, reversed, ls, rs) => Chain(next, local, ls) && Chain(next, reversed, rs)
    case Splitting(reversed, completed, pending, rs, cs, ps) =>
      Chain(next, reversed, rs) && Chain(next, completed, cs) && Chain(next, pending, ps)
    case Readding(pending, completed, _, ps, cs) => Chain(next, pending, ps) && Chain(next, completed, cs)
    case Notifying(completed, cs) => Chain(next, completed, cs)
  }

  ghost predicate OuterChains(next: map<nat, Ptr>, outer: seq<Waiting>) {
    forall i :: 0 <= i < |outer| ==> Chain(next, outer[i].completed, outer[i].cs)
  }

  ghost predicate HandsOk(s: State) {
    && (forall op :: op in s.hands && s.hands[op].linked ==> op in s.next && s.next[op] == s.hands[op].oldHead)
    && (s.poller.Readding? && s.poller.hand.To? ==> s.poller.hand.op in s.hands)
  }

  // Every pointer leads along its finite list.
  ghost predicate Linked(s: State) {
    Chain(s.next, s.head, s.shared) && PollerChains(s.next, s.poller) && OuterChains(s.next, s.outer) && HandsOk(s)
  }

  // No operation is in two places, and those pushed are those notified plus those inside.
  ghost predicate Balanced(s: State) {
    Once(Places(s)) && multiset(s.pushed) == multiset(s.notified) + Places(s)
  }

  ghost predicate Inv(s: State) {
    Linked(s) && Balanced(s)
  }

  // An operation in a hand or in the poller's lists is nowhere else.
  lemma Apart(s: State, op: nat)
    requires Once(Places(s)) && op in s.hands
    ensures op !in s.shared && op !in InPoller(s.poller) && op !in InOuter(s.outer)
  {
    assert multiset(s.hands.Keys)[op] == 1;
    assert Places(s)[op] == multiset(s.shared)[op] + InPoller(s.poller)[op] + InOuter(s.outer)[op] + 1;
  }

  lemma ApartFromPoller(s: State, op: nat)
    requires Once(Places(s)) && op in InPoller(s.poller)
    ensures op !in s.shared && op !in s.hands && op !in InOuter(s.outer) && InPoller(s.poller)[op] == 1
  {
    assert Places(s)[op] == multiset(s.shared)[op] + InPoller(s.poller)[op] + InOuter(s.outer)[op] + multiset(s.hands.Keys)[op];
  }

  lemma {:induction false} OuterMember(outer: seq<Waiting>, i: nat, op: nat)
    requires i < |outer| && op in outer[i].cs
    ensures op in InOuter(outer)
    decreases |outer|
  {
    var n := |outer| - 1;
    if i < n { OuterMember(outer[..n], i, op); } else { assert op in multiset(outer[n].cs); }
  }

  lemma OuterFrame(next: map<nat, Ptr>, outer: seq<Waiting>, op: nat, q: Ptr)
    requires OuterChains(next, outer) && op !in InOuter(outer)
    ensures OuterChains(next[op := q], outer)
  {
    forall i | 0 <= i < |outer| ensures Chain(next[op := q], outer[i].completed, outer[i].cs) {
      if op in outer[i].cs { OuterMember(outer, i, op); }
      ChainFrame(next, outer[i].completed, outer[i].cs, op, q);
    }
  }

  lemma PollerFrame(next: map<nat, Ptr>, p: Poller, op: nat, q: Ptr)
    requires PollerChains(next, p) && op !in InPoller(p)
    ensures PollerChains(next[op := q], p)
  {
    match p
    case Idle =>
    case Reversing(local, reversed, ls, rs) => ChainFrame(next, local, ls, op, q); ChainFrame(next, reversed, rs, op, q);
    case Splitting(reversed, completed, pending, rs, cs, ps) =>
      ChainFrame(next, reversed, rs, op, q); ChainFrame(next, completed, cs, op, q); ChainFrame(next, pending, ps, op, q);
    case Readding(pending, completed, _, ps, cs) => ChainFrame(next, pending, ps, op, q); ChainFrame(next, completed, cs, op, q);
    case Notifying(completed, cs) => ChainFrame(next, completed, cs, op, q);
  }

  // ---------------------------------------------------------------- the account

  // Moving operations between places keeps the account.
  lemma Shifted(s: State, t: State)
    requires Balanced(s) && t.pushed == s.pushed && t.notified == s.notified && Places(t) == Places(s)
    ensures Balanced(t)
  {
  }

  lemma NotInHands(s: State, op: nat)
    requires op !in Places(s)
    ensures op !in s.hands
  {
    assert multiset(s.hands.Keys)[op] == 0;
  }

  lemma LoadBalanced(s: State, op: nat)
    requires Balanced(s) && Enabled(s, Load(op))
    ensures Balanced(Apply(s, Load(op)))
  {
    var t := Apply(s, Load(op));
    NotInHands(s, op);
    assert t.hands.Keys == s.hands.Keys + {op};
    assert multiset(t.hands.Keys) == multiset(s.hands.Keys) + multiset{op};
    var before, after := Places(s), Places(t);
    assert after == before + multiset{op};
    assert multiset(t.pushed) == multiset(s.pushed) + multiset{op};
  }

  lemma CasBalanced(s: State, op: nat, weak: bool)
    requires Balanced(s) && Enabled(s, Cas(op, weak))
    ensures Balanced(Apply(s, Cas(op, weak)))
  {
    var t := Apply(s, Cas(op, weak));
    if s.head == s.hands[op].oldHead && !weak {
      assert t.hands.Keys == s.hands.Keys - {op};
      assert multiset(s.hands.Keys) == multiset(t.hands.Keys) + multiset{op};
      assert multiset(t.shared) == multiset{op} + multiset(s.shared);
    } else {
      assert t.hands.Keys == s.hands.Keys;
    }
    assert Places(t) == Places(s);
    Shifted(s, t);
  }

  lemma KeyAdded(hands: map<nat, Hand>, op: nat, h: Hand)
    requires op !in hands
    ensures multiset(hands[op := h].Keys) == multiset(hands.Keys) + multiset{op}
  {
    assert hands[op := h].Keys == hands.Keys + {op};
  }

  lemma PendingFirst(s: State)
    requires Enabled(s, TakePending)
    ensures InPoller(s.poller) == InPoller(Apply(s, TakePending).poller) + multiset{s.poller.ps[0]}
  {
    HeadTail(s.poller.ps);
  }

  lemma TakeBalanced(s: State)
    requires Balanced(s) && Enabled(s, TakePending) && s.poller.pending.op == s.poller.ps[0]
    ensures Balanced(Apply(s, TakePending)) && s.poller.pending.op !in s.hands
  {
    var t, op := Apply(s, TakePending), s.poller.pending.op;
    PendingFirst(s);
    ApartFromPoller(s, op);
    KeyAdded(s.hands, op, Hand(s.head, false));
    assert Places(t) == Places(s);
    Shifted(s, t);
  }

  lemma CompletedFirst(s: State)
    requires Enabled(s, NotifyOne)
    ensures InPoller(s.poller) == InPoller(Apply(s, NotifyOne).poller) + multiset{s.poller.cs[0]}
  {
    HeadTail(s.poller.cs);
  }

  lemma NotifyBalanced(s: State)
    requires Balanced(s) && Enabled(s, NotifyOne) && s.poller.completed.op == s.poller.cs[0]
    ensures Balanced(Apply(s, NotifyOne))
  {
    var t, op := Apply(s, NotifyOne), s.poller.completed.op;
    CompletedFirst(s);
    assert Places(s) == multiset{op} + Places(t);
    OnceLess(op, Places(t));
    assert multiset(t.notified) == multiset(s.notified) + multiset{op};
  }

  // The poller's other steps only move operations between its lists.
  lemma PollerShift(s: State, step: Step)
    requires Inv(s) && Enabled(s, step)
    requires step in {ReverseOne, EndReverse, SplitOne(true), SplitOne(false), EndSplit, EndReadd, EndPoll}
    ensures Balanced(Apply(s, step))
  {
    var t := Apply(s, step);
    ListsMoved(s, step);
    assert Places(t) == Places(s);
    Shifted(s, t);
  }

  lemma ListsMoved(s: State, step: Step)
    requires PollerChains(s.next, s.poller) && Enabled(s, step)
    requires step in {ReverseOne, EndReverse, SplitOne(true), SplitOne(false), EndSplit, EndReadd, EndPoll}
    ensures InPoller(Apply(s, step).poller) == InPoller(s.poller)
  {
    match step
    case ReverseOne => ReverseMoved(s);
    case SplitOne(done) => SplitMoved(s, done);
    case EndReverse => assert s.poller.ls == [];
    case EndSplit => assert s.poller.rs == [];
    case EndReadd => assert s.poller.ps == [];
    case EndPoll => assert s.poller.cs == [];
  }

  lemma ReverseMoved(s: State)
    requires Enabled(s, ReverseOne)
    ensures InPoller(Apply(s, ReverseOne).poller) == InPoller(s.poller)
  {
    HeadTail(s.poller.ls);
    Consed(s.poller.ls[0], s.poller.rs);
  }

  lemma SplitMoved(s: State, done: bool)
    requires Enabled(s, SplitOne(done))
    ensures InPoller(Apply(s, SplitOne(done)).poller) == InPoller(s.poller)
  {
    HeadTail(s.poller.rs);
    Consed(s.poller.rs[0], if done then s.poller.cs else s.poller.ps);
  }

  // Starting and ending a nested poll hand the list over.
  lemma NestPlaces(s: State)
    requires Enabled(s, Nest)
    ensures Places(Apply(s, Nest)) == Places(s)
  {
    OuterPushed(s.outer, Waiting(s.poller.completed, s.poller.cs));
  }

  lemma OuterPushed(outer: seq<Waiting>, w: Waiting)
    ensures InOuter(outer + [w]) == InOuter(outer) + multiset(w.cs)
  {
    assert (outer + [w])[..|outer|] == outer;
  }

  lemma UnnestPlaces(s: State)
    requires Enabled(s, Unnest)
    ensures Places(Apply(s, Unnest)) == Places(s)
  {
  }

  lemma NestBalanced(s: State, step: Step)
    requires Balanced(s) && Enabled(s, step) && step in {Nest, Unnest}
    ensures Balanced(Apply(s, step))
  {
    if step == Nest { NestPlaces(s); } else { UnnestPlaces(s); }
    Shifted(s, Apply(s, step));
  }

  lemma LinkBalanced(s: State, op: nat)
    requires Balanced(s) && Enabled(s, Link(op))
    ensures Balanced(Apply(s, Link(op)))
  {
    assert Apply(s, Link(op)).hands.Keys == s.hands.Keys;
    Shifted(s, Apply(s, Link(op)));
  }

  lemma StealBalanced(s: State)
    requires Inv(s) && Enabled(s, Steal)
    ensures Balanced(Apply(s, Steal))
  {
    assert Places(Apply(s, Steal)) == Places(s);
    Shifted(s, Apply(s, Steal));
  }

  // ---------------------------------------------------------------- the pointers

  lemma LinkLinked(s: State, op: nat)
    requires Inv(s) && Enabled(s, Link(op))
    ensures Linked(Apply(s, Link(op)))
  {
    Apart(s, op);
    ChainFrame(s.next, s.head, s.shared, op, s.hands[op].oldHead);
    PollerFrame(s.next, s.poller, op, s.hands[op].oldHead);
    OuterFrame(s.next, s.outer, op, s.hands[op].oldHead);
  }

  // The exchange succeeds on any head equal to the one read, even one that was stolen
  // and put back in between: the link stored still leads to the present list.
  lemma CasLinked(s: State, op: nat, weak: bool)
    requires Linked(s) && Enabled(s, Cas(op, weak))
    ensures Linked(Apply(s, Cas(op, weak)))
  {
    assert ([op] + s.shared)[1..] == s.shared;
  }

  lemma ReverseLinked(s: State)
    requires Inv(s) && Enabled(s, ReverseOne)
    ensures Linked(Apply(s, ReverseOne))
  {
    var p, op := s.poller, s.poller.local.op;
    assert op !in s.shared && op !in s.hands && op !in InOuter(s.outer) && op !in p.ls[1..] && op !in p.rs by {
      HeadTail(p.ls);
      ApartFromPoller(s, op);
    }
    OuterFrame(s.next, s.outer, op, p.reversed);
    ChainFrame(s.next, s.head, s.shared, op, p.reversed);
    ChainFrame(s.next, s.next[op], p.ls[1..], op, p.reversed);
    ChainPush(s.next, p.reversed, p.rs, op);
  }

  lemma SplitApart(s: State, op: nat)
    requires Inv(s) && s.poller.Splitting? && s.poller.rs != [] && op == s.poller.rs[0]
    ensures op !in s.shared && op !in s.hands && op !in InOuter(s.outer)
    ensures op !in s.poller.rs[1..] && op !in s.poller.cs && op !in s.poller.ps
  {
    HeadTail(s.poller.rs);
    ApartFromPoller(s, op);
  }

  lemma SplitLinked(s: State, done: bool)
    requires Inv(s) && Enabled(s, SplitOne(done))
    ensures Linked(Apply(s, SplitOne(done)))
  {
    var p, op := s.poller, s.poller.reversed.op;
    SplitApart(s, op);
    SplitChains(s.next, p, op, done);
    ChainFrame(s.next, s.head, s.shared, op, if done then p.completed else p.pending);
    OuterFrame(s.next, s.outer, op, if done then p.completed else p.pending);
  }

  lemma SplitChains(next: map<nat, Ptr>, p: Poller, op: nat, done: bool)
    requires p.Splitting? && PollerChains(next, p) && p.rs != [] && op == p.rs[0]
    requires op !in p.rs[1..] && op !in p.cs && op !in p.ps
    ensures var next' := next[op := if done then p.completed else p.pending];
            && Chain(next', next[op], p.rs[1..])
            && (if done then Chain(next', To(op), [op] + p.cs) && Chain(next', p.pending, p.ps)
                else Chain(next', p.completed, p.cs) && Chain(next', To(op), [op] + p.ps))
  {
    var q := if done then p.completed else p.pending;
    ChainFrame(next, next[op], p.rs[1..], op, q);
    if done {
      ChainPush(next, p.completed, p.cs, op);
      ChainFrame(next, p.pending, p.ps, op, q);
    } else {
      ChainPush(next, p.pending, p.ps, op);
      ChainFrame(next, p.completed, p.cs, op, q);
    }
  }

  // Steps that store no link.
  lemma QuietLinked(s: State, step: Step)
    requires Linked(s) && Enabled(s, step)
    requires step.Load? || step in {Steal, EndReverse, EndSplit, TakePending, EndReadd, NotifyOne, EndPoll, Nest, Unnest}
    requires step.Load? ==> step.op !in s.hands
    requires step.TakePending? ==> s.poller.pending.op !in s.hands
    ensures Linked(Apply(s, step))
  {
  }

  lemma StepBalanced(s: State, step: Step)
    requires Inv(s) && Enabled(s, step)
    ensures Balanced(Apply(s, step))
  {
    match step
    case Load(op) => LoadBalanced(s, op);
    case Link(op) => LinkBalanced(s, op);
    case Cas(op, weak) => CasBalanced(s, op, weak);
    case Steal => StealBalanced(s);
    case TakePending => TakeBalanced(s);
    case NotifyOne => NotifyBalanced(s);
    case Nest => NestBalanced(s, step);
    case Unnest => NestBalanced(s, step);
    case _ => PollerShift(s, step);
  }

  lemma StepLinked(s: State, step: Step)
    requires Inv(s) && Enabled(s, step)
    ensures Linked(Apply(s, step))
  {
    match step
    case Load(op) =>
      NotInHands(s, op);
      QuietLinked(s, step);
    case Link(op) => LinkLinked(s, op);
    case Cas(op, weak) => CasLinked(s, op, weak);
    case ReverseOne => ReverseLinked(s);
    case SplitOne(done) => SplitLinked(s, done);
    case TakePending =>
      TakeBalanced(s);
      QuietLinked(s, step);
    case _ => QuietLinked(s, step);
  }

  lemma StepKeepsInv(s: State, step: Step)
    requires Inv(s) && Enabled(s, step)
    ensures Inv(Apply(s, step))
  {
    StepBalanced(s, step);
    StepLinked(s, step);
  }

  lemma {:induction false} RunInv(run: seq<Step>)
    requires Legal(run)
    ensures Inv(Exec(run))
    decreases |run|
  {
    if run != [] {
      RunInv(run[..|run| - 1]);
      StepKeepsInv(Exec(run[..|run| - 1]), run[|run| - 1]);
    }
  }

  // ---------------------------------------------------------------- what every run keeps

  /** After every run the shared pointer leads along a finite list without repetitions,
      every operation is in at most one place, and an operation is inside the queue exactly
      when it was pushed once more often than it was notified. */
  lemma EveryOperationInOnePlace(run: seq<Step>)
    requires Legal(run)
    ensures var s := Exec(run);
            && Chain(s.next, s.head, s.shared)
            && (forall i, j :: 0 <= i < j < |s.shared| ==> s.shared[i] != s.shared[j])
            && (forall op: nat :: multiset(s.pushed)[op] == multiset(s.notified)[op] + if op in Places(s) then 1 else 0)
            && (forall op :: op in s.hands ==> op !in s.shared && op !in InPoller(s.poller) && op !in InOuter(s.outer))
            && (forall op :: op in InPoller(s.poller) ==> op !in s.shared && op !in InOuter(s.outer))
            && (forall op :: op in s.shared ==> op !in InOuter(s.outer))
  {
    RunInv(run);
    OnePlace(Exec(run));
  }

  lemma SharedApart(s: State, op: nat)
    requires Once(Places(s)) && op in s.shared
    ensures op !in InOuter(s.outer)
  {
    assert op in multiset(s.shared);
    assert Places(s)[op] == multiset(s.shared)[op] + InPoller(s.poller)[op] + InOuter(s.outer)[op] + multiset(s.hands.Keys)[op];
  }

  lemma OnePlace(s: State)
    requires Balanced(s)
    ensures forall i, j :: 0 <= i < j < |s.shared| ==> s.shared[i] != s.shared[j]
    ensures forall op: nat :: multiset(s.pushed)[op] == multiset(s.notified)[op] + if op in Places(s) then 1 else 0
    ensures forall op :: op in s.hands ==> op !in s.shared && op !in InPoller(s.poller) && op !in InOuter(s.outer)
    ensures forall op :: op in InPoller(s.poller) ==> op !in s.shared && op !in InOuter(s.outer)
    ensures forall op :: op in s.shared ==> op !in InOuter(s.outer)
  {
    forall op | op in s.hands ensures op !in s.shared && op !in InPoller(s.poller) && op !in InOuter(s.outer) { Apart(s, op); }
    forall op | op in InPoller(s.poller) ensures op !in s.shared && op !in InOuter(s.outer) { ApartFromPoller(s, op); }
    forall op | op in s.shared ensures op !in InOuter(s.outer) { SharedApart(s, op); }
    forall i, j | 0 <= i < j < |s.shared| ensures s.shared[i] != s.shared[j] {
      var op := s.shared[i];
      assert Places(s)[op] >= multiset(s.shared)[op];
      if s.shared[i] == s.shared[j] { TwiceCounted(s.shared, i, j); }
    }
    forall op: nat ensures multiset(s.pushed)[op] == multiset(s.notified)[op] + if op in Places(s) then 1 else 0 {
      assert multiset(s.pushed)[op] == multiset(s.notified)[op] + Places(s)[op];
    }
  }

  // The poller is never stuck on a pointer that leads nowhere: at any point of a poll, one
  // of its own steps can be taken.
  lemma PollerCanStep(run: seq<Step>)
    requires Legal(run)
    ensures var s := Exec(run);
            match s.poller
            case Idle => Enabled(s, Steal) && (s.outer != [] ==> Enabled(s, Unnest))
            case Reversing(_, _, _, _) => Enabled(s, ReverseOne) || Enabled(s, EndReverse)
            case Splitting(_, _, _, _, _, _) => Enabled(s, SplitOne(true)) || Enabled(s, EndSplit)
            case Readding(_, _, hand, _, _) =>
              if hand.To? then Enabled(s, Link(hand.op)) || Enabled(s, Cas(hand.op, false)) else Enabled(s, TakePending) || Enabled(s, EndReadd)
            case Notifying(_, _) => Enabled(s, NotifyOne) || Enabled(s, EndPoll)
  {
    RunInv(run);
    LinkedCanStep(Exec(run));
  }

  lemma LinkedCanStep(s: State)
    requires Linked(s)
    ensures s.poller.Reversing? ==> Enabled(s, ReverseOne) || Enabled(s, EndReverse)
    ensures s.poller.Splitting? ==> Enabled(s, SplitOne(true)) || Enabled(s, EndSplit)
    ensures s.poller.Readding? && s.poller.hand.To? ==> Enabled(s, Link(s.poller.hand.op)) || Enabled(s, Cas(s.poller.hand.op, false))
    ensures s.poller.Readding? && s.poller.hand.Nil? ==> Enabled(s, TakePending) || Enabled(s, EndReadd)
    ensures s.poller.Notifying? ==> Enabled(s, NotifyOne) || Enabled(s, EndPoll)
  {
    match s.poller
    case Idle =>
    case Reversing(local, _, ls, _) => FirstLeads(s.next, local, ls);
    case Splitting(reversed, _, _, rs, _, _) => FirstLeads(s.next, reversed, rs);
    case Readding(_, _, _, _, _) => ReaddCanStep(s);
    case Notifying(completed, cs) => FirstLeads(s.next, completed, cs);
  }

  lemma ReaddCanStep(s: State)
    requires Linked(s) && s.poller.Readding?
    ensures s.poller.hand.To? ==> Enabled(s, Link(s.poller.hand.op)) || Enabled(s, Cas(s.poller.hand.op, false))
    ensures s.poller.hand.Nil? ==> Enabled(s, TakePending) || Enabled(s, EndReadd)
  {
    FirstLeads(s.next, s.poller.pending, s.poller.ps);
  }

  lemma FirstLeads(next: map<nat, Ptr>, p: Ptr, ops: seq<nat>)
    requires Chain(next, p, ops)
    ensures Leads(p, next) && (p.To? <==> ops != [])
  {
  }
}
