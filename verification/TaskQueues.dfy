/**
 The four task queues as they run between two interleavings: a push, or one whole poll by
 the polling thread. Each queue owns the link fields `next` of the operations it handles
 and relinks them in place.

 `done` is the set of operations whose completion record is set when poll looks at it;
 `again` those whose notify() pushes the operation back, as a page-fault retry does. Every
 poll is proved against one specification, `PolledRight`.
 */
module TaskQueues {
  import opened Links

  // ---------------------------------------------------------------- specification

  // The operations of ops inside, and outside, d, in order.
  function Take(ops: seq<nat>, d: set<nat>): seq<nat> {
    if ops == [] then [] else (if ops[0] in d then [ops[0]] else []) + Take(ops[1..], d)
  }

  function Keep(ops: seq<nat>, d: set<nat>): seq<nat> {
    if ops == [] then [] else (if ops[0] in d then [] else [ops[0]]) + Keep(ops[1..], d)
  }

  function Reverse(ops: seq<nat>): seq<nat> {
    if ops == [] then [] else Reverse(ops[1..]) + [ops[0]]
  }

  /** One poll of a queue holding `held`: it notifies exactly the completed operations, as
      often as it held them, and keeps the others and those pushed back while being
      notified. */
  ghost predicate PolledRight(held: multiset<nat>, done: set<nat>, again: set<nat>, notified: multiset<nat>, after: multiset<nat>) {
    forall op: nat ::
      && notified[op] == (if op in done then held[op] else 0)
      && after[op] == (if op !in done || op in again then held[op] else 0)
  }

  lemma {:induction false} TakeCount(ops: seq<nat>, d: set<nat>)
    ensures forall op: nat :: multiset(Take(ops, d))[op] == if op in d then multiset(ops)[op] else 0
    ensures forall op: nat :: multiset(Keep(ops, d))[op] == if op in d then 0 else multiset(ops)[op]
  {
    if ops != [] {
      TakeCount(ops[1..], d);
      HeadTail(ops);
    }
  }

  lemma {:induction false} ReverseCount(ops: seq<nat>)
    ensures multiset(Reverse(ops)) == multiset(ops)
  {
    if ops != [] {
      ReverseCount(ops[1..]);
      HeadTail(ops);
    }
  }

  lemma PollCounts(held: multiset<nat>, done: set<nat>, again: set<nat>, completed: seq<nat>, kept: multiset<nat>, after: multiset<nat>)
    requires forall op: nat :: multiset(completed)[op] == if op in done then held[op] else 0
    requires forall op: nat :: kept[op] == if op in done then 0 else held[op]
    requires after == multiset(Take(completed, again)) + kept
    ensures PolledRight(held, done, again, multiset(completed), after)
  {
    TakeCount(completed, again);
    forall op: nat ensures after[op] == multiset(Take(completed, again))[op] + kept[op] { }
  }

  lemma FrontOf(ops: seq<nat>, d: set<nat>)
    requires ops != []
    ensures Take(ops, d) == (if ops[0] in d then [ops[0]] + Take(ops[1..], d) else Take(ops[1..], d))
    ensures Keep(ops, d) == (if ops[0] in d then Keep(ops[1..], d) else [ops[0]] + Keep(ops[1..], d))
    ensures Reverse(Take(ops, d)) == Reverse(Take(ops[1..], d)) + if ops[0] in d then [ops[0]] else []
    ensures Reverse(Keep(ops, d)) == Reverse(Keep(ops[1..], d)) + if ops[0] in d then [] else [ops[0]]
  {
    assert ([ops[0]] + Take(ops[1..], d))[1..] == Take(ops[1..], d);
    assert ([ops[0]] + Keep(ops[1..], d))[1..] == Keep(ops[1..], d);
    assert [] + Take(ops[1..], d) == Take(ops[1..], d) && [] + Keep(ops[1..], d) == Keep(ops[1..], d);
  }

  lemma Regroup(a: seq<nat>, x: nat, b: seq<nat>)
    ensures (a + [x]) + b == a + ([x] + b)
    ensures a + [] == a && [] + a == a && (a + []) + b == a + b
  {
  }

  lemma RegroupFront(x: nat, a: seq<nat>, b: seq<nat>)
    ensures ([x] + a) + b == [x] + (a + b) && ([] + a) + b == [] + (a + b)
  {
  }

  // ---------------------------------------------------------------- list surgery

  // The first of `rest` is in none of the other lists.
  lemma FirstApart(rest: seq<nat>, others: multiset<nat>)
    requires rest != [] && Once(multiset(rest) + others)
    ensures rest[0] !in rest[1..] && rest[0] !in others
    ensures multiset(rest) + others == multiset{rest[0]} + multiset(rest[1..]) + others
  {
    HeadTail(rest);
    var all := multiset(rest) + others;
    assert all[rest[0]] == 1 + multiset(rest[1..])[rest[0]] + others[rest[0]];
  }

  ghost predicate Splitting(next: map<nat, Ptr>, kept: Ptr, ks: seq<nat>, prev: Ptr, curr: Ptr, rest: seq<nat>, completed: Ptr, cs: seq<nat>) {
    && Segment(next, kept, ks, curr) && Chain(next, curr, rest) && Chain(next, completed, cs)
    && prev == (if ks == [] then Nil else To(ks[|ks| - 1]))
    && Once(multiset(rest) + (multiset(ks) + multiset(cs)))
  }

  // Redirecting the link that led to the current operation, and pushing that one on the
  // completed list.
  lemma Unlinked(next: map<nat, Ptr>, kept: Ptr, ks: seq<nat>, prev: Ptr, curr: Ptr, rest: seq<nat>, completed: Ptr, cs: seq<nat>)
    requires Splitting(next, kept, ks, prev, curr, rest, completed, cs) && rest != []
    ensures var next1 := if prev.Nil? then next else next[prev.op := next[curr.op]];
            var next2 := next1[curr.op := completed];
            var kept' := if prev.Nil? then next[curr.op] else kept;
            Splitting(next2, kept', ks, prev, next[curr.op], rest[1..], curr, [curr.op] + cs)
  {
    var x, following := curr.op, next[curr.op];
    FirstApart(rest, multiset(ks) + multiset(cs));
    assert x !in multiset(ks) && x !in multiset(cs);
    Consed(x, cs);
    assert multiset(rest[1..]) + (multiset(ks) + multiset([x] + cs)) == multiset(rest) + (multiset(ks) + multiset(cs));
    var next1 := if prev.Nil? then next else next[prev.op := following];
    if prev.To? {
      LastApart(rest, ks, cs);
      assert prev.op !in rest[1..];
      SegmentRedirect(next, kept, ks, curr, following);
      ChainFrame(next, following, rest[1..], prev.op, following);
      ChainFrame(next, completed, cs, prev.op, following);
    }
    SegmentFrame(next1, if prev.Nil? then following else kept, ks, following, x, completed);
    ChainFrame(next1, following, rest[1..], x, completed);
    ChainPush(next1, completed, cs, x);
  }

  lemma LastApart(rest: seq<nat>, ks: seq<nat>, cs: seq<nat>)
    requires ks != [] && Once(multiset(rest) + (multiset(ks) + multiset(cs)))
    ensures var last := ks[|ks| - 1]; last !in rest && last !in cs
    ensures Once(multiset(ks))
  {
    var last, all := ks[|ks| - 1], multiset(rest) + (multiset(ks) + multiset(cs));
    assert last in multiset(ks);
    assert all[last] == multiset(rest)[last] + multiset(ks)[last] + multiset(cs)[last];
    forall op | op in multiset(ks) ensures multiset(ks)[op] == 1 {
      assert op in all && all[op] == multiset(rest)[op] + multiset(ks)[op] + multiset(cs)[op];
    }
  }

  lemma Stepped(next: map<nat, Ptr>, kept: Ptr, ks: seq<nat>, prev: Ptr, curr: Ptr, rest: seq<nat>, completed: Ptr, cs: seq<nat>)
    requires Splitting(next, kept, ks, prev, curr, rest, completed, cs) && rest != []
    ensures Splitting(next, kept, ks + [curr.op], curr, next[curr.op], rest[1..], completed, cs)
  {
    HeadTail(rest);
    SegmentSnoc(next, kept, ks, curr.op);
    assert multiset(ks + [curr.op]) == multiset(ks) + multiset{curr.op};
    assert multiset(rest[1..]) + (multiset(ks + [curr.op]) + multiset(cs)) == multiset(rest) + (multiset(ks) + multiset(cs));
  }

  // What the loop makes of the operations still to come.
  ghost function Split(rest: seq<nat>, d: set<nat>, ks: seq<nat>, cs: seq<nat>): (seq<nat>, seq<nat>)
    decreases |rest|
  {
    if rest == [] then (ks, cs)
    else if rest[0] in d then Split(rest[1..], d, ks, [rest[0]] + cs)
    else Split(rest[1..], d, ks + [rest[0]], cs)
  }

  lemma {:induction false} SplitIs(rest: seq<nat>, d: set<nat>, ks: seq<nat>, cs: seq<nat>)
    ensures Split(rest, d, ks, cs) == (ks + Keep(rest, d), Reverse(Take(rest, d)) + cs)
    decreases |rest|
  {
    if rest == [] {
      Regroup(ks, 0, []);
      Regroup(cs, 0, []);
    } else {
      var x := rest[0];
      FrontOf(rest, d);
      Regroup(ks, x, Keep(rest[1..], d));
      Regroup(Reverse(Take(rest[1..], d)), x, cs);
      if x in d { SplitIs(rest[1..], d, ks, [x] + cs); } else { SplitIs(rest[1..], d, ks + [x], cs); }
    }
  }

  // No link but those of ops differs.
  ghost predicate SameOutside(links: map<nat, Ptr>, next: map<nat, Ptr>, ops: seq<nat>) {
    forall op :: op !in ops ==> (op in next <==> op in links) && (op in links ==> next[op] == links[op])
  }

  // The current operation and the one before it belong to the list.
  lemma Belongs(ops: seq<nat>, rest: seq<nat>, ks: seq<nat>, cs: seq<nat>)
    requires rest != [] && multiset(rest) + (multiset(ks) + multiset(cs)) == multiset(ops)
    ensures rest[0] in ops && (ks != [] ==> ks[|ks| - 1] in ops)
  {
    var all := multiset(rest) + (multiset(ks) + multiset(cs));
    assert rest[0] in multiset(rest) && rest[0] in all;
    if ks != [] { assert ks[|ks| - 1] in multiset(ks) && ks[|ks| - 1] in all; }
  }

  lemma SameTotal(rest: seq<nat>, ks: seq<nat>, cs: seq<nat>)
    requires rest != []
    ensures multiset(rest[1..]) + (multiset(ks) + multiset([rest[0]] + cs)) == multiset(rest) + (multiset(ks) + multiset(cs))
    ensures multiset(rest[1..]) + (multiset(ks + [rest[0]]) + multiset(cs)) == multiset(rest) + (multiset(ks) + multiset(cs))
  {
    HeadTail(rest);
    Consed(rest[0], cs);
    assert multiset(ks + [rest[0]]) == multiset(ks) + multiset{rest[0]};
  }

  /** Unlinks the completed operations in place, in one pass. What stays keeps its order;
      the completed ones come out in the opposite order. `prev` owns the link that leads to
      the current operation; Nil stands for the list's head. */
  method SplitCompleted(links: map<nat, Ptr>, head: Ptr, ghost ops: seq<nat>, done: set<nat>)
    returns (next: map<nat, Ptr>, kept: Ptr, completed: Ptr)
    requires Chain(links, head, ops) && Once(multiset(ops))
    ensures Chain(next, kept, Keep(ops, done)) && Chain(next, completed, Reverse(Take(ops, done)))
    ensures SameOutside(links, next, ops)
  {
    next, kept, completed := links, head, Nil;
    var prev, curr := Nil, head;
    ghost var rest, ks, cs: seq<nat> := ops, [], [];
    assert multiset(rest) + (multiset(ks) + multiset(cs)) == multiset(ops);
    while curr.To?
      invariant Splitting(next, kept, ks, prev, curr, rest, completed, cs)
      invariant Split(rest, done, ks, cs) == Split(ops, done, [], [])
      invariant multiset(rest) + (multiset(ks) + multiset(cs)) == multiset(ops) && SameOutside(links, next, ops)
      decreases |rest|
    {
      Belongs(ops, rest, ks, cs);
      SameTotal(rest, ks, cs);
      var op, following := curr.op, next[curr.op];
      if op in done {
        Unlinked(next, kept, ks, prev, curr, rest, completed, cs);
        if prev.Nil? { kept := following; } else { next := next[prev.op := following]; }
        next := next[op := completed];
        completed, cs := curr, [op] + cs;
      } else {
        Stepped(next, kept, ks, prev, curr, rest, completed, cs);
        prev, ks := curr, ks + [op];
      }
      curr, rest := following, rest[1..];
    }
    SegmentIsChain(next, kept, ks);
    SplitIs(ops, done, [], []);
    Regroup(Keep(ops, done), 0, []);
    Regroup(Reverse(Take(ops, done)), 0, []);
  }

  /** Pops operations one by one and pushes each in front of another list. */
  method ReverseOnto(links: map<nat, Ptr>, from: Ptr, ghost fs: seq<nat>, onto: Ptr, ghost os: seq<nat>)
    returns (next: map<nat, Ptr>, r: Ptr)
    requires Chain(links, from, fs) && Chain(links, onto, os) && Once(multiset(fs) + multiset(os))
    ensures Chain(next, r, Reverse(fs) + os)
    ensures forall op :: op in links && op !in fs ==> op in next && next[op] == links[op]
  {
    next, r := links, onto;
    var curr := from;
    ghost var rest, rs := fs, os;
    while curr.To?
      invariant Chain(next, curr, rest) && Chain(next, r, rs) && Once(multiset(rest) + multiset(rs))
      invariant Reverse(fs) + os == Reverse(rest) + rs
      invariant forall op :: op in rest ==> op in fs
      invariant forall op :: op in links && op !in fs ==> op in next && next[op] == links[op]
      decreases |rest|
    {
      FirstApart(rest, multiset(rs));
      Consed(rest[0], rs);
      Regroup(Reverse(rest[1..]), rest[0], rs);
      ChainPush(next, r, rs, curr.op);
      ChainFrame(next, next[curr.op], rest[1..], curr.op, r);
      var op := curr.op;
      curr := next[op];
      next := next[op := r];
      r := To(op);
      assert multiset(rest[1..]) + multiset([op] + rs) == multiset(rest) + multiset(rs);
      rest, rs := rest[1..], [op] + rs;
    }
    Regroup(rs, 0, []);
  }

  ghost function Parted(rest: seq<nat>, d: set<nat>, cs: seq<nat>, ps: seq<nat>): (seq<nat>, seq<nat>)
    decreases |rest|
  {
    if rest == [] then (cs, ps)
    else if rest[0] in d then Parted(rest[1..], d, [rest[0]] + cs, ps)
    else Parted(rest[1..], d, cs, [rest[0]] + ps)
  }

  lemma {:induction false} PartedIs(rest: seq<nat>, d: set<nat>, cs: seq<nat>, ps: seq<nat>)
    ensures Parted(rest, d, cs, ps) == (Reverse(Take(rest, d)) + cs, Reverse(Keep(rest, d)) + ps)
    decreases |rest|
  {
    if rest == [] {
      Regroup(cs, 0, []);
      Regroup(ps, 0, []);
    } else {
      var x := rest[0];
      FrontOf(rest, d);
      Regroup(Reverse(Take(rest[1..], d)), x, cs);
      Regroup(Reverse(Keep(rest[1..], d)), x, ps);
      if x in d { PartedIs(rest[1..], d, [x] + cs, ps); } else { PartedIs(rest[1..], d, cs, [x] + ps); }
    }
  }

  /** Completed and unfinished operations, each pushed on a list of its own. */
  method Partition(links: map<nat, Ptr>, from: Ptr, ghost fs: seq<nat>, done: set<nat>)
    returns (next: map<nat, Ptr>, completed: Ptr, pending: Ptr)
    requires Chain(links, from, fs) && Once(multiset(fs))
    ensures Chain(next, completed, Reverse(Take(fs, done))) && Chain(next, pending, Reverse(Keep(fs, done)))
  {
    next, completed, pending := links, Nil, Nil;
    var curr := from;
    ghost var rest, cs, ps: seq<nat> := fs, [], [];
    assert multiset(rest) + (multiset(cs) + multiset(ps)) == multiset(fs);
    while curr.To?
      invariant Parting(next, curr, rest, completed, cs, pending, ps)
      invariant Parted(rest, done, cs, ps) == Parted(fs, done, [], [])
      decreases |rest|
    {
      var op := curr.op;
      curr := next[op];
      if op in done {
        PartOne(next, op, rest, completed, cs, pending, ps);
        next := next[op := completed];
        completed, cs := To(op), [op] + cs;
      } else {
        PartOne(next, op, rest, completed, cs, pending, ps);
        next := next[op := pending];
        pending, ps := To(op), [op] + ps;
      }
      rest := rest[1..];
    }
    PartedIs(fs, done, [], []);
    Regroup(Reverse(Take(fs, done)), 0, []);
    Regroup(Reverse(Keep(fs, done)), 0, []);
  }

  ghost predicate Parting(next: map<nat, Ptr>, curr: Ptr, rest: seq<nat>, completed: Ptr, cs: seq<nat>, pending: Ptr, ps: seq<nat>) {
    && Chain(next, curr, rest) && Chain(next, completed, cs) && Chain(next, pending, ps)
    && Once(multiset(rest) + (multiset(cs) + multiset(ps)))
  }

  lemma PartOne(next: map<nat, Ptr>, op: nat, rest: seq<nat>, completed: Ptr, cs: seq<nat>, pending: Ptr, ps: seq<nat>)
    requires Parting(next, To(op), rest, completed, cs, pending, ps)
    ensures rest != [] && op == rest[0]
    ensures Parting(next[op := completed], next[op], rest[1..], To(op), [op] + cs, pending, ps)
    ensures Parting(next[op := pending], next[op], rest[1..], completed, cs, To(op), [op] + ps)
  {
    FirstApart(rest, multiset(cs) + multiset(ps));
    assert op !in multiset(cs) && op !in multiset(ps);
    Pushed(next, op, next[op], rest[1..], completed, cs, pending, ps);
    Pushed(next, op, next[op], rest[1..], pending, ps, completed, cs);
    assert multiset(rest[1..]) + (multiset([op] + cs) + multiset(ps)) == multiset(rest) + (multiset(cs) + multiset(ps));
    assert multiset(rest[1..]) + (multiset(cs) + multiset([op] + ps)) == multiset(rest) + (multiset(cs) + multiset(ps));
  }

  // Pushing op in front of one list leaves the others alone.
  lemma Pushed(next: map<nat, Ptr>, op: nat, curr: Ptr, rest: seq<nat>, p: Ptr, ps: seq<nat>, q: Ptr, qs: seq<nat>)
    requires Chain(next, curr, rest) && Chain(next, p, ps) && Chain(next, q, qs)
    requires op !in rest && op !in ps && op !in qs
    ensures Chain(next[op := p], curr, rest) && Chain(next[op := p], To(op), [op] + ps) && Chain(next[op := p], q, qs)
    ensures multiset([op] + ps) == multiset{op} + multiset(ps)
  {
    ChainFrame(next, curr, rest, op, p);
    ChainPush(next, p, ps, op);
    ChainFrame(next, q, qs, op, p);
  }

  ghost function PushedBack(rest: seq<nat>, again: set<nat>, qs: seq<nat>): seq<nat>
    decreases |rest|
  {
    if rest == [] then qs else PushedBack(rest[1..], again, if rest[0] in again then [rest[0]] + qs else qs)
  }

  lemma {:induction false} PushedBackIs(rest: seq<nat>, again: set<nat>, qs: seq<nat>)
    ensures PushedBack(rest, again, qs) == Reverse(Take(rest, again)) + qs
    decreases |rest|
  {
    if rest == [] {
      Regroup(qs, 0, []);
    } else {
      FrontOf(rest, again);
      Regroup(Reverse(Take(rest[1..], again)), rest[0], qs);
      PushedBackIs(rest[1..], again, if rest[0] in again then [rest[0]] + qs else qs);
    }
  }

  /** Notifies the completed operations from the front; those in `again` are pushed back in
      front of the queue while being notified. */
  method NotifyAll(links: map<nat, Ptr>, completed: Ptr, ghost cs: seq<nat>, head: Ptr, ghost contents: seq<nat>, again: set<nat>)
    returns (next: map<nat, Ptr>, r: Ptr, notified: seq<nat>)
    requires Chain(links, completed, cs) && Chain(links, head, contents) && Once(multiset(cs) + multiset(contents))
    ensures notified == cs && Chain(next, r, Reverse(Take(cs, again)) + contents)
  {
    next, r, notified := links, head, [];
    var curr := completed;
    ghost var rest, qs := cs, contents;
    while curr.To?
      invariant cs == notified + rest
      invariant Chain(next, curr, rest) && Chain(next, r, qs) && Once(multiset(rest) + multiset(qs))
      invariant PushedBack(rest, again, qs) == PushedBack(cs, again, contents)
      decreases |rest|
    {
      var op := curr.op;
      NotifyOne(next, op, rest, r, qs);
      Regroup(notified, op, rest[1..]);
      curr := next[op];
      if op in again {
        next := next[op := r];
        r, qs := To(op), [op] + qs;
      }
      notified, rest := notified + [op], rest[1..];
    }
    PushedBackIs(cs, again, contents);
  }

  lemma NotifyOne(next: map<nat, Ptr>, op: nat, rest: seq<nat>, r: Ptr, qs: seq<nat>)
    requires Chain(next, To(op), rest) && Chain(next, r, qs) && Once(multiset(rest) + multiset(qs))
    ensures rest != [] && op == rest[0] && rest == [op] + rest[1..]
    ensures Chain(next, next[op], rest[1..]) && Once(multiset(rest[1..]) + multiset(qs))
    ensures Chain(next[op := r], next[op], rest[1..]) && Chain(next[op := r], To(op), [op] + qs)
    ensures Once(multiset(rest[1..]) + multiset([op] + qs))
  {
    FirstApart(rest, multiset(qs));
    Pushed(next, op, next[op], rest[1..], r, qs, Nil, []);
    assert multiset(rest[1..]) + multiset([op] + qs) == multiset(rest) + multiset(qs);
    assert multiset(rest) + multiset(qs) == multiset{op} + (multiset(rest[1..]) + multiset(qs));
    OnceLess(op, multiset(rest[1..]) + multiset(qs));
  }

  // ---------------------------------------------------------------- order

  lemma {:induction false} TakeConcat(a: seq<nat>, b: seq<nat>, d: set<nat>)
    ensures Take(a + b, d) == Take(a, d) + Take(b, d) && Keep(a + b, d) == Keep(a, d) + Keep(b, d)
    decreases |a|
  {
    if a == [] {
      assert a + b == b;
    } else {
      TakeConcat(a[1..], b, d);
      assert (a + b)[1..] == a[1..] + b;
      RegroupFront(a[0], Take(a[1..], d), Take(b, d));
      RegroupFront(a[0], Keep(a[1..], d), Keep(b, d));
    }
  }

  lemma {:induction false} ReverseConcat(a: seq<nat>, b: seq<nat>)
    ensures Reverse(a + b) == Reverse(b) + Reverse(a)
    decreases |a|
  {
    if a == [] {
      assert a + b == b;
    } else {
      ReverseConcat(a[1..], b);
      assert (a + b)[1..] == a[1..] + b;
    }
  }

  lemma Singleton(x: nat, d: set<nat>)
    ensures Take([x], d) == (if x in d then [x] else []) && Keep([x], d) == (if x in d then [] else [x])
    ensures Reverse([x]) == [x]
  {
    assert [x][1..] == [];
  }

  // Filtering commutes with reversing, and reversing twice changes nothing.
  lemma {:induction false} TakeReverse(ops: seq<nat>, d: set<nat>)
    ensures Take(Reverse(ops), d) == Reverse(Take(ops, d)) && Keep(Reverse(ops), d) == Reverse(Keep(ops, d))
    ensures Reverse(Reverse(ops)) == ops
  {
    if ops != [] {
      TakeReverse(ops[1..], d);
      TakeConcat(Reverse(ops[1..]), [ops[0]], d);
      ReverseConcat(Reverse(ops[1..]), [ops[0]]);
      Singleton(ops[0], d);
      FrontOf(ops, d);
      Regroup(Take(Reverse(ops[1..]), d), 0, []);
      Regroup(Keep(Reverse(ops[1..]), d), 0, []);
    }
  }

  // Splitting an account: the parts of a repetition-free list are apart.
  lemma PartsOnce(held: seq<nat>, d: set<nat>)
    requires Once(multiset(held))
    ensures Once(multiset(Take(held, d)) + multiset(Keep(held, d)))
    ensures multiset(Take(held, d)) + multiset(Keep(held, d)) == multiset(held)
  {
    TakeCount(held, d);
    assert multiset(Take(held, d)) + multiset(Keep(held, d)) == multiset(held);
  }

  lemma KeptOnce(held: seq<nat>, d: set<nat>)
    requires Once(multiset(held))
    ensures Once(multiset(Keep(held, d)) + multiset([]))
    ensures forall op :: op in Take(held, d) ==> op !in Keep(held, d)
  {
    PartsOnce(held, d);
    TakeCount(held, d);
    var k := multiset(Keep(held, d));
    assert k + multiset([]) == k;
    forall op | op in k ensures k[op] == 1 { assert op in multiset(held); }
    forall op | op in Take(held, d) ensures op !in Keep(held, d) { assert op in multiset(Take(held, d)); }
  }

  // A list none of whose links changed still stands.
  lemma {:induction false} Untouched(links: map<nat, Ptr>, next: map<nat, Ptr>, p: Ptr, ops: seq<nat>, fs: seq<nat>)
    requires Chain(links, p, ops) && forall op :: op in ops ==> op !in fs
    requires forall op :: op in links && op !in fs ==> op in next && next[op] == links[op]
    ensures Chain(next, p, ops)
    decreases |ops|
  {
    if ops != [] { Untouched(links, next, links[ops[0]], ops[1..], fs); }
  }

  lemma AfterOnce(held: multiset<nat>, done: set<nat>, again: set<nat>, notified: multiset<nat>, after: multiset<nat>)
    requires Once(held) && PolledRight(held, done, again, notified, after)
    ensures Once(after)
  {
    forall op | op in after ensures after[op] == 1 { assert op in held; }
  }

  // The completed operations cs and the unfinished ones ks, in whatever order the queue
  // lists them, make a right poll.
  lemma PollAccount(held: seq<nat>, done: set<nat>, again: set<nat>, cs: seq<nat>, ks: seq<nat>)
    requires Once(multiset(held))
    requires cs == Take(held, done) || cs == Reverse(Take(held, done))
    requires ks == Keep(held, done) || ks == Reverse(Keep(held, done))
    ensures Once(multiset(cs) + multiset(ks))
    ensures var after := Reverse(Take(cs, again)) + ks;
            PolledRight(multiset(held), done, again, multiset(cs), multiset(after)) && Once(multiset(after))
  {
    PartsOnce(held, done);
    ReverseCount(Take(held, done));
    ReverseCount(Keep(held, done));
    ReverseCount(Take(cs, again));
    TakeCount(held, done);
    var after := Reverse(Take(cs, again)) + ks;
    assert multiset(after) == multiset(Take(cs, again)) + multiset(ks);
    PollCounts(multiset(held), done, again, cs, multiset(ks), multiset(after));
    AfterOnce(multiset(held), done, again, multiset(cs), multiset(after));
  }

  // ---------------------------------------------------------------- LockedTaskQueue

  /** A list behind a lock, newest operation first. */
  class LockedTaskQueue {
    var next: map<nat, Ptr>
    var head: Ptr
    ghost var contents: seq<nat>

    ghost predicate Valid()
      reads this
    {
      Chain(next, head, contents) && Once(multiset(contents))
    }

    constructor ()
      ensures Valid() && contents == []
    {
      next, head, contents := map[], Nil, [];
    }

    method Push(op: nat)
      requires Valid() && op !in contents
      modifies this
      ensures Valid() && contents == [op] + old(contents)
    {
      ChainPush(next, head, contents, op);
      Consed(op, contents);
      next := next[op := head];
      head := To(op);
      contents := [op] + contents;
    }

    /** Notifies the completed operations oldest first; what stays keeps its order. */
    method Poll(done: set<nat>, again: set<nat>) returns (notified: seq<nat>)
      requires Valid()
      modifies this
      ensures Valid() && notified == Reverse(Take(old(contents), done))
      ensures contents == Reverse(Take(notified, again)) + Keep(old(contents), done)
      ensures PolledRight(multiset(old(contents)), done, again, multiset(notified), multiset(contents))
    {
      ghost var cs, ks := Reverse(Take(contents, done)), Keep(contents, done);
      PollAccount(contents, done, again, cs, ks);
      var completed := Unlink(done);
      notified := Deliver(completed, cs, again);
    }

    // What happens after it.
    method Deliver(completed: Ptr, ghost cs: seq<nat>, again: set<nat>) returns (notified: seq<nat>)
      requires Chain(next, completed, cs) && Chain(next, head, contents) && Once(multiset(cs) + multiset(contents))
      modifies this
      ensures notified == cs && contents == Reverse(Take(cs, again)) + old(contents) && Chain(next, head, contents)
    {
      next, head, notified := NotifyAll(next, completed, cs, head, contents, again);
      contents := Reverse(Take(cs, again)) + contents;
    }

    // What happens under the lock.
    method Unlink(done: set<nat>) returns (completed: Ptr)
      requires Valid()
      modifies this
      ensures contents == Keep(old(contents), done) && Chain(next, head, contents)
      ensures Chain(next, completed, Reverse(Take(old(contents), done)))
    {
      next, head, completed := SplitCompleted(next, head, contents, done);
      contents := Keep(contents, done);
    }
  }

  // ---------------------------------------------------------------- LockFreeTaskQueue

  /** The lock-free queue with no push during a poll; LockFreeList covers those. */
  class LockFreeTaskQueue {
    var next: map<nat, Ptr>
    var head: Ptr
    ghost var contents: seq<nat>

    ghost predicate Valid()
      reads this
    {
      Chain(next, head, contents) && Once(multiset(contents))
    }

    constructor ()
      ensures Valid() && contents == []
    {
      next, head, contents := map[], Nil, [];
    }

    // The exchange succeeds at once when nobody else pushes.
    method Push(op: nat)
      requires Valid() && op !in contents
      modifies this
      ensures Valid() && contents == [op] + old(contents)
    {
      ChainPush(next, head, contents, op);
      Consed(op, contents);
      var oldHead := head;
      next := next[op := oldHead];
      head := To(op);
      contents := [op] + contents;
    }

    // Steals the list, reverses it and splits it.
    method StealAndSplit(done: set<nat>) returns (completed: Ptr, pending: Ptr)
      requires Valid()
      modifies this`next, this`head
      ensures head == Nil
      ensures Chain(next, completed, Take(contents, done)) && Chain(next, pending, Keep(contents, done))
    {
      var local := head;
      head := Nil;
      assert multiset(contents) + multiset([]) == multiset(contents);
      var reversed;
      next, reversed := ReverseOnto(next, local, contents, Nil, []);
      Regroup(Reverse(contents), 0, []);
      ReverseCount(contents);
      next, completed, pending := Partition(next, reversed, Reverse(contents), done);
      TakeReverse(contents, done);
      TakeReverse(Take(contents, done), done);
      TakeReverse(Keep(contents, done), done);
    }

    /** Notifies the completed operations newest first and turns the order of the others
        around. */
    method Poll(done: set<nat>, again: set<nat>) returns (notified: seq<nat>)
      requires Valid()
      modifies this
      ensures Valid() && notified == Take(old(contents), done)
      ensures contents == Reverse(Take(notified, again)) + Reverse(Keep(old(contents), done))
      ensures PolledRight(multiset(old(contents)), done, again, multiset(notified), multiset(contents))
    {
      ghost var held := contents;
      ghost var cs, ks := Take(held, done), Keep(held, done);
      var completed, pending := StealAndSplit(done);
      KeptOnce(held, done);
      PollAccount(held, done, again, cs, Reverse(ks));
      ghost var links := next;
      next, head := ReverseOnto(next, pending, ks, Nil, []);
      Regroup(Reverse(ks), 0, []);
      Untouched(links, next, completed, cs, ks);
      next, head, notified := NotifyAll(next, completed, cs, head, Reverse(ks), again);
      contents := Reverse(Take(cs, again)) + Reverse(ks);
    }
  }

  // ---------------------------------------------------------------- IndexedTaskQueue

  /** A vector of operations; a completed one is replaced by the last, which is popped. */
  class IndexedTaskQueue {
    var next: map<nat, Ptr>
    var active: seq<nat>

    ghost predicate Valid()
      reads this
    {
      Once(multiset(active))
    }

    constructor ()
      ensures Valid() && active == []
    {
      next, active := map[], [];
    }

    method Push(op: nat)
      requires Valid() && op !in active
      modifies this`active
      ensures Valid() && active == old(active) + [op]
    {
      assert multiset(active + [op]) == multiset(active) + multiset{op};
      active := active + [op];
    }

    // Swap-and-pop of entry i, which goes in front of the completed ones.
    method TakeOut(i: nat, completed: Ptr, ghost cs: seq<nat>) returns (r: Ptr)
      requires i < |active| && Chain(next, completed, cs) && Once(multiset(active) + multiset(cs))
      modifies this
      ensures |active| == |old(active)| - 1 && forall j :: 0 <= j < i ==> active[j] == old(active)[j]
      ensures Chain(next, r, [old(active)[i]] + cs)
      ensures multiset(active) + multiset([old(active)[i]] + cs) == multiset(old(active)) + multiset(cs)
    {
      SwapPop(active, i, cs);
      var op, last := active[i], active[|active| - 1];
      ChainPush(next, completed, cs, op);
      active := active[i := last];
      active := active[..|active| - 1];
      next := next[op := completed];
      r := To(op);
    }

    // Takes the completed operations out of the vector and chains them.
    method Collect(done: set<nat>) returns (completed: Ptr, ghost cs: seq<nat>)
      requires Valid()
      modifies this
      ensures Chain(next, completed, cs) && multiset(active) + multiset(cs) == multiset(old(active))
      ensures forall i :: 0 <= i < |active| ==> active[i] !in done
      ensures forall i :: 0 <= i < |cs| ==> cs[i] in done
    {
      completed, cs := Nil, [];
      var i := 0;
      assert multiset(active) + multiset(cs) == multiset(active);
      while i < |active|
        invariant i <= |active| && Chain(next, completed, cs)
        invariant multiset(active) + multiset(cs) == multiset(old(active))
        invariant forall j :: 0 <= j < i ==> active[j] !in done
        invariant forall j :: 0 <= j < |cs| ==> cs[j] in done
        decreases |active| - i
      {
        var op := active[i];
        if op in done {
          completed := TakeOut(i, completed, cs);
          cs := [op] + cs;
        } else {
          i := i + 1;
        }
      }
    }

    // Notifies the collected operations from the front; those in `again` are appended.
    method NotifyCollected(collected: Ptr, ghost cs: seq<nat>, again: set<nat>) returns (notified: seq<nat>)
      requires Chain(next, collected, cs)
      modifies this`active
      ensures notified == cs && active == old(active) + Take(cs, again)
    {
      notified := [];
      var curr := collected;
      ghost var rest := cs;
      while curr.To?
        invariant cs == notified + rest && Chain(next, curr, rest)
        invariant old(active) + Take(cs, again) == active + Take(rest, again)
        decreases |rest|
      {
        var op := curr.op;
        FrontOf(rest, again);
        Regroup(notified, op, rest[1..]);
        Regroup(active, op, Take(rest[1..], again));
        assert rest == [op] + rest[1..];
        curr := next[op];
        if op in again { active := active + [op]; }
        notified, rest := notified + [op], rest[1..];
      }
      Regroup(active, 0, []);
      Regroup(notified, 0, []);
    }

    method Poll(done: set<nat>, again: set<nat>) returns (notified: seq<nat>)
      requires Valid()
      modifies this
      ensures Valid()
      ensures PolledRight(multiset(old(active)), done, again, multiset(notified), multiset(active))
    {
      ghost var held := active;
      ghost var cs;
      var completed;
      completed, cs := Collect(done);
      ghost var kept := active;
      notified := NotifyCollected(completed, cs, again);
      IndexedCounts(held, done, kept, cs);
      assert multiset(active) == multiset(Take(cs, again)) + multiset(kept);
      PollCounts(multiset(held), done, again, cs, multiset(kept), multiset(active));
      AfterOnce(multiset(held), done, again, multiset(cs), multiset(active));
    }
  }

  // Replacing element i by the last and dropping the last takes element i out.
  lemma TakenOut(active: seq<nat>, i: nat)
    requires i < |active|
    ensures multiset(active[i := active[|active| - 1]][..|active| - 1]) + multiset{active[i]} == multiset(active)
  {
    if i == |active| - 1 {
      LastDropped(active);
    } else {
      Decomposed(active, i);
      Exchanged(active[..i], active[i], active[i + 1..|active| - 1], active[|active| - 1]);
    }
  }

  lemma LastDropped(active: seq<nat>)
    requires active != []
    ensures var n := |active| - 1; multiset(active[n := active[n]][..n]) + multiset{active[n]} == multiset(active)
  {
    var n := |active| - 1;
    assert active[n := active[n]] == active && active == active[..n] + [active[n]];
  }

  lemma Decomposed(active: seq<nat>, i: nat)
    requires i + 1 < |active|
    ensures var last, n := active[|active| - 1], |active| - 1;
            && active == active[..i] + ([active[i]] + (active[i + 1..n] + [last]))
            && active[i := last][..n] == active[..i] + ([last] + active[i + 1..n])
  {
  }

  lemma Exchanged(left: seq<nat>, op: nat, right: seq<nat>, last: nat)
    ensures multiset(left + ([last] + right)) + multiset{op} == multiset(left + ([op] + (right + [last])))
  {
    Consed(last, right);
    Consed(op, right + [last]);
    assert multiset(right + [last]) == multiset(right) + multiset{last};
  }

  lemma OnceApart(op: nat, rest: multiset<nat>, cs: seq<nat>)
    requires Once(rest + multiset{op} + multiset(cs))
    ensures op !in cs
  {
    var all := rest + multiset{op} + multiset(cs);
    assert op in all && all[op] == rest[op] + 1 + multiset(cs)[op];
  }

  lemma SwapPop(active: seq<nat>, i: nat, cs: seq<nat>)
    requires i < |active| && Once(multiset(active) + multiset(cs))
    ensures var after := active[i := active[|active| - 1]][..|active| - 1];
            && multiset(after) + multiset([active[i]] + cs) == multiset(active) + multiset(cs)
            && Once(multiset(after) + multiset([active[i]] + cs))
            && active[i] !in cs
  {
    var op, after := active[i], active[i := active[|active| - 1]][..|active| - 1];
    TakenOut(active, i);
    Consed(op, cs);
    OnceApart(op, multiset(after), cs);
  }

  lemma IndexedCounts(held: seq<nat>, done: set<nat>, kept: seq<nat>, cs: seq<nat>)
    requires multiset(kept) + multiset(cs) == multiset(held)
    requires forall i :: 0 <= i < |kept| ==> kept[i] !in done
    requires forall i :: 0 <= i < |cs| ==> cs[i] in done
    ensures forall op: nat :: multiset(cs)[op] == if op in done then multiset(held)[op] else 0
    ensures forall op: nat :: multiset(kept)[op] == if op in done then 0 else multiset(held)[op]
  {
    forall op: nat
      ensures multiset(cs)[op] == if op in done then multiset(held)[op] else 0
      ensures multiset(kept)[op] == if op in done then 0 else multiset(held)[op]
    {
      assert multiset(held)[op] == multiset(kept)[op] + multiset(cs)[op];
      if op in done { assert op !in kept; } else { assert op !in cs; }
    }
  }
}
