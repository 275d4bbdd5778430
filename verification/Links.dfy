/**
 Intrusive lists. Operations are numbers and `next` gives the link field of each; a list
 is a pointer, and a sequence of operations it leads along.
 */
module Links {
  datatype Ptr = Nil | To(op: nat)

  // Following `next` from p visits exactly the operations of ops and then ends.
  ghost predicate Chain(next: map<nat, Ptr>, p: Ptr, ops: seq<nat>)
    decreases |ops|
  {
    if ops == [] then p == Nil
    else p == To(ops[0]) && ops[0] in next && Chain(next, next[ops[0]], ops[1..])
  }

  lemma {:induction false} ChainFrame(next: map<nat, Ptr>, p: Ptr, ops: seq<nat>, op: nat, q: Ptr)
    requires Chain(next, p, ops) && op !in ops
    ensures Chain(next[op := q], p, ops)
    decreases |ops|
  {
    if ops != [] { ChainFrame(next, next[ops[0]], ops[1..], op, q); }
  }

  lemma ChainPush(next: map<nat, Ptr>, p: Ptr, ops: seq<nat>, op: nat)
    requires Chain(next, p, ops) && op !in ops
    ensures Chain(next[op := p], To(op), [op] + ops)
  {
    ChainFrame(next, p, ops, op, p);
    assert ([op] + ops)[1..] == ops;
  }

  // Following `next` from p visits the operations of ops and arrives at end.
  ghost predicate Segment(next: map<nat, Ptr>, p: Ptr, ops: seq<nat>, end: Ptr)
    decreases |ops|
  {
    if ops == [] then p == end
    else p == To(ops[0]) && ops[0] in next && Segment(next, next[ops[0]], ops[1..], end)
  }

  lemma {:induction false} SegmentIsChain(next: map<nat, Ptr>, p: Ptr, ops: seq<nat>)
    ensures Segment(next, p, ops, Nil) <==> Chain(next, p, ops)
    decreases |ops|
  {
    if ops != [] && ops[0] in next { SegmentIsChain(next, next[ops[0]], ops[1..]); }
  }

  lemma {:induction false} SegmentFrame(next: map<nat, Ptr>, p: Ptr, ops: seq<nat>, end: Ptr, op: nat, q: Ptr)
    requires Segment(next, p, ops, end) && op !in ops
    ensures Segment(next[op := q], p, ops, end)
    decreases |ops|
  {
    if ops != [] { SegmentFrame(next, next[ops[0]], ops[1..], end, op, q); }
  }

  lemma {:induction false} SegmentSnoc(next: map<nat, Ptr>, p: Ptr, ops: seq<nat>, op: nat)
    requires Segment(next, p, ops, To(op)) && op in next
    ensures Segment(next, p, ops + [op], next[op])
    decreases |ops|
  {
    if ops != [] {
      SegmentSnoc(next, next[ops[0]], ops[1..], op);
      assert (ops + [op])[1..] == ops[1..] + [op];
    }
  }

  // Redirecting the last link of a segment moves its end.
  lemma {:induction false} SegmentRedirect(next: map<nat, Ptr>, p: Ptr, ops: seq<nat>, end: Ptr, q: Ptr)
    requires Segment(next, p, ops, end) && ops != [] && Once(multiset(ops))
    ensures Segment(next[ops[|ops| - 1] := q], p, ops, q)
    decreases |ops|
  {
    if |ops| > 1 {
      var last := ops[|ops| - 1];
      HeadTail(ops);
      assert last == ops[1..][|ops| - 2];
      assert multiset(ops)[last] == multiset{ops[0]}[last] + multiset(ops[1..])[last];
      forall op | op in multiset(ops[1..]) ensures multiset(ops[1..])[op] == 1 { assert op in multiset(ops); }
      SegmentRedirect(next, next[ops[0]], ops[1..], end, q);
    }
  }

  // ---------------------------------------------------------------- counting

  ghost predicate Once(m: multiset<nat>) {
    forall op :: op in m ==> m[op] == 1
  }

  lemma OnceLess(op: nat, m: multiset<nat>)
    requires Once(multiset{op} + m)
    ensures Once(m)
  {
    forall x | x in m ensures m[x] == 1 { assert (multiset{op} + m)[x] == multiset{op}[x] + m[x]; }
  }

  lemma HeadTail(ops: seq<nat>)
    requires ops != []
    ensures multiset(ops) == multiset{ops[0]} + multiset(ops[1..])
  {
    assert ops == [ops[0]] + ops[1..];
  }

  lemma Consed(op: nat, ops: seq<nat>)
    ensures multiset([op] + ops) == multiset{op} + multiset(ops)
  {
  }

  lemma TwiceCounted(ops: seq<nat>, i: nat, j: nat)
    requires i < j < |ops| && ops[i] == ops[j]
    ensures multiset(ops)[ops[i]] >= 2
  {
    assert ops == ops[..j] + [ops[j]] + ops[j + 1..];
    assert ops[i] in ops[..j];
  }
}
