/**
 `RingBufferTaskQueue` between two interleavings: a push, or one whole poll, on the ring of
 sequence-numbered cells and the consumer's private list of unfinished operations. The
 interleaved runs of the ring are the subject of TicketRing.
 */
module RingBufferQueues {
  import opened Links
  import opened Submission
  import opened TaskQueues
  import Bits

  // Position p of the ring holds its operation, published.
  ghost predicate CellOk(c: nat, buffer: seq<Ptr>, sequence: seq<nat>, head: nat, queued: seq<nat>, p: nat)
    requires c > 0 && |buffer| == |sequence| == c && head <= p < head + |queued|
  {
    buffer[Index(p, c)] == To(queued[p - head]) && sequence[Index(p, c)] == p + 1
  }

  // Position p awaits its ticket.
  ghost predicate FreeOk(c: nat, sequence: seq<nat>, p: nat)
    requires c > 0 && |sequence| == c
  {
    sequence[Index(p, c)] == p
  }

  ghost predicate Cells(c: nat, buffer: seq<Ptr>, sequence: seq<nat>, head: nat, queued: seq<nat>) {
    && c >= 2 && |buffer| == |sequence| == c && |queued| <= c
    && (forall p: nat :: head <= p < head + |queued| ==> CellOk(c, buffer, sequence, head, queued, p))
    && (forall p: nat :: head + |queued| <= p < head + c ==> FreeOk(c, sequence, p))
  }

  lemma PushCells(c: nat, buffer: seq<Ptr>, sequence: seq<nat>, head: nat, queued: seq<nat>, op: nat)
    requires Cells(c, buffer, sequence, head, queued) && |queued| < c
    ensures var slot := head + |queued|;
            && sequence[Index(slot, c)] == slot
            && Cells(c, buffer[Index(slot, c) := To(op)], sequence[Index(slot, c) := slot + 1], head, queued + [op])
  {
    var slot := head + |queued|;
    var buffer', sequence' := buffer[Index(slot, c) := To(op)], sequence[Index(slot, c) := slot + 1];
    assert FreeOk(c, sequence, slot);
    WindowDistinct(head, c);
    forall p: nat | head <= p < slot + 1 ensures CellOk(c, buffer', sequence', head, queued + [op], p) {
      if p < slot { assert CellOk(c, buffer, sequence, head, queued, p); }
    }
    forall p: nat | slot + 1 <= p < head + c ensures FreeOk(c, sequence', p) { assert FreeOk(c, sequence, p); }
  }

  // The next ticket finds its cell free, or holding the operation at head.
  lemma FullOrFree(c: nat, buffer: seq<Ptr>, sequence: seq<nat>, head: nat, queued: seq<nat>)
    requires Cells(c, buffer, sequence, head, queued)
    ensures var slot := head + |queued|;
            if |queued| < c then sequence[Index(slot, c)] == slot
            else Index(slot, c) == Index(head, c) && sequence[Index(slot, c)] == head + 1 != slot
  {
    var slot := head + |queued|;
    if |queued| < c {
      assert FreeOk(c, sequence, slot);
    } else {
      IndexStep(head, c, c);
      assert CellOk(c, buffer, sequence, head, queued, head);
    }
  }

  // Handing position pos on makes it await the ticket one turn later.
  lemma ReleaseCell(c: nat, sequence: seq<nat>, sequence': seq<nat>, pos: nat, tail: nat)
    requires c > 0 && |sequence| == c && pos < tail <= pos + c
    requires sequence' == sequence[Index(pos, c) := pos + c]
    requires forall p: nat :: tail <= p < pos + c ==> FreeOk(c, sequence, p)
    ensures forall p: nat :: tail <= p < pos + 1 + c ==> FreeOk(c, sequence', p)
  {
    IndexStep(pos, c, c);
    WindowDistinct(pos, c);
    forall p: nat | tail <= p < pos + 1 + c ensures FreeOk(c, sequence', p) {
      if p < pos + c { assert FreeOk(c, sequence, p); }
    }
  }

  class RingBufferTaskQueue {
    const capacity: nat
    const buffer: array<Ptr>
    const sequence: array<nat>
    var head: nat
    var tail: nat
    var next: map<nat, Ptr>
    var pendingHead: Ptr
    ghost var queued: seq<nat>   // operations in the ring, oldest first
    ghost var pending: seq<nat>  // operations read and found unfinished

    ghost predicate RingOk()
      reads this, buffer, sequence
    {
      && Bits.IsPow2(capacity) && (buffer as object) != (sequence as object)
      && Cells(capacity, buffer[..], sequence[..], head, queued) && tail == head + |queued|
    }

    // A push drew a ticket on a full ring: its cell still holds the operation at head,
    // published, and only the consumer's release of that position ends the spin.
    ghost predicate Spinning()
      reads this, buffer, sequence
    {
      && Bits.IsPow2(capacity) && Cells(capacity, buffer[..], sequence[..], head, queued)
      && |queued| == capacity && tail == head + capacity + 1
      && Index(tail - 1, capacity) == Index(head, capacity) && sequence[Index(head, capacity)] == head + 1 != tail - 1
    }

    ghost predicate Valid()
      reads this, buffer, sequence
    {
      RingOk() && Chain(next, pendingHead, pending) && Once(multiset(queued) + multiset(pending))
    }

    constructor (c: nat)
      requires c >= 2 && Bits.IsPow2(c)
      ensures Valid() && queued == [] && pending == [] && capacity == c && fresh(buffer) && fresh(sequence)
    {
      capacity := c;
      buffer := new Ptr[c](_ => Nil);
      sequence := new nat[c](i => i);
      head, tail, next, pendingHead := 0, 0, map[], Nil;
      queued, pending := [], [];
      new;
      forall p: nat | p < c ensures FreeOk(c, sequence[..], p) { IndexStep(0, p, c); }
    }

    /** Draws a ticket and fills its cell; false if the ring is full, when the spin for the
        cell goes on until somebody polls. */
    method Push(op: nat) returns (ok: bool)
      requires RingOk()
      modifies this`tail, this`queued, buffer, sequence
      ensures ok <==> old(|queued|) < capacity
      ensures ok ==> RingOk() && queued == old(queued) + [op]
      ensures !ok ==> Spinning() && queued == old(queued)
    {
      var slot := tail;
      tail := tail + 1;
      var index := Masked(slot, capacity);
      FullOrFree(capacity, buffer[..], sequence[..], head, queued);
      if sequence[index] != slot {
        return false;
      }
      PushCells(capacity, buffer[..], sequence[..], head, queued, op);
      buffer[index] := To(op);
      sequence[index] := slot + 1;
      queued := queued + [op];
      assert buffer[..] == old(buffer[..])[index := To(op)] && sequence[..] == old(sequence[..])[index := slot + 1];
      ok := true;
    }

    // Counts published cells from head on, at most one turn of the ring.
    method CountAvailable() returns (n: nat)
      requires RingOk()
      ensures n == |queued|
    {
      n := 0;
      while true
        invariant n <= |queued| && n < capacity
        decreases capacity - n
      {
        var pos := head + n;
        var index := Masked(pos, capacity);
        if n < |queued| {
          assert CellOk(capacity, buffer[..], sequence[..], head, queued, pos);
        } else {
          assert FreeOk(capacity, sequence[..], pos);
        }
        if sequence[index] != pos + 1 { break; }
        n := n + 1;
        if n >= capacity { break; }
      }
    }

    // Moves the operations of the first n cells to the completed or the pending list.
    method Consume(n: nat, done: set<nat>, completed: Ptr, ghost cs: seq<nat>) returns (r: Ptr)
      requires RingOk() && n == |queued| && Chain(next, completed, cs) && Chain(next, pendingHead, pending)
      requires Once(multiset(queued) + (multiset(cs) + multiset(pending)))
      modifies this`next, this`pendingHead, this`pending
      ensures Chain(next, r, Reverse(Take(queued, done)) + cs)
      ensures pending == Reverse(Keep(queued, done)) + old(pending) && Chain(next, pendingHead, pending)
    {
      r := completed;
      ghost var rest, cs' := queued, cs;
      for i := 0 to n
        invariant rest == queued[i..]
        invariant Chain(next, r, cs') && Chain(next, pendingHead, pending)
        invariant Once(multiset(rest) + (multiset(cs') + multiset(pending)))
        invariant Parted(rest, done, cs', pending) == Parted(queued, done, cs, old(pending))
      {
        var index := Masked(head + i, capacity);
        assert CellOk(capacity, buffer[..], sequence[..], head, queued, head + i);
        var op := buffer[index].op;
        assert op == rest[0];
        Filed(next, op, rest, r, cs', pendingHead, pending);
        if op in done {
          next := next[op := r];
          r, cs' := To(op), [op] + cs';
        } else {
          next := next[op := pendingHead];
          pendingHead, pending := To(op), [op] + pending;
        }
        rest := rest[1..];
      }
      PartedIs(queued, done, cs, old(pending));
    }

    // Hands the first n cells to later tickets and moves head past them.
    method Release(n: nat)
      requires RingOk() && n == |queued|
      modifies this`head, this`queued, sequence
      ensures RingOk() && queued == []
    {
      for i := 0 to n
        invariant forall p: nat :: tail <= p < head + i + capacity ==> FreeOk(capacity, sequence[..], p)
        invariant head == old(head) && queued == old(queued)
      {
        var pos: nat := head + i;
        var index := Masked(pos, capacity);
        ghost var before := sequence[..];
        sequence[index] := pos + capacity;
        assert sequence[..] == before[index := (pos + capacity) as nat];
        ReleaseCell(capacity, before, sequence[..], pos, tail);
      }
      head := head + n;
      queued := [];
    }

    // Notifies the completed operations from the front, pushing some of them back; does not
    // return if one of those pushes finds the ring full.
    method Notify(completed: Ptr, ghost cs: seq<nat>, again: set<nat>) returns (returned: bool, notified: seq<nat>)
      requires RingOk() && queued == [] && Chain(next, completed, cs)
      modifies this`tail, this`queued, buffer, sequence
      ensures returned <==> |Take(cs, again)| <= capacity
      ensures returned ==> RingOk() && notified == cs && queued == Take(cs, again)
      ensures !returned ==> Spinning() && notified <= cs && Pushing(queued, notified, again)
    {
      notified := [];
      var curr := completed;
      ghost var rest := cs;
      while curr.To?
        invariant RingOk() && cs == notified + rest && Chain(next, curr, rest)
        invariant queued == Take(notified, again)
        decreases |rest|
      {
        var op := curr.op;
        NextNotified(cs, notified, rest, again);
        curr := next[op];
        if op in again {
          var ok := Push(op);
          if !ok {
            return false, notified + [op];
          }
        }
        notified, rest := notified + [op], rest[1..];
      }
      Regroup(notified, 0, []);
      returned := true;
    }

    // Everything before the notifications: the private list first, then the ring.
    method Gather(done: set<nat>) returns (completed: Ptr, ghost cs: seq<nat>)
      requires Valid()
      modifies this`head, this`queued, this`next, this`pendingHead, this`pending, sequence
      ensures RingOk() && queued == []
      ensures cs == Reverse(Take(old(queued), done)) + Reverse(Take(old(pending), done)) && Chain(next, completed, cs)
      ensures pending == Reverse(Keep(old(queued), done)) + Keep(old(pending), done) && Chain(next, pendingHead, pending)
    {
      ghost var qs, ps := queued, pending;
      GatherAccount(qs, ps, done);
      cs := Reverse(Take(ps, done));
      next, pendingHead, completed := SplitCompleted(next, pendingHead, ps, done);
      pending := Keep(ps, done);
      var n := CountAvailable();
      completed := Consume(n, done, completed, cs);
      cs := Reverse(Take(qs, done)) + cs;
      Release(n);
    }

    // A poll, as far as the lists and their order are concerned.
    method PollLists(done: set<nat>, again: set<nat>) returns (returned: bool, notified: seq<nat>)
      requires Valid()
      modifies this, buffer, sequence
      ensures returned <==> |Take(Take(old(queued + pending), done), again)| <= capacity
      ensures pending == Reverse(Keep(old(queued), done)) + Keep(old(pending), done) && Chain(next, pendingHead, pending)
      ensures var all := Reverse(Take(old(queued), done)) + Reverse(Take(old(pending), done));
              && notified <= all
              && (returned ==> RingOk() && notified == all && queued == Take(all, again))
              && (!returned ==> Spinning() && Pushing(queued, notified, again))
    {
      RepushFits(queued, pending, done, again);
      ghost var cs;
      var completed;
      completed, cs := Gather(done);
      returned, notified := Notify(completed, cs, again);
    }

    /** The poll of the ring queue, with no other thread pushing meanwhile. It returns if and
        only if it pushes back no more operations than the ring has cells, and then it is a
        poll like the others. Otherwise it hangs in its own push, inside the notification of
        the last operation of `notified`: the ring is full of operations it pushed itself,
        and the cell it waits for is one that only this consumer would release. With other
        threads pushing, `TicketRing.OwnPushHangsIff` has the condition for each push. */
    method Poll(done: set<nat>, again: set<nat>) returns (returned: bool, notified: seq<nat>)
      requires Valid()
      modifies this, buffer, sequence
      ensures returned <==> |Take(Take(old(queued + pending), done), again)| <= capacity
      ensures pending == Reverse(Keep(old(queued), done)) + Keep(old(pending), done)
      ensures notified <= Reverse(Take(old(queued), done)) + Reverse(Take(old(pending), done))
      ensures returned ==> Valid() && queued == Take(notified, again)
      ensures returned ==> notified == Reverse(Take(old(queued), done)) + Reverse(Take(old(pending), done))
      ensures returned ==>
                PolledRight(multiset(old(queued)) + multiset(old(pending)), done, again, multiset(notified), multiset(queued) + multiset(pending))
      ensures !returned ==> Spinning() && Pushing(queued, notified, again)
    {
      ghost var qs, ps := queued, pending;
      returned, notified := PollLists(done, again);
      if returned { RingAccount(qs, ps, done, again, notified, pending); }
    }
  }

  // The queue holds what was pushed back so far, all but the operation notified last.
  ghost predicate Pushing(queued: seq<nat>, notified: seq<nat>, again: set<nat>) {
    && notified != [] && notified[|notified| - 1] in again
    && queued == Take(notified[..|notified| - 1], again)
  }

  lemma NextNotified(cs: seq<nat>, notified: seq<nat>, rest: seq<nat>, again: set<nat>)
    requires rest != [] && cs == notified + rest
    ensures notified + [rest[0]] <= cs && cs == (notified + [rest[0]]) + rest[1..]
    ensures Take(notified + [rest[0]], again) == Take(notified, again) + if rest[0] in again then [rest[0]] else []
    ensures |Take(notified + [rest[0]], again)| <= |Take(cs, again)|
    ensures (notified + [rest[0]])[..|notified|] == notified
  {
    var more := notified + [rest[0]];
    assert cs == more + rest[1..] by { assert rest == [rest[0]] + rest[1..]; }
    TakeConcat(more, rest[1..], again);
    TakeConcat(notified, [rest[0]], again);
    Singleton(rest[0], again);
  }

  method TwoPushed() returns (q: RingBufferTaskQueue)
    ensures fresh(q) && fresh(q.buffer) && fresh(q.sequence)
    ensures q.Valid() && q.capacity == 2 && q.queued == [0, 1] && q.pending == []
  {
    assert Bits.Pow2(1) == 2;
    q := new RingBufferTaskQueue(2);
    var ok := q.Push(0);
    ok := q.Push(1);
    ghost var queued, pending := q.queued, q.pending;
    ReadAndKept(queued, pending);
  }

  // Two operations pushed, read and found unfinished.
  method TwoUnfinished() returns (q: RingBufferTaskQueue)
    ensures fresh(q) && fresh(q.buffer) && fresh(q.sequence)
    ensures q.Valid() && q.capacity == 2 && q.queued == [] && q.pending == [1, 0]
  {
    q := TwoPushed();
    ghost var queued, pending := q.queued, q.pending;
    ReadAndKept(queued, pending);
    var returned, notified := q.Poll({}, {});
  }

  /** The smallest case: two cells, two operations read and still unfinished, a third in the
      ring; then all three complete and each is pushed back. */
  method PollWaitsForItself() returns (q: RingBufferTaskQueue, returned: bool)
    ensures fresh(q) && q.capacity == 2 && !returned && q.Spinning()
  {
    q := TwoUnfinished();
    var ok := q.Push(2);
    ghost var queued, pending := q.queued, q.pending;
    assert queued == [2] && pending == [1, 0];
    AllPushedBack();
    var notified;
    returned, notified := q.Poll({0, 1, 2}, {0, 1, 2});
  }

  lemma ReadAndKept(queued: seq<nat>, pending: seq<nat>)
    requires queued == [0, 1] && pending == []
    ensures Once(multiset(queued) + multiset(pending)) && |Take(Take(queued + pending, {}), {})| == 0
    ensures Reverse(Keep(queued, {})) + Keep(pending, {}) == [1, 0]
    ensures Take(Reverse(Take(queued, {})) + Reverse(Take(pending, {})), {}) == []
  {
    FrontOf([0, 1], {});
    FrontOf([1], {});
    assert [0, 1][1..] == [1] && [1][1..] == [];
    assert Take([0, 1], {}) == [] && Reverse(Take(queued, {})) + Reverse(Take(pending, {})) == [] && queued + pending == [0, 1];
  }

  lemma AllPushedBack()
    ensures |Take(Take([2] + [1, 0], {0, 1, 2}), {0, 1, 2})| == 3
  {
    var all: set<nat>, ops: seq<nat> := {0, 1, 2}, [2, 1, 0];
    assert [2] + [1, 0] == ops && ops[1..] == [1, 0] && ops[1..][1..] == [0];
    FrontOf(ops, all);
    FrontOf([1, 0], all);
    FrontOf([0], all);
    assert Take(ops, all) == ops;
  }

  // Pushing op on either list takes it from the operations still to be filed.
  lemma Filed(next: map<nat, Ptr>, op: nat, rest: seq<nat>, completed: Ptr, cs: seq<nat>, pending: Ptr, ps: seq<nat>)
    requires rest != [] && op == rest[0] && Chain(next, completed, cs) && Chain(next, pending, ps)
    requires Once(multiset(rest) + (multiset(cs) + multiset(ps)))
    ensures Chain(next[op := completed], To(op), [op] + cs) && Chain(next[op := completed], pending, ps)
    ensures Chain(next[op := pending], completed, cs) && Chain(next[op := pending], To(op), [op] + ps)
    ensures Once(multiset(rest[1..]) + (multiset([op] + cs) + multiset(ps)))
    ensures Once(multiset(rest[1..]) + (multiset(cs) + multiset([op] + ps)))
  {
    FirstApart(rest, multiset(cs) + multiset(ps));
    assert op !in multiset(cs) && op !in multiset(ps);
    Pushed(next, op, Nil, [], completed, cs, pending, ps);
    Pushed(next, op, Nil, [], pending, ps, completed, cs);
    assert multiset(rest[1..]) + (multiset([op] + cs) + multiset(ps)) == multiset(rest) + (multiset(cs) + multiset(ps));
    assert multiset(rest[1..]) + (multiset(cs) + multiset([op] + ps)) == multiset(rest) + (multiset(cs) + multiset(ps));
  }

  lemma GatherAccount(qs: seq<nat>, ps: seq<nat>, done: set<nat>)
    requires Once(multiset(qs) + multiset(ps))
    ensures Once(multiset(ps))
    ensures Once(multiset(qs) + (multiset(Reverse(Take(ps, done))) + multiset(Keep(ps, done))))
  {
    var held := multiset(qs) + multiset(ps);
    forall op | op in multiset(ps) ensures multiset(ps)[op] == 1 { assert op in held && held[op] == multiset(qs)[op] + multiset(ps)[op]; }
    PartsOnce(ps, done);
    ReverseCount(Take(ps, done));
    assert multiset(qs) + (multiset(Reverse(Take(ps, done))) + multiset(Keep(ps, done))) == held;
  }

  lemma RingAccount(qs: seq<nat>, ps: seq<nat>, done: set<nat>, again: set<nat>, cs: seq<nat>, ks: seq<nat>)
    requires Once(multiset(qs) + multiset(ps))
    requires cs == Reverse(Take(qs, done)) + Reverse(Take(ps, done)) && ks == Reverse(Keep(qs, done)) + Keep(ps, done)
    ensures PolledRight(multiset(qs) + multiset(ps), done, again, multiset(cs), multiset(Take(cs, again)) + multiset(ks))
    ensures Once(multiset(Take(cs, again)) + multiset(ks))
  {
    var held := multiset(qs) + multiset(ps);
    ReverseCount(Take(ps, done));
    ReverseCount(Take(qs, done));
    ReverseCount(Keep(qs, done));
    TakeCount(qs, done);
    TakeCount(ps, done);
    assert multiset(cs) == multiset(Take(qs, done)) + multiset(Take(ps, done));
    assert multiset(ks) == multiset(Keep(qs, done)) + multiset(Keep(ps, done));
    PollCounts(held, done, again, cs, multiset(ks), multiset(Take(cs, again)) + multiset(ks));
    AfterOnce(held, done, again, multiset(cs), multiset(Take(cs, again)) + multiset(ks));
  }

  lemma RepushFits(qs: seq<nat>, ps: seq<nat>, done: set<nat>, again: set<nat>)
    ensures |Take(Reverse(Take(qs, done)) + Reverse(Take(ps, done)), again)| == |Take(Take(qs + ps, done), again)|
  {
    ReverseCount(Take(ps, done));
    ReverseCount(Take(qs, done));
    TakeConcat(qs, ps, done);
    SameSize(Reverse(Take(qs, done)) + Reverse(Take(ps, done)), Take(qs + ps, done), again);
  }

  // How many operations are selected does not depend on their order.
  lemma SameSize(a: seq<nat>, b: seq<nat>, d: set<nat>)
    requires multiset(a) == multiset(b)
    ensures |Take(a, d)| == |Take(b, d)|
  {
    TakeCount(a, d);
    TakeCount(b, d);
    assert multiset(Take(a, d)) == multiset(Take(b, d));
    assert |multiset(Take(a, d))| == |multiset(Take(b, d))|;
  }
}
