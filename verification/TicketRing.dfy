/**
 The multi-producer, single-consumer ring of `RingBufferTaskQueue`: producers draw
 tickets, spin until their cell's sequence number shows it is theirs, write and publish;
 the consumer counts published cells, reads them and hands them to later tickets. Then it
 notifies, and a notification may poll again, or push an operation back: the consumer draws
 a ticket like any producer and does nothing else until it has published.

 Every shared access is one atomic step, in any interleaving of any number of producers
 with the consumer. A producer is known by the ticket it drew.
 */
module TicketRing {
  import opened Submission

  datatype Phase = Claimed | Cleared | Written | Published

  datatype Ticket = Ticket(op: nat, phase: Phase)

  // What a buffer cell holds: nothing at first, then an operation.
  datatype Cell = Null | Holds(op: nat)

  // Where the consumer is inside poll(): it counted n cells, and dealt with i of them; then
  // it notifies, and may be inside a push of its own, with the ticket it drew.
  datatype Consumer = Idle | Counting(n: nat) | Reading(n: nat, i: nat) | Releasing(n: nat, i: nat) | Notifying | Pushing(own: nat)

  /** Shared fields, every ticket drawn so far (so tail_ is their number), the consumer's
      place, and the cells it has read in order. */
  datatype State = State(sequence: seq<nat>, buffer: seq<Cell>, tickets: seq<Ticket>,
                         head: nat, consumer: Consumer, taken: seq<Cell>)

  function Init(c: nat): State {
    State(seq(c, i => i), seq(c, i => Null), [], 0, Idle, [])
  }

  datatype Step =
    | Claim(op: nat)      // tail_.fetch_add
    | Clear(t: nat)       // the spin on sequence_ ends
    | Write(t: nat)       // buffer_[index] = op
    | Publish(t: nat)     // sequence_[index] = slot + 1
    | BeginPoll | CountOne | EndCount | ReadOne | EndRead | ReleaseOne | EndRelease
    | PushBack(op: nat)   // notify pushes: the consumer's own tail_.fetch_add
    | PushedBack          // that push returns
    | EndPoll

  ghost predicate Shaped(c: nat, s: State) {
    c > 0 && |s.sequence| == |s.buffer| == c
  }

  ghost predicate Enabled(c: nat, s: State, step: Step)
    requires Shaped(c, s)
  {
    match step
    case Claim(_) => true
    case Clear(t) => t < |s.tickets| && s.tickets[t].phase == Claimed && s.sequence[Index(t, c)] == t
    case Write(t) => t < |s.tickets| && s.tickets[t].phase == Cleared
    case Publish(t) => t < |s.tickets| && s.tickets[t].phase == Written
    case BeginPoll => s.consumer.Idle? || s.consumer.Notifying?
    case CountOne => s.consumer.Counting? && s.consumer.n < c && s.sequence[Index(s.head + s.consumer.n, c)] == s.head + s.consumer.n + 1
    case EndCount => s.consumer.Counting? && (s.consumer.n >= c || s.sequence[Index(s.head + s.consumer.n, c)] != s.head + s.consumer.n + 1)
    case ReadOne => s.consumer.Reading? && s.consumer.i < s.consumer.n
    case EndRead => s.consumer.Reading? && s.consumer.i == s.consumer.n
    case ReleaseOne => s.consumer.Releasing? && s.consumer.i < s.consumer.n
    case EndRelease => s.consumer.Releasing? && s.consumer.i == s.consumer.n
    case PushBack(_) => s.consumer.Notifying?
    case PushedBack => s.consumer.Pushing? && s.consumer.own < |s.tickets| && s.tickets[s.consumer.own].phase == Published
    case EndPoll => s.consumer.Notifying?
  }

  function Moved(s: State, t: nat, phase: Phase): seq<Ticket>
    requires t < |s.tickets|
  {
    s.tickets[t := s.tickets[t].(phase := phase)]
  }

  ghost function Apply(c: nat, s: State, step: Step): (t: State)
    requires Shaped(c, s) && Enabled(c, s, step)
    ensures Shaped(c, t)
  {
    match step
    case Claim(op) => s.(tickets := s.tickets + [Ticket(op, Claimed)])
    case Clear(t) => s.(tickets := Moved(s, t, Cleared))
    case Write(t) => s.(buffer := s.buffer[Index(t, c) := Holds(s.tickets[t].op)], tickets := Moved(s, t, Written))
    case Publish(t) => s.(sequence := s.sequence[Index(t, c) := t + 1], tickets := Moved(s, t, Published))
    case BeginPoll => s.(consumer := Counting(0))
    case CountOne => s.(consumer := Counting(s.consumer.n + 1))
    case EndCount => s.(consumer := Reading(s.consumer.n, 0))
    case ReadOne => s.(taken := s.taken + [s.buffer[Index(s.head + s.consumer.i, c)]], consumer := Reading(s.consumer.n, s.consumer.i + 1))
    case EndRead => s.(consumer := Releasing(s.consumer.n, 0))
    case ReleaseOne =>
      var pos := s.head + s.consumer.i;
      s.(sequence := s.sequence[Index(pos, c) := pos + c], consumer := Releasing(s.consumer.n, s.consumer.i + 1))
    case EndRelease => s.(head := s.head + s.consumer.n, consumer := Notifying)
    case PushBack(op) => s.(tickets := s.tickets + [Ticket(op, Claimed)], consumer := Pushing(|s.tickets|))
    case PushedBack => s.(consumer := Notifying)
    case EndPoll => s.(consumer := Idle)
  }

  ghost predicate Legal(c: nat, run: seq<Step>)
    requires c > 0
    decreases |run|, 0
  {
    run == [] || (Legal(c, run[..|run| - 1]) && Enabled(c, Exec(c, run[..|run| - 1]), run[|run| - 1]))
  }

  ghost function Exec(c: nat, run: seq<Step>): (s: State)
    requires c > 0 && Legal(c, run)
    ensures Shaped(c, s)
    decreases |run|, 1
  {
    if run == [] then Init(c) else Apply(c, Exec(c, run[..|run| - 1]), run[|run| - 1])
  }

  // ---------------------------------------------------------------- safety

  // Positions below are read by the consumer, and released to later tickets.
  function ReadUpTo(s: State): nat {
    match s.consumer
    case Reading(_, i) => s.head + i
    case Releasing(n, _) => s.head + n
    case _ => s.head
  }

  function ReleasedUpTo(s: State): nat {
    match s.consumer
    case Releasing(_, i) => s.head + i
    case _ => s.head
  }

  // No two producers may write the same cell.
  ghost predicate OneWriterPerCell(c: nat, s: State)
    requires c > 0
  {
    forall t: nat, u: nat :: t < u < |s.tickets| && s.tickets[t].phase == Cleared && s.tickets[u].phase == Cleared ==>
      Index(t, c) != Index(u, c)
  }

  // A producer about to write finds every earlier operation of its cell read.
  ghost predicate NothingOverwritten(c: nat, s: State)
    requires c > 0
  {
    forall t: nat, u: nat :: t < u < |s.tickets| && s.tickets[u].phase == Cleared && Index(t, c) == Index(u, c) ==>
      t < ReadUpTo(s)
  }

  // The cell the consumer reads next was written by the ticket of that position.
  ghost predicate ReadsWrittenCells(c: nat, s: State)
    requires Shaped(c, s)
  {
    s.consumer.Reading? && s.consumer.i < s.consumer.n ==>
      var pos := s.head + s.consumer.i;
      pos < |s.tickets| && s.tickets[pos].phase == Published && s.buffer[Index(pos, c)] == Holds(s.tickets[pos].op)
  }

  // Operations left in ticket order, each once.
  ghost predicate TakenInOrder(s: State) {
    && |s.taken| == ReadUpTo(s) <= |s.tickets|
    && forall j :: 0 <= j < |s.taken| ==> s.taken[j] == Holds(s.tickets[j].op)
  }

  ghost predicate Safe(c: nat, s: State)
    requires Shaped(c, s)
  {
    OneWriterPerCell(c, s) && NothingOverwritten(c, s) && ReadsWrittenCells(c, s) && TakenInOrder(s)
  }

  // ---------------------------------------------------------------- invariant

  ghost predicate IsPublished(s: State, t: nat) {
    t < |s.tickets| && s.tickets[t].phase == Published
  }

  // The consumer has seen n published cells from head on, at most one turn of them.
  ghost predicate Batch(c: nat, s: State, n: nat) {
    n <= c && forall t: nat :: s.head <= t < s.head + n ==> IsPublished(s, t)
  }

  ghost predicate ConsumerOk(c: nat, s: State) {
    match s.consumer
    case Idle => true
    case Counting(n) => Batch(c, s, n)
    case Reading(n, i) => Batch(c, s, n) && i <= n
    case Releasing(n, i) => Batch(c, s, n) && i <= n
    case Notifying => true
    case Pushing(t) => t < |s.tickets|
  }

  // The sequence number of a cell tells which ticket of the current turn owns it, and
  // whether that ticket has published.
  ghost predicate SequenceOk(c: nat, s: State, t: nat)
    requires Shaped(c, s)
  {
    s.sequence[Index(t, c)] == if IsPublished(s, t) then t + 1 else t
  }

  ghost predicate CellOk(c: nat, s: State, t: nat)
    requires Shaped(c, s) && t < |s.tickets|
  {
    s.tickets[t].phase in {Written, Published} ==> s.buffer[Index(t, c)] == Holds(s.tickets[t].op)
  }

  ghost predicate Inv(c: nat, s: State) {
    && Shaped(c, s) && c >= 2
    && ConsumerOk(c, s)
    && ReleasedUpTo(s) <= |s.tickets|
    && (forall t: nat :: t < ReleasedUpTo(s) ==> IsPublished(s, t))
    && (forall t: nat :: ReleasedUpTo(s) <= t < ReleasedUpTo(s) + c ==> SequenceOk(c, s, t))
    && (forall t: nat :: ReleasedUpTo(s) <= t < ReleasedUpTo(s) + c && t < |s.tickets| ==> CellOk(c, s, t))
    && (forall t: nat :: ReleasedUpTo(s) + c <= t < |s.tickets| ==> s.tickets[t].phase == Claimed)
    && TakenInOrder(s)
  }

  // A ticket whose turn has not come finds a smaller number in its cell. Needs two cells:
  // with one, the mark a ticket publishes is the number the next one waits for.
  lemma NotYet(c: nat, s: State, t: nat)
    requires Inv(c, s) && t >= ReleasedUpTo(s) + c
    ensures s.sequence[Index(t, c)] < t
  {
    var u := PositionOf(ReleasedUpTo(s), c, Index(t, c));
    if t < u + c { IndexDistinct(u, t, c); }
    assert SequenceOk(c, s, u);
  }

  // A producer at work on cell t % c owns the cell's current turn.
  lemma InTurn(c: nat, s: State, step: Step)
    requires Inv(c, s) && Enabled(c, s, step) && (step.Clear? || step.Write? || step.Publish?)
    ensures ReleasedUpTo(s) <= step.t < ReleasedUpTo(s) + c && step.t < |s.tickets|
  {
    assert !IsPublished(s, step.t);
    if step.Clear? && step.t >= ReleasedUpTo(s) + c { NotYet(c, s, step.t); }
  }

  lemma MovedTickets(c: nat, s: State, t: nat, phase: Phase)
    requires t < |s.tickets| && s.tickets[t].phase != Published
    ensures forall u: nat :: u != t ==> (IsPublished(s.(tickets := Moved(s, t, phase)), u) <==> IsPublished(s, u))
    ensures IsPublished(s.(tickets := Moved(s, t, phase)), t) <==> phase == Published
  {
  }

  lemma ClearKeepsInv(c: nat, s: State, u: nat)
    requires Inv(c, s) && Enabled(c, s, Clear(u))
    ensures Inv(c, Apply(c, s, Clear(u)))
  {
    InTurn(c, s, Clear(u));
    Frame(c, s, Apply(c, s, Clear(u)), u);
  }

  lemma WriteKeepsInv(c: nat, s: State, u: nat)
    requires Inv(c, s) && Enabled(c, s, Write(u))
    ensures Inv(c, Apply(c, s, Write(u)))
  {
    InTurn(c, s, Write(u));
    assert SequenceOk(c, s, u);
    Frame(c, s, Apply(c, s, Write(u)), u);
  }

  lemma PublishKeepsInv(c: nat, s: State, u: nat)
    requires Inv(c, s) && Enabled(c, s, Publish(u))
    ensures Inv(c, Apply(c, s, Publish(u)))
  {
    InTurn(c, s, Publish(u));
    assert CellOk(c, s, u);
    Frame(c, s, Apply(c, s, Publish(u)), u);
  }

  // Only ticket u and its cell changed, and their part of the invariant holds again.
  lemma Frame(c: nat, s: State, t: State, u: nat)
    requires Inv(c, s) && Shaped(c, t) && ReleasedUpTo(s) <= u < ReleasedUpTo(s) + c && u < |s.tickets|
    requires s.tickets[u].phase != Published
    requires exists phase :: t.tickets == Moved(s, u, phase)
    requires t.head == s.head && t.consumer == s.consumer && t.taken == s.taken
    requires forall i :: 0 <= i < c && i != Index(u, c) ==> t.sequence[i] == s.sequence[i] && t.buffer[i] == s.buffer[i]
    requires SequenceOk(c, t, u) && CellOk(c, t, u)
    ensures Inv(c, t)
  {
    var r := ReleasedUpTo(s);
    var phase :| t.tickets == Moved(s, u, phase);
    MovedTickets(c, s, u, phase);
    WindowDistinct(r, c);
    forall v: nat | r <= v < r + c ensures SequenceOk(c, t, v) { assert SequenceOk(c, s, v); }
    forall v: nat | r <= v < r + c && v < |t.tickets| ensures CellOk(c, t, v) { assert CellOk(c, s, v); }
    forall v: nat | IsPublished(s, v) ensures IsPublished(t, v) { }
  }

  lemma ClaimKeepsInv(c: nat, s: State, op: nat)
    requires Inv(c, s)
    ensures Inv(c, Apply(c, s, Claim(op)))
  {
    var t := Apply(c, s, Claim(op));
    var r := ReleasedUpTo(s);
    forall u: nat | r <= u < r + c ensures SequenceOk(c, t, u) { assert SequenceOk(c, s, u); }
    forall u: nat | r <= u < r + c && u < |t.tickets| ensures CellOk(c, t, u) {
      if u < |s.tickets| { assert CellOk(c, s, u); }
    }
    forall u: nat | IsPublished(s, u) ensures IsPublished(t, u) { }
  }

  lemma ReleaseKeepsInv(c: nat, s: State)
    requires Inv(c, s) && Enabled(c, s, ReleaseOne)
    ensures Inv(c, Apply(c, s, ReleaseOne))
  {
    var t := Apply(c, s, ReleaseOne);
    var r := ReleasedUpTo(s);
    WindowDistinct(r, c);
    IndexStep(r, c, c);
    assert IsPublished(s, r);
    forall u: nat | r + 1 <= u < r + 1 + c ensures SequenceOk(c, t, u) {
      if u < r + c { assert SequenceOk(c, s, u); }
    }
    forall u: nat | r + 1 <= u < r + 1 + c && u < |t.tickets| ensures CellOk(c, t, u) {
      if u < r + c { assert CellOk(c, s, u); }
    }
    forall u: nat | IsPublished(s, u) ensures IsPublished(t, u) { }
  }

  // A step of the consumer that changes neither cells nor tickets.
  lemma ConsumerFrame(c: nat, s: State, t: State)
    requires Inv(c, s) && t.sequence == s.sequence && t.buffer == s.buffer && t.tickets == s.tickets
    requires ReleasedUpTo(t) == ReleasedUpTo(s) && ConsumerOk(c, t) && TakenInOrder(t)
    ensures Inv(c, t)
  {
    var r := ReleasedUpTo(s);
    forall u: nat | u < r ensures IsPublished(t, u) { assert IsPublished(s, u); }
    forall u: nat | r <= u < r + c ensures SequenceOk(c, t, u) { assert SequenceOk(c, s, u); }
    forall u: nat | r <= u < r + c && u < |t.tickets| ensures CellOk(c, t, u) { assert CellOk(c, s, u); }
  }

  lemma CountKeepsInv(c: nat, s: State)
    requires Inv(c, s) && Enabled(c, s, CountOne)
    ensures Inv(c, Apply(c, s, CountOne))
  {
    var t := Apply(c, s, CountOne);
    assert SequenceOk(c, s, s.head + s.consumer.n);
    forall u: nat | t.head <= u < t.head + t.consumer.n ensures IsPublished(t, u) {
      assert u < s.head + s.consumer.n ==> IsPublished(s, u);
    }
    ConsumerFrame(c, s, t);
  }

  lemma ReadKeepsInv(c: nat, s: State)
    requires Inv(c, s) && Enabled(c, s, ReadOne)
    ensures Inv(c, Apply(c, s, ReadOne))
  {
    var t := Apply(c, s, ReadOne);
    assert IsPublished(s, s.head + s.consumer.i);
    assert CellOk(c, s, s.head + s.consumer.i);
    assert ConsumerOk(c, t) by { forall u: nat | t.head <= u < t.head + t.consumer.n ensures IsPublished(t, u) { assert IsPublished(s, u); } }
    ConsumerFrame(c, s, t);
  }

  lemma PassKeepsInv(c: nat, s: State, step: Step)
    requires Inv(c, s) && Enabled(c, s, step) && step in {BeginPoll, EndCount, EndRead, EndRelease, PushedBack, EndPoll}
    ensures Inv(c, Apply(c, s, step))
  {
    var t := Apply(c, s, step);
    assert ConsumerOk(c, t) by {
      if t.consumer.Reading? || t.consumer.Releasing? {
        forall u: nat | t.head <= u < t.head + t.consumer.n ensures IsPublished(t, u) { assert IsPublished(s, u); }
      }
    }
    ConsumerFrame(c, s, t);
  }

  // Entering a push changes nothing but the consumer's place.
  lemma Drawn(c: nat, s: State, t: nat)
    requires Inv(c, s) && s.consumer.Notifying? && t < |s.tickets|
    ensures Inv(c, s.(consumer := Pushing(t)))
  {
    var s' := s.(consumer := Pushing(t));
    var r := ReleasedUpTo(s);
    forall u: nat | r <= u < r + c ensures SequenceOk(c, s', u) { assert SequenceOk(c, s, u); }
    forall u: nat | r <= u < r + c && u < |s'.tickets| ensures CellOk(c, s', u) { assert CellOk(c, s, u); }
    forall u: nat | u < r ensures IsPublished(s', u) { assert IsPublished(s, u); }
  }

  lemma StepKeepsInv(c: nat, s: State, step: Step)
    requires Inv(c, s) && Enabled(c, s, step)
    ensures Inv(c, Apply(c, s, step))
  {
    match step
    case Claim(op) => ClaimKeepsInv(c, s, op);
    case Clear(t) => ClearKeepsInv(c, s, t);
    case Write(t) => WriteKeepsInv(c, s, t);
    case Publish(t) => PublishKeepsInv(c, s, t);
    case ReleaseOne => ReleaseKeepsInv(c, s);
    case PushBack(op) =>
      ClaimKeepsInv(c, s, op);
      Drawn(c, Apply(c, s, Claim(op)), |s.tickets|);
    case CountOne => CountKeepsInv(c, s);
    case ReadOne => ReadKeepsInv(c, s);
    case _ => PassKeepsInv(c, s, step);
  }

  lemma {:induction false} RunInv(c: nat, run: seq<Step>)
    requires c >= 2 && Legal(c, run)
    ensures Inv(c, Exec(c, run))
    decreases |run|
  {
    if run == [] {
      InitInv(c);
    } else {
      RunInv(c, run[..|run| - 1]);
      StepKeepsInv(c, Exec(c, run[..|run| - 1]), run[|run| - 1]);
    }
  }

  lemma InitInv(c: nat)
    requires c >= 2
    ensures Inv(c, Init(c))
  {
    forall t: nat | t < c ensures SequenceOk(c, Init(c), t) { IndexStep(0, t, c); }
  }

  lemma InvIsSafe(c: nat, s: State)
    requires Inv(c, s)
    ensures Safe(c, s)
  {
    var r := ReleasedUpTo(s);
    WindowDistinct(r, c);
    forall t: nat, u: nat | t < u < |s.tickets| && s.tickets[u].phase == Cleared && Index(t, c) == Index(u, c)
      ensures t < r <= ReadUpTo(s)
    {
      assert !IsPublished(s, u);
    }
    forall t: nat, u: nat | t < u < |s.tickets| && s.tickets[t].phase == Cleared && s.tickets[u].phase == Cleared
      ensures Index(t, c) != Index(u, c)
    {
      assert !IsPublished(s, t) && !IsPublished(s, u);
    }
    if s.consumer.Reading? && s.consumer.i < s.consumer.n {
      assert IsPublished(s, s.head + s.consumer.i);
      assert CellOk(c, s, s.head + s.consumer.i);
    }
  }

  // ---------------------------------------------------------------- what goes in comes out

  // What `push` was called with, by producers and by the consumer, in the order of the tickets.
  function Draws(run: seq<Step>): seq<nat> {
    if run == [] then []
    else
      var step := run[|run| - 1];
      Draws(run[..|run| - 1]) + if step.Claim? || step.PushBack? then [step.op] else []
  }

  ghost predicate Numbered(s: State, ops: seq<nat>) {
    |s.tickets| == |ops| && forall t: nat :: t < |ops| ==> s.tickets[t].op == ops[t]
  }

  lemma StepNumbers(c: nat, s: State, step: Step, ops: seq<nat>)
    requires Shaped(c, s) && Enabled(c, s, step) && Numbered(s, ops)
    ensures Numbered(Apply(c, s, step), ops + if step.Claim? || step.PushBack? then [step.op] else [])
  {
  }

  lemma {:induction false} TicketsAre(c: nat, run: seq<Step>)
    requires c > 0 && Legal(c, run)
    ensures Numbered(Exec(c, run), Draws(run))
    decreases |run|
  {
    if run != [] {
      TicketsAre(c, run[..|run| - 1]);
      StepNumbers(c, Exec(c, run[..|run| - 1]), run[|run| - 1], Draws(run[..|run| - 1]));
    }
  }

  /** In every run of a ring of two cells or more, the j-th operation the consumer takes out
      is the one the j-th push was called with. */
  lemma LeavesAsPushed(c: nat, run: seq<Step>)
    requires c >= 2 && Legal(c, run)
    ensures var s := Exec(c, run);
            |s.taken| <= |Draws(run)| && forall j :: 0 <= j < |s.taken| ==> s.taken[j] == Holds(Draws(run)[j])
  {
    RunInv(c, run);
    TicketsAre(c, run);
  }

  /** In every run the consumer's count goes on exactly while the next operation has been
      published and a turn is not full, and otherwise ends: a poll takes out all operations
      from head on up to the first that is not published. */
  lemma CountsPublished(c: nat, run: seq<Step>)
    requires c >= 2 && Legal(c, run) && Exec(c, run).consumer.Counting?
    ensures var s := Exec(c, run);
            var n := s.consumer.n;
            && (forall t: nat :: s.head <= t < s.head + n ==> IsPublished(s, t))
            && (Enabled(c, s, CountOne) <==> n < c && IsPublished(s, s.head + n))
            && (Enabled(c, s, EndCount) <==> n == c || !IsPublished(s, s.head + n))
  {
    RunInv(c, run);
    CountNow(c, Exec(c, run));
  }

  lemma CountNow(c: nat, s: State)
    requires Inv(c, s) && s.consumer.Counting?
    ensures var n := s.consumer.n;
            && (forall t: nat :: s.head <= t < s.head + n ==> IsPublished(s, t))
            && (Enabled(c, s, CountOne) <==> n < c && IsPublished(s, s.head + n))
            && (Enabled(c, s, EndCount) <==> n == c || !IsPublished(s, s.head + n))
  {
    if s.consumer.n < c { assert SequenceOk(c, s, s.head + s.consumer.n); }
  }

  // ---------------------------------------------------------------- who ends a spin

  ghost predicate Waits(c: nat, s: State, t: nat)
    requires Shaped(c, s)
  {
    t < |s.tickets| && s.tickets[t].phase == Claimed && !Enabled(c, s, Clear(t))
  }

  /** In every run a producer's spin can end exactly when the consumer has released its cell:
      its ticket is less than one turn ahead of what was released. */
  lemma SpinEndsIff(c: nat, run: seq<Step>, t: nat)
    requires c >= 2 && Legal(c, run) && t < |Exec(c, run).tickets| && Exec(c, run).tickets[t].phase == Claimed
    ensures Enabled(c, Exec(c, run), Clear(t)) <==> t < ReleasedUpTo(Exec(c, run)) + c
  {
    RunInv(c, run);
    var s := Exec(c, run);
    if t >= ReleasedUpTo(s) + c {
      NotYet(c, s, t);
    } else {
      assert !IsPublished(s, t);
      assert SequenceOk(c, s, t);
    }
  }

  lemma StepReleases(c: nat, s: State, step: Step)
    requires Inv(c, s) && Enabled(c, s, step) && step != ReleaseOne
    ensures ReleasedUpTo(Apply(c, s, step)) == ReleasedUpTo(s)
  {
  }

  lemma StaysWaiting(c: nat, s: State, step: Step, t: nat)
    requires Inv(c, s) && Enabled(c, s, step) && step != ReleaseOne && Waits(c, s, t) && t >= ReleasedUpTo(s) + c
    ensures var s' := Apply(c, s, step); Waits(c, s', t) && t >= ReleasedUpTo(s') + c
  {
    StepReleases(c, s, step);
    StepKeepsInv(c, s, step);
    NotYet(c, Apply(c, s, step), t);
  }

  /** A spin that has to wait goes on, whatever the producers do and however long the run
      gets, as long as the consumer releases no cell. */
  lemma {:induction false} OnlyConsumerReleases(c: nat, run: seq<Step>, longer: seq<Step>, t: nat)
    requires c >= 2 && Legal(c, run) && Legal(c, longer) && run <= longer
    requires forall i :: |run| <= i < |longer| ==> longer[i] != ReleaseOne
    requires Waits(c, Exec(c, run), t)
    ensures Waits(c, Exec(c, longer), t) && t >= ReleasedUpTo(Exec(c, longer)) + c
    decreases |longer|
  {
    if run == longer {
      SpinEndsIff(c, run, t);
    } else {
      var before := longer[..|longer| - 1];
      OnlyConsumerReleases(c, run, before, t);
      RunInv(c, before);
      StaysWaiting(c, Exec(c, before), longer[|longer| - 1], t);
    }
  }

  // ---------------------------------------------------------------- the consumer's own push

  ghost function Push(c: nat, run: seq<Step>, step: Step): (r: seq<Step>)
    requires c > 0 && Legal(c, run) && Enabled(c, Exec(c, run), step)
    ensures Legal(c, r) && Exec(c, r) == Apply(c, Exec(c, run), step)
  {
    assert (run + [step])[..|run|] == run;
    run + [step]
  }

  // However the run goes on, whatever the producers do, the consumer stays inside the push it
  // is in.
  ghost predicate HangsForever(c: nat, run: seq<Step>)
    requires c > 0 && Legal(c, run)
  {
    forall longer :: Legal(c, longer) && run <= longer ==> Exec(c, longer).consumer == Exec(c, run).consumer
  }

  ghost predicate WaitsForItself(c: nat, s: State, t: nat)
    requires Shaped(c, s)
  {
    s.consumer == Pushing(t) && Waits(c, s, t) && t >= s.head + c
  }

  lemma StillWaitsForItself(c: nat, s: State, step: Step, t: nat)
    requires Inv(c, s) && Enabled(c, s, step) && WaitsForItself(c, s, t)
    ensures WaitsForItself(c, Apply(c, s, step), t)
  {
    StaysWaiting(c, s, step, t);
  }

  lemma {:induction false} GoesOnWaiting(c: nat, run: seq<Step>, longer: seq<Step>, t: nat)
    requires c >= 2 && Legal(c, run) && Legal(c, longer) && run <= longer && WaitsForItself(c, Exec(c, run), t)
    ensures WaitsForItself(c, Exec(c, longer), t)
    decreases |longer|
  {
    if run != longer {
      var before := longer[..|longer| - 1];
      GoesOnWaiting(c, run, before, t);
      RunInv(c, before);
      StillWaitsForItself(c, Exec(c, before), longer[|longer| - 1], t);
    }
  }

  // A ticket within the turn can be served at once, by the consumer alone.
  lemma PushReturns(c: nat, run: seq<Step>, t: nat) returns (longer: seq<Step>)
    requires c >= 2 && Legal(c, run) && Exec(c, run).consumer == Pushing(t) && t < Exec(c, run).head + c
    requires t < |Exec(c, run).tickets| && Exec(c, run).tickets[t].phase == Claimed
    ensures Legal(c, longer) && run <= longer && Exec(c, longer).consumer == Notifying
  {
    SpinEndsIff(c, run, t);
    longer := run + [Clear(t)];
    assert longer == Push(c, run, Clear(t));
    var r2 := Push(c, longer, Write(t));
    var r3 := Push(c, r2, Publish(t));
    longer := Push(c, r3, PushedBack);
  }

  /** In every run, with any number of producers: a push that the consumer starts from inside
      a notification never returns if and only if, when it draws its ticket, tail is at least
      one turn of the ring ahead of head. */
  lemma OwnPushHangsIff(c: nat, run: seq<Step>, op: nat)
    requires c >= 2 && Legal(c, run) && Enabled(c, Exec(c, run), PushBack(op))
    ensures Legal(c, run + [PushBack(op)])
    ensures HangsForever(c, run + [PushBack(op)]) <==> |Exec(c, run).tickets| - Exec(c, run).head >= c
  {
    var s, t := Exec(c, run), |Exec(c, run).tickets|;
    var drawn := Push(c, run, PushBack(op));
    assert drawn == run + [PushBack(op)];
    SpinEndsIff(c, drawn, t);
    if t - s.head >= c {
      forall longer | Legal(c, longer) && drawn <= longer ensures Exec(c, longer).consumer == Exec(c, drawn).consumer {
        GoesOnWaiting(c, drawn, longer, t);
      }
    } else {
      var longer := PushReturns(c, drawn, t);
    }
  }

  // A producer draws a ticket and finds its cell free.
  lemma Admitted(c: nat, run: seq<Step>, op: nat) returns (r: seq<Step>)
    requires c >= 2 && Legal(c, run) && |Exec(c, run).tickets| < ReleasedUpTo(Exec(c, run)) + c
    ensures Legal(c, r)
    ensures var s := Exec(c, run); Exec(c, r) == s.(tickets := s.tickets + [Ticket(op, Cleared)])
  {
    var k := |Exec(c, run).tickets|;
    r := Push(c, run, Claim(op));
    SpinEndsIff(c, r, k);
    r := Push(c, r, Clear(k));
  }

  // A whole push by a producer, up to its mark.
  lemma WholePush(c: nat, run: seq<Step>, op: nat) returns (r: seq<Step>)
    requires c >= 2 && Legal(c, run) && |Exec(c, run).tickets| < ReleasedUpTo(Exec(c, run)) + c
    ensures Legal(c, r)
    ensures var s, t := Exec(c, run), Exec(c, r);
            && t.head == s.head && t.consumer == s.consumer
            && t.tickets == s.tickets + [Ticket(op, Published)]
            && t.sequence == s.sequence[Index(|s.tickets|, c) := |s.tickets| + 1]
  {
    var k := |Exec(c, run).tickets|;
    r := Admitted(c, run, op);
    r := Push(c, r, Write(k));
    r := Push(c, r, Publish(k));
  }

  // Operation 0 is pushed on a ring of two cells, and the consumer has counted it.
  lemma OneCounted() returns (r: seq<Step>)
    ensures Legal(2, r)
    ensures var s := Exec(2, r); s.consumer == Reading(1, 0) && s.head == 0 && |s.tickets| == 1
  {
    IndexStep(0, 0, 2);
    IndexStep(0, 1, 2);
    r := WholePush(2, [], 0);
    r := Push(2, r, BeginPoll);
    r := Push(2, r, CountOne);
    r := Push(2, r, EndCount);
  }

  // It takes the operation and hands the cell on.
  lemma TakenAndReleased() returns (r: seq<Step>)
    ensures Legal(2, r)
    ensures var s := Exec(2, r); s.consumer == Notifying && s.head == 1 == |s.tickets|
  {
    r := OneCounted();
    r := Push(2, r, ReadOne);
    r := Push(2, r, EndRead);
    r := Push(2, r, ReleaseOne);
    r := Push(2, r, EndRelease);
  }

  /** One operation pushed back on two cells is enough: two producers publish between the
      release of the consumer's cells and its notification. */
  lemma ProducersGetAhead() returns (r: seq<Step>)
    ensures Legal(2, r) && Exec(2, r).consumer == Pushing(3) && HangsForever(2, r)
  {
    var r0 := TakenAndReleased();
    r0 := WholePush(2, r0, 1);
    r0 := WholePush(2, r0, 2);
    OwnPushHangsIff(2, r0, 0);
    r := Push(2, r0, PushBack(0));
    assert r == r0 + [PushBack(0)];
  }

  // ---------------------------------------------------------------- one cell is not enough

  // With one cell a second producer takes the first one's published mark for its own
  // number and overwrites an operation nobody read.
  lemma OneCellOverwrites() returns (run: seq<Step>)
    ensures Legal(1, run) && !NothingOverwritten(1, Exec(1, run))
  {
    IndexStep(0, 1, 1);
    run := Push(1, [], Claim(7));
    run := Push(1, run, Clear(0));
    run := Push(1, run, Write(0));
    run := Push(1, run, Publish(0));
    run := Push(1, run, Claim(8));
    run := Push(1, run, Clear(1));
    var s := Exec(1, run);
    assert s.tickets[1].phase == Cleared && Index(0, 1) == Index(1, 1) && ReadUpTo(s) == 0;
  }

  /** The ring is safe in every run if and only if it has at least two cells: producers
      never share a cell, nothing unread is overwritten, the consumer reads only published
      cells, and operations leave in ticket order. */
  lemma SafeIffTwoCells(c: nat)
    requires c > 0
    ensures (forall run :: Legal(c, run) ==> Safe(c, Exec(c, run))) <==> c >= 2
  {
    if c >= 2 {
      forall run | Legal(c, run) ensures Safe(c, Exec(c, run)) {
        RunInv(c, run);
        InvIsSafe(c, Exec(c, run));
      }
    } else {
      var run := OneCellOverwrites();
    }
  }
}
