/**
 The asynchronous session: one owner, any number of calls through cloned handles, one worker
 thread and an unbounded first-in first-out channel between them. Every atomic action of
 every party is a step, and a run is any sequence of enabled steps.

 Requests are named by numbers; what a memory move computes is the parameter of `Finish`.
 */
module AsyncSession {
  const RUNNING := 0
  const SHUTDOWN_REQUESTED := 1
  const SHUTDOWN_COMPLETE := 2

  datatype Command = Memmove(id: nat) | Shutdown

  // Moved(v) is the returned buffer and report, Failed(e) the error of the synchronous layer.
  datatype Result = Moved(value: nat) | Failed(error: nat)

  // The receiving side of a request's one-shot reply channel.
  datatype Reply = Waiting | Sent(result: Result) | Lost

  datatype Outcome = Done(result: Result) | OwnerShutdown | RequestChannelClosed | ResponseChannelClosed

  datatype Call =
    | Checked              // passed the lifecycle test, has not sent yet
    | Enqueued             // sent, awaiting the reply
    | Refused              // the send failed, not classified yet
    | Unanswered           // the reply sender was dropped, not classified yet
    | Abandoned            // the awaiting task was dropped
    | Resolved(outcome: Outcome)

  datatype Worker =
    | Idle
    | Executing(id: nat)
    | Leaving              // received Shutdown, has not dropped its receiver yet
    | Exited
    | Unwinding(id: nat)   // panicked in a memory move, has not dropped its receiver yet
    | Panicked(id: nat)

  datatype Owner = Open | Requested | Joining | Completing | Returned(ok: bool) | Dropped(ok: bool)

  datatype Run = Run(id: nat, result: Result)

  // `accepted`, `received` and `log` are histories: every command sent, every command the
  // worker took, every memory move it finished.
  datatype State = State(
    lifecycle: nat,
    owner: Owner,
    worker: Worker,
    queue: seq<Command>,
    calls: map<nat, Call>,
    replies: map<nat, Reply>,
    accepted: seq<Command>,
    received: seq<Command>,
    log: seq<Run>)

  predicate ReceiverAlive(s: State) { !s.worker.Exited? && !s.worker.Panicked? }

  predicate ShutdownSeen(s: State) { s.lifecycle >= SHUTDOWN_REQUESTED }

  const INITIAL := State(RUNNING, Open, Idle, [], map[], map[], [], [], [])

  datatype Step =
    | Check(id: nat)
    | Send(id: nat)
    | ClassifySend(id: nat)
    | Await(id: nat)
    | ClassifyReply(id: nat)
    | Abandon(id: nat)
    | Take
    | Finish(result: Result)
    | Panic
    | DropReceiver
    | MarkRequested
    | SendShutdown
    | Join
    | MarkComplete
    | DropSession

  predicate IsCall(s: State, id: nat, c: Call) { id in s.calls && s.calls[id] == c }

  predicate Enabled(s: State, step: Step) {
    match step
    case Check(id) => id !in s.calls
    case Send(id) => IsCall(s, id, Checked)
    case ClassifySend(id) => IsCall(s, id, Refused)
    case Await(id) => IsCall(s, id, Enqueued) && id in s.replies && s.replies[id] != Waiting
    case ClassifyReply(id) => IsCall(s, id, Unanswered)
    case Abandon(id) => IsCall(s, id, Enqueued)
    case Take => s.worker == Idle && s.queue != []
    case Finish(_) => s.worker.Executing?
    case Panic => s.worker.Executing?
    case DropReceiver => s.worker == Leaving || s.worker.Unwinding?
    case MarkRequested => s.owner == Open
    case SendShutdown => s.owner == Requested
    case Join => s.owner == Joining && !ReceiverAlive(s)
    case MarkComplete => s.owner == Completing
    case DropSession => s.owner.Returned?
  }

  function Resolve(s: State, id: nat, o: Outcome): State { s.(calls := s.calls[id := Resolved(o)]) }

  // Dropping the receiver drops the queued commands and with them their reply senders.
  function AfterDrop(replies: map<nat, Reply>, queue: seq<Command>): map<nat, Reply> {
    map id | id in replies :: if Memmove(id) in queue then Lost else replies[id]
  }

  function Sending(s: State, c: Command): State { s.(queue := s.queue + [c], accepted := s.accepted + [c]) }

  function Apply(s: State, step: Step): State
    requires Enabled(s, step)
  {
    match step
    case Check(id) =>
      if ShutdownSeen(s) then Resolve(s, id, OwnerShutdown) else s.(calls := s.calls[id := Checked])
    case Send(id) =>
      if ReceiverAlive(s) then
        Sending(s, Memmove(id)).(calls := s.calls[id := Enqueued], replies := s.replies[id := Waiting])
      else
        s.(calls := s.calls[id := Refused])
    case ClassifySend(id) => Resolve(s, id, if ShutdownSeen(s) then OwnerShutdown else RequestChannelClosed)
    case Await(id) =>
      if s.replies[id].Sent? then Resolve(s, id, Done(s.replies[id].result))
      else s.(calls := s.calls[id := Unanswered])
    case ClassifyReply(id) => Resolve(s, id, if ShutdownSeen(s) then OwnerShutdown else ResponseChannelClosed)
    case Abandon(id) => s.(calls := s.calls[id := Abandoned])
    case Take =>
      var c := s.queue[0];
      s.(queue := s.queue[1..], received := s.received + [c],
         worker := if c.Memmove? then Executing(c.id) else Leaving)
    case Finish(result) =>
      var id := s.worker.id;
      s.(worker := Idle, replies := s.replies[id := Sent(result)], log := s.log + [Run(id, result)])
    case Panic => s.(worker := Unwinding(s.worker.id), replies := s.replies[s.worker.id := Lost])
    case DropReceiver =>
      s.(queue := [], replies := AfterDrop(s.replies, s.queue),
         worker := if s.worker == Leaving then Exited else Panicked(s.worker.id))
    case MarkRequested => s.(lifecycle := SHUTDOWN_REQUESTED, owner := Requested)
    case SendShutdown => (if ReceiverAlive(s) then Sending(s, Shutdown) else s).(owner := Joining)
    case Join => s.(owner := if s.worker == Exited then Completing else Returned(false))
    case MarkComplete => s.(lifecycle := SHUTDOWN_COMPLETE, owner := Returned(true))
    // the thread handle is gone, so the second shutdown only marks completion
    case DropSession => s.(lifecycle := SHUTDOWN_COMPLETE, owner := Dropped(s.owner.ok))
  }

  predicate Legal(run: seq<Step>)
    decreases |run|, 0
  {
    run == [] || (Legal(run[..|run| - 1]) && Enabled(Exec(run[..|run| - 1]), run[|run| - 1]))
  }

  function Exec(run: seq<Step>): State
    requires Legal(run)
    decreases |run|, 1
  {
    if run == [] then INITIAL else Apply(Exec(run[..|run| - 1]), run[|run| - 1])
  }

  // ---------------------------------------------------------------- invariant

  ghost predicate Lifecycle(s: State) {
    && s.lifecycle == (match s.owner
                       case Open => RUNNING
                       case Requested => SHUTDOWN_REQUESTED
                       case Joining => SHUTDOWN_REQUESTED
                       case Completing => SHUTDOWN_REQUESTED
                       case Returned(ok) => if ok then SHUTDOWN_COMPLETE else SHUTDOWN_REQUESTED
                       case Dropped(_) => SHUTDOWN_COMPLETE)
    && (s.owner == Completing ==> s.worker == Exited)
    && ((s.owner.Returned? || s.owner.Dropped?) ==> if s.owner.ok then s.worker == Exited else s.worker.Panicked?)
  }

  ghost predicate Distinct(cs: seq<Command>) {
    forall i, j :: 0 <= i < j < |cs| ==> cs[i] != cs[j]
  }

  ghost predicate Channel(s: State) {
    && Distinct(s.accepted)
    && (s.owner == Open || s.owner == Requested ==> Shutdown !in s.accepted)
    && s.received <= s.accepted
    && s.queue == (if ReceiverAlive(s) then s.accepted[|s.received|..] else [])
  }

  function Finished(log: seq<Run>): seq<Command> { seq(|log|, i requires 0 <= i < |log| => Memmove(log[i].id)) }

  // What the worker took beyond the finished moves.
  function InHand(w: Worker): seq<Command> {
    match w
    case Idle => []
    case Executing(id) => [Memmove(id)]
    case Leaving => [Shutdown]
    case Exited => [Shutdown]
    case Unwinding(id) => [Memmove(id)]
    case Panicked(id) => [Memmove(id)]
  }

  ghost predicate Working(s: State) { s.received == Finished(s.log) + InHand(s.worker) }

  // The reply of the request accepted at position i.
  function ReplyAt(s: State, i: nat): Reply
    requires i < |s.accepted|
  {
    if i < |s.log| then Sent(s.log[i].result)
    else if i < |s.received| then if s.worker.Executing? then Waiting else Lost
    else if ReceiverAlive(s) then Waiting else Lost
  }

  ghost predicate Replies(s: State) {
    && (forall i {:trigger s.accepted[i]} :: 0 <= i < |s.accepted| && s.accepted[i].Memmove? ==>
          s.accepted[i].id in s.replies && s.replies[s.accepted[i].id] == ReplyAt(s, i))
    && (forall id :: id in s.replies ==> Memmove(id) in s.accepted)
  }

  // Accepted after the owner's Shutdown.
  ghost predicate Behind(cs: seq<Command>, id: nat) {
    exists i, j :: 0 <= i < j < |cs| && cs[i] == Shutdown && cs[j] == Memmove(id)
  }

  predicate WorkerPanicked(s: State) { s.worker.Unwinding? || s.worker.Panicked? }

  ghost predicate CallOk(s: State, id: nat, c: Call) {
    && (c == Checked || c == Refused || c == Resolved(RequestChannelClosed) ==> id !in s.replies)
    && (c == Enqueued || c == Abandoned ==> id in s.replies)
    && (c == Refused ==> !ReceiverAlive(s))
    && (c == Unanswered ==> id in s.replies && s.replies[id] == Lost)
    && (c.Resolved? && c.outcome.Done? ==> id in s.replies && s.replies[id] == Sent(c.outcome.result))
    && (c == Resolved(OwnerShutdown) ==> ShutdownSeen(s) && (id in s.replies ==> s.replies[id] == Lost))
    && (c == Resolved(RequestChannelClosed) ==> WorkerPanicked(s))
    && (c == Resolved(ResponseChannelClosed) ==>
          WorkerPanicked(s) && id in s.replies && s.replies[id] == Lost && !Behind(s.accepted, id))
  }

  ghost predicate Calls(s: State) {
    && (forall id :: id in s.calls ==> CallOk(s, id, s.calls[id]))
    && (forall id :: id in s.replies ==> id in s.calls)
  }

  ghost predicate Inv(s: State) {
    Lifecycle(s) && Channel(s) && Working(s) && Replies(s) && Calls(s)
  }

  // ---------------------------------------------------------------- each step keeps it

  lemma StepLifecycle(s: State, step: Step)
    requires Inv(s) && Enabled(s, step)
    ensures Lifecycle(Apply(s, step))
  {
  }

  // Steps that touch neither the channel nor the worker.
  predicate Local(s: State, step: Step) {
    || step.Check? || step.ClassifySend? || step.Await? || step.ClassifyReply? || step.Abandon?
    || step.MarkRequested? || step.Join? || step.MarkComplete? || step.DropSession?
    || (!ReceiverAlive(s) && (step.Send? || step.SendShutdown?))
  }

  lemma Untouched(s: State, t: State)
    requires Channel(s) && Working(s) && Replies(s)
    requires t.accepted == s.accepted && t.received == s.received && t.queue == s.queue
    requires t.replies == s.replies && t.log == s.log && t.worker == s.worker
    requires t.owner == Open || t.owner == Requested ==> s.owner == Open || s.owner == Requested
    ensures Channel(t) && Working(t) && Replies(t)
  {
    forall i | 0 <= i < |t.accepted| && t.accepted[i].Memmove?
      ensures t.accepted[i].id in t.replies && t.replies[t.accepted[i].id] == ReplyAt(t, i)
    {
      assert ReplyAt(t, i) == ReplyAt(s, i);
    }
  }

  // Positions in the accepted sequence.
  lemma Positions(s: State)
    requires Channel(s) && Working(s)
    ensures |s.received| == |s.log| + |InHand(s.worker)| <= |s.accepted|
    ensures forall i :: 0 <= i < |s.log| ==> s.accepted[i] == Memmove(s.log[i].id)
    ensures InHand(s.worker) != [] ==> s.accepted[|s.log|] == InHand(s.worker)[0]
  {
    forall i | 0 <= i < |s.log| ensures s.accepted[i] == Memmove(s.log[i].id) {
      assert s.accepted[i] == s.received[i] == Finished(s.log)[i];
    }
    if InHand(s.worker) != [] { assert s.accepted[|s.log|] == s.received[|s.log|]; }
  }

  // s and t differ by one more accepted command.
  ghost predicate Extends(s: State, t: State, c: Command) {
    && Inv(s) && ReceiverAlive(s) && c !in s.accepted
    && t.accepted == s.accepted + [c] && t.queue == s.queue + [c]
    && t.received == s.received && t.log == s.log && t.worker == s.worker
    && t.replies == (if c.Memmove? then s.replies[c.id := Waiting] else s.replies)
  }

  lemma AcceptsChannel(s: State, t: State, c: Command)
    requires Extends(s, t, c) && (t.owner == Joining || (t.owner == s.owner && c.Memmove?))
    ensures Channel(t) && Working(t)
  {
  }

  lemma KeptReply(s: State, t: State, c: Command, i: nat)
    requires Extends(s, t, c) && i < |s.accepted| && s.accepted[i].Memmove?
    ensures var id := t.accepted[i].id; id in t.replies && t.replies[id] == ReplyAt(t, i)
  {
    assert t.accepted[i] == s.accepted[i] && s.accepted[i] in s.accepted;
    assert ReplyAt(t, i) == ReplyAt(s, i);
  }

  lemma AcceptsReplies(s: State, t: State, c: Command)
    requires Extends(s, t, c)
    ensures Replies(t)
  {
    forall i | 0 <= i < |t.accepted| && t.accepted[i].Memmove?
      ensures t.accepted[i].id in t.replies && t.replies[t.accepted[i].id] == ReplyAt(t, i)
    {
      if i < |s.accepted| { KeptReply(s, t, c, i); } else { Positions(s); }
    }
    forall id | id in t.replies ensures Memmove(id) in t.accepted {
      if Memmove(id) != c { assert Memmove(id) in s.accepted; } else { assert t.accepted[|s.accepted|] == c; }
    }
  }

  lemma TakeChannel(s: State)
    requires Inv(s) && Enabled(s, Take)
    ensures var t := Apply(s, Take); Channel(t) && Working(t)
  {
    assert Apply(s, Take).received == s.accepted[..|s.received| + 1];
  }

  lemma TakeStep(s: State)
    requires Inv(s) && Enabled(s, Take)
    ensures var t := Apply(s, Take); Channel(t) && Working(t) && Replies(t)
  {
    TakeChannel(s);
    var t := Apply(s, Take);
    forall i | 0 <= i < |t.accepted| && t.accepted[i].Memmove?
      ensures t.accepted[i].id in t.replies && t.replies[t.accepted[i].id] == ReplyAt(t, i)
    {
      assert s.replies[s.accepted[i].id] == ReplyAt(s, i);
    }
  }

  // The worker's own request gets its reply, and no other request's reply changes.
  lemma OwnReply(s: State, t: State, reply: Reply)
    requires Inv(s) && s.worker.Executing? && t.accepted == s.accepted
    requires t.replies == s.replies[s.worker.id := reply] && ReceiverAlive(t)
    requires forall i :: 0 <= i < |s.accepted| ==> ReplyAt(t, i) == if i == |s.log| then reply else ReplyAt(s, i)
    ensures Replies(t)
  {
    Positions(s);
    forall i | 0 <= i < |t.accepted| && t.accepted[i].Memmove?
      ensures t.accepted[i].id in t.replies && t.replies[t.accepted[i].id] == ReplyAt(t, i)
    {
      assert s.replies[s.accepted[i].id] == ReplyAt(s, i);
      assert i != |s.log| ==> s.accepted[i] != s.accepted[|s.log|];
    }
    assert s.accepted[|s.log|] == Memmove(s.worker.id);
  }

  lemma FinishStep(s: State, result: Result)
    requires Inv(s) && s.worker.Executing?
    ensures var t := Apply(s, Finish(result)); Channel(t) && Working(t) && Replies(t)
  {
    Positions(s);
    var t := Apply(s, Finish(result));
    assert Finished(t.log) == Finished(s.log) + [Memmove(s.worker.id)];
    OwnReply(s, t, Sent(result));
  }

  lemma PanicStep(s: State)
    requires Inv(s) && s.worker.Executing?
    ensures var t := Apply(s, Panic); Channel(t) && Working(t) && Replies(t)
  {
    Positions(s);
    OwnReply(s, Apply(s, Panic), Lost);
  }

  lemma DroppedReply(s: State, i: nat)
    requires Inv(s) && Enabled(s, DropReceiver) && i < |s.accepted| && s.accepted[i].Memmove?
    ensures var t := Apply(s, DropReceiver);
            s.accepted[i].id in t.replies && t.replies[s.accepted[i].id] == ReplyAt(t, i)
  {
    Positions(s);
    QueuedFrom(s, i);
    assert s.replies[s.accepted[i].id] == ReplyAt(s, i);
  }

  lemma DropChannel(s: State)
    requires Inv(s) && Enabled(s, DropReceiver)
    ensures var t := Apply(s, DropReceiver); Channel(t) && Working(t)
  {
  }

  lemma DropStep(s: State)
    requires Inv(s) && Enabled(s, DropReceiver)
    ensures var t := Apply(s, DropReceiver); Channel(t) && Working(t) && Replies(t)
  {
    DropChannel(s);
    var t := Apply(s, DropReceiver);
    forall i | 0 <= i < |t.accepted| && t.accepted[i].Memmove?
      ensures t.accepted[i].id in t.replies && t.replies[t.accepted[i].id] == ReplyAt(t, i)
    {
      DroppedReply(s, i);
    }
  }

  lemma QueuedFrom(s: State, i: nat)
    requires Channel(s) && ReceiverAlive(s) && i < |s.accepted|
    ensures s.accepted[i] in s.queue <==> i >= |s.received|
  {
    if i >= |s.received| { assert s.queue[i - |s.received|] == s.accepted[i]; }
    if s.accepted[i] in s.queue {
      var k :| 0 <= k < |s.queue| && s.queue[k] == s.accepted[i];
      assert s.accepted[|s.received| + k] == s.accepted[i];
    }
  }

  lemma NotAcceptedYet(s: State, id: nat)
    requires Inv(s) && id !in s.replies
    ensures Memmove(id) !in s.accepted
  {
    forall i | 0 <= i < |s.accepted| ensures s.accepted[i] != Memmove(id) {
      assert s.accepted[i].Memmove? ==> s.accepted[i].id in s.replies;
    }
  }

  lemma SendStep(s: State, id: nat)
    requires Inv(s) && Enabled(s, Send(id)) && ReceiverAlive(s)
    ensures var t := Apply(s, Send(id)); Channel(t) && Working(t) && Replies(t)
  {
    NotAcceptedYet(s, id);
    AcceptsChannel(s, Apply(s, Send(id)), Memmove(id));
    AcceptsReplies(s, Apply(s, Send(id)), Memmove(id));
  }

  lemma ShutdownStep(s: State)
    requires Inv(s) && Enabled(s, SendShutdown) && ReceiverAlive(s)
    ensures var t := Apply(s, SendShutdown); Channel(t) && Working(t) && Replies(t)
  {
    AcceptsChannel(s, Apply(s, SendShutdown), Shutdown);
    AcceptsReplies(s, Apply(s, SendShutdown), Shutdown);
  }

  lemma LocalStep(s: State, step: Step)
    requires Inv(s) && Enabled(s, step) && Local(s, step)
    ensures var t := Apply(s, step); Channel(t) && Working(t) && Replies(t)
  {
    Untouched(s, Apply(s, step));
  }

  lemma StepQueues(s: State, step: Step)
    requires Inv(s) && Enabled(s, step)
    ensures var t := Apply(s, step); Channel(t) && Working(t) && Replies(t)
  {
    if Local(s, step) {
      LocalStep(s, step);
    } else {
      match step
      case Send(id) => SendStep(s, id);
      case SendShutdown => ShutdownStep(s);
      case Take => TakeStep(s);
      case Finish(result) => FinishStep(s, result);
      case Panic => PanicStep(s);
      case DropReceiver => DropStep(s);
    }
  }

  // ---------------------------------------------------------------- the calls

  // A reply sender is dropped only by a panic or behind the owner's Shutdown.
  lemma WhyLost(s: State, id: nat)
    requires Inv(s) && id in s.replies && s.replies[id] == Lost
    ensures WorkerPanicked(s) || ShutdownSeen(s)
  {
    Positions(s);
    var i := AcceptedPosition(s, id);
    if s.worker == Leaving || s.worker == Exited { StoppedSeen(s); }
  }

  // The worker stops only after a Shutdown.
  lemma StoppedSeen(s: State)
    requires Inv(s) && (s.worker == Leaving || s.worker == Exited)
    ensures ShutdownSeen(s)
  {
    Positions(s);
    assert s.accepted[|s.log|] == Shutdown;
  }

  lemma WhyRefused(s: State)
    requires Inv(s) && !ReceiverAlive(s)
    ensures WorkerPanicked(s) || ShutdownSeen(s)
  {
    if !WorkerPanicked(s) { StoppedSeen(s); }
  }

  lemma BehindAppend(cs: seq<Command>, c: Command, id: nat)
    requires c != Memmove(id)
    ensures Behind(cs + [c], id) ==> Behind(cs, id)
  {
    if Behind(cs + [c], id) {
      var i, j :| 0 <= i < j < |cs + [c]| && (cs + [c])[i] == Shutdown && (cs + [c])[j] == Memmove(id);
      assert cs[i] == Shutdown && cs[j] == Memmove(id);
    }
  }

  // What a call relies on is never taken back: only waiting replies change.
  ghost predicate Preserved(s: State, t: State, id: nat) {
    && (ShutdownSeen(s) ==> ShutdownSeen(t))
    && (ReceiverAlive(t) ==> ReceiverAlive(s))
    && (WorkerPanicked(s) ==> WorkerPanicked(t))
    && (id in s.replies <==> id in t.replies)
    && (id in s.replies && s.replies[id] != Waiting ==> t.replies[id] == s.replies[id])
    && (id in s.replies && !Behind(s.accepted, id) ==> !Behind(t.accepted, id))
  }

  lemma AcceptedPosition(s: State, id: nat) returns (i: nat)
    requires Inv(s) && id in s.replies
    ensures i < |s.accepted| && s.accepted[i] == Memmove(id) && s.replies[id] == ReplyAt(s, i)
  {
    i :| 0 <= i < |s.accepted| && s.accepted[i] == Memmove(id);
  }

  lemma OwnReplyWaits(s: State)
    requires Inv(s) && s.worker.Executing?
    ensures s.worker.id in s.replies && s.replies[s.worker.id] == Waiting
  {
    Positions(s);
    assert s.accepted[|s.log|] == Memmove(s.worker.id);
  }

  lemma QueuedReplyWaits(s: State, id: nat)
    requires Inv(s) && ReceiverAlive(s) && id in s.replies && Memmove(id) in s.queue
    ensures s.replies[id] == Waiting
  {
    Positions(s);
    var i := AcceptedPosition(s, id);
    QueuedFrom(s, i);
  }

  lemma StepPreserves(s: State, step: Step, id: nat)
    requires Inv(s) && Enabled(s, step) && step != Send(id)
    ensures Preserved(s, Apply(s, step), id)
  {
    match step
    case Send(other) => BehindAppend(s.accepted, Memmove(other), id);
    case SendShutdown => BehindAppend(s.accepted, Shutdown, id);
    case Finish(_) => OwnReplyWaits(s);
    case Panic => OwnReplyWaits(s);
    case DropReceiver => if id in s.replies && Memmove(id) in s.queue { QueuedReplyWaits(s, id); }
    case _ =>
  }

  lemma PreservedCall(s: State, t: State, id: nat, c: Call)
    requires CallOk(s, id, c) && Preserved(s, t, id)
    ensures CallOk(t, id, c)
  {
  }

  // The call a step belongs to.
  function Caller(step: Step): set<nat> {
    match step
    case Check(id) => {id}
    case Send(id) => {id}
    case ClassifySend(id) => {id}
    case Await(id) => {id}
    case ClassifyReply(id) => {id}
    case Abandon(id) => {id}
    case _ => {}
  }

  lemma OwnCall(s: State, step: Step, id: nat)
    requires Inv(s) && Enabled(s, step) && id in Caller(step)
    ensures var t := Apply(s, step); id in t.calls && CallOk(t, id, t.calls[id])
  {
    match step
    case Check(_) => assert id in s.replies ==> id in s.calls;
    case ClassifySend(_) => WhyRefused(s);
    case ClassifyReply(_) =>
      WhyLost(s, id);
      if Behind(s.accepted, id) { assert Shutdown in s.accepted; }
    case _ =>
  }

  lemma StepCalls(s: State, step: Step)
    requires Inv(s) && Enabled(s, step)
    ensures Calls(Apply(s, step))
  {
    var t := Apply(s, step);
    forall id | id in t.calls ensures CallOk(t, id, t.calls[id]) {
      if id in Caller(step) {
        OwnCall(s, step, id);
      } else {
        assert s.calls[id] == t.calls[id];
        StepPreserves(s, step, id);
        PreservedCall(s, t, id, s.calls[id]);
      }
    }
    forall id | id in t.replies ensures id in t.calls {
      if step != Send(id) { StepPreserves(s, step, id); }
    }
  }

  lemma {:induction false} RunInv(run: seq<Step>)
    requires Legal(run)
    ensures Inv(Exec(run))
    decreases |run|
  {
    if run != [] {
      var before, step := run[..|run| - 1], run[|run| - 1];
      RunInv(before);
      StepLifecycle(Exec(before), step);
      StepQueues(Exec(before), step);
      StepCalls(Exec(before), step);
    }
  }

  // ---------------------------------------------------------------- drain, then stop

  // The requests ahead of the first Shutdown, in the order they were enqueued.
  function Ahead(cs: seq<Command>): seq<nat> {
    if cs == [] || cs[0] == Shutdown then [] else [cs[0].id] + Ahead(cs[1..])
  }

  function Ids(log: seq<Run>): seq<nat> { seq(|log|, i requires 0 <= i < |log| => log[i].id) }

  lemma {:induction false} AheadOf(log: seq<Run>, rest: seq<Command>)
    ensures Ahead(Finished(log) + rest) == Ids(log) + Ahead(rest)
    decreases |log|
  {
    if log == [] {
      assert Finished(log) + rest == rest && Ids(log) + Ahead(rest) == Ahead(rest);
    } else {
      var cs := Finished(log) + rest;
      assert cs[1..] == Finished(log[1..]) + rest;
      assert Ids(log) == [log[0].id] + Ids(log[1..]);
      AheadOf(log[1..], rest);
    }
  }

  lemma AcceptedSplit(s: State)
    requires Channel(s) && Working(s)
    ensures s.accepted == Finished(s.log) + (InHand(s.worker) + s.accepted[|s.received|..])
  {
    assert s.accepted == s.received + s.accepted[|s.received|..];
  }

  ghost predicate Drained(s: State) {
    && Ids(s.log) <= Ahead(s.accepted)
    && (forall i, j :: 0 <= i < j < |s.log| ==> s.log[i].id != s.log[j].id)
    && (s.worker == Leaving || s.worker == Exited ==> Ids(s.log) == Ahead(s.accepted))
    && (s.owner == Returned(true) ==> s.worker == Exited)
    && (s.owner == Returned(false) ==> s.worker.Panicked?)
  }

  lemma LogIsAhead(s: State)
    requires Channel(s) && Working(s)
    ensures Ids(s.log) <= Ahead(s.accepted)
    ensures s.worker == Leaving || s.worker == Exited ==> Ids(s.log) == Ahead(s.accepted)
  {
    var rest := InHand(s.worker) + s.accepted[|s.received|..];
    AcceptedSplit(s);
    AheadOf(s.log, rest);
    assert s.worker == Leaving || s.worker == Exited ==> rest[0] == Shutdown;
  }

  lemma InvDrains(s: State)
    requires Inv(s)
    ensures Drained(s)
  {
    LogIsAhead(s);
    Positions(s);
    forall i, j | 0 <= i < j < |s.log| ensures s.log[i].id != s.log[j].id {
      assert s.accepted[i] != s.accepted[j];
    }
  }

  /** In every run the finished memory moves are, in order, an initial part of the requests
      enqueued ahead of Shutdown, each of them once. The worker stops without a panic, and
      `shutdown` returns Ok, only when all of those have run. */
  lemma DrainThenStop(run: seq<Step>)
    requires Legal(run)
    ensures Drained(Exec(run))
  {
    RunInv(run);
    InvDrains(Exec(run));
  }

  ghost predicate NeverRun(s: State, id: nat) {
    && id !in Ids(s.log)
    && s.worker != Executing(id)
    && id in s.calls
    && (s.calls[id].Resolved? ==> s.calls[id].outcome == OwnerShutdown)
  }

  // Nothing behind Shutdown has been received.
  lemma NotReceived(s: State, i: nat, j: nat)
    requires Inv(s) && i < j < |s.accepted| && s.accepted[i] == Shutdown
    ensures j >= |s.received| && j > |s.log|
  {
    Positions(s);
  }

  lemma NotLogged(s: State, id: nat, j: nat)
    requires Channel(s) && Working(s) && |s.log| < j < |s.accepted| && s.accepted[j] == Memmove(id)
    ensures id !in Ids(s.log) && s.worker != Executing(id)
  {
    Positions(s);
    forall k | 0 <= k < |s.log| ensures Ids(s.log)[k] != id { assert s.accepted[k] != s.accepted[j]; }
    assert s.accepted[|s.log|] != s.accepted[j];
  }

  lemma InvNeverRuns(s: State, id: nat)
    requires Inv(s) && Behind(s.accepted, id)
    ensures NeverRun(s, id)
  {
    var i, j :| 0 <= i < j < |s.accepted| && s.accepted[i] == Shutdown && s.accepted[j] == Memmove(id);
    NotReceived(s, i, j);
    NotLogged(s, id, j);
    assert s.accepted[j].Memmove?;
    assert CallOk(s, id, s.calls[id]);
  }

  /** A request that races in behind Shutdown never executes, in any run, and can only
      resolve to owner_shutdown. */
  lemma BehindNeverRuns(run: seq<Step>, id: nat)
    requires Legal(run) && Behind(Exec(run).accepted, id)
    ensures NeverRun(Exec(run), id)
  {
    RunInv(run);
    InvNeverRuns(Exec(run), id);
  }

  // ---------------------------------------------------------------- answers

  lemma LoggedReply(s: State, id: nat)
    requires Inv(s) && id in Ids(s.log)
    ensures id in s.replies && s.replies[id].Sent?
  {
    Positions(s);
    var k :| 0 <= k < |s.log| && s.log[k].id == id;
    assert s.accepted[k] == Memmove(id);
  }

  lemma SentIsLogged(s: State, id: nat)
    requires Inv(s) && id in s.replies && s.replies[id].Sent?
    ensures Run(id, s.replies[id].result) in s.log && id in Ids(s.log)
  {
    Positions(s);
    var i := AcceptedPosition(s, id);
    assert Ids(s.log)[i] == id && s.log[i] == Run(id, s.replies[id].result);
  }

  ghost predicate Explained(s: State, id: nat, o: Outcome) {
    match o
    case Done(r) => Run(id, r) in s.log
    case OwnerShutdown => s.lifecycle >= SHUTDOWN_REQUESTED && id !in Ids(s.log)
    case RequestChannelClosed => WorkerPanicked(s) && Memmove(id) !in s.accepted
    case ResponseChannelClosed => WorkerPanicked(s) && Memmove(id) in s.accepted && id !in Ids(s.log)
  }

  lemma InvExplains(s: State, id: nat)
    requires Inv(s) && id in s.calls && s.calls[id].Resolved?
    ensures Explained(s, id, s.calls[id].outcome)
  {
    if id in Ids(s.log) { LoggedReply(s, id); }
    if id in s.replies && s.replies[id].Sent? { SentIsLogged(s, id); }
    if id !in s.replies { NotAcceptedYet(s, id); }
  }

  /** Every answered call has the result of its own, single execution; an answer that the
      channel closed is given only after the worker panicked, so never in a run that ends by
      owner shutdown. */
  lemma AnswersAreOwn(run: seq<Step>, id: nat)
    requires Legal(run) && id in Exec(run).calls && Exec(run).calls[id].Resolved?
    ensures Explained(Exec(run), id, Exec(run).calls[id].outcome)
  {
    RunInv(run);
    InvExplains(Exec(run), id);
  }

  ghost predicate Answered(s: State, id: nat) {
    id in s.replies && s.replies[id] != Waiting && (s.replies[id].Sent? <==> id in Ids(s.log))
  }

  /** Once the worker has dropped its receiver, every request it accepted is answered: the
      await of each is over. */
  lemma NobodyHangs(run: seq<Step>, id: nat)
    requires Legal(run) && !ReceiverAlive(Exec(run)) && Memmove(id) in Exec(run).accepted
    ensures Answered(Exec(run), id)
  {
    RunInv(run);
    var s := Exec(run);
    Positions(s);
    var i :| 0 <= i < |s.accepted| && s.accepted[i] == Memmove(id);
    assert s.replies[id] == ReplyAt(s, i);
    if s.replies[id].Sent? { SentIsLogged(s, id); }
    if id in Ids(s.log) { LoggedReply(s, id); }
  }

  // ---------------------------------------------------------------- what the steps alone tell

  // The results the worker computed, in order.
  function Results(run: seq<Step>): seq<Result> {
    if run == [] then []
    else Results(run[..|run| - 1]) + if run[|run| - 1].Finish? then [run[|run| - 1].result] else []
  }

  // What was sent while the receiver existed, in order.
  function SentIn(run: seq<Step>): seq<Command> {
    if run == [] then []
    else
      var before, step := run[..|run| - 1], run[|run| - 1];
      SentIn(before) +
      if DropReceiver in before then []
      else if step.Send? then [Memmove(step.id)]
      else if step.SendShutdown? then [Shutdown]
      else []
  }

  lemma InLast(run: seq<Step>, step: Step)
    requires run != []
    ensures step in run <==> step in run[..|run| - 1] || step == run[|run| - 1]
  {
    assert run == run[..|run| - 1] + [run[|run| - 1]];
  }

  lemma StepSeen(s: State, step: Step)
    requires Lifecycle(s) && Enabled(s, step)
    ensures ShutdownSeen(Apply(s, step)) <==> ShutdownSeen(s) || step == MarkRequested
  {
  }

  lemma StepWorker(s: State, step: Step)
    requires Enabled(s, step)
    ensures ReceiverAlive(Apply(s, step)) <==> ReceiverAlive(s) && step != DropReceiver
    ensures WorkerPanicked(Apply(s, step)) <==> WorkerPanicked(s) || step == Panic
  {
  }

  /** In every run, a shutdown was requested, the receiver is gone and the worker panicked
      exactly if there was a step to that effect. */
  lemma {:induction false} StepsTell(run: seq<Step>)
    requires Legal(run)
    ensures ShutdownSeen(Exec(run)) <==> MarkRequested in run
    ensures ReceiverAlive(Exec(run)) <==> DropReceiver !in run
    ensures WorkerPanicked(Exec(run)) <==> Panic in run
    decreases |run|
  {
    if run != [] {
      var before, step := run[..|run| - 1], run[|run| - 1];
      StepsTell(before);
      RunInv(before);
      StepSeen(Exec(before), step);
      StepWorker(Exec(before), step);
      InLast(run, MarkRequested);
      InLast(run, DropReceiver);
      InLast(run, Panic);
    }
  }

  lemma StepHistory(s: State, step: Step)
    requires Enabled(s, step)
    ensures var t := Apply(s, step);
            && t.accepted == s.accepted + (if !ReceiverAlive(s) then [] else if step.Send? then [Memmove(step.id)]
                                           else if step.SendShutdown? then [Shutdown] else [])
            && |t.log| == |s.log| + (if step.Finish? then 1 else 0) && t.log[..|s.log|] == s.log
            && (step.Finish? ==> t.log[|s.log|].result == step.result)
  {
  }

  /** In every run the accepted commands are those sent before the receiver was dropped, and
      the k-th of them, if it has run, gave the k-th result. */
  lemma {:induction false} HistoryIs(run: seq<Step>)
    requires Legal(run)
    ensures Exec(run).accepted == SentIn(run)
    ensures |Exec(run).log| == |Results(run)|
    ensures forall k :: 0 <= k < |Results(run)| ==> Exec(run).log[k].result == Results(run)[k]
    decreases |run|
  {
    if run != [] {
      var before := run[..|run| - 1];
      HistoryIs(before);
      StepsTell(before);
      StepHistory(Exec(before), run[|run| - 1]);
    }
  }

  // The request was the k-th to be sent and the worker computed its result.
  ghost predicate RanAs(run: seq<Step>, id: nat, k: nat) {
    k < |SentIn(run)| && SentIn(run)[k] == Memmove(id) && k < |Results(run)|
  }

  lemma DoneAt(s: State, id: nat, k: nat)
    requires Inv(s) && id in s.calls && s.calls[id].Resolved?
    requires k < |s.log| && k < |s.accepted| && s.accepted[k] == Memmove(id)
    ensures s.calls[id].outcome == Done(s.log[k].result)
  {
    assert s.replies[id] == ReplyAt(s, k);
    assert CallOk(s, id, s.calls[id]);
  }

  lemma RanSomewhere(s: State, id: nat) returns (k: nat)
    requires Inv(s) && id in s.calls && s.calls[id].Resolved? && s.calls[id].outcome.Done?
    ensures k < |s.log| && k < |s.accepted| && s.accepted[k] == Memmove(id)
  {
    Positions(s);
    assert CallOk(s, id, s.calls[id]);
    k := AcceptedPosition(s, id);
  }

  /** In every run, a call that has been answered got a result if and only if its request was
      executed, and then the k-th result the worker computed, for the k-th request sent. */
  lemma AnswerIsResult(run: seq<Step>, id: nat)
    requires Legal(run) && id in Exec(run).calls && Exec(run).calls[id].Resolved?
    ensures forall k: nat :: RanAs(run, id, k) ==> Exec(run).calls[id].outcome == Done(Results(run)[k])
    ensures Exec(run).calls[id].outcome.Done? ==> exists k: nat :: RanAs(run, id, k)
  {
    RunInv(run);
    HistoryIs(run);
    forall k: nat | RanAs(run, id, k) ensures Exec(run).calls[id].outcome == Done(Results(run)[k]) {
      DoneAt(Exec(run), id, k);
    }
    if Exec(run).calls[id].outcome.Done? {
      var k := RanSomewhere(Exec(run), id);
      assert RanAs(run, id, k);
    }
  }

  /** A call that fails is blamed on the owner if and only if a shutdown was requested before
      the call looked, and on the closed channel otherwise; and a call that starts then is
      turned away at once. */
  lemma BlameIs(run: seq<Step>, step: Step, id: nat)
    requires Legal(run) && Legal(run + [step]) && step in {Check(id), ClassifySend(id), ClassifyReply(id)}
    ensures id in Exec(run + [step]).calls
    ensures MarkRequested in run ==> Exec(run + [step]).calls[id] == Resolved(OwnerShutdown)
    ensures MarkRequested !in run ==>
              Exec(run + [step]).calls[id] == if step.Check? then Checked
                                              else if step.ClassifySend? then Resolved(RequestChannelClosed)
                                              else Resolved(ResponseChannelClosed)
  {
    assert (run + [step])[..|run|] == run;
    StepsTell(run);
  }

  lemma Extended(run: seq<Step>, step: Step)
    requires Legal(run) && Enabled(Exec(run), step)
    ensures Legal(run + [step]) && Exec(run + [step]) == Apply(Exec(run), step)
  {
    assert (run + [step])[..|run + [step]| - 1] == run;
  }

  // What the answer is when it is given: the worker's result for this request, or the blame
  // as it stands then.
  ghost predicate JustAnswered(run: seq<Step>, id: nat, o: Outcome) {
    && (o.Done? <==> exists k: nat :: RanAs(run, id, k))
    && (forall k: nat :: RanAs(run, id, k) ==> o == Done(Results(run)[k]))
    && (!o.Done? ==> (o == OwnerShutdown <==> MarkRequested in run))
  }

  lemma BlamedNow(run: seq<Step>, step: Step, id: nat)
    requires Legal(run) && Legal(run + [step]) && Caller(step) == {id} && !IsResolved(Exec(run), id) && IsResolved(Exec(run + [step]), id)
    ensures var o := Exec(run + [step]).calls[id].outcome;
            !o.Done? ==> (o == OwnerShutdown <==> MarkRequested in run + [step])
  {
    assert (run + [step])[..|run|] == run;
    InLast(run + [step], MarkRequested);
    if step in {Check(id), ClassifySend(id), ClassifyReply(id)} { BlameIs(run, step, id); }
  }

  predicate IsResolved(s: State, id: nat) { id in s.calls && s.calls[id].Resolved? }

  lemma AnsweredNow(run: seq<Step>, step: Step, id: nat)
    requires Legal(run) && Legal(run + [step]) && Caller(step) == {id} && !IsResolved(Exec(run), id) && IsResolved(Exec(run + [step]), id)
    ensures JustAnswered(run + [step], id, Exec(run + [step]).calls[id].outcome)
    ensures Explained(Exec(run + [step]), id, Exec(run + [step]).calls[id].outcome)
  {
    BlamedNow(run, step, id);
    AnswerIsResult(run + [step], id);
    AnswersAreOwn(run + [step], id);
  }

  /** An idle session answers: from every run that leaves the worker idle, with nothing queued
      and no shutdown requested, a new call can go through and return whatever the worker
      computes for it. */
  lemma IdleSessionAnswers(run: seq<Step>, id: nat, result: Result)
    requires Legal(run) && Exec(run).worker == Idle && Exec(run).queue == [] && MarkRequested !in run && id !in Exec(run).calls
    ensures var longer := run + [Check(id)] + [Send(id)] + [Take] + [Finish(result)] + [Await(id)];
            Legal(longer) && IsCall(Exec(longer), id, Resolved(Done(result)))
  {
    StepsTell(run);
    Extended(run, Check(id));
    Extended(run + [Check(id)], Send(id));
    Extended(run + [Check(id)] + [Send(id)], Take);
    Extended(run + [Check(id)] + [Send(id)] + [Take], Finish(result));
    Extended(run + [Check(id)] + [Send(id)] + [Take] + [Finish(result)], Await(id));
  }

  // ---------------------------------------------------------------- nothing is taken back

  ghost predicate Grows(s: State, t: State) {
    && s.lifecycle <= t.lifecycle
    && s.accepted <= t.accepted
    && s.log <= t.log
    && (WorkerPanicked(s) ==> WorkerPanicked(t))
    && (forall id :: id in s.calls ==> id in t.calls && (s.calls[id].Resolved? ==> t.calls[id] == s.calls[id]))
  }

  lemma LifecycleGrows(s: State, step: Step)
    requires Lifecycle(s) && Enabled(s, step)
    ensures s.lifecycle <= Apply(s, step).lifecycle
  {
  }

  lemma CallsGrow(s: State, step: Step)
    requires Enabled(s, step)
    ensures var t := Apply(s, step);
            forall id :: id in s.calls ==> id in t.calls && (s.calls[id].Resolved? ==> t.calls[id] == s.calls[id])
  {
  }

  lemma StepGrows(s: State, step: Step)
    requires Inv(s) && Enabled(s, step)
    ensures Grows(s, Apply(s, step))
  {
    LifecycleGrows(s, step);
    CallsGrow(s, step);
    StepWorker(s, step);
    StepHistory(s, step);
  }

  /** However a run continues, also through a failed join and the drop that repeats the
      shutdown: the lifecycle never moves back, accepted requests and finished moves stay,
      in order, and an answered call keeps its answer. */
  lemma {:induction false} NothingTakenBack(run: seq<Step>, more: seq<Step>)
    requires Legal(run) && Legal(run + more)
    ensures Grows(Exec(run), Exec(run + more))
    decreases |more|
  {
    if more == [] {
      assert run + more == run;
    } else {
      var fewer := more[..|more| - 1];
      assert (run + more)[..|run + more| - 1] == run + fewer;
      NothingTakenBack(run, fewer);
      RunInv(run + fewer);
      StepGrows(Exec(run + fewer), more[|more| - 1]);
    }
  }

  // ---------------------------------------------------------------- the session and its handle

  datatype ShutdownResult = Stopped | PanickedWorker | StillJoining

  datatype Option<T> = None | Some(value: T)

  predicate OwnersStep(step: Step) {
    step.MarkRequested? || step.SendShutdown? || step.Join? || step.MarkComplete? || step.DropSession?
  }

  predicate SameCall(s: State, t: State, id: nat) {
    (id in t.calls <==> id in s.calls) && (id in s.calls ==> t.calls[id] == s.calls[id])
  }

  // A call in progress is moved on only by its own steps, the owner only by the owner's.
  lemma OthersLeaveAlone(s: State, step: Step, id: nat)
    requires Enabled(s, step) && id !in Caller(step)
    ensures SameCall(s, Apply(s, step), id)
  {
  }

  lemma OthersLeaveOwner(s: State, step: Step)
    requires Enabled(s, step) && !OwnersStep(step)
    ensures Apply(s, step).owner == s.owner && Apply(s, step).lifecycle == s.lifecycle
  {
  }

  lemma ReplyExists(run: seq<Step>, id: nat)
    requires Legal(run) && IsCall(Exec(run), id, Enqueued)
    ensures id in Exec(run).replies
  {
    RunInv(run);
    assert CallOk(Exec(run), id, Enqueued);
  }

  lemma OwnerFacts(run: seq<Step>)
    requires Legal(run)
    ensures Lifecycle(Exec(run))
  {
    RunInv(run);
  }

  /** The session with everything it shares. Between any two actions of a method the other
      parties may act: their steps are the method's extra arguments. */
  class AsyncDsaSession {
    var state: State
    var workerThread: bool
    ghost var run: seq<Step>

    ghost predicate Valid()
      reads this
    {
      && Legal(run) && state == Exec(run)
      && (workerThread <==> state.owner == Open || state.owner == Requested || state.owner == Joining)
    }

    constructor ()
      ensures Valid() && run == [] && state == INITIAL && workerThread
    {
      state, workerThread, run := INITIAL, true, [];
    }

    // One action; the thread handle is given up by the join.
    method Do(step: Step)
      requires Valid() && Enabled(state, step)
      modifies this
      ensures Valid() && run == old(run) + [step] && state == Apply(old(state), step)
      ensures workerThread == (old(workerThread) && step != Join)
    {
      Extended(run, step);
      state := Apply(state, step);
      workerThread := workerThread && step != Join;
      run := run + [step];
    }

    // Whatever the others do while the owner is in a shutdown of its own.
    method Others(steps: seq<Step>)
      requires Valid()
      modifies this
      ensures Valid() && old(run) <= run
      ensures state.owner == old(state.owner) && state.lifecycle == old(state.lifecycle)
    {
      for i := 0 to |steps|
        invariant Valid() && old(run) <= run
        invariant state.owner == old(state.owner) && state.lifecycle == old(state.lifecycle)
      {
        if Enabled(state, steps[i]) && !OwnersStep(steps[i]) {
          OthersLeaveOwner(state, steps[i]);
          Do(steps[i]);
        }
      }
    }

    // Whatever everybody else does while a call is in progress, the owner included.
    method Meanwhile(steps: seq<Step>, own: nat)
      requires Valid()
      modifies this
      ensures Valid() && old(run) <= run && SameCall(old(state), state, own)
    {
      for i := 0 to |steps|
        invariant Valid() && old(run) <= run && SameCall(old(state), state, own)
      {
        if Enabled(state, steps[i]) && own !in Caller(steps[i]) {
          OthersLeaveAlone(state, steps[i], own);
          Do(steps[i]);
        }
      }
    }

    /** `shutdown_inner`, also as the drop of the session repeats it. StillJoining means that
        the worker has not stopped when the given steps end. */
    method ShutdownInner(beforeSend: seq<Step>, beforeJoin: seq<Step>, beforeMark: seq<Step>) returns (r: ShutdownResult)
      requires Valid() && (state.owner == Open || state.owner.Returned?)
      modifies this
      ensures Valid() && old(run) <= run && old(state.lifecycle) <= state.lifecycle
      ensures r == Stopped ==> state.lifecycle == SHUTDOWN_COMPLETE && !workerThread
      ensures r == Stopped && old(workerThread) ==> state.worker == Exited && Ids(state.log) == Ahead(state.accepted)
      ensures r == PanickedWorker ==> state.worker.Panicked? && !workerThread && state.owner == Returned(false)
      ensures r == StillJoining ==> ReceiverAlive(state) && workerThread
      ensures !old(workerThread) ==> r == Stopped
    {
      OwnerFacts(run);
      if !workerThread {
        Do(DropSession);
        return Stopped;
      }
      Do(MarkRequested);
      Others(beforeSend);
      Do(SendShutdown);
      Others(beforeJoin);
      if ReceiverAlive(state) {
        return StillJoining;
      }
      r := JoinWorker(beforeMark);
    }

    // The worker has stopped: take its result and, unless it panicked, mark completion.
    method JoinWorker(beforeMark: seq<Step>) returns (r: ShutdownResult)
      requires Valid() && state.owner == Joining && !ReceiverAlive(state)
      modifies this
      ensures Valid() && old(run) <= run && old(state.lifecycle) <= state.lifecycle && !workerThread
      ensures r == Stopped ==> state.lifecycle == SHUTDOWN_COMPLETE && state.worker == Exited && Ids(state.log) == Ahead(state.accepted)
      ensures r == PanickedWorker ==> state.worker.Panicked? && state.owner == Returned(false)
      ensures r != StillJoining
    {
      OwnerFacts(run);
      Do(Join);
      if state.owner == Returned(false) {
        return PanickedWorker;
      }
      Others(beforeMark);
      Do(MarkComplete);
      DrainThenStop(run);
      r := Stopped;
    }

    /** `memmove` through a handle, with any steps of the worker, of other calls and of the
        owner between its own: a shutdown may come between the lifecycle test and the send.
        None means that the reply is still outstanding when the given steps end. */
    method Memmove(id: nat, beforeSend: seq<Step>, beforeReply: seq<Step>, beforeClassify: seq<Step>) returns (r: Option<Outcome>)
      requires Valid() && id !in state.calls
      modifies this
      ensures Valid() && old(run) <= run
      ensures r.Some? ==> IsCall(state, id, Resolved(r.value)) && Explained(state, id, r.value) && JustAnswered(run, id, r.value)
      ensures r.None? ==> IsCall(state, id, Enqueued) && id in state.replies && state.replies[id] == Waiting
      ensures ShutdownSeen(old(state)) ==> r == Some(OwnerShutdown) && state.accepted == old(state.accepted)
    {
      ghost var start := run;
      Do(Check(id));
      if state.calls[id].Resolved? {
        AnsweredNow(start, Check(id), id);
        return Some(OwnerShutdown);
      }
      Meanwhile(beforeSend, id);
      Do(Send(id));
      if state.calls[id] == Refused {
        r := BlameRefusal(id, beforeReply);
      } else {
        Meanwhile(beforeReply, id);
        r := AwaitReply(id, beforeClassify);
      }
    }

    method BlameRefusal(id: nat, beforeClassify: seq<Step>) returns (r: Option<Outcome>)
      requires Valid() && IsCall(state, id, Refused)
      modifies this
      ensures Valid() && old(run) <= run && r.Some?
      ensures IsCall(state, id, Resolved(r.value)) && Explained(state, id, r.value) && JustAnswered(run, id, r.value)
    {
      Meanwhile(beforeClassify, id);
      ghost var before := run;
      Do(ClassifySend(id));
      AnsweredNow(before, ClassifySend(id), id);
      r := Some(state.calls[id].outcome);
    }

    method AwaitReply(id: nat, beforeClassify: seq<Step>) returns (r: Option<Outcome>)
      requires Valid() && IsCall(state, id, Enqueued)
      modifies this
      ensures Valid() && old(run) <= run
      ensures r.Some? ==> IsCall(state, id, Resolved(r.value)) && Explained(state, id, r.value) && JustAnswered(run, id, r.value)
      ensures r.None? ==> IsCall(state, id, Enqueued) && id in state.replies && state.replies[id] == Waiting
    {
      ReplyExists(run, id);
      if state.replies[id] == Waiting {
        return None;
      }
      ghost var before := run;
      Do(Await(id));
      if state.calls[id] == Unanswered {
        Meanwhile(beforeClassify, id);
        before := run;
        Do(ClassifyReply(id));
        AnsweredNow(before, ClassifyReply(id), id);
      } else {
        AnsweredNow(before, Await(id), id);
      }
      r := Some(state.calls[id].outcome);
    }
  }
}
