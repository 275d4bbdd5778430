/**
 The synchronous copy of `dsa-ffi`: request validation, the interpretation of completion
 records, and the loop that continues a copy after page faults.

 The device is an argument: one answer per descriptor that may be issued, saying what its
 completion record holds and what it does to memory. An honest answer copies what it
 claims; the bytes it does not claim, and every byte of a dishonest answer, are arbitrary.
 */
module Memmove {
  type Byte = bv8

  const MAX_MEMMOVE_BYTES: nat := 0xFFFF_FFFF
  const COMPLETION_TIMEOUT_STATUS: nat := 0xFF
  const DSA_COMP_SUCCESS: nat := 1
  const DSA_COMP_PAGE_FAULT_NOBOF: nat := 3

  datatype Result<+T, +E> = Ok(value: T) | Err(error: E)

  datatype Detail = NoFaultAddress | BadDirection | TooManyBytes

  datatype MemmoveError =
    | InvalidLength(requestedLen: nat)
    | DestinationTooSmall(srcLen: nat, dstLen: nat)
    | CompletionTimeout(retries: nat)
    | MalformedCompletion(snapshot: Snapshot, retries: nat, detail: Detail)
    | PageFaultRetryExhausted(retries: nat, bytesCompleted: nat, faultAddr: nat)
    | CompletionStatus(status: nat, bytesCompleted: nat, faultAddr: nat, retries: nat)
    | ByteMismatch(requestedBytes: nat, offset: nat, finalStatus: nat, retries: nat)

  // A completion record as polled: its status, masked, or the timeout value.
  datatype Snapshot = Snapshot(status: nat, result: nat, bytesCompleted: nat, faultAddr: nat)

  datatype Action = Success | Retry(offset: nat, remaining: nat)

  datatype Report = Report(requestedBytes: nat, pageFaultRetries: nat, finalStatus: nat)

  // MemmoveRequest::for_buffers
  function ForBuffers(dstLen: nat, srcLen: nat): (r: Result<nat, MemmoveError>)
    ensures r.Ok? <==> 1 <= srcLen <= MAX_MEMMOVE_BYTES && srcLen <= dstLen
    ensures r.Ok? ==> r.value == srcLen
    ensures r == Err(InvalidLength(srcLen)) <==> !(1 <= srcLen <= MAX_MEMMOVE_BYTES)
    ensures r == Err(DestinationTooSmall(srcLen, dstLen)) <==> 1 <= srcLen <= MAX_MEMMOVE_BYTES && dstLen < srcLen
  {
    if srcLen == 0 || srcLen > MAX_MEMMOVE_BYTES then Err(InvalidLength(srcLen))
    else if dstLen < srcLen then Err(DestinationTooSmall(srcLen, dstLen))
    else Ok(srcLen)
  }

  /** classify_memmove_completion. A retry moves source and destination by the same offset,
      so one number stands for both. */
  function Classify(maxRetries: nat, remaining: nat, s: Snapshot, retries: nat): Result<Action, MemmoveError> {
    if s.status == COMPLETION_TIMEOUT_STATUS then Err(CompletionTimeout(retries))
    else if s.status == DSA_COMP_SUCCESS then Ok(Success)
    else if s.status == DSA_COMP_PAGE_FAULT_NOBOF then
      if s.faultAddr == 0 then Err(MalformedCompletion(s, retries, NoFaultAddress))
      else if s.result > 1 then Err(MalformedCompletion(s, retries, BadDirection))
      else if s.bytesCompleted > remaining then Err(MalformedCompletion(s, retries, TooManyBytes))
      else if retries >= maxRetries then Err(PageFaultRetryExhausted(retries, s.bytesCompleted, s.faultAddr))
      else Ok(Retry(if s.result == 0 then s.bytesCompleted else 0, remaining - s.bytesCompleted))
    else Err(CompletionStatus(s.status % 0x80, s.bytesCompleted, s.faultAddr, retries))
  }

  // ---------------------------------------------------------------- the device

  datatype Answer = Answer(snapshot: Snapshot, honest: bool, junk: nat -> Byte)

  // Byte k of a window of len bytes was copied before the device stopped: all of them on
  // success; on a fault the first ones, or the last ones when it worked backwards.
  predicate Copied(a: Answer, len: nat, k: nat) {
    var s := a.snapshot;
    && a.honest
    && (|| s.status == DSA_COMP_SUCCESS
        || (s.status == DSA_COMP_PAGE_FAULT_NOBOF && s.result == 0 && k < s.bytesCompleted)
        || (s.status == DSA_COMP_PAGE_FAULT_NOBOF && s.result == 1 && k + s.bytesCompleted >= len))
  }

  /** The window a retry asks for is exactly what an honest device has not copied, whatever
      direction it worked in; and the copied bytes and the remaining ones add up. */
  lemma RetryIsTheRest(maxRetries: nat, remaining: nat, a: Answer, retries: nat, k: nat)
    requires a.honest && k < remaining
    requires Classify(maxRetries, remaining, a.snapshot, retries).Ok?
    requires Classify(maxRetries, remaining, a.snapshot, retries).value.Retry?
    ensures var r := Classify(maxRetries, remaining, a.snapshot, retries).value;
            && retries < maxRetries
            && r.remaining + a.snapshot.bytesCompleted == remaining && r.offset + r.remaining <= remaining
            && (Copied(a, remaining, k) <==> !(r.offset <= k < r.offset + r.remaining))
  {
  }

  // The device carries out one descriptor on the window [off, off + len).
  method Execute(dst: array<Byte>, src: array<Byte>, off: nat, len: nat, a: Answer)
    requires dst != src && off + len <= dst.Length && off + len <= src.Length
    modifies dst
    ensures forall i :: 0 <= i < dst.Length && !(off <= i < off + len) ==> dst[i] == old(dst[i])
    ensures forall i :: off <= i < off + len && Copied(a, len, i - off) ==> dst[i] == src[i]
  {
    forall i | off <= i < off + len {
      dst[i] := if Copied(a, len, i - off) then src[i] else a.junk(i);
    }
  }

  // ---------------------------------------------------------------- the retry loop

  ghost predicate AllHonest(device: seq<Answer>) {
    forall i :: 0 <= i < |device| ==> device[i].honest
  }

  // The bytes reported as completed by all of these answers.
  function Progress(answers: seq<Answer>): nat {
    if answers == [] then 0
    else Progress(answers[..|answers| - 1]) + answers[|answers| - 1].snapshot.bytesCompleted
  }

  // Outside the window [off, off + len) everything requested has been copied.
  ghost predicate CopiedOutside(dst: array<Byte>, src: array<Byte>, requested: nat, off: nat, len: nat)
    requires requested <= src.Length && requested <= dst.Length
    reads dst, src
  {
    forall i :: 0 <= i < requested && !(off <= i < off + len) ==> dst[i] == src[i]
  }

  lemma HonestSoFar(device: seq<Answer>, n: nat)
    requires n < |device|
    ensures AllHonest(device[..n + 1]) ==> AllHonest(device[..n]) && device[n].honest
    ensures Progress(device[..n + 1]) == Progress(device[..n]) + device[n].snapshot.bytesCompleted
  {
    assert device[..n + 1][..n] == device[..n] && device[..n + 1][n] == device[n];
    if AllHonest(device[..n + 1]) {
      forall i | 0 <= i < n ensures device[..n][i].honest { assert device[..n + 1][i].honest; }
    }
  }

  // A page fault that can be continued when `left` bytes were asked for.
  predicate Continuable(a: Answer, left: int) {
    var s := a.snapshot;
    s.status == DSA_COMP_PAGE_FAULT_NOBOF && s.faultAddr != 0 && s.result <= 1 && s.bytesCompleted <= left
  }

  // Nothing but such faults, each with what the earlier ones had left of the request.
  predicate Faults(requested: nat, answers: seq<Answer>) {
    answers == [] ||
    var before := answers[..|answers| - 1];
    Faults(requested, before) && Continuable(answers[|answers| - 1], requested - Progress(before))
  }

  lemma FaultsSoFar(requested: nat, device: seq<Answer>, n: nat)
    requires n < |device|
    ensures Faults(requested, device[..n + 1]) <==> Faults(requested, device[..n]) && Continuable(device[n], requested - Progress(device[..n]))
  {
    assert device[..n + 1][..n] == device[..n] && device[..n + 1][n] == device[n];
  }

  lemma {:induction false} FaultAt(requested: nat, device: seq<Answer>, n: nat, i: nat)
    requires i < n <= |device| && Faults(requested, device[..n])
    ensures Continuable(device[i], requested - Progress(device[..i]))
    decreases n
  {
    FaultsSoFar(requested, device, n - 1);
    if i < n - 1 { FaultAt(requested, device, n - 1, i); }
  }

  // Faults to continue after, i of them, and then a success.
  predicate SucceedsAfter(requested: nat, device: seq<Answer>, i: nat)
    requires i < |device|
  {
    Faults(requested, device[..i]) && device[i].snapshot.status == DSA_COMP_SUCCESS
  }

  // How the copy ends when the issued-th answer is the last one looked at.
  ghost predicate Ends(requested: nat, maxRetries: nat, device: seq<Answer>, issued: nat, r: Result<Report, MemmoveError>)
    requires 1 <= issued <= |device|
  {
    var last, s := device[issued - 1], device[issued - 1].snapshot;
    var left := requested - Progress(device[..issued - 1]);
    && Faults(requested, device[..issued - 1])
    && (r == Ok(Report(requested, issued - 1, DSA_COMP_SUCCESS)) <==> s.status == DSA_COMP_SUCCESS)
    && (r == Err(CompletionTimeout(issued - 1)) <==> s.status == COMPLETION_TIMEOUT_STATUS)
    && (r == Err(CompletionStatus(s.status % 0x80, s.bytesCompleted, s.faultAddr, issued - 1)) <==>
        s.status !in {DSA_COMP_SUCCESS, DSA_COMP_PAGE_FAULT_NOBOF, COMPLETION_TIMEOUT_STATUS})
    && (r == Err(PageFaultRetryExhausted(issued - 1, s.bytesCompleted, s.faultAddr)) <==> Continuable(last, left))
    && (Continuable(last, left) ==> issued == maxRetries + 1)
    && var why := if s.faultAddr == 0 then NoFaultAddress else if s.result > 1 then BadDirection else TooManyBytes;
       (r == Err(MalformedCompletion(s, issued - 1, why)) <==> s.status == DSA_COMP_PAGE_FAULT_NOBOF && !Continuable(last, left))
  }

  lemma EndsHere(requested: nat, maxRetries: nat, device: seq<Answer>, retries: nat, left: nat)
    requires retries <= maxRetries < |device| && Faults(requested, device[..retries]) && Progress(device[..retries]) + left == requested
    ensures var s := device[retries].snapshot;
            match Classify(maxRetries, left, s, retries)
            case Err(e) => Ends(requested, maxRetries, device, retries + 1, Err(e)) && s.status != DSA_COMP_SUCCESS
            case Ok(Success) => Ends(requested, maxRetries, device, retries + 1, Ok(Report(requested, retries, s.status))) && s.status == DSA_COMP_SUCCESS
            case Ok(Retry(_, _)) => Continuable(device[retries], left)
  {
  }

  /** The copy stops at the first answer that is not a fault to continue after: when `i` such
      faults precede an answer of another kind, or the retries end there, it is the last. */
  lemma StopsThere(requested: nat, maxRetries: nat, device: seq<Answer>, issued: nat, r: Result<Report, MemmoveError>, i: nat)
    requires |device| == maxRetries + 1 && 1 <= issued <= |device| && Ends(requested, maxRetries, device, issued, r)
    requires i <= maxRetries && Faults(requested, device[..i])
    requires i == maxRetries || !Continuable(device[i], requested - Progress(device[..i]))
    ensures issued == i + 1
  {
    if issued - 1 < i {
      FaultAt(requested, device, i, issued - 1);
    } else if i < issued - 1 {
      FaultAt(requested, device, issued - 1, i);
    }
  }

  /** memmove_inner: issues at most maxRetries + 1 descriptors, and ends at the first answer
      that is not a page fault to continue after. However it ends, the bytes reported before
      the last descriptor and the window [off, off + len) of that descriptor make up the
      request, and what an honest device was done with is in place; on success that is the
      whole request. Bytes behind the request are never touched. */
  method MemmoveInner(dst: array<Byte>, src: array<Byte>, requested: nat, maxRetries: nat, device: seq<Answer>)
    returns (r: Result<Report, MemmoveError>, issued: nat, ghost off: nat, ghost len: nat)
    requires dst != src && requested <= src.Length && requested <= dst.Length && |device| == maxRetries + 1
    modifies dst
    ensures 1 <= issued <= maxRetries + 1
    ensures forall i :: requested <= i < dst.Length ==> dst[i] == old(dst[i])
    ensures off + len <= requested && Progress(device[..issued - 1]) + len == requested
    ensures AllHonest(device[..issued - 1]) ==> CopiedOutside(dst, src, requested, off, len)
    ensures Ends(requested, maxRetries, device, issued, r)
    ensures r.Ok? <==> device[issued - 1].snapshot.status == DSA_COMP_SUCCESS
    ensures r.Ok? && AllHonest(device[..issued]) ==> CopiedOutside(dst, src, requested, 0, 0)
  {
    var start: nat, remaining: nat, retries: nat := 0, requested, 0;
    while true
      invariant 0 <= retries <= maxRetries && start + remaining <= requested
      invariant Progress(device[..retries]) + remaining == requested && Faults(requested, device[..retries])
      invariant forall i :: requested <= i < dst.Length ==> dst[i] == old(dst[i])
      invariant AllHonest(device[..retries]) ==> CopiedOutside(dst, src, requested, start, remaining)
      decreases maxRetries - retries
    {
      issued := retries + 1;
      off, len := start, remaining;
      var answer := device[retries];
      Execute(dst, src, start, remaining, answer);
      HonestSoFar(device, retries);
      FaultsSoFar(requested, device, retries);
      EndsHere(requested, maxRetries, device, retries, remaining);
      match Classify(maxRetries, remaining, answer.snapshot, retries) {
        case Err(e) => return Err(e), issued, off, len;
        case Ok(Success) => return Ok(Report(requested, retries, answer.snapshot.status)), issued, off, len;
        case Ok(Retry(offset, left)) =>
          forall k: nat | answer.honest && k < remaining
            ensures Copied(answer, remaining, k) <==> !(offset <= k < offset + left)
          {
            RetryIsTheRest(maxRetries, remaining, answer, retries, k);
          }
          start, remaining, retries := start + offset, left, retries + 1;
      }
    }
  }

  /** DsaSession::memmove. Whatever the device does, Ok means the bytes are there; a
      mismatch names the first wrong byte and takes a device that lied about its work. An
      honest device that faults at most maxRetries times, in either direction, and then
      succeeds, makes the copy succeed. */
  method DoMemmove(dst: array<Byte>, src: array<Byte>, maxRetries: nat, device: seq<Answer>)
    returns (r: Result<Report, MemmoveError>, issued: nat)
    requires dst != src && |device| == maxRetries + 1
    modifies dst
    ensures issued <= maxRetries + 1
    ensures forall i :: src.Length <= i < dst.Length ==> dst[i] == old(dst[i])
    ensures ForBuffers(dst.Length, src.Length).Err? ==>
              issued == 0 && r == Err(ForBuffers(dst.Length, src.Length).error) && dst[..] == old(dst[..])
    ensures r.Ok? ==> src.Length <= dst.Length && dst[..src.Length] == src[..]
    ensures ForBuffers(dst.Length, src.Length).Ok? ==> issued >= 1 && Faults(src.Length, device[..issued - 1])
    ensures issued >= 1 && device[issued - 1].snapshot.status != DSA_COMP_SUCCESS ==> Ends(src.Length, maxRetries, device, issued, r)
    ensures issued >= 1 && device[issued - 1].snapshot.status == DSA_COMP_SUCCESS ==>
              if dst[..src.Length] == src[..] then r == Ok(Report(src.Length, issued - 1, DSA_COMP_SUCCESS)) else r.Err? && r.error.ByteMismatch?
    ensures r.Ok? ==> issued >= 1 && device[issued - 1].snapshot.status == DSA_COMP_SUCCESS
    ensures ForBuffers(dst.Length, src.Length).Ok? ==>
              forall i: nat :: i <= maxRetries && SucceedsAfter(src.Length, device, i) ==> issued == i + 1 && (AllHonest(device[..i + 1]) ==> r.Ok?)
    ensures r.Err? && r.error.ByteMismatch? ==>
              && !AllHonest(device[..issued]) && r.error == ByteMismatch(src.Length, r.error.offset, DSA_COMP_SUCCESS, issued - 1)
              && r.error.offset < src.Length <= dst.Length && dst[r.error.offset] != src[r.error.offset]
              && dst[..r.error.offset] == src[..r.error.offset]
  {
    issued := 0;
    var request := ForBuffers(dst.Length, src.Length);
    if request.Err? { return Err(request.error), 0; }
    ghost var off, len;
    r, issued, off, len := MemmoveInner(dst, src, request.value, maxRetries, device);
    forall i: nat | i <= maxRetries && SucceedsAfter(src.Length, device, i) ensures issued == i + 1 {
      StopsThere(src.Length, maxRetries, device, issued, r, i);
    }
    if r.Err? { return; }
    for k := 0 to src.Length
      invariant dst[..k] == src[..k]
    {
      if dst[k] != src[k] {
        return Err(ByteMismatch(request.value, k, r.value.finalStatus, r.value.pageFaultRetries)), issued;
      }
    }
  }
}
