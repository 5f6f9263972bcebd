/** A terminal session shared by its reader thread, its waiter thread, cancellation and pollers, as
    interleaved atomic steps - one per critical section - and the completion join between them. */
module PtySession {
  import opened Prelude
  import opened PtyOutput

  datatype Status = Running | Exited | Cancelled | Failed

  datatype PtyError = KillFailed

  /** Where the reader thread is: reading, about to finish the session, or gone. */
  datatype ReaderPc = Reading | ReaderFinishing(status: Status) | ReaderGone

  datatype WaiterPc = Waiting | WaiterFinishing(status: Status) | WaiterGone

  /** A client that polls with the cursor of its last batch. `seen` is the status it has read when it is
      between the two critical sections of a poll; `received` and `gap` summarise its batches. */
  datatype Poller = Poller(after: nat, seen: Option<Status>, received: seq<Bytes>, gap: bool)

  /** `issued` is history only: every chunk of output ever read, in order. */
  datatype Session = Session(
    status: Status,
    cursor: nat,
    buffer: Buffer,
    readerDrained: bool,
    childStatus: Option<Status>,
    reader: ReaderPc,
    waiter: WaiterPc,
    pollers: map<nat, Poller>,
    issued: seq<Issue>
  )

  datatype Tick =
    | OutputRead(data: Bytes)
    | EndOfOutput
    | ReaderFinish
    | ChildExit(waitOk: bool)
    | WaiterFinish
    | Cancel(killOk: bool)
    | PollStatus(poller: nat)
    | PollOutput(poller: nat)

  function Started(maxBytes: nat): Session {
    Session(Running, 0, Buffer([], 0, maxBytes), false, None, Reading, Waiting, map[], [])
  }

  // ----- Critical sections of the shared state -------------------------------------------------------

  /** `push_output` holds the descriptor and the output lock together. */
  function PushOutput(s: Session, data: Bytes): Session {
    var cursor := SatAdd(s.cursor, 1, U64_MAX);
    s.(cursor := cursor, buffer := Append(s.buffer, cursor, data),
       issued := s.issued + [IssueOf(data, s.buffer.maxBytes)])
  }

  /** `finish` only ever replaces Running. */
  function Finish(s: Session, status: Status): Session {
    if s.status == Running then s.(status := status) else s
  }

  function CancelSession(s: Session, killOk: bool): Session {
    if s.status == Running && killOk then s.(status := Cancelled) else s
  }

  /** A batch read after the poller's cursor, folded into what it has received. */
  function Deliver(p: Poller, batch: seq<Chunk>): Poller {
    Poller(LastCursor(batch, p.after), None,
           p.received + seq(|batch|, i requires 0 <= i < |batch| => batch[i].data),
           p.gap || !Unmarked(batch))
  }

  // ----- Threads ---------------------------------------------------------------------------------------

  function Step(s: Session, t: Tick): Session {
    match t
    case OutputRead(data) =>
      if s.reader == Reading && data != [] then PushOutput(s, data) else s
    case EndOfOutput =>
      if s.reader != Reading then s
      else s.(readerDrained := true,
              reader := if s.childStatus.Some? then ReaderFinishing(s.childStatus.value) else ReaderGone)
    case ReaderFinish =>
      if s.reader.ReaderFinishing? then Finish(s, s.reader.status).(reader := ReaderGone) else s
    case ChildExit(waitOk) =>
      if s.waiter != Waiting then s
      else
        var status := if waitOk then Exited else Failed;
        s.(childStatus := Some(status),
           waiter := if s.readerDrained then WaiterFinishing(status) else WaiterGone)
    case WaiterFinish =>
      if s.waiter.WaiterFinishing? then Finish(s, s.waiter.status).(waiter := WaiterGone) else s
    case Cancel(killOk) => CancelSession(s, killOk)
    case PollStatus(c) =>
      var p := if c in s.pollers then s.pollers[c] else Poller(0, None, [], false);
      s.(pollers := s.pollers[c := p.(seen := Some(s.status))])
    case PollOutput(c) =>
      if c in s.pollers && s.pollers[c].seen.Some? then
        var p := s.pollers[c];
        s.(pollers := s.pollers[c := Deliver(p, ChunksAfter(s.buffer.chunks, p.after))])
      else s
  }

  function Run(s: Session, ticks: seq<Tick>): Session {
    if ticks == [] then s else Step(Run(s, ticks[..|ticks| - 1]), ticks[|ticks| - 1])
  }

  lemma {:induction false} RunAppend(s: Session, a: seq<Tick>, b: seq<Tick>)
    ensures Run(s, a + b) == Run(Run(s, a), b)
  {
    if b == [] {
      assert a + b == a;
    } else {
      RunAppend(s, a, b[..|b| - 1]);
      assert (a + b)[..|a + b| - 1] == a + b[..|b| - 1];
    }
  }

  // ----- The completion join --------------------------------------------------------------------------------

  ghost predicate JoinInv(s: Session) {
    && (s.readerDrained <==> s.reader != Reading)
    && (s.childStatus.Some? <==> s.waiter != Waiting)
    && (s.childStatus.Some? ==> s.childStatus.value in {Exited, Failed})
    && (s.reader.ReaderFinishing? ==> s.childStatus == Some(s.reader.status))
    && (s.waiter.WaiterFinishing? ==> s.readerDrained && s.childStatus == Some(s.waiter.status))
    && (s.status in {Exited, Failed} ==> s.readerDrained && s.childStatus == Some(s.status))
    && (s.readerDrained && s.childStatus.Some? && s.status == Running ==>
          s.reader.ReaderFinishing? || s.waiter.WaiterFinishing?)
    && (forall c <- s.pollers.Keys ::
          s.pollers[c].seen in {Some(Exited), Some(Failed)} ==> s.pollers[c].seen == Some(s.status))
  }

  lemma JoinStep(s: Session, t: Tick)
    requires JoinInv(s)
    ensures JoinInv(Step(s, t))
  {
  }

  lemma {:induction false} JoinAlways(maxBytes: nat, ticks: seq<Tick>)
    ensures JoinInv(Run(Started(maxBytes), ticks))
  {
    if ticks == [] {
    } else {
      JoinAlways(maxBytes, ticks[..|ticks| - 1]);
      JoinStep(Run(Started(maxBytes), ticks[..|ticks| - 1]), ticks[|ticks| - 1]);
    }
  }

  /** Under every interleaving: the session is reported exited (or failed) only after the reader drained
      and the child was waited for with that outcome; and once both threads are gone, the session is no
      longer reported running - whichever of the two came last. */
  lemma CompletionJoin(maxBytes: nat, ticks: seq<Tick>)
    ensures var s := Run(Started(maxBytes), ticks);
            && (s.status in {Exited, Failed} ==>
                  s.reader != Reading && s.waiter != Waiting && s.childStatus == Some(s.status))
            && (s.reader == ReaderGone && s.waiter == WaiterGone ==> s.status != Running)
  {
    JoinAlways(maxBytes, ticks);
  }

  /** A terminal status never changes again. */
  lemma {:induction false} TerminalForever(s: Session, ticks: seq<Tick>)
    requires s.status != Running
    ensures Run(s, ticks).status == s.status
  {
    if ticks == [] {
    } else {
      TerminalForever(s, ticks[..|ticks| - 1]);
    }
  }

  /** After the reader has left its loop the output is frozen. */
  lemma {:induction false} QuietForever(s: Session, ticks: seq<Tick>)
    requires s.reader != Reading
    ensures var s' := Run(s, ticks);
            s'.reader != Reading && s'.buffer == s.buffer && s'.issued == s.issued
  {
    if ticks == [] {
    } else {
      QuietForever(s, ticks[..|ticks| - 1]);
    }
  }

  /** A batch that reports an exit is final: from the moment the poller read that status, before it even
      took the output lock, the buffer never changes again. */
  lemma ExitedBatchIsFinal(maxBytes: nat, ticks: seq<Tick>, later: seq<Tick>, c: nat)
    requires var s := Run(Started(maxBytes), ticks);
             c in s.pollers && s.pollers[c].seen in {Some(Exited), Some(Failed)}
    ensures Run(Started(maxBytes), ticks + later).buffer == Run(Started(maxBytes), ticks).buffer
  {
    JoinAlways(maxBytes, ticks);
    RunAppend(Started(maxBytes), ticks, later);
    QuietForever(Run(Started(maxBytes), ticks), later);
  }

  // ----- Output: accounting and gaps over whole runs ------------------------------------------------------------

  /** What a poller that never met a truncation mark has received. */
  ghost predicate Received(p: Poller, issued: seq<Issue>) {
    && p.after <= |issued|
    && (!p.gap ==>
          && |p.received| == p.after
          && forall i :: 0 <= i < p.after ==> p.received[i] == issued[i].text)
  }

  ghost predicate OutputInv(s: Session) {
    && s.cursor == |s.issued|
    && Tracks(s.buffer, s.issued)
    && forall c <- s.pollers.Keys :: Received(s.pollers[c], s.issued)
  }

  lemma DeliverKeeps(p: Poller, b: Buffer, issued: seq<Issue>)
    requires Tracks(b, issued) && Received(p, issued)
    ensures Received(Deliver(p, ChunksAfter(b.chunks, p.after)), issued)
  {
    UnmarkedBatchIsComplete(b, issued, p.after);
  }

  lemma OutputStep(s: Session, t: Tick)
    requires OutputInv(s) && |Step(s, t).issued| <= U64_MAX
    ensures OutputInv(Step(s, t))
  {
    match t
    case OutputRead(data) =>
      if s.reader == Reading && data != [] { AppendTracks(s.buffer, s.issued, data); }
    case PollOutput(c) =>
      if c in s.pollers && s.pollers[c].seen.Some? { DeliverKeeps(s.pollers[c], s.buffer, s.issued); }
    case _ =>
  }

  lemma IssuedGrows(s: Session, t: Tick)
    ensures |s.issued| <= |Step(s, t).issued|
  {
  }

  /** Over every run that issues fewer than 2^64 cursors: the retained chunks are the contiguous tail of
      all output, and a poller whose batches never carried a truncation mark has received every chunk up
      to its cursor, in order and uncut. */
  lemma {:induction false} NoUnnoticedGap(maxBytes: nat, ticks: seq<Tick>)
    requires |Run(Started(maxBytes), ticks).issued| <= U64_MAX
    ensures OutputInv(Run(Started(maxBytes), ticks))
  {
    if ticks == [] {
    } else {
      var s := Run(Started(maxBytes), ticks[..|ticks| - 1]);
      IssuedGrows(s, ticks[|ticks| - 1]);
      NoUnnoticedGap(maxBytes, ticks[..|ticks| - 1]);
      OutputStep(s, ticks[|ticks| - 1]);
    }
  }

  /** The accounting of the buffer is exact and bounded over every run. */
  lemma {:induction false} AlwaysAccounted(maxBytes: nat, ticks: seq<Tick>)
    requires 1 <= maxBytes <= MAX_PTY_OUTPUT_LIMIT
    ensures Accounted(Run(Started(maxBytes), ticks).buffer)
    ensures Run(Started(maxBytes), ticks).buffer.maxBytes == maxBytes
  {
    if ticks == [] {
    } else {
      var s := Run(Started(maxBytes), ticks[..|ticks| - 1]);
      AlwaysAccounted(maxBytes, ticks[..|ticks| - 1]);
      match ticks[|ticks| - 1]
      case OutputRead(data) => AppendAccounted(s.buffer, SatAdd(s.cursor, 1, U64_MAX), data);
      case _ =>
    }
  }

  // ----- Threads taking turns --------------------------------------------------------------------------------------

  /** The thread that the tick belongs to is where it can take it. */
  predicate Enabled(s: Session, t: Tick) {
    match t
    case OutputRead(data) => s.reader == Reading && data != []
    case EndOfOutput => s.reader == Reading
    case ReaderFinish => s.reader.ReaderFinishing?
    case ChildExit(_) => s.waiter == Waiting
    case WaiterFinish => s.waiter.WaiterFinishing?
    case Cancel(_) => true
    case PollStatus(_) => true
    case PollOutput(_) => true
  }

  ghost predicate AllEnabled(s: Session, ticks: seq<Tick>) {
    forall i :: 0 <= i < |ticks| ==> Enabled(Run(s, ticks[..i]), ticks[i])
  }

  predicate OfReader(t: Tick) {
    t.OutputRead? || t.EndOfOutput? || t.ReaderFinish?
  }

  predicate OfWaiter(t: Tick) {
    t.ChildExit? || t.WaiterFinish?
  }

  lemma RunOne(s: Session, ticks: seq<Tick>, i: nat)
    requires i < |ticks|
    ensures Run(s, ticks[..i + 1]) == Step(Run(s, ticks[..i]), ticks[i])
  {
    assert ticks[..i + 1][..i] == ticks[..i];
  }

  /** Only the reader moves the reader on. */
  lemma {:induction false} ReaderStays(s: Session, ticks: seq<Tick>)
    requires forall t <- ticks :: !OfReader(t)
    ensures Run(s, ticks).reader == s.reader
  {
    if ticks == [] {
    } else {
      assert !OfReader(ticks[|ticks| - 1]);
      ReaderStays(s, ticks[..|ticks| - 1]);
    }
  }

  lemma {:induction false} WaiterStays(s: Session, ticks: seq<Tick>)
    requires forall t <- ticks :: !OfWaiter(t)
    ensures Run(s, ticks).waiter == s.waiter
  {
    if ticks == [] {
    } else {
      assert !OfWaiter(ticks[|ticks| - 1]);
      WaiterStays(s, ticks[..|ticks| - 1]);
    }
  }

  // ----- The session object ---------------------------------------------------------------------------------------

  /** The shared state and its critical sections, as the threads call them. */
  class PtySession {
    var status: Status
    var outputCursor: nat
    const output: OutputBuffer
    var drained: bool
    var childStatus: Option<Status>

    ghost predicate Valid()
      reads this, output
    {
      Accounted(output.Value())
    }

    /** The shared part of a machine state. */
    ghost predicate Shares(s: Session)
      reads this, output
    {
      && status == s.status && outputCursor == s.cursor && output.Value() == s.buffer
      && drained == s.readerDrained && childStatus == s.childStatus
    }

    constructor (maxBytes: nat)
      requires 1 <= maxBytes <= MAX_PTY_OUTPUT_LIMIT
      ensures Valid() && fresh(output) && Shares(Started(maxBytes))
    {
      status, outputCursor, drained, childStatus := Running, 0, false, None;
      output := new OutputBuffer(maxBytes);
    }

    method PushOutput(data: Bytes, ghost s: Session)
      requires Valid() && Shares(s) && s.reader == Reading && data != []
      modifies this`outputCursor, output
      ensures Valid() && Shares(Step(s, OutputRead(data)))
    {
      outputCursor := SatAdd(outputCursor, 1, U64_MAX);
      output.Push(outputCursor, data);
    }

    method FinishWith(outcome: Status)
      modifies this`status
      ensures status == if old(status) == Running then outcome else old(status)
    {
      if status == Running {
        status := outcome;
      }
    }

    /** The reader's first closing section: note that the output is drained and see what the waiter left. */
    method DrainReader(ghost s: Session) returns (known: Option<Status>)
      requires Valid() && Shares(s) && s.reader == Reading
      modifies this`drained
      ensures Valid() && Shares(Step(s, EndOfOutput))
      ensures Step(s, EndOfOutput).reader == if known.Some? then ReaderFinishing(known.value) else ReaderGone
    {
      drained := true;
      known := childStatus;
    }

    /** The reader's second closing section, in whatever state other threads have left by then. */
    method FinishReader(known: Status, ghost s: Session)
      requires Valid() && Shares(s) && s.reader == ReaderFinishing(known)
      modifies this`status
      ensures Valid() && Shares(Step(s, ReaderFinish))
    {
      FinishWith(known);
    }

    /** The waiter's first closing section: leave the outcome and see whether the reader is done. */
    method LeaveStatus(waitOk: bool, ghost s: Session) returns (outcome: Status, readerDone: bool)
      requires Valid() && Shares(s) && s.waiter == Waiting
      modifies this`childStatus
      ensures Valid() && Shares(Step(s, ChildExit(waitOk)))
      ensures Step(s, ChildExit(waitOk)).waiter == if readerDone then WaiterFinishing(outcome) else WaiterGone
    {
      outcome := if waitOk then Exited else Failed;
      childStatus := Some(outcome);
      readerDone := drained;
    }

    method FinishWaiter(outcome: Status, ghost s: Session)
      requires Valid() && Shares(s) && s.waiter == WaiterFinishing(outcome)
      modifies this`status
      ensures Valid() && Shares(Step(s, WaiterFinish))
    {
      FinishWith(outcome);
    }

    /** One step of some thread, as that thread takes it. */
    method Act(tick: Tick, ghost s: Session)
      requires Valid() && Shares(s) && JoinInv(s) && Enabled(s, tick)
      modifies this, output
      ensures Valid() && Shares(Step(s, tick))
    {
      match tick {
        case OutputRead(data) => PushOutput(data, s);
        case EndOfOutput =>
          var _ := DrainReader(s);
        case ReaderFinish => FinishReader(childStatus.value, s);
        case ChildExit(waitOk) =>
          var _, _ := LeaveStatus(waitOk, s);
        case WaiterFinish => FinishWaiter(childStatus.value, s);
        case Cancel(killOk) =>
          var _ := Cancel(killOk, s);
        case PollStatus(_) =>
        case PollOutput(_) =>
      }
    }

    /** What other threads do between two critical sections of one. */
    method OtherThreads(ticks: seq<Tick>, ghost s: Session)
      requires Valid() && Shares(s) && JoinInv(s) && AllEnabled(s, ticks)
      modifies this, output
      ensures Valid() && Shares(Run(s, ticks)) && JoinInv(Run(s, ticks))
    {
      assert ticks[..0] == [];
      for i := 0 to |ticks|
        invariant Valid() && Shares(Run(s, ticks[..i])) && JoinInv(Run(s, ticks[..i]))
      {
        RunOne(s, ticks, i);
        Act(ticks[i], Run(s, ticks[..i]));
        JoinStep(Run(s, ticks[..i]), ticks[i]);
      }
      assert ticks[..|ticks|] == ticks;
    }

    /** What the reader does at the end of the output: two critical sections, and other threads in between. */
    method ReaderDrained(others: seq<Tick>, ghost s: Session)
      requires Valid() && Shares(s) && JoinInv(s) && s.reader == Reading
      requires AllEnabled(Step(s, EndOfOutput), others) && forall t <- others :: !OfReader(t)
      modifies this, output
      ensures Valid() && Shares(Step(Run(Step(s, EndOfOutput), others), ReaderFinish))
    {
      var known := DrainReader(s);
      JoinStep(s, EndOfOutput);
      OtherThreads(others, Step(s, EndOfOutput));
      ReaderStays(Step(s, EndOfOutput), others);
      if known.Some? {
        FinishReader(known.value, Run(Step(s, EndOfOutput), others));
      }
    }

    /** What the waiter does when the child has exited. */
    method ChildFinished(waitOk: bool, others: seq<Tick>, ghost s: Session)
      requires Valid() && Shares(s) && JoinInv(s) && s.waiter == Waiting
      requires AllEnabled(Step(s, ChildExit(waitOk)), others) && forall t <- others :: !OfWaiter(t)
      modifies this, output
      ensures Valid() && Shares(Step(Run(Step(s, ChildExit(waitOk)), others), WaiterFinish))
    {
      var outcome, readerDone := LeaveStatus(waitOk, s);
      JoinStep(s, ChildExit(waitOk));
      OtherThreads(others, Step(s, ChildExit(waitOk)));
      WaiterStays(Step(s, ChildExit(waitOk)), others);
      if readerDone {
        FinishWaiter(outcome, Run(Step(s, ChildExit(waitOk)), others));
      }
    }

    /** A kill that fails is reported and leaves the status. */
    method Cancel(killOk: bool, ghost s: Session) returns (r: Result<Status, PtyError>)
      requires Valid() && Shares(s)
      modifies this`status
      ensures Valid() && Shares(Step(s, Tick.Cancel(killOk)))
      ensures r == if old(status) == Running && !killOk then Err(KillFailed) else Ok(status)
    {
      if status == Running {
        if !killOk { return Err(KillFailed); }
        status := Cancelled;
      }
      return Ok(status);
    }

    /** A poll's first section. */
    method ReadStatus(poller: nat, ghost s: Session) returns (reported: Status)
      requires Valid() && Shares(s)
      ensures Valid() && Shares(Step(s, PollStatus(poller)))
      ensures Step(s, PollStatus(poller)).pollers[poller].seen == Some(reported)
    {
      return status;
    }

    /** A poll's second section: the chunks after a cursor, found by scanning the deque, and the cursor to
        continue from, in whatever state other threads have left by then. */
    method ReadOutput(poller: nat, ghost s: Session, after: nat) returns (batch: seq<Chunk>, next: nat)
      requires Valid() && Shares(s)
      requires poller in s.pollers && s.pollers[poller].seen.Some? && s.pollers[poller].after == after
      ensures batch == ChunksAfter(output.chunks, after) && next == LastCursor(batch, after)
      ensures Shares(Step(s, PollOutput(poller)))
      ensures Step(s, PollOutput(poller)).pollers[poller] == Deliver(s.pollers[poller], batch)
      ensures Step(s, PollOutput(poller)).pollers[poller].after == next
    {
      batch, next := OutputAfter(after);
    }

    method OutputAfter(after: nat) returns (batch: seq<Chunk>, next: nat)
      ensures batch == ChunksAfter(output.chunks, after) && next == LastCursor(batch, after)
    {
      batch := [];
      var chunks := output.chunks;
      for i := 0 to |chunks|
        invariant batch + ChunksAfter(chunks[i..], after) == ChunksAfter(chunks, after)
      {
        if chunks[i].cursor > after {
          batch := batch + [chunks[i]];
        }
      }
      next := if batch == [] then after else batch[|batch| - 1].cursor;
    }
  }
}
