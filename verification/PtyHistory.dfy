/** A terminal session as told by its ticks alone: what the child's exit and cancellation make of its status, and
    what pollers are told. */
module PtyHistory {
  import opened Prelude
  import opened PtyOutput
  import opened PtySession

  // ----- The story of a run -----------------------------------------------------------------------------------------

  /** Whether the first wait for the child was successful, if there was one. */
  function FirstWait(ticks: seq<Tick>): Option<bool> {
    if ticks == [] then None
    else
      var before := FirstWait(ticks[..|ticks| - 1]);
      if before.None? && ticks[|ticks| - 1].ChildExit? then Some(ticks[|ticks| - 1].waitOk) else before
  }

  /** The reads that came in before the end of the output. */
  function Reads(ticks: seq<Tick>): seq<Bytes> {
    if ticks == [] then []
    else
      var front, t := ticks[..|ticks| - 1], ticks[|ticks| - 1];
      if t.OutputRead? && t.data != [] && EndOfOutput !in front then Reads(front) + [t.data] else Reads(front)
  }

  function Outcome(waitOk: bool): Status {
    if waitOk then Exited else Failed
  }

  /** Status, child status, threads and output, as the ticks tell them. */
  predicate Told(ticks: seq<Tick>, s: Session) {
    && s.childStatus == (match FirstWait(ticks) case Some(ok) => Some(Outcome(ok)) case None => None)
    && (s.waiter == Waiting <==> FirstWait(ticks).None?)
    && (s.reader == Reading <==> EndOfOutput !in ticks)
    && |s.issued| == |Reads(ticks)|
    && (forall i :: 0 <= i < |s.issued| ==> s.issued[i] == IssueOf(Reads(ticks)[i], s.buffer.maxBytes))
    && (s.status == Cancelled ==> Cancel(true) in ticks)
    && (s.status == Running ==> Cancel(true) !in ticks)
  }

  lemma TickSnoc(ticks: seq<Tick>, t: Tick)
    ensures FirstWait(ticks + [t]) ==
            if FirstWait(ticks).None? && t.ChildExit? then Some(t.waitOk) else FirstWait(ticks)
    ensures Reads(ticks + [t]) ==
            if t.OutputRead? && t.data != [] && EndOfOutput !in ticks then Reads(ticks) + [t.data] else Reads(ticks)
    ensures forall x :: x in ticks + [t] <==> x in ticks || x == t
  {
    assert (ticks + [t])[..|ticks|] == ticks;
  }

  lemma StepTold(ticks: seq<Tick>, s: Session, t: Tick)
    requires Told(ticks, s) && JoinInv(s)
    ensures Told(ticks + [t], Step(s, t)) && Step(s, t).buffer.maxBytes == s.buffer.maxBytes
  {
    TickSnoc(ticks, t);
  }

  /** Over every run: the child's outcome is that of the first wait for it; the reader reads until the end of the
      output; each read until then got the next cursor; and the session is cancelled only by a kill that worked,
      after which it runs no more. */
  lemma {:induction false} HistoryTells(maxBytes: nat, ticks: seq<Tick>)
    ensures Told(ticks, Run(Started(maxBytes), ticks))
    ensures Run(Started(maxBytes), ticks).buffer.maxBytes == maxBytes
  {
    if ticks == [] {
    } else {
      var front := ticks[..|ticks| - 1];
      HistoryTells(maxBytes, front);
      JoinAlways(maxBytes, front);
      StepTold(front, Run(Started(maxBytes), front), ticks[|ticks| - 1]);
      assert ticks == front + [ticks[|ticks| - 1]];
    }
  }

  // ----- The status ------------------------------------------------------------------------------------------------

  /** A session is reported exited only after a successful wait and the end of the output, failed only after an
      unsuccessful one and the end of the output, cancelled only after a kill that worked. */
  lemma StatusMeans(maxBytes: nat, ticks: seq<Tick>)
    ensures var status := Run(Started(maxBytes), ticks).status;
            && (status == Exited ==> FirstWait(ticks) == Some(true) && EndOfOutput in ticks)
            && (status == Failed ==> FirstWait(ticks) == Some(false) && EndOfOutput in ticks)
            && (status == Cancelled ==> Cancel(true) in ticks)
  {
    HistoryTells(maxBytes, ticks);
    JoinAlways(maxBytes, ticks);
  }

  /** Once the output has ended, the child was waited for and whoever came last has finished, the status is the
      outcome of the wait, unless the session was cancelled. */
  lemma StatusInTheEnd(maxBytes: nat, ticks: seq<Tick>)
    requires EndOfOutput in ticks && FirstWait(ticks).Some?
    ensures var status := Run(Started(maxBytes), ticks + [ReaderFinish, WaiterFinish]).status;
            && status != Running
            && (Cancel(true) !in ticks ==> status == Outcome(FirstWait(ticks).value))
  {
    var before := Run(Started(maxBytes), ticks);
    var later := ticks + [ReaderFinish, WaiterFinish];
    assert later == ticks + [ReaderFinish] + [WaiterFinish];
    assert (ticks + [ReaderFinish])[..|ticks|] == ticks && later[..|ticks| + 1] == ticks + [ReaderFinish];
    TickSnoc(ticks, ReaderFinish);
    TickSnoc(ticks + [ReaderFinish], WaiterFinish);
    HistoryTells(maxBytes, ticks);
    HistoryTells(maxBytes, later);
    JoinAlways(maxBytes, ticks);
    JoinAlways(maxBytes, later);
  }

  /** A kill that works ends a session that is running, at once and as cancelled. */
  lemma CancelCancels(maxBytes: nat, ticks: seq<Tick>)
    ensures var s := Run(Started(maxBytes), ticks);
            Run(Started(maxBytes), ticks + [Cancel(true)]).status == if s.status == Running then Cancelled else s.status
  {
    assert (ticks + [Cancel(true)])[..|ticks|] == ticks;
  }

  // ----- Pollers ----------------------------------------------------------------------------------------------------

  /** A whole poll tells a client the status there was at its first section, and brings it up to the last read before
      its second, whatever happens in between; if it never met a mark it has then received every read's text. */
  lemma PollCatchesUp(maxBytes: nat, ticks: seq<Tick>, between: seq<Tick>, c: nat)
    requires |Run(Started(maxBytes), ticks + [PollStatus(c)] + between).issued| <= U64_MAX
    requires PollStatus(c) !in between && PollOutput(c) !in between
    ensures var s := Run(Started(maxBytes), ticks);
            var met := Run(Started(maxBytes), ticks + [PollStatus(c)] + between);
            var p := Step(met, PollOutput(c)).pollers;
            && c in met.pollers && met.pollers[c].seen == Some(s.status)
            && c in p && p[c].after == |Reads(ticks + between)|
            && (!p[c].gap ==>
                  && |p[c].received| == |Reads(ticks + between)|
                  && forall i :: 0 <= i < |p[c].received| ==> p[c].received[i] == Lossy(Reads(ticks + between)[i]))
  {
    var all := ticks + [PollStatus(c)] + between;
    var met := Run(Started(maxBytes), all);
    PollerWaits(maxBytes, ticks, between, c);
    HistoryTells(maxBytes, all);
    NoUnnoticedGap(maxBytes, all);
    SameReads(ticks, PollStatus(c), between);
    var p := met.pollers[c];
    DeliverKeeps(p, met.buffer, met.issued);
    UnmarkedBatchIsComplete(met.buffer, met.issued, p.after);
  }

  lemma PollerKeeps(s: Session, t: Tick, c: nat)
    requires c in s.pollers && t != PollStatus(c) && t != PollOutput(c)
    ensures c in Step(s, t).pollers && Step(s, t).pollers[c] == s.pollers[c]
  {
  }

  lemma {:induction false} PollersKeep(s: Session, between: seq<Tick>, c: nat)
    requires c in s.pollers && PollStatus(c) !in between && PollOutput(c) !in between
    ensures c in Run(s, between).pollers && Run(s, between).pollers[c] == s.pollers[c]
  {
    if between == [] {
    } else {
      var front, t := between[..|between| - 1], between[|between| - 1];
      assert t in between;
      PollersKeep(s, front, c);
      PollerKeeps(Run(s, front), t, c);
    }
  }

  /** Between its two sections a poller keeps what it has read. */
  lemma PollerWaits(maxBytes: nat, ticks: seq<Tick>, between: seq<Tick>, c: nat)
    requires PollStatus(c) !in between && PollOutput(c) !in between
    ensures var met := Run(Started(maxBytes), ticks + [PollStatus(c)] + between);
            c in met.pollers && met.pollers[c].seen == Some(Run(Started(maxBytes), ticks).status)
  {
    var start := ticks + [PollStatus(c)];
    assert start[..|ticks|] == ticks;
    RunAppend(Started(maxBytes), start, between);
    PollersKeep(Run(Started(maxBytes), start), between, c);
  }

  lemma {:induction false} SameReads(ticks: seq<Tick>, poll: Tick, between: seq<Tick>)
    requires poll.PollStatus?
    ensures Reads(ticks + [poll] + between) == Reads(ticks + between)
  {
    if between == [] {
      TickSnoc(ticks, poll);
      assert ticks + [poll] + between == ticks + [poll] && ticks + between == ticks;
    } else {
      var front, t := between[..|between| - 1], between[|between| - 1];
      SameReads(ticks, poll, front);
      TickSnoc(ticks + [poll] + front, t);
      TickSnoc(ticks + front, t);
      assert ticks + [poll] + between == ticks + [poll] + front + [t] && ticks + between == ticks + front + [t];
      assert EndOfOutput in ticks + [poll] + front <==> EndOfOutput in ticks + front;
    }
  }
}
