/** The journal as told by its deliveries alone: what is in the log, what an append reports, and what a client that
    keeps paging ends up with. */
module JournalHistory {
  import opened Prelude
  import opened EventJournal

  // ----- Deliveries ---------------------------------------------------------------------------------------------

  /** What was handed to the journal, in order, re-deliveries and all. */
  function Deliveries(ops: seq<Op>): seq<Envelope> {
    if ops == [] then []
    else
      var front, op := Deliveries(ops[..|ops| - 1]), ops[|ops| - 1];
      if op.AppendOp? then front + [op.e] else front
  }

  predicate Delivered(envelopes: seq<Envelope>, eventId: nat) {
    exists e <- envelopes :: e.eventId == eventId
  }

  /** The first delivery of each event, in order. */
  function FirstDeliveries(envelopes: seq<Envelope>): seq<Envelope> {
    if envelopes == [] then []
    else
      var front, e := envelopes[..|envelopes| - 1], envelopes[|envelopes| - 1];
      if Delivered(front, e.eventId) then FirstDeliveries(front) else FirstDeliveries(front) + [e]
  }

  function Envelopes(rows: seq<Record>): (r: seq<Envelope>)
    ensures |r| == |rows|
  {
    seq(|rows|, i requires 0 <= i < |rows| => rows[i].envelope)
  }

  lemma {:induction false} FirstsAreDelivered(envelopes: seq<Envelope>)
    ensures forall id :: Delivered(FirstDeliveries(envelopes), id) <==> Delivered(envelopes, id)
  {
    if envelopes == [] {
    } else {
      var front, e := envelopes[..|envelopes| - 1], envelopes[|envelopes| - 1];
      FirstsAreDelivered(front);
      assert envelopes == front + [e];
      forall id ensures Delivered(envelopes, id) <==> Delivered(front, id) || id == e.eventId {
        DeliveredSnoc(front, e, id);
      }
      forall id ensures Delivered(FirstDeliveries(front) + [e], id) <==>
                        Delivered(FirstDeliveries(front), id) || id == e.eventId
      {
        DeliveredSnoc(FirstDeliveries(front), e, id);
      }
    }
  }

  lemma DeliveredSnoc(envelopes: seq<Envelope>, e: Envelope, id: nat)
    ensures Delivered(envelopes + [e], id) <==> Delivered(envelopes, id) || id == e.eventId
  {
    if Delivered(envelopes, id) {
      var x :| x in envelopes && x.eventId == id;
      assert x in envelopes + [e];
    }
    if id == e.eventId {
      assert e in envelopes + [e];
    }
  }

  lemma FindIffDelivered(rows: seq<Record>, id: nat)
    ensures Find(rows, id).Some? <==> Delivered(Envelopes(rows), id)
  {
    if Find(rows, id).Some? {
      var i :| 0 <= i < |rows| && rows[i] == Find(rows, id).value;
      assert Envelopes(rows)[i] in Envelopes(rows);
    }
    if Delivered(Envelopes(rows), id) {
      var x :| x in Envelopes(rows) && x.eventId == id;
      var i :| 0 <= i < |rows| && Envelopes(rows)[i] == x;
      assert rows[i].envelope.eventId == id;
    }
  }

  lemma EnvelopesSnoc(rows: seq<Record>, r: Record)
    ensures Envelopes(rows + [r]) == Envelopes(rows) + [r.envelope]
  {
  }

  /** One delivery: the log of first deliveries goes on. */
  lemma AppendTold(j: Journal, envelopes: seq<Envelope>, e: Envelope, burned: nat)
    requires Envelopes(j.rows) == FirstDeliveries(envelopes)
    ensures Envelopes(Appended(j, e, burned).0.rows) == FirstDeliveries(envelopes + [e])
  {
    assert (envelopes + [e])[..|envelopes|] == envelopes;
    FirstsAreDelivered(envelopes);
    FindIffDelivered(j.rows, e.eventId);
    if Find(j.rows, e.eventId).None? {
      EnvelopesSnoc(j.rows, Record(j.high + 1, e));
    }
  }

  /** Over every run the log holds exactly the first delivery of each event, in order. */
  lemma {:induction false} LogIsFirstDeliveries(start: nat, ops: seq<Op>)
    ensures Envelopes(Run(start, ops).journal.rows) == FirstDeliveries(Deliveries(ops))
  {
    if ops == [] {
    } else {
      var front, op := ops[..|ops| - 1], ops[|ops| - 1];
      LogIsFirstDeliveries(start, front);
      match op
      case AppendOp(e, burned) => AppendTold(Run(start, front).journal, Deliveries(front), e, burned);
      case PollOp(limit) =>
    }
  }

  // ----- What an append reports ------------------------------------------------------------------------------------

  /** The record that an append returns carries its envelope and the cursor under which its event is stored; for a
      new event it is the stored row itself, the last one. */
  lemma AppendReportsTheRow(start: nat, ops: seq<Op>, e: Envelope, burned: nat)
    ensures var (j, r) := Appended(Run(start, ops).journal, e, burned);
            && r.envelope == e
            && (exists row <- j.rows :: row.cursor == r.cursor && row.envelope.eventId == e.eventId)
            && (!Delivered(Deliveries(ops), e.eventId) ==> j.rows != [] && j.rows[|j.rows| - 1] == r)
  {
    var before := Run(start, ops).journal;
    LogIsFirstDeliveries(start, ops);
    FirstsAreDelivered(Deliveries(ops));
    FindIffDelivered(before.rows, e.eventId);
    ReportedRow(before, e, burned);
  }

  lemma ReportedRow(j: Journal, e: Envelope, burned: nat)
    ensures var (j', r) := Appended(j, e, burned);
            exists row <- j'.rows :: row.cursor == r.cursor && row.envelope.eventId == e.eventId
  {
    var (j', r) := Appended(j, e, burned);
    if Find(j.rows, e.eventId).Some? {
      assert Find(j.rows, e.eventId).value in j'.rows;
    } else {
      assert j'.rows[|j.rows|] == r;
    }
  }

  // ----- What clients end up with ----------------------------------------------------------------------------------

  lemma AllAfterZero(rows: seq<Record>)
    requires forall i :: 0 <= i < |rows| ==> rows[i].cursor >= 1
    ensures RowsAfter(rows, 0) == rows
  {
    NoneUpTo(rows, 0);
  }

  /** A client that pages from the beginning until there is no more has been given the first delivery of every
      event, in order, and nothing else. */
  lemma CaughtUpClientHasEverything(ops: seq<Op>, limit: nat)
    requires var p := Run(0, ops);
             PageAfter(p.journal, p.cursor, limit).Ok? && !PageAfter(p.journal, p.cursor, limit).value.hasMore
    ensures Envelopes(Step(Run(0, ops), PollOp(limit)).collected) == FirstDeliveries(Deliveries(ops))
  {
    PagingRefinesLog(0, ops);
    CaughtUp(0, ops, limit);
    AllAfterZero(Run(0, ops).journal.rows);
    LogIsFirstDeliveries(0, ops);
  }

  /** Paging gets there: so long as there is more, a poll with a legal limit gives at least one more event. */
  lemma PollsAdvance(start: nat, ops: seq<Op>, limit: nat)
    requires 1 <= limit <= MAX_EVENT_BATCH_LIMIT && Run(start, ops).cursor <= I64_MAX
    ensures var p := Run(start, ops);
            && PageAfter(p.journal, p.cursor, limit).Ok?
            && |Step(p, PollOp(limit)).collected| ==
                 |p.collected| + (var left := |p.journal.rows| - UpTo(p.journal.rows, p.cursor);
                                  if left <= limit then left else limit)
  {
    PagingRefinesLog(start, ops);
    var p := Run(start, ops);
    PageIsExact(p.journal, p.cursor, limit);
  }

  /** A page is given exactly for a legal limit and a cursor that fits the column. */
  lemma PageAcceptedIff(j: Journal, after: nat, limit: nat)
    ensures PageAfter(j, after, limit).Ok? <==> 1 <= limit <= MAX_EVENT_BATCH_LIMIT && after <= I64_MAX
  {
  }

  /** The latest cursor that comes with a page is that of the last event delivered by then, or zero. */
  lemma LatestIsExact(ops: seq<Op>, arrivals: seq<Arrival>, after: nat, limit: nat)
    requires BatchAfter(Run(0, ops).journal, Arrived(Run(0, ops).journal, arrivals), after, limit).Ok?
    ensures var j, later := Run(0, ops).journal, Arrived(Run(0, ops).journal, arrivals);
            var latest := BatchAfter(j, later, after, limit).value.latest;
            && (forall r <- later.rows :: r.cursor <= latest)
            && (if later.rows == [] then latest == 0 else exists r <- later.rows :: r.cursor == latest)
  {
    var later := Arrived(Run(0, ops).journal, arrivals);
    PagingRefinesLog(0, ops);
    ArrivalsKeep(Run(0, ops).journal, arrivals);
    LatestIsLargest(later, later, 0);
    if later.rows != [] {
      assert later.rows[|later.rows| - 1] in later.rows;
    }
  }
}
