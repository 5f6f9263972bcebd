/** The client event journal: an append-only log that drops re-deliveries, read page by page by clients
    that pass the last cursor back. */
module EventJournal {
  import opened Prelude

  const MAX_EVENT_BATCH_LIMIT: nat := 1000

  datatype Envelope = Envelope(eventId: nat, payload: string)

  datatype Record = Record(cursor: nat, envelope: Envelope)

  /** Rows in insertion order, and the high-water mark of the automatic sequence. */
  datatype Journal = Journal(rows: seq<Record>, high: nat)

  datatype Page = Page(after: nat, next: nat, events: seq<Record>, hasMore: bool)

  /** What a client gets: a page, and the latest cursor, read in a query of its own. */
  datatype Batch = Batch(page: Page, latest: nat)

  datatype JournalError = LimitOutOfRange | CursorOutOfRange

  // ----- Operations ----------------------------------------------------------------------------------

  function Find(rows: seq<Record>, eventId: nat): (r: Option<Record>)
    ensures r.Some? ==> r.value in rows && r.value.envelope.eventId == eventId
    ensures r.None? ==> forall i :: 0 <= i < |rows| ==> rows[i].envelope.eventId != eventId
  {
    if rows == [] then None
    else if rows[0].envelope.eventId == eventId then Some(rows[0])
    else Find(rows[1..], eventId)
  }

  /** Insert, or on a known event identifier leave the row alone and report its cursor. A conflicting
      insert may use up sequence numbers (`burned`); the sequence never hands a number out twice. The
      returned record carries the envelope of this call. */
  function Appended(j: Journal, e: Envelope, burned: nat): (Journal, Record) {
    var known := Find(j.rows, e.eventId);
    if known.Some? then (j.(high := j.high + burned), Record(known.value.cursor, e))
    else
      var row := Record(j.high + 1, e);
      (Journal(j.rows + [row], j.high + 1), row)
  }

  function RowsAfter(rows: seq<Record>, after: nat): seq<Record> {
    if rows == [] then []
    else if rows[0].cursor > after then [rows[0]] + RowsAfter(rows[1..], after)
    else RowsAfter(rows[1..], after)
  }

  function Take(rows: seq<Record>, n: nat): seq<Record> {
    if |rows| <= n then rows else rows[..n]
  }

  function Latest(rows: seq<Record>): nat {
    if rows == [] then 0 else rows[|rows| - 1].cursor
  }

  /** One row more than the limit is fetched, to learn whether there is more. */
  function PageAfter(j: Journal, after: nat, limit: nat): Result<Page, JournalError> {
    if limit == 0 || limit > MAX_EVENT_BATCH_LIMIT then Err(LimitOutOfRange)
    else if after > I64_MAX then Err(CursorOutOfRange)
    else
      var fetched := Take(RowsAfter(j.rows, after), limit + 1);
      var events := Take(fetched, limit);
      var next := if events == [] then after else events[|events| - 1].cursor;
      Ok(Page(after, next, events, |fetched| > limit))
  }

  /** The page is read from one state of the journal and the latest cursor from a later one. */
  function BatchAfter(j: Journal, later: Journal, after: nat, limit: nat): Result<Batch, JournalError> {
    match PageAfter(j, after, limit)
    case Err(error) => Err(error)
    case Ok(page) => Ok(Batch(page, Latest(later.rows)))
  }

  /** A delivery of an event, with the sequence numbers a conflict uses up. */
  datatype Arrival = Arrival(envelope: Envelope, burned: nat)

  function Arrived(j: Journal, arrivals: seq<Arrival>): Journal {
    if arrivals == [] then j
    else
      var last := arrivals[|arrivals| - 1];
      Appended(Arrived(j, arrivals[..|arrivals| - 1]), last.envelope, last.burned).0
  }

  class ClientEventJournal {
    var rows: seq<Record>
    var high: nat

    ghost function Value(): Journal
      reads this
    {
      Journal(rows, high)
    }

    constructor ()
      ensures Value() == Journal([], 0)
    {
      rows, high := [], 0;
    }

    method Append(e: Envelope, burned: nat) returns (r: Record)
      modifies this
      ensures (Value(), r) == Appended(old(Value()), e, burned)
    {
      var known := Find(rows, e.eventId);
      if known.Some? {
        high := high + burned;
        return Record(known.value.cursor, e);
      }
      high := high + 1;
      r := Record(high, e);
      rows := rows + [r];
    }

    /** Scans for at most `count` rows after the cursor. */
    method Fetch(after: nat, count: nat) returns (fetched: seq<Record>)
      ensures fetched == Take(RowsAfter(rows, after), count)
    {
      fetched := [];
      var i := 0;
      while i < |rows| && |fetched| < count
        invariant 0 <= i <= |rows| && |fetched| <= count
        invariant fetched + RowsAfter(rows[i..], after) == RowsAfter(rows, after)
      {
        if rows[i].cursor > after {
          fetched := fetched + [rows[i]];
        }
        i := i + 1;
      }
    }

    /** Other writers append between the two queries of a listing. */
    method OtherWriters(ghost start: Journal, ghost before: seq<Arrival>) returns (ghost arrivals: seq<Arrival>)
      requires Value() == Arrived(start, before)
      modifies this
      ensures Value() == Arrived(start, arrivals)
    {
      arrivals := before;
      var writes: int := *;
      while writes > 0
        invariant Value() == Arrived(start, arrivals)
      {
        var e: Envelope, burned: int := *, *;
        ghost var arrival := Arrival(e, if burned < 0 then 0 else burned);
        var _ := Append(e, if burned < 0 then 0 else burned);
        assert (arrivals + [arrival])[..|arrivals|] == arrivals;
        arrivals := arrivals + [arrival];
        writes := writes - 1;
      }
    }

    method ListAfter(after: nat, limit: nat) returns (r: Result<Batch, JournalError>, ghost arrivals: seq<Arrival>)
      modifies this
      ensures Value() == Arrived(old(Value()), arrivals)
      ensures r == BatchAfter(old(Value()), Value(), after, limit)
    {
      arrivals := [];
      if limit == 0 || limit > MAX_EVENT_BATCH_LIMIT { return Err(LimitOutOfRange), arrivals; }
      if after > I64_MAX { return Err(CursorOutOfRange), arrivals; }
      var fetched := Fetch(after, limit + 1);
      var events := Take(fetched, limit);
      arrivals := OtherWriters(old(Value()), arrivals);
      var latest := Latest(rows);
      var next := if events == [] then after else events[|events| - 1].cursor;
      return Ok(Batch(Page(after, next, events, |fetched| > limit), latest)), arrivals;
    }
  }

  // ----- The log --------------------------------------------------------------------------------------

  ghost predicate Increasing(rows: seq<Record>) {
    forall i, j :: 0 <= i < j < |rows| ==> rows[i].cursor < rows[j].cursor
  }

  ghost predicate DistinctEvents(rows: seq<Record>) {
    forall i, j :: 0 <= i < j < |rows| ==> rows[i].envelope.eventId != rows[j].envelope.eventId
  }

  ghost predicate JournalInv(j: Journal) {
    && Increasing(j.rows)
    && DistinctEvents(j.rows)
    && forall i :: 0 <= i < |j.rows| ==> 1 <= j.rows[i].cursor <= j.high
  }

  lemma AppendKeeps(j: Journal, e: Envelope, burned: nat)
    requires JournalInv(j)
    ensures JournalInv(Appended(j, e, burned).0)
    ensures j.rows <= Appended(j, e, burned).0.rows
  {
  }

  /** Re-delivering an event that is in the log changes no row and reports the cursor it already has. */
  lemma RedeliveryIsIdempotent(j: Journal, i: nat, e: Envelope, burned: nat)
    requires JournalInv(j) && i < |j.rows| && j.rows[i].envelope.eventId == e.eventId
    ensures var (j', r) := Appended(j, e, burned);
            j'.rows == j.rows && r.cursor == j.rows[i].cursor
  {
  }

  /** The number of rows up to a cursor; on increasing cursors, the length of that prefix. */
  function UpTo(rows: seq<Record>, c: nat): (n: nat)
    ensures n <= |rows|
  {
    if rows == [] then 0 else (if rows[0].cursor <= c then 1 else 0) + UpTo(rows[1..], c)
  }

  lemma {:induction false} NoneUpTo(rows: seq<Record>, c: nat)
    requires forall i :: 0 <= i < |rows| ==> rows[i].cursor > c
    ensures UpTo(rows, c) == 0 && RowsAfter(rows, c) == rows
  {
    if rows == [] {
    } else {
      NoneUpTo(rows[1..], c);
      assert rows == [rows[0]] + rows[1..];
    }
  }

  lemma {:induction false} UpToCounts(rows: seq<Record>, c: nat)
    requires Increasing(rows)
    ensures forall i :: 0 <= i < |rows| ==> (i < UpTo(rows, c) <==> rows[i].cursor <= c)
  {
    if rows == [] {
    } else if rows[0].cursor > c {
      NoneUpTo(rows, c);
    } else {
      UpToCounts(rows[1..], c);
      forall i | 0 <= i < |rows| ensures i < UpTo(rows, c) <==> rows[i].cursor <= c {
        assert i > 0 ==> rows[i] == rows[1..][i - 1];
      }
    }
  }

  lemma {:induction false} UpToDrops(rows: seq<Record>, c: nat)
    requires Increasing(rows)
    ensures RowsAfter(rows, c) == rows[UpTo(rows, c)..]
  {
    if rows == [] {
    } else if rows[0].cursor > c {
      NoneUpTo(rows, c);
    } else {
      UpToDrops(rows[1..], c);
      assert rows[UpTo(rows, c)..] == rows[1..][UpTo(rows[1..], c)..];
    }
  }

  /** On increasing cursors the rows up to `c` are the first ones and the others are its page source. */
  lemma UpToSplits(rows: seq<Record>, c: nat)
    requires Increasing(rows)
    ensures forall i :: 0 <= i < |rows| ==> (i < UpTo(rows, c) <==> rows[i].cursor <= c)
    ensures RowsAfter(rows, c) == rows[UpTo(rows, c)..]
  {
    UpToCounts(rows, c);
    UpToDrops(rows, c);
  }

  lemma {:induction false} UpToMonotone(rows: seq<Record>, a: nat, b: nat)
    requires a <= b
    ensures UpTo(rows, a) <= UpTo(rows, b)
  {
    if rows == [] {
    } else {
      UpToMonotone(rows[1..], a, b);
    }
  }

  lemma UpToIs(rows: seq<Record>, c: nat, n: nat)
    requires Increasing(rows) && n <= |rows|
    requires n > 0 ==> rows[n - 1].cursor <= c
    requires n < |rows| ==> rows[n].cursor > c
    ensures UpTo(rows, c) == n
  {
    UpToSplits(rows, c);
    assert n > 0 ==> n - 1 < UpTo(rows, c);
    assert n < |rows| ==> !(n < UpTo(rows, c));
  }

  /** Where a page that starts after row `k` ends. */
  function PageEnd(rows: seq<Record>, k: nat, limit: nat): nat {
    if k + limit <= |rows| then k + limit else |rows|
  }

  lemma TakeOfDrop(rows: seq<Record>, k: nat, limit: nat)
    requires k <= |rows|
    ensures Take(Take(rows[k..], limit + 1), limit) == rows[k..PageEnd(rows, k, limit)]
    ensures |Take(rows[k..], limit + 1)| > limit <==> PageEnd(rows, k, limit) < |rows|
  {
  }

  lemma PageContents(j: Journal, after: nat, limit: nat)
    requires JournalInv(j) && PageAfter(j, after, limit).Ok?
    ensures var b, k := PageAfter(j, after, limit).value, UpTo(j.rows, after);
            var end := PageEnd(j.rows, k, limit);
            && b.after == after
            && b.events == j.rows[k..end]
            && b.next == (if k == end then after else j.rows[end - 1].cursor)
            && (b.hasMore <==> end < |j.rows|)
  {
    UpToSplits(j.rows, after);
    TakeOfDrop(j.rows, UpTo(j.rows, after), limit);
  }

  lemma PageEndIsReached(rows: seq<Record>, after: nat, limit: nat, next: nat)
    requires Increasing(rows)
    requires var k := UpTo(rows, after);
             var end := PageEnd(rows, k, limit);
             next == if k == end then after else rows[end - 1].cursor
    requires limit > 0
    ensures after <= next
    ensures UpTo(rows, next) == PageEnd(rows, UpTo(rows, after), limit)
  {
    var k := UpTo(rows, after);
    var end := PageEnd(rows, k, limit);
    UpToSplits(rows, after);
    if k < end { assert rows[k].cursor > after; }
    UpToIs(rows, next, end);
  }

  lemma BeyondMeansMore(rows: seq<Record>, c: nat)
    requires Increasing(rows)
    ensures UpTo(rows, c) < |rows| <==> exists r :: r in rows && r.cursor > c
  {
    UpToSplits(rows, c);
    assert UpTo(rows, c) < |rows| ==> rows[UpTo(rows, c)] in rows;
  }

  /** A page is exactly the first `limit` rows after the cursor, `next` is where the page ends, and
      `hasMore` says exactly whether a row lies beyond it. */
  lemma PageIsExact(j: Journal, after: nat, limit: nat)
    requires JournalInv(j) && PageAfter(j, after, limit).Ok?
    ensures var b, k := PageAfter(j, after, limit).value, UpTo(j.rows, after);
            && b.after == after <= b.next
            && (b.next == after || b.next <= j.high)
            && UpTo(j.rows, b.next) == PageEnd(j.rows, k, limit)
            && b.events == j.rows[k..UpTo(j.rows, b.next)]
            && (b.hasMore <==> exists r :: r in j.rows && r.cursor > b.next)
  {
    PageContents(j, after, limit);
    var next := PageAfter(j, after, limit).value.next;
    PageEndIsReached(j.rows, after, limit, next);
    BeyondMeansMore(j.rows, next);
  }

  lemma {:induction false} ArrivalsKeep(j: Journal, arrivals: seq<Arrival>)
    requires JournalInv(j)
    ensures JournalInv(Arrived(j, arrivals)) && j.rows <= Arrived(j, arrivals).rows
  {
    if arrivals == [] {
    } else {
      var front, last := arrivals[..|arrivals| - 1], arrivals[|arrivals| - 1];
      ArrivalsKeep(j, front);
      AppendKeeps(Arrived(j, front), last.envelope, last.burned);
    }
  }

  /** However many events arrive in between, the latest cursor that comes with a page is not behind its rows. */
  lemma LatestIsNotBehind(j: Journal, arrivals: seq<Arrival>, after: nat, limit: nat)
    requires JournalInv(j) && BatchAfter(j, Arrived(j, arrivals), after, limit).Ok?
    ensures var b := BatchAfter(j, Arrived(j, arrivals), after, limit).value;
            (b.page.events != [] || after <= Latest(j.rows) ==> b.page.next <= b.latest)
            && (b.page.hasMore ==> b.page.next < b.latest)
  {
    var later := Arrived(j, arrivals);
    var page := PageAfter(j, after, limit).value;
    ArrivalsKeep(j, arrivals);
    PageIsExact(j, after, limit);
    PageContents(j, after, limit);
    LatestIsLargest(j, later, page.next);
  }

  lemma LatestIsLargest(j: Journal, later: Journal, next: nat)
    requires JournalInv(later) && j.rows <= later.rows
    ensures forall r <- j.rows :: r.cursor <= Latest(later.rows)
    ensures Latest(j.rows) <= Latest(later.rows)
  {
    forall i | 0 <= i < |j.rows| ensures j.rows[i].cursor <= Latest(later.rows) {
      assert later.rows[i] == j.rows[i];
    }
  }

  // ----- Paging runs -----------------------------------------------------------------------------------

  datatype Op =
    | AppendOp(e: Envelope, burned: nat)
    | PollOp(limit: nat)

  /** A log together with one client: where it started, where it is, and all it has been given. */
  datatype Paging = Paging(journal: Journal, start: nat, cursor: nat, collected: seq<Record>)

  function Step(p: Paging, op: Op): Paging {
    match op
    case AppendOp(e, burned) => p.(journal := Appended(p.journal, e, burned).0)
    case PollOp(limit) =>
      match PageAfter(p.journal, p.cursor, limit)
      case Ok(b) => p.(cursor := b.next, collected := p.collected + b.events)
      case Err(_) => p
  }

  function Run(start: nat, ops: seq<Op>): Paging {
    if ops == [] then Paging(Journal([], 0), start, start, [])
    else Step(Run(start, ops[..|ops| - 1]), ops[|ops| - 1])
  }

  ghost predicate PagingInv(p: Paging) {
    && JournalInv(p.journal)
    && p.start <= p.cursor && (p.cursor == p.start || p.cursor <= p.journal.high)
    && UpTo(p.journal.rows, p.start) <= UpTo(p.journal.rows, p.cursor)
    && p.collected == p.journal.rows[UpTo(p.journal.rows, p.start)..UpTo(p.journal.rows, p.cursor)]
  }

  lemma {:induction false} UpToSnoc(rows: seq<Record>, r: Record, c: nat)
    ensures UpTo(rows + [r], c) == UpTo(rows, c) + if r.cursor <= c then 1 else 0
  {
    if rows == [] {
      assert rows + [r] == [r];
    } else {
      UpToSnoc(rows[1..], r, c);
      assert (rows + [r])[1..] == rows[1..] + [r];
    }
  }

  lemma AppendStep(p: Paging, e: Envelope, burned: nat)
    requires PagingInv(p)
    ensures PagingInv(Step(p, AppendOp(e, burned)))
  {
    AppendKeeps(p.journal, e, burned);
    if Find(p.journal.rows, e.eventId).None? {
      var row := Record(p.journal.high + 1, e);
      UpToSnoc(p.journal.rows, row, p.start);
      UpToSnoc(p.journal.rows, row, p.cursor);
      var rows' := p.journal.rows + [row];
      assert p.collected == rows'[UpTo(rows', p.start)..UpTo(rows', p.cursor)];
    }
  }

  lemma Glue(rows: seq<Record>, a: nat, b: nat, c: nat)
    requires a <= b <= c <= |rows|
    ensures rows[a..b] + rows[b..c] == rows[a..c]
  {
  }

  /** Collecting the next page extends what was collected. */
  lemma PageExtends(p: Paging, limit: nat, page: Page)
    requires PagingInv(p) && PageAfter(p.journal, p.cursor, limit) == Ok(page)
    ensures PagingInv(p.(cursor := page.next, collected := p.collected + page.events))
  {
    var rows := p.journal.rows;
    PageIsExact(p.journal, p.cursor, limit);
    UpToMonotone(rows, p.cursor, page.next);
    Glue(rows, UpTo(rows, p.start), UpTo(rows, p.cursor), UpTo(rows, page.next));
  }

  lemma PollStep(p: Paging, limit: nat)
    requires PagingInv(p)
    ensures PagingInv(Step(p, PollOp(limit)))
  {
    var page := PageAfter(p.journal, p.cursor, limit);
    if page.Ok? { PageExtends(p, limit, page.value); }
  }

  /** Paging refines the log: under every interleaving of appends, re-deliveries and page reads, what the
      client has collected is exactly the log between its start and its cursor - every distinct event
      once, in order, none skipped. */
  lemma {:induction false} PagingRefinesLog(start: nat, ops: seq<Op>)
    ensures PagingInv(Run(start, ops))
    ensures DistinctEvents(Run(start, ops).collected)
  {
    if ops == [] {
    } else {
      PagingRefinesLog(start, ops[..|ops| - 1]);
      match ops[|ops| - 1]
      case AppendOp(e, burned) => AppendStep(Run(start, ops[..|ops| - 1]), e, burned);
      case PollOp(limit) => PollStep(Run(start, ops[..|ops| - 1]), limit);
    }
  }

  /** A page that says there is no more leaves the client with everything after its start. */
  lemma CaughtUp(start: nat, ops: seq<Op>, limit: nat)
    requires var p := Run(start, ops);
             PageAfter(p.journal, p.cursor, limit).Ok? && !PageAfter(p.journal, p.cursor, limit).value.hasMore
    ensures var p := Run(start, ops);
            Step(p, PollOp(limit)).collected == RowsAfter(p.journal.rows, start)
  {
    var p := Run(start, ops);
    PagingRefinesLog(start, ops);
    PollStep(p, limit);
    PageIsExact(p.journal, p.cursor, limit);
    var q := Step(p, PollOp(limit));
    UpToSplits(p.journal.rows, start);
    StartIsKept(start, ops);
    UpToIs(p.journal.rows, q.cursor, |p.journal.rows|);
  }

  lemma {:induction false} StartIsKept(start: nat, ops: seq<Op>)
    ensures Run(start, ops).start == start
  {
    if ops == [] {
    } else {
      StartIsKept(start, ops[..|ops| - 1]);
    }
  }
}
