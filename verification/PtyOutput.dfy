/** The byte-bounded ring of terminal output: accounting, the contiguous tail of cursors it keeps, and
    the truncation marks that let a reader notice every gap. */
module PtyOutput {
  import opened Prelude

  type Byte = x: nat | x < 256

  type Bytes = seq<Byte>

  const MAX_PTY_OUTPUT_LIMIT: nat := 16 * 1024 * 1024

  // ----- Lossy UTF-8 decoding --------------------------------------------------------------------

  function ByteAt(b: Bytes, i: nat): Byte {
    if i < |b| then b[i] else 0
  }

  predicate Continues(b: Bytes, i: nat) {
    0x80 <= ByteAt(b, i) <= 0xBF
  }

  /** Whether the second byte may follow a first byte that opens a longer sequence. */
  predicate SecondFits(first: Byte, second: Byte) {
    (if first == 0xE0 then 0xA0 else if first == 0xF0 then 0x90 else 0x80) <= second <=
    (if first == 0xED then 0x9F else if first == 0xF4 then 0x8F else 0xBF)
  }

  /** Length of the sequence at the front, and whether it is well formed; of an ill-formed one, the
      part that is replaced as a unit. */
  function FrontSequence(b: Bytes): (r: (nat, bool))
    requires b != []
    ensures 1 <= r.0 <= |b|
  {
    var first := b[0];
    if first < 0x80 then (1, true)
    else if 0xC2 <= first <= 0xDF then
      if Continues(b, 1) then (2, true) else (1, false)
    else if 0xE0 <= first <= 0xEF then
      if !SecondFits(first, ByteAt(b, 1)) then (1, false)
      else if !Continues(b, 2) then (2, false)
      else (3, true)
    else if 0xF0 <= first <= 0xF4 then
      if !SecondFits(first, ByteAt(b, 1)) then (1, false)
      else if !Continues(b, 2) then (2, false)
      else if !Continues(b, 3) then (3, false)
      else (4, true)
    else (1, false)
  }

  /** The three bytes of U+FFFD. */
  const REPLACEMENT: Bytes := [0xEF, 0xBF, 0xBD]

  function Lossy(b: Bytes): Bytes {
    if b == [] then []
    else
      var (n, wellFormed) := FrontSequence(b);
      (if wellFormed then b[..n] else REPLACEMENT) + Lossy(b[n..])
  }

  /** Decoding replaces at least one byte by at most three. */
  lemma {:induction false} LossyAtMostTriples(b: Bytes)
    ensures |Lossy(b)| <= 3 * |b|
  {
    if b == [] {
    } else {
      LossyAtMostTriples(b[FrontSequence(b).0..]);
    }
  }

  // ----- The buffer --------------------------------------------------------------------------------

  datatype Chunk = Chunk(cursor: nat, data: Bytes, truncated: bool)

  datatype Buffer = Buffer(chunks: seq<Chunk>, retained: nat, maxBytes: nat)

  function TotalBytes(chunks: seq<Chunk>): nat {
    if chunks == [] then 0 else |chunks[0].data| + TotalBytes(chunks[1..])
  }

  lemma {:induction false} TotalSnoc(chunks: seq<Chunk>, c: Chunk)
    ensures TotalBytes(chunks + [c]) == TotalBytes(chunks) + |c.data|
  {
    if chunks == [] {
      assert chunks + [c] == [c];
    } else {
      TotalSnoc(chunks[1..], c);
      assert (chunks + [c])[1..] == chunks[1..] + [c];
    }
  }

  function Tail(data: Bytes, limit: nat): (r: Bytes)
    ensures |r| <= limit && |r| <= |data|
    ensures |data| <= limit ==> r == data
  {
    if |data| > limit then data[|data| - limit..] else data
  }

  /** How many of the oldest chunks must go until the rest and `incoming` more bytes fit. */
  function Evicted(chunks: seq<Chunk>, incoming: nat, maxBytes: nat): (k: nat)
    ensures k <= |chunks|
  {
    if chunks == [] || TotalBytes(chunks) + incoming <= maxBytes then 0
    else 1 + Evicted(chunks[1..], incoming, maxBytes)
  }

  /** Eviction makes the data fit and never drops a chunk it could have kept. */
  lemma {:induction false} EvictedIsLeast(chunks: seq<Chunk>, incoming: nat, maxBytes: nat)
    requires incoming <= maxBytes
    ensures var k := Evicted(chunks, incoming, maxBytes);
            && TotalBytes(chunks[k..]) + incoming <= maxBytes
            && forall j :: 0 <= j < k ==> TotalBytes(chunks[j..]) + incoming > maxBytes
  {
    var k := Evicted(chunks, incoming, maxBytes);
    if chunks == [] || TotalBytes(chunks) + incoming <= maxBytes {
      assert chunks[0..] == chunks;
    } else {
      EvictedIsLeast(chunks[1..], incoming, maxBytes);
      assert chunks[k..] == chunks[1..][k - 1..];
      forall j | 0 <= j < k ensures TotalBytes(chunks[j..]) + incoming > maxBytes {
        if j == 0 {
          assert chunks[0..] == chunks;
        } else {
          assert chunks[j..] == chunks[1..][j - 1..];
        }
      }
    }
  }

  function Append(b: Buffer, cursor: nat, data: Bytes): Buffer {
    var bounded := Tail(data, b.maxBytes);
    var k := Evicted(b.chunks, |bounded|, b.maxBytes);
    var chunk := Chunk(cursor, Lossy(bounded), |data| > b.maxBytes || k > 0);
    Buffer(b.chunks[k..] + [chunk], TotalBytes(b.chunks[k..]) + |chunk.data|, b.maxBytes)
  }

  ghost predicate Accounted(b: Buffer) {
    && 1 <= b.maxBytes <= MAX_PTY_OUTPUT_LIMIT
    && b.retained == TotalBytes(b.chunks)
    && b.retained <= 3 * b.maxBytes
  }

  /** The accounting bound: the retained count is the total of the stored chunks; it stays within three
      times the limit, and within the limit itself when decoding does not lengthen the data. */
  lemma AppendAccounted(b: Buffer, cursor: nat, data: Bytes)
    requires Accounted(b)
    ensures Accounted(Append(b, cursor, data))
    ensures |Lossy(Tail(data, b.maxBytes))| <= |Tail(data, b.maxBytes)| ==>
              Append(b, cursor, data).retained <= b.maxBytes
  {
    var bounded := Tail(data, b.maxBytes);
    var k := Evicted(b.chunks, |bounded|, b.maxBytes);
    EvictedIsLeast(b.chunks, |bounded|, b.maxBytes);
    LossyAtMostTriples(bounded);
    TotalSnoc(b.chunks[k..], Chunk(cursor, Lossy(bounded), |data| > b.maxBytes || k > 0));
  }

  /** The limit itself can be exceeded: one ill-formed byte is stored as three. */
  lemma LimitCanBeExceeded()
    ensures var b := Append(Buffer([], 0, 1), 1, [0xFF]);
            b.retained == 3 && b.maxBytes == 1
  {
    var data: Bytes := [0xFF];
    assert FrontSequence(data) == (1, false);
    assert data[1..] == [] && Lossy([]) == [];
    assert Lossy(data) == REPLACEMENT;
    TotalSnoc([], Chunk(1, REPLACEMENT, false));
  }

  /** A full buffer that still has room for the data as read. */
  function FilledUpTo(data: Bytes, m: nat): (b: Buffer)
    requires 1 <= m <= MAX_PTY_OUTPUT_LIMIT
    ensures b.maxBytes == m && b.retained == m - |Tail(data, m)|
  {
    var n := m - |Tail(data, m)|;
    Buffer([Chunk(0, seq(n, _ => 0 as Byte), false)], n, m)
  }

  lemma FilledIsAccounted(data: Bytes, m: nat)
    requires 1 <= m <= MAX_PTY_OUTPUT_LIMIT
    ensures Accounted(FilledUpTo(data, m))
    ensures Evicted(FilledUpTo(data, m).chunks, |Tail(data, m)|, m) == 0
  {
    var chunks := FilledUpTo(data, m).chunks;
    assert chunks[1..] == [];
    assert TotalBytes(chunks) == m - |Tail(data, m)|;
  }

  /** A read keeps every buffer of limit `m` within its limit if and only if decoding does not lengthen what is
      kept of it. */
  lemma LimitKeptIff(data: Bytes, m: nat)
    requires 1 <= m <= MAX_PTY_OUTPUT_LIMIT
    ensures (forall b, cursor :: Accounted(b) && b.maxBytes == m ==> Append(b, cursor, data).retained <= m)
       <==> |Lossy(Tail(data, m))| <= |Tail(data, m)|
  {
    if |Lossy(Tail(data, m))| <= |Tail(data, m)| {
      forall b, cursor: nat | Accounted(b) && b.maxBytes == m ensures Append(b, cursor, data).retained <= m {
        AppendAccounted(b, cursor, data);
      }
    } else {
      var b := FilledUpTo(data, m);
      FilledIsAccounted(data, m);
      assert b.chunks[0..] == b.chunks;
      assert Append(b, 1, data).retained > m;
    }
  }

  class OutputBuffer {
    var chunks: seq<Chunk>
    var retainedBytes: nat
    const maxBytes: nat

    ghost function Value(): Buffer
      reads this
    {
      Buffer(chunks, retainedBytes, maxBytes)
    }

    constructor (maxBytes: nat)
      requires 1 <= maxBytes <= MAX_PTY_OUTPUT_LIMIT
      ensures Value() == Buffer([], 0, maxBytes) && Accounted(Value())
    {
      this.maxBytes := maxBytes;
      chunks, retainedBytes := [], 0;
    }

    /** Appends one read. None of the saturating operations saturates, and the loop never meets an empty
        deque. */
    method Push(cursor: nat, data: Bytes)
      requires Accounted(Value())
      modifies this
      ensures Value() == Append(old(Value()), cursor, data) && Accounted(Value())
    {
      AppendAccounted(Value(), cursor, data);
      ghost var before := chunks;
      var truncated := false;
      var bounded := data;
      if |data| > maxBytes {
        truncated := true;
        bounded := data[|data| - maxBytes..];
      }
      ghost var k := 0;
      while SatAdd(retainedBytes, |bounded|, U64_MAX) > maxBytes
        invariant k <= |before| && chunks == before[k..]
        invariant retainedBytes == TotalBytes(chunks) <= 3 * maxBytes
        invariant Evicted(before, |bounded|, maxBytes) == k + Evicted(chunks, |bounded|, maxBytes)
        invariant truncated == (|data| > maxBytes || k > 0)
        decreases |chunks|
      {
        assert SatAdd(retainedBytes, |bounded|, U64_MAX) == retainedBytes + |bounded|;
        assert chunks != [];
        if chunks == [] { break; }
        var removed := chunks[0];
        chunks := chunks[1..];
        assert retainedBytes >= |removed.data|;
        retainedBytes := SatSub(retainedBytes, |removed.data|);
        truncated := true;
        k := k + 1;
      }
      var decoded := Lossy(bounded);
      LossyAtMostTriples(bounded);
      retainedBytes := SatAdd(retainedBytes, |decoded|, U64_MAX);
      chunks := chunks + [Chunk(cursor, decoded, truncated)];
    }
  }

  // ----- Cursors and gaps --------------------------------------------------------------------------------

  /** What a read amounts to for a client: its text as decoded from all of the data, and whether the data
      alone exceeded the limit of the buffer. */
  datatype Issue = Issue(text: Bytes, oversized: bool)

  function IssueOf(data: Bytes, maxBytes: nat): Issue {
    Issue(Lossy(data), |data| > maxBytes)
  }

  /** `chunk` holds the issue that got the given cursor, uncut unless it is marked. */
  predicate Stores(chunk: Chunk, cursor: nat, issue: Issue) {
    chunk.cursor == cursor && (issue.oversized ==> chunk.truncated) && (!issue.oversized ==> chunk.data == issue.text)
  }

  predicate HasMark(chunks: seq<Chunk>) {
    exists i :: 0 <= i < |chunks| && chunks[i].truncated
  }

  /** The retained chunks in terms of everything ever issued (`issued[c - 1]` got cursor `c`): they are
      the last ones, without holes; an unmarked chunk is uncut; and if anything older is gone, some
      retained chunk is marked. */
  ghost predicate Tracks(b: Buffer, issued: seq<Issue>) {
    && |b.chunks| <= |issued|
    && (issued != [] ==> b.chunks != [])
    && (|b.chunks| < |issued| ==> HasMark(b.chunks))
    && var base := |issued| - |b.chunks|;
       forall i :: 0 <= i < |b.chunks| ==> Stores(b.chunks[i], base + i + 1, issued[base + i])
  }

  lemma AppendedStores(b: Buffer, cursor: nat, data: Bytes)
    ensures var k, b' := Evicted(b.chunks, |Tail(data, b.maxBytes)|, b.maxBytes), Append(b, cursor, data);
            && |b'.chunks| == |b.chunks| - k + 1
            && b'.chunks[..|b'.chunks| - 1] == b.chunks[k..]
            && Stores(b'.chunks[|b'.chunks| - 1], cursor, IssueOf(data, b.maxBytes))
            && (k > 0 ==> b'.chunks[|b'.chunks| - 1].truncated)
  {
  }

  lemma TailAndOneTrack(b: Buffer, issued: seq<Issue>, k: nat, b': Buffer, issue: Issue)
    requires Tracks(b, issued) && k <= |b.chunks| && |b'.chunks| == |b.chunks| - k + 1
    requires b'.chunks[..|b'.chunks| - 1] == b.chunks[k..]
    requires Stores(b'.chunks[|b'.chunks| - 1], |issued| + 1, issue)
    requires k > 0 ==> b'.chunks[|b'.chunks| - 1].truncated
    ensures Tracks(b', issued + [issue])
  {
    var base := |issued| - |b.chunks| + k;
    forall i | 0 <= i < |b'.chunks| ensures Stores(b'.chunks[i], base + i + 1, (issued + [issue])[base + i]) {
      if i < |b'.chunks| - 1 {
        assert b'.chunks[i] == b'.chunks[..|b'.chunks| - 1][i] == b.chunks[k + i];
      }
    }
    if k == 0 {
      MarkStays(b.chunks, b'.chunks[|b.chunks|]);
      assert b'.chunks == b.chunks + [b'.chunks[|b.chunks|]];
    }
  }

  lemma AppendTracks(b: Buffer, issued: seq<Issue>, data: Bytes)
    requires Tracks(b, issued)
    ensures Tracks(Append(b, |issued| + 1, data), issued + [IssueOf(data, b.maxBytes)])
  {
    AppendedStores(b, |issued| + 1, data);
    TailAndOneTrack(b, issued, Evicted(b.chunks, |Tail(data, b.maxBytes)|, b.maxBytes),
                    Append(b, |issued| + 1, data), IssueOf(data, b.maxBytes));
  }

  lemma MarkStays(chunks: seq<Chunk>, c: Chunk)
    ensures HasMark(chunks) ==> HasMark(chunks + [c])
    ensures chunks[0..] == chunks
  {
    if HasMark(chunks) {
      var i :| 0 <= i < |chunks| && chunks[i].truncated;
      assert (chunks + [c])[i].truncated;
    }
  }

  /** The chunks of a batch: those with a cursor after `after`. */
  function ChunksAfter(chunks: seq<Chunk>, after: nat): seq<Chunk> {
    if chunks == [] then []
    else if chunks[0].cursor > after then [chunks[0]] + ChunksAfter(chunks[1..], after)
    else ChunksAfter(chunks[1..], after)
  }

  /** On consecutive cursors the batch is a tail of the chunks. */
  lemma {:induction false} ChunksAfterIsSuffix(chunks: seq<Chunk>, first: nat, after: nat)
    requires forall i :: 0 <= i < |chunks| ==> chunks[i].cursor == first + i
    ensures var skip := if after < first then 0
                        else if after - first + 1 <= |chunks| then after - first + 1 else |chunks|;
            ChunksAfter(chunks, after) == chunks[skip..]
  {
    if chunks == [] {
    } else {
      ChunksAfterIsSuffix(chunks[1..], first + 1, after);
      if after < first {
        assert chunks == [chunks[0]] + chunks[1..];
      }
    }
  }

  predicate Unmarked(batch: seq<Chunk>) {
    forall i :: 0 <= i < |batch| ==> !batch[i].truncated
  }

  function LastCursor(batch: seq<Chunk>, after: nat): nat {
    if batch == [] then after else batch[|batch| - 1].cursor
  }

  lemma BatchIsSuffix(b: Buffer, issued: seq<Issue>, after: nat)
    requires Tracks(b, issued)
    ensures var batch, base := ChunksAfter(b.chunks, after), |issued| - |b.chunks|;
            if after < base then batch == b.chunks
            else if after <= |issued| then batch == b.chunks[after - base..]
            else batch == []
  {
    var base := |issued| - |b.chunks|;
    assert forall i :: 0 <= i < |b.chunks| ==> b.chunks[i].cursor == base + 1 + i;
    ChunksAfterIsSuffix(b.chunks, base + 1, after);
  }

  /** Gap detection: a batch without a truncation mark contains every chunk issued after the reader's
      cursor, in order and uncut. */
  lemma UnmarkedBatchIsComplete(b: Buffer, issued: seq<Issue>, after: nat)
    requires Tracks(b, issued)
    ensures var batch := ChunksAfter(b.chunks, after);
            && (after >= |issued| ==> batch == [])
            && (after <= |issued| ==> LastCursor(batch, after) == |issued|)
            && (after <= |issued| && Unmarked(batch) ==>
                 && |batch| == |issued| - after
                 && forall i :: 0 <= i < |batch| ==>
                      batch[i] == Chunk(after + i + 1, issued[after + i].text, false))
  {
    BatchIsSuffix(b, issued, after);
    var batch := ChunksAfter(b.chunks, after);
    var base := |issued| - |b.chunks|;
    if after < base {
      assert HasMark(batch);
    } else if after <= |issued| {
      forall i | 0 <= i < |batch| ensures Stores(batch[i], after + i + 1, issued[after + i]) {
        assert Stores(b.chunks[after - base + i], after + i + 1, issued[after + i]);
      }
    }
  }
}
