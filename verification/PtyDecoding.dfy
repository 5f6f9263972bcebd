/** What the lossy decoding does to output: well-formed text is left alone, everything else becomes well formed; and
    what a bounded, marked buffer keeps of it. */
module PtyDecoding {
  import opened Prelude
  import opened PtyOutput

  // ----- UTF-8 (section 3 of RFC 3629) ----------------------------------------------------------------------------

  /** A Unicode scalar value: a code point that is not a surrogate. */
  predicate Scalar(c: nat) {
    c < 0xD800 || 0xE000 <= c < 0x11_0000
  }

  function Encode(c: nat): (b: Bytes)
    requires Scalar(c)
    ensures 1 <= |b| <= 4
  {
    if c < 0x80 then [c]
    else if c < 0x800 then [0xC0 + c / 0x40, 0x80 + c % 0x40]
    else if c < 0x1_0000 then [0xE0 + c / 0x1000, 0x80 + c / 0x40 % 0x40, 0x80 + c % 0x40]
    else [0xF0 + c / 0x4_0000, 0x80 + c / 0x1000 % 0x40, 0x80 + c / 0x40 % 0x40, 0x80 + c % 0x40]
  }

  predicate AllScalar(text: seq<nat>) {
    forall i :: 0 <= i < |text| ==> Scalar(text[i])
  }

  function EncodeAll(text: seq<nat>): Bytes
    requires AllScalar(text)
  {
    if text == [] then [] else Encode(text[0]) + EncodeAll(text[1..])
  }

  ghost predicate WellFormed(b: Bytes) {
    exists text :: AllScalar(text) && EncodeAll(text) == b
  }

  // ----- Well-formed text is kept ----------------------------------------------------------------------------------

  lemma ShortFront(c: nat, rest: Bytes)
    requires Scalar(c) && c < 0x800
    ensures FrontSequence(Encode(c) + rest) == (|Encode(c)|, true)
  {
    var b := Encode(c) + rest;
    if c >= 0x80 {
      assert b[0] == 0xC0 + c / 0x40 && b[1] == 0x80 + c % 0x40;
    } else {
      assert b[0] == c;
    }
  }

  lemma MiddleFront(c: nat, rest: Bytes)
    requires Scalar(c) && 0x800 <= c < 0x1_0000
    ensures FrontSequence(Encode(c) + rest) == (3, true)
  {
    var b := Encode(c) + rest;
    assert b[0] == 0xE0 + c / 0x1000 && b[1] == 0x80 + c / 0x40 % 0x40 && b[2] == 0x80 + c % 0x40;
    MiddleSecond(c);
  }

  lemma MiddleSecond(c: nat)
    requires Scalar(c) && 0x800 <= c < 0x1_0000
    ensures 0xE0 <= 0xE0 + c / 0x1000 <= 0xEF && SecondFits(0xE0 + c / 0x1000, 0x80 + c / 0x40 % 0x40)
  {
    var high, low := c / 0x1000, c / 0x40 % 0x40;
    assert c / 0x40 == high * 0x40 + low;
    assert high == 0 ==> c / 0x40 >= 0x20;
    assert high == 0xD ==> c < 0xD800;
  }

  lemma LongFront(c: nat, rest: Bytes)
    requires Scalar(c) && 0x1_0000 <= c
    ensures FrontSequence(Encode(c) + rest) == (4, true)
  {
    var b := Encode(c) + rest;
    assert b[0] == 0xF0 + c / 0x4_0000 && b[1] == 0x80 + c / 0x1000 % 0x40;
    assert b[2] == 0x80 + c / 0x40 % 0x40 && b[3] == 0x80 + c % 0x40;
    LongSecond(c);
  }

  lemma LongSecond(c: nat)
    requires Scalar(c) && 0x1_0000 <= c
    ensures 0xF0 <= 0xF0 + c / 0x4_0000 <= 0xF4 && SecondFits(0xF0 + c / 0x4_0000, 0x80 + c / 0x1000 % 0x40)
  {
    var high, low := c / 0x4_0000, c / 0x1000 % 0x40;
    assert c / 0x1000 == high * 0x40 + low;
    assert high == 0 ==> c / 0x1000 >= 0x10;
    assert high == 4 ==> c < 0x11_0000;
  }

  lemma EncodedFront(c: nat, rest: Bytes)
    requires Scalar(c)
    ensures FrontSequence(Encode(c) + rest) == (|Encode(c)|, true)
  {
    if c < 0x800 { ShortFront(c, rest); } else if c < 0x1_0000 { MiddleFront(c, rest); } else { LongFront(c, rest); }
  }

  lemma {:induction false} EncodedIsKept(text: seq<nat>)
    requires AllScalar(text)
    ensures Lossy(EncodeAll(text)) == EncodeAll(text)
  {
    if text == [] {
    } else {
      var first, rest := Encode(text[0]), EncodeAll(text[1..]);
      EncodedFront(text[0], rest);
      EncodedIsKept(text[1..]);
      assert (first + rest)[..|first|] == first && (first + rest)[|first|..] == rest;
    }
  }

  // ----- Everything becomes well formed ----------------------------------------------------------------------------

  /** What a well-formed sequence stands for. */
  lemma FrontIsEncoded(b: Bytes) returns (c: nat)
    requires b != [] && FrontSequence(b).1
    ensures Scalar(c) && Encode(c) == b[..FrontSequence(b).0]
  {
    var n := FrontSequence(b).0;
    if n == 1 {
      c := b[0];
      assert b[..1] == [b[0]];
    } else if n == 2 {
      c := ShortDecoded(b[0], b[1]);
      assert b[..2] == [b[0], b[1]];
    } else if n == 3 {
      c := MiddleDecoded(b[0], b[1], b[2]);
      assert b[..3] == [b[0], b[1], b[2]];
    } else {
      c := LongDecoded(b[0], b[1], b[2], b[3]);
      assert b[..4] == [b[0], b[1], b[2], b[3]];
    }
  }

  lemma ShortDecoded(x: Byte, y: Byte) returns (c: nat)
    requires 0xC2 <= x <= 0xDF && 0x80 <= y <= 0xBF
    ensures Scalar(c) && Encode(c) == [x, y]
  {
    var high, low := x - 0xC0, y - 0x80;
    c := high * 0x40 + low;
    assert c / 0x40 == high && c % 0x40 == low;
  }

  lemma MiddleDecoded(x: Byte, y: Byte, z: Byte) returns (c: nat)
    requires 0xE0 <= x <= 0xEF && SecondFits(x, y) && 0x80 <= z <= 0xBF
    ensures Scalar(c) && Encode(c) == [x, y, z]
  {
    var high, middle, low := x - 0xE0, y - 0x80, z - 0x80;
    c := high * 0x1000 + middle * 0x40 + low;
    assert c / 0x1000 == high && c / 0x40 == high * 0x40 + middle && c / 0x40 % 0x40 == middle && c % 0x40 == low;
  }

  lemma LongDecoded(w: Byte, x: Byte, y: Byte, z: Byte) returns (c: nat)
    requires 0xF0 <= w <= 0xF4 && SecondFits(w, x) && 0x80 <= y <= 0xBF && 0x80 <= z <= 0xBF
    ensures Scalar(c) && Encode(c) == [w, x, y, z]
  {
    var a, b, d, e := w - 0xF0, x - 0x80, y - 0x80, z - 0x80;
    c := a * 0x4_0000 + b * 0x1000 + d * 0x40 + e;
    assert c / 0x4_0000 == a && c / 0x1000 == a * 0x40 + b && c / 0x1000 % 0x40 == b;
    assert c / 0x40 == (a * 0x40 + b) * 0x40 + d && c / 0x40 % 0x40 == d && c % 0x40 == e;
  }

  lemma ReplacementIsEncoded()
    ensures Scalar(0xFFFD) && Encode(0xFFFD) == REPLACEMENT
  {
  }

  lemma {:induction false} DecodedText(b: Bytes) returns (text: seq<nat>)
    ensures AllScalar(text) && EncodeAll(text) == Lossy(b)
  {
    if b == [] {
      text := [];
    } else {
      var (n, wellFormed) := FrontSequence(b);
      var rest := DecodedText(b[n..]);
      var c := 0xFFFD;
      if wellFormed {
        c := FrontIsEncoded(b);
      } else {
        ReplacementIsEncoded();
      }
      text := [c] + rest;
      assert text[1..] == rest;
    }
  }

  /** Decoding makes any bytes well formed, and changes exactly those that were not. */
  lemma LossyIsRepair(b: Bytes)
    ensures WellFormed(Lossy(b))
    ensures Lossy(b) == b <==> WellFormed(b)
  {
    var text := DecodedText(b);
    if WellFormed(b) {
      var t :| AllScalar(t) && EncodeAll(t) == b;
      EncodedIsKept(t);
    }
  }

  // ----- What is replaced as a unit --------------------------------------------------------------------------------

  /** The bytes open some well-formed sequence. */
  ghost predicate Opens(p: Bytes) {
    exists c :: Scalar(c) && p <= Encode(c)
  }

  /** What the front of `b` has in common with some other bytes decides what it is. */
  lemma FrontDecided(b: Bytes, x: Bytes)
    requires b != [] && !FrontSequence(b).1 && FrontSequence(b).0 < |b|
    requires b[..FrontSequence(b).0 + 1] <= x
    ensures x != [] && FrontSequence(x) == FrontSequence(b)
  {
    var n := FrontSequence(b).0;
    forall i | 0 <= i <= n ensures ByteAt(x, i) == ByteAt(b, i) {
      assert b[..n + 1][i] == x[i];
    }
  }

  lemma PartOpens(b: Bytes)
    requires b != [] && !FrontSequence(b).1 && FrontSequence(b).0 > 1
    ensures Opens(b[..FrontSequence(b).0])
  {
    var n := FrontSequence(b).0;
    if b[0] < 0xF0 {
      var c := MiddleDecoded(b[0], b[1], 0x80);
      assert b[..n] <= Encode(c);
    } else if n == 2 {
      var c := LongDecoded(b[0], b[1], 0x80, 0x80);
      assert b[..n] <= Encode(c);
    } else {
      var c := LongDecoded(b[0], b[1], b[2], 0x80);
      assert b[..n] <= Encode(c);
    }
  }

  /** An ill-formed front is replaced as far as it could have opened a well-formed sequence, and no further; a byte
      that opens none is replaced alone. */
  lemma ReplacedUnit(b: Bytes)
    requires b != [] && !FrontSequence(b).1
    ensures var n := FrontSequence(b).0;
            && (n > 1 ==> Opens(b[..n]))
            && (n < |b| ==> !Opens(b[..n + 1]))
  {
    var n := FrontSequence(b).0;
    if n > 1 {
      PartOpens(b);
    }
    if n < |b| && Opens(b[..n + 1]) {
      var c :| Scalar(c) && b[..n + 1] <= Encode(c);
      FrontDecided(b, Encode(c));
      EncodedFront(c, []);
    }
  }

  // ----- What is kept of a read ------------------------------------------------------------------------------------

  /** Of a read that exceeds the limit exactly the last bytes are kept, of any other all of them. */
  lemma TailIsTheEnd(data: Bytes, limit: nat)
    ensures var kept := Tail(data, limit);
            && |kept| == (if |data| <= limit then |data| else limit)
            && exists lost: Bytes :: data == lost + kept
  {
    var kept := Tail(data, limit);
    var lost := data[..|data| - |kept|];
    assert data == lost + kept;
  }

  /** A read of well-formed text within the limit is stored as it is. */
  lemma TextIsStored(b: Buffer, cursor: nat, data: Bytes)
    requires WellFormed(data) && |data| <= b.maxBytes
    ensures var chunks := Append(b, cursor, data).chunks;
            chunks != [] && chunks[|chunks| - 1].data == data && chunks[|chunks| - 1].cursor == cursor
  {
    LossyIsRepair(data);
  }

  /** A chunk is marked exactly if its read was cut or an older chunk was dropped for it. */
  lemma MarkedIff(b: Buffer, cursor: nat, data: Bytes)
    ensures var chunks := Append(b, cursor, data).chunks;
            && chunks != []
            && (chunks[|chunks| - 1].truncated <==> |data| > b.maxBytes || |chunks| <= |b.chunks|)
            && chunks[..|chunks| - 1] == b.chunks[|b.chunks| - (|chunks| - 1)..]
  {
  }

  /** The room that reads take at most, before and after decoding. */
  function Room(inputs: seq<Bytes>): nat {
    if inputs == [] then 0
    else
      var last := inputs[|inputs| - 1];
      Room(inputs[..|inputs| - 1]) + if |Lossy(last)| > |last| then |Lossy(last)| else |last|
  }

  function Appended(maxBytes: nat, inputs: seq<Bytes>): Buffer {
    if inputs == [] then Buffer([], 0, maxBytes)
    else Append(Appended(maxBytes, inputs[..|inputs| - 1]), |inputs|, inputs[|inputs| - 1])
  }

  /** So long as all reads fit, nothing is dropped, cut or marked. */
  lemma {:induction false} NothingIsLostBelowTheLimit(maxBytes: nat, inputs: seq<Bytes>)
    requires Room(inputs) <= maxBytes
    ensures var chunks := Appended(maxBytes, inputs).chunks;
            && |chunks| == |inputs| && TotalBytes(chunks) <= Room(inputs)
            && Appended(maxBytes, inputs).maxBytes == maxBytes
            && forall i :: 0 <= i < |chunks| ==> chunks[i] == Chunk(i + 1, Lossy(inputs[i]), false)
  {
    if inputs == [] {
    } else {
      var front, last := inputs[..|inputs| - 1], inputs[|inputs| - 1];
      NothingIsLostBelowTheLimit(maxBytes, front);
      var b := Appended(maxBytes, front);
      assert Evicted(b.chunks, |last|, maxBytes) == 0 && b.chunks[0..] == b.chunks;
      TotalSnoc(b.chunks, Chunk(|inputs|, Lossy(last), false));
    }
  }
}
