/**
 The length-prefixed wire format: encoding an envelope, decoding one out of the reused receive
 buffer, and the loop that reads a whole stream.
 */
module Envelope {
  import opened Basics

  datatype Envelope = Envelope(sender: Bytes, data: Bytes)

  /** Size of the receive buffer. */
  const BUFFER: nat := 0x1_0000

  // ---- Little-endian prefixes ----

  function PutUint32(x: UInt32): (b: Bytes)
    ensures |b| == 4 && Uint32(b) == x
  {
    PrefixRoundTrip(x);
    [x % 256, x / 0x100 % 256, x / 0x1_0000 % 256, x / 0x100_0000]
  }

  function Uint32(b: Bytes): UInt32
    requires |b| == 4
  {
    var b0: int, b1: int, b2: int, b3: int := b[0], b[1], b[2], b[3];
    b0 + 0x100 * b1 + 0x1_0000 * b2 + 0x100_0000 * b3
  }

  lemma PrefixRoundTrip(x: UInt32)
    ensures x % 256 + 0x100 * (x / 0x100 % 256) + 0x1_0000 * (x / 0x1_0000 % 256) + 0x100_0000 * (x / 0x100_0000) == x
  {
    var a, b := x / 0x100, x / 0x1_0000;
    assert b == a / 256 && x / 0x100_0000 == b / 256;
  }

  // ---- One envelope ----

  function BodyLength(e: Envelope): nat {
    |e.sender| + |e.data| + 8
  }

  function Body(e: Envelope): (b: Bytes)
    ensures |b| == BodyLength(e)
  {
    PutUint32(ToUInt32(|e.sender|)) + e.sender + PutUint32(ToUInt32(|e.data|)) + e.data
  }

  /** Lengths beyond 32 bits are truncated. */
  function Encode(e: Envelope): Bytes {
    PutUint32(ToUInt32(BodyLength(e))) + Body(e)
  }

  /** A slice expression `b[low:high]`; it panics outside the capacity. */
  function Slice(backing: Bytes, low: UInt32, high: UInt32): Option<Bytes> {
    if low <= high <= |backing| then Some(backing[low..high]) else None
  }

  /**
   Decoding looks at the backing array of its argument only, never at the argument's length; all
   offsets are 32-bit.  None is a panic.
   */
  function Decode(backing: Bytes): Option<Envelope> {
    var idPrefix := Slice(backing, 0, 4);
    if idPrefix.None? then None else
    var afterId := ToUInt32(4 + Uint32(idPrefix.value));
    var id := Slice(backing, 4, afterId);
    if id.None? then None else
    var start := ToUInt32(afterId + 4);
    var dataPrefix := Slice(backing, afterId, start);
    if dataPrefix.None? then None else
    var data := Slice(backing, start, ToUInt32(start + Uint32(dataPrefix.value)));
    if data.None? then None else Some(Envelope(id.value, data.value))
  }

  lemma Middle(a: Bytes, b: Bytes, c: Bytes)
    requires |a| + |b| < TWO_32
    ensures Slice(a + b + c, |a|, |a| + |b|) == Some(b)
  {
    assert (a + b + c)[|a|..|a| + |b|] == b;
  }

  /** A body is decoded exactly, whatever the rest of the buffer holds. */
  lemma DecodeBody(e: Envelope, tail: Bytes)
    requires BodyLength(e) + |tail| < TWO_32
    ensures Decode(Body(e) + tail) == Some(e)
  {
    hide PutUint32, Uint32, Slice;
    var n, m := |e.sender|, |e.data|;
    var p, q := PutUint32(n), PutUint32(m);
    var b := Body(e) + tail;
    assert b == [] + p + (e.sender + q + e.data + tail);
    assert b == p + e.sender + (q + e.data + tail);
    assert b == p + e.sender + q + (e.data + tail);
    assert b == p + e.sender + q + e.data + tail;
    Middle([], p, e.sender + q + e.data + tail);
    Middle(p, e.sender, q + e.data + tail);
    Middle(p + e.sender, q, e.data + tail);
    Middle(p + e.sender + q, e.data, tail);
  }

  /** Whatever is decoded lies inside the buffer, with both prefixes. */
  lemma DecodedFits(backing: Bytes)
    requires |backing| <= BUFFER && Decode(backing).Some?
    ensures BodyLength(Decode(backing).value) <= |backing|
  {
  }

  // ---- The layout, byte by byte ----

  /** The number in the four bytes from `at` on, least significant first. */
  function NumberAt(b: Bytes, at: nat): int
    requires at + 4 <= |b|
  {
    var b0: int, b1: int, b2: int, b3: int := b[at], b[at + 1], b[at + 2], b[at + 3];
    b0 + 256 * b1 + 65536 * b2 + 16777216 * b3
  }

  lemma PrefixIs(x: UInt32, rest: Bytes)
    ensures NumberAt(PutUint32(x) + rest, 0) == x
  {
    hide PutUint32;
    var b := PutUint32(x);
    assert Uint32(b) == x;
    assert (b + rest)[0] == b[0] && (b + rest)[1] == b[1] && (b + rest)[2] == b[2] && (b + rest)[3] == b[3];
  }

  lemma NumberShift(front: Bytes, b: Bytes, at: nat)
    requires |b| >= 4 && at == |front|
    ensures NumberAt(front + b, at) == NumberAt(b, 0)
  {
    assert forall k :: 0 <= k < 4 ==> (front + b)[at + k] == b[k];
  }

  /**
   What is sent for an envelope: the length of all that follows, then the sender and then the payload, each behind
   its own length, all lengths in four bytes, least significant first, and cut to 32 bits.
   */
  lemma EncodeIs(e: Envelope)
    ensures var b, n, m := Encode(e), |e.sender|, |e.data|;
            && |b| == n + m + 12
            && NumberAt(b, 0) == (n + m + 8) % 4294967296
            && NumberAt(b, 4) == n % 4294967296
            && b[8..8 + n] == e.sender
            && NumberAt(b, 8 + n) == m % 4294967296
            && b[12 + n..] == e.data
  {
    hide PutUint32, Uint32;
    var n, m := |e.sender|, |e.data|;
    var p0, p1, p2 := PutUint32(ToUInt32(BodyLength(e))), PutUint32(ToUInt32(n)), PutUint32(ToUInt32(m));
    var b := Encode(e);
    assert b == p0 + (p1 + (e.sender + (p2 + e.data)));
    PrefixIs(ToUInt32(BodyLength(e)), p1 + (e.sender + (p2 + e.data)));
    PrefixIs(ToUInt32(n), e.sender + (p2 + e.data));
    PrefixIs(ToUInt32(m), e.data);
    NumberShift(p0, p1 + (e.sender + (p2 + e.data)), 4);
    assert b == (p0 + p1 + e.sender) + (p2 + e.data);
    NumberShift(p0 + p1 + e.sender, p2 + e.data, 8 + n);
  }

  /** What is read from a buffer of up to 64 KiB: exactly what the two lengths in it say; a panic if too much. */
  lemma DecodeIs(b: Bytes)
    requires 8 <= |b| <= 65536
    ensures var n := NumberAt(b, 0);
            && (8 + n > |b| ==> Decode(b) == None)
            && (8 + n <= |b| ==>
                  var m := NumberAt(b, 4 + n);
                  && n >= 0 && m >= 0
                  && Decode(b) == if 8 + n + m <= |b| then Some(Envelope(b[4..4 + n], b[8 + n..8 + n + m])) else None)
  {
    hide Uint32, NumberAt;
    var n := NumberAt(b, 0);
    NumberIn(b, 0);
    if 8 + n <= |b| {
      NumberIn(b, 4 + n);
    }
  }

  lemma NumberIn(b: Bytes, at: nat)
    requires at + 4 <= |b|
    ensures 0 <= NumberAt(b, at) < 4294967296 && Uint32(b[at..at + 4]) == NumberAt(b, at)
  {
    assert b[at..at + 4] == [b[at], b[at + 1], b[at + 2], b[at + 3]];
  }

  // ---- A connection ----

  /**
   What is left to read from a connection, in the pieces its reads return; the first piece is what the
   buffered reader still holds.
   */
  function Flat(pieces: seq<Bytes>): Bytes {
    if pieces == [] then [] else pieces[0] + Flat(pieces[1..])
  }

  /** The piece that the next read is served from, whatever its size: the first one that is not empty. */
  function Head(pieces: seq<Bytes>): (h: Bytes)
    ensures h <= Flat(pieces) && (h == [] ==> Flat(pieces) == [])
  {
    if pieces == [] then [] else if pieces[0] != [] then pieces[0] else
    assert [] + Flat(pieces[1..]) == Flat(pieces[1..]);
    Head(pieces[1..])
  }

  /** What is left after `n` bytes. */
  function Drop(pieces: seq<Bytes>, n: nat): (rest: seq<Bytes>)
    requires n <= |Flat(pieces)|
    ensures Flat(rest) == Flat(pieces)[n..]
    decreases |pieces|
  {
    if n == 0 then pieces
    else if |pieces[0]| <= n then Drop(pieces[1..], n - |pieces[0]|)
    else
      assert ([pieces[0][n..]] + pieces[1..])[1..] == pieces[1..];
      [pieces[0][n..]] + pieces[1..]
  }

  /** Why the loop ended; every reason is a panic of the reading goroutine. */
  datatype Stop = EndOfStream | TooLong | ShortBody | BadEnvelope

  /** The envelopes as they are handed over, why the loop ended, and what the buffer holds then. */
  datatype Reading = Reading(handed: seq<Envelope>, stop: Stop, buf: Bytes)

  /** Reads cross from one piece to the next, and leave the pieces behind as they are. */
  lemma PiecesExactly(p: Bytes, ps: seq<Bytes>, n: nat)
    requires n <= |p + Flat(ps)|
    ensures Flat([p] + ps) == p + Flat(ps) && Head([p] + ps) == if p != [] then p else Head(ps)
    ensures Drop([p] + ps, n) == if n == 0 then [p] + ps else if n < |p| then [p[n..]] + ps else Drop(ps, n - |p|)
  {
    assert ([p] + ps)[1..] == ps;
  }

  /** How many bytes of a length prefix one read returns. */
  function PrefixRead(pieces: seq<Bytes>): (n: nat)
    ensures n <= 4 && n <= |Flat(pieces)| && (n == 0 ==> Flat(pieces) == [])
  {
    if |Head(pieces)| < 4 then |Head(pieces)| else 4
  }

  /**
   The read loop.  A body is read in full, but a length prefix with a single read, which may return less of it: the
   rest is what `lenBuf` holds from before.  So it is with `buf`: a shorter message leaves the rest of a longer one.
   */
  function ReadPieces(buf: Bytes, lenBuf: Bytes, pieces: seq<Bytes>): Reading
    requires |lenBuf| == 4
    decreases |Flat(pieces)|
  {
    if Flat(pieces) == [] then Reading([], EndOfStream, buf) else
    var n := PrefixRead(pieces);
    var lenBuf' := Flat(pieces)[..n] + lenBuf[n..];
    var length, rest := Uint32(lenBuf'), Drop(pieces, n);
    if length > |buf| then Reading([], TooLong, buf)
    else if length > |Flat(rest)| then Reading([], ShortBody, Flat(rest) + buf[|Flat(rest)|..])
    else
      var buf' := Flat(rest)[..length] + buf[length..];
      var e := Decode(buf');
      if e.None? then Reading([], BadEnvelope, buf') else
      Prepend([e.value], ReadPieces(buf', lenBuf', Drop(rest, length)))
  }

  function Prepend(es: seq<Envelope>, r: Reading): Reading {
    r.(handed := es + r.handed)
  }

  /** An empty receive buffer. */
  function Zeros(): Bytes {
    seq(BUFFER, _ => 0)
  }

  const ZERO_PREFIX: Bytes := [0, 0, 0, 0]

  function EncodeAll(es: seq<Envelope>): Bytes {
    if es == [] then [] else Encode(es[0]) + EncodeAll(es[1..])
  }

  predicate Fit(es: seq<Envelope>) {
    forall i :: 0 <= i < |es| ==> BodyLength(es[i]) <= BUFFER
  }

  /** Every length prefix lies within one piece. */
  ghost predicate Whole(es: seq<Envelope>, pieces: seq<Bytes>)
    requires Flat(pieces) == EncodeAll(es)
    decreases |es|
  {
    es != [] ==>
      && |Head(pieces)| >= 4
      && (assert EncodeAll(es)[|Encode(es[0])|..] == EncodeAll(es[1..]);
          Whole(es[1..], Drop(pieces, |Encode(es[0])|)))
  }

  /** The buffer after these bodies were read into it one after the other. */
  function Overwrite(buf: Bytes, es: seq<Envelope>): (b: Bytes)
    requires |buf| == BUFFER && Fit(es)
    ensures |b| == BUFFER
    decreases |es|
  {
    if es == [] then buf else
    assert forall i :: 0 <= i < |es[1..]| ==> es[1..][i] == es[i + 1];
    Overwrite(Body(es[0]) + buf[BodyLength(es[0])..], es[1..])
  }

  lemma DropTwice(pieces: seq<Bytes>, a: nat, b: nat)
    requires a + b <= |Flat(pieces)|
    ensures Drop(Drop(pieces, a), b) == Drop(pieces, a + b)
    decreases |pieces|
  {
    if a > 0 && b > 0 {
      if |pieces[0]| <= a {
        DropTwice(pieces[1..], a - |pieces[0]|, b);
      } else {
        assert ([pieces[0][a..]] + pieces[1..])[1..] == pieces[1..];
      }
    }
  }

  lemma EncodedParts(e: Envelope, rest: Bytes)
    requires BodyLength(e) <= BUFFER
    ensures var stream := Encode(e) + rest;
            && |Encode(e)| == 4 + BodyLength(e) && stream[..4] == PutUint32(BodyLength(e))
            && stream[4..] == Body(e) + rest && stream[4..][..BodyLength(e)] == Body(e)
  {
    hide Body, PutUint32, Uint32;
    assert Encode(e) + rest == PutUint32(BodyLength(e)) + (Body(e) + rest);
  }

  /** One turn of the loop in which all goes well. */
  lemma ReadTurn(buf: Bytes, lenBuf: Bytes, pieces: seq<Bytes>, e: Envelope)
    requires |lenBuf| == 4 && Flat(pieces) != []
    requires var n := PrefixRead(pieces);
             var lenBuf', rest := Flat(pieces)[..n] + lenBuf[n..], Drop(pieces, n);
             var length := Uint32(lenBuf');
             length <= |buf| && length <= |Flat(rest)| && Decode(Flat(rest)[..length] + buf[length..]) == Some(e)
    ensures var n := PrefixRead(pieces);
            var lenBuf', rest := Flat(pieces)[..n] + lenBuf[n..], Drop(pieces, n);
            var length := Uint32(lenBuf');
            ReadPieces(buf, lenBuf, pieces)
            == Prepend([e], ReadPieces(Flat(rest)[..length] + buf[length..], lenBuf', Drop(rest, length)))
  {
    hide Decode, Uint32, Drop, Flat, PrefixRead, Prepend;
  }

  /** One message whose prefix is whole. */
  lemma ReadOne(buf: Bytes, lenBuf: Bytes, e: Envelope, rest: Bytes, pieces: seq<Bytes>)
    requires |buf| == BUFFER && |lenBuf| == 4 && BodyLength(e) <= BUFFER
    requires Flat(pieces) == Encode(e) + rest && |Head(pieces)| >= 4
    ensures var buf' := Body(e) + buf[BodyLength(e)..];
            |buf'| == BUFFER && ReadPieces(buf, lenBuf, pieces)
                             == Prepend([e], ReadPieces(buf', PutUint32(BodyLength(e)), Drop(pieces, |Encode(e)|)))
  {
    hide Decode, Body, Encode, Uint32, Drop, Head, Flat, ReadPieces, Prepend;
    EncodedParts(e, rest);
    assert PrefixRead(pieces) == 4;
    assert Flat(pieces)[..4] + lenBuf[4..] == PutUint32(BodyLength(e));
    DropTwice(pieces, 4, BodyLength(e));
    DecodeBody(e, buf[BodyLength(e)..]);
    ReadTurn(buf, lenBuf, pieces, e);
  }

  /** Whatever is handed over fits the buffer. */
  lemma {:induction false} HandedFit(buf: Bytes, lenBuf: Bytes, pieces: seq<Bytes>)
    requires |buf| == BUFFER && |lenBuf| == 4
    ensures Fit(ReadPieces(buf, lenBuf, pieces).handed)
    decreases |Flat(pieces)|
  {
    hide Decode, Uint32, Drop;
    if Flat(pieces) != [] {
      var n := PrefixRead(pieces);
      var lenBuf' := Flat(pieces)[..n] + lenBuf[n..];
      var length, rest := Uint32(lenBuf'), Drop(pieces, n);
      if length <= |buf| && length <= |Flat(rest)| {
        var buf' := Flat(rest)[..length] + buf[length..];
        if Decode(buf').Some? {
          DecodedFits(buf');
          HandedFit(buf', lenBuf', Drop(rest, length));
        }
      }
    }
  }

  /**
   Framing round trip, with its exact condition.  Let the concatenated encodings of a list of envelopes
   arrive in pieces that split no length prefix.  Then reading hands over exactly that list and consumes every byte,
   if and only if every body fits the buffer.
   */
  lemma {:induction false} FramingRoundTrip(buf: Bytes, lenBuf: Bytes, es: seq<Envelope>, pieces: seq<Bytes>)
    requires |buf| == BUFFER && |lenBuf| == 4
    requires Flat(pieces) == EncodeAll(es) && Whole(es, pieces)
    ensures Fit(es) ==> ReadPieces(buf, lenBuf, pieces) == Reading(es, EndOfStream, Overwrite(buf, es))
    ensures ReadPieces(buf, lenBuf, pieces).handed == es ==> Fit(es)
    decreases |es|
  {
    hide Decode, Uint32, Body, Encode, Drop, Head;
    HandedFit(buf, lenBuf, pieces);
    if es != [] && Fit(es) {
      hide ReadPieces, Flat, EncodeAll, Fit, Overwrite, Prepend, BodyLength, Whole;
      OverwriteFirst(buf, es);
      var e, rest, left := es[0], es[1..], Drop(pieces, |Encode(es[0])|);
      WholeTail(es, pieces);
      ReadOne(buf, lenBuf, e, EncodeAll(rest), pieces);
      FramingRoundTrip(Body(e) + buf[BodyLength(e)..], PutUint32(BodyLength(e)), rest, left);
      PrependReading(e, rest, Overwrite(buf, es));
      assert [e] + rest == es;
    }
  }

  lemma PrependReading(e: Envelope, rest: seq<Envelope>, buf: Bytes)
    ensures Prepend([e], Reading(rest, EndOfStream, buf)) == Reading([e] + rest, EndOfStream, buf)
  {
  }

  lemma OverwriteFirst(buf: Bytes, es: seq<Envelope>)
    requires |buf| == BUFFER && es != [] && Fit(es)
    ensures BodyLength(es[0]) <= BUFFER && Fit(es[1..])
    ensures |Body(es[0]) + buf[BodyLength(es[0])..]| == BUFFER
    ensures Overwrite(buf, es) == Overwrite(Body(es[0]) + buf[BodyLength(es[0])..], es[1..])
  {
    hide Body;
    assert forall i :: 0 <= i < |es[1..]| ==> es[1..][i] == es[i + 1];
  }

  lemma WholeTail(es: seq<Envelope>, pieces: seq<Bytes>)
    requires es != [] && Flat(pieces) == EncodeAll(es) && Whole(es, pieces)
    ensures Flat(pieces) == Encode(es[0]) + EncodeAll(es[1..]) && |Head(pieces)| >= 4
    ensures var left := Drop(pieces, |Encode(es[0])|); Flat(left) == EncodeAll(es[1..]) && Whole(es[1..], left)
  {
    hide Encode, Head, Drop;
    assert EncodeAll(es)[|Encode(es[0])|..] == EncodeAll(es[1..]);
  }

  /** A prefix of which only the first bytes are there, and zeros for the others, reads as a smaller number. */
  lemma StalePrefix(b: Bytes, n: nat)
    requires |b| == 4 && n <= 4
    ensures Uint32(b[..n] + ZERO_PREFIX[n..]) <= Uint32(b)
  {
  }

  lemma EndsWithNothingLeft(buf: Bytes, lenBuf: Bytes, pieces: seq<Bytes>)
    requires |lenBuf| == 4
    ensures var r := ReadPieces(buf, lenBuf, pieces);
            r.handed == [] && r.stop == EndOfStream ==> Flat(pieces) == []
  {
    hide Decode, Uint32, Drop;
  }

  /** A split prefix promises too few bytes, so some are left over. */
  lemma SplitLeavesBytes(buf: Bytes, e: Envelope, pieces: seq<Bytes>)
    requires |buf| == BUFFER && BodyLength(e) <= BUFFER && Flat(pieces) == Encode(e) && |Head(pieces)| < 4
    ensures var r := ReadPieces(buf, ZERO_PREFIX, pieces);
            !(r.handed == [e] && r.stop == EndOfStream)
  {
    hide Decode, Uint32, Drop, Body, Head, Encode, BodyLength, Flat;
    var n := PrefixRead(pieces);
    EncodedParts(e, []);
    assert Encode(e) + [] == Encode(e);
    var prefix := Encode(e)[..4];
    assert Flat(pieces)[..n] == prefix[..n];
    StalePrefix(prefix, n);
    var lenBuf' := Flat(pieces)[..n] + ZERO_PREFIX[n..];
    var length, rest := Uint32(lenBuf'), Drop(pieces, n);
    assert length <= BodyLength(e) <= |buf| && length < |Flat(rest)|;
    EndsWithNothingLeft(Flat(rest)[..length] + buf[length..], lenBuf', Drop(rest, length));
  }

  /**
   The limit of the loop, for every message: read first on a connection, it comes through if and only if its length
   prefix arrives in one piece.
   */
  lemma OneMessageExactly(buf: Bytes, e: Envelope, pieces: seq<Bytes>)
    requires |buf| == BUFFER && BodyLength(e) <= BUFFER && Flat(pieces) == Encode(e)
    ensures var r := ReadPieces(buf, ZERO_PREFIX, pieces);
            r.handed == [e] && r.stop == EndOfStream <==> |Head(pieces)| >= 4
  {
    hide Decode, Uint32, Drop, Body, Head, Encode;
    if |Head(pieces)| >= 4 {
      assert Flat(pieces) == Encode(e) + [];
      ReadOne(buf, ZERO_PREFIX, e, [], pieces);
    } else {
      SplitLeavesBytes(buf, e, pieces);
    }
  }

  /**
   One turn of the loop, exactly.  The length is in the bytes that one read returns, completed by those of the prefix
   before.  A length beyond the buffer ends the loop with the buffer as it was, and one beyond the stream ends it too.
   Otherwise that many bytes overwrite the start of the buffer, and what they decode to is handed over.
   */
  lemma TurnExactly(buf: Bytes, lenBuf: Bytes, pieces: seq<Bytes>)
    requires |buf| == 65536 && |lenBuf| == 4 && Flat(pieces) != []
    ensures var got := if |Head(pieces)| < 4 then Head(pieces) else Head(pieces)[..4];
            var word := got + lenBuf[|got|..];
            var length, left, r := NumberAt(word, 0), Flat(pieces)[|got|..], ReadPieces(buf, lenBuf, pieces);
            && length >= 0
            && (length > 65536 ==> r == Reading([], TooLong, buf))
            && (|left| < length <= 65536 ==> r == Reading([], ShortBody, left + buf[|left|..]))
            && (length <= 65536 && length <= |left| ==>
                  var now := left[..length] + buf[length..];
                  && (Decode(now).None? ==> r == Reading([], BadEnvelope, now))
                  && (Decode(now).Some? ==>
                        r == Prepend([Decode(now).value], ReadPieces(now, word, Drop(Drop(pieces, |got|), length)))))
  {
    hide Decode, Drop, Head;
    var n := PrefixRead(pieces);
    var got := if |Head(pieces)| < 4 then Head(pieces) else Head(pieces)[..4];
    assert got == Flat(pieces)[..n] && |got| == n;
    assert NumberAt(got + lenBuf[n..], 0) == Uint32(got + lenBuf[n..]);
  }

  /** The limit in numbers: encodings arriving with whole prefixes are all read exactly if no body exceeds 65536. */
  lemma LimitIs64KiB(buf: Bytes, lenBuf: Bytes, es: seq<Envelope>, pieces: seq<Bytes>)
    requires |buf| == 65536 && |lenBuf| == 4
    requires Flat(pieces) == EncodeAll(es) && Whole(es, pieces)
    ensures (forall i :: 0 <= i < |es| ==> |es[i].sender| + |es[i].data| + 8 <= 65536)
            <==> ReadPieces(buf, lenBuf, pieces).handed == es
  {
    hide Whole, ReadPieces, EncodeAll, Flat, Overwrite;
    FramingRoundTrip(buf, lenBuf, es, pieces);
    assert Fit(es) <==> forall i :: 0 <= i < |es| ==> |es[i].sender| + |es[i].data| + 8 <= 65536;
  }

  // ---- Payloads in the reused buffer ----

  /** A payload handed over is a view into the buffer, not a copy. */
  datatype View = View(sender: Bytes, low: nat, high: nat)

  function ViewOf(e: Envelope): View {
    View(e.sender, |e.sender| + 8, BodyLength(e))
  }

  /** What the view of `e` shows when the buffer holds `buf`. */
  function Shown(buf: Bytes, e: Envelope): Bytes
    requires BodyLength(e) <= |buf|
  {
    buf[|e.sender| + 8..BodyLength(e)]
  }

  /** What these bodies, one after the other, make of a buffer cell that holds `b`. */
  function Written(es: seq<Envelope>, cell: nat, b: Byte): Byte {
    if es == [] then b else
    Written(es[1..], cell, if cell < BodyLength(es[0]) then Body(es[0])[cell] else b)
  }

  lemma {:induction false} OverwriteAt(buf: Bytes, es: seq<Envelope>, cell: nat)
    requires |buf| == BUFFER && Fit(es) && cell < BUFFER
    ensures Overwrite(buf, es)[cell] == Written(es, cell, buf[cell])
    decreases |es|
  {
    hide Body;
    if es != [] {
      OverwriteAt(Body(es[0]) + buf[BodyLength(es[0])..], es[1..], cell);
    }
  }

  lemma BodyHoldsData(e: Envelope, buf: Bytes)
    requires |buf| == BUFFER && BodyLength(e) <= BUFFER
    ensures Shown(Body(e) + buf[BodyLength(e)..], e) == e.data
  {
    hide PutUint32;
    var front := PutUint32(ToUInt32(|e.sender|)) + e.sender + PutUint32(ToUInt32(|e.data|));
    assert Body(e) + buf[BodyLength(e)..] == front + e.data + buf[BodyLength(e)..];
  }

  /** No later message has changed a byte of the payload, or the last one to write it wrote the same. */
  predicate Survives(e: Envelope, later: seq<Envelope>) {
    forall k :: 0 <= k < |e.data| ==> Written(later, |e.sender| + 8 + k, e.data[k]) == e.data[k]
  }

  lemma ShownAfter(buf: Bytes, e: Envelope, later: seq<Envelope>)
    requires |buf| == BUFFER && BodyLength(e) <= BUFFER && Fit(later)
    ensures var now := Overwrite(Body(e) + buf[BodyLength(e)..], later);
            Shown(now, e) == e.data <==> Survives(e, later)
  {
    hide Body, Overwrite, Written;
    var start := Body(e) + buf[BodyLength(e)..];
    var now := Overwrite(start, later);
    BodyHoldsData(e, buf);
    forall k | 0 <= k < |e.data| ensures Shown(now, e)[k] == Written(later, |e.sender| + 8 + k, e.data[k]) {
      assert start[|e.sender| + 8 + k] == Shown(start, e)[k];
      OverwriteAt(start, later, |e.sender| + 8 + k);
    }
    if Shown(now, e) == e.data {
      assert forall k :: 0 <= k < |e.data| ==> Shown(now, e)[k] == e.data[k];
    }
  }

  lemma {:induction false} OverwriteAppend(buf: Bytes, a: seq<Envelope>, b: seq<Envelope>)
    requires |buf| == BUFFER && Fit(a + b) && Fit(a) && Fit(b)
    ensures Overwrite(buf, a + b) == Overwrite(Overwrite(buf, a), b)
    decreases |a|
  {
    hide Body;
    if a == [] {
      assert a + b == b;
    } else {
      assert (a + b)[1..] == a[1..] + b;
      assert forall i :: 0 <= i < |(a + b)[1..]| ==> (a + b)[1..][i] == (a + b)[i + 1];
      OverwriteAppend(Body(a[0]) + buf[BodyLength(a[0])..], a[1..], b);
    }
  }

  /**
   Why payloads are judged at hand-over.  After all of `es` has been read, the view of message `i` still shows its
   payload exactly if each payload byte was last written, among the later messages, with the same value.
   */
  lemma PayloadSurvives(es: seq<Envelope>, pieces: seq<Bytes>, i: nat)
    requires Flat(pieces) == EncodeAll(es) && Whole(es, pieces) && Fit(es) && i < |es|
    ensures var r := ReadPieces(Zeros(), ZERO_PREFIX, pieces);
            && r.handed == es && |r.buf| == BUFFER
            && (Shown(r.buf, es[i]) == es[i].data <==> Survives(es[i], es[i + 1..]))
  {
    hide Overwrite, Whole, ReadPieces, Survives, Body, EncodeAll;
    FramingRoundTrip(Zeros(), ZERO_PREFIX, es, pieces);
    var e, later := es[i], es[i + 1..];
    assert es == es[..i] + ([e] + later);
    OverwriteAppend(Zeros(), es[..i], [e] + later);
    var buf := Overwrite(Zeros(), es[..i]);
    OverwriteOne(buf, e, later);
    ShownAfter(buf, e, later);
  }

  lemma OverwriteOne(buf: Bytes, e: Envelope, later: seq<Envelope>)
    requires |buf| == BUFFER && BodyLength(e) <= BUFFER && Fit(later)
    ensures Fit([e] + later) && Overwrite(buf, [e] + later) == Overwrite(Body(e) + buf[BodyLength(e)..], later)
  {
    assert ([e] + later)[1..] == later;
  }

  /** One more message, its sender's name of the same length: the payload survives exactly as far as both agree. */
  lemma NextPayload(a: Envelope, b: Envelope)
    requires |a.sender| == |b.sender|
    ensures var m := if |a.data| <= |b.data| then |a.data| else |b.data|;
            Survives(a, [b]) <==> a.data[..m] == b.data[..m]
  {
    hide Body;
    var m := if |a.data| <= |b.data| then |a.data| else |b.data|;
    forall k | 0 <= k < |a.data|
      ensures Written([b], |a.sender| + 8 + k, a.data[k]) == if k < m then b.data[k] else a.data[k]
    {
      WrittenOnce(b, |a.sender| + 8 + k, a.data[k]);
    }
    if a.data[..m] == b.data[..m] {
      assert forall k :: 0 <= k < m ==> a.data[..m][k] == b.data[..m][k];
    }
  }

  lemma WrittenOnce(b: Envelope, cell: nat, was: Byte)
    requires cell >= |b.sender| + 8
    ensures Written([b], cell, was) == if cell < BodyLength(b) then b.data[cell - |b.sender| - 8] else was
  {
    hide PutUint32;
    assert Written([], cell, if cell < BodyLength(b) then Body(b)[cell] else was) == Written([b], cell, was);
    var front := PutUint32(ToUInt32(|b.sender|)) + b.sender + PutUint32(ToUInt32(|b.data|));
    assert Body(b) == front + b.data && |front| == |b.sender| + 8;
  }

  /**
   So a receiver that looks late is misled: after two messages with names of the same length and different payloads of
   the same length, the view of the first shows the payload of the second.
   */
  lemma PayloadReplaced(a: Envelope, b: Envelope, pieces: seq<Bytes>)
    requires |a.sender| == |b.sender| && |a.data| == |b.data| && BodyLength(a) <= BUFFER
    requires Flat(pieces) == EncodeAll([a, b]) && Whole([a, b], pieces)
    ensures var r := ReadPieces(Zeros(), ZERO_PREFIX, pieces);
            r.handed == [a, b] && |r.buf| == BUFFER && Shown(r.buf, a) == b.data
  {
    hide Overwrite, Whole, ReadPieces, Body, EncodeAll;
    FramingRoundTrip(Zeros(), ZERO_PREFIX, [a, b], pieces);
    assert [a, b] == [a] + [b];
    OverwriteAppend(Zeros(), [a], [b]);
    OverwriteOne(Overwrite(Zeros(), [a]), b, []);
    assert [b] + [] == [b];
    var start := Overwrite(Zeros(), [a]);
    OverwriteNone(Body(b) + start[BodyLength(b)..]);
    BodyHoldsData(b, start);
  }

  lemma OverwriteNone(buf: Bytes)
    requires |buf| == BUFFER
    ensures Overwrite(buf, []) == buf
  {
  }

  // ---- The source's procedures ----

  /** Writes prefix by prefix into a growing buffer, reusing one four-byte array. */
  method EncodeEnvelope(e: Envelope) returns (out: Bytes)
    ensures out == Encode(e)
  {
    var lenPrefix := new Byte[4];
    out := [];
    PutInto(lenPrefix, ToUInt32(|e.sender| + 4 + |e.data| + 4));
    out := out + lenPrefix[..];
    PutInto(lenPrefix, ToUInt32(|e.sender|));
    out := out + lenPrefix[..];
    out := out + e.sender;
    PutInto(lenPrefix, ToUInt32(|e.data|));
    out := out + lenPrefix[..];
    out := out + e.data;
    assert out == Encode(e);
  }

  method PutInto(b: array<Byte>, x: UInt32)
    requires b.Length == 4
    modifies b
    ensures b[..] == PutUint32(x)
  {
    var bytes := PutUint32(x);
    b[0], b[1], b[2], b[3] := bytes[0], bytes[1], bytes[2], bytes[3];
    assert b[..] == bytes;
  }

  method DecodeEnvelope(buf: array<Byte>) returns (v: Option<View>)
    ensures v.Some? ==> v.value.low <= v.value.high <= buf.Length
    ensures Decode(buf[..]) == if v.None? then None else Some(Envelope(v.value.sender, buf[v.value.low..v.value.high]))
    ensures v.Some? && buf.Length <= BUFFER ==> v.value == ViewOf(Decode(buf[..]).value)
  {
    hide Uint32;
    var idPrefix := SliceArray(buf, 0, 4);
    if !idPrefix {
      return None;
    }
    var offset: UInt32 := 4;
    var next := ToUInt32(offset + Uint32(buf[0..4]));
    var ok := SliceArray(buf, offset, next);
    if !ok {
      return None;
    }
    var id := buf[offset..next];
    offset := next;
    next := ToUInt32(offset + 4);
    ok := SliceArray(buf, offset, next);
    if !ok {
      return None;
    }
    var pLen := Uint32(buf[offset..next]);
    offset := next;
    next := ToUInt32(offset + pLen);
    ok := SliceArray(buf, offset, next);
    return if ok then Some(View(id, offset, next)) else None;
  }

  /** Whether the slice expression `buf[low:high]` is in range. */
  method SliceArray(buf: array<Byte>, low: UInt32, high: UInt32) returns (ok: bool)
    ensures ok == Slice(buf[..], low, high).Some?
    ensures ok ==> low <= high <= buf.Length && Slice(buf[..], low, high) == Some(buf[low..high])
  {
    ok := low <= high <= buf.Length;
    if ok {
      assert buf[..][low..high] == buf[low..high];
    }
  }

  /**
   The read loop, with `lenBuf` and `buf` reused.  `handed` records each envelope as it is at hand-over; all
   that the receiver keeps is its view of `buf`.
   */
  method Read(pieces: seq<Bytes>) returns (handed: seq<Envelope>, views: seq<View>, buf: array<Byte>, stop: Stop)
    ensures Reading(handed, stop, buf[..]) == ReadPieces(Zeros(), ZERO_PREFIX, pieces)
    ensures |views| == |handed| && forall i :: 0 <= i < |views| ==> views[i] == ViewOf(handed[i])
  {
    hide Decode, Uint32, PutUint32, Drop, Head;
    buf := new Byte[BUFFER](_ => 0);
    var lenBuf := new Byte[4](_ => 0);
    handed, views := [], [];
    var left := pieces;
    assert buf[..] == Zeros() && lenBuf[..] == ZERO_PREFIX;
    ghost var all := ReadPieces(Zeros(), ZERO_PREFIX, pieces);
    assert Prepend([], all) == all;
    while true
      invariant buf.Length == BUFFER && lenBuf.Length == 4 && buf != lenBuf
      invariant |views| == |handed| && forall i :: 0 <= i < |views| ==> views[i] == ViewOf(handed[i])
      invariant all == Prepend(handed, ReadPieces(buf[..], lenBuf[..], left))
      decreases |Flat(left)|
    {
      assert handed + [] == handed;
      if Flat(left) == [] {
        return handed, views, buf, EndOfStream;
      }
      var n := PrefixRead(left);
      CopyInto(lenBuf, Flat(left)[..n]);
      var length := Uint32(lenBuf[..]);
      left := Drop(left, n);
      if length > buf.Length {
        return handed, views, buf, TooLong;
      }
      if length > |Flat(left)| {
        CopyInto(buf, Flat(left));
        return handed, views, buf, ShortBody;
      }
      CopyInto(buf, Flat(left)[..length]);
      left := Drop(left, length);
      var v := DecodeEnvelope(buf);
      if v.None? {
        return handed, views, buf, BadEnvelope;
      }
      var e := Envelope(v.value.sender, buf[v.value.low..v.value.high]);
      PrependTwice(handed, e, ReadPieces(buf[..], lenBuf[..], left));
      handed, views := handed + [e], views + [v.value];
    }
  }

  lemma PrependTwice(es: seq<Envelope>, e: Envelope, r: Reading)
    ensures Prepend(es, Prepend([e], r)) == Prepend(es + [e], r)
  {
    assert es + ([e] + r.handed) == es + [e] + r.handed;
  }

  method CopyInto(buf: array<Byte>, body: Bytes)
    requires |body| <= buf.Length
    modifies buf
    ensures buf[..] == body + old(buf[..])[|body|..]
  {
    for i := 0 to |body|
      invariant forall k :: 0 <= k < buf.Length ==> buf[k] == if k < i then body[k] else old(buf[k])
    {
      buf[i] := body[i];
    }
  }
}
