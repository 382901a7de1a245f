/** Request bodies: what a body's framing says the bytes ahead mean, the two readers that walk it in
    place, and the chunked encoder they undo. Framing is that of sections 6.3 and 7.1 of RFC 9112. */
module Body {
  import opened Bytes
  import opened Collections
  import opened Wire
  import opened ChunkSize

  const SIZE_LINE: nat := 64
  const TRAILERS: nat := 8 * 1024

  /** The payload the framing yields before it ends or breaks, and the bytes it spans when it ends. */
  datatype Decoded = Decoded(payload: seq<byte>, used: Option<nat>)

  const STUCK := Decoded([], None)

  function After(d: Decoded, payload: seq<byte>, k: nat): Decoded {
    Decoded(payload + d.payload, if d.used.Some? then Some(k + d.used.value) else None)
  }

  datatype Phase = Size | Data | Crlf | Trailer

  /** The meaning of the bytes `s` to a chunked reader that is in `phase` with `left` bytes of the
      chunk and `trailers` trailer bytes behind it. */
  function Rest(s: seq<byte>, phase: Phase, left: nat, trailers: nat): Decoded
    decreases |s|, if phase == Data then 1 else 0
  {
    match phase
    case Size =>
      (match LineOf(s, SIZE_LINE)
       case Line(line) =>
         (match SizeOf(line)
          case None => STUCK
          case Some(n) =>
            After(Rest(s[|line|..], if n == 0 then Trailer else Data, n, trailers), [], |line|))
       case _ => STUCK)
    case Data =>
      if |s| < left then Decoded(s, None)
      else After(Rest(s[left..], Crlf, 0, trailers), s[..left], left)
    case Crlf =>
      if CRLF <= s then After(Rest(s[2..], Size, 0, trailers), [], 2) else STUCK
    case Trailer =>
      match LineOf(s, TRAILERS)
      case Line(line) =>
        if line == CRLF then Decoded([], Some(2))
        else if trailers + |line| > TRAILERS then STUCK
        else After(Rest(s[|line|..], Trailer, 0, trailers + |line|), [], |line|)
      case _ => STUCK
  }

  function ChunkedBody(s: seq<byte>): Decoded {
    Rest(s, Size, 0, 0)
  }

  function FixedBody(s: seq<byte>, left: nat): Decoded {
    if |s| < left then Decoded(s, None) else Decoded(s[..left], Some(left))
  }

  // ---- The encoder

  datatype Chunk = Chunk(digits: seq<byte>, ext: Option<seq<byte>>, data: seq<byte>)

  datatype Message = Message(chunks: seq<Chunk>, last: Chunk, trailers: seq<seq<byte>>)

  function SizeLine(c: Chunk): seq<byte> {
    c.digits + Extension(c.ext) + CRLF
  }

  predicate SizeLineOk(c: Chunk) {
    && Spells(c.digits, |c.data|) && |c.data| < U64
    && (c.ext.Some? ==> Text(c.ext.value).Some? && LF !in c.ext.value)
    && |SizeLine(c)| <= 65
  }

  predicate TrailerOk(line: seq<byte>) {
    line != [] && line != CRLF && line[|line| - 1] == LF && LF !in line[..|line| - 1]
  }

  /** Any split into nonempty chunks, any spelling of their sizes, bounded extensions and trailers. */
  predicate WellFormed(m: Message) {
    && (forall c | c in m.chunks :: SizeLineOk(c) && c.data != [])
    && SizeLineOk(m.last) && m.last.data == []
    && (forall line | line in m.trailers :: TrailerOk(line))
    && |Concat(m.trailers)| <= 8192
  }

  function ChunkBytes(c: Chunk): seq<byte> {
    SizeLine(c) + c.data + CRLF
  }

  function EncodeChunks(chunks: seq<Chunk>): seq<byte> {
    if chunks == [] then [] else ChunkBytes(chunks[0]) + EncodeChunks(chunks[1..])
  }

  function Encode(m: Message): seq<byte> {
    EncodeChunks(m.chunks) + SizeLine(m.last) + Concat(m.trailers) + CRLF
  }

  function Payload(chunks: seq<Chunk>): seq<byte> {
    if chunks == [] then [] else chunks[0].data + Payload(chunks[1..])
  }

  lemma SizeLineRest(c: Chunk, tail: seq<byte>, trailers: nat)
    requires SizeLineOk(c)
    ensures Rest(SizeLine(c) + tail, Size, 0, trailers)
         == After(Rest(tail, if c.data == [] then Trailer else Data, |c.data|, trailers), [], |SizeLine(c)|)
  {
    var line := SizeLine(c);
    SizeLineRoundTrip(c.digits, |c.data|, c.ext);
    ReadsWhatIsSpelled(c.digits, |c.data|);
    assert line[..|line| - 1] == c.digits + Extension(c.ext) + [CR];
    LineOfPrefix(line, tail, SIZE_LINE);
    assert (line + tail)[|line|..] == tail;
  }

  lemma CrlfRest(tail: seq<byte>, trailers: nat)
    ensures Rest(CRLF + tail, Crlf, 0, trailers) == After(Rest(tail, Size, 0, trailers), [], 2)
  {
    hide SizeOf, LineOf;
    assert (CRLF + tail)[2..] == tail;
  }

  lemma DataRest(data: seq<byte>, tail: seq<byte>, trailers: nat)
    requires data != []
    ensures Rest(data + tail, Data, |data|, trailers) == After(Rest(tail, Crlf, 0, trailers), data, |data|)
  {
    hide SizeOf, LineOf;
    assert (data + tail)[|data|..] == tail && (data + tail)[..|data|] == data;
  }

  lemma ChunkRest(c: Chunk, tail: seq<byte>, trailers: nat)
    requires SizeLineOk(c) && c.data != []
    ensures Rest(ChunkBytes(c) + tail, Size, 0, trailers)
         == After(Rest(tail, Size, 0, trailers), c.data, |ChunkBytes(c)|)
  {
    hide Rest, SizeLine, SizeLineOk;
    assert ChunkBytes(c) + tail == SizeLine(c) + (c.data + (CRLF + tail));
    SizeLineRest(c, c.data + (CRLF + tail), trailers);
    DataRest(c.data, CRLF + tail, trailers);
    CrlfRest(tail, trailers);
  }

  lemma {:induction false} ChunksRest(chunks: seq<Chunk>, tail: seq<byte>)
    requires forall c | c in chunks :: SizeLineOk(c) && c.data != []
    ensures ChunkedBody(EncodeChunks(chunks) + tail)
         == After(ChunkedBody(tail), Payload(chunks), |EncodeChunks(chunks)|)
  {
    hide Rest, ChunkBytes, SizeLineOk;
    if chunks == [] {
      assert EncodeChunks(chunks) + tail == tail;
    } else {
      var rest := EncodeChunks(chunks[1..]) + tail;
      assert EncodeChunks(chunks) + tail == ChunkBytes(chunks[0]) + rest;
      ChunkRest(chunks[0], rest, 0);
      ChunksRest(chunks[1..], tail);
      assert Payload(chunks) + ChunkedBody(tail).payload
          == chunks[0].data + (Payload(chunks[1..]) + ChunkedBody(tail).payload);
    }
  }

  lemma TrailerStep(line: seq<byte>, tail: seq<byte>, before: nat)
    requires TrailerOk(line) && before + |line| <= TRAILERS
    ensures Rest(line + tail, Trailer, 0, before)
         == After(Rest(tail, Trailer, 0, before + |line|), [], |line|)
  {
    hide LineOf, SizeOf;
    LineOfPrefix(line, tail, TRAILERS);
    assert (line + tail)[|line|..] == tail;
  }

  lemma BlankLineRest(tail: seq<byte>, before: nat)
    ensures Rest(CRLF + tail, Trailer, 0, before) == Decoded([], Some(2))
  {
    hide LineOf, SizeOf;
    LineOfPrefix(CRLF, tail, TRAILERS);
  }

  lemma {:induction false} TrailersRest(lines: seq<seq<byte>>, tail: seq<byte>, before: nat)
    requires forall line | line in lines :: TrailerOk(line)
    requires before + |Concat(lines)| <= TRAILERS
    ensures Rest(Concat(lines) + CRLF + tail, Trailer, 0, before) == Decoded([], Some(|Concat(lines)| + 2))
  {
    hide Rest, TrailerOk;
    if lines == [] {
      assert Concat(lines) + CRLF + tail == CRLF + tail;
      BlankLineRest(tail, before);
    } else {
      var rest := Concat(lines[1..]) + CRLF + tail;
      assert Concat(lines) + CRLF + tail == lines[0] + rest;
      TrailerStep(lines[0], rest, before);
      TrailersRest(lines[1..], tail, before + |lines[0]|);
    }
  }

  /** Decoding undoes every encoding and stops exactly at its end, whatever follows. */
  lemma ChunkedRoundTrip(m: Message, tail: seq<byte>)
    requires WellFormed(m)
    ensures ChunkedBody(Encode(m) + tail) == Decoded(Payload(m.chunks), Some(|Encode(m)|))
  {
    hide Rest, SizeLine, SizeLineOk, TrailerOk;
    var trailing := Concat(m.trailers) + CRLF + tail;
    assert Encode(m) + tail == EncodeChunks(m.chunks) + (SizeLine(m.last) + trailing);
    ChunksRest(m.chunks, SizeLine(m.last) + trailing);
    SizeLineRest(m.last, trailing, 0);
    TrailersRest(m.trailers, tail, 0);
  }
}
