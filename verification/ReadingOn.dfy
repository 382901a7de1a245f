/** Where a chunked reader comes to its end if it is read on after every rejection. The reader keeps its place in
    the framing when it rejects a line, so what follows is taken for more of the body. */
module ReadingOn {
  import opened Bytes
  import opened Collections
  import opened Wire
  import opened ChunkSize
  import opened Body

  function Plus(k: nat, n: Option<nat>): Option<nat> {
    match n
    case None => None
    case Some(m) => Some(k + m)
  }

  /** The end that a reader in `phase` with `left` bytes of a chunk reaches in `s`, rejections ignored. */
  function Ending(s: seq<byte>, phase: Phase, left: nat): Option<nat>
    decreases |s|, if phase == Data then 1 else 0
  {
    match phase
    case Size =>
      (match LineOf(s, SIZE_LINE)
       case Line(line) =>
         (match SizeOf(line)
          case None => Plus(|line|, Ending(s[|line|..], Size, 0))
          case Some(n) => Plus(|line|, Ending(s[|line|..], if n == 0 then Trailer else Data, n)))
       case TooLong => Plus(SIZE_LINE + 1, Ending(s[SIZE_LINE + 1..], Size, 0))
       case _ => None)
    case Data => if |s| < left then None else Plus(left, Ending(s[left..], Crlf, 0))
    case Crlf => if |s| < 2 then None else Plus(2, Ending(s[2..], if CRLF <= s then Size else Crlf, 0))
    case Trailer =>
      match LineOf(s, TRAILERS)
      case Line(line) => if line == CRLF then Some(2) else Plus(|line|, Ending(s[|line|..], Trailer, 0))
      case TooLong => Plus(TRAILERS + 1, Ending(s[TRAILERS + 1..], Trailer, 0))
      case _ => None
  }

  // The equations of `Ending`, one phase each, for the members that keep its body hidden.

  lemma EndingSize(s: seq<byte>)
    ensures var line := LineOf(s, SIZE_LINE);
            Ending(s, Size, 0) ==
            if line.Line? then
              var n := SizeOf(line.bytes);
              Plus(|line.bytes|, Ending(s[|line.bytes|..],
                                        if n.None? then Size else if n.value == 0 then Trailer else Data,
                                        if n.None? then 0 else n.value))
            else if line.TooLong? then Plus(SIZE_LINE + 1, Ending(s[SIZE_LINE + 1..], Size, 0))
            else None
  {
    hide LineOf, SizeOf;
  }

  lemma EndingCrlf(s: seq<byte>)
    ensures Ending(s, Crlf, 0) ==
            if |s| < 2 then None else Plus(2, Ending(s[2..], if CRLF <= s then Size else Crlf, 0))
  {
    hide LineOf, SizeOf;
  }

  lemma EndingTrailer(s: seq<byte>)
    ensures var line := LineOf(s, TRAILERS);
            Ending(s, Trailer, 0) ==
            if line.Line? then
              if line.bytes == CRLF then Some(2) else Plus(|line.bytes|, Ending(s[|line.bytes|..], Trailer, 0))
            else if line.TooLong? then Plus(TRAILERS + 1, Ending(s[TRAILERS + 1..], Trailer, 0))
            else None
  {
    hide LineOf, SizeOf;
  }

  lemma EndingData(s: seq<byte>, left: nat, k: nat)
    requires 0 < k <= left && k <= |s|
    ensures Ending(s, Data, left) == Plus(k, Ending(s[k..], if k < left then Data else Crlf, left - k))
  {
    hide LineOf, SizeOf;
    if k < left <= |s| {
      assert s[left..] == s[k..][left - k..];
    }
  }

  lemma EndingShort(s: seq<byte>, left: nat)
    requires |s| < left
    ensures Ending(s, Data, left).None?
  {
  }

  /** Where the framing ends, reading on changes nothing. */
  lemma {:induction false} FramingEndsThere(s: seq<byte>, phase: Phase, left: nat, trailers: nat)
    ensures Rest(s, phase, left, trailers).used.Some? ==> Ending(s, phase, left) == Rest(s, phase, left, trailers).used
    decreases |s|, if phase == Data then 1 else 0
  {
    hide LineOf, SizeOf;
    match phase
    case Size =>
      var line := LineOf(s, SIZE_LINE);
      if line.Line? && SizeOf(line.bytes).Some? {
        var n := SizeOf(line.bytes).value;
        FramingEndsThere(s[|line.bytes|..], if n == 0 then Trailer else Data, n, trailers);
      }
    case Data =>
      if left <= |s| {
        FramingEndsThere(s[left..], Crlf, 0, trailers);
      }
    case Crlf =>
      if CRLF <= s {
        FramingEndsThere(s[2..], Size, 0, trailers);
      }
    case Trailer =>
      var line := LineOf(s, TRAILERS);
      if line.Line? && line.bytes != CRLF && trailers + |line.bytes| <= TRAILERS {
        FramingEndsThere(s[|line.bytes|..], Trailer, 0, trailers + |line.bytes|);
      }
  }

  // ---- Each rejection can be read past

  /** The framing never ends, but a reader that is read on ends after `n` bytes. */
  ghost predicate Strays(s: seq<byte>, n: nat) {
    ChunkedBody(s).used.None? && Ending(s, Size, 0) == Some(n)
  }

  lemma EncodingEnds(m: Message, tail: seq<byte>)
    requires WellFormed(m)
    ensures Ending(Encode(m) + tail, Size, 0) == Some(|Encode(m)|)
  {
    hide Rest, Ending, Encode, WellFormed;
    ChunkedRoundTrip(m, tail);
    FramingEndsThere(Encode(m) + tail, Size, 0, 0);
  }

  /** A line that is no chunk size, and any encoding after it. */
  lemma BadSizeStrays(line: seq<byte>, m: Message, tail: seq<byte>)
    requires 0 < |line| <= SIZE_LINE + 1 && line[|line| - 1] == LF && LF !in line[..|line| - 1]
    requires SizeOf(line).None? && WellFormed(m)
    ensures Strays(line + (Encode(m) + tail), |line| + |Encode(m)|)
  {
    hide Rest, Ending, Encode, WellFormed, LineOf, SizeOf;
    PastBadSize(line, Encode(m) + tail);
    EncodingEnds(m, tail);
  }

  lemma PastBadSize(line: seq<byte>, e: seq<byte>)
    requires 0 < |line| <= SIZE_LINE + 1 && line[|line| - 1] == LF && LF !in line[..|line| - 1] && SizeOf(line).None?
    ensures Rest(line + e, Size, 0, 0) == STUCK && Ending(line + e, Size, 0) == Plus(|line|, Ending(e, Size, 0))
  {
    LineOfPrefix(line, e, SIZE_LINE);
    assert (line + e)[|line|..] == e;
    hide LineOf, SizeOf;
    EndingSize(line + e);
    hide Ending;
  }

  /** A chunk that is not followed by CRLF but by two other bytes, then CRLF and any encoding. */
  lemma BadChunkEndStrays(c: Chunk, x: byte, y: byte, m: Message, tail: seq<byte>)
    requires SizeLineOk(c) && c.data != [] && [x, y] != CRLF && WellFormed(m)
    ensures Strays(SizeLine(c) + (c.data + ([x, y] + (CRLF + (Encode(m) + tail)))),
                   |SizeLine(c)| + |c.data| + 4 + |Encode(m)|)
  {
    hide Rest, Ending, Encode, WellFormed, SizeLine, SizeLineOk;
    var e := CRLF + (Encode(m) + tail);
    var rest := [x, y] + e;
    SizeLineRest(c, c.data + rest, 0);
    EndingSizeLine(c, c.data + rest);
    DataRest(c.data, rest, 0);
    assert (c.data + rest)[|c.data|..] == rest;
    EndingData(c.data + rest, |c.data|, |c.data|);
    BadEndRest(x, y, e);
    PastBadEnd(x, y, e);
    PastEnd(Encode(m) + tail);
    EncodingEnds(m, tail);
  }

  lemma BadEndRest(x: byte, y: byte, e: seq<byte>)
    requires [x, y] != CRLF
    ensures Rest([x, y] + e, Crlf, 0, 0) == STUCK
  {
    hide LineOf, SizeOf;
    assert ([x, y] + e)[..2] == [x, y];
  }

  lemma EndingSizeLine(c: Chunk, tail: seq<byte>)
    requires SizeLineOk(c)
    ensures Ending(SizeLine(c) + tail, Size, 0)
         == Plus(|SizeLine(c)|, Ending(tail, if c.data == [] then Trailer else Data, |c.data|))
  {
    var line := SizeLine(c);
    SizeLineRoundTrip(c.digits, |c.data|, c.ext);
    ReadsWhatIsSpelled(c.digits, |c.data|);
    assert line[..|line| - 1] == c.digits + Extension(c.ext) + [CR];
    LineOfPrefix(line, tail, SIZE_LINE);
    assert (line + tail)[|line|..] == tail;
    EndingSize(line + tail);
    hide Ending, LineOf, SizeOf, SizeLine;
  }

  /** Trailer lines past the bound, then a blank line. */
  lemma LongTrailersStray(last: Chunk, lines: seq<seq<byte>>, tail: seq<byte>)
    requires SizeLineOk(last) && last.data == []
    requires forall line | line in lines :: TrailerOk(line) && |line| <= TRAILERS + 1
    requires |Concat(lines)| > TRAILERS
    ensures Strays(SizeLine(last) + (Concat(lines) + CRLF + tail), |SizeLine(last)| + |Concat(lines)| + 2)
  {
    hide Rest, Ending, SizeLine, SizeLineOk, TrailerOk, Concat;
    var trailing := Concat(lines) + CRLF + tail;
    SizeLineRest(last, trailing, 0);
    EndingSizeLine(last, trailing);
    TrailersEnd(lines, tail);
    TooManyTrailers(lines, tail, 0);
  }

  lemma TrailerLine(line: seq<byte>, rest: seq<byte>, before: nat)
    requires TrailerOk(line) && |line| <= TRAILERS + 1
    ensures Ending(line + rest, Trailer, 0) == Plus(|line|, Ending(rest, Trailer, 0))
    ensures before + |line| > TRAILERS ==> Rest(line + rest, Trailer, 0, before).used.None?
  {
    LineOfPrefix(line, rest, TRAILERS);
    EndingTrailer(line + rest);
    assert (line + rest)[|line|..] == rest;
    hide LineOf, SizeOf, Ending;
  }

  lemma ConcatMore(lines: seq<seq<byte>>, tail: seq<byte>)
    requires lines != []
    ensures Concat(lines) + CRLF + tail == lines[0] + (Concat(lines[1..]) + CRLF + tail)
    ensures |Concat(lines)| == |lines[0]| + |Concat(lines[1..])| && lines[0] in lines
    ensures forall line | line in lines[1..] :: line in lines
  {
  }

  lemma {:induction false} TrailersEnd(lines: seq<seq<byte>>, tail: seq<byte>)
    requires forall line | line in lines :: TrailerOk(line) && |line| <= TRAILERS + 1
    ensures Ending(Concat(lines) + CRLF + tail, Trailer, 0) == Some(|Concat(lines)| + 2)
  {
    if lines == [] {
      assert Concat(lines) + CRLF + tail == CRLF + tail;
      LineOfPrefix(CRLF, tail, TRAILERS);
      EndingTrailer(CRLF + tail);
      hide Ending, LineOf;
    } else {
      hide Ending, LineOf, Concat, TrailerOk;
      ConcatMore(lines, tail);
      TrailerLine(lines[0], Concat(lines[1..]) + CRLF + tail, 0);
      TrailersEnd(lines[1..], tail);
    }
  }

  lemma {:induction false} TooManyTrailers(lines: seq<seq<byte>>, tail: seq<byte>, before: nat)
    requires forall line | line in lines :: TrailerOk(line) && |line| <= TRAILERS + 1
    requires before <= TRAILERS < before + |Concat(lines)|
    ensures Rest(Concat(lines) + CRLF + tail, Trailer, 0, before).used.None?
  {
    hide *;
    SomeLine(lines);
    ConcatMore(lines, tail);
    var rest := Concat(lines[1..]) + CRLF + tail;
    TrailerLine(lines[0], rest, before);
    if before + |lines[0]| <= TRAILERS {
      TrailerPassed(lines[0], rest, before);
      TooManyTrailers(lines[1..], tail, before + |lines[0]|);
    }
  }

  lemma SomeLine(lines: seq<seq<byte>>)
    requires Concat(lines) != []
    ensures lines != []
  {
  }

  lemma TrailerPassed(line: seq<byte>, rest: seq<byte>, before: nat)
    requires TrailerOk(line) && before + |line| <= TRAILERS
    ensures Rest(line + rest, Trailer, 0, before).used.None? <==> Rest(rest, Trailer, 0, before + |line|).used.None?
  {
    hide Rest, TrailerOk;
    TrailerStep(line, rest, before);
  }

  /** An interruption that takes the first byte of a chunk's end: the framing ends with the last chunk after it,
      but a reader that is read on takes the next encoding for more of the body. */
  lemma HalvedStrays(m: Message, tail: seq<byte>)
    requires WellFormed(m)
    ensures var s := CRLF + ([48] + CRLF + (CRLF + (Encode(m) + tail)));
            && Rest(s, Crlf, 0, 0).used == Some(7)
            && Ending(s[1..], Crlf, 0) == Some(6 + |Encode(m)|)
  {
    hide Rest, Ending, Encode, WellFormed;
    EncodingEnds(m, tail);
    LastChunkEnds(Encode(m) + tail);
    HalfEndGoesOn(Encode(m) + tail);
  }

  lemma LastChunkEnds(e: seq<byte>)
    ensures Rest(CRLF + ([48] + CRLF + (CRLF + e)), Crlf, 0, 0).used == Some(7)
  {
    var last := Chunk([48], None, []);
    assert Spells([48], 0);
    assert SizeLine(last) == [48] + CRLF;
    hide Rest, LineOf, SizeOf;
    CrlfRest([48] + CRLF + (CRLF + e), 0);
    SizeLineRest(last, CRLF + e, 0);
    BlankLineRest(e, 0);
  }

  lemma HalfEndGoesOn(e: seq<byte>)
    ensures var s := CRLF + ([48] + CRLF + (CRLF + e));
            Ending(s[1..], Crlf, 0) == Plus(6, Ending(e, Size, 0))
  {
    hide Ending;
    var rest := CRLF + (CRLF + e);
    assert (CRLF + ([48] + CRLF + (CRLF + e)))[1..] == [LF, 48] + rest;
    PastBadEnd(LF, 48, rest);
    PastEnd(CRLF + e);
    PastBlankSize(e);
  }

  lemma PastBadEnd(x: byte, y: byte, e: seq<byte>)
    requires [x, y] != CRLF
    ensures Ending([x, y] + e, Crlf, 0) == Plus(2, Ending(e, Crlf, 0))
  {
    hide Ending;
    EndingCrlf([x, y] + e);
    assert ([x, y] + e)[2..] == e && ([x, y] + e)[..2] == [x, y];
  }

  lemma PastEnd(e: seq<byte>)
    ensures Ending(CRLF + e, Crlf, 0) == Plus(2, Ending(e, Size, 0))
  {
    hide Ending;
    EndingCrlf(CRLF + e);
    assert (CRLF + e)[2..] == e;
  }

  lemma PastBlankSize(e: seq<byte>)
    ensures Ending(CRLF + e, Size, 0) == Plus(2, Ending(e, Size, 0))
  {
    NoSize();
    LineOfPrefix(CRLF, e, SIZE_LINE);
    hide Ending, LineOf, SizeOf;
    EndingSize(CRLF + e);
    assert (CRLF + e)[2..] == e;
  }

  lemma NoSize()
    ensures SizeOf(CRLF).None?
  {
    TextAscii(CRLF);
    assert TrimEnd([13]) == TrimEnd([]) by { assert [13][..0] == []; }
    assert TrimEnd(CRLF) == TrimEnd([13]) by { assert CRLF[..1] == [13]; }
  }
}
