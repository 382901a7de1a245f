/** What a byte stream means as pipelined requests: the heads a grammar finds, the bodies their framing delimits,
    and the boundaries between them (sections 6.3 and 9.3.2 of RFC 9112). */
module Pipelines {
  import opened Bytes
  import opened Wire
  import opened Body

  /** The parts of a request head that the framing needs. */
  datatype Head = Head(length: Option<nat>, chunked: bool, close: bool)

  datatype Verdict = More | Bad(status: int) | Complete(head: Head)

  /** What the lines read so far amount to. The theorems hold for every head grammar. */
  type Grammar = seq<seq<byte>> -> Verdict

  datatype HeadParse = Parsed(head: Head, used: nat) | Refused(status: int) | Ended

  function Shifted(p: HeadParse, k: nat): HeadParse {
    match p
    case Parsed(head, used) => Parsed(head, k + used)
    case _ => p
  }

  /** The head at the front of `s`, after `lines` of `total` bytes out of a `budget`. */
  function HeadAt(g: Grammar, s: seq<byte>, lines: seq<seq<byte>>, total: nat, budget: nat): (p: HeadParse)
    ensures p.Parsed? ==> 0 < p.used <= |s|
    decreases |s|
  {
    match LineOf(s, if total < budget then budget - total else 0)
    case Line(line) =>
      (match g(lines + [line])
       case More => Shifted(HeadAt(g, s[|line|..], lines + [line], total + |line|, budget), |line|)
       case Bad(status) => Refused(status)
       case Complete(head) => Parsed(head, |line|))
    case TooLong => Refused(431)
    case _ => Ended
  }

  /** The body that follows a head, as its framing delimits it. */
  function Extent(head: Head, s: seq<byte>): Decoded {
    if head.chunked then ChunkedBody(s)
    else
      match head.length
      case None => Decoded([], Some(0))
      case Some(n) => FixedBody(s, n)
  }

  lemma ExtentFits(head: Head, s: seq<byte>)
    ensures Extent(head, s).used.Some? ==> Extent(head, s).used.value <= |s|
  {
    RestFits(s, Size, 0, 0);
  }

  lemma {:induction false} RestFits(s: seq<byte>, phase: Phase, left: nat, trailers: nat)
    ensures Rest(s, phase, left, trailers).used.Some? ==> Rest(s, phase, left, trailers).used.value <= |s|
    decreases |s|, if phase == Data then 1 else 0
  {
    match phase
    case Size =>
      var line := LineOf(s, SIZE_LINE);
      if line.Line? && ChunkSize.SizeOf(line.bytes).Some? {
        var n := ChunkSize.SizeOf(line.bytes).value;
        RestFits(s[|line.bytes|..], if n == 0 then Trailer else Data, n, trailers);
      }
    case Data =>
      if left <= |s| {
        RestFits(s[left..], Crlf, 0, trailers);
      }
    case Crlf =>
      if CRLF <= s {
        RestFits(s[2..], Size, 0, trailers);
      }
    case Trailer =>
      var line := LineOf(s, TRAILERS);
      if line.Line? && line.bytes != CRLF && trailers + |line.bytes| <= TRAILERS {
        RestFits(s[|line.bytes|..], Trailer, 0, trailers + |line.bytes|);
      }
  }

  /** One request of the pipeline: where its head starts and the payload its framing yields. */
  datatype Expected = Expected(at: nat, payload: seq<byte>)

  /** Bytes from the front of `s` to where its first request's framing ends, if it does. */
  function Span(g: Grammar, s: seq<byte>, budget: nat): (n: Option<nat>)
    ensures n.Some? ==> 0 < n.value <= |s|
  {
    match HeadAt(g, s, [], 0, budget)
    case Parsed(head, used) =>
      var d := Extent(head, s[used..]);
      ExtentFits(head, s[used..]);
      if d.used.Some? then Some(used + d.used.value) else None
    case _ => None
  }

  /** The requests pipelined in `s`, which starts at offset `at` of the stream. */
  function Pipeline(g: Grammar, s: seq<byte>, at: nat, budget: nat): seq<Expected>
    decreases |s|
  {
    match HeadAt(g, s, [], 0, budget)
    case Parsed(head, used) =>
      [Expected(at, Extent(head, s[used..]).payload)]
      + (match Span(g, s, budget)
         case Some(n) => Pipeline(g, s[n..], at + n, budget)
         case None => [])
    case _ => []
  }

  /** The offsets at which a head may be looked for: the front, and the end of each request's framing. */
  function Boundaries(g: Grammar, s: seq<byte>, at: nat, budget: nat): seq<nat>
    decreases |s|
  {
    [at] + (match Span(g, s, budget)
            case Some(n) => Boundaries(g, s[n..], at + n, budget)
            case None => [])
  }

  lemma HeadStep(g: Grammar, s: seq<byte>, lines: seq<seq<byte>>, total: nat, budget: nat)
    ensures var line := LineOf(s, if total < budget then budget - total else 0);
            HeadAt(g, s, lines, total, budget) ==
            if line.Line? then
              match g(lines + [line.bytes])
              case More =>
                Shifted(HeadAt(g, s[|line.bytes|..], lines + [line.bytes], total + |line.bytes|, budget), |line.bytes|)
              case Bad(status) => Refused(status)
              case Complete(head) => Parsed(head, |line.bytes|)
            else if line.TooLong? then Refused(431)
            else Ended
  {
  }

  /** The budget is for the whole head: a parsed head is at most two bytes longer, however many lines it has, if an
      bare line feed ends or spoils every head. */
  lemma {:induction false} HeadWithinBudget(g: Grammar, s: seq<byte>, lines: seq<seq<byte>>, total: nat, budget: nat)
    requires forall before: seq<seq<byte>> :: g(before + [[LF]]) != More
    requires total <= budget + 1
    ensures var p := HeadAt(g, s, lines, total, budget); p.Parsed? ==> total + p.used <= budget + 2
    decreases |s|
  {
    HeadStep(g, s, lines, total, budget);
    hide HeadAt;
    var line := LineOf(s, if total < budget then budget - total else 0);
    if line.Line? && total >= budget {
      assert line.bytes == [LF];
    } else if line.Line? && g(lines + [line.bytes]) == More {
      HeadWithinBudget(g, s[|line.bytes|..], lines + [line.bytes], total + |line.bytes|, budget);
    }
  }

  /** The payload of the request at the front of `s`. */
  function FirstPayload(g: Grammar, s: seq<byte>, budget: nat): seq<byte>
    requires HeadAt(g, s, [], 0, budget).Parsed?
  {
    var p := HeadAt(g, s, [], 0, budget);
    Extent(p.head, s[p.used..]).payload
  }

  lemma PipelineStep(g: Grammar, s: seq<byte>, at: nat, budget: nat)
    requires HeadAt(g, s, [], 0, budget).Parsed?
    ensures var p := HeadAt(g, s, [], 0, budget);
            Pipeline(g, s, at, budget)
            == [Expected(at, FirstPayload(g, s, budget))]
               + (match Span(g, s, budget)
                  case Some(n) => Pipeline(g, s[n..], at + n, budget)
                  case None => [])
  {
  }

  lemma BoundariesStep(g: Grammar, s: seq<byte>, at: nat, budget: nat)
    ensures Boundaries(g, s, at, budget)
         == [at] + (match Span(g, s, budget)
                    case Some(n) => Boundaries(g, s[n..], at + n, budget)
                    case None => [])
  {
  }

  // ---- What a well-behaved client pipelines

  /** A request as its client frames it: `text` is a head that says `head`, followed by the body. */
  datatype Sent = Sent(text: seq<byte>, head: Head, plain: seq<byte>, chunks: Message)

  function BodyBytes(q: Sent): seq<byte> {
    if q.head.chunked then Encode(q.chunks) else q.plain
  }

  function BodyPayload(q: Sent): seq<byte> {
    if q.head.chunked then Body.Payload(q.chunks.chunks) else q.plain
  }

  ghost predicate SentOk(g: Grammar, q: Sent, budget: nat) {
    && HeadAt(g, q.text, [], 0, budget) == Parsed(q.head, |q.text|)
    && (if q.head.chunked then WellFormed(q.chunks)
        else |q.plain| == if q.head.length.Some? then q.head.length.value else 0)
  }

  function Stream(qs: seq<Sent>): seq<byte> {
    if qs == [] then [] else qs[0].text + BodyBytes(qs[0]) + Stream(qs[1..])
  }

  function Expectations(qs: seq<Sent>, at: nat): seq<Expected> {
    if qs == [] then []
    else [Expected(at, BodyPayload(qs[0]))]
         + Expectations(qs[1..], at + |qs[0].text + BodyBytes(qs[0])|)
  }

  lemma ExtentOfSent(g: Grammar, q: Sent, rest: seq<byte>, budget: nat)
    requires SentOk(g, q, budget)
    ensures Extent(q.head, BodyBytes(q) + rest) == Decoded(BodyPayload(q), Some(|BodyBytes(q)|))
  {
    hide HeadAt, Rest, Encode, WellFormed;
    if q.head.chunked {
      ChunkedRoundTrip(q.chunks, rest);
    } else {
      assert (q.plain + rest)[..|q.plain|] == q.plain;
    }
  }

  /** A head is parsed from its own bytes: what follows does not matter. */
  lemma {:induction false} HeadOfPrefix(g: Grammar, s: seq<byte>, rest: seq<byte>, lines: seq<seq<byte>>, total: nat,
                                        budget: nat)
    requires HeadAt(g, s, lines, total, budget).Parsed?
    ensures HeadAt(g, s + rest, lines, total, budget) == HeadAt(g, s, lines, total, budget)
    decreases |s|
  {
    var cap := if total < budget then budget - total else 0;
    HeadStep(g, s, lines, total, budget);
    HeadStep(g, s + rest, lines, total, budget);
    hide LineOf, HeadAt;
    if LineOf(s, cap).Line? {
      var bytes := LineOf(s, cap).bytes;
      LineOfMore(s, rest, cap);
      if g(lines + [bytes]).More? {
        HeadOfPrefix(g, s[|bytes|..], rest, lines + [bytes], total + |bytes|, budget);
      }
    }
  }

  lemma LineOfMore(s: seq<byte>, rest: seq<byte>, cap: nat)
    requires LineOf(s, cap).Line?
    ensures LineOf(s + rest, cap) == LineOf(s, cap)
    ensures var n := |LineOf(s, cap).bytes|; n <= |s| && (s + rest)[n..] == s[n..] + rest
  {
    var bytes := LineOf(s, cap).bytes;
    hide LineOf;
    assert s == bytes + s[|bytes|..];
    assert s + rest == bytes + (s[|bytes|..] + rest);
    LineOfPrefix(bytes, s[|bytes|..] + rest, cap);
  }

  lemma SpanOfSent(g: Grammar, q: Sent, rest: seq<byte>, budget: nat)
    requires SentOk(g, q, budget)
    ensures var s := q.text + BodyBytes(q) + rest;
            && HeadAt(g, s, [], 0, budget).Parsed?
            && Span(g, s, budget) == Some(|q.text + BodyBytes(q)|)
            && FirstPayload(g, s, budget) == BodyPayload(q)
  {
    hide HeadAt, Extent, WellFormed, BodyPayload, BodyBytes;
    var s := q.text + BodyBytes(q) + rest;
    HeadOfPrefix(g, q.text, BodyBytes(q) + rest, [], 0, budget);
    assert s == q.text + (BodyBytes(q) + rest);
    assert s[|q.text|..] == BodyBytes(q) + rest;
    ExtentOfSent(g, q, rest, budget);
  }

  lemma StreamOfMore(qs: seq<Sent>, tail: seq<byte>, at: nat)
    requires qs != []
    ensures var first := qs[0].text + BodyBytes(qs[0]);
            var rest := Stream(qs[1..]) + tail;
            && Stream(qs) + tail == first + rest
            && (first + rest)[|first|..] == rest
            && |Stream(qs)| == |first| + |Stream(qs[1..])|
            && Expectations(qs, at) == [Expected(at, BodyPayload(qs[0]))] + Expectations(qs[1..], at + |first|)
  {
    hide BodyBytes, BodyPayload;
  }

  lemma PipelineOfOne(g: Grammar, q: Sent, rest: seq<byte>, at: nat, budget: nat)
    requires SentOk(g, q, budget)
    ensures var first := q.text + BodyBytes(q);
            Pipeline(g, first + rest, at, budget)
            == [Expected(at, BodyPayload(q))] + Pipeline(g, rest, at + |first|, budget)
  {
    hide *;
    var first := q.text + BodyBytes(q);
    SpanOfSent(g, q, rest, budget);
    PipelineStep(g, first + rest, at, budget);
    assert (first + rest)[|first|..] == rest;
  }

  /** The pipeline of well-framed requests is those requests, in order, with their own payloads. */
  lemma {:induction false} PipelineRoundTrip(g: Grammar, qs: seq<Sent>, tail: seq<byte>, at: nat, budget: nat)
    requires forall q | q in qs :: SentOk(g, q, budget)
    ensures Pipeline(g, Stream(qs) + tail, at, budget)
         == Expectations(qs, at) + Pipeline(g, tail, at + |Stream(qs)|, budget)
  {
    if qs == [] {
      hide HeadAt, Span, FirstPayload, Pipeline, SentOk;
      assert Stream(qs) + tail == tail;
    } else {
      hide *;
      var first := qs[0].text + BodyBytes(qs[0]);
      StreamOfMore(qs, tail, at);
      PipelineOfOne(g, qs[0], Stream(qs[1..]) + tail, at, budget);
      PipelineRoundTrip(g, qs[1..], tail, at + |first|, budget);
      Associates([Expected(at, BodyPayload(qs[0]))], Expectations(qs[1..], at + |first|),
                 Pipeline(g, tail, at + |Stream(qs)|, budget));
    }
  }

  lemma Associates<T>(a: seq<T>, b: seq<T>, c: seq<T>)
    ensures a + (b + c) == a + b + c
  {
  }
}
