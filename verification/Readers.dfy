/** The two body readers of a connection. Each walks the socket in place; its contract is stated with
    what the framing says is still ahead, so nothing in it depends on how the bytes were fragmented. */
module Readers {
  import opened Bytes
  import opened Wire
  import opened ChunkSize
  import opened Body
  import opened ReadingOn

  /** A body of a known length. */
  class Limited {
    const socket: Socket
    var left: nat

    constructor (socket: Socket, left: nat)
      ensures this.socket == socket && this.left == left
    {
      this.socket, this.left := socket, left;
    }

    /** What the framing still holds, its end as an offset into the stream. */
    ghost function Ahead(): Decoded
      requires socket.Valid()
      reads this, socket
    {
      After(FixedBody(socket.Ahead(), left), [], socket.pos)
    }

    /** A failed read consumes nothing, so the reader may be used again after it. */
    method Read(want: nat) returns (r: Result<seq<byte>>)
      requires socket.Valid()
      modifies this, socket
      ensures socket.Valid() && socket.pos - old(socket.pos) == old(left) - left
      ensures socket.polls <= old(socket.polls) && (old(socket.stopping) ==> socket.stopping)
      ensures r == Err(Interrupted) ==> socket.polls < old(socket.polls)
      ensures old(socket.failed) ==> socket.failed && left == old(left)
      ensures match r
              case Ok(bytes) =>
                && |bytes| <= want && old(left) - left == |bytes|
                && old(Ahead()) == After(Ahead(), bytes, 0)
                && (bytes == [] <==> want == 0 || old(left) == 0)
              case Err(e) =>
                && left == old(left) > 0
                && (e == UnexpectedEof ==> socket.Ahead() == [] && old(Ahead()).used.None?)
                && (e == UnexpectedEof || e == Interrupted || socket.Down(e))
    {
      if left == 0 || want == 0 {
        return Ok([]);
      }
      hide FixedBody, After;
      ghost var s := socket.Ahead();
      r := socket.TimedRead(if left < want then left else want);
      if r.Ok? {
        if r.value == [] {
          NothingLeft(left, socket.pos);
          return Err(UnexpectedEof);
        }
        left := left - |r.value|;
        assert socket.Ahead() == s[|r.value|..] && r.value == s[..|r.value|];
        FixedStep(s, old(left), |r.value|, old(socket.pos));
      }
    }
  }

  lemma NothingLeft(left: nat, pos: nat)
    requires left > 0
    ensures After(FixedBody([], left), [], pos).used.None?
  {
  }

  lemma FixedStep(s: seq<byte>, left: nat, k: nat, pos: nat)
    requires k <= left && k <= |s|
    ensures After(FixedBody(s, left), [], pos) == After(After(FixedBody(s[k..], left - k), [], pos + k), s[..k], 0)
  {
    assert s == s[..k] + s[k..];
    if left <= |s| {
      assert s[..left] == s[..k] + s[k..][..left - k];
    }
  }

  // The equations of `Rest`, one phase each, for the methods that keep its body hidden.

  lemma SizeStep(s: seq<byte>, trailers: nat)
    ensures var line := LineOf(s, SIZE_LINE);
            var d := Rest(s, Size, 0, trailers);
            if line.Line? && SizeOf(line.bytes).Some? then
              var n := SizeOf(line.bytes).value;
              d == After(Rest(s[|line.bytes|..], if n == 0 then Trailer else Data, n, trailers), [], |line.bytes|)
            else d == STUCK
  {
  }

  lemma CrlfStep(s: seq<byte>, trailers: nat)
    ensures Rest(s, Crlf, 0, trailers)
         == if CRLF <= s then After(Rest(s[2..], Size, 0, trailers), [], 2) else STUCK
  {
  }

  lemma TrailerLineStep(s: seq<byte>, trailers: nat)
    ensures var line := LineOf(s, TRAILERS);
            Rest(s, Trailer, 0, trailers) ==
            if !line.Line? then STUCK
            else if line.bytes == CRLF then Decoded([], Some(2))
            else if trailers + |line.bytes| > TRAILERS then STUCK
            else After(Rest(s[|line.bytes|..], Trailer, 0, trailers + |line.bytes|), [], |line.bytes|)
  {
  }

  /** Taking part of a chunk leaves the rest of it ahead; taking all of it leaves its CRLF. */
  lemma DataStep(s: seq<byte>, left: nat, trailers: nat, k: nat)
    requires 0 < k <= left && k <= |s|
    ensures Rest(s, Data, left, trailers)
         == After(Rest(s[k..], if k < left then Data else Crlf, left - k, trailers), s[..k], k)
  {
    hide SizeOf, LineOf;
    assert s == s[..k] + s[k..];
    if k < left <= |s| {
      assert s[left..] == s[k..][left - k..];
      var d := Rest(s[left..], Crlf, 0, trailers);
      assert s[..left] + d.payload == s[..k] + (s[k..][..left - k] + d.payload);
    }
  }

  lemma ShortData(s: seq<byte>, left: nat, trailers: nat)
    requires |s| < left
    ensures Rest(s, Data, left, trailers) == Decoded(s, None)
  {
  }

  lemma AfterAfter(d: Decoded, first: seq<byte>, second: seq<byte>, j: nat, k: nat)
    ensures After(After(d, second, k), first, j) == After(d, first + second, j + k)
  {
    assert first + (second + d.payload) == first + second + d.payload;
  }

  /** What the first failed step that consumed bytes was: none yet, a rejection of the framing, an interruption
      between the two bytes of a chunk's end, or a failure of the socket. */
  datatype Loss = NoLoss | Rejected | Halved | Dropped

  function LossOf(e: IoError): Loss {
    match e
    case InvalidData => Rejected
    case UnexpectedEof => Rejected
    case Interrupted => Halved
    case _ => Dropped
  }

  /** A body in chunks. */
  class Chunked {
    const socket: Socket
    var phase: Phase
    var left: nat
    var trailers: nat
    var done: bool
    var loss: Loss

    constructor (socket: Socket)
      ensures this.socket == socket && Fresh()
    {
      this.socket, phase, left, trailers, done, loss := socket, Size, 0, 0, false, NoLoss;
    }

    ghost predicate Fresh()
      reads this
    {
      phase == Size && left == 0 && trailers == 0 && !done && loss == NoLoss
    }

    ghost predicate Valid()
      reads this, socket
    {
      socket.Valid() && (phase == Data <==> left > 0) && (phase != Trailer ==> trailers == 0)
    }

    /** What the framing says is ahead of the reader. */
    ghost function Ahead(): Decoded
      requires socket.Valid()
      reads this, socket
    {
      if done then Decoded([], Some(socket.pos))
      else After(Rest(socket.Ahead(), phase, left, trailers), [], socket.pos)
    }

    /** Where the reader would come to its end, read on past every rejection. */
    ghost function End(): Option<nat>
      requires socket.Valid()
      reads this, socket
    {
      if done then Some(socket.pos) else Plus(socket.pos, Ending(socket.Ahead(), phase, left))
    }

    /** A failed step: if it lost no bytes, nothing has changed for the reader. A rejection means that the framing
        never ends, and leaves the end of a reader that is read on where it was. */
    ghost predicate Explained(e: IoError, ahead: Decoded, end: Option<nat>, before: Loss)
      requires socket.Valid()
      reads this, socket
    {
      && (before != NoLoss ==> loss == before)
      && (loss == NoLoss ==> Ahead() == ahead && End() == end)
      && (before == NoLoss && loss != NoLoss ==> loss == LossOf(e))
      && (e == InvalidData ==> ahead.used.None? && End() == end && loss != NoLoss)
      && (e == UnexpectedEof ==> ahead.used.None? && end.None?)
      && (e == TimedOut || e == Broken ==> socket.Down(e))
    }

    /** What a step that may fail leaves of the socket. */
    ghost predicate Onward(pos: nat, polls: nat, stopping: bool)
      reads this, socket
    {
      Valid() && pos <= socket.pos && socket.polls <= polls && (stopping ==> socket.stopping)
    }

    /** Records that a failed step which began at `from` consumed bytes. */
    method Fail(e: IoError, ghost ahead: Decoded, ghost end: Option<nat>, from: nat) returns (r: IoError)
      requires socket.Valid() && from <= socket.pos
      requires socket.pos == from ==> Ahead() == ahead && End() == end
      requires e == InvalidData ==> ahead.used.None? && End() == end && from < socket.pos
      requires e == UnexpectedEof ==> ahead.used.None? && end.None?
      requires e == TimedOut || e == Broken ==> socket.Down(e)
      modifies `loss
      ensures r == e && Explained(e, ahead, end, old(loss))
      ensures loss == if old(loss) == NoLoss && socket.pos > from then LossOf(e) else old(loss)
    {
      if loss == NoLoss && socket.pos > from {
        loss := LossOf(e);
      }
      return e;
    }

    method ReadSize() returns (r: Result<()>)
      requires Valid() && phase == Size && !done
      modifies this, socket
      ensures Onward(old(socket.pos), old(socket.polls), old(socket.stopping)) && !done
      ensures r.Ok? ==> Ahead() == old(Ahead()) && End() == old(End()) && loss == old(loss)
      ensures r.Ok? ==> old(socket.pos) < socket.pos && (phase == Data || phase == Trailer)
      ensures r.Err? ==> Explained(r.error, old(Ahead()), old(End()), old(loss)) && r.error != Interrupted
      ensures r == Err(InvalidData) ==> old(socket.pos) < socket.pos
      ensures old(socket.failed) ==> r.Err? && socket.failed && !done
    {
      hide SizeOf, LineOf, Rest, Ending;
      ghost var s, ahead, end := socket.Ahead(), Ahead(), End();
      var from := socket.pos;
      SizeStep(s, trailers);
      EndingSize(s);
      var got := socket.BoundedLine(SIZE_LINE);
      if got.Err? {
        assert got.error == InvalidData ==> socket.Ahead() == s[SIZE_LINE + 1..];
        var e := Fail(got.error, ahead, end, from);
        return Err(e);
      }
      if got.value.None? {
        var e := Fail(UnexpectedEof, ahead, end, from);
        return Err(e);
      }
      var line := got.value.value;
      assert socket.Ahead() == s[|line|..];
      var size := SizeOf(line);
      if size.None? {
        var e := Fail(InvalidData, ahead, end, from);
        return Err(e);
      }
      if size.value == 0 {
        phase := Trailer;
      } else {
        left := size.value;
        phase := Data;
      }
      return Ok(());
    }

    /** A chunk's end. An interruption between its two bytes leaves the reader before a chunk's end, with one byte
        consumed. */
    method ReadCrlf() returns (r: Result<()>)
      requires Valid() && phase == Crlf && !done
      modifies this, socket
      ensures Onward(old(socket.pos), old(socket.polls), old(socket.stopping)) && !done
      ensures r.Ok? ==> Ahead() == old(Ahead()) && End() == old(End()) && loss == old(loss)
      ensures r.Ok? ==> old(socket.pos) < socket.pos
      ensures r.Ok? <==> phase == Size
      ensures r.Ok? ==> CRLF <= old(socket.Ahead())
      ensures r.Err? ==> phase == Crlf && trailers == old(trailers)
      ensures r.Err? ==> Explained(r.error, old(Ahead()), old(End()), old(loss))
      ensures r == Err(InvalidData) ==> old(socket.pos) < socket.pos
      ensures r == Err(Interrupted) ==> socket.polls < old(socket.polls) && socket.pos <= old(socket.pos) + 1
      ensures loss == Halved != old(loss) ==> old(socket.pos) < socket.pos
      ensures old(socket.failed) ==> r.Err? && r.error != Interrupted && socket.failed && !done
    {
      hide SizeOf, LineOf, Rest, Ending;
      ghost var s, ahead, end := socket.Ahead(), Ahead(), End();
      var from := socket.pos;
      CrlfStep(s, trailers);
      EndingCrlf(s);
      var crlf: seq<byte> := [];
      while |crlf| < 2
        invariant socket.Valid() && |crlf| <= 2
        invariant crlf <= s && socket.pos == old(socket.pos) + |crlf|
        invariant socket.polls <= old(socket.polls) && (old(socket.stopping) ==> socket.stopping)
        invariant old(socket.failed) ==> socket.failed && crlf == []
        invariant loss == old(loss)
        modifies socket, `loss
        decreases 2 - |crlf|
      {
        var got := socket.TimedRead(2 - |crlf|);
        if got.Err? {
          var e := Fail(got.error, ahead, end, from);
          return Err(e);
        }
        if got.value == [] {
          assert s == crlf;
          var e := Fail(UnexpectedEof, ahead, end, from);
          return Err(e);
        }
        crlf := crlf + got.value;
        assert crlf == s[..|crlf|];
      }
      assert socket.Ahead() == s[2..];
      if crlf != CRLF {
        var e := Fail(InvalidData, ahead, end, from);
        return Err(e);
      }
      phase := Size;
      return Ok(());
    }

    method ReadTrailer() returns (r: Result<()>)
      requires Valid() && phase == Trailer && !done
      modifies this, socket
      ensures Onward(old(socket.pos), old(socket.polls), old(socket.stopping)) && phase == Trailer
      ensures r.Ok? ==> Ahead() == old(Ahead()) && End() == old(End()) && loss == old(loss)
      ensures r.Ok? ==> old(socket.pos) < socket.pos
      ensures r.Err? ==> !done && Explained(r.error, old(Ahead()), old(End()), old(loss)) && r.error != Interrupted
      ensures r == Err(InvalidData) ==> old(socket.pos) < socket.pos
      ensures old(socket.failed) ==> r.Err? && socket.failed && !done
    {
      hide SizeOf, LineOf, Rest, Ending;
      ghost var s, ahead, end := socket.Ahead(), Ahead(), End();
      var from := socket.pos;
      TrailerLineStep(s, trailers);
      EndingTrailer(s);
      var got := socket.BoundedLine(TRAILERS);
      if got.Err? {
        assert got.error == InvalidData ==> socket.Ahead() == s[TRAILERS + 1..];
        var e := Fail(got.error, ahead, end, from);
        return Err(e);
      }
      if got.value.None? {
        var e := Fail(UnexpectedEof, ahead, end, from);
        return Err(e);
      }
      var line := got.value.value;
      assert socket.Ahead() == s[|line|..];
      if line == CRLF {
        done := true;
        return Ok(());
      }
      trailers := trailers + |line|;
      if trailers > TRAILERS {
        var e := Fail(InvalidData, ahead, end, from);
        return Err(e);
      }
      return Ok(());
    }

    /** A failed read of chunk data has consumed nothing, so it may be repeated. */
    method ReadData(want: nat) returns (r: Result<seq<byte>>)
      requires Valid() && phase == Data && !done && want > 0
      modifies this, socket
      ensures Onward(old(socket.pos), old(socket.polls), old(socket.stopping)) && !done && loss == old(loss)
      ensures match r
              case Ok(bytes) =>
                && 0 < |bytes| <= want && socket.pos == old(socket.pos) + |bytes|
                && old(Ahead()) == After(Ahead(), bytes, 0) && End() == old(End())
              case Err(e) =>
                Ahead() == old(Ahead()) && End() == old(End()) && Explained(e, old(Ahead()), old(End()), old(loss))
      ensures r == Err(Interrupted) ==> socket.polls < old(socket.polls)
      ensures r != Err(InvalidData)
      ensures old(socket.failed) ==> r.Err? && r.error != Interrupted && socket.failed
    {
      hide SizeOf, LineOf, Rest, Ending;
      ghost var s := socket.Ahead();
      r := socket.TimedRead(if left < want then left else want);
      if r.Ok? {
        if r.value == [] {
          ShortData(s, left, trailers);
          EndingShort(s, left);
          return Err(UnexpectedEof);
        }
        assert socket.Ahead() == s[|r.value|..];
        DataStep(s, left, trailers, |r.value|);
        EndingData(s, left, |r.value|);
        left := left - |r.value|;
        if left == 0 {
          phase := Crlf;
        }
      }
    }

    /** Returns the next bytes of the payload and nothing else. It returns no bytes for a nonempty buffer exactly
        when the framing has ended, and then the socket stands just past it. A read that failed without losing
        bytes may be repeated. */
    method Read(want: nat) returns (r: Result<seq<byte>>)
      requires Valid()
      modifies this, socket
      ensures Onward(old(socket.pos), old(socket.polls), old(socket.stopping))
      ensures match r
              case Ok(bytes) =>
                && |bytes| <= want && loss == old(loss) && old(socket.pos) + |bytes| <= socket.pos
                && old(Ahead()) == After(Ahead(), bytes, 0) && End() == old(End())
                && (want > 0 ==> (bytes == [] <==> done))
                && (want == 0 ==> done == old(done)) && (old(done) ==> done)
              case Err(e) => !old(done) && !done && Explained(e, old(Ahead()), old(End()), old(loss))
      ensures r == Err(Interrupted) ==> socket.polls < old(socket.polls)
      ensures r == Err(InvalidData) ==> old(socket.pos) < socket.pos
      ensures old(socket.failed) ==> done == old(done) && (r.Ok? ==> r.value == []) && socket.failed
      ensures old(phase) == Crlf && !old(done) && want > 0 && r.Ok? ==> CRLF <= old(socket.Ahead())
      ensures loss == Halved != old(loss) ==>
                && r == Err(Interrupted) && old(phase) == phase == Crlf
                && trailers == old(trailers) && socket.pos == old(socket.pos) + 1
    {
      hide SizeOf, LineOf, Rest, Ending;
      if done || want == 0 {
        return Ok([]);
      }
      while true
        invariant Onward(old(socket.pos), old(socket.polls), old(socket.stopping)) && !done
        invariant Ahead() == old(Ahead()) && End() == old(End()) && loss == old(loss)
        invariant old(socket.failed) ==> socket.failed
        invariant phase == Crlf ==> old(phase) == Crlf && socket.pos == old(socket.pos) && trailers == old(trailers)
        invariant old(phase) == Crlf ==> phase == Crlf || CRLF <= old(socket.Ahead())
        decreases |socket.sent| - socket.pos
      {
        match phase {
          case Size =>
            var stepped := ReadSize();
            if stepped.Err? {
              return Err(stepped.error);
            }
          case Data =>
            r := ReadData(want);
            return;
          case Crlf =>
            var stepped := ReadCrlf();
            if stepped.Err? {
              return Err(stepped.error);
            }
          case Trailer =>
            var stepped := ReadTrailer();
            if stepped.Err? {
              return Err(stepped.error);
            }
            if done {
              return Ok([]);
            }
        }
      }
    }
  }

  // ---- Reading an encoding

  /** Any number of reads of an encoding with any nonempty buffers, repeated when interrupted. What has been
      returned is always a prefix of the payload; one read more than the payload has bytes is enough to return
      all of it, and then the reader is done exactly at the end of the encoding. Anything else means that the
      socket failed, that the server stops, or that an interruption fell between the bytes of a chunk's end. */
  method ReadEncoded(socket: Socket, m: Message, tail: seq<byte>, wants: seq<nat>)
    returns (c: Chunked, got: seq<byte>, calm: bool)
    requires socket.Valid() && socket.Ahead() == Encode(m) + tail && WellFormed(m)
    requires forall want | want in wants :: want > 0
    modifies socket
    ensures c.socket == socket && c.Valid() && got <= Payload(m.chunks)
    ensures calm && c.done ==> got == Payload(m.chunks) && socket.pos == old(socket.pos) + |Encode(m)|
    ensures calm && |wants| > |Payload(m.chunks)| ==> c.done
    ensures !calm ==> socket.failed || socket.stopping || c.loss == Halved
  {
    hide Rest, Ending, Encode, WellFormed, Payload;
    ChunkedRoundTrip(m, tail);
    c := new Chunked(socket);
    got := [];
    ghost var all := Decoded(Payload(m.chunks), Some(old(socket.pos) + |Encode(m)|));
    assert c.Ahead() == all;
    var n := 0;
    while n < |wants|
      invariant 0 <= n <= |wants| && c.socket == socket && fresh(c) && c.Valid() && c.loss == NoLoss
      invariant all == After(c.Ahead(), got, 0) && (!c.done ==> |got| >= n)
      decreases |wants| - n, socket.polls
    {
      assert wants[n] in wants;
      var r := c.Read(wants[n]);
      match r {
        case Ok(bytes) =>
          AfterAfter(c.Ahead(), got, bytes, 0, 0);
          got := got + bytes;
          n := n + 1;
        case Err(e) =>
          if e != Interrupted || c.loss != NoLoss {
            return c, got, false;
          }
      }
    }
    calm := true;
  }

  // ---- After half of a chunk's end

  /** What is left of a chunk's end does not end a chunk. */
  lemma HalfDoesNotEnd(s: seq<byte>, trailers: nat)
    ensures Rest(s, Crlf, 0, trailers).used.Some? ==> |s| > 1 && !(CRLF <= s[1..])
  {
    CrlfStep(s, trailers);
    assert CRLF <= s ==> s[1..][0] == s[1] == CRLF[1];
    hide Rest;
  }

  /** With a wrong byte before it the framing never ends; without that byte it goes on as it would. */
  lemma WrongByteHidesTheRest(x: byte, s: seq<byte>)
    requires CRLF <= s
    ensures Rest([x] + s, Crlf, 0, 0) == STUCK
    ensures Rest(s, Crlf, 0, 0) == After(ChunkedBody(s[2..]), [], 2)
  {
    CrlfStep([x] + s, 0);
    CrlfStep(s, 0);
    assert ([x] + s)[1] == s[0] == CRLF[0];
    hide Rest;
  }

  /** Reading on after an interruption between the two bytes of a chunk's end. Where the chunk ended well, the next
      read fails. Where a wrong byte stood before a chunk's end, the framing never ends, but what the reader
      returns next is of the body that follows, as if the byte had not been sent, and it is not rejected. */
  method ReadPastHalf(c: Chunked, want: nat) returns (first: Result<seq<byte>>, second: Result<seq<byte>>)
    requires c.Valid() && c.phase == Crlf && !c.done && c.loss == NoLoss && want > 0
    modifies c, c.socket
    ensures c.Valid()
    ensures c.loss == Halved ==> first == Err(Interrupted) && (CRLF <= old(c.socket.Ahead()) ==> second.Err?)
    ensures var s := old(c.socket.Ahead());
            c.loss == Halved && |s| > 0 && CRLF <= s[1..] ==>
              && old(c.Ahead()) == After(STUCK, [], old(c.socket.pos))
              && var body := After(ChunkedBody(s[3..]), [], old(c.socket.pos) + 3);
                 match second
                 case Ok(bytes) => body == After(c.Ahead(), bytes, 0)
                 case Err(e) => e == InvalidData || e == UnexpectedEof ==> body.used.None?
  {
    hide Rest, Ending;
    ghost var s, pos := c.socket.Ahead(), c.socket.pos;
    first := c.Read(want);
    second := first;
    if c.loss == Halved {
      assert c.socket.Ahead() == s[1..];
      if CRLF <= s[1..] {
        WrongByteHidesTheRest(s[0], s[1..]);
        assert s == [s[0]] + s[1..] && s[1..][2..] == s[3..];
      }
      second := c.Read(want);
    }
  }
}
