/** The bytes of one HTTP connection as the server sees them: a peer that sends a fixed sequence of
    bytes, and a buffered socket that hands them over in fragments of any size, lets any number of
    poll slices elapse before the read deadline, reaches the end of the stream, or breaks. */
module Wire {
  import opened Bytes

  const LF: byte := 10
  const CR: byte := 13
  const CRLF: seq<byte> := [CR, LF]

  datatype IoError = TimedOut | InvalidData | UnexpectedEof | Broken | Interrupted

  datatype Result<+T> = Ok(value: T) | Err(error: IoError)

  /** What one look at the buffered socket yields. `Buffered(0)` is the end of the stream, `Poll` one
      elapsed poll slice that the caller may retry. */
  datatype Fill = Buffered(n: nat) | Poll | Failed(error: IoError)

  /** The offset of the first line feed, or the length when there is none. */
  function LfAt(s: seq<byte>): (at: nat)
    ensures at <= |s|
    ensures at < |s| ==> s[at] == LF
    ensures LF !in s[..at]
  {
    if s == [] then 0
    else if s[0] == LF then 0
    else
      var at := 1 + LfAt(s[1..]);
      assert s[..at] == [s[0]] + s[1..][..at - 1];
      at
  }

  /** What a line read bounded by `cap` must find at the head of `s`, however `s` is fragmented. */
  datatype NextLine = Line(bytes: seq<byte>) | TooLong | Eof | Cut

  /** A line is accepted up to `cap + 1` bytes, line feed included. */
  function LineOf(s: seq<byte>, cap: nat): (line: NextLine)
    ensures line.Line? ==>
              && 0 < |line.bytes| <= cap + 1
              && line.bytes <= s
              && line.bytes[|line.bytes| - 1] == LF
              && LF !in line.bytes[..|line.bytes| - 1]
    ensures line.TooLong? ==> |s| > cap
  {
    var at := LfAt(s);
    if at < |s| && at <= cap then
      assert s[..at + 1][..at] == s[..at];
      Line(s[..at + 1])
    else if |s| > cap then TooLong
    else if s == [] then Eof
    else Cut
  }

  /** When there is no line: too many bytes without a line feed, or the stream ends before one. */
  lemma LineOfMeans(s: seq<byte>, cap: nat)
    ensures LineOf(s, cap).TooLong? <==> |s| > cap && LF !in s[..cap + 1]
    ensures LineOf(s, cap).Eof? <==> s == []
    ensures LineOf(s, cap).Cut? <==> s != [] && |s| <= cap && LF !in s
  {
    var at := LfAt(s);
    assert at < |s| ==> s[at] == LF;
    if |s| > cap && at > cap {
      assert forall i | 0 <= i <= cap :: s[..cap + 1][i] == s[..at][i];
    } else if |s| > cap && at <= cap {
      assert s[..cap + 1][at] == LF;
    }
  }

  /** The head of `s` fixes the line: what follows it does not matter. */
  lemma LineOfPrefix(line: seq<byte>, tail: seq<byte>, cap: nat)
    requires 0 < |line| <= cap + 1
    requires line[|line| - 1] == LF && LF !in line[..|line| - 1]
    ensures LineOf(line + tail, cap) == Line(line)
  {
    var s := line + tail;
    var at := LfAt(s);
    assert forall i | 0 <= i < |line| - 1 :: s[i] == line[..|line| - 1][i];
    assert forall i | 0 <= i < at :: s[i] == s[..at][i];
    assert s[|line| - 1] == LF;
    assert s[..at + 1] == line;
  }

  class Socket {
    const sent: seq<byte>
    var pos: nat
    var polls: nat
    var failed: bool     // a read has broken or missed its deadline; from then on every read fails
    var stopping: bool   // a read has seen that the server stops

    constructor (sent: seq<byte>, polls: nat)
      ensures Valid() && pos == 0 && this.sent == sent && !failed && !stopping
    {
      this.sent, this.pos, this.polls, this.failed, this.stopping := sent, 0, polls, false, false;
    }

    ghost predicate Valid()
      reads this
    {
      pos <= |sent|
    }

    ghost function Ahead(): (s: seq<byte>)
      requires Valid()
      reads this
    {
      sent[pos..]
    }

    /** The error is one that the socket answers for. */
    predicate Down(e: IoError)
      reads this
    {
      (e == TimedOut || e == Broken) && (failed || stopping)
    }

    /** One `fill_buf` under the rearmed read timeout. An interrupted one may simply be repeated. */
    method Fill() returns (r: Fill)
      requires Valid()
      modifies `polls, `failed
      ensures polls <= old(polls) && (old(failed) ==> r.Failed? && r.error != Interrupted && failed)
      ensures match r
              case Buffered(n) => n <= |Ahead()| && (n == 0 <==> Ahead() == [])
              case Poll => polls < old(polls)
              case Failed(e) => if e == Interrupted then polls < old(polls) else Down(e)
    {
      if failed {
        return Failed(Broken);
      }
      if polls == 0 {
        failed := true;
        return Failed(TimedOut);
      }
      if * {
        polls := polls - 1;
        return Poll;
      }
      if * {
        polls := polls - 1;
        return Failed(Interrupted);
      }
      if * {
        failed := true;
        return Failed(Broken);
      }
      if pos == |sent| {
        return Buffered(0);
      }
      var n :| 1 <= n <= |sent| - pos;
      return Buffered(n);
    }

    /** One read of at most `want` bytes, retried over poll slices; empty only at the end of the stream. A read
        that fails has consumed nothing. */
    method TimedRead(want: nat) returns (r: Result<seq<byte>>)
      requires Valid() && want > 0
      modifies this
      ensures Valid() && polls <= old(polls) && (old(stopping) ==> stopping)
      ensures old(failed) ==> failed && r.Err? && r.error != Interrupted
      ensures match r
              case Ok(bytes) =>
                && |bytes| <= want && bytes <= old(Ahead()) && pos == old(pos) + |bytes|
                && (bytes == [] <==> old(Ahead()) == [])
              case Err(e) => pos == old(pos) && if e == Interrupted then polls < old(polls) else Down(e)
    {
      while true
        invariant Valid() && polls <= old(polls) && pos == old(pos) && stopping == old(stopping)
        invariant old(failed) ==> failed
        decreases polls
      {
        var f := Fill();
        match f {
          case Buffered(n) =>
            var most := if n < want then n else want;
            var k :| (if most == 0 then 0 else 1) <= k <= most;
            pos := pos + k;
            return Ok(sent[pos - k..pos]);
          case Poll =>
            if * {
              stopping := true;
              return Err(TimedOut);
            }
          case Failed(e) => return Err(e);
        }
      }
    }

    /** Consumes buffered bytes up to and with the first line feed. */
    method Take(room: nat) returns (part: seq<byte>)
      requires Valid() && 0 < room <= |Ahead()|
      modifies `pos
      ensures Valid() && 0 < |part| <= room && part <= old(Ahead()) && pos == old(pos) + |part|
      ensures LF !in part[..|part| - 1] && (part[|part| - 1] != LF ==> |part| == room)
    {
      var available := sent[pos..pos + room];
      var at := LfAt(available);
      part := available[..if at < room then at + 1 else room];
      assert part[..|part| - 1] <= available[..at];
      pos := pos + |part|;
    }

    /** `take(limit).read_until(LF)`: consumes up to and with the first line feed, at most `limit`
        bytes, keeping what it consumed even when it fails part way. It repeats what was interrupted. */
    method TakeUntilLf(limit: nat) returns (r: Fill, got: seq<byte>)
      requires Valid()
      modifies `pos, `polls, `failed
      ensures Valid() && polls <= old(polls)
      ensures old(failed) ==> failed && (limit > 0 ==> r.Failed? && got == [])
      ensures |got| <= limit && got <= old(Ahead()) && pos == old(pos) + |got|
      ensures |got| > 0 ==> LF !in got[..|got| - 1]
      ensures r.Buffered? ==> r.n == |got|
      ensures r.Buffered? && (|got| == 0 || got[|got| - 1] != LF) ==> |got| == limit || Ahead() == []
      ensures !r.Buffered? ==> LF !in got
      ensures r.Poll? ==> polls < old(polls)
      ensures r.Failed? ==> Down(r.error)
    {
      got := [];
      while |got| < limit
        invariant Valid() && polls <= old(polls)
        invariant old(failed) ==> failed && got == []
        invariant |got| <= limit && got <= old(Ahead()) && pos == old(pos) + |got|
        invariant LF !in got
        decreases limit - |got|, polls
      {
        r := Fill();
        if r == Failed(Interrupted) {
          continue;
        }
        if !r.Buffered? {
          return;
        }
        if r.n == 0 {
          return Buffered(|got|), got;
        }
        var part := Take(if r.n < limit - |got| then r.n else limit - |got|);
        Joined(old(Ahead()), got, part);
        got := got + part;
        if part[|part| - 1] == LF {
          return Buffered(|got|), got;
        }
      }
      r := Buffered(|got|);
    }

    /** One line of at most `cap + 1` bytes, tolerant of any fragmentation and of poll slices. */
    method BoundedLine(cap: nat) returns (r: Result<Option<seq<byte>>>)
      requires Valid()
      modifies this
      ensures Valid() && old(pos) <= pos && polls <= old(polls) && (old(stopping) ==> stopping)
      ensures old(failed) ==> failed && pos == old(pos) && r.Err? && Down(r.error)
      ensures match r
              case Ok(Some(line)) => LineOf(old(Ahead()), cap) == Line(line) && pos == old(pos) + |line|
              case Ok(None) => LineOf(old(Ahead()), cap) == Eof && pos == old(pos)
              case Err(InvalidData) => LineOf(old(Ahead()), cap) == TooLong && pos == old(pos) + cap + 1
              case Err(UnexpectedEof) => LineOf(old(Ahead()), cap) == Cut && pos == |sent|
              case Err(e) => Down(e) && LF !in sent[old(pos)..pos] && pos <= old(pos) + cap + 1
    {
      var buf: seq<byte> := [];
      while true
        invariant Valid() && polls <= old(polls) && stopping == old(stopping)
        invariant old(failed) ==> failed && buf == []
        invariant |buf| <= cap + 1 && buf <= old(Ahead()) && pos == old(pos) + |buf|
        invariant LF !in buf
        decreases polls, |sent| - pos
      {
        if |buf| > cap {
          LineOfNoLf(buf, old(Ahead()), cap);
          return Err(InvalidData);
        }
        var r1, got := TakeUntilLf(cap + 1 - |buf|);
        ghost var before := buf;
        buf := buf + got;
        assert buf == old(Ahead())[..|buf|];
        assert sent[old(pos)..pos] == buf;
        match r1 {
          case Buffered(n) =>
            if n == 0 {
              LineOfNoLf(buf, old(Ahead()), cap);
              return if buf == [] then Ok(None) else Err(UnexpectedEof);
            }
            if buf[|buf| - 1] == LF {
              assert buf[..|buf| - 1] == before + got[..|got| - 1];
              assert old(Ahead()) == buf + old(Ahead())[|buf|..];
              LineOfPrefix(buf, old(Ahead())[|buf|..], cap);
              return Ok(Some(buf));
            }
            assert got == got[..|got| - 1] + [got[|got| - 1]];
          case Poll =>
            if * {
              stopping := true;
              return Err(TimedOut);
            }
          case Failed(e) => return Err(e);
        }
      }
    }
  }

  lemma Joined(s: seq<byte>, got: seq<byte>, part: seq<byte>)
    requires got <= s && part <= s[|got|..] && part != [] && LF !in got && LF !in part[..|part| - 1]
    ensures got + part <= s && LF !in (got + part)[..|got + part| - 1]
    ensures part[|part| - 1] != LF ==> LF !in got + part
  {
    assert (got + part)[..|got + part| - 1] == got + part[..|part| - 1];
    assert part == part[..|part| - 1] + [part[|part| - 1]];
  }

  /** A prefix without a line feed that is longer than the cap, or that is everything. */
  lemma LineOfNoLf(buf: seq<byte>, s: seq<byte>, cap: nat)
    requires buf <= s && LF !in buf
    ensures |buf| > cap ==> LineOf(s, cap) == TooLong
    ensures |buf| == |s| <= cap ==> LineOf(s, cap) == if s == [] then Eof else Cut
  {
    assert forall i | 0 <= i < |buf| :: s[i] == buf[i];
  }
}
