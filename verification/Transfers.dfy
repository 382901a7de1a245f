/** The byte streams of the guest agent: a writer that cuts a stream into frames of bounded size, and a
    reader that joins them again and leaves the connection on the frame after the end. */
module Transfers {
  import opened Bytes
  import opened Collections

  const CHUNK: nat := 256 * 1024

  /** A frame of the connection; `Other` is any request that is no part of a stream. */
  datatype Frame = Data(bytes: seq<byte>) | End | Other

  /** The writing side. */
  class DataOut {
    const capacity: nat   // the frames the connection takes before it fails
    var buf: seq<byte>
    var frames: seq<seq<byte>>

    constructor (capacity: nat)
      ensures Valid() && Written() == [] && frames == [] && this.capacity == capacity
    {
      this.capacity, buf, frames := capacity, [], [];
    }

    ghost predicate Valid()
      reads this
    {
      |buf| < CHUNK && Sent()
    }

    ghost predicate Sent()
      reads this
    {
      |frames| <= capacity && forall c | c in frames :: 0 < |c| <= CHUNK
    }

    /** Everything written so far: the frames sent and what waits in the buffer. */
    ghost function Written(): seq<byte>
      reads this
    {
      Concat(frames) + buf
    }

    /** Sends what waits; a connection that fails loses it. */
    method Flush() returns (ok: bool)
      requires |buf| <= CHUNK && Sent()
      modifies `buf, `frames
      ensures Valid() && buf == []
      ensures ok <==> old(buf) == [] || |old(frames)| < capacity
      ensures ok ==> Written() == old(Written())
      ensures !ok ==> frames == old(frames)
    {
      if buf == [] {
        return true;
      }
      var taken := buf;
      buf := [];
      if |frames| == capacity {
        return false;
      }
      ConcatPush(frames, taken);
      frames := frames + [taken];
      return true;
    }

    /** Takes some of the bytes, at least one of a nonempty slice. */
    method Write(bytes: seq<byte>) returns (n: Option<nat>)
      requires Valid()
      modifies `buf, `frames
      ensures Valid()
      ensures n.Some? ==>
                && n.value <= |bytes| && (bytes != [] ==> n.value > 0)
                && Written() == old(Written()) + bytes[..n.value]
      ensures n.None? ==> frames == old(frames) && |frames| == capacity
    {
      var room := CHUNK - |buf|;
      var k := if |bytes| < room then |bytes| else room;
      ghost var was := Written();
      buf := buf + bytes[..k];
      assert Written() == was + bytes[..k];
      if |buf| == CHUNK {
        var ok := Flush();
        if !ok {
          return None;
        }
      }
      return Some(k);
    }

    /** A caller that writes until everything is taken ends, with everything written in order. */
    method WriteAll(bytes: seq<byte>) returns (ok: bool)
      requires Valid()
      modifies `buf, `frames
      ensures Valid()
      ensures ok ==> Written() == old(Written()) + bytes
      ensures !ok ==> |frames| == capacity
    {
      var done := 0;
      while done < |bytes|
        invariant done <= |bytes| && Valid()
        invariant Written() == old(Written()) + bytes[..done]
        decreases |bytes| - done
      {
        var n := Write(bytes[done..]);
        if n.None? {
          return false;
        }
        assert bytes[..done + n.value] == bytes[..done] + bytes[done..][..n.value];
        done := done + n.value;
      }
      assert bytes[..done] == bytes;
      return true;
    }
  }

  // ---- The reading side

  /** The frame that ends the stream begun at `at`, or the number of frames when there is none. */
  function EndFrom(fs: seq<Frame>, at: nat): (e: nat)
    requires at <= |fs|
    ensures at <= e <= |fs|
    ensures e < |fs| ==> fs[e].End?
    ensures forall i | at <= i < e :: !fs[i].End?
    decreases |fs| - at
  {
    if at == |fs| || fs[at].End? then at else EndFrom(fs, at + 1)
  }

  /** The bytes of the data frames from `at` up to the first frame that is not one. */
  function Joined(fs: seq<Frame>, at: nat): seq<byte>
    requires at <= |fs|
    decreases |fs| - at
  {
    if at < |fs| && fs[at].Data? then fs[at].bytes + Joined(fs, at + 1) else []
  }

  lemma JoinedStep(fs: seq<Frame>, at: nat)
    requires at <= |fs|
    ensures Joined(fs, at) == if at < |fs| && fs[at].Data? then fs[at].bytes + Joined(fs, at + 1) else []
  {
  }

  /** A stream as a writer makes it: data frames, then the end. */
  predicate Clean(fs: seq<Frame>, start: nat)
    requires start <= |fs|
  {
    EndFrom(fs, start) < |fs| && forall i | start <= i < EndFrom(fs, start) :: fs[i].Data?
  }

  class DataIn {
    const fs: seq<Frame>
    const start: nat
    var at: nat
    var buf: seq<byte>
    var pos: nat
    var ended: bool

    constructor (fs: seq<Frame>, start: nat)
      requires start <= |fs|
      ensures Valid() && this.fs == fs && this.start == start && at == start && !ended
      ensures Left() == Joined(fs, start)
    {
      this.fs, this.start, this.at, this.buf, this.pos, this.ended := fs, start, start, [], 0, false;
    }

    /** The reader stands within the stream, or just past its end. */
    ghost predicate Valid()
      reads this
    {
      && start <= at <= |fs| && pos <= |buf|
      && (if ended then EndFrom(fs, start) < |fs| && at == EndFrom(fs, start) + 1
          else at <= EndFrom(fs, start))
    }

    /** What is left to hand out before the stream ends or breaks. */
    ghost function Left(): seq<byte>
      requires Valid()
      reads this
    {
      buf[pos..] + if ended then [] else Joined(fs, at)
    }

    /** Hands out the next bytes: none exactly at the end, for a nonempty buffer. It fails only on a
        frame that is no part of a stream, or when the connection ends. */
    method Read(want: nat) returns (r: Option<seq<byte>>)
      requires Valid()
      modifies this
      ensures Valid() && old(at) <= at && (old(ended) ==> ended)
      ensures match r
              case Some(bytes) =>
                && |bytes| <= want && old(Left()) == bytes + Left()
                && (want > 0 && bytes == [] ==> ended && Left() == [])
              case None =>
                && old(Left()) == [] && !ended && buf[pos..] == []
                && (at < |fs| ==> at > 0 && fs[at - 1].Other?)
      ensures Clean(fs, start) ==> r.Some?
    {
      hide EndFrom, Concat, Joined;
      ghost var left := Left();
      while pos == |buf|
        invariant Valid() && old(at) <= at && (old(ended) ==> ended) && Left() == left
        decreases |fs| - at, !ended
      {
        if ended {
          return Some([]);
        }
        if at == |fs| {
          JoinedStep(fs, at);
          return None;
        }
        JoinedStep(fs, at);
        match fs[at] {
          case Data(bytes) =>
            buf, pos, at := bytes, 0, at + 1;
            assert buf[0..] == bytes;
          case End =>
            ended, at := true, at + 1;
          case Other =>
            at := at + 1;
            return None;
        }
      }
      var n := if want < |buf| - pos then want else |buf| - pos;
      ghost var tail := if ended then [] else Joined(fs, at);
      r := Some(buf[pos..pos + n]);
      SplitAt(buf, pos, n, tail);
      pos := pos + n;
    }

    /** Drains the stream: afterwards the connection stands on the frame after its end. */
    method Finish() returns (ok: bool)
      requires Valid()
      modifies this
      ensures Valid() && old(at) <= at
      ensures ok ==> ended && at == EndFrom(fs, start) + 1 && Left() == []
      ensures Clean(fs, start) ==> ok
    {
      while true
        invariant Valid() && old(at) <= at
        decreases |fs| - at, |Left()|
      {
        ghost var before, stood := Left(), at;
        var r := Read(8192);
        if r.None? {
          return false;
        }
        if r.value == [] {
          return true;
        }
      }
    }
  }

  /** The agent's `Put`: an archive that reads as much or as little as it likes, in any sizes, past any
      failure, and then the drain. The next request is read from just past the stream's end. */
  method Put(fs: seq<Frame>, start: nat) returns (ok: bool, got: seq<byte>, next: nat)
    requires start <= |fs|
    ensures ok ==> EndFrom(fs, start) < |fs| && next == EndFrom(fs, start) + 1
    ensures Clean(fs, start) ==> ok
    ensures got <= Joined(fs, start)
  {
    hide Joined, EndFrom, Concat;
    var data := new DataIn(fs, start);
    got := [];
    var turns: nat := *;
    var failed := false;
    while turns > 0
      invariant data.Valid() && data.fs == fs && data.start == start
      invariant !failed ==> Joined(fs, start) == got + data.Left()
      invariant got <= Joined(fs, start)
      decreases turns
    {
      var want: nat := *;
      var r := data.Read(want);
      if r.None? {
        failed := true;
      } else if !failed {
        PlusAssociates(got, r.value, data.Left());
        got := got + r.value;
      }
      turns := turns - 1;
    }
    ok := data.Finish();
    next := data.at;
  }

  lemma SplitAt(buf: seq<byte>, pos: nat, n: nat, tail: seq<byte>)
    requires pos + n <= |buf|
    ensures buf[pos..] + tail == buf[pos..pos + n] + (buf[pos + n..] + tail)
  {
    assert buf[pos..] == buf[pos..pos + n] + buf[pos + n..];
  }

  lemma PlusAssociates(a: seq<byte>, b: seq<byte>, c: seq<byte>)
    ensures a + (b + c) == (a + b) + c
  {
  }

  // ---- Together

  function AsFrames(chunks: seq<seq<byte>>): seq<Frame> {
    seq(|chunks|, i requires 0 <= i < |chunks| => Data(chunks[i]))
  }

  lemma {:induction false} JoinedFrom(chunks: seq<seq<byte>>, rest: seq<Frame>, at: nat)
    requires at <= |chunks|
    ensures Joined(AsFrames(chunks) + [End] + rest, at) == Concat(chunks[at..])
    ensures EndFrom(AsFrames(chunks) + [End] + rest, at) == |chunks|
    decreases |chunks| - at
  {
    var fs := AsFrames(chunks) + [End] + rest;
    if at < |chunks| {
      JoinedFrom(chunks, rest, at + 1);
      assert fs[at] == Data(chunks[at]);
      assert chunks[at..][1..] == chunks[at + 1..];
    } else {
      assert fs[at] == End && chunks[at..] == [];
    }
  }

  /** What one side wrote and flushed, the other reads, and stands just past the end mark. */
  lemma StreamRoundTrip(chunks: seq<seq<byte>>, rest: seq<Frame>)
    ensures Joined(AsFrames(chunks) + [End] + rest, 0) == Concat(chunks)
    ensures EndFrom(AsFrames(chunks) + [End] + rest, 0) == |chunks| && Clean(AsFrames(chunks) + [End] + rest, 0)
  {
    JoinedFrom(chunks, rest, 0);
    assert chunks[0..] == chunks;
  }
}
