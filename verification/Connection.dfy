/** The keep-alive loop of one connection: parse a head, let a handler read its body as it likes, and
    go on only when the body was drained. */
module Connection {
  import opened Bytes
  import opened Wire
  import opened Body
  import opened ReadingOn
  import opened Readers
  import opened Pipelines

  /** Reads the lines of one head. */
  method ReadHead(socket: Socket, g: Grammar, budget: nat) returns (r: HeadParse)
    requires socket.Valid()
    modifies socket
    ensures socket.Valid() && old(socket.pos) <= socket.pos && (old(socket.stopping) ==> socket.stopping)
    ensures socket.polls <= old(socket.polls)
    ensures r.Parsed? ==>
              && HeadAt(g, old(socket.Ahead()), [], 0, budget) == r
              && socket.pos == old(socket.pos) + r.used
    ensures r.Refused? ==> HeadAt(g, old(socket.Ahead()), [], 0, budget) == r
    ensures r.Ended? ==> HeadAt(g, old(socket.Ahead()), [], 0, budget) == Ended || socket.failed || socket.stopping
  {
    hide LineOf, HeadAt;
    var lines: seq<seq<byte>> := [];
    var total: nat := 0;
    ghost var s := socket.Ahead();
    assert s[0..] == s;
    while true
      invariant socket.Valid() && total <= |s| && socket.Ahead() == s[total..]
      invariant socket.pos == old(socket.pos) + total && (old(socket.stopping) ==> socket.stopping)
      invariant socket.polls <= old(socket.polls)
      invariant HeadAt(g, s, [], 0, budget) == Shifted(HeadAt(g, s[total..], lines, total, budget), total)
      decreases |socket.sent| - socket.pos
    {
      HeadStep(g, s[total..], lines, total, budget);
      var line := socket.BoundedLine(if total < budget then budget - total else 0);
      match line {
        case Ok(Some(bytes)) =>
          assert s[total..][|bytes|..] == s[total + |bytes|..];
          match g(lines + [bytes]) {
            case More =>
              lines, total := lines + [bytes], total + |bytes|;
            case Bad(status) => return Refused(status);
            case Complete(head) => return Parsed(head, total + |bytes|);
          }
        case Err(InvalidData) => return Refused(431);
        case _ => return Ended;
      }
    }
  }

  datatype BodyReader = Empty | Fixed(limited: Limited) | InChunks(chunked: Chunked)

  datatype Response = Unsent | HeadCut | BodyCut | Whole(saysClose: bool)

  datatype BodyResult = Bytes(bytes: seq<byte>) | TooLarge | Unreadable

  class Request {
    const socket: Socket
    const length: Option<nat>
    const body: BodyReader
    const asked: bool   // the head asked for a close
    var close: bool
    var response: Response

    constructor (socket: Socket, length: Option<nat>, body: BodyReader, close: bool)
      requires body.Fixed? ==> body.limited.socket == socket
      requires body.InChunks? ==> body.chunked.socket == socket
      ensures this.socket == socket && this.length == length && this.body == body
      ensures asked == this.close == close && response == Unsent
    {
      this.socket, this.length, this.body, this.response := socket, length, body, Unsent;
      this.asked, this.close := close, close;
    }

    ghost function Repr(): set<object> {
      {this, socket} + (match body
                        case Empty => {}
                        case Fixed(l) => {l}
                        case InChunks(c) => {c})
    }

    ghost predicate Valid()
      reads Repr()
    {
      && socket.Valid()
      && (body.Fixed? ==> body.limited.socket == socket)
      && (body.InChunks? ==> body.chunked.socket == socket && body.chunked.Valid())
      && Decided()
    }

    /** What the response so far says about the end of the connection. */
    predicate Decided()
      reads Repr()
    {
      match response
      case Unsent => close == asked
      case HeadCut => close == asked
      case BodyCut => close
      case Whole(saysClose) => close == saysClose && (!saysClose ==> Drained())
    }

    ghost function Ahead(): Decoded
      requires Valid()
      reads Repr()
    {
      match body
      case Empty => Decoded([], Some(socket.pos))
      case Fixed(l) => l.Ahead()
      case InChunks(c) => c.Ahead()
    }

    /** Where the body comes to its end, read on past every rejection. */
    ghost function End(): Option<nat>
      requires Valid()
      reads Repr()
    {
      match body
      case InChunks(c) => c.End()
      case _ => Ahead().used
    }

    /** Only a chunked body can lose bytes. */
    function Loss(): Loss
      reads Repr()
    {
      match body
      case InChunks(c) => c.loss
      case _ => NoLoss
    }

    predicate Drained()
      reads Repr()
    {
      match body
      case Empty => true
      case Fixed(l) => l.left == 0
      case InChunks(c) => c.done
    }

    predicate MustClose()
      reads Repr()
    {
      close || !Drained()
    }

    /** A drained body leaves the socket exactly at the end of its framing. */
    lemma DrainedIsAtTheEnd()
      requires Valid() && Drained()
      ensures Ahead() == Decoded([], Some(socket.pos)) && End() == Some(socket.pos)
    {
      hide Rest;
    }

    /** An interruption fell between the two bytes of a chunk's end, and what is left of them does not end a chunk. */
    ghost predicate AtHalf()
      requires Valid()
      reads Repr()
    {
      && body.InChunks? && body.chunked.phase == Crlf && !body.chunked.done
      && Loss() == Halved && !(CRLF <= socket.Ahead())
    }

    /** What a read leaves of the socket. */
    ghost predicate Onward(pos: nat, polls: nat, stopping: bool, failed: bool)
      reads Repr()
    {
      && Valid() && pos <= socket.pos && socket.polls <= polls
      && (stopping ==> socket.stopping) && (failed ==> socket.failed)
    }

    /** Why a read failed and what it cost. */
    ghost predicate Explained(e: IoError, ahead: Decoded, end: Option<nat>, before: Loss)
      requires Valid()
      reads Repr()
    {
      && (before != NoLoss ==> Loss() == before)
      && (Loss() == NoLoss ==> Ahead() == ahead && End() == end)
      && (before == NoLoss && Loss() != NoLoss ==> Loss() == LossOf(e))
      && (e == InvalidData ==> ahead.used.None? && End() == end)
      && (e == UnexpectedEof ==> ahead.used.None? && end.None?)
      && (e == TimedOut || e == Broken ==> socket.Down(e))
    }

    /** Reads some of the body: the next part of its payload, and no bytes for a nonempty buffer only when it is
        drained. A failed read that lost no bytes leaves the body as it was. */
    method Read(want: nat) returns (r: Result<seq<byte>>)
      requires Valid()
      modifies Repr() - {this}
      ensures Onward(old(socket.pos), old(socket.polls), old(socket.stopping), old(socket.failed))
      ensures r.Ok? ==>
                && |r.value| <= want && old(socket.pos) + |r.value| <= socket.pos
                && old(Ahead()) == After(Ahead(), r.value, 0)
                && End() == old(End()) && Loss() == old(Loss()) && (want > 0 && r.value == [] ==> Drained())
      ensures r.Err? ==> !Drained() && Explained(r.error, old(Ahead()), old(End()), old(Loss()))
      ensures r == Err(Interrupted) ==> socket.polls < old(socket.polls)
      ensures r == Err(InvalidData) ==> old(socket.pos) < socket.pos
      ensures old(socket.failed) ==> Drained() == old(Drained()) && (r.Ok? ==> r.value == [])
      ensures Loss() == Halved != old(Loss()) && old(Ahead()).used.Some? ==> AtHalf()
      ensures old(AtHalf()) && want > 0 ==> r.Err?
      ensures old(Drained()) ==> Drained()
    {
      hide FixedBody, Rest, Ending;
      match body {
        case Empty => return Ok([]);
        case Fixed(l) => r := l.Read(want);
        case InChunks(c) =>
          ghost var s, trailers := socket.Ahead(), c.trailers;
          r := c.Read(want);
          if c.loss == Halved != old(c.loss) {
            HalfDoesNotEnd(s, trailers);
            assert socket.Ahead() == s[1..];
          }
      }
    }

    /** The body read at once, refused past `limit` bytes: what it returns is the whole payload, unless an
        interruption fell between the two bytes of a chunk's end, which it reads past. Then a body whose framing
        ends is unreadable, unless there was a second interruption. */
    method PublicBody(limit: nat) returns (r: BodyResult, ghost interruptions: nat)
      requires Valid() && Loss() == NoLoss
      modifies Repr() - {this}
      ensures Valid()
      ensures match r
              case Bytes(bytes) =>
                && |bytes| <= limit && Drained() && (Loss() == NoLoss || Loss() == Halved)
                && (Loss() == NoLoss ==> old(Ahead()) == Decoded(bytes, Some(socket.pos)))
              case TooLarge =>
                (length.Some? && length.value > limit) || |old(Ahead()).payload| > limit || Loss() == Halved
              case Unreadable => old(Ahead()).used.None? || socket.failed || socket.stopping || Loss() == Halved
      ensures length.Some? && length.value > limit ==> r.TooLarge? && socket.pos == old(socket.pos)
      ensures Loss() == Halved && old(Ahead()).used.Some? && interruptions <= 1 ==> r.Unreadable?
    {
      hide Rest, FixedBody, Ending;
      interruptions := 0;
      if length.Some? && length.value > limit {
        r := TooLarge;
        return;
      }
      var bytes: seq<byte> := [];
      while |bytes| <= limit
        invariant Valid() && |bytes| <= limit + 1 && (Loss() == NoLoss || Loss() == Halved)
        invariant Loss() == NoLoss ==> old(Ahead()) == After(Ahead(), bytes, 0)
        invariant Loss() == Halved ==> interruptions > 0
        invariant Loss() == Halved && old(Ahead()).used.Some? && interruptions <= 1 ==> AtHalf() && |bytes| <= limit
        decreases limit + 1 - |bytes|, socket.polls
      {
        var want :| 1 <= want <= limit + 1 - |bytes|;
        ghost var ahead := Ahead();
        var got := Read(want);
        match got {
          case Err(e) =>
            if e != Interrupted {
              r := Unreadable;
              return;
            }
            interruptions := interruptions + 1;
          case Ok(more) =>
            AfterAfter(Ahead(), bytes, more, 0, 0);
            bytes := bytes + more;
            if more == [] {
              DrainedIsAtTheEnd();
              r := Bytes(bytes);
              return;
            }
        }
      }
      r := TooLarge;
    }

    /** Sends one response. Writing its head or its body may fail, and a body may end short. */
    method Respond(lengthKnown: bool) returns (sent: bool)
      requires Valid()
      modifies this
      ensures Valid()
      ensures old(response) != Unsent ==> !sent && response == old(response) && close == old(close)
      ensures old(response) == Unsent ==>
                && response != Unsent
                && (response.Whole? ==> sent) && (response.HeadCut? ==> !sent)
                && (response.Whole? ==> response.saysClose == (old(MustClose()) || !lengthKnown))
                && (response.Whole? ==> close == (old(close) || response.saysClose))
                && (response.BodyCut? ==> close)
                && (response.HeadCut? ==> close == old(close) && MustClose() == old(MustClose()))
    {
      if response != Unsent {
        return false;
      }
      var saysClose := MustClose() || !lengthKnown;
      if * {
        response := HeadCut;
        return false;
      }
      if * {
        response, close := BodyCut, true;
        return false;
      }
      var short: bool := *;
      response := if short then BodyCut else Whole(saysClose);
      close := close || short || saysClose;
      return true;
    }
  }

  /** Any handler: it reads in any sizes, before and after any failure, and responds whenever it likes or not at
      all. While no read has lost bytes it was given a prefix of its payload, all of it once the body is drained;
      a first loss by a rejection means that the framing never ends, and after one by the socket the body is never
      drained unless the server stops. */
  method AnyHandler(q: Request) returns (delivered: seq<byte>)
    requires q.Valid() && q.response == Unsent && q.Loss() == NoLoss
    modifies q.Repr()
    ensures q.Valid() && old(q.socket.pos) <= q.socket.pos && (old(q.socket.stopping) ==> q.socket.stopping)
    ensures q.Loss() == NoLoss ==>
              && delivered <= old(q.Ahead()).payload
              && (q.Drained() ==> old(q.Ahead()) == Decoded(delivered, Some(q.socket.pos)))
    ensures q.Loss() == Rejected ==> old(q.Ahead()).used.None?
    ensures q.Loss() == Dropped ==> !q.Drained() || q.socket.stopping
  {
    hide Rest, FixedBody, Ending;
    delivered := [];
    var steps: nat := *;
    while steps > 0
      invariant q.Valid() && old(q.socket.pos) <= q.socket.pos && (old(q.socket.stopping) ==> q.socket.stopping)
      invariant q.Loss() == NoLoss ==> old(q.Ahead()) == After(q.Ahead(), delivered, 0)
      invariant q.Loss() == Rejected ==> old(q.Ahead()).used.None?
      invariant q.Loss() == Dropped ==> (q.socket.failed && !q.Drained()) || q.socket.stopping
    {
      if * {
        var lengthKnown: bool := *;
        var sent := q.Respond(lengthKnown);
      } else {
        var want: nat := *;
        var r := q.Read(want);
        if r.Ok? {
          AfterAfter(q.Ahead(), delivered, r.value, 0, 0);
          delivered := delivered + r.value;
        }
      }
      steps := steps - 1;
    }
    if q.Drained() {
      q.DrainedIsAtTheEnd();
    }
  }

  // ---- One turn

  method OpenBody(socket: Socket, head: Head) returns (q: Request)
    requires socket.Valid()
    ensures fresh(q.Repr() - {socket}) && q.socket == socket && q.Valid() && q.response == Unsent
    ensures q.asked == q.close == head.close && q.Loss() == NoLoss && (q.body.InChunks? <==> head.chunked)
    ensures q.Ahead() == After(Extent(head, socket.Ahead()), [], socket.pos)
    ensures head.chunked ==> q.End() == Plus(socket.pos, Ending(socket.Ahead(), Size, 0))
  {
    hide Rest, Ending;
    var body := Empty;
    if head.chunked {
      var c := new Chunked(socket);
      body := InChunks(c);
    } else if head.length.Some? && head.length.value > 0 {
      var l := new Limited(socket, head.length.value);
      body := Fixed(l);
    }
    q := new Request(socket, head.length, body, head.close);
  }

  /** A head that was parsed and whether it asks for a close; the bytes its handler was given and what reading them
      lost; the handler's response and whether it panicked; and whether the body was drained. */
  datatype Served = Served(at: nat, close: bool, delivered: seq<byte>, loss: Loss, response: Response,
                           panicked: bool, drained: bool)

  /** The turn does not end the connection: answered in full without announcing a close; or the head of the response
      was cut off, and the body is drained and no close was asked for. */
  predicate GoesOn(one: Served) {
    && !one.panicked
    && match one.response
       case Whole(saysClose) => !saysClose
       case HeadCut => one.drained && !one.close
       case _ => false
  }

  predicate Answered(one: Served) {
    one.response == Whole(false) || one.response == HeadCut
  }

  /** The end of a turn whose handler has not answered before: after a head that was cut off the connection goes on
      as if it had been answered, after a body that was, it does not. */
  method LastAnswer(q: Request, lengthKnown: bool) returns (kept: bool)
    requires q.Valid() && q.response == Unsent
    modifies q
    ensures q.Valid()
    ensures match q.response
            case HeadCut => kept <==> old(q.Drained()) && !old(q.close) && !q.socket.stopping
            case BodyCut => !kept
            case Whole(saysClose) =>
              && (kept <==> !saysClose && !q.socket.stopping)
              && (saysClose <==> !lengthKnown || !old(q.Drained()) || old(q.close))
            case Unsent => false
  {
    var sent := q.Respond(lengthKnown);
    kept := q.response != Unsent && !q.MustClose() && !q.socket.stopping;
  }

  /** What a turn says of the request at the head of the bytes ahead. */
  ghost predicate Suits(one: Served, g: Grammar, ahead: seq<byte>, at: nat, budget: nat) {
    && HeadAt(g, ahead, [], 0, budget).Parsed? && one.at == at
    && one.close == HeadAt(g, ahead, [], 0, budget).head.close
    && (one.loss == NoLoss ==> one.delivered <= FirstPayload(g, ahead, budget))
  }

  /** What befalls a turn: the server stops as it begins; the interim response fails or no handler is to be had; the
      handler panics. */
  datatype Luck = Luck(stop: bool, withheld: bool, panics: bool)

  /** One turn of the loop. Without
      a head to serve, the head was refused or cut off, the socket failed or the server stops. A request that was
      served is kept exactly when its answer says so and the server does not stop. Then the connection goes on from
      the exact end of the request's framing when no read lost bytes; and when a read was rejected, from where no
      framing ends. Every request served is answered, by the server if not by the handler. */
  method ServeOne(socket: Socket, g: Grammar, budget: nat, luck: Luck)
    returns (served: Option<Served>, kept: bool, last: Response)
    requires socket.Valid()
    modifies socket
    ensures socket.Valid() && old(socket.pos) <= socket.pos
    ensures served.Some? ==> Suits(served.value, g, old(socket.Ahead()), old(socket.pos), budget)
    ensures served.Some? ==> !luck.withheld && served.value.panicked == luck.panics
    ensures served.Some? ==> last != Unsent && (served.value.response != Unsent ==> last == served.value.response)
    ensures served.None? && !luck.withheld ==>
              !HeadAt(g, old(socket.Ahead()), [], 0, budget).Parsed? || socket.failed || socket.stopping
    ensures kept <==> served.Some? && GoesOn(served.value) && !socket.stopping
    ensures served.Some? ==>
              var one := served.value;
              kept <==> && !luck.panics && !socket.stopping
                        && (one.response == Whole(false) || (one.response == HeadCut && one.drained && !one.close))
    ensures kept ==>
              && Answered(served.value) && old(socket.pos) < socket.pos
              && match served.value.loss
                 case NoLoss =>
                   && Span(g, old(socket.Ahead()), budget) == Some(socket.pos - old(socket.pos))
                   && served.value.delivered == FirstPayload(g, old(socket.Ahead()), budget)
                 case Rejected => Span(g, old(socket.Ahead()), budget).None?
                 case Halved => true
                 case Dropped => false
  {
    hide HeadAt, Rest, Extent, Ending;
    ghost var ahead := socket.Ahead();
    var at := socket.pos;
    socket.polls := *;
    var head := ReadHead(socket, g, budget);
    if !head.Parsed? {
      return None, false, Unsent;
    }
    if luck.withheld {
      return None, false, Unsent;
    }
    assert socket.Ahead() == ahead[head.used..];
    socket.polls := *;
    var q := OpenBody(socket, head.head);
    var delivered := AnyHandler(q);
    served := Some(Served(at, head.head.close, delivered, q.Loss(), q.response, luck.panics, q.Drained()));
    if luck.panics || q.response == Unsent {
      var sent := q.Respond(true);
      return served, false, q.response;
    }
    kept := !q.MustClose() && !socket.stopping;
    last := q.response;
  }

  // ---- The whole connection

  /** The requests served are the first ones of the pipeline, each given a prefix of its own payload as long as
      its reads lost nothing. */
  ghost predicate Follows(served: seq<Served>, pipeline: seq<Expected>) {
    && |served| <= |pipeline|
    && forall i | 0 <= i < |served| ::
         served[i].at == pipeline[i].at && (served[i].loss == NoLoss ==> served[i].delivered <= pipeline[i].payload)
  }

  /** The first `n` requests were answered and given their whole payloads. */
  ghost predicate Completed(served: seq<Served>, pipeline: seq<Expected>, n: int) {
    && n <= |served| && n <= |pipeline|
    && forall i | 0 <= i < n :: Answered(served[i]) && served[i].delivered == pipeline[i].payload
  }

  /** How many requests were served before the first whose reads lost bytes. */
  function Clean(served: seq<Served>): (k: nat)
    ensures k <= |served| && (forall i | 0 <= i < k :: served[i].loss == NoLoss)
    ensures k < |served| ==> served[k].loss != NoLoss
  {
    if served == [] || served[0].loss != NoLoss then 0
    else
      var k := 1 + Clean(served[1..]);
      assert forall i | 1 <= i < k :: served[i] == served[1..][i - 1];
      k
  }

  function Min(a: int, b: int): int {
    if a < b then a else b
  }

  /** What holds of a connection: up to the first request whose reads lost bytes, heads were looked for at the
      boundaries and the requests are those of the pipeline, and all that were kept are complete. If that
      request was kept after a rejection, there was no boundary after its own. */
  ghost predicate Lawful(tried: seq<nat>, served: seq<Served>, edges: seq<nat>, all: seq<Expected>) {
    var k := Clean(served);
    && |tried| - 1 <= |served| <= |tried|
    && tried[..Min(k + 1, |tried|)] <= edges
    && Follows(served[..Min(k + 1, |served|)], all)
    && Completed(served, all, Min(k, |tried| - 1))
    && (k < |tried| - 1 ==> served[k].loss == Rejected || served[k].loss == Halved)
    && (k < |tried| - 1 && served[k].loss == Rejected ==> |edges| == k + 1)
  }

  /** Where every kept turn so far lost nothing. */
  ghost predicate OnTrack(tried: seq<nat>, served: seq<Served>, edges: seq<nat>, all: seq<Expected>) {
    && |tried| == |served| && tried <= edges && Follows(served, all) && Completed(served, all, |served|)
    && (forall i | 0 <= i < |served| :: served[i].loss == NoLoss)
  }

  /** Where some kept turn lost bytes: the law holds whatever is served next. */
  ghost predicate Strayed(tried: seq<nat>, served: seq<Served>, edges: seq<nat>, all: seq<Expected>) {
    Clean(served) < |served| == |tried| && Lawful(tried + [0], served, edges, all)
  }

  lemma NoneServed(edges: seq<nat>, all: seq<Expected>)
    ensures OnTrack([], [], edges, all)
  {
  }

  lemma CleanIs(served: seq<Served>, k: nat)
    requires k <= |served| && (forall i | 0 <= i < k :: served[i].loss == NoLoss)
    requires k < |served| ==> served[k].loss != NoLoss
    ensures Clean(served) == k
  {
    hide Clean;
  }

  /** The turn on which the connection ends, with or without a request. */
  lemma TrackEnds(tried: seq<nat>, served: seq<Served>, edges: seq<nat>, all: seq<Expected>, at: nat,
                  one: Option<Served>)
    requires OnTrack(tried, served, edges, all) && tried + [at] <= edges
    requires one.Some? ==> Follows(served + [one.value], all)
    ensures Lawful(tried + [at], if one.Some? then served + [one.value] else served, edges, all)
    ensures Lawful(tried, served, edges, all)
  {
    CleanIs(served, |served|);
    if one.Some? {
      var more := served + [one.value];
      CleanIs(more, if one.value.loss == NoLoss then |more| else |served|);
      assert more[..|more|] == more;
    }
    hide Clean, Answered;
    assert served[..|served|] == served && tried[..|tried|] == tried;
    assert (tried + [at])[..|tried| + 1] == tried + [at];
  }

  /** A kept turn that lost nothing. */
  lemma TrackGoesOn(tried: seq<nat>, served: seq<Served>, edges: seq<nat>, all: seq<Expected>, at: nat, one: Served)
    requires OnTrack(tried, served, edges, all) && tried + [at] <= edges && Follows(served + [one], all)
    requires one.loss == NoLoss && Answered(one) && one.delivered == all[|served|].payload
    ensures OnTrack(tried + [at], served + [one], edges, all)
  {
    hide Answered;
  }

  /** A kept turn that lost bytes. */
  lemma TrackIsLost(tried: seq<nat>, served: seq<Served>, edges: seq<nat>, all: seq<Expected>, at: nat, one: Served)
    requires OnTrack(tried, served, edges, all) && tried + [at] <= edges && Follows(served + [one], all)
    requires one.loss == Rejected || one.loss == Halved
    requires one.loss == Rejected ==> |edges| == |tried| + 1
    ensures Strayed(tried + [at], served + [one], edges, all)
  {
    var more := served + [one];
    CleanIs(more, |served|);
    hide Clean, Answered;
    assert more[..|served| + 1] == more;
    assert (tried + [at] + [0])[..|tried| + 1] == tried + [at];
  }

  lemma StrayedGoesOn(tried: seq<nat>, served: seq<Served>, edges: seq<nat>, all: seq<Expected>, at: nat, one: Served)
    requires Strayed(tried, served, edges, all)
    ensures Strayed(tried + [at], served + [one], edges, all)
  {
    var k, more := Clean(served), served + [one];
    CleanIs(more, k);
    hide Clean, Answered;
    assert more[..k + 1] == served[..k + 1];
    assert (tried + [at] + [0])[..k + 1] == (tried + [0])[..k + 1];
  }

  lemma StrayedEnds(tried: seq<nat>, served: seq<Served>, edges: seq<nat>, all: seq<Expected>, at: nat,
                    one: Option<Served>)
    requires Strayed(tried, served, edges, all)
    ensures Lawful(tried, served, edges, all)
    ensures Lawful(tried + [at], if one.Some? then served + [one.value] else served, edges, all)
  {
    var k := Clean(served);
    if one.Some? {
      var more := served + [one.value];
      CleanIs(more, k);
      assert more[..k + 1] == served[..k + 1];
    }
    hide Clean, Answered;
    assert (tried + [at])[..k + 1] == (tried + [0])[..k + 1] == tried[..k + 1];
  }

  lemma DropOne<T>(xs: seq<T>, k: nat, x: T, rest: seq<T>)
    requires k <= |xs| && xs[k..] == [x] + rest
    ensures k < |xs| && xs[k] == x && xs[k + 1..] == rest
  {
    assert xs[k] == xs[k..][0] && xs[k + 1..] == xs[k..][1..];
  }

  /** Why a connection ended: the server stops, there was no head to serve, or its last turn. */
  datatype Farewell = Stopped | Headless | LastTurn

  ghost predicate NoHeadAt(g: Grammar, sent: seq<byte>, at: nat, budget: nat) {
    at <= |sent| && !HeadAt(g, sent[at..], [], 0, budget).Parsed?
  }

  /** The connection went on after every turn that did not end it, and ended for a reason. */
  ghost predicate EndsFor(ending: Farewell, tried: seq<nat>, served: seq<Served>, luck: nat -> Luck, socket: Socket,
                          g: Grammar, budget: nat)
    reads socket
  {
    match ending
    case Stopped => |served| == |tried| && AllGoOn(served) && (luck(|tried|).stop || socket.stopping)
    case Headless =>
      && |tried| == |served| + 1 && AllGoOn(served)
      && (luck(|served|).withheld || socket.failed || socket.stopping
          || NoHeadAt(g, socket.sent, tried[|tried| - 1], budget))
    case LastTurn =>
      |served| == |tried| > 0 && AllGoOn(served[..|served| - 1]) && !GoesOn(served[|served| - 1])
  }

  predicate AllGoOn(served: seq<Served>) {
    forall i | 0 <= i < |served| :: GoesOn(served[i])
  }

  predicate LostNothing(served: seq<Served>) {
    forall i | 0 <= i < |served| :: served[i].loss == NoLoss
  }

  /** Every request of the pipeline was served and given its whole payload. */
  ghost predicate ServedWhole(tried: seq<nat>, served: seq<Served>, edges: seq<nat>, all: seq<Expected>) {
    && tried == edges && |served| == |all|
    && forall i | 0 <= i < |all| :: served[i].at == all[i].at && served[i].delivered == all[i].payload
  }

  /** The whole connection, for every byte stream, every fragmentation and every handler, and whatever befalls
      the turns. It ends for a reason only, so a pipeline whose requests are answered well is
      served whole when nothing else ends the connection. */
  method Serve(socket: Socket, g: Grammar, budget: nat, luck: nat -> Luck)
    returns (tried: seq<nat>, served: seq<Served>, ending: Farewell)
    requires socket.Valid()
    modifies socket
    ensures Lawful(tried, served, Boundaries(g, old(socket.Ahead()), old(socket.pos), budget),
                   Pipeline(g, old(socket.Ahead()), old(socket.pos), budget))
    ensures EndsFor(ending, tried, served, luck, socket, g, budget)
    ensures Befell(served, luck)
    ensures LostNothing(served) && ending.Headless? && NoHeadAt(g, socket.sent, tried[|tried| - 1], budget) ==>
              ServedWhole(tried, served, Boundaries(g, old(socket.Ahead()), old(socket.pos), budget),
                          Pipeline(g, old(socket.Ahead()), old(socket.pos), budget))
  {
    hide HeadAt, Span, FirstPayload, Pipeline, Boundaries, Follows, Answered, OnTrack, Strayed, Lawful, Clean, GoesOn,
         ServedWhole, Suits, Befell, AllGoOn;
    tried, served, ending := [], [], Stopped;
    ghost var all := Pipeline(g, socket.Ahead(), socket.pos, budget);
    ghost var edges := Boundaries(g, socket.Ahead(), socket.pos, budget);
    NoneServed(edges, all);
    assert AllGoOn([]) && Befell([], luck) by {
      NoneBefell(luck);
    }
    ghost var straight := true;
    while !luck(|tried|).stop
      invariant Befell(served, luck)
      invariant socket.Valid() && old(socket.pos) <= socket.pos && |served| == |tried| && AllGoOn(served)
      invariant straight ==> |served| <= |all| && |tried| <= |edges| && OnTrack(tried, served, edges, all)
      invariant straight ==> edges[|tried|..] == Boundaries(g, socket.Ahead(), socket.pos, budget)
      invariant straight ==> all[|served|..] == Pipeline(g, socket.Ahead(), socket.pos, budget)
      invariant !straight ==> Strayed(tried, served, edges, all)
      decreases |socket.sent| - socket.pos
    {
      ghost var ahead, was, had := socket.Ahead(), tried, served;
      var at := socket.pos;
      var one, kept, last := ServeOne(socket, g, budget, luck(|tried|));
      if straight {
        TurnFits(g, ahead, at, budget, tried, served, edges, all, one);
        TrackEnds(tried, served, edges, all, at, one);
      } else {
        StrayedEnds(tried, served, edges, all, at, one);
        StrayedLost(tried, served, edges, all);
      }
      tried := tried + [at];
      if one.None? {
        if straight && !HeadAt(g, ahead, [], 0, budget).Parsed? {
          AllServed(g, ahead, at, budget, was, served, edges, all);
        }
        ending := Headless;
        return;
      }
      served := served + [one.value];
      BefellNext(had, luck, one.value);
      if !kept {
        ending := if GoesOn(one.value) then Stopped else LastTurn;
        assert served[..|served| - 1] == had;
        return;
      }
      if straight {
        assert socket.Ahead() == ahead[socket.pos - at..];
        TurnGoesOn(g, ahead, at, budget, was, had, edges, all, one.value, socket.pos - at);
        straight := one.value.loss == NoLoss;
      } else {
        StrayedGoesOn(was, had, edges, all, at, one.value);
      }
    }
    if straight {
      OnTrackIsLawful(tried, served, edges, all);
    } else {
      StrayedEnds(tried, served, edges, all, 0, None);
    }
  }

  /** What befell the turns is what the requests served say. */
  ghost predicate Befell(served: seq<Served>, luck: nat -> Luck) {
    forall i | 0 <= i < |served| :: served[i].panicked == luck(i).panics && !luck(i).withheld
  }

  lemma NoneBefell(luck: nat -> Luck)
    ensures AllGoOn([]) && Befell([], luck)
  {
  }

  lemma BefellNext(served: seq<Served>, luck: nat -> Luck, one: Served)
    requires Befell(served, luck) && one.panicked == luck(|served|).panics && !luck(|served|).withheld
    ensures Befell(served + [one], luck)
    ensures AllGoOn(served) && GoesOn(one) ==> AllGoOn(served + [one])
  {
    hide GoesOn;
  }

  lemma StrayedLost(tried: seq<nat>, served: seq<Served>, edges: seq<nat>, all: seq<Expected>)
    requires Strayed(tried, served, edges, all)
    ensures !LostNothing(served)
  {
    hide Lawful;
  }

  /** Where there is no head at a boundary, the pipeline is over. */
  lemma AllServed(g: Grammar, ahead: seq<byte>, at: nat, budget: nat, tried: seq<nat>, served: seq<Served>,
                  edges: seq<nat>, all: seq<Expected>)
    requires OnTrack(tried, served, edges, all) && |served| <= |all| && |tried| <= |edges|
    requires edges[|tried|..] == Boundaries(g, ahead, at, budget)
    requires all[|served|..] == Pipeline(g, ahead, at, budget)
    requires !HeadAt(g, ahead, [], 0, budget).Parsed?
    ensures ServedWhole(tried + [at], served, edges, all)
  {
    hide Answered, HeadAt;
    assert Pipeline(g, ahead, at, budget) == [] && Boundaries(g, ahead, at, budget) == [at];
    assert edges == edges[..|tried|] + edges[|tried|..];
  }

  /** A client that pipelines well-framed requests and then falls silent gets every one of them served with its own
      payload, if every handler answers in full, asks for no close and reads without loss, and neither the server
      stops nor the socket fails nor a handler is withheld or panics. */
  method ServeSent(socket: Socket, g: Grammar, budget: nat, qs: seq<Sent>) returns (served: seq<Served>)
    requires socket.Valid() && socket.Ahead() == Stream(qs) && forall q | q in qs :: SentOk(g, q, budget)
    modifies socket
    ensures (forall i | 0 <= i < |served| :: served[i].loss == NoLoss && served[i].response == Whole(false))
            && !socket.failed && !socket.stopping ==>
              |served| == |qs| && forall i | 0 <= i < |qs| :: served[i].delivered == BodyPayload(qs[i])
  {
    hide HeadAt, Pipeline, Boundaries, Lawful, Stream, SentOk, Clean, Expectations;
    PipelineOfStream(g, qs, socket.pos, budget);
    ExpectedPayloads(qs, socket.pos);
    ghost var at := socket.pos;
    var tried, ending;
    tried, served, ending := Serve(socket, g, budget, _ => Luck(false, false, false));
  }

  lemma PipelineOfStream(g: Grammar, qs: seq<Sent>, at: nat, budget: nat)
    requires forall q | q in qs :: SentOk(g, q, budget)
    ensures Pipeline(g, Stream(qs), at, budget) == Expectations(qs, at)
  {
    hide SentOk, Stream, Expectations, Pipeline;
    PipelineRoundTrip(g, qs, [], at, budget);
    assert Stream(qs) + [] == Stream(qs);
    NothingPipelined(g, at + |Stream(qs)|, budget);
    assert Expectations(qs, at) + [] == Expectations(qs, at);
  }

  lemma NothingPipelined(g: Grammar, at: nat, budget: nat)
    ensures Pipeline(g, [], at, budget) == []
  {
    HeadStep(g, [], [], 0, budget);
    hide HeadAt;
  }

  lemma {:induction false} ExpectedPayloads(qs: seq<Sent>, at: nat)
    ensures |Expectations(qs, at)| == |qs|
    ensures forall i | 0 <= i < |qs| :: Expectations(qs, at)[i].payload == BodyPayload(qs[i])
  {
    if qs != [] {
      ExpectedPayloads(qs[1..], at + |qs[0].text + BodyBytes(qs[0])|);
    }
  }

  lemma OnTrackIsLawful(tried: seq<nat>, served: seq<Served>, edges: seq<nat>, all: seq<Expected>)
    requires OnTrack(tried, served, edges, all)
    ensures Lawful(tried, served, edges, all)
  {
    CleanIs(served, |served|);
    hide Clean, Answered;
    assert served[..|served|] == served && tried[..|tried|] == tried;
  }

  /** A turn that begins at a boundary serves the next request of the pipeline. */
  lemma TurnFits(g: Grammar, ahead: seq<byte>, at: nat, budget: nat, tried: seq<nat>, served: seq<Served>,
                 edges: seq<nat>, all: seq<Expected>, one: Option<Served>)
    requires OnTrack(tried, served, edges, all) && |served| <= |all| && |tried| <= |edges|
    requires edges[|tried|..] == Boundaries(g, ahead, at, budget)
    requires all[|served|..] == Pipeline(g, ahead, at, budget)
    requires one.Some? ==> Suits(one.value, g, ahead, at, budget)
    ensures tried + [at] <= edges
    ensures one.Some? ==> Follows(served + [one.value], all)
  {
    BoundariesStep(g, ahead, at, budget);
    hide HeadAt, Span, FirstPayload, Pipeline, Boundaries, Completed;
    DropOne(edges, |tried|, at, edges[|tried|..][1..]);
    if one.Some? {
      NextExpected(g, ahead, at, budget, all, |served|);
    }
  }

  /** And if it is kept, the next turn begins at the next boundary, or a rejection has left none. */
  lemma TurnGoesOn(g: Grammar, ahead: seq<byte>, at: nat, budget: nat, tried: seq<nat>, served: seq<Served>,
                   edges: seq<nat>, all: seq<Expected>, one: Served, n: nat)
    requires OnTrack(tried, served, edges, all) && |served| <= |all| && |tried| <= |edges| && n <= |ahead|
    requires edges[|tried|..] == Boundaries(g, ahead, at, budget)
    requires all[|served|..] == Pipeline(g, ahead, at, budget)
    requires tried + [at] <= edges && Follows(served + [one], all)
    requires Suits(one, g, ahead, at, budget) && Answered(one) && one.loss != Dropped
    requires one.loss == NoLoss ==> Span(g, ahead, budget) == Some(n) && one.delivered == FirstPayload(g, ahead, budget)
    requires one.loss == Rejected ==> Span(g, ahead, budget).None?
    ensures one.loss != NoLoss ==> Strayed(tried + [at], served + [one], edges, all)
    ensures one.loss == NoLoss ==>
              && |served| < |all| && |tried| < |edges|
              && OnTrack(tried + [at], served + [one], edges, all)
              && edges[|tried| + 1..] == Boundaries(g, ahead[n..], at + n, budget)
              && all[|served| + 1..] == Pipeline(g, ahead[n..], at + n, budget)
  {
    hide *;
    SuitsAHead(one, g, ahead, at, budget);
    TrackSizes(tried, served, edges, all);
    NextEdge(g, ahead, at, budget, edges, |tried|);
    NextExpected(g, ahead, at, budget, all, |served|);
    if one.loss == NoLoss {
      TrackGoesOn(tried, served, edges, all, at, one);
    } else {
      TrackIsLost(tried, served, edges, all, at, one);
    }
  }

  lemma SuitsAHead(one: Served, g: Grammar, ahead: seq<byte>, at: nat, budget: nat)
    requires Suits(one, g, ahead, at, budget)
    ensures HeadAt(g, ahead, [], 0, budget).Parsed?
  {
    hide HeadAt;
  }

  lemma NextEdge(g: Grammar, ahead: seq<byte>, at: nat, budget: nat, edges: seq<nat>, k: nat)
    requires k <= |edges| && edges[k..] == Boundaries(g, ahead, at, budget)
    ensures k < |edges|
    ensures match Span(g, ahead, budget)
            case Some(n) => edges[k + 1..] == Boundaries(g, ahead[n..], at + n, budget)
            case None => |edges| == k + 1
  {
    BoundariesStep(g, ahead, at, budget);
    hide Span, Boundaries;
    DropOne(edges, k, at, edges[k..][1..]);
  }

  lemma NextExpected(g: Grammar, ahead: seq<byte>, at: nat, budget: nat, all: seq<Expected>, k: nat)
    requires k <= |all| && all[k..] == Pipeline(g, ahead, at, budget) && HeadAt(g, ahead, [], 0, budget).Parsed?
    ensures k < |all| && all[k] == Expected(at, FirstPayload(g, ahead, budget))
    ensures Span(g, ahead, budget).Some? ==>
              var n := Span(g, ahead, budget).value; all[k + 1..] == Pipeline(g, ahead[n..], at + n, budget)
  {
    PipelineStep(g, ahead, at, budget);
    hide Span, Pipeline, FirstPayload, HeadAt;
    DropOne(all, k, Expected(at, FirstPayload(g, ahead, budget)), all[k..][1..]);
  }

  lemma TrackSizes(tried: seq<nat>, served: seq<Served>, edges: seq<nat>, all: seq<Expected>)
    requires OnTrack(tried, served, edges, all)
    ensures |tried| == |served|
  {
  }

  /** On a connection where no interruption fell between the bytes of a chunk's end, heads were looked for at
      boundaries only, in order and without skipping one, exactly when no request was kept after a read of its
      body was rejected. */
  lemma BoundariesIffNoneRejected(tried: seq<nat>, served: seq<Served>, edges: seq<nat>, all: seq<Expected>)
    requires Lawful(tried, served, edges, all) && forall i | 0 <= i < |served| :: served[i].loss != Halved
    ensures tried <= edges <==> forall i | 0 <= i < |tried| - 1 :: served[i].loss != Rejected
  {
    hide Follows, Completed, Clean;
    var k := Clean(served);
    if k < |tried| - 1 {
      assert served[k].loss == Rejected;
    } else {
      assert tried[..|tried|] == tried;
    }
  }

  // ---- Reading on

  /** What else can go wrong in a turn. */
  datatype Trouble = Calm | SocketDown | Interruption | NotAnswered

  /** A handler that ignores rejections: it reads until it gets no more, and answers. Unless something else goes
      wrong, the connection is then kept exactly when the reader comes to an end, and goes on from there; if the
      framing never ends, that is off every boundary. */
  method StubbornTurn(socket: Socket, g: Grammar, budget: nat)
    returns (kept: bool, trouble: Trouble, response: Response)
    requires socket.Valid() && HeadAt(g, socket.Ahead(), [], 0, budget).Parsed?
    requires var head := HeadAt(g, socket.Ahead(), [], 0, budget).head; head.chunked && !head.close
    modifies socket
    ensures socket.Valid() && (kept ==> response == Whole(false))
    ensures match trouble
            case Calm => true
            case SocketDown => socket.failed || socket.stopping
            case Interruption => socket.polls < old(socket.polls)
            case NotAnswered => response == HeadCut || response == BodyCut
    ensures trouble == Calm ==>
              var ahead := old(socket.Ahead());
              var used := HeadAt(g, ahead, [], 0, budget).used;
              var end := Ending(ahead[used..], Size, 0);
              && (kept <==> end.Some?)
              && (kept ==> socket.pos == old(socket.pos) + used + end.value)
              && (kept && ChunkedBody(ahead[used..]).used.None? ==>
                    && Boundaries(g, ahead, old(socket.pos), budget) == [old(socket.pos)]
                    && socket.pos !in Boundaries(g, ahead, old(socket.pos), budget))
  {
    hide HeadAt, Rest, Ending;
    ghost var ahead := socket.Ahead();
    var at := socket.pos;
    var head := ReadHead(socket, g, budget);
    if !head.Parsed? {
      return false, SocketDown, Unsent;
    }
    assert socket.Ahead() == ahead[head.used..];
    StrayHasNoBoundary(g, ahead, at, budget);
    var q := OpenBody(socket, head.head);
    ghost var end := q.End();
    while true
      invariant q.Valid() && q.socket == socket && fresh(q.Repr() - {socket}) && q.End() == end
      invariant q.response == Unsent && !q.close && old(socket.pos) < socket.pos && socket.polls <= old(socket.polls)
      decreases |socket.sent| - socket.pos
    {
      var r := q.Read(1);
      if r == Ok([]) {
        break;
      }
      if r == Err(UnexpectedEof) {
        return false, Calm, Unsent;
      }
      if r == Err(Interrupted) {
        return false, Interruption, Unsent;
      }
      if r.Err? && r.error != InvalidData {
        return false, SocketDown, Unsent;
      }
    }
    q.DrainedIsAtTheEnd();
    var sent := q.Respond(true);
    if q.response != Whole(false) {
      return false, NotAnswered, q.response;
    }
    return !q.MustClose(), Calm, q.response;
  }

  lemma StrayHasNoBoundary(g: Grammar, ahead: seq<byte>, at: nat, budget: nat)
    requires HeadAt(g, ahead, [], 0, budget).Parsed? && HeadAt(g, ahead, [], 0, budget).head.chunked
    ensures ChunkedBody(ahead[HeadAt(g, ahead, [], 0, budget).used..]).used.None? ==>
              Boundaries(g, ahead, at, budget) == [at]
  {
    hide HeadAt, Rest;
  }
}
