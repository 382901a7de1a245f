/** The pending account links: a bounded queue in deadline order that is shared fairly, so that one
    account's attempts displace only its own until the whole queue is full. */
module Links {
  import opened Bytes

  type User = nat
  type Digest = nat

  datatype Link = Link(state: Digest, user: User, session: Digest, deadline: int)

  const MAX_LINKS: nat := 256
  const MAX_LINKS_PER_USER: nat := 4

  function DropExpired(q: seq<Link>, now: int): (r: seq<Link>)
    ensures |r| <= |q| && r == q[|q| - |r|..]
    ensures forall i | 0 <= i < |q| - |r| :: q[i].deadline <= now
    ensures r != [] ==> now < r[0].deadline
  {
    if q != [] && q[0].deadline <= now then DropExpired(q[1..], now) else q
  }

  function Count(q: seq<Link>, u: User): nat {
    if q == [] then 0 else Count(q[..|q| - 1], u) + if q[|q| - 1].user == u then 1 else 0
  }

  function Without(q: seq<Link>, at: nat): seq<Link> {
    if at < |q| then q[..at] + q[at + 1..] else q
  }

  ghost predicate FirstOf(q: seq<Link>, u: User, at: nat) {
    at < |q| && q[at].user == u && forall i | 0 <= i < at :: q[i].user != u
  }

  /** The oldest link of an account that holds the most. */
  ghost predicate FirstOfHeaviest(q: seq<Link>, at: nat) {
    && at < |q|
    && (forall i | 0 <= i < |q| :: Count(q, q[i].user) <= Count(q, q[at].user))
    && (forall i | 0 <= i < at :: Count(q, q[i].user) < Count(q, q[at].user))
  }

  /** The bounds, and states that tell links apart. */
  ghost predicate Bounded(q: seq<Link>) {
    && |q| <= MAX_LINKS
    && (forall u :: Count(q, u) <= MAX_LINKS_PER_USER)
    && (forall i, j | 0 <= i < j < |q| :: q[i].state != q[j].state)
  }

  ghost predicate Ordered(q: seq<Link>) {
    forall i, j | 0 <= i < j < |q| :: q[i].deadline <= q[j].deadline
  }

  /** What admitting `link` makes of a queue: expired links go, then at most one live one. */
  ghost predicate Admits(q: seq<Link>, link: Link, now: int, r: seq<Link>) {
    AdmitsLive(DropExpired(q, now), link, r)
  }

  ghost predicate AdmitsLive(live: seq<Link>, link: Link, r: seq<Link>) {
    if Count(live, link.user) >= MAX_LINKS_PER_USER then
      exists at: nat :: FirstOf(live, link.user, at) && r == Without(live, at) + [link]
    else if |live| >= MAX_LINKS then
      exists at: nat :: FirstOfHeaviest(live, at) && r == Without(live, at) + [link]
    else r == live + [link]
  }

  ghost predicate UserTrimmed(q: seq<Link>, u: User, r: seq<Link>) {
    if Count(q, u) >= MAX_LINKS_PER_USER then exists at: nat :: FirstOf(q, u, at) && r == Without(q, at) else r == q
  }

  ghost predicate FullTrimmed(q: seq<Link>, r: seq<Link>) {
    if |q| >= MAX_LINKS then exists at: nat :: FirstOfHeaviest(q, at) && r == Without(q, at) else r == q
  }

  lemma TrimmedFits(live: seq<Link>, u: User, own: seq<Link>)
    requires Bounded(live) && UserTrimmed(live, u, own)
    ensures |own| <= MAX_LINKS
    ensures Count(live, u) >= MAX_LINKS_PER_USER ==> |own| < MAX_LINKS
  {
  }

  lemma TrimsAdmit(q: seq<Link>, link: Link, now: int, own: seq<Link>, r: seq<Link>)
    requires Bounded(DropExpired(q, now))
    requires UserTrimmed(DropExpired(q, now), link.user, own) && FullTrimmed(own, r)
    ensures Admits(q, link, now, r + [link])
  {
    TrimmedFits(DropExpired(q, now), link.user, own);
    hide Count, FirstOf, FirstOfHeaviest, DropExpired, Bounded, Without;
  }

  // ---- Counting

  lemma {:induction false} CountPush(q: seq<Link>, l: Link, u: User)
    ensures Count(q + [l], u) == Count(q, u) + if l.user == u then 1 else 0
  {
    assert (q + [l])[..|q|] == q;
  }

  lemma {:induction false} CountConcat(a: seq<Link>, b: seq<Link>, u: User)
    ensures Count(a + b, u) == Count(a, u) + Count(b, u)
  {
    if b == [] {
      assert a + b == a;
    } else {
      assert (a + b)[..|a + b| - 1] == a + b[..|b| - 1];
      CountConcat(a, b[..|b| - 1], u);
    }
  }

  lemma CountWithout(q: seq<Link>, at: nat, u: User)
    requires at < |q|
    ensures Count(Without(q, at), u) == Count(q, u) - if q[at].user == u then 1 else 0
  {
    assert q == q[..at] + [q[at]] + q[at + 1..];
    CountConcat(q[..at] + [q[at]], q[at + 1..], u);
    CountPush(q[..at], q[at], u);
    CountConcat(q[..at], q[at + 1..], u);
  }

  lemma CountDropExpired(q: seq<Link>, now: int, u: User)
    ensures Count(DropExpired(q, now), u) <= Count(q, u)
  {
    var r := DropExpired(q, now);
    assert q == q[..|q| - |r|] + r;
    CountConcat(q[..|q| - |r|], r, u);
  }

  lemma {:induction false} CountPositive(q: seq<Link>, u: User)
    ensures Count(q, u) > 0 <==> exists i :: 0 <= i < |q| && q[i].user == u
  {
    if q != [] {
      var front := q[..|q| - 1];
      CountPositive(front, u);
      if Count(front, u) > 0 {
        var i :| 0 <= i < |front| && front[i].user == u;
        assert q[i].user == u;
      }
      if i :| 0 <= i < |q| && q[i].user == u {
        assert i < |front| ==> front[i].user == u;
      }
    }
  }

  lemma CountTwo(q: seq<Link>, i: nat, j: nat)
    requires i < j < |q| && q[i].user == q[j].user
    ensures Count(q, q[i].user) >= 2
  {
    var u := q[i].user;
    assert q == q[..j] + q[j..];
    CountConcat(q[..j], q[j..], u);
    assert q[..j][i].user == u && q[j..][0].user == u;
    CountPositive(q[..j], u);
    CountPositive(q[j..], u);
  }

  // ---- The queue

  class Pending {
    var queue: seq<Link>

    constructor ()
      ensures queue == [] && Bounded(queue)
    {
      queue := [];
    }

    method PopExpired(now: int)
      modifies this
      ensures queue == DropExpired(old(queue), now)
    {
      while queue != [] && queue[0].deadline <= now
        invariant DropExpired(queue, now) == DropExpired(old(queue), now)
        decreases |queue|
      {
        queue := queue[1..];
      }
    }

    method CountAll() returns (counts: map<User, nat>)
      ensures forall i | 0 <= i < |queue| ::
                queue[i].user in counts && counts[queue[i].user] == Count(queue, queue[i].user)
    {
      counts := map[];
      for i := 0 to |queue|
        invariant forall u :: (if u in counts then counts[u] else 0) == Count(queue[..i], u)
        invariant forall j | 0 <= j < i :: queue[j].user in counts
      {
        var u := queue[i].user;
        counts := counts[u := (if u in counts then counts[u] else 0) + 1];
        assert queue[..i + 1][..i] == queue[..i];
      }
      assert queue[..|queue|] == queue;
    }

    /** The position of the oldest link of a heaviest holder, by counting every holder. */
    method FindHeaviest() returns (at: nat)
      requires queue != []
      ensures FirstOfHeaviest(queue, at)
    {
      hide Count;
      var counts := CountAll();
      var heaviest := counts[queue[0].user];
      ghost var top := 0;
      for i := 0 to |queue|
        invariant forall j | 0 <= j < i :: Count(queue, queue[j].user) <= heaviest
        invariant 0 <= top < |queue| && Count(queue, queue[top].user) == heaviest
      {
        if counts[queue[i].user] > heaviest {
          heaviest := counts[queue[i].user];
          top := i;
        }
      }
      at := 0;
      while counts[queue[at].user] != heaviest
        invariant at <= top
        invariant forall j | 0 <= j < at :: Count(queue, queue[j].user) < heaviest
        decreases |queue| - at
      {
        at := at + 1;
      }
    }

    method FindUser(u: User) returns (at: nat)
      requires Count(queue, u) > 0
      ensures FirstOf(queue, u, at)
    {
      CountPositive(queue, u);
      ghost var k :| 0 <= k < |queue| && queue[k].user == u;
      at := 0;
      while queue[at].user != u
        invariant at <= k && forall i | 0 <= i < at :: queue[i].user != u
        decreases k - at
      {
        at := at + 1;
      }
    }

    method CountUser(u: User) returns (n: nat)
      ensures n == Count(queue, u)
    {
      n := 0;
      for i := 0 to |queue|
        invariant n == Count(queue[..i], u)
      {
        assert queue[..i + 1][..i] == queue[..i];
        n := n + if queue[i].user == u then 1 else 0;
      }
      assert queue[..|queue|] == queue;
    }

    /** Drops an account's oldest links until it is below its allowance: one at most. */
    method TrimUser(u: User)
      requires Count(queue, u) <= MAX_LINKS_PER_USER
      modifies this
      ensures UserTrimmed(old(queue), u, queue)
    {
      hide Count, FirstOf;
      var n := CountUser(u);
      while n >= MAX_LINKS_PER_USER
        invariant n == Count(queue, u)
        invariant n >= MAX_LINKS_PER_USER ==> queue == old(queue)
        invariant queue == old(queue)
                  || (Count(old(queue), u) >= MAX_LINKS_PER_USER
                      && exists at: nat :: FirstOf(old(queue), u, at) && queue == Without(old(queue), at))
        decreases n
      {
        var at := FindUser(u);
        FirstIsInside(queue, u, at);
        CountWithout(queue, at, u);
        queue := queue[..at] + queue[at + 1..];
        assert queue == Without(old(queue), at);
        n := CountUser(u);
      }
    }

    /** Drops the oldest link of a heaviest holder until there is room: one at most. */
    method TrimFull()
      requires |queue| <= MAX_LINKS
      modifies this
      ensures FullTrimmed(old(queue), queue)
    {
      hide FirstOfHeaviest;
      while |queue| >= MAX_LINKS
        invariant |queue| >= MAX_LINKS ==> queue == old(queue)
        invariant queue == old(queue)
                  || (|old(queue)| >= MAX_LINKS
                      && exists at: nat :: FirstOfHeaviest(old(queue), at) && queue == Without(old(queue), at))
        decreases |queue|
      {
        var at := FindHeaviest();
        HeaviestIsInside(queue, at);
        queue := queue[..at] + queue[at + 1..];
        assert queue == Without(old(queue), at);
      }
    }

    /** Expired links go; then the account at its allowance loses its own oldest, and only otherwise,
        when the queue is full, a heaviest holder loses its oldest. */
    method Admit(link: Link, now: int)
      requires Bounded(queue) && forall l | l in queue :: l.state != link.state
      modifies this
      ensures Admits(old(queue), link, now, queue)
      ensures Bounded(queue) && queue != [] && queue[|queue| - 1] == link
    {
      ghost var was := queue;
      PopExpired(now);
      ghost var live := queue;
      LiveIsBounded(was, now);
      TrimUser(link.user);
      ghost var own := queue;
      hide *;
      TrimmedFits(live, link.user, own);
      TrimFull();
      TrimsAdmit(was, link, now, own, queue);
      queue := queue + [link];
      AdmittedIsBounded(was, link, now, queue);
    }

    method FindState(state: Digest) returns (r: Option<nat>)
      ensures match r
              case Some(at) => at < |queue| && queue[at].state == state
              case None => forall i | 0 <= i < |queue| :: queue[i].state != state
    {
      for at := 0 to |queue|
        invariant forall i | 0 <= i < at :: queue[i].state != state
      {
        if queue[at].state == state {
          return Some(at);
        }
      }
      return None;
    }

    /** Takes the link of a sign-in state, if it is still there. */
    method Take(state: Digest, now: int) returns (r: Option<Link>)
      requires Bounded(queue)
      modifies this
      ensures Takes(old(queue), state, now, r, queue)
      ensures Bounded(queue)
    {
      hide *;
      ghost var was := queue;
      PopExpired(now);
      LiveIsBounded(was, now);
      var found := FindState(state);
      if found.None? {
        TakesNothing(was, state, now);
        return None;
      }
      TakesOne(was, state, now, found.value);
      WithoutIsBounded(queue, found.value);
      r := Some(queue[found.value]);
      queue := queue[..found.value] + queue[found.value + 1..];
    }
  }

  /** What taking a state makes of a queue, and which link it yields. */
  ghost predicate Takes(q: seq<Link>, state: Digest, now: int, r: Option<Link>, left: seq<Link>) {
    var live := DropExpired(q, now);
    match r
    case None => left == live && forall i | 0 <= i < |live| :: live[i].state != state
    case Some(l) =>
      exists at: nat :: at < |live| && live[at] == l && l.state == state && left == Without(live, at)
  }

  lemma TakesNothing(q: seq<Link>, state: Digest, now: int)
    requires var live := DropExpired(q, now); forall i | 0 <= i < |live| :: live[i].state != state
    ensures Takes(q, state, now, None, DropExpired(q, now))
  {
  }

  lemma TakesOne(q: seq<Link>, state: Digest, now: int, at: nat)
    requires at < |DropExpired(q, now)| && DropExpired(q, now)[at].state == state
    ensures var live := DropExpired(q, now);
            && Takes(q, state, now, Some(live[at]), Without(live, at))
            && Without(live, at) == live[..at] + live[at + 1..]
  {
    hide DropExpired;
  }

  lemma LiveIsBounded(q: seq<Link>, now: int)
    requires Bounded(q)
    ensures Bounded(DropExpired(q, now))
  {
    forall u
      ensures Count(DropExpired(q, now), u) <= MAX_LINKS_PER_USER
    {
      CountDropExpired(q, now, u);
    }
  }

  lemma WithoutIsBounded(q: seq<Link>, at: nat)
    requires Bounded(q) && at < |q|
    ensures Bounded(Without(q, at))
  {
    forall u
      ensures Count(Without(q, at), u) <= MAX_LINKS_PER_USER
    {
      CountWithout(q, at, u);
    }
  }

  lemma PushIsBounded(q: seq<Link>, link: Link)
    requires Bounded(q) && |q| < MAX_LINKS && Count(q, link.user) < MAX_LINKS_PER_USER
    requires forall l | l in q :: l.state != link.state
    ensures Bounded(q + [link])
  {
    forall u
      ensures Count(q + [link], u) <= MAX_LINKS_PER_USER
    {
      CountPush(q, link, u);
    }
  }

  lemma AdmittedIsBounded(q: seq<Link>, link: Link, now: int, r: seq<Link>)
    requires Bounded(q) && Admits(q, link, now, r)
    requires forall l | l in q :: l.state != link.state
    ensures Bounded(r) && r != [] && r[|r| - 1] == link
  {
    hide Count, FirstOf, FirstOfHeaviest, DropExpired, Bounded, Without;
    var live := DropExpired(q, now);
    LiveIsBounded(q, now);
    AllFromLive(q, now);
    if Count(live, link.user) >= MAX_LINKS_PER_USER {
      var at: nat :| FirstOf(live, link.user, at) && r == Without(live, at) + [link];
      FirstIsInside(live, link.user, at);
      TrimmedIsBounded(live, at, link);
    } else if |live| >= MAX_LINKS {
      var at: nat :| FirstOfHeaviest(live, at) && r == Without(live, at) + [link];
      HeaviestIsInside(live, at);
      TrimmedIsBounded(live, at, link);
    } else {
      PushIsBounded(live, link);
    }
  }

  lemma AllFromLive(q: seq<Link>, now: int)
    ensures forall l | l in DropExpired(q, now) :: l in q
  {
  }

  lemma TrimmedIsBounded(q: seq<Link>, at: nat, link: Link)
    requires Bounded(q) && at < |q| && forall l | l in q :: l.state != link.state
    requires q[at].user == link.user || Count(q, link.user) < MAX_LINKS_PER_USER
    ensures Bounded(Without(q, at) + [link])
  {
    WithoutIsBounded(q, at);
    CountWithout(q, at, link.user);
    PushIsBounded(Without(q, at), link);
  }

  lemma FirstIsInside(q: seq<Link>, u: User, at: nat)
    requires FirstOf(q, u, at)
    ensures at < |q| && q[at].user == u
  {
  }

  lemma HeaviestIsInside(q: seq<Link>, at: nat)
    requires FirstOfHeaviest(q, at)
    ensures at < |q|
  {
  }

  // ---- Who pays

  ghost predicate Displaced(q: seq<Link>, now: int, r: seq<Link>, victim: Link) {
    victim in DropExpired(q, now) && victim !in r
  }

  /** Admitting a link displaces at most one live link. */
  lemma OneVictim(q: seq<Link>, link: Link, now: int, r: seq<Link>, a: Link, b: Link)
    requires Admits(q, link, now, r) && Displaced(q, now, r, a) && Displaced(q, now, r, b)
    ensures a == b
  {
    hide Count, FirstOf, FirstOfHeaviest;
    var live := DropExpired(q, now);
    var at: nat :| r == Without(live, at) + [link];
    OnlyOneMissing(live, at, a);
    OnlyOneMissing(live, at, b);
  }

  lemma OnlyOneMissing(q: seq<Link>, at: nat, l: Link)
    requires l in q && l !in Without(q, at)
    ensures at < |q| && l == q[at]
  {
    forall k | 0 <= k < |q| && k != at
      ensures q[k] in Without(q, at)
    {
      if at < |q| {
        assert Without(q, at)[if k < at then k else k - 1] == q[k];
      }
    }
  }

  function Users(q: seq<Link>): set<User> {
    set i | 0 <= i < |q| :: q[i].user
  }

  lemma {:induction false} AllDistinct(q: seq<Link>)
    requires forall i, j | 0 <= i < j < |q| :: q[i].user != q[j].user
    ensures |Users(q)| == |q|
  {
    if q != [] {
      var front := q[..|q| - 1];
      var last := q[|q| - 1].user;
      AllDistinct(front);
      assert Users(q) == Users(front) + {last};
      assert last !in Users(front);
    }
  }

  lemma SingleHeaviestMeansDistinct(q: seq<Link>, at: nat)
    requires FirstOfHeaviest(q, at) && Count(q, q[at].user) == 1
    ensures |Users(q)| == |q|
  {
    forall i, j | 0 <= i < j < |q|
      ensures q[i].user != q[j].user
    {
      if q[i].user == q[j].user {
        CountTwo(q, i, j);
      }
    }
    AllDistinct(q);
  }

  /** Another account's link is displaced only when the queue is full and its holder holds as many as
      anyone; so an account's only link goes only when 256 accounts hold one each. */
  lemma OthersPayOnlyWhenFull(q: seq<Link>, link: Link, now: int, r: seq<Link>, victim: Link)
    requires Bounded(q) && Admits(q, link, now, r)
    requires Displaced(q, now, r, victim) && victim.user != link.user
    ensures var live := DropExpired(q, now);
            && |live| == MAX_LINKS && Count(live, link.user) < MAX_LINKS_PER_USER
            && (forall i | 0 <= i < |live| :: Count(live, live[i].user) <= Count(live, victim.user))
            && (Count(live, victim.user) == 1 ==> |Users(live)| == MAX_LINKS)
  {
    LiveIsBounded(q, now);
    BoundedFits(DropExpired(q, now));
    hide *;
    OthersPay(DropExpired(q, now), link, r, victim);
  }

  lemma OthersPay(live: seq<Link>, link: Link, r: seq<Link>, victim: Link)
    requires |live| <= MAX_LINKS && AdmitsLive(live, link, r)
    requires victim in live && victim !in r && victim.user != link.user
    ensures |live| == 256 && Count(live, link.user) < 4
    ensures forall i | 0 <= i < |live| :: Count(live, live[i].user) <= Count(live, victim.user)
    ensures Count(live, victim.user) == 1 ==> |Users(live)| == 256
  {
    hide Count, FirstOf, FirstOfHeaviest, Without, Users;
    if Count(live, link.user) >= MAX_LINKS_PER_USER {
      var at: nat :| FirstOf(live, link.user, at) && r == Without(live, at) + [link];
      FirstIsInside(live, link.user, at);
      OnlyOneMissing(live, at, victim);
    } else {
      assert r == live + [link] ==> victim in r;
      var at: nat :| FirstOfHeaviest(live, at) && r == Without(live, at) + [link];
      OnlyOneMissing(live, at, victim);
      HeaviestVictim(live, at);
    }
  }

  lemma BoundedFits(q: seq<Link>)
    requires Bounded(q)
    ensures |q| <= MAX_LINKS
  {
  }

  lemma HeaviestVictim(q: seq<Link>, at: nat)
    requires FirstOfHeaviest(q, at)
    ensures forall i | 0 <= i < |q| :: Count(q, q[i].user) <= Count(q, q[at].user)
    ensures Count(q, q[at].user) == 1 ==> |Users(q)| == |q|
  {
    if Count(q, q[at].user) == 1 {
      SingleHeaviestMeansDistinct(q, at);
    }
  }

  // ---- Deadline order

  /** Admitting keeps the queue in deadline order exactly when the new link expires no sooner than the last of
      the links that have not expired. */
  lemma OrderKeptIffLast(q: seq<Link>, link: Link, now: int, r: seq<Link>)
    requires Ordered(q) && Admits(q, link, now, r)
    ensures var live := DropExpired(q, now);
            Ordered(r) <==> live == [] || live[|live| - 1].deadline <= link.deadline
  {
    hide Count, FirstOf, FirstOfHeaviest, Ordered, DropExpired, Without;
    var live := DropExpired(q, now);
    OrderedLive(q, now);
    if Count(live, link.user) >= MAX_LINKS_PER_USER {
      var at: nat :| FirstOf(live, link.user, at) && r == Without(live, at) + [link];
      FirstIsNotLast(live, link.user, at);
      OrderedWithout(live, at);
      OrderedPush(Without(live, at), link);
    } else if |live| >= MAX_LINKS {
      var at: nat :| FirstOfHeaviest(live, at) && r == Without(live, at) + [link];
      HeaviestIsNotLast(live, at);
      OrderedWithout(live, at);
      OrderedPush(Without(live, at), link);
    } else {
      OrderedPush(live, link);
    }
  }

  /** The oldest link of an account that holds several is not the last of the queue. */
  lemma FirstIsNotLast(q: seq<Link>, u: User, at: nat)
    requires FirstOf(q, u, at) && Count(q, u) >= 2
    ensures at < |q| - 1 && LastKept(q, at)
  {
    if at == |q| - 1 {
      CountPositive(q[..at], u);
    }
  }

  /** Nor is the oldest link of a heaviest holder, when the queue holds more than one. */
  lemma HeaviestIsNotLast(q: seq<Link>, at: nat)
    requires FirstOfHeaviest(q, at) && |q| >= 2
    ensures at < |q| - 1 && LastKept(q, at)
  {
    if at == |q| - 1 {
      CountPositive(q, q[0].user);
      CountPositive(q[..at], q[at].user);
    }
  }

  predicate LastKept(q: seq<Link>, at: nat) {
    q != [] && Without(q, at) != [] && Without(q, at)[|Without(q, at)| - 1] == q[|q| - 1]
  }

  lemma OrderedLive(q: seq<Link>, now: int)
    requires Ordered(q)
    ensures Ordered(DropExpired(q, now))
  {
  }

  lemma OrderedWithout(q: seq<Link>, at: nat)
    requires Ordered(q)
    ensures Ordered(Without(q, at))
  {
  }

  lemma OrderedPush(q: seq<Link>, link: Link)
    requires Ordered(q)
    ensures Ordered(q + [link]) <==> q == [] || q[|q| - 1].deadline <= link.deadline
  {
    var r := q + [link];
    if q != [] && Ordered(r) {
      assert r[|q| - 1].deadline <= r[|q|].deadline;
    }
  }

  lemma TakeKeepsOrder(q: seq<Link>, state: Digest, now: int, r: Option<Link>, left: seq<Link>)
    requires Ordered(q) && Takes(q, state, now, r, left)
    ensures Ordered(left)
  {
    hide Ordered, DropExpired, Without;
    OrderedLive(q, now);
    if r.Some? {
      var at: nat :| left == Without(DropExpired(q, now), at);
      OrderedWithout(DropExpired(q, now), at);
    }
  }

  ghost predicate TakesOnlyLive(q: seq<Link>) {
    forall state, now, r, left :: Takes(q, state, now, r, left) && r.Some? ==> now < r.value.deadline
  }

  /** Taking a link never yields an expired one exactly when the queue is in deadline order. */
  lemma TakesOnlyLiveIffOrdered(q: seq<Link>)
    ensures TakesOnlyLive(q) <==> Ordered(q)
  {
    if Ordered(q) {
      forall state, now, r, left | Takes(q, state, now, r, left) && r.Some?
        ensures now < r.value.deadline
      {
        OrderedTakeIsLive(q, state, now, r.value, left);
      }
    } else {
      var i, j :| 0 <= i < j < |q| && q[i].deadline > q[j].deadline;
      ExpiredTake(q, i, j);
    }
  }

  lemma OrderedTakeIsLive(q: seq<Link>, state: Digest, now: int, l: Link, left: seq<Link>)
    requires Ordered(q) && Takes(q, state, now, Some(l), left)
    ensures now < l.deadline
  {
    var live := DropExpired(q, now);
    var at: nat :| at < |live| && live[at] == l && left == Without(live, at);
    assert live[0].deadline <= live[at].deadline;
  }

  /** A link behind one that expires later is still found after its own deadline. */
  lemma ExpiredTake(q: seq<Link>, i: nat, j: nat)
    requires i < j < |q| && q[i].deadline > q[j].deadline
    ensures !TakesOnlyLive(q)
  {
    var now := q[j].deadline;
    var live := DropExpired(q, now);
    var at := j - (|q| - |live|);
    assert live[at] == q[j];
    assert Takes(q, q[j].state, now, Some(q[j]), Without(live, at));
  }

  // ---- Runs

  /** `Park` is a link start, which gives its link the lifetime `ttl`; `Collect` is a callback. */
  datatype Op = Park(link: Link, now: int) | Collect(state: Digest, now: int, r: Option<Link>)

  ghost predicate Does(q: seq<Link>, op: Op, t: seq<Link>) {
    match op
    case Park(link, now) => (forall l | l in q :: l.state != link.state) && Admits(q, link, now, t)
    case Collect(state, now, r) => Takes(q, state, now, r, t)
  }

  /** The queue before and after each call, starting empty. */
  ghost predicate IsRun(queues: seq<seq<Link>>, ops: seq<Op>) {
    && |queues| == |ops| + 1 && queues[0] == []
    && forall i | 0 <= i < |ops| :: Does(queues[i], ops[i], queues[i + 1])
  }

  /** The calls reach the lock in the order of the clock readings they carry. */
  ghost predicate InClockOrder(ops: seq<Op>, ttl: int) {
    && (forall i, j | 0 <= i < j < |ops| :: ops[i].now <= ops[j].now)
    && (forall i | 0 <= i < |ops| && ops[i].Park? :: ops[i].link.deadline == ops[i].now + ttl)
  }

  lemma DoesKeepsBounds(q: seq<Link>, op: Op, t: seq<Link>)
    requires Bounded(q) && Does(q, op, t)
    ensures Bounded(t)
  {
    match op
    case Park(link, now) => AdmittedIsBounded(q, link, now, t);
    case Collect(state, now, r) =>
      LiveIsBounded(q, now);
      if r.Some? {
        var at: nat :| at < |DropExpired(q, now)| && t == Without(DropExpired(q, now), at);
        WithoutIsBounded(DropExpired(q, now), at);
      }
  }

  lemma DoesKeepsOrder(q: seq<Link>, op: Op, t: seq<Link>, ttl: int)
    requires Ordered(q) && Does(q, op, t)
    requires forall l | l in q :: l.deadline <= op.now + ttl
    requires op.Park? ==> op.link.deadline == op.now + ttl
    ensures Ordered(t) && forall l | l in t :: l.deadline <= op.now + ttl
  {
    hide Ordered, Admits, Takes;
    match op
    case Park(link, now) =>
      AdmittedComeFrom(q, link, now, t);
      OrderKeptIffLast(q, link, now, t);
      LastIsQueued(q, now);
    case Collect(state, now, r) =>
      TakeKeepsOrder(q, state, now, r, t);
      TakenComeFrom(q, state, now, r, t);
  }

  lemma TakenComeFrom(q: seq<Link>, state: Digest, now: int, r: Option<Link>, left: seq<Link>)
    requires Takes(q, state, now, r, left)
    ensures forall l | l in left :: l in q
  {
    hide DropExpired;
  }

  lemma LastIsQueued(q: seq<Link>, now: int)
    ensures var live := DropExpired(q, now); live != [] ==> live[|live| - 1] in q
  {
    hide DropExpired;
    var live := DropExpired(q, now);
    assert live != [] ==> live[|live| - 1] == q[|q| - 1];
  }

  lemma AdmittedComeFrom(q: seq<Link>, link: Link, now: int, r: seq<Link>)
    requires Admits(q, link, now, r)
    ensures forall l | l in r :: l in q || l == link
  {
    hide Count, FirstOf, FirstOfHeaviest;
  }

  /** Over every run the queue holds at most 256 links, at most 4 of one account, each state once; and
      while calls reach the lock in clock order, it stays in deadline order, so that no run collects an
      expired link. */
  lemma {:induction false} EveryRun(queues: seq<seq<Link>>, ops: seq<Op>, k: nat, ttl: int)
    requires IsRun(queues, ops) && k <= |ops|
    ensures Bounded(queues[k])
    ensures |queues[k]| <= 256 && forall u :: Count(queues[k], u) <= 4
    ensures InClockOrder(ops, ttl) ==> Ordered(queues[k]) && TakesOnlyLive(queues[k])
    ensures InClockOrder(ops, ttl) && k > 0 ==> forall l | l in queues[k] :: l.deadline <= ops[k - 1].now + ttl
  {
    hide Bounded, Ordered, Does;
    if k == 0 {
      EmptyIsFine();
    } else {
      EveryRun(queues, ops, k - 1, ttl);
      assert Does(queues[k - 1], ops[k - 1], queues[k - 1 + 1]);
      DoesKeepsBounds(queues[k - 1], ops[k - 1], queues[k]);
      if InClockOrder(ops, ttl) {
        DoesKeepsOrder(queues[k - 1], ops[k - 1], queues[k], ttl);
      }
    }
    TakesOnlyLiveIffOrdered(queues[k]);
  }

  lemma DropsAllExpired(q: seq<Link>, now: int)
    requires Ordered(q)
    ensures forall l | l in DropExpired(q, now) :: now < l.deadline
  {
    hide DropExpired;
    var r := DropExpired(q, now);
    forall i | 0 <= i < |r|
      ensures now < r[i].deadline
    {
      assert r[i] == q[|q| - |r| + i] && r[0] == q[|q| - |r|];
    }
  }

  /** In every run, a start by one account displaces another account's only link only in a state
      where 256 accounts hold one link each. The links that count are those from the first live one on: just the
      live ones when the calls come in the order of the clock, but out of that order an expired link behind a later
      one counts too. */
  lemma LoneLinksAreSafe(queues: seq<seq<Link>>, ops: seq<Op>, k: nat, victim: Link, ttl: int)
    requires IsRun(queues, ops) && k < |ops| && ops[k].Park?
    requires Displaced(queues[k], ops[k].now, queues[k + 1], victim) && victim.user != ops[k].link.user
    requires Count(DropExpired(queues[k], ops[k].now), victim.user) == 1
    ensures |Users(DropExpired(queues[k], ops[k].now))| == 256
    ensures InClockOrder(ops, ttl) ==> forall l | l in DropExpired(queues[k], ops[k].now) :: ops[k].now < l.deadline
  {
    EveryRun(queues, ops, k, ttl);
    if InClockOrder(ops, ttl) {
      DropsAllExpired(queues[k], ops[k].now);
    }
    assert Does(queues[k], ops[k], queues[k + 1]);
    OthersPayOnlyWhenFull(queues[k], ops[k].link, ops[k].now, queues[k + 1], victim);
  }

  lemma EmptyIsFine()
    ensures Bounded([]) && Ordered([])
  {
  }

  /** Two starts that read the clock in one order and take the lock in the other leave a queue from
      which an expired link can be collected. */
  lemma RacedStarts(late: Link, early: Link, a: int, b: int)
    requires b < a && late.state != early.state
    requires late.deadline == a + 600_000 && early.deadline == b + 600_000
    ensures Does([], Park(late, a), [late]) && Does([late], Park(early, b), [late, early])
    ensures !TakesOnlyLive([late, early])
  {
    hide Does, TakesOnlyLive, Admits;
    RoomAdmits([], late, a);
    RoomAdmits([late], early, b);
    assert [] + [late] == [late] && [late] + [early] == [late, early];
    ExpiredTake([late, early], 0, 1);
  }

  lemma RoomAdmits(q: seq<Link>, link: Link, now: int)
    requires |q| < MAX_LINKS_PER_USER && forall l | l in q :: l.state != link.state
    requires q != [] ==> now < q[0].deadline
    ensures Does(q, Park(link, now), q + [link])
  {
    hide FirstOf, FirstOfHeaviest, Without;
    assert DropExpired(q, now) == q;
    CountAtMost(q, link.user);
  }

  lemma {:induction false} CountAtMost(q: seq<Link>, u: User)
    ensures Count(q, u) <= |q|
  {
    if q != [] {
      CountAtMost(q[..|q| - 1], u);
    }
  }
}
