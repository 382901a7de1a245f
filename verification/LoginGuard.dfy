/** The lockout of a guessing client: failures are counted per client and account, and a pair at its
    allowance waits out a window before every further guess. */
module LoginGuard {
  import opened Bytes

  type Pair = (nat, nat)

  datatype Entry = Entry(failures: int, until: Option<int>, last: int)

  type Table = map<Pair, Entry>

  /** The two settings that the sign-in route passes on every call. */
  datatype Policy = Policy(maxFailures: int, lockout: nat) {
    /** The failures that a fresh pair may make before it is locked. */
    function Allowance(): nat {
      if maxFailures < 1 then 1 else maxFailures
    }
  }

  const MAX_PAIRS: nat := 4096
  const REMEMBER_WINDOWS: nat := 4

  predicate Allowed(t: Table, k: Pair, now: int) {
    k !in t || t[k].until.None? || t[k].until.value <= now
  }

  function Since(now: int, last: int): nat {
    if now < last then 0 else now - last
  }

  function Sweep(t: Table, p: Policy, now: int): Table {
    map k | k in t && Since(now, t[k].last) < p.lockout * REMEMBER_WINDOWS :: t[k]
  }

  /** The entry of a pair after one more failure. */
  function Bumped(e: Entry, p: Policy, now: int): Entry {
    var served := e.until.Some? && e.until.value <= now;
    var before := if !served then e.failures else if p.maxFailures - 1 < 0 then 0 else p.maxFailures - 1;
    var failures := before + 1;
    Entry(failures,
          if failures >= p.maxFailures then Some(now + p.lockout) else if served then None else e.until,
          now)
  }

  function Failed(t: Table, p: Policy, k: Pair, now: int): Table {
    var swept := if k !in t && |t| >= MAX_PAIRS then Sweep(t, p, now) else t;
    if k !in t && |t| >= MAX_PAIRS && |swept| >= MAX_PAIRS then swept
    else swept[k := Bumped(if k in swept then swept[k] else Entry(0, None, now), p, now)]
  }

  class Guard {
    var pairs: Table

    constructor ()
      ensures pairs == map[]
    {
      pairs := map[];
    }

    method Fail(k: Pair, p: Policy, now: int)
      requires |pairs| <= MAX_PAIRS
      modifies this
      ensures pairs == Failed(old(pairs), p, k, now) && |pairs| <= MAX_PAIRS
    {
      FailedFits(pairs, p, k, now);
      if k !in pairs && |pairs| >= MAX_PAIRS {
        pairs := Sweep(pairs, p, now);
        if |pairs| >= MAX_PAIRS {
          return;
        }
      }
      var entry := if k in pairs then pairs[k] else Entry(0, None, now);
      if entry.until.Some? && entry.until.value <= now {
        entry := entry.(until := None, failures := if p.maxFailures - 1 < 0 then 0 else p.maxFailures - 1);
      }
      entry := entry.(failures := entry.failures + 1, last := now);
      if entry.failures >= p.maxFailures {
        entry := entry.(until := Some(now + p.lockout));
      }
      pairs := pairs[k := entry];
    }

    method Succeed(k: Pair)
      requires |pairs| <= MAX_PAIRS
      modifies this
      ensures pairs == old(pairs) - {k} && |pairs| <= MAX_PAIRS
    {
      SubsetFits(pairs - {k}, pairs);
      pairs := pairs - {k};
    }
  }

  lemma SubsetFits(a: Table, b: Table)
    requires a.Keys <= b.Keys
    ensures |a| <= |b|
  {
    assert b.Keys == a.Keys + (b.Keys - a.Keys);
  }

  lemma PutFits(t: Table, k: Pair, e: Entry)
    requires k in t || |t| < MAX_PAIRS
    requires |t| <= MAX_PAIRS
    ensures |t[k := e]| <= MAX_PAIRS
  {
    assert t[k := e].Keys == t.Keys + {k};
    assert k in t ==> t.Keys + {k} == t.Keys;
  }

  /** The table never exceeds its bound. */
  lemma FailedFits(t: Table, p: Policy, k: Pair, now: int)
    requires |t| <= MAX_PAIRS
    ensures |Failed(t, p, k, now)| <= MAX_PAIRS
  {
    hide Bumped, Sweep;
    var swept := if k !in t && |t| >= MAX_PAIRS then Sweep(t, p, now) else t;
    SweepShrinks(t, p, now);
    if k in swept || |swept| < MAX_PAIRS {
      PutFits(swept, k, Bumped(if k in swept then swept[k] else Entry(0, None, now), p, now));
    }
  }

  lemma SweepShrinks(t: Table, p: Policy, now: int)
    ensures |Sweep(t, p, now)| <= |t|
  {
    SubsetFits(Sweep(t, p, now), t);
  }

  /** A failure of a pair is on record afterwards exactly when the pair was, or when there was room for
      it, if need be after forgetting the pairs that have been quiet for four windows. */
  lemma RecordedIffRoom(t: Table, p: Policy, k: Pair, now: int)
    ensures k in Failed(t, p, k, now) <==> k in t || |t| < 4096 || |Sweep(t, p, now)| < 4096
  {
  }

  // ---- Runs

  /** A failed sign-in or a success. A request reads the clock once, before it asks whether it may try, and
      `now` is that reading: the guard sees readings in the order of the lock, not of the clock. */
  datatype Event = Fail(k: Pair, now: int) | Succeed(k: Pair, now: int)

  function Next(t: Table, p: Policy, e: Event): Table {
    match e
    case Fail(k, now) => Failed(t, p, k, now)
    case Succeed(k, _) => t - {k}
  }

  /** A guard's table before and after each event, starting empty. */
  ghost predicate IsRun(tables: seq<Table>, events: seq<Event>, p: Policy) {
    && |tables| == |events| + 1 && tables[0] == map[]
    && (forall i | 0 <= i < |events| :: tables[i + 1] == Next(tables[i], p, events[i]))
  }

  /** A pair is locked exactly when it is at its allowance, and one window past its latest failure. */
  predicate EntryOk(e: Entry, p: Policy) {
    && (e.until.Some? <==> e.failures >= p.maxFailures)
    && (e.until.Some? ==> e.until.value == e.last + p.lockout)
  }

  ghost predicate TableOk(t: Table, p: Policy) {
    forall k | k in t :: EntryOk(t[k], p)
  }

  lemma BumpedOk(e: Entry, p: Policy, now: int)
    requires e.until.Some? ==> e.failures >= p.maxFailures
    ensures EntryOk(Bumped(e, p, now), p) && Bumped(e, p, now).last == now
  {
  }

  lemma NextOk(t: Table, p: Policy, e: Event)
    requires |t| <= MAX_PAIRS && TableOk(t, p)
    ensures TableOk(Next(t, p, e), p) && |Next(t, p, e)| <= MAX_PAIRS
  {
    hide Bumped, EntryOk;
    match e
    case Fail(k, now) =>
      FailedFits(t, p, k, now);
      if k in t {
        EntryOkUse(t[k], p);
        BumpedOk(t[k], p, now);
      } else {
        BumpedOk(Entry(0, None, now), p, now);
      }
    case Succeed(k, _) => SubsetFits(t - {k}, t);
  }

  lemma EntryOkUse(e: Entry, p: Policy)
    requires EntryOk(e, p)
    ensures e.until.Some? ==> e.failures >= p.maxFailures
  {
  }

  /** In every run the table holds at most 4096 pairs, and a lock ends one window after the failure. */
  lemma {:induction false} EveryRun(tables: seq<Table>, events: seq<Event>, p: Policy, i: nat)
    requires IsRun(tables, events, p) && i <= |events|
    ensures |tables[i]| <= 4096 && TableOk(tables[i], p)
  {
    hide Next, EntryOk;
    if i > 0 {
      EveryRun(tables, events, p, i - 1);
      NextOk(tables[i - 1], p, events[i - 1]);
    }
  }

  // ---- When a lock is served

  ghost predicate LockedUntil(t: Table, k: Pair, u: int) {
    k in t && t[k].until.Some? && u <= t[k].until.value
  }

  /** The event makes the guard sweep: a new pair fails and the table is full. */
  predicate Sweeps(t: Table, e: Event) {
    e.Fail? && e.k !in t && |t| >= 4096
  }

  /** What ends a lock before `u`: the pair signs in, one of its failures carries a reading more than a window
      before `u`, or a sweep finds the pair quiet for four windows. */
  predicate Breaks(t: Table, p: Policy, e: Event, k: Pair, u: int) {
    || e == Succeed(k, e.now)
    || (e == Fail(k, e.now) && e.now + p.lockout < u)
    || (Sweeps(t, e) && k in t && (e.now - t[k].last >= 4 * p.lockout || p.lockout == 0))
  }

  /** An event leaves a pair locked until `u` exactly when it is none of these. */
  lemma LockKeptIff(t: Table, p: Policy, e: Event, k: Pair, u: int)
    requires TableOk(t, p) && LockedUntil(t, k, u)
    ensures LockedUntil(Next(t, p, e), k, u) <==> !Breaks(t, p, e, k, u)
  {
    assert EntryOk(t[k], p);
    if e == Fail(k, e.now) {
      assert Next(t, p, e)[k] == Bumped(t[k], p, e.now);
    } else if e.Fail? {
      hide Bumped;
      assert k in Sweep(t, p, e.now) <==> Since(e.now, t[k].last) < p.lockout * REMEMBER_WINDOWS;
    }
  }

  /** A sweep by a request whose reading lies before the end of a lock never forgets the locked pair. */
  lemma SweepSparesLocked(t: Table, p: Policy, e: Event, k: Pair, u: int)
    requires TableOk(t, p) && LockedUntil(t, k, u) && p.lockout > 0 && e.now < u
    ensures Breaks(t, p, e, k, u) ==> e.k == k
  {
    assert EntryOk(t[k], p);
  }

  /** In every run, a pair locked until `u` stays locked until `u` exactly when no event breaks the lock;
      and then it is refused to every reading before `u`. */
  lemma {:induction false} LockIsServedIff(tables: seq<Table>, events: seq<Event>, p: Policy, i: nat, j: nat,
                                           k: Pair, u: int)
    requires IsRun(tables, events, p) && i <= j <= |events| && LockedUntil(tables[i], k, u)
    ensures (forall m | i <= m <= j :: LockedUntil(tables[m], k, u))
            <==> forall n | i <= n < j :: !Breaks(tables[n], p, events[n], k, u)
    ensures (forall m | i <= m <= j :: LockedUntil(tables[m], k, u)) ==>
              forall m, now | i <= m <= j && now < u :: !Allowed(tables[m], k, now)
    decreases j - i
  {
    hide Next, Breaks;
    if i < j {
      EveryRun(tables, events, p, i);
      LockKeptIff(tables[i], p, events[i], k, u);
      assert tables[i + 1] == Next(tables[i], p, events[i]);
      if LockedUntil(tables[i + 1], k, u) {
        LockIsServedIff(tables, events, p, i + 1, j, k, u);
      } else {
        assert i <= i + 1 <= j;
      }
    }
  }

  /** The pair's failures reach the lock in the order of their readings. */
  ghost predicate OwnInOrder(tables: seq<Table>, events: seq<Event>, i: nat, j: nat, k: Pair)
    requires j <= |events| && |tables| == |events| + 1
  {
    forall n | i <= n < j && events[n] == Fail(k, events[n].now) :: k in tables[n] && tables[n][k].last <= events[n].now
  }

  /** So a pair whose own requests keep the order of the clock serves its lock: whatever other pairs do, and in
      whatever order their readings arrive, it is refused before `u` unless it signs in. */
  lemma {:induction false} LockIsServed(tables: seq<Table>, events: seq<Event>, p: Policy, i: nat, j: nat,
                                        k: Pair, u: int)
    requires IsRun(tables, events, p) && i <= j <= |events| && LockedUntil(tables[i], k, u) && p.lockout > 0
    requires forall n | i <= n < j :: events[n].now < u && events[n] != Succeed(k, events[n].now)
    requires OwnInOrder(tables, events, i, j, k)
    ensures LockedUntil(tables[j], k, u)
    ensures forall now | now < u :: !Allowed(tables[j], k, now)
    decreases j - i
  {
    if i < j {
      EveryRun(tables, events, p, i);
      SweepSparesLocked(tables[i], p, events[i], k, u);
      assert EntryOk(tables[i][k], p);
      LockKeptIff(tables[i], p, events[i], k, u);
      hide Next;
      LockIsServed(tables, events, p, i + 1, j, k, u);
    }
  }

  /** Out of that order a lock ends early, for every allowance and from every table: a failure of the pair whose
      reading lies more than a window before the end of its lock lets the pair in again before that end. */
  lemma StaleFailureEndsLock(t: Table, p: Policy, k: Pair, u: int, early: int, now: int)
    requires LockedUntil(t, k, u) && EntryOk(t[k], p) && early + p.lockout <= now < u
    ensures !Allowed(t, k, now) && Allowed(Failed(t, p, k, early), k, now)
    ensures !LockedUntil(Failed(t, p, k, early), k, u)
  {
    assert Failed(t, p, k, early)[k] == Bumped(t[k], p, early);
  }

  /** The table after `n` failures of one pair that carry the same reading. */
  function Guessed(p: Policy, k: Pair, now: int, n: nat): Table {
    if n == 0 then map[] else Failed(Guessed(p, k, now, n - 1), p, k, now)
  }

  lemma {:induction false} GuessedEntry(p: Policy, k: Pair, now: int, n: nat)
    requires 0 < n <= p.Allowance()
    ensures var until := if n < p.Allowance() then None else Some(now + p.lockout);
            Guessed(p, k, now, n) == map[k := Entry(n, until, now)]
  {
    if n > 1 {
      GuessedEntry(p, k, now, n - 1);
    } else {
      assert Guessed(p, k, now, 0) == map[];
    }
  }

  /** A pair uses up its allowance at one reading, and then fails once more with another. */
  ghost predicate UsesUpThenFails(tables: seq<Table>, events: seq<Event>, p: Policy, k: Pair, late: int, early: int) {
    && IsRun(tables, events, p) && |events| == p.Allowance() + 1
    && (forall i | 0 <= i < p.Allowance() :: events[i] == Fail(k, late))
    && events[p.Allowance()] == Fail(k, early)
  }

  lemma UsedUpRun(p: Policy, k: Pair, late: int, early: int) returns (tables: seq<Table>, events: seq<Event>)
    ensures UsesUpThenFails(tables, events, p, k, late, early)
    ensures tables[p.Allowance()] == Guessed(p, k, late, p.Allowance())
  {
    var m := p.Allowance();
    tables := seq(m + 1, i requires 0 <= i => Guessed(p, k, late, i)) + [Failed(Guessed(p, k, late, m), p, k, early)];
    events := seq(m, i => Fail(k, late)) + [Fail(k, early)];
    hide Failed;
    forall i | 0 <= i < |events| ensures tables[i + 1] == Next(tables[i], p, events[i]) {
    }
  }

  /** Such a failure is reached with every policy: of a request that read the clock before the others. */
  lemma StaleRun(p: Policy, k: Pair, late: int, early: int, now: int)
    requires early + p.lockout <= now < late + p.lockout
    ensures exists tables, events ::
              && UsesUpThenFails(tables, events, p, k, late, early)
              && !Allowed(tables[p.Allowance()], k, now) && Allowed(tables[p.Allowance() + 1], k, now)
  {
    var m := p.Allowance();
    var tables, events := UsedUpRun(p, k, late, early);
    GuessedEntry(p, k, late, m);
    StaleFailureEndsLock(tables[m], p, k, late + p.lockout, early, now);
    assert tables[m + 1] == Next(tables[m], p, events[m]);
    hide Failed, Allowed, Guessed;
  }

  // ---- Guesses are spaced out

  /** When a pair's sign-ins failed, in order. */
  function Times(events: seq<Event>, k: Pair): seq<int> {
    if events == [] then []
    else
      var last := events[|events| - 1];
      Times(events[..|events| - 1], k) + if last.Fail? && last.k == k then [last.now] else []
  }

  /** The pair asks before each guess, never signs in, and is not forgotten once it has failed. */
  ghost predicate Driven(tables: seq<Table>, events: seq<Event>, k: Pair)
    requires |tables| == |events| + 1
  {
    && (forall i | 0 <= i < |events| && events[i].k == k :: events[i].Fail? && Allowed(tables[i], k, events[i].now))
    && (forall i | 0 <= i <= |events| && Times(events[..i], k) != [] :: k in tables[i])
  }

  /** What the failures so far say about the pair's entry. */
  ghost predicate Matches(t: Table, p: Policy, k: Pair, times: seq<int>) {
    if times == [] then k !in t
    else
      && k in t && t[k].last == times[|times| - 1]
      && (if |times| < p.Allowance() then t[k].until.None? && t[k].failures == |times|
          else t[k].until == Some(t[k].last + p.lockout) && t[k].failures == p.Allowance())
  }

  /** Past the allowance, consecutive failures are a window apart. */
  ghost predicate Spaced(p: Policy, times: seq<int>) {
    forall j | p.Allowance() <= j < |times| :: times[j - 1] + p.lockout <= times[j]
  }

  lemma OtherPairMatches(t: Table, p: Policy, e: Event, k: Pair, times: seq<int>)
    requires Matches(t, p, k, times) && e.k != k
    requires times != [] ==> k in Next(t, p, e)
    ensures Matches(Next(t, p, e), p, k, times)
  {
    hide Bumped;
  }

  lemma OwnFailureMatches(t: Table, p: Policy, k: Pair, now: int, times: seq<int>)
    requires Matches(t, p, k, times) && Spaced(p, times) && Allowed(t, k, now)
    requires k in Failed(t, p, k, now)
    ensures Matches(Failed(t, p, k, now), p, k, times + [now]) && Spaced(p, times + [now])
  {
  }

  lemma {:induction false} DrivenMatches(tables: seq<Table>, events: seq<Event>, p: Policy, k: Pair, i: nat)
    requires IsRun(tables, events, p) && Driven(tables, events, k) && i <= |events|
    ensures Matches(tables[i], p, k, Times(events[..i], k)) && Spaced(p, Times(events[..i], k))
  {
    hide Matches, Spaced, Failed, Allowed;
    if i == 0 {
      StartMatches(p, k);
    } else {
      DrivenMatches(tables, events, p, k, i - 1);
      var e := events[i - 1];
      var before := Times(events[..i - 1], k);
      assert events[..i][..i - 1] == events[..i - 1] && events[..i][i - 1] == e;
      if e.k == k {
        OwnFailureMatches(tables[i - 1], p, k, e.now, before);
      } else {
        assert Times(events[..i], k) == before + [] == before;
        OtherPairMatches(tables[i - 1], p, e, k, before);
      }
    }
  }

  lemma StartMatches(p: Policy, k: Pair)
    ensures Matches(map[], p, k, []) && Spaced(p, [])
  {
  }

  lemma {:induction false} SpacedAddsUp(p: Policy, times: seq<int>, n: nat)
    requires Spaced(p, times) && p.Allowance() <= n <= |times|
    ensures times[n - 1] - times[p.Allowance() - 1] >= (n - p.Allowance()) * p.lockout
    decreases n
  {
    if n > p.Allowance() {
      SpacedAddsUp(p, times, n - 1);
      assert times[n - 2] + p.lockout <= times[n - 1];
      assert (n - p.Allowance()) * p.lockout == (n - 1 - p.Allowance()) * p.lockout + p.lockout;
    }
  }

  /** In every run, the n-th failure of a pair comes at least (n - m) windows after its m-th, where m is
      the allowance. */
  lemma GuessesAreSpaced(tables: seq<Table>, events: seq<Event>, p: Policy, k: Pair, n: nat)
    requires IsRun(tables, events, p) && Driven(tables, events, k)
    requires p.Allowance() <= n <= |Times(events, k)|
    ensures Times(events, k)[n - 1] - Times(events, k)[p.Allowance() - 1] >= (n - p.Allowance()) * p.lockout
  {
    DrivenMatches(tables, events, p, k, |events|);
    assert events[..|events|] == events;
    SpacedAddsUp(p, Times(events, k), n);
  }
}
