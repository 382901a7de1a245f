/** The MCP session table: bounded as a whole and per account, with an account's least recently used
    session replaced when the account is at its own cap. */
module Sessions {
  import opened Bytes
  import opened Collections

  type User = nat
  type Digest = nat

  datatype Session = Session(user: User, lastUsed: int, initialized: bool)

  type Entries = map<Digest, Session>

  const MAX_SESSIONS: nat := 1024
  const MAX_SESSIONS_PER_USER: nat := 16
  const SESSION_IDLE: int := 60 * 60

  predicate Fresh(s: Session, now: int) {
    now - s.lastUsed < SESSION_IDLE
  }

  function Live(m: Entries, now: int): Entries {
    map d | d in m && Fresh(m[d], now) :: m[d]
  }

  function OfUser(m: Entries, u: User): set<Digest> {
    set d | d in m && m[d].user == u
  }

  function Users(m: Entries): set<User> {
    set d | d in m :: m[d].user
  }

  ghost predicate Bounded(m: Entries) {
    |m| <= MAX_SESSIONS && forall u :: |OfUser(m, u)| <= MAX_SESSIONS_PER_USER
  }

  ghost predicate LeastRecent(m: Entries, u: User, d: Digest) {
    d in m && m[d].user == u && forall e | e in m && m[e].user == u :: m[d].lastUsed <= m[e].lastUsed
  }

  lemma LiveIsBounded(m: Entries, now: int)
    requires Bounded(m)
    ensures Bounded(Live(m, now))
  {
    SubsetSize(Live(m, now).Keys, m.Keys);
    forall u
      ensures |OfUser(Live(m, now), u)| <= MAX_SESSIONS_PER_USER
    {
      SubsetSize(OfUser(Live(m, now), u), OfUser(m, u));
    }
  }

  lemma DropIsBounded(m: Entries, d: Digest)
    requires Bounded(m)
    ensures Bounded(m - {d})
  {
    SubsetSize((m - {d}).Keys, m.Keys);
    forall u
      ensures |OfUser(m - {d}, u)| <= MAX_SESSIONS_PER_USER
    {
      SubsetSize(OfUser(m - {d}, u), OfUser(m, u));
    }
  }

  lemma OfUserAdds(m: Entries, d: Digest, s: Session, u: User)
    requires d !in m
    ensures OfUser(m[d := s], u) == OfUser(m, u) + if s.user == u then {d} else {}
    ensures d !in OfUser(m, u)
  {
  }

  lemma AddIsBounded(m: Entries, d: Digest, s: Session)
    requires Bounded(m) && d !in m && |m| < MAX_SESSIONS && |OfUser(m, s.user)| < MAX_SESSIONS_PER_USER
    ensures Bounded(m[d := s])
  {
    var r := m[d := s];
    assert r.Keys == m.Keys + {d};
    forall u
      ensures |OfUser(r, u)| <= MAX_SESSIONS_PER_USER
    {
      OfUserAdds(m, d, s, u);
    }
  }

  lemma SameUserIsBounded(m: Entries, d: Digest, s: Session)
    requires Bounded(m) && d in m && s.user == m[d].user
    ensures Bounded(m[d := s])
  {
    var r := m[d := s];
    assert r.Keys == m.Keys;
    forall u
      ensures |OfUser(r, u)| <= MAX_SESSIONS_PER_USER
    {
      assert OfUser(r, u) == OfUser(m, u);
    }
  }

  /** What creating a session makes of the table. */
  ghost predicate Creates(m: Entries, u: User, now: int, digest: Digest, ok: bool, r: Entries) {
    var live := Live(m, now);
    var made := Session(u, now, false);
    if |OfUser(live, u)| >= MAX_SESSIONS_PER_USER then
      ok && exists d: Digest :: LeastRecent(live, u, d) && r == (live - {d})[digest := made]
    else if |live| < MAX_SESSIONS then ok && r == live[digest := made]
    else !ok && r == live
  }

  /** The live sessions among those a sweep has seen. */
  function Swept(m: Entries, todo: set<Digest>, now: int): Entries {
    map d | d in m && d !in todo && Fresh(m[d], now) :: m[d]
  }

  lemma SweptNext(m: Entries, todo: set<Digest>, now: int, d: Digest)
    requires d in todo && d in m
    ensures d !in Swept(m, todo, now)
    ensures Swept(m, todo - {d}, now)
         == if Fresh(m[d], now) then Swept(m, todo, now)[d := m[d]] else Swept(m, todo, now)
  {
  }

  lemma SweepBegins(m: Entries, u: User, now: int)
    ensures Swept(m, m.Keys, now) == map[] && OfUser(map[], u) == {} && Eldest(map[], u, None)
  {
  }

  lemma SweepEnds(m: Entries, now: int)
    ensures Swept(m, {}, now) == Live(m, now)
  {
  }

  /** The account's least recently used session, if it has any. */
  ghost predicate Eldest(m: Entries, u: User, oldest: Option<Digest>) {
    match oldest
    case Some(d) => LeastRecent(m, u, d)
    case None => OfUser(m, u) == {}
  }

  lemma EldestAdds(m: Entries, d: Digest, s: Session, u: User, oldest: Option<Digest>)
    requires Eldest(m, u, oldest) && d !in m
    ensures oldest.Some? ==> oldest.value in m
    ensures var newer := oldest.Some? && m[oldest.value].lastUsed <= s.lastUsed;
            Eldest(m[d := s], u, if s.user == u && !newer then Some(d) else oldest)
  {
    OfUserAdds(m, d, s, u);
  }

  lemma EldestMeans(m: Entries, u: User, oldest: Option<Digest>)
    requires Eldest(m, u, oldest)
    ensures match oldest
            case Some(d) => LeastRecent(m, u, d)
            case None => |OfUser(m, u)| == 0
  {
  }

  /** A session lives for an hour after its last use. */
  lemma LiveMeans(m: Entries, now: int)
    ensures forall d :: d in Live(m, now) <==> d in m && now - m[d].lastUsed < 3600
    ensures forall d | d in Live(m, now) :: Live(m, now)[d] == m[d]
  {
  }

  class Table {
    var entries: Entries

    constructor ()
      ensures Bounded(entries) && entries == map[]
    {
      entries := map[];
      new;
      assert forall u :: OfUser(map[], u) == {};
    }

    /** One sweep: keeps the live sessions, counts the account's and finds its least recently used. */
    method Retain(u: User, now: int) returns (held: nat, oldest: Option<Digest>)
      modifies this
      ensures entries == Live(old(entries), now) && held == |OfUser(entries, u)|
      ensures forall d :: d in entries <==> d in old(entries) && now - old(entries)[d].lastUsed < 3600
      ensures forall d | d in entries :: entries[d] == old(entries)[d]
      ensures match oldest
              case Some(d) => LeastRecent(entries, u, d)
              case None => held == 0
    {
      hide *;
      var todo := entries.Keys;
      var kept: Entries := map[];
      held, oldest := 0, None;
      SweepBegins(entries, u, now);
      while todo != {}
        invariant todo <= entries.Keys && entries == old(entries)
        invariant kept == Swept(entries, todo, now) && held == |OfUser(kept, u)|
        invariant Eldest(kept, u, oldest)
        decreases |todo|
      {
        var d :| d in todo;
        var s := entries[d];
        SweptNext(entries, todo, now, d);
        if Fresh(s, now) {
          OfUserAdds(kept, d, s, u);
          EldestAdds(kept, d, s, u, oldest);
          if s.user == u {
            held := held + 1;
            if oldest.None? || s.lastUsed < kept[oldest.value].lastUsed {
              oldest := Some(d);
            }
          }
          kept := kept[d := s];
        }
        todo := todo - {d};
      }
      SweepEnds(entries, now);
      EldestMeans(kept, u, oldest);
      LiveMeans(entries, now);
      entries := kept;
    }

    /** Creates a session under a digest never used before. */
    method Create(u: User, now: int, digest: Digest) returns (ok: bool)
      requires Bounded(entries) && digest !in entries
      modifies this
      ensures Creates(old(entries), u, now, digest, ok, entries)
      ensures Bounded(entries)
      ensures ok <==> digest in entries
      ensures ok ==> entries[digest] == Session(u, now, false)
      ensures forall d | d in entries && d != digest ::
                d in old(entries) && entries[d] == old(entries)[d] && now - entries[d].lastUsed < 3600
    {
      LiveIsBounded(entries, now);
      var held, oldest := Retain(u, now);
      ghost var live := entries;
      hide Bounded;
      if held >= MAX_SESSIONS_PER_USER && oldest.Some? {
        ReplacedIsBounded(live, u, oldest.value, digest, now);
        entries := entries - {oldest.value};
      } else if |live| < MAX_SESSIONS {
        AddIsBounded(live, digest, Session(u, now, false));
      }
      if |entries| >= MAX_SESSIONS {
        return false;
      }
      entries := entries[digest := Session(u, now, false)];
      return true;
    }

    /** Uses a session: it must be there, fresh, and the caller's own; an idle one is dropped. */
    method Touch(digest: Option<Digest>, u: User, now: int) returns (r: Option<Digest>)
      requires Bounded(entries)
      modifies this
      ensures Bounded(entries)
      ensures r.Some? <==>
                && digest.Some? && digest.value in old(entries)
                && now - old(entries)[digest.value].lastUsed < 3600 && old(entries)[digest.value].user == u
      ensures r.Some? ==>
                && r == digest
                && entries == old(entries)[r.value := old(entries)[r.value].(lastUsed := now)]
      ensures r.None? ==>
                entries == if digest.Some? && digest.value in old(entries)
                              && now - old(entries)[digest.value].lastUsed >= 3600
                           then old(entries) - {digest.value} else old(entries)
    {
      if digest.None? || digest.value !in entries {
        return None;
      }
      var d := digest.value;
      if !Fresh(entries[d], now) {
        DropIsBounded(entries, d);
        entries := entries - {d};
        return None;
      }
      if entries[d].user != u {
        return None;
      }
      SameUserIsBounded(entries, d, entries[d].(lastUsed := now));
      entries := entries[d := entries[d].(lastUsed := now)];
      return digest;
    }

    method MarkInitialized(d: Digest) returns (ok: bool)
      requires Bounded(entries)
      modifies this
      ensures Bounded(entries) && (ok <==> d in old(entries))
      ensures entries == if ok then old(entries)[d := old(entries)[d].(initialized := true)] else old(entries)
    {
      if d !in entries {
        return false;
      }
      SameUserIsBounded(entries, d, entries[d].(initialized := true));
      entries := entries[d := entries[d].(initialized := true)];
      return true;
    }

    method Drop(d: Digest)
      requires Bounded(entries)
      modifies this
      ensures Bounded(entries) && entries == old(entries) - {d}
    {
      DropIsBounded(entries, d);
      entries := entries - {d};
    }
  }

  lemma ReplacedIsBounded(live: Entries, u: User, d: Digest, digest: Digest, now: int)
    requires Bounded(live) && LeastRecent(live, u, d) && digest !in live
    ensures |live - {d}| < MAX_SESSIONS && Bounded((live - {d})[digest := Session(u, now, false)])
  {
    var rest := live - {d};
    DropIsBounded(live, d);
    assert live.Keys == rest.Keys + {d};
    assert OfUser(live, u) == OfUser(rest, u) + {d};
    AddIsBounded(rest, digest, Session(u, now, false));
  }

  /** Creating drops no live session of another account, and of the creator's own at most the least
      recently used one, and that only at the cap. */
  lemma CreateSpares(m: Entries, u: User, now: int, digest: Digest, ok: bool, r: Entries, d: Digest)
    requires digest !in m && Creates(m, u, now, digest, ok, r)
    requires d in m && now - m[d].lastUsed < 3600
    ensures d in r ==> r[d] == m[d]
    ensures d !in r ==> |OfUser(Live(m, now), u)| >= 16 && LeastRecent(Live(m, now), u, d)
  {
  }

  lemma {:induction false} PerUserPigeonhole(m: Entries)
    requires forall u :: |OfUser(m, u)| <= MAX_SESSIONS_PER_USER
    ensures |m| <= MAX_SESSIONS_PER_USER * |Users(m)|
    decreases |m|
  {
    if m != map[] {
      var d :| d in m;
      var u := m[d].user;
      var mine := OfUser(m, u);
      var rest := m - mine;
      assert d in mine;
      assert m.Keys == mine + rest.Keys;
      assert Users(m) == Users(rest) + {u};
      assert u !in Users(rest);
      forall v
        ensures |OfUser(rest, v)| <= MAX_SESSIONS_PER_USER
      {
        SubsetSize(OfUser(rest, v), OfUser(m, v));
      }
      PerUserPigeonhole(rest);
    }
  }

  /** An account at its cap is never refused, and a refusal means that at least 64 other accounts hold
      live sessions. */
  lemma RefusalMeansCrowd(m: Entries, u: User, now: int, digest: Digest, r: Entries)
    requires Bounded(m) && Creates(m, u, now, digest, false, r)
    ensures |OfUser(Live(m, now), u)| < 16 && |Live(m, now)| == 1024
    ensures |Users(Live(m, now)) - {u}| >= 64
  {
    var live := Live(m, now);
    LiveIsBounded(m, now);
    var mine := OfUser(live, u);
    var others := live - mine;
    assert live.Keys == mine + others.Keys;
    assert Users(others) == Users(live) - {u};
    forall v
      ensures |OfUser(others, v)| <= MAX_SESSIONS_PER_USER
    {
      SubsetSize(OfUser(others, v), OfUser(live, v));
    }
    PerUserPigeonhole(others);
  }
}
