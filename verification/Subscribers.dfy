/** The table of parked long polls: 32 entries in place, one per user that waits, shared so that no few
    users can take every place. */
module Subscribers {
  import opened Bytes

  type User = nat

  datatype Entry = Entry(holder: Option<User>, count: nat)

  const SUBSCRIBERS: nat := 32
  const SUBSCRIBERS_PER_USER: nat := 8

  datatype Refusal = Full | UserFull

  datatype Taken = Guard(user: User) | Refused(why: Refusal)

  function Total(s: seq<Entry>): nat {
    if s == [] then 0 else Total(s[..|s| - 1]) + s[|s| - 1].count
  }

  /** The guards a user holds: the map that the table stands for. */
  function HeldBy(s: seq<Entry>, u: User): nat {
    if s == [] then 0
    else HeldBy(s[..|s| - 1], u) + if s[|s| - 1].holder == Some(u) then s[|s| - 1].count else 0
  }

  ghost predicate WellFormed(s: seq<Entry>) {
    && (forall i | 0 <= i < |s| :: (s[i].holder.None? <==> s[i].count == 0) && s[i].count <= SUBSCRIBERS_PER_USER)
    && (forall i, j | 0 <= i < j < |s| && s[i].holder.Some? :: s[i].holder != s[j].holder)
  }

  lemma {:induction false} TotalPut(s: seq<Entry>, i: nat, e: Entry)
    requires i < |s|
    ensures Total(s[i := e]) == Total(s) - s[i].count + e.count
  {
    var last := |s| - 1;
    if i < last {
      assert s[i := e][..last] == s[..last][i := e];
      TotalPut(s[..last], i, e);
    } else {
      assert s[i := e][..last] == s[..last];
    }
  }

  lemma {:induction false} HeldByAt(s: seq<Entry>, i: nat, u: User)
    requires WellFormed(s) && i < |s| && s[i].holder == Some(u)
    ensures HeldBy(s, u) == s[i].count
  {
    var last := |s| - 1;
    if i < last {
      HeldByAt(s[..last], i, u);
    } else {
      HeldByNone(s[..last], u);
    }
  }

  lemma {:induction false} HeldByNone(s: seq<Entry>, u: User)
    requires forall i | 0 <= i < |s| :: s[i].holder != Some(u)
    ensures HeldBy(s, u) == 0
  {
    if s != [] {
      HeldByNone(s[..|s| - 1], u);
    }
  }

  lemma {:induction false} HeldByPut(s: seq<Entry>, i: nat, e: Entry, u: User)
    requires i < |s| && (s[i].holder == Some(u) <==> e.holder == Some(u))
    ensures HeldBy(s[i := e], u) == HeldBy(s, u) + if e.holder == Some(u) then e.count - s[i].count else 0
  {
    var last := |s| - 1;
    if i < last {
      assert s[i := e][..last] == s[..last][i := e];
      HeldByPut(s[..last], i, e, u);
    } else {
      assert s[i := e][..last] == s[..last];
    }
  }

  /** Pigeonhole: a table with no free entry is full. */
  lemma {:induction false} NoFreeEntryMeansFull(s: seq<Entry>)
    requires forall i | 0 <= i < |s| :: s[i].count > 0
    ensures Total(s) >= |s|
  {
    if s != [] {
      NoFreeEntryMeansFull(s[..|s| - 1]);
    }
  }

  lemma {:induction false} TotalAtLeast(s: seq<Entry>, i: nat)
    requires i < |s|
    ensures Total(s) >= s[i].count
  {
    if i < |s| - 1 {
      TotalAtLeast(s[..|s| - 1], i);
    }
  }

  function Holders(s: seq<Entry>): set<User> {
    if s == [] then {}
    else
      var last := s[|s| - 1];
      Holders(s[..|s| - 1]) + if last.holder.Some? then {last.holder.value} else {}
  }

  lemma {:induction false} HoldersAre(s: seq<Entry>, u: User)
    ensures u in Holders(s) ==> exists i :: 0 <= i < |s| && s[i].holder == Some(u)
  {
    if s != [] {
      HoldersAre(s[..|s| - 1], u);
      if u in Holders(s[..|s| - 1]) {
        var i :| 0 <= i < |s| - 1 && s[..|s| - 1][i].holder == Some(u);
        assert s[i].holder == Some(u);
      }
    }
  }

  /** Each holder accounts for at most its allowance. */
  lemma {:induction false} TotalPerHolder(s: seq<Entry>)
    requires WellFormed(s)
    ensures Total(s) <= SUBSCRIBERS_PER_USER * |Holders(s)|
  {
    if s != [] {
      var front, last := s[..|s| - 1], s[|s| - 1];
      TotalPerHolder(front);
      if last.holder.Some? {
        HoldersAre(front, last.holder.value);
        assert last.holder.value !in Holders(front);
      }
    }
  }

  class Table {
    const held: array<Entry>
    ghost var guards: multiset<User>

    ghost predicate Valid()
      reads this, held
    {
      && held.Length == SUBSCRIBERS && WellFormed(held[..])
      && Total(held[..]) == |guards| <= SUBSCRIBERS
      && forall u :: HeldBy(held[..], u) == guards[u]
    }

    constructor ()
      ensures Valid() && guards == multiset{} && fresh(held)
    {
      held := new Entry[SUBSCRIBERS](_ => Entry(None, 0));
      guards := multiset{};
      new;
      EmptyTable(held[..]);
    }

    /** The live guards, counted entry by entry. */
    method Held() returns (n: nat)
      requires Valid()
      ensures n == |guards|
    {
      n := 0;
      for i := 0 to held.Length
        invariant n == Total(held[..i])
      {
        assert held[..i + 1][..i] == held[..i];
        n := n + held[i].count;
      }
      assert held[..held.Length] == held[..];
    }

    method FindEntry(u: User) returns (r: Option<nat>)
      requires Valid()
      ensures match r
              case Some(i) =>
                && i < held.Length
                && (held[i].holder == Some(u)
                    || (held[i].count == 0 && forall j | 0 <= j < held.Length :: held[j].holder != Some(u)))
              case None => forall j | 0 <= j < held.Length :: held[j].count > 0
    {
      for i := 0 to held.Length
        invariant forall j | 0 <= j < i :: held[j].holder != Some(u)
      {
        if held[i].holder == Some(u) {
          return Some(i);
        }
      }
      for i := 0 to held.Length
        invariant forall j | 0 <= j < i :: held[j].count != 0
      {
        if held[i].count == 0 {
          return Some(i);
        }
      }
      return None;
    }

    /** Grants a guard exactly when fewer than 32 are held and fewer than 8 of them by this user. */
    method Take(u: User) returns (r: Taken)
      requires Valid()
      modifies this, held
      ensures Valid()
      ensures r == Refused(Full) <==> |old(guards)| >= 32
      ensures r == Refused(UserFull) <==> |old(guards)| < 32 && old(guards)[u] >= 8
      ensures r.Guard? ==> r.user == u && guards == old(guards) + multiset{u}
      ensures r.Refused? ==> guards == old(guards) && held[..] == old(held[..])
    {
      var total := Held();
      if total >= SUBSCRIBERS {
        return Refused(Full);
      }
      var entry := FindEntry(u);
      if entry.None? {
        NoFreeEntryMeansFull(held[..]);
        assert false;
      }
      var i := entry.value;
      ghost var s := held[..];
      EntryHolds(s, i, u);
      if held[i].count >= SUBSCRIBERS_PER_USER {
        return Refused(UserFull);
      }
      var after := Entry(Some(u), held[i].count + 1);
      PutCounts(s, i, after, u);
      held[i] := after;
      guards := guards + multiset{u};
      assert held[..] == s[i := after];
      return Guard(u);
    }

    /** Dropping a guard gives back exactly that guard. */
    method Release(u: User)
      requires Valid() && u in guards
      modifies this, held
      ensures Valid() && guards == old(guards) - multiset{u}
    {
      ghost var s := held[..];
      var i := 0;
      SomeEntry(s, u);
      while held[i].holder != Some(u)
        invariant 0 <= i < held.Length && held[..] == s && guards == old(guards)
        invariant forall j | 0 <= j < i :: held[j].holder != Some(u)
        decreases held.Length - i
      {
        i := i + 1;
      }
      HeldByAt(s, i, u);
      TotalAtLeast(s, i);
      var left := held[i].count - 1;
      var after := Entry(if left == 0 then None else Some(u), left);
      DropCounts(s, i, after, u);
      held[i] := after;
      guards := guards - multiset{u};
      assert held[..] == s[i := after];
    }
  }

  lemma {:induction false} EmptyTable(s: seq<Entry>)
    requires forall i | 0 <= i < |s| :: s[i] == Entry(None, 0)
    ensures Total(s) == 0 && WellFormed(s) && forall u :: HeldBy(s, u) == 0
  {
    if s != [] {
      EmptyTable(s[..|s| - 1]);
    }
  }

  lemma EntryHolds(s: seq<Entry>, i: nat, u: User)
    requires WellFormed(s) && i < |s|
    requires s[i].holder == Some(u) || (s[i].count == 0 && forall j | 0 <= j < |s| :: s[j].holder != Some(u))
    ensures HeldBy(s, u) == s[i].count
  {
    if s[i].holder == Some(u) {
      HeldByAt(s, i, u);
    } else {
      HeldByNone(s, u);
    }
  }

  lemma PutCounts(s: seq<Entry>, i: nat, e: Entry, u: User)
    requires WellFormed(s) && i < |s| && e == Entry(Some(u), s[i].count + 1) && e.count <= SUBSCRIBERS_PER_USER
    requires s[i].holder == Some(u) || (s[i].count == 0 && forall j | 0 <= j < |s| :: s[j].holder != Some(u))
    ensures WellFormed(s[i := e]) && Total(s[i := e]) == Total(s) + 1
    ensures forall v :: HeldBy(s[i := e], v) == HeldBy(s, v) + if v == u then 1 else 0
  {
    TotalPut(s, i, e);
    EntryHolds(s, i, u);
    HeldByAt(s[i := e], i, u);
    forall v | v != u
      ensures HeldBy(s[i := e], v) == HeldBy(s, v)
    {
      HeldByPut(s, i, e, v);
    }
  }

  lemma DropCounts(s: seq<Entry>, i: nat, e: Entry, u: User)
    requires WellFormed(s) && i < |s| && s[i].holder == Some(u) && s[i].count > 0
    requires e == Entry(if s[i].count == 1 then None else Some(u), s[i].count - 1)
    ensures WellFormed(s[i := e]) && Total(s[i := e]) == Total(s) - 1
    ensures forall v :: HeldBy(s[i := e], v) == HeldBy(s, v) - if v == u then 1 else 0
  {
    TotalPut(s, i, e);
    HeldByAt(s, i, u);
    if e.holder.Some? {
      HeldByAt(s[i := e], i, u);
    } else {
      HeldByNone(s[i := e], u);
    }
    forall v | v != u
      ensures HeldBy(s[i := e], v) == HeldBy(s, v)
    {
      HeldByPut(s, i, e, v);
    }
  }

  lemma SomeEntry(s: seq<Entry>, u: User)
    requires HeldBy(s, u) > 0
    ensures exists i :: 0 <= i < |s| && s[i].holder == Some(u)
  {
    if forall i | 0 <= i < |s| :: s[i].holder != Some(u) {
      HeldByNone(s, u);
    }
  }

  /** A full table has at least four holders: three users never shut out a fourth. */
  lemma ThreeNeverShutOutAFourth(s: seq<Entry>)
    requires WellFormed(s) && Total(s) >= SUBSCRIBERS
    ensures |Holders(s)| >= 4 && forall u | u in Holders(s) :: HeldBy(s, u) > 0
  {
    TotalPerHolder(s);
    forall u | u in Holders(s)
      ensures HeldBy(s, u) > 0
    {
      HoldersAre(s, u);
      var i :| 0 <= i < |s| && s[i].holder == Some(u);
      HeldByAt(s, i, u);
    }
  }
}
