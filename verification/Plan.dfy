/** Spreading worker identities over the hosts of a fleet file: one at a time to the least loaded host that
    still has room, each identity with an equal share of its host's ceilings. */
module Plan {
  import opened Bytes
  import Decimal

  /** `ceilings` is empty when the fleet file declares none. */
  datatype Host = Host(tag: string, identities: nat, ceilings: map<string, nat>, priority: int)

  datatype Slot = Slot(index: nat, host: string, slot: nat, ceilings: Option<map<string, nat>>, priority: int,
                       name: string)

  datatype Obstacle = TooFewIdentities | NoCeilings | CeilingTooSmall

  datatype Outcome = Planned(plan: seq<Slot>) | Blocked(why: Obstacle)

  predicate Distinct(hosts: seq<Host>) {
    forall i, j | 0 <= i < j < |hosts| :: hosts[i].tag != hosts[j].tag
  }

  // ---- Loads

  function Total(c: seq<nat>): nat {
    if c == [] then 0 else Total(c[..|c| - 1]) + c[|c| - 1]
  }

  /** How many identities `order` gives to host `h`. */
  function Given(order: seq<nat>, h: nat): nat {
    if order == [] then 0 else Given(order[..|order| - 1], h) + (if order[|order| - 1] == h then 1 else 0)
  }

  predicate Within(order: seq<nat>, m: nat) {
    forall i | 0 <= i < |order| :: order[i] < m
  }

  function Loads(order: seq<nat>, m: nat): (c: seq<nat>)
    ensures |c| == m && forall h | 0 <= h < m :: c[h] == Given(order, h)
  {
    seq(m, h requires 0 <= h => Given(order, h))
  }

  function Rooms(hosts: seq<Host>): (c: seq<nat>)
    ensures |c| == |hosts| && forall i | 0 <= i < |hosts| :: c[i] == hosts[i].identities
  {
    seq(|hosts|, i requires 0 <= i < |hosts| => hosts[i].identities)
  }

  lemma {:induction false} TotalMonotone(a: seq<nat>, b: seq<nat>)
    requires |a| == |b| && forall i | 0 <= i < |a| :: a[i] <= b[i]
    ensures Total(a) <= Total(b)
    ensures Total(a) == Total(b) ==> a == b
  {
    if a != [] {
      var a', b' := a[..|a| - 1], b[..|b| - 1];
      TotalMonotone(a', b');
      assert a == a' + [a[|a| - 1]] && b == b' + [b[|b| - 1]];
    }
  }

  lemma {:induction false} TotalBump(c: seq<nat>, h: nat)
    requires h < |c|
    ensures Total(c[h := c[h] + 1]) == Total(c) + 1
  {
    var d := c[h := c[h] + 1];
    if h == |c| - 1 {
      assert d[..|d| - 1] == c[..|c| - 1];
    } else {
      TotalBump(c[..|c| - 1], h);
      assert d[..|d| - 1] == c[..|c| - 1][h := c[h] + 1];
    }
  }

  lemma {:induction false} TotalZero(c: seq<nat>)
    requires forall i | 0 <= i < |c| :: c[i] == 0
    ensures Total(c) == 0
  {
    if c != [] {
      TotalZero(c[..|c| - 1]);
    }
  }

  lemma GivenMore(order: seq<nat>, h: nat, x: nat)
    ensures Given(order + [x], h) == Given(order, h) + if x == h then 1 else 0
  {
    assert (order + [x])[..|order|] == order;
  }

  lemma LoadsMore(order: seq<nat>, m: nat, x: nat)
    requires x < m
    ensures Loads(order + [x], m) == Loads(order, m)[x := Loads(order, m)[x] + 1]
  {
    forall h: nat | h < m ensures Loads(order + [x], m)[h] == Loads(order, m)[x := Loads(order, m)[x] + 1][h] {
      GivenMore(order, h, x);
    }
  }

  lemma {:induction false} LoadsTotal(order: seq<nat>, m: nat)
    requires Within(order, m)
    ensures Total(Loads(order, m)) == |order|
  {
    if order == [] {
      TotalZero(Loads(order, m));
    } else {
      var o, x := order[..|order| - 1], order[|order| - 1];
      assert order == o + [x];
      LoadsTotal(o, m);
      LoadsMore(o, m, x);
      TotalBump(Loads(o, m), x);
    }
  }

  // ---- The greedy spread

  /** No host is over its room, and none is ahead of a host that still has room, except by the one identity
      an earlier host gets first. */
  ghost predicate Filled(room: seq<nat>, c: seq<nat>) {
    && |c| == |room|
    && (forall i | 0 <= i < |c| :: c[i] <= room[i])
    && (forall i, j | 0 <= i < |c| && 0 <= j < |c| && c[j] < room[j] ::
          c[i] <= c[j] + 1 && (c[i] > c[j] ==> i < j))
  }

  ghost predicate IsSpread(hosts: seq<Host>, n: nat, order: seq<nat>) {
    && |order| == n && Within(order, |hosts|)
    && (forall m | 0 <= m <= n :: Filled(Rooms(hosts), Loads(order[..m], |hosts|)))
  }

  /** While identities are left over some host has room. */
  lemma SomeRoom(room: seq<nat>, c: seq<nat>)
    requires |room| == |c| && Total(c) < Total(room)
    ensures exists h: nat :: h < |c| && c[h] < room[h]
  {
    if forall h | 0 <= h < |c| :: room[h] <= c[h] {
      TotalMonotone(room, c);
    }
  }

  lemma LeastLoadedFills(room: seq<nat>, c: seq<nat>, h: nat)
    requires Filled(room, c) && h < |c| && c[h] < room[h]
    requires forall j | 0 <= j < |c| && c[j] < room[j] :: c[h] <= c[j] && (c[h] == c[j] ==> h <= j)
    ensures Filled(room, c[h := c[h] + 1])
  {
  }

  /** Of two water-filled loads neither is ahead at one host and behind at another, */
  lemma FilledAreComparable(room: seq<nat>, c: seq<nat>, d: seq<nat>, i: nat, j: nat)
    requires Filled(room, c) && Filled(room, d) && i < |c| && j < |c|
    ensures !(c[i] < d[i] && d[j] < c[j])
  {
    assert c[i] < room[i] ==> c[j] <= c[i] + 1 && (c[j] > c[i] ==> j < i);
    assert d[j] < room[j] ==> d[i] <= d[j] + 1 && (d[i] > d[j] ==> i < j);
  }

  /** so a water-filled load is the only one of its size. */
  lemma FilledIsUnique(room: seq<nat>, c: seq<nat>, d: seq<nat>)
    requires Filled(room, c) && Filled(room, d) && Total(c) == Total(d)
    ensures c == d
  {
    forall i: nat, j: nat | i < |c| && j < |c| ensures !(c[i] < d[i] && d[j] < c[j]) {
      FilledAreComparable(room, c, d, i, j);
    }
    if forall i | 0 <= i < |c| :: c[i] <= d[i] {
      TotalMonotone(c, d);
    } else {
      TotalMonotone(d, c);
    }
  }

  /** So the spread is the only one whose every step is water-filled. */
  lemma {:induction false} SpreadIsUnique(hosts: seq<Host>, n: nat, a: seq<nat>, b: seq<nat>)
    requires IsSpread(hosts, n, a) && IsSpread(hosts, n, b)
    ensures a == b
  {
    if n > 0 {
      var m := |hosts|;
      var a', b' := a[..n - 1], b[..n - 1];
      ShorterSpread(hosts, n, a);
      ShorterSpread(hosts, n, b);
      SpreadIsUnique(hosts, n - 1, a', b');
      assert a == a' + [a[n - 1]] && b == b' + [b[n - 1]];
      assert a[..n] == a && b[..n] == b;
      LoadsTotal(a, m);
      LoadsTotal(b, m);
      FilledIsUnique(Rooms(hosts), Loads(a, m), Loads(b, m));
      assert Loads(a, m)[a[n - 1]] == Loads(b, m)[a[n - 1]];
      GivenMore(a', a[n - 1], a[n - 1]);
      GivenMore(b', a[n - 1], b[n - 1]);
    }
  }

  lemma ShorterSpread(hosts: seq<Host>, n: nat, a: seq<nat>)
    requires IsSpread(hosts, n, a) && n > 0
    ensures IsSpread(hosts, n - 1, a[..n - 1])
  {
    var b := a[..n - 1];
    forall m | 0 <= m <= n - 1 ensures Filled(Rooms(hosts), Loads(b[..m], |hosts|)) {
      assert b[..m] == a[..m];
    }
  }

  method Capacity(hosts: seq<Host>) returns (c: nat)
    ensures c == Total(Rooms(hosts))
  {
    c := 0;
    for i := 0 to |hosts|
      invariant c == Total(Rooms(hosts)[..i])
    {
      assert Rooms(hosts)[..i + 1][..i] == Rooms(hosts)[..i];
      c := c + hosts[i].identities;
    }
    assert Rooms(hosts)[..|hosts|] == Rooms(hosts);
  }

  /** The counts by label are the loads by position. */
  ghost predicate CountsAre(hosts: seq<Host>, count: map<string, nat>, c: seq<nat>) {
    && |c| == |hosts|
    && forall i | 0 <= i < |hosts| :: hosts[i].tag in count && count[hosts[i].tag] == c[i]
  }

  /** The host with room that has the fewest identities; the first of them. */
  method LeastLoaded(hosts: seq<Host>, count: map<string, nat>, ghost c: seq<nat>) returns (h: nat)
    requires CountsAre(hosts, count, c)
    requires exists x: nat :: x < |hosts| && c[x] < hosts[x].identities
    ensures h < |hosts| && c[h] < hosts[h].identities
    ensures forall j | 0 <= j < |hosts| && c[j] < hosts[j].identities :: c[h] <= c[j] && (c[h] == c[j] ==> h <= j)
  {
    var best: Option<nat> := None;
    for i := 0 to |hosts|
      invariant best.None? ==> forall j | 0 <= j < i :: c[j] >= hosts[j].identities
      invariant best.Some? ==> best.value < i && c[best.value] < hosts[best.value].identities
      invariant best.Some? ==> forall j | 0 <= j < i && c[j] < hosts[j].identities ::
                                 c[best.value] <= c[j] && (c[best.value] == c[j] ==> best.value <= j)
    {
      if count[hosts[i].tag] < hosts[i].identities
        && (best.None? || count[hosts[i].tag] < count[hosts[best.value].tag]) {
        best := Some(i);
      }
    }
    h := best.value;
  }

  method Spread(hosts: seq<Host>, n: nat) returns (order: seq<nat>, count: map<string, nat>)
    requires Distinct(hosts) && n <= Total(Rooms(hosts))
    ensures IsSpread(hosts, n, order) && CountsAre(hosts, count, Loads(order, |hosts|))
  {
    hide Filled, Loads, Rooms, Total;
    order, count := [], map h | h in hosts :: h.tag := 0;
    NoneGiven(hosts, count);
    for i := 0 to n
      invariant IsSpread(hosts, i, order) && CountsAre(hosts, count, Loads(order, |hosts|))
    {
      ghost var c := Loads(order, |hosts|);
      LoadsTotal(order, |hosts|);
      SomeRoom(Rooms(hosts), c);
      var h := LeastLoaded(hosts, count, c);
      SpreadMore(hosts, i, order, h);
      LoadsMore(order, |hosts|, h);
      CountsMore(hosts, count, c, h);
      count := count[hosts[h].tag := count[hosts[h].tag] + 1];
      order := order + [h];
    }
  }

  lemma NoneGiven(hosts: seq<Host>, count: map<string, nat>)
    requires forall i | 0 <= i < |hosts| :: hosts[i].tag in count && count[hosts[i].tag] == 0
    ensures IsSpread(hosts, 0, []) && CountsAre(hosts, count, Loads([], |hosts|))
  {
  }

  lemma SpreadMore(hosts: seq<Host>, n: nat, order: seq<nat>, h: nat)
    requires IsSpread(hosts, n, order) && h < |hosts|
    requires var c := Loads(order, |hosts|);
             && c[h] < hosts[h].identities
             && forall j | 0 <= j < |hosts| && c[j] < hosts[j].identities :: c[h] <= c[j] && (c[h] == c[j] ==> h <= j)
    ensures IsSpread(hosts, n + 1, order + [h])
  {
    hide Filled;
    var o := order + [h];
    forall m | 0 <= m <= n + 1 ensures Filled(Rooms(hosts), Loads(o[..m], |hosts|)) {
      if m <= n {
        assert o[..m] == order[..m];
      } else {
        assert o[..m] == o && order[..n] == order;
        LoadsMore(order, |hosts|, h);
        LeastLoadedFills(Rooms(hosts), Loads(order, |hosts|), h);
      }
    }
  }

  lemma CountsMore(hosts: seq<Host>, count: map<string, nat>, c: seq<nat>, h: nat)
    requires Distinct(hosts) && CountsAre(hosts, count, c) && h < |hosts|
    ensures CountsAre(hosts, count[hosts[h].tag := count[hosts[h].tag] + 1], c[h := c[h] + 1])
  {
  }

  // ---- Shares and names

  /** What stops `k` identities on one host. */
  function Stops(h: Host, k: nat): Option<Obstacle>
    requires k > 0
  {
    if k > 1 && h.ceilings == map[] then Some(NoCeilings)
    else if exists key :: key in h.ceilings && h.ceilings[key] / k < 1 then Some(CeilingTooSmall)
    else None
  }

  function Share(h: Host, k: nat): Option<map<string, nat>>
    requires k > 0
  {
    if h.ceilings == map[] then None else Some(map key | key in h.ceilings :: h.ceilings[key] / k)
  }

  /** A host can have `k` identities: with more than one it declares ceilings, and each ceiling is at least `k`. */
  predicate CanHold(h: Host, k: nat) {
    (k > 1 ==> h.ceilings != map[]) && forall key | key in h.ceilings :: k <= h.ceilings[key]
  }

  lemma StopsMean(h: Host, k: nat)
    requires k > 0
    ensures Stops(h, k).None? <==> CanHold(h, k)
    ensures Stops(h, k) == Some(NoCeilings) <==> k > 1 && h.ceilings == map[]
    ensures Stops(h, k) == Some(CeilingTooSmall) <==> exists key :: key in h.ceilings && h.ceilings[key] < k
  {
    forall key | key in h.ceilings
      ensures h.ceilings[key] / k < 1 <==> h.ceilings[key] < k
    {
      if h.ceilings[key] >= k {
        assert h.ceilings[key] / k >= 1;
      }
    }
  }

  /** The identities of a host together stay within each of its ceilings, none is left without a share, and no
      larger equal share would do. */
  lemma SharesFit(h: Host, k: nat, key: string)
    requires k > 0 && CanHold(h, k) && key in h.ceilings
    ensures Share(h, k).Some? && Share(h, k).value.Keys == h.ceilings.Keys
    ensures var s := Share(h, k).value[key]; 1 <= s && k * s <= h.ceilings[key] < k * (s + 1)
  {
    StopsMean(h, k);
    var s := Share(h, k).value[key];
    assert h.ceilings[key] / k == s;
  }

  function SlotName(tag: string, slot: nat): string {
    "b09-" + tag + "-" + Decimal.Text(slot)
  }

  lemma LastDash(pre: string, digits: string)
    requires forall i | 0 <= i < |digits| :: '0' <= digits[i] <= '9'
    ensures var x := pre + "-" + digits;
            && |pre| < |x| && x[|pre|] == '-' && x[..|pre|] == pre && x[|pre| + 1..] == digits
            && forall p | |pre| < p < |x| :: x[p] != '-'
  {
    var x := pre + "-" + digits;
    assert x[|pre| + 1..] == digits;
    forall p | |pre| < p < |x| ensures x[p] != '-' {
      assert x[p] == digits[p - |pre| - 1];
    }
  }

  /** A label may itself end in a dash and digits, and still a name has one reading. */
  lemma NamesDiffer(a: string, m: nat, b: string, n: nat)
    requires SlotName(a, m) == SlotName(b, n)
    ensures a == b && m == n
  {
    hide Decimal.Text;
    var s, t := Decimal.Text(m), Decimal.Text(n);
    LastDash("b09-" + a, s);
    LastDash("b09-" + b, t);
    assert SlotName(a, m) == "b09-" + a + "-" + s && SlotName(b, n) == "b09-" + b + "-" + t;
    assert "b09-" + a == "b09-" + b && s == t;
    assert a == ("b09-" + a)[4..] && b == ("b09-" + b)[4..];
    Decimal.TextInjective(m, n);
  }

  /** The slot that identity `i` of a spread gets. */
  function SlotOf(hosts: seq<Host>, order: seq<nat>, i: nat): Slot
    requires i < |order| && Within(order, |hosts|)
    requires Given(order, order[i]) > 0
  {
    var h := hosts[order[i]];
    var s := Given(order[..i], order[i]) + 1;
    Slot(i + 1, h.tag, s, Share(h, Given(order, order[i])), h.priority, SlotName(h.tag, s))
  }

  lemma {:induction false} GivenPrefix(order: seq<nat>, i: nat, j: nat, h: nat)
    requires i <= j <= |order|
    ensures Given(order[..i], h) <= Given(order[..j], h)
    ensures i < j && order[i] == h ==> Given(order[..i], h) < Given(order[..j], h)
    decreases j - i
  {
    if i < j {
      GivenPrefix(order, i + 1, j, h);
      assert order[..i + 1] == order[..i] + [order[i]];
      GivenMore(order[..i], h, order[i]);
    }
  }

  lemma GivenPositive(order: seq<nat>, i: nat)
    requires i < |order|
    ensures Given(order[..i], order[i]) < Given(order, order[i])
  {
    GivenPrefix(order, i, |order|, order[i]);
    assert order[..|order|] == order;
  }

  /** Every slot from 1 to the host's count is used. */
  lemma {:induction false} SlotsAreAll(order: seq<nat>, h: nat, s: nat)
    requires 1 <= s <= Given(order, h)
    ensures exists i: nat :: i < |order| && order[i] == h && Given(order[..i], h) + 1 == s
  {
    var o, x := order[..|order| - 1], order[|order| - 1];
    if s <= Given(o, h) {
      SlotsAreAll(o, h, s);
      var i: nat :| i < |o| && o[i] == h && Given(o[..i], h) + 1 == s;
      assert order[..i] == o[..i] && order[i] == h;
    } else {
      assert order[..|order| - 1] == o && order[|order| - 1] == h;
    }
  }

  ghost predicate IsPlan(hosts: seq<Host>, order: seq<nat>, plan: seq<Slot>) {
    && Within(order, |hosts|)
    && |plan| == |order|
    && forall i | 0 <= i < |order| :: Given(order, order[i]) > 0 && plan[i] == SlotOf(hosts, order, i)
  }

  /** Nothing stops the hosts of the first `upto` identities. */
  ghost predicate NothingStops(hosts: seq<Host>, order: seq<nat>, upto: nat)
    requires upto <= |order| && Within(order, |hosts|)
  {
    forall i | 0 <= i < upto :: Given(order, order[i]) > 0 && Stops(hosts[order[i]], Given(order, order[i])).None?
  }

  /** `why` is what stops the first identity whose host is stopped. */
  ghost predicate IsFirstStop(hosts: seq<Host>, order: seq<nat>, why: Obstacle)
    requires Within(order, |hosts|)
  {
    exists i: nat ::
      && i < |order| && NothingStops(hosts, order, i) && Given(order, order[i]) > 0
      && Stops(hosts[order[i]], Given(order, order[i])) == Some(why)
  }

  ghost predicate PlannedSoFar(hosts: seq<Host>, order: seq<nat>, plan: seq<Slot>)
    requires |plan| <= |order| && Within(order, |hosts|)
  {
    forall j | 0 <= j < |plan| :: Given(order, order[j]) > 0 && plan[j] == SlotOf(hosts, order, j)
  }

  lemma PlannedMore(hosts: seq<Host>, order: seq<nat>, plan: seq<Slot>, x: Slot)
    requires |plan| < |order| && Within(order, |hosts|)
    requires Given(order, order[|plan|]) > 0 && x == SlotOf(hosts, order, |plan|)
    requires PlannedSoFar(hosts, order, plan)
    ensures PlannedSoFar(hosts, order, plan + [x])
  {
    hide SlotOf;
  }

  lemma UsedMore(hosts: seq<Host>, order: seq<nat>, i: nat, used: map<string, nat>)
    requires Distinct(hosts) && Within(order, |hosts|) && i < |order|
    requires CountsAre(hosts, used, Loads(order[..i], |hosts|))
    ensures var tag := hosts[order[i]].tag;
            && tag in used && used[tag] == Given(order[..i], order[i])
            && CountsAre(hosts, used[tag := used[tag] + 1], Loads(order[..i + 1], |hosts|))
  {
    assert order[..i + 1] == order[..i] + [order[i]];
    LoadsMore(order[..i], |hosts|, order[i]);
    CountsMore(hosts, used, Loads(order[..i], |hosts|), order[i]);
  }

  lemma CountAt(hosts: seq<Host>, order: seq<nat>, count: map<string, nat>, h: nat)
    requires h < |hosts| && CountsAre(hosts, count, Loads(order, |hosts|))
    ensures hosts[h].tag in count && count[hosts[h].tag] == Given(order, h)
  {
  }

  method Assign(hosts: seq<Host>, order: seq<nat>, count: map<string, nat>) returns (r: Outcome)
    requires Distinct(hosts) && Within(order, |hosts|)
    requires CountsAre(hosts, count, Loads(order, |hosts|))
    ensures r.Planned? <==> NothingStops(hosts, order, |order|)
    ensures r.Planned? ==> IsPlan(hosts, order, r.plan)
    ensures r.Blocked? ==> IsFirstStop(hosts, order, r.why)
  {
    hide Stops, Share, SlotName, Loads, CountsAre, Given, PlannedSoFar, Distinct;
    var plan: seq<Slot> := [];
    var used := map h | h in hosts :: h.tag := 0;
    assert PlannedSoFar(hosts, order, plan) by { NothingPlanned(hosts, order); }
    NoneGiven(hosts, used);
    for i := 0 to |order|
      invariant NothingStops(hosts, order, i)
      invariant |plan| == i && PlannedSoFar(hosts, order, plan)
      invariant CountsAre(hosts, used, Loads(order[..i], |hosts|))
    {
      var h := hosts[order[i]];
      CountAt(hosts, order, count, order[i]);
      GivenPositive(order, i);
      UsedMore(hosts, order, i, used);
      var k := count[h.tag];
      var stopped := Stops(h, k);
      if stopped.Some? {
        return Blocked(stopped.value);
      }
      used := used[h.tag := used[h.tag] + 1];
      var x := Slot(i + 1, h.tag, used[h.tag], Share(h, k), h.priority, SlotName(h.tag, used[h.tag]));
      PlannedMore(hosts, order, plan, x);
      plan := plan + [x];
    }
    assert IsPlan(hosts, order, plan) by { AllPlanned(hosts, order, plan); }
    return Planned(plan);
  }

  lemma NothingPlanned(hosts: seq<Host>, order: seq<nat>)
    requires Within(order, |hosts|)
    ensures PlannedSoFar(hosts, order, [])
  {
  }

  lemma AllPlanned(hosts: seq<Host>, order: seq<nat>, plan: seq<Slot>)
    requires |plan| == |order| && Within(order, |hosts|) && PlannedSoFar(hosts, order, plan)
    ensures IsPlan(hosts, order, plan)
  {
    hide SlotOf;
  }

  ghost predicate Right(hosts: seq<Host>, n: nat, r: Outcome) {
    if n > Total(Rooms(hosts)) then r == Blocked(TooFewIdentities)
    else exists order ::
      && IsSpread(hosts, n, order)
      && (r.Planned? <==> NothingStops(hosts, order, n))
      && (r.Planned? ==> IsPlan(hosts, order, r.plan))
      && (r.Blocked? ==> IsFirstStop(hosts, order, r.why))
  }

  method PlanFleet(hosts: seq<Host>, n: nat) returns (r: Outcome)
    requires Distinct(hosts)
    ensures Right(hosts, n, r)
  {
    var capacity := Capacity(hosts);
    if n > capacity {
      return Blocked(TooFewIdentities);
    }
    var order, count := Spread(hosts, n);
    hide IsPlan, NothingStops, IsFirstStop, CountsAre, Total;
    r := Assign(hosts, order, count);
  }

  // ---- What a plan promises

  lemma PlanAt(hosts: seq<Host>, order: seq<nat>, plan: seq<Slot>, i: nat)
    requires IsPlan(hosts, order, plan) && i < |plan|
    ensures |order| == |plan| && order[i] < |hosts|
    ensures plan[i].host == hosts[order[i]].tag && plan[i].slot == Given(order[..i], order[i]) + 1
    ensures plan[i].name == "b09-" + plan[i].host + "-" + Decimal.Text(plan[i].slot)
    ensures plan[i].index == i + 1 && plan[i].priority == hosts[order[i]].priority
  {
  }

  /** Every identity has its own name. */
  lemma PlanNamesAreUnique(hosts: seq<Host>, order: seq<nat>, plan: seq<Slot>, i: nat, j: nat)
    requires Distinct(hosts) && IsPlan(hosts, order, plan) && i < |plan| && j < |plan|
    requires plan[i].name == plan[j].name
    ensures i == j
  {
    PlanAt(hosts, order, plan, i);
    PlanAt(hosts, order, plan, j);
    hide IsPlan, SlotName, Given;
    NamesDiffer(plan[i].host, plan[i].slot, plan[j].host, plan[j].slot);
    assert order[i] == order[j];
    if i < j {
      GivenPrefix(order, i, j, order[i]);
    } else if j < i {
      GivenPrefix(order, j, i, order[i]);
    }
  }

  ghost predicate HasSlot(plan: seq<Slot>, tag: string, s: nat) {
    exists i :: 0 <= i < |plan| && plan[i].host == tag && plan[i].slot == s
  }

  /** A host's slots are the numbers from 1 to the identities it was given. */
  lemma PlanSlots(hosts: seq<Host>, order: seq<nat>, plan: seq<Slot>, h: nat, s: nat)
    requires Distinct(hosts) && IsPlan(hosts, order, plan) && h < |hosts|
    ensures 1 <= s <= Given(order, h) <==> HasSlot(plan, hosts[h].tag, s)
  {
    hide *;
    if 1 <= s <= Given(order, h) {
      PlanHasSlot(hosts, order, plan, h, s);
    }
    if HasSlot(plan, hosts[h].tag, s) {
      PlanSlotFits(hosts, order, plan, h, s);
    }
  }

  lemma PlanHasSlot(hosts: seq<Host>, order: seq<nat>, plan: seq<Slot>, h: nat, s: nat)
    requires IsPlan(hosts, order, plan) && h < |hosts| && 1 <= s <= Given(order, h)
    ensures HasSlot(plan, hosts[h].tag, s)
  {
    SlotsAreAll(order, h, s);
    var i: nat :| i < |order| && order[i] == h && Given(order[..i], h) + 1 == s;
    PlanAt(hosts, order, plan, i);
  }

  lemma PlanSlotFits(hosts: seq<Host>, order: seq<nat>, plan: seq<Slot>, h: nat, s: nat)
    requires Distinct(hosts) && IsPlan(hosts, order, plan) && h < |hosts| && HasSlot(plan, hosts[h].tag, s)
    ensures 1 <= s <= Given(order, h)
  {
    hide IsPlan, Given;
    var i :| 0 <= i < |plan| && plan[i].host == hosts[h].tag && plan[i].slot == s;
    PlanAt(hosts, order, plan, i);
    assert order[i] == h;
    GivenPositive(order, i);
  }

  lemma GivenHost(order: seq<nat>, h: nat) returns (i: nat)
    requires Given(order, h) > 0
    ensures i < |order| && order[i] == h
  {
    SlotsAreAll(order, h, 1);
    i :| i < |order| && order[i] == h && Given(order[..i], h) + 1 == 1;
  }

  lemma NothingStopsMeans(hosts: seq<Host>, order: seq<nat>)
    requires Within(order, |hosts|)
    ensures NothingStops(hosts, order, |order|) <==>
              forall h: nat | h < |hosts| && Given(order, h) > 0 :: CanHold(hosts[h], Given(order, h))
  {
    hide Given, Stops, CanHold;
    if NothingStops(hosts, order, |order|) {
      forall h: nat | h < |hosts| && Given(order, h) > 0
        ensures CanHold(hosts[h], Given(order, h))
      {
        var i := GivenHost(order, h);
        assert Stops(hosts[order[i]], Given(order, order[i])).None?;
        StopsMean(hosts[h], Given(order, h));
      }
    }
    if forall h: nat | h < |hosts| && Given(order, h) > 0 :: CanHold(hosts[h], Given(order, h)) {
      forall i | 0 <= i < |order|
        ensures Given(order, order[i]) > 0 && Stops(hosts[order[i]], Given(order, order[i])).None?
      {
        GivenPositive(order, i);
        StopsMean(hosts[order[i]], Given(order, order[i]));
      }
    }
  }

  /** A plan is made exactly when the hosts have identities enough and each can hold those that the spread gives it. */
  lemma PlannedIffAllHold(hosts: seq<Host>, n: nat, r: Outcome, order: seq<nat>)
    requires Right(hosts, n, r) && n <= Total(Rooms(hosts)) && IsSpread(hosts, n, order)
    ensures r.Planned? <==> forall h: nat | h < |hosts| && Given(order, h) > 0 :: CanHold(hosts[h], Given(order, h))
    ensures r.Planned? ==> IsPlan(hosts, order, r.plan)
  {
    hide Filled, Rooms, Loads, IsPlan, NothingStops, Stops, CanHold, Given, Total, IsFirstStop;
    var other :| IsSpread(hosts, n, other) && (r.Planned? <==> NothingStops(hosts, other, n))
              && (r.Planned? ==> IsPlan(hosts, other, r.plan));
    SpreadIsUnique(hosts, n, order, other);
    NothingStopsMeans(hosts, order);
  }

  /** There are too few identities exactly when the hosts have fewer than are asked for. */
  lemma TooFewIffMoreAsked(hosts: seq<Host>, n: nat, r: Outcome)
    requires Right(hosts, n, r)
    ensures r == Blocked(TooFewIdentities) <==> n > Total(Rooms(hosts))
  {
  }

  /** The shares handed to a host's identities never exceed what the host declared. */
  lemma PlanFitsCeilings(hosts: seq<Host>, order: seq<nat>, plan: seq<Slot>, i: nat, key: string)
    requires IsPlan(hosts, order, plan) && NothingStops(hosts, order, |order|) && i < |plan|
    requires key in hosts[order[i]].ceilings
    ensures plan[i].ceilings.Some? && key in plan[i].ceilings.value && 1 <= plan[i].ceilings.value[key]
    ensures Given(order, order[i]) * plan[i].ceilings.value[key] <= hosts[order[i]].ceilings[key]
  {
    hide Given, Stops, CanHold, Share;
    var h, k := hosts[order[i]], Given(order, order[i]);
    assert plan[i].ceilings == Share(h, k);
    StopsMean(h, k);
    SharesFit(h, k, key);
  }
}
