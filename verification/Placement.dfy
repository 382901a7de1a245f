/** Where a job lands: hard admission first, then the chosen order; or the reason it waits. */
module Placement {
  import opened Bytes
  import opened Fleet

  datatype Job = Job(arch: nat, os: nat, isolation: nat, need: Capacity)

  datatype Reason = ArchMismatch | RuntimeMissing | CapacityShort | WorkerOffline

  datatype Answer = Placed(id: Name) | Waits(why: Reason)

  // ---- Effective capacity

  function Capped(ceiling: Option<nat>, reported: nat): nat {
    match ceiling
    case None => reported
    case Some(c) => if c < reported then c else reported
  }

  function Effective(ceiling: Ceiling, reported: Capacity): Capacity {
    Capacity(Capped(ceiling.cpu, reported.cpu), Capped(ceiling.memory, reported.memory),
             Capped(ceiling.disk, reported.disk))
  }

  predicate Covers(have: Capacity, need: Capacity) {
    need.cpu <= have.cpu && need.memory <= have.memory && need.disk <= have.disk
  }

  predicate WithinCeiling(c: Ceiling, need: Capacity) {
    && (c.cpu.Some? ==> need.cpu <= c.cpu.value)
    && (c.memory.Some? ==> need.memory <= c.memory.value)
    && (c.disk.Some? ==> need.disk <= c.disk.value)
  }

  /** A need fits the effective capacity exactly when it fits the machine and every ceiling that is set: a
      ceiling narrows and never raises. */
  lemma EffectiveIsTheMeet(ceiling: Ceiling, reported: Capacity, need: Capacity)
    ensures Covers(Effective(ceiling, reported), need) <==> Covers(reported, need) && WithinCeiling(ceiling, need)
  {
  }

  // ---- Admission

  predicate Free(k: Worker) {
    k.connected && !k.revoked && !k.draining && k.reported.Some? && k.reported.value.speed > 0.0
  }

  /** In a fleet that is in order a worker is free when it is connected, not revoked and not draining. */
  lemma FreeInAFleet(w: World, id: Name)
    requires Ok(w) && id in w.workers
    ensures var k := w.workers[id]; Free(k) <==> k.connected && !k.revoked && !k.draining
  {
  }

  /** Why a free worker cannot take a job, or `None`. */
  function Objection(k: Worker, job: Job): Option<Reason>
    requires Free(k)
  {
    var m := k.reported.value;
    if m.arch != job.arch then Some(ArchMismatch)
    else if m.os != job.os || job.isolation !in m.runtimes then Some(RuntimeMissing)
    else if !Covers(Effective(k.policy.ceiling, m.capacity), job.need) then Some(CapacityShort)
    else None
  }

  predicate Fits(k: Worker, job: Job) {
    Free(k) && Objection(k, job).None?
  }

  predicate Objects(k: Worker, job: Job, why: Reason) {
    Free(k) && Objection(k, job) == Some(why)
  }

  /** The machine and the ceilings of a worker allow the job. */
  predicate Allows(k: Worker, job: Job)
    requires Free(k)
  {
    var m := k.reported.value;
    && m.arch == job.arch && m.os == job.os && job.isolation in m.runtimes
    && Covers(m.capacity, job.need) && WithinCeiling(k.policy.ceiling, job.need)
  }

  /** A job fits a free worker that allows it; and of one that does not, the reason is its architecture if that
      differs, else its system or a missing runtime, else its capacity. */
  lemma ReasonsMean(k: Worker, job: Job, why: Reason)
    requires Free(k)
    ensures Fits(k, job) <==> Allows(k, job)
    ensures Objects(k, job, why) <==>
              var m := k.reported.value;
              match why
              case ArchMismatch => m.arch != job.arch
              case RuntimeMissing => m.arch == job.arch && (m.os != job.os || job.isolation !in m.runtimes)
              case CapacityShort =>
                && m.arch == job.arch && m.os == job.os && job.isolation in m.runtimes
                && !(Covers(m.capacity, job.need) && WithinCeiling(k.policy.ceiling, job.need))
              case WorkerOffline => false
  {
    EffectiveIsTheMeet(k.policy.ceiling, k.reported.value.capacity, job.need);
  }

  // ---- The order among the workers a job fits

  datatype Key = Key(first: real, second: real)

  function KeyOf(k: Worker, byPriority: bool): Key
    requires Free(k)
  {
    var slow, low := 1.0 / k.reported.value.speed, -(k.policy.priority as real);
    if byPriority then Key(low, slow) else Key(slow, low)
  }

  predicate Before(a: Key, b: Key) {
    a.first < b.first || (a.first == b.first && a.second < b.second)
  }

  lemma ReciprocalReverses(a: real, b: real)
    requires a > 0.0 && b > 0.0
    ensures 1.0 / a < 1.0 / b <==> b < a
    ensures 1.0 / a == 1.0 / b <==> a == b
  {
    var x, y := 1.0 / a, 1.0 / b;
    assert x * a == 1.0 && y * b == 1.0;
    assert x > 0.0 && y > 0.0;
    if b < a {
      assert x * b < x * a;
      assert x * b < y * b;
    } else if a < b {
      assert y * a < y * b;
      assert y * a < x * a;
    }
  }

  /** What the two orders mean: a larger priority, or a faster machine, decides, and the other breaks ties. */
  lemma OrderMeans(a: Worker, b: Worker)
    requires Free(a) && Free(b)
    ensures Before(KeyOf(a, true), KeyOf(b, true)) <==>
              || a.policy.priority > b.policy.priority
              || (a.policy.priority == b.policy.priority && a.reported.value.speed > b.reported.value.speed)
    ensures Before(KeyOf(a, false), KeyOf(b, false)) <==>
              || a.reported.value.speed > b.reported.value.speed
              || (a.reported.value.speed == b.reported.value.speed && a.policy.priority > b.policy.priority)
  {
    ReciprocalReverses(a.reported.value.speed, b.reported.value.speed);
  }

  /** `order` lists every worker once, oldest first. */
  ghost predicate Lists(order: seq<Name>, ws: Workers) {
    && (forall id | id in order :: id in ws)
    && (forall id | id in ws :: id in order)
    && (forall i, j | 0 <= i < j < |order| :: order[i] != order[j])
  }

  /** The oldest of the workers that fit and that no worker that fits goes before. */
  ghost predicate IsFirst(ws: Workers, order: seq<Name>, job: Job, byPriority: bool, at: nat) {
    && at < |order| && (forall id | id in order :: id in ws) && Fits(ws[order[at]], job)
    && (forall j | 0 <= j < |order| && Fits(ws[order[j]], job) ::
          !Before(KeyOf(ws[order[j]], byPriority), KeyOf(ws[order[at]], byPriority)))
    && (forall j | 0 <= j < at && Fits(ws[order[j]], job) ::
          Before(KeyOf(ws[order[at]], byPriority), KeyOf(ws[order[j]], byPriority)))
  }

  ghost predicate SomeObject(ws: Workers, job: Job, why: Reason) {
    exists id :: id in ws && Objects(ws[id], job, why)
  }

  /** The first reason, hardest first, that some free worker gives; with no free worker, that none is there. */
  ghost function Foremost(ws: Workers, job: Job): Reason {
    if SomeObject(ws, job, ArchMismatch) then ArchMismatch
    else if SomeObject(ws, job, RuntimeMissing) then RuntimeMissing
    else if SomeObject(ws, job, CapacityShort) then CapacityShort
    else WorkerOffline
  }

  ghost predicate SomeFits(ws: Workers, job: Job) {
    exists id :: id in ws && Fits(ws[id], job)
  }

  ghost predicate Right(ws: Workers, order: seq<Name>, job: Job, byPriority: bool, r: Answer) {
    match r
    case Placed(id) => exists at: nat :: IsFirst(ws, order, job, byPriority, at) && order[at] == id
    case Waits(why) => !SomeFits(ws, job) && why == Foremost(ws, job)
  }

  ghost predicate BestSoFar(ws: Workers, order: seq<Name>, job: Job, byPriority: bool, best: Option<nat>)
    requires forall id | id in order :: id in ws
  {
    if best.Some? then IsFirst(ws, order, job, byPriority, best.value)
    else forall j | 0 <= j < |order| :: !Fits(ws[order[j]], job)
  }

  /** One more worker is looked at. */
  lemma BestOfOneMore(ws: Workers, order: seq<Name>, id: Name, job: Job, byPriority: bool, best: Option<nat>)
    requires id in ws && (forall x | x in order :: x in ws)
    requires BestSoFar(ws, order, job, byPriority, best)
    ensures best.Some? ==> best.value < |order| && Free(ws[order[best.value]])
    ensures var wins := Fits(ws[id], job)
                     && (best.None? || Before(KeyOf(ws[id], byPriority), KeyOf(ws[order[best.value]], byPriority)));
            BestSoFar(ws, order + [id], job, byPriority, if wins then Some(|order|) else best)
  {
    hide Objection, KeyOf;
  }

  ghost predicate Gathered(ws: Workers, order: seq<Name>, job: Job, reasons: set<Reason>)
    requires forall id | id in order :: id in ws
  {
    && (forall why :: why in reasons ==> SomeObject(ws, job, why))
    && (forall j | 0 <= j < |order| && Free(ws[order[j]]) && Objection(ws[order[j]], job).Some? ::
          Objection(ws[order[j]], job).value in reasons)
  }

  lemma GatheredOneMore(ws: Workers, order: seq<Name>, id: Name, job: Job, reasons: set<Reason>)
    requires id in ws && (forall x | x in order :: x in ws) && Gathered(ws, order, job, reasons)
    ensures var why := if Free(ws[id]) then Objection(ws[id], job) else None;
            Gathered(ws, order + [id], job, if why.Some? then reasons + {why.value} else reasons)
  {
    assert Free(ws[id]) && Objection(ws[id], job).Some? ==> Objects(ws[id], job, Objection(ws[id], job).value);
    hide Objection;
  }

  method Place(ws: Workers, order: seq<Name>, job: Job, byPriority: bool) returns (r: Answer)
    requires Lists(order, ws)
    ensures Right(ws, order, job, byPriority, r)
  {
    hide IsFirst, BestSoFar, Gathered, Objection, KeyOf, Before, Foremost, SomeFits, SomeObject;
    var best: Option<nat> := None;
    var reasons: set<Reason> := {};
    NothingYet(ws, job, byPriority);
    for i := 0 to |order|
      invariant BestSoFar(ws, order[..i], job, byPriority, best) && Gathered(ws, order[..i], job, reasons)
    {
      var k := ws[order[i]];
      assert order[..i + 1] == order[..i] + [order[i]];
      BestOfOneMore(ws, order[..i], order[i], job, byPriority, best);
      GatheredOneMore(ws, order[..i], order[i], job, reasons);
      if Free(k) {
        var why := Objection(k, job);
        if why.Some? {
          reasons := reasons + {why.value};
        } else if best.None? || Before(KeyOf(k, byPriority), KeyOf(ws[order[best.value]], byPriority)) {
          best := Some(i);
        }
      }
    }
    assert order[..|order|] == order;
    Finished(ws, order, job, byPriority, best, reasons);
    if best.Some? {
      return Placed(order[best.value]);
    }
    r := Waits(if ArchMismatch in reasons then ArchMismatch
               else if RuntimeMissing in reasons then RuntimeMissing
               else if CapacityShort in reasons then CapacityShort
               else WorkerOffline);
  }

  lemma NothingYet(ws: Workers, job: Job, byPriority: bool)
    ensures BestSoFar(ws, [], job, byPriority, None) && Gathered(ws, [], job, {})
  {
  }

  lemma Finished(ws: Workers, order: seq<Name>, job: Job, byPriority: bool, best: Option<nat>, reasons: set<Reason>)
    requires Lists(order, ws) && BestSoFar(ws, order, job, byPriority, best) && Gathered(ws, order, job, reasons)
    ensures best.Some? ==> best.value < |order| && IsFirst(ws, order, job, byPriority, best.value)
    ensures best.None? ==> !SomeFits(ws, job)
    ensures Foremost(ws, job) == if ArchMismatch in reasons then ArchMismatch
                                 else if RuntimeMissing in reasons then RuntimeMissing
                                 else if CapacityShort in reasons then CapacityShort
                                 else WorkerOffline
  {
    AllReasons(ws, order, job, reasons);
    ForemostOf(ws, job, reasons);
    hide Foremost, SomeObject, Objection;
  }

  lemma ForemostOf(ws: Workers, job: Job, reasons: set<Reason>)
    requires forall why :: why in reasons <==> SomeObject(ws, job, why)
    ensures Foremost(ws, job) == if ArchMismatch in reasons then ArchMismatch
                                 else if RuntimeMissing in reasons then RuntimeMissing
                                 else if CapacityShort in reasons then CapacityShort
                                 else WorkerOffline
  {
    hide SomeObject;
  }

  lemma AllReasons(ws: Workers, order: seq<Name>, job: Job, reasons: set<Reason>)
    requires Lists(order, ws) && Gathered(ws, order, job, reasons)
    ensures forall why :: why in reasons <==> SomeObject(ws, job, why)
  {
  }

  /** The order never decides whether a job is placed or why it waits, and the ties are broken alike: two
      answers to the same question, however the workers are listed and ordered, agree on both. */
  lemma OrderNeverDecides(ws: Workers, job: Job, order: seq<Name>, order': seq<Name>,
                          byPriority: bool, byPriority': bool, r: Answer, r': Answer)
    requires Lists(order, ws) && Lists(order', ws)
    requires Right(ws, order, job, byPriority, r) && Right(ws, order', job, byPriority', r')
    ensures r.Placed? == r'.Placed?
    ensures r.Waits? ==> r' == r
    ensures r.Placed? && order == order' && byPriority == byPriority' ==> r' == r
  {
  }

  /** A placed job is on a free worker whose machine and ceilings allow it, and no other such worker is faster (or,
      under the priority order, has more priority); the other of the two breaks ties, and then the age. */
  lemma PlacedWell(ws: Workers, order: seq<Name>, job: Job, byPriority: bool, id: Name, i: nat, j: nat)
    requires Lists(order, ws) && Right(ws, order, job, byPriority, Placed(id))
    requires i < |order| && order[i] == id && j < |order|
    ensures Free(ws[id]) && ws[id].connected && !ws[id].draining && !ws[id].revoked && Allows(ws[id], job)
    ensures Free(ws[order[j]]) && Allows(ws[order[j]], job) ==>
              var a, b := ws[id], ws[order[j]];
              var p, q, v, w := a.policy.priority, b.policy.priority, a.reported.value.speed, b.reported.value.speed;
              if byPriority then p > q || (p == q && (v > w || (v == w && i <= j)))
              else v > w || (v == w && (p > q || (p == q && i <= j)))
  {
    ReasonsMean(ws[id], job, WorkerOffline);
    if Free(ws[order[j]]) {
      ReasonsMean(ws[order[j]], job, WorkerOffline);
      OrderMeans(ws[order[j]], ws[id]);
      OrderMeans(ws[id], ws[order[j]]);
    }
    hide Objection, KeyOf, Before, Allows;
  }

  lemma PlacedAt(ws: Workers, order: seq<Name>, job: Job, byPriority: bool, id: Name) returns (i: nat)
    requires Lists(order, ws) && Right(ws, order, job, byPriority, Placed(id))
    ensures i < |order| && order[i] == id && id in ws
  {
    i :| IsFirst(ws, order, job, byPriority, i) && order[i] == id;
  }

  /** A job that waits fits no free worker. It waits for the first reason that some free worker gives. */
  lemma WaitsForAReason(ws: Workers, order: seq<Name>, job: Job, byPriority: bool, why: Reason)
    requires Right(ws, order, job, byPriority, Waits(why))
    ensures forall id | id in ws && Free(ws[id]) :: !Allows(ws[id], job)
    ensures why == ArchMismatch <==> exists id :: id in ws && Free(ws[id]) && ws[id].reported.value.arch != job.arch
    ensures why == CapacityShort ==>
              forall id | id in ws && Free(ws[id]) ::
                var m := ws[id].reported.value; m.arch == job.arch && m.os == job.os && job.isolation in m.runtimes
    ensures why != WorkerOffline ==> SomeObject(ws, job, why)
  {
    forall id, r | id in ws && Free(ws[id])
      ensures Fits(ws[id], job) <==> Allows(ws[id], job)
      ensures Objects(ws[id], job, r) ==> SomeObject(ws, job, r)
      ensures r == ArchMismatch ==> (Objects(ws[id], job, r) <==> ws[id].reported.value.arch != job.arch)
      ensures r == RuntimeMissing ==>
                var m := ws[id].reported.value;
                (Objects(ws[id], job, r) <==> m.arch == job.arch && (m.os != job.os || job.isolation !in m.runtimes))
    {
      ReasonsMean(ws[id], job, r);
    }
    hide Objection, Allows;
    if why == CapacityShort {
      forall id | id in ws && Free(ws[id])
        ensures var m := ws[id].reported.value;
                m.arch == job.arch && m.os == job.os && job.isolation in m.runtimes
      {
        assert !Objects(ws[id], job, ArchMismatch) && !Objects(ws[id], job, RuntimeMissing);
      }
    }
    if exists id :: id in ws && Free(ws[id]) && ws[id].reported.value.arch != job.arch {
      var id :| id in ws && Free(ws[id]) && ws[id].reported.value.arch != job.arch;
      assert Objects(ws[id], job, ArchMismatch);
    }
  }

  /** With no free worker at all a job waits because the workers are offline, and only then. */
  lemma OfflineIffNoneFree(ws: Workers, order: seq<Name>, job: Job, byPriority: bool, r: Answer)
    requires Right(ws, order, job, byPriority, r)
    ensures r == Waits(WorkerOffline) <==> forall id | id in ws :: !Free(ws[id])
  {
    forall id | id in ws && Free(ws[id]) ensures SomeFits(ws, job) || Foremost(ws, job) != WorkerOffline {
      if Objection(ws[id], job).Some? {
        assert Objects(ws[id], job, Objection(ws[id], job).value);
      } else {
        assert Fits(ws[id], job);
      }
    }
  }

  /** In every state a fleet reaches, a job lands only on a worker that is connected from a host, is not
      revoked or draining and has its key admitted; and it waits for offline workers exactly when every
      worker is disconnected, revoked or draining. */
  lemma PlacementInEveryRun(ws: seq<World>, ops: seq<Op>, times: seq<int>, n: nat,
                            order: seq<Name>, job: Job, byPriority: bool, r: Answer)
    requires IsRun(ws, ops, times) && n <= |ops|
    requires Lists(order, ws[n].workers) && Right(ws[n].workers, order, job, byPriority, r)
    ensures r.Placed? ==>
              && r.id in ws[n].workers
              && var k := ws[n].workers[r.id];
                 k.connected && !k.revoked && !k.draining && k.host.Some? && k.nodeKey in ws[n].allow
    ensures r == Waits(WorkerOffline) <==>
              forall id | id in ws[n].workers ::
                !ws[n].workers[id].connected || ws[n].workers[id].revoked || ws[n].workers[id].draining
  {
    RunKeeps(ws, ops, times, n);
    var w := ws[n];
    hide IsRun, Moves, Right, Lists;
    if r.Placed? {
      var i := PlacedAt(w.workers, order, job, byPriority, r.id);
      PlacedWell(w.workers, order, job, byPriority, r.id, i, i);
    }
    OfflineIffNoneFree(w.workers, order, job, byPriority, r);
    forall id | id in w.workers
      ensures var k := w.workers[id]; Free(k) <==> k.connected && !k.revoked && !k.draining
    {
      FreeInAFleet(w, id);
    }
  }
}
