/** The host-management contract of a fleet: enrollment secrets, worker identities, the allow-list of
    node keys, connection, drained uninstall, and placement. */
module Fleet {
  import opened Bytes

  type Name = nat
  type Secret = nat
  type NodeKey = nat

  datatype Ceiling = Ceiling(cpu: Option<nat>, memory: Option<nat>, disk: Option<nat>)

  datatype Capacity = Capacity(cpu: nat, memory: nat, disk: nat)

  datatype Policy = Policy(ceiling: Ceiling, priority: int)

  datatype EnrollmentState = Pending | Redeemed | Withdrawn

  datatype Enrollment = Enrollment(secret: Secret, tailcat: bool, state: EnrollmentState, policy: Policy, expires: int)

  datatype Identity = Identity(worker: Name, fingerprint: nat, nodeKey: NodeKey)

  datatype Refusal = Revoked | NotAdmitted | Duplicate | Unknown

  /** What a host is: its hardware, and the runtimes it offers. */
  datatype Machine = Machine(arch: nat, os: nat, runtimes: set<nat>, capacity: Capacity, speed: real)

  datatype Host = Host(machine: Machine, identity: Option<Identity>, running: bool, refusal: Option<Refusal>)

  datatype Worker = Worker(fingerprint: nat, nodeKey: NodeKey, policy: Policy, tailcat: bool,
                           revoked: bool, draining: bool, uninstalling: bool,
                           connected: bool, host: Option<Name>, reported: Option<Machine>, running: nat)

  const LINUX: nat := 0
  const CONTAINER: nat := 0

  /** Everything the fleet keeps. `made` records which enrollment each worker came from. */
  datatype World = World(hosts: map<Name, Host>, enrollments: map<Name, Enrollment>,
                         workers: map<Name, Worker>, allow: map<NodeKey, Name>, made: map<Name, Name>)

  type Hosts = map<Name, Host>
  type Workers = map<Name, Worker>
  type Enrollments = map<Name, Enrollment>

  // ---- What holds of the fleet at every moment

  /** A revoked worker is not connected and its key is not admitted; any other worker's key is admitted
      as its own, and once it has had a host it is connected. */
  ghost predicate WorkersOk(ws: Workers, allow: map<NodeKey, Name>) {
    && (forall id | id in ws && ws[id].revoked :: !ws[id].connected && ws[id].nodeKey !in allow)
    && (forall id | id in ws && !ws[id].revoked :: ws[id].nodeKey in allow && allow[ws[id].nodeKey] == id)
    && (forall id | id in ws && !ws[id].revoked && ws[id].host.Some? :: ws[id].connected)
    && (forall id | id in ws && ws[id].connected ::
          ws[id].host.Some? && ws[id].reported.Some? && ws[id].reported.value.speed > 0.0)
    && (forall n | n in allow :: allow[n] in ws && ws[allow[n]].nodeKey == n)
  }

  /** Every identity on a host is that of a worker. */
  ghost predicate HostsOk(hs: Hosts, ws: Workers) {
    && (forall h | h in hs :: hs[h].machine.speed > 0.0)
    && (forall h | h in hs && hs[h].identity.Some? ::
          var i := hs[h].identity.value;
          i.worker in ws && ws[i.worker].nodeKey == i.nodeKey)
  }

  /** Each worker came from its own enrollment, and a pending enrollment has made none. */
  ghost predicate MadeOk(made: map<Name, Name>, ids: set<Name>, es: Enrollments) {
    && made.Keys == ids
    && (forall id | id in made :: made[id] in es && es[made[id]].state != Pending)
    && (forall i, j | i in made && j in made && i != j :: made[i] != made[j])
    && (forall a, b | a in es && b in es && a != b :: es[a].secret != es[b].secret)
  }

  ghost predicate Ok(w: World) {
    WorkersOk(w.workers, w.allow) && HostsOk(w.hosts, w.workers) && MadeOk(w.made, w.workers.Keys, w.enrollments)
  }

  // ---- What one operation may do

  /** The host that has the worker's connection still has its identity. */
  predicate Holds(hs: Hosts, ws: Workers, id: Name)
    requires id in ws
  {
    var k := ws[id];
    && k.connected && k.host.Some? && k.host.value in hs
    && hs[k.host.value].identity.Some? && hs[k.host.value].identity.value.worker == id
  }

  /** Workers stay, a revoked one stays revoked, and one is revoked only while it is asked to go and runs
      nothing. */
  ghost predicate WorkersStay(a: Workers, b: Workers) {
    forall id | id in a ::
      && id in b && (a[id].revoked ==> b[id].revoked)
      && (!a[id].revoked && b[id].revoked ==> b[id].uninstalling && b[id].running == 0)
  }

  ghost predicate MadeStays(a: map<Name, Name>, b: map<Name, Name>) {
    forall id | id in a :: id in b && b[id] == a[id]
  }

  /** Enrollments stay, and one that is no longer pending never is again. */
  ghost predicate EnrollmentsStay(a: Enrollments, b: Enrollments) {
    forall t | t in a ::
      && t in b && b[t].secret == a[t].secret && b[t].expires == a[t].expires
      && (a[t].state != Pending ==> b[t].state != Pending)
  }

  /** A worker is made only from an enrollment that was pending and had not expired. */
  ghost predicate MakesRightly(a: World, b: World, now: int) {
    forall id | id in b.workers && id !in a.workers ::
      && id in b.made && b.made[id] in a.enrollments
      && a.enrollments[b.made[id]].state == Pending && now <= a.enrollments[b.made[id]].expires
  }

  /** The host that holds a connection and kept its identity is not replaced by another. */
  ghost predicate HoldersStay(a: World, b: World) {
    forall id | id in a.workers && id in b.workers && Holds(a.hosts, a.workers, id) ::
      b.workers[id].host == a.workers[id].host
  }

  ghost predicate Moves(a: World, b: World, now: int) {
    && a.hosts.Keys == b.hosts.Keys
    && WorkersStay(a.workers, b.workers) && MadeStays(a.made, b.made)
    && EnrollmentsStay(a.enrollments, b.enrollments)
    && MakesRightly(a, b, now) && HoldersStay(a, b)
  }

  lemma WorkersStaySame(a: Workers)
    ensures WorkersStay(a, a)
  {
  }

  lemma MadeStaysSame(a: map<Name, Name>)
    ensures MadeStays(a, a)
  {
  }

  lemma EnrollmentsStaySame(a: Enrollments)
    ensures EnrollmentsStay(a, a)
  {
  }

  /** Two operations in a row, when the first leaves every holder in place. */
  lemma MovesTwice(a: World, b: World, c: World, now: int)
    requires Moves(a, b, now) && Moves(b, c, now)
    requires forall id | id in a.workers && id in b.workers && Holds(a.hosts, a.workers, id) ::
               Holds(b.hosts, b.workers, id)
    requires forall id | id in a.workers && id in b.workers :: b.workers[id].revoked ==> a.workers[id].revoked
    requires forall id | id in c.workers && id !in b.workers ::
               c.made[id] in a.enrollments && b.enrollments[c.made[id]] == a.enrollments[c.made[id]]
    ensures Moves(a, c, now)
  {
    hide Holds;
  }

  // ---- The operations as functions of the fleet

  function WithEnrollment(w: World, tok: Name, e: Enrollment): World {
    w.(enrollments := w.enrollments[tok := e])
  }

  function WithHost(w: World, h: Name, host: Host): World {
    w.(hosts := w.hosts[h := host])
  }

  function WithWorker(w: World, id: Name, k: Worker): World {
    w.(workers := w.workers[id := k])
  }

  function Made(w: World, tok: Name, i: Identity): World
    requires tok in w.enrollments
  {
    var e := w.enrollments[tok];
    World(w.hosts, w.enrollments[tok := e.(state := Redeemed)],
          w.workers[i.worker := Worker(i.fingerprint, i.nodeKey, e.policy, e.tailcat,
                                       false, false, false, false, None, None, 0)],
          w.allow[i.nodeKey := i.worker], w.made[i.worker := tok])
  }

  /** The identity, or a part of it that must be unique, belongs to a worker already. */
  predicate Same(id: Name, k: Worker, i: Identity) {
    id == i.worker || k.fingerprint == i.fingerprint || k.nodeKey == i.nodeKey
  }

  ghost predicate Taken(w: World, i: Identity) {
    exists id :: id in w.workers && Same(id, w.workers[id], i)
  }

  ghost predicate Redeemable(w: World, secret: Secret, now: int) {
    exists t :: Spends(w, t, secret, now)
  }

  /** The enrollment of the secret can be spent. */
  predicate Spends(w: World, tok: Name, secret: Secret, now: int) {
    && tok in w.enrollments && w.enrollments[tok].secret == secret
    && w.enrollments[tok].state == Pending && now <= w.enrollments[tok].expires
  }

  /** Another host has this worker's connection and its identity. */
  predicate HeldElsewhere(w: World, id: Name, h: Name)
    requires id in w.workers
  {
    Holds(w.hosts, w.workers, id) && w.workers[id].host != Some(h)
  }

  /** Why a starting host is not let in, or `None`. */
  function StartRefusal(w: World, h: Name): Option<Refusal>
    requires h in w.hosts && w.hosts[h].identity.Some?
  {
    var i := w.hosts[h].identity.value;
    if i.worker !in w.workers then Some(Unknown)
    else if w.workers[i.worker].revoked then Some(Revoked)
    else if i.nodeKey !in w.allow && w.workers[i.worker].tailcat then Some(NotAdmitted)
    else if HeldElsewhere(w, i.worker, h) then Some(Duplicate)
    else None
  }

  function Started(w: World, h: Name): World
    requires h in w.hosts
  {
    var host := w.hosts[h].(running := true, refusal := None);
    if host.identity.None? then WithHost(w, h, host)
    else
      var why := StartRefusal(w, h);
      if why.Some? then WithHost(w, h, host.(refusal := why))
      else
        var id := host.identity.value.worker;
        var k := w.workers[id].(connected := true, host := Some(h), reported := Some(host.machine));
        WithWorker(WithHost(w, h, host), id, k)
  }

  /** The first half of a restart: the host's own connection is dropped. */
  function Disconnected(w: World, h: Name): World
    requires h in w.hosts
  {
    var i := w.hosts[h].identity;
    if i.Some? && i.value.worker in w.workers && w.workers[i.value.worker].host == Some(h)
    then WithWorker(w, i.value.worker, w.workers[i.value.worker].(connected := false))
    else w
  }

  predicate Due(k: Worker) {
    k.uninstalling && k.running == 0 && !k.revoked
  }

  /** The workers of `ids` that are due are revoked, and their keys leave the allow-list. */
  function Settled(w: World, ids: set<Name>): World {
    w.(workers := map id | id in w.workers ::
         if id in ids && Due(w.workers[id]) then w.workers[id].(revoked := true, connected := false) else w.workers[id],
       allow := map n | n in w.allow
                     && !(w.allow[n] in w.workers && w.allow[n] in ids && Due(w.workers[w.allow[n]])) :: w.allow[n])
  }

  // ---- Each keeps the fleet in order

  lemma EnrollmentKeeps(w: World, tok: Name, e: Enrollment, now: int)
    requires Ok(w)
    requires tok in w.enrollments ==>
               && e.secret == w.enrollments[tok].secret && e.expires == w.enrollments[tok].expires
               && e.state == Withdrawn
    requires tok !in w.enrollments ==> forall t | t in w.enrollments :: w.enrollments[t].secret != e.secret
    ensures Ok(WithEnrollment(w, tok, e)) && Moves(w, WithEnrollment(w, tok, e), now)
  {
    hide Holds, WorkersOk, HostsOk, WorkersStay, MadeStays;
    WorkersStaySame(w.workers);
    MadeStaysSame(w.made);
  }

  lemma HostKeeps(w: World, h: Name, host: Host, now: int)
    requires Ok(w) && h in w.hosts && host.machine == w.hosts[h].machine
    requires host.identity.Some? ==>
               && host.identity.value.worker in w.workers
               && w.workers[host.identity.value.worker].nodeKey == host.identity.value.nodeKey
    ensures Ok(WithHost(w, h, host)) && Moves(w, WithHost(w, h, host), now)
  {
    hide Holds, WorkersOk, MadeOk, WorkersStay, MadeStays, EnrollmentsStay;
    WorkersStaySame(w.workers);
    MadeStaysSame(w.made);
    EnrollmentsStaySame(w.enrollments);
  }

  /** The parts of a worker that say who it is and where it stands. */
  predicate SameCore(k: Worker, m: Worker) {
    k.(policy := m.policy, draining := m.draining, uninstalling := m.uninstalling, running := m.running) == m
  }

  lemma CoreWorkersOk(ws: Workers, allow: map<NodeKey, Name>, id: Name, k: Worker)
    requires WorkersOk(ws, allow) && id in ws && SameCore(k, ws[id])
    ensures WorkersOk(ws[id := k], allow) && WorkersStay(ws, ws[id := k])
  {
  }

  lemma CoreHolds(hs: Hosts, ws: Workers, id: Name, k: Worker, j: Name)
    requires id in ws && j in ws && SameCore(k, ws[id])
    ensures Holds(hs, ws[id := k], j) == Holds(hs, ws, j)
    ensures ws[id := k][j].host == ws[j].host && ws[id := k][j].revoked == ws[j].revoked
  {
  }

  lemma SameKeyHostsOk(hs: Hosts, ws: Workers, id: Name, k: Worker)
    requires HostsOk(hs, ws) && id in ws && k.nodeKey == ws[id].nodeKey
    ensures HostsOk(hs, ws[id := k])
  {
  }

  lemma WorkerKeeps(w: World, id: Name, k: Worker, now: int)
    requires Ok(w) && id in w.workers && SameCore(k, w.workers[id])
    ensures Ok(WithWorker(w, id, k)) && Moves(w, WithWorker(w, id, k), now)
    ensures forall j | j in w.workers && Holds(w.hosts, w.workers, j) :: Holds(w.hosts, WithWorker(w, id, k).workers, j)
    ensures forall j | j in w.workers :: WithWorker(w, id, k).workers[j].revoked == w.workers[j].revoked
  {
    var ws := w.workers[id := k];
    assert ws.Keys == w.workers.Keys && k.nodeKey == w.workers[id].nodeKey;
    hide MadeOk, MadeStays, EnrollmentsStay, WorkersOk, HostsOk, WorkersStay, Holds, SameCore;
    CoreWorkersOk(w.workers, w.allow, id, k);
    SameKeyHostsOk(w.hosts, w.workers, id, k);
    MadeStaysSame(w.made);
    EnrollmentsStaySame(w.enrollments);
    forall j | j in w.workers
      ensures Holds(w.hosts, ws, j) == Holds(w.hosts, w.workers, j)
      ensures ws[j].host == w.workers[j].host && ws[j].revoked == w.workers[j].revoked
    {
      CoreHolds(w.hosts, w.workers, id, k, j);
    }
  }

  lemma NewWorkersOk(ws: Workers, allow: map<NodeKey, Name>, id: Name, k: Worker)
    requires WorkersOk(ws, allow) && id !in ws && forall j | j in ws :: ws[j].nodeKey != k.nodeKey
    requires !k.revoked && !k.connected && k.host.None?
    ensures WorkersOk(ws[id := k], allow[k.nodeKey := id]) && WorkersStay(ws, ws[id := k])
  {
    assert k.nodeKey !in allow;
  }

  lemma NewHostsOk(hs: Hosts, ws: Workers, id: Name, k: Worker)
    requires HostsOk(hs, ws) && id !in ws
    ensures HostsOk(hs, ws[id := k])
  {
  }

  lemma NewMadeOk(made: map<Name, Name>, ids: set<Name>, es: Enrollments, tok: Name, id: Name)
    requires MadeOk(made, ids, es) && tok in es && es[tok].state == Pending && id !in ids
    ensures MadeOk(made[id := tok], ids + {id}, es[tok := es[tok].(state := Redeemed)])
    ensures MadeStays(made, made[id := tok]) && EnrollmentsStay(es, es[tok := es[tok].(state := Redeemed)])
  {
  }

  lemma MadeKeeps(w: World, tok: Name, i: Identity, now: int)
    requires Ok(w) && tok in w.enrollments && !Taken(w, i)
    requires w.enrollments[tok].state == Pending && now <= w.enrollments[tok].expires
    ensures Ok(Made(w, tok, i)) && Moves(w, Made(w, tok, i), now)
    ensures forall j | j in w.workers :: j != i.worker && Made(w, tok, i).workers[j] == w.workers[j]
  {
    hide MadeOk, MadeStays, EnrollmentsStay, WorkersOk, HostsOk, WorkersStay, Holds;
    var b := Made(w, tok, i);
    NotTaken(w, i);
    hide Taken;
    assert b.workers.Keys == w.workers.Keys + {i.worker};
    NewWorkersOk(w.workers, w.allow, i.worker, b.workers[i.worker]);
    NewHostsOk(w.hosts, w.workers, i.worker, b.workers[i.worker]);
    MadeIds(w);
    NewMadeOk(w.made, w.workers.Keys, w.enrollments, tok, i.worker);
  }

  lemma NotTaken(w: World, i: Identity)
    requires !Taken(w, i)
    ensures i.worker !in w.workers && forall j | j in w.workers :: w.workers[j].nodeKey != i.nodeKey
  {
    assert forall id | id in w.workers :: !Same(id, w.workers[id], i);
  }

  lemma MadeIds(w: World)
    requires Ok(w)
    ensures w.made.Keys == w.workers.Keys
  {
  }

  // ---- Starting and restarting

  lemma ConnectedWorkersOk(ws: Workers, allow: map<NodeKey, Name>, id: Name, h: Name, m: Machine)
    requires WorkersOk(ws, allow) && id in ws && !ws[id].revoked && m.speed > 0.0
    ensures WorkersOk(ws[id := ws[id].(connected := true, host := Some(h), reported := Some(m))], allow)
    ensures WorkersStay(ws, ws[id := ws[id].(connected := true, host := Some(h), reported := Some(m))])
  {
  }

  /** Starting a host is in order whether or not its own connection was dropped first. */
  lemma StartKeeps(w: World, h: Name, now: int, dropped: bool)
    requires Ok(w) && h in w.hosts
    ensures var a := if dropped then Disconnected(w, h) else w;
            Ok(Started(a, h)) && Moves(w, Started(a, h), now)
  {
    var a := if dropped then Disconnected(w, h) else w;
    var host := w.hosts[h].(running := true, refusal := None);
    if host.identity.None? {
      HostKeeps(w, h, host, now);
    } else {
      IdentityIsAWorkers(w, h);
      if StartRefusal(a, h).Some? {
        StartRefused(w, h, dropped);
        HostKeeps(w, h, host.(refusal := StartRefusal(a, h)), now);
      } else {
        ConnectKeeps(w, h, now, dropped);
      }
    }
  }

  lemma IdentityIsAWorkers(w: World, h: Name)
    requires Ok(w) && h in w.hosts && w.hosts[h].identity.Some?
    ensures var i := w.hosts[h].identity.value;
            && i.worker in w.workers && w.workers[i.worker].nodeKey == i.nodeKey
            && (!w.workers[i.worker].revoked ==> i.nodeKey in w.allow)
            && (w.workers[i.worker].revoked ==> !w.workers[i.worker].connected)
            && w.hosts[h].machine.speed > 0.0
  {
  }

  /** A refused start changes no worker: a dropped connection is refused only if it was revoked. */
  lemma StartRefused(w: World, h: Name, dropped: bool)
    requires Ok(w) && h in w.hosts && w.hosts[h].identity.Some?
    requires StartRefusal(if dropped then Disconnected(w, h) else w, h).Some?
    ensures dropped ==> Disconnected(w, h) == w
  {
    IdentityIsAWorkers(w, h);
    var id := w.hosts[h].identity.value.worker;
    if dropped && w.workers[id].host == Some(h) {
      assert w.workers[id].revoked;
      assert w.workers[id := w.workers[id].(connected := false)] == w.workers;
    }
  }

  lemma ConnectKeeps(w: World, h: Name, now: int, dropped: bool)
    requires Ok(w) && h in w.hosts && w.hosts[h].identity.Some?
    requires StartRefusal(if dropped then Disconnected(w, h) else w, h).None?
    ensures var a := if dropped then Disconnected(w, h) else w;
            Ok(Started(a, h)) && Moves(w, Started(a, h), now)
  {
    hide MadeOk, MadeStays, EnrollmentsStay, WorkersOk, HostsOk, WorkersStay, Holds,
         StartRefusal, Disconnected, Started;
    var host := w.hosts[h].(running := true, refusal := None);
    var id := host.identity.value.worker;
    IdentityIsAWorkers(w, h);
    ConnectHolds(w, h, dropped);
    StartedConnects(w, h, dropped);
    var k := w.workers[id].(connected := true, host := Some(h), reported := Some(host.machine));
    var b := WithWorker(WithHost(w, h, host), id, k);
    assert b.workers.Keys == w.workers.Keys;
    ConnectedWorkersOk(w.workers, w.allow, id, h, host.machine);
    HostKeeps(w, h, host, now);
    SameKeyHostsOk(b.hosts, w.workers, id, k);
    MadeStaysSame(w.made);
    EnrollmentsStaySame(w.enrollments);
  }

  lemma StartedConnects(w: World, h: Name, dropped: bool)
    requires h in w.hosts && w.hosts[h].identity.Some? && w.hosts[h].identity.value.worker in w.workers
    requires StartRefusal(if dropped then Disconnected(w, h) else w, h).None?
    ensures var host := w.hosts[h].(running := true, refusal := None);
            var id := host.identity.value.worker;
            var k := w.workers[id].(connected := true, host := Some(h), reported := Some(host.machine));
            Started(if dropped then Disconnected(w, h) else w, h) == WithWorker(WithHost(w, h, host), id, k)
  {
    hide StartRefusal;
    var a := if dropped then Disconnected(w, h) else w;
    var host := w.hosts[h].(running := true, refusal := None);
    var id := host.identity.value.worker;
    var k := w.workers[id].(connected := true, host := Some(h), reported := Some(host.machine));
    assert a.workers[id := k] == w.workers[id := k];
  }

  /** Whoever held the connection is the host that starts. */
  lemma ConnectHolds(w: World, h: Name, dropped: bool)
    requires Ok(w) && h in w.hosts && w.hosts[h].identity.Some? && w.hosts[h].identity.value.worker in w.workers
    requires StartRefusal(if dropped then Disconnected(w, h) else w, h).None?
    ensures var id := w.hosts[h].identity.value.worker;
            Holds(w.hosts, w.workers, id) ==> w.workers[id].host == Some(h)
    ensures !w.workers[w.hosts[h].identity.value.worker].revoked
  {
  }

  // ---- Settling

  lemma SettledWorkersOk(w: World, ids: set<Name>)
    requires WorkersOk(w.workers, w.allow)
    ensures WorkersOk(Settled(w, ids).workers, Settled(w, ids).allow)
    ensures WorkersStay(w.workers, Settled(w, ids).workers)
    ensures Settled(w, ids).workers.Keys == w.workers.Keys
  {
  }

  lemma SettledHostsOk(w: World, ids: set<Name>)
    requires HostsOk(w.hosts, w.workers)
    ensures HostsOk(w.hosts, Settled(w, ids).workers)
  {
  }

  lemma SettleKeeps(w: World, ids: set<Name>, now: int)
    requires Ok(w)
    ensures Ok(Settled(w, ids)) && Moves(w, Settled(w, ids), now)
  {
    SettledWorkersOk(w, ids);
    SettledHostsOk(w, ids);
    MadeStaysSame(w.made);
    EnrollmentsStaySame(w.enrollments);
    hide MadeOk, MadeStays, EnrollmentsStay, WorkersOk, HostsOk, WorkersStay, Holds;
  }

  /** Settling one more worker. */
  lemma SettledOneMore(w: World, ids: set<Name>, id: Name)
    requires WorkersOk(w.workers, w.allow) && id in w.workers && id !in ids
    ensures var s := Settled(w, ids);
            var k := s.workers[id];
            Settled(w, ids + {id}) == if Due(k)
              then s.(workers := s.workers[id := k.(revoked := true, connected := false)],
                      allow := s.allow - {k.nodeKey})
              else s
  {
    SettledWorkersMore(w, ids, id);
    SettledAllowMore(w, ids, id);
    hide WorkersOk, Due;
  }

  lemma SettledWorkersMore(w: World, ids: set<Name>, id: Name)
    requires id in w.workers && id !in ids
    ensures var s := Settled(w, ids);
            var k := w.workers[id];
            && s.workers[id] == k
            && Settled(w, ids + {id}).workers ==
                 if Due(k) then s.workers[id := k.(revoked := true, connected := false)] else s.workers
  {
    hide Due;
    var s, t := Settled(w, ids), Settled(w, ids + {id});
    var k := w.workers[id];
    if Due(k) {
      assert t.workers == s.workers[id := k.(revoked := true, connected := false)];
    } else {
      assert t.workers == s.workers;
    }
  }

  lemma SettledAllowMore(w: World, ids: set<Name>, id: Name)
    requires WorkersOk(w.workers, w.allow) && id in w.workers && id !in ids
    ensures var s := Settled(w, ids);
            var k := w.workers[id];
            Settled(w, ids + {id}).allow == if Due(k) then s.allow - {k.nodeKey} else s.allow
  {
    var s, t := Settled(w, ids), Settled(w, ids + {id});
    var k := w.workers[id];
    if Due(k) {
      assert !k.revoked && k.nodeKey in w.allow && w.allow[k.nodeKey] == id;
      assert forall n | n in w.allow :: w.allow[n] == id <==> n == k.nodeKey;
      hide WorkersOk, Due;
      assert t.allow == s.allow - {k.nodeKey};
    } else {
      assert t.allow == s.allow;
    }
  }

  lemma SettledNone(w: World)
    ensures Settled(w, {}) == w
  {
    assert Settled(w, {}).workers == w.workers && Settled(w, {}).allow == w.allow;
  }

  /** A worker's own fields change, and then the fleet settles. */
  lemma ChangeAndSettleKeeps(w: World, id: Name, k: Worker, now: int)
    requires Ok(w) && id in w.workers && SameCore(k, w.workers[id])
    ensures var b := WithWorker(w, id, k);
            Ok(Settled(b, b.workers.Keys)) && Moves(w, Settled(b, b.workers.Keys), now)
  {
    var b := WithWorker(w, id, k);
    WorkerKeeps(w, id, k, now);
    SettleKeeps(b, b.workers.Keys, now);
    hide Ok, Moves, Holds, SameCore, Settled;
    SettledKeys(b, b.workers.Keys);
    MovesTwice(w, b, Settled(b, b.workers.Keys), now);
  }

  lemma SettledKeys(w: World, ids: set<Name>)
    ensures Settled(w, ids).workers.Keys == w.workers.Keys
  {
  }

  // ---- Enrolling

  function Joined(w: World, tok: Name, i: Identity, h: Name): World
    requires tok in w.enrollments && h in w.hosts
  {
    WithHost(Made(w, tok, i), h, w.hosts[h].(identity := Some(i)))
  }

  lemma JoinedKeeps(w: World, tok: Name, i: Identity, h: Name, now: int)
    requires Ok(w) && tok in w.enrollments && !Taken(w, i) && h in w.hosts && w.hosts[h].identity.None?
    requires w.enrollments[tok].state == Pending && now <= w.enrollments[tok].expires
    ensures Ok(Joined(w, tok, i, h)) && Moves(w, Joined(w, tok, i, h), now)
    ensures forall j | j in w.workers :: j != i.worker && Joined(w, tok, i, h).workers[j] == w.workers[j]
  {
    var b := Made(w, tok, i);
    var c := Joined(w, tok, i, h);
    hide Ok, Moves, Holds, Taken;
    MadeKeeps(w, tok, i, now);
    HostKeeps(b, h, w.hosts[h].(identity := Some(i)), now);
    forall id | id in w.workers
      ensures Holds(b.hosts, b.workers, id) == Holds(w.hosts, w.workers, id)
    {
      SameHolds(w.hosts, b.hosts, w.workers, b.workers, id);
    }
    MovesTwice(w, b, c, now);
  }

  lemma SameHolds(hs: Hosts, hs': Hosts, ws: Workers, ws': Workers, id: Name)
    requires id in ws && id in ws' && ws'[id] == ws[id]
    requires forall h | h in hs :: h in hs' && (hs[h].identity.Some? ==> hs'[h] == hs[h])
    ensures Holds(hs, ws, id) ==> Holds(hs', ws', id)
    ensures hs == hs' ==> Holds(hs, ws, id) == Holds(hs', ws', id)
  {
  }

  lemma JoinKeeps(w: World, tok: Name, i: Identity, h: Name, now: int)
    requires Ok(w) && tok in w.enrollments && !Taken(w, i) && h in w.hosts && w.hosts[h].identity.None?
    requires w.enrollments[tok].state == Pending && now <= w.enrollments[tok].expires
    ensures Ok(Started(Joined(w, tok, i, h), h)) && Moves(w, Started(Joined(w, tok, i, h), h), now)
  {
    hide *;
    var c := Joined(w, tok, i, h);
    JoinedKeeps(w, tok, i, h, now);
    JoinedHosts(w, tok, i, h);
    StartKeeps(c, h, now, false);
    StartedKeys(c, h);
    forall id | id in w.workers
      ensures Holds(w.hosts, w.workers, id) ==> Holds(c.hosts, c.workers, id)
    {
      SameHolds(w.hosts, c.hosts, w.workers, c.workers, id);
    }
    MovesTwice(w, c, Started(c, h), now);
  }

  lemma JoinedHosts(w: World, tok: Name, i: Identity, h: Name)
    requires tok in w.enrollments && h in w.hosts && w.hosts[h].identity.None?
    ensures h in Joined(w, tok, i, h).hosts
    ensures forall x | x in w.hosts :: x in Joined(w, tok, i, h).hosts
              && (w.hosts[x].identity.Some? ==> Joined(w, tok, i, h).hosts[x] == w.hosts[x])
    ensures forall j | j in w.workers :: j in Joined(w, tok, i, h).workers
  {
  }

  lemma StartedKeys(w: World, h: Name)
    requires Ok(w) && h in w.hosts
    ensures Started(w, h).workers.Keys == w.workers.Keys && Started(w, h).made == w.made
  {
    hide WorkersOk, MadeOk;
    if w.hosts[h].identity.Some? {
      var i := w.hosts[h].identity.value;
      assert i.worker in w.workers;
      hide StartRefusal;
    }
  }

  /** The secret of a spent enrollment has no other. */
  lemma MadeIsSpent(w: World, tok: Name, i: Identity)
    requires Ok(w) && tok in w.enrollments
    ensures forall later :: !Redeemable(Made(w, tok, i), w.enrollments[tok].secret, later)
    ensures Taken(Made(w, tok, i), i)
  {
    hide WorkersOk, HostsOk;
    assert Same(i.worker, Made(w, tok, i).workers[i.worker], i);
  }

  lemma MadeHosts(w: World, tok: Name, i: Identity)
    requires tok in w.enrollments
    ensures Made(w, tok, i).hosts == w.hosts
  {
  }

  lemma SelfMoves(w: World, now: int)
    ensures Moves(w, w, now)
  {
  }

  // ---- The operations together

  /** The operations that change the fleet. */
  datatype Op =
    | DoIssue(tok: Name, e: Enrollment)
    | DoWithdraw(tok: Name)
    | DoEnroll(tok: Name, i: Identity, h: Name)
    | DoUninstallHost(h: Name)
    | DoStart(h: Name)
    | DoRestart(h: Name)
    | DoClone(src: Name, dst: Name)
    | DoStartJob(id: Name)
    | DoFinishJobs(id: Name)
    | DoRequestUninstall(id: Name)
    | DoSetPolicy(id: Name, policy: Policy)

  predicate Next(a: World, op: Op, now: int, b: World) {
    match op
    case DoIssue(tok, e) =>
      && tok !in a.enrollments && e.state == Pending
      && (forall t | t in a.enrollments :: a.enrollments[t].secret != e.secret)
      && b == WithEnrollment(a, tok, e)
    case DoWithdraw(tok) =>
      tok in a.enrollments && b == WithEnrollment(a, tok, a.enrollments[tok].(state := Withdrawn))
    case DoEnroll(tok, i, h) =>
      && tok in a.enrollments && a.enrollments[tok].state == Pending && now <= a.enrollments[tok].expires
      && h in a.hosts && a.hosts[h].identity.None?
      && (forall id | id in a.workers :: !Same(id, a.workers[id], i))
      && b == Started(Joined(a, tok, i, h), h)
    case DoUninstallHost(h) => h in a.hosts && b == WithHost(a, h, a.hosts[h].(running := false, identity := None))
    case DoStart(h) => h in a.hosts && b == Started(a, h)
    case DoRestart(h) => h in a.hosts && b == Started(Disconnected(a, h), h)
    case DoClone(src, dst) =>
      && src in a.hosts && dst in a.hosts && a.hosts[src].identity.Some?
      && b == WithHost(a, dst, a.hosts[dst].(identity := a.hosts[src].identity))
    case DoStartJob(id) =>
      id in a.workers && b == WithWorker(a, id, a.workers[id].(running := a.workers[id].running + 1))
    case DoFinishJobs(id) =>
      id in a.workers && var c := WithWorker(a, id, a.workers[id].(running := 0)); b == Settled(c, c.workers.Keys)
    case DoRequestUninstall(id) =>
      && id in a.workers
      && var c := WithWorker(a, id, a.workers[id].(uninstalling := true, draining := true));
         b == Settled(c, c.workers.Keys)
    case DoSetPolicy(id, policy) =>
      id in a.workers && b == WithWorker(a, id, a.workers[id].(policy := policy))
  }

  lemma NextKeeps(a: World, op: Op, now: int, b: World)
    requires Ok(a) && Next(a, op, now, b)
    ensures Ok(b) && Moves(a, b, now)
  {
    hide WorkersOk, HostsOk, MadeOk, WorkersStay, MadeStays, EnrollmentsStay, MakesRightly, HoldersStay,
         Started, Settled, Joined, Disconnected, Holds, Moves;
    match op
    case DoIssue(tok, e) => EnrollmentKeeps(a, tok, e, now);
    case DoWithdraw(tok) => EnrollmentKeeps(a, tok, a.enrollments[tok].(state := Withdrawn), now);
    case DoEnroll(tok, i, h) => JoinKeeps(a, tok, i, h, now);
    case DoUninstallHost(h) => HostKeeps(a, h, a.hosts[h].(running := false, identity := None), now);
    case DoStart(h) => StartKeeps(a, h, now, false);
    case DoRestart(h) => StartKeeps(a, h, now, true);
    case DoClone(src, dst) =>
      IdentityIsAWorkers(a, src);
      HostKeeps(a, dst, a.hosts[dst].(identity := a.hosts[src].identity), now);
    case DoStartJob(id) => WorkerKeeps(a, id, a.workers[id].(running := a.workers[id].running + 1), now);
    case DoFinishJobs(id) => ChangeAndSettleKeeps(a, id, a.workers[id].(running := 0), now);
    case DoRequestUninstall(id) =>
      ChangeAndSettleKeeps(a, id, a.workers[id].(uninstalling := true, draining := true), now);
    case DoSetPolicy(id, policy) => WorkerKeeps(a, id, a.workers[id].(policy := policy), now);
  }

  // ---- What the operations do, field by field

  /** Another host that has the worker's connection and its identity. */
  predicate Elsewhere(w: World, id: Name, h: Name, x: Name)
    requires id in w.workers
  {
    && x in w.hosts && x != h && w.hosts[x].identity.Some? && w.hosts[x].identity.value.worker == id
    && w.workers[id].connected && w.workers[id].host == Some(x)
  }

  ghost predicate IsElsewhere(w: World, id: Name, h: Name)
    requires id in w.workers
  {
    exists x :: Elsewhere(w, id, h, x)
  }

  /** A start: only this host and its worker change. It is refused exactly when its worker is revoked or is
      connected from another host that has the same identity; otherwise the worker is connected from here. */
  ghost predicate Starts(a: World, h: Name, b: World) {
    && h in a.hosts && b.hosts.Keys == a.hosts.Keys && (forall x | x in a.hosts && x != h :: b.hosts[x] == a.hosts[x])
    && b.enrollments == a.enrollments && b.allow == a.allow && b.made == a.made
    && b.hosts[h].running && b.hosts[h].machine == a.hosts[h].machine && b.hosts[h].identity == a.hosts[h].identity
    && match a.hosts[h].identity
       case None => b.hosts[h].refusal.None? && b.workers == a.workers
       case Some(i) =>
         && i.worker in a.workers
         && b.hosts[h].refusal == (if a.workers[i.worker].revoked then Some(Revoked)
                                   else if IsElsewhere(a, i.worker, h) then Some(Duplicate) else None)
         && b.workers == if b.hosts[h].refusal.Some? then a.workers
                         else a.workers[i.worker := a.workers[i.worker].(connected := true, host := Some(h),
                                                                         reported := Some(a.hosts[h].machine))]
  }

  lemma ElsewhereMeans(w: World, id: Name, h: Name)
    requires id in w.workers
    ensures IsElsewhere(w, id, h) <==> HeldElsewhere(w, id, h)
  {
    if HeldElsewhere(w, id, h) {
      assert Elsewhere(w, id, h, w.workers[id].host.value);
    }
  }

  lemma StartedStarts(w: World, h: Name)
    requires Ok(w) && h in w.hosts
    ensures Starts(w, h, Started(w, h))
  {
    hide MadeOk, HeldElsewhere, IsElsewhere;
    if w.hosts[h].identity.Some? {
      ElsewhereMeans(w, w.hosts[h].identity.value.worker, h);
    }
  }

  /** A restart comes to the same: the host's own connection is never in its way. */
  lemma RestartedStarts(w: World, h: Name)
    requires Ok(w) && h in w.hosts
    ensures Starts(w, h, Started(Disconnected(w, h), h))
  {
    hide Starts, Started, Disconnected, Ok;
    var i := w.hosts[h].identity;
    if i.Some? && i.value.worker in w.workers && w.workers[i.value.worker].host == Some(h) {
      OwnRestart(w, h, i.value);
    } else {
      NothingDropped(w, h);
      StartedStarts(w, h);
    }
  }

  lemma NothingDropped(w: World, h: Name)
    requires h in w.hosts
    requires var i := w.hosts[h].identity;
             !(i.Some? && i.value.worker in w.workers && w.workers[i.value.worker].host == Some(h))
    ensures Disconnected(w, h) == w
  {
  }

  lemma OwnRestart(w: World, h: Name, i: Identity)
    requires Ok(w) && h in w.hosts && w.hosts[h].identity == Some(i)
    requires i.worker in w.workers && w.workers[i.worker].host == Some(h)
    ensures Starts(w, h, Started(Disconnected(w, h), h))
  {
    hide Starts, Started, Disconnected, IsElsewhere;
    var k := w.workers[i.worker];
    if k.revoked {
      RevokedIsDropped(w, h, i);
      StartedStarts(w, h);
    } else {
      assert k.nodeKey == i.nodeKey && i.nodeKey in w.allow;
      hide Ok;
      LetInAgain(w, h, i);
      LetInStarts(w, h, i);
    }
  }

  lemma RevokedIsDropped(w: World, h: Name, i: Identity)
    requires Ok(w) && h in w.hosts && w.hosts[h].identity == Some(i)
    requires i.worker in w.workers && w.workers[i.worker].revoked
    ensures Disconnected(w, h) == w
  {
    var k := w.workers[i.worker];
    assert k.(connected := false) == k && w.workers[i.worker := k] == w.workers;
    hide Ok;
  }

  lemma LetInStarts(w: World, h: Name, i: Identity)
    requires h in w.hosts && w.hosts[h].identity == Some(i)
    requires i.worker in w.workers && w.workers[i.worker].host == Some(h) && !w.workers[i.worker].revoked
    ensures Starts(w, h, w.(hosts := w.hosts[h := w.hosts[h].(running := true, refusal := None)],
                            workers := w.workers[i.worker := w.workers[i.worker].(connected := true, host := Some(h),
                                                                              reported := Some(w.hosts[h].machine))]))
  {
    assert !IsElsewhere(w, i.worker, h);
    hide IsElsewhere;
  }

  /** A host whose own connection was dropped is let in again. */
  lemma LetInAgain(w: World, h: Name, i: Identity)
    requires h in w.hosts && w.hosts[h].identity == Some(i) && i.nodeKey in w.allow
    requires i.worker in w.workers && w.workers[i.worker].host == Some(h) && !w.workers[i.worker].revoked
    ensures Started(Disconnected(w, h), h)
         == w.(hosts := w.hosts[h := w.hosts[h].(running := true, refusal := None)],
               workers := w.workers[i.worker := w.workers[i.worker].(connected := true, host := Some(h),
                                                                     reported := Some(w.hosts[h].machine))])
  {
    assert StartRefusal(Disconnected(w, h), h).None?;
  }

  /** Joining: the host has the identity and its new worker is connected from it under the policy of the enrollment,
      whose secret can never be spent again. */
  ghost predicate Joins(a: World, tok: Name, i: Identity, h: Name, b: World) {
    && h in a.hosts && b.hosts == a.hosts[h := a.hosts[h].(identity := Some(i), running := true, refusal := None)]
    && tok in a.enrollments && i.worker !in a.workers
    && b.workers == a.workers[i.worker := Worker(i.fingerprint, i.nodeKey, a.enrollments[tok].policy,
                                                 a.enrollments[tok].tailcat, false, false, false, true, Some(h),
                                                 Some(a.hosts[h].machine), 0)]
    && b.allow == a.allow[i.nodeKey := i.worker]
    && forall later :: !Redeemable(b, a.enrollments[tok].secret, later)
  }

  lemma StartedJoins(w: World, tok: Name, i: Identity, h: Name, now: int)
    requires Ok(w) && tok in w.enrollments && !Taken(w, i) && h in w.hosts && w.hosts[h].identity.None?
    requires w.enrollments[tok].state == Pending && now <= w.enrollments[tok].expires
    ensures Joins(w, tok, i, h, Started(Joined(w, tok, i, h), h))
  {
    hide Ok, Moves, Started, Taken, StartRefusal, Starts, IsElsewhere, Redeemable;
    var b := Joined(w, tok, i, h);
    var c := Started(b, h);
    MadeIsSpent(w, tok, i);
    JoinedKeeps(w, tok, i, h, now);
    StartedStarts(b, h);
    NewIdentity(w, tok, i, h);
    LetIn(b, h, i, c);
    forall later
      ensures !Redeemable(c, w.enrollments[tok].secret, later)
    {
      assert !Redeemable(Made(w, tok, i), w.enrollments[tok].secret, later);
      SameRedeemable(Made(w, tok, i), c, w.enrollments[tok].secret, later);
    }
  }

  lemma LetIn(a: World, h: Name, i: Identity, b: World)
    requires Starts(a, h, b) && a.hosts[h].identity == Some(i) && i.worker in a.workers
    requires !a.workers[i.worker].revoked && !IsElsewhere(a, i.worker, h)
    ensures b == a.(hosts := a.hosts[h := a.hosts[h].(running := true, refusal := None)],
                    workers := a.workers[i.worker := a.workers[i.worker].(connected := true, host := Some(h),
                                                                          reported := Some(a.hosts[h].machine))])
  {
    hide IsElsewhere;
    assert b.hosts == a.hosts[h := a.hosts[h].(running := true, refusal := None)];
  }

  lemma SameRedeemable(a: World, b: World, secret: Secret, now: int)
    requires a.enrollments == b.enrollments
    ensures Redeemable(a, secret, now) == Redeemable(b, secret, now)
  {
    assert forall t :: Spends(a, t, secret, now) == Spends(b, t, secret, now);
  }

  lemma NewIdentity(w: World, tok: Name, i: Identity, h: Name)
    requires tok in w.enrollments && !Taken(w, i) && h in w.hosts
    ensures var b := Joined(w, tok, i, h);
            && i.worker !in w.workers && i.worker in b.workers
            && !b.workers[i.worker].revoked && !IsElsewhere(b, i.worker, h)
  {
    if i.worker in w.workers {
      assert Same(i.worker, w.workers[i.worker], i);
    }
  }

  /** The workers asked to go that run nothing are revoked, and nobody else; a key is admitted as long as its worker
      is not revoked. */
  ghost predicate Settles(a: Workers, allow: map<NodeKey, Name>, b: Workers, allow': map<NodeKey, Name>) {
    && b.Keys == a.Keys
    && (forall id | id in a ::
          b[id] == if a[id].uninstalling && a[id].running == 0 && !a[id].revoked
                   then a[id].(revoked := true, connected := false) else a[id])
    && (forall n :: n in allow' <==> n in allow && allow[n] in b && !b[allow[n]].revoked)
    && (forall n | n in allow' :: allow'[n] == allow[n])
  }

  lemma SettledSettles(w: World)
    requires WorkersOk(w.workers, w.allow)
    ensures var c := Settled(w, w.workers.Keys);
            Settles(w.workers, w.allow, c.workers, c.allow)
  {
  }

  // ---- The fleet in place

  datatype EnrollResult = Enrolled(worker: Name) | Unsupported | AlreadyEnrolled | SecretRefused | IdentityTaken

  class SimFleet {
    var hosts: Hosts
    var enrollments: Enrollments
    var workers: Workers
    var allow: map<NodeKey, Name>
    ghost var made: map<Name, Name>

    ghost function W(): World
      reads this
    {
      World(hosts, enrollments, workers, allow, made)
    }

    constructor (machines: map<Name, Machine>)
      requires forall h | h in machines :: machines[h].speed > 0.0
      ensures Ok(W()) && Fresh(W()) && hosts.Keys == machines.Keys
      ensures forall h | h in machines :: hosts[h] == Host(machines[h], None, false, None)
    {
      hosts := map h | h in machines :: Host(machines[h], None, false, None);
      enrollments, workers, allow, made := map[], map[], map[], map[];
    }

    /** Issues a secret never issued before. */
    method Issue(tok: Name, secret: Secret, tailcat: bool, policy: Policy, expires: int, now: int)
      requires Ok(W()) && tok !in enrollments && forall t | t in enrollments :: enrollments[t].secret != secret
      modifies `enrollments
      ensures Ok(W()) && Next(old(W()), DoIssue(tok, Enrollment(secret, tailcat, Pending, policy, expires)), now, W())
      ensures forall later :: Redeemable(W(), secret, later) <==> later <= expires
      ensures tok in enrollments && enrollments[tok].policy == policy && enrollments[tok].tailcat == tailcat
      ensures forall t | t in old(enrollments) :: t in enrollments && enrollments[t] == old(enrollments)[t]
    {
      var e := Enrollment(secret, tailcat, Pending, policy, expires);
      enrollments := enrollments[tok := e];
      NextKeeps(old(W()), DoIssue(tok, e), now, W());
      hide Ok;
      forall later
        ensures Redeemable(W(), secret, later) <==> later <= expires
      {
        assert Spends(W(), tok, secret, later) <==> later <= expires;
      }
    }

    method Withdraw(tok: Name, now: int)
      requires Ok(W()) && tok in enrollments
      modifies `enrollments
      ensures Ok(W()) && Next(old(W()), DoWithdraw(tok), now, W())
      ensures forall later :: !Redeemable(W(), old(enrollments)[tok].secret, later)
      ensures enrollments.Keys == old(enrollments).Keys
      ensures forall t | t in enrollments && t != tok :: enrollments[t] == old(enrollments)[t]
    {
      enrollments := enrollments[tok := enrollments[tok].(state := Withdrawn)];
      NextKeeps(old(W()), DoWithdraw(tok), now, W());
      hide WorkersOk, HostsOk, Moves;
    }

    /** The enrollment of a secret that can still be spent. */
    method FindEnrollment(secret: Secret, now: int) returns (found: Option<Name>)
      requires Ok(W())
      ensures found.Some? <==> Redeemable(W(), secret, now)
      ensures found.Some? ==> Spends(W(), found.value, secret, now)
    {
      found := None;
      var todo := enrollments.Keys;
      while todo != {} && found.None?
        invariant todo <= enrollments.Keys
        invariant found.None? ==> forall t | t in enrollments && t !in todo :: enrollments[t].secret != secret
        invariant found.Some? ==> found.value in enrollments && enrollments[found.value].secret == secret
        decreases |todo|
      {
        var t :| t in todo;
        if enrollments[t].secret == secret {
          found := Some(t);
        }
        todo := todo - {t};
      }
      assert found.Some? ==> forall t | t in enrollments && enrollments[t].secret == secret :: t == found.value;
      if found.Some? && (enrollments[found.value].state != Pending || enrollments[found.value].expires < now) {
        found := None;
      }
      assert found.Some? ==> Spends(W(), found.value, secret, now);
    }

    method IsTaken(i: Identity) returns (taken: bool)
      ensures taken <==> Taken(W(), i)
    {
      var left := workers.Keys;
      taken := false;
      while left != {} && !taken
        invariant left <= workers.Keys
        invariant !taken ==> forall id | id in workers && id !in left :: !Same(id, workers[id], i)
        invariant taken ==> Taken(W(), i)
        decreases |left|
      {
        var id :| id in left;
        if Same(id, workers[id], i) {
          taken := true;
        }
        left := left - {id};
      }
    }

    /** Redeems a secret for an identity: it works exactly when the secret can still be spent and the identity is
        nobody's. Then the identity is a worker's, its key is admitted, and the secret can never be spent again;
        a refusal changes nothing. */
    method Redeem(secret: Secret, i: Identity, now: int) returns (r: EnrollResult)
      requires Ok(W())
      modifies `enrollments, `workers, `allow, `made
      ensures Ok(W()) && Moves(old(W()), W(), now)
      ensures r.Enrolled? <==> Redeemable(old(W()), secret, now) && !Taken(old(W()), i)
      ensures r.SecretRefused? <==> !Redeemable(old(W()), secret, now)
      ensures r == Enrolled(i.worker) || r == SecretRefused || r == IdentityTaken
      ensures !r.Enrolled? ==> W() == old(W())
      ensures r.Enrolled? ==> exists tok :: Spends(old(W()), tok, secret, now) && W() == Made(old(W()), tok, i)
      ensures r.Enrolled? ==>
                && i.nodeKey in allow && allow[i.nodeKey] == i.worker && Taken(W(), i)
                && forall later :: !Redeemable(W(), secret, later)
    {
      hide Ok, Moves, Taken, Redeemable;
      ghost var was := W();
      SelfMoves(was, now);
      var tok := FindEnrollment(secret, now);
      if tok.None? {
        return SecretRefused;
      }
      var taken := IsTaken(i);
      if taken {
        return IdentityTaken;
      }
      MadeKeeps(was, tok.value, i, now);
      MadeIsSpent(was, tok.value, i);
      var e := enrollments[tok.value];
      enrollments := enrollments[tok.value := e.(state := Redeemed)];
      workers := workers[i.worker := Worker(i.fingerprint, i.nodeKey, e.policy, e.tailcat,
                                            false, false, false, false, None, None, 0)];
      allow := allow[i.nodeKey := i.worker];
      made := made[i.worker := tok.value];
      return Enrolled(i.worker);
    }

    /** A host joins exactly when it is a Linux host with a container runtime and without an identity, the
        secret can still be spent, and the new identity is nobody's; otherwise nothing changes. */
    method Enroll(h: Name, secret: Secret, i: Identity, now: int) returns (r: EnrollResult)
      requires Ok(W()) && h in hosts
      modifies `hosts, `enrollments, `workers, `allow, `made
      ensures Ok(W())
      ensures !r.Enrolled? ==> W() == old(W())
      ensures var m := old(hosts)[h].machine;
              r == if m.os != LINUX || CONTAINER !in m.runtimes then Unsupported
                   else if old(hosts)[h].identity.Some? then AlreadyEnrolled
                   else if !Redeemable(old(W()), secret, now) then SecretRefused
                   else if Taken(old(W()), i) then IdentityTaken
                   else Enrolled(i.worker)
      ensures r.Enrolled? ==> exists tok :: Spends(old(W()), tok, secret, now) && Joins(old(W()), tok, i, h, W())
                                         && Next(old(W()), DoEnroll(tok, i, h), now, W())
    {
      hide Ok, Moves, Redeemable, Started, Made, Joins;
      ghost var was := W();
      if hosts[h].machine.os != LINUX || CONTAINER !in hosts[h].machine.runtimes {
        return Unsupported;
      }
      if hosts[h].identity.Some? {
        return AlreadyEnrolled;
      }
      r := Redeem(secret, i, now);
      if !r.Enrolled? {
        return;
      }
      ghost var tok :| Spends(was, tok, secret, now) && W() == Made(was, tok, i);
      MadeHosts(was, tok, i);
      hosts := hosts[h := hosts[h].(identity := Some(i))];
      BringUp(h);
      StartedJoins(was, tok, i, h, now);
      assert Next(was, DoEnroll(tok, i, h), now, W());
      NextKeeps(was, DoEnroll(tok, i, h), now, W());
    }

    /** Looks for another host that has this worker's connection and identity. */
    method FindHolder(id: Name, h: Name) returns (held: bool)
      requires id in workers
      ensures held <==> HeldElsewhere(W(), id, h)
    {
      var left := hosts.Keys;
      held := false;
      while left != {} && !held
        invariant left <= hosts.Keys
        invariant !held ==> forall x | x in hosts && x !in left :: !IsHolder(x, id, h)
        invariant held ==> HeldElsewhere(W(), id, h)
        decreases |left|
      {
        var x :| x in left;
        if IsHolder(x, id, h) {
          held := true;
        }
        left := left - {x};
      }
    }

    predicate IsHolder(x: Name, id: Name, h: Name)
      requires id in workers && x in hosts
      reads this
    {
      && x != h && hosts[x].identity.Some? && hosts[x].identity.value.worker == id
      && workers[id].connected && workers[id].host == Some(x)
    }

    /** The connection attempt of a host, without a word on what came before it. */
    method BringUp(h: Name)
      requires h in hosts
      modifies `hosts, `workers
      ensures W() == Started(old(W()), h)
    {
      var host := hosts[h].(running := true, refusal := None);
      if host.identity.None? {
        hosts := hosts[h := host];
        return;
      }
      var i := host.identity.value;
      var why: Option<Refusal> := None;
      if i.worker !in workers {
        why := Some(Unknown);
      } else if workers[i.worker].revoked {
        why := Some(Revoked);
      } else if i.nodeKey !in allow && workers[i.worker].tailcat {
        why := Some(NotAdmitted);
      } else {
        var held := FindHolder(i.worker, h);
        why := if held then Some(Duplicate) else None;
      }
      assert why == StartRefusal(W(), h);
      hosts := hosts[h := host.(refusal := why)];
      if why.None? {
        var k := workers[i.worker].(connected := true, host := Some(h), reported := Some(host.machine));
        workers := workers[i.worker := k];
      }
    }

    method Start(h: Name, now: int)
      requires Ok(W()) && h in hosts
      modifies `hosts, `workers
      ensures Ok(W()) && Next(old(W()), DoStart(h), now, W())
      ensures Starts(old(W()), h, W())
    {
      hide Ok, Started, Starts;
      StartedStarts(W(), h);
      BringUp(h);
      NextKeeps(old(W()), DoStart(h), now, W());
    }

    method Drop(h: Name)
      requires h in hosts
      modifies `workers
      ensures W() == Disconnected(old(W()), h)
    {
      var i := hosts[h].identity;
      if i.Some? && i.value.worker in workers && workers[i.value.worker].host == Some(h) {
        workers := workers[i.value.worker := workers[i.value.worker].(connected := false)];
      }
    }

    method Restart(h: Name, now: int)
      requires Ok(W()) && h in hosts
      modifies `hosts, `workers
      ensures Ok(W()) && Next(old(W()), DoRestart(h), now, W())
      ensures Starts(old(W()), h, W())
    {
      hide Ok, Started, Disconnected, Starts;
      RestartedStarts(W(), h);
      Drop(h);
      BringUp(h);
      NextKeeps(old(W()), DoRestart(h), now, W());
    }

    method UninstallHost(h: Name, now: int)
      requires Ok(W()) && h in hosts
      modifies `hosts
      ensures Ok(W()) && Next(old(W()), DoUninstallHost(h), now, W())
      ensures hosts.Keys == old(hosts).Keys && forall x | x in hosts && x != h :: hosts[x] == old(hosts)[x]
      ensures hosts[h].identity.None? && !hosts[h].running && hosts[h].machine == old(hosts)[h].machine
    {
      hide Ok;
      hosts := hosts[h := hosts[h].(running := false, identity := None)];
      NextKeeps(old(W()), DoUninstallHost(h), now, W());
    }

    /** Copies one host's identity onto another. */
    method CloneIdentity(src: Name, dst: Name, now: int)
      requires Ok(W()) && src in hosts && dst in hosts && hosts[src].identity.Some?
      modifies `hosts
      ensures Ok(W()) && Next(old(W()), DoClone(src, dst), now, W())
      ensures hosts.Keys == old(hosts).Keys && forall x | x in hosts && x != dst :: hosts[x] == old(hosts)[x]
      ensures hosts[dst].identity == hosts[src].identity == old(hosts)[src].identity
      ensures hosts[dst].machine == old(hosts)[dst].machine && hosts[dst].running == old(hosts)[dst].running
    {
      hide Ok;
      hosts := hosts[dst := hosts[dst].(identity := hosts[src].identity)];
      NextKeeps(old(W()), DoClone(src, dst), now, W());
    }

    method SettleOne(id: Name)
      requires id in workers
      modifies `workers, `allow
      ensures var k := old(workers)[id];
              && workers == (if Due(k) then old(workers)[id := k.(revoked := true, connected := false)]
                             else old(workers))
              && allow == (if Due(k) then old(allow) - {k.nodeKey} else old(allow))
    {
      var k := workers[id];
      if k.uninstalling && k.running == 0 && !k.revoked {
        workers := workers[id := k.(revoked := true, connected := false)];
        allow := allow - {k.nodeKey};
      }
    }

    /** Revokes every worker that was asked to go and runs nothing. */
    method Settle()
      requires WorkersOk(workers, allow)
      modifies `workers, `allow
      ensures W() == Settled(old(W()), old(workers).Keys)
      ensures Settles(old(workers), old(allow), workers, allow)
    {
      hide WorkersOk, Settled, Due, Settles;
      ghost var was := W();
      SettledSettles(was);
      var todo := workers.Keys;
      SettledNone(was);
      assert was.workers.Keys - todo == {};
      while todo != {}
        invariant todo <= was.workers.Keys
        invariant W() == Settled(was, was.workers.Keys - todo)
        decreases |todo|
      {
        var id :| id in todo;
        SettledOneMore(was, was.workers.Keys - todo, id);
        SettledKeys(was, was.workers.Keys - todo);
        assert was.workers.Keys - (todo - {id}) == was.workers.Keys - todo + {id};
        SettleOne(id);
        todo := todo - {id};
      }
      assert was.workers.Keys - {} == was.workers.Keys;
    }

    method Change(id: Name, k: Worker)
      requires Ok(W()) && id in workers && SameCore(k, workers[id])
      modifies `workers, `allow
      ensures var b := WithWorker(old(W()), id, k); W() == Settled(b, b.workers.Keys)
      ensures Settles(old(workers)[id := k], old(allow), workers, allow)
    {
      hide Settled, WorkersOk, HostsOk, MadeOk, SameCore, Moves, Holds, Settles;
      WorkerKeeps(W(), id, k, 0);
      workers := workers[id := k];
      SettledSettles(W());
      Settle();
    }

    /** An idle worker is revoked at once; a busy one drains first. */
    method RequestUninstall(id: Name, now: int)
      requires Ok(W()) && id in workers
      modifies `workers, `allow
      ensures Ok(W()) && Next(old(W()), DoRequestUninstall(id), now, W())
      ensures Settles(old(workers)[id := old(workers)[id].(uninstalling := true, draining := true)], old(allow),
                      workers, allow)
      ensures id in workers && workers[id].uninstalling && workers[id].draining
      ensures workers[id].revoked <==> old(workers)[id].revoked || old(workers)[id].running == 0
    {
      hide Ok;
      Change(id, workers[id].(uninstalling := true, draining := true));
      NextKeeps(old(W()), DoRequestUninstall(id), now, W());
    }

    method FinishJobs(id: Name, now: int)
      requires Ok(W()) && id in workers
      modifies `workers, `allow
      ensures Ok(W()) && Next(old(W()), DoFinishJobs(id), now, W())
      ensures Settles(old(workers)[id := old(workers)[id].(running := 0)], old(allow), workers, allow)
      ensures id in workers && workers[id].running == 0
      ensures workers[id].revoked <==> old(workers)[id].revoked || old(workers)[id].uninstalling
    {
      hide Ok;
      Change(id, workers[id].(running := 0));
      NextKeeps(old(W()), DoFinishJobs(id), now, W());
    }

    method StartJob(id: Name, now: int)
      requires Ok(W()) && id in workers
      modifies `workers
      ensures Ok(W()) && Next(old(W()), DoStartJob(id), now, W())
      ensures workers == old(workers)[id := old(workers)[id].(running := old(workers)[id].running + 1)]
    {
      hide Ok;
      workers := workers[id := workers[id].(running := workers[id].running + 1)];
      NextKeeps(old(W()), DoStartJob(id), now, W());
    }

    method SetPolicy(id: Name, policy: Policy, now: int)
      requires Ok(W()) && id in workers
      modifies `workers
      ensures Ok(W()) && Next(old(W()), DoSetPolicy(id, policy), now, W())
      ensures workers == old(workers)[id := old(workers)[id].(policy := policy)]
    {
      hide Ok;
      workers := workers[id := workers[id].(policy := policy)];
      NextKeeps(old(W()), DoSetPolicy(id, policy), now, W());
    }

  }

  // ---- Every run of the fleet

  ghost predicate Fresh(w: World) {
    && w.enrollments == map[] && w.workers == map[] && w.allow == map[] && w.made == map[]
    && (forall h | h in w.hosts :: w.hosts[h].machine.speed > 0.0 && w.hosts[h].identity.None?)
  }

  /** A run from a fleet without workers: `times[i]` is when operation `i` is made. */
  ghost predicate IsRun(ws: seq<World>, ops: seq<Op>, times: seq<int>) {
    && |ws| == |ops| + 1 && |times| == |ops| && Fresh(ws[0])
    && (forall i | 0 <= i < |ops| :: Next(ws[i], ops[i], times[i], ws[i + 1]))
    && (forall i, j | 0 <= i <= j < |times| :: times[i] <= times[j])
  }

  lemma {:induction false} RunKeeps(ws: seq<World>, ops: seq<Op>, times: seq<int>, n: nat)
    requires IsRun(ws, ops, times) && n <= |ops|
    ensures Ok(ws[n]) && (n < |ops| ==> Moves(ws[n], ws[n + 1], times[n]))
  {
    hide Moves, Next;
    if n > 0 {
      RunKeeps(ws, ops, times, n - 1);
      assert Next(ws[n - 1], ops[n - 1], times[n - 1], ws[n]);
      NextKeeps(ws[n - 1], ops[n - 1], times[n - 1], ws[n]);
    }
    if n < |ops| {
      assert Next(ws[n], ops[n], times[n], ws[n + 1]);
      assert Ok(ws[n]);
      NextKeeps(ws[n], ops[n], times[n], ws[n + 1]);
    }
  }

  /** What was there stays there: workers with where they came from, enrollments, revocations. */
  lemma {:induction false} RunStays(ws: seq<World>, ops: seq<Op>, times: seq<int>, i: nat, j: nat)
    requires IsRun(ws, ops, times) && i <= j <= |ops|
    ensures WorkersStayThere(ws[i].workers, ws[j].workers) && MadeStays(ws[i].made, ws[j].made)
    ensures EnrollmentsStay(ws[i].enrollments, ws[j].enrollments)
    decreases j - i
  {
    hide IsRun, Ok, MakesRightly, HoldersStay;
    if i < j {
      assert |ws| == |ops| + 1 by { RunLength(ws, ops, times); }
      RunStays(ws, ops, times, i, j - 1);
      RunKeeps(ws, ops, times, j - 1);
    } else {
      RunLength(ws, ops, times);
    }
  }

  lemma RunLength(ws: seq<World>, ops: seq<Op>, times: seq<int>)
    requires IsRun(ws, ops, times)
    ensures |ws| == |ops| + 1 && |times| == |ops|
  {
  }

  ghost predicate WorkersStayThere(a: Workers, b: Workers) {
    forall id | id in a :: id in b && (a[id].revoked ==> b[id].revoked)
  }

  /** Over a whole run a secret makes at most one worker. */
  lemma OneWorkerPerSecret(ws: seq<World>, ops: seq<Op>, times: seq<int>, i: nat, j: nat, id: Name, id': Name)
    requires IsRun(ws, ops, times) && i <= j <= |ops| && id in ws[i].workers && id' in ws[j].workers
    ensures id in ws[i].made && ws[i].made[id] in ws[i].enrollments
    ensures id' in ws[j].made && ws[j].made[id'] in ws[j].enrollments
    ensures ws[i].enrollments[ws[i].made[id]].secret == ws[j].enrollments[ws[j].made[id']].secret ==> id == id'
  {
    RunKeeps(ws, ops, times, i);
    RunKeeps(ws, ops, times, j);
    RunStays(ws, ops, times, i, j);
    hide IsRun, Moves, WorkersOk, HostsOk;
  }

  /** An enrollment that was withdrawn, spent or has expired makes no further worker. */
  lemma {:induction false} ClosedMakesNone(ws: seq<World>, ops: seq<Op>, times: seq<int>, i: nat, j: nat,
                                           tok: Name, id: Name)
    requires IsRun(ws, ops, times) && i <= j <= |ops|
    requires tok in ws[i].enrollments
    requires ws[i].enrollments[tok].state != Pending || (i < |times| && ws[i].enrollments[tok].expires < times[i])
    requires id in ws[j].workers && id in ws[j].made && ws[j].made[id] == tok
    ensures id in ws[i].workers
    decreases j - i
  {
    hide Next, Ok, Moves, EnrollmentsStay, MadeStays, WorkersStayThere;
    if i < j {
      RunKeeps(ws, ops, times, j);
      RunKeeps(ws, ops, times, j - 1);
      RunStays(ws, ops, times, i, j - 1);
      assert times[i] <= times[j - 1];
      hide IsRun;
      StaysClosed(ws[i].enrollments, ws[j - 1].enrollments, tok);
      ClosedStep(ws[j - 1], ws[j], times[j - 1], tok, id);
      ClosedMakesNone(ws, ops, times, i, j - 1, tok, id);
    }
  }

  lemma StaysClosed(a: Enrollments, b: Enrollments, tok: Name)
    requires EnrollmentsStay(a, b) && tok in a
    ensures tok in b && b[tok].expires == a[tok].expires && (a[tok].state != Pending ==> b[tok].state != Pending)
  {
  }

  lemma ClosedStep(a: World, b: World, now: int, tok: Name, id: Name)
    requires Ok(a) && Ok(b) && Moves(a, b, now) && tok in a.enrollments
    requires a.enrollments[tok].state != Pending || a.enrollments[tok].expires < now
    requires id in b.workers && id in b.made && b.made[id] == tok
    ensures id in a.workers && id in a.made && a.made[id] == tok
  {
    hide WorkersOk, HostsOk, WorkersStay, HoldersStay, EnrollmentsStay;
  }

  /** Once revoked, a worker is out for good: never connected, its key never admitted, every host that has
      its identity refused. */
  lemma RevokedForGood(ws: seq<World>, ops: seq<Op>, times: seq<int>, i: nat, j: nat, id: Name, h: Name)
    requires IsRun(ws, ops, times) && i <= j <= |ops| && id in ws[i].workers && ws[i].workers[id].revoked
    ensures id in ws[j].workers
    ensures var k := ws[j].workers[id]; k.revoked && !k.connected && k.nodeKey !in ws[j].allow
    ensures h in ws[j].hosts && ws[j].hosts[h].identity.Some? && ws[j].hosts[h].identity.value.worker == id ==>
              StartRefusal(ws[j], h) == Some(Revoked)
  {
    RunKeeps(ws, ops, times, j);
    RunStays(ws, ops, times, i, j);
    hide IsRun, Moves, MadeOk;
  }

  /** A worker is revoked only at a moment when it was asked to go and runs nothing. */
  lemma RevokedWhenIdle(ws: seq<World>, ops: seq<Op>, times: seq<int>, i: nat, id: Name)
    requires IsRun(ws, ops, times) && i < |ops|
    requires id in ws[i].workers && !ws[i].workers[id].revoked
    requires id in ws[i + 1].workers && ws[i + 1].workers[id].revoked
    ensures ws[i + 1].workers[id].uninstalling && ws[i + 1].workers[id].running == 0
  {
    RunKeeps(ws, ops, times, i);
    hide IsRun, Ok;
  }

  lemma StartedRunning(w: World, h: Name, id: Name)
    requires h in w.hosts && id in w.workers
    ensures id in Started(w, h).workers && Started(w, h).workers[id].running == w.workers[id].running
  {
    hide StartRefusal;
    if w.hosts[h].identity.Some? {
      RefusedIfUnknown(w, h);
    }
  }

  lemma RefusedIfUnknown(w: World, h: Name)
    requires h in w.hosts && w.hosts[h].identity.Some?
    ensures w.hosts[h].identity.value.worker !in w.workers ==> StartRefusal(w, h).Some?
  {
  }

  /** A job that was started and not finished keeps its worker busy, whatever else is done. */
  lemma StaysBusy(a: World, op: Op, now: int, b: World, id: Name)
    requires Next(a, op, now, b) && op != DoFinishJobs(id)
    requires id in a.workers && a.workers[id].running > 0
    ensures id in b.workers && b.workers[id].running > 0
  {
    hide Started;
    match op
    case DoEnroll(tok, i, h) => StartedRunning(Joined(a, tok, i, h), h, id);
    case DoStart(h) => StartedRunning(a, h, id);
    case DoRestart(h) => StartedRunning(Disconnected(a, h), h, id);
    case _ =>
  }

  /** A worker with a job that was started and not finished is not revoked. */
  lemma {:induction false} JobsAreNotCut(ws: seq<World>, ops: seq<Op>, times: seq<int>, i: nat, j: nat, id: Name)
    requires IsRun(ws, ops, times) && i < j <= |ops| && ops[i] == DoStartJob(id)
    requires forall k | i < k < j :: ops[k] != DoFinishJobs(id)
    ensures id in ws[i].workers && id in ws[j].workers && ws[j].workers[id].running > 0
    ensures ws[j].workers[id].revoked ==> ws[i].workers[id].revoked
    decreases j - i
  {
    hide Ok, Moves;
    RunKeeps(ws, ops, times, j - 1);
    assert Next(ws[j - 1], ops[j - 1], times[j - 1], ws[j - 1 + 1]);
    if j > i + 1 {
      hide Next;
      JobsAreNotCut(ws, ops, times, i, j - 1, id);
      StaysBusy(ws[j - 1], ops[j - 1], times[j - 1], ws[j], id);
    }
    hide IsRun, Next;
    BusyIsKept(ws[j - 1], ws[j], times[j - 1], id);
  }

  lemma BusyIsKept(a: World, b: World, now: int, id: Name)
    requires Moves(a, b, now) && id in a.workers && id in b.workers && b.workers[id].running > 0
    ensures b.workers[id].revoked ==> a.workers[id].revoked
  {
  }

  /** While a connected host keeps its identity, no copy of it takes the connection: until the worker is
      revoked it stays connected from that host, and a copy that starts is refused as a duplicate. */
  lemma {:induction false} CopiesNeverTakeOver(ws: seq<World>, ops: seq<Op>, times: seq<int>, i: nat, j: nat,
                                               id: Name, h: Name, copy: Name)
    requires IsRun(ws, ops, times) && i <= j <= |ops|
    requires id in ws[i].workers && ws[i].workers[id].connected && ws[i].workers[id].host == Some(h)
    requires forall m | i <= m <= j :: Keeps(ws[m], h, id)
    requires id in ws[j].workers && !ws[j].workers[id].revoked
    ensures ws[j].workers[id].connected && ws[j].workers[id].host == Some(h)
    ensures copy != h && Keeps(ws[j], copy, id) ==> StartRefusal(ws[j], copy) == Some(Duplicate)
    decreases j - i
  {
    hide *;
    RunLength(ws, ops, times);
    if i < j {
      RunKeeps(ws, ops, times, j);
      RunKeeps(ws, ops, times, j - 1);
      RunStays(ws, ops, times, i, j - 1);
      StayUnrevoked(ws[i], ws[j - 1], ws[j], times[j - 1], id);
      CopiesNeverTakeOver(ws, ops, times, i, j - 1, id, h, copy);
      assert Keeps(ws[j - 1], h, id);
      HolderStep(ws[j - 1], ws[j], times[j - 1], id, h);
    }
    assert Keeps(ws[j], h, id);
    CopyIsRefused(ws[j], id, h, copy) by { RunKeeps(ws, ops, times, j); }
  }

  lemma StayUnrevoked(first: World, a: World, b: World, now: int, id: Name)
    requires WorkersStayThere(first.workers, a.workers) && id in first.workers && Moves(a, b, now)
    requires id in b.workers && !b.workers[id].revoked
    ensures id in a.workers && !a.workers[id].revoked
  {
  }

  lemma HolderStep(a: World, b: World, now: int, id: Name, h: Name)
    requires Ok(b) && Moves(a, b, now) && Keeps(a, h, id)
    requires id in a.workers && a.workers[id].connected && a.workers[id].host == Some(h)
    requires id in b.workers && !b.workers[id].revoked
    ensures b.workers[id].connected && b.workers[id].host == Some(h)
  {
    hide HostsOk, MadeOk, WorkersStay, MadeStays, EnrollmentsStay, MakesRightly;
    assert Holds(a.hosts, a.workers, id);
  }

  lemma CopyIsRefused(w: World, id: Name, h: Name, copy: Name)
    requires Ok(w) && Keeps(w, h, id) && id in w.workers && !w.workers[id].revoked
    requires w.workers[id].connected && w.workers[id].host == Some(h)
    ensures copy != h && Keeps(w, copy, id) ==> StartRefusal(w, copy) == Some(Duplicate)
  {
    hide MadeOk;
  }

  predicate Keeps(w: World, h: Name, id: Name) {
    h in w.hosts && w.hosts[h].identity.Some? && w.hosts[h].identity.value.worker == id
  }
}
