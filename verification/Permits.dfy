/** The permits that concurrent requests draw on while they read a public body: handlers, body slots,
    the share of the slots that readers behind a trusted proxy may hold, and one reader per client
    key. Each lock section of the server is one step; any interleaving of the steps is a run. */
module Permits {
  import opened Bytes
  import opened Collections

  type Id = nat
  type Key = nat

  datatype Config = Config(handlers: nat, bodies: nat, proxyBodies: nat) {
    function Forwarded(): nat {
      if proxyBodies < bodies then proxyBodies else bodies
    }
  }

  const DEFAULT := Config(8, 4, 3)

  /** Where a request stands. The three `Want` places block on a pool. */
  datatype Place = WantHandler | Running | Released | WantShare | WantSlot | Reading | Dropping

  datatype Request = Request(place: Place, key: Key, proxied: bool,
                             handler: bool, reader: bool, share: bool, slot: bool,
                             begun: bool)   // its handler has started

  datatype State = State(freeHandlers: int, freeBodies: int, freeForwarded: int,
                         readers: set<Key>, requests: map<Id, Request>)

  datatype Step =
    | Arrive(id: Id)                            // a parsed head asks for its handler
    | GetHandler(id: Id)                        // Pool::acquire on the handlers succeeds
    | GiveUpHandler(id: Id)                     // the server is stopping: a begun request runs on without one
    | Yield(id: Id)                             // a long poll gives its handler back
    | Restore(id: Id)                           // restore_handler finds no handler
    | Release(id: Id, key: Key, proxied: bool)  // public_body drops its handler first
    | TakeKey(id: Id)                           // ReaderKey::take
    | GetShare(id: Id)
    | GetSlot(id: Id)
    | GiveUp(id: Id)                            // the body deadline passed while waiting
    | EndBody(id: Id)                           // the body was read or failed
    | DropSlot(id: Id)
    | DropShare(id: Id)
    | DropKey(id: Id)
    | Dropped(id: Id, panicked: bool)
    | Leave(id: Id)                             // the handler returned

  predicate At(s: State, id: Id, place: Place) {
    id in s.requests && s.requests[id].place == place
  }

  predicate Enabled(s: State, step: Step) {
    match step
    case Arrive(id) => id !in s.requests
    case GetHandler(id) => At(s, id, WantHandler) && s.freeHandlers > 0
    case GiveUpHandler(id) => At(s, id, WantHandler) && s.freeHandlers <= 0
    case Yield(id) => At(s, id, Running)
    case Restore(id) => At(s, id, Running) && !s.requests[id].handler
    case Release(id, _, _) => At(s, id, Running)
    case TakeKey(id) => At(s, id, Released)
    case GetShare(id) => At(s, id, WantShare) && s.freeForwarded > 0
    case GetSlot(id) => At(s, id, WantSlot) && s.freeBodies > 0
    case GiveUp(id) =>
      (At(s, id, WantShare) && s.freeForwarded <= 0) || (At(s, id, WantSlot) && s.freeBodies <= 0)
    case EndBody(id) => At(s, id, Reading)
    case DropSlot(id) => At(s, id, Dropping) && s.requests[id].slot
    case DropShare(id) => At(s, id, Dropping) && !s.requests[id].slot && s.requests[id].share
    case DropKey(id) =>
      At(s, id, Dropping) && !s.requests[id].slot && !s.requests[id].share && s.requests[id].reader
    case Dropped(id, _) =>
      At(s, id, Dropping) && !s.requests[id].slot && !s.requests[id].share && !s.requests[id].reader
    case Leave(id) => At(s, id, Running)
  }

  function B(b: bool): int {
    if b then 1 else 0
  }

  function Apply(s: State, step: Step): State
    requires Enabled(s, step)
  {
    match step
    case Arrive(id) =>
      s.(requests := s.requests[id := Request(WantHandler, 0, false, false, false, false, false, false)])
    case GetHandler(id) =>
      var r := s.requests[id];
      s.(freeHandlers := s.freeHandlers - 1,
         requests := s.requests[id := r.(place := Running, handler := true, begun := true)])
    case GiveUpHandler(id) =>
      if s.requests[id].begun then s.(requests := s.requests[id := s.requests[id].(place := Running)])
      else s.(requests := s.requests - {id})
    case Yield(id) =>
      var r := s.requests[id];
      s.(freeHandlers := s.freeHandlers + B(r.handler), requests := s.requests[id := r.(handler := false)])
    case Restore(id) => s.(requests := s.requests[id := s.requests[id].(place := WantHandler)])
    case Release(id, key, proxied) =>
      var r := s.requests[id];
      s.(freeHandlers := s.freeHandlers + B(r.handler),
         requests := s.requests[id := r.(place := Released, key := key, proxied := proxied, handler := false)])
    case TakeKey(id) =>
      var r := s.requests[id];
      if r.key in s.readers then s.(requests := s.requests[id := r.(place := WantHandler)])
      else s.(readers := s.readers + {r.key},
              requests := s.requests[id := r.(place := if r.proxied then WantShare else WantSlot, reader := true)])
    case GetShare(id) =>
      s.(freeForwarded := s.freeForwarded - 1,
         requests := s.requests[id := s.requests[id].(place := WantSlot, share := true)])
    case GetSlot(id) =>
      s.(freeBodies := s.freeBodies - 1,
         requests := s.requests[id := s.requests[id].(place := Reading, slot := true)])
    case GiveUp(id) => s.(requests := s.requests[id := s.requests[id].(place := Dropping)])
    case EndBody(id) => s.(requests := s.requests[id := s.requests[id].(place := Dropping)])
    case DropSlot(id) =>
      s.(freeBodies := s.freeBodies + 1, requests := s.requests[id := s.requests[id].(slot := false)])
    case DropShare(id) =>
      s.(freeForwarded := s.freeForwarded + 1, requests := s.requests[id := s.requests[id].(share := false)])
    case DropKey(id) =>
      var r := s.requests[id];
      s.(readers := s.readers - {r.key}, requests := s.requests[id := r.(reader := false)])
    case Dropped(id, panicked) =>
      if panicked then s.(requests := s.requests - {id})
      else s.(requests := s.requests[id := s.requests[id].(place := WantHandler)])
    case Leave(id) =>
      s.(freeHandlers := s.freeHandlers + B(s.requests[id].handler), requests := s.requests - {id})
  }

  function Init(c: Config): State {
    State(c.handlers, c.bodies, c.Forwarded(), {}, map[])
  }

  /** The state after a run of steps, each enabled where it is taken. */
  ghost predicate Reaches(s: State, steps: seq<Step>, t: State)
    decreases |steps|
  {
    if steps == [] then s == t
    else Enabled(s, steps[0]) && Reaches(Apply(s, steps[0]), steps[1..], t)
  }

  // ---- The invariant

  predicate HasHandler(r: Request) { r.handler }
  predicate HasSlot(r: Request) { r.slot }
  predicate HasShare(r: Request) { r.share }
  predicate HasProxiedSlot(r: Request) { r.slot && r.proxied }

  function Holders(m: map<Id, Request>, p: Request -> bool): set<Id> {
    set id | id in m && p(m[id])
  }

  /** What a request may hold at each place. */
  predicate Fits(r: Request) {
    match r.place
    case WantHandler => !r.handler && !r.reader && !r.share && !r.slot
    case Running => !r.reader && !r.share && !r.slot
    case Released => !r.handler && !r.reader && !r.share && !r.slot
    case WantShare => !r.handler && r.reader && r.proxied && !r.share && !r.slot
    case WantSlot => !r.handler && r.reader && r.share == r.proxied && !r.slot
    case Reading => !r.handler && r.reader && r.share == r.proxied && r.slot
    case Dropping => !r.handler && (r.share ==> r.reader && r.proxied) && (r.slot ==> r.reader && r.share == r.proxied)
  }

  /** Every permit is either free or held by exactly one request. */
  ghost predicate Conserved(c: Config, s: State) {
    && s.freeHandlers + |Holders(s.requests, HasHandler)| == c.handlers
    && s.freeBodies + |Holders(s.requests, HasSlot)| == c.bodies
    && s.freeForwarded + |Holders(s.requests, HasShare)| == c.Forwarded()
    && s.freeHandlers >= 0 && s.freeBodies >= 0 && s.freeForwarded >= 0
  }

  /** The reader set holds exactly the keys of the requests that read, and no key twice. */
  ghost predicate KeysMatch(s: State) {
    && (forall id | id in s.requests && s.requests[id].reader :: s.requests[id].key in s.readers)
    && (forall k | k in s.readers :: exists id :: id in s.requests && s.requests[id].reader && s.requests[id].key == k)
    && (forall i, j | i in s.requests && j in s.requests && i != j && s.requests[i].reader && s.requests[j].reader ::
          s.requests[i].key != s.requests[j].key)
  }

  ghost predicate Inv(c: Config, s: State) {
    && Conserved(c, s)
    && KeysMatch(s)
    && forall id | id in s.requests :: Fits(s.requests[id])
  }

  lemma HoldersPut(m: map<Id, Request>, id: Id, r: Request, p: Request -> bool)
    ensures |Holders(m[id := r], p)| == |Holders(m, p)| - B(id in m && p(m[id])) + B(p(r))
  {
    var rest := Holders(m, p) - {id};
    assert Holders(m[id := r], p) == if p(r) then rest + {id} else rest;
    assert Holders(m, p) == if id in m && p(m[id]) then rest + {id} else rest;
  }

  lemma HoldersDrop(m: map<Id, Request>, id: Id, p: Request -> bool)
    ensures |Holders(m - {id}, p)| == |Holders(m, p)| - B(id in m && p(m[id]))
  {
    var rest := Holders(m, p) - {id};
    assert Holders(m - {id}, p) == rest;
    assert Holders(m, p) == if id in m && p(m[id]) then rest + {id} else rest;
  }

  lemma ConservedStep(c: Config, s: State, step: Step)
    requires Inv(c, s) && Enabled(s, step)
    ensures Conserved(c, Apply(s, step))
  {
    hide Holders, KeysMatch;
    var t := Apply(s, step);
    var id := step.id;
    if id in t.requests {
      assert t.requests == s.requests[id := t.requests[id]];
      HoldersPut(s.requests, id, t.requests[id], HasHandler);
      HoldersPut(s.requests, id, t.requests[id], HasSlot);
      HoldersPut(s.requests, id, t.requests[id], HasShare);
    } else {
      assert t.requests == s.requests - {id};
      HoldersDrop(s.requests, id, HasHandler);
      HoldersDrop(s.requests, id, HasSlot);
      HoldersDrop(s.requests, id, HasShare);
    }
    assert id in s.requests ==> Fits(s.requests[id]);
  }

  predicate ReadsUnder(m: map<Id, Request>, id: Id, k: Key) {
    id in m && m[id].reader && m[id].key == k
  }

  /** A step that changes one request and neither its key nor whether it reads. */
  lemma KeysUntouched(s: State, t: State, id: Id)
    requires KeysMatch(s) && t.readers == s.readers
    requires forall j, k :: ReadsUnder(t.requests, j, k) <==> ReadsUnder(s.requests, j, k)
    ensures KeysMatch(t)
  {
    forall k | k in t.readers
      ensures exists j :: j in t.requests && t.requests[j].reader && t.requests[j].key == k
    {
      var j :| j in s.requests && s.requests[j].reader && s.requests[j].key == k;
      assert ReadsUnder(s.requests, j, k) && ReadsUnder(t.requests, j, k);
    }
    assert forall j | j in t.requests && t.requests[j].reader ::
      ReadsUnder(t.requests, j, t.requests[j].key) && ReadsUnder(s.requests, j, t.requests[j].key);
  }

  lemma KeyTaken(s: State, t: State, id: Id, r: Request)
    requires KeysMatch(s) && id in s.requests && !s.requests[id].reader
    requires r.reader && r.key !in s.readers
    requires t.readers == s.readers + {r.key} && t.requests == s.requests[id := r]
    ensures KeysMatch(t)
  {
    forall k | k in t.readers
      ensures exists j :: j in t.requests && t.requests[j].reader && t.requests[j].key == k
    {
      if k == r.key {
        assert t.requests[id].key == k;
      } else {
        var j :| j in s.requests && s.requests[j].reader && s.requests[j].key == k;
        assert t.requests[j].key == k;
      }
    }
  }

  lemma KeyDropped(s: State, t: State, id: Id, r: Request)
    requires KeysMatch(s) && id in s.requests && s.requests[id].reader && !r.reader
    requires t.readers == s.readers - {s.requests[id].key} && t.requests == s.requests[id := r]
    ensures KeysMatch(t)
  {
    forall k | k in t.readers
      ensures exists j :: j in t.requests && t.requests[j].reader && t.requests[j].key == k
    {
      var j :| j in s.requests && s.requests[j].reader && s.requests[j].key == k;
      assert t.requests[j].key == k;
    }
  }

  lemma KeysStep(c: Config, s: State, step: Step)
    requires Inv(c, s) && Enabled(s, step)
    ensures KeysMatch(Apply(s, step))
  {
    hide Conserved, Holders, KeysMatch;
    var t := Apply(s, step);
    var id := step.id;
    assert id in s.requests ==> Fits(s.requests[id]);
    if step.TakeKey? && s.requests[id].key !in s.readers {
      KeyTaken(s, t, id, t.requests[id]);
    } else if step.DropKey? {
      KeyDropped(s, t, id, t.requests[id]);
    } else {
      assert forall j | j != id :: (j in t.requests <==> j in s.requests)
                                && (j in t.requests ==> t.requests[j] == s.requests[j]);
      KeysUntouched(s, t, id);
    }
  }

  lemma FitsStep(c: Config, s: State, step: Step)
    requires Inv(c, s) && Enabled(s, step)
    ensures forall id | id in Apply(s, step).requests :: Fits(Apply(s, step).requests[id])
  {
    hide Conserved, KeysMatch, Holders, Fits, Apply, Enabled;
    forall id | id in Apply(s, step).requests
      ensures Fits(Apply(s, step).requests[id])
    {
      if id == step.id {
        MovedFits(s, step);
      } else {
        OthersStay(s, step, id);
      }
    }
  }

  lemma OthersStay(s: State, step: Step, id: Id)
    requires Enabled(s, step) && id != step.id && id in Apply(s, step).requests
    ensures id in s.requests && Apply(s, step).requests[id] == s.requests[id]
  {
  }

  lemma MovedFits(s: State, step: Step)
    requires Enabled(s, step) && (step.id in s.requests ==> Fits(s.requests[step.id]))
    requires step.id in Apply(s, step).requests
    ensures Fits(Apply(s, step).requests[step.id])
  {
  }

  lemma InitHolds(c: Config)
    ensures Inv(c, Init(c))
  {
    assert Holders(map[], HasHandler) == Holders(map[], HasSlot) == Holders(map[], HasShare) == {};
  }

  /** Every reachable state, in every interleaving, keeps the invariant. */
  lemma {:induction false} RunKeeps(c: Config, s: State, steps: seq<Step>, t: State)
    requires Inv(c, s) && Reaches(s, steps, t)
    ensures Inv(c, t)
    decreases |steps|
  {
    hide Conserved, KeysMatch, Holders, Fits;
    if steps != [] {
      ConservedStep(c, s, steps[0]);
      KeysStep(c, s, steps[0]);
      FitsStep(c, s, steps[0]);
      RunKeeps(c, Apply(s, steps[0]), steps[1..], t);
    }
  }

  // ---- What the steps of a run say about handlers

  predicate OfHandler(step: Step) {
    step.Arrive? || step.GetHandler? || step.GiveUpHandler? || step.Yield? || step.Release?
  }

  /** The last step of a request that had to do with its handler. */
  function LastOf(steps: seq<Step>, id: Id): (r: Option<Step>)
    ensures r.Some? ==> OfHandler(r.value)
  {
    if steps == [] then None
    else
      var last := steps[|steps| - 1];
      if last.id == id && OfHandler(last) then Some(last) else LastOf(steps[..|steps| - 1], id)
  }

  /** A request that runs has the handler it got last, or has yielded it, or had to give up getting it back. */
  predicate Earned(last: Option<Step>, r: Request) {
    && last.Some?
    && (r.handler <==> last.value.GetHandler?)
    && (r.place == Running ==> last.value.GetHandler? || last.value.Yield? || last.value.GiveUpHandler?)
    && (r.begun <==> !last.value.Arrive?)
  }

  ghost predicate AllEarned(done: seq<Step>, s: State) {
    forall id | id in s.requests :: Earned(LastOf(done, id), s.requests[id])
  }

  lemma EarnedStep(done: seq<Step>, s: State, step: Step)
    requires AllEarned(done, s) && Enabled(s, step) && forall id | id in s.requests :: Fits(s.requests[id])
    ensures AllEarned(done + [step], Apply(s, step))
  {
    var t := Apply(s, step);
    forall id | id in t.requests
      ensures Earned(LastOf(done + [step], id), t.requests[id])
    {
      assert (done + [step])[..|done|] == done;
      if id != step.id {
        OthersStay(s, step, id);
      } else {
        MovedEarned(LastOf(done, id), s, step);
      }
    }
  }

  lemma MovedEarned(last: Option<Step>, s: State, step: Step)
    requires Enabled(s, step) && step.id in Apply(s, step).requests
    requires step.id in s.requests ==> Earned(last, s.requests[step.id]) && Fits(s.requests[step.id])
    ensures Earned(if OfHandler(step) then Some(step) else last, Apply(s, step).requests[step.id])
  {
  }

  lemma {:induction false} EarnedRun(c: Config, done: seq<Step>, s: State, steps: seq<Step>, t: State)
    requires Inv(c, s) && AllEarned(done, s) && Reaches(s, steps, t)
    ensures AllEarned(done + steps, t)
    decreases |steps|
  {
    hide Conserved, KeysMatch, Fits, AllEarned, Apply;
    if steps == [] {
      assert done + steps == done;
    } else {
      EarnedStep(done, s, steps[0]);
      ConservedStep(c, s, steps[0]);
      KeysStep(c, s, steps[0]);
      FitsStep(c, s, steps[0]);
      EarnedRun(c, done + [steps[0]], Apply(s, steps[0]), steps[1..], t);
      assert done + [steps[0]] + steps[1..] == done + steps;
    }
  }

  /** In every run a request that runs holds a handler, unless it yielded the one it had or had to give up getting it
      back; after reading its body, or being refused as a second reader, it runs on only with a new one. */
  lemma RunningHoldsAHandler(c: Config, steps: seq<Step>, s: State, id: Id)
    requires Reaches(Init(c), steps, s) && At(s, id, Running)
    ensures var last := LastOf(steps, id);
            && last.Some? && (last.value.GetHandler? || last.value.Yield? || last.value.GiveUpHandler?)
            && (s.requests[id].handler <==> last.value.GetHandler?)
  {
    InitHolds(c);
    EarnedRun(c, [], Init(c), steps, s);
    assert [] + steps == steps;
  }

  // ---- The theorems about every run

  /** Free plus held is the size of each pool, in every reachable state. */
  lemma PermitsConserved(c: Config, steps: seq<Step>, s: State)
    requires Reaches(Init(c), steps, s)
    ensures Conserved(c, s)
  {
    InitHolds(c);
    RunKeeps(c, Init(c), steps, s);
  }

  /** A client key never has two readers. */
  lemma OneReaderPerKey(c: Config, steps: seq<Step>, s: State, i: Id, j: Id)
    requires Reaches(Init(c), steps, s)
    requires i in s.requests && j in s.requests && s.requests[i].reader && s.requests[j].reader
    requires s.requests[i].key == s.requests[j].key
    ensures i == j
  {
    InitHolds(c);
    RunKeeps(c, Init(c), steps, s);
  }

  datatype Resource = Handlers | Share | Bodies

  /** The pool a request is blocked on, if any. */
  function WaitsFor(s: State, id: Id): (r: set<Resource>)
    requires id in s.requests
  {
    match s.requests[id].place
    case WantHandler => if s.freeHandlers <= 0 then {Handlers} else {}
    case WantShare => if s.freeForwarded <= 0 then {Share} else {}
    case WantSlot => if s.freeBodies <= 0 then {Bodies} else {}
    case _ => {}
  }

  predicate Holds(s: State, id: Id, r: Resource)
    requires id in s.requests
  {
    match r
    case Handlers => s.requests[id].handler
    case Share => s.requests[id].share
    case Bodies => s.requests[id].slot
  }

  /** In every reachable state a request that waits for a permit gets it exactly when one is not held, and can give up,
      is blocked, exactly when all are. */
  lemma WaitsWhileAllAreHeld(c: Config, steps: seq<Step>, s: State, id: Id)
    requires Reaches(Init(c), steps, s) && id in s.requests
    ensures var all := |Holders(s.requests, HasHandler)| == c.handlers;
            && (Enabled(s, GetHandler(id)) <==> At(s, id, WantHandler) && !all)
            && (Enabled(s, GiveUpHandler(id)) <==> At(s, id, WantHandler) && all)
            && (Handlers in WaitsFor(s, id) <==> At(s, id, WantHandler) && all)
    ensures var all := |Holders(s.requests, HasShare)| == c.Forwarded();
            && (Enabled(s, GetShare(id)) <==> At(s, id, WantShare) && !all)
            && (Share in WaitsFor(s, id) <==> At(s, id, WantShare) && all)
    ensures var all := |Holders(s.requests, HasSlot)| == c.bodies;
            && (Enabled(s, GetSlot(id)) <==> At(s, id, WantSlot) && !all)
            && (Bodies in WaitsFor(s, id) <==> At(s, id, WantSlot) && all)
    ensures Enabled(s, GiveUp(id)) <==> Share in WaitsFor(s, id) || Bodies in WaitsFor(s, id)
  {
    PermitsConserved(c, steps, s);
    hide Holders;
  }

  /** A request goes only when its handler returns or panics, or when it gives up before it began. */
  lemma LeavesOnlyBy(s: State, step: Step, id: Id)
    requires Enabled(s, step) && id in s.requests
    ensures id !in Apply(s, step).requests <==>
              step == Leave(id) || step == Dropped(id, true) || (step == GiveUpHandler(id) && !s.requests[id].begun)
  {
  }

  /** `i` is blocked on a permit that `j` holds. */
  ghost predicate BlockedBy(s: State, i: Id, j: Id) {
    i in s.requests && j in s.requests && exists r :: r in WaitsFor(s, i) && Holds(s, j, r)
  }

  /** A chain of requests, each blocked by the next. */
  ghost predicate Chain(s: State, ids: seq<Id>) {
    forall k | 0 <= k < |ids| - 1 :: BlockedBy(s, ids[k], ids[k + 1])
  }

  function Depth(p: Place): nat {
    match p
    case WantShare => 2
    case WantSlot => 1
    case WantHandler => 1
    case _ => 0
  }

  /** Whoever blocks a request is closer to running than it is: a holder of a handler or of a slot
      waits for nothing, and a holder of a share waits at most for a slot. */
  lemma BlockersAreCloser(c: Config, s: State, i: Id, j: Id)
    requires Inv(c, s) && BlockedBy(s, i, j)
    ensures Depth(s.requests[j].place) < Depth(s.requests[i].place)
  {
    hide Conserved, KeysMatch;
    assert Fits(s.requests[i]) && Fits(s.requests[j]);
  }

  lemma {:induction false} ChainsDescend(c: Config, s: State, ids: seq<Id>)
    requires Inv(c, s) && Chain(s, ids) && |ids| > 1
    ensures ids[0] in s.requests && ids[|ids| - 1] in s.requests
    ensures Depth(s.requests[ids[0]].place) >= |ids| - 1 + Depth(s.requests[ids[|ids| - 1]].place)
  {
    hide Inv, Depth;
    var rest := ids[..|ids| - 1];
    var last := |ids| - 1;
    assert BlockedBy(s, ids[last - 1], ids[last]);
    BlockersAreCloser(c, s, ids[last - 1], ids[last]);
    if |rest| > 1 {
      assert Chain(s, rest);
      ChainsDescend(c, s, rest);
    }
  }

  /** In every reachable state a chain of waits has at most two links, so there is no cycle of waits. */
  lemma NoCyclicWait(c: Config, steps: seq<Step>, s: State, ids: seq<Id>)
    requires Reaches(Init(c), steps, s)
    requires Chain(s, ids) && |ids| > 1
    ensures |ids| <= 3
    ensures ids[0] != ids[|ids| - 1]
  {
    InitHolds(c);
    RunKeeps(c, Init(c), steps, s);
    ChainsDescend(c, s, ids);
  }

  /** The step with which a request moves on without giving up, when nothing blocks it. */
  function Onward(s: State, id: Id): Step
    requires id in s.requests
  {
    var r := s.requests[id];
    match r.place
    case WantHandler => GetHandler(id)
    case Running => Leave(id)
    case Released => TakeKey(id)
    case WantShare => GetShare(id)
    case WantSlot => GetSlot(id)
    case Reading => EndBody(id)
    case Dropping =>
      if r.slot then DropSlot(id) else if r.share then DropShare(id)
      else if r.reader then DropKey(id) else Dropped(id, false)
  }

  lemma SomeHolder(m: map<Id, Request>, p: Request -> bool) returns (id: Id)
    requires |Holders(m, p)| > 0
    ensures id in m && p(m[id])
  {
    id :| id in Holders(m, p);
  }

  /** Whatever blocks `id`, some holder of it, or of what blocks that holder, can move on. */
  lemma Mover(c: Config, s: State, id: Id) returns (m: Id)
    requires c.handlers > 0 && c.Forwarded() > 0
    requires Inv(c, s) && id in s.requests
    ensures m in s.requests && Enabled(s, Onward(s, m))
  {
    hide KeysMatch, Holders, Apply;
    m := id;
    if !Enabled(s, Onward(s, id)) {
      if s.requests[id].place == WantHandler {
        m := SomeHolder(s.requests, HasHandler);
      } else if s.freeBodies <= 0 {
        m := SomeHolder(s.requests, HasSlot);
      } else {
        m := SomeHolder(s.requests, HasShare);
      }
      assert Fits(s.requests[m]);
    }
  }

  /** A step of a request that is there, without giving up or panicking. */
  predicate MovesOn(s: State, step: Step) {
    && step.id in s.requests && Enabled(s, step)
    && !step.GiveUp? && !step.GiveUpHandler? && !step.Yield? && !step.Restore? && !(step.Dropped? && step.panicked)
  }

  lemma OnwardMovesOn(s: State, id: Id)
    requires id in s.requests && Enabled(s, Onward(s, id))
    ensures MovesOn(s, Onward(s, id))
  {
  }

  /** No deadlock: in every reachable state with a request in it, some request can move on without
      any other giving up. */
  lemma NoDeadlock(c: Config, steps: seq<Step>, s: State)
    requires c.handlers > 0 && c.Forwarded() > 0
    requires Reaches(Init(c), steps, s) && s.requests != map[]
    ensures exists step :: MovesOn(s, step)
  {
    InitHolds(c);
    RunKeeps(c, Init(c), steps, s);
    hide *;
    var id :| id in s.requests;
    var m := Mover(c, s, id);
    OnwardMovesOn(s, m);
  }

  // ---- Every request can finish

  /** How far a request is from its end. */
  function Rank(r: Request): nat {
    match r.place
    case Running => 1
    case WantHandler => 2
    case Dropping => 3 + B(r.slot) + B(r.share) + B(r.reader)
    case Reading => 7
    case WantSlot => 8
    case WantShare => 9
    case Released => 10
  }

  function Ranks(s: State, ids: seq<Id>): nat {
    if ids == [] then 0
    else
      var id := ids[|ids| - 1];
      Ranks(s, ids[..|ids| - 1]) + if id in s.requests then Rank(s.requests[id]) else 0
  }

  ghost predicate Lists(ids: seq<Id>, m: map<Id, Request>) {
    forall id | id in m :: id in ids
  }

  lemma {:induction false} ListOf(m: map<Id, Request>) returns (ids: seq<Id>)
    ensures Lists(ids, m)
    decreases |m|
  {
    ids := [];
    if m != map[] {
      var id :| id in m;
      var rest := ListOf(m - {id});
      ids := rest + [id];
    }
  }

  /** The onward step of a request takes it nearer to its end and leaves the others. */
  lemma OnwardIsNearer(s: State, id: Id)
    requires id in s.requests && Enabled(s, Onward(s, id)) && Fits(s.requests[id])
    ensures var t := Apply(s, Onward(s, id));
            (id in t.requests ==> Rank(t.requests[id]) < Rank(s.requests[id])) && 0 < Rank(s.requests[id])
    ensures Onward(s, id).id == id && Apply(s, Onward(s, id)).requests.Keys <= s.requests.Keys
  {
  }

  lemma {:induction false} RanksDrop(s: State, t: State, ids: seq<Id>, id: Id)
    requires forall x | x != id :: (x in s.requests <==> x in t.requests)
    requires forall x | x != id && x in s.requests :: t.requests[x] == s.requests[x]
    requires id in s.requests && (id in t.requests ==> Rank(t.requests[id]) < Rank(s.requests[id]))
    requires 0 < Rank(s.requests[id])
    ensures Ranks(t, ids) <= Ranks(s, ids) && (id in ids ==> Ranks(t, ids) < Ranks(s, ids))
  {
    hide Rank;
    if ids != [] {
      RanksDrop(s, t, ids[..|ids| - 1], id);
      assert ids == ids[..|ids| - 1] + [ids[|ids| - 1]];
    }
  }

  lemma OthersAreThere(s: State, step: Step, x: Id)
    requires Enabled(s, step) && x != step.id
    ensures x in s.requests <==> x in Apply(s, step).requests
    ensures x in s.requests ==> Apply(s, step).requests[x] == s.requests[x]
  {
  }

  /** A run of steps that only move requests on. */
  ghost predicate GoesOn(s: State, steps: seq<Step>, t: State)
    decreases |steps|
  {
    if steps == [] then s == t else MovesOn(s, steps[0]) && GoesOn(Apply(s, steps[0]), steps[1..], t)
  }

  lemma {:induction false} CanFinish(c: Config, s: State, ids: seq<Id>) returns (steps: seq<Step>, t: State)
    requires c.handlers > 0 && c.Forwarded() > 0 && Inv(c, s) && Lists(ids, s.requests)
    ensures GoesOn(s, steps, t) && t.requests == map[]
    decreases Ranks(s, ids)
  {
    if s.requests == map[] {
      return [], s;
    }
    var any :| any in s.requests;
    var m := Mover(c, s, any);
    var step := Onward(s, m);
    var u := Apply(s, step);
    assert Fits(s.requests[m]);
    hide Apply, Onward, Enabled, Fits, Rank, Conserved, KeysMatch, Holders, MovesOn, Ranks;
    OnwardMovesOn(s, m);
    OnwardIsNearer(s, m);
    forall x | x != m
      ensures x in s.requests <==> x in u.requests
      ensures x in s.requests ==> u.requests[x] == s.requests[x]
    {
      OthersAreThere(s, step, x);
    }
    RanksDrop(s, u, ids, m);
    ConservedStep(c, s, step);
    KeysStep(c, s, step);
    FitsStep(c, s, step);
    var rest;
    rest, t := CanFinish(c, u, ids);
    steps := [step] + rest;
    assert steps[1..] == rest;
  }

  /** From every reachable state all the requests in it can come to their end, without anyone giving up, yielding or
      panicking. */
  lemma EveryoneCanFinish(c: Config, steps: seq<Step>, s: State)
    requires c.handlers > 0 && c.Forwarded() > 0 && Reaches(Init(c), steps, s)
    ensures exists more, t :: GoesOn(s, more, t) && t.requests == map[]
  {
    InitHolds(c);
    RunKeeps(c, Init(c), steps, s);
    hide *;
    var ids := ListOf(s.requests);
    var more, t := CanFinish(c, s, ids);
  }

  /** And a request that arrives can read its body and come to its end, whatever its client. */
  lemma ArrivalCanRead(c: Config, steps: seq<Step>, s: State, id: Id, key: Key, proxied: bool)
    requires c.handlers > 0 && c.Forwarded() > 0 && c.bodies > 0
    requires Reaches(Init(c), steps, s) && s.requests == map[]
    ensures exists more, t :: Reaches(s, more, t) && At(t, id, Reading)
                           && t.requests[id].key == key && t.requests[id].proxied == proxied
  {
    InitHolds(c);
    RunKeeps(c, Init(c), steps, s);
    EmptyIsFresh(c, s);
    hide Inv, Reaches;
    var s1 := Apply(s, Arrive(id));
    var s2 := Apply(s1, GetHandler(id));
    var s3 := Apply(s2, Release(id, key, proxied));
    var s4 := Apply(s3, TakeKey(id));
    if proxied {
      var s5 := Apply(s4, GetShare(id));
      var s6 := Apply(s5, GetSlot(id));
      var more := [Arrive(id), GetHandler(id), Release(id, key, proxied), TakeKey(id), GetShare(id), GetSlot(id)];
      SixSteps(s, more, s1, s2, s3, s4, s5, s6);
    } else {
      var s5 := Apply(s4, GetSlot(id));
      var more := [Arrive(id), GetHandler(id), Release(id, key, proxied), TakeKey(id), GetSlot(id)];
      FiveSteps(s, more, s1, s2, s3, s4, s5);
    }
  }

  lemma EmptyIsFresh(c: Config, s: State)
    requires Inv(c, s) && s.requests == map[]
    ensures s == Init(c)
  {
    assert Holders(map[], HasHandler) == Holders(map[], HasSlot) == Holders(map[], HasShare) == {};
    assert s.readers == {};
  }

  lemma FiveSteps(s: State, steps: seq<Step>, s1: State, s2: State, s3: State, s4: State, s5: State)
    requires |steps| == 5 && Enabled(s, steps[0]) && s1 == Apply(s, steps[0])
    requires Enabled(s1, steps[1]) && s2 == Apply(s1, steps[1]) && Enabled(s2, steps[2]) && s3 == Apply(s2, steps[2])
    requires Enabled(s3, steps[3]) && s4 == Apply(s3, steps[3]) && Enabled(s4, steps[4]) && s5 == Apply(s4, steps[4])
    ensures Reaches(s, steps, s5)
  {
    hide Apply, Enabled;
    var a, b, d, e := steps[1..], steps[1..][1..], steps[1..][1..][1..], steps[1..][1..][1..][1..];
    assert Reaches(s5, e[1..], s5) && Reaches(s4, e, s5) && Reaches(s3, d, s5) && Reaches(s2, b, s5);
    assert Reaches(s1, a, s5);
  }

  lemma SixSteps(s: State, steps: seq<Step>, s1: State, s2: State, s3: State, s4: State, s5: State, s6: State)
    requires |steps| == 6 && Enabled(s, steps[0]) && s1 == Apply(s, steps[0])
    requires Enabled(s1, steps[1]) && s2 == Apply(s1, steps[1]) && Enabled(s2, steps[2]) && s3 == Apply(s2, steps[2])
    requires Enabled(s3, steps[3]) && s4 == Apply(s3, steps[3]) && Enabled(s4, steps[4]) && s5 == Apply(s4, steps[4])
    requires Enabled(s5, steps[5]) && s6 == Apply(s5, steps[5])
    ensures Reaches(s, steps, s6)
  {
    hide Apply, Enabled;
    FiveSteps(s1, steps[1..], s2, s3, s4, s5, s6);
  }

  lemma HoldersWithin(m: map<Id, Request>)
    requires forall id | id in m :: Fits(m[id])
    ensures |Holders(m, HasProxiedSlot)| <= |Holders(m, HasShare)|
  {
    var a, b := Holders(m, HasProxiedSlot), Holders(m, HasShare);
    assert a <= b;
    SubsetSize(a, b);
  }

  /** Readers behind a proxy together never hold more slots than their share, so while no direct
      reader holds one, a slot is free for the next direct reader at once. */
  lemma ReservedSlot(c: Config, steps: seq<Step>, s: State)
    requires c.proxyBodies < c.bodies
    requires Reaches(Init(c), steps, s)
    ensures |Holders(s.requests, HasProxiedSlot)| <= c.proxyBodies
    ensures Holders(s.requests, HasSlot) == Holders(s.requests, HasProxiedSlot) ==>
              && s.freeBodies > 0
              && forall id | At(s, id, WantSlot) :: Enabled(s, GetSlot(id))
  {
    InitHolds(c);
    RunKeeps(c, Init(c), steps, s);
    HoldersWithin(s.requests);
  }

  /** The pools the server is built with: proxied readers hold at most 3 of the 4 slots, and nothing deadlocks. */
  lemma DefaultPools(steps: seq<Step>, s: State)
    requires Reaches(Init(DEFAULT), steps, s)
    ensures |Holders(s.requests, HasProxiedSlot)| <= 3
    ensures s.requests != map[] ==> exists step :: MovesOn(s, step)
  {
    hide Reaches, Enabled;
    ReservedSlot(DEFAULT, steps, s);
    if s.requests != map[] {
      NoDeadlock(DEFAULT, steps, s);
    }
  }
}
