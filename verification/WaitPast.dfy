/** The change counter that parked requests sleep on. A writer bumps the counter, looks whether anyone
    waits, and only then takes the lock to notify; a waiter registers before it takes the lock and
    reads the counter. Each atomic access and each lock operation is one step of some thread. */
module WaitPast {

  type Tid = nat

  datatype Thread =
    | Entering(seen: nat)    // about to register
    | Registered(seen: nat)  // counted, without the lock
    | Checking(seen: nat)    // holds the lock, about to read the generation
    | Sleepy(seen: nat)      // read it unchanged, holds the lock, about to sleep
    | Asleep(seen: nat)      // in the condition variable, lock released
    | Leaving(seen: nat)     // done, holds the lock
    | Unlocked(seen: nat)    // about to deregister
    | Bumping                // about to bump
    | Bumped                 // bumped, about to look at the waiters
    | Notifying              // saw waiters, without the lock
    | Holding                // holds the lock, about to notify

  datatype State = State(generation: nat, waiters: int, lock: bool, threads: map<Tid, Thread>)

  datatype Step =
    | Spawn(id: Tid, thread: Thread)
    | Go(id: Tid)          // the thread's next step
    | WakeUp(id: Tid)      // a timeout or a spurious wakeup
    | Expire(id: Tid)      // the deadline has passed when the generation is read

  predicate HoldsLock(t: Thread) {
    t.Checking? || t.Sleepy? || t.Leaving? || t.Holding?
  }

  predicate Counted(t: Thread) {
    t.Registered? || t.Checking? || t.Sleepy? || t.Asleep? || t.Leaving? || t.Unlocked?
  }

  /** A bump that may still notify. */
  predicate InFlight(t: Thread) {
    t.Bumped? || t.Notifying? || t.Holding?
  }

  predicate Enabled(s: State, step: Step) {
    match step
    case Spawn(id, thread) => id !in s.threads && (thread.Bumping? || thread.Entering?)
    case Go(id) => id in s.threads && !s.threads[id].Asleep?
                   && (s.threads[id].Registered? || s.threads[id].Notifying? ==> !s.lock)
    case WakeUp(id) => id in s.threads && s.threads[id].Asleep?
    case Expire(id) => id in s.threads && s.threads[id].Checking?
  }

  function Awake(m: map<Tid, Thread>): map<Tid, Thread> {
    map id | id in m :: if m[id].Asleep? then Registered(m[id].seen) else m[id]
  }

  function Apply(s: State, step: Step): State
    requires Enabled(s, step)
  {
    match step
    case Spawn(id, thread) => s.(threads := s.threads[id := thread])
    case WakeUp(id) => s.(threads := s.threads[id := Registered(s.threads[id].seen)])
    case Expire(id) => s.(threads := s.threads[id := Leaving(s.threads[id].seen)])
    case Go(id) =>
      match s.threads[id]
      case Entering(seen) => s.(waiters := s.waiters + 1, threads := s.threads[id := Registered(seen)])
      case Registered(seen) => s.(lock := true, threads := s.threads[id := Checking(seen)])
      case Checking(seen) =>
        s.(threads := s.threads[id := if s.generation != seen then Leaving(seen) else Sleepy(seen)])
      case Sleepy(seen) => s.(lock := false, threads := s.threads[id := Asleep(seen)])
      case Asleep(_) => s
      case Leaving(seen) => s.(lock := false, threads := s.threads[id := Unlocked(seen)])
      case Unlocked(_) => s.(waiters := s.waiters - 1, threads := s.threads - {id})
      case Bumping => s.(generation := s.generation + 1, threads := s.threads[id := Bumped])
      case Bumped => s.(threads := if s.waiters != 0 then s.threads[id := Notifying] else s.threads - {id})
      case Notifying => s.(lock := true, threads := s.threads[id := Holding])
      case Holding => s.(lock := false, threads := Awake(s.threads - {id}))
  }

  const INIT := State(0, 0, false, map[])

  ghost predicate Reaches(s: State, steps: seq<Step>, t: State)
    decreases |steps|
  {
    if steps == [] then s == t
    else Enabled(s, steps[0]) && Reaches(Apply(s, steps[0]), steps[1..], t)
  }

  function CountedIn(m: map<Tid, Thread>): set<Tid> {
    set id | id in m && Counted(m[id])
  }

  /** One thread at most holds the lock, and the lock knows it. */
  ghost predicate LockOk(s: State) {
    && (s.lock <==> exists id :: id in s.threads && HoldsLock(s.threads[id]))
    && forall i, j | i in s.threads && j in s.threads && HoldsLock(s.threads[i]) && HoldsLock(s.threads[j]) :: i == j
  }

  /** A waiter that sleeps, or is about to, past a generation that has moved is owed a notification. */
  ghost predicate Owed(s: State) {
    forall id | id in s.threads && (s.threads[id].Asleep? || s.threads[id].Sleepy?)
             && s.threads[id].seen != s.generation ::
      exists b :: b in s.threads && InFlight(s.threads[b])
  }

  ghost predicate Inv(s: State) {
    s.waiters == |CountedIn(s.threads)| && LockOk(s) && Owed(s)
  }

  lemma CountedPut(m: map<Tid, Thread>, id: Tid, t: Thread)
    ensures |CountedIn(m[id := t])|
         == |CountedIn(m)| - (if id in m && Counted(m[id]) then 1 else 0) + if Counted(t) then 1 else 0
  {
    var rest := CountedIn(m) - {id};
    assert CountedIn(m[id := t]) == if Counted(t) then rest + {id} else rest;
    assert CountedIn(m) == if id in m && Counted(m[id]) then rest + {id} else rest;
  }

  lemma CountedDrop(m: map<Tid, Thread>, id: Tid)
    ensures |CountedIn(m - {id})| == |CountedIn(m)| - if id in m && Counted(m[id]) then 1 else 0
  {
    var rest := CountedIn(m) - {id};
    assert CountedIn(m - {id}) == rest;
    assert CountedIn(m) == if id in m && Counted(m[id]) then rest + {id} else rest;
  }

  lemma CountStep(s: State, step: Step)
    requires s.waiters == |CountedIn(s.threads)| && Enabled(s, step)
    ensures Apply(s, step).waiters == |CountedIn(Apply(s, step).threads)|
  {
    hide CountedIn;
    var t := Apply(s, step);
    var id := step.id;
    CountedDrop(s.threads, id);
    if step.Go? && s.threads[id].Holding? {
      AwakeCounts(s.threads - {id});
    } else if id in t.threads {
      CountedPut(s.threads, id, t.threads[id]);
    }
  }

  lemma AwakeCounts(m: map<Tid, Thread>)
    ensures CountedIn(Awake(m)) == CountedIn(m)
  {
  }

  lemma LockStep(s: State, step: Step)
    requires LockOk(s) && Enabled(s, step)
    ensures LockOk(Apply(s, step))
  {
    var t := Apply(s, step);
    var id := step.id;
    if id in t.threads && HoldsLock(t.threads[id]) {
      assert t.lock;
    } else if t.lock {
      var i :| i in s.threads && HoldsLock(s.threads[i]);
      assert i in t.threads && HoldsLock(t.threads[i]);
    }
  }

  lemma OwedStep(s: State, step: Step)
    requires Inv(s) && Enabled(s, step)
    ensures Owed(Apply(s, step))
  {
    var t := Apply(s, step);
    var id := step.id;
    forall w | w in t.threads && (t.threads[w].Asleep? || t.threads[w].Sleepy?) && t.threads[w].seen != t.generation
      ensures exists b :: b in t.threads && InFlight(t.threads[b])
    {
      if step.Go? && s.threads[id].Bumping? {
        assert InFlight(t.threads[id]);
      } else if step.Go? && s.threads[id].Bumped? && s.waiters != 0 {
        assert InFlight(t.threads[id]);
      } else if step.Go? && s.threads[id].Notifying? {
        assert InFlight(t.threads[id]);
      } else {
        OwedStays(s, step, w);
      }
    }
  }

  /** The steps that start no notification: the waiter was owed one before, and still is. */
  lemma OwedStays(s: State, step: Step, w: Tid)
    requires Inv(s) && Enabled(s, step)
    requires step.Go? ==> !s.threads[step.id].Bumping? && !s.threads[step.id].Notifying?
    requires step.Go? && s.threads[step.id].Bumped? ==> s.waiters == 0
    requires var t := Apply(s, step);
             w in t.threads && (t.threads[w].Asleep? || t.threads[w].Sleepy?) && t.threads[w].seen != t.generation
    ensures exists b :: b in Apply(s, step).threads && InFlight(Apply(s, step).threads[b])
  {
    var t := Apply(s, step);
    var id := step.id;
    assert w in s.threads && (s.threads[w].Asleep? || s.threads[w].Sleepy?) && s.threads[w].seen != s.generation;
    assert w in CountedIn(s.threads);
    var b :| b in s.threads && InFlight(s.threads[b]);
    assert !(step.Go? && s.threads[id].Holding?);
    assert b in t.threads && t.threads[b] == s.threads[b];
  }

  lemma {:induction false} RunKeeps(s: State, steps: seq<Step>, t: State)
    requires Inv(s) && Reaches(s, steps, t)
    ensures Inv(t)
    decreases |steps|
  {
    hide LockOk, Owed, CountedIn, Apply;
    if steps != [] {
      CountStep(s, steps[0]);
      LockStep(s, steps[0]);
      OwedStep(s, steps[0]);
      RunKeeps(Apply(s, steps[0]), steps[1..], t);
    }
  }

  /** No wakeup is lost: in every reachable state, when every bump has finished, no waiter sleeps past a
      generation other than the one it has seen. */
  lemma NoSleeperIsForgotten(steps: seq<Step>, s: State, id: Tid)
    requires Reaches(INIT, steps, s)
    requires forall b | b in s.threads :: !InFlight(s.threads[b])
    requires id in s.threads && s.threads[id].Asleep?
    ensures s.threads[id].seen == s.generation
  {
    assert CountedIn(map[]) == {};
    RunKeeps(INIT, steps, s);
  }

  /** The bumps of a run: the first steps of its writers. */
  ghost function BumpsIn(s: State, steps: seq<Step>): nat
    decreases |steps|
  {
    if steps == [] || !Enabled(s, steps[0]) then 0
    else
      (if steps[0].Go? && s.threads[steps[0].id].Bumping? then 1 else 0) + BumpsIn(Apply(s, steps[0]), steps[1..])
  }

  /** The generation counts the bumps. */
  lemma {:induction false} GenerationCountsBumps(s: State, steps: seq<Step>, t: State)
    requires Reaches(s, steps, t)
    ensures t.generation == s.generation + BumpsIn(s, steps)
    decreases |steps|
  {
    if steps != [] {
      GenerationCountsBumps(Apply(s, steps[0]), steps[1..], t);
    }
  }

  /** So a bump wakes everyone: once it is through, whoever had seen the generation before it is not asleep. */
  lemma BumpWakesEveryone(before: seq<Step>, s: State, later: seq<Step>, t: State, id: Tid)
    requires Reaches(INIT, before, s) && Reaches(s, later, t) && BumpsIn(s, later) > 0
    requires forall b | b in t.threads :: !InFlight(t.threads[b])
    requires id in t.threads && Counted(t.threads[id]) && t.threads[id].seen <= s.generation
    ensures !t.threads[id].Asleep?
  {
    GenerationCountsBumps(s, later, t);
    if t.threads[id].Asleep? {
      ReachesOn(INIT, before, s, later, t);
      NoSleeperIsForgotten(before + later, t, id);
    }
  }

  lemma {:induction false} ReachesOn(s: State, a: seq<Step>, t: State, b: seq<Step>, u: State)
    requires Reaches(s, a, t) && Reaches(t, b, u)
    ensures Reaches(s, a + b, u)
    decreases |a|
  {
    hide Apply;
    if a == [] {
      assert a + b == b;
    } else {
      ReachesOn(Apply(s, a[0]), a[1..], t, b, u);
      assert (a + b)[1..] == a[1..] + b && (a + b)[0] == a[0];
    }
  }

  // ---- Why a waiter returns

  /** A waiter past `seen` that waits, or is leaving or gone because the generation moved. */
  ghost predicate WaitsPast(s: State, id: Tid, seen: nat) {
    if id !in s.threads then seen < s.generation
    else
      match s.threads[id]
      case Leaving(x) => x == seen < s.generation
      case Unlocked(x) => x == seen < s.generation
      case _ => Waits(s.threads[id]) && s.threads[id].seen == seen <= s.generation
  }

  predicate Waits(t: Thread) {
    t.Entering? || t.Registered? || t.Checking? || t.Sleepy? || t.Asleep?
  }

  lemma {:induction false} WaitsRun(s: State, id: Tid, seen: nat, steps: seq<Step>, t: State)
    requires WaitsPast(s, id, seen) && Reaches(s, steps, t)
    requires forall i | 0 <= i < |steps| :: steps[i] != Expire(id) && !(steps[i].Spawn? && steps[i].id == id)
    ensures WaitsPast(t, id, seen)
    decreases |steps|
  {
    if steps != [] {
      var u := Apply(s, steps[0]);
      assert steps[0] != Expire(id) && !(steps[0].Spawn? && steps[0].id == id);
      assert WaitsPast(u, id, seen);
      hide WaitsPast, Apply;
      assert forall i | 0 <= i < |steps[1..]| :: steps[1..][i] == steps[i + 1];
      WaitsRun(u, id, seen, steps[1..], t);
    }
  }

  /** Before its deadline a waiter returns only once the generation has moved past the one it had seen, whatever
      wakes it. */
  lemma ReturnsOnlyWhenMoved(s: State, id: Tid, seen: nat, steps: seq<Step>, t: State)
    requires id !in s.threads && seen <= s.generation
    requires Reaches(Apply(s, Spawn(id, Entering(seen))), steps, t)
    requires forall i | 0 <= i < |steps| :: steps[i] != Expire(id) && !(steps[i].Spawn? && steps[i].id == id)
    requires id !in t.threads || t.threads[id].Leaving? || t.threads[id].Unlocked?
    ensures t.generation > seen
  {
    WaitsRun(Apply(s, Spawn(id, Entering(seen))), id, seen, steps, t);
  }
}
