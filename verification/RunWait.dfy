/** A waiter for a run's version against committed writes. The waiter takes the generation before it
    reads the version; after a wakeup it may sleep and take the generation again, and always re-reads. */
module RunWait {

  datatype Run = Run(version: nat, finished: bool)

  datatype Waiter =
    | Starting
    | Sampled(seen: nat)             // has the generation, about to read
    | Parked(seen: nat, read: Run)   // waits past `seen`
    | Woken(seen: nat)               // took a newer generation, may take it again
    | Answered

  datatype State = State(stored: Run, owed: nat, generation: nat, waiter: Waiter)

  datatype Step =
    | Commit(run: Run)
    | Bump
    | BumpElsewhere
    | TakeGeneration
    | Read
    | Wake
    | Resample      // after the pause that spaces out re-reads
    | SkipPause

  predicate Enabled(s: State, step: Step) {
    match step
    case Commit(_) => true
    case Bump => s.owed > 0
    case BumpElsewhere => true
    case TakeGeneration => s.waiter.Starting?
    case Read => s.waiter.Sampled?
    case Wake => s.waiter.Parked? && s.generation != s.waiter.seen
    case Resample => s.waiter.Woken?
    case SkipPause => s.waiter.Woken?
  }

  function Apply(s: State, since: nat, step: Step): State
    requires Enabled(s, step)
  {
    match step
    case Commit(run) => s.(stored := run, owed := s.owed + 1)
    case Bump => s.(generation := s.generation + 1, owed := s.owed - 1)
    case BumpElsewhere => s.(generation := s.generation + 1)
    case TakeGeneration => s.(waiter := Sampled(s.generation))
    case Read =>
      s.(waiter := if s.stored.version == since && !s.stored.finished then Parked(s.waiter.seen, s.stored)
                   else Answered)
    case Wake => s.(waiter := Woken(s.generation))
    case Resample => s.(waiter := Sampled(s.generation))
    case SkipPause => s.(waiter := Sampled(s.waiter.seen))
  }

  ghost predicate Reaches(s: State, since: nat, steps: seq<Step>, t: State)
    decreases |steps|
  {
    if steps == [] then s == t
    else Enabled(s, steps[0]) && Reaches(Apply(s, since, steps[0]), since, steps[1..], t)
  }

  ghost predicate Inv(s: State, since: nat) {
    match s.waiter
    case Sampled(seen) => seen <= s.generation
    case Woken(seen) => seen <= s.generation
    case Parked(seen, read) =>
      && seen <= s.generation && read.version == since && !read.finished
      && (s.stored != read ==> seen < s.generation || s.owed > 0)
    case _ => true
  }

  lemma {:induction false} RunKeeps(s: State, since: nat, steps: seq<Step>, t: State)
    requires Inv(s, since) && Reaches(s, since, steps, t)
    ensures Inv(t, since)
    decreases |steps|
  {
    if steps != [] {
      RunKeeps(Apply(s, since, steps[0]), since, steps[1..], t);
    }
  }

  /** A parked waiter whose run has changed or finished is woken: once every bump is done, the
      generation is one it has not seen. */
  lemma NoLostChange(s: State, since: nat, steps: seq<Step>, t: State)
    requires s.waiter.Starting? && Reaches(s, since, steps, t)
    requires t.waiter.Parked? && t.owed == 0
    requires t.stored.version != since || t.stored.finished
    ensures t.generation != t.waiter.seen
  {
    RunKeeps(s, since, steps, t);
  }

  predicate Unchanged(r: Run, since: nat) {
    r.version == since && !r.finished
  }

  /** A waiter is not answered as long as its run stays as it was, whatever wakes it. */
  lemma {:induction false} AnsweredOnlyForAChange(s: State, since: nat, steps: seq<Step>, t: State)
    requires !s.waiter.Answered? && Unchanged(s.stored, since) && Reaches(s, since, steps, t)
    requires forall i | 0 <= i < |steps| && steps[i].Commit? :: Unchanged(steps[i].run, since)
    ensures !t.waiter.Answered?
    decreases |steps|
  {
    if steps != [] {
      assert steps[0].Commit? ==> Unchanged(steps[0].run, since);
      assert forall i | 0 <= i < |steps[1..]| :: steps[1..][i] == steps[i + 1];
      AnsweredOnlyForAChange(Apply(s, since, steps[0]), since, steps[1..], t);
    }
  }

  lemma ReachesThen(s: State, since: nat, steps: seq<Step>, t: State, step: Step)
    requires Reaches(s, since, steps, t) && Enabled(t, step)
    ensures Reaches(s, since, steps + [step], Apply(t, since, step))
    decreases |steps|
  {
    if steps == [] {
      assert steps + [step] == [step] && [step][1..] == [];
    } else {
      ReachesThen(Apply(s, since, steps[0]), since, steps[1..], t, step);
      assert (steps + [step])[1..] == steps[1..] + [step];
    }
  }

  /** The bumps that are owed can all be done, and leave nothing else changed. */
  lemma {:induction false} BumpsFinish(s: State, since: nat, steps: seq<Step>, t: State)
    returns (more: seq<Step>, u: State)
    requires Reaches(s, since, steps, t)
    ensures Reaches(s, since, more, u) && steps <= more && u.owed == 0 && u.waiter == t.waiter && u.stored == t.stored
    decreases t.owed
  {
    if t.owed == 0 {
      return steps, t;
    }
    ReachesThen(s, since, steps, t, Bump);
    more, u := BumpsFinish(s, since, steps + [Bump], Apply(t, since, Bump));
  }

  /** A parked waiter can always be answered once its run changes: some continuation of that commit does. */
  lemma ChangeCanBeAnswered(s0: State, since: nat, before: seq<Step>, s: State, run: Run)
    requires s0.waiter.Starting? && Reaches(s0, since, before, s) && s.waiter.Parked? && !Unchanged(run, since)
    ensures exists steps, t :: Reaches(s, since, steps, t) && Commit(run) in steps && t.waiter.Answered?
  {
    RunKeeps(s0, since, before, s);
    assert Reaches(s, since, [], s);
    ReachesThen(s, since, [], s, Commit(run));
    var steps: seq<Step> := [] + [Commit(run)];
    var t := Apply(s, since, Commit(run));
    steps, t := BumpsFinish(s, since, steps, t);
    assert Commit(run) in steps;
    RunKeeps(s, since, steps, t);
    hide Reaches;
    ReachesThen(s, since, steps, t, Wake);
    var u := Apply(t, since, Wake);
    ReachesThen(s, since, steps + [Wake], u, SkipPause);
    var v := Apply(u, since, SkipPause);
    ReachesThen(s, since, steps + [Wake] + [SkipPause], v, Read);
  }
}
