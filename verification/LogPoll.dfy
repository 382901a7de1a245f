/** A log poller against the writers of its attempt. A writer makes a frame readable and records the
    new frontier under the attempt's slot lock, and bumps the change generation afterwards; ending the
    log also closes the slot. The poller takes the generation, then the frontier, then reads; after a
    wakeup it re-reads only when the frontier has moved. */
module LogPoll {
  import opened Bytes

  /** What `frontier` answers: the last sequence number and whether the log ended, or nothing while no
      writer has the attempt open. */
  datatype Frontier = Frontier(last: nat, ended: bool)

  /** What a writer that holds the slot lock has begun, or that it ended the log and must still close. */
  datatype Writing = Free | Appending | Ending | Closing

  datatype Poller =
    | Starting
    | Sampled(seen: nat)                               // has the generation
    | Ready(seen: nat, frontier: Option<Frontier>)     // has both, about to read
    | Parked(seen: nat, frontier: Option<Frontier>)    // read nothing new, waits past `seen`
    | Awake(seen: nat, frontier: Option<Frontier>)     // took a newer generation, about to test
    | Answered

  datatype State = State(
    shown: nat,                 // the last readable frame
    shownEnd: bool,             // the readable end marker
    recorded: Frontier,         // what the slot records while it is open
    open: bool,
    writing: Writing,
    owed: nat,                  // writes done whose bump is still to come
    generation: nat,
    poller: Poller)

  datatype Step =
    | Show(frame: nat)  // an append writes its frame
    | Record            // and records it, and releases the slot
    | ShowEnd           // the log is ended
    | RecordEnd
    | CloseEnded        // the slot of an ended log is removed
    | Evict             // an idle slot is closed
    | Bump
    | BumpElsewhere     // another attempt's log changed
    | PollGeneration
    | PollFrontier
    | PollRead
    | Wake              // wait_past returned a newer generation
    | Test              // the frontier test

  function FrontierOf(s: State): Option<Frontier> {
    if s.open then Some(s.recorded) else None
  }

  /** There is something to answer with: a frame past the cursor, or the end. */
  predicate News(s: State, after: nat) {
    s.shown > after || s.shownEnd
  }

  predicate Enabled(s: State, step: Step) {
    match step
    case Show(n) => s.writing == Free && !s.shownEnd && n > s.shown
    case Record => s.writing == Appending
    case ShowEnd => s.writing == Free && !s.shownEnd
    case RecordEnd => s.writing == Ending
    case CloseEnded => s.writing == Closing
    case Evict => s.writing == Free
    case Bump => s.owed > 0
    case BumpElsewhere => true
    case PollGeneration => s.poller.Starting?
    case PollFrontier => s.poller.Sampled? && (s.writing == Free || s.writing == Closing)
    case PollRead => s.poller.Ready?
    case Wake => s.poller.Parked? && s.generation != s.poller.seen
    case Test => s.poller.Awake? && (s.writing == Free || s.writing == Closing)
  }

  function Apply(s: State, after: nat, step: Step): State
    requires Enabled(s, step)
  {
    match step
    case Show(n) => s.(shown := n, writing := Appending)
    case Record => s.(recorded := Frontier(s.shown, false), open := true, writing := Free, owed := s.owed + 1)
    case ShowEnd => s.(shownEnd := true, writing := Ending)
    case RecordEnd => s.(recorded := Frontier(s.shown, true), open := true, writing := Closing)
    case CloseEnded => s.(open := false, writing := Free, owed := s.owed + 1)
    case Evict => s.(open := false)
    case Bump => s.(generation := s.generation + 1, owed := s.owed - 1)
    case BumpElsewhere => s.(generation := s.generation + 1)
    case PollGeneration => s.(poller := Sampled(s.generation))
    case PollFrontier => s.(poller := Ready(s.poller.seen, FrontierOf(s)))
    case PollRead =>
      s.(poller := if News(s, after) then Answered else Parked(s.poller.seen, s.poller.frontier))
    case Wake => s.(poller := Awake(s.generation, s.poller.frontier))
    case Test =>
      var moved := FrontierOf(s);
      s.(poller := if moved == s.poller.frontier then Parked(s.poller.seen, moved) else Ready(s.poller.seen, moved))
  }

  /** An attempt as a poller finds it: any log, its slot open or not, no write under way. */
  ghost predicate Start(s: State) {
    && s.poller == Starting && s.writing == Free && s.owed == 0
    && s.recorded == Frontier(s.shown, s.shownEnd)
    && (s.shownEnd ==> !s.open)
  }

  ghost predicate Reaches(s: State, after: nat, steps: seq<Step>, t: State)
    decreases |steps|
  {
    if steps == [] then s == t
    else Enabled(s, steps[0]) && Reaches(Apply(s, after, steps[0]), after, steps[1..], t)
  }

  /** A write has begun whose bump is still to come. */
  predicate Underway(s: State) {
    s.writing != Free || s.owed > 0
  }

  predicate Holds(p: Poller) {
    p.Ready? || p.Parked? || p.Awake?
  }

  /** The frontier that the poller holds says nothing about what it has not read. */
  predicate Old(f: Option<Frontier>, after: nat) {
    f.Some? ==> f.value.last <= after && !f.value.ended
  }

  ghost predicate Inv(s: State, after: nat) {
    && (s.writing == Free || s.writing == Closing ==> s.open ==> s.recorded == Frontier(s.shown, s.shownEnd))
    && (s.writing == Appending ==> !s.shownEnd) && (s.writing == Ending ==> s.shownEnd)
    && (s.writing == Closing ==> s.open && s.shownEnd)
    && (Holds(s.poller) ==> s.poller.seen <= s.generation)
    && (s.poller.Sampled? ==> s.poller.seen <= s.generation)
    && (s.poller.Ready? && s.poller.frontier.Some? && !News(s, after) ==> Old(s.poller.frontier, after))
    && (s.poller.Parked? || s.poller.Awake? ==> Old(s.poller.frontier, after))
    && (s.poller.Parked? && News(s, after) && s.poller.frontier.Some? ==>
          s.generation != s.poller.seen || Underway(s))
    && (s.poller.Answered? ==> News(s, after))
  }

  lemma Keeps(s: State, after: nat, step: Step)
    requires Inv(s, after) && Enabled(s, step)
    ensures Inv(Apply(s, after, step), after)
  {
  }

  lemma {:induction false} RunKeeps(s: State, after: nat, steps: seq<Step>, t: State)
    requires Inv(s, after) && Reaches(s, after, steps, t)
    ensures Inv(t, after)
    decreases |steps|
  {
    hide Inv, Apply;
    if steps != [] {
      Keeps(s, after, steps[0]);
      RunKeeps(Apply(s, after, steps[0]), after, steps[1..], t);
    }
  }

  /** Parked with news, every bump done, and nothing to wake it. */
  ghost predicate Missed(s: State, after: nat) {
    s.poller.Parked? && News(s, after) && !Underway(s) && s.generation == s.poller.seen
  }

  /** No wakeup is missed by a poller that held a frontier: in every interleaving, once the bumps are
      done, news means a generation it has not seen. */
  lemma NoLostWakeup(s: State, after: nat, steps: seq<Step>, t: State)
    requires Start(s) && Reaches(s, after, steps, t)
    requires t.poller.Parked? && t.poller.frontier.Some? && News(t, after) && !Underway(t)
    ensures t.generation != t.poller.seen
  {
    RunKeeps(s, after, steps, t);
  }

  /** A poller is answered only with news. */
  lemma AnsweredMeansNews(s: State, after: nat, steps: seq<Step>, t: State)
    requires Start(s) && Reaches(s, after, steps, t) && t.poller.Answered?
    ensures t.shown > after || t.shownEnd
  {
    RunKeeps(s, after, steps, t);
  }

  /** The frontier test skips a re-read that is needed exactly when no writer had the attempt open at
      either look. */
  lemma TestSkipsIffClosedTwice(s: State, after: nat, steps: seq<Step>, t: State)
    requires Start(s) && Reaches(s, after, steps, t)
    requires Enabled(t, Test) && News(t, after)
    ensures Apply(t, after, Test).poller.Parked? <==> t.poller.frontier.None? && !t.open
  {
    RunKeeps(s, after, steps, t);
  }

  // ---- When news is missed

  /** Some continuation leads from `s` to `t`; a quiet one without another read of the log. */
  ghost predicate Leads(s: State, after: nat, quiet: bool, t: State) {
    exists steps :: Reaches(s, after, steps, t) && (quiet ==> PollRead !in steps)
  }

  lemma LeadsStep(s: State, after: nat, quiet: bool, step: Step)
    requires Enabled(s, step) && (quiet ==> step != PollRead)
    ensures Leads(s, after, quiet, Apply(s, after, step))
  {
    var t := Apply(s, after, step);
    assert Reaches(t, after, [], t);
    assert [step][1..] == [];
    assert Reaches(s, after, [step], t);
  }

  lemma LeadsOn(s: State, after: nat, quiet: bool, t: State, u: State)
    requires Leads(s, after, quiet, t) && Leads(t, after, quiet, u)
    ensures Leads(s, after, quiet, u)
  {
    var a :| Reaches(s, after, a, t) && (quiet ==> PollRead !in a);
    var b :| Reaches(t, after, b, u) && (quiet ==> PollRead !in b);
    ReachesOn(s, after, a, t, b, u);
    assert quiet ==> PollRead !in a + b;
  }

  lemma {:induction false} ReachesOn(s: State, after: nat, a: seq<Step>, t: State, b: seq<Step>, u: State)
    requires Reaches(s, after, a, t) && Reaches(t, after, b, u)
    ensures Reaches(s, after, a + b, u)
    decreases |a|
  {
    hide Apply;
    if a == [] {
      assert a + b == b;
    } else {
      ReachesOn(Apply(s, after, a[0]), after, a[1..], t, b, u);
      assert (a + b)[1..] == a[1..] + b && (a + b)[0] == a[0];
    }
  }

  lemma LeadsThen(s: State, after: nat, quiet: bool, t: State, step: Step) returns (u: State)
    requires Leads(s, after, quiet, t) && Enabled(t, step) && (quiet ==> step != PollRead)
    ensures u == Apply(t, after, step) && Leads(s, after, quiet, u)
  {
    hide Leads;
    u := Apply(t, after, step);
    LeadsStep(t, after, quiet, step);
    LeadsOn(s, after, quiet, t, u);
  }

  lemma LeadsNowhere(s: State, after: nat, quiet: bool)
    ensures Leads(s, after, quiet, s)
  {
    assert Reaches(s, after, [], s);
  }

  /** Some continuation leaves the poller parked over news with nothing to wake it. */
  ghost predicate MayMiss(s: State, after: nat, quiet: bool) {
    exists t :: Leads(s, after, quiet, t) && Missed(t, after)
  }

  /** The writes under way can finish, and their bumps follow, while the poller stays as it is. */
  lemma Finish(s: State, after: nat) returns (t: State)
    requires Inv(s, after)
    ensures Leads(s, after, true, t) && !Underway(t) && t.poller == s.poller
    ensures t.shown == s.shown && t.shownEnd == s.shownEnd
  {
    hide Leads, Inv;
    LeadsNowhere(s, after, true);
    t := s;
    if s.writing == Appending {
      t := LeadsThen(s, after, true, t, Record);
    }
    if t.writing == Ending {
      t := LeadsThen(s, after, true, t, RecordEnd);
    }
    if t.writing == Closing {
      t := LeadsThen(s, after, true, t, CloseEnded);
    }
    while t.owed > 0
      invariant Leads(s, after, true, t) && t.writing == Free && t.poller == s.poller
      invariant t.shown == s.shown && t.shownEnd == s.shownEnd
      decreases t.owed
    {
      t := LeadsThen(s, after, true, t, Bump);
    }
  }

  /** A parked poller that holds no frontier wakes, tests, and sleeps on while the slot is closed. */
  lemma SleepsOn(s: State, after: nat, t: State)
    requires Leads(s, after, true, t) && t.poller.Parked? && t.poller.frontier.None?
    requires !t.open && !Underway(t) && News(t, after)
    ensures exists u :: Leads(s, after, true, u) && Missed(u, after) && u.shown == t.shown && u.shownEnd == t.shownEnd
  {
    hide Leads;
    if t.generation != t.poller.seen {
      var u := LeadsThen(s, after, true, t, Wake);
      u := LeadsThen(s, after, true, u, Test);
      assert Missed(u, after);
    } else {
      assert Missed(t, after);
    }
  }

  /** Without a frontier the poller can miss what comes next: a frame, when the slot is closed again before
      the test, or the end, which closes the slot itself. */
  lemma NextIsMissed(s: State, after: nat, ended: bool) returns (u: State)
    requires Inv(s, after) && s.poller.Parked? && s.poller.frontier.None? && !s.shownEnd
    ensures Leads(s, after, true, u) && Missed(u, after) && u.shownEnd == ended && (!ended ==> u.shown > after)
  {
    hide Leads, Inv;
    var t := Finish(s, after);
    if ended {
      t := LeadsThen(s, after, true, t, ShowEnd);
      t := LeadsThen(s, after, true, t, RecordEnd);
      t := LeadsThen(s, after, true, t, CloseEnded);
    } else {
      t := LeadsThen(s, after, true, t, Show(if t.shown > after then t.shown + 1 else after + 1));
      t := LeadsThen(s, after, true, t, Record);
      t := LeadsThen(s, after, true, t, Evict);
    }
    t := LeadsThen(s, after, true, t, Bump);
    SleepsOn(s, after, t);
    u :| Leads(s, after, true, u) && Missed(u, after) && u.shown == t.shown && u.shownEnd == t.shownEnd;
  }

  lemma NothingHeldMisses(s: State, after: nat)
    requires Inv(s, after) && s.poller.Parked? && s.poller.frontier.None?
    ensures MayMiss(s, after, true)
  {
    hide Leads, Inv;
    if s.shownEnd {
      var t := Finish(s, after);
      t := LeadsThen(s, after, true, t, Evict);
      SleepsOn(s, after, t);
    } else {
      var u := NextIsMissed(s, after, true);
    }
  }

  /** Quiet steps keep a held frontier, or leave the poller about to read. */
  predicate StillHeld(s: State) {
    (s.poller.Parked? || s.poller.Awake?) && s.poller.frontier.Some?
  }

  lemma {:induction false} QuietKeepsHeld(s: State, after: nat, steps: seq<Step>, t: State)
    requires Reaches(s, after, steps, t) && PollRead !in steps && (StillHeld(s) || s.poller.Ready?)
    ensures StillHeld(t) || t.poller.Ready?
    decreases |steps|
  {
    if steps != [] {
      QuietKeepsHeld(Apply(s, after, steps[0]), after, steps[1..], t);
    }
  }

  /** Until it reads the log again, a parked poller can miss news exactly when it holds no frontier: when it
      found the attempt closed. Then it can miss a frame as well as the end. */
  lemma MissesUnreadIffNothingHeld(s0: State, after: nat, before: seq<Step>, s: State, ended: bool)
    requires Start(s0) && Reaches(s0, after, before, s) && s.poller.Parked?
    ensures MayMiss(s, after, true) <==> s.poller.frontier.None?
    ensures s.poller.frontier.None? && !s.shownEnd ==>
              exists u :: Leads(s, after, true, u) && Missed(u, after)
                       && u.shownEnd == ended && (!ended ==> u.shown > after)
  {
    RunKeeps(s0, after, before, s);
    hide Inv, Missed;
    if s.poller.frontier.None? {
      NothingHeldMisses(s, after);
      if !s.shownEnd {
        var u := NextIsMissed(s, after, ended);
      }
    } else if MayMiss(s, after, true) {
      var t :| Leads(s, after, true, t) && Missed(t, after);
      HeldIsNotMissed(s, after, t);
    }
  }

  lemma HeldIsNotMissed(s: State, after: nat, t: State)
    requires Inv(s, after) && StillHeld(s) && Leads(s, after, true, t)
    ensures !Missed(t, after)
  {
    var steps :| Reaches(s, after, steps, t) && PollRead !in steps;
    RunKeeps(s, after, steps, t);
    QuietKeepsHeld(s, after, steps, t);
  }

  // ---- Over every continuation

  /** News is there, and a poller that is not about to read or done holds a frontier. */
  predicate Told(s: State, after: nat) {
    News(s, after) && (StillHeld(s) || s.poller.Ready? || s.poller.Answered?)
  }

  lemma {:induction false} StaysTold(s: State, after: nat, steps: seq<Step>, t: State)
    requires Inv(s, after) && Told(s, after) && Reaches(s, after, steps, t)
    ensures Told(t, after)
    decreases |steps|
  {
    if steps != [] {
      Keeps(s, after, steps[0]);
      assert Told(Apply(s, after, steps[0]), after);
      hide Inv, Apply, Told;
      StaysTold(Apply(s, after, steps[0]), after, steps[1..], t);
    }
  }

  /** A poller that holds a frontier and has nothing to read can lose it: the slot is closed, another
      attempt's bump wakes it, and it parks again with none. */
  lemma HeldCanBeLost(s: State, after: nat) returns (u: State)
    requires Inv(s, after) && s.poller.Parked? && s.poller.frontier.Some? && !News(s, after)
    ensures Leads(s, after, false, u) && Inv(u, after) && u.poller.Parked? && u.poller.frontier.None?
  {
    var t := Finish(s, after);
    QuietLeads(s, after, t);
    assert t.poller.seen <= t.generation by { LeadsKeeps(s, after, false, t); }
    hide Leads, Inv;
    t := LeadsThen(s, after, false, t, Evict);
    t := LeadsThen(s, after, false, t, BumpElsewhere);
    t := LeadsThen(s, after, false, t, Wake);
    t := LeadsThen(s, after, false, t, Test);
    u := LeadsThen(s, after, false, t, PollRead);
    LeadsKeeps(s, after, false, u);
  }

  lemma QuietLeads(s: State, after: nat, t: State)
    requires Leads(s, after, true, t)
    ensures Leads(s, after, false, t)
  {
    var steps :| Reaches(s, after, steps, t) && PollRead !in steps;
  }

  lemma LeadsKeeps(s: State, after: nat, quiet: bool, t: State)
    requires Inv(s, after) && Leads(s, after, quiet, t)
    ensures Inv(t, after)
  {
    var steps :| Reaches(s, after, steps, t);
    RunKeeps(s, after, steps, t);
  }

  /** Over every continuation, reads included, a parked poller can come to miss news exactly unless there is
      news already and it holds a frontier: finding the attempt open once does not protect it for good. */
  lemma MissesUnlessTold(s0: State, after: nat, before: seq<Step>, s: State)
    requires Start(s0) && Reaches(s0, after, before, s) && s.poller.Parked?
    ensures MayMiss(s, after, false) <==> !(News(s, after) && s.poller.frontier.Some?)
  {
    RunKeeps(s0, after, before, s);
    if News(s, after) && s.poller.frontier.Some? {
      forall t | Leads(s, after, false, t) ensures !Missed(t, after) {
        var steps :| Reaches(s, after, steps, t);
        StaysTold(s, after, steps, t);
        RunKeeps(s, after, steps, t);
      }
    } else {
      hide Inv, Missed;
      var u := s;
      if s.poller.frontier.Some? {
        u := HeldCanBeLost(s, after);
      } else {
        LeadsNowhere(s, after, false);
      }
      NothingHeldMisses(u, after);
      var t :| Leads(u, after, true, t) && Missed(t, after);
      QuietLeads(u, after, t);
      LeadsOn(s, after, false, u, t);
    }
  }
}
