/** PID 1's reaper and the steps it serves. A step is spawned and registered under the table's lock; the
    reaper takes whatever child has ended, then looks it up under the lock and hands a step's status to
    that step's waiter; the waiter reports it once. Everything else that ends is an orphan. */
module Reaper {
  import opened Bytes

  type Pid = nat
  type Exec = nat

  datatype WaitStatus = ExitCode(n: int) | Signalled(n: int) | Other

  /** The exit code or the signal of a report. */
  function EndOf(status: WaitStatus): (Option<int>, Option<int>) {
    match status
    case ExitCode(n) => (Some(n), None)
    case Signalled(n) => (None, Some(n))
    case Other => (None, None)
  }

  /** A process: the step it is, if any, and how it ended once it has. */
  datatype Proc = Proc(owner: Option<Exec>, ended: Option<WaitStatus>)

  /** A step's waiter thread: it receives the end, forgets the step's pid, and reports. */
  datatype Waiter = Waiting | Got(end: (Option<int>, Option<int>)) | Leaving(end: (Option<int>, Option<int>)) | Reported

  /** What the reaper has taken from the kernel and not looked up yet. */
  datatype Reaped = Reaped(pid: Pid, status: WaitStatus, owner: Option<Exec>)

  datatype State = State(
    procs: map<Pid, Proc>,
    spawning: Option<(Exec, Pid)>,     // the lock is held across this spawn
    byPid: map<Pid, Exec>,
    pidOf: map<Exec, Pid>,
    reaper: Option<Reaped>,
    sending: Option<(Exec, WaitStatus)>,  // an entry the reaper took from the table and must still send to
    sent: map<Exec, WaitStatus>,       // a status on a step's channel
    waiters: map<Exec, Waiter>,
    reports: seq<(Exec, (Option<int>, Option<int>))>,
    truth: map<Exec, WaitStatus>)      // how each step really ended

  datatype Step =
    | Spawn(exec: Exec, pid: Pid)      // start, up to the fork
    | Register                         // start, after it: the table is updated and released
    | Fork(pid: Pid)                   // some process forks, or an orphan is handed over
    | Exit(pid: Pid, status: WaitStatus)
    | Waitpid(pid: Pid)
    | LookUp                           // the reaper takes the pid's entry from the table, under its lock
    | Send                             // and sends the status, without the lock
    | Receive(exec: Exec)
    | Abandon(exec: Exec)              // the channel closed without a status
    | Forget(exec: Exec)               // the waiter removes the step's pid, under the lock
    | Report(exec: Exec)

  /** A pid the reaper has in hand or the table still lists: the kernel may reuse it, and must not for a step. */
  predicate Busy(s: State, pid: Pid) {
    pid in s.byPid || (s.reaper.Some? && s.reaper.value.pid == pid)
  }

  predicate Sending(s: State, exec: Exec) {
    s.sending.Some? && s.sending.value.0 == exec
  }

  predicate Enabled(s: State, step: Step) {
    match step
    case Spawn(exec, pid) => s.spawning.None? && exec !in s.waiters && pid !in s.procs && !Busy(s, pid)
    case Register => s.spawning.Some?
    case Fork(pid) => pid !in s.procs
    case Exit(pid, _) => pid in s.procs && s.procs[pid].ended.None?
    case Waitpid(pid) => s.reaper.None? && s.sending.None? && pid in s.procs && s.procs[pid].ended.Some?
    case LookUp => s.reaper.Some? && s.spawning.None?
    case Send => s.sending.Some?
    case Receive(exec) => exec in s.waiters && s.waiters[exec].Waiting? && exec in s.sent
    case Abandon(exec) =>
      && exec in s.waiters && s.waiters[exec].Waiting? && exec !in s.sent && !Sending(s, exec)
      && exec !in s.byPid.Values && !(s.spawning.Some? && s.spawning.value.0 == exec)
    case Forget(exec) => s.spawning.None? && exec in s.waiters && s.waiters[exec].Got?
    case Report(exec) => exec in s.waiters && s.waiters[exec].Leaving?
  }

  function Apply(s: State, step: Step): State
    requires Enabled(s, step)
  {
    match step
    case Spawn(exec, pid) =>
      s.(procs := s.procs[pid := Proc(Some(exec), None)], spawning := Some((exec, pid)),
         waiters := s.waiters[exec := Waiting])
    case Register =>
      var (exec, pid) := s.spawning.value;
      s.(byPid := s.byPid[pid := exec], pidOf := s.pidOf[exec := pid], spawning := None)
    case Fork(pid) => s.(procs := s.procs[pid := Proc(None, None)])
    case Exit(pid, status) =>
      var p := s.procs[pid];
      s.(procs := s.procs[pid := p.(ended := Some(status))],
         truth := if p.owner.Some? then s.truth[p.owner.value := status] else s.truth)
    case Waitpid(pid) =>
      s.(procs := s.procs - {pid}, reaper := Some(Reaped(pid, s.procs[pid].ended.value, s.procs[pid].owner)))
    case LookUp =>
      var r := s.reaper.value;
      s.(reaper := None, byPid := s.byPid - {r.pid},
         sending := if r.pid in s.byPid then Some((s.byPid[r.pid], r.status)) else None)
    case Send => s.(sending := None, sent := s.sent[s.sending.value.0 := s.sending.value.1])
    case Receive(exec) => s.(waiters := s.waiters[exec := Got(EndOf(s.sent[exec]))])
    case Abandon(exec) => s.(waiters := s.waiters[exec := Got((None, None))])
    case Forget(exec) =>
      s.(waiters := s.waiters[exec := Leaving(s.waiters[exec].end)], pidOf := s.pidOf - {exec})
    case Report(exec) =>
      s.(waiters := s.waiters[exec := Reported], reports := s.reports + [(exec, s.waiters[exec].end)])
  }

  const INIT := State(map[], None, map[], map[], None, None, map[], map[], [], map[])

  ghost predicate Reaches(s: State, steps: seq<Step>, t: State)
    decreases |steps|
  {
    if steps == [] then s == t
    else Enabled(s, steps[0]) && Reaches(Apply(s, steps[0]), steps[1..], t)
  }

  // ---- Where each step is

  /** The pid under which a step is not yet handed over: being spawned, or registered. */
  predicate At(s: State, exec: Exec, pid: Pid) {
    (s.spawning == Some((exec, pid))) || (pid in s.byPid && s.byPid[pid] == exec)
  }

  /** The step's own process, alive, ended, or in the reaper's hand. */
  predicate Owns(s: State, exec: Exec, pid: Pid) {
    || (pid in s.procs && s.procs[pid].owner == Some(exec))
    || (s.reaper.Some? && s.reaper.value.pid == pid && s.reaper.value.owner == Some(exec))
  }

  predicate Unsent(s: State, exec: Exec) {
    exec in s.waiters && s.waiters[exec].Waiting? && exec !in s.sent
  }

  /** Pids and steps pair up one to one, and a step's pid is that of its own process. */
  ghost predicate Paired(s: State) {
    && (forall e, p, q | At(s, e, p) && At(s, e, q) :: p == q)
    && (forall e, f, p | At(s, e, p) && At(s, f, p) :: e == f)
    && (forall e, p | At(s, e, p) :: Unsent(s, e) && !Sending(s, e))
    && (forall e, p :: Owns(s, e, p) <==> At(s, e, p))
    && (s.reaper.Some? && s.reaper.value.pid in s.procs ==> s.procs[s.reaper.value.pid].owner.None?)
    && (s.sending.Some? ==> Unsent(s, s.sending.value.0))
    && (s.sending.Some? ==> s.reaper.None?)
  }

  /** A step that was sent nothing is still with the table or in the reaper's hand. */
  ghost predicate Accounted(s: State) {
    forall e | Unsent(s, e) :: Sending(s, e) || exists p :: At(s, e, p)
  }

  /** The true end of a step is known once its process ended. */
  ghost predicate ProcsTrue(s: State) {
    forall p | p in s.procs && s.procs[p].owner.Some? ::
      var e := s.procs[p].owner.value;
      if s.procs[p].ended.Some? then e in s.truth && s.truth[e] == s.procs[p].ended.value else e !in s.truth
  }

  /** What the reaper has in hand is the true end of the step it belongs to. */
  ghost predicate HandTrue(s: State) {
    && (s.reaper.Some? && s.reaper.value.owner.Some? ==>
          s.reaper.value.owner.value in s.truth && s.truth[s.reaper.value.owner.value] == s.reaper.value.status)
    && (s.sending.Some? ==> s.sending.value.0 in s.truth && s.truth[s.sending.value.0] == s.sending.value.1)
  }

  predicate Knows(w: Waiter) {
    w.Got? || w.Leaving?
  }

  /** And so is what was sent and what a waiter has received. */
  ghost predicate SentTrue(s: State) {
    && (forall e | e in s.sent :: e in s.waiters && e in s.truth && s.truth[e] == s.sent[e])
    && (forall e | e in s.waiters && Knows(s.waiters[e]) :: e in s.sent && s.waiters[e].end == EndOf(s.truth[e]))
    && (forall e | e in s.truth :: e in s.waiters)
  }

  /** The reports are those of the reported steps, one each, with their true ends. */
  ghost predicate Reporting(s: State) {
    && (forall i | 0 <= i < |s.reports| ::
          var (e, end) := s.reports[i];
          e in s.waiters && s.waiters[e].Reported? && e in s.truth && end == EndOf(s.truth[e]) && e in s.sent)
    && (forall i, j | 0 <= i < j < |s.reports| :: s.reports[i].0 != s.reports[j].0)
    && (forall e | e in s.waiters && s.waiters[e].Reported? :: exists i :: 0 <= i < |s.reports| && s.reports[i].0 == e)
  }

  /** The pid kept for signals is that of the table, and outlives its entry there. */
  ghost predicate PidsKept(s: State) {
    && (forall p | p in s.byPid :: s.byPid[p] in s.pidOf && s.pidOf[s.byPid[p]] == p)
    && (forall e | e in s.pidOf :: e in s.waiters && !(s.spawning.Some? && s.spawning.value.0 == e))
  }

  ghost predicate Inv(s: State) {
    Paired(s) && Accounted(s) && ProcsTrue(s) && HandTrue(s) && SentTrue(s) && Reporting(s) && PidsKept(s)
  }

  lemma InitHolds()
    ensures Inv(INIT)
  {
  }

  /** While the table, the spawn or the reaper has the step, its channel is open. */
  lemma NeverAbandoned(s: State, exec: Exec)
    requires Accounted(s)
    ensures !Enabled(s, Abandon(exec))
  {
    assert forall p | p in s.byPid :: s.byPid[p] in s.byPid.Values;
  }

  /** Neither the step nor the pid of a spawn is with anyone. */
  lemma SpawnIsNew(s: State, exec: Exec, pid: Pid)
    requires Inv(s) && Enabled(s, Spawn(exec, pid))
    ensures forall p :: !At(s, exec, p) && !Owns(s, exec, p)
    ensures forall e :: !At(s, e, pid) && !Owns(s, e, pid)
    ensures exec !in s.sent && !Sending(s, exec)
  {
    hide Accounted, ProcsTrue, HandTrue, Reporting, PidsKept, EndOf;
    assert forall p :: !At(s, exec, p);
    assert forall e :: !At(s, e, pid);
  }

  lemma SpawnPaired(s: State, exec: Exec, pid: Pid)
    requires Inv(s) && Enabled(s, Spawn(exec, pid))
    ensures Paired(Apply(s, Spawn(exec, pid)))
  {
    SpawnIsNew(s, exec, pid);
    hide Accounted, ProcsTrue, HandTrue, SentTrue, Reporting, PidsKept, EndOf;
    var t := Apply(s, Spawn(exec, pid));
    forall e, p ensures At(t, e, p) <==> At(s, e, p) || (e == exec && p == pid) {
    }
    forall e, p ensures Owns(t, e, p) <==> Owns(s, e, p) || (e == exec && p == pid) {
    }
    hide At, Owns;
    assert forall e | e != exec :: Unsent(t, e) == Unsent(s, e) && Sending(t, e) == Sending(s, e);
  }

  lemma LookUpPaired(s: State)
    requires Paired(s) && Enabled(s, LookUp)
    ensures Paired(Apply(s, LookUp))
  {
    var t := Apply(s, LookUp);
    var r := s.reaper.value;
    assert forall e, p :: At(t, e, p) <==> At(s, e, p) && p != r.pid;
    assert forall e, p :: Owns(t, e, p) <==> Owns(s, e, p) && p != r.pid;
    if r.pid in s.byPid {
      assert At(s, s.byPid[r.pid], r.pid);
    }
  }

  lemma PairedStep(s: State, step: Step)
    requires Inv(s) && Enabled(s, step)
    ensures Paired(Apply(s, step))
  {
    hide ProcsTrue, HandTrue, SentTrue, Reporting, PidsKept, EndOf;
    if step.Spawn? {
      SpawnPaired(s, step.exec, step.pid);
    } else if step.LookUp? {
      LookUpPaired(s);
    } else if step.Abandon? {
      NeverAbandoned(s, step.exec);
    } else {
      hide Accounted;
      var t := Apply(s, step);
      assert step.Register? ==> At(s, s.spawning.value.0, s.spawning.value.1);
      assert forall e, p :: At(t, e, p) <==> At(s, e, p);
      assert forall e, p :: Owns(t, e, p) <==> Owns(s, e, p);
    }
  }

  lemma AccountedStep(s: State, step: Step)
    requires Inv(s) && Enabled(s, step)
    ensures Accounted(Apply(s, step))
  {
    hide ProcsTrue, HandTrue, SentTrue, Reporting, PidsKept, EndOf;
    var t := Apply(s, step);
    assert step.Register? ==> At(s, s.spawning.value.0, s.spawning.value.1);
    forall e | Unsent(t, e)
      ensures Sending(t, e) || exists p :: At(t, e, p)
    {
      if step.Spawn? && e == step.exec {
        assert At(t, e, step.pid);
      } else {
        assert Unsent(s, e);
        if !Sending(s, e) {
          var p :| At(s, e, p);
          assert Sending(t, e) || At(t, e, p);
        }
      }
    }
  }

  lemma ProcsTrueStep(s: State, step: Step)
    requires Inv(s) && Enabled(s, step)
    ensures ProcsTrue(Apply(s, step))
  {
    assert step.Spawn? ==> step.exec !in s.truth;
    hide Accounted, HandTrue, SentTrue, Reporting, PidsKept, EndOf;
    if step.Exit? && s.procs[step.pid].owner.Some? {
      var e := s.procs[step.pid].owner.value;
      assert Owns(s, e, step.pid);
      assert forall p | p in s.procs && s.procs[p].owner == Some(e) :: Owns(s, e, p);
    } else {
      hide Paired;
    }
  }

  lemma HandTrueStep(s: State, step: Step)
    requires Inv(s) && Enabled(s, step)
    ensures HandTrue(Apply(s, step))
  {
    hide Accounted, SentTrue, Reporting, PidsKept, EndOf;
    if step.LookUp? {
      var r := s.reaper.value;
      if r.pid in s.byPid {
        assert At(s, s.byPid[r.pid], r.pid) && Owns(s, s.byPid[r.pid], r.pid);
      }
    } else if step.Exit? && s.procs[step.pid].owner.Some? {
      ExitIsNew(s, step.pid);
    } else {
      hide Paired;
    }
  }

  /** The step of a process that runs has no end yet, in anyone's hand. */
  lemma ExitIsNew(s: State, pid: Pid)
    requires Paired(s) && pid in s.procs && s.procs[pid].owner.Some?
    ensures var e := s.procs[pid].owner.value;
            && Unsent(s, e) && !Sending(s, e)
            && !(s.reaper.Some? && s.reaper.value.owner == Some(e))
  {
    var e := s.procs[pid].owner.value;
    assert Owns(s, e, pid) && At(s, e, pid);
    assert s.reaper.Some? && s.reaper.value.owner == Some(e) ==> Owns(s, e, s.reaper.value.pid);
  }

  lemma SentTrueStep(s: State, step: Step)
    requires Inv(s) && Enabled(s, step)
    ensures SentTrue(Apply(s, step))
  {
    hide Reporting, PidsKept, EndOf;
    if step.Abandon? {
      NeverAbandoned(s, step.exec);
    } else if step.Exit? && s.procs[step.pid].owner.Some? {
      ExitIsNew(s, step.pid);
      hide Paired, Accounted, ProcsTrue, HandTrue;
    } else {
      assert step.Send? ==> Unsent(s, s.sending.value.0);
      hide Paired, Accounted, ProcsTrue;
    }
  }

  lemma ReportingStep(s: State, step: Step)
    requires Inv(s) && Enabled(s, step)
    ensures Reporting(Apply(s, step))
  {
    hide PidsKept, EndOf;
    if step.Report? {
      ReportReporting(s, step.exec);
    } else if step.Abandon? {
      NeverAbandoned(s, step.exec);
    } else if step.Exit? && s.procs[step.pid].owner.Some? {
      ExitIsNew(s, step.pid);
      hide Paired, Accounted, ProcsTrue, HandTrue, SentTrue;
    } else {
      hide Paired, Accounted, ProcsTrue, HandTrue;
    }
  }

  lemma ReportReporting(s: State, exec: Exec)
    requires Reporting(s) && SentTrue(s) && Enabled(s, Report(exec))
    ensures Reporting(Apply(s, Report(exec)))
  {
    hide EndOf;
    var t := Apply(s, Report(exec));
    forall e | e in t.waiters && t.waiters[e].Reported?
      ensures exists i :: 0 <= i < |t.reports| && t.reports[i].0 == e
    {
      if e == exec {
        assert t.reports[|s.reports|].0 == e;
      } else {
        var i :| 0 <= i < |s.reports| && s.reports[i].0 == e;
        assert t.reports[i].0 == e;
      }
    }
  }

  lemma PidsKeptStep(s: State, step: Step)
    requires Inv(s) && Enabled(s, step)
    ensures PidsKept(Apply(s, step))
  {
    hide Accounted, ProcsTrue, HandTrue, Reporting, EndOf;
    assert step.Forget? ==> step.exec in s.sent;
    hide SentTrue;
    if step.Register? {
      assert At(s, s.spawning.value.0, s.spawning.value.1);
    } else if step.Forget? {
      assert forall p | p in s.byPid :: At(s, s.byPid[p], p);
    } else {
      hide Paired;
    }
  }

  lemma {:induction false} RunKeeps(s: State, steps: seq<Step>, t: State)
    requires Inv(s) && Reaches(s, steps, t)
    ensures Inv(t)
    decreases |steps|
  {
    hide Paired, Accounted, ProcsTrue, HandTrue, SentTrue, Reporting, PidsKept, Apply;
    if steps != [] {
      PairedStep(s, steps[0]);
      AccountedStep(s, steps[0]);
      ProcsTrueStep(s, steps[0]);
      HandTrueStep(s, steps[0]);
      SentTrueStep(s, steps[0]);
      ReportingStep(s, steps[0]);
      PidsKeptStep(s, steps[0]);
      RunKeeps(Apply(s, steps[0]), steps[1..], t);
    }
  }

  // ---- The theorems about every run

  /** The pid that a step was spawned with. */
  function PidIn(steps: seq<Step>, e: Exec): Option<Pid> {
    if steps == [] then None
    else
      var last := steps[|steps| - 1];
      if last.Spawn? && last.exec == e then Some(last.pid) else PidIn(steps[..|steps| - 1], e)
  }

  /** How a step's process ended: its first exit since. */
  function EndIn(steps: seq<Step>, e: Exec): Option<WaitStatus> {
    if steps == [] then None
    else
      var front, last := steps[..|steps| - 1], steps[|steps| - 1];
      if EndIn(front, e).Some? then EndIn(front, e)
      else if last.Exit? && PidIn(front, e) == Some(last.pid) then Some(last.status)
      else None
  }

  /** The state agrees with the run about one step. */
  ghost predicate RecordedOne(done: seq<Step>, s: State, e: Exec) {
    && (e in s.waiters <==> PidIn(done, e).Some?)
    && (if e in s.truth then e in s.waiters && EndIn(done, e) == Some(s.truth[e]) else EndIn(done, e).None?)
    && (e in s.waiters && e !in s.truth ==>
          var p := PidIn(done, e).value; p in s.procs && s.procs[p] == Proc(Some(e), None))
  }

  ghost predicate Recorded(done: seq<Step>, s: State) {
    && (forall e :: RecordedOne(done, s, e))
    && (forall p | p in s.procs && s.procs[p].owner.Some? && s.procs[p].ended.None? ::
          s.procs[p].owner.value in s.waiters && s.procs[p].owner.value !in s.truth
          && PidIn(done, s.procs[p].owner.value) == Some(p))
  }

  lemma InsNext(done: seq<Step>, step: Step, e: Exec)
    ensures PidIn(done + [step], e) == if step.Spawn? && step.exec == e then Some(step.pid) else PidIn(done, e)
    ensures EndIn(done + [step], e) ==
            if EndIn(done, e).Some? then EndIn(done, e)
            else if step.Exit? && PidIn(done, e) == Some(step.pid) then Some(step.status)
            else None
  {
    assert (done + [step])[..|done|] == done;
  }

  lemma RecordedStep(done: seq<Step>, s: State, step: Step)
    requires Recorded(done, s) && Enabled(s, step)
    ensures Recorded(done + [step], Apply(s, step))
  {
    hide PidIn, EndIn;
    var t := Apply(s, step);
    forall e
      ensures RecordedOne(done + [step], t, e)
    {
      InsNext(done, step, e);
      assert RecordedOne(done, s, e);
    }
    forall p | p in t.procs && t.procs[p].owner.Some? && t.procs[p].ended.None?
      ensures t.procs[p].owner.value in t.waiters && t.procs[p].owner.value !in t.truth
      ensures PidIn(done + [step], t.procs[p].owner.value) == Some(p)
    {
      var e := t.procs[p].owner.value;
      InsNext(done, step, e);
      assert RecordedOne(done, s, e);
    }
  }

  lemma {:induction false} RecordedRun(done: seq<Step>, s: State, steps: seq<Step>, t: State)
    requires Recorded(done, s) && Reaches(s, steps, t)
    ensures Recorded(done + steps, t)
    decreases |steps|
  {
    hide Recorded, Apply;
    if steps == [] {
      assert done + steps == done;
    } else {
      RecordedStep(done, s, steps[0]);
      RecordedRun(done + [steps[0]], Apply(s, steps[0]), steps[1..], t);
      assert done + [steps[0]] + steps[1..] == done + steps;
    }
  }

  /** A step's true end in a state is how its process exited in the run. */
  lemma TruthIsTheRuns(steps: seq<Step>, s: State, e: Exec)
    requires Reaches(INIT, steps, s)
    ensures e in s.waiters <==> PidIn(steps, e).Some?
    ensures e in s.truth <==> EndIn(steps, e).Some?
    ensures e in s.truth ==> EndIn(steps, e) == Some(s.truth[e])
  {
    assert Recorded([], INIT);
    RecordedRun([], INIT, steps, s);
    assert [] + steps == steps;
    assert RecordedOne(steps, s, e);
  }

  /** Every report says how its own step's process exited in the run, code as code and signal as signal, and no step
      is reported twice. */
  lemma ReportsAreTrueAndSingle(steps: seq<Step>, s: State, i: nat, j: nat)
    requires Reaches(INIT, steps, s) && i < |s.reports| && j < |s.reports|
    ensures var (e, end) := s.reports[i];
            && EndIn(steps, e).Some?
            && (forall n :: EndIn(steps, e) == Some(ExitCode(n)) <==> end == (Some(n), None))
            && (forall n :: EndIn(steps, e) == Some(Signalled(n)) <==> end == (None, Some(n)))
            && (EndIn(steps, e) == Some(Other) <==> end == (None, None))
    ensures s.reports[i].0 == s.reports[j].0 ==> i == j
  {
    InitHolds();
    RunKeeps(INIT, steps, s);
    TruthIsTheRuns(steps, s, s.reports[i].0);
  }

  /** No status but its own step's reaches a waiter: an orphan's end takes no entry from the table. */
  lemma OrphansReachNoWaiter(steps: seq<Step>, s: State)
    requires Reaches(INIT, steps, s) && Enabled(s, LookUp)
    ensures var t := Apply(s, LookUp);
            match s.reaper.value.owner
            case None => t.sending.None? && t.byPid == s.byPid
            case Some(e) => EndIn(steps, e).Some? && t.sending == Some((e, EndIn(steps, e).value))
  {
    InitHolds();
    RunKeeps(INIT, steps, s);
    if s.reaper.value.owner.Some? {
      TruthIsTheRuns(steps, s, s.reaper.value.owner.value);
    }
    hide Accounted, ProcsTrue, SentTrue, Reporting, PidsKept;
    var r := s.reaper.value;
    if r.pid in s.byPid {
      assert At(s, s.byPid[r.pid], r.pid) && Owns(s, s.byPid[r.pid], r.pid);
    }
    if r.owner.Some? {
      assert Owns(s, r.owner.value, r.pid) && At(s, r.owner.value, r.pid);
    }
  }

  /** Nothing left for any agent thread to do. */
  ghost predicate Quiet(s: State) {
    && !Enabled(s, Register) && !Enabled(s, LookUp) && !Enabled(s, Send)
    && (forall pid :: !Enabled(s, Waitpid(pid)))
    && (forall exec :: !Enabled(s, Receive(exec)) && !Enabled(s, Forget(exec)) && !Enabled(s, Report(exec)))
  }

  /** Once the agent's threads have nothing left to do, every step that has ended is reported. */
  lemma EndedStepsAreReported(steps: seq<Step>, s: State, exec: Exec)
    requires Reaches(INIT, steps, s) && Quiet(s) && EndIn(steps, exec).Some?
    ensures exists i :: 0 <= i < |s.reports| && s.reports[i].0 == exec
  {
    hide PidIn, EndIn;
    TruthIsTheRuns(steps, s, exec);
    InitHolds();
    RunKeeps(INIT, steps, s);
    EndedAreTaken(s, exec);
    hide Paired, Accounted, ProcsTrue, HandTrue, PidsKept;
    assert !Enabled(s, Receive(exec)) && !Enabled(s, Forget(exec)) && !Enabled(s, Report(exec));
  }

  /** An ended step that is still with the table leaves the reaper something to do. */
  lemma EndedAreTaken(s: State, exec: Exec)
    requires Inv(s) && exec in s.truth && Quiet(s)
    ensures exec in s.waiters && !Unsent(s, exec)
  {
    hide Reporting, PidsKept, EndOf;
    assert forall p | At(s, exec, p) :: Owns(s, exec, p);
    assert forall p | Owns(s, exec, p) :: p in s.procs && s.procs[p].ended.Some?;
    assert forall p | p in s.procs && s.procs[p].ended.Some? :: Enabled(s, Waitpid(p));
  }

  /** What `WaitIdle` looks at: the table, under its lock. */
  predicate Idle(s: State) {
    s.spawning.None? && s.byPid == map[]
  }

  /** It answers that the steps have ended only when every started one has ended and been reaped. The status has
      been sent exactly unless the reaper has it in hand: the table is empty from the lookup, not from the send. */
  lemma IdleMeansReaped(steps: seq<Step>, s: State, exec: Exec)
    requires Reaches(INIT, steps, s) && Idle(s) && PidIn(steps, exec).Some?
    ensures EndIn(steps, exec).Some? && forall p :: !Owns(s, exec, p)
    ensures exec in s.sent <==> !Sending(s, exec)
  {
    TruthIsTheRuns(steps, s, exec);
    InitHolds();
    RunKeeps(INIT, steps, s);
    hide ProcsTrue, PidsKept, EndOf, PidIn, EndIn;
    assert forall p :: !At(s, exec, p);
    assert Unsent(s, exec) ==> Sending(s, exec);
    assert Knows(s.waiters[exec]) ==> exec in s.sent;
    if s.waiters[exec].Reported? {
      var i :| 0 <= i < |s.reports| && s.reports[i].0 == exec;
    }
  }

  /** Such a moment is reached by every step that ends. */
  lemma IdleBeforeSent(exec: Exec, pid: Pid, status: WaitStatus)
    ensures exists steps, s :: Reaches(INIT, steps, s) && Idle(s) && exec in s.waiters && exec !in s.sent
  {
    var s1 := Apply(INIT, Spawn(exec, pid));
    var s2 := Apply(s1, Register);
    var s3 := Apply(s2, Exit(pid, status));
    var s4 := Apply(s3, Waitpid(pid));
    var s5 := Apply(s4, LookUp);
    assert Reaches(s5, [], s5);
    ReachesCons(s4, LookUp, [], s5);
    ReachesCons(s3, Waitpid(pid), [LookUp], s5);
    ReachesCons(s2, Exit(pid, status), [Waitpid(pid), LookUp], s5);
    ReachesCons(s1, Register, [Exit(pid, status), Waitpid(pid), LookUp], s5);
    ReachesCons(INIT, Spawn(exec, pid), [Register, Exit(pid, status), Waitpid(pid), LookUp], s5);
  }

  lemma ReachesCons(s: State, step: Step, rest: seq<Step>, t: State)
    requires Enabled(s, step) && Reaches(Apply(s, step), rest, t)
    ensures Reaches(s, [step] + rest, t)
  {
    assert ([step] + rest)[1..] == rest;
  }

  // ---- Signals

  /** The step's process has not been taken by the reaper. */
  predicate Unreaped(s: State, exec: Exec) {
    exists p :: p in s.procs && s.procs[p].owner == Some(exec)
  }

  /** The pid kept for a step never changes while it is kept. */
  lemma {:induction false} PidStays(s: State, steps: seq<Step>, t: State, exec: Exec)
    requires Inv(s) && Reaches(s, steps, t) && exec in s.pidOf
    ensures exec in t.waiters && !(t.spawning.Some? && t.spawning.value.0 == exec)
    ensures exec in t.pidOf ==> t.pidOf[exec] == s.pidOf[exec]
    ensures exec !in t.pidOf ==> !t.waiters[exec].Waiting?
    decreases |steps|
  {
    if steps != [] {
      var u := Apply(s, steps[0]);
      assert Inv(u) by { RunKeepsOne(s, steps[0]); }
      hide Inv;
      if exec in u.pidOf {
        assert u.pidOf[exec] == s.pidOf[exec] by { PidsStep(s, steps[0], exec); }
        PidStays(u, steps[1..], t, exec);
      } else {
        ForgottenStays(u, steps[1..], t, exec) by { PidsStep(s, steps[0], exec); }
      }
    } else {
      assert PidsKept(s);
    }
  }

  lemma RunKeepsOne(s: State, step: Step)
    requires Inv(s) && Enabled(s, step)
    ensures Inv(Apply(s, step))
  {
    hide Inv, Apply;
    var u := Apply(s, step);
    assert Reaches(u, [], u);
    ReachesCons(s, step, [], u);
    RunKeeps(s, [step] + [], u);
  }

  lemma PidsStep(s: State, step: Step, exec: Exec)
    requires Inv(s) && Enabled(s, step) && exec in s.pidOf
    ensures var u := Apply(s, step);
            if exec in u.pidOf then u.pidOf[exec] == s.pidOf[exec] else Forgotten(u, exec)
  {
    hide Paired, Accounted, ProcsTrue, HandTrue, SentTrue, Reporting, EndOf;
  }

  /** The step was forgotten: its waiter is past that, and nobody spawns it. */
  predicate Forgotten(s: State, exec: Exec) {
    && exec !in s.pidOf && exec in s.waiters && (s.waiters[exec].Leaving? || s.waiters[exec].Reported?)
    && !(s.spawning.Some? && s.spawning.value.0 == exec)
  }

  lemma ForgottenStep(s: State, step: Step, exec: Exec)
    requires Enabled(s, step) && Forgotten(s, exec)
    ensures Forgotten(Apply(s, step), exec)
  {
    hide EndOf;
  }

  /** A step that was forgotten is never registered again. */
  lemma {:induction false} ForgottenStays(s: State, steps: seq<Step>, t: State, exec: Exec)
    requires Reaches(s, steps, t) && Forgotten(s, exec)
    ensures Forgotten(t, exec)
    decreases |steps|
  {
    hide Apply, Enabled, Forgotten;
    if steps != [] {
      ForgottenStep(s, steps[0], exec);
      ForgottenStays(Apply(s, steps[0]), steps[1..], t, exec);
    }
  }

  /** A signal goes to the pid that was kept for the step, looked up under the lock and used after it. In every
      interleaving that pid names the step's own process exactly while the reaper has not taken it; from then on it
      names whatever process the kernel gives it to. */
  lemma SignalReachesItsStepIff(before: seq<Step>, s: State, later: seq<Step>, t: State, exec: Exec)
    requires Reaches(INIT, before, s) && Reaches(s, later, t) && exec in s.pidOf
    ensures var pid := s.pidOf[exec];
            (pid in t.procs && t.procs[pid].owner == Some(exec)) <==> Unreaped(t, exec)
  {
    InitHolds();
    RunKeeps(INIT, before, s);
    RunKeeps(s, later, t);
    PidStays(s, later, t, exec);
    hide Accounted, ProcsTrue, HandTrue, SentTrue, Reporting;
    if Unreaped(t, exec) {
      var p :| p in t.procs && t.procs[p].owner == Some(exec);
      assert Owns(t, exec, p) && At(t, exec, p) && Unsent(t, exec);
      assert t.byPid[p] == exec && t.pidOf[exec] == p;
    }
  }

  /** And that can happen before the waiter forgets the pid. */
  lemma SignalCanStray(exec: Exec, pid: Pid, status: WaitStatus)
    ensures exists steps, s ::
              Reaches(INIT, steps, s) && exec in s.pidOf && s.pidOf[exec] == pid && pid in s.procs && !Unreaped(s, exec)
  {
    var s1 := Apply(INIT, Spawn(exec, pid));
    var s2 := Apply(s1, Register);
    var s3 := Apply(s2, Exit(pid, status));
    var s4 := Apply(s3, Waitpid(pid));
    var s5 := Apply(s4, Fork(pid));
    assert Reaches(s5, [], s5);
    ReachesCons(s4, Fork(pid), [], s5);
    ReachesCons(s3, Waitpid(pid), [Fork(pid)], s5);
    ReachesCons(s2, Exit(pid, status), [Waitpid(pid), Fork(pid)], s5);
    ReachesCons(s1, Register, [Exit(pid, status), Waitpid(pid), Fork(pid)], s5);
    ReachesCons(INIT, Spawn(exec, pid), [Register, Exit(pid, status), Waitpid(pid), Fork(pid)], s5);
  }

  // ---- The condition on pids

  /** `start` when the kernel hands out a pid, whatever the reaper or the table still make of it. */
  function SpawnAnyway(s: State, exec: Exec, pid: Pid): State {
    s.(procs := s.procs[pid := Proc(Some(exec), None)], byPid := s.byPid[pid := exec],
       pidOf := s.pidOf[exec := pid], waiters := s.waiters[exec := Waiting])
  }

  /** A pid that the kernel has free is still in use here exactly when the reaper has it in hand. */
  lemma BusyMeansInHand(steps: seq<Step>, s: State, pid: Pid)
    requires Reaches(INIT, steps, s) && s.spawning.None? && pid !in s.procs
    ensures Busy(s, pid) <==> s.reaper.Some? && s.reaper.value.pid == pid
  {
    InitHolds();
    RunKeeps(INIT, steps, s);
    if pid in s.byPid {
      assert At(s, s.byPid[pid], pid) && Owns(s, s.byPid[pid], pid);
    }
  }

  /** A new step is sent the end of another process exactly when its pid is the one the reaper took and
      has not looked up yet: not being registered is not enough. */
  lemma MisdeliveredIffPidInHand(steps: seq<Step>, s: State, exec: Exec, pid: Pid)
    requires Reaches(INIT, steps, s) && s.spawning.None? && pid !in s.procs && exec !in s.waiters
    ensures var t := SpawnAnyway(s, exec, pid);
            (Enabled(t, LookUp) && Sending(Apply(t, LookUp), exec))
            <==> s.reaper.Some? && s.reaper.value.pid == pid
  {
    InitHolds();
    RunKeeps(INIT, steps, s);
    forall p | p in s.byPid
      ensures s.byPid[p] != exec
    {
      assert At(s, s.byPid[p], p);
    }
  }

  /** What that costs. The new step is sent the other status and its own end will find no entry; and if the pid was
      a step's, that step's channel closes without its status and it is reported with none. */
  lemma ReusedPidCostsBoth(steps: seq<Step>, s: State, exec: Exec, pid: Pid)
    requires Reaches(INIT, steps, s) && s.spawning.None? && pid !in s.procs && exec !in s.waiters
    requires s.reaper.Some? && s.reaper.value.pid == pid
    ensures var t := SpawnAnyway(s, exec, pid);
            && Enabled(t, LookUp)
            && var u := Apply(t, LookUp);
               u.sending == Some((exec, s.reaper.value.status)) && pid !in u.byPid
    ensures s.reaper.value.owner.Some? ==>
              var e := s.reaper.value.owner.value;
              var u := Apply(SpawnAnyway(s, exec, pid), LookUp);
              && e in s.truth && s.reaper.value.status == s.truth[e] && Enabled(u, Abandon(e))
              && var v := Apply(u, Abandon(e));
              && Enabled(v, Forget(e))
              && var w := Apply(v, Forget(e));
                 Enabled(w, Report(e)) && Apply(w, Report(e)).reports == s.reports + [(e, (None, None))]
  {
    InitHolds();
    RunKeeps(INIT, steps, s);
    hide Inv;
    if s.reaper.value.owner.Some? {
      InHand(s, pid);
      hide *;
      StatusIsLost(s, exec, pid);
    }
  }

  lemma StatusIsLost(s: State, exec: Exec, pid: Pid)
    requires s.spawning.None? && s.reaper.Some? && s.reaper.value.pid == pid && s.reaper.value.owner.Some?
    requires exec !in s.waiters && s.sending.None?
    requires var e := s.reaper.value.owner.value;
             Unsent(s, e) && forall q | q in s.byPid && s.byPid[q] == e :: q == pid
    ensures var e := s.reaper.value.owner.value;
            var u := Apply(SpawnAnyway(s, exec, pid), LookUp);
            && Enabled(u, Abandon(e))
            && var v := Apply(u, Abandon(e));
            && Enabled(v, Forget(e))
            && var w := Apply(v, Forget(e));
               Enabled(w, Report(e)) && Apply(w, Report(e)).reports == s.reports + [(e, (None, None))]
  {
    var e := s.reaper.value.owner.value;
    var u := Apply(SpawnAnyway(s, exec, pid), LookUp);
    assert e != exec && e !in u.byPid.Values;
  }

  /** A step whose process the reaper has in hand is registered, under that pid only, and waits. */
  lemma InHand(s: State, pid: Pid)
    requires Inv(s) && s.spawning.None? && s.reaper.Some? && s.reaper.value.pid == pid && s.reaper.value.owner.Some?
    ensures var e := s.reaper.value.owner.value;
            && e in s.truth && s.reaper.value.status == s.truth[e] && Unsent(s, e) && s.sending.None?
            && pid in s.byPid && s.byPid[pid] == e && forall q | q in s.byPid && s.byPid[q] == e :: q == pid
  {
    hide Accounted, ProcsTrue, SentTrue, Reporting, PidsKept, EndOf;
    var e := s.reaper.value.owner.value;
    assert Owns(s, e, pid) && At(s, e, pid);
    assert forall q | q in s.byPid && s.byPid[q] == e :: At(s, e, q);
  }
}
