/** Replacing the key file. A rotation or a retirement clears a stale pending file, writes and syncs a
    backup of the old bytes, writes and syncs the new bytes beside the key, and renames them over it.
    The disk keeps directory changes back until their directory is synced: a crash lets any of them
    through and drops the others, and a file that was never synced may hold anything. */
module KeyFiles {
  import opened Bytes
  import opened KeyRing
  import Decimal
  import Sealing

  type Path = string

  datatype DirOp = Put(path: Path, inode: nat) | Remove(path: Path) | Move(from: Path, path: Path, inode: nat)

  datatype Inode = Inode(bytes: seq<byte>, synced: bool)

  /** Names that survive a crash, directory changes that may not, and the files themselves. */
  datatype Disk = Disk(durable: map<Path, nat>, pending: seq<DirOp>, inodes: map<nat, Inode>)

  function Do(names: map<Path, nat>, op: DirOp): map<Path, nat> {
    match op
    case Put(path, inode) => names[path := inode]
    case Remove(path) => names - {path}
    case Move(from, path, inode) => (names - {from})[path := inode]
  }

  function Replay(names: map<Path, nat>, ops: seq<DirOp>): map<Path, nat> {
    if ops == [] then names else Do(Replay(names, ops[..|ops| - 1]), ops[|ops| - 1])
  }

  /** The names a running process sees. */
  function Live(d: Disk): map<Path, nat> {
    Replay(d.durable, d.pending)
  }

  function Kept(ops: seq<DirOp>, keep: seq<bool>): seq<DirOp>
    requires |ops| == |keep|
  {
    if ops == [] then []
    else
      var last := |ops| - 1;
      Kept(ops[..last], keep[..last]) + if keep[last] then [ops[last]] else []
  }

  /** The files found after a crash. */
  ghost predicate CrashedTo(d: Disk, after: map<Path, seq<byte>>) {
    exists keep: seq<bool> | |keep| == |d.pending| :: CrashedKeeping(d, keep, after)
  }

  ghost predicate CrashedKeeping(d: Disk, keep: seq<bool>, after: map<Path, seq<byte>>)
    requires |keep| == |d.pending|
  {
    var names := Replay(d.durable, Kept(d.pending, keep));
    && after.Keys == names.Keys
    && forall p | p in names ::
         names[p] in d.inodes && d.inodes[names[p]].synced ==> after[p] == d.inodes[names[p]].bytes
  }

  predicate Touches(op: DirOp, p: Path) {
    op.path == p || (op.Move? && op.from == p)
  }

  // ---- One replacement

  /** The three files, the directory each path is in, and the bytes before and after. */
  datatype Plan = Plan(path: Path, backup: Path, staged: Path, dir: Dirs,
                       prior: seq<byte>, minted: seq<byte>)

  /** A backup at the key's own path is refused before anything is touched; the pending file is beside the
      key, under a longer name. */
  ghost predicate PlanOk(p: Plan) {
    p.backup != p.path && p.staged != p.path && p.dir(p.staged) == p.dir(p.path)
  }

  datatype Pc = Clear | MakeBackup | WriteBackup | SyncBackup | MakeStaged | WriteStaged
              | Rename | SyncDir | Undo | Failed | Done

  datatype State = State(pc: Pc, disk: Disk, next: nat, backupInode: nat, stagedInode: nat)

  function Begin(d: Disk, next: nat): State {
    State(Clear, d, next, 0, 0)
  }

  function Log(d: Disk, op: DirOp): Disk {
    d.(pending := d.pending + [op])
  }

  type Dirs = Path -> nat

  /** The changes made in directory `at`, or those made elsewhere. */
  function InDir(dir: Dirs, ops: seq<DirOp>, at: nat, wanted: bool): seq<DirOp> {
    if ops == [] then []
    else
      var last := |ops| - 1;
      InDir(dir, ops[..last], at, wanted) + if (dir(ops[last].path) == at) == wanted then [ops[last]] else []
  }

  /** `sync_parent`: the changes of one directory become durable. */
  function Flush(dir: Dirs, d: Disk, at: nat): Disk {
    Disk(Replay(d.durable, InDir(dir, d.pending, at, true)), InDir(dir, d.pending, at, false), d.inodes)
  }

  /** One system call of `rotate` or `retire`; `ok` is whether the operating system lets it succeed. */
  function Step(p: Plan, s: State, ok: bool): State {
    var d := s.disk;
    match s.pc
    case Clear =>
      if p.staged !in Live(d) then s.(pc := MakeBackup)
      else if ok then s.(pc := MakeBackup, disk := Log(d, Remove(p.staged)))
      else s.(pc := Failed)
    case MakeBackup =>
      if p.backup in Live(d) || !ok then s.(pc := Failed)
      else s.(pc := WriteBackup, next := s.next + 1, backupInode := s.next,
              disk := Log(d, Put(p.backup, s.next)).(inodes := d.inodes[s.next := Inode([], false)]))
    case WriteBackup =>
      if !ok then s.(pc := Failed)
      else s.(pc := SyncBackup, disk := d.(inodes := d.inodes[s.backupInode := Inode(p.prior, true)]))
    case SyncBackup =>
      if !ok then s.(pc := Failed) else s.(pc := MakeStaged, disk := Flush(p.dir, d, p.dir(p.backup)))
    case MakeStaged =>
      if p.staged in Live(d) || !ok then s.(pc := Undo)
      else s.(pc := WriteStaged, next := s.next + 1, stagedInode := s.next,
              disk := Log(d, Put(p.staged, s.next)).(inodes := d.inodes[s.next := Inode([], false)]))
    case WriteStaged =>
      if !ok then s.(pc := Undo)
      else s.(pc := Rename, disk := d.(inodes := d.inodes[s.stagedInode := Inode(p.minted, true)]))
    case Rename =>
      if !ok then s.(pc := Undo)
      else s.(pc := SyncDir, disk := Log(d, Move(p.staged, p.path, s.stagedInode)))
    case SyncDir =>
      if !ok then s.(pc := Failed) else s.(pc := Done, disk := Flush(p.dir, d, p.dir(p.path)))
    case Undo =>
      if ok && p.staged in Live(d) then s.(pc := Failed, disk := Log(d, Remove(p.staged))) else s.(pc := Failed)
    case Failed => s
    case Done => s
  }

  // ---- Names and directories

  /** A rename stays in its directory. */
  ghost predicate MovesStay(dir: Dirs, d: Disk) {
    forall op | op in d.pending && op.Move? :: dir(op.from) == dir(op.path) && op.from != op.path
  }

  lemma {:induction false} ReplayKeepsOthers(names: map<Path, nat>, ops: seq<DirOp>, q: Path)
    requires forall op | op in ops :: !Touches(op, q)
    ensures q in Replay(names, ops) <==> q in names
    ensures q in names ==> Replay(names, ops)[q] == names[q]
  {
    if ops != [] {
      assert ops[|ops| - 1] in ops;
      ReplayKeepsOthers(names, ops[..|ops| - 1], q);
    }
  }

  lemma {:induction false} KeptAreAmong(ops: seq<DirOp>, keep: seq<bool>)
    requires |ops| == |keep|
    ensures forall op | op in Kept(ops, keep) :: op in ops
  {
    if ops != [] {
      KeptAreAmong(ops[..|ops| - 1], keep[..|ops| - 1]);
    }
  }

  /** A name that only moves may change ends where it was or at one of them. */
  lemma {:induction false} ReplayMoves(names: map<Path, nat>, ops: seq<DirOp>, q: Path)
    requires q in names
    requires forall op | op in ops && Touches(op, q) :: op.Move? && op.path == q && op.from != q
    ensures q in Replay(names, ops)
    ensures || Replay(names, ops)[q] == names[q]
            || exists op :: op in ops && op.Move? && op.path == q && op.inode == Replay(names, ops)[q]
  {
    if ops != [] {
      var last := ops[|ops| - 1];
      assert last in ops;
      ReplayMoves(names, ops[..|ops| - 1], q);
      if Touches(last, q) {
        assert last.Move? && last.inode == Replay(names, ops)[q];
      }
    }
  }

  lemma {:induction false} InDirAreAmong(dir: Dirs, ops: seq<DirOp>, at: nat, wanted: bool)
    ensures forall op :: op in InDir(dir, ops, at, wanted) <==> op in ops && (dir(op.path) == at) == wanted
  {
    if ops != [] {
      InDirAreAmong(dir, ops[..|ops| - 1], at, wanted);
      assert ops == ops[..|ops| - 1] + [ops[|ops| - 1]];
    }
  }

  lemma {:induction false} ReplayBounded(names: map<Path, nat>, ops: seq<DirOp>, next: nat)
    requires forall q | q in names :: names[q] < next
    requires forall op | op in ops && !op.Remove? :: op.inode < next
    ensures forall q | q in Replay(names, ops) :: Replay(names, ops)[q] < next
  {
    if ops != [] {
      assert ops[|ops| - 1] in ops;
      ReplayBounded(names, ops[..|ops| - 1], next);
    }
  }

  /** Changes to different names commute. */
  lemma DoCommutes(names: map<Path, nat>, a: DirOp, b: DirOp)
    requires forall q :: !(Touches(a, q) && Touches(b, q))
    ensures Do(Do(names, a), b) == Do(Do(names, b), a)
  {
    assert Touches(a, a.path) && Touches(b, b.path);
    assert a.Move? ==> Touches(a, a.from);
    assert b.Move? ==> Touches(b, b.from);
  }

  lemma {:induction false} DoPastReplay(names: map<Path, nat>, x: DirOp, ops: seq<DirOp>)
    requires forall op, q | op in ops :: !(Touches(x, q) && Touches(op, q))
    ensures Replay(Do(names, x), ops) == Do(Replay(names, ops), x)
  {
    hide Do;
    if ops != [] {
      var last := ops[|ops| - 1];
      assert last in ops;
      DoPastReplay(names, x, ops[..|ops| - 1]);
      DoCommutes(Replay(names, ops[..|ops| - 1]), x, last);
    }
  }

  /** Syncing a directory changes what a crash can take back, not what a running process sees. */
  lemma {:induction false} FlushKeepsNames(dir: Dirs, names: map<Path, nat>, ops: seq<DirOp>, at: nat)
    requires StayAll(dir, ops)
    ensures Replay(Replay(names, InDir(dir, ops, at, true)), InDir(dir, ops, at, false)) == Replay(names, ops)
  {
    if ops != [] {
      var rest, x := ops[..|ops| - 1], ops[|ops| - 1];
      assert Stays(dir, x) && StayAll(dir, rest) by {
        assert x in ops && forall op | op in rest :: op in ops;
      }
      assert rest + [x] == ops;
      FlushKeepsNames(dir, names, rest, at);
      hide *;
      FlushNext(dir, names, rest, at, x);
    }
  }

  lemma FlushNext(dir: Dirs, names: map<Path, nat>, rest: seq<DirOp>, at: nat, x: DirOp)
    requires Stays(dir, x) && StayAll(dir, rest)
    requires Replay(Replay(names, InDir(dir, rest, at, true)), InDir(dir, rest, at, false)) == Replay(names, rest)
    ensures Replay(Replay(names, InDir(dir, rest + [x], at, true)), InDir(dir, rest + [x], at, false))
         == Replay(names, rest + [x])
  {
    hide *;
    InDirNext(dir, rest, at, true, x);
    InDirNext(dir, rest, at, false, x);
    ReplayNext(names, rest, x);
    if dir(x.path) == at {
      FlushHere(dir, names, rest, at, x);
    } else {
      ReplayNext(Replay(names, InDir(dir, rest, at, true)), InDir(dir, rest, at, false), x);
    }
  }

  /** A change that does not move a name out of its directory. */
  ghost predicate Stays(dir: Dirs, op: DirOp) {
    op.Move? ==> dir(op.from) == dir(op.path)
  }

  ghost predicate StayAll(dir: Dirs, ops: seq<DirOp>) {
    forall op | op in ops :: Stays(dir, op)
  }

  lemma FlushHere(dir: Dirs, names: map<Path, nat>, rest: seq<DirOp>, at: nat, x: DirOp)
    requires dir(x.path) == at && Stays(dir, x) && StayAll(dir, rest)
    ensures var here, there := InDir(dir, rest, at, true), InDir(dir, rest, at, false);
            Replay(Replay(names, here + [x]), there) == Do(Replay(Replay(names, here), there), x)
  {
    var here, there := InDir(dir, rest, at, true), InDir(dir, rest, at, false);
    InDirAreAmong(dir, rest, at, false);
    hide Do, Replay, InDir;
    ReplayNext(names, here, x);
    forall op, q | op in there
      ensures !(Touches(x, q) && Touches(op, q))
    {
      assert op in rest && Stays(dir, op);
    }
    DoPastReplay(Replay(names, here), x, there);
  }

  lemma InDirNext(dir: Dirs, rest: seq<DirOp>, at: nat, wanted: bool, x: DirOp)
    ensures InDir(dir, rest + [x], at, wanted)
         == if (dir(x.path) == at) == wanted then InDir(dir, rest, at, wanted) + [x] else InDir(dir, rest, at, wanted)
  {
    assert (rest + [x])[..|rest|] == rest;
  }

  lemma ReplayNext(names: map<Path, nat>, ops: seq<DirOp>, x: DirOp)
    ensures Replay(names, ops + [x]) == Do(Replay(names, ops), x)
  {
    assert (ops + [x])[..|ops|] == ops;
    hide Do;
  }

  lemma FlushKeepsLive(dir: Dirs, d: Disk, at: nat)
    requires MovesStay(dir, d)
    ensures Live(Flush(dir, d, at)) == Live(d)
  {
    FlushKeepsNames(dir, d.durable, d.pending, at);
  }

  lemma LogLive(d: Disk, op: DirOp)
    ensures Live(Log(d, op)) == Do(Live(d), op)
  {
    assert (d.pending + [op])[..|d.pending|] == d.pending;
  }

  // ---- What holds at every point

  ghost predicate Holds(d: Disk, inode: nat, bytes: seq<byte>) {
    inode in d.inodes && d.inodes[inode] == Inode(bytes, true)
  }

  /** The backup is on disk for good, with the old bytes. */
  ghost predicate BackedUp(p: Plan, d: Disk) {
    && p.backup in d.durable && Holds(d, d.durable[p.backup], p.prior)
    && forall op | op in d.pending :: !Touches(op, p.backup)
  }

  /** Some change of the name is not on disk yet. */
  ghost predicate Unsynced(d: Disk, path: Path) {
    exists op :: op in d.pending && Touches(op, path)
  }

  ghost predicate Untouched(p: Plan, d: Disk) {
    p.path in d.durable && Holds(d, d.durable[p.path], p.prior) && !Unsynced(d, p.path)
  }

  /** Anything that puts the new bytes at the key path comes with the backup. */
  ghost predicate Safe(p: Plan, d: Disk) {
    || Untouched(p, d)
    || (&& BackedUp(p, d)
        && p.path in d.durable
        && (Holds(d, d.durable[p.path], p.prior) || Holds(d, d.durable[p.path], p.minted))
        && forall op | op in d.pending && Touches(op, p.path) ::
             op.Move? && op.path == p.path && op.from == p.staged && Holds(d, op.inode, p.minted))
  }

  /** Files are numbered below the next number. */
  ghost predicate Allocated(d: Disk, next: nat) {
    && (forall q | q in d.durable :: d.durable[q] < next)
    && (forall op | op in d.pending && !op.Remove? :: op.inode < next)
  }

  /** `clean` says that the operation began without an unsynced change of the key path. */
  ghost predicate Inv(p: Plan, s: State, clean: bool) {
    && (clean ==> Safe(p, s.disk))
    && (clean && s.pc != SyncDir && s.pc != Done && s.pc != Failed ==> Untouched(p, s.disk))
    && Allocated(s.disk, s.next)
    && MovesStay(p.dir, s.disk)
    && match s.pc
       case WriteBackup => BackupNamed(p, s)
       case SyncBackup => BackupNamed(p, s) && Holds(s.disk, s.backupInode, p.prior)
       case MakeStaged => BackedUp(p, s.disk)
       case WriteStaged => BackedUp(p, s.disk) && StagedApart(p, s)
       case Rename => BackedUp(p, s.disk) && StagedApart(p, s) && Holds(s.disk, s.stagedInode, p.minted)
       case SyncDir => BackedUp(p, s.disk) && Renamed(p, s)
       case Done => Replaced(p, s.disk)
       case _ => true
  }

  ghost predicate Renamed(p: Plan, s: State) {
    && s.disk.pending != []
    && s.disk.pending[|s.disk.pending| - 1] == Move(p.staged, p.path, s.stagedInode)
    && Holds(s.disk, s.stagedInode, p.minted)
  }

  /** The replacement is on disk for good. */
  ghost predicate Replaced(p: Plan, d: Disk) {
    && BackedUp(p, d)
    && p.path in d.durable && Holds(d, d.durable[p.path], p.minted) && !Unsynced(d, p.path)
  }

  /** The backup's name is the last change, its file apart from the key's. */
  ghost predicate BackupNamed(p: Plan, s: State) {
    && s.disk.pending != [] && s.disk.pending[|s.disk.pending| - 1] == Put(p.backup, s.backupInode)
    && s.backupInode < s.next
    && (p.path in s.disk.durable ==> s.disk.durable[p.path] != s.backupInode)
  }

  ghost predicate StagedApart(p: Plan, s: State) {
    && p.staged != p.backup && s.stagedInode < s.next
    && (p.path in s.disk.durable ==> s.disk.durable[p.path] != s.stagedInode)
    && p.backup in s.disk.durable && s.disk.durable[p.backup] != s.stagedInode
  }

  /** After a crash the key path has the old bytes, or the new ones with the old in the backup. */
  ghost predicate Recoverable(p: Plan, after: map<Path, seq<byte>>) {
    && p.path in after
    && (after[p.path] == p.prior
        || (after[p.path] == p.minted && p.backup in after && after[p.backup] == p.prior))
  }

  lemma SafeIsRecoverable(p: Plan, d: Disk, after: map<Path, seq<byte>>)
    requires PlanOk(p) && Safe(p, d) && CrashedTo(d, after)
    ensures Recoverable(p, after)
  {
    var keep: seq<bool> :| |keep| == |d.pending| && CrashedKeeping(d, keep, after);
    var kept := Kept(d.pending, keep);
    KeptAreAmong(d.pending, keep);
    if Untouched(p, d) {
      ReplayKeepsOthers(d.durable, kept, p.path);
    } else {
      ReplayKeepsOthers(d.durable, kept, p.backup);
      ReplayMoves(d.durable, kept, p.path);
    }
  }

  lemma FlushSafe(p: Plan, d: Disk, at: nat)
    requires PlanOk(p) && Safe(p, d)
    ensures Safe(p, Flush(p.dir, d, at))
    ensures Untouched(p, d) ==> Untouched(p, Flush(p.dir, d, at))
  {
    var now := InDir(p.dir, d.pending, at, true);
    InDirAreAmong(p.dir, d.pending, at, true);
    InDirAreAmong(p.dir, d.pending, at, false);
    if Untouched(p, d) {
      ReplayKeepsOthers(d.durable, now, p.path);
    } else {
      ReplayKeepsOthers(d.durable, now, p.backup);
      ReplayMoves(d.durable, now, p.path);
    }
  }

  lemma FlushAllocated(dir: Dirs, d: Disk, next: nat, at: nat)
    requires Allocated(d, next) && MovesStay(dir, d)
    ensures Allocated(Flush(dir, d, at), next) && MovesStay(dir, Flush(dir, d, at))
  {
    InDirAreAmong(dir, d.pending, at, true);
    InDirAreAmong(dir, d.pending, at, false);
    ReplayBounded(d.durable, InDir(dir, d.pending, at, true), next);
  }

  /** Syncing the backup's directory makes its name durable, whatever else was pending there. */
  lemma FlushBacksUp(p: Plan, s: State)
    requires PlanOk(p) && BackupNamed(p, s) && Holds(s.disk, s.backupInode, p.prior) && MovesStay(p.dir, s.disk)
    ensures BackedUp(p, Flush(p.dir, s.disk, p.dir(p.backup)))
  {
    var d := s.disk;
    var now := InDir(p.dir, d.pending, p.dir(p.backup), true);
    assert now[|now| - 1] == Put(p.backup, s.backupInode);
    InDirAreAmong(p.dir, d.pending, p.dir(p.backup), false);
  }

  lemma FlushReplaces(p: Plan, s: State)
    requires PlanOk(p) && Renamed(p, s) && BackedUp(p, s.disk) && MovesStay(p.dir, s.disk)
    ensures Replaced(p, Flush(p.dir, s.disk, p.dir(p.path)))
  {
    var d := s.disk;
    var now := InDir(p.dir, d.pending, p.dir(p.path), true);
    assert now[|now| - 1] == Move(p.staged, p.path, s.stagedInode);
    InDirAreAmong(p.dir, d.pending, p.dir(p.path), true);
    InDirAreAmong(p.dir, d.pending, p.dir(p.path), false);
    ReplayKeepsOthers(d.durable, now, p.backup);
  }

  lemma LiveSeesBackup(p: Plan, d: Disk)
    requires BackedUp(p, d)
    ensures p.backup in Live(d)
  {
    ReplayKeepsOthers(d.durable, d.pending, p.backup);
  }

  lemma EarlySteps(p: Plan, s: State, ok: bool, clean: bool)
    requires PlanOk(p) && Inv(p, s, clean)
    requires s.pc == Clear || s.pc == MakeBackup || s.pc == WriteBackup || s.pc == SyncBackup
    ensures Inv(p, Step(p, s, ok), clean)
  {
    hide Replay, Flush;
    if s.pc == SyncBackup && ok {
      if clean {
        FlushSafe(p, s.disk, p.dir(p.backup));
      }
      FlushAllocated(p.dir, s.disk, s.next, p.dir(p.backup));
      FlushBacksUp(p, s);
    }
  }

  lemma LateSteps(p: Plan, s: State, ok: bool, clean: bool)
    requires PlanOk(p) && Inv(p, s, clean)
    requires s.pc != Clear && s.pc != MakeBackup && s.pc != WriteBackup && s.pc != SyncBackup
    ensures Inv(p, Step(p, s, ok), clean)
  {
    hide Replay, Flush;
    if s.pc == MakeStaged {
      LiveSeesBackup(p, s.disk);
    } else if s.pc == SyncDir && ok {
      if clean {
        FlushSafe(p, s.disk, p.dir(p.path));
      }
      FlushAllocated(p.dir, s.disk, s.next, p.dir(p.path));
      FlushReplaces(p, s);
    }
  }

  function Run(p: Plan, s: State, oks: seq<bool>): State {
    if oks == [] then s else Step(p, Run(p, s, oks[..|oks| - 1]), oks[|oks| - 1])
  }

  lemma {:induction false} RunKeeps(p: Plan, s: State, oks: seq<bool>, clean: bool)
    requires PlanOk(p) && Inv(p, s, clean)
    ensures Inv(p, Run(p, s, oks), clean)
  {
    hide Inv, Step;
    if oks != [] {
      RunKeeps(p, s, oks[..|oks| - 1], clean);
      var u := Run(p, s, oks[..|oks| - 1]);
      if u.pc == Clear || u.pc == MakeBackup || u.pc == WriteBackup || u.pc == SyncBackup {
        EarlySteps(p, u, oks[|oks| - 1], clean);
      } else {
        LateSteps(p, u, oks[|oks| - 1], clean);
      }
    }
  }

  /** A disk as the operation finds it, with any directory changes unsynced: the key file that a process sees
      holds the old bytes. */
  ghost predicate Begins(p: Plan, d: Disk, next: nat) {
    && Allocated(d, next) && MovesStay(p.dir, d)
    && p.path in Live(d) && Holds(d, Live(d)[p.path], p.prior)
  }

  /** At every crash point, whatever calls failed before it and whatever the crash let through, the key
      path has the old bytes, or the new ones and then the backup has exactly the old ones, when no change of
      the key path was unsynced at the start. */
  lemma EveryCrashIsRecoverable(p: Plan, d: Disk, next: nat, oks: seq<bool>, after: map<Path, seq<byte>>)
    requires PlanOk(p) && Begins(p, d, next) && !Unsynced(d, p.path)
    requires CrashedTo(Run(p, Begin(d, next), oks).disk, after)
    ensures Recoverable(p, after)
  {
    ReplayKeepsOthers(d.durable, d.pending, p.path);
    RunKeeps(p, Begin(d, next), oks, true);
    SafeIsRecoverable(p, Run(p, Begin(d, next), oks).disk, after);
  }

  lemma ReplacedSurvives(p: Plan, d: Disk, after: map<Path, seq<byte>>)
    requires Replaced(p, d) && CrashedTo(d, after)
    ensures p.path in after && after[p.path] == p.minted
    ensures p.backup in after && after[p.backup] == p.prior
  {
    var keep: seq<bool> :| |keep| == |d.pending| && CrashedKeeping(d, keep, after);
    KeptAreAmong(d.pending, keep);
    ReplayKeepsOthers(d.durable, Kept(d.pending, keep), p.path);
    ReplayKeepsOthers(d.durable, Kept(d.pending, keep), p.backup);
  }

  /** Once the operation reported success, no crash takes it back, whatever was unsynced before it; and it
      leaves no unsynced change of the key path behind. */
  lemma DoneIsDurable(p: Plan, d: Disk, next: nat, oks: seq<bool>, after: map<Path, seq<byte>>)
    requires PlanOk(p) && Begins(p, d, next)
    requires Run(p, Begin(d, next), oks).pc == Done
    requires CrashedTo(Run(p, Begin(d, next), oks).disk, after)
    ensures p.path in after && after[p.path] == p.minted
    ensures p.backup in after && after[p.backup] == p.prior
    ensures !Unsynced(Run(p, Begin(d, next), oks).disk, p.path)
  {
    RunKeeps(p, Begin(d, next), oks, false);
    ReplacedSurvives(p, Run(p, Begin(d, next), oks).disk, after);
  }

  // ---- When nothing fails

  /** The state after `n` calls that all succeed. */
  function Smooth(p: Plan, s: State, n: nat): State {
    if n == 0 then s else Step(p, Smooth(p, s, n - 1), true)
  }

  lemma {:induction false} SmoothIsRun(p: Plan, s: State, n: nat)
    ensures Smooth(p, s, n) == Run(p, s, seq(n, _ => true))
  {
    hide Step;
    if n > 0 {
      SmoothIsRun(p, s, n - 1);
      assert seq(n, _ => true)[..n - 1] == seq(n - 1, _ => true);
    }
  }

  lemma SmoothNext(p: Plan, s: State, n: nat)
    ensures Smooth(p, s, n + 1) == Step(p, Smooth(p, s, n), true)
  {
  }

  /** The first four calls, with the names a process sees. */
  lemma SmoothBackup(p: Plan, d: Disk, next: nat)
    requires PlanOk(p) && MovesStay(p.dir, d)
    ensures var s := Smooth(p, Begin(d, next), 4);
            if p.backup in Live(d) && p.backup != p.staged then s.pc == Failed
            else s.pc == MakeStaged && Live(s.disk) == (Live(d) - {p.staged})[p.backup := next]
  {
    hide Step, Live, Smooth, MovesStay;
    var s0 := Begin(d, next);
    SmoothNone(p, s0);
    SmoothNext(p, s0, 0);
    SmoothNext(p, s0, 1);
    SmoothNext(p, s0, 2);
    SmoothNext(p, s0, 3);
    ClearSmooth(p, d, next);
    BackUpSmooth(p, Smooth(p, s0, 1));
  }

  lemma SmoothNone(p: Plan, s: State)
    ensures Smooth(p, s, 0) == s
  {
  }

  lemma ClearSmooth(p: Plan, d: Disk, next: nat)
    requires MovesStay(p.dir, d)
    ensures var s := Step(p, Begin(d, next), true);
            s.pc == MakeBackup && s.next == next && Live(s.disk) == Live(d) - {p.staged} && MovesStay(p.dir, s.disk)
  {
    LogLive(d, Remove(p.staged));
    hide Live, Replay;
  }

  lemma BackUpSmooth(p: Plan, s: State)
    requires s.pc == MakeBackup && MovesStay(p.dir, s.disk)
    ensures var t := Step(p, Step(p, Step(p, s, true), true), true);
            if p.backup in Live(s.disk) then t.pc == Failed
            else t.pc == MakeStaged && Live(t.disk) == Live(s.disk)[p.backup := s.next]
  {
    var b := Step(p, Step(p, s, true), true);
    var op := Put(p.backup, s.next);
    LogLive(s.disk, op);
    hide Live, Replay, Flush;
    if p.backup !in Live(s.disk) {
      SameNames(b.disk, Log(s.disk, op));
      FlushKeepsLive(p.dir, b.disk, p.dir(p.backup));
    }
  }

  lemma SameNames(d: Disk, e: Disk)
    requires d.durable == e.durable && d.pending == e.pending
    ensures Live(d) == Live(e)
  {
  }

  /** When no call fails, the operation completes exactly when the backup's name is unused and is not
      the pending file's, whatever is unsynced; a pending file left behind never blocks it. If its last call, the
      sync of the key's directory, fails, it leaves the new key in place with its name unsynced. */
  lemma CompletesIffBackupNameIsFree(p: Plan, d: Disk, next: nat)
    requires PlanOk(p) && MovesStay(p.dir, d)
    ensures var s := Begin(d, next);
            var free := p.backup !in Live(d) && p.backup != p.staged;
            && (Smooth(p, s, 8).pc == Done <==> free)
            && (free ==> var t := Step(p, Smooth(p, s, 7), false);
                         t.pc == Failed && Unsynced(t.disk, p.path))
  {
    hide Step, Live, Unsynced, Smooth;
    var s0 := Begin(d, next);
    SmoothBackup(p, d, next);
    SmoothNext(p, s0, 4);
    SmoothNext(p, s0, 5);
    SmoothNext(p, s0, 6);
    SmoothNext(p, s0, 7);
    ReplaceSmooth(p, Smooth(p, s0, 4));
  }

  /** The last four calls: a name that is taken undoes the replacement. */
  lemma ReplaceSmooth(p: Plan, s: State)
    requires s.pc == MakeStaged || s.pc == Failed
    ensures var c := Step(p, Step(p, Step(p, s, true), true), true);
            var free := s.pc == MakeStaged && p.staged !in Live(s.disk);
            && (Step(p, c, true).pc == Done <==> free)
            && (free ==> Step(p, c, false).pc == Failed && Unsynced(Step(p, c, false).disk, p.path))
  {
    hide Flush, Live;
    var b := Step(p, Step(p, s, true), true);
    var move := Move(p.staged, p.path, b.stagedInode);
    assert b.pc == Rename ==> move in Step(p, b, true).disk.pending && Touches(move, p.path);
  }

  /** A replacement that failed after the backup takes its pending file away again, and nothing else, if the removal
      succeeds; either way it is over. */
  lemma UndoCleansUp(p: Plan, s: State)
    requires PlanOk(p) && s.pc == Undo
    ensures Step(p, s, true).pc == Failed && Live(Step(p, s, true).disk) == Live(s.disk) - {p.staged}
    ensures Step(p, s, false) == s.(pc := Failed)
  {
    LogLive(s.disk, Remove(p.staged));
    hide Live;
  }

  // ---- The two operations

  /** The pending file beside the key. */
  function PendingPath(path: Path, id: KeyId): (staged: Path)
    ensures staged != path
  {
    var staged := path + "-" + Decimal.Text(id) + "-pending";
    assert |staged| > |path|;
    staged
  }

  /** A rotation to a new key, or a retirement of the old ones, with the outcomes of its calls. */
  datatype Deed = Deed(retire: bool, backup: Path, minted: Material, oks: seq<bool>)

  /** The source refuses everything else before it touches the disk. */
  predicate Admitted(path: Path, ring: Ring, deed: Deed) {
    && ValidRing(ring) && deed.backup != path
    && if deed.retire then |ring.keys| > 1 else ring.active < MAX_ID && |ring.keys| < MAX_KEYS
  }

  /** A later ring: a newer active key, or the same with older keys gone. */
  predicate Newer(a: Ring, b: Ring) {
    a.active > b.active || (a.active == b.active && |a.keys| < |b.keys|)
  }

  /** The ring that the operation puts in place. */
  function NewRing(path: Path, ring: Ring, deed: Deed): (r: Ring)
    requires Admitted(path, ring, deed)
    ensures ValidRing(r) && Newer(r, ring)
  {
    Sealing.RingsStayValid(ring, deed.minted);
    if deed.retire then Sealing.Retired(ring) else Sealing.Rotated(ring, deed.minted)
  }

  function PlanOf(path: Path, dir: Dirs, ring: Ring, bytes: seq<byte>, deed: Deed): Plan
    requires Admitted(path, ring, deed)
  {
    var id := if deed.retire then ring.active else ring.active + 1;
    Plan(path, deed.backup, PendingPath(path, id), dir, bytes, FileOf(NewRing(path, ring, deed)))
  }

  /** The pending files are in the key's directory. */
  ghost predicate Beside(path: Path, dir: Dirs) {
    forall id: KeyId :: dir(PendingPath(path, id)) == dir(path)
  }

  /** The key file decodes to the ring before the operation, or to the complete ring after it and then
      the backup holds exactly the bytes before it. */
  ghost predicate OldOrNewRing(p: Plan, before: Ring, done: Ring, after: map<Path, seq<byte>>) {
    && p.path in after
    && (Decodes(after[p.path], before)
        || (Decodes(after[p.path], done) && p.backup in after && after[p.backup] == p.prior))
  }

  /** Every rotation and every retirement, from any disk without an unsynced change of the key path. */
  lemma DeedSurvivesCrashes(path: Path, dir: Dirs, ring: Ring, bytes: seq<byte>, deed: Deed,
                            d: Disk, next: nat, after: map<Path, seq<byte>>)
    requires Beside(path, dir) && Admitted(path, ring, deed) && Decodes(bytes, ring)
    requires var p := PlanOf(path, dir, ring, bytes, deed);
             && Begins(p, d, next) && !Unsynced(d, path)
             && CrashedTo(Run(p, Begin(d, next), deed.oks).disk, after)
    ensures OldOrNewRing(PlanOf(path, dir, ring, bytes, deed), ring, NewRing(path, ring, deed), after)
  {
    var p := PlanOf(path, dir, ring, bytes, deed);
    EveryCrashIsRecoverable(p, d, next, deed.oks, after);
    FilesDecode(NewRing(path, ring, deed));
  }
}
