/** Histories of the key file: rotations and retirements, any of their calls failing and any of them cut off, and
    crashes between them. What a crash can bring back, and when it lets an identifier come to name a second
    key. */
module KeyHistories {
  import opened Bytes
  import opened KeyRing
  import opened KeyFiles
  import Sealing

  // ---- What the key path stands for

  /** The ring on disk, the ring a process sees, and every key that was ever seen under its identifier. */
  datatype View = View(stored: Ring, seen: Ring, bound: set<Entry>)

  function Entries(r: Ring): set<Entry> {
    set x | x in r.keys
  }

  predicate Named(bound: set<Entry>, id: KeyId) {
    exists x :: x in bound && x.id == id
  }

  ghost predicate HoldsRing(files: map<nat, Inode>, inode: nat, ring: Ring) {
    inode in files && files[inode].synced && Decodes(files[inode].bytes, ring) && ValidRing(ring)
  }

  /** The file holds a ring that was seen, no older than the one on disk. */
  ghost predicate Between(files: map<nat, Inode>, inode: nat, v: View) {
    exists r :: HoldsRing(files, inode, r) && v.stored.active <= r.active <= v.seen.active && Entries(r) <= v.bound
  }

  /** Both rings were seen, and so was a key for every identifier from the one to the other. */
  ghost predicate Spans(v: View) {
    && v.stored.active <= v.seen.active && Entries(v.stored) <= v.bound && Entries(v.seen) <= v.bound
    && forall id: KeyId | v.stored.active <= id <= v.seen.active :: Named(v.bound, id)
  }

  /** Only renames lie between the two rings, each of a file with a ring that was seen. */
  ghost predicate OnlyRenames(path: Path, d: Disk, v: View) {
    forall op | op in d.pending && Touches(op, path) :: op.Move? && op.path == path && Between(d.inodes, op.inode, v)
  }

  /** The key path across a history; the ring seen is the later one as long as there are unsynced renames. */
  ghost predicate KeyOk(path: Path, dir: Dirs, d: Disk, next: nat, v: View) {
    && Allocated(d, next) && MovesStay(dir, d)
    && path in d.durable && HoldsRing(d.inodes, d.durable[path], v.stored)
    && path in Live(d) && HoldsRing(d.inodes, Live(d)[path], v.seen)
    && Spans(v) && OnlyRenames(path, d, v)
    && (if Unsynced(d, path) then Newer(v.seen, v.stored) else v.stored == v.seen)
  }

  lemma KeyThere(path: Path, dir: Dirs, d: Disk, next: nat, v: View)
    requires KeyOk(path, dir, d, next, v)
    ensures path in d.durable && path in Live(d)
  {
  }

  lemma LogKey(path: Path, dir: Dirs, d: Disk, next: nat, v: View, op: DirOp)
    requires KeyOk(path, dir, d, next, v) && !Touches(op, path) && !op.Move?
    requires !op.Remove? ==> op.inode < next
    ensures KeyOk(path, dir, Log(d, op), next, v)
  {
    LogLive(d, op);
    hide Replay, Live, HoldsRing, Spans, Between;
    assert Unsynced(d, path) ==> Unsynced(Log(d, op), path);
  }

  /** The file is not one of the key's. */
  ghost predicate Apart(path: Path, d: Disk, inode: nat) {
    && (path in d.durable ==> d.durable[path] != inode)
    && (path in Live(d) ==> Live(d)[path] != inode)
    && (forall op | op in d.pending && Touches(op, path) && op.Move? :: op.inode != inode)
  }

  lemma BetweenKept(files: map<nat, Inode>, inode: nat, v: View, other: nat, file: Inode)
    requires Between(files, inode, v) && other != inode
    ensures Between(files[other := file], inode, v)
  {
    var r :| HoldsRing(files, inode, r) && v.stored.active <= r.active <= v.seen.active && Entries(r) <= v.bound;
    assert HoldsRing(files[other := file], inode, r);
  }

  lemma WriteKey(path: Path, dir: Dirs, d: Disk, next: nat, v: View, inode: nat, file: Inode)
    requires KeyOk(path, dir, d, next, v) && Apart(path, d, inode)
    ensures KeyOk(path, dir, d.(inodes := d.inodes[inode := file]), next, v)
  {
    var e := d.(inodes := d.inodes[inode := file]);
    SameNames(e, d);
    hide Replay, Live, Spans, Between, Decodes, ValidRing;
    assert Unsynced(e, path) == Unsynced(d, path);
    forall op | op in d.pending && Touches(op, path)
      ensures Between(e.inodes, op.inode, v)
    {
      BetweenKept(d.inodes, op.inode, v, inode, file);
    }
  }

  lemma FlushKey(path: Path, dir: Dirs, d: Disk, next: nat, v: View, at: nat)
    requires KeyOk(path, dir, d, next, v)
    ensures KeyOk(path, dir, Flush(dir, d, at), next, if at == dir(path) then v.(stored := v.seen) else v)
  {
    var e := Flush(dir, d, at);
    FlushKeepsLive(dir, d, at);
    FlushAllocated(dir, d, next, at);
    InDirAreAmong(dir, d.pending, at, true);
    InDirAreAmong(dir, d.pending, at, false);
    if at == dir(path) {
      ReplayKeepsOthers(e.durable, e.pending, path);
    } else {
      ReplayKeepsOthers(d.durable, InDir(dir, d.pending, at, true), path);
    }
    assert Live(e) == Replay(e.durable, e.pending);
    assert Spans(v.(stored := v.seen));
    hide Replay, Live, HoldsRing, Allocated, Spans, Between;
    assert at != dir(path) ==> (Unsynced(e, path) <==> Unsynced(d, path));
  }

  // ---- One operation

  /** A ring that may follow. */
  ghost predicate Follows(done: Ring, ring: Ring) {
    ValidRing(done) && Newer(done, ring) && done.active <= ring.active + 1
  }

  /** The view once `done` is seen. */
  function Seeing(v: View, done: Ring): View {
    View(v.stored, done, v.bound + Entries(done))
  }

  lemma SeeingSpans(v: View, done: Ring)
    requires Spans(v) && Follows(done, v.seen)
    ensures Spans(Seeing(v, done))
  {
    var bound := v.bound + Entries(done);
    var last := done.keys[|done.keys| - 1];
    assert last in bound && last.id == done.active;
    forall id: KeyId | v.stored.active <= id <= done.active
      ensures Named(bound, id)
    {
      if id <= v.seen.active {
        assert Named(v.bound, id);
        var x :| x in v.bound && x.id == id;
        assert x in bound;
      }
    }
  }

  lemma SeeingBetween(files: map<nat, Inode>, inode: nat, v: View, done: Ring)
    requires Between(files, inode, v) && Newer(done, v.seen)
    ensures Between(files, inode, Seeing(v, done))
  {
    var r :| HoldsRing(files, inode, r) && v.stored.active <= r.active <= v.seen.active && Entries(r) <= v.bound;
    hide HoldsRing;
    var u := Seeing(v, done);
    assert HoldsRing(files, inode, r) && u.stored.active <= r.active <= u.seen.active && Entries(r) <= u.bound;
  }

  lemma RenamedOnly(path: Path, d: Disk, v: View, op: DirOp, done: Ring)
    requires OnlyRenames(path, d, v) && op.Move? && op.path == path && Newer(done, v.seen)
    requires Between(d.inodes, op.inode, Seeing(v, done))
    ensures OnlyRenames(path, Log(d, op), Seeing(v, done))
  {
    hide Between, Newer, Seeing;
    forall x | x in d.pending && Touches(x, path)
      ensures Between(d.inodes, x.inode, Seeing(v, done))
    {
      SeeingBetween(d.inodes, x.inode, v, done);
    }
  }

  lemma DoneBetween(files: map<nat, Inode>, inode: nat, v: View, done: Ring)
    requires HoldsRing(files, inode, done) && Spans(Seeing(v, done))
    ensures Between(files, inode, Seeing(v, done))
  {
    hide HoldsRing;
    assert Entries(done) <= Seeing(v, done).bound;
  }

  lemma RenameKey(p: Plan, d: Disk, next: nat, v: View, inode: nat, done: Ring)
    requires PlanOk(p) && KeyOk(p.path, p.dir, d, next, v)
    requires inode < next && HoldsRing(d.inodes, inode, done) && Follows(done, v.seen)
    ensures KeyOk(p.path, p.dir, Log(d, Move(p.staged, p.path, inode)), next, Seeing(v, done))
  {
    hide Replay, Live, HoldsRing, Spans, Between, OnlyRenames, Newer, Entries, ValidRing;
    var op := Move(p.staged, p.path, inode);
    LogLive(d, op);
    SeeingSpans(v, done);
    DoneBetween(d.inodes, inode, v, done);
    RenamedOnly(p.path, d, v, op, done);
    StillNewer(done, v.seen, v.stored);
    assert op in Log(d, op).pending && Touches(op, p.path);
  }

  lemma StillNewer(a: Ring, b: Ring, c: Ring)
    requires Newer(a, b) && (b == c || Newer(b, c))
    ensures Newer(a, c)
  {
  }

  lemma FreshApart(path: Path, dir: Dirs, d: Disk, next: nat, v: View)
    requires KeyOk(path, dir, d, next, v)
    ensures Apart(path, d, next) && KeyOk(path, dir, d, next + 1, v)
  {
    ReplayBounded(d.durable, d.pending, next);
    hide Replay, HoldsRing, MovesStay, Spans, Between;
  }

  /** Making a new file under a name that is not the key's. */
  lemma MakeKey(path: Path, dir: Dirs, s: State, v: View, name: Path)
    requires KeyOk(path, dir, s.disk, s.next, v) && name != path
    ensures var d := Log(s.disk, Put(name, s.next)).(inodes := s.disk.inodes[s.next := Inode([], false)]);
            KeyOk(path, dir, d, s.next + 1, v) && Apart(path, d, s.next)
  {
    var e := s.disk.(inodes := s.disk.inodes[s.next := Inode([], false)]);
    FreshApart(path, dir, s.disk, s.next, v);
    WriteKey(path, dir, s.disk, s.next + 1, v, s.next, Inode([], false));
    LogKey(path, dir, e, s.next + 1, v, Put(name, s.next));
    SameNames(e, s.disk);
    LogLive(e, Put(name, s.next));
    hide KeyOk, Replay, Live;
  }

  /** The states of one operation within a history; `cur` is what a process sees. */
  ghost predicate Within(p: Plan, s: State, v: View, done: Ring, cur: View) {
    && KeyOk(p.path, p.dir, s.disk, s.next, cur)
    && (cur == Seeing(v, done).(stored := cur.stored) || cur == v.(stored := cur.stored))
    && (s.pc == WriteBackup || s.pc == SyncBackup ==> s.backupInode < s.next && Apart(p.path, s.disk, s.backupInode))
    && (s.pc == WriteStaged ==> s.stagedInode < s.next && Apart(p.path, s.disk, s.stagedInode))
    && (s.pc == Rename ==> s.stagedInode < s.next && HoldsRing(s.disk.inodes, s.stagedInode, done))
    && (s.pc != SyncDir && s.pc != Done && s.pc != Failed ==> cur == v.(stored := cur.stored))
    && (s.pc != Done ==> cur.stored == v.stored || cur.stored == v.seen)
  }

  lemma WithinBackup(p: Plan, s: State, ok: bool, v: View, done: Ring, cur: View) returns (now: View)
    requires PlanOk(p) && Within(p, s, v, done, cur)
    requires s.pc == Clear || s.pc == MakeBackup || s.pc == WriteBackup || s.pc == SyncBackup
    ensures Within(p, Step(p, s, ok), v, done, now)
  {
    hide KeyOk, Replay, Flush, HoldsRing, Apart;
    now := cur;
    var d := s.disk;
    KeyThere(p.path, p.dir, d, s.next, cur);
    match s.pc
    case Clear => LogKey(p.path, p.dir, d, s.next, cur, Remove(p.staged));
    case MakeBackup => MakeKey(p.path, p.dir, s, cur, p.backup);
    case WriteBackup =>
      WriteKey(p.path, p.dir, d, s.next, cur, s.backupInode, Inode(p.prior, true));
      WriteApart(p.path, d, s.backupInode, Inode(p.prior, true));
    case SyncBackup =>
      FlushKey(p.path, p.dir, d, s.next, cur, p.dir(p.backup));
      now := if ok && p.dir(p.backup) == p.dir(p.path) then cur.(stored := cur.seen) else cur;
  }

  lemma WriteApart(path: Path, d: Disk, inode: nat, file: Inode)
    requires Apart(path, d, inode)
    ensures Apart(path, d.(inodes := d.inodes[inode := file]), inode)
  {
    SameNames(d, d.(inodes := d.inodes[inode := file]));
    hide Live;
  }

  lemma WithinReplace(p: Plan, s: State, ok: bool, v: View, done: Ring, cur: View) returns (now: View)
    requires PlanOk(p) && Within(p, s, v, done, cur)
    requires Follows(done, v.seen) && Decodes(p.minted, done)
    requires s.pc != Clear && s.pc != MakeBackup && s.pc != WriteBackup && s.pc != SyncBackup
    ensures Within(p, Step(p, s, ok), v, done, now)
  {
    hide KeyOk, Replay, Flush, Decodes, Newer, Apart, Entries;
    now := cur;
    var d := s.disk;
    KeyThere(p.path, p.dir, d, s.next, cur);
    match s.pc
    case MakeStaged => MakeKey(p.path, p.dir, s, cur, p.staged);
    case WriteStaged =>
      WriteKey(p.path, p.dir, d, s.next, cur, s.stagedInode, Inode(p.minted, true));
    case Rename =>
      RenameKey(p, d, s.next, cur, s.stagedInode, done);
      now := if ok then Seeing(cur, done) else cur;
    case SyncDir =>
      FlushKey(p.path, p.dir, d, s.next, cur, p.dir(p.path));
      now := if ok then cur.(stored := cur.seen) else cur;
    case Undo => LogKey(p.path, p.dir, d, s.next, cur, Remove(p.staged));
    case _ =>
  }

  lemma {:induction false} WithinRun(p: Plan, s: State, oks: seq<bool>, v: View, done: Ring) returns (cur: View)
    requires PlanOk(p) && Within(p, s, v, done, v)
    requires Follows(done, v.seen) && Decodes(p.minted, done)
    ensures Within(p, Run(p, s, oks), v, done, cur)
  {
    hide Within, Step, Follows, Decodes;
    if oks == [] {
      return v;
    }
    cur := WithinRun(p, s, oks[..|oks| - 1], v, done);
    var u := Run(p, s, oks[..|oks| - 1]);
    if u.pc == Clear || u.pc == MakeBackup || u.pc == WriteBackup || u.pc == SyncBackup {
      cur := WithinBackup(p, u, oks[|oks| - 1], v, done, cur);
    } else {
      cur := WithinReplace(p, u, oks[|oks| - 1], v, done, cur);
    }
  }

  // ---- Histories

  /** A moment between operations: the disk, the next file number, the ring a process sees, and every key seen so
      far. */
  datatype Era = Era(disk: Disk, next: nat, ring: Ring, bound: set<Entry>)

  datatype Turn = Act(deed: Deed) | Crash

  /** The bytes of the key file that a process sees. */
  function KeyBytes(d: Disk, path: Path): seq<byte> {
    if path in Live(d) && Live(d)[path] in d.inodes then d.inodes[Live(d)[path]].bytes else []
  }

  /** The disk after a crash that let some of the directory changes through. */
  ghost predicate Rebooted(d: Disk, keep: seq<bool>, e: Disk)
    requires |keep| == |d.pending|
  {
    && e.durable == Replay(d.durable, Kept(d.pending, keep)) && e.pending == []
    && forall i | i in d.inodes && d.inodes[i].synced :: i in e.inodes && e.inodes[i] == d.inodes[i]
  }

  ghost predicate Reboots(d: Disk, e: Disk) {
    exists keep: seq<bool> | |keep| == |d.pending| :: Rebooted(d, keep, e)
  }

  /** A crash, or one operation, which may be cut off after any call; one that is not admitted does nothing. */
  ghost predicate Does(path: Path, dir: Dirs, e: Era, turn: Turn, f: Era) {
    && Decodes(KeyBytes(f.disk, path), f.ring) && f.bound == e.bound + Entries(f.ring)
    && match turn
       case Crash => Reboots(e.disk, f.disk) && f.next == e.next
       case Act(deed) =>
         if !Admitted(path, e.ring, deed) then f == e
         else
           var p := PlanOf(path, dir, e.ring, KeyBytes(e.disk, path), deed);
           var s := Run(p, Begin(e.disk, e.next), deed.oks);
           f.disk == s.disk && f.next == s.next
  }

  /** A history from a disk on which no change of the key path was unsynced. */
  ghost predicate IsHistory(path: Path, dir: Dirs, eras: seq<Era>, turns: seq<Turn>) {
    && |eras| == |turns| + 1
    && Starts(path, dir, eras[0])
    && forall i | 0 <= i < |turns| :: Does(path, dir, eras[i], turns[i], eras[i + 1])
  }

  ghost predicate Starts(path: Path, dir: Dirs, e: Era) {
    && e.bound == Entries(e.ring)
    && KeyOk(path, dir, e.disk, e.next, View(e.ring, e.ring, e.bound))
  }

  /** What a history keeps of an era, with the ring on disk. */
  ghost predicate EraOk(path: Path, dir: Dirs, e: Era, stored: Ring) {
    KeyOk(path, dir, e.disk, e.next, View(stored, e.ring, e.bound))
  }

  lemma KeyBytesDecode(path: Path, dir: Dirs, d: Disk, next: nat, v: View)
    requires KeyOk(path, dir, d, next, v)
    ensures Decodes(KeyBytes(d, path), v.seen) && ValidRing(v.seen)
    ensures Holds(d, Live(d)[path], KeyBytes(d, path))
  {
    hide Replay, Decodes;
  }

  lemma NewRingFollows(path: Path, ring: Ring, deed: Deed)
    requires Admitted(path, ring, deed)
    ensures var done := NewRing(path, ring, deed);
            && Follows(done, ring) && done.active >= ring.active
            && (Entries(done) <= Entries(ring)
                || (done.active > ring.active && Entries(done) == Entries(ring) + {Entry(done.active, deed.minted)}))
  {
  }

  lemma WithinBegin(p: Plan, d: Disk, next: nat, v: View, done: Ring)
    requires KeyOk(p.path, p.dir, d, next, v)
    ensures Within(p, Begin(d, next), v, done, v)
  {
    hide KeyOk;
  }

  ghost predicate Finished(path: Path, dir: Dirs, e: Era, deed: Deed) {
    && Admitted(path, e.ring, deed)
    && Run(PlanOf(path, dir, e.ring, KeyBytes(e.disk, path), deed), Begin(e.disk, e.next), deed.oks).pc == Done
  }

  /** An operation leaves the ring as it was, or the new one; on disk, too, unless it finished. */
  lemma ActKeeps(path: Path, dir: Dirs, e: Era, deed: Deed, f: Era, stored: Ring) returns (now: Ring)
    requires Beside(path, dir) && EraOk(path, dir, e, stored) && Does(path, dir, e, Act(deed), f)
    ensures EraOk(path, dir, f, now)
    ensures f.ring == e.ring || (Admitted(path, e.ring, deed) && f.ring == NewRing(path, e.ring, deed))
    ensures now == stored || now == e.ring || Finished(path, dir, e, deed)
  {
    var v := View(stored, e.ring, e.bound);
    if !Admitted(path, e.ring, deed) {
      return stored;
    }
    var done := NewRing(path, e.ring, deed);
    NewRingFollows(path, e.ring, deed);
    FilesDecode(done);
    var p := PlanOf(path, dir, e.ring, KeyBytes(e.disk, path), deed);
    SeenIsBound(path, dir, e.disk, e.next, v);
    assert PlanOk(p);
    hide KeyOk, Run, Begin, Decodes, Follows, NewRing, Beside, PlanOk, Admitted, KeyBytes;
    WithinBegin(p, e.disk, e.next, v, done);
    var cur := WithinRun(p, Begin(e.disk, e.next), deed.oks, v, done);
    KeyBytesDecode(path, dir, f.disk, f.next, cur);
    DecodesToOne(KeyBytes(f.disk, path), cur.seen, f.ring);
    assert f.bound == e.bound + Entries(f.ring);
    hide *;
    SeenView(v, done, cur, f);
    return cur.stored;
  }

  lemma SeenView(v: View, done: Ring, cur: View, f: Era)
    requires cur == Seeing(v, done).(stored := cur.stored) || cur == v.(stored := cur.stored)
    requires Entries(v.seen) <= v.bound && cur.seen == f.ring && f.bound == v.bound + Entries(f.ring)
    ensures cur == View(cur.stored, f.ring, f.bound) && (f.ring == v.seen || f.ring == done)
  {
  }

  lemma HoldsRingKept(d: Disk, keep: seq<bool>, e: Disk, inode: nat, r: Ring)
    requires |keep| == |d.pending| && Rebooted(d, keep, e) && HoldsRing(d.inodes, inode, r)
    ensures HoldsRing(e.inodes, inode, r)
  {
  }

  /** After a crash the key path names the ring that was on disk, or one of those renamed over it since. */
  lemma RebootKey(path: Path, dir: Dirs, d: Disk, next: nat, v: View, keep: seq<bool>, e: Disk) returns (r: Ring)
    requires KeyOk(path, dir, d, next, v) && |keep| == |d.pending| && Rebooted(d, keep, e)
    ensures KeyOk(path, dir, e, next, View(r, r, v.bound)) && v.stored.active <= r.active <= v.seen.active
  {
    var ops := Kept(d.pending, keep);
    KeptAreAmong(d.pending, keep);
    ReplayMoves(d.durable, ops, path);
    ReplayBounded(d.durable, ops, next);
    assert Live(e) == e.durable;
    hide Replay, Live, Between, HoldsRing;
    var inode := e.durable[path];
    if inode == d.durable[path] {
      r := v.stored;
    } else {
      var op :| op in ops && op.Move? && op.path == path && op.inode == inode;
      assert Between(d.inodes, inode, v);
      r := BetweenRing(d.inodes, inode, v);
    }
    HoldsRingKept(d, keep, e, inode, r);
    assert Named(v.bound, r.active);
  }

  lemma BetweenRing(files: map<nat, Inode>, inode: nat, v: View) returns (r: Ring)
    requires Between(files, inode, v)
    ensures HoldsRing(files, inode, r) && v.stored.active <= r.active <= v.seen.active && Entries(r) <= v.bound
  {
    r :| HoldsRing(files, inode, r) && v.stored.active <= r.active <= v.seen.active && Entries(r) <= v.bound;
  }

  lemma CrashKeeps(path: Path, dir: Dirs, e: Era, f: Era, stored: Ring)
    requires EraOk(path, dir, e, stored) && Does(path, dir, e, Crash, f)
    ensures EraOk(path, dir, f, f.ring) && stored.active <= f.ring.active <= e.ring.active && f.bound == e.bound
  {
    hide KeyOk, Decodes, Rebooted;
    var keep: seq<bool> :| |keep| == |e.disk.pending| && Rebooted(e.disk, keep, f.disk);
    var v := View(stored, e.ring, e.bound);
    var r := RebootKey(path, dir, e.disk, e.next, v, keep, f.disk);
    KeyBytesDecode(path, dir, f.disk, f.next, View(r, r, e.bound));
    DecodesToOne(KeyBytes(f.disk, path), r, f.ring);
    SeenIsBound(path, dir, f.disk, f.next, View(r, r, e.bound));
    assert f.bound == e.bound;
  }

  lemma SeenIsBound(path: Path, dir: Dirs, d: Disk, next: nat, v: View)
    requires KeyOk(path, dir, d, next, v)
    ensures Entries(v.seen) <= v.bound && v.stored.active <= v.seen.active
    ensures v.stored.active < v.seen.active ==> Named(v.bound, v.stored.active + 1)
  {
  }

  lemma {:induction false} HistoryKeeps(path: Path, dir: Dirs, eras: seq<Era>, turns: seq<Turn>, n: nat)
    returns (stored: Ring)
    requires Beside(path, dir) && IsHistory(path, dir, eras, turns) && n <= |turns|
    ensures EraOk(path, dir, eras[n], stored)
  {
    hide KeyOk, Does, Beside;
    if n == 0 {
      return eras[0].ring;
    }
    stored := HistoryKeeps(path, dir, eras, turns, n - 1);
    assert Does(path, dir, eras[n - 1], turns[n - 1], eras[n - 1 + 1]);
    match turns[n - 1]
    case Act(deed) => stored := ActKeeps(path, dir, eras[n - 1], deed, eras[n], stored);
    case Crash =>
      CrashKeeps(path, dir, eras[n - 1], eras[n], stored);
      stored := eras[n].ring;
  }

  // ---- When the next operation is safe

  /** Whatever calls succeed and wherever a crash comes, the operation leaves the old or the new ring. */
  ghost predicate CrashSafe(path: Path, dir: Dirs, e: Era, deed: Deed)
    requires Admitted(path, e.ring, deed)
  {
    var p := PlanOf(path, dir, e.ring, KeyBytes(e.disk, path), deed);
    forall oks, after | CrashedTo(Run(p, Begin(e.disk, e.next), oks).disk, after) ::
      OldOrNewRing(p, e.ring, NewRing(path, e.ring, deed), after)
  }

  /** In every history of rotations, retirements and crashes, with any calls failing and any operation cut off, the
      next one is safe at every crash point exactly when no change of the key path is unsynced. */
  lemma CrashSafeIffSynced(path: Path, dir: Dirs, eras: seq<Era>, turns: seq<Turn>, n: nat, deed: Deed)
    requires Beside(path, dir) && IsHistory(path, dir, eras, turns) && n <= |turns|
    requires Admitted(path, eras[n].ring, deed)
    ensures CrashSafe(path, dir, eras[n], deed) <==> !Unsynced(eras[n].disk, path)
  {
    hide Beside, Unsynced, OldOrNewRing, KeyOk, Does;
    var e := eras[n];
    var stored := HistoryKeeps(path, dir, eras, turns, n);
    var bytes := KeyBytes(e.disk, path);
    KeyBytesDecode(path, dir, e.disk, e.next, View(stored, e.ring, e.bound));
    if Unsynced(e.disk, path) {
      UnsyncedCanBeLost(path, dir, e, stored, deed);
    } else {
      var p := PlanOf(path, dir, e.ring, bytes, deed);
      BeginsHere(path, dir, e, stored, deed);
      forall oks, after | CrashedTo(Run(p, Begin(e.disk, e.next), oks).disk, after)
        ensures OldOrNewRing(p, e.ring, NewRing(path, e.ring, deed), after)
      {
        DeedSurvivesCrashes(path, dir, e.ring, bytes, deed.(oks := oks), e.disk, e.next, after);
      }
    }
  }

  lemma BeginsHere(path: Path, dir: Dirs, e: Era, stored: Ring, deed: Deed)
    requires EraOk(path, dir, e, stored) && Admitted(path, e.ring, deed)
    ensures Begins(PlanOf(path, dir, e.ring, KeyBytes(e.disk, path), deed), e.disk, e.next)
  {
    KeyBytesDecode(path, dir, e.disk, e.next, View(stored, e.ring, e.bound));
    hide Decodes, NewRing, Spans, OnlyRenames;
  }

  /** A crash at once drops the unsynced renames, and the ring before them is back. */
  lemma UnsyncedCanBeLost(path: Path, dir: Dirs, e: Era, stored: Ring, deed: Deed)
    requires EraOk(path, dir, e, stored) && Unsynced(e.disk, path)
    requires Admitted(path, e.ring, deed)
    ensures !CrashSafe(path, dir, e, deed)
  {
    var d := e.disk;
    var p := PlanOf(path, dir, e.ring, KeyBytes(d, path), deed);
    var after := map q | q in d.durable :: if d.durable[q] in d.inodes then d.inodes[d.durable[q]].bytes else [];
    DroppingAll(d, after);
    assert Run(p, Begin(d, e.next), []).disk == d;
    assert Decodes(after[path], stored) && Newer(e.ring, stored);
    var done := NewRing(path, e.ring, deed);
    hide KeyOk, Replay, NewRing, Decodes;
    if OldOrNewRing(p, e.ring, done, after) {
      if Decodes(after[path], e.ring) {
        DecodesToOne(after[path], stored, e.ring);
      } else {
        DecodesToOne(after[path], stored, done);
      }
    }
  }

  lemma {:induction false} KeptNone(ops: seq<DirOp>, keep: seq<bool>)
    requires |ops| == |keep| && forall i | 0 <= i < |keep| :: !keep[i]
    ensures Kept(ops, keep) == []
  {
    if ops != [] {
      KeptNone(ops[..|ops| - 1], keep[..|ops| - 1]);
    }
  }

  lemma DroppingAll(d: Disk, after: map<Path, seq<byte>>)
    requires after == map q | q in d.durable :: if d.durable[q] in d.inodes then d.inodes[d.durable[q]].bytes else []
    ensures CrashedTo(d, after)
  {
    var keep: seq<bool> := seq(|d.pending|, _ => false);
    KeptNone(d.pending, keep);
    assert Replay(d.durable, []) == d.durable;
    assert CrashedKeeping(d, keep, after);
  }

  // ---- When an identifier can come to name a second key

  /** No identifier was ever seen with two keys. */
  ghost predicate OneMaterial(bound: set<Entry>) {
    forall x, y | x in bound && y in bound && x.id == y.id :: x == y
  }

  /** Nor will the next rotation's be. */
  ghost predicate Unambiguous(e: Era) {
    OneMaterial(e.bound) && forall x | x in e.bound :: x.id <= e.ring.active
  }

  /** The ring on disk is from before a rotation that a process has seen. */
  ghost predicate Behind(path: Path, e: Era) {
    path in e.disk.durable && exists r :: HoldsRing(e.disk.inodes, e.disk.durable[path], r) && r.active < e.ring.active
  }

  lemma BehindIff(path: Path, dir: Dirs, e: Era, stored: Ring)
    requires EraOk(path, dir, e, stored)
    ensures Behind(path, e) <==> stored.active < e.ring.active
  {
    hide Decodes, Spans, OnlyRenames, Live;
    if Behind(path, e) {
      var r :| HoldsRing(e.disk.inodes, e.disk.durable[path], r) && r.active < e.ring.active;
      DecodesToOne(e.disk.inodes[e.disk.durable[path]].bytes, r, stored);
    } else {
      assert HoldsRing(e.disk.inodes, e.disk.durable[path], stored);
    }
  }

  lemma ActUnambiguous(path: Path, dir: Dirs, e: Era, deed: Deed, f: Era, stored: Ring) returns (now: Ring)
    requires Beside(path, dir) && EraOk(path, dir, e, stored) && Does(path, dir, e, Act(deed), f) && Unambiguous(e)
    ensures EraOk(path, dir, f, now) && Unambiguous(f)
  {
    now := ActKeeps(path, dir, e, deed, f, stored);
    SeenIsBound(path, dir, e.disk, e.next, View(stored, e.ring, e.bound));
    assert f.bound == e.bound + Entries(f.ring);
    if f.ring != e.ring {
      NewRingFollows(path, e.ring, deed);
    }
    hide *;
    if Entries(f.ring) <= Entries(e.ring) {
      SameBound(e, f);
    } else {
      OneMoreBound(e, f, deed.minted);
    }
  }

  lemma SameBound(e: Era, f: Era)
    requires Unambiguous(e) && f.ring.active >= e.ring.active
    requires Entries(f.ring) <= Entries(e.ring) <= e.bound && f.bound == e.bound + Entries(f.ring)
    ensures Unambiguous(f)
  {
    assert f.bound == e.bound;
  }

  lemma OneMoreBound(e: Era, f: Era, minted: Material)
    requires Unambiguous(e) && f.ring.active > e.ring.active && Entries(e.ring) <= e.bound
    requires Entries(f.ring) == Entries(e.ring) + {Entry(f.ring.active, minted)}
    requires f.bound == e.bound + Entries(f.ring)
    ensures Unambiguous(f)
  {
    assert f.bound == e.bound + {Entry(f.ring.active, minted)};
  }

  lemma CrashUnambiguous(path: Path, dir: Dirs, e: Era, f: Era, stored: Ring)
    requires EraOk(path, dir, e, stored) && Does(path, dir, e, Crash, f) && Unambiguous(e) && !Behind(path, e)
    ensures EraOk(path, dir, f, f.ring) && Unambiguous(f)
  {
    CrashKeeps(path, dir, e, f, stored);
    BehindIff(path, dir, e, stored);
    hide EraOk, Does;
  }

  lemma RingNamesOneKey(r: Ring)
    requires ValidRing(r)
    ensures OneMaterial(Entries(r)) && forall x | x in Entries(r) :: x.id <= r.active
  {
    forall x, y | x in Entries(r) && y in Entries(r) && x.id == y.id
      ensures x == y
    {
      var i :| 0 <= i < |r.keys| && r.keys[i] == x;
      var j :| 0 <= j < |r.keys| && r.keys[j] == y;
    }
  }

  lemma StartsUnambiguous(path: Path, dir: Dirs, e: Era)
    requires Starts(path, dir, e)
    ensures Unambiguous(e)
  {
    KeyBytesDecode(path, dir, e.disk, e.next, View(e.ring, e.ring, e.bound));
    hide KeyOk, OneMaterial, ValidRing;
    RingNamesOneKey(e.ring);
  }

  /** No crash of the first `n` turns came while the ring on disk was from before a rotation. */
  ghost predicate NoRotationLost(path: Path, eras: seq<Era>, turns: seq<Turn>, n: nat)
    requires n <= |turns| < |eras|
  {
    forall i | 0 <= i < n && turns[i] == Crash :: !Behind(path, eras[i])
  }

  lemma {:induction false} HistoryUnambiguous(path: Path, dir: Dirs, eras: seq<Era>, turns: seq<Turn>, n: nat)
    returns (stored: Ring)
    requires Beside(path, dir) && IsHistory(path, dir, eras, turns) && n <= |turns|
    requires NoRotationLost(path, eras, turns, n)
    ensures EraOk(path, dir, eras[n], stored) && Unambiguous(eras[n])
  {
    hide EraOk, Does, Beside, Unambiguous, Behind, Starts;
    if n == 0 {
      StartsUnambiguous(path, dir, eras[0]);
      stored := HistoryKeeps(path, dir, eras, turns, 0);
      return;
    }
    stored := HistoryUnambiguous(path, dir, eras, turns, n - 1);
    assert Does(path, dir, eras[n - 1], turns[n - 1], eras[n - 1 + 1]);
    match turns[n - 1]
    case Act(deed) => stored := ActUnambiguous(path, dir, eras[n - 1], deed, eras[n], stored);
    case Crash =>
      CrashUnambiguous(path, dir, eras[n - 1], eras[n], stored);
      stored := eras[n].ring;
  }

  /** Over every history, each identifier names one key for good as long as no crash comes while the ring on disk
      is from before a rotation that was seen. */
  lemma IdentifiersNameOneKey(path: Path, dir: Dirs, eras: seq<Era>, turns: seq<Turn>, n: nat)
    requires Beside(path, dir) && IsHistory(path, dir, eras, turns) && n <= |turns|
    requires NoRotationLost(path, eras, turns, n)
    ensures OneMaterial(eras[n].bound)
  {
    var stored := HistoryUnambiguous(path, dir, eras, turns, n);
  }

  /** Operations that follow one another, the first after a crash now. */
  ghost predicate AfterCrash(path: Path, dir: Dirs, e: Era, eras: seq<Era>, deeds: seq<Deed>) {
    && |eras| == |deeds| + 1 && Does(path, dir, e, Crash, eras[0])
    && forall i | 0 <= i < |deeds| :: Does(path, dir, eras[i], Act(deeds[i]), eras[i + 1])
  }

  /** A crash now and then operations alone can give an identifier a second key. */
  ghost predicate CrashCanRebind(path: Path, dir: Dirs, e: Era) {
    exists eras: seq<Era>, deeds: seq<Deed> ::
      AfterCrash(path, dir, e, eras, deeds) && !OneMaterial(eras[|deeds|].bound)
  }

  lemma {:induction false} AfterCrashUnambiguous(path: Path, dir: Dirs, e: Era, stored: Ring, eras: seq<Era>,
                                                 deeds: seq<Deed>, n: nat) returns (now: Ring)
    requires Beside(path, dir) && EraOk(path, dir, e, stored) && Unambiguous(e) && !Behind(path, e)
    requires AfterCrash(path, dir, e, eras, deeds) && n <= |deeds|
    ensures EraOk(path, dir, eras[n], now) && Unambiguous(eras[n])
  {
    hide EraOk, Does, Beside, Unambiguous, Behind;
    if n == 0 {
      CrashUnambiguous(path, dir, e, eras[0], stored);
      return eras[0].ring;
    }
    now := AfterCrashUnambiguous(path, dir, e, stored, eras, deeds, n - 1);
    assert Does(path, dir, eras[n - 1], Act(deeds[n - 1]), eras[n - 1 + 1]);
    now := ActUnambiguous(path, dir, eras[n - 1], deeds[n - 1], eras[n], now);
  }

  lemma {:induction false} LongerThanAll(names: set<Path>) returns (n: nat)
    ensures forall q | q in names :: |q| < n
  {
    n := 0;
    if names != {} {
      var q :| q in names;
      n := LongerThanAll(names - {q});
      n := if n > |q| then n else |q| + 1;
    }
  }

  /** An operation with an unused backup name. */
  lemma FreshDeed(path: Path, dir: Dirs, e: Era, retire: bool, minted: Material, oks: seq<bool>)
    returns (deed: Deed)
    requires Beside(path, dir) && ValidRing(e.ring)
    requires if retire then |e.ring.keys| > 1 else e.ring.active < MAX_ID && |e.ring.keys| < MAX_KEYS
    ensures Admitted(path, e.ring, deed) && deed.retire == retire && deed.minted == minted
    ensures deed.oks == oks
    ensures var p := PlanOf(path, dir, e.ring, KeyBytes(e.disk, path), deed);
            && PlanOk(p) && p.path == path && p.backup !in Live(e.disk) && p.backup != p.staged
            && p.minted == FileOf(NewRing(path, e.ring, deed))
  {
    var staged := PendingPath(path, if retire then e.ring.active else e.ring.active + 1);
    var n := LongerThanAll(Live(e.disk).Keys + {path, staged});
    deed := Deed(retire, seq(n, _ => 'k'), minted, oks);
    hide Live, FileOf, PendingPath, KeyBytes;
    assert |deed.backup| == n;
  }

  /** With no failing call it puts its ring in place. */
  lemma Completes(path: Path, dir: Dirs, e: Era, stored: Ring, retire: bool, minted: Material)
    returns (deed: Deed, f: Era)
    requires Beside(path, dir) && EraOk(path, dir, e, stored) && ValidRing(e.ring)
    requires if retire then |e.ring.keys| > 1 else e.ring.active < MAX_ID && |e.ring.keys| < MAX_KEYS
    ensures Does(path, dir, e, Act(deed), f) && deed.retire == retire && deed.minted == minted
    ensures Admitted(path, e.ring, deed) && f.ring == NewRing(path, e.ring, deed)
  {
    hide *;
    deed := FreshDeed(path, dir, e, retire, minted, seq(8, _ => true));
    var p := PlanOf(path, dir, e.ring, KeyBytes(e.disk, path), deed);
    BeginsHere(path, dir, e, stored, deed);
    RunsToDone(p, e.disk, e.next);
    var s := Run(p, Begin(e.disk, e.next), deed.oks);
    var ring := NewRing(path, e.ring, deed);
    FilesDecode(ring);
    f := Era(s.disk, s.next, ring, e.bound + Entries(ring));
    ActDone(path, dir, e, deed, f);
  }

  lemma ActDone(path: Path, dir: Dirs, e: Era, deed: Deed, f: Era)
    requires Admitted(path, e.ring, deed)
    requires Decodes(KeyBytes(f.disk, path), f.ring) && f.bound == e.bound + Entries(f.ring)
    requires var p := PlanOf(path, dir, e.ring, KeyBytes(e.disk, path), deed);
             var s := Run(p, Begin(e.disk, e.next), deed.oks);
             f.disk == s.disk && f.next == s.next
    ensures Does(path, dir, e, Act(deed), f)
  {
  }

  lemma RunsToDone(p: Plan, d: Disk, next: nat)
    requires PlanOk(p) && Begins(p, d, next) && p.backup !in Live(d) && p.backup != p.staged
    ensures KeyBytes(Run(p, Begin(d, next), seq(8, _ => true)).disk, p.path) == p.minted
  {
    var oks: seq<bool> := seq(8, _ => true);
    var s := Run(p, Begin(d, next), oks);
    CompletesIffBackupNameIsFree(p, d, next);
    SmoothIsRun(p, Begin(d, next), 8);
    RunKeeps(p, Begin(d, next), oks, false);
    ReplayKeepsOthers(s.disk.durable, s.disk.pending, p.path);
  }

  /** A crash that drops every unsynced change. */
  lemma CrashToStored(path: Path, dir: Dirs, e: Era, stored: Ring) returns (f: Era)
    requires EraOk(path, dir, e, stored)
    ensures Does(path, dir, e, Crash, f) && f.ring == stored && f.bound == e.bound && ValidRing(stored)
  {
    var d := e.disk;
    f := Era(Disk(d.durable, [], d.inodes), e.next, stored, e.bound);
    var keep: seq<bool> := seq(|d.pending|, _ => false);
    KeptNone(d.pending, keep);
    assert Replay(d.durable, []) == d.durable;
    assert Rebooted(d, keep, f.disk);
    hide Decodes, Replay, Kept;
    assert Live(f.disk) == d.durable;
  }

  lemma RotationMints(path: Path, ring: Ring, deed: Deed)
    requires Admitted(path, ring, deed)
    ensures var done := NewRing(path, ring, deed);
            if deed.retire then done.active == ring.active && |done.keys| == 1
            else done.active == ring.active + 1 && Entry(ring.active + 1, deed.minted) in Entries(done)
  {
    if !deed.retire {
      var done := NewRing(path, ring, deed);
      assert done.keys[|ring.keys|] == Entry(ring.active + 1, deed.minted);
    }
  }

  lemma TwoMaterials(bound: set<Entry>, x: Entry, y: Entry)
    requires x in bound && y in bound && x.id == y.id && x != y
    ensures !OneMaterial(bound)
  {
  }

  lemma BoundGrows(path: Path, dir: Dirs, e: Era, turn: Turn, f: Era)
    requires Does(path, dir, e, turn, f)
    ensures f.bound == e.bound + Entries(f.ring)
  {
  }

  /** A rotation to an identifier that was seen with another key. */
  lemma RotatesAgain(path: Path, dir: Dirs, e: Era, stored: Ring, x: Entry, minted: Material)
    returns (deed: Deed, f: Era)
    requires Beside(path, dir) && EraOk(path, dir, e, stored) && ValidRing(e.ring)
    requires |e.ring.keys| < MAX_KEYS && x in e.bound && x.id == e.ring.active + 1 && x.material != minted
    ensures Does(path, dir, e, Act(deed), f) && !OneMaterial(f.bound)
  {
    hide EraOk, Beside, NewRing, Decodes, Does;
    deed, f := Completes(path, dir, e, stored, false, minted);
    BoundGrows(path, dir, e, Act(deed), f);
    RotationMints(path, e.ring, deed);
    TwoMaterials(f.bound, x, Entry(x.id, minted));
  }

  lemma RetiresAndRotates(path: Path, dir: Dirs, e: Era, x: Entry, minted: Material)
    returns (first: Deed, f: Era, deed: Deed, g: Era)
    requires Beside(path, dir) && EraOk(path, dir, e, e.ring) && ValidRing(e.ring)
    requires |e.ring.keys| > 1 && x in e.bound && x.id == e.ring.active + 1 && x.material != minted
    ensures Does(path, dir, e, Act(first), f) && Does(path, dir, f, Act(deed), g) && !OneMaterial(g.bound)
  {
    hide EraOk, Beside, NewRing, Does, OneMaterial;
    first, f := Completes(path, dir, e, e.ring, true, minted);
    RotationMints(path, e.ring, first);
    BoundGrows(path, dir, e, Act(first), f);
    var stored := ActKeeps(path, dir, e, first, f, e.ring);
    deed, g := RotatesAgain(path, dir, f, stored, x, minted);
  }

  /** The ring from before the rotation comes back, and the next rotation gives the lost identifier to another key;
      a full ring is first retired. */
  lemma LostRotationRebinds(path: Path, dir: Dirs, e: Era, stored: Ring)
    requires Beside(path, dir) && EraOk(path, dir, e, stored) && stored.active < e.ring.active
    ensures CrashCanRebind(path, dir, e)
  {
    hide KeyOk, Beside, Does, OneMaterial, ValidRing;
    SeenIsBound(path, dir, e.disk, e.next, View(stored, e.ring, e.bound));
    var x :| x in e.bound && x.id == stored.active + 1;
    var minted := OtherMaterial(x.material);
    var f := CrashToStored(path, dir, e, stored);
    CrashKeeps(path, dir, e, f, stored);
    hide EraOk;
    if |stored.keys| < MAX_KEYS {
      var deed, g := RotatesAgain(path, dir, f, stored, x, minted);
      assert AfterCrash(path, dir, e, [f, g], [deed]);
    } else {
      var first, g, deed, h := RetiresAndRotates(path, dir, f, x, minted);
      assert AfterCrash(path, dir, e, [f, g, h], [first, deed]);
    }
  }

  lemma OtherMaterial(m: Material) returns (minted: Material)
    ensures minted != m
  {
    minted := m[0 := if m[0] == 0 then 1 else 0];
    assert minted[0] != m[0];
  }

  /** In a history that lost no rotation so far, a crash can give an identifier a second key exactly when the ring
      on disk is from before a rotation that was seen; a retirement alone may be lost without that. */
  lemma CrashCanRebindIffBehind(path: Path, dir: Dirs, eras: seq<Era>, turns: seq<Turn>, n: nat)
    requires Beside(path, dir) && IsHistory(path, dir, eras, turns) && n <= |turns|
    requires NoRotationLost(path, eras, turns, n)
    ensures CrashCanRebind(path, dir, eras[n]) <==> Behind(path, eras[n])
  {
    var e := eras[n];
    var stored := HistoryUnambiguous(path, dir, eras, turns, n);
    BehindIff(path, dir, e, stored);
    hide EraOk, Behind, IsHistory, Beside;
    if Behind(path, e) {
      LostRotationRebinds(path, dir, e, stored);
    } else if CrashCanRebind(path, dir, e) {
      var next: seq<Era>, deeds: seq<Deed> :|
        AfterCrash(path, dir, e, next, deeds) && !OneMaterial(next[|deeds|].bound);
      var now := AfterCrashUnambiguous(path, dir, e, stored, next, deeds, |deeds|);
    }
  }

  /** The calls of an operation whose last sync fails. */
  function LastSyncFails(): seq<bool> {
    seq(7, _ => true) + [false]
  }

  lemma RunsToFailedSync(p: Plan, d: Disk, next: nat)
    requires PlanOk(p) && Begins(p, d, next) && p.backup !in Live(d) && p.backup != p.staged
    ensures var s := Run(p, Begin(d, next), LastSyncFails());
            s.pc == Failed && KeyBytes(s.disk, p.path) == p.minted
  {
    var oks: seq<bool> := seq(7, _ => true);
    var s := Run(p, Begin(d, next), oks);
    CompletesIffBackupNameIsFree(p, d, next);
    SmoothIsRun(p, Begin(d, next), 7);
    assert LastSyncFails()[..7] == oks;
    RunKeeps(p, Begin(d, next), oks, false);
    hide Run, Flush, Smooth;
    assert s.pc == SyncDir;
  }

  /** Every rotation can leave the ring on disk behind: its last sync fails. */
  lemma FailedSyncLeavesBehind(path: Path, dir: Dirs, e: Era, stored: Ring, minted: Material)
    returns (deed: Deed, f: Era)
    requires Beside(path, dir) && EraOk(path, dir, e, stored) && ValidRing(e.ring)
    requires e.ring.active < MAX_ID && |e.ring.keys| < MAX_KEYS
    ensures Does(path, dir, e, Act(deed), f) && Behind(path, f)
  {
    hide *;
    deed := FreshDeed(path, dir, e, false, minted, LastSyncFails());
    var p := PlanOf(path, dir, e.ring, KeyBytes(e.disk, path), deed);
    BeginsHere(path, dir, e, stored, deed);
    RunsToFailedSync(p, e.disk, e.next);
    var s := Run(p, Begin(e.disk, e.next), deed.oks);
    var ring := NewRing(path, e.ring, deed);
    FilesDecode(ring);
    f := Era(s.disk, s.next, ring, e.bound + Entries(ring));
    ActDone(path, dir, e, deed, f);
    var now := ActKeeps(path, dir, e, deed, f, stored);
    NotFinished(path, dir, e, deed);
    StoredFirst(path, dir, e, stored);
    RotationMints(path, e.ring, deed);
    BehindIff(path, dir, f, now);
  }

  lemma StoredFirst(path: Path, dir: Dirs, e: Era, stored: Ring)
    requires EraOk(path, dir, e, stored)
    ensures stored.active <= e.ring.active
  {
  }

  lemma NotFinished(path: Path, dir: Dirs, e: Era, deed: Deed)
    requires Admitted(path, e.ring, deed)
    requires Run(PlanOf(path, dir, e.ring, KeyBytes(e.disk, path), deed), Begin(e.disk, e.next), deed.oks).pc == Failed
    ensures !Finished(path, dir, e, deed)
  {
    hide Run, PlanOf, Admitted;
  }
}
