/** Sealed values over the life of a key ring. The cipher is ideal: a box carries the key, the
    associated data and the plaintext it was made with, and opens only under that key and data. */
module Sealing {
  import opened Bytes
  import opened KeyRing

  const VERSION: byte := 2

  // ---- Contexts

  type Id16 = s: seq<byte> | |s| == 16 witness seq(16, _ => 0)

  /** "secret/v1:" and a zero byte */
  const CONTEXT_TAG: seq<byte> := [115, 101, 99, 114, 101, 116, 47, 118, 49, 58, 0]

  /** The associated data that binds a secret to its owner, name and version. */
  function SecretContext(tenant: Id16, repo: Option<Id16>, name: seq<byte>, version: nat): seq<byte> {
    CONTEXT_TAG + (tenant + (RepoBytes(repo) + NameAndVersion(name, version)))
  }

  function RepoBytes(repo: Option<Id16>): seq<byte> {
    match repo
    case Some(id) => [1] + id
    case None => [0]
  }

  lemma EightBytes()
    ensures Pow256(8) == U64
  {
    FourBytes();
    assert Pow256(5) == 256 * Pow256(4) && Pow256(6) == 256 * Pow256(5)
        && Pow256(7) == 256 * Pow256(6) && Pow256(8) == 256 * Pow256(7);
  }

  lemma SplitEqual(a: seq<byte>, b: seq<byte>, c: seq<byte>, d: seq<byte>)
    requires a + b == c + d && |a| == |c|
    ensures a == c && b == d
  {
    assert a == (a + b)[..|a|] && b == (a + b)[|a|..];
    assert c == (c + d)[..|a|] && d == (c + d)[|a|..];
  }

  function NameAndVersion(name: seq<byte>, version: nat): seq<byte> {
    BigEndian(|name|, 4) + (name + BigEndian(version, 8))
  }

  lemma NameAndVersionSplit(name: seq<byte>, version: nat, name': seq<byte>, version': nat)
    requires |name| <= MAX_ID && |name'| <= MAX_ID
    requires version < U64 && version' < U64
    requires NameAndVersion(name, version) == NameAndVersion(name', version')
    ensures name == name' && version == version'
  {
    hide BigEndian, Pow256;
    SplitEqual(BigEndian(|name|, 4), name + BigEndian(version, 8),
               BigEndian(|name'|, 4), name' + BigEndian(version', 8));
    FourBytes();
    EightBytes();
    ValueOfBigEndian(|name|, 4);
    ValueOfBigEndian(|name'|, 4);
    SplitEqual(name, BigEndian(version, 8), name', BigEndian(version', 8));
    ValueOfBigEndian(version, 8);
    ValueOfBigEndian(version', 8);
  }

  /** Every component of a context is bound: two secrets share a context only if they are the same. */
  lemma ContextsDiffer(tenant: Id16, repo: Option<Id16>, name: seq<byte>, version: nat,
                       tenant': Id16, repo': Option<Id16>, name': seq<byte>, version': nat)
    requires |name| <= MAX_ID && |name'| <= MAX_ID
    requires version < U64 && version' < U64
    requires SecretContext(tenant, repo, name, version) == SecretContext(tenant', repo', name', version')
    ensures tenant == tenant' && repo == repo' && name == name' && version == version'
  {
    hide BigEndian, Pow256, NameAndVersion;
    SplitEqual(CONTEXT_TAG, tenant + (RepoBytes(repo) + NameAndVersion(name, version)),
               CONTEXT_TAG, tenant' + (RepoBytes(repo') + NameAndVersion(name', version')));
    SplitEqual(tenant, RepoBytes(repo) + NameAndVersion(name, version),
               tenant', RepoBytes(repo') + NameAndVersion(name', version'));
    var x := RepoBytes(repo) + NameAndVersion(name, version);
    var y := RepoBytes(repo') + NameAndVersion(name', version');
    assert x[0] == (if repo.Some? then 1 else 0) && y[0] == (if repo'.Some? then 1 else 0);
    SplitEqual(RepoBytes(repo), NameAndVersion(name, version), RepoBytes(repo'), NameAndVersion(name', version'));
    if repo.Some? {
      assert repo.value == RepoBytes(repo)[1..] && repo'.value == RepoBytes(repo')[1..];
    }
    NameAndVersionSplit(name, version, name', version');
  }

  // ---- Sealing and opening

  datatype Box = Box(material: Material, aad: seq<byte>, plain: seq<byte>)

  /** A value sealed before rotation existed, or one that names its key. */
  datatype Blob = Legacy(box: Box) | Current(id: KeyId, box: Box)

  function KeyOf(b: Blob): KeyId {
    match b
    case Legacy(_) => 0
    case Current(id, _) => id
  }

  function Aad(b: Blob, context: seq<byte>): seq<byte> {
    match b
    case Legacy(_) => context
    case Current(id, _) => [VERSION] + IdBytes(id) + context
  }

  function Find(keys: seq<Entry>, id: KeyId): Option<Material> {
    if keys == [] then None
    else if keys[|keys| - 1].id == id then Some(keys[|keys| - 1].material)
    else Find(keys[..|keys| - 1], id)
  }

  lemma {:induction false} FindIsThere(keys: seq<Entry>, id: KeyId)
    ensures Find(keys, id).Some? ==> Entry(id, Find(keys, id).value) in keys
    ensures Find(keys, id).None? ==> forall e | e in keys :: e.id != id
  {
    if keys != [] && keys[|keys| - 1].id != id {
      FindIsThere(keys[..|keys| - 1], id);
      assert keys == keys[..|keys| - 1] + [keys[|keys| - 1]];
    }
  }

  function Seal(r: Ring, context: seq<byte>, plain: seq<byte>): Blob
    requires ValidRing(r)
  {
    Current(r.active, Box(r.keys[|r.keys| - 1].material, [VERSION] + IdBytes(r.active) + context, plain))
  }

  function Open(r: Ring, context: seq<byte>, b: Blob): Option<seq<byte>> {
    match Find(r.keys, KeyOf(b))
    case None => None
    case Some(material) =>
      if b.box.material == material && b.box.aad == Aad(b, context) then Some(b.box.plain) else None
  }

  datatype Resealed = Unsealable | Kept | Fresh(blob: Blob)

  function Reseal(r: Ring, context: seq<byte>, b: Blob): Resealed
    requires ValidRing(r)
  {
    if b.Current? && b.id == r.active then Kept
    else
      match Open(r, context, b)
      case None => Unsealable
      case Some(plain) => Fresh(Seal(r, context, plain))
  }

  // ---- A history

  /** A stored value: what it is for, what was sealed, and the blob in the database. */
  datatype Row = Row(context: seq<byte>, plain: seq<byte>, blob: Blob)

  /** The ring, the rows, and every key identifier ever in the ring with its material. */
  datatype World = World(ring: Ring, rows: map<nat, Row>, bound: map<KeyId, Material>)

  datatype Event =
    | Rotate(minted: Material)
    | Retire
    | Store(row: nat, context: seq<byte>, plain: seq<byte>)
    | ResealRow(row: nat)
    | Delete(row: nat)

  function Rotated(r: Ring, minted: Material): Ring
    requires ValidRing(r)
  {
    if |r.keys| == MAX_KEYS || r.active == MAX_ID then r
    else Ring(r.active + 1, r.keys + [Entry(r.active + 1, minted)])
  }

  function Retired(r: Ring): Ring
    requires ValidRing(r)
  {
    Ring(r.active, [r.keys[|r.keys| - 1]])
  }

  lemma RingsStayValid(r: Ring, minted: Material)
    requires ValidRing(r)
    ensures ValidRing(Rotated(r, minted)) && ValidRing(Retired(r))
    ensures Rotated(r, minted) != r <==> |r.keys| < 32 && r.active < 0xFFFF_FFFF
    ensures Rotated(r, minted) != r ==> r.keys < Rotated(r, minted).keys
  {
    assert forall i | 0 <= i < |r.keys| :: r.keys[i].id <= r.active;
  }

  function Next(w: World, e: Event): World
    requires ValidRing(w.ring)
  {
    match e
    case Rotate(minted) =>
      var ring := Rotated(w.ring, minted);
      World(ring, w.rows, if ring == w.ring then w.bound else w.bound[ring.active := minted])
    case Retire => w.(ring := Retired(w.ring))
    case Store(row, context, plain) =>
      w.(rows := w.rows[row := Row(context, plain, Seal(w.ring, context, plain))])
    case ResealRow(row) =>
      if row !in w.rows then w
      else
        (match Reseal(w.ring, w.rows[row].context, w.rows[row].blob)
         case Fresh(blob) => w.(rows := w.rows[row := w.rows[row].(blob := blob)])
         case _ => w)
    case Delete(row) => w.(rows := w.rows - {row})
  }

  ghost predicate RowOk(row: Row, bound: map<KeyId, Material>) {
    var id := KeyOf(row.blob);
    id in bound && row.blob.box == Box(bound[id], Aad(row.blob, row.context), row.plain)
  }

  ghost predicate Inv(w: World) {
    && ValidRing(w.ring)
    && (forall e | e in w.ring.keys :: e.id in w.bound && w.bound[e.id] == e.material)
    && (forall id | id in w.bound :: id <= w.ring.active)
    && (forall row | row in w.rows :: RowOk(w.rows[row], w.bound))
  }

  /** A ring just created, or one loaded from before rotation with the values sealed then. */
  ghost predicate Start(w: World) {
    || (exists m: Material :: w == World(Ring(1, [Entry(1, m)]), map[], map[1 := m]))
    || (exists m: Material ::
          && w.ring == Ring(0, [Entry(0, m)]) && w.bound == map[0 := m]
          && forall row | row in w.rows ::
               w.rows[row].blob == Legacy(Box(m, w.rows[row].context, w.rows[row].plain)))
  }

  lemma StartHolds(w: World)
    requires Start(w)
    ensures Inv(w)
  {
  }

  ghost predicate Reaches(w: World, events: seq<Event>, t: World)
    decreases |events|
  {
    if events == [] then w == t
    else ValidRing(w.ring) && Reaches(Next(w, events[0]), events[1..], t)
  }

  /** The bindings only grow, so no identifier is ever given other material. */
  ghost predicate Extends(a: map<KeyId, Material>, b: map<KeyId, Material>) {
    forall id | id in a :: id in b && b[id] == a[id]
  }

  lemma RowsOkUnderMore(rows: map<nat, Row>, a: map<KeyId, Material>, b: map<KeyId, Material>)
    requires Extends(a, b) && forall row | row in rows :: RowOk(rows[row], a)
    ensures forall row | row in rows :: RowOk(rows[row], b)
  {
  }

  lemma SealOk(w: World, context: seq<byte>, plain: seq<byte>)
    requires Inv(w)
    ensures RowOk(Row(context, plain, Seal(w.ring, context, plain)), w.bound)
  {
    assert w.ring.keys[|w.ring.keys| - 1] in w.ring.keys;
  }

  lemma OpenedIsPlain(w: World, row: Row)
    requires Inv(w) && RowOk(row, w.bound)
    ensures Open(w.ring, row.context, row.blob)
         == if Find(w.ring.keys, KeyOf(row.blob)).Some? then Some(row.plain) else None
  {
    FindIsThere(w.ring.keys, KeyOf(row.blob));
  }

  lemma NextHolds(w: World, e: Event)
    requires Inv(w)
    ensures Inv(Next(w, e)) && Extends(w.bound, Next(w, e).bound)
    ensures w.ring.active <= Next(w, e).ring.active
  {
    hide IdBytes, Open, Find, RowOk;
    match e
    case Rotate(minted) =>
      RingsStayValid(w.ring, minted);
      RowsOkUnderMore(w.rows, w.bound, Next(w, e).bound);
    case Retire =>
      RingsStayValid(w.ring, w.ring.keys[0].material);
      assert w.ring.keys[|w.ring.keys| - 1] in w.ring.keys;
    case Store(row, context, plain) => SealOk(w, context, plain);
    case ResealRow(row) =>
      if row in w.rows {
        OpenedIsPlain(w, w.rows[row]);
        SealOk(w, w.rows[row].context, w.rows[row].plain);
      }
    case Delete(_) =>
  }

  lemma ExtendsTransitive(a: map<KeyId, Material>, b: map<KeyId, Material>, c: map<KeyId, Material>)
    requires Extends(a, b) && Extends(b, c)
    ensures Extends(a, c)
  {
  }

  lemma {:induction false} HistoryHolds(w: World, events: seq<Event>, t: World)
    requires Inv(w) && Reaches(w, events, t)
    ensures Inv(t) && Extends(w.bound, t.bound) && w.ring.active <= t.ring.active
    decreases |events|
  {
    hide Next, Inv, Extends;
    if events != [] {
      NextHolds(w, events[0]);
      HistoryHolds(Next(w, events[0]), events[1..], t);
      ExtendsTransitive(w.bound, Next(w, events[0]).bound, t.bound);
    } else {
      ExtendsSelf(w.bound);
    }
  }

  lemma ExtendsSelf(a: map<KeyId, Material>)
    ensures Extends(a, a)
  {
  }

  /** Over every history the ring stays ascending with the active key last, and an identifier that is
      in the ring at two moments names the same material at both. */
  lemma KeysAreNeverRebound(w0: World, before: seq<Event>, w: World, later: seq<Event>, t: World, a: Entry, b: Entry)
    requires Start(w0) && Reaches(w0, before, w) && Reaches(w, later, t)
    ensures ValidRing(w.ring) && ValidRing(t.ring) && w.ring.active <= t.ring.active
    ensures a in w.ring.keys && b in t.ring.keys && a.id == b.id ==> a == b
  {
    StartHolds(w0);
    HistoryHolds(w0, before, w);
    HistoryHolds(w, later, t);
  }

  /** What the history stored in a row last, and for what: its context and its plaintext. */
  function StoredIn(rows: map<nat, Row>, events: seq<Event>, row: nat): Option<(seq<byte>, seq<byte>)> {
    if events == [] then if row in rows then Some((rows[row].context, rows[row].plain)) else None
    else
      var last := events[|events| - 1];
      if last.Store? && last.row == row then Some((last.context, last.plain))
      else if last.Delete? && last.row == row then None
      else StoredIn(rows, events[..|events| - 1], row)
  }

  ghost predicate Agrees(rows: map<nat, Row>, done: seq<Event>, w: World) {
    forall row ::
      StoredIn(rows, done, row) == if row in w.rows then Some((w.rows[row].context, w.rows[row].plain)) else None
  }

  lemma AgreesNext(rows: map<nat, Row>, done: seq<Event>, w: World, e: Event)
    requires ValidRing(w.ring) && Agrees(rows, done, w)
    ensures Agrees(rows, done + [e], Next(w, e))
  {
    hide Reseal, Seal;
    assert (done + [e])[..|done|] == done;
  }

  lemma {:induction false} AgreesRun(rows: map<nat, Row>, done: seq<Event>, w: World, events: seq<Event>, t: World)
    requires Agrees(rows, done, w) && Reaches(w, events, t)
    ensures Agrees(rows, done + events, t)
    decreases |events|
  {
    hide Agrees, Next;
    if events == [] {
      assert done + events == done;
    } else {
      AgreesNext(rows, done, w, events[0]);
      AgreesRun(rows, done + [events[0]], Next(w, events[0]), events[1..], t);
      assert done + [events[0]] + events[1..] == done + events;
    }
  }

  /** Over every history a row is there exactly if it was stored and not deleted since, with what was stored. */
  lemma RowsAreStored(w0: World, events: seq<Event>, w: World, row: nat)
    requires Reaches(w0, events, w)
    ensures StoredIn(w0.rows, events, row)
         == if row in w.rows then Some((w.rows[row].context, w.rows[row].plain)) else None
  {
    assert Agrees(w0.rows, [], w0);
    AgreesRun(w0.rows, [], w0, events, w);
    assert [] + events == events;
  }

  /** Over every history what was stored last in a row opens under its own context exactly while its key is in the
      ring, and under no other context at all. */
  lemma OpensWhileItsKeyIsKept(w0: World, events: seq<Event>, w: World, row: nat, other: seq<byte>)
    requires Start(w0) && Reaches(w0, events, w) && row in w.rows
    ensures StoredIn(w0.rows, events, row).Some?
    ensures var (context, plain) := StoredIn(w0.rows, events, row).value;
            && Open(w.ring, context, w.rows[row].blob)
               == (if exists e :: e in w.ring.keys && e.id == KeyOf(w.rows[row].blob) then Some(plain) else None)
            && (other != context ==> Open(w.ring, other, w.rows[row].blob) == None)
  {
    RowsAreStored(w0, events, w, row);
    hide StoredIn;
    StartHolds(w0);
    HistoryHolds(w0, events, w);
    var r := w.rows[row];
    OpenedIsPlain(w, r);
    FindIsThere(w.ring.keys, KeyOf(r.blob));
    if other != r.context {
      AadsDiffer(r.blob, other, r.context);
    }
  }

  lemma AadsDiffer(b: Blob, x: seq<byte>, y: seq<byte>)
    requires x != y
    ensures Aad(b, x) != Aad(b, y)
  {
    if b.Current? {
      var head := [VERSION] + IdBytes(b.id);
      assert (head + x)[|head|..] == x && (head + y)[|head|..] == y;
    }
  }

  ghost predicate Readable(w: World, row: nat)
    requires row in w.rows
  {
    Open(w.ring, w.rows[row].context, w.rows[row].blob) == Some(w.rows[row].plain)
  }

  /** Retiring keeps exactly the values of the active key readable. */
  lemma RetireKeepsTheActiveOnes(w: World, row: nat)
    requires Inv(w) && row in w.rows
    ensures Readable(Next(w, Retire), row) <==> KeyOf(w.rows[row].blob) == w.ring.active
  {
    NextHolds(w, Retire);
    var t := Next(w, Retire);
    OpenedIsPlain(t, w.rows[row]);
    assert t.ring.keys[..0] == [];
  }

  /** A pass between two moments: values are stored, resealed and deleted, but the ring stays. */
  ghost predicate Pass(events: seq<Event>) {
    forall e | e in events :: e.Store? || e.ResealRow? || e.Delete?
  }

  ghost predicate Active(w: World, row: nat) {
    row in w.rows ==> KeyOf(w.rows[row].blob) == w.ring.active
  }

  /** One event of a pass: it leaves the ring, keeps readable rows readable with their plaintext, and
      leaves the row it touches under the active key. */
  lemma PassStep(w: World, e: Event)
    requires Inv(w) && (e.Store? || e.ResealRow? || e.Delete?)
    requires forall row | row in w.rows :: Readable(w, row)
    ensures Next(w, e).ring == w.ring
    ensures forall row | row in Next(w, e).rows :: Readable(Next(w, e), row)
    ensures forall row | Active(w, row) :: Active(Next(w, e), row)
    ensures Active(Next(w, e), e.row)
    ensures forall row | row in w.rows && row in Next(w, e).rows && !(e.Store? && e.row == row) ::
              Next(w, e).rows[row].plain == w.rows[row].plain
  {
    var t := Next(w, e);
    NextHolds(w, e);
    if e.row in t.rows {
      TouchedRow(w, e);
    }
    hide Open, Seal, Inv;
    forall row | row in t.rows && row != e.row
      ensures Readable(t, row) && t.rows[row] == w.rows[row]
    {
      assert Readable(w, row);
    }
  }

  lemma PassKeepsRow(w: World, e: Event, row: nat)
    requires ValidRing(w.ring) && row in w.rows && (e.Store? || e.ResealRow? || e.Delete?)
    requires (e.Store? || e.Delete?) ==> e.row != row
    ensures row in Next(w, e).rows
  {
  }

  lemma TouchedRow(w: World, e: Event)
    requires Inv(w) && (e.Store? || e.ResealRow?) && e.row in Next(w, e).rows
    requires e.ResealRow? ==> Readable(w, e.row)
    ensures Readable(Next(w, e), e.row) && Active(Next(w, e), e.row)
    ensures e.ResealRow? ==> Next(w, e).rows[e.row].plain == w.rows[e.row].plain
  {
    hide IdBytes;
    var t := Next(w, e);
    NextHolds(w, e);
    OpenedIsPlain(t, t.rows[e.row]);
    ActiveIsFound(w.ring);
  }

  lemma ActiveIsFound(r: Ring)
    requires ValidRing(r)
    ensures Find(r.keys, r.active).Some?
  {
  }

  /** The row is neither stored again nor deleted. */
  ghost predicate Untouched(events: seq<Event>, row: nat) {
    forall e | e in events :: (e.Store? || e.Delete?) ==> e.row != row
  }

  lemma {:induction false} PassReaches(w: World, events: seq<Event>, t: World)
    requires Inv(w) && Pass(events) && Reaches(w, events, t)
    requires forall row | row in w.rows :: Readable(w, row)
    ensures Inv(t) && t.ring == w.ring
    ensures forall row | row in t.rows :: Readable(t, row)
    ensures forall row | Active(w, row) || (exists e :: e in events && e.row == row) :: Active(t, row)
    ensures forall row | row in w.rows && row in t.rows && Untouched(events, row) ::
              t.rows[row].plain == w.rows[row].plain
    decreases |events|
  {
    hide Next, Inv, Readable;
    if events != [] {
      assert events[0] in events;
      NextHolds(w, events[0]);
      PassStep(w, events[0]);
      assert forall e | e in events[1..] :: e in events;
      PassReaches(Next(w, events[0]), events[1..], t);
      forall row | row in w.rows && row in t.rows && Untouched(events, row)
        ensures t.rows[row].plain == w.rows[row].plain
      {
        PassKeepsRow(w, events[0], row);
        assert Untouched(events[1..], row);
      }
      forall row | Active(w, row) || (exists e :: e in events && e.row == row)
        ensures Active(t, row)
      {
        if !Active(w, row) {
          var e :| e in events && e.row == row;
          assert e == events[0] || e in events[1..];
        }
      }
    }
  }

  /** Once a pass has touched every row that was there, the old keys can be retired: every row still
      opens, and a row the pass only resealed opens to the plaintext it had. */
  lemma ResealThenRetire(w0: World, before: seq<Event>, w: World, pass: seq<Event>, t: World)
    requires Start(w0) && Reaches(w0, before, w)
    requires forall row | row in w.rows :: Readable(w, row)
    requires Pass(pass) && Reaches(w, pass, t)
    requires forall row | row in w.rows :: exists e :: e in pass && e.row == row
    ensures ValidRing(t.ring)
    ensures forall row | row in t.rows :: Readable(Next(t, Retire), row)
    ensures forall row | row in w.rows && row in t.rows && Untouched(pass, row) ::
              t.rows[row].plain == w.rows[row].plain
  {
    StartHolds(w0);
    HistoryHolds(w0, before, w);
    PassReaches(w, pass, t);
    forall row | row in t.rows
      ensures Readable(Next(t, Retire), row)
    {
      assert Active(w, row) || exists e :: e in pass && e.row == row;
      RetireKeepsTheActiveOnes(t, row);
    }
  }
}
