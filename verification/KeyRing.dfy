/** The sealing key ring and its file: the codec, and the operations that grow and shrink the ring. */
module KeyRing {
  import opened Bytes

  const KEY_LEN: nat := 32
  const MAX_KEYS: nat := 32
  const ENTRY_LEN: nat := 36
  const HEADER_LEN: nat := 13
  const MAX_ID: nat := 0xFFFF_FFFF

  /** "SNTLKEY2" */
  const MAGIC: seq<byte> := [83, 78, 84, 76, 75, 69, 89, 50]

  type Material = m: seq<byte> | |m| == KEY_LEN witness seq(KEY_LEN, _ => 0)
  type KeyId = n: nat | n <= MAX_ID

  datatype Entry = Entry(id: KeyId, material: Material)

  /** The keys, oldest first; the active one seals. */
  datatype Ring = Ring(active: KeyId, keys: seq<Entry>)

  predicate Ascending(keys: seq<Entry>) {
    forall i, j | 0 <= i < j < |keys| :: keys[i].id < keys[j].id
  }

  predicate ValidRing(r: Ring) {
    && 1 <= |r.keys| <= MAX_KEYS
    && Ascending(r.keys)
    && r.keys[|r.keys| - 1].id == r.active
  }

  // ---- Big-endian numbers

  function Pow256(k: nat): nat {
    if k == 0 then 1 else 256 * Pow256(k - 1)
  }

  function BigEndian(n: nat, k: nat): (bs: seq<byte>)
    ensures |bs| == k
  {
    if k == 0 then [] else BigEndian(n / 256, k - 1) + [n % 256]
  }

  function Value(bs: seq<byte>): nat {
    if bs == [] then 0 else Value(bs[..|bs| - 1]) * 256 + bs[|bs| - 1]
  }

  lemma {:induction false} ValueOfBigEndian(n: nat, k: nat)
    requires n < Pow256(k)
    ensures Value(BigEndian(n, k)) == n
  {
    if k > 0 {
      ValueOfBigEndian(n / 256, k - 1);
      var bs := BigEndian(n, k);
      assert bs[..|bs| - 1] == BigEndian(n / 256, k - 1);
    }
  }

  lemma {:induction false} BigEndianOfValue(bs: seq<byte>)
    ensures BigEndian(Value(bs), |bs|) == bs && Value(bs) < Pow256(|bs|)
  {
    if bs != [] {
      BigEndianOfValue(bs[..|bs| - 1]);
      assert bs == bs[..|bs| - 1] + [bs[|bs| - 1]];
    }
  }

  /** The most significant byte comes first. */
  lemma {:induction false} MostSignificantFirst(n: nat, k: nat)
    requires 0 < k && n < Pow256(k)
    ensures var first := BigEndian(n, k)[0] as int; first * Pow256(k - 1) <= n < (first + 1) * Pow256(k - 1)
  {
    if k == 1 {
      assert Pow256(1) == 256 && BigEndian(n, 1) == [n];
    } else {
      MostSignificantFirst(n / 256, k - 1);
      assert BigEndian(n, k)[0] == BigEndian(n / 256, k - 1)[0];
      Between256(n, BigEndian(n, k)[0] as int, Pow256(k - 2));
    }
  }

  lemma Between256(n: nat, d: nat, w: nat)
    requires d * w <= n / 256 < (d + 1) * w
    ensures d * (256 * w) <= n < (d + 1) * (256 * w)
  {
    assert d * (256 * w) == 256 * (d * w) && (d + 1) * (256 * w) == 256 * ((d + 1) * w);
  }

  /** Four bytes at their places. */
  lemma FourPlaces(id: KeyId)
    ensures var bs := BigEndian(id, 4);
            id == 0x100_0000 * (bs[0] as int) + 0x1_0000 * (bs[1] as int) + 0x100 * (bs[2] as int) + bs[3] as int
  {
    var a, b, c := id / 256, id / 256 / 256, id / 256 / 256 / 256;
    assert BigEndian(c, 1) == [c % 256];
    assert BigEndian(b, 2) == [c % 256, b % 256];
    assert BigEndian(a, 3) == [c % 256, b % 256, a % 256];
    assert BigEndian(id, 4) == [c % 256, b % 256, a % 256, id % 256];
  }

  lemma FourBytes()
    ensures Pow256(4) == MAX_ID + 1
  {
    assert Pow256(1) == 256 && Pow256(2) == 65536 && Pow256(3) == 16777216;
  }

  function IdBytes(id: KeyId): (bs: seq<byte>)
    ensures |bs| == 4
    ensures id == 0x100_0000 * (bs[0] as int) + 0x1_0000 * (bs[1] as int) + 0x100 * (bs[2] as int) + bs[3] as int
  {
    FourPlaces(id);
    BigEndian(id, 4)
  }

  function IdOf(bs: seq<byte>): (id: KeyId)
    requires |bs| == 4
    ensures IdBytes(id) == bs
  {
    BigEndianOfValue(bs);
    FourBytes();
    Value(bs)
  }

  lemma IdRoundTrip(id: KeyId)
    ensures IdOf(IdBytes(id)) == id
  {
    FourBytes();
    ValueOfBigEndian(id, 4);
  }

  // ---- The file

  function EntryBytes(e: Entry): (bs: seq<byte>)
    ensures |bs| == ENTRY_LEN
  {
    IdBytes(e.id) + e.material
  }

  /** An entry is its identifier and then its key. */
  lemma EntryLayout(e: Entry)
    ensures EntryBytes(e)[..4] == IdBytes(e.id) && EntryBytes(e)[4..] == e.material
  {
  }

  lemma EntryBytesInjective(a: Entry, b: Entry)
    requires EntryBytes(a) == EntryBytes(b)
    ensures a == b
  {
    EntryLayout(a);
    EntryLayout(b);
    IdRoundTrip(a.id);
    IdRoundTrip(b.id);
  }

  function KeysBytes(keys: seq<Entry>): (bs: seq<byte>)
    ensures |bs| == ENTRY_LEN * |keys|
  {
    if keys == [] then [] else KeysBytes(keys[..|keys| - 1]) + EntryBytes(keys[|keys| - 1])
  }

  lemma {:induction false} KeysBytesAt(keys: seq<Entry>, i: nat)
    requires i < |keys|
    ensures KeysBytes(keys)[ENTRY_LEN * i..ENTRY_LEN * i + ENTRY_LEN] == EntryBytes(keys[i])
  {
    var front := keys[..|keys| - 1];
    if i < |front| {
      KeysBytesAt(front, i);
      assert KeysBytes(keys)[ENTRY_LEN * i..ENTRY_LEN * i + ENTRY_LEN]
          == KeysBytes(front)[ENTRY_LEN * i..ENTRY_LEN * i + ENTRY_LEN];
    }
  }

  /** The file of a ring. */
  function FileOf(r: Ring): (bs: seq<byte>)
    requires |r.keys| < 256
    ensures |bs| == HEADER_LEN + ENTRY_LEN * |r.keys|
  {
    MAGIC + IdBytes(r.active) + [|r.keys|] + KeysBytes(r.keys)
  }

  lemma FileParts(r: Ring)
    requires |r.keys| < 256
    ensures var bs := FileOf(r);
            bs[..8] == MAGIC && bs[8..12] == IdBytes(r.active) && bs[12] == |r.keys| && bs[13..] == KeysBytes(r.keys)
  {
  }

  /** The bytes are those of the ring: its file, or the bare 32 bytes of a ring from before rotation. */
  ghost predicate Decodes(bytes: seq<byte>, r: Ring) {
    if |bytes| == KEY_LEN then r == Ring(0, [Entry(0, bytes)])
    else ValidRing(r) && FileOf(r) == bytes
  }

  lemma FilesDecode(r: Ring)
    requires ValidRing(r)
    ensures Decodes(FileOf(r), r)
  {
  }

  lemma {:induction false} KeysBytesInjective(a: seq<Entry>, b: seq<Entry>)
    requires KeysBytes(a) == KeysBytes(b)
    ensures a == b
  {
    assert ENTRY_LEN * |a| == ENTRY_LEN * |b|;
    forall i | 0 <= i < |a|
      ensures a[i] == b[i]
    {
      KeysBytesAt(a, i);
      KeysBytesAt(b, i);
      EntryBytesInjective(a[i], b[i]);
    }
  }

  /** A file decodes to at most one ring. */
  lemma DecodesToOne(bytes: seq<byte>, a: Ring, b: Ring)
    requires Decodes(bytes, a) && Decodes(bytes, b)
    ensures a == b
  {
    if |bytes| != KEY_LEN {
      FileParts(a);
      FileParts(b);
      KeysBytesInjective(a.keys, b.keys);
      IdRoundTrip(a.active);
      IdRoundTrip(b.active);
    }
  }

  datatype DecodeError = Invalid | Unordered | ActiveMissing

  datatype Decoding = Decoded(ring: Ring) | Refused(error: DecodeError)

  /** The header and the length are those of a file of 1 to 32 keys. */
  predicate Shaped(bytes: seq<byte>) {
    && |bytes| >= 13 && bytes[..8] == MAGIC && 1 <= bytes[12] <= MAX_KEYS
    && |bytes| == HEADER_LEN + ENTRY_LEN * bytes[12]
  }

  lemma DecodesShape(bytes: seq<byte>, ring: Ring)
    requires Decodes(bytes, ring) && |bytes| != KEY_LEN
    ensures Shaped(bytes) && IdBytes(ring.active) == bytes[8..12] && KeysBytes(ring.keys) == bytes[13..]
  {
    FileParts(ring);
  }

  /** The entries of a file in order, or `None` when their identifiers do not ascend. */
  method DecodeKeys(bytes: seq<byte>) returns (r: Option<seq<Entry>>)
    requires |bytes| >= 13 && |bytes| == HEADER_LEN + ENTRY_LEN * bytes[12]
    ensures r.Some? ==> |r.value| == bytes[12] && Ascending(r.value) && KeysBytes(r.value) == bytes[13..]
    ensures r.None? ==> forall keys | KeysBytes(keys) == bytes[13..] :: !Ascending(keys)
  {
    hide KeysBytes, EntryBytes;
    var count := bytes[12];
    var keys: seq<Entry> := [];
    NoKeys();
    while |keys| < count
      invariant |keys| <= count && Ascending(keys)
      invariant KeysBytes(keys) == bytes[13..][..ENTRY_LEN * |keys|]
      invariant forall ks | KeysBytes(ks) == bytes[13..] :: keys <= ks
      decreases count - |keys|
    {
      var at := HEADER_LEN + ENTRY_LEN * |keys|;
      var entry := bytes[at..at + ENTRY_LEN];
      var next := Entry(IdOf(entry[..4]), entry[4..]);
      EntryFromParts(entry);
      forall ks | KeysBytes(ks) == bytes[13..]
        ensures keys + [next] <= ks
      {
        EntryInFile(bytes, ks, |keys|);
        EntryBytesInjective(ks[|keys|], next);
        assert keys + [next] == ks[..|keys| + 1];
      }
      if |keys| > 0 && next.id <= keys[|keys| - 1].id {
        forall ks | KeysBytes(ks) == bytes[13..] ensures !Ascending(ks) {
          assert ks[|keys| - 1] == (keys + [next])[|keys| - 1] && ks[|keys|] == (keys + [next])[|keys|];
        }
        return None;
      }
      OneMoreKey(keys, next);
      assert bytes[13..][..ENTRY_LEN * |keys| + ENTRY_LEN] == bytes[13..][..ENTRY_LEN * |keys|] + entry;
      keys := keys + [next];
    }
    assert bytes[13..][..ENTRY_LEN * |keys|] == bytes[13..];
    return Some(keys);
  }

  lemma NoKeys()
    ensures KeysBytes([]) == []
  {
  }

  lemma OneMoreKey(keys: seq<Entry>, next: Entry)
    ensures KeysBytes(keys + [next]) == KeysBytes(keys) + EntryBytes(next)
  {
    assert (keys + [next])[..|keys|] == keys;
  }

  lemma EntryFromParts(entry: seq<byte>)
    requires |entry| == ENTRY_LEN
    ensures EntryBytes(Entry(IdOf(entry[..4]), entry[4..])) == entry
  {
  }

  /** Accepts exactly the bytes that some ring has, and returns that ring. Each refusal has its own reason: the
      shape, the order of the identifiers, or an active identifier that is not the last. */
  method Decode(bytes: seq<byte>) returns (r: Decoding)
    ensures r.Decoded? ==> Decodes(bytes, r.ring) && ValidRing(r.ring)
    ensures r.Refused? ==> forall ring :: !Decodes(bytes, ring)
    ensures r == Refused(Invalid) <==> |bytes| != KEY_LEN && !Shaped(bytes)
    ensures r == Refused(Unordered) ==> forall keys | KeysBytes(keys) == bytes[13..] :: !Ascending(keys)
    ensures r == Refused(ActiveMissing) ==>
              exists keys: seq<Entry> :: KeysBytes(keys) == bytes[13..] && keys != [] && Ascending(keys)
                          && IdBytes(keys[|keys| - 1].id) != bytes[8..12]
  {
    if |bytes| == KEY_LEN {
      return Decoded(Ring(0, [Entry(0, bytes)]));
    }
    forall ring | Decodes(bytes, ring)
      ensures Shaped(bytes) && IdBytes(ring.active) == bytes[8..12] && KeysBytes(ring.keys) == bytes[13..]
      ensures ValidRing(ring)
    {
      DecodesShape(bytes, ring);
    }
    if |bytes| < 13 || bytes[..8] != MAGIC {
      return Refused(Invalid);
    }
    var active := IdOf(bytes[8..12]);
    var count := bytes[12];
    if count == 0 || count > MAX_KEYS || |bytes| != HEADER_LEN + count * ENTRY_LEN {
      return Refused(Invalid);
    }
    var keys := DecodeKeys(bytes);
    if keys.None? {
      return Refused(Unordered);
    }
    forall ring | Decodes(bytes, ring)
      ensures ring == Ring(active, keys.value)
    {
      IdRoundTrip(ring.active);
      KeysBytesInjective(ring.keys, keys.value);
    }
    var ring := Ring(active, keys.value);
    if keys.value[|keys.value| - 1].id != active {
      IdRoundTrip(keys.value[|keys.value| - 1].id);
      return Refused(ActiveMissing);
    }
    FileFromParts(bytes, ring);
    return Decoded(ring);
  }

  lemma EntryInFile(bytes: seq<byte>, keys: seq<Entry>, i: nat)
    requires |bytes| >= HEADER_LEN && KeysBytes(keys) == bytes[13..] && HEADER_LEN + ENTRY_LEN * i < |bytes|
    ensures i < |keys|
    ensures bytes[HEADER_LEN + ENTRY_LEN * i..HEADER_LEN + ENTRY_LEN * i + ENTRY_LEN] == EntryBytes(keys[i])
  {
    hide KeysBytes, EntryBytes;
    assert ENTRY_LEN * i < ENTRY_LEN * |keys|;
    KeysBytesAt(keys, i);
    SliceOfDrop(bytes, 13, ENTRY_LEN * i, ENTRY_LEN * i + ENTRY_LEN);
  }

  lemma SliceOfDrop<T>(s: seq<T>, a: nat, i: nat, j: nat)
    requires a + j <= |s| && i <= j
    ensures s[a..][i..j] == s[a + i..a + j]
  {
  }

  lemma FileFromParts(bytes: seq<byte>, r: Ring)
    requires |bytes| >= 13 && |r.keys| < 256
    requires bytes[..8] == MAGIC && bytes[8..12] == IdBytes(r.active)
    requires bytes[12] == |r.keys| && bytes[13..] == KeysBytes(r.keys)
    ensures bytes == FileOf(r)
  {
    assert bytes == bytes[..8] + bytes[8..12] + [bytes[12]] + bytes[13..];
  }

  /** Appends the header and each key in turn. */
  method Encode(r: Ring) returns (out: seq<byte>)
    requires |r.keys| < 256
    ensures out == FileOf(r)
  {
    out := MAGIC + IdBytes(r.active) + [|r.keys|];
    ghost var header := out;
    for i := 0 to |r.keys|
      invariant out == header + KeysBytes(r.keys[..i])
    {
      assert r.keys[..i + 1][..i] == r.keys[..i];
      out := out + IdBytes(r.keys[i].id) + r.keys[i].material;
    }
    assert r.keys[..|r.keys|] == r.keys;
  }
}
