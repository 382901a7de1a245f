/** The chunk-size line of section 7.1 of RFC 9112 as the server reads it: UTF-8 text, trailing white
    space dropped, cut at the first semicolon, digits only, below 2^64. */
module ChunkSize {
  import opened Bytes
  import opened Wire

  const SEMICOLON: byte := 59

  predicate Continuation(b: byte) {
    0x80 <= b < 0xC0
  }

  /** The number of bytes of the well-formed UTF-8 scalar at the head, 0 when there is none. */
  function Width(bs: seq<byte>): (w: nat)
    ensures w <= |bs| && w <= 4
  {
    if bs == [] then 0
    else if bs[0] < 0x80 then 1
    else if 0xC2 <= bs[0] <= 0xDF && |bs| >= 2 && Continuation(bs[1]) then 2
    else if 0xE0 <= bs[0] <= 0xEF && |bs| >= 3 && Continuation(bs[1]) && Continuation(bs[2])
            && (bs[0] == 0xE0 ==> 0xA0 <= bs[1]) && (bs[0] == 0xED ==> bs[1] < 0xA0) then 3
    else if 0xF0 <= bs[0] <= 0xF4 && |bs| >= 4
            && Continuation(bs[1]) && Continuation(bs[2]) && Continuation(bs[3])
            && (bs[0] == 0xF0 ==> 0x90 <= bs[1]) && (bs[0] == 0xF4 ==> bs[1] < 0x90) then 4
    else 0
  }

  function Scalar(bs: seq<int>): int
    requires 1 <= |bs| <= 4
  {
    match |bs|
    case 1 => bs[0]
    case 2 => (bs[0] - 0xC0) * 64 + (bs[1] - 0x80)
    case 3 => (bs[0] - 0xE0) * 4096 + (bs[1] - 0x80) * 64 + (bs[2] - 0x80)
    case _ => (bs[0] - 0xF0) * 262144 + (bs[1] - 0x80) * 4096 + (bs[2] - 0x80) * 64 + (bs[3] - 0x80)
  }

  /** The scalar values of well-formed UTF-8. */
  function Text(bs: seq<byte>): Option<seq<int>> {
    if bs == [] then Some([])
    else
      var w := Width(bs);
      if w == 0 then None
      else
        match Text(bs[w..])
        case None => None
        case Some(rest) => Some([Scalar(bs[..w])] + rest)
  }

  lemma WidthAppend(a: seq<byte>, b: seq<byte>)
    requires Width(a) > 0
    ensures Width(a + b) == Width(a)
  {
  }

  lemma TextCons(bs: seq<byte>)
    requires bs != []
    ensures Text(bs).Some? <==> Width(bs) > 0 && Text(bs[Width(bs)..]).Some?
    ensures Text(bs).Some? ==> Text(bs).value == [Scalar(bs[..Width(bs)])] + Text(bs[Width(bs)..]).value
  {
  }

  lemma TextEmpty()
    ensures Text([]) == Some([])
  {
  }

  lemma TextStep(a: seq<byte>, b: seq<byte>)
    requires Width(a) > 0 && Text(a[Width(a)..] + b).Some?
    ensures Text(a + b) == Some([Scalar(a[..Width(a)])] + Text(a[Width(a)..] + b).value)
  {
    hide Text, Width, Scalar;
    WidthAppend(a, b);
    TextCons(a + b);
    assert (a + b)[Width(a)..] == a[Width(a)..] + b;
    assert (a + b)[..Width(a)] == a[..Width(a)];
  }

  lemma {:induction false} TextAppend(a: seq<byte>, b: seq<byte>)
    requires Text(a).Some? && Text(b).Some?
    ensures Text(a + b) == Some(Text(a).value + Text(b).value)
  {
    hide Text, Width, Scalar;
    if a == [] {
      TextEmpty();
      assert a + b == b;
      assert Text(a).value + Text(b).value == Text(b).value;
    } else {
      var w := Width(a);
      TextCons(a);
      TextAppend(a[w..], b);
      TextStep(a, b);
      assert Text(a).value + Text(b).value == [Scalar(a[..w])] + (Text(a[w..]).value + Text(b).value);
    }
  }

  lemma {:induction false} TextAscii(a: seq<byte>)
    requires forall i :: 0 <= i < |a| ==> a[i] < 0x80
    ensures Text(a) == Some(a)
  {
    if a != [] {
      TextAscii(a[1..]);
      assert a == [a[0]] + a[1..];
    }
  }

  // ---- The text that is read is the text that was encoded

  /** A Unicode scalar value: no surrogate. */
  predicate IsScalar(c: int) {
    0 <= c < 0x11_0000 && !(0xD800 <= c < 0xE000)
  }

  /** UTF-8 (section 3 of RFC 3629). */
  function Encoded(c: int): seq<byte>
    requires IsScalar(c)
  {
    if c < 0x80 then [c]
    else if c < 0x800 then [0xC0 + c / 64, 0x80 + c % 64]
    else if c < 0x1_0000 then [0xE0 + c / 4096, 0x80 + c / 64 % 64, 0x80 + c % 64]
    else [0xF0 + c / 262144, 0x80 + c / 4096 % 64, 0x80 + c / 64 % 64, 0x80 + c % 64]
  }

  lemma EncodedWidth(c: int, rest: seq<byte>)
    requires IsScalar(c)
    ensures Width(Encoded(c) + rest) == |Encoded(c)| > 0 && Scalar(Encoded(c)) == c
  {
    var e := Encoded(c);
    if c >= 0x1_0000 {
      assert c / 4096 == c / 262144 * 64 + c / 4096 % 64;
      assert c / 64 == c / 4096 * 64 + c / 64 % 64;
    } else if c >= 0x800 {
      assert c / 64 == c / 4096 * 64 + c / 64 % 64;
    }
    assert Width(e) == |e|;
    WidthAppend(e, rest);
  }

  lemma TwoBytes(a: int, b: int)
    requires 0xC2 <= a <= 0xDF && 0x80 <= b < 0xC0
    ensures var c := (a - 0xC0) * 64 + (b - 0x80); 0x80 <= c < 0x800 && c / 64 == a - 0xC0 && c % 64 == b - 0x80
  {
  }

  lemma ThreeBytes(a: int, b: int, d: int)
    requires 0xE0 <= a <= 0xEF && 0x80 <= b < 0xC0 && 0x80 <= d < 0xC0
    ensures var c := (a - 0xE0) * 4096 + (b - 0x80) * 64 + (d - 0x80);
            c / 4096 == a - 0xE0 && c / 64 % 64 == b - 0x80 && c % 64 == d - 0x80
  {
    var c := (a - 0xE0) * 4096 + (b - 0x80) * 64 + (d - 0x80);
    assert c / 64 == (a - 0xE0) * 64 + (b - 0x80);
  }

  lemma FourBytes(a: int, b: int, d: int, e: int)
    requires 0xF0 <= a <= 0xF4 && 0x80 <= b < 0xC0 && 0x80 <= d < 0xC0 && 0x80 <= e < 0xC0
    ensures var c := (a - 0xF0) * 262144 + (b - 0x80) * 4096 + (d - 0x80) * 64 + (e - 0x80);
            && c / 262144 == a - 0xF0 && c / 4096 % 64 == b - 0x80
            && c / 64 % 64 == d - 0x80 && c % 64 == e - 0x80
  {
    var c := (a - 0xF0) * 262144 + (b - 0x80) * 4096 + (d - 0x80) * 64 + (e - 0x80);
    assert c / 64 == (a - 0xF0) * 4096 + (b - 0x80) * 64 + (d - 0x80);
    assert c / 4096 == (a - 0xF0) * 64 + (b - 0x80);
  }

  lemma ThreeWide(bs: seq<byte>)
    requires Width(bs) == 3
    ensures var c := Scalar(bs[..3]); IsScalar(c) && Encoded(c) == bs[..3]
  {
    ThreeBytes(bs[0], bs[1], bs[2]);
  }

  lemma FourWide(bs: seq<byte>)
    requires Width(bs) == 4
    ensures var c := Scalar(bs[..4]); IsScalar(c) && Encoded(c) == bs[..4]
  {
    FourBytes(bs[0], bs[1], bs[2], bs[3]);
  }

  lemma TwoWide(bs: seq<byte>)
    requires 1 <= Width(bs) <= 2
    ensures var c := Scalar(bs[..Width(bs)]); IsScalar(c) && Encoded(c) == bs[..Width(bs)]
  {
    if Width(bs) == 2 {
      TwoBytes(bs[0], bs[1]);
    }
  }

  lemma WidthEncodes(bs: seq<byte>)
    requires Width(bs) > 0
    ensures var c := Scalar(bs[..Width(bs)]); IsScalar(c) && Encoded(c) == bs[..Width(bs)]
  {
    hide *;
    if Width(bs) == 3 {
      ThreeWide(bs);
    } else if Width(bs) == 4 {
      FourWide(bs);
    } else {
      TwoWide(bs);
    }
  }

  predicate AllScalars(t: seq<int>) {
    forall i | 0 <= i < |t| :: IsScalar(t[i])
  }

  function EncodedText(t: seq<int>): seq<byte>
    requires AllScalars(t)
  {
    if t == [] then [] else Encoded(t[0]) + EncodedText(t[1..])
  }

  /** Bytes are read as text exactly when they are the UTF-8 encoding of that text. */
  lemma {:induction false} ReadsIffEncoded(bs: seq<byte>, t: seq<int>)
    ensures Text(bs) == Some(t) <==> AllScalars(t) && EncodedText(t) == bs
    decreases |bs| + |t|
  {
    hide Width, Scalar, Encoded, IsScalar;
    if bs != [] && Width(bs) > 0 && t != [] {
      var w := Width(bs);
      WidthEncodes(bs);
      TextCons(bs);
      ReadsIffEncoded(bs[w..], t[1..]);
      assert bs == bs[..w] + bs[w..] && t == [t[0]] + t[1..];
      if AllScalars(t) && EncodedText(t) == bs {
        EncodedWidth(t[0], EncodedText(t[1..]));
        assert bs[..w] == Encoded(t[0]) && bs[w..] == EncodedText(t[1..]);
      }
    } else if t != [] && AllScalars(t) && EncodedText(t) == bs {
      EncodedWidth(t[0], EncodedText(t[1..]));
    }
  }

  predicate White(c: int) {
    || 9 <= c <= 13 || c == 32 || c == 0x85 || c == 0xA0 || c == 0x1680 || 0x2000 <= c <= 0x200A
    || c == 0x2028 || c == 0x2029 || c == 0x202F || c == 0x205F || c == 0x3000
  }

  function TrimEnd(t: seq<int>): seq<int> {
    if t != [] && White(t[|t| - 1]) then TrimEnd(t[..|t| - 1]) else t
  }

  function BeforeSemicolon(t: seq<int>): seq<int> {
    if t == [] || t[0] == SEMICOLON then [] else [t[0]] + BeforeSemicolon(t[1..])
  }

  predicate HexDigit(c: int) {
    48 <= c <= 57 || 65 <= c <= 70 || 97 <= c <= 102
  }

  predicate AllHex(t: seq<int>) {
    forall i :: 0 <= i < |t| ==> HexDigit(t[i])
  }

  function DigitValue(c: int): nat
    requires HexDigit(c)
  {
    if c <= 57 then c - 48 else if c <= 70 then c - 55 else c - 87
  }

  function HexValue(t: seq<int>): (v: nat)
    requires AllHex(t)
  {
    if t == [] then 0 else HexValue(t[..|t| - 1]) * 16 + DigitValue(t[|t| - 1])
  }

  // ---- Numerals, without reading them

  /** The digits in order, in either case. */
  predicate DigitOf(c: int, d: nat) {
    d < 16 && (c == "0123456789abcdef"[d] as int || c == "0123456789ABCDEF"[d] as int)
  }

  /** A hexadecimal numeral of `n`, with any leading zeros: its last digit is the remainder, those before it spell
      the quotient. */
  predicate Spells(t: seq<int>, n: nat)
    decreases |t|
  {
    && t != [] && DigitOf(t[|t| - 1], n % 16)
    && if |t| == 1 then n < 16 else Spells(t[..|t| - 1], n / 16)
  }

  /** A numeral without leading zeros. */
  function Numeral(n: nat): seq<int> {
    (if n < 16 then [] else Numeral(n / 16)) + ["0123456789abcdef"[n % 16] as int]
  }

  lemma {:induction false} NumeralSpells(n: nat)
    ensures Spells(Numeral(n), n)
  {
    if n >= 16 {
      var front, digit := Numeral(n / 16), "0123456789abcdef"[n % 16] as int;
      NumeralSpells(n / 16);
      assert (front + [digit])[..|front|] == front;
    }
  }

  lemma DigitReads(c: int, d: nat)
    ensures DigitOf(c, d) <==> HexDigit(c) && DigitValue(c) == d
  {
    if HexDigit(c) {
      LowDigit(c);
    }
  }

  /** Each digit stands in the alphabet at its value. */
  lemma LowDigit(c: int)
    requires HexDigit(c)
    ensures DigitValue(c) < 16 && DigitOf(c, DigitValue(c))
  {
  }

  /** What is read is the number spelled, and nothing but numerals is read. */
  lemma {:induction false} ReadsWhatIsSpelled(t: seq<int>, n: nat)
    ensures Spells(t, n) <==> t != [] && AllHex(t) && HexValue(t) == n
    decreases |t|
  {
    if t != [] {
      var front, last := t[..|t| - 1], t[|t| - 1];
      DigitReads(last, n % 16);
      if front != [] {
        ReadsWhatIsSpelled(front, n / 16);
      }
      if AllHex(t) {
        LowDigit(last);
      }
    }
  }

  /** The size a line announces, or `None` for a line the reader rejects. */
  function SizeOf(line: seq<byte>): (size: Option<nat>)
    ensures size.Some? ==> size.value < U64
  {
    match Text(line)
    case None => None
    case Some(t) =>
      var digits := BeforeSemicolon(TrimEnd(t));
      if digits == [] || !AllHex(digits) || HexValue(digits) >= U64 then None
      else Some(HexValue(digits))
  }

  /** A chunk extension: nothing, or a semicolon and any UTF-8 text. */
  function Extension(ext: Option<seq<byte>>): seq<byte> {
    match ext
    case None => []
    case Some(e) => [SEMICOLON] + e
  }

  lemma {:induction false} TrimEndKeeps(kept: seq<int>, rest: seq<int>)
    requires kept != [] && !White(kept[|kept| - 1])
    ensures kept <= TrimEnd(kept + rest)
  {
    var t := kept + rest;
    if rest != [] && White(t[|t| - 1]) {
      assert t[..|t| - 1] == kept + rest[..|rest| - 1];
      TrimEndKeeps(kept, rest[..|rest| - 1]);
    }
  }

  lemma {:induction false} BeforeSemicolonAt(head: seq<int>, t: seq<int>)
    requires SEMICOLON !in head && head <= t
    requires |t| == |head| || t[|head|] == SEMICOLON
    ensures BeforeSemicolon(t) == head
  {
    if head != [] {
      assert head[0] == t[0];
      BeforeSemicolonAt(head[1..], t[1..]);
    }
  }

  lemma {:induction false} TrimWhite(kept: seq<int>, rest: seq<int>)
    requires kept != [] && !White(kept[|kept| - 1]) && forall c | c in rest :: White(c)
    ensures TrimEnd(kept + rest) == kept
  {
    var t := kept + rest;
    if rest == [] {
      assert t == kept;
    } else {
      assert rest[|rest| - 1] in rest && t[..|t| - 1] == kept + rest[..|rest| - 1];
      TrimWhite(kept, rest[..|rest| - 1]);
    }
  }

  predicate Blank(b: byte) {
    b == 9 || b == 32
  }

  lemma PlainText(digits: seq<byte>, blanks: seq<byte>)
    requires digits != [] && AllHex(digits) && forall b | b in blanks :: Blank(b)
    ensures Text(digits + blanks + CRLF) == Some(digits + blanks + CRLF)
    ensures BeforeSemicolon(TrimEnd(digits + blanks + CRLF)) == digits
  {
    var t := digits + blanks + CRLF;
    forall i | 0 <= i < |t|
      ensures t[i] < 0x80
    {
      if |digits| <= i < |digits| + |blanks| {
        assert t[i] in blanks;
      }
    }
    TextAscii(t);
    assert digits + blanks + CRLF == digits + (blanks + CRLF);
    TrimWhite(digits, blanks + CRLF);
    BeforeSemicolonAt(digits, digits);
  }

  lemma SemicolonCuts(digits: seq<int>, rest: seq<int>)
    requires AllHex(digits)
    ensures BeforeSemicolon(TrimEnd(digits + [SEMICOLON] + rest)) == digits
  {
    var head := digits + [SEMICOLON];
    var trimmed := TrimEnd(head + rest);
    TrimEndKeeps(head, rest);
    assert SEMICOLON !in digits;
    hide *;
    assert head[|digits|] == SEMICOLON && digits <= head;
    BeforeSemicolonAt(digits, trimmed);
  }

  lemma ExtendedText(digits: seq<byte>, e: seq<byte>)
    requires digits != [] && AllHex(digits) && Text(e).Some?
    ensures Text(digits + [SEMICOLON] + e + CRLF) == Some(digits + [SEMICOLON] + (Text(e).value + CRLF))
  {
    var head := digits + [SEMICOLON];
    TextAscii(CRLF);
    TextAscii(head);
    hide *;
    TextAppend(e, CRLF);
    TextAppend(head, e + CRLF);
    assert digits + [SEMICOLON] + e + CRLF == head + (e + CRLF);
  }

  /** Any numeral of a size, with any extension or blanks after it, announces that size. */
  lemma SizeLineRoundTrip(digits: seq<byte>, n: nat, ext: Option<seq<byte>>)
    requires Spells(digits, n) && n < U64 && (ext.Some? ==> Text(ext.value).Some?)
    ensures SizeOf(digits + Extension(ext) + CRLF) == Some(n)
  {
    hide Spells, Text, TrimEnd, BeforeSemicolon, AllHex, SizeOf;
    match ext
    case None =>
      assert digits + Extension(ext) + CRLF == digits + [] + CRLF;
      BlanksAreDropped(digits, n, []);
    case Some(e) =>
      assert digits + Extension(ext) + CRLF == digits + [SEMICOLON] + e + CRLF;
      ReadsWhatIsSpelled(digits, n);
      ExtendedText(digits, e);
      SemicolonCuts(digits, Text(e).value + CRLF);
      AnnouncesIffSpelled(digits + [SEMICOLON] + e + CRLF, n);
  }

  lemma BlanksAreDropped(digits: seq<byte>, n: nat, blanks: seq<byte>)
    requires Spells(digits, n) && n < U64 && forall b | b in blanks :: Blank(b)
    ensures SizeOf(digits + blanks + CRLF) == Some(n)
  {
    hide *;
    ReadsWhatIsSpelled(digits, n);
    PlainText(digits, blanks);
    AnnouncesIffSpelled(digits + blanks + CRLF, n);
  }

  /** A line announces a size exactly when it is text that, without trailing white space and up to a semicolon, is a
      numeral of it, below 2^64. */
  lemma AnnouncesIffSpelled(line: seq<byte>, n: nat)
    ensures SizeOf(line) == Some(n)
       <==> n < U64 && Text(line).Some? && Spells(BeforeSemicolon(TrimEnd(Text(line).value)), n)
  {
    if Text(line).Some? {
      ReadsWhatIsSpelled(BeforeSemicolon(TrimEnd(Text(line).value)), n);
    }
  }
}
