/** The JSON text the token service writes and reads back: strings with the escapes of section 7 of
    RFC 8259, and compact flat objects. A `string` here is a byte string, one `char` below 256 a byte. */
module Json {
  import opened Machine
  import opened Messages
  import opened Decimal

  // ---------------------------------------------------------------- UTF-8

  predicate Between(c: char, lo: int, hi: int) {
    lo <= c as int <= hi
  }

  predicate Tail(c: char) {
    Between(c, 0x80, 0xBF)
  }

  /** The first two bytes of a sequence of three, and of four. */
  predicate OpensThree(c: char, d: char) {
    || (Between(c, 0xE0, 0xE0) && Between(d, 0xA0, 0xBF))
    || (Between(c, 0xE1, 0xEC) && Tail(d))
    || (Between(c, 0xED, 0xED) && Between(d, 0x80, 0x9F))
    || (Between(c, 0xEE, 0xEF) && Tail(d))
  }

  predicate OpensFour(c: char, d: char) {
    || (Between(c, 0xF0, 0xF0) && Between(d, 0x90, 0xBF))
    || (Between(c, 0xF1, 0xF3) && Tail(d))
    || (Between(c, 0xF4, 0xF4) && Between(d, 0x80, 0x8F))
  }

  /** Length of the well-formed UTF-8 sequence `s` starts with, 0 if it starts with none. */
  function Unit(s: string): nat
    ensures Unit(s) <= |s|
  {
    if s == [] then 0
    else if Between(s[0], 0, 0x7F) then 1
    else if |s| >= 2 && Between(s[0], 0xC2, 0xDF) && Tail(s[1]) then 2
    else if |s| >= 3 && OpensThree(s[0], s[1]) && Tail(s[2]) then 3
    else if |s| >= 4 && OpensFour(s[0], s[1]) && Tail(s[2]) && Tail(s[3]) then 4
    else 0
  }

  predicate ValidUtf8(s: string) {
    s == [] || (Unit(s) > 0 && ValidUtf8(s[Unit(s)..]))
  }

  /** How many bytes the decoder takes of a sequence it then rejects: the offending byte is read again,
      unless it is the first. */
  function Broken(s: string): (n: nat)
    requires s != []
    ensures 0 < n <= |s|
  {
    if |s| < 2 then 1
    else if |s| >= 3 && OpensFour(s[0], s[1]) && Tail(s[2]) then 3
    else if OpensThree(s[0], s[1]) || OpensFour(s[0], s[1]) then 2
    else 1
  }

  /** U+FFFD, the replacement character. */
  const REPLACEMENT: string := [0xEF as char, 0xBF as char, 0xBD as char]

  /** Ill-formed sequences replaced, well-formed ones kept. */
  function Sanitize(s: string): string
    decreases |s|
  {
    if s == [] then []
    else if Unit(s) > 0 then s[..Unit(s)] + Sanitize(s[Unit(s)..])
    else REPLACEMENT + Sanitize(s[Broken(s)..])
  }

  /** A code point as bytes. */
  function Encode(cp: nat): string
    requires cp < 0x110000
  {
    if cp < 0x80 then [cp as char]
    else if cp < 0x800 then [(0xC0 + cp / 0x40) as char, (0x80 + cp % 0x40) as char]
    else if cp < 0x10000 then
      [(0xE0 + cp / 0x1000) as char, (0x80 + cp / 0x40 % 0x40) as char, (0x80 + cp % 0x40) as char]
    else
      [(0xF0 + cp / 0x40000) as char, (0x80 + cp / 0x1000 % 0x40) as char,
       (0x80 + cp / 0x40 % 0x40) as char, (0x80 + cp % 0x40) as char]
  }

  // ---------------------------------------------------------------- strings

  const QUOTE: char := '\"'
  const BACKSLASH: char := '\\'

  /** The two-character escapes, by the character after the backslash. */
  function ShortEscape(c: char): Option<char> {
    match c as int
    case 0x22 => Some(QUOTE)
    case 0x5C => Some(BACKSLASH)
    case 0x08 => Some('b')
    case 0x0C => Some('f')
    case 0x0A => Some('n')
    case 0x0D => Some('r')
    case 0x09 => Some('t')
    case _ => None
  }

  function ShortMeaning(c: char): Option<char> {
    match c as int
    case 0x22 => Some(QUOTE)
    case 0x5C => Some(BACKSLASH)
    case 0x2F => Some('/')
    case 0x62 => Some(8 as char)
    case 0x66 => Some(12 as char)
    case 0x6E => Some(10 as char)
    case 0x72 => Some(13 as char)
    case 0x74 => Some(9 as char)
    case _ => None
  }

  function EscapeByte(c: char): string {
    if ShortEscape(c).Some? then [BACKSLASH, ShortEscape(c).value]
    else if c as int < 0x20 then [BACKSLASH, 'u', '0', '0', Digit(c as int / 16), Digit(c as int % 16)]
    else [c]
  }

  function Escape(s: string): string
    requires ValidUtf8(s)
  {
    if s == [] then []
    else if Unit(s) == 1 then EscapeByte(s[0]) + Escape(s[1..])
    else s[..Unit(s)] + Escape(s[Unit(s)..])
  }

  function HexValue(c: char): Option<nat> {
    if Between(c, 0x30, 0x39) then Some(c as int - 0x30)
    else if Between(c, 0x61, 0x66) then Some(c as int - 0x61 + 10)
    else if Between(c, 0x41, 0x46) then Some(c as int - 0x41 + 10)
    else None
  }

  /** The four hex digits after `\u`. */
  function Hex4(s: string): (r: Option<nat>)
    ensures r.Some? ==> |s| >= 4 && r.value < 0x10000
  {
    if |s| < 4 || HexValue(s[0]).None? || HexValue(s[1]).None? || HexValue(s[2]).None? || HexValue(s[3]).None? then None
    else Some(((HexValue(s[0]).value * 16 + HexValue(s[1]).value) * 16 + HexValue(s[2]).value) * 16 + HexValue(s[3]).value)
  }

  /** One character of a string body: its bytes and how much text it took. */
  datatype Piece = Piece(bytes: string, taken: nat)

  function ScanPiece(s: string): (r: Option<Piece>)
    requires s != []
    ensures r.Some? ==> 0 < r.value.taken <= |s|
  {
    if s[0] == BACKSLASH then
      if |s| < 2 then None
      else if s[1] == 'u' then
        var hi := Hex4(s[2..]);
        if hi.None? then None
        else if 0xD800 <= hi.value < 0xDC00 then
          if |s| >= 12 && s[6] == BACKSLASH && s[7] == 'u' then
            var lo := Hex4(s[8..]);
            if lo.Some? && 0xDC00 <= lo.value < 0xE000 then
              Some(Piece(Encode(0x10000 + (hi.value - 0xD800) * 0x400 + (lo.value - 0xDC00)), 12))
            else None
          else None
        else if 0xDC00 <= hi.value < 0xE000 then None
        else Some(Piece(Encode(hi.value), 6))
      else if ShortMeaning(s[1]).Some? then Some(Piece([ShortMeaning(s[1]).value], 2))
      else None
    else if s[0] as int < 0x20 || Unit(s) == 0 then None
    else Some(Piece(s[..Unit(s)], Unit(s)))
  }

  datatype Scanned<T> = Scanned(value: T, rest: string)

  /** A string body up to and including its closing quote. */
  function ScanString(s: string): (r: Option<Scanned<string>>)
    ensures r.Some? ==> |r.value.rest| < |s|
  {
    if s == [] then None
    else if s[0] == QUOTE then Some(Scanned([], s[1..]))
    else
      var piece := ScanPiece(s);
      if piece.None? then None
      else
        var more := ScanString(s[piece.value.taken..]);
        if more.None? then None else Some(Scanned(piece.value.bytes + more.value.value, more.value.rest))
  }

  /** One escaped character reads back as itself, whatever follows. */
  lemma PieceRoundTrip(s: string, rest: string)
    requires s != [] && Unit(s) == 1
    ensures var text := EscapeByte(s[0]) + rest;
      text[0] != QUOTE && ScanPiece(text) == Some(Piece([s[0]], |EscapeByte(s[0])|))
  {
    var c := s[0];
    var text := EscapeByte(c) + rest;
    if ShortEscape(c).Some? {
      assert text[0] == BACKSLASH && text[1] == ShortEscape(c).value;
    } else if c as int < 0x20 {
      var d := c as int;
      DigitValue(d / 16);
      DigitValue(d % 16);
      assert text[2..][0] == '0' && text[2..][1] == '0' && text[2..][2] == Digit(d / 16) && text[2..][3] == Digit(d % 16);
      assert Hex4(text[2..]) == Some(d);
    } else {
      assert text[0] == c && text[..1] == [c];
    }
  }

  lemma DigitValue(d: nat)
    requires d < 16
    ensures HexValue(Digit(d)) == Some(d)
  {
    assert "0123456789abcdef" == ['0', '1', '2', '3', '4', '5', '6', '7', '8', '9', 'a', 'b', 'c', 'd', 'e', 'f'];
  }

  /** A multi-byte character is copied as it is. */
  lemma UnitRoundTrip(s: string, rest: string)
    requires Unit(s) > 1
    ensures var text := s[..Unit(s)] + rest;
      text[0] != QUOTE && ScanPiece(text) == Some(Piece(s[..Unit(s)], Unit(s)))
  {
    var text := s[..Unit(s)] + rest;
    assert text[..Unit(s)] == s[..Unit(s)];
  }

  /** Printable ASCII is written as it is, but for quotes and backslashes. */
  predicate Ordinary(c: char) {
    Between(c, 0x20, 0x7E) && c != QUOTE && c != BACKSLASH
  }

  lemma {:induction false} OrdinaryStays(s: string)
    requires forall i | 0 <= i < |s| :: Ordinary(s[i])
    ensures ValidUtf8(s) && Escape(s) == s
  {
    if s != [] {
      OrdinaryStays(s[1..]);
      assert EscapeByte(s[0]) == [s[0]];
      assert s == [s[0]] + s[1..];
    }
  }

  /** Escaping then scanning is the identity on every well-formed UTF-8 string. */
  lemma {:induction false} StringRoundTrip(s: string, rest: string)
    requires ValidUtf8(s)
    ensures ScanString(Escape(s) + [QUOTE] + rest) == Some(Scanned(s, rest))
  {
    hide ScanPiece, EscapeByte, Unit;
    if s == [] {
      assert Escape(s) + [QUOTE] + rest == [QUOTE] + rest;
    } else {
      var head := if Unit(s) == 1 then EscapeByte(s[0]) else s[..Unit(s)];
      var tail := s[Unit(s)..];
      var more := Escape(tail) + [QUOTE] + rest;
      StringRoundTrip(tail, rest);
      assert Escape(s) + [QUOTE] + rest == head + more;
      if Unit(s) == 1 {
        PieceRoundTrip(s, more);
        assert s == [s[0]] + tail;
      } else {
        UnitRoundTrip(s, more);
        assert s == s[..Unit(s)] + tail;
      }
      assert (head + more)[|head|..] == more;
    }
  }

  // ---------------------------------------------------------------- whatever is scanned is well-formed

  lemma {:induction false} UnitThenValid(u: string, s: string)
    requires u != [] && Unit(u) == |u| && ValidUtf8(s)
    ensures ValidUtf8(u + s)
  {
    assert Unit(u + s) == |u|;
    assert (u + s)[|u|..] == s;
  }

  lemma UnitStandsAlone(s: string)
    requires Unit(s) > 0
    ensures Unit(s[..Unit(s)]) == Unit(s)
  {
  }

  lemma ReplacementIsUnit()
    ensures Unit(REPLACEMENT) == |REPLACEMENT| == 3
  {
  }

  lemma {:induction false} SanitizedIsValid(s: string)
    ensures ValidUtf8(Sanitize(s))
    decreases |s|
  {
    if s == [] {
    } else if Unit(s) > 0 {
      SanitizedIsValid(s[Unit(s)..]);
      UnitStandsAlone(s);
      UnitThenValid(s[..Unit(s)], Sanitize(s[Unit(s)..]));
    } else {
      SanitizedIsValid(s[Broken(s)..]);
      ReplacementIsUnit();
      UnitThenValid(REPLACEMENT, Sanitize(s[Broken(s)..]));
    }
  }

  lemma {:induction false} ValidIsKept(s: string)
    requires ValidUtf8(s)
    ensures Sanitize(s) == s
  {
    if s != [] {
      ValidIsKept(s[Unit(s)..]);
      assert s == s[..Unit(s)] + s[Unit(s)..];
    }
  }

  /** Replacement changes a string exactly when it is not well-formed, and only once. */
  lemma SanitizeExactly(s: string)
    ensures Sanitize(s) == s <==> ValidUtf8(s)
    ensures ValidUtf8(Sanitize(s)) && Sanitize(Sanitize(s)) == Sanitize(s)
  {
    SanitizedIsValid(s);
    ValidIsKept(Sanitize(s));
    if ValidUtf8(s) {
      ValidIsKept(s);
    }
  }

  lemma ShortIsUnit(cp: nat)
    requires cp < 0x800
    ensures Encode(cp) != [] && Unit(Encode(cp)) == |Encode(cp)|
  {
  }

  lemma ThreeIsUnit(cp: nat)
    requires 0x800 <= cp < 0x10000 && !(0xD800 <= cp < 0xE000)
    ensures Encode(cp) != [] && Unit(Encode(cp)) == |Encode(cp)|
  {
  }

  lemma FourIsUnit(cp: nat)
    requires 0x10000 <= cp < 0x110000
    ensures Encode(cp) != [] && Unit(Encode(cp)) == |Encode(cp)|
  {
  }

  lemma EncodeIsUnit(cp: nat)
    requires cp < 0x110000 && !(0xD800 <= cp < 0xE000)
    ensures Encode(cp) != [] && Unit(Encode(cp)) == |Encode(cp)|
  {
    hide Encode, Unit;
    if cp < 0x800 {
      ShortIsUnit(cp);
    } else if cp < 0x10000 {
      ThreeIsUnit(cp);
    } else {
      FourIsUnit(cp);
    }
  }

  /** A Unicode scalar value. */
  predicate Scalar(cp: nat) {
    cp < 0x110000 && !(0xD800 <= cp < 0xE000)
  }

  lemma TwoIsEncoded(s: string) returns (cp: nat)
    requires Unit(s) == 2
    ensures Scalar(cp) && s[..2] == Encode(cp)
  {
    cp := (s[0] as int - 0xC0) * 0x40 + (s[1] as int - 0x80);
    assert cp / 0x40 == s[0] as int - 0xC0 && cp % 0x40 == s[1] as int - 0x80;
  }

  lemma ThreeIsEncoded(s: string) returns (cp: nat)
    requires Unit(s) == 3
    ensures Scalar(cp) && s[..3] == Encode(cp)
  {
    var x, y, z := s[0] as int - 0xE0, s[1] as int - 0x80, s[2] as int - 0x80;
    assert 0 <= x < 0x10 && 0 <= y < 0x40 && 0 <= z < 0x40 && (x == 0 ==> y >= 0x20) && (x == 0xD ==> y < 0x20);
    cp := x * 0x1000 + y * 0x40 + z;
    hide Unit;
    assert cp / 0x1000 == x && cp / 0x40 % 0x40 == y && cp % 0x40 == z;
    assert Encode(cp) == [(0xE0 + x) as char, (0x80 + y) as char, (0x80 + z) as char];
  }

  /** Reading back the last of two places in base 64. */
  lemma Base64(high: nat, low: nat)
    requires low < 0x40
    ensures (high * 0x40 + low) / 0x40 == high && (high * 0x40 + low) % 0x40 == low
  {
  }

  lemma FourPlaces(w: nat, x: nat, y: nat, z: nat)
    requires x < 0x40 && y < 0x40 && z < 0x40
    ensures var cp := ((w * 0x40 + x) * 0x40 + y) * 0x40 + z;
      cp / 0x40000 == w && cp / 0x1000 % 0x40 == x && cp / 0x40 % 0x40 == y && cp % 0x40 == z
  {
    var a := w * 0x40 + x;
    var b := a * 0x40 + y;
    var cp := b * 0x40 + z;
    Base64(w, x);
    Base64(a, y);
    Base64(b, z);
    assert cp / 0x40 == b;
    assert cp / 0x1000 == b / 0x40 == a;
    assert cp / 0x40000 == a / 0x40 == w;
  }

  lemma FourIsEncoded(s: string) returns (cp: nat)
    requires Unit(s) == 4
    ensures Scalar(cp) && s[..4] == Encode(cp)
  {
    var w, x, y, z := s[0] as int - 0xF0, s[1] as int - 0x80, s[2] as int - 0x80, s[3] as int - 0x80;
    assert 0 <= w <= 4 && 0 <= x < 0x40 && 0 <= y < 0x40 && 0 <= z < 0x40 && (w == 0 ==> x >= 0x10) && (w == 4 ==> x < 0x10);
    hide Unit;
    cp := ((w * 0x40 + x) * 0x40 + y) * 0x40 + z;
    FourPlaces(w, x, y, z);
    assert 0x10000 <= cp < 0x110000;
    assert Encode(cp) == [(0xF0 + w) as char, (0x80 + x) as char, (0x80 + y) as char, (0x80 + z) as char];
  }

  /** Each well-formed sequence encodes a scalar value. */
  lemma UnitIsEncoded(s: string) returns (cp: nat)
    requires Unit(s) > 0
    ensures Scalar(cp) && s[..Unit(s)] == Encode(cp)
  {
    if Unit(s) == 1 {
      cp := s[0] as int;
    } else if Unit(s) == 2 {
      cp := TwoIsEncoded(s);
    } else if Unit(s) == 3 {
      cp := ThreeIsEncoded(s);
    } else {
      cp := FourIsEncoded(s);
    }
  }

  function EncodeAll(cps: seq<nat>): string
    requires forall i | 0 <= i < |cps| :: Scalar(cps[i])
  {
    if cps == [] then []
    else
      assert Scalar(cps[0]);
      Encode(cps[0]) + EncodeAll(cps[1..])
  }

  lemma {:induction false} EncodedIsValid(cps: seq<nat>)
    requires forall i | 0 <= i < |cps| :: Scalar(cps[i])
    ensures ValidUtf8(EncodeAll(cps))
  {
    if cps != [] {
      EncodeIsUnit(cps[0]);
      EncodedIsValid(cps[1..]);
      UnitThenValid(Encode(cps[0]), EncodeAll(cps[1..]));
    }
  }

  lemma {:induction false} ValidIsEncoded(s: string) returns (cps: seq<nat>)
    requires ValidUtf8(s)
    ensures (forall i | 0 <= i < |cps| :: Scalar(cps[i])) && EncodeAll(cps) == s
  {
    if s == [] {
      cps := [];
    } else {
      hide Unit, Encode, EncodeAll, Scalar;
      var cp := UnitIsEncoded(s);
      var rest := ValidIsEncoded(s[Unit(s)..]);
      cps := [cp] + rest;
      EncodeOneMore(cp, rest);
      assert s == s[..Unit(s)] + s[Unit(s)..];
    }
  }

  lemma EncodeOneMore(cp: nat, cps: seq<nat>)
    requires Scalar(cp) && forall i | 0 <= i < |cps| :: Scalar(cps[i])
    ensures (forall i | 0 <= i < |[cp] + cps| :: Scalar(([cp] + cps)[i])) && EncodeAll([cp] + cps) == Encode(cp) + EncodeAll(cps)
  {
    hide Encode, Scalar;
    assert ([cp] + cps)[1..] == cps;
  }

  /** Well-formed is exactly: the encoding of a sequence of scalar values. */
  lemma ValidExactlyEncoded(s: string)
    ensures ValidUtf8(s) <==> exists cps: seq<nat> :: (forall i | 0 <= i < |cps| :: Scalar(cps[i])) && EncodeAll(cps) == s
  {
    if ValidUtf8(s) {
      var cps := ValidIsEncoded(s);
    }
    forall cps: seq<nat> | (forall i | 0 <= i < |cps| :: Scalar(cps[i])) && EncodeAll(cps) == s ensures ValidUtf8(s) {
      EncodedIsValid(cps);
    }
  }

  lemma OpensOnly(c: char, d: char)
    ensures OpensThree(c, d) ==> Between(c, 0xE0, 0xEF) && Tail(d)
    ensures OpensFour(c, d) ==> Between(c, 0xF0, 0xF4) && Tail(d)
  {
  }

  lemma BrokenBegins(s: string)
    requires s != [] && Broken(s) > 1
    ensures Unit(s[..Broken(s)] + [0x80 as char, 0x80 as char]) > Broken(s)
  {
    OpensOnly(s[0], s[1]);
    hide OpensThree, OpensFour;
    var n := Broken(s);
    var u := s[..n] + [0x80 as char, 0x80 as char];
    assert u[0] == s[0] && u[1] == s[1] && (n == 3 ==> u[2] == s[2] && u[3] == 0x80 as char) && (n == 2 ==> u[2] == u[3] == 0x80 as char);
  }

  lemma BrokenEnds(s: string, t: string)
    requires s != [] && Unit(s) == 0 && Broken(s) < |s|
    ensures Unit(s[..Broken(s) + 1] + t) == 0
  {
    OpensOnly(s[0], s[1]);
    hide OpensThree, OpensFour;
    var n := Broken(s);
    var u := s[..n + 1] + t;
    assert u[0] == s[0] && u[1] == s[1] && (n >= 2 ==> u[2] == s[2]) && (n == 3 ==> u[3] == s[3]);
  }

  /** What is replaced by one replacement character is a maximal ill-formed part: more than one byte only if
      they begin some well-formed sequence, and never with a further byte that would. */
  lemma BrokenIsMaximal(s: string, t: string)
    requires s != [] && Unit(s) == 0
    ensures Broken(s) > 1 ==> Unit(s[..Broken(s)] + [0x80 as char, 0x80 as char]) > Broken(s)
    ensures Broken(s) < |s| ==> Unit(s[..Broken(s) + 1] + t) == 0
    ensures Sanitize(s) == REPLACEMENT + Sanitize(s[Broken(s)..])
  {
    hide Unit, Broken;
    if Broken(s) > 1 {
      BrokenBegins(s);
    }
    if Broken(s) < |s| {
      BrokenEnds(s, t);
    }
  }

  lemma ReadTwo(c: char, d: char)
    ensures ReadHex([c, d]) == 16 * HexDigit(c) + HexDigit(d)
  {
    assert [c, d][..1] == [c] && [c][..0] == [];
    assert ReadHex([c]) == HexDigit(c);
  }

  /** The escapes of section 7 of RFC 8259: the short ones where there is one, four hex digits for the other
      control characters, and everything else as it is. */
  lemma EscapesAsListed(c: char)
    ensures EscapeByte('\"') == "\\\"" && EscapeByte('\\') == "\\\\"
    ensures EscapeByte(8 as char) == "\\b" && EscapeByte(9 as char) == "\\t" && EscapeByte(10 as char) == "\\n"
    ensures EscapeByte(12 as char) == "\\f" && EscapeByte(13 as char) == "\\r"
    ensures c as int < 0x20 && c as int !in {8, 9, 10, 12, 13} ==>
      |EscapeByte(c)| == 6 && EscapeByte(c)[..4] == "\\u00" && ReadHex(EscapeByte(c)[4..]) == c as int
    ensures c as int >= 0x20 && c != '\"' && c != '\\' ==> EscapeByte(c) == [c]
  {
    if c as int < 0x20 && c as int !in {8, 9, 10, 12, 13} {
      var text := EscapeByte(c);
      assert text[4..] == [Digit(c as int / 16), Digit(c as int % 16)];
      HexDigitReads(c as int / 16);
      HexDigitReads(c as int % 16);
      ReadTwo(Digit(c as int / 16), Digit(c as int % 16));
    }
  }

  lemma PieceIsUnit(s: string)
    requires s != [] && ScanPiece(s).Some?
    ensures var bytes := ScanPiece(s).value.bytes; bytes != [] && Unit(bytes) == |bytes|
  {
    if s[0] == BACKSLASH && s[1] == 'u' {
      var hi := Hex4(s[2..]).value;
      if 0xD800 <= hi < 0xDC00 {
        EncodeIsUnit(0x10000 + (hi - 0xD800) * 0x400 + (Hex4(s[8..]).value - 0xDC00));
      } else {
        EncodeIsUnit(hi);
      }
    }
  }

  /** A scanned string is well-formed UTF-8, whatever text it was scanned from. */
  lemma {:induction false} ScannedIsValid(s: string)
    requires ScanString(s).Some?
    ensures ValidUtf8(ScanString(s).value.value)
  {
    if s[0] != QUOTE {
      var piece := ScanPiece(s).value;
      PieceIsUnit(s);
      ScannedIsValid(s[piece.taken..]);
      UnitThenValid(piece.bytes, ScanString(s[piece.taken..]).value.value);
    }
  }

  // ---------------------------------------------------------------- numbers

  function ScanDigits(s: string, n: nat): Scanned<nat> {
    if s != [] && IsDigit(s[0]) then ScanDigits(s[1..], 10 * n + (s[0] as int - '0' as int)) else Scanned(n, s)
  }

  lemma ScanDigit(d: nat, rest: string, n: nat)
    requires d < 10
    ensures ScanDigits([Digit(d)] + rest, n) == ScanDigits(rest, 10 * n + d)
  {
    DigitFacts(d, 0);
    DigitValue(d);
    assert ([Digit(d)] + rest)[1..] == rest;
  }

  lemma {:induction false} DigitsScan(n: nat, rest: string)
    ensures ScanDigits(Digits(n) + rest, 0) == ScanDigits(rest, n)
  {
    hide ScanDigits, Digit;
    if n < 10 {
      ScanDigit(n, rest, 0);
    } else {
      ScanDigit(n % 10, rest, n / 10);
      DigitsScan(n / 10, [Digit(n % 10)] + rest);
      assert Digits(n) + rest == Digits(n / 10) + ([Digit(n % 10)] + rest);
    }
  }

  lemma {:induction false} NoLeadingZero(n: nat)
    ensures Digits(n) != [] && (Digits(n)[0] == '0' ==> n == 0) && IsDigit(Digits(n)[0])
  {
    DigitFacts(n % 10, 0);
    if n >= 10 {
      NoLeadingZero(n / 10);
    }
  }

  // ---------------------------------------------------------------- flat objects

  datatype Value = Number(n: nat) | Text(s: string)
  datatype Member = Member(key: string, value: Value)

  predicate ValidValue(v: Value) {
    match v
    case Number(n) => n < TWO_64
    case Text(s) => ValidUtf8(s)
  }

  predicate ValidMember(m: Member) {
    ValidUtf8(m.key) && ValidValue(m.value)
  }

  predicate ValidMembers(ms: seq<Member>) {
    forall i | 0 <= i < |ms| :: ValidMember(ms[i])
  }

  function DumpValue(v: Value): string
    requires ValidValue(v)
  {
    match v
    case Number(n) => Digits(n)
    case Text(s) => [QUOTE] + Escape(s) + [QUOTE]
  }

  function DumpMember(m: Member): string
    requires ValidMember(m)
  {
    [QUOTE] + Escape(m.key) + [QUOTE, ':'] + DumpValue(m.value)
  }

  function DumpMembers(ms: seq<Member>): string
    requires ValidMembers(ms)
  {
    if ms == [] then [] else if |ms| == 1 then DumpMember(ms[0])
    else DumpMember(ms[0]) + [','] + DumpMembers(ms[1..])
  }

  function Dump(ms: seq<Member>): string
    requires ValidMembers(ms)
  {
    ['{'] + DumpMembers(ms) + ['}']
  }

  function ScanValue(s: string): (r: Option<Scanned<Value>>)
    ensures r.Some? ==> |r.value.rest| < |s|
  {
    if s == [] then None
    else if s[0] == QUOTE then
      var text := ScanString(s[1..]);
      if text.None? then None else Some(Scanned(Text(text.value.value), text.value.rest))
    else if s[0] == '0' then Some(Scanned(Number(0), s[1..]))
    else if IsDigit(s[0]) then
      ScanShrinks(s[1..], s[0] as int - '0' as int);
      var number := ScanDigits(s, 0);
      if number.value < TWO_64 then Some(Scanned(Number(number.value), number.rest)) else None
    else None
  }

  lemma ScanShrinks(s: string, n: nat)
    ensures |ScanDigits(s, n).rest| <= |s|
  {
  }

  function ScanMember(s: string): (r: Option<Scanned<Member>>)
    ensures r.Some? ==> |r.value.rest| < |s|
  {
    if s == [] || s[0] != QUOTE then None
    else
      var key := ScanString(s[1..]);
      if key.None? || key.value.rest == [] || key.value.rest[0] != ':' then None
      else
        var value := ScanValue(key.value.rest[1..]);
        if value.None? then None else Some(Scanned(Member(key.value.value, value.value.value), value.value.rest))
  }

  function ScanMembers(s: string): Option<Scanned<seq<Member>>>
    decreases |s|
  {
    var first := ScanMember(s);
    if first.None? || first.value.rest == [] then None
    else if first.value.rest[0] == '}' then Some(Scanned([first.value.value], first.value.rest[1..]))
    else if first.value.rest[0] != ',' then None
    else
      var more := ScanMembers(first.value.rest[1..]);
      if more.None? then None else Some(Scanned([first.value.value] + more.value.value, more.value.rest))
  }

  /** A whole text: one object and nothing after it. */
  function Parse(s: string): Option<seq<Member>> {
    if s == [] || s[0] != '{' then None
    else if s == "{}" then Some([])
    else
      var ms := ScanMembers(s[1..]);
      if ms.Some? && ms.value.rest == [] then Some(ms.value.value) else None
  }

  lemma NumberRoundTrip(n: nat, rest: string)
    requires n < TWO_64 && rest != [] && !IsDigit(rest[0])
    ensures ScanValue(Digits(n) + rest) == Some(Scanned(Number(n), rest))
  {
    var text := Digits(n) + rest;
    NoLeadingZero(n);
    assert text[0] == Digits(n)[0];
    if n == 0 {
      assert Digits(0) == ['0'];
      assert text[1..] == rest;
    } else {
      DigitsScan(n, rest);
    }
  }

  lemma TextRoundTrip(s: string, rest: string)
    requires ValidUtf8(s)
    ensures ScanValue([QUOTE] + Escape(s) + [QUOTE] + rest) == Some(Scanned(Text(s), rest))
  {
    var text := [QUOTE] + Escape(s) + [QUOTE] + rest;
    assert text[1..] == Escape(s) + [QUOTE] + rest;
    StringRoundTrip(s, rest);
  }

  lemma ValueRoundTrip(v: Value, rest: string)
    requires ValidValue(v)
    requires rest != [] && !IsDigit(rest[0])
    ensures ScanValue(DumpValue(v) + rest) == Some(Scanned(v, rest))
  {
    match v
    case Number(n) => NumberRoundTrip(n, rest);
    case Text(s) => TextRoundTrip(s, rest);
  }

  /** Reading a member is reading its key, a colon and its value. */
  lemma MemberReads(s: string, key: string, t: string, value: Value, rest: string)
    requires s != [] && s[0] == QUOTE && t != [] && t[0] == ':'
    requires ScanString(s[1..]) == Some(Scanned(key, t)) && ScanValue(t[1..]) == Some(Scanned(value, rest))
    ensures ScanMember(s) == Some(Scanned(Member(key, value), rest))
  {
  }

  lemma MemberRoundTrip(m: Member, rest: string)
    requires ValidMember(m) && rest != [] && !IsDigit(rest[0])
    ensures ScanMember(DumpMember(m) + rest) == Some(Scanned(m, rest))
  {
    var text, tail := DumpMember(m) + rest, DumpValue(m.value) + rest;
    assert text[1..] == Escape(m.key) + [QUOTE] + ([':'] + tail);
    StringRoundTrip(m.key, [':'] + tail);
    assert ([':'] + tail)[1..] == tail;
    ValueRoundTrip(m.value, rest);
    MemberReads(text, m.key, [':'] + tail, m.value, rest);
  }

  lemma MembersRead(s: string, m: Member, rest: string)
    requires rest != [] && ScanMember(s) == Some(Scanned(m, rest))
    ensures rest[0] == '}' ==> ScanMembers(s) == Some(Scanned([m], rest[1..]))
    ensures rest[0] == ',' && ScanMembers(rest[1..]).Some? ==>
      ScanMembers(s) == Some(Scanned([m] + ScanMembers(rest[1..]).value.value, ScanMembers(rest[1..]).value.rest))
  {
  }

  lemma MembersGlue(m: Member, more: string, ms: seq<Member>)
    requires ValidMember(m) && ScanMembers(more) == Some(Scanned(ms, []))
    ensures ScanMembers(DumpMember(m) + ([','] + more)) == Some(Scanned([m] + ms, []))
  {
    var rest := [','] + more;
    MemberRoundTrip(m, rest);
    assert rest[1..] == more;
    MembersRead(DumpMember(m) + rest, m, rest);
  }

  lemma LastMember(m: Member)
    requires ValidMember(m)
    ensures ScanMembers(DumpMember(m) + ['}']) == Some(Scanned([m], []))
  {
    MemberRoundTrip(m, ['}']);
    MembersRead(DumpMember(m) + ['}'], m, ['}']);
    assert ['}'][1..] == [];
  }

  lemma DumpSplits(ms: seq<Member>)
    requires ValidMembers(ms) && |ms| > 1
    ensures DumpMembers(ms) + ['}'] == DumpMember(ms[0]) + ([','] + (DumpMembers(ms[1..]) + ['}']))
  {
  }

  lemma {:induction false} MembersRoundTrip(ms: seq<Member>)
    requires ValidMembers(ms) && ms != []
    ensures ScanMembers(DumpMembers(ms) + ['}']) == Some(Scanned(ms, []))
  {
    if |ms| == 1 {
      LastMember(ms[0]);
      assert [ms[0]] == ms;
    } else {
      MembersRoundTrip(ms[1..]);
      MembersGlue(ms[0], DumpMembers(ms[1..]) + ['}'], ms[1..]);
      DumpSplits(ms);
      assert [ms[0]] + ms[1..] == ms;
    }
  }

  lemma MembersStart(ms: seq<Member>)
    requires ValidMembers(ms) && ms != []
    ensures DumpMembers(ms) != [] && DumpMembers(ms)[0] == QUOTE
  {
  }

  lemma DumpStarts(ms: seq<Member>)
    requires ValidMembers(ms) && ms != []
    ensures var s := Dump(ms); |s| > 1 && s[0] == '{' && s[1] == QUOTE && s[1..] == DumpMembers(ms) + ['}']
  {
    hide DumpMembers;
    MembersStart(ms);
  }

  lemma ParseReads(s: string, ms: seq<Member>)
    requires |s| > 1 && s[0] == '{' && s[1] == QUOTE && ScanMembers(s[1..]) == Some(Scanned(ms, []))
    ensures Parse(s) == Some(ms)
  {
    hide ScanMembers;
    assert s[1] != "{}"[1];
  }

  lemma EmptyRoundTrip()
    ensures Dump([]) == "{}" && Parse("{}") == Some([])
  {
  }

  /** Dumping then parsing is the identity on flat objects. */
  lemma ObjectRoundTrip(ms: seq<Member>)
    requires ValidMembers(ms)
    ensures Parse(Dump(ms)) == Some(ms)
  {
    hide Dump, DumpMembers, ScanMembers, Parse;
    if ms == [] {
      EmptyRoundTrip();
    } else {
      MembersRoundTrip(ms);
      DumpStarts(ms);
      ParseReads(Dump(ms), ms);
    }
  }

  // ---------------------------------------------------------------- nothing is left over

  predicate EndOf(rest: string, s: string) {
    |rest| <= |s| && rest == s[|s| - |rest|..]
  }

  lemma EndOfEnd(x: string, s: string, n: nat)
    requires n <= |s| && EndOf(x, s[n..])
    ensures EndOf(x, s)
  {
    assert s[n..][|s| - n - |x|..] == s[|s| - |x|..];
  }

  lemma {:induction false} StringRest(s: string)
    requires ScanString(s).Some?
    ensures EndOf(ScanString(s).value.rest, s)
  {
    hide ScanPiece;
    if s[0] != QUOTE {
      var taken := ScanPiece(s).value.taken;
      StringRest(s[taken..]);
      EndOfEnd(ScanString(s).value.rest, s, taken);
    }
  }

  lemma {:induction false} DigitsRest(s: string, n: nat)
    ensures EndOf(ScanDigits(s, n).rest, s)
  {
    if s != [] && IsDigit(s[0]) {
      DigitsRest(s[1..], 10 * n + (s[0] as int - '0' as int));
      EndOfEnd(ScanDigits(s, n).rest, s, 1);
    }
  }

  lemma ValueRest(s: string)
    requires ScanValue(s).Some?
    ensures EndOf(ScanValue(s).value.rest, s)
  {
    hide ScanString, ScanDigits;
    if s[0] == QUOTE {
      StringRest(s[1..]);
      EndOfEnd(ScanValue(s).value.rest, s, 1);
    } else if s[0] != '0' {
      DigitsRest(s, 0);
    }
  }

  lemma MemberRest(s: string)
    requires ScanMember(s).Some?
    ensures EndOf(ScanMember(s).value.rest, s)
  {
    hide ScanString, ScanValue, EndOf;
    var key := ScanString(s[1..]).value.rest;
    StringRest(s[1..]);
    EndOfEnd(key, s, 1);
    ValueRest(key[1..]);
    EndOfEnd(ScanMember(s).value.rest, key, 1);
    EndOfTrans(ScanMember(s).value.rest, key, s);
  }

  lemma EndOfTrans(x: string, y: string, z: string)
    requires EndOf(x, y) && EndOf(y, z)
    ensures EndOf(x, z)
  {
    EndOfEnd(x, z, |z| - |y|);
  }

  /** The members end just behind a closing brace. */
  lemma {:induction false} MembersEnd(s: string) returns (n: nat)
    requires ScanMembers(s).Some?
    ensures n < |s| && s[n] == '}' && ScanMembers(s).value.rest == s[n + 1..]
    decreases |s|
  {
    hide ScanMember;
    MemberRest(s);
    var rest := ScanMember(s).value.rest;
    var k := |s| - |rest|;
    assert rest[1..] == s[k + 1..];
    if rest[0] == '}' {
      n := k;
    } else {
      var m := MembersEnd(rest[1..]);
      n := k + 1 + m;
    }
  }

  /** Nothing stands before the opening or after the closing brace of what parses. */
  lemma ParsedIsBraced(s: string)
    requires Parse(s).Some?
    ensures |s| >= 2 && s[0] == '{' && s[|s| - 1] == '}'
  {
    hide ScanMembers;
    if s != "{}" {
      var n := MembersEnd(s[1..]);
    }
  }

  lemma MemberIsValid(s: string)
    requires ScanMember(s).Some?
    ensures ValidMember(ScanMember(s).value.value)
  {
    ScannedIsValid(s[1..]);
    var after := ScanString(s[1..]).value.rest[1..];
    if after[0] == QUOTE {
      ScannedIsValid(after[1..]);
    }
  }

  lemma {:induction false} MembersAreValid(s: string)
    requires ScanMembers(s).Some?
    ensures ValidMembers(ScanMembers(s).value.value)
    decreases |s|
  {
    MemberIsValid(s);
    var first := ScanMember(s).value;
    if first.rest[0] == ',' {
      MembersAreValid(first.rest[1..]);
    }
  }

  /** What parses can be dumped again. */
  lemma ParsedIsValid(s: string)
    requires Parse(s).Some?
    ensures ValidMembers(Parse(s).value)
  {
    if s != "{}" {
      MembersAreValid(s[1..]);
    }
  }
}
