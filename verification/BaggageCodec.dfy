/** One list member of a W3C Baggage header: percent coding, parsing and printing. */
module BaggageCodec {
  import opened Bytes
  import opened Utf8

  // ----- whitespace -----

  /** Length of the Unicode white space character `s` begins with, 0 if none. */
  function SpaceAtFront(s: Text): (n: nat)
    ensures n <= |s|
  {
    if |s| >= 1 && (0x09 <= s[0] <= 0x0D || s[0] == 0x20) then 1
    else if |s| >= 2 && s[0] == 0xC2 && (s[1] == 0x85 || s[1] == 0xA0) then 2
    else if |s| >= 3 && IsSpace3(s[..3]) then 3
    else 0
  }

  function SpaceAtBack(s: Text): (n: nat)
    ensures n <= |s|
  {
    var m := |s|;
    if m >= 1 && (0x09 <= s[m - 1] <= 0x0D || s[m - 1] == 0x20) then 1
    else if m >= 2 && s[m - 2] == 0xC2 && (s[m - 1] == 0x85 || s[m - 1] == 0xA0) then 2
    else if m >= 3 && IsSpace3(s[m - 3..]) then 3
    else 0
  }

  /** U+1680, U+2000 to U+200A, U+2028, U+2029, U+202F, U+205F and U+3000. */
  predicate IsSpace3(c: Text)
    requires |c| == 3
  {
    || c == [0xE1, 0x9A, 0x80]
    || (c[..2] == [0xE2, 0x80] && (0x80 <= c[2] <= 0x8A || c[2] == 0xA8 || c[2] == 0xA9 || c[2] == 0xAF))
    || c == [0xE2, 0x81, 0x9F]
    || c == [0xE3, 0x80, 0x80]
  }

  function TrimFront(s: Text): (r: Text)
    ensures |r| <= |s|
    decreases |s|
  {
    if SpaceAtFront(s) == 0 then s else TrimFront(s[SpaceAtFront(s)..])
  }

  function TrimBack(s: Text): (r: Text)
    ensures |r| <= |s|
    decreases |s|
  {
    if SpaceAtBack(s) == 0 then s else TrimBack(s[..|s| - SpaceAtBack(s)])
  }

  /** `str::trim`. */
  function Trim(s: Text): (r: Text)
    ensures |r| <= |s|
  {
    TrimBack(TrimFront(s))
  }

  predicate Graphic(b: Byte) { 0x21 <= b <= 0x7E }

  /** Begins and ends with a graphic ASCII byte, so trimming leaves it alone. */
  predicate Solid(s: Text) {
    s == [] || (Graphic(s[0]) && Graphic(s[|s| - 1]))
  }

  lemma SpacesAreNotGraphic(s: Text)
    ensures forall k :: 0 <= k < SpaceAtFront(s) ==> !Graphic(s[k])
    ensures forall k :: |s| - SpaceAtBack(s) <= k < |s| ==> !Graphic(s[k])
  {
    if |s| >= 3 {
      var f, b := s[..3], s[|s| - 3..];
      assert f[0] == s[0] && f[1] == s[1] && f[2] == s[2] && f[..2] == [s[0], s[1]];
      assert b[0] == s[|s| - 3] && b[1] == s[|s| - 2] && b[2] == s[|s| - 1] && b[..2] == [b[0], b[1]];
    }
  }

  lemma TrimSolid(s: Text)
    requires Solid(s)
    ensures Trim(s) == s
  {
    hide SpaceAtFront, SpaceAtBack;
    SpacesAreNotGraphic(s);
  }

  /** White space holds no graphic byte, so trimming drops none. */
  lemma {:induction false} TrimFrontDrops(s: Text, b: Byte)
    requires Graphic(b)
    ensures b in TrimFront(s) <==> b in s
    decreases |s|
  {
    hide SpaceAtFront;
    var n := SpaceAtFront(s);
    if n > 0 {
      TrimFrontDrops(s[n..], b);
      SpacesAreNotGraphic(s);
      assert forall k :: n <= k < |s| ==> s[k] == s[n..][k - n];
    }
  }

  lemma {:induction false} TrimBackDrops(s: Text, b: Byte)
    requires Graphic(b)
    ensures b in TrimBack(s) <==> b in s
    decreases |s|
  {
    hide SpaceAtBack;
    var n, m := SpaceAtBack(s), |s|;
    if n > 0 {
      TrimBackDrops(s[..m - n], b);
      SpacesAreNotGraphic(s);
      assert forall k :: 0 <= k < m - n ==> s[k] == s[..m - n][k];
    }
  }

  lemma TrimDrops(s: Text, b: Byte)
    requires Graphic(b)
    ensures b in Trim(s) <==> b in s
  {
    TrimFrontDrops(s, b);
    TrimBackDrops(TrimFront(s), b);
  }

  lemma FrontSpaceIsChar(s: Text)
    requires SpaceAtFront(s) > 0
    ensures IsChar(s[..SpaceAtFront(s)])
  {
    DroppedIsSpace(s);
    hide SpaceAtFront, SpaceAtBack, IsSpace, IsChar, WhiteSpace, Encode;
    var u := SpaceIsEncoded(s[..SpaceAtFront(s)]);
    WhiteIsScalar(u);
    EncodesChar(u);
  }

  lemma BackSpaceIsChar(s: Text)
    requires SpaceAtBack(s) > 0
    ensures IsChar(s[|s| - SpaceAtBack(s)..])
  {
    DroppedIsSpace(s);
    hide SpaceAtFront, SpaceAtBack, IsSpace, IsChar, WhiteSpace, Encode;
    var u := SpaceIsEncoded(s[|s| - SpaceAtBack(s)..]);
    WhiteIsScalar(u);
    EncodesChar(u);
  }

  lemma WhiteIsScalar(u: nat)
    requires WhiteSpace(u)
    ensures Scalar(u)
  {
  }

  /** What trimming drops is whole characters, so a text around a well-formed core is well-formed. */
  lemma {:induction false} PaddedFrontIsUtf8(s: Text)
    requires WellFormed(TrimFront(s))
    ensures WellFormed(s)
    decreases |s|
  {
    hide SpaceAtFront, IsChar, WellFormed;
    var n := SpaceAtFront(s);
    if n > 0 {
      PaddedFrontIsUtf8(s[n..]);
      FrontSpaceIsChar(s);
      WellFormedCons(s[..n], s[n..]);
      assert s[..n] + s[n..] == s;
    }
  }

  lemma {:induction false} PaddedBackIsUtf8(s: Text)
    requires WellFormed(TrimBack(s))
    ensures WellFormed(s)
    decreases |s|
  {
    hide SpaceAtBack, IsChar, WellFormed;
    var m := |s| - SpaceAtBack(s);
    if m < |s| {
      PaddedBackIsUtf8(s[..m]);
      BackSpaceIsChar(s);
      CharIsUtf8(s[m..]);
      WellFormedAppend(s[..m], s[m..]);
      assert s[..m] + s[m..] == s;
    }
  }

  lemma CharIsUtf8(c: Text)
    requires IsChar(c)
    ensures WellFormed(c)
  {
    assert WellFormed([]);
    hide WellFormed;
    WellFormedCons(c, []);
    assert c + [] == c;
  }

  lemma PaddedIsUtf8(s: Text)
    requires WellFormed(Trim(s))
    ensures WellFormed(s)
  {
    hide WellFormed;
    PaddedBackIsUtf8(TrimFront(s));
    PaddedFrontIsUtf8(s);
  }

  // ----- trimming finds the core -----

  /** The White_Space property of Unicode. */
  predicate WhiteSpace(u: nat) {
    || 0x09 <= u <= 0x0D || u == 0x20 || u == 0x85 || u == 0xA0 || u == 0x1680 || 0x2000 <= u <= 0x200A
    || u == 0x2028 || u == 0x2029 || u == 0x202F || u == 0x205F || u == 0x3000
  }

  ghost predicate Spaces(us: seq<nat>, s: Text) {
    (forall u :: u in us ==> WhiteSpace(u)) && EncodesTo(us, s)
  }

  /** White space characters, one after the other. */
  ghost predicate AllSpace(s: Text) { exists us :: Spaces(us, s) }

  lemma SpaceEncoded(u: nat)
    requires WhiteSpace(u)
    ensures 1 <= |Encode(u)| <= 3
    ensures forall rest :: SpaceAtFront(Encode(u) + rest) == |Encode(u)|
    ensures forall front :: SpaceAtBack(front + Encode(u)) == |Encode(u)|
  {
    var c := Encode(u);
    forall rest ensures SpaceAtFront(c + rest) == |c| {
      if |c| == 3 { assert (c + rest)[..3] == c && c[..2] == [c[0], c[1]]; }
    }
    forall front ensures SpaceAtBack(front + c) == |c| {
      if |c| == 3 { assert (front + c)[|front|..] == c && c[..2] == [c[0], c[1]]; }
    }
  }

  lemma Space3IsEncoded(c: Text) returns (u: nat)
    requires |c| == 3 && IsSpace3(c)
    ensures WhiteSpace(u) && Encode(u) == c
  {
    assert c[..2] == [c[0], c[1]];
    hide Encode;
    ThreeEncode(c[0], c[1], c[2]);
    u := Shifted(Shifted(c[0] as int - 0xE0, c[1]), c[2]);
  }

  predicate IsSpace(c: Text) {
    || (|c| == 1 && (0x09 <= c[0] <= 0x0D || c[0] == 0x20))
    || (|c| == 2 && c[0] == 0xC2 && (c[1] == 0x85 || c[1] == 0xA0))
    || (|c| == 3 && IsSpace3(c))
  }

  lemma SpaceIsEncoded(c: Text) returns (u: nat)
    requires IsSpace(c)
    ensures WhiteSpace(u) && Encode(u) == c
  {
    if |c| == 3 {
      u := Space3IsEncoded(c);
    } else if |c| == 2 {
      u := c[1];
      assert Encode(u) == [0xC2, c[1]];
    } else {
      u := c[0];
      assert Encode(u) == [c[0]];
    }
  }

  lemma SpacesCons(u: nat, us: seq<nat>, s: Text)
    requires WhiteSpace(u) && Spaces(us, s)
    ensures Spaces([u] + us, Encode(u) + s)
  {
    hide Encode;
    assert ([u] + us)[0] == u && ([u] + us)[1..] == us;
  }

  lemma {:induction false} SpacesPush(us: seq<nat>, u: nat, s: Text)
    requires WhiteSpace(u) && Spaces(us, s)
    ensures Spaces(us + [u], s + Encode(u))
  {
    hide Encode;
    if us == [] {
      assert [u][1..] == [] && EncodeAll([]) == [];
      assert Encode(u) + EncodeAll([]) == Encode(u) && [] + Encode(u) == Encode(u);
      assert us + [u] == [u];
    } else {
      SpacesPush(us[1..], u, EncodeAll(us[1..]));
      assert (us + [u])[0] == us[0] && (us + [u])[1..] == us[1..] + [u];
      assert Encode(us[0]) + (EncodeAll(us[1..]) + Encode(u)) == s + Encode(u);
    }
  }

  lemma NoSpaces()
    ensures Spaces([], [])
  {
  }

  lemma DroppedIsSpace(s: Text)
    ensures SpaceAtFront(s) > 0 ==> IsSpace(s[..SpaceAtFront(s)])
    ensures SpaceAtBack(s) > 0 ==> IsSpace(s[|s| - SpaceAtBack(s)..])
  {
  }

  /** What trimming drops at the front, or at the back, is white space. */
  lemma {:induction false} TrimFrontParts(s: Text) returns (us: seq<nat>, left: Text)
    ensures Spaces(us, left) && s == left + TrimFront(s)
    decreases |s|
  {
    hide SpaceAtFront, SpaceAtBack, IsSpace, Encode, Spaces, WhiteSpace;
    var n := SpaceAtFront(s);
    if n == 0 {
      us, left := [], [];
      NoSpaces();
    } else {
      DroppedIsSpace(s);
      var u := SpaceIsEncoded(s[..n]);
      us, left := TrimFrontParts(s[n..]);
      SpacesCons(u, us, left);
      us := [u] + us;
      assert s == s[..n] + s[n..];
      Associates(s[..n], left, TrimFront(s[n..]));
      left := s[..n] + left;
    }
  }

  lemma {:induction false} TrimBackParts(s: Text) returns (us: seq<nat>, right: Text)
    ensures Spaces(us, right) && s == TrimBack(s) + right
    decreases |s|
  {
    hide SpaceAtFront, SpaceAtBack, IsSpace, Encode, Spaces, WhiteSpace;
    var n, m := SpaceAtBack(s), |s|;
    if n == 0 {
      us, right := [], [];
      NoSpaces();
    } else {
      DroppedIsSpace(s);
      var u := SpaceIsEncoded(s[m - n..]);
      us, right := TrimBackParts(s[..m - n]);
      SpacesPush(us, u, right);
      us := us + [u];
      assert s == s[..m - n] + s[m - n..];
      Associates(TrimBack(s[..m - n]), right, s[m - n..]);
      right := right + s[m - n..];
    }
  }

  lemma {:induction false} TrimFrontOf(us: seq<nat>, left: Text, rest: Text)
    requires Spaces(us, left)
    ensures TrimFront(left + rest) == TrimFront(rest)
  {
    hide SpaceAtFront, Encode, WhiteSpace;
    if us == [] {
      assert left + rest == rest;
    } else {
      var c, more := Encode(us[0]), EncodeAll(us[1..]);
      SpaceEncoded(us[0]);
      TrimFrontOf(us[1..], more, rest);
      assert left + rest == c + (more + rest);
      assert SpaceAtFront(c + (more + rest)) == |c|;
    }
  }

  lemma {:induction false} TrimBackOf(us: seq<nat>, rest: Text, right: Text)
    requires Spaces(us, right)
    ensures TrimBack(rest + right) == TrimBack(rest)
    decreases |us|
  {
    hide SpaceAtBack, Encode, WhiteSpace;
    if us == [] {
      assert rest + right == rest;
    } else {
      var c, more := Encode(us[0]), EncodeAll(us[1..]);
      TrimBackOf(us[1..], rest + c, more);
      assert rest + right == (rest + c) + more;
      SpaceEncoded(us[0]);
      assert SpaceAtBack(rest + c) == |c|;
    }
  }

  lemma {:induction false} SpacesAppend(us: seq<nat>, vs: seq<nat>, a: Text, b: Text)
    requires Spaces(us, a) && Spaces(vs, b)
    ensures Spaces(us + vs, a + b)
  {
    hide Encode, WhiteSpace;
    if us == [] {
      assert us + vs == vs && a + b == b;
    } else {
      SpacesAppend(us[1..], vs, EncodeAll(us[1..]), b);
      assert (us + vs)[0] == us[0] && (us + vs)[1..] == us[1..] + vs;
      Associates(Encode(us[0]), EncodeAll(us[1..]), b);
    }
  }

  lemma AllSpaceAppend(a: Text, b: Text)
    requires AllSpace(a) && AllSpace(b)
    ensures AllSpace(a + b) && AllSpace([])
  {
    NoSpaces();
    var us :| Spaces(us, a);
    var vs :| Spaces(vs, b);
    SpacesAppend(us, vs, a, b);
  }

  /** White space holds no visible byte. */
  lemma AllSpaceWithout(a: Text, b: Byte)
    requires AllSpace(a) && Graphic(b)
    ensures b !in a
  {
    NoSpaces();
    hide Spaces, Trim;
    TrimPadded(a, [], []);
    assert a + [] + [] == a;
    TrimDrops(a, b);
  }

  /** Trimming finds the core of a padded text; cores here begin and end visibly. */
  lemma TrimPadded(left: Text, core: Text, right: Text)
    requires AllSpace(left) && AllSpace(right) && Solid(core)
    ensures Trim(left + core + right) == core
  {
    var us :| Spaces(us, left);
    var vs :| Spaces(vs, right);
    hide Spaces, SpaceAtFront, SpaceAtBack;
    assert left + core + right == left + (core + right);
    TrimFrontOf(us, left, core + right);
    if core == [] {
      assert core + right == right && right + [] == right;
      TrimFrontOf(vs, right, []);
      assert TrimFront([]) == [] by { TrimSolid([]); }
    } else {
      SpacesAreNotGraphic(core + right);
      TrimBackOf(vs, core, right);
      SpacesAreNotGraphic(core);
    }
  }

  /** Every text is padded around what trimming leaves. */
  lemma TrimParts(s: Text) returns (left: Text, right: Text)
    ensures AllSpace(left) && AllSpace(right) && s == left + Trim(s) + right
  {
    var us, vs;
    us, left := TrimFrontParts(s);
    vs, right := TrimBackParts(TrimFront(s));
    hide Spaces, SpaceAtFront, SpaceAtBack;
    assert left + (Trim(s) + right) == left + Trim(s) + right;
  }

  // ----- byte classes -----

  predicate Alphanumeric(b: Byte) {
    0x30 <= b <= 0x39 || 0x41 <= b <= 0x5A || 0x61 <= b <= 0x7A
  }

  /** `is_token_byte`. */
  predicate TokenByte(b: Byte) {
    || Alphanumeric(b)
    || b == 0x21 || 0x23 <= b <= 0x27 || b == 0x2A || b == 0x2B || b == 0x2D || b == 0x2E
    || 0x5E <= b <= 0x60 || b == 0x7C || b == 0x7E
  }

  /** A baggage octet; `%` is one of them. */
  predicate ValueByte(b: Byte) {
    b == 0x21 || 0x23 <= b <= 0x2B || 0x2D <= b <= 0x3A || 0x3C <= b <= 0x5B || 0x5D <= b <= 0x7E
  }

  predicate AllTokens(s: Text) { forall k :: 0 <= k < |s| ==> TokenByte(s[k]) }

  predicate AllValues(s: Text) { forall k :: 0 <= k < |s| ==> ValueByte(s[k]) }

  /** A token (section 3.2.6 of RFC 7230) is made of visible characters that are no delimiters. */
  lemma TokenBytesAre(b: Byte)
    ensures TokenByte(b) <==>
      // not one of "(),/:;<=>?@[\]{}
      && 0x21 <= b <= 0x7E && b != 0x22 && b != 0x28 && b != 0x29 && b != 0x2C && b != 0x2F && b != 0x3A && b != 0x3B
      && b != 0x3C && b != 0x3D && b != 0x3E && b != 0x3F && b != 0x40 && b != 0x5B && b != 0x5C && b != 0x5D
      && b != 0x7B && b != 0x7D
  {
  }

  /** A baggage octet is visible and neither quote, comma, semicolon nor backslash. */
  lemma ValueBytesAre(b: Byte)
    ensures ValueByte(b) <==> 0x21 <= b <= 0x7E && b != 0x22 && b != 0x2C && b != 0x3B && b != 0x5C
  {
  }

  // ----- percent coding -----

  function HexDigit(b: Byte): Option<nat> {
    if 0x30 <= b <= 0x39 then Some(b - 0x30)
    else if 0x41 <= b <= 0x46 then Some(b - 0x41 + 10)
    else if 0x61 <= b <= 0x66 then Some(b - 0x61 + 10)
    else None
  }

  /** Digits denote 0 to 9, letters of either case 10 to 15, and nothing else denotes anything. */
  lemma HexDigitsAre(k: nat, b: Byte)
    ensures k < 10 ==> HexDigit(0x30 + k) == Some(k)
    ensures k < 6 ==> HexDigit(0x41 + k) == HexDigit(0x61 + k) == Some(10 + k)
    ensures HexDigit(b).Some? <==> 0x30 <= b < 0x30 + 10 || 0x41 <= b < 0x41 + 6 || 0x61 <= b < 0x61 + 6
  {
  }

  /** The bytes a percent-coded text stands for, nothing when an escape is malformed. */
  function Unescape(s: Text): Option<Text> {
    if s == [] then Some([])
    else if s[0] != PERCENT then
      var rest := Unescape(s[1..]);
      if rest.None? then None else Some([s[0]] + rest.value)
    else if |s| < 3 || HexDigit(s[1]).None? || HexDigit(s[2]).None? then None
    else
      var rest := Unescape(s[3..]);
      if rest.None? then None
      else Some([HexDigit(s[1]).value * 16 + HexDigit(s[2]).value] + rest.value)
  }

  /** Bytes written as themselves. */
  predicate Literal(b: Byte) { ValueByte(b) && b != PERCENT }

  function HexByte(d: nat): Byte
    requires d < 16
  {
    if d < 10 then 0x30 + d else 0x41 + d - 10
  }

  function EscapeByte(b: Byte): Text {
    if Literal(b) then [b] else [PERCENT, HexByte(b / 16), HexByte(b % 16)]
  }

  /** A baggage octet but the percent sign stands for itself; any other byte is written with two
      hex digits, capital letters for 10 to 15, the high digit first. */
  lemma EscapedBytesAre(b: Byte)
    ensures ValueByte(b) && b != PERCENT ==> EscapeByte(b) == [b]
    ensures !ValueByte(b) || b == PERCENT ==>
      var h, l := b / 16, b % 16;
      EscapeByte(b) ==
        [PERCENT, if h < 10 then 0x30 + h else 0x41 + (h - 10), if l < 10 then 0x30 + l else 0x41 + (l - 10)]
  {
  }

  function Escape(v: Text): Text {
    if v == [] then [] else EscapeByte(v[0]) + Escape(v[1..])
  }

  lemma EscapeByteIsValue(b: Byte)
    ensures AllValues(EscapeByte(b)) && 1 <= |EscapeByte(b)| <= 3
  {
  }

  lemma {:induction false} EscapeAppend(a: Text, b: Text)
    ensures Escape(a + b) == Escape(a) + Escape(b)
  {
    hide EscapeByte;
    if a == [] {
      assert a + b == b;
    } else {
      EscapeAppend(a[1..], b);
      assert (a + b)[0] == a[0] && (a + b)[1..] == a[1..] + b;
      Associates(EscapeByte(a[0]), Escape(a[1..]), Escape(b));
    }
  }

  lemma {:induction false} EscapeIsValue(v: Text)
    ensures AllValues(Escape(v)) && |v| <= |Escape(v)| <= 3 * |v|
  {
    if v != [] {
      EscapeIsValue(v[1..]);
      EscapeByteIsValue(v[0]);
    }
  }

  lemma HexDigitOfByte(d: nat)
    requires d < 16
    ensures HexDigit(HexByte(d)) == Some(d)
  {
  }

  lemma {:induction false} UnescapeStep(b: Byte, rest: Text)
    ensures Unescape(EscapeByte(b) + rest) ==
      if Unescape(rest).Some? then Some([b] + Unescape(rest).value) else None
  {
    var s := EscapeByte(b) + rest;
    if Literal(b) {
      assert s[0] == b && s[1..] == rest;
    } else {
      HexDigitOfByte(b / 16);
      HexDigitOfByte(b % 16);
      hide HexDigit, HexByte;
      assert s[0] == PERCENT && s[1] == HexByte(b / 16) && s[2] == HexByte(b % 16) && s[3..] == rest;
    }
  }

  /** Printing a value and reading it back gives the value, for every byte string. */
  lemma {:induction false} UnescapeEscape(v: Text)
    ensures Unescape(Escape(v)) == Some(v)
  {
    if v != [] {
      UnescapeEscape(v[1..]);
      UnescapeStep(v[0], Escape(v[1..]));
      assert [v[0]] + v[1..] == v;
    }
  }

  /** Reading and printing again never grows a value, and even replacing ill-formed UTF-8
      leaves it no longer than it was on the wire. */
  lemma {:induction false} UnescapeShrinks(s: Text)
    requires AllValues(s) && Unescape(s).Some?
    ensures |Escape(Unescape(s).value)| <= |s|
    ensures Weight(Unescape(s).value) <= |s|
  {
    if s != [] {
      var n := if s[0] == PERCENT then 3 else 1;
      assert forall k :: 0 <= k < |s| - n ==> s[n..][k] == s[n + k];
      UnescapeShrinks(s[n..]);
      var v := Unescape(s).value;
      assert v[1..] == Unescape(s[n..]).value;
      EscapeByteIsValue(v[0]);
    }
  }

  lemma LossyShrinks(s: Text)
    requires AllValues(s) && Unescape(s).Some?
    ensures |Lossy(Unescape(s).value)| <= |s|
  {
    UnescapeShrinks(s);
    LossyLength(Unescape(s).value);
  }

  /** What is decoded so far, in front of what the rest decodes to. */
  function After(decoded: Text, rest: Option<Text>): Option<Text> {
    if rest.Some? then Some(decoded + rest.value) else None
  }

  lemma AfterStep(decoded: Text, b: Byte, rest: Option<Text>)
    ensures After(decoded, After([b], rest)) == After(decoded + [b], rest)
    ensures After([], rest) == rest
  {
    if rest.Some? {
      assert decoded + ([b] + rest.value) == decoded + [b] + rest.value;
      assert [] + rest.value == rest.value;
    }
  }

  /** Reading from the front: a byte that is no percent sign stands for itself. */
  lemma UnescapePlain(b: Byte, rest: Text)
    requires b != PERCENT
    ensures Unescape([b] + rest) == After([b], Unescape(rest))
  {
    assert ([b] + rest)[0] == b && ([b] + rest)[1..] == rest;
  }

  /** Two hex digits after a percent sign stand with it for the byte they denote, high digit
      first; a percent sign without them spoils the text. */
  lemma UnescapeEscaped(h: Byte, l: Byte, rest: Text)
    ensures Unescape([PERCENT, h, l] + rest) ==
      if HexDigit(h).Some? && HexDigit(l).Some? then
        After([16 * HexDigit(h).value + HexDigit(l).value], Unescape(rest))
      else None
    ensures Unescape([PERCENT]) == None && Unescape([PERCENT, h]) == None && Unescape([]) == Some([])
  {
    hide HexDigit;
    var s := [PERCENT, h, l] + rest;
    assert s[0] == PERCENT && s[1] == h && s[2] == l && s[3..] == rest;
  }

  method PercentDecode(input: Text) returns (r: Option<Text>)
    ensures r == if Unescape(input).Some? then Some(Lossy(Unescape(input).value)) else None
  {
    var decoded: Text := [];
    var i := 0;
    AfterStep([], 0, Unescape(input));
    assert input[0..] == input;
    while i < |input|
      invariant i <= |input|
      invariant Unescape(input) == After(decoded, Unescape(input[i..]))
    {
      ghost var todo := input[i..];
      if input[i] == PERCENT {
        if i + 2 >= |input| {
          return None;
        }
        assert todo[1] == input[i + 1] && todo[2] == input[i + 2];
        var h, l := HexDigit(input[i + 1]), HexDigit(input[i + 2]);
        if h.None? || l.None? {
          return None;
        }
        assert todo[3..] == input[i + 3..];
        AfterStep(decoded, h.value * 16 + l.value, Unescape(input[i + 3..]));
        decoded := decoded + [h.value * 16 + l.value];
        i := i + 3;
      } else {
        assert todo[1..] == input[i + 1..];
        AfterStep(decoded, input[i], Unescape(input[i + 1..]));
        decoded := decoded + [input[i]];
        i := i + 1;
      }
    }
    assert input[i..] == [] && decoded + [] == decoded;
    r := Some(Lossy(decoded));
  }

  method HasValidPercentEncoding(input: Text) returns (valid: bool)
    ensures valid <==> Unescape(input).Some?
  {
    var i := 0;
    while i < |input|
      invariant i <= |input|
      invariant Unescape(input).Some? <==> Unescape(input[i..]).Some?
    {
      ghost var todo := input[i..];
      if input[i] == PERCENT {
        if i + 2 >= |input| || HexDigit(input[i + 1]).None? || HexDigit(input[i + 2]).None? {
          return false;
        }
        assert todo[3..] == input[i + 3..];
        i := i + 3;
      } else {
        assert todo[1..] == input[i + 1..];
        i := i + 1;
      }
    }
    valid := true;
  }

  /** Appends to `output`, as the source's `&mut String` is grown. */
  lemma EscapePush(v: Text, b: Byte)
    ensures Escape(v + [b]) == Escape(v) + EscapeByte(b)
  {
    EscapeAppend(v, [b]);
    assert Escape([b]) == EscapeByte(b) + Escape([]) by { assert [b][1..] == []; }
  }

  method EncodeValue(value: Text, output: Text) returns (r: Text)
    ensures r == output + Escape(value)
  {
    assert Escape([]) == [];
    hide Escape, Literal, HexByte;
    r := output;
    for i := 0 to |value|
      invariant r == output + Escape(value[..i])
    {
      var b := value[i];
      EscapePush(value[..i], b);
      assert value[..i + 1] == value[..i] + [b];
      if Literal(b) {
        r := r + [b];
      } else {
        r := r + [PERCENT] + [HexByte(b / 16)] + [HexByte(b % 16)];
      }
    }
    assert value[..|value|] == value;
  }
}
