/** UTF-8 as section 4 of RFC 3629 defines it, and the replacement of what is not UTF-8. */
module Utf8 {
  import opened Bytes

  predicate Tail(b: Byte) { 0x80 <= b <= 0xBF }

  /** Length announced by a leading byte, 0 when no character starts with it. */
  function Announced(lead: Byte): nat {
    if lead < 0x80 then 1
    else if 0xC2 <= lead <= 0xDF then 2
    else if 0xE0 <= lead <= 0xEF then 3
    else if 0xF0 <= lead <= 0xF4 then 4
    else 0
  }

  /** The second byte's range is narrower after E0, ED, F0 and F4. */
  predicate SecondOk(lead: Byte, b: Byte) {
    if lead == 0xE0 then 0xA0 <= b <= 0xBF
    else if lead == 0xED then 0x80 <= b <= 0x9F
    else if lead == 0xF0 then 0x90 <= b <= 0xBF
    else if lead == 0xF4 then 0x80 <= b <= 0x8F
    else Tail(b)
  }

  /** The bytes after the first, as far as they go, suit the first. */
  predicate Suits(p: Text) {
    && p != [] && |p| <= Announced(p[0])
    && (|p| > 1 ==> SecondOk(p[0], p[1]))
    && (|p| > 2 ==> Tail(p[2]))
    && (|p| > 3 ==> Tail(p[3]))
  }

  /** One encoded character. */
  predicate IsChar(c: Text) { Suits(c) && |c| == Announced(c[0]) }

  /** Length of the character `s` begins with, 0 when it begins with none. */
  function CharLen(s: Text): (n: nat)
    ensures n <= |s|
    ensures n > 0 ==> IsChar(s[..n])
  {
    if s != [] && Announced(s[0]) <= |s| && IsChar(s[..Announced(s[0])]) then Announced(s[0]) else 0
  }

  predicate WellFormed(s: Text)
    decreases |s|
  {
    s == [] || (CharLen(s) > 0 && WellFormed(s[CharLen(s)..]))
  }

  lemma CharLenOfChar(c: Text, rest: Text)
    requires IsChar(c)
    ensures CharLen(c + rest) == |c|
  {
    assert (c + rest)[..|c|] == c;
  }

  lemma WellFormedCons(c: Text, rest: Text)
    requires IsChar(c)
    ensures WellFormed(c + rest) <==> WellFormed(rest)
  {
    CharLenOfChar(c, rest);
    assert (c + rest)[|c|..] == rest;
  }

  lemma {:induction false} AsciiIsWellFormed(s: Text)
    requires forall k :: 0 <= k < |s| ==> s[k] < 0x80
    ensures WellFormed(s)
  {
    if s != [] {
      AsciiIsWellFormed(s[1..]);
      WellFormedCons([s[0]], s[1..]);
      assert [s[0]] + s[1..] == s;
    }
  }

  lemma {:induction false} WellFormedAppend(a: Text, b: Text)
    requires WellFormed(a) && WellFormed(b)
    ensures WellFormed(a + b)
    decreases |a|
  {
    hide CharLen, IsChar;
    if a == [] {
      assert a + b == b;
    } else {
      var c, rest := a[..CharLen(a)], a[CharLen(a)..];
      WellFormedAppend(rest, b);
      WellFormedCons(c, rest + b);
      assert a + b == c + (rest + b);
    }
  }

  lemma {:induction false} JoinWellFormed(parts: seq<Text>, sep: Byte)
    requires sep < 0x80 && forall k :: 0 <= k < |parts| ==> WellFormed(parts[k])
    ensures WellFormed(Join(parts, sep))
  {
    hide CharLen;
    if |parts| > 1 {
      JoinWellFormed(parts[1..], sep);
      AsciiIsWellFormed([sep]);
      WellFormedAppend(parts[0], [sep]);
      WellFormedAppend(parts[0] + [sep], Join(parts[1..], sep));
    }
  }

  // ----- code points -----

  /** Unicode scalar values: code points without the surrogates. */
  predicate Scalar(u: nat) { u <= 0x10FFFF && !(0xD800 <= u <= 0xDFFF) }

  /** Section 3 of RFC 3629. */
  function Encode(u: nat): Text
    requires Scalar(u)
  {
    if u < 0x80 then [u]
    else if u < 0x800 then [0xC0 + u / 64, Low(u)]
    else if u < 0x1_0000 then [0xE0 + u / 64 / 64, Low(u / 64), Low(u)]
    else [0xF0 + u / 64 / 64 / 64, Low(u / 64 / 64), Low(u / 64), Low(u)]
  }

  /** A tail byte with the low six bits. */
  function Low(u: nat): Byte { 0x80 + u % 64 }

  function CodePoint(c: Text): int
    requires IsChar(c)
  {
    if |c| == 1 then c[0]
    else if |c| == 2 then Shifted(c[0] as int - 0xC0, c[1])
    else if |c| == 3 then Shifted(Shifted(c[0] as int - 0xE0, c[1]), c[2])
    else Shifted(Shifted(Shifted(c[0] as int - 0xF0, c[1]), c[2]), c[3])
  }

  function Shifted(high: int, tail: Byte): int { high * 64 + (tail as int - 0x80) }

  lemma ShiftedLow(u: nat)
    ensures Tail(Low(u)) && Shifted(u / 64, Low(u)) == u
  {
  }

  lemma LowShifted(high: nat, tail: Byte)
    requires Tail(tail)
    ensures Shifted(high, tail) >= 0 && Shifted(high, tail) / 64 == high && Low(Shifted(high, tail)) == tail
  {
  }

  lemma EncodesChar(u: nat)
    requires Scalar(u)
    ensures IsChar(Encode(u)) && CodePoint(Encode(u)) == u
  {
    ShiftedLow(u);
    ShiftedLow(u / 64);
    ShiftedLow(u / 64 / 64);
    hide Shifted;
  }

  lemma TwoEncode(a: Byte, b: Byte)
    requires 0xC2 <= a <= 0xDF && Tail(b)
    ensures var u := Shifted(a as int - 0xC0, b); 0x80 <= u < 0x800 && Encode(u) == [a, b]
  {
    LowShifted(a as int - 0xC0, b);
    hide Low;
  }

  lemma ThreeEncode(a: Byte, b: Byte, c: Byte)
    requires 0xE0 <= a <= 0xEF && SecondOk(a, b) && Tail(c)
    ensures var u := Shifted(Shifted(a as int - 0xE0, b), c);
      0x800 <= u < 0x1_0000 && !(0xD800 <= u <= 0xDFFF) && Encode(u) == [a, b, c]
  {
    LowShifted(a as int - 0xE0, b);
    LowShifted(Shifted(a as int - 0xE0, b), c);
    hide Low;
  }

  lemma FourEncode(a: Byte, b: Byte, c: Byte, d: Byte)
    requires 0xF0 <= a <= 0xF4 && SecondOk(a, b) && Tail(c) && Tail(d)
    ensures var u := Shifted(Shifted(Shifted(a as int - 0xF0, b), c), d);
      0x1_0000 <= u <= 0x10FFFF && Encode(u) == [a, b, c, d]
  {
    LowShifted(a as int - 0xF0, b);
    LowShifted(Shifted(a as int - 0xF0, b), c);
    LowShifted(Shifted(Shifted(a as int - 0xF0, b), c), d);
    hide Low;
  }

  lemma CharEncodes(c: Text)
    requires IsChar(c)
    ensures CodePoint(c) >= 0 && Scalar(CodePoint(c)) && Encode(CodePoint(c)) == c
  {
    if |c| == 2 {
      TwoEncode(c[0], c[1]);
    } else if |c| == 3 {
      ThreeEncode(c[0], c[1], c[2]);
    } else if |c| == 4 {
      FourEncode(c[0], c[1], c[2], c[3]);
    }
    hide Shifted;
  }

  function EncodeAll(us: seq<nat>): Text
    requires forall u :: u in us ==> Scalar(u)
  {
    if us == [] then [] else Encode(us[0]) + EncodeAll(us[1..])
  }

  ghost predicate EncodesTo(us: seq<nat>, s: Text) {
    (forall u :: u in us ==> Scalar(u)) && EncodeAll(us) == s
  }

  /** Well-formed text is what encodes scalar values. */
  lemma {:induction false} WellFormedIff(s: Text)
    ensures WellFormed(s) <==> exists us :: EncodesTo(us, s)
  {
    if WellFormed(s) {
      var us := Decoded(s);
      assert EncodesTo(us, s);
    }
    forall us | EncodesTo(us, s) ensures WellFormed(s) {
      EncodedIsWellFormed(us);
    }
  }

  lemma {:induction false} Decoded(s: Text) returns (us: seq<nat>)
    requires WellFormed(s)
    ensures EncodesTo(us, s)
    decreases |s|
  {
    hide IsChar, CodePoint, Encode;
    if s == [] {
      us := [];
    } else {
      var c, rest := s[..CharLen(s)], s[CharLen(s)..];
      CharEncodes(c);
      var more := Decoded(rest);
      us := [CodePoint(c)] + more;
      assert us[1..] == more && s == c + rest;
    }
  }

  lemma {:induction false} EncodedIsWellFormed(us: seq<nat>)
    requires forall u :: u in us ==> Scalar(u)
    ensures WellFormed(EncodeAll(us))
  {
    hide IsChar, Encode, CharLen;
    if us != [] {
      EncodedIsWellFormed(us[1..]);
      EncodesChar(us[0]);
      WellFormedCons(Encode(us[0]), EncodeAll(us[1..]));
    }
  }

  // ----- ill-formed input -----

  /** How many bytes one replacement character stands for, where no character begins. */
  function SubpartLen(s: Text): (n: nat)
    requires s != [] && CharLen(s) == 0
    ensures 1 <= n <= |s|
  {
    if Announced(s[0]) == 0 || |s| == 1 || !SecondOk(s[0], s[1]) then 1
    else if |s| == 2 || !Tail(s[2]) then 2
    else 3
  }

  ghost predicate BeginsSomeChar(p: Text) {
    exists c :: IsChar(c) && p <= c
  }

  lemma SuitsIff(p: Text)
    requires p != []
    ensures BeginsSomeChar(p) <==> Suits(p)
  {
    if Suits(p) {
      var second := if p[0] == 0xE0 then 0xA0 else if p[0] == 0xF0 then 0x90 else 0x80;
      var full := p + (if |p| == 1 then [second, 0x80, 0x80] else [0x80, 0x80]);
      assert IsChar(full[..Announced(p[0])]) && p <= full[..Announced(p[0])];
    }
  }

  /** A replaced stretch is the maximal subpart: the longest one that begins some character,
      or a single byte when none does. */
  lemma SubpartIsMaximal(s: Text)
    requires s != [] && CharLen(s) == 0
    ensures SubpartLen(s) == 1 || BeginsSomeChar(s[..SubpartLen(s)])
    ensures forall m :: SubpartLen(s) < m <= |s| ==> !BeginsSomeChar(s[..m])
  {
    SuitsIff(s[..SubpartLen(s)]);
    forall m | SubpartLen(s) < m <= |s| ensures !BeginsSomeChar(s[..m]) {
      SuitsIff(s[..m]);
      assert m == Announced(s[0]) ==> s[..m] == s[..Announced(s[0])];
    }
  }

  const REPLACEMENT: Text := [0xEF, 0xBF, 0xBD]

  lemma ReplacementIsFFFD()
    ensures Encode(0xFFFD) == REPLACEMENT
  {
  }

  /** Every ill-formed maximal subpart replaced by U+FFFD. */
  function Lossy(s: Text): Text
    decreases |s|
  {
    if s == [] then []
    else if CharLen(s) > 0 then s[..CharLen(s)] + Lossy(s[CharLen(s)..])
    else REPLACEMENT + Lossy(s[SubpartLen(s)..])
  }

  lemma {:induction false} LossyIsWellFormed(s: Text)
    ensures WellFormed(Lossy(s))
    decreases |s|
  {
    if s != [] {
      if CharLen(s) > 0 {
        LossyIsWellFormed(s[CharLen(s)..]);
        WellFormedCons(s[..CharLen(s)], Lossy(s[CharLen(s)..]));
      } else {
        LossyIsWellFormed(s[SubpartLen(s)..]);
        assert IsChar(REPLACEMENT);
        WellFormedCons(REPLACEMENT, Lossy(s[SubpartLen(s)..]));
      }
    }
  }

  lemma {:induction false} LossyKeepsWellFormed(s: Text)
    ensures Lossy(s) == s <==> WellFormed(s)
    decreases |s|
  {
    if WellFormed(s) && s != [] {
      LossyKeepsWellFormed(s[CharLen(s)..]);
      assert s == s[..CharLen(s)] + s[CharLen(s)..];
    } else {
      LossyIsWellFormed(s);
    }
  }

  /** Bytes outside ASCII count three times. */
  function Weight(s: Text): nat {
    if s == [] then 0 else (if s[0] < 0x80 then 1 else 3) + Weight(s[1..])
  }

  lemma {:induction false} WeightAppend(a: Text, b: Text)
    ensures Weight(a + b) == Weight(a) + Weight(b)
  {
    if a == [] {
      assert a + b == b;
    } else {
      WeightAppend(a[1..], b);
      assert (a + b)[1..] == a[1..] + b;
    }
  }

  lemma {:induction false} WeightBounds(s: Text)
    ensures |s| <= Weight(s) <= 3 * |s|
  {
    if s != [] { WeightBounds(s[1..]); }
  }

  lemma IllFormedIsNotAscii(s: Text)
    requires s != [] && CharLen(s) == 0
    ensures s[0] >= 0x80 && Weight(s[..SubpartLen(s)]) >= 3
  {
    assert s[0] < 0x80 ==> s[..1] == [s[0]] && IsChar([s[0]]);
  }

  lemma {:induction false} LossyLength(s: Text)
    ensures |Lossy(s)| <= Weight(s) <= 3 * |s|
    decreases |s|
  {
    WeightBounds(s);
    if s != [] {
      var n := if CharLen(s) > 0 then CharLen(s) else SubpartLen(s);
      LossyLength(s[n..]);
      WeightAppend(s[..n], s[n..]);
      WeightBounds(s[..n]);
      assert s == s[..n] + s[n..];
      if CharLen(s) == 0 { IllFormedIsNotAscii(s); }
    }
  }

  // ----- the fallible copy of C-controlled bytes -----

  /** `std::str::from_utf8`'s `valid_up_to`. */
  function ValidUpTo(s: Text): (n: nat)
    ensures n <= |s|
    ensures WellFormed(s[..n])
    ensures n < |s| ==> CharLen(s[n..]) == 0
    decreases |s|
  {
    if CharLen(s) == 0 then 0
    else
      var c, rest := s[..CharLen(s)], s[CharLen(s)..];
      var m := ValidUpTo(rest);
      WellFormedCons(c, rest[..m]);
      assert s[..|c| + m] == c + rest[..m];
      assert s[|c| + m..] == rest[m..];
      |c| + m
  }

  /** `error_len`: nothing when the input ends inside a character. */
  function ErrorLen(s: Text): (r: Option<nat>)
    requires s != [] && CharLen(s) == 0
    ensures r == None ==> SubpartLen(s) == |s|
    ensures r.Some? ==> r.value == SubpartLen(s)
  {
    if SubpartLen(s) == |s| && |s| < Announced(s[0]) then None else Some(SubpartLen(s))
  }

  lemma LossyCons(c: Text, rest: Text)
    requires IsChar(c)
    ensures Lossy(c + rest) == c + Lossy(rest)
  {
    CharLenOfChar(c, rest);
    assert (c + rest)[..|c|] == c && (c + rest)[|c|..] == rest;
  }

  lemma {:induction false} LossyAppend(a: Text, b: Text)
    requires WellFormed(a)
    ensures Lossy(a + b) == a + Lossy(b)
    decreases |a|
  {
    hide CharLen, IsChar, Lossy;
    if a == [] {
      assert a + b == b;
    } else {
      var c, rest := a[..CharLen(a)], a[CharLen(a)..];
      LossyAppend(rest, b);
      LossyCons(c, rest + b);
      assert a + b == c + (rest + b);
    }
  }

  lemma LossySubpart(s: Text)
    requires s != [] && CharLen(s) == 0
    ensures Lossy(s) == REPLACEMENT + Lossy(s[SubpartLen(s)..])
  {
  }

  lemma LossyEmpty()
    ensures Lossy([]) == []
  {
  }

  /** The fallible twin of `from_utf8_lossy`: it terminates and replaces the same stretches. */
  method TryOwnedStringLossy(bytes: Text) returns (out: Text)
    ensures out == Lossy(bytes)
  {
    hide CharLen, IsChar, Lossy, SubpartLen, WellFormed;
    LossyEmpty();
    out := [];
    var rest := bytes;
    ghost var todo := Lossy(bytes);
    while true
      invariant todo == Lossy(rest) && Lossy(bytes) == out + todo
      decreases |rest|
    {
      var good := ValidUpTo(rest);
      var valid, tail := rest[..good], rest[good..];
      assert rest == valid + tail;
      LossyAppend(valid, tail);
      assert out + (valid + Lossy(tail)) == (out + valid) + Lossy(tail);
      out := out + valid;
      if good == |rest| {
        assert tail == [] && out + [] == out;
        return;
      }
      LossySubpart(tail);
      var bad := ErrorLen(tail);
      todo := Lossy(tail[SubpartLen(tail)..]);
      assert out + (REPLACEMENT + todo) == (out + REPLACEMENT) + todo;
      out := out + REPLACEMENT;
      if bad.None? {
        assert tail[SubpartLen(tail)..] == [] && out + [] == out;
        return;
      }
      rest := tail[bad.value..];
    }
  }
}
