/** The `traceparent` header: lowercase hex coding and the fixed layout of section 3.2 of
    W3C Trace Context. */
module TraceParent {
  import opened Bytes

  const TRACEPARENT_LEN: nat := 55

  // ----- hex -----

  function Digit(d: nat): Byte
    requires d < 16
  {
    if d < 10 then 0x30 + d else 0x61 + d - 10
  }

  function Hex(bytes: Text): (r: Text)
    ensures |r| == 2 * |bytes|
  {
    if bytes == [] then [] else [Digit(bytes[0] / 16), Digit(bytes[0] % 16)] + Hex(bytes[1..])
  }

  /** `decode_hex_nibble`: the inverse of `Digit`, so uppercase digits have none. */
  function Nibble(c: Byte): (r: Option<nat>)
    ensures r.Some? ==> r.value < 16 && Digit(r.value) == c
    ensures r.None? ==> forall d: nat :: d < 16 ==> Digit(d) != c
  {
    if 0x30 <= c <= 0x39 then Some(c - 0x30)
    else if 0x61 <= c <= 0x66 then Some(c - 0x61 + 10)
    else None
  }

  /** `0` to `9` denote 0 to 9 and `a` to `f` denote 10 to 15; capital letters denote nothing. */
  lemma DigitsAre(k: nat)
    ensures k < 10 ==> Digit(k) == 0x30 + k && Nibble(0x30 + k) == Some(k)
    ensures k < 6 ==> Digit(10 + k) == 0x61 + k && Nibble(0x61 + k) == Some(10 + k) && Nibble(0x41 + k) == None
  {
  }

  /** The high digit of a byte comes before its low one. */
  lemma ByteHex(high: nat, low: nat)
    requires high < 16 && low < 16
    ensures Hex([16 * high + low]) == [Digit(high), Digit(low)]
  {
    var b := 16 * high + low;
    assert b / 16 == high && b % 16 == low && [b][1..] == [];
  }

  lemma {:induction false} HexAt(bytes: Text, i: nat)
    requires i < |bytes|
    ensures Hex(bytes)[2 * i] == Digit(bytes[i] / 16) && Hex(bytes)[2 * i + 1] == Digit(bytes[i] % 16)
  {
    if i > 0 { HexAt(bytes[1..], i - 1); }
  }

  lemma {:induction false} HexPush(bytes: Text, b: Byte)
    ensures Hex(bytes + [b]) == Hex(bytes) + [Digit(b / 16), Digit(b % 16)]
  {
    if bytes != [] {
      HexPush(bytes[1..], b);
      assert (bytes + [b])[1..] == bytes[1..] + [b];
    }
  }

  lemma ByteOfDigits(a: Byte, b: Byte)
    requires Digit(a / 16) == Digit(b / 16) && Digit(a % 16) == Digit(b % 16)
    ensures a == b
  {
  }

  lemma HexInjective(a: Text, b: Text)
    requires Hex(a) == Hex(b)
    ensures a == b
  {
    assert |a| == |b|;
    forall i | 0 <= i < |a| ensures a[i] == b[i] {
      HexAt(a, i);
      HexAt(b, i);
      ByteOfDigits(a[i], b[i]);
    }
  }

  lemma NoHex()
    ensures Hex([]) == []
  {
  }

  method EncodeHex(bytes: Text, output: Text) returns (r: Text)
    ensures r == output + Hex(bytes)
  {
    r := output;
    for i := 0 to |bytes|
      invariant r == output + Hex(bytes[..i])
    {
      HexPush(bytes[..i], bytes[i]);
      assert bytes[..i + 1] == bytes[..i] + [bytes[i]];
      r := r + [Digit(bytes[i] / 16)];
      r := r + [Digit(bytes[i] % 16)];
    }
    assert bytes[..|bytes|] == bytes;
  }

  /** Decoding finds the `n` bytes that encode to the input, or there are none. */
  method DecodeHex(input: Text, n: nat) returns (r: Option<Text>)
    ensures r.Some? ==> |r.value| == n && Hex(r.value) == input
    ensures r.None? ==> forall bytes: Text :: |bytes| == n ==> Hex(bytes) != input
  {
    if |input| != 2 * n {
      return None;
    }
    hide Hex, Nibble;
    assert Hex([]) == [] by { NoHex(); }
    var bytes := new Byte[n](_ => 0);
    for i := 0 to n
      invariant Hex(bytes[..i]) == input[..2 * i]
    {
      var hi, lo := Nibble(input[2 * i]), Nibble(input[2 * i + 1]);
      if hi.None? || lo.None? {
        NotHex(input, n, i);
        return None;
      }
      ghost var before := bytes[..i];
      bytes[i] := hi.value * 16 + lo.value;
      HexPush(before, bytes[i]);
      assert bytes[i] / 16 == hi.value && bytes[i] % 16 == lo.value;
      assert bytes[..i + 1] == before + [bytes[i]];
      assert input[..2 * (i + 1)] == input[..2 * i] + [input[2 * i], input[2 * i + 1]];
    }
    assert input[..2 * n] == input;
    r := Some(bytes[..]);
    assert bytes[..n] == bytes[..];
  }

  lemma NotHex(input: Text, n: nat, i: nat)
    requires |input| == 2 * n && i < n
    requires Nibble(input[2 * i]).None? || Nibble(input[2 * i + 1]).None?
    ensures forall bytes: Text :: |bytes| == n ==> Hex(bytes) != input
  {
    forall bytes: Text | |bytes| == n ensures Hex(bytes) != input {
      HexAt(bytes, i);
    }
  }

  // ----- layout -----

  datatype Parent = Parent(version: Byte, traceId: Text, spanId: Text, flags: Byte)

  predicate AllZero(s: Text) { forall k :: 0 <= k < |s| ==> s[k] == 0 }

  predicate IdsOk(traceId: Text, spanId: Text) {
    |traceId| == 16 && |spanId| == 8 && !AllZero(traceId) && !AllZero(spanId)
  }

  function Frame(p: Parent): (r: Text) {
    Hex([p.version]) + [DASH] + Hex(p.traceId) + [DASH] + Hex(p.spanId) + [DASH] + Hex([p.flags])
  }

  /** What may follow the four fields: nothing, or in a higher version more fields. */
  predicate TailOk(version: Byte, tail: Text) {
    tail == [] || (version != 0 && tail[0] == DASH)
  }

  ghost predicate Laid(tp: Text, p: Parent) {
    && IdsOk(p.traceId, p.spanId) && p.version != 0xFF
    && |tp| >= TRACEPARENT_LEN && tp[..TRACEPARENT_LEN] == Frame(p) && TailOk(p.version, tp[TRACEPARENT_LEN..])
  }

  ghost predicate IsTraceparent(tp: Text) { exists p :: Laid(tp, p) }

  /** The fields by position. */
  predicate Fields(tp: Text, v: Text, t: Text, s: Text, f: Text) {
    && |tp| >= TRACEPARENT_LEN
    && tp[0..2] == v && tp[2] == DASH && tp[3..35] == t && tp[35] == DASH
    && tp[36..52] == s && tp[52] == DASH && tp[53..55] == f
  }

  lemma FieldsOfFrame(tp: Text, v: Text, t: Text, s: Text, f: Text)
    requires |v| == 2 && |t| == 32 && |s| == 16 && |f| == 2 && |tp| >= TRACEPARENT_LEN
    ensures tp[..TRACEPARENT_LEN] == v + [DASH] + t + [DASH] + s + [DASH] + f <==> Fields(tp, v, t, s, f)
  {
    var frame := v + [DASH] + t + [DASH] + s + [DASH] + f;
    assert frame[0..2] == v && frame[2] == DASH && frame[3..35] == t && frame[35] == DASH;
    assert frame[36..52] == s && frame[52] == DASH && frame[53..55] == f;
    var head := tp[..TRACEPARENT_LEN];
    assert head == tp[0..2] + [tp[2]] + tp[3..35] + [tp[35]] + tp[36..52] + [tp[52]] + tp[53..55];
    assert head[0..2] == tp[0..2] && head[3..35] == tp[3..35] && head[36..52] == tp[36..52] &&
      head[53..55] == tp[53..55];
  }

  lemma LaidByFields(tp: Text, p: Parent)
    requires |tp| >= TRACEPARENT_LEN
    ensures Laid(tp, p) <==>
      && IdsOk(p.traceId, p.spanId) && p.version != 0xFF && TailOk(p.version, tp[TRACEPARENT_LEN..])
      && Fields(tp, Hex([p.version]), Hex(p.traceId), Hex(p.spanId), Hex([p.flags]))
  {
    if IdsOk(p.traceId, p.spanId) {
      FieldsOfFrame(tp, Hex([p.version]), Hex(p.traceId), Hex(p.spanId), Hex([p.flags]));
    }
  }

  /** The layout, byte by byte: version, trace id, span id and flags between dashes; version ff
      and zero ids are out; version 00 ends there, a higher one may go on behind a dash. */
  lemma LaidIff(tp: Text, p: Parent)
    ensures Laid(tp, p) <==>
      && |tp| >= 55 && tp[2] == DASH && tp[35] == DASH && tp[52] == DASH
      && tp[0..2] == Hex([p.version]) && tp[3..35] == Hex(p.traceId) && tp[36..52] == Hex(p.spanId)
      && tp[53..55] == Hex([p.flags])
      && |p.traceId| == 16 && (exists i :: 0 <= i < 16 && p.traceId[i] != 0)
      && |p.spanId| == 8 && (exists i :: 0 <= i < 8 && p.spanId[i] != 0)
      && p.version != 0xFF && (|tp| > 55 ==> p.version != 0 && tp[55] == DASH)
  {
    hide Hex;
    if |tp| >= 55 { LaidByFields(tp, p); }
  }

  /** A header can be read in one way only. */
  lemma LaidOnce(tp: Text, p: Parent, q: Parent)
    requires Laid(tp, p) && Laid(tp, q)
    ensures p == q
  {
    LaidByFields(tp, p);
    LaidByFields(tp, q);
    hide Fields, Hex;
    FieldsAgree(tp, p, q);
    HexInjective([p.version], [q.version]);
    HexInjective(p.traceId, q.traceId);
    HexInjective(p.spanId, q.spanId);
    HexInjective([p.flags], [q.flags]);
    assert [p.version][0] == [q.version][0] && [p.flags][0] == [q.flags][0];
  }

  lemma FieldsAgree(tp: Text, p: Parent, q: Parent)
    requires Fields(tp, Hex([p.version]), Hex(p.traceId), Hex(p.spanId), Hex([p.flags]))
    requires Fields(tp, Hex([q.version]), Hex(q.traceId), Hex(q.spanId), Hex([q.flags]))
    ensures Hex([p.version]) == Hex([q.version]) && Hex(p.traceId) == Hex(q.traceId)
    ensures Hex(p.spanId) == Hex(q.spanId) && Hex([p.flags]) == Hex([q.flags])
  {
    hide Hex;
  }

  /** The checks that extraction makes, one after the other. */
  method ParseTraceparent(tp: Text) returns (r: Option<Parent>)
    ensures r.Some? ==> Laid(tp, r.value)
    ensures r.None? ==> !IsTraceparent(tp)
  {
    hide Hex, Laid;
    if |tp| < TRACEPARENT_LEN {
      assert !IsTraceparent(tp) by { TooShort(tp); }
      return None;
    }
    Readings(tp);
    if tp[2] != DASH || tp[35] != DASH || tp[52] != DASH {
      return None;
    }
    var version := DecodeHex(tp[0..2], 1);
    if version.None? {
      assert forall p: Parent :: |[p.version]| == 1;
      return None;
    }
    var v := version.value[0];
    assert version.value == [v];
    OneVersion(tp, v);
    if v == 0xFF {
      return None;
    }
    if v == 0 && |tp| != TRACEPARENT_LEN {
      return None;
    }
    if |tp| > TRACEPARENT_LEN && tp[TRACEPARENT_LEN] != DASH {
      return None;
    }
    var traceId := DecodeHex(tp[3..35], 16);
    if traceId.None? {
      return None;
    }
    var spanId := DecodeHex(tp[36..52], 8);
    if spanId.None? {
      return None;
    }
    var flags := DecodeHex(tp[53..55], 1);
    if flags.None? {
      return None;
    }
    var p := Parent(v, traceId.value, spanId.value, flags.value[0]);
    assert flags.value == [p.flags];
    if AllZero(traceId.value) {
      OneIds(tp, p);
      return None;
    }
    if AllZero(spanId.value) {
      OneIds(tp, p);
      return None;
    }
    r := Some(p);
    LaidByFields(tp, p);
  }

  lemma TooShort(tp: Text)
    requires |tp| < TRACEPARENT_LEN
    ensures !IsTraceparent(tp)
  {
  }

  lemma Readings(tp: Text)
    requires |tp| >= TRACEPARENT_LEN
    ensures forall p :: Laid(tp, p) ==>
      && IdsOk(p.traceId, p.spanId) && p.version != 0xFF && TailOk(p.version, tp[TRACEPARENT_LEN..])
      && Fields(tp, Hex([p.version]), Hex(p.traceId), Hex(p.spanId), Hex([p.flags]))
  {
    forall p | Laid(tp, p)
      ensures IdsOk(p.traceId, p.spanId) && p.version != 0xFF && TailOk(p.version, tp[TRACEPARENT_LEN..])
      ensures Fields(tp, Hex([p.version]), Hex(p.traceId), Hex(p.spanId), Hex([p.flags]))
    {
      LaidByFields(tp, p);
    }
  }

  lemma OneVersion(tp: Text, v: Byte)
    requires |tp| >= TRACEPARENT_LEN && tp[0..2] == Hex([v])
    ensures forall p :: Laid(tp, p) ==> p.version == v
  {
    forall p | Laid(tp, p) ensures p.version == v {
      LaidByFields(tp, p);
      HexInjective([p.version], [v]);
      assert [p.version][0] == [v][0];
    }
  }

  lemma OneIds(tp: Text, q: Parent)
    requires |tp| >= TRACEPARENT_LEN && tp[3..35] == Hex(q.traceId) && tp[36..52] == Hex(q.spanId)
    ensures forall p :: Laid(tp, p) ==> p.traceId == q.traceId && p.spanId == q.spanId
  {
    forall p | Laid(tp, p) ensures p.traceId == q.traceId && p.spanId == q.spanId {
      LaidByFields(tp, p);
      HexInjective(p.traceId, q.traceId);
      HexInjective(p.spanId, q.spanId);
    }
  }
}
