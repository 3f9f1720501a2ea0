/** Parsing and printing one baggage list member. */
module BaggageMember {
  import opened Bytes
  import opened Utf8
  import opened BaggageCodec

  datatype Entry = Entry(key: Text, value: Text, metadata: Text)

  /** A trimmed property: a token, or a token and a percent-coded value. */
  predicate PropertyOk(p: Text) {
    var i := IndexOf(p, EQUALS);
    && i > 0 && AllTokens(p[..i])
    && (i < |p| ==> AllValues(p[i + 1..]) && Unescape(p[i + 1..]).Some?)
  }

  function TrimAll(parts: seq<Text>): (r: seq<Text>)
    ensures |r| == |parts|
  {
    seq(|parts|, k requires 0 <= k < |parts| => Trim(parts[k]))
  }

  predicate PropertiesOk(parts: seq<Text>) {
    forall k :: 0 <= k < |parts| ==> PropertyOk(Trim(parts[k]))
  }

  /** The pair before the first `;`, split at its first `=`. */
  function PairOf(member: Text): Option<(Text, Text)> {
    var pair := Trim(Split(member, SEMICOLON)[0]);
    var eq := IndexOf(pair, EQUALS);
    if eq == |pair| then None else Some((Trim(pair[..eq]), Trim(pair[eq + 1..])))
  }

  /** What a member means, if it means anything. */
  function MemberOf(member: Text): Option<Entry> {
    var parts, pair := Split(member, SEMICOLON), PairOf(member);
    if pair.None? then None
    else
      var (key, raw) := pair.value;
      if key == [] || !AllTokens(key) || !AllValues(raw) || Unescape(raw).None? || !PropertiesOk(parts[1..]) then None
      else Some(Entry(key, Lossy(Unescape(raw).value), Join(TrimAll(parts[1..]), SEMICOLON)))
  }

  /** Metadata as extraction leaves it: properties trimmed and rejoined. */
  function Normal(metadata: Text): Text {
    if metadata == [] then [] else Join(TrimAll(Split(metadata, SEMICOLON)), SEMICOLON)
  }

  function Normalized(e: Entry): Entry { e.(metadata := Normal(e.metadata)) }

  /** Printable metadata: empty, or a list of properties. */
  predicate MetadataOk(metadata: Text) {
    metadata == [] || PropertiesOk(Split(metadata, SEMICOLON))
  }

  function Suffix(metadata: Text): Text {
    if metadata == [] then [] else [SEMICOLON] + metadata
  }

  /** A member as it goes on the wire; entries that cannot be written have none. */
  function Printed(e: Entry): Option<Text> {
    if e.key == [] || !AllTokens(e.key) || !MetadataOk(e.metadata) then None
    else Some(e.key + [EQUALS] + Escape(e.value) + Suffix(e.metadata))
  }

  // ----- properties -----

  lemma PropertyIsSolid(p: Text)
    requires PropertyOk(p)
    ensures Solid(p) && p != [] && COMMA !in p
  {
    var i := IndexOf(p, EQUALS);
    assert forall k :: 0 <= k < i ==> p[k] == p[..i][k];
    assert forall k :: i < k < |p| ==> p[k] == p[i + 1..][k - i - 1];
    assert forall k :: 0 <= k < |p| ==> Graphic(p[k]) && p[k] != COMMA;
  }

  lemma TrimmedParts(parts: seq<Text>)
    requires PropertiesOk(parts)
    ensures PropertiesOk(TrimAll(parts)) && TrimAll(TrimAll(parts)) == TrimAll(parts)
  {
    hide PropertyOk, Trim;
    forall k | 0 <= k < |parts| ensures Trim(Trim(parts[k])) == Trim(parts[k]) {
      PropertyIsSolid(Trim(parts[k]));
      TrimSolid(Trim(parts[k]));
    }
  }

  lemma TrimKeepsSeparatorsOut(parts: seq<Text>)
    requires forall p :: p in parts ==> SEMICOLON !in p
    ensures forall p :: p in TrimAll(parts) ==> SEMICOLON !in p
  {
    hide Trim;
    forall k | 0 <= k < |parts| ensures SEMICOLON !in Trim(parts[k]) {
      assert parts[k] in parts;
      TrimDrops(parts[k], SEMICOLON);
    }
  }

  lemma SplitNormal(metadata: Text)
    requires metadata != []
    ensures Split(Normal(metadata), SEMICOLON) == TrimAll(Split(metadata, SEMICOLON))
  {
    JoinSplit(metadata, SEMICOLON);
    TrimKeepsSeparatorsOut(Split(metadata, SEMICOLON));
    SplitJoin(TrimAll(Split(metadata, SEMICOLON)), SEMICOLON);
  }

  lemma JoinNonEmpty(parts: seq<Text>)
    requires parts != [] && parts[0] != []
    ensures Join(parts, SEMICOLON) != []
  {
  }

  /** Trimming and rejoining once is enough, and keeps metadata printable. */
  lemma NormalIsIdempotent(metadata: Text)
    requires MetadataOk(metadata)
    ensures Normal(Normal(metadata)) == Normal(metadata) && MetadataOk(Normal(metadata))
    ensures Normal(metadata) == [] <==> metadata == []
  {
    hide PropertyOk, Trim;
    if metadata != [] {
      var parts := Split(metadata, SEMICOLON);
      TrimmedParts(parts);
      SplitNormal(metadata);
      PropertyIsSolid(Trim(parts[0]));
      JoinNonEmpty(TrimAll(parts));
    }
  }

  lemma {:induction false} JoinWithout(parts: seq<Text>, b: Byte)
    requires b != SEMICOLON && forall p :: p in parts ==> b !in p
    ensures b !in Join(parts, SEMICOLON)
  {
    if |parts| > 1 {
      JoinWithout(parts[1..], b);
      assert parts[0] in parts;
    } else if |parts| == 1 {
      assert parts[0] in parts;
    }
  }

  lemma MetadataHasNoComma(metadata: Text)
    requires MetadataOk(metadata)
    ensures COMMA !in metadata
  {
    hide PropertyOk, Trim;
    if metadata != [] {
      var parts := Split(metadata, SEMICOLON);
      forall p | p in parts ensures COMMA !in p {
        var k :| 0 <= k < |parts| && parts[k] == p;
        PropertyIsSolid(Trim(parts[k]));
        TrimDrops(p, COMMA);
      }
      JoinWithout(parts, COMMA);
      JoinSplit(metadata, SEMICOLON);
    }
  }

  // ----- printing, then parsing -----

  lemma TokenBytes(s: Text)
    requires AllTokens(s)
    ensures forall k :: 0 <= k < |s| ==> Graphic(s[k]) && s[k] != EQUALS && s[k] != SEMICOLON && s[k] != COMMA
  {
  }

  lemma ValueBytes(s: Text)
    requires AllValues(s)
    ensures forall k :: 0 <= k < |s| ==> Graphic(s[k]) && s[k] != SEMICOLON && s[k] != COMMA
  {
  }

  /** Printable metadata is UTF-8, its white space included. */
  lemma MetadataIsUtf8(metadata: Text)
    requires MetadataOk(metadata)
    ensures WellFormed(metadata)
  {
    hide PropertyOk, Trim, WellFormed;
    if metadata != [] {
      var parts := Split(metadata, SEMICOLON);
      forall k | 0 <= k < |parts| ensures WellFormed(parts[k]) {
        PropertyIsUtf8(Trim(parts[k]));
        PaddedIsUtf8(parts[k]);
      }
      JoinWellFormed(parts, SEMICOLON);
      JoinSplit(metadata, SEMICOLON);
    } else {
      AsciiIsWellFormed(metadata);
    }
  }

  lemma PropertyIsUtf8(p: Text)
    requires PropertyOk(p)
    ensures WellFormed(p)
  {
    var i := IndexOf(p, EQUALS);
    assert forall k :: 0 <= k < i ==> p[k] == p[..i][k];
    assert forall k :: i < k < |p| ==> p[k] == p[i + 1..][k - i - 1];
    hide WellFormed;
    AsciiIsWellFormed(p);
  }

  lemma PrintedIsUtf8(e: Entry)
    requires Printed(e).Some?
    ensures WellFormed(Printed(e).value)
  {
    MetadataIsUtf8(e.metadata);
    EscapeIsValue(e.value);
    TokenBytes(e.key);
    ValueBytes(Escape(e.value));
    hide WellFormed, Escape, MetadataOk, AllTokens, AllValues;
    var front := e.key + [EQUALS] + Escape(e.value);
    AsciiIsWellFormed(front);
    AsciiIsWellFormed([SEMICOLON]);
    WellFormedAppend([SEMICOLON], e.metadata);
    WellFormedAppend(front, Suffix(e.metadata));
    assert e.metadata == [] ==> Printed(e).value == front;
  }

  lemma PairPrinted(key: Text, raw: Text)
    requires key != [] && AllTokens(key) && AllValues(raw)
    ensures var pair := key + [EQUALS] + raw;
      && Solid(pair) && SEMICOLON !in pair && COMMA !in pair
      && IndexOf(pair, EQUALS) == |key| && pair[..|key|] == key && pair[|key| + 1..] == raw
      && Trim(key) == key && Trim(raw) == raw && Trim(pair) == pair
  {
    hide Trim;
    TokenBytes(key);
    ValueBytes(raw);
    hide AllTokens, AllValues;
    var pair := key + [EQUALS] + raw;
    IndexOfPrefix(key, EQUALS, raw);
    TrimSolid(key);
    TrimSolid(raw);
    TrimSolid(pair);
  }

  lemma SplitWhole(pair: Text)
    requires SEMICOLON !in pair
    ensures Split(pair, SEMICOLON) == [pair]
  {
    assert IndexOf(pair, SEMICOLON) == |pair|;
  }

  lemma SplitPrinted(pair: Text, metadata: Text)
    requires SEMICOLON !in pair
    ensures Split(pair + Suffix(metadata), SEMICOLON) ==
      if metadata == [] then [pair] else [pair] + Split(metadata, SEMICOLON)
  {
    if metadata == [] {
      assert pair + [] == pair;
      SplitWhole(pair);
    } else {
      hide Split;
      SplitCons(pair, metadata, SEMICOLON);
      Associates(pair, [SEMICOLON], metadata);
    }
  }

  /** How a member that has been laid out as `key=raw;metadata` parses. */
  lemma ParseLaidOut(key: Text, raw: Text, metadata: Text)
    requires key != [] && AllTokens(key) && AllValues(raw)
    ensures var m := key + [EQUALS] + raw + Suffix(metadata);
      && PairOf(m) == Some((key, raw))
      && MemberOf(m) == if Unescape(raw).Some? && MetadataOk(metadata)
           then Some(Entry(key, Lossy(Unescape(raw).value), Normal(metadata))) else None
  {
    hide Trim, Unescape, PropertyOk, AllTokens, AllValues, Solid, Split;
    var pair := key + [EQUALS] + raw;
    PairPrinted(key, raw);
    SplitPrinted(pair, metadata);
    var parts := Split(pair + Suffix(metadata), SEMICOLON);
    assert parts[0] == pair;
    if metadata == [] {
      assert parts[1..] == [];
      assert PropertiesOk([]) && TrimAll([]) == [];
    } else {
      assert parts[1..] == Split(metadata, SEMICOLON);
    }
  }

  /** Whatever can be printed is read back: key and value unchanged, metadata normalized. */
  lemma PrintedParses(e: Entry)
    requires Printed(e).Some? && WellFormed(e.value)
    ensures MemberOf(Printed(e).value) == Some(Normalized(e))
    ensures Printed(e).value != [] && COMMA !in Printed(e).value
  {
    EscapeIsValue(e.value);
    UnescapeEscape(e.value);
    LossyKeepsWellFormed(e.value);
    ParseLaidOut(e.key, Escape(e.value), e.metadata);
    PairPrinted(e.key, Escape(e.value));
    MetadataHasNoComma(e.metadata);
  }

  // ----- parsing, then printing -----

  lemma {:induction false} TrimAllShrinks(parts: seq<Text>)
    ensures |Join(TrimAll(parts), SEMICOLON)| <= |Join(parts, SEMICOLON)|
  {
    hide Trim;
    if |parts| > 1 {
      TrimAllShrinks(parts[1..]);
      assert TrimAll(parts)[1..] == TrimAll(parts[1..]);
    }
  }

  /** Sizes of what a member parses to, against the member itself. */
  lemma ParsedSizes(member: Text)
    requires MemberOf(member).Some?
    ensures var e, raw := MemberOf(member).value, PairOf(member).value.1;
      && AllValues(raw) && Unescape(raw).Some? && e.value == Lossy(Unescape(raw).value)
      && |e.key| + 1 + |raw| + |Suffix(e.metadata)| <= |member|
      && |e.key| + |e.value| + |e.metadata| < |member|
  {
    hide Trim, Unescape, PropertyOk, AllTokens, AllValues, Lossy;
    var parts, raw := Split(member, SEMICOLON), PairOf(member).value.1;
    JoinSplit(member, SEMICOLON);
    TrimAllShrinks(parts[1..]);
    LossyShrinks(raw);
    var pair := Trim(parts[0]);
    assert |pair| <= |parts[0]|;
    if |parts| > 1 {
      assert |member| == |parts[0]| + 1 + |Join(parts[1..], SEMICOLON)|;
    } else {
      assert TrimAll(parts[1..]) == [];
    }
  }

  lemma ParsedMetadata(member: Text)
    requires MemberOf(member).Some?
    ensures MetadataOk(MemberOf(member).value.metadata)
    ensures Normal(MemberOf(member).value.metadata) == MemberOf(member).value.metadata
  {
    hide Trim, Unescape, PropertyOk, AllTokens, AllValues, Lossy, Split;
    var rest := Split(member, SEMICOLON)[1..];
    if rest != [] {
      JoinSplit(member, SEMICOLON);
      assert forall p :: p in rest ==> p in Split(member, SEMICOLON);
      TrimmedParts(rest);
      TrimKeepsSeparatorsOut(rest);
      SplitJoin(TrimAll(rest), SEMICOLON);
      PropertyIsSolid(Trim(rest[0]));
      JoinNonEmpty(TrimAll(rest));
    } else {
      assert TrimAll(rest) == [];
    }
  }

  /** A parsed member can be printed again and already has its normal form. */
  lemma ParsedPrints(member: Text)
    requires MemberOf(member).Some?
    ensures var e := MemberOf(member).value;
      Printed(e).Some? && WellFormed(e.value) && Normalized(e) == e
  {
    ParsedMetadata(member);
    LossyIsWellFormed(Unescape(PairOf(member).value.1).value);
  }

  /** If the percent-decoded value is UTF-8, printing again is no longer than the member was. */
  lemma ReprintNoLonger(member: Text)
    requires MemberOf(member).Some? && WellFormed(Unescape(PairOf(member).value.1).value)
    ensures Printed(MemberOf(member).value).Some? && |Printed(MemberOf(member).value).value| <= |member|
  {
    var raw := PairOf(member).value.1;
    ParsedSizes(member);
    ParsedPrints(member);
    UnescapeShrinks(raw);
    LossyKeepsWellFormed(Unescape(raw).value);
  }

  // ----- the grammar -----

  /** `core` with white space around it. */
  ghost predicate Pads(s: Text, core: Text) {
    exists left, right :: PaddedBy(s, left, core, right)
  }

  ghost predicate PaddedBy(s: Text, left: Text, core: Text, right: Text) {
    AllSpace(left) && AllSpace(right) && s == left + core + right
  }

  /** property = key "=" value / key, without white space inside. */
  ghost predicate IsProperty(p: Text, key: Text, value: Option<Text>) {
    && key != [] && AllTokens(key)
    && match value
       case None => p == key
       case Some(v) => p == key + [EQUALS] + v && AllValues(v) && Unescape(v).Some?
  }

  ghost predicate Property(p: Text) { exists key, value :: IsProperty(p, key, value) }

  ghost predicate IsPair(pair: Text, key: Text, raw: Text) {
    exists front, back :: pair == front + [EQUALS] + back && Pads(front, key) && Pads(back, raw)
  }

  /** list-member = OWS key OWS "=" OWS value OWS *( ";" OWS property OWS ) */
  ghost predicate IsMember(member: Text, key: Text, raw: Text, properties: seq<Text>) {
    var parts := Split(member, SEMICOLON);
    && |parts| == 1 + |properties|
    && IsPair(parts[0], key, raw) && key != [] && AllTokens(key) && AllValues(raw) && Unescape(raw).Some?
    && forall k :: 0 <= k < |properties| ==> Pads(parts[1..][k], properties[k]) && Property(properties[k])
  }

  lemma PropertyIff(p: Text)
    ensures PropertyOk(p) <==> Property(p)
  {
    hide Unescape;
    var i := IndexOf(p, EQUALS);
    if PropertyOk(p) {
      if i < |p| {
        assert p == p[..i] + [EQUALS] + p[i + 1..];
        assert IsProperty(p, p[..i], Some(p[i + 1..]));
      } else {
        assert p[..i] == p;
        assert IsProperty(p, p, None);
      }
    }
    forall key, value | IsProperty(p, key, value) ensures PropertyOk(p) {
      TokenBytes(key);
      hide AllTokens, AllValues;
      match value
      case None =>
        assert EQUALS !in p;
        assert i == |p| && p[..i] == p;
      case Some(v) =>
        IndexOfPrefix(key, EQUALS, v);
        assert p[..i] == key && p[i + 1..] == v;
    }
  }

  lemma TrimPads(s: Text, core: Text)
    requires Pads(s, core) && Solid(core)
    ensures Trim(s) == core
  {
    hide AllSpace, Trim, Solid;
    var left, right :| PaddedBy(s, left, core, right);
    TrimPadded(left, core, right);
  }

  lemma PadsTrim(s: Text)
    ensures Pads(s, Trim(s))
  {
    hide AllSpace, Trim;
    var left, right := TrimParts(s);
    assert PaddedBy(s, left, Trim(s), right);
  }

  /** More padding is still padding. */
  lemma PadsMore(left: Text, s: Text, core: Text, right: Text)
    requires AllSpace(left) && AllSpace(right) && Pads(s, core)
    ensures Pads(left + s + right, core)
  {
    hide AllSpace;
    var l, r :| PaddedBy(s, l, core, r);
    AllSpaceAppend(left, l);
    AllSpaceAppend(r, right);
    assert left + s + right == (left + l) + core + (r + right);
    assert PaddedBy(left + s + right, left + l, core, r + right);
  }

  /** Trimming a pair leaves the white space around its equals sign, but for that in front of
      no value. */
  lemma TrimPair(l1: Text, key: Text, r1: Text, l2: Text, raw: Text, r2: Text)
    requires AllSpace(l1) && AllSpace(l2) && AllSpace(r2) && key != [] && Solid(key) && Solid(raw)
    ensures Trim((l1 + key + r1) + [EQUALS] + (l2 + raw + r2)) ==
      key + r1 + [EQUALS] + (if raw == [] then [] else l2 + raw)
  {
    hide AllSpace, Trim;
    var text, core := (l1 + key + r1) + [EQUALS] + (l2 + raw + r2), key + r1 + [EQUALS];
    if raw == [] {
      AllSpaceAppend(l2, r2);
      assert text == l1 + core + (l2 + r2);
      TrimPadded(l1, core, l2 + r2);
    } else {
      var longer := core + (l2 + raw);
      assert text == l1 + longer + r2;
      assert longer[|longer| - 1] == raw[|raw| - 1];
      TrimPadded(l1, longer, r2);
    }
  }

  /** Splitting at the first equals sign and trimming reads a pair in the one possible way. */
  lemma PairReads(text: Text, key: Text, raw: Text)
    requires IsPair(text, key, raw) && key != [] && AllTokens(key) && AllValues(raw)
    ensures var pair := Trim(text);
      var eq := IndexOf(pair, EQUALS);
      eq < |pair| && Trim(pair[..eq]) == key && Trim(pair[eq + 1..]) == raw
  {
    hide AllSpace, Trim;
    var front, back :| text == front + [EQUALS] + back && Pads(front, key) && Pads(back, raw);
    var l1, r1 :| PaddedBy(front, l1, key, r1);
    var l2, r2 :| PaddedBy(back, l2, raw, r2);
    TokenBytes(key);
    ValueBytes(raw);
    hide AllTokens, AllValues;
    AllSpaceWithout(r1, EQUALS);
    TrimPair(l1, key, r1, l2, raw, r2);
    var tail := if raw == [] then [] else l2 + raw;
    SplitAtEquals(Trim(text), key + r1, tail);
    TrimOneSide(key, r1);
    TrimOneSide(raw, l2);
    TrimOneSide([], r2);
    hide Pads, PaddedBy, Solid;
  }

  lemma SplitAtEquals(pair: Text, front: Text, tail: Text)
    requires pair == front + [EQUALS] + tail && EQUALS !in front
    ensures IndexOf(pair, EQUALS) == |front| && pair[..|front|] == front && pair[|front| + 1..] == tail
  {
    IndexOfPrefix(front, EQUALS, tail);
  }

  lemma TrimOneSide(core: Text, space: Text)
    requires AllSpace(space) && Solid(core)
    ensures Trim(core + space) == core && Trim(space + core) == core && Trim(core) == core
  {
    hide AllSpace, Trim;
    AllSpaceAppend(space, space);
    TrimPadded([], core, space);
    TrimPadded(space, core, []);
    TrimPadded([], core, []);
    assert [] + core + space == core + space && space + core + [] == space + core && [] + core + [] == core;
  }

  lemma PairIsRead(text: Text)
    requires var pair := Trim(text); IndexOf(pair, EQUALS) < |pair|
    ensures var pair := Trim(text);
      var eq := IndexOf(pair, EQUALS);
      IsPair(text, Trim(pair[..eq]), Trim(pair[eq + 1..]))
  {
    hide AllSpace, Trim;
    var pair := Trim(text);
    var eq := IndexOf(pair, EQUALS);
    var left, right := TrimParts(text);
    AllSpaceAppend(left, right);
    PadsTrim(pair[..eq]);
    PadsTrim(pair[eq + 1..]);
    PadsMore(left, pair[..eq], Trim(pair[..eq]), []);
    PadsMore([], pair[eq + 1..], Trim(pair[eq + 1..]), right);
    assert pair == pair[..eq] + [EQUALS] + pair[eq + 1..];
    assert text == (left + pair[..eq] + []) + [EQUALS] + ([] + pair[eq + 1..] + right);
  }

  /** The properties are read in the one possible way. */
  lemma PropertiesRead(parts: seq<Text>, properties: seq<Text>)
    requires |parts| == |properties|
    requires forall k :: 0 <= k < |properties| ==> Pads(parts[k], properties[k]) && Property(properties[k])
    ensures PropertiesOk(parts) && TrimAll(parts) == properties
  {
    hide Pads, Trim, Property, PropertyOk;
    forall k | 0 <= k < |parts| ensures Trim(parts[k]) == properties[k] && PropertyOk(properties[k]) {
      PropertyIff(properties[k]);
      PropertyIsSolid(properties[k]);
      TrimPads(parts[k], properties[k]);
    }
  }

  lemma PropertiesAreRead(parts: seq<Text>)
    requires PropertiesOk(parts)
    ensures forall k :: 0 <= k < |parts| ==> Pads(parts[k], TrimAll(parts)[k]) && Property(TrimAll(parts)[k])
  {
    hide Pads, Trim, Property, PropertyOk;
    forall k | 0 <= k < |parts| ensures Pads(parts[k], TrimAll(parts)[k]) && Property(TrimAll(parts)[k]) {
      PadsTrim(parts[k]);
      PropertyIff(Trim(parts[k]));
    }
  }

  lemma MemberIsRead(member: Text)
    requires MemberOf(member).Some?
    ensures var (key, raw), parts := PairOf(member).value, Split(member, SEMICOLON);
      IsMember(member, key, raw, TrimAll(parts[1..]))
  {
    hide Trim, Unescape, PropertyOk, AllTokens, AllValues, Lossy, Split, Pads, Property;
    var parts := Split(member, SEMICOLON);
    PairIsRead(parts[0]);
    PropertiesAreRead(parts[1..]);
  }

  lemma MemberReads(member: Text, key: Text, raw: Text, properties: seq<Text>)
    requires IsMember(member, key, raw, properties)
    ensures PairOf(member) == Some((key, raw))
    ensures MemberOf(member) == Some(Entry(key, Lossy(Unescape(raw).value), Join(properties, SEMICOLON)))
  {
    hide Trim, Unescape, PropertyOk, AllTokens, AllValues, Lossy, Split, Pads, Property;
    PairReads(Split(member, SEMICOLON)[0], key, raw);
    PropertiesRead(Split(member, SEMICOLON)[1..], properties);
  }

  /** What a member means is what the grammar says, and the grammar reads it in one way. */
  lemma MemberIff(member: Text, e: Entry)
    ensures MemberOf(member) == Some(e) <==> exists key, raw, properties ::
      IsMember(member, key, raw, properties) && e == Entry(key, Lossy(Unescape(raw).value), Join(properties, SEMICOLON))
  {
    if MemberOf(member) == Some(e) { MemberIsRead(member); }
    hide MemberOf, Unescape, Lossy, PairOf;
    forall key, raw, properties | IsMember(member, key, raw, properties)
      ensures Unescape(raw).Some?
      ensures MemberOf(member) == Some(Entry(key, Lossy(Unescape(raw).value), Join(properties, SEMICOLON)))
    {
      MemberReads(member, key, raw, properties);
    }
    hide IsMember;
  }

  // ----- the code -----

  /** One property after trimming. */
  method CheckProperty(property: Text) returns (ok: bool)
    ensures ok <==> PropertyOk(property)
  {
    var i := IndexOf(property, EQUALS);
    if i == 0 || !AllTokens(property[..i]) {
      return false;
    }
    if i < |property| {
      var v := property[i + 1..];
      var valid := HasValidPercentEncoding(v);
      return AllValues(v) && valid;
    }
    return true;
  }

  method ParseMember(member: Text) returns (r: Option<Entry>)
    ensures r == MemberOf(member)
  {
    hide Trim, Unescape, PropertyOk, AllTokens, AllValues, Lossy, Split;
    var parts := Split(member, SEMICOLON);
    var pair := Trim(parts[0]);
    var eq := IndexOf(pair, EQUALS);
    if eq == |pair| {
      return None;
    }
    var key := Trim(pair[..eq]);
    var rawValue := Trim(pair[eq + 1..]);
    if key == [] || !AllTokens(key) {
      return None;
    }
    if !AllValues(rawValue) {
      return None;
    }
    var value := PercentDecode(rawValue);
    if value.None? {
      return None;
    }
    var metadata: Text := [];
    ghost var rest := parts[1..];
    for i := 1 to |parts|
      invariant PropertiesOk(rest[..i - 1]) && metadata == Join(TrimAll(rest[..i - 1]), SEMICOLON)
      invariant metadata == [] <==> i == 1
    {
      var property := Trim(parts[i]);
      assert rest[i - 1] == parts[i];
      var ok := CheckProperty(property);
      if property == [] || !ok {
        assert !PropertiesOk(rest) by {
          if property == [] { EmptyIsNoProperty(); }
        }
        return None;
      }
      PropertyIsSolid(property);
      assert TrimAll(rest[..i]) == TrimAll(rest[..i - 1]) + [property];
      if metadata != [] {
        JoinAppend(TrimAll(rest[..i - 1]), property, SEMICOLON);
        metadata := metadata + [SEMICOLON];
      } else {
        assert TrimAll(rest[..i - 1]) == [];
      }
      metadata := metadata + property;
    }
    assert rest[..|parts| - 1] == rest;
    r := Some(Entry(key, value.value, metadata));
  }

  lemma EmptyIsNoProperty()
    ensures !PropertyOk([])
  {
  }

  method EncodedMember(entry: Entry) returns (r: Option<Text>)
    ensures r == Printed(entry)
  {
    hide AllTokens, MetadataOk, Escape;
    if entry.key == [] || !AllTokens(entry.key) {
      return None;
    }
    var out := entry.key;
    out := out + [EQUALS];
    out := EncodeValue(entry.value, out);
    assert entry.key + [EQUALS] + Escape(entry.value) + [] == out;
    EmptyMetadata();
    if entry.metadata != [] {
      // `k=v;` in front of the metadata makes a member that parses exactly when it may be printed.
      ProbeDecides(entry.metadata);
      var probe := ParseMember([0x6B, EQUALS, 0x76, SEMICOLON] + entry.metadata);
      if probe.None? {
        return None;
      }
      out := out + [SEMICOLON];
      out := out + entry.metadata;
      assert out == entry.key + [EQUALS] + Escape(entry.value) + ([SEMICOLON] + entry.metadata);
    }
    r := Some(out);
  }

  lemma EmptyMetadata()
    ensures MetadataOk([])
  {
  }

  lemma ProbeShape(metadata: Text)
    requires metadata != []
    ensures [0x6B, EQUALS, 0x76, SEMICOLON] + metadata == [0x6B] + [EQUALS] + [0x76] + Suffix(metadata)
  {
  }

  lemma PlainValue()
    ensures Unescape([0x76]).Some? && AllValues([0x76]) && AllTokens([0x6B])
  {
    assert [0x76][1..] == [];
  }

  lemma ProbeDecides(metadata: Text)
    requires metadata != []
    ensures MemberOf([0x6B, EQUALS, 0x76, SEMICOLON] + metadata).Some? <==> MetadataOk(metadata)
  {
    hide *;
    PlainValue();
    ProbeShape(metadata);
    ParseLaidOut([0x6B], [0x76], metadata);
  }
}
