/** The `tracestate` validator and the grammar of section 3.3 of W3C Trace Context. */
module TraceState {
  import opened Bytes
  import opened Utf8

  const MAX_TRACESTATE_LEN: nat := 512
  const MAX_TRACESTATE_MEMBERS: nat := 32
  const AT: Byte := 0x40
  const SPACE: Byte := 0x20
  const TAB: Byte := 0x09

  // ----- the grammar -----

  predicate Lower(c: Byte) { 0x61 <= c <= 0x7A }

  predicate Decimal(c: Byte) { 0x30 <= c <= 0x39 }

  /** `_`, `-`, `*` and `/` beside lowercase letters and digits. */
  predicate KeyChar(c: Byte) { Lower(c) || Decimal(c) || c in [0x5F, 0x2D, 0x2A, 0x2F] }

  predicate AllKeyChars(s: Text) { forall k :: 0 <= k < |s| ==> KeyChar(s[k]) }

  /** simple-key = lcalpha 0*255( keychar ) */
  predicate SimpleKey(k: Text) { 1 <= |k| <= 256 && Lower(k[0]) && AllKeyChars(k[1..]) }

  /** tenant-id = ( lcalpha / DIGIT ) 0*240( keychar ) */
  predicate TenantId(k: Text) { 1 <= |k| <= 241 && (Lower(k[0]) || Decimal(k[0])) && AllKeyChars(k[1..]) }

  /** system-id = lcalpha 0*13( keychar ) */
  predicate SystemId(k: Text) { 1 <= |k| <= 14 && Lower(k[0]) && AllKeyChars(k[1..]) }

  /** key = simple-key / tenant-id "@" system-id */
  ghost predicate Key(k: Text) {
    SimpleKey(k) || exists tenant, system :: MultiTenant(k, tenant, system)
  }

  predicate MultiTenant(k: Text, tenant: Text, system: Text) {
    TenantId(tenant) && SystemId(system) && k == tenant + [AT] + system
  }

  /** nblk-chr: printable, not blank, neither comma nor equals. */
  predicate NonBlank(c: Byte) { 0x21 <= c <= 0x2B || 0x2D <= c <= 0x3C || 0x3E <= c <= 0x7E }

  /** value = 0*255(chr) nblk-chr, where chr may also be a space */
  ghost predicate Val(v: Text) {
    exists front: Text, last: Byte :: ValOf(v, front, last)
  }

  predicate ValOf(v: Text, front: Text, last: Byte) {
    && v == front + [last] && |front| <= 255 && NonBlank(last)
    && forall k :: 0 <= k < |front| ==> front[k] == SPACE || NonBlank(front[k])
  }

  /** The white space allowed around members. */
  predicate Blank(b: Byte) { b == SPACE || b == TAB }

  predicate AllBlank(s: Text) { forall k :: 0 <= k < |s| ==> Blank(s[k]) }

  predicate Trimmed(s: Text) {
    s != [] ==> !Blank(s[0]) && !Blank(s[|s| - 1])
  }

  datatype Member = Member(key: Text, val: Text)

  function Written(m: Member): Text { m.key + [EQUALS] + m.val }

  /** One list member: optional white space around nothing, or around a pair. */
  ghost predicate MemberText(part: Text, m: Option<Member>) {
    var core := if m.Some? then Written(m.value) else [];
    exists left, right :: Padded(part, left, right, core)
  }

  predicate Padded(part: Text, left: Text, right: Text, core: Text) {
    AllBlank(left) && AllBlank(right) && Trimmed(core) && part == left + core + right
  }

  function Present(ms: seq<Option<Member>>): seq<Member> {
    if ms == [] then []
    else if ms[|ms| - 1].None? then Present(ms[..|ms| - 1])
    else Present(ms[..|ms| - 1]) + [ms[|ms| - 1].value]
  }

  ghost predicate GoodMembers(list: seq<Member>) {
    && |list| <= MAX_TRACESTATE_MEMBERS
    && (forall i :: 0 <= i < |list| ==> Key(list[i].key) && Val(list[i].val))
    && (forall i, j :: 0 <= i < j < |list| ==> list[i].key != list[j].key)
  }

  ghost predicate Spells(parts: seq<Text>, ms: seq<Option<Member>>) {
    |ms| == |parts| && forall i :: 0 <= i < |parts| ==> MemberText(parts[i], ms[i])
  }

  /** The language: at most 512 bytes, a comma-separated list of blank or padded members, at
      most 32 of them present, their keys pairwise distinct. */
  ghost predicate IsTracestate(value: Text) {
    |value| <= MAX_TRACESTATE_LEN && exists ms :: Spells(Split(value, COMMA), ms) && GoodMembers(Present(ms))
  }

  // ----- the functions of the code -----

  function TrimLeft(s: Text): Text {
    if s == [] || !Blank(s[0]) then s else TrimLeft(s[1..])
  }

  function TrimRight(s: Text): Text {
    if s == [] || !Blank(s[|s| - 1]) then s else TrimRight(s[..|s| - 1])
  }

  /** `trim_matches` on spaces and tabs. */
  function TrimBlanks(s: Text): Text { TrimRight(TrimLeft(s)) }

  /** `split_once('=')` */
  function SplitOnce(s: Text): Option<Member> {
    var i := IndexOf(s, EQUALS);
    if i == |s| then None else Some(Member(s[..i], s[i + 1..]))
  }

  /** `is_valid_tracestate_key` */
  predicate IsValidKey(key: Text) {
    var at := IndexOf(key, AT);
    if at < |key| then
      var tenant, system := key[..at], key[at + 1..];
      if AT in system then false
      else if tenant == [] || |tenant| > 241 then false
      else if !(Lower(tenant[0]) || Decimal(tenant[0])) then false
      else if !AllKeyChars(tenant[1..]) then false
      else if system == [] || |system| > 14 then false
      else if !Lower(system[0]) then false
      else AllKeyChars(system[1..])
    else if key == [] || |key| > 256 then false
    else if !Lower(key[0]) then false
    else AllKeyChars(key[1..])
  }

  /** `is_valid_tracestate_value` */
  predicate IsValidValue(val: Text) {
    if val == [] || |val| > 256 then false
    else if val[|val| - 1] == SPACE then false
    else forall k :: 0 <= k < |val| ==>
      val[k] == SPACE || (0x21 <= val[k] <= 0x7E && val[k] != COMMA && val[k] != EQUALS)
  }

  // ----- they accept the grammar -----

  /** The characters of the grammar, spelled out. */
  lemma CharsAre(c: Byte)
    ensures KeyChar(c) <==>
      || 'a' as int <= c <= 'z' as int || '0' as int <= c <= '9' as int
      || c == '_' as int || c == '-' as int || c == '*' as int || c == '/' as int
    ensures NonBlank(c) <==> '!' as int <= c <= '~' as int && c != ',' as int && c != '=' as int
    ensures Blank(c) <==> c == ' ' as int || c == '\t' as int
    ensures Lower(c) <==> 'a' as int <= c <= 'z' as int
  {
  }

  lemma KeyCharsExclude(s: Text)
    requires AllKeyChars(s)
    ensures AT !in s && EQUALS !in s
  {
  }

  lemma HeadAndTail(s: Text, b: Byte)
    requires s != [] && s[0] != b && b !in s[1..]
    ensures b !in s
  {
    assert s == [s[0]] + s[1..];
  }

  lemma KeyGrammar(key: Text)
    ensures IsValidKey(key) <==> Key(key)
  {
    var at := IndexOf(key, AT);
    if SimpleKey(key) {
      KeyCharsExclude(key[1..]);
      HeadAndTail(key, AT);
    }
    forall tenant, system | MultiTenant(key, tenant, system) ensures IsValidKey(key) {
      KeyCharsExclude(tenant[1..]);
      HeadAndTail(tenant, AT);
      KeyCharsExclude(system[1..]);
      HeadAndTail(system, AT);
      IndexOfPrefix(tenant, AT, system);
      assert key[..|tenant|] == tenant && key[|tenant| + 1..] == system;
    }
    if IsValidKey(key) && at < |key| {
      assert key == key[..at] + [AT] + key[at + 1..];
      assert MultiTenant(key, key[..at], key[at + 1..]);
    }
  }

  lemma KeyHasNoEquals(key: Text)
    requires Key(key)
    ensures EQUALS !in key && key != [] && !Blank(key[0])
  {
    if SimpleKey(key) {
      KeyCharsExclude(key[1..]);
      HeadAndTail(key, EQUALS);
    } else {
      var tenant, system :| MultiTenant(key, tenant, system);
      KeyCharsExclude(tenant[1..]);
      HeadAndTail(tenant, EQUALS);
      KeyCharsExclude(system[1..]);
      HeadAndTail(system, EQUALS);
      assert key[0] == tenant[0];
    }
  }

  lemma ValueGrammar(val: Text)
    ensures IsValidValue(val) <==> Val(val)
  {
    if IsValidValue(val) {
      var n := |val| - 1;
      assert val == val[..n] + [val[n]];
      assert ValOf(val, val[..n], val[n]);
    }
    forall front: Text, last: Byte | ValOf(val, front, last) ensures IsValidValue(val) {
      assert forall k :: 0 <= k < |front| ==> val[k] == front[k];
    }
  }

  // ----- trimming finds the padded core -----

  lemma {:induction false} TrimLeftOf(left: Text, rest: Text)
    requires AllBlank(left) && (rest != [] ==> !Blank(rest[0]))
    ensures TrimLeft(left + rest) == rest
  {
    var s := left + rest;
    if left != [] {
      TrimLeftOf(left[1..], rest);
      assert s[1..] == left[1..] + rest && s[0] == left[0];
    } else {
      assert s == rest;
    }
  }

  lemma {:induction false} TrimRightOf(rest: Text, right: Text)
    requires AllBlank(right) && (rest != [] ==> !Blank(rest[|rest| - 1]))
    ensures TrimRight(rest + right) == rest
  {
    var s, n := rest + right, |right| - 1;
    if right != [] {
      TrimRightOf(rest, right[..n]);
      assert s[..|s| - 1] == rest + right[..n] && s[|s| - 1] == right[n];
    } else {
      assert s == rest;
    }
  }

  lemma {:induction false} TrimLeftParts(s: Text) returns (left: Text)
    ensures AllBlank(left) && s == left + TrimLeft(s)
    ensures TrimLeft(s) != [] ==> !Blank(TrimLeft(s)[0])
  {
    if s == [] || !Blank(s[0]) {
      left := [];
    } else {
      var rest := TrimLeftParts(s[1..]);
      left := [s[0]] + rest;
      assert s == [s[0]] + s[1..];
    }
  }

  lemma {:induction false} TrimRightParts(s: Text) returns (right: Text)
    ensures AllBlank(right) && s == TrimRight(s) + right
    ensures TrimRight(s) != [] ==> !Blank(TrimRight(s)[|TrimRight(s)| - 1])
  {
    if s == [] || !Blank(s[|s| - 1]) {
      right := [];
    } else {
      var rest := TrimRightParts(s[..|s| - 1]);
      right := rest + [s[|s| - 1]];
      assert s == s[..|s| - 1] + [s[|s| - 1]];
    }
  }

  lemma {:induction false} AllBlankTrims(s: Text)
    requires AllBlank(s)
    ensures TrimBlanks(s) == []
  {
    TrimLeftOf(s, []);
    assert s + [] == s;
  }

  /** The trimmed text is the one core that a part pads. */
  lemma TrimIsCore(part: Text, core: Text)
    ensures TrimBlanks(part) == core <==> exists left, right :: Padded(part, left, right, core)
  {
    forall left, right | Padded(part, left, right, core) ensures TrimBlanks(part) == core {
      if core == [] {
        AllBlankTrims(part);
      } else {
        assert part == left + (core + right);
        TrimLeftOf(left, core + right);
        TrimRightOf(core, right);
      }
    }
    if TrimBlanks(part) == core {
      var left := TrimLeftParts(part);
      var right := TrimRightParts(TrimLeft(part));
      assert part == left + core + right;
      assert Trimmed(core) by {
        if core != [] { assert TrimLeft(part)[0] == core[0]; }
      }
      assert Padded(part, left, right, core);
    }
  }

  // ----- the pairs of a value -----

  ghost predicate ValidPair(m: Member) { Key(m.key) && Val(m.val) }

  /** A grammatical pair is the split of its text, and is not padded. */
  lemma PairSplits(m: Member)
    requires ValidPair(m)
    ensures SplitOnce(Written(m)) == Some(m) && Written(m) != [] && Trimmed(Written(m))
  {
    hide Key, Val;
    KeyHasNoEquals(m.key);
    IndexOfPrefix(m.key, EQUALS, m.val);
    var s := Written(m);
    assert s[..|m.key|] == m.key && s[|m.key| + 1..] == m.val;
    ValueEnds(m.val);
    assert s[0] == m.key[0] && s[|s| - 1] == m.val[|m.val| - 1];
  }

  lemma ValueEnds(v: Text)
    requires Val(v)
    ensures v != [] && !Blank(v[|v| - 1])
  {
    ValueGrammar(v);
    assert forall k :: 0 <= k < |v| ==> v[k] != TAB;
  }

  lemma SplitWrites(s: Text)
    requires SplitOnce(s).Some?
    ensures Written(SplitOnce(s).value) == s
  {
  }

  /** What a part holds, when it is grammatical. */
  function Held(part: Text): Option<Member> {
    if TrimBlanks(part) == [] then None else SplitOnce(TrimBlanks(part))
  }

  function HeldBy(parts: seq<Text>): (ms: seq<Option<Member>>)
    ensures |ms| == |parts|
  {
    seq(|parts|, k requires 0 <= k < |parts| => Held(parts[k]))
  }

  /** The code's own reading of one part: blank, or a valid pair. */
  ghost predicate PartOk(part: Text) {
    TrimBlanks(part) == [] || (SplitOnce(TrimBlanks(part)).Some? && ValidPair(SplitOnce(TrimBlanks(part)).value))
  }

  lemma PartIs(part: Text, m: Option<Member>)
    requires m.Some? ==> ValidPair(m.value)
    ensures MemberText(part, m) <==> PartOk(part) && Held(part) == m
  {
    hide ValidPair, SplitOnce, TrimBlanks, Written, Padded;
    TrimIsCore(part, if m.Some? then Written(m.value) else []);
    if m.Some? {
      PairSplits(m.value);
    }
    if TrimBlanks(part) != [] && SplitOnce(TrimBlanks(part)).Some? {
      SplitWrites(TrimBlanks(part));
    }
  }

  lemma {:induction false} PresentGood(ms: seq<Option<Member>>)
    requires GoodMembers(Present(ms))
    ensures forall i :: 0 <= i < |ms| && ms[i].Some? ==> ValidPair(ms[i].value)
  {
    PresentHolds(ms);
    forall i | 0 <= i < |ms| && ms[i].Some? ensures ValidPair(ms[i].value) {
      var k :| 0 <= k < |Present(ms)| && Present(ms)[k] == ms[i].value;
    }
  }

  lemma {:induction false} PresentHolds(ms: seq<Option<Member>>)
    ensures forall i :: 0 <= i < |ms| && ms[i].Some? ==> ms[i].value in Present(ms)
    ensures forall m :: m in Present(ms) ==> Some(m) in ms
  {
    if ms != [] { PresentHolds(ms[..|ms| - 1]); }
  }

  ghost predicate AllPartsOk(parts: seq<Text>) { forall i :: 0 <= i < |parts| ==> PartOk(parts[i]) }

  /** The existential of the grammar has one witness: what the code reads. */
  lemma LanguageIff(value: Text)
    ensures var parts := Split(value, COMMA);
      IsTracestate(value) <==>
        |value| <= MAX_TRACESTATE_LEN && AllPartsOk(parts) && GoodMembers(Present(HeldBy(parts)))
  {
    hide Split, GoodMembers, PartOk, MemberText, Held, ValidPair;
    var parts := Split(value, COMMA);
    var held := HeldBy(parts);
    forall ms | Spells(parts, ms) && GoodMembers(Present(ms)) ensures ms == held && AllPartsOk(parts) {
      PresentGood(ms);
      forall i | 0 <= i < |parts| ensures ms[i] == held[i] && PartOk(parts[i]) {
        PartIs(parts[i], ms[i]);
      }
    }
    if AllPartsOk(parts) && GoodMembers(Present(held)) {
      PresentGood(held);
      forall i | 0 <= i < |parts| ensures MemberText(parts[i], held[i]) {
        PartIs(parts[i], held[i]);
      }
      assert Spells(parts, held);
    }
  }

  // ----- the loop -----

  /** The first `n` parts read, and nothing wrong with them. */
  ghost predicate GoodUpTo(parts: seq<Text>, n: nat, list: seq<Member>)
    requires n <= |parts|
  {
    AllPartsOk(parts[..n]) && list == Present(HeldBy(parts[..n])) && GoodMembers(list)
  }

  lemma StepParts(parts: seq<Text>, n: nat)
    requires n < |parts|
    ensures AllPartsOk(parts[..n + 1]) <==> AllPartsOk(parts[..n]) && PartOk(parts[n])
    ensures Present(HeldBy(parts[..n + 1])) ==
      Present(HeldBy(parts[..n])) + (if Held(parts[n]).Some? then [Held(parts[n]).value] else [])
  {
    hide PartOk, Held;
    var ms := HeldBy(parts[..n + 1]);
    assert ms[..n] == HeldBy(parts[..n]) && ms[n] == Held(parts[n]);
    assert forall i :: 0 <= i < n ==> parts[..n + 1][i] == parts[..n][i];
  }

  /** Trouble among the first parts is trouble. */
  lemma {:induction false} Prefixes(parts: seq<Text>, n: nat)
    requires n <= |parts| && AllPartsOk(parts) && GoodMembers(Present(HeldBy(parts)))
    ensures AllPartsOk(parts[..n]) && GoodMembers(Present(HeldBy(parts[..n])))
    decreases |parts| - n
  {
    hide PartOk, Held, Key, Val;
    if n < |parts| {
      Prefixes(parts, n + 1);
      StepParts(parts, n);
      var a, b := Present(HeldBy(parts[..n])), Present(HeldBy(parts[..n + 1]));
      assert forall i :: 0 <= i < |a| ==> a[i] == b[i];
    } else {
      assert parts[..n] == parts;
    }
  }

  lemma Rejected(value: Text, n: nat)
    requires n <= |Split(value, COMMA)|
    requires !AllPartsOk(Split(value, COMMA)[..n]) || !GoodMembers(Present(HeldBy(Split(value, COMMA)[..n])))
    ensures !IsTracestate(value)
  {
    hide *;
    LanguageIff(value);
    if IsTracestate(value) {
      Prefixes(Split(value, COMMA), n);
    }
  }

  lemma EmptyIsTracestate()
    ensures IsTracestate([])
  {
    LanguageIff([]);
    assert Split([], COMMA) == [[]];
    assert TrimBlanks([]) == [];
    var ms := HeldBy([[]]);
    assert ms[0].None? && ms[..0] == [];
    assert Present(ms[..0]) == [] && Present(ms) == [];
  }

  function Keys(list: seq<Member>): (r: seq<Text>)
    ensures |r| == |list|
  {
    seq(|list|, k requires 0 <= k < |list| => list[k].key)
  }

  lemma PushGood(list: seq<Member>, m: Member)
    requires GoodMembers(list)
    ensures GoodMembers(list + [m]) <==> |list| < MAX_TRACESTATE_MEMBERS && ValidPair(m) && m.key !in Keys(list)
    ensures Keys(list + [m]) == Keys(list) + [m.key]
  {
    hide Key, Val;
    var after := list + [m];
    assert forall i :: 0 <= i < |list| ==> after[i] == list[i] && Keys(list)[i] == list[i].key;
    if GoodMembers(after) {
      assert after[|list|] == m;
    }
  }

  /** `validate_tracestate` accepts exactly the language. */
  method ValidateTracestate(value: Text) returns (valid: bool)
    ensures valid <==> IsTracestate(value)
  {
    if value == [] {
      EmptyIsTracestate();
      return true;
    }
    if |value| > MAX_TRACESTATE_LEN {
      return false;
    }
    hide IsTracestate, Split, AllPartsOk, GoodMembers, PartOk, ValidPair, Key, Val, TrimBlanks, SplitOnce, Keys,
      Present;
    var members: nat := 0;
    var seenKeys: seq<Text> := [];
    var parts := Split(value, COMMA);
    ghost var list: seq<Member> := [];
    NoParts(parts);
    for n := 0 to |parts|
      invariant GoodUpTo(parts, n, list)
      invariant members == |list| <= MAX_TRACESTATE_MEMBERS && seenKeys == Keys(list)
    {
      StepParts(parts, n);
      var member := TrimBlanks(parts[n]);
      if member == [] {
        BlankPart(parts[n]);
        continue;
      }
      members := members + 1;
      var split := SplitOnce(member);
      if members > MAX_TRACESTATE_MEMBERS {
        TooMany(value, n, list);
        return false;
      }
      if split.None? {
        Unreadable(value, n);
        return false;
      }
      var key, val := split.value.key, split.value.val;
      KeyGrammar(key);
      ValueGrammar(val);
      PushGood(list, split.value);
      ReadablePart(parts[n]);
      if !IsValidKey(key) || !IsValidValue(val) {
        Unreadable(value, n);
        return false;
      }
      if key in seenKeys {
        Rejected(value, n + 1);
        return false;
      }
      seenKeys := seenKeys + [key];
      list := list + [split.value];
    }
    LanguageIff(value);
    assert parts[..|parts|] == parts;
    valid := true;
  }

  lemma NoParts(parts: seq<Text>)
    ensures GoodUpTo(parts, 0, []) && Keys([]) == []
  {
    assert HeldBy(parts[..0]) == [];
  }

  lemma BlankPart(part: Text)
    requires TrimBlanks(part) == []
    ensures PartOk(part) && Held(part).None?
  {
  }

  lemma ReadablePart(part: Text)
    requires TrimBlanks(part) != [] && SplitOnce(TrimBlanks(part)).Some?
    ensures PartOk(part) <==> ValidPair(SplitOnce(TrimBlanks(part)).value)
    ensures Held(part) == SplitOnce(TrimBlanks(part))
    ensures ValidPair(SplitOnce(TrimBlanks(part)).value) <==>
      Key(SplitOnce(TrimBlanks(part)).value.key) && Val(SplitOnce(TrimBlanks(part)).value.val)
  {
  }

  lemma Unreadable(value: Text, n: nat)
    requires n < |Split(value, COMMA)| && !PartOk(Split(value, COMMA)[n])
    ensures !IsTracestate(value)
  {
    hide Split, PartOk;
    StepParts(Split(value, COMMA), n);
    Rejected(value, n + 1);
  }

  lemma TooMany(value: Text, n: nat, list: seq<Member>)
    requires n < |Split(value, COMMA)| && GoodUpTo(Split(value, COMMA), n, list)
    requires |list| == MAX_TRACESTATE_MEMBERS && TrimBlanks(Split(value, COMMA)[n]) != []
    ensures !IsTracestate(value)
  {
    var parts := Split(value, COMMA);
    hide Split, TrimBlanks, SplitOnce, ValidPair;
    StepParts(parts, n);
    Rejected(value, n + 1);
  }

  /** Every accepted value is ASCII, hence a string. */
  lemma TracestateIsUtf8(value: Text)
    requires IsTracestate(value)
    ensures WellFormed(value)
  {
    AllAscii(value);
    AsciiIsWellFormed(value);
  }

  predicate Ascii(s: Text) { forall k :: 0 <= k < |s| ==> s[k] < 0x80 }

  lemma BlankIsAscii(s: Text)
    requires AllBlank(s)
    ensures Ascii(s)
  {
  }

  lemma AsciiAppend(a: Text, b: Text)
    ensures Ascii(a + b) <==> Ascii(a) && Ascii(b)
  {
    assert forall k :: 0 <= k < |a| ==> a[k] == (a + b)[k];
    assert forall k :: 0 <= k < |b| ==> b[k] == (a + b)[|a| + k];
  }

  lemma PartIsAscii(part: Text)
    requires PartOk(part)
    ensures Ascii(part)
  {
    hide Key, Val, Ascii, AllBlank, TrimLeft, TrimRight, ValidPair, SplitOnce;
    var left := TrimLeftParts(part);
    var right := TrimRightParts(TrimLeft(part));
    var core := TrimBlanks(part);
    assert part == left + core + right;
    BlankIsAscii(left);
    BlankIsAscii(right);
    AsciiAppend(left, core);
    AsciiAppend(left + core, right);
    if core != [] {
      var m := SplitOnce(core).value;
      SplitWrites(core);
      PairIsAscii(m);
    } else {
      BlankIsAscii(core);
    }
  }

  lemma KeyCharsAreAscii(head: Byte, rest: Text)
    requires head < 0x80 && AllKeyChars(rest)
    ensures Ascii([head] + rest)
  {
  }

  lemma NamedIsAscii(s: Text)
    requires s != [] && s[0] < 0x80 && AllKeyChars(s[1..])
    ensures Ascii(s)
  {
    KeyCharsAreAscii(s[0], s[1..]);
    assert [s[0]] + s[1..] == s;
  }

  lemma PairIsAscii(m: Member)
    requires ValidPair(m)
    ensures Ascii(Written(m))
  {
    ValueGrammar(m.val);
    assert Ascii(m.val);
    hide Ascii;
    if SimpleKey(m.key) {
      NamedIsAscii(m.key);
    } else {
      var tenant, system :| MultiTenant(m.key, tenant, system);
      NamedIsAscii(tenant);
      NamedIsAscii(system);
      AsciiAppend(tenant, [AT]);
      AsciiAppend(tenant + [AT], system);
      assert Ascii([AT]) by { OneAscii(AT); }
    }
    OneAscii(EQUALS);
    AsciiAppend(m.key, [EQUALS]);
    AsciiAppend(m.key + [EQUALS], m.val);
  }

  lemma OneAscii(b: Byte)
    ensures Ascii([b]) <==> b < 0x80
  {
    assert [b][0] == b;
  }

  lemma {:induction false} JoinAscii(parts: seq<Text>)
    requires forall i :: 0 <= i < |parts| ==> Ascii(parts[i])
    ensures Ascii(Join(parts, COMMA))
  {
    OneAscii(COMMA);
    hide Ascii;
    if |parts| > 1 {
      JoinAscii(parts[1..]);
      AsciiAppend(parts[0], [COMMA]);
      AsciiAppend(parts[0] + [COMMA], Join(parts[1..], COMMA));
    } else if parts == [] {
      BlankIsAscii([]);
    }
  }

  lemma AllAscii(value: Text)
    requires IsTracestate(value)
    ensures Ascii(value)
  {
    hide Split, Join, PartOk, GoodMembers, IsTracestate, Ascii;
    LanguageIff(value);
    var parts := Split(value, COMMA);
    JoinSplit(value, COMMA);
    forall i | 0 <= i < |parts| ensures Ascii(parts[i]) {
      PartIsAscii(parts[i]);
    }
    JoinAscii(parts);
  }
}
