/** Extraction of a baggage header and injection of a baggage into one. */
module BaggageHeader {
  import opened Bytes
  import opened Outcome
  import opened Utf8
  import opened BaggageCodec
  import opened BaggageMember

  const MAX_BAGGAGE_ITEMS: nat := 64
  const MAX_BAGGAGE_BYTES: nat := 8192

  // ----- the specification -----

  ghost predicate Distinct(es: seq<Entry>) {
    forall i, j :: 0 <= i < j < |es| ==> es[i].key != es[j].key
  }

  /** Where a key stands, or the length when it does not. */
  function Place(es: seq<Entry>, key: Text): (i: nat)
    ensures i <= |es|
    ensures forall k :: 0 <= k < i ==> es[k].key != key
    ensures i < |es| ==> es[i].key == key
  {
    if es == [] || es[0].key == key then 0 else 1 + Place(es[1..], key)
  }

  /** A later member with a known key replaces the earlier one where it stands. */
  function Upsert(es: seq<Entry>, e: Entry): seq<Entry> {
    var i := Place(es, e.key);
    if i < |es| then es[i := e] else if |es| < MAX_BAGGAGE_ITEMS then es + [e] else es
  }

  function Gather(members: seq<Text>, n: nat): seq<Entry>
    requires n <= |members|
  {
    if n == 0 then []
    else
      var before, e := Gather(members, n - 1), MemberOf(members[n - 1]);
      if e.None? then before else Upsert(before, e.value)
  }

  function Extracted(header: Text): seq<Entry> {
    if |header| > MAX_BAGGAGE_BYTES then []
    else Gather(Split(header, COMMA), |Split(header, COMMA)|)
  }

  predicate AllPrintable(es: seq<Entry>) { forall k :: 0 <= k < |es| ==> Printed(es[k]).Some? }

  function PrintedAll(es: seq<Entry>): seq<Text>
    requires AllPrintable(es)
  {
    seq(|es|, k requires 0 <= k < |es| => Printed(es[k]).value)
  }

  function Wire(es: seq<Entry>): Text
    requires AllPrintable(es)
  {
    Join(PrintedAll(es), COMMA)
  }

  /** The entries among the first `n` that injection writes: printable, and still fitting. */
  function Keep(es: seq<Entry>, n: nat): (r: seq<Entry>)
    requires n <= |es|
    ensures AllPrintable(r)
  {
    if n == 0 then []
    else
      var before, e := Keep(es, n - 1), es[n - 1];
      if Printed(e).None? || |Wire(before + [e])| > MAX_BAGGAGE_BYTES then before else before + [e]
  }

  function Kept(es: seq<Entry>): (r: seq<Entry>)
    ensures AllPrintable(r)
  {
    Keep(es, |es|)
  }

  function Injected(es: seq<Entry>): Text { Wire(Kept(es)) }

  /** What the extraction call answers: an oversized header is not even decoded. */
  function Extraction(header: Text): Result<seq<Entry>> {
    if |header| <= MAX_BAGGAGE_BYTES && !WellFormed(header) then Failure(InvalidUtf8) else Success(Extracted(header))
  }

  function NormalizedAll(es: seq<Entry>): seq<Entry> {
    seq(|es|, k requires 0 <= k < |es| => Normalized(es[k]))
  }

  ghost predicate Utf8Values(es: seq<Entry>) {
    forall k :: 0 <= k < |es| ==> WellFormed(es[k].value)
  }

  // ----- sizes -----

  function Sum(ns: seq<nat>): nat {
    if ns == [] then 0 else Sum(ns[..|ns| - 1]) + ns[|ns| - 1]
  }

  lemma SumPush(ns: seq<nat>, n: nat)
    ensures Sum(ns + [n]) == Sum(ns) + n
  {
    assert (ns + [n])[..|ns|] == ns;
  }

  lemma {:induction false} SumReplace(ns: seq<nat>, i: nat, n: nat)
    requires i < |ns|
    ensures Sum(ns[i := n]) + ns[i] == Sum(ns) + n
  {
    var m := |ns| - 1;
    if i < m {
      SumReplace(ns[..m], i, n);
      assert ns[i := n][..m] == ns[..m][i := n];
    } else {
      assert ns[i := n][..m] == ns[..m];
    }
  }

  /** Wire bytes of an entry together with one separator. */
  function WireCost(e: Entry): nat { if Printed(e).Some? then |Printed(e).value| + 1 else 0 }

  function StoredCost(e: Entry): nat { |e.key| + |e.value| + |e.metadata| }

  function Costs(es: seq<Entry>, cost: Entry -> nat): seq<nat> {
    seq(|es|, k requires 0 <= k < |es| => cost(es[k]))
  }

  function MemberCosts(members: seq<Text>): seq<nat> {
    seq(|members|, k requires 0 <= k < |members| => |members[k]| + 1)
  }

  lemma {:induction false} JoinLength(parts: seq<Text>)
    requires parts != []
    ensures |Join(parts, COMMA)| + 1 == Sum(MemberCosts(parts))
  {
    var n := |parts| - 1;
    assert parts == parts[..n] + [parts[n]];
    assert MemberCosts(parts)[..n] == MemberCosts(parts[..n]);
    if n > 0 {
      JoinAppend(parts[..n], parts[n], COMMA);
      JoinLength(parts[..n]);
    }
  }

  lemma PrintedCosts(es: seq<Entry>)
    requires AllPrintable(es)
    ensures MemberCosts(PrintedAll(es)) == Costs(es, WireCost)
  {
    hide Printed;
    var a, b := MemberCosts(PrintedAll(es)), Costs(es, WireCost);
    forall k | 0 <= k < |es| ensures a[k] == b[k] {
      assert PrintedAll(es)[k] == Printed(es[k]).value;
    }
  }

  lemma WireLength(es: seq<Entry>)
    requires AllPrintable(es)
    ensures |Wire(es)| + (if es == [] then 0 else 1) == Sum(Costs(es, WireCost))
  {
    if es != [] {
      JoinLength(PrintedAll(es));
      PrintedCosts(es);
    }
  }

  lemma UpsertCost(es: seq<Entry>, e: Entry, cost: Entry -> nat)
    ensures Sum(Costs(Upsert(es, e), cost)) <= Sum(Costs(es, cost)) + cost(e)
  {
    var i := Place(es, e.key);
    if i < |es| {
      SumReplace(Costs(es, cost), i, cost(e));
      assert Costs(es[i := e], cost) == Costs(es, cost)[i := cost(e)];
    } else if |es| < MAX_BAGGAGE_ITEMS {
      SumPush(Costs(es, cost), cost(e));
      assert Costs(es + [e], cost) == Costs(es, cost) + [cost(e)];
    }
  }

  /** One step of `Gather`. */
  lemma GatherStep(members: seq<Text>, n: nat)
    requires n < |members|
    ensures Gather(members, n + 1) ==
      if MemberOf(members[n]).None? then Gather(members, n) else Upsert(Gather(members, n), MemberOf(members[n]).value)
  {
  }

  lemma MemberCostsPush(members: seq<Text>, n: nat)
    requires n < |members|
    ensures Sum(MemberCosts(members[..n + 1])) == Sum(MemberCosts(members[..n])) + |members[n]| + 1
  {
    SumPush(MemberCosts(members[..n]), |members[n]| + 1);
    assert MemberCosts(members[..n + 1]) == MemberCosts(members[..n]) + [|members[n]| + 1];
  }

  lemma NothingGathered(members: seq<Text>, cost: Entry -> nat)
    ensures Gather(members, 0) == [] && Sum(Costs(Gather(members, 0), cost)) == 0
  {
  }

  /** If no member costs more than its own length and a separator, neither does the whole. */
  lemma {:induction false} GatherCost(members: seq<Text>, n: nat, cost: Entry -> nat)
    requires n <= |members|
    requires forall k :: 0 <= k < n && MemberOf(members[k]).Some? ==>
      cost(MemberOf(members[k]).value) <= |members[k]| + 1
    ensures Sum(Costs(Gather(members, n), cost)) <= Sum(MemberCosts(members[..n]))
  {
    hide *;
    if n == 0 {
      NothingGathered(members, cost);
    } else {
      GatherCost(members, n - 1, cost);
      MemberCostsPush(members, n - 1);
      GatherStep(members, n - 1);
      if MemberOf(members[n - 1]).Some? {
        UpsertCost(Gather(members, n - 1), MemberOf(members[n - 1]).value, cost);
      }
    }
  }

  // ----- what extraction returns -----

  ghost predicate Sound(e: Entry) {
    Printed(e).Some? && WellFormed(e.value) && Normalized(e) == e
  }

  /** Keys stay distinct; every entry is the new one or an old one with another key. */
  lemma UpsertFacts(es: seq<Entry>, e: Entry)
    requires Distinct(es) && |es| <= MAX_BAGGAGE_ITEMS
    ensures Distinct(Upsert(es, e)) && |es| <= |Upsert(es, e)| <= MAX_BAGGAGE_ITEMS
    ensures forall k :: 0 <= k < |Upsert(es, e)| ==>
      Upsert(es, e)[k] == e || (k < |es| && Upsert(es, e)[k] == es[k] && es[k].key != e.key)
  {
  }

  ghost predicate AllSound(es: seq<Entry>) { forall k :: 0 <= k < |es| ==> Sound(es[k]) }

  lemma {:induction false} GatherSound(members: seq<Text>, n: nat)
    requires n <= |members|
    ensures |Gather(members, n)| <= MAX_BAGGAGE_ITEMS && Distinct(Gather(members, n)) && AllSound(Gather(members, n))
  {
    hide MemberOf, Sound, Upsert;
    if n > 0 {
      GatherSound(members, n - 1);
      if MemberOf(members[n - 1]).Some? {
        ParsedIsSound(members[n - 1]);
        UpsertFacts(Gather(members, n - 1), MemberOf(members[n - 1]).value);
      }
    }
  }

  lemma ParsedIsSound(member: Text)
    requires MemberOf(member).Some?
    ensures Sound(MemberOf(member).value)
  {
    ParsedPrints(member);
  }

  function Stored(es: seq<Entry>): nat { Sum(Costs(es, StoredCost)) }

  /** Extraction never checks the builder's bounds, and never breaks them: even replacement
      of ill-formed UTF-8 cannot make the stored data outgrow the header. */
  lemma ExtractedBounds(header: Text)
    ensures var es := Extracted(header);
      && |es| <= MAX_BAGGAGE_ITEMS && Distinct(es)
      && Stored(es) <= |header| && Stored(es) <= MAX_BAGGAGE_BYTES
      && AllSound(es)
  {
    var members := Split(header, COMMA);
    hide MemberOf, Sound, Gather, Split;
    if |header| <= MAX_BAGGAGE_BYTES {
      GatherSound(members, |members|);
      var es := Gather(members, |members|);
      if es != [] {
        forall k | 0 <= k < |members| && MemberOf(members[k]).Some?
          ensures StoredWithSeparator(MemberOf(members[k]).value) <= |members[k]| + 1
        {
          ParsedStored(members[k]);
        }
        GatherCost(members, |members|, StoredWithSeparator);
        assert members[..|members|] == members;
        JoinSplit(header, COMMA);
        JoinLength(members);
        StoredIsLess(es);
      } else {
        assert Costs(es, StoredCost) == [];
      }
    } else {
      assert Costs([], StoredCost) == [];
    }
  }

  function StoredWithSeparator(e: Entry): nat { StoredCost(e) + 1 }

  lemma ParsedStored(member: Text)
    requires MemberOf(member).Some?
    ensures StoredWithSeparator(MemberOf(member).value) <= |member| + 1
  {
    ParsedSizes(member);
  }

  lemma {:induction false} StoredIsLess(es: seq<Entry>)
    ensures Stored(es) + |es| == Sum(Costs(es, StoredWithSeparator))
  {
    if es != [] {
      var n := |es| - 1;
      StoredIsLess(es[..n]);
      var a, b := Costs(es, StoredCost), Costs(es, StoredWithSeparator);
      assert a[..n] == Costs(es[..n], StoredCost) && a[n] == StoredCost(es[n]);
      assert b[..n] == Costs(es[..n], StoredWithSeparator) && b[n] == StoredCost(es[n]) + 1;
      assert Sum(a) == Sum(a[..n]) + a[n] && Sum(b) == Sum(b[..n]) + b[n];
    }
  }

  /** The distinct keys of the first `n` members, in the order they first occur. */
  function KeysSeen(members: seq<Text>, n: nat): seq<Text>
    requires n <= |members|
  {
    if n == 0 then []
    else
      var before, e := KeysSeen(members, n - 1), MemberOf(members[n - 1]);
      if e.None? || e.value.key in before then before else before + [e.value.key]
  }

  function KeysOf(es: seq<Entry>): seq<Text> {
    seq(|es|, k requires 0 <= k < |es| => es[k].key)
  }

  function Front(keys: seq<Text>): seq<Text> {
    if |keys| <= MAX_BAGGAGE_ITEMS then keys else keys[..MAX_BAGGAGE_ITEMS]
  }

  /** `e` is what the last member with its key says. */
  ghost predicate IsLast(members: seq<Text>, n: nat, e: Entry)
    requires n <= |members|
  {
    exists i :: 0 <= i < n && MemberOf(members[i]) == Some(e) &&
      forall j :: i < j < n && MemberOf(members[j]).Some? ==> MemberOf(members[j]).value.key != e.key
  }

  /** The first 64 distinct keys are retained in the order of their first occurrence. */
  lemma {:induction false} RetainedKeys(members: seq<Text>, n: nat)
    requires n <= |members|
    ensures KeysOf(Gather(members, n)) == Front(KeysSeen(members, n))
  {
    hide MemberOf;
    if n > 0 {
      RetainedKeys(members, n - 1);
      var es, keys, e := Gather(members, n - 1), KeysSeen(members, n - 1), MemberOf(members[n - 1]);
      if e.Some? {
        var i := Place(es, e.value.key);
        if i < |es| {
          assert KeysOf(es)[i] == e.value.key;
          assert KeysOf(es[i := e.value]) == KeysOf(es);
          assert e.value.key in keys;
        } else if e.value.key in keys {
          var k :| 0 <= k < |keys| && keys[k] == e.value.key;
          assert k < |es| ==> KeysOf(es)[k] == es[k].key;
        } else if |es| < MAX_BAGGAGE_ITEMS {
          assert KeysOf(es + [e.value]) == KeysOf(es) + [e.value.key];
        }
      }
    }
  }

  /** Each retained key carries what its last member says. */
  lemma {:induction false} LastWins(members: seq<Text>, n: nat)
    requires n <= |members|
    ensures forall k :: 0 <= k < |Gather(members, n)| ==> IsLast(members, n, Gather(members, n)[k])
  {
    hide MemberOf, Upsert, IsLast;
    if n > 0 {
      LastWins(members, n - 1);
      GatherSound(members, n - 1);
      var es, e, now := Gather(members, n - 1), MemberOf(members[n - 1]), Gather(members, n);
      if e.Some? {
        UpsertFacts(es, e.value);
        NowLast(members, n - 1);
      }
      forall k | 0 <= k < |now| ensures IsLast(members, n, now[k]) {
        if e.None? || now[k] != e.value { StillLast(members, n - 1, now[k]); }
      }
    }
  }

  lemma NowLast(members: seq<Text>, n: nat)
    requires n < |members| && MemberOf(members[n]).Some?
    ensures IsLast(members, n + 1, MemberOf(members[n]).value)
  {
    hide MemberOf;
  }

  lemma StillLast(members: seq<Text>, n: nat, e: Entry)
    requires n < |members| && IsLast(members, n, e)
    requires MemberOf(members[n]).Some? ==> MemberOf(members[n]).value.key != e.key
    ensures IsLast(members, n + 1, e)
  {
    hide MemberOf;
    var i :| 0 <= i < n && MemberOf(members[i]) == Some(e) &&
      forall j :: i < j < n && MemberOf(members[j]).Some? ==> MemberOf(members[j]).value.key != e.key;
    assert forall j :: i < j < n + 1 && MemberOf(members[j]).Some? ==> MemberOf(members[j]).value.key != e.key;
  }

  /** The whole header counts: of all its members the first 64 distinct keys, each with what
      its last member says. */
  lemma ExtractedIs(header: Text)
    requires |header| <= MAX_BAGGAGE_BYTES
    ensures var members, es := Split(header, COMMA), Extracted(header);
      && KeysOf(es) == Front(KeysSeen(members, |members|))
      && forall k :: 0 <= k < |es| ==> IsLast(members, |members|, es[k])
  {
    hide MemberOf, Split, Gather, IsLast, KeysSeen;
    var members := Split(header, COMMA);
    RetainedKeys(members, |members|);
    LastWins(members, |members|);
  }

  // ----- injection, then extraction -----

  lemma {:induction false} KeepFacts(es: seq<Entry>, n: nat)
    requires n <= |es|
    ensures |Keep(es, n)| <= n && |Wire(Keep(es, n))| <= MAX_BAGGAGE_BYTES
    ensures forall k :: 0 <= k < |Keep(es, n)| ==> Keep(es, n)[k] in es[..n]
    ensures Distinct(es) ==> Distinct(Keep(es, n))
  {
    hide Printed, Wire;
    if n > 0 {
      KeepFacts(es, n - 1);
      assert forall x :: x in es[..n - 1] ==> x in es[..n];
      assert es[n - 1] in es[..n];
      if Distinct(es) {
        var before := Keep(es, n - 1);
        forall k | 0 <= k < |before| ensures before[k].key != es[n - 1].key {
          assert before[k] in es[..n - 1];
        }
      }
    } else {
      assert Wire([]) == [] by { EmptyWire(); }
    }
  }

  // ----- what injection keeps -----

  /** Strictly rising places, each holding the entry kept there. */
  ghost predicate Picks(es: seq<Entry>, kept: seq<Entry>, at: seq<nat>) {
    && |at| == |kept|
    && (forall k :: 0 <= k < |at| ==> at[k] < |es| && kept[k] == es[at[k]])
    && (forall j, k :: 0 <= j < k < |at| ==> at[j] < at[k])
  }

  /** Entry `m` is kept exactly when it can be printed and fits behind the `c` kept before it. */
  ghost predicate Greedy(es: seq<Entry>, kept: seq<Entry>, at: seq<nat>, m: nat, c: nat)
    requires m < |es| && AllPrintable(kept)
  {
    && c <= |kept| == |at|
    && (forall k :: 0 <= k < c ==> at[k] < m) && (forall k :: c <= k < |at| ==> m <= at[k])
    && (m in at <==> Printed(es[m]).Some? && |Wire(kept[..c] + [es[m]])| <= MAX_BAGGAGE_BYTES)
  }

  ghost predicate GreedyAt(es: seq<Entry>, kept: seq<Entry>, at: seq<nat>, m: nat)
    requires m < |es| && AllPrintable(kept)
  {
    exists c: nat :: Greedy(es, kept, at, m, c)
  }

  lemma GreedyGrows(es: seq<Entry>, kept: seq<Entry>, at: seq<nat>, m: nat, n: nat)
    requires m < n < |es| && AllPrintable(kept) && Printed(es[n]).Some? && GreedyAt(es, kept, at, m)
    ensures GreedyAt(es, kept + [es[n]], at + [n], m)
  {
    hide Printed, Wire;
    var c: nat :| Greedy(es, kept, at, m, c);
    assert (kept + [es[n]])[..c] == kept[..c];
    assert forall x :: x in at + [n] <==> x in at || x == n;
    assert Greedy(es, kept + [es[n]], at + [n], m, c);
  }

  lemma {:induction false} KeepGreedy(es: seq<Entry>, n: nat) returns (at: seq<nat>)
    requires n <= |es|
    ensures Picks(es, Keep(es, n), at) && forall k :: 0 <= k < |at| ==> at[k] < n
    ensures forall m: nat :: m < n ==> GreedyAt(es, Keep(es, n), at, m)
  {
    hide Printed, Wire, GreedyAt;
    if n == 0 {
      at := [];
    } else {
      var before, e := Keep(es, n - 1), es[n - 1];
      var a := KeepGreedy(es, n - 1);
      at := a;
      if Printed(e).Some? && |Wire(before + [e])| <= MAX_BAGGAGE_BYTES {
        at := a + [n - 1];
        forall m: nat | m < n - 1 ensures GreedyAt(es, Keep(es, n), at, m) {
          GreedyGrows(es, before, a, m, n - 1);
        }
      }
      GreedyLast(es, n, a, at);
    }
  }

  lemma GreedyLast(es: seq<Entry>, n: nat, a: seq<nat>, at: seq<nat>)
    requires 0 < n <= |es| && |a| == |Keep(es, n - 1)| && forall k :: 0 <= k < |a| ==> a[k] < n - 1
    requires var before, e := Keep(es, n - 1), es[n - 1];
      at == if Printed(e).Some? && |Wire(before + [e])| <= MAX_BAGGAGE_BYTES then a + [n - 1] else a
    ensures GreedyAt(es, Keep(es, n), at, n - 1)
  {
    hide Printed, Wire;
    assert Keep(es, n)[..|a|] == Keep(es, n - 1);
    assert Greedy(es, Keep(es, n), at, n - 1, |a|);
  }

  /** Injection walks the entries once and skips what cannot be printed or does not fit, but
      goes on to later, smaller ones. */
  lemma KeptGreedily(es: seq<Entry>) returns (at: seq<nat>)
    ensures Picks(es, Kept(es), at)
    ensures forall m: nat :: m < |es| ==> GreedyAt(es, Kept(es), at, m)
  {
    at := KeepGreedy(es, |es|);
  }

  lemma EmptyWire()
    ensures AllPrintable([]) && Wire([]) == []
  {
    assert PrintedAll([]) == [];
  }

  lemma UpsertNew(es: seq<Entry>, e: Entry)
    requires |es| < MAX_BAGGAGE_ITEMS && forall k :: 0 <= k < |es| ==> es[k].key != e.key
    ensures Upsert(es, e) == es + [e]
  {
  }

  /** Distinct keys within the limit are gathered one after the other. */
  lemma {:induction false} GatherDistinct(members: seq<Text>, es: seq<Entry>, n: nat)
    requires n <= |members| == |es| <= MAX_BAGGAGE_ITEMS && Distinct(es)
    requires forall k :: 0 <= k < |es| ==> MemberOf(members[k]) == Some(es[k])
    ensures Gather(members, n) == es[..n]
  {
    hide MemberOf, Upsert;
    if n > 0 {
      UpsertNew(es[..n - 1], es[n - 1]);
      assert es[..n - 1] + [es[n - 1]] == es[..n];
      GatherDistinct(members, es, n - 1);
    }
  }

  /** Extraction of any wire form gives back its entries, metadata normalized. */
  lemma ExtractWire(es: seq<Entry>)
    requires AllPrintable(es) && Utf8Values(es) && Distinct(es)
    requires |es| <= MAX_BAGGAGE_ITEMS && |Wire(es)| <= MAX_BAGGAGE_BYTES
    ensures Extracted(Wire(es)) == NormalizedAll(es)
  {
    hide MemberOf, Printed, Normalized, WellFormed, Gather;
    var printed := PrintedAll(es);
    forall k | 0 <= k < |es| ensures MemberOf(printed[k]) == Some(Normalized(es[k])) && COMMA !in printed[k] {
      PrintedParses(es[k]);
    }
    if es == [] {
      EmptyHeader();
    } else {
      SplitJoin(printed, COMMA);
      NormalizedKeys(es);
      GatherDistinct(printed, NormalizedAll(es), |es|);
      assert NormalizedAll(es)[..|es|] == NormalizedAll(es);
    }
  }

  lemma NormalizedKeys(es: seq<Entry>)
    requires Distinct(es)
    ensures Distinct(NormalizedAll(es))
  {
  }

  lemma EmptyHeader()
    ensures Extracted([]) == [] && Wire([]) == [] && NormalizedAll([]) == []
  {
    EmptyWire();
    var members := Split([], COMMA);
    assert members == [[]];
    assert Split([], SEMICOLON) == [[]] && PairOf([]) == None;
    assert Gather(members, 0) == [] && Gather(members, 1) == [];
  }

  lemma WireIsUtf8(es: seq<Entry>)
    requires AllPrintable(es)
    ensures WellFormed(Wire(es))
  {
    hide Printed, WellFormed;
    forall k | 0 <= k < |es| ensures WellFormed(PrintedAll(es)[k]) {
      PrintedIsUtf8(es[k]);
    }
    JoinWellFormed(PrintedAll(es), COMMA);
  }

  /** The injected header is a string within the budget, whatever the entries, so extraction
      accepts it. */
  lemma InjectedIsUtf8(es: seq<Entry>)
    ensures WellFormed(Injected(es)) && |Injected(es)| <= MAX_BAGGAGE_BYTES
    ensures Extraction(Injected(es)) == Success(Extracted(Injected(es)))
  {
    KeepFacts(es, |es|);
    WireIsUtf8(Kept(es));
    hide WellFormed, Wire, Keep, Extracted;
  }

  /** Section 3 of W3C Baggage: what is injected is extracted again, in order, unchanged but
      for the spacing of metadata; values may hold any UTF-8. */
  lemma RoundTrip(es: seq<Entry>)
    requires Distinct(es) && |es| <= MAX_BAGGAGE_ITEMS && Utf8Values(es)
    ensures Extraction(Injected(es)) == Success(NormalizedAll(Kept(es)))
    ensures |Injected(es)| <= MAX_BAGGAGE_BYTES
  {
    InjectedIsUtf8(es);
    KeepFacts(es, |es|);
    hide Wire, Keep, Extraction;
    assert forall x :: x in es[..|es|] ==> x in es;
    ExtractWire(Kept(es));
  }

  // ----- extraction, then injection -----

  lemma {:induction false} WirePrefix(es: seq<Entry>, n: nat)
    requires AllPrintable(es) && n <= |es|
    ensures AllPrintable(es[..n]) && |Wire(es[..n])| <= |Wire(es)|
    decreases |es|
  {
    hide Printed;
    if n < |es| {
      var m := |es| - 1;
      WirePrefix(es[..m], n);
      assert es[..m][..n] == es[..n];
      assert PrintedAll(es) == PrintedAll(es[..m]) + [Printed(es[m]).value];
      if m > 0 {
        JoinAppend(PrintedAll(es[..m]), Printed(es[m]).value, COMMA);
      } else {
        EmptyWire();
      }
    } else {
      assert es[..n] == es;
    }
  }

  /** Nothing is skipped exactly when the whole wire form fits. */
  lemma {:induction false} KeepAll(es: seq<Entry>, n: nat)
    requires AllPrintable(es) && n <= |es| && |Wire(es)| <= MAX_BAGGAGE_BYTES
    ensures Keep(es, n) == es[..n]
  {
    if n > 0 {
      KeepAll(es, n - 1);
      WirePrefix(es, n);
      assert es[..n - 1] + [es[n - 1]] == es[..n];
    }
  }

  lemma {:induction false} KeepEverything(es: seq<Entry>, n: nat)
    requires n <= |es| && |Keep(es, n)| == n
    ensures Keep(es, n) == es[..n]
  {
    hide Printed, Wire;
    if n > 0 {
      KeepFacts(es, n - 1);
      KeepEverything(es, n - 1);
    }
  }

  /** A header survives extraction, injection and extraction, and even keeps only the number
      of its entries, exactly when these, printed again, fit in the budget. */
  lemma Reinjection(header: Text)
    ensures AllPrintable(Extracted(header))
    ensures var es := Extracted(header);
      var again := Extraction(Injected(es));
      && again.Success?
      && (again.value == es <==> |Wire(es)| <= MAX_BAGGAGE_BYTES)
      && (|again.value| == |es| <==> |Wire(es)| <= MAX_BAGGAGE_BYTES)
  {
    var es := Extracted(header);
    ExtractedBounds(header);
    SoundFacts(es);
    InjectedIsUtf8(es);
    hide Extracted, Sound, Extraction;
    RoundTrip(es);
    if |Wire(es)| <= MAX_BAGGAGE_BYTES {
      KeepAll(es, |es|);
      assert es[..|es|] == es;
    }
    if |Extracted(Injected(es))| == |es| {
      assert |Kept(es)| == |NormalizedAll(Kept(es))| == |es|;
      KeepEverything(es, |es|);
      assert es[..|es|] == es;
    }
  }

  lemma SoundFacts(es: seq<Entry>)
    requires AllSound(es)
    ensures AllPrintable(es) && Utf8Values(es) && NormalizedAll(es) == es
  {
    hide Printed, WellFormed, Normalized;
  }

  /** Every member's value is UTF-8 once percent-decoded. */
  ghost predicate DecodesToUtf8(header: Text) {
    forall m :: m in Split(header, COMMA) && MemberOf(m).Some? ==> WellFormed(Unescape(PairOf(m).value.1).value)
  }

  lemma MemberReprints(member: Text)
    requires MemberOf(member).Some? ==> WellFormed(Unescape(PairOf(member).value.1).value)
    ensures MemberOf(member).Some? ==> WireCost(MemberOf(member).value) <= |member| + 1
  {
    if MemberOf(member).Some? { ReprintNoLonger(member); }
  }

  /** Without replacement the entries fit: no member prints longer than it was received. */
  lemma ReinjectionOfUtf8(header: Text)
    requires DecodesToUtf8(header)
    ensures AllPrintable(Extracted(header))
    ensures |Wire(Extracted(header))| <= |header| && |Wire(Extracted(header))| <= MAX_BAGGAGE_BYTES
    ensures Extraction(Injected(Extracted(header))) == Success(Extracted(header))
  {
    var members, es := Split(header, COMMA), Extracted(header);
    Reinjection(header);
    hide MemberOf, Gather, Wire, Split, Injected, WireCost, PairOf, Unescape, WellFormed;
    WireLength(es);
    if |header| <= MAX_BAGGAGE_BYTES && es != [] {
      forall k | 0 <= k < |members| && MemberOf(members[k]).Some?
        ensures WireCost(MemberOf(members[k]).value) <= |members[k]| + 1
      {
        assert members[k] in members;
        MemberReprints(members[k]);
      }
      GatherCost(members, |members|, WireCost);
      assert members[..|members|] == members;
      JoinSplit(header, COMMA);
      JoinLength(members);
    } else {
      EmptyWire();
    }
  }

  // ----- a header that does not survive -----

  function Copies(unit: Text, n: nat): Text {
    if n == 0 then [] else unit + Copies(unit, n - 1)
  }

  lemma {:induction false} CopiesLength(unit: Text, n: nat)
    ensures |Copies(unit, n)| == n * |unit|
  {
    if n > 0 { CopiesLength(unit, n - 1); }
  }

  const ESCAPED_FF: Text := [PERCENT, 0x46, 0x46]

  lemma {:induction false} FFsUnescape(n: nat)
    ensures AllValues(Copies(ESCAPED_FF, n)) && Unescape(Copies(ESCAPED_FF, n)) == Some(Copies([0xFF], n))
  {
    if n > 0 {
      FFsUnescape(n - 1);
      HexDigitsAre(5, 0x46);
      hide Unescape, HexDigit;
      UnescapeEscaped(0x46, 0x46, Copies(ESCAPED_FF, n - 1));
    } else {
      UnescapeEscaped(0x46, 0x46, []);
      hide Unescape;
    }
  }

  lemma {:induction false} FFsAreReplaced(n: nat)
    ensures Lossy(Copies([0xFF], n)) == Copies(REPLACEMENT, n)
  {
    if n > 0 {
      FFsAreReplaced(n - 1);
      var t := Copies([0xFF], n);
      assert t[0] == 0xFF && t[1..] == Copies([0xFF], n - 1);
      assert Announced(0xFF) == 0 && CharLen(t) == 0 && SubpartLen(t) == 1;
    }
  }

  lemma {:induction false} ReplacementsEscape(n: nat)
    ensures |Escape(Copies(REPLACEMENT, n))| == 9 * n
  {
    if n > 0 {
      ReplacementsEscape(n - 1);
      EscapeAppend(REPLACEMENT, Copies(REPLACEMENT, n - 1));
      assert |Escape(REPLACEMENT)| == 9 by {
        assert REPLACEMENT[1..] == [0xBF, 0xBD] && [0xBF, 0xBD][1..] == [0xBD] && [0xBD][1..] == [];
      }
    }
  }

  lemma EscapedFFs(n: nat)
    ensures AllValues(Copies(ESCAPED_FF, n)) && Unescape(Copies(ESCAPED_FF, n)) == Some(Copies([0xFF], n))
    ensures Lossy(Copies([0xFF], n)) == Copies(REPLACEMENT, n)
    ensures |Escape(Copies(REPLACEMENT, n))| == 9 * n
  {
    hide *;
    FFsUnescape(n);
    FFsAreReplaced(n);
    ReplacementsEscape(n);
  }

  function FFHeader(n: nat): Text { [0x6B, EQUALS] + Copies(ESCAPED_FF, n) }

  lemma FFMember(n: nat)
    ensures MemberOf(FFHeader(n)) == Some(Entry([0x6B], Copies(REPLACEMENT, n), [])) && COMMA !in FFHeader(n)
  {
    hide MemberOf, Unescape, Lossy, AllValues, AllTokens, PairOf, Split, Copies, MetadataOk;
    var raw := Copies(ESCAPED_FF, n);
    EscapedFFs(n);
    EmptyMetadata();
    PlainValue();
    ParseLaidOut([0x6B], raw, []);
    assert [0x6B] + [EQUALS] + raw + Suffix([]) == FFHeader(n);
    PairPrinted([0x6B], raw);
  }

  lemma LoneMember(h: Text, e: Entry)
    requires |h| <= MAX_BAGGAGE_BYTES && COMMA !in h && MemberOf(h) == Some(e)
    ensures Extracted(h) == [e]
  {
    hide MemberOf, Split, Gather;
    SplitAlone(h);
    GatherOne(h);
  }

  lemma SplitAlone(h: Text)
    requires COMMA !in h
    ensures Split(h, COMMA) == [h]
  {
    assert IndexOf(h, COMMA) == |h|;
  }

  lemma GatherOne(h: Text)
    requires MemberOf(h).Some?
    ensures Gather([h], 1) == [MemberOf(h).value]
  {
    hide MemberOf;
    assert Gather([h], 0) == [];
  }

  lemma FFHeaderExtracts(n: nat)
    requires 2 + 3 * n <= MAX_BAGGAGE_BYTES
    ensures Extracted(FFHeader(n)) == [Entry([0x6B], Copies(REPLACEMENT, n), [])]
  {
    assert |FFHeader(n)| == 2 + 3 * n by { CopiesLength(ESCAPED_FF, n); }
    hide *;
    FFMember(n);
    LoneMember(FFHeader(n), Entry([0x6B], Copies(REPLACEMENT, n), []));
  }

  /** Between 911 and 2730 bytes `%FF` fit in the header but not, tripled, in the budget of
      its re-injection: the one entry is skipped and extraction then finds nothing. */
  lemma ReinjectionCanLose(n: nat)
    requires 911 <= n <= 2730
    ensures |FFHeader(n)| <= MAX_BAGGAGE_BYTES && WellFormed(FFHeader(n))
    ensures Extraction(FFHeader(n)).Success? && Extraction(FFHeader(n)).value != []
    ensures Extraction(Injected(Extraction(FFHeader(n)).value)) == Success([])
  {
    var e := Entry([0x6B], Copies(REPLACEMENT, n), []);
    FFHeaderAccepted(n);
    FFHeaderExtracts(n);
    EmptyAccepted();
    EscapedFFs(n);
    hide *;
    PrintedSize(e, n);
    TooLongToKeep(e);
  }

  lemma FFHeaderAccepted(n: nat)
    requires 2 + 3 * n <= MAX_BAGGAGE_BYTES
    ensures |FFHeader(n)| <= MAX_BAGGAGE_BYTES && WellFormed(FFHeader(n))
    ensures Extraction(FFHeader(n)) == Success(Extracted(FFHeader(n)))
  {
    CopiesLength(ESCAPED_FF, n);
    EscapedFFs(n);
    hide Copies, WellFormed, Extracted;
    AsciiIsWellFormed(FFHeader(n));
  }

  lemma EmptyAccepted()
    ensures Extraction([]) == Success([])
  {
    EmptyHeader();
    hide Extracted;
  }

  lemma PrintedSize(e: Entry, n: nat)
    requires |Escape(e.value)| == 9 * n && e.key == [0x6B] && e.metadata == []
    ensures Printed(e).Some? && |Printed(e).value| == 2 + 9 * n
  {
    PlainValue();
    hide Escape;
  }

  lemma TooLongToKeep(e: Entry)
    requires Printed(e).Some? && |Printed(e).value| > MAX_BAGGAGE_BYTES
    ensures Injected([e]) == []
  {
    hide Printed;
    EmptyWire();
    assert PrintedAll([e]) == [Printed(e).value];
    assert Keep([e], 0) == [] && [] + [e] == [e];
    assert Keep([e], 1) == [];
  }

  // ----- the code -----

  /** `otel_baggage_propagation_extract` */
  method Extract(header: Text) returns (r: Result<seq<Entry>>)
    ensures r == Extraction(header)
    ensures |header| > MAX_BAGGAGE_BYTES ==> r == Success([])
    ensures |header| <= MAX_BAGGAGE_BYTES ==> (r.Failure? <==> !WellFormed(header))
    ensures r.Failure? ==> r == Failure(InvalidUtf8)
  {
    hide MemberOf, WellFormed, Split;
    var entries: seq<Entry> := [];
    if |header| <= MAX_BAGGAGE_BYTES {
      if !WellFormed(header) {
        return Failure(InvalidUtf8);
      }
      var members := Split(header, COMMA);
      for n := 0 to |members|
        invariant entries == Gather(members, n)
      {
        var entry := ParseMember(members[n]);
        if entry.Some? {
          var i := Place(entries, entry.value.key);
          if i < |entries| {
            entries := entries[i := entry.value];
          } else if |entries| < MAX_BAGGAGE_ITEMS {
            entries := entries + [entry.value];
          }
        }
      }
    }
    r := Success(entries);
  }

  lemma WirePush(es: seq<Entry>, e: Entry)
    requires AllPrintable(es) && Printed(e).Some?
    ensures Wire(es + [e]) == if es == [] then Printed(e).value else Wire(es) + [COMMA] + Printed(e).value
    ensures Wire(es) == [] <==> es == []
  {
    hide MetadataOk, AllTokens, Escape;
    assert PrintedAll(es + [e]) == PrintedAll(es) + [Printed(e).value];
    if es != [] {
      JoinAppend(PrintedAll(es), Printed(e).value, COMMA);
      assert PrintedAll(es)[0] == Printed(es[0]).value != [];
    } else {
      EmptyWire();
    }
  }

  /** `otel_baggage_propagation_inject` up to the copy into the caller's buffer. */
  method Inject(entries: seq<Entry>) returns (encoded: Text)
    ensures encoded == Injected(entries)
  {
    hide Printed, Wire;
    EmptyWire();
    encoded := [];
    for n := 0 to |entries|
      invariant encoded == Wire(Keep(entries, n))
    {
      var member := EncodedMember(entries[n]);
      if member.Some? {
        WirePush(Keep(entries, n), entries[n]);
        var separator := if encoded != [] then 1 else 0;
        if |encoded| + separator + |member.value| <= MAX_BAGGAGE_BYTES {
          if separator != 0 {
            encoded := encoded + [COMMA];
          }
          encoded := encoded + member.value;
        }
      }
    }
  }
}
