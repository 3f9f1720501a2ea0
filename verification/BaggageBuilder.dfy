/** The baggage builder: a bounded list of entries, updated in place, that behaves as a map
    which remembers the order of insertion. */
module BaggageBuilder {
  import opened Bytes
  import opened Outcome
  import opened Utf8
  import opened BaggageMember
  import opened BaggageHeader

  // ----- the specification: a map and the order its keys came in -----

  datatype OrderedMap = OrderedMap(order: seq<Text>, content: map<Text, Entry>)

  function Put(m: OrderedMap, e: Entry): OrderedMap {
    OrderedMap(if e.key in m.content then m.order else m.order + [e.key], m.content[e.key := e])
  }

  function Without(keys: seq<Text>, key: Text): seq<Text> {
    if keys == [] then []
    else if keys[0] == key then Without(keys[1..], key)
    else [keys[0]] + Without(keys[1..], key)
  }

  function Drop(m: OrderedMap, key: Text): OrderedMap {
    OrderedMap(Without(m.order, key), map k | k in m.content && k != key :: m.content[k])
  }

  ghost predicate Coherent(m: OrderedMap) {
    forall k :: k in m.order <==> k in m.content
  }

  function Volume(m: OrderedMap): nat
    requires Coherent(m)
  {
    Sum(seq(|m.order|, k requires 0 <= k < |m.order| =>
      assert m.order[k] in m.order; StoredCost(m.content[m.order[k]])))
  }

  /** Which error a set is refused with, if any, told by the map it would lead to. */
  function Refusal(m: OrderedMap, e: Entry): Option<Status>
    requires Coherent(m)
  {
    if StoredCost(e) > MAX_BAGGAGE_BYTES then Some(InvalidConfig)
    else if !WellFormed(e.key) then Some(InvalidUtf8)
    else if e.key == [] then Some(InvalidArgument)
    else if !WellFormed(e.value) || !WellFormed(e.metadata) then Some(InvalidUtf8)
    else if Volume(Put(m, e)) > MAX_BAGGAGE_BYTES || |Put(m, e).order| > MAX_BAGGAGE_ITEMS then Some(InvalidConfig)
    else None
  }

  datatype Call = Set(entry: Entry) | Remove(key: Text)

  function Effect(m: OrderedMap, call: Call): OrderedMap
    requires Coherent(m)
  {
    match call
    case Set(e) => if Refusal(m, e).None? then Put(m, e) else m
    case Remove(key) => if WellFormed(key) then Drop(m, key) else m
  }

  lemma {:induction false} WithoutFacts(keys: seq<Text>, key: Text)
    ensures forall k :: k in Without(keys, key) <==> k in keys && k != key
    ensures key !in keys ==> Without(keys, key) == keys
  {
    if keys != [] {
      WithoutFacts(keys[1..], key);
      assert keys == [keys[0]] + keys[1..];
    }
  }

  lemma EffectCoherent(m: OrderedMap, call: Call)
    requires Coherent(m)
    ensures Coherent(Effect(m, call))
  {
    if call.Remove? { WithoutFacts(m.order, call.key); }
  }

  ghost function MapAfter(calls: seq<Call>): (m: OrderedMap)
    ensures Coherent(m)
  {
    if calls == [] then OrderedMap([], map[])
    else
      var m := MapAfter(calls[..|calls| - 1]);
      EffectCoherent(m, calls[|calls| - 1]);
      Effect(m, calls[|calls| - 1])
  }

  // ----- the list that implements it -----

  function Assigned(es: seq<Entry>, e: Entry): seq<Entry> {
    var i := Place(es, e.key);
    if i < |es| then es[i := e] else es + [e]
  }

  function Removed(es: seq<Entry>, key: Text): seq<Entry> {
    var i := Place(es, key);
    if i < |es| then es[..i] + es[i + 1..] else es
  }

  function View(es: seq<Entry>): OrderedMap {
    OrderedMap(KeysOf(es), map k | k in KeysOf(es) :: es[At(es, k)])
  }

  /** Where a key that is there stands. */
  function At(es: seq<Entry>, key: Text): (i: nat)
    requires key in KeysOf(es)
    ensures i < |es| && es[i].key == key
  {
    var i := Place(es, key);
    assert i < |es| by {
      var k :| 0 <= k < |es| && KeysOf(es)[k] == key;
    }
    i
  }

  ghost predicate AllNamed(es: seq<Entry>) { forall k :: 0 <= k < |es| ==> es[k].key != [] }

  predicate Utf8Entry(e: Entry) { WellFormed(e.key) && WellFormed(e.value) && WellFormed(e.metadata) }

  ghost predicate Utf8Entries(es: seq<Entry>) { forall k :: 0 <= k < |es| ==> Utf8Entry(es[k]) }

  /** What the builder keeps at all times. */
  ghost predicate Bounded(es: seq<Entry>) {
    && Distinct(es) && |es| <= MAX_BAGGAGE_ITEMS && Stored(es) <= MAX_BAGGAGE_BYTES
    && AllNamed(es) && Utf8Entries(es)
  }

  lemma DistinctPlace(es: seq<Entry>, i: nat)
    requires Distinct(es) && i < |es|
    ensures Place(es, es[i].key) == i
  {
  }

  lemma KeyAt(es: seq<Entry>, i: nat)
    requires Distinct(es) && i < |es|
    ensures es[i].key in View(es).content && View(es).content[es[i].key] == es[i]
  {
    assert KeysOf(es)[i] == es[i].key;
    DistinctPlace(es, i);
  }

  lemma ViewCoherent(es: seq<Entry>)
    ensures Coherent(View(es))
  {
  }

  lemma VolumeIsStored(es: seq<Entry>)
    requires Distinct(es)
    ensures Coherent(View(es)) && Volume(View(es)) == Stored(es)
  {
    ViewCoherent(es);
    var m := View(es);
    forall k | 0 <= k < |es| ensures m.order[k] in m.content && m.content[m.order[k]] == es[k] {
      KeyAt(es, k);
    }
    assert seq(|m.order|, k requires 0 <= k < |m.order| =>
      assert m.order[k] in m.order; StoredCost(m.content[m.order[k]])) == Costs(es, StoredCost);
  }

  lemma KeyKnown(es: seq<Entry>, key: Text)
    ensures Place(es, key) < |es| <==> key in KeysOf(es)
  {
    if Place(es, key) < |es| {
      assert KeysOf(es)[Place(es, key)] == key;
    }
    if key in KeysOf(es) {
      var k :| 0 <= k < |es| && KeysOf(es)[k] == key;
    }
  }

  lemma AssignedDistinct(es: seq<Entry>, e: Entry)
    requires Distinct(es)
    ensures Distinct(Assigned(es, e))
  {
  }

  lemma AssignedKeys(es: seq<Entry>, e: Entry)
    ensures KeysOf(Assigned(es, e)) == if e.key in KeysOf(es) then KeysOf(es) else KeysOf(es) + [e.key]
  {
    KeyKnown(es, e.key);
  }

  /** A view is known by its order and by what it holds for each entry's key. */
  lemma {:induction false} ViewIs(es: seq<Entry>, m: OrderedMap)
    requires Distinct(es) && m.order == KeysOf(es)
    requires forall k :: k in m.content ==> k in m.order
    requires forall j :: 0 <= j < |es| ==> es[j].key in m.content && m.content[es[j].key] == es[j]
    ensures View(es) == m
  {
    var content := View(es).content;
    forall k | k in content ensures k in m.content && content[k] == m.content[k] {
      assert content[k] == es[At(es, k)];
    }
    assert content.Keys == m.content.Keys;
    assert content == m.content;
  }

  lemma AssignedAt(es: seq<Entry>, e: Entry, j: nat)
    requires Distinct(es) && j < |Assigned(es, e)|
    ensures Assigned(es, e)[j] == e || (j < |es| && Assigned(es, e)[j] == es[j] && es[j].key != e.key)
  {
  }

  /** Replacing in place or appending is putting. */
  lemma AssignedIsPut(es: seq<Entry>, e: Entry)
    requires Distinct(es)
    ensures View(Assigned(es, e)) == Put(View(es), e)
  {
    AssignedDistinct(es, e);
    AssignedKeys(es, e);
    ViewCoherent(es);
    var after := Assigned(es, e);
    hide Assigned, Distinct, KeysOf;
    forall j | 0 <= j < |after|
      ensures after[j].key in Put(View(es), e).content && Put(View(es), e).content[after[j].key] == after[j]
    {
      AssignedAt(es, e, j);
      if j < |es| { KeyAt(es, j); }
    }
    ViewIs(after, Put(View(es), e));
  }

  /** The map and its order say everything about the list. */
  lemma ViewIsFaithful(es: seq<Entry>, fs: seq<Entry>)
    requires Distinct(es) && Distinct(fs) && View(es) == View(fs)
    ensures es == fs
  {
    OrderLength(es);
    OrderLength(fs);
    forall i | 0 <= i < |es| ensures es[i] == fs[i] {
      KeyOf(es, i);
      KeyOf(fs, i);
      KeyAt(es, i);
      KeyAt(fs, i);
    }
  }

  lemma {:induction false} WithoutOne(keys: seq<Text>, i: nat)
    requires i < |keys| && forall j, k :: 0 <= j < k < |keys| ==> keys[j] != keys[k]
    ensures Without(keys, keys[i]) == keys[..i] + keys[i + 1..]
  {
    if i == 0 {
      WithoutFacts(keys[1..], keys[0]);
    } else {
      WithoutOne(keys[1..], i - 1);
      assert keys[..i] + keys[i + 1..] == [keys[0]] + (keys[1..][..i - 1] + keys[1..][i..]);
    }
  }

  lemma KeyOf(es: seq<Entry>, i: nat)
    requires i < |es|
    ensures |KeysOf(es)| == |es| && KeysOf(es)[i] == es[i].key
  {
  }

  lemma KeysWithout(es: seq<Entry>, i: nat)
    requires i < |es|
    ensures KeysOf(es[..i] + es[i + 1..]) == KeysOf(es)[..i] + KeysOf(es)[i + 1..]
  {
  }

  lemma CostsReplaced(es: seq<Entry>, i: nat, e: Entry)
    requires i < |es|
    ensures Costs(es[i := e], StoredCost) == Costs(es, StoredCost)[i := StoredCost(e)]
    ensures Costs(es, StoredCost)[i] == StoredCost(es[i])
  {
  }

  lemma CostsPushed(es: seq<Entry>, e: Entry)
    ensures Costs(es + [e], StoredCost) == Costs(es, StoredCost) + [StoredCost(e)]
  {
  }

  lemma CostsWithout(es: seq<Entry>, i: nat)
    requires i < |es|
    ensures Costs(es[..i] + es[i + 1..], StoredCost) == Costs(es, StoredCost)[..i] + Costs(es, StoredCost)[i + 1..]
  {
    var rest, costs := es[..i] + es[i + 1..], Costs(es, StoredCost);
    forall k | 0 <= k < |rest| ensures Costs(rest, StoredCost)[k] == (costs[..i] + costs[i + 1..])[k] {
      hide StoredCost;
    }
  }

  lemma RemovedKeys(es: seq<Entry>, key: Text)
    requires Distinct(es)
    ensures KeysOf(Removed(es, key)) == Without(KeysOf(es), key)
  {
    var keys, i := KeysOf(es), Place(es, key);
    assert forall j, k :: 0 <= j < k < |keys| ==> keys[j] != keys[k];
    KeyKnown(es, key);
    hide Without, KeysOf;
    if i < |es| {
      KeysWithout(es, i);
      assert keys[i] == key by { KeyOf(es, i); }
      WithoutOne(keys, i);
    } else {
      WithoutFacts(keys, key);
    }
  }

  lemma RemovedDistinct(es: seq<Entry>, key: Text)
    requires Distinct(es)
    ensures Distinct(Removed(es, key))
    ensures forall j :: 0 <= j < |Removed(es, key)| ==> Removed(es, key)[j] in es && Removed(es, key)[j].key != key
  {
  }

  /** Removing the entry at the key's place is dropping the key. */
  lemma RemovedIsDrop(es: seq<Entry>, key: Text)
    requires Distinct(es)
    ensures View(Removed(es, key)) == Drop(View(es), key)
  {
    RemovedDistinct(es, key);
    RemovedKeys(es, key);
    WithoutFacts(KeysOf(es), key);
    var after := Removed(es, key);
    hide Removed, Without, Distinct, KeysOf;
    forall j | 0 <= j < |after|
      ensures after[j].key in Drop(View(es), key).content && Drop(View(es), key).content[after[j].key] == after[j]
    {
      assert after[j] in es;
      var i :| 0 <= i < |es| && es[i] == after[j];
      KeyAt(es, i);
    }
    ViewIs(after, Drop(View(es), key));
  }

  lemma RemovedStored(es: seq<Entry>, key: Text)
    ensures Stored(Removed(es, key)) <= Stored(es)
  {
    var i, costs := Place(es, key), Costs(es, StoredCost);
    if i < |es| {
      CostsWithout(es, i);
      hide Sum, Costs;
      SumRemove(costs, i);
    }
  }

  lemma {:induction false} SumRemove(ns: seq<nat>, i: nat)
    requires i < |ns|
    ensures Sum(ns[..i] + ns[i + 1..]) + ns[i] == Sum(ns)
  {
    var m := |ns| - 1;
    if i < m {
      SumRemove(ns[..m], i);
      assert (ns[..i] + ns[i + 1..])[..m - 1] == ns[..m][..i] + ns[..m][i + 1..];
    } else {
      assert ns[..i] + ns[i + 1..] == ns[..m];
    }
  }

  // ----- whole runs -----

  function Next(es: seq<Entry>, call: Call): seq<Entry>
    requires Coherent(View(es))
  {
    match call
    case Set(e) => if Refusal(View(es), e).None? then Assigned(es, e) else es
    case Remove(key) => if WellFormed(key) then Removed(es, key) else es
  }

  ghost function After(calls: seq<Call>): seq<Entry> {
    if calls == [] then []
    else
      var es := After(calls[..|calls| - 1]);
      ViewCoherent(es);
      Next(es, calls[|calls| - 1])
  }

  lemma AssignedNamed(es: seq<Entry>, e: Entry)
    requires Distinct(es) && AllNamed(es) && Utf8Entries(es) && e.key != [] && Utf8Entry(e)
    ensures AllNamed(Assigned(es, e)) && Utf8Entries(Assigned(es, e))
  {
    hide Assigned, Utf8Entry, Distinct;
    forall j | 0 <= j < |Assigned(es, e)| ensures Assigned(es, e)[j].key != [] && Utf8Entry(Assigned(es, e)[j]) {
      AssignedAt(es, e, j);
    }
  }

  lemma AcceptedFacts(m: OrderedMap, e: Entry)
    requires Coherent(m) && Refusal(m, e).None?
    ensures e.key != [] && Utf8Entry(e) && Coherent(Put(m, e))
    ensures Volume(Put(m, e)) <= MAX_BAGGAGE_BYTES && |Put(m, e).order| <= MAX_BAGGAGE_ITEMS
  {
    hide Volume, WellFormed;
  }

  /** An accepted set leaves a bounded builder: the volume checked is that of the result. */
  lemma AcceptedIsBounded(es: seq<Entry>, e: Entry)
    requires Bounded(es) && Coherent(View(es)) && Refusal(View(es), e).None?
    ensures Bounded(Assigned(es, e))
  {
    AcceptedFacts(View(es), e);
    BoundedIsDistinct(es);
    AssignedDistinct(es, e);
    AssignedNamed(es, e);
    AssignedIsPut(es, e);
    VolumeIsStored(Assigned(es, e));
    OrderLength(Assigned(es, e));
    hide Refusal, Volume, Put, View, Distinct, Stored, Assigned, Utf8Entries;
  }

  lemma OrderLength(es: seq<Entry>)
    ensures |View(es).order| == |es|
  {
  }

  /** Every call takes a bounded list to a bounded list that stands for the right map. */
  lemma NextRefines(es: seq<Entry>, call: Call)
    requires Bounded(es) && Coherent(View(es))
    ensures Bounded(Next(es, call)) && View(Next(es, call)) == Effect(View(es), call)
  {
    hide View, Volume, Refusal, Put, Drop, Assigned, Removed, WellFormed, Stored;
    match call {
      case Set(e) =>
        if Refusal(View(es), e).None? {
          AssignedIsPut(es, e);
          AcceptedIsBounded(es, e);
        }
      case Remove(key) =>
        RemovedIsDrop(es, key);
        RemovedDistinct(es, key);
        RemovedStored(es, key);
        RemovedLength(es, key);
    }
  }

  lemma RemovedLength(es: seq<Entry>, key: Text)
    ensures |Removed(es, key)| <= |es|
  {
  }

  /** After any run of calls the list is bounded and stands for the map those calls make. */
  lemma {:induction false} RunsRefine(calls: seq<Call>)
    ensures Bounded(After(calls)) && View(After(calls)) == MapAfter(calls)
  {
    hide Bounded, View, Effect, Next;
    if calls == [] {
      EmptyBuilder();
    } else {
      var before := calls[..|calls| - 1];
      RunsRefine(before);
      ViewCoherent(After(before));
      NextRefines(After(before), calls[|calls| - 1]);
    }
  }

  /** Whatever was built travels: extraction accepts what was injected, and returns what was
      kept, in order. */
  lemma BuiltTravels(calls: seq<Call>)
    ensures var es := After(calls);
      && WellFormed(Injected(es)) && Extraction(Injected(es)) == Success(NormalizedAll(Kept(es)))
      && |Injected(es)| <= MAX_BAGGAGE_BYTES
  {
    RunsRefine(calls);
    InjectedIsUtf8(After(calls));
    hide After, Extraction, Injected, NormalizedAll, Stored, WellFormed;
    BoundedIsDistinct(After(calls));
    RoundTrip(After(calls));
  }

  lemma EmptyBuilder()
    ensures Bounded([]) && View([]) == OrderedMap([], map[])
  {
    assert Costs([], StoredCost) == [];
    assert KeysOf([]) == [];
  }

  // ----- the code -----

  /** The `projected` size: subtracting first never goes below zero, and the sum is the
      stored size of the list that would result. */
  lemma Projected(es: seq<Entry>, e: Entry)
    ensures var i := Place(es, e.key);
      var previous := if i < |es| then StoredCost(es[i]) else 0;
      previous <= Stored(es) && Stored(es) - previous + StoredCost(e) == Stored(Assigned(es, e))
  {
    var i, costs := Place(es, e.key), Costs(es, StoredCost);
    if i < |es| {
      CostsReplaced(es, i, e);
      hide Sum, Costs;
      SumReplace(costs, i, StoredCost(e));
      SumRemove(costs, i);
    } else {
      CostsPushed(es, e);
      hide Sum, Costs;
      SumPush(costs, StoredCost(e));
    }
  }

  /** The size and count tests made on the list are those the map asks for. */
  lemma TestsAgree(es: seq<Entry>, e: Entry)
    requires Bounded(es)
    ensures Coherent(View(es))
    ensures Volume(Put(View(es), e)) == Stored(Assigned(es, e))
    ensures |Put(View(es), e).order| > MAX_BAGGAGE_ITEMS <==> Place(es, e.key) == |es| == MAX_BAGGAGE_ITEMS
  {
    ViewCoherent(es);
    AssignedIsPut(es, e);
    AssignedDistinct(es, e);
    VolumeIsStored(Assigned(es, e));
    OrderLength(Assigned(es, e));
    hide View, Volume, Put;
  }

  /** A set is accepted: a name, strings, and room for the entry beside the others. */
  ghost predicate Accepts(es: seq<Entry>, e: Entry) {
    && e.key != [] && WellFormed(e.key) && WellFormed(e.value) && WellFormed(e.metadata)
    && Stored(Removed(es, e.key)) + |e.key| + |e.value| + |e.metadata| <= MAX_BAGGAGE_BYTES
    && (e.key in KeysOf(es) || |es| < MAX_BAGGAGE_ITEMS)
  }

  /** The stored size adds up the three texts of every entry. */
  lemma StoredPush(es: seq<Entry>, e: Entry)
    ensures Stored([]) == 0 && Stored(es + [e]) == Stored(es) + |e.key| + |e.value| + |e.metadata|
  {
    assert Costs([], StoredCost) == [];
    CostsPushed(es, e);
    SumPush(Costs(es, StoredCost), StoredCost(e));
  }

  lemma AssignedStored(es: seq<Entry>, e: Entry)
    ensures Stored(Assigned(es, e)) == Stored(Removed(es, e.key)) + StoredCost(e)
  {
    var i, costs := Place(es, e.key), Costs(es, StoredCost);
    if i < |es| {
      CostsReplaced(es, i, e);
      CostsWithout(es, i);
      hide Sum, Costs;
      SumReplace(costs, i, StoredCost(e));
      SumRemove(costs, i);
    } else {
      StoredPush(es, e);
    }
  }

  /** The refusals leave exactly the accepted sets. */
  lemma AcceptedIff(es: seq<Entry>, e: Entry)
    requires Bounded(es)
    ensures Coherent(View(es)) && (Refusal(View(es), e).None? <==> Accepts(es, e))
  {
    TestsAgree(es, e);
    AssignedStored(es, e);
    KeyKnown(es, e.key);
    PlaceLength(es, e.key);
    hide View, Volume, Put, WellFormed, Stored, Bounded, Removed, Assigned, KeysOf;
  }

  lemma PlaceLength(es: seq<Entry>, key: Text)
    requires Bounded(es)
    ensures |es| <= MAX_BAGGAGE_ITEMS && Place(es, key) <= |es|
  {
  }

  class Builder {
    var entries: seq<Entry>

    ghost predicate Valid()
      reads this
    {
      Bounded(entries)
    }

    constructor ()
      ensures Valid() && entries == []
    {
      EmptyBuilder();
      entries := [];
    }

    /** `otel_baggage_builder_set`. */
    method Set(key: Text, value: Text, metadata: Text) returns (r: Result<()>)
      requires Valid()
      modifies this
      ensures Valid() && Coherent(View(old(entries)))
      ensures var refusal := Refusal(View(old(entries)), Entry(key, value, metadata));
        r == if refusal.Some? then Failure(refusal.value) else Success(())
      ensures r.Success? <==>
        && key != [] && WellFormed(key) && WellFormed(value) && WellFormed(metadata)
        && Stored(Removed(old(entries), key)) + |key| + |value| + |metadata| <= MAX_BAGGAGE_BYTES
        && (key in KeysOf(old(entries)) || |old(entries)| < MAX_BAGGAGE_ITEMS)
      ensures |key| + |value| + |metadata| > MAX_BAGGAGE_BYTES ==> r == Failure(InvalidConfig)
      ensures |key| + |value| + |metadata| <= MAX_BAGGAGE_BYTES ==>
        && (key == [] <==> r == Failure(InvalidArgument))
        && (!WellFormed(key) || (key != [] && !(WellFormed(value) && WellFormed(metadata))) <==>
             r == Failure(InvalidUtf8))
      ensures r.Success? ==> View(entries) == Put(View(old(entries)), Entry(key, value, metadata))
      ensures r.Failure? ==> entries == old(entries)
    {
      var replacement := Entry(key, value, metadata);
      TestsAgree(entries, replacement);
      AcceptedIff(entries, replacement);
      assert WellFormed([]);
      hide Removed, KeysOf;
      hide View, Volume, Put, WellFormed, Stored, Bounded;
      if |key| + |value| + |metadata| > MAX_BAGGAGE_BYTES {
        return Failure(InvalidConfig);
      }
      if !WellFormed(key) {
        return Failure(InvalidUtf8);
      }
      if key == [] {
        return Failure(InvalidArgument);
      }
      if !WellFormed(value) {
        return Failure(InvalidUtf8);
      }
      if !WellFormed(metadata) {
        return Failure(InvalidUtf8);
      }
      var i := Place(entries, key);
      Projected(entries, replacement);
      var rest: nat := Stored(entries) - (if i < |entries| then StoredCost(entries[i]) else 0);
      var projected := rest + |key| + |value| + |metadata|;
      if projected > MAX_BAGGAGE_BYTES {
        return Failure(InvalidConfig);
      }
      if i == |entries| && |entries| == MAX_BAGGAGE_ITEMS {
        return Failure(InvalidConfig);
      }
      BoundedIsDistinct(entries);
      AssignedIsPut(entries, replacement);
      AcceptedIsBounded(entries, replacement);
      if i < |entries| {
        entries := entries[i := replacement];
      } else {
        entries := entries + [replacement];
      }
      r := Success(());
    }

    /** `otel_baggage_builder_remove`. */
    method Remove(key: Text) returns (r: Result<()>)
      requires Valid()
      modifies this
      ensures Valid() && (r == Success(()) <==> WellFormed(key)) && (r.Failure? ==> r == Failure(InvalidUtf8))
      ensures WellFormed(key) ==> View(entries) == Drop(View(old(entries)), key)
      ensures !WellFormed(key) ==> entries == old(entries)
    {
      hide View, WellFormed, Stored, Distinct;
      if !WellFormed(key) {
        return Failure(InvalidUtf8);
      }
      RemovedIsDrop(entries, key);
      RemovedDistinct(entries, key);
      RemovedStored(entries, key);
      var i := Place(entries, key);
      if i < |entries| {
        entries := entries[..i] + entries[i + 1..];
      }
      r := Success(());
    }

    /** `otel_baggage_builder_build`: the bounds are checked again, and never fail. */
    method Build() returns (r: Result<seq<Entry>>)
      requires Valid()
      ensures r == Success(entries)
    {
      if |entries| > MAX_BAGGAGE_ITEMS {
        return Failure(InvalidConfig);
      }
      if Stored(entries) > MAX_BAGGAGE_BYTES {
        return Failure(InvalidConfig);
      }
      r := Success(entries);
    }
  }

  lemma BoundedIsDistinct(es: seq<Entry>)
    requires Bounded(es)
    ensures Distinct(es) && AllNamed(es) && Utf8Entries(es) && Utf8Values(es)
  {
  }
}
