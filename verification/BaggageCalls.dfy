/** What a run of builder calls amounts to, told by the calls alone. */
module BaggageCalls {
  import opened Bytes
  import opened Utf8
  import opened BaggageMember
  import opened BaggageHeader
  import opened BaggageBuilder

  // ----- which entries -----

  /** Call `i` is an accepted set of the entry. */
  ghost predicate SetAt(calls: seq<Call>, i: nat, e: Entry) {
    i < |calls| && calls[i] == Set(e) && Accepts(After(calls[..i]), e)
  }

  /** Call `j` sets or removes the key. */
  ghost predicate Touches(calls: seq<Call>, j: nat, key: Text) {
    j < |calls| &&
    match calls[j]
    case Set(e) => e.key == key && SetAt(calls, j, e)
    case Remove(k) => k == key && WellFormed(k)
  }

  /** Call `i` set the entry and no later call touched its key. */
  ghost predicate Stands(calls: seq<Call>, i: nat, e: Entry) {
    SetAt(calls, i, e) && forall j :: i < j < |calls| ==> !Touches(calls, j, e.key)
  }

  ghost predicate Standing(calls: seq<Call>, e: Entry) { exists i: nat :: Stands(calls, i, e) }

  lemma AssignedHolds(es: seq<Entry>, f: Entry, e: Entry)
    requires Distinct(es)
    ensures e in Assigned(es, f) <==> e == f || (e in es && e.key != f.key)
  {
    var after, i := Assigned(es, f), Place(es, f.key);
    assert after[i] == f;
    if e in es && e.key != f.key {
      var j :| 0 <= j < |es| && es[j] == e;
      assert after[j] == e;
    }
    if e in after {
      var j :| 0 <= j < |after| && after[j] == e;
      AssignedAt(es, f, j);
    }
  }

  lemma RemovedHolds(es: seq<Entry>, key: Text, e: Entry)
    requires Distinct(es)
    ensures e in Removed(es, key) <==> e in es && e.key != key
  {
    RemovedDistinct(es, key);
    var after, i := Removed(es, key), Place(es, key);
    if e in es && e.key != key {
      var j :| 0 <= j < |es| && es[j] == e;
      assert after[if j < i then j else j - 1] == e;
    }
  }

  lemma NextHolds(es: seq<Entry>, call: Call, e: Entry)
    requires Bounded(es) && Coherent(View(es))
    ensures e in Next(es, call) <==>
      match call
      case Set(f) => if Accepts(es, f) then e == f || (e in es && e.key != f.key) else e in es
      case Remove(key) => e in es && !(key == e.key && WellFormed(key))
  {
    BoundedIsDistinct(es);
    hide Assigned, Removed, Refusal, Accepts, WellFormed, View;
    match call
    case Set(f) =>
      AcceptedIff(es, f);
      AssignedHolds(es, f, e);
    case Remove(key) => RemovedHolds(es, key, e);
  }

  /** The earlier calls mean what they meant. */
  lemma TouchesBefore(calls: seq<Call>, j: nat, key: Text, e: Entry)
    requires calls != [] && j < |calls| - 1
    ensures var before := calls[..|calls| - 1];
      (SetAt(before, j, e) <==> SetAt(calls, j, e)) && (Touches(before, j, key) <==> Touches(calls, j, key))
  {
    hide Accepts, After, WellFormed;
    var before := calls[..|calls| - 1];
    assert before[..j] == calls[..j] && before[j] == calls[j];
  }

  lemma StandsBefore(calls: seq<Call>, i: nat, e: Entry)
    requires calls != [] && i < |calls| - 1
    ensures Stands(calls, i, e) <==> Stands(calls[..|calls| - 1], i, e) && !Touches(calls, |calls| - 1, e.key)
  {
    hide SetAt, Touches;
    var before := calls[..|calls| - 1];
    TouchesBefore(calls, i, e.key, e);
    forall j | i < j < |calls| - 1 ensures Touches(before, j, e.key) <==> Touches(calls, j, e.key) {
      TouchesBefore(calls, j, e.key, e);
    }
  }

  lemma StandsWithin(calls: seq<Call>, i: nat, e: Entry)
    ensures Stands(calls, i, e) ==> i < |calls| && SetAt(calls, i, e)
    ensures i + 1 == |calls| ==> (Stands(calls, i, e) <==> SetAt(calls, i, e))
  {
    hide Accepts, After, Touches;
  }

  lemma StandingNext(calls: seq<Call>, e: Entry)
    requires calls != []
    ensures Standing(calls, e) <==>
      || SetAt(calls, |calls| - 1, e)
      || (Standing(calls[..|calls| - 1], e) && !Touches(calls, |calls| - 1, e.key))
  {
    var m := |calls| - 1;
    hide SetAt, Touches, Stands;
    StandsWithin(calls, m, e);
    forall i: nat | i < m ensures Stands(calls, i, e) <==> Stands(calls[..m], i, e) && !Touches(calls, m, e.key) {
      StandsBefore(calls, i, e);
    }
    forall i: nat ensures Stands(calls, i, e) ==> i < m || (i == m && SetAt(calls, m, e)) {
      StandsWithin(calls, i, e);
    }
    forall i: nat ensures Stands(calls[..m], i, e) ==> i < m {
      StandsWithin(calls[..m], i, e);
    }
  }

  /** The builder holds an entry exactly when some accepted set wrote it and no accepted set or
      removal of its key came later: the last call on a key wins. */
  lemma {:induction false} LastCallWins(calls: seq<Call>, e: Entry)
    ensures e in After(calls) <==> Standing(calls, e)
  {
    if calls == [] {
      forall i: nat ensures !Stands(calls, i, e) { StandsWithin(calls, i, e); }
    } else {
      var m := |calls| - 1;
      hide Next, Accepts, Bounded, View, WellFormed, Standing;
      LastCallWins(calls[..m], e);
      RunsRefine(calls[..m]);
      ViewCoherent(After(calls[..m]));
      NextHolds(After(calls[..m]), calls[m], e);
      StandingNext(calls, e);
    }
  }

  // ----- in which order -----

  /** Call `i` brought the key in, and no later call removed it. */
  ghost predicate Born(calls: seq<Call>, i: nat, key: Text) {
    && i < |calls| && calls[i].Set? && calls[i].entry.key == key && SetAt(calls, i, calls[i].entry)
    && key !in KeysOf(After(calls[..i]))
    && forall j :: i < j < |calls| && calls[j] == Remove(key) ==> !WellFormed(key)
  }

  ghost predicate Births(calls: seq<Call>, births: seq<nat>, keys: seq<Text>) {
    && |births| == |keys|
    && (forall k :: 0 <= k < |births| ==> births[k] < |calls| && Born(calls, births[k], keys[k]))
    && (forall j, k :: 0 <= j < k < |births| ==> births[j] < births[k])
  }

  lemma BornStays(calls: seq<Call>, i: nat, key: Text)
    requires calls != [] && Born(calls[..|calls| - 1], i, key)
    requires calls[|calls| - 1] == Remove(key) ==> !WellFormed(key)
    ensures Born(calls, i, key)
  {
    hide Accepts, After, WellFormed, KeysOf;
    var before := calls[..|calls| - 1];
    assert before[..i] == calls[..i];
    assert forall j :: 0 <= j < |before| ==> before[j] == calls[j];
  }

  /** Keys that the last call leaves alone keep their births. */
  lemma BirthsStay(calls: seq<Call>, births: seq<nat>, keys: seq<Text>)
    requires calls != [] && Births(calls[..|calls| - 1], births, keys)
    requires forall k :: 0 <= k < |keys| && calls[|calls| - 1] == Remove(keys[k]) ==> !WellFormed(keys[k])
    ensures Births(calls, births, keys) && forall k :: 0 <= k < |births| ==> births[k] < |calls| - 1
  {
    hide Born, WellFormed;
    forall k | 0 <= k < |births| ensures Born(calls, births[k], keys[k]) {
      BornStays(calls, births[k], keys[k]);
    }
  }

  lemma BornLast(calls: seq<Call>, births: seq<nat>, keys: seq<Text>, e: Entry)
    requires calls != [] && Births(calls, births, keys) && forall k :: 0 <= k < |births| ==> births[k] < |calls| - 1
    requires SetAt(calls, |calls| - 1, e) && e.key !in KeysOf(After(calls[..|calls| - 1]))
    ensures Births(calls, births + [|calls| - 1], keys + [e.key])
  {
    hide Accepts, After, WellFormed, KeysOf, SetAt;
    assert calls[|calls| - 1] == Set(e) by { SetIs(calls, e); }
    assert Born(calls, |calls| - 1, e.key);
    hide Born;
  }

  lemma SetIs(calls: seq<Call>, e: Entry)
    requires calls != [] && SetAt(calls, |calls| - 1, e)
    ensures calls[|calls| - 1] == Set(e)
  {
  }

  lemma BirthsWithout(calls: seq<Call>, births: seq<nat>, keys: seq<Text>, i: nat)
    requires calls != [] && Births(calls[..|calls| - 1], births, keys) && i < |keys|
    requires calls[|calls| - 1] == Remove(keys[i])
    requires forall j, k :: 0 <= j < k < |keys| ==> keys[j] != keys[k]
    ensures Births(calls, births[..i] + births[i + 1..], keys[..i] + keys[i + 1..])
  {
    hide Born, WellFormed;
    var b, ks := births[..i] + births[i + 1..], keys[..i] + keys[i + 1..];
    forall k | 0 <= k < |b| ensures ks[k] != keys[i] && Born(calls[..|calls| - 1], b[k], ks[k]) {
      var at := if k < i then k else k + 1;
      assert b[k] == births[at] && ks[k] == keys[at];
    }
    assert Births(calls[..|calls| - 1], b, ks);
    BirthsStay(calls, b, ks);
  }

  /** Entries stand in the order in which their keys were brought in. */
  lemma {:induction false} OrderIsByBirth(calls: seq<Call>) returns (births: seq<nat>)
    ensures Births(calls, births, KeysOf(After(calls)))
  {
    if calls == [] {
      births := [];
    } else {
      var m := |calls| - 1;
      var es, call := After(calls[..m]), calls[m];
      births := OrderIsByBirth(calls[..m]);
      RunsRefine(calls[..m]);
      BoundedIsDistinct(es);
      ViewCoherent(es);
      assert After(calls) == Next(es, call);
      hide After, Born, Births, View, WellFormed, Bounded, Refusal;
      if call.Set? {
        AcceptedIff(es, call.entry);
        BirthsStay(calls, births, KeysOf(es));
        AssignedKeys(es, call.entry);
        if Accepts(es, call.entry) && call.entry.key !in KeysOf(es) {
          BornLast(calls, births, KeysOf(es), call.entry);
          births := births + [m];
        }
      } else if call.key in KeysOf(es) && WellFormed(call.key) {
        var i := Place(es, call.key);
        KeyKnown(es, call.key);
        KeyOf(es, i);
        DistinctKeysOf(es);
        KeysWithout(es, i);
        BirthsWithout(calls, births, KeysOf(es), i);
        births := births[..i] + births[i + 1..];
      } else {
        KeyKnown(es, call.key);
        BirthsStay(calls, births, KeysOf(es));
      }
    }
  }

  lemma DistinctKeysOf(es: seq<Entry>)
    requires Distinct(es)
    ensures forall j, k :: 0 <= j < k < |KeysOf(es)| ==> KeysOf(es)[j] != KeysOf(es)[k]
  {
  }
}
