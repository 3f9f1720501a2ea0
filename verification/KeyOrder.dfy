/** The byte order in which map keys are exported, and sorting by it. */
module KeyOrder {
  import opened Bytes

  /** `str::cmp`: bytewise lexicographic, a proper prefix first. */
  predicate Less(a: Text, b: Text) {
    b != [] && (a == [] || a[0] < b[0] || (a[0] == b[0] && Less(a[1..], b[1..])))
  }

  /** Equal up to the first difference, which is a smaller byte or the end of the first. */
  ghost predicate DiffersAt(a: Text, b: Text, n: nat) {
    n <= |a| && n < |b| && a[..n] == b[..n] && (n == |a| || a[n] < b[n])
  }

  lemma {:induction false} LessIff(a: Text, b: Text)
    ensures Less(a, b) <==> exists n: nat :: DiffersAt(a, b, n)
  {
    if Less(a, b) && (a == [] || a[0] < b[0]) { assert DiffersAt(a, b, 0); }
    if a != [] && b != [] && a[0] == b[0] {
      LessIff(a[1..], b[1..]);
      if Less(a, b) {
        var n: nat :| DiffersAt(a[1..], b[1..], n);
        assert a[..n + 1] == [a[0]] + a[1..][..n] && b[..n + 1] == [b[0]] + b[1..][..n];
        assert DiffersAt(a, b, n + 1);
      }
      forall n: nat | DiffersAt(a, b, n) ensures DiffersAt(a[1..], b[1..], n - 1) {
        assert a[1..][..n - 1] == a[..n][1..] && b[1..][..n - 1] == b[..n][1..];
      }
    }
    forall n: nat | DiffersAt(a, b, n) && n > 0 ensures a[0] == b[0] {
      assert a[0] == a[..n][0] && b[0] == b[..n][0];
    }
  }

  lemma {:induction false} LessTransitive(a: Text, b: Text, c: Text)
    requires Less(a, b) && Less(b, c)
    ensures Less(a, c)
  {
    if a != [] && a[0] == b[0] == c[0] {
      LessTransitive(a[1..], b[1..], c[1..]);
    }
  }

  lemma {:induction false} LessTotal(a: Text, b: Text)
    ensures Less(a, b) || a == b || Less(b, a)
    ensures !(Less(a, b) && Less(b, a)) && !(Less(a, b) && a == b)
  {
    if a != [] && b != [] && a[0] == b[0] {
      LessTotal(a[1..], b[1..]);
      assert a == [a[0]] + a[1..] && b == [b[0]] + b[1..];
    }
  }

  datatype Keyed<+T> = Keyed(key: Text, value: T)

  ghost predicate StrictlySorted<T>(es: seq<Keyed<T>>) {
    forall i, j :: 0 <= i < j < |es| ==> Less(es[i].key, es[j].key)
  }

  ghost predicate DistinctKeys<T>(es: seq<Keyed<T>>) {
    forall i, j :: 0 <= i < j < |es| ==> es[i].key != es[j].key
  }

  function Insert<T(!new)>(e: Keyed<T>, es: seq<Keyed<T>>): (r: seq<Keyed<T>>)
    ensures |r| == |es| + 1
    ensures forall x :: x in r <==> x == e || x in es
  {
    if es == [] then [e]
    else if Less(es[0].key, e.key) then
      var r := [es[0]] + Insert(e, es[1..]);
      assert es == [es[0]] + es[1..];
      r
    else [e] + es
  }

  /** `sort_unstable_by` on keys. */
  function SortByKey<T(!new)>(es: seq<Keyed<T>>): (r: seq<Keyed<T>>)
    ensures |r| == |es|
    ensures forall x :: x in r <==> x in es
  {
    if es == [] then [] else
      assert es == [es[0]] + es[1..];
      Insert(es[0], SortByKey(es[1..]))
  }

  lemma {:induction false} InsertSorted<T(!new)>(e: Keyed<T>, es: seq<Keyed<T>>)
    requires StrictlySorted(es)
    requires forall x :: x in es ==> x.key != e.key
    ensures StrictlySorted(Insert(e, es))
  {
    if es != [] {
      LessTotal(es[0].key, e.key);
      if Less(es[0].key, e.key) {
        InsertSorted(e, es[1..]);
        var r := Insert(e, es[1..]);
        forall j | 0 <= j < |r| ensures Less(es[0].key, r[j].key) {
          assert r[j] in r;
        }
      } else {
        forall j | 0 <= j < |es| ensures Less(e.key, es[j].key) {
          if j > 0 { LessTransitive(e.key, es[0].key, es[j].key); }
        }
      }
    }
  }

  lemma {:induction false} SortedByKey<T(!new)>(es: seq<Keyed<T>>)
    requires DistinctKeys(es)
    ensures StrictlySorted(SortByKey(es))
  {
    if es != [] {
      SortedByKey(es[1..]);
      InsertSorted(es[0], SortByKey(es[1..]));
    }
  }

  /** A strictly sorted arrangement is determined by its elements, so any sorting routine
      returns `SortByKey`. */
  lemma {:induction false} SortedUnique<T(!new)>(a: seq<Keyed<T>>, b: seq<Keyed<T>>)
    requires StrictlySorted(a) && StrictlySorted(b)
    requires forall x :: x in a <==> x in b
    ensures a == b
  {
    assert |b| > 0 ==> b[0] in a;
    assert forall i :: 0 <= i < |b| ==> b[i] in a;
    if a != [] {
      assert a[0] in b;
      assert b[0] in a;
      LessTotal(a[0].key, b[0].key);
      assert a[0] == b[0];
      forall x ensures x in a[1..] <==> x in b[1..] {
        LessTotal(x.key, a[0].key);
        assert x in a <==> x == a[0] || x in a[1..];
        assert x in b <==> x == b[0] || x in b[1..];
      }
      SortedUnique(a[1..], b[1..]);
      assert a == [a[0]] + a[1..] && b == [b[0]] + b[1..];
    }
  }
}
