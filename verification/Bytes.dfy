/** Byte strings. Every `&str`, `String` and byte slice of the library is a sequence of
    bytes here; a string is one that is also well-formed UTF-8 (module Utf8). */
module Bytes {

  type Byte = b: int | 0 <= b < 256

  type Text = seq<Byte>

  datatype Option<+T> = None | Some(value: T)

  const COMMA: Byte := 0x2C
  const SEMICOLON: Byte := 0x3B
  const EQUALS: Byte := 0x3D
  const PERCENT: Byte := 0x25
  const DASH: Byte := 0x2D

  lemma Associates(a: Text, b: Text, c: Text)
    ensures a + (b + c) == a + b + c
  {
  }

  /** The place of the first `b`, or the length when there is none (`str::find`). */
  function IndexOf(s: Text, b: Byte): (i: nat)
    ensures i <= |s|
    ensures b !in s[..i]
    ensures i < |s| ==> s[i] == b
  {
    if s == [] || s[0] == b then 0
    else
      var i := 1 + IndexOf(s[1..], b);
      assert s[..i] == [s[0]] + s[1..][..i - 1];
      i
  }

  lemma IndexOfPrefix(a: Text, b: Byte, rest: Text)
    requires b !in a
    ensures IndexOf(a + [b] + rest, b) == |a|
  {
    var s := a + [b] + rest;
    var i := IndexOf(s, b);
    assert s[|a|] == b;
    assert forall k :: 0 <= k < i ==> s[k] in s[..i];
    assert forall k :: 0 <= k < |a| ==> s[k] in a;
  }

  /** `str::split` on a one-byte separator: never empty, separators removed. */
  function Split(s: Text, sep: Byte): (parts: seq<Text>)
    ensures |parts| >= 1
    decreases |s|
  {
    var i := IndexOf(s, sep);
    if i == |s| then [s] else [s[..i]] + Split(s[i + 1..], sep)
  }

  function Join(parts: seq<Text>, sep: Byte): Text {
    if |parts| == 0 then []
    else if |parts| == 1 then parts[0]
    else parts[0] + [sep] + Join(parts[1..], sep)
  }

  /** Splitting is undone by joining, and no part holds the separator. */
  lemma {:induction false} JoinSplit(s: Text, sep: Byte)
    ensures Join(Split(s, sep), sep) == s
    ensures forall p :: p in Split(s, sep) ==> sep !in p
    decreases |s|
  {
    var i := IndexOf(s, sep);
    if i < |s| {
      var rest := s[i + 1..];
      JoinSplit(rest, sep);
      var parts := Split(s, sep);
      assert parts[0] == s[..i] && parts[1..] == Split(rest, sep);
      assert s == s[..i] + [sep] + rest;
    }
  }

  lemma SplitCons(first: Text, rest: Text, sep: Byte)
    requires sep !in first
    ensures Split(first + [sep] + rest, sep) == [first] + Split(rest, sep)
  {
    IndexOfPrefix(first, sep, rest);
    var s := first + [sep] + rest;
    assert s[..|first|] == first && s[|first| + 1..] == rest;
  }

  lemma {:induction false} SplitJoin(parts: seq<Text>, sep: Byte)
    requires parts != []
    requires forall p :: p in parts ==> sep !in p
    ensures Split(Join(parts, sep), sep) == parts
  {
    if |parts| == 1 {
      assert parts[0] in parts && IndexOf(parts[0], sep) == |parts[0]|;
    } else {
      SplitJoin(parts[1..], sep);
      SplitCons(parts[0], Join(parts[1..], sep), sep);
    }
  }

  lemma {:induction false} JoinAppend(parts: seq<Text>, last: Text, sep: Byte)
    requires parts != []
    ensures Join(parts + [last], sep) == Join(parts, sep) + [sep] + last
  {
    if |parts| == 1 {
      assert (parts + [last])[1..] == [last];
    } else {
      JoinAppend(parts[1..], last, sep);
      assert (parts + [last])[1..] == parts[1..] + [last];
      assert parts[0] + [sep] + (Join(parts[1..], sep) + [sep] + last)
          == parts[0] + [sep] + Join(parts[1..], sep) + [sep] + last;
    }
  }
}
