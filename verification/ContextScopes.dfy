/** The per-thread stacks of attached contexts, and whole runs of attach, detach and current
    calls made by any number of threads in any order. */
module ContextScopes {
  import opened Bytes
  import opened Outcome
  import BaggageMember
  import TracePropagation

  const MAX_CONTEXT_DEPTH: nat := 64
  const TWO64: nat := 0x1_0000_0000_0000_0000

  datatype ContextData = ContextData(
    spanContext: Option<TracePropagation.SpanContext>, baggage: Option<seq<BaggageMember.Entry>>, flags: nat)

  /** The caller's token: a plain value, free to be copied, kept or made up. */
  datatype Token = Token(threadToken: nat, generation: nat, reserved0: nat, reserved1: nat)

  const INACTIVE := Token(0, 0, 0, 0)

  datatype StackEntry = StackEntry(generation: nat, context: ContextData)

  datatype Stack = Stack(threadToken: nat, nextGeneration: nat, entries: seq<StackEntry>)

  /** Unsigned 64-bit increment that wraps and leaves zero out. */
  function Following(n: nat): nat {
    if (n + 1) % TWO64 == 0 then 1 else (n + 1) % TWO64
  }

  function Pushed(s: Stack, c: ContextData): Stack {
    Stack(s.threadToken, Following(s.nextGeneration), s.entries + [StackEntry(s.nextGeneration, c)])
  }

  function Popped(s: Stack): Stack
    requires s.entries != []
  {
    s.(entries := s.entries[..|s.entries| - 1])
  }

  predicate Active(k: Token) { k.reserved0 == 0 && k.reserved1 == 0 && k.threadToken != 0 && k.generation != 0 }

  /** The token names this thread's innermost scope. */
  predicate Closes(k: Token, s: Stack) {
    && k.threadToken == s.threadToken
    && s.entries != [] && s.entries[|s.entries| - 1].generation == k.generation
  }

  function Innermost(s: Stack): Option<ContextData> {
    if s.entries == [] then None else Some(s.entries[|s.entries| - 1].context)
  }

  // ----- the code -----

  /** The caller's memory that holds a token. */
  class ContextScope {
    var threadToken: nat
    var generation: nat
    var reserved0: nat
    var reserved1: nat

    function Value(): Token
      reads this
    {
      Token(threadToken, generation, reserved0, reserved1)
    }

    constructor (k: Token)
      ensures Value() == k
    {
      threadToken, generation, reserved0, reserved1 := k.threadToken, k.generation, k.reserved0, k.reserved1;
    }
  }

  class ContextStack {
    var threadToken: nat
    var nextGeneration: nat
    var entries: seq<StackEntry>

    function Value(): Stack
      reads this
    {
      Stack(threadToken, nextGeneration, entries)
    }

    constructor (token: nat)
      ensures Value() == Stack(token, 1, [])
    {
      threadToken, nextGeneration, entries := token, 1, [];
    }

    /** `allocate_generation` */
    method AllocateGeneration() returns (generation: nat)
      modifies this`nextGeneration
      ensures generation == old(nextGeneration) && nextGeneration == Following(generation)
      ensures generation < TWO64 ==> nextGeneration == if generation + 1 == TWO64 then 1 else generation + 1
    {
      generation := nextGeneration;
      nextGeneration := (nextGeneration + 1) % TWO64;
      if nextGeneration == 0 {
        nextGeneration := 1;
      }
    }

    /** `otel_context_attach`; no context stands for an invalid handle. */
    method Attach(context: Option<ContextData>, scope: ContextScope) returns (r: Result<()>)
      modifies this, scope
      ensures r == if context.None? then Failure(InvalidArgument)
                   else if |old(entries)| >= MAX_CONTEXT_DEPTH then Failure(InvalidConfig) else Success(())
      ensures r.Success? ==> Value() == Pushed(old(Value()), context.value)
      ensures r.Success? ==> scope.Value() == Token(threadToken, old(nextGeneration), 0, 0)
      ensures r.Failure? ==> Value() == old(Value()) && scope.Value() == INACTIVE
    {
      scope.threadToken := 0;
      scope.generation := 0;
      scope.reserved0, scope.reserved1 := 0, 0;
      if context.None? {
        return Failure(InvalidArgument);
      }
      if |entries| >= MAX_CONTEXT_DEPTH {
        return Failure(InvalidConfig);
      }
      var generation := AllocateGeneration();
      entries := entries + [StackEntry(generation, context.value)];
      scope.threadToken := threadToken;
      scope.generation := generation;
      r := Success(());
    }

    /** `otel_context_scope_detach` */
    method Detach(scope: ContextScope) returns (r: Result<()>)
      modifies this, scope
      ensures r == if Active(old(scope.Value())) && Closes(old(scope.Value()), old(Value())) then Success(())
                   else Failure(InvalidArgument)
      ensures r.Success? ==>
        Closes(old(scope.Value()), old(Value())) && Value() == Popped(old(Value())) && scope.Value() == INACTIVE
      ensures r.Failure? ==> Value() == old(Value()) && scope.Value() == old(scope.Value())
    {
      if scope.reserved0 != 0 || scope.reserved1 != 0 || scope.threadToken == 0 || scope.generation == 0 {
        return Failure(InvalidArgument);
      }
      if threadToken != scope.threadToken {
        return Failure(InvalidArgument);
      }
      if entries == [] || entries[|entries| - 1].generation != scope.generation {
        return Failure(InvalidArgument);
      }
      entries := entries[..|entries| - 1];
      scope.threadToken := 0;
      scope.generation := 0;
      r := Success(());
    }

    /** `current_data` */
    method Current() returns (c: Option<ContextData>)
      ensures c == Innermost(Value())
    {
      if entries == [] {
        return None;
      }
      c := Some(entries[|entries| - 1].context);
    }
  }

  // ----- threads -----

  /** The counter of thread tokens, and a stack for every thread that has needed one. */
  datatype World = World(nextToken: nat, stacks: seq<Option<Stack>>)

  datatype Call = Attach(context: Option<ContextData>) | Detach(token: Token) | Current

  datatype Reply = Attached(token: Token) | Detached | Told(context: Option<ContextData>) | Refused(status: Status)

  datatype Turn = Turn(thread: nat, call: Call)

  /** A thread's stack is made when first used, with the next non-zero thread token. */
  function Touch(w: World, t: nat): (r: World)
    requires t < |w.stacks|
    ensures |r.stacks| == |w.stacks| && r.stacks[t].Some?
  {
    if w.stacks[t].Some? then w
    else
      var token := if w.nextToken == 0 then 1 else w.nextToken;
      World((token + 1) % TWO64, w.stacks[t := Some(Stack(token, 1, []))])
  }

  function Step(w: World, turn: Turn): (r: (World, Reply))
    requires turn.thread < |w.stacks|
    ensures |r.0.stacks| == |w.stacks|
  {
    var t := turn.thread;
    match turn.call
    case Attach(None) => (w, Refused(InvalidArgument))
    case Attach(Some(c)) =>
      var v := Touch(w, t);
      var s := v.stacks[t].value;
      if |s.entries| >= MAX_CONTEXT_DEPTH then (v, Refused(InvalidConfig))
      else (v.(stacks := v.stacks[t := Some(Pushed(s, c))]), Attached(Token(s.threadToken, s.nextGeneration, 0, 0)))
    case Detach(k) =>
      if !Active(k) then (w, Refused(InvalidArgument))
      else
        var v := Touch(w, t);
        var s := v.stacks[t].value;
        if !Closes(k, s) then (v, Refused(InvalidArgument))
        else (v.(stacks := v.stacks[t := Some(Popped(s))]), Detached)
    case Current =>
      var v := Touch(w, t);
      (v, Told(Innermost(v.stacks[t].value)))
  }

  function StackOf(w: World, t: nat): Stack
    requires t < |w.stacks|
  {
    Touch(w, t).stacks[t].value
  }

  function EntriesOf(w: World, t: nat): seq<StackEntry>
    requires t < |w.stacks|
  {
    if w.stacks[t].Some? then w.stacks[t].value.entries else []
  }

  predicate Among(turns: seq<Turn>, n: nat) { forall i :: 0 <= i < |turns| ==> turns[i].thread < n }

  /** The world of `n` threads after a run. */
  function After(n: nat, turns: seq<Turn>): (w: World)
    requires Among(turns, n)
    ensures |w.stacks| == n
  {
    if turns == [] then World(1, seq(n, _ => None))
    else
      var before := turns[..|turns| - 1];
      Step(After(n, before), turns[|turns| - 1]).0
  }

  datatype Event = Opened(generation: nat, context: ContextData) | Closed(generation: nat)

  /** What a turn adds to the record of successful attaches and detaches of thread `t`. */
  function Noted(w: World, turn: Turn, t: nat): seq<Event>
    requires turn.thread < |w.stacks|
  {
    var reply := Step(w, turn).1;
    if turn.thread != t then []
    else if reply.Attached? then [Opened(reply.token.generation, turn.call.context.value)]
    else if reply.Detached? then [Closed(turn.call.token.generation)]
    else []
  }

  function History(n: nat, turns: seq<Turn>, t: nat): seq<Event>
    requires Among(turns, n)
  {
    if turns == [] then []
    else
      var before := turns[..|turns| - 1];
      History(n, before, t) + Noted(After(n, before), turns[|turns| - 1], t)
  }

  function Opens(h: seq<Event>): nat {
    if h == [] then 0 else Opens(h[..|h| - 1]) + if h[|h| - 1].Opened? then 1 else 0
  }

  // ----- brackets -----

  /** A word of properly nested scopes. */
  ghost predicate Balanced(h: seq<Event>)
    decreases |h|
  {
    h == [] || exists j: nat :: Pair(h, j) && Balanced(h[1..j]) && Balanced(h[j + 1..])
  }

  predicate Pair(h: seq<Event>, j: nat) {
    0 < j < |h| && h[0].Opened? && h[j] == Closed(h[0].generation)
  }

  /** Properly nested but for the scopes still open, outermost first. */
  ghost predicate Bracketed(h: seq<Event>, open: seq<StackEntry>)
    decreases |open|
  {
    if open == [] then Balanced(h)
    else
      var n := |open| - 1;
      exists k: nat :: OpenedAt(h, k, open[n]) && Bracketed(h[..k], open[..n]) && Balanced(h[k + 1..])
  }

  predicate OpenedAt(h: seq<Event>, k: nat, e: StackEntry) {
    k < |h| && h[k] == Opened(e.generation, e.context)
  }

  lemma BalancedCut(h: seq<Event>) returns (j: nat)
    requires Balanced(h) && h != []
    ensures Pair(h, j) && Balanced(h[1..j]) && Balanced(h[j + 1..])
  {
    j :| Pair(h, j) && Balanced(h[1..j]) && Balanced(h[j + 1..]);
  }

  lemma BalancedJoin(h: seq<Event>, j: nat)
    requires Pair(h, j) && Balanced(h[1..j]) && Balanced(h[j + 1..])
    ensures Balanced(h)
  {
  }

  lemma {:induction false} BalancedConcat(a: seq<Event>, b: seq<Event>)
    requires Balanced(a) && Balanced(b)
    ensures Balanced(a + b)
    decreases |a|
  {
    hide Balanced;
    if a == [] {
      assert a + b == b;
    } else {
      var j := BalancedCut(a);
      BalancedConcat(a[j + 1..], b);
      assert (a + b)[1..j] == a[1..j] && (a + b)[j + 1..] == a[j + 1..] + b;
      BalancedJoin(a + b, j);
    }
  }

  lemma BalancedAround(o: Event, inner: seq<Event>, c: Event)
    requires Balanced(inner) && o.Opened? && c == Closed(o.generation)
    ensures Balanced([o] + inner + [c])
  {
    var h, j := [o] + inner + [c], |inner| + 1;
    assert h[1..j] == inner && h[j + 1..] == [];
    BalancedJoin(h, j);
  }

  lemma BracketedCut(h: seq<Event>, open: seq<StackEntry>) returns (k: nat)
    requires Bracketed(h, open) && open != []
    ensures OpenedAt(h, k, open[|open| - 1]) && Bracketed(h[..k], open[..|open| - 1]) && Balanced(h[k + 1..])
  {
    hide Balanced;
    k :| OpenedAt(h, k, open[|open| - 1]) && Bracketed(h[..k], open[..|open| - 1]) && Balanced(h[k + 1..]);
  }

  lemma BracketedJoin(h: seq<Event>, open: seq<StackEntry>, k: nat)
    requires open != [] && OpenedAt(h, k, open[|open| - 1])
    requires Bracketed(h[..k], open[..|open| - 1]) && Balanced(h[k + 1..])
    ensures Bracketed(h, open)
  {
    hide Balanced;
  }

  lemma NoneOpen(h: seq<Event>)
    ensures Bracketed(h, []) <==> Balanced(h)
  {
  }

  lemma {:induction false} BracketedConcat(h: seq<Event>, b: seq<Event>, open: seq<StackEntry>)
    requires Bracketed(h, open) && Balanced(b)
    ensures Bracketed(h + b, open)
  {
    hide Balanced, Bracketed;
    if open == [] {
      NoneOpen(h);
      NoneOpen(h + b);
      BalancedConcat(h, b);
    } else {
      var k := BracketedCut(h, open);
      BalancedConcat(h[k + 1..], b);
      assert (h + b)[..k] == h[..k] && (h + b)[k + 1..] == h[k + 1..] + b;
      BracketedJoin(h + b, open, k);
    }
  }

  lemma BracketedOpen(h: seq<Event>, open: seq<StackEntry>, e: StackEntry)
    requires Bracketed(h, open)
    ensures Bracketed(h + [Opened(e.generation, e.context)], open + [e])
  {
    var g, n := h + [Opened(e.generation, e.context)], |open|;
    assert Balanced([]);
    hide Balanced, Bracketed;
    assert (open + [e])[..n] == open && (open + [e])[n] == e;
    assert g[..|h|] == h && g[|h| + 1..] == [];
    BracketedJoin(g, open + [e], |h|);
  }

  lemma BracketedClose(h: seq<Event>, open: seq<StackEntry>)
    requires open != [] && Bracketed(h, open)
    ensures Bracketed(h + [Closed(open[|open| - 1].generation)], open[..|open| - 1])
  {
    hide Balanced, Bracketed;
    var n := |open| - 1;
    var k := BracketedCut(h, open);
    var c := Closed(open[n].generation);
    BalancedAround(h[k], h[k + 1..], c);
    BracketedConcat(h[..k], [h[k]] + h[k + 1..] + [c], open[..n]);
    assert h + [c] == h[..k] + ([h[k]] + h[k + 1..] + [c]);
  }

  // ----- one thread's record and its stack -----

  /** Generations grow along the record, from one. */
  ghost predicate Rising(h: seq<Event>) {
    && (forall i :: 0 <= i < |h| && h[i].Opened? ==> 1 <= h[i].generation <= Opens(h))
    && (forall i, j :: 0 <= i < j < |h| && h[i].Opened? && h[j].Opened? ==> h[i].generation < h[j].generation)
  }

  /** No scope is closed twice, or before it was opened. */
  ghost predicate ClosedOnce(h: seq<Event>) {
    && (forall i, j :: 0 <= i < j < |h| && h[i].Closed? && h[j].Closed? ==> h[i].generation != h[j].generation)
    && (forall j :: 0 <= j < |h| && h[j].Closed? ==>
          exists i :: 0 <= i < j && h[i].Opened? && h[i].generation == h[j].generation)
  }

  /** The entries are the scopes opened and not closed, in rising order. */
  ghost predicate StillOpen(h: seq<Event>, open: seq<StackEntry>) {
    && (forall i, j :: 0 <= i < j < |open| ==> open[i].generation < open[j].generation)
    && (forall e :: e in open <==> Opened(e.generation, e.context) in h && Closed(e.generation) !in h)
  }

  ghost predicate Tracks(s: Stack, h: seq<Event>) {
    && Rising(h) && ClosedOnce(h) && StillOpen(h, s.entries) && Bracketed(h, s.entries)
    && s.nextGeneration == Opens(h) + 1 && |s.entries| <= MAX_CONTEXT_DEPTH
  }

  lemma OpensPush(h: seq<Event>, e: Event)
    ensures Opens(h + [e]) == Opens(h) + if e.Opened? then 1 else 0
  {
    assert (h + [e])[..|h|] == h;
  }

  lemma TracksOpen(s: Stack, h: seq<Event>, c: ContextData)
    requires Tracks(s, h) && |s.entries| < MAX_CONTEXT_DEPTH && Opens(h) + 1 < TWO64 - 1
    ensures Tracks(Pushed(s, c), h + [Opened(s.nextGeneration, c)])
  {
    var e := StackEntry(s.nextGeneration, c);
    var o := Opened(e.generation, c);
    hide Opens, Bracketed, Rising, ClosedOnce, StillOpen;
    OpensPush(h, o);
    BracketedOpen(h, s.entries, e);
    RisingOpen(h, o);
    OnceOpen(h, o);
    StillOpenPush(h, s.entries, e);
  }

  lemma RisingOpen(h: seq<Event>, o: Event)
    requires Rising(h) && o.Opened? && o.generation == Opens(h) + 1
    ensures Rising(h + [o])
  {
    OpensPush(h, o);
    hide Opens;
  }

  lemma OnceOpen(h: seq<Event>, o: Event)
    requires ClosedOnce(h) && o.Opened?
    ensures ClosedOnce(h + [o])
  {
    var g := h + [o];
    forall j | 0 <= j < |g| && g[j].Closed?
      ensures exists i :: 0 <= i < j && g[i].Opened? && g[i].generation == g[j].generation
    {
      var i :| 0 <= i < j && h[i].Opened? && h[i].generation == h[j].generation;
      assert g[i] == h[i];
    }
  }

  lemma ClosedWasOpened(h: seq<Event>, generation: nat)
    requires Rising(h) && ClosedOnce(h) && Closed(generation) in h
    ensures generation <= Opens(h)
  {
    hide Opens;
  }

  lemma StillOpenPush(h: seq<Event>, open: seq<StackEntry>, e: StackEntry)
    requires Rising(h) && ClosedOnce(h) && StillOpen(h, open) && e.generation == Opens(h) + 1
    ensures StillOpen(h + [Opened(e.generation, e.context)], open + [e])
  {
    if Closed(e.generation) in h { ClosedWasOpened(h, e.generation); }
    hide Opens, ClosedOnce;
    var g, now := h + [Opened(e.generation, e.context)], open + [e];
    assert forall x :: x in g <==> x in h || x == Opened(e.generation, e.context);
    assert forall x :: x in now <==> x in open || x == e;
    forall i | 0 <= i < |open| ensures open[i].generation < e.generation {
      assert open[i] in open;
      assert Opened(open[i].generation, open[i].context) in h;
    }
  }

  lemma TopIsOpen(h: seq<Event>, open: seq<StackEntry>)
    requires open != [] && StillOpen(h, open)
    ensures var e := open[|open| - 1]; Opened(e.generation, e.context) in h && Closed(e.generation) !in h
  {
    assert open[|open| - 1] in open;
  }

  lemma TracksClose(s: Stack, h: seq<Event>)
    requires Tracks(s, h) && s.entries != []
    ensures Tracks(Popped(s), h + [Closed(s.entries[|s.entries| - 1].generation)])
  {
    hide Opens, Bracketed, Rising, ClosedOnce, StillOpen;
    var e := s.entries[|s.entries| - 1];
    OpensPush(h, Closed(e.generation));
    BracketedClose(h, s.entries);
    TopIsOpen(h, s.entries);
    RisingClose(h, Closed(e.generation));
    OnceClose(h, e);
    StillOpenPop(h, s.entries);
  }

  lemma RisingClose(h: seq<Event>, c: Event)
    requires Rising(h) && c.Closed?
    ensures Rising(h + [c])
  {
    OpensPush(h, c);
    hide Opens;
  }

  lemma OnceClose(h: seq<Event>, e: StackEntry)
    requires ClosedOnce(h) && Opened(e.generation, e.context) in h && Closed(e.generation) !in h
    ensures ClosedOnce(h + [Closed(e.generation)])
  {
    var g := h + [Closed(e.generation)];
    var k :| 0 <= k < |h| && h[k] == Opened(e.generation, e.context);
    assert g[k] == h[k];
    forall i | 0 <= i < |h| && h[i].Closed? ensures h[i].generation != e.generation {
      assert h[i] in h;
    }
    forall j | 0 <= j < |h| && h[j].Closed?
      ensures exists i :: 0 <= i < j && g[i].Opened? && g[i].generation == g[j].generation
    {
      var i :| 0 <= i < j && h[i].Opened? && h[i].generation == h[j].generation;
      assert g[i] == h[i];
    }
  }

  lemma StillOpenPop(h: seq<Event>, open: seq<StackEntry>)
    requires open != [] && StillOpen(h, open)
    ensures StillOpen(h + [Closed(open[|open| - 1].generation)], open[..|open| - 1])
  {
    var n := |open| - 1;
    var c := Closed(open[n].generation);
    assert forall x :: x in h + [c] <==> x in h || x == c;
    forall e: StackEntry ensures e in open[..n] <==> e in open && e.generation != open[n].generation {
      if e in open && e.generation != open[n].generation {
        var i :| 0 <= i < |open| && open[i] == e;
        assert open[..n][i] == e;
      }
      if e in open[..n] {
        var i :| 0 <= i < n && open[i] == e;
      }
    }
  }

  // ----- runs -----

  /** A call changes no stack but its own thread's, and that one only when it succeeds. */
  lemma OnlyOwnStack(w: World, turn: Turn, t: nat)
    requires turn.thread < |w.stacks| && t < |w.stacks|
    ensures EntriesOf(Step(w, turn).0, t) != EntriesOf(w, t) <==>
      t == turn.thread && (Step(w, turn).1.Attached? || Step(w, turn).1.Detached?)
    ensures t != turn.thread ==> Step(w, turn).0.stacks[t] == w.stacks[t]
  {
    if t == turn.thread && (Step(w, turn).1.Attached? || Step(w, turn).1.Detached?) {
      assert |EntriesOf(Step(w, turn).0, t)| != |EntriesOf(w, t)|;
    }
  }

  lemma AttachEffect(w: World, turn: Turn)
    requires turn.thread < |w.stacks| && Step(w, turn).1.Attached?
    ensures turn.call.Attach? && turn.call.context.Some? && |StackOf(w, turn.thread).entries| < MAX_CONTEXT_DEPTH
    ensures StackOf(Step(w, turn).0, turn.thread) == Pushed(StackOf(w, turn.thread), turn.call.context.value)
    ensures Noted(w, turn, turn.thread) == [Opened(StackOf(w, turn.thread).nextGeneration, turn.call.context.value)]
  {
  }

  lemma DetachEffect(w: World, turn: Turn)
    requires turn.thread < |w.stacks| && Step(w, turn).1.Detached?
    ensures var es := StackOf(w, turn.thread).entries;
      es != [] && Noted(w, turn, turn.thread) == [Closed(es[|es| - 1].generation)]
    ensures StackOf(Step(w, turn).0, turn.thread) == Popped(StackOf(w, turn.thread))
  {
  }

  lemma NoEffect(w: World, turn: Turn, t: nat)
    requires turn.thread < |w.stacks| && t < |w.stacks|
    requires t != turn.thread || Step(w, turn).1.Refused? || Step(w, turn).1.Told?
    ensures StackOf(Step(w, turn).0, t).entries == StackOf(w, t).entries
    ensures StackOf(Step(w, turn).0, t).nextGeneration == StackOf(w, t).nextGeneration
    ensures Noted(w, turn, t) == []
  {
  }

  /** What one call does to any thread's stack and record. */
  lemma StepTracks(w: World, turn: Turn, t: nat, h: seq<Event>)
    requires turn.thread < |w.stacks| && t < |w.stacks| && Tracks(StackOf(w, t), h)
    requires Opens(h + Noted(w, turn, t)) < TWO64 - 1
    ensures Tracks(StackOf(Step(w, turn).0, t), h + Noted(w, turn, t))
  {
    hide Opens, Rising, ClosedOnce, StillOpen, Bracketed, Step, StackOf, Noted;
    var s, v, reply := StackOf(w, t), Step(w, turn).0, Step(w, turn).1;
    var noted := Noted(w, turn, t);
    if t == turn.thread && reply.Attached? {
      AttachEffect(w, turn);
      OpensPush(h, noted[0]);
      TracksOpen(s, h, turn.call.context.value);
    } else if t == turn.thread && reply.Detached? {
      DetachEffect(w, turn);
      TracksClose(s, h);
    } else {
      NoEffect(w, turn, t);
      assert h + noted == h;
    }
  }

  lemma OpensGrow(h: seq<Event>, more: seq<Event>)
    requires |more| <= 1
    ensures Opens(h) <= Opens(h + more)
  {
    if more == [] {
      assert h + more == h;
    } else {
      assert more == [more[0]];
      OpensPush(h, more[0]);
    }
  }

  lemma TracksNothing(s: Stack)
    requires s.nextGeneration == 1 && s.entries == []
    ensures Tracks(s, [])
  {
  }

  /** With fewer than 2^64 - 1 attaches on a thread, its stack is at all times told by its
      record, whatever the other threads and the caller's tokens are. */
  lemma {:induction false} RunsTrack(n: nat, turns: seq<Turn>, t: nat)
    requires Among(turns, n) && t < n && Opens(History(n, turns, t)) < TWO64 - 1
    ensures Tracks(StackOf(After(n, turns), t), History(n, turns, t))
  {
    hide Tracks, Opens, Noted, Step;
    if turns == [] {
      hide StackOf;
      Beginning(n, t);
    } else {
      var before, last := turns[..|turns| - 1], turns[|turns| - 1];
      var w := After(n, before);
      NotedAtMostOne(w, last, t);
      OpensGrow(History(n, before, t), Noted(w, last, t));
      RunsTrack(n, before, t);
      StepTracks(w, last, t, History(n, before, t));
    }
  }

  lemma Beginning(n: nat, t: nat)
    requires t < n
    ensures Tracks(StackOf(After(n, []), t), History(n, [], t))
  {
    TracksNothing(StackOf(After(n, []), t));
  }

  lemma NotedAtMostOne(w: World, turn: Turn, t: nat)
    requires turn.thread < |w.stacks|
    ensures |Noted(w, turn, t)| <= 1
  {
  }

  // ----- what the record says -----

  /** Attaches and detaches nest, the open ones are the stack, and no token closes twice. */
  lemma WellBracketed(n: nat, turns: seq<Turn>, t: nat)
    requires Among(turns, n) && t < n && Opens(History(n, turns, t)) < TWO64 - 1
    ensures Bracketed(History(n, turns, t), StackOf(After(n, turns), t).entries)
    ensures |StackOf(After(n, turns), t).entries| <= MAX_CONTEXT_DEPTH
    ensures ClosedOnce(History(n, turns, t))
  {
    RunsTrack(n, turns, t);
  }

  /** The last scope that was opened and not closed, as the record alone tells it. */
  ghost predicate IsInnermost(h: seq<Event>, i: nat) {
    && i < |h| && h[i].Opened? && Closed(h[i].generation) !in h
    && forall j :: i < j < |h| && h[j].Opened? ==> Closed(h[j].generation) in h
  }

  /** The event that opened the scope on top of the stack. */
  predicate TopAt(s: Stack, h: seq<Event>, i: nat) {
    && i < |h| && s.entries != []
    && h[i] == Opened(s.entries[|s.entries| - 1].generation, s.entries[|s.entries| - 1].context)
  }

  lemma TopIsInnermost(s: Stack, h: seq<Event>, i: nat)
    requires Tracks(s, h)
    ensures IsInnermost(h, i) <==> TopAt(s, h, i)
  {
    hide Opens, Bracketed, ClosedOnce;
    var es := s.entries;
    if IsInnermost(h, i) {
      var e := StackEntry(h[i].generation, h[i].context);
      assert h[i] in h && e in es;
      var m :| 0 <= m < |es| && es[m] == e;
      var top := es[|es| - 1];
      assert top in es;
      var j :| 0 <= j < |h| && h[j] == Opened(top.generation, top.context);
      assert i >= j;
    }
    if TopAt(s, h, i) {
      TopIsLast(s, h, i);
    }
  }

  lemma NoneAbove(s: Stack, h: seq<Event>, e: StackEntry)
    requires Tracks(s, h) && s.entries != [] && e.generation > s.entries[|s.entries| - 1].generation
    ensures e !in s.entries
  {
    hide Opens, Rising, ClosedOnce, Bracketed;
  }

  lemma TopIsLast(s: Stack, h: seq<Event>, i: nat)
    requires Tracks(s, h) && TopAt(s, h, i)
    ensures IsInnermost(h, i)
  {
    hide Opens, Bracketed, ClosedOnce;
    var es := s.entries;
    assert es[|es| - 1] in es;
    forall j | i < j < |h| && h[j].Opened? ensures Closed(h[j].generation) in h {
      assert h[j] in h;
      NoneAbove(s, h, StackEntry(h[j].generation, h[j].context));
    }
  }

  lemma TopIsSomewhere(s: Stack, h: seq<Event>)
    requires Tracks(s, h) && s.entries != []
    ensures exists i :: IsInnermost(h, i)
  {
    hide Opens, Bracketed, ClosedOnce, Rising;
    var top := s.entries[|s.entries| - 1];
    assert top in s.entries;
    var i :| 0 <= i < |h| && h[i] == Opened(top.generation, top.context);
    TopIsLast(s, h, i);
  }

  lemma CurrentReply(w: World, t: nat)
    requires t < |w.stacks|
    ensures Step(w, Turn(t, Current)).1 == Told(Innermost(StackOf(w, t)))
  {
  }

  lemma InnermostContext(s: Stack, h: seq<Event>, c: ContextData)
    requires Tracks(s, h)
    ensures Innermost(s) == Some(c) <==> exists i: nat :: IsInnermost(h, i) && h[i].context == c
  {
    hide Tracks, IsInnermost;
    forall i: nat ensures IsInnermost(h, i) <==>
      TopAt(s, h, i)
    {
      TopIsInnermost(s, h, i);
    }
    if s.entries != [] { TopIsSomewhere(s, h); }
  }

  /** `current` answers with the context of the innermost scope still open, if any. */
  lemma CurrentIsInnermost(n: nat, turns: seq<Turn>, t: nat, c: ContextData)
    requires Among(turns, n) && t < n && Opens(History(n, turns, t)) < TWO64 - 1
    ensures var h := History(n, turns, t);
      Step(After(n, turns), Turn(t, Current)).1 == Told(Some(c)) <==>
        exists i: nat :: IsInnermost(h, i) && h[i].context == c
  {
    hide Tracks, History, After, IsInnermost, Step, StackOf, Opens, Innermost;
    RunsTrack(n, turns, t);
    CurrentReply(After(n, turns), t);
    InnermostContext(StackOf(After(n, turns), t), History(n, turns, t), c);
  }

  // ----- thread tokens -----

  function Made(stacks: seq<Option<Stack>>): (m: nat)
    ensures m <= |stacks|
  {
    if stacks == [] then 0
    else Made(stacks[..|stacks| - 1]) + if stacks[|stacks| - 1].Some? then 1 else 0
  }

  lemma {:induction false} MadeOne(stacks: seq<Option<Stack>>, t: nat, s: Stack)
    requires t < |stacks|
    ensures Made(stacks[t := Some(s)]) == Made(stacks) + if stacks[t].None? then 1 else 0
  {
    var m := |stacks| - 1;
    if t < m {
      MadeOne(stacks[..m], t, s);
      assert stacks[t := Some(s)][..m] == stacks[..m][t := Some(s)];
    } else {
      assert stacks[t := Some(s)][..m] == stacks[..m];
    }
  }

  /** Tokens are handed out from one, to one thread each. */
  ghost predicate TokensApart(w: World) {
    && w.nextToken == Made(w.stacks) + 1
    && (forall i :: 0 <= i < |w.stacks| && w.stacks[i].Some? ==> 1 <= w.stacks[i].value.threadToken < w.nextToken)
    && (forall i, j :: 0 <= i < j < |w.stacks| && w.stacks[i].Some? && w.stacks[j].Some? ==>
          w.stacks[i].value.threadToken != w.stacks[j].value.threadToken)
  }

  lemma TouchApart(w: World, t: nat)
    requires TokensApart(w) && t < |w.stacks| < TWO64 - 1
    ensures TokensApart(Touch(w, t))
  {
    if w.stacks[t].None? {
      var s := Touch(w, t).stacks[t].value;
      MadeOne(w.stacks, t, s);
      hide Made;
    }
  }

  lemma StepApart(w: World, turn: Turn)
    requires TokensApart(w) && turn.thread < |w.stacks| < TWO64 - 1
    ensures TokensApart(Step(w, turn).0)
  {
    TouchApart(w, turn.thread);
    var v, u := Touch(w, turn.thread), Step(w, turn).0;
    hide Touch;
    if u != w && u != v {
      MadeOne(v.stacks, turn.thread, u.stacks[turn.thread].value);
      assert u.stacks == v.stacks[turn.thread := u.stacks[turn.thread]];
    }
  }

  lemma {:induction false} NoneMade(n: nat)
    ensures Made(seq(n, _ => None)) == 0
  {
    if n > 0 {
      NoneMade(n - 1);
      var stacks: seq<Option<Stack>> := seq(n, _ => None);
      assert stacks[..n - 1] == seq(n - 1, _ => None);
    }
  }

  lemma {:induction false} RunsApart(n: nat, turns: seq<Turn>)
    requires Among(turns, n) && n < TWO64 - 1
    ensures TokensApart(After(n, turns))
  {
    hide TokensApart, Step;
    if turns == [] {
      NoneMade(n);
      assert TokensApart(World(1, seq(n, _ => None))) by { BeginApart(n); }
    } else {
      RunsApart(n, turns[..|turns| - 1]);
      StepApart(After(n, turns[..|turns| - 1]), turns[|turns| - 1]);
    }
  }

  lemma BeginApart(n: nat)
    ensures TokensApart(World(1, seq(n, _ => None)))
  {
    NoneMade(n);
  }

  /** Thread `t` was handed the token `k` by one of its attaches. */
  ghost predicate Issued(n: nat, turns: seq<Turn>, t: nat, k: Token)
    requires Among(turns, n)
  {
    exists i :: 0 <= i < |turns| && IssuedAt(n, turns, i, t, k)
  }

  ghost predicate IssuedAt(n: nat, turns: seq<Turn>, i: nat, t: nat, k: Token)
    requires Among(turns, n) && i < |turns|
  {
    turns[i].thread == t && Step(After(n, turns[..i]), turns[i]).1 == Attached(k)
  }

  ghost predicate Bears(w: World, t: nat, token: nat)
    requires t < |w.stacks|
  {
    w.stacks[t].Some? && w.stacks[t].value.threadToken == token
  }

  lemma StepBears(w: World, turn: Turn, t: nat, token: nat)
    requires turn.thread < |w.stacks| && t < |w.stacks|
    requires Bears(w, t, token) ||
      (turn.thread == t && Step(w, turn).1.Attached? && Step(w, turn).1.token.threadToken == token)
    ensures Bears(Step(w, turn).0, t, token)
  {
  }

  lemma {:induction false} IssuedBears(n: nat, turns: seq<Turn>, i: nat, t: nat, k: Token)
    requires Among(turns, n) && t < n && i < |turns| && IssuedAt(n, turns, i, t, k)
    ensures Bears(After(n, turns), t, k.threadToken)
  {
    hide Step, Bears;
    var m := |turns| - 1;
    if i < m {
      assert turns[..m][..i] == turns[..i] && turns[..m][i] == turns[i];
      IssuedBears(n, turns[..m], i, t, k);
    }
    StepBears(After(n, turns[..m]), turns[m], t, k.threadToken);
  }

  lemma DetachReply(w: World, u: nat, k: Token)
    requires u < |w.stacks|
    ensures Step(w, Turn(u, Detach(k))).1 == Detached <==> Active(k) && Closes(k, StackOf(w, u))
  {
  }

  lemma AttachReply(w: World, turn: Turn, k: Token)
    requires turn.thread < |w.stacks| && Step(w, turn).1 == Attached(k)
    ensures var s := StackOf(w, turn.thread); k == Token(s.threadToken, s.nextGeneration, 0, 0)
  {
  }

  lemma OneBears(w: World, t: nat, u: nat, token: nat)
    requires t < |w.stacks| && u < |w.stacks| < TWO64 - 1 && TokensApart(w) && Bears(w, t, token)
    ensures StackOf(w, u).threadToken == token <==> t == u
  {
    TouchApart(w, u);
    hide Made;
  }

  lemma PositiveToken(w: World, t: nat)
    requires t < |w.stacks| < TWO64 - 1 && TokensApart(w)
    ensures StackOf(w, t).threadToken >= 1
  {
    TouchApart(w, t);
  }

  lemma TracksNext(s: Stack, h: seq<Event>)
    requires Tracks(s, h)
    ensures s.nextGeneration == Opens(h) + 1
  {
  }

  lemma IssuedIsActive(n: nat, turns: seq<Turn>, i: nat, t: nat, k: Token)
    requires Among(turns, n) && n < TWO64 - 1 && t < n && i < |turns| && IssuedAt(n, turns, i, t, k)
    requires Opens(History(n, turns, t)) < TWO64 - 1
    ensures Active(k)
  {
    hide After, History, StackOf, Step, Tracks, Opens, TokensApart;
    var before := turns[..i];
    var w := After(n, before);
    HistoryPrefix(n, turns, i, t);
    RunsTrack(n, before, t);
    TracksNext(StackOf(w, t), History(n, before, t));
    RunsApart(n, before);
    PositiveToken(w, t);
    AttachReply(w, turns[i], k);
  }

  /** The innermost open scope of the record is the one whose token closes. */
  lemma ClosesInnermost(s: Stack, h: seq<Event>, k: Token)
    requires Tracks(s, h) && k.threadToken == s.threadToken
    ensures Closes(k, s) <==> exists i: nat :: IsInnermost(h, i) && h[i].generation == k.generation
  {
    hide Tracks, IsInnermost;
    forall i: nat ensures IsInnermost(h, i) <==>
      TopAt(s, h, i)
    {
      TopIsInnermost(s, h, i);
    }
    if s.entries != [] { TopIsSomewhere(s, h); }
  }

  /** A token handed out, whoever holds a copy, is accepted on its own thread while its scope
      is the innermost one open there, and nowhere and never else. */
  lemma DetachAccepted(n: nat, turns: seq<Turn>, t: nat, k: Token, u: nat)
    requires Among(turns, n) && n < TWO64 - 1 && t < n && u < n && Issued(n, turns, t, k)
    requires Opens(History(n, turns, t)) < TWO64 - 1
    ensures var h := History(n, turns, t);
      Step(After(n, turns), Turn(u, Detach(k))).1 == Detached <==>
        u == t && exists i: nat :: IsInnermost(h, i) && h[i].generation == k.generation
  {
    hide Tracks, History, After, IsInnermost, IssuedAt, TokensApart, Step, StackOf, Opens, Bears;
    var w := After(n, turns);
    var i :| 0 <= i < |turns| && IssuedAt(n, turns, i, t, k);
    IssuedBears(n, turns, i, t, k);
    IssuedIsActive(n, turns, i, t, k);
    RunsTrack(n, turns, t);
    RunsApart(n, turns);
    OneBears(w, t, u, k.threadToken);
    DetachReply(w, u, k);
    if u == t { ClosesInnermost(StackOf(w, t), History(n, turns, t), k); }
  }

  /** Every open scope's token was handed to its thread. */
  ghost predicate AllIssued(n: nat, turns: seq<Turn>, t: nat)
    requires Among(turns, n) && t < n
  {
    var s := After(n, turns).stacks[t];
    s.Some? ==> forall e :: e in s.value.entries ==> Issued(n, turns, t, Token(s.value.threadToken, e.generation, 0, 0))
  }

  lemma IssuedStays(n: nat, turns: seq<Turn>, t: nat, k: Token)
    requires Among(turns, n) && turns != [] && Issued(n, turns[..|turns| - 1], t, k)
    ensures Issued(n, turns, t, k)
  {
    hide Step, After;
    var before := turns[..|turns| - 1];
    var i :| 0 <= i < |before| && IssuedAt(n, before, i, t, k);
    assert before[..i] == turns[..i] && before[i] == turns[i];
    assert IssuedAt(n, turns, i, t, k);
  }

  lemma EntriesComeFromAttach(w: World, turn: Turn, t: nat)
    requires turn.thread < |w.stacks| && t < |w.stacks| && Step(w, turn).0.stacks[t].Some?
    ensures var u := Step(w, turn).0.stacks[t].value;
      forall e :: e in u.entries ==>
        || (w.stacks[t].Some? && e in w.stacks[t].value.entries && w.stacks[t].value.threadToken == u.threadToken)
        || (turn.thread == t && Step(w, turn).1 == Attached(Token(u.threadToken, e.generation, 0, 0)))
  {
  }

  lemma {:induction false} RunsIssue(n: nat, turns: seq<Turn>, t: nat)
    requires Among(turns, n) && t < n
    ensures AllIssued(n, turns, t)
  {
    hide Step, Issued;
    if turns != [] {
      var m := |turns| - 1;
      var w := After(n, turns[..m]);
      RunsIssue(n, turns[..m], t);
      var after := After(n, turns).stacks[t];
      if after.Some? {
        EntriesComeFromAttach(w, turns[m], t);
        forall e | e in after.value.entries
          ensures Issued(n, turns, t, Token(after.value.threadToken, e.generation, 0, 0))
        {
          var k := Token(after.value.threadToken, e.generation, 0, 0);
          var before := w.stacks[t];
          if before.Some? && e in before.value.entries && before.value.threadToken == after.value.threadToken {
            IssuedStays(n, turns, t, k);
          } else {
            IssuedLast(n, turns, t, k);
          }
        }
      }
    }
  }

  lemma IssuedLast(n: nat, turns: seq<Turn>, t: nat, k: Token)
    requires Among(turns, n) && turns != [] && turns[|turns| - 1].thread == t
    requires Step(After(n, turns[..|turns| - 1]), turns[|turns| - 1]).1 == Attached(k)
    ensures Issued(n, turns, t, k)
  {
    hide Step, After;
    assert IssuedAt(n, turns, |turns| - 1, t, k);
  }

  lemma ClosedWasOpen(w: World, u: nat, k: Token)
    requires u < |w.stacks| && Step(w, Turn(u, Detach(k))).1 == Detached
    ensures w.stacks[u].Some? && k.threadToken == w.stacks[u].value.threadToken && k.reserved0 == k.reserved1 == 0
    ensures exists e :: e in w.stacks[u].value.entries && e.generation == k.generation
  {
    var es := StackOf(w, u).entries;
    assert es[|es| - 1] in es;
  }

  /** Any token at all - kept, copied or made up - is accepted by a thread exactly when that
      very token was handed to this thread and its scope is the innermost one open there. */
  lemma DetachExactly(n: nat, turns: seq<Turn>, u: nat, k: Token)
    requires Among(turns, n) && n < TWO64 - 1 && u < n && Opens(History(n, turns, u)) < TWO64 - 1
    ensures var h := History(n, turns, u);
      Step(After(n, turns), Turn(u, Detach(k))).1 == Detached <==>
        Issued(n, turns, u, k) && exists i: nat :: IsInnermost(h, i) && h[i].generation == k.generation
  {
    hide After, History, IsInnermost, Opens, Step, Issued;
    if Issued(n, turns, u, k) {
      DetachAccepted(n, turns, u, k, u);
    } else if Step(After(n, turns), Turn(u, Detach(k))).1 == Detached {
      ClosedWasOpen(After(n, turns), u, k);
      RunsIssue(n, turns, u);
    }
  }

  lemma {:induction false} HistoryPrefix(n: nat, turns: seq<Turn>, i: nat, t: nat)
    requires Among(turns, n) && i <= |turns|
    ensures Opens(History(n, turns[..i], t)) <= Opens(History(n, turns, t))
  {
    hide Opens, Noted;
    var m := |turns| - 1;
    if i <= m {
      HistoryPrefix(n, turns[..m], i, t);
      assert turns[..m][..i] == turns[..i];
      NotedAtMostOne(After(n, turns[..m]), turns[m], t);
      OpensGrow(History(n, turns[..m], t), Noted(After(n, turns[..m]), turns[m], t));
    } else {
      assert turns[..i] == turns;
    }
  }

  // ----- what an attach answers -----

  /** How many scopes the record has closed. */
  function Closings(h: seq<Event>): nat {
    if h == [] then 0 else Closings(h[..|h| - 1]) + if h[|h| - 1].Closed? then 1 else 0
  }

  lemma CountsGrow(h: seq<Event>, noted: seq<Event>)
    requires |noted| <= 1
    ensures Opens(h + noted) == Opens(h) + if noted != [] && noted[0].Opened? then 1 else 0
    ensures Closings(h + noted) == Closings(h) + if noted != [] && noted[0].Closed? then 1 else 0
  {
    if noted == [] {
      assert h + noted == h;
    } else {
      assert noted == [noted[0]] && (h + noted)[..|h|] == h;
    }
  }

  /** A thread's depth is what its record has opened and not closed. */
  lemma {:induction false} DepthIsCounted(n: nat, turns: seq<Turn>, t: nat)
    requires Among(turns, n) && t < n
    ensures |StackOf(After(n, turns), t).entries| + Closings(History(n, turns, t)) == Opens(History(n, turns, t))
  {
    hide Opens, Closings, Noted, Step;
    if turns == [] {
      assert Opens([]) == Closings([]) == 0 by { CountsNothing(); }
    } else {
      hide StackOf;
      var before, last := turns[..|turns| - 1], turns[|turns| - 1];
      var w := After(n, before);
      DepthIsCounted(n, before, t);
      NotedAtMostOne(w, last, t);
      CountsGrow(History(n, before, t), Noted(w, last, t));
      var reply := Step(w, last).1;
      if t == last.thread && reply.Attached? {
        AttachEffect(w, last);
      } else if t == last.thread && reply.Detached? {
        DetachEffect(w, last);
      } else {
        NoEffect(w, last, t);
      }
    }
  }

  lemma CountsNothing()
    ensures Opens([]) == 0 && Closings([]) == 0
  {
  }

  /** A token that was handed out stands in the record of its thread. */
  lemma {:induction false} IssuedIsOpened(n: nat, turns: seq<Turn>, i: nat, t: nat, k: Token)
    requires Among(turns, n) && t < n && i < |turns| && IssuedAt(n, turns, i, t, k)
    ensures exists e :: e in History(n, turns, t) && e.Opened? && e.generation == k.generation
  {
    hide Step;
    var m := |turns| - 1;
    var w := After(n, turns[..m]);
    if i < m {
      assert turns[..m][..i] == turns[..i] && turns[..m][i] == turns[i];
      IssuedIsOpened(n, turns[..m], i, t, k);
      var e :| e in History(n, turns[..m], t) && e.Opened? && e.generation == k.generation;
      assert e in History(n, turns, t);
    } else {
      AttachReply(w, turns[m], k);
      AttachEffect(w, turns[m]);
      assert Noted(w, turns[m], t)[0] in History(n, turns, t);
    }
  }

  lemma OpenedBelow(s: Stack, h: seq<Event>, e: Event)
    requires Tracks(s, h) && e in h && e.Opened?
    ensures e.generation < s.nextGeneration
  {
    hide Bracketed, ClosedOnce, Opens;
    var i :| 0 <= i < |h| && h[i] == e;
  }

  lemma AttachAnswers(w: World, t: nat, c: ContextData)
    requires t < |w.stacks|
    ensures var s, reply := StackOf(w, t), Step(w, Turn(t, Attach(Some(c)))).1;
      reply == if |s.entries| >= MAX_CONTEXT_DEPTH then Refused(InvalidConfig)
               else Attached(Token(s.threadToken, s.nextGeneration, 0, 0))
    ensures Step(w, Turn(t, Attach(None))) == (w, Refused(InvalidArgument))
  {
  }

  /** An attach is refused exactly at depth 64, as the record counts it; otherwise it hands out
      a token that no thread was ever handed before, and records the context. */
  lemma AttachExactly(n: nat, turns: seq<Turn>, t: nat, c: ContextData)
    requires Among(turns, n) && n < TWO64 - 1 && t < n && Opens(History(n, turns, t)) < TWO64 - 1
    ensures var h, w, turn := History(n, turns, t), After(n, turns), Turn(t, Attach(Some(c)));
      var reply := Step(w, turn).1;
      && (reply == Refused(InvalidConfig) <==> Opens(h) >= Closings(h) + MAX_CONTEXT_DEPTH)
      && (reply != Refused(InvalidConfig) ==>
           && reply.Attached? && Active(reply.token)
           && (forall u :: 0 <= u < n ==> !Issued(n, turns, u, reply.token))
           && History(n, turns + [turn], t) == h + [Opened(reply.token.generation, c)])
  {
    hide Tracks, History, After, IssuedAt, TokensApart, Step, StackOf, Opens, Closings, Bears;
    var w, turn, h := After(n, turns), Turn(t, Attach(Some(c))), History(n, turns, t);
    DepthIsCounted(n, turns, t);
    AttachAnswers(w, t, c);
    RunsTrack(n, turns, t);
    TracksNext(StackOf(w, t), h);
    RunsApart(n, turns);
    PositiveToken(w, t);
    var reply := Step(w, turn).1;
    if reply.Attached? {
      forall u, i | 0 <= u < n && 0 <= i < |turns| && IssuedAt(n, turns, i, u, reply.token) ensures false {
        IssuedBears(n, turns, i, u, reply.token);
        OneBears(w, u, t, reply.token.threadToken);
        IssuedIsOpened(n, turns, i, t, reply.token);
        var e :| e in h && e.Opened? && e.generation == reply.token.generation;
        OpenedBelow(StackOf(w, t), h, e);
      }
      AttachEffect(w, turn);
      HistoryNext(n, turns, turn, t);
    }
  }

  lemma HistoryNext(n: nat, turns: seq<Turn>, turn: Turn, t: nat)
    requires Among(turns, n) && turn.thread < n
    ensures History(n, turns + [turn], t) == History(n, turns, t) + Noted(After(n, turns), turn, t)
  {
    assert (turns + [turn])[..|turns|] == turns;
    hide Noted;
  }
}
