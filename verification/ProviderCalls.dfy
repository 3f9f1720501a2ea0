/** The calls that the provider slot makes through vtables: which ones, in which order, and
    that none that is due is lost. */
module ProviderCalls {
  import opened Bytes
  import opened ProviderSlot

  /** The last call that thread `i` made. */
  function LastOwn(log: seq<Event>, i: nat): Option<VtableCall> {
    if log == [] then None
    else if log[|log| - 1].thread == i then Some(log[|log| - 1].call)
    else LastOwn(log[..|log| - 1], i)
  }

  lemma LastOwnPush(log: seq<Event>, e: Event, i: nat)
    ensures LastOwn(log + [e], i) == if e.thread == i then Some(e.call) else LastOwn(log, i)
  {
    assert (log + [e])[..|log|] == log;
  }

  /** A provider is used by the call after its successful retain, and by no other, and freed by
      the call after its use. */
  predicate Follows(last: Option<VtableCall>, call: VtableCall) {
    && (call.Uses? <==> last.Some? && last.value.Retains? && last.value.ok)
    && (call.Uses? ==> last.value.p == call.p)
    && (last.Some? && last.value.Uses? ==> call == Frees(last.value.p))
  }

  /** A provider has been retained or used and is not yet freed. */
  predicate Amid(last: Option<VtableCall>) {
    last.Some? && (last.value.Uses? || (last.value.Retains? && last.value.ok))
  }

  ghost predicate InOrder(log: seq<Event>) {
    forall k :: 0 <= k < |log| ==> Follows(LastOwn(log[..k], log[k].thread), log[k].call)
  }

  /** The place of a thread and its last call. */
  predicate Agrees(pc: Pc, last: Option<VtableCall>) {
    match pc
    case Leaving(got) => if got.Some? then last == Some(Retains(got.value, true)) else !Amid(last)
    case Using(p) => last == Some(Retains(p, true))
    case Freeing(previous, _) => Amid(last) ==> last.value.Uses? && previous == Some(last.value.p)
    case _ => !Amid(last)
  }

  ghost predicate AllAgree(s: State) {
    forall i :: 0 <= i < |s.threads| ==> Agrees(s.threads[i], LastOwn(s.log, i))
  }

  /** One step: the thread that moves, the call it makes, its place afterwards. */
  lemma StepShape(s: State, t: Turn)
    requires Enabled(s, t)
    ensures t.thread < |s.threads| == |Step(s, t).threads|
    ensures forall j :: 0 <= j < |s.threads| && j != t.thread ==> Step(s, t).threads[j] == s.threads[j]
    ensures Step(s, t).log == s.log + Noted(s, t) && |Noted(s, t)| <= 1
    ensures Noted(s, t) != [] ==> Noted(s, t)[0].thread == t.thread
  {
    hide NoWriter, NoReader, NobodyAsks;
    assert s.log + [] == s.log;
  }

  lemma StepAgrees(s: State, t: Turn)
    requires Enabled(s, t)
    requires Agrees(s.threads[t.thread], LastOwn(s.log, t.thread))
    ensures var last, noted, pc := LastOwn(s.log, t.thread), Noted(s, t), Perform(s, t).threads[t.thread];
      && (noted == [] ==> Agrees(pc, last))
      && (noted != [] ==> Agrees(pc, Some(noted[0].call)) && Follows(last, noted[0].call))
  {
    hide NoWriter, NoReader, NobodyAsks, LastOwn;
  }

  lemma InOrderPush(log: seq<Event>, e: Event)
    requires InOrder(log) && Follows(LastOwn(log, e.thread), e.call)
    ensures InOrder(log + [e])
  {
    hide Follows, LastOwn;
    var g := log + [e];
    forall k | 0 <= k < |g| ensures Follows(LastOwn(g[..k], g[k].thread), g[k].call) {
      if k < |log| {
        assert g[..k] == log[..k] && g[k] == log[k];
      } else {
        assert g[..k] == log;
      }
    }
  }

  lemma StepInOrder(s: State, t: Turn)
    requires InOrder(s.log) && AllAgree(s)
    ensures InOrder(Step(s, t).log) && AllAgree(Step(s, t))
  {
    if Enabled(s, t) {
      StepShape(s, t);
      assert Agrees(s.threads[t.thread], LastOwn(s.log, t.thread));
      StepAgrees(s, t);
      var u, noted := Step(s, t), Noted(s, t);
      assert u.threads[t.thread] == Perform(s, t).threads[t.thread];
      hide InOrder, Step, Perform, Enabled, Noted, Agrees, Follows;
      if noted != [] {
        assert noted == [noted[0]];
        InOrderPush(s.log, noted[0]);
        forall i: nat ensures LastOwn(u.log, i) == if t.thread == i then Some(noted[0].call) else LastOwn(s.log, i) {
          LastOwnPush(s.log, noted[0], i);
        }
      } else {
        assert u.log == s.log;
      }
      hide LastOwn;
    }
  }

  lemma StartInOrder(signal: Signal, n: nat)
    ensures InOrder(Start(signal, n).log) && AllAgree(Start(signal, n))
  {
  }

  lemma {:induction false} RunsInOrder(signal: Signal, n: nat, run: seq<Turn>)
    ensures InOrder(After(Start(signal, n), run).log) && AllAgree(After(Start(signal, n), run))
  {
    hide InOrder, AllAgree, Step, Start;
    if run == [] {
      StartInOrder(signal, n);
    } else {
      RunsInOrder(signal, n, run[..|run| - 1]);
      StepInOrder(After(Start(signal, n), run[..|run| - 1]), run[|run| - 1]);
    }
  }

  /** Among the calls that one thread makes, each successful retain is followed by one use and
      then one free of the same provider; a provider is used in no other way; and a thread at
      rest has nothing left to use or to free. */
  lemma ResolvesInOrder(signal: Signal, n: nat, run: seq<Turn>, k: nat)
    requires k < |After(Start(signal, n), run).log|
    ensures var log := After(Start(signal, n), run).log;
      var last, call := LastOwn(log[..k], log[k].thread), log[k].call;
      && (forall p: nat :: call == Uses(p) <==> last == Some(Retains(p, true)))
      && (forall p: nat :: last == Some(Uses(p)) ==> call == Frees(p))
    ensures var s := After(Start(signal, n), run);
      forall i, p: nat :: 0 <= i < |s.threads| && s.threads[i].Idle? ==>
        LastOwn(s.log, i) != Some(Retains(p, true)) && LastOwn(s.log, i) != Some(Uses(p))
  {
    RunsInOrder(signal, n, run);
    hide After, Start, LastOwn;
    var s := After(Start(signal, n), run);
    assert Follows(LastOwn(s.log[..k], s.log[k].thread), s.log[k].call);
    forall i | 0 <= i < |s.threads| && s.threads[i].Idle? ensures !Amid(LastOwn(s.log, i)) {
      assert Agrees(s.threads[i], LastOwn(s.log, i));
    }
  }

  // ----- no retain that is due is lost -----

  /** Thread `i` looks at a slot that holds `p`. */
  predicate Sees(s: State, t: Turn, i: nat, p: nat) {
    t.thread == i && t.action.Look? && Enabled(s, t) && s.slot.provider == Some(p)
  }

  function TimesSeen(z: State, run: seq<Turn>, i: nat, p: nat): nat {
    if run == [] then 0
    else
      var before, t := run[..|run| - 1], run[|run| - 1];
      TimesSeen(z, before, i, p) + if Sees(After(z, before), t, i, p) then 1 else 0
  }

  /** How often thread `i` has asked for a reference to `p`, whatever the answer. */
  function TimesRetained(log: seq<Event>, i: nat, p: nat): nat {
    if log == [] then 0
    else
      var e := log[|log| - 1];
      TimesRetained(log[..|log| - 1], i, p) + if e.thread == i && e.call.Retains? && e.call.p == p then 1 else 0
  }

  lemma TimesRetainedPush(log: seq<Event>, e: Event, i: nat, p: nat)
    ensures TimesRetained(log + [e], i, p) ==
      TimesRetained(log, i, p) + if e.thread == i && e.call.Retains? && e.call.p == p then 1 else 0
  {
    assert (log + [e])[..|log|] == log;
  }

  function One(b: bool): nat { if b then 1 else 0 }

  predicate ToRetain(s: State, i: nat, p: nat) { i < |s.threads| && s.threads[i] == Retaining(p) }

  lemma StepPlaces(s: State, t: Turn, p: nat)
    requires Enabled(s, t)
    ensures var pc, next, noted := s.threads[t.thread], Perform(s, t).threads[t.thread], Noted(s, t);
      var asks := noted != [] && noted[0].call.Retains? && noted[0].call.p == p;
      && (next == Retaining(p) <==> t.action.Look? && s.slot.provider == Some(p))
      && (asks <==> pc == Retaining(p))
  {
    hide NoWriter, NoReader, NobodyAsks;
  }

  lemma StepRetains(s: State, t: Turn, i: nat, p: nat)
    ensures var u := Step(s, t);
      TimesRetained(u.log, i, p) + One(ToRetain(u, i, p)) ==
        TimesRetained(s.log, i, p) + One(ToRetain(s, i, p)) + One(Sees(s, t, i, p))
  {
    if Enabled(s, t) {
      StepShape(s, t);
      StepPlaces(s, t, p);
      var u, noted := Step(s, t), Noted(s, t);
      assert u.threads[t.thread] == Perform(s, t).threads[t.thread];
      hide Step, Perform, Enabled, Noted;
      if noted != [] {
        assert noted == [noted[0]];
        TimesRetainedPush(s.log, noted[0], i, p);
      } else {
        assert u.log == s.log;
      }
      hide TimesRetained;
    }
  }

  /** Each time a thread sees a provider in the slot it asks that provider, and no other, for a
      reference. */
  lemma {:induction false} EverySightRetains(signal: Signal, n: nat, run: seq<Turn>, i: nat, p: nat)
    ensures var s := After(Start(signal, n), run);
      TimesRetained(s.log, i, p) + One(ToRetain(s, i, p)) == TimesSeen(Start(signal, n), run, i, p)
  {
    hide Step, Start, TimesRetained, ToRetain, Sees;
    if run == [] {
      NothingRetained(signal, n, i, p);
    } else {
      var before := run[..|run| - 1];
      EverySightRetains(signal, n, before, i, p);
      StepRetains(After(Start(signal, n), before), run[|run| - 1], i, p);
    }
  }

  lemma NothingRetained(signal: Signal, n: nat, i: nat, p: nat)
    ensures TimesRetained(Start(signal, n).log, i, p) == 0 && !ToRetain(Start(signal, n), i, p)
  {
  }

  /** The provider that is asked for a reference is the one in the slot at that moment, and it
      is alive. */
  lemma RetainsTheSlot(signal: Signal, n: nat, run: seq<Turn>, t: Turn, e: Event)
    requires var s := After(Start(signal, n), run); Step(s, t).log == s.log + [e] && e.call.Retains?
    ensures var s := After(Start(signal, n), run);
      s.slot.provider == Some(e.call.p) && e.call.p < |s.refs| && s.refs[e.call.p] > 0
  {
    var s := After(Start(signal, n), run);
    RunsKeep(signal, n, run);
    assert Step(s, t).log[|s.log|] == e;
    assert Enabled(s, t);
    StepShape(s, t);
    assert Noted(s, t) == [e] by { assert (s.log + Noted(s, t))[|s.log|] == Noted(s, t)[0]; }
    hide After, Start, Step, Perform;
    assert s.threads[t.thread] == Retaining(e.call.p);
    SlotHeld(s, e.call.p);
  }

  // ----- no deadlock -----

  /** Unless every thread is at rest, some thread that is not can take a step. */
  lemma NeverStuck(s: State, i: nat)
    requires i < |s.threads| && !s.threads[i].Idle?
    ensures exists t :: Enabled(s, t) && !s.threads[t.thread].Idle?
  {
    if j: nat :| j < |s.threads| && (HoldsWrite(s.threads[j]) || HoldsRead(s.threads[j])) {
      var a := UnderLock(s.threads[j]);
      assert Enabled(s, Turn(j, a));
    } else {
      assert NoWriter(s) && NoReader(s);
      var a := match s.threads[i]
        case Registering(_) => if s.signal == Traces then LockToWrite else TakeId
        case Freeing(_, _) => Free
        case Using(_) => Use
        case Asking(_) => Answer
        case _ => LockToWrite;
      assert Enabled(s, Turn(i, a));
    }
  }

  /** What a thread that holds the lock does next. */
  function UnderLock(pc: Pc): Action {
    match pc
    case Replaced(_, _) => Unlock
    case Looking => Look
    case Retaining(_) => Retain(true)
    case Leaving(_) => Leave
    case _ => Swap
  }
}
