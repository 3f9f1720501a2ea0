/** The shutdown protocol of the custom log, metric and trace exporters: any number of threads
    exporting, flushing and shutting down, and finally the drop of the exporter.

    Every lock operation, test of the flag and start or end of a C callback is one step. */
module ExporterShutdown {

  datatype Op = Export | Flush | Shutdown | Destroy

  /** The optional callbacks that were given; exporting is mandatory. */
  datatype Callbacks = Callbacks(flush: bool, shutdown: bool, destroy: bool)

  datatype Pc =
    | Idle
    | Waiting(op: Op)   // for the read lock, or to shut down for the write lock
    | Entered(op: Op)   // lock held, flag not looked at
    | Ready(op: Op)     // lock held, callback about to start
    | Running(op: Op)   // lock held, callback running
    | Left(op: Op)      // lock held, about to return
    | Freeing           // the exporter's state is about to be destroyed
    | FreeRunning       // the destroy callback is running
    | Gone              // dropped

  datatype Event = Started(op: Op, thread: nat) | Ended(op: Op, thread: nat)

  datatype State = State(
    given: Callbacks,
    down: bool,             // the flag under the lock
    downBy: nat,            // the thread that set it
    dropper: int,           // the thread that drops the exporter, or -1
    log: seq<Event>,        // the C callbacks started and ended so far
    threads: seq<Pc>)

  /** A thread begins an operation, begins the drop, or goes on; `ok` tells whether a batch
      could be converted. */
  datatype Action = Begin(op: Op) | Drop | Go(ok: bool)

  datatype Turn = Turn(thread: nat, action: Action)

  predicate InLock(pc: Pc) { pc.Entered? || pc.Ready? || pc.Running? || pc.Left? }

  predicate HoldsWrite(pc: Pc) { InLock(pc) && pc.op == Shutdown }

  predicate HoldsRead(pc: Pc) { InLock(pc) && pc.op != Shutdown }

  predicate NoWriter(s: State) { forall i :: 0 <= i < |s.threads| ==> !HoldsWrite(s.threads[i]) }

  predicate Unlocked(s: State) { forall i :: 0 <= i < |s.threads| ==> !InLock(s.threads[i]) }

  predicate AllIdle(s: State) { forall i :: 0 <= i < |s.threads| ==> s.threads[i].Idle? }

  predicate Calls(given: Callbacks, op: Op, ok: bool) {
    match op
    case Export => ok
    case Flush => given.flush
    case Shutdown => given.shutdown
    case Destroy => given.destroy
  }

  /** Where a thread goes on to. */
  function NextPc(s: State, pc: Pc, ok: bool): Pc {
    match pc
    case Idle => Idle
    case Waiting(op) =>
      if (op == Shutdown && Unlocked(s)) || (op != Shutdown && NoWriter(s)) then Entered(op) else pc
    case Entered(op) => if !s.down && Calls(s.given, op, ok) then Ready(op) else Left(op)
    case Ready(op) => Running(op)
    case Running(op) => Left(op)
    case Left(op) => if s.dropper < 0 then Idle else if s.given.destroy then Freeing else Gone
    case Freeing => FreeRunning
    case FreeRunning => Gone
    case Gone => Gone
  }

  /** The callback that starts or ends when a thread goes on. */
  function Noted(pc: Pc, i: nat): seq<Event> {
    match pc
    case Ready(op) => [Started(op, i)]
    case Running(op) => [Ended(op, i)]
    case Freeing => [Started(Destroy, i)]
    case FreeRunning => [Ended(Destroy, i)]
    case _ => []
  }

  function Goes(s: State, i: nat, ok: bool): State
    requires i < |s.threads|
  {
    var pc := s.threads[i];
    var sets := pc == Entered(Shutdown) && !s.down;
    State(s.given, s.down || sets, if sets then i else s.downBy, s.dropper,
          s.log + Noted(pc, i), s.threads[i := NextPc(s, pc, ok)])
  }

  /** Dropping needs the exporter to itself, for good. A turn that cannot be taken changes
      nothing. */
  function Step(s: State, t: Turn): State {
    if t.thread >= |s.threads| then s
    else
      match t.action
      case Begin(op) =>
        if s.threads[t.thread].Idle? && s.dropper < 0 && op != Destroy then
          s.(threads := s.threads[t.thread := Waiting(op)])
        else s
      case Drop =>
        if AllIdle(s) && s.dropper < 0 then
          s.(dropper := t.thread, threads := s.threads[t.thread := Waiting(Shutdown)])
        else s
      case Go(ok) => Goes(s, t.thread, ok)
  }

  function Start(given: Callbacks, n: nat): State {
    State(given, false, 0, -1, [], seq(n, _ => Idle))
  }

  function After(given: Callbacks, n: nat, run: seq<Turn>): State {
    if run == [] then Start(given, n) else Step(After(given, n, run[..|run| - 1]), run[|run| - 1])
  }

  // ----- the log -----

  /** The thread is between a start and its end. */
  predicate Open(log: seq<Event>, i: nat) {
    if log == [] then false
    else if log[|log| - 1].thread == i then log[|log| - 1].Started?
    else Open(log[..|log| - 1], i)
  }

  predicate Working(e: Event) { e.op == Export || e.op == Flush }

  /** First `m` events of exports and flushes, then `closing`. */
  predicate Splits(log: seq<Event>, m: nat, closing: seq<Event>) {
    m <= |log| && log[m..] == closing && forall k :: 0 <= k < m ==> Working(log[k])
  }

  /** What the shutdown callback has contributed. */
  function ShutdownPart(s: State): seq<Event>
    requires s.down ==> s.downBy < |s.threads|
  {
    if !s.down || !s.given.shutdown || s.threads[s.downBy] == Ready(Shutdown) then []
    else if s.threads[s.downBy] == Running(Shutdown) then [Started(Shutdown, s.downBy)]
    else [Started(Shutdown, s.downBy), Ended(Shutdown, s.downBy)]
  }

  /** What the destroy callback has contributed. */
  function DestroyPart(s: State): seq<Event>
    requires s.dropper < |s.threads|
  {
    if s.dropper < 0 || !s.given.destroy then []
    else
      var d: nat := s.dropper;
      if s.threads[d].FreeRunning? then [Started(Destroy, d)]
      else if s.threads[d].Gone? then [Started(Destroy, d), Ended(Destroy, d)]
      else []
  }

  // ----- what every step keeps -----

  ghost predicate Exclusive(s: State) {
    forall i, j :: 0 <= i < |s.threads| && 0 <= j < |s.threads| && i != j && HoldsWrite(s.threads[i]) ==>
      !InLock(s.threads[j])
  }

  predicate Dropped(pc: Pc) { pc.Freeing? || pc.FreeRunning? || pc.Gone? }

  /** The place of a thread agrees with the flag and with the drop. */
  ghost predicate PlaceOk(s: State, i: nat)
    requires i < |s.threads|
  {
    var pc := s.threads[i];
    && (pc.Waiting? || InLock(pc) ==> pc.op != Destroy)
    && (pc.Ready? || pc.Running? ==> (s.down <==> pc.op == Shutdown))
    && ((pc == Ready(Shutdown) || pc == Running(Shutdown)) ==> s.downBy == i && s.given.shutdown)
    && (pc == Left(Shutdown) ==> s.down)
    && (Dropped(pc) ==> s.down && s.dropper == i)
    && (pc.Freeing? || pc.FreeRunning? ==> s.given.destroy)
    && (s.dropper >= 0 && i != s.dropper ==> pc.Idle?)
    && (i == s.dropper ==> Dropped(pc) || ((pc.Waiting? || InLock(pc)) && pc.op == Shutdown))
  }

  ghost predicate Places(s: State) {
    && s.dropper < |s.threads| && (s.down ==> s.downBy < |s.threads|)
    && forall i :: 0 <= i < |s.threads| ==> PlaceOk(s, i)
  }

  ghost predicate OpenOk(s: State) {
    forall i: nat :: Open(s.log, i) <==> i < |s.threads| && (s.threads[i].Running? || s.threads[i].FreeRunning?)
  }

  /** Exports and flushes first, all ended once the flag is set; then the shutdown callback;
      then the destroy callback. */
  ghost predicate Ordered(s: State, m: nat)
    requires Places(s)
  {
    && Splits(s.log, m, ShutdownPart(s) + DestroyPart(s))
    && (s.down ==> forall i: nat :: !Open(s.log[..m], i))
  }

  ghost predicate Inv(s: State, m: nat) { Exclusive(s) && Places(s) && OpenOk(s) && Ordered(s, m) }

  lemma OpenAppend(log: seq<Event>, e: Event, i: nat)
    ensures Open(log + [e], i) <==> if e.thread == i then e.Started? else Open(log, i)
  {
    assert (log + [e])[..|log|] == log;
  }

  lemma LockEntered(s: State, pc: Pc, ok: bool)
    requires InLock(NextPc(s, pc, ok))
    ensures (InLock(pc) && NextPc(s, pc, ok).op == pc.op) ||
      (if NextPc(s, pc, ok).op == Shutdown then Unlocked(s) else NoWriter(s))
  {
    hide Unlocked, NoWriter;
  }

  lemma GoesExclusive(s: State, i: nat, ok: bool)
    requires Exclusive(s) && i < |s.threads|
    ensures Exclusive(Goes(s, i, ok))
  {
    if InLock(NextPc(s, s.threads[i], ok)) { LockEntered(s, s.threads[i], ok); }
    hide NextPc, InLock, Noted;
  }

  lemma OwnPlace(s: State, i: nat, ok: bool)
    requires Places(s) && i < |s.threads|
    ensures PlaceOk(Goes(s, i, ok), i)
  {
    assert PlaceOk(s, i);
    hide Unlocked, NoWriter, Places, Noted;
  }

  /** Setting the flag under the write lock finds no other thread past its test. */
  lemma OtherPlace(s: State, i: nat, ok: bool, j: nat)
    requires Exclusive(s) && Places(s) && i < |s.threads| && j < |s.threads| && i != j
    ensures PlaceOk(Goes(s, i, ok), j)
  {
    assert PlaceOk(s, j) && PlaceOk(s, i);
    hide NextPc, Places, Noted;
  }

  lemma GoesPlaces(s: State, i: nat, ok: bool)
    requires Exclusive(s) && Places(s) && i < |s.threads|
    ensures Places(Goes(s, i, ok))
  {
    OwnPlace(s, i, ok);
    forall j | 0 <= j < |s.threads| && j != i ensures PlaceOk(Goes(s, i, ok), j) {
      OtherPlace(s, i, ok, j);
    }
    hide PlaceOk, NextPc, Noted, Exclusive;
  }

  lemma NotedOpen(log: seq<Event>, pc: Pc, i: nat, j: nat)
    ensures Open(log + Noted(pc, i), j) <==>
      if i == j && Noted(pc, i) != [] then pc.Ready? || pc.Freeing? else Open(log, j)
  {
    if Noted(pc, i) != [] {
      OpenAppend(log, Noted(pc, i)[0], j);
    } else {
      assert log + Noted(pc, i) == log;
    }
    hide Open;
  }

  lemma GoesOpen(s: State, i: nat, ok: bool)
    requires OpenOk(s) && i < |s.threads|
    ensures OpenOk(Goes(s, i, ok))
  {
    var u := Goes(s, i, ok);
    forall j: nat ensures Open(u.log, j) <==> j < |u.threads| && (u.threads[j].Running? || u.threads[j].FreeRunning?) {
      NotedOpen(s.log, s.threads[i], i, j);
      hide Open, Unlocked, NoWriter;
    }
  }

  lemma SplitsWork(log: seq<Event>, e: Event)
    requires Splits(log, |log|, []) && Working(e)
    ensures Splits(log + [e], |log| + 1, [])
  {
  }

  lemma SplitsClosing(log: seq<Event>, m: nat, closing: seq<Event>, e: Event)
    requires Splits(log, m, closing)
    ensures Splits(log + [e], m, closing + [e]) && (log + [e])[..m] == log[..m]
  {
  }

  predicate DoesWork(pc: Pc) { (pc.Ready? || pc.Running?) && (pc.op == Export || pc.op == Flush) }

  lemma NothingClosing(s: State)
    requires Places(s) && !s.down
    ensures ShutdownPart(s) == [] && DestroyPart(s) == []
  {
    if s.dropper >= 0 { assert PlaceOk(s, s.dropper); }
  }

  /** The callback of an export or a flush starts or ends. */
  lemma WorkOrdered(s: State, i: nat, ok: bool, m: nat)
    requires Inv(s, m) && i < |s.threads| && DoesWork(s.threads[i]) && Places(Goes(s, i, ok))
    ensures Ordered(Goes(s, i, ok), m + 1)
  {
    var u := Goes(s, i, ok);
    assert PlaceOk(s, i);
    assert !s.down && !u.down;
    NothingClosing(s);
    NothingClosing(u);
    assert m == |s.log|;
    assert [] + [] == ShutdownPart(s) + DestroyPart(s) == [];
    SplitsWork(s.log, Noted(s.threads[i], i)[0]);
    hide Places, ShutdownPart, DestroyPart, Splits;
  }

  /** The flag is set: nothing is running. */
  lemma SetOrdered(s: State, i: nat, ok: bool, m: nat)
    requires Inv(s, m) && i < |s.threads| && s.threads[i] == Entered(Shutdown) && !s.down && Places(Goes(s, i, ok))
    ensures Ordered(Goes(s, i, ok), m)
  {
    var u := Goes(s, i, ok);
    NothingClosing(s);
    assert ShutdownPart(s) + DestroyPart(s) == [];
    assert u.log == s.log && m == |s.log| && s.log[..m] == s.log;
    assert u.threads == s.threads[i := if s.given.shutdown then Ready(Shutdown) else Left(Shutdown)];
    SameDestroy(s, u, i);
    assert ShutdownPart(u) == [];
    forall j: nat ensures !Open(s.log, j) {
      if j < |s.threads| {
        assert PlaceOk(s, j);
      }
    }
  }

  lemma SameDestroy(s: State, u: State, i: nat)
    requires i < |s.threads| == |u.threads| && s.dropper == u.dropper < |s.threads| && s.given == u.given
    requires u.threads == s.threads[i := u.threads[i]] && !Dropped(s.threads[i])
    requires !u.threads[i].FreeRunning? && !u.threads[i].Gone?
    ensures DestroyPart(u) == DestroyPart(s)
  {
  }

  /** The shutdown callback starts or ends. */
  lemma ShutdownOrdered(s: State, i: nat, ok: bool, m: nat)
    requires Inv(s, m) && i < |s.threads| && (s.threads[i] == Ready(Shutdown) || s.threads[i] == Running(Shutdown))
    requires Places(Goes(s, i, ok))
    ensures Ordered(Goes(s, i, ok), m)
  {
    var u, e := Goes(s, i, ok), Noted(s.threads[i], i)[0];
    assert PlaceOk(s, i);
    SameDestroy(s, u, i);
    assert DestroyPart(s) == [] by { if s.dropper >= 0 { assert PlaceOk(s, s.dropper); } }
    assert ShutdownPart(u) == ShutdownPart(s) + [e];
    assert ShutdownPart(u) + DestroyPart(u) == ShutdownPart(s) + DestroyPart(s) + [e];
    SplitsClosing(s.log, m, ShutdownPart(s) + DestroyPart(s), e);
    hide Places, ShutdownPart, DestroyPart, Splits, Open;
  }

  /** The destroy callback starts or ends. */
  lemma DestroyOrdered(s: State, i: nat, ok: bool, m: nat)
    requires Inv(s, m) && i < |s.threads| && (s.threads[i].Freeing? || s.threads[i].FreeRunning?)
    requires Places(Goes(s, i, ok))
    ensures Ordered(Goes(s, i, ok), m)
  {
    var u, e := Goes(s, i, ok), Noted(s.threads[i], i)[0];
    assert PlaceOk(s, i);
    assert ShutdownPart(u) == ShutdownPart(s);
    assert DestroyPart(u) == DestroyPart(s) + [e];
    assert ShutdownPart(u) + DestroyPart(u) == ShutdownPart(s) + DestroyPart(s) + [e];
    SplitsClosing(s.log, m, ShutdownPart(s) + DestroyPart(s), e);
    hide Places, ShutdownPart, DestroyPart, Splits, Open;
  }

  predicate Silent(s: State, pc: Pc) {
    !pc.Ready? && !pc.Running? && !pc.Freeing? && !pc.FreeRunning? && !(pc == Entered(Shutdown) && !s.down)
  }

  lemma SilentNext(s: State, pc: Pc, i: nat, ok: bool)
    requires Silent(s, pc)
    ensures var next := NextPc(s, pc, ok);
      && Noted(pc, i) == [] && next != Ready(Shutdown) && !next.Running? && !next.FreeRunning?
      && (next.Gone? ==> pc.Gone? || !s.given.destroy)
  {
    hide Unlocked, NoWriter;
  }

  lemma SilentOrdered(s: State, i: nat, ok: bool, m: nat)
    requires Inv(s, m) && i < |s.threads| && Silent(s, s.threads[i]) && Places(Goes(s, i, ok))
    ensures Ordered(Goes(s, i, ok), m)
  {
    var u, pc := Goes(s, i, ok), s.threads[i];
    SilentNext(s, pc, i, ok);
    assert u.log == s.log && u.down == s.down && (s.down ==> u.downBy == s.downBy);
    assert PlaceOk(s, i);
    hide NextPc, Places, Splits, Open;
    assert ShutdownPart(u) == ShutdownPart(s);
    assert DestroyPart(u) == DestroyPart(s);
  }

  lemma GoesInv(s: State, i: nat, ok: bool, m: nat)
    requires Inv(s, m) && i < |s.threads|
    ensures Inv(Goes(s, i, ok), if DoesWork(s.threads[i]) then m + 1 else m)
  {
    var pc := s.threads[i];
    assert PlaceOk(s, i);
    GoesExclusive(s, i, ok);
    GoesPlaces(s, i, ok);
    GoesOpen(s, i, ok);
    if DoesWork(pc) {
      WorkOrdered(s, i, ok, m);
    } else if pc == Entered(Shutdown) && !s.down {
      SetOrdered(s, i, ok, m);
    } else if pc == Ready(Shutdown) || pc == Running(Shutdown) {
      ShutdownOrdered(s, i, ok, m);
    } else if pc.Freeing? || pc.FreeRunning? {
      DestroyOrdered(s, i, ok, m);
    } else {
      SilentOrdered(s, i, ok, m);
    }
    hide Goes, Exclusive, Places, OpenOk, Ordered;
  }

  /** Taking up an operation, or the drop. */
  lemma WaitingInv(s: State, u: State, i: nat, m: nat)
    requires Inv(s, m) && i < |s.threads| == |u.threads|
    requires s.threads[i].Idle? && u.threads[i].Waiting? && u.threads[i].op != Destroy
    requires u == s.(threads := s.threads[i := u.threads[i]], dropper := u.dropper)
    requires if u.dropper >= 0 then u.dropper == i && u.threads[i].op == Shutdown && AllIdle(s) && s.dropper < 0
             else s.dropper < 0
    ensures Inv(u, m)
  {
    assert PlaceOk(s, i);
    assert Places(u) by {
      forall j | 0 <= j < |u.threads| ensures PlaceOk(u, j) {
        assert PlaceOk(s, j);
      }
    }
    assert Exclusive(u);
    hide Exclusive, PlaceOk, Splits, Open;
    assert ShutdownPart(u) == ShutdownPart(s) && DestroyPart(u) == DestroyPart(s);
  }

  lemma StepInv(s: State, t: Turn, m: nat) returns (k: nat)
    requires Inv(s, m)
    ensures Inv(Step(s, t), k)
  {
    k := m;
    var u := Step(s, t);
    if t.thread < |s.threads| {
      match t.action {
        case Begin(op) => if u != s { hide Inv, AllIdle; WaitingInv(s, u, t.thread, m); }
        case Drop => if u != s { hide Inv; WaitingInv(s, u, t.thread, m); }
        case Go(ok) =>
          hide Inv, Goes;
          GoesInv(s, t.thread, ok, m);
          k := if DoesWork(s.threads[t.thread]) then m + 1 else m;
      }
    }
  }

  lemma StartInv(given: Callbacks, n: nat)
    ensures Inv(Start(given, n), 0)
  {
  }

  lemma {:induction false} RunsInv(given: Callbacks, n: nat, run: seq<Turn>) returns (m: nat)
    ensures Inv(After(given, n, run), m)
  {
    hide Inv, Step, Start;
    if run == [] {
      StartInv(given, n);
      m := 0;
    } else {
      var before := RunsInv(given, n, run[..|run| - 1]);
      m := StepInv(After(given, n, run[..|run| - 1]), run[|run| - 1], before);
    }
  }

  // ----- what every run shows -----

  function Count(log: seq<Event>, op: Op): nat {
    if log == [] then 0
    else Count(log[..|log| - 1], op) + if log[|log| - 1].Started? && log[|log| - 1].op == op then 1 else 0
  }

  function One(b: bool): nat { if b then 1 else 0 }

  function Whole(op: Op, i: nat): seq<Event> { [Started(op, i), Ended(op, i)] }

  /** Before the destroy callback the shutdown callback is through. */
  lemma ClosingShape(s: State)
    requires Places(s)
    ensures DestroyPart(s) == [] ||
      (s.down && ShutdownPart(s) == if s.given.shutdown then Whole(Shutdown, s.downBy) else [])
    ensures ShutdownPart(s) <= Whole(Shutdown, s.downBy)
    ensures s.dropper >= 0 ==> DestroyPart(s) <= Whole(Destroy, s.dropper)
  {
    if s.dropper >= 0 && DestroyPart(s) != [] {
      assert PlaceOk(s, s.dropper);
      assert PlaceOk(s, s.downBy);
    }
  }

  /** The log of a reachable state: exports and flushes, then the two parts. */
  lemma LogShape(given: Callbacks, n: nat, run: seq<Turn>) returns (m: nat)
    ensures var s := After(given, n, run);
      && Places(s) && m <= |s.log| && s.log[m..] == ShutdownPart(s) + DestroyPart(s)
      && (forall k :: 0 <= k < m ==> Working(s.log[k]))
      && (m < |s.log| ==> forall i: nat :: !Open(s.log[..m], i))
  {
    m := RunsInv(given, n, run);
    var s := After(given, n, run);
    hide After, Exclusive, Open, OpenOk;
    if !s.down { NothingClosing(s); }
  }

  lemma GoesAfterDown(s: State, i: nat, ok: bool)
    requires i < |s.threads| && PlaceOk(s, i) && s.down
    ensures Goes(s, i, ok).down
    ensures forall e :: e in Noted(s.threads[i], i) ==> !Working(e)
  {
    hide NextPc;
  }

  lemma StepAfterDown(s: State, t: Turn)
    requires Places(s) && s.down
    ensures Step(s, t).down && s.log <= Step(s, t).log
    ensures forall l :: |s.log| <= l < |Step(s, t).log| ==> !Working(Step(s, t).log[l])
  {
    hide AllIdle, NextPc, PlaceOk, Noted;
    if t.thread < |s.threads| && t.action.Go? {
      GoesAfterDown(s, t.thread, t.action.ok);
    }
  }

  /** Once the flag is set no export or flush callback starts or ends, whether or not there
      is a shutdown callback. */
  lemma {:induction false} NothingAfterDown(given: Callbacks, n: nat, run: seq<Turn>, more: seq<Turn>)
    requires After(given, n, run).down
    ensures var before, after := After(given, n, run), After(given, n, run + more);
      && after.down && before.log <= after.log
      && forall l :: |before.log| <= l < |after.log| ==> !Working(after.log[l])
  {
    hide Step, Working;
    if more == [] {
      assert run + more == run;
    } else {
      var k := |more| - 1;
      NothingAfterDown(given, n, run, more[..k]);
      assert (run + more)[..|run| + k] == run + more[..k];
      var s := After(given, n, run + more[..k]);
      var m := RunsInv(given, n, run + more[..k]);
      hide Inv;
      StepAfterDown(s, more[k]);
    }
  }

  lemma ClosedAfterWhole(log: seq<Event>, op: Op, c: nat)
    requires forall i: nat :: !Open(log, i)
    ensures forall i: nat :: !Open(log + Whole(op, c), i)
  {
    forall i: nat ensures !Open(log + Whole(op, c), i) {
      OpenAppend(log, Started(op, c), i);
      OpenAppend(log + [Started(op, c)], Ended(op, c), i);
      assert log + Whole(op, c) == log + [Started(op, c)] + [Ended(op, c)];
    }
  }

  /** When the shutdown callback starts, no export or flush callback is running; none starts
      until it ends, or ever after; and it is not started again. */
  lemma ShutdownAlone(given: Callbacks, n: nat, run: seq<Turn>, k: nat)
    requires var log := After(given, n, run).log; k < |log| && log[k].Started? && log[k].op == Shutdown
    ensures var log := After(given, n, run).log;
      && (forall i: nat :: !Open(log[..k], i))
      && (k + 1 < |log| ==> log[k + 1] == Ended(Shutdown, log[k].thread))
      && forall l :: k < l < |log| ==> !Working(log[l]) && (log[l].Started? ==> log[l].op == Destroy)
  {
    var m := LogShape(given, n, run);
    var s := After(given, n, run);
    hide After, Open;
    ClosingShape(s);
    hide Places, ShutdownPart, DestroyPart;
    assert k >= m;
    assert forall l :: m <= l < |s.log| ==> s.log[l] == (ShutdownPart(s) + DestroyPart(s))[l - m];
    assert k == m;
  }

  /** The destroy callback starts when nothing is running and is the last there is. */
  lemma DestroyLast(given: Callbacks, n: nat, run: seq<Turn>, k: nat)
    requires var log := After(given, n, run).log; k < |log| && log[k].Started? && log[k].op == Destroy
    ensures var log := After(given, n, run).log;
      && (forall i: nat :: !Open(log[..k], i))
      && (k + 1 < |log| ==> k + 2 == |log| && log[k + 1] == Ended(Destroy, log[k].thread))
  {
    var m := LogShape(given, n, run);
    var s := After(given, n, run);
    hide After, Open;
    ClosingShape(s);
    DestroyNeedsDropper(s);
    hide Places, ShutdownPart, DestroyPart;
    assert k >= m;
    assert forall l :: m <= l < |s.log| ==> s.log[l] == (ShutdownPart(s) + DestroyPart(s))[l - m];
    var c := |ShutdownPart(s)|;
    assert k == m + c;
    assert s.log[..k] == s.log[..m] + ShutdownPart(s);
    if c != 0 {
      ClosedAfterWhole(s.log[..m], Shutdown, s.downBy);
    } else {
      assert s.log[..k] == s.log[..m];
    }
  }

  lemma DestroyNeedsDropper(s: State)
    requires s.dropper < |s.threads|
    ensures DestroyPart(s) != [] ==> s.dropper >= 0
  {
  }

  lemma {:induction false} CountAppend(a: seq<Event>, b: seq<Event>, op: Op)
    ensures Count(a + b, op) == Count(a, op) + Count(b, op)
  {
    if b == [] {
      assert a + b == a;
    } else {
      CountAppend(a, b[..|b| - 1], op);
      assert (a + b)[..|a + b| - 1] == a + b[..|b| - 1];
    }
  }

  lemma {:induction false} CountWork(log: seq<Event>, op: Op)
    requires (forall k :: 0 <= k < |log| ==> Working(log[k])) && (op == Shutdown || op == Destroy)
    ensures Count(log, op) == 0
  {
    if log != [] { CountWork(log[..|log| - 1], op); }
  }

  lemma CountPart(part: seq<Event>, op: Op, i: nat, other: Op)
    requires part <= Whole(op, i)
    ensures Count(part, other) == One(other == op && part != [])
  {
    if |part| == 2 {
      assert part[..1] == [Started(op, i)] && part[..1][..0] == [];
    } else if |part| == 1 {
      assert part == [Started(op, i)] && part[..0] == [];
    }
  }

  lemma CountParts(work: seq<Event>, a: seq<Event>, b: seq<Event>, c: nat, d: nat)
    requires forall k :: 0 <= k < |work| ==> Working(work[k])
    requires a <= Whole(Shutdown, c) && b <= Whole(Destroy, d)
    ensures Count(work + (a + b), Shutdown) == One(a != []) && Count(work + (a + b), Destroy) == One(b != [])
  {
    hide Count, Whole, Working;
    forall op | op == Shutdown || op == Destroy ensures Count(work + (a + b), op) == Count(a, op) + Count(b, op) {
      CountAppend(work, a + b, op);
      CountAppend(a, b, op);
      CountWork(work, op);
    }
    CountPart(a, Shutdown, c, Shutdown);
    CountPart(a, Shutdown, c, Destroy);
    CountPart(b, Destroy, d, Shutdown);
    CountPart(b, Destroy, d, Destroy);
  }

  lemma CountLog(given: Callbacks, n: nat, run: seq<Turn>)
    ensures var s := After(given, n, run);
      && Places(s)
      && Count(s.log, Shutdown) == One(ShutdownPart(s) != []) && Count(s.log, Destroy) == One(DestroyPart(s) != [])
  {
    var m := LogShape(given, n, run);
    var s := After(given, n, run);
    ClosingShape(s);
    DestroyNeedsDropper(s);
    hide *;
    var d: nat := if s.dropper >= 0 then s.dropper else 0;
    assert [] <= Whole(Destroy, d);
    CountParts(s.log[..m], ShutdownPart(s), DestroyPart(s), s.downBy, d);
    assert s.log == s.log[..m] + s.log[m..];
  }

  /** Neither callback is ever started twice; when the exporter is gone each that was given
      has run exactly once. */
  lemma ClosingOnce(given: Callbacks, n: nat, run: seq<Turn>)
    ensures var s := After(given, n, run);
      && Count(s.log, Shutdown) <= One(given.shutdown) && Count(s.log, Destroy) <= One(given.destroy)
      && (Gone in s.threads ==>
           Count(s.log, Shutdown) == One(given.shutdown) && Count(s.log, Destroy) == One(given.destroy))
  {
    CountLog(given, n, run);
    GivenStays(given, n, run);
    var s := After(given, n, run);
    hide After, Count;
    if Gone in s.threads {
      var i :| 0 <= i < |s.threads| && s.threads[i] == Gone;
      assert PlaceOk(s, i) && PlaceOk(s, s.downBy);
    }
  }

  lemma {:induction false} GivenStays(given: Callbacks, n: nat, run: seq<Turn>)
    ensures After(given, n, run).given == given
  {
    if run != [] {
      GivenStays(given, n, run[..|run| - 1]);
      hide After, NextPc, Noted, AllIdle;
    }
  }

  // ----- no call that is due is lost -----

  /** The turn at which a thread under the lock finds the flag clear, with something to call:
      a batch that converts, or an optional callback that was given. */
  predicate Due(s: State, t: Turn, op: Op, i: nat) {
    && t.thread == i && i < |s.threads| && s.threads[i] == Entered(op) && t.action.Go? && !s.down
    && (op == Export ==> t.action.ok)
    && (op == Flush ==> s.given.flush)
    && (op == Shutdown ==> s.given.shutdown)
  }

  function TimesDue(given: Callbacks, n: nat, run: seq<Turn>, op: Op, i: nat): nat {
    if run == [] then 0
    else
      var before, t := run[..|run| - 1], run[|run| - 1];
      TimesDue(given, n, before, op, i) + if Due(After(given, n, before), t, op, i) then 1 else 0
  }

  function Occurrences(log: seq<Event>, e: Event): nat {
    if log == [] then 0 else Occurrences(log[..|log| - 1], e) + if log[|log| - 1] == e then 1 else 0
  }

  lemma OccurrencesGrow(log: seq<Event>, noted: seq<Event>, e: Event)
    requires |noted| <= 1
    ensures Occurrences(log + noted, e) == Occurrences(log, e) + One(noted == [e])
  {
    if noted == [] {
      assert log + noted == log;
    } else {
      assert (log + noted)[..|log|] == log && noted == [noted[0]];
    }
  }

  predicate ToStart(s: State, op: Op, i: nat) { i < |s.threads| && s.threads[i] == Ready(op) }

  predicate ToEnd(s: State, op: Op, i: nat) {
    i < |s.threads| && (s.threads[i] == Ready(op) || s.threads[i] == Running(op))
  }

  lemma GoesCalls(s: State, k: nat, ok: bool, op: Op, i: nat)
    requires k < |s.threads| && op != Destroy
    ensures var u, due := Goes(s, k, ok), Due(s, Turn(k, Go(ok)), op, i);
      && Occurrences(u.log, Started(op, i)) + One(ToStart(u, op, i)) ==
        Occurrences(s.log, Started(op, i)) + One(ToStart(s, op, i)) + One(due)
      && Occurrences(u.log, Ended(op, i)) + One(ToEnd(u, op, i)) ==
        Occurrences(s.log, Ended(op, i)) + One(ToEnd(s, op, i)) + One(due)
  {
    var pc, noted := s.threads[k], Noted(s.threads[k], k);
    NextPlace(s, pc, ok, op);
    NotedAt(pc, k, op, i);
    OccurrencesGrow(s.log, noted, Started(op, i));
    OccurrencesGrow(s.log, noted, Ended(op, i));
    hide Occurrences, NextPc, Noted;
    assert Goes(s, k, ok).threads == s.threads[k := NextPc(s, pc, ok)] && Goes(s, k, ok).log == s.log + noted;
  }

  lemma NextPlace(s: State, pc: Pc, ok: bool, op: Op)
    ensures NextPc(s, pc, ok) == Ready(op) <==> pc == Entered(op) && !s.down && Calls(s.given, op, ok)
    ensures NextPc(s, pc, ok) == Running(op) <==> pc == Ready(op)
  {
    hide Unlocked, NoWriter, Calls;
  }

  lemma NotedAt(pc: Pc, k: nat, op: Op, i: nat)
    requires op != Destroy
    ensures |Noted(pc, k)| <= 1
    ensures Noted(pc, k) == [Started(op, i)] <==> k == i && pc == Ready(op)
    ensures Noted(pc, k) == [Ended(op, i)] <==> k == i && pc == Running(op)
  {
  }

  lemma StepCalls(s: State, t: Turn, op: Op, i: nat)
    requires op != Destroy
    ensures var u := Step(s, t);
      && Occurrences(u.log, Started(op, i)) + One(ToStart(u, op, i)) ==
        Occurrences(s.log, Started(op, i)) + One(ToStart(s, op, i)) + One(Due(s, t, op, i))
      && Occurrences(u.log, Ended(op, i)) + One(ToEnd(u, op, i)) ==
        Occurrences(s.log, Ended(op, i)) + One(ToEnd(s, op, i)) + One(Due(s, t, op, i))
  {
    if t.thread < |s.threads| && t.action.Go? { GoesCalls(s, t.thread, t.action.ok, op, i); }
    hide Goes, Occurrences;
  }

  /** Every export, flush and shutdown callback of a thread that is due is started once and
      ended once before the thread returns, and no other is. */
  lemma {:induction false} EveryDueCalls(given: Callbacks, n: nat, run: seq<Turn>, op: Op, i: nat)
    requires op != Destroy
    ensures var s := After(given, n, run);
      && Occurrences(s.log, Started(op, i)) + One(ToStart(s, op, i)) == TimesDue(given, n, run, op, i)
      && Occurrences(s.log, Ended(op, i)) + One(ToEnd(s, op, i)) == TimesDue(given, n, run, op, i)
  {
    hide Step, Occurrences, ToStart, ToEnd, Due;
    if run == [] {
      NothingCalled(given, n, op, i);
    } else {
      var before := run[..|run| - 1];
      EveryDueCalls(given, n, before, op, i);
      StepCalls(After(given, n, before), run[|run| - 1], op, i);
    }
  }

  lemma NothingCalled(given: Callbacks, n: nat, op: Op, i: nat)
    ensures var s := Start(given, n);
      && Occurrences(s.log, Started(op, i)) == Occurrences(s.log, Ended(op, i)) == 0
      && !ToStart(s, op, i) && !ToEnd(s, op, i)
  {
  }

  // ----- no deadlock -----

  /** Exports and flushes share the lock: one waits only while a shutdown holds it. */
  lemma ReadersShare(s: State, i: nat, op: Op, ok: bool)
    requires i < |s.threads| && s.threads[i] == Waiting(op) && op != Shutdown
    ensures Step(s, Turn(i, Go(ok))).threads[i] == Entered(op) <==>
      forall j :: 0 <= j < |s.threads| && InLock(s.threads[j]) ==> s.threads[j].op != Shutdown
  {
  }

  /** Unless every thread is at rest or gone, some thread that is not can go on. */
  lemma NeverStuck(s: State, i: nat, ok: bool)
    requires i < |s.threads| && !s.threads[i].Idle? && !s.threads[i].Gone?
    ensures exists j: nat ::
      j < |s.threads| && !s.threads[j].Idle? && Step(s, Turn(j, Go(ok))).threads[j] != s.threads[j]
  {
    if j: nat :| j < |s.threads| && InLock(s.threads[j]) {
      GoesOn(s, j, ok);
    } else {
      GoesOn(s, i, ok);
    }
  }

  lemma GoesOn(s: State, j: nat, ok: bool)
    requires j < |s.threads| && !s.threads[j].Idle? && !s.threads[j].Gone?
    requires InLock(s.threads[j]) || forall k :: 0 <= k < |s.threads| ==> !InLock(s.threads[k])
    ensures Step(s, Turn(j, Go(ok))).threads[j] != s.threads[j]
  {
    hide Calls;
  }

  // ----- the code, one call at a time -----

  function Advance(s: State, i: nat, ok: bool, steps: nat): State
    decreases steps
  {
    if steps == 0 then s else Advance(Step(s, Turn(i, Go(ok))), i, ok, steps - 1)
  }

  /** A whole call that no other thread interrupts; an idle thread that goes on stays idle. */
  function WholeCall(s: State, i: nat, op: Op, ok: bool): State {
    Advance(Step(s, Turn(i, Begin(op))), i, ok, 5)
  }

  function WholeDrop(s: State, i: nat): State {
    Advance(Step(s, Turn(i, Drop)), i, true, 7)
  }

  /** The turns of a call, taken together: what the flag and the log are afterwards. */
  function Called(s: State, i: nat, op: Op, ok: bool): State {
    var log := if !s.down && Calls(s.given, op, ok) then s.log + Whole(op, i) else s.log;
    var downBy := if op == Shutdown && !s.down then i else s.downBy;
    State(s.given, s.down || op == Shutdown, downBy, s.dropper, log, s.threads)
  }

  lemma AdvanceOne(s: State, i: nat, ok: bool, pc: Pc, steps: nat)
    requires i < |s.threads| && s.threads[i] == pc && steps > 0
    ensures Advance(s, i, ok, steps) == Advance(Goes(s, i, ok), i, ok, steps - 1)
  {
  }

  lemma AloneEnters(s: State, i: nat, op: Op, ok: bool)
    requires AllIdle(s) && i < |s.threads|
    ensures Goes(s.(threads := s.threads[i := Waiting(op)]), i, ok) == s.(threads := s.threads[i := Entered(op)])
  {
    var w := s.(threads := s.threads[i := Waiting(op)]);
    assert Unlocked(w) && NoWriter(w);
    assert w.log + [] == w.log;
    assert w.threads[i := Entered(op)] == s.threads[i := Entered(op)];
  }

  /** A place between the entry into the lock and the return. */
  function Inside(s: State, i: nat, op: Op, log: seq<Event>, pc: Pc): State
    requires i < |s.threads|
  {
    var downBy := if op == Shutdown && !s.down then i else s.downBy;
    State(s.given, s.down || op == Shutdown, downBy, s.dropper, log, s.threads[i := pc])
  }

  lemma GoesInside(s: State, i: nat, op: Op, ok: bool)
    requires i < |s.threads| && op != Destroy
    ensures var calls := !s.down && Calls(s.given, op, ok);
      Goes(s.(threads := s.threads[i := Entered(op)]), i, ok) ==
        Inside(s, i, op, s.log, if calls then Ready(op) else Left(op))
    ensures Goes(Inside(s, i, op, s.log, Ready(op)), i, ok) == Inside(s, i, op, s.log + [Started(op, i)], Running(op))
  {
    hide Calls;
  }

  lemma GoesReturning(s: State, i: nat, op: Op, ok: bool)
    requires i < |s.threads| && op != Destroy
    ensures Goes(Inside(s, i, op, s.log + [Started(op, i)], Running(op)), i, ok) ==
      Inside(s, i, op, s.log + Whole(op, i), Left(op))
  {
    assert s.log + [Started(op, i)] + [Ended(op, i)] == s.log + Whole(op, i);
  }

  lemma GoesOut(s: State, i: nat, op: Op, ok: bool, log: seq<Event>)
    requires i < |s.threads| && s.threads[i].Idle? && s.dropper < 0
    ensures var d := Inside(s, i, op, log, Idle);
      Goes(Inside(s, i, op, log, Left(op)), i, ok) == d && Goes(d, i, ok) == d && d.threads == s.threads
  {
  }

  lemma AloneCall(s: State, i: nat, op: Op, ok: bool)
    requires AllIdle(s) && i < |s.threads| && s.dropper < 0 && op != Destroy
    ensures WholeCall(s, i, op, ok) == Called(s, i, op, ok)
  {
    var w, e := s.(threads := s.threads[i := Waiting(op)]), s.(threads := s.threads[i := Entered(op)]);
    assert Step(s, Turn(i, Begin(op))) == w;
    AloneEnters(s, i, op, ok);
    GoesInside(s, i, op, ok);
    GoesReturning(s, i, op, ok);
    GoesOut(s, i, op, ok, s.log);
    GoesOut(s, i, op, ok, s.log + Whole(op, i));
    hide Goes, Step, Calls, Whole, Advance;
    AdvanceOne(w, i, ok, Waiting(op), 5);
    AdvanceOne(e, i, ok, Entered(op), 4);
    if !s.down && Calls(s.given, op, ok) {
      AdvanceOne(Inside(s, i, op, s.log, Ready(op)), i, ok, Ready(op), 3);
      AdvanceOne(Inside(s, i, op, s.log + [Started(op, i)], Running(op)), i, ok, Running(op), 2);
      AdvanceOne(Inside(s, i, op, s.log + Whole(op, i), Left(op)), i, ok, Left(op), 1);
      AdvanceNone(Inside(s, i, op, s.log + Whole(op, i), Idle), i, ok);
    } else {
      AdvanceOne(Inside(s, i, op, s.log, Left(op)), i, ok, Left(op), 3);
      AdvanceOne(Inside(s, i, op, s.log, Idle), i, ok, Idle, 2);
      AdvanceOne(Inside(s, i, op, s.log, Idle), i, ok, Idle, 1);
      AdvanceNone(Inside(s, i, op, s.log, Idle), i, ok);
    }
  }

  lemma AdvanceNone(s: State, i: nat, ok: bool)
    ensures Advance(s, i, ok, 0) == s
  {
  }

  /** The drop of an exporter nobody uses: the shutdown callback unless it has run, then the
      destroy callback. */
  function ClosingLog(s: State, i: nat): seq<Event> {
    (if !s.down && s.given.shutdown then Whole(Shutdown, i) else []) +
    (if s.given.destroy then Whole(Destroy, i) else [])
  }

  lemma {:induction false} AdvanceAdd(s: State, i: nat, ok: bool, a: nat, b: nat)
    ensures Advance(s, i, ok, a + b) == Advance(Advance(s, i, ok, a), i, ok, b)
    decreases a
  {
    hide Step;
    if a > 0 { AdvanceAdd(Step(s, Turn(i, Go(ok))), i, ok, a - 1, b); }
  }

  lemma ToLeft(d: State, i: nat)
    requires i < |d.threads| && d.dropper == i
    ensures var shut := if !d.down && d.given.shutdown then Whole(Shutdown, i) else [];
      var steps := if !d.down && d.given.shutdown then 3 else 1;
      Advance(d.(threads := d.threads[i := Entered(Shutdown)]), i, true, steps) ==
        State(d.given, true, if !d.down then i else d.downBy, i, d.log + shut, d.threads[i := Left(Shutdown)])
  {
    var e := d.(threads := d.threads[i := Entered(Shutdown)]);
    if !d.down && d.given.shutdown {
      var a := State(d.given, true, i, i, d.log, d.threads[i := Ready(Shutdown)]);
      var b := State(d.given, true, i, i, d.log + [Started(Shutdown, i)], d.threads[i := Running(Shutdown)]);
      var c := State(d.given, true, i, i, d.log + Whole(Shutdown, i), d.threads[i := Left(Shutdown)]);
      assert Goes(e, i, true) == a;
      assert Goes(a, i, true) == b;
      assert b.log + [Ended(Shutdown, i)] == c.log;
      assert Goes(b, i, true) == c;
      hide Goes;
      AdvanceOne(e, i, true, Entered(Shutdown), 3);
      AdvanceOne(a, i, true, Ready(Shutdown), 2);
      AdvanceOne(b, i, true, Running(Shutdown), 1);
    } else {
      AdvanceOne(e, i, true, Entered(Shutdown), 1);
    }
  }

  /** From the end of the shutdown to the end of the destroy callback, if any. */
  lemma FromLeft(l: State, i: nat)
    requires i < |l.threads| && l.dropper == i && l.threads[i] == Left(Shutdown)
    ensures Advance(l, i, true, 3) ==
      l.(log := l.log + (if l.given.destroy then Whole(Destroy, i) else []), threads := l.threads[i := Gone])
  {
    var a := l.(threads := l.threads[i := if l.given.destroy then Freeing else Gone]);
    assert Goes(l, i, true) == a;
    AdvanceOne(l, i, true, Left(Shutdown), 3);
    if l.given.destroy {
      var b := l.(log := l.log + [Started(Destroy, i)], threads := l.threads[i := FreeRunning]);
      var c := l.(log := l.log + Whole(Destroy, i), threads := l.threads[i := Gone]);
      assert Goes(a, i, true) == b;
      assert b.log + [Ended(Destroy, i)] == c.log;
      assert Goes(b, i, true) == c;
      hide Goes;
      AdvanceOne(a, i, true, Freeing, 2);
      AdvanceOne(b, i, true, FreeRunning, 1);
    } else {
      assert Goes(a, i, true) == a;
      hide Goes;
      AdvanceOne(a, i, true, Gone, 2);
      AdvanceOne(a, i, true, Gone, 1);
    }
  }

  lemma {:induction false} StayGone(s: State, i: nat, steps: nat)
    requires i < |s.threads| && s.threads[i] == Gone
    ensures Advance(s, i, true, steps) == s
  {
    if steps > 0 {
      assert Goes(s, i, true) == s;
      StayGone(s, i, steps - 1);
    }
  }

  /** Gone is where it ends. */
  lemma {:induction false} AdvanceMore(l: State, i: nat, a: nat, b: nat)
    requires a <= b && i < |Advance(l, i, true, a).threads| && Advance(l, i, true, a).threads[i] == Gone
    ensures Advance(l, i, true, b) == Advance(l, i, true, a)
  {
    AdvanceAdd(l, i, true, a, b - a);
    StayGone(Advance(l, i, true, a), i, b - a);
  }

  lemma ClosingInOrder(s: State, i: nat)
    ensures s.log + ClosingLog(s, i) == s.log +
      (if !s.down && s.given.shutdown then Whole(Shutdown, i) else []) +
      (if s.given.destroy then Whole(Destroy, i) else [])
  {
  }

  /** What is left to do once the dropping thread has entered the lock. */
  lemma AloneCloses(d: State, i: nat)
    requires i < |d.threads| && d.dropper == i
    ensures Advance(d.(threads := d.threads[i := Entered(Shutdown)]), i, true, 6) ==
      State(d.given, true, if d.down then d.downBy else i, i, d.log + ClosingLog(d, i), d.threads[i := Gone])
  {
    var e := d.(threads := d.threads[i := Entered(Shutdown)]);
    var shut := if !d.down && d.given.shutdown then Whole(Shutdown, i) else [];
    var l := State(d.given, true, if d.down then d.downBy else i, i, d.log + shut, d.threads[i := Left(Shutdown)]);
    var steps := if !d.down && d.given.shutdown then 3 else 1;
    ToLeft(d, i);
    FromLeft(l, i);
    hide Goes, Step, Whole;
    AdvanceAdd(e, i, true, steps, 6 - steps);
    AdvanceMore(l, i, 3, 6 - steps);
    ClosingInOrder(d, i);
  }

  lemma AloneDrop(s: State, i: nat)
    requires AllIdle(s) && i < |s.threads| && s.dropper < 0
    ensures WholeDrop(s, i) ==
      State(s.given, true, if s.down then s.downBy else i, i, s.log + ClosingLog(s, i), s.threads[i := Gone])
  {
    var d := s.(dropper := i);
    var w := d.(threads := s.threads[i := Waiting(Shutdown)]);
    assert Step(s, Turn(i, Drop)) == w;
    AloneEnters(d, i, Shutdown, true);
    hide Goes, Step, Whole;
    AdvanceOne(w, i, true, Waiting(Shutdown), 7);
    AloneCloses(d, i);
  }

  /** Threads between calls: idle, but for one that has dropped the exporter. */
  function Crew(users: nat, dropper: int): seq<Pc> {
    seq(users, k => if k == dropper then Gone else Idle)
  }

  lemma CrewIdle(users: nat)
    ensures Crew(users, -1) == seq(users, _ => Idle)
  {
  }

  lemma CrewDrops(users: nat, dropper: int, i: nat)
    requires dropper < 0 && i < users
    ensures Crew(users, i) == Crew(users, dropper)[i := Gone]
  {
  }

  datatype Answer = Returned | NotConverted | AlreadyShutdown

  /** The exporter as its callers see it, with the thread that calls as a parameter. Between
      calls all threads are idle. */
  class CustomExporter {
    const given: Callbacks
    var down: bool
    var log: seq<Event>
    ghost var downBy: nat
    ghost var dropper: int
    ghost var users: nat

    ghost function Value(): State
      reads this
    {
      State(given, down, downBy, dropper, log, Crew(users, dropper))
    }

    constructor (given: Callbacks, ghost users: nat)
      ensures Value() == Start(given, users) && this.given == given
    {
      this.given := given;
      this.down, this.log, this.downBy, this.dropper, this.users := false, [], 0, -1, users;
      new;
      CrewIdle(users);
    }

    method Call(op: Op, i: nat)
      modifies this`log
      ensures log == old(log) + [Started(op, i), Ended(op, i)]
    {
      log := log + [Started(op, i)];
      log := log + [Ended(op, i)];
    }

    /** `export`; `ok` tells whether the batch can be converted. */
    method Export(i: nat, ok: bool) returns (r: Answer)
      requires i < users && dropper < 0
      modifies this`log
      ensures Value() == WholeCall(old(Value()), i, Op.Export, ok)
      ensures r == if old(down) then AlreadyShutdown else if ok then Returned else NotConverted
      ensures log == old(log) + if !old(down) && ok then [Started(Op.Export, i), Ended(Op.Export, i)] else []
    {
      AloneCall(Value(), i, Op.Export, ok);
      hide WholeCall, Crew;
      if down {
        return AlreadyShutdown;
      }
      if !ok {
        return NotConverted;
      }
      Call(Op.Export, i);
      r := Returned;
    }

    method ForceFlush(i: nat) returns (r: Answer)
      requires i < users && dropper < 0
      modifies this`log
      ensures Value() == WholeCall(old(Value()), i, Flush, true)
      ensures r == if old(down) then AlreadyShutdown else Returned
      ensures log == old(log) + if !old(down) && given.flush then [Started(Flush, i), Ended(Flush, i)] else []
    {
      AloneCall(Value(), i, Flush, true);
      hide WholeCall, Crew;
      if down {
        return AlreadyShutdown;
      }
      if given.flush {
        Call(Flush, i);
      }
      r := Returned;
    }

    method ShutDown(i: nat) returns (r: Answer)
      requires i < users && dropper < 0
      modifies this`down, this`downBy, this`log
      ensures down && downBy == if old(down) then old(downBy) else i
      ensures Value() == WholeCall(old(Value()), i, Shutdown, true)
      ensures log == old(log) + if !old(down) && given.shutdown then [Started(Shutdown, i), Ended(Shutdown, i)] else []
      ensures r == if old(down) then AlreadyShutdown else Returned
    {
      AloneCall(Value(), i, Shutdown, true);
      hide WholeCall, Crew;
      if down {
        return AlreadyShutdown;
      }
      down := true;
      downBy := i;
      if given.shutdown {
        Call(Shutdown, i);
      }
      r := Returned;
    }

    /** `Drop` */
    method Release(i: nat)
      requires i < users && dropper < 0
      modifies this`down, this`downBy, this`log, this`dropper
      ensures Value() == WholeDrop(old(Value()), i)
      ensures down && dropper == i
      ensures log == old(log) +
        (if !old(down) && given.shutdown then [Started(Shutdown, i), Ended(Shutdown, i)] else []) +
        (if given.destroy then [Started(Destroy, i), Ended(Destroy, i)] else [])
    {
      AloneDrop(Value(), i);
      CrewDrops(users, dropper, i);
      ClosingInOrder(Value(), i);
      ghost var before := Value();
      hide WholeDrop, WholeCall, Crew, ClosingLog, Whole;
      var answer := ShutDown(i);
      if given.destroy {
        Call(Destroy, i);
      }
      assert log == before.log + ClosingLog(before, i);
      dropper := i;
    }
  }
}
