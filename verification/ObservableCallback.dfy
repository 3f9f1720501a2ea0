/** The user data of an observable instrument: any number of collecting threads in the
    trampoline, one thread that creates the instrument and destroys its handle.

    Every atomic access, lock operation and reference-count change is one step. */
module ObservableCallback {

  /** A thread in the trampoline, from `acquire_user_data` to the drop of what it acquired. */
  datatype Pc =
    | Outside
    | Loading       // about to load `enabled`
    | Wanting       // saw it set, about to lock
    | Locked        // holds the mutex, about to load `enabled` again
    | Sure          // holds the mutex, saw it still set
    | Cloned        // holds the mutex and a reference
    | Acquired      // holds a reference
    | Running       // in the user's callback
    | Returned      // about to drop its reference
    | Destroying    // dropped the last reference, about to take the destroy function

  /** The creating thread. `failed` tells the path of a failed creation from that of the
      destruction of a handle; `has` whether the data was there to be taken. */
  datatype Owner =
    | Creating
    | Live
    | Disabling(failed: bool)
    | OwnerWanting(failed: bool)
    | OwnerLocked(failed: bool)
    | Took(failed: bool, has: bool)          // mutex still held
    | Out(failed: bool, has: bool)
    | Relinquished(has: bool)                // took the destroy function away
    | OwnerDestroying(failed: bool)
    | Done(failed: bool)

  /** The caller's callback begins and ends on a thread; its destroy function runs. */
  datatype Event = Began(i: nat) | Finished(i: nat) | Destroyed

  datatype State = State(
    given: bool,        // the caller gave a destroy function
    enabled: bool,
    data: bool,         // the mutex holds a reference to the user data
    refs: nat,          // strong count of the user data
    destructor: bool,   // the user data still has its destroy function
    destroyed: nat,     // how often the destroy function has run
    log: seq<Event>,    // what the caller's functions were called for
    owner: Owner,
    threads: seq<Pc>)

  datatype Turn = Thread(i: nat) | Create(ok: bool) | Own

  predicate InMutex(pc: Pc) { pc.Locked? || pc.Sure? || pc.Cloned? }

  predicate OwnerInMutex(o: Owner) { o.OwnerLocked? || o.Took? }

  predicate MutexFree(s: State) {
    !OwnerInMutex(s.owner) && forall i :: 0 <= i < |s.threads| ==> !InMutex(s.threads[i])
  }

  predicate Holds(pc: Pc) { pc.Cloned? || pc.Acquired? || pc.Running? || pc.Returned? }

  predicate OwnerHolds(o: Owner) { (o.Took? && o.has) || (o.Out? && o.has) || (o.Relinquished? && o.has) }

  function One(b: bool): nat { if b then 1 else 0 }

  function Less(n: nat): nat { if n == 0 then 0 else n - 1 }

  /** Where a thread's next step takes it; staying means that it waits for the mutex. */
  function NextPc(s: State, pc: Pc): Pc {
    match pc
    case Outside => Loading
    case Loading => if s.enabled then Wanting else Outside
    case Wanting => if MutexFree(s) then Locked else Wanting
    case Locked => if s.enabled then Sure else Outside
    case Sure => if s.data then Cloned else Outside
    case Cloned => Acquired
    case Acquired => Running
    case Running => Returned
    case Returned => if s.refs == 1 then Destroying else Outside
    case Destroying => Outside
  }

  /** Cloning raises the count, dropping lowers it, destroying takes the function and runs it. */
  function Moved(s: State, i: nat, next: Pc): State
    requires i < |s.threads|
  {
    var pc := s.threads[i];
    var u := s.(threads := s.threads[i := next], log := s.log + Noted(pc, i, s.destructor));
    if next.Cloned? then u.(refs := s.refs + 1)
    else if pc.Returned? then u.(refs := Less(s.refs))
    else if pc.Destroying? then u.(destructor := false, destroyed := s.destroyed + One(s.destructor))
    else u
  }

  /** The caller's function that the step of a thread calls or sees return. */
  function Noted(pc: Pc, i: nat, destructor: bool): seq<Event> {
    match pc
    case Acquired => [Began(i)]
    case Running => [Finished(i)]
    case Destroying => if destructor then [Destroyed] else []
    case _ => []
  }

  function OwnerNoted(o: Owner, destructor: bool): seq<Event> {
    if o.OwnerDestroying? && destructor then [Destroyed] else []
  }

  function Trampoline(s: State, i: nat): State
    requires i < |s.threads|
  {
    Moved(s, i, NextPc(s, s.threads[i]))
  }

  function OwnerStep(s: State): State {
    match s.owner
    case Creating => s
    case Live => s.(owner := Disabling(false))
    case Disabling(f) => s.(enabled := false, owner := OwnerWanting(f))
    case OwnerWanting(f) => if MutexFree(s) then s.(owner := OwnerLocked(f)) else s
    case OwnerLocked(f) => s.(data := false, owner := Took(f, s.data))
    case Took(f, has) => s.(owner := Out(f, has))
    case Out(f, has) =>
      if f && has then s.(destructor := false, owner := Relinquished(has))
      else if f then s.(owner := Relinquished(has))
      else Dropped(s, f, has)
    case Relinquished(has) => Dropped(s, true, has)
    case OwnerDestroying(f) =>
      s.(destructor := false, destroyed := s.destroyed + One(s.destructor),
         log := s.log + OwnerNoted(s.owner, s.destructor), owner := Done(f))
    case Done(_) => s
  }

  function Dropped(s: State, f: bool, has: bool): State {
    if !has then s.(owner := Done(f))
    else if s.refs == 1 then s.(refs := 0, owner := OwnerDestroying(f))
    else s.(refs := Less(s.refs), owner := Done(f))
  }

  /** A turn that cannot be taken changes nothing. */
  function Step(s: State, t: Turn): State {
    match t
    case Thread(i) => if i < |s.threads| then Trampoline(s, i) else s
    case Create(ok) => if s.owner.Creating? then s.(owner := if ok then Live else Disabling(true)) else s
    case Own => OwnerStep(s)
  }

  function Start(given: bool, n: nat): State {
    State(given, true, true, 1, given, 0, [], Creating, seq(n, _ => Outside))
  }

  function After(given: bool, n: nat, run: seq<Turn>): State {
    if run == [] then Start(given, n) else Step(After(given, n, run[..|run| - 1]), run[|run| - 1])
  }

  // ----- counting references -----

  function Holding(pcs: seq<Pc>): nat {
    if pcs == [] then 0 else Holding(pcs[..|pcs| - 1]) + One(Holds(pcs[|pcs| - 1]))
  }

  lemma {:induction false} HoldingUpdate(pcs: seq<Pc>, i: nat, pc: Pc)
    requires i < |pcs|
    ensures Holding(pcs[i := pc]) + One(Holds(pcs[i])) == Holding(pcs) + One(Holds(pc))
    ensures Holding(pcs) >= One(Holds(pcs[i]))
  {
    var m := |pcs| - 1;
    if i < m {
      HoldingUpdate(pcs[..m], i, pc);
      assert pcs[i := pc][..m] == pcs[..m][i := pc];
    } else {
      assert pcs[i := pc][..m] == pcs[..m];
    }
  }

  /** The count is the number of references: the mutex's, the owner's, the threads'. */
  ghost predicate Counted(s: State) {
    s.refs == One(s.data) + One(OwnerHolds(s.owner)) + Holding(s.threads)
  }

  // ----- the mutex and the taking of the data -----

  ghost predicate Exclusive(s: State) {
    && (forall i, j :: 0 <= i < j < |s.threads| && InMutex(s.threads[i]) ==> !InMutex(s.threads[j]))
    && (OwnerInMutex(s.owner) ==> forall i :: 0 <= i < |s.threads| ==> !InMutex(s.threads[i]))
  }

  predicate Before(o: Owner) {
    o.Creating? || o.Live? || o.Disabling? || o.OwnerWanting? || o.OwnerLocked?
  }

  predicate Failing(o: Owner) {
    !o.Creating? && !o.Live? && (o.Relinquished? || o.failed)
  }

  /** The data is in the mutex until the owner takes it, which it does once. */
  ghost predicate Taking(s: State) {
    && (s.data <==> Before(s.owner))
    && (s.enabled <==> s.owner.Creating? || s.owner.Live? || s.owner.Disabling?)
    && ((s.owner.Took? || s.owner.Out? || s.owner.Relinquished?) ==> s.owner.has)
  }

  // ----- the destroy function -----

  predicate SomeoneDestroys(s: State) {
    s.owner.OwnerDestroying? || exists i :: 0 <= i < |s.threads| && s.threads[i].Destroying?
  }

  /** The destroy function is there until it is run or relinquished; it is run, or about to
      be, only when no reference is left. */
  ghost predicate Destruction(s: State) {
    && s.destroyed <= 1
    && (s.destroyed > 0 || SomeoneDestroys(s) ==> s.refs == 0)
    && (s.destructor ==> s.given && s.destroyed == 0)
    && (s.given && !s.destructor && s.destroyed == 0 ==>
      Failing(s.owner) && !Before(s.owner) && !s.owner.Took? && !s.owner.Out?)
    && (s.refs == 0 && s.destructor ==> SomeoneDestroys(s))
    && (Failing(s.owner) ==> s.destroyed == 0)
    && (Failing(s.owner) && s.destructor ==> Before(s.owner) || s.owner.Took? || s.owner.Out?)
  }

  ghost predicate Inv(s: State) { Counted(s) && Exclusive(s) && Taking(s) && Destruction(s) }

  lemma StartInv(given: bool, n: nat)
    ensures Inv(Start(given, n))
  {
    NothingHeld(n);
  }

  lemma {:induction false} NothingHeld(n: nat)
    ensures Holding(seq(n, _ => Outside)) == 0
  {
    if n > 0 {
      NothingHeld(n - 1);
      assert seq(n, _ => Outside)[..n - 1] == seq(n - 1, _ => Outside);
    }
  }

  lemma ThreadCounted(s: State, i: nat)
    requires Counted(s) && i < |s.threads|
    ensures Counted(Trampoline(s, i))
  {
    HoldingUpdate(s.threads, i, NextPc(s, s.threads[i]));
    hide Holding, MutexFree;
  }

  lemma MutexEntered(s: State, pc: Pc)
    ensures InMutex(NextPc(s, pc)) ==> InMutex(pc) || MutexFree(s)
  {
    hide MutexFree;
  }

  lemma ThreadExclusive(s: State, i: nat)
    requires Exclusive(s) && i < |s.threads|
    ensures Exclusive(Trampoline(s, i))
  {
    MutexEntered(s, s.threads[i]);
    var u, next := Trampoline(s, i), NextPc(s, s.threads[i]);
    assert u.threads == s.threads[i := next] && u.owner == s.owner;
    hide Trampoline, NextPc, InMutex, OwnerInMutex;
  }

  lemma ThreadTaking(s: State, i: nat)
    requires Taking(s) && i < |s.threads|
    ensures Taking(Trampoline(s, i))
  {
    hide MutexFree;
  }

  lemma HolderCounted(s: State, i: nat)
    requires Counted(s) && i < |s.threads| && Holds(s.threads[i])
    ensures s.refs >= 1
  {
    HoldingUpdate(s.threads, i, Outside);
  }

  lemma SameDestroyers(s: State, i: nat, next: Pc)
    requires i < |s.threads| && !s.threads[i].Destroying? && !next.Destroying?
    ensures SomeoneDestroys(Moved(s, i, next)) <==> SomeoneDestroys(s)
  {
    if SomeoneDestroys(s) && !s.owner.OwnerDestroying? {
      var j :| 0 <= j < |s.threads| && s.threads[j].Destroying?;
      assert Moved(s, i, next).threads[j].Destroying?;
    }
  }

  lemma NowDestroys(s: State, i: nat)
    requires i < |s.threads|
    ensures SomeoneDestroys(Moved(s, i, Destroying))
  {
    assert Moved(s, i, Destroying).threads[i].Destroying?;
  }

  /** Only dropping a reference makes a thread destroy, and only the thread that dropped the
      last one: nobody holds the data then. */
  lemma ThreadDestruction(s: State, i: nat)
    requires Inv(s) && i < |s.threads|
    ensures Destruction(Trampoline(s, i))
  {
    var pc := s.threads[i];
    var next := NextPc(s, pc);
    if pc.Returned? {
      HolderCounted(s, i);
      NowDestroys(s, i);
      hide Counted, Exclusive, Taking, MutexFree;
      if !next.Destroying? { SameDestroyers(s, i, next); }
    } else if pc.Destroying? {
      assert SomeoneDestroys(s);
      hide Counted, Exclusive, Taking, MutexFree, SomeoneDestroys;
    } else {
      if s.data { SureIsCounted(s); }
      hide Counted, Exclusive, Taking, MutexFree;
      SameDestroyers(s, i, next);
      hide SomeoneDestroys;
    }
  }

  lemma SureIsCounted(s: State)
    requires Counted(s) && s.data
    ensures s.refs >= 1
  {
  }

  lemma ThreadInv(s: State, i: nat)
    requires Inv(s) && i < |s.threads|
    ensures Inv(Trampoline(s, i))
  {
    ThreadCounted(s, i);
    ThreadExclusive(s, i);
    ThreadTaking(s, i);
    ThreadDestruction(s, i);
    hide Counted, Exclusive, Taking, Destruction, Trampoline;
  }

  lemma OwnerInv(s: State)
    requires Inv(s)
    ensures Inv(OwnerStep(s))
  {
    hide Holding;
  }

  lemma StepInv(s: State, t: Turn)
    requires Inv(s)
    ensures Inv(Step(s, t))
  {
    match t {
      case Thread(i) => if i < |s.threads| { ThreadInv(s, i); }
      case Create(ok) =>
      case Own => OwnerInv(s);
    }
  }

  lemma {:induction false} RunsInv(given: bool, n: nat, run: seq<Turn>)
    ensures Inv(After(given, n, run))
  {
    hide Inv, Step, Start;
    if run == [] {
      StartInv(given, n);
    } else {
      RunsInv(given, n, run[..|run| - 1]);
      StepInv(After(given, n, run[..|run| - 1]), run[|run| - 1]);
    }
  }

  // ----- what every run keeps -----

  /** The destroy function runs at most once, and only if there is one. */
  lemma DestroyedAtMostOnce(given: bool, n: nat, run: seq<Turn>)
    ensures After(given, n, run).destroyed <= One(given)
  {
    RunsInv(given, n, run);
    hide After, Counted, Exclusive, Taking;
    GivenStays(given, n, run);
  }

  lemma {:induction false} GivenStays(given: bool, n: nat, run: seq<Turn>)
    ensures After(given, n, run).given == given && (!given ==> After(given, n, run).destroyed == 0)
  {
    if run != [] {
      var before := run[..|run| - 1];
      GivenStays(given, n, before);
      RunsInv(given, n, before);
      hide After, MutexFree, Counted, Exclusive, Taking;
    }
  }

  lemma {:induction false} HoldsIsCounted(pcs: seq<Pc>, i: nat)
    requires i < |pcs| && Holds(pcs[i])
    ensures Holding(pcs) >= 1
  {
    HoldingUpdate(pcs, i, Outside);
  }

  /** While the destroy function runs, and ever after, no callback that acquired the data is
      running, about to run or about to return. */
  lemma NeverDuringCallback(given: bool, n: nat, run: seq<Turn>, i: nat)
    requires var s := After(given, n, run); i < |s.threads| && (s.destroyed > 0 || SomeoneDestroys(s))
    ensures !Holds(After(given, n, run).threads[i])
  {
    var s := After(given, n, run);
    RunsInv(given, n, run);
    hide After, Exclusive, Taking;
    if Holds(s.threads[i]) { HoldsIsCounted(s.threads, i); }
  }

  lemma {:induction false} NobodyHolds(pcs: seq<Pc>)
    requires forall i :: 0 <= i < |pcs| ==> !Holds(pcs[i])
    ensures Holding(pcs) == 0
  {
    if pcs != [] { NobodyHolds(pcs[..|pcs| - 1]); }
  }

  /** Before the owner takes the data, or while anyone holds it, it has not run. */
  lemma NotBeforeLetGo(given: bool, n: nat, run: seq<Turn>)
    requires var s := After(given, n, run); Before(s.owner) || exists i :: 0 <= i < |s.threads| && Holds(s.threads[i])
    ensures After(given, n, run).destroyed == 0 && After(given, n, run).refs > 0
  {
    var s := After(given, n, run);
    RunsInv(given, n, run);
    hide After, Exclusive;
    if !Before(s.owner) {
      var i :| 0 <= i < |s.threads| && Holds(s.threads[i]);
      HoldsIsCounted(s.threads, i);
    }
  }

  /** After the release step took the data, no acquire succeeds. */
  lemma NoAcquireAfterTake(given: bool, n: nat, run: seq<Turn>, t: Turn, i: nat)
    requires var s := After(given, n, run); i < |s.threads| && !Before(s.owner)
    ensures var s := After(given, n, run);
      && |Step(s, t).threads| == |s.threads| && !Before(Step(s, t).owner)
      && (Holds(Step(s, t).threads[i]) ==> Holds(s.threads[i]))
  {
    RunsInv(given, n, run);
    hide After, Counted, Exclusive, Destruction, MutexFree;
  }

  lemma OwnerPath(s: State)
    ensures OwnerStep(s).owner.Creating? <==> s.owner.Creating?
    ensures Failing(OwnerStep(s).owner) <==> Failing(s.owner)
  {
    hide MutexFree;
    match s.owner {
      case Creating => assert OwnerStep(s).owner == Creating;
      case Live => assert OwnerStep(s).owner == Disabling(false);
      case Disabling(f) => assert OwnerStep(s).owner == OwnerWanting(f);
      case OwnerWanting(f) => assert OwnerStep(s).owner == OwnerLocked(f) || OwnerStep(s).owner == OwnerWanting(f);
      case OwnerLocked(f) => assert OwnerStep(s).owner == Took(f, s.data);
      case Took(f, has) => assert OwnerStep(s).owner == Out(f, has);
      case Out(f, has) =>
        assert f ==> OwnerStep(s).owner == Relinquished(has);
        assert !f ==> OwnerStep(s).owner == Done(f) || OwnerStep(s).owner == OwnerDestroying(f);
      case Relinquished(has) =>
        assert OwnerStep(s).owner == Done(true) || OwnerStep(s).owner == OwnerDestroying(true);
      case OwnerDestroying(f) => assert OwnerStep(s).owner == Done(f);
      case Done(f) => assert OwnerStep(s).owner == Done(f);
    }
  }

  /** Once created, or not, it stays so. */
  lemma PathStays(s: State, t: Turn)
    requires !s.owner.Creating?
    ensures !Step(s, t).owner.Creating? && (Failing(Step(s, t).owner) <==> Failing(s.owner))
  {
    OwnerPath(s);
    if t.Thread? && t.i < |s.threads| { ThreadShape(s, t.i); }
    hide OwnerStep, Trampoline, Failing;
  }

  lemma PathBegins(s: State, t: Turn)
    requires s.owner.Creating?
    ensures if t.Create? then !Step(s, t).owner.Creating? && (Failing(Step(s, t).owner) <==> !t.ok)
            else Step(s, t).owner.Creating?
  {
    OwnerPath(s);
    if t.Thread? && t.i < |s.threads| { ThreadShape(s, t.i); }
    hide OwnerStep, Trampoline;
  }

  /** Turn `k` is the run's first attempt to create the instrument, and tells how it ended. */
  predicate Creates(run: seq<Turn>, k: nat, ok: bool) {
    k < |run| && run[k] == Create(ok) && forall j :: 0 <= j < k ==> !run[j].Create?
  }

  lemma {:induction false} NotCreated(given: bool, n: nat, run: seq<Turn>)
    requires forall j :: 0 <= j < |run| ==> !run[j].Create?
    ensures After(given, n, run).owner.Creating?
  {
    if run != [] {
      NotCreated(given, n, run[..|run| - 1]);
      PathBegins(After(given, n, run[..|run| - 1]), run[|run| - 1]);
      hide Step;
    }
  }

  /** The owner's path is told by the first creation turn. */
  lemma {:induction false} CreationDecides(given: bool, n: nat, run: seq<Turn>, k: nat, ok: bool)
    requires Creates(run, k, ok)
    ensures !After(given, n, run).owner.Creating? && (Failing(After(given, n, run).owner) <==> !ok)
    decreases |run|
  {
    hide Step, Failing;
    var m := |run| - 1;
    if k < m {
      CreationDecides(given, n, run[..m], k, ok);
      PathStays(After(given, n, run[..m]), run[m]);
    } else {
      NotCreated(given, n, run[..m]);
      PathBegins(After(given, n, run[..m]), run[m]);
    }
  }

  /** When the creation failed the data stays the caller's: in no run does the destroy function
      run, even if a callback in flight drops the last reference. */
  lemma FailureNeverDestroys(given: bool, n: nat, run: seq<Turn>, k: nat)
    requires Creates(run, k, false)
    ensures After(given, n, run).destroyed == 0 && Destroyed !in After(given, n, run).log
  {
    CreationDecides(given, n, run, k, false);
    RunsInv(given, n, run);
    RunsLog(given, n, run);
    hide After, Counted, Exclusive, Taking;
  }

  // ----- the log of the caller's functions -----

  /** Thread `i` is in the callback, as the log tells. */
  predicate InCallback(log: seq<Event>, i: nat) {
    if log == [] then false
    else if log[|log| - 1] == Began(i) then true
    else if log[|log| - 1] == Finished(i) then false
    else InCallback(log[..|log| - 1], i)
  }

  /** Callbacks are open where threads run them; the destroy function is the last event, and
      is there once it has run. */
  ghost predicate LogOk(s: State) {
    && (forall i: nat :: InCallback(s.log, i) <==> i < |s.threads| && s.threads[i].Running?)
    && (forall k :: 0 <= k < |s.log| && s.log[k] == Destroyed ==> k == |s.log| - 1)
    && (s.destroyed > 0 <==> Destroyed in s.log)
  }

  /** At most one is about to run the destroy function, and it has not been run then; a thread
      that saw the flag under the lock finds the data. */
  ghost predicate OneDestroyer(s: State) {
    && (forall i, j :: 0 <= i < j < |s.threads| && s.threads[i].Destroying? ==> !s.threads[j].Destroying?)
    && (s.owner.OwnerDestroying? ==> forall i :: 0 <= i < |s.threads| ==> !s.threads[i].Destroying?)
    && (SomeoneDestroys(s) ==> s.destroyed == 0)
    && (forall i :: 0 <= i < |s.threads| && s.threads[i].Sure? ==> s.data)
  }

  lemma InCallbackPush(log: seq<Event>, e: Event, i: nat)
    ensures InCallback(log + [e], i) <==> e == Began(i) || (e != Finished(i) && InCallback(log, i))
  {
    assert (log + [e])[..|log|] == log;
  }
  /** What a step changes, as far as the log and the threads go. */
  lemma ThreadShape(s: State, i: nat)
    requires i < |s.threads|
    ensures var pc, u := s.threads[i], Trampoline(s, i);
      && u.threads == s.threads[i := NextPc(s, pc)] && u.log == s.log + Noted(pc, i, s.destructor)
      && u.owner == s.owner && u.data == s.data
      && u.destroyed == s.destroyed + One(pc.Destroying? && s.destructor)
  {
    hide MutexFree;
  }

  lemma NextPlace(s: State, pc: Pc)
    ensures NextPc(s, pc).Running? <==> pc.Acquired?
    ensures NextPc(s, pc).Acquired? <==> pc.Cloned?
    ensures NextPc(s, pc).Cloned? <==> pc.Sure? && s.data
    ensures NextPc(s, pc).Sure? <==> pc.Locked? && s.enabled
    ensures NextPc(s, pc).Destroying? <==> pc.Returned? && s.refs == 1
  {
    hide MutexFree;
  }

  lemma OwnerShape(s: State)
    ensures var u := OwnerStep(s);
      && u.threads == s.threads && u.log == s.log + OwnerNoted(s.owner, s.destructor)
      && u.destroyed == s.destroyed + |OwnerNoted(s.owner, s.destructor)|
  {
    hide MutexFree;
    if s.owner.OwnerDestroying? {
      assert OwnerStep(s).log == s.log + OwnerNoted(s.owner, s.destructor);
    } else {
      assert s.log + [] == s.log;
      assert OwnerStep(s).log == s.log && OwnerStep(s).threads == s.threads && OwnerStep(s).destroyed == s.destroyed;
    }
  }

  /** Adding one event, or none, to the log. */
  lemma LogGrows(s: State, u: State, noted: seq<Event>)
    requires LogOk(s) && u.log == s.log + noted && |noted| <= 1 && (noted != [] ==> s.destroyed == 0)
    requires u.destroyed == s.destroyed + (if noted == [Destroyed] then 1 else 0)
    requires forall j: nat :: (j < |u.threads| && u.threads[j].Running?) <==>
      noted == [Began(j)] || (noted != [Finished(j)] && j < |s.threads| && s.threads[j].Running?)
    ensures LogOk(u)
  {
    if noted == [] {
      assert u.log == s.log;
    } else {
      assert noted == [noted[0]];
      forall j: nat ensures InCallback(u.log, j) <==>
        noted[0] == Began(j) || (noted[0] != Finished(j) && InCallback(s.log, j))
      {
        InCallbackPush(s.log, noted[0], j);
      }
      hide InCallback;
    }
  }

  lemma ThreadLogs(s: State, i: nat)
    requires Inv(s) && LogOk(s) && i < |s.threads|
    ensures LogOk(Trampoline(s, i))
  {
    var pc := s.threads[i];
    if pc.Acquired? || pc.Running? { HolderCounted(s, i); }
    ThreadShape(s, i);
    NextPlace(s, pc);
    assert Noted(pc, i, s.destructor) != [] ==> s.destroyed == 0;
    hide Inv, Trampoline, NextPc, LogOk;
    LogGrows(s, Trampoline(s, i), Noted(pc, i, s.destructor));
  }

  lemma OwnerLogs(s: State)
    requires Inv(s) && LogOk(s)
    ensures LogOk(OwnerStep(s))
  {
    OwnerShape(s);
    hide OwnerStep, LogOk, Counted, Exclusive, Taking, SomeoneDestroys;
    LogGrows(s, OwnerStep(s), OwnerNoted(s.owner, s.destructor));
  }

  lemma ThreadDestroysOnce(s: State, i: nat)
    requires Inv(s) && OneDestroyer(s) && i < |s.threads|
    ensures OneDestroyer(Trampoline(s, i))
  {
    var pc, u := s.threads[i], Trampoline(s, i);
    if pc.Returned? { HolderCounted(s, i); }
    ThreadShape(s, i);
    NextPlace(s, pc);
    hide Trampoline, NextPc, Counted, Exclusive;
    assert u.threads[i].Destroying? ==> !SomeoneDestroys(s) && s.destroyed == 0;
    assert pc.Destroying? ==> SomeoneDestroys(s);
    assert SomeoneDestroys(u) ==> u.threads[i].Destroying? || (SomeoneDestroys(s) && !pc.Destroying?) by {
      if SomeoneDestroys(u) && !u.threads[i].Destroying? && !u.owner.OwnerDestroying? {
        var j :| 0 <= j < |u.threads| && u.threads[j].Destroying?;
        assert s.threads[j].Destroying? && j != i;
      }
    }
    assert u.threads[i].Sure? ==> s.data;
    hide SomeoneDestroys, Taking, Destruction;
  }

  lemma OwnerDestroysOnce(s: State)
    requires Inv(s) && OneDestroyer(s)
    ensures OneDestroyer(OwnerStep(s))
  {
    hide Holding;
  }

  lemma StepLogs(s: State, t: Turn)
    requires Inv(s) && LogOk(s) && OneDestroyer(s)
    ensures LogOk(Step(s, t)) && OneDestroyer(Step(s, t))
  {
    match t {
      case Thread(i) =>
        if i < |s.threads| {
          ThreadLogs(s, i);
          ThreadDestroysOnce(s, i);
        }
      case Create(ok) =>
      case Own =>
        OwnerLogs(s);
        OwnerDestroysOnce(s);
    }
  }

  lemma StartLogs(given: bool, n: nat)
    ensures LogOk(Start(given, n)) && OneDestroyer(Start(given, n))
  {
  }

  lemma {:induction false} RunsLog(given: bool, n: nat, run: seq<Turn>)
    ensures LogOk(After(given, n, run)) && OneDestroyer(After(given, n, run))
  {
    hide LogOk, OneDestroyer, Inv, Step, Start;
    if run == [] {
      StartLogs(given, n);
    } else {
      RunsInv(given, n, run[..|run| - 1]);
      RunsLog(given, n, run[..|run| - 1]);
      StepLogs(After(given, n, run[..|run| - 1]), run[|run| - 1]);
    }
  }

  /** The destroy function is the last of the caller's functions to be called, and every
      callback that has begun has finished by then. */
  lemma DestroyedLast(given: bool, n: nat, run: seq<Turn>, k: nat)
    requires k < |After(given, n, run).log| && After(given, n, run).log[k] == Destroyed
    ensures k == |After(given, n, run).log| - 1
    ensures forall i: nat :: !InCallback(After(given, n, run).log, i)
  {
    var s := After(given, n, run);
    RunsLog(given, n, run);
    assert s.destroyed > 0;
    hide After, InCallback;
    forall i: nat ensures !InCallback(s.log, i) {
      if i < |s.threads| { NeverDuringCallback(given, n, run, i); }
    }
  }

  /** The instrument was created: the destroy function, if given, has run exactly when the
      handle has been destroyed and every callback has returned and let go. */
  lemma DestroyedExactlyOnce(given: bool, n: nat, run: seq<Turn>, k: nat)
    requires Creates(run, k, true)
    ensures var s := After(given, n, run);
      (Destroyed in s.log <==> given && s.owner.Done? && forall pc :: pc in s.threads ==> !Holds(pc) && !pc.Destroying?)
    ensures var s := After(given, n, run); s.destroyed == if Destroyed in s.log then 1 else 0
  {
    var s := After(given, n, run);
    CreationDecides(given, n, run, k, true);
    RunsInv(given, n, run);
    RunsLog(given, n, run);
    GivenStays(given, n, run);
    hide After, Exclusive, InCallback;
    if s.destroyed > 0 {
      forall pc | pc in s.threads ensures !Holds(pc) && !pc.Destroying? {
        var i :| 0 <= i < |s.threads| && s.threads[i] == pc;
        if Holds(pc) { HoldsIsCounted(s.threads, i); }
        assert pc.Destroying? ==> SomeoneDestroys(s);
      }
      assert !s.owner.OwnerDestroying?;
    } else if s.owner.Done? && forall pc :: pc in s.threads ==> !Holds(pc) && !pc.Destroying? {
      NobodyHolds(s.threads);
    }
  }

  // ----- no collection that may call is lost -----

  /** The turn at which thread `i` sees the flag set under the lock. */
  predicate Admits(s: State, t: Turn, i: nat) {
    t == Thread(i) && i < |s.threads| && s.threads[i].Locked? && s.enabled
  }

  function Admissions(given: bool, n: nat, run: seq<Turn>, i: nat): nat {
    if run == [] then 0
    else
      var before, t := run[..|run| - 1], run[|run| - 1];
      Admissions(given, n, before, i) + if Admits(After(given, n, before), t, i) then 1 else 0
  }

  function Occurrences(log: seq<Event>, e: Event): nat {
    if log == [] then 0 else Occurrences(log[..|log| - 1], e) + if log[|log| - 1] == e then 1 else 0
  }

  lemma OccurrencesPush(log: seq<Event>, e: Event, x: Event)
    ensures Occurrences(log + [e], x) == Occurrences(log, x) + if e == x then 1 else 0
  {
    assert (log + [e])[..|log|] == log;
  }

  predicate ToBegin(s: State, i: nat) {
    i < |s.threads| && (s.threads[i].Sure? || s.threads[i].Cloned? || s.threads[i].Acquired?)
  }

  predicate ToFinish(s: State, i: nat) { ToBegin(s, i) || (i < |s.threads| && s.threads[i].Running?) }

  lemma ThreadCalls(s: State, k: nat, i: nat)
    requires OneDestroyer(s) && k < |s.threads|
    ensures var u := Trampoline(s, k);
      && Occurrences(u.log, Began(i)) + One(ToBegin(u, i)) ==
        Occurrences(s.log, Began(i)) + One(ToBegin(s, i)) + One(Admits(s, Thread(k), i))
      && Occurrences(u.log, Finished(i)) + One(ToFinish(u, i)) ==
        Occurrences(s.log, Finished(i)) + One(ToFinish(s, i)) + One(Admits(s, Thread(k), i))
  {
    ThreadShape(s, k);
    NextPlace(s, s.threads[k]);
    hide Trampoline, NextPc, SomeoneDestroys;
    OccurrencesGrow(s.log, Noted(s.threads[k], k, s.destructor), i);
    hide Occurrences;
  }

  lemma StepCalls(s: State, t: Turn, i: nat)
    requires OneDestroyer(s)
    ensures var u := Step(s, t);
      && Occurrences(u.log, Began(i)) + One(ToBegin(u, i)) ==
        Occurrences(s.log, Began(i)) + One(ToBegin(s, i)) + One(Admits(s, t, i))
      && Occurrences(u.log, Finished(i)) + One(ToFinish(u, i)) ==
        Occurrences(s.log, Finished(i)) + One(ToFinish(s, i)) + One(Admits(s, t, i))
  {
    hide Trampoline, OwnerStep, OneDestroyer, Occurrences;
    match t {
      case Thread(k) => if k < |s.threads| { ThreadCalls(s, k, i); }
      case Create(ok) =>
      case Own =>
        OwnerShape(s);
        OccurrencesGrow(s.log, OwnerNoted(s.owner, s.destructor), i);
    }
  }

  lemma OccurrencesGrow(log: seq<Event>, noted: seq<Event>, i: nat)
    requires |noted| <= 1
    ensures Occurrences(log + noted, Began(i)) == Occurrences(log, Began(i)) + One(noted == [Began(i)])
    ensures Occurrences(log + noted, Finished(i)) == Occurrences(log, Finished(i)) + One(noted == [Finished(i)])
  {
    if noted == [] {
      assert log + noted == log;
    } else {
      assert noted == [noted[0]];
      OccurrencesPush(log, noted[0], Began(i));
      OccurrencesPush(log, noted[0], Finished(i));
    }
  }

  /** The callbacks run are those of the collections that saw the flag set under the lock:
      none is skipped, none is made up. */
  lemma {:induction false} EveryAdmissionCalls(given: bool, n: nat, run: seq<Turn>, i: nat)
    ensures var s := After(given, n, run);
      && Occurrences(s.log, Began(i)) + One(ToBegin(s, i)) == Admissions(given, n, run, i)
      && Occurrences(s.log, Finished(i)) + One(ToFinish(s, i)) == Admissions(given, n, run, i)
  {
    hide Step, Occurrences, ToBegin, ToFinish, OneDestroyer, Admits;
    if run == [] {
      NothingCalled(given, n, i);
    } else {
      var before := run[..|run| - 1];
      EveryAdmissionCalls(given, n, before, i);
      RunsLog(given, n, before);
      StepCalls(After(given, n, before), run[|run| - 1], i);
    }
  }

  /** A collection that has begun gives up without calling only when the flag is clear. */
  lemma GivesUpWhenDisabled(given: bool, n: nat, run: seq<Turn>, i: nat)
    requires var s := After(given, n, run);
      i < |s.threads| && (s.threads[i].Loading? || s.threads[i].Wanting? || ToBegin(s, i) || s.threads[i].Locked?)
    ensures var s := After(given, n, run);
      Step(s, Thread(i)).threads[i] == Outside <==>
        !s.enabled && (s.threads[i].Loading? || s.threads[i].Locked?)
  {
    RunsLog(given, n, run);
    hide After, MutexFree, SomeoneDestroys, LogOk;
  }

  lemma NothingCalled(given: bool, n: nat, i: nat)
    ensures var s := Start(given, n);
      && Occurrences(s.log, Began(i)) == Occurrences(s.log, Finished(i)) == 0 && !ToBegin(s, i) && !ToFinish(s, i)
  {
  }

  // ----- no deadlock -----

  /** Unless every thread is outside, some thread that is not can go on, or the owner, who
      holds the mutex, can. */
  lemma NeverStuck(s: State, i: nat)
    requires i < |s.threads| && !s.threads[i].Outside?
    ensures (OwnerInMutex(s.owner) && Step(s, Own).owner != s.owner) ||
      exists j: nat :: j < |s.threads| && !s.threads[j].Outside? && Step(s, Thread(j)).threads[j] != s.threads[j]
  {
    if OwnerInMutex(s.owner) {
      hide MutexFree;
    } else if j: nat :| j < |s.threads| && InMutex(s.threads[j]) {
      GoesOn(s, j);
    } else {
      GoesOn(s, i);
    }
  }

  lemma GoesOn(s: State, j: nat)
    requires j < |s.threads| && !s.threads[j].Outside?
    requires InMutex(s.threads[j]) || MutexFree(s)
    ensures Step(s, Thread(j)).threads[j] != s.threads[j]
  {
    hide MutexFree;
  }

  // ----- the code, one call at a time -----

  function Times(s: State, t: Turn, steps: nat): State
    decreases steps
  {
    if steps == 0 then s else Times(Step(s, t), t, steps - 1)
  }

  /** A trampoline that no other thread interrupts: two steps when disabled, nine otherwise. */
  function WholeTrampoline(s: State, i: nat): State { Times(s, Thread(i), if s.enabled then 9 else 2) }

  /** The release or the relinquishing that no other thread interrupts. */
  function WholeRelease(s: State): State { Times(s, Own, 7) }

  predicate AllOutside(s: State) { forall i :: 0 <= i < |s.threads| ==> s.threads[i].Outside? }

  lemma TimesOne(s: State, t: Turn, steps: nat, u: State)
    requires steps > 0 && Step(s, t) == u
    ensures Times(s, t, steps) == Times(u, t, steps - 1)
  {
  }

  lemma {:induction false} TimesInv(s: State, t: Turn, steps: nat)
    requires Inv(s)
    ensures Inv(Times(s, t, steps))
    decreases steps
  {
    hide Inv, Step;
    if steps > 0 {
      StepInv(s, t);
      TimesInv(Step(s, t), t, steps - 1);
    }
  }

  /** A step that only moves the thread on. */
  lemma MovesOn(s: State, i: nat, pc: Pc, next: Pc)
    requires i < |s.threads| && s.threads[i] == pc && NextPc(s, pc) == next
    requires pc.Outside? || pc.Loading? || pc.Wanting?
    ensures Step(s, Thread(i)) == s.(threads := s.threads[i := next])
  {
    hide MutexFree;
  }

  /** Up to the mutex. */
  lemma AloneLocks(s: State, i: nat)
    requires AllOutside(s) && i < |s.threads| && s.enabled && !OwnerInMutex(s.owner)
    ensures Times(s, Thread(i), 9) == Times(s.(threads := s.threads[i := Locked]), Thread(i), 6)
  {
    var a := s.(threads := s.threads[i := Loading]);
    var b := s.(threads := s.threads[i := Wanting]);
    var c := s.(threads := s.threads[i := Locked]);
    assert MutexFree(b);
    hide MutexFree;
    assert s.threads[i] == Outside;
    hide AllOutside;
    MovesOn(s, i, Outside, Loading);
    MovesOn(a, i, Loading, Wanting);
    MovesOn(b, i, Wanting, Locked);
    hide Step;
    TimesOne(s, Thread(i), 9, a);
    TimesOne(a, Thread(i), 8, b);
    TimesOne(b, Thread(i), 7, c);
  }

  /** Up to the acquired reference. */
  lemma AloneAcquires(s: State, i: nat)
    requires i < |s.threads| && s.enabled && s.data
    ensures Times(s.(threads := s.threads[i := Locked]), Thread(i), 6) ==
      Times(s.(refs := s.refs + 1, threads := s.threads[i := Acquired]), Thread(i), 3)
  {
    var c := s.(threads := s.threads[i := Locked]);
    var d := s.(threads := s.threads[i := Sure]);
    var e := s.(refs := s.refs + 1, threads := s.threads[i := Cloned]);
    var f := s.(refs := s.refs + 1, threads := s.threads[i := Acquired]);
    hide MutexFree;
    assert Step(c, Thread(i)) == d;
    assert Step(d, Thread(i)) == e;
    assert Step(e, Thread(i)) == f;
    hide Step;
    TimesOne(c, Thread(i), 6, d);
    TimesOne(d, Thread(i), 5, e);
    TimesOne(e, Thread(i), 4, f);
  }

  /** From there through the callback to the drop, which is not the last. */
  lemma AloneReturns(s: State, i: nat)
    requires i < |s.threads| && s.threads[i].Outside? && s.refs >= 1
    ensures Times(s.(refs := s.refs + 1, threads := s.threads[i := Acquired]), Thread(i), 3) ==
      s.(log := s.log + [Began(i), Finished(i)])
  {
    var u := s.(log := s.log + [Began(i), Finished(i)]);
    var f := s.(refs := s.refs + 1, threads := s.threads[i := Acquired]);
    var g := s.(refs := s.refs + 1, log := s.log + [Began(i)], threads := s.threads[i := Running]);
    var h := u.(refs := s.refs + 1, threads := s.threads[i := Returned]);
    assert s.log + [Began(i)] + [Finished(i)] == u.log;
    hide MutexFree;
    assert Step(f, Thread(i)) == g;
    assert Step(g, Thread(i)) == h;
    assert s.threads[i := Outside] == s.threads;
    assert Step(h, Thread(i)) == u;
    hide Step;
    TimesOne(f, Thread(i), 3, g);
    TimesOne(g, Thread(i), 2, h);
    TimesOne(h, Thread(i), 1, u);
  }

  lemma AloneCollects(s: State, i: nat)
    requires Inv(s) && AllOutside(s) && i < |s.threads| && !OwnerInMutex(s.owner)
    ensures WholeTrampoline(s, i) == s.(log := s.log + if s.enabled then [Began(i), Finished(i)] else [])
  {
    if s.enabled {
      AloneLocks(s, i);
      AloneAcquires(s, i);
      SureIsCounted(s);
      AloneReturns(s, i);
    } else {
      hide MutexFree, Inv;
      var a := s.(threads := s.threads[i := Loading]);
      assert s.threads[i := Outside] == s.threads;
      assert Step(s, Thread(i)) == a;
      assert Step(a, Thread(i)) == s;
      assert s.log + [] == s.log;
      TimesOne(s, Thread(i), 2, a);
      TimesOne(a, Thread(i), 1, s);
    }
  }

  /** The owner alone at its work: the data is taken and, being the last reference, dropped;
      its destroy function runs after a release, not after a relinquishing. */
  function Ended(s: State, failed: bool): State {
    s.(enabled := false, data := false, refs := 0, destructor := false,
       destroyed := s.destroyed + One(s.destructor && !failed),
       log := s.log + if s.destructor && !failed then [Destroyed] else [], owner := Done(failed))
  }

  lemma AloneTakes(s: State, failed: bool)
    requires AllOutside(s) && s.data && s.owner == Disabling(failed)
    ensures Times(s, Own, 4) == s.(enabled := false, data := false, owner := Out(failed, true))
  {
    var a := s.(enabled := false, owner := OwnerWanting(failed));
    var b := s.(enabled := false, owner := OwnerLocked(failed));
    var c := s.(enabled := false, data := false, owner := Took(failed, true));
    var d := s.(enabled := false, data := false, owner := Out(failed, true));
    assert MutexFree(a);
    hide MutexFree;
    assert Step(s, Own) == a && Step(a, Own) == b && Step(b, Own) == c && Step(c, Own) == d;
    hide Step;
    TimesOne(s, Own, 4, a);
    TimesOne(a, Own, 3, b);
    TimesOne(b, Own, 2, c);
    TimesOne(c, Own, 1, d);
  }

  lemma AloneReleases(s: State)
    requires AllOutside(s) && s.data && s.refs == 1 && s.owner == Live
    ensures WholeRelease(s) == Ended(s, false)
  {
    var a := s.(owner := Disabling(false));
    var d := s.(enabled := false, data := false, owner := Out(false, true));
    var e := d.(refs := 0, owner := OwnerDestroying(false));
    assert Step(s, Own) == a;
    AloneTakes(a, false);
    TimesAdd(a, Own, 4, 2);
    assert Step(d, Own) == e && Step(e, Own) == Ended(s, false);
    hide Step;
    TimesOne(s, Own, 7, a);
    TimesOne(d, Own, 2, e);
    TimesOne(e, Own, 1, Ended(s, false));
  }

  lemma AloneRelinquishes(s: State)
    requires AllOutside(s) && s.data && s.refs == 1 && s.owner == Disabling(true)
    ensures WholeRelease(s) == Ended(s, true)
  {
    var d := s.(enabled := false, data := false, owner := Out(true, true));
    var e := d.(destructor := false, owner := Relinquished(true));
    var f := e.(refs := 0, owner := OwnerDestroying(true));
    AloneTakes(s, true);
    TimesAdd(s, Own, 4, 3);
    assert Step(d, Own) == e && Step(e, Own) == f && Step(f, Own) == Ended(s, true);
    hide Step;
    TimesOne(d, Own, 3, e);
    TimesOne(e, Own, 2, f);
    TimesOne(f, Own, 1, Ended(s, true));
  }

  lemma {:induction false} TimesAdd(s: State, t: Turn, a: nat, b: nat)
    ensures Times(s, t, a + b) == Times(Times(s, t, a), t, b)
    decreases a
  {
    hide Step;
    if a > 0 { TimesAdd(Step(s, t), t, a - 1, b); }
  }

  /** Between calls the mutex holds the only reference. */
  lemma RestFacts(s: State)
    requires Inv(s) && AllOutside(s) && Before(s.owner)
    ensures s.data && s.refs == 1 && s.destroyed == 0
    ensures !Failing(s.owner) ==> s.destructor == s.given
  {
    NobodyHolds(s.threads);
    hide Holding;
  }

  /** The caller's data with its strong count and destroy function. */
  class UserData {
    var refs: nat
    var destructor: bool
    var destroyed: nat
    var log: seq<Event>

    constructor (destructor: bool)
      ensures refs == 1 && this.destructor == destructor && destroyed == 0 && log == []
    {
      this.refs, this.destructor, this.destroyed, log := 1, destructor, 0, [];
    }

    method Clone()
      modifies this`refs
      ensures refs == old(refs) + 1
    {
      refs := refs + 1;
    }

    /** Drop one reference; the last one takes the destroy function and runs it. */
    method Drop()
      requires refs > 0
      modifies this
      ensures refs == old(refs) - 1
      ensures destructor == (old(destructor) && refs > 0)
      ensures destroyed == old(destroyed) + if old(destructor) && refs == 0 then 1 else 0
      ensures log == old(log) + if old(destructor) && refs == 0 then [Destroyed] else []
    {
      refs := refs - 1;
      if refs == 0 && destructor {
        destructor := false;
        destroyed := destroyed + 1;
        log := log + [Destroyed];
      }
    }

    /** The user's callback, on thread `i`. */
    method Callback(i: nat)
      modifies this`log
      ensures log == old(log) + [Began(i), Finished(i)]
    {
      log := log + [Began(i)];
      log := log + [Finished(i)];
    }
  }

  class CallbackState {
    const given: bool
    const subject: UserData
    var enabled: bool
    var userData: UserData?
    ghost var owner: Owner
    ghost var users: nat

    ghost predicate Valid()
      reads this, subject
    {
      (userData == null || userData == subject) && Inv(Value())
    }

    ghost function Value(): State
      reads this, subject
    {
      State(given, enabled, userData != null, subject.refs, subject.destructor, subject.destroyed, subject.log, owner,
        seq(users, _ => Outside))
    }

    constructor (given: bool, ghost users: nat)
      ensures Valid() && fresh(subject) && Value() == Start(given, users)
    {
      var data := new UserData(given);
      this.given, this.subject, this.enabled, this.userData := given, data, true, data;
      this.owner, this.users := Creating, users;
      new;
      StartInv(given, users);
    }

    /** `acquire_user_data` */
    method AcquireUserData() returns (u: UserData?)
      requires Valid()
      modifies subject`refs
      ensures u == if enabled then userData else null
      ensures subject.refs == old(subject.refs) + One(u != null)
    {
      if !enabled {
        return null;
      }
      if !enabled {
        return null;
      }
      if userData != null {
        userData.Clone();
      }
      u := userData;
    }

    /** `callback_trampoline_u64` and its siblings, around the user's callback. */
    method Trampoline(i: nat) returns (called: bool)
      requires Valid() && i < users && !OwnerInMutex(owner)
      modifies subject
      ensures Valid() && Value() == WholeTrampoline(old(Value()), i)
      ensures called <==> old(enabled)
      ensures subject.log == old(subject.log) + if old(enabled) then [Began(i), Finished(i)] else []
      ensures subject.refs == old(subject.refs)
    {
      AloneCollects(Value(), i);
      hide WholeTrampoline, Holding;
      NothingHeld(users);
      var u := AcquireUserData();
      if u == null {
        return false;
      }
      called := true;
      u.Callback(i);
      u.Drop();
    }

    /** The end of creating the instrument: the caller gets a handle, or its data back. */
    method Create(ok: bool) returns (created: bool)
      requires Valid() && owner == Creating
      modifies this, subject
      ensures Valid() && created == ok
      ensures ok ==> Value() == Step(old(Value()), Turn.Create(true)) && enabled && subject.refs == old(subject.refs)
      ensures !ok ==> Value() == WholeRelease(Step(old(Value()), Turn.Create(false))) && !enabled && subject.refs == 0
      ensures subject.destroyed == 0 && subject.log == old(subject.log)
    {
      RestFacts(Value());
      StepInv(Value(), Turn.Create(ok));
      hide WholeRelease, Inv;
      if !ok {
        owner := Disabling(true);
        DisableAndRelinquish();
        return false;
      }
      owner := Live;
      created := true;
    }

    /** `disable_and_release_user_data`, when the handle is destroyed. */
    method DisableAndRelease()
      requires Valid() && owner == Live
      modifies this, subject
      ensures Valid() && Value() == WholeRelease(old(Value()))
      ensures subject.destroyed == (if given then 1 else 0) && subject.refs == 0 && !enabled
      ensures subject.log == old(subject.log) + if given then [Destroyed] else []
    {
      RestFacts(Value());
      AloneReleases(Value());
      TimesInv(Value(), Own, 7);
      hide Inv;
      enabled := false;
      var taken := userData;
      userData := null;
      if taken != null {
        taken.Drop();
      }
      owner := Done(false);
    }

    /** `disable_and_relinquish_user_data`, when the creation failed. */
    method DisableAndRelinquish()
      requires Valid() && owner == Disabling(true)
      modifies this, subject
      ensures Valid() && Value() == WholeRelease(old(Value()))
      ensures subject.destroyed == 0 && subject.refs == 0 && !enabled && subject.log == old(subject.log)
    {
      RestFacts(Value());
      AloneRelinquishes(Value());
      TimesInv(Value(), Own, 7);
      hide Inv;
      enabled := false;
      var taken := userData;
      userData := null;
      if taken != null {
        taken.destructor := false;
        taken.Drop();
      }
      owner := Done(true);
    }
  }
}
