/** Registration ids of the provider slots: what an id in the slot says, what unregistering by
    id does, and in which order ids are written. */
module ProviderIds {
  import opened Bytes
  import opened ProviderSlot

  // ----- registration ids -----

  /** How many ids have been taken in a run. */
  function Takes(s: State, run: seq<Turn>): nat {
    if run == [] then 0
    else
      var before, t := run[..|run| - 1], run[|run| - 1];
      Takes(s, before) + if t.action.TakeId? && Enabled(After(s, before), t) then 1 else 0
  }

  predicate HasId(pc: Pc) { pc.Ready? || pc.Writing? }

  predicate HasToken(pc: Pc) { pc.Unregistering? || pc.Clearing? }

  /** Ids are taken in order but written in any order; each is written at most once. */
  ghost predicate Fresh(s: State) {
    && (forall id :: id in s.installed ==> 1 <= id < s.nextId)
    && (forall i :: 0 <= i < |s.threads| && HasId(s.threads[i]) ==>
          1 <= s.threads[i].id < s.nextId && s.threads[i].id !in s.installed)
    && (forall i, j :: 0 <= i < j < |s.threads| && HasId(s.threads[i]) && HasId(s.threads[j]) ==>
          s.threads[i].id != s.threads[j].id)
  }

  /** An empty slot is exactly registration id zero. */
  ghost predicate SlotIds(s: State) {
    && (s.slot.id == 0 <==> s.slot.provider.None?)
    && (s.slot.id != 0 ==> s.slot.id in s.installed)
    && (forall pc :: pc in s.threads && HasToken(pc) ==> pc.token != 0)
  }

  ghost predicate Numbered(s: State) { s.signal != Traces && s.nextId >= 1 && Fresh(s) && SlotIds(s) }

  lemma IdsKept(s: State, u: State)
    requires Fresh(s) && u.installed == s.installed && u.nextId == s.nextId && |u.threads| == |s.threads|
    requires forall i :: 0 <= i < |s.threads| && HasId(u.threads[i]) ==>
      HasId(s.threads[i]) && u.threads[i].id == s.threads[i].id
    ensures Fresh(u)
  {
  }

  lemma MostKeepIds(s: State, t: Turn)
    requires s.signal != Traces && Enabled(s, t) && !t.action.TakeId? && !t.action.Swap?
    ensures var u := Perform(s, t);
      && u.installed == s.installed && u.nextId == s.nextId && |u.threads| == |s.threads|
      && forall i :: 0 <= i < |s.threads| && HasId(u.threads[i]) ==>
        HasId(s.threads[i]) && u.threads[i].id == s.threads[i].id
  {
    hide NoWriter, NoReader, NobodyAsks;
  }

  lemma TakingIsFresh(s: State, t: Turn)
    requires Fresh(s) && s.nextId >= 1 && Enabled(s, t) && t.action.TakeId? && s.nextId + 1 < TWO64
    ensures Fresh(Perform(s, t))
  {
    var u := Perform(s, t);
    assert u.threads == s.threads[t.thread := Ready(s.threads[t.thread].p, s.nextId)];
    assert u.nextId == s.nextId + 1 && u.installed == s.installed;
    hide Enabled, Perform;
  }

  lemma SwapIsFresh(s: State, t: Turn)
    requires Fresh(s) && Enabled(s, t) && t.action.Swap?
    ensures Fresh(Perform(s, t))
  {
    var u, pc := Perform(s, t), s.threads[t.thread];
    assert u.threads == s.threads[t.thread := u.threads[t.thread]] && u.threads[t.thread].Replaced?;
    assert u.nextId == s.nextId;
    assert u.installed == if pc.Writing? then s.installed + {pc.id} else s.installed;
    hide Enabled, Perform;
    forall i | 0 <= i < |u.threads| && HasId(u.threads[i]) ensures u.threads[i].id !in u.installed {
      assert u.threads[i] == s.threads[i] && i != t.thread;
    }
  }

  lemma StepFresh(s: State, t: Turn)
    requires Numbered(s) && Enabled(s, t) && (t.action.TakeId? ==> s.nextId + 1 < TWO64)
    ensures Fresh(Perform(s, t))
  {
    hide Enabled, Perform, Fresh, SlotIds;
    if t.action.TakeId? {
      TakingIsFresh(s, t);
    } else if t.action.Swap? {
      SwapIsFresh(s, t);
    } else {
      MostKeepIds(s, t);
      IdsKept(s, Perform(s, t));
    }
  }

  lemma MostKeepSlot(s: State, t: Turn)
    requires Enabled(s, t) && !t.action.Swap?
    ensures Perform(s, t).slot == s.slot && Perform(s, t).installed == s.installed
  {
    hide NoWriter, NoReader, NobodyAsks;
  }

  /** Tokens come from unregistering, which refuses zero. */
  lemma StepTokens(s: State, t: Turn)
    requires Enabled(s, t) && forall pc :: pc in s.threads && HasToken(pc) ==> pc.token != 0
    ensures forall pc :: pc in Perform(s, t).threads && HasToken(pc) ==> pc.token != 0
  {
    hide NoWriter, NoReader, NobodyAsks;
  }

  lemma SwapSlot(s: State, t: Turn)
    requires Numbered(s) && Enabled(s, t) && t.action.Swap?
    ensures var u := Perform(s, t);
      (u.slot.id == 0 <==> u.slot.provider.None?) && (u.slot.id != 0 ==> u.slot.id in u.installed)
  {
  }

  lemma StepSlotIds(s: State, t: Turn)
    requires Numbered(s) && Enabled(s, t)
    ensures SlotIds(Perform(s, t))
  {
    StepTokens(s, t);
    if t.action.Swap? { SwapSlot(s, t); } else { MostKeepSlot(s, t); }
    hide Enabled, Perform, Fresh;
  }

  lemma StepNextId(s: State, t: Turn)
    requires Enabled(s, t) && 1 <= s.nextId && (t.action.TakeId? ==> s.nextId + 1 < TWO64)
    ensures Perform(s, t).nextId == s.nextId + if t.action.TakeId? then 1 else 0
    ensures Perform(s, t).signal == s.signal
  {
  }

  lemma StepNumbered(s: State, t: Turn)
    requires Numbered(s) && Enabled(s, t) && (t.action.TakeId? ==> s.nextId + 1 < TWO64)
    ensures Numbered(Perform(s, t)) && Perform(s, t).nextId == s.nextId + if t.action.TakeId? then 1 else 0
  {
    StepFresh(s, t);
    StepSlotIds(s, t);
    StepNextId(s, t);
    hide Enabled, Perform, Fresh, SlotIds;
  }

  /** The log of vtable calls does not matter to ids. */
  lemma StillNumbered(s: State, u: State)
    requires Numbered(s) && u == s.(log := u.log)
    ensures Numbered(u) && u.nextId == s.nextId
  {
  }

  /** With fewer than 2^64 - 1 registrations. */
  lemma {:induction false} RunsNumber(signal: Signal, n: nat, run: seq<Turn>)
    requires signal != Traces && Takes(Start(signal, n), run) < TWO64 - 1
    ensures Numbered(After(Start(signal, n), run))
    ensures After(Start(signal, n), run).nextId == Takes(Start(signal, n), run) + 1
  {
    hide Enabled, Perform, Fresh, SlotIds;
    if run == [] {
      assert Fresh(Start(signal, n)) && SlotIds(Start(signal, n)) by { NoIds(signal, n); }
    } else {
      var before, t := run[..|run| - 1], run[|run| - 1];
      var s := After(Start(signal, n), before);
      RunsNumber(signal, n, before);
      if Enabled(s, t) {
        StepNumbered(s, t);
        StillNumbered(Perform(s, t), Step(s, t));
      }
    }
  }

  lemma NoIds(signal: Signal, n: nat)
    ensures Fresh(Start(signal, n)) && SlotIds(Start(signal, n))
  {
  }

  /** An empty slot is exactly registration id zero, in every reachable state. */
  lemma EmptyIsZero(signal: Signal, n: nat, run: seq<Turn>)
    requires signal != Traces && Takes(Start(signal, n), run) < TWO64 - 1
    ensures After(Start(signal, n), run).slot.id == 0 <==> After(Start(signal, n), run).slot.provider.None?
  {
    RunsNumber(signal, n, run);
    hide After, Start, Fresh;
  }

  /** Turn `k` of the run writes the slot under id `token`: the registration that returns it. */
  ghost predicate Installs(s: State, run: seq<Turn>, k: nat, token: nat) {
    && k < |run| && Enabled(After(s, run[..k]), run[k]) && run[k].action.Swap?
    && After(s, run[..k]).threads[run[k].thread].Writing? && After(s, run[..k]).threads[run[k].thread].id == token
  }

  /** No turn after turn `k` has changed the slot. */
  ghost predicate Untouched(s: State, run: seq<Turn>, k: nat)
    requires k < |run|
  {
    |run| == k + 1 ||
    (After(s, run).slot == After(s, run[..|run| - 1]).slot && Untouched(s, run[..|run| - 1], k))
  }

  lemma {:induction false} TakesPrefix(s: State, run: seq<Turn>, m: nat)
    requires m <= |run|
    ensures Takes(s, run[..m]) <= Takes(s, run)
  {
    hide Enabled;
    if m < |run| {
      var l := |run| - 1;
      TakesPrefix(s, run[..l], m);
      assert run[..l][..m] == run[..m];
    } else {
      assert run[..m] == run;
    }
  }

  /** An id that was written is in the slot until something else is, and never again. */
  lemma WrittenOnce(s: State, t: Turn, token: nat)
    requires Numbered(s) && token in s.installed
    ensures token in Step(s, t).installed
    ensures Step(s, t).slot.id == token ==> Step(s, t).slot == s.slot
  {
    hide NoWriter, NoReader, NobodyAsks;
  }

  lemma InstallWrites(s: State, t: Turn)
    requires Enabled(s, t) && t.action.Swap? && s.threads[t.thread].Writing?
    ensures var pc := s.threads[t.thread];
      Step(s, t).slot == Slot(Some(pc.p), pc.id) && pc.id in Step(s, t).installed
  {
  }

  /** The slot bears the token exactly while the installation that returned it stands. */
  lemma {:induction false} BearsWhileUntouched(signal: Signal, n: nat, run: seq<Turn>, k: nat, token: nat)
    requires signal != Traces && Takes(Start(signal, n), run) < TWO64 - 1 && Installs(Start(signal, n), run, k, token)
    ensures var s := After(Start(signal, n), run);
      && token in s.installed && (s.slot.id == token <==> Untouched(Start(signal, n), run, k))
      && (s.slot.id == token ==>
           s.slot == Slot(Some(After(Start(signal, n), run[..k]).threads[run[k].thread].p), token))
    decreases |run|
  {
    hide Step, Start, Enabled, Numbered, Takes;
    var z, m := Start(signal, n), |run| - 1;
    if k < m {
      var before := run[..m];
      assert before[..k] == run[..k] && before[k] == run[k];
      TakesPrefix(z, run, m);
      BearsWhileUntouched(signal, n, before, k, token);
      RunsNumber(signal, n, before);
      WrittenOnce(After(z, before), run[m], token);
    } else {
      assert run[..m] == run[..k];
      InstallWrites(After(z, run[..k]), run[k]);
    }
  }

  lemma ClearStep(s: State, t: Turn, token: nat)
    requires Enabled(s, t) && t.action.Swap? && s.threads[t.thread] == Clearing(token)
    ensures var own := s.slot.id == token;
      Step(s, t) == s.(slot := if own then Slot(None, 0) else s.slot,
                       threads := s.threads[t.thread := Replaced(if own then s.slot.provider else None, 0)])
  {
  }

  lemma InstalledStep(s: State, t: Turn)
    ensures var swaps := Enabled(s, t) && t.action.Swap? && s.threads[t.thread].Writing?;
      Step(s, t).installed == s.installed + if swaps then {s.threads[t.thread].id} else {}
  {
  }

  /** Only installing writes an id. */
  lemma {:induction false} WrittenByInstall(signal: Signal, n: nat, run: seq<Turn>, token: nat)
    ensures token in After(Start(signal, n), run).installed <==>
      exists k: nat :: Installs(Start(signal, n), run, k, token)
  {
    hide Step, Start, Enabled;
    var z := Start(signal, n);
    if run == [] {
      assert z.installed == {} by { StartsEmpty(signal, n); }
    } else {
      var m := |run| - 1;
      WrittenByInstall(signal, n, run[..m], token);
      InstalledStep(After(z, run[..m]), run[m]);
      if token in After(z, run).installed && token !in After(z, run[..m]).installed {
        assert Installs(z, run, m, token);
      }
      forall k: nat | k < m ensures Installs(z, run[..m], k, token) <==> Installs(z, run, k, token) {
        assert run[..m][..k] == run[..k] && run[..m][k] == run[k];
      }
    }
  }

  lemma StartsEmpty(signal: Signal, n: nat)
    ensures Start(signal, n).installed == {}
  {
  }

  /** The installation that returned the token, if any did, still stands. */
  ghost predicate Stands(s: State, run: seq<Turn>, token: nat) {
    exists k: nat :: Installs(s, run, k, token) && Untouched(s, run, k)
  }

  /** Whatever the token - returned once, taken and not yet written, or made up -
      unregistering changes the slot exactly when the installation that returned it still
      stands, and then empties it and takes out its provider; nothing else changes. */
  lemma UnregisterOwnOnly(signal: Signal, n: nat, run: seq<Turn>, token: nat, t: Turn)
    requires signal != Traces && Takes(Start(signal, n), run) < TWO64 - 1
    requires var s := After(Start(signal, n), run);
      Enabled(s, t) && t.action.Swap? && s.threads[t.thread] == Clearing(token)
    ensures var z := Start(signal, n);
      var s, own := After(z, run), Stands(z, run, token);
      && (Step(s, t).slot != s.slot <==> own)
      && (forall k: nat :: Installs(z, run, k, token) && Untouched(z, run, k) ==>
           s.slot == Slot(Some(After(z, run[..k]).threads[run[k].thread].p), token))
      && Step(s, t) == s.(slot := if own then Slot(None, 0) else s.slot,
                          threads := s.threads[t.thread := Replaced(if own then s.slot.provider else None, 0)])
  {
    var z := Start(signal, n);
    var s := After(z, run);
    RunsNumber(signal, n, run);
    WrittenByInstall(signal, n, run, token);
    forall k: nat | Installs(z, run, k, token)
      ensures s.slot.id == token <==> Untouched(z, run, k)
      ensures Untouched(z, run, k) ==> s.slot == Slot(Some(After(z, run[..k]).threads[run[k].thread].p), token)
    {
      BearsWhileUntouched(signal, n, run, k, token);
    }
    ClearStep(s, t, token);
    hide Start, Enabled, Takes, After, Untouched, Step, Fresh, Installs;
  }

  // ----- in which order ids are written -----

  predicate TakesAt(s: State, run: seq<Turn>, i: nat) {
    i < |run| && run[i].action.TakeId? && Enabled(After(s, run[..i]), run[i])
  }

  /** Turn `i` is the last before turn `k` at which the thread of turn `k` takes an id. */
  ghost predicate TakesFor(s: State, run: seq<Turn>, i: nat, k: nat) {
    && i < k < |run| && run[i].thread == run[k].thread && TakesAt(s, run, i)
    && forall j :: i < j < k && run[j].thread == run[k].thread ==> !TakesAt(s, run, j)
  }

  /** Whatever id the thread holds is `id`. */
  predicate HoldsOnly(s: State, i: nat, id: nat) {
    i < |s.threads| && (HasId(s.threads[i]) ==> s.threads[i].id == id)
  }

  lemma TakeHolds(s: State, t: Turn)
    requires s.signal != Traces && s.nextId >= 1 && Enabled(s, t) && t.action.TakeId?
    ensures Step(s, t).threads == s.threads[t.thread := Ready(s.threads[t.thread].p, s.nextId)]
  {
  }

  /** Ids only come from taking them. */
  lemma IdsComeFromTakes(s: State, t: Turn, i: nat)
    requires s.signal != Traces && i < |s.threads|
    requires !(Enabled(s, t) && t.action.TakeId? && t.thread == i)
    ensures i < |Step(s, t).threads|
    ensures HasId(Step(s, t).threads[i]) ==> HasId(s.threads[i]) && Step(s, t).threads[i].id == s.threads[i].id
  {
    if Enabled(s, t) && !t.action.TakeId? && !t.action.Swap? {
      MostKeepIds(s, t);
      hide Perform;
    }
    hide NoWriter, NoReader, NobodyAsks;
  }

  lemma {:induction false} RunsSame(signal: Signal, n: nat, run: seq<Turn>)
    ensures After(Start(signal, n), run).signal == signal && |After(Start(signal, n), run).threads| == n
  {
    if run != [] {
      RunsSame(signal, n, run[..|run| - 1]);
      SameThreads(After(Start(signal, n), run[..|run| - 1]), run[|run| - 1]);
      hide Step;
    }
  }

  lemma SameThreads(s: State, t: Turn)
    ensures Step(s, t).signal == s.signal && |Step(s, t).threads| == |s.threads|
  {
    hide NoWriter, NoReader, NobodyAsks;
  }

  lemma AfterNext(s: State, run: seq<Turn>, m: nat)
    requires m < |run|
    ensures After(s, run[..m + 1]) == Step(After(s, run[..m]), run[m])
  {
    assert run[..m + 1][..m] == run[..m];
  }

  lemma EnabledThread(s: State, t: Turn)
    requires Enabled(s, t)
    ensures t.thread < |s.threads|
  {
  }

  /** From its take to its next the thread holds no other id. */
  lemma {:induction false} HeldSinceTake(signal: Signal, n: nat, run: seq<Turn>, i: nat, k: nat, m: nat)
    requires signal != Traces && Takes(Start(signal, n), run) < TWO64 - 1
    requires TakesFor(Start(signal, n), run, i, k) && i < m <= k
    ensures HoldsOnly(After(Start(signal, n), run[..m]), run[k].thread, After(Start(signal, n), run[..i]).nextId)
    decreases m
  {
    hide Step, Start, Enabled, Takes, Fresh, SlotIds;
    var z := Start(signal, n);
    var s := After(z, run[..m - 1]);
    TakesPrefix(z, run, m - 1);
    RunsNumber(signal, n, run[..m - 1]);
    AfterNext(z, run, m - 1);
    if m == i + 1 {
      EnabledThread(s, run[i]);
      TakeHolds(s, run[i]);
    } else {
      HeldSinceTake(signal, n, run, i, k, m - 1);
      IdsComeFromTakes(s, run[m - 1], run[k].thread);
    }
  }

  /** A thread that holds an id has taken one. */
  lemma {:induction false} HasTaken(signal: Signal, n: nat, run: seq<Turn>, k: nat, m: nat) returns (i: nat)
    requires signal != Traces && m <= k < |run| && run[k].thread < |After(Start(signal, n), run[..m]).threads|
    requires HasId(After(Start(signal, n), run[..m]).threads[run[k].thread])
    requires forall j :: m <= j < k && run[j].thread == run[k].thread ==> !TakesAt(Start(signal, n), run, j)
    ensures TakesFor(Start(signal, n), run, i, k)
    decreases m
  {
    hide Step, Enabled;
    var z, t := Start(signal, n), run[k].thread;
    RunsSame(signal, n, run[..m]);
    if m > 0 {
      RunsSame(signal, n, run[..m - 1]);
      AfterNext(z, run, m - 1);
      if TakesAt(z, run, m - 1) && run[m - 1].thread == t {
        i := m - 1;
      } else {
        IdsComeFromTakes(After(z, run[..m - 1]), run[m - 1], t);
        i := HasTaken(signal, n, run, k, m - 1);
      }
    }
  }

  lemma TakeCounts(s: State, run: seq<Turn>, i: nat)
    requires TakesAt(s, run, i)
    ensures Takes(s, run[..i + 1]) == Takes(s, run[..i]) + 1
  {
    assert run[..i + 1][..i] == run[..i];
    hide After, Enabled;
  }

  /** A later take gets a larger id. */
  lemma CounterRises(signal: Signal, n: nat, run: seq<Turn>, i: nat, j: nat)
    requires signal != Traces && Takes(Start(signal, n), run) < TWO64 - 1 && i <= j <= |run|
    ensures var z := Start(signal, n);
      After(z, run[..i]).nextId + (if i < j && TakesAt(z, run, i) then 1 else 0) <= After(z, run[..j]).nextId
  {
    hide After, Start, Enabled, Takes, TakesAt, Numbered;
    var z := Start(signal, n);
    TakesPrefix(z, run, i);
    TakesPrefix(z, run, j);
    RunsNumber(signal, n, run[..i]);
    RunsNumber(signal, n, run[..j]);
    assert run[..j][..i] == run[..i];
    TakesPrefix(z, run[..j], i);
    if i < j && TakesAt(z, run, i) {
      assert run[..j][..i + 1] == run[..i + 1];
      TakesPrefix(z, run[..j], i + 1);
      TakeCounts(z, run, i);
    }
  }

  /** The id that is written was taken by the writing thread's last take. */
  lemma WrittenAsTaken(signal: Signal, n: nat, run: seq<Turn>, i: nat, k: nat, id: nat)
    requires signal != Traces && Takes(Start(signal, n), run) < TWO64 - 1
    requires TakesFor(Start(signal, n), run, i, k) && Installs(Start(signal, n), run, k, id)
    ensures id == After(Start(signal, n), run[..i]).nextId
  {
    HeldSinceTake(signal, n, run, i, k, k);
    hide After, Start, Enabled, Takes, TakesFor;
  }

  lemma WasTaken(signal: Signal, n: nat, run: seq<Turn>, k: nat, id: nat) returns (i: nat)
    requires signal != Traces && Installs(Start(signal, n), run, k, id)
    ensures TakesFor(Start(signal, n), run, i, k)
  {
    RunsSame(signal, n, run[..k]);
    EnabledThread(After(Start(signal, n), run[..k]), run[k]);
    hide After, Start, Enabled, TakesFor;
    i := HasTaken(signal, n, run, k, k);
  }

  /** Of two installations the one with the smaller id is the one whose thread took its id
      first, whichever wrote first; every installation has such a take. */
  lemma IdsFollowTakes(signal: Signal, n: nat, run: seq<Turn>, k: nat, l: nat, a: nat, b: nat)
    requires signal != Traces && Takes(Start(signal, n), run) < TWO64 - 1
    requires Installs(Start(signal, n), run, k, a) && Installs(Start(signal, n), run, l, b)
    ensures var z := Start(signal, n);
      && (exists i: nat :: TakesFor(z, run, i, k)) && (exists j: nat :: TakesFor(z, run, j, l))
      && forall i: nat, j: nat :: TakesFor(z, run, i, k) && TakesFor(z, run, j, l) ==> (a < b <==> i < j)
  {
    var z := Start(signal, n);
    var i0 := WasTaken(signal, n, run, k, a);
    var j0 := WasTaken(signal, n, run, l, b);
    forall i: nat, j: nat | TakesFor(z, run, i, k) && TakesFor(z, run, j, l) ensures a < b <==> i < j {
      WrittenAsTaken(signal, n, run, i, k, a);
      WrittenAsTaken(signal, n, run, j, l, b);
      if i < j { CounterRises(signal, n, run, i, j); } else { CounterRises(signal, n, run, j, i); }
      hide After, Start, Enabled, Takes, Installs;
    }
  }

  /** No thread has taken an id that it has not written. */
  predicate NothingUnwritten(s: State) { forall i :: 0 <= i < |s.threads| ==> !HasId(s.threads[i]) }

  /** Ids held are at least `floor`. */
  predicate HeldFrom(s: State, floor: nat) {
    forall i :: 0 <= i < |s.threads| && HasId(s.threads[i]) ==> s.threads[i].id >= floor
  }

  lemma StepHeldFrom(s: State, t: Turn, floor: nat)
    requires s.signal != Traces && HeldFrom(s, floor) && 1 <= floor <= s.nextId
    ensures HeldFrom(Step(s, t), floor)
  {
    var u := Step(s, t);
    SameThreads(s, t);
    forall i | 0 <= i < |u.threads| && HasId(u.threads[i]) ensures u.threads[i].id >= floor {
      if Enabled(s, t) && t.action.TakeId? && t.thread == i {
        TakeHolds(s, t);
      } else {
        IdsComeFromTakes(s, t, i);
      }
      hide Step, Enabled;
    }
  }

  lemma {:induction false} LaterHeldFrom(signal: Signal, n: nat, run: seq<Turn>, m: nat, l: nat)
    requires signal != Traces && Takes(Start(signal, n), run) < TWO64 - 1 && m <= l <= |run|
    requires NothingUnwritten(After(Start(signal, n), run[..m]))
    ensures HeldFrom(After(Start(signal, n), run[..l]), After(Start(signal, n), run[..m]).nextId)
    decreases l
  {
    hide Step, Start, Takes, Fresh, SlotIds;
    if m < l {
      var z := Start(signal, n);
      TakesPrefix(z, run, m);
      RunsNumber(signal, n, run[..m]);
      LaterHeldFrom(signal, n, run, m, l - 1);
      CounterRises(signal, n, run, m, l - 1);
      RunsSame(signal, n, run[..l - 1]);
      AfterNext(z, run, l - 1);
      StepHeldFrom(After(z, run[..l - 1]), run[l - 1], After(z, run[..m]).nextId);
    }
  }

  /** What is written is an id held, not yet written. */
  lemma WritesHeld(s: State, run: seq<Turn>, l: nat, id: nat, floor: nat)
    requires Installs(s, run, l, id) && Fresh(After(s, run[..l])) && HeldFrom(After(s, run[..l]), floor)
    ensures floor <= id && id !in After(s, run[..l]).installed
  {
    EnabledThread(After(s, run[..l]), run[l]);
    hide After, Enabled;
  }

  lemma WrittenBefore(signal: Signal, n: nat, run: seq<Turn>, k: nat, m: nat, id: nat)
    requires signal != Traces && Takes(Start(signal, n), run) < TWO64 - 1 && k < m <= |run|
    requires Installs(Start(signal, n), run, k, id)
    ensures Numbered(After(Start(signal, n), run[..m])) && id in After(Start(signal, n), run[..m]).installed
  {
    TakesPrefix(Start(signal, n), run, m);
    RunsNumber(signal, n, run[..m]);
    assert run[..m][..k] == run[..k] && run[..m][k] == run[k];
    BearsWhileUntouched(signal, n, run[..m], k, id);
    hide After, Start, Takes, Untouched, Numbered;
  }

  /** Across any moment at which no taken id is unwritten, ids rise: every installation
      after it has a larger id than every installation before it. */
  lemma RiseAcrossRest(signal: Signal, n: nat, run: seq<Turn>, m: nat, k: nat, l: nat, a: nat, b: nat)
    requires signal != Traces && Takes(Start(signal, n), run) < TWO64 - 1 && k < m <= l
    requires Installs(Start(signal, n), run, k, a) && Installs(Start(signal, n), run, l, b)
    requires NothingUnwritten(After(Start(signal, n), run[..m]))
    ensures a < b
  {
    assert l < |run|;
    hide After, Start, Takes, Installs, Enabled, NothingUnwritten, TakesFor;
    LaterHeldFrom(signal, n, run, m, l);
    WrittenBefore(signal, n, run, k, m, a);
    WrittenBefore(signal, n, run, k, l, a);
    WritesHeld(Start(signal, n), run, l, b, After(Start(signal, n), run[..m]).nextId);
  }

  /** A registration that takes its id while no other thread holds one unwritten is followed
      only by larger ids. */
  lemma RiseWhenAlone(signal: Signal, n: nat, run: seq<Turn>, i: nat, k: nat, l: nat, a: nat, b: nat)
    requires signal != Traces && Takes(Start(signal, n), run) < TWO64 - 1 && k < l
    requires Installs(Start(signal, n), run, k, a) && Installs(Start(signal, n), run, l, b)
    requires TakesFor(Start(signal, n), run, i, k) && NothingUnwritten(After(Start(signal, n), run[..i]))
    ensures a < b
  {
    assert i < k && l < |run|;
    hide After, Start, Takes, Installs, Enabled, NothingUnwritten, TakesFor;
    WrittenAsTaken(signal, n, run, i, k, a);
    LaterHeldFrom(signal, n, run, i, l);
    WrittenBefore(signal, n, run, k, l, a);
    WritesHeld(Start(signal, n), run, l, b, a);
  }

  // ----- ids in the slot need not rise -----

  lemma Then(z: State, run: seq<Turn>, s: State, t: Turn, u: State)
    requires After(z, run) == s && Step(s, t) == u
    ensures After(z, run + [t]) == u
  {
    assert (run + [t])[..|run|] == run;
    hide Step;
  }

  /** Two registrations take their ids, then the second writes first. */
  function SecondFirst(): seq<Turn> {
    BothTake() + [Turn(1, LockToWrite)] + [Turn(1, Swap)]
  }

  function BothTake(): seq<Turn> {
    [] + [Turn(0, Create)] + [Turn(0, Create)] + [Turn(0, Register(0, Compatible))] +
    [Turn(1, Register(1, Compatible))] + [Turn(0, TakeId)] + [Turn(1, TakeId)]
  }

  function FirstAfterwards(): seq<Turn> {
    SecondFirst() + [Turn(1, Unlock)] + [Turn(1, Free)] + [Turn(0, LockToWrite)] + [Turn(0, Swap)]
  }

  /** Two threads, no handles, no call through a vtable yet. */
  function Pair(slot: Slot, nextId: nat, installed: set<nat>, refs: seq<nat>, owned: seq<nat>, a: Pc, b: Pc): State {
    State(Logs, slot, nextId, installed, refs, owned, [], [], [a, b])
  }

  lemma BothTaken(z: State)
    requires z == Pair(Slot(None, 0), 1, {}, [], [], Idle, Idle)
    ensures After(z, BothTake()) == Pair(Slot(None, 0), 3, {}, [1, 1], [0, 0], Ready(0, 1), Ready(1, 2))
  {
    var none := Slot(None, 0);
    var s1 := Pair(none, 1, {}, [1], [1], Idle, Idle);
    var s2 := Pair(none, 1, {}, [1, 1], [1, 1], Idle, Idle);
    var s3 := Pair(none, 1, {}, [1, 1], [0, 1], Registering(0), Idle);
    var s4 := Pair(none, 1, {}, [1, 1], [0, 0], Registering(0), Registering(1));
    var s5 := Pair(none, 2, {}, [1, 1], [0, 0], Ready(0, 1), Registering(1));
    var s6 := Pair(none, 3, {}, [1, 1], [0, 0], Ready(0, 1), Ready(1, 2));
    assert Step(z, Turn(0, Create)) == s1;
    assert Step(s1, Turn(0, Create)) == s2;
    assert Step(s2, Turn(0, Register(0, Compatible))) == s3;
    assert Step(s3, Turn(1, Register(1, Compatible))) == s4;
    assert Step(s4, Turn(0, TakeId)) == s5;
    assert Step(s5, Turn(1, TakeId)) == s6;
    assert After(z, []) == z;
    hide Step, After;
    var run: seq<Turn> := [];
    Then(z, run, z, Turn(0, Create), s1);
    run := run + [Turn(0, Create)];
    Then(z, run, s1, Turn(0, Create), s2);
    run := run + [Turn(0, Create)];
    Then(z, run, s2, Turn(0, Register(0, Compatible)), s3);
    run := run + [Turn(0, Register(0, Compatible))];
    Then(z, run, s3, Turn(1, Register(1, Compatible)), s4);
    run := run + [Turn(1, Register(1, Compatible))];
    Then(z, run, s4, Turn(0, TakeId), s5);
    run := run + [Turn(0, TakeId)];
    Then(z, run, s5, Turn(1, TakeId), s6);
  }

  lemma SecondWrites(z: State)
    requires z == Pair(Slot(None, 0), 1, {}, [], [], Idle, Idle)
    ensures After(z, SecondFirst()) == Pair(Slot(Some(1), 2), 3, {2}, [1, 1], [0, 0], Ready(0, 1), Replaced(None, 2))
  {
    var none := Slot(None, 0);
    var s6 := Pair(none, 3, {}, [1, 1], [0, 0], Ready(0, 1), Ready(1, 2));
    var s7 := Pair(none, 3, {}, [1, 1], [0, 0], Ready(0, 1), Writing(1, 2));
    var s8 := Pair(Slot(Some(1), 2), 3, {2}, [1, 1], [0, 0], Ready(0, 1), Replaced(None, 2));
    assert Step(s6, Turn(1, LockToWrite)) == s7;
    assert Step(s7, Turn(1, Swap)) == s8;
    hide Step, After;
    BothTaken(z);
    Then(z, BothTake(), s6, Turn(1, LockToWrite), s7);
    Then(z, BothTake() + [Turn(1, LockToWrite)], s7, Turn(1, Swap), s8);
  }

  lemma FirstWrites(z: State, run: seq<Turn>)
    requires After(z, run) == Pair(Slot(Some(1), 2), 3, {2}, [1, 1], [0, 0], Ready(0, 1), Replaced(None, 2))
    ensures After(z, run + [Turn(1, Unlock)] + [Turn(1, Free)] + [Turn(0, LockToWrite)] + [Turn(0, Swap)]).slot ==
      Slot(Some(0), 1)
  {
    var slot := Slot(Some(1), 2);
    var s8 := Pair(slot, 3, {2}, [1, 1], [0, 0], Ready(0, 1), Replaced(None, 2));
    var s9 := Pair(slot, 3, {2}, [1, 1], [0, 0], Ready(0, 1), Freeing(None, 2));
    var s10 := Pair(slot, 3, {2}, [1, 1], [0, 0], Ready(0, 1), Idle);
    var s11 := Pair(slot, 3, {2}, [1, 1], [0, 0], Writing(0, 1), Idle);
    var s12 := Pair(Slot(Some(0), 1), 3, {2} + {1}, [1, 1], [0, 0], Replaced(Some(1), 1), Idle);
    hide After;
    assert Step(s8, Turn(1, Unlock)) == s9;
    assert Step(s9, Turn(1, Free)) == s10;
    assert Step(s10, Turn(0, LockToWrite)) == s11;
    assert Step(s11, Turn(0, Swap)) == s12;
    hide Step;
    var run1 := run + [Turn(1, Unlock)];
    var run2 := run1 + [Turn(1, Free)];
    var run3 := run2 + [Turn(0, LockToWrite)];
    Then(z, run, s8, Turn(1, Unlock), s9);
    Then(z, run1, s9, Turn(1, Free), s10);
    Then(z, run2, s10, Turn(0, LockToWrite), s11);
    Then(z, run3, s11, Turn(0, Swap), s12);
  }

  /** Ids in the slot need not rise: here 2 is followed by 1. */
  lemma IdsNeedNotRise()
    ensures var z := Start(Logs, 2);
      After(z, SecondFirst()).slot == Slot(Some(1), 2) && After(z, FirstAfterwards()).slot == Slot(Some(0), 1)
  {
    var z := Start(Logs, 2);
    assert z.threads == [Idle, Idle];
    hide Step, After, SecondFirst;
    SecondWrites(z);
    FirstWrites(z, SecondFirst());
  }
}
