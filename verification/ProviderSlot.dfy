/** The process-global provider slot of one signal, as steps of any number of threads.

    Every atomic access, lock operation and call through the vtable is one step; a thread's
    place in its call is its `Pc`. Providers and handles are numbered as they are made. */
module ProviderSlot {
  import opened Bytes
  import opened Outcome

  const TWO64: nat := 0x1_0000_0000_0000_0000

  /** The trace slot is the same protocol without registration ids and without unregistering. */
  datatype Signal = Traces | Metrics | Logs

  /** No provider stands for a NULL vtable. */
  datatype Slot = Slot(provider: Option<nat>, id: nat)

  datatype Vtable = Null | Incompatible | Compatible

  datatype Pc =
    | Idle
    // registering: the caller's reference is in the hands of the call
    | Registering(p: nat)
    | Ready(p: nat, id: nat)
    | Writing(p: nat, id: nat)
    // unregistering
    | Unregistering(token: nat)
    | Clearing(token: nat)
    // write lock still held, previous occupant taken out
    | Replaced(previous: Option<nat>, result: nat)
    // no lock held, one reference about to be freed
    | Freeing(previous: Option<nat>, result: nat)
    // resolving the global provider under the read lock
    | Looking
    | Retaining(p: nat)
    | Leaving(got: Option<nat>)
    // calling into a provider, with a reference of its own or through a backed handle
    | Using(p: nat)
    | Asking(h: nat)

  /** What the slot and the handles call through a provider's vtable. */
  datatype VtableCall = Retains(p: nat, ok: bool) | Uses(p: nat) | Asks(p: nat) | Frees(p: nat)

  datatype Event = Event(thread: nat, call: VtableCall)

  datatype State = State(
    signal: Signal,
    slot: Slot,
    nextId: nat,
    installed: set<nat>,        // ids that have ever been written to the slot
    refs: seq<nat>,             // reference count of every provider
    owned: seq<nat>,            // references the callers of the API hold
    handles: seq<Option<nat>>,  // backed handles: the provider owned, or destroyed
    log: seq<Event>,            // calls through vtables
    threads: seq<Pc>)

  datatype Action =
    | Create | Share(p: nat) | Drop(p: nat)
    | Register(p: nat, vtable: Vtable) | TakeId | LockToWrite | Swap | Unlock | Free
    | Unregister(token: nat)
    | LockToRead | Look | Retain(ok: bool) | Leave | Use
    | NewHandle(p: nat, vtable: Vtable) | Ask(h: nat) | Answer | Destroy(h: nat)

  datatype Turn = Turn(thread: nat, action: Action)

  predicate HoldsWrite(pc: Pc) { pc.Writing? || pc.Clearing? || pc.Replaced? }

  predicate HoldsRead(pc: Pc) { pc.Looking? || pc.Retaining? || pc.Leaving? }

  predicate NoWriter(s: State) { forall i :: 0 <= i < |s.threads| ==> !HoldsWrite(s.threads[i]) }

  predicate NoReader(s: State) { forall i :: 0 <= i < |s.threads| ==> !HoldsRead(s.threads[i]) }

  predicate NobodyAsks(s: State, h: nat) { forall i :: 0 <= i < |s.threads| ==> s.threads[i] != Asking(h) }

  /** When a thread may take a step: its place allows it, the lock is free, the caller keeps
      the ownership contract. */
  predicate Enabled(s: State, t: Turn) {
    t.thread < |s.threads| &&
    var pc := s.threads[t.thread];
    match t.action
    case Create => pc.Idle?
    case Share(p) => pc.Idle? && Owns(s, p)
    case Drop(p) => pc.Idle? && Owns(s, p)
    case Register(p, _) => pc.Idle? && Owns(s, p)
    case TakeId => pc.Registering? && s.signal != Traces
    case LockToWrite =>
      (pc.Ready? || pc.Unregistering? || (pc.Registering? && s.signal == Traces)) && NoWriter(s) && NoReader(s)
    case Swap => pc.Writing? || pc.Clearing?
    case Unlock => pc.Replaced?
    case Free => pc.Freeing?
    case Unregister(token) => pc.Idle? && s.signal != Traces
    case LockToRead => pc.Idle? && NoWriter(s)
    case Look => pc.Looking?
    case Retain(_) => pc.Retaining?
    case Leave => pc.Leaving?
    case Use => pc.Using?
    case NewHandle(p, _) => pc.Idle? && Owns(s, p)
    case Ask(h) => pc.Idle? && h < |s.handles| && s.handles[h].Some?
    case Answer => pc.Asking?
    case Destroy(h) => pc.Idle? && h < |s.handles| && s.handles[h].Some? && NobodyAsks(s, h)
  }

  predicate Owns(s: State, p: nat) { p < |s.owned| && s.owned[p] > 0 }

  function Increased(ns: seq<nat>, p: nat): seq<nat> { if p < |ns| then ns[p := ns[p] + 1] else ns }

  function Decreased(ns: seq<nat>, p: nat): seq<nat> { if p < |ns| && ns[p] > 0 then ns[p := ns[p] - 1] else ns }

  function Freed(s: State, p: Option<nat>): seq<nat> { if p.Some? then Decreased(s.refs, p.value) else s.refs }

  function Goes(s: State, i: nat, pc: Pc): State
    requires i < |s.threads|
  {
    s.(threads := s.threads[i := pc])
  }

  function Perform(s: State, t: Turn): State
    requires Enabled(s, t)
  {
    var i := t.thread;
    var pc := s.threads[i];
    match t.action
    // the callers' side of the reference-counting contract
    case Create => s.(refs := s.refs + [1], owned := s.owned + [1])
    case Share(p) => s.(refs := Increased(s.refs, p), owned := Increased(s.owned, p))
    case Drop(p) => s.(refs := Decreased(s.refs, p), owned := Decreased(s.owned, p))
    // install: nothing is taken unless the vtable is accepted
    case Register(p, vtable) =>
      if vtable != Compatible then s
      else Goes(s.(owned := Decreased(s.owned, p)), i, Registering(p))
    case TakeId =>
      // `fetch_add`, again if it gave zero
      Goes(s.(nextId := (s.nextId + 1) % TWO64), i, if s.nextId == 0 then pc else Ready(pc.p, s.nextId))
    case LockToWrite =>
      if pc.Ready? then Goes(s, i, Writing(pc.p, pc.id))
      else if pc.Registering? then Goes(s, i, Writing(pc.p, 0))
      else Goes(s, i, Clearing(pc.token))
    case Swap =>
      if pc.Writing? then
        Goes(s.(slot := Slot(Some(pc.p), pc.id), installed := s.installed + {pc.id}), i,
          Replaced(s.slot.provider, pc.id))
      else if s.slot.id == pc.token then
        Goes(s.(slot := Slot(None, 0)), i, Replaced(s.slot.provider, 0))
      else Goes(s, i, Replaced(None, 0))
    case Unlock => Goes(s, i, Freeing(pc.previous, pc.result))
    case Free => Goes(s.(refs := Freed(s, pc.previous)), i, Idle)
    // zero is refused before the slot is looked at
    case Unregister(token) => if token == 0 then s else Goes(s, i, Unregistering(token))
    // resolve, use, release
    case LockToRead => Goes(s, i, Looking)
    case Look => Goes(s, i, if s.slot.provider.None? then Leaving(None) else Retaining(s.slot.provider.value))
    case Retain(ok) =>
      if ok then Goes(s.(refs := Increased(s.refs, pc.p)), i, Leaving(Some(pc.p)))
      else Goes(s, i, Leaving(None))
    case Leave => Goes(s, i, if pc.got.Some? then Using(pc.got.value) else Idle)
    case Use => Goes(s, i, Freeing(Some(pc.p), 0))
    // backed handles
    case NewHandle(p, vtable) =>
      if vtable != Compatible then s
      else s.(owned := Decreased(s.owned, p), handles := s.handles + [Some(p)])
    case Ask(h) => Goes(s, i, Asking(h))
    case Answer => Goes(s, i, Idle)
    case Destroy(h) => s.(refs := Freed(s, s.handles[h]), handles := s.handles[h := None])
  }

  /** The call through a vtable that a step makes, if any. */
  function Noted(s: State, t: Turn): seq<Event>
    requires Enabled(s, t)
  {
    var i := t.thread;
    var pc := s.threads[i];
    match t.action
    case Retain(ok) => [Event(i, Retains(pc.p, ok))]
    case Use => [Event(i, Uses(pc.p))]
    case Free => if pc.previous.Some? then [Event(i, Frees(pc.previous.value))] else []
    case Answer => if pc.h < |s.handles| && s.handles[pc.h].Some? then [Event(i, Asks(s.handles[pc.h].value))] else []
    case Destroy(h) => [Event(i, Frees(s.handles[h].value))]
    case _ => []
  }

  /** A turn that is not enabled does not happen. */
  function Step(s: State, t: Turn): State {
    if !Enabled(s, t) then s
    else if Noted(s, t) == [] then Perform(s, t)
    else Perform(s, t).(log := s.log + Noted(s, t))
  }

  function Start(signal: Signal, n: nat): State {
    State(signal, Slot(None, 0), 1, {}, [], [], [], [], seq(n, _ => Idle))
  }

  function After(s: State, run: seq<Turn>): State {
    if run == [] then s else Step(After(s, run[..|run| - 1]), run[|run| - 1])
  }

  // ----- who holds references -----

  function Is(o: Option<nat>, p: nat): nat { if o == Some(p) then 1 else 0 }

  /** References to `p` in the hands of a running call. */
  function InHand(pc: Pc, p: nat): nat {
    match pc
    case Registering(q) => Is(Some(q), p)
    case Ready(q, _) => Is(Some(q), p)
    case Writing(q, _) => Is(Some(q), p)
    case Replaced(q, _) => Is(q, p)
    case Freeing(q, _) => Is(q, p)
    case Leaving(q) => Is(q, p)
    case Using(q) => Is(Some(q), p)
    case _ => 0
  }

  function InHands(pcs: seq<Pc>, p: nat): nat {
    if pcs == [] then 0 else InHands(pcs[..|pcs| - 1], p) + InHand(pcs[|pcs| - 1], p)
  }

  function InHandles(hs: seq<Option<nat>>, p: nat): nat {
    if hs == [] then 0 else InHandles(hs[..|hs| - 1], p) + Is(hs[|hs| - 1], p)
  }

  function At(ns: seq<nat>, p: nat): nat { if p < |ns| then ns[p] else 0 }

  function Held(s: State, p: nat): nat {
    At(s.owned, p) + Is(s.slot.provider, p) + InHands(s.threads, p) + InHandles(s.handles, p)
  }

  lemma {:induction false} InHandsUpdate(pcs: seq<Pc>, i: nat, pc: Pc, p: nat)
    requires i < |pcs|
    ensures InHands(pcs[i := pc], p) + InHand(pcs[i], p) == InHands(pcs, p) + InHand(pc, p)
    ensures InHands(pcs, p) >= InHand(pcs[i], p)
  {
    var m := |pcs| - 1;
    if i < m {
      InHandsUpdate(pcs[..m], i, pc, p);
      assert pcs[i := pc][..m] == pcs[..m][i := pc];
    } else {
      assert pcs[i := pc][..m] == pcs[..m];
    }
  }

  lemma {:induction false} InHandlesUpdate(hs: seq<Option<nat>>, h: nat, o: Option<nat>, p: nat)
    requires h < |hs|
    ensures InHandles(hs[h := o], p) + Is(hs[h], p) == InHandles(hs, p) + Is(o, p)
    ensures InHandles(hs, p) >= Is(hs[h], p)
  {
    var m := |hs| - 1;
    if h < m {
      InHandlesUpdate(hs[..m], h, o, p);
      assert hs[h := o][..m] == hs[..m][h := o];
    } else {
      assert hs[h := o][..m] == hs[..m];
    }
  }

  lemma InHandlesPush(hs: seq<Option<nat>>, o: Option<nat>, p: nat)
    ensures InHandles(hs + [o], p) == InHandles(hs, p) + Is(o, p)
  {
    assert (hs + [o])[..|hs|] == hs;
  }

  // ----- the lock -----

  ghost predicate Exclusive(s: State) {
    forall i, j :: 0 <= i < |s.threads| && 0 <= j < |s.threads| && i != j && HoldsWrite(s.threads[i]) ==>
      !HoldsWrite(s.threads[j]) && !HoldsRead(s.threads[j])
  }

  /** A provider seen under the read lock is still the one in the slot. */
  ghost predicate Steady(s: State) {
    forall i :: 0 <= i < |s.threads| && s.threads[i].Retaining? ==> s.slot.provider == Some(s.threads[i].p)
  }

  /** A handle in use is not destroyed. */
  ghost predicate HandlesLive(s: State) {
    forall i :: 0 <= i < |s.threads| && s.threads[i].Asking? ==>
      s.threads[i].h < |s.handles| && s.handles[s.threads[i].h].Some?
  }

  ghost predicate Locked(s: State) { Exclusive(s) && Steady(s) && HandlesLive(s) && |s.owned| == |s.refs| }

  ghost predicate Conserved(s: State) { forall p: nat :: At(s.refs, p) == Held(s, p) }

  // ----- every step -----

  lemma StepLocked(s: State, t: Turn)
    requires Locked(s)
    ensures Locked(Step(s, t))
  {
    if Enabled(s, t) {
      StepExclusive(s, t);
      StepSteady(s, t);
      StepHandles(s, t);
    }
  }

  lemma StepExclusive(s: State, t: Turn)
    requires Exclusive(s) && Enabled(s, t)
    ensures Exclusive(Perform(s, t))
  {
  }

  lemma StepSteady(s: State, t: Turn)
    requires Exclusive(s) && Steady(s) && Enabled(s, t)
    ensures Steady(Perform(s, t))
  {
  }

  lemma StepHandles(s: State, t: Turn)
    requires HandlesLive(s) && Enabled(s, t)
    ensures HandlesLive(Perform(s, t))
  {
  }

  lemma IncreasedAt(ns: seq<nat>, q: nat, p: nat)
    requires q < |ns|
    ensures At(Increased(ns, q), p) == At(ns, p) + Is(Some(q), p)
  {
  }

  lemma DecreasedAt(ns: seq<nat>, q: nat, p: nat)
    requires At(ns, q) > 0
    ensures At(Decreased(ns, q), p) + Is(Some(q), p) == At(ns, p)
  {
  }

  lemma PushedAt(ns: seq<nat>, p: nat)
    ensures At(ns + [1], p) == At(ns, p) + Is(Some(|ns|), p)
  {
  }

  /** Moving thread `i` on changes what is in hand by what its place holds. */
  lemma GoesHeld(s: State, i: nat, pc: Pc, p: nat)
    requires i < |s.threads|
    ensures Held(Goes(s, i, pc), p) + InHand(s.threads[i], p) == Held(s, p) + InHand(pc, p)
    ensures Held(s, p) >= InHand(s.threads[i], p)
    ensures Goes(s, i, pc).refs == s.refs
  {
    InHandsUpdate(s.threads, i, pc, p);
  }

  /** One reference to `q` is there to be freed. */
  lemma FreeHeld(s: State, q: nat, p: nat)
    requires Conserved(s) && Held(s, q) > 0
    ensures At(Decreased(s.refs, q), p) + Is(Some(q), p) == At(s.refs, p)
  {
    assert At(s.refs, q) == Held(s, q);
    DecreasedAt(s.refs, q, p);
  }

  lemma CallersConserve(s: State, t: Turn, p: nat)
    requires Locked(s) && Conserved(s) && Enabled(s, t)
    requires t.action.Create? || t.action.Share? || t.action.Drop?
    ensures At(Perform(s, t).refs, p) == Held(Perform(s, t), p)
  {
    assert At(s.refs, p) == Held(s, p);
    hide InHands, InHandles, Increased, Decreased;
    match t.action {
      case Create =>
        PushedAt(s.refs, p);
        PushedAt(s.owned, p);
      case Share(q) =>
        IncreasedAt(s.refs, q, p);
        IncreasedAt(s.owned, q, p);
      case Drop(q) =>
        DecreasedAt(s.owned, q, p);
        assert Held(s, q) > 0;
        FreeHeld(s, q, p);
    }
  }

  lemma HandlesConserve(s: State, t: Turn, p: nat)
    requires Locked(s) && Conserved(s) && Enabled(s, t)
    requires t.action.NewHandle? || t.action.Destroy?
    ensures At(Perform(s, t).refs, p) == Held(Perform(s, t), p)
  {
    assert At(s.refs, p) == Held(s, p);
    hide InHands, InHandles, Decreased;
    match t.action {
      case NewHandle(q, _) =>
        DecreasedAt(s.owned, q, p);
        InHandlesPush(s.handles, Some(q), p);
      case Destroy(h) =>
        var q := s.handles[h].value;
        InHandlesUpdate(s.handles, h, None, p);
        InHandlesUpdate(s.handles, h, None, q);
        FreeHeld(s, q, p);
    }
  }

  /** Steps that move a thread on and pass along what it holds. */
  predicate Quiet(a: Action) {
    || a.LockToRead? || a.Look? || a.Leave? || a.Use? || a.Ask? || a.Answer?
    || a.TakeId? || a.LockToWrite? || a.Unlock? || a.Unregister?
  }

  lemma QuietMove(s: State, t: Turn, p: nat)
    requires Enabled(s, t) && Quiet(t.action)
    ensures Perform(s, t).threads == s.threads[t.thread := Perform(s, t).threads[t.thread]]
    ensures InHand(Perform(s, t).threads[t.thread], p) == InHand(s.threads[t.thread], p)
    ensures Perform(s, t).refs == s.refs && Perform(s, t).owned == s.owned
    ensures Perform(s, t).slot == s.slot && Perform(s, t).handles == s.handles
  {
    hide NoWriter, NoReader, NobodyAsks;
  }

  lemma QuietConserves(s: State, t: Turn, p: nat)
    requires Conserved(s) && Enabled(s, t) && Quiet(t.action)
    ensures At(Perform(s, t).refs, p) == Held(Perform(s, t), p)
  {
    assert At(s.refs, p) == Held(s, p);
    QuietMove(s, t, p);
    hide At, Enabled, Perform, Conserved, InHand, InHands, InHandles;
    InHandsUpdate(s.threads, t.thread, Perform(s, t).threads[t.thread], p);
  }

  lemma SlotHeld(s: State, p: nat)
    requires Conserved(s) && s.slot.provider == Some(p)
    ensures p < |s.refs| && s.refs[p] > 0
  {
    hide InHands, InHandles;
    assert At(s.refs, p) == Held(s, p) > 0;
  }

  lemma RetainHeld(s: State, p: nat, q: nat)
    ensures Held(s.(refs := Increased(s.refs, p)), q) == Held(s, q)
  {
  }

  /** The provider seen under the lock is alive, so its count can be raised. */
  lemma RetainingConserves(s: State, t: Turn, p: nat)
    requires Locked(s) && Conserved(s) && Enabled(s, t) && t.action.Retain?
    ensures At(Perform(s, t).refs, p) == Held(Perform(s, t), p)
  {
    var i := t.thread;
    var q := s.threads[i].p;
    assert At(s.refs, p) == Held(s, p);
    SlotHeld(s, q);
    IncreasedAt(s.refs, q, p);
    RetainHeld(s, q, p);
    hide Held, At, Locked, Conserved, Increased;
    if t.action.ok {
      GoesHeld(s.(refs := Increased(s.refs, q)), i, Leaving(Some(q)), p);
    } else {
      GoesHeld(s, i, Leaving(None), p);
    }
  }

  lemma RegisterConserves(s: State, t: Turn, p: nat)
    requires Locked(s) && Conserved(s) && Enabled(s, t) && t.action.Register?
    ensures At(Perform(s, t).refs, p) == Held(Perform(s, t), p)
  {
    var q := t.action.p;
    assert At(s.refs, p) == Held(s, p);
    DecreasedAt(s.owned, q, p);
    InHandsUpdate(s.threads, t.thread, Registering(q), p);
    hide At, InHands, InHandles, Decreased, Locked;
  }

  /** The reference of the call goes into the slot, the slot's into the call. */
  lemma SwapConserves(s: State, t: Turn, p: nat)
    requires Conserved(s) && Enabled(s, t) && t.action.Swap?
    ensures At(Perform(s, t).refs, p) == Held(Perform(s, t), p)
  {
    assert At(s.refs, p) == Held(s, p);
    InHandsUpdate(s.threads, t.thread, Perform(s, t).threads[t.thread], p);
    hide At, InHands, InHandles;
  }

  lemma FreeingConserves(s: State, t: Turn, p: nat)
    requires Locked(s) && Conserved(s) && Enabled(s, t) && t.action.Free?
    ensures At(Perform(s, t).refs, p) == Held(Perform(s, t), p)
  {
    var i := t.thread;
    assert At(s.refs, p) == Held(s, p);
    hide InHands, InHandles, Decreased, Locked;
    GoesHeld(s, i, Idle, p);
    var q := s.threads[i].previous;
    if q.Some? {
      GoesHeld(s, i, Idle, q.value);
      FreeHeld(s, q.value, p);
    }
  }

  lemma StepConserves(s: State, t: Turn)
    requires Locked(s) && Conserved(s)
    ensures Conserved(Step(s, t))
  {
    if Enabled(s, t) {
      forall p: nat ensures At(Perform(s, t).refs, p) == Held(Perform(s, t), p) {
        hide Locked, Conserved, Enabled, Perform, Held, At;
        match t.action
        case Create => CallersConserve(s, t, p);
        case Share(_) => CallersConserve(s, t, p);
        case Drop(_) => CallersConserve(s, t, p);
        case NewHandle(_, _) => HandlesConserve(s, t, p);
        case Destroy(_) => HandlesConserve(s, t, p);
        case Register(_, _) => RegisterConserves(s, t, p);
        case Swap => SwapConserves(s, t, p);
        case Free => FreeingConserves(s, t, p);
        case Retain(_) => RetainingConserves(s, t, p);
        case _ => QuietConserves(s, t, p);
      }
    }
  }

  // ----- every run -----

  lemma {:induction false} NothingInHand(n: nat, p: nat)
    ensures InHands(seq(n, _ => Idle), p) == 0
  {
    if n > 0 {
      NothingInHand(n - 1, p);
      assert seq(n, _ => Idle)[..n - 1] == seq(n - 1, _ => Idle);
    }
  }

  lemma StartsWell(signal: Signal, n: nat)
    ensures Locked(Start(signal, n)) && Conserved(Start(signal, n))
  {
    forall p: nat ensures At(Start(signal, n).refs, p) == Held(Start(signal, n), p) {
      NothingInHand(n, p);
    }
  }

  lemma {:induction false} RunsKeep(signal: Signal, n: nat, run: seq<Turn>)
    ensures Locked(After(Start(signal, n), run)) && Conserved(After(Start(signal, n), run))
  {
    hide Locked, Conserved, Step, Start;
    if run == [] {
      StartsWell(signal, n);
    } else {
      var s := After(Start(signal, n), run[..|run| - 1]);
      RunsKeep(signal, n, run[..|run| - 1]);
      StepLocked(s, run[|run| - 1]);
      StepConserves(s, run[|run| - 1]);
    }
  }

  /** In every reachable state a provider's count is the number of references to it: those
      the callers own, the slot's, those of running calls and those of backed handles. */
  lemma ReferencesConserved(signal: Signal, n: nat, run: seq<Turn>, p: nat)
    ensures var s := After(Start(signal, n), run);
      At(s.refs, p) == At(s.owned, p) + Is(s.slot.provider, p) + InHands(s.threads, p) + InHandles(s.handles, p)
  {
    RunsKeep(signal, n, run);
  }

  /** The provider whose vtable a step calls: to retain it, ask it or free it. */
  function Called(s: State, t: Turn): Option<nat>
    requires Enabled(s, t)
  {
    var pc := s.threads[t.thread];
    match t.action
    case Share(p) => Some(p)
    case Drop(p) => Some(p)
    case Retain(_) => Some(pc.p)
    case Use => Some(pc.p)
    case Free => pc.previous
    case Answer => if pc.h < |s.handles| then s.handles[pc.h] else None
    case Destroy(h) => s.handles[h]
    case _ => None
  }

  /** No call ever reaches a provider whose count is zero. */
  lemma NeverCalledDead(signal: Signal, n: nat, run: seq<Turn>, t: Turn, p: nat)
    requires Enabled(After(Start(signal, n), run), t) && Called(After(Start(signal, n), run), t) == Some(p)
    ensures At(After(Start(signal, n), run).refs, p) > 0
  {
    var s := After(Start(signal, n), run);
    RunsKeep(signal, n, run);
    CalledIsHeld(s, t, p);
    hide After, Start, Called;
    assert At(s.refs, p) == Held(s, p);
  }

  lemma CalledIsHeld(s: State, t: Turn, p: nat)
    requires Locked(s) && Enabled(s, t) && Called(s, t) == Some(p)
    ensures Held(s, p) > 0
  {
    var pc := s.threads[t.thread];
    InHandsUpdate(s.threads, t.thread, Idle, p);
    if t.action.Destroy? { InHandlesUpdate(s.handles, t.action.h, None, p); }
    if t.action.Answer? { InHandlesUpdate(s.handles, pc.h, None, p); }
    hide InHands, InHandles, Exclusive;
  }

  /** A provider that has been made and is at zero stays there: nobody can revive it. */
  lemma DeadStaysDead(signal: Signal, n: nat, run: seq<Turn>, t: Turn, p: nat)
    requires var s := After(Start(signal, n), run); p < |s.refs| && s.refs[p] == 0
    ensures var s := After(Start(signal, n), run + [t]); p < |s.refs| && s.refs[p] == 0
  {
    var s := After(Start(signal, n), run);
    assert (run + [t])[..|run|] == run;
    assert After(Start(signal, n), run + [t]) == Step(s, t);
    if Enabled(s, t) && Called(s, t) == Some(p) { NeverCalledDead(signal, n, run, t, p); }
    hide After, Start, Step;
    UncalledStays(s, t, p);
  }

  lemma UncalledStays(s: State, t: Turn, p: nat)
    requires p < |s.refs| && (Enabled(s, t) ==> Called(s, t) != Some(p))
    ensures p < |Step(s, t).refs| && Step(s, t).refs[p] == s.refs[p]
  {
    hide NoWriter, NoReader, NobodyAsks, Noted;
    if Enabled(s, t) && Quiet(t.action) {
      QuietMove(s, t, p);
      hide Perform;
    }
  }

  predicate Refused(a: Action) {
    (a.Register? || a.NewHandle?) && a.vtable != Compatible
  }

  /** Only the refusal of a vtable leaves the caller's reference with the caller; otherwise
      the call takes it. */
  lemma RefusedStaysOwned(s: State, t: Turn)
    requires Enabled(s, t) && (t.action.Register? || t.action.NewHandle?)
    ensures Refused(t.action) <==> Perform(s, t).owned == s.owned
    ensures Refused(t.action) <==> Perform(s, t) == s
  {
    assert Decreased(s.owned, t.action.p)[t.action.p] < s.owned[t.action.p];
  }

  /** A refused registration or handle leaves no trace in any run: whatever all threads do
      before and after it, the outcome is that of the same run without it. */
  lemma {:induction false} RefusedLeavesNoTrace(s: State, before: seq<Turn>, t: Turn, after: seq<Turn>)
    requires Refused(t.action)
    ensures After(s, before + [t] + after) == After(s, before + after)
  {
    if after == [] {
      hide After;
      assert before + [t] + after == before + [t] && before + after == before;
      AfterLast(s, before, t);
      if Enabled(After(s, before), t) { RefusedStaysOwned(After(s, before), t); }
    } else {
      hide After, Step;
      var m := |after| - 1;
      RefusedLeavesNoTrace(s, before, t, after[..m]);
      AfterLast(s, before + [t] + after[..m], after[m]);
      AfterLast(s, before + after[..m], after[m]);
      assert before + [t] + after[..m] + [after[m]] == before + [t] + after;
      assert before + after[..m] + [after[m]] == before + after;
    }
  }

  lemma AfterLast(s: State, run: seq<Turn>, t: Turn)
    ensures After(s, run + [t]) == Step(After(s, run), t)
  {
    assert (run + [t])[..|run|] == run;
  }

  // ----- the code, one call at a time -----

  function Do(s: State, i: nat, a: Action): State { Step(s, Turn(i, a)) }

  /** Whole calls that no other thread interrupts; steps a call skips are not enabled. */
  function WholeInstall(s: State, i: nat, p: nat, vtable: Vtable): State {
    var taken := Do(Do(Do(s, i, Register(p, vtable)), i, TakeId), i, TakeId);
    Do(Do(Do(Do(taken, i, LockToWrite), i, Swap), i, Unlock), i, Free)
  }

  function WholeUnregister(s: State, i: nat, token: nat): State {
    Do(Do(Do(Do(Do(s, i, Unregister(token)), i, LockToWrite), i, Swap), i, Unlock), i, Free)
  }

  function WholeResolve(s: State, i: nat, ok: bool): State {
    Do(Do(Do(Do(Do(Do(s, i, LockToRead), i, Look), i, Retain(ok)), i, Leave), i, Use), i, Free)
  }

  predicate Quiescent(s: State) { forall i :: 0 <= i < |s.threads| ==> s.threads[i].Idle? }

  function NextNonZero(n: nat): nat { if n == 0 then 1 else n }

  /** Freeing what was in the slot. */
  function FreesOf(o: Option<nat>, i: nat): seq<Event> { if o.Some? then [Event(i, Frees(o.value))] else [] }

  /** What an accepted registration makes of a state at rest. */
  function Installed(s: State, i: nat, p: nat): State {
    var id := if s.signal == Traces then 0 else NextNonZero(s.nextId);
    s.(slot := Slot(Some(p), id), installed := s.installed + {id},
       nextId := if s.signal == Traces then s.nextId else (id + 1) % TWO64,
       owned := Decreased(s.owned, p), refs := Freed(s, s.slot.provider),
       log := s.log + FreesOf(s.slot.provider, i))
  }

  function Unregistered(s: State, i: nat, token: nat): State {
    if token != 0 && s.slot.id == token then
      s.(slot := Slot(None, 0), refs := Freed(s, s.slot.provider), log := s.log + FreesOf(s.slot.provider, i))
    else s
  }

  /** The calls of a resolution: nothing for an empty slot, a failed retain, or all three. */
  function Resolves(o: Option<nat>, i: nat, ok: bool): seq<Event> {
    if o.None? then []
    else if !ok then [Event(i, Retains(o.value, false))]
    else [Event(i, Retains(o.value, true)), Event(i, Uses(o.value)), Event(i, Frees(o.value))]
  }

  lemma RestIsUnlocked(s: State, i: nat, pc: Pc)
    requires Quiescent(s) && i < |s.threads| && !HoldsWrite(pc)
    ensures NoWriter(Goes(s, i, pc)) && (!HoldsRead(pc) ==> NoReader(Goes(s, i, pc)))
  {
  }

  lemma TakesAnId(s: State, i: nat, p: nat)
    requires Quiescent(s) && i < |s.threads|
    ensures var r := Goes(s, i, Registering(p));
      Do(Do(Do(r, i, TakeId), i, TakeId), i, LockToWrite) ==
        if s.signal == Traces then Goes(s, i, Writing(p, 0))
        else Goes(s.(nextId := (NextNonZero(s.nextId) + 1) % TWO64), i, Writing(p, NextNonZero(s.nextId)))
  {
    var r := Goes(s, i, Registering(p));
    RestIsUnlocked(s, i, Registering(p));
    if s.signal == Traces {
      hide NoWriter, NoReader;
      assert Do(r, i, TakeId) == r;
      assert Do(r, i, LockToWrite) == Goes(s, i, Writing(p, 0));
    } else {
      var id := NextNonZero(s.nextId);
      var u := s.(nextId := (id + 1) % TWO64);
      RestIsUnlocked(u, i, Ready(p, id));
      hide NoWriter, NoReader;
      var ready := Goes(u, i, Ready(p, id));
      if s.nextId == 0 {
        var again := Goes(s.(nextId := 1), i, Registering(p));
        assert Do(r, i, TakeId) == again;
        assert Do(again, i, TakeId) == ready;
      } else {
        assert Do(r, i, TakeId) == ready;
        assert Do(ready, i, TakeId) == ready;
      }
      assert Do(ready, i, LockToWrite) == Goes(u, i, Writing(p, id));
    }
  }

  lemma WritesAndFrees(s: State, i: nat, pc: Pc)
    requires Quiescent(s) && i < |s.threads| && (pc.Writing? || pc.Clearing?)
    ensures var taken := if pc.Writing? || s.slot.id == pc.token then s.slot.provider else None;
      Do(Do(Do(Goes(s, i, pc), i, Swap), i, Unlock), i, Free) == s.(
        slot := if pc.Writing? then Slot(Some(pc.p), pc.id)
                else if s.slot.id == pc.token then Slot(None, 0) else s.slot,
        installed := if pc.Writing? then s.installed + {pc.id} else s.installed,
        refs := Freed(s, taken), log := s.log + FreesOf(taken, i))
  {
    hide NoWriter, NoReader;
    var taken := if pc.Writing? || s.slot.id == pc.token then s.slot.provider else None;
    var result := if pc.Writing? then pc.id else 0;
    var u := s.(
      slot := if pc.Writing? then Slot(Some(pc.p), pc.id) else if s.slot.id == pc.token then Slot(None, 0) else s.slot,
      installed := if pc.Writing? then s.installed + {pc.id} else s.installed);
    assert Do(Goes(s, i, pc), i, Swap) == Goes(u, i, Replaced(taken, result));
    assert Do(Goes(u, i, Replaced(taken, result)), i, Unlock) == Goes(u, i, Freeing(taken, result));
    assert u.log + FreesOf(taken, i) == s.log + FreesOf(taken, i);
    assert Do(Goes(u, i, Freeing(taken, result)), i, Free) ==
      u.(refs := Freed(s, taken), log := s.log + FreesOf(taken, i));
  }

  lemma RegisterStep(s: State, i: nat, p: nat)
    requires i < |s.threads| && s.threads[i].Idle? && Owns(s, p)
    ensures Do(s, i, Register(p, Compatible)) == Goes(s.(owned := Decreased(s.owned, p)), i, Registering(p))
  {
    hide NoWriter, NoReader;
  }

  lemma AloneInstalls(s: State, i: nat, p: nat)
    requires Quiescent(s) && i < |s.threads| && Owns(s, p)
    ensures WholeInstall(s, i, p, Compatible) == Installed(s, i, p)
  {
    var o := s.(owned := Decreased(s.owned, p));
    RegisterStep(s, i, p);
    TakesAnId(o, i, p);
    hide Do, Decreased, Owns;
    if s.signal == Traces {
      WritesAndFrees(o, i, Writing(p, 0));
    } else {
      WritesAndFrees(o.(nextId := (NextNonZero(s.nextId) + 1) % TWO64), i, Writing(p, NextNonZero(s.nextId)));
    }
  }

  lemma NothingToDo(s: State, i: nat, a: Action)
    requires Quiescent(s) && i < |s.threads|
    requires a.TakeId? || a.LockToWrite? || a.Swap? || a.Unlock? || a.Free?
    ensures Do(s, i, a) == s
  {
  }

  lemma RefusedInstalls(s: State, i: nat, p: nat, vtable: Vtable)
    requires Quiescent(s) && i < |s.threads| && vtable != Compatible
    ensures WholeInstall(s, i, p, vtable) == s
  {
    assert Do(s, i, Register(p, vtable)) == s;
    hide Do, Quiescent;
    NothingToDo(s, i, TakeId);
    NothingToDo(s, i, LockToWrite);
    NothingToDo(s, i, Swap);
    NothingToDo(s, i, Unlock);
    NothingToDo(s, i, Free);
  }

  lemma AloneUnregisters(s: State, i: nat, token: nat)
    requires Quiescent(s) && i < |s.threads| && s.signal != Traces
    ensures WholeUnregister(s, i, token) == Unregistered(s, i, token)
  {
    if token == 0 {
      assert Do(s, i, Unregister(token)) == s;
      hide Do, Quiescent;
      NothingToDo(s, i, LockToWrite);
      NothingToDo(s, i, Swap);
      NothingToDo(s, i, Unlock);
      NothingToDo(s, i, Free);
    } else {
      RestIsUnlocked(s, i, Unregistering(token));
      hide NoWriter, NoReader, Quiescent;
      assert Do(s, i, Unregister(token)) == Goes(s, i, Unregistering(token));
      assert Do(Goes(s, i, Unregistering(token)), i, LockToWrite) == Goes(s, i, Clearing(token));
      hide Do;
      WritesAndFrees(s, i, Clearing(token));
    }
  }

  lemma RetainsAndUses(s: State, i: nat, p: nat)
    requires i < |s.threads|
    ensures Do(Do(Do(Goes(s, i, Retaining(p)), i, Retain(true)), i, Leave), i, Use) ==
      Goes(s.(refs := Increased(s.refs, p), log := s.log + [Event(i, Retains(p, true)), Event(i, Uses(p))]), i,
        Freeing(Some(p), 0))
  {
    hide NoWriter, NoReader, Increased;
    var r, u := Event(i, Retains(p, true)), Event(i, Uses(p));
    var a := s.(refs := Increased(s.refs, p), log := s.log + [r]);
    var b := s.(refs := Increased(s.refs, p), log := s.log + [r, u]);
    assert s.log + [r] + [u] == s.log + [r, u];
    assert Do(Goes(s, i, Retaining(p)), i, Retain(true)) == Goes(a, i, Leaving(Some(p)));
    assert Do(Goes(a, i, Leaving(Some(p))), i, Leave) == Goes(a, i, Using(p));
    assert Do(Goes(a, i, Using(p)), i, Use) == Goes(b, i, Freeing(Some(p), 0));
  }

  /** From the sight of a provider to its release. */
  lemma ResolvesHeld(s: State, i: nat, p: nat)
    requires Quiescent(s) && i < |s.threads| && p < |s.refs|
    ensures Do(Do(Do(Do(Goes(s, i, Retaining(p)), i, Retain(true)), i, Leave), i, Use), i, Free) ==
      s.(log := s.log + Resolves(Some(p), i, true))
  {
    RetainsAndUses(s, i, p);
    Rests(s, i);
    RetainThenFree(s.refs, p);
    var calls := [Event(i, Retains(p, true)), Event(i, Uses(p))];
    assert s.log + calls + [Event(i, Frees(p))] == s.log + Resolves(Some(p), i, true);
    hide NoWriter, NoReader, Quiescent, Increased, Decreased;
  }

  lemma RetainThenFree(ns: seq<nat>, p: nat)
    requires p < |ns|
    ensures Decreased(Increased(ns, p), p) == ns
  {
  }

  lemma Rests(s: State, i: nat)
    requires Quiescent(s) && i < |s.threads|
    ensures s.threads[i := Idle] == s.threads
  {
  }

  /** Resolving, using and releasing leaves every count as it was. */
  lemma AloneResolves(s: State, i: nat, ok: bool)
    requires Quiescent(s) && i < |s.threads| && (s.slot.provider.Some? ==> s.slot.provider.value < |s.refs|)
    ensures WholeResolve(s, i, ok) == s.(log := s.log + Resolves(s.slot.provider, i, ok))
  {
    assert NoWriter(s);
    assert Do(s, i, LockToRead) == Goes(s, i, Looking);
    hide NoWriter, NoReader, Quiescent;
    if s.slot.provider.None? {
      assert Do(Goes(s, i, Looking), i, Look) == Goes(s, i, Leaving(None));
      assert Do(Goes(s, i, Leaving(None)), i, Retain(ok)) == Goes(s, i, Leaving(None));
      Unresolved(s, i);
      assert s.log + [] == s.log;
    } else {
      var p := s.slot.provider.value;
      assert Do(Goes(s, i, Looking), i, Look) == Goes(s, i, Retaining(p));
      if ok {
        ResolvesHeld(s, i, p);
      } else {
        var u := s.(log := s.log + [Event(i, Retains(p, false))]);
        assert Do(Goes(s, i, Retaining(p)), i, Retain(ok)) == Goes(u, i, Leaving(None));
        StillQuiescent(s, u);
        Unresolved(u, i);
      }
    }
  }

  lemma StillQuiescent(s: State, u: State)
    requires Quiescent(s) && u.threads == s.threads
    ensures Quiescent(u)
  {
  }

  lemma Unresolved(s: State, i: nat)
    requires Quiescent(s) && i < |s.threads|
    ensures Do(Do(Do(Goes(s, i, Leaving(None)), i, Leave), i, Use), i, Free) == s
  {
    hide NoWriter, NoReader;
    assert Do(Goes(s, i, Leaving(None)), i, Leave) == s;
    assert Do(s, i, Use) == s && Do(s, i, Free) == s;
  }

  datatype Resolution = NoProvider | RetainFailed | Retained(p: nat)

  /** What getting a tracer answers: nothing with an error set, one that does nothing, or one
      made by a provider. */
  datatype Answer = NoTracer | NoOp | MadeBy(p: nat)

  /** The slot of one signal and the counts behind it, between calls. */
  class GlobalProvider {
    const signal: Signal
    var provider: Option<nat>
    var registrationId: nat
    var nextId: nat
    var refs: seq<nat>
    var owned: seq<nat>
    var log: seq<Event>
    ghost var installed: set<nat>
    ghost var handles: seq<Option<nat>>
    ghost var users: nat

    ghost function Value(): State
      reads this
    {
      State(signal, Slot(provider, registrationId), nextId, installed, refs, owned, handles, log,
        seq(users, _ => Idle))
    }

    constructor (signal: Signal, ghost users: nat)
      ensures Value() == Start(signal, users) && this.signal == signal
    {
      this.signal := signal;
      provider, registrationId, nextId, refs, owned, log := None, 0, 1, [], [], [];
      installed, handles, this.users := {}, [], users;
    }

    /** `next_registration_id` */
    method NextRegistrationId() returns (id: nat)
      modifies this`nextId
      ensures id == NextNonZero(old(nextId)) && nextId == (id + 1) % TWO64
      ensures id == if old(nextId) == 0 then 1 else old(nextId)
    {
      id := nextId;
      nextId := (nextId + 1) % TWO64;
      while id == 0
        invariant id == 0 ==> old(nextId) == 0 && nextId == 1
        invariant id != 0 ==> id == NextNonZero(old(nextId)) && nextId == (id + 1) % TWO64
        decreases id == 0
      {
        id := nextId;
        nextId := (nextId + 1) % TWO64;
      }
    }

    method ProviderFree(i: nat, p: nat)
      modifies this`refs, this`log
      ensures refs == Decreased(old(refs), p) && log == old(log) + [Event(i, Frees(p))]
      ensures p < |old(refs)| && old(refs)[p] > 0 ==> refs == old(refs)[p := old(refs)[p] - 1]
    {
      log := log + [Event(i, Frees(p))];
      if p < |refs| && refs[p] > 0 {
        refs := refs[p := refs[p] - 1];
      }
    }

    /** `provider_retain`, which may fail. */
    method ProviderRetain(i: nat, p: nat, ok: bool)
      modifies this`refs, this`log
      ensures refs == (if ok then Increased(old(refs), p) else old(refs))
      ensures log == old(log) + [Event(i, Retains(p, ok))]
      ensures p < |old(refs)| && ok ==> refs == old(refs)[p := old(refs)[p] + 1]
    {
      log := log + [Event(i, Retains(p, ok))];
      if ok && p < |refs| {
        refs := refs[p := refs[p] + 1];
      }
    }

    method ProviderGetTracer(i: nat, p: nat)
      modifies this`log
      ensures log == old(log) + [Event(i, Uses(p))]
    {
      log := log + [Event(i, Uses(p))];
    }

    /** `install_global_logger_provider` and its two siblings; the trace slot has no ids. */
    method Install(i: nat, vtable: Vtable, p: nat) returns (r: Result<nat>)
      requires i < users && Owns(Value(), p)
      modifies this
      ensures Value() == WholeInstall(old(Value()), i, p, vtable)
      ensures vtable == Null <==> r == Failure(InvalidArgument)
      ensures vtable == Incompatible <==> r == Failure(InvalidConfig)
      ensures r.Failure? ==> Value() == old(Value())
      ensures r.Success? ==>
        && provider == Some(p) && registrationId == r.value && (r.value == 0 <==> signal == Traces)
        && owned == old(owned)[p := old(owned)[p] - 1]
        && log == old(log) + if old(provider).Some? then [Event(i, Frees(old(provider).value))] else []
      ensures r.Success? && old(provider).None? ==> refs == old(refs)
    {
      hide WholeInstall;
      if vtable == Null {
        RefusedInstalls(Value(), i, p, vtable);
        return Failure(InvalidArgument);
      }
      if vtable == Incompatible {
        RefusedInstalls(Value(), i, p, vtable);
        return Failure(InvalidConfig);
      }
      AloneInstalls(Value(), i, p);
      var id := 0;
      if signal != Traces {
        id := NextRegistrationId();
      }
      var previous := provider;
      provider := Some(p);
      registrationId := id;
      installed := installed + {id};
      owned := owned[p := owned[p] - 1];
      if previous.Some? {
        ProviderFree(i, previous.value);
      }
      assert log == old(log) + FreesOf(previous, i);
      r := Success(id);
    }

    /** `otel_api_unregister_global_logger_provider` and its sibling for metrics. */
    method UnregisterToken(i: nat, token: nat) returns (r: Result<()>)
      requires i < users && signal != Traces
      modifies this
      ensures Value() == WholeUnregister(old(Value()), i, token)
      ensures r == if token == 0 then Failure(InvalidArgument) else Success(())
      ensures token == 0 || token != old(registrationId) ==> Value() == old(Value())
      ensures token != 0 && token == old(registrationId) ==>
        && provider == None && registrationId == 0
        && log == old(log) + if old(provider).Some? then [Event(i, Frees(old(provider).value))] else []
    {
      AloneUnregisters(Value(), i, token);
      hide WholeUnregister;
      if token == 0 {
        return Failure(InvalidArgument);
      }
      if registrationId != token {
        return Success(());
      }
      var previous := provider;
      provider := None;
      registrationId := 0;
      if previous.Some? {
        ProviderFree(i, previous.value);
      }
      assert log == old(log) + FreesOf(previous, i);
      r := Success(());
    }

    /** `retain_global_logs` and its siblings. */
    method RetainGlobal(i: nat, ok: bool) returns (r: Resolution)
      modifies this`refs, this`log
      ensures r == if provider.None? then NoProvider else if !ok then RetainFailed else Retained(provider.value)
      ensures refs == if r.Retained? then Increased(old(refs), r.p) else old(refs)
      ensures log == old(log) + if provider.Some? then [Event(i, Retains(provider.value, ok))] else []
    {
      if provider.None? {
        return NoProvider;
      }
      ProviderRetain(i, provider.value, ok);
      if !ok {
        return RetainFailed;
      }
      r := Retained(provider.value);
    }

    /** The part of getting a logger, meter or tracer that resolves the global provider, asks
        it and releases it. */
    method Resolve(i: nat, ok: bool) returns (r: Resolution)
      requires i < users && (provider.Some? ==> provider.value < |refs|)
      modifies this`refs, this`log
      ensures Value() == WholeResolve(old(Value()), i, ok)
      ensures r == if provider.None? then NoProvider else if !ok then RetainFailed else Retained(provider.value)
      ensures refs == old(refs)
      ensures log == old(log) +
        if provider.None? then []
        else if !ok then [Event(i, Retains(provider.value, false))]
        else [Event(i, Retains(provider.value, true)), Event(i, Uses(provider.value)), Event(i, Frees(provider.value))]
    {
      AloneResolves(Value(), i, ok);
      hide WholeResolve, Increased, Decreased, Quiescent;
      if provider.Some? { RetainThenFree(refs, provider.value); }
      r := RetainGlobal(i, ok);
      if r.Retained? {
        ProviderGetTracer(i, r.p);
        ProviderFree(i, r.p);
      }
      assert log == old(log) + Resolves(provider, i, ok);
    }

    /** `otel_tracer_provider_get_tracer` on the handle of the global provider; `made` tells
        whether the provider could make the tracer. */
    method GetTracer(i: nat, ok: bool, made: bool) returns (r: Answer)
      requires i < users && (provider.Some? ==> provider.value < |refs|)
      modifies this`refs, this`log
      ensures r == NoOp <==> provider.None?
      ensures provider.Some? ==> r == if ok && made then MadeBy(provider.value) else NoTracer
      ensures r.MadeBy? ==> Event(i, Uses(r.p)) in log
      ensures refs == old(refs) && Value() == WholeResolve(old(Value()), i, ok)
    {
      hide WholeResolve;
      var resolution := Resolve(i, ok);
      match resolution
      case NoProvider => r := NoOp;
      case RetainFailed => r := NoTracer;
      case Retained(p) => r := if made then MadeBy(p) else NoTracer;
    }
  }
}
