/**
 * The dynamic informer (pkg/dynamicinformer): any number of threads run
 * SetupInformerAndRegisterEventHandler, Stop and Lister concurrently. Every
 * load or store of an atomic pointer, every lock operation and every call of a
 * cancel function is one atomic step, and a run is any interleaving of them.
 */
module DynamicInformer {
  import opened Prelude

  type Thread = nat

  /** Numbers the Setup attempts; an attempt that gets past the guard creates the informer of that number. */
  type Inst = nat

  datatype Holder = BySetup(t: Thread) | ByReader(r: Thread)

  /** Where a Setup call stands between taking and releasing the mutex. */
  datatype SetupPc =
    | Locked(inst: Inst)        // about to load the guard
    | Passed(inst: Inst)        // the guard was nil
    | Created(inst: Inst)       // context created, handler added, polling for the CRD
    | Started(inst: Inst)       // factory started, waiting for the cache
    | Synced(inst: Inst)        // about to store the lister
    | ListerStored(inst: Inst)  // about to store cancel
    | Failing(inst: Inst)       // error exit, the deferred cancel has not run yet
    | Returning(inst: Inst)     // only the deferred unlock is left

  /** Where a Stop call stands after it loaded a non-nil cancel function. */
  datatype StopPc = Loaded(inst: Inst) | Cancelled(inst: Inst) | ListerCleared(inst: Inst)

  /** A reader records, when it calls Lister(), which Setup attempt held the mutex. */
  datatype ReaderPc =
    | Waiting(during: Option<Inst>)
    | Holding(during: Option<Inst>)
    | Released(during: Option<Inst>)
    | Got(during: Option<Inst>, lister: Option<Inst>)

  datatype State = State(
    mu: Option<Holder>,
    cancel: Option<Inst>,
    lister: Option<Inst>,
    setups: map<Thread, SetupPc>,
    stops: map<Thread, StopPc>,
    readers: map<Thread, ReaderPc>,
    next: Inst,
    live: set<Inst>,         // contexts created and not cancelled
    synced: set<Inst>,       // informers whose cache has synced
    unsuccessful: set<Inst>, // attempts that failed or found an informer already running
    clears: nat,             // how often a Stop has stored nil into lister
    storedAt: map<Inst, nat>) // the value of clears when an attempt stored its lister

  const INIT := State(None, None, None, map[], map[], map[], 0, {}, {}, {}, 0, map[])

  datatype Action =
    | SetupLock(t: Thread)
    | SetupCheck(t: Thread)
    | SetupCreate(t: Thread)
    | SetupPollDone(t: Thread)
    | SetupPollFail(t: Thread)
    | SetupSyncDone(t: Thread)
    | SetupSyncFail(t: Thread)
    | SetupStoreLister(t: Thread)
    | SetupStoreCancel(t: Thread)
    | SetupDeferredCancel(t: Thread)
    | SetupUnlock(t: Thread)
    | StopLoad(t: Thread)
    | StopCancel(t: Thread)
    | StopClearLister(t: Thread)
    | StopClearCancel(t: Thread)
    | ReaderEnter(t: Thread)
    | ReaderLock(t: Thread)
    | ReaderUnlock(t: Thread)
    | ReaderLoad(t: Thread)
    | ReaderLeave(t: Thread)

  /** The state after one atomic step, or None when the step is not enabled. */
  function Step(s: State, a: Action): (r: Option<State>) {
    if IsStopAction(a) then StopStep(s, a) else if IsReaderAction(a) then ReaderStep(s, a) else SetupStep(s, a)
  }

  predicate IsStopAction(a: Action) {
    a.StopLoad? || a.StopCancel? || a.StopClearLister? || a.StopClearCancel?
  }

  predicate IsReaderAction(a: Action) {
    a.ReaderEnter? || a.ReaderLock? || a.ReaderUnlock? || a.ReaderLoad? || a.ReaderLeave?
  }

  function SetupStep(s: State, a: Action): (r: Option<State>)
    requires !IsStopAction(a) && !IsReaderAction(a)
  {
    match a
    case SetupLock(t) =>
      if s.mu.None? then
        Some(s.(mu := Some(BySetup(t)), setups := s.setups[t := Locked(s.next)], next := s.next + 1))
      else None
    case SetupCheck(t) =>
      if t in s.setups && s.setups[t].Locked? then
        var j := s.setups[t].inst;
        if s.cancel.Some? then
          Some(s.(setups := s.setups[t := Returning(j)], unsuccessful := s.unsuccessful + {j}))
        else Some(s.(setups := s.setups[t := Passed(j)]))
      else None
    case SetupCreate(t) =>
      if t in s.setups && s.setups[t].Passed? then
        var j := s.setups[t].inst;
        Some(s.(setups := s.setups[t := Created(j)], live := s.live + {j}))
      else None
    case SetupPollDone(t) =>
      if t in s.setups && s.setups[t].Created? then
        Some(s.(setups := s.setups[t := Started(s.setups[t].inst)]))
      else None
    case SetupPollFail(t) =>
      if t in s.setups && s.setups[t].Created? then
        var j := s.setups[t].inst;
        Some(s.(setups := s.setups[t := Failing(j)], unsuccessful := s.unsuccessful + {j}))
      else None
    case SetupSyncDone(t) =>
      if t in s.setups && s.setups[t].Started? then
        var j := s.setups[t].inst;
        Some(s.(setups := s.setups[t := Synced(j)], synced := s.synced + {j}))
      else None
    case SetupSyncFail(t) =>
      if t in s.setups && s.setups[t].Started? then
        var j := s.setups[t].inst;
        Some(s.(setups := s.setups[t := Failing(j)], unsuccessful := s.unsuccessful + {j}))
      else None
    case SetupStoreLister(t) =>
      if t in s.setups && s.setups[t].Synced? then
        var j := s.setups[t].inst;
        Some(s.(setups := s.setups[t := ListerStored(j)], lister := Some(j), storedAt := s.storedAt[j := s.clears]))
      else None
    case SetupStoreCancel(t) =>
      if t in s.setups && s.setups[t].ListerStored? then
        var j := s.setups[t].inst;
        Some(s.(setups := s.setups[t := Returning(j)], cancel := Some(j)))
      else None
    case SetupDeferredCancel(t) =>
      if t in s.setups && s.setups[t].Failing? then
        var j := s.setups[t].inst;
        Some(s.(setups := s.setups[t := Returning(j)], live := s.live - {j}))
      else None
    case SetupUnlock(t) =>
      if t in s.setups && s.setups[t].Returning? then
        Some(s.(setups := s.setups - {t}, mu := None))
      else None
  }

  function StopStep(s: State, a: Action): (r: Option<State>)
    requires IsStopAction(a)
  {
    match a
    case StopLoad(t) =>
      if t in s.stops then None
      else if s.cancel.None? then Some(s)
      else Some(s.(stops := s.stops[t := Loaded(s.cancel.value)]))
    case StopCancel(t) =>
      if t in s.stops && s.stops[t].Loaded? then
        var i := s.stops[t].inst;
        Some(s.(stops := s.stops[t := Cancelled(i)], live := s.live - {i}))
      else None
    case StopClearLister(t) =>
      if t in s.stops && s.stops[t].Cancelled? then
        Some(s.(stops := s.stops[t := ListerCleared(s.stops[t].inst)], lister := None, clears := s.clears + 1))
      else None
    case StopClearCancel(t) =>
      if t in s.stops && s.stops[t].ListerCleared? then
        Some(s.(stops := s.stops - {t}, cancel := None))
      else None
  }

  function ReaderStep(s: State, a: Action): (r: Option<State>)
    requires IsReaderAction(a)
  {
    match a
    case ReaderEnter(t) =>
      if t in s.readers then None
      else Some(s.(readers := s.readers[t := Waiting(AttemptInProgress(s))]))
    case ReaderLock(t) =>
      if t in s.readers && s.readers[t].Waiting? && s.mu.None? then
        Some(s.(mu := Some(ByReader(t)), readers := s.readers[t := Holding(s.readers[t].during)]))
      else None
    case ReaderUnlock(t) =>
      if t in s.readers && s.readers[t].Holding? then
        Some(s.(mu := None, readers := s.readers[t := Released(s.readers[t].during)]))
      else None
    case ReaderLoad(t) =>
      if t in s.readers && s.readers[t].Released? then
        Some(s.(readers := s.readers[t := Got(s.readers[t].during, s.lister)]))
      else None
    case ReaderLeave(t) =>
      if t in s.readers && s.readers[t].Got? then Some(s.(readers := s.readers - {t})) else None
  }

  /** The Setup attempt that holds the mutex, if any. */
  function AttemptInProgress(s: State): Option<Inst> {
    if s.mu.Some? && s.mu.value.BySetup? && s.mu.value.t in s.setups
    then Some(s.setups[s.mu.value.t].inst)
    else None
  }

  /** A run from `s`: the sequence of states reached by a sequence of enabled steps. */
  ghost predicate IsRun(states: seq<State>, actions: seq<Action>) {
    && |states| == |actions| + 1
    && forall k :: 0 <= k < |actions| ==> Step(states[k], actions[k]) == Some(states[k + 1])
  }

  /** A Setup that loads the guard in this step and finds it nil. */
  predicate PassesGuard(s: State, a: Action) {
    a.SetupCheck? && a.t in s.setups && s.setups[a.t].Locked? && s.cancel.None?
  }

  /** The assumption on callers: no Setup passes its guard while a Stop is past its first load. */
  ghost predicate GuardedRun(states: seq<State>, actions: seq<Action>) {
    && IsRun(states, actions)
    && states[0] == INIT
    && forall k :: 0 <= k < |actions| ==> PassesGuard(states[k], actions[k]) ==> states[k].stops == map[]
  }

  /** A simpler assumption: two Stop calls are never past their first load at the same time. */
  ghost predicate AtMostOneStop(s: State) {
    forall t, u :: t in s.stops && u in s.stops ==> t == u
  }

  ghost predicate OneStopRun(states: seq<State>, actions: seq<Action>) {
    && IsRun(states, actions)
    && states[0] == INIT
    && forall k :: 0 <= k < |states| ==> AtMostOneStop(states[k])
  }

  // ----- What every reachable state satisfies -----

  /** Past the guard and before the last store: the attempt owns the informer under construction. */
  predicate Building(pc: SetupPc) {
    !pc.Locked? && !pc.Returning?
  }

  ghost predicate AnyBuilding(s: State) {
    exists t :: t in s.setups && Building(s.setups[t])
  }

  /** No Setup is between guard and last store and no Stop is past its first load. */
  ghost predicate Settled(s: State) {
    !AnyBuilding(s) && s.stops == map[]
  }

  ghost predicate MutexInv(s: State) {
    && (forall t :: t in s.setups ==> s.mu == Some(BySetup(t)))
    && (forall r :: r in s.readers && s.readers[r].Holding? ==> s.mu == Some(ByReader(r)))
    && (s.mu.Some? && s.mu.value.BySetup? ==> s.mu.value.t in s.setups)
  }

  ghost predicate SetupInv(s: State) {
    forall t :: t in s.setups && Building(s.setups[t]) ==> SetupPcInv(s, s.setups[t])
  }

  ghost predicate SetupPcInv(s: State, pc: SetupPc) {
    && s.stops == map[]
    && s.cancel == None
    && s.lister == (if pc.ListerStored? then Some(pc.inst) else None)
    && s.live == (if pc.Passed? then {} else {pc.inst})
    && (pc.Synced? || pc.ListerStored? ==> pc.inst in s.synced)
  }

  /** All Stops in flight loaded the same informer, and each has undone its part of it. */
  ghost predicate StopInv(s: State) {
    forall t :: t in s.stops ==> StopPcInv(s, s.stops[t])
  }

  ghost predicate StopPcInv(s: State, pc: StopPc) {
    && s.live <= {pc.inst}
    && (s.lister.Some? ==> s.lister.value == pc.inst)
    && (s.cancel.Some? ==> s.cancel.value == pc.inst)
    && (!pc.Loaded? ==> s.live == {})
    && (pc.ListerCleared? ==> s.lister.None?)
    && (s.cancel.None? ==> s.lister.None? && s.live == {})
  }

  ghost predicate SettledInv(s: State) {
    Settled(s) ==>
      && s.cancel == s.lister
      && s.live == (if s.cancel.Some? then {s.cancel.value} else {})
  }

  ghost predicate ListerSynced(s: State) {
    && (s.lister.Some? ==> s.lister.value in s.synced)
    && forall r :: r in s.readers && s.readers[r].Got? && s.readers[r].lister.Some? ==>
         s.readers[r].lister.value in s.synced
  }

  /** Attempt `j` still has its lister store ahead of it. */
  ghost predicate Undelivered(s: State, j: Inst) {
    exists t :: t in s.setups && s.setups[t].inst == j && BeforeStore(s.setups[t])
  }

  /** Attempt `j` ended without an informer of its own, or its lister can be loaded, or a Stop cleared it again. */
  ghost predicate Delivered(s: State, j: Inst) {
    || j in s.unsuccessful
    || s.lister == Some(j)
    || (j in s.storedAt && s.storedAt[j] < s.clears)
  }

  ghost predicate StoredInv(s: State) {
    && (s.lister.Some? ==> s.lister.value in s.storedAt)
    && (forall j :: j in s.storedAt ==> s.storedAt[j] <= s.clears)
  }

  ghost predicate AttemptsInv(s: State) {
    forall t :: t in s.setups ==> Undelivered(s, s.setups[t].inst) || Delivered(s, s.setups[t].inst)
  }

  /** Only a reader that still waits for the mutex can precede the delivery of the attempt it saw. */
  ghost predicate ReaderInv(s: State, r: ReaderPc) {
    r.during.Some? && !r.Got? ==>
      Delivered(s, r.during.value) || (r.Waiting? && Undelivered(s, r.during.value))
  }

  ghost predicate DeliveryInv(s: State) {
    StoredInv(s) && AttemptsInv(s) && forall r :: r in s.readers ==> ReaderInv(s, s.readers[r])
  }

  ghost predicate Inv(s: State) {
    MutexInv(s) && SetupInv(s) && StopInv(s) && SettledInv(s) && ListerSynced(s) && DeliveryInv(s)
  }

  lemma StepKeepsHolders(s: State, a: Action, s': State)
    requires MutexInv(s) && Step(s, a) == Some(s')
    ensures forall t :: t in s'.setups ==> s'.mu == Some(BySetup(t))
    ensures s'.mu.Some? && s'.mu.value.BySetup? ==> s'.mu.value.t in s'.setups
  {
  }

  lemma StepKeepsMutex(s: State, a: Action, s': State)
    requires MutexInv(s) && Step(s, a) == Some(s')
    ensures MutexInv(s')
  {
    StepKeepsHolders(s, a, s');
  }

  /** Only the last store and the deferred cancel take a Setup from building to settled. */
  lemma BuildingStays(s: State, a: Action, s': State)
    requires MutexInv(s) && Step(s, a) == Some(s') && !IsStopAction(a) && !a.SetupStoreCancel?
    requires !a.SetupDeferredCancel?
    ensures AnyBuilding(s) ==> AnyBuilding(s')
  {
    if AnyBuilding(s) {
      var t :| t in s.setups && Building(s.setups[t]);
      assert s.mu == Some(BySetup(t));
      assert t in s'.setups && Building(s'.setups[t]);
    }
  }

  lemma SetupStepKeepsSettled(s: State, a: Action, s': State)
    requires MutexInv(s) && SetupInv(s) && SettledInv(s) && Step(s, a) == Some(s') && !IsStopAction(a)
    ensures SettledInv(s')
  {
    if Settled(s') {
      if a.SetupStoreCancel? || a.SetupDeferredCancel? {
        var j := s.setups[a.t].inst;
        assert Building(s.setups[a.t]);
        assert {j} - {j} == {};
      } else {
        BuildingStays(s, a, s');
      }
    }
  }

  /** The only Setup that holds the mutex before or after the step is the one that makes it. */
  lemma SetupAlone(s: State, a: Action, s': State, t: Thread)
    requires MutexInv(s) && Step(s, a) == Some(s') && t in s'.setups && Building(s'.setups[t])
    ensures t in s.setups && s.mu == Some(BySetup(t))
    ensures t == a.t || s'.setups[t] == s.setups[t]
  {
  }

  lemma SetupStepKeepsSetup(s: State, a: Action, s': State)
    requires MutexInv(s) && SetupInv(s) && SettledInv(s) && Step(s, a) == Some(s') && !IsStopAction(a)
    requires (PassesGuard(s, a) ==> s.stops == map[])
    ensures SetupInv(s')
  {
    forall t | t in s'.setups && Building(s'.setups[t]) ensures SetupPcInv(s', s'.setups[t]) {
      SetupAlone(s, a, s', t);
      if PassesGuard(s, a) {
        assert !AnyBuilding(s);
        assert Settled(s);
      } else {
        assert Building(s.setups[t]);
        assert SetupPcInv(s, s.setups[t]);
      }
    }
  }

  lemma SetupStepKeepsStops(s: State, a: Action, s': State)
    requires SetupInv(s) && StopInv(s) && Step(s, a) == Some(s') && !IsStopAction(a)
    ensures StopInv(s')
  {
    assert s'.stops == s.stops;
    if a.t in s.setups && Building(s.setups[a.t]) {
      assert SetupPcInv(s, s.setups[a.t]);
    }
  }

  lemma SetupStepKeepsSynced(s: State, a: Action, s': State)
    requires SetupInv(s) && ListerSynced(s) && Step(s, a) == Some(s') && !IsStopAction(a)
    ensures ListerSynced(s')
  {
    if a.t in s.setups && Building(s.setups[a.t]) {
      assert SetupPcInv(s, s.setups[a.t]);
    }
  }

  /** While a Setup builds its informer no Stop gets past its first load. */
  lemma StopStepKeepsSetup(s: State, a: Action, s': State)
    requires SetupInv(s) && ListerSynced(s) && Step(s, a) == Some(s') && IsStopAction(a)
    ensures SetupInv(s') && ListerSynced(s')
  {
    forall t | t in s'.setups && Building(s'.setups[t]) ensures SetupPcInv(s', s'.setups[t]) {
      assert SetupPcInv(s, s.setups[t]);
    }
  }

  lemma StopStepKeepsStop(s: State, a: Action, s': State, t: Thread)
    requires SetupInv(s) && StopInv(s) && SettledInv(s) && Step(s, a) == Some(s') && IsStopAction(a) && t in s'.stops
    ensures StopPcInv(s', s'.stops[t])
  {
    if a.StopLoad? {
      if s.stops == map[] && s.cancel.Some? {
        LoadedSettled(s);
      } else if s.stops != map[] {
        var u :| u in s.stops;
        assert StopPcInv(s, s.stops[u]);
      }
    } else {
      assert StopPcInv(s, s.stops[a.t]);
      assert StopPcInv(s, s.stops[t]);
    }
  }

  /** With a guard set and no Stop in flight the state is settled. */
  lemma LoadedSettled(s: State)
    requires SetupInv(s) && s.stops == map[] && s.cancel.Some?
    ensures Settled(s)
  {
    assert forall t :: t in s.setups && Building(s.setups[t]) ==> SetupPcInv(s, s.setups[t]);
  }

  lemma StopStepKeepsSettled(s: State, a: Action, s': State)
    requires StopInv(s) && SettledInv(s) && Step(s, a) == Some(s') && IsStopAction(a)
    ensures SettledInv(s')
  {
    if Settled(s') && !a.StopLoad? {
      assert StopPcInv(s, s.stops[a.t]);
      assert a.StopClearCancel? || a.t in s'.stops;
    }
  }

  lemma StepKeepsDelivered(s: State, a: Action, s': State, j: Inst)
    requires SetupInv(s) && StoredInv(s) && Step(s, a) == Some(s') && Delivered(s, j)
    ensures Delivered(s', j)
  {
    if a.SetupStoreLister? {
      assert Building(s.setups[a.t]);
    }
  }

  predicate BeforeStore(pc: SetupPc) {
    !pc.ListerStored? && !pc.Failing? && !pc.Returning?
  }

  /** An attempt before its lister store goes on, stores its lister, or turns out unsuccessful. */
  lemma DeliveryCases(s: State, a: Action, s': State, t: Thread)
    requires Step(s, a) == Some(s') && t in s.setups && s.mu == Some(BySetup(t)) && BeforeStore(s.setups[t])
    ensures t in s'.setups && s'.setups[t].inst == s.setups[t].inst
    ensures BeforeStore(s'.setups[t]) || s'.lister == Some(s.setups[t].inst) || s.setups[t].inst in s'.unsuccessful
  {
  }

  lemma StepDelivers(s: State, a: Action, s': State, j: Inst)
    requires MutexInv(s) && Step(s, a) == Some(s') && Undelivered(s, j)
    ensures Undelivered(s', j) || Delivered(s', j)
  {
    var t :| t in s.setups && s.setups[t].inst == j && BeforeStore(s.setups[t]);
    DeliveryCases(s, a, s', t);
  }

  /** An attempt that is delivered or still to be delivered remains so. */
  lemma StepKeepsProgress(s: State, a: Action, s': State, j: Inst)
    requires MutexInv(s) && SetupInv(s) && StoredInv(s) && Step(s, a) == Some(s')
    requires (Undelivered(s, j) || Delivered(s, j))
    ensures Undelivered(s', j) || Delivered(s', j)
    ensures Delivered(s, j) ==> Delivered(s', j)
  {
    if Delivered(s, j) { StepKeepsDelivered(s, a, s', j); } else { StepDelivers(s, a, s', j); }
  }

  /** How a step changes what a reader knows. */
  lemma ReaderStepCases(s: State, a: Action, s': State, r: Thread)
    requires MutexInv(s) && Step(s, a) == Some(s') && r in s'.readers && s'.readers[r].during.Some?
    requires !s'.readers[r].Got?
    ensures var j := s'.readers[r].during.value;
            if a == ReaderEnter(r)
            then s'.readers[r].Waiting? && s.mu.Some? && s.mu.value.BySetup? && j == s.setups[s.mu.value.t].inst
            else r in s.readers && s.readers[r].during == Some(j) && !s.readers[r].Got?
                 && (s.readers[r].Waiting? ==> s'.readers[r].Waiting? || s.mu.None?)
  {
  }

  lemma StepKeepsReader(s: State, a: Action, s': State, r: Thread)
    requires MutexInv(s) && SetupInv(s) && StoredInv(s) && AttemptsInv(s)
    requires (r in s.readers ==> ReaderInv(s, s.readers[r]))
    requires Step(s, a) == Some(s') && r in s'.readers
    ensures ReaderInv(s', s'.readers[r])
  {
    if s'.readers[r].during.Some? && !s'.readers[r].Got? {
      ReaderStepCases(s, a, s', r);
      StepKeepsProgress(s, a, s', s'.readers[r].during.value);
    }
  }

  lemma AttemptCases(s: State, a: Action, s': State, t: Thread)
    requires Step(s, a) == Some(s') && t in s'.setups
    ensures s'.setups[t].Locked? || (t in s.setups && s'.setups[t].inst == s.setups[t].inst)
  {
  }

  lemma StepKeepsAttempt(s: State, a: Action, s': State, t: Thread)
    requires MutexInv(s) && SetupInv(s) && StoredInv(s) && AttemptsInv(s) && Step(s, a) == Some(s') && t in s'.setups
    ensures Undelivered(s', s'.setups[t].inst) || Delivered(s', s'.setups[t].inst)
  {
    AttemptCases(s, a, s', t);
    if !s'.setups[t].Locked? {
      StepKeepsProgress(s, a, s', s.setups[t].inst);
    }
  }

  lemma StepKeepsStored(s: State, a: Action, s': State)
    requires StoredInv(s) && Step(s, a) == Some(s')
    ensures StoredInv(s')
  {
  }

  lemma StepKeepsDelivery(s: State, a: Action, s': State)
    requires MutexInv(s) && SetupInv(s) && DeliveryInv(s) && Step(s, a) == Some(s')
    ensures DeliveryInv(s')
  {
    StepKeepsStored(s, a, s');
    forall t | t in s'.setups
      ensures Undelivered(s', s'.setups[t].inst) || Delivered(s', s'.setups[t].inst)
    {
      StepKeepsAttempt(s, a, s', t);
    }
    forall r | r in s'.readers ensures ReaderInv(s', s'.readers[r]) {
      StepKeepsReader(s, a, s', r);
    }
  }

  lemma InvHolds(states: seq<State>, actions: seq<Action>, k: nat)
    requires GuardedRun(states, actions) && k < |states|
    ensures Inv(states[k])
  {
    if k > 0 {
      InvHolds(states, actions, k - 1);
      var s, a, s' := states[k - 1], actions[k - 1], states[k];
      assert Step(s, a) == Some(s') && (PassesGuard(s, a) ==> s.stops == map[]);
      StepKeepsMutex(s, a, s');
      StepKeepsDelivery(s, a, s');
      if IsStopAction(a) {
        StopStepKeepsSetup(s, a, s');
        StopStepKeepsSettled(s, a, s');
        forall t | t in s'.stops ensures StopPcInv(s', s'.stops[t]) { StopStepKeepsStop(s, a, s', t); }
      } else {
        SetupStepKeepsSettled(s, a, s');
        SetupStepKeepsSetup(s, a, s');
        SetupStepKeepsStops(s, a, s');
        SetupStepKeepsSynced(s, a, s');
      }
    }
  }

  // ----- Main results -----

  /**
   * In every interleaving in which no Setup passes its guard under a Stop in flight: while a Setup is
   * between its guard and its last store no Stop is past its first load, no two Setups are
   * there at once, and at most one informer context is live.
   */
  lemma StoreSectionsDisjoint(states: seq<State>, actions: seq<Action>, k: nat)
    requires GuardedRun(states, actions) && k < |states|
    ensures AnyBuilding(states[k]) ==> states[k].stops == map[]
    ensures forall t, u :: t in states[k].setups && u in states[k].setups ==> t == u
    ensures |states[k].live| <= 1
  {
    InvHolds(states, actions, k);
    var s := states[k];
    forall t, u | t in s.setups && u in s.setups ensures t == u {
      assert s.mu == Some(BySetup(t)) && s.mu == Some(BySetup(u));
    }
    if AnyBuilding(s) {
      var t :| t in s.setups && Building(s.setups[t]);
    } else if s.stops != map[] {
      var t :| t in s.stops;
      assert StopPcInv(s, s.stops[t]);
      assert s.live == {} || s.live == {s.stops[t].inst};
    }
  }

  /** The assumption is exact: the store sections stay apart in a run if and only if it holds. */
  lemma DisjointExactly(states: seq<State>, actions: seq<Action>)
    requires IsRun(states, actions) && states[0] == INIT
    ensures (forall k :: 0 <= k < |states| ==> AnyBuilding(states[k]) ==> states[k].stops == map[]) <==>
            GuardedRun(states, actions)
  {
    if GuardedRun(states, actions) {
      forall k | 0 <= k < |states| ensures AnyBuilding(states[k]) ==> states[k].stops == map[] {
        StoreSectionsDisjoint(states, actions, k);
      }
    } else {
      var k :| 0 <= k < |actions| && PassesGuard(states[k], actions[k]) && states[k].stops != map[];
      assert Step(states[k], actions[k]) == Some(states[k + 1]);
      assert actions[k].t in states[k + 1].setups && Building(states[k + 1].setups[actions[k].t]);
      assert AnyBuilding(states[k + 1]) && states[k + 1].stops != map[];
    }
  }

  /** While at most one Stop is in flight, the guard stays set until it leaves. */
  lemma {:induction false} OneStopGuard(states: seq<State>, actions: seq<Action>, k: nat)
    requires OneStopRun(states, actions) && k < |states| && states[k].stops != map[]
    ensures states[k].cancel.Some?
  {
    if k > 0 {
      var s, a := states[k - 1], actions[k - 1];
      assert Step(s, a) == Some(states[k]) && AtMostOneStop(s);
      if s.stops != map[] {
        OneStopGuard(states, actions, k - 1);
        assert a.StopClearCancel? ==> s.stops.Keys == {a.t};
      }
    }
  }

  /** So a run with at most one Stop in flight satisfies the assumption. */
  lemma OneStopGuarded(states: seq<State>, actions: seq<Action>)
    requires OneStopRun(states, actions)
    ensures GuardedRun(states, actions)
  {
    forall k | 0 <= k < |actions| && PassesGuard(states[k], actions[k]) ensures states[k].stops == map[] {
      if states[k].stops != map[] { OneStopGuard(states, actions, k); }
    }
  }

  /** Whenever no Setup or Stop is under way: cancel set, lister set and exactly one live informer come together. */
  lemma SettledAgreement(states: seq<State>, actions: seq<Action>, k: nat)
    requires GuardedRun(states, actions) && k < |states| && Settled(states[k])
    ensures states[k].cancel == states[k].lister
    ensures states[k].cancel.Some? <==> |states[k].live| == 1
    ensures states[k].cancel.Some? ==> states[k].live == {states[k].cancel.value}
    ensures states[k].cancel.None? ==> states[k].live == {}
  {
    InvHolds(states, actions, k);
  }

  /** Whatever lister a reader loads, at any time, belongs to an informer whose cache had synced. */
  lemma LoadedListerSynced(states: seq<State>, actions: seq<Action>, k: nat, r: Thread)
    requires GuardedRun(states, actions) && k < |actions| && actions[k] == ReaderLoad(r)
    ensures var l := states[k + 1].readers[r].lister;
            l == states[k].lister && (l.Some? ==> l.value in states[k].synced)
  {
    InvHolds(states, actions, k);
    assert Step(states[k], actions[k]) == Some(states[k + 1]);
  }

  ghost predicate StoresLister(s: State, a: Action, j: Inst) {
    a.SetupStoreLister? && a.t in s.setups && s.setups[a.t].inst == j
  }

  /** The value recorded when an attempt stored its lister is the number of clears before that store. */
  lemma {:induction false} StoredAtStep(states: seq<State>, actions: seq<Action>, k: nat, j: Inst) returns (p: nat)
    requires IsRun(states, actions) && states[0] == INIT && k < |states| && j in states[k].storedAt
    ensures p < k && StoresLister(states[p], actions[p], j)
    ensures states[p + 1].lister == Some(j) && states[p].clears == states[k].storedAt[j]
  {
    var s, a := states[k - 1], actions[k - 1];
    assert Step(s, a) == Some(states[k]);
    if a.SetupStoreLister? && s.setups[a.t].inst == j {
      p := k - 1;
    } else {
      p := StoredAtStep(states, actions, k - 1, j);
    }
  }

  /** The number of clears only grows by a Stop storing nil. */
  lemma {:induction false} ClearBetween(states: seq<State>, actions: seq<Action>, p: nat, k: nat) returns (q: nat)
    requires IsRun(states, actions) && p <= k < |states| && states[p].clears < states[k].clears
    ensures p <= q < k && actions[q].StopClearLister?
  {
    assert Step(states[k - 1], actions[k - 1]) == Some(states[k]);
    if actions[k - 1].StopClearLister? {
      q := k - 1;
    } else {
      q := ClearBetween(states, actions, p, k - 1);
    }
  }

  /**
   * A reader that calls Lister() while Setup attempt `j` holds the mutex, and then loads: either
   * the attempt did not succeed, or the reader gets the lister of `j`, or a Stop cleared the
   * lister between the attempt's store and the reader's load.
   */
  lemma ReaderSeesNewLister(states: seq<State>, actions: seq<Action>, k: nat, r: Thread, j: Inst)
    returns (stored: nat, stopped: nat)
    requires GuardedRun(states, actions) && k < |actions| && actions[k] == ReaderLoad(r)
    requires r in states[k].readers && states[k].readers[r].during == Some(j)
    ensures
      || j in states[k].unsuccessful
      || states[k + 1].readers[r].lister == Some(j)
      || (stored < stopped < k && StoresLister(states[stored], actions[stored], j) && actions[stopped].StopClearLister?)
  {
    stored, stopped := 0, 0;
    InvHolds(states, actions, k);
    assert Step(states[k], actions[k]) == Some(states[k + 1]);
    if j !in states[k].unsuccessful && states[k].lister != Some(j) {
      stored := StoredAtStep(states, actions, k, j);
      stopped := ClearBetween(states, actions, stored, k);
    }
  }

  /** When all Stop calls come from one thread, as from the CRD event handler, Stops never overlap. */
  lemma {:induction false} OneHandlerThread(states: seq<State>, actions: seq<Action>, h: Thread, k: nat)
    requires IsRun(states, actions) && states[0] == INIT && k < |states|
    requires forall i :: 0 <= i < |actions| && IsStopAction(actions[i]) ==> actions[i].t == h
    ensures states[k].stops.Keys <= {h} && AtMostOneStop(states[k])
  {
    if k > 0 {
      OneHandlerThread(states, actions, h, k - 1);
      assert Step(states[k - 1], actions[k - 1]) == Some(states[k]);
    }
  }

  lemma ExtendRun(states: seq<State>, actions: seq<Action>, a: Action)
    returns (states': seq<State>, actions': seq<Action>)
    requires IsRun(states, actions) && Step(states[|states| - 1], a).Some?
    ensures IsRun(states', actions') && states'[0] == states[0]
    ensures states' == states + [Step(states[|states| - 1], a).value] && actions' == actions + [a]
  {
    states', actions' := states + [Step(states[|states| - 1], a).value], actions + [a];
  }

  /** Thread `t` runs a Setup up to the creation of its context. */
  lemma SetupUpToCreate(states: seq<State>, actions: seq<Action>, t: Thread) returns (ss: seq<State>, aa: seq<Action>)
    requires IsRun(states, actions)
    requires var s := states[|states| - 1]; s.mu == None && s.cancel == None && t !in s.setups
    ensures IsRun(ss, aa) && ss[0] == states[0]
    ensures var s := states[|states| - 1];
            ss[|ss| - 1] == s.(mu := Some(BySetup(t)), setups := s.setups[t := Created(s.next)],
                               next := s.next + 1, live := s.live + {s.next})
  {
    ss, aa := ExtendRun(states, actions, SetupLock(t));
    ss, aa := ExtendRun(ss, aa, SetupCheck(t));
    ss, aa := ExtendRun(ss, aa, SetupCreate(t));
  }

  /** It goes on up to, not including, its last store. */
  lemma SetupUpToLastStore(states: seq<State>, actions: seq<Action>, t: Thread)
    returns (ss: seq<State>, aa: seq<Action>)
    requires IsRun(states, actions)
    requires var s := states[|states| - 1]; s.mu == None && s.cancel == None && t !in s.setups
    ensures IsRun(ss, aa) && ss[0] == states[0]
    ensures var s := states[|states| - 1];
            ss[|ss| - 1] == s.(mu := Some(BySetup(t)), setups := s.setups[t := ListerStored(s.next)],
                               next := s.next + 1,
                               live := s.live + {s.next}, synced := s.synced + {s.next}, lister := Some(s.next),
                               storedAt := s.storedAt[s.next := s.clears])
  {
    ss, aa := SetupUpToCreate(states, actions, t);
    ss, aa := ExtendRun(ss, aa, SetupPollDone(t));
    ss, aa := ExtendRun(ss, aa, SetupSyncDone(t));
    ss, aa := ExtendRun(ss, aa, SetupStoreLister(t));
  }

  /** A first informer is running and two Stops have both loaded its cancel function; one of them finishes. */
  lemma TwoStopsLoaded() returns (ss: seq<State>, aa: seq<Action>)
    ensures IsRun(ss, aa) && ss[0] == INIT
    ensures ss[|ss| - 1] ==
            INIT.(next := 1, synced := {0}, clears := 1, storedAt := map[0 := 0], stops := map[2 := Loaded(0)])
  {
    ss, aa := SetupUpToLastStore([INIT], [], 0);
    ss, aa := ExtendRun(ss, aa, SetupStoreCancel(0));
    ss, aa := ExtendRun(ss, aa, SetupUnlock(0));
    assert ss[|ss| - 1] == INIT.(next := 1, synced := {0}, live := {0}, storedAt := map[0 := 0],
                                cancel := Some(0), lister := Some(0));
    ss, aa := ExtendRun(ss, aa, StopLoad(1));
    ss, aa := ExtendRun(ss, aa, StopLoad(2));
    ss, aa := ExtendRun(ss, aa, StopCancel(1));
    ss, aa := ExtendRun(ss, aa, StopClearLister(1));
    ss, aa := ExtendRun(ss, aa, StopClearCancel(1));
    assert ss[|ss| - 1].stops == map[2 := Loaded(0)];
  }

  /** The second Stop, still holding the old cancel function, clears the lister of the new Setup. */
  lemma StaleStop(states: seq<State>, actions: seq<Action>) returns (ss: seq<State>, aa: seq<Action>)
    requires IsRun(states, actions)
    requires var s := states[|states| - 1];
             s.setups == map[0 := ListerStored(1)] && s.stops == map[2 := Loaded(0)] && s.live == {1}
    ensures IsRun(ss, aa) && ss[0] == states[0]
    ensures var s := states[|states| - 1];
            ss[|ss| - 1] == s.(setups := map[0 := Returning(1)], stops := map[2 := ListerCleared(0)],
                               lister := None, cancel := Some(1), clears := s.clears + 1)
  {
    ss, aa := ExtendRun(states, actions, StopCancel(2));
    assert {1} - {0} == {1};
    ss, aa := ExtendRun(ss, aa, StopClearLister(2));
    ss, aa := ExtendRun(ss, aa, SetupStoreCancel(0));
  }

  /**
   * Without the assumption on Stop the protocol fails: two Stops that overlap around a Setup end
   * in a state where nothing is under way, both pointers are nil, and an informer is still live
   * that no later Stop can reach.
   */
  lemma OverlappingStopsLeak() returns (states: seq<State>, actions: seq<Action>)
    ensures IsRun(states, actions) && states[0] == INIT
    ensures var s := states[|states| - 1];
            Settled(s) && s.cancel == None && s.lister == None && s.live == {1}
  {
    states, actions := TwoStopsLoaded();
    states, actions := SetupUpToLastStore(states, actions, 0);
    ghost var s := states[|states| - 1];
    assert s.setups == map[0 := ListerStored(1)] && s.live == {1};
    states, actions := StaleStop(states, actions);
    s := states[|states| - 1];
    states, actions := ExtendRun(states, actions, SetupUnlock(0));
    states, actions := ExtendRun(states, actions, StopClearCancel(2));
    s := states[|states| - 1];
    assert s.setups == map[] && s.stops == map[];
  }

  // ----- The assumption is needed for the informers too -----

  /** An informer under construction is not the one a guard or a Stop refers to. */
  ghost predicate FreshInv(s: State) {
    && (s.cancel.Some? ==> s.cancel.value < s.next)
    && (forall u :: u in s.stops ==> s.stops[u].inst < s.next)
    && (forall t :: t in s.setups ==>
          s.setups[t].inst < s.next && (s.setups[t].Returning? || Unshared(s, s.setups[t].inst)))
  }

  ghost predicate Unshared(s: State, j: Inst) {
    s.cancel != Some(j) && forall u :: u in s.stops ==> s.stops[u].inst != j
  }

  lemma StepKeepsNumbers(s: State, a: Action, s': State)
    requires FreshInv(s) && Step(s, a) == Some(s')
    ensures s.next <= s'.next && (s'.cancel.Some? ==> s'.cancel.value < s'.next)
    ensures forall u :: u in s'.stops ==> s'.stops[u].inst < s'.next
  {
  }

  /** Only the last store of the attempt itself makes its number known to others. */
  lemma StepKeepsUnshared(s: State, a: Action, s': State, j: Inst)
    requires Step(s, a) == Some(s') && Unshared(s, j) && !(a.SetupStoreCancel? && s.setups[a.t].inst == j)
    ensures Unshared(s', j)
  {
  }

  lemma StepKeepsFresh(s: State, a: Action, s': State)
    requires MutexInv(s) && FreshInv(s) && Step(s, a) == Some(s')
    ensures FreshInv(s')
  {
    StepKeepsNumbers(s, a, s');
    forall t | t in s'.setups
      ensures s'.setups[t].inst < s'.next && (s'.setups[t].Returning? || Unshared(s', s'.setups[t].inst))
    {
      SetupCases(s, a, s', t);
      if !s'.setups[t].Returning? { StepKeepsUnshared(s, a, s', s'.setups[t].inst); }
    }
  }

  /** A Setup under way after a step was under way before with the same number, or has just taken the mutex. */
  lemma SetupCases(s: State, a: Action, s': State, t: Thread)
    requires MutexInv(s) && FreshInv(s) && Step(s, a) == Some(s') && t in s'.setups
    ensures s'.setups[t].inst < s'.next
    ensures !s'.setups[t].Returning? ==>
              Unshared(s, s'.setups[t].inst) && !(a.SetupStoreCancel? && s.setups[a.t].inst == s'.setups[t].inst)
  {
    assert a.t in s.setups ==> s.mu == Some(BySetup(a.t));
    assert t in s.setups ==> s.mu == Some(BySetup(t));
  }

  lemma {:induction false} FreshHolds(states: seq<State>, actions: seq<Action>, k: nat)
    requires IsRun(states, actions) && states[0] == INIT && k < |states|
    ensures MutexInv(states[k]) && FreshInv(states[k])
  {
    if k > 0 {
      FreshHolds(states, actions, k - 1);
      assert Step(states[k - 1], actions[k - 1]) == Some(states[k]);
      StepKeepsMutex(states[k - 1], actions[k - 1], states[k]);
      StepKeepsFresh(states[k - 1], actions[k - 1], states[k]);
    }
  }

  /** A continuation that consists of further steps of calls already in flight. */
  ghost predicate Continues(states: seq<State>, actions: seq<Action>, ss: seq<State>, aa: seq<Action>) {
    && IsRun(states, actions) && IsRun(ss, aa) && states <= ss && actions <= aa
    && forall i :: |actions| <= i < |aa| ==> !aa[i].SetupLock? && !aa[i].StopLoad? && !IsReaderAction(aa[i])
  }

  lemma Continue(states: seq<State>, actions: seq<Action>, ss: seq<State>, aa: seq<Action>, a: Action)
    returns (ss': seq<State>, aa': seq<Action>)
    requires Continues(states, actions, ss, aa) && Step(ss[|ss| - 1], a).Some?
    requires !a.SetupLock? && !a.StopLoad? && !IsReaderAction(a)
    ensures Continues(states, actions, ss', aa') && ss'[|ss'| - 1] == Step(ss[|ss| - 1], a).value
  {
    ss', aa' := ExtendRun(ss, aa, a);
  }

  /** The Setup that has passed its guard goes on until its cache has synced, */
  lemma FinishSync(states: seq<State>, actions: seq<Action>, t: Thread, j: Inst)
    returns (ss: seq<State>, aa: seq<Action>)
    requires IsRun(states, actions)
    requires var s := states[|states| - 1]; t in s.setups && s.setups[t] == Passed(j)
    ensures Continues(states, actions, ss, aa)
    ensures var s, s' := states[|states| - 1], ss[|ss| - 1];
            s'.stops == s.stops && s'.setups == s.setups[t := Synced(j)] && j in s'.live
  {
    ss, aa := Continue(states, actions, states, actions, SetupCreate(t));
    ss, aa := Continue(states, actions, ss, aa, SetupPollDone(t));
    ss, aa := Continue(states, actions, ss, aa, SetupSyncDone(t));
  }

  /** and makes its two stores. */
  lemma FinishStores(states: seq<State>, actions: seq<Action>, t: Thread, j: Inst)
    returns (ss: seq<State>, aa: seq<Action>)
    requires IsRun(states, actions)
    requires var s := states[|states| - 1]; t in s.setups && s.setups[t] == Passed(j)
    ensures Continues(states, actions, ss, aa)
    ensures var s, s' := states[|states| - 1], ss[|ss| - 1];
            s'.stops == s.stops && s'.setups == s.setups[t := Returning(j)] && j in s'.live
  {
    ss, aa := FinishSync(states, actions, t, j);
    ss, aa := Continue(states, actions, ss, aa, SetupStoreLister(t));
    ss, aa := Continue(states, actions, ss, aa, SetupStoreCancel(t));
  }

  /** One Stop runs to its end; informers other than its own stay live. */
  lemma FinishStop(states: seq<State>, actions: seq<Action>, ss: seq<State>, aa: seq<Action>, u: Thread)
    returns (ss': seq<State>, aa': seq<Action>)
    requires Continues(states, actions, ss, aa) && u in ss[|ss| - 1].stops
    ensures Continues(states, actions, ss', aa')
    ensures var s, s' := ss[|ss| - 1], ss'[|ss'| - 1];
            && s'.stops == s.stops - {u} && s'.setups == s.setups && s'.cancel == None
            && s.live - {s.stops[u].inst} <= s'.live
  {
    ss', aa' := ss, aa;
    var s := ss[|ss| - 1];
    if s.stops[u].Loaded? {
      ss', aa' := Continue(states, actions, ss', aa', StopCancel(u));
    }
    if !s.stops[u].ListerCleared? {
      ss', aa' := Continue(states, actions, ss', aa', StopClearLister(u));
    }
    ss', aa' := Continue(states, actions, ss', aa', StopClearCancel(u));
  }

  lemma {:induction false} FinishStops(states: seq<State>, actions: seq<Action>, ss: seq<State>, aa: seq<Action>,
                                       j: Inst)
    returns (ss': seq<State>, aa': seq<Action>)
    requires Continues(states, actions, ss, aa)
    requires var s := ss[|ss| - 1]; s.stops != map[] && j in s.live && forall u :: u in s.stops ==> s.stops[u].inst != j
    ensures Continues(states, actions, ss', aa')
    ensures var s, s' := ss[|ss| - 1], ss'[|ss'| - 1];
            s'.stops == map[] && s'.setups == s.setups && s'.cancel == None && j in s'.live
    decreases |ss[|ss| - 1].stops|
  {
    var s := ss[|ss| - 1];
    var u :| u in s.stops;
    ss', aa' := FinishStop(states, actions, ss, aa, u);
    if s.stops - {u} != map[] {
      assert (s.stops - {u}).Keys == s.stops.Keys - {u};
      ss', aa' := FinishStops(states, actions, ss', aa', j);
    }
  }

  /**
   * And it is needed for the informers: from every reachable state in which a Setup has just
   * passed its guard under a Stop in flight, the remaining steps of the calls in flight can lead
   * to a settled state without a guard in which the new informer is live, out of reach of any Stop.
   */
  lemma UnguardedLeaks(states: seq<State>, actions: seq<Action>, k: nat) returns (ss: seq<State>, aa: seq<Action>)
    requires IsRun(states, actions) && states[0] == INIT && k < |actions|
    requires PassesGuard(states[k], actions[k]) && states[k].stops != map[]
    ensures Continues(states[..k + 2], actions[..k + 1], ss, aa)
    ensures var s := ss[|ss| - 1]; Settled(s) && s.cancel == None && states[k].setups[actions[k].t].inst in s.live
  {
    var t := actions[k].t;
    var j := states[k].setups[t].inst;
    assert Step(states[k], actions[k]) == Some(states[k + 1]);
    FreshHolds(states, actions, k + 1);
    var ss0, aa0 := states[..k + 2], actions[..k + 1];
    assert IsRun(ss0, aa0) && ss0[|ss0| - 1] == states[k + 1];
    ss, aa := FinishStores(ss0, aa0, t, j);
    ss, aa := FinishStops(ss0, aa0, ss, aa, j);
    ss, aa := Continue(ss0, aa0, ss, aa, SetupUnlock(t));
    OnlySetup(states[k + 1], t);
  }

  lemma OnlySetup(s: State, t: Thread)
    requires MutexInv(s) && t in s.setups
    ensures s.setups.Keys == {t}
  {
    forall u | u in s.setups ensures u == t {
      assert s.mu == Some(BySetup(u)) && s.mu == Some(BySetup(t));
    }
  }

  // ----- The methods themselves -----

  /** One answer of the API server to the poll for the CRD. */
  datatype Poll = NotInstalled | LookupFailed | Installed

  /** How a Setup call ends. */
  datatype Ending = Skipped | PollFailed | SyncFailed | Succeeded

  /** The atomic steps of a Setup call after the polling has ended. */
  function FinishSteps(t: Thread, installed: bool, cacheSyncs: bool): seq<Action> {
    if !installed then [SetupPollFail(t), SetupDeferredCancel(t), SetupUnlock(t)]
    else if !cacheSyncs then [SetupPollDone(t), SetupSyncFail(t), SetupDeferredCancel(t), SetupUnlock(t)]
    else [SetupPollDone(t), SetupSyncDone(t), SetupStoreLister(t), SetupStoreCancel(t), SetupUnlock(t)]
  }

  /** The atomic steps of a whole Setup call, in program order. */
  function SetupSteps(t: Thread, e: Ending): seq<Action> {
    match e
    case Skipped => [SetupLock(t), SetupCheck(t), SetupUnlock(t)]
    case PollFailed =>
      [SetupLock(t), SetupCheck(t), SetupCreate(t), SetupPollFail(t), SetupDeferredCancel(t), SetupUnlock(t)]
    case SyncFailed =>
      [SetupLock(t), SetupCheck(t), SetupCreate(t), SetupPollDone(t), SetupSyncFail(t),
       SetupDeferredCancel(t), SetupUnlock(t)]
    case Succeeded =>
      [SetupLock(t), SetupCheck(t), SetupCreate(t), SetupPollDone(t), SetupSyncDone(t),
       SetupStoreLister(t), SetupStoreCancel(t), SetupUnlock(t)]
  }

  /**
   * The DynamicInformer object when its methods run one after the other. `states` and `actions`
   * record every atomic step; `Record` accepts a step only if the fields have changed by exactly
   * that step of the protocol, so that the statements of the methods are its steps in this order.
   */
  class Informer {
    var mu: Option<Holder>
    var cancel: Option<Inst>
    var lister: Option<Inst>
    var next: Inst
    ghost var setups: map<Thread, SetupPc>
    ghost var stops: map<Thread, StopPc>
    ghost var live: set<Inst>
    ghost var synced: set<Inst>
    ghost var unsuccessful: set<Inst>
    ghost var clears: nat
    ghost var storedAt: map<Inst, nat>
    ghost var states: seq<State>
    ghost var actions: seq<Action>

    ghost function View(): State
      reads this
    {
      State(mu, cancel, lister, setups, stops, map[], next, live, synced, unsuccessful, clears, storedAt)
    }

    /** All steps so far are a run of the protocol that has led here. */
    ghost predicate Traced()
      reads this
    {
      IsRun(states, actions) && states[0] == INIT && states[|states| - 1] == View()
    }

    /** Between calls nothing is locked or under way, and the three facts of SettledAgreement hold. */
    ghost predicate Valid()
      reads this
    {
      && Traced()
      && mu == None && setups == map[] && stops == map[]
      && cancel == lister
      && live == (if cancel.Some? then {cancel.value} else {})
      && (forall i :: i in live ==> i < next)
    }

    constructor ()
      ensures Valid() && View() == INIT && actions == []
    {
      mu, cancel, lister, next := None, None, None, 0;
      setups, stops, live, synced, unsuccessful, clears, storedAt := map[], map[], {}, {}, {}, 0, map[];
      states, actions := [INIT], [];
    }

    ghost method Record(a: Action)
      requires IsRun(states, actions) && states[0] == INIT && Step(states[|states| - 1], a) == Some(View())
      modifies this`states, this`actions
      ensures Traced() && actions == old(actions) + [a]
    {
      states, actions := states + [View()], actions + [a];
    }

    // The atomic operations. Each requires that the caller has got as far as this step.

    method Lock(t: Thread) returns (j: Inst)
      requires Traced() && mu == None
      modifies this
      ensures Traced() && actions == old(actions) + [SetupLock(t)] && j == old(next)
      ensures View() == old(View()).(mu := Some(BySetup(t)), setups := old(setups)[t := Locked(j)], next := j + 1)
    {
      mu := Some(BySetup(t));
      j := next;
      setups, next := setups[t := Locked(j)], next + 1;
      Record(SetupLock(t));
    }

    method LoadGuard(t: Thread, ghost j: Inst) returns (found: bool)
      requires Traced() && setups == map[t := Locked(j)]
      modifies this
      ensures Traced() && actions == old(actions) + [SetupCheck(t)] && found == cancel.Some?
      ensures View() == old(View()).(setups := map[t := if found then Returning(j) else Passed(j)],
                                     unsuccessful := if found then old(unsuccessful) + {j} else old(unsuccessful))
    {
      found := cancel.Some?;
      setups := setups[t := if found then Returning(j) else Passed(j)];
      unsuccessful := if found then unsuccessful + {j} else unsuccessful;
      Record(SetupCheck(t));
    }

    method CreateContext(t: Thread, ghost j: Inst)
      requires Traced() && setups == map[t := Passed(j)]
      modifies this
      ensures Traced() && actions == old(actions) + [SetupCreate(t)]
      ensures View() == old(View()).(setups := map[t := Created(j)], live := old(live) + {j})
    {
      setups, live := setups[t := Created(j)], live + {j};
      Record(SetupCreate(t));
    }

    method EndPoll(t: Thread, ghost j: Inst, done: bool)
      requires Traced() && setups == map[t := Created(j)]
      modifies this
      ensures Traced() && actions == old(actions) + [if done then SetupPollDone(t) else SetupPollFail(t)]
      ensures View() == old(View()).(setups := map[t := if done then Started(j) else Failing(j)],
                                     unsuccessful := if done then old(unsuccessful) else old(unsuccessful) + {j})
    {
      setups := setups[t := if done then Started(j) else Failing(j)];
      unsuccessful := if done then unsuccessful else unsuccessful + {j};
      Record(if done then SetupPollDone(t) else SetupPollFail(t));
    }

    method EndSync(t: Thread, ghost j: Inst, done: bool)
      requires Traced() && setups == map[t := Started(j)]
      modifies this
      ensures Traced() && actions == old(actions) + [if done then SetupSyncDone(t) else SetupSyncFail(t)]
      ensures View() == old(View()).(setups := map[t := if done then Synced(j) else Failing(j)],
                                     synced := if done then old(synced) + {j} else old(synced),
                                     unsuccessful := if done then old(unsuccessful) else old(unsuccessful) + {j})
    {
      setups := setups[t := if done then Synced(j) else Failing(j)];
      synced := if done then synced + {j} else synced;
      unsuccessful := if done then unsuccessful else unsuccessful + {j};
      Record(if done then SetupSyncDone(t) else SetupSyncFail(t));
    }

    method StoreLister(t: Thread, j: Inst)
      requires Traced() && setups == map[t := Synced(j)]
      modifies this
      ensures Traced() && actions == old(actions) + [SetupStoreLister(t)]
      ensures View() ==
              old(View()).(setups := map[t := ListerStored(j)], lister := Some(j),
                           storedAt := old(storedAt)[j := clears])
    {
      lister := Some(j);
      setups, storedAt := setups[t := ListerStored(j)], storedAt[j := clears];
      Record(SetupStoreLister(t));
    }

    method StoreCancel(t: Thread, j: Inst)
      requires Traced() && setups == map[t := ListerStored(j)]
      modifies this
      ensures Traced() && actions == old(actions) + [SetupStoreCancel(t)]
      ensures View() == old(View()).(setups := map[t := Returning(j)], cancel := Some(j))
    {
      cancel := Some(j);
      setups := setups[t := Returning(j)];
      Record(SetupStoreCancel(t));
    }

    method DeferredCancel(t: Thread, ghost j: Inst)
      requires Traced() && setups == map[t := Failing(j)]
      modifies this
      ensures Traced() && actions == old(actions) + [SetupDeferredCancel(t)]
      ensures View() == old(View()).(setups := map[t := Returning(j)], live := old(live) - {j})
    {
      setups, live := setups[t := Returning(j)], live - {j};
      Record(SetupDeferredCancel(t));
    }

    method Unlock(t: Thread, ghost j: Inst)
      requires Traced() && setups == map[t := Returning(j)]
      modifies this
      ensures Traced() && actions == old(actions) + [SetupUnlock(t)]
      ensures View() == old(View()).(mu := None, setups := map[])
    {
      mu := None;
      setups := setups - {t};
      Record(SetupUnlock(t));
    }

    method LoadCancel(t: Thread) returns (loaded: Option<Inst>)
      requires Traced() && stops == map[]
      modifies this
      ensures Traced() && actions == old(actions) + [StopLoad(t)] && loaded == old(cancel)
      ensures View() == if loaded.None? then old(View()) else old(View()).(stops := map[t := Loaded(loaded.value)])
    {
      loaded := cancel;
      stops := if loaded.None? then stops else stops[t := Loaded(loaded.value)];
      Record(StopLoad(t));
    }

    method CallCancel(t: Thread, i: Inst)
      requires Traced() && stops == map[t := Loaded(i)]
      modifies this
      ensures Traced() && actions == old(actions) + [StopCancel(t)]
      ensures View() == old(View()).(stops := map[t := Cancelled(i)], live := old(live) - {i})
    {
      stops, live := stops[t := Cancelled(i)], live - {i};
      Record(StopCancel(t));
    }

    method ClearLister(t: Thread, ghost i: Inst)
      requires Traced() && stops == map[t := Cancelled(i)]
      modifies this
      ensures Traced() && actions == old(actions) + [StopClearLister(t)]
      ensures View() == old(View()).(stops := map[t := ListerCleared(i)], lister := None, clears := old(clears) + 1)
    {
      lister := None;
      stops, clears := stops[t := ListerCleared(i)], clears + 1;
      Record(StopClearLister(t));
    }

    method ClearCancel(t: Thread, ghost i: Inst)
      requires Traced() && stops == map[t := ListerCleared(i)]
      modifies this
      ensures Traced() && actions == old(actions) + [StopClearCancel(t)]
      ensures View() == old(View()).(stops := map[], cancel := None)
    {
      cancel := None;
      stops := stops - {t};
      Record(StopClearCancel(t));
    }

    /** Lock, load the guard, and create the context unless the guard was set. */
    method BeginSetup(t: Thread) returns (j: Inst, found: bool)
      requires Valid()
      modifies this
      ensures Traced() && j == old(next) && found == old(cancel).Some?
      ensures stops == map[] && cancel == old(cancel) && lister == old(lister) && next == j + 1
      ensures mu == Some(BySetup(t))
      ensures setups == map[t := if found then Returning(j) else Created(j)]
      ensures live == if found then old(live) else {j}
      ensures actions == old(actions) + [SetupLock(t), SetupCheck(t)] + (if found then [] else [SetupCreate(t)])
    {
      j := Lock(t);
      found := LoadGuard(t, j);
      if !found {
        CreateContext(t, j);
      }
    }

    /** The rest of a Setup after the polling has ended. */
    method FinishSetup(t: Thread, j: Inst, installed: bool, cacheSyncs: bool) returns (ok: bool)
      requires Traced() && setups == map[t := Created(j)] && live == {j}
      modifies this
      ensures Traced() && ok == (installed && cacheSyncs)
      ensures mu == None && setups == map[] && stops == old(stops) && next == old(next)
      ensures if ok then cancel == lister == Some(j) && live == {j} && j in synced
              else cancel == old(cancel) && lister == old(lister) && live == {}
      ensures actions == old(actions) + FinishSteps(t, installed, cacheSyncs)
    {
      EndPoll(t, j, installed);
      if installed {
        EndSync(t, j, cacheSyncs);
      }
      ok := installed && cacheSyncs;
      if !ok {
        DeferredCancel(t, j);
        Unlock(t, j);
        return;
      }
      StoreLister(t, j);
      StoreCancel(t, j);
      Unlock(t, j);
    }

    /**
     * `polls` are the answers to the CRD polls until the context is cancelled, and `cacheSyncs`
     * is what WaitForCacheSync returns.
     */
    method Setup(t: Thread, polls: seq<Poll>, cacheSyncs: bool) returns (ok: bool)
      requires Valid()
      modifies this
      ensures Valid()
      ensures var ending := if old(cancel).Some? then Skipped else if Installed !in polls then PollFailed
                            else if !cacheSyncs then SyncFailed else Succeeded;
              && actions == old(actions) + SetupSteps(t, ending)
              && (ok <==> ending == Skipped || ending == Succeeded)
              && cancel == (if ending == Succeeded then Some(old(next)) else old(cancel))
              && (ending == Succeeded ==> old(next) in synced)
    {
      var j, found := BeginSetup(t);
      if found {
        Unlock(t, j);
        return true;
      }
      var i := 0;
      while i < |polls| && polls[i] != Installed
        invariant 0 <= i <= |polls|
        invariant Installed !in polls[..i]
      {
        i := i + 1;
      }
      assert polls[..|polls|] == polls;
      ok := FinishSetup(t, j, i < |polls|, cacheSyncs);
    }

    method Stop(t: Thread)
      requires Valid()
      modifies this
      ensures Valid() && cancel == None
      ensures actions == old(actions) + (if old(cancel).None? then [StopLoad(t)]
                                         else [StopLoad(t), StopCancel(t), StopClearLister(t), StopClearCancel(t)])
    {
      var loaded := LoadCancel(t);
      if loaded.None? {
        return;
      }
      CallCancel(t, loaded.value);
      ClearLister(t, loaded.value);
      ClearCancel(t, loaded.value);
    }
  }
}
