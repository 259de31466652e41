/**
 * The scaler (pkg/scaler): reconciles are requested only on the edges of an object population
 * (first object added, last one deleted), while the reconciler applies a level function of
 * that population. A shared informer updates its cache first and calls the handler later, and
 * a reconcile is dequeued, reads the cache and writes its target in separate steps.
 */
module Scaler {
  import opened Prelude

  const MT_CHANNEL_BROKER_CLASS := "MTChannelBasedBroker"

  datatype Obj = Obj(name: string, brokerClass: string)

  /** The informer's cache: the class annotation of every object, by namespaced name. */
  type Cache = map<string, string>

  /** Brokers are filtered by class; for in-memory channels the filter is nil. */
  datatype Watch = Brokers | Channels

  /** The objects a changed object is counted with: those of its class, or all of them. */
  function Scope(w: Watch, brokerClass: string): Option<string> {
    match w case Brokers => Some(brokerClass) case Channels => None
  }

  /** The objects the scale target depends on. */
  function TargetScope(w: Watch): Option<string> {
    Scope(w, MT_CHANNEL_BROKER_CLASS)
  }

  function Members(c: Cache, scope: Option<string>): set<string> {
    set n | n in c && (scope.Some? ==> c[n] == scope.value)
  }

  /** MTBrokerScaleTarget and IMCScaleTarget as functions of the cache. */
  function Level(w: Watch, c: Cache): int {
    if Members(c, TargetScope(w)) == {} then 0 else 1
  }

  /** The scale targets in plain words: is there a broker of the multi-tenant class, is there a channel? */
  lemma LevelMeaning(c: Cache)
    ensures Level(Brokers, c) == if exists n :: n in c && c[n] == "MTChannelBasedBroker" then 1 else 0
    ensures Level(Channels, c) == if c == map[] then 0 else 1
  {
    assert Members(c, Some("MTChannelBasedBroker")) == set n | n in c && c[n] == "MTChannelBasedBroker";
    if n :| n in c && c[n] == "MTChannelBasedBroker" {
      assert n in Members(c, Some("MTChannelBasedBroker"));
    }
    assert Members(c, None) == c.Keys;
    assert c.Keys == {} ==> c == map[];
  }

  // ----- The methods -----

  /** A lister returns every cached object once, in any order. */
  ghost predicate Lists(objs: seq<Obj>, c: Cache) {
    && (forall o :: o in objs ==> o.name in c && c[o.name] == o.brokerClass)
    && (forall n :: n in c ==> Obj(n, c[n]) in objs)
    && (forall i, j :: 0 <= i < j < |objs| ==> objs[i].name != objs[j].name)
  }

  /** The objects of a listing that are in scope, in order. */
  function Select(objs: seq<Obj>, scope: Option<string>): seq<Obj> {
    if objs == [] then []
    else
      var last := objs[|objs| - 1];
      Select(objs[..|objs| - 1], scope) + (if scope.None? || last.brokerClass == scope.value then [last] else [])
  }

  /** Filtering a listing of the cache leaves one object for every member of the scope. */
  lemma {:induction false} SelectedCount(objs: seq<Obj>, c: Cache, scope: Option<string>)
    requires Lists(objs, c)
    ensures |Select(objs, scope)| == |Members(c, scope)|
  {
    if objs == [] {
      assert forall n :: n in c ==> Obj(n, c[n]) in objs;
      assert Members(c, scope) == {};
    } else {
      var last := objs[|objs| - 1];
      var rest := c - {last.name};
      ListsInit(objs, c);
      SelectedCount(objs[..|objs| - 1], rest, scope);
      MembersWithout(c, last.name, scope);
      assert last in objs;
    }
  }

  lemma MembersWithout(c: Cache, n: string, scope: Option<string>)
    requires n in c
    ensures |Members(c, scope)| == |Members(c - {n}, scope)| + (if scope.None? || c[n] == scope.value then 1 else 0)
  {
    if scope.None? || c[n] == scope.value {
      assert Members(c, scope) == Members(c - {n}, scope) + {n};
    } else {
      assert Members(c, scope) == Members(c - {n}, scope);
    }
  }

  lemma ListsInit(objs: seq<Obj>, c: Cache)
    requires Lists(objs, c) && objs != []
    ensures Lists(objs[..|objs| - 1], c - {objs[|objs| - 1].name})
  {
    var last := |objs| - 1;
    var rest := c - {objs[last].name};
    forall o | o in objs[..last] ensures o.name in rest && rest[o.name] == o.brokerClass {
      var i :| 0 <= i < last && objs[i] == o;
      assert objs[i].name != objs[last].name;
    }
    forall n | n in rest ensures Obj(n, rest[n]) in objs[..last] {
      var i :| 0 <= i < |objs| && objs[i] == Obj(n, c[n]);
      assert objs[..last][i] == objs[i];
    }
  }

  /** The filtering loop shared by both handlers and MTBrokerScaleTarget. */
  method FilterObjects(objs: seq<Obj>, scope: Option<string>, ghost c: Cache) returns (filtered: seq<Obj>)
    requires Lists(objs, c)
    ensures filtered == Select(objs, scope) && |filtered| == |Members(c, scope)|
  {
    filtered := [];
    for i := 0 to |objs|
      invariant filtered == Select(objs[..i], scope)
    {
      assert objs[..i + 1][..i] == objs[..i];
      if scope.None? || objs[i].brokerClass == scope.value {
        filtered := filtered + [objs[i]];
      }
    }
    assert objs[..|objs|] == objs;
    SelectedCount(objs, c, scope);
  }

  /** What List returns: the cached objects, or an error. */
  type Listing = Option<seq<Obj>>

  /** `lister` is None while no lister is stored, otherwise it is what the loaded lister returns. */
  method ScaleTarget(w: Watch, lister: Option<Listing>, ghost c: Cache) returns (target: Option<int>)
    requires lister.Some? && lister.value.Some? ==> Lists(lister.value.value, c)
    ensures target == if lister.None? then Some(0) else if lister.value.None? then None else Some(Level(w, c))
  {
    if lister.None? {
      return Some(0);
    }
    if lister.value.None? {
      return None;
    }
    var found := FilterObjects(lister.value.value, TargetScope(w), c);
    target := Some(if |found| == 0 then 0 else 1);
  }

  datatype Event = Added(name: string, brokerClass: string)
    | Updated(name: string, brokerClass: string)
    | Deleted(name: string, brokerClass: string)

  /** Does the handler call resyncFunc on event `e`, given what it then finds in the cache? */
  predicate Fires(w: Watch, e: Event, c: Cache, synced: bool) {
    match e
    case Added(_, brokerClass) => synced && |Members(c, Scope(w, brokerClass))| == 1
    case Updated(_, _) => false
    case Deleted(_, brokerClass) => Members(c, Scope(w, brokerClass)) == {}
  }

  /** A failed List ends the handler without a resync. */
  method HandleEvent(w: Watch, e: Event, synced: bool, listing: Listing, ghost c: Cache) returns (resync: bool)
    requires listing.Some? ==> Lists(listing.value, c)
    ensures resync <==> listing.Some? && Fires(w, e, c, synced)
  {
    resync := false;
    if e.Updated? || (e.Added? && !synced) || listing.None? {
      return;
    }
    var found := FilterObjects(listing.value, Scope(w, e.brokerClass), c);
    if e.Added? {
      resync := |found| == 1;
    } else {
      resync := |found| == 0;
    }
  }

  // ----- The protocol -----

  function Apply(c: Cache, e: Event): Cache {
    match e
    case Deleted(n, _) => c - {n}
    case _ => c[e.name := e.brokerClass]
  }

  /** The cache after the first `k` events. */
  function CacheAt(initial: Cache, log: seq<Event>, k: nat): Cache
    requires k <= |log|
  {
    if k == 0 then initial else Apply(CacheAt(initial, log, k - 1), log[k - 1])
  }

  /** Objects are added once, and delete events carry the object that was cached. */
  predicate ValidEvent(c: Cache, e: Event) {
    match e
    case Added(n, _) => n !in c
    case Updated(n, _) => n in c
    case Deleted(n, brokerClass) => n in c && c[n] == brokerClass
  }

  /** The class of an object does not change. */
  predicate KeepsClass(c: Cache, e: Event) {
    e.Updated? && e.name in c ==> c[e.name] == e.brokerClass
  }

  /** What the reconcile in progress has done so far. */
  datatype Work = Idle | Dequeued | HasRead(target: int)

  datatype State = State(cached: nat, handled: nat, synced: bool, pending: bool, work: Work, applied: int)

  datatype Action = CacheEvent | CallHandler | FinishSync | Enqueue | Dequeue | ReadTarget | WriteTarget | FailReconcile

  /** The watched kind, the cache at the start and all events after it. */
  datatype Env = Env(watch: Watch, initial: Cache, log: seq<Event>) {
    function Cache(k: nat): Cache
      requires k <= |log|
    {
      CacheAt(initial, log, k)
    }
  }

  predicate ValidAt(env: Env, k: nat)
    requires k < |env.log|
  {
    ValidEvent(env.Cache(k), env.log[k])
  }

  ghost predicate ValidEvents(env: Env) {
    forall k :: 0 <= k < |env.log| ==> ValidAt(env, k)
  }

  predicate KeepsClassAt(env: Env, k: nat)
    requires k < |env.log|
  {
    env.watch.Brokers? ==> KeepsClass(env.Cache(k), env.log[k])
  }

  /** A valid log in which no broker changes its class; the class of a channel means nothing. */
  ghost predicate ValidLog(env: Env) {
    ValidEvents(env) && forall k :: 0 <= k < |env.log| ==> KeepsClassAt(env, k)
  }

  function Step(env: Env, s: State, a: Action): Option<State>
    requires s.cached <= |env.log|
  {
    match a
    case CacheEvent => if s.cached < |env.log| then Some(s.(cached := s.cached + 1)) else None
    case CallHandler =>
      if s.handled < s.cached then
        var fires := Fires(env.watch, env.log[s.handled], env.Cache(s.cached), s.synced);
        Some(s.(handled := s.handled + 1, pending := s.pending || fires))
      else None
    case FinishSync => Some(s.(synced := true))
    case Enqueue => Some(s.(pending := true))
    case Dequeue => if s.pending && s.work.Idle? then Some(s.(pending := false, work := Dequeued)) else None
    case ReadTarget =>
      if s.work.Dequeued? then Some(s.(work := HasRead(Level(env.watch, env.Cache(s.cached))))) else None
    case WriteTarget => if s.work.HasRead? then Some(s.(applied := s.work.target, work := Idle)) else None
    case FailReconcile => if !s.work.Idle? then Some(s.(pending := true, work := Idle)) else None
  }

  ghost predicate IsRun(env: Env, states: seq<State>, actions: seq<Action>) {
    && |states| == |actions| + 1
    && (forall k :: 0 <= k < |states| ==> states[k].cached <= |env.log|)
    && (forall k :: 0 <= k < |actions| ==> Step(env, states[k], actions[k]) == Some(states[k + 1]))
  }

  /** Nothing delivered yet, nothing queued, and the applied target is right. */
  ghost predicate Start(env: Env, s: State) {
    s.cached == 0 && s.handled == 0 && !s.pending && s.work.Idle? && s.applied == Level(env.watch, env.initial)
  }

  /** No reconcile is queued or running. */
  predicate Quiet(s: State) {
    !s.pending && s.work.Idle?
  }

  /** Unless a read of the cache is still to come, the value last read is `n`. */
  predicate Holds(s: State, n: int) {
    match s.work
    case Idle => s.applied == n
    case Dequeued => true
    case HasRead(v) => v == n
  }

  // ----- Scale-down under any lag -----

  /** A deletion that concerns the target is cached but its handler call is still to come. */
  ghost predicate DeleteOutstanding(env: Env, s: State)
    requires s.cached <= |env.log|
  {
    exists i :: s.handled <= i < s.cached && env.log[i].Deleted? && ConcernsTarget(env, env.log[i])
  }

  ghost predicate DownInv(env: Env, s: State) {
    && s.handled <= s.cached <= |env.log|
    && (Level(env.watch, env.Cache(s.cached)) == 0 && !s.pending ==> Holds(s, 0) || DeleteOutstanding(env, s))
  }

  /** The members of the target's population after the first `k` events. */
  function Targets(env: Env, k: nat): set<string>
    requires k <= |env.log|
  {
    Members(env.Cache(k), TargetScope(env.watch))
  }

  predicate ConcernsTarget(env: Env, e: Event) {
    Scope(env.watch, e.brokerClass) == TargetScope(env.watch)
  }

  /** An update takes the last object out of the target's population. */
  predicate EmptyingUpdate(env: Env, k: nat)
    requires k < |env.log|
  {
    env.log[k].Updated? && Targets(env, k) != {} && Targets(env, k + 1) == {}
  }

  ghost predicate NoUpdateEmpties(env: Env) {
    forall k :: 0 <= k < |env.log| ==> !EmptyingUpdate(env, k)
  }

  /** An event that empties the target's population is a deletion of one of its objects. */
  lemma EmptiedByDelete(env: Env, k: nat)
    requires ValidEvents(env) && NoUpdateEmpties(env) && k < |env.log|
    requires Targets(env, k) != {} && Targets(env, k + 1) == {}
    ensures env.log[k].Deleted? && ConcernsTarget(env, env.log[k])
  {
    var c, e := env.Cache(k), env.log[k];
    assert ValidAt(env, k) && !EmptyingUpdate(env, k);
    var n :| n in Targets(env, k);
    assert n !in Targets(env, k + 1);
    assert e.Added? ==> n in Apply(c, e);
  }

  lemma StepKeepsDown(env: Env, s: State, a: Action, s': State)
    requires ValidEvents(env) && NoUpdateEmpties(env) && DownInv(env, s) && Step(env, s, a) == Some(s')
    ensures DownInv(env, s')
  {
    if Level(env.watch, env.Cache(s'.cached)) == 0 && !s'.pending && !Holds(s', 0) {
      if a.CacheEvent? && Level(env.watch, env.Cache(s.cached)) == 1 {
        EmptiedByDelete(env, s.cached);
        assert s'.handled <= s.cached < s'.cached;
      } else {
        StepKeepsOutstanding(env, s, a, s');
      }
    }
  }

  /** An outstanding deletion stays outstanding unless its handler call fires. */
  lemma StepKeepsOutstanding(env: Env, s: State, a: Action, s': State)
    requires s.handled <= s.cached <= |env.log| && Step(env, s, a) == Some(s') && DeleteOutstanding(env, s)
    requires Level(env.watch, env.Cache(s'.cached)) == 0 && !s'.pending
    ensures DeleteOutstanding(env, s')
  {
    var i :| s.handled <= i < s.cached && env.log[i].Deleted? && ConcernsTarget(env, env.log[i]);
    assert a.CallHandler? ==> i != s.handled;
    assert s'.handled <= i < s'.cached;
  }

  lemma {:induction false} DownInvHolds(env: Env, states: seq<State>, actions: seq<Action>, k: nat)
    requires ValidEvents(env) && NoUpdateEmpties(env) && IsRun(env, states, actions) && Start(env, states[0])
    requires k < |states|
    ensures DownInv(env, states[k])
  {
    if k > 0 {
      DownInvHolds(env, states, actions, k - 1);
      StepKeepsDown(env, states[k - 1], actions[k - 1], states[k]);
    }
  }

  /** Every cached event has been handled, and no reconcile is queued or running. */
  predicate Delivered(s: State) {
    s.handled == s.cached && Quiet(s)
  }

  /**
   * Scale-down is never lost, however far the handler lags behind the cache and however
   * reconciles interleave: once every cached event has been handled and no reconcile is
   * queued or running, an empty population means that the applied target is 0.
   */
  lemma ScaleDownNeverLost(env: Env, states: seq<State>, actions: seq<Action>, k: nat)
    requires ValidEvents(env) && NoUpdateEmpties(env) && IsRun(env, states, actions) && Start(env, states[0])
    requires k < |states|
    requires Delivered(states[k]) && Targets(env, states[k].cached) == {}
    ensures states[k].applied == 0
  {
    DownInvHolds(env, states, actions, k);
  }

  // ----- Both directions, without lag -----

  /** The handler runs on every event before anything else happens. */
  ghost predicate LagFree(env: Env, states: seq<State>, actions: seq<Action>) {
    && IsRun(env, states, actions)
    && forall k :: 0 <= k < |actions| ==> actions[k].CallHandler? || states[k].handled == states[k].cached
  }

  /** How an event changes the population of any scope. */
  lemma MembersAfter(c: Cache, e: Event, scope: Option<string>)
    requires ValidEvent(c, e) && (scope.Some? ==> KeepsClass(c, e))
    ensures var m, m' := Members(c, scope), Members(Apply(c, e), scope);
            if e.Updated? || (scope.Some? && e.brokerClass != scope.value) then m' == m
            else if e.Added? then m' == m + {e.name} && e.name !in m
            else m' == m - {e.name} && e.name in m
  {
  }

  /**
   * On a synced informer the handler fires exactly when the changed object's own class becomes
   * empty or stops being empty.
   */
  lemma FiresOnEdges(env: Env, k: nat)
    requires ValidLog(env) && k < |env.log|
    ensures var scope := Scope(env.watch, env.log[k].brokerClass);
            Fires(env.watch, env.log[k], env.Cache(k + 1), true) <==>
            (Members(env.Cache(k), scope) == {}) != (Members(env.Cache(k + 1), scope) == {})
  {
    var e, c := env.log[k], env.Cache(k);
    assert ValidAt(env, k) && KeepsClassAt(env, k);
    MembersAfter(c, e, Scope(env.watch, e.brokerClass));
  }

  /**
   * An event of another class leaves the target alone; one of the target's class fires whenever it
   * changes the target.
   */
  lemma LevelChangeFires(env: Env, k: nat)
    requires ValidLog(env) && k < |env.log|
    requires Level(env.watch, env.Cache(k)) != Level(env.watch, env.Cache(k + 1))
    ensures Fires(env.watch, env.log[k], env.Cache(k + 1), true)
  {
    FiresOnEdges(env, k);
    var e, c, scope := env.log[k], env.Cache(k), TargetScope(env.watch);
    assert ValidAt(env, k) && KeepsClassAt(env, k);
    MembersAfter(c, e, scope);
  }

  ghost predicate EdgeInv(env: Env, s: State) {
    && s.handled <= s.cached <= |env.log| && s.cached <= s.handled + 1
    && s.synced
    && (!s.pending ==> Holds(s, Level(env.watch, env.Cache(s.handled))))
  }

  lemma StepKeepsEdge(env: Env, s: State, a: Action, s': State)
    requires ValidLog(env) && EdgeInv(env, s) && Step(env, s, a) == Some(s')
    requires (a.CallHandler? || s.handled == s.cached)
    ensures EdgeInv(env, s')
  {
    if a.CallHandler? && Level(env.watch, env.Cache(s.handled)) != Level(env.watch, env.Cache(s.handled + 1)) {
      LevelChangeFires(env, s.handled);
    }
  }

  lemma {:induction false} EdgeInvHolds(env: Env, states: seq<State>, actions: seq<Action>, k: nat)
    requires ValidLog(env) && LagFree(env, states, actions)
    requires Start(env, states[0]) && states[0].synced && k < |states|
    ensures EdgeInv(env, states[k])
  {
    if k > 0 {
      EdgeInvHolds(env, states, actions, k - 1);
      assert Step(env, states[k - 1], actions[k - 1]) == Some(states[k]);
      StepKeepsEdge(env, states[k - 1], actions[k - 1], states[k]);
    }
  }

  /**
   * On a synced informer whose handler does not lag, the edge trigger refines the level function:
   * whenever all events are handled and no reconcile is queued or running, the applied target is
   * the scale target of the current population, after any sequence of adds, updates and deletes.
   */
  lemma EdgeTriggerRefinesLevel(env: Env, states: seq<State>, actions: seq<Action>, k: nat)
    requires ValidLog(env) && LagFree(env, states, actions)
    requires Start(env, states[0]) && states[0].synced && k < |states|
    requires Delivered(states[k])
    ensures states[k].applied == Level(env.watch, env.Cache(states[k].cached))
  {
    EdgeInvHolds(env, states, actions, k);
  }

  // ----- What goes wrong without the hypotheses -----

  /** Everything is delivered and quiet, yet the applied target is not the scale target. */
  ghost predicate Stale(env: Env, s: State) {
    && s.handled == s.cached == |env.log| && Quiet(s)
    && s.applied != Level(env.watch, env.Cache(s.cached))
  }

  /** With lag a scale-up can be lost: two brokers are cached before the first add is handled. */
  lemma LagLosesScaleUp() returns (env: Env, states: seq<State>, actions: seq<Action>)
    ensures ValidLog(env) && IsRun(env, states, actions)
    ensures Start(env, states[0]) && states[0].synced && Stale(env, states[|states| - 1])
  {
    var mt := MT_CHANNEL_BROKER_CLASS;
    env := Env(Brokers, map[], [Added("a", mt), Added("b", mt)]);
    var s := State(0, 0, true, false, Idle, 0);
    actions := [CacheEvent, CacheEvent, CallHandler, CallHandler];
    states := [s, s.(cached := 1), s.(cached := 2), s.(cached := 2, handled := 1), s.(cached := 2, handled := 2)];
    assert env.Cache(0) == env.initial;
    assert env.Cache(1) == map["a" := mt];
    assert env.Cache(2) == map["a" := mt, "b" := mt];
    assert Members(env.Cache(2), Some(mt)) == {"a", "b"};
  }

  /** Before the informer has synced an add is ignored, and nothing makes up for it. */
  lemma UnsyncedLosesScaleUp() returns (env: Env, states: seq<State>, actions: seq<Action>)
    ensures ValidLog(env) && LagFree(env, states, actions)
    ensures Start(env, states[0]) && Stale(env, states[|states| - 1])
  {
    var mt := MT_CHANNEL_BROKER_CLASS;
    env := Env(Brokers, map[], [Added("a", mt)]);
    var s := State(0, 0, false, false, Idle, 0);
    actions := [CacheEvent, CallHandler];
    states := [s, s.(cached := 1), s.(cached := 1, handled := 1)];
    assert env.Cache(0) == env.initial;
    assert env.Cache(1) == map["a" := mt];
    assert "a" in Members(env.Cache(1), Some(mt));
  }

  /** If a broker's class could change, ignoring updates would lose even a scale-down. */
  lemma ClassChangeLosesScaleDown() returns (env: Env, states: seq<State>, actions: seq<Action>)
    ensures ValidEvents(env)
    ensures LagFree(env, states, actions) && Start(env, states[0]) && states[0].synced
    ensures Stale(env, states[|states| - 1]) && states[|states| - 1].applied == 1
  {
    var mt := MT_CHANNEL_BROKER_CLASS;
    env := Env(Brokers, map["a" := mt], [Updated("a", "Kafka")]);
    assert "a" in Members(env.initial, Some(mt));
    var s := State(0, 0, true, false, Idle, 1);
    actions := [CacheEvent, CallHandler];
    states := [s, s.(cached := 1), s.(cached := 1, handled := 1)];
    assert env.Cache(0) == env.initial;
    assert env.Cache(1) == map["a" := "Kafka"];
    assert Members(env.Cache(1), Some(mt)) == {};
  }
}
