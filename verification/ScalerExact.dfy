/**
 * Exactly which event logs the edge-triggered scaler gets right, whatever the schedule of cache
 * updates, handler calls and reconciles; and what stopping the informer does to it.
 */
module ScalerExact {
  import opened Prelude
  import opened Scaler

  // ----- Building runs -----

  function StartState(env: Env, synced: bool): State {
    State(0, 0, synced, false, Idle, Level(env.watch, env.initial))
  }

  /** `states` and `actions` are a run from the start to `s`. */
  ghost predicate Leads(env: Env, states: seq<State>, actions: seq<Action>, synced: bool, s: State) {
    IsRun(env, states, actions) && states[0] == StartState(env, synced) && states[|states| - 1] == s
  }

  /** Some schedule leads to `s`. */
  ghost predicate Reaches(env: Env, synced: bool, s: State) {
    s.cached <= |env.log| && exists states: seq<State>, actions: seq<Action> :: Leads(env, states, actions, synced, s)
  }

  lemma Extend(env: Env, states: seq<State>, actions: seq<Action>, synced: bool, s: State, a: Action, s': State)
    returns (ss: seq<State>, aa: seq<Action>)
    requires Leads(env, states, actions, synced, s) && Step(env, s, a) == Some(s')
    ensures Leads(env, ss, aa, synced, s')
  {
    ss, aa := states + [s'], actions + [a];
  }

  /** Cache and handle one event after the other; only requests may remain. */
  lemma {:induction false} DeliverTo(env: Env, synced: bool, k: nat)
    returns (states: seq<State>, actions: seq<Action>, pending: bool)
    requires k <= |env.log|
    ensures Leads(env, states, actions, synced, StartState(env, synced).(cached := k, handled := k, pending := pending))
  {
    if k == 0 {
      states, actions, pending := [StartState(env, synced)], [], false;
    } else {
      states, actions, pending := DeliverTo(env, synced, k - 1);
      var s := StartState(env, synced).(cached := k - 1, handled := k - 1, pending := pending);
      states, actions := Extend(env, states, actions, synced, s, CacheEvent, s.(cached := k));
      s := s.(cached := k);
      pending := pending || Fires(env.watch, env.log[k - 1], env.Cache(k), synced);
      states, actions := Extend(env, states, actions, synced, s, CallHandler, s.(handled := k, pending := pending));
    }
  }

  /** The state in which everything up to `k` is handled and a reconcile has just applied the right target. */
  function Settled(env: Env, synced: bool, k: nat): State
    requires k <= |env.log|
  {
    State(k, k, synced, false, Idle, Level(env.watch, env.Cache(k)))
  }

  lemma SettleAt(env: Env, synced: bool, k: nat) returns (states: seq<State>, actions: seq<Action>)
    requires k <= |env.log|
    ensures Leads(env, states, actions, synced, Settled(env, synced, k))
  {
    var pending;
    states, actions, pending := DeliverTo(env, synced, k);
    var s := StartState(env, synced).(cached := k, handled := k, pending := pending);
    var target := Level(env.watch, env.Cache(k));
    states, actions := Extend(env, states, actions, synced, s, Enqueue, s.(pending := true));
    states, actions := Extend(env, states, actions, synced, s.(pending := true), Dequeue,
                              s.(pending := false, work := Dequeued));
    states, actions := Extend(env, states, actions, synced, s.(pending := false, work := Dequeued), ReadTarget,
                              s.(pending := false, work := HasRead(target)));
    states, actions := Extend(env, states, actions, synced, s.(pending := false, work := HasRead(target)), WriteTarget,
                              s.(pending := false, applied := target));
  }

  // ----- Scale-down -----

  /** Under every schedule, a delivered state with an empty population has target 0. */
  ghost predicate NeverLeftUp(env: Env) {
    forall synced, s :: Reaches(env, synced, s) && Delivered(s) && Targets(env, s.cached) == {} ==> s.applied == 0
  }

  lemma DownEverywhere(env: Env, synced: bool, s: State)
    requires ValidEvents(env) && NoUpdateEmpties(env) && Reaches(env, synced, s) && Delivered(s)
    requires Targets(env, s.cached) == {}
    ensures s.applied == 0
  {
    var states: seq<State>, actions: seq<Action> :| Leads(env, states, actions, synced, s);
    ScaleDownNeverLost(env, states, actions, |states| - 1);
  }

  /** That is so if and only if no update takes the last object out of the population. */
  lemma ScaleDownExactly(env: Env)
    requires ValidEvents(env)
    ensures NeverLeftUp(env) <==> NoUpdateEmpties(env)
  {
    if NoUpdateEmpties(env) {
      forall synced, s | Reaches(env, synced, s) && Delivered(s) && Targets(env, s.cached) == {}
        ensures s.applied == 0 {
        DownEverywhere(env, synced, s);
      }
    } else {
      var k :| 0 <= k < |env.log| && EmptyingUpdate(env, k);
      UpdateIsLost(env, k);
    }
  }

  /** Read the target just before such an update, and then handle the update: nothing fires. */
  lemma UpdateIsLost(env: Env, k: nat)
    requires k < |env.log| && EmptyingUpdate(env, k)
    ensures !NeverLeftUp(env) && !AlwaysRight(env, true) && !AlwaysRight(env, false)
  {
    var s := Quietly(env, true, k, k + 1);
    var s' := Quietly(env, false, k, k + 1);
    assert s.applied == s'.applied == 1;
    assert Delivered(s) && Targets(env, s.cached) == {};
  }

  /** When no handler call from `j` to `k` fires on the cache of `k`, the target of `j` is still applied at `k`. */
  lemma Quietly(env: Env, synced: bool, j: nat, k: nat) returns (s: State)
    requires j <= k <= |env.log| && forall i :: j <= i < k ==> !Fires(env.watch, env.log[i], env.Cache(k), synced)
    ensures Reaches(env, synced, s) && Delivered(s) && s.cached == k && s.applied == Level(env.watch, env.Cache(j))
  {
    var at, m := seq(k - j, _ => k), if synced then 0 else |env.log|;
    assert Silent(env, j, at, k, m);
    var states, actions := Replay(env, synced, j, at, k, m, |at|);
    s := Replayed(env, synced, j, k, CacheAfter(j, at, |at|), m);
  }

  // ----- Both directions -----

  /** Under every schedule from a start that is synced or not, every delivered state has the right target. */
  ghost predicate AlwaysRight(env: Env, synced: bool) {
    forall s :: Reaches(env, synced, s) && Delivered(s) ==> s.applied == Level(env.watch, env.Cache(s.cached))
  }

  /**
   * Handler calls for the events from `j` on, made at the cache positions `at`, none of which
   * fires. Positions do not decrease, stay within `c`, and lie behind the event; calls for
   * events before `m` are made before the informer has synced.
   */
  ghost predicate Silent(env: Env, j: nat, at: seq<nat>, c: nat, m: nat) {
    && j + |at| <= |env.log| && c <= |env.log|
    && (forall i :: 0 <= i < |at| ==> j + i < at[i] <= c && !FiresAt(env, j + i, at[i], m))
    && (forall i, i' :: 0 <= i <= i' < |at| ==> at[i] <= at[i'])
  }

  /** Does the handler call for event `e` fire at cache position `c`, with the events before `m` ahead of the sync? */
  predicate FiresAt(env: Env, e: nat, c: nat, m: nat)
    requires e < |env.log| && c <= |env.log|
  {
    Fires(env.watch, env.log[e], env.Cache(c), e >= m)
  }

  /**
   * A way to lose a scale-up: the population is empty after `j` events and not empty after `k`,
   * and the handler can be called for all events in between without firing once.
   */
  ghost predicate LosingWindow(env: Env, synced: bool, j: nat, k: nat, at: seq<nat>, m: nat) {
    && j + |at| == k <= |env.log| && Targets(env, j) == {} && Targets(env, k) != {}
    && (synced ==> m == 0) && Silent(env, j, at, k, m)
  }

  ghost predicate LosesScaleUp(env: Env, synced: bool) {
    exists j, k, at, m :: LosingWindow(env, synced, j, k, at, m)
  }

  // ----- Without such a window every schedule ends right -----

  /** Why a state may hold a target below 1: the events handled since some empty position have not fired. */
  ghost predicate Trail(env: Env, synced: bool, s: State, j: nat, at: seq<nat>, m: nat) {
    && j <= s.cached <= |env.log| && Targets(env, j) == {}
    && |at| == (if s.handled > j then s.handled - j else 0)
    && Silent(env, j, at, s.cached, m)
    && (synced ==> m == 0)
    && (if s.synced then m <= s.handled else m == |env.log|)
  }

  ghost predicate TrailInv(env: Env, synced: bool, s: State) {
    && s.handled <= s.cached <= |env.log| && (synced ==> s.synced)
    && (!s.pending && !Holds(s, 1) ==> exists j, at, m :: Trail(env, synced, s, j, at, m))
  }

  /** A read that finds the population empty starts a new trail. */
  lemma EmptyStartsTrail(env: Env, synced: bool, s: State)
    requires s.handled <= s.cached <= |env.log| && (synced ==> s.synced) && Targets(env, s.cached) == {}
    ensures exists j, at, m :: Trail(env, synced, s, j, at, m)
  {
    assert Trail(env, synced, s, s.cached, [], if s.synced then 0 else |env.log|);
  }

  /** Trails continue over every step that neither reads nor fires. */
  lemma TrailContinues(env: Env, synced: bool, s: State, a: Action, s': State, j: nat, at: seq<nat>, m: nat)
    requires s.handled <= s.cached && Trail(env, synced, s, j, at, m) && Step(env, s, a) == Some(s') && !s'.pending
    ensures exists j', at', m' :: Trail(env, synced, s', j', at', m')
  {
    if a.CallHandler? && s.handled >= j {
      TrailGrows(env, synced, s, s', j, at, m);
    } else if a.FinishSync? && !s.synced {
      assert Silent(env, j, at, s.cached, s.handled);
      assert Trail(env, synced, s', j, at, s.handled);
    } else {
      assert Trail(env, synced, s', j, at, m);
    }
  }

  lemma TrailGrows(env: Env, synced: bool, s: State, s': State, j: nat, at: seq<nat>, m: nat)
    requires j <= s.handled < s.cached && Trail(env, synced, s, j, at, m)
    requires Step(env, s, CallHandler) == Some(s') && !s'.pending
    ensures exists j', at', m' :: Trail(env, synced, s', j', at', m')
  {
    assert !FiresAt(env, s.handled, s.cached, m);
    assert Trail(env, synced, s', j, at + [s.cached], m);
  }

  lemma StepKeepsTrail(env: Env, synced: bool, s: State, a: Action, s': State)
    requires TrailInv(env, synced, s) && Step(env, s, a) == Some(s')
    ensures TrailInv(env, synced, s')
  {
    if !s'.pending && !Holds(s', 1) {
      if a.ReadTarget? {
        assert Targets(env, s'.cached) == {};
        EmptyStartsTrail(env, synced, s');
      } else {
        var j, at, m :| Trail(env, synced, s, j, at, m);
        TrailContinues(env, synced, s, a, s', j, at, m);
      }
    }
  }

  lemma {:induction false} TrailInvHolds(env: Env, synced: bool, states: seq<State>, actions: seq<Action>, k: nat)
    requires IsRun(env, states, actions) && states[0] == StartState(env, synced) && k < |states|
    ensures TrailInv(env, synced, states[k])
  {
    if k == 0 {
      assert env.Cache(0) == env.initial;
      if !Holds(states[0], 1) { EmptyStartsTrail(env, synced, states[0]); }
    } else {
      TrailInvHolds(env, synced, states, actions, k - 1);
      assert Step(env, states[k - 1], actions[k - 1]) == Some(states[k]);
      StepKeepsTrail(env, synced, states[k - 1], actions[k - 1], states[k]);
    }
  }

  lemma UpEverywhere(env: Env, synced: bool, s: State)
    requires Reaches(env, synced, s) && Delivered(s) && Targets(env, s.cached) != {}
    ensures s.applied == 1 || LosesScaleUp(env, synced)
  {
    var states: seq<State>, actions: seq<Action> :| Leads(env, states, actions, synced, s);
    TrailInvHolds(env, synced, states, actions, |states| - 1);
    if s.applied != 1 {
      var j, at, m :| Trail(env, synced, s, j, at, m);
      assert LosingWindow(env, synced, j, s.cached, at, m);
    }
  }

  // ----- With such a window some schedule ends wrong -----

  /** The state of the replay after the events before `h` have been handled, with the cache at `c`. */
  function Replayed(env: Env, synced: bool, j: nat, h: nat, c: nat, m: nat): State
    requires j <= |env.log|
  {
    Settled(env, synced, j).(cached := c, handled := h, synced := synced || (h > j && h - 1 >= m))
  }

  lemma {:induction false} AdvanceCache(env: Env, synced: bool, states: seq<State>, actions: seq<Action>, s: State,
                                        c: nat)
    returns (ss: seq<State>, aa: seq<Action>)
    requires Leads(env, states, actions, synced, s) && s.cached <= c <= |env.log|
    ensures Leads(env, ss, aa, synced, s.(cached := c))
    decreases c
  {
    if c == s.cached {
      ss, aa := states, actions;
    } else {
      ss, aa := AdvanceCache(env, synced, states, actions, s, c - 1);
      ss, aa := Extend(env, ss, aa, synced, s.(cached := c - 1), CacheEvent, s.(cached := c));
    }
  }

  function CacheAfter(j: nat, at: seq<nat>, n: nat): nat
    requires n <= |at|
  {
    if n == 0 then j else at[n - 1]
  }

  /** Settle on the empty population, and then make the silent calls at their positions. */
  lemma {:induction false} Replay(env: Env, synced: bool, j: nat, at: seq<nat>, c: nat, m: nat, n: nat)
    returns (states: seq<State>, actions: seq<Action>)
    requires Silent(env, j, at, c, m) && (synced ==> m == 0) && n <= |at|
    ensures Leads(env, states, actions, synced, Replayed(env, synced, j, j + n, CacheAfter(j, at, n), m))
  {
    if n == 0 {
      states, actions := SettleAt(env, synced, j);
    } else {
      states, actions := Replay(env, synced, j, at, c, m, n - 1);
      var e, q := j + n - 1, at[n - 1];
      var s := Replayed(env, synced, j, e, CacheAfter(j, at, n - 1), m);
      states, actions := AdvanceCache(env, synced, states, actions, s, q);
      s := s.(cached := q);
      if e >= m {
        states, actions := Extend(env, states, actions, synced, s, FinishSync, s.(synced := true));
        s := s.(synced := true);
      }
      assert !FiresAt(env, e, q, m) && s.synced == (e >= m);
      states, actions := Extend(env, states, actions, synced, s, CallHandler, s.(handled := e + 1));
    }
  }

  lemma WindowIsLost(env: Env, synced: bool, j: nat, k: nat, at: seq<nat>, m: nat)
    requires LosingWindow(env, synced, j, k, at, m)
    ensures !AlwaysRight(env, synced)
  {
    var states, actions := Replay(env, synced, j, at, k, m, |at|);
    var s := Replayed(env, synced, j, k, CacheAfter(j, at, |at|), m);
    assert s.cached == k;
    assert Reaches(env, synced, s) && Delivered(s) && s.applied == 0;
  }

  /**
   * For every valid log, with any mixture and any change of classes: every schedule, from a
   * start that is synced or not, ends with the right target if and only if no update empties
   * the population and there is no window through which a scale-up can be lost.
   */
  lemma RightExactly(env: Env, synced: bool)
    requires ValidEvents(env)
    ensures AlwaysRight(env, synced) <==> NoUpdateEmpties(env) && !LosesScaleUp(env, synced)
  {
    if !NoUpdateEmpties(env) {
      var k :| 0 <= k < |env.log| && EmptyingUpdate(env, k);
      UpdateIsLost(env, k);
    } else if LosesScaleUp(env, synced) {
      var j, k, at, m :| LosingWindow(env, synced, j, k, at, m);
      WindowIsLost(env, synced, j, k, at, m);
    } else {
      forall s | Reaches(env, synced, s) && Delivered(s) ensures s.applied == Level(env.watch, env.Cache(s.cached)) {
        if Targets(env, s.cached) == {} { DownEverywhere(env, synced, s); } else { UpEverywhere(env, synced, s); }
      }
    }
  }

  // ----- Simpler conditions -----

  ghost predicate EverEmpty(env: Env, k: nat)
    requires k <= |env.log|
  {
    exists j :: 0 <= j <= k && Targets(env, j) == {}
  }

  /** An object is added to the target's population after `k` events. */
  predicate AddsTarget(env: Env, k: nat)
    requires k < |env.log|
  {
    env.log[k].Added? && ConcernsTarget(env, env.log[k])
  }

  /** An object is added to a population that has been empty before and is not empty now. */
  ghost predicate CrowdedAdd(env: Env, k: nat)
    requires k < |env.log|
  {
    AddsTarget(env, k) && EverEmpty(env, k) && Targets(env, k) != {}
  }

  /** Once the population has been empty, objects come one at a time. */
  ghost predicate OneAtATime(env: Env) {
    forall k :: 0 <= k < |env.log| ==> !CrowdedAdd(env, k)
  }

  ghost predicate LateAdd(env: Env, k: nat)
    requires k < |env.log|
  {
    AddsTarget(env, k) && EverEmpty(env, k)
  }

  /** Once the population has been empty it stays empty. */
  ghost predicate StaysEmpty(env: Env) {
    forall k :: 0 <= k < |env.log| ==> !LateAdd(env, k)
  }

  lemma TargetsAfter(env: Env, k: nat)
    requires ValidLog(env) && k < |env.log|
    ensures Targets(env, k + 1) == if AddsTarget(env, k) then Targets(env, k) + {env.log[k].name}
                                   else if env.log[k].Deleted? then Targets(env, k) - {env.log[k].name}
                                   else Targets(env, k)
    ensures AddsTarget(env, k) ==> env.log[k].name !in Targets(env, k)
  {
    assert ValidAt(env, k) && KeepsClassAt(env, k);
    MembersAfter(env.Cache(k), env.log[k], TargetScope(env.watch));
  }

  lemma LogKeepsTargets(env: Env)
    requires ValidLog(env)
    ensures NoUpdateEmpties(env)
  {
    forall k | 0 <= k < |env.log| ensures !EmptyingUpdate(env, k) {
      TargetsAfter(env, k);
    }
  }

  /** Once it has been empty, the population of such a log has at most one object. */
  lemma {:induction false} AtMostOne(env: Env, k: nat)
    requires ValidLog(env) && OneAtATime(env) && k <= |env.log| && EverEmpty(env, k)
    ensures |Targets(env, k)| <= 1
  {
    if Targets(env, k) != {} {
      EmptyBefore(env, k);
      AtMostOne(env, k - 1);
      assert !CrowdedAdd(env, k - 1);
      OneAtMost(env, k - 1);
    }
  }

  lemma EmptyBefore(env: Env, k: nat)
    requires k <= |env.log| && EverEmpty(env, k)
    ensures Targets(env, k) == {} || (k > 0 && EverEmpty(env, k - 1))
  {
    var j :| 0 <= j <= k && Targets(env, j) == {};
    assert j < k ==> EverEmpty(env, k - 1);
  }

  lemma OneAtMost(env: Env, k: nat)
    requires ValidLog(env) && k < |env.log| && |Targets(env, k)| <= 1 && (AddsTarget(env, k) ==> Targets(env, k) == {})
    ensures |Targets(env, k + 1)| <= 1
  {
    TargetsAfter(env, k);
    var before, after := Targets(env, k), Targets(env, k + 1);
    if AddsTarget(env, k) {
      assert after == {env.log[k].name};
    } else {
      SubsetSize(after, before);
    }
  }

  /** The last event at which the population rises from empty. */
  lemma {:induction false} LastRise(env: Env, j: nat, k: nat) returns (e: nat)
    requires ValidLog(env) && j <= k <= |env.log| && Targets(env, j) == {} && Targets(env, k) != {}
    ensures j <= e < k && AddsTarget(env, e) && Targets(env, e) == {}
    ensures forall i :: e < i <= k ==> Targets(env, i) != {}
    decreases k
  {
    TargetsAfter(env, k - 1);
    if Targets(env, k - 1) == {} {
      e := k - 1;
    } else {
      e := LastRise(env, j, k - 1);
    }
  }

  /** One at a time: whenever the add of the last rise is handled it finds one object, and fires. */
  lemma RiseFires(env: Env, e: nat, q: nat)
    requires ValidLog(env) && OneAtATime(env) && e < q <= |env.log|
    requires AddsTarget(env, e) && Targets(env, e) == {} && Targets(env, q) != {}
    ensures FiresAt(env, e, q, 0)
  {
    assert EverEmpty(env, q);
    AtMostOne(env, q);
    assert |Targets(env, q)| == 1;
  }

  lemma NoWindow(env: Env, j: nat, k: nat, at: seq<nat>, m: nat)
    requires ValidLog(env) && OneAtATime(env)
    ensures !LosingWindow(env, true, j, k, at, m)
  {
    if LosingWindow(env, true, j, k, at, m) {
      var e := LastRise(env, j, k);
      RiseFires(env, e, at[e - j]);
    }
  }

  /** For every log with constant classes, whatever other classes occur in it: one at a time is enough. */
  lemma OneAtATimeSuffices(env: Env)
    requires ValidLog(env) && OneAtATime(env)
    ensures AlwaysRight(env, true)
  {
    LogKeepsTargets(env);
    forall j: nat, k: nat, at, m: nat ensures !LosingWindow(env, true, j, k, at, m) {
      NoWindow(env, j, k, at, m);
    }
    RightExactly(env, true);
  }

  /** Only objects the target depends on: any log of channels, and a log of brokers of the one class. */
  ghost predicate TargetOnly(env: Env) {
    && (forall n :: n in env.initial ==> Scope(env.watch, env.initial[n]) == TargetScope(env.watch))
    && (forall k :: 0 <= k < |env.log| ==> ConcernsTarget(env, env.log[k]))
  }

  lemma {:induction false} AllAreTargets(env: Env, k: nat)
    requires TargetOnly(env) && k <= |env.log|
    ensures Targets(env, k) == env.Cache(k).Keys
    ensures forall n :: n in env.Cache(k) ==> Scope(env.watch, env.Cache(k)[n]) == TargetScope(env.watch)
  {
    if k > 0 {
      AllAreTargets(env, k - 1);
      assert ConcernsTarget(env, env.log[k - 1]);
    }
  }

  lemma TargetOnlyKeepsClass(env: Env)
    requires ValidEvents(env) && TargetOnly(env)
    ensures ValidLog(env)
  {
    forall k | 0 <= k < |env.log| ensures KeepsClassAt(env, k) {
      AllAreTargets(env, k);
      assert ConcernsTarget(env, env.log[k]);
    }
  }

  lemma CrowdedAfter(env: Env, k: nat)
    requires ValidLog(env) && k < |env.log| && AddsTarget(env, k) && Targets(env, k) != {}
    ensures |Targets(env, k + 1)| >= 2
  {
    TargetsAfter(env, k);
    var before := Targets(env, k);
    assert |before + {env.log[k].name}| == |before| + 1;
  }

  /** A crowded add: all handler calls since the population was empty can be made after it, and none fires. */
  lemma CrowdedWindow(env: Env, j: nat, k: nat)
    requires ValidLog(env) && TargetOnly(env)
    requires j <= k < |env.log| && Targets(env, j) == {} && AddsTarget(env, k) && Targets(env, k) != {}
    ensures LosesScaleUp(env, true)
  {
    CrowdedAfter(env, k);
    var at := seq(k + 1 - j, _ => k + 1);
    forall i | 0 <= i < |at| ensures !FiresAt(env, j + i, at[i], 0) {
      assert ConcernsTarget(env, env.log[j + i]);
    }
    assert LosingWindow(env, true, j, k + 1, at, 0);
  }

  /**
   * For logs of channels, and of brokers of the target class, on a synced informer: every
   * schedule ends right if and only if objects come one at a time once the population has been empty.
   */
  lemma OneClassSynced(env: Env)
    requires ValidEvents(env) && TargetOnly(env)
    ensures AlwaysRight(env, true) <==> OneAtATime(env)
  {
    TargetOnlyKeepsClass(env);
    if OneAtATime(env) {
      OneAtATimeSuffices(env);
    } else {
      var k :| 0 <= k < |env.log| && CrowdedAdd(env, k);
      var j :| 0 <= j <= k && Targets(env, j) == {};
      CrowdedWindow(env, j, k);
      RightExactly(env, true);
    }
  }

  function HealingLog(): Env {
    var mt := MT_CHANNEL_BROKER_CLASS;
    Env(Brokers, map[], [Added("a", mt), Added("k", "Kafka"), Added("b", mt)])
  }

  /** With other classes in the log it is not necessary: an event of another class may ask for the missing reconcile. */
  lemma OtherClassHeals() returns (env: Env)
    ensures ValidLog(env) && !OneAtATime(env) && AlwaysRight(env, true)
  {
    var mt := MT_CHANNEL_BROKER_CLASS;
    env := HealingLog();
    HealingCaches(env);
    assert ValidAt(env, 0) && ValidAt(env, 1) && ValidAt(env, 2);
    assert KeepsClassAt(env, 0) && KeepsClassAt(env, 1) && KeepsClassAt(env, 2);
    assert Targets(env, 0) == {} && EverEmpty(env, 2) && CrowdedAdd(env, 2);
    LogKeepsTargets(env);
    forall j: nat, k: nat, at, m: nat ensures !LosingWindow(env, true, j, k, at, m) {
      HealingWindow(env, j, k, at);
    }
    RightExactly(env, true);
  }

  lemma HealingCaches(env: Env)
    requires env == HealingLog()
    ensures var mt := MT_CHANNEL_BROKER_CLASS;
            && env.Cache(0) == map[] && env.Cache(1) == map["a" := mt]
            && env.Cache(2) == map["a" := mt, "k" := "Kafka"]
            && env.Cache(3) == map["a" := mt, "k" := "Kafka", "b" := mt]
    ensures Targets(env, 0) == {} && Targets(env, 1) == {"a"} && Targets(env, 2) == {"a"}
    ensures Targets(env, 3) == {"a", "b"}
    ensures Members(env.Cache(3), Some("Kafka")) == {"k"}
  {
    var mt := MT_CHANNEL_BROKER_CLASS;
    assert env.Cache(0) == map[];
    assert env.Cache(1) == map["a" := mt];
    assert env.Cache(2) == map["a" := mt, "k" := "Kafka"];
    assert env.Cache(3) == map["a" := mt, "k" := "Kafka", "b" := mt];
  }

  /** The first add fires unless its call waits for the last event, and then the call in between fires. */
  lemma HealingWindow(env: Env, j: nat, k: nat, at: seq<nat>)
    requires env == HealingLog()
    ensures !LosingWindow(env, true, j, k, at, 0)
  {
    HealingCaches(env);
    assert FiresAt(env, 0, 1, 0) && FiresAt(env, 0, 2, 0) && FiresAt(env, 1, 3, 0);
    var first, second := if |at| > 0 then at[0] else 0, if |at| > 1 then at[1] else 0;
    assert LosingWindow(env, true, j, k, at, 0) ==> j == 0 && first == 3 && second == 3;
  }

  lemma {:induction false} EmptyForGood(env: Env, k: nat)
    requires ValidLog(env) && StaysEmpty(env) && k <= |env.log| && EverEmpty(env, k)
    ensures Targets(env, k) == {}
  {
    EmptyBefore(env, k);
    if k > 0 && EverEmpty(env, k - 1) {
      EmptyForGood(env, k - 1);
      assert !LateAdd(env, k - 1);
      TargetsAfter(env, k - 1);
    }
  }

  lemma StaysEmptySuffices(env: Env)
    requires ValidLog(env) && StaysEmpty(env)
    ensures AlwaysRight(env, false)
  {
    LogKeepsTargets(env);
    forall j: nat, k: nat, at, m: nat ensures !LosingWindow(env, false, j, k, at, m) {
      if j <= k <= |env.log| && Targets(env, j) == {} {
        assert EverEmpty(env, k);
        EmptyForGood(env, k);
      }
    }
    RightExactly(env, false);
  }

  /** The first event on an empty population is an add, and before the informer has synced it is ignored. */
  lemma UnsyncedWindow(env: Env, j: nat)
    requires ValidLog(env) && TargetOnly(env) && j < |env.log| && Targets(env, j) == {}
    ensures LosesScaleUp(env, false)
  {
    AllAreTargets(env, j);
    assert ValidAt(env, j) && ConcernsTarget(env, env.log[j]);
    TargetsAfter(env, j);
    assert env.log[j].name in Targets(env, j + 1);
    assert !FiresAt(env, j, j + 1, |env.log|);
    assert LosingWindow(env, false, j, j + 1, [j + 1], |env.log|);
  }

  /**
   * For the same logs, on an informer that has not synced: if and only if nothing is added once the
   * population has been empty.
   */
  lemma OneClassUnsynced(env: Env)
    requires ValidEvents(env) && TargetOnly(env)
    ensures AlwaysRight(env, false) <==> StaysEmpty(env)
  {
    TargetOnlyKeepsClass(env);
    if StaysEmpty(env) {
      StaysEmptySuffices(env);
    } else {
      var k :| 0 <= k < |env.log| && LateAdd(env, k);
      var j :| 0 <= j <= k && Targets(env, j) == {};
      UnsyncedWindow(env, j);
      RightExactly(env, false);
    }
  }

  // ----- Stopping the informer -----

  /**
   * After Stop the lister pointer is nil, so the target is 0. Nothing more is cached, handler
   * calls under way may still happen, and nothing else requests a reconcile.
   */
  function StoppedStep(env: Env, s: State, a: Action): Option<State>
    requires s.cached <= |env.log|
  {
    match a
    case CacheEvent => None
    case FinishSync => None
    case Enqueue => None
    case ReadTarget => if s.work.Dequeued? then Some(s.(work := HasRead(0))) else None
    case _ => Step(env, s, a)
  }

  ghost predicate IsStoppedRun(env: Env, states: seq<State>, actions: seq<Action>) {
    && |states| == |actions| + 1
    && (forall k :: 0 <= k < |states| ==> states[k].cached <= |env.log|)
    && (forall k :: 0 <= k < |actions| ==> StoppedStep(env, states[k], actions[k]) == Some(states[k + 1]))
  }

  ghost predicate StoppedLeads(env: Env, states: seq<State>, actions: seq<Action>, s: State, s': State) {
    IsStoppedRun(env, states, actions) && states[0] == s && states[|states| - 1] == s'
  }

  /** Whatever happens after a Stop in state `s`, a quiet state has target 0. */
  ghost predicate ComesDown(env: Env, s: State) {
    forall states, actions, s' :: StoppedLeads(env, states, actions, s, s') && Quiet(s') ==> s'.applied == 0
  }

  lemma {:induction false} DownAfterStop(env: Env, states: seq<State>, actions: seq<Action>, k: nat)
    requires IsStoppedRun(env, states, actions) && k < |states| && (states[0].pending || Holds(states[0], 0))
    ensures states[k].pending || Holds(states[k], 0)
  {
    if k > 0 {
      DownAfterStop(env, states, actions, k - 1);
      assert StoppedStep(env, states[k - 1], actions[k - 1]) == Some(states[k]);
    }
  }

  /**
   * Stopping brings the target down if and only if a reconcile is queued, or about to read, or 0 is
   * what was last read.
   */
  lemma StopExactly(env: Env, s: State)
    requires s.cached <= |env.log|
    ensures ComesDown(env, s) <==> s.pending || Holds(s, 0)
  {
    if s.pending || Holds(s, 0) {
      forall states, actions, s' | StoppedLeads(env, states, actions, s, s') && Quiet(s') ensures s'.applied == 0 {
        DownAfterStop(env, states, actions, |states| - 1);
      }
    } else if s.work.Idle? {
      assert StoppedLeads(env, [s], [], s, s);
    } else {
      var s' := s.(applied := s.work.target, work := Idle);
      assert StoppedLeads(env, [s, s'], [WriteTarget], s, s');
    }
  }

  /** So a Stop loses a scale-down whenever the target is up and no reconcile is queued or running. */
  lemma StopLosesScaleDown(env: Env, synced: bool)
    requires Level(env.watch, env.initial) == 1
    ensures !ComesDown(env, StartState(env, synced))
  {
    StopExactly(env, StartState(env, synced));
  }
}
