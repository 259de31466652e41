/**
 * Status conditions (pkg/apis/operator/v1alpha1/eventmesh_lifecycle.go, on knative's condition
 * set) and the part of a reconcile run that sets them.
 */
module Status {
  import opened Prelude

  datatype Truth = True | False | Unknown

  /** Conditions of the set carry Error severity; other conditions may or may not. */
  datatype Condition = Condition(truth: Truth, isError: bool)

  type Conditions = map<string, Condition>

  const READY := "Ready"
  const INSTALL_SUCCEEDED := "InstallSucceeded"
  const DEPLOYMENTS_AVAILABLE := "DeploymentsAvailable"

  function SetCondition(cs: Conditions, t: string, v: Truth): Conditions {
    cs[t := Condition(v, true)]
  }

  /** The conditions that Ready is rolled up from. */
  function Counted(cs: Conditions): set<string> {
    set t | t in cs && t != READY && cs[t].isError
  }

  /** findUnhappyDependent: False before Unknown, and Unknown if fewer than the two dependents are set. */
  function Unhappy(cs: Conditions): Option<Truth> {
    if exists t :: t in Counted(cs) && cs[t].truth == False then Some(False)
    else if exists t :: t in Counted(cs) && cs[t].truth == Unknown then Some(Unknown)
    else if |Counted(cs)| < 2 then Some(Unknown)
    else None
  }

  function MarkTrue(cs: Conditions, t: string): Conditions {
    var marked := SetCondition(cs, t, True);
    var u := Unhappy(marked);
    SetCondition(marked, READY, if u.Some? then u.value else True)
  }

  function MarkFalse(cs: Conditions, t: string): Conditions {
    SetCondition(SetCondition(cs, t, False), READY, False)
  }

  predicate Is(cs: Conditions, t: string, v: Truth) {
    t in cs && cs[t].truth == v
  }

  /** Both dependents are set, and every condition that counts is True. */
  ghost predicate AllHappy(cs: Conditions) {
    |Counted(cs)| >= 2 && forall t :: t in Counted(cs) ==> cs[t].truth == True
  }

  ghost predicate SomeFalse(cs: Conditions) {
    exists t :: t in Counted(cs) && cs[t].truth == False
  }

  /** Ready says what the other conditions amount to: False before Unknown before True. */
  ghost predicate ReadyRollsUp(cs: Conditions) {
    && (Is(cs, READY, True) <==> AllHappy(cs))
    && (Is(cs, READY, False) <==> SomeFalse(cs))
    && READY in cs
  }

  ghost predicate OnlyChanges(cs: Conditions, cs': Conditions, types: set<string>) {
    forall t :: t !in types ==> (t in cs' <==> t in cs) && (t in cs ==> cs'[t] == cs[t])
  }

  lemma MarkTrueMeaning(cs: Conditions, t: string)
    requires t != READY
    ensures Is(MarkTrue(cs, t), t, True) && ReadyRollsUp(MarkTrue(cs, t))
    ensures OnlyChanges(cs, MarkTrue(cs, t), {t, READY})
  {
    var marked, after := SetCondition(cs, t, True), MarkTrue(cs, t);
    assert Counted(after) == Counted(marked);
    assert forall u :: u in Counted(after) ==> after[u] == marked[u];
    assert SomeFalse(after) <==> exists u :: u in Counted(marked) && marked[u].truth == False;
  }

  lemma MarkFalseMeaning(cs: Conditions, t: string)
    requires t != READY
    ensures Is(MarkFalse(cs, t), t, False) && ReadyRollsUp(MarkFalse(cs, t))
    ensures OnlyChanges(cs, MarkFalse(cs, t), {t, READY})
  {
    var after := MarkFalse(cs, t);
    assert t in Counted(after) && after[t].truth == False;
  }

  /** InitializeConditions: unset dependents become Unknown, or True if Ready already is. */
  function Initialize(cs: Conditions): Conditions {
    var a := if READY in cs then cs else SetCondition(cs, READY, Unknown);
    var v := if a[READY].truth == True then True else Unknown;
    var b := if INSTALL_SUCCEEDED in a then a else SetCondition(a, INSTALL_SUCCEEDED, v);
    if DEPLOYMENTS_AVAILABLE in b then b else SetCondition(b, DEPLOYMENTS_AVAILABLE, v)
  }

  /**
   * What happens before every reconcile: conditions are initialized, and a new generation of the
   * object resets Ready to Unknown, or to False if a dependent is False.
   */
  function Observe(cs: Conditions, newGeneration: bool): Conditions {
    var a := Initialize(cs);
    if !newGeneration then a
    else SetCondition(a, READY,
                      if Is(a, INSTALL_SUCCEEDED, False) || Is(a, DEPLOYMENTS_AVAILABLE, False) then False else Unknown)
  }

  // ----- checkDeployments -----

  /** A status condition of a Deployment. */
  datatype DeploymentCondition = DeploymentCondition(name: string, status: string)

  /** What the lister answers for one Deployment of the manifests. */
  datatype Answer = Found(conditions: seq<DeploymentCondition>) | NotFound | LookupFailed

  predicate Available(a: Answer) {
    a.Found? && DeploymentCondition("Available", "True") in a.conditions
  }

  predicate AllAvailable(answers: seq<Answer>) {
    forall a :: a in answers ==> Available(a)
  }

  datatype Check = AllUp | SomeDown | StoppedOnMissing | StoppedOnError

  /** The loop ends early at the first Deployment that is missing or cannot be looked up. */
  function CheckOf(answers: seq<Answer>): Check {
    if answers == [] then AllUp
    else
      var before := CheckOf(answers[..|answers| - 1]);
      if before.StoppedOnMissing? || before.StoppedOnError? then before
      else
        match answers[|answers| - 1]
        case NotFound => StoppedOnMissing
        case LookupFailed => StoppedOnError
        case Found(_) => if Available(answers[|answers| - 1]) then before else SomeDown
  }

  lemma {:induction false} CheckMeansAvailable(answers: seq<Answer>)
    ensures CheckOf(answers) == AllUp <==> AllAvailable(answers)
  {
    if answers != [] {
      var init, last := answers[..|answers| - 1], answers[|answers| - 1];
      CheckMeansAvailable(init);
      assert answers == init + [last] && last in answers;
      assert AllAvailable(answers) <==> AllAvailable(init) && Available(last);
    }
  }

  lemma {:induction false} StopIsFinal(answers: seq<Answer>, k: nat)
    requires k <= |answers| && (CheckOf(answers[..k]).StoppedOnMissing? || CheckOf(answers[..k]).StoppedOnError?)
    ensures CheckOf(answers) == CheckOf(answers[..k])
    decreases |answers|
  {
    if k == |answers| {
      assert answers[..k] == answers;
    } else {
      assert answers[..|answers| - 1][..k] == answers[..k];
      StopIsFinal(answers[..|answers| - 1], k);
    }
  }

  /** The first answer that is not a Deployment is a failed lookup. */
  ghost predicate LookupFails(answers: seq<Answer>) {
    exists i :: 0 <= i < |answers| && answers[i].LookupFailed? && forall j :: 0 <= j < i ==> answers[j].Found?
  }

  /** The first answer that is not a Deployment is that there is none. */
  ghost predicate OneIsMissing(answers: seq<Answer>) {
    exists i :: 0 <= i < |answers| && answers[i].NotFound? && forall j :: 0 <= j < i ==> answers[j].Found?
  }

  lemma AllFoundSnoc(answers: seq<Answer>)
    requires answers != []
    ensures var init, last := answers[..|answers| - 1], answers[|answers| - 1];
            && (LookupFails(answers) <==>
                  LookupFails(init) || (last.LookupFailed? && forall j :: 0 <= j < |init| ==> init[j].Found?))
            && (OneIsMissing(answers) <==>
                  OneIsMissing(init) || (last.NotFound? && forall j :: 0 <= j < |init| ==> init[j].Found?))
  {
    var init := answers[..|answers| - 1];
    assert forall j :: 0 <= j < |init| ==> init[j] == answers[j];
  }

  /** Which way the check ends, from the answers alone. */
  lemma {:induction false} CheckExactly(answers: seq<Answer>)
    ensures CheckOf(answers).StoppedOnError? <==> LookupFails(answers)
    ensures CheckOf(answers).StoppedOnMissing? <==> OneIsMissing(answers)
    ensures CheckOf(answers).AllUp? || CheckOf(answers).SomeDown? <==>
            forall j :: 0 <= j < |answers| ==> answers[j].Found?
  {
    if answers != [] {
      CheckExactly(answers[..|answers| - 1]);
      AllFoundSnoc(answers);
      assert answers == answers[..|answers| - 1] + [answers[|answers| - 1]];
    }
  }

  method IsDeploymentAvailable(conditions: seq<DeploymentCondition>) returns (b: bool)
    ensures b <==> Available(Found(conditions))
  {
    for i := 0 to |conditions|
      invariant DeploymentCondition("Available", "True") !in conditions[..i]
    {
      if conditions[i].name == "Available" && conditions[i].status == "True" {
        assert conditions[i] == DeploymentCondition("Available", "True");
        return true;
      }
    }
    assert conditions[..|conditions|] == conditions;
    b := false;
  }

  /** How far a reconcile run got. */
  datatype Progress =
    | PrecheckError               // a precheck could not be evaluated
    | PrecheckFailed              // a precheck failed and set the status itself
    | StageFailed                 // a stage before checkDeployments returned an error
    | Reached(answers: seq<Answer>)

  function AfterMark(cs: Conditions, up: bool): Conditions {
    if up then MarkTrue(cs, DEPLOYMENTS_AVAILABLE) else MarkFalse(cs, DEPLOYMENTS_AVAILABLE)
  }

  function AfterCheck(cs: Conditions, c: Check): Conditions {
    AfterMark(cs, c == AllUp)
  }

  /** The status after a run. A not-ready error is swallowed by the stages, so the install is marked as succeeded. */
  function AfterRun(cs: Conditions, p: Progress): Conditions {
    match p
    case PrecheckError => cs
    case PrecheckFailed => MarkFalse(cs, INSTALL_SUCCEEDED)
    case StageFailed => cs
    case Reached(answers) =>
      var c := CheckOf(answers);
      var checked := AfterCheck(cs, c);
      if c == StoppedOnError then checked else MarkTrue(checked, INSTALL_SUCCEEDED)
  }

  /** The status of an EventMesh, updated in place. */
  class EventMeshStatus {
    var conditions: Conditions

    constructor (cs: Conditions)
      ensures conditions == cs
    {
      conditions := cs;
    }

    /** The condition is True, Ready is rolled up from all conditions that count, and nothing else changes. */
    method MarkInstallSucceeded()
      modifies this
      ensures Is(conditions, "InstallSucceeded", True) && ReadyRollsUp(conditions)
      ensures OnlyChanges(old(conditions), conditions, {INSTALL_SUCCEEDED, READY})
      ensures conditions == MarkTrue(old(conditions), INSTALL_SUCCEEDED)
    {
      MarkTrueMeaning(conditions, INSTALL_SUCCEEDED);
      conditions := MarkTrue(conditions, INSTALL_SUCCEEDED);
    }

    method MarkInstallFailed()
      modifies this
      ensures Is(conditions, "InstallSucceeded", False) && Is(conditions, "Ready", False) && ReadyRollsUp(conditions)
      ensures OnlyChanges(old(conditions), conditions, {INSTALL_SUCCEEDED, READY})
      ensures conditions == MarkFalse(old(conditions), INSTALL_SUCCEEDED)
    {
      MarkFalseMeaning(conditions, INSTALL_SUCCEEDED);
      conditions := MarkFalse(conditions, INSTALL_SUCCEEDED);
    }

    method MarkDeployments(up: bool)
      modifies this
      ensures Is(conditions, "DeploymentsAvailable", if up then True else False) && ReadyRollsUp(conditions)
      ensures OnlyChanges(old(conditions), conditions, {DEPLOYMENTS_AVAILABLE, READY})
      ensures conditions == AfterMark(old(conditions), up)
    {
      MarkTrueMeaning(conditions, DEPLOYMENTS_AVAILABLE);
      MarkFalseMeaning(conditions, DEPLOYMENTS_AVAILABLE);
      conditions := AfterMark(conditions, up);
    }

    /** The loop of checkDeployments. */
    method RunCheck(answers: seq<Answer>) returns (result: Check)
      modifies this
      ensures result == CheckOf(answers)
      ensures conditions == AfterCheck(old(conditions), result)
    {
      var down := 0;
      for i := 0 to |answers|
        invariant CheckOf(answers[..i]) == if down == 0 then AllUp else SomeDown
        invariant down >= 0 && conditions == old(conditions)
      {
        assert answers[..i + 1][..i] == answers[..i];
        match answers[i] {
          case NotFound =>
            MarkDeployments(false);
            StopIsFinal(answers, i + 1);
            return StoppedOnMissing;
          case LookupFailed =>
            MarkDeployments(false);
            StopIsFinal(answers, i + 1);
            return StoppedOnError;
          case Found(cs) =>
            var up := IsDeploymentAvailable(cs);
            if !up { down := down + 1; }
        }
      }
      assert answers[..|answers|] == answers;
      if down > 0 {
        MarkDeployments(false);
        return SomeDown;
      }
      MarkDeployments(true);
      result := AllUp;
    }

    /**
     * checkDeployments: `result` tells the swallowed not-ready error from nil and from a real
     * error. An error only if the first answer that is not a Deployment is a failed lookup.
     */
    method CheckDeployments(answers: seq<Answer>) returns (result: Check)
      modifies this
      ensures result.StoppedOnError? <==> LookupFails(answers)
      ensures result.StoppedOnMissing? <==> OneIsMissing(answers)
      ensures result.AllUp? <==> AllAvailable(answers)
      ensures result == CheckOf(answers)
      ensures conditions == AfterCheck(old(conditions), result)
    {
      result := RunCheck(answers);
      CheckExactly(answers);
      CheckMeansAvailable(answers);
    }
  }

  // ----- Ready -----

  /** A condition of another type with Error severity that is not True also holds Ready back. */
  ghost predicate OthersHappy(cs: Conditions) {
    forall t :: t in cs && cs[t].isError && t != READY && t != INSTALL_SUCCEEDED && t != DEPLOYMENTS_AVAILABLE ==>
      cs[t].truth == True
  }

  lemma BothMarked(cs: Conditions)
    requires Is(cs, DEPLOYMENTS_AVAILABLE, True) && cs[DEPLOYMENTS_AVAILABLE].isError
    ensures Is(MarkTrue(cs, INSTALL_SUCCEEDED), READY, True) <==> OthersHappy(cs)
  {
    var marked := SetCondition(cs, INSTALL_SUCCEEDED, True);
    assert {INSTALL_SUCCEEDED, DEPLOYMENTS_AVAILABLE} <= Counted(marked);
    SubsetSize({INSTALL_SUCCEEDED, DEPLOYMENTS_AVAILABLE}, Counted(marked));
    if OthersHappy(cs) {
      assert forall t :: t in Counted(marked) ==> marked[t].truth == True;
    } else {
      var t :| t in cs && cs[t].isError && t != READY && t != INSTALL_SUCCEEDED && t != DEPLOYMENTS_AVAILABLE
        && cs[t].truth != True;
      assert t in Counted(marked) && marked[t] == cs[t];
    }
  }

  lemma FalseHoldsBack(cs: Conditions, t: string)
    requires Is(cs, DEPLOYMENTS_AVAILABLE, False) && cs[DEPLOYMENTS_AVAILABLE].isError && t != DEPLOYMENTS_AVAILABLE
    requires t != READY
    ensures Is(MarkTrue(cs, t), READY, False)
  {
    var marked := SetCondition(cs, t, True);
    assert DEPLOYMENTS_AVAILABLE in Counted(marked) && marked[DEPLOYMENTS_AVAILABLE].truth == False;
  }

  /**
   * After every run that gets to checkDeployments, from any earlier status: Ready is True exactly
   * when every Deployment to apply was found and is available, however the check ended and
   * although the install is marked as succeeded regardless.
   */
  lemma ReadyExactly(cs: Conditions, answers: seq<Answer>)
    ensures Is(AfterRun(cs, Reached(answers)), READY, True) <==> AllAvailable(answers) && OthersHappy(cs)
  {
    var c := CheckOf(answers);
    var checked := AfterCheck(cs, c);
    CheckMeansAvailable(answers);
    if c == AllUp {
      assert OthersHappy(checked) <==> OthersHappy(cs) by {
        assert forall t :: t != READY && t != DEPLOYMENTS_AVAILABLE ==>
          (t in checked <==> t in cs) && (t in cs ==> checked[t] == cs[t]);
      }
      BothMarked(checked);
    } else if c != StoppedOnError {
      FalseHoldsBack(checked, INSTALL_SUCCEEDED);
    }
  }

  /**
   * The two dependent conditions after a run that gets to the check, from the answers alone:
   * InstallSucceeded is True unless the first answer that is not a Deployment is a failed lookup,
   * in which case it is as before; DeploymentsAvailable says whether all are available.
   */
  lemma ReachedConditions(cs: Conditions, answers: seq<Answer>)
    ensures var after := AfterRun(cs, Reached(answers));
            && (Is(after, "InstallSucceeded", True) <==> !LookupFails(answers) || Is(cs, "InstallSucceeded", True))
            && Is(after, "DeploymentsAvailable", if AllAvailable(answers) then True else False)
            && OnlyChanges(cs, after, {"InstallSucceeded", "DeploymentsAvailable", "Ready"})
  {
    CheckExactly(answers);
    CheckMeansAvailable(answers);
    var checked := AfterCheck(cs, CheckOf(answers));
    MarkTrueMeaning(cs, DEPLOYMENTS_AVAILABLE);
    MarkFalseMeaning(cs, DEPLOYMENTS_AVAILABLE);
    MarkTrueMeaning(checked, INSTALL_SUCCEEDED);
  }

  /**
   * A run that ends earlier: a failed precheck takes InstallSucceeded and Ready back, any error
   * leaves the status alone.
   */
  lemma UnreachedConditions(cs: Conditions, p: Progress)
    requires !p.Reached?
    ensures p.PrecheckFailed? ==> Is(AfterRun(cs, p), "InstallSucceeded", False) && Is(AfterRun(cs, p), "Ready", False)
    ensures OnlyChanges(cs, AfterRun(cs, p), {"InstallSucceeded", "Ready"})
    ensures !p.PrecheckFailed? ==> AfterRun(cs, p) == cs
  {
  }

  /**
   * What is set before a run: unset dependents take the value True if Ready is True and Unknown
   * otherwise; a new generation makes Ready False if a dependent is False and Unknown otherwise.
   */
  lemma ObserveExactly(cs: Conditions, newGeneration: bool)
    ensures var before, after := Is(cs, "Ready", True), Observe(cs, newGeneration);
            && (forall t :: t in cs && t != "Ready" ==> t in after && after[t] == cs[t])
            && (forall t :: t in {"InstallSucceeded", "DeploymentsAvailable"} && t !in cs ==>
                  Is(after, t, if before then True else Unknown))
            && "Ready" in after
            && (!newGeneration ==> after["Ready"].truth == if "Ready" in cs then cs["Ready"].truth else Unknown)
            && (newGeneration ==>
                  after["Ready"].truth ==
                  if Is(cs, "InstallSucceeded", False) || Is(cs, "DeploymentsAvailable", False) then False else Unknown)
  {
  }

  // ----- Over any sequence of runs -----

  /** Only the three conditions of the set occur, and Ready is never ahead of its dependents. */
  ghost predicate RolledUp(cs: Conditions) {
    && (forall t :: t in cs ==> (t == READY || t == INSTALL_SUCCEEDED || t == DEPLOYMENTS_AVAILABLE) && cs[t].isError)
    && (Is(cs, READY, True) ==> Is(cs, INSTALL_SUCCEEDED, True) && Is(cs, DEPLOYMENTS_AVAILABLE, True))
  }

  lemma MarkTrueRollsUp(cs: Conditions, t: string)
    requires RolledUp(cs) && (t == INSTALL_SUCCEEDED || t == DEPLOYMENTS_AVAILABLE)
    ensures RolledUp(MarkTrue(cs, t))
  {
    var marked := SetCondition(cs, t, True);
    if Unhappy(marked).None? {
      assert Counted(marked) <= {INSTALL_SUCCEEDED, DEPLOYMENTS_AVAILABLE};
      TwoOfTwo(Counted(marked), INSTALL_SUCCEEDED, DEPLOYMENTS_AVAILABLE);
      assert INSTALL_SUCCEEDED in Counted(marked) && DEPLOYMENTS_AVAILABLE in Counted(marked);
    }
  }

  lemma TwoOfTwo(s: set<string>, a: string, b: string)
    requires s <= {a, b} && |s| >= 2
    ensures a in s && b in s
  {
    if a !in s {
      SubsetSize(s, {b});
    } else if b !in s {
      SubsetSize(s, {a});
    }
  }

  lemma RunRollsUp(cs: Conditions, p: Progress)
    requires RolledUp(cs)
    ensures RolledUp(AfterRun(cs, p))
  {
    if p.Reached? {
      var c := CheckOf(p.answers);
      if c == AllUp { MarkTrueRollsUp(cs, DEPLOYMENTS_AVAILABLE); }
      if c != StoppedOnError { MarkTrueRollsUp(AfterCheck(cs, c), INSTALL_SUCCEEDED); }
    }
  }

  /** A reconcile: whether it is the first one of a generation, and how far it gets. */
  datatype Reconcile = Reconcile(newGeneration: bool, progress: Progress)

  function AfterRuns(cs: Conditions, rs: seq<Reconcile>): Conditions {
    if rs == [] then cs
    else AfterRun(Observe(AfterRuns(cs, rs[..|rs| - 1]), rs[|rs| - 1].newGeneration), rs[|rs| - 1].progress)
  }

  /** The last run that said anything about readiness decides; a new generation without a verdict is not ready. */
  ghost predicate LastVerdict(rs: seq<Reconcile>, initially: bool) {
    if rs == [] then initially
    else
      match rs[|rs| - 1].progress
      case PrecheckFailed => false
      case Reached(answers) => AllAvailable(answers)
      case _ => !rs[|rs| - 1].newGeneration && LastVerdict(rs[..|rs| - 1], initially)
  }

  lemma ObserveRollsUp(cs: Conditions, newGeneration: bool)
    requires RolledUp(cs)
    ensures RolledUp(Observe(cs, newGeneration))
    ensures Is(Observe(cs, newGeneration), READY, True) <==> !newGeneration && Is(cs, READY, True)
  {
  }

  /**
   * Over any sequence of runs, finished or not, and any edits of the object between them: Ready
   * is never True without both dependents, and it is True exactly when the last run that reached
   * a verdict found every Deployment available and no new generation was observed since.
   */
  lemma {:induction false} ReadyOverRuns(cs: Conditions, rs: seq<Reconcile>)
    requires RolledUp(cs)
    ensures RolledUp(AfterRuns(cs, rs))
    ensures Is(AfterRuns(cs, rs), READY, True) <==> LastVerdict(rs, Is(cs, READY, True))
  {
    if rs != [] {
      var init, last := rs[..|rs| - 1], rs[|rs| - 1];
      ReadyOverRuns(cs, init);
      var before := Observe(AfterRuns(cs, init), last.newGeneration);
      ObserveRollsUp(AfterRuns(cs, init), last.newGeneration);
      RunRollsUp(before, last.progress);
      if last.progress.Reached? {
        ReadyExactly(before, last.progress.answers);
      }
    }
  }
}
