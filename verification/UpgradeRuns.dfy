/**
 * Post-install manifests over sequences of reconciles (pkg/manifests/eventing.go and
 * pkg/manifests/kafkabroker.go): each parser compares its core manifests with what an earlier
 * reconcile left in the cluster, and that decides about the post-install stage.
 */
module UpgradeRuns {
  import opened Prelude
  import opened Hpa
  import opened Resources
  import opened SemVer
  import opened WorkloadOverride
  import opened Manifests
  import opened Scaling
  import opened Cluster
  import opened Upgrade
  import Ownership

  /** What one parser loads: the core set with its version, everything else, and the post-install set. */
  datatype Component = Component(core: seq<Resource>, tag: string, rest: Contents, post: seq<Resource>)

  function CoreDeployments(c: Component): seq<Resource> {
    Deployments(c.core)
  }

  /** Parse of either parser; an error of the version search other than NotFound is passed on. */
  function ParseComponent(c: Component, l: Lister): Result<Contents, VersionError> {
    var upgrade := IsUpgrade(c.core, l);
    if upgrade.Err? then Err(upgrade.error)
    else Ok(Contents(c.core + c.rest.toApply, c.rest.toDelete, if upgrade.value then c.post else [],
                     c.rest.transformers))
  }

  /** A parser fails exactly if its decision does; otherwise only the post-install set depends on it. */
  lemma ParseMeaning(c: Component, l: Lister)
    ensures ParseComponent(c, l).Err? <==> IsUpgrade(c.core, l).Err?
    ensures ParseComponent(c, l).Ok? ==>
              && ParseComponent(c, l).value.toApply == c.core + c.rest.toApply
              && ParseComponent(c, l).value.toDelete == c.rest.toDelete
              && ParseComponent(c, l).value.transformers == c.rest.transformers
              && ParseComponent(c, l).value.postInstall == (if IsUpgrade(c.core, l) == Ok(true) then c.post else [])
  {
  }

  /** The lister over the Deployments of the system namespace, as fresh as the cluster. */
  function ListerOf(c: Cluster, ns: string): Lister {
    map n | n in (set id | id in c.objects && id == DeploymentId(ns, id.name) :: id.name) ::
      Found(c.objects[DeploymentId(ns, n)].resource.labels)
  }

  /** A reconcile that reaches its install stage and gets `done` writes of it through. */
  datatype Reconcile = Reconcile(
    eventing: Component,
    kafka: Component,
    loaded: Contents,
    parsed: Parsed,
    imc: Int64,
    mt: Int64,
    em: string,
    lists: Lists,
    done: nat)
  {
    function Of(kafkaSide: bool): Component {
      if kafkaSide then kafka else eventing
    }

    function Writes(): seq<Write> {
      Performed(Attempt(lists, done))
    }
  }

  /** Both parsers' manifests appended. */
  function Collected(eventing: Component, kafka: Component, l: Lister): Result<Contents, VersionError> {
    AppendedResults(ParseComponent(eventing, l), ParseComponent(kafka, l))
  }

  function After(c: Cluster, r: Reconcile): Cluster {
    DoAll(c, r.Writes())
  }

  /** What the parsers load from this cluster, prepared, transformed and sorted, is what the reconcile installs. */
  ghost predicate CarriedOut(c: Cluster, ns: string, r: Reconcile) {
    && Collected(r.eventing, r.kafka, ListerOf(c, ns)) == Ok(r.loaded)
    && r.parsed.Valid() && r.loaded.transformers == r.parsed.Transformers()
    && Ownership.Installable(r.loaded, r.parsed, ns, r.imc, r.mt, r.em, r.lists)
  }

  // ----- One version per manifest set -----

  ghost predicate Tagged(labels: map<string, string>, tag: string) {
    VERSION_LABEL in labels && labels[VERSION_LABEL] == tag
  }

  ghost predicate OneVersion(c: Component, ns: string) {
    && CoreDeployments(c) != [] && DistinctNames(CoreDeployments(c))
    && forall d :: d in CoreDeployments(c) ==>
         d.id == DeploymentId(ns, d.id.name) && d.id.name != "" && Tagged(d.labels, c.tag)
  }

  ghost predicate Avoids(rs: seq<Resource>, ns: string, names: set<string>) {
    forall r, n :: r in rs && n in names ==> r.id != DeploymentId(ns, n)
  }

  /** Only the core set of this side has Deployments of these names, and no override touches the version label. */
  ghost predicate Exclusive(r: Reconcile, ns: string, kafkaSide: bool, names: set<string>) {
    var own, other := r.Of(kafkaSide), r.Of(!kafkaSide);
    && "" !in names && (forall d :: d in CoreDeployments(own) ==> d.id.name in names)
    && Avoids(own.rest.toApply, ns, names) && Avoids(own.rest.toDelete, ns, names) && Avoids(own.post, ns, names)
    && Avoids(other.core, ns, names) && Avoids(other.rest.toApply, ns, names) && Avoids(other.rest.toDelete, ns, names)
    && Avoids(other.post, ns, names)
    && forall o :: o in r.parsed.os ==> VERSION_LABEL !in o.labels
  }

  /** What remains of CarriedOut when the decision about the post-install sets is left open. */
  ghost predicate Assembled(ns: string, r: Reconcile) {
    && r.loaded.toApply == r.eventing.core + r.eventing.rest.toApply + (r.kafka.core + r.kafka.rest.toApply)
    && r.loaded.toDelete == r.eventing.rest.toDelete + r.kafka.rest.toDelete
    && (forall x :: x in r.loaded.postInstall ==> x in r.eventing.post || x in r.kafka.post)
    && r.parsed.Valid()
    && Ownership.Installable(r.loaded, r.parsed, ns, r.imc, r.mt, r.em, r.lists)
  }

  lemma CarriedOutAssembled(c: Cluster, ns: string, r: Reconcile)
    requires CarriedOut(c, ns, r)
    ensures Assembled(ns, r)
  {
    var e, k := ParseComponent(r.eventing, ListerOf(c, ns)), ParseComponent(r.kafka, ListerOf(c, ns));
    assert e.Ok? && k.Ok?;
  }

  /** A well-formed release. */
  ghost predicate Orderly(ns: string, r: Reconcile, kafkaSide: bool, names: set<string>) {
    Assembled(ns, r) && Exclusive(r, ns, kafkaSide, names) && OneVersion(r.Of(kafkaSide), ns)
  }

  // ----- The pipeline keeps the version label -----

  ghost predicate KeepsVersion(t: Transformer) {
    t.Overrides? ==> forall o :: o in t.os ==> VERSION_LABEL !in o.labels
  }

  lemma {:induction false} OverridesKeepVersion(os: seq<Override>, d: Resource, tag: string)
    requires d.id.kind == DEPLOYMENT && Tagged(d.labels, tag) && forall o :: o in os ==> VERSION_LABEL !in o.labels
    ensures ApplyAll(os, d).Ok? && ApplyAll(os, d).value.id == d.id && Tagged(ApplyAll(os, d).value.labels, tag)
  {
    if os != [] {
      OverridesKeepVersion(os[..|os| - 1], d, tag);
      assert os[|os| - 1] in os;
    }
  }

  lemma {:induction false} RunKeepsVersion(ts: seq<Transformer>, d: Resource, tag: string)
    requires d.id.kind == DEPLOYMENT && Tagged(d.labels, tag) && forall t :: t in ts ==> KeepsVersion(t)
    requires RunAll(ts, d).Ok?
    ensures Tagged(RunAll(ts, d).value.labels, tag)
  {
    if ts != [] {
      var init, t := ts[..|ts| - 1], ts[|ts| - 1];
      RunKeepsVersion(init, d, tag);
      RunAllKeepsId(init, d);
      assert t in ts;
      if t.Overrides? { OverridesKeepVersion(t.os, RunAll(init, d).value, tag); }
    }
  }

  lemma AllKeepVersion(m: Contents, p: Parsed, ns: string, imc: Int64, mt: Int64, em: string)
    requires p.Valid() && forall o :: o in p.os ==> VERSION_LABEL !in o.labels
    ensures forall t :: t in Prepared(m, p, ns, imc, mt, em).transformers ==> KeepsVersion(t)
  {
    assert forall t :: t in p.Transformers() ==> KeepsVersion(t);
  }

  // ----- What one reconcile writes -----

  lemma LoadedNames(ns: string, r: Reconcile, kafkaSide: bool, names: set<string>, x: Resource)
    requires Assembled(ns, r) && Exclusive(r, ns, kafkaSide, names)
    requires x.id.name in names && x.id == DeploymentId(ns, x.id.name)
    ensures x in r.loaded.toApply <==> x in r.Of(kafkaSide).core
    ensures x !in r.loaded.toDelete && x !in r.loaded.postInstall
  {
  }

  lemma ListsAvoid(ns: string, r: Reconcile, kafkaSide: bool, names: set<string>, id: Id)
    requires Assembled(ns, r) && Exclusive(r, ns, kafkaSide, names)
    requires id == DeploymentId(ns, id.name) && id.name in names
    ensures !Names(r.lists.delete, id) && !Names(r.lists.post, id)
  {
    var m, m' := r.loaded, Prepared(r.loaded, r.parsed, ns, r.imc, r.mt, r.em);
    PreparedLists(m, r.parsed, ns, r.imc, r.mt, r.em, id);
    PreparedConserves(m, r.parsed, ns, r.imc, r.mt, r.em);
    Ownership.NamesKept(m'.transformers, m'.toDelete, r.lists.delete, id);
    Ownership.NamesKept(m'.transformers, m'.postInstall, r.lists.post, id);
    LookupFinds(m.toDelete, id);
    LookupFinds(m.postInstall, id);
    if Lookup(m.toDelete, id).Some? { LoadedNames(ns, r, kafkaSide, names, Lookup(m.toDelete, id).value); }
    if Lookup(m.postInstall, id).Some? { LoadedNames(ns, r, kafkaSide, names, Lookup(m.postInstall, id).value); }
  }

  /** The apply list names exactly the core Deployments, */
  lemma ApplyFromCore(ns: string, r: Reconcile, kafkaSide: bool, names: set<string>, id: Id)
    requires Orderly(ns, r, kafkaSide, names)
    requires id == DeploymentId(ns, id.name) && id.name in names
    ensures Names(r.lists.apply, id) <==> NameIn(CoreDeployments(r.Of(kafkaSide)), id.name)
  {
    var m, m' := r.loaded, Prepared(r.loaded, r.parsed, ns, r.imc, r.mt, r.em);
    var ds := CoreDeployments(r.Of(kafkaSide));
    PreparedLists(m, r.parsed, ns, r.imc, r.mt, r.em, id);
    Ownership.NamesKept(m'.transformers, m'.toApply, r.lists.apply, id);
    LookupFinds(m.toApply, id);
    OnlyDeployments(r.Of(kafkaSide).core);
    if NameIn(ds, id.name) {
      var d :| d in ds && d.id.name == id.name;
      LoadedNames(ns, r, kafkaSide, names, d);
    }
    if Lookup(m.toApply, id).Some? { LoadedNames(ns, r, kafkaSide, names, Lookup(m.toApply, id).value); }
  }

  /** and gives each of them the version of the release. */
  lemma AppliedTag(ns: string, r: Reconcile, kafkaSide: bool, names: set<string>, y: Resource)
    requires Orderly(ns, r, kafkaSide, names)
    requires y in r.lists.apply && y.id == DeploymentId(ns, y.id.name) && y.id.name in names
    ensures Tagged(y.labels, r.Of(kafkaSide).tag)
  {
    var m, m' := r.loaded, Prepared(r.loaded, r.parsed, ns, r.imc, r.mt, r.em);
    var out := Transform(m'.transformers, m'.toApply).value;
    PermutationMembers(r.lists.apply, out);
    TransformPointwise(m'.transformers, m'.toApply);
    var i :| 0 <= i < |out| && out[i] == y;
    var x := m'.toApply[i];
    PreparedSubset(m, r.parsed, ns, r.imc, r.mt, r.em, x);
    LoadedNames(ns, r, kafkaSide, names, x);
    OnlyDeployments(r.Of(kafkaSide).core);
    AllKeepVersion(m, r.parsed, ns, r.imc, r.mt, r.em);
    RunKeepsVersion(m'.transformers, x, r.Of(kafkaSide).tag);
  }

  /** Only autoscalers change lists. */
  lemma PreparedSubset(m: Contents, p: Parsed, ns: string, imc: Int64, mt: Int64, em: string, x: Resource)
    requires x in Prepared(m, p, ns, imc, mt, em).toApply
    ensures x in m.toApply
  {
    var m0 := ScaleChannels(m.(transformers := p.Transformers()), p.os, ns, imc);
    var m1 := AddHpa(m0, p.os, ns, "broker-filter-hpa", "mt-broker-filter", mt);
    FilterHpaSubset(m0.toApply, "broker-filter-hpa");
    FilterHpaSubset(m1.toApply, "broker-ingress-hpa");
  }

  /** Did the reconcile get to writing this Deployment before it ended or stopped? */
  ghost predicate Wrote(r: Reconcile, ns: string, name: string) {
    WritesId(r.Writes(), DeploymentId(ns, name))
  }

  lemma WritesAreTagged(ns: string, r: Reconcile, kafkaSide: bool, names: set<string>, w: Write)
    requires Orderly(ns, r, kafkaSide, names) && w in r.Writes() && w.r.id == DeploymentId(ns, w.r.id.name)
    requires w.r.id.name in names
    ensures w.Apply? && Tagged(w.r.labels, r.Of(kafkaSide).tag) && NameIn(CoreDeployments(r.Of(kafkaSide)), w.r.id.name)
  {
    WriteSource(r.lists, w);
    ListsAvoid(ns, r, kafkaSide, names, w.r.id);
    assert w.Delete? ==> Names(r.lists.delete, w.r.id);
    assert w.r in r.lists.post ==> Names(r.lists.post, w.r.id);
    assert w.r in r.lists.apply && Names(r.lists.apply, w.r.id);
    AppliedTag(ns, r, kafkaSide, names, w.r);
    ApplyFromCore(ns, r, kafkaSide, names, w.r.id);
  }

  /** A written Deployment is from the core set and has its version; any other one is as it was. */
  lemma NameTracks(c: Cluster, ns: string, r: Reconcile, kafkaSide: bool, names: set<string>, n: string)
    requires Orderly(ns, r, kafkaSide, names) && n in names
    ensures var id, after := DeploymentId(ns, n), After(c, r).objects;
            if Wrote(r, ns, n) then id in after && Tagged(after[id].resource.labels, r.Of(kafkaSide).tag)
            else (id in after <==> id in c.objects) && (id in after ==> after[id] == c.objects[id])
    ensures Wrote(r, ns, n) ==> NameIn(CoreDeployments(r.Of(kafkaSide)), n)
  {
    var id, ws := DeploymentId(ns, n), r.Writes();
    forall w | w in ws && w.r.id == id
      ensures w.Apply? && Tagged(w.r.labels, r.Of(kafkaSide).tag) && NameIn(CoreDeployments(r.Of(kafkaSide)), n)
    {
      WritesAreTagged(ns, r, kafkaSide, names, w);
    }
    LastWritten(c, ws, id);
  }

  /** A reconcile that gets through its apply list writes all core Deployments. */
  lemma FullApplyWrites(ns: string, r: Reconcile, kafkaSide: bool, names: set<string>, n: string)
    requires Orderly(ns, r, kafkaSide, names) && NameIn(CoreDeployments(r.Of(kafkaSide)), n)
    requires |r.lists.delete| + |r.lists.apply| <= r.done
    ensures Wrote(r, ns, n)
  {
    var id := DeploymentId(ns, n);
    ApplyFromCore(ns, r, kafkaSide, names, id);
    var x :| x in r.lists.apply && x.id == id;
    AppliesPerformed(Attempt(r.lists, r.done), x);
  }

  // ----- The installed version of a name -----

  /** The version under which the latest of the first `k` reconciles that wrote this Deployment wrote it. */
  ghost function LatestTag(runs: seq<Reconcile>, k: nat, ns: string, kafkaSide: bool, name: string): Option<string>
    requires k <= |runs|
  {
    if k == 0 then None
    else if Wrote(runs[k - 1], ns, name) then Some(runs[k - 1].Of(kafkaSide).tag)
    else LatestTag(runs, k - 1, ns, kafkaSide, name)
  }

  /** The cluster holds exactly the Deployments that the first `k` reconciles wrote, with the version last written. */
  ghost predicate Tracks(c: Cluster, ns: string, runs: seq<Reconcile>, k: nat, kafkaSide: bool, names: set<string>)
    requires k <= |runs|
  {
    forall n :: n in names ==>
      var id, tag := DeploymentId(ns, n), LatestTag(runs, k, ns, kafkaSide, n);
      if tag.None? then id !in c.objects else id in c.objects && Tagged(c.objects[id].resource.labels, tag.value)
  }

  lemma ReconcileTracks(c: Cluster, ns: string, runs: seq<Reconcile>, k: nat, kafkaSide: bool, names: set<string>)
    requires k < |runs| && Tracks(c, ns, runs, k, kafkaSide, names) && Orderly(ns, runs[k], kafkaSide, names)
    ensures Tracks(After(c, runs[k]), ns, runs, k + 1, kafkaSide, names)
  {
    forall n | n in names
      ensures var id, tag, after := DeploymentId(ns, n), LatestTag(runs, k + 1, ns, kafkaSide, n),
                                  After(c, runs[k]).objects;
              if tag.None? then id !in after else id in after && Tagged(after[id].resource.labels, tag.value)
    {
      NameTracks(c, ns, runs[k], kafkaSide, names, n);
    }
  }

  // ----- The decision -----

  /** The tag of the last Deployment of the list that one of the first `k` reconciles wrote. */
  ghost function InstalledTag(runs: seq<Reconcile>, k: nat, ns: string, kafkaSide: bool,
                              ds: seq<Resource>): Option<string>
    requires k <= |runs|
  {
    if ds == [] then None
    else
      var tag := LatestTag(runs, k, ns, kafkaSide, ds[|ds| - 1].id.name);
      if tag.Some? then tag else InstalledTag(runs, k, ns, kafkaSide, ds[..|ds| - 1])
  }

  /** The version without its patch number, from a tag that is a version. */
  function MinorOf(tag: string): Version {
    var v := Parse(tag);
    if v.Some? then ZeroPatch(v.value) else Version(0, 0, 0, "", "")
  }

  ghost predicate Below(tag: string, c: Component) {
    LessThan(MinorOf(tag), MinorOf(c.tag))
  }

  /** Does the component's version, patch aside, exceed the one installed by the first `k` reconciles? */
  ghost predicate Exceeds(runs: seq<Reconcile>, k: nat, ns: string, kafkaSide: bool, c: Component)
    requires k <= |runs|
  {
    var tag := InstalledTag(runs, k, ns, kafkaSide, CoreDeployments(c));
    tag.Some? && Below(tag.value, c)
  }

  ghost predicate TagsParse(runs: seq<Reconcile>, kafkaSide: bool) {
    forall k :: 0 <= k < |runs| ==> Parse(runs[k].Of(kafkaSide).tag).Some?
  }

  lemma {:induction false} LatestTagFrom(runs: seq<Reconcile>, k: nat, ns: string, kafkaSide: bool, name: string)
    returns (i: nat)
    requires k <= |runs| && LatestTag(runs, k, ns, kafkaSide, name).Some?
    ensures i < k && Wrote(runs[i], ns, name)
    ensures LatestTag(runs, k, ns, kafkaSide, name).value == runs[i].Of(kafkaSide).tag
  {
    if Wrote(runs[k - 1], ns, name) {
      i := k - 1;
    } else {
      i := LatestTagFrom(runs, k - 1, ns, kafkaSide, name);
    }
  }

  /** What the lister answers is what the history says. */
  ghost predicate Answers(l: Lister, runs: seq<Reconcile>, k: nat, ns: string, kafkaSide: bool, name: string)
    requires k <= |runs|
  {
    var tag := LatestTag(runs, k, ns, kafkaSide, name);
    if tag.None? then Ask(l, name).Missing? else Ask(l, name).Found? && Tagged(Ask(l, name).labels, tag.value)
  }

  lemma TracksAnswers(c: Cluster, ns: string, runs: seq<Reconcile>, k: nat, kafkaSide: bool, names: set<string>,
                      name: string)
    requires k <= |runs| && Tracks(c, ns, runs, k, kafkaSide, names) && name in names
    ensures Answers(ListerOf(c, ns), runs, k, ns, kafkaSide, name)
  {
    var id := DeploymentId(ns, name);
    if id in c.objects {
      assert id.name in ListerOf(c, ns);
    }
  }

  lemma FoundCompares(d: Resource, labels: map<string, string>, tag: string, installed: string)
    requires Tagged(d.labels, tag) && Tagged(labels, installed) && Parse(tag).Some? && Parse(installed).Some?
    ensures Compared(d, labels) == Ok(Versions(Parse(tag).value, Parse(installed).value))
  {
  }

  lemma {:induction false} LastPresentIsInstalled(l: Lister, runs: seq<Reconcile>, k: nat, ns: string, kafkaSide: bool,
                                                  ds: seq<Resource>, tag: string)
    requires k <= |runs| && TagsParse(runs, kafkaSide) && Parse(tag).Some?
    requires forall d :: d in ds ==> Answers(l, runs, k, ns, kafkaSide, d.id.name) && Tagged(d.labels, tag)
    ensures var installed := InstalledTag(runs, k, ns, kafkaSide, ds);
            if installed.None? then LastPresent(ds, l) == Err(NotFound)
            else Parse(installed.value).Some?
                 && LastPresent(ds, l) == Ok(Versions(Parse(tag).value, Parse(installed.value).value))
  {
    if ds != [] {
      var last := ds[|ds| - 1];
      assert last in ds;
      var latest := LatestTag(runs, k, ns, kafkaSide, last.id.name);
      if latest.Some? {
        var i := LatestTagFrom(runs, k, ns, kafkaSide, last.id.name);
        FoundCompares(last, Ask(l, last.id.name).labels, tag, latest.value);
      }
      LastPresentIsInstalled(l, runs, k, ns, kafkaSide, ds[..|ds| - 1], tag);
    }
  }

  lemma DecisionFromHistory(c: Cluster, ns: string, runs: seq<Reconcile>, k: nat, kafkaSide: bool, names: set<string>,
                            comp: Component)
    requires k <= |runs| && Tracks(c, ns, runs, k, kafkaSide, names) && TagsParse(runs, kafkaSide)
    requires OneVersion(comp, ns) && Parse(comp.tag).Some?
    requires forall d :: d in CoreDeployments(comp) ==> d.id.name in names
    ensures IsUpgrade(comp.core, ListerOf(c, ns)) == Ok(Exceeds(runs, k, ns, kafkaSide, comp))
  {
    var ds := CoreDeployments(comp);
    GetVersionsRefines(comp.core, ListerOf(c, ns));
    DistinctEndsWithOne(ds);
    forall d | d in ds ensures Answers(ListerOf(c, ns), runs, k, ns, kafkaSide, d.id.name) {
      TracksAnswers(c, ns, runs, k, kafkaSide, names, d.id.name);
    }
    LastPresentIsInstalled(ListerOf(c, ns), runs, k, ns, kafkaSide, ds, comp.tag);
  }

  // ----- Whole histories -----

  /** Reconcile `k` is carried out from cluster `k`, possibly stopped, and leaves cluster `k + 1`. */
  ghost predicate StepAt(cs: seq<Cluster>, ns: string, runs: seq<Reconcile>, k: nat, kafkaSide: bool,
                         names: set<string>)
    requires k < |runs| < |cs|
  {
    && CarriedOut(cs[k], ns, runs[k]) && Exclusive(runs[k], ns, kafkaSide, names)
    && OneVersion(runs[k].Of(kafkaSide), ns)
    && cs[k + 1] == After(cs[k], runs[k])
  }

  /** Starting without any of the Deployments, every reconcile continues from what the one before left. */
  ghost predicate Steps(cs: seq<Cluster>, ns: string, runs: seq<Reconcile>, kafkaSide: bool, names: set<string>) {
    && |cs| == |runs| + 1
    && (forall n :: n in names ==> DeploymentId(ns, n) !in cs[0].objects)
    && forall k :: 0 <= k < |runs| ==> StepAt(cs, ns, runs, k, kafkaSide, names)
  }

  ghost predicate History(cs: seq<Cluster>, ns: string, runs: seq<Reconcile>, kafkaSide: bool, names: set<string>) {
    Steps(cs, ns, runs, kafkaSide, names) && TagsParse(runs, kafkaSide)
  }

  lemma StepOrderly(cs: seq<Cluster>, ns: string, runs: seq<Reconcile>, k: nat, kafkaSide: bool, names: set<string>)
    requires Steps(cs, ns, runs, kafkaSide, names) && k < |runs|
    ensures Orderly(ns, runs[k], kafkaSide, names) && cs[k + 1] == After(cs[k], runs[k])
  {
    assert StepAt(cs, ns, runs, k, kafkaSide, names);
    CarriedOutAssembled(cs[k], ns, runs[k]);
  }

  /** After any history, with reconciles stopped anywhere, the cluster holds what was written last. */
  lemma {:induction false} StepsTrack(cs: seq<Cluster>, ns: string, runs: seq<Reconcile>, k: nat, kafkaSide: bool,
                                      names: set<string>)
    requires Steps(cs, ns, runs, kafkaSide, names) && k <= |runs|
    ensures Tracks(cs[k], ns, runs, k, kafkaSide, names)
  {
    if k > 0 {
      StepsTrack(cs, ns, runs, k - 1, kafkaSide, names);
      StepTracks(cs, ns, runs, k - 1, kafkaSide, names);
    }
  }

  lemma StepTracks(cs: seq<Cluster>, ns: string, runs: seq<Reconcile>, k: nat, kafkaSide: bool, names: set<string>)
    requires Steps(cs, ns, runs, kafkaSide, names) && k < |runs| && Tracks(cs[k], ns, runs, k, kafkaSide, names)
    ensures Tracks(cs[k + 1], ns, runs, k + 1, kafkaSide, names)
  {
    StepOrderly(cs, ns, runs, k, kafkaSide, names);
    ReconcileTracks(cs[k], ns, runs, k, kafkaSide, names);
  }

  /** The decision of either parser about a release of the history, on the cluster after `k` reconciles. */
  lemma DecisionAfter(cs: seq<Cluster>, ns: string, runs: seq<Reconcile>, k: nat, i: nat, kafkaSide: bool,
                      names: set<string>)
    requires History(cs, ns, runs, kafkaSide, names) && k <= |runs| && i < |runs|
    ensures IsUpgrade(runs[i].Of(kafkaSide).core, ListerOf(cs[k], ns)) ==
            Ok(Exceeds(runs, k, ns, kafkaSide, runs[i].Of(kafkaSide)))
  {
    StepsTrack(cs, ns, runs, k, kafkaSide, names);
    StepOrderly(cs, ns, runs, i, kafkaSide, names);
    DecisionFromHistory(cs[k], ns, runs, k, kafkaSide, names, runs[i].Of(kafkaSide));
  }

  /** The decision of either parser in any reconcile of a history, from the versions of the earlier ones alone. */
  lemma DecisionExactly(cs: seq<Cluster>, ns: string, runs: seq<Reconcile>, k: nat, kafkaSide: bool, names: set<string>)
    requires History(cs, ns, runs, kafkaSide, names) && k < |runs|
    ensures IsUpgrade(runs[k].Of(kafkaSide).core, ListerOf(cs[k], ns)) ==
            Ok(Exceeds(runs, k, ns, kafkaSide, runs[k].Of(kafkaSide)))
  {
    DecisionAfter(cs, ns, runs, k, k, kafkaSide, names);
  }

  /** The comparison by major, minor and pre-release, and by pre-release only where the numbers agree. */
  lemma BelowByNumbers(tag: string, c: Component, v: Version, w: Version)
    requires Parse(tag) == Some(v) && Parse(c.tag) == Some(w)
    ensures Below(tag, c) <==> MinorBelow(v, w)
    ensures v.preRelease == w.preRelease ==>
              (Below(tag, c) <==> v.major < w.major || (v.major == w.major && v.minor < w.minor))
  {
    SamePreRelease(v.preRelease);
  }

  /**
   * The decision of a reconcile whose core set has version `w`, in numbers: with version `v`
   * installed, yes exactly if `v` is below `w` by major and minor number, or by pre-release where
   * these agree. For equal pre-releases only major and minor count; the patch never does.
   */
  lemma DecisionByNumbers(cs: seq<Cluster>, ns: string, runs: seq<Reconcile>, k: nat, kafkaSide: bool,
                          names: set<string>, v: Version, w: Version)
    requires History(cs, ns, runs, kafkaSide, names) && k < |runs| && Parse(runs[k].Of(kafkaSide).tag) == Some(w)
    requires var tag := InstalledTag(runs, k, ns, kafkaSide, CoreDeployments(runs[k].Of(kafkaSide)));
             tag.Some? && Parse(tag.value) == Some(v)
    ensures IsUpgrade(runs[k].Of(kafkaSide).core, ListerOf(cs[k], ns)) == Ok(MinorBelow(v, w))
    ensures v.preRelease == w.preRelease ==>
              IsUpgrade(runs[k].Of(kafkaSide).core, ListerOf(cs[k], ns)) ==
              Ok(v.major < w.major || (v.major == w.major && v.minor < w.minor))
  {
    var c := runs[k].Of(kafkaSide);
    DecisionExactly(cs, ns, runs, k, kafkaSide, names);
    BelowByNumbers(InstalledTag(runs, k, ns, kafkaSide, CoreDeployments(c)).value, c, v, w);
  }

  /**
   * For versions without unusual pre-release identifiers the comparison is that of the standard:
   * strictly below by section 11 of Semantic Versioning 2.0.0, with both patch numbers 0.
   */
  lemma DecisionBySpec(cs: seq<Cluster>, ns: string, runs: seq<Reconcile>, k: nat, kafkaSide: bool,
                       names: set<string>, v: Version, w: Version)
    requires History(cs, ns, runs, kafkaSide, names) && k < |runs| && Parse(runs[k].Of(kafkaSide).tag) == Some(w)
    requires var tag := InstalledTag(runs, k, ns, kafkaSide, CoreDeployments(runs[k].Of(kafkaSide)));
             tag.Some? && Parse(tag.value) == Some(v)
    requires PlainVersion(v) && PlainVersion(w)
    ensures IsUpgrade(runs[k].Of(kafkaSide).core, ListerOf(cs[k], ns)) ==
            Ok(SpecCompare(Version(v.major, v.minor, 0, v.preRelease, ""),
                           Version(w.major, w.minor, 0, w.preRelease, "")) < 0)
  {
    DecisionByNumbers(cs, ns, runs, k, kafkaSide, names, v, w);
    MinorBelowBySpec(v, w);
  }

  lemma MinorBelowBySpec(v: Version, w: Version)
    requires PlainVersion(v) && PlainVersion(w)
    ensures MinorBelow(v, w) <==>
            SpecCompare(Version(v.major, v.minor, 0, v.preRelease, ""),
                        Version(w.major, w.minor, 0, w.preRelease, "")) < 0
  {
    CompareFollowsSpec(Version(v.major, v.minor, 0, v.preRelease, ""), Version(w.major, w.minor, 0, w.preRelease, ""));
    SamePreRelease(v.preRelease);
  }

  /** The post-install set of a component in reconcile `k`. */
  ghost function PostOf(runs: seq<Reconcile>, k: nat, ns: string, kafkaSide: bool): seq<Resource>
    requires k < |runs|
  {
    if Exceeds(runs, k, ns, kafkaSide, runs[k].Of(kafkaSide)) then runs[k].Of(kafkaSide).post else []
  }

  /** `out` is the transformed list in some order. */
  ghost predicate HandedOn(out: seq<Resource>, ts: seq<Transformer>, rs: seq<Resource>) {
    Transform(ts, rs).Ok? && Permutation(out, Transform(ts, rs).value)
  }

  function TransformersOf(r: Reconcile, ns: string): seq<Transformer> {
    Prepared(r.loaded, r.parsed, ns, r.imc, r.mt, r.em).transformers
  }

  /**
   * The post-install list that a reconcile hands to the install stage: for each side its
   * post-install set exactly when its version, patch aside, exceeds the installed one.
   */
  lemma PostInstallExactly(cs: seq<Cluster>, ns: string, runs: seq<Reconcile>, k: nat, eventing: set<string>,
                           kafka: set<string>)
    requires History(cs, ns, runs, false, eventing) && History(cs, ns, runs, true, kafka) && k < |runs|
    ensures runs[k].loaded.postInstall == PostOf(runs, k, ns, false) + PostOf(runs, k, ns, true)
    ensures HandedOn(runs[k].lists.post, TransformersOf(runs[k], ns),
                     PostOf(runs, k, ns, false) + PostOf(runs, k, ns, true))
  {
    DecisionExactly(cs, ns, runs, k, false, eventing);
    DecisionExactly(cs, ns, runs, k, true, kafka);
    assert StepAt(cs, ns, runs, k, false, eventing);
    LoadedPost(cs[k], ns, runs[k]);
    StepOrderly(cs, ns, runs, k, false, eventing);
    PostListKept(ns, runs[k]);
  }

  lemma LoadedPost(c: Cluster, ns: string, r: Reconcile)
    requires CarriedOut(c, ns, r)
    ensures IsUpgrade(r.eventing.core, ListerOf(c, ns)).Ok? && IsUpgrade(r.kafka.core, ListerOf(c, ns)).Ok?
    ensures r.loaded.postInstall == (if IsUpgrade(r.eventing.core, ListerOf(c, ns)).value then r.eventing.post else [])
                                    + (if IsUpgrade(r.kafka.core, ListerOf(c, ns)).value then r.kafka.post else [])
  {
    var e, k := ParseComponent(r.eventing, ListerOf(c, ns)), ParseComponent(r.kafka, ListerOf(c, ns));
    assert e.Ok? && k.Ok?;
  }

  lemma PostListKept(ns: string, r: Reconcile)
    requires Assembled(ns, r)
    ensures HandedOn(r.lists.post, TransformersOf(r, ns), r.loaded.postInstall)
  {
    PreparedConserves(r.loaded, r.parsed, ns, r.imc, r.mt, r.em);
  }

  // ----- First install, and the step from one release to the next -----

  lemma {:induction false} NothingInstalled(runs: seq<Reconcile>, k: nat, ns: string, kafkaSide: bool,
                                            ds: seq<Resource>)
    requires k <= |runs| && forall i, d :: 0 <= i < k && d in ds ==> !Wrote(runs[i], ns, d.id.name)
    ensures InstalledTag(runs, k, ns, kafkaSide, ds) == None
  {
    if ds != [] {
      var name := ds[|ds| - 1].id.name;
      assert ds[|ds| - 1] in ds;
      if LatestTag(runs, k, ns, kafkaSide, name).Some? {
        var i := LatestTagFrom(runs, k, ns, kafkaSide, name);
        assert false;
      }
      NothingInstalled(runs, k, ns, kafkaSide, ds[..|ds| - 1]);
    }
  }

  /** Never on a first install, that is if no earlier reconcile wrote any Deployment of the core set. */
  lemma FirstInstallNever(cs: seq<Cluster>, ns: string, runs: seq<Reconcile>, k: nat, kafkaSide: bool,
                          names: set<string>)
    requires History(cs, ns, runs, kafkaSide, names) && k < |runs|
    requires forall i, d :: 0 <= i < k && d in CoreDeployments(runs[k].Of(kafkaSide)) ==> !Wrote(runs[i], ns, d.id.name)
    ensures IsUpgrade(runs[k].Of(kafkaSide).core, ListerOf(cs[k], ns)) == Ok(false)
  {
    DecisionExactly(cs, ns, runs, k, kafkaSide, names);
    NothingInstalled(runs, k, ns, kafkaSide, CoreDeployments(runs[k].Of(kafkaSide)));
  }

  /** The previous reconcile wrote some of the Deployments, and all that are installed. */
  ghost predicate Continues(runs: seq<Reconcile>, k: nat, ns: string, kafkaSide: bool, ds: seq<Resource>)
    requires 0 < k <= |runs|
  {
    && (forall d :: d in ds && LatestTag(runs, k, ns, kafkaSide, d.id.name).Some? ==> Wrote(runs[k - 1], ns, d.id.name))
    && exists d :: d in ds && Wrote(runs[k - 1], ns, d.id.name)
  }

  /** Then the installed version is that of the previous reconcile. */
  lemma {:induction false} InstalledIsPrevious(runs: seq<Reconcile>, k: nat, ns: string, kafkaSide: bool,
                                               ds: seq<Resource>)
    requires 0 < k <= |runs| && Continues(runs, k, ns, kafkaSide, ds)
    ensures InstalledTag(runs, k, ns, kafkaSide, ds) == Some(runs[k - 1].Of(kafkaSide).tag)
  {
    var init, last := ds[..|ds| - 1], ds[|ds| - 1];
    assert ds == init + [last] && last in ds;
    if LatestTag(runs, k, ns, kafkaSide, last.id.name).None? {
      InstalledIsPrevious(runs, k, ns, kafkaSide, init);
    }
  }

  /** From one release to the next: exactly when the new version, patch aside, is strictly above the previous one. */
  lemma UpgradeExactly(cs: seq<Cluster>, ns: string, runs: seq<Reconcile>, k: nat, kafkaSide: bool, names: set<string>)
    requires History(cs, ns, runs, kafkaSide, names) && 0 < k < |runs|
    requires Continues(runs, k, ns, kafkaSide, CoreDeployments(runs[k].Of(kafkaSide)))
    ensures IsUpgrade(runs[k].Of(kafkaSide).core, ListerOf(cs[k], ns)) ==
            Ok(Below(runs[k - 1].Of(kafkaSide).tag, runs[k].Of(kafkaSide)))
  {
    DecisionExactly(cs, ns, runs, k, kafkaSide, names);
    InstalledIsPrevious(runs, k, ns, kafkaSide, CoreDeployments(runs[k].Of(kafkaSide)));
  }

  // ----- The same release again, after a reconcile that may have stopped anywhere -----

  /** One of the reconciles from `k` up to, not including, `j` wrote this Deployment. */
  ghost predicate WroteSince(runs: seq<Reconcile>, k: nat, j: nat, ns: string, name: string)
    requires k <= j <= |runs|
  {
    exists i :: k <= i < j && Wrote(runs[i], ns, name)
  }

  lemma {:induction false} TagSince(runs: seq<Reconcile>, k: nat, j: nat, ns: string, kafkaSide: bool, name: string,
                                    tag: string)
    requires k <= j <= |runs| && forall i :: k <= i < j ==> runs[i].Of(kafkaSide).tag == tag
    ensures LatestTag(runs, j, ns, kafkaSide, name) ==
            if WroteSince(runs, k, j, ns, name) then Some(tag) else LatestTag(runs, k, ns, kafkaSide, name)
    decreases j
  {
    if k < j {
      TagSince(runs, k, j - 1, ns, kafkaSide, name, tag);
      assert WroteSince(runs, k, j, ns, name) <==> WroteSince(runs, k, j - 1, ns, name) || Wrote(runs[j - 1], ns, name);
    }
  }

  ghost predicate Present(c: Cluster, ns: string, d: Resource) {
    DeploymentId(ns, d.id.name) in c.objects
  }

  ghost predicate NonePresent(c: Cluster, ns: string, ds: seq<Resource>) {
    forall m :: 0 <= m < |ds| ==> !Present(c, ns, ds[m])
  }

  /** The last Deployment of the list that is in the cluster. */
  ghost predicate LastIn(c: Cluster, ns: string, ds: seq<Resource>, i: nat) {
    i < |ds| && Present(c, ns, ds[i]) && forall m :: i < m < |ds| ==> !Present(c, ns, ds[m])
  }

  ghost function VersionIn(c: Cluster, ns: string, d: Resource): string {
    if Present(c, ns, d) && VERSION_LABEL in c.objects[DeploymentId(ns, d.id.name)].resource.labels
    then c.objects[DeploymentId(ns, d.id.name)].resource.labels[VERSION_LABEL] else ""
  }

  /**
   * The last core Deployment that is in the cluster before reconcile `j` has not been written
   * since reconcile `k`, before which it had a version that is strictly below.
   */
  ghost predicate StillBehind(cs: seq<Cluster>, runs: seq<Reconcile>, k: nat, j: nat, ns: string, c: Component)
    requires k <= j <= |runs| < |cs|
  {
    exists i: nat :: LastIn(cs[j], ns, CoreDeployments(c), i)
      && !WroteSince(runs, k, j, ns, CoreDeployments(c)[i].id.name)
      && Below(VersionIn(cs[k], ns, CoreDeployments(c)[i]), c)
  }

  lemma TracksPresent(c: Cluster, ns: string, runs: seq<Reconcile>, j: nat, kafkaSide: bool, names: set<string>,
                      d: Resource)
    requires j <= |runs| && Tracks(c, ns, runs, j, kafkaSide, names) && d.id.name in names
    ensures Present(c, ns, d) <==> LatestTag(runs, j, ns, kafkaSide, d.id.name).Some?
  {
  }

  lemma LastInSnoc(c: Cluster, ns: string, ds: seq<Resource>)
    requires ds != [] && !Present(c, ns, ds[|ds| - 1])
    ensures forall i: nat :: LastIn(c, ns, ds[..|ds| - 1], i) ==> LastIn(c, ns, ds, i)
    ensures NonePresent(c, ns, ds[..|ds| - 1]) ==> NonePresent(c, ns, ds)
  {
    var init := ds[..|ds| - 1];
    assert forall m :: 0 <= m < |init| ==> ds[m] == init[m];
  }

  lemma {:induction false} InstalledAtLast(c: Cluster, ns: string, runs: seq<Reconcile>, j: nat, kafkaSide: bool,
                                           names: set<string>, ds: seq<Resource>)
    returns (i: nat)
    requires j <= |runs| && Tracks(c, ns, runs, j, kafkaSide, names) && forall d :: d in ds ==> d.id.name in names
    ensures if InstalledTag(runs, j, ns, kafkaSide, ds).None? then NonePresent(c, ns, ds)
            else LastIn(c, ns, ds, i)
                 && InstalledTag(runs, j, ns, kafkaSide, ds) == LatestTag(runs, j, ns, kafkaSide, ds[i].id.name)
  {
    i := 0;
    if ds != [] {
      var last := ds[|ds| - 1];
      assert last in ds;
      TracksPresent(c, ns, runs, j, kafkaSide, names, last);
      if LatestTag(runs, j, ns, kafkaSide, last.id.name).Some? {
        i := |ds| - 1;
      } else {
        i := InstalledAtLast(c, ns, runs, j, kafkaSide, names, ds[..|ds| - 1]);
        LastInSnoc(c, ns, ds);
      }
    }
  }

  lemma LastInUnique(c: Cluster, ns: string, ds: seq<Resource>, i: nat, m: nat)
    requires LastIn(c, ns, ds, i) && LastIn(c, ns, ds, m)
    ensures i == m
  {
    assert Present(c, ns, ds[i]) && Present(c, ns, ds[m]);
  }

  lemma NotBelowItself(c: Component)
    ensures !Below(c.tag, c)
  {
    CompareOrder(MinorOf(c.tag), MinorOf(c.tag), MinorOf(c.tag));
  }

  /**
   * While one release is reconciled again and again, wherever the reconciles stop: reconcile `j`
   * has the post-install set if and only if the last core Deployment present by then was not
   * written by any reconcile of the release from `k` on, and had a strictly lower version before.
   */
  lemma RetriedExactly(cs: seq<Cluster>, ns: string, runs: seq<Reconcile>, k: nat, j: nat, kafkaSide: bool,
                       names: set<string>)
    requires History(cs, ns, runs, kafkaSide, names) && k <= j < |runs|
    requires forall i :: k <= i <= j ==> runs[i].Of(kafkaSide) == runs[k].Of(kafkaSide)
    ensures IsUpgrade(runs[j].Of(kafkaSide).core, ListerOf(cs[j], ns)) ==
            Ok(StillBehind(cs, runs, k, j, ns, runs[k].Of(kafkaSide)))
  {
    DecisionExactly(cs, ns, runs, j, kafkaSide, names);
    StepOrderly(cs, ns, runs, k, kafkaSide, names);
    StepsTrack(cs, ns, runs, j, kafkaSide, names);
    StepsTrack(cs, ns, runs, k, kafkaSide, names);
    BehindExactly(cs, ns, runs, k, j, kafkaSide, names, runs[k].Of(kafkaSide));
  }

  lemma BehindExactly(cs: seq<Cluster>, ns: string, runs: seq<Reconcile>, k: nat, j: nat, kafkaSide: bool,
                      names: set<string>, c: Component)
    requires k <= j < |runs| < |cs|
    requires Tracks(cs[j], ns, runs, j, kafkaSide, names) && Tracks(cs[k], ns, runs, k, kafkaSide, names)
    requires forall i :: k <= i < j ==> runs[i].Of(kafkaSide).tag == c.tag
    requires forall d :: d in CoreDeployments(c) ==> d.id.name in names
    ensures Exceeds(runs, j, ns, kafkaSide, c) <==> StillBehind(cs, runs, k, j, ns, c)
  {
    var ds := CoreDeployments(c);
    var i := InstalledAtLast(cs[j], ns, runs, j, kafkaSide, names, ds);
    if InstalledTag(runs, j, ns, kafkaSide, ds).Some? {
      var d := ds[i];
      assert d in ds && d.id.name in names;
      TagSince(runs, k, j, ns, kafkaSide, d.id.name, c.tag);
      NotBelowItself(c);
      OnlyCandidate(cs, runs, k, j, ns, c, i);
      assert !WroteSince(runs, k, j, ns, d.id.name) ==>
        LatestTag(runs, k, ns, kafkaSide, d.id.name) == Some(VersionIn(cs[k], ns, d));
    } else {
      assert forall m: nat :: !LastIn(cs[j], ns, ds, m);
    }
  }

  lemma OnlyCandidate(cs: seq<Cluster>, runs: seq<Reconcile>, k: nat, j: nat, ns: string, c: Component, i: nat)
    requires k <= j <= |runs| < |cs| && LastIn(cs[j], ns, CoreDeployments(c), i)
    ensures StillBehind(cs, runs, k, j, ns, c) <==>
            !WroteSince(runs, k, j, ns, CoreDeployments(c)[i].id.name)
            && Below(VersionIn(cs[k], ns, CoreDeployments(c)[i]), c)
  {
    if StillBehind(cs, runs, k, j, ns, c) {
      var m: nat :| LastIn(cs[j], ns, CoreDeployments(c), m)
        && !WroteSince(runs, k, j, ns, CoreDeployments(c)[m].id.name)
        && Below(VersionIn(cs[k], ns, CoreDeployments(c)[m]), c);
      LastInUnique(cs[j], ns, CoreDeployments(c), i, m);
    }
  }

  /**
   * Never again: once a reconcile has written the last Deployment of its core set, be it stopped
   * right afterwards, no later reconcile of the release has the post-install set.
   */
  lemma NeverAgain(cs: seq<Cluster>, ns: string, runs: seq<Reconcile>, k: nat, j: nat, kafkaSide: bool,
                   names: set<string>)
    requires History(cs, ns, runs, kafkaSide, names) && k < j < |runs|
    requires forall i :: k <= i <= j ==> runs[i].Of(kafkaSide) == runs[k].Of(kafkaSide)
    requires var ds := CoreDeployments(runs[k].Of(kafkaSide)); ds != [] && Wrote(runs[k], ns, ds[|ds| - 1].id.name)
    ensures IsUpgrade(runs[j].Of(kafkaSide).core, ListerOf(cs[j], ns)) == Ok(false)
  {
    var c := runs[k].Of(kafkaSide);
    RetriedExactly(cs, ns, runs, k, j, kafkaSide, names);
    StepOrderly(cs, ns, runs, k, kafkaSide, names);
    StepsTrack(cs, ns, runs, j, kafkaSide, names);
    WrittenIsLast(cs[j], ns, runs, k, j, kafkaSide, names, c);
    OnlyCandidate(cs, runs, k, j, ns, c, |CoreDeployments(c)| - 1);
  }

  /** A last core Deployment that was written stays the last one present. */
  lemma WrittenIsLast(cl: Cluster, ns: string, runs: seq<Reconcile>, k: nat, j: nat, kafkaSide: bool,
                      names: set<string>, c: Component)
    requires k < j <= |runs| && Tracks(cl, ns, runs, j, kafkaSide, names)
    requires forall i :: k <= i < j ==> runs[i].Of(kafkaSide).tag == c.tag
    requires forall d :: d in CoreDeployments(c) ==> d.id.name in names
    requires var ds := CoreDeployments(c); ds != [] && Wrote(runs[k], ns, ds[|ds| - 1].id.name)
    ensures var ds := CoreDeployments(c);
            LastIn(cl, ns, ds, |ds| - 1) && WroteSince(runs, k, j, ns, ds[|ds| - 1].id.name)
  {
    var ds := CoreDeployments(c);
    var last := ds[|ds| - 1];
    assert last in ds && last.id.name in names;
    TagSince(runs, k, j, ns, kafkaSide, last.id.name, c.tag);
  }

  /** How much of its post-install list a reconcile gets through. */
  function PostDone(r: Reconcile): (n: nat)
    requires |r.lists.delete| + |r.lists.apply| <= r.done
    ensures n <= |r.lists.post|
  {
    var n := r.done - |r.lists.delete| - |r.lists.apply|;
    if n <= |r.lists.post| then n else |r.lists.post|
  }

  /**
   * A reconcile that stops after its apply list has applied exactly the beginning of its
   * post-install list; the rest is lost, since no later reconcile of the release has that list.
   */
  lemma StoppedLosesPostInstall(cs: seq<Cluster>, ns: string, runs: seq<Reconcile>, k: nat, j: nat, kafkaSide: bool,
                                names: set<string>)
    requires History(cs, ns, runs, kafkaSide, names) && k < j < |runs|
    requires forall i :: k <= i <= j ==> runs[i].Of(kafkaSide) == runs[k].Of(kafkaSide)
    requires |runs[k].lists.delete| + |runs[k].lists.apply| <= runs[k].done
    ensures var l := runs[k].lists;
            cs[k + 1] ==
              DoAll(DoAll(DoAll(cs[k], Deletes(l.delete)), Applies(l.apply)), Applies(l.post[..PostDone(runs[k])]))
    ensures IsUpgrade(runs[j].Of(kafkaSide).core, ListerOf(cs[j], ns)) == Ok(false)
  {
    LastIsWritten(cs, ns, runs, k, kafkaSide, names);
    PerformedSplits(cs[k], runs[k]);
    NeverAgain(cs, ns, runs, k, j, kafkaSide, names);
  }

  lemma LastIsWritten(cs: seq<Cluster>, ns: string, runs: seq<Reconcile>, k: nat, kafkaSide: bool, names: set<string>)
    requires Steps(cs, ns, runs, kafkaSide, names) && k < |runs|
    requires |runs[k].lists.delete| + |runs[k].lists.apply| <= runs[k].done
    ensures cs[k + 1] == After(cs[k], runs[k])
    ensures var ds := CoreDeployments(runs[k].Of(kafkaSide)); ds != [] && Wrote(runs[k], ns, ds[|ds| - 1].id.name)
  {
    StepOrderly(cs, ns, runs, k, kafkaSide, names);
    LastWrittenIn(ns, runs[k], kafkaSide, names);
  }

  lemma LastWrittenIn(ns: string, r: Reconcile, kafkaSide: bool, names: set<string>)
    requires Orderly(ns, r, kafkaSide, names) && |r.lists.delete| + |r.lists.apply| <= r.done
    ensures var ds := CoreDeployments(r.Of(kafkaSide)); ds != [] && Wrote(r, ns, ds[|ds| - 1].id.name)
  {
    var ds := CoreDeployments(r.Of(kafkaSide));
    assert ds[|ds| - 1] in ds;
    FullApplyWrites(ns, r, kafkaSide, names, ds[|ds| - 1].id.name);
  }

  lemma PerformedSplits(c: Cluster, r: Reconcile)
    requires |r.lists.delete| + |r.lists.apply| <= r.done
    ensures After(c, r) ==
            DoAll(DoAll(DoAll(c, Deletes(r.lists.delete)), Applies(r.lists.apply)),
                  Applies(r.lists.post[..PostDone(r)]))
  {
    var l := r.lists;
    assert r.Writes() == (Deletes(l.delete) + Applies(l.apply)) + Applies(l.post[..PostDone(r)]);
    DoAllConcat(c, Deletes(l.delete) + Applies(l.apply), Applies(l.post[..PostDone(r)]));
    DoAllConcat(c, Deletes(l.delete), Applies(l.apply));
  }

  // ----- The jobs that complete reconciles create -----

  /** The objects of a list that are created anew each time, after the transformers. */
  ghost function Jobs(ts: seq<Transformer>, rs: seq<Resource>): multiset<Resource> {
    var out := Transform(ts, rs);
    if out.Ok? then multiset(GeneratedIn(out.value)) else multiset{}
  }

  lemma JobsConcat(ts: seq<Transformer>, a: seq<Resource>, b: seq<Resource>)
    requires Transform(ts, a + b).Ok?
    ensures Jobs(ts, a + b) == Jobs(ts, a) + Jobs(ts, b)
  {
    TransformConcat(ts, a, b);
    GeneratedConcat(Transform(ts, a).value, Transform(ts, b).value);
  }

  lemma HandedOnJobs(out: seq<Resource>, ts: seq<Transformer>, rs: seq<Resource>)
    requires HandedOn(out, ts, rs)
    ensures multiset(GeneratedIn(out)) == Jobs(ts, rs)
  {
    GeneratedPermutes(out, Transform(ts, rs).value);
  }

  /**
   * A complete reconcile creates, besides what its apply list creates anew, the jobs of each
   * post-install set exactly when the version of that side exceeds the installed one.
   */
  lemma JobsExactly(cs: seq<Cluster>, ns: string, runs: seq<Reconcile>, k: nat, eventing: set<string>,
                    kafka: set<string>)
    requires History(cs, ns, runs, false, eventing) && History(cs, ns, runs, true, kafka) && k < |runs|
    requires |Writes(runs[k].lists)| <= runs[k].done
    ensures var ts := TransformersOf(runs[k], ns);
            multiset(cs[k + 1].generated) == multiset(cs[k].generated) + multiset(GeneratedIn(runs[k].lists.apply))
                                             + Jobs(ts, PostOf(runs, k, ns, false))
                                             + Jobs(ts, PostOf(runs, k, ns, true))
  {
    var l, ts := runs[k].lists, TransformersOf(runs[k], ns);
    StepOrderly(cs, ns, runs, k, false, eventing);
    assert runs[k].Writes() == Writes(l);
    InstallCreates(cs[k], l);
    PostInstallExactly(cs, ns, runs, k, eventing, kafka);
    HandedOnJobs(l.post, ts, PostOf(runs, k, ns, false) + PostOf(runs, k, ns, true));
    JobsConcat(ts, PostOf(runs, k, ns, false), PostOf(runs, k, ns, true));
  }

  /** All reconciles are complete, and nothing but the post-install sets is created anew. */
  ghost predicate OnlyPostJobs(runs: seq<Reconcile>) {
    forall k :: 0 <= k < |runs| ==> |Writes(runs[k].lists)| <= runs[k].done && GeneratedIn(runs[k].lists.apply) == []
  }

  /** The jobs that each reconcile of a history creates. */
  ghost function JobsOfAll(runs: seq<Reconcile>, ns: string): (js: seq<multiset<Resource>>)
    ensures |js| == |runs|
    ensures forall k :: 0 <= k < |runs| ==>
              js[k] == Jobs(TransformersOf(runs[k], ns), PostOf(runs, k, ns, false))
                       + Jobs(TransformersOf(runs[k], ns), PostOf(runs, k, ns, true))
  {
    seq(|runs|, k requires 0 <= k < |runs| =>
      Jobs(TransformersOf(runs[k], ns), PostOf(runs, k, ns, false))
      + Jobs(TransformersOf(runs[k], ns), PostOf(runs, k, ns, true)))
  }

  ghost function Sum(js: seq<multiset<Resource>>): multiset<Resource> {
    if js == [] then multiset{} else Sum(js[..|js| - 1]) + js[|js| - 1]
  }

  lemma {:induction false} AddUp(gs: seq<multiset<Resource>>, js: seq<multiset<Resource>>, k: nat)
    requires k <= |js| < |gs| && forall i :: 0 <= i < |js| ==> gs[i + 1] == gs[i] + js[i]
    ensures gs[k] == gs[0] + Sum(js[..k])
  {
    if k > 0 {
      AddUp(gs, js, k - 1);
      assert js[..k][..k - 1] == js[..k - 1];
    }
  }

  /** Over a whole history of complete reconciles: the jobs in the cluster are those of the reconciles that upgraded. */
  lemma JobsOverHistory(cs: seq<Cluster>, ns: string, runs: seq<Reconcile>, k: nat, eventing: set<string>,
                        kafka: set<string>)
    requires History(cs, ns, runs, false, eventing) && History(cs, ns, runs, true, kafka) && k <= |runs|
    requires OnlyPostJobs(runs)
    ensures multiset(cs[k].generated) == multiset(cs[0].generated) + Sum(JobsOfAll(runs, ns)[..k])
  {
    var gs := seq(|cs|, i requires 0 <= i < |cs| => multiset(cs[i].generated));
    var js := JobsOfAll(runs, ns);
    forall i | 0 <= i < |js| ensures gs[i + 1] == gs[i] + js[i] {
      JobsExactly(cs, ns, runs, i, eventing, kafka);
    }
    AddUp(gs, js, k);
  }
}
