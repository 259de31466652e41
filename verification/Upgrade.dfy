/** Upgrade detection (pkg/manifests/version.go). */
module Upgrade {
  import opened Prelude
  import opened Resources
  import opened SemVer

  const VERSION_LABEL := "app.kubernetes.io/version"

  /** What the deployment lister answers for a name in the system namespace. */
  datatype Answer = Found(labels: map<string, string>) | Missing | Failed

  /** Names not in the map are not in the cluster. */
  type Lister = map<string, Answer>

  function Ask(l: Lister, name: string): Answer {
    if name in l then l[name] else Missing
  }

  /** Errors only matter by whether they wrap a NotFound. */
  datatype VersionError = NotFound | OtherError

  datatype Versions = Versions(manifest: Version, instance: Version)

  function LabelVersion(labels: map<string, string>): Option<Version> {
    if VERSION_LABEL in labels then Parse(labels[VERSION_LABEL]) else None
  }

  function Deployments(ms: seq<Resource>): seq<Resource> {
    if ms == [] then []
    else Deployments(ms[..|ms| - 1]) + (if ms[|ms| - 1].id.kind == DEPLOYMENT then [ms[|ms| - 1]] else [])
  }

  /** All resources except the Deployments of that name. */
  function Without(ms: seq<Resource>, name: string): seq<Resource> {
    if ms == [] then []
    else
      var last := ms[|ms| - 1];
      Without(ms[..|ms| - 1], name) + (if last.id.kind == DEPLOYMENT && last.id.name == name then [] else [last])
  }

  /** The versions of a Deployment found in the cluster. */
  function Compared(d: Resource, labels: map<string, string>): Result<Versions, VersionError> {
    var i, m := LabelVersion(labels), LabelVersion(d.labels);
    if i.None? || m.None? then Err(OtherError) else Ok(Versions(m.value, i.value))
  }

  /** getVersions, with the number of remaining Deployments as its measure. */
  function GetVersions(ms: seq<Resource>, l: Lister): Result<Versions, VersionError>
    decreases |Deployments(ms)|
  {
    var ds := Deployments(ms);
    if ds == [] then Err(OtherError)
    else
      var last := ds[|ds| - 1];
      match Ask(l, last.id.name)
      case Missing =>
        if |ds| > 1 then
          WithoutShrinks(ms, last);
          GetVersions(Without(ms, last.id.name), l)
        else Err(NotFound)
      case Failed => Err(OtherError)
      case Found(labels) => Compared(last, labels)
  }

  lemma {:induction false} DeploymentsWithout(ms: seq<Resource>, name: string)
    ensures Deployments(Without(ms, name)) == Without(Deployments(ms), name)
  {
    if ms != [] {
      var init, last := ms[..|ms| - 1], ms[|ms| - 1];
      DeploymentsWithout(init, name);
      if last.id.kind == DEPLOYMENT {
        WithoutSnoc(Deployments(init), last, name);
      } else {
        assert Deployments(ms) == Deployments(init);
      }
      if last.id.kind == DEPLOYMENT && last.id.name == name {
        assert Without(ms, name) == Without(init, name);
      } else {
        DeploymentsSnoc(Without(init, name), last);
      }
    }
  }

  lemma WithoutSnoc(ms: seq<Resource>, r: Resource, name: string)
    ensures Without(ms + [r], name) ==
            Without(ms, name) + (if r.id.kind == DEPLOYMENT && r.id.name == name then [] else [r])
  {
    assert (ms + [r])[..|ms|] == ms;
  }

  lemma DeploymentsSnoc(ms: seq<Resource>, r: Resource)
    ensures Deployments(ms + [r]) == Deployments(ms) + (if r.id.kind == DEPLOYMENT then [r] else [])
  {
    assert (ms + [r])[..|ms|] == ms;
  }

  lemma {:induction false} OnlyDeployments(ms: seq<Resource>)
    ensures forall d :: d in Deployments(ms) ==> d.id.kind == DEPLOYMENT && d in ms
    ensures forall d :: d in ms && d.id.kind == DEPLOYMENT ==> d in Deployments(ms)
  {
    if ms != [] {
      OnlyDeployments(ms[..|ms| - 1]);
      assert ms == ms[..|ms| - 1] + [ms[|ms| - 1]];
    }
  }

  lemma {:induction false} WithoutLength(ds: seq<Resource>, name: string)
    ensures |Without(ds, name)| <= |ds|
  {
    if ds != [] { WithoutLength(ds[..|ds| - 1], name); }
  }

  lemma WithoutShrinks(ms: seq<Resource>, last: Resource)
    requires Deployments(ms) != [] && last == Deployments(ms)[|Deployments(ms)| - 1]
    ensures |Deployments(Without(ms, last.id.name))| < |Deployments(ms)|
  {
    var ds := Deployments(ms);
    OnlyDeployments(ms);
    DeploymentsWithout(ms, last.id.name);
    WithoutLength(ds[..|ds| - 1], last.id.name);
    assert last in ds;
  }

  // ----- Reference: the last Deployment in list order that is in the cluster -----

  function LastPresent(ds: seq<Resource>, l: Lister): Result<Versions, VersionError> {
    if ds == [] then Err(NotFound)
    else
      match Ask(l, ds[|ds| - 1].id.name)
      case Missing => LastPresent(ds[..|ds| - 1], l)
      case Failed => Err(OtherError)
      case Found(labels) => Compared(ds[|ds| - 1], labels)
  }

  predicate AllMissing(ds: seq<Resource>, l: Lister) {
    forall d :: d in ds ==> Ask(l, d.id.name).Missing?
  }

  predicate NameIn(ds: seq<Resource>, name: string) {
    exists d :: d in ds && d.id.name == name
  }

  function Count(ds: seq<Resource>, name: string): nat {
    if ds == [] then 0 else (if ds[|ds| - 1].id.name == name then 1 else 0) + Count(ds[..|ds| - 1], name)
  }

  /** The first name in the list that does not occur again later in the list. */
  function FirstDone(ds: seq<Resource>): string
    requires ds != []
  {
    if NameIn(ds[1..], ds[0].id.name) then FirstDone(ds[1..]) else ds[0].id.name
  }

  /** Removing a missing name does not change what the scan from the end finds. */
  lemma {:induction false} LastPresentWithout(ds: seq<Resource>, name: string, l: Lister)
    requires Ask(l, name).Missing?
    ensures LastPresent(Without(ds, name), l) == LastPresent(ds, l)
  {
    if ds != [] {
      var init, last := ds[..|ds| - 1], ds[|ds| - 1];
      LastPresentWithout(init, name, l);
      if last.id.kind == DEPLOYMENT && last.id.name == name {
        assert Without(ds, name) == Without(init, name);
      } else {
        assert (Without(init, name) + [last])[..|Without(init, name)|] == Without(init, name);
      }
    }
  }

  lemma {:induction false} WithoutKeeps(ds: seq<Resource>, name: string)
    requires forall d :: d in ds ==> d.id.kind == DEPLOYMENT
    ensures forall d :: d in Without(ds, name) <==> d in ds && d.id.name != name
    ensures forall n :: n != name ==> Count(Without(ds, name), n) == Count(ds, n)
  {
    if ds != [] {
      var init, last := ds[..|ds| - 1], ds[|ds| - 1];
      assert ds == init + [last] && last in ds;
      WithoutKeeps(init, name);
      if last.id.name == name {
        assert Without(ds, name) == Without(init, name);
      } else {
        assert (Without(init, name) + [last])[..|Without(init, name)|] == Without(init, name);
      }
    }
  }

  lemma {:induction false} WithoutCons(d: Resource, ds: seq<Resource>, name: string)
    ensures Without([d] + ds, name) ==
            (if d.id.kind == DEPLOYMENT && d.id.name == name then [] else [d]) + Without(ds, name)
  {
    if ds == [] {
      assert [d] + ds == [d];
      assert [d][..0] == [];
    } else {
      var init, last := ds[..|ds| - 1], ds[|ds| - 1];
      assert [d] + ds == ([d] + init) + [last];
      WithoutSnoc([d] + init, last, name);
      WithoutCons(d, init, name);
    }
  }

  /** Removing the name of the last Deployment does not change which name is done first, unless nothing is left. */
  lemma {:induction false} FirstDoneWithout(ds: seq<Resource>, name: string)
    requires ds != [] && ds[|ds| - 1].id.name == name && Without(ds, name) != []
    requires forall d :: d in ds ==> d.id.kind == DEPLOYMENT
    ensures FirstDone(ds) == FirstDone(Without(ds, name)) && FirstDone(ds) != name
  {
    var d, tail := ds[0], ds[1..];
    assert ds == [d] + tail && d in ds;
    assert forall x :: x in tail ==> x in ds;
    WithoutCons(d, tail, name);
    WithoutKeeps(tail, name);
    if d.id.name == name {
      assert Without(ds, name) == Without(tail, name);
      assert tail[|tail| - 1] in tail;
      FirstDoneWithout(tail, name);
    } else {
      assert |ds| > 1;
      assert Without(ds, name)[1..] == Without(tail, name);
      assert NameIn(tail, d.id.name) <==> NameIn(Without(tail, name), d.id.name);
      if NameIn(tail, d.id.name) {
        FirstDoneWithout(tail, name);
      }
    }
  }

  lemma {:induction false} AllOneName(ds: seq<Resource>, name: string)
    requires ds != [] && forall d :: d in ds ==> d.id.name == name
    ensures FirstDone(ds) == name && Count(ds, name) == |ds|
  {
    assert ds[0] in ds && ds[|ds| - 1] in ds;
    if |ds| > 1 {
      assert ds[1..][0] in ds && NameIn(ds[1..], name);
      AllOneName(ds[1..], name);
      AllOneName(ds[..|ds| - 1], name);
    } else {
      assert ds[..0] == [];
    }
  }

  lemma {:induction false} AllMissingNotFound(ds: seq<Resource>, l: Lister)
    requires AllMissing(ds, l)
    ensures LastPresent(ds, l) == Err(NotFound)
  {
    if ds != [] {
      assert ds[|ds| - 1] in ds;
      AllMissingNotFound(ds[..|ds| - 1], l);
    }
  }

  /** When no Deployment is in the cluster, NotFound is reported only if this name occurs once. */
  predicate EndsWithOne(ds: seq<Resource>) {
    ds != [] && Count(ds, FirstDone(ds)) == 1
  }

  /**
   * getVersions returns what the last Deployment of the list that is in the cluster says. The
   * exception are duplicate names: when nothing is in the cluster and the name left over at
   * the end occurs more than once, the error is not a NotFound.
   */
  lemma {:induction false} GetVersionsRefines(ms: seq<Resource>, l: Lister)
    ensures var ds := Deployments(ms);
            GetVersions(ms, l) ==
            if ds != [] && (!AllMissing(ds, l) || EndsWithOne(ds)) then LastPresent(ds, l) else Err(OtherError)
    decreases |Deployments(ms)|
  {
    var ds := Deployments(ms);
    if ds != [] {
      OnlyDeployments(ms);
      var last := ds[|ds| - 1];
      assert last in ds;
      if Ask(l, last.id.name).Missing? {
        if |ds| == 1 {
          AllOneName(ds, last.id.name);
        } else {
          GetVersionsStep(ms, ds, last, l);
        }
      }
    }
  }

  lemma GetVersionsStep(ms: seq<Resource>, ds: seq<Resource>, last: Resource, l: Lister)
    requires ds == Deployments(ms) && |ds| > 1 && last == ds[|ds| - 1] && Ask(l, last.id.name).Missing?
    requires forall d :: d in ds ==> d.id.kind == DEPLOYMENT
    ensures GetVersions(ms, l) == if !AllMissing(ds, l) || EndsWithOne(ds) then LastPresent(ds, l) else Err(OtherError)
    decreases |Deployments(ms)|, 0
  {
    var name := last.id.name;
    var rest := Without(ds, name);
    WithoutShrinks(ms, last);
    DeploymentsWithout(ms, name);
    WithoutKeeps(ds, name);
    LastPresentWithout(ds, name, l);
    GetVersionsRefines(Without(ms, name), l);
    if rest == [] {
      forall d | d in ds ensures d.id.name == name { assert d !in rest; }
      AllOneName(ds, name);
    } else {
      FirstDoneWithout(ds, name);
    }
  }

  /**
   * NotFound is reported exactly when there are Deployments, none of them is in the cluster, and no
   * duplicates get in the way.
   */
  lemma NotFoundExactly(ms: seq<Resource>, l: Lister)
    ensures GetVersions(ms, l) == Err(NotFound) <==> AllMissing(Deployments(ms), l) && EndsWithOne(Deployments(ms))
  {
    GetVersionsRefines(ms, l);
    var ds := Deployments(ms);
    if AllMissing(ds, l) { AllMissingNotFound(ds, l); } else { SomePresent(ds, l); }
  }

  lemma {:induction false} SomePresent(ds: seq<Resource>, l: Lister)
    requires !AllMissing(ds, l)
    ensures LastPresent(ds, l) != Err(NotFound)
  {
    var init, last := ds[..|ds| - 1], ds[|ds| - 1];
    assert ds == init + [last];
    if Ask(l, last.id.name).Missing? {
      SomePresent(init, l);
    }
  }

  ghost predicate DistinctNames(ds: seq<Resource>) {
    forall i, j :: 0 <= i < j < |ds| ==> ds[i].id.name != ds[j].id.name
  }

  /** With distinct names the exception does not arise. */
  lemma DistinctEndsWithOne(ds: seq<Resource>)
    requires ds != [] && DistinctNames(ds)
    ensures EndsWithOne(ds)
  {
    assert FirstDone(ds) == ds[0].id.name;
    DistinctCount(ds);
  }

  lemma {:induction false} DistinctCount(ds: seq<Resource>)
    requires ds != [] && DistinctNames(ds)
    ensures Count(ds, ds[0].id.name) == 1
  {
    if |ds| > 1 {
      DistinctCount(ds[..|ds| - 1]);
    } else {
      assert ds[..0] == [];
    }
  }

  // ----- isUpgrade -----

  function ZeroPatch(v: Version): Version {
    v.(patch := 0)
  }

  /** isUpgrade; an error other than NotFound is passed on. */
  function IsUpgrade(ms: seq<Resource>, l: Lister): Result<bool, VersionError> {
    var r := GetVersions(ms, l);
    if r == Err(NotFound) then Ok(false)
    else if r.Err? then Err(OtherError)
    else Ok(LessThan(ZeroPatch(r.value.instance), ZeroPatch(r.value.manifest)))
  }

  /** A pre-release is below its release; two pre-releases compare by their identifiers, as the library ranks them. */
  predicate PreBelow(a: string, b: string) {
    a != b && a != "" && (b == "" || ComparePreReleases(Split(a), Split(b)) < 0)
  }

  /**
   * Version `v` is below `w` by major and minor number and, where these agree, by pre-release. The
   * patch does not count.
   */
  predicate MinorBelow(v: Version, w: Version) {
    || v.major < w.major
    || (v.major == w.major && v.minor < w.minor)
    || (v.major == w.major && v.minor == w.minor && PreBelow(v.preRelease, w.preRelease))
  }

  /** The decision, from the numbers of the two versions. */
  lemma IsUpgradeByNumbers(ms: seq<Resource>, l: Lister, v: Version, w: Version)
    requires GetVersions(ms, l) == Ok(Versions(w, v))
    ensures IsUpgrade(ms, l) == Ok(MinorBelow(v, w))
    ensures v.preRelease == w.preRelease ==>
              IsUpgrade(ms, l) == Ok(v.major < w.major || (v.major == w.major && v.minor < w.minor))
  {
    SamePreRelease(v.preRelease);
  }

  lemma SamePreRelease(p: string)
    ensures ComparePreReleases(Split(p), Split(p)) == 0
  {
    PreReleasesOrder(Split(p), Split(p), []);
  }

  /** The label of a Deployment is not a version. */
  predicate Unreadable(labels: map<string, string>) {
    "app.kubernetes.io/version" !in labels || Parse(labels["app.kubernetes.io/version"]).None?
  }

  /** The search from the end stops at this Deployment. */
  ghost predicate StopsAt(ds: seq<Resource>, l: Lister, i: nat) {
    && i < |ds| && !Ask(l, ds[i].id.name).Missing?
    && forall m :: i < m < |ds| ==> Ask(l, ds[m].id.name).Missing?
  }

  lemma {:induction false} StoppedAt(ds: seq<Resource>, l: Lister, i: nat)
    requires StopsAt(ds, l, i)
    ensures LastPresent(ds, l) ==
            var answer := Ask(l, ds[i].id.name);
            if answer.Failed? then Err(OtherError) else Compared(ds[i], answer.labels)
    decreases |ds|
  {
    if i < |ds| - 1 {
      var init := ds[..|ds| - 1];
      assert forall m :: 0 <= m < |init| ==> init[m] == ds[m];
      StoppedAt(init, l, i);
    }
  }

  /**
   * When the decision fails, for distinct names: without any Deployment in the list, or if at the
   * last one that is not missing the lookup fails or one of its two labels is not a version.
   * None of them being in the cluster is no error but the answer no.
   */
  lemma DecisionFails(ms: seq<Resource>, l: Lister)
    requires DistinctNames(Deployments(ms))
    ensures Deployments(ms) == [] ==> IsUpgrade(ms, l).Err?
    ensures Deployments(ms) != [] && AllMissing(Deployments(ms), l) ==> IsUpgrade(ms, l) == Ok(false)
    ensures forall i: nat :: StopsAt(Deployments(ms), l, i) ==>
              var d := Deployments(ms)[i];
              var answer := Ask(l, d.id.name);
              IsUpgrade(ms, l).Err? <==> answer.Failed? || Unreadable(answer.labels) || Unreadable(d.labels)
  {
    var ds := Deployments(ms);
    GetVersionsRefines(ms, l);
    if ds != [] {
      DistinctEndsWithOne(ds);
      if AllMissing(ds, l) { AllMissingNotFound(ds, l); }
    }
    forall i: nat | StopsAt(ds, l, i)
      ensures var answer := Ask(l, ds[i].id.name);
              IsUpgrade(ms, l).Err? <==> answer.Failed? || Unreadable(answer.labels) || Unreadable(ds[i].labels)
    {
      StoppedAt(ds, l, i);
      assert ds[i] in ds;
    }
  }

  lemma {:induction false} LastPresentIs(ds: seq<Resource>, l: Lister, i: nat)
    requires i < |ds| && Ask(l, ds[i].id.name).Found? && forall m :: i < m < |ds| ==> Ask(l, ds[m].id.name).Missing?
    ensures LastPresent(ds, l) == Compared(ds[i], Ask(l, ds[i].id.name).labels)
    decreases |ds|
  {
    if i < |ds| - 1 {
      var init := ds[..|ds| - 1];
      assert forall m :: 0 <= m < |init| ==> init[m] == ds[m];
      LastPresentIs(init, l, i);
    }
  }

  /**
   * The versions that are compared: those of the last Deployment of the list that is in the
   * cluster, the manifest's label against the label it has there.
   */
  lemma ComparesLastPresent(ds: seq<Resource>, l: Lister, i: nat, v: Version, w: Version)
    requires i < |ds| && Ask(l, ds[i].id.name).Found? && forall m :: i < m < |ds| ==> Ask(l, ds[m].id.name).Missing?
    requires "app.kubernetes.io/version" in ds[i].labels && Parse(ds[i].labels["app.kubernetes.io/version"]) == Some(w)
    requires var labels := Ask(l, ds[i].id.name).labels;
             "app.kubernetes.io/version" in labels && Parse(labels["app.kubernetes.io/version"]) == Some(v)
    ensures LastPresent(ds, l) == Ok(Versions(w, v))
  {
    LastPresentIs(ds, l, i);
  }
}
