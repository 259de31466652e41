/** A whole reconcile run (pkg/reconciler/eventmesh/eventmesh.go): prechecks, then the stages up to the first error. */
module Reconciler {
  import opened Prelude
  import opened Hpa
  import opened Resources
  import opened Manifests
  import opened Scaling
  import opened Cluster
  import opened Upgrade
  import Ownership
  import Status

  /** Everything a run takes from its surroundings. */
  datatype Inputs = Inputs(
    em: string,
    listerFails: bool,          // the lookup of eventing-controller in the prechecks fails
    encryption: Option<bool>,   // whether transport encryption is on, None if the feature flags are unreadable
    certManager: Option<bool>,  // whether the CRD of cert-manager is installed, None if the lookup fails
    eventing: Result<Contents, VersionError>,  // what the two parsers return
    kafka: Result<Contents, VersionError>,
    parsed: Parsed,
    imc: Option<Int64>,         // scale targets, None if a lister fails
    mt: Option<Int64>,
    stopAt: Option<nat>)        // the write at which the API server returns an error
  {
    /** The transformers of both parsers are the ConfigMap edits and the workload overrides. */
    ghost predicate Valid() {
      && parsed.Valid()
      && (eventing.Ok? && kafka.Ok? ==> eventing.value.transformers + kafka.value.transformers == parsed.Transformers())
    }
  }

  type Sorter = seq<Resource> -> seq<Resource>

  /** Sorting by kind priority: all that matters here is that nothing is lost or added. */
  ghost predicate Sorts(sort: Sorter) {
    forall rs :: Permutation(sort(rs), rs)
  }

  // ----- What a run comes to, as a function of its inputs -----

  /** No foreign installation, and cert-manager if transport encryption needs it. */
  predicate PrechecksPass(c: Cluster, ns: string, i: Inputs) {
    && !i.listerFails && !Ownership.HasForeign(c, ns, i.em)
    && i.encryption.Some? && (i.encryption.value ==> i.certManager == Some(true))
  }

  predicate PrechecksErr(c: Cluster, ns: string, i: Inputs) {
    || i.listerFails
    || (!Ownership.HasForeign(c, ns, i.em) && (i.encryption.None? || (i.encryption.value && i.certManager.None?)))
  }

  /** The loaded manifests after scaling, owner injection and transformers, or None if one of these stages fails. */
  function Built(m: Contents, ns: string, i: Inputs): Option<Lists> {
    if i.imc.None? || i.mt.None? then None
    else
      var p := Prepared(m, i.parsed, ns, i.imc.value, i.mt.value, i.em);
      var apply, delete := Transform(p.transformers, p.toApply), Transform(p.transformers, p.toDelete);
      var post := Transform(p.transformers, p.postInstall);
      if apply.Ok? && delete.Ok? && post.Ok? then Some(Lists(delete.value, apply.value, post.value)) else None
  }

  function Unsorted(ns: string, i: Inputs): Option<Lists> {
    var m := AppendedResults(i.eventing, i.kafka);
    if m.Err? then None else Built(m.value, ns, i)
  }

  /** The lists that reach the install stage. */
  function Planned(ns: string, i: Inputs, sort: Sorter): Option<Lists> {
    var l := Unsorted(ns, i);
    if l.None? then None else Some(Lists(sort(l.value.delete), sort(l.value.apply), sort(l.value.post)))
  }

  predicate Completes(i: Inputs, l: Lists) {
    i.stopAt.None? || |Writes(l)| <= i.stopAt.value
  }

  function AnswersFor(ds: seq<Resource>, lookup: Id -> Status.Answer): seq<Status.Answer> {
    if ds == [] then [] else AnswersFor(ds[..|ds| - 1], lookup) + [lookup(ds[|ds| - 1].id)]
  }

  /** How far the run gets. */
  function Outcome(c: Cluster, ns: string, i: Inputs, sort: Sorter, lookup: Id -> Status.Answer): Status.Progress {
    if PrechecksErr(c, ns, i) then Status.PrecheckError
    else if !PrechecksPass(c, ns, i) then Status.PrecheckFailed
    else
      var l := Planned(ns, i, sort);
      if l.None? || !Completes(i, l.value) then Status.StageFailed
      else Status.Reached(AnswersFor(Deployments(l.value.apply), lookup))
  }

  /** The part of the install stage that the run carries out. */
  function AttemptOf(c: Cluster, ns: string, i: Inputs, sort: Sorter): Attempt {
    var l := Planned(ns, i, sort);
    if !PrechecksPass(c, ns, i) || l.None? then Attempt(Lists([], [], []), 0)
    else Attempt(l.value, if Completes(i, l.value) then |Writes(l.value)| else i.stopAt.value)
  }

  // ----- The run -----

  class Reconciler {
    var cluster: Cluster
    const ns: string

    constructor (c: Cluster, ns: string)
      ensures cluster == c && this.ns == ns
    {
      cluster := c;
      this.ns := ns;
    }

    /** runPrechecks: None for an error. A failed check marks the status itself. */
    method RunPrechecks(i: Inputs, status: Status.EventMeshStatus) returns (ok: Option<bool>)
      modifies status
      ensures i.listerFails ==> ok.None?
      ensures !i.listerFails && Ownership.HasForeign(cluster, ns, i.em) ==> ok == Some(false)
      ensures !i.listerFails && !Ownership.HasForeign(cluster, ns, i.em) ==>
                ok == if i.encryption == Some(false) then Some(true)
                      else if i.encryption == Some(true) then i.certManager
                      else None
      ensures ok.None? <==> PrechecksErr(cluster, ns, i)
      ensures ok == Some(true) <==> PrechecksPass(cluster, ns, i)
      ensures status.conditions ==
              if ok == Some(false) then Status.MarkFalse(old(status.conditions), Status.INSTALL_SUCCEEDED)
              else old(status.conditions)
    {
      if i.listerFails {
        return None;
      }
      var foreign := Ownership.HasForeignEventingInstalled(cluster, ns, i.em);
      if foreign {
        status.MarkInstallFailed();
        return Some(false);
      }
      if i.encryption.None? {
        return None;
      }
      if i.encryption.value {
        if i.certManager.None? {
          return None;
        }
        if !i.certManager.value {
          status.MarkInstallFailed();
          return Some(false);
        }
      }
      ok := Some(true);
    }

    /** The stages that load the manifests of both parsers. */
    method LoadManifests(i: Inputs, acc: Accumulator) returns (ok: bool)
      requires acc.View() == Contents([], [], [], [])
      modifies acc
      ensures ok <==> AppendedResults(i.eventing, i.kafka).Ok?
      ensures ok ==> AppendedResults(i.eventing, i.kafka) == Ok(acc.View())
    {
      if i.eventing.Err? {
        return false;
      }
      acc.Append(Some(i.eventing.value));
      assert acc.View() == i.eventing.value;
      if i.kafka.Err? {
        return false;
      }
      acc.Append(Some(i.kafka.value));
      ok := true;
    }

    /** The scaling, owner and transform stages on what was loaded. */
    method TransformManifests(i: Inputs, acc: Accumulator) returns (ok: bool)
      requires acc.transformers == i.parsed.Transformers()
      modifies acc
      ensures ok <==> Built(old(acc.View()), ns, i).Some?
      ensures ok ==> Built(old(acc.View()), ns, i) == Some(Lists(acc.toDelete, acc.toApply, acc.postInstall))
    {
      ghost var m := acc.View();
      if i.imc.None? || i.mt.None? {
        return false;
      }
      assert m == m.(transformers := i.parsed.Transformers());
      acc.ApplyScalingStage(i.parsed.os, ns, i.imc.value, i.mt.value);
      acc.AddTransformer(InjectOwner(i.em));
      assert acc.View() == Prepared(m, i.parsed, ns, i.imc.value, i.mt.value, i.em);
      var err := acc.TransformStage();
      ok := err.None?;
    }

    /** Delete, apply and post-install calls up to the one that fails. */
    method Perform(ws: seq<Write>, stopAt: Option<nat>) returns (ok: bool)
      modifies this
      ensures ok <==> stopAt.None? || |ws| <= stopAt.value
      ensures cluster == DoAll(old(cluster), if ok then ws else ws[..stopAt.value])
    {
      for n := 0 to |ws|
        invariant cluster == DoAll(old(cluster), ws[..n])
        invariant stopAt.None? || n <= stopAt.value
      {
        if stopAt == Some(n) {
          return false;
        }
        assert ws[..n + 1][..n] == ws[..n];
        cluster := Do(cluster, ws[n]);
      }
      assert ws[..|ws|] == ws;
      ok := true;
    }

    /** Sort and Install. */
    method Install(acc: Accumulator, sort: Sorter, stopAt: Option<nat>) returns (ok: bool)
      modifies this, acc
      ensures acc.toDelete == sort(old(acc.toDelete)) && acc.toApply == sort(old(acc.toApply))
      ensures acc.postInstall == sort(old(acc.postInstall))
      ensures var l := Lists(acc.toDelete, acc.toApply, acc.postInstall);
              && (ok <==> stopAt.None? || |Writes(l)| <= stopAt.value)
              && cluster == DoAll(old(cluster), Performed(Attempt(l, if ok then |Writes(l)| else stopAt.value)))
    {
      acc.toApply, acc.toDelete, acc.postInstall := sort(acc.toApply), sort(acc.toDelete), sort(acc.postInstall);
      ok := Perform(Writes(Lists(acc.toDelete, acc.toApply, acc.postInstall)), stopAt);
    }

    /** All stages before Install. */
    method BuildManifests(i: Inputs, acc: Accumulator) returns (ok: bool)
      requires i.Valid() && acc.View() == Contents([], [], [], [])
      modifies acc
      ensures ok <==> Unsorted(ns, i).Some?
      ensures ok ==> Unsorted(ns, i) == Some(Lists(acc.toDelete, acc.toApply, acc.postInstall))
    {
      ok := LoadManifests(i, acc);
      if ok {
        ok := TransformManifests(i, acc);
      }
    }

    /** The stages up to and including Install; `acc` then holds the lists that were installed. */
    method RunStages(i: Inputs, acc: Accumulator, sort: Sorter) returns (ok: bool)
      requires i.Valid() && acc.View() == Contents([], [], [], []) && PrechecksPass(cluster, ns, i)
      modifies this, acc
      ensures cluster == DoAll(old(cluster), Performed(AttemptOf(old(cluster), ns, i, sort)))
      ensures ok <==> Planned(ns, i, sort).Some? && Completes(i, Planned(ns, i, sort).value)
      ensures ok ==> acc.toApply == Planned(ns, i, sort).value.apply
    {
      assert Performed(Attempt(Lists([], [], []), 0)) == [];
      ok := BuildManifests(i, acc);
      if !ok {
        return;
      }
      ok := Install(acc, sort, i.stopAt);
    }

    /** checkDeployments and, unless it returns an error, the mark that the install succeeded. */
    method Conclude(applied: seq<Resource>, status: Status.EventMeshStatus, lookup: Id -> Status.Answer)
    returns (err: bool)
      modifies status
      ensures var answers := AnswersFor(Deployments(applied), lookup);
              && status.conditions == Status.AfterRun(old(status.conditions), Status.Reached(answers))
              && (err <==> Status.LookupFails(answers))
    {
      var check := status.CheckDeployments(AnswersFor(Deployments(applied), lookup));
      err := check.StoppedOnError?;
      if !err {
        status.MarkInstallSucceeded();
      }
    }

    /**
     * ReconcileKind: the writes, the status and the returned error of a run are determined by its
     * inputs. It gets to checkDeployments exactly if the prechecks pass, both parsers and both
     * scale targets are available, all three lists transform, and no write fails.
     */
    method ReconcileKind(i: Inputs, status: Status.EventMeshStatus, sort: Sorter, lookup: Id -> Status.Answer)
      returns (err: bool)
      requires i.Valid()
      modifies this, status
      ensures cluster == DoAll(old(cluster), Performed(AttemptOf(old(cluster), ns, i, sort)))
      ensures status.conditions == Status.AfterRun(old(status.conditions), Outcome(old(cluster), ns, i, sort, lookup))
      ensures var progress := Outcome(old(cluster), ns, i, sort, lookup);
              err <==> progress.PrecheckError? || progress.StageFailed?
                       || (progress.Reached? && Status.LookupFails(progress.answers))
    {
      var precheck := RunPrechecks(i, status);
      if precheck.None? || !precheck.value {
        assert Performed(Attempt(Lists([], [], []), 0)) == [];
        return precheck.None?;
      }
      var acc := new Accumulator();
      var installed := RunStages(i, acc, sort);
      if !installed {
        return true;
      }
      err := Conclude(acc.toApply, status, lookup);
    }
  }
}
