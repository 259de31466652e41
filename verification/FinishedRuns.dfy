/** What a reconcile run leaves in the cluster and in the status, from the manifests it loaded. */
module FinishedRuns {
  import opened Prelude
  import opened Hpa
  import opened Resources
  import opened WorkloadOverride
  import opened Manifests
  import opened Scaling
  import opened Cluster
  import opened Upgrade
  import opened Reconciler
  import Ownership
  import Status

  // ----- The lists of a run -----

  /** The lists of a run are the loaded manifests, prepared, transformed and sorted. */
  lemma PlannedInstallable(ns: string, i: Inputs, sort: Sorter)
    requires Sorts(sort) && Planned(ns, i, sort).Some?
    ensures i.imc.Some? && i.mt.Some? && AppendedResults(i.eventing, i.kafka).Ok?
    ensures Ownership.Installable(AppendedResults(i.eventing, i.kafka).value, i.parsed, ns, i.imc.value, i.mt.value,
                                  i.em, Planned(ns, i, sort).value)
  {
  }

  /** Every run is a run of the ownership model, */
  lemma RunIsOwnershipRun(c: Cluster, ns: string, i: Inputs, sort: Sorter)
    ensures DoAll(c, Performed(AttemptOf(c, ns, i, sort))) ==
            Ownership.Reconcile(c, ns, Ownership.Run(i.em, AttemptOf(c, ns, i, sort)))
  {
    assert Performed(Attempt(Lists([], [], []), 0)) == [];
  }

  /**
   * and applies nothing without its owner reference, as long as no parser schedules
   * eventing-controller for deletion.
   */
  lemma RunIsOwned(c: Cluster, ns: string, i: Inputs, sort: Sorter)
    requires Sorts(sort)
    requires AppendedResults(i.eventing, i.kafka).Ok? ==>
               Lookup(AppendedResults(i.eventing, i.kafka).value.toDelete, Ownership.ControllerId(ns)).None?
    ensures Ownership.OwnedLists(AttemptOf(c, ns, i, sort).lists, ns, i.em)
  {
    if PrechecksPass(c, ns, i) && Planned(ns, i, sort).Some? {
      PlannedInstallable(ns, i, sort);
      Ownership.PipelineOwns(AppendedResults(i.eventing, i.kafka).value, i.parsed, ns, i.imc.value, i.mt.value,
                             i.em, Planned(ns, i, sort).value);
    }
  }

  // ----- From the lists to the cluster -----

  /** All entries for this identity are equal; in particular if there is at most one. */
  ghost predicate Consistent(rs: seq<Resource>, id: Id) {
    forall x, y :: x in rs && y in rs && x.id == id && y.id == id ==> x == y
  }

  lemma SortedLookup(rs: seq<Resource>, sorted: seq<Resource>, id: Id)
    requires Permutation(sorted, rs) && Consistent(rs, id)
    ensures Lookup(sorted, id) == Lookup(rs, id)
  {
    PermutationMembers(sorted, rs);
    LookupFinds(sorted, id);
    LookupFinds(rs, id);
  }

  lemma TransformedConsistent(ts: seq<Transformer>, rs: seq<Resource>, id: Id)
    requires Transform(ts, rs).Ok? && Consistent(rs, id)
    ensures Consistent(Transform(ts, rs).value, id)
  {
    TransformPointwise(ts, rs);
    var out := Transform(ts, rs).value;
    forall x, y | x in out && y in out && x.id == id && y.id == id ensures x == y {
      var m :| 0 <= m < |out| && out[m] == x;
      var n :| 0 <= n < |out| && out[n] == y;
      assert rs[m] in rs && rs[n] in rs && rs[m].id == id && rs[n].id == id;
      assert RunAll(ts, rs[m]) == RunAll(ts, rs[n]);
    }
  }

  lemma PreparedConsistent(m: Contents, p: Parsed, ns: string, imc: Int64, mt: Int64, em: string, id: Id)
    requires Consistent(m.toApply, id)
    ensures Consistent(Prepared(m, p, ns, imc, mt, em).toApply, id)
  {
    var m0 := ScaleChannels(m.(transformers := p.Transformers()), p.os, ns, imc);
    var m1 := AddHpa(m0, p.os, ns, "broker-filter-hpa", "mt-broker-filter", mt);
    FilterHpaSubset(m0.toApply, "broker-filter-hpa");
    FilterHpaSubset(m1.toApply, "broker-ingress-hpa");
  }

  /** A run that gets to the end of its install stage, on manifests that are consistent about this identity. */
  ghost predicate Finished(c: Cluster, ns: string, i: Inputs, sort: Sorter, m: Contents, f: Final) {
    && Sorts(sort) && i.Valid() && PrechecksPass(c, ns, i)
    && AppendedResults(i.eventing, i.kafka) == Ok(m)
    && Planned(ns, i, sort).Some? && Completes(i, Planned(ns, i, sort).value)
    && i.imc.Some? && i.mt.Some?
    && Transformed(m, i.parsed, ns, i.imc.value, i.mt.value, i.em, f)
  }

  function ClusterAfter(c: Cluster, ns: string, i: Inputs, sort: Sorter): Cluster {
    DoAll(c, Performed(AttemptOf(c, ns, i, sort)))
  }

  lemma FinishedWrites(c: Cluster, ns: string, i: Inputs, sort: Sorter, m: Contents, f: Final)
    requires Finished(c, ns, i, sort, m, f)
    ensures ClusterAfter(c, ns, i, sort) == DoAll(c, Writes(Planned(ns, i, sort).value))
    ensures Permutation(Planned(ns, i, sort).value.apply, f.applied)
    ensures Permutation(Planned(ns, i, sort).value.delete, f.deleted)
  {
  }

  lemma FinishedPost(c: Cluster, ns: string, i: Inputs, sort: Sorter, m: Contents, f: Final, id: Id)
    requires Finished(c, ns, i, sort, m, f) && Lookup(m.postInstall, id).None?
    ensures Lookup(Planned(ns, i, sort).value.post, id).None?
  {
    PlannedInstallable(ns, i, sort);
    var p := Prepared(m, i.parsed, ns, i.imc.value, i.mt.value, i.em);
    PreparedConserves(m, i.parsed, ns, i.imc.value, i.mt.value, i.em);
    Ownership.NamesKept(p.transformers, p.postInstall, Planned(ns, i, sort).value.post, id);
    LookupFinds(Planned(ns, i, sort).value.post, id);
  }

  /**
   * What a finished run leaves under an identity: the transformed manifest if it is to apply,
   * and nothing if it is only to delete.
   */
  lemma ClusterHolds(c: Cluster, ns: string, i: Inputs, sort: Sorter, m: Contents, f: Final, id: Id)
    requires Finished(c, ns, i, sort, m, f) && id.name != "" && Consistent(m.toApply, id)
    requires Lookup(m.postInstall, id).None?
    ensures var after := ClusterAfter(c, ns, i, sort).objects;
            && (Lookup(f.applied, id).Some? ==> id in after && after[id].resource == Lookup(f.applied, id).value)
            && (Lookup(f.applied, id).None? && Lookup(f.deleted, id).Some? && Deletable(c, id) ==> id !in after)
  {
    var l := Planned(ns, i, sort).value;
    var p := Prepared(m, i.parsed, ns, i.imc.value, i.mt.value, i.em);
    FinishedWrites(c, ns, i, sort, m, f);
    FinishedPost(c, ns, i, sort, m, f, id);
    PreparedConsistent(m, i.parsed, ns, i.imc.value, i.mt.value, i.em, id);
    TransformedConsistent(p.transformers, p.toApply, id);
    SortedLookup(f.applied, l.apply, id);
    DeletedNamed(f.deleted, l.delete, id);
    assert DoAttempts(c, []) == c;
    Converges(c, [], l, id);
  }

  lemma DeletedNamed(rs: seq<Resource>, sorted: seq<Resource>, id: Id)
    requires Permutation(sorted, rs)
    ensures Lookup(rs, id).Some? ==> Names(sorted, id)
  {
    PermutationMembers(sorted, rs);
    LookupFinds(rs, id);
  }

  /**
   * A Namespace to apply is in the cluster after a finished run exactly as its manifest has it,
   * without an injected owner.
   */
  lemma NamespaceInCluster(c: Cluster, ns: string, i: Inputs, sort: Sorter, m: Contents, f: Final, id: Id)
    requires Finished(c, ns, i, sort, m, f) && id.kind == "Namespace" && id.name != ""
    requires Lookup(m.toApply, id).Some? && Consistent(m.toApply, id) && Lookup(m.postInstall, id).None?
    ensures var after := ClusterAfter(c, ns, i, sort).objects;
            id in after && after[id].resource == Lookup(m.toApply, id).value
  {
    var p := Prepared(m, i.parsed, ns, i.imc.value, i.mt.value, i.em);
    PreparedLists(m, i.parsed, ns, i.imc.value, i.mt.value, i.em, id);
    TransformLookup(p.transformers, p.toApply, id);
    LookupFinds(m.toApply, id);
    Ownership.NamespaceUntouched(p.transformers, Lookup(m.toApply, id).value);
    ClusterHolds(c, ns, i, sort, m, f, id);
  }

  /** The replicas in the cluster of the Deployments without an autoscaler. */
  lemma DirectReplicasInCluster(c: Cluster, ns: string, i: Inputs, sort: Sorter, m: Contents, f: Final, name: string)
    requires Finished(c, ns, i, sort, m, f) && ScaledDirectly(name)
    requires var id := DeploymentId(ns, name);
             Lookup(m.toApply, id).Some? && Consistent(m.toApply, id) && Lookup(m.postInstall, id).None?
    ensures var id, after := DeploymentId(ns, name), ClusterAfter(c, ns, i, sort).objects;
            && id in after
            && after[id].resource.replicas ==
               if LastReplicas(i.parsed.os, name).Some? then LastReplicas(i.parsed.os, name)
               else Some(if name == "mt-broker-controller" then i.mt.value else i.imc.value)
  {
    DirectReplicas(m, i.parsed, ns, i.imc.value, i.mt.value, i.em, name);
    ClusterHolds(c, ns, i, sort, m, f, DeploymentId(ns, name));
  }

  /** Exactly one of autoscaler and Deployment decides the number of replicas in this cluster. */
  ghost predicate OneControllerIn(objects: map<Id, Object>, os: seq<Override>, target: Int64, hpaId: Id, d: Resource) {
    && d.id in objects
    && if LastReplicas(os, d.id.name).Some? then
         && hpaId in objects && objects[d.id].resource.replicas == d.replicas
         && LastHpaReplicas(os, hpaId.name).Some?
         && objects[hpaId].resource.bounds.min == Number(LastHpaReplicas(os, hpaId.name).value)
       else if target == 0 then
         hpaId !in objects && objects[d.id].resource.replicas == Some(0)
       else
         && hpaId in objects && objects[d.id].resource.replicas == d.replicas
         && objects[hpaId].resource.bounds.min == Number(target)
  }

  /** After a finished run mt-broker-filter and its autoscaler have one replica controller in the cluster. */
  lemma FilterPairInCluster(c: Cluster, ns: string, i: Inputs, sort: Sorter, m: Contents, f: Final, h: Resource,
                            d: Resource)
    requires Finished(c, ns, i, sort, m, f)
    requires h.id.kind == HPA && h.id.namespace == ns && h.id.name == "broker-filter-hpa"
    requires Lookup(m.toApply, h.id) == Some(h) && Lookup(m.toDelete, h.id) == None
    requires d.id == DeploymentId(ns, "mt-broker-filter") && Lookup(m.toApply, d.id) == Some(d)
    requires Consistent(m.toApply, h.id) && Consistent(m.toApply, d.id)
    requires Lookup(m.postInstall, h.id).None? && Lookup(m.postInstall, d.id).None? && Deletable(c, h.id)
    ensures OneControllerIn(ClusterAfter(c, ns, i, sort).objects, i.parsed.os, i.mt.value, h.id, d)
  {
    FilterPair(m, i.parsed, ns, i.imc.value, i.mt.value, i.em, f, h, d);
    ClusterHolds(c, ns, i, sort, m, f, h.id);
    ClusterHolds(c, ns, i, sort, m, f, d.id);
  }

  // ----- The same run again -----

  lemma StillOurs(c: Cluster, ns: string, i: Inputs, sort: Sorter, m: Contents, f: Final)
    requires Finished(c, ns, i, sort, m, f) && Lookup(m.toDelete, Ownership.ControllerId(ns)).None?
    ensures PrechecksPass(ClusterAfter(c, ns, i, sort), ns, i)
  {
    var id, a := Ownership.ControllerId(ns), AttemptOf(c, ns, i, sort);
    RunIsOwned(c, ns, i, sort);
    RunIsOwnershipRun(c, ns, i, sort);
    if WritesId(Performed(a), id) {
      Ownership.ApplyingOwns(c, ns, Ownership.Run(i.em, a));
    } else {
      Unwritten(c, Performed(a), id);
    }
  }

  /**
   * A finished run is a fixed point: the same run again passes its prechecks and leaves every
   * stored object as it is.
   */
  lemma RunTwice(c: Cluster, ns: string, i: Inputs, sort: Sorter, m: Contents, f: Final)
    requires Finished(c, ns, i, sort, m, f) && WellStored(c) && Lookup(m.toDelete, Ownership.ControllerId(ns)).None?
    ensures var after := ClusterAfter(c, ns, i, sort);
            PrechecksPass(after, ns, i) && ClusterAfter(after, ns, i, sort).objects == after.objects
  {
    var after := ClusterAfter(c, ns, i, sort);
    StillOurs(c, ns, i, sort, m, f);
    FinishedWrites(c, ns, i, sort, m, f);
    FinishedWrites(after, ns, i, sort, m, f);
    InstallTwice(c, Planned(ns, i, sort).value);
  }

  // ----- The status -----

  lemma {:induction false} AnswersAvailable(ds: seq<Resource>, lookup: Id -> Status.Answer)
    ensures Status.AllAvailable(AnswersFor(ds, lookup)) <==> forall d :: d in ds ==> Status.Available(lookup(d.id))
  {
    if ds != [] {
      var init, last := ds[..|ds| - 1], ds[|ds| - 1];
      AnswersAvailable(init, lookup);
      assert ds == init + [last] && last in ds;
      var answers := AnswersFor(init, lookup);
      assert lookup(last.id) in answers + [lookup(last.id)];
      assert forall a :: a in answers ==> a in answers + [lookup(last.id)];
    }
  }

  /** This resource is a Deployment of the list. */
  ghost predicate DeploymentIn(rs: seq<Resource>, d: Resource) {
    d in rs && d.id.kind == DEPLOYMENT
  }

  lemma ReadyFor(cs: Status.Conditions, rs: seq<Resource>, lookup: Id -> Status.Answer)
    ensures Status.Is(Status.AfterRun(cs, Status.Reached(AnswersFor(Deployments(rs), lookup))),
                      Status.READY, Status.True) <==>
            Status.OthersHappy(cs) && forall d :: DeploymentIn(rs, d) ==> Status.Available(lookup(d.id))
  {
    var ds := Deployments(rs);
    Status.ReadyExactly(cs, AnswersFor(ds, lookup));
    AnswersAvailable(ds, lookup);
    OnlyDeployments(rs);
    assert forall d :: d in ds <==> DeploymentIn(rs, d);
  }

  /**
   * After a finished run, from any earlier status: Ready is True if and only if every Deployment
   * of the transformed apply list was found available, and no condition of another type holds it back.
   */
  lemma FinishedReady(c: Cluster, ns: string, i: Inputs, sort: Sorter, m: Contents, f: Final, cs: Status.Conditions,
                      lookup: Id -> Status.Answer)
    requires Finished(c, ns, i, sort, m, f)
    ensures Outcome(c, ns, i, sort, lookup).Reached?
    ensures Status.Is(Status.AfterRun(cs, Outcome(c, ns, i, sort, lookup)), Status.READY, Status.True) <==>
            Status.OthersHappy(cs) && forall d :: DeploymentIn(f.applied, d) ==> Status.Available(lookup(d.id))
  {
    var l := Planned(ns, i, sort).value;
    FinishedWrites(c, ns, i, sort, m, f);
    PermutationMembers(l.apply, f.applied);
    ReadyFor(cs, l.apply, lookup);
    assert forall d :: DeploymentIn(l.apply, d) <==> DeploymentIn(f.applied, d);
  }
}
