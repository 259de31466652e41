/** Every reconcile run that reaches its install stage is a step of the histories of UpgradeRuns. */
module RunsCarriedOut {
  import opened Prelude
  import opened Scaling
  import opened Cluster
  import opened Reconciler
  import opened UpgradeRuns
  import FinishedRuns

  /** The reconcile that a run of ReconcileKind amounts to. */
  function AsReconcile(c: Cluster, ns: string, i: Inputs, sort: Sorter, e: Component, k: Component): Reconcile
    requires Planned(ns, i, sort).Some? && AppendedResults(i.eventing, i.kafka).Ok? && i.imc.Some? && i.mt.Some?
  {
    Reconcile(e, k, AppendedResults(i.eventing, i.kafka).value, i.parsed, i.imc.value, i.mt.value, i.em,
              AttemptOf(c, ns, i, sort).lists, AttemptOf(c, ns, i, sort).done)
  }

  /**
   * When the parsers read the cluster that the run starts from, the run is carried out from it and
   * leaves its result.
   */
  lemma RunIsCarriedOut(c: Cluster, ns: string, i: Inputs, sort: Sorter, e: Component, k: Component)
    requires Sorts(sort) && i.Valid() && PrechecksPass(c, ns, i) && Planned(ns, i, sort).Some?
    requires i.eventing == ParseComponent(e, ListerOf(c, ns)) && i.kafka == ParseComponent(k, ListerOf(c, ns))
    ensures AppendedResults(i.eventing, i.kafka).Ok? && i.imc.Some? && i.mt.Some?
    ensures CarriedOut(c, ns, AsReconcile(c, ns, i, sort, e, k))
    ensures After(c, AsReconcile(c, ns, i, sort, e, k)) == FinishedRuns.ClusterAfter(c, ns, i, sort)
  {
    FinishedRuns.PlannedInstallable(ns, i, sort);
  }
}
