/** Sequences of reconcile runs by any EventMeshes, each on the cluster that the one before left. */
module Turns {
  import opened Prelude
  import opened Resources
  import opened Scaling
  import opened Cluster
  import opened Reconciler
  import opened FinishedRuns
  import Manifests
  import Ownership
  import Status

  /** A run, whether it is the first one of its object's generation, and what the lister answers when it checks. */
  datatype Turn = Turn(inputs: Inputs, newGeneration: bool, lookup: Id -> Status.Answer)

  /** Turn `k` takes the cluster from `clusters[k]` to `clusters[k + 1]` and gets as far as `outcomes[k]`. */
  ghost predicate TurnAt(clusters: seq<Cluster>, outcomes: seq<Status.Progress>, ns: string, turns: seq<Turn>,
                         sort: Sorter, k: nat)
    requires k < |turns| == |outcomes| < |clusters|
  {
    && clusters[k + 1] == ClusterAfter(clusters[k], ns, turns[k].inputs, sort)
    && outcomes[k] == Outcome(clusters[k], ns, turns[k].inputs, sort, turns[k].lookup)
  }

  /** All turns in sequence. No parser schedules eventing-controller for deletion. */
  ghost predicate Trace(clusters: seq<Cluster>, outcomes: seq<Status.Progress>, ns: string, turns: seq<Turn>,
                        sort: Sorter) {
    && Sorts(sort) && |turns| == |outcomes| && |clusters| == |turns| + 1
    && (forall k :: 0 <= k < |turns| ==> KeepsController(turns[k].inputs, ns))
    && forall k :: 0 <= k < |turns| ==> TurnAt(clusters, outcomes, ns, turns, sort, k)
  }

  ghost predicate KeepsController(i: Inputs, ns: string) {
    var m := AppendedResults(i.eventing, i.kafka);
    m.Ok? ==> Lookup(m.value.toDelete, Ownership.ControllerId(ns)).None?
  }

  // ----- One owner -----

  lemma TurnKeepsOwner(c: Cluster, ns: string, em: string, i: Inputs, sort: Sorter)
    requires Sorts(sort) && KeepsController(i, ns) && Ownership.OwnedBy(c, ns, em)
    ensures Ownership.OwnedBy(ClusterAfter(c, ns, i, sort), ns, em)
    ensures i.em == em ==> !Ownership.HasForeign(c, ns, em)
    ensures i.em != em ==> Ownership.HasForeign(c, ns, i.em) && ClusterAfter(c, ns, i, sort) == c
  {
    RunIsOwned(c, ns, i, sort);
    RunIsOwnershipRun(c, ns, i, sort);
    Ownership.RunKeepsOwner(c, ns, em, Ownership.Run(i.em, AttemptOf(c, ns, i, sort)));
    assert i.em != em ==> Manifests.OwnerOf(i.em) != Manifests.OwnerOf(em);
  }

  /** A run of another EventMesh than the owner ends in the prechecks. */
  lemma ForeignOutcome(c: Cluster, ns: string, em: string, i: Inputs, sort: Sorter, lookup: Id -> Status.Answer)
    requires Sorts(sort) && KeepsController(i, ns) && Ownership.OwnedBy(c, ns, em) && i.em != em
    ensures Outcome(c, ns, i, sort, lookup) == if i.listerFails then Status.PrecheckError else Status.PrecheckFailed
  {
    TurnKeepsOwner(c, ns, em, i, sort);
  }

  lemma TurnFacts(clusters: seq<Cluster>, outcomes: seq<Status.Progress>, ns: string, turns: seq<Turn>, sort: Sorter,
                  em: string, k: nat)
    requires Trace(clusters, outcomes, ns, turns, sort) && k < |turns| && Ownership.OwnedBy(clusters[k], ns, em)
    ensures Ownership.OwnedBy(clusters[k + 1], ns, em)
    ensures turns[k].inputs.em != em ==>
              && clusters[k + 1] == clusters[k]
              && outcomes[k] == if turns[k].inputs.listerFails then Status.PrecheckError else Status.PrecheckFailed
  {
    assert TurnAt(clusters, outcomes, ns, turns, sort, k);
    TurnKeepsOwner(clusters[k], ns, em, turns[k].inputs, sort);
    if turns[k].inputs.em != em { ForeignOutcome(clusters[k], ns, em, turns[k].inputs, sort, turns[k].lookup); }
  }

  /**
   * Over any sequence of reconcile runs, finished, failed or stopped: once one EventMesh owns
   * eventing-controller it stays the owner, and the runs of every other one change nothing.
   */
  lemma {:induction false} OwnerOverTurns(clusters: seq<Cluster>, outcomes: seq<Status.Progress>, ns: string,
                                          turns: seq<Turn>, sort: Sorter,
                                          em: string, k: nat)
    requires Trace(clusters, outcomes, ns, turns, sort) && Ownership.OwnedBy(clusters[0], ns, em) && k <= |turns|
    ensures Ownership.OwnedBy(clusters[k], ns, em)
    ensures k < |turns| && turns[k].inputs.em != em ==>
              && clusters[k + 1] == clusters[k]
              && outcomes[k] == if turns[k].inputs.listerFails then Status.PrecheckError else Status.PrecheckFailed
  {
    if k > 0 {
      OwnerOverTurns(clusters, outcomes, ns, turns, sort, em, k - 1);
      TurnFacts(clusters, outcomes, ns, turns, sort, em, k - 1);
    }
    if k < |turns| { TurnFacts(clusters, outcomes, ns, turns, sort, em, k); }
  }

  // ----- Readiness of each -----

  /** The reconciles of one EventMesh among the first `k` turns. */
  function ReconcilesOf(outcomes: seq<Status.Progress>, turns: seq<Turn>, em: string, k: nat): seq<Status.Reconcile>
    requires k <= |turns| == |outcomes|
  {
    if k == 0 then []
    else
      var before := ReconcilesOf(outcomes, turns, em, k - 1);
      if turns[k - 1].inputs.em != em then before
      else before + [Status.Reconcile(turns[k - 1].newGeneration, outcomes[k - 1])]
  }

  /** The status of one EventMesh after the first `k` turns: only its own reconciles change it. */
  function StatusAt(cs: Status.Conditions, outcomes: seq<Status.Progress>, turns: seq<Turn>, em: string,
                    k: nat): Status.Conditions
    requires k <= |turns| == |outcomes|
  {
    Status.AfterRuns(cs, ReconcilesOf(outcomes, turns, em, k))
  }

  /**
   * Over any sequence of reconcile runs by any EventMeshes: an EventMesh is Ready exactly when
   * its last run with a verdict found all its Deployments available, and it has no newer generation.
   */
  lemma ReadyOverTurns(clusters: seq<Cluster>, outcomes: seq<Status.Progress>, ns: string, turns: seq<Turn>,
                       sort: Sorter,
                       cs: Status.Conditions, em: string, k: nat)
    requires Trace(clusters, outcomes, ns, turns, sort) && k <= |turns| && Status.RolledUp(cs)
    ensures Status.RolledUp(StatusAt(cs, outcomes, turns, em, k))
    ensures Status.Is(StatusAt(cs, outcomes, turns, em, k), Status.READY, Status.True) <==>
            Status.LastVerdict(ReconcilesOf(outcomes, turns, em, k), Status.Is(cs, Status.READY, Status.True))
  {
    Status.ReadyOverRuns(cs, ReconcilesOf(outcomes, turns, em, k));
  }

  /** This EventMesh has had a run among the first `k` whose lookup of eventing-controller was answered. */
  ghost predicate Answered(turns: seq<Turn>, em: string, k: nat)
    requires k <= |turns|
  {
    exists n :: 0 <= n < k && turns[n].inputs.em == em && !turns[n].inputs.listerFails
  }

  lemma AnsweredBefore(turns: seq<Turn>, em: string, k: nat)
    requires 0 < k <= |turns| && Answered(turns, em, k)
    ensures Answered(turns, em, k - 1) || (turns[k - 1].inputs.em == em && !turns[k - 1].inputs.listerFails)
  {
    var n :| 0 <= n < k && turns[n].inputs.em == em && !turns[n].inputs.listerFails;
    assert n == k - 1 || n < k - 1;
  }

  /** The verdict over outcomes that all are prechecks of another EventMesh's installation. */
  lemma {:induction false} RejectedVerdict(outcomes: seq<Status.Progress>, turns: seq<Turn>, other: string, k: nat,
                                           initially: bool)
    requires k <= |turns| == |outcomes| && Answered(turns, other, k)
    requires forall n :: 0 <= n < k && turns[n].inputs.em == other ==>
               outcomes[n] == if turns[n].inputs.listerFails then Status.PrecheckError else Status.PrecheckFailed
    ensures !Status.LastVerdict(ReconcilesOf(outcomes, turns, other, k), initially)
  {
    var before := ReconcilesOf(outcomes, turns, other, k - 1);
    assert (before + [Status.Reconcile(turns[k - 1].newGeneration, outcomes[k - 1])])[..|before|] == before;
    AnsweredBefore(turns, other, k);
    if Answered(turns, other, k - 1) { RejectedVerdict(outcomes, turns, other, k - 1, initially); }
  }

  /** While one EventMesh owns the installation, no other one is Ready once it has been told so. */
  lemma OthersNotReady(clusters: seq<Cluster>, outcomes: seq<Status.Progress>, ns: string, turns: seq<Turn>,
                       sort: Sorter,
                       cs: Status.Conditions, em: string, other: string, k: nat)
    requires Trace(clusters, outcomes, ns, turns, sort) && Ownership.OwnedBy(clusters[0], ns, em) && other != em
    requires Status.RolledUp(cs) && k <= |turns| && Answered(turns, other, k)
    ensures !Status.Is(StatusAt(cs, outcomes, turns, other, k), Status.READY, Status.True)
  {
    forall n | 0 <= n < k && turns[n].inputs.em == other
      ensures outcomes[n] == if turns[n].inputs.listerFails then Status.PrecheckError else Status.PrecheckFailed
    {
      OwnerOverTurns(clusters, outcomes, ns, turns, sort, em, n);
    }
    RejectedVerdict(outcomes, turns, other, k, Status.Is(cs, Status.READY, Status.True));
    ReadyOverTurns(clusters, outcomes, ns, turns, sort, cs, other, k);
  }
}
