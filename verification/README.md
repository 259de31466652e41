# Verified model of the EventMesh operator

A Dafny model of the operator's reconcile logic with proofs about it. The operator watches
`EventMesh` objects, builds lists of Kubernetes manifests, patches them (user overrides,
autoscaler bounds, scale-to-zero, Kafka settings, owner references), installs them, and keeps
informers for brokers and channels running only while the corresponding CRDs exist.

`dafny verify dfyconfig.toml` checks the whole project.

| module | models |
|---|---|
| `DynamicInformer` | `Setup`, `Stop` and `Lister` as atomic steps of any number of threads over the mutex and the two atomic pointers; a class whose methods change those fields one atomic step at a time, each checked against the step relation |
| `Scaler`, `ScalerExact` | the edge-triggered handlers, the level function, and their protocol over an event log, a cache position, a handler position and a resync queue; exactly which logs come out right under every schedule, and what stopping the informer does |
| `Env`, `Hpa`, `Resources`, `WorkloadOverride`, `OverrideFusion`, `OverrideMethods`, `OverrideMeaning`, `OverrideTwice` | the workload overrides: specification, algebra, in-place loops, what they mean field by field, a second pass |
| `Manifests`, `Scaling` | the manifests accumulator, the transformers, and the replica decisions |
| `SemVer`, `VersionText`, `Upgrade`, `UpgradeRuns` | version labels, the search for the installed version, post-install decisions over histories |
| `Cluster`, `Ownership`, `Status`, `Reconciler`, `FinishedRuns`, `RunsCarriedOut`, `Turns` | install stage, single ownership, conditions, a whole reconcile run, what it leaves behind, its place in the histories of `UpgradeRuns`, and sequences of runs |
| `KafkaConfig` | the four writers of the Kafka ConfigMaps |
| `Prelude`, `GoStrings` | shared datatypes, map algebra, Go's string order |

Conventions. A Go error is an `Err`, a nil pointer or an absent field is `None`, a panic on a
nil map is an `Err` too. Integers are unbounded except in the autoscaler arithmetic, which
wraps at 64 bits as `int64` does. Listers, polls, cache syncs, API errors and map iteration
order are inputs or nondeterministic choices. An object is stored in the cluster under its API
version, kind, namespace and name; applying replaces it, deleting removes it (a Namespace only
if the operator created it), and an object with only a `generateName` is created anew.

## What the proofs found

- Two overlapping `Stop` calls around a `Setup` leave an informer running that nothing can
  cancel (`OverlappingStopsLeak`). The store sections stay apart if and only if no `Setup` passes
  its guard while a `Stop` is in flight (`DisjointExactly`), and whenever one does, the calls in
  flight can end in such a leak (`UnguardedLeaks`); a single CRD handler prevents it
  (`OneHandlerThread`, `OneStopGuarded`).
- A scale-up can be lost when the cache runs ahead of the handler, or when objects arrive before
  the informer has synced. For every log, with any mixture and any change of classes, every
  schedule comes out right if and only if no update empties the population and there is no window
  from an empty to a non-empty population whose handler calls can all be made without firing
  (`RightExactly`). For logs of one class this means: no object is added to a population that has
  been empty and is not empty any more; and before the sync, nothing is added once the population
  has been empty (`OneClassSynced`, `OneClassUnsynced`). With several classes that is sufficient
  but not necessary: an event of another class may ask for the missing reconcile (`OtherClassHeals`).
- While the informer runs, a scale-down is lost under some schedule if and only if an update, which
  the handler ignores, takes the last object out of the population (`ScaleDownExactly`).
- Stopping the informer makes the target 0 without asking for a reconcile. It comes down if and
  only if a reconcile is queued or about to read the target, or 0 was read last (`StopExactly`).
- The ingress autoscaler is scaled under the deployment name `mt-ingress-filter`, while the
  Deployment is called `mt-broker-ingress`. `IngressPair` gives the exact condition under which
  the outcome is right all the same; with the defaults it is not (`IngressLeftRunning`).
- An override named like an autoscaler also rewrites that autoscaler, because unknown workload
  names map to themselves (`OverridesOfAutoscaler`). Hence the minimum follows the last override that maps to the
  autoscaler, not only those of its workload (`LastHpaReplicas` in `OneController`).
- `getVersions` promises NotFound when nothing is installed; with duplicate names in the list it
  can end in another error. `NotFoundExactly` gives the condition.
- The comparison of pre-release identifiers follows section 11 of Semantic Versioning 2.0.0
  exactly for identifiers that the library takes for numbers when the standard does: not for
  signed numbers within 64 bits, nor for unsigned ones beyond (`PlainExactlyWhenSpec`).
- The shortcut of `mergeEnv` for an empty target agrees with its loop exactly when the source
  has no duplicate names (`EmptyTargetShortcut`), and merging a source with two values for one
  name into an empty target is not idempotent (`MergeTwice` gives the condition for one merge,
  `OverridesTwiceExactly` for whole override lists).
- A reconcile that stops before the end of its post-install list loses the rest of it, unless the
  last core Deployment that is then present was not yet written and has a strictly lower version:
  `RetriedExactly` gives this condition for every later run of the release, wherever the runs stop.
- Ready can be Unknown although both conditions it depends on are True: a new generation resets it,
  and a run that fails before it checks the Deployments leaves it so (`ReadyOverRuns`).

## Model

| member | source | states |
|---|---|---|
| `DynamicInformer.Informer.Setup` | pkg/dynamicinformer/dynamicinformer.go:62-104 | performs exactly the atomic steps of its ending (skip, poll failure, sync failure, success) in program order, each of them a step of the protocol, and returns an error exactly for the two failures |
| `DynamicInformer.Informer.BeginSetup` | pkg/dynamicinformer/dynamicinformer.go:65-76 | lock, guard load and context creation as steps of the protocol |
| `DynamicInformer.Informer.FinishSetup` | pkg/dynamicinformer/dynamicinformer.go:86-104 | both error exits with the deferred cancel, or lister and then guard stored, as steps of the protocol |
| `DynamicInformer.Informer.StoreLister` | pkg/dynamicinformer/dynamicinformer.go:99-100 | the lister store is one step, possible only after the sync |
| `DynamicInformer.Informer.StoreCancel` | pkg/dynamicinformer/dynamicinformer.go:101-101 | the guard store is one step, possible only after the lister store |
| `DynamicInformer.Informer.Stop` | pkg/dynamicinformer/dynamicinformer.go:116-126 | performs load, cancel, clear lister, clear guard in this order, or only the load if nothing runs |
| `DynamicInformer.Informer.ClearLister` | pkg/dynamicinformer/dynamicinformer.go:124-124 | clearing the lister is one step, possible only after the cancel call |
| `DynamicInformer.Informer.ClearCancel` | pkg/dynamicinformer/dynamicinformer.go:125-125 | clearing the guard is one step, possible only after the lister is cleared |
| `DynamicInformer.InvHolds` | pkg/dynamicinformer/dynamicinformer.go:62-133 | the protocol invariant holds after every step of every interleaving in which no Setup passes its guard under a Stop in flight |
| `DynamicInformer.StoreSectionsDisjoint` | pkg/dynamicinformer/dynamicinformer.go:68-125 | store sections of Setup and Stop never overlap although Stop takes no lock, and at most one informer is live and uncancelled, failure exits included |
| `DynamicInformer.DisjointExactly` | pkg/dynamicinformer/dynamicinformer.go:68-125 | in any run the store sections stay apart if and only if no Setup passes its guard under a Stop in flight |
| `DynamicInformer.OneStopGuarded` | pkg/dynamicinformer/dynamicinformer.go:116-126 | with at most one Stop in flight no Setup passes its guard under it |
| `DynamicInformer.SettledAgreement` | pkg/dynamicinformer/dynamicinformer.go:99-125 | with no Setup or Stop in progress: guard set, lister set and exactly one live informer are equivalent |
| `DynamicInformer.LoadedListerSynced` | pkg/dynamicinformer/dynamicinformer.go:93-133 | a lister that a reader loads belongs to an informer that had synced |
| `DynamicInformer.ReaderSeesNewLister` | pkg/dynamicinformer/dynamicinformer.go:65-133 | a reader that enters during a successful Setup sees its lister, unless a later Stop cleared it |
| `DynamicInformer.OneHandlerThread` | pkg/scaler/scaler.go:116-165 | when one handler thread makes all Setup and Stop calls, at most one Stop is ever in flight |
| `DynamicInformer.OverlappingStopsLeak` | pkg/dynamicinformer/dynamicinformer.go:116-126 | a run with two overlapping Stops that ends with a live informer and no guard |
| `DynamicInformer.UnguardedLeaks` | pkg/dynamicinformer/dynamicinformer.go:68-125 | from every reachable state in which a Setup has just passed its guard under a Stop in flight, the calls in flight can end in a settled state without a guard and with the new informer live |
| `Scaler.FilterObjects` | pkg/scaler/scaler.go:97-102 | the filtering loop leaves exactly one entry per cached object in scope |
| `Scaler.ScaleTarget` | pkg/scaler/scaler.go:58-114 | both scale target methods compute the level function of the cache, 0 without a lister, and an error if listing fails |
| `Scaler.LevelMeaning` | pkg/scaler/scaler.go:58-114 | the level is 1 exactly if there is a broker of class MTChannelBasedBroker, or a channel |
| `Scaler.HandleEvent` | pkg/scaler/scaler.go:174-237 | the handlers fire on the first object of the changed object's class and on the last one, never on updates, unsynced adds or a failed list |
| `Scaler.ScaleDownNeverLost` | pkg/scaler/scaler.go:209-234 | for every schedule of a log in which no update empties the population: with all events delivered and no resync pending, an empty population implies target 0 |
| `Scaler.FiresOnEdges` | pkg/scaler/scaler.go:174-244 | under lag-free delivery a resync fires exactly when the changed object's class crosses between empty and non-empty |
| `Scaler.LevelChangeFires` | pkg/scaler/scaler.go:84-114 | every event that changes the scale target fires |
| `Scaler.EdgeTriggerRefinesLevel` | pkg/scaler/scaler.go:84-237 | along every lag-free run on a synced informer, no resync pending implies applied target equals the level function |
| `Scaler.LagLosesScaleUp` | pkg/scaler/scaler.go:198-203 | a run in which two adds reach the cache before the first is handled, and the target stays 0 |
| `Scaler.UnsyncedLosesScaleUp` | pkg/scaler/scaler.go:179-179 | a run in which the only add is handled before the informer has synced |
| `Scaler.ClassChangeLosesScaleDown` | pkg/scaler/scaler.go:206-208 | a run in which an ignored class change empties the population |
| `ScalerExact.ScaleDownExactly` | pkg/scaler/scaler.go:206-234 | for every log: no schedule loses a scale-down if and only if no update empties the population |
| `ScalerExact.OneAtATimeSuffices` | pkg/scaler/scaler.go:178-237 | for every log with constant classes, other classes included: if objects come one at a time after the population has been empty, every schedule on a synced informer ends right |
| `ScalerExact.RightExactly` | pkg/scaler/scaler.go:178-244 | for every log, with any mixture and change of classes, from a synced start or not: every schedule ends with the right target if and only if no update empties the population and there is no window from an empty to a non-empty population whose handler calls can all be made, at non-decreasing cache positions, without firing |
| `ScalerExact.OneClassSynced` | pkg/scaler/scaler.go:178-237 | for logs of channels and of brokers of the target class this condition amounts, on a synced informer, to objects coming one at a time after the population has been empty |
| `ScalerExact.OneClassUnsynced` | pkg/scaler/scaler.go:179-179 | for the same logs, before the sync, it amounts to nothing being added once the population has been empty |
| `ScalerExact.OtherClassHeals` | pkg/scaler/scaler.go:239-244 | a log of two classes that every schedule gets right although objects do not come one at a time |
| `ScalerExact.StopExactly` | pkg/scaler/scaler.go:143-163 | after a Stop every quiet state has target 0 if and only if a reconcile was queued or about to read, or 0 was read last |
| `ScalerExact.StopLosesScaleDown` | pkg/scaler/scaler.go:143-163 | a Stop with the target up and no reconcile under way leaves it up |
| `Env.OverwriteLoop` | pkg/manifests/transform/workload-override.go:286-293 | the inner loop overwrites every entry of the name and reports whether there was one |
| `Env.MergeEnv` | pkg/manifests/transform/workload-override.go:284-306 | the result is a sorted permutation of the merge; the source slice is reordered exactly in the aliased case |
| `Env.MergeAllMap` | pkg/manifests/transform/workload-override.go:285-297 | the merge loop means map override, for all lists |
| `Env.MergeAllOverrides` | pkg/manifests/transform/workload-override.go:285-297 | every entry with a source name carries the last value the source gives it |
| `Env.MergeAllConserves` | pkg/manifests/transform/workload-override.go:285-297 | all other target entries are conserved with their multiplicities |
| `Env.MergeAllUnique` | pkg/manifests/transform/workload-override.go:285-297 | unique target names stay unique |
| `Env.EmptyTargetShortcut` | pkg/manifests/transform/workload-override.go:298-300 | the shortcut agrees with the loop if and only if the source names are unique |
| `Env.MergeTwice` | pkg/manifests/transform/workload-override.go:284-306 | merging the same source again changes nothing if and only if the target was not empty or no name of the source has two values |
| `Env.MergedMeaning` | pkg/manifests/transform/workload-override.go:284-306 | for unique names mergeEnv as a whole is map override, sorted and unique |
| `Env.UniqueSortCanonical` | pkg/manifests/transform/workload-override.go:302-305 | with unique names an unstable sort has only one possible result |
| `Env.MergePermutes` | pkg/manifests/transform/workload-override.go:284-300 | merging into a reordered target gives a reordered result, so unstable sorts between merges change nothing else |
| `Hpa.Autoscaler.SetReplicas` | pkg/manifests/transform/hpa-replicas.go:16-40 | the in-place rewrite with all error exits, including the minimum already stored when the maximum is unreadable |
| `Hpa.RewriteMeaning` | pkg/manifests/transform/hpa-replicas.go:16-39 | one rewrite within 64 bits: minimum set, maximum moved as far, an absent minimum counted as 0, an absent maximum left absent |
| `Hpa.Telescopes` | pkg/manifests/transform/hpa-replicas.go:16-39 | any sequence of rewrites has the closed form of one rewrite, with 64-bit wrap-around |
| `Hpa.DistanceConserved` | pkg/manifests/transform/hpa-replicas.go:35-39 | maximum minus minimum is conserved if and only if the final maximum fits into 64 bits, and then min <= max is preserved both ways |
| `Hpa.NoOverflow` | pkg/manifests/transform/hpa-replicas.go:37-37 | with 32-bit inputs no intermediate result leaves 64 bits, however long the sequence |
| `Hpa.UnreadableFails` | pkg/manifests/transform/hpa-replicas.go:16-28 | an unreadable bound makes every sequence of rewrites fail |
| `Hpa.RewriteAllIdempotent` | pkg/manifests/transform/hpa-replicas.go:16-39 | a second pass of the same rewrites changes nothing |
| `OverrideMethods.MergeLoop` | pkg/manifests/transform/workload-override.go:265-273 | merge is map override in every iteration order, shortcut included |
| `OverrideMethods.ReplaceResources` | pkg/manifests/transform/workload-override.go:177-187 | limits and requests of every container are merged with the first override of its name, nothing else changes |
| `OverrideMethods.ReplaceEnv` | pkg/manifests/transform/workload-override.go:189-198 | env of every container is merged with the first override of its name, nothing else changes |
| `OverrideMethods.ReplaceProbes` | pkg/manifests/transform/workload-override.go:200-253 | both probes of every container are disabled, set or overlaid, nothing else changes |
| `OverrideMethods.PatchInPlace` | pkg/manifests/transform/workload-override.go:73-90 | the replace calls refine the patch of the object: equal up to the order of env entries of one name, and equal if names are unique |
| `OverrideMethods.WorkloadsOverride` | pkg/manifests/transform/workload-override.go:26-97 | the loop over all overrides refines the fold over them in the same sense, with its early exit on an unreadable autoscaler |
| `OverrideFusion.MergeResourcesIsOverride` | pkg/manifests/transform/workload-override.go:265-273 | the shortcut of merge makes no difference |
| `OverrideFusion.OverridesFuse` | pkg/manifests/transform/workload-override.go:26-97 | on a workload any list of overrides acts as one combined patch |
| `OverrideFusion.OverridesRewrite` | pkg/manifests/transform/workload-override.go:66-71 | on an autoscaler any list of overrides is a sequence of rewrites of its bounds |
| `OverrideFusion.WorkloadsOverrideIdempotent` | pkg/manifests/transform/workload-override.go:26-337 | applying any override list twice equals applying it once, on every kind of resource, for unique env names |
| `OverrideTwice.OverridesTwiceExactly` | pkg/manifests/transform/workload-override.go:26-97 | for every override list and workload, without any assumption on names: a second pass changes nothing, up to the order of env entries of one name, if and only if every container had an environment at first or its first non-empty source gives no name two values beyond those that later sources set |
| `OverrideTwice.MergeListTwice` | pkg/manifests/transform/workload-override.go:284-306 | the same condition for any sequence of env merges into one container |
| `OverrideMeaning.FindResourcesExactly` | pkg/manifests/transform/workload-override.go:275-282 | find returns the first entry whose container has the name, and nothing exactly if there is none |
| `OverrideMeaning.FindEnvExactly` | pkg/manifests/transform/workload-override.go:308-315 | the same for env overrides |
| `OverrideMeaning.FindProbeExactly` | pkg/manifests/transform/workload-override.go:330-337 | the same for probe overrides |
| `OverrideMeaning.ContainerResources` | pkg/manifests/transform/workload-override.go:177-187 | each key of the first entry for the container has its value, every other key is unchanged, and a container without an entry is unchanged |
| `OverrideMeaning.ContainerEnv` | pkg/manifests/transform/workload-override.go:189-198 | the first entry for the container is merged, and a container without an entry is unchanged |
| `OverrideMeaning.ContainerProbes` | pkg/manifests/transform/workload-override.go:200-253 | an override that sets nothing removes the probe, otherwise each field it sets has its value and each other field, the handler included, that of the old probe |
| `OverrideMeaning.WorkloadMeaning` | pkg/manifests/transform/workload-override.go:31-90 | Deployments and StatefulSets are matched by name, Jobs by generateName, nothing else is; what a match leaves field by field |
| `OverrideMeaning.OverrideReplicas` | pkg/manifests/transform/workload-override.go:39-56 | spec.replicas after any override list: left alone for the six autoscaled workloads, listed by name, and otherwise that of the last override that sets it |
| `OverrideMeaning.OverridesOfAutoscaler` | pkg/manifests/transform/workload-override.go:115-125 | which overrides reach an autoscaler: those of its own name, and of their workload for the two broker autoscalers |
| `OverrideMeaning.OwnNameBounds` | pkg/manifests/transform/workload-override.go:66-71 | an autoscaler named like its workload has after the pipeline the minimum of the last override of that name that sets replicas, with the maximum moved as far, and otherwise the bounds of the manifest |
| `Manifests.RunAllKeepsId` | pkg/manifests/manifests.go:33-61 | no transformer changes the identity of an object |
| `Manifests.ScaleExactly` | pkg/manifests/transform/scale.go:11-41 | resources without replicas are left alone, a target without replicas is an error, and exactly the named resource gets the replicas and nothing else |
| `Manifests.TransformLookup` | pkg/manifests/manifests.go:33-41 | transforming a list transforms what the list says about each identity, and names the same identities |
| `Manifests.FilterHpaSplits` | pkg/reconciler/eventmesh/eventmesh.go:188-190 | filtering by a predicate and by its negation splits the list without loss |
| `Scaling.GetByName` | pkg/apis/operator/v1alpha1/eventmesh_types.go:173-183 | the loop returns the overrides of that name in order |
| `Scaling.ByNameCount` | pkg/apis/operator/v1alpha1/eventmesh_types.go:173-183 | exactly the overrides of that name are selected, as often as they occur |
| `Scaling.ByNameOrder` | pkg/apis/operator/v1alpha1/eventmesh_types.go:173-183 | and in the order of the list |
| `Scaling.HasAtLeastOneWithReplicasSet` | pkg/apis/operator/v1alpha1/eventmesh_types.go:185-193 | true exactly when some override sets replicas |
| `Scaling.ByNameDecides` | pkg/apis/operator/v1alpha1/eventmesh_types.go:173-193 | the two together ask exactly whether some last override decides the replicas of that name |
| `Scaling.Accumulator.Append` | pkg/manifests/manifests.go:69-78 | all four parts are appended in order, and nil changes nothing |
| `Scaling.Accumulator.AddDeploymentScaleTransformerIfNeeded` | pkg/reconciler/eventmesh/eventmesh.go:210-220 | the new state: a scale transformer is added unless an override decides |
| `Scaling.Accumulator.AddHpaTransformerIfNeeded` | pkg/reconciler/eventmesh/eventmesh.go:180-208 | the new state of all four parts in each of the three cases |
| `Scaling.Accumulator.ApplyScalingStage` | pkg/reconciler/eventmesh/eventmesh.go:133-178 | the new state after both scaling functions |
| `Scaling.Accumulator.TransformStage` | pkg/manifests/stages.go:24-42 | succeeds exactly when all three lists transform, and then holds the transformed lists |
| `Scaling.DirectReplicas` | pkg/reconciler/eventmesh/eventmesh.go:145-178 | for every override list: final replicas of imc-dispatcher, imc-controller and mt-broker-controller are those of the last override that sets them, else the scale target |
| `Scaling.DeploymentPipeline` | pkg/reconciler/eventmesh/eventmesh.go:75-82 | apart from spec.replicas every Deployment after the pipeline is what the overrides leave, with the owner injected |
| `Scaling.OthersNotScaled` | pkg/reconciler/eventmesh/eventmesh.go:156-175 | every Deployment and StatefulSet that the scaling functions do not name keeps the replicas the overrides leave |
| `Scaling.FilterPair` | pkg/reconciler/eventmesh/eventmesh.go:172-208 | for every override list and target, mt-broker-filter and its autoscaler have exactly one replica controller, with the right value |
| `Scaling.IngressPair` | pkg/reconciler/eventmesh/eventmesh.go:173-173 | the same for mt-broker-ingress holds if and only if a condition on overrides, target and manifest holds |
| `Scaling.IngressLeftRunning` | pkg/reconciler/eventmesh/eventmesh.go:173-173 | without overrides target 0 removes the ingress autoscaler and leaves the Deployment's replicas as they were |
| `Scaling.PreparedLists` | pkg/reconciler/eventmesh/eventmesh.go:180-208 | nothing but the replaced autoscalers changes list, and they move from apply to delete |
| `Scaling.PreparedConserves` | pkg/reconciler/eventmesh/eventmesh.go:187-190 | the relocation conserves the combined multiset of both lists |
| `Scaling.PreparedBounds` | pkg/reconciler/eventmesh/eventmesh.go:162-208 | both bounds of every autoscaler after the whole pipeline: those of the manifest moved once, by the distance to the minimum that decides |
| `Scaling.AutoscalerPipeline` | pkg/reconciler/eventmesh/eventmesh.go:75-82 | apart from its bounds every autoscaler after the pipeline is that of the manifest, with the owner injected |
| `Scaling.PreparedMin` | pkg/reconciler/eventmesh/eventmesh.go:162-208 | the minimum of every autoscaler after the whole pipeline |
| `SemVer.CompareOrder` | vendor/github.com/coreos/go-semver/semver/semver.go:147-260 | comparison is a total order that ignores only metadata |
| `GoStrings.StringsExactly` | pkg/manifests/transform/workload-override.go:303-305 | one name is below another if it is a proper prefix, or has the smaller character where they first differ |
| `VersionText.ParseExactly` | vendor/github.com/coreos/go-semver/semver/semver.go:71-103 | a text parses to a version if and only if it is three numbers within 64 bits separated by dots, with optional pre-release and metadata of dot-separated identifiers, and means that version |
| `VersionText.ParseRender` | vendor/github.com/coreos/go-semver/semver/semver.go:71-103 | every text of that form parses to its numbers, pre-release and metadata |
| `SemVer.CompareFollowsSpec` | vendor/github.com/coreos/go-semver/semver/semver.go:147-260 | on plain versions comparison is the precedence of section 11 of Semantic Versioning 2.0.0 |
| `SemVer.PlainExactlyWhenSpec` | vendor/github.com/coreos/go-semver/semver/semver.go:207-260 | a valid identifier compares as section 11 says with every plain identifier if and only if it is plain itself |
| `SemVer.NotPlainDisagrees` | vendor/github.com/coreos/go-semver/semver/semver.go:207-260 | a witness against every identifier that is not plain |
| `Upgrade.GetVersionsRefines` | pkg/manifests/version.go:34-65 | the recursion returns what the last Deployment of the list that is in the cluster says, with the exact exception for duplicates |
| `Upgrade.NotFoundExactly` | pkg/manifests/version.go:42-51 | NotFound if and only if there are Deployments, none is in the cluster, and the name left over occurs once |
| `Upgrade.IsUpgradeByNumbers` | pkg/manifests/version.go:78-81 | the decision in numbers: installed below new by major and minor, or by pre-release where these agree; for equal pre-releases by major and minor alone |
| `Upgrade.ComparesLastPresent` | pkg/manifests/version.go:41-64 | the manifest's version label is compared with the one in the cluster, of the last Deployment present |
| `Upgrade.DecisionFails` | pkg/manifests/version.go:67-76 | when the decision fails, for distinct names: no Deployments in the list, or a failed lookup or unreadable label at the last one that is not missing; nothing installed is the answer no |
| `Upgrade.DistinctEndsWithOne` | pkg/manifests/version.go:39-47 | with distinct names the exception does not arise |
| `Upgrade.WithoutShrinks` | pkg/manifests/version.go:45-47 | the number of remaining Deployments decreases with every recursive call |
| `UpgradeRuns.RunKeepsVersion` | pkg/manifests/manifests.go:33-41 | transformers without an override of the version label keep the version of a Deployment |
| `UpgradeRuns.StepsTrack` | pkg/manifests/stages.go:44-71 | after any history of runs stopped anywhere, the cluster holds exactly the core Deployments written so far, each with the version of the run that wrote it last |
| `UpgradeRuns.DecisionExactly` | pkg/manifests/version.go:67-82 | in every run of such a history the decision is: patch-zeroed version strictly above the installed one |
| `UpgradeRuns.DecisionByNumbers` | pkg/manifests/version.go:67-82 | in every run of a history with version v installed and w new: yes exactly if v is below w by major and minor number, or by pre-release where these agree |
| `UpgradeRuns.DecisionBySpec` | pkg/manifests/version.go:67-82 | for plain versions that is: strictly below by section 11 of Semantic Versioning 2.0.0 on major, minor and pre-release |
| `UpgradeRuns.ParseMeaning` | pkg/manifests/eventing.go:149-174 | a parser fails exactly if its decision does, and otherwise only the post-install set depends on the decision |
| `UpgradeRuns.PostInstallExactly` | pkg/manifests/eventing.go:149-174 | the post-install list handed to install has, for each parser, its transformed post-install set exactly in that case |
| `UpgradeRuns.JobsExactly` | pkg/manifests/stages.go:63-67 | a complete run creates the jobs of each post-install set, besides what its apply list creates anew, exactly in that case |
| `UpgradeRuns.JobsOverHistory` | pkg/manifests/stages.go:57-67 | over a whole history of complete runs the jobs in the cluster are those of the runs that upgraded |
| `UpgradeRuns.UpgradeExactly` | pkg/manifests/kafkabroker.go:115-140 | when a run follows one that wrote all installed Deployments, the decision compares with the version of that run |
| `UpgradeRuns.FirstInstallNever` | pkg/manifests/version.go:69-73 | if no earlier run wrote a Deployment of the core set, the decision is no |
| `UpgradeRuns.RetriedExactly` | pkg/manifests/version.go:67-82 | for every later run of the same release, wherever the runs stop: it has the post-install set if and only if the last core Deployment present was not written since and had a strictly lower version |
| `UpgradeRuns.NeverAgain` | pkg/manifests/version.go:78-81 | once a run has written the last core Deployment, stopped or not, no later run of the release has the post-install set |
| `UpgradeRuns.StoppedLosesPostInstall` | pkg/manifests/stages.go:57-67 | a run that stops at any point after its apply list has applied exactly the beginning of its post-install list, and no later run of the release has the list |
| `Cluster.Converges` | pkg/manifests/stages.go:44-71 | after any attempts stopped anywhere, one complete run leaves every identity to apply present with its content, every other identity to delete absent, and unmentioned ones untouched |
| `Cluster.AttemptsLeaveOthers` | pkg/manifests/stages.go:44-71 | no sequence of attempts touches an identity that none of them mentions |
| `Cluster.ForeignNamespaceStays` | vendor/github.com/manifestival/manifestival/manifestival.go:185-255 | a Namespace that the operator did not create is never deleted, whatever is written |
| `Cluster.AppliedMark` | vendor/github.com/manifestival/manifestival/manifestival.go:136-183 | what the operator creates is marked as its own, and what it finds keeps its mark |
| `Cluster.InstallCreates` | pkg/manifests/stages.go:57-67 | a complete install creates one new object per entry of its lists that has only a generateName, and none else |
| `Cluster.InstallTwice` | pkg/manifests/stages.go:44-71 | a complete install is a fixed point: the same lists installed again leave every stored object as it is |
| `Ownership.HasForeignEventingInstalled` | pkg/reconciler/eventmesh/eventmesh.go:105-131 | the search is true exactly when eventing-controller exists without this EventMesh among its owners |
| `Ownership.SingleOwner` | pkg/reconciler/eventmesh/eventmesh.go:58-66 | over any serial runs by any EventMeshes, complete or cut short: the owner stays, every other one writes nothing, the owner is never foreign to itself |
| `Ownership.ForeignInstallUntouched` | pkg/reconciler/eventmesh/eventmesh.go:224-233 | an installation owned by none of the EventMeshes is never written to |
| `Ownership.ApplyingOwns` | pkg/reconciler/eventmesh/eventmesh.go:270-277 | a run that gets to apply eventing-controller makes its EventMesh the owner, wherever it stops afterwards |
| `Ownership.PipelineOwns` | pkg/manifests/transform/ownerreference.go:9-16 | the lists of the real pipeline satisfy what SingleOwner asks of them |
| `Ownership.NamespaceUntouched` | pkg/manifests/transform/ownerreference.go:11-13 | no transformer, the owner injection included, changes a Namespace |
| `Ownership.PipelineKeepsNamespaces` | pkg/manifests/transform/ownerreference.go:9-16 | the Namespaces of the installed lists are those of the loaded manifests, with their own owners |
| `Ownership.PipelineKeepsDisjoint` | pkg/manifests/manifests.go:33-82 | disjoint lists stay disjoint through relocation, transform and sort, and together name the same identities |
| `Status.IsDeploymentAvailable` | pkg/reconciler/eventmesh/eventmesh.go:306-313 | true exactly when the Available condition is True |
| `Status.EventMeshStatus.CheckDeployments` | pkg/reconciler/eventmesh/eventmesh.go:279-304 | an error exactly if the first answer that is not a Deployment is a failed lookup, the quiet exit exactly if it is a missing one, success exactly if all are available; and the new conditions |
| `Status.EventMeshStatus.MarkInstallSucceeded` | pkg/apis/operator/v1alpha1/eventmesh_lifecycle.go:47-49 | the condition is True, Ready is True exactly if every condition that counts is and False exactly if one of them is, all other conditions are unchanged |
| `Status.EventMeshStatus.MarkInstallFailed` | pkg/apis/operator/v1alpha1/eventmesh_lifecycle.go:53-55 | the condition and Ready are False, all other conditions are unchanged |
| `Status.EventMeshStatus.MarkDeployments` | pkg/apis/operator/v1alpha1/eventmesh_lifecycle.go:58-69 | the condition has the given truth, Ready is rolled up from all conditions that count, all others are unchanged |
| `Status.MarkTrueMeaning` | vendor/knative.dev/pkg/apis/condition_set.go:258-349 | marking a condition True rolls Ready up from all conditions that count |
| `Status.CheckMeansAvailable` | pkg/reconciler/eventmesh/eventmesh.go:279-304 | the check passes if and only if every Deployment was found and available |
| `Status.CheckExactly` | pkg/reconciler/eventmesh/eventmesh.go:281-300 | which way the check ends: an error exactly if the first answer that is not a Deployment is a failed lookup, and the quiet exit exactly if it is that there is none |
| `Status.ReachedConditions` | pkg/reconciler/eventmesh/eventmesh.go:91-102 | after the check InstallSucceeded is True exactly unless the lookup failed and it was not True before; DeploymentsAvailable is True if all are available and False otherwise; nothing but these and Ready changes |
| `Status.UnreachedConditions` | pkg/reconciler/eventmesh/eventmesh.go:59-66 | a failed precheck makes InstallSucceeded and Ready False, any earlier error leaves the status alone |
| `Status.ReadyExactly` | pkg/reconciler/eventmesh/eventmesh.go:91-102 | after any run that reaches the check, from any earlier status, Ready is True if and only if every Deployment was found and available and no condition of another type with error severity holds it back |
| `Status.RunRollsUp` | pkg/apis/operator/v1alpha1/eventmesh_lifecycle.go:47-69 | no run makes Ready True without both dependent conditions |
| `Status.ReadyOverRuns` | vendor/knative.dev/pkg/reconciler/reconcile_common.go:52-73 | over any sequence of runs and edits of the object, Ready is True if and only if the last run that reached a verdict found every Deployment available and no new generation was observed since |
| `Status.ObserveRollsUp` | vendor/knative.dev/pkg/reconciler/reconcile_common.go:63-72 | initializing conditions and observing a generation keep Ready behind its dependents; a new generation is never ready |
| `Status.ObserveExactly` | vendor/knative.dev/pkg/reconciler/reconcile_common.go:63-72 | unset dependents become True if Ready is and Unknown otherwise; a new generation makes Ready False if a dependent is and Unknown otherwise |
| `Reconciler.Reconciler.RunPrechecks` | pkg/reconciler/eventmesh/eventmesh.go:224-254 | error, failure and success case by case: foreign installation first, then unreadable flags, then cert-manager exactly if transport encryption is on; and the status each leaves |
| `Reconciler.Reconciler.Perform` | pkg/manifests/stages.go:51-67 | the cluster after the writes up to the one that fails |
| `Reconciler.Reconciler.Install` | pkg/manifests/stages.go:44-71 | sorts the three lists and leaves the cluster of exactly the writes performed |
| `Reconciler.Reconciler.LoadManifests` | pkg/manifests/stages.go:12-22 | succeeds exactly if both parsers do, with their manifests appended |
| `Reconciler.Reconciler.TransformManifests` | pkg/reconciler/eventmesh/eventmesh.go:75-82 | succeeds exactly if both scale targets are available and all three lists transform, with the transformed lists |
| `Reconciler.Reconciler.ReconcileKind` | pkg/reconciler/eventmesh/eventmesh.go:58-103 | writes, status and error of a run are determined by its inputs: it reaches the check exactly if prechecks, parsers, scale targets, transformers and all writes succeed, and then returns an error exactly if the first answer that is not a Deployment is a failed lookup |
| `FinishedRuns.ClusterHolds` | pkg/reconciler/eventmesh/eventmesh.go:68-89 | after a finished run an identity to apply holds the prepared and transformed manifest, one only to delete is gone |
| `FinishedRuns.NamespaceInCluster` | pkg/manifests/transform/ownerreference.go:9-16 | after a finished run a Namespace to apply is in the cluster exactly as its manifest has it |
| `FinishedRuns.DirectReplicasInCluster` | pkg/reconciler/eventmesh/eventmesh.go:145-178 | after a finished run the three directly scaled Deployments have in the cluster the replicas of the last override that sets them, else the scale target |
| `FinishedRuns.FilterPairInCluster` | pkg/reconciler/eventmesh/eventmesh.go:172-208 | after a finished run mt-broker-filter and its autoscaler have exactly one replica controller in the cluster |
| `FinishedRuns.FinishedReady` | pkg/reconciler/eventmesh/eventmesh.go:91-102 | after a finished run Ready is True if and only if every Deployment of the transformed apply list was found available and no condition of another type holds it back |
| `FinishedRuns.RunTwice` | pkg/reconciler/eventmesh/eventmesh.go:58-103 | a finished run is a fixed point: the same run again passes its prechecks and leaves every stored object as it is |
| `FinishedRuns.RunIsOwnershipRun` | pkg/reconciler/eventmesh/eventmesh.go:58-66 | every run is a run of the ownership model |
| `FinishedRuns.RunIsOwned` | pkg/reconciler/eventmesh/eventmesh.go:270-277 | the writes of every run satisfy what SingleOwner asks of them |
| `RunsCarriedOut.RunIsCarriedOut` | pkg/manifests/stages.go:12-22 | a run whose parsers read the cluster it starts from is a step of the histories of UpgradeRuns, with the same result |
| `Turns.OwnerOverTurns` | pkg/reconciler/eventmesh/eventmesh.go:58-66 | over any sequence of whole runs by any EventMeshes, each on the cluster the one before left: the owner of eventing-controller stays, every other run ends in its prechecks and changes nothing |
| `Turns.ReadyOverTurns` | pkg/reconciler/eventmesh/eventmesh.go:91-102 | over such a sequence an EventMesh is Ready if and only if its last run with a verdict found its Deployments available and no new generation was observed since |
| `Turns.OthersNotReady` | pkg/reconciler/eventmesh/eventmesh.go:224-233 | no EventMesh but the owner is Ready once a run of it got an answer |
| `KafkaConfig.PrefixKeys` | pkg/manifests/transform/kafka-topic-options.go:13-16 | the prefixing loop has one result for every iteration order |
| `KafkaConfig.ConfigMapObject.Set` | pkg/manifests/transform/configmap_updater.go:27-27 | one assignment, and the panic on nil data |
| `KafkaConfig.ConfigMapObject.SetAll` | pkg/manifests/transform/configmap_updater.go:48-54 | the merge loop is map override in every iteration order; without merge the data is replaced |
| `KafkaConfig.ConfigMapObject.Apply` | pkg/manifests/transform/bootstrapserver.go:14-33 | each writer in place refines its edit of the data |
| `KafkaConfig.PrefixInjective` | pkg/manifests/transform/kafka-topic-options.go:11-15 | prefixing is injective |
| `KafkaConfig.PrefixNoCollision` | pkg/manifests/transform/kafka-topic-options.go:11-15 | a prefixed key is never the bootstrap, partition or replication key |
| `KafkaConfig.PrefixedOptions` | pkg/manifests/transform/kafka-topic-options.go:13-16 | every option survives prefixing under its own key and none is added |
| `KafkaConfig.WritersCommute` | pkg/manifests/kafkabroker.go:70-77 | in any order the four writers add all their entries to kafka-broker-config, or all orders fail on nil data |
| `KafkaConfig.EverySettingReadable` | pkg/manifests/transform/partitions.go:10-16 | afterwards each of the three settings reads back under its key |
| `KafkaConfig.EveryOptionReadable` | pkg/manifests/transform/kafka-topic-options.go:10-23 | afterwards each option reads back under its prefixed key |
| `KafkaConfig.DecimalReads` | pkg/manifests/transform/partitions.go:10-16 | partition count and replication factor are written as decimal numerals that read back as the number |
| `KafkaConfig.JoinReads` | pkg/manifests/transform/bootstrapserver.go:29-29 | splitting the bootstrap servers value at its commas gives the list back, for names without commas |
| `KafkaConfig.OthersUntouched` | pkg/manifests/transform/configmap_updater.go:14-20 | resources other than the two Kafka ConfigMaps are left alone |
| `KafkaConfig.ChannelGetsServers` | pkg/manifests/transform/bootstrapserver.go:20-29 | kafka-channel-config gets the bootstrap servers and nothing else, wherever their writer stands in the order |

## Left out

- Scaler.ScaleDownNeverLost: assumes that delete events carry the object, not a tombstone.
- Scaler.EdgeTriggerRefinesLevel: assumes lag-free delivery on a synced informer; without it ScalerExact.RightExactly gives the exact condition.
- OverrideFusion.WorkloadsOverrideIdempotent: assumes unique env names in every list; without them OverrideTwice.OverridesTwiceExactly gives the exact condition.
- Env.MergeEnv: a slice shared between the override and a container is captured only by the order the source slice has afterwards.
- UpgradeRuns.DecisionExactly: assumes one version per core set, a fresh lister, no override of the version label, and no other manifest with the name of a core Deployment.
- Ownership.SingleOwner: reconciles are serial and the lister is fresh; concurrent reconciles of different objects are not modelled.
- Generated clients, informers, listers and deep copies, and the wiring in cmd and config.
- Three-way merging of live objects: an applied object replaces the stored one.
- The kind priority of the sort: every permutation of a list is covered.
- Conversion between unstructured and typed objects, taken to be lossless, and failures to set a nested field.
- Logging, features, default broker and default channel transformers: any edit of ConfigMap data that may fail.
- ConfigMapOverride with a ConfigMap name shorter than its optional prefix, where slicing panics.
- Loading YAML, the choice of TLS manifests, validation and defaulting of EventMesh objects: branch-level behaviour only.
- List errors in the protocol of the event handlers: the lister of an informer reads its own cache. Messages and reasons of conditions.
- Liveness: polling for a CRD and waiting for a cache sync end in success or failure, when is not modelled. The caller's context stays uncancelled for the life of an informer.
- The non-recoverable error path: nothing constructs that error.
