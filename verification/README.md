# Verified model of the Neutree control plane

Neutree is a control plane of reconcilers: each one reads rows from storage, talks to a
remote server (a Ray dashboard, a Kong gateway, a Kubernetes API, machines behind SSH) and
writes rows back. This project models the parts in which several reconcilers, a remote
server and a stored record have to stay in agreement over whole runs, and proves that they
do. `dafny verify dfyconfig.toml` checks everything.

| files | what they model |
|---|---|
| `RayApplications`, `RayProtocol` | editing the Ray Serve application list under the per-cluster mutex, with any number of workers and server teardowns interleaved |
| `ModelDownload`, `EndpointStatus` | download markers in replica logs, the endpoint status one observation reports, and what the endpoint controller stores over runs |
| `StaticRows`, `StaticLifecycle`, `StaticRefinement`, `StaticDeletion` | the Cluster, StaticNodeCluster and StaticNode controllers, one reconcile at a time and interleaved call by call, how the two relate, and that deletions finish |
| `ClusterPhase` | the phase machine of a cluster row: early, recovery, progress and final status writes |
| `JsonTree`, `PluginSync` | JSON merge patch (section 2 of RFC 7396), the normaliser, and syncing gateway plugins and API key limits |
| `DesiredFields`, `ManifestApply`, `DeployRuns` | declarative apply and delete of Kubernetes manifests against a last-applied record |
| `ResourceTotals`, `ClusterTotals`, `AcceleratorMetadata`, `DeviceAccounting` | accelerator accounting: nested records merged in place into cluster totals, product metadata, and per-device free and used amounts |
| `WorkerProvision` | one worker pass of an SSH Ray cluster with concurrent starts and stops |
| `EngineMerge`, `EngineSync` | merging engine definitions from the registry into storage |

Conventions:

- A remote or storage call is a parameter that says whether it succeeds (`ok`, `stored`,
  `Fault`, `Faults`, `Trouble`). A write that takes effect and still returns an error is a
  case of its own for the Ray PUT, for manifest applies and for the last-applied record; in
  the interleaved machines it is a successful step followed by a failing one.
- Iteration over a Go map takes an arbitrary remaining key in each round.
- Hashes are uninterpreted functions; JSON text is the tree it encodes.
- Floating-point quantities are reals, MiB and core units are integers.
- Several workers run per controller. The work queue hands out a key to one worker at a
  time, so at most one reconcile per row is in flight, and every reconcile acts on what it
  read earlier.

Results that are not what one would expect at first sight:

- A gateway that merge-patches what it is sent never settles on a desired config with a
  `null` inside a nested object that meets a stored member: the merged payload no longer
  carries that null, so every sync writes again (`PluginSync.NestedNullNeverSettles` is an
  input, `PluginSync.MergingSettlesIff` the exact condition). None of the configs this code
  generates has such a null, so all of them settle (`PluginSync.GeneratedSettles`).
- Creating a cluster under the name of a force-deleted one while its StaticNodeCluster row is
  still being cleaned up lets the first reconcile write that row back without deletion
  timestamp and annotation. `StaticDeletion.OrphanIsReachable` and
  `StaticDeletion.RecreationRevivesRow` give the run, `StaticDeletion.UndoneExactly` shows
  that this one step, and no other, takes a deletion back.
- A device's free pool stays within its capacity exactly when no amount involved is negative;
  the code clamps below but not above.
- The product metadata of a cluster depends on the order of its nodes exactly when two nodes
  hold different opinions on a product, a node's opinion being the first of its up to three
  records that names it; the totals never depend on the order.
- Pausing a deployment is drift exactly when its manifest asks for a non-zero replica count.

Where the code and its comments differ the model follows the code: the merge is named after
RFC 7386 and follows RFC 7396, which obsoletes it; the worker listing is said to give the
live state of a node and gives the state listed last.

## Model

| member | source | states |
|---|---|---|
| `RayApplications.DecideUpsert` | internal/orchestrator/ray_orchestrator.go:243-303 | whatever order the fetched applications come in, nothing is put exactly when the server already runs this config, and otherwise the list put is the fetched target with this one application replaced or added, each application once |
| `RayApplications.DecideRemove` | internal/orchestrator/ray_orchestrator.go:346-388 | nothing is put exactly when the application is not listed, and otherwise the list put is the fetched target without it |
| `RayApplications.DecisionCommits` | internal/orchestrator/ray_orchestrator.go:243-303 | if the server's target is still the one fetched, carrying out the decision applies the operation to it, skipping included |
| `RayApplications.RepeatIsSilent` | internal/orchestrator/ray_orchestrator.go:243-388 | repeating an upsert that is in force, or a removal whose teardown is over, puts nothing |
| `RayApplications.ListsCount` | internal/orchestrator/ray_orchestrator.go:243-388 | a list put is as long as the target it declares, so no application is named twice |
| `RayApplications.Dashboard.CreateOrUpdate` | internal/orchestrator/ray_orchestrator.go:243-303 | on success the target has the operation applied, on failure it is unchanged unless an unacknowledged PUT arrived, an application already in force costs no PUT, and it fails exactly if a call it makes fails |
| `RayApplications.Dashboard.DeleteEndpoint` | internal/orchestrator/ray_orchestrator.go:346-388 | the same for a removal, which converts nothing |
| `RayProtocol.LockInvariant` | internal/orchestrator/ray_orchestrator.go:42-69 | every step keeps clusters on mutexes of their own and every worker past its lock as that mutex's holder |
| `RayProtocol.SnapshotInvariant` | internal/orchestrator/ray_orchestrator.go:243-388 | while a worker holds the lock, the list it fetched keeps the server's target, teardowns by the server included |
| `RayProtocol.NoLostUpdate` | internal/orchestrator/ray_orchestrator.go:42-69 | after every interleaving of any number of workers on any number of clusters, each server's target is its first target with the committed operations applied one at a time in commit order |
| `RayProtocol.SuccessIsInForce` | internal/orchestrator/ray_orchestrator.go:243-388 | an operation that is about to return success is in force at that moment |
| `RayProtocol.OthersUntouched` | internal/orchestrator/ray_orchestrator.go:243-388 | over any stretch of a run in which nothing is committed under a name, what the server runs under that name stays the same |
| `RayProtocol.NoDeadlock` | internal/orchestrator/ray_orchestrator.go:42-69 | from every state of every run each operation under way can still be brought to its end, committed unless it has already been decided |
| `RayProtocol.OperationIsRun` | internal/orchestrator/ray_orchestrator.go:243-388 | whichever of its calls fails, what an operation on the dashboard does is an uninterrupted run of the interleaved machine that gives the mutex back |
| `RayProtocol.StaleSnapshotLosesUpdate` | internal/orchestrator/ray_orchestrator.go:42-69 | without the mutex, two operations that fetched the same list leave only the second in force |
| `ModelDownload.InspectReplica` | internal/orchestrator/ray_orchestrator.go:475-579 | a failure in either log wins, then a completion, then progress, and unreadable logs are noticed unless a failure was found |
| `ModelDownload.FailureWins` | internal/orchestrator/ray_orchestrator.go:454-469 | a log with the failure marker anywhere in it is Failed |
| `ModelDownload.CompletionDecides` | internal/orchestrator/ray_orchestrator.go:454-469 | without a failure, a completion of either wording anywhere makes it Done |
| `ModelDownload.StartedIsInProgress` | internal/orchestrator/ray_orchestrator.go:454-469 | a log that shows a start and neither a failure nor a completion is InProgress |
| `ModelDownload.ContainsIff` | internal/orchestrator/ray_orchestrator.go:454-469 | a marker is found if and only if it stands somewhere in the text |
| `ModelDownload.IsBackendIff` | internal/orchestrator/ray_orchestrator.go:471-473 | a deployment is the backend if and only if its name spells it in letters of either case, the Kelvin sign counting as a k |
| `ModelDownload.InspectDeployment` | internal/orchestrator/ray_orchestrator.go:475-579 | reports a failure exactly when some replica shows one, and otherwise adds exactly what its replicas show |
| `ModelDownload.Inspect` | internal/orchestrator/ray_orchestrator.go:475-579 | the state is a function of the deployments and logs alone, so the order of iteration does not matter, and an error comes with it exactly when nothing is known and some log was unreadable |
| `ModelDownload.DoneExactly` | internal/orchestrator/ray_orchestrator.go:454-579 | the state is Done if and only if there is a backend deployment, each has replicas, and each replica has an actor, a Done marker and no Failed marker in a readable log |
| `EndpointStatus.GetEndpointStatus` | internal/orchestrator/ray_orchestrator.go:653-808 | the reported status is `Report` of the listing with the logs' verdict, although logs are read only while starting up |
| `EndpointStatus.RunningReported` | internal/orchestrator/ray_orchestrator.go:404-452 | Running is reported if and only if the application exists, is neither paused nor deleted, all proxies are healthy, and it is RUNNING or is DEPLOYING with Running stored and every deployment healthy |
| `EndpointStatus.FailedReported` | internal/orchestrator/ray_orchestrator.go:713-756 | Failed is reported if and only if Ray calls the application failed or unhealthy, or it is starting up with an unhealthy deployment or a failed download |
| `EndpointStatus.DownloadingReported` | internal/orchestrator/ray_orchestrator.go:621-650 | ModelDownloading is reported if and only if the application is starting up with markers neither done nor failed |
| `EndpointStatus.DeployingReported` | internal/orchestrator/ray_orchestrator.go:653-756 | Deploying is reported if and only if an expected application is not listed, a paused one still is, it runs behind unhealthy proxies, is in a state Ray does not tell apart, or starts up with its download done |
| `EndpointStatus.WithdrawnReported` | internal/orchestrator/ray_orchestrator.go:653-712 | Deleted, Deleting and Paused are reported exactly as deletion, pause and the listing say |
| `EndpointStatus.HashReported` | internal/orchestrator/ray_orchestrator.go:601-650 | the model's hash is reported if and only if the endpoint runs, its start-up has the download done, or it was stored and nothing starts up; the empty one if and only if a start-up lacks the download |
| `EndpointStatus.EndpointRow.UpdateStatus` | controllers/endpoint_controller.go:292-331 | a written status keeps stored URL, resources and hash where the new one omits them |
| `EndpointStatus.EndpointRow.ShouldUpdate` | controllers/endpoint_controller.go:225-263 | an update is due exactly when the prepared status differs from the stored one |
| `EndpointStatus.EndpointRow.Settle` | controllers/endpoint_controller.go:100-198 | one reconcile leaves the status `Next` gives, with at most one write and none when nothing changes |
| `EndpointStatus.CompletionIsBacked` | internal/orchestrator/ray_orchestrator.go:601-650 | in every run, a stored completion hash that was not there at an earlier moment is backed by an observation in between, with that model hash, that was Running or had every backend marker Done |
| `EndpointStatus.IncompleteClears` | internal/orchestrator/ray_orchestrator.go:611-650 | an observation of an incomplete start-up stores the empty hash, whatever was stored |
| `EndpointStatus.HashMoves` | controllers/endpoint_controller.go:292-331 | every event sets the stored completion hash, empties it or leaves it, each under its exact condition |
| `EndpointStatus.UrlIsOfRunning` | controllers/endpoint_controller.go:145-223 | the stored service URL changes only to the one that comes with an observation stored as Running, and stays through every other event |
| `EndpointStatus.StreakStartsServing` | internal/orchestrator/ray_orchestrator.go:653-756 | in every run, each streak of stored Running begins with an observation of RUNNING behind healthy proxies |
| `EndpointStatus.PauseEndsStreak` | controllers/endpoint_controller.go:145-223 | a paused or deleted endpoint loses Running at its next readable reconcile that is stored |
| `StaticRows.CascadeMarksAll` | controllers/static_node_cluster_controller.go:165-189 | with enough writes every listed node ends up marked for deletion, with the force annotation exactly if it or the cluster carried it, and no other row or field changes |
| `StaticRows.MarkingExactly` | controllers/static_node_cluster_controller.go:165-189 | a node is written exactly when it does not already carry the marks the cluster demands |
| `StaticRows.CascadeFrame` | controllers/static_node_cluster_controller.go:139-192 | a cascade cut short by a failing write never unmarks a node, never takes an annotation away and changes only listed nodes |
| `StaticRows.PutNodesEffect` | controllers/static_node_cluster_controller.go:101-112 | upserting a plan leaves a live row per planned name, keeps names unique and leaves every row of another name as it was |
| `StaticRows.AdoptsIff` | controllers/static_node_helpers.go:13-53 | a plan can be put in place if and only if no row that holds one of its names belongs to another cluster |
| `StaticRows.PrunesEffect` | controllers/static_node_cluster_controller.go:114-126 | pruning adds the deletion mark to exactly the listed rows outside the plan, keeping their annotations |
| `StaticRows.Storage.ReconcileSncDelete` | controllers/static_node_cluster_controller.go:139-192 | the row is removed exactly when no node is listed and the write succeeds, and then no status is written; otherwise the nodes are those of the cascade, and the reconcile succeeds exactly when its status is stored and every listed node carries the marks demanded |
| `StaticRows.Storage.ReconcileNodeDelete` | controllers/static_node_controller.go:209-256 | a node row goes only after a successful remote cleanup or under the force annotation |
| `StaticRows.Storage.UpsertNode` | controllers/static_node_helpers.go:13-53 | succeeds exactly when the write does and no row of another owner holds the name; then a live row of that name and owner exists, and no row of another name changes in any case |
| `StaticRows.Storage.PruneUnplanned` | controllers/static_node_cluster_controller.go:114-126 | every listed node that is not planned ends up marked for deletion, planned and unlisted ones unchanged; it stops exactly at the first write that is due and fails, after a prefix of the list |
| `StaticRows.Storage.ReconcileSncNormal` | controllers/static_node_cluster_controller.go:80-137 | with a failing plan nothing changes; otherwise the rows are those of the upserts and prunings done before the first failure, which is a failing write or a name held by another cluster; on success the cluster has a live row for each planned name and all its other rows are being deleted, rows of other clusters under other names are untouched, and the reconcile succeeds exactly when planning, every write, the second listing and the status write do |
| `StaticLifecycle.InvStep` | controllers/static_node_cluster_controller.go:63-192 | every step of the three controllers keeps the ownership invariant: an owned node implies the StaticNodeCluster row, and a listing covers the nodes owned now |
| `StaticLifecycle.CleanedStep` | controllers/static_node_controller.go:209-256 | without the force annotation, a node reaches removal only within a reconcile in which its cleanup succeeded |
| `StaticLifecycle.DeletedMeansCleanedUp` | controllers/cluster_controller.go:152-202 | in every run without the force annotation, a cluster marked Deleted has no StaticNodeCluster row and no StaticNode row, and every removed node row was removed by a reconcile in which its remote cleanup had succeeded |
| `StaticLifecycle.RemovedAfterCleanup` | controllers/static_node_controller.go:209-256 | in every such run each removal of a node row follows a successful cleanup of that node with no new reconcile of it in between |
| `StaticLifecycle.RemovedIsRecorded` | controllers/static_node_controller.go:209-256 | over any stretch of a run the node rows that disappear are exactly those a delete reconcile removed |
| `StaticLifecycle.FailureChangesNoRow` | controllers/static_node_helpers.go:13-99 | a call that fails, of whichever controller, changes no row |
| `StaticLifecycle.ClusterFollows` | controllers/cluster_controller.go:152-202 | once its StaticNodeCluster row is gone a deleted cluster's row is removed by two reconciles, one if Deleted is already stored, and nothing else changes |
| `StaticRefinement.NodeDeleteIsRun` | controllers/static_node_controller.go:209-256 | each outcome of a node's delete reconcile is a run of that reconcile's own steps in the interleaved machine |
| `StaticRefinement.SncDeleteIsRun` | controllers/static_node_cluster_controller.go:139-192 | in whatever order the nodes are listed and wherever the writes stop, the rows a delete reconcile leaves are those of an uninterrupted run of the interleaved machine |
| `StaticRefinement.SncNormalIsRun` | controllers/static_node_cluster_controller.go:80-137 | wherever upserting or pruning stops, the rows a normal reconcile leaves are those of an uninterrupted run of the interleaved machine |
| `StaticDeletion.OrderTakesHold` | internal/cluster/static_ray_cluster.go:94-123 | in every run, the reconcile of a deleted cluster leaves its StaticNodeCluster row marked for deletion, with the force annotation exactly if the cluster or the row carried it |
| `StaticDeletion.WayStep` | controllers/static_node_cluster_controller.go:139-192 | every step of any controller, failing or not, other than the one that takes the demand back, keeps a deletion on its way or finishes it, adds no node and loses no mark |
| `StaticDeletion.UndoneExactly` | internal/cluster/static_ray_cluster.go:67-75 | a deletion is lost by exactly one kind of step: a recreated cluster's reconcile that found the old row and writes it as desired |
| `StaticDeletion.CascadeCompletes` | controllers/static_node_cluster_controller.go:139-192 | a reconcile of a marked row that completes leaves every node marked for deletion, forced if the row is, or the deletion finished |
| `StaticDeletion.SweepClears` | controllers/static_node_controller.go:209-256 | once all nodes are marked, reconciling those that remain removes them, under force even if every remote cleanup fails |
| `StaticDeletion.DeletionFinishes` | controllers/static_node_helpers.go:55-99 | from any state whose row is marked, one completed reconcile of the row, one of each remaining node and one more of the row lead through a state with neither row nor nodes: under the force annotation whatever cleanups return, without it if the cluster's cleanups succeed; whatever fails elsewhere and however other reconciles interleave, recreation included as long as it does not write the row back before |
| `StaticDeletion.StaysFinished` | internal/cluster/static_ray_cluster.go:57-65 | a finished deletion stays finished until a cluster of that name is applied again |
| `StaticDeletion.RemainingFalls` | controllers/static_node_cluster_controller.go:139-192 | row present, nodes left and nodes unmarked never grow in sum and shrink with every effective step |
| `StaticDeletion.EffortIsBounded` | controllers/static_node_cluster_controller.go:139-192 | up to the end of the deletion no run has more effective steps than there was to do at its start, failing storage calls included |
| `StaticDeletion.OrphanIsReachable` | controllers/cluster_controller.go:152-202 | creating a cluster, deleting it by force and letting its reconciles run leads from an empty store to a forced deletion whose Cluster row is already gone |
| `StaticDeletion.RecreationRevivesRow` | internal/cluster/static_ray_cluster.go:41-75 | from that reachable state, creating the cluster anew leads to the step that takes the demand back and leaves the row unmarked |
| `ClusterPhase.CleanForgetsCredentialsOnly` | internal/cluster/spec_hash.go:15-47 | two specs are the same to the hash if and only if they differ in credentials at most |
| `ClusterPhase.PhaseIff` | internal/cluster/cluster_status.go:14-44 | Running, Initializing, Upgrading, Updating and Failed each with its exact condition on readiness, initialization, versions and spec hash |
| `ClusterPhase.SentIsSound` | internal/cluster/cluster_status.go:14-35 | every status sent keeps the initialized flag, shows Initializing only without it and Updating only for a changed spec |
| `ClusterPhase.InitializedNeverReverts` | controllers/cluster_controller.go:206-261 | in every run a stored Initialized stays while the row exists |
| `ClusterPhase.InitializingComesFirst` | internal/cluster/early_status.go:15-70 | in every run no reconcile sends Initializing once Initialized has been stored |
| `ClusterPhase.ObservedHashIsLastRunning` | controllers/cluster_controller.go:206-261 | in every run the stored spec hash is empty before the first stored Running and afterwards the hash of the effective spec at the last one |
| `ClusterPhase.UpdatingMeansChanged` | internal/cluster/cluster_status.go:14-35 | in every run Updating is sent only for a spec that differs from the one that last ran in more than credentials |
| `ClusterPhase.ChangedSpecIsUpdating` | controllers/cluster_controller.go:206-261 | in every run a failing reconcile of an initialized cluster with nothing to upgrade sends Updating if the spec's hash differs from that of the spec that last ran and Failed if it does not |
| `ClusterPhase.PhasesAreEarned` | controllers/cluster_controller.go:152-261 | in every run Running is sent only after a successful reconcile, Upgrading decided only on a version difference, Deleted only after cleanup or by force |
| `ClusterPhase.DeletionIsRemoved` | controllers/cluster_controller.go:152-202 | a deletion ends exactly with a reconcile that cleaned up or was forced: its stored status leads the next one to removal, any other to another try |
| `ClusterPhase.UsersAreFree` | controllers/cluster_controller.go:74-94 | a spec edit or a deletion is possible at any time and is what the next reconcile works on |
| `ClusterPhase.BackfillIsNoUpgrade` | controllers/cluster_controller.go:74-94 | backfilling the version of a legacy cluster never makes it look in need of an upgrade |
| `ClusterPhase.Controller.BeginSync` | controllers/cluster_controller.go:74-94 | the copy a reconcile works on is the row with the default version filled in and a missing status version backfilled; the row itself is not written |
| `ClusterPhase.Controller.WriteEarlyStatus` | internal/cluster/early_status.go:15-35 | sends the decided phase if it is Initializing, Updating or Upgrading and new to the copy, and otherwise leaves copy and row alone, as the run results assume of this step |
| `ClusterPhase.Controller.WriteRecoveryStatus` | internal/cluster/early_status.go:41-52 | turns a Running copy into Failed and sends it, and leaves every other copy and the row alone |
| `ClusterPhase.Controller.WriteEarlyDeleting` | internal/cluster/early_status.go:57-70 | sends Deleting once and keeps version, hash and initialized flag |
| `ClusterPhase.Controller.Initialize` | internal/cluster/ray_ssh_cluster.go:542-556 | sends Initializing for a copy that is not initialized and keeps its other fields |
| `ClusterPhase.Controller.LogProgress` | internal/cluster/ray_ssh_cluster.go:62-80 | sends the copy as it is during initialization and upgrade and at no other time |
| `ClusterPhase.Controller.UpdateClusterStatus` | controllers/cluster_controller.go:206-261 | the status rebuilt field by field is the copy's with the decided phase, and with the hash of the effective spec when Running; the history of the last stored Running is kept with it |
| `JsonTree.StripEqualIsSameKept` | internal/util/json.go:55-84 | two documents normalise alike if and only if every name keeps the same normalised value |
| `JsonTree.TidyStays` | internal/util/json.go:55-84 | a document without null or empty-object members at any depth, arrays included, is its own normal form |
| `JsonTree.StripTidies` | internal/util/json.go:55-84 | every normal form is such a document, so normalising twice is normalising once |
| `JsonTree.MergeSilentIff` | internal/util/json.go:86-108 | a patch without nulls changes nothing if and only if it is found inside the document, arrays and scalars equal |
| `JsonTree.MergeIdempotent` | internal/util/json.go:86-108 | patching twice with the same patch is patching once |
| `JsonTree.MergeRespectsKept` | internal/util/json.go:86-108 | targets that normalise alike patch to results that normalise alike |
| `PluginSync.PayloadStripsLikeMerge` | internal/gateway/kong.go:531-581 | the explicit top-level nulls left in the payload change nothing once normalised |
| `PluginSync.NeedsWriteIff` | internal/gateway/kong.go:549-578 | for every stored config an update is sent if and only if some desired member is not found in what normalisation leaves of it, arrays compared whole |
| `PluginSync.SecondSyncIsSilent` | internal/gateway/kong.go:531-581 | if the gateway holds something that normalises like what was sent, the next sync of the same config sends nothing, for every earlier and every desired config |
| `PluginSync.MergingGatewaySettles` | internal/gateway/kong.go:531-581 | on a merge-patching gateway the next sync finds what was sent, and sends nothing, if and only if no nested null of the desired config met a stored member |
| `PluginSync.ReplacingSyncConverges` | internal/gateway/kong.go:531-581 | on a gateway that stores what it is sent up to normalisation no plugin is written twice for one config, newly created ones included |
| `PluginSync.MergingSyncConverges` | internal/gateway/kong.go:531-581 | on a merge-patching gateway a second write happens if and only if the first sync wrote and a nested null met a stored member |
| `PluginSync.MergingSettlesIff` | internal/gateway/kong.go:531-581 | after any number of syncs of one config a merge-patching gateway has fallen silent if and only if no nested null met a stored member at the start; otherwise every sync writes |
| `PluginSync.NestedNullNeverSettles` | internal/gateway/kong.go:531-581 | a stored and a desired config on which every sync writes |
| `PluginSync.NullFreeIsNeverStale` | internal/gateway/kong.go:531-581 | a value with no null inside an object never meets that condition |
| `PluginSync.GeneratedSettles` | internal/gateway/kong.go:409-529 | every plugin config this code generates settles on a merge-patching gateway after one sync, whatever was stored before |
| `PluginSync.Kong.SyncPlugin` | internal/gateway/kong.go:531-581 | creates a missing plugin, updates a differing one with the merged payload, leaves an equal one and changes nothing on a failure |
| `PluginSync.Kong.SyncLimitPlugins` | internal/gateway/kong.go:273-307 | succeeds when no call fails; on success every desired plugin is synced and this consumer's other managed plugins are gone, in any order of iteration; a failing call leaves some desired plugins synced and, once all are, some stale ones pruned, and nothing else changed |
| `PluginSync.LimitSyncPrunes` | internal/gateway/kong.go:163-307 | after a sync the consumer's managed plugins are exactly the desired ones and every other plugin is untouched |
| `PluginSync.PruningResumes` | internal/gateway/kong.go:273-307 | pruning cut short by a failing call and finished later leaves what an uninterrupted one leaves |
| `PluginSync.ManagedIff` | internal/gateway/kong.go:163-170 | a plugin is managed if and only if it is named after some key by the access or the quota prefix |
| `PluginSync.LimitSyncEnforcesSpec` | internal/gateway/kong.go:176-238 | after a sync the consumer has an access plugin exactly when an access limit is active, keys without limits included, and it is the key's own; its stored disabled, allowed_models, concurrency and rate_limits agree with the current spec for every earlier config and either kind of gateway, and other config members keep their values |
| `PluginSync.ChangedLimitIsSent` | internal/gateway/kong.go:531-581 | the sync of an access plugin writes if and only if the stored config does not enforce the key's limits |
| `PluginSync.RatesReadBack` | internal/gateway/kong.go:176-238 | the generated rate limits read back as the positive limits per second and per minute and as nothing for any other window |
| `PluginSync.ModelsReadBack` | internal/gateway/kong.go:176-238 | the generated list of models reads back as the key's list in order |
| `PluginSync.LimitedIffConfigDiffers` | internal/gateway/kong.go:176-238 | a key has an active access limit exactly when its config differs from that of a key without limits |
| `PluginSync.QuotaDesiredIff` | internal/gateway/kong.go:245-268 | the quota plugin is desired exactly for a positive token quota on a gateway set up for quotas, and nothing but access and quota plugins is ever desired |
| `DesiredFields.ContainsReflexive` | internal/deploy/manifest_apply.go:333-365 | every document satisfies itself |
| `DesiredFields.ContainsTransitive` | internal/deploy/manifest_apply.go:333-365 | satisfying what is satisfied is satisfying |
| `DesiredFields.ContainsAntisymmetric` | internal/deploy/manifest_apply.go:333-365 | documents that satisfy each other are equal |
| `DesiredFields.ContainsIffPaths` | internal/deploy/manifest_apply.go:333-365 | a live document satisfies a desired one if and only if at every path of names and indices it has a value of the same kind, arrays of the same length and scalars equal |
| `DesiredFields.EditedFieldIsDrift` | internal/deploy/manifest_apply.go:311-365 | an object has drifted as soon as one scalar it asks for, at any depth and inside arrays, is missing or different |
| `DesiredFields.OverlayContains` | internal/deploy/manifest_apply.go:333-365 | a recursive overlay satisfies what was applied and leaves all other members alone |
| `DesiredFields.PauseIsDrift` | internal/orchestrator/kubernetes_orchestrator.go:421-448 | a paused deployment still satisfies its manifest if and only if the manifest asks for no replica count or for zero |
| `DesiredFields.ObjectKeyInjective` | internal/deploy/manifest_apply.go:426-432 | the joined key names one object only, since kind, namespace and name hold no slash |
| `ManifestApply.ComputeManifestDiff` | internal/deploy/manifest_apply.go:81-179 | exactly the objects the record does not vouch for are changed, exactly the recorded keys no longer desired are deleted |
| `ManifestApply.AddLiveDrifted` | internal/deploy/manifest_apply.go:250-309 | adds the objects that are missing or drifted, none twice, and fails only on an object it cannot read |
| `ManifestApply.Plan` | internal/deploy/manifest_apply.go:185-199 | exactly the diverging objects are to be sent |
| `ManifestApply.Deployer.ApplyManifests` | internal/deploy/manifest_apply.go:185-248 | an object reaches the server under every diverging key, and for lists that name each object once exactly the diverging objects do; when an apply fails some of them have, the failing one included if it took effect; failed deletes are passed over |
| `ManifestApply.Deployer.Apply` | internal/deploy/kubernetes_deployer.go:89-139 | the record is replaced exactly when something was sent or deleted and the write takes effect, acknowledged or not; an unreadable record counts as none |
| `ManifestApply.Deployer.DeleteRecorded` | internal/deploy/manifest_apply.go:367-423 | finished exactly when none of the objects examined was live, with a deletion requested for each that was not already terminating |
| `ManifestApply.Deployer.Delete` | internal/deploy/kubernetes_deployer.go:143-180 | the record is erased exactly by a pass that examined every object and found none |
| `DeployRuns.OverlayIsFaithful` | internal/deploy/manifest_apply.go:216-220 | a server that overlays what it is sent keeps every field it is sent |
| `DeployRuns.RunTracks` | internal/deploy/kubernetes_deployer.go:89-180 | in every run of applies and deletes with failing and unacknowledged calls and outside edits, for any desired lists, a managed object that is live is on record or leaked for a stated cause |
| `DeployRuns.SuccessCovers` | internal/deploy/manifest_apply.go:185-331 | a pass that reports success leaves each desired object live with its desired fields, whatever faults it swallowed |
| `DeployRuns.PassKeepsDeletion` | internal/deploy/manifest_apply.go:185-248 | a pass starts the deletion of withdrawn objects only and cancels none |
| `DeployRuns.OnlyFaultsFail` | internal/deploy/manifest_apply.go:185-248 | a pass fails only on an object it could not read or apply |
| `DeployRuns.ApplySettles` | internal/deploy/kubernetes_deployer.go:89-139 | in every run, a successful apply of a list that names each object once, with its record read and written, leaves the record naming exactly the desired keys, the managed live objects the desired ones plus at most the leaked, each covered |
| `DeployRuns.FlawlessLeaksNothing` | internal/deploy/kubernetes_deployer.go:89-139 | nothing leaks in a run whose applies meet no fault |
| `DeployRuns.FlawlessApplyIsExact` | internal/deploy/kubernetes_deployer.go:89-139 | in every such run the managed live objects after an apply are exactly the desired list's keys, each with its desired fields, and the record has the same keys |
| `DeployRuns.QuietIff` | internal/deploy/manifest_apply.go:250-331 | with the list on record, a pass writes nothing if and only if every desired object is live with its desired fields, and otherwise sends those that are not |
| `DeployRuns.SecondApplyIsSilent` | internal/deploy/manifest_apply.go:185-309 | applying the same list again writes nothing |
| `DeployRuns.EditIsUndone` | internal/deploy/manifest_apply.go:250-331 | an outside edit of any scalar the manifest asks for makes the next successful pass send the object, which then has that scalar again |
| `DeployRuns.PauseIsUndone` | internal/orchestrator/kubernetes_orchestrator.go:421-448 | the next apply sends a paused deployment whose manifest asks for replicas and restores it |
| `DeployRuns.ErasedOnlyWhenGone` | internal/deploy/kubernetes_deployer.go:143-180 | in every run a record is erased only by a delete pass that asked for all of its objects and found none |
| `DeployRuns.RecordSurvives` | internal/deploy/kubernetes_deployer.go:143-180 | while each delete pass sees a recorded object live or cannot read one, the record survives |
| `DeployRuns.DeleteRetries` | internal/deploy/manifest_apply.go:367-423 | a pass that reads everything leaves each recorded object gone, terminating or refused, and erases the record if and only if none was live and erasing works |
| `ResourceTotals.Product.Add` | internal/resource/resource_client.go:160-181 | quantity and virtualization amounts are added into the target's own objects, creating them where missing |
| `ResourceTotals.Group.Add` | internal/resource/resource_client.go:143-182 | every number of the group is the sum of target and source, and only the target's own objects are written |
| `ResourceTotals.Info.MergeGroups` | internal/resource/resource_client.go:131-184 | every number under every accelerator type is the sum, types only the source has included, and the target stays a tree of its own objects |
| `ClusterTotals.BuildClusterResources` | internal/resource/resource_view_builder.go:74-116 | every CPU, memory, type, product and virtualization reading of both totals is the sum over the nodes, in objects that are all new, beside the nodes' own records; nothing that existed is written |
| `ClusterTotals.SumPermutes` | internal/resource/resource_view_builder.go:92-113 | each sum is the same for every order of the nodes |
| `ClusterTotals.TotalsPermute` | internal/resource/resource_view_builder.go:92-113 | two totals built over the same nodes in different orders read the same everywhere |
| `ClusterTotals.NodeMapHolds` | internal/resource/resource_view_builder.go:112-112 | with distinct IDs the node map holds exactly the nodes that have a record |
| `ClusterTotals.NodeMapPermutes` | internal/resource/resource_view_builder.go:112-112 | with distinct IDs the node map does not depend on the order |
| `AcceleratorMetadata.MergeMetadata` | internal/resource/resource_client.go:186-216 | what the target already says about a product stays and everything else is taken over, in any order of iteration |
| `AcceleratorMetadata.MergeNode` | internal/resource/resource_view_builder.go:97-111 | merging a node's up to three records in their fixed order adds what the first of them says about each product |
| `AcceleratorMetadata.Detach` | internal/resource/resource_client.go:110-129 | detaching leaves a node one record with the opinion its two records had together |
| `AcceleratorMetadata.Collect` | internal/resource/resource_view_builder.go:92-113 | the cluster's entry for each product is the merge of the nodes' opinions in order, nodes without a status passed over |
| `AcceleratorMetadata.MergedIsFirst` | internal/resource/resource_client.go:204-214 | an entry is the opinion of the first node that has one, and there is none exactly when no node has one |
| `AcceleratorMetadata.OrderIsFreeIffAgree` | internal/resource/resource_view_builder.go:92-113 | unlike the totals, metadata is the same for every order of the nodes if and only if no two nodes hold different opinions on a product |
| `AcceleratorMetadata.OwnRecordsMayDiffer` | internal/resource/resource_view_builder.go:97-111 | a node whose own records differ still has one opinion, so it does not make the order matter |
| `DeviceAccounting.StaticUsage` | internal/resource/static_node_resource_client.go:493-517 | a device has an entry exactly when some allocation names it, holding the sum of all that do |
| `DeviceAccounting.KubernetesUsage` | internal/resource/kubernetes_resource_client.go:449-474 | the same over the pods whose annotation parses |
| `DeviceAccounting.Left` | internal/resource/static_node_resource_client.go:682-688 | what is left is never negative, makes up the capacity together with the use if and only if that fits, and is zero when it does not |
| `DeviceAccounting.StaticConserves` | internal/resource/static_node_resource_client.go:567-583 | free and used make up the capacity if and only if the use fits, an unnamed device is all free, one named with 0/0 all taken, an unhealthy one offers nothing |
| `DeviceAccounting.KubernetesConserves` | internal/resource/kubernetes_resource_client.go:489-498 | free and used make up the capacity if and only if the use fits, with all core units where the device states none |
| `DeviceAccounting.StaticFreeWithinCapacity` | internal/resource/static_node_resource_client.go:560-583 | free is within capacity if and only if neither capacity nor use is negative |
| `DeviceAccounting.KubernetesFreeWithinCapacity` | internal/resource/kubernetes_resource_client.go:489-503 | free is within capacity if and only if neither capacity nor use is negative |
| `DeviceAccounting.AddDevice` | internal/resource/kubernetes_resource_client.go:570-593 | counts one device and its pool under its product and changes no other number of the group |
| `DeviceAccounting.CountsAreExact` | internal/resource/resource_client.go:47-49 | the allocatable side counts exactly the healthy devices, the available side exactly those with both memory and cores left |
| `DeviceAccounting.UsedUpOffersNothing` | internal/resource/resource_client.go:47-49 | if every device has used up one of its dimensions nothing is offered |
| `DeviceAccounting.BuildStaticResources` | internal/resource/static_node_resource_client.go:223-256 | each device with a UUID gets the pools its summed allocations give; the group totals count exactly the healthy devices, on the free side those with memory and cores both positive, and a group exists exactly if it counts a device |
| `DeviceAccounting.BuildKubernetesResources` | internal/resource/kubernetes_resource_client.go:476-548 | the same for the Kubernetes backend, where both groups exist from the start |
| `DeviceAccounting.CompleteQuantity` | internal/resource/static_node_resource_client.go:338-409 | with a dashboard record of the type the quantities become its own, the product's taken from its product count, else the product entry, else the type; a group is created if no device was counted, every device amount stays, and without such a record nothing changes |
| `DeviceAccounting.ReplaceGroup` | internal/resource/kubernetes_resource_client.go:613-645 | every product either group names ends up with the device-level numbers, with zero where those have none, all other products stay, and the two groups share no object |
| `DeviceAccounting.StaticSurveySound` | internal/resource/static_node_resource_client.go:186-269 | for non-negative amounts free is within capacity on each device and in the virtualization totals, and unhealthy devices contribute nothing |
| `DeviceAccounting.KubernetesSurveySound` | internal/resource/kubernetes_resource_client.go:476-548 | the same for the Kubernetes backend |
| `DeviceAccounting.KubernetesSurveyConserves` | internal/resource/kubernetes_resource_client.go:476-548 | over a whole node, free and allocated amounts on healthy devices are never less than the capacity the group reports, and equal it if and only if no device is promised beyond its capacity |
| `WorkerProvision.ObserveWorkers` | internal/cluster/ray_ssh_cluster.go:373-383 | the state of an address is the one listed last for a worker there |
| `WorkerProvision.LastStateIs` | internal/cluster/ray_ssh_cluster.go:373-383 | an address has a state if and only if its last worker listing shows it |
| `WorkerProvision.WhoIsStarted` | internal/cluster/ray_ssh_cluster.go:397-425 | a worker never or only half provisioned is started; a provisioned one is left alone while alive and otherwise started again exactly when its known provisioning time is at least the wait ago |
| `WorkerProvision.CollectStarts` | internal/cluster/ray_ssh_cluster.go:397-451 | each desired worker in need of a start is listed once and no other |
| `WorkerProvision.CollectStops` | internal/cluster/ray_ssh_cluster.go:429-445 | each provisioned worker that is no longer desired is listed once, the head never |
| `WorkerProvision.ListsCount` | internal/cluster/ray_ssh_cluster.go:429-451 | there are as many operations as workers that need one |
| `WorkerProvision.RunOperations` | internal/cluster/ray_ssh_cluster.go:458-497 | whatever order the operations finish in, each error slot tells the outcome of its own operation |
| `WorkerProvision.Cluster.ReconcileWorkerNode` | internal/cluster/ray_ssh_cluster.go:350-540 | the provision map is the one the starts, stops and failures determine, and an error is returned exactly when some operation failed or the inputs could not be read |
| `WorkerProvision.PassIsSound` | internal/cluster/ray_ssh_cluster.go:499-520 | for every pattern of failures each desired worker is held, an undesired one is kept if and only if its stop failed, and a started one is marked provisioned if and only if its start succeeded |
| `WorkerProvision.HeadIsLeftAlone` | internal/cluster/ray_ssh_cluster.go:437-451 | a head entry is left as it is if and only if the head is not started as a worker |
| `WorkerProvision.CleanPassConverges` | internal/cluster/ray_ssh_cluster.go:437-540 | a pass without failures leaves exactly the desired workers, and repeating it at once starts and stops nothing |
| `WorkerProvision.FailuresAreRetried` | internal/cluster/ray_ssh_cluster.go:393-451 | the next pass retries every failed start and exactly the failed stops |
| `EngineMerge.MergeAssociative` | internal/util/engine.go:5-86 | merging definitions one after the other or merging their merge gives the same engine |
| `EngineMerge.MergeIdempotent` | internal/util/engine.go:5-86 | merging the same definition again changes nothing |
| `EngineMerge.MergeKeepsOrder` | internal/util/engine.go:5-40 | existing versions keep their places, names stay distinct and are those of both sides |
| `EngineMerge.MergeTakesOver` | internal/util/engine.go:42-86 | in a version both sides have, everything new is taken over and whatever the new definition does not mention stays |
| `EngineSync.EngineVersion.MergeFrom` | internal/util/engine.go:42-86 | the in-place loops leave the existing version as the merge of both and the new one untouched |
| `EngineSync.MergeEachIsMerge` | internal/util/engine.go:6-22 | going through the new versions one by one, patching the first match or appending, amounts to the merge |
| `EngineSync.Engine.MergeVersionsIn` | internal/util/engine.go:6-22 | the in-place loop leaves the merge, writes only its own version objects although unmatched ones are shared, and leaves the new definition untouched |
| `EngineSync.Engine.MergeEngine` | internal/util/engine.go:5-40 | the same for the whole engine, supported tasks included |
| `EngineSync.StoredMerge` | controllers/workspace_controller.go:200-223 | merging into what storage kept serialises like merging into the original |
| `EngineSync.StoredEqualIff` | controllers/workspace_controller.go:200-223 | specs are stored alike if and only if they say the same, a missing and an empty schema being no difference |
| `EngineSync.SentIffNew` | controllers/workspace_controller.go:171-223 | a sync sends something if and only if there is no row or the merge says something the row does not, and afterwards the row says what the merge says |
| `EngineSync.SecondSyncIsSilent` | controllers/workspace_controller.go:171-223 | a row written by a sync is left alone by the next sync of the same definition, created rows included |
| `EngineSync.SecondWorkspaceSyncIsSilent` | controllers/workspace_controller.go:150-169 | after a successful workspace sync the next one sends nothing for any engine of the registry |
| `EngineSync.TargetDistinct` | controllers/workspace_controller.go:171-223 | rows keep distinct version names, so every later sync may rely on them |
| `EngineSync.Workspace.CreateOrUpdateEngine` | controllers/workspace_controller.go:171-223 | creates a missing row, updates one the merge changes, writes nothing otherwise, and succeeds exactly when the calls it needs do |

## Left out

- Ray, vLLM, SGLang and Kubernetes manifest rendering, image names and environment assembly: text building without a deep invariant.
- The staticcluster and staticnode packages (planner, aggregator, component reconciler): not part of this model; a plan is any list of names, a component reconcile succeeds or fails.
- Role, role assignment, OEM, image registry and model registry controllers, API key decryption, middleware and HTTP clients: they would only add easy members.
- Endpoint instance summaries and display orders of devices (internal/resource/resource_view_builder.go:118-208): sums like those modelled, without new difficulty.
- Log text, error message wording, transition times and wall-clock waits other than the provisioning wait.
- JSON numbers are reals and library-specific pruning of nulls inside arrays of objects by the merge-patch library is not modelled; RFC 7396 leaves arrays alone.
- A last-applied record that does not parse: only the deployer writes records, and it writes well-formed ones.
- ManifestApply.Deployer.ApplyManifests: of a desired list that names an object twice it says which keys are sent, not which of the two contents wins.
- PluginSync.Kong.SyncPlugin: a gateway call that fails has no effect on the gateway.
- ManifestApply.Deployer.Apply: treats server-side apply as a parameter; the run results assume it keeps the fields it is sent and that mutators leave desired fields as they are.
- DeviceAccounting.ReplaceGroup: covers one accelerator type; types that only one side has are left as they are by the code.
- AcceleratorMetadata.MergeMetadata: on values; the code allocates a new entry per product, so nothing is shared there either.
- DeviceAccounting.BuildStaticResources: starts after the checks for a missing accelerator type, product or device list.
- StaticRows.Storage.ReconcileSncNormal: of a stored status it says only whether it is the failed, the deleting or the aggregated one; what the aggregator computes is not part of this model.
- StaticLifecycle.DeletedMeansCleanedUp: is about one workspace and about clusters of the static flow.
- ClusterPhase.Controller.UpdateClusterStatus: keeps of the status only what the phase machine reads: phase, initialized flag, version and spec hash.
- EngineSync.Workspace.CreateOrUpdateEngine: identifies nil and empty image and template maps; the deep copy taken before the merge is the row's value.
- WorkerProvision.Cluster.ReconcileWorkerNode: keeps the provision map as a map; its JSON text is represented only by whether it parses.
