# Verified model of yafu

yafu is a dashboard for FluxCD: a Go server that watches many Kubernetes clusters, and a
TypeScript front end. This project models the parts of it that carry state, concurrency or
algebra, and proves what they are there for. `dafny verify dfyconfig.toml` checks all of it.

## What is modelled

**The watch pipeline.** `Hub` is the publish/subscribe hub as a concurrent state machine. Every
goroutine has a program counter, and one action is one statement of one goroutine: take the
lock, send to one channel, delete from the map, release the lock, close the channel. The
`sync.Once`, the reader/writer lock and the 64-slot buffers are explicit, and the theorems are
about every interleaving of any number of publishers, subscribers and repeated unsubscribes.
The same module has the hub as an object with its methods. `Registry` is the map and order
slice of the cluster registry as an object, proved to be one insertion-ordered dictionary.
`Reconciler` is the reuse, rebuild or drop decision of the cluster controller, `Watchers` the
watch manager's `sync`, and `Pipeline` puts the three together and proves properties of all
runs of reconciles and syncs. `Conditions` is the condition list of a Cluster's status, and
`ClusterStatuses` what the controller's rounds make of it.

**The rendered diff.** `ObjectTree` has Kubernetes objects as mutable heap trees of maps and
slices, with the deep copy and the pruning in place. `RenderDiff` classifies rendered against live objects,
models what carrying out each row does to the cluster, and proves exactly when a second diff then
finds nothing to do. `Hunks` turns opcodes into numbered lines.

**The dependency graph.** `DepGraph` builds the graph by string-keyed indexes and proves it equal
to a plain join; `GraphFilter` is the filter of the page that shows it.

**Fan-out and truncation.** `FanOut` is the worker, channel and closer pattern of the list
handlers, `Inventory` the pattern of the inventory handlers with its 16-slot semaphore, both as
state machines over all schedules. `Events` sorts and cuts twice; `Timestamps` shows that
comparing the formatted strings compares the times.

**Streams and codecs.** `Debounce` is the debounced query invalidation with the browser's timers.
`Sse` writes Server-Sent Events and reads them back by the parser of section 9.2.6 of the WHATWG
HTML Standard. `Cookie` is the signed cookie over unpadded base64url (section 5 of RFC 4648).
`YamlStream` splits a YAML stream into documents.

`Text`, `Sorting`, `Indices` and `Wrappers` are what the others rest on.

Code that works step by step is a method with loops, or a class whose methods update its fields.
Each is proved against a specification function or relation, and the lemmas are about that
specification. Calls into code that is not part of the repository are parameters: the YAML
marshaller and decoder, the line matcher (by its contract, with a matcher that meets it), the
MAC, string collation, `trim` and `toLowerCase`. Authorisation is a pure predicate on a cluster
name. Which keys an API server takes for one object, and what an object reads as under another
version than it was written in, are arbitrary functions. Fetches are arbitrary results: an object,
not found, or another error. Clock readings are inputs of the step that makes them.

## Where the code differs from what it says

- The comment on `keyOf` (internal/render/diff.go:28-32) speaks of normalising versions. The code
  does not, and neither does the model: keys are the raw group, version, kind, namespace and name.
- The comment on `DiffResources` (internal/render/diff.go:65-68) promises status `unknown` for fetch
  errors other than not found. The code gives `render-error` for a rendered object, and for an
  inventory entry a row that still says `delete`, with the error beside it. The model follows the code.
- `splitYAMLStream` is described as splitting on `---` lines (internal/render/kustomize.go:105-108). It
  splits at every line that starts with three dashes, and keeps the rest of that line as the
  start of the next document. `YamlStream.SplitIsByLines` states this exactly.
- A copied nil list becomes an empty list (internal/render/diff.go:222-227), so the copy is not always
  equal to the original: `ObjectTree.CopyIsEqual` has the exact condition.
- A log line with a carriage return inside does not reach the browser as it was
  (`Sse.CarriageReturnIsLost`; `Sse.StreamRoundTrip` has the exact condition).
- Opcodes that merely tile both texts may show a change between equal texts
  (`Hunks.TilingAloneMayShowNoChange`); with a matcher that matches equal texts as equal they do not.
- When credentials or the client build fail, the controller does not touch `FluxInstalled`, which then
  stays what an earlier generation left (`ClusterStatuses.FluxInstalledMayBeStale`;
  `ClusterStatuses.FluxInstalledIsCurrent` has the exact condition).
- Keys carry the version, but the API server serves one object under every version. When a manifest
  moves to another version while the inventory still lists the old one, the diff shows the same
  object as in sync and as extra, and pruning the extra row removes what is rendered
  (`RenderDiff.VersionMoveNeverSettles`; `RenderDiff.DiffConvergesFully` has the exact condition).
- `splitYAMLStream` cuts before the line break that ends a document, so every document but the last
  loses its last line break. A manifest that ends with a literal block scalar then reads differently
  (`YamlStream.LastBlockIsAltered`; `YamlStream.RenderedObjectsSurvive` has the exact condition).
- An object without a metadata map shows as drifted once the server has added metadata of its own
  (`RenderDiff.NoiseIsInvisible` has the exact condition).

## Model

| member | source | states |
|---|---|---|
| Hub.NeverTouchesClosedChannel | internal/watch/hub.go:45-75 | In every interleaving of any number of publishers, subscribers and repeated unsubscribes, no event is sent on a closed channel and no channel is closed twice; nobody is ever one step away from it |
| Hub.DeliveryIsExact | internal/watch/hub.go:45-75 | In every run, received followed by buffered is exactly what was accepted; a buffer never exceeds 64; one publisher's events keep their order and none is accepted twice; a drop happens only at a full buffer |
| Hub.PublishReachesEverySubscriber | internal/watch/hub.go:66-75 | When Publish releases the lock, each registered subscriber has accepted the event or had a full buffer at its turn |
| Hub.NothingAfterClose | internal/watch/hub.go:42-60 | Once a channel is closed it stays closed and unregistered, and accepts nothing more |
| Hub.UnsubscribeCloses | internal/watch/hub.go:50-58 | In every interleaving, when a call of an unsubscribe closure has returned the channel is closed and no longer registered, whichever call ran the closure's body |
| Hub.SubscribeRegisters | internal/watch/hub.go:45-60 | In every interleaving, when Subscribe has returned its channel is a new one, registered and open for as long as nobody has entered its closure |
| Hub.PublisherNeverBlocks | internal/watch/hub.go:62-75 | A publisher inside its loop can always take its next step, however slow the subscribers are |
| Hub.NoDeadlock | internal/watch/hub.go:25-75 | While any goroutine is inside an operation some goroutine can go on, with no new call and no subscriber draining its channel; also when waiting writers keep new readers out |
| Hub.OperationsFinish | internal/watch/hub.go:45-75 | In every run there is a bound such that, once no new call begins, the operations in progress take at most that many steps, whatever is received in between, and nobody can go on if and only if every Publish, Subscribe and Unsubscribe has returned |
| Hub.OperationsEnd | internal/watch/hub.go:45-75 | Each step of an operation uses up one of the statements that its goroutine has left |
| Hub.SendLoop | internal/watch/hub.go:69-74 | The loop of Publish, uninterrupted, offers the message to exactly the registered channels not yet visited |
| Hub.PublishAlone | internal/watch/hub.go:66-75 | An uninterrupted Publish appends the event to exactly the registered channels that have room |
| Hub.SubscribeAlone | internal/watch/hub.go:45-60 | An uninterrupted Subscribe exists, and adds exactly one open, empty, registered channel |
| Hub.UnsubscribeAlone | internal/watch/hub.go:51-58 | An uninterrupted unsubscribe exists: it closes and unregisters exactly that channel and keeps its backlog; repeated it changes nothing |
| Hub.DrainAlone | internal/watch/hub.go:42-46 | A subscriber that goes on receiving gets its whole backlog, in order, closed or not |
| Hub.EventHub.Subscribe | internal/watch/hub.go:45-60 | Registers one new, empty, open channel and changes nothing else |
| Hub.EventHub.Unsubscribe | internal/watch/hub.go:51-58 | Removes and closes the channel, keeps its backlog; a second call changes nothing |
| Hub.EventHub.Publish | internal/watch/hub.go:66-75 | Every registered channel gets the event if it has room and is left alone otherwise |
| Registry.CRDRegistry.List | internal/cluster/registry_crd.go:20-30 | The values of the ordered dictionary, in insertion order |
| Registry.CRDRegistry.Get | internal/cluster/registry_crd.go:33-38 | Dictionary lookup |
| Registry.CRDRegistry.Set | internal/cluster/registry_crd.go:41-48 | Map and order slice together do one dictionary update: in place for a known name, at the end for a new one |
| Registry.CRDRegistry.Delete | internal/cluster/registry_crd.go:51-61 | Map and order slice together do one dictionary removal |
| Registry.PutUpdates | internal/cluster/registry_crd.go:41-48 | A put changes one key, adds it at most once, and keeps the other keys' values and order |
| Registry.PutKeepsPlaces | internal/cluster/registry_crd.go:41-48 | A new name goes to the end and a known one keeps its place |
| Registry.RemoveUpdates | internal/cluster/registry_crd.go:51-61 | A removal takes out one key and keeps the other keys' values and order |
| Registry.RemoveClosesUp | internal/cluster/registry_crd.go:55-60 | The entries behind the removed one move up in order |
| Reconciler.ClusterReconciler.Reconcile | internal/controllers/cluster_controller.go:53-133 | Decides reuse, rebuild or drop as specified on the registry before the call, builds at most one client, leaves the registry as the decision says, and makes exactly the setCondition calls of that outcome |
| Reconciler.ClusterReconciler.UpdateRegistry | internal/controllers/cluster_controller.go:56-110 | The part up to the probe: the registry, the number of clients built and the finding to report are functions of the registry before, the request and the fetches |
| ClusterStatuses.StoredConditions | internal/controllers/cluster_controller.go:76-140 | After any rounds, with stores that may fail, the stored conditions are those of the setCondition calls of the stored rounds, so all that ConditionsAfter says holds of them |
| ClusterStatuses.StatusSays | internal/controllers/cluster_controller.go:76-140 | Ready and Reachable tell of the last stored report and its generation, FluxInstalled of the last stored probe, whatever came before |
| ClusterStatuses.ReadyMeansReachable | internal/controllers/cluster_controller.go:128-130 | After any rounds a cluster that is Ready is Reachable, both conditions are there or neither, and both are of one generation |
| ClusterStatuses.FailureExplains | internal/controllers/cluster_controller.go:77-92 | A failure of the credentials or the client build is the reason of Reachable and Ready, with the error as the message |
| ClusterStatuses.ProbeExplains | internal/controllers/cluster_controller.go:217-252 | The reasons and messages of Reachable and FluxInstalled after a probe, text by text |
| ClusterStatuses.ReadyExplains | internal/controllers/cluster_controller.go:254-273 | The reason and message of Ready after a probe |
| ClusterStatuses.FluxInstalledIsCurrent | internal/controllers/cluster_controller.go:76-130 | After any rounds FluxInstalled is of Ready's generation if and only if there is no stored report, or the last one did not fail at the credentials or the client build, or it did so in the generation of the last stored probe |
| ClusterStatuses.ReachableMeansFluxCurrent | internal/controllers/cluster_controller.go:128-130 | While Reachable is true, FluxInstalled is that of the last stored report's own probe |
| ClusterStatuses.FluxInstalledMayBeStale | internal/controllers/cluster_controller.go:78-93 | Rounds at which it fails: FluxInstalled is true of an older generation while Reachable is false |
| Pipeline.RunInvariant | internal/controllers/cluster_controller.go:53-133 | Over any run of reconciles, deletions, syncs and shutdowns the registry is one duplicate-free dictionary filed under the entries' own names, and every watcher ever started is cancelled or the single running one for its name |
| Pipeline.SyncMirrorsRegistry | internal/watch/manager.go:68-101 | After a sync in any run, whatever was reconciled between its listing and its pass, the running names and clients are exactly those of the registry as it was listed |
| Pipeline.SyncIsCurrent | internal/watch/manager.go:73-100 | They are those of the registry as it is after the pass if and only if no name or client changed in between |
| Pipeline.ProbeCycleKeepsWatchers | internal/controllers/cluster_controller.go:65-110 | Reconciles that all reuse, before the next sync or while it is under way, leave it nothing to start or cancel |
| Pipeline.RebuildReplacesWatcher | internal/watch/manager.go:73-94 | A rebuild hands out a client that no watcher has, so the next sync, whatever is reconciled during it, starts a watcher with it and cancels the one before |
| Pipeline.SyncServes | internal/watch/manager.go:68-101 | A sync gives each name that it listed a watcher with the listed client and cancels a running one with another client |
| Pipeline.SyncStops | internal/watch/manager.go:95-100 | A name without an entry at the listing has no watcher after the sync, and the one it had is cancelled |
| Pipeline.ShutdownStopsAll | internal/watch/manager.go:103-110 | Shutting down in any run leaves nothing running and everything ever started cancelled |
| Pipeline.ReconcileTouchesOnlyItsCluster | internal/controllers/cluster_controller.go:53-110 | No reconcile changes another cluster's entry, the order of the others, or any watcher; a failed fetch of the Cluster object changes nothing |
| Pipeline.DeletedIsUnregistered | internal/controllers/cluster_controller.go:56-61 | In every run, after a reconcile that finds the Cluster object gone the registry has no entry of that name |
| Pipeline.DeletedLosesItsWatcher | internal/controllers/cluster_controller.go:56-61 | The next sync then has no watcher of that name running and has cancelled the one there was, whatever is reconciled during it |
| Pipeline.FoundIsRegistered | internal/controllers/cluster_controller.go:65-110 | In every run, what a reconcile makes of a found object's own entry: kept when it is of the same generation and at most 300 seconds old; else gone when credentials or clients fail; else an entry with a new client and the object's fields and defaults |
| Pipeline.FailedLosesItsWatcher | internal/controllers/cluster_controller.go:76-93 | When credentials or clients fail the next sync stops the cluster's watcher |
| Pipeline.FindingMeans | internal/controllers/cluster_controller.go:56-114 | What a reconcile reports: nothing without an object, a credentials failure before a client failure, and either only when the entry was not fresh; else the probe |
| Pipeline.ReusedClientIsFresh | internal/controllers/cluster_controller.go:65-73 | A client that is reused has the current generation and is at most 300 seconds old when chosen |
| Pipeline.RebuildsAreSpaced | internal/controllers/cluster_controller.go:22-27 | With a steady generation, a clock that does not go back and no failures, consecutive rebuilds of a client are more than five minutes apart |
| Pipeline.RebuildRate | internal/controllers/cluster_controller.go:65-107 | Then a span of T seconds sees at most 1 + T/300 rebuilds |
| Watchers.Manager.Sync | internal/watch/manager.go:68-101 | One pass leaves the manager as the specification says, for the list the registry gives at that time |
| Watchers.Manager.ShutdownAll | internal/watch/manager.go:103-110 | Cancels every running watcher and empties the map |
| Watchers.SyncResult | internal/watch/manager.go:68-101 | After a pass the running names are exactly the listed ones, each with the client listed last for it, and all other watchers are cancelled |
| Watchers.SyncKeeps | internal/watch/manager.go:75-78 | The very watcher that was running is kept if and only if its client is still the listed one |
| Watchers.SyncReplaces | internal/watch/manager.go:79-84 | A watcher whose client is no longer listed for its name is cancelled |
| Watchers.SyncFitting | internal/watch/manager.go:75-78 | A pass over a list that fits what is running changes nothing at all |
| Watchers.ShutdownCancelsAll | internal/watch/manager.go:103-110 | After shutdown every watcher ever started is cancelled |
| Conditions.ClusterStatus.SetCondition | internal/controllers/cluster_controller.go:188-215 | Updates the first condition of the type in place, or appends one; the transition time moves only with the status |
| Conditions.ConditionsAfter | internal/controllers/cluster_controller.go:188-215 | After any sequence of calls on an empty list: one condition per type ever set, in first-set order, with the last call's values, its transition time that of the call that began the final run of equal status |
| Conditions.DescribesStep | internal/controllers/cluster_controller.go:188-215 | One more call keeps that description true |
| ObjectTree.DeepCopyMap | internal/render/diff.go:207-216 | The copy of a map tree of any depth has the copied content and consists of new objects only |
| ObjectTree.DeepCopyValue | internal/render/diff.go:218-231 | The same for any value; scalars are kept as they are |
| ObjectTree.DeepCopyList | internal/render/diff.go:222-227 | The same for a slice; a nil slice gives an empty one |
| ObjectTree.CopyIsEqual | internal/render/diff.go:218-231 | A copy equals its original if and only if no nil slice occurs in it; a nil slice is not kept |
| ObjectTree.StripServerSideNoise | internal/render/diff.go:185-202 | Leaves its argument unchanged and returns a tree of new objects, sharing nothing with it, whose content is the cleaned content |
| ObjectTree.PruneMetadata | internal/render/diff.go:187-199 | Deleting in place removes the seven fields from the metadata map and nothing else from the tree |
| ObjectTree.StripRemovesExactly | internal/render/diff.go:185-202 | A path has its value after stripping if and only if it leads neither into `status` nor into one of the seven metadata fields |
| ObjectTree.StripFieldByField | internal/render/diff.go:185-202 | By name: `status` and the metadata fields managedFields, uid, resourceVersion, generation, creationTimestamp, selfLink and finalizers go; every other field keeps its value, labels and annotations included |
| ObjectTree.CleanedIdempotent | internal/render/diff.go:175-202 | Stripping twice is stripping once |
| RenderDiff.ClassifyOne | internal/render/diff.go:121-164 | The row of one rendered object: missing, error, in sync or drifted, with action and hunk |
| RenderDiff.ClassifyMeans | internal/render/diff.go:121-164 | From what the cluster holds: when a row is an error, missing, in sync or drifted, with its action and error text; the hunk of a drifted row spells the rendered text as desired and the live text as live |
| RenderDiff.DiffResources | internal/render/diff.go:69-118 | A sorted arrangement of the rows of all rendered objects and of the inventory entries that are not rendered and not known to be gone |
| RenderDiff.DriftedRowsShowTheDrift | internal/render/diff.go:155-163 | Every drifted row of a response is of a rendered and fetched object, and its hunk spells both texts the right way round |
| RenderDiff.ExtraRowsStatus | internal/render/diff.go:86-104 | Every extra row is extra-on-cluster with delete, and carries the fetch error if there is one |
| RenderDiff.RowsInOrder | internal/render/diff.go:107-116 | The rows are by kind, then namespace, then name |
| RenderDiff.NoiseIsInvisible | internal/render/diff.go:175-202 | What the server adds on its own is invisible to the comparison if and only if the object has a metadata map or nothing was added to the metadata |
| RenderDiff.DiffConverges | internal/render/diff.go:69-164 | When what is written last to each rendered object reads as it should, and no inventory entry names a rendered object by a key that is not rendered, carrying out the rows in whatever order and diffing again leaves nothing to do: every rendered object that can be fetched is in sync, and extra rows are those of failing fetches |
| RenderDiff.DiffConvergesExactly | internal/render/diff.go:33-118 | Applying first and pruning afterwards, nothing is left to do if and only if those two conditions hold, failing fetches and a server that converts between versions included |
| RenderDiff.DiffConvergesFully | internal/render/diff.go:33-118 | When every fetch works, for every order of carrying out: the second diff is exactly one in-sync row per rendered object if and only if those two conditions hold |
| RenderDiff.OneKeyConverges | internal/render/diff.go:33-118 | The usual case, with metadata maps and no object rendered under two keys: the second diff is all in sync if and only if rendered objects with one key read the same and no inventory entry names a rendered object by another key |
| RenderDiff.CompatibleWrites | internal/render/diff.go:144-158 | When each rendered object, once written, reads as it should under every rendered key that names it, the last writes read as they should in every order |
| RenderDiff.TwoKeysSettle | internal/render/diff.go:28-39 | An object rendered under two keys is in sync under both, in every order, if each of the two reads as it should when the other was written |
| RenderDiff.VersionMoveNeverSettles | internal/render/diff.go:28-39 | An input at which it fails: an in-sync object that moved to another version gets an extra row for the old one, and pruning that removes the rendered object |
| RenderDiff.OtherKeyPruned | internal/render/diff.go:33-39 | The same for any two keys that the server takes for one object |
| RenderDiff.SettledMeans | internal/render/diff.go:69-118 | Whatever state a cluster is in, with nothing left to do rendered objects with one key read the same and no inventory entry whose fetch works names a rendered object by another key |
| RenderDiff.DuplicatesNeverSettle | internal/render/diff.go:144-158 | Two rendered objects with one key that read differently are never both in sync |
| RenderDiff.ExtraGone | internal/render/diff.go:79-105 | An inventory entry that names no rendered object is gone from the cluster after the rows, in whatever order, also when its fetch fails |
| RenderDiff.ExtraGoneExactly | internal/render/diff.go:79-105 | What becomes of the object of any entry that is not rendered, pruning last: it is gone, unless it was missing and is rendered under another key |
| Hunks.ComputeHunks | internal/render/diff.go:239-293 | The loop over the opcodes produces the specified lines |
| Hunks.HunkSpellsBothTexts | internal/render/diff.go:239-293 | For any tiling opcodes the context and del lines spell the desired text with line numbers 1..n and the context and add lines spell the live text with 1..m |
| Hunks.DeletedBeforeAdded | internal/render/diff.go:274-289 | A replaced block shows its deleted lines before its added ones |
| Text.TrimNewlinesMeans | internal/render/diff.go:240-241 | Trimming takes away the line breaks at the end of a text, all of them and nothing else |
| Hunks.ChangeShownExactlyWhenTextsDiffer | internal/render/diff.go:239-293 | A line that is not context exists if and only if the newline-trimmed texts differ |
| Hunks.TilingAloneMayShowNoChange | internal/render/diff.go:243-244 | Tiling alone is not enough for that: an example |
| Hunks.PrefixOpcodes | internal/render/diff.go:243-244 | The contract asked of the matcher can be met for all texts |
| DepGraph.KeysAreTuples | web/src/lib/depGraph.ts:65-72 | For namespaces and kinds without slashes the index keys are equal if and only if the tuples are |
| DepGraph.KindedReference | web/src/lib/depGraph.ts:35-40 | "Kind/name" is a reference to that kind and name, split at the first slash |
| DepGraph.PlainReference | web/src/lib/depGraph.ts:35-40 | A text without a slash is a reference to a name |
| DepGraph.NoReference | web/src/lib/depGraph.ts:35-36 | Only the empty text is no reference |
| DepGraph.LookupIsJoin | web/src/lib/depGraph.ts:79-90 | The lookup is the join: the last exact source, else the only source of that name in the namespace (of whatever kind), else none; the search among several candidates never resolves anything |
| DepGraph.KindedJoin | web/src/lib/depGraph.ts:83-90 | An application whose source reads kind, slash, name joins the last source of its namespace with that kind and name; without one, the only source of that name, and none when there are several |
| DepGraph.PlainJoin | web/src/lib/depGraph.ts:84-86 | An application whose source is a bare name joins the only source of that name in its namespace, and none when there are several |
| DepGraph.BuildGraph | web/src/lib/depGraph.ts:62-115 | The loops build the graph of one cluster's applications and sources, sorted |
| DepGraph.BuildClusterGraphs | web/src/lib/depGraph.ts:42-119 | One graph for each cluster mentioned and for no other, each built from exactly that cluster's applications and sources and named by its first mention, in collation order |
| DepGraph.GraphSplitsApps | web/src/lib/depGraph.ts:79-102 | The applications split exactly into matched, orphan and reference-less ones, by the join |
| DepGraph.GraphSplitsSources | web/src/lib/depGraph.ts:104-105 | The sources split exactly into used and unused ones; used means joined to some application |
| DepGraph.GraphEdgesAreTheJoin | web/src/lib/depGraph.ts:95-101 | Each matched application has exactly one edge, from the source the join gives it |
| DepGraph.JoinedIsLinked | web/src/lib/depGraph.ts:91-126 | An application that the join gives a source is listed, is no orphan, and has an edge to it with the tone of the worst of the two |
| DepGraph.ReferenceIsLinked | web/src/lib/depGraph.ts:79-101 | If the source text names the kind and name of a source in the namespace, the edge leaves from the last such source |
| DepGraph.ListsAreBySeverity | web/src/lib/depGraph.ts:128-137 | All four lists show failing before degraded before progressing before the rest, and go by name among equals |
| DepGraph.GraphsByName | web/src/lib/depGraph.ts:118-118 | The graphs go by display name |
| DepGraph.AppsOfHas | web/src/lib/depGraph.ts:52-55 | A cluster's applications are those with its id |
| DepGraph.SourcesOfHas | web/src/lib/depGraph.ts:56-59 | A cluster's sources are those with its id |
| DepGraph.FirstNameIs | web/src/lib/depGraph.ts:47-51 | A cluster's display name is that of its first mention |
| DepGraph.GraphIsWellFormed | web/src/lib/depGraph.ts:62-115 | Each edge's ends are listed and each listed node has an edge |
| GraphFilter.FilterGraph | web/src/pages/Dependencies.tsx:179-225 | The loop and the two maps compute the specified filter |
| GraphFilter.FilteredIsWellFormed | web/src/pages/Dependencies.tsx:193-217 | A well-formed graph comes out, whatever graph goes in |
| GraphFilter.FilterIsIdempotent | web/src/pages/Dependencies.tsx:179-225 | Filtering twice is filtering once |
| GraphFilter.FilterIsMonotone | web/src/pages/Dependencies.tsx:185-190 | From failing over degraded to all, a wider filter shows at least as much of everything |
| GraphFilter.FilterShowsWhatWasAsked | web/src/pages/Dependencies.tsx:185-224 | With distinct ids no node is shown that is suspended or has the wrong status, linked or not |
| GraphFilter.FilterShowsExactly | web/src/pages/Dependencies.tsx:184-224 | An edge, orphan or unused source is shown if and only if it passes the status filter and one of its searched fields, in lower case, holds the trimmed search text; a linked node if and only if one of its edges is |
| GraphFilter.AllWithBlankSearchIsIdentity | web/src/pages/Dependencies.tsx:184-191 | "all" with a blank search is the identity if and only if the graph is well formed |
| GraphFilter.BuiltGraphPassesAll | web/src/pages/Dependencies.tsx:179-225 | So it is the identity on every graph that was built |
| Events.ListEventsForCluster | internal/api/events.go:127-160 | An error exactly when the cluster is unreachable or the listing fails; else the 200 newest of all fetched matching events, newest first |
| Events.MatchingOne | internal/api/events.go:143-151 | A fetched event gives a row if and only if it is about a Flux object and matches namespace, kind and name where given; the row's fields, and its time: last seen, else event time, else creation |
| Events.MatchingConcat | internal/api/events.go:142-152 | Event by event, in order |
| Events.Collect | internal/api/events.go:110-116 | The merged cuts are some of the fetched matching events, 200 of each cluster or all where there are fewer, with as many since any time as all of them have, as far as 200 go; one error, with its text, per cluster that did not answer |
| Events.ListEvents | internal/api/events.go:110-122 | Some of the fetched matching events of all answering clusters, newest first, exactly 800 or as many as the cuts per cluster leave, with the same top 200 as all of them |
| Events.NewestKeepsTop | internal/api/events.go:154-158 | Sorting and cutting at n keeps the number of events since any time, as far as n go |
| Events.SameTopSameTimes | internal/api/events.go:118-122 | Two sorted lists with the same top show the same times |
| Events.CutsKeepTheFirst200 | internal/api/events.go:118-122 | For every k up to 200, the first k timestamps of the response equal the first k of any newest-first sorting of all fetched matching events, despite both cuts |
| Events.NewestFirstByTime | internal/api/events.go:166-199 | The string comparison of two rows compares the events' own times, to the second |
| Timestamps.StringOrderIsTimeOrder | internal/api/events.go:173-176 | For four-digit years the string order is the order of the times, in the format of section 5.1 of RFC 3339 |
| Timestamps.FormatSpellsTheTime | internal/api/events.go:175-175 | Each field stands in its place of the twenty characters, in decimal |
| Timestamps.GregorianYears | internal/api/events.go:175-175 | The days before a year are those of the Gregorian calendar |
| Timestamps.GregorianMonths | internal/api/events.go:175-175 | And so are the lengths of the months |
| Sorting.LessMeans | internal/api/events.go:119-119 | Strings compare by their first difference, and a proper prefix comes first |
| Timestamps.EarlierIsBefore | internal/api/events.go:175-175 | The order of year, month, day and time of day is the order of seconds, leap years included |
| FanOut.FilterEntries | internal/api/applications.go:43-53 | Compacting the slice in place gives the ordinary filter of what was in it |
| FanOut.PermittedOne | internal/api/applications.go:46-51 | An entry is kept if and only if it is the cluster asked for, or none was, and authorisation permits it |
| FanOut.PermittedConcat | internal/api/applications.go:45-53 | Entry by entry, in order |
| FanOut.NoWorkerBlocks | internal/api/applications.go:59-83 | In every schedule nothing panics, the channel closes only after the last send, and a worker at its send finds the channel open and with room |
| FanOut.NoDeadlock | internal/api/applications.go:64-91 | Until the handler has its answer some goroutine can go on |
| FanOut.EveryRunEnds | internal/api/applications.go:64-91 | No schedule has more than 5n + 3 steps |
| FanOut.AnswerIsComplete | internal/api/applications.go:64-91 | In every schedule each permitted entry is collected exactly once, and the response has exactly its rows or exactly one error |
| FanOut.ArrivalOrderIrrelevant | internal/api/applications.go:85-91 | The order in which the answers arrive changes nothing but the order |
| FanOut.OneAnswer | internal/api/applications.go:85-91 | One answer puts exactly its rows into the response, or one error |
| FanOut.RowsAppend | internal/api/applications.go:85-91 | Rows are appended answer by answer |
| FanOut.FailuresAppend | internal/api/applications.go:85-91 | And so are errors |
| FanOut.AppsInOrder | internal/api/applications.go:93-102 | The response is by cluster, then namespace, then name |
| FanOut.Respond | internal/api/applications.go:85-102 | The collector's loop and the sort: the collected rows, sorted, and one error per failed worker |
| Inventory.AtMost16InFlight | internal/api/tree.go:160-176 | In every schedule at most 16 workers hold a token, and none waits to give its token back |
| Inventory.SixteenTogether | internal/api/tree.go:161-168 | There is a schedule with 16 workers in flight, or with as many as there are references: the bound is not lower |
| Inventory.SlotsAreWrittenOnce | internal/api/tree.go:160-176 | In every schedule a slot is written at most once, with the answer to its own reference |
| Inventory.ResultIsComplete | internal/api/tree.go:160-176 | On return slot i was written exactly once and holds the answer for reference i, all workers are done and all tokens are back |
| Inventory.NoDeadlock | internal/api/diff.go:108-124 | Until the fetch returns some goroutine can go on |
| Inventory.EveryRunEnds | internal/api/diff.go:108-124 | No schedule has more than 7n + 1 steps, and a complete one has exactly that many |
| Debounce.Hook.ScheduleInvalidate | web/src/lib/stream.ts:58-67 | Replaces the key's timer, if it has one, by a new one due in 300 ms |
| Debounce.Hook.OnInvalidate | web/src/lib/stream.ts:85-95 | Schedules every query key of the event's kind |
| Debounce.Hook.OnTimer | web/src/lib/stream.ts:62-65 | The timer's callback forgets its key and invalidates it |
| Debounce.Hook.Unmount | web/src/lib/stream.ts:99-104 | Clears all pending timers |
| Debounce.KindsInvalidate | web/src/lib/stream.ts:19-50 | Which query keys each kind of resource invalidates |
| Debounce.EventSetsTimers | web/src/lib/stream.ts:58-67 | An event gives each of its keys a timer due in exactly 300 ms and leaves the timers of all other keys alone |
| Debounce.PendingIsLive | web/src/lib/stream.ts:58-67 | In every run the pending map holds exactly the live timers, at most one per query key |
| Debounce.InvalidationsAreSpaced | web/src/lib/stream.ts:52-67 | In every run two invalidations of one key are at least 300 ms apart |
| Debounce.BurstGivesOneInvalidation | web/src/lib/stream.ts:52-67 | A burst of events for a key followed by quiet gives exactly one invalidation, at least 300 ms after the last event |
| Debounce.NothingAfterTeardown | web/src/lib/stream.ts:99-104 | After teardown no timer is live and nothing is invalidated |
| Sse.Response.WriteSSE | internal/api/logs.go:397-406 | Appends exactly the encoding of one event to the body, multi-line data included |
| Sse.Response.WriteComment | internal/api/logs.go:377-377 | Appends exactly one comment heartbeat |
| Sse.FprintfIsFrame | internal/api/stream.go:75-75 | On one-line data the formatted print of the stream handler writes what writeSSE would |
| Sse.FeedFrame | internal/api/logs.go:397-406 | The standard's parser turns one frame into exactly one message with the written type and data |
| Sse.StreamRoundTrip | internal/api/logs.go:372-406 | Parsing any sequence of frames and heartbeats gives back exactly the written messages in order, if and only if no data has a carriage return and no event name a line break |
| Sse.CarriageReturnIsLost | internal/api/logs.go:385-385 | A concrete log line that does not arrive as written |
| Sse.LogsStream | internal/api/logs.go:347-393 | The loop writes the opening event, then one item per input, up to the closing event, the error or the disconnect |
| Sse.WireNames | internal/api/logs.go:347-388 | The event names, texts and comments as they go over the wire |
| Sse.LogStreamArrives | internal/api/logs.go:347-393 | The browser gets the opening message, every line in order and the final message; heartbeats do not show |
| Sse.Serve | internal/api/stream.go:39-81 | The loop writes hello, then the events of the permitted clusters and the pings, until the channel closes or the client goes |
| Sse.InvalidationsArrive | internal/api/stream.go:39-81 | The browser gets hello and then exactly the permitted clusters' events in order |
| Cookie.DecodeEncode | internal/auth/oidc.go:376-384 | Unpadded base64url decodes its own encoding |
| Cookie.EncodedIsPlain | internal/auth/oidc.go:376-376 | An encoding never holds the separator |
| Cookie.LettersAreTheAlphabet | internal/auth/oidc.go:376-376 | The 64 letters are those of table 2 of RFC 4648, in order |
| Cookie.GroupOfThree | internal/auth/oidc.go:376-376 | Three bytes, as a number with the first byte most significant, are four base-64 digits |
| Cookie.GroupOfTwo | internal/auth/oidc.go:376-376 | Two bytes at the end are three letters, filled up with zero bits |
| Cookie.GroupOfOne | internal/auth/oidc.go:376-376 | One byte at the end is two letters, without padding |
| Cookie.EncodeInjective | internal/auth/oidc.go:376-376 | Encodings are equal if and only if the byte strings are |
| Cookie.DecodeAccepts | internal/auth/oidc.go:384-391 | The decoder takes a string if and only if, line breaks aside, it is all alphabet and its length is not 1 modulo 4 |
| Cookie.RefusesOthers | internal/auth/oidc.go:384-391 | A character outside the alphabet that is no line break makes the decoder fail, the padding character included |
| Cookie.SkipsLineBreaks | internal/auth/oidc.go:384-391 | A line feed or carriage return anywhere changes nothing |
| Cookie.VerifyUndoesSign | internal/auth/oidc.go:372-399 | For every MAC, secret and body, verifying a signed body gives the body back |
| Cookie.AcceptedExactly | internal/auth/oidc.go:379-399 | A string is accepted with a body if and only if its first dot separates an encoding of the body from an encoding of the body's MAC under the secret |
| Cookie.NoDotIsMalformed | internal/auth/oidc.go:380-383 | A value without a dot is malformed |
| Cookie.VerifyAssembled | internal/auth/oidc.go:392-398 | A body with any signature is accepted if and only if that signature is its MAC |
| Cookie.OtherSecret | internal/auth/oidc.go:392-398 | A value signed under one secret verifies under another if and only if the two MACs of the body agree |
| Cookie.SignInjective | internal/auth/oidc.go:372-377 | Different bodies have different signed values |
| Cookie.VerifyIgnoresLineBreaks | internal/auth/oidc.go:384-391 | Line breaks in a cookie change nothing, so the string for a body is not unique |
| YamlStream.SplitYamlStream | internal/render/kustomize.go:127-138 | Cutting at the separator gives the documents of the stream taken line by line |
| YamlStream.SplitIsByLines | internal/render/kustomize.go:127-138 | The cut text and the line-by-line grouping agree for every input: each line that starts with three dashes, and no other, starts a document |
| YamlStream.SeparatorIs | internal/render/kustomize.go:128-129 | The separator is a line break and three dashes |
| YamlStream.StreamIsKept | internal/render/kustomize.go:127-138 | Joined with the separator the documents give the stream back, up to the virtual line break before leading dashes |
| YamlStream.DocumentsCounted | internal/render/kustomize.go:127-138 | One document more than there are lines that start with three dashes |
| YamlStream.NoSeparatorLeft | internal/render/kustomize.go:127-138 | No document holds a separator |
| YamlStream.SplitYamlDocuments | internal/render/kustomize.go:102-121 | The loop gives the non-empty decoded documents in order, or the first decoding error |
| YamlStream.ObjectsFail | internal/render/kustomize.go:105-114 | It succeeds if and only if every document that is not blank decodes |
| YamlStream.FirstError | internal/render/kustomize.go:110-112 | The error is that of the first document that cannot be decoded |
| YamlStream.ObjectsAre | internal/render/kustomize.go:105-117 | An object is in the result if and only if it is not empty and some document that is not skipped decodes to it |
| YamlStream.SkippedExactly | internal/render/kustomize.go:106-109 | A document is skipped if and only if it is blank, but perhaps for three dashes |
| YamlStream.RenderedObjectsSurvive | internal/render/kustomize.go:71-138 | For manifests with no line that starts with three dashes and a decoder that ignores a leading line break, the objects of a rendered stream come back complete and in order if and only if every manifest but the last reads the same without its last line break |
| YamlStream.LastBlockIsAltered | internal/render/kustomize.go:127-138 | An input at which it fails: a manifest that ends with a literal block comes back altered |
| YamlStream.RenderedDocuments | internal/render/kustomize.go:127-138 | Each document of a rendered stream is its manifest, without the last line break unless it is the last one, perhaps after a line break |

## Left out

- Hub: a cancelled watcher may still publish an event it has already received (internal/watch/watcher.go:94-97), so nothing is claimed about events after a cancel.
- Hub: Go's RWMutex keeps new readers out while a writer waits; the model lets them in, which allows more runs, so the safety theorems cover Go's. `Hub.NoDeadlock` holds either way.
- Hub: JSON payloads of events and the watch loops that produce them, with their backoff.
- Registry: the read/write lock around each operation; operations are atomic here.
- Reconciler: how the probe works (its result is an input), the status fields other than the conditions, the status kept in the registry entry, and the requeue interval.
- Conditions.ConditionsAfter: starts from an empty list, as a new Cluster object has; a list with two conditions of one type, which the controller never makes, is not described.
- Watchers: the ticker of `Run`; syncs happen at any time and in any number, and their pass over the list, which touches nothing but the manager's own map, is one step.
- ObjectTree: an argument may share parts with itself, but a cyclic one has no finite tree and is not modelled.
- RenderDiff: reading a key out of an object and its YAML text; the key comes with the manifest, and the marshaller is a parameter.
- RenderDiff: an update stores the rendered object with the server's noise and nothing else; fields of a live object that other managers own, which a server-side apply keeps, are not modelled.
- RenderDiff.DiffConverges: asks that the objects involved can be marshalled to YAML, because a row whose object cannot be written as text says nothing to carry out; an API server that rewrites anything but the fields listed as noise (defaulting, for example) is not covered.
- RenderDiff: inventory parsing, rendering by Kustomize and Helm, and the HTTP handler around the diff.
- Hunks: how difflib finds its opcodes; it enters by its contract.
- DepGraph.LookupIsJoin: asks for namespaces and kinds without slashes, which Kubernetes guarantees; with a slash two different tuples can have one key.
- DepGraph: whether JavaScript's sort keeps the order of equal elements is not modelled, any sorted arrangement is allowed.
- GraphFilter: what trimming and lower-casing do; they are arbitrary functions on strings.
- Events.CutsKeepTheFirst200: speaks of the events that the listing returned, which the server limits to 1000 per cluster in an order that is not that of time.
- Events: the result is stated for timestamps, since events of equal time may come in any order; years after 9999 do not fit the format.
- FanOut: the same pattern in sources.go, alerts.go, images.go and events.go is modelled once; timeouts appear only as fetches that fail, and a fetch is taken to end.
- FanOut: how the rows of an application, a source or an alert are derived from a Kubernetes object.
- Inventory: the fetch itself and the drift check of one resource; each is any function value.
- Debounce: the EventSource's reconnects, JSON decoding, and kinds named like properties of JavaScript's Object prototype; which queries an invalidated prefix reaches.
- Sse: pod lookup, the line scanner and its buffer; the select's choices are the order of the inputs. The `id` and `retry` fields and reconnection times are not part of what is dispatched. Events that fail to marshal, which string fields cannot, are left out.
- Cookie: HMAC-SHA256 is any function; nothing is claimed about forging, and expiry and the OIDC exchange are not part of this model.
- YamlStream.RenderedObjectsSurvive: manifests with a line that starts with three dashes are split there, as SplitIsByLines says, and then the outcome is the decoder's.
- YamlStream: what YAML means; the decoder is a parameter, and the target namespace that is set afterwards is not modelled.
- Policy: first-match authorisation and glob matching; a pure predicate stands for them.
- Left out altogether as plain plumbing: HTTP routing and status codes, tracing, metrics, audit, mutations, Helm release decoding, artifact download, React components and charts.
