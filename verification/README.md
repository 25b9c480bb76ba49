# search-indexer: a verified model of the write path

The indexer keeps two tables, `search.resources` and `search.edges`, equal to what each managed cluster
reports. This project models the code that does so and proves what it promises.

| file | what it models |
|---|---|
| `Serial` | one-at-a-time execution, the reference; logs that say what became of each statement |
| `BatchEngine` | the batch queue as a state machine: every interleaving of queueing, flushing and sending |
| `Bisect` | one `sendBatch` left alone: refinement of one-at-a-time execution, round trips |
| `Batch` | the mutable batch object, the connection pool, the response with its error lists |
| `Tables` | the two tables, the statements, row-by-row reading, ownership of rows |
| `Sync`, `SyncEffect` | delta sync: statements, totals, error; the tables afterwards |
| `Errors` | what the entries of the error lists name |
| `Resync`, `ResyncEffect`, `EdgeDiff` | full resync: reset of the resources, diff of the edges |
| `Requests`, `Convergence` | whole requests: frame, ownership, delete safety, exactness, repetition, agreement of delta and resync, totals |
| `Scan` | the streaming scan of a resync body against decoding it whole |
| `ClusterCache`, `ClusterMerge` | the cluster node, the cache that saves writing it, the merge of two kinds of objects |
| `DeleteRetry`, `HubRename` | deletion of clusters with retries, stale clusters, former hub clusters |
| `HubMark` | the mark that tells the hub's rows from those of managed clusters |
| `Limiters` | the two request limiters as step machines |
| `Counting`, `Options` | counting in sequences; optional values |

How to read it:

* A statement is a datatype constructor with a meaning on the tables (`Tables.Apply`) and a second meaning
  on a single row (`Tables.RowEffect`, `Tables.EdgeEffect`). A statement is rejected or not as a parameter
  says, possibly depending on the state it meets.
* A batch is one transaction. The contract of the database driver is an assumption, written out in
  `BatchEngine.Exchange`: without an error on closing, `Exec` fails exactly when some statement of the batch
  was rejected, and then nothing was applied; with an error on closing, the transaction was applied or not.
* A log records for each accepted statement one fate: committed, reported, or dropped with a batch whose
  close failed. `Serial.Explains` says that a state is what the log produces.
* Goroutines are stacks of calls that a scheduler advances in any order. Appending to an error list is one
  step. The three loops that walk over a Go map take its keys in any order.
* Integers are stored as JSON numbers and come back as floating-point values that do not compare equal to
  integers (`Tables.Marshal`).

Where the code does not do what its comments say, the model follows the code, and the exact condition is proved:

* Edge keys are remembered under a plain concatenation of their columns. The diff of the edges is exact if
  and only if tables and body are free of collisions (`EdgeDiff.ExactIffCollisionFree`), as uids of one width
  are; otherwise an incoming edge can be lost although nothing fails (`Convergence.AnEdgeIsLost`).
* The clean-up of former hub clusters is meant to delete everything outdated by retrying until it succeeds,
  but the edges of a hub stay behind exactly if an attempt removed its resources and not its edges
  (`HubRename.HubClusterCleanUpWithRetry`, `HubRename.EdgesOfFormerHubStay`).
* The limits on large requests, and on requests other than the hub's, hold if and only if at most one request
  at a time is between its check and its count (`Limiters.LargeLimitHolds`, `Limiters.RequestLimitHolds`). A
  cluster is served one request at a time if and only if no two of its requests are between check and
  insertion together (`Limiters.OneRequestPerCluster`).
* The cache of cluster nodes goes stale exactly if the reply of an applied write or deletion that matters is
  lost, or a request touches a cached node (`ClusterCache.CoherentIffHarmless`); of the requests only a
  delta that asks to delete its own cluster's node does (`ClusterCache.DeltaKeepsCoherence`).
* The scan for the resources of a resync finds the array under the field name if and only if no earlier string
  is that name (`Scan.ScanOnceExact`); the scan for edges skims over some such strings (`Scan.ScanAllExact`).
  Where there is null instead of an array, a full decode finds no elements; the scans do so if and only if
  it is the last field (`Scan.ScanOnceReadsNullIffLast`, `Scan.ScanAllReadsNullIffLast`).
* The clean-up of former hubs spares every managed cluster whose node keeps the kind Cluster
  (`HubMark.ManagedClusterIsSpared`). A condition named "kind" with another status makes a former hub of
  its cluster (`HubMark.NodesAreSparedIffKindStays`), which is then deleted.
* The cache is there to save writing an unchanged node, but after a restart every node is written again,
  because its integers are read back as floating-point numbers (`ClusterCache.WrittenAgainIffInt`,
  `ClusterMerge.RestartWritesAgain`).
* A condition named "name" makes a cluster's node merge another node's properties and carry another
  cluster's name (`ClusterMerge.MergesItsOwnNodeIffNamed`, `ClusterMerge.KeepsOwnershipIffNamed`).

## Model

The first 79 rows are the main results, in the order of the files; below them come the members that link them to the
code and the steps that lead to them.

| member | source | states |
|---|---|---|
| Serial.OrderIrrelevant | pkg/database/batch.go:55-60 | two orders of pairwise independent statements, with repetitions, reach the same state and skip the same statements |
| BatchEngine.EveryRunKeepsInv | pkg/database/batch.go:49-138 | over every interleaving: the counter equals the spawned or pending calls, each accepted statement is in one place, the state is explained, errors are attributed once, and the connection error is that of the last exchange which lost the connection |
| BatchEngine.QuiescentAccounts | pkg/database/batch.go:76-112 | after a flush and a zero counter each accepted statement has exactly one fate, and without a connection error nothing was refused or lost |
| BatchEngine.WaitIsReached | pkg/database/batch.go:114-120 | while the counter is positive a goroutine can step, and every step decreases a measure: waiting ends |
| BatchEngine.LosesIffConnectionLost | pkg/database/batch.go:78-82 | a connection is taken for lost exactly if the close error reads "failed to connect" or "unexpected EOF" between any two texts |
| BatchEngine.EveryRunCutsBatches | pkg/database/batch.go:55-60 | over every interleaving the queue stays short of the batch size, and no batch or part of one is longer |
| BatchEngine.QueueCutsFullBatches | pkg/database/batch.go:49-62 | items queued one after the other are started in full batches, in order, and the rest stays queued |
| BatchEngine.Confluence | pkg/database/batch.go:49-128 | for independent statements and a holding connection every interleaving of all batches and halves ends in the state and the errors of running the items in queue order |
| Bisect.SendAccounts | pkg/database/batch.go:66-128 | with any connection, the bisecting retry gives every statement one fate in order and the state is what those fates produce |
| Bisect.SendRefinesSerial | pkg/database/batch.go:66-128 | alone and with a holding connection, the retry ends in the state of applying left to right and skipping failures, and reports exactly the skipped statements in order |
| Bisect.RoundTrips | pkg/database/batch.go:114-120 | n statements of which k stay uncommitted take at most min(2n-1, 1+2k*ceil(log2 n)) round trips, one if k is 0 |
| Bisect.AllReportedRoundTrips | pkg/database/batch.go:114-120 | exactly 2n-1 round trips when every statement is reported |
| Bisect.MachineRunsSend | pkg/database/batch.go:114-120 | scheduling one goroutine alone takes the state machine to exactly the result of the recursion: the two halves of a retry run one after the other |
| Sync.SyncData | pkg/database/sync.go:27-147 | for every batch size, connection and interleaving: one fate per accepted statement; nil exactly when no batch was lost, which is exactly when no exchange met a close error with one of the two phrases; the error returned is such a message; with nil everything was queued; the totals count what was committed, and are filled in exactly when nothing was refused |
| Sync.TotalsCountCommitted | pkg/database/sync.go:138-143 | requested minus errors equals the committed statements for additions, updates and new edges; deletions lack one if the bulk delete failed; deleted edges are the committed explicit ones minus one if the cascade failed |
| Errors.SyncErrorsName | pkg/database/batch.go:94-110 | whatever the connection did, the entries of each list are exactly the resources of the event without the prefix, and the uids of the statements of its kind that failed on their own |
| Errors.ResyncErrorsName | pkg/database/resync.go:202-212 | the same for the resources of a resync, of whose rejections a lost connection leaves out some |
| SyncEffect.SyncExact | pkg/database/sync.go:27-147 | a well-formed delta takes matching tables to tables matching the next state, in every order and with bystanders |
| Resync.ResetResources | pkg/database/resync.go:53-104 | under any failure the database is asked for a prefix of the full reset, never for a deletion with a truncated list; nil exactly if the body decoded and no batch was lost; the total counts what was accepted, and the lists hold a prefix of the rejections, all of them if no batch was lost, and the failures |
| Resync.ResetEdges | pkg/database/resync.go:110-176 | the edge phase under any failure: unless a batch is lost the whole diff is sent and settled, also in front of a malformed edge, and the totals are the inserted edges and the remaining ones; otherwise they count what was accepted; nil exactly if the body decoded and no batch was lost; the lists hold exactly the failures |
| Resync.ResyncData | pkg/database/resync.go:22-48 | both phases in order; if a batch of the first is lost or a resource does not decode, an error is returned and no edge, nor a total of edges, is touched; nil exactly if both bodies decoded and no batch was lost; the exact totals and lists; the hub clean-up exactly if nil and the last resource carries the hub marker |
| Resync.InsertedAndRemaining | pkg/database/resync.go:337-341 | every incoming edge, duplicates included, is inserted or takes one edge out of the map |
| ResyncEffect.ResetExact | pkg/database/resync.go:53-104 | the reset leaves exactly the accepted resources, whatever was there, in every order and with bystanders |
| EdgeDiff.EdgePhase | pkg/database/resync.go:110-176 | what becomes of every edge in the edge phase, collisions or not, in every order and amid other requests |
| EdgeDiff.ExactIffCollisionFree | pkg/database/resync.go:110-176 | however the existing edges are read and the statements ordered, the diff is exact if and only if tables and body are free of collisions: no existing edge that did not come in shares its concatenation with another existing edge or an incoming one, and no new edge shares it with an existing one, unless it occurs again behind a lookup |
| EdgeDiff.FixedWidthIsInjective | pkg/database/resync.go:136-136 | uids of one width do not collide |
| Convergence.AnEdgeIsLost | pkg/database/resync.go:338-341 | there is such a run |
| Requests.SyncStaysHome | pkg/database/sync.go:27-147 | a delta sync, whatever fails, changes nothing of other clusters and keeps rows named after their owners |
| Requests.ResyncStaysHome | pkg/database/resync.go:22-48 | so does a full resync |
| Requests.EveryHistoryKeepsOwnership | pkg/database/sync.go:16-25 | every history of statements of any number of concurrent requests and node events keeps rows named after their owners |
| Requests.ResyncNeverDeletesIncoming | pkg/database/resync.go:59-103 | whatever fails in either phase, no resource is deleted whose accepted uid was read from the body |
| Requests.WellFormedConfluence | pkg/database/batch.go:49-128 | confluence of every well-formed delta, if rejections do not depend on the state |
| Convergence.ResyncExact | pkg/database/resync.go:21-48 | a successful resync, amid other requests, resets the cluster to the incoming state, whatever it was, and keeps the inter-cluster edges between incoming resources |
| Convergence.FixedWidthIsExact | pkg/database/resync.go:21-48 | a successful resync is exact whenever the uids of the edges that are there at the start and in the body have one width |
| Convergence.ResyncForgetsHistory | pkg/database/resync.go:21-48 | the same body brings any two databases to the same resources and edge keys of the cluster; an edge that was there keeps its kinds |
| Convergence.RepeatedResync | pkg/database/resync.go:21-48 | repeating a resync, amid other requests, changes no resource and no edge of the cluster, kinds included |
| Convergence.ResyncIsIdempotent | pkg/database/resync.go:21-48 | with nobody else about, repeating a resync changes neither table |
| Convergence.DeltaAgreesWithResync | pkg/database/sync.go:27-147 | a delta sync and a resync with the resulting state, each amid other requests, agree on the cluster's resources and edge keys |
| Convergence.SyncDataAgreesWithResync | pkg/database/sync.go:27-147 | so do `SyncData` and `ResyncData` returning nil, for every batch size and order of commits |
| Convergence.TotalsAfterResync | pkg/database/dataValidation.go:18-41 | after a resync the totals are the accepted uids and the incoming edges that are neither inter-cluster nor owned elsewhere |
| Scan.ParseRoundTrip | pkg/database/resync.go:195-195 | decoding the next value from the tokens of a document yields that value and leaves what follows |
| Scan.ScanAgreesWithDecode | pkg/database/resync.go:178-228 | if the marker is no string of the document, or only one top-level key with an array, or with null as the last field, both scans agree with decoding the whole document |
| Scan.ScanOnceExact | pkg/database/resync.go:182-225 | the scan for resources yields the elements under the marker, whichever they are, if and only if the marker is no string of the document before them |
| Scan.ScanAllExact | pkg/database/resync.go:321-361 | the scan for edges does so if and only if it skims over every other occurrence of the marker: a token and then a closing bracket follow it |
| Scan.ScanOnceReadsNullIffLast | pkg/database/resync.go:188-197 | with no earlier marker, null under the marker is read as no elements by the scan for resources if and only if it is the last field |
| Scan.ScanAllReadsNullIffLast | pkg/database/resync.go:327-336 | the scan for edges does so if and only if it skims over what is before and null is the last field |
| ClusterCache.CoherentIffHarmless | pkg/database/upsertCluster.go:160-271 | every event keeps cache and table coherent if and only if it is harmless: no reply that matters is lost, and other requests leave the cached nodes alone |
| ClusterCache.CachedRefinesAlways | pkg/database/upsertCluster.go:160-271 | over every run of harmless events the cached upsert leaves the tables that writing every time leaves |
| ClusterCache.CleanRunsRefineAlways | pkg/database/upsertCluster.go:160-271 | the same for events judged one by one, without looking at the states they meet |
| ClusterCache.DeltaIsClean | pkg/database/sync.go:34-126 | the statements of a delta are among the events of such runs if and only if it does not ask to delete its own node |
| ClusterCache.DeltaKeepsCoherence | pkg/database/sync.go:34-126 | from every tidy state each statement of a delta keeps the cache coherent if and only if the delta does not ask to delete its own node |
| ClusterCache.LostReplyLosesAnUpdate | pkg/database/upsertCluster.go:177-187 | a lost reply makes a later upsert be skipped wrongly |
| ClusterCache.LostReplyLosesTheNode | pkg/database/upsertCluster.go:26-32 | after a deletion whose reply is lost the next upsert is skipped wrongly and the node is missing |
| ClusterCache.DeletedNodeStaysAway | pkg/database/upsertCluster.go:195-243 | after a delta deleted the node, the next upsert is skipped wrongly |
| ClusterCache.WrittenAgainIffInt | pkg/database/upsertCluster.go:176-191 | after a restart an unchanged node is written again if and only if one of its properties is an integer |
| ClusterMerge.LastWriterWins | pkg/clustersync/clusterSync.go:189-336 | from an empty cache, with writes succeeding, a node whose objects are not renamed by a condition is the left-to-right overlay of their properties, whatever row was there and whatever other objects come in between |
| ClusterMerge.EveryNode | pkg/clustersync/clusterSync.go:189-336 | for every run of objects, renamed or not: each is laid over the node that its name property names |
| ClusterMerge.EitherOrder | pkg/clustersync/clusterSync.go:189-336 | two objects of a cluster give the same node in either order, in the cache and in the table, if and only if they agree on the keys they share |
| ClusterMerge.MergesItsOwnNodeIffNamed | pkg/clustersync/clusterSync.go:248-259 | whatever is cached, an object is laid over its own node's cached properties if and only if its name property is its name |
| ClusterMerge.KeepsOwnershipIffNamed | pkg/database/upsertCluster.go:166-168 | whatever the tables hold, the upserted row keeps rows named after their owners if and only if the name property is the name |
| ClusterMerge.RestartWritesAgain | pkg/clustersync/clusterSync.go:269-336 | after a restart the node of every object is written again, unless a condition replaces the number of processors |
| ClusterMerge.InfoIsStored | pkg/clustersync/clusterSync.go:269-291 | the row of a ManagedClusterInfo after a good upsert, property by property |
| ClusterMerge.ClusterIsStored | pkg/clustersync/clusterSync.go:294-336 | the row of a ManagedCluster, property by property: each field unless a condition is named like it, and the marks of every node |
| DeleteRetry.DeleteWithRetry | pkg/database/upsertCluster.go:35-68 | success, exactly if an attempt is made and succeeds, means the target is gone; giving up is exactly for the context; the state after every attempt is the old one until an attempt takes effect, known or not, and the deletion in full from then on, and everything else is as it was |
| DeleteRetry.TotalWaitBound | pkg/database/upsertCluster.go:58-62 | after n failures the total wait is at most n times the limit and at most 250n(n-1) ms |
| DeleteRetry.TotalWaitIs | pkg/database/upsertCluster.go:58-62 | the total wait in closed form: a parabola until the limit is reached, a straight line from there on |
| DeleteRetry.DeleteStaleClusterResources | pkg/clustersync/clusterSync.go:138-150 | clusters that are not stale keep everything, stale ones no more than their nodes if the deletions complete, and every cluster its node; nothing is touched if the search fails |
| HubRename.HubClusterCleanUpWithRetry | pkg/database/resync.go:232-248 | it ends exactly with the first pass of the script that gets through the hubs left by then; then no former hub has a resource, and one has an edge left if and only if it had one and a try of it was applied behind a failure, or removed the resources and failed on the edges; a cluster of which only nodes of kind Cluster are marked keeps everything under any script |
| HubRename.EdgesOfFormerHubStay | pkg/database/resync.go:289-296 | a failing run: the edges fail once, the next pass goes without a failure, and the edges stay |
| HubRename.CleanPassRemovesFormerHubs | pkg/database/resync.go:250-298 | when no statement fails, one answered pass removes everything of every other named cluster that has a marked row of a kind other than Cluster |
| HubMark.ManagedClusterIsSpared | pkg/database/resync.go:255-264 | over every run of node events, restarts and requests that mark nothing of the cluster but its node, the cluster is at no time taken for a former hub |
| HubMark.NodesAreSparedIffKindStays | pkg/clustersync/clusterSync.go:325-327 | the upsert of an object keeps its cluster from being taken for a former hub, in every state and weather, if and only if the kind that it gives its node is Cluster |
| HubMark.NothingStaleAfterRun | pkg/clustersync/clusterSync.go:138-150 | after every run of node events and requests, once the stale clusters are emptied, another look finds nothing stale |
| Limiters.LargeRequestsBounded | pkg/server/largeRequestLimiter.go:22-43 | over every interleaving the counter equals the requests being served, and with at most g requests between check and increment, counter and gap stay within limit - 1 + g |
| Limiters.LargeLimitHolds | pkg/server/largeRequestLimiter.go:22-43 | the limit is never exceeded if and only if g is at most 1 |
| Limiters.RequestsBounded | pkg/server/requestLimiter.go:26-57 | without hub requests tracker and gap together stay within limit - 1 + g |
| Limiters.RequestLimitHolds | pkg/server/requestLimiter.go:26-57 | without hub requests the tracker never exceeds the limit if and only if g is at most 1 |
| Limiters.OneRequestPerCluster | pkg/server/requestLimiter.go:26-57 | for every run: none of its states, nor any order in which the admitted requests then get in and finish, serves two requests of a cluster together, if and only if no two are ever in the gap together |
| Limiters.HubPassesFullTracker | pkg/server/requestLimiter.go:30-47 | after every run a hub request without one of its own under way is served however full the tracker is; any other exactly below the limit |
| Serial.TransactSkipsNothing | pkg/database/batch.go:87-88 | a batch commits as a transaction exactly when running its statements one at a time would skip none, and then reaches the same state |
| Serial.CleanLogIsSerial | pkg/database/batch.go:66-128 | if nothing was dropped, the database is the one-at-a-time result and the reported statements are exactly those that fail where they are reached, in order |
| Serial.CommittedLogIsTransaction | pkg/database/batch.go:87-88 | statements that were all committed, in whatever batches, would also have committed as one transaction |
| BatchEngine.ExchangeExplains | pkg/database/batch.go:73-88 | each outcome of one exchange is a truthful account of its statements; a batch is divided only if it has several statements and left nothing applied |
| BatchEngine.OnlySinglesAreReported | pkg/database/batch.go:89-112 | an error is attributed to a statement only when it failed alone |
| BatchEngine.AdvanceStack | pkg/database/batch.go:66-67 | a step keeps the WaitGroup counter equal to the pending calls, never sends an empty slice, and uses up work |
| BatchEngine.AdvanceConserves | pkg/database/batch.go:114-120 | no statement is lost or duplicated when a batch is divided or concluded |
| BatchEngine.AdvanceLog | pkg/database/batch.go:76-112 | a step keeps the database explained by the log, one error entry per reported statement, the connection error that of the last loss, and nothing dropped exactly while no exchange fails to close |
| BatchEngine.QueueKeeps | pkg/database/batch.go:49-62 | queueing, with or without starting a batch, keeps the invariant |
| BatchEngine.QueueOffers | pkg/database/batch.go:50-53 | once the connection is lost nothing more is accepted, so that refusals come last |
| BatchEngine.FlushKeeps | pkg/database/batch.go:131-138 | flushing keeps the invariant, also with nothing queued |
| BatchEngine.FullBatchesAreFull | pkg/database/batch.go:55-60 | these batches are full, and with what is left over they are the items in order |
| Batch.FiledLengths | pkg/database/batch.go:94-110 | each of the five error lists grows by the number of reports with its action |
| Batch.BatchWithRetry.constructor | pkg/database/batch.go:37-46 | a new batch is empty, with counter zero |
| Batch.BatchWithRetry.Report | pkg/database/batch.go:94-110 | an error goes to the list that the action selects and to no other |
| Batch.BatchWithRetry.Queue | pkg/database/batch.go:49-62 | without an error exactly the old queue and the new item are started as one batch if they reach the batch size, and queued otherwise; with an error nothing changes; it is the queue step of the state machine |
| Batch.BatchWithRetry.Flush | pkg/database/batch.go:131-138 | the object goes through the flush step |
| Batch.BatchWithRetry.SendBatch | pkg/database/batch.go:66-128 | the recursive code does to the database, the error lists and the counter exactly what the recursion `Bisect.Send` says, and leaves the connection error of the last of its exchanges that lost the connection, if one did |
| Bisect.SendTracesLosses | pkg/database/batch.go:78-82 | so does the recursion |
| Batch.BatchWithRetry.SendHalves | pkg/database/batch.go:118-127 | both halves are sent in order and their outcomes joined |
| Batch.BatchWithRetry.Advance | pkg/database/batch.go:66-128 | a step of a goroutine on the object is a step of the state machine |
| Batch.BatchWithRetry.Wait | pkg/database/sync.go:131-132 | waiting ends with the counter at zero, whatever the scheduler does, and the invariant intact |
| Batch.BatchWithRetry.Submit | pkg/database/batch.go:49-62 | with the started batches running on, an item is accepted, or refused behind everything accepted, and an error is returned exactly when it is refused; it is the message of an exchange that lost the connection |
| Batch.BatchWithRetry.Finish | pkg/database/sync.go:128-132 | after the flush and the wait every accepted item has its fate, nothing is queued, and the connection error is that of the last loss |
| Tables.ApplyRowByRow | pkg/database/goquHelper.go:43-94 | each statement, read as SQL over the table, does to every row what the row-by-row reading says, and looks at no other row |
| Tables.LogApplies | pkg/database/batch.go:76-112 | what was rejected or lost leaves no trace: the state is that of the effective statements |
| Tables.DisjointIndependent | pkg/database/goquHelper.go:43-94 | statements that touch different rows commute and do not decide each other's rejection |
| Tables.OwnerUnique | pkg/database/sync.go:16-25 | a uid "cluster/rest" or "cluster__name" belongs to one cluster only, for names without a slash |
| Tables.NodeHasNoSlash | pkg/database/upsertCluster.go:20-20 | a node's uid never has a uid prefix of a cluster |
| Tables.OwnershipKept | pkg/database/goquHelper.go:44-51 | statements that name their own rows keep every row named after its owner |
| Tables.OtherClustersUntouched | pkg/database/goquHelper.go:43-94 | scoped statements leave every row and edge of other clusters as it was and add none, even with colliding keys |
| Sync.AcceptedIffPrefixed | pkg/database/sync.go:19-25 | a uid is accepted exactly if it is the cluster name, a slash and any rest |
| Sync.AcceptedItemsAre | pkg/database/sync.go:38-71 | the statements queued for a list are those of its accepted resources, no others |
| Sync.ProgramCounts | pkg/database/sync.go:38-126 | how many statements and rejections of each action an event gives rise to |
| Sync.EdgeDeletesApart | pkg/database/sync.go:88-126 | under the shared action, explicit edge deletions and the one cascade are told apart and counted |
| Sync.QueueResources | pkg/database/sync.go:38-71 | accepted resources are queued in order, the others reported, and the last queue error says whether anything was refused |
| Sync.QueueBulkDelete | pkg/database/sync.go:75-103 | the two bulk deletions are queued, only if there is something to delete, and an error of the first is not lost |
| Sync.QueueEdges | pkg/database/sync.go:105-113 | every added edge is queued in order |
| Sync.QueueEdgeDeletes | pkg/database/sync.go:118-126 | every deleted edge is queued in order |
| Sync.QueueEvent | pkg/database/sync.go:34-126 | the whole event is queued as one program |
| Sync.FillTotals | pkg/database/sync.go:138-143 | the totals are the requested counts minus the lengths of the error lists |
| Errors.ListsName | pkg/database/batch.go:94-110 | which statements and rejections an entry of each list stands for |
| Errors.ProgramNames | pkg/database/sync.go:38-126 | every item of a delta carries the action of its statement and the uid that an error will name |
| Errors.ResyncNames | pkg/database/resync.go:70-212 | so does every item of a resync |
| Errors.ListingJoins | pkg/database/sync.go:75-101 | a list of uids is named in brackets, with a space between any two |
| Errors.RejectedAre | pkg/database/sync.go:16-25 | the rejections are exactly the resources whose uid does not start with the cluster name and a slash, with that prefix |
| SyncEffect.ProgramOnRow | pkg/database/sync.go:44-80 | what any statement of a delta can do to a row |
| SyncEffect.ProgramOnEdge | pkg/database/sync.go:85-126 | what any statement of a delta can do to an edge |
| SyncEffect.BystanderOnRow | pkg/database/sync.go:19-25 | statements of other clusters' requests and of node events neither take nor give rows of this cluster |
| SyncEffect.RowGoal | pkg/database/sync.go:34-103 | a row of the next state ends with exactly its properties, in every order and with bystanders in between |
| SyncEffect.RowGone | pkg/database/sync.go:71-103 | a row outside the next state ends outside the cluster |
| SyncEffect.EdgeGoal | pkg/database/sync.go:105-126 | an edge ends owned by the cluster exactly if it is in the next state |
| SyncEffect.SyncDataExact | pkg/database/sync.go:27-147 | so does a run of `SyncData` that returned nil with nothing rejected |
| Resync.UpsertResources | pkg/database/resync.go:178-228 | accepted resources are queued and their uids kept up to the first malformed element; a refusal stops the scan with an error and a prefix of the rejections; the total counts what was accepted; without an error the last resource is returned |
| Resync.QueueReset | pkg/database/resync.go:58-94 | the deletions are queued behind the upserts, with the full list of uids to keep; after a refused upsert both are refused |
| Resync.ReadExisting | pkg/database/resync.go:119-139 | the map holds existing edges under their concatenated keys, and every existing edge's concatenation is in it |
| Resync.AddEdges | pkg/database/resync.go:318-364 | edges not in the map are queued and counted, the others leave the map; the scan stops at a malformed element or a refusal; the total counts what was accepted |
| Resync.DeleteRemaining | pkg/database/resync.go:147-164 | every edge left in the map is queued for deletion once and counted; a refusal returns at once |
| Resync.QueueDiff | pkg/database/resync.go:142-164 | unless something is refused, insertions then deletions make up the diff and the totals count both, also if an element is malformed; in any case they count what was accepted |
| ResyncEffect.KeepListIs | pkg/database/resync.go:62-62 | the list of uids to keep is the accepted uids and the cluster node |
| ResyncEffect.ResetOnRow | pkg/database/resync.go:65-78 | what any statement of the reset can do to a row |
| ResyncEffect.ResetOnEdge | pkg/database/resync.go:80-94 | what any statement of the reset can do to an edge |
| ResyncEffect.ResetNeverDeletesIncoming | pkg/database/resync.go:61-78 | whatever part of the reset takes effect, no incoming uid is deleted and the node is not touched |
| ResyncEffect.ResetEdgesLeft | pkg/database/resync.go:80-94 | of the cluster's edges exactly those between kept uids survive the reset, amid other requests |
| EdgeDiff.RemainingIs | pkg/database/resync.go:337-341 | the map keeps exactly the entries that no incoming edge looked up |
| EdgeDiff.InsertedAre | pkg/database/resync.go:337-344 | an occurrence is inserted exactly if its concatenation was never remembered or already looked up |
| EdgeDiff.ExactIffNoHarmfulCollision | pkg/database/resync.go:136-136 | for the map that was read, the diff leaves exactly the incoming edges not owned elsewhere if and only if no collision gets in its way |
| EdgeDiff.InjectiveIsExact | pkg/database/resync.go:338-338 | tables and body whose concatenations differ are free of collisions |
| Convergence.InjectiveAtTheStart | pkg/database/resync.go:136-136 | if the concatenations of the edges at the start and in the body differ, no collision gets in the way of the resync |
| Convergence.CollisionLosesAnEdge | pkg/database/resync.go:338-341 | after a resync without any failure, with all uids in the body, the incoming edge c/1x -t-> c/2 is missing and the old edge c/1 -xt-> c/2 is still there |
| Requests.DisjointConfluence | pkg/database/batch.go:49-128 | confluence for statements that touch different rows, with local failures |
| Requests.WellFormedIsDisjoint | pkg/database/sync.go:34-126 | the statements of a well-formed delta touch different rows, unless it deletes an edge both by name and with a resource |
| Convergence.ResyncDataSucceeds | pkg/database/resync.go:22-48 | a `ResyncData` that returned nil with everything committed is a successful resync |
| Convergence.ResyncKeepsNode | pkg/database/resync.go:61-62 | the node stays as it is unless a node event comes in between |
| Convergence.ClusterTotals | pkg/database/dataValidation.go:15-62 | the two counts, without the node and without inter-cluster edges, and the error when a row does not arrive |
| Convergence.TotalsOfMatching | pkg/database/dataValidation.go:18-41 | tables that match a collector count what the collector holds |
| Scan.ReadArray | pkg/database/resync.go:193-223 | the loop over the elements reads what the specification says, and ends |
| Scan.ScanResources | pkg/database/resync.go:178-228 | the scan for resources returns after the first marker's array |
| Scan.ScanEdges | pkg/database/resync.go:318-364 | the scan for edges reads on to the end of the input |
| Scan.ReadsElements | pkg/database/resync.go:193-197 | an array is read element by element, in order, up to the first that does not decode |
| Scan.ScanOnceFinds | pkg/database/resync.go:182-225 | if no earlier string is the marker, the scan for resources yields exactly the elements under it |
| Scan.ScanAllFinds | pkg/database/resync.go:321-361 | where the scan for edges skims over all other occurrences it yields exactly the elements, up to the first that does not decode |
| Scan.ScanAllIsEmptyIffSkims | pkg/database/resync.go:321-361 | whatever the tokens and the decoder, the scan for edges ends without elements and without failing if and only if it skims over every occurrence of the marker |
| Scan.SkimmedMarker | pkg/database/resync.go:327-332 | an earlier marker that is one but last in an array is skimmed over |
| Scan.EarlierMarkerMisleads | pkg/database/resync.go:188-197 | an earlier string equal to the marker makes the scan fail where a full decode succeeds |
| Scan.NullMisleads | pkg/database/resync.go:188-197 | null under the marker with another field behind it makes both scans fail or find elements, where a full decode succeeds with none |
| ClusterCache.SameSizeAndPointwise | pkg/database/upsertCluster.go:250-260 | equal size and agreement on the keys of one map is equality |
| ClusterCache.Clusters.ReadClustersCache | pkg/database/cache.go:10-18 | reading finds exactly the entries of the cache |
| ClusterCache.Clusters.UpdateClustersCache | pkg/database/cache.go:20-29 | an update sets one entry, and nothing for the empty uid |
| ClusterCache.Clusters.DeleteClustersCache | pkg/database/cache.go:31-35 | a deletion removes one entry |
| ClusterCache.Clusters.ClusterInDB | pkg/database/upsertCluster.go:195-243 | a missing entry is loaded from the table if it answers, and the result says whether there is an entry now |
| ClusterCache.Clusters.ClusterPropsUpToDate | pkg/database/upsertCluster.go:245-271 | the comparison loop decides equality with the cached properties |
| ClusterCache.Clusters.UpsertCluster | pkg/database/upsertCluster.go:160-193 | the new tables and cache for every outcome of context, query and write, and that a statement is sent exactly unless the cached properties, or those read from the table when none are cached, are these ones |
| ClusterCache.WrittenOnce | pkg/database/upsertCluster.go:176-191 | after a good upsert the same properties are not written again |
| ClusterCache.UpsertCoherence | pkg/database/upsertCluster.go:176-187 | an upsert keeps the cached properties the stored ones if and only if it does not change a cached node and lose the reply |
| ClusterCache.DeleteCoherence | pkg/database/upsertCluster.go:26-32 | a deletion does so if and only if it does not delete a cached node and lose the reply |
| ClusterCache.SkippingIsWriting | pkg/database/upsertCluster.go:176-191 | with a coherent cache a skipped write would have changed nothing |
| ClusterCache.DeltaSparesNodes | pkg/database/sync.go:75-93 | a delta sync leaves the nodes alone if and only if it does not ask to delete its own |
| ClusterCache.ResyncSparesNodes | pkg/database/resync.go:61-78 | a resync leaves the nodes alone |
| ClusterCache.ResyncIsClean | pkg/database/resync.go:61-164 | the statements of a resync, in both of its phases, are among the events of such runs |
| ClusterCache.ClusterDeletionIsClean | pkg/database/upsertCluster.go:91-123 | so are the statements that delete everything of a cluster but its node |
| ClusterMerge.AddAdditionalProperties | pkg/clustersync/clusterSync.go:248-266 | own properties win over cached ones, and the fixed ones over both |
| ClusterMerge.TransformManagedClusterInfo | pkg/clustersync/clusterSync.go:269-291 | the node's uid and its merged properties for a ManagedClusterInfo |
| ClusterMerge.TransformManagedCluster | pkg/clustersync/clusterSync.go:294-336 | the node's uid and its merged properties for a ManagedCluster, with one property per condition |
| ClusterMerge.GetEnabledAddons | pkg/clustersync/clusterSync.go:417-428 | every add-on is listed, as "true" exactly if the cluster carries its label |
| ClusterMerge.ProcessClusterUpsert | pkg/clustersync/clusterSync.go:189-229 | the event's effect on tables and cache; other kinds change nothing |
| ClusterMerge.NameProperty | pkg/clustersync/clusterSync.go:249-250 | every transformed object carries a textual name, which selects the cached properties |
| ClusterMerge.NoConditionRenames | pkg/clustersync/clusterSync.go:325-327 | without a condition named "name" the name property is the name |
| ClusterMerge.RenamedByCondition | pkg/clustersync/clusterSync.go:325-328 | a cluster a with the condition name: b is written as a row of cluster b with properties cached for b |
| ClusterMerge.MarshalIsInjective | pkg/database/upsertCluster.go:166-166 | what is stored tells the properties of such objects apart |
| ClusterMerge.ClusterAndInfoAgree | pkg/clustersync/clusterSync.go:269-336 | the two kinds agree unless a condition is named like a property of the ManagedClusterInfo |
| ClusterMerge.LabelsAreStored | pkg/clustersync/clusterSync.go:302-316 | the labels are stored as they are, and each of the nine add-ons as "true" exactly if it has a label |
| ClusterMerge.ConditionIsStored | pkg/clustersync/clusterSync.go:325-327 | of the conditions of each kind the last one is stored |
| ClusterMerge.NodeKeepsItsCluster | pkg/database/upsertCluster.go:292-306 | a node keeps the cluster under which it was created, whatever name an object gives it |
| DeleteRetry.DeletedMeets | pkg/database/upsertCluster.go:273-290 | the deletion leaves nothing of the cluster but its node, touches nothing else, and adds nothing |
| DeleteRetry.WaitReachesTheLimit | pkg/database/upsertCluster.go:58-62 | the wait grows by 500 ms up to the limit and is the limit from there on |
| DeleteRetry.DeleteClusterResourcesTxn | pkg/database/upsertCluster.go:70-132 | both deletions take effect or neither does, and success is reported only after the commit |
| DeleteRetry.DeleteClusterTxn | pkg/database/upsertCluster.go:134-158 | the node's row is deleted by its uid |
| DeleteRetry.DeleteClusterAndResources | pkg/database/upsertCluster.go:19-33 | both phases; the second is the cache's deletion step: the node leaves the cache exactly when its deletion is known to have succeeded |
| DeleteRetry.ProcessClusterDelete | pkg/clustersync/clusterSync.go:338-372 | a deleted ManagedCluster takes its resources, edges, node and cache entry with it, an add-on the resources and edges of its namespace, other kinds nothing |
| DeleteRetry.GetManagedClusters | pkg/database/upsertCluster.go:308-342 | exactly the named clusters that hold a resource without the hub marker, or the error of the query |
| DeleteRetry.FindStaleClusterResources | pkg/clustersync/clusterSync.go:375-414 | exactly the managed clusters of the database that are not listed with an available search collector; nothing if listing or querying fails |
| DeleteRetry.NothingStaleLeft | pkg/clustersync/clusterSync.go:138-150 | then another look finds nothing stale, if every cluster's own node carries the hub marker |
| HubMark.NodesStayMarked | pkg/clustersync/clusterSync.go:264-264 | over every run of node events and requests every node carries the hub marker |
| HubMark.ObjectsMark | pkg/clustersync/clusterSync.go:264-264 | every upserted object marks its node |
| HubMark.RequestsMark | pkg/database/sync.go:16-25 | the statements of deltas and resyncs give no cluster an unmarked node |
| HubMark.ObjectEvent | pkg/clustersync/clusterSync.go:189-229 | the upsert of an object is an event of the runs above exactly if the kind that it gives its node is Cluster |
| HubRename.OldHubs | pkg/database/resync.go:255-286 | the former hubs are the named clusters, other than the asking one, with a marked row of a kind other than Cluster |
| HubRename.ForgottenHub | pkg/database/resync.go:255-286 | a cluster without resources is not found as a former hub, whatever edges it has |
| HubRename.DeleteOldHub | pkg/database/resync.go:289-316 | two separate statements, of which the outcomes decide whether the hub is gone, kept, or its edges leak |
| HubRename.CheckHubClusterRename | pkg/database/resync.go:250-298 | one pass: whether it gets through, how many hubs it tries and how many are left follow from the outcomes of its statements, a hub leaks exactly by its outcomes, and other clusters keep everything |
| Limiters.LargeRequestLimiter.CheckCount | pkg/server/largeRequestLimiter.go:23-32 | the first critical section: admitted exactly below the limit |
| Limiters.LargeRequestLimiter.Increment | pkg/server/largeRequestLimiter.go:34-36 | the second critical section: count the request |
| Limiters.LargeRequestLimiter.Decrement | pkg/server/largeRequestLimiter.go:38-42 | the deferred critical section: uncount it |
| Limiters.RequestLimiter.CheckTracker | pkg/server/requestLimiter.go:26-47 | the first critical section: admitted exactly if the cluster has no request counted and the tracker is below the limit or the request is the hub's |
| Limiters.RequestLimiter.InsertRequest | pkg/server/requestLimiter.go:49-51 | the cluster enters the tracker |
| Limiters.RequestLimiter.DeleteRequest | pkg/server/requestLimiter.go:53-57 | the cluster leaves the tracker |
| Limiters.ClustersAreServedOneAtATime | pkg/server/requestLimiter.go:26-57 | if no two requests of a cluster are in the gap together, each cluster is served one request at a time and the tracker is exact |
| Limiters.TwinsAreServedTogether | pkg/server/requestLimiter.go:26-57 | a witness: two requests of a cluster are served together, and when one is done a third is admitted beside the other |

## Left out

- The value returned by `sendBatch`: its callers ignore it, and nothing is claimed about it.
- Unsynchronised memory effects: appending to an error list, and setting the connection error, are single steps.
- Whether a failing statement shows at `Exec` or at `Close` is the driver's behaviour, assumed as described above.
- HTTP, configuration, metrics, logging, Kubernetes clients, informers and leader election are not part of this model; events are inputs.
- SQL text and the query builder: statements are modelled by their meaning; a failure to build one does not occur for the statements of the code.
- JSON decoding of values and numbers beyond integers, case-insensitive field names, and JSON that does not parse as a stream of tokens (the scans loop on such an error).
- Resync.ReadExisting: a failing query and unreadable rows while the existing edges are read are not modelled.
- Resync.UpsertResources: says nothing of the returned resource after a malformed element, which the code has reset and perhaps filled in part.
- SyncEffect.SyncExact: assumes that no other cluster claims an edge that the delta adds, before or while it runs; whichever comes first would own it.
- SyncEffect.EdgeGoal: the same assumption.
- Convergence.ResyncExact: of the incoming edges that another cluster owns at the start, the other requests in between are assumed not to give any up, and to claim none of the incoming edges.
- Convergence.ResyncIsIdempotent: assumes that a body does not give the same edge key two different kinds, and the same for uids and properties.
- Requests.WellFormedIsDisjoint: does not cover a delta that deletes an edge both by name and with a resource; `Requests.WellFormedConfluence` does, for rejections that do not depend on the state.
- Requests.EveryHistoryKeepsOwnership: node upserts are those that name the node after its cluster column; `ClusterMerge.KeepsOwnershipIffNamed` says which objects give rise to them.
- Scan.ReadElements: inside an object the real decoder fails where a key or a second value is read as an element; the model reads on, but a scan that gets there has already failed to agree.
- DeleteRetry.DeleteWithRetry: runs over a finite script of attempts, and nothing else writes between them.
- HubRename.HubClusterCleanUpWithRetry: runs over a finite script of passes, and nothing else writes between them.
- ClusterMerge.LastWriterWins: does not cover the node of an object that a condition renames; `ClusterMerge.EveryNode` does, and `ClusterMerge.MergesItsOwnNodeIffNamed` says exactly when that happens.
- ClusterCache.CachedRefinesAlways: events are serialised; overlapping deletes and upserts, several replicas with separate caches, and the hub clean-up, which does not touch the cache, are outside.
- Real time: only the computed waits are modelled.
