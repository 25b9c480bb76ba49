/** Removing a cluster: transactional deletes that are retried until they succeed or the context ends,
    and the removal of clusters that are gone. */
module DeleteRetry {
  import opened Options
  import opened Tables
  import opened Batch
  import opened ClusterCache
  import opened Requests

  // How an attempt goes. A failing commit may have been applied all the same.
  datatype Attempt = BeginFails | ResourcesFail | EdgesFail | CommitFails(applied: bool) | Succeeds

  // One turn of the retry loop: whether the context is done before it, whether the error is the
  // context's, and how the attempt goes.
  datatype Turn = Turn(cancelled: bool, contextError: bool, attempt: Attempt)

  datatype Target = ResourcesOf(cluster: string) | NodeOf(uid: string)

  // `Pending`: every turn of the script failed, and the loop goes on.
  datatype Outcome = Done | GaveUp | Pending

  function Deleted(db: Database, target: Target): Database {
    match target
    case ResourcesOf(cluster) => Apply(Apply(db, DeleteClusterResources(cluster)), DeleteClusterEdges(cluster))
    case NodeOf(uid) => Apply(db, DeleteByUid(uid))
  }

  // Nothing of the cluster is left but its node.
  ghost predicate Emptied(db: Database, cluster: string) {
    && (forall u :: OwnedBy(RowAt(db, u), cluster) ==> u == NodeUid(cluster))
    && (forall k :: !EdgeOwnedBy(EdgeAt(db, k), cluster))
  }

  ghost predicate Met(db: Database, target: Target) {
    match target
    case ResourcesOf(cluster) => Emptied(db, cluster)
    case NodeOf(uid) => RowAt(db, uid).None?
  }

  // Rows and edges may disappear; none is added or changed.
  ghost predicate OnlyRemoves(before: Database, after: Database) {
    && (forall u | RowAt(after, u).Some? :: RowAt(after, u) == RowAt(before, u))
    && (forall k | EdgeAt(after, k).Some? :: EdgeAt(after, k) == EdgeAt(before, k))
  }

  // What the deletion must not touch: other clusters, and the cluster's own node or, when the node
  // is the target, every other row.
  ghost predicate Spared(before: Database, after: Database, target: Target) {
    OnlyRemoves(before, after) &&
    match target
    case ResourcesOf(cluster) =>
      OthersUntouched(before, after, cluster) && RowAt(after, NodeUid(cluster)) == RowAt(before, NodeUid(cluster))
    case NodeOf(uid) => after.edges == before.edges && forall u | u != uid :: RowAt(after, u) == RowAt(before, u)
  }

  lemma DeletedMeets(db: Database, target: Target)
    ensures Met(Deleted(db, target), target) && Spared(db, Deleted(db, target), target)
  {
  }

  lemma SparedAtFirst(a: Database, target: Target)
    ensures Spared(a, a, target)
  {
  }

  // ----- Waiting -----

  // The wait after failure number `retry`, counted from zero.
  function WaitMS(retry: nat, maxBackoffMS: nat): nat {
    if retry * 500 < maxBackoffMS then retry * 500 else maxBackoffMS
  }

  function TotalWait(failures: nat, maxBackoffMS: nat): nat {
    if failures == 0 then 0 else TotalWait(failures - 1, maxBackoffMS) + WaitMS(failures - 1, maxBackoffMS)
  }

  // 0 + 500 + ... + 500(n - 1), as the waits are without a limit.
  function Unlimited(failures: nat): nat {
    if failures == 0 then 0 else Unlimited(failures - 1) + 500 * (failures - 1)
  }

  lemma {:induction false} UnlimitedIsQuadratic(failures: nat)
    ensures Unlimited(failures) == 250 * (failures * (failures - 1))
  {
    if failures > 0 {
      UnlimitedIsQuadratic(failures - 1);
      var n := failures - 1;
      assert failures * (failures - 1) == n * (n - 1) + 2 * n;
    }
  }

  lemma {:induction false} TotalWaitIsLimited(failures: nat, maxBackoffMS: nat)
    ensures TotalWait(failures, maxBackoffMS) <= failures * maxBackoffMS
  {
    if failures > 0 {
      TotalWaitIsLimited(failures - 1, maxBackoffMS);
      assert failures * maxBackoffMS == (failures - 1) * maxBackoffMS + maxBackoffMS;
    }
  }

  lemma {:induction false} TotalWaitIsUnlimited(failures: nat, maxBackoffMS: nat)
    ensures TotalWait(failures, maxBackoffMS) <= Unlimited(failures)
    ensures failures == 0 || 500 * (failures - 1) <= maxBackoffMS ==>
      TotalWait(failures, maxBackoffMS) == Unlimited(failures)
  {
    if failures > 0 { TotalWaitIsUnlimited(failures - 1, maxBackoffMS); }
  }

  /** The waits grow linearly up to the limit, so that the total after n failures is within both
      bounds, and on the second one as long as the limit is not reached. */
  lemma {:induction false} TotalWaitBound(failures: nat, maxBackoffMS: nat)
    ensures TotalWait(failures, maxBackoffMS) <= failures * maxBackoffMS
    ensures TotalWait(failures, maxBackoffMS) <= 250 * (failures * (failures - 1))
    ensures failures == 0 || 500 * (failures - 1) <= maxBackoffMS ==>
      TotalWait(failures, maxBackoffMS) == 250 * (failures * (failures - 1))
  {
    hide TotalWait, Unlimited;
    TotalWaitIsLimited(failures, maxBackoffMS);
    TotalWaitIsUnlimited(failures, maxBackoffMS);
    UnlimitedIsQuadratic(failures);
  }

  /** Up to the limit the wait is 500 ms longer after each failure, and from there on it is the limit. */
  lemma WaitReachesTheLimit(retry: nat, maxBackoffMS: nat)
    ensures retry * 500 >= maxBackoffMS ==> WaitMS(retry, maxBackoffMS) == maxBackoffMS
    ensures (retry + 1) * 500 <= maxBackoffMS ==>
      WaitMS(retry + 1, maxBackoffMS) == WaitMS(retry, maxBackoffMS) + 500
  {
  }

  // The number of failures after which the wait is the limit.
  function Steps(maxBackoffMS: nat): nat {
    (maxBackoffMS + 499) / 500
  }

  /** The total in closed form: a parabola up to the limit, a straight line behind it. */
  lemma {:induction false} TotalWaitIs(failures: nat, maxBackoffMS: nat)
    ensures var n := Steps(maxBackoffMS);
      TotalWait(failures, maxBackoffMS)
      == if failures <= n then 250 * (failures * (failures - 1))
         else 250 * (n * (n - 1)) + (failures - n) * maxBackoffMS
  {
    var n := Steps(maxBackoffMS);
    if failures <= n {
      TotalWaitBound(failures, maxBackoffMS);
    } else {
      TotalWaitIs(failures - 1, maxBackoffMS);
      WaitReachesTheLimit(failures - 1, maxBackoffMS);
      assert (failures - n) * maxBackoffMS == (failures - 1 - n) * maxBackoffMS + maxBackoffMS;
    }
  }

  // ----- The code -----

  // Delete the resources and the edges of a cluster in one transaction.
  method DeleteClusterResourcesTxn(pool: Pool, cluster: string, attempt: Attempt) returns (ok: bool)
    modifies pool
    ensures ok <==> attempt.Succeeds?
    ensures pool.db == if attempt.Succeeds? || attempt == CommitFails(true)
                       then Deleted(old(pool.db), ResourcesOf(cluster)) else old(pool.db)
  {
    if attempt.BeginFails? { return false; }
    var tx := pool.db;
    if attempt.ResourcesFail? { return false; }
    tx := Apply(tx, DeleteClusterResources(cluster));
    if attempt.EdgesFail? { return false; }
    tx := Apply(tx, DeleteClusterEdges(cluster));
    if attempt.CommitFails? {
      if attempt.applied { pool.db := tx; }
      return false;
    }
    pool.db := tx;
    return true;
  }

  // Delete the node of a cluster, in one statement without a transaction of its own.
  method DeleteClusterTxn(pool: Pool, uid: string, attempt: Attempt) returns (ok: bool)
    modifies pool
    ensures ok <==> attempt.Succeeds?
    ensures pool.db == if attempt.Succeeds? || attempt == CommitFails(true)
                       then Deleted(old(pool.db), NodeOf(uid)) else old(pool.db)
  {
    if attempt.Succeeds? || attempt == CommitFails(true) {
      pool.db := Apply(pool.db, DeleteByUid(uid));
    }
    return attempt.Succeeds?;
  }

  // The turns before `i` all fail, and none of them for the context's sake.
  ghost predicate FailsBefore(script: seq<Turn>, i: nat) {
    forall j | 0 <= j < i && j < |script| ::
      !script[j].cancelled && !script[j].contextError && !script[j].attempt.Succeeds?
  }

  // Some attempt of the script is made and succeeds.
  ghost predicate Completes(script: seq<Turn>) {
    exists i: nat :: i < |script| && script[i].attempt.Succeeds? && !script[i].cancelled && FailsBefore(script, i)
  }

  // Some attempt of the first `n` turns takes effect, whether or not that becomes known.
  ghost predicate AppliedBefore(script: seq<Turn>, n: nat) {
    exists i: nat :: i < n && i < |script| && (script[i].attempt.Succeeds? || script[i].attempt == CommitFails(true))
  }

  lemma DeletedTwice(db: Database, target: Target)
    ensures Deleted(Deleted(db, target), target) == Deleted(db, target)
  {
  }

  // One attempt, for either target.
  method TryDelete(pool: Pool, target: Target, attempt: Attempt) returns (ok: bool)
    modifies pool
    ensures ok <==> attempt.Succeeds?
    ensures pool.db == if attempt.Succeeds? ||
      attempt == CommitFails(true) then Deleted(old(pool.db), target) else old(pool.db)
  {
    match target {
      case ResourcesOf(cluster) => ok := DeleteClusterResourcesTxn(pool, cluster, attempt);
      case NodeOf(uid) => ok := DeleteClusterTxn(pool, uid, attempt);
    }
  }

  /** Retry until the deletion succeeds or the context ends. `states` are the states of the database
      after each attempt: the deletion has happened in full or not at all in each of them. Success means
      that the target is gone; nothing else is ever touched, not even for the time of a retry. */
  method DeleteWithRetry(pool: Pool, target: Target, script: seq<Turn>, maxBackoffMS: nat)
      returns (outcome: Outcome, ghost states: seq<Database>, slept: nat, retry: nat)
    modifies pool
    ensures outcome.Done? <==> Completes(script)
    ensures outcome.Done? ==> Met(pool.db, target) && pool.db == Deleted(old(pool.db), target)
    ensures FailsBefore(script, retry) && retry <= |script| && (outcome.Pending? <==> retry == |script|)
    ensures outcome.Done? ==> !script[retry].cancelled && script[retry].attempt.Succeeds?
    ensures outcome.GaveUp? ==>
      script[retry].cancelled || (script[retry].contextError && !script[retry].attempt.Succeeds?)
    ensures |states| == if outcome.Done? || (outcome.GaveUp? && !script[retry].cancelled) then retry + 1 else retry
    ensures forall i | 0 <= i < |states| ::
      states[i] == if AppliedBefore(script, i + 1) then Deleted(old(pool.db), target) else old(pool.db)
    ensures Spared(old(pool.db), old(pool.db), target) && Spared(old(pool.db), Deleted(old(pool.db), target), target)
    ensures pool.db == if AppliedBefore(script, |states|) then Deleted(old(pool.db), target) else old(pool.db)
    ensures slept == TotalWait(retry, maxBackoffMS)
  {
    hide Deleted, Met, Spared, TotalWait;
    outcome, states, slept, retry := Pending, [], 0, 0;
    ghost var before, gone := pool.db, Deleted(pool.db, target);
    DeletedMeets(before, target);
    DeletedTwice(before, target);
    SparedAtFirst(before, target);
    NoWait(maxBackoffMS);
    while retry < |script|
      invariant retry <= |script| && FailsBefore(script, retry) && |states| == retry
      invariant slept == TotalWait(retry, maxBackoffMS)
      invariant pool.db == if AppliedBefore(script, retry) then gone else before
      invariant forall i | 0 <= i < |states| :: states[i] == if AppliedBefore(script, i + 1) then gone else before
    {
      var turn := script[retry];
      if turn.cancelled { return GaveUp, states, slept, retry; }
      var ok := TryDelete(pool, target, turn.attempt);
      AppliedSnoc(script, retry);
      states := states + [pool.db];
      if ok { return Done, states, slept, retry; }
      if turn.contextError { return GaveUp, states, slept, retry; }
      slept := slept + WaitMS(retry, maxBackoffMS);
      retry := retry + 1;
      OneWaitMore(retry, maxBackoffMS);
    }
  }

  lemma AppliedSnoc(script: seq<Turn>, n: nat)
    requires n < |script|
    ensures AppliedBefore(script, n + 1) <==>
      AppliedBefore(script, n) || script[n].attempt.Succeeds? || script[n].attempt == CommitFails(true)
  {
  }

  lemma NoWait(maxBackoffMS: nat)
    ensures TotalWait(0, maxBackoffMS) == 0
  {
  }

  lemma OneWaitMore(failures: nat, maxBackoffMS: nat)
    requires failures > 0
    ensures TotalWait(failures, maxBackoffMS)
      == TotalWait(failures - 1, maxBackoffMS) + WaitMS(failures - 1, maxBackoffMS)
  {
  }

  ghost predicate OthersKept(before: Database, after: Database, cluster: string) {
    && (forall u | u != NodeUid(cluster) && OfOtherRow(RowAt(before, u), cluster) ::
      RowAt(after, u) == RowAt(before, u))
    && (forall k | OfOtherEdge(EdgeAt(before, k), cluster) :: EdgeAt(after, k) == EdgeAt(before, k))
  }

  /** Delete everything of a cluster, and its node if asked, also when the first did not get done. The
      second phase, from the state `middle`, is the cache's deletion step with what finally becomes of
      its statement: the node leaves the cache exactly when its deletion is known to have succeeded. */
  method DeleteClusterAndResources(
    clusters: Clusters, cluster: string, deleteClusterNode: bool, script: seq<Turn>, nodeScript: seq<Turn>,
    maxBackoffMS: nat)
      returns (resourcesGone: bool, nodeGone: bool, ghost middle: Database, ghost write: Write)
    modifies clusters, clusters.pool
    ensures Spared(old(clusters.pool.db), middle, ResourcesOf(cluster))
    ensures middle == old(clusters.pool.db) || middle == Deleted(old(clusters.pool.db), ResourcesOf(cluster))
    ensures clusters.View()
      == if deleteClusterNode
        then DeleteStep(NodeState(middle, old(clusters.existingClustersCache)), NodeUid(cluster), write)
         else NodeState(middle, old(clusters.existingClustersCache))
    ensures resourcesGone <==> Completes(script)
    ensures nodeGone <==> deleteClusterNode && Completes(nodeScript)
    ensures deleteClusterNode ==> (nodeGone <==> write.Taken?)
    ensures OthersKept(old(clusters.pool.db), clusters.pool.db, cluster)
    ensures resourcesGone ==> Emptied(clusters.pool.db, cluster)
    ensures nodeGone ==> RowAt(clusters.pool.db, NodeUid(cluster)).None?
  {
    hide Completes;
    var uid := NodeUid(cluster);
    var outcome, slept, retry;
    ghost var states;
    SparedAtFirst(clusters.pool.db, ResourcesOf(cluster));
    outcome, states, slept, retry := DeleteWithRetry(clusters.pool, ResourcesOf(cluster), script, maxBackoffMS);
    resourcesGone, nodeGone, middle, write := outcome.Done?, false, clusters.pool.db, Taken;
    if deleteClusterNode {
      SparedAtFirst(middle, NodeOf(uid));
      outcome, states, slept, retry := DeleteWithRetry(clusters.pool, NodeOf(uid), nodeScript, maxBackoffMS);
      write := if outcome.Done? then Taken else Failed(clusters.pool.db != middle);
      if outcome.Done? {
        nodeGone := true;
        clusters.DeleteClustersCache(uid);
      }
    }
  }

  /** A deleted ManagedCluster takes its resources, edges and node with it; a deleted add-on takes the
      resources and edges of the cluster that is its namespace, and leaves the node; others take nothing. */
  method ProcessClusterDelete(
    clusters: Clusters, kind: string, name: string, namespace: string, script: seq<Turn>, nodeScript: seq<Turn>,
    maxBackoffMS: nat)
    modifies clusters, clusters.pool
    ensures kind == "ManagedCluster" ==>
      && OthersKept(old(clusters.pool.db), clusters.pool.db, name)
      && (Completes(script) ==> Emptied(clusters.pool.db, name))
      && (Completes(nodeScript) ==> RowAt(clusters.pool.db, NodeUid(name)).None?)
      && clusters.existingClustersCache
         == (if Completes(nodeScript) then old(clusters.existingClustersCache) - {NodeUid(name)}
             else old(clusters.existingClustersCache))
    ensures kind == "ManagedClusterAddOn" ==>
      && Spared(old(clusters.pool.db), clusters.pool.db, ResourcesOf(namespace))
      && (Completes(script) ==> Emptied(clusters.pool.db, namespace))
      && clusters.existingClustersCache == old(clusters.existingClustersCache)
    ensures kind != "ManagedCluster" && kind != "ManagedClusterAddOn" ==> clusters.View() == old(clusters.View())
  {
    hide Completes, Spared, OthersKept, Emptied;
    var clusterName, deleteClusterNode := name, false;
    if kind == "ManagedCluster" {
      deleteClusterNode := true;
    } else if kind == "ManagedClusterAddOn" {
      clusterName := namespace;
    } else {
      return;
    }
    ghost var middle, write;
    var resourcesGone, nodeGone;
    resourcesGone, nodeGone, middle, write :=
      DeleteClusterAndResources(clusters, clusterName, deleteClusterNode, script, nodeScript, maxBackoffMS);
  }

  // ----- Clusters that are gone -----

  datatype KubeCluster = KubeCluster(name: string, labels: map<string, string>)

  predicate Label(item: KubeCluster, key: string, value: string) {
    key in item.labels && item.labels[key] == value
  }

  // A managed cluster on which the search collector is available.
  predicate Collects(item: KubeCluster) {
    !Label(item, "local-cluster", "true") &&
      Label(item, "feature.open-cluster-management.io/addon-search-collector", "available")
  }

  // A cluster other than the hub's own has this name and says that its search collector is available.
  predicate Listed(items: seq<KubeCluster>, cluster: string) {
    exists i | 0 <= i < |items| ::
      && items[i].name == cluster
      && "feature.open-cluster-management.io/addon-search-collector" in items[i].labels
      && items[i].labels["feature.open-cluster-management.io/addon-search-collector"] == "available"
      && ("local-cluster" in items[i].labels ==> items[i].labels["local-cluster"] != "true")
  }

  predicate FromManaged(db: Database, u: string) {
    u in db.resources && "_hubClusterResource" !in db.resources[u].data
  }

  // The database holds a resource of this cluster that is not the hub's.
  ghost predicate Managed(db: Database, cluster: string) {
    cluster != "" && exists u | u in db.resources ::
      db.resources[u].cluster == cluster && "_hubClusterResource" !in db.resources[u].data
  }

  // The query may fail; a row that cannot be read is not part of this model.
  method GetManagedClusters(pool: Pool, queryErr: Option<string>) returns (managed: seq<string>, err: Option<string>)
    ensures err == queryErr && (err.Some? ==> managed == [])
    ensures err.None? ==> forall c :: c in managed <==> Managed(pool.db, c)
  {
    managed, err := [], queryErr;
    if err.Some? { return; }
    var todo := set u | u in pool.db.resources && FromManaged(pool.db, u) :: pool.db.resources[u].cluster;
    forall c ensures c in todo <==> exists u :: FromManaged(pool.db, u) && pool.db.resources[u].cluster == c {}
    while todo != {}
      invariant forall c | c in todo :: exists u :: FromManaged(pool.db, u) && pool.db.resources[u].cluster == c
      invariant forall c | c in managed :: Managed(pool.db, c)
      invariant forall c | Managed(pool.db, c) :: c in managed || c in todo
      decreases todo
    {
      var c :| c in todo;
      if c != "" {
        managed := managed + [c];
      }
      todo := todo - {c};
    }
  }

  // Listing the clusters or the query of the database may fail; then nothing is called stale.
  method FindStaleClusterResources(
    items: seq<KubeCluster>, listErr: Option<string>, pool: Pool, queryErr: Option<string>)
      returns (needToDelete: seq<string>, err: Option<string>)
    ensures err == if listErr.Some? then listErr else queryErr
    ensures if err.Some? then needToDelete == []
            else forall c :: c in needToDelete <==> Managed(pool.db, c) && !Listed(items, c)
  {
    needToDelete, err := [], listErr;
    if err.Some? { return; }
    var fromClient: set<string> := {};
    for i := 0 to |items|
      invariant forall c :: c in fromClient <==> Listed(items[..i], c)
    {
      assert items[..i + 1] == items[..i] + [items[i]];
      ListedSnoc(items[..i], items[i]);
      if Collects(items[i]) {
        fromClient := fromClient + {items[i].name};
      }
    }
    assert items[..|items|] == items;
    var fromDB;
    fromDB, err := GetManagedClusters(pool, queryErr);
    if err.Some? { return; }
    for i := 0 to |fromDB|
      invariant forall c :: c in needToDelete <==> c in fromDB[..i] && !Listed(items, c)
    {
      if fromDB[i] !in fromClient {
        needToDelete := needToDelete + [fromDB[i]];
      }
    }
  }

  lemma ListedSnoc(items: seq<KubeCluster>, item: KubeCluster)
    ensures forall c :: Listed(items + [item], c) <==> Listed(items, c) || (Collects(item) && item.name == c)
  {
    forall c ensures Listed(items + [item], c) <==> Listed(items, c) || (Collects(item) && item.name == c) {
      ListedIs(items + [item], c);
      ListedIs(items, c);
      hide Listed, Collects;
      var all := items + [item];
      if i :| 0 <= i < |items| && Collects(items[i]) && items[i].name == c {
        assert all[i] == items[i];
      }
      if Collects(item) && item.name == c { assert all[|items|] == item; }
    }
  }

  lemma ListedIs(items: seq<KubeCluster>, c: string)
    ensures Listed(items, c) <==> exists i | 0 <= i < |items| :: Collects(items[i]) && items[i].name == c
  {
  }

  // Everything of the clusters that are not stale is as it was.
  ghost predicate KeepsLive(before: Database, after: Database, stale: seq<string>) {
    && OnlyRemoves(before, after)
    && (forall u | RowAt(before, u).Some? && RowAt(before, u).value.cluster !in stale ::
      RowAt(after, u) == RowAt(before, u))
    && (forall k | EdgeAt(before, k).Some? && EdgeAt(before, k).value.cluster !in stale ::
      EdgeAt(after, k) == EdgeAt(before, k))
  }

  // Every cluster keeps its own node.
  ghost predicate NodesKept(before: Database, after: Database) {
    forall c | OwnedBy(RowAt(before, NodeUid(c)), c) :: RowAt(after, NodeUid(c)) == RowAt(before, NodeUid(c))
  }

  lemma NodesStay(before: Database, middle: Database, after: Database, cluster: string)
    requires NodesKept(before, middle) && Spared(middle, after, ResourcesOf(cluster))
    ensures NodesKept(before, after)
  {
    hide NodeUid;
  }

  lemma LiveStays(before: Database, middle: Database, after: Database, stale: seq<string>, cluster: string)
    requires KeepsLive(before, middle, stale) && Spared(middle, after, ResourcesOf(cluster)) && cluster in stale
    ensures KeepsLive(before, after, stale)
  {
  }

  /** The clean-up touches nothing of the clusters that are listed or the hub's. If it fails to find the stale
      clusters it touches nothing at all; otherwise, if all its deletions complete, the stale clusters keep
      no more than their nodes. Every cluster keeps its node. */
  method DeleteStaleClusterResources(
    clusters: Clusters, items: seq<KubeCluster>, listErr: Option<string>, queryErr: Option<string>,
    scripts: nat -> seq<Turn>, maxBackoffMS: nat)
      returns (err: Option<string>, ghost stale: seq<string>)
    modifies clusters, clusters.pool
    ensures err == if listErr.Some? then listErr else queryErr
    ensures if err.Some? then stale == [] && clusters.pool.db == old(clusters.pool.db)
            else forall c :: c in stale <==> Managed(old(clusters.pool.db), c) && !Listed(items, c)
    ensures KeepsLive(old(clusters.pool.db), clusters.pool.db, stale)
    ensures (forall i | 0 <= i < |stale| :: Completes(scripts(i))) ==> forall c | c in stale ::
      Emptied(clusters.pool.db, c)
    ensures NodesKept(old(clusters.pool.db), clusters.pool.db)
    ensures clusters.existingClustersCache == old(clusters.existingClustersCache)
  {
    hide Emptied, KeepsLive, NodesKept, Spared, OthersKept, Managed, Listed, Completes, DeleteStep;
    var remaining;
    remaining, err := FindStaleClusterResources(items, listErr, clusters.pool, queryErr);
    stale := remaining;
    LiveAtFirst(clusters.pool.db, stale);
    if err.Some? { return; }
    for i := 0 to |remaining|
      invariant KeepsLive(old(clusters.pool.db), clusters.pool.db, stale)
      invariant NodesKept(old(clusters.pool.db), clusters.pool.db)
      invariant (forall j | 0 <= j < i :: Completes(scripts(j))) ==>
        forall c | c in remaining[..i] :: Emptied(clusters.pool.db, c)
      invariant clusters.existingClustersCache == old(clusters.existingClustersCache)
    {
      ghost var before := clusters.pool.db;
      var cluster := remaining[i];
      ghost var middle, write;
      var gone, node;
      gone, node, middle, write := DeleteClusterAndResources(clusters, cluster, false, scripts(i), [], maxBackoffMS);
      LiveStays(old(clusters.pool.db), before, clusters.pool.db, stale, cluster);
      NodesStay(old(clusters.pool.db), before, clusters.pool.db, cluster);
      if forall j | 0 <= j < i + 1 :: Completes(scripts(j)) {
        forall c | c in remaining[..i + 1] ensures Emptied(clusters.pool.db, c) {
          if c != cluster { StillEmptied(before, clusters.pool.db, cluster, c); }
        }
      }
    }
  }

  lemma StillEmptied(before: Database, after: Database, cluster: string, other: string)
    requires Spared(before, after, ResourcesOf(cluster)) && Emptied(before, other) && other != cluster
    ensures Emptied(after, other)
  {
  }

  lemma LiveAtFirst(db: Database, stale: seq<string>)
    ensures KeepsLive(db, db, stale) && NodesKept(db, db)
  {
  }

  // Every cluster's own node carries the mark of the hub.
  ghost predicate NodesMarked(db: Database) {
    forall c | OwnedBy(RowAt(db, NodeUid(c)), c) :: "_hubClusterResource" in db.resources[NodeUid(c)].data
  }

  /** Once that is done, another look finds nothing stale, if every node carries the hub marker. */
  lemma NothingStaleLeft(before: Database, after: Database, items: seq<KubeCluster>, stale: seq<string>)
    requires forall c :: c in stale <==> Managed(before, c) && !Listed(items, c)
    requires KeepsLive(before, after, stale) && (forall c | c in stale :: Emptied(after, c))
    requires NodesMarked(before)
    ensures forall c | Managed(after, c) :: Listed(items, c)
  {
    forall c | Managed(after, c) ensures Listed(items, c) {
      var u :| FromManaged(after, u) && after.resources[u].cluster == c;
      assert OnlyRemoves(before, after) && FromManaged(after, u) && RowAt(after, u).Some?;
      assert RowAt(after, u) == RowAt(before, u);
      assert FromManaged(before, u) && Managed(before, c);
      assert OwnedBy(RowAt(after, u), c) && OwnedBy(RowAt(before, u), c);
    }
  }
}
