/** The mark `_hubClusterResource`, by which the indexer tells the hub's rows from those of managed
    clusters: which clusters the nodes that it writes itself can turn into former hubs, and that
    every node carries it. */
module HubMark {
  import opened Options
  import opened Tables
  import opened Sync
  import opened SyncEffect
  import opened Resync
  import opened ResyncEffect
  import opened ClusterCache
  import opened DeleteRetry
  import opened HubRename
  import ClusterMerge

  // ----- Managed clusters are no former hubs -----

  // The kind that an object gives its node; a condition may override it.
  function KindProperty(obj: ClusterMerge.Object): Value
    requires ClusterMerge.IsCluster(obj)
  {
    KindStays(obj);
    ClusterMerge.OwnProperties(obj)["kind"]
  }

  lemma {:induction false} ConditionsKeepKind(props: Props, conditions: seq<ClusterMerge.Condition>)
    requires "kind" in props
    ensures var after := ClusterMerge.WithConditions(props, conditions);
      "kind" in after && ((forall i | 0 <= i < |conditions| :: conditions[i].kind != "kind") ==>
        after["kind"] == props["kind"])
  {
    if conditions != [] { ConditionsKeepKind(props, conditions[..|conditions| - 1]); }
  }

  lemma KindStays(obj: ClusterMerge.Object)
    requires ClusterMerge.IsCluster(obj)
    ensures "kind" in ClusterMerge.OwnProperties(obj)
    ensures (obj.ManagedCluster? ==> forall i | 0 <= i < |obj.conditions| :: obj.conditions[i].kind != "kind") ==>
      ClusterMerge.OwnProperties(obj)["kind"] == Text("Cluster")
  {
    if obj.ManagedCluster? { ConditionsKeepKind(ClusterMerge.BaseProperties(obj), obj.conditions); }
  }

  lemma UpsertedKind(cache: map<string, Props>, obj: ClusterMerge.Object)
    requires ClusterMerge.IsCluster(obj)
    ensures var props := ClusterMerge.Upserted(cache, obj);
      "_hubClusterResource" in props && "kind" in props && props["kind"] == KindProperty(obj)
  {
    KindStays(obj);
    hide ClusterMerge.OwnProperties;
  }

  /** Every node that an object writes, whatever is cached and in whatever weather, is left alone by the
      clean-up if and only if the kind that the object gives it is Cluster. Without a condition of that
      kind it is. */
  lemma NodesAreSparedIffKindStays(obj: ClusterMerge.Object)
    requires ClusterMerge.IsCluster(obj)
    ensures (forall s: NodeState, w, c | OnlyNodesMarked(s.db, c) ::
      OnlyNodesMarked(ClusterMerge.ObjectStep(s, obj, w).db, c)) <==> KindProperty(obj) == Text("Cluster")
  {
    if KindProperty(obj) == Text("Cluster") {
      forall s: NodeState, w, c | OnlyNodesMarked(s.db, c)
        ensures OnlyNodesMarked(ClusterMerge.ObjectStep(s, obj, w).db, c)
      {
        UpsertedKind(s.cache, obj);
        NodeKeepsMark(s, NodeUid(obj.name), ClusterMerge.Upserted(s.cache, obj), w, c);
      }
    } else {
      KindMakesAHub(obj);
    }
  }

  /** The upsert of an object is such an event exactly if the kind that it gives its node is Cluster. */
  lemma ObjectEvent(s: NodeState, obj: ClusterMerge.Object, w: Weather, c: string)
    requires ClusterMerge.IsCluster(obj)
    ensures var ev := Upsert(NodeUid(obj.name), ClusterMerge.Upserted(s.cache, obj), w);
      && Proper(ev) && ClusterMerge.ObjectStep(s, obj, w) == Step(s, ev)
      && (LeavesHubsAsTheyAre(ev, c) <==> KindProperty(obj) == Text("Cluster"))
  {
    UpsertedKind(s.cache, obj);
  }

  function Nothing(): NodeState {
    NodeState(Database(map[], map[]), map[])
  }

  lemma FirstRow(obj: ClusterMerge.Object)
    requires ClusterMerge.IsCluster(obj)
    ensures var props := ClusterMerge.Upserted(map[], obj);
      ClusterMerge.ObjectStep(Nothing(), obj, Weather(false, true, Taken)).db
      == Database(map[NodeUid(obj.name) := Row(ClusterMerge.NameProperty(obj), Marshal(props))], map[])
  {
    hide ClusterMerge.Upserted, Marshal, NodeUid;
  }

  // A node of another kind makes a former hub of its cluster.
  lemma KindMakesAHub(obj: ClusterMerge.Object)
    requires ClusterMerge.IsCluster(obj) && KindProperty(obj) != Text("Cluster")
    ensures var s := ClusterMerge.ObjectStep(Nothing(), obj, Weather(false, true, Taken));
      OnlyNodesMarked(Nothing().db, ClusterMerge.NameProperty(obj)) &&
        !OnlyNodesMarked(s.db, ClusterMerge.NameProperty(obj))
  {
    hide KindProperty, ClusterMerge.Upserted, ClusterMerge.ObjectStep, NodeUid;
    var props := ClusterMerge.Upserted(map[], obj);
    UpsertedKind(map[], obj);
    FirstRow(obj);
    assert !NodeOrUnmarked(Marshal(props));
    hide Marshal;
    var db := ClusterMerge.ObjectStep(Nothing(), obj, Weather(false, true, Taken)).db;
    assert NodeUid(obj.name) in db.resources && !NodeOrUnmarked(db.resources[NodeUid(obj.name)].data);
  }

  lemma NodeKeepsMark(s: NodeState, uid: string, props: Props, w: Weather, c: string)
    requires Named(props) && NodeOrUnmarked(props) && OnlyNodesMarked(s.db, c)
    ensures OnlyNodesMarked(UpsertStep(s, uid, props, w).db, c)
  {
    assert NodeOrUnmarked(Marshal(props));
  }

  // A request's statement gives no row of the cluster the mark of a hub, unless it is a cluster node.
  predicate LeavesUnmarked(st: Statement, c: string) {
    match st
    case UpsertResource(_, cluster, data) => cluster == c ==> NodeOrUnmarked(data)
    case UpdateResourceData(_, data, cluster) => cluster == c ==> NodeOrUnmarked(data)
    case UpsertNode(_, _, data) => NodeOrUnmarked(data)
    case _ => true
  }

  predicate LeavesHubsAsTheyAre(ev: NodeEvent, c: string) {
    match ev
    case Upsert(_, props, _) => NodeOrUnmarked(props)
    case Other(stmt) => LeavesUnmarked(stmt, c)
    case _ => true
  }

  lemma StatementLeavesUnmarked(db: Database, st: Statement, c: string)
    requires OnlyNodesMarked(db, c) && LeavesUnmarked(st, c)
    ensures OnlyNodesMarked(Apply(db, st), c)
  {
    hide NodeOrUnmarked;
  }

  lemma EventLeavesUnmarked(s: NodeState, ev: NodeEvent, c: string)
    requires Proper(ev) && OnlyNodesMarked(s.db, c) && LeavesHubsAsTheyAre(ev, c)
    ensures OnlyNodesMarked(Step(s, ev).db, c)
  {
    hide NodeOrUnmarked, OnlyNodesMarked, UpsertStep, Apply;
    match ev
    case Upsert(uid, props, w) => NodeKeepsMark(s, uid, props, w, c);
    case Delete(uid, write) => StatementLeavesUnmarked(s.db, DeleteByUid(uid), c);
    case Restart =>
    case Other(stmt) => StatementLeavesUnmarked(s.db, stmt, c);
  }

  /** A managed cluster, whose collector marks nothing, is at no time taken for a former hub, whichever
      nodes are upserted and deleted, whatever fails, and however often the indexer restarts. */
  lemma {:induction false} ManagedClusterIsSpared(s: NodeState, evs: seq<NodeEvent>, request: string, c: string)
    requires forall ev | ev in evs :: Proper(ev) && LeavesHubsAsTheyAre(ev, c)
    requires OnlyNodesMarked(s.db, c)
    ensures OnlyNodesMarked(Run(s, evs).db, c) && c !in OldHubs(Run(s, evs).db, request)
    decreases |evs|
  {
    hide OnlyNodesMarked, LeavesHubsAsTheyAre;
    if evs != [] {
      assert evs[0] in evs;
      EventLeavesUnmarked(s, evs[0], c);
      ManagedClusterIsSpared(Step(s, evs[0]), evs[1..], request, c);
    }
  }

  // ----- Every node is marked -----

  // The event gives no cluster a node without the mark.
  predicate MarksNodes(ev: NodeEvent) {
    match ev
    case Upsert(_, props, _) => "_hubClusterResource" in props
    case Other(UpsertResource(uid, cluster, _)) => uid != NodeUid(cluster)
    case Other(UpdateResourceData(uid, _, cluster)) => uid != NodeUid(cluster)
    case Other(UpsertNode(_, _, data)) => "_hubClusterResource" in data
    case _ => true
  }

  /** The upsert of any object is such an event. */
  lemma ObjectsMark(cache: map<string, Props>, obj: ClusterMerge.Object, w: Weather)
    requires ClusterMerge.IsCluster(obj)
    ensures MarksNodes(Upsert(NodeUid(obj.name), ClusterMerge.Upserted(cache, obj), w))
  {
    UpsertedKind(cache, obj);
  }

  /** So are the statements of every delta and of the first phase of every resync; the second phase does not
      touch resources. */
  lemma RequestsMark(ev: SyncEvent, rs: seq<Resource>, cluster: string, s: Statement)
    requires SlashFree(cluster)
    requires AskedBy(Program(ev, cluster), s) || AskedBy(ResetProgram(rs, cluster), s)
    ensures MarksNodes(Other(s))
  {
    hide Program, BulkDeletes, ResetProgram, KeepList, Marshal;
    NodeHasNoSlash(cluster, cluster);
    if x :| x in Program(ev, cluster) && x.stmt == s {
      ProgramItem(ev, cluster, x);
    } else {
      var x :| x in ResetProgram(rs, cluster) && x.stmt == s;
      ResetItem(rs, cluster, x);
    }
  }

  lemma StatementKeepsMarks(db: Database, st: Statement)
    requires NodesMarked(db) && MarksNodes(Other(st))
    ensures NodesMarked(Apply(db, st))
  {
    forall c | OwnedBy(RowAt(Apply(db, st), NodeUid(c)), c)
      ensures "_hubClusterResource" in Apply(db, st).resources[NodeUid(c)].data
    {
      RowOf(db, st, NodeUid(c));
      assert OwnedBy(RowAt(db, NodeUid(c)), c) ==> "_hubClusterResource" in db.resources[NodeUid(c)].data;
      hide Apply;
    }
  }

  lemma EventKeepsMarks(s: NodeState, ev: NodeEvent)
    requires Proper(ev) && NodesMarked(s.db) && MarksNodes(ev)
    ensures NodesMarked(Step(s, ev).db)
  {
    hide NodesMarked, Apply;
    match ev
    case Upsert(uid, props, w) => StatementKeepsMarks(s.db, NodeStatement(uid, props));
    case Delete(uid, write) => StatementKeepsMarks(s.db, DeleteByUid(uid));
    case Restart =>
    case Other(stmt) => StatementKeepsMarks(s.db, stmt);
  }

  /** Over every run of node upserts in any weather, deletions, restarts and statements of requests, every
      node carries the mark. */
  lemma {:induction false} NodesStayMarked(s: NodeState, evs: seq<NodeEvent>)
    requires forall ev | ev in evs :: Proper(ev) && MarksNodes(ev)
    requires NodesMarked(s.db)
    ensures NodesMarked(Run(s, evs).db)
    decreases |evs|
  {
    hide NodesMarked, MarksNodes;
    if evs != [] {
      assert evs[0] in evs;
      EventKeepsMarks(s, evs[0]);
      NodesStayMarked(Step(s, evs[0]), evs[1..]);
    }
  }

  /** So after every such run, once the stale clusters are emptied, another look finds nothing stale. */
  lemma NothingStaleAfterRun(
    s: NodeState, evs: seq<NodeEvent>, after: Database, items: seq<KubeCluster>, stale: seq<string>)
    requires forall ev | ev in evs :: Proper(ev) && MarksNodes(ev)
    requires NodesMarked(s.db)
    requires var before := Run(s, evs).db;
      && (forall c :: c in stale <==> Managed(before, c) && !Listed(items, c))
      && KeepsLive(before, after, stale) && (forall c | c in stale :: Emptied(after, c))
    ensures forall c | Managed(after, c) :: Listed(items, c)
  {
    NodesStayMarked(s, evs);
    NothingStaleLeft(Run(s, evs).db, after, items, stale);
  }
}
