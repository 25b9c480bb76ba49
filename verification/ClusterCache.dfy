/** The cluster pseudo-node and the cache that saves writing it: the cached upsert, and when it ends in
    the same tables as writing every time. */
module ClusterCache {
  import opened Options
  import opened Tables
  import opened Batch
  import opened Sync
  import opened SyncEffect
  import opened Resync
  import opened ResyncEffect
  import opened Requests

  // What becomes of a write: the reply may be lost after the write was applied.
  datatype Write = Taken | Failed(applied: bool)

  // What surrounds an upsert: whether the context is done, whether the query of the row is answered,
  // and what becomes of the write.
  datatype Weather = Weather(cancelled: bool, answered: bool, write: Write)

  datatype NodeState = NodeState(db: Database, cache: map<string, Props>)

  // ----- Comparing properties -----

  lemma EqualSizedSubset(a: set<string>, b: set<string>)
    requires a <= b && |a| == |b|
    ensures a == b
  {
    assert b == a + (b - a);
    assert |b| == |a| + |b - a|;
  }

  /** Maps of the same size that agree on the keys of one of them are equal. */
  lemma SameSizeAndPointwise(a: Props, b: Props)
    requires |a| == |b| && forall k | k in a :: k in b && a[k] == b[k]
    ensures a == b
  {
    assert |a.Keys| == |a| && |b.Keys| == |b|;
    EqualSizedSubset(a.Keys, b.Keys);
  }

  // ----- The upsert as a function of the state -----

  function Cached(cache: map<string, Props>, uid: string, data: Props): map<string, Props> {
    if uid == "" then cache else cache[uid := data]
  }

  // The cache after looking for a node that it does not hold.
  function Loaded(s: NodeState, uid: string, answered: bool): map<string, Props> {
    if uid in s.cache || !answered || uid !in s.db.resources then s.cache
    else Cached(s.cache, uid, s.db.resources[uid].data)
  }

  predicate Named(props: Props) {
    "name" in props && props["name"].Text?
  }

  function NodeStatement(uid: string, props: Props): Statement
    requires Named(props)
  {
    UpsertNode(uid, props["name"].s, Marshal(props))
  }

  predicate UpToDate(cache: map<string, Props>, uid: string, props: Props) {
    uid in cache && cache[uid] == props
  }

  function AfterWrite(db: Database, st: Statement, write: Write): Database {
    if write.Taken? || write.applied then Apply(db, st) else db
  }

  function UpsertStep(s: NodeState, uid: string, props: Props, w: Weather): NodeState
    requires Named(props)
  {
    var loaded := Loaded(s, uid, w.answered);
    if w.cancelled then s
    else if UpToDate(loaded, uid, props) then NodeState(s.db, loaded)
    else NodeState(AfterWrite(s.db, NodeStatement(uid, props), w.write),
                   if w.write.Taken? then Cached(loaded, uid, props) else loaded)
  }

  function DeleteStep(s: NodeState, uid: string, write: Write): NodeState {
    NodeState(AfterWrite(s.db, DeleteByUid(uid), write), if write.Taken? then s.cache - {uid} else s.cache)
  }

  // The upsert sends a statement: neither the cache nor, if it holds nothing, the row that is read
  // from the table has exactly these properties.
  predicate Writes(s: NodeState, uid: string, props: Props, w: Weather) {
    && !w.cancelled
    && if uid in s.cache then s.cache[uid] != props
       else !(w.answered && uid != "" && uid in s.db.resources && s.db.resources[uid].data == props)
  }

  // ----- The code -----

  class Clusters {
    const pool: Pool
    var existingClustersCache: map<string, Props>
    ghost var writes: nat // The number of upserts sent to the database.

    constructor (pool: Pool)
      ensures this.pool == pool && existingClustersCache == map[] && writes == 0
    {
      this.pool := pool;
      existingClustersCache, writes := map[], 0;
    }

    ghost function View(): NodeState
      reads this, pool
    {
      NodeState(pool.db, existingClustersCache)
    }

    function ReadClustersCache(uid: string): (data: Option<Props>)
      reads this
      ensures data.Some? <==> uid in existingClustersCache
      ensures data.Some? ==> data.value == existingClustersCache[uid]
    {
      if uid in existingClustersCache then Some(existingClustersCache[uid]) else None
    }

    method UpdateClustersCache(uid: string, data: Props)
      modifies this`existingClustersCache
      ensures existingClustersCache == Cached(old(existingClustersCache), uid, data)
    {
      if uid != "" {
        existingClustersCache := existingClustersCache[uid := data];
      }
    }

    method DeleteClustersCache(uid: string)
      modifies this`existingClustersCache
      ensures existingClustersCache == old(existingClustersCache) - {uid}
    {
      existingClustersCache := existingClustersCache - {uid};
    }

    method ClusterInDB(uid: string, answered: bool) returns (ok: bool)
      modifies this`existingClustersCache
      ensures existingClustersCache == Loaded(old(View()), uid, answered)
      ensures ok <==> uid in existingClustersCache
    {
      ok := ReadClustersCache(uid).Some?;
      if !ok {
        if !answered { return false; }
        if uid in pool.db.resources {
          UpdateClustersCache(uid, pool.db.resources[uid].data);
        }
        ok := ReadClustersCache(uid).Some?;
      }
    }

    /** The properties are compared by size and key by key; that is equality. */
    method ClusterPropsUpToDate(uid: string, currProps: Props) returns (upToDate: bool)
      ensures upToDate <==> UpToDate(existingClustersCache, uid, currProps)
    {
      var data := ReadClustersCache(uid);
      if data.None? { return false; }
      var existingProps := data.value;
      if |existingProps| != |currProps| { return false; }
      var todo := currProps.Keys;
      while todo != {}
        invariant todo <= currProps.Keys
        invariant forall k | k in currProps.Keys - todo :: k in existingProps && currProps[k] == existingProps[k]
        decreases todo
      {
        var key :| key in todo;
        if key !in existingProps || currProps[key] != existingProps[key] { return false; }
        todo := todo - {key};
      }
      SameSizeAndPointwise(currProps, existingProps);
      return true;
    }

    method UpsertCluster(uid: string, props: Props, w: Weather)
      requires Named(props)
      modifies this, pool
      ensures View() == UpsertStep(old(View()), uid, props, w)
      ensures writes == old(writes) + if Writes(old(View()), uid, props, w) then 1 else 0
    {
      if w.cancelled { return; }
      var inDB := ClusterInDB(uid, w.answered);
      var upToDate := false;
      if inDB {
        upToDate := ClusterPropsUpToDate(uid, props);
      }
      if !inDB || !upToDate {
        writes := writes + 1;
        pool.db := AfterWrite(pool.db, NodeStatement(uid, props), w.write);
        if w.write.Taken? {
          UpdateClustersCache(uid, props);
        }
      }
    }
  }

  /** After a good upsert the same properties are not written again, in any weather. */
  lemma WrittenOnce(s: NodeState, uid: string, props: Props, again: Weather)
    requires Named(props) && uid != ""
    ensures !Writes(UpsertStep(s, uid, props, Weather(false, true, Taken)), uid, props, again)
  {
  }

  /** After a restart a node that is stored with these properties is not written again if and only if
      reading gives back what was stored: none of them is an integer. */
  lemma WrittenAgainIffInt(db: Database, uid: string, props: Props, w: Weather)
    requires uid != "" && uid in db.resources && db.resources[uid].data == Marshal(props)
    requires !w.cancelled && w.answered
    ensures Writes(NodeState(db, map[]), uid, props, w) <==> exists k | k in props :: props[k].Int?
  {
    if k :| k in props && props[k].Int? {
      assert Marshal(props)[k] != props[k];
    } else {
      assert forall k | k in props :: Marshal(props)[k] == props[k];
      assert Marshal(props) == props;
    }
  }

  // ----- Runs of serialised events -----

  datatype NodeEvent =
    | Upsert(uid: string, props: Props, weather: Weather)
    | Delete(uid: string, write: Write)
    | Restart
    | Other(stmt: Statement)

  predicate Proper(ev: NodeEvent) {
    ev.Upsert? ==> Named(ev.props)
  }

  function Step(s: NodeState, ev: NodeEvent): NodeState
    requires Proper(ev)
  {
    match ev
    case Upsert(uid, props, w) => UpsertStep(s, uid, props, w)
    case Delete(uid, write) => DeleteStep(s, uid, write)
    case Restart => NodeState(s.db, map[])
    case Other(stmt) => NodeState(Apply(s.db, stmt), s.cache)
  }

  // The same event without a cache: every upsert writes.
  function AlwaysStep(db: Database, ev: NodeEvent): Database
    requires Proper(ev)
  {
    match ev
    case Upsert(uid, props, w) => if w.cancelled then db else AfterWrite(db, NodeStatement(uid, props), w.write)
    case Delete(uid, write) => AfterWrite(db, DeleteByUid(uid), write)
    case Restart => db
    case Other(stmt) => Apply(db, stmt)
  }

  function Run(s: NodeState, evs: seq<NodeEvent>): NodeState
    requires forall ev | ev in evs :: Proper(ev)
    decreases |evs|
  {
    if evs == [] then s else Run(Step(s, evs[0]), evs[1..])
  }

  function AlwaysRun(db: Database, evs: seq<NodeEvent>): Database
    requires forall ev | ev in evs :: Proper(ev)
    decreases |evs|
  {
    if evs == [] then db else AlwaysRun(AlwaysStep(db, evs[0]), evs[1..])
  }

  // What is stored is what storing makes of it.
  ghost predicate Normal(db: Database) {
    forall u | u in db.resources :: Marshal(db.resources[u].data) == db.resources[u].data
  }

  predicate CacheHolds(s: NodeState, uid: string)
    requires uid in s.cache
  {
    uid in s.db.resources && s.db.resources[uid].data == Marshal(s.cache[uid])
  }

  // A cached node is stored with the properties that the cache holds.
  ghost predicate Coherent(s: NodeState) {
    Normal(s.db) && "" !in s.cache && forall uid | uid in s.cache :: CacheHolds(s, uid)
  }

  lemma MarshalTwice(props: Props)
    ensures Marshal(Marshal(props)) == Marshal(props)
  {
  }

  function DataAt(db: Database, uid: string): Option<Props> {
    if uid in db.resources then Some(db.resources[uid].data) else None
  }

  // An upsert changes a cached node and its reply gets lost.
  predicate LosesReply(s: NodeState, uid: string, props: Props, w: Weather) {
    var loaded := Loaded(s, uid, w.answered);
    !w.cancelled && w.write == Failed(true) && uid in loaded && Marshal(loaded[uid]) != Marshal(props)
  }

  // An event does not get between the cache and the table: the reply of a write that matters is not lost,
  // and another request's statement leaves the cached nodes' data as they are.
  ghost predicate Harmless(s: NodeState, ev: NodeEvent) {
    match ev
    case Upsert(uid, props, w) => !LosesReply(s, uid, props, w)
    case Delete(uid, write) => !(write == Failed(true) && uid in s.cache)
    case Restart => true
    case Other(stmt) =>
      var db := Apply(s.db, stmt);
      Normal(db) && forall uid | uid in s.cache :: DataAt(db, uid) == DataAt(s.db, uid)
  }

  ghost predicate HarmlessRun(s: NodeState, evs: seq<NodeEvent>)
    requires forall ev | ev in evs :: Proper(ev)
    decreases |evs|
  {
    evs == [] || (Harmless(s, evs[0]) && HarmlessRun(Step(s, evs[0]), evs[1..]))
  }

  lemma WriteIsNormal(db: Database, uid: string, props: Props)
    requires Normal(db) && Named(props)
    ensures Normal(Apply(db, NodeStatement(uid, props)))
    ensures var db' := Apply(db, NodeStatement(uid, props));
      && uid in db'.resources && db'.resources[uid].data == Marshal(props)
      && forall v | v != uid :: RowAt(db', v) == RowAt(db, v)
  {
  }

  // An upsert that goes well leaves the properties in the table and in the cache, and nothing else.
  lemma GoodUpsert(s: NodeState, uid: string, props: Props)
    requires Normal(s.db) && Named(props) && uid != ""
    ensures var t := UpsertStep(s, uid, props, Weather(false, true, Taken));
      && Normal(t.db)
      && ((uid in s.cache ==> CacheHolds(s, uid)) ==>
            uid in t.cache && t.cache[uid] == props && uid in t.db.resources &&
              t.db.resources[uid].data == Marshal(props))
      && (forall v | v != uid :: (v in t.cache <==> v in s.cache) && RowAt(t.db, v) == RowAt(s.db, v))
      && (forall v | v != uid && v in s.cache :: t.cache[v] == s.cache[v])
  {
    WriteIsNormal(s.db, uid, props);
    hide Marshal;
  }

  /** An upsert keeps the cache coherent if and only if it does not change a cached node and lose the reply. */
  lemma UpsertCoherence(s: NodeState, uid: string, props: Props, w: Weather)
    requires Coherent(s) && Named(props)
    ensures Coherent(UpsertStep(s, uid, props, w)) <==> !LosesReply(s, uid, props, w)
  {
  }

  /** A deletion keeps it coherent if and only if it does not delete a cached node and lose the reply. */
  lemma DeleteCoherence(s: NodeState, uid: string, write: Write)
    requires Coherent(s)
    ensures Coherent(DeleteStep(s, uid, write)) <==> !(write == Failed(true) && uid in s.cache)
  {
  }

  lemma OtherCoherence(s: NodeState, stmt: Statement)
    requires Coherent(s)
    ensures Coherent(NodeState(Apply(s.db, stmt), s.cache)) <==> Harmless(s, Other(stmt))
  {
  }

  /** An event keeps the cache coherent if and only if it is harmless. */
  lemma CoherentIffHarmless(s: NodeState, ev: NodeEvent)
    requires Coherent(s) && Proper(ev)
    ensures Coherent(Step(s, ev)) <==> Harmless(s, ev)
  {
    match ev
    case Upsert(uid, props, w) =>
      UpsertCoherence(s, uid, props, w);
      hide UpsertStep, LosesReply, Coherent;
    case Delete(uid, write) =>
      DeleteCoherence(s, uid, write);
      hide DeleteStep, Coherent;
    case Restart =>
    case Other(stmt) =>
      OtherCoherence(s, stmt);
      hide Apply, Coherent;
  }

  // A skipped write would have changed nothing.
  lemma SkippingIsWriting(s: NodeState, ev: NodeEvent)
    requires Coherent(s) && Proper(ev)
    ensures Step(s, ev).db == AlwaysStep(s.db, ev)
  {
  }

  /** Over every run of upserts, deletions, restarts and other requests, with any statements failing
      without effect, the cached upsert leaves the same tables as writing every time. */
  lemma {:induction false} CachedRefinesAlways(s: NodeState, evs: seq<NodeEvent>)
    requires forall ev | ev in evs :: Proper(ev)
    requires Coherent(s) && HarmlessRun(s, evs)
    ensures Run(s, evs).db == AlwaysRun(s.db, evs) && Coherent(Run(s, evs))
    decreases |evs|
  {
    if evs != [] {
      SkippingIsWriting(s, evs[0]);
      CoherentIffHarmless(s, evs[0]);
      CachedRefinesAlways(Step(s, evs[0]), evs[1..]);
    }
  }

  /** A lost reply makes the cache stale, and a later upsert is wrongly skipped: after writing `p`,
      then `q` with the reply lost, then `p` again, the table holds `q`. */
  lemma LostReplyLosesAnUpdate(uid: string, p: Props, q: Props)
    requires Named(p) && Named(q) && Marshal(p) != Marshal(q) && uid != ""
    ensures var evs := [Upsert(uid, p, Weather(false, true, Taken)),
                        Upsert(uid, q, Weather(false, true, Failed(true))),
                        Upsert(uid, p, Weather(false, true, Taken))];
      var none := Database(map[], map[]);
      && RowAt(Run(NodeState(none, map[]), evs).db, uid) == Some(Row(p["name"].s, Marshal(q)))
      && RowAt(AlwaysRun(none, evs), uid) == Some(Row(p["name"].s, Marshal(p)))
  {
    hide Marshal;
    var none := Database(map[], map[]);
    var good := Weather(false, true, Taken);
    var first, second := Upsert(uid, p, good), Upsert(uid, q, Weather(false, true, Failed(true)));
    var evs := [first, second, first];
    var s0 := NodeState(none, map[]);
    var s1, s2 := Step(s0, first), Step(Step(s0, first), second);
    assert s1.cache == map[uid := p] && s2.cache == map[uid := p];
    assert evs[1..] == [second, first] && evs[1..][1..] == [first] && evs[1..][1..][1..] == [];
    assert Run(s0, evs) == Run(s1, evs[1..]) == Run(s2, evs[1..][1..]) == Run(Step(s2, first), []);
    var d1, d2 := AlwaysStep(none, first), AlwaysStep(AlwaysStep(none, first), second);
    assert AlwaysRun(none, evs) == AlwaysRun(d1, evs[1..]) == AlwaysRun(d2, evs[1..][1..])
      == AlwaysRun(AlwaysStep(d2, first), []);
  }

  /** A lost reply to the deletion of the node does so, too: after writing, deleting with the reply lost and
      writing again, the node is missing. */
  lemma LostReplyLosesTheNode(uid: string, p: Props)
    requires Named(p) && uid != ""
    ensures var evs := [Upsert(uid, p, Weather(false, true, Taken)),
                        Delete(uid, Failed(true)),
                        Upsert(uid, p, Weather(false, true, Taken))];
      var none := Database(map[], map[]);
      && RowAt(Run(NodeState(none, map[]), evs).db, uid) == None
      && RowAt(AlwaysRun(none, evs), uid) == Some(Row(p["name"].s, Marshal(p)))
  {
    hide Marshal;
    var none := Database(map[], map[]);
    var write, remove := Upsert(uid, p, Weather(false, true, Taken)), Delete(uid, Failed(true));
    var evs := [write, remove, write];
    var s0 := NodeState(none, map[]);
    var s1, s2 := Step(s0, write), Step(Step(s0, write), remove);
    assert s1.cache == map[uid := p] && s2.cache == map[uid := p] && uid !in s2.db.resources;
    assert evs[1..] == [remove, write] && evs[1..][1..] == [write] && evs[1..][1..][1..] == [];
    assert Run(s0, evs) == Run(s1, evs[1..]) == Run(s2, evs[1..][1..]) == Run(Step(s2, write), []);
    var d1, d2 := AlwaysStep(none, write), AlwaysStep(AlwaysStep(none, write), remove);
    assert AlwaysRun(none, evs) == AlwaysRun(d1, evs[1..]) == AlwaysRun(d2, evs[1..][1..])
      == AlwaysRun(AlwaysStep(d2, write), []);
  }

  // ----- Statements of other requests -----

  predicate IsNodeUid(uid: string) {
    HasPrefix(uid, "cluster__") && '/' !in uid
  }

  // The statement leaves every node row as it is, given that nodes are named after their owner.
  ghost predicate SparesNodes(stmt: Statement) {
    forall uid, r: Option<Row> | IsNodeUid(uid) && (r.None? || uid == NodeUid(r.value.cluster)) ::
      RowEffect(stmt, uid, r) == r
  }

  lemma SparingIsHarmless(s: NodeState, stmt: Statement)
    requires Coherent(s) && Owned(s.db) && (forall uid | uid in s.cache :: IsNodeUid(uid)) && SparesNodes(stmt)
    ensures forall uid | uid in s.cache :: RowAt(Apply(s.db, stmt), uid) == RowAt(s.db, uid)
  {
    forall uid | uid in s.cache ensures RowAt(Apply(s.db, stmt), uid) == RowAt(s.db, uid) {
      RowOf(s.db, stmt, uid);
      if uid in s.db.resources {
        assert RowOwned(uid, s.db.resources[uid].cluster);
        NotPrefixed(uid, s.db.resources[uid].cluster);
      }
    }
  }

  lemma NotPrefixed(uid: string, cluster: string)
    requires '/' !in uid
    ensures !HasPrefix(uid, cluster + "/")
  {
    if HasPrefix(uid, cluster + "/") { SlashAt(uid, cluster); assert false; }
  }

  /** A delta sync spares the nodes if and only if it does not ask to delete its own cluster's. */
  lemma DeltaSparesNodes(ev: SyncEvent, cluster: string)
    requires SlashFree(cluster)
    ensures (forall s | AskedBy(Program(ev, cluster), s) :: SparesNodes(s)) <==> NodeUid(cluster) !in ev.deleteResources
  {
    hide Program;
    if NodeUid(cluster) in ev.deleteResources {
      var node, r := NodeUid(cluster), Some(Row(cluster, map[]));
      assert IsNodeUid(node);
      var bulk := BulkDeletes(ev.deleteResources, cluster)[0];
      ProgramHasBulk(ev, cluster);
      assert AskedBy(Program(ev, cluster), bulk.stmt);
      assert RowEffect(bulk.stmt, node, r) != r;
    } else {
      forall s, uid, r: Option<Row> | AskedBy(Program(ev, cluster), s) && IsNodeUid(uid) &&
        (r.None? || uid == NodeUid(r.value.cluster))
        ensures RowEffect(s, uid, r) == r
      {
        ProgramSparesNode(ev, cluster, s, uid, r);
      }
    }
  }

  lemma ProgramSparesNode(ev: SyncEvent, cluster: string, s: Statement, uid: string, r: Option<Row>)
    requires NodeUid(cluster) !in ev.deleteResources && AskedBy(Program(ev, cluster), s)
    requires IsNodeUid(uid) && (r.None? || uid == NodeUid(r.value.cluster))
    ensures RowEffect(s, uid, r) == r
  {
    hide Program, BulkDeletes, Marshal;
    NotPrefixed(uid, cluster);
    var x :| x in Program(ev, cluster) && x.stmt == s;
    ProgramItem(ev, cluster, x);
    hide HasPrefix, NodeUid, IsNodeUid;
  }

  /** A full resync always spares them: its list of uids to keep ends with the node. */
  lemma ResyncSparesNodes(rs: seq<Resource>, cluster: string, s: Statement)
    requires AskedBy(ResetProgram(rs, cluster), s)
    ensures SparesNodes(s)
  {
    var x :| x in ResetProgram(rs, cluster) && x.stmt == s;
    ResetItem(rs, cluster, x);
    assert NodeUid(cluster) in KeepList(rs, cluster);
    hide ResetProgram, KeepList, Marshal;
    forall uid, r: Option<Row> | IsNodeUid(uid) && (r.None? || uid == NodeUid(r.value.cluster))
      ensures RowEffect(s, uid, r) == r
    {
      NotPrefixed(uid, cluster);
    }
  }

  // The statement stores data in the form in which it is read back.
  predicate StoresMarshalled(stmt: Statement) {
    (stmt.UpsertResource? || stmt.UpdateResourceData? || stmt.UpsertNode?) ==> Marshal(stmt.data) == stmt.data
  }

  lemma RequestsStoreMarshalled(ev: SyncEvent, rs: seq<Resource>, cluster: string, s: Statement)
    requires AskedBy(Program(ev, cluster), s) || AskedBy(ResetProgram(rs, cluster), s)
    ensures StoresMarshalled(s)
  {
    hide Program, BulkDeletes, ResetProgram, KeepList, HasPrefix, Marshal;
    if x :| x in Program(ev, cluster) && x.stmt == s {
      ProgramItem(ev, cluster, x);
      forall r: Resource ensures Marshal(Marshal(r.properties)) == Marshal(r.properties) { MarshalTwice(r.properties); }
    } else {
      var x :| x in ResetProgram(rs, cluster) && x.stmt == s;
      ResetItem(rs, cluster, x);
      forall r: Resource ensures Marshal(Marshal(r.properties)) == Marshal(r.properties) { MarshalTwice(r.properties); }
    }
  }

  lemma MarshalledIsNormal(db: Database, stmt: Statement)
    requires Normal(db) && StoresMarshalled(stmt)
    ensures Normal(Apply(db, stmt))
  {
  }

  // What can be told of an event by itself: nodes have the uid of their name, failures have no
  // effect, and other requests spare the nodes.
  ghost predicate Clean(ev: NodeEvent) {
    match ev
    case Upsert(uid, props, w) =>
      Named(props) && SlashFree(props["name"].s) && uid == NodeUid(props["name"].s) && w.write != Failed(true)
    case Delete(_, write) => write != Failed(true)
    case Restart => true
    case Other(stmt) => SparesNodes(stmt) && StoresMarshalled(stmt) && NamesOwnRow(stmt)
  }

  /** The statements of a delta are clean if and only if it does not ask to delete its own cluster's node. */
  lemma DeltaIsClean(ev: SyncEvent, cluster: string)
    requires SlashFree(cluster)
    ensures (forall s | AskedBy(Program(ev, cluster), s) :: Clean(Other(s))) <==>
      NodeUid(cluster) !in ev.deleteResources
  {
    hide Program, SparesNodes, StoresMarshalled, NamesOwnRow;
    DeltaSparesNodes(ev, cluster);
    forall s | AskedBy(Program(ev, cluster), s) ensures StoresMarshalled(s) && NamesOwnRow(s) {
      RequestsStoreMarshalled(ev, [], cluster, s);
      SyncAtHome(ev, cluster, s);
    }
    if forall s | AskedBy(Program(ev, cluster), s) :: Clean(Other(s)) {
      forall s | AskedBy(Program(ev, cluster), s) ensures SparesNodes(s) { assert Clean(Other(s)); }
    }
  }

  /** The statements of a resync always are, in both of its phases. */
  lemma ResyncIsClean(
    rs: seq<Resource>, es: seq<Edge>, deletes: seq<Item>, m: map<string, EdgeKey>, cluster: string, s: Statement)
    requires SlashFree(cluster) && OnlyDeletions(deletes, m, cluster)
    requires AskedBy(ResetProgram(rs, cluster), s) || AskedBy(InsertEdgeItems(es, cluster) + deletes, s)
    ensures Clean(Other(s))
  {
    if AskedBy(ResetProgram(rs, cluster), s) {
      hide ResetProgram, SparesNodes, StoresMarshalled, NamesOwnRow;
      ResyncSparesNodes(rs, cluster, s);
      RequestsStoreMarshalled(SyncEvent([], [], [], [], []), rs, cluster, s);
      ResetAtHome(rs, cluster, s);
    } else {
      var x :| x in InsertEdgeItems(es, cluster) + deletes && x.stmt == s;
      if x in deletes { assert IsDeletion(x, m, cluster); }
    }
  }

  /** So are those that delete everything else of a cluster. */
  lemma ClusterDeletionIsClean(cluster: string)
    ensures Clean(Other(DeleteClusterResources(cluster))) && Clean(Other(DeleteClusterEdges(cluster)))
  {
  }

  ghost predicate Tidy(s: NodeState) {
    Coherent(s) && Owned(s.db) && forall uid | uid in s.cache :: IsNodeUid(uid)
  }

  lemma CleanIsHarmless(s: NodeState, ev: NodeEvent)
    requires Tidy(s) && Clean(ev)
    ensures Proper(ev) && Harmless(s, ev)
  {
    hide Marshal;
    if ev.Other? {
      MarshalledIsNormal(s.db, ev.stmt);
      SparingIsHarmless(s, ev.stmt);
    }
  }

  lemma OwnedStep(db: Database, stmt: Statement)
    requires Owned(db) && NamesOwnRow(stmt)
    ensures Owned(Apply(db, stmt))
  {
  }

  lemma CleanKeepsTidy(s: NodeState, ev: NodeEvent)
    requires Tidy(s) && Clean(ev)
    ensures Proper(ev) && Tidy(Step(s, ev))
  {
    CleanIsHarmless(s, ev);
    CoherentIffHarmless(s, ev);
    match ev {
      case Upsert(uid, props, w) =>
        OwnedStep(s.db, NodeStatement(uid, props));
        NodeUidIs(props["name"].s);
      case Delete(uid, write) => OwnedStep(s.db, DeleteByUid(uid));
      case Restart =>
      case Other(stmt) => OwnedStep(s.db, stmt);
    }
  }

  lemma NodeUidIs(name: string)
    requires SlashFree(name)
    ensures IsNodeUid(NodeUid(name))
  {
  }

  /** From every tidy state each statement of a delta keeps the cache coherent, if and only if the delta does
      not ask to delete its own cluster's node. */
  lemma DeltaKeepsCoherence(ev: SyncEvent, cluster: string)
    requires SlashFree(cluster)
    ensures (forall s, stmt | Tidy(s) && AskedBy(Program(ev, cluster), stmt) :: Coherent(Step(s, Other(stmt))))
      <==> NodeUid(cluster) !in ev.deleteResources
  {
    hide Program, Tidy, Clean;
    DeltaIsClean(ev, cluster);
    forall s, stmt | Tidy(s) && AskedBy(Program(ev, cluster), stmt) && NodeUid(cluster) !in ev.deleteResources
      ensures Coherent(Step(s, Other(stmt)))
    {
      CleanIsTidy(s, Other(stmt));
    }
    if NodeUid(cluster) in ev.deleteResources {
      var s, bulk := OneNode(cluster), BulkDeletes(ev.deleteResources, cluster)[0];
      OneNodeIsTidy(cluster);
      ProgramHasBulk(ev, cluster);
      assert AskedBy(Program(ev, cluster), bulk.stmt);
      assert !CacheHolds(Step(s, Other(bulk.stmt)), NodeUid(cluster));
    }
  }

  lemma CleanIsTidy(s: NodeState, ev: NodeEvent)
    requires Tidy(s) && Clean(ev)
    ensures Proper(ev) && Coherent(Step(s, ev))
  {
    CleanKeepsTidy(s, ev);
  }

  // A cluster's node, stored and cached.
  function OneNode(cluster: string): NodeState {
    NodeState(Database(map[NodeUid(cluster) := Row(cluster, map[])], map[]), map[NodeUid(cluster) := map[]])
  }

  lemma OneNodeIsTidy(cluster: string)
    requires SlashFree(cluster)
    ensures Tidy(OneNode(cluster))
  {
    NodeUidIs(cluster);
    assert NodeUid(cluster) != "" by { assert |NodeUid(cluster)| >= 9; }
    var empty: Props := map[];
    assert Marshal(empty) == empty;
  }

  /** From an empty cache, over every run of node upserts, deletions, restarts and statements of other
      requests that spare the nodes, with failures that have no effect: the same tables as without
      a cache. */
  lemma {:induction false} CleanRunsRefineAlways(s: NodeState, evs: seq<NodeEvent>)
    requires Tidy(s) && forall ev | ev in evs :: Clean(ev)
    ensures forall ev | ev in evs :: Proper(ev)
    ensures Run(s, evs).db == AlwaysRun(s.db, evs) && Tidy(Run(s, evs))
    decreases |evs|
  {
    if evs != [] {
      assert Clean(evs[0]);
      CleanIsHarmless(s, evs[0]);
      CleanKeepsTidy(s, evs[0]);
      SkippingIsWriting(s, evs[0]);
      CleanRunsRefineAlways(Step(s, evs[0]), evs[1..]);
      assert evs == [evs[0]] + evs[1..];
    }
  }

  /** Deleting the node in a delta leaves the cache behind: the next upsert is wrongly skipped. */
  lemma DeletedNodeStaysAway(name: string, p: Props)
    requires Named(p) && p["name"].s == name
    ensures var uid := NodeUid(name);
      var evs := [Upsert(uid, p, Weather(false, true, Taken)),
                  Other(DeleteResourcesIn(name, [uid])),
                  Upsert(uid, p, Weather(false, true, Taken))];
      var none := Database(map[], map[]);
      && RowAt(Run(NodeState(none, map[]), evs).db, uid) == None
      && RowAt(AlwaysRun(none, evs), uid) == Some(Row(name, Marshal(p)))
  {
    hide Marshal;
    var uid := NodeUid(name);
    assert uid != "" by { assert |uid| >= 9; }
    hide NodeUid;
    var none := Database(map[], map[]);
    var write, remove := Upsert(uid, p, Weather(false, true, Taken)), Other(DeleteResourcesIn(name, [uid]));
    var evs := [write, remove, write];
    var s0 := NodeState(none, map[]);
    var s1 := Step(s0, write);
    var s2 := Step(s1, remove);
    assert uid in [uid];
    assert s1.cache == map[uid := p] && s2.cache == map[uid := p] && uid !in s2.db.resources;
    assert evs[1..] == [remove, write] && evs[1..][1..] == [write] && evs[1..][1..][1..] == [];
    assert Run(s0, evs) == Run(s1, evs[1..]) == Run(s2, evs[1..][1..]) == Run(Step(s2, write), []);
    var d1, d2 := AlwaysStep(none, write), AlwaysStep(AlwaysStep(none, write), remove);
    assert uid !in d2.resources;
    assert AlwaysRun(none, evs) == AlwaysRun(d1, evs[1..]) == AlwaysRun(d2, evs[1..][1..])
      == AlwaysRun(AlwaysStep(d2, write), []);
  }
}
