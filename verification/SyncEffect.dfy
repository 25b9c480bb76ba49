/** What a delta sync makes of the tables, for every order in which its statements commit and with
    the statements of other requests in between. */
module SyncEffect {
  import opened Options
  import opened Serial
  import opened Tables
  import opened Sync

  // What a collector reports: its resources, and its edges other than the inter-cluster ones.
  datatype Collector = Collector(resources: map<string, Props>, edges: set<EdgeKey>)

  // The rows of `cluster`, apart from its node and its inter-cluster edges, are what `st` says.
  ghost predicate Matches(db: Database, cluster: string, st: Collector) {
    MatchesResources(db, cluster, st.resources) && MatchesEdges(db, cluster, st.edges)
  }

  ghost predicate MatchesResources(db: Database, cluster: string, resources: map<string, Props>) {
    forall u | u != NodeUid(cluster) ::
      if u in resources then RowAt(db, u) == Some(Row(cluster, Marshal(resources[u])))
      else !OwnedBy(RowAt(db, u), cluster)
  }

  ghost predicate MatchesEdges(db: Database, cluster: string, edges: set<EdgeKey>) {
    forall k: EdgeKey | k.edgeType != INTER_CLUSTER :: EdgeOwnedBy(EdgeAt(db, k), cluster) <==> k in edges
  }

  function UidsOf(rs: seq<Resource>): set<string> {
    set r | r in rs :: r.uid
  }

  function KeysOf(es: seq<Edge>): set<EdgeKey> {
    set e | e in es :: e.key
  }

  // The properties that the last resource with this uid carries.
  function PropertiesOf(rs: seq<Resource>, u: string): Props
    requires u in UidsOf(rs)
    ensures exists r :: r in rs && r.uid == u && r.properties == PropertiesOf(rs, u)
  {
    var r := rs[|rs| - 1];
    if r.uid == u then r.properties
    else
      assert rs == rs[..|rs| - 1] + [r];
      PropertiesOf(rs[..|rs| - 1], u)
  }

  ghost predicate Functional(rs: seq<Resource>) {
    forall r, r' | r in rs && r' in rs && r.uid == r'.uid :: r.properties == r'.properties
  }

  predicate AtDeleted(ev: SyncEvent, k: EdgeKey) {
    k.source in ev.deleteResources || k.dest in ev.deleteResources
  }

  // What a collector may put into one delta, relative to the state it reported before.
  ghost predicate WellFormed(ev: SyncEvent, cluster: string, st: Collector, db: Database) {
    && SlashFree(cluster)
    && (forall r | r in ev.addResources || r in ev.updateResources :: Accepts(r.uid, cluster))
    && Functional(ev.addResources) && Functional(ev.updateResources)
    && UidsOf(ev.updateResources) <= st.resources.Keys
    && UidsOf(ev.addResources) !! UidsOf(ev.updateResources)
    && (forall u | u in ev.deleteResources :: u !in UidsOf(ev.addResources) && u !in UidsOf(ev.updateResources))
    && (forall k | k in KeysOf(ev.addEdges) ::
          !AtDeleted(ev, k) && k !in KeysOf(ev.deleteEdges) && !OfOtherEdge(EdgeAt(db, k), cluster))
  }

  // The state that the collector is in after the delta.
  function Next(st: Collector, ev: SyncEvent): Collector {
    Collector(
      map u | u in st.resources.Keys + UidsOf(ev.addResources) && u !in ev.deleteResources ::
        if u in UidsOf(ev.addResources) then PropertiesOf(ev.addResources, u)
        else if u in UidsOf(ev.updateResources) then PropertiesOf(ev.updateResources, u)
        else st.resources[u],
      (set k | k in st.edges && !AtDeleted(ev, k) && k !in KeysOf(ev.deleteEdges))
      + (set k | k in KeysOf(ev.addEdges) && k.edgeType != INTER_CLUSTER))
  }

  // Statements of other requests: syncs and resyncs of other clusters, and node statements.
  predicate Bystander(s: Statement, cluster: string, claimed: set<EdgeKey>) {
    match s
    case UpsertResource(uid, c, _) => c != cluster && SlashFree(c) && HasPrefix(uid, c + "/")
    case UpsertNode(uid, c, _) => SlashFree(c) && uid == NodeUid(c)
    case DeleteByUid(uid) => '/' !in uid
    case InsertEdge(key, _, _, c) => c != cluster && key !in claimed
    case _ => s.cluster != cluster
  }

  ghost predicate AskedBy(items: seq<Item>, s: Statement) {
    exists x :: x in items && x.stmt == s
  }

  // `stmts` is some order of the program's statements, with bystanders anywhere in between.
  ghost predicate Carries(stmts: seq<Statement>, items: seq<Item>, cluster: string, claimed: set<EdgeKey>) {
    && (forall s | s in stmts :: AskedBy(items, s) || Bystander(s, cluster, claimed))
    && (forall x | x in items :: x.stmt in stmts)
  }

  // A bystander that also leaves alone the claimed edges that other clusters own at first.
  ghost predicate Respects(s: Statement, cluster: string, claimed: set<EdgeKey>, db: Database) {
    && Bystander(s, cluster, claimed)
    && forall k | k in claimed && OfOtherEdge(EdgeAt(db, k), cluster) ::
         EdgeEffect(s, k, EdgeAt(db, k)) == EdgeAt(db, k)
  }

  // `stmts` is some order of the items' statements, with respectful bystanders in between.
  ghost predicate Amid(stmts: seq<Statement>, items: seq<Item>, cluster: string, claimed: set<EdgeKey>, db: Database) {
    && (forall s | s in stmts :: AskedBy(items, s) || Respects(s, cluster, claimed, db))
    && (forall x | x in items :: x.stmt in stmts)
  }

  lemma BystanderOnEdge(s: Statement, cluster: string, claimed: set<EdgeKey>, k: EdgeKey, q: Option<EdgeRow>)
    requires Bystander(s, cluster, claimed)
    ensures EdgeOwnedBy(q, cluster) ==> EdgeEffect(s, k, q) == q
    ensures !EdgeOwnedBy(q, cluster) ==> !EdgeOwnedBy(EdgeEffect(s, k, q), cluster)
    ensures q.None? && k in claimed ==> EdgeEffect(s, k, q).None?
  {
  }

  // ----- What one statement of the program does to one row -----

  predicate AddsRow(ev: SyncEvent, cluster: string, u: string, q: Option<Row>, q': Option<Row>) {
    u in UidsOf(ev.addResources) && (q.None? || OwnedBy(q, cluster))
    && exists r | r in ev.addResources :: r.uid == u && q' == Some(Row(cluster, Marshal(r.properties)))
  }

  predicate UpdatesRow(ev: SyncEvent, cluster: string, u: string, q: Option<Row>, q': Option<Row>) {
    u in UidsOf(ev.updateResources) && OwnedBy(q, cluster)
    && exists r | r in ev.updateResources :: r.uid == u && q' == Some(Row(cluster, Marshal(r.properties)))
  }

  // The items of the program, by where they come from.
  lemma ProgramItem(ev: SyncEvent, cluster: string, x: Item)
    requires x in Program(ev, cluster)
    ensures
      || (exists r :: r in ev.addResources && Accepts(r.uid, cluster) && x == AddItem(r, cluster))
      || (exists r :: r in ev.updateResources && Accepts(r.uid, cluster) && x == UpdateItem(r, cluster))
      || (x in BulkDeletes(ev.deleteResources, cluster)
          && (x.stmt == DeleteResourcesIn(cluster, ev.deleteResources) ||
            x.stmt == DeleteEdgesAt(cluster, ev.deleteResources)))
      || (exists e :: e in ev.addEdges && x == InsertEdgeItem(e, cluster))
      || (exists e :: e in ev.deleteEdges && x == DeleteEdgeItem(e.key, cluster))
  {
    AcceptedItemsAre(ev.addResources, cluster, AddItem);
    AcceptedItemsAre(ev.updateResources, cluster, UpdateItem);
    if x in InsertEdgeItems(ev.addEdges, cluster) {
      var i :| 0 <= i < |ev.addEdges| && x == InsertEdgeItem(ev.addEdges[i], cluster);
      assert ev.addEdges[i] in ev.addEdges;
    } else if x in DeleteEdgeItems(ev.deleteEdges, cluster) {
      var i :| 0 <= i < |ev.deleteEdges| && x == DeleteEdgeItem(ev.deleteEdges[i].key, cluster);
      assert ev.deleteEdges[i] in ev.deleteEdges;
    }
  }

  lemma ProgramOnRow(ev: SyncEvent, cluster: string, s: Statement, u: string, q: Option<Row>)
    requires AskedBy(Program(ev, cluster), s)
    ensures var q' := RowEffect(s, u, q);
      || q' == q
      || AddsRow(ev, cluster, u, q, q')
      || UpdatesRow(ev, cluster, u, q, q')
      || (u in ev.deleteResources && OwnedBy(q, cluster) && q'.None?)
  {
    hide Program, BulkDeletes, HasPrefix, Marshal;
    var x :| x in Program(ev, cluster) && x.stmt == s;
    ProgramItem(ev, cluster, x);
    if r :| r in ev.addResources && Accepts(r.uid, cluster) && x == AddItem(r, cluster) {
      assert r.uid in UidsOf(ev.addResources);
    } else if r :| r in ev.updateResources && Accepts(r.uid, cluster) && x == UpdateItem(r, cluster) {
      assert r.uid in UidsOf(ev.updateResources);
    }
  }

  lemma ProgramOnEdge(ev: SyncEvent, cluster: string, s: Statement, k: EdgeKey, q: Option<EdgeRow>)
    requires AskedBy(Program(ev, cluster), s)
    ensures var q' := EdgeEffect(s, k, q);
      || q' == q
      || (k in KeysOf(ev.addEdges) && q.None? && EdgeOwnedBy(q', cluster))
      || ((AtDeleted(ev, k) || k in KeysOf(ev.deleteEdges)) && EdgeOwnedBy(q, cluster) && q'.None?)
  {
    hide Program, BulkDeletes, HasPrefix, Marshal;
    var x :| x in Program(ev, cluster) && x.stmt == s;
    ProgramItem(ev, cluster, x);
  }

  lemma BystanderOnRow(s: Statement, cluster: string, claimed: set<EdgeKey>, u: string, q: Option<Row>)
    requires Bystander(s, cluster, claimed) && SlashFree(cluster) && u != NodeUid(cluster)
    ensures OwnedBy(q, cluster) && HasPrefix(u, cluster + "/") ==> RowEffect(s, u, q) == q
    ensures q.None? && HasPrefix(u, cluster + "/") ==> RowEffect(s, u, q) == q
    ensures !OwnedBy(q, cluster) ==> !OwnedBy(RowEffect(s, u, q), cluster)
  {
    if HasPrefix(u, cluster + "/") {
      SlashAt(u, cluster);
      match s {
        case UpsertResource(uid, c, _) => if u == uid { OwnerUnique(u, c, cluster); }
        case UpsertNode(uid, c, _) => NodeHasNoSlash(c, cluster);
        case DeleteByUid(uid) =>
        case _ =>
      }
    } else if s.UpsertNode? && s.uid == u {
      assert s.cluster != cluster;
    }
  }

  // ----- Rows after the program -----

  lemma RowGoal(
    ev: SyncEvent, cluster: string, st: Collector, db: Database, stmts: seq<Statement>, claimed: set<EdgeKey>,
    u: string)
    requires Owned(db) && MatchesResources(db, cluster, st.resources) && WellFormed(ev, cluster, st, db)
    requires Carries(stmts, Program(ev, cluster), cluster, claimed)
    requires u != NodeUid(cluster) && u in Next(st, ev).resources
    ensures RowAt(ApplyAll(db, stmts), u) == Some(Row(cluster, Marshal(Next(st, ev).resources[u])))
  {
    hide Program;
    var data := Marshal(Next(st, ev).resources[u]);
    var goal := (r: Option<Row>) => r == Some(Row(cluster, data));
    var r0 := RowAt(db, u);
    if u in st.resources { assert RowOwned(u, db.resources[u].cluster); }
    else { var r :| r in ev.addResources && r.uid == u; }
    assert HasPrefix(u, cluster + "/");
    assert r0.None? || OwnedBy(r0, cluster) by {
      if r0.Some? { OwnerUnique(u, r0.value.cluster, cluster); }
    }
    forall s, q | s in stmts && (q == r0 || goal(q))
      ensures RowEffect(s, u, q) == q || goal(RowEffect(s, u, q))
    {
      if AskedBy(Program(ev, cluster), s) { ProgramOnRow(ev, cluster, s, u, q); }
      else { BystanderOnRow(s, cluster, claimed, u, q); }
    }
    if u in UidsOf(ev.addResources) {
      var r :| r in ev.addResources && r.uid == u;
      ProgramHasAdd(ev, cluster, r);
      assert goal(RowEffect(AddItem(r, cluster).stmt, u, r0));
    } else if u in UidsOf(ev.updateResources) {
      var r :| r in ev.updateResources && r.uid == u;
      ProgramHasUpdate(ev, cluster, r);
      assert goal(RowEffect(UpdateItem(r, cluster).stmt, u, r0));
    } else {
      assert goal(r0);
    }
    RowSettles(db, stmts, u, goal);
  }

  lemma ProgramHasAdd(ev: SyncEvent, cluster: string, r: Resource)
    requires r in ev.addResources && Accepts(r.uid, cluster)
    ensures AddItem(r, cluster) in Program(ev, cluster)
  {
    AcceptedItemsAre(ev.addResources, cluster, AddItem);
  }

  lemma ProgramHasUpdate(ev: SyncEvent, cluster: string, r: Resource)
    requires r in ev.updateResources && Accepts(r.uid, cluster)
    ensures UpdateItem(r, cluster) in Program(ev, cluster)
  {
    AcceptedItemsAre(ev.updateResources, cluster, UpdateItem);
  }

  lemma RowGone(
    ev: SyncEvent, cluster: string, st: Collector, db: Database, stmts: seq<Statement>, claimed: set<EdgeKey>,
    u: string)
    requires Owned(db) && MatchesResources(db, cluster, st.resources) && WellFormed(ev, cluster, st, db)
    requires Carries(stmts, Program(ev, cluster), cluster, claimed)
    requires u != NodeUid(cluster) && u !in Next(st, ev).resources
    ensures !OwnedBy(RowAt(ApplyAll(db, stmts), u), cluster)
  {
    hide Program;
    var goal := (r: Option<Row>) => !OwnedBy(r, cluster);
    var r0 := RowAt(db, u);
    assert u !in UidsOf(ev.addResources);
    assert u in UidsOf(ev.updateResources) ==> u in st.resources;
    forall s, q | s in stmts && (q == r0 || goal(q))
      ensures RowEffect(s, u, q) == q || goal(RowEffect(s, u, q))
    {
      if AskedBy(Program(ev, cluster), s) { ProgramOnRow(ev, cluster, s, u, q); }
      else {
        if OwnedBy(q, cluster) { assert RowOwned(u, db.resources[u].cluster); }
        BystanderOnRow(s, cluster, claimed, u, q);
      }
    }
    if OwnedBy(r0, cluster) {
      assert u in ev.deleteResources;
      var x := BulkDeletes(ev.deleteResources, cluster)[0];
      ProgramHasBulk(ev, cluster);
      assert goal(RowEffect(x.stmt, u, r0));
    }
    RowSettles(db, stmts, u, goal);
  }

  lemma ProgramHasBulk(ev: SyncEvent, cluster: string)
    requires ev.deleteResources != []
    ensures BulkDeletes(ev.deleteResources, cluster)[0] in Program(ev, cluster)
    ensures BulkDeletes(ev.deleteResources, cluster)[1] in Program(ev, cluster)
  {
  }

  // ----- Edges after the program -----

  lemma EdgeGoal(ev: SyncEvent, cluster: string, st: Collector, db: Database, stmts: seq<Statement>, k: EdgeKey)
    requires MatchesEdges(db, cluster, st.edges) && WellFormed(ev, cluster, st, db) && k.edgeType != INTER_CLUSTER
    requires Carries(stmts, Program(ev, cluster), cluster, KeysOf(ev.addEdges))
    ensures EdgeOwnedBy(EdgeAt(ApplyAll(db, stmts), k), cluster) <==> k in Next(st, ev).edges
  {
    hide Program;
    var present := k in Next(st, ev).edges;
    var goal := (r: Option<EdgeRow>) => EdgeOwnedBy(r, cluster) == present;
    var r0 := EdgeAt(db, k);
    forall s, q | s in stmts && (q == r0 || goal(q))
      ensures EdgeEffect(s, k, q) == q || goal(EdgeEffect(s, k, q))
    {
      if AskedBy(Program(ev, cluster), s) { ProgramOnEdge(ev, cluster, s, k, q); }
    }
    if !goal(r0) {
      if present {
        var e :| e in ev.addEdges && e.key == k;
        ProgramHasInsert(ev, cluster, e);
        assert goal(EdgeEffect(InsertEdgeItem(e, cluster).stmt, k, r0));
      } else if AtDeleted(ev, k) {
        ProgramHasBulk(ev, cluster);
        assert goal(EdgeEffect(BulkDeletes(ev.deleteResources, cluster)[1].stmt, k, r0));
      } else {
        var e :| e in ev.deleteEdges && e.key == k;
        ProgramHasDelete(ev, cluster, e);
        assert goal(EdgeEffect(DeleteEdgeItem(e.key, cluster).stmt, k, r0));
      }
    }
    EdgeSettles(db, stmts, k, goal);
  }

  lemma ProgramHasInsert(ev: SyncEvent, cluster: string, e: Edge)
    requires e in ev.addEdges
    ensures InsertEdgeItem(e, cluster) in Program(ev, cluster)
  {
    var i :| 0 <= i < |ev.addEdges| && ev.addEdges[i] == e;
    assert InsertEdgeItems(ev.addEdges, cluster)[i] == InsertEdgeItem(e, cluster);
  }

  lemma ProgramHasDelete(ev: SyncEvent, cluster: string, e: Edge)
    requires e in ev.deleteEdges
    ensures DeleteEdgeItem(e.key, cluster) in Program(ev, cluster)
  {
    var i :| 0 <= i < |ev.deleteEdges| && ev.deleteEdges[i] == e;
    assert DeleteEdgeItems(ev.deleteEdges, cluster)[i] == DeleteEdgeItem(e.key, cluster);
  }

  // ----- The theorem -----

  /** A well-formed delta takes tables that match the collector to tables that match its next state,
      in every order of the statements and with statements of other requests in between. */
  lemma SyncExact(ev: SyncEvent, cluster: string, st: Collector, db: Database, stmts: seq<Statement>)
    requires Owned(db) && Matches(db, cluster, st) && WellFormed(ev, cluster, st, db)
    requires Carries(stmts, Program(ev, cluster), cluster, KeysOf(ev.addEdges))
    ensures Matches(ApplyAll(db, stmts), cluster, Next(st, ev))
  {
    hide Program, Carries, WellFormed, Owned, Next;
    var after := ApplyAll(db, stmts);
    var next := Next(st, ev);
    forall u | u != NodeUid(cluster)
      ensures if u in next.resources then RowAt(after, u) == Some(Row(cluster, Marshal(next.resources[u])))
              else !OwnedBy(RowAt(after, u), cluster)
    {
      if u in next.resources { RowGoal(ev, cluster, st, db, stmts, KeysOf(ev.addEdges), u); }
      else { RowGone(ev, cluster, st, db, stmts, KeysOf(ev.addEdges), u); }
    }
    forall k: EdgeKey | k.edgeType != INTER_CLUSTER
      ensures EdgeOwnedBy(EdgeAt(after, k), cluster) <==> k in next.edges
    {
      EdgeGoal(ev, cluster, st, db, stmts, k);
    }
  }

  // A log of which everything was committed carries its items.
  lemma CommittedLogCarries(
    fails: (Database, Statement) -> bool, db: Database, after: Database, items: seq<Item>,
    log: seq<Entry<Statement>>, cluster: string, claimed: set<EdgeKey>)
    requires Settled(Exec(fails), db, after, items, log) && AllCommitted(log)
    ensures Carries(Effective(log), items, cluster, claimed) && after == ApplyAll(db, Effective(log))
  {
    hide Exec, Explains, ApplyAll;
    LogApplies(fails, db, log, after);
    EffectiveItems(log);
    forall s | s in Effective(log) ensures AskedBy(items, s) {
      var x :| x in ItemsOf(log) && x.stmt == s;
      assert x in multiset(ItemsOf(log));
    }
    forall x | x in items ensures x.stmt in Effective(log) {
      assert x in multiset(items);
    }
  }

  /** What `SyncData` leaves behind when it returns nil and nothing was rejected: the next state. */
  lemma SyncDataExact(
    ev: SyncEvent, cluster: string, st: Collector, fails: (Database, Statement) -> bool, db: Database,
    after: Database, log: seq<Entry<Statement>>)
    requires Owned(db) && Matches(db, cluster, st) && WellFormed(ev, cluster, st, db)
    requires Settled(Exec(fails), db, after, Program(ev, cluster), log) && AllCommitted(log)
    ensures Matches(after, cluster, Next(st, ev))
  {
    hide Program, WellFormed, Owned, Next, Matches, Settled, AllCommitted;
    CommittedLogCarries(fails, db, after, Program(ev, cluster), log, cluster, KeysOf(ev.addEdges));
    SyncExact(ev, cluster, st, db, Effective(log));
  }
}
