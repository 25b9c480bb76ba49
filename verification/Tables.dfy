/** The two tables `search.resources` and `search.edges` and the statements written to them. */
module Tables {
  import opened Options
  import opened Serial

  // A JSON value as Go holds it. Integers set by the indexer are `Int`; numbers decoded from JSON
  // are `Float`. Both are stored as the same JSON number.
  datatype Value = Text(s: string) | Int(n: int) | Float(n: int) | Flag(b: bool) | Object(fields: map<string, string>)

  type Props = map<string, Value>

  function StoredValue(v: Value): Value {
    if v.Int? then Float(v.n) else v
  }

  // What the data column holds after writing `props`, and what reading it back yields.
  function Marshal(props: Props): Props {
    map k | k in props :: StoredValue(props[k])
  }

  datatype Row = Row(cluster: string, data: Props)
  datatype EdgeKey = EdgeKey(source: string, dest: string, edgeType: string)
  datatype EdgeRow = EdgeRow(sourceKind: string, destKind: string, cluster: string)
  datatype Database = Database(resources: map<string, Row>, edges: map<EdgeKey, EdgeRow>)

  const INTER_CLUSTER := "interCluster"

  function NodeUid(cluster: string): string {
    "cluster__" + cluster
  }

  datatype Statement =
    | UpsertResource(uid: string, cluster: string, data: Props)
    | UpdateResourceData(uid: string, data: Props, cluster: string)
    | DeleteResourcesIn(cluster: string, uids: seq<string>)
    | DeleteResourcesNotIn(cluster: string, keep: seq<string>)
    | DeleteEdgesAt(cluster: string, uids: seq<string>)
    | DeleteEdgesNotWithin(cluster: string, keep: seq<string>)
    | InsertEdge(key: EdgeKey, sourceKind: string, destKind: string, cluster: string)
    | DeleteEdgeRow(key: EdgeKey, cluster: string)
    | UpsertNode(uid: string, cluster: string, data: Props)
    | DeleteClusterResources(cluster: string)
    | DeleteClusterEdges(cluster: string)
    | DeleteByUid(uid: string)

  // ----- Statement by statement, as the SQL says -----

  function Apply(db: Database, st: Statement): Database {
    match st
    case UpsertResource(uid, cluster, data) =>
      if uid !in db.resources then db.(resources := db.resources[uid := Row(cluster, data)])
      else if db.resources[uid].cluster == cluster && db.resources[uid].data != data
      then db.(resources := db.resources[uid := db.resources[uid].(data := data)])
      else db
    case UpdateResourceData(uid, data, cluster) =>
      if uid in db.resources && db.resources[uid].cluster == cluster
      then db.(resources := db.resources[uid := db.resources[uid].(data := data)])
      else db
    case DeleteResourcesIn(cluster, uids) =>
      db.(resources := map u | u in db.resources && !(db.resources[u].cluster == cluster && u in uids) ::
        db.resources[u])
    case DeleteResourcesNotIn(cluster, keep) =>
      db.(resources := map u | u in db.resources && !(db.resources[u].cluster == cluster && u !in keep) ::
        db.resources[u])
    case DeleteEdgesAt(cluster, uids) =>
      db.(edges := map k | k in db.edges &&
        !(db.edges[k].cluster == cluster && (k.source in uids || k.dest in uids)) :: db.edges[k])
    case DeleteEdgesNotWithin(cluster, keep) =>
      db.(edges := map k | k in db.edges &&
        !(db.edges[k].cluster == cluster && (k.source !in keep || k.dest !in keep)) :: db.edges[k])
    case InsertEdge(key, sourceKind, destKind, cluster) =>
      if key in db.edges then db else db.(edges := db.edges[key := EdgeRow(sourceKind, destKind, cluster)])
    case DeleteEdgeRow(key, cluster) =>
      if key in db.edges && db.edges[key].cluster == cluster then db.(edges := db.edges - {key}) else db
    case UpsertNode(uid, cluster, data) =>
      if uid in db.resources then db.(resources := db.resources[uid := db.resources[uid].(data := data)])
      else db.(resources := db.resources[uid := Row(cluster, data)])
    case DeleteClusterResources(cluster) =>
      db.(resources := map u | u in db.resources && !(db.resources[u].cluster == cluster && u != NodeUid(cluster)) ::
        db.resources[u])
    case DeleteClusterEdges(cluster) =>
      db.(edges := map k | k in db.edges && db.edges[k].cluster != cluster :: db.edges[k])
    case DeleteByUid(uid) =>
      db.(resources := db.resources - {uid})
  }

  // ----- Row by row -----

  function RowAt(db: Database, u: string): Option<Row> {
    if u in db.resources then Some(db.resources[u]) else None
  }

  function EdgeAt(db: Database, k: EdgeKey): Option<EdgeRow> {
    if k in db.edges then Some(db.edges[k]) else None
  }

  predicate OwnedBy(r: Option<Row>, cluster: string) {
    r.Some? && r.value.cluster == cluster
  }

  predicate EdgeOwnedBy(r: Option<EdgeRow>, cluster: string) {
    r.Some? && r.value.cluster == cluster
  }

  // What a statement makes of the row with uid `u`; it never looks at any other row.
  function RowEffect(st: Statement, u: string, r: Option<Row>): Option<Row> {
    match st
    case UpsertResource(uid, cluster, data) =>
      if u != uid then r else if r.None? || r.value.cluster == cluster then Some(Row(cluster, data)) else r
    case UpdateResourceData(uid, data, cluster) =>
      if u == uid && OwnedBy(r, cluster) then Some(Row(cluster, data)) else r
    case DeleteResourcesIn(cluster, uids) => if u in uids && OwnedBy(r, cluster) then None else r
    case DeleteResourcesNotIn(cluster, keep) => if u !in keep && OwnedBy(r, cluster) then None else r
    case UpsertNode(uid, cluster, data) =>
      if u == uid then Some(Row(if r.Some? then r.value.cluster else cluster, data)) else r
    case DeleteClusterResources(cluster) => if u != NodeUid(cluster) && OwnedBy(r, cluster) then None else r
    case DeleteByUid(uid) => if u == uid then None else r
    case _ => r
  }

  function EdgeEffect(st: Statement, k: EdgeKey, r: Option<EdgeRow>): Option<EdgeRow> {
    match st
    case DeleteEdgesAt(cluster, uids) =>
      if (k.source in uids || k.dest in uids) && EdgeOwnedBy(r, cluster) then None else r
    case DeleteEdgesNotWithin(cluster, keep) =>
      if (k.source !in keep || k.dest !in keep) && EdgeOwnedBy(r, cluster) then None else r
    case InsertEdge(key, sourceKind, destKind, cluster) =>
      if k == key && r.None? then Some(EdgeRow(sourceKind, destKind, cluster)) else r
    case DeleteEdgeRow(key, cluster) => if k == key && EdgeOwnedBy(r, cluster) then None else r
    case DeleteClusterEdges(cluster) => if EdgeOwnedBy(r, cluster) then None else r
    case _ => r
  }

  /** The statements act on each row by itself: the SQL reading and the row reading agree. */
  lemma ApplyRowByRow(db: Database, st: Statement)
    ensures forall u :: RowAt(Apply(db, st), u) == RowEffect(st, u, RowAt(db, u))
    ensures forall k :: EdgeAt(Apply(db, st), k) == EdgeEffect(st, k, EdgeAt(db, k))
  {
  }

  lemma RowOf(db: Database, st: Statement, u: string)
    ensures RowAt(Apply(db, st), u) == RowEffect(st, u, RowAt(db, u))
  {
  }

  lemma EdgeOf(db: Database, st: Statement, k: EdgeKey)
    ensures EdgeAt(Apply(db, st), k) == EdgeEffect(st, k, EdgeAt(db, k))
  {
  }

  lemma SameRows(a: Database, b: Database)
    requires forall u :: RowAt(a, u) == RowAt(b, u)
    requires forall k :: EdgeAt(a, k) == EdgeAt(b, k)
    ensures a == b
  {
    forall u ensures u in a.resources <==> u in b.resources
      ensures u in a.resources ==> a.resources[u] == b.resources[u]
    { assert RowAt(a, u) == RowAt(b, u); }
    forall k ensures k in a.edges <==> k in b.edges
      ensures k in a.edges ==> a.edges[k] == b.edges[k]
    { assert EdgeAt(a, k) == EdgeAt(b, k); }
    assert a.resources == b.resources;
    assert a.edges == b.edges;
  }

  // ----- Statements that the database may reject -----

  // `fails` decides which statements are rejected, possibly depending on the state they meet.
  function Exec(fails: (Database, Statement) -> bool): (Database, Statement) -> Option<Database> {
    (db: Database, st: Statement) => if fails(db, st) then None else Some(Apply(db, st))
  }

  function ApplyAll(db: Database, stmts: seq<Statement>): Database
    decreases |stmts|
  {
    if stmts == [] then db else ApplyAll(Apply(db, stmts[0]), stmts[1..])
  }

  // The statements of a log that took effect.
  function Effective(log: seq<Entry<Statement>>): seq<Statement> {
    if log == [] then []
    else (if log[0].fate.Committed? || (log[0].fate.Dropped? && log[0].fate.applied) then [log[0].item.stmt] else [])
         + Effective(log[1..])
  }

  /** Whatever was rejected or dropped, a log leaves behind what its effective statements do. */
  lemma {:induction false} LogApplies(
    fails: (Database, Statement) -> bool, db: Database, log: seq<Entry<Statement>>, t: Database)
    requires Explains(Exec(fails), db, log, t)
    ensures t == ApplyAll(db, Effective(log))
    decreases |log|
  {
    if log != [] {
      var rest := Effective(log[1..]);
      if log[0].fate.Committed? || (log[0].fate.Dropped? && log[0].fate.applied) {
        LogApplies(fails, Apply(db, log[0].item.stmt), log[1..], t);
        assert Effective(log)[1..] == rest;
      } else {
        LogApplies(fails, db, log[1..], t);
        assert Effective(log) == rest;
      }
    }
  }

  lemma {:induction false} EffectiveItems(log: seq<Entry<Statement>>)
    ensures forall st | st in Effective(log) :: exists x :: x in ItemsOf(log) && x.stmt == st
    ensures AllCommitted(log) ==> forall x | x in ItemsOf(log) :: x.stmt in Effective(log)
    decreases |log|
  {
    if log != [] {
      EffectiveItems(log[1..]);
      assert ItemsOf(log) == [log[0].item] + ItemsOf(log[1..]);
    }
  }

  // ----- Rows under many statements, in whatever order -----

  /** A row that no statement changes is not changed by all of them. */
  lemma {:induction false} RowUntouched(db: Database, stmts: seq<Statement>, u: string)
    requires forall st | st in stmts :: RowEffect(st, u, RowAt(db, u)) == RowAt(db, u)
    ensures RowAt(ApplyAll(db, stmts), u) == RowAt(db, u)
    decreases |stmts|
  {
    if stmts != [] {
      RowOf(db, stmts[0], u);
      RowUntouched(Apply(db, stmts[0]), stmts[1..], u);
    }
  }

  // Every statement leaves the row alone or takes it to `goal`, and `goal` is stable.
  ghost predicate RowHeadsFor(stmts: seq<Statement>, u: string, r: Option<Row>, goal: Option<Row> -> bool) {
    && (forall st | st in stmts :: RowEffect(st, u, r) == r || goal(RowEffect(st, u, r)))
    && (forall st, q | st in stmts && goal(q) :: goal(RowEffect(st, u, q)))
  }

  /** A row reaches the goal, in every order of the statements, if some statement takes it there
      and the others either leave it alone or take it there too. */
  lemma {:induction false} RowSettles(db: Database, stmts: seq<Statement>, u: string, goal: Option<Row> -> bool)
    requires RowHeadsFor(stmts, u, RowAt(db, u), goal)
    requires goal(RowAt(db, u)) || exists st | st in stmts :: goal(RowEffect(st, u, RowAt(db, u)))
    ensures goal(RowAt(ApplyAll(db, stmts), u))
    decreases |stmts|
  {
    if stmts != [] {
      var first := stmts[0];
      RowOf(db, first, u);
      assert stmts == [first] + stmts[1..];
      RowSettles(Apply(db, first), stmts[1..], u, goal);
    }
  }

  lemma {:induction false} EdgeUntouched(db: Database, stmts: seq<Statement>, k: EdgeKey)
    requires forall st | st in stmts :: EdgeEffect(st, k, EdgeAt(db, k)) == EdgeAt(db, k)
    ensures EdgeAt(ApplyAll(db, stmts), k) == EdgeAt(db, k)
    decreases |stmts|
  {
    if stmts != [] {
      EdgeOf(db, stmts[0], k);
      EdgeUntouched(Apply(db, stmts[0]), stmts[1..], k);
    }
  }

  ghost predicate EdgeHeadsFor(stmts: seq<Statement>, k: EdgeKey, r: Option<EdgeRow>, goal: Option<EdgeRow> -> bool) {
    && (forall st | st in stmts :: EdgeEffect(st, k, r) == r || goal(EdgeEffect(st, k, r)))
    && (forall st, q | st in stmts && goal(q) :: goal(EdgeEffect(st, k, q)))
  }

  lemma {:induction false} EdgeSettles(db: Database, stmts: seq<Statement>, k: EdgeKey, goal: Option<EdgeRow> -> bool)
    requires EdgeHeadsFor(stmts, k, EdgeAt(db, k), goal)
    requires goal(EdgeAt(db, k)) || exists st | st in stmts :: goal(EdgeEffect(st, k, EdgeAt(db, k)))
    ensures goal(EdgeAt(ApplyAll(db, stmts), k))
    decreases |stmts|
  {
    if stmts != [] {
      var first := stmts[0];
      EdgeOf(db, first, k);
      assert stmts == [first] + stmts[1..];
      EdgeSettles(Apply(db, first), stmts[1..], k, goal);
    }
  }

  // ----- Statements that touch different rows -----

  predicate TouchesRow(st: Statement, u: string) {
    match st
    case UpsertResource(uid, _, _) => u == uid
    case UpdateResourceData(uid, _, _) => u == uid
    case DeleteResourcesIn(_, uids) => u in uids
    case DeleteResourcesNotIn(_, keep) => u !in keep
    case UpsertNode(uid, _, _) => u == uid
    case DeleteClusterResources(cluster) => u != NodeUid(cluster)
    case DeleteByUid(uid) => u == uid
    case _ => false
  }

  predicate TouchesEdge(st: Statement, k: EdgeKey) {
    match st
    case DeleteEdgesAt(_, uids) => k.source in uids || k.dest in uids
    case DeleteEdgesNotWithin(_, keep) => k.source !in keep || k.dest !in keep
    case InsertEdge(key, _, _, _) => k == key
    case DeleteEdgeRow(key, _) => k == key
    case DeleteClusterEdges(_) => true
    case _ => false
  }

  ghost predicate TouchDisjoint(p: Statement, q: Statement) {
    (forall u :: !(TouchesRow(p, u) && TouchesRow(q, u))) && (forall k :: !(TouchesEdge(p, k) && TouchesEdge(q, k)))
  }

  // Whether a statement is rejected depends only on the rows it touches.
  ghost predicate FailsLocally(fails: (Database, Statement) -> bool) {
    forall db, p, q :: TouchDisjoint(p, q) ==> fails(Apply(db, q), p) == fails(db, p)
  }

  lemma DisjointCommute(db: Database, p: Statement, q: Statement)
    requires TouchDisjoint(p, q)
    ensures Apply(Apply(db, p), q) == Apply(Apply(db, q), p)
  {
    forall u ensures RowAt(Apply(Apply(db, p), q), u) == RowAt(Apply(Apply(db, q), p), u) {
      RowOf(db, p, u); RowOf(Apply(db, p), q, u);
      RowOf(db, q, u); RowOf(Apply(db, q), p, u);
      assert !(TouchesRow(p, u) && TouchesRow(q, u));
    }
    forall k ensures EdgeAt(Apply(Apply(db, p), q), k) == EdgeAt(Apply(Apply(db, q), p), k) {
      EdgeOf(db, p, k); EdgeOf(Apply(db, p), q, k);
      EdgeOf(db, q, k); EdgeOf(Apply(db, q), p, k);
      assert !(TouchesEdge(p, k) && TouchesEdge(q, k));
    }
    SameRows(Apply(Apply(db, p), q), Apply(Apply(db, q), p));
  }

  /** Statements that touch different rows are independent, also in whether they are rejected. */
  lemma DisjointIndependent(fails: (Database, Statement) -> bool, p: Statement, q: Statement)
    requires FailsLocally(fails) && TouchDisjoint(p, q)
    ensures Independent(Exec(fails), p, q)
  {
    var exec := Exec(fails);
    assert TouchDisjoint(q, p);
    forall db: Database
      ensures Attempt(exec, Attempt(exec, db, p), q) == Attempt(exec, Attempt(exec, db, q), p)
      ensures exec(Attempt(exec, db, p), q).None? <==> exec(db, q).None?
      ensures exec(Attempt(exec, db, q), p).None? <==> exec(db, p).None?
    {
      DisjointCommute(db, p, q);
      assert fails(Apply(db, q), p) == fails(db, p);
      assert fails(Apply(db, p), q) == fails(db, q);
    }
  }

  // ----- Ownership -----

  predicate HasPrefix(s: string, prefix: string) {
    |prefix| <= |s| && s[..|prefix|] == prefix
  }

  predicate SlashFree(cluster: string) {
    '/' !in cluster
  }

  // Rows are named after the cluster that owns them.
  predicate RowOwned(u: string, cluster: string) {
    SlashFree(cluster) && (HasPrefix(u, cluster + "/") || u == NodeUid(cluster))
  }

  ghost predicate Owned(db: Database) {
    forall u | u in db.resources :: RowOwned(u, db.resources[u].cluster)
  }

  lemma SlashAt(u: string, cluster: string)
    requires HasPrefix(u, cluster + "/")
    ensures |cluster| < |u| && u[|cluster|] == '/' && u[..|cluster|] == cluster
    ensures SlashFree(cluster) ==> forall i | 0 <= i < |cluster| :: u[i] != '/'
  {
  }

  /** A uid belongs to at most one cluster. */
  lemma OwnerUnique(u: string, c: string, c': string)
    requires RowOwned(u, c) && RowOwned(u, c')
    ensures c == c'
  {
    if HasPrefix(u, c + "/") {
      if HasPrefix(u, c' + "/") {
        SlashAt(u, c);
        SlashAt(u, c');
        assert |c| == |c'|;
      } else {
        NodeHasNoSlash(c', c);
      }
    } else if HasPrefix(u, c' + "/") {
      NodeHasNoSlash(c, c');
    } else {
      assert u[9..] == c && u[9..] == c';
    }
  }

  lemma NodeHasNoSlash(c: string, c': string)
    requires SlashFree(c)
    ensures !HasPrefix(NodeUid(c), c' + "/")
  {
    var u := NodeUid(c);
    assert forall i | 0 <= i < 9 :: u[i] != '/';
    assert forall i | 9 <= i < |u| :: u[i] == c[i - 9];
    if HasPrefix(u, c' + "/") { SlashAt(u, c'); assert false; }
  }

  // What the writers check before naming a uid: the uid prefix, or the uid of the own node.
  predicate NamesOwnRow(st: Statement) {
    match st
    case UpsertResource(uid, c, _) => SlashFree(c) && HasPrefix(uid, c + "/")
    case UpsertNode(uid, c, _) => SlashFree(c) && uid == NodeUid(c)
    case _ => true
  }

  lemma {:induction false} OwnershipKept(db: Database, stmts: seq<Statement>)
    requires Owned(db) && forall st | st in stmts :: NamesOwnRow(st)
    ensures Owned(ApplyAll(db, stmts))
    decreases |stmts|
  {
    if stmts != [] {
      var db' := Apply(db, stmts[0]);
      assert NamesOwnRow(stmts[0]);
      forall u | u in db'.resources ensures RowOwned(u, db'.resources[u].cluster) {
        RowOf(db, stmts[0], u);
        assert RowAt(db', u).Some?;
        if u in db.resources { assert RowOwned(u, db.resources[u].cluster); }
      }
      OwnershipKept(db', stmts[1..]);
    }
  }

  // Statements scoped by their cluster column; the node statements are scoped by uid only.
  predicate ScopedTo(st: Statement, cluster: string) {
    !st.UpsertNode? && !st.DeleteByUid? && st.cluster == cluster
  }

  predicate OfOtherRow(r: Option<Row>, cluster: string) {
    r.Some? && r.value.cluster != cluster
  }

  predicate OfOtherEdge(r: Option<EdgeRow>, cluster: string) {
    r.Some? && r.value.cluster != cluster
  }

  /** Statements scoped to one cluster leave every row and edge of the other clusters as it was and
      create none, even when uids or edge keys collide, in every order and however many succeed. */
  lemma OtherClustersUntouched(db: Database, stmts: seq<Statement>, cluster: string)
    requires forall st | st in stmts :: ScopedTo(st, cluster)
    ensures forall u ::
      OfOtherRow(RowAt(db, u), cluster) || OfOtherRow(RowAt(ApplyAll(db, stmts), u), cluster)
      ==> RowAt(ApplyAll(db, stmts), u) == RowAt(db, u)
    ensures forall k ::
      OfOtherEdge(EdgeAt(db, k), cluster) || OfOtherEdge(EdgeAt(ApplyAll(db, stmts), k), cluster)
      ==> EdgeAt(ApplyAll(db, stmts), k) == EdgeAt(db, k)
  {
    forall u
      ensures OfOtherRow(RowAt(db, u), cluster) || OfOtherRow(RowAt(ApplyAll(db, stmts), u), cluster)
        ==> RowAt(ApplyAll(db, stmts), u) == RowAt(db, u)
    {
      if OfOtherRow(RowAt(db, u), cluster) { RowUntouched(db, stmts, u); }
      else { RowSettles(db, stmts, u, (r: Option<Row>) => !OfOtherRow(r, cluster)); }
    }
    forall k
      ensures OfOtherEdge(EdgeAt(db, k), cluster) || OfOtherEdge(EdgeAt(ApplyAll(db, stmts), k), cluster)
        ==> EdgeAt(ApplyAll(db, stmts), k) == EdgeAt(db, k)
    {
      if OfOtherEdge(EdgeAt(db, k), cluster) { EdgeUntouched(db, stmts, k); }
      else { EdgeSettles(db, stmts, k, (r: Option<EdgeRow>) => !OfOtherEdge(r, cluster)); }
    }
  }
}
