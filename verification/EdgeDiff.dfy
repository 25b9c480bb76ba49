/** The edge phase of a resync: which edges the cluster owns afterwards, and exactly when remembering
    edges under the concatenation of their key columns gives the incoming edges. */
module EdgeDiff {
  import opened Options
  import opened Tables
  import opened Sync
  import opened SyncEffect
  import opened Resync

  // ----- The lookups -----

  // Some incoming edge has this concatenation.
  ghost predicate Looked(es: seq<Edge>, s: string) {
    exists e :: e in es && Concat(e.key) == s
  }

  lemma {:induction false} RemainingIs(m: map<string, EdgeKey>, es: seq<Edge>)
    ensures forall s :: s in Remaining(m, es) <==> s in m && !Looked(es, s)
    ensures forall s | s in Remaining(m, es) :: Remaining(m, es)[s] == m[s]
  {
    if es != [] {
      var n := |es| - 1;
      RemainingIs(m, es[..n]);
      forall s ensures Looked(es, s) <==> Looked(es[..n], s) || s == Concat(es[n].key) {
        assert es == es[..n] + [es[n]];
        if Looked(es[..n], s) {
          var e :| e in es[..n] && Concat(e.key) == s;
          assert e in es;
        }
      }
    }
  }

  // Position `i` is inserted: its concatenation is not remembered, or was looked up before.
  ghost predicate InsertsAt(m: map<string, EdgeKey>, es: seq<Edge>, i: nat)
    requires i < |es|
  {
    Concat(es[i].key) !in m || Looked(es[..i], Concat(es[i].key))
  }

  lemma {:induction false} InsertedAre(m: map<string, EdgeKey>, es: seq<Edge>)
    ensures forall e :: e in Inserted(m, es) <==> exists i: nat :: i < |es| && es[i] == e && InsertsAt(m, es, i)
  {
    if es != [] {
      var n := |es| - 1;
      InsertedAre(m, es[..n]);
      InsertedLast(m, es);
      hide Inserted, Looked, Concat;
      forall i: nat | i < n ensures InsertsAt(m, es, i) == InsertsAt(m, es[..n], i) && es[i] == es[..n][i] {
        assert es[..i] == es[..n][..i];
      }
      forall e ensures e in Inserted(m, es) <==> exists i: nat :: i < |es| && es[i] == e && InsertsAt(m, es, i) {
        InsertedOne(m, es, e);
      }
    }
  }

  lemma InsertedLast(m: map<string, EdgeKey>, es: seq<Edge>)
    requires es != []
    ensures var n := |es| - 1;
      Inserted(m, es) == Inserted(m, es[..n]) + (if InsertsAt(m, es, n) then [es[n]] else [])
  {
    var n := |es| - 1;
    RemainingIs(m, es[..n]);
  }

  lemma InsertedOne(m: map<string, EdgeKey>, es: seq<Edge>, e: Edge)
    requires es != []
    requires var n := |es| - 1;
      && (forall i: nat | i < n :: InsertsAt(m, es, i) == InsertsAt(m, es[..n], i) && es[i] == es[..n][i])
      && (e in Inserted(m, es[..n]) <==> exists i: nat :: i < n && es[..n][i] == e && InsertsAt(m, es[..n], i))
    ensures e in Inserted(m, es) <==> exists i: nat :: i < |es| && es[i] == e && InsertsAt(m, es, i)
  {
    InsertedLast(m, es);
    hide Inserted, InsertsAt;
    var n := |es| - 1;
    if e in Inserted(m, es[..n]) {
      var i: nat :| i < n && es[..n][i] == e && InsertsAt(m, es[..n], i);
      assert es[i] == e && InsertsAt(m, es, i);
    }
    if i: nat :| i < n && es[i] == e && InsertsAt(m, es, i) {
      assert es[..n][i] == e && InsertsAt(m, es[..n], i);
    }
  }

  // ----- The result, collisions or not -----

  // The remembered edge that the deletion loop removes.
  ghost predicate Removed(m: map<string, EdgeKey>, es: seq<Edge>, k: EdgeKey) {
    Concat(k) in m && m[Concat(k)] == k && !Looked(es, Concat(k))
  }

  // From `db` on, `stmts` is the edge phase amid respectful bystanders.
  ghost predicate RunsEdgeProgram(
    db: Database, stmts: seq<Statement>, m: map<string, EdgeKey>, es: seq<Edge>, deletes: seq<Item>,
    accepted: seq<Item>, cluster: string)
  {
    EdgeProgram(accepted, deletes, m, es, cluster) && Amid(stmts, accepted, cluster, KeysOf(es), db)
  }

  function EdgeRowOf(e: Edge, cluster: string): EdgeRow {
    EdgeRow(e.sourceKind, e.destKind, cluster)
  }

  predicate IsInserted(r: Option<EdgeRow>, m: map<string, EdgeKey>, es: seq<Edge>, cluster: string, k: EdgeKey) {
    exists e :: e in Inserted(m, es) && e.key == k && r == Some(EdgeRowOf(e, cluster))
  }

  // What one statement of the edge phase does to the edge with key `k`.
  ghost predicate EdgeStep(
    q: Option<EdgeRow>, q': Option<EdgeRow>, m: map<string, EdgeKey>, es: seq<Edge>, cluster: string, k: EdgeKey)
  {
    || q' == q
    || (k in KeysOf(Inserted(m, es)) && q.None? && IsInserted(q', m, es, cluster, k))
    || (Removed(m, es, k) && EdgeOwnedBy(q, cluster) && q'.None?)
  }

  lemma InsertionStep(m: map<string, EdgeKey>, es: seq<Edge>, cluster: string, x: Item, k: EdgeKey, q: Option<EdgeRow>)
    requires x in InsertEdgeItems(Inserted(m, es), cluster)
    ensures EdgeStep(q, EdgeEffect(x.stmt, k, q), m, es, cluster, k) && x.stmt.InsertEdge?
  {
  }

  lemma DeletionStep(m: map<string, EdgeKey>, es: seq<Edge>, cluster: string, x: Item, k: EdgeKey, q: Option<EdgeRow>)
    requires IsDeletion(x, Remaining(m, es), cluster) && forall c | c in m :: Concat(m[c]) == c
    ensures EdgeStep(q, EdgeEffect(x.stmt, k, q), m, es, cluster, k) && x.stmt.DeleteEdgeRow?
  {
    RemainingIs(m, es);
    hide Inserted, Remaining, Looked, Concat;
    var c :| c in Remaining(m, es) && x == DeleteEdgeItem(Remaining(m, es)[c], cluster);
  }

  lemma EdgeProgramStatements(
    accepted: seq<Item>, deletes: seq<Item>, m: map<string, EdgeKey>, es: seq<Edge>, cluster: string, s: Statement,
    k: EdgeKey, q: Option<EdgeRow>)
    requires EdgeProgram(accepted, deletes, m, es, cluster) && AskedBy(accepted, s)
    requires forall c | c in m :: Concat(m[c]) == c
    ensures EdgeStep(q, EdgeEffect(s, k, q), m, es, cluster, k)
    ensures forall u, r :: RowEffect(s, u, r) == r
  {
    var x :| x in accepted && x.stmt == s;
    hide Inserted, Remaining, InsertEdgeItems, EdgeEffect, EdgeStep, IsDeletion, AllDeletions;
    if x in InsertEdgeItems(Inserted(m, es), cluster) {
      InsertionStep(m, es, cluster, x, k, q);
    } else {
      assert x in deletes;
      DeletionStep(m, es, cluster, x, k, q);
    }
  }

  lemma EdgeProgramHas(
    accepted: seq<Item>, deletes: seq<Item>, m: map<string, EdgeKey>, es: seq<Edge>, cluster: string, k: EdgeKey)
    requires EdgeProgram(accepted, deletes, m, es, cluster)
    ensures k in KeysOf(Inserted(m, es)) ==>
      exists e :: e in Inserted(m, es) && e.key == k && InsertEdgeItem(e, cluster) in accepted
    ensures Removed(m, es, k) ==> DeleteEdgeItem(k, cluster) in accepted
  {
    RemainingIs(m, es);
    hide Inserted, Remaining;
    if k in KeysOf(Inserted(m, es)) {
      var e :| e in Inserted(m, es) && e.key == k;
      var i :| 0 <= i < |Inserted(m, es)| && Inserted(m, es)[i] == e;
      assert InsertEdgeItems(Inserted(m, es), cluster)[i] == InsertEdgeItem(e, cluster);
    }
    if Removed(m, es, k) { assert Concat(k) in Remaining(m, es); }
  }

  // An edge that is removed is not also inserted, and what is inserted came in.
  lemma RemovedOrInserted(m: map<string, EdgeKey>, es: seq<Edge>, k: EdgeKey)
    ensures Removed(m, es, k) ==> k !in KeysOf(Inserted(m, es))
    ensures k in KeysOf(Inserted(m, es)) ==> k in KeysOf(es)
  {
    InsertedAre(m, es);
  }

  // What becomes of the edge with key `k`.
  ghost predicate Diffed(
    r: Option<EdgeRow>, r': Option<EdgeRow>, m: map<string, EdgeKey>, es: seq<Edge>, cluster: string, k: EdgeKey)
  {
    if EdgeOwnedBy(r, cluster) then
      if Removed(m, es, k) then !EdgeOwnedBy(r', cluster) else r' == r
    else if k in KeysOf(es) then
      if r.None? && k in KeysOf(Inserted(m, es)) then IsInserted(r', m, es, cluster, k) else r' == r
    else !EdgeOwnedBy(r', cluster)
  }

  // What a bystander does to the edge with key `k`.
  ghost predicate Aside(q: Option<EdgeRow>, q': Option<EdgeRow>, es: seq<Edge>, cluster: string, k: EdgeKey) {
    !EdgeOwnedBy(q, cluster) && !EdgeOwnedBy(q', cluster) && (k in KeysOf(es) && q.None? ==> q'.None?)
  }

  lemma EdgePhaseSteps(
    db: Database, stmts: seq<Statement>, m: map<string, EdgeKey>, es: seq<Edge>, deletes: seq<Item>,
    accepted: seq<Item>, cluster: string, k: EdgeKey)
    requires Remembers(m, db, cluster) && RunsEdgeProgram(db, stmts, m, es, deletes, accepted, cluster)
    ensures forall s, q | s in stmts ::
      EdgeStep(q, EdgeEffect(s, k, q), m, es, cluster, k) || Aside(q, EdgeEffect(s, k, q), es, cluster, k)
    ensures k in KeysOf(es) && OfOtherEdge(EdgeAt(db, k), cluster) ==>
      forall s | s in stmts :: EdgeEffect(s, k, EdgeAt(db, k)) == EdgeAt(db, k)
    ensures forall x | x in accepted :: x.stmt in stmts
  {
    hide EdgeProgram, KeysOf, Inserted, Removed, EdgeEffect;
    forall s, q | s in stmts
      ensures EdgeStep(q, EdgeEffect(s, k, q), m, es, cluster, k) || Aside(q, EdgeEffect(s, k, q), es, cluster, k)
    {
      if AskedBy(accepted, s) { EdgeProgramStatements(accepted, deletes, m, es, cluster, s, k, q); }
      else { BystanderOnEdge(s, cluster, KeysOf(es), k, q); }
    }
    var r0 := EdgeAt(db, k);
    forall s | s in stmts && k in KeysOf(es) && OfOtherEdge(r0, cluster) ensures EdgeEffect(s, k, r0) == r0 {
      if AskedBy(accepted, s) { EdgeProgramStatements(accepted, deletes, m, es, cluster, s, k, r0); }
    }
  }

  lemma DeletionEffect(k: EdgeKey, cluster: string, r: Option<EdgeRow>)
    ensures !EdgeOwnedBy(EdgeEffect(DeleteEdgeItem(k, cluster).stmt, k, r), cluster)
  {
  }

  lemma OwnEdgePhase(
    db: Database, stmts: seq<Statement>, m: map<string, EdgeKey>, es: seq<Edge>, deletes: seq<Item>,
    accepted: seq<Item>, cluster: string, k: EdgeKey)
    requires Remembers(m, db, cluster) && RunsEdgeProgram(db, stmts, m, es, deletes, accepted, cluster)
    requires EdgeOwnedBy(EdgeAt(db, k), cluster)
    ensures var r' := EdgeAt(ApplyAll(db, stmts), k);
      if Removed(m, es, k) then !EdgeOwnedBy(r', cluster) else r' == EdgeAt(db, k)
  {
    RemovedOrInserted(m, es, k);
    EdgeProgramHas(accepted, deletes, m, es, cluster, k);
    EdgePhaseSteps(db, stmts, m, es, deletes, accepted, cluster, k);
    hide RunsEdgeProgram, KeysOf, Removed, Inserted, IsInserted, Remembers, ApplyAll, EdgeEffect;
    if Removed(m, es, k) {
      var goal := (r: Option<EdgeRow>) => !EdgeOwnedBy(r, cluster);
      DeletionEffect(k, cluster, EdgeAt(db, k));
      EdgeSettles(db, stmts, k, goal);
    } else {
      EdgeUntouched(db, stmts, k);
    }
  }

  lemma InsertionEffect(e: Edge, m: map<string, EdgeKey>, es: seq<Edge>, cluster: string)
    requires e in Inserted(m, es)
    ensures IsInserted(EdgeEffect(InsertEdgeItem(e, cluster).stmt, e.key, None), m, es, cluster, e.key)
  {
    hide Inserted;
  }

  lemma InsertedIsOwned(m: map<string, EdgeKey>, es: seq<Edge>, cluster: string, k: EdgeKey)
    ensures forall r | IsInserted(r, m, es, cluster, k) :: EdgeOwnedBy(r, cluster)
  {
  }

  lemma IncomingEdgePhase(
    db: Database, stmts: seq<Statement>, m: map<string, EdgeKey>, es: seq<Edge>, deletes: seq<Item>,
    accepted: seq<Item>, cluster: string, k: EdgeKey)
    requires Remembers(m, db, cluster) && RunsEdgeProgram(db, stmts, m, es, deletes, accepted, cluster)
    requires EdgeAt(db, k).None? && k in KeysOf(Inserted(m, es))
    ensures IsInserted(EdgeAt(ApplyAll(db, stmts), k), m, es, cluster, k)
  {
    RemovedOrInserted(m, es, k);
    EdgeProgramHas(accepted, deletes, m, es, cluster, k);
    EdgePhaseSteps(db, stmts, m, es, deletes, accepted, cluster, k);
    hide RunsEdgeProgram, KeysOf, Removed, Inserted, Remembers, ApplyAll, EdgeEffect;
    var goal := (r: Option<EdgeRow>) => IsInserted(r, m, es, cluster, k);
    var e :| e in Inserted(m, es) && e.key == k && InsertEdgeItem(e, cluster) in accepted;
    InsertionEffect(e, m, es, cluster);
    InsertedIsOwned(m, es, cluster, k);
    hide IsInserted;
    EdgeSettles(db, stmts, k, goal);
  }

  /** Whether or not keys collide, in every order of the statements and amid other requests: an edge of
      the cluster is removed or kept as it is, an incoming edge that was absent is inserted or stays
      absent, and one that another cluster owns is kept. */
  lemma EdgePhase(
    db: Database, stmts: seq<Statement>, m: map<string, EdgeKey>, es: seq<Edge>, deletes: seq<Item>,
    accepted: seq<Item>, cluster: string, k: EdgeKey)
    requires Remembers(m, db, cluster) && RunsEdgeProgram(db, stmts, m, es, deletes, accepted, cluster)
    ensures Diffed(EdgeAt(db, k), EdgeAt(ApplyAll(db, stmts), k), m, es, cluster, k)
  {
    var r0 := EdgeAt(db, k);
    if EdgeOwnedBy(r0, cluster) {
      OwnEdgePhase(db, stmts, m, es, deletes, accepted, cluster, k);
    } else if r0.None? && k in KeysOf(Inserted(m, es)) {
      RemovedOrInserted(m, es, k);
      IncomingEdgePhase(db, stmts, m, es, deletes, accepted, cluster, k);
    } else {
      RemovedOrInserted(m, es, k);
      EdgePhaseSteps(db, stmts, m, es, deletes, accepted, cluster, k);
      hide RunsEdgeProgram, KeysOf, Removed, Inserted, IsInserted, Remembers, ApplyAll, EdgeEffect;
      if k in KeysOf(es) {
        EdgeUntouched(db, stmts, k);
      } else {
        EdgeSettles(db, stmts, k, (r: Option<EdgeRow>) => !EdgeOwnedBy(r, cluster));
      }
    }
  }

  // ----- When the result is the incoming edges -----

  // Some occurrence of the key is inserted.
  ghost predicate NewAfterLookup(m: map<string, EdgeKey>, es: seq<Edge>, k: EdgeKey) {
    Concat(k) !in m || exists i: nat :: i < |es| && es[i].key == k && Looked(es[..i], Concat(k))
  }

  lemma KeysInserted(m: map<string, EdgeKey>, es: seq<Edge>, k: EdgeKey)
    ensures k in KeysOf(Inserted(m, es)) <==> k in KeysOf(es) && NewAfterLookup(m, es, k)
  {
    hide Inserted, Concat;
    InsertedAre(m, es);
    if k in KeysOf(Inserted(m, es)) {
      var e :| e in Inserted(m, es) && e.key == k;
      var i: nat :| i < |es| && es[i] == e && InsertsAt(m, es, i);
      assert e in es;
    }
    if k in KeysOf(es) && NewAfterLookup(m, es, k) {
      if Concat(k) !in m {
        var e :| e in es && e.key == k;
        var i: nat :| i < |es| && es[i] == e;
        assert InsertsAt(m, es, i);
        assert e in Inserted(m, es);
      } else {
        var i: nat :| i < |es| && es[i].key == k && Looked(es[..i], Concat(k));
        assert InsertsAt(m, es, i);
        assert es[i] in Inserted(m, es);
      }
    }
  }

  // The cluster owns exactly the incoming edges that no other cluster owns, and its inter-cluster edges.
  ghost predicate HoldsIncoming(before: Database, after: Database, es: seq<Edge>, cluster: string) {
    forall k: EdgeKey ::
      EdgeOwnedBy(EdgeAt(after, k), cluster) <==>
        || (k in KeysOf(es) && !OfOtherEdge(EdgeAt(before, k), cluster))
        || (k.edgeType == INTER_CLUSTER && EdgeOwnedBy(EdgeAt(before, k), cluster))
  }

  // No collision gets in the way: an edge that did not come in is the one remembered for its
  // concatenation and no incoming edge shares it; and a new edge whose concatenation is remembered
  // has an occurrence behind another incoming edge with that concatenation.
  ghost predicate NoHarmfulCollision(m: map<string, EdgeKey>, db: Database, es: seq<Edge>, cluster: string) {
    && (forall k: EdgeKey | Existing(db, cluster, k) && k !in KeysOf(es) :: Removed(m, es, k))
    && (forall k: EdgeKey | k in KeysOf(es) && EdgeAt(db, k).None? :: NewAfterLookup(m, es, k))
  }

  /** The diff is exact if and only if no collision of concatenated keys gets in the way. */
  lemma ExactIffNoHarmfulCollision(
    db: Database, stmts: seq<Statement>, m: map<string, EdgeKey>, es: seq<Edge>, deletes: seq<Item>,
    accepted: seq<Item>, cluster: string)
    requires Remembers(m, db, cluster) && RunsEdgeProgram(db, stmts, m, es, deletes, accepted, cluster)
    ensures HoldsIncoming(db, ApplyAll(db, stmts), es, cluster) <==> NoHarmfulCollision(m, db, es, cluster)
  {
    hide RunsEdgeProgram, ApplyAll, Inserted, Concat, Removed, NewAfterLookup, KeysOf;
    var after := ApplyAll(db, stmts);
    forall k: EdgeKey
      ensures EdgeOwnedBy(EdgeAt(after, k), cluster)
        <==> if EdgeOwnedBy(EdgeAt(db, k), cluster) then !Removed(m, es, k)
             else EdgeAt(db, k).None? && k in KeysOf(es) && NewAfterLookup(m, es, k)
      ensures Removed(m, es, k) ==> Existing(db, cluster, k) && k !in KeysOf(es)
    {
      EdgePhase(db, stmts, m, es, deletes, accepted, cluster, k);
      KeysInserted(m, es, k);
      RemovedExists(m, es, db, cluster, k);
    }
    if HoldsIncoming(db, after, es, cluster) {
      forall k: EdgeKey | Existing(db, cluster, k) && k !in KeysOf(es) ensures Removed(m, es, k) {
        assert !EdgeOwnedBy(EdgeAt(after, k), cluster);
      }
      forall k: EdgeKey | k in KeysOf(es) && EdgeAt(db, k).None? ensures NewAfterLookup(m, es, k) {
        assert EdgeOwnedBy(EdgeAt(after, k), cluster);
      }
    }
  }

  lemma RemovedExists(m: map<string, EdgeKey>, es: seq<Edge>, db: Database, cluster: string, k: EdgeKey)
    requires Remembers(m, db, cluster)
    ensures Removed(m, es, k) ==> Existing(db, cluster, k) && k !in KeysOf(es)
  {
  }

  // ----- The condition on the tables and the body alone -----

  // Another existing edge of the cluster has the same concatenation.
  ghost predicate Collides(db: Database, cluster: string, k: EdgeKey) {
    exists k' :: k' != k && Existing(db, cluster, k') && Concat(k') == Concat(k)
  }

  // An existing edge that did not come in shares its concatenation with another existing edge or with
  // an incoming one.
  ghost predicate Mistaken(db: Database, es: seq<Edge>, cluster: string, k: EdgeKey) {
    Existing(db, cluster, k) && k !in KeysOf(es) && (Collides(db, cluster, k) || Looked(es, Concat(k)))
  }

  // A new edge shares its concatenation with an existing edge, and every occurrence of it comes before
  // any other incoming edge with that concatenation.
  ghost predicate Hidden(db: Database, es: seq<Edge>, cluster: string, k: EdgeKey) {
    && k in KeysOf(es) && EdgeAt(db, k).None? && Collides(db, cluster, k)
    && !exists i: nat :: i < |es| && es[i].key == k && Looked(es[..i], Concat(k))
  }

  ghost predicate CollisionFree(db: Database, es: seq<Edge>, cluster: string) {
    forall k: EdgeKey :: !Mistaken(db, es, cluster, k) && !Hidden(db, es, cluster, k)
  }

  ghost function Pick(keys: set<EdgeKey>, s: string): (k: EdgeKey)
    requires exists k :: k in keys && Concat(k) == s
    ensures k in keys && Concat(k) == s
  {
    var k :| k in keys && Concat(k) == s;
    k
  }

  // A map that the existing edges can be read into, remembering `k` for its concatenation.
  lemma ReadingOf(db: Database, cluster: string, k: EdgeKey) returns (m: map<string, EdgeKey>)
    ensures Remembers(m, db, cluster)
    ensures Existing(db, cluster, k) ==> m[Concat(k)] == k
  {
    hide Concat;
    var keys := set q | q in db.edges && Existing(db, cluster, q);
    m := map s | s in (set q | q in keys :: Concat(q)) :: Pick(keys, s);
    forall q | Existing(db, cluster, q) ensures Concat(q) in m { assert q in keys; }
    if Existing(db, cluster, k) { m := m[Concat(k) := k]; }
  }

  lemma CollisionFreeForEveryMap(db: Database, es: seq<Edge>, cluster: string)
    ensures CollisionFree(db, es, cluster)
      <==> forall m | Remembers(m, db, cluster) :: NoHarmfulCollision(m, db, es, cluster)
  {
    hide Concat, KeysOf, Looked;
    if CollisionFree(db, es, cluster) {
      forall m | Remembers(m, db, cluster) ensures NoHarmfulCollision(m, db, es, cluster) {
        FreeIsHarmless(m, db, es, cluster);
      }
    } else {
      var k: EdgeKey :| Mistaken(db, es, cluster, k) || Hidden(db, es, cluster, k);
      var k' := k;
      if Mistaken(db, es, cluster, k) && Collides(db, cluster, k) {
        k' :| k' != k && Existing(db, cluster, k') && Concat(k') == Concat(k);
      }
      var m := ReadingOf(db, cluster, k');
      assert if Mistaken(db, es, cluster, k) then !Removed(m, es, k) else !NewAfterLookup(m, es, k);
      assert !NoHarmfulCollision(m, db, es, cluster);
    }
  }

  lemma FreeIsHarmless(m: map<string, EdgeKey>, db: Database, es: seq<Edge>, cluster: string)
    requires CollisionFree(db, es, cluster) && Remembers(m, db, cluster)
    ensures NoHarmfulCollision(m, db, es, cluster)
  {
    hide Concat, KeysOf, Looked;
    forall k: EdgeKey | Existing(db, cluster, k) && k !in KeysOf(es) ensures Removed(m, es, k) {
      assert !Mistaken(db, es, cluster, k) && Existing(db, cluster, m[Concat(k)]);
    }
    forall k: EdgeKey | k in KeysOf(es) && EdgeAt(db, k).None? ensures NewAfterLookup(m, es, k) {
      assert !Hidden(db, es, cluster, k);
      if Concat(k) in m { assert Existing(db, cluster, m[Concat(k)]); }
    }
  }

  // The statements of the items, in their order, with nobody else about.
  function StatementsOf(items: seq<Item>): seq<Statement> {
    seq(|items|, i requires 0 <= i < |items| => items[i].stmt)
  }

  lemma OnlyTheItems(items: seq<Item>)
    ensures forall s | s in StatementsOf(items) :: AskedBy(items, s)
    ensures forall x | x in items :: x.stmt in StatementsOf(items)
  {
    forall s | s in StatementsOf(items) ensures AskedBy(items, s) {
      var i :| 0 <= i < |items| && StatementsOf(items)[i] == s;
      assert items[i] in items;
    }
    forall x | x in items ensures x.stmt in StatementsOf(items) {
      var i :| 0 <= i < |items| && items[i] == x;
      assert StatementsOf(items)[i] == x.stmt;
    }
  }

  // The edge phase for a map, with nobody else about.
  lemma ProgramFor(db: Database, m: map<string, EdgeKey>, es: seq<Edge>, cluster: string)
      returns (deletes: seq<Item>, accepted: seq<Item>, stmts: seq<Statement>)
    ensures RunsEdgeProgram(db, stmts, m, es, deletes, accepted, cluster)
    ensures forall s | s in stmts :: AskedBy(accepted, s)
  {
    hide Inserted, Remaining, InsertEdgeItems, OnlyDeletions, AllDeletions;
    var left := Remaining(m, es);
    deletes := [];
    var todo := left.Keys;
    NothingDeleted(left, cluster);
    while todo != {}
      invariant todo <= left.Keys
      invariant OnlyDeletions(deletes, left, cluster) && AllDeletions(deletes, left, todo, cluster)
      decreases todo
    {
      var s :| s in todo;
      DeleteOne(deletes, left, todo, s, cluster);
      deletes := deletes + [DeleteEdgeItem(left[s], cluster)];
      todo := todo - {s};
    }
    accepted := InsertEdgeItems(Inserted(m, es), cluster) + deletes;
    stmts := StatementsOf(accepted);
    OnlyTheItems(accepted);
  }

  // However the existing edges are read and the statements ordered, the incoming edges are what is left.
  ghost predicate AlwaysExact(db: Database, es: seq<Edge>, cluster: string) {
    forall m, stmts, deletes, accepted
      | Remembers(m, db, cluster) && RunsEdgeProgram(db, stmts, m, es, deletes, accepted, cluster) ::
      HoldsIncoming(db, ApplyAll(db, stmts), es, cluster)
  }

  /** The diff is exact however the database returns the existing edges, if and only if the tables and
      the body are free of collisions: a condition on what is there before the resync of the edges. */
  lemma ExactIffCollisionFree(db: Database, es: seq<Edge>, cluster: string)
    ensures AlwaysExact(db, es, cluster) <==> CollisionFree(db, es, cluster)
  {
    hide CollisionFree, HoldsIncoming, NoHarmfulCollision, ApplyAll, Remembers, RunsEdgeProgram;
    CollisionFreeForEveryMap(db, es, cluster);
    forall m, stmts, deletes, accepted
      | Remembers(m, db, cluster) && RunsEdgeProgram(db, stmts, m, es, deletes, accepted, cluster)
      ensures HoldsIncoming(db, ApplyAll(db, stmts), es, cluster) <==> NoHarmfulCollision(m, db, es, cluster)
    {
      ExactIffNoHarmfulCollision(db, stmts, m, es, deletes, accepted, cluster);
    }
    if AlwaysExact(db, es, cluster) {
      forall m | Remembers(m, db, cluster) ensures NoHarmfulCollision(m, db, es, cluster) {
        var deletes, accepted, stmts := ProgramFor(db, m, es, cluster);
      }
    }
  }

  // ----- Keys that do not collide -----

  ghost predicate Injective(keys: iset<EdgeKey>) {
    forall k, k' | k in keys && k' in keys && Concat(k) == Concat(k') :: k == k'
  }

  // The keys that the diff compares.
  ghost function Compared(db: Database, es: seq<Edge>, cluster: string): iset<EdgeKey> {
    iset k | Existing(db, cluster, k) || k in KeysOf(es)
  }

  /** Without collisions among the compared keys the diff is exact. */
  lemma InjectiveIsExact(db: Database, es: seq<Edge>, cluster: string)
    requires Injective(Compared(db, es, cluster))
    ensures CollisionFree(db, es, cluster)
  {
  }

  // Uids of one width, as the collectors of one cluster assign them.
  ghost predicate FixedWidth(keys: iset<EdgeKey>, source: nat, dest: nat) {
    forall k: EdgeKey | k in keys :: |k.source| == source && |k.dest| == dest
  }

  /** Uids of a fixed width rule collisions out. */
  lemma FixedWidthIsInjective(keys: iset<EdgeKey>, source: nat, dest: nat)
    requires FixedWidth(keys, source, dest)
    ensures Injective(keys)
  {
    forall k, k' | k in keys && k' in keys && Concat(k) == Concat(k') ensures k == k' {
      var s := Concat(k);
      assert s[..source] == k.source && s[..source] == k'.source;
      var n := |s| - dest;
      assert s[source..n] == k.edgeType && s[source..n] == k'.edgeType;
      assert s[n..] == k.dest && s[n..] == k'.dest;
    }
  }
}
