/** Whole requests, whatever fails: they stay in their own cluster, keep the naming of rows, never
    delete what came in, and, when their statements touch different rows, do not depend on the order
    in which their batches run. */
module Requests {
  import opened Serial
  import opened BatchEngine
  import opened Tables
  import opened Sync
  import opened SyncEffect
  import opened Resync
  import opened ResyncEffect

  // ----- What took effect was asked for -----

  lemma EffectiveWasAsked(
    fails: (Database, Statement) -> bool, before: Database, after: Database, items: seq<Item>,
    log: seq<Entry<Statement>>)
    requires Explains(Exec(fails), before, log, after) && multiset(ItemsOf(log)) <= multiset(items)
    ensures after == ApplyAll(before, Effective(log))
    ensures forall s | s in Effective(log) :: AskedBy(items, s)
  {
    hide Exec, Explains, ApplyAll;
    LogApplies(fails, before, log, after);
    EffectiveItems(log);
    forall s | s in Effective(log) ensures AskedBy(items, s) {
      var x :| x in ItemsOf(log) && x.stmt == s;
      assert x in multiset(ItemsOf(log));
    }
  }

  lemma AskedByPrefix(accepted: seq<Item>, program: seq<Item>, s: Statement)
    requires accepted <= program && AskedBy(accepted, s)
    ensures AskedBy(program, s)
  {
  }

  // ----- Frame and ownership -----

  ghost predicate OthersUntouched(before: Database, after: Database, cluster: string) {
    && (forall u :: OfOtherRow(RowAt(before, u), cluster) || OfOtherRow(RowAt(after, u), cluster) ==>
          RowAt(after, u) == RowAt(before, u))
    && (forall k :: OfOtherEdge(EdgeAt(before, k), cluster) || OfOtherEdge(EdgeAt(after, k), cluster) ==>
          EdgeAt(after, k) == EdgeAt(before, k))
  }

  lemma AtHome(before: Database, stmts: seq<Statement>, cluster: string)
    requires forall s | s in stmts :: ScopedTo(s, cluster) && NamesOwnRow(s)
    ensures OthersUntouched(before, ApplyAll(before, stmts), cluster)
    ensures Owned(before) ==> Owned(ApplyAll(before, stmts))
  {
    OtherClustersUntouched(before, stmts, cluster);
    if Owned(before) { OwnershipKept(before, stmts); }
  }

  lemma SyncAtHome(ev: SyncEvent, cluster: string, s: Statement)
    requires AskedBy(Program(ev, cluster), s)
    ensures ScopedTo(s, cluster) && (SlashFree(cluster) ==> NamesOwnRow(s))
  {
    hide Program, BulkDeletes, HasPrefix, Marshal;
    var x :| x in Program(ev, cluster) && x.stmt == s;
    ProgramItem(ev, cluster, x);
  }

  lemma ResetAtHome(rs: seq<Resource>, cluster: string, s: Statement)
    requires AskedBy(ResetProgram(rs, cluster), s)
    ensures ScopedTo(s, cluster) && (SlashFree(cluster) ==> NamesOwnRow(s))
  {
    hide ResetProgram, KeepList, HasPrefix, Marshal;
    var x :| x in ResetProgram(rs, cluster) && x.stmt == s;
    ResetItem(rs, cluster, x);
  }

  lemma EdgesAtHome(es: seq<Edge>, deletes: seq<Item>, m: map<string, EdgeKey>, cluster: string, s: Statement)
    requires AskedBy(InsertEdgeItems(es, cluster) + deletes, s) && OnlyDeletions(deletes, m, cluster)
    ensures ScopedTo(s, cluster) && NamesOwnRow(s)
    ensures forall u, r :: RowEffect(s, u, r) == r
  {
  }

  /** A delta sync, whatever fails, leaves every row and edge of the other clusters as it was, adds
      none, and keeps rows named after their clusters. */
  lemma SyncStaysHome(
    ev: SyncEvent, cluster: string, fails: (Database, Statement) -> bool, before: Database, after: Database,
    accepted: seq<Item>, log: seq<Entry<Statement>>)
    requires Settled(Exec(fails), before, after, accepted, log) && accepted <= Program(ev, cluster) &&
      SlashFree(cluster)
    ensures OthersUntouched(before, after, cluster)
    ensures Owned(before) ==> Owned(after)
  {
    hide Exec, Explains, ApplyAll, Program, OthersUntouched, Owned;
    EffectiveWasAsked(fails, before, after, accepted, log);
    forall s | s in Effective(log) ensures ScopedTo(s, cluster) && NamesOwnRow(s) {
      AskedByPrefix(accepted, Program(ev, cluster), s);
      SyncAtHome(ev, cluster, s);
    }
    AtHome(before, Effective(log), cluster);
  }

  /** So does a full resync, in both of its phases. */
  lemma ResyncStaysHome(
    rs: seq<Resource>, es: seq<Edge>, cluster: string, fails: (Database, Statement) -> bool, before: Database,
    middle: Database, after: Database, accepted: seq<Item>, log: seq<Entry<Statement>>,
    existing: map<string, EdgeKey>, deletes: seq<Item>, accepted2: seq<Item>, log2: seq<Entry<Statement>>)
    requires SlashFree(cluster)
    requires Settled(Exec(fails), before, middle, accepted, log) && accepted <= ResetProgram(rs, cluster)
    requires Explains(Exec(fails), middle, log2, after) && multiset(ItemsOf(log2)) <= multiset(accepted2)
    requires accepted2 <= InsertEdgeItems(Inserted(existing, es), cluster) + deletes
    requires OnlyDeletions(deletes, Remaining(existing, es), cluster)
    ensures OthersUntouched(before, after, cluster)
    ensures Owned(before) ==> Owned(after)
  {
    hide Exec, Explains, ApplyAll, ResetProgram, Owned, Inserted, Remaining, InsertEdgeItems, OnlyDeletions;
    EffectiveWasAsked(fails, before, middle, accepted, log);
    forall s | s in Effective(log) ensures ScopedTo(s, cluster) && NamesOwnRow(s) {
      AskedByPrefix(accepted, ResetProgram(rs, cluster), s);
      ResetAtHome(rs, cluster, s);
    }
    AtHome(before, Effective(log), cluster);
    EffectiveWasAsked(fails, middle, after, accepted2, log2);
    forall s | s in Effective(log2) ensures ScopedTo(s, cluster) && NamesOwnRow(s) {
      AskedByPrefix(accepted2, InsertEdgeItems(Inserted(existing, es), cluster) + deletes, s);
      EdgesAtHome(Inserted(existing, es), deletes, Remaining(existing, es), cluster, s);
    }
    AtHome(middle, Effective(log2), cluster);
  }

  // ----- Every history -----

  // The statements that requests and cluster events issue, for names without slashes.
  ghost predicate Issued(s: Statement) {
    || (exists ev, c :: SlashFree(c) && AskedBy(Program(ev, c), s))
    || (exists rs, c :: SlashFree(c) && AskedBy(ResetProgram(rs, c), s))
    || s.InsertEdge? || s.DeleteEdgeRow?
    || (s.UpsertNode? && SlashFree(s.cluster) && s.uid == NodeUid(s.cluster))
    || s.DeleteClusterResources? || s.DeleteClusterEdges? || s.DeleteByUid?
  }

  /** Rows stay named after the cluster that owns them through every history of statements of any
      number of concurrent syncs, resyncs, node upserts and deletions. */
  lemma EveryHistoryKeepsOwnership(db: Database, history: seq<Statement>)
    requires Owned(db) && forall s | s in history :: Issued(s)
    ensures Owned(ApplyAll(db, history))
  {
    forall s | s in history ensures NamesOwnRow(s) {
      if ev, c :| SlashFree(c) && AskedBy(Program(ev, c), s) { SyncAtHome(ev, c, s); }
      else if rs, c :| SlashFree(c) && AskedBy(ResetProgram(rs, c), s) { ResetAtHome(rs, c, s); }
    }
    OwnershipKept(db, history);
  }

  // ----- Delete safety -----

  /** Whatever fails during a resync - the connection, the decoding of an element, any statement -
      no resource is deleted whose accepted uid was read from the body, and the cluster node is not
      touched. */
  lemma ResyncNeverDeletesIncoming(
    elements: seq<Element<Resource>>, es: seq<Edge>, cluster: string, fails: (Database, Statement) -> bool,
    before: Database, middle: Database, after: Database, accepted: seq<Item>, log: seq<Entry<Statement>>,
    existing: map<string, EdgeKey>, deletes: seq<Item>, accepted2: seq<Item>, log2: seq<Entry<Statement>>)
    requires SlashFree(cluster)
    requires Settled(Exec(fails), before, middle, accepted, log) &&
      accepted <= ResetProgram(Readable(elements), cluster)
    requires Explains(Exec(fails), middle, log2, after) && multiset(ItemsOf(log2)) <= multiset(accepted2)
    requires accepted2 <= InsertEdgeItems(Inserted(existing, es), cluster) + deletes
    requires OnlyDeletions(deletes, Remaining(existing, es), cluster)
    ensures forall u | u in AcceptedUids(Readable(elements), cluster) && RowAt(before, u).Some? :: RowAt(after, u).Some?
    ensures RowAt(after, NodeUid(cluster)) == RowAt(before, NodeUid(cluster))
  {
    hide Exec, Explains, ApplyAll, ResetProgram, AcceptedUids, Readable, Inserted, Remaining, InsertEdgeItems,
      OnlyDeletions;
    var rs := Readable(elements);
    EffectiveWasAsked(fails, before, middle, accepted, log);
    forall s | s in Effective(log) ensures AskedBy(ResetProgram(rs, cluster), s) {
      AskedByPrefix(accepted, ResetProgram(rs, cluster), s);
    }
    ResetNeverDeletesIncoming(rs, cluster, before, Effective(log));
    EffectiveWasAsked(fails, middle, after, accepted2, log2);
    forall u ensures RowAt(after, u) == RowAt(middle, u) {
      forall s | s in Effective(log2) ensures RowEffect(s, u, RowAt(middle, u)) == RowAt(middle, u) {
        AskedByPrefix(accepted2, InsertEdgeItems(Inserted(existing, es), cluster) + deletes, s);
        EdgesAtHome(Inserted(existing, es), deletes, Remaining(existing, es), cluster, s);
      }
      RowUntouched(middle, Effective(log2), u);
    }
  }

  // ----- Order -----

  ghost predicate PairwiseDisjoint(items: seq<Item>) {
    forall x, y | x in items && y in items && x != y :: TouchDisjoint(x.stmt, y.stmt)
  }

  /** When the accepted statements touch pairwise different rows, every interleaving of the batches
      and their halves ends in the database of running them one at a time, with the same errors. */
  lemma DisjointConfluence(
    fails: (Database, Statement) -> bool, net: nat -> Fault, batchSize: int, start: Database,
    moves: seq<Move<Statement>>)
    requires FailsLocally(fails) && forall k :: net(k).Clean?
    requires var e := Steps(Exec(fails), net, batchSize, Fresh(start), moves);
      Quiescent(e) && PairwiseDisjoint(e.accepted)
    ensures var e := Steps(Exec(fails), net, batchSize, Fresh(start), moves);
      && e.db == After(Exec(fails), start, e.accepted)
      && multiset(e.reports) == multiset(e.rejections) + multiset(Failures(Skipped(Exec(fails), start, e.accepted)))
  {
    hide Independent, FailsLocally, TouchDisjoint, Steps;
    var accepted := Steps(Exec(fails), net, batchSize, Fresh(start), moves).accepted;
    forall x: Item, y: Item | x in multiset(accepted) && y in multiset(accepted) && x != y
      ensures Independent(Exec(fails), x.stmt, y.stmt)
    {
      DisjointIndependent(fails, x.stmt, y.stmt);
    }
    Confluence(Exec(fails), net, batchSize, start, moves);
  }

  ghost predicate FunctionalEdges(es: seq<Edge>) {
    forall e, e' | e in es && e' in es && e.key == e'.key :: e == e'
  }

  // The item that may touch a row: the addition, the update or the bulk deletion of its uid.
  lemma WhoTouchesRow(ev: SyncEvent, cluster: string, x: Item, u: string)
    requires x in Program(ev, cluster) && TouchesRow(x.stmt, u)
    ensures
      || (exists r :: r in ev.addResources && r.uid == u && x == AddItem(r, cluster))
      || (exists r :: r in ev.updateResources && r.uid == u && x == UpdateItem(r, cluster))
      || (u in ev.deleteResources && x == BulkDeletes(ev.deleteResources, cluster)[0])
  {
    hide Program, HasPrefix, Marshal;
    ProgramItem(ev, cluster, x);
  }

  lemma WhoTouchesEdge(ev: SyncEvent, cluster: string, x: Item, k: EdgeKey)
    requires x in Program(ev, cluster) && TouchesEdge(x.stmt, k)
    ensures
      || (exists e :: e in ev.addEdges && e.key == k && x == InsertEdgeItem(e, cluster))
      || (k in KeysOf(ev.deleteEdges) && x == DeleteEdgeItem(k, cluster))
      || (AtDeleted(ev, k) && x == BulkDeletes(ev.deleteResources, cluster)[1])
  {
    hide Program, HasPrefix, Marshal;
    ProgramItem(ev, cluster, x);
  }

  lemma RowTouchedOnce(ev: SyncEvent, cluster: string, st: Collector, db: Database, x: Item, y: Item, u: string)
    requires WellFormed(ev, cluster, st, db)
    requires x in Program(ev, cluster) && TouchesRow(x.stmt, u) && y in Program(ev, cluster) && TouchesRow(y.stmt, u)
    ensures x == y
  {
    WhoTouchesRow(ev, cluster, x, u);
    WhoTouchesRow(ev, cluster, y, u);
    hide Program, TouchesRow, BulkDeletes;
    forall r | r in ev.addResources && r.uid == u ensures u in UidsOf(ev.addResources) {}
    forall r | r in ev.updateResources && r.uid == u ensures u in UidsOf(ev.updateResources) {}
    if r :| r in ev.addResources && r.uid == u && x == AddItem(r, cluster) {
      var r' :| r' in ev.addResources && r'.uid == u && y == AddItem(r', cluster);
      assert r == r';
    } else if r :| r in ev.updateResources && r.uid == u && x == UpdateItem(r, cluster) {
      var r' :| r' in ev.updateResources && r'.uid == u && y == UpdateItem(r', cluster);
      assert r == r';
    }
  }

  predicate DeletesEdges(s: Statement) {
    s.DeleteEdgesAt? || s.DeleteEdgeRow?
  }

  // Two different statements of a well-formed delta touch different rows or both delete edges.
  lemma DisjointOrDeletions(ev: SyncEvent, cluster: string, st: Collector, db: Database, x: Item, y: Item)
    requires WellFormed(ev, cluster, st, db) && FunctionalEdges(ev.addEdges)
    requires x in Program(ev, cluster) && y in Program(ev, cluster) && x != y
    ensures TouchDisjoint(x.stmt, y.stmt) || (DeletesEdges(x.stmt) && DeletesEdges(y.stmt))
  {
    hide Program;
    forall u ensures !(TouchesRow(x.stmt, u) && TouchesRow(y.stmt, u)) {
      if TouchesRow(x.stmt, u) && TouchesRow(y.stmt, u) { RowTouchedOnce(ev, cluster, st, db, x, y, u); }
    }
    if k :| TouchesEdge(x.stmt, k) && TouchesEdge(y.stmt, k) {
      WhoTouchesEdge(ev, cluster, x, k);
      WhoTouchesEdge(ev, cluster, y, k);
    }
  }

  /** The statements of a well-formed delta touch pairwise different rows, provided it does not
      delete edges twice, once by name and once through a deleted resource. */
  lemma WellFormedIsDisjoint(ev: SyncEvent, cluster: string, st: Collector, db: Database)
    requires WellFormed(ev, cluster, st, db) && FunctionalEdges(ev.addEdges)
    requires forall k | k in KeysOf(ev.deleteEdges) :: !AtDeleted(ev, k)
    ensures PairwiseDisjoint(Program(ev, cluster))
  {
    hide Program;
    forall x, y | x in Program(ev, cluster) && y in Program(ev, cluster) && x != y
      ensures TouchDisjoint(x.stmt, y.stmt)
    {
      DisjointOrDeletions(ev, cluster, st, db, x, y);
      forall k ensures !(TouchesEdge(x.stmt, k) && TouchesEdge(y.stmt, k)) {
        if TouchesEdge(x.stmt, k) { WhoTouchesEdge(ev, cluster, x, k); }
        if TouchesEdge(y.stmt, k) { WhoTouchesEdge(ev, cluster, y, k); }
      }
    }
  }

  // Whether a statement is rejected depends on the statement alone.
  ghost predicate FailsByStatement(fails: (Database, Statement) -> bool) {
    forall db, db', s :: fails(db, s) == fails(db', s)
  }

  lemma DeletionsIndependent(fails: (Database, Statement) -> bool, p: Statement, q: Statement)
    requires FailsByStatement(fails) && DeletesEdges(p) && DeletesEdges(q)
    ensures Independent(Exec(fails), p, q)
  {
    var exec := Exec(fails);
    forall db: Database
      ensures Attempt(exec, Attempt(exec, db, p), q) == Attempt(exec, Attempt(exec, db, q), p)
      ensures exec(Attempt(exec, db, p), q).None? <==> exec(db, q).None?
      ensures exec(Attempt(exec, db, q), p).None? <==> exec(db, p).None?
    {
      DeletionsCommute(db, p, q);
      assert fails(Apply(db, q), p) == fails(db, p);
      assert fails(Apply(db, p), q) == fails(db, q);
    }
  }

  lemma DeletionsCommute(db: Database, p: Statement, q: Statement)
    requires DeletesEdges(p) && DeletesEdges(q)
    ensures Apply(Apply(db, p), q) == Apply(Apply(db, q), p)
  {
    forall u ensures RowAt(Apply(Apply(db, p), q), u) == RowAt(Apply(Apply(db, q), p), u) {}
    forall k ensures EdgeAt(Apply(Apply(db, p), q), k) == EdgeAt(Apply(Apply(db, q), p), k) {
      EdgeOf(db, p, k);
      EdgeOf(Apply(db, p), q, k);
      EdgeOf(db, q, k);
      EdgeOf(Apply(db, q), p, k);
    }
    SameRows(Apply(Apply(db, p), q), Apply(Apply(db, q), p));
  }

  /** Confluence of a well-formed delta: if rejections do not depend on the state, every interleaving of its
      batches and their halves ends in the database and the errors of running it in queue order, also when
      it deletes edges both by name and with a resource. */
  lemma WellFormedConfluence(
    ev: SyncEvent, cluster: string, st: Collector, db: Database, fails: (Database, Statement) -> bool,
    net: nat -> Fault, batchSize: int, start: Database, moves: seq<Move<Statement>>)
    requires WellFormed(ev, cluster, st, db) && FunctionalEdges(ev.addEdges)
    requires FailsByStatement(fails) && forall k :: net(k).Clean?
    requires var e := Steps(Exec(fails), net, batchSize, Fresh(start), moves);
      Quiescent(e) && e.accepted == Program(ev, cluster)
    ensures var e := Steps(Exec(fails), net, batchSize, Fresh(start), moves);
      && e.db == After(Exec(fails), start, Program(ev, cluster))
      && multiset(e.reports)
         == multiset(e.rejections) + multiset(Failures(Skipped(Exec(fails), start, Program(ev, cluster))))
  {
    hide Independent, TouchDisjoint, Steps, Program, WellFormed, FunctionalEdges;
    var program := Program(ev, cluster);
    forall x: Item, y: Item | x in multiset(program) && y in multiset(program) && x != y
      ensures Independent(Exec(fails), x.stmt, y.stmt)
    {
      DisjointOrDeletions(ev, cluster, st, db, x, y);
      if TouchDisjoint(x.stmt, y.stmt) { DisjointIndependent(fails, x.stmt, y.stmt); }
      else { DeletionsIndependent(fails, x.stmt, y.stmt); }
    }
    Confluence(Exec(fails), net, batchSize, start, moves);
  }
}
