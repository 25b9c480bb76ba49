/** What a full resync makes of the tables: exactly the incoming state, whatever was there before,
    and what it never deletes, whatever fails. */
module ResyncEffect {
  import opened Options
  import opened Tables
  import opened Sync
  import opened SyncEffect
  import opened Resync

  // ----- Resources -----

  // The accepted resources of a body.
  function ResourcesOf(rs: seq<Resource>, cluster: string): map<string, Props> {
    map u | u in UidsOf(rs) && Accepts(u, cluster) :: PropertiesOf(rs, u)
  }

  lemma {:induction false} AcceptedUidsAre(rs: seq<Resource>, cluster: string)
    ensures forall u :: u in AcceptedUids(rs, cluster) <==> u in UidsOf(rs) && Accepts(u, cluster)
  {
    if rs != [] {
      var n := |rs| - 1;
      AcceptedUidsAre(rs[..n], cluster);
      assert rs == rs[..n] + [rs[n]];
    }
  }

  lemma KeepListIs(rs: seq<Resource>, cluster: string)
    ensures forall u :: u in KeepList(rs, cluster) <==> u in ResourcesOf(rs, cluster) || u == NodeUid(cluster)
  {
    AcceptedUidsAre(rs, cluster);
  }

  // The items of the reset, by where they come from.
  lemma ResetItem(rs: seq<Resource>, cluster: string, x: Item)
    requires x in ResetProgram(rs, cluster)
    ensures
      || (exists r :: r in rs && Accepts(r.uid, cluster) && x == AddItem(r, cluster))
      || x.stmt == DeleteResourcesNotIn(cluster, KeepList(rs, cluster))
      || x.stmt == DeleteEdgesNotWithin(cluster, KeepList(rs, cluster))
  {
    AcceptedItemsAre(rs, cluster, AddItem);
  }

  // What one statement of the reset does to one row.
  lemma ResetOnRow(rs: seq<Resource>, cluster: string, s: Statement, u: string, q: Option<Row>)
    requires AskedBy(ResetProgram(rs, cluster), s)
    ensures var q' := RowEffect(s, u, q);
      || q' == q
      || (u in ResourcesOf(rs, cluster) && (q.None? || OwnedBy(q, cluster))
          && exists r | r in rs :: r.uid == u && q' == Some(Row(cluster, Marshal(r.properties))))
      || (u !in KeepList(rs, cluster) && OwnedBy(q, cluster) && q'.None?)
  {
    hide ResetProgram, KeepList, HasPrefix, Marshal;
    var x :| x in ResetProgram(rs, cluster) && x.stmt == s;
    ResetItem(rs, cluster, x);
    if r :| r in rs && Accepts(r.uid, cluster) && x == AddItem(r, cluster) {
      assert r.uid in UidsOf(rs);
    }
  }

  lemma ResetOnEdge(rs: seq<Resource>, cluster: string, s: Statement, k: EdgeKey, q: Option<EdgeRow>)
    requires AskedBy(ResetProgram(rs, cluster), s)
    ensures var q' := EdgeEffect(s, k, q);
      || q' == q
      || ((k.source !in KeepList(rs, cluster) || k.dest !in KeepList(rs, cluster)) && EdgeOwnedBy(q, cluster) &&
        q'.None?)
  {
    hide ResetProgram, KeepList, HasPrefix, Marshal;
    var x :| x in ResetProgram(rs, cluster) && x.stmt == s;
    ResetItem(rs, cluster, x);
  }

  lemma ResetHas(rs: seq<Resource>, cluster: string)
    ensures forall r | r in rs && Accepts(r.uid, cluster) :: AddItem(r, cluster) in ResetProgram(rs, cluster)
    ensures DeleteOthersItem(cluster, KeepList(rs, cluster)) in ResetProgram(rs, cluster)
    ensures DeleteOtherEdgesItem(cluster, KeepList(rs, cluster)) in ResetProgram(rs, cluster)
  {
    AcceptedItemsAre(rs, cluster, AddItem);
    var tail := [DeleteOthersItem(cluster, KeepList(rs, cluster)),
      DeleteOtherEdgesItem(cluster, KeepList(rs, cluster))];
    assert tail[0] in tail && tail[1] in tail;
    assert ResetProgram(rs, cluster) == AcceptedItems(rs, cluster, AddItem) + tail;
  }

  ghost predicate FunctionalOn(rs: seq<Resource>, cluster: string) {
    forall r, r' | r in rs && r' in rs && r.uid == r'.uid && Accepts(r.uid, cluster) :: r.properties == r'.properties
  }

  /** The reset leaves the cluster with exactly the accepted resources of the body, whatever its rows
      were before, in every order of the statements and with statements of other requests in between. */
  lemma ResetExact(rs: seq<Resource>, cluster: string, db: Database, stmts: seq<Statement>, claimed: set<EdgeKey>)
    requires Owned(db) && SlashFree(cluster) && FunctionalOn(rs, cluster)
    requires Carries(stmts, ResetProgram(rs, cluster), cluster, claimed)
    ensures MatchesResources(ApplyAll(db, stmts), cluster, ResourcesOf(rs, cluster))
  {
    hide ResetProgram, ApplyAll, ResourcesOf, KeepList;
    forall u | u != NodeUid(cluster)
      ensures if u in ResourcesOf(rs, cluster)
              then RowAt(ApplyAll(db, stmts), u) == Some(Row(cluster, Marshal(ResourcesOf(rs, cluster)[u])))
              else !OwnedBy(RowAt(ApplyAll(db, stmts), u), cluster)
    {
      if u in ResourcesOf(rs, cluster) { ResetSets(rs, cluster, db, stmts, claimed, u); }
      else { ResetRemoves(rs, cluster, db, stmts, claimed, u); }
    }
  }

  lemma ResetSets(
    rs: seq<Resource>, cluster: string, db: Database, stmts: seq<Statement>, claimed: set<EdgeKey>, u: string)
    requires Owned(db) && SlashFree(cluster) && FunctionalOn(rs, cluster)
    requires Carries(stmts, ResetProgram(rs, cluster), cluster, claimed)
    requires u != NodeUid(cluster) && u in ResourcesOf(rs, cluster)
    ensures RowAt(ApplyAll(db, stmts), u) == Some(Row(cluster, Marshal(ResourcesOf(rs, cluster)[u])))
  {
    hide ResetProgram;
    KeepListIs(rs, cluster);
    hide KeepList;
    var data := Marshal(ResourcesOf(rs, cluster)[u]);
    var goal := (r: Option<Row>) => r == Some(Row(cluster, data));
    var r0 := RowAt(db, u);
    assert HasPrefix(u, cluster + "/");
    assert r0.None? || OwnedBy(r0, cluster) by {
      if r0.Some? {
        assert RowOwned(u, db.resources[u].cluster);
        OwnerUnique(u, r0.value.cluster, cluster);
      }
    }
    forall s, q | s in stmts && (q == r0 || goal(q))
      ensures RowEffect(s, u, q) == q || goal(RowEffect(s, u, q))
    {
      if AskedBy(ResetProgram(rs, cluster), s) { ResetOnRow(rs, cluster, s, u, q); }
      else { BystanderOnRow(s, cluster, claimed, u, q); }
    }
    var r :| r in rs && r.uid == u && r.properties == ResourcesOf(rs, cluster)[u];
    ResetHas(rs, cluster);
    assert goal(RowEffect(AddItem(r, cluster).stmt, u, r0));
    RowSettles(db, stmts, u, goal);
  }

  lemma ResetRemoves(
    rs: seq<Resource>, cluster: string, db: Database, stmts: seq<Statement>, claimed: set<EdgeKey>, u: string)
    requires Owned(db) && SlashFree(cluster)
    requires Carries(stmts, ResetProgram(rs, cluster), cluster, claimed)
    requires u != NodeUid(cluster) && u !in ResourcesOf(rs, cluster)
    ensures !OwnedBy(RowAt(ApplyAll(db, stmts), u), cluster)
  {
    hide ResetProgram;
    KeepListIs(rs, cluster);
    hide KeepList, ResourcesOf;
    var goal := (r: Option<Row>) => !OwnedBy(r, cluster);
    var r0 := RowAt(db, u);
    forall s, q | s in stmts && (q == r0 || goal(q))
      ensures RowEffect(s, u, q) == q || goal(RowEffect(s, u, q))
    {
      if AskedBy(ResetProgram(rs, cluster), s) { ResetOnRow(rs, cluster, s, u, q); }
      else {
        if OwnedBy(q, cluster) { assert RowOwned(u, db.resources[u].cluster); }
        BystanderOnRow(s, cluster, claimed, u, q);
      }
    }
    ResetHas(rs, cluster);
    var x := DeleteOthersItem(cluster, KeepList(rs, cluster));
    assert x.stmt in stmts;
    assert goal(RowEffect(x.stmt, u, r0));
    RowSettles(db, stmts, u, goal);
  }

  /** Delete safety under every failure: of whatever part of the reset takes effect, no row is
      deleted whose accepted uid was read from the body, and the node row is not touched. */
  lemma ResetNeverDeletesIncoming(rs: seq<Resource>, cluster: string, db: Database, stmts: seq<Statement>)
    requires forall s | s in stmts :: AskedBy(ResetProgram(rs, cluster), s)
    requires SlashFree(cluster)
    ensures forall u | u in AcceptedUids(rs, cluster) && RowAt(db, u).Some? :: RowAt(ApplyAll(db, stmts), u).Some?
    ensures RowAt(ApplyAll(db, stmts), NodeUid(cluster)) == RowAt(db, NodeUid(cluster))
  {
    hide ResetProgram;
    KeepListIs(rs, cluster);
    AcceptedUidsAre(rs, cluster);
    hide KeepList, AcceptedUids;
    forall u | u in AcceptedUids(rs, cluster) && RowAt(db, u).Some?
      ensures RowAt(ApplyAll(db, stmts), u).Some?
    {
      var goal := (r: Option<Row>) => r.Some?;
      forall s, q | s in stmts && goal(q) ensures goal(RowEffect(s, u, q)) {
        ResetOnRow(rs, cluster, s, u, q);
      }
      RowSettles(db, stmts, u, goal);
    }
    var node := NodeUid(cluster);
    NodeHasNoSlash(cluster, cluster);
    forall s | s in stmts ensures RowEffect(s, node, RowAt(db, node)) == RowAt(db, node) {
      ResetOnRow(rs, cluster, s, node, RowAt(db, node));
    }
    RowUntouched(db, stmts, node);
  }

  // What the reset of the resources leaves of an edge.
  ghost predicate Survives(r: Option<EdgeRow>, r': Option<EdgeRow>, cluster: string, inside: bool, claimed: bool)
  {
    if EdgeOwnedBy(r, cluster) then
      if inside then r' == r else !EdgeOwnedBy(r', cluster) && (claimed ==> r'.None?)
    else if claimed then r' == r else !EdgeOwnedBy(r', cluster)
  }

  // What one statement of the reset, or a bystander, does to an edge.
  ghost predicate Loosened(q: Option<EdgeRow>, q': Option<EdgeRow>, cluster: string, outside: bool, claimed: bool)
  {
    || q' == q
    || (outside && EdgeOwnedBy(q, cluster) && q'.None?)
    || (!EdgeOwnedBy(q, cluster) && !EdgeOwnedBy(q', cluster) && (claimed && q.None? ==> q'.None?))
  }

  /** Of the cluster's edges exactly those between kept uids survive the reset of the resources; claimed
      edges are touched by nobody else, and nobody gives the cluster another edge. */
  lemma ResetEdgesLeft(
    rs: seq<Resource>, cluster: string, db: Database, stmts: seq<Statement>, claimed: set<EdgeKey>, k: EdgeKey)
    requires Amid(stmts, ResetProgram(rs, cluster), cluster, claimed, db)
    ensures Survives(EdgeAt(db, k), EdgeAt(ApplyAll(db, stmts), k), cluster,
                     k.source in KeepList(rs, cluster) && k.dest in KeepList(rs, cluster), k in claimed)
  {
    hide ResetProgram, KeepList;
    var r0 := EdgeAt(db, k);
    var outside := k.source !in KeepList(rs, cluster) || k.dest !in KeepList(rs, cluster);
    forall s, q | s in stmts ensures Loosened(q, EdgeEffect(s, k, q), cluster, outside, k in claimed) {
      if AskedBy(ResetProgram(rs, cluster), s) { ResetOnEdge(rs, cluster, s, k, q); }
      else { BystanderOnEdge(s, cluster, claimed, k, q); }
    }
    forall s | s in stmts && k in claimed && OfOtherEdge(r0, cluster) ensures EdgeEffect(s, k, r0) == r0 {
      if AskedBy(ResetProgram(rs, cluster), s) { ResetOnEdge(rs, cluster, s, k, r0); }
    }
    if EdgeOwnedBy(r0, cluster) && outside {
      var goal := (r: Option<EdgeRow>) => !EdgeOwnedBy(r, cluster) && (k in claimed ==> r.None?);
      ResetHas(rs, cluster);
      assert goal(EdgeEffect(DeleteOtherEdgesItem(cluster, KeepList(rs, cluster)).stmt, k, r0));
      EdgeSettles(db, stmts, k, goal);
    } else if EdgeOwnedBy(r0, cluster) || k in claimed {
      EdgeUntouched(db, stmts, k);
    } else {
      EdgeSettles(db, stmts, k, (r: Option<EdgeRow>) => !EdgeOwnedBy(r, cluster));
    }
  }
}
