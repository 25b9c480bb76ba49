/** Full resync: reset the resources, then the edges, of a cluster to what the body says. */
module Resync {
  import opened Options
  import opened Serial
  import opened BatchEngine
  import opened Tables
  import opened Batch
  import opened Sync

  // The elements of the arrays in the request body, as the streaming decoder meets them.
  datatype Element<T> = Decoded(value: T) | Malformed

  datatype Body = Body(resources: seq<Element<Resource>>, edges: seq<Element<Edge>>)

  predicate AllDecoded<T>(elements: seq<Element<T>>) {
    forall i | 0 <= i < |elements| :: elements[i].Decoded?
  }

  // What is decoded before the first malformed element.
  function Readable<T>(elements: seq<Element<T>>): seq<T> {
    if elements == [] || elements[0].Malformed? then [] else [elements[0].value] + Readable(elements[1..])
  }

  lemma {:induction false} ReadableAt<T>(elements: seq<Element<T>>, i: nat)
    requires i <= |elements| && AllDecoded(elements[..i])
    ensures i <= |Readable(elements)|
    ensures i < |elements| && elements[i].Decoded? ==>
      i < |Readable(elements)| && Readable(elements)[i] == elements[i].value
    ensures i == |elements| || elements[i].Malformed? ==> |Readable(elements)| == i
  {
    if i > 0 {
      assert elements[..i][0] == elements[0];
      assert elements[1..][..i - 1] == elements[..i][1..];
      ReadableAt(elements[1..], i - 1);
    }
  }

  // ----- Resources -----

  function AcceptedUids(rs: seq<Resource>, cluster: string): seq<string> {
    if rs == [] then []
    else
      var r := rs[|rs| - 1];
      AcceptedUids(rs[..|rs| - 1], cluster) + (if Accepts(r.uid, cluster) then [r.uid] else [])
  }

  function KeepList(rs: seq<Resource>, cluster: string): seq<string> {
    AcceptedUids(rs, cluster) + [NodeUid(cluster)]
  }

  function DeleteOthersItem(cluster: string, keep: seq<string>): Item {
    BatchItem(DeleteResource, Listing(keep), DeleteResourcesNotIn(cluster, keep))
  }

  function DeleteOtherEdgesItem(cluster: string, keep: seq<string>): Item {
    BatchItem(DeleteEdge, Listing(keep), DeleteEdgesNotWithin(cluster, keep))
  }

  // Everything queued to reset the resources to `rs`.
  function ResetProgram(rs: seq<Resource>, cluster: string): seq<Item> {
    AcceptedItems(rs, cluster, AddItem)
    + [DeleteOthersItem(cluster, KeepList(rs, cluster)), DeleteOtherEdgesItem(cluster, KeepList(rs, cluster))]
  }

  function Min(a: nat, b: nat): nat {
    if a < b then a else b
  }

  function LastOf(rs: seq<Resource>): Resource {
    if rs == [] then Resource("", map[]) else rs[|rs| - 1]
  }

  lemma AcceptedPrefix(rs: seq<Resource>, cluster: string, i: nat)
    requires i <= |rs|
    ensures AcceptedItems(rs[..i], cluster, AddItem) <= AcceptedItems(rs, cluster, AddItem)
    decreases |rs| - i
  {
    if i < |rs| {
      AcceptedPrefix(rs, cluster, i + 1);
      assert rs[..i + 1][..i] == rs[..i];
    } else {
      assert rs[..i] == rs;
    }
  }

  lemma {:induction false} RejectedPrefix(rs: seq<Resource>, cluster: string, i: nat)
    requires i <= |rs|
    ensures RejectedReports(rs[..i], cluster, AddResource) <= RejectedReports(rs, cluster, AddResource)
    decreases |rs| - i
  {
    if i < |rs| {
      RejectedPrefix(rs, cluster, i + 1);
      assert rs[..i + 1][..i] == rs[..i];
    } else {
      assert rs[..i] == rs;
    }
  }

  // One more resource.
  lemma ReadOne(rs: seq<Resource>, cluster: string, i: nat)
    requires i < |rs|
    ensures var r, front := rs[i], rs[..i];
      && LastOf(rs[..i + 1]) == r
      && AcceptedItems(rs[..i + 1], cluster, AddItem)
         == AcceptedItems(front, cluster, AddItem) + (if Accepts(r.uid, cluster) then [AddItem(r, cluster)] else [])
      && AcceptedUids(rs[..i + 1], cluster)
        == AcceptedUids(front, cluster) + (if Accepts(r.uid, cluster) then [r.uid] else [])
      && RejectedReports(rs[..i + 1], cluster, AddResource)
         == RejectedReports(front, cluster, AddResource)
            + (if Accepts(r.uid, cluster) then []
              else [Report(AddResource, r.uid, ValidateUidPrefix(r.uid, cluster).value)])
  {
    assert rs[..i + 1][..i] == rs[..i];
  }

  lemma NothingRead(rs: seq<Resource>, cluster: string)
    ensures AcceptedItems(rs[..0], cluster, AddItem) == [] && RejectedReports(rs[..0], cluster, AddResource) == []
    ensures AcceptedUids(rs[..0], cluster) == [] && LastOf(rs[..0]) == Resource("", map[])
  {
  }

  lemma StillPrefix(
    before: seq<Item>, rs: seq<Resource>, cluster: string, i: nat, accepted: seq<Item>, refused: seq<Item>)
    requires i <= |rs| && accepted + refused == before + AcceptedItems(rs[..i], cluster, AddItem)
    ensures accepted <= before + AcceptedItems(rs, cluster, AddItem)
  {
    AcceptedPrefix(rs, cluster, i);
    assert accepted <= accepted + refused;
  }

  /** Queue an upsert for every accepted resource. A malformed element stops the scan with the
      resources read so far; a refused item stops it with a truncated list of uids. */
  method UpsertResources(batch: BatchWithRetry, elements: seq<Element<Resource>>, cluster: string)
      returns (incomingUids: seq<string>, resource: Resource, err: Option<string>)
    requires batch.Valid() && batch.refused == []
    modifies batch, batch.pool, batch.response`TotalAdded
    modifies batch.response`AddErrors, batch.response`UpdateErrors, batch.response`DeleteErrors,
      batch.response`AddEdgeErrors, batch.response`DeleteEdgeErrors
    ensures batch.Valid()
    ensures var rs := Readable(elements);
      if batch.refused == [] then
        && batch.Offered() == old(batch.Offered()) + AcceptedItems(rs, cluster, AddItem)
        && batch.rejections == old(batch.rejections) + RejectedReports(rs, cluster, AddResource)
        && incomingUids == AcceptedUids(rs, cluster) && (err.None? ==> resource == LastOf(rs))
        && batch.response.TotalAdded == old(batch.response.TotalAdded) + |incomingUids|
        && (err.None? <==> AllDecoded(elements))
      else
        && err.Some? && batch.accepted <= old(batch.Offered()) + AcceptedItems(rs, cluster, AddItem)
        && batch.rejections <= old(batch.rejections) + RejectedReports(rs, cluster, AddResource)
    ensures batch.response.TotalAdded == old(batch.response.TotalAdded) + |batch.accepted| - |old(batch.accepted)|
  {
    hide BatchWithRetry.Valid, Readable, HasPrefix, Marshal, AcceptedItems, RejectedReports, AcceptedUids, LastOf;
    incomingUids, resource, err := [], Resource("", map[]), None;
    ghost var rs := Readable(elements);
    NothingRead(rs, cluster);
    for i := 0 to |elements|
      invariant batch.Valid() && batch.refused == [] && err.None?
      invariant AllDecoded(elements[..i]) && i <= |rs|
      invariant batch.Offered() == old(batch.Offered()) + AcceptedItems(rs[..i], cluster, AddItem)
      invariant batch.rejections == old(batch.rejections) + RejectedReports(rs[..i], cluster, AddResource)
      invariant incomingUids == AcceptedUids(rs[..i], cluster) && resource == LastOf(rs[..i])
      invariant batch.response.TotalAdded == old(batch.response.TotalAdded) + |incomingUids|
      invariant batch.response.TotalAdded == old(batch.response.TotalAdded) + |batch.accepted| - |old(batch.accepted)|
    {
      ReadableAt(elements, i);
      if elements[i].Malformed? {
        resource := *; // Reset, and possibly filled in part.
        err := Some("error decoding resource from request");
        assert rs[..i] == rs;
        return;
      }
      resource := elements[i].value;
      ReadOne(rs, cluster, i);
      assert elements[..i + 1] == elements[..i] + [elements[i]];
      var uid := resource.uid;
      var invalid := ValidateUidPrefix(uid, cluster);
      if invalid.Some? {
        batch.Reject(Report(AddResource, uid, invalid.value));
        continue;
      }
      err := batch.Submit(AddItem(resource, cluster));
      if err.Some? {
        StillPrefix(old(batch.Offered()), rs, cluster, i + 1, batch.accepted, batch.refused);
        RejectedPrefix(rs, cluster, i + 1);
        return;
      }
      batch.response.TotalAdded := batch.response.TotalAdded + 1;
      incomingUids := incomingUids + [uid];
    }
    ReadableAt(elements, |elements|);
    assert rs[..|elements|] == rs && elements[..|elements|] == elements;
  }

  // Queue the upserts and, behind them, the two deletions.
  method QueueReset(batch: BatchWithRetry, elements: seq<Element<Resource>>, cluster: string)
      returns (resource: Resource, upsertErr: Option<string>)
    requires batch.Valid() && batch.Offered() == [] && batch.refused == [] && batch.rejections == []
    modifies batch, batch.pool, batch.response`TotalAdded
    modifies batch.response`AddErrors, batch.response`UpdateErrors, batch.response`DeleteErrors,
      batch.response`AddEdgeErrors, batch.response`DeleteEdgeErrors
    ensures batch.Valid() && batch.accepted <= ResetProgram(Readable(elements), cluster)
    ensures batch.rejections <= RejectedReports(Readable(elements), cluster, AddResource)
    ensures batch.refused == [] ==>
      && batch.accepted == ResetProgram(Readable(elements), cluster)
      && batch.rejections == RejectedReports(Readable(elements), cluster, AddResource)
      && batch.response.TotalAdded == old(batch.response.TotalAdded) + |AcceptedUids(Readable(elements), cluster)|
      && (upsertErr.None? <==> AllDecoded(elements))
    ensures upsertErr.None? ==>
      && AllDecoded(elements)
      && resource == LastOf(Readable(elements))
      && batch.response.TotalAdded == old(batch.response.TotalAdded) + |AcceptedUids(Readable(elements), cluster)|
    ensures batch.response.TotalAdded == old(batch.response.TotalAdded)
      + Min(|batch.accepted|, |AcceptedItems(Readable(elements), cluster, AddItem)|)
  {
    hide BatchWithRetry.Valid, AllDecoded, AcceptedItems, RejectedReports, AcceptedUids, LastOf, Readable;
    var uids;
    uids, resource, upsertErr := UpsertResources(batch, elements, cluster);
    ghost var rs := Readable(elements);
    ghost var upserts := AcceptedItems(rs, cluster, AddItem);
    ghost var asked, stopped := batch.accepted, batch.refused != [];
    uids := uids + [NodeUid(cluster)];
    var ignored := batch.Submit(DeleteOthersItem(cluster, uids));
    ignored := batch.Submit(DeleteOtherEdgesItem(cluster, uids));
    if stopped {
      assert batch.accepted == asked <= upserts <= ResetProgram(rs, cluster);
    } else {
      assert batch.Offered() == ResetProgram(rs, cluster);
    }
  }

  /** Reset the resources. Whatever the connection does, what the database is asked to do is a
      prefix of the full program: the list of uids to keep is never a truncated one, because a
      refused upsert means that both deletions are refused too. */
  method ResetResources(
    pool: Pool, response: SyncResponse, elements: seq<Element<Resource>>, cluster: string, batchSize: int,
    exec: (Database, Statement) -> Option<Database>, net: nat -> Fault)
      returns (
        resource: Resource, err: Option<string>, ghost accepted: seq<Item>, ghost reports: seq<Report>,
        ghost rejected: seq<Report>, ghost log: seq<Entry<Statement>>)
    modifies pool, response
    ensures Settled(exec, old(pool.db), pool.db, accepted, log)
    ensures accepted <= ResetProgram(Readable(elements), cluster)
    ensures !LostIn(log) ==> accepted == ResetProgram(Readable(elements), cluster)
    ensures err.None? <==> !LostIn(log) && AllDecoded(elements)
    ensures err.None? ==> resource == LastOf(Readable(elements))
    ensures err.None? ==> response.TotalAdded == old(response.TotalAdded) + |AcceptedUids(Readable(elements), cluster)|
    ensures response.TotalAdded == old(response.TotalAdded)
      + Min(|accepted|, |AcceptedItems(Readable(elements), cluster, AddItem)|)
    ensures rejected <= RejectedReports(Readable(elements), cluster, AddResource)
    ensures !LostIn(log) ==> rejected == RejectedReports(Readable(elements), cluster, AddResource)
    ensures response.Lists() == Filed(old(response.Lists()), reports)
    ensures multiset(reports) == multiset(rejected) + multiset(Failures(ReportedOf(log)))
    ensures response.TotalEdgesAdded == old(response.TotalEdgesAdded) &&
      response.TotalEdgesDeleted == old(response.TotalEdgesDeleted)
    ensures (forall k :: net(k).Clean?) ==> NothingDropped(log)
  {
    hide BatchWithRetry.Valid, Explains, Filed, Failures, ReportedOf, LostIn, AllDecoded, NothingDropped,
      RejectedReports, AcceptedUids, AcceptedItems, ResetProgram, LastOf, Readable;
    var batch := new BatchWithRetry(pool, response, batchSize, exec, net);
    var upsertErr;
    resource, upsertErr := QueueReset(batch, elements, cluster);
    batch.Finish();
    accepted, reports, rejected, log := batch.accepted, batch.reports, batch.rejections, batch.log;
    err := if upsertErr.Some? then upsertErr else batch.connError;
  }

  // ----- Edges -----

  // The key under which an edge is remembered: plain concatenation.
  function Concat(k: EdgeKey): string {
    k.source + k.edgeType + k.dest
  }

  predicate Existing(db: Database, cluster: string, k: EdgeKey) {
    EdgeOwnedBy(EdgeAt(db, k), cluster) && k.edgeType != INTER_CLUSTER
  }

  // The existing edges by concatenated key; if keys collide, one of the edges is remembered.
  ghost predicate Remembers(m: map<string, EdgeKey>, db: Database, cluster: string) {
    && (forall s | s in m :: Existing(db, cluster, m[s]) && Concat(m[s]) == s)
    && (forall k | Existing(db, cluster, k) :: Concat(k) in m)
  }

  // What is left of the map after the incoming edges were looked up in it.
  function Remaining(m: map<string, EdgeKey>, es: seq<Edge>): map<string, EdgeKey> {
    if es == [] then m else Remaining(m, es[..|es| - 1]) - {Concat(es[|es| - 1].key)}
  }

  // The incoming edges that were not found in the map.
  function Inserted(m: map<string, EdgeKey>, es: seq<Edge>): seq<Edge> {
    if es == [] then []
    else
      var n := |es| - 1;
      Inserted(m, es[..n]) + (if Concat(es[n].key) in Remaining(m, es[..n]) then [] else [es[n]])
  }

  /** Conservation: every incoming edge is inserted or takes one edge out of the map. */
  lemma {:induction false} InsertedAndRemaining(m: map<string, EdgeKey>, es: seq<Edge>)
    ensures |Inserted(m, es)| + |m| == |es| + |Remaining(m, es)|
  {
    if es != [] {
      var n := |es| - 1;
      InsertedAndRemaining(m, es[..n]);
      RemoveKey(Remaining(m, es[..n]), Concat(es[n].key));
    }
  }

  lemma RemoveKey(m: map<string, EdgeKey>, s: string)
    ensures |m - {s}| == if s in m then |m| - 1 else |m|
  {
  }

  lemma {:induction false} InsertedPrefix(m: map<string, EdgeKey>, es: seq<Edge>, i: nat)
    requires i <= |es|
    ensures Inserted(m, es[..i]) <= Inserted(m, es)
    decreases |es| - i
  {
    if i < |es| {
      InsertedPrefix(m, es, i + 1);
      assert es[..i + 1][..i] == es[..i];
    } else {
      assert es[..i] == es;
    }
  }

  // One more incoming edge.
  lemma LookUp(m: map<string, EdgeKey>, es: seq<Edge>, cluster: string, i: nat)
    requires i < |es|
    ensures var found := Concat(es[i].key) in Remaining(m, es[..i]);
      && Remaining(m, es[..i + 1]) == Remaining(m, es[..i]) - {Concat(es[i].key)}
      && (!found ==> Remaining(m, es[..i + 1]) == Remaining(m, es[..i]))
      && Inserted(m, es[..i + 1]) == Inserted(m, es[..i]) + (if found then [] else [es[i]])
      && InsertEdgeItems(Inserted(m, es[..i + 1]), cluster)
         == InsertEdgeItems(Inserted(m, es[..i]), cluster) + (if found then [] else [InsertEdgeItem(es[i], cluster)])
  {
    assert es[..i + 1][..i] == es[..i];
  }

  /** Read the existing edges of the cluster, in whatever order the database returns them. */
  method ReadExisting(pool: Pool, cluster: string) returns (m: map<string, EdgeKey>)
    ensures Remembers(m, pool.db, cluster)
  {
    m := map[];
    var todo := set k | k in pool.db.edges && Existing(pool.db, cluster, k);
    while todo != {}
      invariant forall k | k in todo :: Existing(pool.db, cluster, k)
      invariant forall s | s in m :: Existing(pool.db, cluster, m[s]) && Concat(m[s]) == s
      invariant forall k | Existing(pool.db, cluster, k) :: k in todo || Concat(k) in m
      decreases todo
    {
      var k :| k in todo;
      m := m[Concat(k) := k];
      todo := todo - {k};
    }
  }

  lemma NothingLookedUp(m: map<string, EdgeKey>, es: seq<Edge>, cluster: string)
    ensures Remaining(m, es[..0]) == m && Inserted(m, es[..0]) == [] &&
      InsertEdgeItems(Inserted(m, es[..0]), cluster) == []
  {
  }

  /** Queue an insertion for every incoming edge that is not in the map; the others leave it. */
  method AddEdges(batch: BatchWithRetry, elements: seq<Element<Edge>>, existing: map<string, EdgeKey>, cluster: string)
      returns (remaining: map<string, EdgeKey>, err: Option<string>)
    requires batch.Valid() && batch.refused == []
    modifies batch, batch.pool, batch.response`TotalEdgesAdded
    modifies batch.response`AddErrors, batch.response`UpdateErrors, batch.response`DeleteErrors,
      batch.response`AddEdgeErrors, batch.response`DeleteEdgeErrors
    ensures batch.Valid() && batch.rejections == old(batch.rejections)
    ensures var es := Readable(elements);
      if batch.refused == [] then
        && batch.Offered() == old(batch.Offered()) + InsertEdgeItems(Inserted(existing, es), cluster)
        && remaining == Remaining(existing, es)
        && batch.response.TotalEdgesAdded == old(batch.response.TotalEdgesAdded) + |Inserted(existing, es)|
        && (err.None? <==> AllDecoded(elements))
      else
        err.Some? && batch.accepted <= old(batch.Offered()) + InsertEdgeItems(Inserted(existing, es), cluster)
    ensures batch.response.TotalEdgesAdded
      == old(batch.response.TotalEdgesAdded) + |batch.accepted| - |old(batch.accepted)|
  {
    hide BatchWithRetry.Valid, Readable, Inserted, Remaining, InsertEdgeItems, InsertEdgeItem, Concat;
    remaining, err := existing, None;
    ghost var es := Readable(elements);
    NothingLookedUp(existing, es, cluster);
    for i := 0 to |elements|
      invariant batch.Valid() && batch.refused == [] && err.None? && batch.rejections == old(batch.rejections)
      invariant AllDecoded(elements[..i]) && i <= |es|
      invariant batch.Offered() == old(batch.Offered()) + InsertEdgeItems(Inserted(existing, es[..i]), cluster)
      invariant remaining == Remaining(existing, es[..i])
      invariant batch.response.TotalEdgesAdded == old(batch.response.TotalEdgesAdded) + |Inserted(existing, es[..i])|
      invariant batch.response.TotalEdgesAdded
        == old(batch.response.TotalEdgesAdded) + |batch.accepted| - |old(batch.accepted)|
    {
      ReadableAt(elements, i);
      if elements[i].Malformed? {
        err := Some("error decoding edge from request");
        assert es[..i] == es;
        return;
      }
      var edge := elements[i].value;
      LookUp(existing, es, cluster, i);
      assert elements[..i + 1] == elements[..i] + [elements[i]];
      if Concat(edge.key) in remaining {
        remaining := remaining - {Concat(edge.key)};
        continue;
      }
      err := batch.Submit(InsertEdgeItem(edge, cluster));
      if err.Some? {
        StillInsertPrefix(old(batch.Offered()), existing, es, cluster, i + 1, batch.accepted, batch.refused);
        return;
      }
      batch.response.TotalEdgesAdded := batch.response.TotalEdgesAdded + 1;
    }
    ReadableAt(elements, |elements|);
    assert es[..|elements|] == es && elements[..|elements|] == elements;
  }

  lemma StillInsertPrefix(
    before: seq<Item>, m: map<string, EdgeKey>, es: seq<Edge>, cluster: string, i: nat, accepted: seq<Item>,
    refused: seq<Item>)
    requires i <= |es| && accepted + refused == before + InsertEdgeItems(Inserted(m, es[..i]), cluster)
    ensures accepted <= before + InsertEdgeItems(Inserted(m, es), cluster)
  {
    InsertedPrefix(m, es, i);
    assert InsertEdgeItems(Inserted(m, es[..i]), cluster) <= InsertEdgeItems(Inserted(m, es), cluster);
    assert accepted <= accepted + refused;
  }

  ghost predicate IsDeletion(x: Item, m: map<string, EdgeKey>, cluster: string) {
    exists s :: s in m && x == DeleteEdgeItem(m[s], cluster)
  }

  ghost predicate OnlyDeletions(items: seq<Item>, m: map<string, EdgeKey>, cluster: string) {
    forall x | x in items :: IsDeletion(x, m, cluster)
  }

  // Every edge in the map, except those in `todo`, has its deletion among the items.
  ghost predicate AllDeletions(items: seq<Item>, m: map<string, EdgeKey>, todo: set<string>, cluster: string) {
    forall s | s in m :: s in todo || DeleteEdgeItem(m[s], cluster) in items
  }

  lemma DeleteOne(items: seq<Item>, m: map<string, EdgeKey>, todo: set<string>, s: string, cluster: string)
    requires OnlyDeletions(items, m, cluster) && AllDeletions(items, m, todo, cluster)
    requires s in todo && s in m
    ensures OnlyDeletions(items + [DeleteEdgeItem(m[s], cluster)], m, cluster)
    ensures AllDeletions(items + [DeleteEdgeItem(m[s], cluster)], m, todo - {s}, cluster)
  {
  }

  /** Queue the deletion of every edge left in the map, in any order. */
  method DeleteRemaining(batch: BatchWithRetry, remaining: map<string, EdgeKey>, cluster: string)
      returns (err: Option<string>, ghost deletes: seq<Item>)
    requires batch.Valid()
    modifies batch, batch.pool, batch.response`TotalEdgesDeleted
    modifies batch.response`AddErrors, batch.response`UpdateErrors, batch.response`DeleteErrors,
      batch.response`AddEdgeErrors, batch.response`DeleteEdgeErrors
    ensures batch.Valid() && batch.rejections == old(batch.rejections)
    ensures batch.Offered() == old(batch.Offered()) + deletes && OnlyDeletions(deletes, remaining, cluster)
    ensures old(batch.refused) != [] ==> batch.refused != [] && batch.accepted == old(batch.accepted)
    ensures err.Some? ==> batch.refused != []
    ensures old(batch.accepted) <= batch.accepted
    ensures batch.response.TotalEdgesDeleted
      == old(batch.response.TotalEdgesDeleted) + |batch.accepted| - |old(batch.accepted)|
    ensures err.None? ==>
      && (old(batch.refused) == [] ==> batch.refused == [])
      && AllDeletions(deletes, remaining, {}, cluster) && |deletes| == |remaining|
      && batch.response.TotalEdgesDeleted == old(batch.response.TotalEdgesDeleted) + |remaining|
  {
    hide BatchWithRetry.Valid, OnlyDeletions, AllDeletions, DeleteEdgeItem;
    err, deletes := None, [];
    var todo := remaining.Keys;
    assert |todo| == |remaining|;
    NothingDeleted(remaining, cluster);
    while todo != {}
      invariant batch.Valid() && err.None? && batch.rejections == old(batch.rejections)
      invariant batch.Offered() == old(batch.Offered()) + deletes
      invariant todo <= remaining.Keys && |deletes| + |todo| == |remaining|
      invariant OnlyDeletions(deletes, remaining, cluster) && AllDeletions(deletes, remaining, todo, cluster)
      invariant old(batch.refused) != [] ==> batch.refused != [] && batch.accepted == old(batch.accepted)
      invariant old(batch.refused) == [] ==> batch.refused == []
      invariant batch.response.TotalEdgesDeleted == old(batch.response.TotalEdgesDeleted) + |deletes|
      invariant old(batch.accepted) <= batch.accepted
      invariant batch.response.TotalEdgesDeleted
        == old(batch.response.TotalEdgesDeleted) + |batch.accepted| - |old(batch.accepted)|
      decreases |todo|
    {
      var s :| s in todo;
      DeleteOne(deletes, remaining, todo, s, cluster);
      var x := DeleteEdgeItem(remaining[s], cluster);
      err := batch.Submit(x);
      deletes := deletes + [x];
      if err.Some? {
        return;
      }
      todo := todo - {s};
      batch.response.TotalEdgesDeleted := batch.response.TotalEdgesDeleted + 1;
    }
  }

  lemma NothingDeleted(m: map<string, EdgeKey>, cluster: string)
    ensures OnlyDeletions([], m, cluster) && AllDeletions([], m, m.Keys, cluster)
  {
  }

  // What the edge phase asks for, given the edges read at its start.
  ghost predicate EdgeProgram(
    accepted: seq<Item>, deletes: seq<Item>, existing: map<string, EdgeKey>, es: seq<Edge>, cluster: string)
  {
    && accepted == InsertEdgeItems(Inserted(existing, es), cluster) + deletes
    && OnlyDeletions(deletes, Remaining(existing, es), cluster)
    && AllDeletions(deletes, Remaining(existing, es), {}, cluster)
  }

  // Queue the insertions and the deletions that the diff asks for.
  method QueueDiff(batch: BatchWithRetry, elements: seq<Element<Edge>>, existing: map<string, EdgeKey>, cluster: string)
      returns (addErr: Option<string>, queueErr: Option<string>, ghost deletes: seq<Item>)
    requires batch.Valid() && batch.Offered() == [] && batch.refused == []
    modifies batch, batch.pool, batch.response`TotalEdgesAdded, batch.response`TotalEdgesDeleted
    modifies batch.response`AddErrors, batch.response`UpdateErrors, batch.response`DeleteErrors,
      batch.response`AddEdgeErrors, batch.response`DeleteEdgeErrors
    ensures batch.Valid() && batch.rejections == old(batch.rejections)
    ensures batch.accepted <= InsertEdgeItems(Inserted(existing, Readable(elements)), cluster) + deletes
    ensures OnlyDeletions(deletes, Remaining(existing, Readable(elements)), cluster)
    ensures batch.refused == [] ==>
      && queueErr.None? && (addErr.None? <==> AllDecoded(elements))
      && EdgeProgram(batch.accepted, deletes, existing, Readable(elements), cluster)
      && batch.response.TotalEdgesAdded
         == old(batch.response.TotalEdgesAdded) + |Inserted(existing, Readable(elements))|
      && batch.response.TotalEdgesDeleted
         == old(batch.response.TotalEdgesDeleted) + |Remaining(existing, Readable(elements))|
    ensures batch.refused != [] ==> addErr.Some? || queueErr.Some?
    ensures var inserted := Min(|batch.accepted|, |Inserted(existing, Readable(elements))|);
      && batch.response.TotalEdgesAdded == old(batch.response.TotalEdgesAdded) + inserted
      && batch.response.TotalEdgesDeleted == old(batch.response.TotalEdgesDeleted) + |batch.accepted| - inserted
  {
    hide BatchWithRetry.Valid, AllDecoded, Readable, Inserted, Remaining, InsertEdgeItem, OnlyDeletions, AllDeletions;
    ghost var es := Readable(elements);
    ghost var inserts := InsertEdgeItems(Inserted(existing, es), cluster);
    var remaining;
    remaining, addErr := AddEdges(batch, elements, existing, cluster);
    ghost var asked, stopped := batch.accepted, batch.refused != [];
    queueErr, deletes := DeleteRemaining(batch, remaining, cluster);
    if stopped {
      assert batch.accepted == asked <= inserts;
      deletes := [];
      NothingDeleted(Remaining(existing, es), cluster);
    } else {
      assert batch.accepted <= batch.Offered() == inserts + deletes;
    }
  }

  /** Reset the edges: insert the incoming edges that are not remembered, delete the remembered ones
      that did not come in. A refused deletion returns at once, with batches still under way. */
  method ResetEdges(
    pool: Pool, response: SyncResponse, elements: seq<Element<Edge>>, cluster: string, batchSize: int,
    exec: (Database, Statement) -> Option<Database>, net: nat -> Fault)
      returns (
        err: Option<string>, ghost existing: map<string, EdgeKey>, ghost deletes: seq<Item>,
        ghost accepted: seq<Item>, ghost reports: seq<Report>, ghost log: seq<Entry<Statement>>)
    modifies pool, response
    ensures Explains(exec, old(pool.db), log, pool.db) && multiset(ItemsOf(log)) <= multiset(accepted)
    ensures Remembers(existing, old(pool.db), cluster)
    ensures accepted <= InsertEdgeItems(Inserted(existing, Readable(elements)), cluster) + deletes
    ensures OnlyDeletions(deletes, Remaining(existing, Readable(elements)), cluster)
    ensures !LostIn(log) ==>
      && Settled(exec, old(pool.db), pool.db, accepted, log)
      && EdgeProgram(accepted, deletes, existing, Readable(elements), cluster)
      && response.TotalEdgesAdded == old(response.TotalEdgesAdded) + |Inserted(existing, Readable(elements))|
      && response.TotalEdgesDeleted == old(response.TotalEdgesDeleted) + |Remaining(existing, Readable(elements))|
    ensures var inserted := Min(|accepted|, |Inserted(existing, Readable(elements))|);
      && response.TotalEdgesAdded == old(response.TotalEdgesAdded) + inserted
      && response.TotalEdgesDeleted == old(response.TotalEdgesDeleted) + |accepted| - inserted
    ensures err.None? <==> !LostIn(log) && AllDecoded(elements)
    ensures response.Lists() == Filed(old(response.Lists()), reports)
    ensures multiset(reports) == multiset(Failures(ReportedOf(log)))
    ensures response.TotalAdded == old(response.TotalAdded)
    ensures (forall k :: net(k).Clean?) ==> NothingDropped(log)
  {
    hide BatchWithRetry.Valid, Explains, Filed, LostIn, AllDecoded, NothingDropped, Readable, Inserted, Remaining,
      InsertEdgeItems, Remembers, OnlyDeletions, EdgeProgram, Failures, ReportedOf;
    var m := ReadExisting(pool, cluster);
    existing := m;
    var batch := new BatchWithRetry(pool, response, batchSize, exec, net);
    var addErr, queueErr, dels := QueueDiff(batch, elements, m, cluster);
    deletes := dels;
    if queueErr.Some? {
      batch.SoFar();
      return queueErr, existing, deletes, batch.accepted, batch.reports, batch.log;
    }
    batch.Finish();
    err := if addErr.Some? then addErr else batch.connError;
    accepted, reports, log := batch.accepted, batch.reports, batch.log;
  }

  /** A full resync: the resources, and only if that went well the edges. `cleanup` tells whether
      the clean-up of former hub clusters is started. */
  method ResyncData(
    pool: Pool, response: SyncResponse, body: Body, cluster: string, batchSize: int,
    exec: (Database, Statement) -> Option<Database>, net: nat -> Fault, net2: nat -> Fault)
      returns (
        err: Option<string>, cleanup: bool, ghost middle: Database, ghost accepted: seq<Item>,
        ghost rejected: seq<Report>, ghost reports: seq<Report>, ghost log: seq<Entry<Statement>>,
        ghost existing: map<string, EdgeKey>, ghost deletes: seq<Item>, ghost accepted2: seq<Item>,
        ghost reports2: seq<Report>, ghost log2: seq<Entry<Statement>>)
    modifies pool, response
    // The resources, whatever happens.
    ensures Settled(exec, old(pool.db), middle, accepted, log)
    ensures accepted <= ResetProgram(Readable(body.resources), cluster)
    ensures rejected <= RejectedReports(Readable(body.resources), cluster, AddResource)
    ensures !LostIn(log) ==>
      && accepted == ResetProgram(Readable(body.resources), cluster)
      && rejected == RejectedReports(Readable(body.resources), cluster, AddResource)
    ensures response.TotalAdded == old(response.TotalAdded)
      + Min(|accepted|, |AcceptedItems(Readable(body.resources), cluster, AddItem)|)
    // The edges are left alone unless the resources went well.
    ensures LostIn(log) || !AllDecoded(body.resources) ==>
      && err.Some? && pool.db == middle && accepted2 == [] && log2 == []
      && response.TotalEdgesAdded == old(response.TotalEdgesAdded)
      && response.TotalEdgesDeleted == old(response.TotalEdgesDeleted)
    ensures Explains(exec, middle, log2, pool.db) && multiset(ItemsOf(log2)) <= multiset(accepted2)
    ensures accepted2 <= InsertEdgeItems(Inserted(existing, Readable(body.edges)), cluster) + deletes
    ensures OnlyDeletions(deletes, Remaining(existing, Readable(body.edges)), cluster)
    ensures var inserted := Min(|accepted2|, |Inserted(existing, Readable(body.edges))|);
      && response.TotalEdgesAdded == old(response.TotalEdgesAdded) + inserted
      && response.TotalEdgesDeleted == old(response.TotalEdgesDeleted) + |accepted2| - inserted
    ensures !LostIn(log) && AllDecoded(body.resources) ==> Remembers(existing, middle, cluster)
    ensures !LostIn(log) && AllDecoded(body.resources) && !LostIn(log2) ==>
      && Settled(exec, middle, pool.db, accepted2, log2)
      && EdgeProgram(accepted2, deletes, existing, Readable(body.edges), cluster)
      && response.TotalEdgesAdded == old(response.TotalEdgesAdded) + |Inserted(existing, Readable(body.edges))|
      && response.TotalEdgesDeleted == old(response.TotalEdgesDeleted) + |Remaining(existing, Readable(body.edges))|
    // The answer.
    ensures err.None? <==> !LostIn(log) && AllDecoded(body.resources) && !LostIn(log2) && AllDecoded(body.edges)
    ensures err.None? ==>
      response.TotalAdded == old(response.TotalAdded) + |AcceptedUids(Readable(body.resources), cluster)|
    ensures response.Lists() == Filed(Filed(old(response.Lists()), reports), reports2)
    ensures multiset(reports) == multiset(rejected) + multiset(Failures(ReportedOf(log)))
    ensures multiset(reports2) == multiset(Failures(ReportedOf(log2)))
    ensures cleanup <==> err.None? && "_hubClusterResource" in LastOf(Readable(body.resources)).properties
    ensures (forall k :: net(k).Clean? && net2(k).Clean?) ==> NothingDropped(log) && NothingDropped(log2)
  {
    hide Explains, LostIn, AllDecoded, NothingDropped, Readable, Inserted, Remaining, InsertEdgeItems, Remembers,
      OnlyDeletions, EdgeProgram, ResetProgram, AcceptedUids, AcceptedItems, Filed, Failures, ReportedOf,
      RejectedReports;
    cleanup, existing, deletes, accepted2, reports2, log2 := false, map[], [], [], [], [];
    var resource;
    resource, err, accepted, reports, rejected, log :=
      ResetResources(pool, response, body.resources, cluster, batchSize, exec, net);
    middle := pool.db;
    NothingYet(exec, middle, map[], Readable(body.edges), cluster, response.Lists());
    if err.Some? {
      return;
    }
    err, existing, deletes, accepted2, reports2, log2 :=
      ResetEdges(pool, response, body.edges, cluster, batchSize, exec, net2);
    if err.Some? {
      return;
    }
    cleanup := "_hubClusterResource" in resource.properties;
  }

  lemma NothingYet(
    exec: (Database, Statement) -> Option<Database>, db: Database, m: map<string, EdgeKey>, es: seq<Edge>,
    cluster: string, lists: ErrorLists)
    ensures Explains(exec, db, [], db) && NothingDropped<Statement>([]) && !LostIn<Statement>([])
    ensures OnlyDeletions([], Remaining(m, es), cluster)
    ensures Filed(lists, []) == lists && Failures(ReportedOf<Statement>([])) == []
  {
  }
}
