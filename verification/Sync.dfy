/** Delta sync: the statements queued for an event, what becomes of them, and the response. */
module Sync {
  import opened Options
  import opened Serial
  import opened BatchEngine
  import opened Tables
  import opened Batch
  import opened Counting

  datatype Resource = Resource(uid: string, properties: Props)
  datatype Edge = Edge(key: EdgeKey, sourceKind: string, destKind: string)
  datatype SyncEvent = SyncEvent(
    addResources: seq<Resource>,
    updateResources: seq<Resource>,
    deleteResources: seq<string>,
    addEdges: seq<Edge>,
    deleteEdges: seq<Edge>)

  type Item = BatchItem<Statement>

  // nil: the uid starts with "<clusterName>/".
  function ValidateUidPrefix(uid: string, cluster: string): Option<Cause> {
    var prefix := cluster + "/";
    if HasPrefix(uid, prefix) then None else Some(BadPrefix(prefix))
  }

  predicate Accepts(uid: string, cluster: string) {
    ValidateUidPrefix(uid, cluster).None?
  }

  /** The check accepts exactly the uids of the form "<cluster>/<rest>". */
  lemma AcceptedIffPrefixed(uid: string, cluster: string)
    ensures Accepts(uid, cluster) <==> exists rest :: uid == (cluster + "/") + rest
  {
    var prefix := cluster + "/";
    if HasPrefix(uid, prefix) { assert uid == prefix + uid[|prefix|..]; }
    forall rest | uid == prefix + rest ensures HasPrefix(uid, prefix) { assert uid[..|prefix|] == prefix; }
  }

  // ----- The statements queued for an event -----

  function AddItem(r: Resource, cluster: string): Item {
    BatchItem(AddResource, r.uid, UpsertResource(r.uid, cluster, Marshal(r.properties)))
  }

  function UpdateItem(r: Resource, cluster: string): Item {
    BatchItem(UpdateResource, r.uid, UpdateResourceData(r.uid, Marshal(r.properties), cluster))
  }

  function InsertEdgeItem(e: Edge, cluster: string): Item {
    BatchItem(AddEdge, e.key.source, InsertEdge(e.key, e.sourceKind, e.destKind, cluster))
  }

  function DeleteEdgeItem(key: EdgeKey, cluster: string): Item {
    BatchItem(DeleteEdge, key.source, DeleteEdgeRow(key, cluster))
  }

  function Joined(uids: seq<string>): string {
    if uids == [] then "" else if |uids| == 1 then uids[0] else uids[0] + " " + Joined(uids[1..])
  }

  // How a list of uids prints in an error report.
  function Listing(uids: seq<string>): string {
    "[" + Joined(uids) + "]"
  }

  // The items of the accepted resources, in order.
  function AcceptedItems(rs: seq<Resource>, cluster: string, item: (Resource, string) -> Item): seq<Item> {
    if rs == [] then []
    else
      var r := rs[|rs| - 1];
      AcceptedItems(rs[..|rs| - 1], cluster, item) + (if Accepts(r.uid, cluster) then [item(r, cluster)] else [])
  }

  function RejectedReports(rs: seq<Resource>, cluster: string, action: Action): seq<Report> {
    if rs == [] then []
    else
      var r := rs[|rs| - 1];
      RejectedReports(rs[..|rs| - 1], cluster, action)
      + (if Accepts(r.uid, cluster) then [] else [Report(action, r.uid, ValidateUidPrefix(r.uid, cluster).value)])
  }

  function BulkDeletes(uids: seq<string>, cluster: string): seq<Item> {
    if uids == [] then []
    else [BatchItem(DeleteResource, Listing(uids), DeleteResourcesIn(cluster, uids)),
          BatchItem(DeleteEdge, Listing(uids), DeleteEdgesAt(cluster, uids))]
  }

  function InsertEdgeItems(es: seq<Edge>, cluster: string): seq<Item> {
    seq(|es|, i requires 0 <= i < |es| => InsertEdgeItem(es[i], cluster))
  }

  function DeleteEdgeItems(es: seq<Edge>, cluster: string): seq<Item> {
    seq(|es|, i requires 0 <= i < |es| => DeleteEdgeItem(es[i].key, cluster))
  }

  function ResourceItems(ev: SyncEvent, cluster: string): seq<Item> {
    AcceptedItems(ev.addResources, cluster, AddItem) + AcceptedItems(ev.updateResources, cluster, UpdateItem)
    + BulkDeletes(ev.deleteResources, cluster)
  }

  function Program(ev: SyncEvent, cluster: string): seq<Item> {
    ResourceItems(ev, cluster) + InsertEdgeItems(ev.addEdges, cluster) + DeleteEdgeItems(ev.deleteEdges, cluster)
  }

  function Rejections(ev: SyncEvent, cluster: string): seq<Report> {
    RejectedReports(ev.addResources, cluster, AddResource) + RejectedReports(ev.updateResources, cluster,
      UpdateResource)
  }

  // ----- What a settled batch guarantees -----

  // Every accepted statement has one fate, and the database is what the log says.
  ghost predicate Settled(
    exec: (Database, Statement) -> Option<Database>, before: Database, after: Database, accepted: seq<Item>,
    log: seq<Entry<Statement>>)
  {
    Explains(exec, before, log, after) && multiset(accepted) == multiset(ItemsOf(log))
  }

  function CommittedOf<T>(log: seq<Entry<T>>): seq<BatchItem<T>> {
    if log == [] then []
    else (if log[0].fate.Committed? then [log[0].item] else []) + CommittedOf(log[1..])
  }

  lemma {:induction false} CountFates<T>(log: seq<Entry<T>>, p: BatchItem<T> -> bool)
    requires NothingDropped(log)
    ensures CountWhere(ItemsOf(log), p) == CountWhere(CommittedOf(log), p) + CountWhere(ReportedOf(log), p)
    decreases |log|
  {
    if log != [] {
      assert ItemsOf(log)[1..] == ItemsOf(log[1..]);
      CountFates(log[1..], p);
      var x := log[0].item;
      CountOne(x, p);
      CountConcat([x], CommittedOf(log[1..]), p);
      CountConcat([x], ReportedOf(log[1..]), p);
      assert [] + CommittedOf(log[1..]) == CommittedOf(log[1..]);
      assert [] + ReportedOf(log[1..]) == ReportedOf(log[1..]);
    }
  }

  function ActsAs<T>(action: Action): BatchItem<T> -> bool {
    (x: BatchItem<T>) => x.action == action
  }

  lemma {:induction false} CountFailures<T>(items: seq<BatchItem<T>>, action: Action)
    ensures CountWhere(Failures(items), ReportsOn(action)) == CountWhere(items, ActsAs(action))
  {
    if items != [] {
      assert Failures(items)[1..] == Failures(items[1..]);
      CountFailures(items[1..], action);
    }
  }

  lemma {:induction false} CountAccepted(
    rs: seq<Resource>, cluster: string, item: (Resource, string) -> Item, action: Action)
    requires forall r :: item(r, cluster).action == action
    ensures CountWhere(AcceptedItems(rs, cluster, item), ActsAs(action))
            + CountWhere(RejectedReports(rs, cluster, action), ReportsOn(action)) == |rs|
    ensures forall a | a != action :: CountWhere(AcceptedItems(rs, cluster, item), ActsAs(a)) == 0
    ensures forall a | a != action :: CountWhere(RejectedReports(rs, cluster, action), ReportsOn(a)) == 0
  {
    if rs != [] {
      var n := |rs| - 1;
      CountAccepted(rs[..n], cluster, item, action);
      if Accepts(rs[n].uid, cluster) {
        forall a
          ensures CountWhere(AcceptedItems(rs, cluster, item), ActsAs(a))
            == CountWhere(AcceptedItems(rs[..n], cluster, item), ActsAs(a)) + (if a == action then 1 else 0)
        {
          CountSnoc(AcceptedItems(rs[..n], cluster, item), item(rs[n], cluster), ActsAs(a));
        }
        assert RejectedReports(rs, cluster, action) == RejectedReports(rs[..n], cluster, action);
      } else {
        var report := Report(action, rs[n].uid, ValidateUidPrefix(rs[n].uid, cluster).value);
        forall a
          ensures CountWhere(RejectedReports(rs, cluster, action), ReportsOn(a))
            == CountWhere(RejectedReports(rs[..n], cluster, action), ReportsOn(a)) + (if a == action then 1 else 0)
        {
          CountSnoc(RejectedReports(rs[..n], cluster, action), report, ReportsOn(a));
        }
        assert AcceptedItems(rs, cluster, item) == AcceptedItems(rs[..n], cluster, item);
      }
    }
  }

  function IsBulkDelete(): Item -> bool { (x: Item) => x.stmt.DeleteResourcesIn? }
  function IsCascade(): Item -> bool { (x: Item) => x.stmt.DeleteEdgesAt? }
  function IsEdgeDelete(): Item -> bool { (x: Item) => x.stmt.DeleteEdgeRow? }

  // The number of items of each action in a program.
  lemma ProgramCounts(ev: SyncEvent, cluster: string)
    ensures var p := Program(ev, cluster);
      && CountWhere(p, ActsAs(AddResource)) + CountWhere(Rejections(ev, cluster), ReportsOn(AddResource))
        == |ev.addResources|
      && CountWhere(p, ActsAs(UpdateResource)) + CountWhere(Rejections(ev, cluster), ReportsOn(UpdateResource))
        == |ev.updateResources|
      && CountWhere(p, ActsAs(DeleteResource)) == (if ev.deleteResources == [] then 0 else 1)
      && CountWhere(p, ActsAs(AddEdge)) == |ev.addEdges|
      && CountWhere(p, ActsAs(DeleteEdge)) == |ev.deleteEdges| + (if ev.deleteResources == [] then 0 else 1)
      && (forall a | a != AddResource && a != UpdateResource :: CountWhere(Rejections(ev, cluster), ReportsOn(a)) == 0)
  {
    CountAccepted(ev.addResources, cluster, AddItem, AddResource);
    CountAccepted(ev.updateResources, cluster, UpdateItem, UpdateResource);
    forall a
      ensures CountWhere(Program(ev, cluster), ActsAs(a))
        == CountWhere(AcceptedItems(ev.addResources, cluster, AddItem), ActsAs(a))
         + CountWhere(AcceptedItems(ev.updateResources, cluster, UpdateItem), ActsAs(a))
         + CountWhere(BulkDeletes(ev.deleteResources, cluster), ActsAs(a))
         + CountWhere(InsertEdgeItems(ev.addEdges, cluster), ActsAs(a))
         + CountWhere(DeleteEdgeItems(ev.deleteEdges, cluster), ActsAs(a))
      ensures CountWhere(Rejections(ev, cluster), ReportsOn(a))
        == CountWhere(RejectedReports(ev.addResources, cluster, AddResource), ReportsOn(a))
         + CountWhere(RejectedReports(ev.updateResources, cluster, UpdateResource), ReportsOn(a))
    {
      ProgramCount(ev, cluster, a);
    }
    BulkCounts(ev.deleteResources, cluster);
    forall a
      ensures CountWhere(InsertEdgeItems(ev.addEdges, cluster), ActsAs(a))
        == (if a == AddEdge then |ev.addEdges| else 0)
      ensures CountWhere(DeleteEdgeItems(ev.deleteEdges, cluster), ActsAs(a))
        == (if a == DeleteEdge then |ev.deleteEdges| else 0)
    {
      EdgeItemCounts(ev, cluster, a);
    }
  }

  lemma ProgramCount(ev: SyncEvent, cluster: string, a: Action)
    ensures CountWhere(Program(ev, cluster), ActsAs(a))
        == CountWhere(AcceptedItems(ev.addResources, cluster, AddItem), ActsAs(a))
         + CountWhere(AcceptedItems(ev.updateResources, cluster, UpdateItem), ActsAs(a))
         + CountWhere(BulkDeletes(ev.deleteResources, cluster), ActsAs(a))
         + CountWhere(InsertEdgeItems(ev.addEdges, cluster), ActsAs(a))
         + CountWhere(DeleteEdgeItems(ev.deleteEdges, cluster), ActsAs(a))
    ensures CountWhere(Rejections(ev, cluster), ReportsOn(a))
        == CountWhere(RejectedReports(ev.addResources, cluster, AddResource), ReportsOn(a))
         + CountWhere(RejectedReports(ev.updateResources, cluster, UpdateResource), ReportsOn(a))
  {
    var adds, updates := AcceptedItems(ev.addResources, cluster, AddItem),
      AcceptedItems(ev.updateResources, cluster, UpdateItem);
    CountConcat(adds, updates, ActsAs(a));
    CountConcat(adds + updates, BulkDeletes(ev.deleteResources, cluster), ActsAs(a));
    CountConcat(ResourceItems(ev, cluster), InsertEdgeItems(ev.addEdges, cluster), ActsAs(a));
    CountConcat(ResourceItems(ev, cluster) + InsertEdgeItems(ev.addEdges, cluster),
      DeleteEdgeItems(ev.deleteEdges, cluster), ActsAs(a));
    CountConcat(RejectedReports(ev.addResources, cluster, AddResource),
      RejectedReports(ev.updateResources, cluster, UpdateResource), ReportsOn(a));
  }

  lemma BulkCounts(uids: seq<string>, cluster: string)
    ensures var n := if uids == [] then 0 else 1;
      && CountWhere(BulkDeletes(uids, cluster), ActsAs(DeleteResource)) == n
      && CountWhere(BulkDeletes(uids, cluster), ActsAs(DeleteEdge)) == n
      && (forall a | a != DeleteResource && a != DeleteEdge :: CountWhere(BulkDeletes(uids, cluster), ActsAs(a)) == 0)
  {
    if uids != [] {
      var x := BatchItem(DeleteResource, Listing(uids), DeleteResourcesIn(cluster, uids));
      var y := BatchItem(DeleteEdge, Listing(uids), DeleteEdgesAt(cluster, uids));
      assert BulkDeletes(uids, cluster) == [x, y];
      CountTwo(x, y, ActsAs(DeleteResource));
      CountTwo(x, y, ActsAs(DeleteEdge));
      forall a: Action | a != DeleteResource && a != DeleteEdge
        ensures CountWhere(BulkDeletes(uids, cluster), ActsAs(a)) == 0
      {
        CountNone([x, y], ActsAs(a));
      }
    }
  }

  lemma EdgeItemCounts(ev: SyncEvent, cluster: string, a: Action)
    ensures CountWhere(InsertEdgeItems(ev.addEdges, cluster), ActsAs(a)) == (if a == AddEdge then |ev.addEdges| else 0)
    ensures CountWhere(DeleteEdgeItems(ev.deleteEdges, cluster), ActsAs(a))
      == (if a == DeleteEdge then |ev.deleteEdges| else 0)
  {
    if a == AddEdge { CountAll(InsertEdgeItems(ev.addEdges, cluster), ActsAs(a)); }
    else { CountNone(InsertEdgeItems(ev.addEdges, cluster), ActsAs(a)); }
    if a == DeleteEdge { CountAll(DeleteEdgeItems(ev.deleteEdges, cluster), ActsAs(a)); }
    else { CountNone(DeleteEdgeItems(ev.deleteEdges, cluster), ActsAs(a)); }
  }

  lemma {:induction false} ReportedAreItems<T>(log: seq<Entry<T>>)
    ensures forall x | x in ReportedOf(log) :: x in ItemsOf(log)
    decreases |log|
  {
    if log != [] {
      assert ItemsOf(log) == [log[0].item] + ItemsOf(log[1..]);
      ReportedAreItems(log[1..]);
    }
  }

  // Explicit edge deletions and the cascade share the `deleteEdge` action.
  lemma EdgeDeletesApart(ev: SyncEvent, cluster: string)
    ensures var p := Program(ev, cluster);
      && (forall x | x in p ::
        (ActsAs(DeleteEdge)(x) <==> IsEdgeDelete()(x) || IsCascade()(x)) && !(IsEdgeDelete()(x) && IsCascade()(x)))
      && CountWhere(p, IsEdgeDelete()) == |ev.deleteEdges|
      && CountWhere(p, IsCascade()) <= 1
  {
    var p := Program(ev, cluster);
    EdgeDeleteItems(ev, cluster);
    hide Program, Marshal, Listing;
    forall x | x in p
      ensures (ActsAs(DeleteEdge)(x) <==> IsEdgeDelete()(x) || IsCascade()(x)) && !(IsEdgeDelete()(x) && IsCascade()(x))
    {
    }
    CountEither(p, ActsAs(DeleteEdge), IsEdgeDelete(), IsCascade());
    ProgramCounts(ev, cluster);
    CountEdgeDeletes(ev, cluster);
  }

  lemma EdgeDeleteItems(ev: SyncEvent, cluster: string)
    ensures forall x | x in Program(ev, cluster) ::
      x.action == DeleteEdge <==> x.stmt.DeleteEdgeRow? || x.stmt.DeleteEdgesAt?
  {
    hide Marshal, Listing, AcceptedItems;
    AcceptedItemsAre(ev.addResources, cluster, AddItem);
    AcceptedItemsAre(ev.updateResources, cluster, UpdateItem);
  }

  lemma CountEdgeDeletes(ev: SyncEvent, cluster: string)
    ensures CountWhere(Program(ev, cluster), IsEdgeDelete()) == |ev.deleteEdges|
  {
    hide Marshal, Listing, AcceptedItems, CountWhere;
    var inserts, deletes := InsertEdgeItems(ev.addEdges, cluster), DeleteEdgeItems(ev.deleteEdges, cluster);
    var head := ResourceItems(ev, cluster) + inserts;
    AcceptedItemsAre(ev.addResources, cluster, AddItem);
    AcceptedItemsAre(ev.updateResources, cluster, UpdateItem);
    forall x | x in head ensures !IsEdgeDelete()(x) { assert x in ResourceItems(ev, cluster) || x in inserts; }
    CountNone(head, IsEdgeDelete());
    CountAll(deletes, IsEdgeDelete());
    CountConcat(head, deletes, IsEdgeDelete());
  }

  lemma {:induction false} AcceptedItemsAre(rs: seq<Resource>, cluster: string, item: (Resource, string) -> Item)
    ensures forall x :: x in AcceptedItems(rs, cluster, item)
              <==> exists r :: r in rs && Accepts(r.uid, cluster) && x == item(r, cluster)
  {
    if rs != [] {
      var n := |rs| - 1;
      AcceptedItemsAre(rs[..n], cluster, item);
      assert rs == rs[..n] + [rs[n]];
    }
  }

  /** The totals in the response: with no batch dropped, additions, updates and added edges are
      counted exactly; deletions are the requested ones, minus one if the bulk delete failed; and
      deleted edges are the committed explicit ones, minus one if the cascade failed. */
  lemma TotalsCountCommitted(ev: SyncEvent, cluster: string, log: seq<Entry<Statement>>, reports: seq<Report>)
    requires multiset(Program(ev, cluster)) == multiset(ItemsOf(log)) && NothingDropped(log)
    requires multiset(reports) == multiset(Rejections(ev, cluster)) + multiset(Failures(ReportedOf(log)))
    ensures var lists := Filed(ErrorLists([], [], [], [], []), reports);
      && |ev.addResources| - |lists.add| == CountWhere(CommittedOf(log), ActsAs(AddResource))
      && |ev.updateResources| - |lists.update| == CountWhere(CommittedOf(log), ActsAs(UpdateResource))
      && |lists.delete| == CountWhere(ReportedOf(log), IsBulkDelete()) <= 1
      && |ev.addEdges| - |lists.addEdge| == CountWhere(CommittedOf(log), ActsAs(AddEdge))
      && |ev.deleteEdges| - |lists.deleteEdge|
         == CountWhere(CommittedOf(log), IsEdgeDelete()) - CountWhere(ReportedOf(log), IsCascade())
      && CountWhere(ReportedOf(log), IsCascade()) <= 1
  {
    hide Program, CountWhere, ReportedOf, CommittedOf, Rejections, NothingDropped, Filed, Failures;
    var p := Program(ev, cluster);
    FiledLengths(ErrorLists([], [], [], [], []), reports);
    ProgramCounts(ev, cluster);
    forall a
      ensures CountWhere(reports, ReportsOn(a))
        == CountWhere(Rejections(ev, cluster), ReportsOn(a)) + CountWhere(ReportedOf(log), ActsAs(a))
      ensures CountWhere(p, ActsAs(a))
        == CountWhere(CommittedOf(log), ActsAs(a)) + CountWhere(ReportedOf(log), ActsAs(a))
    {
      CountPermutation(reports, Rejections(ev, cluster) + Failures(ReportedOf(log)), ReportsOn(a));
      CountConcat(Rejections(ev, cluster), Failures(ReportedOf(log)), ReportsOn(a));
      CountFailures(ReportedOf(log), a);
      CountPermutation(p, ItemsOf(log), ActsAs(a));
      CountFates(log, ActsAs(a));
    }
    EdgeDeleteTotals(ev, cluster, log);
    BulkDeleteTotals(ev, cluster, log);
  }

  lemma EdgeDeleteTotals(ev: SyncEvent, cluster: string, log: seq<Entry<Statement>>)
    requires multiset(Program(ev, cluster)) == multiset(ItemsOf(log)) && NothingDropped(log)
    ensures CountWhere(ReportedOf(log), ActsAs(DeleteEdge))
      == |ev.deleteEdges| - CountWhere(CommittedOf(log), IsEdgeDelete()) + CountWhere(ReportedOf(log), IsCascade())
    ensures CountWhere(ReportedOf(log), IsCascade()) <= 1
  {
    hide Program, CountWhere, ReportedOf, CommittedOf, Rejections, NothingDropped;
    var p := Program(ev, cluster);
    EdgeDeletesApart(ev, cluster);
    ReportedAreItems(log);
    forall x | x in ReportedOf(log) ensures x in p {
      assert x in multiset(ItemsOf(log));
    }
    CountEither(ReportedOf(log), ActsAs(DeleteEdge), IsEdgeDelete(), IsCascade());
    CountPermutation(p, ItemsOf(log), IsEdgeDelete());
    CountPermutation(p, ItemsOf(log), IsCascade());
    CountFates(log, IsEdgeDelete());
    CountFates(log, IsCascade());
  }

  lemma OnlyBulkDeletesAct(ev: SyncEvent, cluster: string)
    ensures forall x | x in Program(ev, cluster) :: ActsAs(DeleteResource)(x) <==> IsBulkDelete()(x)
  {
    AcceptedItemsAre(ev.addResources, cluster, AddItem);
    AcceptedItemsAre(ev.updateResources, cluster, UpdateItem);
  }

  function Never(): Item -> bool { (x: Item) => false }

  lemma BulkDeleteTotals(ev: SyncEvent, cluster: string, log: seq<Entry<Statement>>)
    requires multiset(Program(ev, cluster)) == multiset(ItemsOf(log)) && NothingDropped(log)
    ensures CountWhere(ReportedOf(log), ActsAs(DeleteResource)) == CountWhere(ReportedOf(log), IsBulkDelete()) <= 1
  {
    hide Program, CountWhere, ReportedOf, CommittedOf, Rejections, NothingDropped;
    var p := Program(ev, cluster);
    ReportedAreItems(log);
    OnlyBulkDeletesAct(ev, cluster);
    forall x | x in ReportedOf(log) ensures x in p {
      assert x in multiset(ItemsOf(log));
    }
    CountEither(ReportedOf(log), ActsAs(DeleteResource), IsBulkDelete(), Never());
    CountNone(ReportedOf(log), Never());
    ProgramCounts(ev, cluster);
    CountPermutation(p, ItemsOf(log), ActsAs(DeleteResource));
    CountFates(log, ActsAs(DeleteResource));
  }

  ghost predicate TotalsOf(event: SyncEvent, response: SyncResponse, log: seq<Entry<Statement>>)
    reads response
  {
    && response.TotalAdded == CountWhere(CommittedOf(log), ActsAs(AddResource))
    && response.TotalUpdated == CountWhere(CommittedOf(log), ActsAs(UpdateResource))
    && response.TotalDeleted == |event.deleteResources| - CountWhere(ReportedOf(log), IsBulkDelete())
    && response.TotalEdgesAdded == CountWhere(CommittedOf(log), ActsAs(AddEdge))
    && response.TotalEdgesDeleted
       == CountWhere(CommittedOf(log), IsEdgeDelete()) - CountWhere(ReportedOf(log), IsCascade())
  }

  // The last error returned by `Queue` tells whether anything was refused.
  ghost predicate Tracks(batch: BatchWithRetry, queueErr: Option<string>)
    reads batch
  {
    && (queueErr.Some? ==>
          batch.connError.Some? && batch.refused != [] && LostWith(batch.net, queueErr.value, 0, batch.sends))
    && (queueErr.None? ==> batch.refused == [])
  }

  // One more resource is accepted or rejected.
  lemma NextResource(rs: seq<Resource>, cluster: string, item: (Resource, string) -> Item, action: Action, i: nat)
    requires i < |rs|
    ensures var invalid := ValidateUidPrefix(rs[i].uid, cluster);
      && AcceptedItems(rs[..i + 1], cluster, item)
         == AcceptedItems(rs[..i], cluster, item) + (if invalid.None? then [item(rs[i], cluster)] else [])
      && RejectedReports(rs[..i + 1], cluster, action)
         == RejectedReports(rs[..i], cluster, action)
            + (if invalid.None? then [] else [Report(action, rs[i].uid, invalid.value)])
  {
    assert rs[..i + 1][..i] == rs[..i];
  }

  lemma NoResources(cluster: string, item: (Resource, string) -> Item, action: Action)
    ensures AcceptedItems([], cluster, item) == [] && RejectedReports([], cluster, action) == []
  {
  }

  // Queue the accepted resources of one list and report the others.
  method QueueResources(
    batch: BatchWithRetry, rs: seq<Resource>, cluster: string, item: (Resource, string) -> Item, action: Action,
    queueErr: Option<string>)
      returns (err: Option<string>)
    requires batch.Valid() && Tracks(batch, queueErr)
    modifies batch, batch.pool, batch.response`AddErrors, batch.response`UpdateErrors, batch.response`DeleteErrors,
      batch.response`AddEdgeErrors, batch.response`DeleteEdgeErrors
    ensures batch.Valid() && Tracks(batch, err)
    ensures batch.Offered() == old(batch.Offered()) + AcceptedItems(rs, cluster, item)
    ensures batch.rejections == old(batch.rejections) + RejectedReports(rs, cluster, action)
  {
    hide BatchWithRetry.Valid, LostWith, ValidateUidPrefix, AcceptedItems, RejectedReports;
    err := queueErr;
    NoResources(cluster, item, action);
    assert rs[..0] == [];
    for i := 0 to |rs|
      invariant batch.Valid() && Tracks(batch, err)
      invariant batch.Offered() == old(batch.Offered()) + AcceptedItems(rs[..i], cluster, item)
      invariant batch.rejections == old(batch.rejections) + RejectedReports(rs[..i], cluster, action)
    {
      NextResource(rs, cluster, item, action, i);
      var invalid := ValidateUidPrefix(rs[i].uid, cluster);
      if invalid.Some? {
        batch.Reject(Report(action, rs[i].uid, invalid.value));
        continue;
      }
      err := batch.Submit(item(rs[i], cluster));
    }
    assert rs[..|rs|] == rs;
  }

  // Queue the deletion of resources and of the edges at them.
  method QueueBulkDelete(
    batch: BatchWithRetry, uids: seq<string>, cluster: string, queueErr: Option<string>)
      returns (err: Option<string>)
    requires batch.Valid() && Tracks(batch, queueErr)
    modifies batch, batch.pool, batch.response`AddErrors, batch.response`UpdateErrors, batch.response`DeleteErrors,
      batch.response`AddEdgeErrors, batch.response`DeleteEdgeErrors
    ensures batch.Valid() && Tracks(batch, err)
    ensures batch.Offered() == old(batch.Offered()) + BulkDeletes(uids, cluster) &&
      batch.rejections == old(batch.rejections)
  {
    hide BatchWithRetry.Valid, LostWith;
    err := queueErr;
    if |uids| > 0 {
      var bulk := BulkDeletes(uids, cluster);
      var first := batch.Submit(bulk[0]);
      ghost var sends := batch.sends;
      err := batch.Submit(bulk[1]);
      if first.Some? {
        LostBefore(batch.net, first.value, 0, sends, batch.sends);
        err := first;
      }
    }
  }

  method QueueEdges(
    batch: BatchWithRetry, es: seq<Edge>, cluster: string, queueErr: Option<string>)
      returns (err: Option<string>)
    requires batch.Valid() && Tracks(batch, queueErr)
    modifies batch, batch.pool, batch.response`AddErrors, batch.response`UpdateErrors, batch.response`DeleteErrors,
      batch.response`AddEdgeErrors, batch.response`DeleteEdgeErrors
    ensures batch.Valid() && Tracks(batch, err)
    ensures batch.Offered() == old(batch.Offered()) + InsertEdgeItems(es, cluster) &&
      batch.rejections == old(batch.rejections)
  {
    hide BatchWithRetry.Valid, LostWith;
    err := queueErr;
    for i := 0 to |es|
      invariant batch.Valid() && Tracks(batch, err)
      invariant batch.Offered() == old(batch.Offered()) + InsertEdgeItems(es[..i], cluster) &&
        batch.rejections == old(batch.rejections)
    {
      err := batch.Submit(InsertEdgeItem(es[i], cluster));
      assert InsertEdgeItems(es[..i + 1], cluster)
        == InsertEdgeItems(es[..i], cluster) + [InsertEdgeItem(es[i], cluster)];
    }
    assert es[..|es|] == es;
  }

  method QueueEdgeDeletes(
    batch: BatchWithRetry, es: seq<Edge>, cluster: string, queueErr: Option<string>)
      returns (err: Option<string>)
    requires batch.Valid() && Tracks(batch, queueErr)
    modifies batch, batch.pool, batch.response`AddErrors, batch.response`UpdateErrors, batch.response`DeleteErrors,
      batch.response`AddEdgeErrors, batch.response`DeleteEdgeErrors
    ensures batch.Valid() && Tracks(batch, err)
    ensures batch.Offered() == old(batch.Offered()) + DeleteEdgeItems(es, cluster) &&
      batch.rejections == old(batch.rejections)
  {
    hide BatchWithRetry.Valid, LostWith;
    err := queueErr;
    for i := 0 to |es|
      invariant batch.Valid() && Tracks(batch, err)
      invariant batch.Offered() == old(batch.Offered()) + DeleteEdgeItems(es[..i], cluster) &&
        batch.rejections == old(batch.rejections)
    {
      err := batch.Submit(DeleteEdgeItem(es[i].key, cluster));
      assert DeleteEdgeItems(es[..i + 1], cluster)
        == DeleteEdgeItems(es[..i], cluster) + [DeleteEdgeItem(es[i].key, cluster)];
    }
    assert es[..|es|] == es;
  }

  // Queue everything an event asks for.
  method QueueEvent(batch: BatchWithRetry, event: SyncEvent, cluster: string) returns (queueErr: Option<string>)
    requires batch.Valid() && batch.Offered() == [] && batch.rejections == [] && Tracks(batch, None)
    modifies batch, batch.pool, batch.response`AddErrors, batch.response`UpdateErrors, batch.response`DeleteErrors,
      batch.response`AddEdgeErrors, batch.response`DeleteEdgeErrors
    ensures batch.Valid() && Tracks(batch, queueErr)
    ensures batch.Offered() == Program(event, cluster) && batch.rejections == Rejections(event, cluster)
  {
    hide BatchWithRetry.Valid, LostWith, AcceptedItems, RejectedReports, BulkDeletes, InsertEdgeItems, DeleteEdgeItems;
    queueErr := QueueResources(batch, event.addResources, cluster, AddItem, AddResource, None);
    queueErr := QueueResources(batch, event.updateResources, cluster, UpdateItem, UpdateResource, queueErr);
    queueErr := QueueBulkDelete(batch, event.deleteResources, cluster, queueErr);
    assert batch.Offered() == ResourceItems(event, cluster);
    queueErr := QueueEdges(batch, event.addEdges, cluster, queueErr);
    queueErr := QueueEdgeDeletes(batch, event.deleteEdges, cluster, queueErr);
  }

  // The redundant totals: what was requested minus the errors.
  method FillTotals(event: SyncEvent, response: SyncResponse)
    modifies response`TotalAdded, response`TotalUpdated, response`TotalDeleted, response`TotalEdgesAdded,
      response`TotalEdgesDeleted
    ensures Requested(event, response)
  {
    response.TotalAdded := |event.addResources| - |response.AddErrors|;
    response.TotalUpdated := |event.updateResources| - |response.UpdateErrors|;
    response.TotalDeleted := |event.deleteResources| - |response.DeleteErrors|;
    response.TotalEdgesAdded := |event.addEdges| - |response.AddEdgeErrors|;
    response.TotalEdgesDeleted := |event.deleteEdges| - |response.DeleteEdgeErrors|;
  }

  ghost predicate Requested(event: SyncEvent, response: SyncResponse)
    reads response
  {
    && response.TotalAdded == |event.addResources| - |response.AddErrors|
    && response.TotalUpdated == |event.updateResources| - |response.UpdateErrors|
    && response.TotalDeleted == |event.deleteResources| - |response.DeleteErrors|
    && response.TotalEdgesAdded == |event.addEdges| - |response.AddEdgeErrors|
    && response.TotalEdgesDeleted == |event.deleteEdges| - |response.DeleteEdgeErrors|
  }

  lemma RequestedAreCommitted(
    event: SyncEvent, cluster: string, response: SyncResponse, log: seq<Entry<Statement>>, reports: seq<Report>)
    requires multiset(Program(event, cluster)) == multiset(ItemsOf(log)) && NothingDropped(log)
    requires multiset(reports) == multiset(Rejections(event, cluster)) + multiset(Failures(ReportedOf(log)))
    requires response.Lists() == Filed(ErrorLists([], [], [], [], []), reports) && Requested(event, response)
    ensures TotalsOf(event, response, log)
  {
    TotalsCountCommitted(event, cluster, log, reports);
  }

  // Queue the event, send what is left and wait.
  method SendEvent(
    event: SyncEvent, cluster: string, pool: Pool, response: SyncResponse, batchSize: int,
    exec: (Database, Statement) -> Option<Database>, net: nat -> Fault)
      returns (
        queueErr: Option<string>, connError: Option<string>, ghost accepted: seq<Item>, ghost reports: seq<Report>,
        ghost log: seq<Entry<Statement>>, ghost sends: nat)
    modifies pool, response`AddErrors, response`UpdateErrors, response`DeleteErrors, response`AddEdgeErrors,
      response`DeleteEdgeErrors
    ensures Settled(exec, old(pool.db), pool.db, accepted, log)
    ensures accepted <= Program(event, cluster)
    ensures queueErr.None? <==> accepted == Program(event, cluster)
    ensures queueErr.Some? ==> connError.Some? && LostWith(net, queueErr.value, 0, sends)
    ensures connError.None? <==> !LostIn(log)
    ensures connError.None? <==> forall k | 0 <= k < sends :: !Loses(net(k))
    ensures connError.Some? ==> LostWith(net, connError.value, 0, sends)
    ensures accepted != [] ==> sends > 0
    ensures NothingDropped(log) <==> forall k | 0 <= k < sends :: net(k).Clean?
    ensures response.Lists() == Filed(old(response.Lists()), reports)
    ensures multiset(reports) == multiset(Rejections(event, cluster)) + multiset(Failures(ReportedOf(log)))
  {
    hide BatchWithRetry.Valid, Program, Rejections, Explains, Filed, Failures, ReportedOf, LostIn, Loses,
      NothingDropped, LostWith;
    var batch := new BatchWithRetry(pool, response, batchSize, exec, net);
    queueErr := QueueEvent(batch, event, cluster);
    ghost var queued := batch.sends;
    batch.Finish();
    connError := batch.connError;
    accepted, reports, log, sends := batch.accepted, batch.reports, batch.log, batch.sends;
    LastLossIsLost(net, None, 0, sends);
    if queueErr.Some? {
      LostBefore(net, queueErr.value, 0, queued, sends);
    }
  }

  /** Delta sync, for every batch size, every behaviour of the connection and every interleaving of
      the batches: each accepted statement gets exactly one fate, the database is explained by
      them, nil is returned exactly when no batch was lost, and then everything was queued. */
  method SyncData(
    event: SyncEvent, cluster: string, pool: Pool, response: SyncResponse, batchSize: int,
    exec: (Database, Statement) -> Option<Database>, net: nat -> Fault)
      returns (
        err: Option<string>, ghost accepted: seq<Item>, ghost reports: seq<Report>,
        ghost log: seq<Entry<Statement>>, ghost sends: nat)
    modifies pool, response
    ensures Settled(exec, old(pool.db), pool.db, accepted, log)
    ensures accepted <= Program(event, cluster)
    ensures err.None? <==> !LostIn(log)
    ensures err.None? <==> forall k | 0 <= k < sends :: !Loses(net(k))
    ensures err.Some? ==> LostWith(net, err.value, 0, sends)
    ensures Program(event, cluster) != [] && (forall k :: Loses(net(k))) ==> err.Some?
    ensures (forall k :: !Loses(net(k))) ==> err.None?
    ensures err.None? ==> accepted == Program(event, cluster)
    ensures NothingDropped(log) <==> forall k | 0 <= k < sends :: net(k).Clean?
    ensures if accepted == Program(event, cluster) then Requested(event, response)
            else
              && response.TotalAdded == old(response.TotalAdded)
              && response.TotalUpdated == old(response.TotalUpdated)
              && response.TotalDeleted == old(response.TotalDeleted)
              && response.TotalEdgesAdded == old(response.TotalEdgesAdded)
              && response.TotalEdgesDeleted == old(response.TotalEdgesDeleted)
    ensures response.Lists() == Filed(old(response.Lists()), reports)
    ensures multiset(reports) == multiset(Rejections(event, cluster)) + multiset(Failures(ReportedOf(log)))
    ensures err.None? && NothingDropped(log) && old(response.Lists()) == ErrorLists([], [], [], [], []) ==>
      TotalsOf(event, response, log)
  {
    hide Program, Rejections, Explains, Filed, Failures, ReportedOf, LostIn, Requested, TotalsOf, Loses, NothingDropped;
    var queueErr, connError;
    queueErr, connError, accepted, reports, log, sends :=
      SendEvent(event, cluster, pool, response, batchSize, exec, net);
    err := queueErr;
    if sends > 0 && forall k :: Loses(net(k)) {
      assert Loses(net(0));
    }
    if err.None? {
      FillTotals(event, response);
      err := connError;
      if err.None? && NothingDropped(log) && old(response.Lists()) == ErrorLists([], [], [], [], []) {
        RequestedAreCommitted(event, cluster, response, log, reports);
      }
    }
  }
}
