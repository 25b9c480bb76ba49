/** What the error lists of a response name: the statement that failed, or the resource whose uid does not
    carry the prefix of its cluster. */
module Errors {
  import opened Options
  import opened Serial
  import opened BatchEngine
  import opened Tables
  import opened Batch
  import opened Sync
  import opened SyncEffect
  import opened Resync
  import opened ResyncEffect

  const NO_ERRORS := ErrorLists([], [], [], [], [])

  function ListOf(lists: ErrorLists, action: Action): seq<SyncError> {
    match action
    case AddResource => lists.add
    case UpdateResource => lists.update
    case DeleteResource => lists.delete
    case AddEdge => lists.addEdge
    case DeleteEdge => lists.deleteEdge
  }

  // An item carries the action of its statement and the uid by which an error will name it.
  predicate Names(x: Item) {
    match x.stmt
    case UpsertResource(uid, _, _) => x.action == AddResource && x.uid == uid
    case UpdateResourceData(uid, _, _) => x.action == UpdateResource && x.uid == uid
    case DeleteResourcesIn(_, uids) => x.action == DeleteResource && x.uid == Listing(uids)
    case DeleteResourcesNotIn(_, keep) => x.action == DeleteResource && x.uid == Listing(keep)
    case InsertEdge(key, _, _, _) => x.action == AddEdge && x.uid == key.source
    case DeleteEdgeRow(key, _) => x.action == DeleteEdge && x.uid == key.source
    case DeleteEdgesAt(_, uids) => x.action == DeleteEdge && x.uid == Listing(uids)
    case DeleteEdgesNotWithin(_, keep) => x.action == DeleteEdge && x.uid == Listing(keep)
    case _ => false
  }

  /** A list of uids prints in brackets, with a space between any two. */
  lemma {:induction false} ListingJoins(a: seq<string>, b: seq<string>)
    requires a != [] && b != []
    ensures forall u :: Listing([u]) == "[" + u + "]"
    ensures Joined(a + b) == Joined(a) + " " + Joined(b) && Listing(a + b) == "[" + Joined(a) + " " + Joined(b) + "]"
  {
    if |a| == 1 {
      assert (a + b)[1..] == b;
    } else {
      assert (a + b)[1..] == a[1..] + b;
      ListingJoins(a[1..], b);
    }
  }

  /** Every item of a delta does. */
  lemma ProgramNames(ev: SyncEvent, cluster: string, x: Item)
    requires x in Program(ev, cluster)
    ensures Names(x)
  {
    hide Program, Marshal, Listing;
    ProgramItem(ev, cluster, x);
  }

  /** So does every item of both phases of a resync. */
  lemma ResyncNames(
    rs: seq<Resource>, es: seq<Edge>, deletes: seq<Item>, m: map<string, EdgeKey>, cluster: string, x: Item)
    requires OnlyDeletions(deletes, m, cluster)
    requires x in ResetProgram(rs, cluster) || x in InsertEdgeItems(es, cluster) + deletes
    ensures Names(x)
  {
    if x in ResetProgram(rs, cluster) {
      AcceptedItemsAre(rs, cluster, AddItem);
      hide KeepList, Listing, Marshal;
    } else if x in deletes {
      assert IsDeletion(x, m, cluster);
    }
  }

  lemma {:induction false} FiledAre(lists: ErrorLists, reports: seq<Report>, action: Action, e: SyncError)
    ensures e in ListOf(Filed(lists, reports), action) <==>
      e in ListOf(lists, action) || Report(action, e.uid, e.cause) in reports
  {
    if reports != [] {
      var n := |reports| - 1;
      FiledAre(lists, reports[..n], action, e);
      assert reports == reports[..n] + [reports[n]];
    }
  }

  lemma FailuresAre(items: seq<Item>, r: Report)
    ensures r in Failures(items) <==>
      r.cause == DatabaseFailure && exists x | x in items :: x.action == r.action && x.uid == r.uid
  {
    if r in Failures(items) {
      var i :| 0 <= i < |items| && Failures(items)[i] == r;
      assert items[i] in items;
    }
    if r.cause == DatabaseFailure && exists x | x in items :: x.action == r.action && x.uid == r.uid {
      var i :| 0 <= i < |items| && items[i].action == r.action && items[i].uid == r.uid;
      assert Failures(items)[i] == r;
    }
  }

  lemma FiledFor(
    log: seq<Entry<Statement>>, rejections: seq<Report>, reports: seq<Report>, action: Action, e: SyncError)
    requires multiset(reports) == multiset(rejections) + multiset(Failures(ReportedOf(log)))
    ensures e in ListOf(Filed(NO_ERRORS, reports), action) <==>
      || Report(action, e.uid, e.cause) in rejections
      || (e.cause == DatabaseFailure && exists x | x in ReportedOf(log) :: x.action == action && x.uid == e.uid)
  {
    var r := Report(action, e.uid, e.cause);
    FiledAre(NO_ERRORS, reports, action, e);
    FailuresAre(ReportedOf(log), r);
    assert r in reports <==> r in multiset(reports);
    assert r in multiset(reports) <==> r in rejections || r in Failures(ReportedOf(log));
  }

  // A statement of the log failed on its own and an error names it.
  ghost predicate Failed(log: seq<Entry<Statement>>, e: SyncError, names: Statement -> bool) {
    e.cause == DatabaseFailure && exists i | 0 <= i < |log| :: log[i].fate.Reported? && names(log[i].item.stmt)
  }

  lemma {:induction false} ReportedIs(log: seq<Entry<Statement>>, x: Item)
    ensures x in ReportedOf(log) <==> exists i | 0 <= i < |log| :: log[i].fate.Reported? && log[i].item == x
    decreases |log|
  {
    if log != [] {
      ReportedIs(log[1..], x);
      assert log == [log[0]] + log[1..];
      assert forall i | 0 <= i < |log| - 1 :: log[1..][i] == log[i + 1];
      if i :| 0 <= i < |log| && log[i].fate.Reported? && log[i].item == x {
        if i > 0 { assert log[1..][i - 1] == log[i]; }
      }
    }
  }

  lemma FailedIs(log: seq<Entry<Statement>>, action: Action, e: SyncError, names: Statement -> bool)
    requires forall x | x in ItemsOf(log) :: x.action == action && x.uid == e.uid <==> names(x.stmt)
    ensures Failed(log, e, names) <==>
      e.cause == DatabaseFailure && exists x | x in ReportedOf(log) :: x.action == action && x.uid == e.uid
  {
    forall x: Item
      ensures x in ReportedOf(log) <==> exists i | 0 <= i < |log| :: log[i].fate.Reported? && log[i].item == x
    {
      ReportedIs(log, x);
    }
    assert forall i | 0 <= i < |log| :: log[i].item == ItemsOf(log)[i] && log[i].item in ItemsOf(log);
    if Failed(log, e, names) {
      var i :| 0 <= i < |log| && log[i].fate.Reported? && names(log[i].item.stmt);
      assert log[i].item in ReportedOf(log);
    }
  }

  // The statements whose failure is filed under a uid, for each list.
  function UpsertOf(uid: string): Statement -> bool { (s: Statement) => s.UpsertResource? && s.uid == uid }
  function UpdateOf(uid: string): Statement -> bool { (s: Statement) => s.UpdateResourceData? && s.uid == uid }
  function InsertionAt(uid: string): Statement -> bool { (s: Statement) => s.InsertEdge? && s.key.source == uid }

  function DeletionOf(uid: string): Statement -> bool {
    (s: Statement) =>
      (s.DeleteResourcesIn? && Listing(s.uids) == uid) || (s.DeleteResourcesNotIn? && Listing(s.keep) == uid)
  }

  function EdgeDeletionAt(uid: string): Statement -> bool {
    (s: Statement) =>
      (s.DeleteEdgeRow? && s.key.source == uid) || (s.DeleteEdgesAt? && Listing(s.uids) == uid)
      || (s.DeleteEdgesNotWithin? && Listing(s.keep) == uid)
  }

  function FiledUnder(action: Action, uid: string): Statement -> bool {
    match action
    case AddResource => UpsertOf(uid)
    case UpdateResource => UpdateOf(uid)
    case DeleteResource => DeletionOf(uid)
    case AddEdge => InsertionAt(uid)
    case DeleteEdge => EdgeDeletionAt(uid)
  }

  // An error of a list: a failed statement of its kind, or a rejection.
  ghost predicate IsError(
    log: seq<Entry<Statement>>, rejections: seq<Report>, action: Action, e: SyncError, names: Statement -> bool)
  {
    Report(action, e.uid, e.cause) in rejections || Failed(log, e, names)
  }

  lemma NamesAction(x: Item, action: Action, uid: string)
    requires Names(x)
    ensures x.action == action && x.uid == uid <==> FiledUnder(action, uid)(x.stmt)
  {
    hide Listing;
  }

  lemma ListNames(
    log: seq<Entry<Statement>>, rejections: seq<Report>, reports: seq<Report>, action: Action, e: SyncError)
    requires forall x | x in ItemsOf(log) :: Names(x)
    requires multiset(reports) == multiset(rejections) + multiset(Failures(ReportedOf(log)))
    ensures e in ListOf(Filed(NO_ERRORS, reports), action) <==>
      IsError(log, rejections, action, e, FiledUnder(action, e.uid))
  {
    hide Filed, Failures, ReportedOf, Failed, FiledUnder, Names;
    FiledFor(log, rejections, reports, action, e);
    forall x | x in ItemsOf(log) ensures x.action == action && x.uid == e.uid <==> FiledUnder(action, e.uid)(x.stmt) {
      NamesAction(x, action, e.uid);
    }
    FailedIs(log, action, e, FiledUnder(action, e.uid));
  }

  /** An error list names exactly what was reported on its kind of statement: the resource, the source of the
      edge, or the list of uids that the failing statement was about, and the resources that were rejected. */
  lemma ListsName(log: seq<Entry<Statement>>, rejections: seq<Report>, reports: seq<Report>, e: SyncError)
    requires forall x | x in ItemsOf(log) :: Names(x)
    requires multiset(reports) == multiset(rejections) + multiset(Failures(ReportedOf(log)))
    ensures var lists := Filed(NO_ERRORS, reports);
      && (e in lists.add <==> IsError(log, rejections, AddResource, e, UpsertOf(e.uid)))
      && (e in lists.update <==> IsError(log, rejections, UpdateResource, e, UpdateOf(e.uid)))
      && (e in lists.delete <==> IsError(log, rejections, DeleteResource, e, DeletionOf(e.uid)))
      && (e in lists.addEdge <==> IsError(log, rejections, AddEdge, e, InsertionAt(e.uid)))
      && (e in lists.deleteEdge <==> IsError(log, rejections, DeleteEdge, e, EdgeDeletionAt(e.uid)))
  {
    hide Filed, Failures, ReportedOf, IsError, Names;
    ListNames(log, rejections, reports, AddResource, e);
    ListNames(log, rejections, reports, UpdateResource, e);
    ListNames(log, rejections, reports, DeleteResource, e);
    ListNames(log, rejections, reports, AddEdge, e);
    ListNames(log, rejections, reports, DeleteEdge, e);
  }

  /** What is rejected in front of the database: exactly the resources whose uid does not start with the
      cluster's name and a slash, with that prefix in the error. */
  lemma {:induction false} RejectedAre(rs: seq<Resource>, cluster: string, action: Action, r: Report)
    ensures r in RejectedReports(rs, cluster, action) <==>
      && r.action == action && r.cause == BadPrefix(cluster + "/")
      && exists x | x in rs :: x.uid == r.uid && !HasPrefix(x.uid, cluster + "/")
  {
    if rs != [] {
      var n := |rs| - 1;
      RejectedAre(rs[..n], cluster, action, r);
      assert rs == rs[..n] + [rs[n]];
    }
  }

  // The error of a resource that was rejected.
  ghost predicate IsRejected(rs: seq<Resource>, cluster: string, e: SyncError) {
    e.cause == BadPrefix(cluster + "/") && exists x | x in rs :: x.uid == e.uid && !HasPrefix(x.uid, cluster + "/")
  }

  /** The lists of a delta's response, whatever its connection did: each error names a resource of the event
      without the prefix, or a statement that failed on its own. */
  lemma SyncErrorsName(
    ev: SyncEvent, cluster: string, accepted: seq<Item>, log: seq<Entry<Statement>>, reports: seq<Report>,
    e: SyncError)
    requires accepted <= Program(ev, cluster) && multiset(accepted) == multiset(ItemsOf(log))
    requires multiset(reports) == multiset(Rejections(ev, cluster)) + multiset(Failures(ReportedOf(log)))
    ensures var lists := Filed(NO_ERRORS, reports);
      && (e in lists.add <==> IsRejected(ev.addResources, cluster, e) || Failed(log, e, UpsertOf(e.uid)))
      && (e in lists.update <==> IsRejected(ev.updateResources, cluster, e) || Failed(log, e, UpdateOf(e.uid)))
      && (e in lists.delete <==> Failed(log, e, DeletionOf(e.uid)))
      && (e in lists.addEdge <==> Failed(log, e, InsertionAt(e.uid)))
      && (e in lists.deleteEdge <==> Failed(log, e, EdgeDeletionAt(e.uid)))
  {
    hide Program, Filed, Failures, ReportedOf, Failed, Names, RejectedReports;
    forall x | x in ItemsOf(log) ensures Names(x) {
      assert x in multiset(accepted) && x in accepted;
      ProgramNames(ev, cluster, x);
    }
    ListsName(log, Rejections(ev, cluster), reports, e);
    forall a: Action ensures Report(a, e.uid, e.cause) in Rejections(ev, cluster) <==>
      || (a == AddResource && IsRejected(ev.addResources, cluster, e))
      || (a == UpdateResource && IsRejected(ev.updateResources, cluster, e))
    {
      RejectedAre(ev.addResources, cluster, AddResource, Report(a, e.uid, e.cause));
      RejectedAre(ev.updateResources, cluster, UpdateResource, Report(a, e.uid, e.cause));
    }
  }

  /** The same for the two phases of a resync. A phase whose connection is lost files no more rejections than
      there are. */
  lemma ResyncErrorsName(
    rs: seq<Resource>, cluster: string, accepted: seq<Item>, log: seq<Entry<Statement>>, rejected: seq<Report>,
    reports: seq<Report>, e: SyncError)
    requires accepted <= ResetProgram(rs, cluster) && multiset(accepted) == multiset(ItemsOf(log))
    requires rejected <= RejectedReports(rs, cluster, AddResource)
    requires multiset(reports) == multiset(rejected) + multiset(Failures(ReportedOf(log)))
    ensures var lists := Filed(NO_ERRORS, reports);
      && (e in lists.add ==> IsRejected(rs, cluster, e) || Failed(log, e, UpsertOf(e.uid)))
      && (Failed(log, e, UpsertOf(e.uid)) ==> e in lists.add)
      && (rejected == RejectedReports(rs, cluster, AddResource) && IsRejected(rs, cluster, e) ==> e in lists.add)
      && lists.update == [] && lists.addEdge == []
      && (e in lists.delete <==> Failed(log, e, DeletionOf(e.uid)))
      && (e in lists.deleteEdge <==> Failed(log, e, EdgeDeletionAt(e.uid)))
  {
    hide ResetProgram, Filed, Failures, ReportedOf, Failed, Names, RejectedReports;
    ResetNamed(rs, cluster, accepted, log);
    ListsName(log, rejected, reports, e);
    forall a: Action
      ensures Report(a, e.uid, e.cause) in rejected ==> a == AddResource && IsRejected(rs, cluster, e)
      ensures Report(a, e.uid, e.cause) in RejectedReports(rs, cluster, AddResource) <==>
        a == AddResource && IsRejected(rs, cluster, e)
    {
      RejectedAre(rs, cluster, AddResource, Report(a, e.uid, e.cause));
    }
    var lists := Filed(NO_ERRORS, reports);
    if lists.update != [] {
      NoSuchError(rs, cluster, accepted, log, rejected, reports, UpdateResource, lists.update[0]);
      assert false;
    }
    if lists.addEdge != [] {
      NoSuchError(rs, cluster, accepted, log, rejected, reports, AddEdge, lists.addEdge[0]);
      assert false;
    }
  }

  lemma ResetNamed(rs: seq<Resource>, cluster: string, accepted: seq<Item>, log: seq<Entry<Statement>>)
    requires accepted <= ResetProgram(rs, cluster) && multiset(accepted) == multiset(ItemsOf(log))
    ensures forall x | x in ItemsOf(log) :: x in ResetProgram(rs, cluster) && Names(x)
  {
    forall x | x in ItemsOf(log) ensures x in ResetProgram(rs, cluster) && Names(x) {
      assert x in multiset(accepted) && x in accepted;
      ResyncNames(rs, [], [], map[], cluster, x);
    }
  }

  lemma NoSuchError(
    rs: seq<Resource>, cluster: string, accepted: seq<Item>, log: seq<Entry<Statement>>, rejected: seq<Report>,
    reports: seq<Report>, action: Action, e: SyncError)
    requires accepted <= ResetProgram(rs, cluster) && multiset(accepted) == multiset(ItemsOf(log))
    requires rejected <= RejectedReports(rs, cluster, AddResource)
    requires multiset(reports) == multiset(rejected) + multiset(Failures(ReportedOf(log)))
    requires action == UpdateResource || action == AddEdge
    ensures e !in ListOf(Filed(NO_ERRORS, reports), action)
  {
    hide Filed, Failures, ReportedOf, RejectedReports, Listing;
    ResetNamed(rs, cluster, accepted, log);
    ListNames(log, rejected, reports, action, e);
    RejectedAre(rs, cluster, AddResource, Report(action, e.uid, e.cause));
    forall i | 0 <= i < |log| ensures !FiledUnder(action, e.uid)(log[i].item.stmt) {
      assert ItemsOf(log)[i] in ItemsOf(log);
      ResetItem(rs, cluster, log[i].item);
      hide ResetProgram;
    }
  }
}
