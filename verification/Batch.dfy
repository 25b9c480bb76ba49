/** The batch queue as the indexer holds it: a mutable object sharing the connection pool and the
    response with its caller. `goroutines` is what the Go runtime keeps for the started
    `sendBatch` calls; `Preempt` lets it run any of them for any number of steps. */
module Batch {
  import opened Options
  import opened Serial
  import opened BatchEngine
  import opened Tables
  import opened Counting
  import Bisect

  datatype SyncError = SyncError(uid: string, cause: Cause)

  datatype ErrorLists = ErrorLists(
    add: seq<SyncError>, update: seq<SyncError>, delete: seq<SyncError>, addEdge: seq<SyncError>,
      deleteEdge: seq<SyncError>)

  function File(lists: ErrorLists, report: Report): ErrorLists {
    var e := [SyncError(report.uid, report.cause)];
    match report.action
    case AddResource => lists.(add := lists.add + e)
    case UpdateResource => lists.(update := lists.update + e)
    case DeleteResource => lists.(delete := lists.delete + e)
    case AddEdge => lists.(addEdge := lists.addEdge + e)
    case DeleteEdge => lists.(deleteEdge := lists.deleteEdge + e)
  }

  function Filed(lists: ErrorLists, reports: seq<Report>): ErrorLists {
    if reports == [] then lists else File(Filed(lists, reports[..|reports| - 1]), reports[|reports| - 1])
  }

  function ReportsOn(action: Action): Report -> bool {
    (r: Report) => r.action == action
  }

  /** Each list grows by the number of reports with its action. */
  lemma {:induction false} FiledLengths(lists: ErrorLists, reports: seq<Report>)
    ensures var f := Filed(lists, reports);
      && |f.add| == |lists.add| + CountWhere(reports, ReportsOn(AddResource))
      && |f.update| == |lists.update| + CountWhere(reports, ReportsOn(UpdateResource))
      && |f.delete| == |lists.delete| + CountWhere(reports, ReportsOn(DeleteResource))
      && |f.addEdge| == |lists.addEdge| + CountWhere(reports, ReportsOn(AddEdge))
      && |f.deleteEdge| == |lists.deleteEdge| + CountWhere(reports, ReportsOn(DeleteEdge))
  {
    if reports != [] {
      var n := |reports| - 1;
      FiledLengths(lists, reports[..n]);
      assert reports == reports[..n] + [reports[n]];
      forall action ensures CountWhere(reports, ReportsOn(action))
        == CountWhere(reports[..n], ReportsOn(action)) + (if reports[n].action == action then 1 else 0)
      {
        CountSnoc(reports[..n], reports[n], ReportsOn(action));
      }
    }
  }

  // The database, behind the connection pool.
  class Pool {
    var db: Database

    constructor (db: Database)
      ensures this.db == db
    {
      this.db := db;
    }
  }

  class SyncResponse {
    var TotalAdded: int
    var TotalUpdated: int
    var TotalDeleted: int
    var TotalEdgesAdded: int
    var TotalEdgesDeleted: int
    var AddErrors: seq<SyncError>
    var UpdateErrors: seq<SyncError>
    var DeleteErrors: seq<SyncError>
    var AddEdgeErrors: seq<SyncError>
    var DeleteEdgeErrors: seq<SyncError>

    constructor ()
      ensures Lists() == ErrorLists([], [], [], [], [])
      ensures TotalAdded == TotalUpdated == TotalDeleted == TotalEdgesAdded == TotalEdgesDeleted == 0
    {
      TotalAdded, TotalUpdated, TotalDeleted, TotalEdgesAdded, TotalEdgesDeleted := 0, 0, 0, 0, 0;
      AddErrors, UpdateErrors, DeleteErrors, AddEdgeErrors, DeleteEdgeErrors := [], [], [], [], [];
    }

    function Lists(): ErrorLists
      reads `AddErrors, `UpdateErrors, `DeleteErrors, `AddEdgeErrors, `DeleteEdgeErrors
    {
      ErrorLists(AddErrors, UpdateErrors, DeleteErrors, AddEdgeErrors, DeleteEdgeErrors)
    }
  }

  class BatchWithRetry {
    const batchSize: int
    const pool: Pool
    const response: SyncResponse
    const exec: (Database, Statement) -> Option<Database>  // None: the database rejects the statement
    const net: nat -> Fault                                // what happens to the k-th exchange

    var connError: Option<string>
    var items: seq<BatchItem<Statement>>
    var wg: int
    var goroutines: seq<Stack<Statement>>
    var sends: nat

    ghost const start: Database
    ghost const earlier: ErrorLists
    ghost var reports: seq<Report>
    ghost var accepted: seq<BatchItem<Statement>>
    ghost var refused: seq<BatchItem<Statement>>
    ghost var rejections: seq<Report>
    ghost var log: seq<Entry<Statement>>

    ghost function View(): Engine<Database, Statement>
      reads this, pool
    {
      Engine(pool.db, connError, items, goroutines, wg, reports, sends, accepted, refused, rejections, log)
    }

    ghost predicate Valid()
      reads this, pool, response`AddErrors, response`UpdateErrors, response`DeleteErrors, response`AddEdgeErrors,
        response`DeleteEdgeErrors
    {
      && Inv(exec, net, start, View())
      && response.Lists() == Filed(earlier, reports)
    }

    constructor (
      pool: Pool, response: SyncResponse, batchSize: int, exec: (Database, Statement) -> Option<Database>,
      net: nat -> Fault)
      ensures Valid() && fresh(this) && View() == Fresh(pool.db)
      ensures this.pool == pool && this.response == response && this.batchSize == batchSize
      ensures this.exec == exec && this.net == net
      ensures start == pool.db && earlier == response.Lists()
    {
      this.batchSize, this.pool, this.response, this.exec, this.net := batchSize, pool, response, exec, net;
      connError, items, wg, goroutines, sends := None, [], 0, [], 0;
      start, earlier := pool.db, response.Lists();
      reports, accepted, refused, rejections, log := [], [], [], [], [];
    }

    // Append to the error list that the action selects.
    method Report(report: Report)
      modifies response`AddErrors, response`UpdateErrors, response`DeleteErrors, response`AddEdgeErrors,
        response`DeleteEdgeErrors
      modifies this`reports
      ensures response.Lists() == File(old(response.Lists()), report)
      ensures reports == old(reports) + [report]
    {
      var e := SyncError(report.uid, report.cause);
      match report.action {
        case AddResource => response.AddErrors := response.AddErrors + [e];
        case UpdateResource => response.UpdateErrors := response.UpdateErrors + [e];
        case DeleteResource => response.DeleteErrors := response.DeleteErrors + [e];
        case AddEdge => response.AddEdgeErrors := response.AddEdgeErrors + [e];
        case DeleteEdge => response.DeleteEdgeErrors := response.DeleteEdgeErrors + [e];
      }
      reports := reports + [report];
    }

    // The producer reports an item that it does not queue.
    method Reject(report: Report)
      requires Valid()
      modifies this, response`AddErrors, response`UpdateErrors, response`DeleteErrors, response`AddEdgeErrors,
        response`DeleteEdgeErrors
      ensures Valid() && View() == RejectItem(old(View()), report)
    {
      ghost var e := View();
      Report(report);
      rejections := rejections + [report];
      assert View() == RejectItem(e, report);
      assert Inv(exec, net, start, View()) by { RejectKeeps(exec, net, start, e, report); }
    }

    // Start `sendBatch` on the queued items.
    method Go()
      requires Valid() && items != []
      modifies this
      ensures Valid() && View() == Spawn(old(View()))
    {
      SpawnKeeps(exec, net, start, View());
      var snapshot := items;
      items := [];
      wg := wg + 1;
      goroutines := goroutines + [[ToSend(snapshot)]];
    }

    method Queue(item: BatchItem<Statement>) returns (err: Option<string>)
      requires Valid()
      modifies this
      ensures Valid() && View() == QueueItem(old(View()), batchSize, item) && err == old(connError)
      ensures err.None? ==>
        && accepted == old(accepted) + [item] && refused == old(refused)
        && if |old(items)| + 1 >= batchSize then
             goroutines == old(goroutines) + [[ToSend(old(items) + [item])]] && items == [] && wg == old(wg) + 1
           else
             goroutines == old(goroutines) && items == old(items) + [item] && wg == old(wg)
      ensures err.Some? ==>
        && goroutines == old(goroutines) && items == old(items) && wg == old(wg)
        && accepted == old(accepted) && refused == old(refused) + [item]
    {
      hide Inv;
      ghost var e := View();
      err := connError;
      if connError.Some? {
        refused := refused + [item];
      } else {
        items := items + [item];
        accepted := accepted + [item];
        if |items| >= batchSize {
          var snapshot := items;
          items := [];
          wg := wg + 1;
          goroutines := goroutines + [[ToSend(snapshot)]];
        }
      }
      assert View() == QueueItem(e, batchSize, item);
      assert Inv(exec, net, start, View()) by { QueueKeeps(exec, net, start, e, batchSize, item); }
    }

    method Flush()
      requires Valid()
      modifies this
      ensures Valid() && View() == FlushItems(old(View()))
    {
      if |items| > 0 {
        Go();
      }
    }

    // One exchange with the database: the transaction, its `Exec` error and its `Close` error.
    method Exchange(batch: seq<BatchItem<Statement>>) returns (reply: Reply<Database>)
      modifies pool, this`sends
      ensures reply == BatchEngine.Exchange(exec, old(pool.db), batch, net(old(sends)))
      ensures pool.db == reply.db && sends == old(sends) + 1
    {
      reply := BatchEngine.Exchange(exec, pool.db, batch, net(sends));
      pool.db := reply.db;
      sends := sends + 1;
    }

    /** `sendBatch`, left alone by other goroutines: send everything as one transaction, and if a
        statement fails divide the batch until the failing statements stand alone. */
    method SendBatch(batch: seq<BatchItem<Statement>>) returns (err: Option<string>)
      requires batch != []
      requires response.Lists() == Filed(earlier, reports)
      modifies this`connError, this`wg, this`sends, this`reports, this`log, pool
      modifies response`AddErrors, response`UpdateErrors, response`DeleteErrors, response`AddEdgeErrors,
        response`DeleteEdgeErrors
      ensures Took(old(View()), Bisect.Send(exec, net, old(pool.db), old(connError), old(sends), batch))
      ensures sends > old(sends) && connError == LastLoss(net, old(connError), old(sends), sends)
      ensures wg == old(wg) - 1
      ensures response.Lists() == Filed(earlier, reports)
      decreases |batch|, 1
    {
      hide LastLoss, ConnectionLost;
      Bisect.SendTracesLosses(exec, net, pool.db, connError, sends, batch);
      ghost var e := View();
      var reply := Exchange(batch);
      if reply.closeError.Some? {
        wg := wg - 1;
        log := log + Mark(batch, Dropped(reply.applied, ConnectionLost(reply.closeError.value)));
        ReportedOfMark(batch, Dropped(reply.applied, ConnectionLost(reply.closeError.value)));
        if ConnectionLost(reply.closeError.value) {
          connError := reply.closeError;
          return Some("failed to connect to database");
        }
        return reply.closeError;
      }
      if reply.execFailed && |batch| == 1 {
        wg := wg - 1;
        log := log + Mark(batch, Reported);
        ReportedOfMark(batch, Reported);
        Report(Failure(batch[0]));
        assert Failures(batch) == [Failure(batch[0])];
        return None;
      } else if reply.execFailed {
        wg := wg + 2;
        err := SendHalves(e, batch);
        wg := wg - 1;
        return;
      }
      wg := wg - 1;
      log := log + Mark(batch, Committed);
      ReportedOfMark(batch, Committed);
      return None;
    }

    // The two halves of a failed batch are sent one after the other.
    method SendHalves(
      ghost e: Engine<Database, Statement>, batch: seq<BatchItem<Statement>>)
        returns (err: Option<string>)
      requires batch != [] && Judge(BatchEngine.Exchange(exec, e.db, batch, net(e.sends)), batch).Split?
      requires pool.db == e.db && connError == e.connError && sends == e.sends + 1 && log == e.log &&
        reports == e.reports
      requires response.Lists() == Filed(earlier, reports)
      modifies this`connError, this`wg, this`sends, this`reports, this`log, pool
      modifies response`AddErrors, response`UpdateErrors, response`DeleteErrors, response`AddEdgeErrors,
        response`DeleteEdgeErrors
      ensures Took(e, Bisect.Send(exec, net, e.db, e.connError, e.sends, batch))
      ensures wg == old(wg) - 2
      ensures response.Lists() == Filed(earlier, reports)
      decreases |batch|, 0
    {
      hide Bisect.Send, LastLoss, Loses, Filed, Failures, ReportedOf;
      ghost var l, r, a, b := Bisect.SendSplits(exec, net, e.db, e.connError, e.sends, batch);
      var err1 := SendBatch(batch[..|batch| / 2]);
      assert Took(e, a);
      var err2 := SendBatch(batch[|batch| / 2..]);
      assert pool.db == b.db && connError == b.connError && sends == b.sends;
      assert log == e.log + (a.log + b.log);
      ReportsJoin(e.reports, a.log, b.log);
      // An error is returned unless both halves returned one.
      if err1.Some? && err2.Some? {
        return None;
      }
      return Some("statement failed");
    }

    // The database, the log and the reports moved on from `before` by what `sent` says.
    ghost predicate Took(before: Engine<Database, Statement>, sent: Bisect.Sent<Database, Statement>)
      reads this, pool
    {
      && pool.db == sent.db && connError == sent.connError && sends == sent.sends
      && log == before.log + sent.log
      && reports == before.reports + Failures(ReportedOf(sent.log))
    }

    // One step of goroutine `i`.
    method Advance(i: nat)
      requires Enabled(View(), i) && response.Lists() == Filed(earlier, reports)
      modifies this`connError, this`wg, this`goroutines, this`sends, this`reports, this`log, pool
      modifies response`AddErrors, response`UpdateErrors, response`DeleteErrors, response`AddEdgeErrors,
        response`DeleteEdgeErrors
      ensures View() == BatchEngine.Advance(exec, net, old(View()), i)
      ensures response.Lists() == Filed(earlier, reports)
    {
      hide BatchEngine.Exchange, ConnectionLost, Judge, Mark, Failures, Filed;
      var stack := goroutines[i];
      match stack[0] {
        case Return =>
          wg := wg - 1;
          goroutines := goroutines[i := stack[1..]];
        case ToSend(batch) =>
          var reply := Exchange(batch);
          connError := ErrorAfter(reply, connError);
          match Judge(reply, batch) {
            case Final(fate) =>
              wg := wg - 1;
              goroutines := goroutines[i := stack[1..]];
              Conclude(reply, batch, fate);
            case Split =>
              wg := wg + 2;
              var halves := [ToSend(batch[..|batch| / 2]), ToSend(batch[|batch| / 2..]), Return];
              goroutines := goroutines[i := halves + stack[1..]];
          }
      }
    }

    // Record the fate of a batch; a statement that failed on its own is reported.
    method Conclude(reply: Reply<Database>, batch: seq<BatchItem<Statement>>, fate: Fate)
      requires Judge(reply, batch) == Final(fate) && response.Lists() == Filed(earlier, reports)
      modifies this`reports, this`log
      modifies response`AddErrors, response`UpdateErrors, response`DeleteErrors, response`AddEdgeErrors,
        response`DeleteEdgeErrors
      ensures log == old(log) + Mark(batch, fate)
      ensures reports == old(reports) + (if fate.Reported? then Failures(batch) else [])
      ensures response.Lists() == Filed(earlier, reports)
    {
      log := log + Mark(batch, fate);
      if fate.Reported? {
        OnlySinglesAreReported(reply, batch);
        OneFailure(batch);
        Report(Failure(batch[0]));
      }
    }

    // What only the producer changes.
    ghost predicate ProducerUnchanged(before: Engine<Database, Statement>)
      reads this, pool
    {
      && items == before.items && accepted == before.accepted && refused == before.refused
      && rejections == before.rejections
      && (before.connError.Some? ==> connError.Some?) && before.sends <= sends
    }

    method Tick(i: nat)
      requires Valid() && Enabled(View(), i)
      modifies this, pool, response`AddErrors, response`UpdateErrors, response`DeleteErrors, response`AddEdgeErrors,
        response`DeleteEdgeErrors
      ensures Valid() && ProducerUnchanged(old(View())) && Work(goroutines) < old(Work(goroutines))
    {
      hide BatchEngine.Advance;
      ghost var e := View();
      Advance(i);
      AdvanceKeepsProducer(exec, net, e, i);
      assert Inv(exec, net, start, View()) by { AdvanceKeeps(exec, net, start, e, i); }
      assert Work(goroutines) < Work(e.goroutines) by { AdvanceStack(exec, net, e, i); }
    }

    // The scheduler runs started goroutines for as long as it likes.
    method Preempt()
      requires Valid()
      modifies this, pool, response`AddErrors, response`UpdateErrors, response`DeleteErrors, response`AddEdgeErrors,
        response`DeleteEdgeErrors
      ensures Valid() && ProducerUnchanged(old(View()))
    {
      var quantum: nat :| true;
      while quantum > 0
        invariant Valid() && ProducerUnchanged(old(View()))
      {
        if i :| 0 <= i < |goroutines| && goroutines[i] != [] {
          Tick(i);
        }
        quantum := quantum - 1;
      }
    }

    /** `wg.Wait()`: the started goroutines run, in any order, until the counter is zero. */
    method Wait()
      requires Valid()
      modifies this, pool, response`AddErrors, response`UpdateErrors, response`DeleteErrors, response`AddEdgeErrors,
        response`DeleteEdgeErrors
      ensures Valid() && ProducerUnchanged(old(View())) && wg == 0
    {
      while wg > 0
        invariant Valid() && ProducerUnchanged(old(View()))
        decreases Work(goroutines)
      {
        ghost var some := SomeCallEnabled(goroutines);
        var i: nat :| i < |goroutines| && goroutines[i] != [];
        Tick(i);
      }
    }

    // Everything the producer tried to queue, in order.
    ghost function Offered(): seq<BatchItem<Statement>>
      reads this
    {
      accepted + refused
    }

    // Queue an item while the started goroutines run on.
    method Submit(item: BatchItem<Statement>) returns (err: Option<string>)
      requires Valid()
      modifies this, pool, response`AddErrors, response`UpdateErrors, response`DeleteErrors, response`AddEdgeErrors,
        response`DeleteEdgeErrors
      ensures Valid()
      ensures Offered() == old(Offered()) + [item] && rejections == old(rejections)
      ensures err.Some? ==> connError.Some? && refused != [] && LostWith(net, err.value, 0, sends)
      ensures old(sends) <= sends
      ensures err.None? ==> refused == []
      ensures old(connError).Some? ==> connError.Some?
      ensures old(refused) != [] ==> refused != [] && accepted == old(accepted)
      ensures old(accepted) <= accepted
    {
      Preempt();
      QueueOffers(View(), batchSize, item);
      LastLossIsLost(net, None, 0, sends);
      err := Queue(item);
    }

    // What is known at any time.
    lemma SoFar()
      requires Valid()
      ensures Explains(exec, start, log, pool.db)
      ensures multiset(ItemsOf(log)) <= multiset(accepted)
      ensures response.Lists() == Filed(earlier, reports)
      ensures multiset(reports) == multiset(rejections) + multiset(Failures(ReportedOf(log)))
      ensures refused != [] ==> LostIn(log)
      ensures LostIn(log) <==> exists k | 0 <= k < sends :: Loses(net(k))
      ensures NothingDropped(log) <==> forall k | 0 <= k < sends :: net(k).Clean?
    {
      LastLossIsLost(net, None, 0, sends);
    }

    // What is known once everything was sent and waited for.
    ghost predicate Finished()
      reads this, pool, response`AddErrors, response`UpdateErrors, response`DeleteErrors, response`AddEdgeErrors,
        response`DeleteEdgeErrors
    {
      && Explains(exec, start, log, pool.db)
      && multiset(accepted) == multiset(ItemsOf(log))
      && response.Lists() == Filed(earlier, reports)
      && multiset(reports) == multiset(rejections) + multiset(Failures(ReportedOf(log)))
      && (connError.None? <==> !LostIn(log))
      && (connError.None? ==> refused == [])
      && connError == LastLoss(net, None, 0, sends)
      && (accepted != [] ==> sends > 0)
      && (NothingDropped(log) <==> forall k | 0 <= k < sends :: net(k).Clean?)
    }

    // Send what is left and wait for all of it.
    method Finish()
      requires Valid()
      modifies this, pool, response`AddErrors, response`UpdateErrors, response`DeleteErrors, response`AddEdgeErrors,
        response`DeleteEdgeErrors
      ensures Valid() && wg == 0 && items == []
      ensures Finished()
      ensures accepted == old(accepted) && refused == old(refused) && rejections == old(rejections)
      ensures old(connError).Some? ==> connError.Some?
      ensures old(sends) <= sends
    {
      Flush();
      Wait();
      QuiescentAccounts(exec, net, start, View());
    }
  }
}
