/** `sendBatch` run to completion without interference: what it does to the database, which
    statements it reports, how many round trips it makes, and that the stack machine of
    BatchEngine takes the same course when only that goroutine is scheduled. */
module Bisect {
  import opened Options
  import opened Serial
  import opened BatchEngine

  datatype Sent<S, T> = Sent(db: S, connError: Option<string>, sends: nat, log: seq<Entry<T>>)

  function Send<S, T>(
    exec: (S, T) -> Option<S>, net: nat -> Fault, s: S, connError: Option<string>, sends: nat,
    items: seq<BatchItem<T>>): Sent<S, T>
    requires items != []
    decreases |items|
  {
    var reply := Exchange(exec, s, items, net(sends));
    var connError' := ErrorAfter(reply, connError);
    match Judge(reply, items)
    case Final(fate) => Sent(reply.db, connError', sends + 1, Mark(items, fate))
    case Split =>
      var a := Send(exec, net, reply.db, connError', sends + 1, items[..|items| / 2]);
      var b := Send(exec, net, a.db, a.connError, a.sends, items[|items| / 2..]);
      Sent(b.db, b.connError, b.sends, a.log + b.log)
  }

  lemma SendSplits<S, T>(
    exec: (S, T) -> Option<S>, net: nat -> Fault, s: S, connError: Option<string>, sends: nat,
    items: seq<BatchItem<T>>)
      returns (l: seq<BatchItem<T>>, r: seq<BatchItem<T>>, a: Sent<S, T>, b: Sent<S, T>)
    requires items != [] && Judge(Exchange(exec, s, items, net(sends)), items).Split?
    ensures l == items[..|items| / 2] && r == items[|items| / 2..] && l != [] && r != []
    ensures a == Send(exec, net, s, connError, sends + 1, l) && b == Send(exec, net, a.db, a.connError, a.sends, r)
    ensures Send(exec, net, s, connError, sends, items) == Sent(b.db, b.connError, b.sends, a.log + b.log)
  {
    ExchangeExplains(exec, s, items, net(sends));
    l, r := items[..|items| / 2], items[|items| / 2..];
    a := Send(exec, net, s, connError, sends + 1, l);
    b := Send(exec, net, a.db, a.connError, a.sends, r);
  }

  lemma SendFinishes<S, T>(
    exec: (S, T) -> Option<S>, net: nat -> Fault, s: S, connError: Option<string>, sends: nat,
    items: seq<BatchItem<T>>)
    requires items != [] && Judge(Exchange(exec, s, items, net(sends)), items).Final?
    ensures var reply := Exchange(exec, s, items, net(sends));
      Send(exec, net, s, connError, sends, items)
      == Sent(reply.db, ErrorAfter(reply, connError), sends + 1, Mark(items, Judge(reply, items).fate))
  {
  }

  /** Whatever the connection does, every statement of the batch gets exactly one fate, in order,
      and walking the statements one at a time with those fates produces the final state. */
  lemma {:induction false} SendAccounts<S, T>(
    exec: (S, T) -> Option<S>, net: nat -> Fault, s: S, connError: Option<string>, sends: nat,
    items: seq<BatchItem<T>>)
    requires items != []
    ensures var r := Send(exec, net, s, connError, sends, items);
      && ItemsOf(r.log) == items
      && Explains(exec, s, r.log, r.db)
      && (r.connError.Some? <==> connError.Some? || LostIn(r.log))
      && ((forall k :: net(k).Clean?) ==> NothingDropped(r.log))
    decreases |items|
  {
    hide Send, Explains, Transact, LostIn;
    var reply := Exchange(exec, s, items, net(sends));
    ExchangeExplains(exec, s, items, net(sends));
    if Judge(reply, items).Final? {
      var fate := Judge(reply, items).fate;
      SendFinishes(exec, net, s, connError, sends, items);
      LostNowhere<T>();
      LostAfter([], items, fate);
      assert [] + Mark(items, fate) == Mark(items, fate);
    } else {
      var l, r, a, b := SendSplits(exec, net, s, connError, sends, items);
      SendAccounts(exec, net, s, connError, sends + 1, l);
      SendAccounts(exec, net, a.db, a.connError, a.sends, r);
      assert l + r == items;
      assert ItemsOf(a.log + b.log) == ItemsOf(a.log) + ItemsOf(b.log);
      ExplainsConcat(exec, s, a.log, a.db, b.log, b.db);
      LostConcat(a.log, b.log);
    }
  }

  lemma LostNowhere<T>()
    ensures !LostIn<T>([])
  {
  }

  lemma LostConcat<T>(a: seq<Entry<T>>, b: seq<Entry<T>>)
    ensures LostIn(a + b) <==> LostIn(a) || LostIn(b)
  {
    if LostIn(a) {
      var k :| 0 <= k < |a| && a[k].fate.Dropped? && a[k].fate.lost;
      assert (a + b)[k] == a[k];
    } else if LostIn(b) {
      var k :| 0 <= k < |b| && b[k].fate.Dropped? && b[k].fate.lost;
      assert (a + b)[|a| + k] == b[k];
    }
  }

  /** The bisecting retry refines one-at-a-time execution: with a connection that holds, it ends in
      exactly the state of applying the statements left to right and skipping each that fails
      where it is reached, and it reports exactly the skipped statements in that order. */
  lemma SendRefinesSerial<S, T>(
    exec: (S, T) -> Option<S>, net: nat -> Fault, s: S, connError: Option<string>, sends: nat,
    items: seq<BatchItem<T>>)
    requires items != [] && forall k :: net(k).Clean?
    ensures var r := Send(exec, net, s, connError, sends, items);
      r.db == After(exec, s, items) && ReportedOf(r.log) == Skipped(exec, s, items) && r.connError == connError
  {
    SendAccounts(exec, net, s, connError, sends, items);
    var r := Send(exec, net, s, connError, sends, items);
    CleanLogIsSerial(exec, s, r.log, r.db);
    SendTracesLosses(exec, net, s, connError, sends, items);
  }

  /** The connection error that a batch leaves is that of the last of its exchanges which lost the
      connection, if one did. */
  lemma {:induction false} SendTracesLosses<S, T>(
    exec: (S, T) -> Option<S>, net: nat -> Fault, s: S, connError: Option<string>, sends: nat,
    items: seq<BatchItem<T>>)
    requires items != []
    ensures var r := Send(exec, net, s, connError, sends, items);
      sends < r.sends && r.connError == LastLoss(net, connError, sends, r.sends)
    decreases |items|
  {
    hide Send, Transact, ConnectionLost;
    var reply := Exchange(exec, s, items, net(sends));
    ExchangeExplains(exec, s, items, net(sends));
    LosesIffConnectionLost(net(sends));
    if Judge(reply, items).Final? {
      SendFinishes(exec, net, s, connError, sends, items);
    } else {
      var l, r, a, b := SendSplits(exec, net, s, connError, sends, items);
      SendTracesLosses(exec, net, s, connError, sends + 1, l);
      SendTracesLosses(exec, net, a.db, a.connError, a.sends, r);
      LastLossJoins(net, connError, sends + 1, a.sends, b.sends);
      LastLossJoins(net, connError, sends, sends + 1, b.sends);
    }
  }

  // ----- Round trips -----

  function CeilLog2(n: nat): nat {
    if n <= 1 then 0 else 1 + CeilLog2((n + 1) / 2)
  }

  lemma {:induction false} CeilLog2Monotone(m: nat, n: nat)
    requires m <= n
    ensures CeilLog2(m) <= CeilLog2(n)
    decreases n
  {
    if m > 1 { CeilLog2Monotone((m + 1) / 2, (n + 1) / 2); }
  }

  function Uncommitted<T>(log: seq<Entry<T>>): nat {
    if log == [] then 0 else (if log[0].fate.Committed? then 0 else 1) + Uncommitted(log[1..])
  }

  lemma {:induction false} UncommittedConcat<T>(a: seq<Entry<T>>, b: seq<Entry<T>>)
    ensures Uncommitted(a + b) == Uncommitted(a) + Uncommitted(b)
  {
    if a == [] {
      assert a + b == b;
    } else {
      assert (a + b)[1..] == a[1..] + b;
      UncommittedConcat(a[1..], b);
    }
  }

  lemma {:induction false} UncommittedOf<T>(log: seq<Entry<T>>)
    ensures Uncommitted(log) == 0 <==> AllCommitted(log)
    ensures Uncommitted(log) <= |log|
    ensures Uncommitted(log) == |ReportedOf(log)| || !NothingDropped(log)
    ensures |ReportedOf(log)| <= |log|
  {
    if log != [] {
      UncommittedOf(log[1..]);
      assert forall i | 1 <= i < |log| :: log[i] == log[1..][i - 1];
    }
  }

  // k times ceil(log2 n), by repeated addition.
  function Levels(k: nat, n: nat): nat {
    if k == 0 then 0 else CeilLog2(n) + Levels(k - 1, n)
  }

  lemma {:induction false} LevelsIsProduct(k: nat, n: nat)
    ensures Levels(k, n) == k * CeilLog2(n)
  {
    if k > 0 { LevelsIsProduct(k - 1, n); }
  }

  lemma {:induction false} LevelsSum(k1: nat, k2: nat, n: nat)
    ensures Levels(k1 + k2, n) == Levels(k1, n) + Levels(k2, n)
  {
    if k1 > 0 { LevelsSum(k1 - 1, k2, n); }
  }

  lemma {:induction false} LevelsDoubling(k: nat, m: nat, n: nat)
    requires n > 1 && m <= (n + 1) / 2
    ensures Levels(k, n) >= k + Levels(k, m)
  {
    CeilLog2Monotone(m, (n + 1) / 2);
    if k > 0 { LevelsDoubling(k - 1, m, n); }
  }

  // `trips` round trips are within the bound for a batch of n statements, k of them uncommitted.
  predicate WithinBound(trips: int, k: nat, n: nat) {
    1 <= trips <= 2 * n - 1 && (k == 0 ==> trips == 1) && trips <= 1 + 2 * Levels(k, n)
  }

  lemma BoundStep(t1: int, k1: nat, n1: nat, t2: int, k2: nat, n2: nat)
    requires n1 <= n2 <= n1 + 1 && 1 <= n1 && k1 + k2 >= 1
    requires WithinBound(t1, k1, n1) && WithinBound(t2, k2, n2)
    ensures WithinBound(1 + t1 + t2, k1 + k2, n1 + n2)
  {
    LevelsDoubling(k1, n1, n1 + n2);
    LevelsDoubling(k2, n2, n1 + n2);
    LevelsSum(k1, k2, n1 + n2);
  }

  // In a batch that had to be divided something is left uncommitted.
  lemma DividedLeavesUncommitted<S, T>(
    exec: (S, T) -> Option<S>, net: nat -> Fault, s: S, connError: Option<string>, sends: nat,
    items: seq<BatchItem<T>>)
    requires items != [] && Transact(exec, s, items).None?
    ensures Uncommitted(Send(exec, net, s, connError, sends, items).log) > 0
  {
    var r := Send(exec, net, s, connError, sends, items);
    SendAccounts(exec, net, s, connError, sends, items);
    UncommittedOf(r.log);
    if Uncommitted(r.log) == 0 { CommittedLogIsTransaction(exec, s, r.log, r.db); }
  }

  lemma {:induction false} RoundTripsWithinBound<S, T>(
    exec: (S, T) -> Option<S>, net: nat -> Fault, s: S, connError: Option<string>, sends: nat,
    items: seq<BatchItem<T>>)
    requires items != []
    ensures var r := Send(exec, net, s, connError, sends, items);
      WithinBound(r.sends - sends, Uncommitted(r.log), |items|)
    decreases |items|
  {
    hide Send, Transact, Exchange, Uncommitted;
    if Judge(Exchange(exec, s, items, net(sends)), items).Split? {
      ExchangeExplains(exec, s, items, net(sends));
      DividedLeavesUncommitted(exec, net, s, connError, sends, items);
      var l, r, a, b := SendSplits(exec, net, s, connError, sends, items);
      UncommittedConcat(a.log, b.log);
      RoundTripsWithinBound(exec, net, s, connError, sends + 1, l);
      RoundTripsWithinBound(exec, net, a.db, a.connError, a.sends, r);
      BoundStep(a.sends - sends - 1, Uncommitted(a.log), |l|, b.sends - a.sends, Uncommitted(b.log), |r|);
    } else {
      SendFinishes(exec, net, s, connError, sends, items);
      UncommittedOfMark(items, Judge(Exchange(exec, s, items, net(sends)), items).fate);
    }
  }

  lemma {:induction false} UncommittedOfMark<T>(items: seq<BatchItem<T>>, fate: Fate)
    ensures Uncommitted(Mark(items, fate)) == if fate.Committed? then 0 else |items|
  {
    if items != [] {
      assert Mark(items, fate)[1..] == Mark(items[1..], fate);
      UncommittedOfMark(items[1..], fate);
    }
  }

  /** Round trips of a batch of n statements of which k end uncommitted: one if k = 0, and at most
      min(2n - 1, 1 + 2k * ceil(log2 n)) in any case. */
  lemma RoundTrips<S, T>(
    exec: (S, T) -> Option<S>, net: nat -> Fault, s: S, connError: Option<string>, sends: nat,
    items: seq<BatchItem<T>>)
    requires items != []
    ensures var r := Send(exec, net, s, connError, sends, items);
      var k := Uncommitted(r.log);
      && sends < r.sends <= sends + 2 * |items| - 1
      && (k == 0 ==> r.sends == sends + 1)
      && r.sends <= sends + 1 + 2 * (k * CeilLog2(|items|))
  {
    RoundTripsWithinBound(exec, net, s, connError, sends, items);
    LevelsIsProduct(Uncommitted(Send(exec, net, s, connError, sends, items).log), |items|);
  }

  /** When every statement is reported the retry degenerates to exactly 2n - 1 round trips. */
  lemma {:induction false} AllReportedRoundTrips<S, T>(
    exec: (S, T) -> Option<S>, net: nat -> Fault, s: S, connError: Option<string>, sends: nat,
    items: seq<BatchItem<T>>)
    requires items != []
    requires |ReportedOf(Send(exec, net, s, connError, sends, items).log)| == |items|
    ensures Send(exec, net, s, connError, sends, items).sends == sends + 2 * |items| - 1
    decreases |items|
  {
    hide Send, Transact, Exchange;
    if Judge(Exchange(exec, s, items, net(sends)), items).Final? {
      SendFinishes(exec, net, s, connError, sends, items);
      ReportedOfMark(items, Judge(Exchange(exec, s, items, net(sends)), items).fate);
    } else {
      var l, r, a, b := SendSplits(exec, net, s, connError, sends, items);
      SendAccounts(exec, net, s, connError, sends + 1, l);
      SendAccounts(exec, net, a.db, a.connError, a.sends, r);
      assert |ItemsOf(a.log)| == |l| && |ItemsOf(b.log)| == |r|;
      ReportedConcat(a.log, b.log);
      UncommittedOf(a.log);
      UncommittedOf(b.log);
      AllReportedRoundTrips(exec, net, s, connError, sends + 1, l);
      AllReportedRoundTrips(exec, net, a.db, a.connError, a.sends, r);
    }
  }

  // ----- The stack machine agrees with the recursion -----

  // The engine once the top call of goroutine `i` has run to completion on its own.
  function Completed<S, T>(e: Engine<S, T>, i: nat, sent: Sent<S, T>): Engine<S, T>
    requires Enabled(e, i)
  {
    e.(db := sent.db, connError := sent.connError, sends := sent.sends,
       goroutines := e.goroutines[i := e.goroutines[i][1..]], wg := e.wg - 1,
       log := e.log + sent.log, reports := e.reports + Failures(ReportedOf(sent.log)))
  }

  lemma {:induction false} StepsConcat<S, T>(
    exec: (S, T) -> Option<S>, net: nat -> Fault, batchSize: int, e: Engine<S, T>, a: seq<Move<T>>, b: seq<Move<T>>)
    ensures Steps(exec, net, batchSize, e, a + b) == Steps(exec, net, batchSize, Steps(exec, net, batchSize, e, a), b)
    decreases |a|
  {
    if a == [] {
      assert a + b == b;
    } else {
      assert (a + b)[1..] == a[1..] + b;
      StepsConcat(exec, net, batchSize, Step(exec, net, batchSize, e, a[0]), a[1..], b);
    }
  }

  lemma OneStep<S, T>(exec: (S, T) -> Option<S>, net: nat -> Fault, batchSize: int, e: Engine<S, T>, i: nat)
    requires Enabled(e, i)
    ensures Steps(exec, net, batchSize, e, [Run(i)]) == Advance(exec, net, e, i)
  {
  }

  // Running e through `first`, `a`, `b` and a last return, one after the other.
  lemma JoinMoves<S, T>(
    exec: (S, T) -> Option<S>, net: nat -> Fault, batchSize: int, e: Engine<S, T>, i: nat, a: seq<Move<T>>,
    e2: Engine<S, T>, b: seq<Move<T>>, e3: Engine<S, T>)
      returns (moves: seq<Move<T>>)
    requires Enabled(e, i) && Enabled(e3, i)
    requires Steps(exec, net, batchSize, Advance(exec, net, e, i), a) == e2 && Steps(exec, net, batchSize, e2, b) == e3
    requires forall m | 0 <= m < |a| :: a[m] == Run(i)
    requires forall m | 0 <= m < |b| :: b[m] == Run(i)
    ensures forall m | 0 <= m < |moves| :: moves[m] == Run(i)
    ensures Steps(exec, net, batchSize, e, moves) == Advance(exec, net, e3, i)
  {
    OneStep(exec, net, batchSize, e, i);
    OneStep(exec, net, batchSize, e3, i);
    StepsConcat(exec, net, batchSize, e, [Run(i)], a);
    StepsConcat(exec, net, batchSize, e, [Run(i)] + a, b);
    StepsConcat(exec, net, batchSize, e, [Run(i)] + a + b, [Run(i)]);
    moves := [Run(i)] + a + b + [Run(i)];
  }

  lemma AdvanceSplits<S, T>(
    exec: (S, T) -> Option<S>, net: nat -> Fault, e: Engine<S, T>, i: nat, l: seq<BatchItem<T>>,
    r: seq<BatchItem<T>>)
    requires Enabled(e, i) && e.goroutines[i][0].ToSend?
    requires var items := e.goroutines[i][0].items;
      && Judge(Exchange(exec, e.db, items, net(e.sends)), items).Split?
      && l == items[..|items| / 2] && r == items[|items| / 2..]
    ensures Advance(exec, net, e, i) == Halved(e, i, l, r)
  {
  }

  lemma AdvanceFinishes<S, T>(exec: (S, T) -> Option<S>, net: nat -> Fault, e: Engine<S, T>, i: nat)
    requires Enabled(e, i) && e.goroutines[i][0].ToSend? && e.goroutines[i][0].items != []
    requires var items := e.goroutines[i][0].items;
      Judge(Exchange(exec, e.db, items, net(e.sends)), items).Final?
    ensures Advance(exec, net, e, i)
            == Completed(e, i, Send(exec, net, e.db, e.connError, e.sends, e.goroutines[i][0].items))
  {
    var items := e.goroutines[i][0].items;
    ReportedOfMark(items, Judge(Exchange(exec, e.db, items, net(e.sends)), items).fate);
    assert Failures<T>([]) == [];
  }

  // Running the two halves and the last return takes the engine through the divided call.
  lemma JoinHalves<S, T>(
    exec: (S, T) -> Option<S>, net: nat -> Fault, batchSize: int, e: Engine<S, T>, i: nat, l: seq<BatchItem<T>>,
    r: seq<BatchItem<T>>, a: Sent<S, T>, movesA: seq<Move<T>>, b: Sent<S, T>, movesB: seq<Move<T>>)
      returns (moves: seq<Move<T>>)
    requires Enabled(e, i) && Enabled(Halved(e, i, l, r), i) && Enabled(Completed(Halved(e, i, l, r), i, a), i)
    requires Advance(exec, net, e, i) == Halved(e, i, l, r)
    requires Steps(exec, net, batchSize, Halved(e, i, l, r), movesA) == Completed(Halved(e, i, l, r), i, a)
    requires Steps(exec, net, batchSize, Completed(Halved(e, i, l, r), i, a), movesB)
             == Completed(Completed(Halved(e, i, l, r), i, a), i, b)
    requires forall m | 0 <= m < |movesA| :: movesA[m] == Run(i)
    requires forall m | 0 <= m < |movesB| :: movesB[m] == Run(i)
    ensures forall m | 0 <= m < |moves| :: moves[m] == Run(i)
    ensures Steps(exec, net, batchSize, e, moves) == Completed(e, i, Sent(b.db, b.connError, b.sends, a.log + b.log))
  {
    CompletedTwice(e, i, l, r, a, b);
    var e2 := Completed(Halved(e, i, l, r), i, a);
    var e3 := Completed(e2, i, b);
    HalvedStack(e, i, l, r);
    assert e3.goroutines[i] == Halved(e, i, l, r).goroutines[i][1..][1..];
    assert Advance(exec, net, e3, i) == Returned(e3, i);
    moves := JoinMoves(exec, net, batchSize, e, i, movesA, e2, movesB, e3);
  }

  /** Scheduling only goroutine `i` takes the stack machine through the recursion of `sendBatch`:
      some number of its steps pops the call and leaves exactly the recursive result. */
  lemma {:induction false} MachineRunsSend<S, T>(
    exec: (S, T) -> Option<S>, net: nat -> Fault, batchSize: int, e: Engine<S, T>, i: nat, items: seq<BatchItem<T>>)
      returns (moves: seq<Move<T>>)
    requires Enabled(e, i) && e.goroutines[i][0] == ToSend(items) && items != []
    ensures forall m | 0 <= m < |moves| :: moves[m] == Run(i)
    ensures Steps(exec, net, batchSize, e, moves)
            == Completed(e, i, Send(exec, net, e.db, e.connError, e.sends, items))
    decreases |items|
  {
    hide Send, Exchange, Transact, Advance, Steps, Step;
    if Judge(Exchange(exec, e.db, items, net(e.sends)), items).Final? {
      moves := [Run(i)];
      OneStep(exec, net, batchSize, e, i);
      AdvanceFinishes(exec, net, e, i);
    } else {
      var l, r, a, b := SendSplits(exec, net, e.db, e.connError, e.sends, items);
      AdvanceSplits(exec, net, e, i, l, r);
      HalvedStack(e, i, l, r);
      var movesA := MachineRunsSend(exec, net, batchSize, Halved(e, i, l, r), i, l);
      var e2 := Completed(Halved(e, i, l, r), i, a);
      assert e2.goroutines[i] == Halved(e, i, l, r).goroutines[i][1..];
      var movesB := MachineRunsSend(exec, net, batchSize, e2, i, r);
      moves := JoinHalves(exec, net, batchSize, e, i, l, r, a, movesA, b, movesB);
    }
  }

  // The engine after the top call of goroutine `i` was divided.
  function Halved<S, T>(e: Engine<S, T>, i: nat, l: seq<BatchItem<T>>, r: seq<BatchItem<T>>): Engine<S, T>
    requires Enabled(e, i)
  {
    e.(sends := e.sends + 1, wg := e.wg + 2,
       goroutines := e.goroutines[i := [ToSend(l), ToSend(r), Return] + e.goroutines[i][1..]])
  }

  function Returned<S, T>(e: Engine<S, T>, i: nat): Engine<S, T>
    requires Enabled(e, i)
  {
    e.(goroutines := e.goroutines[i := e.goroutines[i][1..]], wg := e.wg - 1)
  }

  lemma HalvedStack<S, T>(e: Engine<S, T>, i: nat, l: seq<BatchItem<T>>, r: seq<BatchItem<T>>)
    requires Enabled(e, i)
    ensures var stack := Halved(e, i, l, r).goroutines[i];
      && stack != [] && stack[0] == ToSend(l)
      && stack[1..] != [] && stack[1..][0] == ToSend(r)
      && stack[1..][1..] != [] && stack[1..][1..][0] == Return
      && stack[1..][1..][1..] == e.goroutines[i][1..]
  {
  }

  // Completing both halves and returning is completing the divided call.
  lemma CompletedTwice<S, T>(
    e: Engine<S, T>, i: nat, l: seq<BatchItem<T>>, r: seq<BatchItem<T>>, a: Sent<S, T>, b: Sent<S, T>)
    requires Enabled(e, i)
    ensures var e1 := Halved(e, i, l, r);
      && Enabled(e1, i) && Enabled(Completed(e1, i, a), i)
      && Enabled(Completed(Completed(e1, i, a), i, b), i)
      && Returned(Completed(Completed(e1, i, a), i, b), i)
        == Completed(e, i, Sent(b.db, b.connError, b.sends, a.log + b.log))
  {
    HalvedStack(e, i, l, r);
    var e1 := Halved(e, i, l, r);
    var e3 := Completed(Completed(e1, i, a), i, b);
    assert e3.goroutines[i] == e1.goroutines[i][1..][1..];
    assert Returned(e3, i).goroutines == e.goroutines[i := e.goroutines[i][1..]];
    ReportedConcat(a.log, b.log);
    assert Failures(ReportedOf(a.log + b.log)) == Failures(ReportedOf(a.log)) + Failures(ReportedOf(b.log));
    assert e.log + (a.log + b.log) == e.log + a.log + b.log;
  }
}
