/** The batch queue as a state machine whose steps interleave arbitrarily.

    A goroutine running `sendBatch` is a stack of calls. `ToSend` is a call that has not talked to
    the database yet, `Return` a call whose two halves sit above it on the stack. One step of a
    goroutine is one exchange with the database, or the return of a finished call; the producer
    that queues, rejects and flushes interleaves with all of them. `net` decides, for the k-th
    exchange, whether the connection holds. */
module BatchEngine {
  import opened Options
  import opened Serial

  // ----- One exchange with the database -----

  predicate OccursAt(text: string, part: string, i: nat) {
    i + |part| <= |text| && text[i..i + |part|] == part
  }

  predicate Contains(text: string, part: string) {
    exists i | 0 <= i <= |text| :: OccursAt(text, part, i)
  }

  predicate ConnectionLost(message: string) {
    Contains(message, "unexpected EOF") || Contains(message, "failed to connect")
  }

  // Closing the batch may fail, whether or not the transaction had already taken effect.
  datatype Fault = Clean | CloseError(message: string, applied: bool)

  ghost predicate Has(text: string, part: string) {
    exists a, b :: text == a + part + b
  }

  lemma ContainsIffHas(text: string, part: string)
    ensures Contains(text, part) <==> Has(text, part)
  {
    if Contains(text, part) {
      var i :| 0 <= i <= |text| && OccursAt(text, part, i);
      assert text == text[..i] + part + text[i + |part|..];
    }
    if Has(text, part) {
      var a, b :| text == a + part + b;
      assert OccursAt(text, part, |a|);
    }
  }

  // The faults that lose the connection: a close error whose text has one of two phrases in it.
  ghost predicate Loses(fault: Fault) {
    fault.CloseError? && (Has(fault.message, "failed to connect") || Has(fault.message, "unexpected EOF"))
  }

  /** What the code looks for in a close error is exactly a lost connection. */
  lemma LosesIffConnectionLost(fault: Fault)
    ensures Loses(fault) <==> fault.CloseError? && ConnectionLost(fault.message)
  {
    if fault.CloseError? {
      ContainsIffHas(fault.message, "failed to connect");
      ContainsIffHas(fault.message, "unexpected EOF");
    }
  }

  // The connection error after the exchanges `from` to `end`, if it was `before` in front of them.
  ghost function LastLoss(net: nat -> Fault, before: Option<string>, from: nat, end: nat): (r: Option<string>)
    ensures (forall k | from <= k < end :: !Loses(net(k))) ==> r == before
    ensures r.None? ==> (forall k | from <= k < end :: !Loses(net(k)))
    decreases end
  {
    if end <= from then before
    else if Loses(net(end - 1)) then Some(net(end - 1).message)
    else LastLoss(net, before, from, end - 1)
  }

  lemma {:induction false} LastLossJoins(net: nat -> Fault, before: Option<string>, from: nat, mid: nat, end: nat)
    requires from <= mid <= end
    ensures LastLoss(net, LastLoss(net, before, from, mid), mid, end) == LastLoss(net, before, from, end)
  {
    if mid < end {
      LastLossJoins(net, before, from, mid, end - 1);
    }
  }

  // An error is that of one of the exchanges `from` to `end` which lost the connection.
  ghost predicate LostWith(net: nat -> Fault, message: string, from: nat, end: nat) {
    exists k | from <= k < end :: Loses(net(k)) && net(k).message == message
  }

  lemma LostBefore(net: nat -> Fault, message: string, from: nat, mid: nat, end: nat)
    requires mid <= end && LostWith(net, message, from, mid)
    ensures LostWith(net, message, from, end)
  {
  }

  lemma {:induction false} LastLossIsLost(net: nat -> Fault, before: Option<string>, from: nat, end: nat)
    ensures var r := LastLoss(net, before, from, end);
      r == before || (r.Some? && LostWith(net, r.value, from, end))
  {
    if from < end && !Loses(net(end - 1)) {
      LastLossIsLost(net, before, from, end - 1);
    }
  }

  datatype Reply<S> = Reply(db: S, execFailed: bool, closeError: Option<string>, applied: bool)

  // The driver contract: without a close error, `Exec` fails exactly when some statement of the
  // transaction was rejected, and then nothing was applied.
  function Exchange<S, T>(exec: (S, T) -> Option<S>, s: S, items: seq<BatchItem<T>>, fault: Fault): Reply<S> {
    var t := Transact(exec, s, items);
    match fault
    case Clean =>
      Reply(if t.Some? then t.value else s, t.None?, None, t.Some?)
    case CloseError(message, applied) =>
      var took := applied && t.Some?;
      Reply(if took then t.value else s, t.None?, Some(message), took)
  }

  datatype Verdict = Final(fate: Fate) | Split

  // What `sendBatch` does with a reply. Only a failed batch of several statements is divided.
  function Judge<S, T>(reply: Reply<S>, items: seq<BatchItem<T>>): Verdict {
    if reply.closeError.Some? then Final(Dropped(reply.applied, ConnectionLost(reply.closeError.value)))
    else if !reply.execFailed then Final(Committed)
    else if |items| == 1 then Final(Reported)
    else Split
  }

  function ErrorAfter<S>(reply: Reply<S>, connError: Option<string>): Option<string> {
    if reply.closeError.Some? && ConnectionLost(reply.closeError.value) then reply.closeError else connError
  }

  lemma OnlySinglesAreReported<S, T>(reply: Reply<S>, items: seq<BatchItem<T>>)
    requires Judge(reply, items) == Final(Reported)
    ensures |items| == 1
  {
  }

  // Whatever was decided about a batch in one exchange is a truthful log of it.
  lemma ExchangeExplains<S, T>(exec: (S, T) -> Option<S>, s: S, items: seq<BatchItem<T>>, fault: Fault)
    requires items != []
    ensures var reply := Exchange(exec, s, items, fault);
      match Judge(reply, items)
      case Split => |items| > 1 && reply.db == s && fault.Clean? && Transact(exec, s, items).None?
      case Final(fate) => Explains(exec, s, Mark(items, fate), reply.db) && (fault.Clean? <==> !fate.Dropped?)
  {
    var reply := Exchange(exec, s, items, fault);
    match Judge(reply, items) {
      case Split =>
      case Final(fate) =>
        if fate.Reported? {
          ExplainsRejection(exec, s, items);
        } else if reply.applied {
          ExplainsTransaction(exec, s, items, fate);
        } else {
          ExplainsNothing(exec, s, items, fate.lost);
        }
    }
  }

  lemma ExplainsRejection<S, T>(exec: (S, T) -> Option<S>, s: S, items: seq<BatchItem<T>>)
    requires |items| == 1 && Transact(exec, s, items).None?
    ensures Explains(exec, s, Mark(items, Reported), s)
  {
  }

  // ----- Reported errors -----

  datatype Cause = DatabaseFailure | BadPrefix(prefix: string)
  datatype Report = Report(action: Action, uid: string, cause: Cause)

  function Failure<T>(item: BatchItem<T>): Report {
    Report(item.action, item.uid, DatabaseFailure)
  }

  function Failures<T>(items: seq<BatchItem<T>>): seq<Report> {
    seq(|items|, i requires 0 <= i < |items| => Failure(items[i]))
  }

  lemma {:induction false} ReportedConcat<T>(a: seq<Entry<T>>, b: seq<Entry<T>>)
    ensures ReportedOf(a + b) == ReportedOf(a) + ReportedOf(b)
    decreases |a|
  {
    if a == [] {
      assert a + b == b;
    } else {
      assert a + b == [a[0]] + (a[1..] + b);
      ReportedConcat(a[1..], b);
      ReportedCons(a[0], a[1..] + b);
      ReportedCons(a[0], a[1..]);
      assert a == [a[0]] + a[1..];
    }
  }

  lemma ReportedCons<T>(x: Entry<T>, log: seq<Entry<T>>)
    ensures ReportedOf([x] + log) == (if x.fate.Reported? then [x.item] else []) + ReportedOf(log)
  {
  }

  lemma OneFailure<T>(items: seq<BatchItem<T>>)
    requires |items| == 1
    ensures Failures(items) == [Failure(items[0])]
  {
  }

  lemma ReportsJoin<T>(reports: seq<Report>, a: seq<Entry<T>>, b: seq<Entry<T>>)
    ensures reports + Failures(ReportedOf(a)) + Failures(ReportedOf(b)) == reports + Failures(ReportedOf(a + b))
  {
    ReportedConcat(a, b);
  }

  lemma {:induction false} ReportedOfMark<T>(items: seq<BatchItem<T>>, fate: Fate)
    ensures ReportedOf(Mark(items, fate)) == if fate.Reported? then items else []
  {
    if items != [] {
      assert Mark(items, fate)[1..] == Mark(items[1..], fate);
      ReportedOfMark(items[1..], fate);
    }
  }

  // ----- State -----

  datatype Frame<T> = ToSend(items: seq<BatchItem<T>>) | Return

  type Stack<T> = seq<Frame<T>>

  // `accepted`, `refused`, `rejections` and `log` record what happened and decide nothing.
  datatype Engine<S, T> = Engine(
    db: S,
    connError: Option<string>,
    items: seq<BatchItem<T>>,
    goroutines: seq<Stack<T>>,
    wg: int,
    reports: seq<Report>,
    sends: nat,
    accepted: seq<BatchItem<T>>,
    refused: seq<BatchItem<T>>,
    rejections: seq<Report>,
    log: seq<Entry<T>>)

  function Fresh<S, T>(db: S): Engine<S, T> {
    Engine(db, None, [], [], 0, [], 0, [], [], [], [])
  }

  function QueueItem<S, T>(e: Engine<S, T>, batchSize: int, item: BatchItem<T>): Engine<S, T> {
    if e.connError.Some? then e.(refused := e.refused + [item])
    else
      var e' := e.(items := e.items + [item], accepted := e.accepted + [item]);
      if |e'.items| >= batchSize then Spawn(e') else e'
  }

  function Spawn<S, T>(e: Engine<S, T>): Engine<S, T> {
    e.(items := [], goroutines := e.goroutines + [[ToSend(e.items)]], wg := e.wg + 1)
  }

  function FlushItems<S, T>(e: Engine<S, T>): Engine<S, T> {
    if |e.items| > 0 then Spawn(e) else e
  }

  function RejectItem<S, T>(e: Engine<S, T>, report: Report): Engine<S, T> {
    e.(reports := e.reports + [report], rejections := e.rejections + [report])
  }

  predicate Enabled<S, T>(e: Engine<S, T>, i: nat) {
    i < |e.goroutines| && e.goroutines[i] != []
  }

  function Advance<S, T>(exec: (S, T) -> Option<S>, net: nat -> Fault, e: Engine<S, T>, i: nat): Engine<S, T>
    requires Enabled(e, i)
  {
    var rest := e.goroutines[i][1..];
    match e.goroutines[i][0]
    case Return =>
      e.(goroutines := e.goroutines[i := rest], wg := e.wg - 1)
    case ToSend(items) =>
      var reply := Exchange(exec, e.db, items, net(e.sends));
      var e' := e.(db := reply.db, sends := e.sends + 1, connError := ErrorAfter(reply, e.connError));
      match Judge(reply, items)
      case Final(fate) =>
        e'.(goroutines := e.goroutines[i := rest], wg := e.wg - 1, log := e.log + Mark(items, fate),
            reports := e.reports + (if fate.Reported? then Failures(items) else []))
      case Split =>
        var halves := [ToSend(items[..|items| / 2]), ToSend(items[|items| / 2..]), Return];
        e'.(goroutines := e.goroutines[i := halves + rest], wg := e.wg + 2)
  }

  // ----- Runs -----

  datatype Move<T> = Queue(item: BatchItem<T>) | Reject(report: Report) | Flush | Run(i: nat)

  function Step<S, T>(
    exec: (S, T) -> Option<S>, net: nat -> Fault, batchSize: int, e: Engine<S, T>, move: Move<T>): Engine<S, T>
  {
    match move
    case Queue(item) => QueueItem(e, batchSize, item)
    case Reject(report) => RejectItem(e, report)
    case Flush => FlushItems(e)
    case Run(i) => if Enabled(e, i) then Advance(exec, net, e, i) else e
  }

  function Steps<S, T>(
    exec: (S, T) -> Option<S>, net: nat -> Fault, batchSize: int, e: Engine<S, T>, moves: seq<Move<T>>): Engine<S, T>
    decreases |moves|
  {
    if moves == [] then e
    else Steps(exec, net, batchSize, Step(exec, net, batchSize, e, moves[0]), moves[1..])
  }

  // ----- Counting over all stacks -----

  function StackItems<T>(stack: Stack<T>): seq<BatchItem<T>> {
    if stack == [] then []
    else (match stack[0] case ToSend(items) => items case Return => []) + StackItems(stack[1..])
  }

  function InFlight<T>(stacks: seq<Stack<T>>): seq<BatchItem<T>> {
    if stacks == [] then [] else StackItems(stacks[0]) + InFlight(stacks[1..])
  }

  function Calls<T>(stacks: seq<Stack<T>>): nat {
    if stacks == [] then 0 else |stacks[0]| + Calls(stacks[1..])
  }

  ghost predicate StackOk<T>(stack: Stack<T>) {
    forall f | 0 <= f < |stack| :: stack[f].ToSend? ==> stack[f].items != []
  }

  ghost predicate StacksOk<T>(stacks: seq<Stack<T>>) {
    forall i | 0 <= i < |stacks| :: StackOk(stacks[i])
  }

  // An upper bound on the number of steps a stack can still take.
  function StackWork<T>(stack: Stack<T>): nat {
    if stack == [] then 0
    else
      (match stack[0] case ToSend(items) => (if items == [] then 1 else 3 * |items| - 2) case Return => 1)
      + StackWork(stack[1..])
  }

  function Work<T>(stacks: seq<Stack<T>>): nat {
    if stacks == [] then 0 else StackWork(stacks[0]) + Work(stacks[1..])
  }

  lemma {:induction false} ReplaceStack<T>(stacks: seq<Stack<T>>, i: nat, stack: Stack<T>)
    requires i < |stacks|
    ensures Calls(stacks[i := stack]) == Calls(stacks) - |stacks[i]| + |stack|
    ensures Work(stacks[i := stack]) == Work(stacks) - StackWork(stacks[i]) + StackWork(stack)
    decreases i
  {
    hide StackWork;
    var next := stacks[i := stack];
    if i == 0 {
      assert next[1..] == stacks[1..];
    } else {
      assert next[1..] == stacks[1..][i - 1 := stack];
      ReplaceStack(stacks[1..], i - 1, stack);
    }
  }

  // Everything in flight except what sits on stack `i`.
  ghost function Others<T>(stacks: seq<Stack<T>>, i: nat): multiset<BatchItem<T>>
    requires i < |stacks|
  {
    multiset(InFlight(stacks[..i])) + multiset(InFlight(stacks[i + 1..]))
  }

  lemma {:induction false} InFlightConcat<T>(a: seq<Stack<T>>, b: seq<Stack<T>>)
    ensures InFlight(a + b) == InFlight(a) + InFlight(b)
    decreases |a|
  {
    if a == [] {
      assert a + b == b;
    } else {
      assert (a + b)[1..] == a[1..] + b;
      InFlightConcat(a[1..], b);
    }
  }

  lemma InFlightAt<T>(stacks: seq<Stack<T>>, i: nat)
    requires i < |stacks|
    ensures multiset(InFlight(stacks)) == Others(stacks, i) + multiset(StackItems(stacks[i]))
  {
    var tail := stacks[i..];
    assert stacks == stacks[..i] + tail;
    InFlightConcat(stacks[..i], tail);
    assert tail[0] == stacks[i] && tail[1..] == stacks[i + 1..];
  }

  lemma ReplaceInFlight<T>(stacks: seq<Stack<T>>, i: nat, stack: Stack<T>)
    requires i < |stacks|
    ensures multiset(InFlight(stacks[i := stack])) == Others(stacks, i) + multiset(StackItems(stack))
  {
    var next := stacks[i := stack];
    InFlightAt(next, i);
    assert next[..i] == stacks[..i] && next[i + 1..] == stacks[i + 1..];
  }

  lemma {:induction false} AppendStack<T>(stacks: seq<Stack<T>>, stack: Stack<T>)
    ensures Calls(stacks + [stack]) == Calls(stacks) + |stack|
    ensures InFlight(stacks + [stack]) == InFlight(stacks) + StackItems(stack)
    decreases |stacks|
  {
    hide StackItems;
    if stacks == [] {
      assert stacks + [stack] == [stack];
      assert [stack][1..] == [];
    } else {
      assert (stacks + [stack])[1..] == stacks[1..] + [stack];
      AppendStack(stacks[1..], stack);
    }
  }

  lemma {:induction false} NoCallsNothingInFlight<T>(stacks: seq<Stack<T>>)
    requires Calls(stacks) == 0
    ensures InFlight(stacks) == []
  {
    if stacks != [] { NoCallsNothingInFlight(stacks[1..]); }
  }

  lemma {:induction false} SomeCallEnabled<T>(stacks: seq<Stack<T>>) returns (i: nat)
    requires Calls(stacks) > 0
    ensures i < |stacks| && stacks[i] != []
  {
    if stacks[0] != [] {
      i := 0;
    } else {
      var j := SomeCallEnabled(stacks[1..]);
      i := j + 1;
    }
  }

  // ----- The invariant -----

  // The counter is the number of `sendBatch` calls spawned or pending.
  ghost predicate CountsCalls<S, T>(e: Engine<S, T>) {
    e.wg == Calls(e.goroutines) && StacksOk(e.goroutines)
  }

  // Every accepted statement is in exactly one place.
  ghost predicate Conserves<S, T>(e: Engine<S, T>) {
    multiset(e.accepted) == multiset(e.items) + multiset(InFlight(e.goroutines)) + multiset(ItemsOf(e.log))
  }

  ghost predicate Attributes<S, T>(e: Engine<S, T>) {
    multiset(e.reports) == multiset(e.rejections) + multiset(Failures(ReportedOf(e.log)))
  }

  ghost predicate Sticky<S, T>(e: Engine<S, T>) {
    (e.connError.Some? <==> LostIn(e.log)) && (e.refused != [] ==> e.connError.Some?)
  }

  // The connection error is that of the last exchange that lost the connection.
  ghost predicate TracesLosses<S, T>(net: nat -> Fault, e: Engine<S, T>) {
    e.connError == LastLoss(net, None, 0, e.sends) && (e.log != [] ==> e.sends > 0)
  }

  ghost predicate CleanSoFar<S, T>(net: nat -> Fault, e: Engine<S, T>) {
    NothingDropped(e.log) <==> forall k | 0 <= k < e.sends :: net(k).Clean?
  }

  ghost predicate Inv<S, T>(exec: (S, T) -> Option<S>, net: nat -> Fault, start: S, e: Engine<S, T>) {
    && CountsCalls(e)
    && Conserves(e)
    && Explains(exec, start, e.log, e.db)
    && Attributes(e)
    && Sticky(e)
    && TracesLosses(net, e)
    && CleanSoFar(net, e)
  }

  lemma FreshInv<S, T>(exec: (S, T) -> Option<S>, net: nat -> Fault, start: S)
    ensures Inv<S, T>(exec, net, start, Fresh(start))
  {
  }

  lemma SpawnKeeps<S, T>(exec: (S, T) -> Option<S>, net: nat -> Fault, start: S, e: Engine<S, T>)
    requires Inv(exec, net, start, e) && e.items != []
    ensures Inv(exec, net, start, Spawn(e))
  {
    AppendStack(e.goroutines, [ToSend(e.items)]);
    assert StackItems([ToSend(e.items)]) == e.items;
  }

  lemma QueueKeeps<S, T>(
    exec: (S, T) -> Option<S>, net: nat -> Fault, start: S, e: Engine<S, T>, batchSize: int, item: BatchItem<T>)
    requires Inv(exec, net, start, e)
    ensures Inv(exec, net, start, QueueItem(e, batchSize, item))
  {
    if e.connError.None? {
      var e' := e.(items := e.items + [item], accepted := e.accepted + [item]);
      assert Inv(exec, net, start, e');
      SpawnKeeps(exec, net, start, e');
    }
  }

  // Refusals come last: what was offered is what was accepted followed by what was refused.
  lemma QueueOffers<S, T>(e: Engine<S, T>, batchSize: int, item: BatchItem<T>)
    requires Sticky(e)
    ensures var e' := QueueItem(e, batchSize, item);
      && e'.accepted + e'.refused == e.accepted + e.refused + [item]
      && e'.rejections == e.rejections && e'.connError == e.connError
      && (e.connError.None? <==> e'.refused == [])
      && (e.refused != [] ==> e'.refused != [] && e'.accepted == e.accepted)
  {
  }

  lemma FlushKeeps<S, T>(exec: (S, T) -> Option<S>, net: nat -> Fault, start: S, e: Engine<S, T>)
    requires Inv(exec, net, start, e)
    ensures Inv(exec, net, start, FlushItems(e))
  {
    if |e.items| > 0 { SpawnKeeps(exec, net, start, e); }
  }

  lemma RejectKeeps<S, T>(exec: (S, T) -> Option<S>, net: nat -> Fault, start: S, e: Engine<S, T>, report: Report)
    requires Inv(exec, net, start, e)
    ensures Inv(exec, net, start, RejectItem(e, report))
  {
  }

  // The stack on which a step leaves the goroutine.
  function StackAfter<S, T>(exec: (S, T) -> Option<S>, net: nat -> Fault, e: Engine<S, T>, stack: Stack<T>): Stack<T>
    requires stack != []
  {
    if stack[0].Return? then stack[1..]
    else
      var items := stack[0].items;
      if Judge(Exchange(exec, e.db, items, net(e.sends)), items).Final? then stack[1..]
      else [ToSend(items[..|items| / 2]), ToSend(items[|items| / 2..]), Return] + stack[1..]
  }

  lemma StackCons<T>(frame: Frame<T>, rest: Stack<T>)
    ensures StackItems([frame] + rest) == (if frame.ToSend? then frame.items else []) + StackItems(rest)
    ensures StackWork([frame] + rest)
            == (if frame.ToSend? && frame.items != [] then 3 * |frame.items| - 2 else 1) + StackWork(rest)
    ensures StackOk(rest) && (frame.ToSend? ==> frame.items != []) ==> StackOk([frame] + rest)
  {
  }

  lemma SplitStack<T>(items: seq<BatchItem<T>>, rest: Stack<T>)
    requires |items| > 1 && StackOk(rest)
    ensures var stack := [ToSend(items[..|items| / 2]), ToSend(items[|items| / 2..]), Return] + rest;
      && StackOk(stack)
      && |stack| == |rest| + 3
      && StackItems(stack) == items + StackItems(rest)
      && StackWork(stack) == 3 * |items| - 3 + StackWork(rest)
  {
    hide StackItems, StackWork, StackOk;
    var l, r := items[..|items| / 2], items[|items| / 2..];
    StackCons(Return, rest);
    StackCons(ToSend(r), [Return] + rest);
    StackCons(ToSend(l), [ToSend(r)] + ([Return] + rest));
    assert [ToSend(l), ToSend(r), Return] + rest == [ToSend(l)] + ([ToSend(r)] + ([Return] + rest));
    assert l + r == items;
  }

  lemma AdvanceStack<S, T>(exec: (S, T) -> Option<S>, net: nat -> Fault, e: Engine<S, T>, i: nat)
    requires CountsCalls(e) && Enabled(e, i)
    ensures CountsCalls(Advance(exec, net, e, i))
    ensures Work(Advance(exec, net, e, i).goroutines) < Work(e.goroutines)
  {
    var stack := e.goroutines[i];
    var stack' := StackAfter(exec, net, e, stack);
    assert Advance(exec, net, e, i).goroutines == e.goroutines[i := stack'];
    ReplaceStack(e.goroutines, i, stack');
    assert StackOk(stack) && StackOk(stack[1..]);
    if stack[0].ToSend? {
      ExchangeExplains(exec, e.db, stack[0].items, net(e.sends));
      if stack' != stack[1..] {
        SplitStack(stack[0].items, stack[1..]);
      }
    }
  }

  // What a step takes off its stack it adds to the log.
  lemma AdvanceMovesItems<S, T>(exec: (S, T) -> Option<S>, net: nat -> Fault, e: Engine<S, T>, i: nat)
    requires Enabled(e, i) && StackOk(e.goroutines[i])
    ensures var e' := Advance(exec, net, e, i);
      var stack := e.goroutines[i];
      && e'.goroutines == e.goroutines[i := StackAfter(exec, net, e, stack)]
      && e'.accepted == e.accepted && e'.items == e.items
      && multiset(StackItems(stack)) + multiset(ItemsOf(e.log))
         == multiset(StackItems(StackAfter(exec, net, e, stack))) + multiset(ItemsOf(e'.log))
  {
    hide Exchange, Transact, Explains;
    var e' := Advance(exec, net, e, i);
    var stack := e.goroutines[i];
    assert StackOk(stack[1..]);
    if stack[0].ToSend? {
      var items := stack[0].items;
      ExchangeExplains(exec, e.db, items, net(e.sends));
      match Judge(Exchange(exec, e.db, items, net(e.sends)), items) {
        case Split => SplitStack(items, stack[1..]);
        case Final(fate) => assert ItemsOf(e'.log) == ItemsOf(e.log) + items;
      }
    }
  }

  lemma Balance<T>(
    queued: multiset<T>, others: multiset<T>, a: multiset<T>, b: multiset<T>, a': multiset<T>, b': multiset<T>)
    requires a + b == a' + b'
    ensures queued + (others + a) + b == queued + (others + a') + b'
  {
    assert queued + (others + a) + b == queued + others + (a + b);
    assert queued + (others + a') + b' == queued + others + (a' + b');
  }

  lemma AdvanceConserves<S, T>(exec: (S, T) -> Option<S>, net: nat -> Fault, e: Engine<S, T>, i: nat)
    requires CountsCalls(e) && Conserves(e) && Enabled(e, i)
    ensures Conserves(Advance(exec, net, e, i))
  {
    hide Advance, StackAfter, StackItems, InFlight, Others, Calls;
    AdvanceMovesItems(exec, net, e, i);
    InFlightAt(e.goroutines, i);
    ReplaceInFlight(e.goroutines, i, StackAfter(exec, net, e, e.goroutines[i]));
    var e' := Advance(exec, net, e, i);
    Balance(multiset(e.items), Others(e.goroutines, i),
            multiset(StackItems(e.goroutines[i])), multiset(ItemsOf(e.log)),
            multiset(StackItems(StackAfter(exec, net, e, e.goroutines[i]))), multiset(ItemsOf(e'.log)));
  }

  lemma AdvanceLog<S, T>(exec: (S, T) -> Option<S>, net: nat -> Fault, start: S, e: Engine<S, T>, i: nat)
    requires Inv(exec, net, start, e) && Enabled(e, i)
    ensures var e' := Advance(exec, net, e, i);
      && Explains(exec, start, e'.log, e'.db) && Attributes(e') && Sticky(e') && TracesLosses(net, e')
      && CleanSoFar(net, e')
  {
    var e' := Advance(exec, net, e, i);
    AdvanceTracesLosses(exec, net, e, i);
    AdvanceCleanSoFar(exec, net, e, i);
    if e.goroutines[i][0].ToSend? {
      var items := e.goroutines[i][0].items;
      var reply := Exchange(exec, e.db, items, net(e.sends));
      assert items != [] by { assert StackOk(e.goroutines[i]); }
      ExchangeExplains(exec, e.db, items, net(e.sends));
      match Judge(reply, items) {
        case Split =>
        case Final(fate) =>
          ExplainsConcat(exec, start, e.log, e.db, Mark(items, fate), reply.db);
          ReportsAfter(e.log, items, fate);
          LostAfter(e.log, items, fate);
      }
    }
  }

  lemma AdvanceTracesLosses<S, T>(exec: (S, T) -> Option<S>, net: nat -> Fault, e: Engine<S, T>, i: nat)
    requires Enabled(e, i) && TracesLosses(net, e)
    ensures TracesLosses(net, Advance(exec, net, e, i))
  {
    hide Transact, ConnectionLost;
    LosesIffConnectionLost(net(e.sends));
  }

  lemma AdvanceCleanSoFar<S, T>(exec: (S, T) -> Option<S>, net: nat -> Fault, e: Engine<S, T>, i: nat)
    requires Enabled(e, i) && StacksOk(e.goroutines) && CleanSoFar(net, e)
    ensures CleanSoFar(net, Advance(exec, net, e, i))
  {
    hide Transact, ConnectionLost, NothingDropped;
    if e.goroutines[i][0].ToSend? {
      var items := e.goroutines[i][0].items;
      assert items != [] by { assert StackOk(e.goroutines[i]); }
      var reply := Exchange(exec, e.db, items, net(e.sends));
      ExchangeExplains(exec, e.db, items, net(e.sends));
      if Judge(reply, items).Final? {
        DroppedAfter(e.log, items, Judge(reply, items).fate);
      }
    }
  }

  lemma DroppedAfter<T>(log: seq<Entry<T>>, items: seq<BatchItem<T>>, fate: Fate)
    requires items != []
    ensures NothingDropped(log + Mark(items, fate)) <==> NothingDropped(log) && !fate.Dropped?
  {
    var log' := log + Mark(items, fate);
    if NothingDropped(log') {
      assert log'[|log|].fate == fate;
      assert forall i | 0 <= i < |log| :: log'[i] == log[i];
    }
  }

  lemma ReportsAfter<T>(log: seq<Entry<T>>, items: seq<BatchItem<T>>, fate: Fate)
    ensures Failures(ReportedOf(log + Mark(items, fate)))
            == Failures(ReportedOf(log)) + (if fate.Reported? then Failures(items) else [])
  {
    ReportedConcat(log, Mark(items, fate));
    ReportedOfMark(items, fate);
    assert forall a: seq<BatchItem<T>>, b: seq<BatchItem<T>> :: Failures(a + b) == Failures(a) + Failures(b);
  }

  lemma LostAfter<T>(log: seq<Entry<T>>, items: seq<BatchItem<T>>, fate: Fate)
    requires items != []
    ensures LostIn(log + Mark(items, fate)) <==> LostIn(log) || (fate.Dropped? && fate.lost)
  {
    var log' := log + Mark(items, fate);
    if fate.Dropped? && fate.lost {
      assert log'[|log|].fate == fate;
    } else if LostIn(log) {
      var k :| 0 <= k < |log| && log[k].fate.Dropped? && log[k].fate.lost;
      assert log'[k] == log[k];
    }
  }

  lemma AdvanceKeepsProducer<S, T>(exec: (S, T) -> Option<S>, net: nat -> Fault, e: Engine<S, T>, i: nat)
    requires Enabled(e, i)
    ensures var e' := Advance(exec, net, e, i);
      && e'.items == e.items && e'.accepted == e.accepted && e'.refused == e.refused && e'.rejections == e.rejections
      && (e.connError.Some? ==> e'.connError.Some?) && e.sends <= e'.sends
  {
  }

  lemma AdvanceKeeps<S, T>(exec: (S, T) -> Option<S>, net: nat -> Fault, start: S, e: Engine<S, T>, i: nat)
    requires Inv(exec, net, start, e) && Enabled(e, i)
    ensures Inv(exec, net, start, Advance(exec, net, e, i))
  {
    AdvanceStack(exec, net, e, i);
    AdvanceConserves(exec, net, e, i);
    AdvanceLog(exec, net, start, e, i);
  }

  // ----- Theorems over every run -----

  lemma StepKeeps<S, T>(
    exec: (S, T) -> Option<S>, net: nat -> Fault, batchSize: int, start: S, e: Engine<S, T>, move: Move<T>)
    requires Inv(exec, net, start, e)
    ensures Inv(exec, net, start, Step(exec, net, batchSize, e, move))
    ensures e.connError.Some? ==> Step(exec, net, batchSize, e, move).connError.Some?
  {
    hide Advance, Inv;
    match move
    case Queue(item) => QueueKeeps(exec, net, start, e, batchSize, item);
    case Reject(report) => RejectKeeps(exec, net, start, e, report);
    case Flush => FlushKeeps(exec, net, start, e);
    case Run(i) =>
      if Enabled(e, i) {
        AdvanceKeeps(exec, net, start, e, i);
        AdvanceKeepsProducer(exec, net, e, i);
      }
  }

  /** Every interleaving of queueing, rejecting, flushing and sending keeps the invariant: the
      WaitGroup counts exactly the spawned or pending calls and so is never negative, every
      accepted statement is in exactly one place, the database is explained by the log, every
      error list entry belongs to one reported statement or one rejection, and the connection
      error is that of the last exchange which lost the connection, and never cleared. */
  lemma {:induction false} EveryRunKeepsInv<S, T>(
    exec: (S, T) -> Option<S>, net: nat -> Fault, batchSize: int, start: S, e: Engine<S, T>, moves: seq<Move<T>>)
    requires Inv(exec, net, start, e)
    ensures Inv(exec, net, start, Steps(exec, net, batchSize, e, moves))
    ensures e.connError.Some? ==> Steps(exec, net, batchSize, e, moves).connError.Some?
    decreases |moves|
  {
    if moves != [] {
      StepKeeps(exec, net, batchSize, start, e, moves[0]);
      EveryRunKeepsInv(exec, net, batchSize, start, Step(exec, net, batchSize, e, moves[0]), moves[1..]);
    }
  }

  // ----- Where batches are cut -----

  function Capacity(batchSize: int): nat {
    if batchSize > 1 then batchSize else 1
  }

  ghost predicate StackFits<T>(stack: Stack<T>, capacity: nat) {
    forall f | 0 <= f < |stack| :: stack[f].ToSend? ==> |stack[f].items| <= capacity
  }

  // The queue never holds a whole batch, and no call sends more than one.
  ghost predicate Cut<S, T>(e: Engine<S, T>, capacity: nat) {
    && |e.items| < capacity
    && (forall i | 0 <= i < |e.goroutines| :: StackFits(e.goroutines[i], capacity))
  }

  lemma AdvanceKeepsCut<S, T>(
    exec: (S, T) -> Option<S>, net: nat -> Fault, e: Engine<S, T>, i: nat, capacity: nat)
    requires Enabled(e, i) && Cut(e, capacity)
    ensures Cut(Advance(exec, net, e, i), capacity)
  {
    hide Exchange, Judge;
    var stack := e.goroutines[i];
    assert StackFits(stack, capacity);
    var stack' := StackAfter(exec, net, e, stack);
    assert Advance(exec, net, e, i).goroutines == e.goroutines[i := stack'];
    assert StackFits(stack', capacity);
  }

  lemma StepKeepsCut<S, T>(
    exec: (S, T) -> Option<S>, net: nat -> Fault, batchSize: int, e: Engine<S, T>, move: Move<T>)
    requires Cut(e, Capacity(batchSize))
    ensures Cut(Step(exec, net, batchSize, e, move), Capacity(batchSize))
  {
    hide Advance;
    if move.Run? && Enabled(e, move.i) {
      AdvanceKeepsCut(exec, net, e, move.i, Capacity(batchSize));
    }
  }

  /** In every interleaving the queue stays short of the batch size, and neither a started batch nor
      any part of a divided one is longer than it. */
  lemma {:induction false} EveryRunCutsBatches<S, T>(
    exec: (S, T) -> Option<S>, net: nat -> Fault, batchSize: int, e: Engine<S, T>, moves: seq<Move<T>>)
    requires Cut(e, Capacity(batchSize))
    ensures Cut(Steps(exec, net, batchSize, e, moves), Capacity(batchSize))
    decreases |moves|
  {
    if moves != [] {
      StepKeepsCut(exec, net, batchSize, e, moves[0]);
      EveryRunCutsBatches(exec, net, batchSize, Step(exec, net, batchSize, e, moves[0]), moves[1..]);
    }
  }

  function Queues<T>(items: seq<BatchItem<T>>): seq<Move<T>> {
    seq(|items|, i requires 0 <= i < |items| => Queue(items[i]))
  }

  // The batches that a list of items is cut into: full ones, and what is left over.
  function FullBatches<T>(items: seq<BatchItem<T>>, capacity: nat): seq<Stack<T>>
    requires capacity > 0
  {
    if |items| < capacity then [] else [[ToSend(items[..capacity])]] + FullBatches(items[capacity..], capacity)
  }

  function LeftOver<T>(items: seq<BatchItem<T>>, capacity: nat): seq<BatchItem<T>>
    requires capacity > 0
  {
    if |items| < capacity then items else LeftOver(items[capacity..], capacity)
  }

  lemma FewItemsWait<S, T>(
    exec: (S, T) -> Option<S>, net: nat -> Fault, batchSize: int, e: Engine<S, T>, items: seq<BatchItem<T>>)
    requires e.connError.None? && |e.items| + |items| < Capacity(batchSize)
    ensures Steps(exec, net, batchSize, e, Queues(items))
      == e.(items := e.items + items, accepted := e.accepted + items)
    decreases |items|
  {
    if items == [] {
      assert e.items + items == e.items && e.accepted + items == e.accepted;
    } else {
      assert Queues(items)[1..] == Queues(items[1..]);
      var e' := QueueItem(e, batchSize, items[0]);
      FewItemsWait(exec, net, batchSize, e', items[1..]);
      assert [items[0]] + items[1..] == items;
      assert e.items + [items[0]] + items[1..] == e.items + items;
      assert e.accepted + [items[0]] + items[1..] == e.accepted + items;
    }
  }

  lemma BatchIsCut<S, T>(
    exec: (S, T) -> Option<S>, net: nat -> Fault, batchSize: int, e: Engine<S, T>, items: seq<BatchItem<T>>)
    requires e.connError.None? && items != [] && |e.items| + |items| == Capacity(batchSize)
    ensures Steps(exec, net, batchSize, e, Queues(items))
      == e.(items := [], accepted := e.accepted + items, wg := e.wg + 1,
            goroutines := e.goroutines + [[ToSend(e.items + items)]])
    decreases |items|
  {
    assert Queues(items)[1..] == Queues(items[1..]);
    var e' := QueueItem(e, batchSize, items[0]);
    if |items| == 1 {
      assert items == [items[0]];
    } else {
      BatchIsCut(exec, net, batchSize, e', items[1..]);
      assert e.items + [items[0]] + items[1..] == e.items + items;
      assert e.accepted + [items[0]] + items[1..] == e.accepted + items;
    }
  }

  lemma {:induction false} StepsConcat<S, T>(
    exec: (S, T) -> Option<S>, net: nat -> Fault, batchSize: int, e: Engine<S, T>, a: seq<Move<T>>, b: seq<Move<T>>)
    ensures Steps(exec, net, batchSize, e, a + b)
      == Steps(exec, net, batchSize, Steps(exec, net, batchSize, e, a), b)
    decreases |a|
  {
    hide Step;
    if a == [] {
      assert a + b == b;
    } else {
      assert (a + b)[1..] == a[1..] + b;
      StepsConcat(exec, net, batchSize, Step(exec, net, batchSize, e, a[0]), a[1..], b);
    }
  }

  /** Items queued one after the other are sent in full batches, in order, and what does not fill a
      batch stays queued; the counter grows by the number of batches. */
  lemma {:induction false} QueueCutsFullBatches<S, T>(
    exec: (S, T) -> Option<S>, net: nat -> Fault, batchSize: int, e: Engine<S, T>, items: seq<BatchItem<T>>)
    requires e.connError.None? && e.items == []
    ensures var e' := Steps(exec, net, batchSize, e, Queues(items));
      && e'.goroutines == e.goroutines + FullBatches(items, Capacity(batchSize))
      && e'.items == LeftOver(items, Capacity(batchSize))
      && e'.wg == e.wg + |FullBatches(items, Capacity(batchSize))|
      && e'.accepted == e.accepted + items && e'.refused == e.refused
    decreases |items|
  {
    hide Step, Steps;
    var n := Capacity(batchSize);
    if |items| < n {
      FewItemsWait(exec, net, batchSize, e, items);
      assert e.items + items == items;
    } else {
      var batch, rest := items[..n], items[n..];
      assert items == batch + rest;
      assert Queues(items) == Queues(batch) + Queues(rest);
      StepsConcat(exec, net, batchSize, e, Queues(batch), Queues(rest));
      BatchIsCut(exec, net, batchSize, e, batch);
      assert e.items + batch == batch;
      QueueCutsFullBatches(exec, net, batchSize, Steps(exec, net, batchSize, e, Queues(batch)), rest);
      assert e.goroutines + [[ToSend(batch)]] + FullBatches(rest, n) == e.goroutines + FullBatches(items, n);
      assert e.accepted + batch + rest == e.accepted + items;
    }
  }

  lemma OneBatch<T>(batch: seq<BatchItem<T>>)
    ensures StackItems([ToSend(batch)]) == batch
  {
    assert [ToSend(batch)][1..] == [];
  }

  /** The batches are full, and with what is left over they are the items in order. */
  lemma {:induction false} FullBatchesAreFull<T>(items: seq<BatchItem<T>>, capacity: nat)
    requires capacity > 0
    ensures forall i | 0 <= i < |FullBatches(items, capacity)| ::
      var stack := FullBatches(items, capacity)[i];
      |stack| == 1 && stack[0].ToSend? && |stack[0].items| == capacity
    ensures InFlight(FullBatches(items, capacity)) + LeftOver(items, capacity) == items
    ensures |LeftOver(items, capacity)| < capacity
  {
    if |items| >= capacity {
      hide StackItems;
      var batch, rest := items[..capacity], items[capacity..];
      FullBatchesAreFull(rest, capacity);
      assert FullBatches(items, capacity)[1..] == FullBatches(rest, capacity);
      OneBatch(batch);
      assert batch + rest == items;
    }
  }

  ghost predicate Quiescent<S, T>(e: Engine<S, T>) {
    e.wg == 0 && e.items == []
  }

  /** Once everything is flushed and the WaitGroup reaches zero, each accepted statement has been
      committed, reported, or dropped with a batch whose close failed - exactly one of the three -
      and nothing was refused unless the connection was lost. */
  lemma QuiescentAccounts<S, T>(exec: (S, T) -> Option<S>, net: nat -> Fault, start: S, e: Engine<S, T>)
    requires Inv(exec, net, start, e) && Quiescent(e)
    ensures multiset(e.accepted) == multiset(ItemsOf(e.log))
    ensures e.connError.None? ==> e.refused == [] && !LostIn(e.log)
    ensures forall i :: !Enabled(e, i)
  {
    NoCallsNothingInFlight(e.goroutines);
    if i: nat :| Enabled(e, i) { ReplaceStack(e.goroutines, i, []); assert false; }
  }

  /** `Wait` cannot block forever: while the counter is positive some goroutine can take a step,
      and every step, whatever the database answers, uses up work. Work bounds the steps left. */
  lemma WaitIsReached<S, T>(exec: (S, T) -> Option<S>, net: nat -> Fault, start: S, e: Engine<S, T>) returns (i: nat)
    requires Inv(exec, net, start, e) && e.wg > 0
    ensures Enabled(e, i)
    ensures Work(Advance(exec, net, e, i).goroutines) < Work(e.goroutines)
  {
    i := SomeCallEnabled(e.goroutines);
    AdvanceStack(exec, net, e, i);
  }

  /** Confluence: with a connection that holds and accepted statements that are pairwise
      independent, every interleaving of all batches and of their bisected parts ends in the state
      of running the accepted statements one at a time in queue order, and reports the same errors. */
  lemma Confluence<S(!new), T>(
    exec: (S, T) -> Option<S>, net: nat -> Fault, batchSize: int, start: S, moves: seq<Move<T>>)
    requires forall k :: net(k).Clean?
    requires var e := Steps(exec, net, batchSize, Fresh(start), moves);
      Quiescent(e) && PairwiseIndependent(exec, multiset(e.accepted))
    ensures var e := Steps(exec, net, batchSize, Fresh(start), moves);
      && e.db == After(exec, start, e.accepted)
      && multiset(e.reports) == multiset(e.rejections) + multiset(Failures(Skipped(exec, start, e.accepted)))
  {
    FreshInv<S, T>(exec, net, start);
    EveryRunKeepsInv(exec, net, batchSize, start, Fresh(start), moves);
    var e := Steps(exec, net, batchSize, Fresh(start), moves);
    QuiescentAccounts(exec, net, start, e);
    CleanLogIsSerial(exec, start, e.log, e.db);
    OrderIrrelevant(exec, start, e.accepted, ItemsOf(e.log));
    FailuresOfPermutation(Skipped(exec, start, e.accepted), ReportedOf(e.log));
  }

  lemma {:induction false} FailuresOfPermutation<T>(a: seq<BatchItem<T>>, b: seq<BatchItem<T>>)
    requires multiset(a) == multiset(b)
    ensures multiset(Failures(a)) == multiset(Failures(b))
    decreases |a|
  {
    if a == [] {
      assert |multiset(b)| == 0;
    } else {
      var pre, post := Locate(a, b);
      FailuresOfPermutation(a[1..], pre + post);
      assert a == [a[0]] + a[1..];
      assert Failures(a) == [Failure(a[0])] + Failures(a[1..]);
      assert Failures(b) == Failures(pre) + [Failure(a[0])] + Failures(post);
      assert Failures(pre + post) == Failures(pre) + Failures(post);
    }
  }
}
