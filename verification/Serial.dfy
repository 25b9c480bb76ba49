/** One-at-a-time execution: the reference against which the batch engine is judged.

    A statement is run by `exec`, which answers `None` when the database rejects it in the
    state it meets. `After` and `Skipped` say what running a list left to right, skipping every
    rejected statement, leaves behind. `Explains` says that a database state is exactly what a
    log of attributed statements produces. */
module Serial {
  import opened Options

  // The `action` strings used at the places that queue an item; each selects an error list.
  datatype Action = AddResource | UpdateResource | DeleteResource | AddEdge | DeleteEdge

  datatype BatchItem<T> = BatchItem(action: Action, uid: string, stmt: T)

  function Attempt<S, T>(exec: (S, T) -> Option<S>, s: S, stmt: T): S {
    match exec(s, stmt)
    case Some(s') => s'
    case None => s
  }

  function After<S, T>(exec: (S, T) -> Option<S>, s: S, items: seq<BatchItem<T>>): S {
    if items == [] then s else After(exec, Attempt(exec, s, items[0].stmt), items[1..])
  }

  function Skipped<S, T>(exec: (S, T) -> Option<S>, s: S, items: seq<BatchItem<T>>): seq<BatchItem<T>> {
    if items == [] then []
    else (if exec(s, items[0].stmt).None? then [items[0]] else [])
         + Skipped(exec, Attempt(exec, s, items[0].stmt), items[1..])
  }

  // A batch is one transaction: either every statement succeeds or nothing is kept.
  function Transact<S, T>(exec: (S, T) -> Option<S>, s: S, items: seq<BatchItem<T>>): Option<S> {
    if items == [] then Some(s)
    else match exec(s, items[0].stmt)
      case None => None
      case Some(s') => Transact(exec, s', items[1..])
  }

  /** A transaction succeeds exactly when one-at-a-time execution skips nothing. */
  lemma {:induction false} TransactSkipsNothing<S, T>(exec: (S, T) -> Option<S>, s: S, items: seq<BatchItem<T>>)
    ensures Transact(exec, s, items).Some? <==> Skipped(exec, s, items) == []
    ensures Transact(exec, s, items).Some? ==> Transact(exec, s, items).value == After(exec, s, items)
  {
    if items != [] {
      TransactSkipsNothing(exec, Attempt(exec, s, items[0].stmt), items[1..]);
    }
  }

  lemma {:induction false} AfterConcat<S, T>(
    exec: (S, T) -> Option<S>, s: S, a: seq<BatchItem<T>>, b: seq<BatchItem<T>>)
    ensures After(exec, s, a + b) == After(exec, After(exec, s, a), b)
    ensures Skipped(exec, s, a + b) == Skipped(exec, s, a) + Skipped(exec, After(exec, s, a), b)
  {
    if a == [] {
      assert a + b == b;
    } else {
      assert (a + b)[1..] == a[1..] + b;
      AfterConcat(exec, Attempt(exec, s, a[0].stmt), a[1..], b);
    }
  }

  // ----- What became of each statement -----

  // `lost` tells a connection error from any other error on closing the batch; `applied` tells
  // whether the transaction took effect although its result never arrived.
  datatype Fate = Committed | Reported | Dropped(applied: bool, lost: bool)

  datatype Entry<T> = Entry(item: BatchItem<T>, fate: Fate)

  function ItemsOf<T>(log: seq<Entry<T>>): seq<BatchItem<T>> {
    seq(|log|, i requires 0 <= i < |log| => log[i].item)
  }

  function Mark<T>(items: seq<BatchItem<T>>, fate: Fate): seq<Entry<T>> {
    seq(|items|, i requires 0 <= i < |items| => Entry(items[i], fate))
  }

  function ReportedOf<T>(log: seq<Entry<T>>): seq<BatchItem<T>> {
    if log == [] then []
    else (if log[0].fate.Reported? then [log[0].item] else []) + ReportedOf(log[1..])
  }

  ghost predicate NothingDropped<T>(log: seq<Entry<T>>) {
    forall i | 0 <= i < |log| :: !log[i].fate.Dropped?
  }

  ghost predicate AllCommitted<T>(log: seq<Entry<T>>) {
    forall i | 0 <= i < |log| :: log[i].fate.Committed?
  }

  ghost predicate LostIn<T>(log: seq<Entry<T>>) {
    exists i :: 0 <= i < |log| && log[i].fate.Dropped? && log[i].fate.lost
  }

  // Walking the log from `s` ends in `t`: committed statements succeeded where they were
  // reached, reported ones were rejected where they were reached, dropped ones took effect or not.
  ghost predicate Explains<S, T>(exec: (S, T) -> Option<S>, s: S, log: seq<Entry<T>>, t: S) {
    if log == [] then s == t
    else
      var r := exec(s, log[0].item.stmt);
      match log[0].fate
      case Committed => r.Some? && Explains(exec, r.value, log[1..], t)
      case Reported => r.None? && Explains(exec, s, log[1..], t)
      case Dropped(applied, _) =>
        if applied then r.Some? && Explains(exec, r.value, log[1..], t) else Explains(exec, s, log[1..], t)
  }

  lemma {:induction false} ExplainsConcat<S, T>(
    exec: (S, T) -> Option<S>, s: S, a: seq<Entry<T>>, m: S, b: seq<Entry<T>>, t: S)
    requires Explains(exec, s, a, m) && Explains(exec, m, b, t)
    ensures Explains(exec, s, a + b, t)
  {
    if a == [] {
      assert a + b == b;
    } else {
      assert (a + b)[1..] == a[1..] + b;
      var r := exec(s, a[0].item.stmt);
      match a[0].fate
      case Committed => ExplainsConcat(exec, r.value, a[1..], m, b, t);
      case Reported => ExplainsConcat(exec, s, a[1..], m, b, t);
      case Dropped(applied, _) => ExplainsConcat(exec, if applied then r.value else s, a[1..], m, b, t);
    }
  }

  lemma {:induction false} ExplainsTransaction<S, T>(
    exec: (S, T) -> Option<S>, s: S, items: seq<BatchItem<T>>, fate: Fate)
    requires fate == Committed || (fate.Dropped? && fate.applied)
    requires Transact(exec, s, items).Some?
    ensures Explains(exec, s, Mark(items, fate), Transact(exec, s, items).value)
  {
    if items != [] {
      assert Mark(items, fate)[1..] == Mark(items[1..], fate);
      ExplainsTransaction(exec, exec(s, items[0].stmt).value, items[1..], fate);
    }
  }

  lemma {:induction false} ExplainsNothing<S, T>(exec: (S, T) -> Option<S>, s: S, items: seq<BatchItem<T>>, lost: bool)
    ensures Explains(exec, s, Mark(items, Dropped(false, lost)), s)
  {
    if items != [] {
      assert Mark(items, Dropped(false, lost))[1..] == Mark(items[1..], Dropped(false, lost));
      ExplainsNothing(exec, s, items[1..], lost);
    }
  }

  /** A log without dropped statements is one-at-a-time execution: it ends in the same state and
      reports exactly the statements that one-at-a-time execution skips, in the same order. */
  lemma {:induction false} CleanLogIsSerial<S, T>(exec: (S, T) -> Option<S>, s: S, log: seq<Entry<T>>, t: S)
    requires Explains(exec, s, log, t) && NothingDropped(log)
    ensures t == After(exec, s, ItemsOf(log))
    ensures ReportedOf(log) == Skipped(exec, s, ItemsOf(log))
  {
    if log != [] {
      assert ItemsOf(log)[1..] == ItemsOf(log[1..]);
      CleanLogIsSerial(exec, Attempt(exec, s, log[0].item.stmt), log[1..], t);
    }
  }

  /** Statements that were all committed would also have been accepted as a single transaction. */
  lemma {:induction false} CommittedLogIsTransaction<S, T>(exec: (S, T) -> Option<S>, s: S, log: seq<Entry<T>>, t: S)
    requires Explains(exec, s, log, t) && AllCommitted(log)
    ensures Transact(exec, s, ItemsOf(log)) == Some(t)
  {
    if log != [] {
      assert ItemsOf(log)[1..] == ItemsOf(log[1..]);
      CommittedLogIsTransaction(exec, exec(s, log[0].item.stmt).value, log[1..], t);
    }
  }

  // ----- Order does not matter for independent statements -----

  // In every state the two statements reach the same state in both orders, and neither decides
  // whether the other is rejected.
  ghost predicate Independent<S(!new), T>(exec: (S, T) -> Option<S>, p: T, q: T) {
    forall s: S ::
      && Attempt(exec, Attempt(exec, s, p), q) == Attempt(exec, Attempt(exec, s, q), p)
      && (exec(Attempt(exec, s, p), q).None? <==> exec(s, q).None?)
      && (exec(Attempt(exec, s, q), p).None? <==> exec(s, p).None?)
  }

  ghost predicate PairwiseIndependent<S(!new), T>(exec: (S, T) -> Option<S>, items: multiset<BatchItem<T>>) {
    forall x, y | x in items && y in items && x != y :: Independent(exec, x.stmt, y.stmt)
  }

  lemma AfterCons<S, T>(exec: (S, T) -> Option<S>, s: S, x: BatchItem<T>, items: seq<BatchItem<T>>)
    ensures After(exec, s, [x] + items) == After(exec, Attempt(exec, s, x.stmt), items)
    ensures Skipped(exec, s, [x] + items)
            == (if exec(s, x.stmt).None? then [x] else []) + Skipped(exec, Attempt(exec, s, x.stmt), items)
  {
  }

  // An item that is independent of those before it may be run first.
  lemma {:induction false} RunFirst<S(!new), T>(
    exec: (S, T) -> Option<S>, s: S, before: seq<BatchItem<T>>, x: BatchItem<T>)
    requires forall y | y in before :: y == x || Independent(exec, x.stmt, y.stmt)
    ensures After(exec, s, before + [x]) == After(exec, s, [x] + before)
    ensures multiset(Skipped(exec, s, before + [x])) == multiset(Skipped(exec, s, [x] + before))
    decreases |before|
  {
    hide After, Skipped;
    if before == [] {
      assert before + [x] == [x] + before;
    } else {
      var y, rest := before[0], before[1..];
      var sx, sy := Attempt(exec, s, x.stmt), Attempt(exec, s, y.stmt);
      assert before == [y] + rest;
      assert before + [x] == [y] + (rest + [x]);
      RunFirst(exec, sy, rest, x);
      AfterCons(exec, s, y, rest + [x]);
      AfterCons(exec, sy, x, rest);
      AfterCons(exec, s, x, [y] + rest);
      AfterCons(exec, sx, y, rest);
      assert y == x || Independent(exec, x.stmt, y.stmt);
      assert Attempt(exec, sy, x.stmt) == Attempt(exec, sx, y.stmt);
    }
  }

  // The first item of one order, located in another order of the same items.
  lemma Locate<T>(a: seq<T>, b: seq<T>) returns (pre: seq<T>, post: seq<T>)
    requires a != [] && multiset(a) == multiset(b)
    ensures b == pre + [a[0]] + post
    ensures multiset(a[1..]) == multiset(pre + post)
    ensures multiset(pre) <= multiset(a) && multiset(a[1..]) <= multiset(a)
  {
    assert a == [a[0]] + a[1..];
    assert a[0] in multiset(b);
    var k :| 0 <= k < |b| && b[k] == a[0];
    pre, post := b[..k], b[k+1..];
    assert b == pre + [a[0]] + post;
    assert multiset(b) == multiset(pre) + multiset{a[0]} + multiset(post);
    assert multiset(a) == multiset{a[0]} + multiset(a[1..]);
    assert multiset(pre + post) == multiset(pre) + multiset(post) == multiset(b) - multiset{a[0]};
    assert multiset(a[1..]) == multiset(a) - multiset{a[0]};
  }

  /** Any two orders of pairwise independent statements end in the same state and skip the same
      statements. Equal items may occur more than once. */
  lemma {:induction false} OrderIrrelevant<S(!new), T>(
    exec: (S, T) -> Option<S>, s: S, a: seq<BatchItem<T>>, b: seq<BatchItem<T>>)
    requires multiset(a) == multiset(b)
    requires PairwiseIndependent(exec, multiset(a))
    ensures After(exec, s, a) == After(exec, s, b)
    ensures multiset(Skipped(exec, s, a)) == multiset(Skipped(exec, s, b))
    decreases |a|
  {
    hide Independent;
    if a == [] {
      assert |multiset(b)| == 0;
    } else {
      var x := a[0];
      var pre, post := Locate(a, b);
      forall y | y in pre ensures y == x || Independent(exec, x.stmt, y.stmt) {
        assert y in multiset(pre);
      }
      FrontFirst(exec, s, pre, x, post);
      assert PairwiseIndependent(exec, multiset(a[1..]));
      OrderIrrelevant(exec, Attempt(exec, s, x.stmt), a[1..], pre + post);
    }
  }

  lemma FrontFirst<S(!new), T>(
    exec: (S, T) -> Option<S>, s: S, pre: seq<BatchItem<T>>, x: BatchItem<T>, post: seq<BatchItem<T>>)
    requires forall y | y in pre :: y == x || Independent(exec, x.stmt, y.stmt)
    ensures var s' := Attempt(exec, s, x.stmt);
      && After(exec, s, pre + [x] + post) == After(exec, s', pre + post)
      && multiset(Skipped(exec, s, pre + [x] + post))
         == multiset((if exec(s, x.stmt).None? then [x] else []) + Skipped(exec, s', pre + post))
  {
    hide Independent;
    RunFirst(exec, s, pre, x);
    AfterConcat(exec, s, pre + [x], post);
    AfterConcat(exec, s, [x] + pre, post);
    var front := [x] + (pre + post);
    assert ([x] + pre) + post == front;
    assert front[0] == x && front[1..] == pre + post;
  }
}
