/** The clean-up of former hub clusters that a resync of the hub starts: what it removes, and which
    edges it can leave behind although it retries until it succeeds. */
module HubRename {
  import opened Tables
  import opened Batch
  import opened ClusterCache
  import opened DeleteRetry

  // The row that the query looks for.
  predicate HubRow(db: Database, u: string) {
    u in db.resources && "_hubClusterResource" in db.resources[u].data
    && "kind" in db.resources[u].data && db.resources[u].data["kind"] != Text("Cluster")
  }

  // The hub clusters of the database other than the one that asked.
  function OldHubs(db: Database, request: string): (hubs: set<string>)
    ensures forall c :: c in hubs <==> c != request && c != "" && !OnlyNodesMarked(db, c)
  {
    set u | u in db.resources && HubRow(db, u) && db.resources[u].cluster != request && db.resources[u].cluster != "" ::
      db.resources[u].cluster
  }

  // A cluster node, a row without a kind, or a row without the mark of a hub.
  predicate NodeOrUnmarked(data: Props) {
    "_hubClusterResource" in data && "kind" in data ==> data["kind"] == Text("Cluster")
  }

  // Of the rows of a cluster only the cluster node carries the mark of a hub.
  ghost predicate OnlyNodesMarked(db: Database, c: string) {
    forall u | u in db.resources && db.resources[u].cluster == c :: NodeOrUnmarked(db.resources[u].data)
  }

  function WithoutResources(db: Database, cluster: string): Database {
    db.(resources := map u | u in db.resources && db.resources[u].cluster != cluster :: db.resources[u])
  }

  function WithoutEdges(db: Database, cluster: string): Database {
    db.(edges := map k | k in db.edges && db.edges[k].cluster != cluster :: db.edges[k])
  }

  ghost predicate RowsGone(db: Database, c: string) {
    forall u :: !OwnedBy(RowAt(db, u), c)
  }

  ghost predicate EdgesGone(db: Database, c: string) {
    forall k :: !EdgeOwnedBy(EdgeAt(db, k), c)
  }

  ghost predicate RowsKept(before: Database, after: Database, c: string) {
    forall u :: OwnedBy(RowAt(before, u), c) || OwnedBy(RowAt(after, u), c) ==> RowAt(after, u) == RowAt(before, u)
  }

  ghost predicate EdgesKept(before: Database, after: Database, c: string) {
    forall k :: EdgeOwnedBy(EdgeAt(before, k), c) || EdgeOwnedBy(EdgeAt(after, k), c) ==>
      EdgeAt(after, k) == EdgeAt(before, k)
  }

  ghost predicate Kept(before: Database, after: Database, c: string) {
    RowsKept(before, after, c) && EdgesKept(before, after, c)
  }

  ghost predicate Gone(db: Database, c: string) {
    RowsGone(db, c) && EdgesGone(db, c)
  }

  // A former hub of which the resources are gone and the edges are left as they were.
  ghost predicate Leaked(before: Database, after: Database, c: string) {
    RowsGone(after, c) && EdgesKept(before, after, c)
  }

  // Every cluster is kept, unless it is a former hub; those are kept, gone or leaked.
  ghost predicate Progress(before: Database, after: Database, hubs: set<string>, leaked: set<string>) {
    && leaked <= hubs
    && (forall c | c !in hubs :: Kept(before, after, c))
    && (forall c | c in hubs ::
      if c in leaked then Leaked(before, after, c) else Kept(before, after, c) || Gone(after, c))
  }

  lemma ResourcesRemoved(db: Database, c: string, write: Write)
    ensures var after := if write.Taken? || write.applied then WithoutResources(db, c) else db;
      && (forall d | d != c :: RowsKept(db, after, d)) && (forall d :: EdgesKept(db, after, d))
      && (if write.Taken? || write.applied then RowsGone(after, c) else after == db)
  {
  }

  lemma EdgesRemoved(db: Database, c: string, write: Write)
    ensures var after := if write.Taken? || write.applied then WithoutEdges(db, c) else db;
      && (forall d | d != c :: EdgesKept(db, after, d)) && (forall d :: RowsKept(db, after, d))
      && (if write.Taken? || write.applied then EdgesGone(after, c) else after == db)
  {
  }

  lemma KeptTwice(a: Database, b: Database, c: Database, cluster: string)
    ensures RowsKept(a, b, cluster) && RowsKept(b, c, cluster) ==> RowsKept(a, c, cluster)
    ensures EdgesKept(a, b, cluster) && EdgesKept(b, c, cluster) ==> EdgesKept(a, c, cluster)
    ensures RowsGone(b, cluster) && RowsKept(b, c, cluster) ==> RowsGone(c, cluster)
    ensures EdgesGone(b, cluster) && EdgesKept(b, c, cluster) ==> EdgesGone(c, cluster)
  {
  }

  lemma Chains(a: Database, b: Database, c: Database, cluster: string)
    ensures Kept(a, b, cluster) && Kept(b, c, cluster) ==> Kept(a, c, cluster)
    ensures Gone(b, cluster) && Kept(b, c, cluster) ==> Gone(c, cluster)
    ensures Kept(a, b, cluster) && Leaked(b, c, cluster) ==> Leaked(a, c, cluster)
    ensures Leaked(a, b, cluster) && Kept(b, c, cluster) ==> Leaked(a, c, cluster)
  {
  }

  /** A hub whose resources are gone is not found again, whatever edges it has left. */
  lemma ForgottenHub(db: Database, request: string, c: string)
    requires RowsGone(db, c)
    ensures c !in OldHubs(db, request)
  {
    forall u | HubRow(db, u) ensures db.resources[u].cluster != c {
      assert !OwnedBy(RowAt(db, u), c);
    }
  }

  lemma KeptHub(before: Database, after: Database, request: string, c: string)
    requires RowsKept(before, after, c)
    ensures c in OldHubs(after, request) <==> c in OldHubs(before, request)
  {
    forall u | u in before.resources && before.resources[u].cluster == c
      ensures HubRow(after, u) <==> HubRow(before, u)
      ensures u in after.resources && after.resources[u] == before.resources[u]
    { assert OwnedBy(RowAt(before, u), c); }
    forall u | u in after.resources && after.resources[u].cluster == c
      ensures u in before.resources && after.resources[u] == before.resources[u]
    { assert OwnedBy(RowAt(after, u), c); }
  }

  // What becomes of the two statements for one former hub.
  datatype Try = Try(hub: string, first: Write, second: Write)

  // The resources are removed, but the second statement is not reached or has no effect.
  predicate Leaks(first: Write, second: Write) {
    first == Failed(true) || (first.Taken? && second == Failed(false))
  }

  predicate Clears(first: Write, second: Write) {
    first.Taken? && second.Taken?
  }

  // The deletions of one former hub, in two statements without a transaction around them.
  method DeleteOldHub(pool: Pool, c: string, first: Write, second: Write) returns (ok: bool)
    modifies pool
    ensures forall d | d != c :: Kept(old(pool.db), pool.db, d)
    ensures if Leaks(first, second) then Leaked(old(pool.db), pool.db, c)
            else if first == Failed(false) then pool.db == old(pool.db) else Gone(pool.db, c)
    ensures ok <==> Clears(first, second)
  {
    ghost var before := pool.db;
    ResourcesRemoved(before, c, first);
    pool.db := if first.Taken? || first.applied then WithoutResources(pool.db, c) else pool.db;
    ghost var middle := pool.db;
    if !first.Taken? { return false; }
    EdgesRemoved(middle, c, second);
    pool.db := if second.Taken? || second.applied then WithoutEdges(pool.db, c) else pool.db;
    ok := second.Taken?;
    forall d ensures d != c ==> Kept(before, pool.db, d) { KeptTwice(before, middle, pool.db, d); }
    KeptTwice(before, middle, pool.db, c);
  }

  // ----- One pass -----

  // Whether the query is answered, and what becomes of the two statements for the i-th hub found.
  datatype Pass = Pass(answered: bool, resources: nat -> Write, edges: nat -> Write)

  // The first of `n` hubs, from `i` on, at which the pass stops; `n` if there is none.
  function FirstStop(n: nat, pass: Pass, i: nat): (r: nat)
    requires i <= n
    ensures i <= r <= n
    ensures forall j | i <= j < r :: Clears(pass.resources(j), pass.edges(j))
    ensures r < n ==> !Clears(pass.resources(r), pass.edges(r))
    decreases n - i
  {
    if i == n || !Clears(pass.resources(i), pass.edges(i)) then i else FirstStop(n, pass, i + 1)
  }

  // The pass gets through `n` hubs.
  predicate GetsThrough(n: nat, pass: Pass) {
    pass.answered && FirstStop(n, pass, 0) == n
  }

  // How many of `n` hubs the pass tries, and from how many it removes the resources.
  function Tried(n: nat, pass: Pass): (r: nat)
    ensures r <= n
  {
    if !pass.answered then 0 else if FirstStop(n, pass, 0) == n then n else FirstStop(n, pass, 0) + 1
  }

  function Removed(n: nat, pass: Pass): (r: nat)
    ensures r <= Tried(n, pass)
  {
    if !pass.answered then 0
    else
      var stop := FirstStop(n, pass, 0);
      if stop < n && pass.resources(stop) != Failed(false) then stop + 1 else stop
  }

  // The tries that the pass makes when it finds `n` hubs, whichever order the database gives them.
  predicate Follows(tries: seq<Try>, n: nat, pass: Pass) {
    && |tries| == Tried(n, pass)
    && forall i | 0 <= i < |tries| :: tries[i].first == pass.resources(i) && tries[i].second == pass.edges(i)
  }

  ghost predicate LeaksIn(tries: seq<Try>, c: string) {
    exists i :: 0 <= i < |tries| && tries[i].hub == c && Leaks(tries[i].first, tries[i].second)
  }

  // Which hubs are left: those whose resources were kept.
  lemma HubsLeft(before: Database, after: Database, request: string, left: set<string>)
    requires left <= OldHubs(before, request)
    requires forall c | c !in OldHubs(before, request) || c in left :: RowsKept(before, after, c)
    requires forall c | c in OldHubs(before, request) && c !in left :: RowsGone(after, c)
    ensures OldHubs(after, request) == left
  {
    hide OldHubs, RowsKept, RowsGone;
    forall c ensures c in OldHubs(after, request) <==> c in left {
      if c !in OldHubs(before, request) || c in left { KeptHub(before, after, request, c); }
      else { ForgottenHub(after, request, c); }
    }
  }

  // The hubs in `todo` are as they were, the others are gone.
  ghost predicate HalfWay(before: Database, now: Database, hubs: set<string>, todo: set<string>) {
    && todo <= hubs
    && (forall d | d !in hubs || d in todo :: Kept(before, now, d))
    && (forall d | d in hubs && d !in todo :: Gone(now, d))
  }

  lemma OneMore(
    before: Database, middle: Database, after: Database, request: string, todo: set<string>, c: string,
    first: Write, second: Write)
    requires HalfWay(before, middle, OldHubs(before, request), todo) && c in todo
    requires forall d | d != c :: Kept(middle, after, d)
    requires if Leaks(first, second) then Leaked(middle, after, c)
             else if first == Failed(false) then after == middle else Gone(after, c)
    ensures Progress(before, after, OldHubs(before, request), if Leaks(first, second) then {c} else {})
    ensures OldHubs(after, request) == if first == Failed(false) then todo else todo - {c}
    ensures Clears(first, second) ==> HalfWay(before, after, OldHubs(before, request), todo - {c})
  {
    var hubs := OldHubs(before, request);
    hide OldHubs, RowsKept, RowsGone, EdgesKept, EdgesGone;
    forall d
      ensures d !in hubs || d in todo - {c} ==> Kept(before, after, d)
      ensures d in hubs && d !in todo ==> Gone(after, d)
      ensures d == c && first == Failed(false) ==> Kept(before, after, d)
      ensures d == c && Leaks(first, second) ==> Leaked(before, after, c)
    {
      Chains(before, middle, after, d);
    }
    HubsLeft(before, after, request, if first == Failed(false) then todo else todo - {c});
  }

  // The tries of a pass that finds the hubs `hubs`, and the hubs that they leak.
  ghost predicate Account(tries: seq<Try>, hubs: set<string>, pass: Pass, leaked: set<string>) {
    && Follows(tries, |hubs|, pass)
    && (forall i | 0 <= i < |tries| :: tries[i].hub in hubs)
    && (forall c :: c in leaked <==> LeaksIn(tries, c))
  }

  // So far the pass got through.
  ghost predicate Through(tries: seq<Try>, hubs: set<string>, pass: Pass) {
    forall j | 0 <= j < |tries| ::
      tries[j].hub in hubs && tries[j].first == pass.resources(j) && tries[j].second == pass.edges(j)
      && Clears(tries[j].first, tries[j].second)
  }

  /** One pass of the clean-up over the former hubs, in any order, up to the first failure. Whether it
      gets through, how many hubs it tries and how many are left follows from their number and the
      outcomes of its statements; a hub is leaked exactly if it was tried with outcomes that leak. */
  method CheckHubClusterRename(pool: Pool, request: string, pass: Pass)
      returns (ok: bool, ghost leaked: set<string>, ghost tries: seq<Try>)
    modifies pool
    ensures var hubs := OldHubs(old(pool.db), request);
      && Progress(old(pool.db), pool.db, hubs, leaked)
      && (ok <==> GetsThrough(|hubs|, pass))
      && Account(tries, hubs, pass, leaked)
      && |OldHubs(pool.db, request)| == |hubs| - Removed(|hubs|, pass)
      && (ok ==> forall c | c in hubs :: Gone(pool.db, c))
  {
    hide Kept, Gone, Leaked, OldHubs, Leaks, Account, Through, GetsThrough, Removed, HalfWay, Progress;
    ghost var before, hubs := pool.db, OldHubs(pool.db, request);
    leaked, tries := {}, [];
    AtFirst(before, hubs, pass);
    if !pass.answered { return false, {}, []; }
    var todo := OldHubs(pool.db, request);
    var i := 0;
    while todo != {}
      invariant HalfWay(before, pool.db, hubs, todo) && OldHubs(pool.db, request) == todo
      invariant |todo| == |hubs| - i && |tries| == i && Through(tries, hubs, pass)
      decreases todo
    {
      var c :| c in todo;
      ghost var middle := pool.db;
      var done := DeleteOldHub(pool, c, pass.resources(i), pass.edges(i));
      OneMore(before, middle, pool.db, request, todo, c, pass.resources(i), pass.edges(i));
      assert |todo - {c}| == |todo| - 1;
      assert c in hubs by { InHubs(before, middle, hubs, todo, c); }
      ghost var t := Try(c, pass.resources(i), pass.edges(i));
      OneTry(tries, hubs, pass, t);
      tries := tries + [t];
      if !done {
        return false, if Leaks(t.first, t.second) then {c} else {}, tries;
      }
      todo := todo - {c};
      i := i + 1;
    }
    AllThrough(before, pool.db, tries, hubs, pass);
    return true, {}, tries;
  }

  lemma AtFirst(db: Database, hubs: set<string>, pass: Pass)
    ensures Progress(db, db, hubs, {}) && HalfWay(db, db, hubs, hubs) && Through([], hubs, pass)
    ensures !pass.answered ==> Account([], hubs, pass, {}) && !GetsThrough(|hubs|, pass) && Removed(|hubs|, pass) == 0
  {
  }

  lemma InHubs(before: Database, now: Database, hubs: set<string>, todo: set<string>, c: string)
    requires HalfWay(before, now, hubs, todo) && c in todo
    ensures c in hubs
  {
  }

  // One more try: the pass stops there, or it is still getting through.
  lemma OneTry(tries: seq<Try>, hubs: set<string>, pass: Pass, t: Try)
    requires Through(tries, hubs, pass) && |tries| < |hubs| && pass.answered && t.hub in hubs
    requires t.first == pass.resources(|tries|) && t.second == pass.edges(|tries|)
    ensures if Clears(t.first, t.second) then Through(tries + [t], hubs, pass)
            else
              && Account(tries + [t], hubs, pass, if Leaks(t.first, t.second) then {t.hub} else {})
              && !GetsThrough(|hubs|, pass)
              && Removed(|hubs|, pass) == |tries| + if t.first == Failed(false) then 0 else 1
  {
    hide Leaks;
    if !Clears(t.first, t.second) {
      StopsAt(|hubs|, pass, |tries|);
      LeaksLast(tries + [t], if Leaks(t.first, t.second) then {t.hub} else {});
    }
  }

  lemma AllThrough(before: Database, now: Database, tries: seq<Try>, hubs: set<string>, pass: Pass)
    requires Through(tries, hubs, pass) && |tries| == |hubs| && pass.answered && HalfWay(before, now, hubs, {})
    ensures Account(tries, hubs, pass, {}) && GetsThrough(|hubs|, pass) && Removed(|hubs|, pass) == |hubs|
    ensures Progress(before, now, hubs, {}) && forall c | c in hubs :: Gone(now, c)
  {
  }

  lemma StopsAt(n: nat, pass: Pass, i: nat)
    requires i <= n && forall j | 0 <= j < i :: Clears(pass.resources(j), pass.edges(j))
    requires i < n ==> !Clears(pass.resources(i), pass.edges(i))
    ensures FirstStop(n, pass, 0) == i
  {
  }

  lemma LeaksNone(tries: seq<Try>)
    requires forall j | 0 <= j < |tries| :: Clears(tries[j].first, tries[j].second)
    ensures forall c :: !LeaksIn(tries, c)
  {
  }

  lemma LeaksLast(tries: seq<Try>, leaked: set<string>)
    requires tries != [] && forall j | 0 <= j < |tries| - 1 :: Clears(tries[j].first, tries[j].second)
    requires var last := tries[|tries| - 1]; leaked == if Leaks(last.first, last.second) then {last.hub} else {}
    ensures forall c :: c in leaked <==> LeaksIn(tries, c)
  {
  }

  // ----- The retry loop -----

  // How many of `n` hubs are left after the passes.
  function Left(n: nat, script: seq<Pass>): nat {
    if script == [] then n
    else
      var before := Left(n, script[..|script| - 1]);
      before - Removed(before, script[|script| - 1])
  }

  predicate Finishes(n: nat, script: seq<Pass>, p: nat) {
    p < |script| && GetsThrough(Left(n, script[..p]), script[p])
  }

  ghost predicate LeaksInSome(tries: seq<seq<Try>>, c: string) {
    exists p :: 0 <= p < |tries| && LeaksIn(tries[p], c)
  }

  // The tries of the first passes of the script, none of which gets through but possibly the last, and
  // the hubs that they leak.
  ghost predicate Trail(tries: seq<seq<Try>>, script: seq<Pass>, hubs: set<string>, leaked: set<string>) {
    && |tries| <= |script|
    && (forall p: nat | p + 1 < |tries| :: !Finishes(|hubs|, script, p))
    && (forall p | 0 <= p < |tries| :: Follows(tries[p], Left(|hubs|, script[..p]), script[p]))
    && (forall p, i | 0 <= p < |tries| && 0 <= i < |tries[p]| :: tries[p][i].hub in hubs)
    && (forall c :: c in leaked <==> LeaksInSome(tries, c))
  }

  lemma NoTries(script: seq<Pass>, hubs: set<string>)
    ensures Trail([], script, hubs, {})
  {
  }

  lemma LeaksSnoc(tries: seq<seq<Try>>, more: seq<Try>, c: string)
    ensures LeaksInSome(tries + [more], c) <==> LeaksInSome(tries, c) || LeaksIn(more, c)
  {
    var all := tries + [more];
    if LeaksInSome(tries, c) {
      var p :| 0 <= p < |tries| && LeaksIn(tries[p], c);
      assert all[p] == tries[p];
    }
    if LeaksIn(more, c) { assert all[|tries|] == more; }
  }

  lemma LeftSnoc(n: nat, script: seq<Pass>, p: nat)
    requires p < |script|
    ensures Left(n, script[..p + 1]) == Left(n, script[..p]) - Removed(Left(n, script[..p]), script[p])
  {
    assert script[..p + 1][..p] == script[..p];
  }

  lemma TrailSnoc(
    tries: seq<seq<Try>>, script: seq<Pass>, hubs: set<string>, leaked: set<string>, now: seq<Try>,
    left: set<string>, more: set<string>)
    requires Trail(tries, script, hubs, leaked) && |tries| < |script|
    requires |tries| > 0 ==> !Finishes(|hubs|, script, |tries| - 1)
    requires left <= hubs && |left| == Left(|hubs|, script[..|tries|])
    requires Account(now, left, script[|tries|], more)
    ensures Trail(tries + [now], script, hubs, leaked + more)
  {
    hide Follows, Finishes, LeaksIn, LeaksInSome, Left;
    forall c ensures c in leaked + more <==> LeaksInSome(tries + [now], c) { LeaksSnoc(tries, now, c); }
    var all := tries + [now];
    forall p | 0 <= p < |all| ensures Follows(all[p], Left(|hubs|, script[..p]), script[p]) {
      if p < |tries| { assert all[p] == tries[p]; }
    }
    forall p, i | 0 <= p < |all| && 0 <= i < |all[p]| ensures all[p][i].hub in hubs {
      if p < |tries| { assert all[p] == tries[p]; }
    }
  }

  lemma ProgressTwice(
    before: Database, middle: Database, after: Database, request: string, leaked: set<string>, more: set<string>)
    requires Progress(before, middle, OldHubs(before, request), leaked)
    requires Progress(middle, after, OldHubs(middle, request), more)
    ensures Progress(before, after, OldHubs(before, request), leaked + more)
    ensures forall c | c in OldHubs(before, request) ::
      c in leaked || Gone(middle, c) || c in OldHubs(middle, request)
    ensures more !! leaked && OldHubs(middle, request) <= OldHubs(before, request)
  {
    hide OldHubs;
    var hubs, left := OldHubs(before, request), OldHubs(middle, request);
    forall c
      ensures c !in hubs ==> c !in left && Kept(before, after, c)
      ensures c in hubs && c in leaked + more ==> Leaked(before, after, c)
      ensures c in hubs && c !in leaked + more ==> Kept(before, after, c) || Gone(after, c)
      ensures c in hubs && c !in leaked ==> Gone(middle, c) || c in left
      ensures c in leaked ==> c !in left
    {
      hide Progress;
      ProgressOf(before, middle, hubs, leaked, c);
      ProgressOf(middle, after, left, more, c);
      KeptTwice(before, middle, after, c);
      if RowsGone(middle, c) { ForgottenHub(middle, request, c); }
      if RowsKept(before, middle, c) { KeptHub(before, middle, request, c); }
    }
  }

  lemma ProgressOf(before: Database, after: Database, hubs: set<string>, leaked: set<string>, c: string)
    requires Progress(before, after, hubs, leaked)
    ensures c !in hubs ==> Kept(before, after, c) && c !in leaked
    ensures c in hubs ==> if c in leaked then Leaked(before, after, c) else Kept(before, after, c) || Gone(after, c)
  {
  }

  /** The clean-up, retried until a pass gets through. Which pass that is follows from the script and the
      number of former hubs. Then no former hub has a resource left, and it has no edge left if and only
      if it had none or no try of it leaked: none whose first statement was applied behind a failure, or
      succeeded before the second one failed without effect. Other clusters keep everything in any case. */
  method HubClusterCleanUpWithRetry(pool: Pool, request: string, script: seq<Pass>, maxBackoffMS: nat)
      returns (done: bool, ghost leaked: set<string>, ghost tries: seq<seq<Try>>, slept: nat, retry: nat)
    modifies pool
    ensures Progress(old(pool.db), pool.db, OldHubs(old(pool.db), request), leaked)
    ensures Trail(tries, script, OldHubs(old(pool.db), request), leaked)
    ensures done <==> exists p: nat :: Finishes(|OldHubs(old(pool.db), request)|, script, p)
    ensures forall p: nat | p < retry :: !Finishes(|OldHubs(old(pool.db), request)|, script, p)
    ensures if done then Finishes(|OldHubs(old(pool.db), request)|, script, retry) && |tries| == retry + 1
            else |tries| == retry == |script|
    ensures done ==> forall c | c in OldHubs(old(pool.db), request) ::
      RowsGone(pool.db, c) && (EdgesGone(pool.db, c) <==> c !in leaked || EdgesGone(old(pool.db), c))
    ensures done ==> OldHubs(pool.db, request) == {}
    ensures forall c | c == request || c == "" || OnlyNodesMarked(old(pool.db), c) :: Kept(old(pool.db), pool.db, c)
    ensures slept == TotalWait(retry, maxBackoffMS)
  {
    hide OldHubs, Progress, Kept, Gone, Account, Trail, GetsThrough, Removed, Left, TotalWait, RowsGone, EdgesGone,
      OnlyNodesMarked;
    ghost var before, hubs := pool.db, OldHubs(pool.db, request);
    done, leaked, tries, slept, retry := false, {}, [], 0, 0;
    ProgressAtFirst(before, hubs);
    NoTries(script, hubs);
    Start(|hubs|, script, maxBackoffMS);
    while retry < |script|
      invariant retry <= |script| && |tries| == retry && slept == TotalWait(retry, maxBackoffMS)
      invariant Progress(before, pool.db, hubs, leaked)
      invariant |OldHubs(pool.db, request)| == Left(|hubs|, script[..retry])
      invariant forall p: nat | p < retry :: !Finishes(|hubs|, script, p)
      invariant Trail(tries, script, hubs, leaked)
    {
      ghost var middle, soFar, left := pool.db, leaked, OldHubs(pool.db, request);
      var ok;
      ghost var more, now;
      ok, more, now := CheckHubClusterRename(pool, request, script[retry]);
      ProgressTwice(before, middle, pool.db, request, leaked, more);
      TrailSnoc(tries, script, hubs, leaked, now, left, more);
      LeftSnoc(|hubs|, script, retry);
      leaked, tries := leaked + more, tries + [now];
      if ok {
        assert more == {} by { OkLeaksNothing(now, left, script[retry], more); }
        Finished(before, middle, pool.db, request, soFar);
        assert Finishes(|hubs|, script, retry);
        OthersAreKept(before, pool.db, request, leaked);
        return true, leaked, tries, slept, retry;
      }
      slept := slept + WaitMS(retry, maxBackoffMS);
      retry := retry + 1;
      Slept(retry, maxBackoffMS);
    }
    OthersAreKept(before, pool.db, request, leaked);
  }

  lemma OthersAreKept(before: Database, after: Database, request: string, leaked: set<string>)
    requires Progress(before, after, OldHubs(before, request), leaked)
    ensures forall c | c == request || c == "" || OnlyNodesMarked(before, c) :: Kept(before, after, c)
  {
    hide Kept, OnlyNodesMarked;
  }

  lemma Start(n: nat, script: seq<Pass>, maxBackoffMS: nat)
    ensures Left(n, script[..0]) == n && TotalWait(0, maxBackoffMS) == 0
  {
  }

  lemma Slept(retry: nat, maxBackoffMS: nat)
    requires retry > 0
    ensures TotalWait(retry, maxBackoffMS) == TotalWait(retry - 1, maxBackoffMS) + WaitMS(retry - 1, maxBackoffMS)
  {
  }

  lemma OkLeaksNothing(tries: seq<Try>, hubs: set<string>, pass: Pass, leaked: set<string>)
    requires Account(tries, hubs, pass, leaked) && GetsThrough(|hubs|, pass)
    ensures leaked == {}
  {
  }

  /** A run at which the clean-up fails its purpose: the edges are not deleted in the first pass, and the
      second one, which goes without a failure, does not find the hub any more. */
  method EdgesOfFormerHubStay(pool: Pool, request: string, hub: string, k: EdgeKey) returns (done: bool)
    requires OldHubs(pool.db, request) == {hub} && EdgeOwnedBy(EdgeAt(pool.db, k), hub)
    modifies pool
    ensures done && RowsGone(pool.db, hub) && EdgeAt(pool.db, k) == EdgeAt(old(pool.db), k)
  {
    var taken := (i: nat) => Taken;
    var script := [Pass(true, taken, (i: nat) => Failed(false)), Pass(true, taken, taken)];
    assert script[..0] == [] && script[..1] == [script[0]] && [script[0]][..0] == [];
    assert FirstStop(1, script[0], 0) == 0 && Left(1, script[..1]) == 0;
    assert Finishes(1, script, 1) && !Finishes(1, script, 0);
    ghost var leaked, tries;
    var slept, retry;
    done, leaked, tries, slept, retry := HubClusterCleanUpWithRetry(pool, request, script, 0);
    assert LeaksIn(tries[0], hub) by { assert tries[0][0].hub == hub; }
    assert hub in leaked;
  }

  /** When no statement fails, one answered pass removes every former hub with its edges. */
  method CleanPassRemovesFormerHubs(pool: Pool, request: string) returns (done: bool)
    modifies pool
    ensures done
    ensures forall u | u in old(pool.db).resources ::
      var row := old(pool.db).resources[u];
      row.cluster != request && row.cluster != "" && "_hubClusterResource" in row.data && "kind" in row.data &&
      row.data["kind"] != Text("Cluster") ==>
        Gone(pool.db, row.cluster)
  {
    var taken := (i: nat) => Taken;
    var script := [Pass(true, taken, taken)];
    ghost var n := |OldHubs(pool.db, request)|;
    assert script[..0] == [];
    assert Finishes(n, script, 0);
    ghost var leaked, tries;
    var slept, retry;
    done, leaked, tries, slept, retry := HubClusterCleanUpWithRetry(pool, request, script, 0);
    LeaksNone(tries[0]);
    assert forall c :: !LeaksInSome(tries, c);
  }

  lemma ProgressAtFirst(db: Database, hubs: set<string>)
    ensures Progress(db, db, hubs, {})
  {
  }

  // After a pass without failure.
  lemma Finished(before: Database, middle: Database, after: Database, request: string, leaked: set<string>)
    requires Progress(before, middle, OldHubs(before, request), leaked)
    requires Progress(middle, after, OldHubs(middle, request), {}) && forall c | c in OldHubs(middle, request) ::
      Gone(after, c)
    ensures forall c | c in OldHubs(before, request) ::
      RowsGone(after, c) && (EdgesGone(after, c) <==> c !in leaked || EdgesGone(before, c))
    ensures OldHubs(after, request) == {}
  {
    hide OldHubs;
    var hubs, left := OldHubs(before, request), OldHubs(middle, request);
    ProgressTwice(before, middle, after, request, leaked, {});
    forall c
      ensures c in hubs ==> RowsGone(after, c) && (EdgesGone(after, c) <==> c !in leaked || EdgesGone(before, c))
      ensures c !in OldHubs(after, request)
    {
      hide Progress;
      ProgressOf(before, middle, hubs, leaked, c);
      ProgressOf(middle, after, left, {}, c);
      ProgressOf(before, after, hubs, leaked + {}, c);
      KeptTwice(before, middle, after, c);
      KeptTwice(middle, before, after, c);
      if RowsGone(after, c) { ForgottenHub(after, request, c); }
      if RowsKept(before, after, c) { KeptHub(before, after, request, c); }
    }
  }
}
