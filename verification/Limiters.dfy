/** The two request limiters. Each checks and then counts in separate critical sections, so that
    between the two a request is counted nowhere: it is in the gap. */
module Limiters {
  // ----- Large requests -----

  // Requests carry a number. `gap` holds those that passed the check and are not yet counted.
  datatype Large = Large(counter: int, gap: set<nat>, serving: set<nat>)

  datatype Move = Check(id: nat) | Enter(id: nat) | Leave(id: nat)

  function LargeStep(s: Large, limit: int, move: Move): Large {
    match move
    case Check(id) =>
      if id in s.gap + s.serving || s.counter >= limit then s else s.(gap := s.gap + {id})
    case Enter(id) =>
      if id !in s.gap then s else Large(s.counter + 1, s.gap - {id}, s.serving + {id})
    case Leave(id) =>
      if id !in s.serving then s else Large(s.counter - 1, s.gap, s.serving - {id})
  }

  function LargeRun(s: Large, limit: int, moves: seq<Move>): Large
    decreases |moves|
  {
    if moves == [] then s else LargeRun(LargeStep(s, limit, moves[0]), limit, moves[1..])
  }

  // In every state of the run at most `g` requests are in the gap.
  ghost predicate LargeGap(s: Large, limit: int, moves: seq<Move>, g: nat)
    decreases |moves|
  {
    |s.gap| <= g && (moves != [] ==> LargeGap(LargeStep(s, limit, moves[0]), limit, moves[1..], g))
  }

  function Idle(): Large { Large(0, {}, {}) }

  function Bound(limit: int, g: nat): int {
    if limit - 1 + g < 0 then 0 else limit - 1 + g
  }

  ghost predicate LargeInv(s: Large, limit: int, g: nat) {
    s.counter == |s.serving| && s.gap !! s.serving && s.counter + |s.gap| <= Bound(limit, g)
  }

  class LargeRequestLimiter {
    const limit: int
    var largeRequestCountTracker: int
    ghost var gap: set<nat>
    ghost var serving: set<nat>

    constructor (limit: int)
      ensures this.limit == limit && View() == Idle()
    {
      this.limit := limit;
      largeRequestCountTracker, gap, serving := 0, {}, {};
    }

    ghost function View(): Large
      reads this
    {
      Large(largeRequestCountTracker, gap, serving)
    }

    // The first critical section: read the counter and decide.
    method CheckCount(ghost id: nat) returns (accepted: bool)
      requires id !in gap + serving
      modifies this`gap
      ensures View() == LargeStep(old(View()), limit, Check(id)) && (accepted <==> id in gap)
      ensures accepted <==> largeRequestCountTracker < limit
    {
      var largeRequestCount := largeRequestCountTracker;
      if largeRequestCount >= limit { return false; }
      gap := gap + {id};
      return true;
    }

    // The second one: count the request.
    method Increment(ghost id: nat)
      requires id in gap
      modifies this
      ensures View() == LargeStep(old(View()), limit, Enter(id))
    {
      largeRequestCountTracker := largeRequestCountTracker + 1;
      gap, serving := gap - {id}, serving + {id};
    }

    // Deferred to the end of the request.
    method Decrement(ghost id: nat)
      requires id in serving
      modifies this
      ensures View() == LargeStep(old(View()), limit, Leave(id))
    {
      largeRequestCountTracker := largeRequestCountTracker - 1;
      serving := serving - {id};
    }
  }

  /** Over every interleaving in which at most g requests are ever in the gap, the counter is the
      number of requests being served - so it is back at 0 when none is - and the counter and the gap
      together stay within limit - 1 + g. */
  lemma {:induction false} LargeRequestsBounded(s: Large, limit: int, moves: seq<Move>, g: nat)
    requires LargeInv(s, limit, g) && LargeGap(s, limit, moves, g)
    ensures LargeInv(LargeRun(s, limit, moves), limit, g)
    decreases |moves|
  {
    if moves != [] {
      LargeRequestsBounded(LargeStep(s, limit, moves[0]), limit, moves[1..], g);
    }
  }

  lemma {:induction false} LargeRunConcat(s: Large, limit: int, a: seq<Move>, b: seq<Move>, g: nat)
    ensures LargeRun(s, limit, a + b) == LargeRun(LargeRun(s, limit, a), limit, b)
    ensures LargeGap(s, limit, a, g) && LargeGap(LargeRun(s, limit, a), limit, b, g) ==> LargeGap(s, limit, a + b, g)
    decreases |a|
  {
    if a == [] {
      assert a + b == b;
    } else {
      assert (a + b)[1..] == a[1..] + b;
      LargeRunConcat(LargeStep(s, limit, a[0]), limit, a[1..], b, g);
    }
  }

  lemma LargeSnoc(s: Large, limit: int, a: seq<Move>, move: Move, g: nat)
    requires LargeGap(s, limit, a, g) && |LargeStep(LargeRun(s, limit, a), limit, move).gap| <= g
    ensures LargeRun(s, limit, a + [move]) == LargeStep(LargeRun(s, limit, a), limit, move)
    ensures LargeGap(s, limit, a + [move], g)
  {
    var t := LargeRun(s, limit, a);
    LargeRunConcat(s, limit, a, [move], g);
    assert [move][1..] == [];
    assert LargeRun(t, limit, [move]) == LargeRun(LargeStep(t, limit, move), limit, []);
    LargeGapEnd(s, limit, a, g);
    assert LargeGap(LargeStep(t, limit, move), limit, [], g);
  }

  lemma {:induction false} LargeGapEnd(s: Large, limit: int, a: seq<Move>, g: nat)
    requires LargeGap(s, limit, a, g)
    ensures |LargeRun(s, limit, a).gap| <= g
    decreases |a|
  {
    if a != [] { LargeGapEnd(LargeStep(s, limit, a[0]), limit, a[1..], g); }
  }

  function Upto(n: nat, m: nat): (r: set<nat>)
    requires n <= m
    ensures forall i :: i in r <==> n <= i < m
    ensures |r| == m - n
    decreases m - n
  {
    if n == m then {} else Upto(n, m - 1) + {m - 1}
  }

  // `served` requests are served and the next `waiting` ones are in the gap.
  function Crowd(served: nat, waiting: nat): Large {
    Large(served, Upto(served, served + waiting), Upto(0, served))
  }

  lemma CrowdChecks(limit: int, served: nat, waiting: nat)
    requires served < limit
    ensures LargeStep(Crowd(served, waiting), limit, Check(served + waiting)) == Crowd(served, waiting + 1)
  {
  }

  lemma CrowdEnters(limit: int, served: nat, waiting: nat)
    requires waiting > 0
    ensures LargeStep(Crowd(served, waiting), limit, Enter(served)) == Crowd(served + 1, waiting - 1)
  {
  }

  // A run to such a crowd, letting the requests in one by one.
  lemma {:induction false} Gather(limit: int, g: nat, served: nat, waiting: nat) returns (moves: seq<Move>)
    requires 1 <= g && waiting <= g && served < limit
    ensures LargeGap(Idle(), limit, moves, g) && LargeRun(Idle(), limit, moves) == Crowd(served, waiting)
    decreases served, waiting
  {
    hide LargeGap, LargeRun, LargeStep, Upto;
    if waiting > 0 {
      var a := Gather(limit, g, served, waiting - 1);
      CrowdChecks(limit, served, waiting - 1);
      LargeSnoc(Idle(), limit, a, Check(served + waiting - 1), g);
      moves := a + [Check(served + waiting - 1)];
    } else if served > 0 {
      var a := Gather(limit, g, served - 1, 1);
      CrowdEnters(limit, served - 1, 1);
      LargeSnoc(Idle(), limit, a, Enter(served - 1), g);
      moves := a + [Enter(served - 1)];
    } else {
      moves := [];
      NoMoves(limit, g);
    }
  }

  lemma NoMoves(limit: int, g: nat)
    ensures LargeGap(Idle(), limit, [], g) && LargeRun(Idle(), limit, []) == Crowd(0, 0)
  {
  }

  // With limit - 1 served, g requests pass the check, and then all of them get in.
  lemma {:induction false} Rush(limit: int, g: nat, entered: nat) returns (moves: seq<Move>)
    requires 1 <= g && 1 <= limit && entered <= g
    ensures LargeGap(Idle(), limit, moves, g) &&
      LargeRun(Idle(), limit, moves) == Crowd(limit - 1 + entered, g - entered)
    decreases entered
  {
    hide LargeGap, LargeRun, LargeStep, Upto;
    if entered == 0 {
      moves := Gather(limit, g, limit - 1, g);
    } else {
      var a := Rush(limit, g, entered - 1);
      var id := limit - 2 + entered;
      CrowdEnters(limit, id, g - entered + 1);
      LargeSnoc(Idle(), limit, a, Enter(id), g);
      moves := a + [Enter(id)];
    }
  }

  /** The limit is never exceeded if and only if the check and the increment never overlap: with two
      requests in the gap it can be. */
  lemma LargeLimitHolds(limit: int, g: nat)
    requires 1 <= limit
    ensures (forall moves | LargeGap(Idle(), limit, moves, g) :: LargeRun(Idle(), limit, moves).counter <= limit) <==>
      g <= 1
  {
    if g <= 1 {
      forall moves | LargeGap(Idle(), limit, moves, g) ensures LargeRun(Idle(), limit, moves).counter <= limit {
        LargeRequestsBounded(Idle(), limit, moves, g);
      }
    } else {
      var moves := Rush(limit, g, g);
      assert LargeRun(Idle(), limit, moves).counter == limit - 1 + g;
    }
  }

  // ----- One request per cluster -----

  datatype Requests = Requests(tracker: set<string>, gap: map<nat, string>, serving: map<nat, string>)

  datatype Action = CheckIn(id: nat, cluster: string, hub: bool) | Insert(id: nat) | Delete(id: nat)

  function RequestStep(s: Requests, limit: int, action: Action): Requests {
    match action
    case CheckIn(id, cluster, hub) =>
      if id in s.gap || id in s.serving || cluster in s.tracker || (|s.tracker| >= limit && !hub) then s
      else s.(gap := s.gap[id := cluster])
    case Insert(id) =>
      if id !in s.gap then s
      else Requests(s.tracker + {s.gap[id]}, s.gap - {id}, s.serving[id := s.gap[id]])
    case Delete(id) =>
      if id !in s.serving then s
      else Requests(s.tracker - {s.serving[id]}, s.gap, s.serving - {id})
  }

  function RequestRun(s: Requests, limit: int, actions: seq<Action>): Requests
    decreases |actions|
  {
    if actions == [] then s else RequestRun(RequestStep(s, limit, actions[0]), limit, actions[1..])
  }

  function NoRequests(): Requests { Requests({}, map[], map[]) }

  class RequestLimiter {
    const limit: int
    var requestTracker: set<string>
    ghost var gap: map<nat, string>
    ghost var serving: map<nat, string>

    constructor (limit: int)
      ensures this.limit == limit && View() == NoRequests()
    {
      this.limit := limit;
      requestTracker, gap, serving := {}, map[], map[];
    }

    ghost function View(): Requests
      reads this
    {
      Requests(requestTracker, gap, serving)
    }

    // The first critical section and the decision: a cluster with a request under way is rejected,
    // and so is a request beyond the limit unless it comes from the hub itself.
    method CheckTracker(ghost id: nat, clusterName: string, hubClusterReq: bool) returns (accepted: bool)
      requires id !in gap && id !in serving
      modifies this`gap
      ensures View() == RequestStep(old(View()), limit, CheckIn(id, clusterName, hubClusterReq)) &&
        (accepted <==> id in gap)
      ensures accepted <==> clusterName !in requestTracker && (|requestTracker| < limit || hubClusterReq)
    {
      var requestCount := |requestTracker|;
      var foundClusterProcessing := clusterName in requestTracker;
      if foundClusterProcessing { return false; }
      if requestCount >= limit && !hubClusterReq { return false; }
      gap := gap[id := clusterName];
      return true;
    }

    method InsertRequest(ghost id: nat, clusterName: string)
      requires id in gap && gap[id] == clusterName
      modifies this
      ensures View() == RequestStep(old(View()), limit, Insert(id))
    {
      requestTracker := requestTracker + {clusterName};
      gap, serving := gap - {id}, serving[id := clusterName];
    }

    method DeleteRequest(ghost id: nat, clusterName: string)
      requires id in serving && serving[id] == clusterName
      modifies this
      ensures View() == RequestStep(old(View()), limit, Delete(id))
    {
      requestTracker := requestTracker - {clusterName};
      serving := serving - {id};
    }
  }

  // No request comes from the hub, and at most `g` are ever in the gap.
  ghost predicate RequestGap(s: Requests, limit: int, actions: seq<Action>, g: nat)
    decreases |actions|
  {
    |s.gap| <= g
    && (actions != [] ==>
          (actions[0].CheckIn? ==> !actions[0].hub) &&
            RequestGap(RequestStep(s, limit, actions[0]), limit, actions[1..], g))
  }

  /** However full the tracker is, a request of the hub gets in, unless one of its own is counted;
      a request of another cluster does so exactly below the limit. */
  lemma HubPassesFullTracker(s: Requests, limit: int, actions: seq<Action>, id: nat, cluster: string, hub: bool)
    requires var t := RequestRun(s, limit, actions); id !in t.gap && id !in t.serving && cluster !in t.tracker
    ensures var t := RequestRun(s, limit, actions);
      RequestRun(s, limit, actions + [CheckIn(id, cluster, hub), Insert(id)])
      == if hub || |t.tracker| < limit
         then Requests(t.tracker + {cluster}, t.gap, t.serving[id := cluster]) else t
  {
    hide RequestStep;
    var t := RequestRun(s, limit, actions);
    var enter := [CheckIn(id, cluster, hub), Insert(id)];
    RequestRunConcat(s, limit, actions, enter, 0);
    var u := RequestStep(t, limit, enter[0]);
    assert enter[1..] == [Insert(id)] && [Insert(id)][1..] == [];
    assert RequestRun(t, limit, enter) == RequestRun(u, limit, [Insert(id)]) == RequestStep(u, limit, Insert(id));
    GetsIn(t, limit, id, cluster, hub);
  }

  lemma GetsIn(t: Requests, limit: int, id: nat, cluster: string, hub: bool)
    requires id !in t.gap && id !in t.serving && cluster !in t.tracker
    ensures RequestStep(RequestStep(t, limit, CheckIn(id, cluster, hub)), limit, Insert(id))
      == if hub || |t.tracker| < limit
         then Requests(t.tracker + {cluster}, t.gap, t.serving[id := cluster]) else t
  {
    assert t.gap[id := cluster] - {id} == t.gap;
  }

  lemma GapSize(gap: map<nat, string>, id: nat, cluster: string)
    ensures id !in gap ==> |gap[id := cluster]| == |gap| + 1
    ensures id in gap ==> |gap - {id}| == |gap| - 1
  {
  }

  /** Without hub requests, over every interleaving with at most g requests in the gap, the tracker and
      the gap together stay within limit - 1 + g. */
  lemma {:induction false} RequestsBounded(s: Requests, limit: int, actions: seq<Action>, g: nat)
    requires |s.tracker| + |s.gap| <= Bound(limit, g) && RequestGap(s, limit, actions, g)
    ensures var t := RequestRun(s, limit, actions); |t.tracker| + |t.gap| <= Bound(limit, g)
    decreases |actions|
  {
    if actions != [] {
      var action := actions[0];
      var t := RequestStep(s, limit, action);
      GapSize(s.gap, action.id, if action.CheckIn? then action.cluster else "");
      RequestsBounded(t, limit, actions[1..], g);
    }
  }

  lemma {:induction false} RequestRunConcat(s: Requests, limit: int, a: seq<Action>, b: seq<Action>, g: nat)
    ensures RequestRun(s, limit, a + b) == RequestRun(RequestRun(s, limit, a), limit, b)
    ensures RequestGap(s, limit, a, g) && RequestGap(RequestRun(s, limit, a), limit, b, g) ==>
      RequestGap(s, limit, a + b, g)
    decreases |a|
  {
    if a == [] {
      assert a + b == b;
    } else {
      assert (a + b)[1..] == a[1..] + b;
      RequestRunConcat(RequestStep(s, limit, a[0]), limit, a[1..], b, g);
    }
  }

  lemma {:induction false} RequestGapEnd(s: Requests, limit: int, a: seq<Action>, g: nat)
    requires RequestGap(s, limit, a, g)
    ensures |RequestRun(s, limit, a).gap| <= g
    decreases |a|
  {
    if a != [] { RequestGapEnd(RequestStep(s, limit, a[0]), limit, a[1..], g); }
  }

  lemma RequestSnoc(s: Requests, limit: int, a: seq<Action>, action: Action, g: nat)
    requires RequestGap(s, limit, a, g) && |RequestStep(RequestRun(s, limit, a), limit, action).gap| <= g
    requires action.CheckIn? ==> !action.hub
    ensures RequestRun(s, limit, a + [action]) == RequestStep(RequestRun(s, limit, a), limit, action)
    ensures RequestGap(s, limit, a + [action], g)
  {
    var t := RequestRun(s, limit, a);
    RequestRunConcat(s, limit, a, [action], g);
    assert [action][1..] == [];
    assert RequestRun(t, limit, [action]) == RequestRun(RequestStep(t, limit, action), limit, []);
    RequestGapEnd(s, limit, a, g);
    assert RequestGap(RequestStep(t, limit, action), limit, [], g);
  }

  // Clusters with different names, one for each number.
  function Name(i: nat): (name: string)
    ensures |name| == i
  {
    seq(i, j => 'c')
  }

  function Named(n: nat, m: nat): map<nat, string> {
    map i: nat | n <= i < m :: Name(i)
  }

  function Names(n: nat): set<string> {
    set i: nat | i < n :: Name(i)
  }

  lemma {:induction false} NamedSize(n: nat, m: nat)
    requires n <= m
    ensures |Named(n, m)| == m - n
    decreases m - n
  {
    if n < m {
      NamedSize(n, m - 1);
      assert Named(n, m).Keys == Named(n, m - 1).Keys + {m - 1};
    }
  }

  lemma {:induction false} NamesSize(n: nat)
    ensures |Names(n)| == n
  {
    if n > 0 {
      NamesSize(n - 1);
      NewName(n - 1, n - 1);
      assert Names(n) == Names(n - 1) + {Name(n - 1)};
    }
  }

  lemma NewName(n: nat, i: nat)
    requires n <= i
    ensures Name(i) !in Names(n)
  {
  }

  // Requests of different clusters: `served` are served and the next `waiting` ones are in the gap.
  function Queue(served: nat, waiting: nat): Requests {
    Requests(Names(served), Named(served, served + waiting), Named(0, served))
  }

  lemma QueueChecks(limit: int, served: nat, waiting: nat)
    requires served < limit
    ensures var i := served + waiting;
      RequestStep(Queue(served, waiting), limit, CheckIn(i, Name(i), false)) == Queue(served, waiting + 1)
  {
    var i := served + waiting;
    NewName(served, i);
    NamesSize(served);
    assert Named(served, i)[i := Name(i)] == Named(served, i + 1);
    assert i !in Named(served, i) && i !in Named(0, served);
    hide Named, Names, Name;
  }

  lemma QueueEnters(limit: int, served: nat, waiting: nat)
    requires waiting > 0
    ensures RequestStep(Queue(served, waiting), limit, Insert(served)) == Queue(served + 1, waiting - 1)
  {
    var gap := Named(served, served + waiting);
    assert served in gap && gap[served] == Name(served);
    assert gap - {served} == Named(served + 1, served + waiting);
    assert Named(0, served)[served := Name(served)] == Named(0, served + 1);
    assert Names(served) + {Name(served)} == Names(served + 1);
    hide Named, Names, Name;
  }

  lemma {:induction false} Assemble(limit: int, g: nat, served: nat, waiting: nat) returns (actions: seq<Action>)
    requires 1 <= g && waiting <= g && served < limit
    ensures RequestGap(NoRequests(), limit, actions, g)
    ensures RequestRun(NoRequests(), limit, actions) == Queue(served, waiting)
    decreases served, waiting
  {
    hide RequestGap, RequestRun, RequestStep, Named, Names, Name;
    NamedSize(served, served + waiting);
    if waiting > 0 {
      var a := Assemble(limit, g, served, waiting - 1);
      var action := CheckIn(served + waiting - 1, Name(served + waiting - 1), false);
      QueueChecks(limit, served, waiting - 1);
      RequestSnoc(NoRequests(), limit, a, action, g);
      actions := a + [action];
    } else if served > 0 {
      var a := Assemble(limit, g, served - 1, 1);
      QueueEnters(limit, served - 1, 1);
      NamedSize(served, served);
      RequestSnoc(NoRequests(), limit, a, Insert(served - 1), g);
      actions := a + [Insert(served - 1)];
    } else {
      actions := [];
      NoActions(limit, g);
    }
  }

  lemma NoActions(limit: int, g: nat)
    ensures RequestGap(NoRequests(), limit, [], g) && RequestRun(NoRequests(), limit, []) == Queue(0, 0)
  {
  }

  lemma {:induction false} AllInsert(limit: int, g: nat, entered: nat) returns (actions: seq<Action>)
    requires 1 <= g && 1 <= limit && entered <= g
    ensures RequestGap(NoRequests(), limit, actions, g)
    ensures RequestRun(NoRequests(), limit, actions) == Queue(limit - 1 + entered, g - entered)
    decreases entered
  {
    hide RequestGap, RequestRun, RequestStep, Named, Names, Name;
    if entered == 0 {
      actions := Assemble(limit, g, limit - 1, g);
    } else {
      var a := AllInsert(limit, g, entered - 1);
      var id := limit - 2 + entered;
      QueueEnters(limit, id, g - entered + 1);
      NamedSize(id + 1, id + 1 + g - entered);
      RequestSnoc(NoRequests(), limit, a, Insert(id), g);
      actions := a + [Insert(id)];
    }
  }

  /** Without hub requests the tracker never exceeds the limit if and only if the check and the insertion never
      overlap. */
  lemma RequestLimitHolds(limit: int, g: nat)
    requires 1 <= limit
    ensures (forall actions | RequestGap(NoRequests(), limit, actions, g) ::
               |RequestRun(NoRequests(), limit, actions).tracker| <= limit) <==> g <= 1
  {
    if g <= 1 {
      forall actions | RequestGap(NoRequests(), limit, actions, g)
        ensures |RequestRun(NoRequests(), limit, actions).tracker| <= limit
      {
        RequestsBounded(NoRequests(), limit, actions, g);
      }
    } else {
      var actions := AllInsert(limit, g, g);
      NamesSize(limit - 1 + g);
      assert |RequestRun(NoRequests(), limit, actions).tracker| == limit - 1 + g;
    }
  }

  // No two requests of one cluster are in the gap at the same time.
  ghost predicate NoTwins(s: Requests) {
    forall i, j | i in s.gap && j in s.gap && s.gap[i] == s.gap[j] :: i == j
  }

  ghost predicate NeverTwins(s: Requests, limit: int, actions: seq<Action>)
    decreases |actions|
  {
    NoTwins(s) && (actions != [] ==> NeverTwins(RequestStep(s, limit, actions[0]), limit, actions[1..]))
  }

  // Every cluster has at most one request admitted, and the tracker holds exactly the clusters served.
  ghost predicate Exclusive(s: Requests) {
    && NoTwins(s)
    && (forall i, j | i in s.serving && j in s.serving && s.serving[i] == s.serving[j] :: i == j)
    && (forall i, j | i in s.gap && j in s.serving :: i != j && s.gap[i] != s.serving[j])
    && (forall c :: c in s.tracker <==> exists i :: i in s.serving && s.serving[i] == c)
  }

  lemma ExclusiveStep(s: Requests, limit: int, action: Action)
    requires Exclusive(s) && NoTwins(RequestStep(s, limit, action))
    ensures Exclusive(RequestStep(s, limit, action))
  {
    var t := RequestStep(s, limit, action);
    forall c ensures c in t.tracker <==> exists i :: i in t.serving && t.serving[i] == c {
      if c in t.tracker {
        if i :| i in s.serving && s.serving[i] == c { assert i in t.serving && t.serving[i] == c; }
        else { assert action.id in t.serving && t.serving[action.id] == c; }
      }
    }
  }

  lemma {:induction false} StaysExclusive(s: Requests, limit: int, actions: seq<Action>)
    requires Exclusive(s) && NeverTwins(s, limit, actions)
    ensures Exclusive(RequestRun(s, limit, actions))
    decreases |actions|
  {
    if actions != [] {
      ExclusiveStep(s, limit, actions[0]);
      StaysExclusive(RequestStep(s, limit, actions[0]), limit, actions[1..]);
    }
  }

  // No cluster has two requests served at the same time.
  ghost predicate ServedOnce(s: Requests) {
    forall i, j | i in s.serving && j in s.serving && s.serving[i] == s.serving[j] :: i == j
  }

  // The tracker holds exactly the clusters of the requests being served.
  ghost predicate TrackerExact(s: Requests) {
    forall c :: c in s.tracker <==> exists i :: i in s.serving && s.serving[i] == c
  }

  /** As long as no two requests of a cluster are in the gap together, each cluster is served one
      request at a time, hub requests included, and the tracker is exact. */
  lemma ClustersAreServedOneAtATime(limit: int, actions: seq<Action>)
    requires NeverTwins(NoRequests(), limit, actions)
    ensures var s := RequestRun(NoRequests(), limit, actions); ServedOnce(s) && TrackerExact(s)
  {
    StaysExclusive(NoRequests(), limit, actions);
  }

  // No new request is checked: those that passed get in, and those served finish.
  predicate Admitted(actions: seq<Action>) {
    forall i | 0 <= i < |actions| :: !actions[i].CheckIn?
  }

  // Whatever order those get in that passed the check, each cluster is served one request at a time.
  ghost predicate AlwaysServedOnce(s: Requests, limit: int) {
    forall more | Admitted(more) :: ServedOnce(RequestRun(s, limit, more))
  }

  // The same in every state of the run.
  ghost predicate NeverServedTwice(s: Requests, limit: int, actions: seq<Action>)
    decreases |actions|
  {
    AlwaysServedOnce(s, limit) &&
      (actions != [] ==> NeverServedTwice(RequestStep(s, limit, actions[0]), limit, actions[1..]))
  }

  lemma {:induction false} AdmittedHasNoTwins(s: Requests, limit: int, actions: seq<Action>)
    requires NoTwins(s) && Admitted(actions)
    ensures NeverTwins(s, limit, actions)
    decreases |actions|
  {
    if actions != [] {
      assert Admitted(actions[1..]);
      AdmittedHasNoTwins(RequestStep(s, limit, actions[0]), limit, actions[1..]);
    }
  }

  // Two requests of a cluster in the gap can be served together.
  lemma TwinsGetIn(s: Requests, limit: int, i: nat, j: nat)
    requires i != j && i in s.gap && j in s.gap && s.gap[i] == s.gap[j]
    ensures !ServedOnce(RequestRun(s, limit, [Insert(i), Insert(j)]))
  {
    var actions := [Insert(i), Insert(j)];
    RunTwo(s, limit, actions);
    var t := RequestRun(s, limit, actions);
    assert i in t.serving && j in t.serving && t.serving[i] == t.serving[j];
  }

  lemma ServedOnceIffNoTwins(s: Requests, limit: int)
    requires NoTwins(s) ==> Exclusive(s)
    ensures AlwaysServedOnce(s, limit) <==> NoTwins(s)
  {
    if NoTwins(s) {
      forall more | Admitted(more) ensures ServedOnce(RequestRun(s, limit, more)) {
        AdmittedHasNoTwins(s, limit, more);
        StaysExclusive(s, limit, more);
      }
    } else {
      var i, j :| i in s.gap && j in s.gap && s.gap[i] == s.gap[j] && i != j;
      TwinsGetIn(s, limit, i, j);
      assert Admitted([Insert(i), Insert(j)]);
    }
  }

  lemma {:induction false} NeverTwiceIffNeverTwins(s: Requests, limit: int, actions: seq<Action>)
    requires Exclusive(s) || !NoTwins(s)
    ensures NeverServedTwice(s, limit, actions) <==> NeverTwins(s, limit, actions)
    decreases |actions|
  {
    ServedOnceIffNoTwins(s, limit);
    if actions != [] && NoTwins(s) {
      var t := RequestStep(s, limit, actions[0]);
      if NoTwins(t) { ExclusiveStep(s, limit, actions[0]); }
      NeverTwiceIffNeverTwins(t, limit, actions[1..]);
    }
  }

  /** For every run from the start: no state of it, and no order in which those that passed the check then
      get in and finish, serves two requests of a cluster together, if and only if no two requests of a
      cluster are ever in the gap together. */
  lemma OneRequestPerCluster(limit: int, actions: seq<Action>)
    ensures NeverServedTwice(NoRequests(), limit, actions) <==> NeverTwins(NoRequests(), limit, actions)
  {
    NeverTwiceIffNeverTwins(NoRequests(), limit, actions);
  }

  /** Two requests of a cluster in the gap together are both served, and when the first is done the
      tracker forgets the other, so that a third is admitted beside it. */
  lemma TwinsAreServedTogether(limit: int, c: string)
    requires limit >= 1
    ensures var actions := [CheckIn(0, c, false), CheckIn(1, c, false), Insert(0), Insert(1), Delete(0),
      CheckIn(2, c, false)];
      RequestRun(NoRequests(), limit, actions) == Requests({}, map[2 := c], map[1 := c])
  {
    var s := NoRequests();
    var actions := [CheckIn(0, c, false), CheckIn(1, c, false), Insert(0), Insert(1), Delete(0), CheckIn(2, c, false)];
    var s2 := Requests({}, map[0 := c, 1 := c], map[]);
    RunTwo(s, limit, actions);
    assert RequestStep(RequestStep(s, limit, actions[0]), limit, actions[1]) == s2;
    var s4 := Requests({c}, map[], map[0 := c, 1 := c]);
    RunTwo(s2, limit, actions[2..]);
    assert RequestStep(s2, limit, Insert(0)) == Requests({c}, map[1 := c], map[0 := c]);
    assert RequestStep(RequestStep(s2, limit, Insert(0)), limit, Insert(1)) == s4;
    RunTwo(s4, limit, actions[4..]);
    assert RequestStep(s4, limit, Delete(0)) == Requests({}, map[], map[1 := c]);
    assert actions[2..][2..] == actions[4..] && actions[4..][2..] == [];
  }

  lemma RunTwo(s: Requests, limit: int, actions: seq<Action>)
    requires |actions| >= 2
    ensures RequestRun(s, limit, actions)
      == RequestRun(RequestStep(RequestStep(s, limit, actions[0]), limit, actions[1]), limit, actions[2..])
  {
  }
}
