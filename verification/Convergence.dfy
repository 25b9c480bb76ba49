/** Where requests that succeed end up: a full resync leaves exactly the incoming state, whatever was
    there before; repeating it changes nothing; and a delta sync ends where a resync would. */
module Convergence {
  import opened Options
  import opened Serial
  import opened Tables
  import opened Batch
  import opened Sync
  import opened SyncEffect
  import opened Resync
  import opened ResyncEffect
  import opened EdgeDiff
  import opened Requests

  // A full resync of which every statement took effect, amid the statements of other requests: `reset`
  // and `diff` are the statements of its two phases and those in between, in the order they took effect.
  datatype Run = Run(
    cluster: string, rs: seq<Resource>, es: seq<Edge>,
    before: Database, reset: seq<Statement>, middle: Database,
    existing: map<string, EdgeKey>, deletes: seq<Item>, accepted2: seq<Item>,
    diff: seq<Statement>, after: Database)

  ghost predicate Succeeded(run: Run) {
    && run.middle == ApplyAll(run.before, run.reset)
    && Amid(run.reset, ResetProgram(run.rs, run.cluster), run.cluster, KeysOf(run.es), run.before)
    && Remembers(run.existing, run.middle, run.cluster)
    && run.after == ApplyAll(run.middle, run.diff)
    && RunsEdgeProgram(run.middle, run.diff, run.existing, run.es, run.deletes, run.accepted2, run.cluster)
  }

  // Nobody else wrote meanwhile.
  ghost predicate Alone(run: Run) {
    && (forall s | s in run.reset :: AskedBy(ResetProgram(run.rs, run.cluster), s))
    && (forall s | s in run.diff :: AskedBy(run.accepted2, s))
  }

  lemma CommittedTakeEffect(
    fails: (Database, Statement) -> bool, before: Database, after: Database, items: seq<Item>,
    log: seq<Entry<Statement>>)
    requires Settled(Exec(fails), before, after, items, log) && AllCommitted(log)
    ensures after == ApplyAll(before, Effective(log))
    ensures forall s | s in Effective(log) :: AskedBy(items, s)
    ensures forall x | x in items :: x.stmt in Effective(log)
  {
    hide Exec, Explains, ApplyAll;
    EffectiveWasAsked(fails, before, after, items, log);
    EffectiveItems(log);
    forall x | x in items ensures x.stmt in Effective(log) { assert x in multiset(items); }
  }

  /** What `ResyncData` did when it returned nil with every statement committed is such a run. */
  lemma ResyncDataSucceeds(
    fails: (Database, Statement) -> bool, cluster: string, rs: seq<Resource>, es: seq<Edge>, before: Database,
    log: seq<Entry<Statement>>, middle: Database, existing: map<string, EdgeKey>, deletes: seq<Item>,
    accepted2: seq<Item>, log2: seq<Entry<Statement>>, after: Database)
    requires Settled(Exec(fails), before, middle, ResetProgram(rs, cluster), log) && AllCommitted(log)
    requires Remembers(existing, middle, cluster)
    requires Settled(Exec(fails), middle, after, accepted2, log2) && AllCommitted(log2)
    requires EdgeProgram(accepted2, deletes, existing, es, cluster)
    ensures var run := Run(cluster, rs, es, before, Effective(log), middle, existing, deletes, accepted2,
      Effective(log2), after);
      Succeeded(run) && Alone(run)
  {
    hide Exec, Explains, ApplyAll, ResetProgram, EdgeProgram, Remembers, Settled, AllCommitted;
    CommittedTakeEffect(fails, before, middle, ResetProgram(rs, cluster), log);
    CommittedTakeEffect(fails, middle, after, accepted2, log2);
  }

  // What the cluster holds after the resync.
  function Incoming(run: Run): Collector {
    Collector(ResourcesOf(run.rs, run.cluster),
      set k | k in KeysOf(run.es) && k.edgeType != INTER_CLUSTER && !OfOtherEdge(EdgeAt(run.before, k), run.cluster))
  }

  predicate Inside(run: Run, k: EdgeKey) {
    k.source in KeepList(run.rs, run.cluster) && k.dest in KeepList(run.rs, run.cluster)
  }

  // A body that does not contradict itself, for tables whose rows are named after their clusters,
  // and whose edge keys do not collide harmfully.
  ghost predicate Sound(run: Run) {
    && SlashFree(run.cluster) && Owned(run.before) && FunctionalOn(run.rs, run.cluster)
    && NoHarmfulCollision(run.existing, run.middle, run.es, run.cluster)
  }

  lemma MiddleEdge(run: Run, k: EdgeKey)
    requires Succeeded(run)
    ensures Survives(
      EdgeAt(run.before, k), EdgeAt(run.middle, k), run.cluster, Inside(run, k), k in KeysOf(run.es))
    ensures Diffed(EdgeAt(run.middle, k), EdgeAt(run.after, k), run.existing, run.es, run.cluster, k)
  {
    hide ApplyAll, ResetProgram, KeepList, Diffed, Survives, RunsEdgeProgram, Remembers, KeysOf, Amid;
    ResetEdgesLeft(run.rs, run.cluster, run.before, run.reset, KeysOf(run.es), k);
    EdgePhase(run.middle, run.diff, run.existing, run.es, run.deletes, run.accepted2, run.cluster, k);
  }

  lemma ResyncEdge(run: Run, k: EdgeKey)
    requires Succeeded(run) && Sound(run)
    ensures EdgeOwnedBy(EdgeAt(run.after, k), run.cluster) <==>
      || (k in KeysOf(run.es) && !OfOtherEdge(EdgeAt(run.before, k), run.cluster))
      || (k.edgeType == INTER_CLUSTER && EdgeOwnedBy(EdgeAt(run.before, k), run.cluster) && Inside(run, k))
  {
    MiddleEdge(run, k);
    hide ApplyAll, ResetProgram, Inside, KeysOf, Diffed, NoHarmfulCollision, RunsEdgeProgram, Remembers, Amid;
    ExactIffNoHarmfulCollision(
      run.middle, run.diff, run.existing, run.es, run.deletes, run.accepted2, run.cluster);
  }

  // The resources, through the edge phase.
  lemma DiffKeepsResources(run: Run, resources: map<string, Props>)
    requires Succeeded(run) && SlashFree(run.cluster) && MatchesResources(run.middle, run.cluster, resources)
    requires forall u | u in resources :: HasPrefix(u, run.cluster + "/")
    ensures MatchesResources(run.after, run.cluster, resources)
  {
    var cluster := run.cluster;
    hide ApplyAll, ResetProgram, KeysOf, EdgeProgram;
    forall u | u != NodeUid(cluster)
      ensures if u in resources then RowAt(run.after, u) == Some(Row(cluster, Marshal(resources[u])))
              else !OwnedBy(RowAt(run.after, u), cluster)
    {
      forall s, q | s in run.diff
        ensures u in resources && OwnedBy(q, cluster) ==> RowEffect(s, u, q) == q
        ensures !OwnedBy(q, cluster) ==> !OwnedBy(RowEffect(s, u, q), cluster)
      {
        DiffOnRow(run, s, u, q);
      }
      hide RowEffect;
      if u in resources { RowUntouched(run.middle, run.diff, u); }
      else { RowSettles(run.middle, run.diff, u, (r: Option<Row>) => !OwnedBy(r, cluster)); }
    }
  }

  lemma DiffOnRow(run: Run, s: Statement, u: string, q: Option<Row>)
    requires Succeeded(run) && SlashFree(run.cluster) && s in run.diff && u != NodeUid(run.cluster)
    ensures OwnedBy(q, run.cluster) && HasPrefix(u, run.cluster + "/") ==> RowEffect(s, u, q) == q
    ensures !OwnedBy(q, run.cluster) ==> !OwnedBy(RowEffect(s, u, q), run.cluster)
  {
    hide ApplyAll, ResetProgram, KeysOf, EdgeProgram, HasPrefix;
    if AskedBy(run.accepted2, s) {
      EdgeProgramStatements(
        run.accepted2, run.deletes, run.existing, run.es, run.cluster, s, EdgeKey("", "", ""), None);
    } else {
      BystanderOnRow(s, run.cluster, KeysOf(run.es), u, q);
    }
  }

  lemma ResyncResources(run: Run)
    requires Succeeded(run) && Sound(run)
    ensures MatchesResources(run.after, run.cluster, ResourcesOf(run.rs, run.cluster))
  {
    assert forall u | u in ResourcesOf(run.rs, run.cluster) :: HasPrefix(u, run.cluster + "/");
    assert Carries(run.reset, ResetProgram(run.rs, run.cluster), run.cluster, KeysOf(run.es));
    hide ResetProgram, ApplyAll, ResourcesOf, NoHarmfulCollision, RunsEdgeProgram, Remembers, MatchesResources;
    ResetExact(run.rs, run.cluster, run.before, run.reset, KeysOf(run.es));
    DiffKeepsResources(run, ResourcesOf(run.rs, run.cluster));
  }

  predicate IsNodeStatement(s: Statement) {
    s.UpsertNode? || s.DeleteByUid?
  }

  /** A resync leaves the cluster's node as it is, unless a node event comes in between. */
  lemma ResyncKeepsNode(run: Run)
    requires Succeeded(run) && SlashFree(run.cluster) && Owned(run.before)
    requires forall s | s in run.reset || s in run.diff :: !IsNodeStatement(s)
    ensures RowAt(run.after, NodeUid(run.cluster)) == RowAt(run.before, NodeUid(run.cluster))
  {
    var node := NodeUid(run.cluster);
    var r := RowAt(run.before, node);
    assert r.None? || r.value.cluster == run.cluster by {
      if r.Some? {
        assert RowOwned(node, run.before.resources[node].cluster);
        OwnerUnique(node, r.value.cluster, run.cluster);
      }
    }
    hide ApplyAll, ResetProgram, KeysOf, EdgeProgram, KeepList;
    forall s | s in run.reset ensures RowEffect(s, node, r) == r { NodeStays(run, s, r); }
    RowUntouched(run.before, run.reset, node);
    forall s | s in run.diff ensures RowEffect(s, node, r) == r { NodeStays(run, s, r); }
    RowUntouched(run.middle, run.diff, node);
  }

  lemma NodeStays(run: Run, s: Statement, r: Option<Row>)
    requires Succeeded(run) && SlashFree(run.cluster) && !IsNodeStatement(s) && (s in run.reset || s in run.diff)
    requires r.None? || r.value.cluster == run.cluster
    ensures RowEffect(s, NodeUid(run.cluster), r) == r
  {
    var node := NodeUid(run.cluster);
    KeepListIs(run.rs, run.cluster);
    NodeHasNoSlash(run.cluster, run.cluster);
    hide ApplyAll, ResetProgram, KeysOf, EdgeProgram, KeepList;
    if AskedBy(ResetProgram(run.rs, run.cluster), s) {
      ResetOnRow(run.rs, run.cluster, s, node, r);
    } else if AskedBy(run.accepted2, s) {
      EdgeProgramStatements(
        run.accepted2, run.deletes, run.existing, run.es, run.cluster, s, EdgeKey("", "", ""), None);
    } else if s.UpsertResource? {
      NodeHasNoSlash(run.cluster, s.cluster);
    }
  }

  /** A successful resync, amid other requests, leaves the cluster with exactly the accepted resources of
      the body and the incoming edges that no other cluster owns, whatever its rows were before. Of its
      inter-cluster edges those between resources of the body are kept. */
  lemma ResyncExact(run: Run)
    requires Succeeded(run) && Sound(run)
    ensures Matches(run.after, run.cluster, Incoming(run))
    ensures forall k: EdgeKey | k.edgeType == INTER_CLUSTER ::
      EdgeOwnedBy(EdgeAt(run.after, k), run.cluster) <==>
        || (k in KeysOf(run.es) && !OfOtherEdge(EdgeAt(run.before, k), run.cluster))
        || (EdgeOwnedBy(EdgeAt(run.before, k), run.cluster) && Inside(run, k))
  {
    hide Succeeded, Sound, ResetProgram, ApplyAll, Inside, ResourcesOf;
    ResyncResources(run);
    forall k: EdgeKey
      ensures EdgeOwnedBy(EdgeAt(run.after, k), run.cluster) <==>
        || (k in KeysOf(run.es) && !OfOtherEdge(EdgeAt(run.before, k), run.cluster))
        || (k.edgeType == INTER_CLUSTER && EdgeOwnedBy(EdgeAt(run.before, k), run.cluster) && Inside(run, k))
    {
      ResyncEdge(run, k);
    }
  }

  /** What the tables at the start and the body say of the keys is enough: if their concatenations differ, no
      collision gets in the way of the resync. */
  lemma InjectiveAtTheStart(run: Run)
    requires Succeeded(run) && Injective(Compared(run.before, run.es, run.cluster))
    ensures NoHarmfulCollision(run.existing, run.middle, run.es, run.cluster)
  {
    hide Succeeded, Concat, KeysOf;
    assert Remembers(run.existing, run.middle, run.cluster) by { RunRemembers(run); }
    forall k | k in Compared(run.middle, run.es, run.cluster) ensures k in Compared(run.before, run.es, run.cluster) {
      MiddleEdge(run, k);
    }
    InjectiveIsExact(run.middle, run.es, run.cluster);
    FreeIsHarmless(run.existing, run.middle, run.es, run.cluster);
  }

  lemma RunRemembers(run: Run)
    requires Succeeded(run)
    ensures Remembers(run.existing, run.middle, run.cluster)
  {
  }

  /** So a resync is exact whenever the uids of the edges have one width. */
  lemma FixedWidthIsExact(run: Run, source: nat, dest: nat)
    requires Succeeded(run) && SlashFree(run.cluster) && Owned(run.before) && FunctionalOn(run.rs, run.cluster)
    requires FixedWidth(Compared(run.before, run.es, run.cluster), source, dest)
    ensures Matches(run.after, run.cluster, Incoming(run))
  {
    hide Succeeded, Matches, FixedWidth, Owned, FunctionalOn;
    FixedWidthIsInjective(Compared(run.before, run.es, run.cluster), source, dest);
    InjectiveAtTheStart(run);
    ResyncExact(run);
  }

  // ----- An incoming edge can be lost -----

  const OLD_EDGE := EdgeKey("c/1", "c/2", "xt")
  const NEW_EDGE := EdgeKey("c/1x", "c/2", "t")

  /** Uids of different widths can collide, also when all of them come in: the incoming edge c/1x -t-> c/2
      is taken for the existing edge c/1 -xt-> c/2, and after a resync without any failure it is
      missing and the old one is still there. */
  lemma CollisionLosesAnEdge(run: Run)
    requires Succeeded(run) && Alone(run) && run.cluster == "c"
    requires "c/1" in KeepList(run.rs, "c") && "c/1x" in KeepList(run.rs, "c") && "c/2" in KeepList(run.rs, "c")
    requires |run.es| == 1 && run.es[0].key == NEW_EDGE
    requires run.before.edges.Keys == {OLD_EDGE} && run.before.edges[OLD_EDGE].cluster == "c"
    ensures EdgeAt(run.after, NEW_EDGE).None? && EdgeAt(run.after, OLD_EDGE).Some?
  {
    LookedUpInVain(run);
    MiddleEdge(run, OLD_EDGE);
    MiddleEdge(run, NEW_EDGE);
    assert run.es[0] in run.es;
    hide Succeeded, Inserted, Removed, Concat, KeepList, Looked;
  }

  // The new edge takes the old one out of the map, and is not inserted.
  lemma LookedUpInVain(run: Run)
    requires Succeeded(run) && run.cluster == "c" && |run.es| == 1 && run.es[0].key == NEW_EDGE
    requires "c/1" in KeepList(run.rs, "c") && "c/2" in KeepList(run.rs, "c")
    requires EdgeOwnedBy(EdgeAt(run.before, OLD_EDGE), "c")
    ensures !Removed(run.existing, run.es, OLD_EDGE)
    ensures NEW_EDGE !in KeysOf(Inserted(run.existing, run.es))
    ensures OLD_EDGE !in KeysOf(run.es)
  {
    assert Concat(OLD_EDGE) == "c/1xtc/2" == Concat(NEW_EDGE);
    MiddleEdge(run, OLD_EDGE);
    assert Existing(run.middle, "c", OLD_EDGE);
    assert Concat(NEW_EDGE) in run.existing;
    hide Succeeded, Concat, KeepList;
    var e := run.es[0];
    assert run.es == [e] && run.es[..0] == [] && e in run.es;
    assert Looked(run.es, Concat(OLD_EDGE));
    InsertedAre(run.existing, run.es);
    hide Inserted;
    assert !InsertsAt(run.existing, run.es, 0);
    assert forall q :: q !in Inserted(run.existing, run.es);
  }

  // Every resync has a run with nobody else about.
  lemma SomeRun(cluster: string, rs: seq<Resource>, es: seq<Edge>, before: Database) returns (run: Run)
    ensures Succeeded(run) && Alone(run)
    ensures run.cluster == cluster && run.rs == rs && run.es == es && run.before == before
  {
    hide ResetProgram, ApplyAll, Remembers, EdgeProgram;
    OnlyTheItems(ResetProgram(rs, cluster));
    var reset := StatementsOf(ResetProgram(rs, cluster));
    var middle := ApplyAll(before, reset);
    var m := ReadingOf(middle, cluster, OLD_EDGE);
    var deletes, accepted, diff := ProgramFor(middle, m, es, cluster);
    run := Run(cluster, rs, es, before, reset, middle, m, deletes, accepted, diff, ApplyAll(middle, diff));
  }

  /** There is such a run. */
  lemma AnEdgeIsLost() returns (run: Run)
    ensures Succeeded(run) && Alone(run) && NEW_EDGE in KeysOf(run.es)
    ensures EdgeAt(run.after, NEW_EDGE).None? && EdgeAt(run.after, OLD_EDGE).Some?
  {
    hide Succeeded, Alone, KeepList;
    var rs := [Resource("c/1", map[]), Resource("c/1x", map[]), Resource("c/2", map[])];
    var es := [Edge(NEW_EDGE, "Pod", "Node")];
    assert es[0] in es;
    UidsAreKept(rs);
    run := SomeRun("c", rs, es, Database(map[], map[OLD_EDGE := EdgeRow("Pod", "Node", "c")]));
    CollisionLosesAnEdge(run);
  }

  lemma UidsAreKept(rs: seq<Resource>)
    requires |rs| == 3 && rs[0].uid == "c/1" && rs[1].uid == "c/1x" && rs[2].uid == "c/2"
    ensures "c/1" in KeepList(rs, "c") && "c/1x" in KeepList(rs, "c") && "c/2" in KeepList(rs, "c")
  {
    assert "c/1"[..2] == "c/" == "c/1x"[..2] == "c/2"[..2];
    assert rs[0] in rs && rs[1] in rs && rs[2] in rs;
    AcceptedUidsAre(rs, "c");
    hide AcceptedUids;
  }

  // ----- History independence and repetition -----

  // Two tables agree on the rows of a cluster and on the keys of its edges, apart from its node and its
  // inter-cluster edges.
  ghost predicate SameCluster(a: Database, b: Database, cluster: string) {
    && (forall u | u != NodeUid(cluster) && (OwnedBy(RowAt(a, u), cluster) || OwnedBy(RowAt(b, u), cluster)) ::
          RowAt(a, u) == RowAt(b, u))
    && (forall k: EdgeKey | k.edgeType != INTER_CLUSTER ::
          EdgeOwnedBy(EdgeAt(a, k), cluster) <==> EdgeOwnedBy(EdgeAt(b, k), cluster))
  }

  lemma MatchingIsSame(a: Database, b: Database, cluster: string, st: Collector)
    requires Matches(a, cluster, st) && Matches(b, cluster, st)
    ensures SameCluster(a, b, cluster)
  {
  }

  /** The same body brings any two tables to the same resources and edge keys of the cluster, unless other
      clusters own different ones of the incoming edges. An edge that was there keeps its kinds. */
  lemma ResyncForgetsHistory(r1: Run, r2: Run)
    requires Succeeded(r1) && Sound(r1) && Succeeded(r2) && Sound(r2)
    requires r1.cluster == r2.cluster && r1.rs == r2.rs && r1.es == r2.es
    requires forall k | k in KeysOf(r1.es) ::
      OfOtherEdge(EdgeAt(r1.before, k), r1.cluster) <==> OfOtherEdge(EdgeAt(r2.before, k), r1.cluster)
    ensures SameCluster(r1.after, r2.after, r1.cluster)
  {
    hide Succeeded, Sound, Matches, ResourcesOf;
    ResyncExact(r1);
    ResyncExact(r2);
    assert Incoming(r1).edges == Incoming(r2).edges;
    MatchingIsSame(r1.after, r2.after, r1.cluster, Incoming(r1));
  }

  ghost predicate Repeats(r1: Run, r2: Run) {
    && Succeeded(r1) && Sound(r1) && Succeeded(r2) && Sound(r2)
    && r1.cluster == r2.cluster && r1.rs == r2.rs && r1.es == r2.es && FunctionalEdges(r1.es)
    && r2.before == r1.after
  }

  /** Repeating a resync, amid other requests, changes no resource and no edge of the cluster. */
  lemma RepeatedResync(r1: Run, r2: Run)
    requires Repeats(r1, r2)
    ensures forall u | u != NodeUid(r1.cluster) &&
      (OwnedBy(RowAt(r1.after, u), r1.cluster) || OwnedBy(RowAt(r2.after, u), r1.cluster)) ::
      RowAt(r2.after, u) == RowAt(r1.after, u)
    ensures forall k | EdgeOwnedBy(EdgeAt(r1.after, k), r1.cluster) || EdgeOwnedBy(EdgeAt(r2.after, k), r1.cluster) ::
      EdgeAt(r2.after, k) == EdgeAt(r1.after, k)
  {
    hide Succeeded, Sound, ResourcesOf;
    ResyncResources(r1);
    ResyncResources(r2);
    forall k | EdgeOwnedBy(EdgeAt(r1.after, k), r1.cluster) || EdgeOwnedBy(EdgeAt(r2.after, k), r1.cluster)
      ensures EdgeAt(r2.after, k) == EdgeAt(r1.after, k)
    {
      EdgeRepeats(r1, r2, k);
    }
  }

  lemma EdgeRepeats(r1: Run, r2: Run, k: EdgeKey)
    requires Repeats(r1, r2)
    requires EdgeOwnedBy(EdgeAt(r1.after, k), r1.cluster) || EdgeOwnedBy(EdgeAt(r2.after, k), r1.cluster)
    ensures EdgeAt(r2.after, k) == EdgeAt(r1.after, k)
  {
    ResyncEdge(r1, k);
    ResyncEdge(r2, k);
    MiddleEdge(r1, k);
    MiddleEdge(r2, k);
    InsertedCameIn(r1, k);
    InsertedCameIn(r2, k);
    RemovedExists(r2.existing, r2.es, r2.middle, r2.cluster, k);
    hide Succeeded, NoHarmfulCollision, Inserted, KeysOf, Removed, Inside, IsInserted;
  }

  // An inserted edge is the incoming one.
  lemma InsertedCameIn(run: Run, k: EdgeKey)
    ensures forall r | IsInserted(r, run.existing, run.es, run.cluster, k) ::
      exists e :: e in run.es && e.key == k && r == Some(EdgeRowOf(e, run.cluster))
    ensures FunctionalEdges(run.es) ==> forall r, r'
      | IsInserted(r, run.existing, run.es, run.cluster, k) && IsInserted(r', run.existing, run.es, run.cluster, k) ::
        r == r'
    ensures k in KeysOf(Inserted(run.existing, run.es)) ==> k in KeysOf(run.es)
  {
    InsertedAre(run.existing, run.es);
  }

  // Alone, a resync touches nothing of the others, nor the node.
  lemma AloneAtHome(run: Run)
    requires Succeeded(run) && Alone(run) && SlashFree(run.cluster) && Owned(run.before)
    ensures OthersUntouched(run.before, run.after, run.cluster)
    ensures RowAt(run.after, NodeUid(run.cluster)) == RowAt(run.before, NodeUid(run.cluster))
  {
    hide ApplyAll, ResetProgram, KeysOf, Inserted, Remaining, InsertEdgeItems, OnlyDeletions, Owned;
    forall s | s in run.reset ensures ScopedTo(s, run.cluster) && NamesOwnRow(s) {
      ResetAtHome(run.rs, run.cluster, s);
    }
    forall s | s in run.diff ensures ScopedTo(s, run.cluster) && NamesOwnRow(s) {
      EdgesAtHome(Inserted(run.existing, run.es), run.deletes, Remaining(run.existing, run.es), run.cluster, s);
    }
    AtHome(run.before, run.reset, run.cluster);
    AtHome(run.middle, run.diff, run.cluster);
    ResyncKeepsNode(run);
  }

  /** With nobody else about, repeating a resync changes nothing at all, in either table. */
  lemma ResyncIsIdempotent(r1: Run, r2: Run)
    requires Repeats(r1, r2) && Alone(r2)
    ensures r2.after == r1.after
  {
    assert SlashFree(r2.cluster) && Owned(r2.before);
    hide Succeeded, Sound;
    RepeatedResync(r1, r2);
    AloneAtHome(r2);
    SameRows(r2.after, r1.after);
  }

  // ----- Delta and resync -----

  // The body of a full resync that reports the state `st`.
  ghost predicate Describes(rs: seq<Resource>, es: seq<Edge>, cluster: string, st: Collector) {
    && ResourcesOf(rs, cluster) == st.resources
    && forall k: EdgeKey | k.edgeType != INTER_CLUSTER :: k in KeysOf(es) <==> k in st.edges
  }

  /** A delta sync and a full resync with the resulting state agree, for every order of the statements of
      either, amid other requests, and whatever the rows of the cluster were before the resync. */
  lemma DeltaAgreesWithResync(ev: SyncEvent, st: Collector, before: Database, stmts: seq<Statement>, run: Run)
    requires Owned(before) && Matches(before, run.cluster, st) && WellFormed(ev, run.cluster, st, before)
    requires Carries(stmts, Program(ev, run.cluster), run.cluster, KeysOf(ev.addEdges))
    requires Succeeded(run) && Sound(run) && Describes(run.rs, run.es, run.cluster, Next(st, ev))
    requires forall k | k in Next(st, ev).edges :: !OfOtherEdge(EdgeAt(run.before, k), run.cluster)
    ensures SameCluster(ApplyAll(before, stmts), run.after, run.cluster)
  {
    hide Succeeded, Sound, Matches, WellFormed, Owned, Carries, Program, ResourcesOf, ApplyAll;
    SyncExact(ev, run.cluster, st, before, stmts);
    ResyncExact(run);
    var next := Next(st, ev);
    IncomingIsDescribed(run, next);
    MatchingIsSame(ApplyAll(before, stmts), run.after, run.cluster, next);
  }

  /** In particular for what `SyncData` and `ResyncData` do when they return nil and nothing is rejected,
      for every batch size and every order of commits. */
  lemma SyncDataAgreesWithResync(
    ev: SyncEvent, st: Collector, before: Database, after: Database, log: seq<Entry<Statement>>,
    fails: (Database, Statement) -> bool, run: Run)
    requires Owned(before) && Matches(before, run.cluster, st) && WellFormed(ev, run.cluster, st, before)
    requires Settled(Exec(fails), before, after, Program(ev, run.cluster), log) && AllCommitted(log)
    requires Succeeded(run) && Sound(run) && Describes(run.rs, run.es, run.cluster, Next(st, ev))
    requires forall k | k in Next(st, ev).edges :: !OfOtherEdge(EdgeAt(run.before, k), run.cluster)
    ensures SameCluster(after, run.after, run.cluster)
  {
    hide Succeeded, Sound, Matches, WellFormed, Owned, Settled, AllCommitted, Program, ResourcesOf, Describes,
      SameCluster;
    CommittedLogCarries(fails, before, after, Program(ev, run.cluster), log, run.cluster, KeysOf(ev.addEdges));
    DeltaAgreesWithResync(ev, st, before, Effective(log), run);
  }

  lemma IncomingIsDescribed(run: Run, st: Collector)
    requires Matches(run.after, run.cluster, Incoming(run)) && Describes(run.rs, run.es, run.cluster, st)
    requires forall k | k in st.edges :: !OfOtherEdge(EdgeAt(run.before, k), run.cluster)
    ensures Matches(run.after, run.cluster, st)
  {
  }

  // ----- Totals -----

  // The totals that the indexer answers with: the node and inter-cluster edges are not counted.
  // Either of the two result rows may fail to arrive.
  method ClusterTotals(pool: Pool, cluster: string, resourcesErr: Option<string>, edgesErr: Option<string>)
      returns (resources: int, edges: int, e: Option<string>)
    ensures e == if resourcesErr.Some? then resourcesErr else edgesErr
    ensures resourcesErr.None? ==> resources == |CountedRows(pool.db, cluster)|
    ensures e.None? ==> edges == |CountedEdges(pool.db, cluster)|
  {
    resources, edges := 0, 0;
    if resourcesErr.Some? {
      return resources, edges, resourcesErr;
    }
    resources := |set u | u in pool.db.resources && pool.db.resources[u].cluster == cluster && u != NodeUid(cluster)|;
    if edgesErr.Some? {
      return resources, edges, edgesErr;
    }
    edges := |set k | k in pool.db.edges && pool.db.edges[k].cluster == cluster && k.edgeType != INTER_CLUSTER|;
    return resources, edges, None;
  }

  function CountedRows(db: Database, cluster: string): set<string> {
    set u | u in db.resources && db.resources[u].cluster == cluster && u != NodeUid(cluster)
  }

  function CountedEdges(db: Database, cluster: string): set<EdgeKey> {
    set k | k in db.edges && db.edges[k].cluster == cluster && k.edgeType != INTER_CLUSTER
  }

  /** Tables that match a collector count what the collector holds. */
  lemma TotalsOfMatching(db: Database, cluster: string, st: Collector)
    requires Matches(db, cluster, st) && NodeUid(cluster) !in st.resources
    requires forall k | k in st.edges :: k.edgeType != INTER_CLUSTER
    ensures |CountedRows(db, cluster)| == |st.resources| && |CountedEdges(db, cluster)| == |st.edges|
  {
    forall u ensures u in CountedRows(db, cluster) <==> u in st.resources.Keys {
      assert u in CountedRows(db, cluster) <==> OwnedBy(RowAt(db, u), cluster) && u != NodeUid(cluster);
    }
    assert CountedRows(db, cluster) == st.resources.Keys;
    forall k ensures k in CountedEdges(db, cluster) <==> k in st.edges {
      assert k in CountedEdges(db, cluster) <==> EdgeOwnedBy(EdgeAt(db, k), cluster) && k.edgeType != INTER_CLUSTER;
    }
    assert CountedEdges(db, cluster) == st.edges;
  }

  /** After a successful resync the totals are the number of accepted uids and of the incoming
      edges that are neither inter-cluster nor another cluster's. */
  lemma TotalsAfterResync(run: Run)
    requires Succeeded(run) && Sound(run)
    requires forall i, j | 0 <= i < j < |AcceptedUids(run.rs, run.cluster)| ::
      AcceptedUids(run.rs, run.cluster)[i] != AcceptedUids(run.rs, run.cluster)[j]
    ensures |CountedRows(run.after, run.cluster)| == |AcceptedUids(run.rs, run.cluster)|
    ensures |CountedEdges(run.after, run.cluster)| == |Incoming(run).edges|
  {
    hide Succeeded, Matches, KeysOf, CountedRows, CountedEdges;
    ResyncExact(run);
    var uids := AcceptedUids(run.rs, run.cluster);
    assert NodeUid(run.cluster) !in ResourcesOf(run.rs, run.cluster) by {
      assert Sound(run) && SlashFree(run.cluster);
      NodeHasNoSlash(run.cluster, run.cluster);
    }
    TotalsOfMatching(run.after, run.cluster, Incoming(run));
    AcceptedUidsAre(run.rs, run.cluster);
    assert ResourcesOf(run.rs, run.cluster).Keys == set u | u in uids;
    SizeOfDistinct(uids);
  }

  lemma {:induction false} SizeOfDistinct(uids: seq<string>)
    requires forall i, j | 0 <= i < j < |uids| :: uids[i] != uids[j]
    ensures |set u | u in uids| == |uids|
  {
    if uids != [] {
      var n := |uids| - 1;
      SizeOfDistinct(uids[..n]);
      assert (set u | u in uids) == (set u | u in uids[..n]) + {uids[n]};
    }
  }
}
