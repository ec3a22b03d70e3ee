/** Where the source asks less of its callers than safety needs: what goes wrong, and exactly when. */
module Hazards {
  import opened Basics
  import opened Graphs
  import opened Marking
  import opened Tricolor
  import opened Cycles
  import opened Sweep
  import opened Exactness
  import opened Machine
  import opened Runs
  import A = Accounting
  import S = Scopes

  // ---- promotion across partitions, then removal ----

  /** Removing a partition leaves the scopes well formed exactly when its own stacks hold all of its LOCAL nodes. */
  lemma RemovalKeepsScopesIff(g: Graph, t: S.ScopeTable, p: nat)
    requires Wf(g) && S.ScopesOk(g, t) && p < |g.chain|
    ensures S.ScopesOk(RemovedGraph(g, p), S.ClearPartition(t, p)) <==> S.HeldInside(g, t, p)
  {
    var g', t' := RemovedGraph(g, p), S.ClearPartition(t, p);
    S.ClearPartitionOk(g, t, p);
    S.ClearedOfPartitionIff(g, t, p);
    assert S.ScopesOk(g', t') <==> t'.home.Keys <= g'.linked;
    hide S.ScopesOk, S.ClearPartition, S.HeldInside;
    assert t'.home.Keys <= g.linked by { LocalsInside(g, t, p); }
    assert forall n :: n in t'.home ==> n in g.part && (n in g'.linked <==> g.part[n] != p);
  }

  lemma LocalsInside(g: Graph, t: S.ScopeTable, p: nat)
    requires S.ScopesOk(g, t)
    ensures S.ClearPartition(t, p).home.Keys <= g.linked
  {
  }

  /** A node promoted to another partition's stack stays cached there while removing its own partition frees it. */
  lemma PromotedThenFreed(g: Graph, t: S.ScopeTable, at: S.Place, target: S.Place, n: Ptr, p: nat)
    requires Wf(g) && S.ScopesOk(g, t) && S.IsScope(t.stacks, at) && S.IsScope(t.stacks, target)
    requires n in S.ScopeAt(t.stacks, at).cache && n in g.part && g.part[n] == p && p < |g.chain|
    requires S.ScopeAt(t.stacks, target).pid != p
    ensures var g', t' := RemovedGraph(g, p), S.ClearPartition(S.Promote(t, at, target, n), p);
            n !in g'.part && S.IsScope(t'.stacks, target) && n in S.ScopeAt(t'.stacks, target).cache
  {
    S.PromoteOk(g, t, at, target, n);
    var t1 := S.Promote(t, at, target, n);
    assert S.IsScope(t1.stacks, target) && t1.stacks[target.stack].pid == Some(S.ScopeAt(t1.stacks, target).pid);
    assert S.ScopeAt(t1.stacks, target).pid == S.ScopeAt(t.stacks, target).pid;
  }

  /** Node 1 of partition 0, in the open scope of the first of two stacks. */
  ghost function OneLocal(): (Graph, S.ScopeTable) {
    (Graph(map[1 := []], map[1 := 0], map[1 := 0], {1}, [[1], []]),
     S.ScopeTable(map[1 := S.Place(0, 0)], [S.Stack([S.Scope(0, [1])], Some(0)), S.Stack([S.Scope(1, [])], Some(1))]))
  }

  lemma PromotionOutlivesItsNode()
    ensures var (g, t) := OneLocal();
            var t' := S.ClearPartition(S.Promote(t, S.Place(0, 0), S.Place(1, 0), 1), 0);
            && S.ScopesOk(g, t) && 1 !in RemovedGraph(g, 0).part
            && S.IsScope(t'.stacks, S.Place(1, 0)) && 1 in S.ScopeAt(t'.stacks, S.Place(1, 0)).cache
  {
    var (g, t) := OneLocal();
    forall at | S.IsScope(t.stacks, at)
      ensures S.ScopeOk(t.home, at, S.ScopeAt(t.stacks, at)) && t.stacks[at.stack].pid == Some(S.ScopeAt(t.stacks, at).pid)
    {
      assert at == S.Place(0, 0) || at == S.Place(1, 0);
    }
    assert S.ScopeAt(t.stacks, S.Place(0, 0)).cache == [1];
    PromotedThenFreed(g, t, S.Place(0, 0), S.Place(1, 0), 1, 0);
  }

  // ---- collecting one partition on its own ----

  /** Some reachable node of `p` is condemned. */
  ghost predicate CondemnsReachable(g: Graph, prot: set<Ptr>, m: Marks, p: nat)
    requires MarksOk(g, m) && p < |g.chain|
  {
    exists n :: Condemned(g, prot, m, p, n) && Reach(g, prot, Everywhere(g), n)
  }

  /** An edge from a reachable node outside `p` to a condemned one. */
  ghost predicate CondemnsFromOutside(g: Graph, prot: set<Ptr>, m: Marks, p: nat)
    requires MarksOk(g, m) && p < |g.chain|
  {
    exists n, k {:trigger Edge(g, n, k)} ::
      Edge(g, n, k) && g.part[n] != p && Reach(g, prot, Everywhere(g), n) && Condemned(g, prot, m, p, k)
  }

  /** An edge from a reachable node outside `p` to a node of `p` that nothing reaches inside `p`. */
  ghost predicate OnlyHeldFromOutside(g: Graph, prot: set<Ptr>, p: nat) {
    exists n, k {:trigger Edge(g, n, k)} ::
      Edge(g, n, k) && g.part[n] != p && Linked(g, k) && g.part[k] == p
      && Reach(g, prot, Everywhere(g), n) && !Reach(g, prot, {p}, k)
  }

  /**
   Exactly when collecting one partition on its own frees a reachable node, on the state before the call, whatever
   that state is. Where `p` is tri-colour safe only an edge from outside can be to blame; from a fresh start that
   is an edge to a node nothing reaches inside `p`.
   */
  lemma LocalCollectionTakesReachableIff(g: Graph, prot: set<Ptr>, m: Marks, p: nat, k: nat, calls: nat)
    requires NoDangling(g) && ChainsOk(g) && MarksOk(g, m) && p < |g.chain| && MarkWhile(g, prot, m, p, k, calls).1
    ensures var m' := MarkWhile(g, prot, m, p, k, calls).0;
            && CanUnlink(m', p)
            && (TakesReachable(g, prot, m', p) <==> CondemnsReachable(g, prot, m, p))
    ensures Safe(g, prot, m, p) ==> (CondemnsReachable(g, prot, m, p) <==> CondemnsFromOutside(g, prot, m, p))
    ensures !m.marking[p] && m.gray[p] == [] ==> (CondemnsReachable(g, prot, m, p) <==> OnlyHeldFromOutside(g, prot, p))
  {
    hide MarkWhile, Reach, Dead, Condemned, Safe, ReachableEdgeIntoDead;
    TakenIff(g, prot, m, p, k, calls);
    var m' := MarkWhile(g, prot, m, p, k, calls).0;
    assert !m.marking[p] && m.gray[p] == [] ==> Safe(g, prot, m, p) by { IdleIsSafe(g, prot, m, p); }
    if Safe(g, prot, m, p) {
      WhileSafe(g, prot, m, p, k, calls);
      SafeTakesReachableIff(g, prot, m', p);
    }
    if !m.marking[p] && m.gray[p] == [] {
      forall n | Linked(g, n) && g.part[n] == p ensures Condemned(g, prot, m, p, n) <==> !Reach(g, prot, {p}, n) {
        FreshCondemnedIff(g, prot, m, p, n);
      }
      forall n | Condemned(g, prot, m, p, n) ensures Linked(g, n) && g.part[n] == p {
        CondemnedIsIn(g, prot, m, p, n);
      }
    }
  }

  lemma IdleIsSafe(g: Graph, prot: set<Ptr>, m: Marks, p: nat)
    requires MarksOk(g, m) && p < |g.chain|
    ensures !m.marking[p] && m.gray[p] == [] ==> Safe(g, prot, m, p)
  {
  }

  lemma CondemnedIsIn(g: Graph, prot: set<Ptr>, m: Marks, p: nat, n: Ptr)
    requires MarksOk(g, m) && p < |g.chain| && Condemned(g, prot, m, p, n)
    ensures Linked(g, n) && g.part[n] == p
  {
  }

  /** After a safe marking it takes an edge from another partition. */
  lemma SafeTakesReachableIff(g: Graph, prot: set<Ptr>, m: Marks, p: nat)
    requires MarksOk(g, m) && NoDangling(g) && p < |g.chain| && Safe(g, prot, m, p) && CanUnlink(m, p)
    ensures TakesReachable(g, prot, m, p) <==>
              exists n, k {:trigger Edge(g, n, k)} ::
                Edge(g, n, k) && g.part[n] != p && Reach(g, prot, Everywhere(g), n) && k in Dead(g, prot, m, p)
  {
    hide Safe, Reach, Dead;
    TakesReachableIff(g, prot, m, p);
    SafeEdgesIntoDead(g, prot, m, p);
  }

  /** From a fresh start the condemned are the nodes that nothing reaches inside the partition. */
  lemma FreshCondemnedIff(g: Graph, prot: set<Ptr>, m: Marks, p: nat, n: Ptr)
    requires MarksOk(g, m) && p < |g.chain| && !m.marking[p] && m.gray[p] == [] && Linked(g, n) && g.part[n] == p
    ensures Condemned(g, prot, m, p, n) <==> !Reach(g, prot, {p}, n)
  {
    var g', sources := Cut(g, KeptBlacks(g, prot, m, p)), Sources(g, prot, m, p);
    if n in prot { ReachRoot(g, prot, {p}, n); }
    if Reach(g, prot, {p}, n) { ReachAgrees(g, prot, g', sources, {p}, n); }
    if Held(g, prot, m, p, n) { ReachAgrees(g', sources, g, prot, {p}, n); }
  }

  /** An edge from a node that is not condemned to one that is. */
  ghost predicate EdgeIntoCondemned(g: Graph, prot: set<Ptr>, m: Marks, p: nat)
    requires MarksOk(g, m) && p < |g.chain|
  {
    exists n, k {:trigger Edge(g, n, k)} :: Edge(g, n, k) && !Condemned(g, prot, m, p, n) && Condemned(g, prot, m, p, k)
  }

  ghost predicate OutsideEdgeIntoCondemned(g: Graph, prot: set<Ptr>, m: Marks, p: nat)
    requires MarksOk(g, m) && p < |g.chain|
  {
    exists n, k {:trigger Edge(g, n, k)} :: Edge(g, n, k) && g.part[n] != p && Condemned(g, prot, m, p, k)
  }

  /** Exactly when it leaves a dangling pointer, again on the state before the call, whatever that is. */
  lemma LocalCollectionDanglesIff(g: Graph, prot: set<Ptr>, m: Marks, p: nat, k: nat, calls: nat)
    requires NoDangling(g) && ChainsOk(g) && MarksOk(g, m) && p < |g.chain| && MarkWhile(g, prot, m, p, k, calls).1
    ensures var m' := MarkWhile(g, prot, m, p, k, calls).0;
            NoDangling(UnlinkGraph(g, prot, m', p)) <==> !EdgeIntoCondemned(g, prot, m, p)
    ensures Safe(g, prot, m, p) ==> (EdgeIntoCondemned(g, prot, m, p) <==> OutsideEdgeIntoCondemned(g, prot, m, p))
  {
    hide MarkWhile, Dead, Condemned, Safe, UnlinkGraph, NoDangling;
    TakenIff(g, prot, m, p, k, calls);
    var m' := MarkWhile(g, prot, m, p, k, calls).0;
    SweepDanglesIff(g, prot, m', p);
    if Safe(g, prot, m, p) { WhileSafe(g, prot, m, p, k, calls); }
  }

  // ---- pending grays in a partition that is not marking ----

  /** A scan in another partition pushes grays onto a partition that is not marking, and leaves it unsafe. */
  lemma ScanLeavesPending(g: Graph, prot: set<Ptr>, m: Marks, p: nat, q: nat, k: Ptr)
    requires NoDangling(g) && MarksOk(g, m) && p < |m.gray| && m.gray[p] != [] && GrayTop(g, m, p)
    requires q < |m.gray| && q != p && !m.marking[q]
    requires Edge(g, Top(m, p), k) && k in m.color && k in g.part && g.part[k] == q && m.color[k] != Black
    ensures var m' := Scan(g, m, p);
            MarksOk(g, m') && !m'.marking[q] && k in m'.gray[q] && !Safe(g, prot, m', q)
  {
    ScanOk(g, m, p);
    PopOk(g, m, p);
    ScanOrderLinked(g, Top(m, p));
    assert k in Pushed(g, m.color, ScanOrder(g, Top(m, p)), q);
  }

  /** Root 1 points at 2 and 2 at 3, all in one partition; 4 is a gray another partition pushed. */
  ghost function Chained(): Graph {
    Graph(map[1 := [2], 2 := [3], 3 := [], 4 := []], map[1 := 0, 2 := 0, 3 := 0, 4 := 0],
          map[1 := 0, 2 := 0, 3 := 0, 4 := 0], {1, 2, 3, 4}, [[1, 2, 3, 4]])
  }

  /** Not marking; 1 and 2 still Black from an earlier cycle, 3 new since. */
  ghost function StaleBlacks(): Marks {
    Marks(map[1 := Black, 2 := Black, 3 := White, 4 := Gray], {4}, [[4]], [false])
  }

  lemma ChainedOk()
    ensures var g := Chained();
            && NoDangling(g) && ChainsOk(g) && MarksOk(g, StaleBlacks()) && NoInbound(g, 0) && |g.chain| == 1
            && Edge(g, 1, 2) && Edge(g, 2, 3) && Linked(g, 1) && Linked(g, 2) && Linked(g, 3)
            && (forall n, k {:trigger Edge(g, n, k)} :: Edge(g, n, k) ==> (n == 1 && k == 2) || (n == 2 && k == 3))
            && (forall n :: Linked(g, n) ==> g.part[n] == 0)
  {
    hide ChainsOk;
    ChainedInChain();
    assert StaleBlacks().gray[0] == [4];
  }

  lemma ChainedInChain()
    ensures ChainsOk(Chained())
  {
    var g := Chained();
    var c := g.chain[0];
    assert c == [1, 2, 3, 4] && c[0] == 1 && c[1] == 2 && c[2] == 3 && c[3] == 4;
    forall n | n in g.linked ensures n in c {
      assert n == 1 || n == 2 || n == 3 || n == 4;
    }
    forall n | n in c ensures Linked(g, n) && g.part[n] == 0 {
      assert n == 1 || n == 2 || n == 3 || n == 4;
    }
    forall p | 0 <= p < |g.chain| ensures Distinct(g.chain[p]) {
      assert g.chain[p] == c;
    }
  }

  lemma StaleCondemned()
    ensures MarksOk(Chained(), StaleBlacks()) && |Chained().chain| == 1
    ensures Condemned(Chained(), {1}, StaleBlacks(), 0, 3) && !Condemned(Chained(), {1}, StaleBlacks(), 0, 2)
  {
    ChainedOk();
    var g, m := Chained(), StaleBlacks();
    assert m.gray[0] == [4] && 2 in KeptBlacks(g, {1}, m, 0);
    var g' := Cut(g, KeptBlacks(g, {1}, m, 0));
    if Held(g, {1}, m, 0, 3) {
      forall a, b | Edge(g', a, b) ensures a == 1 && b == 2 {
        assert Edge(g, a, b);
      }
      ReachLeast(g', Sources(g, {1}, m, 0), {0}, {1, 2, 4}, 3);
      assert false;
    }
  }

  lemma StaleReach()
    ensures Reach(Chained(), {1}, {0}, 2) && Reach(Chained(), {1}, {0}, 3)
    ensures Reach(Chained(), {1}, Everywhere(Chained()), 2) && Reach(Chained(), {1}, Everywhere(Chained()), 3)
  {
    ChainedOk();
    hide Reach;
    var g := Chained();
    forall P: set<nat> | 0 in P ensures Reach(g, {1}, P, 2) && Reach(g, {1}, P, 3) {
      ReachRoot(g, {1}, P, 1);
      ReachStep(g, {1}, P, 1, 2);
      ReachStep(g, {1}, P, 2, 3);
    }
  }

  /**
   Collecting from there frees a node that its own partition's root reaches, and leaves its parent dangling, though
   no edge enters the partition: `mark_prepare` keeps the old Black nodes and marking never looks at their children.
   */
  lemma PendingGraysFreeAReachableNode(k: nat)
    requires k > 0
    ensures var g, m := Chained(), StaleBlacks();
            && NoDangling(g) && ChainsOk(g) && MarksOk(g, m) && NoInbound(g, 0) && |g.chain| == 1
            && Reach(g, {1}, {0}, 3) && !OnlyHeldFromOutside(g, {1}, 0)
            && var r := MarkWhile(g, {1}, m, 0, k, CallBound(|Nodes(g, 0)|, k));
               && r.1 && CanUnlink(r.0, 0) && TakesReachable(g, {1}, r.0, 0) && 3 in Dead(g, {1}, r.0, 0)
               && !NoDangling(UnlinkGraph(g, {1}, r.0, 0)) && !OutsideEdgeIntoDead(g, {1}, r.0, 0)
  {
    ChainedOk();
    StaleCondemned();
    StaleReach();
    var g, m := Chained(), StaleBlacks();
    hide MarkWhile, Condemned, Dead, CallBound, Nodes, Chained, StaleBlacks, NoDangling, UnlinkGraph, ChainsOk, Reach;
    var calls := CallBound(|Nodes(g, 0)|, k);
    MarkWhileTerminates(g, {1}, m, 0, k);
    TakenIff(g, {1}, m, 0, k, calls);
    LocalCollectionDanglesIff(g, {1}, m, 0, k, calls);
  }
}
