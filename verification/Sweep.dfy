/** Sweeping: which nodes a sweep unlinks, when that is safe, and what a full collection leaves behind. */
module Sweep {
  import opened Basics
  import opened Graphs
  import opened Marking
  import opened Tricolor
  import opened Cycles

  /** `sweep_unlink`'s own guard (src/mark_sweep.rs:380-387). */
  ghost predicate CanUnlink(m: Marks, p: nat) {
    p < |m.marking| && p < |m.gray| && m.marking[p] && m.gray[p] == []
  }

  ghost function UnlinkMarks(m: Marks, p: nat): Marks {
    if CanUnlink(m, p) then m.(marking := m.marking[p := false]) else m
  }

  ghost function UnlinkGraph(g: Graph, prot: set<Ptr>, m: Marks, p: nat): Graph
    requires MarksOk(g, m)
  {
    if CanUnlink(m, p) then Detach(g, p, Dead(g, prot, m, p)) else g
  }

  lemma UnlinkOk(g: Graph, prot: set<Ptr>, m: Marks, p: nat)
    requires ChainsOk(g) && MarksOk(g, m)
    ensures var g' := UnlinkGraph(g, prot, m, p);
            Wf(g') && ChainsOk(g') && MarksOk(g', UnlinkMarks(m, p))
  {
    if CanUnlink(m, p) {
      DetachOk(g, p, Dead(g, prot, m, p));
    }
  }

  /** After exact marking of the whole heap a sweep takes exactly the unreachable nodes of its partition. */
  lemma DeadIsUnreachable(g: Graph, prot: set<Ptr>, m: Marks, p: nat, n: Ptr)
    requires MarksOk(g, m) && p < |g.chain| && Exact(g, prot, m, Everywhere(g))
    requires Linked(g, n) && g.part[n] == p
    ensures n in Dead(g, prot, m, p) <==> !Reach(g, prot, Everywhere(g), n)
  {
    assert m.color[n] == if Reach(g, prot, Everywhere(g), n) then Black else White;
    if n in prot { ReachRoot(g, prot, Everywhere(g), n); }
  }

  /** A tri-colour safe partition with a drained stack never loses a node that is reachable inside it. */
  lemma DeadIsUnreachableInside(g: Graph, prot: set<Ptr>, m: Marks, p: nat, n: Ptr)
    requires MarksOk(g, m) && p < |g.chain| && Safe(g, prot, m, p) && CanUnlink(m, p)
    requires n in Dead(g, prot, m, p)
    ensures !Reach(g, prot, {p}, n)
  {
    if Reach(g, prot, {p}, n) {
      ReachedIsBlack(g, prot, m, {p}, n);
      assert false;
    }
  }

  /** With nothing pointing in from outside, such a sweep never takes a node reachable from any root or local. */
  lemma SweepSparesReachable(g: Graph, prot: set<Ptr>, m: Marks, p: nat, n: Ptr)
    requires MarksOk(g, m) && p < |g.chain| && Safe(g, prot, m, p) && CanUnlink(m, p)
    requires NoInbound(g, p) && n in Dead(g, prot, m, p)
    ensures !Reach(g, prot, Everywhere(g), n)
  {
    if Reach(g, prot, Everywhere(g), n) {
      ReachStaysInside(g, prot, p, n);
      DeadIsUnreachableInside(g, prot, m, p, n);
      assert false;
    }
  }

  /** Some node the sweep of `p` leaves points at one it takes. */
  ghost predicate SurvivorEdgeIntoDead(g: Graph, prot: set<Ptr>, m: Marks, p: nat)
    requires MarksOk(g, m) && p < |g.chain|
  {
    exists n, k {:trigger Edge(g, n, k)} :: Edge(g, n, k) && n !in Dead(g, prot, m, p) && k in Dead(g, prot, m, p)
  }

  /** ... one of another partition. */
  ghost predicate OutsideEdgeIntoDead(g: Graph, prot: set<Ptr>, m: Marks, p: nat)
    requires MarksOk(g, m) && p < |g.chain|
  {
    exists n, k {:trigger Edge(g, n, k)} :: Edge(g, n, k) && g.part[n] != p && k in Dead(g, prot, m, p)
  }

  /**
   Exactly when sweeping one partition leaves a dangling pointer: a node it leaves points at one it takes. From a
   tri-colour safe marking that is never because of the partition's own edges.
   */
  lemma SweepDanglesIff(g: Graph, prot: set<Ptr>, m: Marks, p: nat)
    requires MarksOk(g, m) && NoDangling(g) && p < |g.chain| && CanUnlink(m, p)
    ensures NoDangling(UnlinkGraph(g, prot, m, p)) <==> !SurvivorEdgeIntoDead(g, prot, m, p)
    ensures Safe(g, prot, m, p) ==> (SurvivorEdgeIntoDead(g, prot, m, p) <==> OutsideEdgeIntoDead(g, prot, m, p))
  {
    var dead := Dead(g, prot, m, p);
    var g' := UnlinkGraph(g, prot, m, p);
    assert forall n, k :: Edge(g', n, k) <==> Edge(g, n, k) && n !in dead;
    if SurvivorEdgeIntoDead(g, prot, m, p) {
      var n, k :| Edge(g, n, k) && n !in dead && k in dead;
      assert Edge(g', n, k) && !Linked(g', k);
    }
    if Safe(g, prot, m, p) { SafeEdgesIntoDead(g, prot, m, p); }
  }

  /** After a safe marking nothing the sweep leaves in its own partition points at what it takes. */
  lemma SafeEdgesIntoDead(g: Graph, prot: set<Ptr>, m: Marks, p: nat)
    requires MarksOk(g, m) && p < |g.chain| && Safe(g, prot, m, p) && CanUnlink(m, p)
    ensures forall n, k {:trigger Edge(g, n, k)} :: Edge(g, n, k) && k in Dead(g, prot, m, p) ==>
              (n !in Dead(g, prot, m, p) <==> g.part[n] != p)
  {
    forall n, k | Edge(g, n, k) && k in Dead(g, prot, m, p) && g.part[n] == p ensures n in Dead(g, prot, m, p) {
      if n !in Dead(g, prot, m, p) {
        SurvivorIsBlack(g, prot, m, p, n);
        assert false;
      }
    }
  }

  /** The sweep of `p` takes a node that some root or local reaches. */
  ghost predicate TakesReachable(g: Graph, prot: set<Ptr>, m: Marks, p: nat)
    requires MarksOk(g, m) && p < |g.chain|
  {
    exists k :: k in Dead(g, prot, m, p) && Reach(g, prot, Everywhere(g), k)
  }

  /** Some reachable node the sweep of `p` leaves points at one it takes. */
  ghost predicate ReachableEdgeIntoDead(g: Graph, prot: set<Ptr>, m: Marks, p: nat)
    requires MarksOk(g, m) && p < |g.chain|
  {
    exists n, k {:trigger Edge(g, n, k)} ::
      Edge(g, n, k) && Reach(g, prot, Everywhere(g), n) && n !in Dead(g, prot, m, p) && k in Dead(g, prot, m, p)
  }

  /** Exactly when sweeping one partition takes a reachable node: one that it leaves points at it. */
  lemma TakesReachableIff(g: Graph, prot: set<Ptr>, m: Marks, p: nat)
    requires MarksOk(g, m) && NoDangling(g) && p < |g.chain|
    ensures TakesReachable(g, prot, m, p) <==> ReachableEdgeIntoDead(g, prot, m, p)
  {
    if TakesReachable(g, prot, m, p) {
      var k :| k in Dead(g, prot, m, p) && Reach(g, prot, Everywhere(g), k);
      var path :| PathIn(g, Everywhere(g), path) && path[0] in prot && path[|path| - 1] == k;
      FirstDeadOnPath(g, prot, m, p, path);
    }
    if ReachableEdgeIntoDead(g, prot, m, p) {
      var n, k :| Edge(g, n, k) && Reach(g, prot, Everywhere(g), n) && n !in Dead(g, prot, m, p) && k in Dead(g, prot, m, p);
      ReachStep(g, prot, Everywhere(g), n, k);
    }
  }

  /** The first node of the path that the sweep takes is entered from one it leaves. */
  lemma FirstDeadOnPath(g: Graph, prot: set<Ptr>, m: Marks, p: nat, path: seq<Ptr>)
    requires MarksOk(g, m) && p < |g.chain|
    requires PathIn(g, Everywhere(g), path) && path[0] in prot && path[|path| - 1] in Dead(g, prot, m, p)
    ensures ReachableEdgeIntoDead(g, prot, m, p)
  {
    var i := 0;
    while path[i + 1] !in Dead(g, prot, m, p)
      invariant 0 <= i < |path| - 1 && path[i] !in Dead(g, prot, m, p)
      decreases |path| - i
    {
      i := i + 1;
    }
    var n, k := path[i], path[i + 1];
    assert Edge(g, n, k);
    assert PathIn(g, Everywhere(g), path[..i + 1]) && path[..i + 1][0] in prot && path[..i + 1][i] == n;
    assert Reach(g, prot, Everywhere(g), n);
  }

  lemma SurvivorIsBlack(g: Graph, prot: set<Ptr>, m: Marks, p: nat, n: Ptr)
    requires MarksOk(g, m) && p < |g.chain| && Safe(g, prot, m, p) && CanUnlink(m, p)
    requires Linked(g, n) && g.part[n] == p && n !in Dead(g, prot, m, p)
    ensures m.color[n] == Black
  {
    assert m.gray[g.part[n]] == [];
    assert m.color[n] != Gray;
  }

  // ---- the sweeps that follow a heap-wide marking ----

  /** `sweep_unlink` on each partition of `ps` in turn. */
  ghost function UnlinkEach(g: Graph, prot: set<Ptr>, m: Marks, ps: seq<nat>): (r: (Graph, Marks))
    requires ChainsOk(g) && MarksOk(g, m)
    ensures ChainsOk(r.0) && MarksOk(r.0, r.1)
    decreases |ps|
  {
    if ps == [] then (g, m)
    else
      UnlinkOk(g, prot, m, ps[0]);
      UnlinkEach(UnlinkGraph(g, prot, m, ps[0]), prot, UnlinkMarks(m, ps[0]), ps[1..])
  }

  /** Colours, kids and partitions never change while sweeping, so what is Black at the start stays linked. */
  lemma {:induction false} UnlinkEachTakesWhites(g: Graph, prot: set<Ptr>, m: Marks, ps: seq<nat>)
    requires ChainsOk(g) && MarksOk(g, m) && (forall p :: p in ps ==> p < |g.chain|) && Distinct(ps)
    requires forall p :: p in ps ==> CanUnlink(m, p)
    ensures var r := UnlinkEach(g, prot, m, ps);
            r.0.kids == g.kids && r.0.part == g.part &&
            forall n :: Linked(r.0, n) <==>
              Linked(g, n) && !(g.part[n] in ps && m.color[n] == White && n !in prot)
    decreases |ps|
  {
    if ps != [] {
      var p := ps[0];
      UnlinkOk(g, prot, m, p);
      var g1, m1 := UnlinkGraph(g, prot, m, p), UnlinkMarks(m, p);
      assert forall q :: q in ps <==> q == p || q in ps[1..];
      assert forall q :: q in ps[1..] ==> q != p;
      UnlinkEachTakesWhites(g1, prot, m1, ps[1..]);
    }
  }

  /** Every partition, each once. */
  ghost predicate AllOnce(g: Graph, ps: seq<nat>) {
    Distinct(ps) && forall q :: q in ps <==> 0 <= q < |g.chain|
  }

  /**
   The whole multi-partition cycle: from drained stacks and a partition that is not marking, any `mark`
   calls that drain every stack, then a sweep of every partition in any order, leave linked exactly the
   nodes reachable from roots and locals, and nothing dangling.
   */
  lemma FullCycleKeepsExactlyReachable(g: Graph, prot: set<Ptr>, m: Marks, calls: seq<Call>, ps: seq<nat>)
    requires NoDangling(g) && ChainsOk(g) && MarksOk(g, m) && CallsIn(g, calls, Everywhere(g))
    requires calls != [] && !m.marking[calls[0].p] && Drained(m, Everywhere(g))
    requires Drained(MarkAll(g, prot, m, calls), Everywhere(g))
    requires AllOnce(g, ps)
    ensures var g' := UnlinkEach(g, prot, MarkAll(g, prot, m, calls), ps).0;
            && (forall n :: Linked(g', n) <==> Linked(g, n) && Reach(g, prot, Everywhere(g), n))
            && NoDangling(g')
  {
    var all := Everywhere(g);
    var m' := MarkAll(g, prot, m, calls);
    MarkingIsExact(g, prot, m, calls, all);
    MarkingStaysOn(g, prot, m, calls);
    assert forall p :: p in ps ==> CanUnlink(m', p);
    UnlinkEachTakesWhites(g, prot, m', ps);
    var g' := UnlinkEach(g, prot, m', ps).0;
    forall n | Linked(g, n) ensures Linked(g', n) <==> Reach(g, prot, all, n) {
      DeadIsUnreachable(g, prot, m', g.part[n], n);
    }
    forall n, k | Edge(g', n, k) ensures Linked(g', k) {
      assert Edge(g, n, k);
      ReachStep(g, prot, all, n, k);
    }
  }

  /** After the first call every partition is marking, and `mark` never switches one off. */
  lemma {:induction false} MarkingStaysOn(g: Graph, prot: set<Ptr>, m: Marks, calls: seq<Call>)
    requires NoDangling(g) && ChainsOk(g) && MarksOk(g, m) && CallsIn(g, calls, Everywhere(g)) && calls != []
    requires !m.marking[calls[0].p] || (forall p :: 0 <= p < |g.chain| ==> m.marking[p])
    ensures forall p :: 0 <= p < |g.chain| ==> MarkAll(g, prot, m, calls).marking[p]
    decreases |calls|
  {
    hide MarkLoop;
    var c := calls[0];
    PrepareOk(g, prot, m, c.p);
    var m1 := Prepare(g, prot, m, c.p);
    MarkLoopOk(g, m1, c.p, c.budget);
    var m2 := Mark(g, prot, m, c.p, c.budget).0;
    assert m2.marking == m1.marking;
    if |calls| > 1 {
      MarkingStaysOn(g, prot, m2, calls[1..]);
    } else {
      assert calls[1..] == [];
    }
  }

  // ---- the cross-partition hazard, concretely ----

  /** Root 1 lives in partition 0 and points at 2, the only node of partition 1. */
  ghost function TwoPartitions(): Graph {
    Graph(map[1 := [2], 2 := []], map[1 := 0, 2 := 1], map[1 := 0, 2 := 0], {1, 2}, [[1], [2]])
  }

  ghost function Unmarked(): Marks {
    Marks(map[1 := White, 2 := White], {}, [[], []], [false, false])
  }

  lemma TwoPartitionsOk()
    ensures var g := TwoPartitions();
            NoDangling(g) && ChainsOk(g) && MarksOk(g, Unmarked()) && Edge(g, 1, 2) && Linked(g, 2)
  {
    var g := TwoPartitions();
    assert g.chain[0] == [1] && g.chain[1] == [2];
    forall n | n in g.linked ensures n in g.chain[g.part[n]] {
      assert n == 1 || n == 2;
    }
    forall p | 0 <= p < 2 ensures Distinct(g.chain[p]) {
      assert p == 0 || p == 1;
    }
  }

  /** One completed `mark` of partition 1 and its sweep free a node reachable from a root. */
  lemma LocalCollectionFreesAReachableNode(budget: nat)
    requires budget > 0
    ensures var g := TwoPartitions();
            && NoDangling(g) && ChainsOk(g) && MarksOk(g, Unmarked())
            && (var r := Mark(g, {1}, Unmarked(), 1, budget);
                && r.1 && MarksOk(g, r.0) && CanUnlink(r.0, 1) && 2 in Dead(g, {1}, r.0, 1))
            && Reach(g, {1}, Everywhere(g), 2)
  {
    TwoPartitionsOk();
    var g, m := TwoPartitions(), Unmarked();
    PrepareOk(g, {1}, m, 1);
    assert Keep(g.chain[1], {1}) == [] by { assert g.chain[1] == [2] && g.chain[1][..0] == []; }
    ReachRoot(g, {1}, Everywhere(g), 1);
    ReachStep(g, {1}, Everywhere(g), 1, 2);
  }

  // ---- why exactness needs drained stacks, concretely ----

  /** One partition, not marking, one node that nothing reaches, still Gray and listed from an earlier push. */
  ghost function OneNode(): Graph {
    Graph(map[1 := []], map[1 := 0], map[1 := 0], {1}, [[1]])
  }

  ghost function StaleGray(): Marks {
    Marks(map[1 := Gray], {1}, [[1]], [false])
  }

  lemma OneNodeOk()
    ensures var g := OneNode(); NoDangling(g) && ChainsOk(g) && Linked(g, 1) && MarksOk(g, StaleGray())
  {
    var g := OneNode();
    assert g.chain[0] == [1] && StaleGray().gray[0] == [1];
    forall p | 0 <= p < |g.chain| ensures Distinct(g.chain[p]) {
      assert p == 0;
    }
    forall n | n in g.linked ensures n in g.chain[g.part[n]] {
      assert n == 1;
    }
  }

  lemma KeepNone(xs: seq<Ptr>, S: set<Ptr>)
    requires S == {}
    ensures Keep(xs, S) == []
  {
    assert forall x :: x !in Keep(xs, S);
    ElemsEmpty(Keep(xs, S));
  }

  lemma StalePrepared()
    ensures MarksOk(OneNode(), StaleGray())
    ensures Prepare(OneNode(), {}, StaleGray(), 0) == Marks(map[1 := Gray], {1}, [[1]], [true])
  {
    OneNodeOk();
    var g, m := OneNode(), StaleGray();
    var m1 := Prepare(g, {}, m, 0);
    var none: set<Ptr> := {};
    assert Keep(g.chain[0], none - m.listed) == [] by { KeepNone(g.chain[0], none - m.listed); }
    assert m1.gray[0] == m.gray[0] + [] == [1];
    assert m1.color == map[1 := Gray] && m1.listed == {1} && m1.gray == [[1]] && m1.marking == [true];
  }

  lemma StaleScanned()
    ensures var g, m1 := OneNode(), Marks(map[1 := Gray], {1}, [[1]], [true]);
            && NoDangling(g) && MarksOk(g, m1) && GrayTop(g, m1, 0)
            && Scan(g, m1, 0) == Marks(map[1 := Black], {}, [[]], [true])
  {
    OneNodeOk();
    var g, m1 := OneNode(), Marks(map[1 := Gray], {1}, [[1]], [true]);
    assert m1.gray[0] == [1];
    PopOk(g, m1, 0);
    ScanOrderLinked(g, 1);
    assert Pop(m1, 0) == Marks(map[1 := Gray], {}, [[]], [true]);
    assert ScanOrder(g, 1) == [];
    var m2 := Scan(g, m1, 0);
    assert m2.color == map[1 := Black] && m2.listed == {} && m2.gray == [[]];
  }

  /** A completed marking from there blackens it, so the sweep keeps garbage: `mark_prepare` recolours nothing there. */
  lemma PendingGraysKeepGarbage(budget: nat)
    requires budget > 0
    ensures var g, m := OneNode(), StaleGray();
            && NoDangling(g) && ChainsOk(g) && MarksOk(g, m)
            && (var r := Mark(g, {}, m, 0, budget);
                && r.1 && MarksOk(g, r.0) && CanUnlink(r.0, 0) && Dead(g, {}, r.0, 0) == {})
            && !Reach(g, {}, Everywhere(g), 1)
  {
    OneNodeOk();
    StalePrepared();
    StaleScanned();
    hide Prepare, Scan, GrayTop, Keep;
    var g := OneNode();
    var m1, m2 := Marks(map[1 := Gray], {1}, [[1]], [true]), Marks(map[1 := Black], {}, [[]], [true]);
    ScanOk(g, m1, 0);
    MarkLoopScan(g, m1, 0, budget);
    MarkLoopIdle(g, m2, 0, budget - 1);
    hide MarkLoop;
    assert Dead(g, {}, m2, 0) == {};
  }
}
