/**
 Whole marking cycles: any sequence of budgeted `mark` calls, what it computes and how long it takes.
 */
module Cycles {
  import opened Basics
  import opened Graphs
  import opened Marking
  import opened Tricolor

  datatype Call = Call(p: nat, budget: nat)

  ghost predicate CallsIn(g: Graph, calls: seq<Call>, P: set<nat>) {
    forall c :: c in calls ==> c.p in P && c.p < |g.chain|
  }

  /** The marking state after a sequence of `mark` calls, with no mutation or sweep in between. */
  ghost function MarkAll(g: Graph, prot: set<Ptr>, m: Marks, calls: seq<Call>): (m': Marks)
    requires NoDangling(g) && ChainsOk(g) && MarksOk(g, m)
    requires forall c :: c in calls ==> c.p < |g.chain|
    ensures MarksOk(g, m')
    decreases |calls|
  {
    if calls == [] then m
    else
      MarkOk(g, prot, m, calls[0].p, calls[0].budget);
      MarkAll(g, prot, Mark(g, prot, m, calls[0].p, calls[0].budget).0, calls[1..])
  }

  lemma {:induction false} MarkAllTriSound(g: Graph, prot: set<Ptr>, m: Marks, calls: seq<Call>, P: set<nat>)
    requires NoDangling(g) && ChainsOk(g) && MarksOk(g, m) && CallsIn(g, calls, P)
    requires Tri(g, prot, m, P) && Sound(g, prot, m, P)
    requires forall p :: p in P && p < |g.chain| ==> m.marking[p]
    ensures var m' := MarkAll(g, prot, m, calls);
            Tri(g, prot, m', P) && Sound(g, prot, m', P)
    decreases |calls|
  {
    hide Mark;
    if calls != [] {
      var c := calls[0];
      MarkKeeps(g, prot, m, c.p, c.budget, P);
      MarkAllTriSound(g, prot, Mark(g, prot, m, c.p, c.budget).0, calls[1..], P);
    }
  }

  /** `mark` on a partition that is already marking. */
  lemma MarkKeeps(g: Graph, prot: set<Ptr>, m: Marks, p: nat, budget: nat, P: set<nat>)
    requires NoDangling(g) && ChainsOk(g) && MarksOk(g, m) && p < |g.chain| && p in P
    requires Tri(g, prot, m, P) && Sound(g, prot, m, P) && m.marking[p]
    ensures var m' := Mark(g, prot, m, p, budget).0;
            MarksOk(g, m') && m'.marking == m.marking && Tri(g, prot, m', P) && Sound(g, prot, m', P)
  {
    MarkLoopOk(g, m, p, budget);
    MarkLoopTri(g, prot, m, p, budget, P);
    MarkLoopSound(g, prot, m, p, budget, P);
  }

  /**
   The fixpoint theorem. Start where the first target is not marking and no partition of `P` has pending
   grays; call `mark` on partitions of `P` in any order with any budgets, and nothing else; once the gray
   stacks of `P` are empty, the Black nodes of `P` are exactly those reachable inside `P`.
   */
  lemma MarkingIsExact(g: Graph, prot: set<Ptr>, m: Marks, calls: seq<Call>, P: set<nat>)
    requires NoDangling(g) && ChainsOk(g) && MarksOk(g, m) && CallsIn(g, calls, P)
    requires calls != [] && !m.marking[calls[0].p] && Drained(m, P)
    requires Drained(MarkAll(g, prot, m, calls), P)
    ensures Exact(g, prot, MarkAll(g, prot, m, calls), P)
  {
    var c := calls[0];
    var m1 := Prepare(g, prot, m, c.p);
    PrepareFresh(g, prot, m, c.p, P);
    assert forall p :: 0 <= p < |g.chain| ==> m1.marking[p];
    assert Prepare(g, prot, m1, c.p) == m1;
    assert Mark(g, prot, m, c.p, c.budget) == Mark(g, prot, m1, c.p, c.budget);
    assert MarkAll(g, prot, m, calls) == MarkAll(g, prot, m1, calls);
    MarkAllTriSound(g, prot, m1, calls, P);
    DrainedIsExact(g, prot, MarkAll(g, prot, m1, calls), P);
  }

  /** However the work is cut into calls, the completed colouring of `P` is the same. */
  lemma BudgetsDoNotMatter(g: Graph, prot: set<Ptr>, m: Marks, calls: seq<Call>, calls': seq<Call>, P: set<nat>, n: Ptr)
    requires NoDangling(g) && ChainsOk(g) && MarksOk(g, m) && CallsIn(g, calls, P) && CallsIn(g, calls', P)
    requires calls != [] && calls' != [] && !m.marking[calls[0].p] && !m.marking[calls'[0].p] && Drained(m, P)
    requires Drained(MarkAll(g, prot, m, calls), P) && Drained(MarkAll(g, prot, m, calls'), P)
    requires Linked(g, n) && g.part[n] in P
    ensures MarkAll(g, prot, m, calls).color[n] == MarkAll(g, prot, m, calls').color[n]
  {
    MarkingIsExact(g, prot, m, calls, P);
    MarkingIsExact(g, prot, m, calls', P);
  }

  // ---- termination ----

  ghost function Nodes(g: Graph, p: nat): set<Ptr> {
    set n | n in g.linked && Linked(g, n) && g.part[n] == p
  }

  /** A call that stops at its limit has blackened exactly `budget` nodes and left a Gray one. */
  lemma {:induction false} LimitedCallWorks(g: Graph, m: Marks, p: nat, budget: nat)
    requires NoDangling(g) && MarksOk(g, m) && p < |m.gray|
    ensures var r := MarkLoop(g, m, p, budget);
            MarksOk(g, r.0) &&
            (!r.1 ==> |NonBlack(g, r.0, p)| + budget == |NonBlack(g, m, p)| && |NonBlack(g, r.0, p)| > 0)
    decreases |NonBlack(g, m, p)|, |m.gray[p]|
  {
    hide Scan;
    if m.gray[p] != [] {
      PopOk(g, m, p);
      if !GrayTop(g, m, p) {
        LimitedCallWorks(g, Pop(m, p), p, budget);
      } else if budget > 0 {
        ScanOk(g, m, p);
        LimitedCallWorks(g, Scan(g, m, p), p, budget - 1);
      } else {
        var m' := MarkLoop(g, m, p, budget).0;
        assert Top(m, p) in NonBlack(g, m', p);
        assert NonBlack(g, m', p) == NonBlack(g, m, p);
      }
    }
  }

  /** `while !mark(p, k) {}` cut off after `calls` iterations: the state and whether some call returned true. */
  ghost function MarkWhile(g: Graph, prot: set<Ptr>, m: Marks, p: nat, k: nat, calls: nat): (r: (Marks, bool))
    requires NoDangling(g) && ChainsOk(g) && MarksOk(g, m) && p < |m.gray|
    ensures MarksOk(g, r.0)
    decreases calls
  {
    if calls == 0 then (m, false)
    else
      MarkOk(g, prot, m, p, k);
      var r := Mark(g, prot, m, p, k);
      if r.1 then r else MarkWhile(g, prot, r.0, p, k, calls - 1)
  }

  lemma {:induction false} UnfinishedCallsUseUpNodes(g: Graph, prot: set<Ptr>, m: Marks, p: nat, k: nat, calls: nat)
    requires NoDangling(g) && ChainsOk(g) && MarksOk(g, m) && p < |m.gray|
    requires k > 0 && calls > 0 && m.marking[p] && !MarkWhile(g, prot, m, p, k, calls).1
    ensures calls * k < |NonBlack(g, m, p)|
    decreases calls
  {
    hide MarkLoop;
    LimitedCallWorks(g, m, p, k);
    MarkLoopOk(g, m, p, k);
    var m' := MarkLoop(g, m, p, k).0;
    assert Mark(g, prot, m, p, k) == MarkLoop(g, m, p, k);
    if calls > 1 {
      UnfinishedCallsUseUpNodes(g, prot, m', p, k, calls - 1);
      assert calls * k == (calls - 1) * k + k;
    }
  }

  /** max(1, ceil(n / k)) */
  function CallBound(n: nat, k: nat): (c: nat)
    requires k > 0
    ensures c >= 1 && c * k >= n
    ensures if n == 0 then c == 1 else (c - 1) * k < n
  {
    if n == 0 then 1 else (n + k - 1) / k
  }

  /**
   The termination bound: with a positive budget `k` and no mutation, `while !mark(p, k) {}` stops within
   max(1, ceil(N / k)) calls, N being the number of nodes of the partition, from whatever state it starts in.
   */
  lemma MarkWhileTerminates(g: Graph, prot: set<Ptr>, m: Marks, p: nat, k: nat)
    requires NoDangling(g) && ChainsOk(g) && MarksOk(g, m) && p < |m.gray| && k > 0
    ensures MarkWhile(g, prot, m, p, k, CallBound(|Nodes(g, p)|, k)).1
  {
    hide MarkLoop;
    var calls := CallBound(|Nodes(g, p)|, k);
    var m1 := Prepare(g, prot, m, p);
    PrepareOk(g, prot, m, p);
    assert Prepare(g, prot, m1, p) == m1;
    assert Mark(g, prot, m, p, k) == Mark(g, prot, m1, p, k);
    assert MarkWhile(g, prot, m, p, k, calls) == MarkWhile(g, prot, m1, p, k, calls);
    SubsetSize(NonBlack(g, m1, p), Nodes(g, p));
    if !MarkWhile(g, prot, m, p, k, calls).1 {
      UnfinishedCallsUseUpNodes(g, prot, m1, p, k, calls);
      assert false;
    }
  }
}
