/**
 Draining the whole heap: a schedule of `mark` calls that keeps choosing a partition with pending grays, with a
 positive budget, is bounded in length, and when it can go no further every partition is drained.
 */
module Schedules {
  import opened Basics
  import opened Graphs
  import opened Marking
  import opened Numbers
  import opened Tricolor
  import opened Cycles
  import opened Sweep

  ghost function AllNonBlack(g: Graph, m: Marks): set<Ptr> {
    set n | n in m.color && Linked(g, n) && m.color[n] != Black
  }

  /** The partitions with pending grays. */
  ghost function Undrained(m: Marks): (qs: set<nat>)
    ensures forall q :: q in qs <==> 0 <= q < |m.gray| && m.gray[q] != []
  {
    set q: nat | q < |m.gray| && m.gray[q] != []
  }

  lemma UndrainedFew(m: Marks)
    ensures |Undrained(m)| <= |m.gray|
  {
    UptoSize(|m.gray|);
    SubsetSize(Undrained(m), Upto(|m.gray|));
  }

  // ---- one call ----

  /** A call only blackens; if it blackens nothing it has at least emptied its own stack and left the others alone. */
  ghost predicate Shrunk(g: Graph, m: Marks, m': Marks, p: nat)
    requires p < |m.gray| == |m'.gray|
  {
    && AllNonBlack(g, m') <= AllNonBlack(g, m)
    && (AllNonBlack(g, m') == AllNonBlack(g, m) ==>
          m'.gray[p] == [] && forall q :: 0 <= q < |m.gray| && q != p ==> m'.gray[q] == m.gray[q])
  }

  lemma ScanBlackens(g: Graph, m: Marks, p: nat)
    requires NoDangling(g) && MarksOk(g, m) && p < |m.gray| && m.gray[p] != [] && GrayTop(g, m, p)
    ensures MarksOk(g, Scan(g, m, p)) && AllNonBlack(g, Scan(g, m, p)) < AllNonBlack(g, m)
  {
    ScanOk(g, m, p);
    PopOk(g, m, p);
    ScanOrderLinked(g, Top(m, p));
    assert Top(m, p) in AllNonBlack(g, m) && Top(m, p) !in AllNonBlack(g, Scan(g, m, p));
  }

  lemma {:induction false} LoopShrinks(g: Graph, m: Marks, p: nat, budget: nat)
    requires NoDangling(g) && MarksOk(g, m) && p < |m.gray|
    ensures var r := MarkLoop(g, m, p, budget);
            |r.0.gray| == |m.gray| && AllNonBlack(g, r.0) <= AllNonBlack(g, m) && (budget > 0 ==> Shrunk(g, m, r.0, p))
    decreases |NonBlack(g, m, p)|, |m.gray[p]|
  {
    hide Scan;
    if m.gray[p] != [] {
      PopOk(g, m, p);
      if !GrayTop(g, m, p) {
        assert AllNonBlack(g, Pop(m, p)) == AllNonBlack(g, m);
        LoopShrinks(g, Pop(m, p), p, budget);
      } else if budget > 0 {
        ScanOk(g, m, p);
        ScanBlackens(g, m, p);
        LoopShrinks(g, Scan(g, m, p), p, budget - 1);
      }
    }
  }

  // ---- schedules ----

  /** Each call is on a partition with pending grays and may do at least one step. */
  ghost predicate Diligent(g: Graph, prot: set<Ptr>, m: Marks, calls: seq<Call>)
    requires NoDangling(g) && ChainsOk(g) && MarksOk(g, m)
    decreases |calls|
  {
    calls == [] ||
    (var c := calls[0];
     c.p in Undrained(m) && c.budget > 0 &&
     (MarkOk(g, prot, m, c.p, c.budget);
      Diligent(g, prot, Mark(g, prot, m, c.p, c.budget).0, calls[1..])))
  }

  /** What is left to do: non-Black nodes, each worth a round over the partitions, and partitions with pending grays. */
  ghost function Work(g: Graph, m: Marks): nat
    requires MarksOk(g, m)
  {
    |AllNonBlack(g, m)| * (|g.chain| + 1) + |Undrained(m)|
  }

  /** With N nodes and P partitions. */
  function ScheduleBound(nodes: nat, partitions: nat): nat {
    nodes * (partitions + 1) + partitions
  }

  lemma WorkBound(g: Graph, m: Marks)
    requires MarksOk(g, m)
    ensures Work(g, m) <= ScheduleBound(|g.linked|, |g.chain|)
  {
    SubsetSize(AllNonBlack(g, m), g.linked);
    UndrainedFew(m);
    MulMonotone(|AllNonBlack(g, m)|, |g.linked|, |g.chain| + 1);
  }

  lemma CallDoesWork(g: Graph, prot: set<Ptr>, m: Marks, c: Call)
    requires NoDangling(g) && ChainsOk(g) && MarksOk(g, m) && AllMarking(m) && c.p in Undrained(m) && c.budget > 0
    ensures var m' := Mark(g, prot, m, c.p, c.budget).0;
            MarksOk(g, m') && AllMarking(m') && Work(g, m') < Work(g, m)
  {
    MarkLoopOk(g, m, c.p, c.budget);
    LoopShrinks(g, m, c.p, c.budget);
    hide MarkLoop, MarksOk, ChainsOk, NoDangling;
    var m' := MarkLoop(g, m, c.p, c.budget).0;
    assert Mark(g, prot, m, c.p, c.budget).0 == m';
    ShrunkIsLess(g, m, m', c.p);
  }

  lemma ShrunkIsLess(g: Graph, m: Marks, m': Marks, p: nat)
    requires MarksOk(g, m) && MarksOk(g, m') && p in Undrained(m) && Shrunk(g, m, m', p)
    ensures Work(g, m') < Work(g, m)
  {
    var a, a', k := AllNonBlack(g, m), AllNonBlack(g, m'), |g.chain| + 1;
    SubsetSize(a', a);
    if a' == a {
      assert Undrained(m') <= Undrained(m) - {p};
      SubsetSize(Undrained(m'), Undrained(m) - {p});
    } else {
      UndrainedFew(m');
      MulMonotone(|a'| + 1, |a|, k);
      assert (|a'| + 1) * k == |a'| * k + k;
    }
  }

  /** A diligent schedule is never longer than the work there is, and one of that length leaves no grays anywhere. */
  lemma {:induction false} DiligentIsBounded(g: Graph, prot: set<Ptr>, m: Marks, calls: seq<Call>)
    requires NoDangling(g) && ChainsOk(g) && MarksOk(g, m) && AllMarking(m) && Diligent(g, prot, m, calls)
    ensures CallsIn(g, calls, Everywhere(g))
    ensures |calls| <= Work(g, m) <= ScheduleBound(|g.linked|, |g.chain|)
    ensures |calls| == Work(g, m) ==> Drained(MarkAll(g, prot, m, calls), Everywhere(g))
    decreases |calls|
  {
    WorkBound(g, m);
    if calls == [] {
      if Work(g, m) == 0 { NoWorkLeft(g, m); }
    } else {
      var c := calls[0];
      assert c.p < |g.chain|;
      CallDoesWork(g, prot, m, c);
      hide Mark, Work, ScheduleBound, NoDangling, ChainsOk, MarksOk;
      DiligentIsBounded(g, prot, Mark(g, prot, m, c.p, c.budget).0, calls[1..]);
      assert forall x :: x in calls ==> x == c || x in calls[1..];
    }
  }

  lemma NoWorkLeft(g: Graph, m: Marks)
    requires MarksOk(g, m) && Work(g, m) == 0
    ensures Drained(m, Everywhere(g))
  {
    assert |AllNonBlack(g, m)| * (|g.chain| + 1) >= 0;
    assert Undrained(m) == {};
    forall p | p in Everywhere(g) && p < |m.gray| ensures m.gray[p] == [] {
      assert p !in Undrained(m);
    }
  }

  /** As long as a stack is not empty a diligent schedule can go on: with any positive budget it drains the heap. */
  lemma {:induction false} DrainingSchedule(g: Graph, prot: set<Ptr>, m: Marks, k: nat) returns (calls: seq<Call>)
    requires NoDangling(g) && ChainsOk(g) && MarksOk(g, m) && AllMarking(m) && k > 0
    ensures Diligent(g, prot, m, calls) && CallsIn(g, calls, Everywhere(g))
    ensures Drained(MarkAll(g, prot, m, calls), Everywhere(g))
    ensures forall c :: c in calls ==> c.budget == k
    decreases Work(g, m)
  {
    hide Mark, Work;
    if Undrained(m) == {} {
      calls := [];
      forall p | p in Everywhere(g) && p < |m.gray| ensures m.gray[p] == [] {
        assert p !in Undrained(m);
      }
    } else {
      var p :| p in Undrained(m);
      var c := Call(p, k);
      CallDoesWork(g, prot, m, c);
      var rest := DrainingSchedule(g, prot, Mark(g, prot, m, p, k).0, k);
      calls := [c] + rest;
      assert calls[1..] == rest;
    }
  }

  /**
   The full cycle is always within reach: from drained stacks and a partition that is not marking, at most one call
   more than the bound, each with the same positive budget, drains every stack; sweeping every partition then leaves
   exactly the reachable nodes.
   */
  lemma FullCycleWithinBound(g: Graph, prot: set<Ptr>, m: Marks, p: nat, k: nat, ps: seq<nat>) returns (calls: seq<Call>)
    requires NoDangling(g) && ChainsOk(g) && MarksOk(g, m) && p < |g.chain| && k > 0
    requires !m.marking[p] && Drained(m, Everywhere(g))
    requires AllOnce(g, ps)
    ensures CallsIn(g, calls, Everywhere(g)) && 1 <= |calls| <= ScheduleBound(|g.linked|, |g.chain|) + 1
    ensures forall c :: c in calls ==> c.budget == k
    ensures var g' := UnlinkEach(g, prot, MarkAll(g, prot, m, calls), ps).0;
            && (forall n :: Linked(g', n) <==> Linked(g, n) && Reach(g, prot, Everywhere(g), n))
            && NoDangling(g')
  {
    MarkOk(g, prot, m, p, k);
    PrepareOk(g, prot, m, p);
    MarkLoopOk(g, Prepare(g, prot, m, p), p, k);
    var m1 := Mark(g, prot, m, p, k).0;
    assert AllMarking(m1);
    hide Mark, NoDangling, ChainsOk, MarksOk, Diligent, ScheduleBound, Reach, UnlinkEach;
    var rest := DrainingSchedule(g, prot, m1, k);
    DiligentIsBounded(g, prot, m1, rest);
    calls := [Call(p, k)] + rest;
    assert calls[1..] == rest && calls[0] == Call(p, k);
    FullCycleKeepsExactlyReachable(g, prot, m, calls, ps);
  }
}
