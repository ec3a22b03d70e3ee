/** How many calls `while !mark(p, k) {}` takes: exactly, and that the bound for N nodes is met by some heap for every N. */
module Bounds {
  import opened Basics
  import opened Graphs
  import opened Numbers
  import opened Marking
  import opened Tricolor
  import opened Cycles
  import opened Exactness

  /** The nodes of `p` that something protected reaches inside it. */
  ghost function ReachedIn(g: Graph, prot: set<Ptr>, p: nat): set<Ptr> {
    set n | n in Nodes(g, p) && Reach(g, prot, {p}, n)
  }

  // ---- a call blackens no more than its budget, and leaves a Gray node when it stops at it ----

  lemma {:induction false} LoopBlackensAtMost(g: Graph, m: Marks, p: nat, budget: nat)
    requires NoDangling(g) && MarksOk(g, m) && p < |m.gray|
    ensures var r := MarkLoop(g, m, p, budget);
            MarksOk(g, r.0) && |NonBlack(g, m, p)| <= |NonBlack(g, r.0, p)| + budget
    decreases |NonBlack(g, m, p)|, |m.gray[p]|
  {
    hide Scan;
    if m.gray[p] != [] {
      PopOk(g, m, p);
      if !GrayTop(g, m, p) {
        LoopBlackensAtMost(g, Pop(m, p), p, budget);
      } else if budget > 0 {
        ScanOk(g, m, p);
        LoopBlackensAtMost(g, Scan(g, m, p), p, budget - 1);
      } else {
        assert NonBlack(g, MarkLoop(g, m, p, budget).0, p) == NonBlack(g, m, p);
      }
    }
  }

  lemma {:induction false} StoppedAtGray(g: Graph, m: Marks, p: nat, budget: nat)
    requires NoDangling(g) && MarksOk(g, m) && p < |m.gray| && !MarkLoop(g, m, p, budget).1
    ensures var m' := MarkLoop(g, m, p, budget).0;
            MarksOk(g, m') && p < |m'.gray| && m'.gray[p] != [] && GrayTop(g, m', p) && Top(m', p) !in m'.listed
    decreases |NonBlack(g, m, p)|, |m.gray[p]|
  {
    hide Scan;
    PopOk(g, m, p);
    if !GrayTop(g, m, p) {
      StoppedAtGray(g, Pop(m, p), p, budget);
    } else if budget > 0 {
      ScanOk(g, m, p);
      StoppedAtGray(g, Scan(g, m, p), p, budget - 1);
    }
  }

  // ---- the loop ----

  /** Finished: what the calls blackened fits in their budgets. */
  lemma {:induction false} WhileBlackensAtMost(g: Graph, prot: set<Ptr>, m: Marks, p: nat, k: nat, calls: nat)
    requires NoDangling(g) && ChainsOk(g) && MarksOk(g, m) && p < |g.chain| && k > 0 && m.marking[p]
    ensures |NonBlack(g, m, p)| <= |NonBlack(g, MarkWhile(g, prot, m, p, k, calls).0, p)| + calls * k
    decreases calls
  {
    hide MarkLoop;
    if calls > 0 {
      LoopBlackensAtMost(g, m, p, k);
      MarkLoopOk(g, m, p, k);
      var r := MarkLoop(g, m, p, k);
      assert Mark(g, prot, m, p, k) == r;
      assert calls * k == (calls - 1) * k + k && (calls - 1) * k >= 0;
      if !r.1 { WhileBlackensAtMost(g, prot, r.0, p, k, calls - 1); }
    }
  }

  /** Not finished: every call used its whole budget, and a Gray node is left. */
  lemma {:induction false} UnfinishedUsesBudgets(g: Graph, prot: set<Ptr>, m: Marks, p: nat, k: nat, calls: nat)
    requires NoDangling(g) && ChainsOk(g) && MarksOk(g, m) && p < |g.chain| && k > 0 && m.marking[p]
    requires calls > 0 && !MarkWhile(g, prot, m, p, k, calls).1
    ensures var m' := MarkWhile(g, prot, m, p, k, calls).0;
            |NonBlack(g, m', p)| + calls * k == |NonBlack(g, m, p)| && m'.gray[p] != [] && GrayTop(g, m', p)
    decreases calls
  {
    hide MarkLoop, NonBlack, GrayTop;
    LimitedCallWorks(g, m, p, k);
    StoppedAtGray(g, m, p, k);
    MarkLoopOk(g, m, p, k);
    var r := MarkLoop(g, m, p, k);
    assert Mark(g, prot, m, p, k) == r;
    assert calls * k == (calls - 1) * k + k;
    if calls > 1 { UnfinishedUsesBudgets(g, prot, r.0, p, k, calls - 1); }
  }

  /** The loop never leaves soundness or the tri-colour invariant of its partition. */
  lemma {:induction false} WhileStaysSound(g: Graph, prot: set<Ptr>, m: Marks, p: nat, k: nat, calls: nat)
    requires NoDangling(g) && ChainsOk(g) && MarksOk(g, m) && p < |g.chain| && m.marking[p]
    requires Tri(g, prot, m, {p}) && Sound(g, prot, m, {p})
    ensures Sound(g, prot, MarkWhile(g, prot, m, p, k, calls).0, {p})
    decreases calls
  {
    hide Mark, Tri, Sound;
    if calls > 0 {
      MarkOk(g, prot, m, p, k);
      MarkKeeps(g, prot, m, p, k, {p});
      WhileStaysSound(g, prot, Mark(g, prot, m, p, k).0, p, k, calls - 1);
    }
  }

  /** Where a fresh cycle of `p` starts: prepared, nothing Black yet. */
  lemma FreshPrepared(g: Graph, prot: set<Ptr>, m: Marks, p: nat, k: nat, calls: nat)
    requires NoDangling(g) && ChainsOk(g) && MarksOk(g, m) && p < |g.chain| && !m.marking[p] && m.gray[p] == []
    ensures var m1 := Prepare(g, prot, m, p);
            && MarksOk(g, m1) && m1.marking[p] && Tri(g, prot, m1, {p}) && Sound(g, prot, m1, {p})
            && NonBlack(g, m1, p) == Nodes(g, p)
            && (calls > 0 ==> MarkWhile(g, prot, m, p, k, calls) == MarkWhile(g, prot, m1, p, k, calls))
  {
    PrepareFresh(g, prot, m, p, {p});
    PrepareOk(g, prot, m, p);
    var m1 := Prepare(g, prot, m, p);
    assert Mark(g, prot, m, p, k) == Mark(g, prot, m1, p, k);
    hide Reach, Mark, MarkLoop;
  }

  lemma FinishedEnough(g: Graph, prot: set<Ptr>, m: Marks, p: nat, k: nat, calls: nat)
    requires NoDangling(g) && ChainsOk(g) && MarksOk(g, m) && p < |g.chain| && k > 0 && !m.marking[p] && m.gray[p] == []
    requires MarkWhile(g, prot, m, p, k, calls).1
    ensures |ReachedIn(g, prot, p)| <= calls * k
  {
    hide MarkWhile, Prepare, Reach, Tri, Sound;
    assert calls > 0 by { NoneDone(g, prot, m, p, k); }
    FreshPrepared(g, prot, m, p, k, calls);
    WhileFromAnyState(g, prot, m, p, k, calls);
    WhileBlackensAtMost(g, prot, Prepare(g, prot, m, p), p, k, calls);
    var m' := MarkWhile(g, prot, m, p, k, calls).0;
    BlackIsReached(g, prot, m', p);
  }

  lemma NoneDone(g: Graph, prot: set<Ptr>, m: Marks, p: nat, k: nat)
    requires NoDangling(g) && ChainsOk(g) && MarksOk(g, m) && p < |m.gray|
    ensures !MarkWhile(g, prot, m, p, k, 0).1
  {
  }

  lemma BlackIsReached(g: Graph, prot: set<Ptr>, m: Marks, p: nat)
    requires MarksOk(g, m) && p < |g.chain| && Exact(g, prot, m, {p})
    ensures |NonBlack(g, m, p)| + |ReachedIn(g, prot, p)| == |Nodes(g, p)|
  {
    hide Reach;
    var left, reached := NonBlack(g, m, p), ReachedIn(g, prot, p);
    forall n ensures n in left <==> n in Nodes(g, p) && n !in reached {
      if n in Nodes(g, p) { assert m.color[n] == if Reach(g, prot, {p}, n) then Black else White; }
    }
    assert left + reached == Nodes(g, p) && left !! reached;
  }

  lemma UnfinishedTooFew(g: Graph, prot: set<Ptr>, m: Marks, p: nat, k: nat, calls: nat)
    requires NoDangling(g) && ChainsOk(g) && MarksOk(g, m) && p < |g.chain| && k > 0 && !m.marking[p] && m.gray[p] == []
    requires calls > 0 && !MarkWhile(g, prot, m, p, k, calls).1
    ensures calls * k < |ReachedIn(g, prot, p)|
  {
    hide MarkWhile, Prepare, Reach, Tri;
    FreshPrepared(g, prot, m, p, k, calls);
    UnfinishedUsesBudgets(g, prot, Prepare(g, prot, m, p), p, k, calls);
    WhileStaysSound(g, prot, Prepare(g, prot, m, p), p, k, calls);
    MoreReached(g, prot, MarkWhile(g, prot, m, p, k, calls).0, p);
  }

  /** With a Gray node left, more is reached than is Black. */
  lemma MoreReached(g: Graph, prot: set<Ptr>, m: Marks, p: nat)
    requires MarksOk(g, m) && p < |g.chain| && Sound(g, prot, m, {p}) && m.gray[p] != [] && GrayTop(g, m, p)
    ensures |Nodes(g, p)| < |NonBlack(g, m, p)| + |ReachedIn(g, prot, p)|
  {
    hide Reach;
    PopOk(g, m, p);
    var n, left, reached := Top(m, p), NonBlack(g, m, p), ReachedIn(g, prot, p);
    assert n in left && n in reached && left <= Nodes(g, p);
    var black := Nodes(g, p) - left;
    assert black <= reached - {n};
    SubsetSize(black, reached - {n});
    assert |black| + |left| == |Nodes(g, p)| by { assert black + left == Nodes(g, p) && black !! left; }
  }

  /**
   The exact number of calls: from a fresh start `while !mark(p, k) {}` has ended after `calls` calls iff that is at least
   max(1, ceil(R / k)), R being the number of nodes reached inside the partition.
   */
  lemma CallsExactly(g: Graph, prot: set<Ptr>, m: Marks, p: nat, k: nat, calls: nat)
    requires NoDangling(g) && ChainsOk(g) && MarksOk(g, m) && p < |g.chain| && k > 0 && !m.marking[p] && m.gray[p] == []
    ensures MarkWhile(g, prot, m, p, k, calls).1 <==> calls >= CallBound(|ReachedIn(g, prot, p)|, k)
  {
    hide MarkWhile, ReachedIn, CallBound;
    var c := CallBound(|ReachedIn(g, prot, p)|, k);
    if MarkWhile(g, prot, m, p, k, calls).1 {
      FinishedEnough(g, prot, m, p, k, calls);
      NoneDone(g, prot, m, p, k);
      if calls < c { MulMonotone(calls, c - 1, k); }
    } else if calls >= c {
      MulMonotone(c, calls, k);
      UnfinishedTooFew(g, prot, m, p, k, calls);
      assert false;
    }
  }

  // ---- the bound is met ----

  /** `n` nodes in one partition, without edges. */
  ghost function Scattered(n: nat): Graph {
    Graph(map x | x in Upto(n) :: [], map x | x in Upto(n) :: 0, map x | x in Upto(n) :: 0, Upto(n), [seq(n, i => i)])
  }

  ghost function AllWhite(n: nat): Marks {
    Marks(map x | x in Upto(n) :: White, {}, [[]], [false])
  }

  lemma ScatteredOk(n: nat)
    ensures var g := Scattered(n);
            NoDangling(g) && ChainsOk(g) && MarksOk(g, AllWhite(n)) && |g.chain| == 1 && Nodes(g, 0) == Upto(n)
            && |AllWhite(n).marking| == |AllWhite(n).gray| == 1
  {
    hide ChainsOk;
    ScatteredChains(n);
  }

  lemma ScatteredChains(n: nat)
    ensures ChainsOk(Scattered(n))
  {
    var g := Scattered(n);
    var c := g.chain[0];
    assert |c| == n && forall x :: 0 <= x < n ==> c[x] == x;
    forall x | x in g.linked ensures x in c {
      assert c[x] == x;
    }
    forall p | 0 <= p < |g.chain| ensures g.chain[p] == c {
    }
  }

  /** For every size and every budget there is a heap on which one call fewer than the bound is not enough. */
  lemma BoundIsMet(n: nat, k: nat)
    requires k > 0
    ensures var g, m, prot := Scattered(n), AllWhite(n), Upto(n);
            && NoDangling(g) && ChainsOk(g) && MarksOk(g, m) && |Nodes(g, 0)| == n
            && MarkWhile(g, prot, m, 0, k, CallBound(n, k)).1
            && !MarkWhile(g, prot, m, 0, k, CallBound(n, k) - 1).1
  {
    hide MarkWhile, ReachedIn, Reach, ChainsOk, NoDangling, MarksOk, Nodes, CallBound, Scattered, AllWhite;
    ScatteredOk(n);
    ScatteredReached(n);
    UptoSize(n);
    var g, m, prot := Scattered(n), AllWhite(n), Upto(n);
    CallsExactly(g, prot, m, 0, k, CallBound(n, k));
    CallsExactly(g, prot, m, 0, k, CallBound(n, k) - 1);
  }

  lemma ScatteredReached(n: nat)
    ensures ReachedIn(Scattered(n), Upto(n), 0) == Upto(n)
    ensures AllWhite(n).marking == [false] && AllWhite(n).gray == [[]]
  {
    hide Reach;
    forall x | x in Upto(n) ensures Reach(Scattered(n), Upto(n), {0}, x) {
      ReachRoot(Scattered(n), Upto(n), {0}, x);
    }
  }
}
