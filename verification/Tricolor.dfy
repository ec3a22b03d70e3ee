/**
 What marking preserves and what a completed marking means. Everything is stated for an arbitrary set
 `P` of partitions: one partition gives the partition-local collector, all of them the whole heap.
 */
module Tricolor {
  import opened Basics
  import opened Graphs
  import opened Marking

  // ---- one step ----

  lemma ScanTri(g: Graph, prot: set<Ptr>, m: Marks, p: nat, P: set<nat>)
    requires NoDangling(g) && MarksOk(g, m) && p < |m.gray| && m.gray[p] != [] && GrayTop(g, m, p)
    requires Tri(g, prot, m, P)
    ensures MarksOk(g, Scan(g, m, p)) && Tri(g, prot, Scan(g, m, p), P)
  {
    ScanOk(g, m, p);
    var n := Top(m, p);
    var ks := ScanOrder(g, n);
    var m1 := Pop(m, p);
    var m' := Scan(g, m, p);
    PopOk(g, m, p);
    ScanOrderLinked(g, n);
    forall x | Linked(g, x) && g.part[x] in P && m'.color[x] == Gray ensures x in m'.gray[g.part[x]] {
      var q := g.part[x];
      if x in ks && m.color[x] != Black {
        assert x in Pushed(g, m.color, ks, q);
      } else {
        StillStacked(m, p, q, x);
      }
    }
    forall x, k | Edge(g, x, k) && Linked(g, k) && g.part[x] in P && g.part[k] in P && m'.color[x] == Black
      ensures m'.color[k] != White
    {
      if x == n { assert k in ks; }
    }
  }

  /** Popping `p`'s top removes no other node from any stack. */
  lemma StillStacked(m: Marks, p: nat, q: nat, x: Ptr)
    requires p < |m.gray| && m.gray[p] != [] && q < |m.gray| && x in m.gray[q] && x != Top(m, p)
    ensures x in Pop(m, p).gray[q]
  {
    if p == q {
      assert m.gray[p] == Pop(m, p).gray[p] + [Top(m, p)];
    }
  }

  lemma PopTri(g: Graph, prot: set<Ptr>, m: Marks, p: nat, P: set<nat>)
    requires MarksOk(g, m) && p < |m.gray| && m.gray[p] != [] && !GrayTop(g, m, p)
    requires Tri(g, prot, m, P)
    ensures MarksOk(g, Pop(m, p)) && Tri(g, prot, Pop(m, p), P)
  {
    PopOk(g, m, p);
    forall x | Linked(g, x) && g.part[x] in P && m.color[x] == Gray ensures x in Pop(m, p).gray[g.part[x]] {
      StillStacked(m, p, g.part[x], x);
    }
  }

  lemma ScanSound(g: Graph, prot: set<Ptr>, m: Marks, p: nat, P: set<nat>)
    requires NoDangling(g) && MarksOk(g, m) && p < |m.gray| && m.gray[p] != [] && GrayTop(g, m, p)
    requires p in P && Sound(g, prot, m, P)
    ensures MarksOk(g, Scan(g, m, p)) && Sound(g, prot, Scan(g, m, p), P)
  {
    ScanOk(g, m, p);
    var n := Top(m, p);
    var m' := Scan(g, m, p);
    PopOk(g, m, p);
    ScanOrderLinked(g, n);
    forall x | Linked(g, x) && g.part[x] in P && m'.color[x] != White ensures Reach(g, prot, P, x) {
      if m.color[x] == White {
        assert m.color[n] != White;
        ReachStep(g, prot, P, n, x);
      }
    }
  }

  // ---- a whole call ----

  lemma {:induction false} MarkLoopTri(g: Graph, prot: set<Ptr>, m: Marks, p: nat, budget: nat, P: set<nat>)
    requires NoDangling(g) && MarksOk(g, m) && p < |m.gray| && Tri(g, prot, m, P)
    ensures var r := MarkLoop(g, m, p, budget);
            MarksOk(g, r.0) && Tri(g, prot, r.0, P)
    decreases |NonBlack(g, m, p)|, |m.gray[p]|
  {
    hide Scan;
    if m.gray[p] != [] {
      PopOk(g, m, p);
      if !GrayTop(g, m, p) {
        PopTri(g, prot, m, p, P);
        MarkLoopTri(g, prot, Pop(m, p), p, budget, P);
      } else if budget > 0 {
        ScanOk(g, m, p);
        ScanTri(g, prot, m, p, P);
        MarkLoopTri(g, prot, Scan(g, m, p), p, budget - 1, P);
      }
    }
  }

  lemma {:induction false} MarkLoopSound(g: Graph, prot: set<Ptr>, m: Marks, p: nat, budget: nat, P: set<nat>)
    requires NoDangling(g) && MarksOk(g, m) && p < |m.gray| && p in P && Sound(g, prot, m, P)
    ensures var r := MarkLoop(g, m, p, budget);
            MarksOk(g, r.0) && Sound(g, prot, r.0, P)
    decreases |NonBlack(g, m, p)|, |m.gray[p]|
  {
    hide Scan;
    if m.gray[p] != [] {
      PopOk(g, m, p);
      if !GrayTop(g, m, p) {
        MarkLoopSound(g, prot, Pop(m, p), p, budget, P);
      } else if budget > 0 {
        ScanOk(g, m, p);
        ScanSound(g, prot, m, p, P);
        MarkLoopSound(g, prot, Scan(g, m, p), p, budget - 1, P);
      }
    }
  }

  /** Nothing that happens to partition `q`: same stack, same colours, same flags. */
  ghost predicate SameIn(g: Graph, m: Marks, m': Marks, q: nat)
    requires MarksOk(g, m) && MarksOk(g, m') && q < |g.chain|
  {
    && m'.gray[q] == m.gray[q] && m'.marking[q] == m.marking[q]
    && (forall n {:trigger m'.color[n]} :: Linked(g, n) && g.part[n] == q ==>
          m'.color[n] == m.color[n] && (n in m'.listed <==> n in m.listed))
  }

  /** Marking `p` does not touch a partition that nothing outside points into. */
  lemma {:induction false} MarkLoopElsewhere(g: Graph, m: Marks, p: nat, budget: nat, q: nat)
    requires NoDangling(g) && MarksOk(g, m) && p < |m.gray| && q < |m.gray| && p != q && NoInbound(g, q)
    ensures var r := MarkLoop(g, m, p, budget);
            MarksOk(g, r.0) && SameIn(g, m, r.0, q)
    decreases |NonBlack(g, m, p)|, |m.gray[p]|
  {
    hide Scan;
    if m.gray[p] != [] {
      PopOk(g, m, p);
      if !GrayTop(g, m, p) {
        MarkLoopElsewhere(g, Pop(m, p), p, budget, q);
      } else if budget > 0 {
        ScanOk(g, m, p);
        ScanElsewhere(g, m, p, q);
        MarkLoopElsewhere(g, Scan(g, m, p), p, budget - 1, q);
      }
    }
  }

  lemma {:induction false} PushedNowhere(g: Graph, color: map<Ptr, Color>, ks: seq<Ptr>, q: nat)
    requires forall k :: k in ks ==> k in color && k in g.part && g.part[k] != q
    ensures Pushed(g, color, ks, q) == []
  {
    if ks != [] {
      assert ks[|ks| - 1] in ks;
      PushedNowhere(g, color, ks[..|ks| - 1], q);
    }
  }

  lemma ScanElsewhere(g: Graph, m: Marks, p: nat, q: nat)
    requires NoDangling(g) && MarksOk(g, m) && p < |m.gray| && m.gray[p] != [] && GrayTop(g, m, p)
    requires q < |m.gray| && p != q && NoInbound(g, q)
    ensures MarksOk(g, Scan(g, m, p)) && SameIn(g, m, Scan(g, m, p), q)
  {
    ScanOk(g, m, p);
    PopOk(g, m, p);
    var n := Top(m, p);
    ScanOrderLinked(g, n);
    PushedNowhere(g, m.color, ScanOrder(g, n), q);
  }

  // ---- starting a cycle ----

  /** From drained stacks, `mark_prepare` starts a cycle whose shaded nodes are exactly the roots and locals. */
  lemma PrepareFresh(g: Graph, prot: set<Ptr>, m: Marks, p: nat, P: set<nat>)
    requires MarksOk(g, m) && ChainsOk(g) && p < |m.marking| && !m.marking[p] && Drained(m, P)
    ensures var m' := Prepare(g, prot, m, p);
            MarksOk(g, m') && Tri(g, prot, m', P) && Sound(g, prot, m', P)
  {
    PrepareOk(g, prot, m, p);
    var m' := Prepare(g, prot, m, p);
    forall n | Linked(g, n) && g.part[n] in P && m'.color[n] != White ensures Reach(g, prot, P, n) {
      ReachRoot(g, prot, P, n);
    }
  }

  /** What a partition nothing points into satisfies between any two steps of a run. */
  ghost predicate Safe(g: Graph, prot: set<Ptr>, m: Marks, q: nat)
    requires MarksOk(g, m) && q < |g.chain|
  {
    if m.marking[q] then Tri(g, prot, m, {q}) else m.gray[q] == []
  }

  /** Re-seeding in the middle of a cycle, pending grays or not, keeps one partition's invariant. */
  lemma PrepareSafe(g: Graph, prot: set<Ptr>, m: Marks, p: nat, q: nat)
    requires MarksOk(g, m) && ChainsOk(g) && q < |g.chain| && Safe(g, prot, m, q)
    ensures MarksOk(g, Prepare(g, prot, m, p)) && Safe(g, prot, Prepare(g, prot, m, p), q)
  {
    PrepareOk(g, prot, m, p);
    var m' := Prepare(g, prot, m, p);
    if p < |m.marking| && !m.marking[p] {
      forall n | Linked(g, n) && g.part[n] in {q} && m'.color[n] == Gray ensures n in m'.gray[g.part[n]] {
        assert n in g.chain[q];
        if m.gray[q] != [] && n in prot && n !in m.listed { assert n in Keep(g.chain[q], prot - m.listed); }
      }
    }
  }

  // ---- completed marking ----

  /** The colours of `P` are exactly reachability inside `P`, and no Gray is left. */
  ghost predicate Exact(g: Graph, prot: set<Ptr>, m: Marks, P: set<nat>)
    requires MarksOk(g, m)
  {
    forall n {:trigger m.color[n]} :: Linked(g, n) && g.part[n] in P ==>
      m.color[n] == if Reach(g, prot, P, n) then Black else White
  }

  lemma DrainedIsExact(g: Graph, prot: set<Ptr>, m: Marks, P: set<nat>)
    requires MarksOk(g, m) && NoDangling(g)
    requires Tri(g, prot, m, P) && Sound(g, prot, m, P) && Drained(m, P)
    ensures Exact(g, prot, m, P)
  {
    forall n | Linked(g, n) && g.part[n] in P
      ensures m.color[n] == if Reach(g, prot, P, n) then Black else White
    {
      if Reach(g, prot, P, n) {
        ReachedIsBlack(g, prot, m, P, n);
      } else {
        assert m.color[n] == White;
      }
    }
  }

  /** The half that needs no soundness: once the stacks are empty every reachable node is Black. */
  lemma ReachedIsBlack(g: Graph, prot: set<Ptr>, m: Marks, P: set<nat>, n: Ptr)
    requires MarksOk(g, m) && Tri(g, prot, m, P) && Drained(m, P) && Reach(g, prot, P, n)
    ensures Linked(g, n) && g.part[n] in P && m.color[n] == Black
  {
    hide Reach;
    var S := set x | x in m.color && m.color[x] == Black;
    forall x | Linked(g, x) && g.part[x] in P && m.color[x] != White ensures x in S {
      assert m.gray[g.part[x]] == [];
    }
    forall a, b | Edge(g, a, b) && Linked(g, b) && g.part[a] in P && g.part[b] in P && a in S ensures b in S {
      assert m.color[b] != White;
    }
    ReachLeast(g, prot, P, S, n);
  }
}
