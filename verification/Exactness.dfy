/**
 What a marking computes from any state it may start in, fresh or not, and so exactly when a completed
 marking is exact. As in `Tricolor`, `P` is an arbitrary set of partitions.
 */
module Exactness {
  import opened Basics
  import opened Graphs
  import opened Marking
  import opened Tricolor
  import opened Cycles
  import opened Sweep

  // ---- the work a state holds ----

  ghost function Blacks(m: Marks): set<Ptr> {
    set n | n in m.color && m.color[n] == Black
  }

  /** Gray nodes that are on their partition's stack. */
  ghost function Stacked(g: Graph, m: Marks): set<Ptr> {
    set n | n in m.color && m.color[n] == Gray && Waiting(g, m, n)
  }

  ghost predicate Waiting(g: Graph, m: Marks, n: Ptr) {
    n in g.part && g.part[n] < |m.gray| && n in m.gray[g.part[n]]
  }

  /** The graph without the edges of nodes that are Black already: no scan will follow them. */
  ghost function Cut(g: Graph, done: set<Ptr>): Graph {
    g.(kids := map n | n in g.kids :: if n in done then [] else g.kids[n])
  }

  /** `n` is reached inside `P` from a stacked node without passing through a node that was Black from the start. */
  ghost predicate Due(g: Graph, m: Marks, P: set<nat>, n: Ptr) {
    Reach(Cut(g, Blacks(m)), Stacked(g, m), P, n)
  }

  /** Black, or Gray and waiting on its stack. */
  ghost predicate Handled(g: Graph, m: Marks, n: Ptr) {
    n in m.color && (m.color[n] == Black || (m.color[n] == Gray && Waiting(g, m, n)))
  }

  // ---- the invariant of marking from `m0` ----

  /** Nothing due is lost ... */
  ghost predicate NothingLost(g: Graph, m0: Marks, m: Marks, P: set<nat>) {
    && Blacks(m0) <= Blacks(m)
    && (forall n {:trigger n in Stacked(g, m0)} :: Linked(g, n) && g.part[n] in P && n in Stacked(g, m0) ==> Handled(g, m, n))
    && (forall n, k {:trigger Edge(g, n, k)} :: Edge(g, n, k) && Linked(g, k) && g.part[n] in P && g.part[k] in P ==>
          n in Blacks(m) && n !in Blacks(m0) ==> Handled(g, m, k))
  }

  /** ... and nothing else is touched. */
  ghost predicate OnlyDue(g: Graph, m0: Marks, m: Marks, P: set<nat>) {
    forall n {:trigger m.color[n]} :: Linked(g, n) && g.part[n] in P && n in m.color && n in m0.color ==>
      && (m.color[n] != m0.color[n] ==> Due(g, m0, P, n))
      && (m.color[n] == Gray && Waiting(g, m, n) ==> Due(g, m0, P, n))
  }

  lemma CarriedStart(g: Graph, m: Marks, P: set<nat>)
    requires MarksOk(g, m)
    ensures NothingLost(g, m, m, P) && OnlyDue(g, m, m, P)
  {
    forall n | Linked(g, n) && g.part[n] in P && m.color[n] == Gray && Waiting(g, m, n) ensures Due(g, m, P, n) {
      ReachRoot(Cut(g, Blacks(m)), Stacked(g, m), P, n);
    }
  }

  lemma CarriedPop(g: Graph, m0: Marks, m: Marks, p: nat, P: set<nat>)
    requires MarksOk(g, m0) && MarksOk(g, m) && p < |m.gray| && m.gray[p] != [] && !GrayTop(g, m, p)
    requires NothingLost(g, m0, m, P) && OnlyDue(g, m0, m, P)
    ensures MarksOk(g, Pop(m, p)) && NothingLost(g, m0, Pop(m, p), P) && OnlyDue(g, m0, Pop(m, p), P)
  {
    hide Due;
    PopOk(g, m, p);
    var m' := Pop(m, p);
    forall n | Handled(g, m, n) && Linked(g, n) ensures Handled(g, m', n) {
      if m.color[n] == Gray { StillStacked(m, p, g.part[n], n); }
    }
    forall n | Waiting(g, m', n) ensures Waiting(g, m, n) {
      PoppedWaits(g, m, p, n);
    }
  }

  lemma PoppedWaits(g: Graph, m: Marks, p: nat, n: Ptr)
    requires p < |m.gray| && m.gray[p] != [] && Waiting(g, Pop(m, p), n)
    ensures Waiting(g, m, n)
  {
  }

  lemma CarriedScan(g: Graph, m0: Marks, m: Marks, p: nat, P: set<nat>)
    requires NoDangling(g) && MarksOk(g, m0) && MarksOk(g, m)
    requires p in P && p < |m.gray| && m.gray[p] != [] && GrayTop(g, m, p)
    requires NothingLost(g, m0, m, P) && OnlyDue(g, m0, m, P)
    ensures MarksOk(g, Scan(g, m, p)) && NothingLost(g, m0, Scan(g, m, p), P) && OnlyDue(g, m0, Scan(g, m, p), P)
  {
    hide Due;
    ScanOk(g, m, p);
    PopOk(g, m, p);
    var n, m' := Top(m, p), Scan(g, m, p);
    ScanOrderLinked(g, n);
    forall x | x in m.color ensures x in m'.color && ScannedAt(g, m, p, x, m'.color[x]) {
      ScannedColor(g, m, p, x);
    }
    forall x | Linked(g, x) && Handled(g, m, x) ensures Handled(g, m', x) {
      ScanKeepsHandled(g, m, p, x);
    }
    forall k | k in ScanOrder(g, n) ensures Handled(g, m', k) {
      ScanHandlesChild(g, m, p, k);
    }
    ScanIsDue(g, m0, m, p, P);
  }

  /** The colour a scan gives node `x`. */
  ghost predicate ScannedAt(g: Graph, m: Marks, p: nat, x: Ptr, c: Color)
    requires p < |m.gray| && m.gray[p] != [] && Top(m, p) in g.kids && x in m.color
  {
    c == if x == Top(m, p) then Black
         else if x in ScanOrder(g, Top(m, p)) && m.color[x] != Black then Gray
         else m.color[x]
  }

  lemma ScanKeepsHandled(g: Graph, m: Marks, p: nat, x: Ptr)
    requires NoDangling(g) && MarksOk(g, m) && p < |m.gray| && m.gray[p] != [] && GrayTop(g, m, p)
    requires Linked(g, x) && Handled(g, m, x)
    ensures Handled(g, Scan(g, m, p), x)
  {
    PopOk(g, m, p);
    ScanOrderLinked(g, Top(m, p));
    if m.color[x] == Gray && x != Top(m, p) { StillStacked(m, p, g.part[x], x); }
  }

  lemma ScanHandlesChild(g: Graph, m: Marks, p: nat, k: Ptr)
    requires NoDangling(g) && MarksOk(g, m) && p < |m.gray| && m.gray[p] != [] && GrayTop(g, m, p)
    requires Linked(g, Top(m, p)) && Top(m, p) in g.kids && k in ScanOrder(g, Top(m, p))
    ensures Handled(g, Scan(g, m, p), k)
  {
    PopOk(g, m, p);
    ScanOrderLinked(g, Top(m, p));
    assert Edge(g, Top(m, p), k) && Linked(g, k);
    if m.color[k] != Black {
      assert k in Pushed(g, m.color, ScanOrder(g, Top(m, p)), g.part[k]);
    }
  }

  lemma ScanIsDue(g: Graph, m0: Marks, m: Marks, p: nat, P: set<nat>)
    requires NoDangling(g) && MarksOk(g, m0) && MarksOk(g, m)
    requires p in P && p < |m.gray| && m.gray[p] != [] && GrayTop(g, m, p)
    requires Blacks(m0) <= Blacks(m) && OnlyDue(g, m0, m, P)
    ensures MarksOk(g, Scan(g, m, p)) && OnlyDue(g, m0, Scan(g, m, p), P)
  {
    ScanOk(g, m, p);
    PopOk(g, m, p);
    var n, m' := Top(m, p), Scan(g, m, p);
    ScanOrderLinked(g, n);
    hide Due, Blacks, Shade;
    assert Waiting(g, m, n) && n !in Blacks(m0) by { assert n !in Blacks(m) by { GrayIsNotBlack(g, m, p); } }
    forall x | Linked(g, x) && g.part[x] in P && x in ScanOrder(g, n) ensures Due(g, m0, P, x) {
      DueStep(g, m0, P, n, x);
    }
    forall x | x in m.color ensures x in m'.color && ScannedAt(g, m, p, x, m'.color[x]) {
      ScannedColor(g, m, p, x);
    }
    hide Scan, ScanOrder;
    forall x | Linked(g, x) && Waiting(g, m', x) && x !in ScanOrder(g, n) ensures Waiting(g, m, x) {
      ScannedWaits(g, m, p, x);
    }
  }

  lemma GrayIsNotBlack(g: Graph, m: Marks, p: nat)
    requires MarksOk(g, m) && p < |m.gray| && m.gray[p] != [] && GrayTop(g, m, p)
    ensures Top(m, p) !in Blacks(m)
  {
  }

  lemma DueStep(g: Graph, m: Marks, P: set<nat>, n: Ptr, k: Ptr)
    requires Due(g, m, P, n) && n !in Blacks(m) && Edge(g, n, k) && Linked(g, k) && g.part[k] in P
    ensures Due(g, m, P, k)
  {
    assert Edge(Cut(g, Blacks(m)), n, k);
    ReachStep(Cut(g, Blacks(m)), Stacked(g, m), P, n, k);
  }

  lemma ScannedColor(g: Graph, m: Marks, p: nat, x: Ptr)
    requires NoDangling(g) && MarksOk(g, m) && p < |m.gray| && m.gray[p] != [] && GrayTop(g, m, p)
    requires Linked(g, Top(m, p)) && Top(m, p) in g.kids && x in m.color
    ensures x in Scan(g, m, p).color && ScannedAt(g, m, p, x, Scan(g, m, p).color[x])
  {
  }

  lemma ScannedWaits(g: Graph, m: Marks, p: nat, x: Ptr)
    requires NoDangling(g) && MarksOk(g, m) && p < |m.gray| && m.gray[p] != [] && GrayTop(g, m, p)
    requires Linked(g, Top(m, p)) && Top(m, p) in g.kids && x !in ScanOrder(g, Top(m, p)) && Waiting(g, Scan(g, m, p), x)
    ensures Waiting(g, m, x)
  {
    PopOk(g, m, p);
    ScanOrderLinked(g, Top(m, p));
    assert x in Pop(m, p).gray[g.part[x]];
    PoppedWaits(g, m, p, x);
  }

  lemma {:induction false} CarriedLoop(g: Graph, m0: Marks, m: Marks, p: nat, budget: nat, P: set<nat>)
    requires NoDangling(g) && MarksOk(g, m0) && MarksOk(g, m) && p in P && p < |m.gray|
    requires NothingLost(g, m0, m, P) && OnlyDue(g, m0, m, P)
    ensures var r := MarkLoop(g, m, p, budget);
            MarksOk(g, r.0) && NothingLost(g, m0, r.0, P) && OnlyDue(g, m0, r.0, P)
    decreases |NonBlack(g, m, p)|, |m.gray[p]|
  {
    hide Scan, NothingLost, OnlyDue;
    if m.gray[p] != [] {
      PopOk(g, m, p);
      if !GrayTop(g, m, p) {
        CarriedPop(g, m0, m, p, P);
        CarriedLoop(g, m0, Pop(m, p), p, budget, P);
      } else if budget > 0 {
        ScanOk(g, m, p);
        CarriedScan(g, m0, m, p, P);
        CarriedLoop(g, m0, Scan(g, m, p), p, budget - 1, P);
      } else {
        Unflagged(g, m0, m, P, m.listed - {Top(m, p)});
      }
    }
  }

  /** Flags play no part. */
  lemma Unflagged(g: Graph, m0: Marks, m: Marks, P: set<nat>, listed: set<Ptr>)
    requires NothingLost(g, m0, m, P) && OnlyDue(g, m0, m, P)
    ensures NothingLost(g, m0, m.(listed := listed), P) && OnlyDue(g, m0, m.(listed := listed), P)
  {
    hide Due;
  }

  lemma {:induction false} CarriedAll(g: Graph, prot: set<Ptr>, m0: Marks, m: Marks, calls: seq<Call>, P: set<nat>)
    requires NoDangling(g) && ChainsOk(g) && MarksOk(g, m0) && MarksOk(g, m) && CallsIn(g, calls, P)
    requires forall p :: p in P && p < |g.chain| ==> m.marking[p]
    requires NothingLost(g, m0, m, P) && OnlyDue(g, m0, m, P)
    ensures var m' := MarkAll(g, prot, m, calls); NothingLost(g, m0, m', P) && OnlyDue(g, m0, m', P)
    decreases |calls|
  {
    hide MarkLoop, NothingLost, OnlyDue;
    if calls != [] {
      var c := calls[0];
      MarkLoopOk(g, m, c.p, c.budget);
      CarriedLoop(g, m0, m, c.p, c.budget, P);
      CarriedAll(g, prot, m0, Mark(g, prot, m, c.p, c.budget).0, calls[1..], P);
    }
  }

  // ---- what a drained marking has computed ----

  /** A marking from `m` that has drained: Black are those that were and those that were due; the rest is as it was. */
  ghost predicate MarkedFrom(g: Graph, m: Marks, m': Marks, P: set<nat>)
    requires MarksOk(g, m) && MarksOk(g, m')
  {
    forall n {:trigger m'.color[n]} :: Linked(g, n) && g.part[n] in P ==>
      m'.color[n] == if n in Blacks(m) || Due(g, m, P, n) then Black else m.color[n]
  }

  lemma DrainedIsMarked(g: Graph, m0: Marks, m: Marks, P: set<nat>)
    requires MarksOk(g, m0) && MarksOk(g, m) && Drained(m, P) && NothingLost(g, m0, m, P) && OnlyDue(g, m0, m, P)
    ensures MarkedFrom(g, m0, m, P)
  {
    forall n | Linked(g, n) && g.part[n] in P && Due(g, m0, P, n) ensures m.color[n] == Black {
      DueIsBlack(g, m0, m, P, n);
    }
    hide Due;
    forall n | Linked(g, n) && g.part[n] in P
      ensures m.color[n] == if n in Blacks(m0) || Due(g, m0, P, n) then Black else m0.color[n]
    {
      assert n in m0.color && n in m.color;
      assert n in Blacks(m0) ==> n in Blacks(m);
    }
  }

  lemma DueIsBlack(g: Graph, m0: Marks, m: Marks, P: set<nat>, n: Ptr)
    requires MarksOk(g, m0) && MarksOk(g, m) && Drained(m, P) && NothingLost(g, m0, m, P) && Due(g, m0, P, n)
    requires Linked(g, n) && g.part[n] in P
    ensures m.color[n] == Black
  {
    var g0, S := Cut(g, Blacks(m0)), Blacks(m);
    forall r | Linked(g0, r) && g0.part[r] in P && r in Stacked(g, m0) ensures r in S {
      HandledIsBlack(g, m, P, r);
    }
    forall a, b | Edge(g0, a, b) && Linked(g0, b) && g0.part[a] in P && g0.part[b] in P && a in S ensures b in S {
      assert Edge(g, a, b) && a !in Blacks(m0);
      HandledIsBlack(g, m, P, b);
    }
    hide NothingLost, Stacked, Cut;
    ReachLeast(g0, Stacked(g, m0), P, S, n);
  }

  lemma HandledIsBlack(g: Graph, m: Marks, P: set<nat>, n: Ptr)
    requires MarksOk(g, m) && Drained(m, P) && Linked(g, n) && g.part[n] in P && Handled(g, m, n)
    ensures n in Blacks(m)
  {
    assert m.gray[g.part[n]] == [];
  }

  /** A first call on a partition that is not marking switches all of them on; prepared, it is a marking call. */
  lemma PreparedFirst(g: Graph, prot: set<Ptr>, m: Marks, calls: seq<Call>)
    requires NoDangling(g) && ChainsOk(g) && MarksOk(g, m) && CallsIn(g, calls, Everywhere(g)) && calls != []
    ensures MarksOk(g, Prepare(g, prot, m, calls[0].p))
    ensures MarkAll(g, prot, m, calls) == MarkAll(g, prot, Prepare(g, prot, m, calls[0].p), calls)
  {
    hide MarkLoop;
    var c := calls[0];
    var m1 := Prepare(g, prot, m, c.p);
    PrepareOk(g, prot, m, c.p);
    assert Prepare(g, prot, m1, c.p) == m1;
    assert Mark(g, prot, m, c.p, c.budget) == Mark(g, prot, m1, c.p, c.budget);
  }

  /**
   From any state at all: any sequence of `mark` calls on `P` that ends with `P` drained has blackened exactly
   what the prepared state held Black and what was due in it, and left every other colour of `P` alone.
   */
  lemma MarkingFromAnyState(g: Graph, prot: set<Ptr>, m: Marks, calls: seq<Call>, P: set<nat>)
    requires NoDangling(g) && ChainsOk(g) && MarksOk(g, m) && CallsIn(g, calls, P) && calls != []
    requires MarksOk(g, Prepare(g, prot, m, calls[0].p))
    requires forall p :: p in P && p < |g.chain| ==> Prepare(g, prot, m, calls[0].p).marking[p]
    requires Drained(MarkAll(g, prot, m, calls), P)
    ensures MarkedFrom(g, Prepare(g, prot, m, calls[0].p), MarkAll(g, prot, m, calls), P)
  {
    var m1 := Prepare(g, prot, m, calls[0].p);
    PreparedFirst(g, prot, m, calls);
    CarriedStart(g, m1, P);
    CarriedAll(g, prot, m1, m1, calls, P);
    hide Prepare, MarkAll, NothingLost, OnlyDue, MarkedFrom;
    DrainedIsMarked(g, m1, MarkAll(g, prot, m, calls), P);
  }

  /** The prepared state already determines whether the outcome will be exact. */
  ghost predicate WillBeExact(g: Graph, prot: set<Ptr>, m: Marks, P: set<nat>)
    requires MarksOk(g, m)
  {
    forall n {:trigger m.color[n]} :: Linked(g, n) && g.part[n] in P ==>
      && (Reach(g, prot, P, n) <==> n in Blacks(m) || Due(g, m, P, n))
      && (m.color[n] != White ==> Reach(g, prot, P, n))
  }

  /** Exactness from any state: iff Black and due together are the reachable nodes, and nothing else is coloured. */
  lemma ExactIff(g: Graph, prot: set<Ptr>, m: Marks, calls: seq<Call>, P: set<nat>)
    requires NoDangling(g) && ChainsOk(g) && MarksOk(g, m) && CallsIn(g, calls, P) && calls != []
    requires MarksOk(g, Prepare(g, prot, m, calls[0].p))
    requires forall p :: p in P && p < |g.chain| ==> Prepare(g, prot, m, calls[0].p).marking[p]
    requires Drained(MarkAll(g, prot, m, calls), P)
    ensures Exact(g, prot, MarkAll(g, prot, m, calls), P) <==> WillBeExact(g, prot, Prepare(g, prot, m, calls[0].p), P)
  {
    MarkingFromAnyState(g, prot, m, calls, P);
    var m1, m2 := Prepare(g, prot, m, calls[0].p), MarkAll(g, prot, m, calls);
    hide Prepare, MarkAll, Due, Reach;
    ExactIffMarked(g, prot, m1, m2, P);
  }

  lemma ExactIffMarked(g: Graph, prot: set<Ptr>, m: Marks, m': Marks, P: set<nat>)
    requires MarksOk(g, m) && MarksOk(g, m') && MarkedFrom(g, m, m', P)
    ensures Exact(g, prot, m', P) <==> WillBeExact(g, prot, m, P)
  {
    hide Due, Reach;
    if Exact(g, prot, m', P) {
      forall n | Linked(g, n) && g.part[n] in P
        ensures Reach(g, prot, P, n) <==> n in Blacks(m) || Due(g, m, P, n)
        ensures m.color[n] != White ==> Reach(g, prot, P, n)
      {
        assert m'.color[n] == if Reach(g, prot, P, n) then Black else White;
      }
    } else {
      var n :| Linked(g, n) && g.part[n] in P && m'.color[n] != (if Reach(g, prot, P, n) then Black else White);
      assert n in m.color && (m.color[n] == m.color[n]);
    }
  }

  /** Where the prepared state satisfies the tri-colour invariant, exactness is: nothing unreachable is coloured in it. */
  lemma ExactIffSound(g: Graph, prot: set<Ptr>, m: Marks, calls: seq<Call>, P: set<nat>)
    requires NoDangling(g) && ChainsOk(g) && MarksOk(g, m) && CallsIn(g, calls, P) && calls != []
    requires MarksOk(g, Prepare(g, prot, m, calls[0].p))
    requires forall p :: p in P && p < |g.chain| ==> Prepare(g, prot, m, calls[0].p).marking[p]
    requires Tri(g, prot, Prepare(g, prot, m, calls[0].p), P) && Drained(MarkAll(g, prot, m, calls), P)
    ensures Exact(g, prot, MarkAll(g, prot, m, calls), P) <==> Sound(g, prot, Prepare(g, prot, m, calls[0].p), P)
  {
    var m1 := Prepare(g, prot, m, calls[0].p);
    if Sound(g, prot, m1, P) {
      PreparedFirst(g, prot, m, calls);
      MarkAllTriSound(g, prot, m1, calls, P);
      DrainedIsExact(g, prot, MarkAll(g, prot, m1, calls), P);
    } else {
      ExactIff(g, prot, m, calls, P);
      hide Prepare, MarkAll, Tri, Due, Reach;
      var n :| Linked(g, n) && g.part[n] in P && m1.color[n] != White && !Reach(g, prot, P, n);
      assert !WillBeExact(g, prot, m1, P);
    }
  }

  /** What `mark_prepare` leaves unrecoloured, in partitions with pending grays, is reachable. */
  ghost predicate PendingSound(g: Graph, prot: set<Ptr>, m: Marks, P: set<nat>)
    requires MarksOk(g, m)
  {
    forall n {:trigger m.color[n]} :: Linked(g, n) && g.part[n] in P && m.gray[g.part[n]] != [] && m.color[n] != White ==>
      Reach(g, prot, P, n)
  }

  /** On the state before the call: soundness of the prepared state is about partitions with pending grays only. */
  lemma PreparedSoundIff(g: Graph, prot: set<Ptr>, m: Marks, p: nat, P: set<nat>)
    requires MarksOk(g, m) && ChainsOk(g) && p < |m.marking| && !m.marking[p]
    ensures MarksOk(g, Prepare(g, prot, m, p))
    ensures Sound(g, prot, Prepare(g, prot, m, p), P) <==> PendingSound(g, prot, m, P)
  {
    PrepareOk(g, prot, m, p);
    var m1 := Prepare(g, prot, m, p);
    hide Reach;
    forall n | Linked(g, n) && g.part[n] in P && n in prot ensures Reach(g, prot, P, n) {
      ReachRoot(g, prot, P, n);
    }
    forall n | Linked(g, n) ensures m1.color[n] == Seeded(g, prot, m, n) {
    }
    hide Prepare;
    if PendingSound(g, prot, m, P) {
      forall n | Linked(g, n) && g.part[n] in P && m1.color[n] != White ensures Reach(g, prot, P, n) {
        assert n in m.color;
      }
    } else {
      var n :| Linked(g, n) && g.part[n] in P && m.gray[g.part[n]] != [] && m.color[n] != White && !Reach(g, prot, P, n);
      assert n !in prot && m1.color[n] == m.color[n];
    }
  }

  // ---- `while !mark(p, k) {}` ----

  /** The loop is a sequence of `mark` calls on `p`. */
  lemma {:induction false} WhileIsCalls(g: Graph, prot: set<Ptr>, m: Marks, p: nat, k: nat, n: nat) returns (calls: seq<Call>)
    requires NoDangling(g) && ChainsOk(g) && MarksOk(g, m) && p < |g.chain| && n > 0
    ensures calls != [] && calls[0] == Call(p, k) && CallsIn(g, calls, {p})
    ensures MarkAll(g, prot, m, calls) == MarkWhile(g, prot, m, p, k, n).0
    decreases n
  {
    hide Mark;
    MarkOk(g, prot, m, p, k);
    var r := Mark(g, prot, m, p, k);
    if r.1 || n == 1 {
      calls := [Call(p, k)];
      assert calls[1..] == [];
    } else {
      var rest := WhileIsCalls(g, prot, r.0, p, k, n - 1);
      calls := [Call(p, k)] + rest;
      assert calls[1..] == rest;
    }
  }

  /** When the loop has ended its partition is drained. */
  lemma {:induction false} WhileDrains(g: Graph, prot: set<Ptr>, m: Marks, p: nat, k: nat, n: nat)
    requires NoDangling(g) && ChainsOk(g) && MarksOk(g, m) && p < |g.chain| && MarkWhile(g, prot, m, p, k, n).1
    ensures var m' := MarkWhile(g, prot, m, p, k, n).0; m'.gray[p] == [] && m'.marking[p]
    decreases n
  {
    hide Mark;
    MarkOk(g, prot, m, p, k);
    if !Mark(g, prot, m, p, k).1 { WhileDrains(g, prot, Mark(g, prot, m, p, k).0, p, k, n - 1); }
  }

  /** The loop keeps its partition tri-colour safe. */
  lemma {:induction false} WhileSafe(g: Graph, prot: set<Ptr>, m: Marks, p: nat, k: nat, n: nat)
    requires NoDangling(g) && ChainsOk(g) && MarksOk(g, m) && p < |g.chain| && Safe(g, prot, m, p)
    ensures Safe(g, prot, MarkWhile(g, prot, m, p, k, n).0, p)
    decreases n
  {
    hide Safe, Prepare, MarkLoop;
    if n > 0 {
      PrepareOk(g, prot, m, p);
      var m1 := Prepare(g, prot, m, p);
      PrepareSafe(g, prot, m, p, p);
      MarkLoopOk(g, m1, p, k);
      SafeLoop(g, prot, m1, p, k);
      if !Mark(g, prot, m, p, k).1 { WhileSafe(g, prot, Mark(g, prot, m, p, k).0, p, k, n - 1); }
    }
  }

  lemma SafeLoop(g: Graph, prot: set<Ptr>, m: Marks, p: nat, k: nat)
    requires NoDangling(g) && MarksOk(g, m) && p < |g.chain| && m.marking[p] && Safe(g, prot, m, p)
    ensures MarksOk(g, MarkLoop(g, m, p, k).0) && Safe(g, prot, MarkLoop(g, m, p, k).0, p)
  {
    hide MarkLoop;
    MarkLoopOk(g, m, p, k);
    MarkLoopTri(g, prot, m, p, k, {p});
  }

  /** One partition, `garbage_collect`'s loop, any starting state: what it computes and when that is exact. */
  lemma WhileFromAnyState(g: Graph, prot: set<Ptr>, m: Marks, p: nat, k: nat, n: nat)
    requires NoDangling(g) && ChainsOk(g) && MarksOk(g, m) && p < |g.chain| && MarkWhile(g, prot, m, p, k, n).1
    ensures MarksOk(g, Prepare(g, prot, m, p))
    ensures var m1, m' := Prepare(g, prot, m, p), MarkWhile(g, prot, m, p, k, n).0;
            && MarkedFrom(g, m1, m', {p})
            && (Exact(g, prot, m', {p}) <==> WillBeExact(g, prot, m1, {p}))
            && (Tri(g, prot, m1, {p}) ==> (Exact(g, prot, m', {p}) <==> Sound(g, prot, m1, {p})))
  {
    PrepareOk(g, prot, m, p);
    var calls := WhileIsCalls(g, prot, m, p, k, n);
    WhileDrains(g, prot, m, p, k, n);
    hide Prepare, MarkAll, MarkWhile, Tri, Sound, Exact, MarkedFrom, WillBeExact;
    MarkingFromAnyState(g, prot, m, calls, {p});
    ExactIff(g, prot, m, calls, {p});
    if Tri(g, prot, Prepare(g, prot, m, p), {p}) { ExactIffSound(g, prot, m, calls, {p}); }
  }

  // ---- what a collection takes, on the state before it ----

  /** The Black nodes of `p` that `mark_prepare` leaves Black. They are kept but never scanned again. */
  ghost function KeptBlacks(g: Graph, prot: set<Ptr>, m: Marks, p: nat): set<Ptr>
    requires MarksOk(g, m) && p < |g.chain|
  {
    set n | n in m.color && Linked(g, n) && g.part[n] == p && m.color[n] == Black && (m.marking[p] || (m.gray[p] != [] && n !in prot))
  }

  /** The nodes of `p` that marking starts from: what is stacked and Gray, and when it is not mid-cycle the roots and locals. */
  ghost function Sources(g: Graph, prot: set<Ptr>, m: Marks, p: nat): set<Ptr>
    requires MarksOk(g, m) && p < |g.chain|
  {
    set n | n in m.color && Linked(g, n) && g.part[n] == p &&
            ((m.color[n] == Gray && n in m.gray[p]) || (!m.marking[p] && n in prot))
  }

  /** `n` is reached inside `p` from a source without passing a kept Black node. */
  ghost predicate Held(g: Graph, prot: set<Ptr>, m: Marks, p: nat, n: Ptr)
    requires MarksOk(g, m) && p < |g.chain|
  {
    Reach(Cut(g, KeptBlacks(g, prot, m, p)), Sources(g, prot, m, p), {p}, n)
  }

  /** What a collection of `p` will take. */
  ghost predicate Condemned(g: Graph, prot: set<Ptr>, m: Marks, p: nat, n: Ptr)
    requires MarksOk(g, m) && p < |g.chain|
  {
    && Linked(g, n) && g.part[n] == p && n !in prot
    && (m.color[n] == White || (!m.marking[p] && m.gray[p] == []))
    && !Held(g, prot, m, p, n)
  }

  /** What `mark_prepare` makes of one partition. */
  lemma PreparedPartition(g: Graph, prot: set<Ptr>, m: Marks, p: nat)
    requires MarksOk(g, m) && ChainsOk(g) && p < |g.chain|
    ensures MarksOk(g, Prepare(g, prot, m, p))
    ensures var m1 := Prepare(g, prot, m, p);
            forall n {:trigger m1.color[n]} :: Linked(g, n) && g.part[n] == p ==>
              && (n in Blacks(m1) <==> n in KeptBlacks(g, prot, m, p))
              && (n in Stacked(g, m1) <==> n in Sources(g, prot, m, p))
              && (n !in prot ==> (m1.color[n] == White <==> m.color[n] == White || (!m.marking[p] && m.gray[p] == [])))
  {
    PrepareOk(g, prot, m, p);
    var m1 := Prepare(g, prot, m, p);
    forall n | Linked(g, n) && g.part[n] == p && !m.marking[p]
      ensures n in m1.gray[p] <==> n in m.gray[p] || n in prot
    {
      assert n in g.chain[p];
    }
  }

  /** Reachability inside `P` depends only on the graph and the starting points there. */
  lemma ReachAgrees(g: Graph, prot: set<Ptr>, g': Graph, prot': set<Ptr>, P: set<nat>, n: Ptr)
    requires g'.part == g.part && g'.linked == g.linked && Reach(g, prot, P, n)
    requires forall x :: Linked(g, x) && g.part[x] in P && x in prot ==> x in prot'
    requires forall a, b {:trigger Edge(g, a, b)} :: Edge(g, a, b) && g.part[a] in P ==> Edge(g', a, b)
    ensures Reach(g', prot', P, n)
  {
    var path :| PathIn(g, P, path) && path[0] in prot && path[|path| - 1] == n;
    assert PathIn(g', P, path);
  }

  lemma DueIsHeld(g: Graph, prot: set<Ptr>, m: Marks, p: nat, n: Ptr)
    requires MarksOk(g, m) && ChainsOk(g) && p < |g.chain|
    ensures Due(g, Prepare(g, prot, m, p), {p}, n) <==> Held(g, prot, m, p, n)
  {
    PreparedPartition(g, prot, m, p);
    hide Prepare, Reach, Blacks, Stacked, KeptBlacks, Sources;
    var m1 := Prepare(g, prot, m, p);
    var a, b := Cut(g, Blacks(m1)), Cut(g, KeptBlacks(g, prot, m, p));
    forall x | Linked(g, x) && g.part[x] == p
      ensures (x in Blacks(m1) <==> x in KeptBlacks(g, prot, m, p)) && (x in Stacked(g, m1) <==> x in Sources(g, prot, m, p))
    {
      assert x in m1.color && m1.color[x] == m1.color[x];
    }
    if Due(g, m1, {p}, n) { ReachAgrees(a, Stacked(g, m1), b, Sources(g, prot, m, p), {p}, n); }
    if Held(g, prot, m, p, n) { ReachAgrees(b, Sources(g, prot, m, p), a, Stacked(g, m1), {p}, n); }
  }

  /**
   Exactly which nodes a collection of one partition takes, told from the state before it, whatever that is:
   mid-cycle or not, with or without pending grays, and however other partitions point in.
   */
  lemma TakenIff(g: Graph, prot: set<Ptr>, m: Marks, p: nat, k: nat, calls: nat)
    requires NoDangling(g) && ChainsOk(g) && MarksOk(g, m) && p < |g.chain| && MarkWhile(g, prot, m, p, k, calls).1
    ensures var m' := MarkWhile(g, prot, m, p, k, calls).0;
            && CanUnlink(m', p)
            && forall n {:trigger n in Dead(g, prot, m', p)} {:trigger Condemned(g, prot, m, p, n)} ::
                 n in Dead(g, prot, m', p) <==> Condemned(g, prot, m, p, n)
  {
    hide MarkWhile, Prepare, Due, Held, Tri, Sound, Exact, WillBeExact;
    WhileFromAnyState(g, prot, m, p, k, calls);
    WhileDrains(g, prot, m, p, k, calls);
    PreparedPartition(g, prot, m, p);
    var m1, m' := Prepare(g, prot, m, p), MarkWhile(g, prot, m, p, k, calls).0;
    forall n ensures n in Dead(g, prot, m', p) <==> Condemned(g, prot, m, p, n) {
      if Linked(g, n) && g.part[n] == p {
        DueIsHeld(g, prot, m, p, n);
        assert m'.color[n] == if n in Blacks(m1) || Due(g, m1, {p}, n) then Black else m1.color[n];
      }
    }
  }
}
