/** Whole runs: what holds after any legal interleaving of operations, and what a collection then does. */
module Runs {
  import opened Basics
  import opened Graphs
  import opened Marking
  import opened Tricolor
  import opened Sweep
  import opened Cycles
  import opened Exactness
  import opened Machine
  import opened Preservation
  import opened Collection
  import A = Accounting
  import W = Weak
  import S = Scopes

  /** Every operation of the sequence is one its caller may make at that point. */
  ghost predicate Legal(layout: seq<nat>, closed: set<nat>, s: State, ops: seq<Op>)
    requires Inv(layout, closed, s)
    decreases |ops|
  {
    ops == [] ||
    (Enabled(layout, closed, s, ops[0]) &&
     (StepOk(layout, closed, s, ops[0]);
      Legal(layout, closed, Step(layout, closed, s, ops[0]), ops[1..])))
  }

  /**
   Running a sequence of operations. Whatever the interleaving of budgeted marking, allocation, root and
   scope changes, barrier-protected stores, sweeps, disposals and weak references, the invariant holds at
   the end, and weak slots have only moved forward.
   */
  ghost function Exec(layout: seq<nat>, closed: set<nat>, s: State, ops: seq<Op>): (s': State)
    requires Inv(layout, closed, s) && Legal(layout, closed, s, ops)
    ensures Inv(layout, closed, s')
    ensures W.Later(s.weak, s'.weak)
    decreases |ops|
  {
    if ops == [] then s
    else
      StepOk(layout, closed, s, ops[0]);
      StepLater(layout, closed, s, ops[0]);
      var s1 := Step(layout, closed, s, ops[0]);
      var s' := Exec(layout, closed, s1, ops[1..]);
      W.LaterTrans(s.weak, s1.weak, s'.weak);
      s'
  }

  ghost predicate TouchesWeak(op: Op) {
    op.AllocOp? || op.DisposeOp? || op.DowngradeOp? || op.RemoveOp?
  }

  lemma WeakUntouched(layout: seq<nat>, closed: set<nat>, s: State, op: Op)
    requires Inv(layout, closed, s) && Enabled(layout, closed, s, op) && !TouchesWeak(op)
    ensures Step(layout, closed, s, op).weak == s.weak
  {
    hide Inv;
  }

  lemma StepLater(layout: seq<nat>, closed: set<nat>, s: State, op: Op)
    requires Inv(layout, closed, s) && Enabled(layout, closed, s, op)
    ensures W.Later(s.weak, Step(layout, closed, s, op).weak)
  {
    hide S.ScopesOk, W.WeakOk, A.AccountsOk, A.LimitOk, ChainsOk, Safe, NoInbound, NoDangling, MarksOk;
    hide Mark, MarkLoop, Prepare, Reset, Barrier, BindMarks, EnlistIfMarking, UnlinkGraph, Attach, Free, RemovedGraph;
    if !TouchesWeak(op) { WeakUntouched(layout, closed, s, op); }
    match op {
      case AllocOp(_, addr, _, _, _) => W.EnrollOk(s.g.part.Keys, s.weak, addr);
      case DisposeOp(_, gone) => W.ForgetOk(s.g.part.Keys, s.weak, gone);
      case DowngradeOp(n) => W.DowngradeOk(s.g.part.Keys, s.weak, n);
      case RemoveOp(p) => W.ForgetOk(s.g.part.Keys, s.weak, A.InPartition(s.g, p));
      case _ =>
    }
  }

  lemma EmptyOk(layout: seq<nat>, closed: set<nat>)
    ensures Inv(layout, closed, Empty())
  {
  }

  /** A run from a new heap. */
  ghost predicate LegalRun(layout: seq<nat>, closed: set<nat>, ops: seq<Op>) {
    EmptyOk(layout, closed);
    Legal(layout, closed, Empty(), ops)
  }

  /** The heap after a `sweep_unlink` of partition `p`, whichever that is. */
  ghost function Swept(s: State, p: nat): State
    requires MarksOk(s.g, s.m)
  {
    s.(g := UnlinkGraph(s.g, Prot(s), s.m, p), m := UnlinkMarks(s.m, p))
  }

  /** The heap after a legal run from nothing. */
  ghost function After(layout: seq<nat>, closed: set<nat>, ops: seq<Op>): (s: State)
    requires LegalRun(layout, closed, ops)
    ensures Inv(layout, closed, s)
  {
    EmptyOk(layout, closed);
    Exec(layout, closed, Empty(), ops)
  }

  /** `n` is in memory and linked, and so is everything it points at. */
  ghost predicate Intact(s: State, n: Ptr) {
    Linked(s.g, n) && n in s.g.kids && forall k :: k in s.g.kids[n] ==> Linked(s.g, k)
  }

  ghost predicate Live(s: State, n: Ptr) {
    Reach(s.g, Prot(s), Everywhere(s.g), n)
  }

  /**
   Safety over whole runs: start from an empty heap, run anything legal, then sweep. A node that was
   reachable from a root or a local is still linked, its children are linked, and so is every protected node.
   */
  lemma SweepSparesTheLive(layout: seq<nat>, closed: set<nat>, ops: seq<Op>, p: nat, n: Ptr)
    requires LegalRun(layout, closed, ops) && p in closed
    requires Live(After(layout, closed, ops), n)
    ensures Intact(After(layout, closed, ops), n)
    ensures Intact(Swept(After(layout, closed, ops), p), n)
    ensures Prot(Swept(After(layout, closed, ops), p)) == Prot(After(layout, closed, ops))
  {
    hide *;
    LiveIsIntact(layout, closed, After(layout, closed, ops), n);
    SweepKeepsLive(layout, closed, After(layout, closed, ops), p, n);
  }

  lemma LiveIsIntact(layout: seq<nat>, closed: set<nat>, s: State, n: Ptr)
    requires Inv(layout, closed, s) && Live(s, n)
    ensures Intact(s, n)
  {
    hide S.ScopesOk, W.WeakOk, A.AccountsOk, A.LimitOk, ChainsOk, Safe;
    ReachLeast(s.g, Prot(s), Everywhere(s.g), s.g.linked, n);
    forall k | k in s.g.kids[n] ensures Linked(s.g, k) {
      assert Edge(s.g, n, k);
    }
  }

  lemma SweepKeepsLive(layout: seq<nat>, closed: set<nat>, s: State, p: nat, n: Ptr)
    requires Inv(layout, closed, s) && p in closed && Live(s, n)
    ensures Intact(Swept(s, p), n)
    ensures Prot(Swept(s, p)) == Prot(s)
  {
    hide S.ScopesOk, W.WeakOk, A.AccountsOk, A.LimitOk, ChainsOk, Safe;
    var s' := Swept(s, p);
    StepOk(layout, closed, s, UnlinkOp(p));
    ReachLeast(s.g, Prot(s), Everywhere(s.g), s.g.linked, n);
    CanUnlinkGuarded(layout, closed, s, p);
    if CanUnlink(s.m, p) && n in Dead(s.g, Prot(s), s.m, p) {
      SweepSparesReachable(s.g, Prot(s), s.m, p, n);
      assert false;
    }
    forall k | k in s'.g.kids[n] ensures Linked(s'.g, k) {
      assert Edge(s'.g, n, k);
    }
  }

  ghost predicate Caches(s: State, at: S.Place, n: Ptr) {
    S.IsScope(s.scopes.stacks, at) && n in S.ScopeAt(s.scopes.stacks, at).cache
  }

  /** A node cached in an open scope is protected: after any run it is linked, and a sweep of any partition leaves it so. */
  lemma CachedNodesSurvive(layout: seq<nat>, closed: set<nat>, ops: seq<Op>, p: nat, at: S.Place, n: Ptr)
    requires LegalRun(layout, closed, ops)
    requires Caches(After(layout, closed, ops), at, n)
    ensures Linked(After(layout, closed, ops).g, n)
    ensures Linked(Swept(After(layout, closed, ops), p).g, n)
  {
    hide *;
    CachedSurvives1(layout, closed, After(layout, closed, ops), p, at, n);
  }

  lemma CachedSurvives1(layout: seq<nat>, closed: set<nat>, s: State, p: nat, at: S.Place, n: Ptr)
    requires Inv(layout, closed, s) && Caches(s, at, n)
    ensures Linked(s.g, n) && Linked(Swept(s, p).g, n)
  {
    hide W.WeakOk, A.AccountsOk, A.LimitOk, ChainsOk, Safe, NoDangling, NoInbound;
    S.LocalIffCached(s.g, s.scopes, n);
  }

  /** Marking a partition to the end, `k` nodes a call, within the call bound. */
  ghost function MarkedOut(s: State, p: nat, k: nat): (r: (Marks, bool))
    requires NoDangling(s.g) && ChainsOk(s.g) && MarksOk(s.g, s.m) && p < |s.m.gray| && k > 0
    ensures MarksOk(s.g, r.0)
  {
    MarkWhile(s.g, Prot(s), s.m, p, k, CallBound(|Nodes(s.g, p)|, k))
  }

  /** A sweep of `p` takes exactly the nodes no root or local reaches. */
  ghost predicate TakesExactlyGarbage(g: Graph, prot: set<Ptr>, m: Marks, p: nat)
    requires MarksOk(g, m) && p < |g.chain|
  {
    forall n {:trigger n in Dead(g, prot, m, p)} :: Linked(g, n) && g.part[n] == p ==>
      (n in Dead(g, prot, m, p) <==> !Reach(g, prot, Everywhere(g), n))
  }

  /** Nothing of `p` is coloured, once the next `mark` has prepared, that is not reachable. */
  ghost predicate StartsSound(s: State, p: nat)
    requires ChainsOk(s.g) && MarksOk(s.g, s.m)
  {
    PrepareOk(s.g, Prot(s), s.m, p);
    Sound(s.g, Prot(s), Prepare(s.g, Prot(s), s.m, p), {p})
  }

  /**
   A complete collection at any point of a run, mid-cycle or not: `mark` reports done within the call bound, what
   `sweep_unlink` then takes is never reachable, and it is all that is unreachable exactly when the cycle was
   sound once prepared - as it is whenever the partition was not mid-cycle.
   */
  lemma CollectionIsExact(layout: seq<nat>, closed: set<nat>, s: State, p: nat, k: nat)
    requires Inv(layout, closed, s) && p in closed && p < |s.g.chain| && k > 0
    ensures var r := MarkedOut(s, p, k);
            && r.1 && CanUnlink(r.0, p)
            && (forall n {:trigger n in Dead(s.g, Prot(s), r.0, p)} :: n in Dead(s.g, Prot(s), r.0, p) ==> !Live(s, n))
            && (TakesExactlyGarbage(s.g, Prot(s), r.0, p) <==> StartsSound(s, p))
    ensures !s.m.marking[p] ==> StartsSound(s, p)
  {
    var g, prot := s.g, Prot(s);
    assert Guarded(s, p);
    if !s.m.marking[p] { PrepareFresh(g, prot, s.m, p, {p}); }
    MarkedOutExact(g, prot, s.m, p, k, CallBound(|Nodes(g, p)|, k));
  }

  lemma MarkedOutExact(g: Graph, prot: set<Ptr>, m: Marks, p: nat, k: nat, calls: nat)
    requires NoDangling(g) && ChainsOk(g) && MarksOk(g, m) && p < |g.chain| && k > 0 && NoInbound(g, p) && Safe(g, prot, m, p)
    requires calls == CallBound(|Nodes(g, p)|, k)
    ensures var r := MarkWhile(g, prot, m, p, k, calls);
            && r.1 && CanUnlink(r.0, p) && MarksOk(g, Prepare(g, prot, m, p))
            && (forall n {:trigger n in Dead(g, prot, r.0, p)} :: n in Dead(g, prot, r.0, p) ==> !Reach(g, prot, Everywhere(g), n))
            && (TakesExactlyGarbage(g, prot, r.0, p) <==> Sound(g, prot, Prepare(g, prot, m, p), {p}))
  {
    MarkWhileTerminates(g, prot, m, p, k);
    WhileFromAnyState(g, prot, m, p, k, calls);
    WhileDrains(g, prot, m, p, k, calls);
    WhileSafe(g, prot, m, p, k, calls);
    PrepareOk(g, prot, m, p);
    PrepareSafe(g, prot, m, p, p);
    hide MarkWhile, Prepare, Sound, Dead, Reach, CallBound, Nodes;
    var m' := MarkWhile(g, prot, m, p, k, calls).0;
    ExactlyGarbageIff(g, prot, m', p);
    forall n | n in Dead(g, prot, m', p) ensures !Reach(g, prot, Everywhere(g), n) {
      SweepSparesReachable(g, prot, m', p, n);
    }
  }

  lemma ExactlyGarbageIff(g: Graph, prot: set<Ptr>, m: Marks, p: nat)
    requires MarksOk(g, m) && p < |g.chain| && NoInbound(g, p) && Safe(g, prot, m, p) && CanUnlink(m, p)
    ensures TakesExactlyGarbage(g, prot, m, p) <==> Exact(g, prot, m, {p})
  {
    forall n | Linked(g, n) && g.part[n] == p
      ensures Reach(g, prot, {p}, n) <==> Reach(g, prot, Everywhere(g), n)
      ensures n in Dead(g, prot, m, p) <==> m.color[n] == White
      ensures m.color[n] != Gray
    {
      if Reach(g, prot, Everywhere(g), n) { ReachStaysInside(g, prot, p, n); }
      if Reach(g, prot, {p}, n) { ReachWider(g, prot, p, n); }
      assert m.gray[g.part[n]] == [];
    }
    hide Reach, Dead, Safe, NoInbound;
    if TakesExactlyGarbage(g, prot, m, p) {
      forall n | Linked(g, n) && g.part[n] in {p} ensures m.color[n] == if Reach(g, prot, {p}, n) then Black else White {
        assert n in Dead(g, prot, m, p) <==> !Reach(g, prot, Everywhere(g), n);
      }
    } else {
      var n :| Linked(g, n) && g.part[n] == p && !(n in Dead(g, prot, m, p) <==> !Reach(g, prot, Everywhere(g), n));
      assert g.part[n] in {p} && n in m.color && m.color[n] == m.color[n];
    }
  }

  lemma ReachWider(g: Graph, prot: set<Ptr>, p: nat, n: Ptr)
    requires Wf(g) && Reach(g, prot, {p}, n)
    ensures Reach(g, prot, Everywhere(g), n)
  {
    var path :| PathIn(g, {p}, path) && path[0] in prot && path[|path| - 1] == n;
    assert PathIn(g, Everywhere(g), path);
  }

  lemma {:induction false} MarkWhileExact(g: Graph, prot: set<Ptr>, m: Marks, p: nat, k: nat, calls: nat)
    requires NoDangling(g) && ChainsOk(g) && MarksOk(g, m) && p < |g.chain| && k > 0 && calls > 0
    requires Drained(m, {p}) && !m.marking[p] && MarkWhile(g, prot, m, p, k, calls).1
    ensures var m' := MarkWhile(g, prot, m, p, k, calls).0;
            Exact(g, prot, m', {p}) && CanUnlink(m', p)
  {
    PrepareFresh(g, prot, m, p, {p});
    PrepareOk(g, prot, m, p);
    var m1 := Prepare(g, prot, m, p);
    assert Mark(g, prot, m, p, k) == Mark(g, prot, m1, p, k);
    assert MarkWhile(g, prot, m, p, k, calls) == MarkWhile(g, prot, m1, p, k, calls);
    MarkWhileKeeps(g, prot, m1, p, k, calls);
    DrainedIsExact(g, prot, MarkWhile(g, prot, m1, p, k, calls).0, {p});
  }

  lemma {:induction false} MarkWhileKeeps(g: Graph, prot: set<Ptr>, m: Marks, p: nat, k: nat, calls: nat)
    requires NoDangling(g) && ChainsOk(g) && MarksOk(g, m) && p < |g.chain| && m.marking[p]
    requires Tri(g, prot, m, {p}) && Sound(g, prot, m, {p})
    ensures var r := MarkWhile(g, prot, m, p, k, calls);
            Tri(g, prot, r.0, {p}) && Sound(g, prot, r.0, {p}) && r.0.marking[p] && (r.1 ==> r.0.gray[p] == [])
    decreases calls
  {
    hide Mark, Tri, Sound;
    if calls > 0 {
      MarkOk(g, prot, m, p, k);
      MarkKeeps(g, prot, m, p, k, {p});
      MarkWhileKeeps(g, prot, Mark(g, prot, m, p, k).0, p, k, calls - 1);
    }
  }

  // ---- the whole of `garbage_collect` ----

  lemma CollectableFromInv(layout: seq<nat>, closed: set<nat>, s: State, p: nat)
    requires Inv(layout, closed, s) && p < |s.g.chain|
    ensures Collectable(layout, s, p)
  {
  }

  lemma UnlinkKeepsInv(layout: seq<nat>, closed: set<nat>, s: State, p: nat)
    requires Inv(layout, closed, s) && p in closed
    ensures MarksOk(s.g, s.m)
    ensures Inv(layout, closed, s.(g := UnlinkGraph(s.g, Prot(s), s.m, p), m := UnlinkMarks(s.m, p)))
  {
    StepOk(layout, closed, s, UnlinkOp(p));
  }

  lemma DisposeKeepsInv(layout: seq<nat>, closed: set<nat>, s: State, p: nat, gone: set<Ptr>)
    requires Inv(layout, closed, s) && p < |s.g.chain| && gone <= A.InPartition(s.g, p) && gone !! s.g.linked
    requires p < |s.acc.used|
    requires A.Bytes(gone, s.g.dtype, layout) <= s.acc.used[p] && A.Bytes(gone, s.g.dtype, layout) <= s.acc.total
    ensures Inv(layout, closed, Disposed(layout, s, p, gone))
  {
    hide Inv, Disposed, A.Bytes;
    MarksFromInv(layout, closed, s);
    forall n | n in gone ensures InLimbo(s.g, n) && s.g.part[n] == p {
      assert n in A.InPartition(s.g, p);
    }
    StepOk(layout, closed, s, DisposeOp(p, gone));
  }

  lemma MarksFromInv(layout: seq<nat>, closed: set<nat>, s: State)
    requires Inv(layout, closed, s)
    ensures MarksOk(s.g, s.m)
  {
  }

  /** A collection is itself a legal run of three kinds of operation, so it keeps the invariant. */
  lemma CollectedOk(layout: seq<nat>, closed: set<nat>, s: State, p: nat)
    requires Inv(layout, closed, s) && p in closed && p < |s.g.chain|
    ensures Collectable(layout, s, p) && Inv(layout, closed, Collected(layout, s, p))
  {
    CollectableFromInv(layout, closed, s, p);
    MarkedOk(layout, closed, s, p, CallBound(|Nodes(s.g, p)|, BUDGET));
    hide Inv, MarkWhile, Garbage, Disposed, MarksOk, ChainsOk, NoDangling;
    UnlinkKeepsInv(layout, closed, Marked(s, p), p);
    GarbageOk(layout, s, p);
    UnlinkedChains(s, p);
    DisposeKeepsInv(layout, closed, Unlinked(s, p), p, Elems(Garbage(s, p)));
  }

  lemma UnlinkedChains(s: State, p: nat)
    requires NoDangling(s.g) && ChainsOk(s.g) && MarksOk(s.g, s.m) && p < |s.g.chain|
    ensures |Unlinked(s, p).g.chain| == |s.g.chain|
  {
  }

  lemma MarkKeepsInv(layout: seq<nat>, closed: set<nat>, s: State, p: nat)
    requires Inv(layout, closed, s) && p < |s.g.chain|
    ensures NoDangling(s.g) && ChainsOk(s.g) && MarksOk(s.g, s.m) && p < |s.m.gray|
    ensures Inv(layout, closed, s.(m := Mark(s.g, Prot(s), s.m, p, BUDGET).0))
  {
    CollectableFromInv(layout, closed, s, p);
    assert p < |s.m.gray|;
    hide Inv, Mark;
    StepOk(layout, closed, s, MarkOp(p, BUDGET));
  }

  lemma {:induction false} MarkedOk(layout: seq<nat>, closed: set<nat>, s: State, p: nat, calls: nat)
    requires Inv(layout, closed, s) && p < |s.g.chain|
    ensures NoDangling(s.g) && ChainsOk(s.g) && MarksOk(s.g, s.m) && p < |s.m.gray|
    ensures Inv(layout, closed, s.(m := MarkWhile(s.g, Prot(s), s.m, p, BUDGET, calls).0))
    decreases calls
  {
    hide Inv, Mark, Prot, NoDangling, ChainsOk, MarksOk;
    MarkKeepsInv(layout, closed, s, p);
    if calls == 0 {
      assert s.(m := s.m) == s;
    } else {
      var r := Mark(s.g, Prot(s), s.m, p, BUDGET);
      var s1 := s.(m := r.0);
      SameProt(s, r.0);
      if !r.1 {
        MarkedOk(layout, closed, s1, p, calls - 1);
      }
    }
  }

  lemma SameProt(s: State, m: Marks)
    ensures Prot(s.(m := m)) == Prot(s)
  {
  }

  /**
   `garbage_collect` at any point of a run: afterwards every node that a root or local reaches is still there,
   nothing dangles, and the counters have dropped by the layout sizes of what went. From a sound start - always,
   when the partition is not mid-cycle - every other node of the partition is gone from memory.
   */
  lemma CollectionLeavesTheLive(layout: seq<nat>, closed: set<nat>, s: State, p: nat, n: Ptr)
    requires Inv(layout, closed, s) && p in closed && p < |s.g.chain|
    requires Linked(s.g, n) && s.g.part[n] == p
    ensures Collectable(layout, s, p)
    ensures var s' := Collected(layout, s, p);
            && (Live(s, n) ==> Linked(s'.g, n))
            && (!Live(s, n) && StartsSound(s, p) ==> n !in s'.g.part)
            && (!s.m.marking[p] ==> StartsSound(s, p))
            && NoDangling(s'.g)
            && s'.acc.total == s.acc.total - A.Bytes(Elems(Garbage(s, p)), s.g.dtype, layout)
  {
    CollectedOk(layout, closed, s, p);
    CollectionIsExact(layout, closed, s, p, BUDGET);
    hide Inv, MarkWhile, Reach, CallBound, Nodes, StartsSound, Dead;
    assert StartsSound(s, p) ==> (n in Dead(s.g, Prot(s), Marked(s, p).m, p) <==> !Live(s, n));
    WhatCollectedKeeps(layout, s, p, n);
    assert NoDangling(Collected(layout, s, p).g) by { DanglingFromInv(layout, closed, Collected(layout, s, p)); }
  }

  /** No unreachable node of `p` is left in memory by a collection of it. */
  ghost predicate LeavesNoGarbage(layout: seq<nat>, s: State, p: nat)
    requires Collectable(layout, s, p)
  {
    forall n :: Linked(s.g, n) && s.g.part[n] == p && !Live(s, n) ==> n !in Collected(layout, s, p).g.part
  }

  /** A collection frees all of the partition's garbage exactly when it starts sound. */
  lemma CollectionFreesAllGarbageIff(layout: seq<nat>, closed: set<nat>, s: State, p: nat)
    requires Inv(layout, closed, s) && p in closed && p < |s.g.chain|
    ensures Collectable(layout, s, p)
    ensures LeavesNoGarbage(layout, s, p) <==> StartsSound(s, p)
  {
    CollectedOk(layout, closed, s, p);
    CollectionIsExact(layout, closed, s, p, BUDGET);
    hide Inv, MarkWhile, Reach, CallBound, Nodes, StartsSound, Dead, Collected;
    var dead := Dead(s.g, Prot(s), Marked(s, p).m, p);
    forall n | Linked(s.g, n) && s.g.part[n] == p
      ensures n in Collected(layout, s, p).g.part <==> n !in dead
    {
      WhatCollectedKeeps(layout, s, p, n);
    }
    assert TakesExactlyGarbage(s.g, Prot(s), Marked(s, p).m, p) <==> LeavesNoGarbage(layout, s, p);
  }

  lemma DanglingFromInv(layout: seq<nat>, closed: set<nat>, s: State)
    requires Inv(layout, closed, s)
    ensures NoDangling(s.g)
  {
  }

  /** A collection frees exactly the dead nodes of its partition. */
  lemma WhatCollectedKeeps(layout: seq<nat>, s: State, p: nat, n: Ptr)
    requires Collectable(layout, s, p) && Linked(s.g, n) && s.g.part[n] == p && CanUnlink(Marked(s, p).m, p)
    ensures var s', s1 := Collected(layout, s, p), Marked(s, p);
            && (n in Dead(s1.g, Prot(s1), s1.m, p) ==> n !in s'.g.part)
            && (n !in Dead(s1.g, Prot(s1), s1.m, p) ==> Linked(s'.g, n))
            && s'.acc.total == s.acc.total - A.Bytes(Elems(Garbage(s, p)), s.g.dtype, layout)
  {
    hide A.AccountsOk, A.LimitOk, MarkWhile, A.Bytes, Dead, MarksOk, NoDangling;
    GarbageOk(layout, s, p);
    InChainIff(s.g, p);
    hide ChainsOk;
    var s1, ns := Marked(s, p), Garbage(s, p);
    assert n in s.g.chain[p];
    assert n in Elems(ns) <==> n in Dead(s1.g, Prot(s1), s1.m, p);
    hide Keep;
  }

  lemma InChainIff(g: Graph, p: nat)
    requires ChainsOk(g) && p < |g.chain|
    ensures forall n {:trigger n in g.chain[p]} :: n in g.chain[p] <==> Linked(g, n) && g.part[n] == p
  {
  }

  /**
   The tri-colour invariant after any run: while a partition nothing points into is marking, its Gray nodes are
   listed, its roots and locals are not White, and none of its Black nodes has a White child; when it is not
   marking, its gray list is empty.
   */
  lemma RunKeepsTricolor(layout: seq<nat>, closed: set<nat>, ops: seq<Op>, q: nat, n: Ptr, k: Ptr)
    requires LegalRun(layout, closed, ops) && q in closed && q < |After(layout, closed, ops).g.chain|
    requires Linked(After(layout, closed, ops).g, n) && After(layout, closed, ops).g.part[n] == q
    ensures var s := After(layout, closed, ops);
            && q < |s.m.marking| == |s.m.gray| && n in s.m.color && (k in s.m.color <==> k in s.g.part)
            && (!s.m.marking[q] ==> s.m.gray[q] == [])
            && (s.m.marking[q] ==>
                  && (s.m.color[n] == Gray ==> n in s.m.gray[q])
                  && (n in Prot(s) ==> s.m.color[n] != White)
                  && (Edge(s.g, n, k) && s.m.color[n] == Black ==> Linked(s.g, k) && (s.g.part[k] == q ==> s.m.color[k] != White)))
  {
    hide *;
    TricolorFromInv(layout, closed, After(layout, closed, ops), q, n, k);
  }

  lemma TricolorFromInv(layout: seq<nat>, closed: set<nat>, s: State, q: nat, n: Ptr, k: Ptr)
    requires Inv(layout, closed, s) && q in closed && q < |s.g.chain| && Linked(s.g, n) && s.g.part[n] == q
    ensures q < |s.m.marking| == |s.m.gray| && n in s.m.color && (k in s.m.color <==> k in s.g.part)
    ensures !s.m.marking[q] ==> s.m.gray[q] == []
    ensures s.m.marking[q] ==>
              && (s.m.color[n] == Gray ==> n in s.m.gray[q])
              && (n in Prot(s) ==> s.m.color[n] != White)
              && (Edge(s.g, n, k) && s.m.color[n] == Black ==> Linked(s.g, k) && (s.g.part[k] == q ==> s.m.color[k] != White))
  {
    hide S.ScopesOk, W.WeakOk, A.AccountsOk, A.LimitOk, ChainsOk, NoInbound;
    assert Guarded(s, q);
  }

  /** Conservation and the limit, after any run: counters add up, and a set limit holds. */
  lemma RunKeepsAccounts(layout: seq<nat>, closed: set<nat>, ops: seq<Op>, p: nat)
    requires LegalRun(layout, closed, ops)
    requires p < |After(layout, closed, ops).g.chain|
    ensures var s := After(layout, closed, ops);
            && |s.acc.used| == |s.g.chain| && s.acc.total == A.Sum(s.acc.used)
            && s.acc.used[p] == A.Bytes(A.InPartition(s.g, p), s.g.dtype, layout)
            && (s.acc.limit > 0 ==> s.acc.total <= s.acc.limit)
            && (s.acc.limit > 0 && s.acc.threshold > 0 ==>
                  s.acc.threshold < s.acc.limit || s.acc.threshold == A.MIN_GC_THRESHOLD)
  {
    hide *;
    AccountsFromInv(layout, closed, After(layout, closed, ops), p);
  }

  lemma AccountsFromInv(layout: seq<nat>, closed: set<nat>, s: State, p: nat)
    requires Inv(layout, closed, s) && p < |s.g.chain|
    ensures |s.acc.used| == |s.g.chain| && s.acc.total == A.Sum(s.acc.used)
    ensures s.acc.used[p] == A.Bytes(A.InPartition(s.g, p), s.g.dtype, layout)
    ensures s.acc.limit > 0 ==> s.acc.total <= s.acc.limit
    ensures s.acc.limit > 0 && s.acc.threshold > 0 ==>
              s.acc.threshold < s.acc.limit || s.acc.threshold == A.MIN_GC_THRESHOLD
  {
  }

  /**
   Weak references over runs: take a handle to `n`, then run anything legal. If the handle upgrades, it gives
   `n`'s slot's latest node, and that is the issue the handle was made for unless the slot has been re-issued
   a positive multiple of 255 times since.
   */
  lemma HandleAfterRun(layout: seq<nat>, closed: set<nat>, s: State, n: Ptr, ops: seq<Op>)
    requires Inv(layout, closed, s) && n in s.g.part && s.weak.ids[n].version != 0
    requires Legal(layout, closed, s, ops)
    ensures var id := s.weak.ids[n];
            var w' := Exec(layout, closed, s, ops).weak;
            && id.index < |s.weak.issued| <= |w'.issued|
            && (var again := |w'.issued[id.index]| - |s.weak.issued[id.index]|;
                && again >= 0
                && (W.Upgrade(w', id).Some? ==> again % 255 == 0)
                && (W.Upgrade(w', id).Some? && again < 255 ==> W.Upgrade(w', id) == Some(n)))
  {
    hide S.ScopesOk, A.AccountsOk, A.LimitOk, ChainsOk, Safe, NoInbound, NoDangling, MarksOk, Legal, Exec;
    var w, w' := s.weak, Exec(layout, closed, s, ops).weak;
    var i := w.ids[n].index;
    assert w.slots[i] == W.Slot(w.ids[n].version, Some(n));
    assert |w.issued[i]| <= |w'.issued[i]|;
    W.StaleHandle(Exec(layout, closed, s, ops).g.part.Keys, w, w', i, |w.issued[i]|);
  }

  lemma AllocKeepsId(layout: seq<nat>, closed: set<nat>, s: State, op: Op, n: Ptr)
    requires Inv(layout, closed, s) && Enabled(layout, closed, s, op) && n in s.g.part && op.AllocOp?
    requires n in s.weak.ids && s.weak.ids[n].version != 0 && n in Step(layout, closed, s, op).g.part
    ensures var w' := Step(layout, closed, s, op).weak; n in w'.ids && w'.ids[n] == s.weak.ids[n]
  {
    hide Inv;
  }

  lemma DisposeKeepsId(layout: seq<nat>, closed: set<nat>, s: State, op: Op, n: Ptr)
    requires Inv(layout, closed, s) && Enabled(layout, closed, s, op) && n in s.g.part && op.DisposeOp?
    requires n in s.weak.ids && s.weak.ids[n].version != 0 && n in Step(layout, closed, s, op).g.part
    ensures var w' := Step(layout, closed, s, op).weak; n in w'.ids && w'.ids[n] == s.weak.ids[n]
  {
    hide Inv, A.Bytes;
  }

  lemma DowngradeKeepsId(layout: seq<nat>, closed: set<nat>, s: State, op: Op, n: Ptr)
    requires Inv(layout, closed, s) && Enabled(layout, closed, s, op) && n in s.g.part && op.DowngradeOp?
    requires n in s.weak.ids && s.weak.ids[n].version != 0 && n in Step(layout, closed, s, op).g.part
    ensures var w' := Step(layout, closed, s, op).weak; n in w'.ids && w'.ids[n] == s.weak.ids[n]
  {
    hide Inv;
  }

  lemma RemoveKeepsId(layout: seq<nat>, closed: set<nat>, s: State, op: Op, n: Ptr)
    requires Inv(layout, closed, s) && Enabled(layout, closed, s, op) && n in s.g.part && op.RemoveOp?
    requires n in s.weak.ids && s.weak.ids[n].version != 0 && n in Step(layout, closed, s, op).g.part
    ensures var w' := Step(layout, closed, s, op).weak; n in w'.ids && w'.ids[n] == s.weak.ids[n]
  {
    hide Inv, A.Bytes;
  }

  /** An identifier once given stays while its node is in memory. */
  lemma StepKeepsId(layout: seq<nat>, closed: set<nat>, s: State, op: Op, n: Ptr)
    requires Inv(layout, closed, s) && Enabled(layout, closed, s, op)
    requires n in s.weak.ids && s.weak.ids[n].version != 0 && n in Step(layout, closed, s, op).g.part
    ensures var w' := Step(layout, closed, s, op).weak; n in w'.ids && w'.ids[n] == s.weak.ids[n]
  {
    hide Inv, Step, Enabled;
    IdInMemory(layout, closed, s, n);
    match op {
      case AllocOp(_, _, _, _, _) => AllocKeepsId(layout, closed, s, op, n);
      case DisposeOp(_, _) => DisposeKeepsId(layout, closed, s, op, n);
      case DowngradeOp(_) => DowngradeKeepsId(layout, closed, s, op, n);
      case RemoveOp(_) => RemoveKeepsId(layout, closed, s, op, n);
      case _ => WeakUntouched(layout, closed, s, op);
    }
  }

  lemma IdInMemory(layout: seq<nat>, closed: set<nat>, s: State, n: Ptr)
    requires Inv(layout, closed, s) && n in s.weak.ids
    ensures n in s.g.part
  {
    hide S.ScopesOk, A.AccountsOk, A.LimitOk, ChainsOk, Safe, NoInbound, NoDangling, MarksOk;
  }

  /** `n` is in memory now and after every operation. */
  ghost predicate Stays(layout: seq<nat>, closed: set<nat>, s: State, ops: seq<Op>, n: Ptr)
    requires Inv(layout, closed, s) && Legal(layout, closed, s, ops)
    decreases |ops|
  {
    n in s.g.part
    && (ops != [] ==> (StepOk(layout, closed, s, ops[0]);
                       Stays(layout, closed, Step(layout, closed, s, ops[0]), ops[1..], n)))
  }

  /** A handle to `n` taken before any run still upgrades to `n` after it, as long as `n` has stayed in memory. */
  lemma {:induction false} HandleStaysGood(layout: seq<nat>, closed: set<nat>, s: State, ops: seq<Op>, n: Ptr)
    requires Inv(layout, closed, s) && Legal(layout, closed, s, ops) && Stays(layout, closed, s, ops, n)
    requires n in s.weak.ids && s.weak.ids[n].version != 0
    ensures W.Upgrade(Exec(layout, closed, s, ops).weak, s.weak.ids[n]) == Some(n)
    decreases |ops|
  {
    if ops == [] {
      UpgradesNow(layout, closed, s, n);
    } else {
      StepOk(layout, closed, s, ops[0]);
      var s1 := Step(layout, closed, s, ops[0]);
      assert n in s1.g.part;
      hide Inv, Step, Enabled, W.Upgrade;
      StepKeepsId(layout, closed, s, ops[0], n);
      HandleStaysGood(layout, closed, s1, ops[1..], n);
    }
  }

  lemma UpgradesNow(layout: seq<nat>, closed: set<nat>, s: State, n: Ptr)
    requires Inv(layout, closed, s) && n in s.weak.ids && s.weak.ids[n].version != 0
    ensures W.Upgrade(s.weak, s.weak.ids[n]) == Some(n)
  {
    hide S.ScopesOk, A.AccountsOk, A.LimitOk, ChainsOk, Safe, NoInbound, NoDangling, MarksOk;
    W.LiveHandleUpgrades(s.g.part.Keys, s.weak, n);
  }

  /** With no unlinked node awaiting disposal, upgrading never yields a node the collector has given up. */
  lemma UpgradeGivesLinkedNode(layout: seq<nat>, closed: set<nat>, s: State, id: W.WeakId)
    requires Inv(layout, closed, s) && (forall n :: !InLimbo(s.g, n)) && W.Upgrade(s.weak, id).Some?
    ensures Linked(s.g, W.Upgrade(s.weak, id).value)
  {
    var n := W.Upgrade(s.weak, id).value;
    assert s.weak.slots[id.index].node == Some(n);
    assert !InLimbo(s.g, n);
  }
}
