/**
 Completeness of the heap-wide cycle with the program running: what was garbage when `mark_prepare` ran is taken by
 the sweeps, as long as the program uses only nodes it can reach or has allocated since.
 */
module Snapshot {
  import opened Basics
  import opened Graphs
  import opened Marking
  import opened Tricolor
  import opened Sweep
  import opened Machine
  import opened Preservation
  import opened Runs
  import opened Global
  import opened Rounds
  import A = Accounting
  import S = Scopes
  import W = Weak

  /** The nodes of `G` are linked, White and unprotected, and nothing outside `G` points into it. */
  ghost predicate Outcast(g: Graph, prot: set<Ptr>, m: Marks, G: set<Ptr>)
    requires MarksOk(g, m)
  {
    && G <= g.linked && G !! prot
    && (forall n {:trigger m.color[n]} :: n in G && n in m.color ==> m.color[n] == White)
    && (forall n, k {:trigger Edge(g, n, k)} :: Edge(g, n, k) && k in G ==> n in G)
  }

  /** What the program may hold: what is live, and what it has allocated in this cycle. */
  ghost predicate Handy(s: State, born: set<Ptr>, n: Ptr) {
    Live(s, n) || n in born
  }

  /** The program roots, protects, binds and stores only such nodes, or leaves a child where it was. */
  ghost predicate UsesHandy(s: State, born: set<Ptr>, op: Op) {
    match op
    case AllocOp(_, _, kids, _, _) => forall k :: k in kids ==> Handy(s, born, k)
    case RootOp(n) => Handy(s, born, n)
    case WriteOp(n, kids) => forall k :: k in kids ==> Handy(s, born, k) || (n in s.g.kids && k in s.g.kids[n])
    case BindOp(_, slave, _) => Handy(s, born, slave)
    case ProtectOp(_, n) => Handy(s, born, n)
    case _ => true
  }

  ghost function Born(s: State, s': State, born: set<Ptr>): set<Ptr> {
    born + (s'.g.part.Keys - s.g.part.Keys)
  }

  // ---- outcasts cannot be reached ----

  lemma HandyIsNoOutcast(s: State, born: set<Ptr>, G: set<Ptr>, n: Ptr)
    requires MarksOk(s.g, s.m) && NoDangling(s.g) && Outcast(s.g, Prot(s), s.m, G) && born !! G && Handy(s, born, n)
    ensures n !in G
  {
    if Live(s, n) {
      hide Reach;
      ReachLeast(s.g, Prot(s), Everywhere(s.g), s.g.linked - G, n);
    }
  }

  // ---- what each change does to them ----

  lemma {:induction false} LoopLeavesOutcasts(g: Graph, prot: set<Ptr>, m: Marks, p: nat, budget: nat, G: set<Ptr>)
    requires NoDangling(g) && MarksOk(g, m) && p < |m.gray| && Outcast(g, prot, m, G)
    ensures MarksOk(g, MarkLoop(g, m, p, budget).0) && Outcast(g, prot, MarkLoop(g, m, p, budget).0, G)
    decreases |NonBlack(g, m, p)|, |m.gray[p]|
  {
    hide Scan;
    if m.gray[p] != [] {
      PopOk(g, m, p);
      if !GrayTop(g, m, p) {
        LoopLeavesOutcasts(g, prot, Pop(m, p), p, budget, G);
      } else if budget > 0 {
        ScanOk(g, m, p);
        ScanLeavesOutcasts(g, prot, m, p, G);
        LoopLeavesOutcasts(g, prot, Scan(g, m, p), p, budget - 1, G);
      }
    }
  }

  lemma ScanLeavesOutcasts(g: Graph, prot: set<Ptr>, m: Marks, p: nat, G: set<Ptr>)
    requires NoDangling(g) && MarksOk(g, m) && p < |m.gray| && m.gray[p] != [] && GrayTop(g, m, p) && Outcast(g, prot, m, G)
    ensures MarksOk(g, Scan(g, m, p)) && Outcast(g, prot, Scan(g, m, p), G)
  {
    ScanOk(g, m, p);
    PopOk(g, m, p);
    ScanOrderLinked(g, Top(m, p));
    forall k | k in ScanOrder(g, Top(m, p)) ensures k !in G {
      assert Edge(g, Top(m, p), k);
    }
  }

  lemma EnlistLeavesOutcasts(g: Graph, prot: set<Ptr>, m: Marks, q: nat, n: Ptr, G: set<Ptr>)
    requires MarksOk(g, m) && n in m.color && q < |m.gray| && n !in G && Outcast(g, prot, m, G) && MarksOk(g, Enlist(m, q, n))
    ensures Outcast(g, prot + {n}, Enlist(m, q, n), G)
  {
  }

  lemma RecolorLeavesOutcasts(g: Graph, prot: set<Ptr>, m: Marks, m': Marks, G: set<Ptr>)
    requires MarksOk(g, m) && MarksOk(g, m') && Outcast(g, prot, m, G)
    requires forall n :: n in G && n in m.color ==> m'.color[n] == m.color[n]
    ensures Outcast(g, prot, m', G)
  {
  }

  lemma StoreLeavesOutcasts(g: Graph, prot: set<Ptr>, m: Marks, n: Ptr, kids: seq<Ptr>, G: set<Ptr>)
    requires MarksOk(g, m) && Linked(g, n) && Outcast(g, prot, m, G)
    requires n !in G ==> forall k :: k in kids ==> k !in G
    ensures var g' := g.(kids := g.kids[n := kids]); MarksOk(g', m) && Outcast(g', prot, m, G)
  {
    var g' := g.(kids := g.kids[n := kids]);
    forall x, k | Edge(g', x, k) && k in G ensures x in G {
      if x != n { assert Edge(g, x, k); }
    }
  }

  lemma AttachLeavesOutcasts(g: Graph, prot: set<Ptr>, m: Marks, p: nat, n: Ptr, kids: seq<Ptr>, dtype: nat, G: set<Ptr>)
    requires MarksOk(g, m) && p < |g.chain| && n !in g.part && Outcast(g, prot, m, G)
    requires forall k :: k in kids ==> k !in G
    ensures n !in G
    ensures var g', m' := Attach(g, p, n, kids, dtype), m.(color := m.color[n := White]);
            MarksOk(g', m') && Outcast(g', prot, m', G)
  {
    var g' := Attach(g, p, n, kids, dtype);
    AttachMarksOk(g, m, p, n, kids, dtype);
    forall x, k | Edge(g', x, k) && k in G ensures x in G {
      assert x != n && Edge(g, x, k);
    }
  }

  lemma FreeLeavesOutcasts(g: Graph, prot: set<Ptr>, m: Marks, gone: set<Ptr>, G: set<Ptr>)
    requires MarksOk(g, m) && gone !! g.linked && Outcast(g, prot, m, G)
    ensures var g', m' := Free(g, gone), m.(color := m.color - gone); MarksOk(g', m') && Outcast(g', prot, m', G)
  {
    var g' := Free(g, gone);
    FreeMarksOk(g, m, gone);
    forall x, k | Edge(g', x, k) && k in G ensures x in G {
      assert Edge(g, x, k);
    }
  }

  lemma FewerLeavesOutcasts(g: Graph, prot: set<Ptr>, prot': set<Ptr>, m: Marks, G: set<Ptr>)
    requires MarksOk(g, m) && Outcast(g, prot, m, G) && prot' <= prot
    ensures Outcast(g, prot', m, G)
  {
  }

  // ---- every step ----

  ghost predicate LeftOut(s: State, G: set<Ptr>)
    requires MarksOk(s.g, s.m)
  {
    Outcast(s.g, Prot(s), s.m, G)
  }

  lemma BarrierLeavesOutcasts(g: Graph, prot: set<Ptr>, m: Marks, n: Ptr, G: set<Ptr>)
    requires MarksOk(g, m) && Linked(g, n) && Outcast(g, prot, m, G)
    ensures MarksOk(g, Barrier(g, m, n)) && Outcast(g, prot, Barrier(g, m, n), G)
  {
    BarrierMarksOk(g, m, n);
    assert m.color[n] == Black ==> n !in G;
    RecolorLeavesOutcasts(g, prot, m, Barrier(g, m, n), G);
  }

  lemma BindLeavesOutcasts(g: Graph, prot: set<Ptr>, m: Marks, master: Ptr, slave: Ptr, G: set<Ptr>)
    requires MarksOk(g, m) && Linked(g, master) && Linked(g, slave) && slave !in G && Outcast(g, prot, m, G)
    ensures MarksOk(g, BindMarks(g, m, master, slave)) && Outcast(g, prot, BindMarks(g, m, master, slave), G)
  {
    BindMarksOk(g, m, master, slave);
    BindForm(g, m, master, slave);
    hide BindMarks;
    RecolorLeavesOutcasts(g, prot, m, BindMarks(g, m, master, slave), G);
  }

  /** No outcast is among the children a node outside has. */
  lemma KidsOutside(g: Graph, prot: set<Ptr>, m: Marks, G: set<Ptr>, n: Ptr)
    requires MarksOk(g, m) && Outcast(g, prot, m, G) && Linked(g, n) && n !in G && n in g.kids
    ensures forall k :: k in g.kids[n] ==> k !in G
  {
    forall k | k in g.kids[n] ensures k !in G {
      assert Edge(g, n, k);
    }
  }

  lemma RootedLeaves(s: State, n: Ptr, G: set<Ptr>)
    requires MarksOk(s.g, s.m) && Linked(s.g, n) && LeftOut(s, G) && n !in G
    ensures n in s.m.color && s.g.part[n] < |s.m.gray| == |s.m.marking|
    ensures var s' := Rooted(s, n); MarksOk(s'.g, s'.m) && LeftOut(s', G)
  {
    hide Outcast;
    EnlistOk(s.g, s.m, n);
    EnlistLeavesOutcasts(s.g, Prot(s), s.m, s.g.part[n], n, G);
    RootedStill(s, n, G);
    assert Prot(Rooted(s, n)) == Prot(s) + {n};
  }

  lemma RootedStill(s: State, n: Ptr, G: set<Ptr>)
    requires MarksOk(s.g, s.m) && LeftOut(s, G) && n !in G
    ensures Outcast(s.g, Prot(s) + {n}, s.m, G)
  {
  }

  lemma RootLeaves(layout: seq<nat>, s: State, n: Ptr, G: set<Ptr>)
    requires Inv(layout, {}, s) && Enabled(layout, {}, s, RootOp(n)) && LeftOut(s, G) && n !in G
    ensures var s' := Step(layout, {}, s, RootOp(n)); MarksOk(s'.g, s'.m) && LeftOut(s', G)
  {
    hide Inv, Rooted, LeftOut, MarksOk;
    InvParts(layout, s);
    RootedLeaves(s, n, G);
  }

  lemma MarkingLeaves(layout: seq<nat>, s: State, op: Op, G: set<Ptr>)
    requires Inv(layout, {}, s) && Enabled(layout, {}, s, op) && CycleOn(s) && LeftOut(s, G)
    requires op.MarkOp? || op.PrepareOp? || op.GraysOp?
    ensures var s' := Step(layout, {}, s, op); MarksOk(s'.g, s'.m) && LeftOut(s', G)
  {
    hide Inv, Outcast, MarkLoop, Tri;
    InvParts(layout, s);
    if !op.PrepareOp? { LoopLeavesOutcasts(s.g, Prot(s), s.m, op.p, op.budget, G); }
    assert !op.GraysOp? ==> Prepare(s.g, Prot(s), s.m, op.p) == s.m;
  }

  lemma AllocatedLeaves(s: State, p: nat, n: Ptr, kids: seq<Ptr>, dtype: nat, size: nat, G: set<Ptr>)
    requires MarksOk(s.g, s.m) && LeftOut(s, G) && p < |s.g.chain| && p < |s.acc.used| && n !in s.g.part
    requires forall k :: k in kids ==> k !in G
    ensures var s' := Allocated(s, p, n, kids, dtype, size);
            MarksOk(s'.g, s'.m) && LeftOut(s', G) && Linked(s'.g, n) && n !in G
  {
    hide MarksOk, Outcast;
    AttachLeavesOutcasts(s.g, Prot(s), s.m, p, n, kids, dtype, G);
  }

  lemma AllocLeaves(layout: seq<nat>, s: State, op: Op, G: set<Ptr>)
    requires Inv(layout, {}, s) && op.AllocOp? && Enabled(layout, {}, s, op) && LeftOut(s, G)
    requires forall k :: k in op.kids ==> k !in G
    ensures var s' := Step(layout, {}, s, op); MarksOk(s'.g, s'.m) && LeftOut(s', G)
  {
    hide Inv, LeftOut, MarksOk, Allocated, Rooted;
    InvParts(layout, s);
    if op.p < |s.g.chain| && !A.OverLimit(s.acc, layout[op.dtype]) {
      AllocatedLeaves(s, op.p, op.addr, op.kids, op.dtype, layout[op.dtype], G);
      RootedLeaves(Allocated(s, op.p, op.addr, op.kids, op.dtype, layout[op.dtype]), op.addr, G);
    }
  }

  lemma WriteLeaves(layout: seq<nat>, s: State, n: Ptr, kids: seq<Ptr>, G: set<Ptr>)
    requires Inv(layout, {}, s) && Enabled(layout, {}, s, WriteOp(n, kids)) && LeftOut(s, G)
    requires n !in G ==> forall k :: k in kids ==> k !in G
    ensures var s' := Step(layout, {}, s, WriteOp(n, kids)); MarksOk(s'.g, s'.m) && LeftOut(s', G)
  {
    hide Inv, Outcast, MarksOk, Barrier;
    InvParts(layout, s);
    BarrierLeavesOutcasts(s.g, Prot(s), s.m, n, G);
    StoreLeavesOutcasts(s.g, Prot(s), Barrier(s.g, s.m, n), n, kids, G);
  }

  lemma BindLeaves(layout: seq<nat>, s: State, master: Ptr, slave: Ptr, kids: seq<Ptr>, G: set<Ptr>)
    requires Inv(layout, {}, s) && Enabled(layout, {}, s, BindOp(master, slave, kids)) && LeftOut(s, G) && slave !in G
    ensures var s' := Step(layout, {}, s, BindOp(master, slave, kids)); MarksOk(s'.g, s'.m) && LeftOut(s', G)
  {
    hide Inv, Outcast, MarksOk, BindMarks;
    InvParts(layout, s);
    if master !in G { KidsOutside(s.g, Prot(s), s.m, G, master); }
    BindLeavesOutcasts(s.g, Prot(s), s.m, master, slave, G);
    StoreLeavesOutcasts(s.g, Prot(s), BindMarks(s.g, s.m, master, slave), master, kids, G);
  }

  lemma ProtectedLeaves(s: State, at: S.Place, n: Ptr, G: set<Ptr>)
    requires MarksOk(s.g, s.m) && LeftOut(s, G) && S.IsScope(s.scopes.stacks, at) && Linked(s.g, n) && n !in G
    requires MayShade(Everywhere(s.g), s.g, s.m, S.ScopeAt(s.scopes.stacks, at).pid, n)
    ensures n in s.m.color && |s.m.gray| == |s.m.marking|
    ensures var s' := Protected(s, at, n); MarksOk(s'.g, s'.m) && LeftOut(s', G)
  {
    hide Outcast, MayShade;
    var q := S.ScopeAt(s.scopes.stacks, at).pid;
    ProtectMarksOk(Everywhere(s.g), s.g, s.m, q, n);
    RootedStill(s, n, G);
    if q < |s.m.gray| && s.m.marking[q] { EnlistLeavesOutcasts(s.g, Prot(s), s.m, q, n, G); }
    assert Prot(Protected(s, at, n)) == Prot(s) + {n};
  }

  lemma ProtectLeaves(layout: seq<nat>, s: State, at: S.Place, n: Ptr, G: set<Ptr>)
    requires Inv(layout, {}, s) && Enabled(layout, {}, s, ProtectOp(at, n)) && DuringCycle(s, ProtectOp(at, n))
    requires LeftOut(s, G) && n !in G
    ensures var s' := Step(layout, {}, s, ProtectOp(at, n)); MarksOk(s'.g, s'.m) && LeftOut(s', G)
  {
    hide Inv, MarksOk, LeftOut, Protected, MayShade, Prot;
    InvParts(layout, s);
    ProtectedLeaves(s, at, n, G);
  }

  lemma DisposedLeaves(s: State, s': State, gone: set<Ptr>, G: set<Ptr>)
    requires MarksOk(s.g, s.m) && gone !! s.g.linked && LeftOut(s, G)
    requires s'.g == Free(s.g, gone) && s'.m == s.m.(color := s.m.color - gone) && Prot(s') <= Prot(s)
    ensures MarksOk(s'.g, s'.m) && LeftOut(s', G)
  {
    hide MarksOk, Free, Outcast, Prot;
    FreeLeavesOutcasts(s.g, Prot(s), s.m, gone, G);
    FewerLeavesOutcasts(s'.g, Prot(s), Prot(s'), s'.m, G);
  }

  lemma DisposeLeaves(layout: seq<nat>, s: State, p: nat, gone: set<Ptr>, G: set<Ptr>)
    requires Inv(layout, {}, s) && Enabled(layout, {}, s, DisposeOp(p, gone)) && LeftOut(s, G)
    ensures var s' := Step(layout, {}, s, DisposeOp(p, gone)); MarksOk(s'.g, s'.m) && LeftOut(s', G)
  {
    hide Inv, MarksOk, Free, LeftOut, A.Bytes, A.Release, W.Forget;
    InvParts(layout, s);
    DisposedLeaves(s, Step(layout, {}, s, DisposeOp(p, gone)), gone, G);
  }

  lemma QuietLeaves(layout: seq<nat>, s: State, op: Op, G: set<Ptr>)
    requires Inv(layout, {}, s) && Enabled(layout, {}, s, op) && LeftOut(s, G)
    requires ScopeOp(op) || op.DowngradeOp? || op.LimitOp? || op.ThresholdOp?
    ensures var s' := Step(layout, {}, s, op); MarksOk(s'.g, s'.m) && LeftOut(s', G)
  {
    hide Inv, Step, MarksOk, Outcast, Enabled;
    InvParts(layout, s);
    var s' := Step(layout, {}, s, op);
    if ScopeOp(op) {
      OnlyScopes(layout, {}, s, op);
      ScopeStepOk(layout, {}, s, op);
    } else {
      OnlyTables(layout, s, op);
    }
    FewerLeavesOutcasts(s.g, Prot(s), Prot(s'), s.m, G);
  }

  /** No step of a cycle shades, protects or points at an outcast. */
  lemma StepLeaves(layout: seq<nat>, s: State, op: Op, born: set<Ptr>, G: set<Ptr>)
    requires Inv(layout, {}, s) && Enabled(layout, {}, s, op) && DuringCycle(s, op) && CycleOn(s) && UsesHandy(s, born, op)
    requires LeftOut(s, G) && born !! G
    ensures var s' := Step(layout, {}, s, op); MarksOk(s'.g, s'.m) && LeftOut(s', G) && Born(s, s', born) !! G
  {
    hide Inv, Step, Enabled, CycleOn, Outcast, Handy, MarksOk, NoDangling;
    InvParts(layout, s);
    NoSweepNow(layout, s, op);
    assert G <= s.g.part.Keys by { OutcastsInMemory(s, G); }
    forall n | Handy(s, born, n) ensures n !in G {
      HandyIsNoOutcast(s, born, G, n);
    }
    match op {
      case MarkOp(_, _) => MarkingLeaves(layout, s, op, G);
      case PrepareOp(_) => MarkingLeaves(layout, s, op, G);
      case GraysOp(_, _) => MarkingLeaves(layout, s, op, G);
      case AllocOp(_, _, _, _, _) => AllocLeaves(layout, s, op, G);
      case RootOp(n) => RootLeaves(layout, s, n, G);
      case WriteOp(n, kids) =>
        if n !in G && n in s.g.kids && Linked(s.g, n) { KidsOutside(s.g, Prot(s), s.m, G, n); }
        EnabledStore(layout, s, n, kids);
        WriteLeaves(layout, s, n, kids, G);
      case BindOp(master, slave, kids) => BindLeaves(layout, s, master, slave, kids, G);
      case ProtectOp(at, n) => ProtectLeaves(layout, s, at, n, G);
      case DisposeOp(p, gone) => DisposeLeaves(layout, s, p, gone, G);
      case _ => QuietLeaves(layout, s, op, G);
    }
  }

  lemma NoSweepNow(layout: seq<nat>, s: State, op: Op)
    requires MarksOk(s.g, s.m) && Enabled(layout, {}, s, op)
    ensures !op.UnlinkOp? && !op.RemoveOp?
  {
  }

  lemma EnabledStore(layout: seq<nat>, s: State, n: Ptr, kids: seq<Ptr>)
    requires MarksOk(s.g, s.m) && Enabled(layout, {}, s, WriteOp(n, kids))
    ensures Linked(s.g, n) && n in s.g.kids
  {
  }

  lemma OutcastsInMemory(s: State, G: set<Ptr>)
    requires MarksOk(s.g, s.m) && LeftOut(s, G)
    ensures G <= s.g.part.Keys
  {
  }

  // ---- at the start and at the end ----

  /** The linked nodes that no root or local reaches. */
  ghost function Garbage(s: State): set<Ptr> {
    set n | n in s.g.linked && Linked(s.g, n) && !Live(s, n)
  }

  lemma GarbageIsOutcast(s: State, p: nat)
    requires ChainsOk(s.g) && NoDangling(s.g) && MarksOk(s.g, s.m) && p < |s.m.marking| && !s.m.marking[p]
    requires Drained(s.m, Everywhere(s.g))
    ensures MarksOk(s.g, Prepare(s.g, Prot(s), s.m, p))
    ensures Outcast(s.g, Prot(s), Prepare(s.g, Prot(s), s.m, p), Garbage(s))
  {
    hide Reach;
    PrepareOk(s.g, Prot(s), s.m, p);
    var all := Everywhere(s.g);
    forall n | n in Garbage(s) ensures n !in Prot(s) {
      if n in Prot(s) { ReachRoot(s.g, Prot(s), all, n); }
    }
    forall n, k | Edge(s.g, n, k) && k in Garbage(s) ensures n in Garbage(s) {
      if Live(s, n) { ReachStep(s.g, Prot(s), all, n, k); }
    }
    forall n | n in Garbage(s) ensures Prepare(s.g, Prot(s), s.m, p).color[n] == White {
      assert s.m.gray[s.g.part[n]] == [];
    }
  }

  /** Sweeping every partition takes every outcast. */
  lemma SweepsTakeOutcasts(g: Graph, prot: set<Ptr>, m: Marks, ps: seq<nat>, G: set<Ptr>, n: Ptr)
    requires ChainsOk(g) && MarksOk(g, m) && Outcast(g, prot, m, G) && n in G && AllOnce(g, ps)
    requires forall p :: p in ps ==> CanUnlink(m, p)
    ensures !Linked(UnlinkEach(g, prot, m, ps).0, n)
  {
    UnlinkEachTakesWhites(g, prot, m, ps);
    assert n in m.color && g.part[n] in ps;
  }

  // ---- whole cycles ----

  /** Throughout the run the program uses only what is handy. */
  ghost predicate HandyRun(layout: seq<nat>, s: State, ops: seq<Op>, born: set<Ptr>)
    requires Inv(layout, {}, s) && Legal(layout, {}, s, ops)
    decreases |ops|
  {
    ops == [] ||
    (UsesHandy(s, born, ops[0]) &&
     (StepOk(layout, {}, s, ops[0]);
      var s' := Step(layout, {}, s, ops[0]);
      HandyRun(layout, s', ops[1..], Born(s, s', born))))
  }

  lemma {:induction false} RunLeaves(layout: seq<nat>, s: State, ops: seq<Op>, born: set<Ptr>, G: set<Ptr>)
    requires Inv(layout, {}, s) && Legal(layout, {}, s, ops) && CycleRun(layout, s, ops) && HandyRun(layout, s, ops, born)
    requires CycleOn(s) && LeftOut(s, G) && born !! G
    ensures LeftOut(Exec(layout, {}, s, ops), G)
    decreases |ops|
  {
    hide Inv, Step, Enabled, CycleOn, DuringCycle, LeftOut, UsesHandy, Born, MarksOk;
    if ops != [] {
      StepOk(layout, {}, s, ops[0]);
      StepKeepsCycle(layout, s, ops[0]);
      StepLeaves(layout, s, ops[0], born, G);
      var s' := Step(layout, {}, s, ops[0]);
      RunLeaves(layout, s', ops[1..], Born(s, s', born), G);
    }
  }

  /** The program of a cycle uses only nodes it can reach or has allocated since `mark_prepare`. */
  ghost predicate HandyCycle(layout: seq<nat>, s: State, p: nat, ops: seq<Op>)
    requires Inv(layout, {}, s) && LegalCycle(layout, s, p, ops)
  {
    PrepareStartsCycle(layout, s, p);
    HandyRun(layout, Step(layout, {}, s, PrepareOp(p)), ops, {})
  }

  lemma PreparedLeaves(layout: seq<nat>, s: State, p: nat)
    requires Inv(layout, {}, s) && p < |s.g.chain| && !s.m.marking[p] && Drained(s.m, Everywhere(s.g))
    ensures var s1 := Step(layout, {}, s, PrepareOp(p)); MarksOk(s1.g, s1.m) && LeftOut(s1, Garbage(s))
  {
    hide S.ScopesOk, W.WeakOk, A.AccountsOk, A.LimitOk, ChainsOk, NoDangling, Outcast, Prepare, Garbage;
    GarbageIsOutcast(s, p);
  }

  /**
   Completeness of the concurrent cycle: a node that nothing reached when `mark_prepare` ran is gone after the sweeps,
   however marking and mutation were interleaved.
   */
  lemma CycleTakesOldGarbage(layout: seq<nat>, s: State, p: nat, ops: seq<Op>, ps: seq<nat>, n: Ptr)
    requires Inv(layout, {}, s) && LegalCycle(layout, s, p, ops) && HandyCycle(layout, s, p, ops)
    requires var s' := AfterCycle(layout, s, p, ops); Drained(s'.m, Everywhere(s'.g)) && AllOnce(s'.g, ps)
    requires Linked(s.g, n) && !Live(s, n)
    ensures !Linked(SweptAll(AfterCycle(layout, s, p, ops), ps).g, n)
  {
    hide Inv, CycleOn, Outcast, Live, Exec, Step, Legal, CycleRun, HandyRun, MarksOk, ChainsOk, UnlinkEach, Drained, AllOnce, Linked;
    InvParts(layout, s);
    PrepareStartsCycle(layout, s, p);
    PreparedLeaves(layout, s, p);
    RunLeaves(layout, Step(layout, {}, s, PrepareOp(p)), ops, {}, Garbage(s));
    var s' := AfterCycle(layout, s, p, ops);
    Sweepable(layout, s');
    SweptCanUnlink(s', ps);
    assert n in Garbage(s) by { IsGarbage(s, n); }
    SweepsTakeOutcasts(s'.g, Prot(s'), s'.m, ps, Garbage(s), n);
  }

  lemma IsGarbage(s: State, n: Ptr)
    requires Linked(s.g, n) && !Live(s, n)
    ensures n in Garbage(s)
  {
  }

  /** With safety: what is left of the nodes that were linked when the cycle began lies between live now and live then. */
  lemma CycleKeepsBetween(layout: seq<nat>, s: State, p: nat, ops: seq<Op>, ps: seq<nat>, n: Ptr)
    requires Inv(layout, {}, s) && LegalCycle(layout, s, p, ops) && HandyCycle(layout, s, p, ops)
    requires var s' := AfterCycle(layout, s, p, ops); Drained(s'.m, Everywhere(s'.g)) && AllOnce(s'.g, ps)
    requires Linked(s.g, n)
    ensures var s' := AfterCycle(layout, s, p, ops);
            && (Live(s', n) ==> Linked(SweptAll(s', ps).g, n))
            && (Linked(SweptAll(s', ps).g, n) ==> Live(s, n))
  {
    hide Inv, CycleOn, Live, AfterCycle, LegalCycle, HandyCycle, SweptAll, Drained, AllOnce, Linked;
    SweptAllOk(layout, AfterCycle(layout, s, p, ops), ps);
    if !Live(s, n) { CycleTakesOldGarbage(layout, s, p, ops, ps, n); }
  }
}
