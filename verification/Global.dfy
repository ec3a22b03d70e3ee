/**
 The heap-wide cycle with the program running: after one `mark_prepare` the program may mutate at will, with edges
 between any partitions, while any partitions are marked; once every stack is drained all of them can be swept.
 */
module Global {
  import opened Basics
  import opened Graphs
  import opened Marking
  import opened Tricolor
  import opened Sweep
  import opened Machine
  import opened Preservation
  import opened Runs
  import A = Accounting
  import S = Scopes
  import W = Weak

  /** Every partition is marking and the tri-colour invariant holds across the whole heap. */
  ghost predicate CycleOn(s: State)
    requires MarksOk(s.g, s.m)
  {
    AllMarking(s.m) && Tri(s.g, Prot(s), s.m, Everywhere(s.g))
  }

  /**
   What may run during the cycle: anything but a reset and a new partition. (With no closed partition, nothing is
   swept or removed either.) `add_node` must shade: a scope of a partition that does not exist would not.
   */
  ghost predicate DuringCycle(s: State, op: Op)
    requires MarksOk(s.g, s.m)
  {
    && !op.ResetOp? && !op.CreateOp?
    && (op.ProtectOp? && S.IsScope(s.scopes.stacks, op.at) && Linked(s.g, op.n) ==>
          MayShade(Everywhere(s.g), s.g, s.m, S.ScopeAt(s.scopes.stacks, op.at).pid, op.n))
  }

  // ---- what each change does to the invariant ----

  lemma TriFewer(g: Graph, prot: set<Ptr>, prot': set<Ptr>, m: Marks, P: set<nat>)
    requires MarksOk(g, m) && Tri(g, prot, m, P) && prot' <= prot
    ensures Tri(g, prot', m, P)
  {
  }

  lemma TriEnlist(g: Graph, prot: set<Ptr>, m: Marks, n: Ptr, P: set<nat>)
    requires MarksOk(g, m) && Linked(g, n) && Tri(g, prot, m, P)
    ensures var m' := Enlist(m, g.part[n], n); MarksOk(g, m') && Tri(g, prot + {n}, m', P)
  {
    EnlistOk(g, m, n);
    var m' := Enlist(m, g.part[n], n);
    assert m'.color[n] != White && (m'.color[n] == Gray ==> n in m'.gray[g.part[n]]);
    assert forall x :: x in m.color && x != n ==> m'.color[x] == m.color[x];
    assert forall q, x {:trigger x in m'.gray[q]} :: 0 <= q < |m.gray| && x in m.gray[q] ==> x in m'.gray[q];
  }

  lemma TriProtect(g: Graph, prot: set<Ptr>, m: Marks, q: nat, n: Ptr)
    requires MarksOk(g, m) && Linked(g, n) && AllMarking(m) && Tri(g, prot, m, Everywhere(g))
    requires MayShade(Everywhere(g), g, m, q, n)
    ensures var m' := ProtectedMarks(m, q, n); MarksOk(g, m') && Tri(g, prot + {n}, m', Everywhere(g))
  {
    ProtectMarksOk(Everywhere(g), g, m, q, n);
    if g.part[n] == q {
      TriEnlist(g, prot, m, n, Everywhere(g));
    }
  }

  lemma TriBarrier(g: Graph, prot: set<Ptr>, m: Marks, n: Ptr, P: set<nat>)
    requires MarksOk(g, m) && Linked(g, n) && AllMarking(m) && Tri(g, prot, m, P)
    ensures var m' := Barrier(g, m, n);
            MarksOk(g, m') && m'.marking == m.marking && m'.color[n] != Black && Tri(g, prot, m', P)
  {
    BarrierMarksOk(g, m, n);
    if m.color[n] == Black { TriRegray(g, prot, m, n, P); }
  }

  /** A Black node turned Gray and listed. */
  lemma TriRegray(g: Graph, prot: set<Ptr>, m: Marks, n: Ptr, P: set<nat>)
    requires MarksOk(g, m) && Linked(g, n) && Tri(g, prot, m, P)
    ensures var m' := Enlist(m.(color := m.color[n := Gray]), g.part[n], n); MarksOk(g, m') && Tri(g, prot, m', P)
  {
    EnlistOk(g, m.(color := m.color[n := Gray]), n);
    var m' := Enlist(m.(color := m.color[n := Gray]), g.part[n], n);
    assert m'.color == m.color[n := Gray] && n in m'.gray[g.part[n]];
    assert forall q, x {:trigger x in m'.gray[q]} :: 0 <= q < |m.gray| && x in m.gray[q] ==> x in m'.gray[q];
  }

  lemma TriStore(g: Graph, prot: set<Ptr>, m: Marks, n: Ptr, kids: seq<Ptr>, P: set<nat>)
    requires MarksOk(g, m) && Linked(g, n) && Tri(g, prot, m, P)
    requires m.color[n] == Black ==> forall k :: k in kids && Linked(g, k) && g.part[n] in P && g.part[k] in P ==> m.color[k] != White
    ensures var g' := g.(kids := g.kids[n := kids]); MarksOk(g', m) && Tri(g', prot, m, P)
  {
    var g' := g.(kids := g.kids[n := kids]);
    forall x, k | Edge(g', x, k) && Linked(g', k) && g'.part[x] in P && g'.part[k] in P && m.color[x] == Black
      ensures m.color[k] != White
    {
      if x != n { assert Edge(g, x, k); }
    }
  }

  lemma TriBind(g: Graph, prot: set<Ptr>, m: Marks, master: Ptr, slave: Ptr, P: set<nat>)
    requires MarksOk(g, m) && Linked(g, master) && Linked(g, slave) && AllMarking(m) && Tri(g, prot, m, P)
    ensures var m' := BindMarks(g, m, master, slave);
            && MarksOk(g, m') && m'.marking == m.marking && Tri(g, prot, m', P)
            && (m'.color[master] == Black ==> m.color[master] == Black && m'.color[slave] != White)
  {
    BindForm(g, m, master, slave);
    hide BindMarks;
    TriEnlist(g, prot, m, slave, P);
    TriFewer(g, prot + {slave}, prot, Enlist(m, g.part[slave], slave), P);
  }

  lemma TriAttach(g: Graph, prot: set<Ptr>, m: Marks, p: nat, n: Ptr, kids: seq<Ptr>, dtype: nat)
    requires MarksOk(g, m) && p < |g.chain| && n !in g.part && prot <= g.linked && NoDangling(g)
    requires Tri(g, prot, m, Everywhere(g))
    ensures var g', m' := Attach(g, p, n, kids, dtype), m.(color := m.color[n := White]);
            MarksOk(g', m') && Everywhere(g') == Everywhere(g) && Tri(g', prot, m', Everywhere(g'))
  {
    var g', m' := Attach(g, p, n, kids, dtype), m.(color := m.color[n := White]);
    AttachMarksOk(g, m, p, n, kids, dtype);
    forall x, k | Edge(g', x, k) && Linked(g', k) && m'.color[x] == Black ensures m'.color[k] != White {
      assert x != n && Edge(g, x, k) && Linked(g, k);
    }
  }

  lemma TriFree(g: Graph, prot: set<Ptr>, m: Marks, gone: set<Ptr>)
    requires MarksOk(g, m) && gone !! g.linked && Tri(g, prot, m, Everywhere(g))
    ensures var g', m' := Free(g, gone), m.(color := m.color - gone);
            MarksOk(g', m') && Everywhere(g') == Everywhere(g) && Tri(g', prot, m', Everywhere(g'))
  {
    var g', m' := Free(g, gone), m.(color := m.color - gone);
    FreeMarksOk(g, m, gone);
    forall x, k | Edge(g', x, k) && Linked(g', k) && m'.color[x] == Black ensures m'.color[k] != White {
      assert Edge(g, x, k);
    }
  }

  // ---- every step keeps the cycle on ----

  lemma InvParts(layout: seq<nat>, s: State)
    requires Inv(layout, {}, s)
    ensures MarksOk(s.g, s.m) && NoDangling(s.g) && S.ScopesOk(s.g, s.scopes) && Prot(s) <= s.g.linked
    ensures |s.acc.used| == |s.g.chain|
  {
  }

  lemma StepKeepsCycle(layout: seq<nat>, s: State, op: Op)
    requires Inv(layout, {}, s) && Enabled(layout, {}, s, op) && DuringCycle(s, op) && CycleOn(s)
    ensures var s' := Step(layout, {}, s, op); MarksOk(s'.g, s'.m) && CycleOn(s')
  {
    StepOk(layout, {}, s, op);
    match op {
      case MarkOp(_, _) => MarkingKeepsCycle(layout, s, op);
      case PrepareOp(_) => MarkingKeepsCycle(layout, s, op);
      case GraysOp(_, _) => MarkingKeepsCycle(layout, s, op);
      case AllocOp(_, _, _, _, _) => AllocKeepsCycle(layout, s, op);
      case RootOp(n) => RootKeepsCycle(layout, s, n);
      case WriteOp(n, kids) => WriteKeepsCycle(layout, s, n, kids);
      case BindOp(master, slave, kids) => BindKeepsCycle(layout, s, master, slave, kids);
      case ProtectOp(at, n) => ProtectKeepsCycle(layout, s, at, n);
      case DisposeOp(p, gone) => DisposeKeepsCycle(layout, s, p, gone);
      case _ => QuietKeepsCycle(layout, s, op);
    }
  }

  lemma MarkingKeepsCycle(layout: seq<nat>, s: State, op: Op)
    requires Inv(layout, {}, s) && Enabled(layout, {}, s, op) && CycleOn(s)
    requires op.MarkOp? || op.PrepareOp? || op.GraysOp?
    ensures var s' := Step(layout, {}, s, op); MarksOk(s'.g, s'.m) && CycleOn(s')
  {
    hide S.ScopesOk, W.WeakOk, A.AccountsOk, A.LimitOk, ChainsOk, NoDangling, MarkLoop, Tri;
    if !op.PrepareOp? {
      MarkLoopOk(s.g, s.m, op.p, op.budget);
      MarkLoopTri(s.g, Prot(s), s.m, op.p, op.budget, Everywhere(s.g));
    }
    assert !op.GraysOp? ==> Prepare(s.g, Prot(s), s.m, op.p) == s.m;
  }

  lemma RootedKeepsCycle(s: State, n: Ptr)
    requires MarksOk(s.g, s.m) && Linked(s.g, n) && CycleOn(s)
    ensures n in s.m.color && s.g.part[n] < |s.m.gray| == |s.m.marking|
    ensures var s' := Rooted(s, n); MarksOk(s'.g, s'.m) && CycleOn(s')
  {
    hide Tri;
    TriEnlist(s.g, Prot(s), s.m, n, Everywhere(s.g));
    assert Prot(Rooted(s, n)) == Prot(s) + {n};
  }

  lemma RootKeepsCycle(layout: seq<nat>, s: State, n: Ptr)
    requires Inv(layout, {}, s) && Enabled(layout, {}, s, RootOp(n)) && CycleOn(s)
    ensures var s' := Step(layout, {}, s, RootOp(n)); MarksOk(s'.g, s'.m) && CycleOn(s')
  {
    hide Inv, Rooted, CycleOn, MarksOk;
    InvParts(layout, s);
    RootedKeepsCycle(s, n);
  }

  lemma AllocatedKeepsCycle(s: State, p: nat, n: Ptr, kids: seq<Ptr>, dtype: nat, size: nat)
    requires MarksOk(s.g, s.m) && NoDangling(s.g) && Prot(s) <= s.g.linked && CycleOn(s)
    requires p < |s.g.chain| && p < |s.acc.used| && n !in s.g.part
    ensures var s' := Allocated(s, p, n, kids, dtype, size); MarksOk(s'.g, s'.m) && CycleOn(s') && Linked(s'.g, n)
  {
    hide Tri, MarksOk, NoDangling;
    TriAttach(s.g, Prot(s), s.m, p, n, kids, dtype);
  }

  lemma AllocKeepsCycle(layout: seq<nat>, s: State, op: Op)
    requires Inv(layout, {}, s) && op.AllocOp? && Enabled(layout, {}, s, op) && CycleOn(s)
    ensures var s' := Step(layout, {}, s, op); MarksOk(s'.g, s'.m) && CycleOn(s')
  {
    hide Inv, CycleOn, MarksOk, NoDangling, Prot, Allocated, Rooted;
    InvParts(layout, s);
    if op.p < |s.g.chain| && !A.OverLimit(s.acc, layout[op.dtype]) {
      AllocatedKeepsCycle(s, op.p, op.addr, op.kids, op.dtype, layout[op.dtype]);
      RootedKeepsCycle(Allocated(s, op.p, op.addr, op.kids, op.dtype, layout[op.dtype]), op.addr);
    }
  }

  lemma WriteKeepsCycle(layout: seq<nat>, s: State, n: Ptr, kids: seq<Ptr>)
    requires Inv(layout, {}, s) && Enabled(layout, {}, s, WriteOp(n, kids)) && CycleOn(s)
    ensures var s' := Step(layout, {}, s, WriteOp(n, kids)); MarksOk(s'.g, s'.m) && CycleOn(s')
  {
    hide S.ScopesOk, W.WeakOk, A.AccountsOk, A.LimitOk, ChainsOk, NoDangling, Tri, Barrier;
    TriBarrier(s.g, Prot(s), s.m, n, Everywhere(s.g));
    TriStore(s.g, Prot(s), Barrier(s.g, s.m, n), n, kids, Everywhere(s.g));
  }

  /** A Black master's children are not White, old or newly bound. */
  lemma BoundIsShaded(g: Graph, prot: set<Ptr>, m: Marks, master: Ptr, slave: Ptr, kids: seq<Ptr>, P: set<nat>)
    requires MarksOk(g, m) && Linked(g, master) && Linked(g, slave) && master in g.kids && Tri(g, prot, m, P)
    requires m.color[master] == Black ==> m.color[slave] != White
    requires forall k :: k in kids ==> k == slave || k in g.kids[master]
    ensures m.color[master] == Black ==>
              forall k :: k in kids && Linked(g, k) && g.part[master] in P && g.part[k] in P ==> m.color[k] != White
  {
    if m.color[master] == Black {
      forall k | k in kids && Linked(g, k) && g.part[master] in P && g.part[k] in P ensures m.color[k] != White {
        assert k != slave ==> Edge(g, master, k);
      }
    }
  }

  lemma BoundKeepsCycle(s: State, master: Ptr, slave: Ptr, kids: seq<Ptr>)
    requires MarksOk(s.g, s.m) && Linked(s.g, master) && Linked(s.g, slave) && master in s.g.kids && CycleOn(s)
    requires forall k :: k in kids ==> k == slave || k in s.g.kids[master]
    ensures var s' := s.(m := BindMarks(s.g, s.m, master, slave), g := s.g.(kids := s.g.kids[master := kids]));
            MarksOk(s'.g, s'.m) && CycleOn(s')
  {
    var g, m', all := s.g, BindMarks(s.g, s.m, master, slave), Everywhere(s.g);
    hide BindMarks, Tri;
    TriBind(g, Prot(s), s.m, master, slave, all);
    BoundIsShaded(g, Prot(s), m', master, slave, kids, all);
    hide MarksOk, Everywhere;
    TriStore(g, Prot(s), m', master, kids, all);
  }

  lemma BindKeepsCycle(layout: seq<nat>, s: State, master: Ptr, slave: Ptr, kids: seq<Ptr>)
    requires Inv(layout, {}, s) && Enabled(layout, {}, s, BindOp(master, slave, kids)) && CycleOn(s)
    ensures var s' := Step(layout, {}, s, BindOp(master, slave, kids)); MarksOk(s'.g, s'.m) && CycleOn(s')
  {
    hide Inv, MarksOk, CycleOn, BindMarks;
    InvParts(layout, s);
    BoundKeepsCycle(s, master, slave, kids);
  }

  lemma ProtectedKeepsCycle(s: State, at: S.Place, n: Ptr)
    requires MarksOk(s.g, s.m) && S.ScopesOk(s.g, s.scopes) && CycleOn(s)
    requires S.IsScope(s.scopes.stacks, at) && Linked(s.g, n) && n !in Prot(s)
    requires MayShade(Everywhere(s.g), s.g, s.m, S.ScopeAt(s.scopes.stacks, at).pid, n)
    ensures n in s.m.color && |s.m.gray| == |s.m.marking|
    ensures var s' := Protected(s, at, n); MarksOk(s'.g, s'.m) && CycleOn(s')
  {
    hide S.ScopesOk, Tri, MayShade;
    S.AddOk(s.g, s.scopes, at, n);
    TriProtect(s.g, Prot(s), s.m, S.ScopeAt(s.scopes.stacks, at).pid, n);
    hide MarksOk;
    assert Prot(Protected(s, at, n)) == Prot(s) + {n};
  }

  lemma ProtectKeepsCycle(layout: seq<nat>, s: State, at: S.Place, n: Ptr)
    requires Inv(layout, {}, s) && Enabled(layout, {}, s, ProtectOp(at, n)) && DuringCycle(s, ProtectOp(at, n)) && CycleOn(s)
    ensures var s' := Step(layout, {}, s, ProtectOp(at, n)); MarksOk(s'.g, s'.m) && CycleOn(s')
  {
    hide Inv, MarksOk, S.ScopesOk, CycleOn, Protected, MayShade, Prot;
    InvParts(layout, s);
    if n !in Prot(s) { ProtectedKeepsCycle(s, at, n); }
  }

  lemma DisposedKeepsCycle(s: State, s': State, p: nat, gone: set<Ptr>)
    requires MarksOk(s.g, s.m) && gone !! s.g.linked && CycleOn(s)
    requires s'.g == Free(s.g, gone) && s'.m == s.m.(color := s.m.color - gone) && Prot(s') <= Prot(s)
    ensures MarksOk(s'.g, s'.m) && CycleOn(s')
  {
    hide MarksOk, Free, Tri, Prot;
    TriFree(s.g, Prot(s), s.m, gone);
    TriFewer(s'.g, Prot(s), Prot(s'), s'.m, Everywhere(s'.g));
  }

  lemma DisposeKeepsCycle(layout: seq<nat>, s: State, p: nat, gone: set<Ptr>)
    requires Inv(layout, {}, s) && Enabled(layout, {}, s, DisposeOp(p, gone)) && CycleOn(s)
    ensures var s' := Step(layout, {}, s, DisposeOp(p, gone)); MarksOk(s'.g, s'.m) && CycleOn(s')
  {
    hide Inv, MarksOk, Free, CycleOn, A.Bytes, A.Release, W.Forget;
    InvParts(layout, s);
    DisposedKeepsCycle(s, Step(layout, {}, s, DisposeOp(p, gone)), p, gone);
  }

  /** Handles, limits and thresholds leave the rest of the heap alone. */
  lemma OnlyTables(layout: seq<nat>, s: State, op: Op)
    requires Inv(layout, {}, s) && Enabled(layout, {}, s, op) && (op.DowngradeOp? || op.LimitOp? || op.ThresholdOp?)
    ensures var s' := Step(layout, {}, s, op); s' == s.(weak := s'.weak, acc := s'.acc)
  {
    hide Inv;
  }

  lemma QuietKeepsCycle(layout: seq<nat>, s: State, op: Op)
    requires Inv(layout, {}, s) && Enabled(layout, {}, s, op) && CycleOn(s)
    requires ScopeOp(op) || op.DowngradeOp? || op.LimitOp? || op.ThresholdOp?
    ensures var s' := Step(layout, {}, s, op); MarksOk(s'.g, s'.m) && CycleOn(s')
  {
    hide Inv, Step, MarksOk, Tri, Enabled, Everywhere;
    InvParts(layout, s);
    var s' := Step(layout, {}, s, op);
    if ScopeOp(op) {
      OnlyScopes(layout, {}, s, op);
      ScopeStepOk(layout, {}, s, op);
    } else {
      OnlyTables(layout, s, op);
    }
    TriFewer(s.g, Prot(s), Prot(s'), s.m, Everywhere(s.g));
  }

  // ---- whole cycles ----

  /** Every operation of the run is one that may happen during a cycle. */
  ghost predicate CycleRun(layout: seq<nat>, s: State, ops: seq<Op>)
    requires Inv(layout, {}, s) && Legal(layout, {}, s, ops)
    decreases |ops|
  {
    ops == [] ||
    (DuringCycle(s, ops[0]) &&
     (StepOk(layout, {}, s, ops[0]);
      CycleRun(layout, Step(layout, {}, s, ops[0]), ops[1..])))
  }

  /** However marking and mutation are interleaved, the tri-colour invariant holds across all partitions at the end. */
  lemma {:induction false} RunKeepsCycle(layout: seq<nat>, s: State, ops: seq<Op>)
    requires Inv(layout, {}, s) && Legal(layout, {}, s, ops) && CycleRun(layout, s, ops) && CycleOn(s)
    ensures CycleOn(Exec(layout, {}, s, ops))
    decreases |ops|
  {
    if ops != [] {
      StepOk(layout, {}, s, ops[0]);
      StepKeepsCycle(layout, s, ops[0]);
      hide Inv, Step, Enabled, CycleOn, DuringCycle;
      RunKeepsCycle(layout, Step(layout, {}, s, ops[0]), ops[1..]);
    }
  }

  /** From drained stacks `mark_prepare` starts such a cycle. */
  lemma PrepareStartsCycle(layout: seq<nat>, s: State, p: nat)
    requires Inv(layout, {}, s) && p < |s.g.chain| && !s.m.marking[p] && Drained(s.m, Everywhere(s.g))
    ensures var s1 := Step(layout, {}, s, PrepareOp(p)); Inv(layout, {}, s1) && CycleOn(s1)
  {
    StepOk(layout, {}, s, PrepareOp(p));
    PrepareFresh(s.g, Prot(s), s.m, p, Everywhere(s.g));
    hide S.ScopesOk, W.WeakOk, A.AccountsOk, A.LimitOk, ChainsOk, NoDangling, Tri;
  }

  /** With every stack drained, sweeping all partitions in any order takes nothing reachable and leaves nothing dangling. */
  lemma DrainedSweepsAreSafe(g: Graph, prot: set<Ptr>, m: Marks, ps: seq<nat>)
    requires NoDangling(g) && ChainsOk(g) && MarksOk(g, m) && AllMarking(m) && Tri(g, prot, m, Everywhere(g))
    requires Drained(m, Everywhere(g)) && AllOnce(g, ps)
    ensures var g' := UnlinkEach(g, prot, m, ps).0;
            && (forall n :: Reach(g, prot, Everywhere(g), n) ==> Linked(g', n))
            && (forall n :: Linked(g', n) ==> Linked(g, n) && m.color[n] == Black)
            && NoDangling(g')
  {
    var all := Everywhere(g);
    UnlinkEachTakesWhites(g, prot, m, ps);
    var g' := UnlinkEach(g, prot, m, ps).0;
    forall n | Reach(g, prot, all, n) ensures Linked(g', n) {
      ReachedIsBlack(g, prot, m, all, n);
    }
    forall n | Linked(g', n) ensures Linked(g, n) && m.color[n] == Black {
      assert m.gray[g.part[n]] == [];
    }
    forall n, k | Edge(g', n, k) ensures Linked(g', k) {
      assert Edge(g, n, k);
    }
  }

  /** A cycle that `mark_prepare` on `p` starts from drained stacks, and what then runs. */
  ghost predicate LegalCycle(layout: seq<nat>, s: State, p: nat, ops: seq<Op>)
    requires Inv(layout, {}, s)
  {
    && p < |s.g.chain| && !s.m.marking[p] && Drained(s.m, Everywhere(s.g))
    && (PrepareStartsCycle(layout, s, p);
        var s1 := Step(layout, {}, s, PrepareOp(p));
        Legal(layout, {}, s1, ops) && CycleRun(layout, s1, ops))
  }

  ghost function AfterCycle(layout: seq<nat>, s: State, p: nat, ops: seq<Op>): (s': State)
    requires Inv(layout, {}, s) && LegalCycle(layout, s, p, ops)
    ensures Inv(layout, {}, s') && CycleOn(s')
  {
    PrepareStartsCycle(layout, s, p);
    RunKeepsCycle(layout, Step(layout, {}, s, PrepareOp(p)), ops);
    Exec(layout, {}, Step(layout, {}, s, PrepareOp(p)), ops)
  }

  /**
   The concurrent heap-wide cycle. Start it with `mark_prepare` from drained stacks; run anything a cycle allows,
   marking and mutation in any interleaving and edges between any partitions; once no gray is left anywhere, sweep every
   partition. No node a root or local then reaches is taken, and no pointer dangles.
   */
  lemma ConcurrentCycleIsSafe(layout: seq<nat>, s: State, p: nat, ops: seq<Op>, ps: seq<nat>)
    requires Inv(layout, {}, s) && LegalCycle(layout, s, p, ops)
    requires var s' := AfterCycle(layout, s, p, ops);
             Drained(s'.m, Everywhere(s'.g)) && AllOnce(s'.g, ps)
    ensures var s' := AfterCycle(layout, s, p, ops);
            var g' := UnlinkEach(s'.g, Prot(s'), s'.m, ps).0;
            (forall n :: Live(s', n) ==> Linked(g', n)) && NoDangling(g')
  {
    hide AfterCycle, LegalCycle, Tri, Reach, UnlinkEach, S.ScopesOk, W.WeakOk, A.AccountsOk, A.LimitOk;
    var s' := AfterCycle(layout, s, p, ops);
    DrainedSweepsAreSafe(s'.g, Prot(s'), s'.m, ps);
  }
}
