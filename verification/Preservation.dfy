/** Every single operation keeps the heap's invariant. */
module Preservation {
  import opened Basics
  import opened Graphs
  import opened Marking
  import opened Tricolor
  import opened Sweep
  import opened Machine
  import A = Accounting
  import W = Weak
  import S = Scopes

  /** A partition an operation does not shade, protect or add edges in stays safe. */
  lemma SafeFrame(g: Graph, prot: set<Ptr>, m: Marks, g': Graph, prot': set<Ptr>, m': Marks, q: nat)
    requires MarksOk(g, m) && MarksOk(g', m') && q < |g.chain| && q < |g'.chain|
    requires Safe(g, prot, m, q)
    requires m'.gray[q] == m.gray[q] && m'.marking[q] == m.marking[q]
    requires forall n :: Linked(g', n) && g'.part[n] == q ==>
               Linked(g, n) && g.part[n] == q && m'.color[n] == m.color[n] && (n in prot' ==> n in prot)
    requires forall n, k {:trigger Edge(g', n, k)} :: Edge(g', n, k) && Linked(g', n) && g'.part[n] == q ==> Edge(g, n, k)
    ensures Safe(g', prot', m', q)
  {
  }

  lemma MarkingStepsOk(layout: seq<nat>, closed: set<nat>, s: State, op: Op)
    requires Inv(layout, closed, s) && Enabled(layout, closed, s, op)
    requires op.MarkOp? || op.PrepareOp? || op.GraysOp?
    ensures Inv(layout, closed, Step(layout, closed, s, op))
  {
    var s' := Step(layout, closed, s, op);
    var prot := Prot(s);
    var m1 := if op.GraysOp? then s.m else Prepare(s.g, prot, s.m, op.p);
    PrepareOk(s.g, prot, s.m, op.p);
    if !op.PrepareOp? { MarkLoopOk(s.g, m1, op.p, op.budget); }
    forall q | q in closed && q < |s.g.chain| ensures Guarded(s', q) {
      PrepareSafe(s.g, prot, s.m, op.p, q);
      if !op.PrepareOp? { MarkLoopSafe(s.g, prot, m1, op.p, op.budget, q); }
    }
  }

  lemma MarkLoopSafe(g: Graph, prot: set<Ptr>, m: Marks, p: nat, budget: nat, q: nat)
    requires NoDangling(g) && MarksOk(g, m) && p < |m.gray| && q < |m.gray|
    requires NoInbound(g, q) && Safe(g, prot, m, q)
    ensures MarksOk(g, MarkLoop(g, m, p, budget).0) && Safe(g, prot, MarkLoop(g, m, p, budget).0, q)
  {
    hide MarkLoop;
    MarkLoopOk(g, m, p, budget);
    if m.marking[q] {
      MarkLoopTri(g, prot, m, p, budget, {q});
    } else if p != q {
      MarkLoopElsewhere(g, m, p, budget, q);
    } else {
      MarkLoopIdle(g, m, p, budget);
    }
  }

  lemma ResetStepOk(layout: seq<nat>, closed: set<nat>, s: State, p: nat)
    requires Inv(layout, closed, s) && Enabled(layout, closed, s, ResetOp(p))
    ensures Inv(layout, closed, Step(layout, closed, s, ResetOp(p)))
  {
    var s' := Step(layout, closed, s, ResetOp(p));
    forall q | q in closed && q < |s.g.chain| ensures Guarded(s', q) {
      if q != p { SafeFrame(s.g, Prot(s), s.m, s.g, Prot(s), s'.m, q); }
    }
  }

  lemma EnlistSafe(g: Graph, prot: set<Ptr>, m: Marks, n: Ptr, q: nat)
    requires MarksOk(g, m) && Linked(g, n) && q < |g.chain| && Safe(g, prot, m, q)
    ensures var m' := EnlistIfMarking(m, g.part[n], n);
            MarksOk(g, m') && Safe(g, prot + {n}, m', q)
  {
    var p := g.part[n];
    EnlistOk(g, m, n);
    var m' := EnlistIfMarking(m, p, n);
    if q != p { SafeFrame(g, prot, m, g, prot + {n}, m', q); }
  }

  lemma RootStepOk(layout: seq<nat>, closed: set<nat>, s: State, n: Ptr)
    requires Inv(layout, closed, s) && Enabled(layout, closed, s, RootOp(n))
    ensures Inv(layout, closed, Step(layout, closed, s, RootOp(n)))
  {
    var s' := Step(layout, closed, s, RootOp(n));
    EnlistOk(s.g, s.m, n);
    assert n !in s.roots ==> Prot(s') == Prot(s) + {n};
    forall q | q in closed && q < |s.g.chain| ensures Guarded(s', q) {
      EnlistSafe(s.g, Prot(s), s.m, n, q);
    }
  }

  lemma ProtectMarksOk(closed: set<nat>, g: Graph, m: Marks, q: nat, n: Ptr)
    requires MarksOk(g, m) && Linked(g, n) && MayShade(closed, g, m, q, n)
    ensures MarksOk(g, ProtectedMarks(m, q, n))
  {
    if q < |g.chain| { AddNodeMarksOkIff(g, m, q, n); }
  }

  /** Protecting a node through a scope of its own partition, or through another where no shading is owed. */
  lemma ProtectSafe(closed: set<nat>, g: Graph, prot: set<Ptr>, m: Marks, p: nat, n: Ptr, q: nat)
    requires MarksOk(g, m) && Linked(g, n) && MayShade(closed, g, m, p, n)
    requires q in closed && q < |g.chain| && Safe(g, prot, m, q)
    ensures var m' := ProtectedMarks(m, p, n); MarksOk(g, m') && Safe(g, prot + {n}, m', q)
  {
    ProtectMarksOk(closed, g, m, p, n);
    if g.part[n] == p {
      EnlistSafe(g, prot, m, n, q);
    } else if g.part[n] != q {
      SafeFrame(g, prot, m, g, prot + {n}, ProtectedMarks(m, p, n), q);
    }
  }

  lemma ProtectStepOk(layout: seq<nat>, closed: set<nat>, s: State, at: S.Place, n: Ptr)
    requires Inv(layout, closed, s) && Enabled(layout, closed, s, ProtectOp(at, n))
    ensures Inv(layout, closed, Step(layout, closed, s, ProtectOp(at, n)))
  {
    if n !in Prot(s) { ProtectedOk(layout, closed, s, at, n); }
    hide Inv, Protected;
  }

  lemma ProtectedOk(layout: seq<nat>, closed: set<nat>, s: State, at: S.Place, n: Ptr)
    requires Inv(layout, closed, s) && S.IsScope(s.scopes.stacks, at) && Linked(s.g, n) && n !in Prot(s)
    requires MayShade(closed, s.g, s.m, S.ScopeAt(s.scopes.stacks, at).pid, n)
    ensures n in s.m.color && |s.m.gray| == |s.m.marking| && Inv(layout, closed, Protected(s, at, n))
  {
    var s', p := Protected(s, at, n), S.ScopeAt(s.scopes.stacks, at).pid;
    hide W.WeakOk, A.AccountsOk, A.LimitOk, Safe, NoInbound, NoDangling, ChainsOk, S.ScopesOk, ProtectedMarks, MayShade;
    S.AddOk(s.g, s.scopes, at, n);
    ProtectMarksOk(closed, s.g, s.m, p, n);
    assert Prot(s') == Prot(s) + {n};
    forall q | q in closed && q < |s.g.chain| ensures Guarded(s', q) {
      assert Guarded(s, q);
      ProtectSafe(closed, s.g, Prot(s), s.m, p, n, q);
    }
    hide MarksOk;
  }

  /** `add_node` keeps the heap's invariant exactly when the scope shades the node as its partition would need. */
  lemma ProtectedOkIff(layout: seq<nat>, closed: set<nat>, s: State, at: S.Place, n: Ptr)
    requires Inv(layout, closed, s) && S.IsScope(s.scopes.stacks, at) && Linked(s.g, n) && n !in Prot(s)
    ensures n in s.m.color && |s.m.gray| == |s.m.marking|
    ensures Inv(layout, closed, Protected(s, at, n)) <==>
              MayShade(closed, s.g, s.m, S.ScopeAt(s.scopes.stacks, at).pid, n)
  {
    if MayShade(closed, s.g, s.m, S.ScopeAt(s.scopes.stacks, at).pid, n) { ProtectedOk(layout, closed, s, at, n); }
    if Inv(layout, closed, Protected(s, at, n)) { ProtectedWasRight(layout, closed, s, at, n); }
  }

  lemma ProtectedWasRight(layout: seq<nat>, closed: set<nat>, s: State, at: S.Place, n: Ptr)
    requires MarksOk(s.g, s.m) && S.IsScope(s.scopes.stacks, at) && Linked(s.g, n)
    requires Inv(layout, closed, Protected(s, at, n))
    ensures MayShade(closed, s.g, s.m, S.ScopeAt(s.scopes.stacks, at).pid, n)
  {
    hide W.WeakOk, A.AccountsOk, A.LimitOk, NoInbound, NoDangling, ChainsOk, S.ScopesOk;
    var s', p, q := Protected(s, at, n), S.ScopeAt(s.scopes.stacks, at).pid, s.g.part[n];
    if p < |s.g.chain| { AddNodeMarksOkIff(s.g, s.m, p, n); }
    assert n in Prot(s');
    assert q in closed ==> Guarded(s', q);
  }

  ghost predicate ScopeOp(op: Op) {
    op.AcquireOp? || op.ReleaseOp? || op.PushOp? || op.PopOp? || op.UnprotectOp? || op.PromoteOp? || op.ClearOp?
  }

  /** Scope operations but for `add_node` change the scopes alone. */
  lemma OnlyScopes(layout: seq<nat>, closed: set<nat>, s: State, op: Op)
    requires Inv(layout, closed, s) && Enabled(layout, closed, s, op) && ScopeOp(op)
    ensures var s' := Step(layout, closed, s, op); s' == s.(scopes := s'.scopes)
  {
    hide Inv;
  }

  /** Scope operations that protect nothing new. */
  lemma ScopeStepOk(layout: seq<nat>, closed: set<nat>, s: State, op: Op)
    requires Inv(layout, closed, s) && Enabled(layout, closed, s, op)
    requires ScopeOp(op)
    ensures Inv(layout, closed, Step(layout, closed, s, op))
    ensures S.Locals(Step(layout, closed, s, op).scopes) <= S.Locals(s.scopes)
  {
    var s' := Step(layout, closed, s, op);
    match op {
      case AcquireOp(p) => S.AcquireOk(s.g, s.scopes, p);
      case ReleaseOp(i) => S.ReleaseStackOk(s.g, s.scopes, i);
      case PushOp(i) => S.PushOk(s.g, s.scopes, i);
      case PopOp(i) => S.PopScopeOk(s.g, s.scopes, i);
      case UnprotectOp(at, n) => S.RemoveOk(s.g, s.scopes, at, n);
      case PromoteOp(at, target, n) => S.PromoteOk(s.g, s.scopes, at, target, n);
      case ClearOp(at) => S.ClearOk(s.g, s.scopes, at);
    }
    forall q | q in closed && q < |s.g.chain| ensures Guarded(s', q) {
      SafeFrame(s.g, Prot(s), s.m, s.g, Prot(s'), s.m, q);
    }
  }

  /** Replacing the children of one node. */
  lemma StoreGraphOk(g: Graph, n: Ptr, kids: seq<Ptr>)
    requires Wf(g) && ChainsOk(g) && NoDangling(g) && Linked(g, n) && forall k :: k in kids ==> Linked(g, k)
    ensures var g' := g.(kids := g.kids[n := kids]); Wf(g') && ChainsOk(g') && NoDangling(g')
  {
    var g' := g.(kids := g.kids[n := kids]);
    forall x, k | Edge(g', x, k) ensures Linked(g', k) {
      if x != n { assert Edge(g, x, k); }
    }
    assert forall x :: Linked(g', x) <==> Linked(g, x);
  }

  lemma StoreInbound(closed: set<nat>, g: Graph, n: Ptr, kids: seq<Ptr>, q: nat)
    requires Wf(g) && Linked(g, n) && q in closed && NoInbound(g, q)
    requires forall k :: k in kids ==> Linked(g, k) && (g.part[k] in closed ==> g.part[k] == g.part[n])
    ensures NoInbound(g.(kids := g.kids[n := kids]), q)
  {
    var g' := g.(kids := g.kids[n := kids]);
    forall x, k | Edge(g', x, k) && k in g'.part && g'.part[k] == q ensures g'.part[x] == q {
      if x != n { assert Edge(g, x, k); }
    }
  }

  /** A store is safe when its node is not Black, or stores no White child of the same marking partition. */
  lemma StoreSafe(g: Graph, prot: set<Ptr>, m: Marks, n: Ptr, kids: seq<Ptr>, q: nat)
    requires MarksOk(g, m) && Linked(g, n) && q < |g.chain| && Safe(g, prot, m, q)
    requires m.marking[q] && g.part[n] == q && m.color[n] == Black ==>
               forall k :: k in kids && k in g.part && g.part[k] == q ==> m.color[k] != White
    ensures var g' := g.(kids := g.kids[n := kids]);
            MarksOk(g', m) && Safe(g', prot, m, q)
  {
    var g' := g.(kids := g.kids[n := kids]);
    if m.marking[q] {
      forall x, k | Edge(g', x, k) && Linked(g', k) && g.part[x] in {q} && g.part[k] in {q} && m.color[x] == Black
        ensures m.color[k] != White
      {
        if x != n { assert Edge(g, x, k); }
      }
    }
  }

  /** The write barrier leaves a node of a marking partition non-Black. */
  lemma BarrierOk(g: Graph, prot: set<Ptr>, m: Marks, n: Ptr, q: nat)
    requires MarksOk(g, m) && Linked(g, n) && q < |g.chain| && Safe(g, prot, m, q)
    ensures MarksOk(g, Barrier(g, m, n)) && Safe(g, prot, Barrier(g, m, n), q)
    ensures Barrier(g, m, n).marking == m.marking
    ensures m.marking[g.part[n]] ==> Barrier(g, m, n).color[n] != Black
  {
    var p := g.part[n];
    var m' := Barrier(g, m, n);
    if m.marking[p] && m.color[n] == Black {
      EnlistOk(g, m.(color := m.color[n := Gray]), n);
      if q != p { BarrierElsewhere(g, prot, m, n, q); }
    }
  }

  lemma BarrierElsewhere(g: Graph, prot: set<Ptr>, m: Marks, n: Ptr, q: nat)
    requires MarksOk(g, m) && Linked(g, n) && q < |g.chain| && Safe(g, prot, m, q) && g.part[n] != q
    requires MarksOk(g, Barrier(g, m, n))
    ensures Safe(g, prot, Barrier(g, m, n), q)
  {
    hide Safe;
    SafeFrame(g, prot, m, g, prot, Barrier(g, m, n), q);
  }

  lemma WriteStepOk(layout: seq<nat>, closed: set<nat>, s: State, n: Ptr, kids: seq<Ptr>)
    requires Inv(layout, closed, s) && Enabled(layout, closed, s, WriteOp(n, kids))
    ensures Inv(layout, closed, Step(layout, closed, s, WriteOp(n, kids)))
  {
    hide S.ScopesOk, W.WeakOk, A.AccountsOk, A.LimitOk, Barrier, Safe, NoInbound, NoDangling, ChainsOk;
    var s' := Step(layout, closed, s, WriteOp(n, kids));
    var m' := Barrier(s.g, s.m, n);
    StoreGraphOk(s.g, n, kids);
    BarrierMarksOk(s.g, s.m, n);
    forall q | q in closed && q < |s.g.chain| ensures Guarded(s', q) {
      StoreInbound(closed, s.g, n, kids, q);
      BarrierOk(s.g, Prot(s), s.m, n, q);
      StoreSafe(s.g, Prot(s), m', n, kids, q);
    }
    RestOk(layout, s, s');
  }

  /** While its partition is marking, the slave of a Black master ends up non-White; nothing turns White or Black. */
  lemma BindOk(g: Graph, prot: set<Ptr>, m: Marks, master: Ptr, slave: Ptr, q: nat)
    requires MarksOk(g, m) && Linked(g, master) && Linked(g, slave) && q < |g.chain| && Safe(g, prot, m, q)
    ensures var m' := BindMarks(g, m, master, slave);
            && MarksOk(g, m') && Safe(g, prot, m', q)
            && (m.color[master] == Black ==> m'.color[slave] != White)
            && (m'.color[master] == Black ==> m.color[master] == Black)
  {
    BindForm(g, m, master, slave);
    hide BindMarks;
    var p := g.part[slave];
    var m' := BindMarks(g, m, master, slave);
    if m.marking[p] {
      EnlistSafe(g, prot, m, slave, q);
    } else if q != p {
      SafeFrame(g, prot, m, g, prot, m', q);
    }
  }

  lemma BindStepOk(layout: seq<nat>, closed: set<nat>, s: State, master: Ptr, slave: Ptr, kids: seq<Ptr>)
    requires Inv(layout, closed, s) && Enabled(layout, closed, s, BindOp(master, slave, kids))
    ensures Inv(layout, closed, Step(layout, closed, s, BindOp(master, slave, kids)))
  {
    hide S.ScopesOk, W.WeakOk, A.AccountsOk, A.LimitOk, BindMarks, Safe, ChainsOk;
    var s' := Step(layout, closed, s, BindOp(master, slave, kids));
    var m' := BindMarks(s.g, s.m, master, slave);
    forall k | k in kids ensures Linked(s.g, k) && (k == slave || Edge(s.g, master, k)) {
      assert k == slave || Edge(s.g, master, k);
    }
    StoreGraphOk(s.g, master, kids);
    BindMarksOk(s.g, s.m, master, slave);
    forall q | q in closed && q < |s.g.chain| ensures Guarded(s', q) {
      BindOk(s.g, Prot(s), s.m, master, slave, q);
      BindInbound(s.g, master, slave, kids, q, closed);
      BindStoreSafe(s.g, Prot(s), s.m, m', master, slave, kids, q);
    }
    RestOk(layout, s, s');
  }

  lemma BindInbound(g: Graph, master: Ptr, slave: Ptr, kids: seq<Ptr>, q: nat, closed: set<nat>)
    requires Wf(g) && Linked(g, master) && Linked(g, slave) && q in closed && NoInbound(g, q)
    requires g.part[slave] in closed ==> g.part[slave] == g.part[master]
    requires forall k :: k in kids ==> k == slave || Edge(g, master, k)
    ensures NoInbound(g.(kids := g.kids[master := kids]), q)
  {
    var g' := g.(kids := g.kids[master := kids]);
    forall x, k | Edge(g', x, k) && k in g'.part && g'.part[k] == q ensures g'.part[x] == q {
      assert x != master || k != slave ==> Edge(g, x, k);
    }
  }

  lemma BindStoreSafe(g: Graph, prot: set<Ptr>, m: Marks, m': Marks, master: Ptr, slave: Ptr, kids: seq<Ptr>, q: nat)
    requires MarksOk(g, m) && MarksOk(g, m') && Linked(g, master) && Linked(g, slave) && q < |g.chain| && NoDangling(g)
    requires Safe(g, prot, m', q)
    requires m.color[master] == Black ==> m'.color[slave] != White
    requires forall k :: k in kids ==> k == slave || Edge(g, master, k)
    requires m'.color[master] == Black ==> m.color[master] == Black
    ensures var g' := g.(kids := g.kids[master := kids]);
            MarksOk(g', m') && Safe(g', prot, m', q)
  {
    StoreSafe(g, prot, m', master, kids, q);
  }

  /** Changing only who points at whom leaves scopes and accounts alone. */
  lemma RestOk(layout: seq<nat>, s: State, s': State)
    requires S.ScopesOk(s.g, s.scopes) && A.AccountsOk(s.g, layout, s.acc)
    requires s'.g.part == s.g.part && s'.g.dtype == s.g.dtype && |s'.g.chain| == |s.g.chain|
    requires s'.scopes == s.scopes && s'.acc == s.acc
    requires forall n :: n in S.Locals(s.scopes) && n in s.g.linked ==> n in s'.g.linked
    ensures S.ScopesOk(s'.g, s'.scopes) && A.AccountsOk(s'.g, layout, s'.acc)
  {
    forall p | 0 <= p < |s.acc.used| ensures s.acc.used[p] == A.Bytes(A.InPartition(s'.g, p), s'.g.dtype, layout) {
      assert A.InPartition(s'.g, p) == A.InPartition(s.g, p);
    }
  }

  // ---- allocation ----

  lemma AttachGraphOk(g: Graph, p: nat, n: Ptr, kids: seq<Ptr>, dtype: nat)
    requires Wf(g) && ChainsOk(g) && NoDangling(g) && p < |g.chain| && n !in g.part
    requires forall k :: k in kids ==> Linked(g, k)
    ensures var g' := Attach(g, p, n, kids, dtype); Wf(g') && ChainsOk(g') && NoDangling(g')
  {
    var g' := Attach(g, p, n, kids, dtype);
    AttachOk(g, p, n, kids, dtype);
    forall x, k | Edge(g', x, k) ensures Linked(g', k) {
      if x != n { assert Edge(g, x, k); }
    }
  }

  /** A new node is White, unlisted and unprotected: it disturbs no partition. */
  lemma AttachGuarded(closed: set<nat>, g: Graph, prot: set<Ptr>, m: Marks, p: nat, n: Ptr, kids: seq<Ptr>, dtype: nat, q: nat)
    requires MarksOk(g, m) && p < |g.chain| && n !in g.part && prot <= g.linked && NoDangling(g)
    requires StoreAllowed(closed, g, p, kids)
    requires q in closed && q < |g.chain| && NoInbound(g, q) && Safe(g, prot, m, q)
    ensures var g' := Attach(g, p, n, kids, dtype);
            var m' := m.(color := m.color[n := White]);
            MarksOk(g', m') && NoInbound(g', q) && Safe(g', prot, m', q)
  {
    var g' := Attach(g, p, n, kids, dtype);
    var m' := m.(color := m.color[n := White]);
    forall x, k | Edge(g', x, k) ensures (x == n && k in kids) || (x != n && Edge(g, x, k) && Linked(g, k)) {
      if x != n { assert Edge(g, x, k); }
    }
  }

  lemma ScopesFrame(g: Graph, g': Graph, t: S.ScopeTable)
    requires S.ScopesOk(g, t)
    requires S.Locals(t) <= g'.linked
    ensures S.ScopesOk(g', t)
  {
  }

  lemma AllocStepOk(layout: seq<nat>, closed: set<nat>, s: State, op: Op)
    requires Inv(layout, closed, s) && op.AllocOp? && Enabled(layout, closed, s, op)
    ensures Inv(layout, closed, Step(layout, closed, s, op))
  {
    if op.p < |s.g.chain| && !A.OverLimit(s.acc, layout[op.dtype]) {
      AllocatedOk(layout, closed, s, op.p, op.addr, op.kids, op.dtype);
      if op.root {
        var s1 := Allocated(s, op.p, op.addr, op.kids, op.dtype, layout[op.dtype]);
        assert op.addr !in s1.roots && Linked(s1.g, op.addr);
        RootStepOk(layout, closed, s1, op.addr);
        assert Step(layout, closed, s1, RootOp(op.addr)) == Rooted(s1, op.addr);
      }
    }
    hide Inv, Allocated, Rooted;
  }

  lemma AllocatedOk(layout: seq<nat>, closed: set<nat>, s: State, p: nat, n: Ptr, kids: seq<Ptr>, dtype: nat)
    requires Inv(layout, closed, s) && p < |s.g.chain| && n !in s.g.part && dtype < |layout|
    requires StoreAllowed(closed, s.g, p, kids) && !A.OverLimit(s.acc, layout[dtype])
    ensures p < |s.acc.used| && Inv(layout, closed, Allocated(s, p, n, kids, dtype, layout[dtype]))
  {
    assert p < |s.acc.used|;
    hide S.ScopesOk, W.WeakOk, A.AccountsOk, A.LimitOk, Safe, NoInbound, NoDangling, ChainsOk, Attach;
    var s' := Allocated(s, p, n, kids, dtype, layout[dtype]);
    var g' := Attach(s.g, p, n, kids, dtype);
    LocalsLinked(s);
    AttachFacts(s.g, p, n, kids, dtype);
    AttachGraphOk(s.g, p, n, kids, dtype);
    A.ChargeOk(s.g, layout, s.acc, p, n, kids, dtype);
    W.EnrollOk(s.g.part.Keys, s.weak, n);
    ScopesFrame(s.g, g', s.scopes);
    AttachMarksOk(s.g, s.m, p, n, kids, dtype);
    assert Prot(s') == Prot(s);
    forall q | q in closed && q < |g'.chain| ensures Guarded(s', q) {
      assert Guarded(s, q);
      AttachGuarded(closed, s.g, Prot(s), s.m, p, n, kids, dtype, q);
    }
  }

  lemma LocalsLinked(s: State)
    requires S.ScopesOk(s.g, s.scopes) && s.roots <= s.g.linked
    ensures Prot(s) <= s.g.linked && S.Locals(s.scopes) <= s.g.linked
  {
  }

  lemma AttachFacts(g: Graph, p: nat, n: Ptr, kids: seq<Ptr>, dtype: nat)
    requires Wf(g) && p < |g.chain| && n !in g.part
    ensures var g' := Attach(g, p, n, kids, dtype);
            && |g'.chain| == |g.chain| && g'.part == g.part[n := p] && g'.linked == g.linked + {n}
            && g'.part.Keys == g.part.Keys + {n} && Linked(g', n)
  {
  }

  lemma AttachMarksOk(g: Graph, m: Marks, p: nat, n: Ptr, kids: seq<Ptr>, dtype: nat)
    requires MarksOk(g, m) && p < |g.chain| && n !in g.part
    ensures MarksOk(Attach(g, p, n, kids, dtype), m.(color := m.color[n := White]))
  {
  }

  // ---- sweeping ----

  lemma DetachGuarded(g: Graph, prot: set<Ptr>, m: Marks, p: nat, q: nat)
    requires MarksOk(g, m) && ChainsOk(g) && q < |g.chain| && NoInbound(g, q) && Safe(g, prot, m, q)
    ensures var g', m' := UnlinkGraph(g, prot, m, p), UnlinkMarks(m, p);
            MarksOk(g', m') && NoInbound(g', q) && Safe(g', prot, m', q)
  {
    UnlinkOk(g, prot, m, p);
    var g', m' := UnlinkGraph(g, prot, m, p), UnlinkMarks(m, p);
    assert forall n, k {:trigger Edge(g', n, k)} :: Edge(g', n, k) ==> Edge(g, n, k);
    if q != p { SafeFrame(g, prot, m, g', prot, m', q); }
  }

  lemma UnlinkStepOk(layout: seq<nat>, closed: set<nat>, s: State, p: nat)
    requires Inv(layout, closed, s) && Enabled(layout, closed, s, UnlinkOp(p))
    ensures Inv(layout, closed, Step(layout, closed, s, UnlinkOp(p)))
  {
    hide S.ScopesOk, W.WeakOk, A.AccountsOk, A.LimitOk, Safe, NoInbound, NoDangling, ChainsOk, UnlinkGraph, MarksOk;
    var prot := Prot(s);
    UnlinkOk(s.g, prot, s.m, p);
    UnlinkFacts(s.g, prot, s.m, p);
    LocalsLinked(s);
    CanUnlinkGuarded(layout, closed, s, p);
    UnlinkNoDangling(s.g, prot, s.m, p);
    var s' := Step(layout, closed, s, UnlinkOp(p));
    RestOk(layout, s, s');
    forall q | q in closed && q < |s'.g.chain| ensures Guarded(s', q) {
      assert Guarded(s, q);
      DetachGuarded(s.g, prot, s.m, p, q);
    }
  }

  lemma CanUnlinkGuarded(layout: seq<nat>, closed: set<nat>, s: State, p: nat)
    requires Inv(layout, closed, s) && p in closed
    ensures CanUnlink(s.m, p) ==> p < |s.g.chain| && NoInbound(s.g, p) && Safe(s.g, Prot(s), s.m, p)
  {
    assert p < |s.g.chain| ==> Guarded(s, p);
  }

  lemma UnlinkFacts(g: Graph, prot: set<Ptr>, m: Marks, p: nat)
    requires MarksOk(g, m)
    ensures var g' := UnlinkGraph(g, prot, m, p);
            && g'.part == g.part && g'.dtype == g.dtype && g'.kids == g.kids && |g'.chain| == |g.chain|
            && (forall n :: n in prot && n in g.linked ==> n in g'.linked)
  {
  }

  /** Sweeping a guarded partition never leaves a dangling pointer. */
  lemma UnlinkNoDangling(g: Graph, prot: set<Ptr>, m: Marks, p: nat)
    requires MarksOk(g, m) && NoDangling(g)
    requires CanUnlink(m, p) ==> NoInbound(g, p) && Safe(g, prot, m, p)
    ensures NoDangling(UnlinkGraph(g, prot, m, p))
  {
    if CanUnlink(m, p) {
      SweepDanglesIff(g, prot, m, p);
    }
  }

  lemma FreeGuarded(g: Graph, prot: set<Ptr>, m: Marks, gone: set<Ptr>, q: nat)
    requires MarksOk(g, m) && gone !! g.linked && q < |g.chain| && NoInbound(g, q) && Safe(g, prot, m, q)
    ensures var g', m' := Free(g, gone), m.(color := m.color - gone);
            MarksOk(g', m') && NoInbound(g', q) && Safe(g', prot, m', q)
  {
    var g', m' := Free(g, gone), m.(color := m.color - gone);
    assert forall n, k {:trigger Edge(g', n, k)} :: Edge(g', n, k) ==> Edge(g, n, k);
    SafeFrame(g, prot, m, g', prot, m', q);
  }

  lemma DisposeStepOk(layout: seq<nat>, closed: set<nat>, s: State, p: nat, gone: set<Ptr>)
    requires Inv(layout, closed, s) && Enabled(layout, closed, s, DisposeOp(p, gone))
    ensures Inv(layout, closed, Step(layout, closed, s, DisposeOp(p, gone)))
  {
    var g' := Free(s.g, gone);
    FreeOk(s.g, gone);
    LocalsLinked(s);
    assert gone <= A.InPartition(s.g, p);
    A.ReleaseOk(s.g, g', layout, s.acc, p, gone);
    W.ForgetOk(s.g.part.Keys, s.weak, gone);
    ScopesFrame(s.g, g', s.scopes);
    FreeMarksOk(s.g, s.m, gone);
    hide S.ScopesOk, W.WeakOk, A.AccountsOk, A.LimitOk, Safe, NoInbound, NoDangling, ChainsOk, MarksOk, A.Bytes;
    var s' := Step(layout, closed, s, DisposeOp(p, gone));
    assert g'.part.Keys == s.g.part.Keys - gone;
    assert s'.roots == s.roots;
    forall q | q in closed && q < |g'.chain| ensures Guarded(s', q) {
      assert Guarded(s, q);
      FreeGuarded(s.g, Prot(s), s.m, gone, q);
    }
  }

  lemma FreeMarksOk(g: Graph, m: Marks, gone: set<Ptr>)
    requires MarksOk(g, m) && gone !! g.linked
    ensures MarksOk(Free(g, gone), m.(color := m.color - gone))
  {
  }

  lemma SmallStepOk(layout: seq<nat>, closed: set<nat>, s: State, op: Op)
    requires Inv(layout, closed, s) && Enabled(layout, closed, s, op)
    requires op.DowngradeOp? || op.LimitOp? || op.ThresholdOp?
    ensures Inv(layout, closed, Step(layout, closed, s, op))
  {
    match op {
      case DowngradeOp(n) => W.DowngradeOk(s.g.part.Keys, s.weak, n);
      case LimitOp(v) => A.SettersKeepLimit(s.acc, v);
      case ThresholdOp(v) => A.SettersKeepLimit(s.acc, v);
    }
    hide S.ScopesOk, W.WeakOk, A.LimitOk, Safe, NoInbound, NoDangling, ChainsOk, MarksOk, A.Bytes;
    var s' := Step(layout, closed, s, op);
    forall q | q in closed && q < |s.g.chain| ensures Guarded(s', q) {
      assert Guarded(s, q);
    }
  }

  // ---- partitions come and go ----

  lemma CreateStepOk(layout: seq<nat>, closed: set<nat>, s: State)
    requires Inv(layout, closed, s) && Enabled(layout, closed, s, CreateOp)
    ensures Inv(layout, closed, Step(layout, closed, s, CreateOp))
  {
    var s' := Step(layout, closed, s, CreateOp);
    var p := |s.g.chain|;
    CreateGraphOk(s.g, s.m);
    A.NewPartitionOk(s.g, s'.g, layout, s.acc);
    LocalsLinked(s);
    ScopesFrame(s.g, s'.g, s.scopes);
    hide S.ScopesOk, W.WeakOk, A.AccountsOk, A.LimitOk, ChainsOk;
    forall q | q in closed && q < |s'.g.chain| ensures Guarded(s', q) {
      if q < p {
        assert Guarded(s, q);
        assert forall n, k {:trigger Edge(s'.g, n, k)} :: Edge(s'.g, n, k) <==> Edge(s.g, n, k);
        SafeFrame(s.g, Prot(s), s.m, s'.g, Prot(s), s'.m, q);
      }
    }
  }

  lemma CreateGraphOk(g: Graph, m: Marks)
    requires MarksOk(g, m) && ChainsOk(g) && NoDangling(g)
    ensures var g' := g.(chain := g.chain + [[]]);
            && ChainsOk(g') && NoDangling(g')
            && MarksOk(g', m.(gray := m.gray + [[]], marking := m.marking + [false]))
  {
    var g' := g.(chain := g.chain + [[]]);
    forall n, k | Edge(g', n, k) ensures Linked(g', k) {
      assert Edge(g, n, k);
    }
    forall n | Linked(g', n) ensures n in g'.chain[g'.part[n]] {
      assert Linked(g, n);
    }
  }

  lemma RemovedGraphOk(g: Graph, m: Marks, p: nat)
    requires MarksOk(g, m) && ChainsOk(g) && NoDangling(g) && p < |g.chain| && NoInbound(g, p)
    ensures var g' := RemovedGraph(g, p);
            && ChainsOk(g') && NoDangling(g') && MarksOk(g', RemovedMarks(g, m, p))
            && (forall n :: Linked(g', n) <==> Linked(g, n) && g.part[n] != p)
  {
    var g' := RemovedGraph(g, p);
    forall n, k | Edge(g', n, k) ensures Linked(g', k) {
      assert Edge(g, n, k);
    }
    forall n ensures Linked(g', n) <==> Linked(g, n) && g.part[n] != p {
    }
    forall n | Linked(g', n) ensures n in g'.chain[g'.part[n]] {
      assert Linked(g, n);
    }
  }

  lemma RemovedGuarded(g: Graph, prot: set<Ptr>, prot': set<Ptr>, m: Marks, p: nat, q: nat)
    requires MarksOk(g, m) && ChainsOk(g) && NoDangling(g) && p < |g.chain| && NoInbound(g, p)
    requires q < |g.chain| && NoInbound(g, q) && Safe(g, prot, m, q) && prot' <= prot
    ensures var g', m' := RemovedGraph(g, p), RemovedMarks(g, m, p);
            MarksOk(g', m') && NoInbound(g', q) && Safe(g', prot', m', q)
  {
    var g', m' := RemovedGraph(g, p), RemovedMarks(g, m, p);
    RemovedGraphOk(g, m, p);
    assert forall n, k {:trigger Edge(g', n, k)} :: Edge(g', n, k) ==> Edge(g, n, k);
    if q != p { SafeFrame(g, prot, m, g', prot', m', q); }
  }

  lemma RemoveStepOk(layout: seq<nat>, closed: set<nat>, s: State, p: nat)
    requires Inv(layout, closed, s) && Enabled(layout, closed, s, RemoveOp(p))
    ensures Inv(layout, closed, Step(layout, closed, s, RemoveOp(p)))
  {
    hide S.ScopesOk, W.WeakOk, A.AccountsOk, A.LimitOk, Safe, NoInbound, NoDangling, ChainsOk, MarksOk, A.Bytes, S.ClearPartition;
    var gone := A.InPartition(s.g, p);
    var s' := Step(layout, closed, s, RemoveOp(p));
    assert Guarded(s, p);
    RemovedGraphOk(s.g, s.m, p);
    LocalsLinked(s);
    S.ClearPartitionOk(s.g, s.scopes, p);
    S.ClearedOfPartitionIff(s.g, s.scopes, p);
    W.ForgetOk(s.g.part.Keys, s.weak, gone);
    A.WholePartition(s.g, layout, s.acc, p);
    A.ReleaseOk(s.g, s'.g, layout, s.acc, p, gone);
    ScopesFrame(s.g, s'.g, s'.scopes);
    assert s'.g.part.Keys == s.g.part.Keys - gone;
    assert Prot(s') <= Prot(s);
    forall q | q in closed && q < |s'.g.chain| ensures Guarded(s', q) {
      assert Guarded(s, q);
      RemovedGuarded(s.g, Prot(s), Prot(s'), s.m, p, q);
    }
  }

  /**
   `add_node` shades in the scope's partition, not the node's (src/scope.rs:151-154). For a scope of another
   partition the gray stacks stay well formed exactly when the shading pushes nothing.
   */
  lemma AddNodeMarksOkIff(g: Graph, m: Marks, q: nat, n: Ptr)
    requires MarksOk(g, m) && Linked(g, n) && q < |g.chain|
    ensures MarksOk(g, EnlistIfMarking(m, q, n)) <==>
              g.part[n] == q || !m.marking[q] || m.color[n] == Black || n in m.listed
  {
    var m' := EnlistIfMarking(m, q, n);
    if g.part[n] == q {
      EnlistOk(g, m, n);
    } else if m.marking[q] && m.color[n] != Black && n !in m.listed {
      assert n in m'.gray[q];
    }
  }

  lemma StepOk(layout: seq<nat>, closed: set<nat>, s: State, op: Op)
    requires Inv(layout, closed, s) && Enabled(layout, closed, s, op)
    ensures Inv(layout, closed, Step(layout, closed, s, op))
  {
    hide Inv, Step, Enabled;
    match op {
      case MarkOp(_, _) => MarkingStepsOk(layout, closed, s, op);
      case PrepareOp(_) => MarkingStepsOk(layout, closed, s, op);
      case GraysOp(_, _) => MarkingStepsOk(layout, closed, s, op);
      case ResetOp(p) => ResetStepOk(layout, closed, s, p);
      case AllocOp(_, _, _, _, _) => AllocStepOk(layout, closed, s, op);
      case RootOp(n) => RootStepOk(layout, closed, s, n);
      case WriteOp(n, kids) => WriteStepOk(layout, closed, s, n, kids);
      case BindOp(master, slave, kids) => BindStepOk(layout, closed, s, master, slave, kids);
      case AcquireOp(_) => ScopeStepOk(layout, closed, s, op);
      case ReleaseOp(_) => ScopeStepOk(layout, closed, s, op);
      case PushOp(_) => ScopeStepOk(layout, closed, s, op);
      case PopOp(_) => ScopeStepOk(layout, closed, s, op);
      case ProtectOp(at, n) => ProtectStepOk(layout, closed, s, at, n);
      case UnprotectOp(_, _) => ScopeStepOk(layout, closed, s, op);
      case PromoteOp(_, _, _) => ScopeStepOk(layout, closed, s, op);
      case ClearOp(_) => ScopeStepOk(layout, closed, s, op);
      case UnlinkOp(p) => UnlinkStepOk(layout, closed, s, p);
      case DisposeOp(p, gone) => DisposeStepOk(layout, closed, s, p, gone);
      case DowngradeOp(_) => SmallStepOk(layout, closed, s, op);
      case LimitOp(_) => SmallStepOk(layout, closed, s, op);
      case ThresholdOp(_) => SmallStepOk(layout, closed, s, op);
      case CreateOp => CreateStepOk(layout, closed, s);
      case RemoveOp(p) => RemoveStepOk(layout, closed, s, p);
    }
  }
}
