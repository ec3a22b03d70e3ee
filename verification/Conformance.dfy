/**
 The state machine is what the collector's methods compute: carrying out an operation by calling the methods it stands
 for leaves the heap in the state `Step` names, and carrying out a run leaves it in the state `Exec` names. So every
 statement about runs is a statement about sequences of calls.
 */
module Conformance {
  import opened Basics
  import opened Graphs
  import opened Marking
  import opened Sweep
  import opened Machine
  import opened Memory
  import opened Heap
  import opened Preservation
  import opened Runs
  import A = Accounting
  import S = Scopes
  import W = Weak

  /** A heap that represents a reachable state of the machine and whose nodes are all of registered types. */
  ghost predicate Ready(h: GcHeap, closed: set<nat>)
    reads h
  {
    h.Valid() && Inv(LayoutSizes(h.types), closed, h.s) && RegistryOk(h.types, h.dropPasses, h.s.g)
  }

  lemma ReadyParts(h: GcHeap, closed: set<nat>)
    requires Ready(h, closed)
    ensures h.Valid() && h.Ledger() && NoDangling(h.s.g) && Prot(h.s) <= h.s.g.linked && S.ScopesOk(h.s.g, h.s.scopes)
    ensures Inv(LayoutSizes(h.types), closed, h.s) && RegistryOk(h.types, h.dropPasses, h.s.g)
    ensures MarksOk(h.s.g, h.s.m) && ChainsOk(h.s.g) && Wf(h.s.g) && W.WeakOk(h.s.g.part.Keys, h.s.weak)
    ensures A.AccountsOk(h.s.g, LayoutSizes(h.types), h.s.acc)
    ensures h.mem.Keys == h.s.g.part.Keys && h.scopeStacks == h.s.scopes.stacks && |LayoutSizes(h.types)| == |h.types|
    ensures |h.partitions| == |h.s.g.chain| == |h.s.m.gray| == |h.s.m.marking| == |h.s.acc.used|
    ensures h.memoryLimit == h.s.acc.limit && h.totalMemoryUsed == h.s.acc.total
    ensures h.s.weak.ids.Keys == h.s.g.part.Keys && |h.s.weak.issued| == |h.s.weak.slots|
  {
    InvSuffices(h.types, h.dropPasses, closed, h.s);
  }

  /** Only allocation gives a node a type. */
  lemma StepKeepsRegistry(types: seq<TypeInfo>, passes: seq<nat>, closed: set<nat>, s: State, op: Op)
    requires Inv(LayoutSizes(types), closed, s) && Enabled(LayoutSizes(types), closed, s, op) && RegistryOk(types, passes, s.g)
    ensures RegistryOk(types, passes, Step(LayoutSizes(types), closed, s, op).g)
  {
    hide Inv;
  }

  // ---- one operation ----

  method PerformMarking(h: GcHeap, ghost closed: set<nat>, op: Op)
    requires Ready(h, closed) && Enabled(LayoutSizes(h.types), closed, h.s, op)
    requires op.MarkOp? || op.PrepareOp? || op.GraysOp? || op.ResetOp?
    modifies h
    ensures h.Valid() && h.s == Step(LayoutSizes(h.types), closed, old(h.s), op)
  {
    ReadyParts(h, closed);
    hide Ready, Inv, GcHeap.Valid, GcHeap.Ledger, NoDangling, MarksOk, ChainsOk, S.ScopesOk, W.WeakOk, A.AccountsOk;
    hide Mark, Prepare, MarkLoop, Reset, Prot;
    match op {
      case MarkOp(p, budget) => var _ := h.MarkSome(p, budget);
      case PrepareOp(p) => h.MarkPrepare(p);
      case GraysOp(p, budget) => var _ := h.MarkGrays(p, budget);
      case ResetOp(p) => h.MarkReset(p);
    }
  }

  lemma AllocStep(layout: seq<nat>, closed: set<nat>, s: State, op: Op)
    requires Inv(layout, closed, s) && Enabled(layout, closed, s, op) && op.AllocOp?
    ensures op.addr !in s.g.part && op.dtype < |layout| && |s.acc.used| == |s.g.chain| == |s.m.gray| == |s.m.marking|
    ensures var s', size := Step(layout, closed, s, op), layout[op.dtype];
            if op.p >= |s.g.chain| || (s.acc.limit > 0 && s.acc.total + size > s.acc.limit) then s' == s
            else if op.root then s' == Rooted(Allocated(s, op.p, op.addr, op.kids, op.dtype, size), op.addr)
            else s' == Allocated(s, op.p, op.addr, op.kids, op.dtype, size)
  {
  }

  /** The allocator has found a block at `op.addr`, in the arena or not. */
  method PerformAlloc(h: GcHeap, ghost closed: set<nat>, op: Op, arena: bool)
    requires Ready(h, closed) && Enabled(LayoutSizes(h.types), closed, h.s, op) && op.AllocOp?
    modifies h
    ensures h.Valid() && h.s == Step(LayoutSizes(h.types), closed, old(h.s), op)
  {
    ReadyParts(h, closed);
    hide Ready, Inv, GcHeap.Valid, GcHeap.Ledger, NoDangling, MarksOk, ChainsOk, S.ScopesOk, W.WeakOk, A.AccountsOk;
    AllocStep(LayoutSizes(h.types), closed, h.s, op);
    hide Step, Enabled, Allocated, Rooted, Linked;
    if op.root {
      var _ := h.AllocRootRaw(op.p, op.dtype, op.kids, Some(op.addr));
    } else {
      var _ := h.AllocRaw(op.p, op.dtype, op.kids, Some(op.addr), arena);
    }
  }

  method PerformMutation(h: GcHeap, ghost closed: set<nat>, op: Op)
    requires Ready(h, closed) && Enabled(LayoutSizes(h.types), closed, h.s, op)
    requires op.RootOp? || op.WriteOp? || op.BindOp?
    modifies h
    ensures h.Valid() && h.s == Step(LayoutSizes(h.types), closed, old(h.s), op)
  {
    ReadyParts(h, closed);
    hide Ready, Inv, GcHeap.Ledger, NoDangling, S.ScopesOk, W.WeakOk, A.AccountsOk, MarksOk, ChainsOk;
    match op {
      case RootOp(n) => h.SetRootNode(n);
      case WriteOp(n, kids) => h.WithWriteBarrier(n, kids);
      case BindOp(master, slave, kids) =>
        h.Bind(master, slave);
        h.Store(master, kids);
        StoreOk(old(h.s).g, h.s.m, master, kids);
    }
  }

  lemma ScopeStep(layout: seq<nat>, closed: set<nat>, s: State, op: Op)
    requires Inv(layout, closed, s) && Enabled(layout, closed, s, op)
    requires op.AcquireOp? || op.ReleaseOp? || op.PushOp? || op.PopOp?
    ensures match op
            case AcquireOp(p) => Step(layout, closed, s, op) == s.(scopes := S.Acquire(s.scopes, p))
            case ReleaseOp(i) =>
              && i < |s.scopes.stacks| && s.scopes.stacks[i].scopes == []
              && Step(layout, closed, s, op) == s.(scopes := S.Release(s.scopes, i))
            case PushOp(i) =>
              && i < |s.scopes.stacks| && s.scopes.stacks[i].pid.Some?
              && Step(layout, closed, s, op) == s.(scopes := S.Push(s.scopes, i))
            case PopOp(i) => i < |s.scopes.stacks| && Step(layout, closed, s, op) == s.(scopes := S.PopScope(s.scopes, i))
  {
    hide Inv;
  }

  method PerformScopes(h: GcHeap, ghost closed: set<nat>, op: Op)
    requires Ready(h, closed) && Enabled(LayoutSizes(h.types), closed, h.s, op)
    requires op.AcquireOp? || op.ReleaseOp? || op.PushOp? || op.PopOp?
    modifies h
    ensures h.Valid() && h.s == Step(LayoutSizes(h.types), closed, old(h.s), op)
  {
    ReadyParts(h, closed);
    ScopeStep(LayoutSizes(h.types), closed, h.s, op);
    hide Ready, Inv, GcHeap.Valid, GcHeap.Ledger, NoDangling, MarksOk, ChainsOk, S.ScopesOk, W.WeakOk, A.AccountsOk;
    hide Step, Enabled;
    hide S.Acquire, S.Release, S.Push, S.PopScope, S.Idle, Prot;
    match op {
      case AcquireOp(p) => var _ := h.AcquireScopeStack(p);
      case ReleaseOp(i) => h.ReleaseScopeStack(i);
      case PushOp(i) => var _ := h.NewScope(i);
      case PopOp(i) => h.PopScope(i);
    }
  }

  lemma CacheStep(layout: seq<nat>, closed: set<nat>, s: State, op: Op)
    requires Inv(layout, closed, s) && Enabled(layout, closed, s, op)
    requires op.ProtectOp? || op.UnprotectOp? || op.PromoteOp? || op.ClearOp?
    ensures match op
            case ProtectOp(at, n) =>
              && S.IsScope(s.scopes.stacks, at) && Linked(s.g, n) && n in s.m.color && |s.m.gray| == |s.m.marking|
              && ShadesRight(s.g, s.m, S.ScopeAt(s.scopes.stacks, at).pid, n)
              && Step(layout, closed, s, op) == if n in Prot(s) then s else Protected(s, at, n)
            case UnprotectOp(at, n) =>
              S.IsScope(s.scopes.stacks, at) && Step(layout, closed, s, op) == s.(scopes := S.Remove(s.scopes, at, n))
            case PromoteOp(at, target, n) =>
              && S.IsScope(s.scopes.stacks, at) && S.IsScope(s.scopes.stacks, target)
              && Step(layout, closed, s, op) == s.(scopes := S.Promote(s.scopes, at, target, n))
            case ClearOp(at) =>
              S.IsScope(s.scopes.stacks, at) && Step(layout, closed, s, op) == s.(scopes := S.Clear(s.scopes, at))
  {
    hide S.ScopesOk, S.Remove, S.Promote, S.Clear;
  }

  method PerformCaches(h: GcHeap, ghost closed: set<nat>, op: Op)
    requires Ready(h, closed) && Enabled(LayoutSizes(h.types), closed, h.s, op)
    requires op.ProtectOp? || op.UnprotectOp? || op.PromoteOp? || op.ClearOp?
    modifies h
    ensures h.Valid() && h.s == Step(LayoutSizes(h.types), closed, old(h.s), op)
  {
    ReadyParts(h, closed);
    CacheStep(LayoutSizes(h.types), closed, h.s, op);
    hide Ready, Inv, GcHeap.Valid, GcHeap.Ledger, NoDangling, MarksOk, ChainsOk, S.ScopesOk, W.WeakOk, A.AccountsOk;
    hide Step, Enabled, ShadesRight, Linked;
    hide S.Remove, S.Promote, S.Clear, Protected, ProtectedMarks;
    match op {
      case ProtectOp(at, n) => var _ := h.AddNonLocal(at, n);
      case UnprotectOp(at, n) => var _ := h.RemoveNode(at, n);
      case PromoteOp(at, target, n) => var _ := h.PromoteNodeTo(at, target, n);
      case ClearOp(at) => h.Clear(at);
    }
  }

  lemma TableStep(layout: seq<nat>, closed: set<nat>, s: State, op: Op)
    requires Inv(layout, closed, s) && Enabled(layout, closed, s, op)
    requires op.DowngradeOp? || op.LimitOp? || op.ThresholdOp? || op.CreateOp? || op.UnlinkOp?
    ensures match op
            case DowngradeOp(n) =>
              n in s.g.part && n in s.weak.ids && Step(layout, closed, s, op) == s.(weak := W.Downgrade(s.weak, n))
            case LimitOp(v) => Step(layout, closed, s, op) == s.(acc := A.SetLimit(s.acc, v))
            case ThresholdOp(v) => Step(layout, closed, s, op) == s.(acc := A.SetThreshold(s.acc, v))
            case CreateOp => |s.g.chain| < 0x1_0000 && Step(layout, closed, s, op) == WithPartition(s)
            case UnlinkOp(p) =>
              Step(layout, closed, s, op) == s.(g := UnlinkGraph(s.g, Prot(s), s.m, p), m := UnlinkMarks(s.m, p))
  {
  }

  method PerformTables(h: GcHeap, ghost closed: set<nat>, op: Op)
    requires Ready(h, closed) && Enabled(LayoutSizes(h.types), closed, h.s, op)
    requires op.DowngradeOp? || op.LimitOp? || op.ThresholdOp? || op.CreateOp? || op.UnlinkOp?
    modifies h
    ensures h.Valid() && h.s == Step(LayoutSizes(h.types), closed, old(h.s), op)
  {
    ReadyParts(h, closed);
    TableStep(LayoutSizes(h.types), closed, h.s, op);
    hide Ready, Inv, GcHeap.Valid, GcHeap.Ledger, NoDangling, MarksOk, ChainsOk, S.ScopesOk, W.WeakOk, A.AccountsOk;
    hide Step, Enabled;
    hide W.Downgrade, W.Full, A.SetLimit, A.SetThreshold, WithPartition, UnlinkGraph, UnlinkMarks, Prot, CanUnlink, Dead;
    match op {
      case DowngradeOp(n) => var _ := h.Downgrade(n);
      case LimitOp(v) => var _ := h.SetMemoryLimit(v);
      case ThresholdOp(v) => var _ := h.SetGcThreshold(v);
      case CreateOp => var _ := h.CreatePartition();
      case UnlinkOp(p) => var _ := h.SweepUnlink(p);
    }
  }

  /** Disposal is one call for each node, in any order. */
  method DisposeEach(h: GcHeap, p: nat, gone: set<Ptr>)
    requires h.Valid() && h.Ledger() && p < |h.s.g.chain| && AllLimbo(h.s.g, p, gone)
    modifies h
    ensures h.Valid() && p < |old(h.s).acc.used|
    ensures var d := A.Bytes(gone, old(h.s).g.dtype, LayoutSizes(h.types)); d <= old(h.s).acc.used[p] && d <= old(h.s).acc.total
    ensures h.s == Disposed(LayoutSizes(h.types), old(h.s), p, gone)
    decreases |gone|
  {
    MarksWf(h.s.g, h.s.m);
    DisposedFits(h.types, h.dropPasses, h.s, p, gone);
    hide RowsOk, PartsOk, MarksOk, ChainsOk, LedgerOk, Disposed, A.Bytes;
    if gone == {} {
      DisposedNone(LayoutSizes(h.types), h.s, p);
    } else {
      var n :| n in gone;
      var rest := gone - {n};
      assert {n} + rest == gone && n in h.mem;
      DisposedTwice(h.types, h.dropPasses, h.s, p, {n}, rest);
      var _ := h.DisposeNoDrop(n);
      DisposeEach(h, p, rest);
    }
  }

  lemma DisposeStep(types: seq<TypeInfo>, passes: seq<nat>, closed: set<nat>, s: State, p: nat, gone: set<Ptr>)
    requires Inv(LayoutSizes(types), closed, s) && Enabled(LayoutSizes(types), closed, s, DisposeOp(p, gone))
    ensures Wf(s.g) && p < |s.g.chain| && p < |s.acc.used| && AllLimbo(s.g, p, gone)
    ensures var layout := LayoutSizes(types);
            && A.Bytes(gone, s.g.dtype, layout) <= s.acc.used[p] && A.Bytes(gone, s.g.dtype, layout) <= s.acc.total
            && Step(layout, closed, s, DisposeOp(p, gone)) == Disposed(layout, s, p, gone)
  {
    hide Disposed, A.Bytes;
    A.ReleaseOk(s.g, Free(s.g, gone), LayoutSizes(types), s.acc, p, gone);
  }

  method PerformDispose(h: GcHeap, ghost closed: set<nat>, op: Op)
    requires Ready(h, closed) && Enabled(LayoutSizes(h.types), closed, h.s, op) && op.DisposeOp?
    modifies h
    ensures h.Valid() && h.s == Step(LayoutSizes(h.types), closed, old(h.s), op)
  {
    ReadyParts(h, closed);
    DisposeStep(h.types, h.dropPasses, closed, h.s, op.p, op.gone);
    hide Ready, Inv, Step, Enabled, Disposed, A.Bytes, GcHeap.Valid, GcHeap.Ledger;
    DisposeEach(h, op.p, op.gone);
  }

  lemma RemoveStep(layout: seq<nat>, closed: set<nat>, s: State, p: nat)
    requires Inv(layout, closed, s) && Enabled(layout, closed, s, RemoveOp(p))
    ensures p < |s.g.chain| && p < |s.m.gray| && p < |s.m.marking| && A.AccountsOk(s.g, layout, s.acc)
    ensures W.WeakOk(s.g.part.Keys, s.weak) && MarksOk(s.g, s.m) && Elems(s.g.chain[p]) == A.InPartition(s.g, p)
    ensures forall n :: InLimbo(s.g, n) ==> s.g.part[n] != p
    ensures Step(layout, closed, s, RemoveOp(p)) == RemovePartition(layout, s, p)
  {
    hide RemovePartition, A.AccountsOk, W.WeakOk;
    WholeChain(s.g, p);
  }

  /** Both phases of removing a partition, nothing between them. */
  method PerformRemove(h: GcHeap, ghost closed: set<nat>, op: Op)
    requires Ready(h, closed) && Enabled(LayoutSizes(h.types), closed, h.s, op) && op.RemoveOp?
    modifies h
    ensures h.Valid() && h.s == Step(LayoutSizes(h.types), closed, old(h.s), op)
  {
    ReadyParts(h, closed);
    RemoveStep(LayoutSizes(h.types), closed, h.s, op.p);
    TwoPhases(LayoutSizes(h.types), h.s, op.p);
    FinalizedSlots(h.s, op.p);
    hide Ready, Inv, Step, Enabled, RemovePartition, Deallocated, A.AccountsOk, W.WeakOk, MarksOk, ChainsOk;
    hide NoDangling, S.ScopesOk, SlotsEmpty, RowsOk, PartsOk, IsList;
    var link, _ := h.FinalizePartition(op.p);
    var _ := h.DeallocPartition(op.p, link.value);
  }

  /** Calling the methods an operation stands for takes the heap to the state the machine steps to. */
  method Perform(h: GcHeap, ghost closed: set<nat>, op: Op, arena: bool)
    requires Ready(h, closed) && Enabled(LayoutSizes(h.types), closed, h.s, op)
    modifies h
    ensures Ready(h, closed) && h.s == Step(LayoutSizes(h.types), closed, old(h.s), op)
  {
    ReadyParts(h, closed);
    StepOk(LayoutSizes(h.types), closed, h.s, op);
    StepKeepsRegistry(h.types, h.dropPasses, closed, h.s, op);
    hide Inv, Step, Enabled, GcHeap.Valid, RegistryOk;
    match op {
      case MarkOp(_, _) => PerformMarking(h, closed, op);
      case PrepareOp(_) => PerformMarking(h, closed, op);
      case GraysOp(_, _) => PerformMarking(h, closed, op);
      case ResetOp(_) => PerformMarking(h, closed, op);
      case AllocOp(_, _, _, _, _) => PerformAlloc(h, closed, op, arena);
      case RootOp(_) => PerformMutation(h, closed, op);
      case WriteOp(_, _) => PerformMutation(h, closed, op);
      case BindOp(_, _, _) => PerformMutation(h, closed, op);
      case AcquireOp(_) => PerformScopes(h, closed, op);
      case ReleaseOp(_) => PerformScopes(h, closed, op);
      case PushOp(_) => PerformScopes(h, closed, op);
      case PopOp(_) => PerformScopes(h, closed, op);
      case ProtectOp(_, _) => PerformCaches(h, closed, op);
      case UnprotectOp(_, _) => PerformCaches(h, closed, op);
      case PromoteOp(_, _, _) => PerformCaches(h, closed, op);
      case ClearOp(_) => PerformCaches(h, closed, op);
      case DisposeOp(_, _) => PerformDispose(h, closed, op);
      case RemoveOp(_) => PerformRemove(h, closed, op);
      case _ => PerformTables(h, closed, op);
    }
  }

  // ---- runs ----

  /** A run of the machine is a run of calls. */
  method PerformAll(h: GcHeap, ghost closed: set<nat>, ops: seq<Op>, arena: bool)
    requires Ready(h, closed) && Legal(LayoutSizes(h.types), closed, h.s, ops)
    modifies h
    ensures Ready(h, closed) && h.s == Exec(LayoutSizes(h.types), closed, old(h.s), ops)
  {
    hide Inv, Step, Enabled, GcHeap.Valid, RegistryOk;
    ghost var layout := LayoutSizes(h.types);
    var i := 0;
    while i < |ops|
      invariant i <= |ops| && Ready(h, closed) && Legal(layout, closed, h.s, ops[i..])
      invariant Exec(layout, closed, h.s, ops[i..]) == Exec(layout, closed, old(h.s), ops)
    {
      assert ops[i..][0] == ops[i] && ops[i..][1..] == ops[i + 1..];
      Perform(h, closed, ops[i], arena);
      i := i + 1;
    }
  }

  /** ... and every run from nothing is one of calls on a new heap. */
  method PerformFromNew(types: seq<TypeInfo>, passes: seq<nat>, ghost closed: set<nat>, ops: seq<Op>, arena: bool)
    returns (h: GcHeap)
    requires RegistryOk(types, passes, Empty().g) && LegalRun(LayoutSizes(types), closed, ops)
    ensures fresh(h) && Ready(h, closed) && h.types == types && h.s == After(LayoutSizes(types), closed, ops)
  {
    EmptyOk(LayoutSizes(types), closed);
    hide Inv, Legal, Exec, GcHeap.Valid, RegistryOk;
    h := new GcHeap(types, passes);
    PerformAll(h, closed, ops, arena);
  }
}
