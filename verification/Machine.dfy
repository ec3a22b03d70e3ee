/**
 The heap as a state machine: every operation a program can interleave with incremental marking, and the
 invariant they all keep.
 */
module Machine {
  import opened Basics
  import opened Graphs
  import opened Marking
  import opened Tricolor
  import opened Sweep
  import A = Accounting
  import W = Weak
  import S = Scopes

  datatype State = State(
    g: Graph,
    m: Marks,
    roots: set<Ptr>,
    scopes: S.ScopeTable,
    weak: W.WeakTable,
    acc: A.Accounts)

  /** What the collector must keep: ROOT and LOCAL nodes. */
  ghost function Prot(s: State): set<Ptr> {
    s.roots + S.Locals(s.scopes)
  }

  /**
   `layout` is the registry's layout sizes by type. `closed` is the set of partitions that the program
   never lets another partition point into; only those are swept or removed on their own.
   */
  ghost predicate Inv(layout: seq<nat>, closed: set<nat>, s: State) {
    && Wf(s.g) && ChainsOk(s.g) && NoDangling(s.g)
    && MarksOk(s.g, s.m)
    && s.roots <= s.g.linked
    && S.ScopesOk(s.g, s.scopes)
    && W.WeakOk(s.g.part.Keys, s.weak)
    && A.AccountsOk(s.g, layout, s.acc) && A.LimitOk(s.acc)
    && (forall q {:trigger q in closed} :: q in closed && q < |s.g.chain| ==> Guarded(s, q))
  }

  ghost predicate Guarded(s: State, q: nat)
    requires MarksOk(s.g, s.m) && q < |s.g.chain|
  {
    NoInbound(s.g, q) && Safe(s.g, Prot(s), s.m, q)
  }

  /** `GcHeap::new` (src/heap.rs:107-124): no partitions, one idle scope stack. */
  ghost function Empty(): State {
    State(Graph(map[], map[], map[], {}, []), Marks(map[], {}, [], []), {}, S.ScopeTable(map[], [S.Stack([], None)]),
          W.WeakTable(map[], [], []), A.Accounts([], 0, 0, 0))
  }

  // ---- operations ----

  datatype Op =
    | MarkOp(p: nat, budget: nat)
    | PrepareOp(p: nat)
    | GraysOp(p: nat, budget: nat)
    | ResetOp(p: nat)
    | AllocOp(p: nat, addr: Ptr, kids: seq<Ptr>, dtype: nat, root: bool)
    | RootOp(n: Ptr)
    | WriteOp(n: Ptr, kids: seq<Ptr>)                    // with_write_barrier around a store
    | BindOp(master: Ptr, slave: Ptr, kids: seq<Ptr>)    // bind, then the store it announces
    | AcquireOp(p: nat) | ReleaseOp(i: nat) | PushOp(i: nat) | PopOp(i: nat)
    | ProtectOp(at: S.Place, n: Ptr)
    | UnprotectOp(at: S.Place, n: Ptr)
    | PromoteOp(at: S.Place, target: S.Place, n: Ptr)
    | ClearOp(at: S.Place)
    | UnlinkOp(p: nat)
    | DisposeOp(p: nat, gone: set<Ptr>)
    | DowngradeOp(n: Ptr)
    | LimitOp(v: nat) | ThresholdOp(v: nat)
    | CreateOp
    | RemoveOp(p: nat)                                   // finalize_partition, then dealloc_partition

  /** A pointer store into `n` may not create an edge into a closed partition from outside it. */
  ghost predicate StoreAllowed(closed: set<nat>, g: Graph, p: nat, kids: seq<Ptr>) {
    forall k :: k in kids ==> Linked(g, k) && (g.part[k] in closed ==> g.part[k] == p)
  }

  /** `add_node` shades in the scope's partition `q`: its own, or one where the shading pushes nothing. */
  ghost predicate ShadesRight(g: Graph, m: Marks, q: nat, n: Ptr)
    requires MarksOk(g, m) && Linked(g, n)
  {
    g.part[n] == q || q >= |m.gray| || !m.marking[q] || m.color[n] == Black || n in m.listed
  }

  /** ... and a White node of a closed partition that is marking may not go unshaded. */
  ghost predicate MayShade(closed: set<nat>, g: Graph, m: Marks, q: nat, n: Ptr)
    requires MarksOk(g, m) && Linked(g, n)
  {
    && ShadesRight(g, m, q, n)
    && (g.part[n] != q && g.part[n] in closed && m.marking[g.part[n]] && m.color[n] == White ==>
          q < |m.gray| && m.marking[q])
  }

  /** What the source asks of callers: arguments that exist, and the discipline `closed` stands for. */
  ghost predicate Enabled(layout: seq<nat>, closed: set<nat>, s: State, op: Op)
    requires MarksOk(s.g, s.m)
  {
    match op
    case MarkOp(p, _) => p < |s.g.chain|
    case PrepareOp(_) => true
    case GraysOp(p, _) => p < |s.g.chain|
    case ResetOp(p) => p < |s.g.chain|
    case AllocOp(p, addr, kids, dtype, _) => addr !in s.g.part && dtype < |layout| && StoreAllowed(closed, s.g, p, kids)
    case RootOp(n) => Linked(s.g, n)
    case WriteOp(n, kids) => Linked(s.g, n) && StoreAllowed(closed, s.g, s.g.part[n], kids)
    case BindOp(master, slave, kids) =>
      && Linked(s.g, master) && Linked(s.g, slave) && master in s.g.kids
      && StoreAllowed(closed, s.g, s.g.part[master], [slave])
      && (forall k :: k in kids ==> k == slave || k in s.g.kids[master])
    case AcquireOp(_) => true
    case ReleaseOp(i) => i < |s.scopes.stacks| && s.scopes.stacks[i].scopes == []
    case PushOp(i) => i < |s.scopes.stacks| && s.scopes.stacks[i].pid.Some?
    case PopOp(i) => i < |s.scopes.stacks|
    case ProtectOp(at, n) =>
      && S.IsScope(s.scopes.stacks, at) && Linked(s.g, n)
      && MayShade(closed, s.g, s.m, S.ScopeAt(s.scopes.stacks, at).pid, n)
    case UnprotectOp(at, _) => S.IsScope(s.scopes.stacks, at)
    case PromoteOp(at, target, _) => S.IsScope(s.scopes.stacks, at) && S.IsScope(s.scopes.stacks, target)
    case ClearOp(at) => S.IsScope(s.scopes.stacks, at)
    case UnlinkOp(p) => p in closed
    case DisposeOp(p, gone) => p < |s.g.chain| && forall n :: n in gone ==> InLimbo(s.g, n) && s.g.part[n] == p
    case DowngradeOp(n) => Linked(s.g, n)
    case LimitOp(_) => true
    case ThresholdOp(_) => true
    case CreateOp => |s.g.chain| < 0x1_0000                // partition ids are 16 bits wide
    case RemoveOp(p) =>
      && p in closed && p < |s.g.chain| && (forall n :: InLimbo(s.g, n) ==> s.g.part[n] != p)
      && S.HeldInside(s.g, s.scopes, p)
  }

  ghost function RemovedGraph(g: Graph, p: nat): Graph
    requires p < |g.chain|
  {
    var gone := A.InPartition(g, p);
    Free(g.(linked := g.linked - gone, chain := g.chain[p := []]), gone)
  }

  ghost function RemovedMarks(g: Graph, m: Marks, p: nat): Marks
    requires p < |m.gray| && p < |m.marking|
  {
    var gone := A.InPartition(g, p);
    Marks(m.color - gone, m.listed - gone, m.gray[p := []], m.marking[p := false])
  }

  /** The first phase of removing a partition, payload drops aside (src/partition.rs:179-212). */
  ghost function Finalized(s: State, p: nat): State
    requires p < |s.g.chain|
  {
    s.(scopes := S.ClearPartition(s.scopes, p), weak := s.weak.(slots := W.Forget(s.weak, Elems(s.g.chain[p])).slots))
  }

  /** The second phase (src/partition.rs:248-321). */
  ghost function Deallocated(s: State, p: nat): State
    requires p < |s.g.chain| && p < |s.m.gray| && p < |s.m.marking| && p < |s.acc.used| && s.acc.used[p] <= s.acc.total
  {
    var gone := A.InPartition(s.g, p);
    s.(g := RemovedGraph(s.g, p), m := RemovedMarks(s.g, s.m, p), roots := s.roots - gone,
       weak := s.weak.(ids := s.weak.ids - gone), acc := A.Release(s.acc, p, s.acc.used[p]))
  }

  /** Everything a partition still has linked is freed and the partition reset (src/partition.rs:179-321). */
  ghost function RemovePartition(layout: seq<nat>, s: State, p: nat): State
    requires p < |s.g.chain| && p < |s.m.gray| && p < |s.m.marking| && A.AccountsOk(s.g, layout, s.acc)
  {
    var gone := A.InPartition(s.g, p);
    A.UsedWithinTotal(s.acc, p);
    State(
      RemovedGraph(s.g, p),
      RemovedMarks(s.g, s.m, p),
      s.roots - gone,
      S.ClearPartition(s.scopes, p),
      W.Forget(s.weak, gone),
      A.Release(s.acc, p, s.acc.used[p]))
  }

  /** Freeing a set of unlinked nodes of one partition (src/mem.rs:287-339, once per node). */
  ghost function Disposed(layout: seq<nat>, s: State, p: nat, gone: set<Ptr>): State
    requires p < |s.acc.used|
    requires A.Bytes(gone, s.g.dtype, layout) <= s.acc.used[p] && A.Bytes(gone, s.g.dtype, layout) <= s.acc.total
  {
    s.(g := Free(s.g, gone), m := s.m.(color := s.m.color - gone), roots := s.roots - gone,
       weak := W.Forget(s.weak, gone), acc := A.Release(s.acc, p, A.Bytes(gone, s.g.dtype, layout)))
  }

  /** A fresh node at the head of its partition's chain (src/mem.rs:62-209). */
  ghost function Allocated(s: State, p: nat, n: Ptr, kids: seq<Ptr>, dtype: nat, size: nat): (s': State)
    requires p < |s.g.chain| && p < |s.acc.used|
    ensures n in s'.g.part && n in s'.m.color && s'.g.part[n] == p && |s'.m.gray| == |s.m.gray| && |s'.m.marking| == |s.m.marking|
  {
    s.(g := Attach(s.g, p, n, kids, dtype), m := s.m.(color := s.m.color[n := White]),
       weak := W.Enroll(s.weak, n), acc := A.Charge(s.acc, p, size))
  }

  /** A node becomes a root (src/mem.rs:229-239, src/heap.rs:203-213). */
  ghost function Rooted(s: State, n: Ptr): State
    requires n in s.g.part && n in s.m.color && s.g.part[n] < |s.m.gray| == |s.m.marking|
  {
    s.(roots := s.roots + {n}, m := EnlistIfMarking(s.m, s.g.part[n], n))
  }

  /** A node enters a scope's cache (src/scope.rs:142-173). */
  ghost function Protected(s: State, at: S.Place, n: Ptr): State
    requires S.IsScope(s.scopes.stacks, at) && n in s.m.color && |s.m.gray| == |s.m.marking|
  {
    s.(scopes := S.Add(s.scopes, at, n), m := ProtectedMarks(s.m, S.ScopeAt(s.scopes.stacks, at).pid, n))
  }

  /** The scope's partition need not exist (src/scope.rs:151). */
  ghost function ProtectedMarks(m: Marks, q: nat, n: Ptr): Marks
    requires n in m.color && |m.gray| == |m.marking|
  {
    if q < |m.gray| then EnlistIfMarking(m, q, n) else m
  }

  /** One more, empty, partition (src/partition.rs:147-156). */
  ghost function WithPartition(s: State): State {
    s.(g := s.g.(chain := s.g.chain + [[]]),
       m := s.m.(gray := s.m.gray + [[]], marking := s.m.marking + [false]),
       acc := s.acc.(used := s.acc.used + [0]))
  }

  ghost function Step(layout: seq<nat>, closed: set<nat>, s: State, op: Op): State
    requires Inv(layout, closed, s) && Enabled(layout, closed, s, op)
  {
    hide S.ScopesOk, NoDangling, ChainsOk, A.LimitOk, Guarded, StoreAllowed;
    match op
    case MarkOp(p, budget) => s.(m := Mark(s.g, Prot(s), s.m, p, budget).0)
    case PrepareOp(p) => s.(m := Prepare(s.g, Prot(s), s.m, p))
    case GraysOp(p, budget) => if budget == 0 then s else s.(m := MarkLoop(s.g, s.m, p, budget).0)
    case ResetOp(p) => s.(m := Reset(s.g, s.m, p))
    case AllocOp(p, addr, kids, dtype, root) =>
      if p >= |s.g.chain| || A.OverLimit(s.acc, layout[dtype]) then s
      else if root then Rooted(Allocated(s, p, addr, kids, dtype, layout[dtype]), addr)
      else Allocated(s, p, addr, kids, dtype, layout[dtype])
    case RootOp(n) => if n in s.roots then s else Rooted(s, n)
    case WriteOp(n, kids) => s.(m := Barrier(s.g, s.m, n), g := s.g.(kids := s.g.kids[n := kids]))
    case BindOp(master, slave, kids) =>
      s.(m := BindMarks(s.g, s.m, master, slave), g := s.g.(kids := s.g.kids[master := kids]))
    case AcquireOp(p) => s.(scopes := S.Acquire(s.scopes, p))
    case ReleaseOp(i) => s.(scopes := S.Release(s.scopes, i))
    case PushOp(i) => s.(scopes := S.Push(s.scopes, i))
    case PopOp(i) => s.(scopes := S.PopScope(s.scopes, i))
    case ProtectOp(at, n) =>
      if n in Prot(s) then s else Protected(s, at, n)
    case UnprotectOp(at, n) => s.(scopes := S.Remove(s.scopes, at, n))
    case PromoteOp(at, target, n) => s.(scopes := S.Promote(s.scopes, at, target, n))
    case ClearOp(at) => s.(scopes := S.Clear(s.scopes, at))
    case UnlinkOp(p) => s.(g := UnlinkGraph(s.g, Prot(s), s.m, p), m := UnlinkMarks(s.m, p))
    case DisposeOp(p, gone) =>
      A.ReleaseOk(s.g, Free(s.g, gone), layout, s.acc, p, gone);
      Disposed(layout, s, p, gone)
    case DowngradeOp(n) => s.(weak := W.Downgrade(s.weak, n))
    case LimitOp(v) => s.(acc := A.SetLimit(s.acc, v))
    case ThresholdOp(v) => s.(acc := A.SetThreshold(s.acc, v))
    case CreateOp => WithPartition(s)
    case RemoveOp(p) => RemovePartition(layout, s, p)
  }
}
