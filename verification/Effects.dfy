/**
 What every operation of the machine does to the heap and what it leaves alone, column by column and without
 naming the functions it is made of; and what that means for roots and stores over whole runs.
 */
module Effects {
  import opened Basics
  import opened Graphs
  import opened Marking
  import opened Tricolor
  import opened Cycles
  import opened Bounds
  import opened Sweep
  import opened Machine
  import opened Preservation
  import opened Runs
  import A = Accounting
  import S = Scopes
  import W = Weak
  import C = Snapshot

  lemma PartsOfInv(layout: seq<nat>, closed: set<nat>, s: State)
    requires Inv(layout, closed, s)
    ensures MarksOk(s.g, s.m) && ChainsOk(s.g) && NoDangling(s.g) && S.ScopesOk(s.g, s.scopes)
    ensures W.WeakOk(s.g.part.Keys, s.weak) && A.AccountsOk(s.g, layout, s.acc) && A.LimitOk(s.acc)
    ensures s.roots <= s.g.linked && Prot(s) <= s.g.linked && |s.acc.used| == |s.g.chain|
  {
  }

  /**
   With no partition closed the program may do whatever the source accepts: it may mark, allocate, root, store, bind and
   downgrade whenever the nodes, partitions and types it names exist, and use scopes whenever they are open.
   */
  lemma OpenHeapAllows(layout: seq<nat>, s: State, op: Op)
    requires Inv(layout, {}, s)
    ensures Enabled(layout, {}, s, op) <==>
              match op
              case MarkOp(p, _) => p < |s.g.chain|
              case PrepareOp(_) => true
              case GraysOp(p, _) => p < |s.g.chain|
              case ResetOp(p) => p < |s.g.chain|
              case AllocOp(_, n, kids, t, _) => n !in s.g.part && t < |layout| && forall k :: k in kids ==> k in s.g.linked
              case RootOp(n) => n in s.g.linked
              case WriteOp(n, kids) => n in s.g.linked && forall k :: k in kids ==> k in s.g.linked
              case BindOp(n, k, kids) =>
                && n in s.g.linked && k in s.g.linked
                && (forall x :: x in kids ==> x == k || (n in s.g.kids && x in s.g.kids[n]))
              case AcquireOp(_) => true
              case ReleaseOp(i) => i < |s.scopes.stacks| && s.scopes.stacks[i].scopes == []
              case PushOp(i) => i < |s.scopes.stacks| && s.scopes.stacks[i].pid != None
              case PopOp(i) => i < |s.scopes.stacks|
              case ProtectOp(at, n) =>
                && S.IsScope(s.scopes.stacks, at) && n in s.g.linked
                && (n in s.g.part && n in s.m.color ==>
                      var q := S.ScopeAt(s.scopes.stacks, at).pid;
                      s.g.part[n] == q || q >= |s.m.marking| || !s.m.marking[q] || s.m.color[n] == Black || n in s.m.listed)
              case UnprotectOp(at, _) => S.IsScope(s.scopes.stacks, at)
              case PromoteOp(at, to, _) => S.IsScope(s.scopes.stacks, at) && S.IsScope(s.scopes.stacks, to)
              case ClearOp(at) => S.IsScope(s.scopes.stacks, at)
              case UnlinkOp(_) => false
              case DisposeOp(p, gone) =>
                p < |s.g.chain| && forall n :: n in gone ==> n in s.g.part && n !in s.g.linked && s.g.part[n] == p
              case DowngradeOp(n) => n in s.g.linked
              case LimitOp(_) => true
              case ThresholdOp(_) => true
              case CreateOp => |s.g.chain| < 0x1_0000
              case RemoveOp(_) => false
  {
    hide S.ScopesOk, W.WeakOk, A.AccountsOk, A.LimitOk, ChainsOk, NoDangling;
  }

  // ---- shading ----

  /** Between `m` and `m'` only node `n` may have changed colour or flag, and only a stack may have gained it. */
  ghost predicate OnlyShaded(m: Marks, m': Marks, n: Ptr) {
    && m'.color.Keys == m.color.Keys && |m'.gray| == |m.gray| && m'.marking == m.marking
    && (forall x {:trigger m'.color[x]} :: x in m.color && x != n ==> m'.color[x] == m.color[x])
    && (forall x {:trigger x in m'.listed} :: x != n ==> (x in m'.listed <==> x in m.listed))
    && (forall q {:trigger m'.gray[q]} :: 0 <= q < |m.gray| ==> m'.gray[q] == m.gray[q] || m'.gray[q] == m.gray[q] + [n])
  }

  /** `n` has been shaded: Gray, flagged, on its partition's stack, and nothing else has happened. */
  ghost predicate Shaded(g: Graph, m: Marks, m': Marks, n: Ptr) {
    && OnlyShaded(m, m', n) && n in m'.color && m'.color[n] == Gray && n in m'.listed && n in g.part
    && g.part[n] < |m'.gray| && n in m'.gray[g.part[n]]
    && (forall q {:trigger m'.gray[q]} :: 0 <= q < |m.gray| && q != g.part[n] ==> m'.gray[q] == m.gray[q])
  }

  lemma EnlistEffect(g: Graph, m: Marks, n: Ptr)
    requires MarksOk(g, m) && Linked(g, n)
    ensures var m' := Enlist(m, g.part[n], n);
            if m.color[n] == Black then m' == m else Shaded(g, m, m', n)
  {
  }

  /** The barrier regrays a Black node of a marking partition, and otherwise does nothing. */
  lemma BarrierEffect(g: Graph, m: Marks, n: Ptr)
    requires MarksOk(g, m) && Linked(g, n)
    ensures var m' := Barrier(g, m, n);
            if m.marking[g.part[n]] && m.color[n] == Black then Shaded(g, m, m', n) else m' == m
  {
    hide Shaded;
    var m1 := m.(color := m.color[n := Gray]);
    EnlistOk(g, m1, n);
    if m.marking[g.part[n]] && m.color[n] == Black {
      assert MarksOk(g, m1);
      EnlistEffect(g, m1, n);
      ShadedAfterRegray(g, m, m1, Enlist(m1, g.part[n], n), n);
    }
  }

  lemma ShadedAfterRegray(g: Graph, m: Marks, m1: Marks, m': Marks, n: Ptr)
    requires n in m.color && m1 == m.(color := m.color[n := Gray]) && Shaded(g, m1, m', n)
    ensures Shaded(g, m, m', n)
  {
  }

  /**
   `bind`: a slave that is not Black is touched exactly when the master is Black, or is of another partition while the
   slave's is marking. It is then Gray, and listed if its partition is marking; nothing else changes.
   */
  lemma BindEffect(g: Graph, m: Marks, master: Ptr, slave: Ptr)
    requires MarksOk(g, m) && Linked(g, master) && Linked(g, slave)
    ensures var m', q := BindMarks(g, m, master, slave), g.part[slave];
            if m.color[slave] != Black && (m.color[master] == Black || (g.part[master] != q && m.marking[q]))
            then if m.marking[q] then Shaded(g, m, m', slave) else m' == m.(color := m.color[slave := Gray])
            else m' == m
  {
    hide Shaded;
    BindForm(g, m, master, slave);
    EnlistEffect(g, m, slave);
  }

  /** `mark_reset`: the partition ends White, unlisted and idle; every other node, stack and switch is as it was. */
  lemma ResetEffect(g: Graph, m: Marks, p: nat)
    requires MarksOk(g, m) && ChainsOk(g) && p < |g.chain|
    ensures var m' := Reset(g, m, p);
            && m'.color.Keys == m.color.Keys && |m'.gray| == |m.gray| && |m'.marking| == |m.marking|
            && m'.gray[p] == [] && !m'.marking[p]
            && (forall q :: 0 <= q < |m.gray| && q != p ==> m'.gray[q] == m.gray[q] && m'.marking[q] == m.marking[q])
            && (forall n {:trigger m'.color[n]} :: n in m.color ==>
                  m'.color[n] == if Linked(g, n) && g.part[n] == p then White else m.color[n])
            && (forall n {:trigger n in m'.listed} :: n in m'.listed <==> n in m.listed && n in g.part && g.part[n] != p)
  {
  }

  /**
   `mark_prepare`: unless its target is marking already, every partition is switched on; roots and locals are Gray and
   stacked; where a stack was empty everything else is White, and elsewhere nothing else changes.
   */
  lemma PrepareEffect(g: Graph, prot: set<Ptr>, m: Marks, p: nat)
    requires MarksOk(g, m) && ChainsOk(g) && prot <= g.linked
    ensures var m' := Prepare(g, prot, m, p);
            if p >= |m.marking| || m.marking[p] then m' == m
            else
              && m'.color.Keys == m.color.Keys && |m'.gray| == |m.gray| && |m'.marking| == |m.marking|
              && (forall q :: 0 <= q < |m'.marking| ==> m'.marking[q])
              && (forall n {:trigger m'.color[n]} :: n in m.color ==>
                    m'.color[n] == if n in prot then Gray
                                   else if Linked(g, n) && m.gray[g.part[n]] == [] then White
                                   else m.color[n])
              && (forall q, n {:trigger n in m'.gray[q]} :: 0 <= q < |m.gray| ==>
                    (n in m'.gray[q] <==> n in m.gray[q] || (n in prot && n in g.part && g.part[n] == q)))
              && (forall n {:trigger n in m'.listed} :: n in m'.listed <==>
                    n in m.listed || (n in m.color && n in prot && n in g.part && m.gray[g.part[n]] != []))
  {
    if p < |m.marking| && !m.marking[p] {
      forall q, n | 0 <= q < |m.gray|
        ensures n in Prepare(g, prot, m, p).gray[q] <==> n in m.gray[q] || (n in prot && n in g.part && g.part[n] == q)
      {
        assert n in prot && n in g.part && g.part[n] == q ==> n in g.chain[q];
      }
    }
  }

  /**
   One scan: its node turns Black and leaves the top of its stack, unflagged; the children that are not Black turn Gray,
   flagged, and join their own partitions' stacks; nothing else changes.
   */
  lemma ScanEffect(g: Graph, m: Marks, p: nat)
    requires NoDangling(g) && MarksOk(g, m) && p < |m.gray| && m.gray[p] != [] && GrayTop(g, m, p)
    ensures Linked(g, Top(m, p)) && Top(m, p) in g.kids
    ensures var n, m' := Top(m, p), Scan(g, m, p);
            && m'.color.Keys == m.color.Keys && |m'.gray| == |m.gray| && m'.marking == m.marking
            && (forall x {:trigger m'.color[x]} :: x in m.color ==>
                  m'.color[x] == if x == n then Black
                                 else if x in g.kids[n] && m.color[x] != Black then Gray
                                 else m.color[x])
            && (forall q, x {:trigger x in m'.gray[q]} :: 0 <= q < |m.gray| ==>
                  (x in m'.gray[q] <==>
                     x in (if q == p then m.gray[p][..|m.gray[p]| - 1] else m.gray[q])
                     || (x in g.kids[n] && x in m.color && m.color[x] != Black && x in g.part && g.part[x] == q)))
            && (forall x {:trigger x in m'.listed} :: x in m'.listed <==>
                  (x in m.listed && x != n) || (x in g.kids[n] && x in m.color && m.color[x] != Black))
  {
    PopOk(g, m, p);
    ScanOrderLinked(g, Top(m, p));
  }

  // ---- the operations ----

  /** A marking call touches marks only: the first prepares, and then at most `budget` nodes turn Black, exactly so many if it stops short. */
  lemma MarkOpEffect(layout: seq<nat>, closed: set<nat>, s: State, p: nat, budget: nat)
    requires Inv(layout, closed, s) && Enabled(layout, closed, s, MarkOp(p, budget))
    ensures var s', m1 := Step(layout, closed, s, MarkOp(p, budget)), Step(layout, closed, s, PrepareOp(p)).m;
            && s' == s.(m := s'.m) && MarksOk(s.g, m1) && MarksOk(s.g, s'.m)
            && s'.m.marking == m1.marking && (budget == 0 ==> s'.m == m1)
            && |NonBlack(s.g, m1, p)| <= |NonBlack(s.g, s'.m, p)| + budget
            && (budget > 0 && s'.m.gray[p] != [] ==> |NonBlack(s.g, s'.m, p)| + budget == |NonBlack(s.g, m1, p)|)
  {
    hide Inv, NonBlack, MarkLoop, Prepare;
    PartsOfInv(layout, closed, s);
    PrepareOk(s.g, Prot(s), s.m, p);
    var m1 := Prepare(s.g, Prot(s), s.m, p);
    CallBlackens(s.g, m1, p, budget);
  }

  /** `mark_grays` by itself: the same without preparing. */
  lemma GraysOpEffect(layout: seq<nat>, closed: set<nat>, s: State, p: nat, budget: nat)
    requires Inv(layout, closed, s) && Enabled(layout, closed, s, GraysOp(p, budget))
    ensures var s' := Step(layout, closed, s, GraysOp(p, budget));
            && MarksOk(s.g, s.m) && s' == s.(m := s'.m) && MarksOk(s.g, s'.m)
            && s'.m.marking == s.m.marking && (budget == 0 ==> s' == s)
            && |NonBlack(s.g, s.m, p)| <= |NonBlack(s.g, s'.m, p)| + budget
            && (budget > 0 && s'.m.gray[p] != [] ==> |NonBlack(s.g, s'.m, p)| + budget == |NonBlack(s.g, s.m, p)|)
  {
    hide Inv, NonBlack, MarkLoop;
    PartsOfInv(layout, closed, s);
    CallBlackens(s.g, s.m, p, budget);
  }

  lemma CallBlackens(g: Graph, m: Marks, p: nat, budget: nat)
    requires NoDangling(g) && MarksOk(g, m) && p < |m.gray|
    ensures var m' := MarkLoop(g, m, p, budget).0;
            && MarksOk(g, m') && m'.marking == m.marking
            && |NonBlack(g, m, p)| <= |NonBlack(g, m', p)| + budget
            && (m'.gray[p] != [] ==> |NonBlack(g, m', p)| + budget == |NonBlack(g, m, p)|)
  {
    MarkLoopOk(g, m, p, budget);
    LoopBlackensAtMost(g, m, p, budget);
    LimitedCallWorks(g, m, p, budget);
  }

  /** Preparing touches marks only, as `PrepareEffect` says. */
  lemma PrepareOpEffect(layout: seq<nat>, closed: set<nat>, s: State, p: nat)
    requires Inv(layout, closed, s)
    ensures var s' := Step(layout, closed, s, PrepareOp(p));
            && s' == s.(m := s'.m) && MarksOk(s.g, s.m) && MarksOk(s.g, s'.m)
            && (p < |s.m.marking| && !s.m.marking[p] ==>
                  && AllMarking(s'.m)
                  && (forall n {:trigger s'.m.color[n]} :: Linked(s.g, n) ==>
                        s'.m.color[n] == if n in Prot(s) then Gray
                                         else if s.m.gray[s.g.part[n]] == [] then White
                                         else s.m.color[n]))
            && (p >= |s.m.marking| || s.m.marking[p] ==> s' == s)
  {
    hide Inv, Prepare;
    PartsOfInv(layout, closed, s);
    PrepareOk(s.g, Prot(s), s.m, p);
    PrepareEffect(s.g, Prot(s), s.m, p);
  }

  lemma ResetOpEffect(layout: seq<nat>, closed: set<nat>, s: State, p: nat)
    requires Inv(layout, closed, s) && Enabled(layout, closed, s, ResetOp(p))
    ensures var s' := Step(layout, closed, s, ResetOp(p));
            && s' == s.(m := s'.m) && |s'.m.gray| == |s.m.gray| == |s'.m.marking| == |s.m.marking|
            && p < |s.m.gray| && s'.m.gray[p] == [] && !s'.m.marking[p]
            && (forall q :: 0 <= q < |s.m.gray| && q != p ==> s'.m.gray[q] == s.m.gray[q] && s'.m.marking[q] == s.m.marking[q])
            && (forall n {:trigger s'.m.color[n]} :: Linked(s.g, n) && n in s.m.color && n in s'.m.color ==>
                  s'.m.color[n] == if s.g.part[n] == p then White else s.m.color[n])
  {
    hide Inv, Reset;
    PartsOfInv(layout, closed, s);
    ResetEffect(s.g, s.m, p);
  }

  /** An allocation the limit or a missing partition refuses. */
  predicate Refused(chains: nat, acc: A.Accounts, p: nat, size: nat) {
    p >= chains || (acc.limit > 0 && acc.total + size > acc.limit)
  }

  /**
   Allocation: refused without effect, or the node is in memory with its children and type, linked first on its
   partition's chain, without a handle, charged for; a root exactly when asked for, and then shaded if its partition is
   marking; otherwise White. Every other node, chain, counter and scope is as it was.
   */
  lemma AllocOpEffect(layout: seq<nat>, closed: set<nat>, s: State, p: nat, n: Ptr, kids: seq<Ptr>, dtype: nat, root: bool)
    requires Inv(layout, closed, s) && Enabled(layout, closed, s, AllocOp(p, n, kids, dtype, root))
    ensures var s' := Step(layout, closed, s, AllocOp(p, n, kids, dtype, root));
            if Refused(|s.g.chain|, s.acc, p, layout[dtype]) then s' == s
            else
              && AllocatedIn(s, s', p, n, kids, dtype, layout[dtype])
              && s'.roots == (if root then s.roots + {n} else s.roots)
              && n in s'.m.color
              && (var m1 := s.m.(color := s.m.color[n := White]);
                  if root && s.m.marking[p] then Shaded(s'.g, m1, s'.m, n) else s'.m == m1)
  {
    hide Inv, Shaded;
    PartsOfInv(layout, closed, s);
    var size := layout[dtype];
    if !Refused(|s.g.chain|, s.acc, p, size) {
      AllocatedEffect(s, p, n, kids, dtype, size);
      var s1 := Allocated(s, p, n, kids, dtype, size);
      assert MarksOk(s1.g, s1.m) && Linked(s1.g, n) by { AttachMarksOk(s.g, s.m, p, n, kids, dtype); }
      hide Allocated, AllocatedIn;
      EnlistEffect(s1.g, s1.m, n);
      if root { RootedEffect(s1, n); }
    }
  }

  /** What an admitted allocation does apart from roots and shading. */
  ghost predicate AllocatedIn(s: State, s': State, p: nat, n: Ptr, kids: seq<Ptr>, dtype: nat, size: nat)
    requires p < |s.g.chain| && p < |s.acc.used|
  {
    && Linked(s'.g, n) && s'.g.part[n] == p && n in s'.g.kids && s'.g.kids[n] == kids && n in s'.g.dtype && s'.g.dtype[n] == dtype
    && s'.g.part - {n} == s.g.part && s'.g.kids - {n} == s.g.kids && s'.g.dtype - {n} == s.g.dtype
    && s'.g.linked == s.g.linked + {n}
    && |s'.g.chain| == |s.g.chain| && s'.g.chain[p] == [n] + s.g.chain[p]
    && (forall q :: 0 <= q < |s.g.chain| && q != p ==> s'.g.chain[q] == s.g.chain[q])
    && s'.scopes == s.scopes
    && n in s'.weak.ids && s'.weak.ids[n].version == 0 && s'.weak.ids - {n} == s.weak.ids && s'.weak.slots == s.weak.slots
    && |s'.acc.used| == |s.acc.used| && s'.acc.used[p] == s.acc.used[p] + size && s'.acc.total == s.acc.total + size
    && (forall q :: 0 <= q < |s.acc.used| && q != p ==> s'.acc.used[q] == s.acc.used[q])
    && s'.acc.limit == s.acc.limit && s'.acc.threshold == s.acc.threshold
  }

  lemma AllocatedEffect(s: State, p: nat, n: Ptr, kids: seq<Ptr>, dtype: nat, size: nat)
    requires p < |s.g.chain| && p < |s.acc.used| && Wf(s.g) && n !in s.g.part && n !in s.weak.ids
    ensures var s' := Allocated(s, p, n, kids, dtype, size);
            && AllocatedIn(s, s', p, n, kids, dtype, size) && s'.roots == s.roots
            && s'.m == s.m.(color := s.m.color[n := White])
  {
    assert s.g.part[n := p] - {n} == s.g.part && s.g.kids[n := kids] - {n} == s.g.kids;
    assert s.g.dtype[n := dtype] - {n} == s.g.dtype && s.weak.ids[n := W.NULL] - {n} == s.weak.ids;
  }

  lemma RootedEffect(s: State, n: Ptr)
    requires MarksOk(s.g, s.m) && Linked(s.g, n)
    ensures n in s.m.color && s.g.part[n] < |s.m.gray| == |s.m.marking|
    ensures var s' := Rooted(s, n);
            && s' == s.(roots := s.roots + {n}, m := s'.m)
            && (if s.m.marking[s.g.part[n]] && s.m.color[n] != Black then Shaded(s.g, s.m, s'.m, n) else s'.m == s.m)
  {
    hide Shaded;
    EnlistEffect(s.g, s.m, n);
  }

  /** A node becomes a root, shaded if its partition is marking; no other node's ROOT changes, and nothing else at all. */
  lemma RootOpEffect(layout: seq<nat>, closed: set<nat>, s: State, n: Ptr)
    requires Inv(layout, closed, s) && Enabled(layout, closed, s, RootOp(n))
    ensures var s' := Step(layout, closed, s, RootOp(n));
            && n in Prot(s') && s'.roots == s.roots + {n} && s' == s.(roots := s'.roots, m := s'.m)
            && n in s.m.color && s.g.part[n] < |s.m.marking|
            && (if n !in s.roots && s.m.marking[s.g.part[n]] && s.m.color[n] != Black
                then Shaded(s.g, s.m, s'.m, n) else s'.m == s.m)
  {
    hide Inv, Shaded;
    PartsOfInv(layout, closed, s);
    if n !in s.roots {
      RootedEffect(s, n);
    } else {
      assert s.roots + {n} == s.roots;
    }
  }

  /** A store: that node has the new children and every other node the ones it had; only the barrier touches marks. */
  lemma WriteOpEffect(layout: seq<nat>, closed: set<nat>, s: State, n: Ptr, kids: seq<Ptr>)
    requires Inv(layout, closed, s) && Enabled(layout, closed, s, WriteOp(n, kids))
    ensures var s' := Step(layout, closed, s, WriteOp(n, kids));
            && s'.g.kids.Keys == s.g.kids.Keys && n in s'.g.kids && s'.g.kids[n] == kids
            && (forall x :: x in s.g.kids && x != n ==> s'.g.kids[x] == s.g.kids[x])
            && s' == s.(g := s.g.(kids := s'.g.kids), m := s'.m)
            && n in s.m.color && s.g.part[n] < |s.m.marking|
            && (if s.m.marking[s.g.part[n]] && s.m.color[n] == Black then Shaded(s.g, s.m, s'.m, n) else s'.m == s.m)
  {
    hide Inv, Shaded, Barrier;
    PartsOfInv(layout, closed, s);
    BarrierEffect(s.g, s.m, n);
  }

  /** `bind` with the store it announces. */
  lemma BindOpEffect(layout: seq<nat>, closed: set<nat>, s: State, master: Ptr, slave: Ptr, kids: seq<Ptr>)
    requires Inv(layout, closed, s) && Enabled(layout, closed, s, BindOp(master, slave, kids))
    ensures var s' := Step(layout, closed, s, BindOp(master, slave, kids));
            && s'.g.kids.Keys == s.g.kids.Keys && master in s'.g.kids && s'.g.kids[master] == kids
            && (forall x :: x in s.g.kids && x != master ==> s'.g.kids[x] == s.g.kids[x])
            && s' == s.(g := s.g.(kids := s'.g.kids), m := s'.m)
            && slave in s.m.color && master in s.m.color && s.g.part[slave] < |s.m.marking|
            && (var q := s.g.part[slave];
                if s.m.color[slave] != Black && (s.m.color[master] == Black || (s.g.part[master] != q && s.m.marking[q]))
                then if s.m.marking[q] then Shaded(s.g, s.m, s'.m, slave) else s'.m == s.m.(color := s.m.color[slave := Gray])
                else s'.m == s.m)
  {
    hide Inv, Shaded, BindMarks;
    PartsOfInv(layout, closed, s);
    BindEffect(s.g, s.m, master, slave);
  }

  /** The operations on scopes other than `add_node`: what is open, and what it caches, afterwards. */
  lemma ScopeOpEffect(layout: seq<nat>, closed: set<nat>, s: State, op: Op)
    requires Inv(layout, closed, s) && Enabled(layout, closed, s, op) && ScopeOp(op)
    ensures var s' := Step(layout, closed, s, op);
            && s' == s.(scopes := s'.scopes)
            && (forall b, x {:trigger S.Cached(s'.scopes, b, x)} :: S.Cached(s'.scopes, b, x) <==>
                  match op
                  case UnprotectOp(at, n) => S.Cached(s.scopes, b, x) && !(b == at && x == n)
                  case PromoteOp(at, target, n) =>
                    if S.Cached(s.scopes, at, n) && x == n then b == target else S.Cached(s.scopes, b, x)
                  case ClearOp(at) => S.Cached(s.scopes, b, x) && b != at
                  case PopOp(i) =>
                    S.Cached(s.scopes, b, x) && !(s.scopes.stacks[i].scopes != [] && b == S.TopOf(s.scopes, i))
                  case _ => S.Cached(s.scopes, b, x))
  {
    hide Inv, S.ScopesOk, S.SameShape;
    PartsOfInv(layout, closed, s);
    OnlyScopes(layout, closed, s, op);
    var t := s.scopes;
    match op {
      case AcquireOp(p) => AcquireCaches(s.g, t, p);
      case ReleaseOp(i) => ReleaseCaches(t, i);
      case PushOp(i) => PushCaches(t, i);
      case PopOp(i) => S.PopEffect(s.g, t, i);
      case UnprotectOp(at, n) => S.RemoveEffect(s.g, t, at, n);
      case PromoteOp(at, target, n) => S.PromoteEffect(s.g, t, at, target, n);
      case ClearOp(at) => S.ClearEffect(s.g, t, at);
    }
  }

  lemma AcquireCaches(g: Graph, t: S.ScopeTable, p: nat)
    requires S.ScopesOk(g, t)
    ensures forall b, x {:trigger S.Cached(S.Acquire(t, p), b, x)} :: S.Cached(S.Acquire(t, p), b, x) <==> S.Cached(t, b, x)
  {
  }

  lemma ReleaseCaches(t: S.ScopeTable, i: nat)
    requires i < |t.stacks| && t.stacks[i].scopes == []
    ensures forall b, x {:trigger S.Cached(S.Release(t, i), b, x)} :: S.Cached(S.Release(t, i), b, x) <==> S.Cached(t, b, x)
  {
  }

  lemma PushCaches(t: S.ScopeTable, i: nat)
    requires i < |t.stacks| && t.stacks[i].pid.Some?
    ensures forall b, x {:trigger S.Cached(S.Push(t, i), b, x)} :: S.Cached(S.Push(t, i), b, x) <==> S.Cached(t, b, x)
  {
    S.PushEffect(t, i);
  }

  /** Which scopes are open, and who holds which stack, changes only with push, pop, acquire and release. */
  lemma ScopeShapeEffect(layout: seq<nat>, closed: set<nat>, s: State, op: Op)
    requires Inv(layout, closed, s) && Enabled(layout, closed, s, op) && ScopeOp(op)
    ensures var t, t' := s.scopes, Step(layout, closed, s, op).scopes;
            match op
            case PushOp(i) =>
              && |t'.stacks| == |t.stacks| && |t'.stacks[i].scopes| == |t.stacks[i].scopes| + 1
              && t'.stacks[i].pid == t.stacks[i].pid && t.stacks[i].scopes <= t'.stacks[i].scopes
              && (forall k :: 0 <= k < |t.stacks| && k != i ==> t'.stacks[k] == t.stacks[k])
            case PopOp(i) =>
              && |t'.stacks| == |t.stacks| && t'.stacks[i].pid == t.stacks[i].pid
              && |t'.stacks[i].scopes| == (if t.stacks[i].scopes == [] then 0 else |t.stacks[i].scopes| - 1)
              && t'.stacks[i].scopes <= t.stacks[i].scopes
              && (forall k :: 0 <= k < |t.stacks| && k != i ==> t'.stacks[k] == t.stacks[k])
            case AcquireOp(p) =>
              exists i {:trigger t'.stacks[i]} ::
                && 0 <= i < |t'.stacks| && t'.stacks[i] == S.Stack([], Some(p)) && (i < |t.stacks| ==> t.stacks[i].pid == None)
                && (forall k {:trigger t'.stacks[k]} :: 0 <= k < |t.stacks| && k != i ==> t'.stacks[k] == t.stacks[k])
            case ReleaseOp(i) =>
              && |t'.stacks| == |t.stacks| && t'.stacks[i] == S.Stack([], None)
              && (forall k :: 0 <= k < |t.stacks| && k != i ==> t'.stacks[k] == t.stacks[k])
            case _ => S.SameShape(t, t')
  {
    hide Inv, S.ScopesOk, S.SameShape;
    PartsOfInv(layout, closed, s);
    var t := s.scopes;
    match op {
      case AcquireOp(p) => S.AcquireEffect(s.g, t, p);
      case ReleaseOp(i) => S.ReleaseEffect(t, i, 0);
      case PushOp(i) =>
      case PopOp(i) => S.PopEffect(s.g, t, i);
      case UnprotectOp(at, n) => S.RemoveEffect(s.g, t, at, n);
      case PromoteOp(at, target, n) => S.PromoteEffect(s.g, t, at, target, n);
      case ClearOp(at) => S.ClearEffect(s.g, t, at);
    }
  }

  /** `add_non_local`: a root or local is left alone; any other node is cached there, and shaded if that scope's partition marks. */
  lemma ProtectOpEffect(layout: seq<nat>, closed: set<nat>, s: State, at: S.Place, n: Ptr)
    requires Inv(layout, closed, s) && Enabled(layout, closed, s, ProtectOp(at, n))
    ensures var s' := Step(layout, closed, s, ProtectOp(at, n));
            && n in Prot(s') && (n in Prot(s) ==> s' == s)
            && (n !in Prot(s) ==>
                  && s' == s.(scopes := s'.scopes, m := s'.m)
                  && S.SameShape(s.scopes, s'.scopes) && S.Locals(s'.scopes) == S.Locals(s.scopes) + {n}
                  && (forall b, x {:trigger S.Cached(s'.scopes, b, x)} :: S.Cached(s'.scopes, b, x) <==>
                        S.Cached(s.scopes, b, x) || (b == at && x == n))
                  && n in s.m.color
                  && (var q := S.ScopeAt(s.scopes.stacks, at).pid;
                      if q < |s.m.marking| && s.m.marking[q] && s.m.color[n] != Black
                      then OnlyShaded(s.m, s'.m, n) && n in s'.m.color && s'.m.color[n] == Gray
                      else s'.m == s.m))
  {
    hide Inv, S.ScopesOk, S.SameShape, S.Add;
    PartsOfInv(layout, closed, s);
    S.AddEffect(s.scopes, at, n);
    hide S.Cached;
  }

  /** `sweep_unlink`: where marking is complete the unprotected White nodes leave the partition's chain, the others keep their order, and marking ends. */
  lemma UnlinkOpEffect(layout: seq<nat>, closed: set<nat>, s: State, p: nat)
    requires Inv(layout, closed, s) && Enabled(layout, closed, s, UnlinkOp(p))
    ensures var s' := Step(layout, closed, s, UnlinkOp(p));
            && s' == s.(g := s.g.(linked := s'.g.linked, chain := s'.g.chain), m := s.m.(marking := s'.m.marking))
            && |s'.g.chain| == |s.g.chain| && |s'.m.marking| == |s.m.marking|
            && (forall q :: 0 <= q < |s.g.chain| && q != p ==> s'.g.chain[q] == s.g.chain[q])
            && (forall q :: 0 <= q < |s.m.marking| && q != p ==> s'.m.marking[q] == s.m.marking[q])
            && (if p < |s.m.marking| && p < |s.m.gray| && s.m.marking[p] && s.m.gray[p] == []
                then
                  && p < |s.g.chain| && !s'.m.marking[p] && s'.g.chain[p] == Keep(s.g.chain[p], s'.g.linked)
                  && (forall n :: Linked(s'.g, n) <==>
                        Linked(s.g, n) && (s.g.part[n] == p && n in s.m.color && s.m.color[n] == White ==> n in Prot(s)))
                else s' == s)
  {
    hide Inv;
    PartsOfInv(layout, closed, s);
    if CanUnlink(s.m, p) {
      var dead := Dead(s.g, Prot(s), s.m, p);
      KeepSame(s.g.chain[p], Elems(s.g.chain[p]) - dead, s.g.linked - dead);
    }
  }

  /** Disposal: exactly those nodes leave memory, their layout sizes leave the counters, and no handle upgrades to them. */
  lemma DisposeOpEffect(layout: seq<nat>, closed: set<nat>, s: State, p: nat, gone: set<Ptr>, id: W.WeakId)
    requires Inv(layout, closed, s) && Enabled(layout, closed, s, DisposeOp(p, gone))
    ensures var s' := Step(layout, closed, s, DisposeOp(p, gone));
            && s'.g == s.g.(kids := s.g.kids - gone, part := s.g.part - gone, dtype := s.g.dtype - gone)
            && s'.m == s.m.(color := s.m.color - gone) && s'.roots == s.roots && s'.scopes == s.scopes
            && s'.weak.ids == s.weak.ids - gone
            && W.Upgrade(s'.weak, id) ==
                 (if W.Upgrade(s.weak, id).Some? && W.Upgrade(s.weak, id).value in gone then None else W.Upgrade(s.weak, id))
            && |s'.acc.used| == |s.acc.used| && p < |s.acc.used|
            && s'.acc.used[p] + A.Bytes(gone, s.g.dtype, layout) == s.acc.used[p]
            && s'.acc.total + A.Bytes(gone, s.g.dtype, layout) == s.acc.total
            && (forall q :: 0 <= q < |s.acc.used| && q != p ==> s'.acc.used[q] == s.acc.used[q])
            && s'.acc.limit == s.acc.limit && s'.acc.threshold == s.acc.threshold
  {
    hide Inv, A.Bytes, W.Forget, W.Upgrade, A.Release;
    PartsOfInv(layout, closed, s);
    assert gone <= A.InPartition(s.g, p) && gone !! s.g.linked;
    A.ReleaseOk(s.g, Free(s.g, gone), layout, s.acc, p, gone);
    A.ReleaseEffect(s.acc, p, A.Bytes(gone, s.g.dtype, layout));
    W.ForgetEffect(s.weak, gone, id);
    assert s.roots - gone == s.roots;
  }

  /** Downgrading, limits and thresholds touch their own tables only, as `Weak.DowngradeEffect` and the setters' effects say. */
  lemma TableOpEffect(layout: seq<nat>, closed: set<nat>, s: State, op: Op)
    requires Inv(layout, closed, s) && Enabled(layout, closed, s, op) && (op.DowngradeOp? || op.LimitOp? || op.ThresholdOp?)
    ensures var s' := Step(layout, closed, s, op);
            match op
            case DowngradeOp(n) =>
              && s' == s.(weak := s'.weak) && n in s'.weak.ids && n in s.weak.ids
              && (forall x :: x in s.weak.ids && x != n ==> x in s'.weak.ids && s'.weak.ids[x] == s.weak.ids[x])
              && (s.weak.ids[n].version != 0 || |s.weak.slots| < W.MAX_SLOTS ==>
                    W.Upgrade(s'.weak, s'.weak.ids[n]) == Some(n))
              && (s.weak.ids[n].version != 0 || |s.weak.slots| == W.MAX_SLOTS ==> s' == s)
            case LimitOp(v) =>
              && s' == s.(acc := s'.acc) && s'.acc.used == s.acc.used && s'.acc.total == s.acc.total
              && (v == 0 ==> s'.acc.limit == 0)
              && (v > 0 ==> s'.acc.limit >= v && s'.acc.limit >= s.acc.total && (s'.acc.limit == v || s'.acc.limit == s.acc.total))
              && (v == 0 || s.acc.threshold < s'.acc.limit ==> s'.acc.threshold == s.acc.threshold)
            case ThresholdOp(v) =>
              && s' == s.(acc := s.acc.(threshold := s'.acc.threshold)) && s'.acc.threshold <= v
              && (v == 0 || s.acc.limit == 0 ==> s'.acc.threshold == v)
              && (v > 0 && s.acc.limit > 0 && s'.acc.threshold < v ==>
                    10 * (s'.acc.threshold + 1) > 8 * s.acc.limit || 10 * (s'.acc.threshold + 1) > A.USIZE_MAX)
  {
    hide Inv, W.WeakOk, W.Downgrade, W.Upgrade, A.SetLimit, A.SetThreshold;
    PartsOfInv(layout, closed, s);
    match op {
      case DowngradeOp(n) =>
        W.DowngradeEffect(s.g.part.Keys, s.weak, n);
        W.DowngradeOk(s.g.part.Keys, s.weak, n);
        WeakKeys(s.g.part.Keys, s.weak);
      case LimitOp(v) => A.SetLimitEffect(s.acc, v);
      case ThresholdOp(v) => A.SetThresholdEffect(s.acc, v);
    }
  }

  lemma WeakKeys(nodes: set<Ptr>, w: W.WeakTable)
    requires W.WeakOk(nodes, w)
    ensures w.ids.Keys == nodes && |w.slots| <= W.MAX_SLOTS
  {
  }

  /** A new partition: one more, empty, idle and unused; nothing else changes. */
  lemma CreateOpEffect(layout: seq<nat>, closed: set<nat>, s: State)
    requires Inv(layout, closed, s) && Enabled(layout, closed, s, CreateOp)
    ensures var s', p := Step(layout, closed, s, CreateOp), |s.g.chain|;
            && s'.roots == s.roots && s'.scopes == s.scopes && s'.weak == s.weak
            && s'.g == s.g.(chain := s'.g.chain) && |s'.g.chain| == p + 1 && s'.g.chain[..p] == s.g.chain && s'.g.chain[p] == []
            && s'.m == s.m.(gray := s'.m.gray, marking := s'.m.marking)
            && |s'.m.gray| == p + 1 && s'.m.gray[..p] == s.m.gray && s'.m.gray[p] == []
            && |s'.m.marking| == p + 1 && s'.m.marking[..p] == s.m.marking && !s'.m.marking[p]
            && s'.acc == s.acc.(used := s'.acc.used) && |s'.acc.used| == p + 1 && s'.acc.used[..p] == s.acc.used && s'.acc.used[p] == 0
  {
    hide Inv;
    PartsOfInv(layout, closed, s);
  }

  /** Removal: the partition's nodes are gone from memory and protected by nothing, its stacks' scopes are empty; every other node is as it was. */
  lemma RemoveOpEffect(layout: seq<nat>, closed: set<nat>, s: State, p: nat, n: Ptr)
    requires Inv(layout, closed, s) && Enabled(layout, closed, s, RemoveOp(p))
    ensures var s' := Step(layout, closed, s, RemoveOp(p));
            && (n in s'.g.part <==> n in s.g.part && s.g.part[n] != p) && (Linked(s'.g, n) <==> Linked(s.g, n) && s.g.part[n] != p)
            && (n in s'.roots <==> n in s.roots && n in s'.g.part)
            && (n in s'.g.part ==>
                  && s'.g.part[n] == s.g.part[n] && n in s'.g.kids && n in s.g.kids && s'.g.kids[n] == s.g.kids[n]
                  && n in s'.g.dtype && n in s.g.dtype && s'.g.dtype[n] == s.g.dtype[n]
                  && n in s'.m.color && n in s.m.color && s'.m.color[n] == s.m.color[n]
                  && n in s'.weak.ids && n in s.weak.ids && s'.weak.ids[n] == s.weak.ids[n])
            && |s'.g.chain| == |s.g.chain| && s'.g.chain[p] == [] && |s'.m.gray| == |s.m.gray| && p < |s.m.gray|
            && s'.m.gray[p] == [] && |s'.m.marking| == |s.m.marking| && p < |s.m.marking| && !s'.m.marking[p]
            && (forall q :: 0 <= q < |s.g.chain| && q != p ==>
                  s'.g.chain[q] == s.g.chain[q] && q < |s.m.gray| && s'.m.gray[q] == s.m.gray[q]
                  && q < |s.m.marking| && s'.m.marking[q] == s.m.marking[q])
            && |s'.acc.used| == |s.acc.used| && p < |s.acc.used| && s'.acc.used[p] == 0
            && s'.acc.total + s.acc.used[p] == s.acc.total
            && s'.acc.limit == s.acc.limit && s'.acc.threshold == s.acc.threshold
            && (forall b, x {:trigger S.Cached(s'.scopes, b, x)} :: S.Cached(s'.scopes, b, x) <==>
                  S.Cached(s.scopes, b, x) && s.scopes.stacks[b.stack].pid != Some(p))
  {
    hide Inv, S.ScopesOk, S.SameShape, S.ClearPartition, W.Forget, A.Bytes, A.AccountsOk;
    PartsOfInv(layout, closed, s);
    S.ClearPartitionEffect(s.g, s.scopes, p);
    A.UsedWithinTotal(s.acc, p) by { A.TotalIsSum(s.g, layout, s.acc); }
    A.ReleaseEffect(s.acc, p, s.acc.used[p]);
    W.ForgetEffect(s.weak, A.InPartition(s.g, p), W.NULL);
    WeakKeys(s.g.part.Keys, s.weak);
    hide S.Cached;
  }

  /** ... and no handle upgrades to one of its nodes any more; handles to other nodes upgrade as before. */
  lemma RemoveOpHandles(layout: seq<nat>, closed: set<nat>, s: State, p: nat, id: W.WeakId)
    requires Inv(layout, closed, s) && Enabled(layout, closed, s, RemoveOp(p))
    ensures var s', r := Step(layout, closed, s, RemoveOp(p)), W.Upgrade(s.weak, id);
            && (r.Some? ==> r.value in s.g.part)
            && W.Upgrade(s'.weak, id) == if r.Some? && s.g.part[r.value] == p then None else r
  {
    hide Inv, Step, Enabled, W.Forget, W.Upgrade;
    PartsOfInv(layout, closed, s);
    RemoveOpWeak(layout, closed, s, p);
    W.ForgetEffect(s.weak, A.InPartition(s.g, p), id);
    UpgradesInMemory(s.g.part.Keys, s.weak, id);
  }

  lemma RemoveOpWeak(layout: seq<nat>, closed: set<nat>, s: State, p: nat)
    requires Inv(layout, closed, s) && Enabled(layout, closed, s, RemoveOp(p))
    ensures Step(layout, closed, s, RemoveOp(p)).weak == W.Forget(s.weak, A.InPartition(s.g, p))
  {
    hide Inv, W.Forget, A.AccountsOk, S.ClearPartition, A.Release, RemovedGraph, RemovedMarks;
    PartsOfInv(layout, closed, s);
  }

  lemma UpgradesInMemory(nodes: set<Ptr>, w: W.WeakTable, id: W.WeakId)
    requires W.WeakOk(nodes, w)
    ensures W.Upgrade(w, id).Some? ==> W.Upgrade(w, id).value in nodes
  {
  }

  /** What a step adds to memory is the node it allocates, so a cycle's new nodes are those it has allocated. */
  lemma BornIsAllocated(layout: seq<nat>, closed: set<nat>, s: State, op: Op, born: set<Ptr>)
    requires Inv(layout, closed, s) && Enabled(layout, closed, s, op)
    ensures op.AllocOp? ==> op.dtype < |layout|
    ensures C.Born(s, Step(layout, closed, s, op), born) ==
              if op.AllocOp? && !Refused(|s.g.chain|, s.acc, op.p, layout[op.dtype]) then born + {op.addr} else born
  {
    hide Inv;
    PartsOfInv(layout, closed, s);
  }

  // ---- roots over runs ----

  /** Only removing its partition takes ROOT from a node, and no other step unlinks one. */
  lemma StepKeepsRoot(layout: seq<nat>, closed: set<nat>, s: State, op: Op, n: Ptr)
    requires Inv(layout, closed, s) && Enabled(layout, closed, s, op) && n in s.roots && n in s.g.part
    requires op.RemoveOp? ==> op.p != s.g.part[n]
    ensures var s' := Step(layout, closed, s, op);
            n in s'.roots && Linked(s'.g, n) && s'.g.part[n] == s.g.part[n]
  {
    hide Inv, Step, Enabled, Shaded, AllocatedIn, OnlyShaded, S.SameShape, S.Cached;
    StepOk(layout, closed, s, op);
    PartsOfInv(layout, closed, s);
    PartsOfInv(layout, closed, Step(layout, closed, s, op));
    match op {
      case AllocOp(_, _, _, _, _) => AllocKeepsRoot(layout, closed, s, op, n);
      case RootOp(x) => RootOpEffect(layout, closed, s, x);
      case UnlinkOp(p) => UnlinkOpEffect(layout, closed, s, p);
      case DisposeOp(p, gone) => DisposeKeepsRoot(layout, closed, s, p, gone, n);
      case RemoveOp(p) => RemoveOpEffect(layout, closed, s, p, n);
      case _ => RootsUntouched(layout, closed, s, op);
    }
  }

  lemma RootsUntouched(layout: seq<nat>, closed: set<nat>, s: State, op: Op)
    requires Inv(layout, closed, s) && Enabled(layout, closed, s, op)
    requires !op.AllocOp? && !op.RootOp? && !op.UnlinkOp? && !op.DisposeOp? && !op.RemoveOp?
    ensures var s' := Step(layout, closed, s, op); s'.roots == s.roots && s'.g.part == s.g.part && s'.g.linked == s.g.linked
  {
    hide Inv;
  }

  lemma AllocKeepsRoot(layout: seq<nat>, closed: set<nat>, s: State, op: Op, n: Ptr)
    requires Inv(layout, closed, s) && op.AllocOp? && Enabled(layout, closed, s, op) && n in s.roots && Linked(s.g, n)
    ensures var s' := Step(layout, closed, s, op); n in s'.roots && Linked(s'.g, n) && s'.g.part[n] == s.g.part[n]
  {
    hide Inv, Step, Shaded, OnlyShaded;
    PartsOfInv(layout, closed, s);
    AllocOpEffect(layout, closed, s, op.p, op.addr, op.kids, op.dtype, op.root);
    var s' := Step(layout, closed, s, op);
    if s' != s { assert n in s'.g.part - {op.addr}; }
  }

  lemma DisposeKeepsRoot(layout: seq<nat>, closed: set<nat>, s: State, p: nat, gone: set<Ptr>, n: Ptr)
    requires Inv(layout, closed, s) && Enabled(layout, closed, s, DisposeOp(p, gone)) && n in s.roots && Linked(s.g, n)
    ensures var s' := Step(layout, closed, s, DisposeOp(p, gone));
            n in s'.roots && Linked(s'.g, n) && s'.g.part[n] == s.g.part[n]
  {
    hide Inv, Step;
    PartsOfInv(layout, closed, s);
    DisposeOpEffect(layout, closed, s, p, gone, W.NULL);
  }

  /** A root stays a root, linked and live, through any run that does not remove its partition. */
  lemma {:induction false} RootsSurvive(layout: seq<nat>, closed: set<nat>, s: State, ops: seq<Op>, n: Ptr)
    requires Inv(layout, closed, s) && Legal(layout, closed, s, ops) && n in s.roots && Linked(s.g, n)
    requires forall op :: op in ops && op.RemoveOp? ==> op.p != s.g.part[n]
    ensures var s' := Exec(layout, closed, s, ops); n in s'.roots && n in Prot(s') && Linked(s'.g, n) && Live(s', n)
    decreases |ops|
  {
    hide Inv, Step, Enabled, Reach;
    if ops == [] {
      PartsOfInv(layout, closed, s);
      ReachRoot(s.g, Prot(s), Everywhere(s.g), n);
    } else {
      StepOk(layout, closed, s, ops[0]);
      StepKeepsRoot(layout, closed, s, ops[0], n);
      RootsSurvive(layout, closed, Step(layout, closed, s, ops[0]), ops[1..], n);
    }
  }

  /** `set_root_node`, then anything: the node is still protected and linked. */
  lemma RootedForGood(layout: seq<nat>, closed: set<nat>, s: State, n: Ptr, ops: seq<Op>)
    requires Inv(layout, closed, s) && Legal(layout, closed, s, [RootOp(n)] + ops) && Linked(s.g, n)
    requires forall op :: op in ops && op.RemoveOp? ==> op.p != s.g.part[n]
    ensures var s' := Exec(layout, closed, s, [RootOp(n)] + ops); n in Prot(s') && Linked(s'.g, n) && Live(s', n)
  {
    hide Inv, Step, Shaded, Reach;
    var all := [RootOp(n)] + ops;
    assert all[0] == RootOp(n) && all[1..] == ops;
    StepOk(layout, closed, s, all[0]);
    RootOpEffect(layout, closed, s, n);
    RootsSurvive(layout, closed, Step(layout, closed, s, RootOp(n)), ops, n);
  }

  // ---- stores ----

  /** Reaching `n` never needs `n`'s own children. */
  lemma ReachThroughOthers(g: Graph, g': Graph, prot: set<Ptr>, P: set<nat>, n: Ptr)
    requires g'.part == g.part && g'.linked == g.linked && Reach(g, prot, P, n)
    requires forall a, b {:trigger Edge(g, a, b)} :: Edge(g, a, b) && a != n ==> Edge(g', a, b)
    ensures Reach(g', prot, P, n)
  {
    var path :| PathIn(g, P, path) && path[0] in prot && path[|path| - 1] == n;
    var i := 0;
    while path[i] != n
      invariant 0 <= i < |path| && forall j :: 0 <= j < i ==> path[j] != n
      decreases |path| - i
    {
      i := i + 1;
    }
    var prefix := path[..i + 1];
    assert PathIn(g', P, prefix) by {
      forall j, k | 0 <= j && k == j + 1 && k < |prefix| ensures Edge(g', prefix[j], prefix[k]) {
        assert Edge(g, path[j], path[k]);
      }
    }
    assert prefix[0] in prot && prefix[|prefix| - 1] == n;
  }

  /** What is stored into a live node is live afterwards, and so is the node. */
  lemma StoredIsLive(layout: seq<nat>, closed: set<nat>, s: State, n: Ptr, kids: seq<Ptr>, k: Ptr)
    requires Inv(layout, closed, s) && Enabled(layout, closed, s, WriteOp(n, kids)) && Live(s, n)
    ensures var s' := Step(layout, closed, s, WriteOp(n, kids)); Live(s', n) && (k in kids ==> Live(s', k))
  {
    hide Inv, Step, Reach, Shaded;
    PartsOfInv(layout, closed, s);
    WriteOpEffect(layout, closed, s, n, kids);
    StepOk(layout, closed, s, WriteOp(n, kids));
    var s' := Step(layout, closed, s, WriteOp(n, kids));
    PartsOfInv(layout, closed, s');
    assert Prot(s') == Prot(s) && Everywhere(s'.g) == Everywhere(s.g);
    ReachThroughOthers(s.g, s'.g, Prot(s), Everywhere(s.g), n);
    if k in kids {
      assert Edge(s'.g, n, k);
      assert s'.g.part[k] in Everywhere(s'.g) by { OwnersExist(s'.g, k); }
      ReachStep(s'.g, Prot(s'), Everywhere(s'.g), n, k);
    }
  }

  lemma OwnersExist(g: Graph, k: Ptr)
    requires ChainsOk(g) && Linked(g, k)
    ensures g.part[k] in Everywhere(g)
  {
  }

  /** ... and is still linked, with its own children, after a sweep of any closed partition. */
  lemma StoredSurvivesSweep(layout: seq<nat>, closed: set<nat>, s: State, n: Ptr, kids: seq<Ptr>, k: Ptr, p: nat)
    requires Inv(layout, closed, s) && Enabled(layout, closed, s, WriteOp(n, kids)) && Live(s, n) && k in kids && p in closed
    ensures MarksOk(Step(layout, closed, s, WriteOp(n, kids)).g, Step(layout, closed, s, WriteOp(n, kids)).m)
    ensures Intact(Swept(Step(layout, closed, s, WriteOp(n, kids)), p), k)
  {
    hide Inv, Step, Reach, Swept, Intact, MarksOk;
    StepOk(layout, closed, s, WriteOp(n, kids));
    StoredIsLive(layout, closed, s, n, kids, k);
    var s' := Step(layout, closed, s, WriteOp(n, kids));
    PartsOfInv(layout, closed, s');
    SweepKeepsLive(layout, closed, s', p, k);
  }
}
