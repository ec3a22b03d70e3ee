/** The discipline under which removing a partition is always allowed: nodes are cached only in scopes of their own partition. */
module Ownership {
  import opened Basics
  import opened Graphs
  import opened Marking
  import opened Sweep
  import opened Machine
  import opened Preservation
  import opened Runs
  import A = Accounting
  import S = Scopes
  import W = Weak

  /** The operation caches no node in a scope of another partition. */
  ghost predicate CachesOwn(s: State, op: Op) {
    match op
    case ProtectOp(at, n) =>
      n in s.g.part && S.IsScope(s.scopes.stacks, at) ==> S.ScopeAt(s.scopes.stacks, at).pid == s.g.part[n]
    case PromoteOp(at, target, n) =>
      S.IsScope(s.scopes.stacks, at) && S.IsScope(s.scopes.stacks, target) && n in S.ScopeAt(s.scopes.stacks, at).cache ==>
        S.ScopeAt(s.scopes.stacks, at).pid == S.ScopeAt(s.scopes.stacks, target).pid
    case _ => true
  }

  ghost predicate Owned(s: State) {
    S.OwnNodesOnly(s.g, s.scopes)
  }

  // ---- what each change does to it ----

  /** Fewer LOCAL nodes, each still at home in a scope of the same partition. */
  ghost predicate HomesKept(t: S.ScopeTable, t': S.ScopeTable) {
    forall n {:trigger t'.home[n]} :: n in t'.home ==>
      && n in t.home && t'.home[n] == t.home[n]
      && (S.IsScope(t.stacks, t.home[n]) ==>
            S.IsScope(t'.stacks, t.home[n]) && S.ScopeAt(t'.stacks, t.home[n]).pid == S.ScopeAt(t.stacks, t.home[n]).pid)
  }

  lemma OwnedFrame(g: Graph, t: S.ScopeTable, g': Graph, t': S.ScopeTable)
    requires S.OwnNodesOnly(g, t) && HomesKept(t, t')
    requires forall n :: n in t'.home && n in g.part ==> n in g'.part && g'.part[n] == g.part[n]
    ensures S.OwnNodesOnly(g', t')
  {
  }

  lemma SameHomes(t: S.ScopeTable)
    ensures HomesKept(t, t)
  {
  }

  lemma AddKeepsOwn(g: Graph, t: S.ScopeTable, at: S.Place, n: Ptr)
    requires S.OwnNodesOnly(g, t) && S.IsScope(t.stacks, at) && n in g.part && S.ScopeAt(t.stacks, at).pid == g.part[n]
    ensures S.OwnNodesOnly(g, S.Add(t, at, n))
  {
  }

  lemma RemoveKeepsHomes(t: S.ScopeTable, at: S.Place, n: Ptr)
    requires S.IsScope(t.stacks, at)
    ensures HomesKept(t, S.Remove(t, at, n)) && HomesKept(t, S.Clear(t, at))
  {
  }

  lemma PopKeepsHomes(g: Graph, t: S.ScopeTable, i: nat)
    requires S.ScopesOk(g, t) && i < |t.stacks|
    ensures HomesKept(t, S.PopScope(t, i))
  {
    S.PopScopeOk(g, t, i);
    S.HomesAreScopes(g, S.PopScope(t, i));
    hide S.ScopesOk;
  }

  lemma StackKeepsHomes(t: S.ScopeTable, i: nat)
    requires i < |t.stacks|
    ensures HomesKept(t, S.Release(t, i))
    ensures t.stacks[i].pid.Some? ==> HomesKept(t, S.Push(t, i))
  {
  }

  lemma AcquireKeepsHomes(t: S.ScopeTable, p: nat)
    ensures HomesKept(t, S.Acquire(t, p))
  {
  }

  lemma ClearPartitionKeepsHomes(t: S.ScopeTable, p: nat)
    ensures HomesKept(t, S.ClearPartition(t, p))
  {
  }

  // ---- every step ----

  lemma ScopeStepKeepsOwn(layout: seq<nat>, closed: set<nat>, s: State, op: Op)
    requires Inv(layout, closed, s) && Enabled(layout, closed, s, op) && ScopeOp(op) && Owned(s) && CachesOwn(s, op)
    ensures Owned(Step(layout, closed, s, op))
  {
    hide Inv, HomesKept, S.ScopesOk, S.OwnNodesOnly;
    ScopesFromInv(layout, closed, s);
    OnlyScopes(layout, closed, s, op);
    var t, t' := s.scopes, Step(layout, closed, s, op).scopes;
    match op {
      case AcquireOp(p) => AcquireKeepsHomes(t, p);
      case ReleaseOp(i) => StackKeepsHomes(t, i);
      case PushOp(i) => StackKeepsHomes(t, i);
      case PopOp(i) => PopKeepsHomes(s.g, t, i);
      case UnprotectOp(at, n) => RemoveKeepsHomes(t, at, n);
      case PromoteOp(at, target, n) => S.PromoteOwnNodesIff(s.g, t, at, target, n);
      case ClearOp(at) => RemoveKeepsHomes(t, at, 0);
    }
    if !op.PromoteOp? {
      hide Step;
      OwnedFrame(s.g, t, s.g, t');
    }
  }

  lemma ScopesFromInv(layout: seq<nat>, closed: set<nat>, s: State)
    requires Inv(layout, closed, s)
    ensures MarksOk(s.g, s.m) && S.ScopesOk(s.g, s.scopes) && s.scopes.home.Keys <= s.g.linked <= s.g.part.Keys
  {
  }

  lemma ProtectKeepsOwn(layout: seq<nat>, closed: set<nat>, s: State, at: S.Place, n: Ptr)
    requires Inv(layout, closed, s) && Enabled(layout, closed, s, ProtectOp(at, n)) && Owned(s) && CachesOwn(s, ProtectOp(at, n))
    ensures Owned(Step(layout, closed, s, ProtectOp(at, n)))
  {
    hide Inv, S.OwnNodesOnly;
    AddKeepsOwn(s.g, s.scopes, at, n);
  }

  lemma AllocKeepsOwn(layout: seq<nat>, closed: set<nat>, s: State, op: Op)
    requires Inv(layout, closed, s) && op.AllocOp? && Enabled(layout, closed, s, op) && Owned(s)
    ensures Owned(Step(layout, closed, s, op))
  {
    hide Inv, S.OwnNodesOnly, HomesKept;
    ScopesFromInv(layout, closed, s);
    SameHomes(s.scopes);
    var s' := Step(layout, closed, s, op);
    OwnedFrame(s.g, s.scopes, s'.g, s'.scopes);
  }

  lemma DisposeKeepsOwn(layout: seq<nat>, closed: set<nat>, s: State, p: nat, gone: set<Ptr>)
    requires Inv(layout, closed, s) && Enabled(layout, closed, s, DisposeOp(p, gone)) && Owned(s)
    ensures Owned(Step(layout, closed, s, DisposeOp(p, gone)))
  {
    hide Inv, S.OwnNodesOnly, HomesKept, A.Bytes;
    ScopesFromInv(layout, closed, s);
    SameHomes(s.scopes);
    var s' := Step(layout, closed, s, DisposeOp(p, gone));
    assert s'.scopes == s.scopes && s'.g == Free(s.g, gone);
    hide Step;
    assert forall n :: n in s.scopes.home ==> n !in gone;
    OwnedFrame(s.g, s.scopes, s'.g, s'.scopes);
  }

  lemma RemoveKeepsOwn(layout: seq<nat>, closed: set<nat>, s: State, p: nat)
    requires Inv(layout, closed, s) && Enabled(layout, closed, s, RemoveOp(p)) && Owned(s)
    ensures Owned(Step(layout, closed, s, RemoveOp(p)))
  {
    hide Inv, S.OwnNodesOnly, S.ScopesOk, S.HeldInside, S.ClearPartition, HomesKept;
    ScopesFromInv(layout, closed, s);
    S.ClearPartitionOk(s.g, s.scopes, p);
    S.ClearedOfPartitionIff(s.g, s.scopes, p);
    ClearPartitionKeepsHomes(s.scopes, p);
    var s' := Step(layout, closed, s, RemoveOp(p));
    OwnedFrame(s.g, s.scopes, s'.g, s'.scopes);
  }

  /** Operations that neither cache, allocate nor free. */
  lemma OthersKeepHomes(layout: seq<nat>, closed: set<nat>, s: State, op: Op)
    requires Inv(layout, closed, s) && Enabled(layout, closed, s, op)
    requires !ScopeOp(op) && !op.ProtectOp? && !op.AllocOp? && !op.DisposeOp? && !op.RemoveOp?
    ensures var s' := Step(layout, closed, s, op); s'.scopes == s.scopes && s'.g.part == s.g.part
  {
    hide Inv;
  }

  lemma OthersKeepOwn(layout: seq<nat>, closed: set<nat>, s: State, op: Op)
    requires Inv(layout, closed, s) && Enabled(layout, closed, s, op) && Owned(s)
    requires !ScopeOp(op) && !op.ProtectOp? && !op.AllocOp? && !op.DisposeOp? && !op.RemoveOp?
    ensures Owned(Step(layout, closed, s, op))
  {
    hide Inv, Step, Enabled, S.OwnNodesOnly, HomesKept;
    OthersKeepHomes(layout, closed, s, op);
    SameHomes(s.scopes);
    var s' := Step(layout, closed, s, op);
    OwnedFrame(s.g, s.scopes, s'.g, s'.scopes);
  }

  lemma StepKeepsOwn(layout: seq<nat>, closed: set<nat>, s: State, op: Op)
    requires Inv(layout, closed, s) && Enabled(layout, closed, s, op) && Owned(s) && CachesOwn(s, op)
    ensures Owned(Step(layout, closed, s, op))
  {
    hide Inv, Step, Enabled, Owned, CachesOwn;
    if ScopeOp(op) {
      ScopeStepKeepsOwn(layout, closed, s, op);
    } else if op.ProtectOp? {
      ProtectKeepsOwn(layout, closed, s, op.at, op.n);
    } else if op.AllocOp? {
      AllocKeepsOwn(layout, closed, s, op);
    } else if op.DisposeOp? {
      DisposeKeepsOwn(layout, closed, s, op.p, op.gone);
    } else if op.RemoveOp? {
      RemoveKeepsOwn(layout, closed, s, op.p);
    } else {
      OthersKeepOwn(layout, closed, s, op);
    }
  }

  // ---- whole runs ----

  /** Every operation of the run caches nodes in scopes of their own partition only. */
  ghost predicate OwnRun(layout: seq<nat>, closed: set<nat>, s: State, ops: seq<Op>)
    requires Inv(layout, closed, s) && Legal(layout, closed, s, ops)
    decreases |ops|
  {
    ops == [] ||
    (CachesOwn(s, ops[0]) &&
     (StepOk(layout, closed, s, ops[0]);
      OwnRun(layout, closed, Step(layout, closed, s, ops[0]), ops[1..])))
  }

  lemma {:induction false} RunKeepsOwn(layout: seq<nat>, closed: set<nat>, s: State, ops: seq<Op>)
    requires Inv(layout, closed, s) && Legal(layout, closed, s, ops) && OwnRun(layout, closed, s, ops) && Owned(s)
    ensures Owned(Exec(layout, closed, s, ops))
    decreases |ops|
  {
    hide Inv, Step, Enabled, Owned, CachesOwn;
    if ops != [] {
      StepOk(layout, closed, s, ops[0]);
      StepKeepsOwn(layout, closed, s, ops[0]);
      RunKeepsOwn(layout, closed, Step(layout, closed, s, ops[0]), ops[1..]);
    }
  }

  /**
   After any run from nothing that keeps to the discipline, every closed partition with no unlinked node left may be
   removed at once: none of its nodes is cached elsewhere.
   */
  lemma OwnRunsMayRemove(layout: seq<nat>, closed: set<nat>, ops: seq<Op>, p: nat)
    requires LegalRun(layout, closed, ops) && Inv(layout, closed, Empty()) && OwnRun(layout, closed, Empty(), ops)
    requires p in closed && p < |After(layout, closed, ops).g.chain|
    requires forall n :: InLimbo(After(layout, closed, ops).g, n) ==> After(layout, closed, ops).g.part[n] != p
    ensures MarksOk(After(layout, closed, ops).g, After(layout, closed, ops).m)
    ensures Enabled(layout, closed, After(layout, closed, ops), RemoveOp(p))
  {
    hide Inv, Legal, OwnRun, Exec, S.ScopesOk, S.OwnNodesOnly, S.HeldInside;
    var s := After(layout, closed, ops);
    RunKeepsOwn(layout, closed, Empty(), ops) by { EmptyIsOwned(); }
    ScopesFromInv(layout, closed, s);
    S.OwnNodesHeldInside(s.g, s.scopes, p);
  }

  lemma EmptyIsOwned()
    ensures Owned(Empty())
  {
  }
}
