/** A whole collection of one partition as a function of the state: mark to the end, unlink, dispose. */
module Collection {
  import opened Basics
  import opened Graphs
  import opened Marking
  import opened Cycles
  import opened Sweep
  import opened Machine
  import A = Accounting
  import P = Preservation

  /** The step budget `garbage_collect` marks with (src/mark_sweep.rs:594). */
  const BUDGET: nat := 64

  ghost predicate Collectable(layout: seq<nat>, s: State, p: nat) {
    && NoDangling(s.g) && ChainsOk(s.g) && MarksOk(s.g, s.m) && p < |s.g.chain|
    && A.AccountsOk(s.g, layout, s.acc) && A.LimitOk(s.acc)
  }

  /** `while !mark(p, 64) {}`, which the call bound shows to be all of it. */
  ghost function Marked(s: State, p: nat): (s': State)
    requires NoDangling(s.g) && ChainsOk(s.g) && MarksOk(s.g, s.m) && p < |s.g.chain|
    ensures s' == s.(m := s'.m) && MarksOk(s'.g, s'.m)
  {
    s.(m := MarkWhile(s.g, Prot(s), s.m, p, BUDGET, CallBound(|Nodes(s.g, p)|, BUDGET)).0)
  }

  /** The white list: the dead nodes in chain order. */
  ghost function Garbage(s: State, p: nat): seq<Ptr>
    requires NoDangling(s.g) && ChainsOk(s.g) && MarksOk(s.g, s.m) && p < |s.g.chain|
  {
    var s1 := Marked(s, p);
    if CanUnlink(s1.m, p) then Keep(s.g.chain[p], Dead(s1.g, Prot(s1), s1.m, p)) else []
  }

  ghost function Unlinked(s: State, p: nat): State
    requires NoDangling(s.g) && ChainsOk(s.g) && MarksOk(s.g, s.m) && p < |s.g.chain|
  {
    var s1 := Marked(s, p);
    s1.(g := UnlinkGraph(s1.g, Prot(s1), s1.m, p), m := UnlinkMarks(s1.m, p))
  }

  /** What the unlinked list satisfies. */
  lemma GarbageOk(layout: seq<nat>, s: State, p: nat)
    requires Collectable(layout, s, p)
    ensures var ns, s2 := Garbage(s, p), Unlinked(s, p);
            && Distinct(ns) && Elems(ns) <= A.InPartition(s2.g, p) && Elems(ns) !! s2.g.linked
            && Wf(s2.g) && MarksOk(s2.g, s2.m) && ChainsOk(s2.g)
            && p < |s2.acc.used|
            && var d := A.Bytes(Elems(ns), s2.g.dtype, layout); d <= s2.acc.used[p] && d <= s2.acc.total
  {
    var s1, ns, s2 := Marked(s, p), Garbage(s, p), Unlinked(s, p);
    hide MarkWhile, A.LimitOk, A.AccountsOk, A.Bytes;
    if CanUnlink(s1.m, p) {
      KeepDistinct(s.g.chain[p], Dead(s1.g, Prot(s1), s1.m, p));
    }
    UnlinkOk(s1.g, Prot(s1), s1.m, p);
    assert Elems(ns) <= A.InPartition(s2.g, p);
    hide MarksOk, ChainsOk, UnlinkGraph, Dead, Keep;
    assert s2.g.part == s.g.part && s2.g.dtype == s.g.dtype by { UnlinkKeepsColumns(s1, p); }
    assert A.InPartition(s2.g, p) == A.InPartition(s.g, p);
    A.ReleaseOk(s.g, Free(s.g, Elems(ns)), layout, s.acc, p, Elems(ns));
  }

  lemma UnlinkKeepsColumns(s: State, p: nat)
    requires MarksOk(s.g, s.m)
    ensures var g' := UnlinkGraph(s.g, Prot(s), s.m, p); g'.part == s.g.part && g'.dtype == s.g.dtype
  {
  }

  /** `garbage_collect` (src/mark_sweep.rs:589-602). */
  ghost function Collected(layout: seq<nat>, s: State, p: nat): State
    requires Collectable(layout, s, p)
  {
    GarbageOk(layout, s, p);
    Disposed(layout, Unlinked(s, p), p, Elems(Garbage(s, p)))
  }

  /**
   What a collection takes, it takes out of memory: the nodes of the white list, in the order they had on the chain, are
   those that were linked and no longer are. Every other node keeps its children, its partition and its type.
   */
  lemma CollectedEffect(layout: seq<nat>, s: State, p: nat, n: Ptr)
    requires Collectable(layout, s, p)
    ensures var ns, s' := Garbage(s, p), Collected(layout, s, p);
            && ns == Keep(s.g.chain[p], Elems(ns))
            && (n in ns <==> Linked(s.g, n) && !Linked(s'.g, n))
            && (n in s'.g.part <==> n in s.g.part && n !in ns)
            && s'.g.kids == s.g.kids - Elems(ns) && s'.g.part == s.g.part - Elems(ns) && s'.g.dtype == s.g.dtype - Elems(ns)
            && s'.scopes == s.scopes
  {
    hide A.AccountsOk, A.LimitOk, MarkWhile, A.Bytes, NoDangling;
    GarbageOk(layout, s, p);
    var s1, ns := Marked(s, p), Garbage(s, p);
    if CanUnlink(s1.m, p) {
      KeepSame(s.g.chain[p], Dead(s1.g, Prot(s1), s1.m, p), Elems(ns));
    } else {
      KeepNone(s.g.chain[p], Elems(ns));
    }
    hide Keep;
  }
}
