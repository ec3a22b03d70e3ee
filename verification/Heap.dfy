/**
 The collector itself: a heap of headers at addresses, partitions with intrusive chains and gray lists, and
 the source's methods on them. Each is proved against the value-level operation of the same name.
 */
module Heap {
  import opened Basics
  import opened Graphs
  import opened Marking
  import opened Cycles
  import opened Sweep
  import opened Machine
  import opened Seeding
  import opened Scanning
  import opened Memory
  import opened Collection
  import H = Header
  import A = Accounting
  import W = Weak
  import S = Scopes
  import D = DropOrder
  import T = Traversal

  /** How one turn of the marking loop went: a node scanned, a stale entry skipped, or the step limit hit. */
  datatype Turn = Scanned | Skipped | Stopped

  class GcHeap {
    const types: seq<TypeInfo>
    const dropPasses: seq<nat>
    var mem: map<Ptr, GcHead>
    var partitions: seq<GcPartition>
    var memoryLimit: nat
    var gcThreshold: nat
    var totalMemoryUsed: nat
    var weakSlots: seq<W.Slot>
    var scopeStacks: seq<S.Stack>
    ghost var s: State
    ghost var flags: Flags

    /** The concrete fields represent the abstract state. */
    ghost predicate Rep()
      reads this
    {
      && mem.Keys == s.g.part.Keys && |partitions| == |s.g.chain| == |s.m.gray| == |s.m.marking|
      && RowsOk(mem, s, flags)
      && PartsOk(mem, partitions, s)
      && weakSlots == s.weak.slots
      && scopeStacks == s.scopes.stacks
      && memoryLimit == s.acc.limit && gcThreshold == s.acc.threshold && totalMemoryUsed == s.acc.total
    }

    /** ... and that state is well formed. */
    ghost predicate Valid()
      reads this
    {
      && Rep()
      && MarksOk(s.g, s.m) && ChainsOk(s.g)
    }

    /** `GcHeap::new` (src/heap.rs:107-124). */
    constructor (types: seq<TypeInfo>, dropPasses: seq<nat>)
      requires RegistryOk(types, dropPasses, Empty().g)
      ensures Valid() && LedgerOk(types, dropPasses, s) && this.types == types && this.dropPasses == dropPasses
      ensures s == Empty() && mem == map[] && flags == Flags({}, {})
    {
      this.types, this.dropPasses := types, dropPasses;
      mem, partitions, flags := map[], [], Flags({}, {});
      memoryLimit, gcThreshold, totalMemoryUsed := 0, 0, 0;
      weakSlots, scopeStacks := [], [S.Stack([], None)];
      s := Empty();
    }

    // ---- single-header and single-partition updates ----

    /** Overwrite one header; `s'` and `flags'` are the state it then represents. */
    method PutHeader(n: Ptr, h: GcHead, ghost s': State, ghost flags': Flags)
      requires Rep() && n in mem && h.next == mem[n].next && RowOk(h, n, s', flags')
      requires forall x {:trigger mem[x]} :: x in mem && x != n ==> SameAt(s, s', flags, flags', x)
      requires s'.g.part.Keys == s.g.part.Keys && s'.g.chain == s.g.chain
      requires s'.m.gray == s.m.gray && s'.m.marking == s.m.marking
      requires s'.acc == s.acc && s'.weak.slots == s.weak.slots && s'.scopes.stacks == s.scopes.stacks
      modifies this
      ensures Rep() && s == s' && flags == flags' && mem == old(mem)[n := h] && SameNexts(old(mem), mem)
      ensures partitions == old(partitions)
    {
      hide PartsOk, RowsOk, RowOk, SameAt;
      RowsUpdate(mem, n, h, s, s', flags, flags');
      PartsFrame(mem, mem[n := h], partitions, s, s');
      mem := mem[n := h];
      s, flags := s', flags';
    }

    /** Overwrite one partition record; `s'` differs only in that partition's columns. */
    method PutPartition(p: nat, par: GcPartition, ghost s': State)
      requires Rep() && p < |partitions|
      requires s' == s.(m := s'.m) && s'.m == s.m.(gray := s'.m.gray, marking := s'.m.marking)
      requires s'.m.gray == s.m.gray[p := par.grayList] && s'.m.marking == s.m.marking[p := par.marking]
      requires par.nodes == partitions[p].nodes && par.memoryUsed == partitions[p].memoryUsed
      modifies this
      ensures Rep() && s == s' && flags == old(flags) && mem == old(mem) && |partitions| == old(|partitions|)
    {
      assert forall q {:trigger partitions[q]} :: 0 <= q < |partitions| ==> PartOk(mem, partitions[q], q, s);
      partitions := partitions[p := par];
      s := s';
      hide IsList;
      assert RowsOk(mem, s, flags) by { RowsSame(mem, old(s), s, flags); }
    }

    /** `set_color` (src/node.rs:127-129). */
    method SetColor(n: Ptr, c: Color)
      requires Rep() && n in mem
      modifies this
      ensures Rep() && SameNexts(old(mem), mem) && flags == old(flags) && |partitions| == old(|partitions|)
      ensures s == old(s).(m := old(s).m.(color := old(s).m.color[n := c]))
    {
      RowAt(mem, s, flags, n);
      H.DecodeSetColor(mem[n].attrs, c);
      hide H.SetColor, H.Decode, H.HasColor, TypeIndex, PartsOk, RowsOk;
      PutHeader(n, mem[n].(attrs := H.SetColor(mem[n].attrs, c)), s.(m := s.m.(color := s.m.color[n := c])), flags);
    }

    /** `set_gray_listed` (src/node.rs:210-216). */
    method SetGrayListed(n: Ptr, b: bool)
      requires Rep() && n in mem
      modifies this
      ensures Rep() && SameNexts(old(mem), mem) && flags == old(flags) && |partitions| == old(|partitions|)
      ensures s == old(s).(m := old(s).m.(listed := if b then old(s).m.listed + {n} else old(s).m.listed - {n}))
    {
      RowAt(mem, s, flags, n);
      var w := mem[n].attrs;
      H.DecodeFlag(w, H.GRAY_LISTED);
      hide H.Insert, H.Remove, H.Decode, H.HasColor, TypeIndex, PartsOk, RowsOk;
      var w' := if b then H.Insert(w, H.GRAY_LISTED) else H.Remove(w, H.GRAY_LISTED);
      PutHeader(n, mem[n].(attrs := w'),
        s.(m := s.m.(listed := if b then s.m.listed + {n} else s.m.listed - {n})), flags);
    }

    /** Pushing on a gray list. */
    method PushGray(p: nat, n: Ptr)
      requires Rep() && p < |partitions|
      modifies this
      ensures Rep() && mem == old(mem) && flags == old(flags) && |partitions| == old(|partitions|)
      ensures s == old(s).(m := old(s).m.(gray := old(s).m.gray[p := old(s).m.gray[p] + [n]]))
    {
      assert PartOk(mem, partitions[p], p, s);
      assert s.m.marking[p := s.m.marking[p]] == s.m.marking;
      PutPartition(p, partitions[p].(grayList := partitions[p].grayList + [n]),
        s.(m := s.m.(gray := s.m.gray[p := s.m.gray[p] + [n]])));
    }

    /** `set_marking` (src/partition.rs:105-107). */
    method SetMarking(p: nat, b: bool)
      requires Rep() && p < |partitions|
      modifies this
      ensures Rep() && mem == old(mem) && flags == old(flags) && |partitions| == old(|partitions|)
      ensures s == old(s).(m := old(s).m.(marking := old(s).m.marking[p := b]))
    {
      assert PartOk(mem, partitions[p], p, s);
      assert s.m.gray[p := s.m.gray[p]] == s.m.gray;
      PutPartition(p, partitions[p].(marking := b), s.(m := s.m.(marking := s.m.marking[p := b])));
    }

    // ---- node colour queries ----

    method ColorAt(n: Ptr) returns (c: Color)
      requires Rep() && n in mem
      ensures n in s.m.color && c == s.m.color[n]
    {
      RowAt(mem, s, flags, n);
      c := H.ColorOf(mem[n].attrs);
    }

    method IsRootOrLocal(n: Ptr) returns (b: bool)
      requires Rep() && n in mem
      ensures b <==> n in Prot(s)
    {
      RowAt(mem, s, flags, n);
      H.RootOrLocalIff(mem[n].attrs);
      hide H.Contains, H.HasColor, H.ColorOf, TypeIndex;
      b := H.RootOrLocal(mem[n].attrs);
    }

    method PartitionOf(n: Ptr) returns (p: nat)
      requires Valid() && n in mem
      ensures n in s.g.part && p == s.g.part[n] && p < |partitions|
    {
      RowAt(mem, s, flags, n);
      p := mem[n].partition;
    }

    /** `is_marking` (src/partition.rs:100-102). */
    method IsMarking(p: nat) returns (b: bool)
      requires Rep() && p < |partitions|
      ensures p < |s.m.marking| && b == s.m.marking[p]
    {
      assert PartOk(mem, partitions[p], p, s);
      b := partitions[p].marking;
    }

    method IsRoot(n: Ptr) returns (b: bool)
      requires Rep() && n in mem
      ensures b <==> n in s.roots
    {
      RowAt(mem, s, flags, n);
      b := H.Contains(mem[n].attrs, H.ROOT);
    }

    method IsGrayListed(n: Ptr) returns (b: bool)
      requires Rep() && n in mem
      ensures b <==> n in s.m.listed
    {
      RowAt(mem, s, flags, n);
      b := H.Contains(mem[n].attrs, H.GRAY_LISTED);
    }

    /** Whether the arena served the node (src/mark_sweep.rs:525). */
    method InArena(n: Ptr) returns (b: bool)
      requires Rep() && n in mem
      ensures b <==> n in flags.arena
    {
      RowAt(mem, s, flags, n);
      b := H.Contains(mem[n].attrs, H.ARENA_ALLOC);
    }

    // ---- gray nodes and barriers ----

    /** `GcPartition::add_gray_node` (src/partition.rs:109-131). */
    method AddGrayNodeTo(p: nat, n: Ptr)
      requires Rep() && p < |partitions| && n in mem
      modifies this
      ensures Rep() && SameNexts(old(mem), mem) && flags == old(flags) && |partitions| == old(|partitions|)
      ensures s == old(s).(m := Enlist(old(s).m, p, n))
    {
      hide RowsOk, PartsOk;
      var c := ColorAt(n);
      if c == Black { return; }
      assert c == Gray ==> s.m.color[n := Gray] == s.m.color;
      if c == White { SetColor(n, Gray); }
      var listed := IsGrayListed(n);
      if !listed {
        SetGrayListed(n, true);
        PushGray(p, n);
      }
    }

    /** `GcHeap::add_gray_node` (src/mark_sweep.rs:19-24). */
    method AddGrayNode(n: Ptr)
      requires Valid() && Linked(s.g, n)
      modifies this
      ensures Rep() && SameNexts(old(mem), mem) && flags == old(flags) && |partitions| == old(|partitions|)
      ensures s == old(s).(m := Enlist(old(s).m, old(s).g.part[n], n))
    {
      hide RowsOk, PartsOk;
      var c := ColorAt(n);
      if c != Black {
        var p := PartitionOf(n);
        AddGrayNodeTo(p, n);
      }
    }

    /** Shade `n` in partition `p` when that partition is marking. */
    method AddGrayIfMarking(p: nat, n: Ptr)
      requires Rep() && p < |partitions| && n in mem
      modifies this
      ensures Rep() && SameNexts(old(mem), mem) && flags == old(flags) && |partitions| == old(|partitions|)
      ensures s == old(s).(m := EnlistIfMarking(old(s).m, p, n))
    {
      hide RowsOk, PartsOk;
      var marking := IsMarking(p);
      if marking {
        AddGrayNodeTo(p, n);
      }
    }

    /** `with_write_barrier` (src/node.rs:442-466): the mutator's effect is the node's new child list. */
    method WithWriteBarrier(n: Ptr, kids: seq<Ptr>)
      requires Valid() && Linked(s.g, n)
      modifies this
      ensures Valid() && SameNexts(old(mem), mem) && flags == old(flags)
      ensures s == old(s).(m := Barrier(old(s).g, old(s).m, n), g := old(s).g.(kids := old(s).g.kids[n := kids]))
    {
      hide RowsOk, PartsOk, ChainsOk;
      RecolorOk(s.g, s.m, n, Gray);
      BarrierMarksOk(s.g, s.m, n);
      StoreOk(s.g, Barrier(s.g, s.m, n), n, kids);
      var p := PartitionOf(n);
      var marking := IsMarking(p);
      var c := ColorAt(n);
      if marking && c == Black {
        SetColor(n, Gray);
        AddGrayNode(n);
      }
      Store(n, kids);
    }

    /** Writing a payload field: the node's trace now reports `kids`. */
    method Store(n: Ptr, kids: seq<Ptr>)
      requires Rep() && n in mem
      modifies this
      ensures Rep() && SameNexts(old(mem), mem) && flags == old(flags) && |partitions| == old(|partitions|)
      ensures s == old(s).(g := old(s).g.(kids := old(s).g.kids[n := kids]))
    {
      RowAt(mem, s, flags, n);
      hide H.Decode, H.HasColor, TypeIndex, PartsOk, RowsOk;
      PutHeader(n, mem[n].(kids := kids), s.(g := s.g.(kids := s.g.kids[n := kids])), flags);
    }

    /** `bind` (src/node.rs:633-677). */
    method Bind(master: Ptr, slave: Ptr)
      requires Valid() && Linked(s.g, master) && Linked(s.g, slave)
      modifies this
      ensures Valid() && SameNexts(old(mem), mem) && flags == old(flags)
      ensures s == old(s).(m := BindMarks(old(s).g, old(s).m, master, slave))
    {
      hide RowsOk, PartsOk, ChainsOk, Enlist;
      BindMarksOk(s.g, s.m, master, slave);
      var p := PartitionOf(master);
      var q := PartitionOf(slave);
      var mc := ColorAt(master);
      var sc := ColorAt(slave);
      if mc == Black && sc != Black {
        SetColor(slave, Gray);
        AddGrayIfMarking(q, slave);
      }
      if p != q {
        var c := ColorAt(slave);
        var marking := IsMarking(q);
        if c != Black && marking {
          AddGrayNodeTo(q, slave);
        }
      }
    }

    /** `set_root_node` (src/heap.rs:203-213). */
    method SetRootNode(n: Ptr)
      requires Valid() && Linked(s.g, n)
      modifies this
      ensures Valid() && SameNexts(old(mem), mem) && flags == old(flags)
      ensures s.roots == old(s).roots + {n} && s == old(s).(roots := s.roots, m := s.m)
      ensures n in old(s).m.color && old(s).g.part[n] < |old(s).m.gray| == |old(s).m.marking|
      ensures s == if n in old(s).roots then old(s) else Rooted(old(s), n)
    {
      hide RowsOk, PartsOk;
      EnlistOk(s.g, s.m, n);
      var root := IsRoot(n);
      if root { assert s.roots + {n} == s.roots; }
      if !root {
        InsertRoot(n);
        var p := PartitionOf(n);
        AddGrayIfMarking(p, n);
      }
    }

    method InsertRoot(n: Ptr)
      requires Rep() && n in mem
      modifies this
      ensures Rep() && SameNexts(old(mem), mem) && flags == old(flags) && |partitions| == old(|partitions|)
      ensures s == old(s).(roots := old(s).roots + {n})
    {
      RowAt(mem, s, flags, n);
      var w := mem[n].attrs;
      H.DecodeFlag(w, H.ROOT);
      hide H.Insert, H.Remove, H.Decode, H.HasColor, TypeIndex, PartsOk, RowsOk;
      PutHeader(n, mem[n].(attrs := H.Insert(w, H.ROOT)), s.(roots := s.roots + {n}), flags);
    }

    /** Emptying a gray list. */
    method ClearGray(p: nat)
      requires Rep() && p < |partitions|
      modifies this
      ensures Rep() && mem == old(mem) && flags == old(flags) && |partitions| == old(|partitions|)
      ensures s == old(s).(m := old(s).m.(gray := old(s).m.gray[p := []]))
    {
      assert PartOk(mem, partitions[p], p, s);
      assert s.m.marking[p := s.m.marking[p]] == s.m.marking;
      PutPartition(p, partitions[p].(grayList := []), s.(m := s.m.(gray := s.m.gray[p := []])));
    }

    method HeadNode(p: nat) returns (head: Option<Ptr>)
      requires Rep() && p < |partitions|
      ensures IsList(mem, head, s.g.chain[p])
    {
      assert PartOk(mem, partitions[p], p, s);
      head := partitions[p].nodes;
    }

    method GrayList(p: nat) returns (gray: seq<Ptr>)
      requires Rep() && p < |partitions|
      ensures p < |s.m.gray| && gray == s.m.gray[p]
    {
      assert PartOk(mem, partitions[p], p, s);
      gray := partitions[p].grayList;
    }

    /** `mark_reset` (src/mark_sweep.rs:33-48). */
    method MarkReset(p: nat)
      requires Valid() && p < |partitions|
      modifies this
      ensures Valid() && SameNexts(old(mem), mem) && flags == old(flags)
      ensures s == old(s).(m := Reset(old(s).g, old(s).m, p))
    {
      hide RowsOk, PartsOk;
      ghost var s0 := s;
      SetMarking(p, false);
      var gray := GrayList(p);
      ghost var m1 := s.m;
      for i := 0 to |gray|
        invariant Rep() && mem.Keys == old(mem.Keys) && SameNexts(old(mem), mem) && flags == old(flags)
        invariant |partitions| == old(|partitions|)
        invariant s == s0.(m := m1.(listed := m1.listed - Elems(gray[..i])))
      {
        assert gray[i] in s0.m.gray[p];
        SetGrayListed(gray[i], false);
        assert gray[..i + 1] == gray[..i] + [gray[i]];
      }
      assert gray[..|gray|] == gray;
      ClearGray(p);
      ghost var m2 := s.m;
      var head := HeadNode(p);
      ghost var c := s.g.chain[p];
      ghost var mem2 := mem;
      ghost var i := 0;
      var cur := head;
      assert Whiten(m2.color, c[..0]) == m2.color;
      while cur.Some?
        invariant Rep() && SameNexts(mem2, mem) && SameNexts(old(mem), mem) && flags == old(flags)
        invariant |partitions| == old(|partitions|)
        invariant i <= |c| && At(c, i, cur)
        invariant s == s0.(m := m2.(color := Whiten(m2.color, c[..i])))
        decreases |c| - i
      {
        ListNext(mem2, mem, head, c, i);
        assert c[i] in c;
        WhitenNext(m2.color, c, i);
        var n := cur.value;
        cur := mem[n].next;
        SetColor(n, White);
        i := i + 1;
      }
      assert c[..i] == c;
      ResetIs(s0.g, s0.m, p);
    }

    /** The first loop of `mark_prepare` on partition `i` (src/mark_sweep.rs:72-82). */
    method SeedChain(i: nat, pending: bool)
      requires Valid() && i < |partitions| && i < |s.m.gray| && (!pending ==> s.m.gray[i] == [])
      modifies this
      ensures Rep() && SameNexts(old(mem), mem) && flags == old(flags) && |partitions| == old(|partitions|)
      ensures i < |old(s).m.gray|
      ensures var c := old(s).g.chain[i];
              s == old(s).(m := ChainSeeded(Prot(old(s)), old(s).m, i, pending, c, |c|))
    {
      hide RowsOk, PartsOk, ChainSeeded;
      ghost var s0, prot := s, Prot(s);
      ghost var c := s.g.chain[i];
      var cur := HeadNode(i);
      var head := cur;
      ghost var j := 0;
      InChain(s.g, i);
      ChainSeededStart(prot, s.m, i, pending, c);
      while cur.Some?
        invariant Rep() && SameNexts(old(mem), mem) && flags == old(flags) && |partitions| == old(|partitions|)
        invariant j <= |c| && At(c, j, cur) && s == s0.(m := ChainSeeded(prot, s0.m, i, pending, c, j))
        decreases |c| - j
      {
        ListNext(old(mem), mem, head, c, j);
        assert c[j] in c;
        ChainSeededNext(prot, s0.m, i, pending, c, j);
        var n := cur.value;
        cur := mem[n].next;
        var protected := IsRootOrLocal(n);
        if protected {
          SetColor(n, Gray);
          if !pending { PushGray(i, n); }
        } else if !pending {
          SetColor(n, White);
        }
        j := j + 1;
      }
    }

    /** The second loop, for a partition with pending grays (src/mark_sweep.rs:84-97). */
    method SeedPending(i: nat)
      requires Valid() && i < |partitions| && i < |s.m.gray|
      requires forall n :: n in s.g.chain[i] && n in Prot(s) ==> n in s.m.color && s.m.color[n] == Gray
      modifies this
      ensures Rep() && SameNexts(old(mem), mem) && flags == old(flags) && |partitions| == old(|partitions|)
      ensures i < |old(s).m.gray|
      ensures var c := old(s).g.chain[i];
              s == old(s).(m := PendingSeeded(Prot(old(s)), old(s).m, i, c, |c|))
    {
      hide RowsOk, PartsOk, PendingSeeded;
      ghost var s0, prot := s, Prot(s);
      ghost var c := s.g.chain[i];
      var cur := HeadNode(i);
      var head := cur;
      ghost var j := 0;
      InChain(s.g, i);
      PendingSeededStart(prot, s.m, i, c);
      while cur.Some?
        invariant Rep() && SameNexts(old(mem), mem) && flags == old(flags) && |partitions| == old(|partitions|)
        invariant j <= |c| && At(c, j, cur) && s.m.color == s0.m.color
        invariant s == s0.(m := PendingSeeded(prot, s0.m, i, c, j))
        decreases |c| - j
      {
        ListNext(old(mem), mem, head, c, j);
        assert c[j] in c;
        PendingSeededNext(prot, s0.m, i, c, j);
        var n := cur.value;
        cur := mem[n].next;
        var protected := IsRootOrLocal(n);
        if protected {
          assert s.m.color[n := Gray] == s.m.color;
          SetColor(n, Gray);
          var listed := IsGrayListed(n);
          if !listed {
            SetGrayListed(n, true);
            PushGray(i, n);
          }
        }
        j := j + 1;
      }
    }

    /** `mark_prepare` (src/mark_sweep.rs:50-99). */
    method MarkPrepare(p: nat)
      requires Valid()
      modifies this
      ensures Valid() && SameNexts(old(mem), mem) && flags == old(flags)
      ensures s == old(s).(m := Prepare(old(s).g, Prot(old(s)), old(s).m, p))
    {
      hide RowsOk, PartsOk;
      if p >= |partitions| { return; }
      var marking := IsMarking(p);
      if marking { return; }
      ghost var s0, prot := s, Prot(s);
      for i := 0 to |partitions|
        invariant Rep() && mem == old(mem) && flags == old(flags) && |partitions| == old(|partitions|)
        invariant s == s0.(m := s0.m.(marking := s.m.marking)) && |s.m.marking| == |s0.m.marking|
        invariant forall q :: 0 <= q < i ==> s.m.marking[q]
      {
        SetMarking(i, true);
      }
      ghost var m1 := s.m;
      assert m1 == s0.m.(marking := seq(|s0.m.marking|, _ => true));
      ghost var g := s0.g;
      for i := 0 to |partitions|
        invariant Rep() && SameNexts(old(mem), mem) && flags == old(flags) && |partitions| == old(|partitions|)
        invariant MarksOk(g, m1) && MarksOk(g, s.m) && SeededBelow(g, prot, m1, s.m, i)
        invariant s == s0.(m := s.m)
      {
        ghost var m := s.m;
        SeedPartition(i);
        SeedNextPartition(g, prot, m1, m, i);
      }
      AllSeeded(g, prot, s0.m, m1, s.m, p);
      PrepareOk(g, prot, s0.m, p);
    }

    method SeedPartition(i: nat)
      requires Valid() && i < |partitions|
      modifies this
      ensures Valid() && SameNexts(old(mem), mem) && flags == old(flags) && |partitions| == old(|partitions|)
      ensures s == old(s).(m := SeedOne(old(s).g, Prot(old(s)), old(s).m, i))
    {
      hide RowsOk, PartsOk;
      ghost var s0 := s;
      var gray := GrayList(i);
      var pending := gray != [];
      InChain(s.g, i);
      SeedOneOk(s.g, Prot(s), s.m, i);
      ghost var c := s.g.chain[i];
      assert c[..|c|] == c;
      SeedChain(i, pending);
      if pending {
        SeedColorsOk(s0.g, Prot(s0), s0.m, i);
        SeedPending(i);
      }
    }

    /** A type's trace function reporting children through `GcTraceCtx::add_node` (src/trace.rs:37-46). */
    method TraceNode(n: Ptr) returns (traced: seq<Ptr>)
      requires Valid() && n in mem
      ensures n in s.g.kids && traced == Dedup(s.g.kids[n])
    {
      RowAt(mem, s, flags, n);
      var kids := mem[n].kids;
      traced := [];
      for i := 0 to |kids|
        invariant traced == Dedup(kids[..i])
      {
        assert kids[..i + 1][..i] == kids[..i];
        if kids[i] !in traced {
          traced := traced + [kids[i]];
        }
      }
      assert kids[..|kids|] == kids;
    }

    /** Popping a gray list and clearing the node's flag (src/mark_sweep.rs:127-131). */
    method PopGray(p: nat) returns (n: Ptr)
      requires Valid() && p < |partitions| && p < |s.m.gray| && s.m.gray[p] != []
      modifies this
      ensures Valid() && SameNexts(old(mem), mem) && flags == old(flags) && |partitions| == old(|partitions|)
      ensures p < |old(s).m.gray| && old(s).m.gray[p] != []
      ensures n == Top(old(s).m, p) && n in mem
      ensures s == old(s).(m := Pop(old(s).m, p))
    {
      hide RowsOk, PartsOk, ChainsOk;
      PopOk(s.g, s.m, p);
      var gray := GrayList(p);
      n := gray[|gray| - 1];
      TruncateGray(p);
      SetGrayListed(n, false);
    }

    method TruncateGray(p: nat)
      requires Rep() && p < |partitions| && p < |s.m.gray| && s.m.gray[p] != []
      modifies this
      ensures Rep() && mem == old(mem) && flags == old(flags) && |partitions| == old(|partitions|)
      ensures p < |old(s).m.gray| && old(s).m.gray[p] != []
      ensures s == old(s).(m := old(s).m.(gray := old(s).m.gray[p := old(s).m.gray[p][..|old(s).m.gray[p]| - 1]]))
    {
      assert PartOk(mem, partitions[p], p, s);
      assert s.m.marking[p := s.m.marking[p]] == s.m.marking;
      var gray := partitions[p].grayList;
      PutPartition(p, partitions[p].(grayList := gray[..|gray| - 1]),
        s.(m := s.m.(gray := s.m.gray[p := s.m.gray[p][..|s.m.gray[p]| - 1]])));
    }

    /** Shading the children of one scanned node (src/mark_sweep.rs:155-181). */
    method ShadeChildren(p: nat, children: seq<Ptr>)
      requires Valid() && p < |partitions| && forall k :: k in children ==> Linked(s.g, k)
      modifies this
      ensures Valid() && SameNexts(old(mem), mem) && flags == old(flags) && |partitions| == old(|partitions|)
      ensures s == old(s).(m := Shade(old(s).g, old(s).m, Reverse(children)))
    {
      hide RowsOk, PartsOk, ChainsOk, Shading, Cross, Shade, Flushed;
      ghost var g, m0, done := s.g, s.m, Reverse(children);
      assert forall k :: k in done ==> Linked(g, k) && k in m0.color;
      CrossInRange(g, m0.color, p, done);
      FlushedIsShade(g, m0, p, done);
      ShadeOk(g, m0, done);
      ShadingSize(g, m0, p, done);
      var buffer := VisitChildren(p, children);
      ghost var m1 := s.m;
      FlushStart(m1.gray, buffer);
      for j := 0 to |buffer|
        invariant Rep() && SameNexts(old(mem), mem) && flags == old(flags) && |partitions| == old(|partitions|)
        invariant s == old(s).(m := m1.(gray := Flushed(m1.gray, buffer, j)))
      {
        FlushNext(m1.gray, buffer, j);
        PushGray(buffer[j].0, buffer[j].1);
      }
    }

    /** The child loop: same-partition children are pushed, the others buffered (src/mark_sweep.rs:155-176). */
    method VisitChildren(p: nat, children: seq<Ptr>) returns (buffer: seq<(nat, Ptr)>)
      requires Valid() && p < |partitions| && forall k :: k in children ==> Linked(s.g, k)
      modifies this
      ensures Rep() && SameNexts(old(mem), mem) && flags == old(flags) && |partitions| == old(|partitions|)
      ensures forall k :: k in Reverse(children) ==> k in old(s).m.color && k in old(s).g.part
      ensures s == old(s).(m := Shading(old(s).g, old(s).m, p, Reverse(children)))
      ensures buffer == Cross(old(s).g, old(s).m.color, p, Reverse(children))
    {
      ghost var s0, g, m0 := s, s.g, s.m;
      var traced := children;
      buffer := [];
      ghost var done: seq<Ptr> := [];
      assert Cross(g, m0.color, p, done) == [];
      assert forall k :: k in children ==> Linked(g, k) && k in m0.color;
      hide RowsOk, PartsOk, ChainsOk, MarksOk, Shading, Cross, Shade, Popped, Reverse, Visit, Crossing;
      ShadingStart(g, m0, p);
      PopEnds(children);
      while traced != []
        invariant Rep() && SameNexts(old(mem), mem) && flags == old(flags) && |partitions| == old(|partitions|)
        invariant traced <= children && done == Popped(children, |traced|)
        invariant forall k :: k in done ==> k in children
        invariant s == s0.(m := Shading(g, m0, p, done)) && buffer == Cross(g, m0.color, p, done)
        decreases |traced|
      {
        ghost var t := |traced|;
        var child := traced[|traced| - 1];
        PopNext(children, traced);
        ShadingNext(g, m0, p, done, child);
        CrossNext(g, m0.color, p, done, child);
        traced := traced[..|traced| - 1];
        done := Popped(children, t - 1);
        assert |traced| == t - 1;
        var crossing := VisitChild(p, child);
        if crossing.Some? {
          buffer := buffer + [(crossing.value, child)];
        }
      }
    }

    /** Visiting one child; the result is the partition to push it on later, if that is not `p`. */
    method VisitChild(p: nat, child: Ptr) returns (crossing: Option<nat>)
      requires Rep() && p < |partitions| && p < |s.m.gray| && child in mem && child in s.m.color && child in s.g.part
      modifies this
      ensures Rep() && SameNexts(old(mem), mem) && flags == old(flags) && |partitions| == old(|partitions|)
      ensures p < |old(s).m.gray|
      ensures s == old(s).(m := Visit(old(s).g, old(s).m, p, child))
      ensures crossing == Crossing(old(s).g, old(s).m.color, p, child)
    {
      hide RowsOk, PartsOk;
      crossing := None;
      var c := ColorAt(child);
      if c == White || c == Gray {
        SetColor(child, Gray);
        SetGrayListed(child, true);
        var q := PartitionIn(child);
        if q == p {
          PushGray(p, child);
        } else {
          crossing := Some(q);
        }
      }
    }

    method PartitionIn(n: Ptr) returns (p: nat)
      requires Rep() && n in mem
      ensures n in s.g.part && p == s.g.part[n]
    {
      RowAt(mem, s, flags, n);
      p := mem[n].partition;
    }

    /** Tracing a popped Gray node and blackening it (src/mark_sweep.rs:149-186); `m` is the state before the pop. */
    method ScanNode(p: nat, n: Ptr, ghost m: Marks)
      requires Valid() && NoDangling(s.g) && p < |partitions| && n in mem
      requires MarksOk(s.g, m) && p < |m.gray| && m.gray[p] != [] && GrayTop(s.g, m, p) && n == Top(m, p)
      requires s.m == Pop(m, p)
      modifies this
      ensures Valid() && SameNexts(old(mem), mem) && flags == old(flags) && |partitions| == old(|partitions|)
      ensures s == old(s).(m := Scan(old(s).g, m, p))
    {
      hide RowsOk, PartsOk, ChainsOk, Scan, Shade, Pop;
      ScanOk(s.g, m, p);
      ScanIs(s.g, m, p);
      var traced := TraceNode(n);
      ShadeChildren(p, traced);
      SetColor(n, Black);
    }

    /** `mark_grays` (src/mark_sweep.rs:101-192). */
    method MarkGrays(p: nat, maxSteps: nat) returns (done: bool)
      requires Valid() && NoDangling(s.g) && p < |partitions|
      modifies this
      ensures Valid() && SameNexts(old(mem), mem) && flags == old(flags) && |partitions| == old(|partitions|)
      ensures p < |old(s).m.gray|
      ensures s == old(s).(m := if maxSteps == 0 then old(s).m else MarkLoop(old(s).g, old(s).m, p, maxSteps).0)
      ensures done == (maxSteps > 0 && MarkLoop(old(s).g, old(s).m, p, maxSteps).1)
    {
      hide RowsOk, PartsOk, ChainsOk, MarksOk, MarkLoop, NoDangling;
      if maxSteps == 0 { return false; }
      ghost var s0, g, m0 := s, s.g, s.m;
      var cnt := 0;
      var more := HasGrays(p);
      while more
        invariant Valid() && SameNexts(old(mem), mem) && flags == old(flags) && |partitions| == old(|partitions|)
        invariant more == (s.m.gray[p] != [])
        invariant s == s0.(m := s.m) && cnt <= maxSteps
        invariant MarkLoop(g, s.m, p, maxSteps - cnt) == MarkLoop(g, m0, p, maxSteps)
        decreases |NonBlack(g, s.m, p)|, |s.m.gray[p]|
      {
        var turn := MarkTurn(p, maxSteps - cnt);
        if turn == Stopped { return false; }
        if turn == Scanned { cnt := cnt + 1; }
        more := HasGrays(p);
      }
      MarkLoopIdle(g, s.m, p, maxSteps - cnt);
      return true;
    }

    /** One turn of the loop of `mark_grays` with `left` steps to go (src/mark_sweep.rs:127-188). */
    method MarkTurn(p: nat, left: nat) returns (turn: Turn)
      requires Valid() && NoDangling(s.g) && p < |partitions| && s.m.gray[p] != []
      modifies this
      ensures Valid() && SameNexts(old(mem), mem) && flags == old(flags) && |partitions| == old(|partitions|)
      ensures s == old(s).(m := s.m)
      ensures turn == Scanned ==> left > 0 && |NonBlack(s.g, s.m, p)| < |NonBlack(s.g, old(s).m, p)|
      ensures turn == Skipped ==>
                NonBlack(s.g, s.m, p) == NonBlack(s.g, old(s).m, p) && |s.m.gray[p]| < |old(s).m.gray[p]|
      ensures MarkLoop(s.g, old(s).m, p, left) ==
                match turn
                case Stopped => (s.m, false)
                case Scanned => MarkLoop(s.g, s.m, p, left - 1)
                case Skipped => MarkLoop(s.g, s.m, p, left)
    {
      hide RowsOk, PartsOk, ChainsOk, Scan, MarkLoop, MarksOk;
      ghost var g, m := s.g, s.m;
      PopOk(g, m, p);
      var n := PopGray(p);
      var c := ColorAt(n);
      if c != Gray {
        MarkLoopPop(g, m, p, left);
        turn := Skipped;
      } else if left == 0 {
        PushGray(p, n);
        PushedBack(g, m, p);
        MarkLoopStop(g, m, p);
        turn := Stopped;
      } else {
        ScanOk(g, m, p);
        MarkLoopScan(g, m, p, left);
        ScanNode(p, n, m);
        turn := Scanned;
      }
    }

    method HasGrays(p: nat) returns (b: bool)
      requires Rep() && p < |partitions|
      ensures p < |s.m.gray| && b == (s.m.gray[p] != [])
    {
      assert PartOk(mem, partitions[p], p, s);
      b := partitions[p].grayList != [];
    }

    /** `mark` (src/mark_sweep.rs:194-201). */
    method MarkSome(p: nat, maxSteps: nat) returns (done: bool)
      requires Valid() && NoDangling(s.g) && p < |partitions|
      modifies this
      ensures Valid() && SameNexts(old(mem), mem) && flags == old(flags) && |partitions| == old(|partitions|)
      ensures p < |old(s).m.gray|
      ensures var r := Mark(old(s).g, Prot(old(s)), old(s).m, p, maxSteps);
              s == old(s).(m := r.0) && done == r.1
    {
      hide RowsOk, PartsOk, MarkLoop, Prepare;
      MarkPrepare(p);
      if maxSteps > 0 {
        done := MarkGrays(p, maxSteps);
      } else {
        done := false;
      }
    }

    // ---- sweeping ----

    /** Append `n` behind `tail`, or start a list with it. */
    method Append(tail: Option<Ptr>, n: Ptr)
      requires n in mem && (tail.Some? ==> tail.value in mem)
      modifies this`mem
      ensures mem == Appended(old(mem), tail, n)
    {
      mem := mem[n := mem[n].(next := None)];
      if tail.Some? {
        mem := mem[tail.value := mem[tail.value].(next := Some(n))];
      }
    }

    /** The pointer surgery of `sweep_unlink` (src/mark_sweep.rs:392-425). */
    method SplitChain(p: nat) returns (whiteHead: Option<Ptr>, survHead: Option<Ptr>)
      requires Valid() && p < |partitions|
      modifies this`mem
      ensures var c := s.g.chain[p]; var dead := Dead(s.g, Prot(s), s.m, p);
              && OnlyNexts(old(mem), mem, Elems(c))
              && IsList(mem, whiteHead, Keep(c, dead)) && IsList(mem, survHead, Keep(c, Elems(c) - dead))
    {
      ghost var c, dead := s.g.chain[p], Dead(s.g, Prot(s), s.m, p);
      var cur := HeadNode(p);
      ghost var head, i := cur, 0;
      InChain(s.g, p);
      assert Distinct(c);
      hide PartsOk, RowsOk, IsList, ChainsOk, MarksOk, Appended, SplitAt;
      var whiteTail: Option<Ptr>, survTail: Option<Ptr>;
      whiteHead, whiteTail, survHead, survTail := None, None, None, None;
      SplitStart(mem, c, dead);
      while cur.Some?
        invariant i <= |c| && At(c, i, cur)
        invariant SplitAt(old(mem), mem, c, dead, i, whiteHead, whiteTail, survHead, survTail)
        invariant RowsOk(mem, s, flags)
        decreases |c| - i
      {
        ListNext(old(mem), old(mem), head, c, i);
        assert c[i] in c;
        SplitNext(old(mem), mem, c, dead, i, whiteHead, whiteTail, survHead, survTail);
        var this_ := cur.value;
        var next := mem[this_].next;
        var isWhite := IsDead(this_);
        if isWhite {
          Append(whiteTail, this_);
          if whiteTail == None { whiteHead := Some(this_); }
          whiteTail := Some(this_);
        } else {
          Append(survTail, this_);
          if survTail == None { survHead := Some(this_); }
          survTail := Some(this_);
        }
        cur := next;
        i := i + 1;
        SplitRows(old(mem), mem, c, dead, i, whiteHead, whiteTail, survHead, survTail, s, flags);
      }
      assert c[..i] == c;
      SplitEnds(old(mem), mem, c, dead, whiteHead, whiteTail, survHead, survTail);
    }

    /** White and neither ROOT nor LOCAL (src/mark_sweep.rs:403-404). */
    method IsDead(n: Ptr) returns (b: bool)
      requires RowsOk(mem, s, flags) && n in mem
      ensures n in s.m.color && (b <==> s.m.color[n] == White && n !in Prot(s))
    {
      RowAt(mem, s, flags, n);
      H.RootOrLocalIff(mem[n].attrs);
      hide H.Contains, TypeIndex;
      b := H.ColorOf(mem[n].attrs) == White && !H.RootOrLocal(mem[n].attrs);
    }

    /** `sweep_unlink` (src/mark_sweep.rs:379-451): the inner option is the head of the white list. */
    method SweepUnlink(p: nat) returns (white: Option<Option<Ptr>>)
      requires Valid()
      modifies this
      ensures Valid() && OnlyNexts(old(mem), mem, if p < |old(s).g.chain| then Elems(old(s).g.chain[p]) else {})
      ensures flags == old(flags) && |partitions| == old(|partitions|)
      ensures s == old(s).(g := UnlinkGraph(old(s).g, Prot(old(s)), old(s).m, p), m := UnlinkMarks(old(s).m, p))
      ensures white.Some? <==> CanUnlink(old(s).m, p) && old(s).g.chain[p] != []
      ensures white.Some? ==> IsList(mem, white.value, Keep(old(s).g.chain[p], Dead(old(s).g, Prot(old(s)), old(s).m, p)))
    {
      hide RowsOk, PartsOk;
      UnlinkOk(s.g, Prot(s), s.m, p);
      if p >= |partitions| { return None; }
      var marking := IsMarking(p);
      var grays := HasGrays(p);
      if !marking || grays { return None; }
      SetMarking(p, false);
      var head := HeadNode(p);
      if head == None {
        UnlinkEmpty(old(s).g, Prot(old(s)), old(s).m, p);
        return None;
      }
      var whiteHead := InstallSurvivors(p);
      white := Some(whiteHead);
    }

    /** Splitting the chain and putting the survivors back (src/mark_sweep.rs:390-428). */
    method InstallSurvivors(p: nat) returns (whiteHead: Option<Ptr>)
      requires Valid() && p < |partitions|
      modifies this
      ensures Rep() && OnlyNexts(old(mem), mem, Elems(old(s).g.chain[p]))
      ensures flags == old(flags) && |partitions| == old(|partitions|)
      ensures s == old(s).(g := Detach(old(s).g, p, Dead(old(s).g, Prot(old(s)), old(s).m, p)))
      ensures IsList(mem, whiteHead, Keep(old(s).g.chain[p], Dead(old(s).g, Prot(old(s)), old(s).m, p)))
    {
      hide RowsOk, PartsOk, OnlyNexts, IsList, MarksOk, ChainsOk, Dead;
      ghost var s1, mem1 := s, mem;
      var survHead;
      whiteHead, survHead := SplitChain(p);
      ghost var s' := s.(g := Detach(s.g, p, Dead(s.g, Prot(s), s.m, p)));
      OnlyNextsRows(mem1, mem, Elems(s1.g.chain[p]), s1, flags);
      RowsSame(mem, s1, s', flags);
      PartsSplit(mem1, mem, partitions, partitions[p].(nodes := survHead), s1, s', p);
      assert mem.Keys == mem1.Keys by { OnlyNextsKeys(mem1, mem, Elems(s1.g.chain[p])); }
      partitions := partitions[p := partitions[p].(nodes := survHead)];
      s := s';
    }

    // ---- disposal ----

    ghost predicate Ledger()
      reads this
    {
      LedgerOk(types, dropPasses, s)
    }

    /** `update_mem_use` (src/heap.rs:260-285). */
    method UpdateMemUse(p: nat, delta: int) returns (used: nat)
      requires Rep() && p < |partitions| && p < |s.acc.used|
      requires delta < 0 ==> -delta <= s.acc.used[p] && -delta <= s.acc.total
      modifies this
      ensures Rep() && mem == old(mem) && flags == old(flags) && |partitions| == old(|partitions|)
      ensures p < |old(s).acc.used| && p < |s.acc.used| && used == s.acc.used[p]
      ensures s == old(s).(acc := if delta >= 0 then A.Charge(old(s).acc, p, delta) else A.Release(old(s).acc, p, -delta))
    {
      assert forall q {:trigger partitions[q]} :: 0 <= q < |partitions| ==> PartOk(mem, partitions[q], q, s);
      hide IsList;
      used := partitions[p].memoryUsed + delta;
      partitions := partitions[p := partitions[p].(memoryUsed := used)];
      totalMemoryUsed := totalMemoryUsed + delta;
      s := s.(acc := if delta >= 0 then A.Charge(s.acc, p, delta) else A.Release(s.acc, p, -delta));
      assert RowsOk(mem, s, flags) by { RowsSame(mem, old(s), s, flags); }
    }

    /** The registry entry of a node's type. */
    method TypeOf(n: Ptr) returns (info: TypeInfo)
      requires Rep() && n in mem && RegistryOk(types, dropPasses, s.g)
      ensures n in s.g.dtype && s.g.dtype[n] < |types| && info == types[s.g.dtype[n]]
    {
      RowAt(mem, s, flags, n);
      info := types[TypeIndex(H.TypeBits(mem[n].attrs))];
      assert s.g.dtype[n] < |types|;
    }

    method InfoOf(n: Ptr) returns (info: TypeInfo)
      requires Rep() && n in mem && Ledger()
      ensures n in s.g.dtype && s.g.dtype[n] < |types| && info == types[s.g.dtype[n]]
      ensures info.layoutSize < 0x8000_0000 && info.dropPass in dropPasses
    {
      info := TypeOf(n);
    }

    /** Emptying the weak slot of a node about to go (src/mem.rs:292-297). */
    method ClearSlot(n: Ptr)
      requires RowsOk(mem, s, flags) && W.WeakOk(mem.Keys, s.weak) && weakSlots == s.weak.slots && n in mem
      modifies this`weakSlots
      ensures weakSlots == W.Forget(s.weak, {n}).slots
    {
      RowAt(mem, s, flags, n);
      W.ForgetOne(mem.Keys, s.weak, n);
      hide RowsOk;
      var id := mem[n].weakId;
      if id.version != 0 {
        weakSlots := weakSlots[id.index := weakSlots[id.index].(node := None)];
      }
    }

    /** `dispose_no_drop` (src/mem.rs:287-305): an unlinked node whose payload is already dropped is freed. */
    method DisposeNoDrop(n: Ptr) returns (freed: nat)
      requires Valid() && Ledger() && n in mem && n !in s.g.linked
      modifies this
      ensures Valid() && Ledger() && mem == old(mem) - {n} && flags == old(flags) && |partitions| == old(|partitions|)
      ensures freed == A.Bytes({n}, old(s).g.dtype, LayoutSizes(types))
      ensures n in old(s).g.part && old(s).g.part[n] < |old(s).acc.used|
      ensures freed <= old(s).acc.used[old(s).g.part[n]] && freed <= old(s).acc.total
      ensures s == Disposed(LayoutSizes(types), old(s), old(s).g.part[n], {n})
    {
      hide RowsOk, PartsOk, MarksOk, ChainsOk, A.AccountsOk, A.LimitOk, W.WeakOk, A.Bytes, W.Forget;
      DisposedOne(types, dropPasses, s, n);
      var p := PartitionOf(n);
      var info := InfoOf(n);
      ClearSlot(n);
      DisposeMemOnly(n, p, info.layoutSize);
      freed := info.layoutSize;
    }

    /** `dispose_mem_only` (src/mem.rs:307-339). */
    method DisposeMemOnly(n: Ptr, p: nat, grossSize: nat)
      requires RowsOk(mem, s, flags) && PartsOk(mem, partitions, s) && MarksOk(s.g, s.m) && ChainsOk(s.g)
      requires mem.Keys == s.g.part.Keys && |partitions| == |s.g.chain| == |s.m.gray| == |s.m.marking|
      requires scopeStacks == s.scopes.stacks
      requires memoryLimit == s.acc.limit && gcThreshold == s.acc.threshold && totalMemoryUsed == s.acc.total
      requires weakSlots == W.Forget(s.weak, {n}).slots
      requires n in mem && n !in s.g.linked && p < |partitions| && p < |s.acc.used|
      requires grossSize < 0x8000_0000 && grossSize <= s.acc.used[p] && grossSize <= s.acc.total
      requires grossSize == A.Bytes({n}, s.g.dtype, LayoutSizes(types))
      modifies this
      ensures p < |old(s).acc.used| && grossSize <= old(s).acc.used[p] && grossSize <= old(s).acc.total
      ensures Rep() && mem == old(mem) - {n} && flags == old(flags) && |partitions| == old(|partitions|)
      ensures s == Disposed(LayoutSizes(types), old(s), p, {n})
    {
      hide RowsOk, PartsOk, MarksOk, ChainsOk, A.Bytes, W.Forget;
      A.DeltaFaithfulIff(grossSize);
      ghost var s' := s.(g := Free(s.g, {n}), m := s.m.(color := s.m.color - {n}), roots := s.roots - {n},
                         weak := W.Forget(s.weak, {n}));
      assert s'.g.part.Keys == s.g.part.Keys - {n};
      ForgetKeys(s.weak, n);
      RowsRemove(mem, s, s', flags, n);
      PartsOffChain(mem, mem - {n}, partitions, s, s');
      mem := mem - {n};
      s := s';
      var _ := UpdateMemUse(p, -A.AsI32(grossSize));
    }

    /** Appending an unlinked node to a list of unlinked nodes. */
    method Relink(tail: Option<Ptr>, n: Ptr)
      requires Valid() && n in mem && n !in s.g.linked
      requires tail.Some? ==> tail.value in mem && tail.value !in s.g.linked
      modifies this
      ensures Valid() && mem == Appended(old(mem), tail, n)
      ensures s == old(s) && flags == old(flags) && |partitions| == old(|partitions|)
    {
      hide RowsOk, PartsOk, MarksOk, ChainsOk;
      Append(tail, n);
      OnlyNextsAppended(old(mem), old(mem), if tail.Some? then {tail.value} else {}, tail, n);
      OnlyNextsRows(old(mem), mem, if tail.Some? then {tail.value, n} else {n}, s, flags);
      assert PartsOk(mem, partitions, s) by { PartsOffChain(old(mem), mem, partitions, s, s); }
    }

    /** One drop pass of `sweep_dispose` (src/mark_sweep.rs:497-553): dispose the nodes of the pass, keep the others. */
    method DisposePass(p: nat, head: Option<Ptr>, pass: nat, ghost rem: seq<Ptr>)
      returns (keptHead: Option<Ptr>, gone: seq<Ptr>, freed: nat, holes: seq<Ptr>)
      requires Valid() && Ledger() && p < |partitions|
      requires IsList(mem, head, rem) && Distinct(rem) && AllLimbo(s.g, p, Elems(rem))
      modifies this
      ensures Valid() && Ledger() && flags == old(flags) && |partitions| == old(|partitions|)
      ensures gone == Keep(rem, D.PassSet(PassMap(types, old(s).g), pass)) && holes == Keep(gone, flags.arena)
      ensures IsList(mem, keptHead, Keep(rem, D.NotPass(PassMap(types, old(s).g), pass)))
      ensures freed == A.Bytes(Elems(gone), old(s).g.dtype, LayoutSizes(types))
      ensures p < |old(s).acc.used| && freed <= old(s).acc.used[p] && freed <= old(s).acc.total
      ensures s == Disposed(LayoutSizes(types), old(s), p, Elems(gone))
    {
      hide RowsOk, PartsOk, MarksOk, ChainsOk, A.Bytes, Disposed, PassAt, IsList, LedgerOk, Keep;
      ghost var s0, passOf := s, PassMap(types, s.g);
      MarksWf(s.g, s.m);
      hide Wf;
      DisposedFits(types, dropPasses, s0, p, Elems(rem));
      PassStart(types, s0, mem, p, head, rem, passOf, pass);
      var cur := head;
      var keptTail: Option<Ptr>;
      keptHead, keptTail, gone, freed, holes := None, None, [], 0, [];
      KeepNothing<Ptr>([], flags.arena);
      ghost var i := 0;
      while cur.Some?
        invariant Valid() && Ledger() && flags == old(flags) && |partitions| == old(|partitions|)
        invariant i <= |rem| && At(rem, i, cur)
        invariant PassAt(types, s0, s, mem, p, rem, i, passOf, pass, gone, keptHead, keptTail)
        invariant freed == A.Bytes(Elems(gone), s0.g.dtype, LayoutSizes(types)) && holes == Keep(gone, flags.arena)
        decreases |rem| - i
      {
        PassTurn(types, dropPasses, s0, s, mem, p, rem, i, passOf, pass, gone, keptHead, keptTail);
        var n := cur.value;
        cur := mem[n].next;
        var info := InfoOf(n);
        if info.dropPass == pass {
          ghost var s1, mem1 := s, mem;
          var arena := InArena(n);
          var size := DisposeNoDrop(n);
          PassDrop(types, dropPasses, s0, s1, mem1, p, rem, i, passOf, pass, gone, keptHead, keptTail, s);
          KeepLast(gone, n, flags.arena);
          gone, freed := gone + [n], freed + size;
          if arena { holes := holes + [n]; }
        } else {
          PassKeep(types, s0, s, mem, p, rem, i, passOf, pass, gone, keptHead, keptTail);
          Relink(keptTail, n);
          if keptTail == None { keptHead := Some(n); }
          keptTail := Some(n);
        }
        i := i + 1;
      }
      PassEnds(types, s0, s, mem, p, rem, passOf, pass, gone, keptHead, keptTail);
    }

    /**
     `sweep_dispose` (src/mark_sweep.rs:482-571) on the white list `ns`: every node of it is freed exactly once,
     in drop-pass order, and the counters drop by the sum of the layout sizes. `order` logs the disposals and `holes`
     the calls of `collect_hole`, which the ARENA_ALLOC flag decides.
     */
    method SweepDispose(p: nat, white: Option<Ptr>, ghost ns: seq<Ptr>) returns (freed: nat, order: seq<Ptr>, holes: seq<Ptr>)
      requires Valid() && Ledger() && p < |partitions|
      requires IsList(mem, white, ns) && Distinct(ns) && AllLimbo(s.g, p, Elems(ns))
      modifies this
      ensures Valid() && Ledger() && flags == old(flags) && |partitions| == old(|partitions|)
      ensures order == D.DropOrder(dropPasses, PassMap(types, old(s).g), ns) && multiset(order) == multiset(ns)
      ensures holes == Keep(order, flags.arena)
      ensures freed == A.Bytes(Elems(ns), old(s).g.dtype, LayoutSizes(types))
      ensures p < |old(s).acc.used| && freed <= old(s).acc.used[p] && freed <= old(s).acc.total
      ensures s == Disposed(LayoutSizes(types), old(s), p, Elems(ns))
    {
      hide RowsOk, PartsOk, MarksOk, ChainsOk, A.Bytes, Disposed, SweepAt, IsList, LedgerOk, Keep, AllLimbo, D.DropOrder;
      ghost var s0, rem := s, ns;
      MarksWf(s.g, s.m);
      hide Wf;
      DisposedFits(types, dropPasses, s0, p, Elems(ns));
      SweepStart(types, dropPasses, s0, mem, p, white, ns);
      var remaining := white;
      freed, order, holes := 0, [], [];
      KeepNothing<Ptr>([], flags.arena);
      var k := 0;
      while k < |dropPasses| && (k == 0 || remaining.Some?)
        invariant Valid() && Ledger() && flags == old(flags) && |partitions| == old(|partitions|)
        invariant k <= |dropPasses|
        invariant SweepAt(types, dropPasses, s0, s, mem, p, ns, k, order, remaining, rem)
        invariant freed == A.Bytes(Elems(order), s0.g.dtype, LayoutSizes(types)) && holes == Keep(order, flags.arena)
      {
        SweepTurn(types, dropPasses, s0, s, mem, p, ns, k, order, remaining, rem);
        ghost var s1, mem1, head1 := s, mem, remaining;
        var gone, bytes, collected;
        remaining, gone, bytes, collected := DisposePass(p, remaining, dropPasses[k], rem);
        SweepNext(types, dropPasses, s0, s1, mem1, p, ns, k, order, head1, rem, s, mem, gone, remaining);
        rem := Keep(rem, D.NotPass(PassMap(types, s1.g), dropPasses[k]));
        KeepSum(order, gone, flags.arena);
        order, freed, holes := order + gone, freed + bytes, holes + collected;
        k := k + 1;
      }
      SweepEnds(types, dropPasses, s0, s, mem, p, ns, k, order, remaining, rem);
    }

    /** `sweep_drop_payloads` (src/mark_sweep.rs:460-470): payloads needing a drop are dropped in list order. */
    method SweepDropPayloads(white: Option<Ptr>, ghost ns: seq<Ptr>) returns (drops: seq<Ptr>)
      requires Valid() && Ledger() && IsList(mem, white, ns)
      ensures drops == Keep(ns, NeedsDrop(types, s.g))
    {
      hide RowsOk, PartsOk, MarksOk, ChainsOk, LedgerOk;
      drops := [];
      var cur := white;
      ghost var i := 0;
      while cur.Some?
        invariant i <= |ns| && At(ns, i, cur) && drops == Keep(ns[..i], NeedsDrop(types, s.g))
        decreases |ns| - i
      {
        ListNext(mem, mem, white, ns, i);
        KeepNext(ns, i, NeedsDrop(types, s.g));
        var info := InfoOf(cur.value);
        if info.needsDrop { drops := drops + [cur.value]; }
        cur := mem[cur.value].next;
        i := i + 1;
      }
      assert ns[..i] == ns;
    }

    /** `while !mark(p, k) {}` (src/mark_sweep.rs:594), within its bound. */
    method MarkToTheEnd(p: nat, k: nat)
      requires Valid() && NoDangling(s.g) && p < |partitions| && k > 0
      modifies this
      ensures Valid() && SameNexts(old(mem), mem) && flags == old(flags) && |partitions| == old(|partitions|)
      ensures p < |old(s).m.gray|
      ensures s == old(s).(m := MarkWhile(old(s).g, Prot(old(s)), old(s).m, p, k, CallBound(|Nodes(old(s).g, p)|, k)).0)
      ensures MarkWhile(old(s).g, Prot(old(s)), old(s).m, p, k, CallBound(|Nodes(old(s).g, p)|, k)).1
    {
      hide RowsOk, PartsOk, MarksOk, ChainsOk, NoDangling, Mark, Nodes;
      ghost var s0 := s;
      ghost var left := CallBound(|Nodes(s.g, p)|, k);
      MarkWhileTerminates(s.g, Prot(s), s.m, p, k);
      var done := false;
      while !done
        invariant Valid() && SameNexts(old(mem), mem) && flags == old(flags) && |partitions| == old(|partitions|)
        invariant s == s0.(m := s.m)
        invariant MarkWhile(s0.g, Prot(s0), s0.m, p, k, CallBound(|Nodes(s0.g, p)|, k))
                    == if done then (s.m, true) else MarkWhile(s.g, Prot(s), s.m, p, k, left)
        decreases !done, left
      {
        done := MarkSome(p, k);
        left := left - 1;
      }
    }

    /**
     `garbage_collect` (src/mark_sweep.rs:589-602). The bytes it returns are exactly what the heap's and the
     partition's counters lose; `drops` logs the dropped payloads, `order` the freed nodes and `holes`
     those handed to the arena.
     */
    method GarbageCollect(p: nat) returns (freed: nat, drops: seq<Ptr>, order: seq<Ptr>, holes: seq<Ptr>)
      requires Valid() && Ledger() && NoDangling(s.g)
      modifies this
      ensures Valid() && Ledger() && flags == old(flags) && |partitions| == old(|partitions|)
      ensures p >= old(|partitions|) ==> s == old(s) && freed == 0 && drops == [] && order == [] && holes == []
      ensures p < old(|partitions|) ==>
                && Collectable(LayoutSizes(types), old(s), p) && s == Collected(LayoutSizes(types), old(s), p)
                && s.acc.total == old(s).acc.total - freed
                && var ns: seq<Ptr> := Garbage(old(s), p);
                   && drops == Keep(ns, NeedsDrop(types, old(s).g))
                   && order == D.DropOrder(dropPasses, PassMap(types, old(s).g), ns)
                   && multiset(order) == multiset(ns) && holes == Keep(order, flags.arena)
    {
      hide RowsOk, PartsOk, MarksOk, ChainsOk, LedgerOk, IsList, NoDangling, MarkWhile, Dead, Keep, D.DropOrder;
      hide Nodes, CallBound, A.Bytes, UnlinkGraph;
      freed, drops, order, holes := 0, [], [], [];
      if p >= |partitions| { return; }
      ghost var s0 := s;
      MarksWf(s.g, s.m);
      LedgerCollectable(types, dropPasses, s, p);
      ghost var ns := Garbage(s, p);
      GarbageOk(LayoutSizes(types), s, p);
      MarkToTheEnd(p, BUDGET);
      UnlinkKeepsColumns(s, p);
      ghost var s1 := s;
      var white := SweepUnlink(p);
      MarksWf(s.g, s.m);
      LedgerFrame(types, dropPasses, s0, s);
      if white.Some? {
        drops := SweepDropPayloads(white.value, ns);
        freed, order, holes := SweepDispose(p, white.value, ns);
      } else {
        NothingToFree(types, dropPasses, s0, s, p);
        KeepNothing<Ptr>([], flags.arena);
      }
    }

    /** `dispose` (src/mem.rs:248-283): as `DisposeNoDrop`, after dropping the payload if its type needs that. */
    method Dispose(n: Ptr) returns (freed: nat, dropped: bool)
      requires Valid() && Ledger() && n in mem && n !in s.g.linked
      modifies this
      ensures Valid() && Ledger() && mem == old(mem) - {n} && flags == old(flags) && |partitions| == old(|partitions|)
      ensures freed == A.Bytes({n}, old(s).g.dtype, LayoutSizes(types))
      ensures n in old(s).g.part && old(s).g.part[n] < |old(s).acc.used|
      ensures freed <= old(s).acc.used[old(s).g.part[n]] && freed <= old(s).acc.total
      ensures s == Disposed(LayoutSizes(types), old(s), old(s).g.part[n], {n})
      ensures dropped <==> n in NeedsDrop(types, old(s).g)
    {
      hide RowsOk, PartsOk, MarksOk, ChainsOk, LedgerOk;
      var info := InfoOf(n);
      dropped := info.needsDrop;
      freed := DisposeNoDrop(n);
    }

    /** Redirecting an unlinked node's `next`. */
    method SetNext(n: Ptr, next: Option<Ptr>)
      requires Valid() && n in mem && n !in s.g.linked
      modifies this
      ensures Valid() && mem == old(mem)[n := old(mem)[n].(next := next)]
      ensures s == old(s) && flags == old(flags) && |partitions| == old(|partitions|)
    {
      hide RowsOk, PartsOk, MarksOk, ChainsOk;
      mem := mem[n := mem[n].(next := next)];
      OnlyNextsRows(old(mem), mem, {n}, s, flags);
      assert PartsOk(mem, partitions, s) by { PartsOffChain(old(mem), mem, partitions, s, s); }
    }

    /**
     `filter_remove_with` (src/node_link.rs:44-74), with the predicate and the removal of `dispose_all_nodes`
     (src/mark_sweep.rs:619-637): nodes of the pass are bypassed, then destroyed, once each and in order.
     */
    method FilterRemoveWith(p: nat, link: Option<Ptr>, pass: nat, ghost rem: seq<Ptr>)
      returns (head: Option<Ptr>, gone: seq<Ptr>, drops: seq<Ptr>, freed: nat)
      requires Valid() && Ledger() && p < |partitions|
      requires IsList(mem, link, rem) && Distinct(rem) && AllLimbo(s.g, p, Elems(rem))
      modifies this
      ensures Valid() && Ledger() && flags == old(flags) && |partitions| == old(|partitions|)
      ensures gone == Keep(rem, D.PassSet(PassMap(types, old(s).g), pass))
      ensures IsList(mem, head, Keep(rem, D.NotPass(PassMap(types, old(s).g), pass)))
      ensures drops == Keep(gone, NeedsDrop(types, old(s).g))
      ensures freed == A.Bytes(Elems(gone), old(s).g.dtype, LayoutSizes(types))
      ensures p < |old(s).acc.used| && freed <= old(s).acc.used[p] && freed <= old(s).acc.total
      ensures s == Disposed(LayoutSizes(types), old(s), p, Elems(gone))
    {
      hide RowsOk, PartsOk, MarksOk, ChainsOk, A.Bytes, Disposed, FilterAt, IsList, LedgerOk, Keep, NeedsDrop;
      ghost var s0, passOf := s, PassMap(types, s.g);
      MarksWf(s.g, s.m);
      hide Wf;
      DisposedFits(types, dropPasses, s0, p, Elems(rem));
      FilterStart(types, s0, mem, p, link, rem, passOf, pass);
      var current := link;
      var prev: Option<Ptr>;
      head, prev, gone, drops, freed := link, None, [], [], 0;
      ghost var i := 0;
      while current.Some?
        invariant Valid() && Ledger() && flags == old(flags) && |partitions| == old(|partitions|)
        invariant i <= |rem| && At(rem, i, current)
        invariant FilterAt(types, s0, s, mem, p, rem, i, passOf, pass, gone, head, prev)
        invariant freed == A.Bytes(Elems(gone), s0.g.dtype, LayoutSizes(types))
        invariant drops == Keep(gone, NeedsDrop(types, s0.g))
        decreases |rem| - i
      {
        FilterTurn(types, dropPasses, s0, s, mem, p, rem, i, passOf, pass, gone, head, prev);
        var n := current.value;
        var info := InfoOf(n);
        if info.dropPass == pass {
          ghost var s1, mem1 := s, mem;
          var next := mem[n].next;
          ghost var head1 := head;
          if prev.Some? {
            SetNext(prev.value, next);
          } else {
            head := next;
          }
          current := next;
          var size, dropped := Dispose(n);
          FilterDrop(types, dropPasses, s0, s1, mem1, p, rem, i, passOf, pass, gone, head1, prev, s);
          KeepOneMore(gone, n, NeedsDrop(types, s0.g));
          NeedsDropSurvives(types, s0, s1, n);
          gone, freed := gone + [n], freed + size;
          if dropped { drops := drops + [n]; }
        } else {
          FilterKeep(types, s0, s, mem, p, rem, i, passOf, pass, gone, head, prev);
          prev := Some(n);
          current := mem[n].next;
        }
        i := i + 1;
      }
      FilterEnds(types, s0, s, mem, p, rem, passOf, pass, gone, head, prev);
    }

    /**
     `dispose_all_nodes` (src/mark_sweep.rs:605-651) on a detached list `ns`: it is emptied, every node destroyed
     exactly once in drop-pass order, and the payload drops follow the same order.
     */
    method DisposeAllNodes(p: nat, link: Option<Ptr>, ghost ns: seq<Ptr>)
      returns (head: Option<Ptr>, freed: nat, order: seq<Ptr>, drops: seq<Ptr>)
      requires Valid() && Ledger() && p < |partitions|
      requires IsList(mem, link, ns) && Distinct(ns) && AllLimbo(s.g, p, Elems(ns))
      modifies this
      ensures Valid() && Ledger() && flags == old(flags) && |partitions| == old(|partitions|)
      ensures head == None && order == D.DropOrder(dropPasses, PassMap(types, old(s).g), ns) && multiset(order) == multiset(ns)
      ensures drops == Keep(order, NeedsDrop(types, old(s).g))
      ensures freed == A.Bytes(Elems(ns), old(s).g.dtype, LayoutSizes(types))
      ensures p < |old(s).acc.used| && freed <= old(s).acc.used[p] && freed <= old(s).acc.total
      ensures s == Disposed(LayoutSizes(types), old(s), p, Elems(ns))
    {
      hide RowsOk, PartsOk, MarksOk, ChainsOk, A.Bytes, Disposed, SweepAt, IsList, LedgerOk, Keep, AllLimbo, D.DropOrder, NeedsDrop;
      ghost var s0, rem := s, ns;
      MarksWf(s.g, s.m);
      hide Wf;
      DisposedFits(types, dropPasses, s0, p, Elems(ns));
      SweepStart(types, dropPasses, s0, mem, p, link, ns);
      head, freed, order, drops := link, 0, [], [];
      var k := 0;
      while k < |dropPasses| && (k == 0 || head.Some?)
        invariant Valid() && Ledger() && flags == old(flags) && |partitions| == old(|partitions|)
        invariant k <= |dropPasses|
        invariant SweepAt(types, dropPasses, s0, s, mem, p, ns, k, order, head, rem)
        invariant freed == A.Bytes(Elems(order), s0.g.dtype, LayoutSizes(types))
        invariant drops == Keep(order, NeedsDrop(types, s0.g))
      {
        SweepTurn(types, dropPasses, s0, s, mem, p, ns, k, order, head, rem);
        ghost var s1, mem1, head1 := s, mem, head;
        var gone, dropped, bytes;
        head, gone, dropped, bytes := FilterRemoveWith(p, head, dropPasses[k], rem);
        SweepNext(types, dropPasses, s0, s1, mem1, p, ns, k, order, head1, rem, s, mem, gone, head);
        SweepOrder(types, dropPasses, s0, s1, mem1, p, ns, k, order, head1, rem, gone);
        DropsSurvive(types, s0, s1, order, gone);
        rem := Keep(rem, D.NotPass(PassMap(types, s1.g), dropPasses[k]));
        order, freed, drops := order + gone, freed + bytes, drops + dropped;
        k := k + 1;
      }
      SweepEnds(types, dropPasses, s0, s, mem, p, ns, k, order, head, rem);
      SweepEmpties(types, dropPasses, s0, s, mem, p, ns, k, order, head, rem);
    }

    // ---- allocation ----

    /**
     `alloc_node_mem` (src/mem.rs:62-183). The arena and the system allocator are outside: `addr` is the fresh
     block they supply, if any, and `arena` says which of them did.
     */
    method AllocNodeMem(p: nat, dtype: nat, kids: seq<Ptr>, addr: Option<Ptr>, arena: bool) returns (r: Result<Ptr>)
      requires Valid() && Ledger() && Prot(s) <= s.g.linked && dtype < |types| && (addr.Some? ==> addr.value !in mem)
      modifies this
      ensures Valid() && Ledger() && |partitions| == old(|partitions|)
      ensures r == if p >= old(|partitions|) then Err(PartitionNotFound)
                   else if old(memoryLimit) > 0 && old(totalMemoryUsed) + types[dtype].layoutSize > old(memoryLimit) then Err(PartitionFull)
                   else if addr == None then Err(AllocationFailed)
                   else Ok(addr.value)
      ensures r.Err? ==> s == old(s) && mem == old(mem) && flags == old(flags)
      ensures r.Ok? ==> && p < |old(s).acc.used| && s == Created(old(s), p, r.value, kids, dtype, types[dtype].layoutSize)
                        && r.value in mem && mem[r.value].next == None
                        && flags == NewFlags(old(flags), r.value, arena)
                        && mem == old(mem)[r.value := mem[r.value]]
    {
      hide RowsOk, PartsOk, MarksOk, ChainsOk, LedgerOk;
      MarksWf(s.g, s.m);
      hide Wf;
      if p >= |partitions| { return Err(PartitionNotFound); }
      var grossSize := types[dtype].layoutSize;
      if memoryLimit > 0 && totalMemoryUsed + grossSize > memoryLimit { return Err(PartitionFull); }
      if addr == None { return Err(AllocationFailed); }
      WithHeaderOk(s, p, addr.value, kids, dtype);
      CreatedLedger(types, dropPasses, s, p, addr.value, kids, dtype);
      WriteHeader(p, addr.value, dtype, kids, arena);
      A.DeltaFaithfulIff(grossSize);
      var _ := UpdateMemUse(p, A.AsI32(grossSize));
      r := Ok(addr.value);
    }

    /** Writing the header of a new node (src/mem.rs:113-128, 166-178). */
    method WriteHeader(p: nat, n: Ptr, dtype: nat, kids: seq<Ptr>, arena: bool)
      requires Valid() && Prot(s) <= s.g.linked && n !in mem && p < |partitions| && dtype < 0x100
      modifies this
      ensures Rep() && |partitions| == old(|partitions|) && flags == NewFlags(old(flags), n, arena)
      ensures n in mem && mem[n].next == None && mem == old(mem)[n := mem[n]]
      ensures s == WithHeader(old(s), p, n, kids, dtype)
    {
      hide H.NewWord, H.Insert, MarksOk, ChainsOk, PartsOk, RowsOk;
      var w := H.NewWord(dtype as bv32);
      if arena { w := H.Insert(w, H.ARENA_ALLOC); }
      var h := GcHead(w, p, W.NULL, None, kids);
      ghost var s' := WithHeader(s, p, n, kids, dtype);
      FreshIsUnused(s, n);
      RowsInsert(mem, s, flags, p, n, kids, dtype, arena);
      assert PartsOk(mem[n := h], partitions, s') by { PartsOffChain(mem, mem[n := h], partitions, s, s'); }
      mem := mem[n := h];
      s, flags := s', NewFlags(flags, n, arena);
    }

    /** `attach_node` (src/heap.rs:185-201), that is `prepend` (src/node_link.rs:28-33). */
    method AttachNode(p: nat, n: Ptr)
      requires Valid() && p < |partitions| && n in mem && n !in s.g.linked && n in s.g.part && s.g.part[n] == p
      requires mem[n].next == None
      modifies this
      ensures Valid() && flags == old(flags) && |partitions| == old(|partitions|)
      ensures s == old(s).(g := Prepended(old(s).g, p, n))
      ensures OnlyNexts(old(mem), mem, {n})
    {
      hide RowsOk, PartsOk, MarksOk, ChainsOk, OnlyNexts;
      MarksWf(s.g, s.m);
      PrependedOk(s.g, s.m, p, n);
      ghost var s' := s.(g := Prepended(s.g, p, n));
      var head := partitions[p].nodes;
      var mem' := mem[n := mem[n].(next := head)];
      OnlyNextsOne(mem, n, head);
      OnlyNextsRows(mem, mem', {n}, s, flags);
      RowsSame(mem', s, s', flags);
      PartsPrepend(mem, partitions, s, s', p, n);
      mem := mem';
      partitions := partitions[p := partitions[p].(nodes := Some(n))];
      s := s';
    }

    /** `alloc_raw` (src/mem.rs:192-209). */
    method AllocRaw(p: nat, dtype: nat, kids: seq<Ptr>, addr: Option<Ptr>, arena: bool) returns (r: Result<Ptr>)
      requires Valid() && Ledger() && Prot(s) <= s.g.linked && dtype < |types| && (addr.Some? ==> addr.value !in mem)
      modifies this
      ensures Valid() && Ledger() && |partitions| == old(|partitions|)
      ensures r == if p >= old(|partitions|) then Err(PartitionNotFound)
                   else if old(memoryLimit) > 0 && old(totalMemoryUsed) + types[dtype].layoutSize > old(memoryLimit) then Err(PartitionFull)
                   else if addr == None then Err(AllocationFailed)
                   else Ok(addr.value)
      ensures r.Err? ==> s == old(s) && mem == old(mem) && flags == old(flags)
      ensures r.Ok? ==> && p < |old(s).acc.used| && s == Allocated(old(s), p, r.value, kids, dtype, types[dtype].layoutSize)
                        && s.roots == old(s).roots && Linked(s.g, r.value) && s.g.part[r.value] == p
                        && flags == NewFlags(old(flags), r.value, arena)
    {
      hide RowsOk, PartsOk, MarksOk, ChainsOk, LedgerOk, OnlyNexts;
      MarksWf(s.g, s.m);
      r := AllocNodeMem(p, dtype, kids, addr, arena);
      if r.Ok? {
        ghost var s1 := s;
        AttachNode(p, r.value);
        LedgerFrame(types, dropPasses, s1, s);
      }
    }

    /** `alloc_root_raw` (src/mem.rs:220-245): past the arena, flagged ROOT, and shaded if its partition is marking. */
    method AllocRootRaw(p: nat, dtype: nat, kids: seq<Ptr>, addr: Option<Ptr>) returns (r: Result<Ptr>)
      requires Valid() && Ledger() && Prot(s) <= s.g.linked && dtype < |types| && (addr.Some? ==> addr.value !in mem)
      modifies this
      ensures Valid() && Ledger() && |partitions| == old(|partitions|)
      ensures r == if p >= old(|partitions|) then Err(PartitionNotFound)
                   else if old(memoryLimit) > 0 && old(totalMemoryUsed) + types[dtype].layoutSize > old(memoryLimit) then Err(PartitionFull)
                   else if addr == None then Err(AllocationFailed)
                   else Ok(addr.value)
      ensures r.Err? ==> s == old(s) && mem == old(mem) && flags == old(flags)
      ensures r.Ok? ==> && p < |old(s).acc.used| && |old(s).m.gray| == |old(s).m.marking| && p < |old(s).m.gray|
                        && s == Rooted(Allocated(old(s), p, r.value, kids, dtype, types[dtype].layoutSize), r.value)
                        && s.roots == old(s).roots + {r.value} && Linked(s.g, r.value) && s.g.part[r.value] == p
                        && flags == NewFlags(old(flags), r.value, false)
    {
      hide RowsOk, PartsOk, MarksOk, ChainsOk, LedgerOk, OnlyNexts, Wf, Enlist;
      MarksWf(s.g, s.m);
      r := AllocNodeMem(p, dtype, kids, addr, false);
      if r.Ok? {
        ghost var s1 := s;
        AttachRoot(p, r.value);
        LedgerFrame(types, dropPasses, s1, s);
      }
    }

    /** The rest of `alloc_root_raw` (src/mem.rs:229-239). */
    method AttachRoot(p: nat, n: Ptr)
      requires Valid() && p < |partitions| && n in mem && n !in s.g.linked && n in s.g.part && s.g.part[n] == p
      requires mem[n].next == None
      modifies this
      ensures Valid() && flags == old(flags) && |partitions| == old(|partitions|)
      ensures p < |old(s).g.chain| && p < |old(s).m.gray| == |old(s).m.marking| && n in old(s).m.color
      ensures s == Rooted(old(s).(g := Prepended(old(s).g, p, n)), n)
    {
      hide RowsOk, PartsOk, MarksOk, ChainsOk, OnlyNexts, Wf, Enlist;
      MarksWf(s.g, s.m);
      assert n in s.m.color by { RowAt(mem, s, flags, n); }
      InsertRoot(n);
      AttachNode(p, n);
      EnlistOk(s.g, s.m, n);
      AddGrayIfMarking(p, n);
    }

    // ---- scopes ----

    /** Replacing the scope stacks; LOCAL flags stay as they are. */
    method SetStacks(stacks: seq<S.Stack>)
      requires Rep()
      modifies this
      ensures Rep() && mem == old(mem) && flags == old(flags) && partitions == old(partitions)
      ensures s == old(s).(scopes := old(s).scopes.(stacks := stacks))
    {
      hide RowOk, PartOk;
      ghost var s' := s.(scopes := s.scopes.(stacks := stacks));
      RowsSame(mem, s, s', flags);
      PartsFrame(mem, mem, partitions, s, s');
      scopeStacks := stacks;
      s := s';
    }

    /** `insert_flag(LOCAL)`, `home` being the scope it is for. */
    method InsertLocal(n: Ptr, ghost home: S.Place)
      requires Rep() && n in mem
      modifies this
      ensures Rep() && SameNexts(old(mem), mem) && flags == old(flags) && |partitions| == old(|partitions|)
      ensures s == old(s).(scopes := old(s).scopes.(home := old(s).scopes.home[n := home]))
    {
      RowAt(mem, s, flags, n);
      var w := mem[n].attrs;
      H.DecodeFlag(w, H.LOCAL);
      hide H.Insert, H.Remove, H.Decode, H.HasColor, TypeIndex, PartsOk, RowsOk;
      PutHeader(n, mem[n].(attrs := H.Insert(w, H.LOCAL)), s.(scopes := s.scopes.(home := s.scopes.home[n := home])), flags);
    }

    /** `remove_flag(LOCAL)`. */
    method RemoveLocal(n: Ptr)
      requires Rep() && n in mem
      modifies this
      ensures Rep() && SameNexts(old(mem), mem) && flags == old(flags) && |partitions| == old(|partitions|)
      ensures s == old(s).(scopes := old(s).scopes.(home := old(s).scopes.home - {n}))
    {
      RowAt(mem, s, flags, n);
      var w := mem[n].attrs;
      H.DecodeFlag(w, H.LOCAL);
      hide H.Insert, H.Remove, H.Decode, H.HasColor, TypeIndex, PartsOk, RowsOk;
      PutHeader(n, mem[n].(attrs := H.Remove(w, H.LOCAL)), s.(scopes := s.scopes.(home := s.scopes.home - {n})), flags);
    }

    /**
     `add_node` (src/scope.rs:142-173). It shades in the scope's partition, if that exists, and checks nothing:
     the gray stacks stay well formed exactly when that is the node's partition or the shading pushes nothing.
     */
    method AddNode(at: S.Place, n: Ptr)
      requires Valid() && S.IsScope(s.scopes.stacks, at) && Linked(s.g, n) && n !in Prot(s)
      modifies this
      ensures Rep() && SameNexts(old(mem), mem) && flags == old(flags) && |partitions| == old(|partitions|)
      ensures n in old(s).m.color && |old(s).m.gray| == |old(s).m.marking| && s == Protected(old(s), at, n)
      ensures Valid() <==> ShadesRight(old(s).g, old(s).m, S.ScopeAt(old(s).scopes.stacks, at).pid, n)
    {
      hide RowsOk, PartsOk, ChainsOk;
      var scope := S.ScopeAt(scopeStacks, at);
      ShadesRightIff(s.g, s.m, scope.pid, n);
      hide MarksOk, EnlistIfMarking;
      InsertLocal(n, at);
      if scope.pid < |partitions| {
        AddGrayIfMarking(scope.pid, n);
      }
      SetStacks(S.SetCache(scopeStacks, at, scope.cache + [n]));
    }

    /** `add_non_local` (src/scope.rs:176-183). */
    method AddNonLocal(at: S.Place, n: Ptr) returns (added: bool)
      requires Valid() && S.IsScope(s.scopes.stacks, at) && Linked(s.g, n)
      modifies this
      ensures Rep() && SameNexts(old(mem), mem) && flags == old(flags) && |partitions| == old(|partitions|)
      ensures added <==> n !in Prot(old(s))
      ensures n in old(s).m.color && |old(s).m.gray| == |old(s).m.marking|
      ensures s == if added then Protected(old(s), at, n) else old(s)
      ensures Valid() <==> added ==> ShadesRight(old(s).g, old(s).m, S.ScopeAt(old(s).scopes.stacks, at).pid, n)
    {
      hide RowsOk, PartsOk, ChainsOk;
      var protected := IsRootOrLocal(n);
      if protected { return false; }
      AddNode(at, n);
      return true;
    }

    /** `iter().position` on a scope's cache (src/scope.rs:209, 243). */
    static method Position(cache: seq<Ptr>, n: Ptr) returns (pos: Option<nat>)
      ensures pos == if n in cache then Some(S.IndexOf(cache, n)) else None
    {
      for i := 0 to |cache|
        invariant n !in cache[..i]
      {
        if cache[i] == n {
          S.FirstIndex(cache, n, i);
          return Some(i);
        }
      }
      assert cache[..|cache|] == cache;
      return None;
    }

    /** `remove_node` (src/scope.rs:202-219). */
    method RemoveNode(at: S.Place, n: Ptr) returns (removed: bool)
      requires Valid() && S.ScopesOk(s.g, s.scopes) && S.IsScope(s.scopes.stacks, at)
      modifies this
      ensures Valid() && SameNexts(old(mem), mem) && flags == old(flags) && |partitions| == old(|partitions|)
      ensures removed <==> n in S.ScopeAt(old(s).scopes.stacks, at).cache
      ensures s == old(s).(scopes := S.Remove(old(s).scopes, at, n))
    {
      hide RowsOk, PartsOk, ChainsOk, MarksOk;
      var cache := S.ScopeAt(scopeStacks, at).cache;
      var pos := Position(cache, n);
      if pos == None { return false; }
      assert n in mem by { CachedInMemory(s, at, n); }
      hide S.ScopesOk;
      SetStacks(S.SetCache(scopeStacks, at, S.SwapRemove(cache, pos.value)));
      RemoveLocal(n);
      return true;
    }

    /** `promote_node_to` (src/scope.rs:239-270): out of one cache, into another or back into the same. */
    method PromoteNodeTo(at: S.Place, target: S.Place, n: Ptr) returns (moved: bool)
      requires Valid() && S.ScopesOk(s.g, s.scopes) && S.IsScope(s.scopes.stacks, at) && S.IsScope(s.scopes.stacks, target)
      modifies this
      ensures Valid() && mem == old(mem) && flags == old(flags) && |partitions| == old(|partitions|)
      ensures moved <==> n in S.ScopeAt(old(s).scopes.stacks, at).cache
      ensures s == old(s).(scopes := S.Promote(old(s).scopes, at, target, n))
    {
      hide RowsOk, PartsOk, ChainsOk, MarksOk;
      var cache := S.ScopeAt(scopeStacks, at).cache;
      var pos := Position(cache, n);
      if pos == None { return false; }
      CachedInMemory(s, at, n);
      hide S.ScopesOk;
      S.PromoteForm(s.scopes, at, target, n);
      SetStacks(S.SetCache(scopeStacks, at, S.SwapRemove(cache, pos.value)));
      var targetCache := S.ScopeAt(scopeStacks, target).cache;
      SetStacks(S.SetCache(scopeStacks, target, targetCache + [n]));
      Rehome(n, target);
      return true;
    }

    /** The flag already says LOCAL; only whose scope it is for changes. */
    ghost method Rehome(n: Ptr, target: S.Place)
      requires Rep() && n in s.scopes.home
      modifies this`s
      ensures Rep() && s == old(s).(scopes := old(s).scopes.(home := old(s).scopes.home[n := target]))
    {
      hide RowOk, PartOk;
      var s' := s.(scopes := s.scopes.(home := s.scopes.home[n := target]));
      RowsSame(mem, s, s', flags);
      PartsFrame(mem, mem, partitions, s, s');
      s := s';
    }

    /** Removing the LOCAL flag of every node of a cache that has been taken (src/scope.rs:275-279). */
    method ClearFlags(cache: seq<Ptr>)
      requires Valid() && forall n :: n in cache ==> n in mem
      modifies this
      ensures Valid() && SameNexts(old(mem), mem) && flags == old(flags) && |partitions| == old(|partitions|)
      ensures s == old(s).(scopes := old(s).scopes.(home := old(s).scopes.home - Elems(cache)))
    {
      hide RowsOk, PartsOk, ChainsOk, MarksOk;
      ghost var s0 := s;
      assert s0.scopes.home - Elems(cache[..0]) == s0.scopes.home;
      for i := 0 to |cache|
        invariant Rep() && SameNexts(old(mem), mem) && flags == old(flags) && |partitions| == old(|partitions|)
        invariant s == s0.(scopes := s0.scopes.(home := s0.scopes.home - Elems(cache[..i])))
      {
        assert cache[i] in cache;
        RemoveLocal(cache[i]);
        assert s0.scopes.home - Elems(cache[..i]) - {cache[i]} == s0.scopes.home - Elems(cache[..i + 1]);
      }
      assert cache[..|cache|] == cache;
    }

    /** `clear` (src/scope.rs:273-282). */
    method Clear(at: S.Place)
      requires Valid() && S.ScopesOk(s.g, s.scopes) && S.IsScope(s.scopes.stacks, at)
      modifies this
      ensures Valid() && SameNexts(old(mem), mem) && flags == old(flags) && |partitions| == old(|partitions|)
      ensures s == old(s).(scopes := S.Clear(old(s).scopes, at))
    {
      hide RowsOk, PartsOk, ChainsOk, MarksOk;
      var cache := S.ScopeAt(scopeStacks, at).cache;
      forall n | n in cache ensures n in mem { CachedInMemory(s, at, n); }
      hide S.ScopesOk;
      SetStacks(S.SetCache(scopeStacks, at, []));
      ClearFlags(cache);
    }

    /** `new_scope` (src/scope.rs:453-489), returning the new scope's depth. */
    method NewScope(i: nat) returns (depth: nat)
      requires Valid() && i < |s.scopes.stacks| && s.scopes.stacks[i].pid.Some?
      modifies this
      ensures Valid() && mem == old(mem) && flags == old(flags) && |partitions| == old(|partitions|)
      ensures s == old(s).(scopes := S.Push(old(s).scopes, i)) && depth == |s.scopes.stacks[i].scopes|
    {
      hide RowsOk, PartsOk, ChainsOk, MarksOk;
      var stack := scopeStacks[i];
      depth := |stack.scopes| + 1;
      SetStacks(scopeStacks[i := stack.(scopes := stack.scopes + [S.Scope(stack.pid.value, [])])]);
    }

    /** Dropping a scope handle (src/scope.rs:297-320, 442-444): `pop_scope`, whose result clears itself (src/scope.rs:55-59). */
    method PopScope(i: nat)
      requires Valid() && S.ScopesOk(s.g, s.scopes) && i < |s.scopes.stacks|
      modifies this
      ensures Valid() && SameNexts(old(mem), mem) && flags == old(flags) && |partitions| == old(|partitions|)
      ensures s == old(s).(scopes := S.PopScope(old(s).scopes, i))
    {
      hide RowsOk, PartsOk, ChainsOk, MarksOk;
      var stack := scopeStacks[i];
      if stack.scopes == [] { return; }
      var top := |stack.scopes| - 1;
      var cache := stack.scopes[top].cache;
      forall n | n in cache ensures n in mem { CachedInMemory(s, S.Place(i, top), n); }
      hide S.ScopesOk;
      SetStacks(scopeStacks[i := stack.(scopes := stack.scopes[..top])]);
      ClearFlags(cache);
    }

    /** `acquire_scope_stack` (src/scope.rs:366-382): the first idle stack, or a new one. */
    method AcquireScopeStack(p: nat) returns (id: nat)
      requires Valid()
      modifies this
      ensures Valid() && mem == old(mem) && flags == old(flags) && |partitions| == old(|partitions|)
      ensures s == old(s).(scopes := S.Acquire(old(s).scopes, p)) && id == S.Idle(old(s).scopes.stacks)
    {
      hide RowsOk, PartsOk, ChainsOk, MarksOk;
      for i := 0 to |scopeStacks|
        invariant Valid() && s == old(s) && mem == old(mem) && scopeStacks == old(scopeStacks) && flags == old(flags)
        invariant |partitions| == old(|partitions|)
        invariant forall k :: 0 <= k < i ==> scopeStacks[k].pid.Some?
      {
        if scopeStacks[i].pid == None {
          S.IdleIs(scopeStacks, i);
          SetStacks(scopeStacks[i := scopeStacks[i].(pid := Some(p))]);
          return i;
        }
      }
      S.IdleIs(scopeStacks, |scopeStacks|);
      id := |scopeStacks|;
      SetStacks(scopeStacks + [S.Stack([], Some(p))]);
    }

    /** `release_scope_stack` (src/scope.rs:384-393). */
    method ReleaseScopeStack(i: nat)
      requires Valid() && i < |s.scopes.stacks| && s.scopes.stacks[i].scopes == []
      modifies this
      ensures Valid() && mem == old(mem) && flags == old(flags) && |partitions| == old(|partitions|)
      ensures s == old(s).(scopes := S.Release(old(s).scopes, i))
    {
      hide RowsOk, PartsOk, ChainsOk, MarksOk;
      SetStacks(scopeStacks[i := scopeStacks[i].(pid := None)]);
    }

    /** `alloc_local` (src/scope.rs:131-140): allocate in the scope's partition and cache the node in the scope. */
    method AllocLocal(at: S.Place, dtype: nat, kids: seq<Ptr>, addr: Option<Ptr>, arena: bool) returns (r: Result<Ptr>)
      requires Valid() && Ledger() && Prot(s) <= s.g.linked && S.IsScope(s.scopes.stacks, at)
      requires dtype < |types| && (addr.Some? ==> addr.value !in mem)
      modifies this
      ensures Valid() && Ledger() && |partitions| == old(|partitions|)
      ensures var p := S.ScopeAt(old(s).scopes.stacks, at).pid;
              r == if p >= old(|partitions|) then Err(PartitionNotFound)
                   else if old(memoryLimit) > 0 && old(totalMemoryUsed) + types[dtype].layoutSize > old(memoryLimit) then Err(PartitionFull)
                   else if addr == None then Err(AllocationFailed)
                   else Ok(addr.value)
      ensures r.Err? ==> s == old(s) && mem == old(mem) && flags == old(flags)
      ensures r.Ok? ==> var p := S.ScopeAt(old(s).scopes.stacks, at).pid;
                        && p < |old(s).acc.used| && |old(s).m.gray| == |old(s).m.marking|
                        && s == Protected(Allocated(old(s), p, r.value, kids, dtype, types[dtype].layoutSize), at, r.value)
                        && flags == NewFlags(old(flags), r.value, arena)
    {
      hide RowsOk, PartsOk, MarksOk, ChainsOk, LedgerOk;
      MarksWf(s.g, s.m);
      hide Wf;
      FreshUnprotected(s, addr);
      r := AllocRaw(S.ScopeAt(scopeStacks, at).pid, dtype, kids, addr, arena);
      if r.Ok? {
        ghost var s1 := s;
        AddNode(at, r.value);
        LedgerFrame(types, dropPasses, s1, s);
      }
    }

    // ---- weak references ----

    /** The first slot holding no node, or one past the end (src/weak.rs:123-131). */
    static method FindFreeSlot(slots: seq<W.Slot>) returns (i: nat)
      ensures i == W.FreeSlot(slots)
    {
      i := 0;
      while i < |slots| && slots[i].node.Some?
        invariant i <= |slots| && forall k :: 0 <= k < i ==> slots[k].node.Some?
      {
        i := i + 1;
      }
      W.FreeSlotIs(slots, i);
    }

    /** Recording a node's weak identifier; `weak'` is the table that then is represented. */
    method PutWeak(n: Ptr, id: W.WeakId, slots: seq<W.Slot>, ghost weak': W.WeakTable)
      requires Rep() && n in mem && n in s.weak.ids && weak'.ids == s.weak.ids[n := id] && weak'.slots == slots
      modifies this
      ensures Rep() && SameNexts(old(mem), mem) && flags == old(flags) && |partitions| == old(|partitions|)
      ensures s == old(s).(weak := weak')
    {
      hide PartsOk, RowsOk;
      RowAt(mem, s, flags, n);
      ghost var s' := s.(weak := weak');
      var h := mem[n].(weakId := id);
      RowsUpdate(mem, n, h, s, s', flags, flags);
      PartsFrame(mem, mem[n := h], partitions, s, s');
      mem := mem[n := h];
      weakSlots := slots;
      s := s';
    }

    /** `downgrade` (src/weak.rs:100-147); no result stands for its panic when the table is full. */
    method Downgrade(n: Ptr) returns (r: Option<W.WeakId>)
      requires Valid() && n in mem && n in s.weak.ids && |s.weak.issued| == |s.weak.slots|
      modifies this
      ensures Valid() && SameNexts(old(mem), mem) && flags == old(flags) && |partitions| == old(|partitions|)
      ensures s == old(s).(weak := W.Downgrade(old(s).weak, n))
      ensures n in s.weak.ids && r == if W.Full(old(s).weak, n) then None else Some(s.weak.ids[n])
    {
      hide RowsOk, PartsOk, MarksOk, ChainsOk;
      assert mem[n].weakId == s.weak.ids[n] by { RowAt(mem, s, flags, n); }
      if mem[n].weakId.version != 0 { return Some(mem[n].weakId); }
      if |weakSlots| >= W.MAX_SLOTS { return None; }
      var i := FindFreeSlot(weakSlots);
      var slots := if i < |weakSlots| then weakSlots else weakSlots + [W.Slot(0, None)];
      var version := if slots[i].version == 255 then 1 else slots[i].version + 1;
      var id := W.WeakId(i, version);
      PutWeak(n, id, slots[i := W.Slot(version, Some(n))], W.Downgrade(s.weak, n));
      return Some(id);
    }

    /** `upgrade` (src/weak.rs:150-174). */
    method Upgrade(id: W.WeakId) returns (r: Option<Ptr>)
      requires Rep()
      ensures r == W.Upgrade(s.weak, id)
    {
      if id.version == 0 || id.index >= |weakSlots| { return None; }
      var slot := weakSlots[id.index];
      return if slot.version == id.version then slot.node else None;
    }

    // ---- limits and partitions ----

    /** Assigning the limit and the threshold. */
    method PutLimits(limit: nat, threshold: nat)
      requires Rep()
      modifies this
      ensures Rep() && mem == old(mem) && flags == old(flags) && |partitions| == old(|partitions|)
      ensures s == old(s).(acc := old(s).acc.(limit := limit, threshold := threshold))
    {
      hide RowOk, PartOk;
      ghost var s' := s.(acc := s.acc.(limit := limit, threshold := threshold));
      RowsSame(mem, s, s', flags);
      PartsFrame(mem, mem, partitions, s, s');
      memoryLimit, gcThreshold := limit, threshold;
      s := s';
    }

    /** `set_memory_limit` (src/heap.rs:140-155). */
    method SetMemoryLimit(limit: nat) returns (applied: nat)
      requires Valid()
      modifies this
      ensures Valid() && mem == old(mem) && flags == old(flags) && |partitions| == old(|partitions|)
      ensures s == old(s).(acc := A.SetLimit(old(s).acc, limit)) && applied == s.acc.limit
    {
      hide RowsOk, PartsOk, MarksOk, ChainsOk;
      if limit == 0 {
        PutLimits(0, gcThreshold);
      } else {
        var used := totalMemoryUsed;
        applied := if used > limit then used else limit;
        var threshold := gcThreshold;
        if gcThreshold > 0 && gcThreshold >= applied {
          var adjusted := applied - applied / 4;
          threshold := if adjusted > A.MIN_GC_THRESHOLD then adjusted else A.MIN_GC_THRESHOLD;
        }
        PutLimits(applied, threshold);
      }
      applied := memoryLimit;
    }

    /** `set_gc_threshold` (src/heap.rs:162-171). */
    method SetGcThreshold(threshold: nat) returns (applied: nat)
      requires Valid()
      modifies this
      ensures Valid() && mem == old(mem) && flags == old(flags) && |partitions| == old(|partitions|)
      ensures s == old(s).(acc := A.SetThreshold(old(s).acc, threshold)) && applied == s.acc.threshold
    {
      hide RowsOk, PartsOk, MarksOk, ChainsOk;
      applied := threshold;
      if threshold > 0 && memoryLimit > 0 {
        var scaled := if memoryLimit * 8 > A.USIZE_MAX then A.USIZE_MAX else memoryLimit * 8;
        if scaled / 10 < threshold { applied := scaled / 10; }
      }
      PutLimits(memoryLimit, applied);
    }

    /** `create_partition` (src/partition.rs:147-156), below the 16-bit id limit; the arena is outside this class. */
    method CreatePartition() returns (id: nat)
      requires Valid() && |partitions| < 0x1_0000
      modifies this
      ensures Valid() && mem == old(mem) && flags == old(flags)
      ensures |partitions| == old(|partitions|) + 1 && id == old(|partitions|)
      ensures s == WithPartition(old(s))
    {
      hide RowsOk, PartsOk;
      WithPartitionOk(s);
      id := |partitions|;
      PartsNew(mem, partitions, s);
      RowsSame(mem, s, WithPartition(s), flags);
      partitions := partitions + [GcPartition(None, [], false, 0)];
      s := WithPartition(s);
    }

    // ---- two-phase partition removal ----

    /** Clearing every scope of every stack of a partition (src/partition.rs:186-192). */
    method ClearStacks(p: nat)
      requires Valid() && S.ScopesOk(s.g, s.scopes)
      modifies this
      ensures Valid() && SameNexts(old(mem), mem) && flags == old(flags) && |partitions| == old(|partitions|)
      ensures s == old(s).(scopes := S.ClearPartition(old(s).scopes, p))
    {
      hide RowsOk, PartsOk, MarksOk, ChainsOk, S.ScopesOk;
      ghost var s0, t := s, s.scopes;
      S.ClearUpToStart(t, p);
      for i := 0 to |scopeStacks|
        invariant Valid() && SameNexts(old(mem), mem) && flags == old(flags) && |partitions| == old(|partitions|)
        invariant S.ScopesOk(s.g, s.scopes) && s == s0.(scopes := S.ClearUpTo(t, p, i, 0))
      {
        ghost var j' := 0;
        if scopeStacks[i].pid == Some(p) {
          for j := 0 to |scopeStacks[i].scopes|
            invariant Valid() && SameNexts(old(mem), mem) && flags == old(flags) && |partitions| == old(|partitions|)
            invariant S.ScopesOk(s.g, s.scopes) && s == s0.(scopes := S.ClearUpTo(t, p, i, j))
          {
            S.ClearUpToScope(s.g, t, p, i, j);
            S.ClearOk(s.g, s.scopes, S.Place(i, j));
            Clear(S.Place(i, j));
          }
          j' := |t.stacks[i].scopes|;
        }
        S.ClearUpToStack(s.g, t, p, i, j');
      }
      S.ClearUpToEnd(s.g, t, p);
    }

    /** Emptying the weak slots of every node of a list (src/partition.rs:204-209). */
    method ClearSlots(head: Option<Ptr>, ghost c: seq<Ptr>)
      requires RowsOk(mem, s, flags) && W.WeakOk(mem.Keys, s.weak) && weakSlots == s.weak.slots && IsList(mem, head, c)
      modifies this`weakSlots
      ensures weakSlots == W.Forget(s.weak, Elems(c)).slots
    {
      hide RowsOk, W.WeakOk, W.Forget, Elems;
      var cur := head;
      ghost var i := 0;
      ElemsNone(c);
      W.ForgetStart(s.weak);
      while cur.Some?
        invariant i <= |c| && At(c, i, cur)
        invariant |weakSlots| == |s.weak.slots| && weakSlots == W.Forget(s.weak, Elems(c[..i])).slots
        decreases |c| - i
      {
        ListNext(mem, mem, head, c, i);
        var n := cur.value;
        assert n in s.weak.ids && mem[n].weakId == s.weak.ids[n] by { RowAt(mem, s, flags, n); }
        W.ForgetNext(mem.Keys, s.weak, Elems(c[..i]), n);
        ElemsNext(c, i);
        var id := mem[n].weakId;
        if id.version != 0 {
          weakSlots := weakSlots[id.index := weakSlots[id.index].(node := None)];
        }
        cur := mem[n].next;
        i := i + 1;
      }
      assert c[..i] == c;
    }

    /** `finalize_partition_prepare` (src/partition.rs:179-212): no scope and no weak handle reaches the partition any more. */
    method FinalizePartitionPrepare(p: nat) returns (link: Option<Option<Ptr>>)
      requires Valid() && S.ScopesOk(s.g, s.scopes) && W.WeakOk(s.g.part.Keys, s.weak)
      modifies this
      ensures Valid() && SameNexts(old(mem), mem) && flags == old(flags) && |partitions| == old(|partitions|)
      ensures link.Some? <==> p < |partitions|
      ensures link.Some? ==> IsList(mem, link.value, old(s).g.chain[p])
      ensures s == if p < |old(s).g.chain| then Finalized(old(s), p) else old(s)
    {
      hide RowsOk, PartsOk, MarksOk, ChainsOk, S.ScopesOk, W.WeakOk;
      if p >= |partitions| { return None; }
      ClearStacks(p);
      var head := HeadNode(p);
      ClearSlots(head, s.g.chain[p]);
      ghost var s' := Finalized(old(s), p);
      RowsSame(mem, s, s', flags);
      PartsFrame(mem, mem, partitions, s, s');
      s := s';
      link := Some(head);
    }

    /**
     `finalize_partition` (src/partition.rs:223-239): after that, every payload of the partition is dropped, by
     pass and in chain order within a pass.
     */
    method FinalizePartition(p: nat) returns (link: Option<Option<Ptr>>, drops: seq<Ptr>)
      requires Valid() && Ledger() && S.ScopesOk(s.g, s.scopes)
      modifies this
      ensures Valid() && SameNexts(old(mem), mem) && flags == old(flags) && |partitions| == old(|partitions|)
      ensures link.Some? <==> p < |partitions|
      ensures link.Some? ==> IsList(mem, link.value, old(s).g.chain[p])
      ensures s == if p < |old(s).g.chain| then Finalized(old(s), p) else old(s)
      ensures drops == if p < |old(s).g.chain|
                       then Keep(D.DropOrder(dropPasses, PassMap(types, old(s).g), old(s).g.chain[p]), NeedsDrop(types, old(s).g))
                       else []
    {
      hide RowsOk, PartsOk, MarksOk, ChainsOk, S.ScopesOk, W.WeakOk, Keep, D.DropOrder, NeedsDrop, IsList, RegistryOk;
      drops := [];
      link := FinalizePartitionPrepare(p);
      if link.Some? {
        drops := DropByPass(link.value, s.g.chain[p]);
      }
    }

    /** Dropping the payloads of a list, pass by pass (src/partition.rs:226-236). */
    method DropByPass(link: Option<Ptr>, ghost c: seq<Ptr>) returns (drops: seq<Ptr>)
      requires Rep() && RegistryOk(types, dropPasses, s.g) && IsList(mem, link, c)
      ensures drops == Keep(D.DropOrder(dropPasses, PassMap(types, s.g), c), NeedsDrop(types, s.g))
    {
      hide RowsOk, PartsOk, Keep, D.DropOrder, NeedsDrop, IsList, RegistryOk;
      ghost var passOf := PassMap(types, s.g);
      ghost var order: seq<Ptr> := [];
      drops := [];
      D.OrderPrefixStart(dropPasses, passOf, c);
      KeepNothing<Ptr>([], NeedsDrop(types, s.g));
      for k := 0 to |dropPasses|
        invariant order == D.DropOrder(dropPasses[..k], passOf, c) && drops == Keep(order, NeedsDrop(types, s.g))
      {
        var dropped := DropPass(link, dropPasses[k], c);
        KeepSum(order, Keep(c, D.PassSet(passOf, dropPasses[k])), NeedsDrop(types, s.g));
        D.OrderPrefixNext(dropPasses, passOf, c, k);
        order := order + Keep(c, D.PassSet(passOf, dropPasses[k]));
        drops := drops + dropped;
      }
      assert dropPasses[..|dropPasses|] == dropPasses;
    }

    /** One pass of `finalize_partition` over the link (src/partition.rs:229-235). */
    method DropPass(link: Option<Ptr>, pass: nat, ghost c: seq<Ptr>) returns (dropped: seq<Ptr>)
      requires Rep() && RegistryOk(types, dropPasses, s.g) && IsList(mem, link, c)
      ensures dropped == Keep(Keep(c, D.PassSet(PassMap(types, s.g), pass)), NeedsDrop(types, s.g))
    {
      hide RowsOk, PartsOk, Keep;
      ghost var passOf, now := PassMap(types, s.g), D.PassSet(PassMap(types, s.g), pass);
      dropped := [];
      var cur := link;
      ghost var i := 0;
      assert c[..0] == [];
      KeepNothing(c[..0], now);
      KeepNothing<Ptr>([], NeedsDrop(types, s.g));
      while cur.Some?
        invariant i <= |c| && At(c, i, cur) && dropped == Keep(Keep(c[..i], now), NeedsDrop(types, s.g))
        decreases |c| - i
      {
        ListNext(mem, mem, link, c, i);
        var n := cur.value;
        KeepNext(c, i, now);
        KeepOneMore(Keep(c[..i], now), n, NeedsDrop(types, s.g));
        var info := TypeOf(n);
        if info.dropPass == pass {
          if info.needsDrop { dropped := dropped + [n]; }
        }
        cur := mem[n].next;
        i := i + 1;
      }
      assert c[..i] == c;
    }

    /** The loop of `dealloc_partition` (src/partition.rs:253-299): every node of the link is freed, its slot empty already. */
    method ReleaseNodes(link: Option<Ptr>, ghost c: seq<Ptr>) returns (freed: nat)
      requires RowsOk(mem, s, flags) && RegistryOk(types, dropPasses, s.g) && s.g.dtype.Keys == mem.Keys
      requires IsList(mem, link, c) && Distinct(c) && SlotsEmpty(s.weak, weakSlots, c)
      modifies this`mem, this`weakSlots
      ensures mem == old(mem) - Elems(c) && weakSlots == old(weakSlots)
      ensures freed == A.SeqBytes(c, s.g.dtype, LayoutSizes(types))
    {
      hide RowsOk, RegistryOk;
      freed := 0;
      var cur := link;
      ghost var mem0, i := mem, 0;
      assert c[..0] == [];
      while cur.Some?
        invariant i <= |c| && At(c, i, cur)
        invariant mem == mem0 - Elems(c[..i]) && weakSlots == old(weakSlots)
        invariant freed == A.SeqBytes(c[..i], s.g.dtype, LayoutSizes(types))
        decreases |c| - i
      {
        ListNext(mem0, mem0, link, c, i);
        var n := cur.value;
        ReleaseTurn(types, dropPasses, mem0, s, flags, weakSlots, c, i);
        var id := mem[n].weakId;
        if id.version != 0 {
          weakSlots := weakSlots[id.index := weakSlots[id.index].(node := None)];
        }
        var info := types[TypeIndex(H.TypeBits(mem[n].attrs))];
        cur := mem[n].next;
        mem := mem - {n};
        freed := freed + info.layoutSize;
        i := i + 1;
      }
      assert c[..i] == c;
    }

    /** `dealloc_partition` (src/partition.rs:248-321), with no unlinked node of the partition left over. */
    method DeallocPartition(p: nat, link: Option<Ptr>) returns (freed: nat)
      requires Valid() && RegistryOk(types, dropPasses, s.g) && A.AccountsOk(s.g, LayoutSizes(types), s.acc)
      requires p < |partitions| && IsList(mem, link, s.g.chain[p]) && SlotsEmpty(s.weak, weakSlots, s.g.chain[p])
      requires forall n :: InLimbo(s.g, n) ==> s.g.part[n] != p
      modifies this
      ensures Valid() && |partitions| == old(|partitions|)
      ensures p < |old(s).m.gray| && p < |old(s).m.marking| && p < |old(s).acc.used|
      ensures freed == old(s).acc.used[p] && freed <= old(s).acc.total
      ensures s == Deallocated(old(s), p)
    {
      hide RowsOk, PartsOk, MarksOk, ChainsOk, A.AccountsOk, RegistryOk, IsList, SlotsEmpty, Wf;
      MarksWf(s.g, s.m);
      ghost var c := s.g.chain[p];
      WholeChain(s.g, p);
      PartitionFits(types, s, p);
      RemovedFormOk(s.g, s.m, p);
      var partitionMem := MemoryUsed(p);
      ghost var mem0 := mem;
      assert s.g.dtype.Keys == mem.Keys by { WfKeys(s.g); }
      freed := ReleaseNodes(link, c);
      ghost var s' := Deallocated(s, p);
      RowsRemoveAll(mem0, s, s', flags, Elems(c));
      PartsReset(mem0, partitions, s, s', p);
      totalMemoryUsed := totalMemoryUsed - partitionMem;
      partitions := partitions[p := GcPartition(None, [], false, 0)];
      s := s';
    }

    method MemoryUsed(p: nat) returns (used: nat)
      requires Rep() && p < |partitions|
      ensures p < |s.acc.used| && used == s.acc.used[p]
    {
      assert PartOk(mem, partitions[p], p, s);
      used := partitions[p].memoryUsed;
    }

    // ---- traversal ----

    /** `set_traverse_visited(true)`. */
    method SetVisited(n: Ptr)
      requires Rep() && n in mem
      modifies this
      ensures Rep() && SameNexts(old(mem), mem) && s == old(s) && |partitions| == old(|partitions|)
      ensures flags == old(flags).(visited := old(flags).visited + {n})
    {
      RowAt(mem, s, flags, n);
      var w := mem[n].attrs;
      H.DecodeFlag(w, H.TRAVERSE_VISITED);
      hide H.Insert, H.Remove, H.Decode, H.HasColor, TypeIndex, PartsOk, RowsOk;
      PutHeader(n, mem[n].(attrs := H.Insert(w, H.TRAVERSE_VISITED)), s, flags.(visited := flags.visited + {n}));
    }

    /** `set_traverse_visited(false)`. */
    method ClearVisited(n: Ptr)
      requires Rep() && n in mem
      modifies this
      ensures Rep() && SameNexts(old(mem), mem) && s == old(s) && |partitions| == old(|partitions|)
      ensures flags == old(flags).(visited := old(flags).visited - {n})
    {
      RowAt(mem, s, flags, n);
      var w := mem[n].attrs;
      H.DecodeFlag(w, H.TRAVERSE_VISITED);
      hide H.Insert, H.Remove, H.Decode, H.HasColor, TypeIndex, PartsOk, RowsOk;
      PutHeader(n, mem[n].(attrs := H.Remove(w, H.TRAVERSE_VISITED)), s, flags.(visited := flags.visited - {n}));
    }

    method IsVisited(n: Ptr) returns (b: bool)
      requires Rep() && n in mem
      ensures b <==> n in flags.visited
    {
      RowAt(mem, s, flags, n);
      b := H.Contains(mem[n].attrs, H.TRAVERSE_VISITED);
    }

    /** `traverse_start` (src/trace.rs:92-98). */
    method TraverseStart(p: nat)
      requires Valid() && p < |partitions|
      modifies this
      ensures Valid() && SameNexts(old(mem), mem) && s == old(s) && |partitions| == old(|partitions|)
      ensures flags == old(flags).(visited := old(flags).visited - Elems(s.g.chain[p]))
    {
      hide RowsOk, PartsOk, MarksOk, ChainsOk;
      MarksWf(s.g, s.m);
      ghost var c := s.g.chain[p];
      var cur := HeadNode(p);
      var head := cur;
      ghost var i := 0;
      assert flags.visited - Elems(c[..0]) == flags.visited;
      while cur.Some?
        invariant Rep() && SameNexts(old(mem), mem) && s == old(s) && |partitions| == old(|partitions|)
        invariant i <= |c| && At(c, i, cur)
        invariant flags == old(flags).(visited := old(flags).visited - Elems(c[..i]))
        decreases |c| - i
      {
        ListNext(old(mem), mem, head, c, i);
        var n := cur.value;
        cur := mem[n].next;
        ClearVisited(n);
        assert c[..i + 1] == c[..i] + [n];
        i := i + 1;
      }
      assert c[..i] == c;
    }

    /** The inner loop of `traverse` (src/trace.rs:131-135). */
    method EnqueueChildren(u: Ptr, children: seq<Ptr>, queue: seq<T.Visit>) returns (queue': seq<T.Visit>)
      requires Rep() && forall k :: k in children ==> k in mem
      ensures queue' == queue + T.Entries(u, Keep(Reverse(children), T.Unvisited(children, flags.visited)))
    {
      hide RowsOk, PartsOk, Keep, Popped, Reverse;
      ghost var unseen := T.Unvisited(children, flags.visited);
      var traced := children;
      queue' := queue;
      PopEnds(children);
      KeepNothing<Ptr>([], unseen);
      while traced != []
        invariant traced <= children && queue' == queue + T.Entries(u, Keep(Popped(children, |traced|), unseen))
        decreases |traced|
      {
        PushNext(children, traced, u, unseen);
        var child := traced[|traced| - 1];
        traced := traced[..|traced| - 1];
        var seen := IsVisited(child);
        if !seen { queue' := queue' + [T.Visit(child, Some(u))]; }
      }
    }

    /**
     `traverse` (src/trace.rs:103-138). `order` is what it visits and `calls` what it calls back; what order that
     is, `Traversal.TraverseIsBreadthFirst` says.
     */
    method Traverse(start: Ptr, filter: Option<nat>) returns (calls: seq<T.Visit>, ghost order: seq<T.Visit>)
      requires Valid() && NoDangling(s.g) && Linked(s.g, start)
      modifies this
      ensures Valid() && SameNexts(old(mem), mem) && s == old(s) && |partitions| == old(|partitions|)
      ensures T.Closed(LinkedKids(s.g)) && start in LinkedKids(s.g)
      ensures order == T.Traverse(LinkedKids(s.g), old(flags).visited, start)
      ensures calls == T.Called(s.g.part, filter, order)
      ensures flags == old(flags).(visited := old(flags).visited + T.NodesOf(order))
    {
      hide RowsOk, PartsOk, MarksOk, ChainsOk, T.BfsAt, NoDangling, T.Closed, LinkedKids, T.NodesOf, T.Pushes;
      MarksWf(s.g, s.m);
      LinkedKidsClosed(s.g);
      ghost var kids, v0 := LinkedKids(s.g), flags.visited;
      var queue := [T.Visit(start, None)];
      calls, order := [], [];
      T.BfsStart(kids, v0, start);
      while queue != []
        invariant Valid() && SameNexts(old(mem), mem) && s == old(s) && |partitions| == old(|partitions|)
        invariant T.BfsAt(kids, v0, start, flags.visited, queue, order) && flags.arena == old(flags).arena
        invariant calls == T.Called(s.g.part, filter, order)
        decreases |kids.Keys - flags.visited|, |queue|
      {
        var current := queue[0];
        assert Linked(s.g, current.node) by { T.BfsQueued(kids, v0, start, flags.visited, queue, order); }
        var seen := IsVisited(current.node);
        if seen {
          T.BfsSkip(kids, v0, start, flags.visited, queue, order);
          queue := queue[1..];
        } else {
          T.BfsVisit(kids, v0, start, flags.visited, queue, order);
          calls, queue := VisitNode(current, filter, calls, queue[1..], order);
          order := order + [current];
        }
      }
      T.BfsEnds(kids, v0, start, flags.visited, order);
    }

    /** Visiting one node (src/trace.rs:122-135). */
    method VisitNode(current: T.Visit, filter: Option<nat>, calls: seq<T.Visit>, rest: seq<T.Visit>, ghost order: seq<T.Visit>)
      returns (calls': seq<T.Visit>, queue: seq<T.Visit>)
      requires Valid() && NoDangling(s.g) && Linked(s.g, current.node) && calls == T.Called(s.g.part, filter, order)
      modifies this
      ensures Valid() && SameNexts(old(mem), mem) && s == old(s) && |partitions| == old(|partitions|)
      ensures calls' == T.Called(s.g.part, filter, order + [current])
      ensures flags == old(flags).(visited := old(flags).visited + {current.node})
      ensures current.node in LinkedKids(s.g) && queue == rest + T.Pushes(LinkedKids(s.g), flags.visited, current.node)
    {
      hide RowsOk, PartsOk, MarksOk, ChainsOk, T.Called, T.Closed, Keep, Reverse, NoDangling;
      MarksWf(s.g, s.m);
      LinkedKidsClosed(s.g);
      var n := current.node;
      SetVisited(n);
      calls' := CallBack(calls, current, filter, order);
      var traced := TraceNode(n);
      assert forall k :: k in traced ==> k in mem by { TracedLinked(s.g, n); }
      queue := EnqueueChildren(n, traced, rest);
      assert T.Unvisited(traced, flags.visited) == T.Unvisited(s.g.kids[n], flags.visited);
    }

    /** Calling back unless the filter names another partition (src/trace.rs:124-126). */
    method CallBack(calls: seq<T.Visit>, v: T.Visit, filter: Option<nat>, ghost order: seq<T.Visit>) returns (calls': seq<T.Visit>)
      requires Rep() && v.node in mem && calls == T.Called(s.g.part, filter, order)
      ensures calls' == T.Called(s.g.part, filter, order + [v])
    {
      assert (order + [v])[..|order|] == order;
      var p := PartitionIn(v.node);
      calls' := if filter == None || filter == Some(p) then calls + [v] else calls;
    }
  }
}
