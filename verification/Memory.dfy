/**
 The collector's memory: headers at addresses, intrusive lists threaded through them, and what it means for
 them to represent an abstract state.
 */
module Memory {
  import opened Basics
  import opened Graphs
  import opened Marking
  import opened Sweep
  import opened Machine
  import opened Seeding
  import opened Scanning
  import H = Header
  import A = Accounting
  import W = Weak
  import S = Scopes
  import D = DropOrder
  import opened Collection
  import P = Preservation
  import T = Traversal

  /** A node header and, as `kids`, what its payload's trace function would report. */
  datatype GcHead = GcHead(attrs: bv32, partition: nat, weakId: W.WeakId, next: Option<Ptr>, kids: seq<Ptr>)

  datatype GcPartition = GcPartition(nodes: Option<Ptr>, grayList: seq<Ptr>, marking: bool, memoryUsed: nat)

  /** One registered type. */
  datatype TypeInfo = TypeInfo(layoutSize: nat, dropPass: nat, needsDrop: bool)

  // ---- intrusive chains ----

  function NextOf(xs: seq<Ptr>, i: nat): Option<Ptr> {
    if i + 1 < |xs| then Some(xs[i + 1]) else None
  }

  function HeadOf(xs: seq<Ptr>): Option<Ptr> {
    if xs == [] then None else Some(xs[0])
  }

  /** Following `next` from `head` visits exactly `xs` and ends. */
  ghost predicate IsList(mem: map<Ptr, GcHead>, head: Option<Ptr>, xs: seq<Ptr>) {
    && head == HeadOf(xs)
    && forall i {:trigger NextOf(xs, i)} :: 0 <= i < |xs| ==> xs[i] in mem && mem[xs[i]].next == NextOf(xs, i)
  }

  ghost predicate SameNexts(mem: map<Ptr, GcHead>, mem': map<Ptr, GcHead>) {
    mem'.Keys == mem.Keys && forall n {:trigger mem'[n]} :: n in mem ==> mem'[n].next == mem[n].next
  }

  function TypeIndex(bits: bv32): nat {
    bits as nat
  }

  ghost function LayoutSizes(types: seq<TypeInfo>): (r: seq<nat>)
    ensures |r| == |types| && forall i :: 0 <= i < |r| ==> r[i] == types[i].layoutSize
  {
    seq(|types|, i requires 0 <= i < |types| => types[i].layoutSize)
  }

  /** Flags that no column of the abstract state stands for: TRAVERSE_VISITED and ARENA_ALLOC. */
  datatype Flags = Flags(visited: set<Ptr>, arena: set<Ptr>)

  /** A fresh header at `n` is not visited, and says where its block came from. */
  ghost function NewFlags(flags: Flags, n: Ptr, arena: bool): Flags {
    Flags(flags.visited - {n}, if arena then flags.arena + {n} else flags.arena - {n})
  }

  /** A header agrees with the abstract columns. */
  ghost predicate RowOk(h: GcHead, n: Ptr, s: State, flags: Flags) {
    && H.HasColor(h.attrs)
    && n in s.m.color && n in s.g.part && n in s.g.dtype && n in s.g.kids && n in s.weak.ids
    && var v := H.Decode(h.attrs);
       && v.color == s.m.color[n]
       && (v.listed <==> n in s.m.listed)
       && (v.root <==> n in s.roots)
       && (v.local <==> n in s.scopes.home)
       && (v.visited <==> n in flags.visited)
       && (v.arena <==> n in flags.arena)
       && TypeIndex(v.gcType) == s.g.dtype[n]
       && h.partition == s.g.part[n]
       && h.weakId == s.weak.ids[n]
       && h.kids == s.g.kids[n]
  }

  ghost predicate PartOk(mem: map<Ptr, GcHead>, par: GcPartition, p: nat, s: State)
    requires p < |s.g.chain| && p < |s.m.gray| && p < |s.m.marking| && p < |s.acc.used|
  {
    && IsList(mem, par.nodes, s.g.chain[p])
    && par.grayList == s.m.gray[p]
    && par.marking == s.m.marking[p]
    && par.memoryUsed == s.acc.used[p]
  }

  ghost predicate RowsOk(mem: map<Ptr, GcHead>, s: State, flags: Flags) {
    mem.Keys == s.g.part.Keys && forall n {:trigger mem[n]} :: n in mem ==> RowOk(mem[n], n, s, flags)
  }

  /** The columns a header represents, read at one node. */
  ghost predicate SameAt(s: State, s': State, flags: Flags, flags': Flags, n: Ptr) {
    && (n in s.m.color && n in s.g.part && n in s.g.dtype && n in s.g.kids && n in s.weak.ids ==>
          && n in s'.m.color && n in s'.g.part && n in s'.g.dtype && n in s'.g.kids && n in s'.weak.ids
          && s'.m.color[n] == s.m.color[n] && s'.g.part[n] == s.g.part[n] && s'.g.dtype[n] == s.g.dtype[n]
          && s'.g.kids[n] == s.g.kids[n] && s'.weak.ids[n] == s.weak.ids[n])
    && (n in s'.m.listed <==> n in s.m.listed) && (n in s'.roots <==> n in s.roots)
    && (n in s'.scopes.home <==> n in s.scopes.home)
    && (n in flags'.visited <==> n in flags.visited) && (n in flags'.arena <==> n in flags.arena)
  }

  lemma RowAt(mem: map<Ptr, GcHead>, s: State, flags: Flags, n: Ptr)
    requires RowsOk(mem, s, flags) && n in mem
    ensures RowOk(mem[n], n, s, flags)
  {
  }

  lemma RowsSame(mem: map<Ptr, GcHead>, s: State, s': State, flags: Flags)
    requires RowsOk(mem, s, flags) && s'.g.part.Keys == s.g.part.Keys
    requires forall x {:trigger mem[x]} :: x in mem ==> SameAt(s, s', flags, flags, x)
    ensures RowsOk(mem, s', flags)
  {
  }

  /** Rewriting one header. */
  lemma RowsUpdate(mem: map<Ptr, GcHead>, n: Ptr, h: GcHead, s: State, s': State, flags: Flags, flags': Flags)
    requires RowsOk(mem, s, flags) && n in mem && RowOk(h, n, s', flags')
    requires s'.g.part.Keys == s.g.part.Keys
    requires forall x {:trigger mem[x]} :: x in mem && x != n ==> SameAt(s, s', flags, flags', x)
    ensures RowsOk(mem[n := h], s', flags')
  {
  }

  ghost predicate PartsOk(mem: map<Ptr, GcHead>, partitions: seq<GcPartition>, s: State) {
    && |partitions| == |s.g.chain| == |s.m.gray| == |s.m.marking| == |s.acc.used|
    && forall p {:trigger partitions[p]} :: 0 <= p < |partitions| ==> PartOk(mem, partitions[p], p, s)
  }

  lemma ListFrame(mem: map<Ptr, GcHead>, mem': map<Ptr, GcHead>, head: Option<Ptr>, xs: seq<Ptr>)
    requires IsList(mem, head, xs) && SameNexts(mem, mem')
    ensures IsList(mem', head, xs)
  {
    forall i | 0 <= i < |xs| ensures xs[i] in mem' && mem'[xs[i]].next == NextOf(xs, i) {
      var next := NextOf(xs, i);
      assert mem[xs[i]].next == next;
    }
  }

  /** Header changes that keep every `next`, and state changes outside the partitions' own columns. */
  lemma PartsFrame(mem: map<Ptr, GcHead>, mem': map<Ptr, GcHead>, partitions: seq<GcPartition>, s: State, s': State)
    requires PartsOk(mem, partitions, s) && SameNexts(mem, mem')
    requires s'.g.chain == s.g.chain && s'.m.gray == s.m.gray && s'.m.marking == s.m.marking && s'.acc.used == s.acc.used
    ensures PartsOk(mem', partitions, s')
  {
    forall p | 0 <= p < |partitions| ensures PartOk(mem', partitions[p], p, s') {
      ListFrame(mem, mem', partitions[p].nodes, s.g.chain[p]);
    }
  }

  lemma MarksWf(g: Graph, m: Marks)
    requires MarksOk(g, m)
    ensures Wf(g) && |m.gray| == |g.chain| == |m.marking|
  {
  }

  lemma RecolorOk(g: Graph, m: Marks, n: Ptr, c: Color)
    requires MarksOk(g, m) && n in g.part
    ensures MarksOk(g, m.(color := m.color[n := c]))
  {
  }

  lemma StoreOk(g: Graph, m: Marks, n: Ptr, kids: seq<Ptr>)
    requires MarksOk(g, m) && ChainsOk(g) && n in g.part
    ensures var g' := g.(kids := g.kids[n := kids]); MarksOk(g', m) && ChainsOk(g')
  {
  }

  /** The cursor of a walk along `xs` that has passed `i` nodes. */
  ghost predicate At(xs: seq<Ptr>, i: nat, cur: Option<Ptr>) {
    i <= |xs| && cur == if i < |xs| then Some(xs[i]) else None
  }

  /** One step of a chain walk. */
  lemma ListNext(mem: map<Ptr, GcHead>, mem': map<Ptr, GcHead>, head: Option<Ptr>, xs: seq<Ptr>, i: nat)
    requires IsList(mem, head, xs) && SameNexts(mem, mem') && i < |xs|
    ensures xs[i] in mem' && At(xs, i + 1, mem'[xs[i]].next)
  {
    var next := NextOf(xs, i);
    assert mem[xs[i]].next == next;
  }

  ghost function Whiten(color: map<Ptr, Color>, xs: seq<Ptr>): map<Ptr, Color> {
    map n | n in color :: if n in xs then White else color[n]
  }

  lemma WhitenNext(color: map<Ptr, Color>, xs: seq<Ptr>, i: nat)
    requires i < |xs| && xs[i] in color
    ensures Whiten(color, xs[..i])[xs[i] := White] == Whiten(color, xs[..i + 1])
  {
    assert xs[..i + 1] == xs[..i] + [xs[i]];
  }

  lemma ResetIs(g: Graph, m: Marks, p: nat)
    requires MarksOk(g, m) && ChainsOk(g) && p < |g.chain|
    ensures Reset(g, m, p) == Marks(Whiten(m.color, g.chain[p]), m.listed - Elems(m.gray[p]), m.gray[p := []], m.marking[p := false])
    ensures MarksOk(g, Reset(g, m, p))
  {
    assert Reset(g, m, p).color == Whiten(m.color, g.chain[p]);
  }

  lemma SeedColorsOk(g: Graph, prot: set<Ptr>, m: Marks, i: nat)
    requires MarksOk(g, m) && ChainsOk(g) && i < |g.chain|
    ensures MarksOk(g, m.(color := SeedColors(prot, m.color, true, g.chain[i])))
  {
  }

  lemma PushedBack(g: Graph, m: Marks, p: nat)
    requires NoDangling(g) && MarksOk(g, m) && p < |m.gray| && m.gray[p] != [] && GrayTop(g, m, p)
    ensures var m1 := Pop(m, p);
            m1.(gray := m1.gray[p := m1.gray[p] + [Top(m, p)]]) == m.(listed := m.listed - {Top(m, p)})
    ensures MarksOk(g, m.(listed := m.listed - {Top(m, p)}))
  {
    var rest := m.gray[p][..|m.gray[p]| - 1];
    assert rest + [Top(m, p)] == m.gray[p];
  }

  lemma ShadingSize(g: Graph, m: Marks, p: nat, done: seq<Ptr>)
    requires MarksOk(g, m) && p < |m.gray| && forall k :: k in done ==> Linked(g, k)
    ensures |Shading(g, m, p, done).gray| == |g.chain|
  {
  }

  /** A scan, in the order the loop performs it. */
  lemma ScanIs(g: Graph, m: Marks, p: nat)
    requires NoDangling(g) && MarksOk(g, m) && p < |m.gray| && m.gray[p] != [] && GrayTop(g, m, p)
    ensures var n := Top(m, p);
            && n in g.kids && MarksOk(g, Pop(m, p)) && (forall k :: k in Dedup(g.kids[n]) ==> Linked(g, k))
            && var m2 := Shade(g, Pop(m, p), Reverse(Dedup(g.kids[n])));
               Scan(g, m, p) == m2.(color := m2.color[n := Black])
  {
    PopOk(g, m, p);
    ScanOrderLinked(g, Top(m, p));
  }

  /** What has been flags once popping from the back has left `t` children. */
  ghost function Popped(xs: seq<Ptr>, t: nat): seq<Ptr>
    requires t <= |xs|
  {
    Reverse(xs)[..|xs| - t]
  }

  lemma PopNext(xs: seq<Ptr>, traced: seq<Ptr>)
    requires traced != [] && traced <= xs
    ensures var t := |traced|;
            && traced[t - 1] in xs && traced[..t - 1] <= xs
            && Popped(xs, t - 1) == Popped(xs, t) + [traced[t - 1]]
            && (forall k :: k in Popped(xs, t - 1) ==> k in xs)
  {
  }

  lemma PopEnds(xs: seq<Ptr>)
    ensures Popped(xs, |xs|) == [] && Popped(xs, 0) == Reverse(xs)
  {
  }

  // ---- relinking ----

  /** Only `next` fields changed, and only of nodes in `touched`. */
  ghost predicate OnlyNexts(mem: map<Ptr, GcHead>, mem': map<Ptr, GcHead>, touched: set<Ptr>) {
    && mem'.Keys == mem.Keys
    && forall n {:trigger mem'[n]} :: n in mem ==>
         mem'[n] == mem[n].(next := mem'[n].next) && (n !in touched ==> mem'[n] == mem[n])
  }

  lemma OnlyNextsKeys(mem: map<Ptr, GcHead>, mem': map<Ptr, GcHead>, touched: set<Ptr>)
    requires OnlyNexts(mem, mem', touched)
    ensures mem'.Keys == mem.Keys
  {
  }

  lemma OnlyNextsRows(mem: map<Ptr, GcHead>, mem': map<Ptr, GcHead>, touched: set<Ptr>, s: State, flags: Flags)
    requires OnlyNexts(mem, mem', touched) && RowsOk(mem, s, flags)
    ensures RowsOk(mem', s, flags)
  {
  }

  /** A list none of whose nodes was relinked. */
  lemma ListUntouched(mem: map<Ptr, GcHead>, mem': map<Ptr, GcHead>, head: Option<Ptr>, xs: seq<Ptr>)
    requires IsList(mem, head, xs)
    requires forall n :: n in xs ==> n in mem' && n in mem && mem'[n].next == mem[n].next
    ensures IsList(mem', head, xs)
  {
    forall i | 0 <= i < |xs| ensures xs[i] in mem' && mem'[xs[i]].next == NextOf(xs, i) {
      assert xs[i] in xs;
    }
  }

  ghost function LastOf(xs: seq<Ptr>): Option<Ptr> {
    if xs == [] then None else Some(xs[|xs| - 1])
  }

  /** Memory after appending `n` behind `tail`. */
  function Appended(mem: map<Ptr, GcHead>, tail: Option<Ptr>, n: Ptr): map<Ptr, GcHead>
    requires n in mem && (tail.Some? ==> tail.value in mem)
  {
    var m1 := mem[n := mem[n].(next := None)];
    if tail.Some? then m1[tail.value := m1[tail.value].(next := Some(n))] else m1
  }

  lemma AppendedIsList(mem: map<Ptr, GcHead>, xs: seq<Ptr>, n: Ptr)
    requires IsList(mem, HeadOf(xs), xs) && Distinct(xs) && n !in xs && n in mem
    ensures LastOf(xs).Some? ==> LastOf(xs).value in mem
    ensures IsList(Appended(mem, LastOf(xs), n), HeadOf(xs + [n]), xs + [n])
  {
    if xs != [] { assert NextOf(xs, |xs| - 1) == None; }
    var mem' := Appended(mem, LastOf(xs), n);
    var ys := xs + [n];
    forall i | 0 <= i < |ys| ensures ys[i] in mem' && mem'[ys[i]].next == NextOf(ys, i) {
      if i < |xs| {
        var next := NextOf(xs, i);
        assert mem[xs[i]].next == next && xs[i] in xs;
      }
    }
  }

  lemma AppendedOther(mem: map<Ptr, GcHead>, tail: Option<Ptr>, n: Ptr, head: Option<Ptr>, ys: seq<Ptr>)
    requires n in mem && (tail.Some? ==> tail.value in mem)
    requires IsList(mem, head, ys) && n !in ys && (tail.Some? ==> tail.value !in ys)
    ensures IsList(Appended(mem, tail, n), head, ys)
  {
    forall x | x in ys ensures x in mem && Appended(mem, tail, n)[x].next == mem[x].next {
      var i :| 0 <= i < |ys| && ys[i] == x;
      var next := NextOf(ys, i);
    }
    ListUntouched(mem, Appended(mem, tail, n), head, ys);
  }

  /** Two well-linked lists made of relinked nodes, the rest of memory as it was. */
  ghost predicate TwoLists(mem0: map<Ptr, GcHead>, mem: map<Ptr, GcHead>, touched: set<Ptr>, xs: seq<Ptr>, ys: seq<Ptr>) {
    && OnlyNexts(mem0, mem, touched)
    && IsList(mem, HeadOf(xs), xs) && IsList(mem, HeadOf(ys), ys)
    && Distinct(xs) && Distinct(ys)
    && (forall x :: x in xs ==> x in touched && x !in ys)
    && (forall y :: y in ys ==> y in touched && y !in xs)
  }

  lemma TwoListsAppend(mem0: map<Ptr, GcHead>, mem: map<Ptr, GcHead>, touched: set<Ptr>, xs: seq<Ptr>, ys: seq<Ptr>, n: Ptr)
    requires TwoLists(mem0, mem, touched, xs, ys) && n in mem && n !in touched
    ensures LastOf(xs).Some? ==> LastOf(xs).value in mem
    ensures TwoLists(mem0, Appended(mem, LastOf(xs), n), touched + {n}, xs + [n], ys)
  {
    AppendedIsList(mem, xs, n);
    assert LastOf(xs).Some? ==> LastOf(xs).value in xs;
    AppendedOther(mem, LastOf(xs), n, HeadOf(ys), ys);
    OnlyNextsAppended(mem0, mem, touched, LastOf(xs), n);
    hide IsList, OnlyNexts, Appended;
  }

  lemma TwoListsSwap(mem0: map<Ptr, GcHead>, mem: map<Ptr, GcHead>, touched: set<Ptr>, xs: seq<Ptr>, ys: seq<Ptr>)
    requires TwoLists(mem0, mem, touched, xs, ys)
    ensures TwoLists(mem0, mem, touched, ys, xs)
  {
  }

  /** The nodes of `dead` and the others among the first `i` of `c`. */
  ghost function Whites(c: seq<Ptr>, dead: set<Ptr>, i: nat): seq<Ptr>
    requires i <= |c|
  {
    Keep(c[..i], dead)
  }

  ghost function Survivors(c: seq<Ptr>, dead: set<Ptr>, i: nat): seq<Ptr>
    requires i <= |c|
  {
    Keep(c[..i], Elems(c) - dead)
  }

  lemma PartsNext(c: seq<Ptr>, dead: set<Ptr>, i: nat)
    requires i < |c|
    ensures var n := c[i];
            && Whites(c, dead, i + 1) == (if n in dead then Whites(c, dead, i) + [n] else Whites(c, dead, i))
            && Survivors(c, dead, i + 1) == (if n in dead then Survivors(c, dead, i) else Survivors(c, dead, i) + [n])
            && Elems(c[..i + 1]) == Elems(c[..i]) + {n}
  {
    KeepNext(c, i, dead);
    KeepNext(c, i, Elems(c) - dead);
    ElemsNext(c, i);
    assert c[i] in Elems(c);
    hide Keep;
  }

  /**
   Splitting a chain after `i` nodes: those in `dead` form one well-linked list, the rest another, and the
   nodes still to come are as they were.
   */
  ghost predicate SplitAt(
      mem0: map<Ptr, GcHead>, mem: map<Ptr, GcHead>, c: seq<Ptr>, dead: set<Ptr>, i: nat,
      whiteHead: Option<Ptr>, whiteTail: Option<Ptr>, survHead: Option<Ptr>, survTail: Option<Ptr>)
    requires i <= |c|
  {
    var W, V := Whites(c, dead, i), Survivors(c, dead, i);
    && TwoLists(mem0, mem, Elems(c[..i]), W, V)
    && whiteHead == HeadOf(W) && whiteTail == LastOf(W) && survHead == HeadOf(V) && survTail == LastOf(V)
  }

  lemma SplitStart(mem: map<Ptr, GcHead>, c: seq<Ptr>, dead: set<Ptr>)
    ensures SplitAt(mem, mem, c, dead, 0, None, None, None, None)
  {
  }

  lemma SplitNext(
      mem0: map<Ptr, GcHead>, mem: map<Ptr, GcHead>, c: seq<Ptr>, dead: set<Ptr>, i: nat,
      wh: Option<Ptr>, wt: Option<Ptr>, sh: Option<Ptr>, st: Option<Ptr>)
    requires Distinct(c) && i < |c| && SplitAt(mem0, mem, c, dead, i, wh, wt, sh, st) && c[i] in mem0
    ensures var n := c[i];
            && n in mem && mem[n] == mem0[n]
            && (wt.Some? ==> wt.value in mem) && (st.Some? ==> st.value in mem)
            && if n in dead
               then SplitAt(mem0, Appended(mem, wt, n), c, dead, i + 1, if wt.Some? then wh else Some(n), Some(n), sh, st)
               else SplitAt(mem0, Appended(mem, st, n), c, dead, i + 1, wh, wt, if st.Some? then sh else Some(n), Some(n))
  {
    hide TwoLists, Whites, Survivors, Appended, Distinct;
    var n, T := c[i], Elems(c[..i]);
    var W, V := Whites(c, dead, i), Survivors(c, dead, i);
    PartsNext(c, dead, i);
    NextIsUntouched(mem0, mem, c, i, W, V);
    TwoListsSwap(mem0, mem, T, W, V);
    TwoListsAppend(mem0, mem, T, W, V, n);
    TwoListsAppend(mem0, mem, T, V, W, n);
    if n !in dead {
      TwoListsSwap(mem0, Appended(mem, st, n), T + {n}, V + [n], W);
    }
  }

  lemma NextIsUntouched(mem0: map<Ptr, GcHead>, mem: map<Ptr, GcHead>, c: seq<Ptr>, i: nat, W: seq<Ptr>, V: seq<Ptr>)
    requires Distinct(c) && i < |c| && c[i] in mem0 && TwoLists(mem0, mem, Elems(c[..i]), W, V)
    ensures c[i] !in Elems(c[..i]) && c[i] in mem && mem[c[i]] == mem0[c[i]]
  {
    assert c[i] !in c[..i];
  }

  lemma OnlyNextsAppended(mem0: map<Ptr, GcHead>, mem: map<Ptr, GcHead>, touched: set<Ptr>, tail: Option<Ptr>, n: Ptr)
    requires OnlyNexts(mem0, mem, touched) && n in mem && (tail.Some? ==> tail.value in mem && tail.value in touched)
    ensures OnlyNexts(mem0, Appended(mem, tail, n), touched + {n})
  {
  }

  lemma SplitRows(
      mem0: map<Ptr, GcHead>, mem: map<Ptr, GcHead>, c: seq<Ptr>, dead: set<Ptr>, i: nat,
      wh: Option<Ptr>, wt: Option<Ptr>, sh: Option<Ptr>, st: Option<Ptr>, s: State, flags: Flags)
    requires i <= |c| && SplitAt(mem0, mem, c, dead, i, wh, wt, sh, st) && RowsOk(mem0, s, flags)
    ensures RowsOk(mem, s, flags)
  {
    OnlyNextsRows(mem0, mem, Elems(c[..i]), s, flags);
  }

  lemma SplitEnds(
      mem0: map<Ptr, GcHead>, mem: map<Ptr, GcHead>, c: seq<Ptr>, dead: set<Ptr>,
      wh: Option<Ptr>, wt: Option<Ptr>, sh: Option<Ptr>, st: Option<Ptr>)
    requires SplitAt(mem0, mem, c, dead, |c|, wh, wt, sh, st)
    ensures OnlyNexts(mem0, mem, Elems(c)) && IsList(mem, wh, Keep(c, dead)) && IsList(mem, sh, Keep(c, Elems(c) - dead))
  {
    assert c[..|c|] == c;
  }

  /** Installing the surviving half of a split chain. */
  lemma PartsSplit(mem: map<Ptr, GcHead>, mem': map<Ptr, GcHead>, partitions: seq<GcPartition>, par: GcPartition, s: State, s': State, p: nat)
    requires PartsOk(mem, partitions, s) && ChainsOk(s.g) && p < |partitions|
    requires OnlyNexts(mem, mem', Elems(s.g.chain[p]))
    requires |s'.g.chain| == |s.g.chain| && s'.m == s.m && s'.acc == s.acc && s'.g.chain == s.g.chain[p := s'.g.chain[p]]
    requires par == partitions[p].(nodes := par.nodes) && IsList(mem', par.nodes, s'.g.chain[p])
    ensures PartsOk(mem', partitions[p := par], s')
  {
    var partitions' := partitions[p := par];
    forall q | 0 <= q < |partitions'| ensures PartOk(mem', partitions'[q], q, s') {
      assert PartOk(mem, partitions[q], q, s);
      if q != p {
        var c := s.g.chain[q];
        forall n | n in c ensures n in mem && n in mem' && mem'[n].next == mem[n].next {
          assert n in s.g.chain[q] && n !in s.g.chain[p];
          var i :| 0 <= i < |c| && c[i] == n;
          var next := NextOf(c, i);
        }
        ListUntouched(mem, mem', partitions[q].nodes, c);
      }
    }
  }

  /** Splitting an empty chain changes nothing but the marking flag. */
  lemma UnlinkEmpty(g: Graph, prot: set<Ptr>, m: Marks, p: nat)
    requires MarksOk(g, m) && ChainsOk(g) && CanUnlink(m, p) && g.chain[p] == []
    ensures UnlinkGraph(g, prot, m, p) == g
  {
    InChain(g, p);
    assert Dead(g, prot, m, p) == {};
  }

  /** Layout sizes fit the 32-bit delta, type ids a byte, and every pass in use is listed, ascending. */
  ghost predicate RegistryOk(types: seq<TypeInfo>, passes: seq<nat>, g: Graph) {
    && (forall i {:trigger types[i]} :: 0 <= i < |types| ==> types[i].layoutSize < 0x8000_0000 && types[i].dropPass in passes)
    && |types| <= 0x100 && D.Ascending(passes)
    && (forall n {:trigger g.dtype[n]} :: n in g.dtype ==> g.dtype[n] < |types|)
  }

  ghost function PassMap(types: seq<TypeInfo>, g: Graph): map<Ptr, nat> {
    map n | n in g.dtype && g.dtype[n] < |types| :: types[g.dtype[n]].dropPass
  }

  ghost function NeedsDrop(types: seq<TypeInfo>, g: Graph): set<Ptr> {
    set n | n in g.dtype && g.dtype[n] < |types| && types[g.dtype[n]].needsDrop
  }

  /** Among the nodes given, exactly those whose registered type asks for it are dropped, in the order given. */
  lemma DropsIff(types: seq<TypeInfo>, passes: seq<nat>, g: Graph, ns: seq<Ptr>, n: Ptr)
    requires RegistryOk(types, passes, g) && n in g.dtype
    ensures n in Keep(ns, NeedsDrop(types, g)) <==> n in ns && types[g.dtype[n]].needsDrop
    ensures n in PassMap(types, g) && PassMap(types, g)[n] == types[g.dtype[n]].dropPass
  {
  }

  /** Chains are unaffected by relinking or freeing nodes that are not on them. */
  lemma PartsOffChain(mem: map<Ptr, GcHead>, mem': map<Ptr, GcHead>, partitions: seq<GcPartition>, s: State, s': State)
    requires PartsOk(mem, partitions, s) && ChainsOk(s.g)
    requires forall n {:trigger n in s.g.linked} :: n in s.g.linked && n in mem ==> n in mem' && mem'[n].next == mem[n].next
    requires s'.g.chain == s.g.chain && s'.m.gray == s.m.gray && s'.m.marking == s.m.marking && s'.acc.used == s.acc.used
    ensures PartsOk(mem', partitions, s')
  {
    forall p | 0 <= p < |partitions| ensures PartOk(mem', partitions[p], p, s') {
      var c := s.g.chain[p];
      assert PartOk(mem, partitions[p], p, s);
      forall n | n in c ensures n in mem && n in mem' && mem'[n].next == mem[n].next {
        assert n in s.g.chain[p] && Linked(s.g, n);
        var i :| 0 <= i < |c| && c[i] == n;
        var next := NextOf(c, i);
      }
      ListUntouched(mem, mem', partitions[p].nodes, c);
    }
  }

  /** A drop pass over `rem` after `i` nodes: the kept ones are relinked, the rest still to come. */
  ghost predicate PeelAt(mem: map<Ptr, GcHead>, rem: seq<Ptr>, i: nat, kept: seq<Ptr>) {
    && i <= |rem|
    && IsList(mem, HeadOf(kept), kept) && Distinct(kept) && (forall n :: n in kept ==> n in rem[..i])
    && (forall k {:trigger NextOf(rem, k)} :: i <= k < |rem| ==> rem[k] in mem && mem[rem[k]].next == NextOf(rem, k))
  }

  lemma PeelStart(mem: map<Ptr, GcHead>, head: Option<Ptr>, rem: seq<Ptr>)
    requires IsList(mem, head, rem)
    ensures PeelAt(mem, rem, 0, []) && At(rem, 0, head)
  {
    assert IsList(mem, None, []);
    forall k | 0 <= k < |rem| ensures rem[k] in mem && mem[rem[k]].next == NextOf(rem, k) {
      var next := NextOf(rem, k);
    }
  }

  lemma PeelCursor(mem: map<Ptr, GcHead>, rem: seq<Ptr>, i: nat, kept: seq<Ptr>)
    requires Distinct(rem) && PeelAt(mem, rem, i, kept) && i < |rem|
    ensures rem[i] in mem && At(rem, i + 1, mem[rem[i]].next)
    ensures LastOf(kept).Some? ==> LastOf(kept).value in mem && LastOf(kept).value in rem && LastOf(kept).value != rem[i]
  {
    var next := NextOf(rem, i);
    if kept != [] {
      var last := NextOf(kept, |kept| - 1);
      assert kept[|kept| - 1] in rem[..i];
    }
  }

  lemma PeelDrop(mem: map<Ptr, GcHead>, rem: seq<Ptr>, i: nat, kept: seq<Ptr>)
    requires Distinct(rem) && PeelAt(mem, rem, i, kept) && i < |rem|
    ensures PeelAt(mem - {rem[i]}, rem, i + 1, kept)
  {
    var mem' := mem - {rem[i]};
    assert rem[i] !in rem[..i];
    forall n | n in kept ensures n in mem && n in mem' && mem'[n].next == mem[n].next && n in rem[..i + 1] {
      var j :| 0 <= j < |kept| && kept[j] == n;
      var next := NextOf(kept, j);
      assert n in rem[..i];
    }
    ListUntouched(mem, mem', HeadOf(kept), kept);
    forall k | i + 1 <= k < |rem| ensures rem[k] in mem' && mem'[rem[k]].next == NextOf(rem, k) {
      var next := NextOf(rem, k);
      assert mem[rem[k]].next == next && rem[k] != rem[i];
    }
  }

  lemma PeelKeep(mem: map<Ptr, GcHead>, rem: seq<Ptr>, i: nat, kept: seq<Ptr>)
    requires Distinct(rem) && PeelAt(mem, rem, i, kept) && i < |rem|
    ensures rem[i] in mem && (LastOf(kept).Some? ==> LastOf(kept).value in mem)
    ensures PeelAt(Appended(mem, LastOf(kept), rem[i]), rem, i + 1, kept + [rem[i]])
  {
    PeelCursor(mem, rem, i, kept);
    assert rem[i] !in rem[..i];
    AppendedIsList(mem, kept, rem[i]);
    var mem' := Appended(mem, LastOf(kept), rem[i]);
    assert LastOf(kept).Some? ==> LastOf(kept).value in rem[..i];
    forall k | i + 1 <= k < |rem| ensures rem[k] in mem' && mem'[rem[k]].next == NextOf(rem, k) {
      var next := NextOf(rem, k);
      assert rem[k] !in rem[..i] && rem[k] != rem[i];
    }
  }

  /** The bookkeeping beside the chains: weak slots, accounts, limit and registry. */
  ghost predicate LedgerOk(types: seq<TypeInfo>, passes: seq<nat>, s: State) {
    && W.WeakOk(s.g.part.Keys, s.weak)
    && A.AccountsOk(s.g, LayoutSizes(types), s.acc) && A.LimitOk(s.acc)
    && RegistryOk(types, passes, s.g)
  }

  lemma LedgerFrame(types: seq<TypeInfo>, passes: seq<nat>, s: State, s': State)
    requires LedgerOk(types, passes, s) && s'.weak == s.weak && s'.acc == s.acc
    requires s'.g.part == s.g.part && s'.g.dtype == s.g.dtype && |s'.g.chain| == |s.g.chain|
    ensures LedgerOk(types, passes, s')
  {
    forall p | 0 <= p < |s'.acc.used|
      ensures s'.acc.used[p] == A.Bytes(A.InPartition(s'.g, p), s'.g.dtype, LayoutSizes(types))
    {
      assert s.acc.used[p] == A.Bytes(A.InPartition(s.g, p), s.g.dtype, LayoutSizes(types));
      assert A.InPartition(s'.g, p) == A.InPartition(s.g, p);
    }
  }

  /** What disposing one unlinked node relies on and keeps. */
  lemma DisposedOne(types: seq<TypeInfo>, passes: seq<nat>, s: State, n: Ptr)
    requires MarksOk(s.g, s.m) && ChainsOk(s.g) && LedgerOk(types, passes, s)
    requires n in s.g.part && n !in s.g.linked
    ensures n in s.g.dtype && s.g.dtype[n] < |types|
    ensures var p, size := s.g.part[n], types[s.g.dtype[n]].layoutSize;
            && size < 0x8000_0000 && A.Bytes({n}, s.g.dtype, LayoutSizes(types)) == size
            && p < |s.acc.used| && size <= s.acc.used[p] && size <= s.acc.total
            && var s' := Disposed(LayoutSizes(types), s, p, {n});
               MarksOk(s'.g, s'.m) && ChainsOk(s'.g) && LedgerOk(types, passes, s')
  {
    var layout := LayoutSizes(types);
    A.BytesRemove({n}, s.g.dtype, layout, n);
    assert {n} - {n} == {};
    FreeOk(s.g, {n});
    P.FreeMarksOk(s.g, s.m, {n});
    W.ForgetOk(s.g.part.Keys, s.weak, {n});
    assert {n} <= A.InPartition(s.g, s.g.part[n]);
    A.ReleaseOk(s.g, Free(s.g, {n}), layout, s.acc, s.g.part[n], {n});
    assert (s.g.part - {n}).Keys == s.g.part.Keys - {n};
    hide A.AccountsOk, A.LimitOk, A.Bytes, W.WeakOk;
  }

  lemma ForgetKeys(w: W.WeakTable, n: Ptr)
    ensures W.Forget(w, {n}).ids == w.ids - {n}
  {
  }

  /** Forgetting one header. */
  lemma RowsRemove(mem: map<Ptr, GcHead>, s: State, s': State, flags: Flags, n: Ptr)
    requires RowsOk(mem, s, flags) && s'.g.part.Keys == s.g.part.Keys - {n}
    requires forall x {:trigger mem[x]} :: x in mem && x != n ==> SameAt(s, s', flags, flags, x)
    ensures RowsOk(mem - {n}, s', flags)
  {
  }

  /** Unlinked nodes of partition `p`, still in memory. */
  ghost predicate AllLimbo(g: Graph, p: nat, ns: set<Ptr>) {
    ns <= A.InPartition(g, p) && ns !! g.linked
  }

  /** Freeing is possible, and by how much it lowers the counters. */
  lemma DisposedFits(types: seq<TypeInfo>, passes: seq<nat>, s: State, p: nat, ns: set<Ptr>)
    requires Wf(s.g) && LedgerOk(types, passes, s) && p < |s.g.chain| && AllLimbo(s.g, p, ns)
    ensures p < |s.acc.used|
    ensures var d := A.Bytes(ns, s.g.dtype, LayoutSizes(types)); d <= s.acc.used[p] && d <= s.acc.total
  {
    A.ReleaseOk(s.g, Free(s.g, ns), LayoutSizes(types), s.acc, p, ns);
  }

  /** Freeing one set of nodes after another is freeing them together. */
  lemma DisposedTwice(types: seq<TypeInfo>, passes: seq<nat>, s: State, p: nat, a: set<Ptr>, b: set<Ptr>)
    requires Wf(s.g) && LedgerOk(types, passes, s) && p < |s.g.chain|
    requires AllLimbo(s.g, p, a + b) && a !! b
    ensures p < |s.acc.used|
    ensures var layout := LayoutSizes(types);
            var da, db, d := A.Bytes(a, s.g.dtype, layout), A.Bytes(b, s.g.dtype, layout), A.Bytes(a + b, s.g.dtype, layout);
            && d == da + db && d <= s.acc.used[p] && d <= s.acc.total
            && var s1 := Disposed(layout, s, p, a);
               && A.Bytes(b, s1.g.dtype, layout) == db && db <= s1.acc.used[p] && db <= s1.acc.total
               && Disposed(layout, s1, p, b) == Disposed(layout, s, p, a + b)
               && AllLimbo(s1.g, p, b)
  {
    hide A.Bytes, LedgerOk, W.Forget, AllLimbo, Wf, Free, A.Release;
    var layout := LayoutSizes(types);
    var da, db := A.Bytes(a, s.g.dtype, layout), A.Bytes(b, s.g.dtype, layout);
    DisposedFits(types, passes, s, p, a + b);
    LimboLeft(s.g, p, a, b);
    BytesInTwo(s.g, a, b, layout);
    ReleaseTwice(s.acc, p, da, db);
    W.ForgetTwice(s.weak, a, b);
    FreeTwice(s, a, b);
  }

  lemma BytesInTwo(g: Graph, a: set<Ptr>, b: set<Ptr>, layout: seq<nat>)
    requires g.dtype.Keys == g.part.Keys && a !! b && a + b <= g.dtype.Keys
    ensures A.Bytes(a + b, g.dtype, layout) == A.Bytes(a, g.dtype, layout) + A.Bytes(b, g.dtype, layout)
    ensures A.Bytes(b, Free(g, a).dtype, layout) == A.Bytes(b, g.dtype, layout)
  {
    A.BytesSplit(a + b, a, g.dtype, layout);
    assert a + b - a == b;
    A.BytesSame(b, g.dtype, Free(g, a).dtype, layout);
  }

  lemma LimboLeft(g: Graph, p: nat, a: set<Ptr>, b: set<Ptr>)
    requires Wf(g) && AllLimbo(g, p, a + b) && a !! b
    ensures AllLimbo(Free(g, a), p, b) && g.dtype.Keys == g.part.Keys && a + b <= g.dtype.Keys
  {
  }

  lemma ReleaseTwice(acc: A.Accounts, p: nat, a: nat, b: nat)
    requires p < |acc.used| && a + b <= acc.used[p] && a + b <= acc.total
    ensures A.Release(A.Release(acc, p, a), p, b) == A.Release(acc, p, a + b)
    ensures p < |A.Release(acc, p, a).used| && b <= A.Release(acc, p, a).used[p] && b <= A.Release(acc, p, a).total
  {
  }

  lemma FreeTwice(s: State, a: set<Ptr>, b: set<Ptr>)
    ensures Free(Free(s.g, a), b) == Free(s.g, a + b)
    ensures s.m.color - a - b == s.m.color - (a + b) && s.roots - a - b == s.roots - (a + b)
  {
    assert s.g.kids - a - b == s.g.kids - (a + b);
    assert s.g.part - a - b == s.g.part - (a + b);
    assert s.g.dtype - a - b == s.g.dtype - (a + b);
    assert s.m.color - a - b == s.m.color - (a + b);
  }

  lemma PassNext(rem: seq<Ptr>, i: nat, passOf: map<Ptr, nat>, pass: nat)
    requires i < |rem| && rem[i] in passOf
    ensures var n, now, keep := rem[i], D.PassSet(passOf, pass), D.NotPass(passOf, pass);
            && Keep(rem[..i + 1], now) == (if passOf[n] == pass then Keep(rem[..i], now) + [n] else Keep(rem[..i], now))
            && Keep(rem[..i + 1], keep) == (if passOf[n] == pass then Keep(rem[..i], keep) else Keep(rem[..i], keep) + [n])
  {
    KeepNext(rem, i, D.PassSet(passOf, pass));
    KeepNext(rem, i, D.NotPass(passOf, pass));
  }

  /**
   A drop pass over `rem` after `i` nodes: those of the pass are disposed, the others relinked in order.
   */
  ghost predicate PassAt(
      types: seq<TypeInfo>, s0: State, s: State, mem: map<Ptr, GcHead>, p: nat, rem: seq<Ptr>, i: nat,
      passOf: map<Ptr, nat>, pass: nat, gone: seq<Ptr>, keptHead: Option<Ptr>, keptTail: Option<Ptr>)
    requires i <= |rem| && p < |s0.acc.used|
    requires var d := A.Bytes(Elems(rem), s0.g.dtype, LayoutSizes(types)); d <= s0.acc.used[p] && d <= s0.acc.total
  {
    var kept := Keep(rem[..i], D.NotPass(passOf, pass));
    && gone == Keep(rem[..i], D.PassSet(passOf, pass))
    && PeelAt(mem, rem, i, kept) && keptHead == HeadOf(kept) && keptTail == LastOf(kept)
    && A.Bytes(Elems(gone), s0.g.dtype, LayoutSizes(types)) <= A.Bytes(Elems(rem), s0.g.dtype, LayoutSizes(types))
    && s == Disposed(LayoutSizes(types), s0, p, Elems(gone))
  }

  /** What the pass may do with the node it is at. */
  lemma PassTurn(
      types: seq<TypeInfo>, passes: seq<nat>, s0: State, s: State, mem: map<Ptr, GcHead>, p: nat, rem: seq<Ptr>, i: nat,
      passOf: map<Ptr, nat>, pass: nat, gone: seq<Ptr>, keptHead: Option<Ptr>, keptTail: Option<Ptr>)
    requires Wf(s0.g) && LedgerOk(types, passes, s0) && p < |s0.g.chain| && p < |s0.acc.used|
    requires AllLimbo(s0.g, p, Elems(rem)) && Distinct(rem) && passOf == PassMap(types, s0.g) && i < |rem|
    requires var d := A.Bytes(Elems(rem), s0.g.dtype, LayoutSizes(types)); d <= s0.acc.used[p] && d <= s0.acc.total
    requires PassAt(types, s0, s, mem, p, rem, i, passOf, pass, gone, keptHead, keptTail)
    requires mem.Keys == s.g.part.Keys
    ensures var n := rem[i];
            && n in mem && At(rem, i + 1, mem[n].next) && n !in s.g.linked && n in s.g.part && s.g.part[n] == p
            && n in s.g.dtype && s.g.dtype[n] < |types| && n in s0.g.dtype && s.g.dtype[n] == s0.g.dtype[n]
            && (keptTail.Some? ==> keptTail.value in mem && keptTail.value !in s.g.linked)
  {
    var n := rem[i];
    PeelCursor(mem, rem, i, Keep(rem[..i], D.NotPass(passOf, pass)));
    assert n !in rem[..i];
    assert n in Elems(rem) && n in A.InPartition(s0.g, p);
    assert keptTail.Some? ==> keptTail.value in Elems(rem);
    hide A.Bytes;
    assert s0.g.dtype[n] < |types|;
  }

  lemma PassDrop(
      types: seq<TypeInfo>, passes: seq<nat>, s0: State, s: State, mem: map<Ptr, GcHead>, p: nat, rem: seq<Ptr>, i: nat,
      passOf: map<Ptr, nat>, pass: nat, gone: seq<Ptr>, keptHead: Option<Ptr>, keptTail: Option<Ptr>, s': State)
    requires Wf(s0.g) && LedgerOk(types, passes, s0) && p < |s0.g.chain| && p < |s0.acc.used|
    requires AllLimbo(s0.g, p, Elems(rem)) && Distinct(rem) && i < |rem| && rem[i] in passOf && passOf[rem[i]] == pass
    requires var d := A.Bytes(Elems(rem), s0.g.dtype, LayoutSizes(types)); d <= s0.acc.used[p] && d <= s0.acc.total
    requires PassAt(types, s0, s, mem, p, rem, i, passOf, pass, gone, keptHead, keptTail)
    requires var d := A.Bytes({rem[i]}, s.g.dtype, LayoutSizes(types)); p < |s.acc.used| && d <= s.acc.used[p] && d <= s.acc.total
    requires s' == Disposed(LayoutSizes(types), s, p, {rem[i]})
    ensures PassAt(types, s0, s', mem - {rem[i]}, p, rem, i + 1, passOf, pass, gone + [rem[i]], keptHead, keptTail)
    ensures A.Bytes(Elems(gone + [rem[i]]), s0.g.dtype, LayoutSizes(types))
              == A.Bytes(Elems(gone), s0.g.dtype, LayoutSizes(types)) + A.Bytes({rem[i]}, s.g.dtype, LayoutSizes(types))
  {
    hide A.Bytes, PeelAt, Disposed, LedgerOk, Keep, Distinct;
    var n := rem[i];
    PassNext(rem, i, passOf, pass);
    PeelDrop(mem, rem, i, Keep(rem[..i], D.NotPass(passOf, pass)));
    GoneNext(types, s0, rem, i, passOf, pass, gone);
    DisposedTwice(types, passes, s0, p, Elems(gone), {n});
  }

  /** What has gone so far and the next node are separate, and fit in the list. */
  lemma GoneNext(types: seq<TypeInfo>, s: State, rem: seq<Ptr>, i: nat, passOf: map<Ptr, nat>, pass: nat, gone: seq<Ptr>)
    requires Distinct(rem) && i < |rem| && gone == Keep(rem[..i], D.PassSet(passOf, pass))
    ensures Elems(gone + [rem[i]]) == Elems(gone) + {rem[i]} && Elems(gone) !! {rem[i]} && Elems(gone) + {rem[i]} <= Elems(rem)
    ensures A.Bytes(Elems(gone) + {rem[i]}, s.g.dtype, LayoutSizes(types)) <= A.Bytes(Elems(rem), s.g.dtype, LayoutSizes(types))
  {
    hide A.Bytes;
    var n := rem[i];
    assert n !in rem[..i];
    A.BytesSplit(Elems(rem), Elems(gone) + {n}, s.g.dtype, LayoutSizes(types));
  }

  lemma PassKeep(
      types: seq<TypeInfo>, s0: State, s: State, mem: map<Ptr, GcHead>, p: nat, rem: seq<Ptr>, i: nat,
      passOf: map<Ptr, nat>, pass: nat, gone: seq<Ptr>, keptHead: Option<Ptr>, keptTail: Option<Ptr>)
    requires p < |s0.acc.used| && Distinct(rem) && i < |rem| && rem[i] in passOf && passOf[rem[i]] != pass
    requires var d := A.Bytes(Elems(rem), s0.g.dtype, LayoutSizes(types)); d <= s0.acc.used[p] && d <= s0.acc.total
    requires PassAt(types, s0, s, mem, p, rem, i, passOf, pass, gone, keptHead, keptTail)
    ensures var n := rem[i];
            && n in mem && (keptTail.Some? ==> keptTail.value in mem)
            && PassAt(types, s0, s, Appended(mem, keptTail, n), p, rem, i + 1, passOf, pass, gone,
                      if keptTail.Some? then keptHead else Some(n), Some(n))
  {
    PassNext(rem, i, passOf, pass);
    PeelKeep(mem, rem, i, Keep(rem[..i], D.NotPass(passOf, pass)));
    hide A.Bytes, PeelAt, Disposed, Keep, Appended;
  }

  lemma PassStart(
      types: seq<TypeInfo>, s0: State, mem: map<Ptr, GcHead>, p: nat, head: Option<Ptr>, rem: seq<Ptr>,
      passOf: map<Ptr, nat>, pass: nat)
    requires IsList(mem, head, rem) && p < |s0.acc.used|
    requires var d := A.Bytes(Elems(rem), s0.g.dtype, LayoutSizes(types)); d <= s0.acc.used[p] && d <= s0.acc.total
    ensures PassAt(types, s0, s0, mem, p, rem, 0, passOf, pass, [], None, None)
    ensures At(rem, 0, head) && A.Bytes(Elems<Ptr>([]), s0.g.dtype, LayoutSizes(types)) == 0
  {
    PeelStart(mem, head, rem);
    assert Elems<Ptr>([]) == {};
    DisposedNone(LayoutSizes(types), s0, p);
    assert rem[..0] == [];
  }

  lemma DisposedNone(layout: seq<nat>, s: State, p: nat)
    requires p < |s.acc.used|
    ensures Disposed(layout, s, p, {}) == s
  {
    assert s.acc.used[p := s.acc.used[p]] == s.acc.used;
    assert W.Forget(s.weak, {}).slots == s.weak.slots;
  }

  lemma PassEnds(
      types: seq<TypeInfo>, s0: State, s: State, mem: map<Ptr, GcHead>, p: nat, rem: seq<Ptr>,
      passOf: map<Ptr, nat>, pass: nat, gone: seq<Ptr>, keptHead: Option<Ptr>, keptTail: Option<Ptr>)
    requires p < |s0.acc.used|
    requires var d := A.Bytes(Elems(rem), s0.g.dtype, LayoutSizes(types)); d <= s0.acc.used[p] && d <= s0.acc.total
    requires PassAt(types, s0, s, mem, p, rem, |rem|, passOf, pass, gone, keptHead, keptTail)
    ensures gone == Keep(rem, D.PassSet(passOf, pass)) && IsList(mem, keptHead, Keep(rem, D.NotPass(passOf, pass)))
    ensures A.Bytes(Elems(gone), s0.g.dtype, LayoutSizes(types)) <= A.Bytes(Elems(rem), s0.g.dtype, LayoutSizes(types))
    ensures s == Disposed(LayoutSizes(types), s0, p, Elems(gone))
  {
    assert rem[..|rem|] == rem;
  }

  /** After `k` passes over `ns`: `order` has been taken out, `rem` remains, in list order. */
  ghost predicate OrderAt(passes: seq<nat>, passOf: map<Ptr, nat>, ns: seq<Ptr>, k: nat, order: seq<Ptr>, rem: seq<Ptr>)
    requires k <= |passes|
  {
    && Distinct(rem)
    && Elems(order) !! Elems(rem) && Elems(order) + Elems(rem) == Elems(ns)
    && D.Peel(passes, passOf, ns) == order + D.Peel(passes[k..], passOf, rem)
  }

  lemma OrderNext(passes: seq<nat>, passOf: map<Ptr, nat>, ns: seq<Ptr>, k: nat, order: seq<Ptr>, rem: seq<Ptr>)
    requires k < |passes| && OrderAt(passes, passOf, ns, k, order, rem) && D.Covers(passes, passOf, ns)
    ensures var gone, rest := Keep(rem, D.PassSet(passOf, passes[k])), Keep(rem, D.NotPass(passOf, passes[k]));
            && OrderAt(passes, passOf, ns, k + 1, order + gone, rest)
            && Elems(order + gone) == Elems(order) + Elems(gone) && Elems(order) !! Elems(gone)
            && Elems(order) + Elems(gone) <= Elems(ns)
  {
    var gone, rest := Keep(rem, D.PassSet(passOf, passes[k])), Keep(rem, D.NotPass(passOf, passes[k]));
    KeepDistinct(rem, D.NotPass(passOf, passes[k]));
    assert passes[k..][0] == passes[k] && passes[k..][1..] == passes[k + 1..];
    D.PeelStep(passes[k..], passOf, rem);
    hide D.Peel;
    assert order + (gone + D.Peel(passes[k + 1..], passOf, rest)) == order + gone + D.Peel(passes[k + 1..], passOf, rest);
    forall n | n in rem ensures n in passOf {
      assert n in Elems(rem) && n in Elems(ns);
    }
    assert Elems(gone) + Elems(rest) == Elems(rem) && Elems(gone) !! Elems(rest);
  }

  lemma OrderElems(passes: seq<nat>, passOf: map<Ptr, nat>, ns: seq<Ptr>, k: nat, order: seq<Ptr>, rem: seq<Ptr>)
    requires k <= |passes| && OrderAt(passes, passOf, ns, k, order, rem)
    ensures Elems(rem) <= Elems(ns) && Elems(order) !! Elems(rem)
  {
  }

  /** When the passes are through, or nothing remains, everything has been taken out exactly once, in drop order. */
  lemma OrderEnds(passes: seq<nat>, passOf: map<Ptr, nat>, ns: seq<Ptr>, k: nat, order: seq<Ptr>, rem: seq<Ptr>)
    requires k <= |passes| && OrderAt(passes, passOf, ns, k, order, rem) && (k == |passes| || rem == [])
    requires D.Ascending(passes) && D.Covers(passes, passOf, ns)
    ensures order == D.DropOrder(passes, passOf, ns) && multiset(order) == multiset(ns) && Elems(order) == Elems(ns)
  {
    if k < |passes| { PeelNothing(passes[k..], passOf); }
    assert order == D.Peel(passes, passOf, ns);
    D.PeelIsDropOrder(passes, passOf, ns);
    D.EachOnce(passes, passOf, ns);
    hide D.DropOrder, D.Peel;
    forall n ensures n in Elems(order) <==> n in Elems(ns) {
      assert n in multiset(order) <==> n in multiset(ns);
    }
  }

  lemma RegistryCovers(types: seq<TypeInfo>, passes: seq<nat>, g: Graph, ns: seq<Ptr>)
    requires Wf(g) && RegistryOk(types, passes, g) && Elems(ns) <= g.part.Keys
    ensures D.Ascending(passes) && D.Covers(passes, PassMap(types, g), ns)
  {
    forall n | n in ns ensures n in PassMap(types, g) && PassMap(types, g)[n] in passes {
      assert n in Elems(ns) && g.dtype[n] < |types|;
    }
  }

  /** A sweep of the white list `ns` after `k` passes: `order` is disposed, `rem` remains linked up. */
  ghost predicate SweepAt(
      types: seq<TypeInfo>, passes: seq<nat>, s0: State, s: State, mem: map<Ptr, GcHead>, p: nat,
      ns: seq<Ptr>, k: nat, order: seq<Ptr>, head: Option<Ptr>, rem: seq<Ptr>)
    requires k <= |passes| && p < |s0.acc.used|
    requires var d := A.Bytes(Elems(ns), s0.g.dtype, LayoutSizes(types)); d <= s0.acc.used[p] && d <= s0.acc.total
  {
    && IsList(mem, head, rem) && OrderAt(passes, PassMap(types, s0.g), ns, k, order, rem)
    && A.Bytes(Elems(order), s0.g.dtype, LayoutSizes(types)) <= A.Bytes(Elems(ns), s0.g.dtype, LayoutSizes(types))
    && s == Disposed(LayoutSizes(types), s0, p, Elems(order))
  }

  lemma SweepStart(
      types: seq<TypeInfo>, passes: seq<nat>, s0: State, mem: map<Ptr, GcHead>, p: nat, head: Option<Ptr>, ns: seq<Ptr>)
    requires p < |s0.acc.used| && IsList(mem, head, ns) && Distinct(ns)
    requires var d := A.Bytes(Elems(ns), s0.g.dtype, LayoutSizes(types)); d <= s0.acc.used[p] && d <= s0.acc.total
    ensures SweepAt(types, passes, s0, s0, mem, p, ns, 0, [], head, ns)
    ensures A.Bytes(Elems<Ptr>([]), s0.g.dtype, LayoutSizes(types)) == 0
  {
    assert Elems<Ptr>([]) == {};
    DisposedNone(LayoutSizes(types), s0, p);
    assert passes[0..] == passes;
    hide D.Peel, Disposed;
  }

  lemma SweepTurn(
      types: seq<TypeInfo>, passes: seq<nat>, s0: State, s: State, mem: map<Ptr, GcHead>, p: nat,
      ns: seq<Ptr>, k: nat, order: seq<Ptr>, head: Option<Ptr>, rem: seq<Ptr>)
    requires Wf(s0.g) && LedgerOk(types, passes, s0) && p < |s0.g.chain| && AllLimbo(s0.g, p, Elems(ns))
    requires k <= |passes| && p < |s0.acc.used|
    requires var d := A.Bytes(Elems(ns), s0.g.dtype, LayoutSizes(types)); d <= s0.acc.used[p] && d <= s0.acc.total
    requires SweepAt(types, passes, s0, s, mem, p, ns, k, order, head, rem)
    ensures IsList(mem, head, rem) && Distinct(rem) && AllLimbo(s.g, p, Elems(rem))
  {
    DisposedTwice(types, passes, s0, p, Elems(order), Elems(rem));
    hide D.Peel, A.Bytes, LedgerOk, IsList, Disposed;
  }

  lemma SweepNext(
      types: seq<TypeInfo>, passes: seq<nat>, s0: State, s: State, mem: map<Ptr, GcHead>, p: nat,
      ns: seq<Ptr>, k: nat, order: seq<Ptr>, head: Option<Ptr>, rem: seq<Ptr>,
      s': State, mem': map<Ptr, GcHead>, gone: seq<Ptr>, head': Option<Ptr>)
    requires Wf(s0.g) && LedgerOk(types, passes, s0) && p < |s0.g.chain| && AllLimbo(s0.g, p, Elems(ns))
    requires k < |passes| && p < |s0.acc.used|
    requires var d := A.Bytes(Elems(ns), s0.g.dtype, LayoutSizes(types)); d <= s0.acc.used[p] && d <= s0.acc.total
    requires SweepAt(types, passes, s0, s, mem, p, ns, k, order, head, rem)
    requires gone == Keep(rem, D.PassSet(PassMap(types, s.g), passes[k]))
    requires IsList(mem', head', Keep(rem, D.NotPass(PassMap(types, s.g), passes[k])))
    requires var d := A.Bytes(Elems(gone), s.g.dtype, LayoutSizes(types));
             p < |s.acc.used| && d <= s.acc.used[p] && d <= s.acc.total
    requires s' == Disposed(LayoutSizes(types), s, p, Elems(gone))
    ensures SweepAt(types, passes, s0, s', mem', p, ns, k + 1, order + gone, head',
                    Keep(rem, D.NotPass(PassMap(types, s.g), passes[k])))
    ensures A.Bytes(Elems(order + gone), s0.g.dtype, LayoutSizes(types))
              == A.Bytes(Elems(order), s0.g.dtype, LayoutSizes(types)) + A.Bytes(Elems(gone), s.g.dtype, LayoutSizes(types))
  {
    hide OrderAt, A.Bytes, IsList, Keep, PassMap, D.Covers, D.Peel, D.PassSet, D.NotPass;
    assert s.g == Free(s0.g, Elems(order)) && Elems(rem) <= Elems(ns) && Elems(order) !! Elems(rem) by {
      OrderElems(passes, PassMap(types, s0.g), ns, k, order, rem);
    }
    RegistryCovers(types, passes, s0.g, ns);
    OrderNext(passes, PassMap(types, s0.g), ns, k, order, rem);
    PassesSurvive(types, passes, s0, p, Elems(ns), Elems(order), s, rem, passes[k]);
    A.BytesSplit(Elems(ns), Elems(order) + Elems(gone), s0.g.dtype, LayoutSizes(types));
    hide LedgerOk, Disposed, Wf;
    DisposedTwice(types, passes, s0, p, Elems(order), Elems(gone));
  }

  /** Freeing other nodes does not change which pass the remaining ones belong to. */
  lemma PassesSurvive(
      types: seq<TypeInfo>, passes: seq<nat>, s0: State, p: nat, ns: set<Ptr>, done: set<Ptr>, s: State, rem: seq<Ptr>, pass: nat)
    requires Wf(s0.g) && RegistryOk(types, passes, s0.g) && AllLimbo(s0.g, p, ns) && Elems(rem) <= ns && done !! Elems(rem)
    requires s.g == Free(s0.g, done)
    ensures Keep(rem, D.PassSet(PassMap(types, s.g), pass)) == Keep(rem, D.PassSet(PassMap(types, s0.g), pass))
    ensures Keep(rem, D.NotPass(PassMap(types, s.g), pass)) == Keep(rem, D.NotPass(PassMap(types, s0.g), pass))
  {
    forall n | n in rem
      ensures n in PassMap(types, s0.g) && n in PassMap(types, s.g) && PassMap(types, s.g)[n] == PassMap(types, s0.g)[n]
    {
      assert n in Elems(rem) && n in s0.g.part && s0.g.dtype[n] < |types|;
    }
    KeepSame(rem, D.PassSet(PassMap(types, s.g), pass), D.PassSet(PassMap(types, s0.g), pass));
    KeepSame(rem, D.NotPass(PassMap(types, s.g), pass), D.NotPass(PassMap(types, s0.g), pass));
  }

  lemma SweepEnds(
      types: seq<TypeInfo>, passes: seq<nat>, s0: State, s: State, mem: map<Ptr, GcHead>, p: nat,
      ns: seq<Ptr>, k: nat, order: seq<Ptr>, head: Option<Ptr>, rem: seq<Ptr>)
    requires Wf(s0.g) && LedgerOk(types, passes, s0) && p < |s0.g.chain| && AllLimbo(s0.g, p, Elems(ns))
    requires k <= |passes| && p < |s0.acc.used| && (k == |passes| || head == None)
    requires var d := A.Bytes(Elems(ns), s0.g.dtype, LayoutSizes(types)); d <= s0.acc.used[p] && d <= s0.acc.total
    requires SweepAt(types, passes, s0, s, mem, p, ns, k, order, head, rem)
    ensures order == D.DropOrder(passes, PassMap(types, s0.g), ns) && multiset(order) == multiset(ns)
    ensures Elems(order) == Elems(ns) && s == Disposed(LayoutSizes(types), s0, p, Elems(ns))
  {
    RegistryCovers(types, passes, s0.g, ns);
    OrderEnds(passes, PassMap(types, s0.g), ns, k, order, rem);
  }

  lemma {:induction false} PeelNothing(passes: seq<nat>, passOf: map<Ptr, nat>)
    ensures D.Peel(passes, passOf, []) == []
    decreases |passes|
  {
    if passes != [] { PeelNothing(passes[1..], passOf); }
  }

  lemma LedgerCollectable(types: seq<TypeInfo>, passes: seq<nat>, s: State, p: nat)
    requires LedgerOk(types, passes, s) && NoDangling(s.g) && ChainsOk(s.g) && MarksOk(s.g, s.m) && p < |s.g.chain|
    ensures Collectable(LayoutSizes(types), s, p)
  {
  }

  lemma NothingToFree(types: seq<TypeInfo>, passes: seq<nat>, s0: State, s: State, p: nat)
    requires NoDangling(s0.g) && ChainsOk(s0.g) && MarksOk(s0.g, s0.m) && p < |s0.g.chain| && p < |s.acc.used|
    requires CanUnlink(Marked(s0, p).m, p) ==> s0.g.chain[p] == []
    ensures Garbage(s0, p) == [] && Keep(Garbage(s0, p), NeedsDrop(types, s0.g)) == []
    ensures D.DropOrder(passes, PassMap(types, s0.g), Garbage(s0, p)) == []
    ensures A.Bytes(Elems(Garbage(s0, p)), s.g.dtype, LayoutSizes(types)) == 0
    ensures Disposed(LayoutSizes(types), s, p, Elems(Garbage(s0, p))) == s
  {
    assert Elems(Garbage(s0, p)) == {};
    DisposedNone(LayoutSizes(types), s, p);
    NothingToOrder(passes, PassMap(types, s0.g));
  }

  lemma {:induction false} NothingToOrder(passes: seq<nat>, passOf: map<Ptr, nat>)
    ensures D.DropOrder(passes, passOf, []) == []
    decreases |passes|
  {
    if passes != [] { NothingToOrder(passes[1..], passOf); }
  }

  // ---- filtering a list in place ----

  /** Memory once `n`, which follows `prev`, is bypassed and destroyed. */
  function Bypassed(mem: map<Ptr, GcHead>, prev: Option<Ptr>, n: Ptr): map<Ptr, GcHead>
    requires n in mem && (prev.Some? ==> prev.value in mem)
  {
    (if prev.Some? then mem[prev.value := mem[prev.value].(next := mem[n].next)] else mem) - {n}
  }

  /** Bypassing the node after `xs` in a list leaves the list without it. */
  lemma BypassedIsList(mem: map<Ptr, GcHead>, head: Option<Ptr>, xs: seq<Ptr>, n: Ptr, ys: seq<Ptr>)
    requires IsList(mem, head, xs + [n] + ys) && Distinct(xs + [n] + ys)
    ensures n in mem && mem[n].next == HeadOf(ys) && (LastOf(xs).Some? ==> LastOf(xs).value in mem)
    ensures IsList(Bypassed(mem, LastOf(xs), n), if xs == [] then mem[n].next else head, xs + ys)
  {
    var all, rest := xs + [n] + ys, xs + ys;
    var after := NextOf(all, |xs|);
    assert all[|xs|] == n;
    if xs != [] {
      var before := NextOf(all, |xs| - 1);
    }
    var mem' := Bypassed(mem, LastOf(xs), n);
    forall k | 0 <= k < |rest| ensures rest[k] in mem' && mem'[rest[k]].next == NextOf(rest, k) {
      var k' := if k < |xs| then k else k + 1;
      assert rest[k] == all[k'];
      var next := NextOf(all, k');
    }
  }

  /** `filter_remove_with` after `i` nodes: one list, of the nodes kept so far and the nodes still to come. */
  ghost predicate FilterList(
      mem: map<Ptr, GcHead>, rem: seq<Ptr>, i: nat, passOf: map<Ptr, nat>, pass: nat, head: Option<Ptr>, prev: Option<Ptr>)
    requires i <= |rem|
  {
    var kept := Keep(rem[..i], D.NotPass(passOf, pass));
    IsList(mem, head, kept + rem[i..]) && Distinct(kept + rem[i..]) && prev == LastOf(kept)
  }

  lemma FilterListNext(
      mem: map<Ptr, GcHead>, rem: seq<Ptr>, i: nat, passOf: map<Ptr, nat>, pass: nat, head: Option<Ptr>, prev: Option<Ptr>)
    requires i < |rem| && FilterList(mem, rem, i, passOf, pass, head, prev) && rem[i] in passOf
    ensures var n := rem[i];
            && n in mem && At(rem, i + 1, mem[n].next)
            && (prev.Some? ==> prev.value in mem && prev.value in rem && prev.value != n)
            && if passOf[n] == pass
               then FilterList(Bypassed(mem, prev, n), rem, i + 1, passOf, pass, if prev.Some? then head else mem[n].next, prev)
               else FilterList(mem, rem, i + 1, passOf, pass, head, Some(n))
  {
    hide IsList, Bypassed, Keep, Distinct;
    var n, kept := rem[i], Keep(rem[..i], D.NotPass(passOf, pass));
    PassNext(rem, i, passOf, pass);
    assert kept + rem[i..] == kept + [n] + rem[i + 1..];
    BypassedIsList(mem, head, kept, n, rem[i + 1..]);
    DistinctWithout(kept, n, rem[i + 1..]);
    if prev.Some? { LastIsBefore(kept, n, rem[i + 1..]); }
  }

  lemma LastIsBefore(kept: seq<Ptr>, n: Ptr, rest: seq<Ptr>)
    requires Distinct(kept + [n] + rest) && kept != []
    ensures kept[|kept| - 1] in kept && kept[|kept| - 1] != n
  {
    var all := kept + [n] + rest;
    assert kept[|kept| - 1] == all[|kept| - 1] && n == all[|kept|];
  }

  /** ... and what that has done to the state. */
  ghost predicate FilterAt(
      types: seq<TypeInfo>, s0: State, s: State, mem: map<Ptr, GcHead>, p: nat, rem: seq<Ptr>, i: nat,
      passOf: map<Ptr, nat>, pass: nat, gone: seq<Ptr>, head: Option<Ptr>, prev: Option<Ptr>)
    requires i <= |rem| && p < |s0.acc.used|
    requires var d := A.Bytes(Elems(rem), s0.g.dtype, LayoutSizes(types)); d <= s0.acc.used[p] && d <= s0.acc.total
  {
    && gone == Keep(rem[..i], D.PassSet(passOf, pass))
    && FilterList(mem, rem, i, passOf, pass, head, prev)
    && A.Bytes(Elems(gone), s0.g.dtype, LayoutSizes(types)) <= A.Bytes(Elems(rem), s0.g.dtype, LayoutSizes(types))
    && s == Disposed(LayoutSizes(types), s0, p, Elems(gone))
  }

  lemma FilterStart(
      types: seq<TypeInfo>, s0: State, mem: map<Ptr, GcHead>, p: nat, link: Option<Ptr>, rem: seq<Ptr>,
      passOf: map<Ptr, nat>, pass: nat)
    requires IsList(mem, link, rem) && Distinct(rem) && p < |s0.acc.used|
    requires var d := A.Bytes(Elems(rem), s0.g.dtype, LayoutSizes(types)); d <= s0.acc.used[p] && d <= s0.acc.total
    ensures FilterAt(types, s0, s0, mem, p, rem, 0, passOf, pass, [], link, None)
    ensures At(rem, 0, link) && A.Bytes(Elems<Ptr>([]), s0.g.dtype, LayoutSizes(types)) == 0
  {
    assert Elems<Ptr>([]) == {};
    DisposedNone(LayoutSizes(types), s0, p);
    assert rem[..0] == [] && [] + rem[0..] == rem;
  }

  lemma FilterTurn(
      types: seq<TypeInfo>, passes: seq<nat>, s0: State, s: State, mem: map<Ptr, GcHead>, p: nat, rem: seq<Ptr>, i: nat,
      passOf: map<Ptr, nat>, pass: nat, gone: seq<Ptr>, head: Option<Ptr>, prev: Option<Ptr>)
    requires Wf(s0.g) && LedgerOk(types, passes, s0) && p < |s0.g.chain| && p < |s0.acc.used|
    requires AllLimbo(s0.g, p, Elems(rem)) && Distinct(rem) && passOf == PassMap(types, s0.g) && i < |rem|
    requires var d := A.Bytes(Elems(rem), s0.g.dtype, LayoutSizes(types)); d <= s0.acc.used[p] && d <= s0.acc.total
    requires FilterAt(types, s0, s, mem, p, rem, i, passOf, pass, gone, head, prev)
    requires mem.Keys == s.g.part.Keys
    ensures var n := rem[i];
            && n in mem && At(rem, i + 1, mem[n].next) && n !in s.g.linked && n in s.g.part && s.g.part[n] == p
            && n in s.g.dtype && s.g.dtype[n] < |types| && n in s0.g.dtype && s.g.dtype[n] == s0.g.dtype[n]
            && (prev.Some? ==> prev.value in mem && prev.value !in s.g.linked && prev.value != n)
  {
    var n := rem[i];
    assert n in Elems(rem) && n in A.InPartition(s0.g, p);
    assert s0.g.dtype[n] < |types|;
    FilterListNext(mem, rem, i, passOf, pass, head, prev);
    hide A.Bytes, FilterList;
    assert n !in rem[..i];
    assert prev.Some? ==> prev.value in Elems(rem);
  }

  lemma FilterDrop(
      types: seq<TypeInfo>, passes: seq<nat>, s0: State, s: State, mem: map<Ptr, GcHead>, p: nat, rem: seq<Ptr>, i: nat,
      passOf: map<Ptr, nat>, pass: nat, gone: seq<Ptr>, head: Option<Ptr>, prev: Option<Ptr>, s': State)
    requires Wf(s0.g) && LedgerOk(types, passes, s0) && p < |s0.g.chain| && p < |s0.acc.used|
    requires AllLimbo(s0.g, p, Elems(rem)) && Distinct(rem) && i < |rem| && rem[i] in passOf && passOf[rem[i]] == pass
    requires var d := A.Bytes(Elems(rem), s0.g.dtype, LayoutSizes(types)); d <= s0.acc.used[p] && d <= s0.acc.total
    requires FilterAt(types, s0, s, mem, p, rem, i, passOf, pass, gone, head, prev)
    requires var d := A.Bytes({rem[i]}, s.g.dtype, LayoutSizes(types)); p < |s.acc.used| && d <= s.acc.used[p] && d <= s.acc.total
    requires s' == Disposed(LayoutSizes(types), s, p, {rem[i]})
    ensures rem[i] in mem && (prev.Some? ==> prev.value in mem)
    ensures FilterAt(types, s0, s', Bypassed(mem, prev, rem[i]), p, rem, i + 1, passOf, pass, gone + [rem[i]],
                     if prev.Some? then head else mem[rem[i]].next, prev)
    ensures A.Bytes(Elems(gone + [rem[i]]), s0.g.dtype, LayoutSizes(types))
              == A.Bytes(Elems(gone), s0.g.dtype, LayoutSizes(types)) + A.Bytes({rem[i]}, s.g.dtype, LayoutSizes(types))
  {
    hide FilterList, A.Bytes, Bypassed, Disposed, LedgerOk, Keep, Distinct;
    var n := rem[i];
    FilterListNext(mem, rem, i, passOf, pass, head, prev);
    PassNext(rem, i, passOf, pass);
    GoneNext(types, s0, rem, i, passOf, pass, gone);
    DisposedTwice(types, passes, s0, p, Elems(gone), {n});
  }

  lemma DistinctWithout(xs: seq<Ptr>, n: Ptr, ys: seq<Ptr>)
    requires Distinct(xs + [n] + ys)
    ensures Distinct(xs + ys)
  {
    var all, rest := xs + [n] + ys, xs + ys;
    forall i, j | 0 <= i < j < |rest| ensures rest[i] != rest[j] {
      assert rest[i] == all[if i < |xs| then i else i + 1] && rest[j] == all[if j < |xs| then j else j + 1];
    }
  }

  lemma FilterKeep(
      types: seq<TypeInfo>, s0: State, s: State, mem: map<Ptr, GcHead>, p: nat, rem: seq<Ptr>, i: nat,
      passOf: map<Ptr, nat>, pass: nat, gone: seq<Ptr>, head: Option<Ptr>, prev: Option<Ptr>)
    requires p < |s0.acc.used| && i < |rem| && rem[i] in passOf && passOf[rem[i]] != pass
    requires var d := A.Bytes(Elems(rem), s0.g.dtype, LayoutSizes(types)); d <= s0.acc.used[p] && d <= s0.acc.total
    requires FilterAt(types, s0, s, mem, p, rem, i, passOf, pass, gone, head, prev)
    ensures FilterAt(types, s0, s, mem, p, rem, i + 1, passOf, pass, gone, head, Some(rem[i]))
  {
    FilterListNext(mem, rem, i, passOf, pass, head, prev);
    PassNext(rem, i, passOf, pass);
    hide A.Bytes, FilterList, Disposed, Keep;
  }

  lemma FilterEnds(
      types: seq<TypeInfo>, s0: State, s: State, mem: map<Ptr, GcHead>, p: nat, rem: seq<Ptr>,
      passOf: map<Ptr, nat>, pass: nat, gone: seq<Ptr>, head: Option<Ptr>, prev: Option<Ptr>)
    requires p < |s0.acc.used|
    requires var d := A.Bytes(Elems(rem), s0.g.dtype, LayoutSizes(types)); d <= s0.acc.used[p] && d <= s0.acc.total
    requires FilterAt(types, s0, s, mem, p, rem, |rem|, passOf, pass, gone, head, prev)
    ensures gone == Keep(rem, D.PassSet(passOf, pass)) && IsList(mem, head, Keep(rem, D.NotPass(passOf, pass)))
    ensures A.Bytes(Elems(gone), s0.g.dtype, LayoutSizes(types)) <= A.Bytes(Elems(rem), s0.g.dtype, LayoutSizes(types))
    ensures s == Disposed(LayoutSizes(types), s0, p, Elems(gone))
  {
    var kept := Keep(rem, D.NotPass(passOf, pass));
    assert rem[..|rem|] == rem && kept + rem[|rem|..] == kept;
  }

  lemma KeepOneMore(xs: seq<Ptr>, n: Ptr, S: set<Ptr>)
    ensures Keep(xs + [n], S) == if n in S then Keep(xs, S) + [n] else Keep(xs, S)
  {
    assert (xs + [n])[..|xs|] == xs;
  }

  lemma NeedsDropSurvives(types: seq<TypeInfo>, s0: State, s: State, n: Ptr)
    requires n in s0.g.dtype && n in s.g.dtype && s.g.dtype[n] == s0.g.dtype[n]
    ensures n in NeedsDrop(types, s.g) <==> n in NeedsDrop(types, s0.g)
  {
  }

  /** Dropping is decided by type, which freeing other nodes does not change. */
  lemma DropsSurvive(types: seq<TypeInfo>, s0: State, s: State, order: seq<Ptr>, gone: seq<Ptr>)
    requires s.g.dtype == s0.g.dtype - Elems(order) && Elems(gone) !! Elems(order)
    ensures Keep(order + gone, NeedsDrop(types, s0.g)) == Keep(order, NeedsDrop(types, s0.g)) + Keep(gone, NeedsDrop(types, s.g))
  {
    KeepSum(order, gone, NeedsDrop(types, s0.g));
    forall n | n in gone ensures n in NeedsDrop(types, s0.g) <==> n in NeedsDrop(types, s.g) {
      assert n in Elems(gone);
    }
    KeepSame(gone, NeedsDrop(types, s0.g), NeedsDrop(types, s.g));
  }

  lemma SweepOrder(
      types: seq<TypeInfo>, passes: seq<nat>, s0: State, s: State, mem: map<Ptr, GcHead>, p: nat,
      ns: seq<Ptr>, k: nat, order: seq<Ptr>, head: Option<Ptr>, rem: seq<Ptr>, gone: seq<Ptr>)
    requires k <= |passes| && p < |s0.acc.used|
    requires var d := A.Bytes(Elems(ns), s0.g.dtype, LayoutSizes(types)); d <= s0.acc.used[p] && d <= s0.acc.total
    requires SweepAt(types, passes, s0, s, mem, p, ns, k, order, head, rem)
    requires forall n :: n in gone ==> n in rem
    ensures s.g.dtype == s0.g.dtype - Elems(order) && Elems(gone) !! Elems(order)
  {
    hide D.Peel, IsList, A.Bytes;
    OrderElems(passes, PassMap(types, s0.g), ns, k, order, rem);
    forall n | n in gone ensures n !in order {
      assert n in Elems(rem);
    }
  }

  lemma SweepEmpties(
      types: seq<TypeInfo>, passes: seq<nat>, s0: State, s: State, mem: map<Ptr, GcHead>, p: nat,
      ns: seq<Ptr>, k: nat, order: seq<Ptr>, head: Option<Ptr>, rem: seq<Ptr>)
    requires k <= |passes| && p < |s0.acc.used|
    requires var d := A.Bytes(Elems(ns), s0.g.dtype, LayoutSizes(types)); d <= s0.acc.used[p] && d <= s0.acc.total
    requires SweepAt(types, passes, s0, s, mem, p, ns, k, order, head, rem) && Elems(order) == Elems(ns)
    ensures head == None
  {
    hide D.Peel, A.Bytes;
    OrderElems(passes, PassMap(types, s0.g), ns, k, order, rem);
    ElemsEmpty(rem);
  }

  // ---- new nodes ----

  /** A node in memory but on no chain yet. */
  ghost function WithHeader(s: State, p: nat, n: Ptr, kids: seq<Ptr>, dtype: nat): State {
    s.(g := Graph(s.g.kids[n := kids], s.g.part[n := p], s.g.dtype[n := dtype], s.g.linked, s.g.chain),
       m := s.m.(color := s.m.color[n := White]), weak := W.Enroll(s.weak, n))
  }

  ghost function Created(s: State, p: nat, n: Ptr, kids: seq<Ptr>, dtype: nat, size: nat): State
    requires p < |s.acc.used|
  {
    WithHeader(s, p, n, kids, dtype).(acc := A.Charge(s.acc, p, size))
  }

  lemma TypeIndexOk(dtype: nat)
    requires dtype < 0x100
    ensures TypeIndex(dtype as bv32) == dtype && dtype as bv32 < 0x100
  {
    var w := WordOf(dtype);
    WordRoundTrip(w);
    SmallWord(w);
  }

  /** Counting up to `x` in words. */
  lemma {:induction false} WordOf(x: nat) returns (w: bv32)
    requires x < 0x100
    ensures w as nat == x
  {
    if x == 0 {
      w := 0;
    } else {
      w := WordOf(x - 1);
      WordNext(w);
      w := w + 1;
    }
  }

  lemma WordNext(w: bv32)
    requires w as nat < 0x100
    ensures (w + 1) as nat == w as nat + 1
  {
    SmallWord(w);
  }

  lemma SmallWord(w: bv32)
    requires w as nat < 0x100
    ensures w < 0x100
  {
  }

  lemma WordRoundTrip(w: bv32)
    ensures (w as nat) as bv32 == w
  {
  }

  lemma FreshIsUnused(s: State, n: Ptr)
    requires MarksOk(s.g, s.m) && Prot(s) <= s.g.linked && n !in s.g.part
    ensures n !in s.m.listed && n !in Prot(s)
  {
  }

  /** A new header represents the new node: White, of its type, with no flag set but ARENA_ALLOC, if the arena served it. */
  lemma RowsInsert(mem: map<Ptr, GcHead>, s: State, flags: Flags, p: nat, n: Ptr, kids: seq<Ptr>, dtype: nat, arena: bool)
    requires RowsOk(mem, s, flags) && n !in mem && dtype < 0x100 && n !in s.m.listed && n !in Prot(s)
    ensures var w := H.NewWord(dtype as bv32);
            var h := GcHead(if arena then H.Insert(w, H.ARENA_ALLOC) else w, p, W.NULL, None, kids);
            RowsOk(mem[n := h], WithHeader(s, p, n, kids, dtype), NewFlags(flags, n, arena))
  {
    hide H.NewWord, H.Insert, RowOk, RowsOk;
    var w := H.NewWord(dtype as bv32);
    var h := GcHead(if arena then H.Insert(w, H.ARENA_ALLOC) else w, p, W.NULL, None, kids);
    NewRow(s, flags, p, n, kids, dtype, arena);
    RowsExtend(mem, s, WithHeader(s, p, n, kids, dtype), flags, NewFlags(flags, n, arena), n, h);
  }

  lemma NewRow(s: State, flags: Flags, p: nat, n: Ptr, kids: seq<Ptr>, dtype: nat, arena: bool)
    requires dtype < 0x100 && n !in s.m.listed && n !in Prot(s)
    ensures var w := H.NewWord(dtype as bv32);
            var h := GcHead(if arena then H.Insert(w, H.ARENA_ALLOC) else w, p, W.NULL, None, kids);
            RowOk(h, n, WithHeader(s, p, n, kids, dtype), NewFlags(flags, n, arena))
  {
    H.DecodeNew(dtype as bv32, arena);
    TypeIndexOk(dtype);
    hide H.NewWord, H.Insert, H.Decode, H.HasColor, TypeIndex;
  }

  lemma RowsExtend(mem: map<Ptr, GcHead>, s: State, s': State, flags: Flags, flags': Flags, n: Ptr, h: GcHead)
    requires RowsOk(mem, s, flags) && n !in mem && RowOk(h, n, s', flags')
    requires s'.g.part.Keys == s.g.part.Keys + {n}
    requires forall x {:trigger mem[x]} :: x in mem ==> SameAt(s, s', flags, flags', x)
    ensures RowsOk(mem[n := h], s', flags')
  {
  }

  lemma CreatedLedger(types: seq<TypeInfo>, passes: seq<nat>, s: State, p: nat, n: Ptr, kids: seq<Ptr>, dtype: nat)
    requires Wf(s.g) && LedgerOk(types, passes, s)
    requires p < |s.g.chain| && n !in s.g.part && dtype < |types| && !A.OverLimit(s.acc, types[dtype].layoutSize)
    ensures p < |s.acc.used| && |types| <= 0x100 && types[dtype].layoutSize < 0x8000_0000
    ensures LedgerOk(types, passes, Created(s, p, n, kids, dtype, types[dtype].layoutSize))
  {
    var layout := LayoutSizes(types);
    var s' := Created(s, p, n, kids, dtype, types[dtype].layoutSize);
    var g1 := Attach(s.g, p, n, kids, dtype);
    W.EnrollOk(s.g.part.Keys, s.weak, n);
    assert s'.g.part.Keys == s.g.part.Keys + {n};
    assert RegistryOk(types, passes, s'.g);
    hide W.WeakOk, A.Bytes, A.LimitOk, RegistryOk;
    A.ChargeOk(s.g, layout, s.acc, p, n, kids, dtype);
    forall q | 0 <= q < |s'.acc.used| ensures s'.acc.used[q] == A.Bytes(A.InPartition(s'.g, q), s'.g.dtype, layout) {
      assert A.InPartition(s'.g, q) == A.InPartition(g1, q);
    }
  }

  lemma WithHeaderOk(s: State, p: nat, n: Ptr, kids: seq<Ptr>, dtype: nat)
    requires MarksOk(s.g, s.m) && ChainsOk(s.g) && p < |s.g.chain| && n !in s.g.part
    ensures var s' := WithHeader(s, p, n, kids, dtype); MarksOk(s'.g, s'.m) && ChainsOk(s'.g)
  {
  }

  /** `n` at the head of its partition's chain. */
  ghost function Prepended(g: Graph, p: nat, n: Ptr): Graph
    requires p < |g.chain|
  {
    g.(linked := g.linked + {n}, chain := g.chain[p := [n] + g.chain[p]])
  }

  lemma PrependedOk(g: Graph, m: Marks, p: nat, n: Ptr)
    requires MarksOk(g, m) && ChainsOk(g) && p < |g.chain| && n in g.part && g.part[n] == p && n !in g.linked
    ensures MarksOk(Prepended(g, p, n), m) && ChainsOk(Prepended(g, p, n))
  {
    var c := Prepended(g, p, n).chain[p];
    assert c[0] == n && c[1..] == g.chain[p];
    assert forall x :: x in c <==> x == n || x in g.chain[p];
    assert n !in g.chain[p];
  }

  lemma OnlyNextsOne(mem: map<Ptr, GcHead>, n: Ptr, next: Option<Ptr>)
    requires n in mem
    ensures OnlyNexts(mem, mem[n := mem[n].(next := next)], {n})
  {
  }

  lemma PartsPrepend(mem: map<Ptr, GcHead>, partitions: seq<GcPartition>, s: State, s': State, p: nat, n: Ptr)
    requires PartsOk(mem, partitions, s) && ChainsOk(s.g) && p < |partitions| && n in mem && n !in s.g.linked
    requires s'.g.chain == s.g.chain[p := [n] + s.g.chain[p]] && s'.m == s.m && s'.acc == s.acc
    ensures PartsOk(mem[n := mem[n].(next := partitions[p].nodes)], partitions[p := partitions[p].(nodes := Some(n))], s')
  {
    var mem', partitions' := mem[n := mem[n].(next := partitions[p].nodes)], partitions[p := partitions[p].(nodes := Some(n))];
    forall q | 0 <= q < |partitions'| ensures PartOk(mem', partitions'[q], q, s') {
      assert PartOk(mem, partitions[q], q, s);
      var c := s.g.chain[q];
      forall x | x in c ensures x in mem && x in mem' && mem'[x].next == mem[x].next {
        assert x in s.g.chain[q] && Linked(s.g, x);
        var i :| 0 <= i < |c| && c[i] == x;
        var next := NextOf(c, i);
      }
      ListUntouched(mem, mem', partitions[q].nodes, c);
      if q == p { ConsIsList(mem', n, partitions[q].nodes, c); }
    }
  }

  lemma ConsIsList(mem: map<Ptr, GcHead>, n: Ptr, head: Option<Ptr>, xs: seq<Ptr>)
    requires IsList(mem, head, xs) && n in mem && mem[n].next == head
    ensures IsList(mem, Some(n), [n] + xs)
  {
    var ys := [n] + xs;
    forall k | 0 <= k < |ys| ensures ys[k] in mem && mem[ys[k]].next == NextOf(ys, k) {
      if k > 0 {
        var next := NextOf(xs, k - 1);
      }
    }
  }

  // ---- scopes ----

  lemma CachedInMemory(s: State, at: S.Place, n: Ptr)
    requires MarksOk(s.g, s.m) && S.ScopesOk(s.g, s.scopes)
    requires S.IsScope(s.scopes.stacks, at) && n in S.ScopeAt(s.scopes.stacks, at).cache
    ensures n in s.g.part && n in s.scopes.home
  {
    assert S.ScopeOk(s.scopes.home, at, S.ScopeAt(s.scopes.stacks, at));
  }

  lemma ShadesRightIff(g: Graph, m: Marks, q: nat, n: Ptr)
    requires MarksOk(g, m) && Linked(g, n)
    ensures n in m.color && |m.gray| == |m.marking| == |g.chain| && (MarksOk(g, ProtectedMarks(m, q, n)) <==> ShadesRight(g, m, q, n))
  {
    if q < |g.chain| { P.AddNodeMarksOkIff(g, m, q, n); }
  }

  lemma FreshUnprotected(s: State, addr: Option<Ptr>)
    requires MarksOk(s.g, s.m) && Prot(s) <= s.g.linked && (addr.Some? ==> addr.value !in s.g.part)
    ensures addr.Some? ==> addr.value !in Prot(s)
  {
  }

  // ---- partitions ----

  lemma PartsNew(mem: map<Ptr, GcHead>, partitions: seq<GcPartition>, s: State)
    requires PartsOk(mem, partitions, s)
    ensures PartsOk(mem, partitions + [GcPartition(None, [], false, 0)], WithPartition(s))
  {
    var partitions' := partitions + [GcPartition(None, [], false, 0)];
    forall q | 0 <= q < |partitions'| ensures PartOk(mem, partitions'[q], q, WithPartition(s)) {
      if q < |partitions| { assert PartOk(mem, partitions[q], q, s); }
    }
  }

  lemma WithPartitionOk(s: State)
    requires MarksOk(s.g, s.m) && ChainsOk(s.g)
    ensures MarksOk(WithPartition(s).g, WithPartition(s).m) && ChainsOk(WithPartition(s).g)
  {
  }

  /** Between the two phases of removal: the slots of the nodes of `c` hold nothing. */
  ghost predicate SlotsEmpty(w: W.WeakTable, slots: seq<W.Slot>, c: seq<Ptr>) {
    forall n {:trigger n in c} :: n in c && n in w.ids && w.ids[n].version != 0 ==>
      w.ids[n].index < |slots| && slots[w.ids[n].index].node == None
  }

  lemma ReleaseTurn(
      types: seq<TypeInfo>, passes: seq<nat>, mem0: map<Ptr, GcHead>, s: State, flags: Flags, slots: seq<W.Slot>,
      c: seq<Ptr>, i: nat)
    requires RowsOk(mem0, s, flags) && RegistryOk(types, passes, s.g) && Distinct(c) && i < |c| && c[i] in mem0
    requires SlotsEmpty(s.weak, slots, c)
    ensures var n, h := c[i], mem0[c[i]]; var mem := mem0 - Elems(c[..i]);
            && n in mem && mem[n] == h && TypeIndex(H.TypeBits(h.attrs)) < |types|
            && types[TypeIndex(H.TypeBits(h.attrs))].layoutSize == A.SizeOf(s.g.dtype, LayoutSizes(types), n)
            && (h.weakId.version != 0 ==>
                  h.weakId.index < |slots| && slots[h.weakId.index := slots[h.weakId.index].(node := None)] == slots)
            && mem - {n} == mem0 - Elems(c[..i + 1])
            && A.SeqBytes(c[..i + 1], s.g.dtype, LayoutSizes(types))
                 == A.SeqBytes(c[..i], s.g.dtype, LayoutSizes(types)) + A.SizeOf(s.g.dtype, LayoutSizes(types), n)
  {
    var n := c[i];
    RowAt(mem0, s, flags, n);
    hide RowsOk;
    assert n in c && s.g.dtype[n] < |types|;
    assert c[..i + 1][..i] == c[..i];
    assert Elems(c[..i + 1]) == Elems(c[..i]) + {n} by { assert c[..i + 1] == c[..i] + [n]; }
    assert n !in c[..i];
  }

  lemma WfKeys(g: Graph)
    requires Wf(g)
    ensures g.dtype.Keys == g.part.Keys
  {
  }

  /** With nothing unlinked left over, a partition is its chain. */
  lemma WholeChain(g: Graph, p: nat)
    requires Wf(g) && ChainsOk(g) && p < |g.chain| && forall n :: InLimbo(g, n) ==> g.part[n] != p
    ensures Distinct(g.chain[p]) && Elems(g.chain[p]) == A.InPartition(g, p)
  {
    InChain(g, p);
    forall n ensures n in Elems(g.chain[p]) <==> n in A.InPartition(g, p) {
      assert n in g.part ==> Linked(g, n) || InLimbo(g, n);
    }
  }

  lemma PartitionFits(types: seq<TypeInfo>, s: State, p: nat)
    requires A.AccountsOk(s.g, LayoutSizes(types), s.acc) && p < |s.g.chain|
    requires Distinct(s.g.chain[p]) && Elems(s.g.chain[p]) == A.InPartition(s.g, p)
    ensures p < |s.acc.used| && s.acc.used[p] <= s.acc.total
    ensures s.acc.used[p] == A.SeqBytes(s.g.chain[p], s.g.dtype, LayoutSizes(types))
  {
    A.WholePartition(s.g, LayoutSizes(types), s.acc, p);
    A.SeqBytesIsBytes(s.g.chain[p], s.g.dtype, LayoutSizes(types));
    A.UsedWithinTotal(s.acc, p);
  }

  lemma RemovedFormOk(g: Graph, m: Marks, p: nat)
    requires MarksOk(g, m) && ChainsOk(g) && p < |g.chain|
    ensures ChainsOk(RemovedGraph(g, p)) && MarksOk(RemovedGraph(g, p), RemovedMarks(g, m, p))
    ensures RemovedGraph(g, p).part.Keys == g.part.Keys - A.InPartition(g, p)
  {
    var g' := RemovedGraph(g, p);
    forall n | Linked(g', n) ensures n in g'.chain[g'.part[n]] {
      assert Linked(g, n);
    }
  }

  lemma RowsRemoveAll(mem: map<Ptr, GcHead>, s: State, s': State, flags: Flags, gone: set<Ptr>)
    requires RowsOk(mem, s, flags) && s'.g.part.Keys == s.g.part.Keys - gone
    requires forall x {:trigger mem[x]} :: x in mem && x !in gone ==> SameAt(s, s', flags, flags, x)
    ensures RowsOk(mem - gone, s', flags)
  {
  }

  lemma PartsReset(mem: map<Ptr, GcHead>, partitions: seq<GcPartition>, s: State, s': State, p: nat)
    requires PartsOk(mem, partitions, s) && ChainsOk(s.g) && p < |partitions|
    requires s'.g.chain == s.g.chain[p := []] && s'.m.gray == s.m.gray[p := []] && s'.m.marking == s.m.marking[p := false]
    requires s'.acc.used == s.acc.used[p := 0]
    ensures PartsOk(mem - Elems(s.g.chain[p]), partitions[p := GcPartition(None, [], false, 0)], s')
  {
    var mem', partitions' := mem - Elems(s.g.chain[p]), partitions[p := GcPartition(None, [], false, 0)];
    forall q | 0 <= q < |partitions'| ensures PartOk(mem', partitions'[q], q, s') {
      assert PartOk(mem, partitions[q], q, s);
      if q != p {
        var c := s.g.chain[q];
        forall x | x in c ensures x in mem && x in mem' && mem'[x].next == mem[x].next {
          assert x in s.g.chain[q] && x !in s.g.chain[p];
          var i :| 0 <= i < |c| && c[i] == x;
          var next := NextOf(c, i);
        }
        ListUntouched(mem, mem', partitions[q].nodes, c);
      }
    }
  }

  /** After finalizing, every slot of the partition is empty, and no handle upgrades to one of its nodes. */
  lemma FinalizedSlots(s: State, p: nat)
    requires W.WeakOk(s.g.part.Keys, s.weak) && p < |s.g.chain| && Elems(s.g.chain[p]) <= s.g.part.Keys
    ensures var s' := Finalized(s, p);
            && SlotsEmpty(s'.weak, s'.weak.slots, s.g.chain[p])
            && forall id {:trigger W.Upgrade(s'.weak, id)} ::
                 W.Upgrade(s'.weak, id).Some? ==> W.Upgrade(s'.weak, id).value !in s.g.chain[p]
  {
    var s' := Finalized(s, p);
    forall n | n in s.g.chain[p] && s'.weak.ids[n].version != 0
      ensures s'.weak.ids[n].index < |s'.weak.slots| && s'.weak.slots[s'.weak.ids[n].index].node == None
    {
      assert n in Elems(s.g.chain[p]);
      assert s.weak.slots[s.weak.ids[n].index] == W.Slot(s.weak.ids[n].version, Some(n));
    }
  }

  /** Two phases with nothing in between remove the partition. */
  lemma TwoPhases(layout: seq<nat>, s: State, p: nat)
    requires W.WeakOk(s.g.part.Keys, s.weak) && MarksOk(s.g, s.m) && A.AccountsOk(s.g, layout, s.acc) && p < |s.g.chain|
    requires Elems(s.g.chain[p]) == A.InPartition(s.g, p)
    ensures p < |s.acc.used| && s.acc.used[p] <= s.acc.total
    ensures Deallocated(Finalized(s, p), p) == RemovePartition(layout, s, p)
  {
    A.UsedWithinTotal(s.acc, p);
    hide W.WeakOk, A.AccountsOk, A.LimitOk, S.ClearPartition, RemovedGraph, RemovedMarks;
    assert W.Forget(s.weak, A.InPartition(s.g, p)) == W.WeakTable(
      s.weak.ids - A.InPartition(s.g, p), W.Forget(s.weak, Elems(s.g.chain[p])).slots, s.weak.issued);
  }

  // ---- traversal ----

  /** What the linked nodes trace to. */
  ghost function LinkedKids(g: Graph): map<Ptr, seq<Ptr>> {
    map n | n in g.linked && n in g.kids :: g.kids[n]
  }

  lemma LinkedKidsClosed(g: Graph)
    requires Wf(g) && NoDangling(g)
    ensures T.Closed(LinkedKids(g)) && forall n :: n in LinkedKids(g) <==> Linked(g, n)
  {
    var kids := LinkedKids(g);
    forall n, k | n in kids && k in kids[n] ensures k in kids {
      assert Edge(g, n, k);
    }
  }

  lemma PushNext(children: seq<Ptr>, traced: seq<Ptr>, u: Ptr, unseen: set<Ptr>)
    requires traced != [] && traced <= children
    ensures var t, k := |traced|, traced[|traced| - 1];
            && k in children && traced[..t - 1] <= children
            && T.Entries(u, Keep(Popped(children, t - 1), unseen))
                 == T.Entries(u, Keep(Popped(children, t), unseen)) + (if k in unseen then [T.Visit(k, Some(u))] else [])
  {
    PopNext(children, traced);
    KeepOneMore(Popped(children, |traced|), traced[|traced| - 1], unseen);
    hide Keep, Popped;
  }

  lemma TracedLinked(g: Graph, n: Ptr)
    requires Wf(g) && NoDangling(g) && Linked(g, n)
    ensures n in g.kids && forall k :: k in Dedup(g.kids[n]) ==> k in g.part
  {
    forall k | k in Dedup(g.kids[n]) ensures k in g.part {
      assert Edge(g, n, k);
    }
  }

  /** The invariant of the state machine supplies what the methods of the heap ask for. */
  lemma InvSuffices(types: seq<TypeInfo>, passes: seq<nat>, closed: set<nat>, s: State)
    requires Inv(LayoutSizes(types), closed, s) && RegistryOk(types, passes, s.g)
    ensures MarksOk(s.g, s.m) && ChainsOk(s.g) && NoDangling(s.g) && LedgerOk(types, passes, s)
    ensures Prot(s) <= s.g.linked && S.ScopesOk(s.g, s.scopes)
  {
  }
}
