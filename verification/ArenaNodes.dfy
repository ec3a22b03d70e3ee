/**
 The ARENA_ALLOC flag and the arena's blocks: the flagged headers of a partition are exactly the nodes its arena
 serves, so the `collect_hole` calls that the flag decides are the arena's own live blocks.
 */
module ArenaNodes {
  import opened Basics
  import opened Graphs
  import opened Machine
  import opened Memory
  import opened Collection
  import opened Placement
  import A = Accounting
  import Ar = Arena
  import D = DropOrder

  /**
   The nodes `pl` places are those of partition `p` that carry the flag, each with its type's size in words
   (`words` lists the registry's).
   */
  ghost predicate FlagsPlaced(g: Graph, arena: set<Ptr>, words: seq<nat>, p: nat, pl: Placed) {
    && (forall n {:trigger n in pl.at} {:trigger n in g.part} :: n in pl.at <==> n in g.part && g.part[n] == p && n in arena)
    && (forall n {:trigger pl.at[n]} :: n in pl.at ==>
          n in pl.words && n in g.dtype && g.dtype[n] < |words| && pl.words[n] == words[g.dtype[n]])
  }

  // ---- the calls of a sweep ----

  /** `collect_hole` on each of `holes` in turn, with the size the registry gives, legal every time. */
  ghost predicate CallsLegal(pl: Placed, g: Graph, words: seq<nat>, holes: seq<Ptr>)
    decreases |holes|
  {
    holes == [] ||
    (var n := holes[0];
     && n in pl.at && n in g.dtype && g.dtype[n] < |words|
     && Ar.Enabled(pl.arena, Ar.CollectOp(pl.at[n], words[g.dtype[n]]))
     && CallsLegal(Collected1(pl, n, words[g.dtype[n]]), g, words, holes[1..]))
  }

  /** One call of `collect_hole`. */
  function Collected1(pl: Placed, n: Ptr, size: nat): Placed
    requires n in pl.at
  {
    Placed(Ar.Collect(pl.arena, pl.at[n], size), pl.at - {n}, pl.words - {n})
  }

  ghost predicate SizesOk(g: Graph, words: seq<nat>, pl: Placed) {
    forall n {:trigger pl.at[n]} :: n in pl.at ==>
      n in pl.words && n in g.dtype && g.dtype[n] < |words| && pl.words[n] == words[g.dtype[n]]
  }

  lemma {:induction false} PlacedCallsLegal(capacity: nat, pl: Placed, g: Graph, words: seq<nat>, holes: seq<Ptr>)
    requires PlacedOk(capacity, pl) && SizesOk(g, words, pl) && Distinct(holes) && (forall n :: n in holes ==> n in pl.at)
    ensures CallsLegal(pl, g, words, holes)
    decreases |holes|
  {
    if holes != [] {
      var n := holes[0];
      assert pl.at[n] == pl.at[n];
      CollectOneOk(capacity, pl, n);
      hide PlacedOk;
      assert forall x :: x in holes[1..] ==> x in holes && x != n;
      PlacedCallsLegal(capacity, Collected1(pl, n, pl.words[n]), g, words, holes[1..]);
    }
  }

  /** Nodes the arena does not serve are passed over. */
  lemma {:induction false} OnlyPlacedMatter(pl: Placed, order: seq<Ptr>, S: set<Ptr>)
    requires pl.at.Keys == pl.words.Keys && Distinct(order)
    requires forall n :: n in order ==> (n in S <==> n in pl.at)
    ensures CollectAll(pl, order) == CollectAll(pl, Keep(order, S))
    decreases |order|
  {
    if order == [] {
      KeepNothing(order, S);
    } else {
      var n, rest := order[0], order[1..];
      assert order == [n] + rest;
      KeepSum([n], rest, S);
      KeepLast([], n, S);
      KeepNothing<Ptr>([], S);
      assert [] + [n] == [n];
      assert forall x :: x in rest ==> x in order && x != n;
      if n in S {
        var pl1 := Collected1(pl, n, pl.words[n]);
        OnlyPlacedMatter(pl1, rest, S);
        var kept := Keep(rest, S);
        assert ([n] + kept)[0] == n && ([n] + kept)[1..] == kept;
      } else {
        OnlyPlacedMatter(pl, rest, S);
        assert [] + Keep(rest, S) == Keep(rest, S);
      }
    }
  }

  /**
   A sweep of `p` that frees the nodes `order`, whatever part of them the arena serves: the calls it makes are those
   of flagged nodes in that order, each for a live block of the size the registry names, and afterwards the flags
   of what is left are again exactly the placement.
   */
  lemma SweepKeepsFlags(capacity: nat, g: Graph, arena: set<Ptr>, words: seq<nat>, p: nat, pl: Placed, order: seq<Ptr>)
    requires PlacedOk(capacity, pl) && FlagsPlaced(g, arena, words, p, pl)
    requires Distinct(order) && (forall n :: n in order ==> n in g.part && g.part[n] == p)
    ensures CallsLegal(pl, g, words, Keep(order, arena))
    ensures SweepArena(pl, order) == SweepArena(pl, Keep(order, arena))
    ensures PlacedOk(capacity, SweepArena(pl, order))
    ensures FlagsPlaced(Free(g, Elems(order)), arena, words, p, SweepArena(pl, order))
  {
    hide PlacedOk, SweepArena;
    WordsCover(capacity, pl);
    KeepDistinct(order, arena);
    PlacedCallsLegal(capacity, pl, g, words, Keep(order, arena));
    OnlyPlacedMatter(pl, order, arena);
    SameSweep(pl, order, Keep(order, arena));
    SweepArenaOk(capacity, pl, order);
    SweptWords(capacity, pl, order);
    SweptFlags(g, arena, words, p, pl, SweepArena(pl, order), order);
  }

  lemma WordsCover(capacity: nat, pl: Placed)
    requires PlacedOk(capacity, pl)
    ensures pl.words.Keys == pl.at.Keys
  {
  }

  lemma SameSweep(pl: Placed, a: seq<Ptr>, b: seq<Ptr>)
    requires CollectAll(pl, a) == CollectAll(pl, b)
    ensures SweepArena(pl, a) == SweepArena(pl, b)
  {
  }

  lemma {:induction false} CollectAllWords(pl: Placed, order: seq<Ptr>)
    ensures CollectAll(pl, order).words == pl.words - (set n | n in order && n in pl.at && n in pl.words)
    decreases |order|
  {
    if order == [] {
      assert pl.words - {} == pl.words;
    } else {
      var n := order[0];
      assert order == [n] + order[1..];
      if n in pl.at && n in pl.words {
        var pl1 := Collected1(pl, n, pl.words[n]);
        CollectAllWords(pl1, order[1..]);
        assert (set x | x in order && x in pl.at && x in pl.words)
            == {n} + (set x | x in order[1..] && x in pl1.at && x in pl1.words);
      } else {
        CollectAllWords(pl, order[1..]);
        assert (set x | x in order && x in pl.at && x in pl.words)
            == (set x | x in order[1..] && x in pl.at && x in pl.words);
      }
    }
  }

  lemma SweptWords(capacity: nat, pl: Placed, order: seq<Ptr>)
    requires pl.at.Keys == pl.words.Keys
    ensures SweepArena(pl, order).words == pl.words - Elems(order)
  {
    CollectAllWords(pl, order);
    hide CollectAll;
    assert pl.words - (set n | n in order && n in pl.at && n in pl.words) == pl.words - Elems(order);
  }

  lemma SweptFlags(g: Graph, arena: set<Ptr>, words: seq<nat>, p: nat, pl: Placed, pl': Placed, order: seq<Ptr>)
    requires FlagsPlaced(g, arena, words, p, pl)
    requires pl'.at == pl.at - Elems(order) && pl'.words == pl.words - Elems(order)
    ensures FlagsPlaced(Free(g, Elems(order)), arena, words, p, pl')
  {
  }

  // ---- `garbage_collect` ----

  /** The nodes a collection frees, in the order it frees them. */
  lemma FreedByCollection(layout: seq<nat>, s: State, p: nat, order: seq<Ptr>)
    requires Collectable(layout, s, p) && multiset(order) == multiset(Garbage(s, p))
    ensures Distinct(order) && (forall n :: n in order ==> n in s.g.part && s.g.part[n] == p)
    ensures var s' := Collected(layout, s, p);
            s'.g.part == s.g.part - Elems(order) && s'.g.dtype == s.g.dtype - Elems(order)
  {
    GarbageOk(layout, s, p);
    hide Garbage, A.AccountsOk, A.LimitOk, Marked;
    var ns := Garbage(s, p);
    SameMultisetSameElems(order, ns);
    assert Unlinked(s, p).g.part == s.g.part && Unlinked(s, p).g.dtype == s.g.dtype by { UnlinkKeepsColumns(Marked(s, p), p); }
    forall n | n in order ensures n in s.g.part && s.g.part[n] == p {
      assert n in Elems(ns) && n in A.InPartition(Unlinked(s, p).g, p);
    }
  }

  lemma SameMultisetSameElems(a: seq<Ptr>, b: seq<Ptr>)
    requires multiset(a) == multiset(b) && Distinct(b)
    ensures Elems(a) == Elems(b) && Distinct(a)
  {
    forall n ensures n in Elems(a) <==> n in Elems(b) {
      assert n in a <==> n in multiset(a);
      assert n in b <==> n in multiset(b);
    }
    assert Elems(a) == Elems(b);
    DistinctElemsSize(b);
    assert |multiset(a)| == |a| && |multiset(b)| == |b|;
    AllDifferent(a);
  }

  /** As many different elements as positions: no two are equal. */
  lemma {:induction false} AllDifferent(xs: seq<Ptr>)
    requires |Elems(xs)| == |xs|
    ensures Distinct(xs)
  {
    if xs != [] {
      var n := |xs| - 1;
      var init := xs[..n];
      assert xs == init + [xs[n]];
      assert Elems(xs) == Elems(init) + {xs[n]};
      ElemsAtMost(init);
      AllDifferent(init);
      assert xs[n] !in Elems(init);
    }
  }

  lemma {:induction false} ElemsAtMost(xs: seq<Ptr>)
    ensures |Elems(xs)| <= |xs|
  {
    if xs == [] {
      assert Elems(xs) == {};
    } else {
      var n := |xs| - 1;
      ElemsAtMost(xs[..n]);
      assert xs == xs[..n] + [xs[n]];
      assert Elems(xs) == Elems(xs[..n]) + {xs[n]};
    }
  }

  /**
   The whole collection: with `order` and `holes` as `Heap.GcHeap.GarbageCollect` reports them, the arena is handed
   exactly its own nodes among the freed ones, every call legal, and the flags of the collected heap are the new
   placement.
   */
  lemma CollectionKeepsFlags(
      capacity: nat, layout: seq<nat>, words: seq<nat>, s: State, arena: set<Ptr>, p: nat, pl: Placed, order: seq<Ptr>, holes: seq<Ptr>)
    requires PlacedOk(capacity, pl) && FlagsPlaced(s.g, arena, words, p, pl)
    requires Collectable(layout, s, p) && multiset(order) == multiset(Garbage(s, p)) && holes == Keep(order, arena)
    ensures CallsLegal(pl, s.g, words, holes) && Elems(holes) == Elems(order) * pl.at.Keys
    ensures PlacedOk(capacity, SweepArena(pl, holes))
    ensures FlagsPlaced(Collected(layout, s, p).g, arena, words, p, SweepArena(pl, holes))
  {
    hide PlacedOk, Collected, Collectable, SweepArena, CallsLegal;
    FreedByCollection(layout, s, p, order);
    SweepKeepsFlags(capacity, s.g, arena, words, p, pl, order);
    FlagsFollowColumns(Free(s.g, Elems(order)), Collected(layout, s, p).g, arena, words, p, SweepArena(pl, order));
  }

  /** Only owners and types matter: whatever leaves those alone keeps the tie. */
  lemma FlagsFollowColumns(g: Graph, g': Graph, arena: set<Ptr>, words: seq<nat>, p: nat, pl: Placed)
    requires FlagsPlaced(g, arena, words, p, pl) && g'.part == g.part && g'.dtype == g.dtype
    ensures FlagsPlaced(g', arena, words, p, pl)
  {
  }

  // ---- allocation and removal ----

  /**
   `alloc_node_mem` writes the flag exactly when the arena served the block (src/mem.rs:99-146), so the tie holds
   after it: for the partition it allocates in ...
   */
  lemma AllocKeepsFlags(
      capacity: nat, g: Graph, flags: Flags, words: seq<nat>, p: nat, pl: Placed, n: Ptr, kids: seq<Ptr>, dtype: nat, align: nat)
    requires PlacedOk(capacity, pl) && FlagsPlaced(g, flags.arena, words, p, pl) && Wf(g) && n !in g.part
    requires p < |g.chain| && dtype < |words| && align > 0
    ensures var pl' := Place(capacity, pl, n, words[dtype], align);
            && PlacedOk(capacity, pl')
            && FlagsPlaced(Attach(g, p, n, kids, dtype), NewFlags(flags, n, n in pl'.at).arena, words, p, pl')
  {
    hide PlacedOk, FlagsPlaced, Ar.Alloc;
    NotPlaced(g, flags.arena, words, p, pl, n);
    PlaceOk(capacity, pl, n, words[dtype], align);
    var r := Ar.Alloc(capacity, pl.arena, words[dtype], align);
    if r.1.Some? {
      ServedKeepsFlags(g, flags, words, p, pl, n, kids, dtype, r.0, r.1.value);
    } else {
      AllocElsewhereKeepsFlags(g, flags, words, p, pl, p, n, kids, dtype, false);
    }
  }

  lemma NotPlaced(g: Graph, arena: set<Ptr>, words: seq<nat>, p: nat, pl: Placed, n: Ptr)
    requires FlagsPlaced(g, arena, words, p, pl) && n !in g.part
    ensures n !in pl.at
  {
  }

  lemma ServedKeepsFlags(
      g: Graph, flags: Flags, words: seq<nat>, p: nat, pl: Placed, n: Ptr, kids: seq<Ptr>, dtype: nat, ar: Ar.State, o: nat)
    requires FlagsPlaced(g, flags.arena, words, p, pl) && n !in g.part && p < |g.chain| && dtype < |words|
    ensures FlagsPlaced(Attach(g, p, n, kids, dtype), NewFlags(flags, n, true).arena, words, p,
                        Placed(ar, pl.at[n := o], pl.words[n := words[dtype]]))
  {
    assert n !in pl.at;
  }

  /** ... which the system allocator leaves as it was, as it does every other partition. */
  lemma AllocElsewhereKeepsFlags(
      g: Graph, flags: Flags, words: seq<nat>, p: nat, pl: Placed, q: nat, n: Ptr, kids: seq<Ptr>, dtype: nat, served: bool)
    requires FlagsPlaced(g, flags.arena, words, p, pl) && Wf(g) && n !in g.part && q < |g.chain| && (q == p ==> !served)
    ensures FlagsPlaced(Attach(g, q, n, kids, dtype), NewFlags(flags, n, served).arena, words, p, pl)
  {
    assert n !in pl.at;
  }

  /** Removing the partition replaces its arena (src/partition.rs:312), and no header of it is left. */
  lemma RemovalKeepsFlags(g: Graph, arena: set<Ptr>, words: seq<nat>, p: nat)
    requires Wf(g) && p < |g.chain|
    ensures FlagsPlaced(RemovedGraph(g, p), arena, words, p, Placed(Ar.FRESH, map[], map[]))
  {
  }
}
