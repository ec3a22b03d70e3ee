/**
 One partition's nodes in its arena: which node sits in which block, through allocation, sweeps and removal.
 This is what makes every `collect_hole` of a sweep a legal one.
 */
module Placement {
  import opened Basics
  import opened Arena

  /** The arena, the offsets of the nodes it serves, and their layout sizes and alignments in words. */
  datatype Placed = Placed(arena: State, at: map<Ptr, nat>, words: map<Ptr, nat>)

  function BlockOf(pl: Placed, n: Ptr): Hole
    requires n in pl.at && n in pl.words
  {
    Hole(pl.at[n], Needed(pl.words[n]))
  }

  /** Arena nodes and live blocks are in bijection, each block as large as its node's layout. */
  ghost predicate PlacedOk(capacity: nat, pl: Placed) {
    ArenaOk(capacity, pl.arena) && Fitted(pl.at, pl.words, pl.arena.live)
  }

  ghost predicate Fitted(at: map<Ptr, nat>, words: map<Ptr, nat>, live: map<nat, nat>) {
    && words.Keys == at.Keys
    && (forall n {:trigger at[n]} :: n in at ==> at[n] in live && live[at[n]] == Needed(words[n]))
    && (forall n, x {:trigger at[n], at[x]} :: n in at && x in at && n != x ==> at[n] != at[x])
    && (forall o {:trigger o in live} :: o in live ==> exists n {:trigger at[n]} :: n in at && at[n] == o)
  }

  /** No two arena nodes share a word, and none reaches past the arena. */
  lemma NodesDisjoint(capacity: nat, pl: Placed, n: Ptr, x: Ptr)
    requires PlacedOk(capacity, pl) && n in pl.at && x in pl.at && n != x
    ensures n in pl.words && x in pl.words
    ensures Apart(BlockOf(pl, n), BlockOf(pl, x)) && End(BlockOf(pl, n)) <= capacity
  {
    assert Fits(Hole(pl.at[n], pl.arena.live[pl.at[n]]), pl.arena.bump);
  }

  // ---- allocation ----

  /** The arena path of `alloc_node_mem` (src/mem.rs:96-146); when the arena refuses, the node is placed elsewhere. */
  function Place(capacity: nat, pl: Placed, n: Ptr, words: nat, align: nat): Placed
    requires align > 0
  {
    var r := Alloc(capacity, pl.arena, words, align);
    if r.1 == None then pl else Placed(r.0, pl.at[n := r.1.value], pl.words[n := words])
  }

  lemma PlaceOk(capacity: nat, pl: Placed, n: Ptr, words: nat, align: nat)
    requires PlacedOk(capacity, pl) && n !in pl.at && align > 0
    ensures PlacedOk(capacity, Place(capacity, pl, n, words, align))
  {
    AllocOk(capacity, pl.arena, words, align);
    hide ArenaOk, Alloc, Needed, Fitted;
    var r := Alloc(capacity, pl.arena, words, align);
    if r.1.Some? { FittedOne(pl.at, pl.words, pl.arena.live, n, r.1.value, words); }
  }

  lemma FittedOne(at: map<Ptr, nat>, words: map<Ptr, nat>, live: map<nat, nat>, n: Ptr, o: nat, size: nat)
    requires Fitted(at, words, live) && n !in at && o !in live
    ensures Fitted(at[n := o], words[n := size], live[o := Needed(size)])
  {
    hide Needed;
    var at' := at[n := o];
    forall b | b in live ensures exists x {:trigger at'[x]} :: x in at' && at'[x] == b {
      var x :| x in at && at[x] == b;
      assert at'[x] == b;
    }
    assert at'[n] == o;
  }

  /** A node is placed exactly when the arena serves it, at the block it was given; no other node moves. */
  lemma PlaceEffect(capacity: nat, pl: Placed, n: Ptr, words: nat, align: nat)
    requires align > 0 && n !in pl.at
    ensures var r, pl' := Alloc(capacity, pl.arena, words, align), Place(capacity, pl, n, words, align);
            && (n in pl'.at <==> r.1.Some?) && (r.1.Some? ==> pl'.arena == r.0 && pl'.at[n] == r.1.value && n in pl'.words && pl'.words[n] == words)
            && (r.1 == None ==> pl' == pl) && pl'.at - {n} == pl.at
  {
    hide Alloc;
    var r := Alloc(capacity, pl.arena, words, align);
    if r.1.Some? { assert pl.at[n := r.1.value] - {n} == pl.at; } else { assert pl.at - {n} == pl.at; }
  }

  // ---- sweeping ----

  /** Disposing the nodes of `order`: those in the arena become holes, or rewind the frontier (src/mark_sweep.rs:521-540). */
  function CollectAll(pl: Placed, order: seq<Ptr>): Placed
    decreases |order|
  {
    if order == [] then pl
    else
      var n := order[0];
      var pl1 := if n in pl.at && n in pl.words
                 then Placed(Collect(pl.arena, pl.at[n], pl.words[n]), pl.at - {n}, pl.words - {n})
                 else pl;
      CollectAll(pl1, order[1..])
  }

  lemma CollectOneOk(capacity: nat, pl: Placed, n: Ptr)
    requires PlacedOk(capacity, pl) && n in pl.at
    ensures n in pl.words && Enabled(pl.arena, CollectOp(pl.at[n], pl.words[n]))
    ensures PlacedOk(capacity, Placed(Collect(pl.arena, pl.at[n], pl.words[n]), pl.at - {n}, pl.words - {n}))
  {
    assert pl.arena.live[pl.at[n]] == Needed(pl.words[n]);
    CollectOk(capacity, pl.arena, pl.at[n], pl.words[n]);
    hide ArenaOk, Needed, Fitted;
    UnfittedOne(pl.at, pl.words, pl.arena.live, n);
  }

  lemma UnfittedOne(at: map<Ptr, nat>, words: map<Ptr, nat>, live: map<nat, nat>, n: Ptr)
    requires Fitted(at, words, live) && n in at
    ensures Fitted(at - {n}, words - {n}, live - {at[n]})
  {
    hide Needed;
    var at' := at - {n};
    forall b | b in live - {at[n]} ensures exists x {:trigger at'[x]} :: x in at' && at'[x] == b {
      var x :| x in at && at[x] == b;
      assert at'[x] == b;
    }
  }

  /** Every `collect_hole` of a sweep is for a live block of exactly the size it was asked for. */
  lemma {:induction false} CollectAllOk(capacity: nat, pl: Placed, order: seq<Ptr>)
    requires PlacedOk(capacity, pl)
    ensures PlacedOk(capacity, CollectAll(pl, order)) && CollectAll(pl, order).at == pl.at - Elems(order)
    decreases |order|
  {
    hide PlacedOk, Collect;
    if order == [] {
      assert pl.at - Elems(order) == pl.at;
    } else {
      var n := order[0];
      LessHead(pl.at, order);
      if n in pl.at {
        CollectOneOk(capacity, pl, n);
        CollectAllOk(capacity, Placed(Collect(pl.arena, pl.at[n], pl.words[n]), pl.at - {n}, pl.words - {n}), order[1..]);
      } else {
        CollectAllOk(capacity, pl, order[1..]);
      }
    }
  }

  lemma LessHead(at: map<Ptr, nat>, order: seq<Ptr>)
    requires order != []
    ensures at - Elems(order) == at - {order[0]} - Elems(order[1..])
    ensures order[0] !in at ==> at - Elems(order) == at - Elems(order[1..])
  {
    assert order == [order[0]] + order[1..];
    assert Elems(order) == {order[0]} + Elems(order[1..]);
  }

  /** A sweep as the arena sees it: all the holes, then `finish_sweep` (src/mark_sweep.rs:487-562). */
  function SweepArena(pl: Placed, order: seq<Ptr>): Placed {
    var pl1 := CollectAll(pl, order);
    pl1.(arena := Finish(pl1.arena))
  }

  /** The surviving nodes keep their blocks; when none survives the arena is as new. */
  lemma SweepArenaOk(capacity: nat, pl: Placed, order: seq<Ptr>)
    requires PlacedOk(capacity, pl)
    ensures var pl' := SweepArena(pl, order);
            && PlacedOk(capacity, pl') && pl'.at == pl.at - Elems(order) && pl'.arena.holes == []
            && (pl'.at == map[] ==> pl'.arena == FRESH)
  {
    CollectAllOk(capacity, pl, order);
    hide PlacedOk, Finish, CollectAll;
    FinishPlaced(capacity, CollectAll(pl, order));
  }

  lemma FinishPlaced(capacity: nat, pl: Placed)
    requires PlacedOk(capacity, pl)
    ensures PlacedOk(capacity, pl.(arena := Finish(pl.arena))) && Finish(pl.arena).holes == []
    ensures pl.at == map[] ==> Finish(pl.arena) == FRESH
  {
    FinishOk(capacity, pl.arena);
    hide ArenaOk, Merge, Sort, SameCover;
    NothingLive(capacity, pl);
  }

  lemma NothingLive(capacity: nat, pl: Placed)
    requires PlacedOk(capacity, pl)
    ensures pl.at == map[] ==> pl.arena.live == map[]
  {
    hide ArenaOk;
    if pl.at == map[] {
      assert forall o :: o !in pl.arena.live;
    }
  }

  /** Word `x` is free: above the frontier or in a pending hole. */
  ghost predicate Freed(s: State, x: nat) {
    x >= s.bump || Covers(s.holes, x)
  }

  lemma CollectOneFrees(capacity: nat, pl: Placed, n: Ptr, x: nat)
    requires PlacedOk(capacity, pl) && n in pl.at
    ensures n in pl.words
    ensures Freed(pl.arena, x) || pl.at[n] <= x < End(BlockOf(pl, n)) ==> Freed(Collect(pl.arena, pl.at[n], pl.words[n]), x)
  {
    assert Fits(Hole(pl.at[n], pl.arena.live[pl.at[n]]), pl.arena.bump);
    CollectEffect(pl.arena, pl.at[n], pl.words[n], x);
    hide Covers;
  }

  lemma {:induction false} FreedStaysFree(capacity: nat, pl: Placed, order: seq<Ptr>, x: nat)
    requires PlacedOk(capacity, pl) && Freed(pl.arena, x)
    ensures Freed(CollectAll(pl, order).arena, x)
    decreases |order|
  {
    hide PlacedOk, Collect, Freed;
    if order != [] {
      var n := order[0];
      if n in pl.at {
        CollectOneOk(capacity, pl, n);
        CollectOneFrees(capacity, pl, n, x);
        FreedStaysFree(capacity, Placed(Collect(pl.arena, pl.at[n], pl.words[n]), pl.at - {n}, pl.words - {n}), order[1..], x);
      } else {
        FreedStaysFree(capacity, pl, order[1..], x);
      }
    }
  }

  lemma {:induction false} DisposedIsFreed(capacity: nat, pl: Placed, order: seq<Ptr>, n: Ptr, x: nat)
    requires PlacedOk(capacity, pl) && n in order && n in pl.at && n in pl.words && pl.at[n] <= x < End(BlockOf(pl, n))
    ensures Freed(CollectAll(pl, order).arena, x)
    decreases |order|
  {
    hide PlacedOk, Collect, Freed, Needed;
    var k, rest := order[0], order[1..];
    assert order == [k] + rest;
    if k in pl.at {
      CollectOneOk(capacity, pl, k);
      CollectOneFrees(capacity, pl, k, x);
      var pl1 := Placed(Collect(pl.arena, pl.at[k], pl.words[k]), pl.at - {k}, pl.words - {k});
      if k == n { FreedStaysFree(capacity, pl1, rest, x); } else { DisposedIsFreed(capacity, pl1, rest, n, x); }
    } else {
      DisposedIsFreed(capacity, pl, rest, n, x);
    }
  }

  /** A sweep loses no memory: every word of a node it frees is above the frontier or on the free list afterwards. */
  lemma SweepLosesNothing(capacity: nat, pl: Placed, order: seq<Ptr>, n: Ptr, x: nat)
    requires PlacedOk(capacity, pl) && n in order && n in pl.at && n in pl.words && pl.at[n] <= x < End(BlockOf(pl, n))
    ensures var s' := SweepArena(pl, order).arena; x >= s'.bump || Covers(s'.free, x)
  {
    DisposedIsFreed(capacity, pl, order, n, x);
    CollectAllOk(capacity, pl, order);
    hide Finish, CollectAll, Covers;
    FinishOk(capacity, CollectAll(pl, order).arena);
  }

  // ---- runs ----

  datatype Event =
    | AllocNode(n: Ptr, words: nat, align: nat)
    | Sweep(order: seq<Ptr>)
    | Remove                                      // `dealloc_partition` replaces the arena (src/partition.rs:91-97, 312)

  predicate Possible(pl: Placed, e: Event) {
    e.AllocNode? ==> e.n !in pl.at && e.align > 0
  }

  function Happen(capacity: nat, pl: Placed, e: Event): Placed
    requires Possible(pl, e)
  {
    match e
    case AllocNode(n, words, align) => Place(capacity, pl, n, words, align)
    case Sweep(order) => SweepArena(pl, order)
    case Remove => Placed(FRESH, map[], map[])
  }

  ghost predicate History(capacity: nat, pl: Placed, es: seq<Event>)
    decreases |es|
  {
    es != [] ==> Possible(pl, es[0]) && History(capacity, Happen(capacity, pl, es[0]), es[1..])
  }

  ghost function Outcome(capacity: nat, pl: Placed, es: seq<Event>): Placed
    requires History(capacity, pl, es)
    decreases |es|
  {
    if es == [] then pl else Outcome(capacity, Happen(capacity, pl, es[0]), es[1..])
  }

  /**
   Over any history of allocations, sweeps of any nodes in any order, and removals: the arena's nodes and its
   live blocks stay in bijection and pairwise disjoint.
   */
  lemma {:induction false} HistoryOk(capacity: nat, pl: Placed, es: seq<Event>)
    requires PlacedOk(capacity, pl) && History(capacity, pl, es)
    ensures PlacedOk(capacity, Outcome(capacity, pl, es))
    decreases |es|
  {
    if es != [] {
      match es[0] {
        case AllocNode(n, words, align) => PlaceOk(capacity, pl, n, words, align);
        case Sweep(order) => SweepArenaOk(capacity, pl, order);
        case Remove => FreshOk(capacity);
      }
      hide PlacedOk, Place, SweepArena;
      HistoryOk(capacity, Happen(capacity, pl, es[0]), es[1..]);
    }
  }

  lemma {:induction false} OutcomeSum(capacity: nat, pl: Placed, es: seq<Event>, fs: seq<Event>)
    requires History(capacity, pl, es) && History(capacity, Outcome(capacity, pl, es), fs)
    ensures History(capacity, pl, es + fs)
    ensures Outcome(capacity, pl, es + fs) == Outcome(capacity, Outcome(capacity, pl, es), fs)
    decreases |es|
  {
    if es == [] {
      assert es + fs == fs;
    } else {
      assert (es + fs)[0] == es[0] && (es + fs)[1..] == es[1..] + fs;
      OutcomeSum(capacity, Happen(capacity, pl, es[0]), es[1..], fs);
    }
  }

  /** Removing the partition forgets everything: what follows goes as it would in a new arena. */
  lemma RemovalForgets(capacity: nat, pl: Placed, es: seq<Event>, fs: seq<Event>)
    requires History(capacity, pl, es) && History(capacity, Placed(FRESH, map[], map[]), fs)
    ensures History(capacity, pl, es + [Remove] + fs)
    ensures Outcome(capacity, pl, es + [Remove] + fs) == Outcome(capacity, Placed(FRESH, map[], map[]), fs)
  {
    assert ([Remove] + fs)[1..] == fs;
    assert History(capacity, Outcome(capacity, pl, es), [Remove] + fs);
    OutcomeSum(capacity, pl, es, [Remove] + fs);
    assert es + ([Remove] + fs) == es + [Remove] + fs;
  }
}
