/**
 The bump and free-list arena (src/arena.rs), in machine words: every layout the collector asks for is a
 whole number of 8-byte words, aligned to words (see `Layout`). First the value-level operations and what
 every run of them keeps, then the class whose free list lives inside the dead blocks.
 */
module Arena {
  import opened Basics
  import opened Numbers

  /** `MIN_ALLOC_SIZE` (src/arena.rs:8): the two words a free entry's header needs. */
  const MIN_WORDS: nat := 2

  datatype Hole = Hole(offset: nat, size: nat)

  function End(h: Hole): nat {
    h.offset + h.size
  }

  /** Blocks handed out by offset, the free list in order, and the holes a sweep has collected so far. */
  datatype State = State(bump: nat, live: map<nat, nat>, free: seq<Hole>, holes: seq<Hole>)

  // ---- the invariant ----

  predicate Apart(a: Hole, b: Hole) {
    End(a) <= b.offset || End(b) <= a.offset
  }

  predicate Fits(h: Hole, bump: nat) {
    MIN_WORDS <= h.size && End(h) <= bump
  }

  /** Strictly ascending, with a gap between any two entries. */
  ghost predicate Spaced(hs: seq<Hole>) {
    forall i, j {:trigger hs[i], hs[j]} :: 0 <= i < j < |hs| ==> End(hs[i]) < hs[j].offset
  }

  ghost predicate LiveOk(s: State) {
    && (forall o {:trigger s.live[o]} :: o in s.live ==> Fits(Hole(o, s.live[o]), s.bump))
    && (forall o, x {:trigger s.live[o], s.live[x]} :: o in s.live && x in s.live && o != x ==>
          Apart(Hole(o, s.live[o]), Hole(x, s.live[x])))
  }

  ghost predicate ApartFromLive(s: State, hs: seq<Hole>) {
    forall o, i {:trigger s.live[o], hs[i]} :: o in s.live && 0 <= i < |hs| ==> Apart(Hole(o, s.live[o]), hs[i])
  }

  ghost predicate AllFit(hs: seq<Hole>, bump: nat) {
    forall i {:trigger hs[i]} :: 0 <= i < |hs| ==> Fits(hs[i], bump)
  }

  ghost predicate AllApart(hs: seq<Hole>) {
    forall i, j {:trigger hs[i], hs[j]} :: 0 <= i < j < |hs| ==> Apart(hs[i], hs[j])
  }

  /** Live blocks, free entries and pending holes are pairwise disjoint and below `bump`, which is within capacity. */
  ghost predicate ArenaOk(capacity: nat, s: State) {
    && s.bump <= capacity
    && LiveOk(s)
    && AllFit(s.free, s.bump) && AllFit(s.holes, s.bump)
    && Spaced(s.free) && AllApart(s.holes)
    && ApartFromLive(s, s.free) && ApartFromLive(s, s.holes)
    && (forall i, j {:trigger s.free[i], s.holes[j]} :: 0 <= i < |s.free| && 0 <= j < |s.holes| ==> Apart(s.free[i], s.holes[j]))
  }

  // ---- allocation ----

  /** The words a request takes: the least number that holds it and a free entry's header. */
  function Needed(size: nat): (words: nat)
    ensures words >= size && words >= MIN_WORDS && (words == size || words == MIN_WORDS)
  {
    if size < MIN_WORDS then MIN_WORDS else size
  }

  /** The first entry that fits, or one past the end (src/arena.rs:81-100). */
  function FirstFit(free: seq<Hole>, needed: nat): (i: nat)
    ensures i <= |free| && (i < |free| ==> free[i].size >= needed)
    ensures forall k :: 0 <= k < i ==> free[k].size < needed
  {
    if free == [] || free[0].size >= needed then 0 else 1 + FirstFit(free[1..], needed)
  }

  function Without(free: seq<Hole>, i: nat): seq<Hole>
    requires i < |free|
  {
    free[..i] + free[i + 1..]
  }

  /** `alloc` (src/arena.rs:57-78): bump first, then the free list, without splitting its entry. */
  function Alloc(capacity: nat, s: State, size: nat, align: nat): (State, Option<nat>)
    requires align > 0
  {
    var needed := Needed(size);
    var offset := AlignUp(s.bump, align);
    if offset + needed <= capacity then (s.(bump := offset + needed, live := s.live[offset := needed]), Some(offset))
    else
      var i := FirstFit(s.free, needed);
      if i < |s.free|
      then (s.(free := Without(s.free, i), live := s.live[s.free[i].offset := needed]), Some(s.free[i].offset))
      else (s, None)
  }

  lemma AllocOk(capacity: nat, s: State, size: nat, align: nat)
    requires ArenaOk(capacity, s) && align > 0
    ensures var r := Alloc(capacity, s, size, align);
            && ArenaOk(capacity, r.0)
            && (r.1.Some? ==> r.1.value !in s.live && r.0.live == s.live[r.1.value := Needed(size)])
            && (r.1 == None ==> r.0 == s)
  {
    hide AlignUp;
    var needed := Needed(size);
    var offset := AlignUp(s.bump, align);
    if offset + needed <= capacity {
      assert forall o {:trigger s.live[o]} :: o in s.live ==> Fits(Hole(o, s.live[o]), s.bump);
    } else {
      var i := FirstFit(s.free, needed);
      if i < |s.free| {
        PopOk(capacity, s, i, needed);
      }
    }
  }

  /** A block that long fits between the frontier and the end, at a multiple of `align`. */
  ghost predicate FrontierHasRoom(capacity: nat, s: State, size: nat, align: nat)
    requires align > 0
  {
    exists o: nat {:trigger Divides(align, o)} :: Divides(align, o) && s.bump <= o && o + Needed(size) <= capacity
  }

  lemma FrontierRoomIff(capacity: nat, s: State, size: nat, align: nat)
    requires align > 0
    ensures FrontierHasRoom(capacity, s, size, align) <==> AlignUp(s.bump, align) + Needed(size) <= capacity
  {
    if FrontierHasRoom(capacity, s, size, align) {
      var o: nat :| Divides(align, o) && s.bump <= o && o + Needed(size) <= capacity;
      AlignUpIsLeast(s.bump, align, o);
    } else {
      assert Divides(align, AlignUp(s.bump, align));
    }
  }

  /** When an allocation is refused: the frontier has no room and no free entry is long enough. */
  lemma AllocRefusedIff(capacity: nat, s: State, size: nat, align: nat)
    requires align > 0
    ensures Alloc(capacity, s, size, align).1 == None <==>
              && !FrontierHasRoom(capacity, s, size, align)
              && forall i {:trigger s.free[i]} :: 0 <= i < |s.free| ==> s.free[i].size < Needed(size)
  {
    FrontierRoomIff(capacity, s, size, align);
    hide AlignUp;
  }

  /** With room at the frontier: the lowest aligned place there, and the frontier moves just past the block. */
  lemma AllocBumps(capacity: nat, s: State, size: nat, align: nat, o: nat)
    requires align > 0 && FrontierHasRoom(capacity, s, size, align) && Divides(align, o) && s.bump <= o
    ensures var r := Alloc(capacity, s, size, align);
            && r.1.Some? && s.bump <= r.1.value <= o && Divides(align, r.1.value)
            && r.0 == s.(bump := r.1.value + Needed(size), live := s.live[r.1.value := Needed(size)])
  {
    FrontierRoomIff(capacity, s, size, align);
    AlignUpIsLeast(s.bump, align, o);
  }

  /** Without: the lowest entry that is long enough is taken off the list whole, and the frontier stays. */
  lemma AllocReuses(capacity: nat, s: State, size: nat, align: nat, k: nat)
    requires ArenaOk(capacity, s) && align > 0 && !FrontierHasRoom(capacity, s, size, align)
    requires k < |s.free| && s.free[k].size >= Needed(size)
    ensures var r := Alloc(capacity, s, size, align);
            && r.1.Some? && r.1.value <= s.free[k].offset
            && (exists i {:trigger s.free[i]} :: 0 <= i < |s.free| && s.free[i].offset == r.1.value && s.free[i].size >= Needed(size)
                  && r.0.free == s.free[..i] + s.free[i + 1..])
            && r.0 == s.(free := r.0.free, live := s.live[r.1.value := Needed(size)])
  {
    FrontierRoomIff(capacity, s, size, align);
    FirstFitIsLowest(s, capacity, Needed(size), k);
    var i := FirstFit(s.free, Needed(size));
    assert s.free[i].offset == Alloc(capacity, s, size, align).1.value;
    hide AlignUp, ArenaOk;
  }

  lemma ApartOffsets(a: Hole, b: Hole)
    requires Apart(a, b) && a.size > 0 && b.size > 0
    ensures a.offset != b.offset
  {
  }

  lemma PopOk(capacity: nat, s: State, i: nat, needed: nat)
    requires ArenaOk(capacity, s) && i < |s.free| && MIN_WORDS <= needed <= s.free[i].size
    ensures s.free[i].offset !in s.live
    ensures ArenaOk(capacity, s.(free := Without(s.free, i), live := s.live[s.free[i].offset := needed]))
  {
    var e := s.free[i];
    forall o | o in s.live ensures o != e.offset {
      ApartOffsets(Hole(o, s.live[o]), e);
    }
    var free' := Without(s.free, i);
    forall k | 0 <= k < |free'| ensures free'[k] == s.free[if k < i then k else k + 1] {
    }
  }

  /** With an ascending list the first fit is the lowest address that fits. */
  lemma FirstFitIsLowest(s: State, capacity: nat, needed: nat, k: nat)
    requires ArenaOk(capacity, s) && k < |s.free| && s.free[k].size >= needed
    ensures var i := FirstFit(s.free, needed); i < |s.free| && s.free[i].offset <= s.free[k].offset
  {
    var i := FirstFit(s.free, needed);
    assert i < k ==> End(s.free[i]) < s.free[k].offset;
  }

  // ---- sweeping ----

  /** `collect_hole` (src/arena.rs:106-131): a block at the frontier rewinds it, any other becomes a pending hole. */
  function Collect(s: State, o: nat, size: nat): State {
    var actual := Needed(size);
    if o + actual == s.bump then s.(bump := o, live := s.live - {o})
    else s.(holes := s.holes + [Hole(o, actual)], live := s.live - {o})
  }

  lemma CollectOk(capacity: nat, s: State, o: nat, size: nat)
    requires ArenaOk(capacity, s) && o in s.live && s.live[o] == Needed(size)
    ensures ArenaOk(capacity, Collect(s, o, size))
  {
    var b := Hole(o, s.live[o]);
    assert Fits(b, s.bump);
    if End(b) == s.bump {
      RewindFits(s, b, s.free);
      RewindFits(s, b, s.holes);
      var s' := s.(bump := o, live := s.live - {o});
      forall x | x in s'.live ensures Fits(Hole(x, s'.live[x]), o) {
        assert Apart(b, Hole(x, s.live[x])) && Fits(Hole(x, s.live[x]), s.bump);
      }
    } else {
      var s' := s.(holes := s.holes + [b], live := s.live - {o});
      forall i | 0 <= i < |s.holes| ensures Apart(s.holes[i], b) {
        assert Apart(b, s.holes[i]);
      }
    }
  }

  /**
   Nothing of a collected block is lost: each of its words is above the new frontier or in a pending hole. Every other
   word, live block and free entry is as it was.
   */
  lemma CollectEffect(s: State, o: nat, size: nat, x: nat)
    requires o in s.live && s.live[o] == Needed(size) && o + Needed(size) <= s.bump
    ensures var s' := Collect(s, o, size);
            && s'.live == s.live - {o} && s'.free == s.free && s'.bump <= s.bump
            && (o <= x < o + Needed(size) ==> x >= s'.bump || Covers(s'.holes, x))
            && (Covers(s'.holes, x) ==> Covers(s.holes, x) || o <= x < o + Needed(size))
            && (Covers(s.holes, x) ==> Covers(s'.holes, x))
            && (s'.bump <= x < s.bump ==> o <= x)
  {
    var s' := Collect(s, o, size);
    var b := Hole(o, Needed(size));
    if s'.bump == s.bump {
      assert s'.holes == s.holes + [b] && s'.holes[|s.holes|] == b;
      forall i | 0 <= i < |s.holes| ensures s'.holes[i] == s.holes[i] {
      }
    }
  }

  /** A block collected while it is the last one gives its room back: the frontier returns to where it began. */
  lemma CollectUndoesBump(capacity: nat, s: State, size: nat, align: nat)
    requires ArenaOk(capacity, s) && align > 0 && FrontierHasRoom(capacity, s, size, align)
    ensures var r := Alloc(capacity, s, size, align);
            r.1.Some? && Collect(r.0, r.1.value, size) == s.(bump := r.1.value)
  {
    FrontierRoomIff(capacity, s, size, align);
    AllocOk(capacity, s, size, align);
    var r := Alloc(capacity, s, size, align);
    hide ArenaOk, AlignUp;
    assert s.live[r.1.value := Needed(size)] - {r.1.value} == s.live;
  }

  /** What lies below the frontier and apart from the block at the frontier lies below that block. */
  lemma RewindFits(s: State, b: Hole, hs: seq<Hole>)
    requires AllFit(hs, s.bump) && End(b) == s.bump && b.size > 0 && (forall i :: 0 <= i < |hs| ==> Apart(b, hs[i]))
    ensures AllFit(hs, b.offset)
  {
  }

  ghost predicate Sized(hs: seq<Hole>) {
    forall i {:trigger hs[i]} :: 0 <= i < |hs| ==> hs[i].size >= MIN_WORDS
  }

  /** Each hole ends before the next begins. */
  ghost predicate Ordered(hs: seq<Hole>) {
    forall i, j {:trigger hs[i], hs[j]} :: 0 <= i < j < |hs| ==> End(hs[i]) <= hs[j].offset
  }

  /** `sort_by_key` on the offset (src/arena.rs:145). */
  function SortedInsert(hs: seq<Hole>, h: Hole): seq<Hole> {
    if hs == [] || hs[|hs| - 1].offset <= h.offset then hs + [h]
    else SortedInsert(hs[..|hs| - 1], h) + [hs[|hs| - 1]]
  }

  function Sort(hs: seq<Hole>): seq<Hole> {
    if hs == [] then [] else SortedInsert(Sort(hs[..|hs| - 1]), hs[|hs| - 1])
  }

  lemma {:induction false} SortedInsertOk(hs: seq<Hole>, h: Hole)
    requires Ordered(hs) && Sized(hs) && h.size >= MIN_WORDS && forall i :: 0 <= i < |hs| ==> Apart(hs[i], h)
    ensures Ordered(SortedInsert(hs, h))
    ensures forall x :: x in SortedInsert(hs, h) <==> x in hs || x == h
  {
    if hs != [] {
      var n := |hs| - 1;
      assert hs == hs[..n] + [hs[n]];
      if hs[n].offset > h.offset {
        SortedInsertOk(hs[..n], h);
        var init := SortedInsert(hs[..n], h);
        forall i | 0 <= i < |init| ensures End(init[i]) <= hs[n].offset {
          assert init[i] in init;
        }
      }
    }
  }

  /** Sorting disjoint holes by offset puts each after the one before it ends. */
  lemma {:induction false} SortOk(hs: seq<Hole>)
    requires AllApart(hs) && Sized(hs)
    ensures Ordered(Sort(hs)) && forall x :: x in Sort(hs) <==> x in hs
  {
    if hs != [] {
      var n := |hs| - 1;
      var init := Sort(hs[..n]);
      SortOk(hs[..n]);
      assert hs == hs[..n] + [hs[n]];
      forall i | 0 <= i < |init| ensures Apart(init[i], hs[n]) && init[i].size >= MIN_WORDS {
        assert init[i] in init && init[i] in hs[..n];
      }
      SortedInsertOk(init, hs[n]);
    }
  }

  /** One more hole, after the others, on a merged list. */
  function Join(m: seq<Hole>, h: Hole): seq<Hole> {
    if m != [] && End(m[|m| - 1]) == h.offset
    then m[..|m| - 1] + [Hole(m[|m| - 1].offset, m[|m| - 1].size + h.size)]
    else m + [h]
  }

  /** The two-pointer pass, as a fold: a hole that starts where the last merged one ends extends it. */
  function Merge(hs: seq<Hole>): (m: seq<Hole>)
    ensures |m| <= |hs| && (hs != [] ==> m != [])
  {
    if hs == [] then [] else Join(Merge(hs[..|hs| - 1]), hs[|hs| - 1])
  }

  /** Some entry contains word `x`. */
  ghost predicate Covers(hs: seq<Hole>, x: nat) {
    exists i {:trigger hs[i]} :: 0 <= i < |hs| && hs[i].offset <= x < End(hs[i])
  }

  lemma CoversSum(a: seq<Hole>, b: seq<Hole>, x: nat)
    ensures Covers(a + b, x) <==> Covers(a, x) || Covers(b, x)
  {
    var c := a + b;
    if Covers(a, x) {
      var i :| 0 <= i < |a| && a[i].offset <= x < End(a[i]);
      assert c[i] == a[i];
    }
    if Covers(b, x) {
      var i :| 0 <= i < |b| && b[i].offset <= x < End(b[i]);
      assert c[|a| + i] == b[i];
    }
  }

  ghost predicate SameCover(a: seq<Hole>, b: seq<Hole>) {
    forall x {:trigger Covers(a, x)} {:trigger Covers(b, x)} :: Covers(a, x) <==> Covers(b, x)
  }

  /** Coalescing: the merged list is strictly ascending, no two entries touch, and it covers exactly the same words. */
  lemma {:induction false} MergeOk(hs: seq<Hole>)
    requires Ordered(hs) && Sized(hs)
    ensures Spaced(Merge(hs)) && Sized(Merge(hs)) && SameCover(Merge(hs), hs)
    ensures hs != [] ==> End(Merge(hs)[|Merge(hs)| - 1]) == End(hs[|hs| - 1])
  {
    hide SameCover, Merge;
    if hs == [] {
      NothingCovered(hs);
    } else {
      var n := |hs| - 1;
      var m, h := Merge(hs[..n]), hs[n];
      MergeOk(hs[..n]);
      assert hs == hs[..n] + [h];
      MergeIs(hs);
      assert m != [] ==> End(m[|m| - 1]) <= h.offset by {
        if n > 0 { assert End(hs[n - 1]) <= hs[n].offset && hs[..n][n - 1] == hs[n - 1]; }
        MergeIsEmpty(hs[..n]);
      }
      MergeOne(m, h);
      MergeCovers(m, hs[..n], h);
    }
  }

  lemma MergeIs(hs: seq<Hole>)
    requires hs != []
    ensures Merge(hs) == Join(Merge(hs[..|hs| - 1]), hs[|hs| - 1])
  {
  }

  lemma MergeIsEmpty(hs: seq<Hole>)
    ensures Merge(hs) == [] <==> hs == []
  {
  }

  lemma NothingCovered(hs: seq<Hole>)
    requires hs == []
    ensures SameCover(Merge(hs), hs)
  {
  }

  lemma MergeOne(m: seq<Hole>, h: Hole)
    requires Spaced(m) && Sized(m) && h.size >= MIN_WORDS && (m != [] ==> End(m[|m| - 1]) <= h.offset)
    ensures Spaced(Join(m, h)) && Sized(Join(m, h)) && End(Join(m, h)[|Join(m, h)| - 1]) == End(h)
  {
    forall i | 0 <= i < |m| ensures End(m[i]) <= h.offset && (i < |m| - 1 ==> End(m[i]) < m[|m| - 1].offset) {
    }
  }

  lemma MergeCovers(m: seq<Hole>, hs: seq<Hole>, h: Hole)
    requires SameCover(m, hs)
    ensures SameCover(Join(m, h), hs + [h])
  {
    forall x ensures Covers(Join(m, h), x) <==> Covers(hs + [h], x) {
      CoversSum(hs, [h], x);
      OneCovers(h, x);
      JoinCovers(m, h, x);
    }
  }

  lemma JoinCovers(m: seq<Hole>, h: Hole, x: nat)
    ensures Covers(Join(m, h), x) <==> Covers(m, x) || h.offset <= x < End(h)
  {
    hide Covers;
    OneCovers(h, x);
    if m != [] && End(m[|m| - 1]) == h.offset {
      var k := |m| - 1;
      var joined := Hole(m[k].offset, m[k].size + h.size);
      assert m == m[..k] + [m[k]];
      CoversSum(m[..k], [m[k]], x);
      CoversSum(m[..k], [joined], x);
      OneCovers(m[k], x);
      OneCovers(joined, x);
    } else {
      CoversSum(m, [h], x);
    }
  }

  lemma OneCovers(h: Hole, x: nat)
    ensures Covers([h], x) <==> h.offset <= x < End(h)
  {
    assert [h][0] == h;
  }

  /** `finish_sweep` (src/arena.rs:134-175): the previous free list is discarded, the holes become the new one. */
  function Finish(s: State): State {
    if |s.live| == 0 then State(0, map[], [], [])
    else s.(free := Merge(Sort(s.holes)), holes := [])
  }

  lemma SortCovers(hs: seq<Hole>)
    requires forall x :: x in Sort(hs) <==> x in hs
    ensures SameCover(Sort(hs), hs)
  {
    var m := Sort(hs);
    forall x: nat ensures Covers(m, x) <==> Covers(hs, x) {
      if Covers(m, x) {
        var i :| 0 <= i < |m| && m[i].offset <= x < End(m[i]);
        assert m[i] in m;
      }
      if Covers(hs, x) {
        var i :| 0 <= i < |hs| && hs[i].offset <= x < End(hs[i]);
        assert hs[i] in m;
      }
    }
  }

  /** Coalescing, for any disjoint holes in any order. */
  lemma CoalesceOk(hs: seq<Hole>)
    requires AllApart(hs) && Sized(hs)
    ensures var m := Merge(Sort(hs)); Spaced(m) && Sized(m) && SameCover(m, hs)
  {
    SortOk(hs);
    SortCovers(hs);
    var sorted := Sort(hs);
    forall i | 0 <= i < |sorted| ensures sorted[i].size >= MIN_WORDS {
      assert sorted[i] in sorted && sorted[i] in hs;
    }
    MergeOk(sorted);
    hide Merge, Sort, Covers;
  }

  lemma NotCovered(b: Hole, hs: seq<Hole>, x: nat)
    requires forall j {:trigger hs[j]} :: 0 <= j < |hs| ==> Apart(b, hs[j])
    ensures b.offset <= x < End(b) ==> !Covers(hs, x)
  {
  }

  /** What is apart from every hole is apart from every merged entry. */
  lemma ApartByCover(b: Hole, hs: seq<Hole>, m: seq<Hole>, i: nat)
    requires SameCover(m, hs) && i < |m| && b.size > 0 && m[i].size > 0
    requires forall j {:trigger hs[j]} :: 0 <= j < |hs| ==> Apart(b, hs[j])
    ensures Apart(b, m[i])
  {
    var x := if b.offset < m[i].offset then m[i].offset else b.offset;
    NotCovered(b, hs, x);
    assert m[i].offset <= x < End(m[i]) ==> Covers(m, x);
  }

  lemma FitByCover(bump: nat, hs: seq<Hole>, m: seq<Hole>)
    requires SameCover(m, hs) && Sized(m) && AllFit(hs, bump)
    ensures AllFit(m, bump)
  {
    forall i | 0 <= i < |m| ensures Fits(m[i], bump) {
      assert Covers(m, End(m[i]) - 1);
      var j :| 0 <= j < |hs| && hs[j].offset <= End(m[i]) - 1 < End(hs[j]);
    }
  }

  /** With blocks still live, the new free list covers exactly the words of the holes. */
  lemma FinishOk(capacity: nat, s: State)
    requires ArenaOk(capacity, s)
    ensures ArenaOk(capacity, Finish(s)) && Finish(s).live == s.live && Finish(s).holes == []
    ensures s.live != map[] ==> Finish(s).bump == s.bump && SameCover(Finish(s).free, s.holes)
    ensures s.live == map[] ==> Finish(s).bump == 0 && Finish(s).free == []
  {
    if |s.live| == 0 {
      assert s.live.Keys == {};
    } else {
      var m := Merge(Sort(s.holes));
      CoalesceOk(s.holes);
      FitByCover(s.bump, s.holes, m);
      forall o, i | o in s.live && 0 <= i < |m| ensures Apart(Hole(o, s.live[o]), m[i]) {
        ApartByCover(Hole(o, s.live[o]), s.holes, m, i);
      }
    }
  }

  // ---- runs ----

  datatype Op = AllocOp(size: nat, align: nat) | CollectOp(offset: nat, size: nat) | FinishOp

  /** What the collector asks: positive alignments, and only live blocks collected, with the size they were asked for. */
  predicate Enabled(s: State, op: Op) {
    match op
    case AllocOp(_, align) => align > 0
    case CollectOp(o, size) => o in s.live && s.live[o] == Needed(size)
    case FinishOp => true
  }

  function Step(capacity: nat, s: State, op: Op): State
    requires Enabled(s, op)
  {
    match op
    case AllocOp(size, align) => Alloc(capacity, s, size, align).0
    case CollectOp(o, size) => Collect(s, o, size)
    case FinishOp => Finish(s)
  }

  ghost predicate Legal(capacity: nat, s: State, ops: seq<Op>)
    decreases |ops|
  {
    ops != [] ==> Enabled(s, ops[0]) && Legal(capacity, Step(capacity, s, ops[0]), ops[1..])
  }

  ghost function Run(capacity: nat, s: State, ops: seq<Op>): State
    requires Legal(capacity, s, ops)
    decreases |ops|
  {
    if ops == [] then s else Run(capacity, Step(capacity, s, ops[0]), ops[1..])
  }

  const FRESH: State := State(0, map[], [], [])

  /** Safety over any run of `alloc`, `collect_hole` and `finish_sweep`. */
  lemma {:induction false} RunOk(capacity: nat, s: State, ops: seq<Op>)
    requires ArenaOk(capacity, s) && Legal(capacity, s, ops)
    ensures ArenaOk(capacity, Run(capacity, s, ops))
    decreases |ops|
  {
    if ops != [] {
      match ops[0] {
        case AllocOp(size, align) => AllocOk(capacity, s, size, align);
        case CollectOp(o, size) => CollectOk(capacity, s, o, size);
        case FinishOp => FinishOk(capacity, s);
      }
      hide ArenaOk, Step;
      RunOk(capacity, Step(capacity, s, ops[0]), ops[1..]);
    }
  }

  lemma FreshOk(capacity: nat)
    ensures ArenaOk(capacity, FRESH)
  {
  }

  // ---- alignment ----

  ghost predicate OffsetsAligned(hs: seq<Hole>, align: nat)
    requires align > 0
  {
    forall i {:trigger hs[i]} :: 0 <= i < |hs| ==> hs[i].offset % align == 0
  }

  /** Every block, free or live, starts at a multiple of `align`. */
  ghost predicate AllAligned(s: State, align: nat)
    requires align > 0
  {
    && (forall o {:trigger s.live[o]} :: o in s.live ==> o % align == 0)
    && OffsetsAligned(s.free, align) && OffsetsAligned(s.holes, align)
  }

  /** Every requested alignment is a multiple of `align`. */
  ghost predicate AsksMultiples(ops: seq<Op>, align: nat)
    requires align > 0
  {
    forall i :: 0 <= i < |ops| && ops[i].AllocOp? ==> Divides(align, ops[i].align)
  }

  lemma {:induction false} MergeAligned(hs: seq<Hole>, align: nat)
    requires align > 0 && OffsetsAligned(hs, align)
    ensures OffsetsAligned(Merge(hs), align)
  {
    if hs != [] { MergeAligned(hs[..|hs| - 1], align); }
  }

  lemma StepAligned(capacity: nat, s: State, op: Op, align: nat)
    requires ArenaOk(capacity, s) && align > 0 && AllAligned(s, align) && Enabled(s, op)
    requires op.AllocOp? ==> Divides(align, op.align)
    ensures AllAligned(Step(capacity, s, op), align)
  {
    if op.AllocOp? {
      DividesTrans(AlignUp(s.bump, op.align), op.align, align);
    }
    if op.FinishOp? {
      SortOk(s.holes);
      var sorted := Sort(s.holes);
      forall i | 0 <= i < |sorted| ensures sorted[i].offset % align == 0 {
        assert sorted[i] in sorted && sorted[i] in s.holes;
      }
      MergeAligned(sorted, align);
    }
  }

  /** When every request asks for a multiple of `align`, every block of every run is aligned to `align`. */
  lemma {:induction false} RunsAreAligned(capacity: nat, s: State, ops: seq<Op>, align: nat)
    requires ArenaOk(capacity, s) && align > 0 && AllAligned(s, align) && Legal(capacity, s, ops) && AsksMultiples(ops, align)
    ensures AllAligned(Run(capacity, s, ops), align)
    decreases |ops|
  {
    if ops != [] {
      StepAligned(capacity, s, ops[0], align);
      RunOk(capacity, s, ops[..1]);
      assert Legal(capacity, Step(capacity, s, ops[0]), ops[..1][1..]);
      assert Run(capacity, s, ops[..1]) == Step(capacity, s, ops[0]);
      hide Step, ArenaOk, AllAligned;
      RunsAreAligned(capacity, Step(capacity, s, ops[0]), ops[1..], align);
    }
  }

  /**
   The free list ignores the requested alignment (src/arena.rs:71): an allocation is aligned exactly when it is
   bumped, refused, or served by an entry that happens to be aligned.
   */
  lemma AllocAlignedIff(capacity: nat, s: State, size: nat, align: nat)
    requires align > 0
    ensures var r, i := Alloc(capacity, s, size, align).1, FirstFit(s.free, Needed(size));
            (r.Some? ==> r.value % align == 0) <==>
              (AlignUp(s.bump, align) + Needed(size) <= capacity || i == |s.free| || s.free[i].offset % align == 0)
  {
  }

  /** ... and mixed alignments do go wrong: 2-word blocks, one reused for a request aligned to 4 words. */
  lemma MixedAlignmentsMisalign()
    ensures var ops := [AllocOp(2, 1), AllocOp(2, 1), AllocOp(2, 1), CollectOp(2, 2), FinishOp];
            && Legal(6, FRESH, ops)
            && Alloc(6, Run(6, FRESH, ops), 2, 4).1 == Some(2)
  {
    var s1 := State(2, map[0 := 2], [], []);
    var s2 := State(4, map[0 := 2, 2 := 2], [], []);
    var s3 := State(6, map[0 := 2, 2 := 2, 4 := 2], [], []);
    var s4 := State(6, map[0 := 2, 4 := 2], [], [Hole(2, 2)]);
    var s5 := State(6, map[0 := 2, 4 := 2], [Hole(2, 2)], []);
    assert Step(6, FRESH, AllocOp(2, 1)) == s1;
    assert Step(6, s1, AllocOp(2, 1)) == s2;
    assert Step(6, s2, AllocOp(2, 1)) == s3;
    assert Step(6, s3, CollectOp(2, 2)) == s4;
    assert Sort([Hole(2, 2)]) == [Hole(2, 2)] && Merge([Hole(2, 2)]) == [Hole(2, 2)];
    assert Step(6, s4, FinishOp) == s5;
    assert Alloc(6, s5, 2, 4).1 == Some(2);
  }

  function PointerOf(base: nat, offset: nat): nat {
    base + offset
  }

  ghost predicate PointersAligned(align: nat)
    requires align > 0
  {
    forall base: nat, offset: nat :: base % 2 == 0 && offset % align == 0 ==> PointerOf(base, offset) % align == 0
  }

  /** The base address is only known to be a multiple of 16 bytes, two words (src/arena.rs:37). */
  lemma PointersAlignedIff(align: nat)
    requires align > 0
    ensures PointersAligned(align) <==> align <= 2
  {
    if align > 2 {
      DivModUnique(2, 0, align, 2);
      DivModUnique(0, 0, align, 0);
      assert PointerOf(2, 0) == 2;
    } else {
      assert align == 1 || align == 2;
    }
  }
}
