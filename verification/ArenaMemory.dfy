/** The arena as memory: the free list's headers live in the dead blocks themselves (src/arena.rs:57-209). */
module ArenaMemory {
  import opened Basics
  import opened Numbers
  import opened Arena

  // ---- the in-memory free list ----

  /** A link word: null, or the address of an entry, whose base is not null. */
  function Encode(next: Option<nat>): nat {
    if next == None then 0 else next.value + 1
  }

  function Decode(w: nat): Option<nat> {
    if w == 0 then None else Some(w - 1)
  }

  function FirstOffset(free: seq<Hole>): Option<nat> {
    if free == [] then None else Some(free[0].offset)
  }

  function NextOffset(free: seq<Hole>, i: nat): Option<nat> {
    if i + 1 < |free| then Some(free[i + 1].offset) else None
  }

  ghost predicate EntryAt(ws: seq<nat>, h: Hole, next: Option<nat>) {
    h.offset + 1 < |ws| && ws[h.offset] == h.size && ws[h.offset + 1] == Encode(next)
  }

  /** Following the headers from `head` visits exactly the entries of `free`, in order, and ends. */
  ghost predicate FreeList(ws: seq<nat>, head: Option<nat>, free: seq<Hole>) {
    head == FirstOffset(free) && forall i {:trigger NextOffset(free, i)} :: 0 <= i < |free| ==> EntryAt(ws, free[i], NextOffset(free, i))
  }

  /** Every word of every block of `live` is as it was. */
  ghost predicate SameContents(live: map<nat, nat>, ws: seq<nat>, ws': seq<nat>) {
    |ws'| == |ws| && forall o, x {:trigger live[o], ws'[x]} :: o in live && o <= x < o + live[o] && x < |ws| ==> ws'[x] == ws[x]
  }

  /** A program writing into its own blocks cannot disturb the free list. */
  lemma LiveWritesKeepFreeList(capacity: nat, s: State, ws: seq<nat>, head: Option<nat>, o: nat, x: nat, v: nat)
    requires ArenaOk(capacity, s) && |ws| == capacity && FreeList(ws, head, s.free)
    requires o in s.live && o <= x < o + s.live[o] && x < |ws|
    ensures FreeList(ws[x := v], head, s.free)
  {
    forall i | 0 <= i < |s.free| ensures EntryAt(ws[x := v], s.free[i], NextOffset(s.free, i)) {
      assert EntryAt(ws, s.free[i], NextOffset(s.free, i));
      assert Apart(Hole(o, s.live[o]), s.free[i]) && Fits(s.free[i], s.bump);
    }
  }

  function HeaderWritten(ws: seq<nat>, h: Hole, next: Option<nat>): seq<nat>
    requires h.offset + 1 < |ws|
  {
    ws[h.offset := h.size][h.offset + 1 := Encode(next)]
  }

  /** Writing an entry's header leaves the entries above it, and every block apart from it, alone. */
  lemma HeaderWrite(ws: seq<nat>, free: seq<Hole>, i: nat)
    requires Spaced(free) && Sized(free) && i < |free| && End(free[i]) <= |ws|
    requires FreeList(ws, FirstOffset(free[i + 1..]), free[i + 1..])
    ensures free[i].offset + 1 < |ws|
    ensures FreeList(HeaderWritten(ws, free[i], FirstOffset(free[i + 1..])), Some(free[i].offset), free[i..])
  {
    var h, rest := free[i], free[i + 1..];
    var ws' := HeaderWritten(ws, h, FirstOffset(rest));
    var all := free[i..];
    forall k | 0 <= k < |all| ensures EntryAt(ws', all[k], NextOffset(all, k)) {
      if k > 0 {
        assert all[k] == rest[k - 1] && all[k] == free[i + k];
        assert EntryAt(ws, rest[k - 1], NextOffset(rest, k - 1));
        assert End(h) < free[i + k].offset;
      }
    }
  }

  lemma HeaderKeepsLive(s: State, ws: seq<nat>, h: Hole, next: Option<nat>)
    requires h.size >= MIN_WORDS && End(h) <= |ws| && forall o :: o in s.live ==> Apart(Hole(o, s.live[o]), h)
    ensures SameContents(s.live, ws, HeaderWritten(ws, h, next))
  {
  }

  /** Unlinking entry `i` by redirecting its predecessor, or the head. */
  function UnlinkWrite(ws: seq<nat>, free: seq<Hole>, i: nat): seq<nat>
    requires i < |free| && free[i].offset + 1 < |ws| && (i > 0 ==> free[i - 1].offset + 1 < |ws|)
  {
    if i > 0 then ws[free[i - 1].offset + 1 := ws[free[i].offset + 1]] else ws
  }

  lemma Unlinked(ws: seq<nat>, head: Option<nat>, free: seq<Hole>, i: nat)
    requires FreeList(ws, head, free) && Spaced(free) && Sized(free) && i < |free|
    ensures free[i].offset + 1 < |ws| && (i > 0 ==> free[i - 1].offset + 1 < |ws|)
    ensures Decode(ws[free[i].offset + 1]) == NextOffset(free, i) && ws[free[i].offset] == free[i].size
    ensures FreeList(UnlinkWrite(ws, free, i), if i > 0 then head else NextOffset(free, i), Without(free, i))
  {
    assert EntryAt(ws, free[i], NextOffset(free, i));
    if i > 0 { assert EntryAt(ws, free[i - 1], NextOffset(free, i - 1)); }
    var ws', free' := UnlinkWrite(ws, free, i), Without(free, i);
    forall k | 0 <= k < |free'| ensures EntryAt(ws', free'[k], NextOffset(free', k)) {
      UnlinkedEntry(ws, head, free, i, k);
    }
  }

  lemma UnlinkedEntry(ws: seq<nat>, head: Option<nat>, free: seq<Hole>, i: nat, k: nat)
    requires FreeList(ws, head, free) && Spaced(free) && Sized(free) && i < |free| && k < |free| - 1
    requires free[i].offset + 1 < |ws| && (i > 0 ==> free[i - 1].offset + 1 < |ws|)
    ensures EntryAt(UnlinkWrite(ws, free, i), Without(free, i)[k], NextOffset(Without(free, i), k))
  {
    var k' := if k < i then k else k + 1;
    WithoutAt(free, i, k);
    assert EntryAt(ws, free[k'], NextOffset(free, k')) && EntryAt(ws, free[i], NextOffset(free, i));
    if i > 0 {
      assert k' < i - 1 ==> End(free[k']) < free[i - 1].offset;
      assert k' > i - 1 ==> End(free[i - 1]) < free[k'].offset;
      RedirectedEntry(ws, free[i - 1], NextOffset(free, i), free[k'], NextOffset(free, k'), k' == i - 1);
    }
    hide FreeList, Spaced, Sized, Without, NextOffset, EntryAt;
  }

  /** Redirecting entry `before` to `next`, and any entry `e` that is it or apart from it. */
  lemma RedirectedEntry(ws: seq<nat>, before: Hole, next: Option<nat>, e: Hole, eNext: Option<nat>, same: bool)
    requires before.offset + 1 < |ws| && EntryAt(ws, e, eNext)
    requires if same then e == before else e.offset + 1 < before.offset || before.offset + 1 < e.offset
    ensures EntryAt(ws[before.offset + 1 := Encode(next)], e, if same then next else eNext)
  {
  }

  lemma WithoutAt(free: seq<Hole>, i: nat, k: nat)
    requires i < |free| && k < |free| - 1
    ensures Without(free, i)[k] == free[if k < i then k else k + 1]
    ensures NextOffset(Without(free, i), k) ==
              if k < i - 1 then NextOffset(free, k)
              else if k == i - 1 then NextOffset(free, i)
              else NextOffset(free, k + 1)
  {
  }

  class GcArena {
    const capacity: nat
    const words: array<nat>
    var bump: nat
    var freeHead: Option<nat>
    var liveCount: nat
    ghost var a: State

    ghost predicate Valid()
      reads this, words
    {
      && words.Length == capacity && ArenaOk(capacity, a)
      && bump == a.bump && liveCount == |a.live|
      && FreeList(words[..], freeHead, a.free)
    }

    /** `new` (src/arena.rs:36-49); the block comes from the system allocator. */
    constructor (capacity: nat)
      ensures Valid() && a == FRESH && this.capacity == capacity && fresh(words)
    {
      this.capacity := capacity;
      words := new nat[capacity];
      bump, freeHead, liveCount := 0, None, 0;
      a := FRESH;
      new;
      FreshOk(capacity);
    }

    /** `alloc` (src/arena.rs:57-78). */
    method Alloc(size: nat, align: nat) returns (r: Option<nat>)
      requires Valid() && align > 0
      modifies this, words
      ensures Valid() && (a, r) == Arena.Alloc(capacity, old(a), size, align)
      ensures SameContents(old(a).live, old(words[..]), words[..])
    {
      hide ArenaOk, FreeList, SameContents, FirstFit;
      AllocOk(capacity, a, size, align);
      SameAsBefore(a.live, words[..]);
      var needed := if size < MIN_WORDS then MIN_WORDS else size;
      var offset := AlignUp(bump, align);
      if offset + needed <= capacity {
        assert |a.live[offset := needed]| == |a.live| + 1 by { MapAddSize(a.live, offset, needed); }
        bump := offset + needed;
        liveCount := liveCount + 1;
        a := a.(bump := offset + needed, live := a.live[offset := needed]);
        return Some(offset);
      }
      r := AllocFromFreeList(needed);
      if r.Some? {
        assert |a.live[r.value := needed]| == |a.live| + 1 by { MapAddSize(a.live, r.value, needed); }
        liveCount := liveCount + 1;
        a := a.(live := a.live[r.value := needed]);
      }
    }

    /** `alloc_from_free_list` (src/arena.rs:81-100). */
    method AllocFromFreeList(needed: nat) returns (r: Option<nat>)
      requires Valid()
      modifies this`freeHead, words, this`a
      ensures var i := FirstFit(old(a).free, needed);
              && r == (if i < |old(a).free| then Some(old(a).free[i].offset) else None)
              && a == (if i < |old(a).free| then old(a).(free := Without(old(a).free, i)) else old(a))
      ensures FreeList(words[..], freeHead, a.free) && SameContents(a.live, old(words[..]), words[..])
    {
      hide ArenaOk, FreeList, SameContents, FirstFit;
      ghost var i := 0;
      var prev: Option<nat>, curr := None, freeHead;
      ghost var ws := words[..];
      SameAsBefore(a.live, ws);
      HeadOf(ws, freeHead, a.free);
      while curr.Some?
        invariant Valid() && a == old(a) && words[..] == ws && freeHead == old(freeHead)
        invariant i <= |a.free| && curr == (if i < |a.free| then Some(a.free[i].offset) else None)
        invariant prev == (if i > 0 then Some(a.free[i - 1].offset) else None)
        invariant forall k :: 0 <= k < i ==> a.free[k].size < needed
        decreases |a.free| - i
      {
        var entry := curr.value;
        EntryFacts(capacity, a, ws, freeHead, i);
        var size := words[entry];
        if size >= needed {
          FirstFitIs(a.free, needed, i);
          Unlink(prev, entry, i);
          return Some(entry);
        }
        prev := curr;
        curr := Decode(words[entry + 1]);
        i := i + 1;
      }
      FirstFitIs(a.free, needed, i);
      return None;
    }

    /** Taking entry `i` out of the list (src/arena.rs:87-94). */
    method Unlink(prev: Option<nat>, entry: nat, ghost i: nat)
      requires Valid() && i < |a.free| && entry == a.free[i].offset
      requires prev == (if i > 0 then Some(a.free[i - 1].offset) else None)
      modifies this`freeHead, words, this`a
      ensures a == old(a).(free := Without(old(a).free, i)) && FreeList(words[..], freeHead, a.free)
      ensures SameContents(a.live, old(words[..]), words[..])
    {
      hide FreeList, SameContents, ArenaOk;
      ghost var ws := words[..];
      EntryFacts(capacity, a, ws, freeHead, i);
      Unlinked(ws, freeHead, a.free, i);
      SameAsBefore(a.live, ws);
      if i > 0 { LinkKeepsLive(capacity, a, ws, i - 1, ws[entry + 1]); }
      var next := words[entry + 1];
      if prev.Some? {
        words[prev.value + 1] := next;
      } else {
        freeHead := Decode(next);
      }
      assert words[..] == UnlinkWrite(ws, a.free, i);
      a := a.(free := Without(a.free, i));
    }

    /** `collect_hole` (src/arena.rs:106-131). No word is written. */
    method CollectHole(holes: seq<Hole>, o: nat, size: nat) returns (holes': seq<Hole>)
      requires Valid() && holes == a.holes && o in a.live && a.live[o] == Needed(size)
      modifies this`bump, this`liveCount, this`a
      ensures Valid() && a == Collect(old(a), o, size) && holes' == a.holes
    {
      CollectOk(capacity, a, o, size);
      var actualSize := if size < MIN_WORDS then MIN_WORDS else size;
      assert |a.live - {o}| == |a.live| - 1 by { MapRemoveSize(a.live, o); }
      holes' := holes;
      if o + actualSize == bump {
        bump := o;
      } else {
        holes' := holes + [Hole(o, actualSize)];
      }
      if liveCount > 0 { liveCount := liveCount - 1; }
      a := Collect(a, o, size);
    }

    /** `finish_sweep` (src/arena.rs:134-175). */
    method FinishSweep(holes: seq<Hole>)
      requires Valid() && holes == a.holes
      modifies this`bump, this`freeHead, words, this`a
      ensures Valid() && a == Finish(old(a))
      ensures SameContents(old(a).live, old(words[..]), words[..])
    {
      FinishOk(capacity, a);
      if liveCount == 0 {
        bump, freeHead := 0, None;
        a := Finish(a);
        return;
      }
      hide ArenaOk, FreeList, SameContents, Merge, Sort, Spaced, Sized, SameCover;
      var sorted := Sort(holes);
      var hs := new Hole[|sorted|](i requires 0 <= i < |sorted| => sorted[i]);
      assert hs[..] == sorted;
      var mergedLen := MergeInPlace(hs);
      Rebuild(hs, mergedLen, Finish(a));
      a := Finish(a);
    }

    /** Rebuilding the free list from the merged holes, last first (src/arena.rs:167-174). */
    method Rebuild(hs: array<Hole>, mergedLen: nat, ghost s': State)
      requires words.Length == capacity && ArenaOk(capacity, s') && mergedLen <= hs.Length && hs[..mergedLen] == s'.free
      modifies this`freeHead, words
      ensures FreeList(words[..], freeHead, s'.free) && SameContents(s'.live, old(words[..]), words[..])
    {
      hide ArenaOk, FreeList, SameContents;
      ghost var merged := s'.free;
      freeHead := None;
      var i := mergedLen;
      SameAsBefore(s'.live, words[..]);
      EmptyList(words[..]);
      assert merged[mergedLen..] == [];
      while i > 0
        invariant 0 <= i <= mergedLen == |merged| && hs[..mergedLen] == merged
        invariant FreeList(words[..], freeHead, merged[i..]) && freeHead == FirstOffset(merged[i..])
        invariant SameContents(s'.live, old(words[..]), words[..])
      {
        i := i - 1;
        var hole := hs[i];
        assert hole == merged[i];
        WriteEntry(hole, s', merged, i, old(words[..]));
      }
      assert merged[0..] == merged;
    }

    /** Writing one free entry's header and pushing it on the list (src/arena.rs:170-173). */
    method WriteEntry(hole: Hole, ghost s': State, ghost merged: seq<Hole>, ghost i: nat, ghost ws0: seq<nat>)
      requires words.Length == capacity && ArenaOk(capacity, s') && s'.free == merged && i < |merged| && hole == merged[i]
      requires FreeList(words[..], freeHead, merged[i + 1..]) && freeHead == FirstOffset(merged[i + 1..])
      requires SameContents(s'.live, ws0, words[..])
      modifies this`freeHead, words
      ensures FreeList(words[..], freeHead, merged[i..]) && freeHead == Some(hole.offset)
      ensures SameContents(s'.live, ws0, words[..])
    {
      ghost var ws: seq<nat> := words[..];
      assert Fits(hole, s'.bump) && Sized(merged) by { FitSized(merged, s'.bump); }
      HeaderWrite(ws, merged, i);
      HeaderKeepsLive(s', ws, hole, freeHead);
      SameTwice(s'.live, ws0, ws, HeaderWritten(ws, hole, freeHead));
      hide ArenaOk, FreeList, SameContents;
      words[hole.offset] := hole.size;
      words[hole.offset + 1] := Encode(freeHead);
      assert words[..] == HeaderWritten(ws, hole, freeHead);
      freeHead := Some(hole.offset);
    }

    /** The in-place two-pointer compaction (src/arena.rs:149-164). */
    static method MergeInPlace(holes: array<Hole>) returns (mergedLen: nat)
      modifies holes
      ensures mergedLen <= holes.Length && holes[..mergedLen] == Merge(old(holes[..]))
    {
      hide Merge, Join;
      ghost var hs := holes[..];
      if holes.Length == 0 {
        MergeIsEmpty(hs);
        return 0;
      }
      var wi := 0;
      MergeOneHole(hs[..1]);
      for ri := 1 to holes.Length
        invariant wi < ri && holes[..wi + 1] == Merge(hs[..ri]) && holes[ri..] == hs[ri..]
      {
        ghost var m := holes[..wi + 1];
        assert holes[ri] == holes[ri..][0] == hs[ri];
        assert hs[..ri + 1][..ri] == hs[..ri] && m[wi] == holes[wi];
        MergeIs(hs[..ri + 1]);
        JoinIs(m, hs[ri]);
        ghost var rest := holes[ri + 1..];
        assert rest == holes[ri..][1..] == hs[ri + 1..];
        if holes[wi].offset + holes[wi].size == holes[ri].offset {
          holes[wi] := holes[wi].(size := holes[wi].size + holes[ri].size);
        } else {
          wi := wi + 1;
          if wi != ri {
            holes[wi], holes[ri] := holes[ri], holes[wi];
          }
        }
        assert holes[..wi + 1] == Join(m, hs[ri]);
        assert holes[ri + 1..] == rest;
      }
      assert hs[..holes.Length] == hs;
      return wi + 1;
    }
  }

  lemma JoinIs(m: seq<Hole>, h: Hole)
    requires m != []
    ensures Join(m, h) == if End(m[|m| - 1]) == h.offset then m[|m| - 1 := Hole(m[|m| - 1].offset, m[|m| - 1].size + h.size)]
                          else m + [h]
  {
  }

  lemma SameAsBefore(live: map<nat, nat>, ws: seq<nat>)
    ensures SameContents(live, ws, ws)
  {
  }

  lemma SameTwice(live: map<nat, nat>, a: seq<nat>, b: seq<nat>, c: seq<nat>)
    requires SameContents(live, a, b) && SameContents(live, b, c)
    ensures SameContents(live, a, c)
  {
    forall o, x | o in live && o <= x < o + live[o] && x < |a| ensures c[x] == a[x] {
      assert b[x] == a[x];
    }
  }

  lemma EmptyList(ws: seq<nat>)
    ensures FreeList(ws, None, [])
  {
  }

  lemma HeadOf(ws: seq<nat>, head: Option<nat>, free: seq<Hole>)
    requires FreeList(ws, head, free)
    ensures head == FirstOffset(free)
  {
  }

  /** What reading an entry's header yields. */
  lemma EntryFacts(capacity: nat, s: State, ws: seq<nat>, head: Option<nat>, i: nat)
    requires ArenaOk(capacity, s) && FreeList(ws, head, s.free) && i < |s.free|
    ensures Spaced(s.free) && Sized(s.free) && s.free[i].offset + 1 < |ws|
    ensures ws[s.free[i].offset] == s.free[i].size && Decode(ws[s.free[i].offset + 1]) == NextOffset(s.free, i)
  {
    assert EntryAt(ws, s.free[i], NextOffset(s.free, i));
    FitSized(s.free, s.bump);
  }

  lemma MapAddSize(m: map<nat, nat>, k: nat, v: nat)
    requires k !in m
    ensures |m[k := v]| == |m| + 1
  {
    assert m[k := v].Keys == m.Keys + {k};
  }

  lemma MergeOneHole(hs: seq<Hole>)
    requires |hs| == 1
    ensures Merge(hs) == hs
  {
    assert hs[..0] == [] && hs == [hs[0]];
  }

  lemma {:induction false} FirstFitIs(free: seq<Hole>, needed: nat, i: nat)
    requires i <= |free| && (i < |free| ==> free[i].size >= needed) && forall k :: 0 <= k < i ==> free[k].size < needed
    ensures FirstFit(free, needed) == i
  {
    if i > 0 {
      assert free[0].size < needed;
      FirstFitIs(free[1..], needed, i - 1);
    }
  }

  lemma FitSized(hs: seq<Hole>, bump: nat)
    requires AllFit(hs, bump)
    ensures Sized(hs)
  {
  }

  lemma LinkKeepsLive(capacity: nat, s: State, ws: seq<nat>, i: nat, v: nat)
    requires ArenaOk(capacity, s) && i < |s.free| && |ws| == capacity
    ensures s.free[i].offset + 1 < |ws| && SameContents(s.live, ws, ws[s.free[i].offset + 1 := v])
  {
    assert Fits(s.free[i], s.bump);
  }

  lemma MapRemoveSize(m: map<nat, nat>, k: nat)
    requires k in m
    ensures |m - {k}| == |m| - 1
  {
    assert (m - {k}).Keys == m.Keys - {k};
    assert |m.Keys - {k}| == |m.Keys| - 1;
  }
}
