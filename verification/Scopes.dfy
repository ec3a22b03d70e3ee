/** Scope stacks and the LOCAL flag: which nodes open scopes protect. */
module Scopes {
  import opened Basics
  import opened Graphs

  /** A scope's cache; the source's absent and empty caches are the same here. */
  datatype Scope = Scope(pid: nat, cache: seq<Ptr>)

  datatype Stack = Stack(scopes: seq<Scope>, pid: Option<nat>)

  /** Where an open scope lives: its stack and its index there. */
  datatype Place = Place(stack: nat, index: nat)

  /** The stacks, and for every node carrying LOCAL the scope that protects it. */
  datatype ScopeTable = ScopeTable(home: map<Ptr, Place>, stacks: seq<Stack>)

  ghost function Locals(t: ScopeTable): set<Ptr> {
    t.home.Keys
  }

  predicate IsScope(t: seq<Stack>, at: Place) {
    at.stack < |t| && at.index < |t[at.stack].scopes|
  }

  function ScopeAt(t: seq<Stack>, at: Place): Scope
    requires IsScope(t, at)
  {
    t[at.stack].scopes[at.index]
  }

  /**
   LOCAL is exactly "cached once": a node is in some cache iff it carries LOCAL, and then in the cache of
   its home scope only and only once. A scope belongs to its stack's partition; which nodes it may cache is not
   part of this, since the source checks no partition when it caches or promotes a node.
   */
  ghost predicate ScopesOk(g: Graph, t: ScopeTable) {
    && t.home.Keys <= g.linked
    && (forall at {:trigger ScopeAt(t.stacks, at)} :: IsScope(t.stacks, at) ==> ScopeOk(t.home, at, ScopeAt(t.stacks, at)))
    && (forall at {:trigger ScopeAt(t.stacks, at)} :: IsScope(t.stacks, at) ==>
          t.stacks[at.stack].pid == Some(ScopeAt(t.stacks, at).pid))
    && (forall i :: 0 <= i < |t.stacks| && t.stacks[i].pid == None ==> t.stacks[i].scopes == [])
    && (forall n {:trigger t.home[n]} :: n in t.home ==>
          IsScope(t.stacks, t.home[n]) && n in ScopeAt(t.stacks, t.home[n]).cache)
  }

  ghost predicate ScopeOk(home: map<Ptr, Place>, at: Place, s: Scope) {
    Distinct(s.cache) && forall n {:trigger n in s.cache} :: n in s.cache ==> n in home && home[n] == at
  }

  /** Every scope caches only nodes of its own partition. */
  ghost predicate OwnNodesOnly(g: Graph, t: ScopeTable) {
    forall n {:trigger t.home[n]} :: n in t.home ==>
      n in g.part && IsScope(t.stacks, t.home[n]) && g.part[n] == ScopeAt(t.stacks, t.home[n]).pid
  }

  /** The stacks of partition `p` cache every LOCAL node of `p`. */
  ghost predicate HeldInside(g: Graph, t: ScopeTable, p: nat) {
    forall n {:trigger t.home[n]} :: n in t.home && n in g.part && g.part[n] == p ==>
      t.home[n].stack < |t.stacks| && t.stacks[t.home[n].stack].pid == Some(p)
  }

  // ---- operations ----

  function SetCache(t: seq<Stack>, at: Place, c: seq<Ptr>): (t': seq<Stack>)
    requires IsScope(t, at)
    ensures |t'| == |t|
    ensures forall b: Place {:trigger IsScope(t', b)} :: IsScope(t', b) <==> IsScope(t, b)
    ensures forall b: Place {:trigger ScopeAt(t', b)} :: IsScope(t, b) ==>
              ScopeAt(t', b) == if b == at then ScopeAt(t, b).(cache := c) else ScopeAt(t, b)
    ensures forall i {:trigger t'[i]} :: 0 <= i < |t| ==> t'[i].pid == t[i].pid
  {
    var s := t[at.stack];
    t[at.stack := s.(scopes := s.scopes[at.index := s.scopes[at.index].(cache := c)])]
  }

  /** `Vec::swap_remove`: the last element takes the removed one's place. */
  function SwapRemove(c: seq<Ptr>, pos: nat): seq<Ptr>
    requires pos < |c|
  {
    var last := |c| - 1;
    if pos == last then c[..last] else c[..last][pos := c[last]]
  }

  lemma SwapRemoveOk(c: seq<Ptr>, pos: nat)
    requires pos < |c| && Distinct(c)
    ensures Distinct(SwapRemove(c, pos))
    ensures forall n :: n in SwapRemove(c, pos) <==> n in c && n != c[pos]
    ensures var r := SwapRemove(c, pos);
            |r| == |c| - 1 && forall i :: 0 <= i < |r| ==> r[i] == if i == pos then c[|c| - 1] else c[i]
  {
    var r := SwapRemove(c, pos);
    var last := |c| - 1;
    forall n | n in c && n != c[pos] ensures n in r {
      var i :| 0 <= i < |c| && c[i] == n;
      assert if i == last then r[pos] == n else r[i] == n;
    }
  }

  function IndexOf(c: seq<Ptr>, n: Ptr): (i: nat)
    requires n in c
    ensures i < |c| && c[i] == n && n !in c[..i]
  {
    if c[0] == n then 0
    else
      assert c == [c[0]] + c[1..];
      var i := IndexOf(c[1..], n);
      assert c[..i + 1] == [c[0]] + c[1..][..i];
      i + 1
  }

  lemma {:induction false} FirstIndex(c: seq<Ptr>, n: Ptr, i: nat)
    requires i < |c| && c[i] == n && n !in c[..i]
    ensures IndexOf(c, n) == i
  {
    if i > 0 {
      assert c[0] in c[..i];
      assert c[1..][..i - 1] == c[..i][1..];
      FirstIndex(c[1..], n, i - 1);
    }
  }

  /** `add_node` (src/scope.rs:142-173), behind the root-or-local test of `add_non_local`. */
  ghost function Add(t: ScopeTable, at: Place, n: Ptr): ScopeTable
    requires IsScope(t.stacks, at)
  {
    ScopeTable(t.home[n := at], SetCache(t.stacks, at, ScopeAt(t.stacks, at).cache + [n]))
  }

  /** `remove_node` (src/scope.rs:202-219). */
  ghost function Remove(t: ScopeTable, at: Place, n: Ptr): ScopeTable
    requires IsScope(t.stacks, at)
  {
    var c := ScopeAt(t.stacks, at).cache;
    if n in c then ScopeTable(t.home - {n}, SetCache(t.stacks, at, SwapRemove(c, IndexOf(c, n)))) else t
  }

  /** `promote_node_to` (src/scope.rs:239-270); the target may be the scope itself. */
  ghost function Promote(t: ScopeTable, at: Place, target: Place, n: Ptr): ScopeTable
    requires IsScope(t.stacks, at) && IsScope(t.stacks, target)
  {
    if n in ScopeAt(t.stacks, at).cache then Add(Remove(t, at, n), target, n) else t
  }

  lemma PromoteForm(t: ScopeTable, at: Place, target: Place, n: Ptr)
    requires IsScope(t.stacks, at) && IsScope(t.stacks, target) && n in ScopeAt(t.stacks, at).cache && n in t.home
    ensures var c := ScopeAt(t.stacks, at).cache;
            var stacks := SetCache(t.stacks, at, SwapRemove(c, IndexOf(c, n)));
            Promote(t, at, target, n)
              == ScopeTable(t.home[n := target], SetCache(stacks, target, ScopeAt(stacks, target).cache + [n]))
  {
    assert (t.home - {n})[n := target] == t.home[n := target];
  }

  /** `clear` (src/scope.rs:273-282). */
  ghost function Clear(t: ScopeTable, at: Place): ScopeTable
    requires IsScope(t.stacks, at)
  {
    ScopeTable(t.home - Elems(ScopeAt(t.stacks, at).cache), SetCache(t.stacks, at, []))
  }

  /** `new_scope` (src/scope.rs:453-489). */
  ghost function Push(t: ScopeTable, i: nat): ScopeTable
    requires i < |t.stacks| && t.stacks[i].pid.Some?
  {
    var s := t.stacks[i];
    t.(stacks := t.stacks[i := s.(scopes := s.scopes + [Scope(s.pid.value, [])])])
  }

  /** Dropping a scope handle: `pop_scope`, then the popped state's drop clears it (src/scope.rs:55-59, 297-320, 442-444). */
  ghost function PopScope(t: ScopeTable, i: nat): ScopeTable
    requires i < |t.stacks|
  {
    var s := t.stacks[i];
    if s.scopes == [] then t
    else
      var top := |s.scopes| - 1;
      ScopeTable(t.home - Elems(s.scopes[top].cache), t.stacks[i := s.(scopes := s.scopes[..top])])
  }

  /** The first idle stack, or one past the end (src/scope.rs:366-377). */
  function Idle(t: seq<Stack>): (i: nat)
    ensures i <= |t| && (i < |t| ==> t[i].pid == None)
    ensures forall k :: 0 <= k < i ==> t[k].pid.Some?
  {
    if t == [] || t[0].pid == None then 0 else 1 + Idle(t[1..])
  }

  lemma {:induction false} IdleIs(t: seq<Stack>, i: nat)
    requires i <= |t| && (i < |t| ==> t[i].pid == None) && forall k :: 0 <= k < i ==> t[k].pid.Some?
    ensures Idle(t) == i
  {
    if i > 0 {
      assert t[0].pid.Some?;
      IdleIs(t[1..], i - 1);
    }
  }

  /** `acquire_scope_stack` (src/scope.rs:366-382). */
  ghost function Acquire(t: ScopeTable, p: nat): ScopeTable {
    var i := Idle(t.stacks);
    t.(stacks := if i < |t.stacks| then t.stacks[i := t.stacks[i].(pid := Some(p))] else t.stacks + [Stack([], Some(p))])
  }

  /** `release_scope_stack` (src/scope.rs:384-393). */
  ghost function Release(t: ScopeTable, i: nat): ScopeTable
    requires i < |t.stacks|
  {
    t.(stacks := t.stacks[i := t.stacks[i].(pid := None)])
  }

  /** Clearing every scope of every stack of partition `p` (src/partition.rs:186-192). */
  ghost function ClearPartition(t: ScopeTable, p: nat): ScopeTable {
    ScopeTable(
      map n | n in t.home && !(t.home[n].stack < |t.stacks| && t.stacks[t.home[n].stack].pid == Some(p)) :: t.home[n],
      seq(|t.stacks|, i requires 0 <= i < |t.stacks| =>
        if t.stacks[i].pid == Some(p) then t.stacks[i].(scopes := Emptied(t.stacks[i].scopes)) else t.stacks[i]))
  }

  function Emptied(scopes: seq<Scope>): (scopes': seq<Scope>)
    ensures |scopes'| == |scopes|
    ensures forall j :: 0 <= j < |scopes| ==> scopes'[j] == scopes[j].(cache := [])
  {
    seq(|scopes|, j requires 0 <= j < |scopes| => scopes[j].(cache := []))
  }

  // ---- what the invariant says ----

  /** LOCAL holds of exactly the nodes some open scope caches. */
  lemma LocalIffCached(g: Graph, t: ScopeTable, n: Ptr)
    requires ScopesOk(g, t)
    ensures n in Locals(t) <==> exists at :: IsScope(t.stacks, at) && n in ScopeAt(t.stacks, at).cache
  {
    if n in t.home {
      assert n in ScopeAt(t.stacks, t.home[n]).cache;
    }
  }

  /** No node sits in two scopes, or twice in one. */
  lemma CachedOnlyOnce(g: Graph, t: ScopeTable, at: Place, at': Place, a: nat, b: nat)
    requires ScopesOk(g, t) && IsScope(t.stacks, at) && IsScope(t.stacks, at')
    requires a < |ScopeAt(t.stacks, at).cache| && b < |ScopeAt(t.stacks, at').cache|
    requires ScopeAt(t.stacks, at).cache[a] == ScopeAt(t.stacks, at').cache[b]
    ensures at == at' && a == b
  {
    assert ScopeAt(t.stacks, at).cache[a] in ScopeAt(t.stacks, at).cache;
    assert ScopeAt(t.stacks, at').cache[b] in ScopeAt(t.stacks, at').cache;
  }

  // ---- preservation ----

  lemma AddOk(g: Graph, t: ScopeTable, at: Place, n: Ptr)
    requires ScopesOk(g, t) && IsScope(t.stacks, at)
    requires n in g.linked && n !in Locals(t)
    ensures ScopesOk(g, Add(t, at, n))
    ensures Locals(Add(t, at, n)) == Locals(t) + {n}
  {
    var t' := Add(t, at, n);
    assert ScopeOk(t.home, at, ScopeAt(t.stacks, at)) && n !in ScopeAt(t.stacks, at).cache;
    forall b | IsScope(t'.stacks, b) ensures ScopeOk(t'.home, b, ScopeAt(t'.stacks, b)) {
      assert ScopeOk(t.home, b, ScopeAt(t.stacks, b));
    }
  }

  lemma RemoveOk(g: Graph, t: ScopeTable, at: Place, n: Ptr)
    requires ScopesOk(g, t) && IsScope(t.stacks, at)
    ensures ScopesOk(g, Remove(t, at, n))
    ensures Locals(Remove(t, at, n)) == Locals(t) - (if n in ScopeAt(t.stacks, at).cache then {n} else {})
  {
    hide SetCache, SwapRemove, IndexOf, Distinct;
    var t' := Remove(t, at, n);
    var c := ScopeAt(t.stacks, at).cache;
    if n in c {
      assert ScopeOk(t.home, at, ScopeAt(t.stacks, at));
      SwapRemoveOk(c, IndexOf(c, n));
      forall b | IsScope(t'.stacks, b) ensures ScopeOk(t'.home, b, ScopeAt(t'.stacks, b)) {
        assert ScopeOk(t.home, b, ScopeAt(t.stacks, b));
      }
      forall i | 0 <= i < |t'.stacks| && t'.stacks[i].pid == None ensures t'.stacks[i].scopes == [] {
        assert t.stacks[i].scopes == [];
        assert IsScope(t'.stacks, Place(i, 0)) <==> IsScope(t.stacks, Place(i, 0));
      }
    }
  }

  /** Promotion, to a scope of any partition, moves protection: the same nodes stay LOCAL, `n` answers to the target. */
  lemma PromoteOk(g: Graph, t: ScopeTable, at: Place, target: Place, n: Ptr)
    requires ScopesOk(g, t) && IsScope(t.stacks, at) && IsScope(t.stacks, target)
    ensures ScopesOk(g, Promote(t, at, target, n))
    ensures Locals(Promote(t, at, target, n)) == Locals(t)
    ensures n in ScopeAt(t.stacks, at).cache ==> n in ScopeAt(Promote(t, at, target, n).stacks, target).cache
  {
    if n in ScopeAt(t.stacks, at).cache {
      assert ScopeOk(t.home, at, ScopeAt(t.stacks, at));
      RemoveOk(g, t, at, n);
      AddOk(g, Remove(t, at, n), target, n);
    }
  }

  /** Promotion keeps scopes to the nodes of their own partition exactly when it moves nothing or stays in one. */
  lemma PromoteOwnNodesIff(g: Graph, t: ScopeTable, at: Place, target: Place, n: Ptr)
    requires ScopesOk(g, t) && OwnNodesOnly(g, t) && IsScope(t.stacks, at) && IsScope(t.stacks, target)
    ensures OwnNodesOnly(g, Promote(t, at, target, n)) <==>
              n !in ScopeAt(t.stacks, at).cache || ScopeAt(t.stacks, at).pid == ScopeAt(t.stacks, target).pid
  {
    var t' := Promote(t, at, target, n);
    PromotedHomes(g, t, at, target, n);
    hide ScopesOk, ScopeOk, Promote;
    if n in ScopeAt(t.stacks, at).cache {
      assert g.part[n] == ScopeAt(t.stacks, at).pid && t'.home[n] == target;
      assert ScopeAt(t'.stacks, target).pid == ScopeAt(t.stacks, target).pid;
    }
  }

  /** Promotion moves one node's home and leaves every scope of its partition. */
  lemma PromotedHomes(g: Graph, t: ScopeTable, at: Place, target: Place, n: Ptr)
    requires ScopesOk(g, t) && IsScope(t.stacks, at) && IsScope(t.stacks, target)
    ensures var t' := Promote(t, at, target, n);
            if n in ScopeAt(t.stacks, at).cache
            then n in t.home && t.home[n] == at && t'.home == t.home[n := target]
            else t' == t
    ensures var t' := Promote(t, at, target, n);
            forall b :: IsScope(t.stacks, b) <==> IsScope(t'.stacks, b)
    ensures var t' := Promote(t, at, target, n);
            forall b :: IsScope(t.stacks, b) ==> ScopeAt(t'.stacks, b).pid == ScopeAt(t.stacks, b).pid
  {
    assert ScopeOk(t.home, at, ScopeAt(t.stacks, at));
  }

  /** Emptying caches while dropping their nodes from LOCAL. */
  lemma ClearOk(g: Graph, t: ScopeTable, at: Place)
    requires ScopesOk(g, t) && IsScope(t.stacks, at)
    ensures ScopesOk(g, Clear(t, at))
  {
    var t' := Clear(t, at);
    assert ScopeOk(t.home, at, ScopeAt(t.stacks, at));
    forall b | IsScope(t'.stacks, b) ensures ScopeOk(t'.home, b, ScopeAt(t'.stacks, b)) {
      assert ScopeOk(t.home, b, ScopeAt(t.stacks, b));
    }
  }

  lemma PopScopeOk(g: Graph, t: ScopeTable, i: nat)
    requires ScopesOk(g, t) && i < |t.stacks|
    ensures ScopesOk(g, PopScope(t, i))
  {
    var t' := PopScope(t, i);
    if t.stacks[i].scopes != [] {
      var top := Place(i, |t.stacks[i].scopes| - 1);
      assert ScopeOk(t.home, top, ScopeAt(t.stacks, top));
      forall b | IsScope(t'.stacks, b)
        ensures b != top && IsScope(t.stacks, b) && ScopeAt(t'.stacks, b) == ScopeAt(t.stacks, b)
      {
      }
      forall n | n in t'.home ensures IsScope(t'.stacks, t'.home[n]) && n in ScopeAt(t'.stacks, t'.home[n]).cache {
        var b := t.home[n];
        assert ScopeAt(t'.stacks, b) == ScopeAt(t.stacks, b);
      }
    }
  }

  lemma PushOk(g: Graph, t: ScopeTable, i: nat)
    requires ScopesOk(g, t) && i < |t.stacks| && t.stacks[i].pid.Some?
    ensures ScopesOk(g, Push(t, i))
    ensures PopScope(Push(t, i), i) == t
  {
    var t' := Push(t, i);
    var s := t.stacks[i];
    assert t'.stacks[i].scopes[..|s.scopes|] == s.scopes;
    assert PopScope(t', i).stacks == t.stacks;
    forall b | IsScope(t'.stacks, b) && b != Place(i, |s.scopes|)
      ensures IsScope(t.stacks, b) && ScopeAt(t'.stacks, b) == ScopeAt(t.stacks, b)
    {
    }
    forall n | n in t'.home ensures IsScope(t'.stacks, t'.home[n]) && n in ScopeAt(t'.stacks, t'.home[n]).cache {
      assert ScopeAt(t'.stacks, t.home[n]) == ScopeAt(t.stacks, t.home[n]);
    }
  }

  /** Tables with the same scopes in the same places, under stacks whose partition changed only while idle. */
  lemma SameScopesOk(g: Graph, t: ScopeTable, t': ScopeTable)
    requires ScopesOk(g, t) && t'.home == t.home
    requires forall b: Place {:trigger IsScope(t'.stacks, b)} :: IsScope(t'.stacks, b) <==> IsScope(t.stacks, b)
    requires forall b: Place {:trigger ScopeAt(t'.stacks, b)} :: IsScope(t.stacks, b) ==>
               ScopeAt(t'.stacks, b) == ScopeAt(t.stacks, b) && t'.stacks[b.stack].pid == t.stacks[b.stack].pid
    requires forall i :: 0 <= i < |t'.stacks| && t'.stacks[i].pid == None ==> t'.stacks[i].scopes == []
    ensures ScopesOk(g, t')
  {
    forall n | n in t'.home ensures IsScope(t'.stacks, t'.home[n]) && n in ScopeAt(t'.stacks, t'.home[n]).cache {
      assert ScopeAt(t'.stacks, t.home[n]) == ScopeAt(t.stacks, t.home[n]);
    }
  }

  lemma AcquireOk(g: Graph, t: ScopeTable, p: nat)
    requires ScopesOk(g, t)
    ensures ScopesOk(g, Acquire(t, p))
  {
    SameScopesOk(g, t, Acquire(t, p));
  }

  lemma ReleaseStackOk(g: Graph, t: ScopeTable, i: nat)
    requires ScopesOk(g, t) && i < |t.stacks| && t.stacks[i].scopes == []
    ensures ScopesOk(g, Release(t, i))
  {
    SameScopesOk(g, t, Release(t, i));
  }

  /** Clearing the stacks of `p` leaves LOCAL exactly the nodes that other stacks cache. */
  lemma ClearPartitionOk(g: Graph, t: ScopeTable, p: nat)
    requires ScopesOk(g, t)
    ensures ScopesOk(g, ClearPartition(t, p))
    ensures forall n :: n in Locals(ClearPartition(t, p)) <==> n in Locals(t) && t.stacks[t.home[n].stack].pid != Some(p)
  {
    var t' := ClearPartition(t, p);
    forall b ensures IsScope(t'.stacks, b) <==> IsScope(t.stacks, b) {
    }
    forall b | IsScope(t'.stacks, b) ensures t'.stacks[b.stack].pid == Some(ScopeAt(t'.stacks, b).pid) {
      assert t.stacks[b.stack].pid == Some(ScopeAt(t.stacks, b).pid);
    }
    forall b | IsScope(t'.stacks, b) ensures ScopeOk(t'.home, b, ScopeAt(t'.stacks, b)) {
      assert ScopeOk(t.home, b, ScopeAt(t.stacks, b));
    }
    forall n | n in t'.home ensures IsScope(t'.stacks, t'.home[n]) && n in ScopeAt(t'.stacks, t'.home[n]).cache {
      assert ScopeAt(t'.stacks, t.home[n]) == ScopeAt(t.stacks, t.home[n]);
    }
  }

  /** That is, no node of `p` itself, exactly when the stacks of `p` held them all. */
  lemma ClearedOfPartitionIff(g: Graph, t: ScopeTable, p: nat)
    requires ScopesOk(g, t)
    ensures (forall n :: n in Locals(ClearPartition(t, p)) && n in g.part ==> g.part[n] != p) <==> HeldInside(g, t, p)
  {
    hide ScopesOk;
    assert forall n {:trigger t.home[n]} :: n in t.home ==> IsScope(t.stacks, t.home[n]) by { HomesAreScopes(g, t); }
    assert forall n {:trigger t.home[n]} :: n in t.home && t.stacks[t.home[n].stack].pid != Some(p)
             ==> n in Locals(ClearPartition(t, p));
  }

  lemma HomesAreScopes(g: Graph, t: ScopeTable)
    requires ScopesOk(g, t)
    ensures forall n {:trigger t.home[n]} :: n in t.home ==> IsScope(t.stacks, t.home[n])
  {
  }

  /** Scopes that cache only their own nodes hold every partition's nodes inside it. */
  lemma OwnNodesHeldInside(g: Graph, t: ScopeTable, p: nat)
    requires ScopesOk(g, t) && OwnNodesOnly(g, t)
    ensures HeldInside(g, t, p)
  {
    forall n | n in t.home && n in g.part && g.part[n] == p ensures t.stacks[t.home[n].stack].pid == Some(p) {
      assert t.stacks[t.home[n].stack].pid == Some(ScopeAt(t.stacks, t.home[n]).pid);
    }
  }

  // ---- what each operation does, as a program can see it ----

  /** Scope `b` is open and caches `x`. */
  predicate Cached(t: ScopeTable, b: Place, x: Ptr) {
    IsScope(t.stacks, b) && x in ScopeAt(t.stacks, b).cache
  }

  /** The same scopes are open, each of the partition it was of, under stacks held as they were. */
  ghost predicate SameShape(t: ScopeTable, t': ScopeTable) {
    && |t'.stacks| == |t.stacks|
    && (forall i {:trigger t'.stacks[i]} :: 0 <= i < |t.stacks| ==> t'.stacks[i].pid == t.stacks[i].pid)
    && (forall b: Place {:trigger IsScope(t'.stacks, b)} :: IsScope(t'.stacks, b) <==> IsScope(t.stacks, b))
    && (forall b: Place {:trigger ScopeAt(t'.stacks, b)} :: IsScope(t.stacks, b) && IsScope(t'.stacks, b) ==>
          ScopeAt(t'.stacks, b).pid == ScopeAt(t.stacks, b).pid)
  }

  /** Adding caches that node there, and nothing else anywhere. */
  lemma AddEffect(t: ScopeTable, at: Place, n: Ptr)
    requires IsScope(t.stacks, at)
    ensures var t' := Add(t, at, n);
            && SameShape(t, t') && Locals(t') == Locals(t) + {n}
            && (forall b, x {:trigger Cached(t', b, x)} :: Cached(t', b, x) <==> Cached(t, b, x) || (b == at && x == n))
  {
  }

  /** Removing takes that node from there, and nothing else from anywhere. */
  lemma RemoveEffect(g: Graph, t: ScopeTable, at: Place, n: Ptr)
    requires ScopesOk(g, t) && IsScope(t.stacks, at)
    ensures var t' := Remove(t, at, n);
            && SameShape(t, t') && Locals(t') == Locals(t) - (if Cached(t, at, n) then {n} else {})
            && (forall b, x {:trigger Cached(t', b, x)} :: Cached(t', b, x) <==> Cached(t, b, x) && !(b == at && x == n))
  {
    var c := ScopeAt(t.stacks, at).cache;
    assert ScopeOk(t.home, at, ScopeAt(t.stacks, at));
    if n in c { SwapRemoveOk(c, IndexOf(c, n)); }
  }

  /** Promotion moves the node to the target, and nothing else. */
  lemma PromoteEffect(g: Graph, t: ScopeTable, at: Place, target: Place, n: Ptr)
    requires ScopesOk(g, t) && IsScope(t.stacks, at) && IsScope(t.stacks, target)
    ensures var t' := Promote(t, at, target, n);
            && SameShape(t, t') && Locals(t') == Locals(t)
            && (forall b, x {:trigger Cached(t', b, x)} :: Cached(t', b, x) <==>
                  if Cached(t, at, n) && x == n then b == target else Cached(t, b, x))
  {
    hide ScopesOk, Remove, Add, SameShape, SetCache;
    RemoveEffect(g, t, at, n);
    PromoteOk(g, t, at, target, n);
    if Cached(t, at, n) {
      var t1 := Remove(t, at, n);
      StillScope(t, t1, target);
      AddEffect(t1, target, n);
      ShapeTrans(t, t1, Add(t1, target, n));
      forall b | Cached(t, b, n) ensures b == at {
        CachedHere(g, t, b, at, n);
      }
    } else {
      ShapeSelf(t);
    }
  }

  lemma StillScope(t: ScopeTable, t': ScopeTable, b: Place)
    requires SameShape(t, t') && IsScope(t.stacks, b)
    ensures IsScope(t'.stacks, b)
  {
  }

  lemma ShapeSelf(t: ScopeTable)
    ensures SameShape(t, t)
  {
  }

  lemma ShapeTrans(a: ScopeTable, b: ScopeTable, c: ScopeTable)
    requires SameShape(a, b) && SameShape(b, c)
    ensures SameShape(a, c)
  {
    forall at: Place | IsScope(a.stacks, at) && IsScope(c.stacks, at) ensures ScopeAt(c.stacks, at).pid == ScopeAt(a.stacks, at).pid {
      assert IsScope(b.stacks, at) && ScopeAt(b.stacks, at).pid == ScopeAt(a.stacks, at).pid;
    }
    forall i | 0 <= i < |a.stacks| ensures c.stacks[i].pid == a.stacks[i].pid {
      assert b.stacks[i].pid == a.stacks[i].pid;
    }
  }

  lemma CachedHere(g: Graph, t: ScopeTable, a: Place, b: Place, n: Ptr)
    requires ScopesOk(g, t) && Cached(t, a, n) && Cached(t, b, n)
    ensures a == b
  {
    assert ScopeOk(t.home, a, ScopeAt(t.stacks, a)) && ScopeOk(t.home, b, ScopeAt(t.stacks, b));
  }

  /** Clearing empties that scope and no other. */
  lemma ClearEffect(g: Graph, t: ScopeTable, at: Place)
    requires ScopesOk(g, t) && IsScope(t.stacks, at)
    ensures var t' := Clear(t, at);
            && SameShape(t, t') && (forall n :: n in Locals(t') <==> n in Locals(t) && !Cached(t, at, n))
            && (forall b, x {:trigger Cached(t', b, x)} :: Cached(t', b, x) <==> Cached(t, b, x) && b != at)
  {
  }

  /** The top scope of stack `i`, which has one. */
  function TopOf(t: ScopeTable, i: nat): Place
    requires i < |t.stacks| && t.stacks[i].scopes != []
  {
    Place(i, |t.stacks[i].scopes| - 1)
  }

  /** Popping closes the top scope and unprotects exactly what it cached. */
  lemma PopEffect(g: Graph, t: ScopeTable, i: nat)
    requires ScopesOk(g, t) && i < |t.stacks|
    ensures var t' := PopScope(t, i);
            if t.stacks[i].scopes == [] then t' == t
            else
              && |t'.stacks| == |t.stacks| && |t'.stacks[i].scopes| == |t.stacks[i].scopes| - 1
              && t'.stacks[i].pid == t.stacks[i].pid && (forall k :: 0 <= k < |t.stacks| && k != i ==> t'.stacks[k] == t.stacks[k])
              && t'.stacks[i].scopes <= t.stacks[i].scopes
              && (forall n :: n in Locals(t') <==> n in Locals(t) && !Cached(t, TopOf(t, i), n))
              && (forall b, x {:trigger Cached(t', b, x)} :: Cached(t', b, x) <==> Cached(t, b, x) && b != TopOf(t, i))
  {
    if t.stacks[i].scopes != [] {
      var t', top := PopScope(t, i), TopOf(t, i);
      forall b | IsScope(t.stacks, b) && b != top ensures IsScope(t'.stacks, b) && ScopeAt(t'.stacks, b) == ScopeAt(t.stacks, b) {
      }
    }
  }

  /** A new scope is open on top, empty, of its stack's partition; nothing else changes. */
  lemma PushEffect(t: ScopeTable, i: nat)
    requires i < |t.stacks| && t.stacks[i].pid.Some?
    ensures var t' := Push(t, i); var top := Place(i, |t.stacks[i].scopes|);
            && t'.home == t.home && |t'.stacks| == |t.stacks|
            && (forall k :: 0 <= k < |t.stacks| ==> t'.stacks[k].pid == t.stacks[k].pid)
            && !IsScope(t.stacks, top) && IsScope(t'.stacks, top)
            && ScopeAt(t'.stacks, top).pid == t.stacks[i].pid.value && ScopeAt(t'.stacks, top).cache == []
            && (forall b: Place {:trigger IsScope(t'.stacks, b)} :: b != top ==>
                  (IsScope(t'.stacks, b) <==> IsScope(t.stacks, b))
                  && (IsScope(t.stacks, b) ==> ScopeAt(t'.stacks, b) == ScopeAt(t.stacks, b)))
  {
  }

  /** Adding `ns` to one scope, one after another. */
  ghost function AddAll(t: ScopeTable, at: Place, ns: seq<Ptr>): (t': ScopeTable)
    requires IsScope(t.stacks, at)
    ensures IsScope(t'.stacks, at)
  {
    if ns == [] then t else Add(AddAll(t, at, ns[..|ns| - 1]), at, ns[|ns| - 1])
  }

  lemma SetCacheTwice(t: seq<Stack>, at: Place, a: seq<Ptr>, b: seq<Ptr>)
    requires IsScope(t, at)
    ensures SetCache(SetCache(t, at, a), at, b) == SetCache(t, at, b)
  {
    var s := t[at.stack].scopes;
    var c := s[at.index];
    assert s[at.index := c.(cache := a)][at.index := c.(cache := b)] == s[at.index := c.(cache := b)];
  }

  lemma {:induction false} AddAllIs(t: ScopeTable, at: Place, ns: seq<Ptr>)
    requires IsScope(t.stacks, at) && (forall n :: n in ns ==> n !in t.home)
    ensures var t' := AddAll(t, at, ns);
            && t'.home - Elems(ns) == t.home
            && t'.stacks == SetCache(t.stacks, at, ScopeAt(t.stacks, at).cache + ns)
  {
    var c := ScopeAt(t.stacks, at).cache;
    if ns == [] {
      assert c + ns == c && Elems(ns) == {};
      var s := t.stacks[at.stack];
      assert s.scopes[at.index := s.scopes[at.index].(cache := c)] == s.scopes;
    } else {
      var k := |ns| - 1;
      AddAllIs(t, at, ns[..k]);
      assert ns == ns[..k] + [ns[k]];
      assert c + ns == c + ns[..k] + [ns[k]];
      assert Elems(ns) == Elems(ns[..k]) + {ns[k]};
      var t1 := AddAll(t, at, ns[..k]);
      assert t1.home[ns[k] := at] - Elems(ns) == t1.home - Elems(ns[..k]) - {ns[k]};
      SetCacheTwice(t.stacks, at, c + ns[..k], c + ns);
    }
  }

  /** Scopes nest: whatever a scope opened on top protects, closing it gives back the table as it was. */
  lemma PopUndoesScope(t: ScopeTable, i: nat, ns: seq<Ptr>)
    requires i < |t.stacks| && t.stacks[i].pid.Some? && (forall n :: n in ns ==> n !in t.home)
    ensures var top := Place(i, |t.stacks[i].scopes|);
            && IsScope(Push(t, i).stacks, top)
            && i < |AddAll(Push(t, i), top, ns).stacks| && PopScope(AddAll(Push(t, i), top, ns), i) == t
  {
    var top := Place(i, |t.stacks[i].scopes|);
    var t1 := Push(t, i);
    AddAllIs(t1, top, ns);
    var t2 := AddAll(t1, top, ns);
    assert ScopeAt(t1.stacks, top).cache + ns == ns;
    assert t2.stacks[i].scopes[..top.index] == t.stacks[i].scopes;
    assert PopScope(t2, i).stacks == t.stacks;
  }

  /** The stack acquired is one nobody held, the first such, or else a new one; it is now held for `p` and has no scope open. */
  lemma AcquireEffect(g: Graph, t: ScopeTable, p: nat)
    requires ScopesOk(g, t)
    ensures var t' := Acquire(t, p);
            exists i {:trigger t'.stacks[i]} ::
              && 0 <= i < |t'.stacks| && t'.home == t.home && t'.stacks[i] == Stack([], Some(p))
              && (i < |t.stacks| ==> t.stacks[i].pid == None && |t'.stacks| == |t.stacks|)
              && (i >= |t.stacks| ==> |t'.stacks| == |t.stacks| + 1)
              && (forall k {:trigger t.stacks[k]} :: 0 <= k < i && k < |t.stacks| ==> t.stacks[k].pid.Some?)
              && (forall k {:trigger t'.stacks[k]} :: 0 <= k < |t.stacks| && k != i ==> t'.stacks[k] == t.stacks[k])
  {
    var i := Idle(t.stacks);
    assert Acquire(t, p).stacks[i] == Stack([], Some(p));
  }

  /** A released stack is held by nobody, and is the one acquired next when it is the first such. */
  lemma ReleaseEffect(t: ScopeTable, i: nat, p: nat)
    requires i < |t.stacks| && t.stacks[i].scopes == []
    ensures Release(t, i).home == t.home && |Release(t, i).stacks| == |t.stacks| && Release(t, i).stacks[i] == Stack([], None)
    ensures forall k :: 0 <= k < |t.stacks| && k != i ==> Release(t, i).stacks[k] == t.stacks[k]
    ensures (forall k :: 0 <= k < i ==> t.stacks[k].pid.Some?) ==>
              Idle(Release(t, i).stacks) == i && (t.stacks[i].pid == Some(p) ==> Acquire(Release(t, i), p) == t)
  {
    if forall k :: 0 <= k < i ==> t.stacks[k].pid.Some? {
      IdleIs(Release(t, i).stacks, i);
    }
  }

  /** Acquiring a stack and giving it back leaves the table as it was, but for a stack it had to add. */
  lemma ReleaseUndoesAcquire(g: Graph, t: ScopeTable, p: nat)
    requires ScopesOk(g, t) && Idle(t.stacks) < |t.stacks|
    ensures Release(Acquire(t, p), Idle(t.stacks)) == t
  {
    var i := Idle(t.stacks);
    assert Release(Acquire(t, p), i).stacks == t.stacks;
  }

  /** Clearing the stacks of `p` empties exactly their scopes, and closes none. */
  lemma ClearPartitionEffect(g: Graph, t: ScopeTable, p: nat)
    requires ScopesOk(g, t)
    ensures var t' := ClearPartition(t, p);
            && SameShape(t, t')
            && (forall b, x {:trigger Cached(t', b, x)} :: Cached(t', b, x) <==>
                  Cached(t, b, x) && t.stacks[b.stack].pid != Some(p))
  {
  }

  // ---- clearing a partition's stacks one scope at a time ----

  /** Already visited by the nested loops when they are at scope `j` of stack `i`. */
  predicate Before(at: Place, i: nat, j: nat) {
    at.stack < i || (at.stack == i && at.index < j)
  }

  ghost function ClearedStack(s: Stack, k: nat, p: nat, i: nat, j: nat): Stack {
    if s.pid == Some(p)
    then s.(scopes := seq(|s.scopes|, b requires 0 <= b < |s.scopes| =>
             if Before(Place(k, b), i, j) then s.scopes[b].(cache := []) else s.scopes[b]))
    else s
  }

  ghost function ClearUpTo(t: ScopeTable, p: nat, i: nat, j: nat): ScopeTable {
    ScopeTable(
      map n | n in t.home && !(t.home[n].stack < |t.stacks| && t.stacks[t.home[n].stack].pid == Some(p) && Before(t.home[n], i, j)) :: t.home[n],
      seq(|t.stacks|, k requires 0 <= k < |t.stacks| => ClearedStack(t.stacks[k], k, p, i, j)))
  }

  lemma ClearUpToStart(t: ScopeTable, p: nat)
    ensures ClearUpTo(t, p, 0, 0) == t
  {
    var t' := ClearUpTo(t, p, 0, 0);
    forall k | 0 <= k < |t.stacks| ensures t'.stacks[k] == t.stacks[k] {
      assert ClearedStack(t.stacks[k], k, p, 0, 0).scopes == t.stacks[k].scopes;
    }
    assert t'.home == t.home;
  }

  lemma ClearUpToScope(g: Graph, t: ScopeTable, p: nat, i: nat, j: nat)
    requires ScopesOk(g, t) && IsScope(t.stacks, Place(i, j)) && t.stacks[i].pid == Some(p)
    ensures IsScope(ClearUpTo(t, p, i, j).stacks, Place(i, j))
    ensures Clear(ClearUpTo(t, p, i, j), Place(i, j)) == ClearUpTo(t, p, i, j + 1)
  {
    var at := Place(i, j);
    var a, b := Clear(ClearUpTo(t, p, i, j), at), ClearUpTo(t, p, i, j + 1);
    assert ScopeOk(t.home, at, ScopeAt(t.stacks, at));
    assert ScopeAt(ClearUpTo(t, p, i, j).stacks, at) == ScopeAt(t.stacks, at);
    forall n | n in t.home ensures n in ScopeAt(t.stacks, at).cache <==> t.home[n] == at {
    }
    assert a.home == b.home;
    forall k | 0 <= k < |t.stacks| ensures a.stacks[k] == b.stacks[k] {
      assert a.stacks[k].scopes == b.stacks[k].scopes;
    }
  }

  lemma ClearUpToStack(g: Graph, t: ScopeTable, p: nat, i: nat, j: nat)
    requires ScopesOk(g, t) && i < |t.stacks| && (t.stacks[i].pid == Some(p) ==> j == |t.stacks[i].scopes|)
    ensures ClearUpTo(t, p, i, j) == ClearUpTo(t, p, i + 1, 0)
  {
    var a, b := ClearUpTo(t, p, i, j), ClearUpTo(t, p, i + 1, 0);
    assert a.home == b.home;
    forall k | 0 <= k < |t.stacks| ensures a.stacks[k] == b.stacks[k] {
      assert a.stacks[k].scopes == b.stacks[k].scopes;
    }
  }

  lemma ClearUpToEnd(g: Graph, t: ScopeTable, p: nat)
    requires ScopesOk(g, t)
    ensures ClearUpTo(t, p, |t.stacks|, 0) == ClearPartition(t, p)
  {
    var a, b := ClearUpTo(t, p, |t.stacks|, 0), ClearPartition(t, p);
    assert a.home == b.home;
    forall k | 0 <= k < |t.stacks| ensures a.stacks[k] == b.stacks[k] {
      assert a.stacks[k].scopes == b.stacks[k].scopes;
    }
  }
}
