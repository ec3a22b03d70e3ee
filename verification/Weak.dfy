/** Weak references: versioned slots, and what an old handle can still be upgraded to. */
module Weak {
  import opened Basics

  const MAX_SLOTS: nat := 0xFF_FFFF    // (1 << 24) - 1 (src/weak.rs:118)

  // ---- the packed identifier (src/weak.rs:8-28, 64-71) ----

  function Pack(index: bv32, version: bv32): bv32 {
    (index << 8) | version
  }

  function IndexBits(id: bv32): bv32 { id >> 8 }

  function VersionBits(id: bv32): bv32 { id & 0xff }

  /** Packing loses nothing for the 24-bit indices and 8-bit versions `downgrade` issues, and is never null. */
  lemma PackRoundTrip(index: bv32, version: bv32)
    requires index < 0x100_0000 && 0 < version < 0x100
    ensures IndexBits(Pack(index, version)) == index
    ensures VersionBits(Pack(index, version)) == version && VersionBits(Pack(index, version)) != 0
  {
  }

  // ---- the table ----

  /** An unpacked identifier; version 0 is null. */
  datatype WeakId = WeakId(index: nat, version: nat)

  const NULL: WeakId := WeakId(0, 0)

  datatype Slot = Slot(version: nat, node: Option<Ptr>)

  /** The nodes' identifiers, the slots, and (for reasoning only) every node each slot was ever issued for. */
  datatype WeakTable = WeakTable(ids: map<Ptr, WeakId>, slots: seq<Slot>, issued: seq<seq<Ptr>>)

  /** The version a slot carries after `k` issues: 1, 2, ..., 255, 1, 2, ... */
  function VersionOf(k: nat): (v: nat)
    ensures v <= 255 && (v == 0 <==> k == 0)
    ensures k > 0 ==> (v as int - k) % 255 == 0
  {
    if k == 0 then 0 else (k - 1) % 255 + 1
  }

  /** Occupied slots and nodes with a non-null identifier are in bijection, and versions count issues. */
  ghost predicate WeakOk(nodes: set<Ptr>, w: WeakTable) {
    && w.ids.Keys == nodes
    && |w.issued| == |w.slots| <= MAX_SLOTS
    && (forall i {:trigger w.slots[i]} :: 0 <= i < |w.slots| ==>
          && w.slots[i].version == VersionOf(|w.issued[i]|)
          && (w.slots[i].node.Some? ==>
                && w.issued[i] != []
                && w.slots[i].node.value == w.issued[i][|w.issued[i]| - 1]
                && w.slots[i].node.value in nodes
                && w.ids[w.slots[i].node.value] == WeakId(i, w.slots[i].version)))
    && (forall n {:trigger w.ids[n]} :: n in nodes && w.ids[n].version != 0 ==>
          && w.ids[n].index < |w.slots|
          && w.slots[w.ids[n].index] == Slot(w.ids[n].version, Some(n)))
  }

  /** The first free slot, or one past the end (src/weak.rs:123-131). */
  function FreeSlot(slots: seq<Slot>): (i: nat)
    ensures i <= |slots| && (i < |slots| ==> slots[i].node == None)
    ensures forall k :: 0 <= k < i ==> slots[k].node.Some?
  {
    if slots == [] || slots[0].node == None then 0 else 1 + FreeSlot(slots[1..])
  }

  lemma {:induction false} FreeSlotIs(slots: seq<Slot>, i: nat)
    requires i <= |slots| && (i < |slots| ==> slots[i].node == None)
    requires forall k :: 0 <= k < i ==> slots[k].node.Some?
    ensures FreeSlot(slots) == i
  {
    if i > 0 {
      assert slots[0].node.Some?;
      FreeSlotIs(slots[1..], i - 1);
    }
  }

  /** `downgrade`'s panic: the table is full, even if a slot of it is free (src/weak.rs:118-120). */
  predicate Full(w: WeakTable, n: Ptr)
    requires n in w.ids
  {
    w.ids[n].version == 0 && |w.slots| >= MAX_SLOTS
  }

  /** `downgrade` (src/weak.rs:100-147). */
  function Downgrade(w: WeakTable, n: Ptr): WeakTable
    requires n in w.ids && |w.issued| == |w.slots|
  {
    if w.ids[n].version != 0 || Full(w, n) then w
    else
      var i := FreeSlot(w.slots);
      var slots := if i < |w.slots| then w.slots else w.slots + [Slot(0, None)];
      var issued := if i < |w.slots| then w.issued else w.issued + [[]];
      var version := if slots[i].version == 255 then 1 else slots[i].version + 1;
      WeakTable(w.ids[n := WeakId(i, version)], slots[i := Slot(version, Some(n))], issued[i := issued[i] + [n]])
  }

  /** `upgrade` (src/weak.rs:150-174). */
  function Upgrade(w: WeakTable, id: WeakId): Option<Ptr> {
    if id.version != 0 && id.index < |w.slots| && w.slots[id.index].version == id.version
    then w.slots[id.index].node
    else None
  }

  /** Disposing nodes empties their slots and forgets their identifiers (src/mem.rs:287-297). */
  function Forget(w: WeakTable, gone: set<Ptr>): WeakTable {
    WeakTable(
      w.ids - gone,
      seq(|w.slots|, i requires 0 <= i < |w.slots| =>
        if w.slots[i].node.Some? && w.slots[i].node.value in gone then Slot(w.slots[i].version, None) else w.slots[i]),
      w.issued)
  }

  /** A newly allocated node has the null identifier. */
  function Enroll(w: WeakTable, n: Ptr): WeakTable {
    w.(ids := w.ids[n := NULL])
  }

  /** `w'` comes later than `w`: slots are never withdrawn and their issue histories only grow. */
  ghost predicate Later(w: WeakTable, w': WeakTable) {
    && |w.issued| <= |w'.issued|
    && forall i {:trigger w.issued[i]} :: 0 <= i < |w.issued| ==>
         |w.issued[i]| <= |w'.issued[i]| && w.issued[i] == w'.issued[i][..|w.issued[i]|]
  }

  lemma LaterTrans(a: WeakTable, b: WeakTable, c: WeakTable)
    requires Later(a, b) && Later(b, c)
    ensures Later(a, c)
  {
    forall i | 0 <= i < |a.issued|
      ensures |a.issued[i]| <= |c.issued[i]| && a.issued[i] == c.issued[i][..|a.issued[i]|]
    {
      assert |b.issued[i]| <= |c.issued[i]| && b.issued[i] == c.issued[i][..|b.issued[i]|];
    }
  }

  lemma DowngradeOk(nodes: set<Ptr>, w: WeakTable, n: Ptr)
    requires WeakOk(nodes, w) && n in nodes
    ensures WeakOk(nodes, Downgrade(w, n)) && Later(w, Downgrade(w, n))
    ensures !Full(w, n) ==> Downgrade(w, n).ids[n].version != 0 && Upgrade(Downgrade(w, n), Downgrade(w, n).ids[n]) == Some(n)
  {
    var w' := Downgrade(w, n);
    if w.ids[n].version == 0 && !Full(w, n) {
      var i := FreeSlot(w.slots);
      if i < |w.slots| {
        assert w.slots[i].version == VersionOf(|w.issued[i]|);
      }
      assert w'.slots[i].version == VersionOf(|w'.issued[i]|);
      forall x | x in nodes && w'.ids[x].version != 0
        ensures w'.ids[x].index < |w'.slots| && w'.slots[w'.ids[x].index] == Slot(w'.ids[x].version, Some(x))
      {
        assert x != n ==> w.ids[x].index != i;
      }
      forall j | 0 <= j < |w'.slots| && w'.slots[j].node.Some?
        ensures w'.slots[j].node.value in nodes && w'.ids[w'.slots[j].node.value] == WeakId(j, w'.slots[j].version)
      {
        assert j != i ==> w.slots[j] == w'.slots[j];
      }
    } else {
      assert w.ids[n].version != 0 ==> w.slots[w.ids[n].index] == Slot(w.ids[n].version, Some(n));
    }
  }

  /**
   An identifier once given stays. A new one goes to the lowest free slot, else to one more slot, and is refused only
   when the table has its 2^24 - 1 slots; no other node's identifier and no other slot changes.
   */
  lemma DowngradeEffect(nodes: set<Ptr>, w: WeakTable, n: Ptr)
    requires WeakOk(nodes, w) && n in nodes
    ensures var w' := Downgrade(w, n);
            && w'.ids.Keys == w.ids.Keys && (forall x :: x in nodes && x != n ==> w'.ids[x] == w.ids[x])
            && (w.ids[n].version != 0 || |w.slots| == MAX_SLOTS ==> w' == w)
            && (w.ids[n].version == 0 && |w.slots| < MAX_SLOTS ==>
                  var i := w'.ids[n].index;
                  && w'.ids[n].version != 0 && i < |w'.slots| && w'.slots[i] == Slot(w'.ids[n].version, Some(n))
                  && |w'.slots| == (if i < |w.slots| then |w.slots| else |w.slots| + 1)
                  && (i < |w.slots| ==> w.slots[i].node == None) && i <= |w.slots|
                  && (forall k :: 0 <= k < i ==> w.slots[k].node.Some?)
                  && (forall k :: 0 <= k < |w.slots| && k != i ==> w'.slots[k] == w.slots[k]))
  {
  }

  /** After disposal no handle upgrades to what is gone, and every handle to anything else upgrades as before. */
  lemma ForgetEffect(w: WeakTable, gone: set<Ptr>, id: WeakId)
    ensures Upgrade(Forget(w, gone), id) ==
              (if Upgrade(w, id).Some? && Upgrade(w, id).value in gone then None else Upgrade(w, id))
    ensures Forget(w, gone).ids == w.ids - gone && |Forget(w, gone).slots| == |w.slots|
    ensures forall i :: 0 <= i < |w.slots| ==> Forget(w, gone).slots[i].version == w.slots[i].version
  {
  }

  /** A new node has no handle yet, and no handle upgrades differently. */
  lemma EnrollEffect(w: WeakTable, n: Ptr, id: WeakId)
    ensures Enroll(w, n).ids.Keys == w.ids.Keys + {n} && Enroll(w, n).ids[n].version == 0
    ensures forall x :: x in w.ids && x != n ==> Enroll(w, n).ids[x] == w.ids[x]
    ensures Upgrade(Enroll(w, n), id) == Upgrade(w, id)
  {
  }

  lemma ForgetOk(nodes: set<Ptr>, w: WeakTable, gone: set<Ptr>)
    requires WeakOk(nodes, w)
    ensures WeakOk(nodes - gone, Forget(w, gone)) && Later(w, Forget(w, gone))
  {
    var w' := Forget(w, gone);
    forall n | n in nodes - gone && w'.ids[n].version != 0
      ensures w'.ids[n].index < |w'.slots| && w'.slots[w'.ids[n].index] == Slot(w'.ids[n].version, Some(n))
    {
      assert w.ids[n].version != 0;
    }
  }

  /** Disposing one node touches the one slot its identifier names. */
  lemma ForgetOne(nodes: set<Ptr>, w: WeakTable, n: Ptr)
    requires WeakOk(nodes, w) && n in nodes
    ensures w.ids[n].version != 0 ==> w.ids[n].index < |w.slots|
    ensures Forget(w, {n}).slots ==
              if w.ids[n].version != 0 then w.slots[w.ids[n].index := w.slots[w.ids[n].index].(node := None)] else w.slots
  {
    if w.ids[n].version != 0 {
      assert w.slots[w.ids[n].index] == Slot(w.ids[n].version, Some(n));
    }
  }

  lemma ForgetStart(w: WeakTable)
    ensures Forget(w, {}).slots == w.slots
  {
  }

  lemma ForgetNext(nodes: set<Ptr>, w: WeakTable, a: set<Ptr>, n: Ptr)
    requires WeakOk(nodes, w) && n in nodes
    ensures w.ids[n].version != 0 ==> w.ids[n].index < |w.slots|
    ensures Forget(w, a + {n}).slots ==
              if w.ids[n].version != 0
              then Forget(w, a).slots[w.ids[n].index := Forget(w, a).slots[w.ids[n].index].(node := None)]
              else Forget(w, a).slots
  {
    if w.ids[n].version != 0 {
      assert w.slots[w.ids[n].index] == Slot(w.ids[n].version, Some(n));
    }
  }

  lemma ForgetTwice(w: WeakTable, a: set<Ptr>, b: set<Ptr>)
    ensures Forget(Forget(w, a), b) == Forget(w, a + b)
  {
    assert w.ids - a - b == w.ids - (a + b);
  }

  lemma EnrollOk(nodes: set<Ptr>, w: WeakTable, n: Ptr)
    requires WeakOk(nodes, w) && n !in nodes
    ensures WeakOk(nodes + {n}, Enroll(w, n)) && Later(w, Enroll(w, n))
  {
    var w' := Enroll(w, n);
    forall x | x in nodes + {n} && w'.ids[x].version != 0
      ensures w'.ids[x].index < |w'.slots| && w'.slots[w'.ids[x].index] == Slot(w'.ids[x].version, Some(x))
    {
      assert x in nodes && w.ids[x].version != 0;
    }
    forall i | 0 <= i < |w'.slots| && w'.slots[i].node.Some?
      ensures w'.ids[w'.slots[i].node.value] == WeakId(i, w'.slots[i].version)
    {
      assert w.slots[i].node.value in nodes;
    }
  }

  /** While the node is in memory, every handle to it upgrades to it. */
  lemma LiveHandleUpgrades(nodes: set<Ptr>, w: WeakTable, n: Ptr)
    requires WeakOk(nodes, w) && n in nodes && w.ids[n].version != 0
    ensures Upgrade(w, w.ids[n]) == Some(n)
  {
    assert w.slots[w.ids[n].index] == Slot(w.ids[n].version, Some(n));
  }

  /** Handles of different nodes differ: the occupied slots and the identified nodes are in bijection. */
  lemma HandlesAreUnique(nodes: set<Ptr>, w: WeakTable, n: Ptr, x: Ptr)
    requires WeakOk(nodes, w) && n in nodes && x in nodes && w.ids[n].version != 0 && w.ids[n] == w.ids[x]
    ensures n == x
  {
    LiveHandleUpgrades(nodes, w, n);
    LiveHandleUpgrades(nodes, w, x);
  }

  /** Versions repeat every 255 issues, and no sooner. */
  lemma VersionsAgreeIff(k: nat, l: nat)
    requires 0 < k <= l
    ensures VersionOf(k) == VersionOf(l) <==> (l - k) % 255 == 0
  {
  }

  /**
   The handle issued as slot `i`'s `k`-th identifier, used at any later point. It upgrades exactly when the
   slot is occupied and has been re-issued a multiple of 255 times since, to the node of the latest issue:
   with no re-issue that is the very node it was made for, otherwise at least 255 re-issues lie between.
   */
  lemma StaleHandle(nodes: set<Ptr>, w: WeakTable, w': WeakTable, i: nat, k: nat)
    requires WeakOk(nodes, w') && Later(w, w')
    requires i < |w.issued| && 0 < k <= |w.issued[i]|
    ensures var r := Upgrade(w', WeakId(i, VersionOf(k)));
            var again := |w'.issued[i]| - k;
            && (r.Some? <==> w'.slots[i].node.Some? && again % 255 == 0)
            && (r.Some? ==> r.value == w'.issued[i][|w'.issued[i]| - 1])
            && (r.Some? && again < 255 ==> r.value == w.issued[i][k - 1])
  {
    assert |w.issued[i]| <= |w'.issued[i]| && w.issued[i] == w'.issued[i][..|w.issued[i]|];
    assert w'.slots[i].version == VersionOf(|w'.issued[i]|);
    hide VersionOf, WeakOk, Later;
    VersionsAgreeIff(k, |w'.issued[i]|);
    var again := |w'.issued[i]| - k;
    assert again % 255 == 0 && again < 255 ==> again == 0;
  }
}
