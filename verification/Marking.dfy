/**
 The tri-colour marking state and what each marking operation does to it, as functions on values:
 colours, GRAY_LISTED flags, per-partition gray stacks and the per-partition marking switch.
 */
module Marking {
  import opened Basics
  import opened Graphs

  datatype Color = White | Gray | Black

  datatype Marks = Marks(
    color: map<Ptr, Color>,
    listed: set<Ptr>,           // nodes carrying GRAY_LISTED
    gray: seq<seq<Ptr>>,        // per partition: the gray stack, top last
    marking: seq<bool>)         // per partition: is a marking cycle running

  /** Gray stacks hold linked nodes of their own partition, and a flagged node is on its stack (not conversely). */
  ghost predicate MarksOk(g: Graph, m: Marks) {
    && Wf(g)
    && m.color.Keys == g.part.Keys
    && |m.gray| == |g.chain|
    && |m.marking| == |g.chain|
    && (forall p, n {:trigger n in m.gray[p]} :: 0 <= p < |m.gray| && n in m.gray[p] ==> Linked(g, n) && g.part[n] == p)
    && (forall n {:trigger n in m.listed} :: n in m.listed ==> Linked(g, n) && g.part[n] < |m.gray| && n in m.gray[g.part[n]])
  }

  /** The tri-colour invariant restricted to the partitions `P` and the edges between them. */
  ghost predicate Tri(g: Graph, prot: set<Ptr>, m: Marks, P: set<nat>)
    requires MarksOk(g, m)
  {
    && (forall n {:trigger m.color[n]} :: Linked(g, n) && g.part[n] in P && m.color[n] == Gray ==> n in m.gray[g.part[n]])
    && (forall n {:trigger m.color[n]} :: Linked(g, n) && g.part[n] in P && n in prot ==> m.color[n] != White)
    && (forall n, k {:trigger Edge(g, n, k)} :: Edge(g, n, k) && Linked(g, k) && g.part[n] in P && g.part[k] in P && m.color[n] == Black
          ==> m.color[k] != White)
  }

  /** No node of `P` has been shaded without being reachable inside `P`. */
  ghost predicate Sound(g: Graph, prot: set<Ptr>, m: Marks, P: set<nat>)
    requires MarksOk(g, m)
  {
    forall n {:trigger m.color[n]} :: Linked(g, n) && g.part[n] in P && m.color[n] != White ==> Reach(g, prot, P, n)
  }

  /** Every gray stack of `P` is empty. */
  ghost predicate Drained(m: Marks, P: set<nat>) {
    forall p :: p in P && p < |m.gray| ==> m.gray[p] == []
  }

  /** Every partition is marking. */
  ghost predicate AllMarking(m: Marks) {
    forall p :: 0 <= p < |m.marking| ==> m.marking[p]
  }

  // ---- the operations ----

  /** `GcPartition::add_gray_node` on partition `q` (src/partition.rs:109-131). */
  ghost function Enlist(m: Marks, q: nat, n: Ptr): Marks
    requires n in m.color && q < |m.gray|
  {
    if m.color[n] == Black then m
    else if n in m.listed then m.(color := m.color[n := Gray])
    else Marks(m.color[n := Gray], m.listed + {n}, m.gray[q := m.gray[q] + [n]], m.marking)
  }

  /** Shade `n` when its partition `q` is marking, as root, LOCAL and allocation steps do. */
  ghost function EnlistIfMarking(m: Marks, q: nat, n: Ptr): Marks
    requires n in m.color && q < |m.gray| == |m.marking|
  {
    if m.marking[q] then Enlist(m, q, n) else m
  }

  /** `with_write_barrier` before its mutator runs (src/node.rs:442-455). */
  ghost function Barrier(g: Graph, m: Marks, n: Ptr): Marks
    requires MarksOk(g, m) && Linked(g, n)
  {
    if m.marking[g.part[n]] && m.color[n] == Black
    then Enlist(m.(color := m.color[n := Gray]), g.part[n], n)
    else m
  }

  /** `bind` (src/node.rs:633-677): the Dijkstra barrier, then the cross-partition push. */
  ghost function BindMarks(g: Graph, m: Marks, master: Ptr, slave: Ptr): Marks
    requires MarksOk(g, m) && Linked(g, master) && Linked(g, slave)
  {
    var q := g.part[slave];
    var m1 :=
      if m.color[master] == Black && m.color[slave] != Black
      then EnlistIfMarking(m.(color := m.color[slave := Gray]), q, slave)
      else m;
    if g.part[master] != q && m1.color[slave] != Black && m1.marking[q] then Enlist(m1, q, slave) else m1
  }

  /** `mark_reset` (src/mark_sweep.rs:33-48). */
  ghost function Reset(g: Graph, m: Marks, p: nat): Marks
    requires MarksOk(g, m) && p < |m.gray|
  {
    Marks(map n | n in m.color :: if Linked(g, n) && g.part[n] == p then White else m.color[n],
          m.listed - Elems(m.gray[p]), m.gray[p := []], m.marking[p := false])
  }

  /** `mark_prepare` (src/mark_sweep.rs:50-99): all partitions start marking and every one is seeded. */
  ghost function Prepare(g: Graph, prot: set<Ptr>, m: Marks, p: nat): Marks
    requires MarksOk(g, m)
  {
    if p >= |m.marking| || m.marking[p] then m
    else
      Marks(
        map n | n in m.color :: Seeded(g, prot, m, n),
        m.listed + (set n | n in m.color && Linked(g, n) && n in prot && m.gray[g.part[n]] != []),
        seq(|m.gray|, q requires 0 <= q < |m.gray| =>
          if m.gray[q] == [] then Keep(g.chain[q], prot) else m.gray[q] + Keep(g.chain[q], prot - m.listed)),
        seq(|m.marking|, _ => true))
  }

  /** The colour `mark_prepare` gives a node: roots and locals turn Gray, the rest White unless grays are pending. */
  ghost function Seeded(g: Graph, prot: set<Ptr>, m: Marks, n: Ptr): Color
    requires MarksOk(g, m) && n in m.color
  {
    if !Linked(g, n) then m.color[n]
    else if n in prot then Gray
    else if m.gray[g.part[n]] == [] then White
    else m.color[n]
  }

  /** The children among `ks` that scanning pushes on partition `q`'s stack, in visiting order. */
  ghost function Pushed(g: Graph, color: map<Ptr, Color>, ks: seq<Ptr>, q: nat): (pushed: seq<Ptr>)
    requires forall k :: k in ks ==> k in color && k in g.part
    ensures forall k :: k in pushed <==> k in ks && color[k] != Black && g.part[k] == q
  {
    if ks == [] then []
    else
      var n := |ks| - 1;
      assert ks == ks[..n] + [ks[n]];
      var rest := Pushed(g, color, ks[..n], q);
      if color[ks[n]] != Black && g.part[ks[n]] == q then rest + [ks[n]] else rest
  }

  ghost function ShadedColors(color: map<Ptr, Color>, ks: seq<Ptr>): map<Ptr, Color> {
    map n | n in color :: if n in ks && color[n] != Black then Gray else color[n]
  }

  ghost function ShadedSet(color: map<Ptr, Color>, ks: seq<Ptr>): set<Ptr>
    requires forall k :: k in ks ==> k in color
  {
    set k | k in ks && color[k] != Black
  }

  /** Shading the traced children `ks`: White and Gray ones turn Gray, flagged, pushed on their own partition's stack. */
  ghost function Shade(g: Graph, m: Marks, ks: seq<Ptr>): Marks
    requires MarksOk(g, m)
    requires forall k :: k in ks ==> Linked(g, k)
  {
    assert forall k :: k in ks ==> Linked(g, k) && k in m.color;
    Marks(
      ShadedColors(m.color, ks),
      m.listed + ShadedSet(m.color, ks),
      seq(|m.gray|, q requires 0 <= q < |m.gray| => m.gray[q] + Pushed(g, m.color, ks, q)),
      m.marking)
  }

  /** Popping the top of `p`'s gray stack and clearing its flag. */
  ghost function Pop(m: Marks, p: nat): Marks
    requires p < |m.gray| && m.gray[p] != []
  {
    var i := |m.gray[p]| - 1;
    m.(listed := m.listed - {m.gray[p][i]}, gray := m.gray[p := m.gray[p][..i]])
  }

  ghost function Top(m: Marks, p: nat): (n: Ptr)
    requires p < |m.gray| && m.gray[p] != []
    ensures n in m.gray[p]
  {
    m.gray[p][|m.gray[p]| - 1]
  }

  ghost predicate GrayTop(g: Graph, m: Marks, p: nat)
    requires MarksOk(g, m) && p < |m.gray| && m.gray[p] != []
  {
    var n := Top(m, p);
    assert Linked(g, n);
    m.color[n] == Gray
  }

  /** The order in which a scan visits the children of `n`: the duplicate-free trace, popped from the back. */
  ghost function ScanOrder(g: Graph, n: Ptr): (ks: seq<Ptr>)
    requires n in g.kids
    ensures forall k :: k in ks <==> k in g.kids[n]
  {
    Reverse(Dedup(g.kids[n]))
  }

  /** One unit of marking work: pop the Gray top of `p`'s stack, shade its children, blacken it. */
  ghost function Scan(g: Graph, m: Marks, p: nat): Marks
    requires NoDangling(g) && MarksOk(g, m) && p < |m.gray| && m.gray[p] != []
  {
    var n := Top(m, p);
    PopOk(g, m, p);
    ScanOrderLinked(g, n);
    var m2 := Shade(g, Pop(m, p), ScanOrder(g, n));
    m2.(color := m2.color[n := Black])
  }

  ghost function NonBlack(g: Graph, m: Marks, p: nat): set<Ptr>
    requires MarksOk(g, m) && p < |g.chain|
  {
    set n | n in m.color && Linked(g, n) && g.part[n] == p && m.color[n] != Black
  }

  /**
   `mark_grays` (src/mark_sweep.rs:127-191) with `budget` scans left: the marking state it ends in and
   whether the stack was drained. At the step limit the Gray top is pushed back without its flag.
   */
  ghost function MarkLoop(g: Graph, m: Marks, p: nat, budget: nat): (Marks, bool)
    requires NoDangling(g) && MarksOk(g, m) && p < |m.gray|
    decreases |NonBlack(g, m, p)|, |m.gray[p]|
  {
    if m.gray[p] == [] then (m, true)
    else
      PopOk(g, m, p);
      if !GrayTop(g, m, p) then
        MarkLoop(g, Pop(m, p), p, budget)
      else if budget == 0 then (m.(listed := m.listed - {Top(m, p)}), false)
      else
        ScanOk(g, m, p);
        MarkLoop(g, Scan(g, m, p), p, budget - 1)
  }

  /** `mark` (src/mark_sweep.rs:194-201). A zero budget prepares and reports "not done". */
  ghost function Mark(g: Graph, prot: set<Ptr>, m: Marks, p: nat, budget: nat): (Marks, bool)
    requires NoDangling(g) && ChainsOk(g) && MarksOk(g, m) && p < |m.gray|
  {
    PrepareOk(g, prot, m, p);
    var m1 := Prepare(g, prot, m, p);
    if budget == 0 then (m1, false) else MarkLoop(g, m1, p, budget)
  }

  /** The nodes `sweep_unlink` takes out of partition `p` (src/mark_sweep.rs:403-404). */
  ghost function Dead(g: Graph, prot: set<Ptr>, m: Marks, p: nat): set<Ptr>
    requires MarksOk(g, m) && p < |g.chain|
  {
    set n | n in m.color && Linked(g, n) && g.part[n] == p && m.color[n] == White && n !in prot
  }

  // ---- structural facts ----

  lemma PopOk(g: Graph, m: Marks, p: nat)
    requires MarksOk(g, m) && p < |m.gray| && m.gray[p] != []
    ensures MarksOk(g, Pop(m, p)) && Linked(g, Top(m, p))
    ensures g.part[Top(m, p)] == p
    ensures NonBlack(g, Pop(m, p), p) == NonBlack(g, m, p)
  {
    var n := Top(m, p);
    assert n in m.gray[p];
    var rest := m.gray[p][..|m.gray[p]| - 1];
    assert m.gray[p] == rest + [n];
    assert forall x :: x in m.gray[p] <==> x in rest || x == n;
  }

  lemma ScanOrderLinked(g: Graph, n: Ptr)
    requires Wf(g) && NoDangling(g) && Linked(g, n)
    ensures forall k :: k in ScanOrder(g, n) ==> Edge(g, n, k) && Linked(g, k)
  {
    forall k | k in ScanOrder(g, n) ensures Edge(g, n, k) && Linked(g, k) {
      assert Edge(g, n, k);
    }
  }

  lemma ShadeOk(g: Graph, m: Marks, ks: seq<Ptr>)
    requires MarksOk(g, m)
    requires forall k :: k in ks ==> Linked(g, k)
    ensures MarksOk(g, Shade(g, m, ks))
  {
    var m' := Shade(g, m, ks);
    forall p, n | 0 <= p < |m'.gray| && n in m'.gray[p] ensures Linked(g, n) && g.part[n] == p {
      assert n in m.gray[p] || n in Pushed(g, m.color, ks, p);
    }
  }

  /** A scan keeps the structure, blackens exactly its node and whitens nothing. */
  lemma ScanOk(g: Graph, m: Marks, p: nat)
    requires NoDangling(g) && MarksOk(g, m) && p < |m.gray| && m.gray[p] != []
    requires GrayTop(g, m, p)
    ensures MarksOk(g, Scan(g, m, p))
    ensures NonBlack(g, Scan(g, m, p), p) == NonBlack(g, m, p) - {Top(m, p)}
    ensures |NonBlack(g, Scan(g, m, p), p)| == |NonBlack(g, m, p)| - 1
    ensures Scan(g, m, p).marking == m.marking
  {
    PopOk(g, m, p);
    ScanOrderLinked(g, Top(m, p));
    ShadeOk(g, Pop(m, p), ScanOrder(g, Top(m, p)));
    assert Top(m, p) in NonBlack(g, m, p);
  }

  lemma PrepareOk(g: Graph, prot: set<Ptr>, m: Marks, p: nat)
    requires MarksOk(g, m) && ChainsOk(g)
    ensures MarksOk(g, Prepare(g, prot, m, p))
    ensures p < |m.marking| ==> Prepare(g, prot, m, p).marking[p]
  {
    var m' := Prepare(g, prot, m, p);
    if p < |m.marking| && !m.marking[p] {
      forall n | n in m'.listed ensures n in m'.gray[g.part[n]] {
        if n !in m.listed { assert n in Keep(g.chain[g.part[n]], prot - m.listed); }
      }
    }
  }

  lemma {:induction false} MarkLoopOk(g: Graph, m: Marks, p: nat, budget: nat)
    requires NoDangling(g) && MarksOk(g, m) && p < |m.gray|
    ensures var r := MarkLoop(g, m, p, budget);
            MarksOk(g, r.0) && r.0.marking == m.marking && (r.1 ==> r.0.gray[p] == [])
    decreases |NonBlack(g, m, p)|, |m.gray[p]|
  {
    hide Scan;
    if m.gray[p] != [] {
      PopOk(g, m, p);
      if !GrayTop(g, m, p) {
        MarkLoopOk(g, Pop(m, p), p, budget);
      } else if budget > 0 {
        ScanOk(g, m, p);
        var m2 := Scan(g, m, p);
        MarkLoopOk(g, m2, p, budget - 1);
      }
    }
  }

  lemma MarkOk(g: Graph, prot: set<Ptr>, m: Marks, p: nat, budget: nat)
    requires NoDangling(g) && ChainsOk(g) && MarksOk(g, m) && p < |m.gray|
    ensures var r := Mark(g, prot, m, p, budget);
            MarksOk(g, r.0) && r.0.marking[p] && (r.1 ==> r.0.gray[p] == [])
  {
    PrepareOk(g, prot, m, p);
    MarkLoopOk(g, Prepare(g, prot, m, p), p, budget);
  }

  lemma EnlistOk(g: Graph, m: Marks, n: Ptr)
    requires MarksOk(g, m) && Linked(g, n)
    ensures MarksOk(g, Enlist(m, g.part[n], n))
  {
  }

  lemma BarrierMarksOk(g: Graph, m: Marks, n: Ptr)
    requires MarksOk(g, m) && Linked(g, n)
    ensures MarksOk(g, Barrier(g, m, n))
  {
    EnlistOk(g, m.(color := m.color[n := Gray]), n);
  }

  /** `bind` does at most one of two things: list the slave Gray, or (when not marking) only colour it. */
  lemma BindForm(g: Graph, m: Marks, master: Ptr, slave: Ptr)
    requires MarksOk(g, m) && Linked(g, master) && Linked(g, slave)
    ensures var p := g.part[slave];
            BindMarks(g, m, master, slave) ==
              if m.color[slave] == Black || (m.color[master] != Black && (g.part[master] == p || !m.marking[p])) then m
              else if m.marking[p] then Enlist(m, p, slave)
              else m.(color := m.color[slave := Gray])
  {
    var p := g.part[slave];
    assert m.color[slave := Gray][slave := Gray] == m.color[slave := Gray];
  }

  lemma BindMarksOk(g: Graph, m: Marks, master: Ptr, slave: Ptr)
    requires MarksOk(g, m) && Linked(g, master) && Linked(g, slave)
    ensures MarksOk(g, BindMarks(g, m, master, slave))
  {
    EnlistOk(g, m.(color := m.color[slave := Gray]), slave);
    EnlistOk(g, m, slave);
  }

  // ---- one turn of the marking loop ----

  lemma MarkLoopIdle(g: Graph, m: Marks, p: nat, budget: nat)
    requires NoDangling(g) && MarksOk(g, m) && p < |m.gray| && m.gray[p] == []
    ensures MarkLoop(g, m, p, budget) == (m, true)
  {
  }

  lemma MarkLoopPop(g: Graph, m: Marks, p: nat, budget: nat)
    requires NoDangling(g) && MarksOk(g, m) && p < |m.gray| && m.gray[p] != [] && !GrayTop(g, m, p)
    ensures MarksOk(g, Pop(m, p)) && MarkLoop(g, m, p, budget) == MarkLoop(g, Pop(m, p), p, budget)
  {
    PopOk(g, m, p);
  }

  lemma MarkLoopStop(g: Graph, m: Marks, p: nat)
    requires NoDangling(g) && MarksOk(g, m) && p < |m.gray| && m.gray[p] != [] && GrayTop(g, m, p)
    ensures MarkLoop(g, m, p, 0) == (m.(listed := m.listed - {Top(m, p)}), false)
  {
  }

  lemma MarkLoopScan(g: Graph, m: Marks, p: nat, budget: nat)
    requires NoDangling(g) && MarksOk(g, m) && p < |m.gray| && m.gray[p] != [] && GrayTop(g, m, p) && budget > 0
    ensures MarksOk(g, Scan(g, m, p)) && MarkLoop(g, m, p, budget) == MarkLoop(g, Scan(g, m, p), p, budget - 1)
  {
    hide Scan;
    ScanOk(g, m, p);
  }
}
