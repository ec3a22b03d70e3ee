/** `mark_prepare`, partition by partition and node by node: the loops' intermediate states. */
module Seeding {
  import opened Basics
  import opened Graphs
  import opened Marking

  /** The colours after the first loop of a partition has passed the nodes `xs`. */
  ghost function SeedColors(prot: set<Ptr>, color: map<Ptr, Color>, pending: bool, xs: seq<Ptr>): map<Ptr, Color> {
    map n | n in color ::
      if n !in xs then color[n] else if n in prot then Gray else if pending then color[n] else White
  }

  lemma SeedColorsNext(prot: set<Ptr>, color: map<Ptr, Color>, pending: bool, xs: seq<Ptr>, i: nat)
    requires i < |xs| && xs[i] in color && Distinct(xs)
    ensures var c := SeedColors(prot, color, pending, xs[..i]);
            SeedColors(prot, color, pending, xs[..i + 1])
              == c[xs[i] := if xs[i] in prot then Gray else if pending then c[xs[i]] else White]
    ensures SeedColors(prot, color, pending, xs[..i])[xs[i]] == color[xs[i]]
  {
    assert xs[..i + 1] == xs[..i] + [xs[i]];
    assert xs[i] !in xs[..i];
  }

  /** What seeding partition `i` does to the marking state. */
  ghost function SeedOne(g: Graph, prot: set<Ptr>, m: Marks, i: nat): Marks
    requires MarksOk(g, m) && i < |m.gray|
  {
    var c := g.chain[i];
    if m.gray[i] == []
    then m.(color := SeedColors(prot, m.color, false, c), gray := m.gray[i := Keep(c, prot)])
    else m.(color := SeedColors(prot, m.color, true, c),
            listed := m.listed + (set n | n in c && n in prot),
            gray := m.gray[i := m.gray[i] + Keep(c, prot - m.listed)])
  }

  lemma SeedOneOk(g: Graph, prot: set<Ptr>, m: Marks, i: nat)
    requires MarksOk(g, m) && ChainsOk(g) && i < |m.gray|
    ensures MarksOk(g, SeedOne(g, prot, m, i))
  {
    var m' := SeedOne(g, prot, m, i);
    forall n | n in m'.listed ensures Linked(g, n) && n in m'.gray[g.part[n]] {
      if n !in m.listed { assert n in Keep(g.chain[i], prot - m.listed); }
    }
  }

  ghost function SeededGray(g: Graph, prot: set<Ptr>, m: Marks, q: nat): seq<Ptr>
    requires q < |g.chain| && q < |m.gray|
  {
    if m.gray[q] == [] then Keep(g.chain[q], prot) else m.gray[q] + Keep(g.chain[q], prot - m.listed)
  }

  ghost predicate ColorsBelow(g: Graph, prot: set<Ptr>, m: Marks, color: map<Ptr, Color>, i: nat)
    requires MarksOk(g, m)
  {
    color.Keys == m.color.Keys &&
    forall n {:trigger color[n]} :: n in m.color ==>
      color[n] == if Linked(g, n) && g.part[n] < i then Seeded(g, prot, m, n) else m.color[n]
  }

  ghost predicate ListedBelow(g: Graph, prot: set<Ptr>, m: Marks, listed: set<Ptr>, i: nat)
    requires MarksOk(g, m)
  {
    forall n {:trigger n in listed} :: n in listed <==>
      n in m.listed || (Linked(g, n) && g.part[n] < i && n in prot && m.gray[g.part[n]] != [])
  }

  ghost predicate GraysBelow(g: Graph, prot: set<Ptr>, m: Marks, gray: seq<seq<Ptr>>, i: nat)
    requires MarksOk(g, m)
  {
    |gray| == |m.gray| &&
    forall q {:trigger gray[q]} :: 0 <= q < |m.gray| ==>
      gray[q] == if q >= i then m.gray[q] else SeededGray(g, prot, m, q)
  }

  /** Partitions below `i` are as `mark_prepare` leaves them, the others untouched. */
  ghost predicate SeededBelow(g: Graph, prot: set<Ptr>, m: Marks, m': Marks, i: nat)
    requires MarksOk(g, m)
  {
    && MarksOk(g, m') && m'.marking == m.marking && i <= |g.chain|
    && ColorsBelow(g, prot, m, m'.color, i)
    && ListedBelow(g, prot, m, m'.listed, i)
    && GraysBelow(g, prot, m, m'.gray, i)
  }

  lemma ColorsNext(g: Graph, prot: set<Ptr>, m: Marks, color: map<Ptr, Color>, i: nat)
    requires MarksOk(g, m) && ChainsOk(g) && i < |g.chain| && ColorsBelow(g, prot, m, color, i)
    ensures ColorsBelow(g, prot, m, SeedColors(prot, color, m.gray[i] != [], g.chain[i]), i + 1)
  {
    InChain(g, i);
    hide ChainsOk;
    var color' := SeedColors(prot, color, m.gray[i] != [], g.chain[i]);
    forall n | n in m.color
      ensures color'[n] == if Linked(g, n) && g.part[n] < i + 1 then Seeded(g, prot, m, n) else m.color[n]
    {
      assert color[n] == if Linked(g, n) && g.part[n] < i then Seeded(g, prot, m, n) else m.color[n];
    }
  }

  lemma ListedNext(g: Graph, prot: set<Ptr>, m: Marks, listed: set<Ptr>, i: nat)
    requires MarksOk(g, m) && ChainsOk(g) && i < |g.chain| && ListedBelow(g, prot, m, listed, i)
    ensures ListedBelow(g, prot, m, if m.gray[i] == [] then listed else listed + (set n | n in g.chain[i] && n in prot), i + 1)
  {
    InChain(g, i);
    hide ChainsOk;
  }

  lemma GraysNext(g: Graph, prot: set<Ptr>, m: Marks, listed: set<Ptr>, gray: seq<seq<Ptr>>, i: nat)
    requires MarksOk(g, m) && ChainsOk(g) && i < |g.chain|
    requires ListedBelow(g, prot, m, listed, i) && GraysBelow(g, prot, m, gray, i)
    ensures gray[i] == m.gray[i]
    ensures GraysBelow(g, prot, m,
              gray[i := if gray[i] == [] then Keep(g.chain[i], prot) else gray[i] + Keep(g.chain[i], prot - listed)], i + 1)
  {
    InChain(g, i);
    assert gray[i] == m.gray[i];
    KeepSame(g.chain[i], prot - listed, prot - m.listed);
    hide ChainsOk, MarksOk, Keep;
  }

  lemma SeedNextPartition(g: Graph, prot: set<Ptr>, m: Marks, m': Marks, i: nat)
    requires MarksOk(g, m) && ChainsOk(g) && i < |g.chain| && SeededBelow(g, prot, m, m', i)
    ensures SeededBelow(g, prot, m, SeedOne(g, prot, m', i), i + 1)
  {
    SeedOneOk(g, prot, m', i);
    ColorsNext(g, prot, m, m'.color, i);
    ListedNext(g, prot, m, m'.listed, i);
    GraysNext(g, prot, m, m'.listed, m'.gray, i);
    hide ChainsOk, ColorsBelow, ListedBelow, GraysBelow, SeedColors, Keep;
  }

  lemma InChain(g: Graph, i: nat)
    requires ChainsOk(g) && i < |g.chain|
    ensures forall n {:trigger n in g.chain[i]} :: n in g.chain[i] <==> Linked(g, n) && g.part[n] == i
  {
  }

  lemma AllSeeded(g: Graph, prot: set<Ptr>, m: Marks, m1: Marks, m': Marks, p: nat)
    requires MarksOk(g, m) && p < |m.marking| && !m.marking[p]
    requires m1 == m.(marking := seq(|m.marking|, _ => true))
    requires MarksOk(g, m1) && SeededBelow(g, prot, m1, m', |g.chain|)
    ensures m' == Prepare(g, prot, m, p)
  {
    var w := Prepare(g, prot, m, p);
    assert m'.color == w.color;
    assert m'.listed == w.listed;
    assert m'.gray == w.gray;
  }

  // ---- node by node ----

  /** After `j` nodes of the first loop. */
  ghost function ChainSeeded(prot: set<Ptr>, m: Marks, i: nat, pending: bool, c: seq<Ptr>, j: nat): Marks
    requires i < |m.gray| && j <= |c|
  {
    m.(color := SeedColors(prot, m.color, pending, c[..j]),
       gray := if pending then m.gray else m.gray[i := Keep(c[..j], prot)])
  }

  lemma ChainSeededNext(prot: set<Ptr>, m: Marks, i: nat, pending: bool, c: seq<Ptr>, j: nat)
    requires i < |m.gray| && j < |c| && c[j] in m.color && Distinct(c)
    ensures var m1, n := ChainSeeded(prot, m, i, pending, c, j), c[j];
            n in m1.color &&
            ChainSeeded(prot, m, i, pending, c, j + 1) ==
              if n in prot && pending then m1.(color := m1.color[n := Gray])
              else if n in prot then m1.(color := m1.color[n := Gray], gray := m1.gray[i := m1.gray[i] + [n]])
              else if pending then m1
              else m1.(color := m1.color[n := White])
  {
    SeedColorsNext(prot, m.color, pending, c, j);
    KeepNext(c, j, prot);
    var m1 := ChainSeeded(prot, m, i, pending, c, j);
    assert m1.color[c[j] := m1.color[c[j]]] == m1.color;
    hide SeedColors;
  }

  lemma ChainSeededStart(prot: set<Ptr>, m: Marks, i: nat, pending: bool, c: seq<Ptr>)
    requires i < |m.gray| && (!pending ==> m.gray[i] == [])
    ensures ChainSeeded(prot, m, i, pending, c, 0) == m
  {
    assert SeedColors(prot, m.color, pending, []) == m.color;
    assert m.gray[i := m.gray[i]] == m.gray;
  }

  /** After `j` nodes of the second loop. */
  ghost function PendingSeeded(prot: set<Ptr>, m: Marks, i: nat, c: seq<Ptr>, j: nat): Marks
    requires i < |m.gray| && j <= |c|
  {
    m.(listed := m.listed + (set n | n in c[..j] && n in prot),
       gray := m.gray[i := m.gray[i] + Keep(c[..j], prot - m.listed)])
  }

  lemma PendingSeededNext(prot: set<Ptr>, m: Marks, i: nat, c: seq<Ptr>, j: nat)
    requires i < |m.gray| && j < |c| && Distinct(c)
    ensures var m1, n := PendingSeeded(prot, m, i, c, j), c[j];
            PendingSeeded(prot, m, i, c, j + 1) ==
              if n !in prot || n in m1.listed then m1
              else m1.(listed := m1.listed + {n}, gray := m1.gray[i := m1.gray[i] + [n]])
  {
    KeepNext(c, j, prot - m.listed);
    assert c[..j + 1] == c[..j] + [c[j]];
    assert c[j] !in c[..j];
    var m1, m2 := PendingSeeded(prot, m, i, c, j), PendingSeeded(prot, m, i, c, j + 1);
    assert m2.listed == if c[j] in prot then m1.listed + {c[j]} else m1.listed;
    assert c[j] in m1.listed ==> m1.listed + {c[j]} == m1.listed;
    assert c[j] in m1.listed && c[j] in prot ==> c[j] in m.listed;
    assert m.gray[i] + (Keep(c[..j], prot - m.listed) + [c[j]]) == m1.gray[i] + [c[j]];
    assert m2.gray == if c[j] in prot && c[j] !in m.listed then m1.gray[i := m1.gray[i] + [c[j]]] else m1.gray;
    hide Keep;
  }

  lemma PendingSeededStart(prot: set<Ptr>, m: Marks, i: nat, c: seq<Ptr>)
    requires i < |m.gray|
    ensures PendingSeeded(prot, m, i, c, 0) == m
  {
    assert m.gray[i] + [] == m.gray[i];
    assert m.gray[i := m.gray[i]] == m.gray;
    assert (set n | n in c[..0] && n in prot) == {};
  }
}
