/** The inner loops of `mark_grays`: children shaded one at a time, cross-partition pushes buffered and flushed. */
module Scanning {
  import opened Basics
  import opened Graphs
  import opened Marking

  /** After the children `done` have been visited: all shaded, but only those of partition `p` pushed. */
  ghost function Shading(g: Graph, m: Marks, p: nat, done: seq<Ptr>): Marks
    requires MarksOk(g, m) && p < |m.gray| && forall k :: k in done ==> Linked(g, k)
  {
    assert forall k :: k in done ==> Linked(g, k) && k in m.color;
    Marks(ShadedColors(m.color, done), m.listed + ShadedSet(m.color, done),
          m.gray[p := m.gray[p] + Pushed(g, m.color, done, p)], m.marking)
  }

  /** What visiting one child does at once ... */
  ghost function Visit(g: Graph, m: Marks, p: nat, k: Ptr): Marks
    requires k in m.color && k in g.part && p < |m.gray|
  {
    if m.color[k] == Black then m
    else if g.part[k] == p
    then Marks(m.color[k := Gray], m.listed + {k}, m.gray[p := m.gray[p] + [k]], m.marking)
    else m.(color := m.color[k := Gray], listed := m.listed + {k})
  }

  /** ... and the partition it must be pushed on later, if any. */
  ghost function Crossing(g: Graph, color: map<Ptr, Color>, p: nat, k: Ptr): Option<nat>
    requires k in color && k in g.part
  {
    if color[k] == Black || g.part[k] == p then None else Some(g.part[k])
  }

  /** The buffered children: partition and node, in visiting order. */
  ghost function Cross(g: Graph, color: map<Ptr, Color>, p: nat, done: seq<Ptr>): seq<(nat, Ptr)>
    requires forall k :: k in done ==> k in color && k in g.part
  {
    if done == [] then []
    else
      var i := |done| - 1;
      assert done == done[..i] + [done[i]];
      var rest := Cross(g, color, p, done[..i]);
      if color[done[i]] != Black && g.part[done[i]] != p then rest + [(g.part[done[i]], done[i])] else rest
  }

  /** The buffered children of one partition. */
  ghost function BufferFor(buffer: seq<(nat, Ptr)>, q: nat): seq<Ptr> {
    if buffer == [] then []
    else
      var i := |buffer| - 1;
      if buffer[i].0 == q then BufferFor(buffer[..i], q) + [buffer[i].1] else BufferFor(buffer[..i], q)
  }

  lemma ShadingStart(g: Graph, m: Marks, p: nat)
    requires MarksOk(g, m) && p < |m.gray|
    ensures Shading(g, m, p, []) == m
  {
    assert Shading(g, m, p, []).color == m.color;
    assert m.gray[p := m.gray[p] + []] == m.gray by { assert m.gray[p] + [] == m.gray[p]; }
  }

  lemma ShadingNext(g: Graph, m: Marks, p: nat, done: seq<Ptr>, k: Ptr)
    requires MarksOk(g, m) && p < |m.gray| && (forall k :: k in done ==> Linked(g, k)) && Linked(g, k)
    ensures forall x :: x in done + [k] ==> Linked(g, x)
    ensures var m1 := Shading(g, m, p, done);
            && k in m1.color && k in m.color
            && Shading(g, m, p, done + [k]) == Visit(g, m1, p, k)
            && Crossing(g, m1.color, p, k) == Crossing(g, m.color, p, k)
  {
    ShadingFields(g, m, p, done, k);
    hide Shading, MarksOk;
  }

  lemma ShadingFields(g: Graph, m: Marks, p: nat, done: seq<Ptr>, k: Ptr)
    requires MarksOk(g, m) && p < |m.gray| && (forall k :: k in done ==> Linked(g, k)) && Linked(g, k)
    ensures forall x :: x in done + [k] ==> Linked(g, x)
    ensures var m1, m2 := Shading(g, m, p, done), Shading(g, m, p, done + [k]);
            && k in m1.color && k in m.color && (m1.color[k] == Black <==> m.color[k] == Black)
            && m2.color == (if m1.color[k] == Black then m1.color else m1.color[k := Gray])
            && m2.listed == (if m1.color[k] == Black then m1.listed else m1.listed + {k})
            && |m1.gray| == |m.gray| && m2.marking == m1.marking
            && m2.gray == (if m1.color[k] == Black || g.part[k] != p then m1.gray else m1.gray[p := m1.gray[p] + [k]])
  {
    assert k in m.color && forall x :: x in done ==> x in m.color;
    hide MarksOk;
    ShadedNext(m, done, k);
    PushedNext(g, m.color, done, k, p);
    PushTwice(m.gray, p, Pushed(g, m.color, done, p), k);
    hide ShadedColors, ShadedSet, Pushed;
  }

  lemma PushTwice(gray: seq<seq<Ptr>>, p: nat, a: seq<Ptr>, k: Ptr)
    requires p < |gray|
    ensures var g1 := gray[p := gray[p] + a]; g1[p := g1[p] + [k]] == gray[p := gray[p] + (a + [k])]
  {
    assert gray[p] + a + [k] == gray[p] + (a + [k]);
  }

  lemma ShadedNext(m: Marks, done: seq<Ptr>, k: Ptr)
    requires (forall x :: x in done ==> x in m.color) && k in m.color
    ensures var c := ShadedColors(m.color, done);
            && (c[k] == Black <==> m.color[k] == Black)
            && ShadedColors(m.color, done + [k]) == (if c[k] == Black then c else c[k := Gray])
            && ShadedSet(m.color, done + [k]) == ShadedSet(m.color, done) + (if c[k] == Black then {} else {k})
  {
  }

  lemma CrossNext(g: Graph, color: map<Ptr, Color>, p: nat, done: seq<Ptr>, k: Ptr)
    requires (forall k :: k in done ==> k in color && k in g.part) && k in color && k in g.part
    ensures var c := Crossing(g, color, p, k);
            Cross(g, color, p, done + [k]) == Cross(g, color, p, done) + (if c.Some? then [(c.value, k)] else [])
  {
    assert (done + [k])[..|done|] == done;
  }

  lemma PushedNext(g: Graph, color: map<Ptr, Color>, done: seq<Ptr>, k: Ptr, q: nat)
    requires (forall k :: k in done ==> k in color && k in g.part) && k in color && k in g.part
    ensures Pushed(g, color, done + [k], q) ==
              if color[k] != Black && g.part[k] == q then Pushed(g, color, done, q) + [k] else Pushed(g, color, done, q)
  {
    assert (done + [k])[..|done|] == done;
  }

  lemma {:induction false} BufferIsPushed(g: Graph, color: map<Ptr, Color>, p: nat, done: seq<Ptr>, q: nat)
    requires forall k :: k in done ==> k in color && k in g.part
    ensures BufferFor(Cross(g, color, p, done), q) == if q == p then [] else Pushed(g, color, done, q)
  {
    if done != [] {
      var i := |done| - 1;
      assert done == done[..i] + [done[i]];
      BufferIsPushed(g, color, p, done[..i], q);
      var rest := Cross(g, color, p, done[..i]);
      assert (rest + [(g.part[done[i]], done[i])])[..|rest|] == rest;
    }
  }

  /** Gray stacks with the first `j` buffered pushes flushed. */
  ghost function Flushed(gray: seq<seq<Ptr>>, buffer: seq<(nat, Ptr)>, j: nat): (r: seq<seq<Ptr>>)
    requires j <= |buffer|
    ensures |r| == |gray| && forall q :: 0 <= q < |r| ==> r[q] == gray[q] + BufferFor(buffer[..j], q)
  {
    seq(|gray|, q requires 0 <= q < |gray| => gray[q] + BufferFor(buffer[..j], q))
  }

  lemma FlushNext(gray: seq<seq<Ptr>>, buffer: seq<(nat, Ptr)>, j: nat)
    requires j < |buffer| && buffer[j].0 < |gray|
    ensures var r, q := Flushed(gray, buffer, j), buffer[j].0;
            Flushed(gray, buffer, j + 1) == r[q := r[q] + [buffer[j].1]]
  {
    assert buffer[..j + 1][..j] == buffer[..j];
    var r, q := Flushed(gray, buffer, j), buffer[j].0;
    assert gray[q] + (BufferFor(buffer[..j], q) + [buffer[j].1]) == r[q] + [buffer[j].1];
  }

  lemma FlushStart(gray: seq<seq<Ptr>>, buffer: seq<(nat, Ptr)>)
    ensures Flushed(gray, buffer, 0) == gray
  {
    assert forall q :: 0 <= q < |gray| ==> gray[q] + BufferFor([], q) == gray[q];
  }

  /** Visiting all children and flushing the buffer is shading them. */
  lemma FlushedIsShade(g: Graph, m: Marks, p: nat, done: seq<Ptr>)
    requires MarksOk(g, m) && p < |m.gray| && forall k :: k in done ==> Linked(g, k)
    ensures var m1 := Shading(g, m, p, done);
            (forall k :: k in done ==> k in m.color && k in g.part) &&
            var buffer := Cross(g, m.color, p, done);
            m1.(gray := Flushed(m1.gray, buffer, |buffer|)) == Shade(g, m, done)
  {
    assert forall k :: k in done ==> Linked(g, k) && k in m.color;
    var buffer := Cross(g, m.color, p, done);
    assert buffer[..|buffer|] == buffer;
    var gray := Shading(g, m, p, done).gray;
    forall q | 0 <= q < |gray| ensures Flushed(gray, buffer, |buffer|)[q] == Shade(g, m, done).gray[q] {
      BufferIsPushed(g, m.color, p, done, q);
      assert gray[q] + [] == gray[q];
    }
    assert Flushed(gray, buffer, |buffer|) == Shade(g, m, done).gray;
  }

  lemma {:induction false} CrossInRange(g: Graph, color: map<Ptr, Color>, p: nat, done: seq<Ptr>)
    requires Wf(g) && forall k :: k in done ==> k in color && k in g.part
    ensures forall i :: 0 <= i < |Cross(g, color, p, done)| ==> Cross(g, color, p, done)[i].0 < |g.chain|
  {
    if done != [] {
      var i := |done| - 1;
      assert done == done[..i] + [done[i]];
      CrossInRange(g, color, p, done[..i]);
    }
  }
}
