/** Any number of heap-wide cycles one after another, with anything legal in between. */
module Rounds {
  import opened Basics
  import opened Graphs
  import opened Marking
  import opened Tricolor
  import opened Sweep
  import opened Machine
  import opened Preservation
  import opened Runs
  import opened Global
  import A = Accounting
  import S = Scopes
  import W = Weak

  /** `sweep_unlink` on every partition. */
  ghost function SweptAll(s: State, ps: seq<nat>): State
    requires ChainsOk(s.g) && MarksOk(s.g, s.m)
  {
    var r := UnlinkEach(s.g, Prot(s), s.m, ps);
    s.(g := r.0, m := r.1)
  }

  /** Sweeping touches no node and no gray stack; it switches off exactly the partitions it completes. */
  lemma {:induction false} UnlinkEachFrame(g: Graph, prot: set<Ptr>, m: Marks, ps: seq<nat>)
    requires ChainsOk(g) && MarksOk(g, m) && Distinct(ps) && (forall p :: p in ps ==> CanUnlink(m, p))
    ensures var r := UnlinkEach(g, prot, m, ps);
            && r.0.part == g.part && r.0.dtype == g.dtype && r.0.kids == g.kids && |r.0.chain| == |g.chain|
            && r.1.gray == m.gray && |r.1.marking| == |m.marking|
            && (forall p :: 0 <= p < |m.marking| ==> r.1.marking[p] == (m.marking[p] && p !in ps))
            && (forall n :: n in prot && n in g.linked ==> n in r.0.linked)
    decreases |ps|
  {
    if ps != [] {
      var p := ps[0];
      UnlinkOk(g, prot, m, p);
      UnlinkFacts(g, prot, m, p);
      var g1, m1 := UnlinkGraph(g, prot, m, p), UnlinkMarks(m, p);
      assert m1.gray == m.gray && m1.marking == m.marking[p := false];
      assert forall q :: q in ps <==> q == p || q in ps[1..];
      assert forall q :: q in ps[1..] ==> q != p && CanUnlink(m1, q);
      hide MarksOk, ChainsOk, UnlinkGraph;
      UnlinkEachFrame(g1, prot, m1, ps[1..]);
    }
  }

  /** The idle state a completed cycle leaves: nothing marking, nothing pending. */
  ghost predicate AtRest(s: State) {
    Drained(s.m, Everywhere(s.g)) && forall p :: 0 <= p < |s.m.marking| ==> !s.m.marking[p]
  }

  lemma SweptCanUnlink(s: State, ps: seq<nat>)
    requires MarksOk(s.g, s.m) && CycleOn(s) && Drained(s.m, Everywhere(s.g)) && AllOnce(s.g, ps)
    ensures forall p :: p in ps ==> CanUnlink(s.m, p)
  {
  }

  /** A completed cycle keeps the whole invariant and leaves the heap at rest, ready for the next one. */
  lemma SweptAllOk(layout: seq<nat>, s: State, ps: seq<nat>)
    requires Inv(layout, {}, s) && CycleOn(s) && Drained(s.m, Everywhere(s.g)) && AllOnce(s.g, ps)
    ensures var s' := SweptAll(s, ps);
            Inv(layout, {}, s') && AtRest(s') && Prot(s') == Prot(s) && s'.g.kids == s.g.kids
    ensures forall n :: Live(s, n) ==> Linked(SweptAll(s, ps).g, n)
  {
    hide S.ScopesOk, W.WeakOk, A.AccountsOk, A.LimitOk, Tri, Reach, UnlinkEach, NoDangling, ChainsOk, MarksOk;
    SweptCanUnlink(s, ps);
    DrainedSweepsAreSafe(s.g, Prot(s), s.m, ps);
    UnlinkEachFrame(s.g, Prot(s), s.m, ps);
    LocalsLinked(s);
    var s' := SweptAll(s, ps);
    RestOk(layout, s, s');
    MarksFit(s);
    MarksFit(s');
  }

  lemma MarksFit(s: State)
    requires MarksOk(s.g, s.m)
    ensures Wf(s.g) && |s.m.marking| == |s.g.chain| == |s.m.gray|
  {
  }

  lemma Sweepable(layout: seq<nat>, s: State)
    requires Inv(layout, {}, s)
    ensures ChainsOk(s.g) && MarksOk(s.g, s.m)
  {
  }

  /** Anything legal, then a cycle prepared on `p` with `ops` running in it, then the sweeps `ps`. */
  datatype Round = Round(idle: seq<Op>, p: nat, ops: seq<Op>, ps: seq<nat>)

  ghost predicate LegalRound(layout: seq<nat>, s: State, r: Round)
    requires Inv(layout, {}, s)
  {
    && Legal(layout, {}, s, r.idle)
    && var s1 := Exec(layout, {}, s, r.idle);
       && LegalCycle(layout, s1, r.p, r.ops)
       && var s2 := AfterCycle(layout, s1, r.p, r.ops);
          Drained(s2.m, Everywhere(s2.g)) && AllOnce(s2.g, r.ps)
  }

  /** When its sweeps begin. */
  ghost function Marked(layout: seq<nat>, s: State, r: Round): (s': State)
    requires Inv(layout, {}, s) && LegalRound(layout, s, r)
    ensures Inv(layout, {}, s') && CycleOn(s') && Drained(s'.m, Everywhere(s'.g)) && AllOnce(s'.g, r.ps)
  {
    AfterCycle(layout, Exec(layout, {}, s, r.idle), r.p, r.ops)
  }

  ghost function AfterRound(layout: seq<nat>, s: State, r: Round): (s': State)
    requires Inv(layout, {}, s) && LegalRound(layout, s, r)
    ensures Inv(layout, {}, s') && AtRest(s')
  {
    var s1 := Marked(layout, s, r);
    SweptAllOk(layout, s1, r.ps);
    SweptAll(s1, r.ps)
  }

  ghost predicate LegalRounds(layout: seq<nat>, s: State, rs: seq<Round>)
    requires Inv(layout, {}, s)
    decreases |rs|
  {
    rs == [] || (LegalRound(layout, s, rs[0]) && LegalRounds(layout, AfterRound(layout, s, rs[0]), rs[1..]))
  }

  /** The heap after some rounds: its invariant holds, so the next round can be judged by the same theorem. */
  ghost function AfterRounds(layout: seq<nat>, s: State, rs: seq<Round>): (s': State)
    requires Inv(layout, {}, s) && LegalRounds(layout, s, rs)
    ensures Inv(layout, {}, s') && (rs != [] ==> AtRest(s'))
    decreases |rs|
  {
    if rs == [] then s else AfterRounds(layout, AfterRound(layout, s, rs[0]), rs[1..])
  }

  /** At rest, a cycle may be started on any partition. */
  lemma RestStartsCycle(layout: seq<nat>, s: State, p: nat)
    requires Inv(layout, {}, s) && AtRest(s) && p < |s.g.chain|
    ensures LegalCycle(layout, s, p, [])
  {
    assert |s.m.marking| == |s.g.chain| by { MarksFit(s); }
    PrepareStartsCycle(layout, s, p);
  }

  /** The sweeps of round `r` leave every live node in place, with its children. */
  ghost predicate SparesTheLive(layout: seq<nat>, s: State, r: Round)
    requires Inv(layout, {}, s) && LegalRound(layout, s, r)
  {
    forall n {:trigger Live(Marked(layout, s, r), n)} :: Live(Marked(layout, s, r), n) ==>
      Intact(AfterRound(layout, s, r), n) && Live(AfterRound(layout, s, r), n)
  }

  ghost predicate AllSpareTheLive(layout: seq<nat>, s: State, rs: seq<Round>)
    requires Inv(layout, {}, s) && LegalRounds(layout, s, rs)
    decreases |rs|
  {
    rs == [] || (SparesTheLive(layout, s, rs[0]) && AllSpareTheLive(layout, AfterRound(layout, s, rs[0]), rs[1..]))
  }

  /** What reaches a node before the sweeps reaches it afterwards. */
  lemma LiveAfterSweeps(layout: seq<nat>, s: State, ps: seq<nat>, n: Ptr)
    requires Inv(layout, {}, s) && CycleOn(s) && Drained(s.m, Everywhere(s.g)) && AllOnce(s.g, ps) && Live(s, n)
    ensures Live(SweptAll(s, ps), n)
  {
    hide Inv, CycleOn, AllOnce, Drained, SweptAll, ChainsOk, MarksOk;
    Sweepable(layout, s);
    SweptAllOk(layout, s, ps);
    var s' := SweptAll(s, ps);
    assert s'.g.part == s.g.part && |s'.g.chain| == |s.g.chain| by { SweptPartitions(layout, s, ps); }
    assert forall p :: p in Everywhere(s.g) <==> p in Everywhere(s'.g);
    var path :| PathIn(s.g, Everywhere(s.g), path) && path[0] in Prot(s) && path[|path| - 1] == n;
    forall i | 0 <= i < |path| ensures Linked(s'.g, path[i]) {
      assert PathIn(s.g, Everywhere(s.g), path[..i + 1]) && path[..i + 1][i] == path[i];
      assert Live(s, path[i]);
    }
    forall i, j | 0 <= i && j == i + 1 && j < |path| ensures Edge(s'.g, path[i], path[j]) {
      assert Edge(s.g, path[i], path[j]);
    }
    assert PathIn(s'.g, Everywhere(s'.g), path);
  }

  lemma SweptPartitions(layout: seq<nat>, s: State, ps: seq<nat>)
    requires Inv(layout, {}, s) && CycleOn(s) && Drained(s.m, Everywhere(s.g)) && AllOnce(s.g, ps)
    ensures SweptAll(s, ps).g.part == s.g.part && |SweptAll(s, ps).g.chain| == |s.g.chain|
  {
    hide S.ScopesOk, W.WeakOk, A.AccountsOk, A.LimitOk, Tri, UnlinkEach, NoDangling, ChainsOk, MarksOk;
    SweptCanUnlink(s, ps);
    UnlinkEachFrame(s.g, Prot(s), s.m, ps);
  }

  lemma RoundIsSafe(layout: seq<nat>, s: State, r: Round)
    requires Inv(layout, {}, s) && LegalRound(layout, s, r)
    ensures SparesTheLive(layout, s, r)
  {
    hide Inv, LegalRound, CycleOn, Drained, AllOnce, Live, Intact, SweptAll, Marked, ChainsOk, MarksOk;
    var s1 := Marked(layout, s, r);
    Sweepable(layout, s1);
    SweptAllOk(layout, s1, r.ps);
    forall n | Live(s1, n) ensures Intact(SweptAll(s1, r.ps), n) && Live(SweptAll(s1, r.ps), n) {
      LiveAfterSweeps(layout, s1, r.ps, n);
      LiveIsIntact(layout, {}, SweptAll(s1, r.ps), n);
    }
  }

  /** Over any number of cycles, with anything legal between them, no sweep ever takes a live node. */
  lemma {:induction false} RoundsAreSafe(layout: seq<nat>, s: State, rs: seq<Round>)
    requires Inv(layout, {}, s) && LegalRounds(layout, s, rs)
    ensures AllSpareTheLive(layout, s, rs)
    decreases |rs|
  {
    hide Inv, LegalRound, SparesTheLive, AfterRound;
    if rs != [] {
      RoundIsSafe(layout, s, rs[0]);
      RoundsAreSafe(layout, AfterRound(layout, s, rs[0]), rs[1..]);
    }
  }
}
