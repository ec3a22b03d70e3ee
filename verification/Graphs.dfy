/**
 The object graph the collector works on: which nodes are in memory, which partition owns each, what
 its payload traces to, which nodes are linked in a partition's chain and which have been unlinked by
 a sweep but not yet disposed ("limbo").
 */
module Graphs {
  import opened Basics

  datatype Graph = Graph(
    kids: map<Ptr, seq<Ptr>>,   // what the payload's trace function reports
    part: map<Ptr, nat>,        // owning partition
    dtype: map<Ptr, nat>,       // registered type
    linked: set<Ptr>,           // nodes on some partition's chain
    chain: seq<seq<Ptr>>)       // per partition: its linked nodes, head first

  ghost predicate Linked(g: Graph, n: Ptr) {
    n in g.linked && n in g.part
  }

  /** Unlinked by a sweep, still in memory. */
  ghost predicate InLimbo(g: Graph, n: Ptr) {
    n in g.part && n !in g.linked
  }

  ghost predicate Wf(g: Graph) {
    && g.kids.Keys == g.part.Keys
    && g.dtype.Keys == g.part.Keys
    && g.linked <= g.part.Keys
    && (forall n {:trigger n in g.part} :: n in g.part ==> g.part[n] < |g.chain|)
  }

  /** The chains hold exactly the linked nodes, each once, on the chain of its own partition. */
  ghost predicate ChainsOk(g: Graph) {
    && (forall p, n {:trigger n in g.chain[p]} :: 0 <= p < |g.chain| && n in g.chain[p] ==> Linked(g, n) && g.part[n] == p)
    && (forall n {:trigger n in g.linked} :: Linked(g, n) ==> g.part[n] < |g.chain| && n in g.chain[g.part[n]])
    && (forall p :: 0 <= p < |g.chain| ==> Distinct(g.chain[p]))
  }

  /** `k` is a child of the linked node `n`. */
  ghost predicate Edge(g: Graph, n: Ptr, k: Ptr) {
    Linked(g, n) && n in g.kids && k in g.kids[n]
  }

  /** Every child of a linked node is itself linked: no trace can follow a pointer to freed memory. */
  ghost predicate NoDangling(g: Graph) {
    forall n, k {:trigger Edge(g, n, k)} :: Edge(g, n, k) ==> Linked(g, k)
  }

  /** No linked node of another partition points into partition `p`. */
  ghost predicate NoInbound(g: Graph, p: nat) {
    forall n, k {:trigger Edge(g, n, k)} :: Edge(g, n, k) && k in g.part && g.part[k] == p ==> g.part[n] == p
  }

  // ---- reachability inside a set of partitions ----

  ghost predicate PathIn(g: Graph, P: set<nat>, path: seq<Ptr>) {
    && |path| > 0
    && (forall i :: 0 <= i < |path| ==> Linked(g, path[i]) && g.part[path[i]] in P)
    && (forall i, j :: 0 <= i && j == i + 1 && j < |path| ==> Edge(g, path[i], path[j]))
  }

  /** `n` can be reached from a protected node along edges that stay inside the partitions `P`. */
  ghost predicate Reach(g: Graph, prot: set<Ptr>, P: set<nat>, n: Ptr) {
    exists path :: PathIn(g, P, path) && path[0] in prot && path[|path| - 1] == n
  }

  /** All partitions of the heap. */
  ghost function Everywhere(g: Graph): (P: set<nat>)
    ensures forall p :: p in P <==> 0 <= p < |g.chain|
  {
    Upto(|g.chain|)
  }

  ghost function Upto(n: nat): (P: set<nat>)
    ensures forall p :: p in P <==> 0 <= p < n
  {
    if n == 0 then {} else Upto(n - 1) + {n - 1}
  }

  lemma {:induction false} UptoSize(n: nat)
    ensures |Upto(n)| == n
  {
    if n > 0 { UptoSize(n - 1); }
  }

  lemma ReachRoot(g: Graph, prot: set<Ptr>, P: set<nat>, n: Ptr)
    requires Linked(g, n) && g.part[n] in P && n in prot
    ensures Reach(g, prot, P, n)
  {
    assert PathIn(g, P, [n]);
  }

  lemma ReachStep(g: Graph, prot: set<Ptr>, P: set<nat>, n: Ptr, k: Ptr)
    requires Reach(g, prot, P, n) && Edge(g, n, k) && Linked(g, k) && g.part[k] in P
    ensures Reach(g, prot, P, k)
  {
    var path :| PathIn(g, P, path) && path[0] in prot && path[|path| - 1] == n;
    assert PathIn(g, P, path + [k]);
    assert (path + [k])[|path + [k]| - 1] == k;
  }

  /** Reachability is the least set: it lies inside every set that holds the protected nodes and their children. */
  lemma ReachLeast(g: Graph, prot: set<Ptr>, P: set<nat>, S: set<Ptr>, n: Ptr)
    requires Reach(g, prot, P, n)
    requires forall r :: Linked(g, r) && g.part[r] in P && r in prot ==> r in S
    requires forall a, b :: Edge(g, a, b) && Linked(g, b) && g.part[a] in P && g.part[b] in P && a in S ==> b in S
    ensures n in S && Linked(g, n) && g.part[n] in P
  {
    var path :| PathIn(g, P, path) && path[0] in prot && path[|path| - 1] == n;
    var i := 0;
    while i < |path| - 1
      invariant 0 <= i < |path| && path[i] in S
    {
      assert Edge(g, path[i], path[i + 1]);
      i := i + 1;
    }
  }

  /** Nothing outside points in, so whatever reaches a node of `p` does so inside `p`. */
  lemma ReachStaysInside(g: Graph, prot: set<Ptr>, p: nat, n: Ptr)
    requires NoInbound(g, p)
    requires Reach(g, prot, Everywhere(g), n) && Linked(g, n) && g.part[n] == p
    ensures Reach(g, prot, {p}, n)
  {
    var path :| PathIn(g, Everywhere(g), path) && path[0] in prot && path[|path| - 1] == n;
    var i := |path| - 1;
    while i > 0
      invariant 0 <= i < |path|
      invariant forall j :: i <= j < |path| ==> g.part[path[j]] == p
    {
      assert Edge(g, path[i - 1], path[i]);
      i := i - 1;
    }
    assert PathIn(g, {p}, path);
  }

  // ---- how the mutator and the sweeper change the graph ----

  /** `attach_node` (src/heap.rs:185-201): a fresh node goes to the head of its partition's chain. */
  ghost function Attach(g: Graph, p: nat, n: Ptr, ks: seq<Ptr>, dtype: nat): Graph
    requires p < |g.chain|
  {
    Graph(g.kids[n := ks], g.part[n := p], g.dtype[n := dtype], g.linked + {n}, g.chain[p := [n] + g.chain[p]])
  }

  /** Splitting a chain (src/mark_sweep.rs:390-428): the nodes of `dead` leave it, in memory but unlinked. */
  ghost function Detach(g: Graph, p: nat, dead: set<Ptr>): Graph
    requires p < |g.chain|
  {
    g.(linked := g.linked - dead, chain := g.chain[p := Keep(g.chain[p], Elems(g.chain[p]) - dead)])
  }

  /** Freeing unlinked nodes (src/mem.rs:307-339). */
  ghost function Free(g: Graph, gone: set<Ptr>): Graph {
    g.(kids := g.kids - gone, part := g.part - gone, dtype := g.dtype - gone)
  }

  lemma AttachOk(g: Graph, p: nat, n: Ptr, ks: seq<Ptr>, dtype: nat)
    requires Wf(g) && p < |g.chain| && n !in g.part
    ensures Wf(Attach(g, p, n, ks, dtype))
    ensures ChainsOk(g) ==> ChainsOk(Attach(g, p, n, ks, dtype))
  {
    var g' := Attach(g, p, n, ks, dtype);
    if ChainsOk(g) {
      var c := g'.chain[p];
      assert c[0] == n && c[1..] == g.chain[p];
      assert forall x :: x in c <==> x == n || x in g.chain[p];
      assert n !in g.chain[p];
    }
  }

  lemma DetachOk(g: Graph, p: nat, dead: set<Ptr>)
    requires Wf(g) && ChainsOk(g) && p < |g.chain|
    requires forall n :: n in dead ==> Linked(g, n) && g.part[n] == p
    ensures Wf(Detach(g, p, dead)) && ChainsOk(Detach(g, p, dead))
  {
    KeepDistinct(g.chain[p], Elems(g.chain[p]) - dead);
  }

  lemma FreeOk(g: Graph, gone: set<Ptr>)
    requires Wf(g) && gone !! g.linked
    ensures Wf(Free(g, gone))
    ensures ChainsOk(g) ==> ChainsOk(Free(g, gone))
    ensures NoDangling(g) ==> NoDangling(Free(g, gone))
  {
    var g' := Free(g, gone);
    if NoDangling(g) {
      forall n, k | Edge(g', n, k) ensures Linked(g', k) {
        assert Edge(g, n, k);
      }
    }
  }
}
