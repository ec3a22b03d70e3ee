/** The order in which drop passes visit nodes: by pass, and within a pass in list order. */
module DropOrder {
  import opened Basics

  ghost function PassSet(pass: map<Ptr, nat>, k: nat): set<Ptr> {
    set n | n in pass && pass[n] == k
  }

  ghost function NotPass(pass: map<Ptr, nat>, k: nat): set<Ptr> {
    set n | n in pass && pass[n] != k
  }

  /** The specification: for each pass in turn, its nodes in list order. */
  ghost function DropOrder(passes: seq<nat>, pass: map<Ptr, nat>, xs: seq<Ptr>): seq<Ptr>
    decreases |passes|
  {
    if passes == [] then [] else Keep(xs, PassSet(pass, passes[0])) + DropOrder(passes[1..], pass, xs)
  }

  /** What the loops do: each pass takes its nodes out of a shrinking list (src/mark_sweep.rs:491-557, 613-642). */
  ghost function Peel(passes: seq<nat>, pass: map<Ptr, nat>, xs: seq<Ptr>): seq<Ptr>
    decreases |passes|
  {
    if passes == [] then []
    else Keep(xs, PassSet(pass, passes[0])) + Peel(passes[1..], pass, Keep(xs, NotPass(pass, passes[0])))
  }

  /** The registry lists each pass its types use exactly once, ascending (gc-lite-macros/src/lib.rs:111-113). */
  ghost predicate Ascending(passes: seq<nat>) {
    forall i, j :: 0 <= i < j < |passes| ==> passes[i] < passes[j]
  }

  ghost predicate Covers(passes: seq<nat>, pass: map<Ptr, nat>, xs: seq<Ptr>) {
    forall n :: n in xs ==> n in pass && pass[n] in passes
  }

  lemma {:induction false} PeelIsDropOrder(passes: seq<nat>, pass: map<Ptr, nat>, xs: seq<Ptr>)
    requires Ascending(passes)
    ensures Peel(passes, pass, xs) == DropOrder(passes, pass, xs)
    decreases |passes|
  {
    if passes != [] {
      var rest := Keep(xs, NotPass(pass, passes[0]));
      PeelIsDropOrder(passes[1..], pass, rest);
      forall k | k in passes[1..] ensures Keep(rest, PassSet(pass, k)) == Keep(xs, PassSet(pass, k)) {
        KeepTwice(xs, NotPass(pass, passes[0]), PassSet(pass, k));
        assert NotPass(pass, passes[0]) * PassSet(pass, k) == PassSet(pass, k);
      }
      SameOrder(passes[1..], pass, rest, xs);
    }
  }

  lemma {:induction false} SameOrder(passes: seq<nat>, pass: map<Ptr, nat>, xs: seq<Ptr>, ys: seq<Ptr>)
    requires forall k :: k in passes ==> Keep(xs, PassSet(pass, k)) == Keep(ys, PassSet(pass, k))
    ensures DropOrder(passes, pass, xs) == DropOrder(passes, pass, ys)
    decreases |passes|
  {
    if passes != [] {
      assert passes[0] in passes;
      SameOrder(passes[1..], pass, xs, ys);
    }
  }

  lemma {:induction false} KeepTwice(xs: seq<Ptr>, S: set<Ptr>, T: set<Ptr>)
    ensures Keep(Keep(xs, S), T) == Keep(xs, S * T)
  {
    if xs != [] {
      var n := |xs| - 1;
      KeepTwice(xs[..n], S, T);
      var ys := Keep(xs[..n], S);
      assert (ys + [xs[n]])[..|ys|] == ys;
    }
  }

  /** Every node of a covered list is visited exactly once. */
  lemma {:induction false} EachOnce(passes: seq<nat>, pass: map<Ptr, nat>, xs: seq<Ptr>)
    requires Ascending(passes) && Covers(passes, pass, xs)
    ensures multiset(Peel(passes, pass, xs)) == multiset(xs)
    decreases |passes|
  {
    if passes == [] {
      assert forall n :: n in multiset(xs) ==> n in xs;
    } else {
      var k := passes[0];
      var now, rest := Keep(xs, PassSet(pass, k)), Keep(xs, NotPass(pass, k));
      KeepPartition(xs, PassSet(pass, k), NotPass(pass, k));
      forall n | n in rest ensures pass[n] in passes[1..] {
        assert n in xs && pass[n] in passes;
      }
      EachOnce(passes[1..], pass, rest);
      hide Keep, Peel, PassSet, NotPass;
      PeelStep(passes, pass, xs);
    }
  }

  lemma PeelStep(passes: seq<nat>, pass: map<Ptr, nat>, xs: seq<Ptr>)
    requires passes != []
    ensures Peel(passes, pass, xs)
              == Keep(xs, PassSet(pass, passes[0])) + Peel(passes[1..], pass, Keep(xs, NotPass(pass, passes[0])))
  {
  }

  lemma {:induction false} KeepPartition(xs: seq<Ptr>, S: set<Ptr>, T: set<Ptr>)
    requires forall n :: n in xs ==> (n in S <==> n !in T)
    ensures multiset(Keep(xs, S)) + multiset(Keep(xs, T)) == multiset(xs)
  {
    if xs != [] {
      var n := |xs| - 1;
      assert xs == xs[..n] + [xs[n]];
      KeepPartition(xs[..n], S, T);
    }
  }

  /** No node is visited before one of an earlier pass. */
  lemma {:induction false} NoneEarly(passes: seq<nat>, pass: map<Ptr, nat>, xs: seq<Ptr>, i: nat, j: nat)
    requires Ascending(passes) && i < j < |DropOrder(passes, pass, xs)|
    ensures var o := DropOrder(passes, pass, xs);
            o[i] in pass && o[j] in pass && pass[o[i]] <= pass[o[j]] && pass[o[i]] in passes && pass[o[j]] in passes
    decreases |passes|
  {
    var now, later := Keep(xs, PassSet(pass, passes[0])), DropOrder(passes[1..], pass, xs);
    var o := now + later;
    if i >= |now| {
      NoneEarly(passes[1..], pass, xs, i - |now|, j - |now|);
    } else {
      assert o[i] in now;
      if j < |now| {
        assert o[j] in now;
      } else {
        PassOf(passes[1..], pass, xs, j - |now|);
      }
    }
  }

  lemma {:induction false} PassOf(passes: seq<nat>, pass: map<Ptr, nat>, xs: seq<Ptr>, i: nat)
    requires i < |DropOrder(passes, pass, xs)|
    ensures var n := DropOrder(passes, pass, xs)[i]; n in pass && pass[n] in passes
    decreases |passes|
  {
    var now, later := Keep(xs, PassSet(pass, passes[0])), DropOrder(passes[1..], pass, xs);
    var o := now + later;
    if i < |now| {
      assert o[i] in now;
    } else {
      PassOf(passes[1..], pass, xs, i - |now|);
    }
  }

  lemma OrderPrefixStart(passes: seq<nat>, pass: map<Ptr, nat>, xs: seq<Ptr>)
    ensures DropOrder(passes[..0], pass, xs) == []
  {
  }

  /** The order grows by one pass at a time. */
  lemma {:induction false} OrderPrefixNext(passes: seq<nat>, pass: map<Ptr, nat>, xs: seq<Ptr>, k: nat)
    requires k < |passes|
    ensures DropOrder(passes[..k + 1], pass, xs) == DropOrder(passes[..k], pass, xs) + Keep(xs, PassSet(pass, passes[k]))
    decreases k
  {
    var a, b := passes[..k + 1], passes[..k];
    if k > 0 {
      OrderPrefixNext(passes[1..], pass, xs, k - 1);
      assert a[1..] == passes[1..][..k] && b[1..] == passes[1..][..k - 1];
    } else {
      assert a[1..] == [];
    }
  }
}
