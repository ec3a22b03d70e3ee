/** Addresses, optional values and the few sequence facts every other module uses. */
module Basics {
  datatype Option<+T> = None | Some(value: T)

  datatype GcError = AllocationFailed | PartitionNotFound | PartitionFull

  datatype Result<+T> = Ok(value: T) | Err(error: GcError)

  /** A node address: the source's `NonNull<GcHead>`. */
  type Ptr = nat

  ghost predicate Distinct<T>(xs: seq<T>) {
    forall i, j :: 0 <= i < j < |xs| ==> xs[i] != xs[j]
  }

  ghost function Elems<T>(xs: seq<T>): set<T> {
    set x | x in xs
  }

  /** The stable filter: the elements of `xs` that lie in `S`, in their original order. */
  function Keep<T(==, !new)>(xs: seq<T>, S: set<T>): (ys: seq<T>)
    ensures forall x :: x in ys <==> x in xs && x in S
    ensures |ys| <= |xs|
  {
    if xs == [] then []
    else
      var n := |xs| - 1;
      var ys := Keep(xs[..n], S);
      assert xs == xs[..n] + [xs[n]];
      if xs[n] in S then ys + [xs[n]] else ys
  }

  lemma KeepNext<T(!new)>(xs: seq<T>, i: nat, S: set<T>)
    requires i < |xs|
    ensures Keep(xs[..i + 1], S) == if xs[i] in S then Keep(xs[..i], S) + [xs[i]] else Keep(xs[..i], S)
  {
    assert xs[..i + 1][..i] == xs[..i];
  }

  lemma {:induction false} KeepDistinct<T(!new)>(xs: seq<T>, S: set<T>)
    requires Distinct(xs)
    ensures Distinct(Keep(xs, S))
  {
    if xs != [] {
      var n := |xs| - 1;
      KeepDistinct(xs[..n], S);
      assert xs[n] !in xs[..n];
    }
  }

  lemma {:induction false} KeepSplitsLength<T(!new)>(xs: seq<T>, S: set<T>)
    ensures |Keep(xs, S)| + |Keep(xs, Elems(xs) - S)| == |xs|
    ensures multiset(Keep(xs, S)) + multiset(Keep(xs, Elems(xs) - S)) == multiset(xs)
  {
    if xs != [] {
      var n := |xs| - 1;
      var init := xs[..n];
      assert xs == init + [xs[n]];
      KeepSplitsLength(init, S);
      KeepSame(init, Elems(init) - S, Elems(xs) - S);
      assert xs[n] in Elems(xs);
    }
  }

  lemma {:induction false} KeepSame<T(!new)>(xs: seq<T>, S: set<T>, S': set<T>)
    requires forall x :: x in xs ==> (x in S <==> x in S')
    ensures Keep(xs, S) == Keep(xs, S')
  {
    if xs != [] {
      var n := |xs| - 1;
      assert xs == xs[..n] + [xs[n]];
      KeepSame(xs[..n], S, S');
    }
  }

  lemma {:induction false} KeepSum<T(!new)>(xs: seq<T>, ys: seq<T>, S: set<T>)
    ensures Keep(xs + ys, S) == Keep(xs, S) + Keep(ys, S)
  {
    hide Keep;
    if ys == [] {
      assert xs + ys == xs;
      KeepNothing(ys, S);
    } else {
      var n := |ys| - 1;
      var zs := xs + ys;
      KeepSum(xs, ys[..n], S);
      KeepNext(zs, |xs| + n, S);
      KeepNext(ys, n, S);
      assert zs[..|xs| + n] == xs + ys[..n];
      assert zs[..|xs| + n + 1] == zs && ys[..n + 1] == ys && zs[|xs| + n] == ys[n];
    }
  }

  lemma KeepLast<T(!new)>(xs: seq<T>, x: T, S: set<T>)
    ensures Keep(xs + [x], S) == if x in S then Keep(xs, S) + [x] else Keep(xs, S)
  {
    assert (xs + [x])[..|xs|] == xs;
  }

  lemma KeepNothing<T(!new)>(xs: seq<T>, S: set<T>)
    requires xs == []
    ensures Keep(xs, S) == []
  {
  }

  lemma ElemsNext<T>(xs: seq<T>, i: nat)
    requires i < |xs|
    ensures Elems(xs[..i + 1]) == Elems(xs[..i]) + {xs[i]}
  {
    assert xs[..i + 1] == xs[..i] + [xs[i]];
  }

  lemma ElemsNone<T>(xs: seq<T>)
    ensures Elems(xs[..0]) == {}
  {
  }

  lemma ElemsEmpty<T>(xs: seq<T>)
    ensures Elems(xs) == {} ==> xs == []
  {
    assert xs != [] ==> xs[0] in Elems(xs);
  }

  lemma {:induction false} DistinctElemsSize<T>(xs: seq<T>)
    requires Distinct(xs)
    ensures |Elems(xs)| == |xs|
  {
    if xs == [] {
      assert Elems(xs) == {};
    } else {
      var n := |xs| - 1;
      DistinctElemsSize(xs[..n]);
      assert Elems(xs) == Elems(xs[..n]) + {xs[n]};
      assert xs[n] !in Elems(xs[..n]);
    }
  }

  lemma {:induction false} SubsetSize<T>(A: set<T>, B: set<T>)
    requires A <= B
    ensures |A| <= |B|
    ensures |A| == |B| ==> A == B
  {
    if A != B && A != {} {
      var x :| x in A;
      SubsetSize(A - {x}, B - {x});
    } else if A == {} && B != {} {
      var x :| x in B;
      assert |B| > 0;
    }
  }

  /** The duplicate-free trace of a payload's child list (`GcTraceCtx::add_node`, src/trace.rs:37-46). */
  function Dedup<T(==, !new)>(xs: seq<T>): (ys: seq<T>)
    ensures forall x :: x in ys <==> x in xs
    ensures Distinct(ys)
  {
    if xs == [] then []
    else
      var n := |xs| - 1;
      var ys := Dedup(xs[..n]);
      assert xs == xs[..n] + [xs[n]];
      if xs[n] in ys then ys else ys + [xs[n]]
  }

  /** The order in which popping from the back visits a sequence. */
  function Reverse<T(!new)>(xs: seq<T>): (ys: seq<T>)
    ensures |ys| == |xs|
    ensures forall i :: 0 <= i < |ys| ==> ys[i] == xs[|xs| - 1 - i]
    ensures forall x :: x in ys <==> x in xs
  {
    var ys := seq(|xs|, i requires 0 <= i < |xs| => xs[|xs| - 1 - i]);
    assert forall i :: 0 <= i < |xs| ==> xs[i] == ys[|xs| - 1 - i];
    ys
  }
}
