/** Memory accounting, the memory limit and the automatic-collection threshold. */
module Accounting {
  import opened Basics
  import opened Graphs

  /** `MIN_GC_THRESHOLD` on a 64-bit release build: a 24-byte header and one aligned payload byte (src/heap.rs:15-24). */
  const MIN_GC_THRESHOLD: nat := 32

  const USIZE_MAX: nat := 0xFFFF_FFFF_FFFF_FFFF

  datatype Accounts = Accounts(used: seq<nat>, total: nat, limit: nat, threshold: nat)

  // ---- sums ----

  function Sum(xs: seq<nat>): nat {
    if xs == [] then 0 else Sum(xs[..|xs| - 1]) + xs[|xs| - 1]
  }

  lemma {:induction false} SumUpdate(xs: seq<nat>, i: nat, v: nat)
    requires i < |xs|
    ensures Sum(xs[i := v]) == Sum(xs) - xs[i] + v
  {
    var n := |xs| - 1;
    if i == n {
      assert xs[i := v][..n] == xs[..n];
    } else {
      assert xs[i := v][..n] == xs[..n][i := v];
      SumUpdate(xs[..n], i, v);
    }
  }

  /** Layout size of one node, from the registry. */
  ghost function SizeOf(dtype: map<Ptr, nat>, layout: seq<nat>, n: Ptr): nat {
    if n in dtype && dtype[n] < |layout| then layout[dtype[n]] else 0
  }

  ghost function Bytes(S: set<Ptr>, dtype: map<Ptr, nat>, layout: seq<nat>): nat {
    if S == {} then 0 else
      var n :| n in S;
      SizeOf(dtype, layout, n) + Bytes(S - {n}, dtype, layout)
  }

  lemma {:induction false} BytesRemove(S: set<Ptr>, dtype: map<Ptr, nat>, layout: seq<nat>, n: Ptr)
    requires n in S
    ensures Bytes(S, dtype, layout) == SizeOf(dtype, layout, n) + Bytes(S - {n}, dtype, layout)
  {
    var x :| x in S && Bytes(S, dtype, layout) == SizeOf(dtype, layout, x) + Bytes(S - {x}, dtype, layout);
    if x != n {
      BytesRemove(S - {x}, dtype, layout, n);
      BytesRemove(S - {n}, dtype, layout, x);
      assert S - {x} - {n} == S - {n} - {x};
    }
  }

  lemma {:induction false} BytesSplit(S: set<Ptr>, T: set<Ptr>, dtype: map<Ptr, nat>, layout: seq<nat>)
    requires T <= S
    ensures Bytes(S, dtype, layout) == Bytes(T, dtype, layout) + Bytes(S - T, dtype, layout)
  {
    if T == {} {
      assert S - T == S;
    } else {
      var n :| n in T;
      BytesRemove(S, dtype, layout, n);
      BytesRemove(T, dtype, layout, n);
      BytesSplit(S - {n}, T - {n}, dtype, layout);
      assert S - {n} - (T - {n}) == S - T;
    }
  }

  lemma {:induction false} BytesSame(S: set<Ptr>, dtype: map<Ptr, nat>, dtype': map<Ptr, nat>, layout: seq<nat>)
    requires forall n :: n in S ==> SizeOf(dtype, layout, n) == SizeOf(dtype', layout, n)
    ensures Bytes(S, dtype, layout) == Bytes(S, dtype', layout)
  {
    if S != {} {
      var n :| n in S;
      BytesRemove(S, dtype, layout, n);
      BytesRemove(S, dtype', layout, n);
      BytesSame(S - {n}, dtype, dtype', layout);
    }
  }

  /** Layout sizes along a list of nodes, as the sweeps add them up. */
  ghost function SeqBytes(xs: seq<Ptr>, dtype: map<Ptr, nat>, layout: seq<nat>): nat {
    if xs == [] then 0 else SeqBytes(xs[..|xs| - 1], dtype, layout) + SizeOf(dtype, layout, xs[|xs| - 1])
  }

  lemma {:induction false} SeqBytesIsBytes(xs: seq<Ptr>, dtype: map<Ptr, nat>, layout: seq<nat>)
    requires Distinct(xs)
    ensures SeqBytes(xs, dtype, layout) == Bytes(Elems(xs), dtype, layout)
  {
    if xs == [] {
      assert Elems(xs) == {};
    } else {
      var n := |xs| - 1;
      SeqBytesIsBytes(xs[..n], dtype, layout);
      BytesRemove(Elems(xs), dtype, layout, xs[n]);
      assert Elems(xs) - {xs[n]} == Elems(xs[..n]);
    }
  }

  // ---- the invariant ----

  ghost function InPartition(g: Graph, p: nat): set<Ptr> {
    set n | n in g.part && g.part[n] == p
  }

  /**
   Conservation: every partition's counter is the total layout size of the nodes it has in memory, linked or
   unlinked by a sweep and not yet disposed, and the heap's counter is the sum over the partitions.
   */
  ghost predicate AccountsOk(g: Graph, layout: seq<nat>, a: Accounts) {
    && |a.used| == |g.chain|
    && (forall p {:trigger a.used[p]} :: 0 <= p < |a.used| ==> a.used[p] == Bytes(InPartition(g, p), g.dtype, layout))
    && a.total == Sum(a.used)
  }

  /** With a limit set, usage is within it and the threshold is below it or the minimum. */
  ghost predicate LimitOk(a: Accounts) {
    a.limit > 0 ==> a.total <= a.limit && (a.threshold > 0 ==> a.threshold < a.limit || a.threshold == MIN_GC_THRESHOLD)
  }

  // ---- the operations ----

  /** The refusal test of `alloc_node_mem` (src/mem.rs:83-87). */
  ghost predicate OverLimit(a: Accounts, size: nat) {
    a.limit > 0 && a.total + size > a.limit
  }

  /** `update_mem_use` with a positive delta (src/heap.rs:262-266). */
  ghost function Charge(a: Accounts, p: nat, d: nat): Accounts
    requires p < |a.used|
  {
    a.(used := a.used[p := a.used[p] + d], total := a.total + d)
  }

  /** `update_mem_use` with a negative delta (src/heap.rs:267-284). */
  ghost function Release(a: Accounts, p: nat, d: nat): Accounts
    requires p < |a.used| && d <= a.used[p] && d <= a.total
  {
    a.(used := a.used[p := a.used[p] - d], total := a.total - d)
  }

  /** `set_memory_limit` (src/heap.rs:140-155). */
  function SetLimit(a: Accounts, limit: nat): Accounts {
    if limit == 0 then a.(limit := 0)
    else
      var applied := if a.total > limit then a.total else limit;
      if a.threshold > 0 && a.threshold >= applied then
        var reduced := applied - applied / 4;
        a.(limit := applied, threshold := if reduced > MIN_GC_THRESHOLD then reduced else MIN_GC_THRESHOLD)
      else a.(limit := applied)
  }

  /** `set_gc_threshold` (src/heap.rs:162-171), with its saturating multiplication. */
  function SetThreshold(a: Accounts, threshold: nat): Accounts {
    if threshold > 0 && a.limit > 0 then
      var scaled := if a.limit * 8 > USIZE_MAX then USIZE_MAX else a.limit * 8;
      a.(threshold := if threshold < scaled / 10 then threshold else scaled / 10)
    else a.(threshold := threshold)
  }

  lemma SettersKeepLimit(a: Accounts, v: nat)
    requires LimitOk(a)
    ensures LimitOk(SetLimit(a, v)) && LimitOk(SetThreshold(a, v))
    ensures SetLimit(a, v).limit == 0 <==> v == 0
    ensures v > 0 ==> SetLimit(a, v).limit >= v && SetLimit(a, v).limit >= a.total
    ensures a.limit > 0 && v > 0 ==> SetThreshold(a, v).threshold < a.limit
  {
  }

  /** An allocation is refused exactly when it would break the limit. */
  lemma OverLimitIff(a: Accounts, p: nat, size: nat)
    requires LimitOk(a) && p < |a.used|
    ensures OverLimit(a, size) <==> !LimitOk(Charge(a, p, size))
  {
  }

  /** Charging raises one counter and the total by the size; releasing undoes it; neither touches limit or threshold. */
  lemma ChargeEffect(a: Accounts, p: nat, d: nat)
    requires p < |a.used|
    ensures var a' := Charge(a, p, d);
            && |a'.used| == |a.used| && a'.used[p] == a.used[p] + d && a'.total == a.total + d
            && (forall q :: 0 <= q < |a.used| && q != p ==> a'.used[q] == a.used[q])
            && a'.limit == a.limit && a'.threshold == a.threshold && Release(a', p, d) == a
  {
    assert a.used[p := a.used[p] + d][p := a.used[p]] == a.used;
  }

  lemma ReleaseEffect(a: Accounts, p: nat, d: nat)
    requires p < |a.used| && d <= a.used[p] && d <= a.total
    ensures var a' := Release(a, p, d);
            && |a'.used| == |a.used| && a'.used[p] + d == a.used[p] && a'.total + d == a.total
            && (forall q :: 0 <= q < |a.used| && q != p ==> a'.used[q] == a.used[q])
            && a'.limit == a.limit && a'.threshold == a.threshold && Charge(a', p, d) == a
  {
    assert a.used[p := a.used[p] - d][p := a.used[p]] == a.used;
  }

  /**
   The new limit is none for 0, else the larger of the request and what is in use. A threshold below it stays; one
   that is not becomes three quarters of it, rounded up, or the minimum if that is more. Usage is untouched.
   */
  lemma SetLimitEffect(a: Accounts, v: nat)
    ensures var a' := SetLimit(a, v);
            && a'.used == a.used && a'.total == a.total
            && (v == 0 ==> a'.limit == 0 && a'.threshold == a.threshold)
            && (v > 0 ==> a'.limit >= v && a'.limit >= a.total && (a'.limit == v || a'.limit == a.total))
            && (v > 0 && a.threshold < a'.limit ==> a'.threshold == a.threshold)
            && (v > 0 && a.threshold >= a'.limit ==>
                  && a'.threshold >= MIN_GC_THRESHOLD && 4 * a'.threshold >= 3 * a'.limit
                  && (a'.threshold == MIN_GC_THRESHOLD || 4 * (a'.threshold - 1) < 3 * a'.limit))
  {
  }

  /** The new threshold is the lesser of the request and eight tenths of the limit, if one is set (saturating at 2^64 - 1). */
  lemma SetThresholdEffect(a: Accounts, v: nat)
    ensures var a' := SetThreshold(a, v);
            && a'.used == a.used && a'.total == a.total && a'.limit == a.limit && a'.threshold <= v
            && (v == 0 || a.limit == 0 ==> a'.threshold == v)
            && (v > 0 && a.limit > 0 ==> 10 * a'.threshold <= 8 * a.limit && 10 * a'.threshold <= USIZE_MAX)
            && (v > 0 && a.limit > 0 && a'.threshold < v ==>
                  10 * (a'.threshold + 1) > 8 * a.limit || 10 * (a'.threshold + 1) > USIZE_MAX)
  {
  }

  lemma AttachedBytes(g: Graph, layout: seq<nat>, p: nat, n: Ptr, ks: seq<Ptr>, dtype: nat, q: nat)
    requires Wf(g) && p < |g.chain| && n !in g.part && dtype < |layout|
    ensures var g' := Attach(g, p, n, ks, dtype);
            Bytes(InPartition(g', q), g'.dtype, layout)
              == Bytes(InPartition(g, q), g.dtype, layout) + (if q == p then layout[dtype] else 0)
  {
    var g' := Attach(g, p, n, ks, dtype);
    BytesSame(InPartition(g, q), g.dtype, g'.dtype, layout);
    if q == p {
      BytesRemove(InPartition(g', p), g'.dtype, layout, n);
      assert InPartition(g', p) - {n} == InPartition(g, p);
    } else {
      assert InPartition(g', q) == InPartition(g, q);
    }
  }

  lemma ChargeOk(g: Graph, layout: seq<nat>, a: Accounts, p: nat, n: Ptr, ks: seq<Ptr>, dtype: nat)
    requires Wf(g) && AccountsOk(g, layout, a) && LimitOk(a) && p < |g.chain| && n !in g.part && dtype < |layout|
    requires !OverLimit(a, layout[dtype])
    ensures AccountsOk(Attach(g, p, n, ks, dtype), layout, Charge(a, p, layout[dtype]))
    ensures LimitOk(Charge(a, p, layout[dtype]))
  {
    hide Bytes, InPartition;
    var a' := Charge(a, p, layout[dtype]);
    var g' := Attach(g, p, n, ks, dtype);
    SumUpdate(a.used, p, a.used[p] + layout[dtype]);
    forall q | 0 <= q < |a'.used| ensures a'.used[q] == Bytes(InPartition(g', q), g'.dtype, layout) {
      AttachedBytes(g, layout, p, n, ks, dtype, q);
      assert a.used[q] == Bytes(InPartition(g, q), g.dtype, layout);
    }
  }

  lemma {:induction false} SumBound(xs: seq<nat>, i: nat)
    requires i < |xs|
    ensures xs[i] <= Sum(xs)
  {
    if i < |xs| - 1 { SumBound(xs[..|xs| - 1], i); }
  }

  lemma FreedBytes(g: Graph, g': Graph, layout: seq<nat>, p: nat, gone: set<Ptr>, q: nat)
    requires Wf(g) && gone <= InPartition(g, p)
    requires g'.part == g.part - gone && g'.dtype == g.dtype - gone
    ensures Bytes(InPartition(g, q), g.dtype, layout)
              == Bytes(InPartition(g', q), g'.dtype, layout) + (if q == p then Bytes(gone, g.dtype, layout) else 0)
  {
    BytesSame(InPartition(g', q), g.dtype, g'.dtype, layout);
    if q == p {
      BytesSplit(InPartition(g, p), gone, g.dtype, layout);
      assert InPartition(g', p) == InPartition(g, p) - gone;
    } else {
      assert InPartition(g', q) == InPartition(g, q);
    }
  }

  /** Freeing nodes of partition `p` by exactly their layout sizes keeps both counters right. */
  lemma ReleaseOk(g: Graph, g': Graph, layout: seq<nat>, a: Accounts, p: nat, gone: set<Ptr>)
    requires Wf(g) && AccountsOk(g, layout, a) && LimitOk(a) && p < |g.chain| && gone <= InPartition(g, p)
    requires g'.part == g.part - gone && g'.dtype == g.dtype - gone && |g'.chain| == |g.chain|
    ensures var d := Bytes(gone, g.dtype, layout);
            && d <= a.used[p] && d <= a.total
            && AccountsOk(g', layout, Release(a, p, d)) && LimitOk(Release(a, p, d))
  {
    var d := Bytes(gone, g.dtype, layout);
    FreedBytes(g, g', layout, p, gone, p);
    hide Bytes, InPartition;
    assert a.used[p] == Bytes(InPartition(g, p), g.dtype, layout);
    SumBound(a.used, p);
    var a' := Release(a, p, d);
    SumUpdate(a.used, p, a.used[p] - d);
    forall q | 0 <= q < |a'.used| ensures a'.used[q] == Bytes(InPartition(g', q), g'.dtype, layout) {
      FreedBytes(g, g', layout, p, gone, q);
      assert a.used[q] == Bytes(InPartition(g, q), g.dtype, layout);
    }
  }

  lemma TotalIsSum(g: Graph, layout: seq<nat>, a: Accounts)
    requires AccountsOk(g, layout, a)
    ensures a.total == Sum(a.used)
  {
  }

  lemma UsedWithinTotal(a: Accounts, p: nat)
    requires p < |a.used| && a.total == Sum(a.used)
    ensures a.used[p] <= a.total
  {
    SumBound(a.used, p);
  }

  /** A partition's counter is what freeing all of it returns. */
  lemma WholePartition(g: Graph, layout: seq<nat>, a: Accounts, p: nat)
    requires AccountsOk(g, layout, a) && p < |g.chain|
    ensures p < |a.used| && a.used[p] == Bytes(InPartition(g, p), g.dtype, layout)
  {
  }

  lemma NewPartitionOk(g: Graph, g': Graph, layout: seq<nat>, a: Accounts)
    requires Wf(g) && AccountsOk(g, layout, a)
    requires g'.part == g.part && g'.dtype == g.dtype && |g'.chain| == |g.chain| + 1
    ensures AccountsOk(g', layout, a.(used := a.used + [0]))
  {
    var a' := a.(used := a.used + [0]);
    assert a'.used[..|a.used|] == a.used;
    forall p | 0 <= p < |a'.used| ensures a'.used[p] == Bytes(InPartition(g', p), g'.dtype, layout) {
      if p < |a.used| {
        assert a.used[p] == Bytes(InPartition(g, p), g.dtype, layout);
        assert InPartition(g', p) == InPartition(g, p);
      } else {
        assert InPartition(g', p) == {};
      }
    }
  }

  // ---- the 32-bit signed delta ----

  /** Rust's `gross_size as i32` (src/mem.rs:130, 180, 325, 337): keep 32 bits, read them as signed. */
  function AsI32(size: nat): (d: int)
    ensures -0x8000_0000 <= d < 0x8000_0000
    ensures (d - size) % 0x1_0000_0000 == 0
  {
    var low := size % 0x1_0000_0000;
    if low < 0x8000_0000 then low else low - 0x1_0000_0000
  }

  /** The delta is the size exactly for layouts below 2^31; from 2^31 on the counters go wrong. */
  lemma DeltaFaithfulIff(size: nat)
    ensures AsI32(size) == size <==> size < 0x8000_0000
  {
  }
}
