/** Layout arithmetic of a node: header, payload, alignment (src/gctype.rs:51-88), on 64-bit words. */
module Layout {
  import opened Numbers

  /** Size and alignment of `GcHead` on a 64-bit release build. */
  const HEAD_SIZE: nat := 24
  const HEAD_ALIGN: nat := 8

  /** Bytes per machine word. */
  const WORD: nat := 8

  function Pow2(k: nat): (p: nat)
    ensures p > 0
  {
    if k == 0 then 1 else 2 * Pow2(k - 1)
  }

  const USIZE_BITS: nat := 64

  /** Bitwise and. */
  function And(x: nat, y: nat): nat {
    if x == 0 then 0 else 2 * And(x / 2, y / 2) + (if x % 2 == 1 && y % 2 == 1 then 1 else 0)
  }

  /** Bitwise complement of a `usize`. */
  function Not(x: nat): nat
    requires x < Pow2(USIZE_BITS)
  {
    Pow2(USIZE_BITS) - 1 - x
  }

  /** `align_up`'s own expression (src/gctype.rs:52-55, src/arena.rs:62). */
  function MaskUp(value: nat, align: nat): nat
    requires 0 < align <= Pow2(USIZE_BITS)
  {
    var mask := align - 1;
    And(value + mask, Not(mask))
  }

  lemma Pow2Zero()
    ensures Pow2(0) == 1
  {
  }

  lemma Pow2Next(k: nat)
    ensures Pow2(k + 1) == 2 * Pow2(k)
  {
  }

  lemma {:induction false} Pow2Grows(a: nat, b: nat)
    requires a <= b
    ensures Pow2(a) <= Pow2(b)
  {
    if a < b { Pow2Grows(a, b - 1); }
  }

  lemma {:induction false} AndOnes(x: nat, w: nat)
    requires x < Pow2(w)
    ensures And(x, Pow2(w) - 1) == x
  {
    if x != 0 {
      assert w > 0 && (Pow2(w) - 1) / 2 == Pow2(w - 1) - 1;
      AndOnes(x / 2, w - 1);
    }
  }

  lemma HalfMod(x: nat, m: nat)
    requires m > 0
    ensures x % (2 * m) == 2 * (x / 2 % m) + x % 2
  {
    var q, r := x / 2 / m, x / 2 % m;
    assert x / 2 == q * m + r;
    assert x == q * (2 * m) + (2 * r + x % 2);
    DivModUnique(x, q, 2 * m, 2 * r + x % 2);
  }

  /** The remainder, by name, so that proofs can keep its definition out of sight. */
  function Rest(x: nat, m: nat): nat
    requires m > 0
  {
    x % m
  }

  lemma {:induction false} MaskAndRest(x: nat, k: nat, w: nat)
    requires k <= w && x < Pow2(w)
    ensures Pow2(k) <= Pow2(w) && And(x, Pow2(w) - Pow2(k)) + Rest(x, Pow2(k)) == x
  {
    hide And, Pow2, Rest;
    Pow2Grows(k, w);
    if k == 0 {
      Pow2Zero();
      AndOnes(x, w);
      RestOfOne(x);
    } else {
      Pow2Next(w - 1);
      Pow2Next(k - 1);
      MaskAndRest(x / 2, k - 1, w - 1);
      MaskDoubles(x, Pow2(w - 1) - Pow2(k - 1), Pow2(k - 1));
    }
  }

  lemma RestOfOne(x: nat)
    ensures Rest(x, 1) == 0
  {
  }

  lemma MaskDoubles(x: nat, m: nat, low: nat)
    requires low > 0 && And(x / 2, m) + Rest(x / 2, low) == x / 2
    ensures And(x, 2 * m) + Rest(x, 2 * low) == x
  {
    hide And;
    HalfMod(x, low);
    AndDouble(x, m);
  }

  /** Masking off the low `k` bits rounds down to a multiple of 2^k. */
  lemma AndClearsLow(x: nat, k: nat, w: nat)
    requires k <= w && x < Pow2(w)
    ensures Pow2(k) <= Pow2(w) && And(x, Pow2(w) - Pow2(k)) == x - x % Pow2(k)
  {
    hide And, Pow2;
    MaskAndRest(x, k, w);
  }

  lemma AndDouble(x: nat, m: nat)
    ensures And(x, 2 * m) == 2 * And(x / 2, m)
  {
    var y := 2 * m;
    assert y / 2 == m && y % 2 == 0;
    if x == 0 { assert And(0, m) == 0; }
  }

  /**
   For every value and power-of-two alignment within a `usize`, the mask computes the least multiple of the
   alignment at or above the value. (A sum that overflows is outside: these are const expressions and do not compile.)
   */
  lemma MaskIsAlignUp(value: nat, k: nat)
    requires k < USIZE_BITS && value + Pow2(k) - 1 < Pow2(USIZE_BITS)
    ensures Pow2(k) <= Pow2(USIZE_BITS) && MaskUp(value, Pow2(k)) == AlignUp(value, Pow2(k))
  {
    hide Pow2, And;
    var align := Pow2(k);
    Pow2Grows(k, USIZE_BITS);
    AndClearsLow(value + align - 1, k, USIZE_BITS);
    assert Not(align - 1) == Pow2(USIZE_BITS) - align;
    RoundDown(value, align);
  }

  lemma MaskIsLeast(value: nat, k: nat, m: nat)
    requires k < USIZE_BITS && value + Pow2(k) - 1 < Pow2(USIZE_BITS)
    ensures Pow2(k) <= Pow2(USIZE_BITS)
    ensures var r := MaskUp(value, Pow2(k)); value <= r && Divides(Pow2(k), r) && (value <= m && Divides(Pow2(k), m) ==> r <= m)
  {
    hide Pow2, MaskUp, Divides;
    MaskIsAlignUp(value, k);
    if value <= m && Divides(Pow2(k), m) { AlignUpIsLeast(value, Pow2(k), m); }
  }

  lemma RoundDown(value: nat, align: nat)
    requires align > 0
    ensures value + align - 1 - (value + align - 1) % align == AlignUp(value, align)
  {
  }

  // ---- a node's layout; a type's alignment is 2^k ----

  function PayloadOffset(k: nat): nat
    requires k < USIZE_BITS
  {
    Pow2Grows(k, USIZE_BITS);
    MaskUp(HEAD_SIZE, Pow2(k))
  }

  function LayoutAlign(k: nat): nat {
    if HEAD_ALIGN > Pow2(k) then HEAD_ALIGN else Pow2(k)
  }

  /** The exponent of the layout's alignment. */
  function AlignBits(k: nat): (b: nat)
    ensures b >= k && b >= 3
  {
    if k < 3 then 3 else k
  }

  lemma LayoutAlignIs(k: nat)
    ensures LayoutAlign(k) == Pow2(AlignBits(k))
    ensures LayoutAlign(k) == HEAD_ALIGN || LayoutAlign(k) == Pow2(k)
  {
    assert Pow2(3) == 8 && Pow2(2) == 4 && Pow2(1) == 2;
    if k >= 3 { Pow2Grows(3, k); } else { Pow2Grows(k, 2); }
  }

  function LayoutSize(size: nat, k: nat): nat
    requires k < USIZE_BITS
  {
    LayoutAlignIs(k);
    Pow2Grows(AlignBits(k), USIZE_BITS);
    MaskUp(PayloadOffset(k) + size, LayoutAlign(k))
  }

  /** Nothing overflows a `usize`. */
  ghost predicate Representable(size: nat, k: nat) {
    && k < USIZE_BITS
    && HEAD_SIZE + Pow2(k) < Pow2(USIZE_BITS)
    && PayloadOffset(k) + size + LayoutAlign(k) < Pow2(USIZE_BITS)
  }

  lemma {:induction false} Pow2Divides(a: nat, b: nat, x: nat)
    requires a <= b && Divides(Pow2(b), x)
    ensures Divides(Pow2(a), x)
    decreases b - a
  {
    if a < b {
      var q, m := x / Pow2(b), Pow2(b - 1);
      assert x == q * (2 * m) == (2 * q) * m;
      DivModUnique(x, 2 * q, m, 0);
      Pow2Divides(a, b - 1, x);
    }
  }

  lemma SumDivides(a: nat, b: nat, m: nat)
    requires m > 0 && Divides(m, a) && Divides(m, b)
    ensures Divides(m, a + b)
  {
    var p, q := a / m, b / m;
    assert a == p * m && b == q * m;
    assert a + b == (p + q) * m + 0;
    DivModUnique(a + b, p + q, m, 0);
  }

  lemma PayloadOffsetIs(k: nat)
    requires k < USIZE_BITS && HEAD_SIZE + Pow2(k) < Pow2(USIZE_BITS)
    ensures PayloadOffset(k) == AlignUp(HEAD_SIZE, Pow2(k))
  {
    hide Pow2, MaskUp, AlignUp;
    MaskIsAlignUp(HEAD_SIZE, k);
  }

  lemma LayoutSizeIs(size: nat, k: nat)
    requires Representable(size, k)
    ensures LayoutAlign(k) > 0 && LayoutSize(size, k) == AlignUp(PayloadOffset(k) + size, LayoutAlign(k))
  {
    hide Pow2, MaskUp, AlignUp, PayloadOffset;
    LayoutAlignIs(k);
    MaskIsAlignUp(PayloadOffset(k) + size, AlignBits(k));
  }

  lemma RepresentableFits(size: nat, k: nat)
    requires Representable(size, k)
    ensures k < USIZE_BITS && HEAD_SIZE + Pow2(k) < Pow2(USIZE_BITS)
  {
  }

  lemma EightIsPow2()
    ensures Pow2(3) == HEAD_ALIGN
  {
  }

  /** The payload starts past the header and fits, for all payload sizes and power-of-two alignments. */
  lemma LayoutOk(size: nat, k: nat)
    requires Representable(size, k)
    ensures HEAD_SIZE <= PayloadOffset(k) < HEAD_SIZE + Pow2(k)
    ensures PayloadOffset(k) + size <= LayoutSize(size, k) < PayloadOffset(k) + size + LayoutAlign(k)
    ensures LayoutAlign(k) > 0 && Divides(LayoutAlign(k), LayoutSize(size, k)) && Divides(HEAD_ALIGN, LayoutAlign(k))
    ensures LayoutAlign(k) == HEAD_ALIGN || LayoutAlign(k) == Pow2(k)
  {
    RepresentableFits(size, k);
    hide *;
    PayloadOffsetIs(k);
    LayoutSizeIs(size, k);
    LayoutAlignIs(k);
    EightIsPow2();
    SelfDivides(AlignBits(k));
    Pow2Divides(3, AlignBits(k), LayoutAlign(k));
  }

  /** A block aligned as its layout asks holds an aligned header and an aligned payload. */
  lemma HeadAligns(k: nat, head: nat)
    requires k < USIZE_BITS && HEAD_SIZE + Pow2(k) < Pow2(USIZE_BITS) && LayoutAlign(k) > 0 && Divides(LayoutAlign(k), head)
    ensures Divides(Pow2(k), head + PayloadOffset(k)) && Divides(HEAD_ALIGN, head)
  {
    hide *;
    PayloadOffsetIs(k);
    LayoutAlignIs(k);
    EightIsPow2();
    Pow2Divides(k, AlignBits(k), head);
    Pow2Divides(3, AlignBits(k), head);
    SumDivides(head, PayloadOffset(k), Pow2(k));
  }

  lemma SelfDivides(b: nat)
    ensures Divides(Pow2(b), Pow2(b))
  {
    DivModUnique(Pow2(b), 1, Pow2(b), 0);
  }

  /** Layouts are whole words, aligned to words and larger than a free entry's header: the arena can count in words. */
  lemma LayoutInWords(size: nat, k: nat)
    requires Representable(size, k)
    ensures Divides(WORD, LayoutSize(size, k)) && Divides(WORD, LayoutAlign(k)) && LayoutSize(size, k) / WORD > 2
  {
    LayoutOk(size, k);
    LayoutAlignIs(k);
    assert Pow2(3) == 8;
    Pow2Divides(3, AlignBits(k), LayoutSize(size, k));
  }

  /** Rounding up a whole number of words to a whole number of words. */
  lemma AlignUpInWords(x: nat, align: nat)
    requires align > 0
    ensures AlignUp(WORD * x, WORD * align) == WORD * AlignUp(x, align)
  {
    var r := AlignUp(x, align);
    var q := r / align;
    assert r == q * align;
    assert WORD * r == q * (WORD * align) + 0;
    DivModUnique(WORD * r, q, WORD * align, 0);
    AlignUpIsLeast(WORD * x, WORD * align, WORD * r);
    var s := AlignUp(WORD * x, WORD * align);
    var t := s / (WORD * align);
    assert s == t * (WORD * align) == WORD * (t * align);
    DivModUnique(t * align, t, align, 0);
    AlignUpIsLeast(x, align, t * align);
  }
}
