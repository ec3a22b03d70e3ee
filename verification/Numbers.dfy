/** Division facts the layout and arena arithmetic rest on. */
module Numbers {
  lemma MulMonotone(a: nat, b: nat, c: nat)
    requires a <= b
    ensures a * c <= b * c
  {
    assert (b - a) * c >= 0;
    assert b * c == a * c + (b - a) * c;
  }

  lemma MulNext(q: nat, b: nat)
    ensures (q + 1) * b == q * b + b
  {
  }

  /** Quotient and remainder are determined. */
  lemma DivModUnique(a: nat, q: nat, b: nat, r: nat)
    requires b > 0 && a == q * b + r && r < b
    ensures a / b == q && a % b == r
  {
    var q', r' := a / b, a % b;
    assert a == q' * b + r' && r' < b;
    MulNext(q, b);
    MulNext(q', b);
    if q < q' {
      MulMonotone(q + 1, q', b);
      assert false;
    }
    if q' < q {
      MulMonotone(q' + 1, q, b);
      assert false;
    }
  }

  predicate Divides(m: nat, x: nat)
    requires m > 0
  {
    x % m == 0
  }

  lemma DividesTrans(x: nat, a: nat, b: nat)
    requires a > 0 && b > 0 && Divides(a, x) && Divides(b, a)
    ensures Divides(b, x)
  {
    var q, r := x / a, a / b;
    assert x == q * a && a == r * b;
    assert q * (r * b) == q * r * b;
    DivModUnique(x, q * r, b, 0);
  }

  /** `align_up` as arithmetic: the least multiple of `align` at or above `x`. */
  function AlignUp(x: nat, align: nat): (r: nat)
    requires align > 0
    ensures x <= r < x + align && Divides(align, r)
  {
    var q := (x + align - 1) / align;
    DivModUnique(q * align, q, align, 0);
    assert q * align + (x + align - 1) % align == x + align - 1;
    q * align
  }

  lemma AlignUpIsLeast(x: nat, align: nat, m: nat)
    requires align > 0 && x <= m && Divides(align, m)
    ensures AlignUp(x, align) <= m
  {
    MultiplesApart(AlignUp(x, align), m, align);
  }

  /** Of two multiples the larger is larger by at least one step. */
  lemma MultiplesApart(r: nat, m: nat, align: nat)
    requires align > 0 && Divides(align, r) && Divides(align, m)
    ensures m < r ==> m + align <= r
  {
    var a, b := r / align, m / align;
    assert r == a * align && m == b * align;
    MulNext(b, align);
    if b < a {
      MulMonotone(b + 1, a, align);
    } else {
      MulMonotone(a, b, align);
    }
  }
}
