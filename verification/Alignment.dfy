/** Alignment arithmetic on 64-bit offsets: greatest common divisor, least common multiple, rounding up. */
module Alignment {
  import opened Arithmetic
  import opened Options

  const U64_MAX: nat := 0xFFFF_FFFF_FFFF_FFFF

  type U64 = n: int | 0 <= n <= U64_MAX

  function CheckedAdd(a: nat, b: nat): (r: Option<U64>) {
    if a + b <= U64_MAX then Some(a + b) else None
  }

  predicate IsMultiple(n: nat, d: nat) {
    d > 0 && n % d == 0
  }

  lemma ProductIsMultiple(k: nat, d: nat)
    requires d > 0
    ensures IsMultiple(k * d, d)
  {
    ModUnique(k * d, k, 0, d);
  }

  lemma MultipleOfMultiple(n: nat, d: nat, e: nat)
    requires IsMultiple(n, d) && IsMultiple(d, e)
    ensures IsMultiple(n, e)
  {
    DivMod(n, d);
    DivMod(d, e);
    var k, j := n / d, d / e;
    assert k * (j * e) == (k * j) * e;
    ProductIsMultiple(k * j, e);
  }

  function Gcd(a: nat, b: nat): (g: nat)
    decreases b
  {
    if b == 0 then a else Gcd(b, a % b)
  }

  method ComputeGcd(left: nat, right: nat) returns (g: nat)
    ensures g == Gcd(left, right)
  {
    var l, r := left, right;
    while r != 0
      invariant Gcd(l, r) == Gcd(left, right)
      decreases r
    {
      l, r := r, l % r;
    }
    g := l;
  }

  lemma Distribute(a: int, b: int, c: int)
    ensures (a + b) * c == a * c + b * c
  {
  }

  lemma Cancel(g: nat, u: int, v: int)
    requires g > 0 && g * u == g * v
    ensures u == v
  {
    if u < v { MulMonotone(u + 1, v, g); }
    if v < u { MulMonotone(v + 1, u, g); }
  }

  lemma Recombine(a: nat, b: nat, k: nat, m: nat, p: nat, q: nat, g: nat)
    requires a == k * b + m && b == p * g && m == q * g
    ensures a == (k * p + q) * g
  {
    Distribute(k * p, q, g);
    assert k * (p * g) == (k * p) * g;
  }

  // Both arguments are multiples of their greatest common divisor.
  lemma {:induction false} GcdDivides(a: nat, b: nat) returns (p: nat, q: nat)
    requires a > 0 || b > 0
    ensures Gcd(a, b) > 0
    ensures a == p * Gcd(a, b) && b == q * Gcd(a, b)
    decreases b
  {
    if b == 0 {
      p, q := 1, 0;
    } else {
      var g := Gcd(a, b);
      var p', q' := GcdDivides(b, a % b);
      DivMod(a, b);
      var k := a / b;
      Recombine(a, b, k, a % b, p', q', g);
      p, q := k * p' + q', p';
    }
  }

  // The greatest common divisor is a combination of its arguments.
  lemma {:induction false} Bezout(a: nat, b: nat) returns (x: int, y: int)
    ensures x * a + y * b == Gcd(a, b)
    decreases b
  {
    if b == 0 {
      x, y := 1, 0;
    } else {
      var x', y' := Bezout(b, a % b);
      DivMod(a, b);
      var k := a / b;
      assert a % b == a - k * b;
      assert y' * (a - k * b) == y' * a - (y' * k) * b;
      Distribute(x', -(y' * k), b);
      x, y := y', x' - y' * k;
    }
  }

  /** The true least common multiple, whatever its size. */
  function TrueLcm(a: nat, b: nat): (l: nat)
    requires a > 0 && b > 0
  {
    var g := Gcd(a, b);
    if g == 0 then 0 else (a / g) * b
  }

  function Lcm(a: nat, b: nat): (r: Option<U64>) {
    if a == 0 || b == 0 then None
    else if TrueLcm(a, b) <= U64_MAX then Some(TrueLcm(a, b)) else None
  }

  lemma LcmIsCommonMultiple(a: nat, b: nat)
    requires a > 0 && b > 0
    ensures Gcd(a, b) > 0 && TrueLcm(a, b) > 0
    ensures IsMultiple(TrueLcm(a, b), a) && IsMultiple(TrueLcm(a, b), b)
  {
    var g := Gcd(a, b);
    var p, q := GcdDivides(a, b);
    ModUnique(a, p, 0, g);
    assert p * b == p * (q * g) == q * (p * g) == q * a;
    assert p > 0;
    ProductIsMultiple(p, b);
    ProductIsMultiple(q, a);
    MulMonotone(1, p, b);
  }

  /** Every common multiple is a multiple of the least one. */
  lemma LcmDividesCommonMultiples(a: nat, b: nat, m: nat)
    requires a > 0 && b > 0
    requires IsMultiple(m, a) && IsMultiple(m, b)
    ensures TrueLcm(a, b) > 0 && IsMultiple(m, TrueLcm(a, b))
  {
    LcmIsCommonMultiple(a, b);
    var g, l := Gcd(a, b), TrueLcm(a, b);
    var p, q := GcdDivides(a, b);
    ModUnique(a, p, 0, g);
    var x, y := Bezout(a, b);
    DivMod(m, a);
    DivMod(m, b);
    var t := CommonMultipleQuotient(a, b, g, p, m / a, m / b, m, x, y);
    assert m == t * l;
    if t < 0 { MulMonotone(t, -1, l); }
    ProductIsMultiple(t, l);
  }

  lemma CommonMultipleQuotient(a: nat, b: nat, g: nat, p: nat, k: nat, j: nat, m: nat, x: int, y: int) returns (t: int)
    requires g > 0 && a == p * g && x * a + y * b == g
    requires m == k * a && m == j * b
    ensures m == t * (p * b)
  {
    t := x * j + y * k;
    calc {
      g * m;
      (x * a + y * b) * m;
      { Distribute(x * a, y * b, m); }
      (x * a) * m + (y * b) * m;
      (x * a) * (j * b) + (y * b) * (k * a);
      { assert (x * a) * (j * b) == (x * j) * (a * b); assert (y * b) * (k * a) == (y * k) * (a * b); }
      (x * j) * (a * b) + (y * k) * (a * b);
      { Distribute(x * j, y * k, a * b); }
      t * (a * b);
      t * ((p * g) * b);
      { assert t * ((p * g) * b) == g * (t * (p * b)); }
      g * (t * (p * b));
    }
    Cancel(g, m, t * (p * b));
  }

  function AlignUp(value: U64, alignment: nat): (r: Option<U64>) {
    if alignment == 0 then None
    else if value % alignment == 0 then Some(value)
    else CheckedAdd(value, alignment - value % alignment)
  }

  /** Rounding up lands on the lowest multiple that is not below the value, if that fits 64 bits. */
  lemma AlignUpIsLowest(value: U64, alignment: nat, m: nat)
    requires alignment > 0
    requires IsMultiple(m, alignment) && value <= m
    ensures m <= U64_MAX ==> AlignUp(value, alignment).Some?
    ensures AlignUp(value, alignment).Some? ==> AlignUp(value, alignment).value <= m
  {
    DivMod(value, alignment);
    DivMod(m, alignment);
    if value % alignment != 0 {
      var q, r := value / alignment, m / alignment;
      if r <= q { MulMonotone(r, q, alignment); } else { MulMonotone(q + 1, r, alignment); }
      assert (q + 1) * alignment == q * alignment + alignment;
    }
  }

  lemma AlignUpIsMultiple(value: U64, alignment: nat)
    requires AlignUp(value, alignment).Some?
    ensures IsMultiple(AlignUp(value, alignment).value, alignment)
    ensures value <= AlignUp(value, alignment).value < value + alignment
  {
    if value % alignment != 0 {
      DivMod(value, alignment);
      var q := value / alignment;
      assert (q + 1) * alignment == q * alignment + alignment;
      ProductIsMultiple(q + 1, alignment);
    }
  }
}
