/** Facts about products and remainders that the ring and the arena share. */
module Arithmetic {

  lemma {:induction false} MulMonotone(q: int, r: int, c: nat)
    requires q <= r
    ensures q * c <= r * c
    decreases r - q
  {
    if q < r { MulMonotone(q, r - 1, c); }
  }

  lemma DivMod(a: nat, c: nat)
    requires 0 < c
    ensures a == (a / c) * c + a % c
  {
  }

  // A remainder is the only number below the divisor that completes a multiple of it.
  lemma ModUnique(a: nat, q: nat, x: nat, c: nat)
    requires x < c && a == q * c + x
    ensures a % c == x && a / c == q
  {
    DivMod(a, c);
    if a / c < q { MulMonotone(a / c + 1, q, c); }
    if q < a / c { MulMonotone(q + 1, a / c, c); }
  }

  // Two positions less than `c` apart have different remainders.
  lemma RemaindersDiffer(a: nat, b: nat, c: nat)
    requires a < b < a + c
    ensures a % c != b % c
  {
    DivMod(a, c);
    DivMod(b, c);
    if a % c == b % c {
      var q, r := a / c, b / c;
      if q < r { MulMonotone(q + 1, r, c); } else { MulMonotone(r, q, c); }
    }
  }

  // Where a position lands once it has been carried past a known remainder.
  lemma RemainderCarries(a: nat, i: nat, c: nat)
    requires 0 < c && i < c
    ensures (a + i) % c == if a % c + i < c then a % c + i else a % c + i - c
  {
    DivMod(a, c);
    var q := a / c;
    if a % c + i < c {
      ModUnique(a + i, q, a % c + i, c);
    } else {
      assert (q + 1) * c == q * c + c;
      ModUnique(a + i, q + 1, a % c + i - c, c);
    }
  }
}
