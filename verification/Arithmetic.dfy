/** Division and remainder of natural numbers: the few facts the solver needs to be told. */
module Arithmetic {
  lemma DivAtLeast(a: nat, b: nat, q: nat)
    requires b > 0
    ensures a / b >= q <==> a >= q * b
  {
    var r := a % b;
    assert a == a / b * b + r;
    if a / b >= q {
      assert (a / b - q) * b >= 0;
    } else {
      assert (q - 1 - a / b) * b >= 0;
    }
  }

  lemma DivBelow(a: nat, b: nat, q: nat)
    requires b > 0 && a / b < q
    ensures a < (q + 1) * b && a < q * b
  {
    DivAtLeast(a, b, q);
  }

  lemma DivUnique(a: nat, b: nat, q: nat, r: nat)
    requires b > 0 && a == q * b + r && r < b
    ensures a / b == q && a % b == r
  {
    DivAtLeast(a, b, q);
    assert (q + 1) * b == q * b + b;
    DivAtLeast(a, b, q + 1);
    assert a == a / b * b + a % b;
  }

  /** Whole multiples only move the quotient. */
  lemma DivShift(a: nat, b: nat, q: nat)
    requires b > 0
    ensures (a + q * b) / b == a / b + q && (a + q * b) % b == a % b
  {
    assert a + q * b == (a / b + q) * b + a % b;
    DivUnique(a + q * b, b, a / b + q, a % b);
  }

  lemma ModStep(a: nat, m: nat)
    requires m > 0
    ensures (a % m + 1) % m == (a + 1) % m
  {
    ModAdd(a, 1, m);
  }

  lemma ModAdd(a: nat, b: nat, m: nat)
    requires m > 0
    ensures (a % m + b) % m == (a + b) % m
  {
    var x := a % m + b;
    assert a + b == (a / m + x / m) * m + x % m;
    DivUnique(a + b, m, a / m + x / m, x % m);
  }

  /** Numbers less than `m` apart have different remainders. */
  lemma ModDistinct(a: nat, b: nat, m: nat)
    requires m > 0 && a < b < a + m
    ensures a % m != b % m
  {
    var d := b / m - a / m;
    assert b - a == d * m + b % m - a % m;
    if d >= 1 {
      assert d * m >= m;
    } else {
      assert d * m <= 0;
    }
  }

  /** Distances from positions that share a residue share one too. */
  lemma SameResidue(w: nat, v: nat, r: nat, m: nat)
    requires m > 0 && r <= v <= w && v % m == r % m
    ensures (w - r) % m == (w - v) % m
  {
    var d := v / m - r / m;
    assert v - r == d * m;
    assert w - r == ((w - v) / m + d) * m + (w - v) % m;
    DivUnique(w - r, m, (w - v) / m + d, (w - v) % m);
  }

  lemma SameShift(a: nat, b: nat, n: nat, m: nat)
    requires m > 0 && a % m == b % m
    ensures (a + n) % m == (b + n) % m
  {
    ModAdd(a, n, m);
    ModAdd(b, n, m);
  }

  lemma LastResidue(d: nat, m: nat)
    requires m > 0
    ensures d % m == m - 1 <==> (d + 1) % m == 0
  {
    if d % m == m - 1 {
      DivUnique(d + 1, m, d / m + 1, 0);
    } else {
      DivUnique(d + 1, m, d / m, d % m + 1);
    }
  }

  /** Going back by no more than the remainder stays within the lap. */
  lemma ModMinus(d: nat, n: nat, m: nat)
    requires m > 0 && n <= d % m
    ensures n <= d && (d - n) % m == d % m - n
  {
    DivUnique(d - n, m, d / m, d % m - n);
  }

  /** A position is whole laps before `end` exactly when it shares its slot with the last one that is. */
  lemma LapsMeet(from: nat, end: nat, m: nat)
    requires m > 0 && from + m <= end
    ensures (end - from) % m == 0 <==> from % m == (end - m) % m
  {
    if (end - from) % m == 0 {
      var q := (end - from) / m;
      assert end - from == q * m;
      DivShift(from, m, q - 1);
    }
    if from % m == (end - m) % m {
      SameResidue(end, end - m, from, m);
      DivUnique(m, m, 1, 0);
    }
  }
}
