/** Division facts the solver does not find when the divisor is a variable. */
module Arith {

  lemma QuotientOrder(a: nat, b: nat, p: nat, m: nat, r: nat)
    requires a > b && m < p && r < p
    ensures a * p + m > b * p + r
  {
    var k := a - b - 1;
    assert k * p >= 0;
    assert a * p == b * p + p + k * p;
  }

  lemma ModUnique(n: nat, p: nat, q: nat, r: nat)
    requires r < p && n == q * p + r
    ensures n / p == q && n % p == r
  {
    var d, m := n / p, n % p;
    if d > q {
      QuotientOrder(d, q, p, m, r);
    } else if d < q {
      QuotientOrder(q, d, p, r, m);
    }
  }

  lemma Euclid(n: nat, d: nat) returns (q: nat, r: nat)
    requires d > 0
    ensures q == n / d && r == n % d && r < d && n == q * d + r
  {
    q, r := n / d, n % d;
  }

  lemma ModOfDouble(n: nat, p: nat)
    requires p > 0
    ensures n % (2 * p) == n % p || n % (2 * p) == n % p + p
  {
    var q, r := Euclid(n, 2 * p);
    TwiceFactor(q, p);
    if r < p {
      ModUnique(n, p, 2 * q, r);
    } else {
      AddOneFactor(2 * q, p);
      ModUnique(n, p, 2 * q + 1, r - p);
    }
  }

  lemma TwiceFactor(q: int, p: int)
    ensures q * (2 * p) == 2 * q * p
  {
  }

  lemma QuotientBelow(t: nat, d: nat, k: nat)
    requires d > 0 && t < k * d
    ensures t / d < k
  {
    var q, r := t / d, t % d;
    if q > k {
      QuotientOrder(q, k, d, r, 0);
    }
  }

  lemma FactorBelow(q: nat, x: nat, d: nat, k: nat)
    requires q * d + x < k * d
    ensures q < k
  {
    if q > k {
      QuotientOrder(q, k, d, 0, 0);
    }
  }

  /** ceil((r + 1) / d) is floor(r / d) + 1. */
  lemma CeilingIsNext(r: nat, d: nat, bound: nat) returns (k: nat)
    requires d > 0 && r < bound * d
    ensures k == (r + 1 + d - 1) / d
    ensures 1 <= k <= bound
    ensures (k - 1) * d <= r < (k - 1) * d + d
  {
    QuotientBelow(r, d, bound);
    var q := r / d;
    AddOneFactor(q, d);
    ModUnique(r + d, d, q + 1, r % d);
    k := q + 1;
  }

  /** Counting up by one carries exactly when the remainder is full. */
  lemma NextDivMod(n: nat, d: nat)
    requires d > 0
    ensures if n % d + 1 == d then (n + 1) / d == n / d + 1 && (n + 1) % d == 0
            else (n + 1) / d == n / d && (n + 1) % d == n % d + 1
  {
    var q, r := n / d, n % d;
    AddOneFactor(q, d);
    if r + 1 == d {
      ModUnique(n + 1, d, q + 1, 0);
    } else {
      ModUnique(n + 1, d, q, r + 1);
    }
  }

  /** Shifting by less than a whole cycle changes the remainder. */
  lemma ShiftedMod(q: nat, d: nat, cycle: nat)
    requires d < cycle
    ensures (q + d) % cycle == q % cycle <==> d == 0
  {
    var k, r := q / cycle, q % cycle;
    if r + d < cycle {
      ModUnique(q + d, cycle, k, r + d);
    } else {
      AddOneFactor(k, cycle);
      ModUnique(q + d, cycle, k + 1, r + d - cycle);
    }
  }

  function Quotient(a: nat, b: nat): nat
    requires b > 0
  {
    a / b
  }

  function AtLeastZero(x: int): nat {
    if x >= 0 then x else 0
  }

  function Times(a: nat, b: nat): nat {
    a * b
  }

  lemma AddOneFactor(a: int, b: int)
    ensures (a + 1) * b == a * b + b
  {
  }
}
