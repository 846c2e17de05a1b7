/** The few facts about numbers the others need. */
module Arithmetic {

  lemma MulAway(b: int, e: int)
    requires b > 0
    ensures e >= 1 ==> b * e >= b
    ensures e <= -1 ==> b * e <= 0 - b
  {
    if e >= 1 {
      assert b * (e - 1) >= 0;
    } else if e <= -1 {
      assert b * (0 - e - 1) >= 0;
    }
  }

  lemma DivModUnique(n: int, d: int, q: int, k: int)
    requires d > 0 && n == d * q + k && 0 <= k < d
    ensures n / d == q && n % d == k
  {
    var p, m := n / d, n % d;
    assert n == d * p + m && 0 <= m < d;
    assert d * (p - q) == k - m;
    MulAway(d, p - q);
  }

  lemma DivModStep(n: nat, d: nat)
    requires n > 0 && d > 1
    ensures 0 <= (n - 1) % d < d && 0 <= n % d < d
    ensures if (n - 1) % d < d - 1 then n / d == (n - 1) / d && n % d == (n - 1) % d + 1
            else n / d == (n - 1) / d + 1 && n % d == 0
  {
    var q, k := (n - 1) / d, (n - 1) % d;
    assert n - 1 == d * q + k;
    if k < d - 1 {
      DivModUnique(n, d, q, k + 1);
    } else {
      assert n == d * (q + 1) + 0;
      DivModUnique(n, d, q + 1, 0);
    }
  }

  lemma DivDecreases(n: nat, base: nat)
    requires 2 <= base <= n
    ensures 0 < n / base < n
  {
    var q := n / base;
    assert n == base * q + n % base;
    MulAway(base, q);
    assert base * q == 2 * q + (base - 2) * q;
    assert (base - 2) * q >= 0;
  }

  lemma DivBelow(n: nat, base: nat, p: nat)
    requires 0 < base && n < base * p
    ensures n / base < p
  {
    var q := n / base;
    assert n == base * q + n % base;
    assert base * (q - p) + n % base < 0;
    MulAway(base, q - p);
  }

  /** Numbers compare as quotient first, then remainder. */
  lemma DivModOrder(m: nat, n: nat, base: nat)
    requires base > 0
    ensures m < n <==> m / base < n / base || (m / base == n / base && m % base < n % base)
    ensures m == n <==> m / base == n / base && m % base == n % base
  {
    var q, p := m / base, n / base;
    assert m == base * q + m % base && n == base * p + n % base;
    assert n - m == base * (p - q) + n % base - m % base;
    MulAway(base, p - q);
  }

  /** A number not in the set. */
  lemma {:induction false} AboveAll(numbers: set<nat>) returns (bound: nat)
    ensures forall n | n in numbers :: n < bound
  {
    bound := 0;
    if numbers != {} {
      var k :| k in numbers;
      var above := AboveAll(numbers - {k});
      bound := if k < above then above else k + 1;
      assert forall n | n in numbers :: n == k || n in numbers - {k};
    }
  }
}
