/** Cut-off arithmetic, and facts about products, quotients and remainders that the solver needs spelled out. */
module Arithmetic {

  function Min(a: nat, b: nat): nat { if a < b then a else b }

  function Max(a: nat, b: nat): nat { if a < b then b else a }

  function SaturatingSub(a: nat, b: nat): nat { if a < b then 0 else a - b }

  function Product(a: nat, b: nat): nat { a * b }

  lemma AtLeastOnce(k: int, d: int)
    requires d >= 0
    ensures k >= 1 ==> k * d >= d
    ensures k == 0 ==> k * d == 0
    ensures k <= -1 ==> k * d <= -d
  {
    if k >= 1 {
      assert k * d == (k - 1) * d + d;
    } else if k <= -1 {
      assert k * d == (k + 1) * d - d;
    }
  }

  /** Multiples of `n` that are less than `n` apart are equal. */
  lemma CloseMultiples(a: int, b: int, n: int)
    requires n > 0 && -n < a * n - b * n < n
    ensures a == b
  {
    assert a * n - b * n == (a - b) * n;
    AtLeastOnce(a - b, n);
  }

  lemma Quotient(q: int, n: int, r: int)
    requires 0 <= r < n
    ensures (q * n + r) / n == q
    ensures (q * n + r) % n == r
  {
    var x := q * n + r;
    assert x == (x / n) * n + x % n;
    CloseMultiples(q, x / n, n);
  }

  /** The full intervals of length `n` within `k` steps, the last one having ended `age` steps ago. */
  function Intervals(age: nat, k: nat, n: nat): nat
    requires n > 0
  {
    (age + k) / n
  }

  lemma IntervalsStep(age: nat, k: nat, n: nat)
    requires age < n && k > 0
    ensures Intervals(age, 0, n) == 0
    ensures Intervals(age, k, n) == if age + 1 < n then Intervals(age + 1, k - 1, n) else 1 + Intervals(0, k - 1, n)
  {
    Quotient(0, n, age);
    if age + 1 == n {
      var x := k - 1;
      Quotient(1 + x / n, n, x % n);
      assert n + x == (1 + x / n) * n + x % n;
    }
  }
}
