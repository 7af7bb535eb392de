/**
 Products and remainders, one fact at a time.
 */
module MulFacts {

  lemma Add(a: int, b: int, m: int)
    ensures (a + b) * m == a * m + b * m
  {
  }

  lemma Nat(a: nat, m: nat)
    ensures a * m >= 0
  {
  }

  lemma Ge(a: nat, m: nat)
    requires a >= 1
    ensures a * m >= m
  {
    Add(a - 1, 1, m);
    Nat(a - 1, m);
  }

  lemma Mono(a: nat, b: nat, m: nat)
    requires a <= b
    ensures a * m <= b * m
  {
    Add(a, b - a, m);
    Nat(b - a, m);
  }

  lemma Less(a: nat, b: nat, m: nat)
    requires a * m < b * m
    ensures a < b
  {
    if b <= a { Mono(b, a, m); }
  }

  lemma Assoc(a: int, b: int, c: int)
    ensures a * (b * c) == (a * b) * c
  {
  }

  lemma ScaleInjective(a: nat, b: nat, m: nat)
    requires m > 0 && a * m == b * m
    ensures a == b
  {
    MixedRadix(a, 0, b, 0, m);
  }

  lemma MixedRadix(a: nat, r: nat, b: nat, s: nat, m: nat)
    requires r < m && s < m && a * m + r == b * m + s
    ensures a == b && r == s
  {
    if a < b {
      Mono(a + 1, b, m);
      Add(a, 1, m);
    } else if b < a {
      Mono(b + 1, a, m);
      Add(b, 1, m);
    }
  }

  lemma RadixBound(a: nat, r: nat, n: nat, m: nat)
    requires a < n && r < m
    ensures a * m + r < n * m && a * m + m <= n * m
  {
    Mono(a + 1, n, m);
    Add(a, 1, m);
  }

  lemma ModUnique(x: int, q: int, r: nat, m: nat)
    requires m > 0 && r < m && x == q * m + r
    ensures x % m == r && x / m == q
  {
    var q', r' := x / m, x % m;
    assert q * m + r == q' * m + r';
    if q < q' {
      Add(q, q' - q, m);
      Ge(q' - q, m);
    } else if q' < q {
      Add(q', q - q', m);
      Ge(q - q', m);
    }
  }

  lemma DivMod(x: int, m: nat)
    requires m > 0
    ensures x == (x / m) * m + x % m && 0 <= x % m < m
  {
  }

  lemma ModSucc(x: int, m: nat)
    requires m > 0
    ensures (x + 1) % m == if x % m + 1 == m then 0 else x % m + 1
  {
    var q, r := x / m, x % m;
    DivMod(x, m);
    Add(q, 1, m);
    if r + 1 == m {
      ModUnique(x + 1, q + 1, 0, m);
    } else {
      ModUnique(x + 1, q, r + 1, m);
    }
  }

  lemma ModShift(a: int, b: int, m: nat)
    requires m > 0
    ensures (a % m + b) % m == (a + b) % m
  {
    var q, p := a / m, (a % m + b) / m;
    DivMod(a, m);
    DivMod(a % m + b, m);
    Add(q, p, m);
    ModUnique(a + b, q + p, (a % m + b) % m, m);
  }

  lemma DivExact(a: nat, b: nat)
    requires b > 0
    ensures a * b / b == a && a * b % b == 0
  {
    ModUnique(a * b, a, 0, b);
  }
}
