// Integer division facts shared by the sizing models.
module IntMath {

  function Min(a: int, b: int): int { if a <= b then a else b }

  function Max(a: int, b: int): int { if a >= b then a else b }

  function FloorDiv(a: nat, b: nat): nat
    requires b > 0
  {
    a / b
  }

  /** math.ceil(a / b) */
  function CeilDiv(a: nat, b: nat): nat
    requires b > 0
  {
    (a + b - 1) / b
  }

  lemma DivModUnique(n: int, q: int, c: int, m: int)
    requires c > 0 && n == q * c + m && 0 <= m < c
    ensures n / c == q && n % c == m
  {
    if n / c > q {
      MulLe(q + 1, n / c, c);
    } else if n / c < q {
      MulLe(n / c + 1, q, c);
    }
  }

  lemma MulLe(a: int, b: int, c: int)
    requires a <= b && c >= 0
    ensures a * c <= b * c && c * a <= c * b
  {
  }

  lemma MulSucc(n: int, c: int)
    ensures (n + 1) * c == n * c + c
  {
  }

  lemma DivLe(a: int, b: int, c: int)
    requires a <= b && c > 0
    ensures a / c <= b / c
  {
    if a / c > b / c {
      MulLe(b / c + 1, a / c, c);
    }
  }

  /** floor(a / c) reaches x exactly when a reaches x * c. */
  lemma DivReaches(a: int, c: int, x: int)
    requires c > 0
    ensures x <= a / c <==> x * c <= a
  {
    if x <= a / c {
      MulLe(x, a / c, c);
    } else {
      MulLe(a / c + 1, x, c);
    }
  }

  lemma DivAtMost(a: int, c: int, x: int)
    requires c > 0 && a <= c * x
    ensures a / c <= x
  {
    DivLe(a, c * x, c);
    DivModUnique(c * x, x, c, 0);
  }

  lemma CeilDivLe(a: nat, b: nat, c: nat)
    requires a <= b && c > 0
    ensures CeilDiv(a, c) <= CeilDiv(b, c)
  {
    DivLe(a + c - 1, b + c - 1, c);
  }

  lemma CeilDivMultiple(k: nat, r: nat, c: nat)
    requires c > 0 && r < c
    ensures CeilDiv(k * c + r, c) == if r == 0 then k else k + 1
  {
    if r == 0 {
      DivModUnique(k * c + c - 1, k, c, c - 1);
    } else {
      DivModUnique(k * c + r + c - 1, k + 1, c, r - 1);
    }
  }
}
