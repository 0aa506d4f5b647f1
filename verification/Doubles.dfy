/** How integers become doubles: rounded to 53 significant bits, ties to even (IEEE 754, binary64). */
module Doubles {
  import opened SqlTables

  /** 2^53: up to it every integer is a double. */
  const EXACT: int := 0x20_0000_0000_0000

  /** The conversion keeps order, is exact up to 2^53, and is not beyond it. */
  ghost predicate RoundsLikeDoubles(w: Widen) {
    && (forall i, j | i <= j :: w(i) <= w(j))
    && (forall i | -EXACT <= i <= EXACT :: w(i) == i as real)
    && w(EXACT + 1) == w(EXACT)
  }

  /** The distance of the doubles around n. */
  function Ulp(n: nat): (u: nat)
    ensures u > 0
  {
    if n < EXACT then 1 else 2 * Ulp(n / 2)
  }

  /** Whether q * u + r is nearer to (q + 1) * u; if it is as near, the even factor decides. */
  predicate RoundsUp(q: nat, r: nat, u: nat) {
    2 * r > u || (2 * r == u && q % 2 == 1)
  }

  /** The nearest multiple of u. */
  function Rounded(n: nat, u: nat): nat
    requires u > 0
  {
    if RoundsUp(n / u, n % u, u) then (n / u + 1) * u else n / u * u
  }

  function ToDouble(i: int): real {
    if i >= 0 then Rounded(i, Ulp(i)) as real else -(Rounded(-i, Ulp(-i)) as real)
  }

  lemma {:induction false} UlpBounds(n: nat)
    ensures n < EXACT * Ulp(n) && (n >= EXACT ==> EXACT * Ulp(n) <= 2 * n)
    decreases n
  {
    if n >= EXACT {
      UlpBounds(n / 2);
    }
  }

  lemma {:induction false} UlpGrows(n: nat, m: nat)
    requires n <= m
    ensures Ulp(n) == Ulp(m) || (2 * Ulp(n) <= Ulp(m) && m >= EXACT)
    decreases m
  {
    if n >= EXACT {
      UlpGrows(n / 2, m / 2);
    }
  }

  lemma {:induction false} Scales(a: nat, b: nat, u: nat)
    requires a <= b
    ensures a * u <= b * u
  {
  }

  lemma {:induction false} Divides(n: nat, u: nat)
    requires u > 0
    ensures n == n / u * u + n % u && n % u < u && (n / u + 1) * u == n / u * u + u
  {
  }

  /** The multiple below, or the next one; a multiple stays. */
  lemma {:induction false} RoundedIs(n: nat, u: nat)
    requires u > 0
    ensures var x := n / u * u; x <= n < x + u && Rounded(n, u) == (if RoundsUp(n / u, n % u, u) then x + u else x)
    ensures n == n / u * u ==> !RoundsUp(n / u, n % u, u)
  {
    Divides(n, u);
  }

  /** Rounding does not pass a multiple. */
  lemma {:induction false} RoundedWithin(n: nat, u: nat, k: nat)
    requires u > 0
    ensures k * u <= n ==> k * u <= Rounded(n, u)
    ensures n <= k * u ==> Rounded(n, u) <= k * u
  {
    RoundedIs(n, u);
    if k <= n / u {
      Scales(k, n / u, u);
    } else {
      Scales(n / u + 1, k, u);
      Divides(n, u);
    }
  }

  lemma {:induction false} SameQuotient(n: nat, m: nat, u: nat)
    requires u > 0 && n <= m && n / u == m / u
    ensures Rounded(n, u) <= Rounded(m, u)
  {
    RoundedIs(n, u);
    RoundedIs(m, u);
    Divides(n, u);
    Divides(m, u);
  }

  lemma {:induction false} RoundedGrows(n: nat, m: nat, u: nat)
    requires u > 0 && n <= m
    ensures Rounded(n, u) <= Rounded(m, u)
  {
    if n / u == m / u {
      SameQuotient(n, m, u);
    } else {
      QuotientGrows(n, m, u);
      RoundedIs(n, u);
      RoundedIs(m, u);
    }
  }

  lemma {:induction false} QuotientGrows(n: nat, m: nat, u: nat)
    requires u > 0 && n <= m && n / u != m / u
    ensures n / u * u + u <= m / u * u
  {
    Divides(n, u);
    Divides(m, u);
    if m / u < n / u {
      Scales(m / u + 1, n / u, u);
    }
    Scales(n / u + 1, m / u, u);
  }

  lemma {:induction false} NatGrows(n: nat, m: nat)
    requires n <= m
    ensures Rounded(n, Ulp(n)) <= Rounded(m, Ulp(m))
  {
    UlpGrows(n, m);
    if Ulp(n) == Ulp(m) {
      RoundedGrows(n, m, Ulp(n));
    } else {
      var half := EXACT / 2;
      UlpBounds(n);
      UlpBounds(m);
      RoundedWithin(n, Ulp(n), EXACT);
      RoundedWithin(m, Ulp(m), half);
    }
  }

  lemma {:induction false} NatExact(n: nat)
    requires n <= EXACT
    ensures Rounded(n, Ulp(n)) == n
  {
    if n == EXACT {
      assert Ulp(n / 2) == 1;
    }
  }

  /** The rounding that doubles do is such a conversion. */
  lemma {:induction false} ToDoubleRounds()
    ensures RoundsLikeDoubles(ToDouble)
  {
    forall i: int, j: int | i <= j
      ensures ToDouble(i) <= ToDouble(j)
    {
      if i >= 0 {
        NatGrows(i, j);
      } else if j < 0 {
        NatGrows(-j, -i);
      }
    }
    forall i | -EXACT <= i <= EXACT
      ensures ToDouble(i) == i as real
    {
      NatExact(if i >= 0 then i else -i);
    }
    var n: nat := EXACT + 1;
    assert Ulp(n / 2) == 1 && Ulp(n) == 2;
    assert n / 2 == EXACT / 2 && n % 2 == 1 && (EXACT / 2) % 2 == 0;
    NatExact(EXACT);
  }
}
