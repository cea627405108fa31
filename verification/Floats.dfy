/** Whole numbers in binary floating point of 53 significant bits. */
module Floats {

  import opened Rationals
  import opened FeelNumbers

  const TWO53: nat := 0x20_0000_0000_0000

  /** A natural number such a float can be: no set bit below the 53 highest ones. */
  predicate Representable(n: nat) {
    n < TWO53 || (n % 2 == 0 && Representable(n / 2))
  }

  /** How many bits a number has too many. */
  function ExtraBits(n: nat): nat {
    if n < TWO53 then 0 else 1 + ExtraBits(n / 2)
  }

  /** The nearest such float, ties to even. */
  function RoundF(n: nat): (f: nat) {
    var p := Pow(2, ExtraBits(n));
    assert HalfEven(n, p) >= 0 by { RoundsUpward(n, p); }
    HalfEven(n, p) * p
  }

  lemma RoundsUpward(n: nat, p: nat)
    requires p > 0
    ensures HalfEven(n, p) >= 0
  {
    var q := HalfEven(n, p);
    if q < 0 {
      Falls(q, p);
    }
  }

  lemma Falls(q: int, p: int)
    requires q < 0 && p > 0
    ensures q * p <= -p
  {
    ProductPositive(-q, p);
    assert (-q - 1) * p >= 0 by {
      if -q - 1 > 0 {
        ProductPositive(-q - 1, p);
      }
    }
    assert q * p == -((-q - 1) * p) - p;
  }

  lemma Halving(n: nat, p: nat)
    requires p > 0
    ensures n % (2 * p) == 0 <==> n % 2 == 0 && (n / 2) % p == 0
  {
    if n % (2 * p) == 0 {
      var k := n / (2 * p);
      assert n == 2 * (p * k);
      Multiple(n / 2, p, k);
    }
    if n % 2 == 0 && (n / 2) % p == 0 {
      var k := (n / 2) / p;
      assert n == 2 * (p * k) == (2 * p) * k;
      Multiple(n, 2 * p, k);
    }
  }

  lemma Multiple(n: int, p: int, k: int)
    requires p > 0 && n == p * k
    ensures n % p == 0 && n / p == k
  {
    assert n == p * k + 0;
    DivisionIsUnique(n, p, k, 0);
  }

  lemma DivisionIsUnique(n: int, p: int, q: int, r: int)
    requires p > 0 && n == p * q + r && 0 <= r < p
    ensures n / p == q && n % p == r
  {
    var a, b := n / p, n % p;
    assert p * (a - q) == r - b && p * (q - a) == b - r;
    if a > q {
      ProductPositive(p, a - q);
      Steps(p, a - q);
    } else if a < q {
      Steps(p, q - a);
    }
  }

  lemma Steps(p: int, d: int)
    requires p > 0 && d > 0
    ensures p * d >= p
  {
    assert p * d == p * (d - 1) + p;
    if d > 1 {
      ProductPositive(p, d - 1);
    }
  }

  lemma {:induction false} Divisible(n: nat)
    ensures n % Pow(2, ExtraBits(n)) == 0 <==> Representable(n)
  {
    if n >= TWO53 {
      Divisible(n / 2);
      Halving(n, Pow(2, ExtraBits(n / 2)));
    }
  }

  /** Rounding keeps exactly the numbers that can be represented. */
  lemma RoundKeepsExactly(n: nat)
    ensures RoundF(n) == n <==> Representable(n)
  {
    var p := Pow(2, ExtraBits(n));
    Divisible(n);
    if n % p == 0 {
      assert n == (n / p) * p;
    }
    if RoundF(n) == n {
      Multiple(n, p, HalfEven(n, p));
    }
  }

  /** A small number times a power of two can be. */
  lemma {:induction false} SmallTimesPower(m: nat, k: nat)
    requires m < TWO53
    ensures Representable(m * Pow(2, k))
    decreases k
  {
    var n := m * Pow(2, k);
    if k == 0 {
      assert n == m;
    } else {
      SmallTimesPower(m, k - 1);
      assert n == 2 * (m * Pow(2, k - 1));
    }
  }
}
