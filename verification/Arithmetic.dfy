/** BigInt arithmetic: division truncating toward zero, powers of ten, floor-division bounds. */
module Arithmetic {

  const WAD: nat := 1_000_000_000_000_000_000 // 10n ** 18n
  const BPS: nat := 10000

  /** BigInt `/` with a positive divisor. */
  function TruncDiv(a: int, b: int): int
    requires b > 0
  {
    if a >= 0 then a / b else -((-a) / b)
  }

  function Pow10(n: nat): (r: nat)
    ensures r >= 1
  {
    if n == 0 then 1 else 10 * Pow10(n - 1)
  }

  lemma FloorBounds(a: int, b: int)
    requires b > 0
    ensures a / b * b <= a < a / b * b + b
  {
  }

  /** `q` is the floor of `n / d`. */
  ghost predicate IsQuotient(q: int, n: int, d: int) {
    d > 0 && q * d <= n < q * d + d
  }

  lemma QuotientIsUnique(q: int, r: int, n: int, d: int)
    requires IsQuotient(q, n, d) && IsQuotient(r, n, d)
    ensures q == r
  {
    if q < r { MulMono(q + 1, r, d); }
    if r < q { MulMono(r + 1, q, d); }
  }

  lemma DivIsQuotient(n: int, d: int)
    requires d > 0
    ensures IsQuotient(n / d, n, d)
  {
    FloorBounds(n, d);
  }

  lemma MulMono(a: int, b: int, c: int)
    requires a <= b && 0 <= c
    ensures a * c <= b * c
  {
  }

  lemma MulStrict(a: int, b: int, c: int)
    requires a < b && 0 < c
    ensures a * c < b * c
  {
  }

  lemma MulCancel(a: int, b: int, c: int)
    requires a * c <= b * c && 0 < c
    ensures a <= b
  {
    if a > b { MulStrict(b, a, c); }
  }

  lemma MulThenDiv(a: int, b: int)
    requires b > 0
    ensures a * b / b == a
  {
    FloorBounds(a * b, b);
    var q := a * b / b;
    if q < a { MulMono(q + 1, a, b); }
    if q > a { MulMono(a + 1, q, b); }
  }

  lemma DivNonNegative(a: int, b: int)
    requires a >= 0 && b > 0
    ensures a / b >= 0
  {
    FloorBounds(a, b);
    if a / b <= -1 { MulMono(a / b, -1, b); }
  }

  lemma MulOneLess(a: int, b: int)
    ensures (a - 1) * b == a * b - b
  {
  }

  lemma MulNonNegative(a: int, b: int)
    requires a >= 0 && b >= 0
    ensures a * b >= 0
  {
  }

  lemma {:induction false} Pow10Sum(m: nat, n: nat)
    ensures Pow10(m) * Pow10(n) == Pow10(m + n)
  {
    if m == 0 {
    } else {
      Pow10Sum(m - 1, n);
      assert Pow10(m) * Pow10(n) == 10 * (Pow10(m - 1) * Pow10(n));
    }
  }

  lemma WadIsPow10()
    ensures Pow10(18) == WAD
  {
    assert Pow10(2) == 100;
    Pow10Sum(2, 1);
    Pow10Sum(3, 3);
    Pow10Sum(6, 6);
    Pow10Sum(12, 6);
  }

  /** An amount of a token with `decimals` decimals, at the 1e18 scale. */
  function NormalizeTo18(amount: nat, decimals: nat): nat {
    if decimals == 18 then amount
    else if decimals < 18 then amount * Pow10(18 - decimals)
    else DivNonNegative(amount, Pow10(decimals - 18)); amount / Pow10(decimals - 18)
  }

  /** `at18` is the amount at the 1e18 scale, rounded down. */
  ghost predicate IsScaled(amount: nat, decimals: nat, at18: nat) {
    if decimals <= 18 then at18 == amount * Pow10(18 - decimals) else IsQuotient(at18, amount, Pow10(decimals - 18))
  }

  lemma ScaledIsTheOne(amount: nat, decimals: nat, at18: nat)
    ensures IsScaled(amount, decimals, at18) <==> at18 == NormalizeTo18(amount, decimals)
  {
    if decimals > 18 {
      DivIsQuotient(amount, Pow10(decimals - 18));
      if IsScaled(amount, decimals, at18) {
        QuotientIsUnique(at18, amount / Pow10(decimals - 18), amount, Pow10(decimals - 18));
      }
    }
  }
}
