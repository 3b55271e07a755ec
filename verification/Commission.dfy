/** The platform commission formula and its integer behaviour. */
module Commission {

  const MAX_INT64: int := 0x7fff_ffff_ffff_ffff
  const BPS: int := 10000

  predicate FitsInt64(x: int) { -MAX_INT64 - 1 <= x <= MAX_INT64 }

  predicate ValidPrice(price: int) { 0 < price <= MAX_INT64 }

  predicate ValidRate(rate: int) { 0 <= rate <= BPS }

  /** Integer division as Go does it: towards zero. */
  function Quo(a: int, b: int): int
    requires b > 0
  {
    if a >= 0 then a / b else -((-a) / b)
  }

  function Rem(a: int, b: int): int
    requires b > 0
  {
    a - b * Quo(a, b)
  }

  /** The split formula: whole multiples of 10000 first, the remainder after. */
  function CommissionFee(price: int, rate: int): int {
    Quo(price, BPS) * rate + Quo(Rem(price, BPS) * rate, BPS)
  }

  lemma MulMonotone(a: int, b: int, c: int)
    requires 0 <= a && b <= c
    ensures a * b <= a * c
  {}

  lemma FloorUnique(x: int, q: int, r: int)
    requires x == BPS * q + r && 0 <= r < BPS
    ensures x / BPS == q
  {}

  /** For every non-negative int64 price and every rate a category may carry, the split
      formula is the floor of `price * rate / 10000`, the fee lies between 0 and the
      price, and no intermediate value of the evaluation leaves int64 (the direct product
      `price * rate` may). */
  lemma FeeIsFloor(price: int, rate: int)
    requires 0 <= price <= MAX_INT64 && ValidRate(rate)
    ensures CommissionFee(price, rate) == (price * rate) / BPS
    ensures 0 <= CommissionFee(price, rate) <= price
    ensures FitsInt64(Quo(price, BPS) * rate)
    ensures FitsInt64(Rem(price, BPS) * rate)
    ensures FitsInt64(CommissionFee(price, rate))
  {
    var q, r := price / BPS, price % BPS;
    assert Quo(price, BPS) == q && Rem(price, BPS) == r;
    MulMonotone(q, 0, rate);
    MulMonotone(q, rate, BPS);
    MulMonotone(r, 0, rate);
    MulMonotone(r, rate, BPS);
    var e, f := (r * rate) / BPS, (r * rate) % BPS;
    assert 0 <= r * rate <= BPS * r;
    assert 0 <= e <= r;
    calc {
      price * rate;
      (BPS * q + r) * rate;
      BPS * (q * rate) + r * rate;
      BPS * (q * rate + e) + f;
    }
    FloorUnique(price * rate, q * rate + e, f);
  }

  /** The plain product would overflow where the split formula does not. */
  lemma PlainProductOverflows()
    ensures !FitsInt64(MAX_INT64 * 500)
    ensures FitsInt64(CommissionFee(MAX_INT64, 500))
  {
    FeeIsFloor(MAX_INT64, 500);
  }
}
