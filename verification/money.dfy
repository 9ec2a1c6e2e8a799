// Money as the agents app keeps it: a cost is a whole number of 1/10000 EUR, the bank's cap and
// a run's limit are whole cents, and every total that meets the cap is first quantized to cents
// with ties going to the even cent.

module Money {
  // One cent, in units of 1/10000 EUR.
  const CENT := 100

  predicate WholeCents(x: int) {
    x % CENT == 0
  }

  // `Decimal.quantize(Decimal("0.00"))` under ROUND_HALF_EVEN, for an amount that is not negative.
  function Quantize(x: nat): (q: nat) {
    var cents, rest := x / CENT, x % CENT;
    if rest < 50 || (rest == 50 && cents % 2 == 0) then cents * CENT else (cents + 1) * CENT
  }

  // How far past a whole-cent bound an exact amount may lie and still quantize within it: the
  // tie is lost downwards only at an even cent.
  function Slack(bound: nat): nat {
    if (bound / CENT) % 2 == 0 then 50 else 49
  }

  // Quantizing picks a nearest whole cent, and the even one of two.
  lemma QuantizeIsNearest(x: nat, cent: nat)
    requires WholeCents(cent)
    ensures WholeCents(Quantize(x))
    ensures -50 <= Quantize(x) - x <= 50
    ensures cent != Quantize(x) ==>
      (if cent < x then x - cent else cent - x) >= (if Quantize(x) < x then x - Quantize(x) else Quantize(x) - x)
    ensures (Quantize(x) - x == 50 || x - Quantize(x) == 50) ==> (Quantize(x) / CENT) % 2 == 0
  {
    assert x == (x / CENT) * CENT + x % CENT;
    assert cent == (cent / CENT) * CENT;
    if cent / CENT <= x / CENT {
    } else {
      assert cent / CENT >= x / CENT + 1;
    }
  }

  // A quantized total meets a whole-cent bound exactly when the exact total is at most the bound
  // plus its slack. This is the whole difference between what the cap compares and what is spent.
  lemma QuantizeMeetsBound(x: nat, bound: nat)
    requires WholeCents(bound)
    ensures Quantize(x) <= bound <==> x <= bound + Slack(bound)
  {
    var cents, rest, b := x / CENT, x % CENT, bound / CENT;
    assert x == cents * CENT + rest && bound == b * CENT;
    if cents < b {
    } else if cents > b {
    } else {
    }
  }
}
