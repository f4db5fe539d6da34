/** Rounding arithmetic of the exchange.

    An amount multiplied by a price is rounded down, `multiply_and_round_up` rounds it up, and two
    prices are compared by cross-multiplication.  Amounts are unbounded here; the source rejects
    results above the maximum share supply.
 */
module Prices {
  import opened Common

  /** `base` of the asset sold against `quote` of the asset asked for. */
  datatype Price = Price(base: pos, quote: pos) {
    function Invert(): Price { Price(quote, base) }
  }

  predicate Less(p: Price, q: Price) { p.base * q.quote < q.base * p.quote }

  predicate AtMost(p: Price, q: Price) { !Less(q, p) }

  /** floor(a * n / d) */
  function MulDown(a: nat, n: nat, d: pos): nat { a * n / d }

  /** ceiling(a * n / d) */
  function MulUp(a: nat, n: nat, d: pos): nat { (a * n + d - 1) / d }

  // `asset * price` and `multiply_and_round_up`, one function for each direction of exchange

  function ToQuote(a: nat, p: Price): nat { MulDown(a, p.quote, p.base) }
  function ToQuoteUp(a: nat, p: Price): nat { MulUp(a, p.quote, p.base) }
  function ToBase(a: nat, p: Price): nat { MulDown(a, p.base, p.quote) }
  function ToBaseUp(a: nat, p: Price): nat { MulUp(a, p.base, p.quote) }

  lemma DivBounds(t: nat, d: pos)
    ensures t / d * d <= t < t / d * d + d
    ensures t <= (t + d - 1) / d * d < t + d
  {}

  /** An integer is below `t / d` exactly when its multiple of `d` is at most `t`. */
  lemma DivLeast(t: nat, d: pos, x: int)
    ensures x <= t / d <==> x * d <= t
    ensures (t + d - 1) / d <= x <==> t <= x * d
  {
    DivBounds(t, d);
    if x <= t / d { MulMono(x, t / d, d); } else { MulMono(t / d + 1, x, d); }
    var u := (t + d - 1) / d;
    if u <= x { MulMono(u, x, d); } else { MulMono(x, u - 1, d); }
  }

  lemma MulMono(x: int, y: int, d: nat)
    requires x <= y
    ensures x * d <= y * d
  {}

  lemma Cancel(x: int, y: int, d: pos)
    ensures x * d <= y * d <==> x <= y
    ensures x * d < y * d <==> x < y
  {
    if x <= y { MulMono(x, y, d); } else { MulMono(y + 1, x, d); }
    if x < y { MulMono(x + 1, y, d); } else { MulMono(y, x, d); }
  }

  /** The two roundings are adjoint: each is characterised by one inequality without division. */
  lemma Adjoint(a: nat, n: nat, d: pos, x: int)
    ensures x <= MulDown(a, n, d) <==> x * d <= a * n
    ensures MulUp(a, n, d) <= x <==> a * n <= x * d
  {
    DivLeast(a * n, d, x);
  }

  lemma Bounds(a: nat, n: nat, d: pos)
    ensures MulDown(a, n, d) * d <= a * n < MulDown(a, n, d) * d + d
    ensures a * n <= MulUp(a, n, d) * d < a * n + d
  {
    DivBounds(a * n, d);
  }

  lemma Monotone(a: nat, b: nat, n: nat, d: pos)
    requires a <= b
    ensures MulDown(a, n, d) <= MulDown(b, n, d)
    ensures MulUp(a, n, d) <= MulUp(b, n, d)
  {
    Bounds(a, n, d);
    Bounds(b, n, d);
    MulMono(a, b, n);
    Adjoint(b, n, d, MulDown(a, n, d));
    Adjoint(a, n, d, MulUp(b, n, d));
  }

  /** Selling `a` for its rounded-down value and charging back only what that value is worth,
      rounded up, never charges more than `a`, buys the same value again, and leaves an amount
      that is worth nothing. */
  lemma RoundTrip(a: nat, n: pos, d: pos)
    ensures var r := MulDown(a, n, d);
            var c := MulUp(r, d, n);
            c <= a && MulDown(c, n, d) == r && (a - c) * n < d && r * d <= c * n < r * d + n
  {
    var r := MulDown(a, n, d);
    var c := MulUp(r, d, n);
    Bounds(a, n, d);
    Bounds(r, d, n);
    Adjoint(r, d, n, a);
    Adjoint(c, n, d, r);
    Monotone(c, a, n, d);
    assert (a - c) * n == a * n - c * n;
  }

  /** The same in the other direction: buying `a` costs its rounded-up value `u`, and `u` buys at
      least `a`; asking for all that `u` buys still costs `u`. */
  lemma RoundTripUp(a: nat, n: pos, d: pos)
    ensures var u := MulUp(a, n, d);
            var c := MulDown(u, d, n);
            a <= c && MulUp(c, n, d) == u
  {
    var u := MulUp(a, n, d);
    var c := MulDown(u, d, n);
    Bounds(a, n, d);
    Adjoint(u, d, n, a);
    Bounds(u, d, n);
    Adjoint(c, n, d, u);
    Monotone(a, c, n, d);
  }

  /** An amount worth nothing at the price of `q` is worth nothing to a seller who asks no more per
      unit than `q` does. */
  lemma DustAtWorse(a: nat, p: Price, q: Price)
    requires AtMost(q, p)
    requires ToQuote(a, q) == 0
    ensures ToQuote(a, p) == 0
  {
    Adjoint(a, q.quote, q.base, 1);
    Adjoint(a, p.quote, p.base, 1);
    if p.base <= a * p.quote {
      MulMono(p.base, a * p.quote, q.quote);
      assert a * p.quote * q.quote == a * q.quote * p.quote;
      MulMono(a * q.quote + 1, q.base, p.quote);
      assert false;
    }
  }
}
