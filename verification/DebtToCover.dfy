/** How much of a position a margin call may buy back (the target collateral ratio of BSIP38). */
module DebtToCover {
  import opened Common
  import opened Prices
  import opened LimitOrders

  const RATIO_DENOM: pos := 1000

  datatype CallOrder = CallOrder(id: nat, borrower: nat, collateral: nat, debt: nat, targetRatio: Option<pos>)

  // All prices below are in collateral / debt: `base` is collateral, `quote` is debt.

  predicate IsAbove(collateral: nat, debt: nat, p: Price) {
    p.base * debt < collateral * p.quote
  }

  /** A price multiplied by `ratio / RATIO_DENOM`, without the rounding the source applies when the
      result does not fit the share supply. */
  function Scaled(p: Price, ratio: pos): Price {
    Price(p.base * ratio, p.quote * RATIO_DENOM)
  }

  predicate SamePrice(p: Price, q: Price) { p.base * q.quote == q.base * p.quote }

  /** Paying `pay` for `cover` leaves a position whose ratio is strictly above `target`. */
  predicate IsGood(c: CallOrder, pay: int, cover: int, target: Price) {
    target.base * (c.debt - cover) < (c.collateral - pay) * target.quote
  }

  // The closed-form estimate is numerator / denominator.

  function Weight(feed: Price, at: Price, ratio: pos): pos
  {
    Positive2(feed.base, at.quote, ratio);
    feed.base * at.quote * ratio
  }

  function Numerator(c: CallOrder, feed: Price, at: Price, ratio: pos): int {
    Weight(feed, at, ratio) * c.debt - feed.quote * at.quote * c.collateral * RATIO_DENOM
  }

  function Denominator(feed: Price, at: Price, ratio: pos): int {
    Weight(feed, at, ratio) - feed.quote * at.base * RATIO_DENOM
  }

  /** The estimate after the fraction lost to rounding is added back. */
  function UpperEstimate(c: CallOrder, feed: Price, at: Price, ratio: pos): nat
    requires 0 < Denominator(feed, at, ratio) && 0 <= Numerator(c, feed, at, ratio)
  {
    (Numerator(c, feed, at, ratio) + Weight(feed, at, ratio)) / Denominator(feed, at, ratio) + 1
  }

  /** The debt covered when the collateral for the upper estimate is spent. */
  function UpperCover(c: CallOrder, feed: Price, at: Price, ratio: pos): nat
    requires 0 < Denominator(feed, at, ratio) && 0 <= Numerator(c, feed, at, ratio)
  {
    ToQuote(ToBaseUp(UpperEstimate(c, feed, at, ratio), at), at)
  }

  /** The debt covered when the collateral for the lower estimate is spent. */
  function LowerCover(low: nat, at: Price): nat { ToQuote(ToBase(low, at), at) }

  /** The upper estimate stays inside the position. */
  predicate EstimateFits(c: CallOrder, feed: Price, at: Price, ratio: pos) {
    && 0 < Denominator(feed, at, ratio)
    && 0 <= Numerator(c, feed, at, ratio)
    && Fits(c, UpperEstimate(c, feed, at, ratio), at)
  }

  predicate Fits(c: CallOrder, estimate: nat, at: Price) {
    estimate < c.debt && ToBaseUp(estimate, at) < c.collateral && ToQuote(ToBaseUp(estimate, at), at) < c.debt
  }

  lemma Positive2(x: pos, y: pos, z: pos)
    ensures 0 < x * y * z
  {
    Positive(x, y);
    Positive(x * y, z);
  }

  /** Covering the upper estimate always lifts the position above an exactly computed target. */
  lemma UpperEstimateIsGood(c: CallOrder, feed: Price, at: Price, ratio: pos, target: Price)
    requires 0 < Denominator(feed, at, ratio) && 0 <= Numerator(c, feed, at, ratio)
    requires SamePrice(target, Scaled(feed, ratio))
    ensures IsGood(c, ToBaseUp(UpperEstimate(c, feed, at, ratio), at), UpperCover(c, feed, at, ratio), target)
  {
    var tc := UpperEstimate(c, feed, at, ratio);
    var pay := ToBaseUp(tc, at);
    var cover := ToQuote(pay, at);
    var a, b := feed.quote * RATIO_DENOM, feed.base * ratio;
    Shape(c, feed, at, ratio);
    EstimateExceeds(c, feed, at, ratio);
    Bounds(tc, at.base, at.quote);
    Bounds(pay, at.quote, at.base);
    LinearEstimate(a, b, at.base, at.quote, c.collateral, c.debt, tc, pay, cover,
                   Denominator(feed, at, ratio), Numerator(c, feed, at, ratio));
    Retarget(a, b, c.debt - cover, c.collateral - pay, target);
  }

  lemma EstimateExceeds(c: CallOrder, feed: Price, at: Price, ratio: pos)
    requires 0 < Denominator(feed, at, ratio) && 0 <= Numerator(c, feed, at, ratio)
    ensures Numerator(c, feed, at, ratio) + Weight(feed, at, ratio)
         < UpperEstimate(c, feed, at, ratio) * Denominator(feed, at, ratio)
  {
    DivBounds(Numerator(c, feed, at, ratio) + Weight(feed, at, ratio), Denominator(feed, at, ratio));
  }

  lemma Shape(c: CallOrder, feed: Price, at: Price, ratio: pos)
    ensures var a, b := feed.quote * RATIO_DENOM, feed.base * ratio;
            && Weight(feed, at, ratio) == b * at.quote
            && Denominator(feed, at, ratio) == b * at.quote - a * at.base
            && Numerator(c, feed, at, ratio) == b * at.quote * c.debt - a * at.quote * c.collateral
  {
    Regroup(feed.base, at.quote, ratio);
    Regroup(feed.quote, at.base, RATIO_DENOM);
    RegroupCollateral(feed.quote, at.quote, c.collateral);
  }

  lemma RegroupCollateral(fq: int, mq: int, coll: int)
    ensures fq * mq * coll * RATIO_DENOM == fq * RATIO_DENOM * mq * coll
  {}

  lemma Retarget(a: pos, b: pos, right: int, left: int, target: Price)
    requires b * right < left * a
    requires target.base * a == b * target.quote
    ensures target.base * right < left * target.quote
  {
    Cancel(b * right, left * a, target.quote);
    Regroup(b, right, target.quote);
    Regroup(left, a, target.quote);
    Regroup(target.base, a, right);
    Cancel(target.base * right, left * target.quote, a);
  }

  lemma LinearEstimate(a: pos, b: pos, mb: pos, mq: pos, coll: nat, debt: nat,
                       tc: nat, pay: nat, cover: nat, den: pos, num: int)
    requires den == b * mq - a * mb
    requires num == b * mq * debt - a * mq * coll
    requires num + b * mq < tc * den
    requires tc * mb <= pay * mq
    requires pay * mq < cover * mb + mb
    ensures b * (debt - cover) < (coll - pay) * a
  {
    var x := b * cover + b - a * pay;
    var y := b * debt - a * coll + b;
    assert pay * den < mb * x by { SpendBound(a, b, mb, mq, pay, cover, den); }
    assert num + b * mq == y * mq by { Factor(a, b, mq, coll, debt); }
    assert y * mq < tc * den;
    ChainBounds(x, y, mb, mq, tc, pay, den);
    assert b * (debt - cover) == b * debt - b * cover;
    assert (coll - pay) * a == coll * a - pay * a;
  }

  lemma SpendBound(a: pos, b: pos, mb: pos, mq: pos, pay: nat, cover: nat, den: pos)
    requires den == b * mq - a * mb
    requires pay * mq < cover * mb + mb
    ensures pay * den < mb * (b * cover + b - a * pay)
  {
    Cancel(pay * mq, cover * mb + mb, b);
    Expand1(a, b, mb, mq, pay);
    Expand2(a, b, mb, pay, cover);
  }

  lemma Expand1(a: int, b: int, mb: int, mq: int, pay: int)
    ensures pay * (b * mq - a * mb) == pay * mq * b - a * pay * mb
  {}

  lemma Expand2(a: int, b: int, mb: int, pay: int, cover: int)
    ensures mb * (b * cover + b - a * pay) == (cover * mb + mb) * b - a * pay * mb
  {}

  lemma Factor(a: int, b: int, mq: int, coll: int, debt: int)
    ensures b * mq * debt - a * mq * coll + b * mq == (b * debt - a * coll + b) * mq
  {}

  lemma ChainBounds(x: int, y: int, mb: pos, mq: pos, tc: nat, pay: nat, den: pos)
    requires pay * den < mb * x
    requires y * mq < tc * den
    requires tc * mb <= pay * mq
    ensures y < x
  {
    Cancel(y * mq, tc * den, mb);
    MulMono(tc * mb, pay * mq, den);
    Cancel(pay * den, mb * x, mq);
    Regroup(tc, mb, den);
    Regroup(pay, mq, den);
    Regroup(y, mq, mb);
    Regroup(x, mb, mq);
    assert y * mq * mb < x * mb * mq;
    assert y * mb * mq < x * mb * mq;
    Positive(mb, mq);
    Cancel(y * mb, x * mb, mq);
    Cancel(y, x, mb);
  }

  /** A position at or below maintenance is at or below every higher target. */
  lemma BelowMaintenance(c: CallOrder, feed: Price, at: Price, mcr: pos, ratio: pos, maintenance: Price, target: Price)
    requires mcr <= ratio
    requires SamePrice(maintenance, Scaled(feed, mcr))
    requires SamePrice(target, Scaled(feed, ratio))
    requires !IsAbove(c.collateral, c.debt, maintenance)
    ensures !IsAbove(c.collateral, c.debt, target)
    ensures 0 <= Numerator(c, feed, at, ratio)
  {
    var a := feed.quote * RATIO_DENOM;
    CompareSame(c.collateral, c.debt, maintenance, Scaled(feed, mcr));
    MulMono(mcr, ratio, feed.base);
    MulMono(feed.base * mcr, feed.base * ratio, c.debt);
    CompareSame(c.collateral, c.debt, target, Scaled(feed, ratio));
    MulMono(c.collateral * a, feed.base * ratio * c.debt, at.quote);
    assert feed.quote * at.quote * c.collateral * RATIO_DENOM == c.collateral * a * at.quote;
    assert Weight(feed, at, ratio) * c.debt == feed.base * ratio * c.debt * at.quote
      by { assert feed.base * at.quote * ratio * c.debt == feed.base * ratio * c.debt * at.quote; }
  }

  lemma CompareSame(collateral: nat, debt: nat, p: Price, q: Price)
    requires SamePrice(p, q)
    ensures IsAbove(collateral, debt, p) <==> IsAbove(collateral, debt, q)
  {
    Cancel(p.base * debt, collateral * p.quote, q.quote);
    Cancel(q.base * debt, collateral * q.quote, p.quote);
    Regroup(p.base, debt, q.quote);
    Regroup(q.base, debt, p.quote);
    Regroup(collateral, p.quote, q.quote);
  }

  /** `pay` is what `cover` costs rounded up, and `cover` is all that `pay` buys. */
  predicate Stable(pay: nat, cover: nat, at: Price) {
    pay == ToBaseUp(cover, at) && cover == ToQuote(pay, at)
  }

  lemma StabilizeDown(pay: nat, at: Price)
    ensures var cover := ToQuote(pay, at);
            ToBaseUp(cover, at) <= pay && Stable(ToBaseUp(cover, at), cover, at)
  {
    RoundTrip(pay, at.quote, at.base);
  }

  lemma StabilizeUp(cover: nat, at: Price)
    ensures var pay := ToBaseUp(cover, at);
            cover <= ToQuote(pay, at) && Stable(pay, ToQuote(pay, at), at)
  {
    RoundTripUp(cover, at.base, at.quote);
  }

  /** The result the search may return: all of the debt, or a part of it whose rounded-up cost leaves
      the position with less debt, some collateral and a ratio strictly above the target. */
  predicate IsResult(c: CallOrder, r: nat, at: Price, target: Price) {
    || r == c.debt
    || (0 < r < c.debt && ToBaseUp(r, at) < c.collateral && IsGood(c, ToBaseUp(r, at), r, target))
  }

  predicate IsCandidate(c: CallOrder, pay: nat, cover: nat, at: Price) {
    || (pay == c.collateral && cover == c.debt)
    || (pay < c.collateral && cover < c.debt && Stable(pay, cover, at))
  }

  /** One step less, counted in the asset with the finer step, is not good: the search stopped at
      neighbours. */
  predicate OneLessIsBad(c: CallOrder, pay: nat, cover: nat, at: Price, target: Price)
    requires 0 < pay && 0 < cover
  {
    if at.base < at.quote then !IsGood(c, pay - 1, ToQuote(pay - 1, at), target)
    else !IsGood(c, ToBaseUp(cover - 1, at), cover - 1, target)
  }

  /** The mean of a pair and the whole position is no step up from the pair, or leaves the position. */
  predicate MeanDoesNotFit(c: CallOrder, pay: nat, cover: nat, at: Price) {
    if at.base < at.quote then
      var mean := (pay + c.collateral + 1) / 2;
      mean == c.collateral || ToQuote(mean, at) >= c.debt
    else
      var mean := (cover + c.debt) / 2;
      mean == cover || ToBaseUp(mean, at) >= c.collateral
  }

  /** Why the search falls back on the whole position: the best pair known is too small, and half way
      up from it is out of the position. */
  predicate GaveUpAt(c: CallOrder, pay: nat, cover: nat, at: Price, target: Price) {
    && pay < c.collateral && cover < c.debt && Stable(pay, cover, at)
    && !IsGood(c, pay, cover, target)
    && MeanDoesNotFit(c, pay, cover, at)
  }

  ghost predicate GaveUp(c: CallOrder, at: Price, target: Price) {
    exists pay: nat, cover: nat :: GaveUpAt(c, pay, cover, at, target)
  }

  /** No part of the debt that the position can pay for is good. */
  ghost predicate NoPartIsGood(c: CallOrder, at: Price, target: Price) {
    forall x: nat :: 0 < x < c.debt && ToBaseUp(x, at) < c.collateral ==> !IsGood(c, ToBaseUp(x, at), x, target)
  }

  /** The computation takes all of the debt without testing a single pair above the lower estimate. */
  predicate EndsAtOnce(c: CallOrder, feed: Price, at: Price, ratio: pos) {
    && 0 <= Numerator(c, feed, at, ratio)
    && (0 < Denominator(feed, at, ratio) ==>
          var low := Numerator(c, feed, at, ratio) / Denominator(feed, at, ratio);
          StopsAt(c, low, UpperEstimate(c, feed, at, ratio), at))
  }

  predicate StopsAt(c: CallOrder, low: nat, high: nat, at: Price) {
    var cover := LowerCover(low, at);
    || low >= c.debt
    || ToBaseUp(cover, at) >= c.collateral
    || (!Fits(c, high, at) && MeanDoesNotFit(c, ToBaseUp(cover, at), cover, at))
  }

  /** What the computation answers for an exactly computed target.  A part of the debt is good, one step
      less is not, and it is above the closed form; all of the debt is the answer only when no part is
      good or the search gave up. */
  ghost predicate IsBest(c: CallOrder, r: nat, at: Price, feed: Price, ratio: pos, target: Price) {
    && 0 < r <= c.debt
    && (r < c.debt ==>
          && 0 < ToBaseUp(r, at) < c.collateral
          && IsGood(c, ToBaseUp(r, at), r, target)
          && OneLessIsBad(c, ToBaseUp(r, at), r, at, target)
          && Numerator(c, feed, at, ratio) < r * Denominator(feed, at, ratio))
    && (r == c.debt ==> NoPartIsGood(c, at, target) || GaveUp(c, at, target))
    && (EndsAtOnce(c, feed, at, ratio) ==> r == c.debt)
    && (EstimateFits(c, feed, at, ratio) ==> r <= UpperCover(c, feed, at, ratio))
  }

  /** Where collateral has the finer step, every payment is stable and one more buys more. */
  lemma PaymentIsStable(pay: nat, at: Price)
    requires at.base < at.quote
    ensures Stable(pay, ToQuote(pay, at), at)
    ensures ToQuote(pay, at) < ToQuote(pay + 1, at)
  {
    hide ToQuote, ToBaseUp, MulDown, MulUp;
    var cover := ToQuote(pay, at);
    StabilizeDown(pay, at);
    PaymentBounds(pay, at);
    Distribute(pay, 1, at.quote);
    BaseUpAdjoint(cover, at, pay - 1);
    assert (pay + 1) * at.quote == pay * at.quote + at.quote;
    assert (cover + 1) * at.base == cover * at.base + at.base;
    QuoteAdjoint(pay + 1, at, cover + 1);
  }

  lemma PaymentBounds(pay: nat, at: Price)
    ensures ToQuote(pay, at) * at.base <= pay * at.quote < ToQuote(pay, at) * at.base + at.base
  {
    Bounds(pay, at.quote, at.base);
  }

  lemma BaseUpAdjoint(cover: nat, at: Price, pay: int)
    ensures ToBaseUp(cover, at) <= pay <==> cover * at.base <= pay * at.quote
  {
    Adjoint(cover, at.base, at.quote, pay);
  }

  lemma QuoteAdjoint(pay: nat, at: Price, cover: int)
    ensures cover <= ToQuote(pay, at) <==> cover * at.base <= pay * at.quote
  {
    Adjoint(pay, at.quote, at.base, cover);
  }

  /** Where debt has the finer step, every amount is stable and one more costs more. */
  lemma AmountIsStable(cover: nat, at: Price)
    requires at.base >= at.quote
    ensures Stable(ToBaseUp(cover, at), cover, at)
    ensures ToBaseUp(cover, at) < ToBaseUp(cover + 1, at)
  {
    hide ToQuote, ToBaseUp, MulDown, MulUp;
    var pay := ToBaseUp(cover, at);
    StabilizeUp(cover, at);
    AmountBounds(cover, at);
    assert (cover + 1) * at.base == cover * at.base + at.base;
    QuoteAdjoint(pay, at, cover + 1);
    BaseUpAdjoint(cover + 1, at, pay);
  }

  lemma AmountBounds(cover: nat, at: Price)
    ensures cover * at.base <= ToBaseUp(cover, at) * at.quote < cover * at.base + at.quote
  {
    Bounds(cover, at.base, at.quote);
  }

  /** In the asset with the finer step, more is more in the other asset too. */
  lemma FinerStepIsStrict(low: nat, high: nat, at: Price)
    requires low < high
    ensures at.base < at.quote ==> ToQuote(low, at) < ToQuote(high, at)
    ensures at.base >= at.quote ==> ToBaseUp(low, at) < ToBaseUp(high, at)
  {
    if at.base < at.quote {
      PaymentIsStable(low, at);
      Monotone(low + 1, high, at.quote, at.base);
    } else {
      AmountIsStable(low, at);
      Monotone(low + 1, high, at.base, at.quote);
    }
  }

  /** The pair half way between two, or the larger one when there is none: the two are neighbours in the
      asset with the finer step, or the larger one is the whole position and the mean does not fit. */
  method Mean(c: CallOrder, at: Price, minPay: nat, minCover: nat, maxPay: nat, maxCover: nat)
    returns (pay: nat, cover: nat)
    requires Stable(minPay, minCover, at) && IsCandidate(c, maxPay, maxCover, at)
    requires minPay < maxPay <= c.collateral && minCover < maxCover <= c.debt
    ensures pay < maxPay ==> minPay < pay && minCover < cover < maxCover && Stable(pay, cover, at)
    ensures pay >= maxPay ==> pay == maxPay && cover == maxCover
    ensures maxPay == c.collateral ==> (pay == maxPay <==> MeanDoesNotFit(c, minPay, minCover, at))
    ensures pay == maxPay < c.collateral ==> if at.base < at.quote then minPay + 1 == pay else minCover + 1 == cover
  {
    if at.base < at.quote {          // the step of collateral is smaller
      pay := (minPay + maxPay + 1) / 2;
      if pay == maxPay {
        cover := maxCover;
      } else {
        PaymentIsStable(pay, at);
        FinerStepIsStrict(minPay, pay, at);
        FinerStepIsStrict(pay, maxPay, at);
        cover := ToQuote(pay, at);
        if cover >= maxCover {
          pay, cover := maxPay, maxCover;
        } else {
          pay := ToBaseUp(cover, at);
        }
      }
    } else {                         // the step of debt is smaller or equal
      cover := (minCover + maxCover) / 2;
      AmountIsStable(cover, at);
      if cover == maxCover {
        pay := maxPay;
      } else {
        pay := ToBaseUp(cover, at);
        FinerStepIsStrict(cover, maxCover, at);
        if minCover < cover { FinerStepIsStrict(minCover, cover, at); }
        if pay >= maxPay {
          pay, cover := maxPay, maxCover;
        } else {
          cover := ToQuote(pay, at);
          if cover >= maxCover {
            pay, cover := maxPay, maxCover;
          }
        }
      }
    }
    // not away from the minimum: use the maximum
    if pay <= minPay || cover <= minCover || pay > maxPay || cover > maxCover {
      pay, cover := maxPay, maxCover;
    }
  }

  /** The rounding-aware binary search between a pair that is too small and one that is larger.
      What it finds is one step above a pair that is too small; it falls back on the whole position only
      when it gave up; and when it does not find a pair, the larger one it was given is too small too. */
  method BinarySearch(c: CallOrder, at: Price, target: Price,
                      minPay0: nat, minCover0: nat, maxPay0: nat, maxCover0: nat)
    returns (found: bool, pay: nat, cover: nat)
    requires Stable(minPay0, minCover0, at) && IsCandidate(c, maxPay0, maxCover0, at)
    requires minPay0 < maxPay0 <= c.collateral && minCover0 < maxCover0
    requires !IsGood(c, minPay0, minCover0, target)
    ensures minCover0 < cover <= maxCover0 && minPay0 < pay
    ensures IsCandidate(c, pay, cover, at)
    ensures found && pay < c.collateral ==> IsGood(c, pay, cover, target) && OneLessIsBad(c, pay, cover, at, target)
    ensures found && pay >= c.collateral ==> GaveUp(c, at, target)
    ensures maxPay0 == c.collateral && MeanDoesNotFit(c, minPay0, minCover0, at) ==> found && pay == c.collateral
    ensures !found ==> pay == maxPay0 < c.collateral && cover == maxCover0 && !IsGood(c, pay, cover, target)
  {
    hide IsGood, MeanDoesNotFit;
    var minPay: nat, minCover: nat, maxPay: nat, maxCover: nat := minPay0, minCover0, maxPay0, maxCover0;
    var maxIsOk := false;
    while true
      invariant Stable(minPay, minCover, at) && IsCandidate(c, maxPay, maxCover, at)
      invariant minPay0 <= minPay < maxPay <= maxPay0
      invariant minCover0 <= minCover < maxCover <= maxCover0
      invariant !IsGood(c, minPay, minCover, target)
      invariant if maxIsOk then maxPay < c.collateral && IsGood(c, maxPay, maxCover, target)
                else maxPay == maxPay0 && maxCover == maxCover0
      invariant maxPay0 == c.collateral && MeanDoesNotFit(c, minPay0, minCover0, at) ==>
                  !maxIsOk && minPay == minPay0 && minCover == minCover0
      decreases maxPay - minPay
    {
      pay, cover := Mean(c, at, minPay, minCover, maxPay, maxCover);
      if pay == maxPay && (maxIsOk || pay == c.collateral) {
        if pay == c.collateral { assert GaveUpAt(c, minPay, minCover, at, target); }
        return true, pay, cover;
      }
      assert pay < c.collateral && cover < c.debt;
      if IsGood(c, pay, cover, target) {
        if pay == maxPay {
          return true, pay, cover;
        }
        maxPay, maxCover, maxIsOk := pay, cover, true;
      } else {
        if pay == maxPay {
          return false, pay, cover;
        }
        minPay, minCover := pay, cover;
      }
    }
  }

  /** The forward search by Fibonacci steps from a pair that is too small.  The steps grow, so they
      leave the position if nothing good is met before. */
  method ForwardSearch(c: CallOrder, at: Price, target: Price, pay0: nat, cover0: nat) returns (r: nat)
    requires Stable(pay0, cover0, at) && pay0 < c.collateral && 0 < cover0 < c.debt
    ensures IsResult(c, r, at, target)
  {
    var pay: nat, cover: nat := pay0, cover0;
    var d1, d2, d3 := 0, 1, 1;
    while true
      invariant Stable(pay, cover, at) && pay < c.collateral && cover0 <= cover < c.debt
      invariant 0 <= d1 <= d2 && 0 < d2 && d3 == d1 + d2
      decreases 2 * c.collateral + 2 * c.debt - d1 - d2
    {
      if at.base > at.quote {          // the step of debt is smaller
        Monotone(pay, pay + d2, at.quote, at.base);
        pay := pay + d2;
        if pay >= c.collateral { return c.debt; }
        StabilizeDown(pay, at);
        cover := ToQuote(pay, at);
        if cover >= c.debt { return c.debt; }
        pay := ToBaseUp(cover, at);
        if pay >= c.collateral { return c.debt; }
      } else {                         // the step of collateral is smaller or equal
        cover := cover + d2;
        if cover >= c.debt { return c.debt; }
        StabilizeUp(cover, at);
        pay := ToBaseUp(cover, at);
        if pay >= c.collateral { return c.debt; }
        cover := ToQuote(pay, at);
        if cover >= c.debt { return c.debt; }
      }
      assert pay < c.collateral && cover < c.debt;
      if IsGood(c, pay, cover, target) { return cover; }
      d1, d2, d3 := d2, d3, d2 + d3;
    }
  }

  lemma NotGoodAtZero(c: CallOrder, cover: nat, at: Price, target: Price)
    requires !IsAbove(c.collateral, c.debt, target)
    requires IsGood(c, ToBaseUp(cover, at), cover, target)
    ensures 0 < cover
  {
    if cover == 0 {
      Bounds(0, at.base, at.quote);
      Adjoint(0, at.base, at.quote, 0);
    }
  }

  /** The upper pair is larger than the stabilised lower one, so the "strange data" return of the
      source is never taken. */
  lemma UpperPairIsLarger(pay: nat, cover: nat, estimate: nat, at: Price)
    requires Stable(pay, cover, at) && cover < estimate
    ensures pay < ToBaseUp(estimate, at)
    ensures cover < ToQuote(ToBaseUp(estimate, at), at)
  {
    StabilizeUp(estimate, at);
    Monotone(cover, estimate, at.base, at.quote);
  }

  /** With an exactly computed target a position is above it exactly when the numerator is negative. */
  lemma NumeratorSign(c: CallOrder, feed: Price, at: Price, ratio: pos, target: Price)
    requires SamePrice(target, Scaled(feed, ratio))
    ensures Numerator(c, feed, at, ratio) < 0 <==> IsAbove(c.collateral, c.debt, target)
  {
    var a, b := feed.quote * RATIO_DENOM, feed.base * ratio;
    Shape(c, feed, at, ratio);
    CompareSame(c.collateral, c.debt, target, Scaled(feed, ratio));
    Cancel(b * c.debt, c.collateral * a, at.quote);
    Regroup(b, c.debt, at.quote);
    assert c.collateral * a * at.quote == a * at.quote * c.collateral;
  }

  /** Nothing at or below the closed form is good: whatever is good and costs at least its price lies
      strictly above it. */
  lemma GoodExceeds(c: CallOrder, feed: Price, at: Price, ratio: pos, target: Price, pay: nat, x: nat)
    requires SamePrice(target, Scaled(feed, ratio))
    requires x * at.base <= pay * at.quote && IsGood(c, pay, x, target)
    ensures Numerator(c, feed, at, ratio) < x * Denominator(feed, at, ratio)
  {
    var a, b := feed.quote * RATIO_DENOM, feed.base * ratio;
    Shape(c, feed, at, ratio);
    Retarget(target.quote, target.base, c.debt - x, c.collateral - pay, Scaled(feed, ratio));
    LinearExceeds(a, b, at.base, at.quote, c.collateral, c.debt, pay, x);
  }

  lemma LinearExceeds(a: pos, b: pos, mb: pos, mq: pos, coll: nat, debt: nat, pay: nat, x: nat)
    requires x * mb <= pay * mq
    requires b * (debt - x) < (coll - pay) * a
    ensures b * mq * debt - a * mq * coll < x * (b * mq - a * mb)
  {
    Cancel(b * (debt - x), (coll - pay) * a, mq);
    MulMono(x * mb, pay * mq, a);
    ExpandLeft(b, mq, debt, x);
    ExpandLeft(a, mq, coll, pay);
    assert (coll - pay) * a == a * (coll - pay);
    Expand1(a, b, mb, mq, x);
    Rotate(a, x, mb);
    Rotate(a, pay, mq);
    Regroup(a, pay, mq);
    Rotate(b, x, mq);
    Regroup(b, x, mq);
  }

  lemma Rotate(x: int, y: int, z: int)
    ensures x * y * z == y * z * x
  {}

  lemma ExpandLeft(b: int, mq: int, debt: int, x: int)
    ensures b * (debt - x) * mq == b * mq * debt - b * mq * x
  {}

  /** A part of the debt at or below the closed form is not good. */
  lemma LowIsBad(c: CallOrder, feed: Price, at: Price, ratio: pos, target: Price, x: nat)
    requires SamePrice(target, Scaled(feed, ratio))
    requires x * Denominator(feed, at, ratio) <= Numerator(c, feed, at, ratio)
    ensures !IsGood(c, ToBaseUp(x, at), x, target)
  {
    hide IsGood, SamePrice, Numerator, Denominator;
    AmountBounds(x, at);
    if IsGood(c, ToBaseUp(x, at), x, target) {
      GoodExceeds(c, feed, at, ratio, target, ToBaseUp(x, at), x);
    }
  }

  /** When the closed form has no positive denominator, or its lower estimate or the cost of it leaves the
      position, no part of the debt is good. */
  lemma WhyNoPart(c: CallOrder, feed: Price, at: Price, ratio: pos, target: Price)
    requires SamePrice(target, Scaled(feed, ratio)) && 0 <= Numerator(c, feed, at, ratio)
    requires 0 < Denominator(feed, at, ratio) ==>
               var low := Numerator(c, feed, at, ratio) / Denominator(feed, at, ratio);
               low >= c.debt || ToBaseUp(LowerCover(low, at), at) >= c.collateral
    ensures NoPartIsGood(c, at, target)
  {
    hide IsGood, SamePrice, Numerator, Denominator, ToBaseUp, ToQuote, ToBase;
    var n, d := Numerator(c, feed, at, ratio), Denominator(feed, at, ratio);
    forall x: nat | 0 < x < c.debt && ToBaseUp(x, at) < c.collateral
      ensures !IsGood(c, ToBaseUp(x, at), x, target)
    {
      if d > 0 {
        DivLeast(n, d, x);
        LowerPairIsBelow(LowerCover(n / d, at), ToBase(n / d, at), n / d, at);
        if n / d < x { BaseUpMono(LowerCover(n / d, at), x, at); }
      } else {
        MulMono(d, 0, x);
      }
      LowIsBad(c, feed, at, ratio, target, x);
    }
  }

  lemma BaseUpMono(x: nat, y: nat, at: Price)
    requires x <= y
    ensures ToBaseUp(x, at) <= ToBaseUp(y, at)
  {
    Monotone(x, y, at.base, at.quote);
  }

  /** The lower estimate, stabilised, is never good for an exactly computed target. */
  lemma LowerPairIsBad(c: CallOrder, feed: Price, at: Price, ratio: pos, target: Price)
    requires SamePrice(target, Scaled(feed, ratio))
    requires 0 <= Numerator(c, feed, at, ratio) && 0 < Denominator(feed, at, ratio)
    ensures var cover := LowerCover(Numerator(c, feed, at, ratio) / Denominator(feed, at, ratio), at);
            !IsGood(c, ToBaseUp(cover, at), cover, target)
  {
    hide IsGood, SamePrice, Numerator, Denominator, ToBaseUp, ToQuote, ToBase;
    var n, d := Numerator(c, feed, at, ratio), Denominator(feed, at, ratio);
    var cover := LowerCover(n / d, at);
    LowerPairIsBelow(cover, ToBase(n / d, at), n / d, at);
    DivLeast(n, d, cover);
    LowIsBad(c, feed, at, ratio, target, cover);
  }

  /** `get_max_debt_to_cover`.  `target` is the feed price scaled by the target ratio, which the source
      may round; `forward` tells whether the forward search was entered. */
  method MaxDebtToCover(c: CallOrder, at: Price, feed: Price, mcr: pos, maintenance: Price, target: Price)
    returns (r: nat, forward: bool)
    requires 0 < c.debt && 0 < c.collateral
    ensures IsAbove(c.collateral, c.debt, maintenance) ==> r == 0
    ensures !IsAbove(c.collateral, c.debt, maintenance) && c.targetRatio.None? ==> r == c.debt
    ensures !IsAbove(c.collateral, c.debt, maintenance) && c.targetRatio.Some? ==>
              var ratio := Ratio(c, mcr);
              && (0 <= Numerator(c, feed, at, ratio) && !IsAbove(c.collateral, c.debt, target) ==>
                    0 < r <= c.debt && IsResult(c, r, at, target))
              && (SamePrice(target, Scaled(feed, ratio)) ==>
                    && !forward
                    && if IsAbove(c.collateral, c.debt, target) then r == 0
                       else IsBest(c, r, at, feed, ratio, target))
  {
    forward := false;
    if IsAbove(c.collateral, c.debt, maintenance) { return 0, false; }
    if c.targetRatio.None? { return c.debt, false; }
    var ratio := Ratio(c, mcr);
    var numerator := Numerator(c, feed, at, ratio);
    if SamePrice(target, Scaled(feed, ratio)) { NumeratorSign(c, feed, at, ratio, target); }
    if numerator < 0 { return 0, false; }
    var denominator := Denominator(feed, at, ratio);
    if denominator <= 0 {
      if SamePrice(target, Scaled(feed, ratio)) { WhyNoPart(c, feed, at, ratio, target); }
      return c.debt, false;
    }
    EstimatesAreOrdered(numerator, Weight(feed, at, ratio), denominator);
    if SamePrice(target, Scaled(feed, ratio)) {
      UpperEstimateIsGood(c, feed, at, ratio, target);
      LowerPairIsBad(c, feed, at, ratio, target);
    }
    r, forward := SearchBetween(c, at, target, numerator / denominator,
                                (numerator + Weight(feed, at, ratio)) / denominator + 1);
    if SamePrice(target, Scaled(feed, ratio)) && !IsAbove(c.collateral, c.debt, target) {
      SearchIsBest(c, r, at, feed, ratio, target);
    }
  }

  lemma EstimatesAreOrdered(n: nat, w: pos, d: pos)
    ensures n / d < (n + w) / d + 1
  {
    DivLeast(n + w, d, n / d);
    DivBounds(n, d);
  }

  /** How the search ends when it does not go beyond the upper estimate and the lower one is not good. */
  ghost predicate FoundFrom(c: CallOrder, r: nat, low: nat, high: nat, at: Price, target: Price)
    requires 0 < r
  {
    && (StopsAt(c, low, high, at) ==> r == c.debt)
    && if r < c.debt then
         && 0 < ToBaseUp(r, at) < c.collateral
         && IsGood(c, ToBaseUp(r, at), r, target)
         && OneLessIsBad(c, ToBaseUp(r, at), r, at, target)
       else
         || low >= c.debt
         || ToBaseUp(LowerCover(low, at), at) >= c.collateral
         || GaveUp(c, at, target)
  }

  lemma SearchIsBest(c: CallOrder, r: nat, at: Price, feed: Price, ratio: pos, target: Price)
    requires SamePrice(target, Scaled(feed, ratio)) && 0 < r <= c.debt
    requires 0 <= Numerator(c, feed, at, ratio) && 0 < Denominator(feed, at, ratio)
    requires FoundFrom(c, r, Numerator(c, feed, at, ratio) / Denominator(feed, at, ratio),
                       UpperEstimate(c, feed, at, ratio), at, target)
    requires EstimateFits(c, feed, at, ratio) ==> r <= UpperCover(c, feed, at, ratio)
    ensures IsBest(c, r, at, feed, ratio, target)
  {
    hide IsGood, SamePrice, Numerator, Denominator, ToBaseUp, ToQuote, ToBase, OneLessIsBad, MeanDoesNotFit;
    if r < c.debt {
      AmountBounds(r, at);
      GoodExceeds(c, feed, at, ratio, target, ToBaseUp(r, at), r);
    } else if !GaveUp(c, at, target) {
      WhyNoPart(c, feed, at, ratio, target);
    }
  }

  /** The search may take all of the debt although a part of it is good.  A position of 114 for 100 called at
      0.99 with a target of 9.801 is closed, although buying back 99 leaves 15 for 1. */
  lemma GivesUpEarly(c: CallOrder, at: Price, feed: Price, target: Price)
    requires c.collateral == 114 && c.debt == 100 && at == Price(99, 100) && feed == Price(9, 10)
    requires target == Price(9801, 1000)
    ensures SamePrice(target, Scaled(feed, 10890))
    ensures EndsAtOnce(c, feed, at, 10890) && GaveUpAt(c, 97, 97, at, target)
    ensures ToBaseUp(99, at) < c.collateral && IsGood(c, ToBaseUp(99, at), 99, target)
  {
    hide ToBaseUp, ToQuote, ToBase, Weight, Numerator, Denominator, MulUp, MulDown;
    BaseUpIs(97, at, 97);
    BaseUpIs(99, at, 99);
    QuoteIs(97, at, 97);
    QuoteIs(106, at, 107);
    BaseIs(98, at, 97);
    EarlyEstimates(c, feed, at);
    assert (866100000 + 9801000) / 8811000 + 1 == 100 && 866100000 / 8811000 == 98;
  }

  lemma BaseUpIs(a: nat, at: Price, x: nat)
    requires a * at.base <= x * at.quote < a * at.base + at.quote
    ensures ToBaseUp(a, at) == x
  {
    Adjoint(a, at.base, at.quote, x);
    Adjoint(a, at.base, at.quote, x - 1);
  }

  lemma QuoteIs(a: nat, at: Price, x: nat)
    requires x * at.base <= a * at.quote < x * at.base + at.base
    ensures ToQuote(a, at) == x
  {
    Adjoint(a, at.quote, at.base, x);
    Adjoint(a, at.quote, at.base, x + 1);
  }

  lemma BaseIs(a: nat, at: Price, x: nat)
    requires x * at.quote <= a * at.base < x * at.quote + at.quote
    ensures ToBase(a, at) == x
  {
    Adjoint(a, at.base, at.quote, x);
    Adjoint(a, at.base, at.quote, x + 1);
  }

  lemma EarlyEstimates(c: CallOrder, feed: Price, at: Price)
    requires c.collateral == 114 && c.debt == 100 && at == Price(99, 100) && feed == Price(9, 10)
    ensures Weight(feed, at, 10890) == 9801000
    ensures Numerator(c, feed, at, 10890) == 866100000
    ensures Denominator(feed, at, 10890) == 8811000
  {}

  /** The part of the computation that follows the closed form: try the lower estimate, then search up
      to the upper one, then beyond it. */
  method SearchBetween(c: CallOrder, at: Price, target: Price, low: nat, high: nat)
    returns (r: nat, forward: bool)
    requires 0 < c.debt && 0 < c.collateral && low < high
    ensures !IsAbove(c.collateral, c.debt, target) ==> 0 < r <= c.debt && IsResult(c, r, at, target)
    ensures var cover := LowerCover(low, at);
            !forward && 0 < r && !IsGood(c, ToBaseUp(cover, at), cover, target) ==>
              FoundFrom(c, r, low, high, at, target)
    ensures var pay := ToBaseUp(high, at);
            (Fits(c, high, at) ==> IsGood(c, pay, ToQuote(pay, at), target)) ==>
              !forward && (Fits(c, high, at) ==> r <= ToQuote(pay, at))
  {
    if low >= c.debt { return c.debt, false; }
    var pay: nat := ToBase(low, at);
    StabilizeDown(pay, at);
    var cover: nat := ToQuote(pay, at);
    LowerPairIsBelow(cover, pay, low, at);
    UpperPairIsLarger(ToBaseUp(cover, at), cover, high, at);
    pay := ToBaseUp(cover, at);
    if cover >= c.debt || pay >= c.collateral { return c.debt, false; }
    if IsGood(c, pay, cover, target) {
      if !IsAbove(c.collateral, c.debt, target) { NotGoodAtZero(c, cover, at, target); }
      return cover, false;
    }

    var estimate := if high >= c.debt then c.debt else high;
    var maxPay: nat := if estimate == c.debt then c.collateral else ToBaseUp(estimate, at);
    if maxPay > c.collateral { maxPay := c.collateral; }
    var maxCover: nat := if maxPay == c.collateral then c.debt else ToQuote(maxPay, at);
    if maxCover >= c.debt { maxPay, maxCover := c.collateral, c.debt; }
    StabilizeUp(high, at);
    assert maxPay > pay && maxCover > cover;

    var found;
    found, pay, cover := BinarySearch(c, at, target, pay, cover, maxPay, maxCover);
    if found {
      return cover, false;
    }
    forward := true;
    r := ForwardSearch(c, at, target, pay, cover);
  }

  lemma LowerPairIsBelow(cover: nat, pay: nat, low: nat, at: Price)
    requires pay == ToBase(low, at) && cover == ToQuote(pay, at)
    ensures cover <= low
  {
    Bounds(low, at.base, at.quote);
    Bounds(pay, at.quote, at.base);
    Cancel(cover, low, at.base);
  }

  function Ratio(c: CallOrder, mcr: pos): pos
    requires c.targetRatio.Some?
  {
    if c.targetRatio.value < mcr then mcr else c.targetRatio.value
  }
}
