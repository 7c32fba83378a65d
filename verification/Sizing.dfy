/** Position sizing (src/risk/sizing.hpp): quarter Kelly under two caps, and the hedge quantity. */
module Sizing {
  import opened Amounts
  import opened RealMath

  const KELLY_FRACTION := 0.25
  const MAX_TRADE: Amount := 200_000_000
  const MAX_TOTAL_EXPOSURE: Amount := 400_000_000
  const MAX_HEDGE_FRACTION := 0.05

  function Min(x: real, y: real): real { if y < x then y else x }

  function Max(x: real, y: real): real { if x < y then y else x }

  function Odds(pMarket: real): real {
    (1.0 - pMarket) / Max(pMarket, 0.000000001)
  }

  // The uncapped stake; the market probability lies below one, so the odds are positive.
  function KellyStake(pTrue: real, pMarket: real, bankroll: Amount): real
    requires pMarket < 1.0
  {
    OddsPositive(pMarket);
    (pTrue - pMarket) / Odds(pMarket) * KELLY_FRACTION * ToDouble(bankroll)
  }

  lemma OddsPositive(pMarket: real)
    requires pMarket < 1.0
    ensures Odds(pMarket) > 0.0
  {
    QuotientPositive(1.0 - pMarket, Max(pMarket, 0.000000001), Odds(pMarket));
  }

  lemma QuotientPositive(x: real, y: real, q: real)
    requires x > 0.0 && y > 0.0 && q == x / y
    ensures q > 0.0
  {
    assert x == q * y;
    if q < 0.0 {
      PositiveProduct(-q, y, -x);
      assert false;
    }
  }

  function KellySize(pTrue: real, pMarket: real, bankroll: Amount, exposure: Amount): Amount
    requires pMarket < 1.0
  {
    if pTrue - pMarket <= 0.0 then 0
    else
      var room := AbsAmount(MAX_TOTAL_EXPOSURE - exposure);
      if exposure >= MAX_TOTAL_EXPOSURE then 0
      else FromDouble(Clamp(KellyStake(pTrue, pMarket, bankroll), 0.0, Min(ToDouble(MAX_TRADE), ToDouble(room))))
  }

  function HedgeQty(notional: Amount, btcPrice: real, bankroll: Amount): real {
    if btcPrice <= 0.0 || notional == 0 then 0.0
    else Min(ToDouble(notional), MAX_HEDGE_FRACTION * ToDouble(bankroll)) / btcPrice
  }

  // The rounded size never exceeds the trade cap or the room left, to the last micro-unit; in particular
  // a trade of this size cannot push exposure above the total cap.
  lemma KellyWithinRoom(pTrue: real, pMarket: real, bankroll: Amount, exposure: Amount)
    requires pMarket < 1.0
    ensures var size := KellySize(pTrue, pMarket, bankroll, exposure);
            && 0 <= size <= MAX_TRADE
            && (size > 0 ==> exposure + size <= MAX_TOTAL_EXPOSURE && pTrue > pMarket)
  {
    if pTrue - pMarket > 0.0 && exposure < MAX_TOTAL_EXPOSURE {
      hide KellyStake, FromDouble, ToDouble;
      var room := MAX_TOTAL_EXPOSURE - exposure;
      var stake := KellyStake(pTrue, pMarket, bankroll);
      var cap := Min(ToDouble(MAX_TRADE), ToDouble(room));
      CapNotNegative(room);
      var capped := Clamp(stake, 0.0, cap);
      assert 0.0 <= capped <= cap;
      ZeroIsZero();
      FromDoubleAtMost(capped, MAX_TRADE);
      FromDoubleAtMost(capped, room);
      FromDoubleAtLeast(capped, 0);
    }
  }

  // With a positive edge and room left, the size is the stake to the nearest micro-unit, or the smaller
  // cap exactly when the stake reaches it.
  lemma KellyFillsCaps(pTrue: real, pMarket: real, bankroll: Amount, exposure: Amount)
    requires pMarket < pTrue && pMarket < 1.0 && exposure < MAX_TOTAL_EXPOSURE
    ensures var size, stake := KellySize(pTrue, pMarket, bankroll, exposure), KellyStake(pTrue, pMarket, bankroll);
            var room := MAX_TOTAL_EXPOSURE - exposure;
            var cap := if room < MAX_TRADE then room else MAX_TRADE;
            && (stake >= ToDouble(cap) ==> size == cap)
            && (0.0 <= stake < ToDouble(cap) ==> -0.0000005 <= ToDouble(size) - stake <= 0.0000005)
            && (stake < 0.0 ==> size == 0)
  {
    hide KellyStake;
    var room := MAX_TOTAL_EXPOSURE - exposure;
    var stake := KellyStake(pTrue, pMarket, bankroll);
    DoubleRoundTrip(room);
    DoubleRoundTrip(MAX_TRADE);
    RoundIsNearest(stake * SCALE as real);
  }

  lemma CapNotNegative(room: Amount)
    requires room >= 0
    ensures Min(ToDouble(MAX_TRADE), ToDouble(room)) >= 0.0
  {
  }

  lemma ZeroIsZero()
    ensures ToDouble(0) == 0.0
  {
  }

  // ---- The stake and Kelly's ----

  // Betting the fraction f at the market's odds maximises expected logarithmic growth: its derivative
  // is zero there.
  predicate GrowthOptimal(pTrue: real, pMarket: real, f: real)
    requires 0.0 < pMarket < 1.0
  {
    var b := (1.0 - pMarket) / pMarket;
    pTrue * b * (1.0 - f) == (1.0 - pTrue) * (1.0 + f * b)
  }

  lemma Cancel(a: real, b: real, k: real)
    requires k != 0.0 && a * k == b * k
    ensures a == b
  {
    assert a == a * k / k && b == b * k / k;
  }

  // Kelly's fraction is the edge over the market's losing probability.
  lemma GrowthOptimalIff(pTrue: real, pMarket: real, f: real)
    requires 0.0 < pMarket < 1.0
    ensures GrowthOptimal(pTrue, pMarket, f) <==> f * (1.0 - pMarket) == pTrue - pMarket
  {
    var b := (1.0 - pMarket) / pMarket;
    assert b * pMarket == 1.0 - pMarket;
    var left, right := pTrue * b * (1.0 - f), (1.0 - pTrue) * (1.0 + f * b);
    OptimalityTimesMarket(pTrue, pMarket, f, b);
    if left == right {
      assert left * pMarket == right * pMarket;
    } else if left * pMarket == right * pMarket {
      Cancel(left, right, pMarket);
    }
  }

  lemma OptimalityTimesMarket(pTrue: real, pMarket: real, f: real, b: real)
    requires b * pMarket == 1.0 - pMarket
    ensures pTrue * b * (1.0 - f) * pMarket - (1.0 - pTrue) * (1.0 + f * b) * pMarket
         == pTrue - pMarket - f * (1.0 - pMarket)
  {
    var l := 1.0 - pMarket;
    assert pTrue * b * (1.0 - f) * pMarket == pTrue * (1.0 - f) * (b * pMarket);
    assert (1.0 - pTrue) * (1.0 + f * b) * pMarket == (1.0 - pTrue) * (pMarket + f * (b * pMarket));
    assert pTrue * (1.0 - f) * l == pTrue * l - pTrue * (f * l);
    assert (1.0 - pTrue) * (pMarket + f * l) == pMarket + f * l - pTrue * pMarket - pTrue * (f * l);
    assert pTrue * l == pTrue - pTrue * pMarket;
  }

  lemma StakeTimesLosing(pTrue: real, pMarket: real, bankroll: Amount)
    requires 0.000000001 <= pMarket < 1.0
    ensures KellyStake(pTrue, pMarket, bankroll) * (1.0 - pMarket)
         == 0.25 * (pTrue - pMarket) * pMarket * ToDouble(bankroll)
  {
    var odds := Odds(pMarket);
    OddsPositive(pMarket);
    assert odds * pMarket == 1.0 - pMarket;
    hide Odds, ToDouble;
    var ratio := (pTrue - pMarket) / odds;
    assert ratio * odds == pTrue - pMarket;
    var money := ToDouble(bankroll);
    assert KellyStake(pTrue, pMarket, bankroll) == ratio * 0.25 * money;
    assert ratio * 0.25 * money * (odds * pMarket) == 0.25 * (ratio * odds) * pMarket * money;
  }

  // The stake is a quarter of Kelly's times the market probability, since the edge is divided by the odds
  // and not by the losing probability; so it is a quarter of Kelly's only if nothing is staked.
  lemma StakeIsKellyTimesMarket(pTrue: real, pMarket: real, f: real, bankroll: Amount)
    requires 0.000000001 <= pMarket < 1.0 && GrowthOptimal(pTrue, pMarket, f)
    ensures KellyStake(pTrue, pMarket, bankroll) == 0.25 * f * pMarket * ToDouble(bankroll)
    ensures KellyStake(pTrue, pMarket, bankroll) == 0.25 * f * ToDouble(bankroll)
       <==> KellyStake(pTrue, pMarket, bankroll) == 0.0
  {
    hide KellyStake, ToDouble, GrowthOptimal;
    var stake, money, losing := KellyStake(pTrue, pMarket, bankroll), ToDouble(bankroll), 1.0 - pMarket;
    GrowthOptimalIff(pTrue, pMarket, f);
    StakeTimesLosing(pTrue, pMarket, bankroll);
    var whole := 0.25 * f * money;
    assert 0.25 * (f * losing) * pMarket * money == whole * pMarket * losing;
    Cancel(stake, whole * pMarket, losing);
    assert 0.25 * f * pMarket * money == whole * pMarket;
    if whole * pMarket == whole {
      assert whole * losing == 0.0 * losing;
      Cancel(whole, 0.0, losing);
    }
    if whole * pMarket == 0.0 {
      assert whole * pMarket == 0.0 * pMarket;
      Cancel(whole, 0.0, pMarket);
    }
  }

  // The hedge is worth the Polymarket leg or five per cent of the bankroll, whichever is less.
  lemma HedgeWithinCaps(notional: Amount, btcPrice: real, bankroll: Amount)
    requires notional >= 0 && bankroll >= 0
    ensures HedgeQty(notional, btcPrice, bankroll) >= 0.0
    ensures btcPrice > 0.0 ==>
      && HedgeQty(notional, btcPrice, bankroll) * btcPrice <= ToDouble(notional)
      && HedgeQty(notional, btcPrice, bankroll) * btcPrice <= 0.05 * ToDouble(bankroll)
      && HedgeQty(notional, btcPrice, bankroll) * btcPrice in {ToDouble(notional), 0.05 * ToDouble(bankroll)}
  {
    if btcPrice > 0.0 && notional != 0 {
      var capped := Min(ToDouble(notional), MAX_HEDGE_FRACTION * ToDouble(bankroll));
      var q := HedgeQty(notional, btcPrice, bankroll);
      assert q * btcPrice == capped;
      assert q >= 0.0 by {
        if q < 0.0 {
          PositiveProduct(-q, btcPrice, -capped);
          assert false;
        }
      }
    }
  }
}
