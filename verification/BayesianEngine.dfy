/**
 The signal engine (src/signal/bayesian_engine.cpp, compute_likelihood of src/signal/likelihood.cpp). The
 class follows process_tick and is proved against Processed, a transition on values; the mirror lemmas
 relate two runs of it: a market for "above the strike" and one for "below" on flipped quotes.
 */
module BayesianEngine {
  import opened RealMath
  import opened Ticks
  import opened Wrappers
  import RollingVol
  import TimeWindow

  const PRIOR_RESET_US := 30_000_000
  const MAX_AUX := 0.10
  const TINY := 0.0000000001

  datatype MarketConfig = MarketConfig(strike: real, resolutionUs: int, isAbove: bool)

  datatype Shared = Shared(pTrue: real, pMarket: real, btcMid: real, vol: real,
                           regime: RollingVol.MarketRegime, bestBid: real, bestAsk: real)

  datatype Engine = Engine(prior: real, btcMid: real, prevCbMid: real, lastResetUs: int,
                           window: RollingVol.Window, shared: Shared)

  // What one tick is processed with; the funding rate is read from the feed at that moment.
  datatype Event = Event(tick: Tick, fundingRate: real)

  const INITIAL :=
    Engine(0.5, 0.0, 0.0, 0, RollingVol.EMPTY, Shared(0.5, 0.5, 0.0, 0.0, RollingVol.Sideways, 0.5, 0.5))

  // ---- One update ----

  function ScaledVol(timeRemaining: real, vol: real, imbalance: real, sqrt: real -> real): real {
    vol * (1.0 + 0.3 * Abs(imbalance)) * sqrt(timeRemaining / 300.0)
  }

  // How far the price is from the strike, in units of the scaled volatility.
  function Distance(price: real, strike: real, scaled: real): (d: real)
    requires strike > 0.0 && scaled > 0.0
    ensures d * (strike * scaled) == price - strike
  {
    PositiveProduct(strike, scaled, strike * scaled);
    (price - strike) / (strike * scaled)
  }

  function Likelihood(price: real, strike: real, timeRemaining: real, vol: real, imbalance: real,
                      isYesSide: bool, m: Maths): real
  {
    if strike <= 0.0 || timeRemaining <= 0.0 || vol <= 0.0 then 0.5
    else
      var scaled := ScaledVol(timeRemaining, vol, imbalance, m.sqrt);
      if scaled <= 0.0 then 0.5
      else
        var pAbove := m.cdf(Distance(price, strike, scaled));
        if isYesSide then pAbove else 1.0 - pAbove
  }

  function AuxTotal(btcMid: real, prevCbMid: real, ev: Event): real {
    Clamp(ev.fundingRate * 100.0, -MAX_AUX, MAX_AUX)
    + Clamp(ev.tick.obImbalance * MAX_AUX, -MAX_AUX, MAX_AUX)
    + if prevCbMid > 0.0 && btcMid > 0.0
      then Clamp((btcMid - prevCbMid) / prevCbMid / 0.001 * MAX_AUX, -MAX_AUX, MAX_AUX)
      else 0.0
  }

  function AuxLogAdj(e: Engine, cfg: MarketConfig, ev: Event): real {
    var total := AuxTotal(e.btcMid, e.prevCbMid, ev);
    if cfg.isAbove then total else -total
  }

  function Evidence(prior: real, likeYes: real, likeNo: real): real {
    prior * likeYes + (1.0 - prior) * likeNo
  }

  // The clamped posterior, or the prior unchanged when the evidence is too small to divide by.
  function Posterior(prior: real, likeYes: real, likeNo: real): real {
    var z := Evidence(prior, likeYes, likeNo);
    if z < TINY then prior else Clamp(prior * likeYes / z, 0.01, 0.99)
  }

  function TimeRemaining(cfg: MarketConfig, t: Tick): real {
    (cfg.resolutionUs as real - t.timestampUs as real) / 1000000.0
  }

  predicate Updates(e: Engine, cfg: MarketConfig, t: Tick) {
    e.btcMid > 0.0 && cfg.strike > 0.0 && e.shared.vol > 0.0 && TimeRemaining(cfg, t) > 0.0
  }

  function YesLikelihood(e: Engine, cfg: MarketConfig, ev: Event, side: bool, m: Maths): real {
    Likelihood(e.btcMid, cfg.strike, TimeRemaining(cfg, ev.tick), e.shared.vol, ev.tick.obImbalance, side, m)
  }

  function Boosted(likelihood: real, logAdj: real, exp: real -> real): real {
    likelihood * exp(logAdj)
  }

  function Updated(e: Engine, cfg: MarketConfig, ev: Event, m: Maths): Engine {
    if !Updates(e, cfg, ev.tick) then e
    else
      var yes := Boosted(YesLikelihood(e, cfg, ev, cfg.isAbove, m), AuxLogAdj(e, cfg, ev), m.exp);
      var no := YesLikelihood(e, cfg, ev, !cfg.isAbove, m);
      if Evidence(e.prior, yes, no) < TINY then e
      else
        var post := Posterior(e.prior, yes, no);
        e.(prior := post, shared := e.shared.(pTrue := post))
  }

  // ---- One tick ----

  function OnCoinbase(e: Engine, cfg: MarketConfig, ev: Event, m: Maths): Engine {
    if ev.tick.mid <= 0.0 then e
    else
      var updated := if e.prevCbMid > 0.0 && e.btcMid > 0.0 then Updated(e, cfg, ev, m) else e;
      updated.(prevCbMid := ev.tick.mid)
  }

  function OnPolymarket(e: Engine, t: Tick): Engine {
    if !(0.0 < t.mid < 1.0) then e
    else
      var quoted := e.(shared := e.shared.(pMarket := t.mid, bestBid := t.bestBid, bestAsk := t.bestAsk));
      if e.lastResetUs == 0 || t.timestampUs - e.lastResetUs >= PRIOR_RESET_US
      then quoted.(prior := t.mid, lastResetUs := t.timestampUs)
      else quoted
  }

  function Priced(e: Engine, t: Tick, m: Maths): Engine {
    var window := RollingVol.Updated(e.window, TimeWindow.Stamped(t.timestampUs, t.mid), m.log);
    var vol := RollingVol.VolOf(window.entries, m.sqrt);
    e.(btcMid := t.mid, window := window,
       shared := e.shared.(btcMid := t.mid, vol := vol, regime := RollingVol.ClassifyRegime(vol)))
  }

  function OnBinance(e: Engine, cfg: MarketConfig, ev: Event, m: Maths): Engine {
    if ev.tick.mid <= 0.0 then e else Updated(Priced(e, ev.tick, m), cfg, ev, m)
  }

  function Processed(e: Engine, cfg: MarketConfig, ev: Event, m: Maths): Engine {
    match ev.tick.source
    case Coinbase => OnCoinbase(e, cfg, ev, m)
    case Polymarket => OnPolymarket(e, ev.tick)
    case Binance => OnBinance(e, cfg, ev, m)
  }

  function Run(cfg: MarketConfig, events: seq<Event>, m: Maths): Engine {
    if events == [] then INITIAL
    else Processed(Run(cfg, events[..|events| - 1], m), cfg, events[|events| - 1], m)
  }

  // ---- The mirror ----

  // How the backtester presents a tick to a "below" market.
  function Flip(t: Tick): Tick {
    if t.source == Polymarket && 0.0 < t.mid < 1.0
    then t.(mid := 1.0 - t.mid, bestBid := 1.0 - t.bestAsk, bestAsk := 1.0 - t.bestBid)
    else t
  }

  function FlipAll(events: seq<Event>): (r: seq<Event>)
    ensures |r| == |events|
  {
    seq(|events|, i requires 0 <= i < |events| => events[i].(tick := Flip(events[i].tick)))
  }

  ghost predicate Mirrored(a: Engine, b: Engine) {
    && b.prior == 1.0 - a.prior
    && b.btcMid == a.btcMid && b.prevCbMid == a.prevCbMid
    && b.lastResetUs == a.lastResetUs && b.window == a.window
    && b.shared.pTrue == 1.0 - a.shared.pTrue
    && b.shared.pMarket == 1.0 - a.shared.pMarket
    && b.shared.bestBid == 1.0 - a.shared.bestAsk
    && b.shared.bestAsk == 1.0 - a.shared.bestBid
    && b.shared.btcMid == a.shared.btcMid
    && b.shared.vol == a.shared.vol && b.shared.regime == a.shared.regime
  }

  // Quoted mids stay away from 0 and 1, so that the evidence cannot fall under the division guard.
  ghost predicate MidInside(t: Tick, margin: real) {
    t.source == Polymarket && 0.0 < t.mid < 1.0 ==> margin <= t.mid <= 1.0 - margin
  }

  ghost predicate PriorInside(e: Engine, margin: real) {
    margin <= e.prior <= 1.0 - margin
  }

  ghost predicate Margin(margin: real) {
    0.7 * margin >= TINY && margin <= 0.01
  }

  lemma AuxBounded(btcMid: real, prevCbMid: real, ev: Event)
    ensures -0.3 <= AuxTotal(btcMid, prevCbMid, ev) <= 0.3
  {
  }

  lemma LikelihoodsComplement(price: real, strike: real, time: real, vol: real, imbalance: real, side: bool, m: Maths)
    requires CdfLaws(m.cdf)
    ensures Likelihood(price, strike, time, vol, imbalance, side, m)
          + Likelihood(price, strike, time, vol, imbalance, !side, m) == 1.0
    ensures 0.0 <= Likelihood(price, strike, time, vol, imbalance, side, m) <= 1.0
  {
  }

  lemma ScaleFraction(x: real, z: real, k: real, n: real, w: real)
    requires z != 0.0 && w != 0.0 && n == x * k && w == z * k
    ensures n / w == x / z
  {
    var q := x / z;
    assert x == q * z;
    assert n == q * w;
  }

  lemma SplitFraction(x: real, y: real, z: real)
    requires z == x + y && z != 0.0
    ensures y / z == 1.0 - x / z
  {
    assert (x + y) / z == x / z + y / z;
  }

  lemma AtLeastProduct(lo: real, a: real, k: real, product: real)
    requires lo <= a && 0.0 <= k && product == a * k
    ensures lo * k <= product
  {
    assert (a - lo) * k >= 0.0;
  }

  // With the prior inside the margin and a boost of at least 0.7, the evidence clears the guard.
  lemma EvidenceClears(prior: real, p: real, boost: real, yes: real, margin: real)
    requires Margin(margin) && margin <= prior <= 1.0 - margin
    requires 0.0 <= p <= 1.0 && boost >= 0.7 && yes == p * boost
    ensures Evidence(prior, yes, 1.0 - p) >= TINY
  {
    AtLeastProduct(0.7, boost, p, yes);
    AtLeastProduct(margin, prior, yes, prior * yes);
    AtLeastProduct(0.7 * p, yes, margin, margin * yes);
    AtLeastProduct(margin, 1.0 - prior, 1.0 - p, (1.0 - prior) * (1.0 - p));
    AtLeastProduct(0.7, 1.0, margin * (1.0 - p), margin * (1.0 - p));
    assert Evidence(prior, yes, 1.0 - p) >= 0.7 * margin;
  }

  lemma Unboost(p: real, up: real, down: real, yes: real)
    requires up * down == 1.0 && yes == p * up
    ensures yes * down == p
  {
    assert yes * down == p * (up * down);
  }

  // Multiplying both terms of the evidence by the reciprocal boost gives the mirrored evidence.
  lemma EvidenceScales(prior: real, p: real, up: real, down: real, yes: real, no: real)
    requires up * down == 1.0 && yes == p * up && no == (1.0 - p) * down
    ensures Evidence(1.0 - prior, no, p) == Evidence(prior, yes, 1.0 - p) * down
    ensures (1.0 - prior) * no == (1.0 - prior) * (1.0 - p) * down
  {
    Unboost(p, up, down, yes);
    assert prior * yes * down == prior * (yes * down);
  }

  // The heart of the mirror: with complementary priors and likelihoods and reciprocal boosts, the two
  // normalised posteriors add up to one.
  lemma PosteriorsComplement(prior: real, p: real, up: real, down: real, yes: real, no: real)
    requires up * down == 1.0 && yes == p * up && no == (1.0 - p) * down
    requires Evidence(prior, yes, 1.0 - p) >= TINY && Evidence(1.0 - prior, no, p) >= TINY
    ensures Posterior(1.0 - prior, no, p) == 1.0 - Posterior(prior, yes, 1.0 - p)
  {
    var x, y := prior * yes, (1.0 - prior) * (1.0 - p);
    var z, w := Evidence(prior, yes, 1.0 - p), Evidence(1.0 - prior, no, p);
    EvidenceScales(prior, p, up, down, yes, no);
    ScaleFraction(y, z, down, (1.0 - prior) * no, w);
    SplitFraction(x, y, z);
    ClampMirrors(x / z);
  }

  lemma ClampMirrors(x: real)
    ensures Clamp(1.0 - x, 0.01, 0.99) == 1.0 - Clamp(x, 0.01, 0.99)
  {
  }

  // Without a margin the mirror can break, and exactly when only one of the two divisions is guarded off.
  lemma PosteriorsComplementIff(prior: real, p: real, up: real, down: real, yes: real, no: real)
    requires up * down == 1.0 && yes == p * up && no == (1.0 - p) * down
    requires 0.0 < prior < 1.0 && 0.0 <= p <= 1.0 && up >= 0.7 && down >= 0.7
    ensures Posterior(1.0 - prior, no, p) == 1.0 - Posterior(prior, yes, 1.0 - p)
       <==> (Evidence(prior, yes, 1.0 - p) < TINY <==> Evidence(1.0 - prior, no, p) < TINY)
  {
    var z, w := Evidence(prior, yes, 1.0 - p), Evidence(1.0 - prior, no, p);
    if z >= TINY && w >= TINY {
      PosteriorsComplement(prior, p, up, down, yes, no);
    } else if 0.01 <= prior <= 0.99 {
      EvidenceClears(prior, p, up, yes, 0.01);
      assert 1.0 - (1.0 - p) == p;
      EvidenceClears(1.0 - prior, 1.0 - p, down, no, 0.01);
      assert false;
    } else {
      hide Evidence;
      if z >= TINY { PosteriorInside(prior, yes, 1.0 - p); }
      if w >= TINY { PosteriorInside(1.0 - prior, no, p); }
    }
  }

  // A quote this close to zero is enough: the certain side divides, the other keeps its prior.
  lemma GuardBreaksMirror()
    ensures var prior, up, down := 0.000000000095, 1.1, 1.0 / 1.1;
            && up * down == 1.0
            && Posterior(1.0 - prior, 0.0 * down, 1.0) != 1.0 - Posterior(prior, 1.0 * up, 0.0)
  {
  }

  // ---- A stream on which the mirror breaks ----

  function Quote(source: Source, us: int, mid: real, imbalance: real): Event {
    Event(Tick(us, source, mid, mid, mid, imbalance, mid, false), 0.0)
  }

  // Three prices, of which the third moves back; the quote is a hair above zero.
  const FIRST := Quote(Binance, 1, 1.0, 0.0)
  const SECOND := Quote(Binance, 2, 2.0, 0.0)
  const HAIR_MID := 0.000000000095
  const HAIR := Quote(Polymarket, 3, HAIR_MID, 0.0)
  const THIRD := Quote(Binance, 4, 1.0, 1.0)

  const BROKEN := [FIRST, SECOND, HAIR, THIRD]

  // Ten seconds to resolution and a strike far below the third price.
  function Far(isAbove: bool): MarketConfig { MarketConfig(0.0001, 10_000_000, isAbove) }

  // Facts about the functions themselves. The tail of the Student-t distribution with four degrees of
  // freedom is below 3 / t^4, and below 6 / t^4 as normalised in the code, so under 10^-12 from 2000 on.
  ghost predicate Standard(m: Maths) {
    && Laws(m)
    && m.log(0.5) == -m.log(2.0) && 0.69 <= m.log(2.0) <= 0.70
    && (forall x :: x >= 0.0 ==> m.sqrt(x) >= 0.0 && m.sqrt(x) * m.sqrt(x) == x)
    && (forall t :: t >= 2000.0 ==> m.cdf(t) >= 1.0 - 0.000000000001)
  }

  // The window after two and after three prices.
  function TwoPrices(m: Maths): RollingVol.Window {
    RollingVol.Window([TimeWindow.Stamped(2, m.log(2.0))], 2.0)
  }

  function ThreePrices(m: Maths): RollingVol.Window {
    RollingVol.Window([TimeWindow.Stamped(2, m.log(2.0)), TimeWindow.Stamped(4, m.log(0.5))], 1.0)
  }

  lemma WindowsAre(m: Maths)
    ensures var first := RollingVol.Updated(RollingVol.EMPTY, TimeWindow.Stamped(1, 1.0), m.log);
            && first == RollingVol.Window([], 1.0)
            && RollingVol.Updated(first, TimeWindow.Stamped(2, 2.0), m.log) == TwoPrices(m)
    ensures RollingVol.Updated(TwoPrices(m), TimeWindow.Stamped(4, 1.0), m.log) == ThreePrices(m)
  {
    assert 2.0 / 1.0 == 2.0 && 1.0 / 2.0 == 0.5;
  }

  // A non-negative root of a number below one is below one.
  lemma RootBelowOne(root: real, square: real)
    requires root >= 0.0 && root * root == square < 1.0
    ensures root < 1.0
  {
    if root >= 1.0 { AtLeastProduct(1.0, root, root, square); }
  }

  lemma VolsAre(m: Maths)
    requires Standard(m)
    ensures RollingVol.VolOf([], m.sqrt) == 0.0 && RollingVol.VolOf(TwoPrices(m).entries, m.sqrt) == 0.0
    ensures 0.0 < RollingVol.VolOf(ThreePrices(m).entries, m.sqrt) < 1.0
  {
    var w, l := ThreePrices(m).entries, m.log(2.0);
    assert w[1..] == [w[1]] && w[1..][1..] == [] && w[0].value == l && w[1].value == -l;
    assert RollingVol.Sum(w[1..]) == -l && RollingVol.SumSquares(w[1..]) == l * l;
    assert RollingVol.Sum(w) == 0.0 && RollingVol.SumSquares(w) == 2.0 * (l * l);
    assert RollingVol.VolOf(w, m.sqrt) == m.sqrt(l * l);
    PositiveProduct(l, l, l * l);
    AtLeastProduct(l, 0.7, 0.7, 0.49);
    AtLeastProduct(l, 0.7, l, 0.7 * l);
    RootBelowOne(m.sqrt(l * l), l * l);
  }

  // The engine just before the third price, on either side of the mirror: no update has happened.
  ghost predicate Poised(e: Engine, m: Maths, prior: real) {
    && e.prior == prior && e.shared.pTrue == 0.5 && e.window == TwoPrices(m)
    && e.btcMid == 2.0 && e.prevCbMid == 0.0
  }

  lemma PoisedAfter(m: Maths, isAbove: bool, hair: Event)
    requires Standard(m) && hair.tick.source == Polymarket && 0.0 < hair.tick.mid < 1.0
    requires hair.tick.timestampUs == 3
    ensures Poised(Run(Far(isAbove), [FIRST, SECOND, hair], m), m, hair.tick.mid)
  {
    var cfg := Far(isAbove);
    WindowsAre(m);
    VolsAre(m);
    hide RollingVol.Updated, RollingVol.VolOf, Likelihood, AuxTotal;
    var events := [FIRST, SECOND, hair];
    assert events[..2] == [FIRST, SECOND] && [FIRST, SECOND][..1] == [FIRST] && [FIRST][..0] == [];
    RunStep(cfg, events, m);
    RunStep(cfg, [FIRST, SECOND], m);
    RunStep(cfg, [FIRST], m);
    hide Run;
    NothingRun(cfg, m);
    var one := Processed(INITIAL, cfg, FIRST, m);
    assert one == Priced(INITIAL, FIRST.tick, m);
    var two := Processed(one, cfg, SECOND, m);
    assert two == Priced(one, SECOND.tick, m);
  }

  lemma NothingRun(cfg: MarketConfig, m: Maths)
    ensures Run(cfg, [], m) == INITIAL
  {
  }

  lemma FarEnough(scaled: real)
    requires 0.0 < scaled <= 1.3
    ensures 0.0001 * scaled > 0.0 && (1.0 - 0.0001) / (0.0001 * scaled) >= 2000.0
  {
    var k := 0.0001 * scaled;
    var d := (1.0 - 0.0001) / k;
    assert d * k == 0.9999;
    if d < 2000.0 {
      AtLeastProduct(d, 2000.0, k, 2000.0 * k);
      assert false;
    }
  }

  // At the third price the market is all but certain to end above.
  lemma FarLikelihood(m: Maths, isAbove: bool, vol: real)
    requires Standard(m) && 0.0 < vol < 1.0
    ensures TimeRemaining(Far(isAbove), THIRD.tick) == 9.999996
    ensures var p := Likelihood(1.0, 0.0001, 9.999996, vol, 1.0, true, m);
            && 1.0 - 0.000000000001 <= p <= 1.0
            && Likelihood(1.0, 0.0001, 9.999996, vol, 1.0, false, m) == 1.0 - p
  {
    var root := m.sqrt(9.999996 / 300.0);
    assert 0.0 < 9.999996 / 300.0 < 1.0;
    RootBelowOne(root, 9.999996 / 300.0);
    var scaled := ScaledVol(9.999996, vol, 1.0, m.sqrt);
    assert scaled == vol * 1.3 * root;
    PositiveProduct(vol * 1.3, root, scaled);
    AtLeastProduct(root, 1.0, vol * 1.3, vol * 1.3);
    FarEnough(scaled);
    LikelihoodsComplement(1.0, 0.0001, 9.999996, vol, 1.0, true, m);
  }

  lemma ThirdPrice(e: Engine, m: Maths, isAbove: bool)
    requires Standard(m) && Poised(e, m, if isAbove then HAIR_MID else 1.0 - HAIR_MID)
    ensures Processed(e, Far(isAbove), THIRD, m).shared.pTrue == if isAbove then 0.99 else 0.5
  {
    WindowsAre(m);
    VolsAre(m);
    hide RollingVol.Updated, RollingVol.VolOf;
    var q := Priced(e, THIRD.tick, m);
    FarLikelihood(m, isAbove, q.shared.vol);
    assert AuxTotal(1.0, 0.0, THIRD) == 0.1;
    hide Likelihood, AuxTotal, TimeRemaining;
    var p := Likelihood(1.0, 0.0001, 9.999996, q.shared.vol, 1.0, true, m);
    var up, down := m.exp(0.1), m.exp(-0.1);
    assert up >= 1.1 && up * down == 1.0;
    HairPosterior(p, up, down);
    hide Posterior, Evidence;
  }

  // Above, the evidence just clears the guard and is almost all on one side; below, it is just short of it.
  lemma HairPosterior(p: real, up: real, down: real)
    requires 1.0 - 0.000000000001 <= p <= 1.0 && up >= 1.1 && up * down == 1.0
    ensures Evidence(HAIR_MID, p * up, 1.0 - p) >= TINY && Posterior(HAIR_MID, p * up, 1.0 - p) == 0.99
    ensures Evidence(1.0 - HAIR_MID, (1.0 - p) * down, p) < TINY
  {
    var x, y := HAIR_MID * (p * up), (1.0 - HAIR_MID) * (1.0 - p);
    AtLeastProduct(1.1, up, p, p * up);
    assert x >= 0.0000000001044 && 0.0 <= y <= 0.000000000001;
    var z := x + y;
    assert x / z >= 0.99 by {
      assert x / z * z == x;
      if x / z < 0.99 {
        AtLeastProduct(x / z, 0.99, z, 0.99 * z);
        assert false;
      }
    }
    DownBelowOne(up, down);
    AtLeastProduct(down, 1.0, 1.0 - p, 1.0 - p);
    AtLeastProduct(0.0, down, 1.0 - p, (1.0 - p) * down);
    AtLeastProduct(1.0 - HAIR_MID, 1.0, (1.0 - p) * down, (1.0 - p) * down);
  }

  lemma DownBelowOne(up: real, down: real)
    requires up >= 1.1 && up * down == 1.0
    ensures 0.0 <= down <= 1.0
  {
    if down > 1.0 {
      AtLeastProduct(1.1, up, down, 1.0);
      assert false;
    }
  }

  // On this stream the mirror fails, for every logarithm, root and distribution function that meets those
  // facts: the "above" engine is driven to 0.99, while the "below" engine's evidence falls under the guard
  // and it still publishes one half.
  lemma MirrorBreaksOnStream(m: Maths)
    requires Standard(m)
    ensures Run(Far(true), BROKEN, m).shared.pTrue == 0.99
    ensures Run(Far(false), FlipAll(BROKEN), m).shared.pTrue == 0.5
  {
    var flipped := FlipAll(BROKEN);
    var hair := HAIR.(tick := Flip(HAIR.tick));
    assert flipped == [FIRST, SECOND, hair, THIRD];
    assert BROKEN[..3] == [FIRST, SECOND, HAIR] && flipped[..3] == [FIRST, SECOND, hair];
    RunStep(Far(true), BROKEN, m);
    RunStep(Far(false), flipped, m);
    hide Run, Processed, Standard, Poised;
    PoisedAfter(m, true, HAIR);
    PoisedAfter(m, false, hair);
    ThirdPrice(Run(Far(true), [FIRST, SECOND, HAIR], m), m, true);
    ThirdPrice(Run(Far(false), [FIRST, SECOND, hair], m), m, false);
  }

  // The two boosts are reciprocal and neither is below 0.7.
  lemma BoostsReciprocal(total: real, exp: real -> real)
    requires ExpLaws(exp) && -0.3 <= total <= 0.3
    ensures exp(total) * exp(-total) == 1.0 && exp(total) >= 0.7 && exp(-total) >= 0.7
  {
  }

  lemma BoostedClears(prior: real, p: real, total: real, exp: real -> real, margin: real)
    requires ExpLaws(exp) && Margin(margin) && margin <= prior <= 1.0 - margin
    requires 0.0 <= p <= 1.0 && -0.3 <= total <= 0.3
    ensures Evidence(prior, Boosted(p, total, exp), 1.0 - p) >= TINY
  {
    hide Evidence;
    BoostsReciprocal(total, exp);
    EvidenceClears(prior, p, exp(total), Boosted(p, total, exp), margin);
  }

  lemma BoostedComplement(prior: real, p: real, total: real, exp: real -> real)
    requires ExpLaws(exp) && -0.3 <= total <= 0.3
    requires Evidence(prior, Boosted(p, total, exp), 1.0 - p) >= TINY
    requires Evidence(1.0 - prior, Boosted(1.0 - p, -total, exp), p) >= TINY
    ensures Posterior(1.0 - prior, Boosted(1.0 - p, -total, exp), p)
         == 1.0 - Posterior(prior, Boosted(p, total, exp), 1.0 - p)
  {
    hide Evidence, Posterior;
    BoostsReciprocal(total, exp);
    PosteriorsComplement(prior, p, exp(total), exp(-total), Boosted(p, total, exp), Boosted(1.0 - p, -total, exp));
  }

  // The same step in the terms of the code: neither guard bites and the posteriors are complementary.
  lemma PosteriorsMirror(prior: real, p: real, total: real, exp: real -> real, margin: real)
    requires ExpLaws(exp) && Margin(margin) && margin <= prior <= 1.0 - margin
    requires 0.0 <= p <= 1.0 && -0.3 <= total <= 0.3
    ensures var yes, no := Boosted(p, total, exp), Boosted(1.0 - p, -total, exp);
            && Evidence(prior, yes, 1.0 - p) >= TINY
            && Evidence(1.0 - prior, no, p) >= TINY
            && Posterior(1.0 - prior, no, p) == 1.0 - Posterior(prior, yes, 1.0 - p)
            && 0.01 <= Posterior(prior, yes, 1.0 - p) <= 0.99
  {
    hide Evidence, Posterior, Boosted, ExpLaws;
    BoostedClears(prior, p, total, exp, margin);
    BoostedClears(1.0 - prior, 1.0 - p, -total, exp, margin);
    assert 1.0 - (1.0 - p) == p;
    BoostedComplement(prior, p, total, exp);
    PosteriorInside(prior, Boosted(p, total, exp), 1.0 - p);
  }

  lemma UpdateMirrors(a: Engine, b: Engine, cfg: MarketConfig, ev: Event, m: Maths, margin: real)
    requires Laws(m) && Margin(margin) && cfg.isAbove
    requires Mirrored(a, b) && PriorInside(a, margin)
    ensures Mirrored(Updated(a, cfg, ev, m), Updated(b, cfg.(isAbove := false), ev, m))
    ensures PriorInside(Updated(a, cfg, ev, m), margin)
  {
    hide Likelihood, AuxTotal, Evidence, Posterior, Boosted, ExpLaws, CdfLaws, SqrtLaws, TimeRemaining;
    SameTime(cfg, ev.tick);
    if Updates(a, cfg, ev.tick) {
      var below := cfg.(isAbove := false);
      var p := YesLikelihood(a, cfg, ev, true, m);
      LikelihoodsComplement(a.btcMid, cfg.strike, TimeRemaining(cfg, ev.tick), a.shared.vol,
                            ev.tick.obImbalance, true, m);
      assert YesLikelihood(b, below, ev, true, m) == p;
      assert YesLikelihood(b, below, ev, false, m) == 1.0 - p == YesLikelihood(a, cfg, ev, false, m);
      var total := AuxTotal(a.btcMid, a.prevCbMid, ev);
      AuxBounded(a.btcMid, a.prevCbMid, ev);
      assert AuxLogAdj(a, cfg, ev) == total && AuxLogAdj(b, below, ev) == -total;
      hide YesLikelihood, AuxLogAdj;
      PosteriorsMirror(a.prior, p, total, m.exp, margin);
    }
  }

  lemma SameTime(cfg: MarketConfig, t: Tick)
    ensures TimeRemaining(cfg.(isAbove := false), t) == TimeRemaining(cfg, t)
  {
  }

  lemma PosteriorInside(prior: real, yes: real, no: real)
    requires Evidence(prior, yes, no) >= TINY
    ensures 0.01 <= Posterior(prior, yes, no) <= 0.99
  {
  }

  lemma TickMirrors(a: Engine, b: Engine, cfg: MarketConfig, ev: Event, m: Maths, margin: real)
    requires Laws(m) && Margin(margin) && cfg.isAbove
    requires Mirrored(a, b) && PriorInside(a, margin) && MidInside(ev.tick, margin)
    ensures Mirrored(Processed(a, cfg, ev, m),
                     Processed(b, cfg.(isAbove := false), ev.(tick := Flip(ev.tick)), m))
    ensures PriorInside(Processed(a, cfg, ev, m), margin)
  {
    hide Updated;
    match ev.tick.source
    case Coinbase =>
      UpdateMirrors(a, b, cfg, ev, m, margin);
    case Polymarket =>
    case Binance =>
      hide RollingVol.Updated, RollingVol.VolOf;
      UpdateMirrors(Priced(a, ev.tick, m), Priced(b, ev.tick, m), cfg, ev, m, margin);
  }

  // For every tick stream, feeding an "above" engine the ticks and a "below" engine the flipped ticks
  // keeps the two complementary: probabilities add up to one and each bid mirrors the other's ask.
  lemma {:induction false} MirrorOverRuns(cfg: MarketConfig, events: seq<Event>, m: Maths, margin: real)
    requires Laws(m) && Margin(margin) && cfg.isAbove
    requires forall i :: 0 <= i < |events| ==> MidInside(events[i].tick, margin)
    ensures Mirrored(Run(cfg, events, m), Run(cfg.(isAbove := false), FlipAll(events), m))
    ensures PriorInside(Run(cfg, events, m), margin)
  {
    hide Processed, Mirrored, Laws, Margin, MidInside, PriorInside;
    if events == [] {
      InitialMirrors(margin);
    } else {
      var n := |events| - 1;
      MirrorOverRuns(cfg, events[..n], m, margin);
      var flipped := FlipAll(events);
      assert flipped[..n] == FlipAll(events[..n]);
      assert flipped[n] == events[n].(tick := Flip(events[n].tick));
      TickMirrors(Run(cfg, events[..n], m), Run(cfg.(isAbove := false), flipped[..n], m), cfg, events[n], m, margin);
    }
  }

  lemma InitialMirrors(margin: real)
    requires Margin(margin)
    ensures Mirrored(INITIAL, INITIAL) && PriorInside(INITIAL, margin)
  {
  }

  // ---- Exactly when the mirror holds ----

  // An update is due, and its evidence falls under the guard.
  predicate GuardBites(e: Engine, cfg: MarketConfig, ev: Event, m: Maths) {
    Updates(e, cfg, ev.tick) &&
    Evidence(e.prior, Boosted(YesLikelihood(e, cfg, ev, cfg.isAbove, m), AuxLogAdj(e, cfg, ev), m.exp),
             YesLikelihood(e, cfg, ev, !cfg.isAbove, m)) < TINY
  }

  // The guard bites while this tick is processed.
  predicate Bites(e: Engine, cfg: MarketConfig, ev: Event, m: Maths) {
    match ev.tick.source
    case Coinbase => ev.tick.mid > 0.0 && e.prevCbMid > 0.0 && e.btcMid > 0.0 && GuardBites(e, cfg, ev, m)
    case Polymarket => false
    case Binance => ev.tick.mid > 0.0 && GuardBites(Priced(e, ev.tick, m), cfg, ev, m)
  }

  // One update in terms of the guarded posterior.
  lemma UpdatedIs(e: Engine, cfg: MarketConfig, ev: Event, m: Maths)
    requires Updates(e, cfg, ev.tick)
    ensures var yes := Boosted(YesLikelihood(e, cfg, ev, cfg.isAbove, m), AuxLogAdj(e, cfg, ev), m.exp);
            var no := YesLikelihood(e, cfg, ev, !cfg.isAbove, m);
            var post := Posterior(e.prior, yes, no);
            && (GuardBites(e, cfg, ev, m) <==> Evidence(e.prior, yes, no) < TINY)
            && (GuardBites(e, cfg, ev, m) ==> post == e.prior)
            && Updated(e, cfg, ev, m)
               == if GuardBites(e, cfg, ev, m) then e else e.(prior := post, shared := e.shared.(pTrue := post))
  {
    hide YesLikelihood, AuxLogAdj, Boosted, Evidence;
  }

  // The posteriors of the code: complementary exactly if both or neither guard bites.
  lemma BoostedComplementIff(prior: real, p: real, total: real, exp: real -> real)
    requires ExpLaws(exp) && -0.3 <= total <= 0.3 && 0.0 < prior < 1.0 && 0.0 <= p <= 1.0
    ensures var yes, no := Boosted(p, total, exp), Boosted(1.0 - p, -total, exp);
            (Posterior(1.0 - prior, no, p) == 1.0 - Posterior(prior, yes, 1.0 - p)) <==>
              (Evidence(prior, yes, 1.0 - p) < TINY <==> Evidence(1.0 - prior, no, p) < TINY)
  {
    hide Evidence, Posterior;
    BoostsReciprocal(total, exp);
    PosteriorsComplementIff(prior, p, exp(total), exp(-total), Boosted(p, total, exp),
                            Boosted(1.0 - p, -total, exp));
  }

  lemma UpdateMirrorsIff(a: Engine, b: Engine, cfg: MarketConfig, ev: Event, m: Maths)
    requires Laws(m) && cfg.isAbove && Mirrored(a, b) && Published(a)
    ensures Mirrored(Updated(a, cfg, ev, m), Updated(b, cfg.(isAbove := false), ev, m))
       <==> (GuardBites(a, cfg, ev, m) <==> GuardBites(b, cfg.(isAbove := false), ev, m))
  {
    hide Likelihood, AuxTotal, Evidence, Posterior, Boosted, ExpLaws, CdfLaws, SqrtLaws, TimeRemaining, Updated;
    SameTime(cfg, ev.tick);
    var below := cfg.(isAbove := false);
    if Updates(a, cfg, ev.tick) {
      var p := YesLikelihood(a, cfg, ev, true, m);
      LikelihoodsComplement(a.btcMid, cfg.strike, TimeRemaining(cfg, ev.tick), a.shared.vol,
                            ev.tick.obImbalance, true, m);
      assert YesLikelihood(b, below, ev, true, m) == p;
      assert YesLikelihood(b, below, ev, false, m) == 1.0 - p == YesLikelihood(a, cfg, ev, false, m);
      var total := AuxTotal(a.btcMid, a.prevCbMid, ev);
      AuxBounded(a.btcMid, a.prevCbMid, ev);
      assert AuxLogAdj(a, cfg, ev) == total && AuxLogAdj(b, below, ev) == -total;
      UpdatedIs(a, cfg, ev, m);
      UpdatedIs(b, below, ev, m);
      hide YesLikelihood, AuxLogAdj, GuardBites;
      BoostedComplementIff(a.prior, p, total, m.exp);
    } else {
      NoUpdate(a, cfg, ev, m);
      NoUpdate(b, below, ev, m);
    }
  }

  lemma NoUpdate(e: Engine, cfg: MarketConfig, ev: Event, m: Maths)
    requires !Updates(e, cfg, ev.tick)
    ensures Updated(e, cfg, ev, m) == e && !GuardBites(e, cfg, ev, m)
  {
  }

  lemma UpdateKeepsSpot(e: Engine, cfg: MarketConfig, ev: Event, m: Maths)
    ensures Updated(e, cfg, ev, m).prevCbMid == e.prevCbMid
  {
    hide YesLikelihood, AuxLogAdj, Boosted, Evidence, Posterior;
  }

  // One tick keeps the mirror exactly if the guard bites in both engines or in neither.
  lemma TickMirrorsIff(a: Engine, b: Engine, cfg: MarketConfig, ev: Event, m: Maths)
    requires Laws(m) && cfg.isAbove && Mirrored(a, b) && Published(a)
    ensures var below, flipped := cfg.(isAbove := false), ev.(tick := Flip(ev.tick));
            Mirrored(Processed(a, cfg, ev, m), Processed(b, below, flipped, m)) <==>
              (Bites(a, cfg, ev, m) <==> Bites(b, below, flipped, m))
  {
    hide Updated, GuardBites;
    match ev.tick.source
    case Coinbase =>
      UpdateMirrorsIff(a, b, cfg, ev, m);
      UpdateKeepsSpot(a, cfg, ev, m);
      UpdateKeepsSpot(b, cfg.(isAbove := false), ev, m);
      assert ev.(tick := Flip(ev.tick)) == ev;
    case Polymarket =>
    case Binance =>
      hide RollingVol.Updated, RollingVol.VolOf;
      UpdateMirrorsIff(Priced(a, ev.tick, m), Priced(b, ev.tick, m), cfg, ev, m);
  }

  // The two engines after the first n events, and whether the guard agrees in them at the next one.
  ghost predicate MirroredAt(cfg: MarketConfig, events: seq<Event>, m: Maths, n: nat)
    requires n <= |events|
  {
    Mirrored(Run(cfg, events[..n], m), Run(cfg.(isAbove := false), FlipAll(events[..n]), m))
  }

  ghost predicate GuardsAgreeAt(cfg: MarketConfig, events: seq<Event>, m: Maths, n: nat)
    requires n < |events|
  {
    Bites(Run(cfg, events[..n], m), cfg, events[n], m) <==>
      Bites(Run(cfg.(isAbove := false), FlipAll(events[..n]), m), cfg.(isAbove := false),
            events[n].(tick := Flip(events[n].tick)), m)
  }

  lemma MirrorStepIff(cfg: MarketConfig, events: seq<Event>, m: Maths, n: nat)
    requires Laws(m) && cfg.isAbove && n < |events| && MirroredAt(cfg, events, m, n)
    ensures MirroredAt(cfg, events, m, n + 1) <==> GuardsAgreeAt(cfg, events, m, n)
  {
    hide Processed, Mirrored, Laws, Bites, Run, Published;
    var below := cfg.(isAbove := false);
    var longer, flipped := events[..n + 1], FlipAll(events[..n + 1]);
    assert longer[..n] == events[..n] && flipped[..n] == FlipAll(events[..n]);
    assert flipped[n] == events[n].(tick := Flip(events[n].tick));
    PublishedInside(cfg, events[..n], m);
    RunStep(cfg, longer, m);
    RunStep(below, flipped, m);
    TickMirrorsIff(Run(cfg, events[..n], m), Run(below, flipped[..n], m), cfg, events[n], m);
  }

  // For every tick stream and every length, with no margin: the mirror holds at every point of the stream
  // exactly if at every tick the guard bites in both engines or in neither.
  lemma {:induction false} MirrorsIff(cfg: MarketConfig, events: seq<Event>, m: Maths, n: nat)
    requires Laws(m) && cfg.isAbove && n <= |events|
    ensures (forall k :: 0 <= k <= n ==> MirroredAt(cfg, events, m, k))
       <==> (forall k :: 0 <= k < n ==> GuardsAgreeAt(cfg, events, m, k))
  {
    hide MirroredAt, GuardsAgreeAt, Laws;
    if n == 0 {
      StartMirrors(cfg, events, m);
    } else {
      MirrorsIff(cfg, events, m, n - 1);
      if forall k :: 0 <= k <= n - 1 ==> MirroredAt(cfg, events, m, k) {
        MirrorStepIff(cfg, events, m, n - 1);
      }
    }
  }

  lemma StartMirrors(cfg: MarketConfig, events: seq<Event>, m: Maths)
    ensures MirroredAt(cfg, events, m, 0)
  {
    assert events[..0] == [] && FlipAll([]) == [];
  }

  // So the edge the "below" market sees is the negative of the "above" market's, and at most one of the
  // two can be positive.
  lemma EdgesOpposite(cfg: MarketConfig, events: seq<Event>, m: Maths, margin: real)
    requires Laws(m) && Margin(margin) && cfg.isAbove
    requires forall i :: 0 <= i < |events| ==> MidInside(events[i].tick, margin)
    ensures var a, b := Run(cfg, events, m).shared, Run(cfg.(isAbove := false), FlipAll(events), m).shared;
            b.pTrue - b.pMarket == -(a.pTrue - a.pMarket)
  {
    hide Run, FlipAll, MidInside, Laws;
    MirrorOverRuns(cfg, events, m, margin);
  }

  // Whatever the inputs, the published probability is inside the clamp (or the initial one half), and the
  // prior and the market probability lie strictly between zero and one.
  lemma {:induction false} PublishedInside(cfg: MarketConfig, events: seq<Event>, m: Maths)
    ensures Published(Run(cfg, events, m))
  {
    hide Run, Published, Processed;
    if events == [] {
      InitialPublished(cfg, m);
    } else {
      var n := |events| - 1;
      PublishedInside(cfg, events[..n], m);
      RunStep(cfg, events, m);
      PublishedStep(Run(cfg, events[..n], m), cfg, events[n], m);
    }
  }

  lemma InitialPublished(cfg: MarketConfig, m: Maths)
    ensures Run(cfg, [], m) == INITIAL && Published(INITIAL)
  {
  }

  lemma RunStep(cfg: MarketConfig, events: seq<Event>, m: Maths)
    requires events != []
    ensures Run(cfg, events, m) == Processed(Run(cfg, events[..|events| - 1], m), cfg, events[|events| - 1], m)
  {
  }

  ghost predicate Published(e: Engine) {
    0.01 <= e.shared.pTrue <= 0.99 && 0.0 < e.prior < 1.0 && 0.0 < e.shared.pMarket < 1.0
  }

  lemma UpdatePublishes(e: Engine, cfg: MarketConfig, ev: Event, m: Maths)
    requires Published(e)
    ensures Published(Updated(e, cfg, ev, m))
  {
    hide Likelihood, AuxTotal, Evidence;
  }

  lemma PublishedStep(e: Engine, cfg: MarketConfig, ev: Event, m: Maths)
    requires Published(e)
    ensures Published(Processed(e, cfg, ev, m))
  {
    hide Updated, RollingVol.Updated, RollingVol.VolOf;
    UpdatePublishes(e, cfg, ev, m);
    UpdatePublishes(Priced(e, ev.tick, m), cfg, ev, m);
  }

  // ---- What the engine has seen ----

  predicate IsQuote(t: Tick) { t.source == Polymarket && 0.0 < t.mid < 1.0 }

  // The latest positive price of a venue, or zero.
  function LastPrice(events: seq<Event>, venue: Source): real {
    if events == [] then 0.0
    else
      var t := events[|events| - 1].tick;
      if t.source == venue && t.mid > 0.0 then t.mid else LastPrice(events[..|events| - 1], venue)
  }

  function LastQuote(events: seq<Event>): Option<Tick> {
    if events == [] then None
    else if IsQuote(events[|events| - 1].tick) then Some(events[|events| - 1].tick)
    else LastQuote(events[..|events| - 1])
  }

  // The Binance prices, in order.
  function Samples(events: seq<Event>): seq<RollingVol.Sample> {
    if events == [] then []
    else
      var t := events[|events| - 1].tick;
      Samples(events[..|events| - 1])
      + if t.source == Binance && t.mid > 0.0 then [TimeWindow.Stamped(t.timestampUs, t.mid)] else []
  }

  // The engine shows the latest prices and quote, and the volatility and regime of the Binance window.
  ghost predicate Shows(e: Engine, events: seq<Event>, m: Maths) {
    && e.btcMid == LastPrice(events, Binance) == e.shared.btcMid
    && e.prevCbMid == LastPrice(events, Coinbase)
    && e.window == RollingVol.Run(Samples(events), m.log)
    && e.shared.vol == RollingVol.VolOf(e.window.entries, m.sqrt)
    && e.shared.regime == RollingVol.ClassifyRegime(e.shared.vol)
    && match LastQuote(events)
       case None => (e.shared.pMarket, e.shared.bestBid, e.shared.bestAsk) == (0.5, 0.5, 0.5)
       case Some(t) => (e.shared.pMarket, e.shared.bestBid, e.shared.bestAsk) == (t.mid, t.bestBid, t.bestAsk)
  }

  lemma UpdateKeepsShown(e: Engine, cfg: MarketConfig, ev: Event, m: Maths)
    ensures var u := Updated(e, cfg, ev, m);
            && u.btcMid == e.btcMid && u.prevCbMid == e.prevCbMid && u.window == e.window
            && u.lastResetUs == e.lastResetUs
            && u.shared == e.shared.(pTrue := u.shared.pTrue)
  {
    hide YesLikelihood, AuxLogAdj, Boosted, Evidence, Posterior;
  }

  lemma ShowsStep(e: Engine, cfg: MarketConfig, events: seq<Event>, ev: Event, m: Maths)
    requires Shows(e, events, m)
    ensures Shows(Processed(e, cfg, ev, m), events + [ev], m)
  {
    hide Updated, RollingVol.VolOf, RollingVol.Updated, RollingVol.ClassifyRegime, RollingVol.Run;
    var all := events + [ev];
    assert all[..|all| - 1] == events && all[|all| - 1] == ev;
    assert Samples(events) + [] == Samples(events);
    UpdateKeepsShown(e, cfg, ev, m);
    UpdateKeepsShown(Priced(e, ev.tick, m), cfg, ev, m);
    RollingVol.RunLast(Samples(events), TimeWindow.Stamped(ev.tick.timestampUs, ev.tick.mid), m.log);
  }

  lemma ShowsNothing(m: Maths)
    ensures Shows(INITIAL, [], m)
  {
    assert RollingVol.Run([], m.log) == RollingVol.EMPTY;
  }

  // Over every stream the engine shows exactly that.
  lemma {:induction false} StreamShown(cfg: MarketConfig, events: seq<Event>, m: Maths)
    ensures Shows(Run(cfg, events, m), events, m)
  {
    hide Shows, Processed;
    if events == [] {
      ShowsNothing(m);
    } else {
      var n := |events| - 1;
      StreamShown(cfg, events[..n], m);
      ShowsStep(Run(cfg, events[..n], m), cfg, events[..n], events[n], m);
      assert events[..n] + [events[n]] == events;
    }
  }

  // ---- When the prior is reset ----

  // The last reset among the first n events, by the events alone, or -1: the first quote resets, and then
  // each quote at least thirty seconds after the previous reset.
  function LastReset(events: seq<Event>, n: nat): (last: int)
    requires n <= |events|
    ensures -1 <= last < n
  {
    if n == 0 then -1
    else
      var last := LastReset(events, n - 1);
      if IsQuote(events[n - 1].tick)
         && (last < 0 || events[n - 1].tick.timestampUs - events[last].tick.timestampUs >= 30_000_000)
      then n - 1
      else last
  }

  function ResetUs(events: seq<Event>, n: nat): int
    requires n <= |events|
  {
    if LastReset(events, n) < 0 then 0 else events[LastReset(events, n)].tick.timestampUs
  }

  ghost predicate Timed(events: seq<Event>) { forall k :: 0 <= k < |events| ==> events[k].tick.timestampUs > 0 }

  lemma ResetStep(e: Engine, cfg: MarketConfig, events: seq<Event>, n: nat, m: Maths)
    requires n < |events| && Timed(events) && e.lastResetUs == ResetUs(events, n)
    ensures var f := Processed(e, cfg, events[n], m);
            && f.lastResetUs == ResetUs(events, n + 1)
            && (IsQuote(events[n].tick) ==>
                  f.prior == if LastReset(events, n + 1) == n then events[n].tick.mid else e.prior)
  {
    hide Updated, RollingVol.Updated, RollingVol.VolOf;
    UpdateKeepsShown(e, cfg, events[n], m);
    UpdateKeepsShown(Priced(e, events[n].tick, m), cfg, events[n], m);
  }

  // Over every stream with positive time stamps: the engine remembers the time of the last reset, a quote
  // that is a reset makes its mid the prior, and any other quote leaves the prior as it was.
  lemma {:induction false} ResetsExact(cfg: MarketConfig, events: seq<Event>, m: Maths, n: nat)
    requires n <= |events| && Timed(events)
    ensures Run(cfg, events[..n], m).lastResetUs == ResetUs(events, n)
    ensures n < |events| && IsQuote(events[n].tick) ==>
              Run(cfg, events[..n + 1], m).prior
              == if LastReset(events, n + 1) == n then events[n].tick.mid else Run(cfg, events[..n], m).prior
  {
    hide Processed, LastReset, Run;
    if n == 0 {
      NoResetYet(cfg, events, m);
    } else {
      ResetsExact(cfg, events, m, n - 1);
      ExtendRun(cfg, events, m, n - 1);
      ResetStep(Run(cfg, events[..n - 1], m), cfg, events, n - 1, m);
    }
    if n < |events| {
      ExtendRun(cfg, events, m, n);
      ResetStep(Run(cfg, events[..n], m), cfg, events, n, m);
    }
  }

  lemma NoResetYet(cfg: MarketConfig, events: seq<Event>, m: Maths)
    ensures Run(cfg, events[..0], m).lastResetUs == ResetUs(events, 0)
  {
    assert events[..0] == [];
  }

  lemma ExtendRun(cfg: MarketConfig, events: seq<Event>, m: Maths, n: nat)
    requires n < |events|
    ensures Run(cfg, events[..n + 1], m) == Processed(Run(cfg, events[..n], m), cfg, events[n], m)
  {
    var longer := events[..n + 1];
    assert longer[..n] == events[..n] && longer[n] == events[n];
    RunStep(cfg, longer, m);
  }

  // ---- Bayes' rule ----

  // The new prior q, from the probability p that this side wins and the factor its odds are boosted by:
  // posterior odds are prior odds times likelihood ratio times boost, clipped to [0.01, 0.99]; evidence
  // below 10^-10 leaves the prior.
  ghost predicate BayesStep(prior: real, p: real, boost: real, q: real) {
    var yes, no := prior * (p * boost), (1.0 - prior) * (1.0 - p);
    if yes + no < 0.0000000001 then q == prior
    else
      && (100.0 * yes < yes + no ==> q == 0.01)
      && (100.0 * no < yes + no ==> q == 0.99)
      && (yes + no <= 100.0 * yes && yes + no <= 100.0 * no ==> q * no == (1.0 - q) * yes)
  }

  lemma PosteriorIsBayes(prior: real, p: real, boost: real, yes: real)
    requires yes == p * boost
    ensures BayesStep(prior, p, boost, Posterior(prior, yes, 1.0 - p))
  {
    var a, b := prior * yes, (1.0 - prior) * (1.0 - p);
    var z := a + b;
    assert Evidence(prior, yes, 1.0 - p) == z;
    if z >= TINY {
      RatioClips(a, b, z);
    }
  }

  lemma RatioClips(a: real, b: real, z: real)
    requires z == a + b > 0.0
    ensures var r := a / z;
            && (100.0 * a < z <==> r < 0.01) && (100.0 * b < z <==> r > 0.99)
            && r * b == (1.0 - r) * a
  {
    var r := a / z;
    assert r * z == a;
    if r < 0.01 { AtMostProduct(r, 0.01, z, a); } else { AtLeastProduct(0.01, r, z, a); }
    if r > 0.99 { AtMostProduct(-r, -0.99, z, -a); } else { AtLeastProduct(-0.99, -r, z, -a); }
    assert r * b == r * (z - a) == a - r * a;
  }

  lemma AtMostProduct(a: real, hi: real, k: real, product: real)
    requires a < hi && 0.0 < k && product == a * k
    ensures product < hi * k
  {
    assert (hi - a) * k > 0.0;
  }

  lemma ScaleIs(seconds: real, vol: real, imbalance: real, m: Maths)
    requires SqrtLaws(m.sqrt) && seconds > 0.0 && vol > 0.0
    ensures ScaledVol(seconds, vol, imbalance, m.sqrt) == vol * (1.0 + 0.3 * Abs(imbalance)) * m.sqrt(seconds / 300.0)
    ensures ScaledVol(seconds, vol, imbalance, m.sqrt) > 0.0
  {
    assert m.sqrt(seconds / 300.0) > 0.0;
    PositiveProduct(vol, 1.0 + 0.3 * Abs(imbalance), vol * (1.0 + 0.3 * Abs(imbalance)));
    PositiveProduct(vol * (1.0 + 0.3 * Abs(imbalance)), m.sqrt(seconds / 300.0),
                    ScaledVol(seconds, vol, imbalance, m.sqrt));
  }

  // The likelihood of ending above the strike is the distribution at the standardised distance d: the gap
  // to the strike over the strike times the volatility, scaled up by three tenths of the book imbalance and
  // by the root of the time left over five minutes. Of ending below, it is the rest.
  lemma LikelihoodIs(btc: real, strike: real, seconds: real, vol: real, imbalance: real, m: Maths)
    returns (d: real)
    requires SqrtLaws(m.sqrt) && strike > 0.0 && seconds > 0.0 && vol > 0.0
    ensures d * (strike * (vol * (1.0 + 0.3 * Abs(imbalance)) * m.sqrt(seconds / 300.0))) == btc - strike
    ensures Likelihood(btc, strike, seconds, vol, imbalance, true, m) == m.cdf(d)
    ensures Likelihood(btc, strike, seconds, vol, imbalance, false, m) == 1.0 - m.cdf(d)
  {
    ScaleIs(seconds, vol, imbalance, m);
    hide ScaledVol, SqrtLaws;
    d := Distance(btc, strike, ScaledVol(seconds, vol, imbalance, m.sqrt));
  }

  predicate Clipped(x: real, y: real) { y == if x > 0.1 then 0.1 else if x < -0.1 then -0.1 else x }

  // The three auxiliary terms, each clipped to a tenth: funding at a hundred to one, a tenth of the book
  // imbalance, and the lead of Binance over the last Coinbase price at a hundred to one.
  lemma AuxIs(btcMid: real, prevCbMid: real, ev: Event) returns (funding: real, book: real, lead: real)
    ensures AuxTotal(btcMid, prevCbMid, ev) == funding + book + lead
    ensures Clipped(100.0 * ev.fundingRate, funding) && Clipped(0.1 * ev.tick.obImbalance, book)
    ensures prevCbMid > 0.0 && btcMid > 0.0 ==> Clipped(100.0 * ((btcMid - prevCbMid) / prevCbMid), lead)
    ensures !(prevCbMid > 0.0 && btcMid > 0.0) ==> lead == 0.0
  {
    funding := Clamp(ev.fundingRate * 100.0, -MAX_AUX, MAX_AUX);
    book := Clamp(ev.tick.obImbalance * MAX_AUX, -MAX_AUX, MAX_AUX);
    lead := AuxTotal(btcMid, prevCbMid, ev) - funding - book;
  }

  // An update is due exactly with prices, a strike, volatility and time; it makes the prior and the published
  // probability follow Bayes' rule for the side the market pays on, and changes nothing else.
  lemma UpdateIsBayes(e: Engine, cfg: MarketConfig, ev: Event, m: Maths) returns (d: real)
    requires SqrtLaws(m.sqrt)
    ensures var u := Updated(e, cfg, ev, m);
            var seconds := (cfg.resolutionUs - ev.tick.timestampUs) as real / 1000000.0;
            var aux := AuxTotal(e.btcMid, e.prevCbMid, ev);
            var scale := e.shared.vol * (1.0 + 0.3 * Abs(ev.tick.obImbalance)) * m.sqrt(seconds / 300.0);
            if e.btcMid > 0.0 && cfg.strike > 0.0 && e.shared.vol > 0.0 && seconds > 0.0 then
              && d * (cfg.strike * scale) == e.btcMid - cfg.strike
              && BayesStep(e.prior, if cfg.isAbove then m.cdf(d) else 1.0 - m.cdf(d),
                           m.exp(if cfg.isAbove then aux else -aux), u.prior)
              && (u == e || u == e.(prior := u.prior, shared := e.shared.(pTrue := u.prior)))
              && (u.prior != e.prior ==> u.shared.pTrue == u.prior)
            else u == e
  {
    hide Likelihood, AuxTotal, Evidence, Posterior, BayesStep, SqrtLaws;
    var seconds := (cfg.resolutionUs - ev.tick.timestampUs) as real / 1000000.0;
    assert TimeRemaining(cfg, ev.tick) == seconds;
    d := 0.0;
    if Updates(e, cfg, ev.tick) {
      d := LikelihoodIs(e.btcMid, cfg.strike, seconds, e.shared.vol, ev.tick.obImbalance, m);
      UpdatedIs(e, cfg, ev, m);
      var p := YesLikelihood(e, cfg, ev, cfg.isAbove, m);
      PosteriorIsBayes(e.prior, p, m.exp(AuxLogAdj(e, cfg, ev)), Boosted(p, AuxLogAdj(e, cfg, ev), m.exp));
    }
  }

  // Which ticks update: a Binance price, on the window and price it brings; a Coinbase price once both
  // venues have been seen, against the Coinbase price before it. A quote never does.
  lemma TickUpdates(e: Engine, cfg: MarketConfig, ev: Event, m: Maths)
    ensures var f, t := Processed(e, cfg, ev, m), ev.tick;
            && (t.source == Binance && t.mid > 0.0 ==>
                  f == Updated(Priced(e, t, m), cfg, ev, m) && Priced(e, t, m).prior == e.prior)
            && (t.source == Coinbase && t.mid > 0.0 && e.prevCbMid > 0.0 && e.btcMid > 0.0 ==>
                  f == Updated(e, cfg, ev, m).(prevCbMid := t.mid))
            && (t.source == Coinbase && (e.prevCbMid <= 0.0 || e.btcMid <= 0.0) ==>
                  f.prior == e.prior && f.shared == e.shared)
            && (t.source == Polymarket ==> f.shared.pTrue == e.shared.pTrue)
            && (t.source != Polymarket && t.mid <= 0.0 ==> f == e)
  {
    hide Updated, RollingVol.Updated, RollingVol.VolOf;
  }

  // The engine object: process_tick and run_bayesian_update as written, with the rolling window as a
  // separate object it owns.
  class SignalEngine {
    const cfg: MarketConfig
    const m: Maths
    const volState: RollingVol.RollingVolState
    var prior: real
    var btcMid: real
    var prevCbMid: real
    var lastResetUs: int
    var shared: Shared

    ghost predicate Valid()
      reads this, volState, volState.buf
    {
      volState.Valid()
    }

    ghost function Model(): Engine
      reads this, volState, volState.buf
      requires Valid()
    {
      Engine(prior, btcMid, prevCbMid, lastResetUs, volState.Model(), shared)
    }

    constructor (cfg: MarketConfig, m: Maths)
      ensures Valid() && fresh(volState) && fresh(volState.buf)
      ensures this.cfg == cfg && this.m == m && Model() == INITIAL
    {
      this.cfg, this.m := cfg, m;
      prior, btcMid, prevCbMid, lastResetUs := 0.5, 0.0, 0.0, 0;
      shared := Shared(0.5, 0.5, 0.0, 0.0, RollingVol.Sideways, 0.5, 0.5);
      var window := new RollingVol.RollingVolState();
      volState := window;
    }

    method ProcessTick(ev: Event)
      requires Valid()
      modifies this, volState, volState.buf
      ensures Valid() && Model() == Processed(old(Model()), cfg, ev, m)
    {
      hide Updated, RollingVol.Updated, RollingVol.VolOf;
      var tick := ev.tick;
      if tick.source == Coinbase {
        if tick.mid > 0.0 {
          if prevCbMid > 0.0 && btcMid > 0.0 {
            RunBayesianUpdate(ev);
          }
          prevCbMid := tick.mid;
        }
        return;
      }
      if tick.source == Polymarket {
        if 0.0 < tick.mid && tick.mid < 1.0 {
          shared := shared.(pMarket := tick.mid, bestBid := tick.bestBid, bestAsk := tick.bestAsk);
          var firstReset := lastResetUs == 0;
          var intervalElapsed := tick.timestampUs - lastResetUs >= PRIOR_RESET_US;
          if firstReset || intervalElapsed {
            prior := tick.mid;
            lastResetUs := tick.timestampUs;
          }
        }
        return;
      }
      if tick.mid > 0.0 {
        btcMid := tick.mid;
        volState.Update(tick.timestampUs, tick.mid, m.log);
        var vol := volState.RealizedVol(m.sqrt);
        shared := shared.(btcMid := tick.mid, vol := vol, regime := RollingVol.ClassifyRegime(vol));
        RunBayesianUpdate(ev);
      }
    }

    method RunBayesianUpdate(ev: Event)
      requires Valid()
      modifies this
      ensures Valid() && Model() == Updated(old(Model()), cfg, ev, m)
    {
      hide Likelihood, AuxTotal, Boosted, Evidence, Posterior, RollingVol.Updated, RollingVol.VolOf;
      if btcMid <= 0.0 || cfg.strike <= 0.0 { return; }
      var vol := shared.vol;
      if vol <= 0.0 { return; }
      var timeRemaining := TimeRemaining(cfg, ev.tick);
      if timeRemaining <= 0.0 { return; }
      var likeYes := Likelihood(btcMid, cfg.strike, timeRemaining, vol, ev.tick.obImbalance, cfg.isAbove, m);
      var likeNo := Likelihood(btcMid, cfg.strike, timeRemaining, vol, ev.tick.obImbalance, !cfg.isAbove, m);
      var total := AuxTotal(btcMid, prevCbMid, ev);
      var boosted := Boosted(likeYes, if cfg.isAbove then total else -total, m.exp);
      if Evidence(prior, boosted, likeNo) < TINY { return; }
      var post := Posterior(prior, boosted, likeNo);
      prior := post;
      shared := shared.(pTrue := post);
    }
  }
}
