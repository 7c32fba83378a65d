/**
 The backtest (tools/bt_runner/main.cpp): five-minute windows cut from a sorted tick stream, each replayed
 through the production engine and position manager with simulated taker fills.
 */
module Replay {
  import opened Amounts
  import opened RealMath
  import opened Ticks
  import opened Wrappers
  import BayesianEngine
  import PM = PositionManager
  import RollingVol
  import Sizing

  const FILL_LATENCY_US := 5_000
  const MARKET_DURATION_US := 300_000_000
  const WARMUP_US := 120_000_000

  datatype Market = Market(openUs: int, resolutionUs: int, strike: real, isAbove: bool)

  datatype Trade = Trade(entryUs: int, exitUs: int, isAbove: bool, entryPrice: real, exitPrice: real,
                         shares: real, hedgeEntryBtc: real, hedgeExitBtc: real, hedgeQty: real,
                         pnl: real, predictedEdge: real, expired: bool)

  // The entry variables that are meaningful while a position is open.
  datatype Entry = Entry(price: real, hedgeBtc: real, hedgeQty: real, shares: real, edge: real, us: int)

  // What an entry costs: the exposure it adds.
  function Spent(e: Entry): real { e.shares * e.price }

  const NO_ENTRY := Entry(0.0, 0.0, 0.0, 0.0, 0.0, 0)

  ghost predicate SortedTicks(ticks: seq<Tick>) {
    forall i, j :: 0 <= i < j < |ticks| ==> ticks[i].timestampUs <= ticks[j].timestampUs
  }

  // ---- Binary searches ----

  method FirstAtOrAfter(ticks: seq<Tick>, us: int) returns (lo: nat)
    requires SortedTicks(ticks)
    ensures lo <= |ticks|
    ensures forall i :: 0 <= i < lo ==> ticks[i].timestampUs < us
    ensures forall i :: lo <= i < |ticks| ==> ticks[i].timestampUs >= us
  {
    lo := 0;
    var hi := |ticks|;
    while lo < hi
      invariant lo <= hi <= |ticks|
      invariant forall i :: 0 <= i < lo ==> ticks[i].timestampUs < us
      invariant forall i :: hi <= i < |ticks| ==> ticks[i].timestampUs >= us
    {
      var mid := (lo + hi) / 2;
      if ticks[mid].timestampUs < us { lo := mid + 1; } else { hi := mid; }
    }
  }

  method FirstAfter(ticks: seq<Tick>, from: nat, us: int) returns (lo: nat)
    requires SortedTicks(ticks) && from <= |ticks|
    ensures from <= lo <= |ticks|
    ensures forall i :: from <= i < lo ==> ticks[i].timestampUs <= us
    ensures forall i :: lo <= i < |ticks| ==> ticks[i].timestampUs > us
  {
    lo := from;
    var hi := |ticks|;
    while lo < hi
      invariant from <= lo <= hi <= |ticks|
      invariant forall i :: from <= i < lo ==> ticks[i].timestampUs <= us
      invariant forall i :: hi <= i < |ticks| ==> ticks[i].timestampUs > us
    {
      var mid := (lo + hi) / 2;
      if ticks[mid].timestampUs <= us { lo := mid + 1; } else { hi := mid; }
    }
  }

  // ---- Market detection ----

  predicate Priced(t: Tick) { t.source == Binance && t.mid > 0.0 }

  // The latest positive Binance mid among the first n ticks, or zero.
  function LastMid(ticks: seq<Tick>, n: nat): real
    requires n <= |ticks|
  {
    if n == 0 then 0.0 else if Priced(ticks[n - 1]) then ticks[n - 1].mid else LastMid(ticks, n - 1)
  }

  // The k-th pair of markets of a stream whose first boundary is at the given time; upTo counts the ticks
  // stamped no later than the pair's opening.
  ghost predicate PairAt(out: seq<Market>, k: nat, ticks: seq<Tick>, firstUs: int, upTo: nat)
    requires 2 * k + 1 < |out| && upTo <= |ticks|
  {
    var openUs := firstUs + k * 300_000_000;
    && (forall i :: 0 <= i < |ticks| ==> (i < upTo <==> ticks[i].timestampUs <= openUs))
    && LastMid(ticks, upTo) > 0.0
    && out[2 * k] == Market(openUs, openUs + 300_000_000, LastMid(ticks, upTo), true)
    && out[2 * k + 1] == out[2 * k].(isAbove := false)
  }

  lemma {:induction false} LastMidPositive(ticks: seq<Tick>, n: nat, i: nat)
    requires i < n <= |ticks| && Priced(ticks[i])
    ensures LastMid(ticks, n) > 0.0
  {
    if !Priced(ticks[n - 1]) { LastMidPositive(ticks, n - 1, i); }
  }

  // first and last are the time stamps of the first and last priced ticks.
  ghost predicate Spans(ticks: seq<Tick>, first: int, last: int) {
    && (exists i :: 0 <= i < |ticks| && Priced(ticks[i]) && ticks[i].timestampUs == first)
    && (exists i :: 0 <= i < |ticks| && Priced(ticks[i]) && ticks[i].timestampUs == last)
    && (forall i :: 0 <= i < |ticks| && Priced(ticks[i]) ==> first <= ticks[i].timestampUs <= last)
  }

  method PricedSpan(ticks: seq<Tick>) returns (first: int, last: int)
    requires SortedTicks(ticks) && forall i :: 0 <= i < |ticks| ==> ticks[i].timestampUs > 0
    ensures first == 0 <==> forall i :: 0 <= i < |ticks| ==> !Priced(ticks[i])
    ensures first != 0 ==> Spans(ticks, first, last)
  {
    first, last := 0, 0;
    for n := 0 to |ticks|
      invariant first == 0 <==> forall i :: 0 <= i < n ==> !Priced(ticks[i])
      invariant first != 0 ==> Spans(ticks[..n], first, last)
    {
      if Priced(ticks[n]) {
        assert ticks[..n + 1][n] == ticks[n];
        if first == 0 { first := ticks[n].timestampUs; }
        last := ticks[n].timestampUs;
      }
      assert forall i :: 0 <= i < n ==> ticks[..n + 1][i] == ticks[..n][i];
    }
    assert ticks[..|ticks|] == ticks;
  }

  lemma PairStays(out: seq<Market>, more: seq<Market>, k: nat, ticks: seq<Tick>, firstUs: int, upTo: nat)
    requires 2 * k + 1 < |out| && upTo <= |ticks| && PairAt(out, k, ticks, firstUs, upTo)
    ensures PairAt(out + more, k, ticks, firstUs, upTo)
  {
  }

  lemma PairAdded(out: seq<Market>, k: nat, ticks: seq<Tick>, firstUs: int, upTo: nat, openUs: int)
    requires |out| == 2 * k && upTo <= |ticks| && openUs == firstUs + k * MARKET_DURATION_US
    requires forall i :: 0 <= i < |ticks| ==> (i < upTo <==> ticks[i].timestampUs <= openUs)
    requires LastMid(ticks, upTo) > 0.0
    ensures PairAt(out + [Market(openUs, openUs + MARKET_DURATION_US, LastMid(ticks, upTo), true),
                          Market(openUs, openUs + MARKET_DURATION_US, LastMid(ticks, upTo), false)],
                   k, ticks, firstUs, upTo)
  {
  }

  // The markets found: n pairs, the first opening at the first five-minute boundary after the first priced
  // tick, every window ending by the last priced tick and no further window doing so.
  ghost predicate Detected(out: seq<Market>, ticks: seq<Tick>, firstUs: int, upTo: seq<nat>) {
    && |out| == 2 * |upTo|
    && (forall k :: 0 <= k < |upTo| ==> upTo[k] <= |ticks| && PairAt(out, k, ticks, firstUs, upTo[k]))
  }

  // One above and one below market per five-minute boundary, each struck at the last price at or before
  // its opening.
  method DetectMarkets(ticks: seq<Tick>) returns (out: seq<Market>, ghost firstUs: int, ghost upTo: seq<nat>)
    requires SortedTicks(ticks) && forall i :: 0 <= i < |ticks| ==> ticks[i].timestampUs > 0
    ensures Detected(out, ticks, firstUs, upTo)
    ensures (forall i :: 0 <= i < |ticks| ==> !Priced(ticks[i])) ==> out == []
    ensures (exists i :: 0 <= i < |ticks| && Priced(ticks[i])) ==>
              exists first, last :: Spans(ticks, first, last)
                && firstUs % 300_000_000 == 0 && firstUs - 300_000_000 <= first < firstUs
                && (|upTo| > 0 ==> firstUs + |upTo| * 300_000_000 <= last)
                && last < firstUs + (|upTo| + 1) * 300_000_000
  {
    hide Spans, PairAt, LastMid;
    out, upTo, firstUs := [], [], 0;
    var tFirst, tLast := PricedSpan(ticks);
    if tFirst == 0 { return; }
    var boundary := (tFirst / MARKET_DURATION_US + 1) * MARKET_DURATION_US;
    firstUs := boundary;
    ghost var first := FirstPriced(ticks, tFirst, tLast);
    var lastBtc, cur := 0.0, 0;
    NoMidYet(ticks);
    while boundary + MARKET_DURATION_US <= tLast
      invariant cur <= |ticks| && lastBtc == LastMid(ticks, cur)
      invariant boundary == firstUs + |upTo| * MARKET_DURATION_US
      invariant |upTo| > 0 ==> boundary <= tLast
      invariant forall i :: 0 <= i < cur ==> ticks[i].timestampUs <= boundary
      invariant Detected(out, ticks, firstUs, upTo)
      decreases tLast - boundary
    {
      while cur < |ticks| && ticks[cur].timestampUs <= boundary
        invariant cur <= |ticks| && lastBtc == LastMid(ticks, cur)
        invariant forall i :: 0 <= i < cur ==> ticks[i].timestampUs <= boundary
      {
        MidStep(ticks, cur);
        if Priced(ticks[cur]) { lastBtc := ticks[cur].mid; }
        cur := cur + 1;
      }
      LastMidPositive(ticks, cur, first);
      if lastBtc > 0.0 {
        ghost var pair := [Market(boundary, boundary + MARKET_DURATION_US, lastBtc, true),
                           Market(boundary, boundary + MARKET_DURATION_US, lastBtc, false)];
        PairAdded(out, |upTo|, ticks, firstUs, cur, boundary);
        forall k | 0 <= k < |upTo| ensures PairAt(out + pair, k, ticks, firstUs, upTo[k]) {
          PairStays(out, pair, k, ticks, firstUs, upTo[k]);
        }
        ghost var all := out + pair;
        out := out + [Market(boundary, boundary + MARKET_DURATION_US, lastBtc, true)];
        out := out + [Market(boundary, boundary + MARKET_DURATION_US, lastBtc, false)];
        assert out == all;
        upTo := upTo + [cur];
      }
      boundary := boundary + MARKET_DURATION_US;
    }
  }

  lemma FirstPriced(ticks: seq<Tick>, first: int, last: int) returns (i: nat)
    requires Spans(ticks, first, last)
    ensures i < |ticks| && Priced(ticks[i]) && ticks[i].timestampUs == first
  {
    i :| i < |ticks| && Priced(ticks[i]) && ticks[i].timestampUs == first;
  }

  lemma NoMidYet(ticks: seq<Tick>)
    ensures LastMid(ticks, 0) == 0.0
  {
  }

  lemma MidStep(ticks: seq<Tick>, n: nat)
    requires n < |ticks|
    ensures LastMid(ticks, n + 1) == if Priced(ticks[n]) then ticks[n].mid else LastMid(ticks, n)
  {
  }

  // ---- One market ----

  // A below market sees quotes flipped.
  function Fed(mkt: Market, t: Tick): Tick {
    if mkt.isAbove then t else BayesianEngine.Flip(t)
  }

  function Remaining(mkt: Market, t: Tick): real {
    (mkt.resolutionUs as real - t.timestampUs as real) / 1000000.0
  }

  function MinEdge(s: BayesianEngine.Shared): real {
    var half := if s.bestAsk > s.bestBid && s.bestAsk - s.bestBid < 1.0 then (s.bestAsk - s.bestBid) / 2.0 else 0.005;
    (0.02 + half * 100.0 + 0.10 + 0.75) / 100.0
  }

  // The gates between a clock that allows an entry and the simulated fill.
  function Sized(s: BayesianEngine.Shared, bankroll: real, exposure: real): Option<(PM.EntryData, real)>
    requires s.pMarket < 1.0
  {
    var edge := s.pTrue - s.pMarket;
    if s.pTrue <= 0.0 || s.pMarket <= 0.0 || s.btcMid <= 0.0 || edge < MinEdge(s) then None
    else
      var bk := FromDouble(bankroll);
      var size := Sizing.KellySize(s.pTrue, s.pMarket, bk, FromDouble(exposure));
      if size < 1_000_000 then None
      else
        var qty := Sizing.HedgeQty(size, s.btcMid, bk);
        if qty < 0.001 || s.bestAsk <= 0.0 || s.bestAsk >= 1.0 then None
        else
          Some((PM.EntryData(s.bestAsk, ToDouble(size) / s.bestAsk, s.btcMid, qty,
                             EdgeValue(edge, ToDouble(size)), "", "", true), edge))
  }

  function EdgeValue(edge: real, cost: real): Amount { FromDouble(edge * cost) }

  lemma SizedFacts(s: BayesianEngine.Shared, bankroll: real, exposure: real)
    requires s.pMarket < 1.0 && Sized(s, bankroll, exposure).Some?
    ensures var (d, _) := Sized(s, bankroll, exposure).value; PM.Cost(d) >= 1.0 && d.initialEdge >= 0
  {
    hide Sizing.KellySize, Sizing.HedgeQty, MinEdge;
    var size := Sizing.KellySize(s.pTrue, s.pMarket, FromDouble(bankroll), FromDouble(exposure));
    assert ToDouble(size) >= 1.0;
    assert ToDouble(size) / s.bestAsk * s.bestAsk == ToDouble(size);
    var edge := s.pTrue - s.pMarket;
    EdgePositive(s);
    PositiveProduct(edge, ToDouble(size), edge * ToDouble(size));
    FromDoubleAtLeast(edge * ToDouble(size), 0);
  }

  lemma EdgePositive(s: BayesianEngine.Shared)
    ensures MinEdge(s) > 0.0
  {
  }

  function TradePnl(t: Trade): real {
    (t.exitPrice - t.entryPrice) * t.shares + (t.hedgeEntryBtc - t.hedgeExitBtc) * t.hedgeQty
  }

  function TotalPnl(trades: seq<Trade>): real {
    if trades == [] then 0.0 else TotalPnl(trades[..|trades| - 1]) + trades[|trades| - 1].pnl
  }

  function Closing(mkt: Market, e: Entry, exitBid: real, btcExit: real, exitUs: int, expired: bool): Trade {
    Trade(e.us, exitUs, mkt.isAbove, e.price, exitBid, e.shares, e.hedgeBtc, btcExit, e.hedgeQty,
          (exitBid - e.price) * e.shares + (e.hedgeBtc - btcExit) * e.hedgeQty, e.edge, expired)
  }

  // The run a replay is about; only specifications look at it.
  datatype Context = Context(mkt: Market, ticks: seq<Tick>, m: Maths, bankroll0: real, exposure0: real)

  function Config(mkt: Market): BayesianEngine.MarketConfig {
    BayesianEngine.MarketConfig(mkt.strike, mkt.resolutionUs, mkt.isAbove)
  }

  // The backtest has no funding feed.
  function Event(mkt: Market, t: Tick): BayesianEngine.Event {
    BayesianEngine.Event(Fed(mkt, t), 0.0)
  }

  function Events(mkt: Market, ticks: seq<Tick>): (r: seq<BayesianEngine.Event>)
    ensures |r| == |ticks|
  {
    seq(|ticks|, i requires 0 <= i < |ticks| => Event(mkt, ticks[i]))
  }

  // What the engine publishes once it has seen the first n ticks.
  function Published(c: Context, n: nat): BayesianEngine.Shared
    requires n <= |c.ticks|
  {
    BayesianEngine.Run(Config(c.mkt), Events(c.mkt, c.ticks[..n]), c.m).shared
  }

  // Entered at tick a with the given bankroll: at the published ask and Bitcoin price, for the Kelly size
  // and hedge of the published probabilities, between the opening and two minutes before resolution, on a
  // Binance tick outside the spike regime.
  ghost predicate EnteredAt(c: Context, a: nat, bankroll: real, e: Entry) {
    && a < |c.ticks|
    && c.mkt.openUs <= c.ticks[a].timestampUs < c.mkt.resolutionUs - 120_000_000
    && e.us == c.ticks[a].timestampUs + 5_000
    && c.ticks[a].source == Binance && Published(c, a + 1).regime != RollingVol.Spike
    && SizedBy(Published(c, a + 1), bankroll, c.exposure0, e)
  }

  ghost predicate SizedBy(s: BayesianEngine.Shared, bankroll: real, exposure: real, e: Entry) {
    && s.pMarket < 1.0
    && e.price == s.bestAsk && e.hedgeBtc == s.btcMid && e.edge == s.pTrue - s.pMarket >= MinEdge(s)
    && var size := Sizing.KellySize(s.pTrue, s.pMarket, FromDouble(bankroll), FromDouble(exposure));
       && size >= 1_000_000
       && Spent(e) == ToDouble(size)
       && e.hedgeQty == Sizing.HedgeQty(size, s.btcMid, FromDouble(bankroll))
  }

  // The position an entry opens.
  function Data(e: Entry): PM.EntryData {
    PM.EntryData(e.price, e.shares, e.hedgeBtc, e.hedgeQty, EdgeValue(e.edge, Spent(e)), "", "", true)
  }

  // At tick j an open position is kept: more than thirty seconds are left and its own verdict is to hold.
  ghost predicate Keeps(c: Context, e: Entry, j: nat)
    requires j < |c.ticks|
  {
    && Remaining(c.mkt, c.ticks[j]) > 30.0
    && PM.Evaluated(PM.Opened(Data(e)), Published(c, j + 1)).1 == PM.NoExit
  }

  ghost predicate Held(c: Context, e: Entry, from: nat, to: nat) {
    to <= |c.ticks| && forall j :: from <= j < to ==> Keeps(c, e, j)
  }

  // Entered at tick a, the position was kept up to tick b; there it is past resolution or the stream ends
  // with it kept, or else it is the first time that it is not kept.
  ghost predicate ClosedWhenDue(c: Context, e: Entry, a: nat, b: nat, expired: bool) {
    && b < |c.ticks| && Held(c, e, a + 1, b)
    && if expired
       then Remaining(c.mkt, c.ticks[b]) <= 0.0 || (b == |c.ticks| - 1 && Held(c, e, a + 1, b + 1))
       else Remaining(c.mkt, c.ticks[b]) > 0.0 && !Keeps(c, e, b)
  }

  predicate CooledDown(nowUs: int, lastUs: int) {
    (nowUs - lastUs) as real / 1000000.0 >= 30.0
  }

  // An entry is allowed at tick i with the given bankroll and last entry time.
  ghost predicate Allowed(c: Context, i: nat, bankroll: real, lastUs: int)
    requires i < |c.ticks|
  {
    var t, s := c.ticks[i], Published(c, i + 1);
    && t.source == Binance && t.timestampUs >= c.mkt.openUs && Remaining(c.mkt, t) > 120.0
    && s.regime != RollingVol.Spike && (lastUs <= 0 || CooledDown(t.timestampUs, lastUs))
    && s.pMarket < 1.0 && Sized(s, bankroll, c.exposure0).Some?
  }

  ghost predicate Waited(c: Context, from: nat, to: nat, bankroll: real, lastUs: int) {
    to <= |c.ticks| && forall j :: from <= j < to ==> !Allowed(c, j, bankroll, lastUs)
  }

  // The first tick after the exits, and the time of the last of the entries.
  function NextTick(exits: seq<nat>): nat { if exits == [] then 0 else exits[|exits| - 1] + 1 }

  function LastUs(ticks: seq<Tick>, entries: seq<nat>): int
    requires forall k :: 0 <= k < |entries| ==> entries[k] < |ticks|
  {
    if entries == [] then 0 else ticks[entries[|entries| - 1]].timestampUs
  }

  // Tick i is the first after the given exits at which an entry is allowed.
  ghost predicate FirstAllowed(c: Context, i: nat, bankroll: real, entries: seq<nat>, exits: seq<nat>)
    requires forall k :: 0 <= k < |entries| ==> entries[k] < |c.ticks|
  {
    && NextTick(exits) <= i < |c.ticks|
    && Waited(c, NextTick(exits), i, bankroll, LastUs(c.ticks, entries))
    && Allowed(c, i, bankroll, LastUs(c.ticks, entries))
  }

  // Every entry was taken at the first tick that allowed it.
  ghost predicate PromptAt(c: Context, trades: seq<Trade>, entries: seq<nat>, exits: seq<nat>, k: nat)
    requires forall k :: 0 <= k < |entries| ==> entries[k] < |c.ticks|
    requires k < |entries| && k <= |trades| && k <= |exits|
  {
    FirstAllowed(c, entries[k], c.bankroll0 + TotalPnl(trades[..k]), entries[..k], exits[..k])
  }

  ghost predicate Prompt(c: Context, trades: seq<Trade>, entries: seq<nat>, exits: seq<nat>)
    requires forall k :: 0 <= k < |entries| ==> entries[k] < |c.ticks|
  {
    && |exits| == |trades| <= |entries| <= |trades| + 1
    && forall k :: 0 <= k < |entries| ==> PromptAt(c, trades, entries, exits, k)
  }

  // Whether an entry was prompt depends only on what came before it.
  lemma PromptKept(c: Context, trades: seq<Trade>, entries: seq<nat>, exits: seq<nat>,
                   trades': seq<Trade>, entries': seq<nat>, exits': seq<nat>, k: nat)
    requires forall k :: 0 <= k < |entries| ==> entries[k] < |c.ticks|
    requires forall k :: 0 <= k < |entries'| ==> entries'[k] < |c.ticks|
    requires trades <= trades' && entries <= entries' && exits <= exits'
    requires k < |entries| && k <= |trades| && k <= |exits| && PromptAt(c, trades, entries, exits, k)
    ensures PromptAt(c, trades', entries', exits', k)
  {
    hide FirstAllowed, TotalPnl;
    assert trades'[..k] == trades[..k] && entries'[..k] == entries[..k] && exits'[..k] == exits[..k];
  }

  lemma PromptLast(c: Context, trades: seq<Trade>, entries: seq<nat>, exits: seq<nat>, a: nat)
    requires forall k :: 0 <= k < |entries| ==> entries[k] < |c.ticks|
    requires |exits| == |trades| == |entries| && a < |c.ticks|
    requires FirstAllowed(c, a, c.bankroll0 + TotalPnl(trades), entries, exits)
    ensures PromptAt(c, trades, entries + [a], exits, |entries|)
  {
    hide FirstAllowed, TotalPnl;
    var k := |entries|;
    assert (entries + [a])[..k] == entries && exits[..k] == exits && trades[..k] == trades;
  }

  lemma PromptEntry(c: Context, trades: seq<Trade>, entries: seq<nat>, exits: seq<nat>, a: nat)
    requires forall k :: 0 <= k < |entries| ==> entries[k] < |c.ticks|
    requires Prompt(c, trades, entries, exits) && |entries| == |trades| && a < |c.ticks|
    requires FirstAllowed(c, a, c.bankroll0 + TotalPnl(trades), entries, exits)
    ensures Prompt(c, trades, entries + [a], exits)
  {
    hide FirstAllowed, TotalPnl, PromptAt;
    PromptLast(c, trades, entries, exits, a);
    forall k | 0 <= k < |entries|
      ensures PromptAt(c, trades, entries + [a], exits, k)
    {
      PromptKept(c, trades, entries, exits, trades, entries + [a], exits, k);
    }
  }

  lemma PromptClose(c: Context, trades: seq<Trade>, entries: seq<nat>, exits: seq<nat>, t: Trade, b: nat)
    requires forall k :: 0 <= k < |entries| ==> entries[k] < |c.ticks|
    requires Prompt(c, trades, entries, exits) && |entries| == |trades| + 1
    ensures Prompt(c, trades + [t], entries, exits + [b])
  {
    hide FirstAllowed, TotalPnl, PromptAt;
    forall k | 0 <= k < |entries|
      ensures PromptAt(c, trades + [t], entries, exits + [b], k)
    {
      PromptKept(c, trades, entries, exits, trades + [t], entries, exits + [b], k);
    }
  }

  // A trade opened at tick a with the given bankroll and closed at tick b: at the published bid and Bitcoin
  // price, or, if it expired, at one or zero by the outcome at the last published price.
  ghost predicate Settled(c: Context, t: Trade, a: nat, b: nat, bankroll: real) {
    && EnteredAt(c, a, bankroll, EntryOf(t)) && ClosedWhenDue(c, EntryOf(t), a, b, t.expired)
    && t.entryUs <= t.exitUs && t.isAbove == c.mkt.isAbove && t.pnl == TradePnl(t)
    && a <= b < |c.ticks|
    && if t.expired
       then
         && t.exitUs == c.mkt.resolutionUs
         && t.hedgeExitBtc == (if Published(c, b + 1).btcMid <= 0.0 then t.hedgeEntryBtc
                               else Published(c, b + 1).btcMid)
         && t.exitPrice == if (t.hedgeExitBtc > c.mkt.strike) == c.mkt.isAbove then 1.0 else 0.0
       else
         && a < b
         && t.exitUs == c.ticks[b].timestampUs + 5_000
         && t.exitPrice == Published(c, b + 1).bestBid && t.hedgeExitBtc == Published(c, b + 1).btcMid
  }

  function EntryOf(t: Trade): Entry {
    Entry(t.entryPrice, t.hedgeEntryBtc, t.hedgeQty, t.shares, t.predictedEdge, t.entryUs)
  }

  // What one replay has to show for itself: the balances against where it started, and a settled trade for
  // every entry made so far but one that is still open. entries and exits are tick indices.
  ghost predicate Booked(c: Context, bankroll: real, exposure: real, trades: seq<Trade>, entries: seq<nat>,
                         exits: seq<nat>, isOpen: bool, e: Entry)
  {
    && |exits| == |trades|
    && |entries| == |trades| + (if isOpen then 1 else 0)
    && bankroll == c.bankroll0 + TotalPnl(trades)
    && exposure == c.exposure0 + (if isOpen then Spent(e) else 0.0)
    && (isOpen ==> EnteredAt(c, entries[|entries| - 1], bankroll, e))
    && (forall k :: 0 <= k < |trades| ==>
          Settled(c, trades[k], entries[k], exits[k], c.bankroll0 + TotalPnl(trades[..k])))
    && (forall k :: 0 <= k < |entries| ==> entries[k] < |c.ticks|)
    && Prompt(c, trades, entries, exits)
    && (c.mkt.openUs > 0 ==> forall k :: 0 < k < |entries| ==> Apart(c.ticks, entries[k - 1], entries[k]))
  }

  ghost predicate Apart(ticks: seq<Tick>, a: nat, b: nat) {
    a < b < |ticks| && ticks[b].timestampUs - ticks[a].timestampUs >= 30_000_000
  }

  lemma TotalPnlAppend(trades: seq<Trade>, t: Trade)
    ensures TotalPnl(trades + [t]) == TotalPnl(trades) + t.pnl
  {
    assert (trades + [t])[..|trades|] == trades;
  }

  // Closing takes back exactly the exposure the entry added, so the clamp at zero changes nothing.
  lemma CloseBooks(c: Context, bankroll: real, exposure: real, trades: seq<Trade>, entries: seq<nat>,
                   exits: seq<nat>, e: Entry, t: Trade, b: nat)
    requires Booked(c, bankroll, exposure, trades, entries, exits, true, e)
    requires c.exposure0 >= 0.0 && Settled(c, t, entries[|entries| - 1], b, bankroll)
    ensures Booked(c, bankroll + t.pnl, exposure - Spent(e), trades + [t], entries, exits + [b], false, e)
    ensures exposure - Spent(e) == c.exposure0 >= 0.0
  {
    hide TotalPnl, Settled, EnteredAt, Prompt;
    TotalPnlAppend(trades, t);
    PromptClose(c, trades, entries, exits, t, b);
    var all := trades + [t];
    forall k | 0 <= k < |all|
      ensures Settled(c, all[k], entries[k], (exits + [b])[k], c.bankroll0 + TotalPnl(all[..k]))
    {
      assert all[..k] == trades[..k];
      if k == |trades| { assert trades[..k] == trades; }
    }
  }

  lemma EnterBooks(c: Context, bankroll: real, exposure: real, trades: seq<Trade>, entries: seq<nat>,
                   exits: seq<nat>, was: Entry, e: Entry, a: nat)
    requires Booked(c, bankroll, exposure, trades, entries, exits, false, was)
    requires EnteredAt(c, a, bankroll, e)
    requires c.mkt.openUs > 0 && entries != [] ==> Apart(c.ticks, entries[|entries| - 1], a)
    requires FirstAllowed(c, a, bankroll, entries, exits)
    ensures Booked(c, bankroll, exposure + Spent(e), trades, entries + [a], exits, true, e)
  {
    hide TotalPnl, Settled, Apart, SizedBy, Published, Prompt, FirstAllowed;
    PromptEntry(c, trades, entries, exits, a);
    var more := entries + [a];
    forall k | 0 < k < |more| && c.mkt.openUs > 0
      ensures Apart(c.ticks, more[k - 1], more[k])
    {
      if k < |entries| { assert Apart(c.ticks, entries[k - 1], entries[k]); }
    }
  }

  // No tick falls in the last thirty seconds before resolution.
  ghost predicate NoLateTick(mkt: Market, ticks: seq<Tick>) {
    forall i :: 0 <= i < |ticks| ==>
      !(mkt.resolutionUs - 30_000_000 <= ticks[i].timestampUs < mkt.resolutionUs)
  }

  ghost predicate ExpiredOnlyIf(trades: seq<Trade>, condition: bool) {
    (exists k :: 0 <= k < |trades| && trades[k].expired) ==> condition
  }

  // Replays one market on its ticks. Whatever the stream: while flat, the first tick that allows an entry
  // makes one; every position opened is closed exactly once, at the first tick at which it is not kept, at
  // the quotes the engine published then; exposure comes back to where it started; the bankroll moves
  // by the sum of the trades' profits; entries lie between the opening and two minutes before resolution
  // and thirty seconds apart; no exit precedes its entry; a trade expires only if the stream is silent in
  // the last thirty seconds; and the trailing stop is never a verdict.
  method ReplayMarket(mkt: Market, ticks: seq<Tick>, m: Maths, bankroll0: real, exposure0: real)
    returns (bankroll: real, exposure: real, trades: seq<Trade>, ghost entries: seq<nat>,
             ghost exits: seq<nat>, ghost verdicts: seq<PM.ExitReason>)
    requires SortedTicks(ticks) && exposure0 >= 0.0
    ensures Booked(Context(mkt, ticks, m, bankroll0, exposure0), bankroll, exposure, trades, entries, exits,
                   false, NO_ENTRY)
    ensures exposure == exposure0
    ensures ExpiredOnlyIf(trades, NoLateTick(mkt, ticks))
    ensures Complete(Context(mkt, ticks, m, bankroll0, exposure0), bankroll, trades, entries, exits)
    ensures PM.TrailingStop !in verdicts
  {
    hide Holding, Held, Waited, ClosedWhenDue, Late, Fits, NextTick, LastUs, CooledDown, Remaining;
    hide Booked, EnteredAt, Settled, NoLateTick, Published, Apart, Early, PM.Evaluated, Sized;
    hide BayesianEngine.Run, BayesianEngine.Processed, BayesianEngine.Published;
    ghost var c := Context(mkt, ticks, m, bankroll0, exposure0);
    var engine := BayesianEngine.INITIAL;
    var pos := PM.FLAT;
    var entriesStopped, lastEntryUs, e := false, 0, NO_ENTRY;
    bankroll, exposure, trades := bankroll0, exposure0, [];
    entries, exits, verdicts := [], [], [];
    StartBooks(c);
    var i := 0;
    while i < |ticks|
      invariant 0 <= i <= |ticks|
      invariant Booked(c, bankroll, exposure, trades, entries, exits, pos.isOpen, e)
      invariant Fits(c, i, engine)
      invariant EntriesBefore(c, entries, i) && lastEntryUs == LastUs(ticks, entries)
      invariant if pos.isOpen then Open(c, entries, e, pos, i) else Watching(c, exits, bankroll, lastEntryUs, i)
      invariant entriesStopped ==> Late(c, i)
      invariant ExpiredOnlyIf(trades, false) && PM.TrailingStop !in verdicts
    {
      var tick := ticks[i];
      engine := Process(c, i, engine, mkt, tick, m);
      var ss := engine.shared;
      var tRem := Remaining(mkt, tick);
      if entriesStopped { LateHere(c, i); }
      if pos.isOpen {
        var expired;
        ghost var seen: seq<PM.ExitReason>;
        bankroll, exposure, trades, exits, pos, expired, seen :=
          ManageOpen(c, bankroll, exposure, trades, entries, exits, e, pos, i, mkt, tick, engine);
        verdicts := verdicts + seen;
        if expired { break; }
        if !pos.isOpen { StartsWatching(c, exits, bankroll, lastEntryUs, i + 1); }
      } else if tick.source == Binance && tick.timestampUs >= mkt.openUs && !entriesStopped {
        if tRem <= 120.0 {
          entriesStopped := true;
          LateFrom(c, i);
          SkipWaits(c, exits, bankroll, lastEntryUs, i, engine);
        } else if ss.regime != RollingVol.Spike && (lastEntryUs <= 0 || CooledDown(tick.timestampUs, lastEntryUs)) {
          exposure, entries, e, pos, lastEntryUs :=
            TryEnter(c, bankroll, exposure, trades, entries, exits, e, pos, i, mkt, tick, engine, lastEntryUs);
        } else {
          SkipWaits(c, exits, bankroll, lastEntryUs, i, engine);
        }
      } else {
        SkipWaits(c, exits, bankroll, lastEntryUs, i, engine);
      }
      i := i + 1;
    }
    if pos.isOpen {
      assert ticks[..i] == ticks;
      EarlyIsNotLate(mkt, ticks);
      FitsPublishes(c, i, engine);
      DueAtEnd(c, e, entries[|entries| - 1]);
      bankroll, exposure, trades, exits, pos :=
        Expire(c, bankroll, exposure, trades, entries, exits, e, pos, i - 1, mkt, engine.shared.btcMid);
    }
    ClosedBooks(c, bankroll, exposure, trades, entries, exits, e);
  }

  ghost predicate EntriesBefore(c: Context, entries: seq<nat>, i: nat) {
    && (forall k :: 0 <= k < |entries| ==> entries[k] < |c.ticks|)
    && (entries != [] ==> entries[|entries| - 1] < i)
  }

  // The engine has processed exactly the first n ticks.
  ghost predicate Fits(c: Context, n: nat, engine: BayesianEngine.Engine) {
    && n <= |c.ticks|
    && engine == BayesianEngine.Run(Config(c.mkt), Events(c.mkt, c.ticks[..n]), c.m)
    && BayesianEngine.Published(engine)
  }

  lemma FitsPublishes(c: Context, n: nat, engine: BayesianEngine.Engine)
    requires Fits(c, n, engine)
    ensures engine.shared == Published(c, n)
  {
    hide BayesianEngine.Run, BayesianEngine.Published;
  }

  // Every tick so far is more than thirty seconds before resolution.
  ghost predicate Early(mkt: Market, ticks: seq<Tick>) {
    forall i :: 0 <= i < |ticks| ==> ticks[i].timestampUs < mkt.resolutionUs - 30_000_000
  }

  // The open position is still as the entry opened it: unarmed.
  ghost predicate Holding(pos: PM.Position, e: Entry) {
    pos == PM.Opened(Data(e)) && pos.data.initialEdge >= 0
  }

  predicate LastExpired(trades: seq<Trade>) { trades != [] && trades[|trades| - 1].expired }

  // An open position, kept at every tick since its entry.
  ghost predicate Open(c: Context, entries: seq<nat>, e: Entry, pos: PM.Position, i: nat) {
    && pos.isOpen && Holding(pos, e) && entries != [] && i <= |c.ticks|
    && Early(c.mkt, c.ticks[..i]) && Held(c, e, entries[|entries| - 1] + 1, i)
  }

  // No position, and none was allowed since the last exit.
  ghost predicate Watching(c: Context, exits: seq<nat>, bankroll: real, lastUs: int, i: nat) {
    NextTick(exits) <= i && Waited(c, NextTick(exits), i, bankroll, lastUs)
  }

  lemma StartsWatching(c: Context, exits: seq<nat>, bankroll: real, lastUs: int, i: nat)
    requires NextTick(exits) == i <= |c.ticks|
    ensures Watching(c, exits, bankroll, lastUs, i)
  {
    hide Allowed;
  }

  lemma SkipWaits(c: Context, exits: seq<nat>, bankroll: real, lastUs: int, i: nat, engine: BayesianEngine.Engine)
    requires i < |c.ticks| && Watching(c, exits, bankroll, lastUs, i) && Fits(c, i + 1, engine)
    requires var t := c.ticks[i];
             || t.source != Binance || t.timestampUs < c.mkt.openUs || Remaining(c.mkt, t) <= 120.0
             || engine.shared.regime == RollingVol.Spike
             || !(lastUs <= 0 || CooledDown(t.timestampUs, lastUs))
    ensures Watching(c, exits, bankroll, lastUs, i + 1)
  {
    hide Published, Fits, Remaining, CooledDown, Waited, NextTick, Sized;
    FitsPublishes(c, i + 1, engine);
    WaitsOn(c, NextTick(exits), i, bankroll, lastUs);
  }

  // Unless the last trade expired, no entry was allowed after it to the end of the stream.
  ghost predicate Complete(c: Context, bankroll: real, trades: seq<Trade>, entries: seq<nat>, exits: seq<nat>) {
    && (forall k :: 0 <= k < |entries| ==> entries[k] < |c.ticks|)
    && (LastExpired(trades) || Waited(c, NextTick(exits), |c.ticks|, bankroll, LastUs(c.ticks, entries)))
  }

  // No tick from i on is more than two minutes before resolution.
  ghost predicate Late(c: Context, i: nat) {
    forall j :: i <= j < |c.ticks| ==> Remaining(c.mkt, c.ticks[j]) <= 120.0
  }

  lemma LateFrom(c: Context, i: nat)
    requires SortedTicks(c.ticks) && i < |c.ticks| && Remaining(c.mkt, c.ticks[i]) <= 120.0
    ensures Late(c, i + 1)
  {
    forall j | i <= j < |c.ticks|
      ensures Remaining(c.mkt, c.ticks[j]) <= 120.0
    {
      assert i == j || c.ticks[i].timestampUs <= c.ticks[j].timestampUs;
    }
  }

  lemma LateHere(c: Context, i: nat)
    requires Late(c, i) && i < |c.ticks|
    ensures Remaining(c.mkt, c.ticks[i]) <= 120.0 && Late(c, i + 1)
  {
    hide Remaining;
  }

  lemma WaitsOn(c: Context, from: nat, i: nat, bankroll: real, lastUs: int)
    requires i < |c.ticks| && Waited(c, from, i, bankroll, lastUs) && !Allowed(c, i, bankroll, lastUs)
    ensures Waited(c, from, i + 1, bankroll, lastUs)
  {
    hide Allowed;
  }

  lemma HeldOn(c: Context, e: Entry, a: nat, i: nat)
    requires Held(c, e, a + 1, i) && i < |c.ticks| && Remaining(c.mkt, c.ticks[i]) > 30.0
    requires PM.Evaluated(PM.Opened(Data(e)), Published(c, i + 1)).1 == PM.NoExit
    ensures Held(c, e, a + 1, i + 1)
  {
    hide Remaining, PM.Evaluated, Published;
  }

  lemma DueAt(c: Context, e: Entry, a: nat, i: nat, expired: bool)
    requires Held(c, e, a + 1, i) && i < |c.ticks|
    requires expired <==> Remaining(c.mkt, c.ticks[i]) <= 0.0
    requires expired || Remaining(c.mkt, c.ticks[i]) <= 30.0
             || PM.Evaluated(PM.Opened(Data(e)), Published(c, i + 1)).1 != PM.NoExit
    ensures ClosedWhenDue(c, e, a, i, expired)
  {
    hide Remaining, PM.Evaluated, Published;
  }

  lemma DueAtEnd(c: Context, e: Entry, a: nat)
    requires a < |c.ticks| && Held(c, e, a + 1, |c.ticks|)
    ensures ClosedWhenDue(c, e, a, |c.ticks| - 1, true)
  {
    hide Keeps;
  }

  lemma StartBooks(c: Context)
    ensures Booked(c, c.bankroll0, c.exposure0, [], [], [], false, NO_ENTRY)
    ensures Fits(c, 0, BayesianEngine.INITIAL)
    ensures Watching(c, [], c.bankroll0, 0, 0) && LastUs(c.ticks, []) == 0
  {
    BayesianEngine.InitialPublished(Config(c.mkt), c.m);
  }

  method Process(ghost c: Context, ghost i: nat, engine: BayesianEngine.Engine, mkt: Market, tick: Tick, m: Maths)
    returns (next: BayesianEngine.Engine)
    requires i < |c.ticks| && tick == c.ticks[i] && mkt == c.mkt && m == c.m && Fits(c, i, engine)
    ensures Fits(c, i + 1, next)
  {
    hide BayesianEngine.Run, BayesianEngine.Published, BayesianEngine.Processed;
    ghost var events := Events(mkt, c.ticks[..i + 1]);
    assert events[..i] == Events(mkt, c.ticks[..i]);
    BayesianEngine.RunStep(Config(mkt), events, m);
    BayesianEngine.PublishedStep(engine, Config(mkt), Event(mkt, tick), m);
    next := BayesianEngine.Processed(engine, Config(mkt), Event(mkt, tick), m);
  }

  method CloseOut(ghost c: Context, bankroll: real, exposure: real, trades: seq<Trade>, ghost entries: seq<nat>,
                  ghost exits: seq<nat>, e: Entry, pos: PM.Position, t: Trade, ghost b: nat)
    returns (bankroll': real, exposure': real, trades': seq<Trade>, ghost exits': seq<nat>, pos': PM.Position)
    requires Booked(c, bankroll, exposure, trades, entries, exits, true, e)
    requires c.exposure0 >= 0.0 && entries != [] && Settled(c, t, entries[|entries| - 1], b, bankroll)
    ensures Booked(c, bankroll', exposure', trades', entries, exits', false, e)
    ensures trades' == trades + [t] && pos' == PM.Closed(pos) && exits' == exits + [b]
  {
    hide Booked, Settled;
    CloseBooks(c, bankroll, exposure, trades, entries, exits, e, t, b);
    trades' := trades + [t];
    exposure' := exposure - Spent(e);
    if exposure' < 0.0 { exposure' := 0.0; }
    bankroll' := bankroll + t.pnl;
    pos' := PM.Closed(pos);
    exits' := exits + [b];
  }

  lemma BookedEntry(c: Context, bankroll: real, exposure: real, trades: seq<Trade>, entries: seq<nat>,
                    exits: seq<nat>, e: Entry)
    requires Booked(c, bankroll, exposure, trades, entries, exits, true, e)
    ensures entries != [] && EnteredAt(c, entries[|entries| - 1], bankroll, e)
  {
    hide Settled, EnteredAt, Apart, TotalPnl, Prompt, Spent;
  }

  lemma ClosingIs(mkt: Market, e: Entry, exitBid: real, btcExit: real, exitUs: int, expired: bool)
    ensures var t := Closing(mkt, e, exitBid, btcExit, exitUs, expired);
            && EntryOf(t) == e && t.pnl == TradePnl(t) && t.entryUs == e.us && t.hedgeEntryBtc == e.hedgeBtc
            && t.exitUs == exitUs && t.isAbove == mkt.isAbove && t.expired == expired
            && t.exitPrice == exitBid && t.hedgeExitBtc == btcExit
  {
  }

  lemma ExitSettles(c: Context, t: Trade, e: Entry, a: nat, b: nat, bankroll: real)
    requires EnteredAt(c, a, bankroll, e) && a < b < |c.ticks| && SortedTicks(c.ticks)
    requires ClosedWhenDue(c, e, a, b, false)
    requires t == Closing(c.mkt, e, Published(c, b + 1).bestBid, Published(c, b + 1).btcMid,
                          c.ticks[b].timestampUs + FILL_LATENCY_US, false)
    ensures Settled(c, t, a, b, bankroll)
  {
    ClosingIs(c.mkt, e, Published(c, b + 1).bestBid, Published(c, b + 1).btcMid,
              c.ticks[b].timestampUs + FILL_LATENCY_US, false);
    hide Published, SizedBy, ClosedWhenDue, Closing, TradePnl, EntryOf;
  }

  lemma ExpirySettles(c: Context, t: Trade, e: Entry, a: nat, b: nat, bankroll: real)
    requires EnteredAt(c, a, bankroll, e) && a <= b < |c.ticks| && ClosedWhenDue(c, e, a, b, true)
    requires var btc := if Published(c, b + 1).btcMid <= 0.0 then e.hedgeBtc else Published(c, b + 1).btcMid;
             t == Closing(c.mkt, e, if (btc > c.mkt.strike) == c.mkt.isAbove then 1.0 else 0.0, btc,
                          c.mkt.resolutionUs, true)
    ensures Settled(c, t, a, b, bankroll)
  {
    var btc := if Published(c, b + 1).btcMid <= 0.0 then e.hedgeBtc else Published(c, b + 1).btcMid;
    ClosingIs(c.mkt, e, if (btc > c.mkt.strike) == c.mkt.isAbove then 1.0 else 0.0, btc, c.mkt.resolutionUs, true);
    hide Published, SizedBy, ClosedWhenDue, Closing, TradePnl, EntryOf;
  }

  method Exit(ghost c: Context, bankroll: real, exposure: real, trades: seq<Trade>, ghost entries: seq<nat>,
              ghost exits: seq<nat>, e: Entry, pos: PM.Position, ghost i: nat, mkt: Market, tick: Tick,
              ss: BayesianEngine.Shared)
    returns (bankroll': real, exposure': real, trades': seq<Trade>, ghost exits': seq<nat>, pos': PM.Position)
    requires Booked(c, bankroll, exposure, trades, entries, exits, true, e) && c.exposure0 >= 0.0
    requires entries != [] && entries[|entries| - 1] < i < |c.ticks| && tick == c.ticks[i] && mkt == c.mkt
    requires ss == Published(c, i + 1) && SortedTicks(c.ticks)
    requires ClosedWhenDue(c, e, entries[|entries| - 1], i, false)
    ensures Booked(c, bankroll', exposure', trades', entries, exits', false, e)
    ensures |trades'| == |trades| + 1 && trades'[..|trades|] == trades && !trades'[|trades|].expired
    ensures pos' == PM.Closed(pos) && exits' == exits + [i]
  {
    hide Published, Booked, EnteredAt, Settled, ClosedWhenDue;
    var t := Closing(mkt, e, ss.bestBid, ss.btcMid, tick.timestampUs + FILL_LATENCY_US, false);
    BookedEntry(c, bankroll, exposure, trades, entries, exits, e);
    ExitSettles(c, t, e, entries[|entries| - 1], i, bankroll);
    bankroll', exposure', trades', exits', pos' :=
      CloseOut(c, bankroll, exposure, trades, entries, exits, e, pos, t, i);
  }

  // Past resolution, or out of ticks: the outcome is decided by the last Bitcoin price.
  method Expire(ghost c: Context, bankroll: real, exposure: real, trades: seq<Trade>, ghost entries: seq<nat>,
                ghost exits: seq<nat>, e: Entry, pos: PM.Position, ghost b: nat, mkt: Market, btcMid: real)
    returns (bankroll': real, exposure': real, trades': seq<Trade>, ghost exits': seq<nat>, pos': PM.Position)
    requires Booked(c, bankroll, exposure, trades, entries, exits, true, e) && c.exposure0 >= 0.0
    requires mkt == c.mkt && entries != [] && entries[|entries| - 1] <= b < |c.ticks|
    requires btcMid == Published(c, b + 1).btcMid
    requires ClosedWhenDue(c, e, entries[|entries| - 1], b, true)
    ensures Booked(c, bankroll', exposure', trades', entries, exits', false, e)
    ensures pos' == PM.Closed(pos) && LastExpired(trades')
  {
    hide Published, Booked, EnteredAt, Settled, ClosedWhenDue;
    var btcFin := if btcMid <= 0.0 then e.hedgeBtc else btcMid;
    var wins := if mkt.isAbove then btcFin > mkt.strike else btcFin <= mkt.strike;
    var t := Closing(mkt, e, if wins then 1.0 else 0.0, btcFin, mkt.resolutionUs, true);
    BookedEntry(c, bankroll, exposure, trades, entries, exits, e);
    ExpirySettles(c, t, e, entries[|entries| - 1], b, bankroll);
    bankroll', exposure', trades', exits', pos' :=
      CloseOut(c, bankroll, exposure, trades, entries, exits, e, pos, t, b);
  }

  method Judge(pos: PM.Position, ghost e: Entry, ss: BayesianEngine.Shared)
    returns (pos': PM.Position, reason: PM.ExitReason)
    requires Holding(pos, e)
    ensures (pos', reason) == PM.Evaluated(PM.Opened(Data(e)), ss)
    ensures reason != PM.TrailingStop
    ensures reason == PM.NoExit ==> pos' == pos
  {
    hide PM.Pnl, PM.HardStopLevel, PM.Trigger, PM.Floor;
    PM.UnarmedNeverTrails(pos, PM.Pnl(pos, ss));
    var (p, r) := PM.Evaluated(pos, ss);
    pos', reason := p, r;
  }

  // One tick with a position open: expiry first, then the forced close, then the position's own verdict.
  method ManageOpen(ghost c: Context, bankroll: real, exposure: real, trades: seq<Trade>, ghost entries: seq<nat>,
                    ghost exits: seq<nat>, e: Entry, pos: PM.Position, ghost i: nat, mkt: Market, tick: Tick,
                    engine: BayesianEngine.Engine)
    returns (bankroll': real, exposure': real, trades': seq<Trade>, ghost exits': seq<nat>, pos': PM.Position,
             expired: bool, ghost seen: seq<PM.ExitReason>)
    requires Booked(c, bankroll, exposure, trades, entries, exits, true, e) && c.exposure0 >= 0.0
    requires SortedTicks(c.ticks) && i < |c.ticks| && tick == c.ticks[i] && mkt == c.mkt
    requires entries != [] && entries[|entries| - 1] < i && Fits(c, i + 1, engine)
    requires Open(c, entries, e, pos, i) && ExpiredOnlyIf(trades, false)
    ensures Booked(c, bankroll', exposure', trades', entries, exits', pos'.isOpen, e)
    ensures pos'.isOpen ==> Open(c, entries, e, pos', i + 1)
    ensures PM.TrailingStop !in seen
    ensures if expired then !pos'.isOpen && NoLateTick(mkt, c.ticks) && LastExpired(trades')
            else ExpiredOnlyIf(trades', false) && (!pos'.isOpen ==> NextTick(exits') == i + 1)
  {
    hide Booked, EnteredAt, Settled, NoLateTick, Early, PM.Evaluated, BayesianEngine.Run, BayesianEngine.Published;
    hide Published, Held, Holding, ClosedWhenDue, Fits;
    FitsPublishes(c, i + 1, engine);
    ghost var a := entries[|entries| - 1];
    var ss := engine.shared;
    var tRem := Remaining(mkt, tick);
    bankroll', exposure', trades', exits', pos' := bankroll, exposure, trades, exits, pos;
    expired, seen := false, [];
    if tRem <= 0.0 {
      NoLateTickAfter(mkt, c.ticks, i);
      DueAt(c, e, a, i, true);
      bankroll', exposure', trades', exits', pos' :=
        Expire(c, bankroll, exposure, trades, entries, exits, e, pos, i, mkt, ss.btcMid);
      expired := true;
    } else if tRem <= 30.0 {
      DueAt(c, e, a, i, false);
      bankroll', exposure', trades', exits', pos' :=
        Exit(c, bankroll, exposure, trades, entries, exits, e, pos, i, mkt, tick, ss);
    } else {
      StaysEarly(mkt, c.ticks, i);
      var reason;
      pos', reason := Judge(pos, e, ss);
      seen := [reason];
      if reason == PM.NoExit {
        HeldOn(c, e, a, i);
      } else {
        DueAt(c, e, a, i, false);
        bankroll', exposure', trades', exits', pos' :=
          Exit(c, bankroll, exposure, trades, entries, exits, e, pos', i, mkt, tick, ss);
      }
    }
  }

  // One tick that may open a position.
  method TryEnter(ghost c: Context, bankroll: real, exposure: real, ghost trades: seq<Trade>,
                  ghost entries: seq<nat>, ghost exits: seq<nat>, e: Entry, pos: PM.Position, ghost i: nat,
                  mkt: Market, tick: Tick, engine: BayesianEngine.Engine, lastEntryUs: int)
    returns (exposure': real, ghost entries': seq<nat>, e': Entry, pos': PM.Position, lastEntryUs': int)
    requires Booked(c, bankroll, exposure, trades, entries, exits, false, e) && SortedTicks(c.ticks)
    requires i < |c.ticks| && tick == c.ticks[i] && mkt == c.mkt && Fits(c, i + 1, engine)
    requires !pos.isOpen && tick.timestampUs >= mkt.openUs && Remaining(mkt, tick) > 120.0
    requires tick.source == Binance && engine.shared.regime != RollingVol.Spike
    requires lastEntryUs <= 0 || CooledDown(tick.timestampUs, lastEntryUs)
    requires EntriesBefore(c, entries, i) && lastEntryUs == LastUs(c.ticks, entries)
    requires Watching(c, exits, bankroll, lastEntryUs, i)
    ensures Booked(c, bankroll, exposure', trades, entries', exits, pos'.isOpen, e')
    ensures EntriesBefore(c, entries', i + 1) && lastEntryUs' == LastUs(c.ticks, entries')
    ensures if pos'.isOpen then Open(c, entries', e', pos', i + 1)
            else Watching(c, exits, bankroll, lastEntryUs', i + 1)
  {
    hide *;
    exposure', entries', e', pos', lastEntryUs' := exposure, entries, e, pos, lastEntryUs;
    NothingAtRisk(c, bankroll, exposure, trades, entries, exits, e);
    AllowedIff(c, i, bankroll, engine, lastEntryUs);
    var sized := Sized(engine.shared, bankroll, exposure);
    if sized.Some? {
      var (d, edge) := sized.value;
      pos' := PM.Opened(d);
      e' := Entry(d.entryPrice, d.hedgeEntryBtc, d.hedgeQty, d.shares, edge, tick.timestampUs + FILL_LATENCY_US);
      EntryTaken(c, bankroll, exposure, trades, entries, exits, e, i, engine, lastEntryUs);
      lastEntryUs' := tick.timestampUs;
      exposure' := exposure + PM.Cost(d);
      entries' := entries + [i];
    } else {
      WatchesOn(c, entries, exits, bankroll, lastEntryUs, i);
    }
  }

  // Once the clock allows an entry, the sizing decides.
  lemma AllowedIff(c: Context, i: nat, bankroll: real, engine: BayesianEngine.Engine, lastUs: int)
    requires i < |c.ticks| && Fits(c, i + 1, engine)
    requires c.ticks[i].timestampUs >= c.mkt.openUs && Remaining(c.mkt, c.ticks[i]) > 120.0
    requires c.ticks[i].source == Binance && engine.shared.regime != RollingVol.Spike
    requires lastUs <= 0 || CooledDown(c.ticks[i].timestampUs, lastUs)
    ensures engine.shared == Published(c, i + 1) && engine.shared.pMarket < 1.0
    ensures Allowed(c, i, bankroll, lastUs) <==> Sized(engine.shared, bankroll, c.exposure0).Some?
  {
    hide Published, Fits, Remaining, CooledDown, Sized;
    FitsPublishes(c, i + 1, engine);
    QuoteBelowOne(c, i + 1, engine);
  }

  lemma WatchesOn(c: Context, entries: seq<nat>, exits: seq<nat>, bankroll: real, lastUs: int, i: nat)
    requires i < |c.ticks| && Watching(c, exits, bankroll, lastUs, i) && !Allowed(c, i, bankroll, lastUs)
    requires EntriesBefore(c, entries, i)
    ensures Watching(c, exits, bankroll, lastUs, i + 1) && EntriesBefore(c, entries, i + 1)
  {
    hide Waited, Allowed, NextTick;
    WaitsOn(c, NextTick(exits), i, bankroll, lastUs);
  }

  lemma EntryTaken(c: Context, bankroll: real, exposure: real, trades: seq<Trade>, entries: seq<nat>,
                   exits: seq<nat>, was: Entry, i: nat, engine: BayesianEngine.Engine, lastUs: int)
    requires Booked(c, bankroll, exposure, trades, entries, exits, false, was) && SortedTicks(c.ticks)
    requires i < |c.ticks| && Fits(c, i + 1, engine)
    requires EntriesBefore(c, entries, i) && lastUs == LastUs(c.ticks, entries)
    requires Watching(c, exits, bankroll, lastUs, i) && Allowed(c, i, bankroll, lastUs)
    ensures var (d, edge) := Sized(Published(c, i + 1), bankroll, c.exposure0).value;
            var e := Entry(d.entryPrice, d.hedgeEntryBtc, d.hedgeQty, d.shares, edge,
                           c.ticks[i].timestampUs + FILL_LATENCY_US);
            && Booked(c, bankroll, exposure + PM.Cost(d), trades, entries + [i], exits, true, e)
            && Open(c, entries + [i], e, PM.Opened(d), i + 1) && PM.Opened(d).isOpen
            && EntriesBefore(c, entries + [i], i + 1)
            && LastUs(c.ticks, entries + [i]) == c.ticks[i].timestampUs
  {
    hide Booked, EnteredAt, Settled, Apart, Early, Sized, SizedBy, Published, Fits, Waited, Remaining, CooledDown;
    var s := Published(c, i + 1);
    var (d, edge) := Sized(s, bankroll, c.exposure0).value;
    var us := c.ticks[i].timestampUs + FILL_LATENCY_US;
    var e := Entry(d.entryPrice, d.hedgeEntryBtc, d.hedgeQty, d.shares, edge, us);
    SizedFacts(s, bankroll, c.exposure0);
    SizedIs(s, bankroll, c.exposure0, us);
    SizedOpens(s, bankroll, c.exposure0, us);
    hide Spent, PM.Cost;
    EntryStands(c, i, bankroll, e);
    SpacedEntry(c, bankroll, exposure, trades, entries, exits, was, i, lastUs);
    EnterBooks(c, bankroll, exposure, trades, entries, exits, was, e, i);
    StaysEarlyAtEntry(c.mkt, c.ticks, i);
  }

  lemma SizedIs(s: BayesianEngine.Shared, bankroll: real, exposure: real, us: int)
    requires s.pMarket < 1.0 && Sized(s, bankroll, exposure).Some?
    ensures var (d, edge) := Sized(s, bankroll, exposure).value;
            var e := Entry(d.entryPrice, d.hedgeEntryBtc, d.hedgeQty, d.shares, edge, us);
            SizedBy(s, bankroll, exposure, e)
  {
    hide Sizing.KellySize, Sizing.HedgeQty, MinEdge, FromDouble, ToDouble;
    var size := Sizing.KellySize(s.pTrue, s.pMarket, FromDouble(bankroll), FromDouble(exposure));
    assert ToDouble(size) / s.bestAsk * s.bestAsk == ToDouble(size);
  }

  lemma SizedOpens(s: BayesianEngine.Shared, bankroll: real, exposure: real, us: int)
    requires s.pMarket < 1.0 && Sized(s, bankroll, exposure).Some?
    ensures var (d, edge) := Sized(s, bankroll, exposure).value;
            var e := Entry(d.entryPrice, d.hedgeEntryBtc, d.hedgeQty, d.shares, edge, us);
            Data(e) == d && Spent(e) == PM.Cost(d)
  {
    hide Sizing.KellySize, Sizing.HedgeQty, MinEdge, FromDouble, ToDouble;
    hide EdgeValue;
    var x := ToDouble(Sizing.KellySize(s.pTrue, s.pMarket, FromDouble(bankroll), FromDouble(exposure)));
    var (d, edge) := Sized(s, bankroll, exposure).value;
    DataIs(d, Entry(d.entryPrice, d.hedgeEntryBtc, d.hedgeQty, d.shares, edge, us), x);
  }

  lemma DataIs(d: PM.EntryData, e: Entry, x: real)
    requires e.price > 0.0 && e.shares == x / e.price
    requires d == PM.EntryData(e.price, e.shares, e.hedgeBtc, e.hedgeQty, EdgeValue(e.edge, x), "", "", true)
    ensures Data(e) == d
  {
    hide EdgeValue;
    assert Spent(e) == x by { assert x / e.price * e.price == x; }
  }

  lemma QuoteBelowOne(c: Context, n: nat, engine: BayesianEngine.Engine)
    requires Fits(c, n, engine)
    ensures engine.shared.pMarket < 1.0
  {
  }

  lemma EntryStands(c: Context, i: nat, bankroll: real, e: Entry)
    requires i < |c.ticks| && SizedBy(Published(c, i + 1), bankroll, c.exposure0, e)
    requires c.mkt.openUs <= c.ticks[i].timestampUs && Remaining(c.mkt, c.ticks[i]) > 120.0
    requires c.ticks[i].source == Binance && Published(c, i + 1).regime != RollingVol.Spike
    requires e.us == c.ticks[i].timestampUs + FILL_LATENCY_US
    ensures EnteredAt(c, i, bankroll, e)
  {
    hide Published, SizedBy;
  }

  lemma NothingAtRisk(c: Context, bankroll: real, exposure: real, trades: seq<Trade>, entries: seq<nat>,
                      exits: seq<nat>, e: Entry)
    requires Booked(c, bankroll, exposure, trades, entries, exits, false, e)
    ensures exposure == c.exposure0
  {
    hide Settled, EnteredAt, Apart, TotalPnl, Prompt, Spent;
  }

  lemma SpacedEntry(c: Context, bankroll: real, exposure: real, trades: seq<Trade>, entries: seq<nat>,
                    exits: seq<nat>, e: Entry, i: nat, lastEntryUs: int)
    requires Booked(c, bankroll, exposure, trades, entries, exits, false, e) && i < |c.ticks|
    requires EntriesBefore(c, entries, i) && lastEntryUs == LastUs(c.ticks, entries)
    requires lastEntryUs <= 0 || CooledDown(c.ticks[i].timestampUs, lastEntryUs)
    ensures c.mkt.openUs > 0 && entries != [] ==> Apart(c.ticks, entries[|entries| - 1], i)
  {
    hide Published, SizedBy, TotalPnl, Prompt, ClosedWhenDue;
    if entries != [] {
      var k := |trades| - 1;
      assert Settled(c, trades[k], entries[k], exits[k], c.bankroll0 + TotalPnl(trades[..k]));
    }
  }

  lemma NoLateTickAfter(mkt: Market, ticks: seq<Tick>, i: nat)
    requires SortedTicks(ticks) && i < |ticks| && Early(mkt, ticks[..i]) && Remaining(mkt, ticks[i]) <= 0.0
    ensures NoLateTick(mkt, ticks)
  {
    forall k | 0 <= k < |ticks|
      ensures !(mkt.resolutionUs - 30_000_000 <= ticks[k].timestampUs < mkt.resolutionUs)
    {
      if k < i { assert ticks[..i][k] == ticks[k]; }
    }
  }

  lemma EarlyIsNotLate(mkt: Market, ticks: seq<Tick>)
    requires Early(mkt, ticks)
    ensures NoLateTick(mkt, ticks)
  {
  }

  lemma StaysEarly(mkt: Market, ticks: seq<Tick>, i: nat)
    requires i < |ticks| && Early(mkt, ticks[..i]) && Remaining(mkt, ticks[i]) > 30.0
    ensures Early(mkt, ticks[..i + 1])
  {
    var longer := ticks[..i + 1];
    forall k | 0 <= k < |longer|
      ensures longer[k].timestampUs < mkt.resolutionUs - 30_000_000
    {
      if k < i { assert ticks[..i][k] == longer[k]; }
    }
  }

  lemma StaysEarlyAtEntry(mkt: Market, ticks: seq<Tick>, i: nat)
    requires SortedTicks(ticks) && i < |ticks| && Remaining(mkt, ticks[i]) > 30.0
    ensures Early(mkt, ticks[..i + 1])
  {
    var longer := ticks[..i + 1];
    forall k | 0 <= k < |longer|
      ensures longer[k].timestampUs < mkt.resolutionUs - 30_000_000
    {
      if k < i { assert ticks[k].timestampUs <= ticks[i].timestampUs; }
    }
  }

  lemma ClosedBooks(c: Context, bankroll: real, exposure: real, trades: seq<Trade>, entries: seq<nat>,
                    exits: seq<nat>, e: Entry)
    requires Booked(c, bankroll, exposure, trades, entries, exits, false, e)
    ensures Booked(c, bankroll, exposure, trades, entries, exits, false, NO_ENTRY)
    ensures exposure == c.exposure0
  {
    hide Settled, EnteredAt, Apart, TotalPnl, Prompt, Spent;
  }

  // ---- The gates in numbers ----

  // What the engine of a market is fed: every tick of the stream, flipped for a below market, without
  // funding, against the market's strike and resolution.
  lemma FeedIs(c: Context, i: nat)
    requires i < |c.ticks|
    ensures Events(c.mkt, c.ticks)[i]
         == BayesianEngine.Event(if c.mkt.isAbove then c.ticks[i] else BayesianEngine.Flip(c.ticks[i]), 0.0)
    ensures Config(c.mkt) == BayesianEngine.MarketConfig(c.mkt.strike, c.mkt.resolutionUs, c.mkt.isAbove)
    ensures Published(c, i) == BayesianEngine.Run(Config(c.mkt), Events(c.mkt, c.ticks)[..i], c.m).shared
  {
    assert Events(c.mkt, c.ticks)[..i] == Events(c.mkt, c.ticks[..i]);
    hide BayesianEngine.Run, BayesianEngine.Flip;
  }

  // The edge an entry has to have: 0.87 cents over half the spread, or 1.37 cents on a crossed or empty book.
  function Needed(s: BayesianEngine.Shared): real {
    0.0087 + if 0.0 < s.bestAsk - s.bestBid < 1.0 then (s.bestAsk - s.bestBid) / 2.0 else 0.005
  }

  lemma NeededIs(s: BayesianEngine.Shared)
    ensures MinEdge(s) == Needed(s)
  {
  }

  lemma SizedIff(s: BayesianEngine.Shared, bankroll: real, exposure: real)
    requires s.pMarket < 1.0
    ensures Sized(s, bankroll, exposure).Some? <==>
              var size := Sizing.KellySize(s.pTrue, s.pMarket, FromDouble(bankroll), FromDouble(exposure));
              && s.pTrue > 0.0 && s.pMarket > 0.0 && s.btcMid > 0.0 && s.pTrue - s.pMarket >= Needed(s)
              && size >= 1_000_000 && Sizing.HedgeQty(size, s.btcMid, FromDouble(bankroll)) >= 0.001
              && 0.0 < s.bestAsk < 1.0
  {
    NeededIs(s);
    hide MinEdge, Needed, Sizing.KellySize, Sizing.HedgeQty, FromDouble, EdgeValue;
  }

  // An entry is allowed at a tick exactly if it is a Binance tick from the opening to two minutes before
  // resolution, outside the spike regime, thirty seconds after the last entry if there was one, with the
  // edge needed, a size of at least 1 USDC, a hedge of at least a thousandth and an ask inside (0, 1).
  lemma AllowedExactly(c: Context, i: nat, bankroll: real, lastUs: int)
    requires i < |c.ticks|
    ensures Allowed(c, i, bankroll, lastUs) <==>
              var t, s := c.ticks[i], Published(c, i + 1);
              && t.source == Binance && c.mkt.openUs <= t.timestampUs < c.mkt.resolutionUs - 120_000_000
              && s.regime != RollingVol.Spike && (lastUs <= 0 || t.timestampUs - lastUs >= 30_000_000)
              && 0.0 < s.pMarket < 1.0 && s.pTrue > 0.0 && s.btcMid > 0.0 && s.pTrue - s.pMarket >= Needed(s)
              && var size := Sizing.KellySize(s.pTrue, s.pMarket, FromDouble(bankroll), FromDouble(c.exposure0));
                 && size >= 1_000_000 && Sizing.HedgeQty(size, s.btcMid, FromDouble(bankroll)) >= 0.001
                 && 0.0 < s.bestAsk < 1.0
  {
    hide Published, Sized, Needed, Sizing.KellySize, Sizing.HedgeQty, FromDouble;
    var s := Published(c, i + 1);
    if s.pMarket < 1.0 { SizedIff(s, bankroll, c.exposure0); }
  }

  // An open position is kept at a tick exactly with more than thirty seconds left and a loss that does not
  // pass one and a half times the expected edge.
  lemma KeepsIff(c: Context, e: Entry, j: nat)
    requires j < |c.ticks| && Data(e).initialEdge >= 0
    ensures Keeps(c, e, j) <==>
              && c.ticks[j].timestampUs < c.mkt.resolutionUs - 30_000_000
              && FromDouble(-1.5 * (Data(e).initialEdge as real / 1000000.0))
                 <= PM.Pnl(PM.Opened(Data(e)), Published(c, j + 1)) < 0
  {
    hide Published, PM.Pnl, FromDouble, PM.HardStopLevel, PM.Judge, Data;
    PM.HoldsBetween(PM.Opened(Data(e)), PM.Pnl(PM.Opened(Data(e)), Published(c, j + 1)));
    PM.LevelsAre(Data(e), 0);
  }

  // ---- The two markets of a window ----

  // Replaying the below market of a window feeds its engine the mirror image of what the above market's
  // engine sees, so at every tick the two engines publish complementary probabilities and quotes.
  lemma PairMirrors(above: Market, ticks: seq<Tick>, m: Maths, margin: real, n: nat)
    requires Laws(m) && BayesianEngine.Margin(margin) && above.isAbove && n <= |ticks|
    requires forall i :: 0 <= i < |ticks| ==> BayesianEngine.MidInside(ticks[i], margin)
    ensures var a := Published(Context(above, ticks, m, 0.0, 0.0), n);
            var b := Published(Context(above.(isAbove := false), ticks, m, 0.0, 0.0), n);
            && b.pTrue == 1.0 - a.pTrue && b.pMarket == 1.0 - a.pMarket
            && b.bestBid == 1.0 - a.bestAsk && b.bestAsk == 1.0 - a.bestBid
            && b.btcMid == a.btcMid && b.regime == a.regime
  {
    hide Laws, BayesianEngine.Margin, BayesianEngine.Run, BayesianEngine.Flip;
    var below := above.(isAbove := false);
    var events := Events(above, ticks[..n]);
    assert Events(below, ticks[..n]) == BayesianEngine.FlipAll(events);
    assert Config(below) == Config(above).(isAbove := false);
    BayesianEngine.MirrorOverRuns(Config(above), events, m, margin);
  }

  lemma AllowedNeedsEdge(c: Context, i: nat, bankroll: real, lastUs: int)
    requires i < |c.ticks| && Allowed(c, i, bankroll, lastUs)
    ensures Published(c, i + 1).pTrue > Published(c, i + 1).pMarket
  {
    hide Published, Remaining, CooledDown, MinEdge, Sizing.KellySize, Sizing.HedgeQty, FromDouble;
    EdgePositive(Published(c, i + 1));
  }

  // So the two markets of a window are never both entered at a tick: as long as the mirror holds there, at
  // most one of them allows an entry, whatever their bankrolls, exposures and earlier entries.
  lemma NeverBothAllowed(a: Context, b: Context, i: nat, bankrollA: real, lastA: int, bankrollB: real, lastB: int)
    requires a.mkt.isAbove && b.mkt == a.mkt.(isAbove := false) && b.ticks == a.ticks && b.m == a.m
    requires i < |a.ticks| && BayesianEngine.MirroredAt(Config(a.mkt), Events(a.mkt, a.ticks), a.m, i + 1)
    ensures !(Allowed(a, i, bankrollA, lastA) && Allowed(b, i, bankrollB, lastB))
  {
    hide Published, Allowed;
    MirroredShares(a, b, i + 1);
    if Allowed(a, i, bankrollA, lastA) { AllowedNeedsEdge(a, i, bankrollA, lastA); }
    if Allowed(b, i, bankrollB, lastB) { AllowedNeedsEdge(b, i, bankrollB, lastB); }
  }

  // In particular at every tick of a stream whose mids keep a margin.
  lemma NeverBothAllowedInside(a: Context, b: Context, margin: real, i: nat, bankrollA: real, lastA: int,
                               bankrollB: real, lastB: int)
    requires a.mkt.isAbove && b.mkt == a.mkt.(isAbove := false) && b.ticks == a.ticks && b.m == a.m
    requires Laws(a.m) && BayesianEngine.Margin(margin) && i < |a.ticks|
    requires forall j :: 0 <= j < |a.ticks| ==> BayesianEngine.MidInside(a.ticks[j], margin)
    ensures !(Allowed(a, i, bankrollA, lastA) && Allowed(b, i, bankrollB, lastB))
  {
    hide Allowed, Laws, BayesianEngine.Margin, BayesianEngine.Run;
    BayesianEngine.MirrorOverRuns(Config(a.mkt), Events(a.mkt, a.ticks)[..i + 1], a.m, margin);
    NeverBothAllowed(a, b, i, bankrollA, lastA, bankrollB, lastB);
  }

  lemma MirroredShares(a: Context, b: Context, n: nat)
    requires a.mkt.isAbove && b.mkt == a.mkt.(isAbove := false) && b.ticks == a.ticks && b.m == a.m
    requires n <= |a.ticks| && BayesianEngine.MirroredAt(Config(a.mkt), Events(a.mkt, a.ticks), a.m, n)
    ensures Published(b, n).pTrue == 1.0 - Published(a, n).pTrue
    ensures Published(b, n).pMarket == 1.0 - Published(a, n).pMarket
  {
    hide BayesianEngine.Run, BayesianEngine.Flip;
    var events := Events(a.mkt, a.ticks);
    assert events[..n] == Events(a.mkt, a.ticks[..n]);
    assert Events(b.mkt, b.ticks[..n]) == BayesianEngine.FlipAll(events[..n]);
    assert Config(b.mkt) == Config(a.mkt).(isAbove := false);
  }

  // ---- The whole backtest ----

  // What one market contributes: its slice of the stream, from tick from up to tick to, and what replaying it
  // there gave.
  datatype Segment = Segment(from: nat, to: nat, trades: seq<Trade>, entries: seq<nat>, exits: seq<nat>)

  function Joined(segments: seq<Segment>): seq<Trade> {
    if segments == [] then [] else Joined(segments[..|segments| - 1]) + segments[|segments| - 1].trades
  }

  // The result of a replay that ended with the given bankroll and without exposure.
  ghost predicate ReplayOf(c: Context, bankroll: real, trades: seq<Trade>, entries: seq<nat>, exits: seq<nat>) {
    && Booked(c, bankroll, c.exposure0, trades, entries, exits, false, NO_ENTRY)
    && ExpiredOnlyIf(trades, NoLateTick(c.mkt, c.ticks))
    && Complete(c, bankroll, trades, entries, exits)
  }

  // The segment is the market's: its slice is exactly the ticks from two minutes before the opening to the
  // resolution, and its trades are those of a replay on that slice from the given bankroll and no exposure;
  // only an empty slice is not replayed.
  ghost predicate SegmentOf(mkt: Market, ticks: seq<Tick>, m: Maths, bankroll: real, s: Segment) {
    && s.from <= s.to <= |ticks|
    && (forall i :: 0 <= i < |ticks| ==>
          (s.from <= i < s.to <==>
             mkt.openUs - 120_000_000 <= ticks[i].timestampUs <= mkt.resolutionUs))
    && if s.from < s.to
       then ReplayOf(Context(mkt, ticks[s.from..s.to], m, bankroll, 0.0), bankroll + TotalPnl(s.trades), s.trades,
                     s.entries, s.exits)
       else s.trades == []
  }

  // The k-th segment starts from the bankroll the ones before it left.
  ghost predicate SegmentAt(markets: seq<Market>, ticks: seq<Tick>, m: Maths, bankroll0: real,
                            segments: seq<Segment>, k: nat)
    requires k < |segments| <= |markets|
  {
    SegmentOf(markets[k], ticks, m, bankroll0 + TotalPnl(Joined(segments[..k])), segments[k])
  }

  ghost predicate Segmented(markets: seq<Market>, ticks: seq<Tick>, m: Maths, bankroll0: real,
                            segments: seq<Segment>)
  {
    |segments| <= |markets|
    && forall k :: 0 <= k < |segments| ==> SegmentAt(markets, ticks, m, bankroll0, segments, k)
  }

  lemma JoinedAppend(segments: seq<Segment>, s: Segment)
    ensures Joined(segments + [s]) == Joined(segments) + s.trades
  {
    assert (segments + [s])[..|segments|] == segments;
  }

  lemma SegmentKept(markets: seq<Market>, ticks: seq<Tick>, m: Maths, bankroll0: real,
                    segments: seq<Segment>, s: Segment, k: nat)
    requires k <= |segments| < |markets|
    requires if k < |segments| then SegmentAt(markets, ticks, m, bankroll0, segments, k)
             else SegmentOf(markets[k], ticks, m, bankroll0 + TotalPnl(Joined(segments)), s)
    ensures SegmentAt(markets, ticks, m, bankroll0, segments + [s], k)
  {
    hide SegmentOf, TotalPnl, Joined;
    assert (segments + [s])[..k] == segments[..k];
    if k == |segments| { assert segments[..k] == segments; }
  }

  lemma SegmentedAppend(markets: seq<Market>, ticks: seq<Tick>, m: Maths, bankroll0: real,
                        segments: seq<Segment>, s: Segment)
    requires Segmented(markets, ticks, m, bankroll0, segments) && |segments| < |markets|
    requires SegmentOf(markets[|segments|], ticks, m, bankroll0 + TotalPnl(Joined(segments)), s)
    ensures Segmented(markets, ticks, m, bankroll0, segments + [s])
    ensures Joined(segments + [s]) == Joined(segments) + s.trades
  {
    hide SegmentOf, SegmentAt, TotalPnl, Joined;
    JoinedAppend(segments, s);
    forall k | 0 <= k < |segments + [s]|
      ensures SegmentAt(markets, ticks, m, bankroll0, segments + [s], k)
    {
      SegmentKept(markets, ticks, m, bankroll0, segments, s, k);
    }
  }

  // Replays every market over its slice of the stream, from warm-up to resolution, in order: the trades are
  // one segment for each market, exposure ends at zero, and the bankroll moves by all profits.
  method Backtest(markets: seq<Market>, ticks: seq<Tick>, m: Maths, bankroll0: real)
    returns (bankroll: real, exposure: real, trades: seq<Trade>, ghost segments: seq<Segment>)
    requires SortedTicks(ticks)
    ensures exposure == 0.0 && bankroll == bankroll0 + TotalPnl(trades)
    ensures |segments| == |markets| && trades == Joined(segments)
    ensures Segmented(markets, ticks, m, bankroll0, segments)
  {
    hide TotalPnl, NoLateTick, Segmented, SegmentOf, SegmentAt, Joined, Booked, Complete;
    bankroll, exposure, trades, segments := bankroll0, 0.0, [], [];
    NoTrades();
    NoSegments(markets, ticks, m, bankroll0);
    for k := 0 to |markets|
      invariant exposure == 0.0 && bankroll == bankroll0 + TotalPnl(trades)
      invariant |segments| == k && trades == Joined(segments) && Segmented(markets, ticks, m, bankroll0, segments)
    {
      var mkt := markets[k];
      var tStart := FirstAtOrAfter(ticks, mkt.openUs - WARMUP_US);
      var tEnd := FirstAfter(ticks, tStart, mkt.resolutionUs);
      ghost var before := bankroll;
      ghost var segment := Segment(tStart, tEnd, [], [], []);
      if tStart < tEnd {
        var more;
        ghost var entries, exits, verdicts;
        bankroll, exposure, more, entries, exits, verdicts :=
          ReplayMarket(mkt, SliceOf(ticks, tStart, tEnd), m, bankroll, exposure);
        BankrollMoved(Context(mkt, ticks[tStart..tEnd], m, before, 0.0), bankroll, exposure, more, entries, exits);
        segment := Segment(tStart, tEnd, more, entries, exits);
        PnlAppends(trades, more);
        trades := trades + more;
      }
      SegmentStands(mkt, ticks, m, before, segment);
      SegmentedAppend(markets, ticks, m, bankroll0, segments, segment);
      segments := segments + [segment];
    }
  }

  function SliceOf(ticks: seq<Tick>, from: nat, to: nat): (slice: seq<Tick>)
    requires from <= to <= |ticks| && SortedTicks(ticks)
    ensures slice == ticks[from..to] && SortedTicks(slice)
  {
    ticks[from..to]
  }

  lemma NoSegments(markets: seq<Market>, ticks: seq<Tick>, m: Maths, bankroll0: real)
    ensures Joined([]) == [] && Segmented(markets, ticks, m, bankroll0, [])
  {
  }

  lemma BankrollMoved(c: Context, bankroll: real, exposure: real, trades: seq<Trade>, entries: seq<nat>,
                      exits: seq<nat>)
    requires Booked(c, bankroll, exposure, trades, entries, exits, false, NO_ENTRY)
    ensures bankroll == c.bankroll0 + TotalPnl(trades) && exposure == c.exposure0
  {
    hide Settled, Apart, TotalPnl, Prompt;
  }

  lemma SegmentStands(mkt: Market, ticks: seq<Tick>, m: Maths, bankroll: real, s: Segment)
    requires s.from <= s.to <= |ticks|
    requires forall i :: 0 <= i < s.from ==> ticks[i].timestampUs < mkt.openUs - WARMUP_US
    requires forall i :: s.from <= i < |ticks| ==> ticks[i].timestampUs >= mkt.openUs - WARMUP_US
    requires forall i :: s.from <= i < s.to ==> ticks[i].timestampUs <= mkt.resolutionUs
    requires forall i :: s.to <= i < |ticks| ==> ticks[i].timestampUs > mkt.resolutionUs
    requires if s.from < s.to
             then ReplayOf(Context(mkt, ticks[s.from..s.to], m, bankroll, 0.0), bankroll + TotalPnl(s.trades),
                           s.trades, s.entries, s.exits)
             else s.trades == []
    ensures SegmentOf(mkt, ticks, m, bankroll, s)
  {
    hide ReplayOf, TotalPnl;
  }

  lemma NoTrades()
    ensures TotalPnl([]) == 0.0
  {
  }

  lemma {:induction false} PnlAppends(a: seq<Trade>, b: seq<Trade>)
    ensures TotalPnl(a + b) == TotalPnl(a) + TotalPnl(b)
  {
    if b == [] {
      assert a + b == a;
    } else {
      PnlAppends(a, b[..|b| - 1]);
      assert (a + b)[..|a + b| - 1] == a + b[..|b| - 1];
    }
  }
}
