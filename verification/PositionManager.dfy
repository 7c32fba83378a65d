/**
 One open two-leg position and its exit conditions (src/execution/position_manager.cpp). The class
 follows the source; the lemmas are about any sequence of evaluations of one position.
 */
module PositionManager {
  import opened Amounts
  import opened BayesianEngine

  datatype EntryData = EntryData(entryPrice: real, shares: real, hedgeEntryBtc: real, hedgeQty: real,
                                 initialEdge: Amount, polyOrderId: string, coinbaseOrderId: string,
                                 isYesLong: bool)

  datatype ExitReason = NoExit | HardStop | TrailingStop | EarlyExit

  datatype Position = Position(isOpen: bool, data: EntryData, peak: Amount, trailing: bool)

  const NO_ENTRY := EntryData(0.0, 0.0, 0.0, 0.0, 0, "", "", false)
  const FLAT := Position(false, NO_ENTRY, 0, false)

  function Opened(d: EntryData): Position {
    Position(true, d, 0, false)
  }

  function Closed(p: Position): Position {
    Position(false, p.data, 0, false)
  }

  // What the position is booked at: shares times entry price.
  function Cost(d: EntryData): real {
    d.shares * d.entryPrice
  }

  function PolyExit(d: EntryData, s: Shared): real {
    if d.isYesLong then s.bestBid else 1.0 - s.bestAsk
  }

  function PolyPnl(d: EntryData, s: Shared): real {
    (PolyExit(d, s) - d.entryPrice) * d.shares
  }

  function HedgePnl(d: EntryData, s: Shared): real {
    (d.hedgeEntryBtc - s.btcMid) * d.hedgeQty
  }

  // Combined profit of both legs at the current quotes.
  function Pnl(p: Position, s: Shared): Amount {
    if !p.isOpen then 0 else FromDouble(PolyPnl(p.data, s) + HedgePnl(p.data, s))
  }

  function HardStopLevel(d: EntryData): Amount {
    FromDouble(-1.5 * ToDouble(d.initialEdge))
  }

  function Trigger(d: EntryData): Amount {
    FromDouble(0.5 * ToDouble(d.initialEdge))
  }

  function Floor(peak: Amount): Amount {
    FromDouble(ToDouble(peak) * 0.7)
  }

  function Armed(p: Position, pnl: Amount): Position {
    var trailing := p.trailing || pnl >= Trigger(p.data);
    p.(trailing := trailing, peak := if trailing && pnl > p.peak then pnl else p.peak)
  }

  // The position after one evaluation that saw the given profit, and the verdict.
  function Judge(p: Position, pnl: Amount): (Position, ExitReason) {
    if pnl < HardStopLevel(p.data) then (p, HardStop)
    else
      var q := Armed(p, pnl);
      if q.trailing && q.peak > 0 && pnl < Floor(q.peak) then (q, TrailingStop)
      else if pnl >= 0 then (q, EarlyExit)
      else (q, NoExit)
  }

  function Evaluated(p: Position, s: Shared): (Position, ExitReason) {
    if !p.isOpen then (p, NoExit) else Judge(p, Pnl(p, s))
  }

  lemma ProductOrder(x: real, y: real, k: real)
    requires x <= y && 0.0 <= k
    ensures x * k <= y * k
  {
    assert (y - x) * k >= 0.0;
  }

  // The three levels: the stop at one and a half times the expected edge, the trigger at half of it, and the
  // floor at seven tenths of the peak.
  lemma LevelsAre(d: EntryData, peak: Amount)
    ensures HardStopLevel(d) == FromDouble(-1.5 * (d.initialEdge as real / 1000000.0))
    ensures Trigger(d) == FromDouble(0.5 * (d.initialEdge as real / 1000000.0))
    ensures Floor(peak) == FromDouble(0.7 * (peak as real / 1000000.0))
  {
  }

  // The profit of an open position: what selling the shares brings over what they cost, a long at the bid
  // and a short at one minus the ask, and what the Bitcoin sold at entry brought over buying it back.
  lemma PnlIs(p: Position, s: Shared)
    requires p.isOpen
    ensures var d := p.data;
            var exit := if d.isYesLong then s.bestBid else 1.0 - s.bestAsk;
            var profit := exit * d.shares - Cost(d) + d.hedgeEntryBtc * d.hedgeQty - s.btcMid * d.hedgeQty;
            -0.000001 < ToDouble(Pnl(p, s)) - profit < 0.000001
  {
    hide FromDouble;
    FromDoubleNear(PolyPnl(p.data, s) + HedgePnl(p.data, s));
  }

  // A better exit price or a lower Bitcoin price never lowers the profit of a position whose legs are
  // long shares and a short hedge.
  lemma PnlOrdered(p: Position, s: Shared, t: Shared)
    requires p.data.shares >= 0.0 && p.data.hedgeQty >= 0.0
    requires PolyExit(p.data, s) <= PolyExit(p.data, t) && t.btcMid <= s.btcMid
    ensures Pnl(p, s) <= Pnl(p, t)
  {
    hide FromDouble, PolyExit;
    var d := p.data;
    ProductOrder(PolyExit(d, s) - d.entryPrice, PolyExit(d, t) - d.entryPrice, d.shares);
    ProductOrder(d.hedgeEntryBtc - s.btcMid, d.hedgeEntryBtc - t.btcMid, d.hedgeQty);
    FromDoubleMonotone(PolyPnl(d, s) + HedgePnl(d, s), PolyPnl(d, t) + HedgePnl(d, t));
  }

  // The profit is zero when the shares exit at their entry price and the Bitcoin price has not moved; without
  // a hedge the Bitcoin price does not matter.
  lemma PnlZeroAtEntryPrice(p: Position, s: Shared)
    requires PolyExit(p.data, s) == p.data.entryPrice
    requires s.btcMid == p.data.hedgeEntryBtc || p.data.hedgeQty == 0.0
    ensures Pnl(p, s) == 0
  {
    var d := p.data;
    assert PolyPnl(d, s) == 0.0 * d.shares == 0.0;
    assert HedgePnl(d, s) == 0.0;
  }

  // What a short leg earns: sold at the entry price, bought back at the ask.
  function ShortPnl(d: EntryData, s: Shared): real {
    (d.entryPrice - s.bestAsk) * d.shares
  }

  // A short leg is valued at one minus the ask instead, against a price it was not entered at: at all
  // quotes that is off by the same amount, and right exactly for an entry at one half.
  lemma ShortValuedIff(d: EntryData, s: Shared)
    requires !d.isYesLong && d.shares != 0.0
    ensures PolyPnl(d, s) == ShortPnl(d, s) + (1.0 - 2.0 * d.entryPrice) * d.shares
    ensures PolyPnl(d, s) == ShortPnl(d, s) <==> d.entryPrice == 0.5
  {
    var off := 1.0 - 2.0 * d.entryPrice;
    assert (d.entryPrice - s.bestAsk + off) * d.shares == ShortPnl(d, s) + off * d.shares;
    if off * d.shares == 0.0 { assert off == 0.0 * d.shares / d.shares; }
  }

  // With the ask still at the entry price: a long that bought there is down by the spread on every share, a
  // short that sold there shows one minus twice its price on every share.
  function EntryProfit(d: EntryData, s: Shared): real {
    if d.isYesLong then (s.bestBid - s.bestAsk) * d.shares else (1.0 - 2.0 * d.entryPrice) * d.shares
  }

  lemma PnlAtEntryQuotes(p: Position, s: Shared)
    requires p.isOpen && s.bestAsk == p.data.entryPrice
    requires s.btcMid == p.data.hedgeEntryBtc || p.data.hedgeQty == 0.0
    ensures Pnl(p, s) == FromDouble(EntryProfit(p.data, s))
  {
    hide FromDouble;
    assert PolyPnl(p.data, s) == EntryProfit(p.data, s) && HedgePnl(p.data, s) == 0.0;
    hide PolyPnl, HedgePnl, EntryProfit;
  }

  // Evaluating a fresh position at each of a sequence of profits, whatever the verdicts.
  function Run(d: EntryData, pnls: seq<Amount>): Position {
    if pnls == [] then Opened(d) else Judge(Run(d, pnls[..|pnls| - 1]), pnls[|pnls| - 1]).0
  }

  ghost predicate IsMax(m: Amount, pnls: seq<Amount>) {
    m in pnls && forall x :: x in pnls ==> x <= m
  }

  lemma LevelsOrdered(d: EntryData)
    requires d.initialEdge >= 0
    ensures HardStopLevel(d) <= 0 <= Trigger(d)
  {
    var e := ToDouble(d.initialEdge);
    assert e >= 0.0;
    RoundOfWhole(0);
    RoundIsMonotone(-1.5 * e * SCALE as real, 0.0);
    RoundIsMonotone(0.0, 0.5 * e * SCALE as real);
  }

  lemma FloorBelowPeak(peak: Amount)
    requires peak >= 0
    ensures Floor(peak) <= peak
  {
    assert ToDouble(peak) >= 0.0;
    FromDoubleAtMost(ToDouble(peak) * 0.7, peak);
  }

  lemma {:induction false} RunKeepsData(d: EntryData, pnls: seq<Amount>)
    ensures Run(d, pnls).isOpen && Run(d, pnls).data == d
  {
    if pnls != [] { RunKeepsData(d, pnls[..|pnls| - 1]); }
  }

  // One step of the theorem below: m is the maximum so far, if anything was seen.
  lemma ArmStep(p: Position, before: seq<Amount>, pnl: Amount)
    requires p.data.initialEdge >= 0
    requires p.trailing <==> exists x :: x in before && x >= Trigger(p.data)
    requires if p.trailing then IsMax(p.peak, before) else p.peak == 0
    ensures var q, all := Judge(p, pnl).0, before + [pnl];
            && (q.trailing <==> exists x :: x in all && x >= Trigger(p.data))
            && (if q.trailing then IsMax(q.peak, all) else q.peak == 0)
  {
    hide HardStopLevel, Trigger, Floor;
    LevelsOrdered(p.data);
    var q, all := Judge(p, pnl).0, before + [pnl];
    assert pnl == all[|before|] && pnl in all;
    assert q.trailing <==> p.trailing || pnl >= Trigger(p.data);
    if p.trailing {
      var x :| x in before && x >= Trigger(p.data);
      assert x in all;
      assert p.peak in all;
    } else if pnl >= Trigger(p.data) {
      forall x | x in all ensures x <= pnl {
        if x in before { assert x < Trigger(p.data); }
      }
    }
  }

  // With a non-negative expected edge, the trailing stop is armed exactly when some evaluation saw the
  // trigger profit, and from then on the stored peak is the highest profit ever seen.
  lemma {:induction false} TrailingArmedIff(d: EntryData, pnls: seq<Amount>)
    requires d.initialEdge >= 0
    ensures var p := Run(d, pnls);
            && (p.trailing <==> exists x :: x in pnls && x >= Trigger(d))
            && (if p.trailing then IsMax(p.peak, pnls) else p.peak == 0)
  {
    if pnls != [] {
      var n := |pnls| - 1;
      TrailingArmedIff(d, pnls[..n]);
      RunKeepsData(d, pnls[..n]);
      assert pnls == pnls[..n] + [pnls[n]];
      ArmStep(Run(d, pnls[..n]), pnls[..n], pnls[n]);
    }
  }

  // A position that has not yet been told to exit is unarmed; its next verdict is not a trailing stop.
  lemma UnarmedNeverTrails(p: Position, pnl: Amount)
    requires p.data.initialEdge >= 0 && !p.trailing && p.peak == 0
    ensures Judge(p, pnl).1 != TrailingStop
    ensures Judge(p, pnl).1 == NoExit ==> Judge(p, pnl).0 == p
  {
    hide HardStopLevel, Trigger, Floor;
    LevelsOrdered(p.data);
    if pnl >= 0 { FloorBelowPeak(pnl); }
  }

  // So a caller that stops evaluating at the first exit, as both callers do, never sees a trailing stop:
  // break-even already exits.
  lemma {:induction false} NoTrailingStopBeforeExit(d: EntryData, pnls: seq<Amount>, n: nat)
    requires d.initialEdge >= 0 && n < |pnls|
    requires forall i :: 0 <= i < n ==> Judge(Run(d, pnls[..i]), pnls[i]).1 == NoExit
    ensures Run(d, pnls[..n]) == Opened(d)
    ensures Judge(Run(d, pnls[..n]), pnls[n]).1 != TrailingStop
  {
    if n > 0 {
      NoTrailingStopBeforeExit(d, pnls, n - 1);
      assert pnls[..n][..n - 1] == pnls[..n - 1];
      UnarmedNeverTrails(Opened(d), pnls[n - 1]);
    }
    UnarmedNeverTrails(Opened(d), pnls[n]);
  }

  // The verdict on an unarmed position: hold exactly between the hard stop and break-even.
  lemma HoldsBetween(p: Position, pnl: Amount)
    requires p.data.initialEdge >= 0 && !p.trailing && p.peak == 0
    ensures Judge(p, pnl).1 == HardStop <==> pnl < HardStopLevel(p.data)
    ensures Judge(p, pnl).1 == EarlyExit <==> pnl >= 0
    ensures Judge(p, pnl).1 == NoExit <==> HardStopLevel(p.data) <= pnl < 0
  {
    hide HardStopLevel, Trigger, Floor;
    LevelsOrdered(p.data);
    UnarmedNeverTrails(p, pnl);
  }

  class Manager {
    var isOpen: bool
    var data: EntryData
    var peak: Amount
    var trailing: bool

    ghost function Model(): Position
      reads this
    {
      Position(isOpen, data, peak, trailing)
    }

    constructor ()
      ensures Model() == FLAT
    {
      isOpen, data, peak, trailing := false, NO_ENTRY, 0, false;
    }

    method Open(d: EntryData)
      modifies this
      ensures Model() == Opened(d)
    {
      data := d;
      peak := 0;
      trailing := false;
      isOpen := true;
    }

    method Close()
      modifies this
      ensures Model() == Closed(old(Model()))
    {
      isOpen := false;
      trailing := false;
      peak := 0;
    }

    method CombinedPnl(s: Shared) returns (pnl: Amount)
      ensures pnl == Pnl(Model(), s)
    {
      hide FromDouble;
      if !isOpen { return 0; }
      var polyExit := if data.isYesLong then s.bestBid else 1.0 - s.bestAsk;
      var polyPnl := (polyExit - data.entryPrice) * data.shares;
      var coinbasePnl := (data.hedgeEntryBtc - s.btcMid) * data.hedgeQty;
      assert polyPnl == PolyPnl(data, s) && coinbasePnl == HedgePnl(data, s);
      return FromDouble(polyPnl + coinbasePnl);
    }

    method Evaluate(s: Shared) returns (reason: ExitReason)
      modifies this
      ensures (Model(), reason) == Evaluated(old(Model()), s)
    {
      hide Pnl;
      if !isOpen { return NoExit; }
      var pnl := CombinedPnl(s);
      if pnl < HardStopLevel(data) { return HardStop; }
      if !trailing && pnl >= Trigger(data) { trailing := true; }
      if trailing {
        if pnl > peak { peak := pnl; }
        if peak > 0 && pnl < Floor(peak) { return TrailingStop; }
      }
      if pnl >= 0 { return EarlyExit; }
      return NoExit;
    }
  }
}
