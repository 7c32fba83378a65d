/**
 The two-leg taker entry (src/execution/taker_arm.cpp): sizes and submits the Polymarket order, then the
 hedge, and unwinds a leg that was filled alone. Replies are arbitrary values.
 */
module TakerArm {
  import opened Amounts
  import opened Exchange
  import opened PositionManager
  import RealMath
  import Sizing

  const MIN_SIZE: Amount := 1_000_000
  const MIN_HEDGE := 0.001
  const COOLDOWN_MS := 30_000

  datatype TakerResult = Success | Skipped | LegFail | Error

  datatype Fire = Fire(result: TakerResult, entry: EntryData, sent: seq<Order>)

  // The market is for "above" or "below"; that picks the side of the hedge.
  datatype Replies = Replies(poly: SubmitReply, hedge: HedgeReply)

  function SizeOf(v: View): Amount
    requires WellQuoted(v)
  {
    Sizing.KellySize(v.signals.pTrue, v.signals.pMarket, FromDouble(v.bankroll), FromDouble(v.exposure))
  }

  function HedgeOf(v: View): real
    requires WellQuoted(v)
  {
    Sizing.HedgeQty(SizeOf(v), v.signals.btcMid, FromDouble(v.bankroll))
  }

  // Units divided by price, truncated.
  function RawShares(size: Amount, price: real): int
    requires price != 0.0
  {
    (size as real / price).Floor
  }

  function HedgeSide(isAbove: bool): Side { if isAbove then Sell else Buy }

  function Opposite(s: Side): Side { if s == Buy then Sell else Buy }

  function HedgePrice(isAbove: bool, btcMid: real): real {
    if isAbove then btcMid * (1.0 - 0.001) else btcMid * (1.0 + 0.001)
  }

  function HedgeFilled(r: HedgeReply, wanted: real): bool {
    r.success && r.executedQty >= wanted * 0.99
  }

  function EdgeValue(edge: real, size: Amount): Amount {
    FromDouble(edge * ToDouble(size))
  }

  function EntryFor(v: View, size: Amount, raw: int, r: Replies): EntryData
    requires raw != 0
  {
    EntryData(size as real / raw as real, raw as real / 1000000.0,
              if r.hedge.avgPrice > 0.0 then r.hedge.avgPrice else v.signals.btcMid, r.hedge.executedQty,
              EdgeValue(v.signals.pTrue - v.signals.pMarket, size),
              r.poly.orderId, r.hedge.orderId, true)
  }

  // What happens once both legs have been submitted.
  function Settle(v: View, isAbove: bool, size: Amount, raw: int, r: Replies, first: seq<Order>): Fire
    requires raw != 0 && WellQuoted(v)
  {
    var polyFilled, hedgeFilled := r.poly.orderId != "", HedgeFilled(r.hedge, HedgeOf(v));
    if !polyFilled && !hedgeFilled then Fire(LegFail, NO_ENTRY, first)
    else if !hedgeFilled then Fire(LegFail, NO_ENTRY, first + [PolyOrder(Sell, raw, size)])
    else if !polyFilled then
      Fire(LegFail, NO_ENTRY,
           first + [HedgeCancel(r.hedge.orderId),
                    HedgeOrder(Opposite(HedgeSide(isAbove)), r.hedge.executedQty, 0.0)])
    else Fire(Success, EntryFor(v, size, raw, r), first)
  }

  function Fired(v: View, isAbove: bool, r: Replies): Fire
    requires WellQuoted(v)
  {
    var size := SizeOf(v);
    if size < MIN_SIZE then Fire(Skipped, NO_ENTRY, [])
    else if HedgeOf(v) < MIN_HEDGE then Fire(Skipped, NO_ENTRY, [])
    else
      var ask := v.signals.bestAsk;
      if ask <= 0.0 || ask >= 1.0 then Fire(Error, NO_ENTRY, [])
      else
        var raw := RawShares(size, ask);
        if raw == 0 then Fire(Error, NO_ENTRY, [])
        else
          var buy := PolyOrder(Buy, size, raw);
          if !r.poly.success then Fire(Error, NO_ENTRY, [buy])
          else
            var hedge := HedgeOrder(HedgeSide(isAbove), HedgeOf(v), HedgePrice(isAbove, v.signals.btcMid));
            Settle(v, isAbove, size, raw, r, [buy, hedge])
  }

  function InCooldown(lastEntryNs: int, nowNs: int): bool {
    lastEntryNs != 0 && (nowNs - lastEntryNs) / 1_000_000 < COOLDOWN_MS
  }

  // ---- What the fire is sized at ----

  // With an edge and room left, the size is a quarter of edge times market over losing probability of the
  // bankroll, to the nearest micro-unit, or the smaller of 200 USDC and the room under 400 once that
  // reaches it; otherwise it is zero.
  lemma SizeIs(v: View) returns (stake: real)
    requires WellQuoted(v) && v.signals.pMarket >= 0.000000001
    ensures var s, room := v.signals, 400_000_000 - FromDouble(v.exposure);
            var cap := if room < 200_000_000 then room else 200_000_000;
            && stake * (1.0 - s.pMarket) == 0.25 * (s.pTrue - s.pMarket) * s.pMarket * ToDouble(FromDouble(v.bankroll))
            && (s.pTrue <= s.pMarket || room <= 0 ==> SizeOf(v) == 0)
            && (s.pTrue > s.pMarket && room > 0 ==>
                  && (stake >= ToDouble(cap) ==> SizeOf(v) == cap)
                  && (0.0 <= stake < ToDouble(cap) ==> -0.0000005 <= ToDouble(SizeOf(v)) - stake <= 0.0000005)
                  && (stake < 0.0 ==> SizeOf(v) == 0))
  {
    var bankroll, exposure := FromDouble(v.bankroll), FromDouble(v.exposure);
    hide FromDouble, Sizing.KellyStake;
    stake := Sizing.KellyStake(v.signals.pTrue, v.signals.pMarket, bankroll);
    Sizing.StakeTimesLosing(v.signals.pTrue, v.signals.pMarket, bankroll);
    if v.signals.pTrue > v.signals.pMarket && exposure < 400_000_000 {
      Sizing.KellyFillsCaps(v.signals.pTrue, v.signals.pMarket, bankroll, exposure);
    }
  }

  // The hedge is worth that size or five per cent of the bankroll, whichever is less.
  lemma HedgeIs(v: View)
    requires WellQuoted(v) && v.signals.btcMid > 0.0 && v.bankroll >= 0.0
    ensures var worth, size, most := HedgeOf(v) * v.signals.btcMid, ToDouble(SizeOf(v)),
                                     0.05 * ToDouble(FromDouble(v.bankroll));
            worth <= size && worth <= most && worth in {size, most}
  {
    hide FromDouble, ToDouble, Sizing.KellySize, Sizing.HedgeQty;
    FromDoubleNotNegative(v.bankroll);
    var bankroll := FromDouble(v.bankroll);
    Sizing.KellyWithinRoom(v.signals.pTrue, v.signals.pMarket, bankroll, FromDouble(v.exposure));
    Sizing.HedgeWithinCaps(SizeOf(v), v.signals.btcMid, bankroll);
  }

  // ---- What the fire does ----

  lemma SharesTimesPrice(size: Amount, raw: int)
    requires raw != 0
    ensures raw as real / 1000000.0 * (size as real / raw as real) == ToDouble(size)
  {
    var q := size as real / raw as real;
    assert raw as real * q == size as real;
    assert raw as real / 1000000.0 * q == (raw as real * q) / 1000000.0;
  }

  // An ask below one buys at least as many share units as USDC units, so the zero guard never fires.
  lemma RawSharesAtLeast(size: Amount, ask: real)
    requires size >= 0 && 0.0 < ask < 1.0
    ensures RawShares(size, ask) >= size
  {
    var q := size as real / ask;
    assert q * ask == size as real;
    assert q >= 0.0 by {
      if q < 0.0 {
        RealMath.PositiveProduct(-q, ask, -(size as real));
        assert false;
      }
    }
    assert q * (1.0 - ask) >= 0.0;
    assert q >= size as real;
  }

  // A successful entry is booked at exactly its size: at least one USDC, within the trade cap, and small
  // enough that the total exposure it was sized against stays within the total cap.
  lemma SuccessBooksItsSize(v: View, isAbove: bool, r: Replies)
    requires WellQuoted(v) && Fired(v, isAbove, r).result == Success
    ensures var e, size := Fired(v, isAbove, r).entry, SizeOf(v);
            && Cost(e) == ToDouble(size)
            && MIN_SIZE <= size <= Sizing.MAX_TRADE
            && FromDouble(v.exposure) + size <= Sizing.MAX_TOTAL_EXPOSURE
            && e.initialEdge >= 0 && e.shares > 0.0 && 0.0 < e.entryPrice <= 1.0
  {
    hide Sizing.KellySize, FromDouble, EntryFor, Cost;
    SuccessEntry(v, isAbove, r);
    var size, raw := SizeOf(v), RawShares(SizeOf(v), v.signals.bestAsk);
    Sizing.KellyWithinRoom(v.signals.pTrue, v.signals.pMarket, FromDouble(v.bankroll), FromDouble(v.exposure));
    RawSharesAtLeast(size, v.signals.bestAsk);
    hide RawShares;
    EntryFacts(v, size, raw, r);
  }

  lemma SuccessEntry(v: View, isAbove: bool, r: Replies)
    requires WellQuoted(v) && Fired(v, isAbove, r).result == Success
    ensures 0.0 < v.signals.bestAsk < 1.0 && SizeOf(v) >= MIN_SIZE
    ensures RawShares(SizeOf(v), v.signals.bestAsk) != 0
    ensures Fired(v, isAbove, r).entry == EntryFor(v, SizeOf(v), RawShares(SizeOf(v), v.signals.bestAsk), r)
  {
    hide SizeOf, HedgeOf, RawShares, HedgeFilled, EntryFor;
  }

  lemma EntryFacts(v: View, size: Amount, raw: int, r: Replies)
    requires 0 < size <= raw && v.signals.pTrue > v.signals.pMarket
    ensures var e := EntryFor(v, size, raw, r);
            && Cost(e) == ToDouble(size)
            && e.initialEdge >= 0 && e.shares > 0.0 && 0.0 < e.entryPrice <= 1.0
  {
    hide EdgeValue, ToDouble;
    SharesTimesPrice(size, raw);
    PriceInside(size, raw);
    EdgeNotNegative(v.signals.pTrue - v.signals.pMarket, size);
  }

  lemma PriceInside(size: Amount, raw: int)
    requires 0 < size <= raw
    ensures 0.0 < size as real / raw as real <= 1.0
  {
    var q := size as real / raw as real;
    Sizing.QuotientPositive(size as real, raw as real, q);
    assert q * raw as real == size as real;
    if q > 1.0 {
      RealMath.PositiveProduct(q - 1.0, raw as real, size as real - raw as real);
      assert false;
    }
  }

  lemma EdgeNotNegative(edge: real, size: Amount)
    requires edge > 0.0 && size > 0
    ensures EdgeValue(edge, size) >= 0
  {
    RealMath.PositiveProduct(edge, ToDouble(size), edge * ToDouble(size));
    FromDoubleAtLeast(edge * ToDouble(size), 0);
  }

  // The entry succeeds exactly when the size, hedge and ask pass their gates and both legs fill.
  lemma SucceedsIff(v: View, isAbove: bool, r: Replies)
    requires WellQuoted(v)
    ensures Fired(v, isAbove, r).result == Success <==>
      && SizeOf(v) >= 1_000_000 && HedgeOf(v) >= 0.001
      && 0.0 < v.signals.bestAsk < 1.0
      && r.poly.success && r.poly.orderId != ""
      && r.hedge.success && r.hedge.executedQty >= 0.99 * HedgeOf(v)
  {
    hide Sizing.KellySize, Sizing.HedgeQty, FromDouble, RawShares;
    if SizeOf(v) >= MIN_SIZE && 0.0 < v.signals.bestAsk < 1.0 {
      RawSharesAtLeast(SizeOf(v), v.signals.bestAsk);
    }
  }

  // The most whole share units that the units pay for at that price.
  predicate Affordable(units: Amount, price: real, shares: int) {
    shares as real * price <= units as real < (shares + 1) as real * price
  }

  lemma RawSharesAffordable(size: Amount, price: real)
    requires price > 0.0
    ensures Affordable(size, price, RawShares(size, price))
  {
    var q := size as real / price;
    assert q * price == size as real;
    ProductOrder(RawShares(size, price) as real, q, price);
    RealMath.PositiveProduct((RawShares(size, price) + 1) as real - q, price,
                             ((RawShares(size, price) + 1) as real - q) * price);
  }

  // What a success records: the whole size was offered for all the shares it pays for at the ask, so the
  // price paid is no better than the ask; the edge is that of the published probabilities on the size; the
  // hedge is what was executed, at its average price if one was reported.
  lemma SuccessRecords(v: View, isAbove: bool, r: Replies)
    requires WellQuoted(v) && Fired(v, isAbove, r).result == Success
    ensures var f, size := Fired(v, isAbove, r), SizeOf(v);
            var e, units := f.entry, f.entry.shares * 1000000.0;
            && f.sent != [] && f.sent[0] == PolyOrder(Buy, size, units.Floor) && units.Floor as real == units
            && Affordable(size, v.signals.bestAsk, units.Floor)
            && e.entryPrice >= v.signals.bestAsk
            && -0.000001 < ToDouble(e.initialEdge) - (v.signals.pTrue - v.signals.pMarket) * ToDouble(size) < 0.000001
            && e.hedgeQty == r.hedge.executedQty && e.isYesLong
            && e.hedgeEntryBtc == (if r.hedge.avgPrice > 0.0 then r.hedge.avgPrice else v.signals.btcMid)
            && e.polyOrderId == r.poly.orderId && e.coinbaseOrderId == r.hedge.orderId
  {
    hide SizeOf, HedgeOf, Fired, RawShares, FromDouble, ToDouble, EntryFor, Affordable;
    SucceedsIff(v, isAbove, r);
    SuccessEntry(v, isAbove, r);
    HedgeSentSecond(v, isAbove, r);
    var size, ask := SizeOf(v), v.signals.bestAsk;
    RawSharesAffordable(size, ask);
    EntryRecords(v, size, RawShares(size, ask), r);
  }

  lemma EntryRecords(v: View, size: Amount, raw: int, r: Replies)
    requires raw > 0 && Affordable(size, v.signals.bestAsk, raw)
    ensures var e := EntryFor(v, size, raw, r);
            && e.shares * 1000000.0 == raw as real
            && e.entryPrice >= v.signals.bestAsk
            && -0.000001 < ToDouble(e.initialEdge) - (v.signals.pTrue - v.signals.pMarket) * ToDouble(size) < 0.000001
            && e.hedgeQty == r.hedge.executedQty && e.isYesLong
            && e.hedgeEntryBtc == (if r.hedge.avgPrice > 0.0 then r.hedge.avgPrice else v.signals.btcMid)
            && e.polyOrderId == r.poly.orderId && e.coinbaseOrderId == r.hedge.orderId
  {
    hide ToDouble, EdgeValue;
    PriceAtLeast(size, raw, v.signals.bestAsk);
    EdgeValueNear(v.signals.pTrue - v.signals.pMarket, size);
  }

  lemma EdgeValueNear(edge: real, size: Amount)
    ensures -0.000001 < ToDouble(EdgeValue(edge, size)) - edge * ToDouble(size) < 0.000001
  {
    hide FromDouble;
    FromDoubleNear(edge * ToDouble(size));
  }

  lemma PriceAtLeast(size: Amount, raw: int, ask: real)
    requires raw > 0 && raw as real * ask <= size as real
    ensures size as real / raw as real >= ask
  {
    var q := size as real / raw as real;
    assert q * raw as real == size as real;
    if q < ask {
      RealMath.PositiveProduct(ask - q, raw as real, (ask - q) * raw as real);
      assert false;
    }
  }

  // ---- What is left on the two exchanges ----

  function SharesFrom(o: Order): int {
    match o
    case PolyOrder(side, makerAmount, takerAmount) => if side == Buy then takerAmount else -makerAmount
    case HedgeOrder(_, _, _) => 0
    case HedgeCancel(_) => 0
  }

  // Share units held once the Polymarket orders in the list are filled, if the exchange took the first.
  function NetShares(sent: seq<Order>, accepted: bool): int {
    if sent == [] || !accepted then 0 else SharesFrom(sent[0]) + NetShares(sent[1..], accepted)
  }

  // Bitcoin gained when that much of a hedge order on that side is executed: a sale loses it.
  function Signed(side: Side, qty: real): real { if side == Buy then qty else -qty }

  function BtcFrom(o: Order): real {
    match o
    case PolyOrder(_, _, _) => 0.0
    case HedgeOrder(side, qty, _) => Signed(side, qty)
    case HedgeCancel(_) => 0.0
  }

  function NetBtc(sent: seq<Order>): real {
    if sent == [] then 0.0 else BtcFrom(sent[0]) + NetBtc(sent[1..])
  }

  // Bitcoin held after the orders in the list, read from the orders alone: the first hedge order executed
  // the given quantity, and every later one is filled.
  function NetHedge(sent: seq<Order>, executed: real): real {
    if sent == [] then 0.0
    else if sent[0].HedgeOrder? then Signed(sent[0].side, executed) + NetBtc(sent[1..])
    else NetHedge(sent[1..], executed)
  }

  // After an attempt that did not succeed no Polymarket shares are left, provided the orders sent are
  // filled; after a success exactly the entered shares are.
  lemma SharesUnwound(v: View, isAbove: bool, r: Replies)
    requires WellQuoted(v)
    ensures var f, filled := Fired(v, isAbove, r), r.poly.success && r.poly.orderId != "";
            if f.result == Success then NetShares(f.sent, filled) as real == f.entry.shares * 1000000.0
            else NetShares(f.sent, filled) == 0
  {
    hide Sizing.KellySize, Sizing.HedgeQty, FromDouble, RawShares, HedgeFilled;
    var f, filled := Fired(v, isAbove, r), r.poly.success && r.poly.orderId != "";
    if |f.sent| == 2 {
      assert f.sent == [f.sent[0], f.sent[1]];
      TwoOrders(f.sent[0], f.sent[1], filled);
    } else if |f.sent| == 3 {
      assert f.sent[1..] == [f.sent[1], f.sent[2]];
      TwoOrders(f.sent[1], f.sent[2], filled);
    }
  }

  lemma TwoOrders(a: Order, b: Order, accepted: bool)
    ensures NetShares([a, b], accepted) == if accepted then SharesFrom(a) + SharesFrom(b) else 0
  {
    if accepted {
      assert [a, b][1..] == [b] && [b][1..] == [];
      assert NetShares([b], accepted) == SharesFrom(b) + NetShares([], accepted);
    }
  }

  // The attempt got as far as submitting both legs.
  predicate BothSubmitted(v: View, r: Replies)
    requires WellQuoted(v)
  {
    SizeOf(v) >= MIN_SIZE && HedgeOf(v) >= MIN_HEDGE && 0.0 < v.signals.bestAsk < 1.0 && r.poly.success
  }

  lemma HedgeSentSecond(v: View, isAbove: bool, r: Replies)
    requires WellQuoted(v) && BothSubmitted(v, r)
    ensures var f, size, raw := Fired(v, isAbove, r), SizeOf(v), RawShares(SizeOf(v), v.signals.bestAsk);
            && raw > 0
            && f == Settle(v, isAbove, size, raw, r,
                           [PolyOrder(Buy, size, raw),
                            HedgeOrder(HedgeSide(isAbove), HedgeOf(v), HedgePrice(isAbove, v.signals.btcMid))])
  {
    hide Sizing.KellySize, Sizing.HedgeQty, FromDouble, RawShares, Settle;
    RawSharesAtLeast(SizeOf(v), v.signals.bestAsk);
  }

  lemma HedgeNeedsPrice(v: View)
    requires WellQuoted(v) && HedgeOf(v) >= MIN_HEDGE
    ensures v.signals.btcMid > 0.0
  {
    hide Sizing.KellySize, FromDouble, ToDouble;
  }

  // Every attempt that submits both legs buys shares first, and then hedges against them: short Bitcoin for
  // an "above" market and long for a "below" market, priced a tenth of a per cent through the mid.
  lemma HedgeOpposesMarket(v: View, isAbove: bool, r: Replies)
    requires WellQuoted(v) && BothSubmitted(v, r)
    ensures var sent := Fired(v, isAbove, r).sent;
            && |sent| >= 2 && sent[0].PolyOrder? && sent[0].side == Buy && sent[1].HedgeOrder?
            && HedgeOf(v) > 0.0
            && BtcFrom(sent[1]) == (if isAbove then -HedgeOf(v) else HedgeOf(v))
            && (BtcFrom(sent[1]) < 0.0 ==> sent[1].price == 0.999 * v.signals.btcMid < v.signals.btcMid)
            && (BtcFrom(sent[1]) > 0.0 ==> sent[1].price == 1.001 * v.signals.btcMid > v.signals.btcMid)
  {
    hide SizeOf, HedgeOf, Fired, RawShares, HedgeFilled;
    HedgeNeedsPrice(v);
    HedgeSentSecond(v, isAbove, r);
  }

  // An attempt that does not get that far sends no hedge order at all.
  lemma NoHedgeUnlessBoth(v: View, isAbove: bool, r: Replies)
    requires WellQuoted(v) && !BothSubmitted(v, r)
    ensures forall o :: o in Fired(v, isAbove, r).sent ==> o.PolyOrder?
  {
    hide SizeOf, HedgeOf, RawShares, Settle;
    if SizeOf(v) >= MIN_SIZE && 0.0 < v.signals.bestAsk < 1.0 {
      RawSharesAtLeast(SizeOf(v), v.signals.bestAsk);
    }
  }

  lemma NetHedgeOfTwo(buy: Order, hedge: Order, executed: real)
    requires buy.PolyOrder? && hedge.HedgeOrder?
    ensures NetHedge([buy, hedge], executed) == Signed(hedge.side, executed)
  {
    assert [buy, hedge][1..] == [hedge] && [hedge][1..] == [];
    assert NetHedge([hedge], executed) == Signed(hedge.side, executed) + NetBtc([]);
  }

  lemma {:induction false} NetHedgeAppend(sent: seq<Order>, o: Order, executed: real)
    requires exists k :: 0 <= k < |sent| && sent[k].HedgeOrder?
    ensures NetHedge(sent + [o], executed) == NetHedge(sent, executed) + BtcFrom(o)
  {
    assert (sent + [o])[1..] == sent[1..] + [o];
    if sent[0].HedgeOrder? {
      NetBtcAppend(sent[1..], o);
    } else {
      var k :| 0 <= k < |sent| && sent[k].HedgeOrder?;
      assert sent[1..][k - 1] == sent[k];
      NetHedgeAppend(sent[1..], o, executed);
    }
  }

  lemma {:induction false} NetBtcAppend(sent: seq<Order>, o: Order)
    ensures NetBtc(sent + [o]) == NetBtc(sent) + BtcFrom(o)
  {
    if sent == [] {
      assert [o][1..] == [];
      assert NetBtc([o]) == BtcFrom(o) + NetBtc([]);
    } else {
      assert (sent + [o])[1..] == sent[1..] + [o];
      NetBtcAppend(sent[1..], o);
    }
  }

  lemma {:induction false} NoHedgeNets(sent: seq<Order>, executed: real)
    requires forall o :: o in sent ==> o.PolyOrder?
    ensures NetHedge(sent, executed) == 0.0
  {
    if sent != [] {
      assert sent[0] in sent;
      NoHedgeNets(sent[1..], executed);
    }
  }

  // Bitcoin held after the attempt, by its outcome: the unwind of a filled hedge brings it back to zero.
  lemma HedgeHeld(v: View, isAbove: bool, r: Replies)
    requires WellQuoted(v)
    ensures var f, executed := Fired(v, isAbove, r), r.hedge.executedQty;
            NetHedge(f.sent, executed) ==
              if !BothSubmitted(v, r) || (r.poly.orderId == "" && HedgeFilled(r.hedge, HedgeOf(v))) then 0.0
              else if isAbove then -executed else executed
  {
    hide SizeOf, HedgeOf, Fired, RawShares, HedgeFilled, NetHedge, BothSubmitted;
    var executed := r.hedge.executedQty;
    if BothSubmitted(v, r) {
      HedgeSentSecond(v, isAbove, r);
      var sent := Fired(v, isAbove, r).sent;
      var first := [sent[0], sent[1]];
      NetHedgeOfTwo(sent[0], sent[1], executed);
      assert first[1].HedgeOrder?;
      if |sent| >= 3 {
        NetHedgeAppend(first, sent[2], executed);
        assert first + [sent[2]] == [sent[0], sent[1], sent[2]];
        if |sent| == 4 {
          assert (first + [sent[2]])[1].HedgeOrder?;
          NetHedgeAppend(first + [sent[2]], sent[3], executed);
          assert sent == first + [sent[2]] + [sent[3]];
        } else {
          assert sent == first + [sent[2]];
        }
      } else {
        assert sent == first;
      }
    } else {
      NoHedgeUnlessBoth(v, isAbove, r);
      NoHedgeNets(Fired(v, isAbove, r).sent, executed);
    }
  }

  // The hedge is not unwound as carefully as the shares: an attempt fails and leaves a hedge behind exactly
  // when both legs were submitted and the exchange executed some of the hedge but less than 99 per cent, or
  // reported an execution on a failed request.
  lemma HedgeLeftIff(v: View, isAbove: bool, r: Replies)
    requires WellQuoted(v)
    ensures var f := Fired(v, isAbove, r);
            (f.result != Success && NetHedge(f.sent, r.hedge.executedQty) != 0.0) <==>
              BothSubmitted(v, r) && r.hedge.executedQty != 0.0 && !HedgeFilled(r.hedge, HedgeOf(v))
  {
    hide SizeOf, HedgeOf, Fired, NetHedge;
    HedgeHeld(v, isAbove, r);
    SucceedsIff(v, isAbove, r);
  }

  class Arm {
    const isAbove: bool
    var lastEntryNs: int

    constructor (isAbove: bool)
      ensures this.isAbove == isAbove && lastEntryNs == 0
    {
      this.isAbove := isAbove;
      lastEntryNs := 0;
    }

    method FireLegs(v: View, r: Replies, nowNs: int) returns (f: Fire)
      requires WellQuoted(v)
      modifies this
      ensures f == Fired(v, isAbove, r)
      ensures lastEntryNs == if f.result == Success then nowNs else old(lastEntryNs)
    {
      hide Sizing.KellySize, Sizing.HedgeQty, RawShares;
      var bankroll, exposure := FromDouble(v.bankroll), FromDouble(v.exposure);
      var size := Sizing.KellySize(v.signals.pTrue, v.signals.pMarket, bankroll, exposure);
      if size < MIN_SIZE { return Fire(Skipped, NO_ENTRY, []); }
      var qty := Sizing.HedgeQty(size, v.signals.btcMid, bankroll);
      if qty < MIN_HEDGE { return Fire(Skipped, NO_ENTRY, []); }
      var ask := v.signals.bestAsk;
      if ask <= 0.0 || ask >= 1.0 { return Fire(Error, NO_ENTRY, []); }
      var raw := RawShares(size, ask);
      if raw == 0 { return Fire(Error, NO_ENTRY, []); }
      var sent := [PolyOrder(Buy, size, raw)];
      if !r.poly.success { return Fire(Error, NO_ENTRY, sent); }
      sent := sent + [HedgeOrder(HedgeSide(isAbove), qty, HedgePrice(isAbove, v.signals.btcMid))];
      var polyFilled := r.poly.orderId != "";
      var hedgeFilled := r.hedge.success && r.hedge.executedQty >= qty * 0.99;
      if !polyFilled && !hedgeFilled { return Fire(LegFail, NO_ENTRY, sent); }
      if polyFilled && !hedgeFilled {
        return Fire(LegFail, NO_ENTRY, sent + [PolyOrder(Sell, raw, size)]);
      }
      if !polyFilled && hedgeFilled {
        sent := sent + [HedgeCancel(r.hedge.orderId),
                        HedgeOrder(if isAbove then Buy else Sell, r.hedge.executedQty, 0.0)];
        return Fire(LegFail, NO_ENTRY, sent);
      }
      f := Fire(Success, EntryFor(v, size, raw, r), sent);
      lastEntryNs := nowNs;
    }
  }
}
