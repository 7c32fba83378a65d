/**
 Passive two-sided quoting (src/execution/maker_arm.cpp). An empty id means the arm tracks no order on
 that side. The class follows the source; Manage's replies are arbitrary values.
 */
module MakerArm {
  import opened Amounts
  import opened Exchange
  import opened PositionManager
  import BayesianEngine
  import RealMath
  import TakerArm

  const HALF_SPREAD := 0.005
  const SIZE: Amount := 100_000_000
  const MAX_AGE_MS := 1500

  datatype Status = Active | FilledBid | FilledAsk | TimedOut | Repriced

  datatype Maker = Maker(bidId: string, askId: string, quotedMid: real, quotedFair: real, quoteTimeNs: int)

  datatype Replies = Replies(bid: SubmitReply, ask: SubmitReply, bidStatus: StatusReply, askStatus: StatusReply)

  // The arm after a call, its verdict, the entry of a fill, the ids it asked the exchange to cancel, and the
  // orders it submitted.
  datatype Managed = Managed(maker: Maker, status: Status, entry: EntryData, cancelled: seq<string>,
                             sent: seq<Order>)

  const NO_QUOTES := Maker("", "", 0.0, 0.0, 0)

  predicate HasQuotes(m: Maker) { m.bidId != "" || m.askId != "" }

  function CancelledAll(m: Maker): Maker { m.(bidId := "", askId := "") }

  function Tracked(m: Maker): seq<string> {
    (if m.bidId != "" then [m.bidId] else []) + (if m.askId != "" then [m.askId] else [])
  }

  // Amounts (offered, wanted) of one side's order; a buy offers USDC, a sell offers shares.
  function SideAmounts(side: Side, price: real): (int, int) {
    var shares := if price > 0.0 then (SIZE as real / price).Floor else 0;
    if side == Buy then (SIZE, shares) else (shares, SIZE)
  }

  predicate SideAccepted(side: Side, price: real, r: SubmitReply) {
    var (offered, wanted) := SideAmounts(side, price);
    offered != 0 && wanted != 0 && r.success
  }

  function OrderFor(side: Side, price: real): seq<Order> {
    var (offered, wanted) := SideAmounts(side, price);
    if offered != 0 && wanted != 0 then [PolyOrder(side, offered, wanted)] else []
  }

  // The orders submitted by quoting around the given price.
  function QuoteOrders(fair: real): seq<Order> {
    var bid, ask := fair - HALF_SPREAD, fair + HALF_SPREAD;
    if bid <= 0.01 || ask >= 0.99 then [] else OrderFor(Buy, bid) + OrderFor(Sell, ask)
  }

  function Quoted(m: Maker, fair: real, s: BayesianEngine.Shared, nowNs: int, r: Replies): (Maker, bool) {
    var bid, ask := fair - HALF_SPREAD, fair + HALF_SPREAD;
    if bid <= 0.01 || ask >= 0.99 then (CancelledAll(m), false)
    else
      var okBid, okAsk := SideAccepted(Buy, bid, r.bid), SideAccepted(Sell, ask, r.ask);
      if !okBid && !okAsk then (CancelledAll(m), false)
      else (Maker(if okBid then r.bid.orderId else "", if okAsk then r.ask.orderId else "",
                  s.pMarket, fair, nowNs), true)
  }

  function FillPrice(st: StatusReply, quoted: real): real {
    if st.avgPrice > 0.0 then st.avgPrice else quoted
  }

  predicate Filled(id: string, st: StatusReply) { id != "" && st.state == OrderState.Filled }

  function FillEntry(id: string, price: real, isBid: bool): EntryData
    requires price > 0.0
  {
    var shares := ToDouble(SIZE) / price;
    EntryData(price, shares, 0.0, 0.0, FromDouble(HALF_SPREAD * shares), id, "", isBid)
  }

  function MoveBps(m: Maker, s: BayesianEngine.Shared): real
    requires m.quotedMid > 0.0
  {
    RealMath.Abs(s.pMarket - m.quotedMid) / m.quotedMid * 10000.0
  }

  // What holds between calls: tracked orders were quoted inside the price boundaries.
  predicate Sound(m: Maker) {
    HasQuotes(m) ==>
      m.quotedFair - HALF_SPREAD > 0.01 && m.quotedFair + HALF_SPREAD < 0.99
  }

  function Polled(m: Maker, r: Replies): Managed
    requires Sound(m)
  {
    if Filled(m.bidId, r.bidStatus) then
      var e := FillEntry(m.bidId, FillPrice(r.bidStatus, m.quotedFair - HALF_SPREAD), true);
      Managed(CancelledAll(m), FilledBid, e, [m.bidId], [])
    else if Filled(m.askId, r.askStatus) then
      var e := FillEntry(m.askId, FillPrice(r.askStatus, m.quotedFair + HALF_SPREAD), false);
      Managed(CancelledAll(m), FilledAsk, e, [m.askId], [])
    else Managed(m, Active, NO_ENTRY, [], [])
  }

  function Manage(m: Maker, s: BayesianEngine.Shared, nowNs: int, r: Replies): Managed
    requires Sound(m) && m.quotedMid > 0.0
  {
    if (nowNs - m.quoteTimeNs) / 1_000_000 > MAX_AGE_MS then
      Managed(CancelledAll(m), TimedOut, NO_ENTRY, Tracked(m), [])
    else if MoveBps(m, s) > 0.5 then
      var (q, ok) := Quoted(m, s.pTrue, s, nowNs, r);
      Managed(q, if ok then Repriced else TimedOut, NO_ENTRY, Tracked(m), QuoteOrders(s.pTrue))
    else Polled(m, r)
  }

  predicate IsFill(st: Status) { st == FilledBid || st == FilledAsk }

  // ---- What the arm does ----

  // An order of 100 USDC: a buy offers them for the most whole share units they pay for at the price, a
  // sell offers that many share units for them.
  lemma SideAmountsAre(side: Side, price: real)
    requires 0.0 < price < 1.0
    ensures var (offered, wanted) := SideAmounts(side, price);
            var shares := if side == Buy then wanted else offered;
            && (if side == Buy then offered else wanted) == 100_000_000
            && TakerArm.Affordable(100_000_000, price, shares) && shares >= 100_000_000
  {
    TakerArm.RawSharesAffordable(SIZE, price);
    TakerArm.RawSharesAtLeast(SIZE, price);
    hide TakerArm.Affordable;
    assert TakerArm.RawShares(SIZE, price) == (SIZE as real / price).Floor;
  }

  // Inside the boundaries exactly two orders are submitted, a buy half a cent below the price and a sell
  // half a cent above, each of 100 USDC; outside them none is.
  lemma QuoteOrdersAre(fair: real)
    ensures var sent := QuoteOrders(fair);
            if fair - 0.005 > 0.01 && fair + 0.005 < 0.99 then
              && |sent| == 2 && sent[0].PolyOrder? && sent[1].PolyOrder?
              && sent[0].side == Buy && sent[0].makerAmount == 100_000_000
              && TakerArm.Affordable(100_000_000, fair - 0.005, sent[0].takerAmount)
              && sent[1].side == Sell && sent[1].takerAmount == 100_000_000
              && TakerArm.Affordable(100_000_000, fair + 0.005, sent[1].makerAmount)
            else sent == []
  {
    hide SideAmounts, TakerArm.Affordable;
    if fair - 0.005 > 0.01 && fair + 0.005 < 0.99 {
      SideAmountsAre(Buy, fair - 0.005);
      SideAmountsAre(Sell, fair + 0.005);
    }
  }

  // So inside the boundaries a side is accepted exactly if the exchange takes it.
  lemma SideAcceptedIff(side: Side, price: real, r: SubmitReply)
    requires 0.0 < price < 1.0
    ensures SideAccepted(side, price, r) <==> r.success
  {
    SideAmountsAre(side, price);
    hide SideAmounts;
  }

  // A quote around the given price goes half a cent to each side. It succeeds exactly if both prices are
  // inside the boundaries and some side is accepted; the accepted sides are then tracked, with what they
  // were quoted on, and otherwise nothing is.
  lemma QuotedIff(m: Maker, fair: real, s: BayesianEngine.Shared, nowNs: int, r: Replies)
    ensures var (q, ok) := Quoted(m, fair, s, nowNs, r);
            && (ok <==> fair - 0.005 > 0.01 && fair + 0.005 < 0.99 && (r.bid.success || r.ask.success))
            && (ok ==> q == Maker(if r.bid.success then r.bid.orderId else "",
                                  if r.ask.success then r.ask.orderId else "", s.pMarket, fair, nowNs))
            && (!ok ==> q == m.(bidId := "", askId := ""))
  {
    if fair - 0.005 > 0.01 && fair + 0.005 < 0.99 {
      SideAcceptedIff(Buy, fair - 0.005, r.bid);
      SideAcceptedIff(Sell, fair + 0.005, r.ask);
    }
    hide SideAccepted;
  }

  lemma MoveIff(m: Maker, s: BayesianEngine.Shared)
    requires m.quotedMid > 0.0
    ensures MoveBps(m, s) > 0.5 <==> RealMath.Abs(s.pMarket - m.quotedMid) > 0.00005 * m.quotedMid
  {
    var gap, mid := RealMath.Abs(s.pMarket - m.quotedMid), m.quotedMid;
    var q := gap / mid;
    assert q * mid == gap;
    if q > 0.00005 {
      RealMath.PositiveProduct(q - 0.00005, mid, (q - 0.00005) * mid);
    } else {
      ProductOrder(q, 0.00005, mid);
    }
  }

  // Managing the quotes: over a second and a half old they are dropped; if the mid moved by more than half
  // a basis point they are quoted anew around the model price; else the bid is polled, then the ask.
  lemma ManagedIff(m: Maker, s: BayesianEngine.Shared, nowNs: int, r: Replies)
    requires Sound(m) && m.quotedMid > 0.0
    ensures var out := Manage(m, s, nowNs, r);
            var aged := (nowNs - m.quoteTimeNs) / 1_000_000 > 1500;
            var moved := RealMath.Abs(s.pMarket - m.quotedMid) > 0.00005 * m.quotedMid;
            var requoted := s.pTrue - 0.005 > 0.01 && s.pTrue + 0.005 < 0.99 && (r.bid.success || r.ask.success);
            var bid := m.bidId != "" && r.bidStatus.state == OrderState.Filled;
            var ask := m.askId != "" && r.askStatus.state == OrderState.Filled;
            && (out.status == TimedOut <==> aged || (moved && !requoted))
            && (out.status == Repriced <==> !aged && moved && requoted)
            && (out.status == FilledBid <==> !aged && !moved && bid)
            && (out.status == FilledAsk <==> !aged && !moved && !bid && ask)
            && (out.status == Active <==> !aged && !moved && !bid && !ask)
            && (out.status == Active ==> out.maker == m && out.cancelled == [])
            && (aged || moved ==> out.cancelled == Tracked(m))
            && out.sent == (if !aged && moved then QuoteOrders(s.pTrue) else [])
  {
    hide FillEntry, Quoted, MoveBps;
    MoveIff(m, s);
    QuotedIff(m, s.pTrue, s, nowNs, r);
  }

  // What a fill records: a bid is a long entry and an ask a short one, at the average price reported or
  // else the quoted one, 100 USDC over that price in shares, unhedged, with half a cent of edge a share.
  lemma FillRecords(m: Maker, s: BayesianEngine.Shared, nowNs: int, r: Replies)
    requires Sound(m) && m.quotedMid > 0.0 && IsFill(Manage(m, s, nowNs, r).status)
    ensures var out := Manage(m, s, nowNs, r);
            var isBid, e := out.status == FilledBid, out.entry;
            var reported := if isBid then r.bidStatus.avgPrice else r.askStatus.avgPrice;
            && e.isYesLong == isBid && e.polyOrderId == (if isBid then m.bidId else m.askId)
            && e.entryPrice == (if reported > 0.0 then reported
                                else if isBid then m.quotedFair - 0.005 else m.quotedFair + 0.005)
            && e.shares * e.entryPrice == 100.0 && e.hedgeQty == 0.0
            && -0.000001 < ToDouble(e.initialEdge) - 0.005 * e.shares < 0.000001
  {
    hide FillEntry, Quoted, MoveBps;
    if Filled(m.bidId, r.bidStatus) {
      EntryIs(m.bidId, FillPrice(r.bidStatus, m.quotedFair - HALF_SPREAD), true);
    } else {
      EntryIs(m.askId, FillPrice(r.askStatus, m.quotedFair + HALF_SPREAD), false);
    }
  }

  lemma EntryIs(id: string, price: real, isBid: bool)
    requires price > 0.0
    ensures var e := FillEntry(id, price, isBid);
            && e.isYesLong == isBid && e.polyOrderId == id && e.entryPrice == price && e.hedgeQty == 0.0
            && e.shares * price == 100.0
            && -0.000001 < ToDouble(e.initialEdge) - 0.005 * e.shares < 0.000001
  {
    hide FromDouble;
    var shares := ToDouble(SIZE) / price;
    assert ToDouble(SIZE) == 100.0 && shares * price == 100.0;
    FromDoubleNear(HALF_SPREAD * shares);
  }

  // ---- What the arm guarantees ----

  // Every quote leaves tracked orders inside the boundaries, at the market mid it saw.
  lemma QuoteIsSound(m: Maker, fair: real, s: BayesianEngine.Shared, nowNs: int, r: Replies)
    requires Sound(m)
    ensures var (q, ok) := Quoted(m, fair, s, nowNs, r);
            && Sound(q)
            && (ok ==> q.quotedMid == s.pMarket && q.quotedFair == fair && q.quoteTimeNs == nowNs)
            && (!ok ==> !HasQuotes(q) && q.quotedMid == m.quotedMid)
  {
    hide SideAccepted;
  }

  ghost predicate BookedAtSize(e: EntryData) {
    Cost(e) == ToDouble(SIZE) && e.initialEdge >= 0 && e.shares > 0.0 && e.hedgeQty == 0.0
  }

  lemma CostIsSize(id: string, price: real, isBid: bool)
    requires price > 0.0
    ensures BookedAtSize(FillEntry(id, price, isBid))
  {
    var shares := ToDouble(SIZE) / price;
    assert shares * price == ToDouble(SIZE);
    assert ToDouble(SIZE) == 100.0;
    assert shares > 0.0 by {
      if shares < 0.0 {
        RealMath.PositiveProduct(-shares, price, -100.0);
        assert false;
      }
    }
    FromDoubleAtLeast(HALF_SPREAD * shares, 0);
  }

  lemma PollBooksQuoteSize(m: Maker, r: Replies)
    requires Sound(m)
    ensures IsFill(Polled(m, r).status) ==> BookedAtSize(Polled(m, r).entry)
    ensures Sound(Polled(m, r).maker) && Polled(m, r).maker.quotedMid == m.quotedMid
  {
    hide FillEntry, BookedAtSize;
    if Filled(m.bidId, r.bidStatus) {
      CostIsSize(m.bidId, FillPrice(r.bidStatus, m.quotedFair - HALF_SPREAD), true);
    } else if Filled(m.askId, r.askStatus) {
      CostIsSize(m.askId, FillPrice(r.askStatus, m.quotedFair + HALF_SPREAD), false);
    }
  }

  // A fill is booked at exactly the quote size, whatever average price the exchange reports.
  lemma FillBooksQuoteSize(m: Maker, s: BayesianEngine.Shared, nowNs: int, r: Replies)
    requires Sound(m) && m.quotedMid > 0.0 && 0.0 < s.pMarket < 1.0
    ensures var out := Manage(m, s, nowNs, r);
            && Sound(out.maker) && out.maker.quotedMid > 0.0
            && (IsFill(out.status) ==> BookedAtSize(out.entry))
  {
    hide Polled, Quoted, MoveBps, BookedAtSize;
    QuoteIsSound(m, s.pTrue, s, nowNs, r);
    PollBooksQuoteSize(m, r);
    hide Sound;
    CancelledIsSound(m);
  }

  lemma CancelledIsSound(m: Maker)
    ensures Sound(CancelledAll(m))
  {
  }

  // An unhedged ask fill is judged at once by where it sold, not by how the market moved: with the ask still
  // at its price it is an early exit exactly if one minus twice the price does not round below zero, so at
  // any price up to one half, and a hard stop from 0.504 on.
  lemma AskFillAtEntryQuotes(id: string, price: real, s: BayesianEngine.Shared)
    requires 0.0 < price < 1.0 && s.bestAsk == price
    ensures var d := FillEntry(id, price, false);
            var verdict := Evaluated(Opened(d), s).1;
            && EntryProfit(d, s) == (1.0 - 2.0 * price) * d.shares
            && (verdict == EarlyExit <==> FromDouble(EntryProfit(d, s)) >= 0)
            && (price <= 0.5 ==> verdict == EarlyExit)
            && (price >= 0.504 ==> verdict == HardStop)
  {
    hide FromDouble, ToDouble, HardStopLevel, Pnl, Judge;
    var d := FillEntry(id, price, false);
    var p := Opened(d);
    CostIsSize(id, price, false);
    FillShares(id, price);
    PnlAtEntryQuotes(p, s);
    HoldsBetween(p, Pnl(p, s));
    EntryProfitRanges(d, s);
    hide EntryProfit;
  }

  lemma FillShares(id: string, price: real)
    requires 0.0 < price < 1.0
    ensures FillEntry(id, price, false).shares >= 100.0
  {
    var shares := ToDouble(SIZE) / price;
    assert ToDouble(SIZE) == 100.0 && shares * price == 100.0;
    if shares < 100.0 {
      ProductOrder(shares, 100.0, price);
      assert false;
    }
  }

  lemma EntryProfitRanges(d: EntryData, s: BayesianEngine.Shared)
    requires !d.isYesLong && d.shares >= 100.0 && d.initialEdge == FromDouble(HALF_SPREAD * d.shares)
    ensures d.entryPrice <= 0.5 ==> FromDouble(EntryProfit(d, s)) >= 0
    ensures d.entryPrice >= 0.504 ==> FromDouble(EntryProfit(d, s)) < HardStopLevel(d)
  {
    hide FromDouble, ToDouble;
    var profit := EntryProfit(d, s);
    if d.entryPrice <= 0.5 {
      ProductOrder(0.0, 1.0 - 2.0 * d.entryPrice, d.shares);
      FromDoubleNotNegative(profit);
    }
    if d.entryPrice >= 0.504 {
      ProductOrder(1.0 - 2.0 * d.entryPrice, -0.008, d.shares);
      StopAbove(profit, d);
    }
  }

  lemma StopAbove(profit: real, d: EntryData)
    requires d.shares >= 100.0 && d.initialEdge == FromDouble(HALF_SPREAD * d.shares)
    requires profit <= -0.008 * d.shares
    ensures FromDouble(profit) < HardStopLevel(d)
  {
    hide FromDouble, ToDouble;
    var level := -1.5 * ToDouble(d.initialEdge);
    FromDoubleNear(HALF_SPREAD * d.shares);
    FromDoubleNear(profit);
    FromDoubleNear(level);
    ToDoubleOrders(FromDouble(profit), FromDouble(level));
  }

  // A fill needs a tracked order: right after cancel_all the arm can never report one.
  lemma NoFillAfterCancel(m: Maker, s: BayesianEngine.Shared, nowNs: int, r: Replies)
    requires Sound(m) && m.quotedMid > 0.0
    ensures !IsFill(Manage(CancelledAll(m), s, nowNs, r).status)
  {
    hide Quoted, MoveBps;
  }

  // The guards of manage, as a caller can test them beforehand.
  predicate Young(m: Maker, nowNs: int) { (nowNs - m.quoteTimeNs) / 1_000_000 <= MAX_AGE_MS }

  predicate Quiet(m: Maker, s: BayesianEngine.Shared)
    requires m.quotedMid > 0.0
  {
    MoveBps(m, s) <= 0.5
  }

  // The exchange would accept a quote around the model price, with an id for at least one side.
  predicate Quotable(s: BayesianEngine.Shared, r: Replies) {
    && s.pTrue - HALF_SPREAD > 0.01 && s.pTrue + HALF_SPREAD < 0.99
    && ((SideAccepted(Buy, s.pTrue - HALF_SPREAD, r.bid) && r.bid.orderId != "")
        || (SideAccepted(Sell, s.pTrue + HALF_SPREAD, r.ask) && r.ask.orderId != ""))
  }

  // But it can put quotes back: after cancel_all and manage, orders are tracked exactly when the quotes
  // were young, the mid had moved, and a new quote was acceptable.
  lemma QuotesAfterCancel(m: Maker, s: BayesianEngine.Shared, nowNs: int, r: Replies)
    requires Sound(m) && m.quotedMid > 0.0
    ensures HasQuotes(Manage(CancelledAll(m), s, nowNs, r).maker)
       <==> Young(m, nowNs) && !Quiet(m, s) && Quotable(s, r)
  {
    hide SideAccepted;
  }

  // A poll that finds a fill: both guards passed over, and a tracked order reported filled.
  predicate PollsFill(m: Maker, s: BayesianEngine.Shared, nowNs: int, r: Replies)
    requires m.quotedMid > 0.0
  {
    Young(m, nowNs) && Quiet(m, s) && (Filled(m.bidId, r.bidStatus) || Filled(m.askId, r.askStatus))
  }

  // A fill is reported exactly then, the bid first; nothing is tracked afterwards and only the filled
  // order was sent a cancel.
  lemma FillForgetsOtherSide(m: Maker, s: BayesianEngine.Shared, nowNs: int, r: Replies)
    requires Sound(m) && m.quotedMid > 0.0
    ensures IsFill(Manage(m, s, nowNs, r).status) <==> PollsFill(m, s, nowNs, r)
    ensures var out, filledBid := Manage(m, s, nowNs, r), Filled(m.bidId, r.bidStatus);
            PollsFill(m, s, nowNs, r) ==>
              && out.status == (if filledBid then FilledBid else FilledAsk)
              && !HasQuotes(out.maker)
              && out.cancelled == [if filledBid then m.bidId else m.askId]
  {
    hide FillEntry, Quoted, MoveBps;
  }

  lemma TimeoutTracksNothing(m: Maker, s: BayesianEngine.Shared, nowNs: int, r: Replies)
    requires Sound(m) && m.quotedMid > 0.0
    ensures Manage(m, s, nowNs, r).status == TimedOut ==> !HasQuotes(Manage(m, s, nowNs, r).maker)
  {
    hide FillEntry, MoveBps, SideAccepted;
  }

  lemma FillCancelsOne(m: Maker, s: BayesianEngine.Shared, nowNs: int, r: Replies)
    requires Sound(m) && m.quotedMid > 0.0 && PollsFill(m, s, nowNs, r)
    ensures var out := Manage(m, s, nowNs, r);
            && Tracked(out.maker) == []
            && (forall id :: id in out.cancelled <==> id == if Filled(m.bidId, r.bidStatus) then m.bidId else m.askId)
  {
    hide Manage, FillEntry, Quoted, MoveBps;
    FillForgetsOtherSide(m, s, nowNs, r);
  }

  // Every order that stops being tracked was sent a cancel.
  ghost predicate CancelsDropped(m: Maker, out: Managed) {
    forall id :: id in Tracked(m) && id !in Tracked(out.maker) ==> id in out.cancelled
  }

  lemma NoFillCancelsDropped(m: Maker, s: BayesianEngine.Shared, nowNs: int, r: Replies)
    requires Sound(m) && m.quotedMid > 0.0 && !PollsFill(m, s, nowNs, r)
    ensures CancelsDropped(m, Manage(m, s, nowNs, r))
  {
    hide FillEntry, Quoted, MoveBps;
  }

  // That holds of a call except exactly when it polls a fill while two different orders are tracked: the
  // other order's id is cleared before the cancels are sent.
  lemma CancelsDroppedIff(m: Maker, s: BayesianEngine.Shared, nowNs: int, r: Replies)
    requires Sound(m) && m.quotedMid > 0.0
    ensures CancelsDropped(m, Manage(m, s, nowNs, r))
       <==> !(PollsFill(m, s, nowNs, r) && m.bidId != "" && m.askId != "" && m.bidId != m.askId)
  {
    hide Manage, Young, Quiet;
    var out := Manage(m, s, nowNs, r);
    if PollsFill(m, s, nowNs, r) {
      FillCancelsOne(m, s, nowNs, r);
      assert m.bidId != "" ==> m.bidId in Tracked(m);
      assert m.askId != "" ==> m.askId in Tracked(m);
    } else {
      NoFillCancelsDropped(m, s, nowNs, r);
    }
  }

  class Arm {
    var bidId: string
    var askId: string
    var quotedMid: real
    var quotedFair: real
    var quoteTimeNs: int

    ghost function Model(): Maker
      reads this
    {
      Maker(bidId, askId, quotedMid, quotedFair, quoteTimeNs)
    }

    constructor ()
      ensures Model() == NO_QUOTES
    {
      bidId, askId, quotedMid, quotedFair, quoteTimeNs := "", "", 0.0, 0.0, 0;
    }

    method CancelAll() returns (cancelled: seq<string>)
      modifies this
      ensures Model() == CancelledAll(old(Model())) && cancelled == Tracked(old(Model()))
    {
      cancelled := [];
      if bidId != "" {
        cancelled := cancelled + [bidId];
        bidId := "";
      }
      if askId != "" {
        cancelled := cancelled + [askId];
        askId := "";
      }
    }

    method SubmitSide(side: Side, price: real, r: SubmitReply) returns (ok: bool, sent: seq<Order>)
      ensures ok == SideAccepted(side, price, r) && sent == OrderFor(side, price)
    {
      var shares := if price > 0.0 then (SIZE as real / price).Floor else 0;
      var offered, wanted := SIZE, shares;
      if side == Sell { offered, wanted := shares, SIZE; }
      if offered == 0 || wanted == 0 { return false, []; }
      return r.success, [PolyOrder(side, offered, wanted)];
    }

    method Quote(fair: real, s: BayesianEngine.Shared, nowNs: int, r: Replies)
      returns (ok: bool, cancelled: seq<string>, sent: seq<Order>)
      modifies this
      ensures (Model(), ok) == Quoted(old(Model()), fair, s, nowNs, r)
      ensures cancelled == Tracked(old(Model())) && sent == QuoteOrders(fair)
    {
      hide SideAccepted, OrderFor;
      cancelled := CancelAll();
      var bid, ask := fair - HALF_SPREAD, fair + HALF_SPREAD;
      if bid <= 0.01 || ask >= 0.99 { return false, cancelled, []; }
      var okBid, buy := SubmitSide(Buy, bid, r.bid);
      if okBid { bidId := r.bid.orderId; }
      var okAsk, sell := SubmitSide(Sell, ask, r.ask);
      if okAsk { askId := r.ask.orderId; }
      sent := buy + sell;
      if !okBid && !okAsk { return false, cancelled, sent; }
      quotedFair := fair;
      quotedMid := s.pMarket;
      quoteTimeNs := nowNs;
      return true, cancelled, sent;
    }

    method ManageQuotes(s: BayesianEngine.Shared, nowNs: int, r: Replies) returns (out: Managed)
      requires Sound(Model()) && quotedMid > 0.0
      modifies this
      ensures out == Manage(old(Model()), s, nowNs, r) && out.maker == Model()
    {
      hide FillEntry, Quoted, MoveBps, QuoteOrders;
      var aged := (nowNs - quoteTimeNs) / 1_000_000;
      if aged > MAX_AGE_MS {
        var dropped := CancelAll();
        return Managed(Maker(bidId, askId, quotedMid, quotedFair, quoteTimeNs), TimedOut, NO_ENTRY, dropped, []);
      }
      if MoveBps(Maker(bidId, askId, quotedMid, quotedFair, quoteTimeNs), s) > 0.5 {
        var ok, dropped, sent := Quote(s.pTrue, s, nowNs, r);
        return Managed(Maker(bidId, askId, quotedMid, quotedFair, quoteTimeNs),
                       if ok then Repriced else TimedOut, NO_ENTRY, dropped, sent);
      }
      if bidId != "" && r.bidStatus.state == OrderState.Filled {
        var e := FillEntry(bidId, FillPrice(r.bidStatus, quotedFair - HALF_SPREAD), true);
        askId := "";
        var dropped := CancelAll();
        return Managed(Maker(bidId, askId, quotedMid, quotedFair, quoteTimeNs), FilledBid, e, dropped, []);
      }
      if askId != "" && r.askStatus.state == OrderState.Filled {
        var e := FillEntry(askId, FillPrice(r.askStatus, quotedFair + HALF_SPREAD), false);
        bidId := "";
        var dropped := CancelAll();
        return Managed(Maker(bidId, askId, quotedMid, quotedFair, quoteTimeNs), FilledAsk, e, dropped, []);
      }
      return Managed(Maker(bidId, askId, quotedMid, quotedFair, quoteTimeNs), Active, NO_ENTRY, [], []);
    }
  }
}
