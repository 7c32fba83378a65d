/**
 What one pass of the order state machine does, state by state and exactly: where the machine goes and what
 it sends, in terms of the clock, the quotes, the flags and the replies it reads.
 */
module MachineConduct {
  import opened Amounts
  import opened Exchange
  import opened OrderStateMachine
  import opened PositionManager
  import BayesianEngine
  import MakerArm
  import RealMath
  import RollingVol
  import TakerArm

  // ---- An open position ----

  // The orders that sell the position's shares at the bid and buy back or sell off its hedge. The sale is
  // left out if either amount truncates to zero, the hedge below a thousandth of a Bitcoin.
  ghost predicate ClosesOut(d: EntryData, isAbove: bool, s: BayesianEngine.Shared, orders: seq<Order>) {
    var price := if s.bestBid <= 0.0 then 0.01 else s.bestBid;
    var shares, usdc := (d.shares * 1000000.0).Floor, (d.shares * price * 1000000.0).Floor;
    orders == (if shares > 0 && usdc > 0 then [PolyOrder(Sell, shares, usdc)] else [])
              + (if d.hedgeQty >= 0.001 then [HedgeOrder(if isAbove then Buy else Sell, d.hedgeQty, s.btcMid)] else [])
  }

  // The ids of the orders sent are those replied; an id without an order is kept.
  predicate TracksClose(o: Osm, i: Inputs, out: Outcome) {
    var sent := out.closeOrders;
    && out.osm.closePolyId ==
         (if sent != [] && sent[0].PolyOrder? then i.close.poly.orderId else o.closePolyId)
    && out.osm.closeHedgeId ==
         (if sent != [] && sent[|sent| - 1].HedgeOrder? then i.close.hedgeId else o.closeHedgeId)
  }

  lemma CloseClosesOut(o: Osm, i: Inputs)
    requires o.position.isOpen
    ensures TracksClose(o, i, ClosePosition(o, i))
    ensures ClosesOut(o.position.data, o.isAbove, i.view.signals, ClosePosition(o, i).closeOrders)
    ensures ClosePosition(o, i).osm.state == Closing && ClosePosition(o, i).booking == NoBooking
    ensures ClosePosition(o, i).osm.position == o.position
  {
  }

  // The level below which an open position is stopped: one and a half times its expected edge.
  function StopUnits(d: EntryData): Amount { FromDouble(-1.5 * (d.initialEdge as real / 1000000.0)) }

  // An open machine evaluated before expiry stays open, as it is and sending nothing, exactly with more than
  // thirty seconds left, neither close flag up and a loss that does not pass the stop. Otherwise it turns to
  // closing and sends the orders that close the position out.
  lemma OpenPassIff(o: Osm, t: real, i: Inputs)
    requires Inv(o) && GoodInputs(i) && o.state == PositionOpen && t >= 0.0
    ensures var out, pnl := Act(o, Evaluate(t, i)), Pnl(o.position, i.view.signals);
            && (out.osm.state == PositionOpen <==>
                  && t > 30.0 && !o.flags.positionsClosed && !o.flags.forceClosed
                  && StopUnits(o.position.data) <= pnl < 0)
            && out.booking == NoBooking
            && (out.osm.state == PositionOpen ==> out.osm.position == o.position && out.closeOrders == [])
            && (out.osm.state != PositionOpen ==>
                  && out.osm.state == Closing && out.osm.position.isOpen
                  && out.osm.position.data == o.position.data
                  && ClosesOut(o.position.data, o.isAbove, i.view.signals, out.closeOrders)
                  && TracksClose(o, i, out))
  {
    hide ClosePosition, Evaluated, Pnl, ClosesOut, TracksClose, FromDouble, MakerArm.Sound, HardStopLevel;
    SameTracking(o, o.(flags := Raised(o.flags, t)), i);
    SameTracking(o, o.(flags := Raised(o.flags, t), position := Evaluated(o.position, i.view.signals).0), i);
    var raised := o.(flags := Raised(o.flags, t));
    VerdictIs(o.position, i.view.signals);
    NeverTrails(o, i);
    CloseClosesOut(raised, i);
    CloseClosesOut(raised.(position := Evaluated(o.position, i.view.signals).0), i);
  }

  lemma SameTracking(o: Osm, p: Osm, i: Inputs)
    requires p.closePolyId == o.closePolyId && p.closeHedgeId == o.closeHedgeId
    ensures forall out :: TracksClose(p, i, out) <==> TracksClose(o, i, out)
  {
  }

  // An unarmed position is held exactly between its stop and break-even.
  lemma VerdictIs(p: Position, s: BayesianEngine.Shared)
    requires p.isOpen && p.data.initialEdge >= 0 && !p.trailing && p.peak == 0
    ensures Evaluated(p, s).1 == NoExit <==> StopUnits(p.data) <= Pnl(p, s) < 0
  {
    hide Pnl, HardStopLevel, FromDouble, Judge;
    HoldsBetween(p, Pnl(p, s));
    LevelsAre(p.data, 0);
  }

  // ---- Clock and flags ----

  // Every evaluation leaves each flag up exactly if it was or its deadline has come.
  lemma DeadlinesIff(o: Osm, t: real, i: Inputs)
    requires Inv(o) && GoodInputs(i)
    ensures var f := Act(o, Evaluate(t, i)).osm.flags;
            && (f.entriesStopped <==> o.flags.entriesStopped || t <= 120.0)
            && (f.quotesCancelled <==> o.flags.quotesCancelled || t <= 45.0)
            && (f.positionsClosed <==> o.flags.positionsClosed || t <= 30.0)
            && (f.forceClosed <==> o.flags.forceClosed || t <= 10.0)
  {
    hide ClosePosition, Evaluated, MakerArm.Manage, MakerArm.Quoted, TakerArm.Fired, WantsTaker, MinEdge;
    hide MakerArm.Sound;
    var raised := o.(flags := Raised(o.flags, t));
    CloseBooksNothing(raised, i);
    if o.state == PositionOpen {
      CloseBooksNothing(raised.(position := Evaluated(o.position, i.view.signals).0), i);
    } else if o.state == MakerQuoted && raised.flags.quotesCancelled {
      LateFillUnreachable(raised, i);
    }
  }

  // After expiry an open machine turns to closing and sends its closing orders, whatever it was doing, and
  // any other machine stands still.
  lemma ExpiredPass(o: Osm, t: real, i: Inputs)
    requires Inv(o) && GoodInputs(i) && t < 0.0
    ensures var out := Act(o, Evaluate(t, i));
            && out.booking == NoBooking && out.osm.position == o.position && out.osm.maker == o.maker
            && (o.position.isOpen ==>
                  && out.osm.state == Closing && TracksClose(o, i, out)
                  && ClosesOut(o.position.data, o.isAbove, i.view.signals, out.closeOrders))
            && (!o.position.isOpen ==> out.osm.state == o.state && out.closeOrders == [])
  {
    hide ClosePosition, ClosesOut, TracksClose, MakerArm.Sound;
    SameTracking(o, o.(flags := Raised(o.flags, t)), i);
    var raised := o.(flags := Raised(o.flags, t));
    CloseBooksNothing(raised, i);
    if o.position.isOpen { CloseClosesOut(raised, i); }
  }

  // ---- Looking for an entry ----

  // The edge a taker order has to have: 0.87 cents over half the spread, or 1.37 cents if the spread is
  // outside the range from 0.2 to 100 cents.
  function Needed(s: BayesianEngine.Shared): real {
    0.0087 + if 0.002 < s.bestAsk - s.bestBid < 1.0 then (s.bestAsk - s.bestBid) / 2.0 else 0.005
  }

  lemma NeededIs(s: BayesianEngine.Shared)
    ensures MinEdge(s) == Needed(s)
  {
  }

  // The edge suffices, and thirty seconds have passed since the last taker entry.
  predicate TakerDue(o: Osm, i: Inputs) {
    && i.view.signals.pTrue - i.view.signals.pMarket >= Needed(i.view.signals)
    && (o.lastEntryNs == 0 || (i.nowNs - o.lastEntryNs) / 1_000_000 >= 30_000)
  }

  lemma TakerDueIff(o: Osm, i: Inputs)
    ensures TakerDue(o, i) <==> WantsTaker(o, i)
  {
    NeededIs(i.view.signals);
    hide MinEdge, Needed;
  }

  // An idle machine before expiry looks for an entry only with more than two minutes left, entries not
  // stopped and fewer than three open positions. It then turns to the taker exactly if one is due, and to
  // quoting exactly if none is, quotes are not cancelled, the regime is sideways, the edge is small either
  // way, the quote around the model price as the arm reads it is inside the boundaries and at least one
  // side is accepted. It books and sends nothing.
  lemma IdlePassIff(o: Osm, t: real, i: Inputs)
    requires Inv(o) && GoodInputs(i) && o.state == Idle && t >= 0.0
    ensures var out, s, p := Act(o, Evaluate(t, i)), i.view.signals, i.view.signals.pTrue;
            var looks := t > 120.0 && !o.flags.entriesStopped && i.view.openCount < 3;
            && out.booking == NoBooking && out.closeOrders == []
            && (out.osm.state == TakerEval <==> looks && TakerDue(o, i))
            && (out.osm.state == MakerQuoted <==>
                  && looks && !TakerDue(o, i) && !o.flags.quotesCancelled && s.regime == RollingVol.Sideways
                  && -Needed(s) < p - s.pMarket < Needed(s)
                  && p - 0.005 > 0.01 && p + 0.005 < 0.99 && (i.maker.bid.success || i.maker.ask.success))
            && (out.osm.state == TakerEval || out.osm.state == MakerQuoted || out.osm.state == Idle)
            && (out.osm.state == MakerQuoted ==>
                  out.osm.maker == MakerArm.Maker(if i.maker.bid.success then i.maker.bid.orderId else "",
                                                  if i.maker.ask.success then i.maker.ask.orderId else "",
                                                  i.arm.pMarket, p, i.nowNs))
            && (out.osm.state == TakerEval ==> out.osm.maker == o.maker)
            && out.osm.lastEntryNs == o.lastEntryNs && out.osm.position == o.position
  {
    hide Needed, TakerDue, MinEdge, WantsTaker, MakerArm.Sound, MakerArm.Quoted;
    var raised := o.(flags := Raised(o.flags, t));
    NeededIs(i.view.signals);
    TakerDueIff(o, i);
    SameWants(o, raised, i);
    MakerArm.QuotedIff(o.maker, i.view.signals.pTrue, i.arm, i.nowNs, i.maker);
  }

  // ---- Firing ----

  // A machine about to fire opens a position exactly if the attempt on the signals the arm reads succeeds,
  // with the entry the attempt made, booked at its cost; otherwise it goes idle.
  lemma FiringPassIff(o: Osm, t: real, i: Inputs)
    requires Inv(o) && GoodInputs(i) && o.state == TakerEval && t >= 0.0
    ensures var out, v := Act(o, Evaluate(t, i)), i.view.(signals := i.arm);
            var fire := TakerArm.Fired(v, o.isAbove, i.taker);
            && out.closeOrders == [] && out.osm.maker == o.maker
            && (out.osm.state == PositionOpen <==> fire.result == TakerArm.Success)
            && (out.osm.state == PositionOpen ==>
                  && out.osm.position == Position(true, fire.entry, 0, false)
                  && out.booking == Books(fire.entry.shares * fire.entry.entryPrice)
                  && out.osm.lastEntryNs == i.nowNs)
            && (out.osm.state != PositionOpen ==>
                  && out.osm.state == Idle && out.booking == NoBooking && out.osm.position == o.position
                  && out.osm.lastEntryNs == o.lastEntryNs)
  {
    hide TakerArm.Fired, MakerArm.Sound;
  }

  // ---- Quoting ----

  // The market mid has moved by more than half a basis point of the mid that was quoted.
  predicate MidMoved(m: MakerArm.Maker, s: BayesianEngine.Shared) {
    RealMath.Abs(s.pMarket - m.quotedMid) > 0.00005 * m.quotedMid
  }

  // A quoting machine: with 45 seconds or less left, or quotes cancelled, it goes idle. Else, if a taker is
  // due, it cancels everything and turns to the taker. Else it goes idle if the quotes are over a second and
  // a half old, or the mid has moved and no new quote is accepted; it opens a position at 100 USDC if a
  // tracked order is reported filled; and it keeps quoting otherwise.
  lemma QuotingPassIff(o: Osm, t: real, i: Inputs)
    requires Inv(o) && GoodInputs(i) && o.state == MakerQuoted && t >= 0.0
    ensures var out, m, p := Act(o, Evaluate(t, i)), o.maker, i.arm.pTrue;
            var final := t <= 45.0 || o.flags.quotesCancelled;
            var aged := (i.nowNs - m.quoteTimeNs) / 1_000_000 > 1500;
            var requoted := p - 0.005 > 0.01 && p + 0.005 < 0.99 && (i.maker.bid.success || i.maker.ask.success);
            var filled := (m.bidId != "" && i.maker.bidStatus.state == OrderState.Filled)
                          || (m.askId != "" && i.maker.askStatus.state == OrderState.Filled);
            && out.closeOrders == []
            && (out.osm.state == TakerEval <==> !final && TakerDue(o, i))
            && (out.osm.state == PositionOpen <==> !final && !TakerDue(o, i) && !aged && !MidMoved(m, i.arm) && filled)
            && (out.osm.state == MakerQuoted <==>
                  && !final && !TakerDue(o, i) && !aged
                  && if MidMoved(m, i.arm) then requoted else !filled)
            && (out.osm.state in {TakerEval, PositionOpen, MakerQuoted, Idle})
            && (out.osm.state == TakerEval ==> !MakerArm.HasQuotes(out.osm.maker))
            && out.booking == (if out.osm.state == PositionOpen then Books(100.0) else NoBooking)
            && (out.osm.state == PositionOpen ==>
                  out.osm.position == Position(true, MakerArm.Manage(m, i.arm, i.nowNs, i.maker).entry, 0, false))
            && (!final && out.osm.state != TakerEval ==>
                  out.osm.maker == MakerArm.Manage(m, i.arm, i.nowNs, i.maker).maker)
            && out.osm.lastEntryNs == o.lastEntryNs
  {
    hide Needed, TakerDue, WantsTaker, MakerArm.Sound, MakerArm.Manage, HandleLateFill, Cost;
    var raised := o.(flags := Raised(o.flags, t));
    TakerDueIff(o, i);
    SameWants(o, raised, i);
    MakerArm.ManagedIff(o.maker, i.arm, i.nowNs, i.maker);
    MakerArm.FillBooksQuoteSize(o.maker, i.arm, i.nowNs, i.maker);
    assert ToDouble(MakerArm.SIZE) == 100.0;
    if raised.flags.quotesCancelled { LateFillUnreachable(raised, i); }
  }

  // ---- Closing ----

  // A closing machine before expiry lets go of its position, and the accounts with it, exactly if its close
  // has no id or is filled or cancelled; otherwise it waits. It sends nothing.
  lemma ClosingPassIff(o: Osm, t: real, i: Inputs)
    requires Inv(o) && GoodInputs(i) && o.state == Closing && t >= 0.0
    ensures var out, d := Act(o, Evaluate(t, i)), o.position.data;
            var over := o.closePolyId == "" || i.close.status in {OrderState.Filled, OrderState.Cancelled};
            && out.closeOrders == [] && out.osm.maker == o.maker
            && out.osm.state == (if over then Idle else Closing)
            && out.osm.position.isOpen == !over && out.osm.position.data == d
            && out.booking == (if over then Releases(d.shares * d.entryPrice) else NoBooking)
  {
    hide MakerArm.Sound;
  }

  // A flatten closes out an open position at once and leaves any other machine idle.
  lemma FlattenPass(o: Osm, i: Inputs)
    requires Inv(o) && GoodInputs(i)
    ensures var out := Act(o, Flatten(i));
            && out.booking == NoBooking && out.osm.position == o.position && out.osm.maker == o.maker
            && (o.position.isOpen ==>
                  && out.osm.state == Closing && TracksClose(o, i, out)
                  && ClosesOut(o.position.data, o.isAbove, i.view.signals, out.closeOrders))
            && (!o.position.isOpen ==> out.osm.state == Idle && out.closeOrders == [])
  {
    hide ClosesOut, TracksClose, MakerArm.Sound;
    CloseBooksNothing(o, i);
    if o.position.isOpen { CloseClosesOut(o, i); }
    hide ClosePosition;
  }

  // ---- The hedge over a whole trade ----

  lemma BtcOfClose(d: EntryData, isAbove: bool, s: BayesianEngine.Shared, orders: seq<Order>)
    requires ClosesOut(d, isAbove, s, orders)
    ensures TakerArm.NetBtc(orders) ==
              if d.hedgeQty < 0.001 then 0.0 else if isAbove then d.hedgeQty else -d.hedgeQty
  {
    if |orders| == 2 {
      assert orders[1..] == [orders[1]] && orders[1..][1..] == [];
      assert TakerArm.NetBtc(orders[1..]) == TakerArm.BtcFrom(orders[1]) + TakerArm.NetBtc([]);
    } else if |orders| == 1 {
      assert orders[1..] == [];
    }
  }

  // The close of a taker entry brings the Bitcoin executed at entry back to zero exactly if at least a
  // thousandth was executed: an entry hedged with between 99 and 100 per cent of that keeps it for good.
  lemma CloseUndoesHedgeIff(v: View, r: TakerArm.Replies, o: Osm, i: Inputs)
    requires WellQuoted(v) && Inv(o) && GoodInputs(i) && o.position.isOpen
    requires TakerArm.Fired(v, o.isAbove, r).result == TakerArm.Success
    requires o.position.data == TakerArm.Fired(v, o.isAbove, r).entry
    ensures var entered, closed := TakerArm.Fired(v, o.isAbove, r).sent, Act(o, Flatten(i)).closeOrders;
            TakerArm.NetHedge(entered, r.hedge.executedQty) + TakerArm.NetBtc(closed) == 0.0 <==>
              r.hedge.executedQty >= 0.001
  {
    hide TakerArm.Fired, ClosesOut, TakerArm.SizeOf, TakerArm.HedgeOf, TakerArm.NetHedge, TakerArm.NetBtc, Act;
    FlattenPass(o, i);
    BtcOfClose(o.position.data, o.isAbove, i.view.signals, Act(o, Flatten(i)).closeOrders);
    TakerArm.SuccessRecords(v, o.isAbove, r);
    TakerArm.SucceedsIff(v, o.isAbove, r);
    TakerArm.HedgeHeld(v, o.isAbove, r);
    assert r.hedge.executedQty >= 0.99 * 0.001;
  }
}
