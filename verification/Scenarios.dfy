/**
 Concrete inputs, and what one machine does on them: instances of the results about single machines, and
 the passes from which the runs of several machines are put together.
 */
module Scenarios {
  import opened Amounts
  import opened Exchange
  import opened OrderStateMachine
  import BayesianEngine
  import MakerArm
  import PM = PositionManager
  import RollingVol
  import Sizing
  import TakerArm

  // ---- A calm market: both sides are quoted, and the bid is later reported filled ----

  const CALM := BayesianEngine.INITIAL.shared

  const MAKER_REPLIES :=
    MakerArm.Replies(SubmitReply(true, "b"), SubmitReply(true, "a"),
                     StatusReply(OrderState.Filled, 0.0), StatusReply(OrderState.Live, 0.0))

  const NO_CLOSE := CloseReplies(SubmitReply(false, ""), "", OrderState.Live)

  // The totals a pass reads are arguments.
  function CalmPass(exposure: real, openCount: int): Action {
    Evaluate(200.0, Inputs(View(CALM, 0.0, exposure, openCount), CALM, 0,
                           TakerArm.Replies(SubmitReply(false, ""), HedgeReply(false, "", 0.0, 0.0)),
                           MAKER_REPLIES, NO_CLOSE))
  }

  const QUOTING := Fresh(true).(state := MakerQuoted, maker := MakerArm.Maker("b", "a", 0.5, 0.5, 0))

  lemma CalmIsGood(exposure: real, openCount: int)
    ensures GoodAction(CalmPass(exposure, openCount)) && Inv(QUOTING) && Inv(Fresh(true))
    ensures MinEdge(CALM) > 0.0
  {
  }

  lemma SharesWorth(price: real)
    requires price == 0.495 || price == 0.505
    ensures (MakerArm.SIZE as real / price).Floor > 0
  {
    assert MakerArm.SIZE as real / price > 1.0;
  }

  lemma QuoteAccepted()
    ensures MakerArm.Quoted(MakerArm.NO_QUOTES, 0.5, CALM, 0, MAKER_REPLIES) == (QUOTING.maker, true)
  {
    SharesWorth(0.495);
    SharesWorth(0.505);
  }

  lemma QuotesFromIdle(exposure: real, openCount: int)
    requires Inv(Fresh(true)) && GoodAction(CalmPass(exposure, openCount)) && openCount < MAX_OPEN_POSITIONS
    ensures Act(Fresh(true), CalmPass(exposure, openCount)) == Quiet(QUOTING)
  {
    CalmIsGood(exposure, openCount);
    hide MinEdge;
    QuoteAccepted();
  }

  // The fill opens a position whatever the count already is.
  lemma FillOpens(exposure: real, openCount: int)
    requires Inv(QUOTING) && GoodAction(CalmPass(exposure, openCount))
    ensures var out := Act(QUOTING, CalmPass(exposure, openCount));
            out.booking.Books? && out.osm.state == PositionOpen
  {
    CalmIsGood(exposure, openCount);
    hide MinEdge, MakerArm.FillEntry;
  }

  // Here the fill leaves the ask on the book: it is no longer tracked and was sent no cancel.
  lemma AskLeftOnBook()
    ensures MakerArm.Sound(QUOTING.maker) && QUOTING.maker.quotedMid > 0.0
    ensures var out := MakerArm.Manage(QUOTING.maker, CALM, 0, MAKER_REPLIES);
            && out.status == MakerArm.FilledBid && !MakerArm.CancelsDropped(QUOTING.maker, out)
            && "a" in MakerArm.Tracked(QUOTING.maker) && "a" !in MakerArm.Tracked(out.maker) + out.cancelled
  {
    hide MakerArm.FillEntry;
    MakerArm.CancelsDroppedIff(QUOTING.maker, CALM, 0, MAKER_REPLIES);
    var out := MakerArm.Manage(QUOTING.maker, CALM, 0, MAKER_REPLIES);
    assert MakerArm.Tracked(QUOTING.maker) == ["b", "a"] && MakerArm.Tracked(out.maker) == [];
    assert MakerArm.Tracked(QUOTING.maker)[1] == "a" && out.cancelled == ["b"];
  }

  // At 44 seconds with the mid moved, the machine cancels, goes idle, and two fresh orders are left that
  // no later run ever cancels.
  const MOVED := CALM.(pMarket := 0.6)

  const FINAL_PASS :=
    Evaluate(44.0, Inputs(View(CALM, 0.0, 0.0, 0), MOVED, 0,
                          TakerArm.Replies(SubmitReply(false, ""), HedgeReply(false, "", 0.0, 0.0)),
                          MAKER_REPLIES, NO_CLOSE))

  lemma FinalPassLeavesQuotes(actions: seq<Action>)
    requires GoodActions(actions) && Inv(QUOTING) && GoodAction(FINAL_PASS)
    ensures var to := Act(QUOTING, FINAL_PASS).osm;
            && Inv(to) && to.state == Idle && to.maker.bidId == "b" && to.maker.askId == "a"
            && Run(to, actions).osm.maker == to.maker
  {
    var to := Act(QUOTING, FINAL_PASS).osm;
    StepKeeps(QUOTING, FINAL_PASS);
    FirstLateEvaluation(QUOTING, 44.0, FINAL_PASS.inputs);
    FreshQuotes();
    ForgottenQuotesStay(to, actions);
  }

  lemma FreshQuotes()
    requires Inv(QUOTING) && GoodAction(FINAL_PASS)
    ensures var to := Act(QUOTING, FINAL_PASS).osm;
            to.state == Idle && to.maker.bidId == "b" && to.maker.askId == "a"
  {
    SharesWorth(0.495);
    SharesWorth(0.505);
    assert MakerArm.MoveBps(MakerArm.CancelledAll(QUOTING.maker), MOVED) > 0.5;
  }

  // ---- A wide edge on a deep bankroll: the taker fires at the largest size it may, and both legs fill ----

  const KEEN := BayesianEngine.Shared(0.9, 0.5, 100.0, 0.001, RollingVol.Sideways, 0.49, 0.5)

  const BANKROLL := 4000.0

  function KeenView(exposure: real): View { View(KEEN, BANKROLL, exposure, 0) }

  // Exactly the hedge asked for is executed.
  function KeenReplies(exposure: real): TakerArm.Replies {
    TakerArm.Replies(SubmitReply(true, "p"), HedgeReply(true, "h", TakerArm.HedgeOf(KeenView(exposure)), 100.0))
  }

  function KeenInputs(exposure: real): Inputs {
    Inputs(KeenView(exposure), KEEN, 1, KeenReplies(exposure),
           MakerArm.Replies(SubmitReply(false, ""), SubmitReply(false, ""),
                            StatusReply(OrderState.Live, 0.0), StatusReply(OrderState.Live, 0.0)),
           NO_CLOSE)
  }

  function KeenPass(exposure: real): Action { Evaluate(200.0, KeenInputs(exposure)) }

  const FIRING := Fresh(true).(state := TakerEval)

  lemma KeenIsGood(exposure: real)
    ensures Inv(FIRING) && Inv(Fresh(true)) && GoodAction(KeenPass(exposure))
  {
  }

  lemma EngagesFromIdle(exposure: real)
    requires Inv(Fresh(true)) && GoodAction(KeenPass(exposure))
    ensures Act(Fresh(true), KeenPass(exposure)) == Quiet(FIRING)
  {
    assert MinEdge(KEEN) < 0.4;
    hide MinEdge;
  }

  lemma KeenStake()
    ensures Sizing.KellyStake(0.9, 0.5, 4_000_000_000) == 400.0
  {
    assert Sizing.Odds(0.5) == 1.0;
    hide Sizing.Odds;
    assert ToDouble(4_000_000_000) == 4000.0;
  }

  lemma WholeBankroll()
    ensures FromDouble(BANKROLL) == 4_000_000_000 && FromDouble(0.0) == 0
  {
  }

  // The room left under the total cap is filled up to the trade cap.
  predicate Fills(exposure: real, size: Amount) {
    var room := Sizing.MAX_TOTAL_EXPOSURE - FromDouble(exposure);
    room >= TakerArm.MIN_SIZE && size == if room < Sizing.MAX_TRADE then room else Sizing.MAX_TRADE
  }

  lemma KeenSize(exposure: real, size: Amount)
    requires Fills(exposure, size)
    ensures TakerArm.SizeOf(KeenView(exposure)) == size && TakerArm.MIN_SIZE <= size <= Sizing.MAX_TRADE
  {
    hide Sizing.KellyStake, FromDouble;
    KeenStake();
    WholeBankroll();
    Sizing.KellyFillsCaps(0.9, 0.5, FromDouble(BANKROLL), FromDouble(exposure));
    assert ToDouble(size) <= 200.0;
  }

  lemma KeenHedge(exposure: real, size: Amount)
    requires Fills(exposure, size)
    ensures TakerArm.HedgeOf(KeenView(exposure)) == ToDouble(size) / 100.0
    ensures 0.01 <= TakerArm.HedgeOf(KeenView(exposure)) <= 2.0
  {
    hide FromDouble, TakerArm.SizeOf;
    KeenSize(exposure, size);
    WholeBankroll();
    assert 1.0 <= ToDouble(size) <= 200.0 && ToDouble(4_000_000_000) == 4000.0;
  }

  lemma KeenSucceeds(exposure: real, size: Amount, isAbove: bool)
    requires Fills(exposure, size)
    ensures TakerArm.Fired(KeenView(exposure), isAbove, KeenReplies(exposure)).result == TakerArm.Success
    ensures var e := TakerArm.Fired(KeenView(exposure), isAbove, KeenReplies(exposure)).entry;
            PM.Cost(e) == ToDouble(size) && e.hedgeQty == ToDouble(size) / 100.0 && e.shares > 0.0
  {
    hide TakerArm.SizeOf, TakerArm.HedgeOf, PM.Cost, TakerArm.Fired, FromDouble;
    KeenSize(exposure, size);
    KeenHedge(exposure, size);
    TakerArm.SucceedsIff(KeenView(exposure), isAbove, KeenReplies(exposure));
    TakerArm.SuccessBooksItsSize(KeenView(exposure), isAbove, KeenReplies(exposure));
    TakerArm.SuccessEntry(KeenView(exposure), isAbove, KeenReplies(exposure));
  }

  // Any machine about to fire books that size.
  lemma KeenPassFires(o: Osm, exposure: real, size: Amount)
    requires Inv(o) && o.state == TakerEval && Fills(exposure, size)
    ensures GoodAction(KeenPass(exposure))
    ensures var out := Act(o, KeenPass(exposure));
            && out.booking == Books(ToDouble(size))
            && out.osm.state == PositionOpen && out.osm.position.data.hedgeQty == ToDouble(size) / 100.0
            && !out.osm.flags.positionsClosed == !o.flags.positionsClosed
  {
    KeenIsGood(exposure);
    hide TakerArm.Fired, PM.Cost, FromDouble;
    KeenSucceeds(exposure, size, o.isAbove);
  }

  // ---- After expiry ----

  const LATE_PASS := Evaluate(-1.0, KeenInputs(0.0))

  lemma FullRoom()
    ensures Fills(0.0, Sizing.MAX_TRADE)
  {
    WholeBankroll();
  }

  // Holding a position with a hedge of two Bitcoin, of which so many have been sent for closing.
  ghost predicate Hedged(t: Trace, closed: real) {
    && Inv(t.osm) && t.osm.position.isOpen && t.osm.position.data.hedgeQty == 2.0
    && HedgeClosed(t.closeOrders) == closed && t.bookings == [Books(200.0)]
  }

  lemma LatePassClosesAgain(t: Trace, closed: real)
    requires Hedged(t, closed) && GoodAction(LATE_PASS)
    ensures Hedged(Extend(t, LATE_PASS), closed + 2.0)
  {
    hide Inv, Act, HedgeClosed;
    StepKeeps(t.osm, LATE_PASS);
    ExpiredStep(t.osm, LATE_PASS);
    HedgeClosedAppend(t.closeOrders, Act(t.osm, LATE_PASS).closeOrders);
  }

  // A fresh machine enters, and is then evaluated twice after expiry: the two Bitcoin of its hedge are
  // sent for closing twice, and nothing is released.
  lemma HedgeClosedTwice(actions: seq<Action>)
    requires actions == [KeenPass(0.0), KeenPass(0.0), LATE_PASS, LATE_PASS]
    ensures GoodActions(actions) && Inv(Fresh(true))
    ensures var t := Run(Fresh(true), actions);
            HedgeClosed(t.closeOrders) == 4.0 && !SomeRelease(t.bookings) && t.osm.position.isOpen
  {
    KeenIsGood(0.0);
    assert GoodActions(actions);
    assert actions[..3][..2] == actions[..2] && actions[..3][2] == LATE_PASS && actions[3] == LATE_PASS;
    EntersInTwo(actions[..2]);
    hide Inv, Extend, Hedged, KeenPass, HedgeClosed, Run;
    var o := Fresh(true);
    RunStep(o, actions);
    RunStep(o, actions[..3]);
    LatePassClosesAgain(Run(o, actions[..2]), 0.0);
    LatePassClosesAgain(Run(o, actions[..3]), 2.0);
    HedgedMeans(Run(o, actions), 4.0);
  }

  lemma HedgedMeans(t: Trace, closed: real)
    requires Hedged(t, closed)
    ensures HedgeClosed(t.closeOrders) == closed && !SomeRelease(t.bookings) && t.osm.position.isOpen
  {
  }

  lemma EntersInTwo(actions: seq<Action>)
    requires actions == [KeenPass(0.0), KeenPass(0.0)]
    ensures GoodActions(actions) && Inv(Fresh(true))
    ensures Hedged(Run(Fresh(true), actions), 0.0)
  {
    KeenIsGood(0.0);
    var o := Fresh(true);
    assert actions[..1] == [KeenPass(0.0)] && actions[..1][..0] == [] && actions[..2] == actions;
    FullRoom();
    hide KeenPass;
    RunStep(o, actions[..1]);
    RunStep(o, actions);
    EngagesFromIdle(0.0);
    KeenPassFires(FIRING, 0.0, Sizing.MAX_TRADE);
    assert Inv(Run(o, actions).osm);
    assert ToDouble(Sizing.MAX_TRADE) == 200.0;
    hide Act;
    NoOrders();
  }

  // ---- A close that was never accepted ----

  // Twenty seconds before expiry the close is sent, and the exchange gives it no id.
  const CLOSE_PASS := Evaluate(20.0, KeenInputs(0.0))

  // An open position is released by two passes although no close order was ever accepted.
  lemma ReleasedUnsold(o: Osm)
    requires Inv(o) && o.state == PositionOpen && GoodAction(CLOSE_PASS)
    ensures var closing := Act(o, CLOSE_PASS).osm;
            && Inv(closing) && closing.state == Closing && closing.closePolyId == ""
            && Act(closing, CLOSE_PASS).booking.Releases? && !CloseFilled(closing, CLOSE_PASS)
  {
    StepKeeps(o, CLOSE_PASS);
    ClosesWithoutId(o);
    hide Inv, Act;
    ReleasesIff(Act(o, CLOSE_PASS).osm, CLOSE_PASS);
  }

  lemma ClosesWithoutId(o: Osm)
    requires Inv(o) && o.state == PositionOpen && GoodAction(CLOSE_PASS)
    ensures var closing := Act(o, CLOSE_PASS).osm; closing.state == Closing && closing.closePolyId == ""
  {
    hide CloseSell, CloseHedge, PM.Evaluated;
  }

  // ---- Entries whose legs do not match ----

  // A quarter of the two Bitcoin wanted is executed: the attempt fails and the quarter stays sold.
  lemma PartOfHedgeLeft()
    ensures var v, r := KeenView(0.0), TakerArm.Replies(SubmitReply(true, "p"), HedgeReply(true, "h", 0.5, 100.0));
            && TakerArm.Fired(v, true, r).result == TakerArm.LegFail
            && TakerArm.NetHedge(TakerArm.Fired(v, true, r).sent, 0.5) == -0.5
  {
    FullRoom();
    KeenSize(0.0, Sizing.MAX_TRADE);
    KeenHedge(0.0, Sizing.MAX_TRADE);
    assert ToDouble(Sizing.MAX_TRADE) == 200.0;
    hide TakerArm.SizeOf, TakerArm.HedgeOf, TakerArm.Fired;
    var r := TakerArm.Replies(SubmitReply(true, "p"), HedgeReply(true, "h", 0.5, 100.0));
    TakerArm.HedgeHeld(KeenView(0.0), true, r);
    TakerArm.HedgeSentSecond(KeenView(0.0), true, r);
    hide TakerArm.RawShares;
  }

  // An ask fill is a short entry; its close sells once more.
  lemma AskFillSoldTwice()
    ensures var d := MakerArm.FillEntry("a", 0.5, false);
            CloseSell(d, CALM) != [] && SharesAfterClose(d, CALM) <= -399_999_999.0
  {
    hide FromDouble;
    assert ToDouble(MakerArm.SIZE) / 0.5 == 200.0;
    var d := MakerArm.FillEntry("a", 0.5, false);
    CloseCancelsEntryIff(d, CALM);
  }
}
