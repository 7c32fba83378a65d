/**
 One market's order state machine (src/execution/order_state_machine.cpp) as a transition on values: what
 one pass of the loop does to the machine and to the two shared accounts. The shared state it reads and
 the exchanges' replies are arbitrary.
 */
module OrderStateMachine {
  import opened Exchange
  import opened PositionManager
  import BayesianEngine
  import MakerArm
  import RealMath
  import RollingVol
  import TakerArm

  const MAX_OPEN_POSITIONS := 3

  datatype State = Idle | TakerEval | TakerPend | MakerQuoted | PositionOpen | Closing

  datatype Flags = Flags(entriesStopped: bool, quotesCancelled: bool, positionsClosed: bool, forceClosed: bool)

  datatype Osm = Osm(isAbove: bool, state: State, flags: Flags, position: Position, maker: MakerArm.Maker,
                     lastEntryNs: int, closePolyId: string, closeHedgeId: string)

  datatype CloseReplies = CloseReplies(poly: SubmitReply, hedgeId: string, status: OrderState)

  // What one pass reads: the machine's own loads, the loads made inside the arms, clock and replies.
  datatype Inputs = Inputs(view: View, arm: BayesianEngine.Shared, nowNs: int, taker: TakerArm.Replies,
                           maker: MakerArm.Replies, close: CloseReplies)

  // The change a pass makes to the shared accounts: both the exposure and the count move.
  datatype Booking = NoBooking | Books(cost: real) | Releases(cost: real)

  datatype Outcome = Outcome(osm: Osm, booking: Booking, closeOrders: seq<Order>)

  datatype Action =
    | StopEntries | CancelQuotes | ClosePositions | ForceClose
    | Flatten(inputs: Inputs)
    | Evaluate(timeRemaining: real, inputs: Inputs)

  function Fresh(isAbove: bool): Osm {
    Osm(isAbove, Idle, Flags(false, false, false, false), FLAT, MakerArm.NO_QUOTES, 0, "", "")
  }

  predicate GoodInputs(i: Inputs) {
    WellQuoted(i.view) && 0.0 < i.arm.pMarket < 1.0
  }

  // Every entry was sized: a non-negative edge, shares, and a cost of at least one USDC.
  ghost predicate SoundEntry(d: EntryData) {
    d.initialEdge >= 0 && d.shares > 0.0 && Cost(d) >= 1.0
  }

  ghost predicate Inv(o: Osm) {
    && o.state != TakerPend
    && (o.position.isOpen <==> o.state == PositionOpen || o.state == Closing)
    && (o.position.isOpen ==> SoundEntry(o.position.data))
    && (o.state == PositionOpen ==> !o.position.trailing && o.position.peak == 0)
    && MakerArm.Sound(o.maker)
    && (o.state == MakerQuoted ==> o.maker.quotedMid > 0.0)
    && (o.state != Closing ==> o.closePolyId == "")
  }

  // ---- The handlers ----

  function HalfSpread(s: BayesianEngine.Shared): real {
    var live := (s.bestAsk - s.bestBid) / 2.0;
    if 0.001 < live < 0.5 then live else 0.005
  }

  // The smallest edge worth a taker order: fees, half the spread, friction and a buffer, in cents.
  function MinEdge(s: BayesianEngine.Shared): real {
    (0.02 + HalfSpread(s) * 100.0 + 0.10 + 0.75) / 100.0
  }

  predicate WantsTaker(o: Osm, i: Inputs) {
    && i.view.signals.pTrue - i.view.signals.pMarket >= MinEdge(i.view.signals)
    && !TakerArm.InCooldown(o.lastEntryNs, i.nowNs)
  }

  function Quiet(o: Osm): Outcome { Outcome(o, NoBooking, []) }

  function CloseSell(d: EntryData, s: BayesianEngine.Shared): seq<Order> {
    var price := if s.bestBid <= 0.0 then 0.01 else s.bestBid;
    var offered, wanted := (d.shares * 1000000.0).Floor, (d.shares * price * 1000000.0).Floor;
    if offered > 0 && wanted > 0 then [PolyOrder(Sell, offered, wanted)] else []
  }

  function CloseHedge(d: EntryData, isAbove: bool, s: BayesianEngine.Shared): seq<Order> {
    if d.hedgeQty >= 0.001
    then [HedgeOrder(TakerArm.Opposite(TakerArm.HedgeSide(isAbove)), d.hedgeQty, s.btcMid)]
    else []
  }

  function ClosePosition(o: Osm, i: Inputs): Outcome {
    if !o.position.isOpen then Quiet(o.(state := Idle))
    else
      var d, s := o.position.data, i.view.signals;
      var sell, hedge := CloseSell(d, s), CloseHedge(d, o.isAbove, s);
      Outcome(o.(state := Closing,
                 closePolyId := if sell != [] then i.close.poly.orderId else o.closePolyId,
                 closeHedgeId := if hedge != [] then i.close.hedgeId else o.closeHedgeId),
              NoBooking, sell + hedge)
  }

  function Release(o: Osm): Outcome {
    var closed := o.(position := Closed(o.position), state := Idle, closePolyId := "");
    Outcome(if o.closePolyId != "" then closed.(closeHedgeId := "") else closed,
            Releases(Cost(o.position.data)), [])
  }

  function Enter(o: Osm, d: EntryData): Outcome {
    Outcome(o.(position := Opened(d), state := PositionOpen), Books(Cost(d)), [])
  }

  function HandleIdle(o: Osm, i: Inputs): Outcome {
    if o.position.isOpen then ClosePosition(o, i)
    else if o.flags.entriesStopped || i.view.openCount >= MAX_OPEN_POSITIONS then Quiet(o)
    else if WantsTaker(o, i) then Quiet(o.(state := TakerEval))
    else if o.flags.quotesCancelled then Quiet(o)
    else
      var s := i.view.signals;
      if s.regime == RollingVol.Sideways && RealMath.Abs(s.pTrue - s.pMarket) < MinEdge(s) then
        var (maker, ok) := MakerArm.Quoted(o.maker, s.pTrue, i.arm, i.nowNs, i.maker);
        Quiet(o.(maker := maker, state := if ok then MakerQuoted else o.state))
      else Quiet(o)
  }

  function TakerView(i: Inputs): View {
    i.view.(signals := i.arm)
  }

  function HandleTakerEval(o: Osm, i: Inputs): Outcome
    requires GoodInputs(i)
  {
    var fire := TakerArm.Fired(TakerView(i), o.isAbove, i.taker);
    if fire.result == TakerArm.Success then Enter(o.(lastEntryNs := i.nowNs), fire.entry)
    else Quiet(o.(state := Idle))
  }

  function HandlePositionOpen(o: Osm, i: Inputs): Outcome {
    if o.flags.forceClosed || o.flags.positionsClosed then ClosePosition(o, i)
    else
      var (p, reason) := Evaluated(o.position, i.view.signals);
      if reason == NoExit then Quiet(o.(position := p)) else ClosePosition(o.(position := p), i)
  }

  // A fill that raced with the final cancel: unhedged, closed at once if the bid covers it.
  function HandleLateFill(o: Osm, d: EntryData, i: Inputs): Outcome {
    var entered := Enter(o, d.(hedgeQty := 0.0));
    if i.view.signals.bestBid >= d.entryPrice + 0.02 / 100.0
    then ClosePosition(entered.osm, i).(booking := entered.booking)
    else entered
  }

  function HandleMakerQuoted(o: Osm, i: Inputs): Outcome
    requires MakerArm.Sound(o.maker) && o.maker.quotedMid > 0.0
  {
    if o.flags.quotesCancelled then
      var out := MakerArm.Manage(MakerArm.CancelledAll(o.maker), i.arm, i.nowNs, i.maker);
      if MakerArm.IsFill(out.status) then HandleLateFill(o.(maker := out.maker), out.entry, i)
      else Quiet(o.(maker := out.maker, state := Idle))
    else if WantsTaker(o, i) then
      Quiet(o.(maker := MakerArm.CancelledAll(o.maker), state := TakerEval))
    else
      var out := MakerArm.Manage(o.maker, i.arm, i.nowNs, i.maker);
      if MakerArm.IsFill(out.status) then Enter(o.(maker := out.maker), out.entry)
      else Quiet(o.(maker := out.maker,
                    state := if out.status == MakerArm.TimedOut then Idle else o.state))
  }

  function HandleClosing(o: Osm, i: Inputs): Outcome {
    if o.closePolyId != "" && i.close.status != OrderState.Filled && i.close.status != OrderState.Cancelled
    then Quiet(o)
    else Release(o)
  }

  // The deadlines the machine notices by itself.
  function Raised(f: Flags, timeRemaining: real): Flags {
    Flags(f.entriesStopped || timeRemaining <= 120.0, f.quotesCancelled || timeRemaining <= 45.0,
          f.positionsClosed || timeRemaining <= 30.0, f.forceClosed || timeRemaining <= 10.0)
  }

  function Dispatch(o: Osm, i: Inputs): Outcome
    requires Inv(o) && GoodInputs(i)
  {
    match o.state
    case Idle => HandleIdle(o, i)
    case TakerEval => HandleTakerEval(o, i)
    case TakerPend => Quiet(o)
    case MakerQuoted => HandleMakerQuoted(o, i)
    case PositionOpen => HandlePositionOpen(o, i)
    case Closing => HandleClosing(o, i)
  }

  function EvaluateAt(o: Osm, timeRemaining: real, i: Inputs): Outcome
    requires Inv(o) && GoodInputs(i)
  {
    var raised := o.(flags := Raised(o.flags, timeRemaining));
    if timeRemaining < 0.0 then
      if o.position.isOpen then ClosePosition(raised, i) else Quiet(raised)
    else Dispatch(raised, i)
  }

  predicate GoodAction(a: Action) {
    match a
    case Flatten(i) => GoodInputs(i)
    case Evaluate(_, i) => GoodInputs(i)
    case _ => true
  }

  function Act(o: Osm, a: Action): Outcome
    requires Inv(o) && GoodAction(a)
  {
    match a
    case StopEntries => Quiet(o.(flags := o.flags.(entriesStopped := true)))
    case CancelQuotes => Quiet(o.(flags := o.flags.(quotesCancelled := true)))
    case ClosePositions => Quiet(o.(flags := o.flags.(positionsClosed := true)))
    case ForceClose => Quiet(o.(flags := o.flags.(forceClosed := true)))
    case Flatten(i) => ClosePosition(o, i)
    case Evaluate(t, i) => EvaluateAt(o, t, i)
  }

  // ---- What every step keeps ----

  // How a booking relates to the position before and after: booked when it opens and released when it
  // closes, for the same shares times entry price; otherwise the position stays as it was.
  ghost predicate Accounts(o: Osm, out: Outcome) {
    match out.booking
    case NoBooking =>
      && out.osm.position.isOpen == o.position.isOpen
      && (o.position.isOpen ==> out.osm.position.data == o.position.data)
    case Books(c) => !o.position.isOpen && out.osm.position.isOpen && c == Cost(out.osm.position.data)
    case Releases(c) => o.position.isOpen && !out.osm.position.isOpen && c == Cost(o.position.data)
  }

  ghost predicate Good(o: Osm, out: Outcome) {
    Inv(out.osm) && Accounts(o, out)
  }

  lemma CloseKeeps(o: Osm, i: Inputs)
    requires o.state != TakerPend && MakerArm.Sound(o.maker)
    requires o.position.isOpen ==> SoundEntry(o.position.data)
    requires !o.position.isOpen ==> o.closePolyId == ""
    ensures Good(o, ClosePosition(o, i))
  {
    hide CloseSell, CloseHedge, MakerArm.Sound;
  }

  lemma IdleKeeps(o: Osm, i: Inputs)
    requires Inv(o) && o.state == Idle && GoodInputs(i)
    ensures Good(o, HandleIdle(o, i)) && HandleIdle(o, i).booking == NoBooking
  {
    hide MakerArm.Quoted, MakerArm.Sound, MinEdge, TakerArm.InCooldown;
    MakerArm.QuoteIsSound(o.maker, i.view.signals.pTrue, i.arm, i.nowNs, i.maker);
  }

  lemma TakerEvalKeeps(o: Osm, i: Inputs)
    requires Inv(o) && o.state == TakerEval && GoodInputs(i)
    ensures Good(o, HandleTakerEval(o, i))
  {
    hide TakerArm.Fired, TakerArm.SizeOf, MakerArm.Sound;
    if TakerArm.Fired(TakerView(i), o.isAbove, i.taker).result == TakerArm.Success {
      TakerArm.SuccessBooksItsSize(TakerView(i), o.isAbove, i.taker);
    }
  }

  // The trailing stop is never the reason: the machine leaves a position at its first exit verdict.
  lemma NeverTrails(o: Osm, i: Inputs)
    requires Inv(o) && o.state == PositionOpen
    ensures Evaluated(o.position, i.view.signals).1 != TrailingStop
    ensures Evaluated(o.position, i.view.signals).1 == NoExit ==>
              Evaluated(o.position, i.view.signals).0 == o.position
    ensures Evaluated(o.position, i.view.signals).0.data == o.position.data
    ensures Evaluated(o.position, i.view.signals).0.isOpen
  {
    hide Pnl, HardStopLevel, Trigger, Floor;
    UnarmedNeverTrails(o.position, Pnl(o.position, i.view.signals));
  }

  lemma PositionOpenKeeps(o: Osm, i: Inputs)
    requires Inv(o) && o.state == PositionOpen
    ensures Good(o, HandlePositionOpen(o, i)) && HandlePositionOpen(o, i).booking == NoBooking
  {
    hide Evaluated, ClosePosition, MakerArm.Sound;
    NeverTrails(o, i);
    var p := Evaluated(o.position, i.view.signals).0;
    CloseKeeps(o, i);
    CloseKeeps(o.(position := p), i);
    CloseBooksNothing(o, i);
    CloseBooksNothing(o.(position := p), i);
  }

  lemma CloseBooksNothing(o: Osm, i: Inputs)
    ensures ClosePosition(o, i).booking == NoBooking
    ensures ClosePosition(o, i).osm.state == if o.position.isOpen then Closing else Idle
    ensures ClosePosition(o, i).osm.flags == o.flags && ClosePosition(o, i).osm.position == o.position
    ensures ClosePosition(o, i).osm.maker == o.maker && ClosePosition(o, i).osm.isAbove == o.isAbove
    ensures ClosePosition(o, i).osm.lastEntryNs == o.lastEntryNs
  {
    hide CloseSell, CloseHedge;
  }

  // The late-fill path is unreachable: with the quotes cancelled, managing them cannot report a fill, so
  // the machine goes idle; whether orders stay live on the book is QuotesAfterCancel's condition.
  lemma LateFillUnreachable(o: Osm, i: Inputs)
    requires MakerArm.Sound(o.maker) && o.maker.quotedMid > 0.0 && o.flags.quotesCancelled
    ensures var out := MakerArm.Manage(MakerArm.CancelledAll(o.maker), i.arm, i.nowNs, i.maker);
            HandleMakerQuoted(o, i) == Quiet(o.(maker := out.maker, state := Idle))
  {
    hide MakerArm.Manage, HandleLateFill, WantsTaker;
    MakerArm.NoFillAfterCancel(o.maker, i.arm, i.nowNs, i.maker);
  }

  lemma MakerQuotedKeeps(o: Osm, i: Inputs)
    requires Inv(o) && o.state == MakerQuoted && GoodInputs(i)
    ensures Good(o, HandleMakerQuoted(o, i))
  {
    hide MakerArm.Manage, HandleLateFill, WantsTaker, Cost;
    MakerArm.CancelledIsSound(o.maker);
    if o.flags.quotesCancelled {
      LateFillUnreachable(o, i);
      MakerArm.FillBooksQuoteSize(MakerArm.CancelledAll(o.maker), i.arm, i.nowNs, i.maker);
    } else {
      MakerArm.FillBooksQuoteSize(o.maker, i.arm, i.nowNs, i.maker);
    }
  }

  lemma ClosingKeeps(o: Osm, i: Inputs)
    requires Inv(o) && o.state == Closing
    ensures Good(o, HandleClosing(o, i))
  {
    hide MakerArm.Sound;
  }

  lemma DispatchKeeps(o: Osm, i: Inputs)
    requires Inv(o) && GoodInputs(i)
    ensures Good(o, Dispatch(o, i))
  {
    hide HandleIdle, HandleTakerEval, HandleMakerQuoted, HandlePositionOpen, HandleClosing, Good, GoodInputs;
    match o.state
    case Idle => IdleKeeps(o, i);
    case TakerEval => TakerEvalKeeps(o, i);
    case TakerPend =>
    case MakerQuoted => MakerQuotedKeeps(o, i);
    case PositionOpen => PositionOpenKeeps(o, i);
    case Closing => ClosingKeeps(o, i);
  }

  // Every step keeps a position open exactly in the states PositionOpen and Closing, and moves the shared
  // accounts exactly when a position opens or closes, by that position's booked cost.
  lemma StepKeeps(o: Osm, a: Action)
    requires Inv(o) && GoodAction(a)
    ensures Good(o, Act(o, a))
  {
    hide MakerArm.Sound, ClosePosition, Dispatch;
    match a
    case Flatten(i) => CloseKeeps(o, i);
    case Evaluate(t, i) =>
      var raised := o.(flags := Raised(o.flags, t));
      if t < 0.0 {
        CloseKeeps(raised, i);
      } else {
        DispatchKeeps(raised, i);
      }
    case _ =>
  }

  lemma FreshIsGood(isAbove: bool)
    ensures Inv(Fresh(isAbove)) && !Fresh(isAbove).position.isOpen
  {
  }

  // ---- Whole runs of one machine ----

  // The machine after a run, its bookings in order, every close order it sent, and the times at which a
  // taker entry succeeded.
  datatype Trace = Trace(osm: Osm, bookings: seq<Booking>, closeOrders: seq<Order>, entryTimes: seq<int>)

  function Booked(b: Booking): seq<Booking> { if b == NoBooking then [] else [b] }

  function EntryTime(o: Osm, a: Action, out: Outcome): seq<int> {
    if o.state == TakerEval && a.Evaluate? && out.booking.Books? then [a.inputs.nowNs] else []
  }

  function Extend(t: Trace, a: Action): Trace
    requires Inv(t.osm) && GoodAction(a)
  {
    var out := Act(t.osm, a);
    Trace(out.osm, t.bookings + Booked(out.booking), t.closeOrders + out.closeOrders,
          t.entryTimes + EntryTime(t.osm, a, out))
  }

  ghost predicate GoodActions(actions: seq<Action>) { forall k :: 0 <= k < |actions| ==> GoodAction(actions[k]) }

  function Run(o: Osm, actions: seq<Action>): (t: Trace)
    requires Inv(o) && GoodActions(actions)
    ensures Inv(t.osm)
  {
    if actions == [] then Trace(o, [], [], [])
    else
      var before := Run(o, actions[..|actions| - 1]);
      StepKeeps(before.osm, actions[|actions| - 1]);
      Extend(before, actions[|actions| - 1])
  }

  lemma RunStep(o: Osm, actions: seq<Action>)
    requires Inv(o) && GoodActions(actions) && actions != []
    ensures var init, a := actions[..|actions| - 1], actions[|actions| - 1];
            GoodActions(init) && GoodAction(a) && Run(o, actions) == Extend(Run(o, init), a)
  {
    hide Inv, Act;
  }

  // Bookings come in pairs, each opening released once for the amount it was booked at.
  ghost predicate Paired(bookings: seq<Booking>) {
    && (forall k :: 0 <= k < |bookings| ==> if k % 2 == 0 then bookings[k].Books? else bookings[k].Releases?)
    && (forall k :: 0 < k < |bookings| && k % 2 == 1 ==> bookings[k].cost == bookings[k - 1].cost)
  }

  ghost predicate LedgerMatches(t: Trace) {
    && Paired(t.bookings)
    && (t.osm.position.isOpen <==> |t.bookings| % 2 == 1)
    && (t.osm.position.isOpen ==> t.bookings[|t.bookings| - 1].cost == Cost(t.osm.position.data))
  }

  lemma LedgerStep(t: Trace, a: Action)
    requires Inv(t.osm) && GoodAction(a) && LedgerMatches(t)
    ensures LedgerMatches(Extend(t, a))
  {
    hide Act, Inv, Cost;
    StepKeeps(t.osm, a);
  }

  // Over every run from a fresh machine, each opening is released at most once and for exactly the amount
  // it added; a position is open exactly when the last opening is still unreleased.
  lemma {:induction false} OpeningsReleasedOnce(isAbove: bool, actions: seq<Action>)
    requires GoodActions(actions) && Inv(Fresh(isAbove))
    ensures LedgerMatches(Run(Fresh(isAbove), actions))
  {
    if actions != [] {
      var init := actions[..|actions| - 1];
      RunStep(Fresh(isAbove), actions);
      hide Run, Inv, LedgerMatches, Extend;
      OpeningsReleasedOnce(isAbove, init);
      LedgerStep(Run(Fresh(isAbove), init), actions[|actions| - 1]);
    }
  }

  // ---- Taker cooldown ----

  const COOLDOWN_NS := 30_000_000_000

  function Now(actions: seq<Action>): int {
    if actions == [] then 1
    else
      var last := actions[|actions| - 1];
      if last.Evaluate? || last.Flatten? then last.inputs.nowNs else Now(actions[..|actions| - 1])
  }

  // The monotonic clock starts above zero and never goes back.
  ghost predicate ClockRuns(actions: seq<Action>) {
    actions == [] || (ClockRuns(actions[..|actions| - 1]) && Now(actions[..|actions| - 1]) <= Now(actions))
  }

  ghost predicate Spaced(t: Trace, now: int) {
    && now >= 1
    && (t.entryTimes == [] <==> t.osm.lastEntryNs == 0)
    && (t.entryTimes != [] ==> t.entryTimes[|t.entryTimes| - 1] == t.osm.lastEntryNs <= now)
    && (forall j :: 0 < j < |t.entryTimes| ==> t.entryTimes[j] - t.entryTimes[j - 1] >= COOLDOWN_NS)
    && (t.osm.state == TakerEval && t.osm.lastEntryNs != 0 ==> now - t.osm.lastEntryNs >= COOLDOWN_NS)
  }

  lemma CooldownOver(lastEntryNs: int, nowNs: int)
    requires lastEntryNs != 0 && !TakerArm.InCooldown(lastEntryNs, nowNs)
    ensures nowNs - lastEntryNs >= COOLDOWN_NS
  {
  }

  // The stored entry time changes only when a taker entry succeeds; the machine turns to the taker only
  // when the cooldown is over.
  lemma EntryTimeStep(o: Osm, a: Action)
    requires Inv(o) && GoodAction(a)
    ensures var out := Act(o, a);
            && (EntryTime(o, a, out) == [] ==> out.osm.lastEntryNs == o.lastEntryNs)
            && (EntryTime(o, a, out) != [] ==> out.osm.lastEntryNs == a.inputs.nowNs && out.osm.state == PositionOpen)
            && (out.osm.state == TakerEval ==>
                  o.state == TakerEval
                  || (a.Evaluate? && !TakerArm.InCooldown(o.lastEntryNs, a.inputs.nowNs)))
  {
    hide Evaluated, ClosePosition, MakerArm.Manage, MakerArm.Quoted, TakerArm.Fired, TakerArm.InCooldown, MinEdge;
    hide HandleLateFill, MakerArm.Sound;
    if a.Flatten? { CloseBooksNothing(o, a.inputs); }
    if a.Evaluate? {
      var raised := o.(flags := Raised(o.flags, a.timeRemaining));
      CloseBooksNothing(raised, a.inputs);
      if o.state == PositionOpen {
        CloseBooksNothing(raised.(position := Evaluated(raised.position, a.inputs.view.signals).0), a.inputs);
      } else if o.state == MakerQuoted && raised.flags.quotesCancelled {
        LateFillUnreachable(raised, a.inputs);
      }
    }
  }

  lemma SpacedStep(t: Trace, now: int, a: Action, later: int)
    requires Inv(t.osm) && GoodAction(a) && Spaced(t, now) && now <= later
    requires a.Evaluate? || a.Flatten? ==> later == a.inputs.nowNs
    ensures Spaced(Extend(t, a), later)
  {
    hide Act, Inv, TakerArm.InCooldown;
    EntryTimeStep(t.osm, a);
    if a.Evaluate? && t.osm.lastEntryNs != 0 && !TakerArm.InCooldown(t.osm.lastEntryNs, later) {
      CooldownOver(t.osm.lastEntryNs, later);
    }
  }

  // Successful taker entries of one machine are at least thirty seconds apart.
  lemma {:induction false} TakerEntriesApart(isAbove: bool, actions: seq<Action>)
    requires Inv(Fresh(isAbove)) && GoodActions(actions) && ClockRuns(actions)
    ensures Spaced(Run(Fresh(isAbove), actions), Now(actions))
  {
    if actions != [] {
      var init := actions[..|actions| - 1];
      RunStep(Fresh(isAbove), actions);
      hide Run, Inv, Extend, Spaced;
      TakerEntriesApart(isAbove, init);
      SpacedStep(Run(Fresh(isAbove), init), Now(init), actions[|actions| - 1], Now(actions));
    }
  }

  // ---- Winding down ----

  ghost predicate WoundDown(o: Osm) {
    && (o.state == Idle || o.state == PositionOpen || o.state == Closing)
    && o.flags.entriesStopped && o.flags.quotesCancelled
  }

  function Rank(s: State): nat {
    match s
    case PositionOpen => 2
    case Closing => 1
    case _ => 0
  }

  // The first evaluation in the last 45 seconds before expiry winds the machine down.
  lemma FirstLateEvaluation(o: Osm, t: real, i: Inputs)
    requires Inv(o) && GoodInputs(i) && 0.0 <= t <= 45.0
    ensures WoundDown(Act(o, Evaluate(t, i)).osm)
  {
    hide ClosePosition, Evaluated, Enter, TakerArm.Fired, MakerArm.Manage, HandleLateFill, WantsTaker;
    var raised := o.(flags := Raised(o.flags, t));
    CloseBooksNothing(raised, i);
    match o.state
    case Idle =>
    case TakerEval =>
      EnterOpens(raised, i);
    case TakerPend =>
    case MakerQuoted =>
      LateFillUnreachable(raised, i);
    case PositionOpen =>
      CloseBooksNothing(raised.(position := Evaluated(raised.position, i.view.signals).0), i);
    case Closing =>
  }

  lemma EnterOpens(o: Osm, i: Inputs)
    requires GoodInputs(i)
    ensures var out := HandleTakerEval(o, i).osm;
            out.flags == o.flags && (out.state == PositionOpen || out.state == Idle)
  {
    hide TakerArm.Fired;
  }

  // From then on no step opens a position or leaves those three states, and the machine only moves down
  // from open through closing to idle.
  lemma WindDownStep(o: Osm, a: Action)
    requires Inv(o) && GoodAction(a) && WoundDown(o)
    ensures var out := Act(o, a);
            WoundDown(out.osm) && !out.booking.Books? && Rank(out.osm.state) <= Rank(o.state)
    ensures a.Evaluate? && 0.0 <= a.timeRemaining <= 30.0 ==> Act(o, a).osm.state != PositionOpen
  {
    hide ClosePosition, Evaluated;
    if a.Flatten? { CloseBooksNothing(o, a.inputs); }
    if a.Evaluate? {
      var raised := o.(flags := Raised(o.flags, a.timeRemaining));
      CloseBooksNothing(raised, a.inputs);
      CloseBooksNothing(raised.(position := Evaluated(raised.position, a.inputs.view.signals).0), a.inputs);
    }
  }

  lemma {:induction false} WindDownHolds(o: Osm, actions: seq<Action>)
    requires Inv(o) && WoundDown(o) && GoodActions(actions)
    ensures var t := Run(o, actions);
            && WoundDown(t.osm)
            && (forall k :: 0 <= k < |t.bookings| ==> !t.bookings[k].Books?)
            && Rank(t.osm.state) <= Rank(o.state)
  {
    if actions != [] {
      var init := actions[..|actions| - 1];
      RunStep(o, actions);
      hide Run, Inv, WoundDown, Act;
      WindDownHolds(o, init);
      WindDownStep(Run(o, init).osm, actions[|actions| - 1]);
    }
  }

  // ---- The quotes a final cancel puts back ----

  // In the last 45 seconds a quoting machine goes idle for good, yet it leaves orders on the book exactly
  // when its quotes were young, the mid had moved and a new quote was acceptable.
  lemma FinalCancelLeavesQuotesIff(o: Osm, t: real, i: Inputs)
    requires Inv(o) && GoodInputs(i) && o.state == MakerQuoted && 0.0 <= t <= 45.0
    ensures var to := Act(o, Evaluate(t, i)).osm;
            && to.state == Idle && to.flags.entriesStopped && to.flags.quotesCancelled
            && (MakerArm.HasQuotes(to.maker) <==>
                  && MakerArm.Young(o.maker, i.nowNs) && !MakerArm.Quiet(o.maker, i.arm)
                  && MakerArm.Quotable(i.arm, i.maker))
  {
    hide MakerArm.Manage, MakerArm.Quotable, MakerArm.Sound, HandleLateFill, WantsTaker;
    var raised := o.(flags := Raised(o.flags, t));
    LateFillUnreachable(raised, i);
    MakerArm.QuotesAfterCancel(o.maker, i.arm, i.nowNs, i.maker);
  }

  lemma WoundDownKeepsQuotes(o: Osm, a: Action)
    requires Inv(o) && GoodAction(a) && WoundDown(o)
    ensures Act(o, a).osm.maker == o.maker
  {
    hide ClosePosition, Evaluated, MakerArm.Sound;
    if a.Flatten? { CloseBooksNothing(o, a.inputs); }
    if a.Evaluate? {
      var raised := o.(flags := Raised(o.flags, a.timeRemaining));
      CloseBooksNothing(raised, a.inputs);
      CloseBooksNothing(raised.(position := Evaluated(raised.position, a.inputs.view.signals).0), a.inputs);
    }
  }

  // Nothing the machine does later touches them: over every run from then on the arm tracks the same
  // orders, so none of them is ever sent a cancel.
  lemma {:induction false} ForgottenQuotesStay(o: Osm, actions: seq<Action>)
    requires Inv(o) && WoundDown(o) && GoodActions(actions)
    ensures Run(o, actions).osm.maker == o.maker
  {
    if actions != [] {
      var init := actions[..|actions| - 1];
      RunStep(o, actions);
      WindDownHolds(o, init);
      ForgottenQuotesStay(o, init);
      hide Run, Inv, WoundDown, Act;
      WoundDownKeepsQuotes(Run(o, init).osm, actions[|actions| - 1]);
    }
  }

  // ---- Orders tracked outside quoting ----

  // The arm tracks orders that the machine is not managing.
  predicate Stray(o: Osm) { o.state != MakerQuoted && MakerArm.HasQuotes(o.maker) }

  // The step leaves the quoting state with orders tracked: a flatten, or a final cancel that quotes anew.
  ghost predicate Strands(o: Osm, a: Action)
    requires Inv(o)
  {
    o.state == MakerQuoted &&
    match a
    case Flatten(_) => MakerArm.HasQuotes(o.maker)
    case Evaluate(t, i) =>
      && t >= 0.0 && Raised(o.flags, t).quotesCancelled
      && MakerArm.Young(o.maker, i.nowNs) && !MakerArm.Quiet(o.maker, i.arm) && MakerArm.Quotable(i.arm, i.maker)
    case _ => false
  }

  // The step quotes from idle; what was tracked before is cancelled first.
  predicate Requotes(o: Osm, a: Action) {
    o.state == Idle && a.Evaluate? && a.timeRemaining >= 0.0 &&
    var f, i := Raised(o.flags, a.timeRemaining), a.inputs;
    && !f.entriesStopped && !f.quotesCancelled && i.view.openCount < MAX_OPEN_POSITIONS && !WantsTaker(o, i)
    && i.view.signals.regime == RollingVol.Sideways
    && RealMath.Abs(i.view.signals.pTrue - i.view.signals.pMarket) < MinEdge(i.view.signals)
  }

  lemma IdleStray(o: Osm, i: Inputs)
    requires Inv(o) && o.state == Idle && GoodInputs(i)
    ensures Stray(HandleIdle(o, i).osm)
       <==> Stray(o) && !(!o.flags.entriesStopped && !o.flags.quotesCancelled
                          && i.view.openCount < MAX_OPEN_POSITIONS && !WantsTaker(o, i)
                          && i.view.signals.regime == RollingVol.Sideways
                          && RealMath.Abs(i.view.signals.pTrue - i.view.signals.pMarket) < MinEdge(i.view.signals))
  {
    hide MakerArm.Quoted, MakerArm.Sound, MinEdge, TakerArm.InCooldown;
    MakerArm.QuoteIsSound(o.maker, i.view.signals.pTrue, i.arm, i.nowNs, i.maker);
  }

  lemma QuotedStray(o: Osm, i: Inputs)
    requires Inv(o) && o.state == MakerQuoted && GoodInputs(i)
    ensures Stray(HandleMakerQuoted(o, i).osm)
       <==> && o.flags.quotesCancelled && MakerArm.Young(o.maker, i.nowNs) && !MakerArm.Quiet(o.maker, i.arm)
            && MakerArm.Quotable(i.arm, i.maker)
  {
    hide MakerArm.Manage, MakerArm.Young, MakerArm.Quiet, MakerArm.Quotable, HandleLateFill, WantsTaker;
    if o.flags.quotesCancelled {
      LateFillUnreachable(o, i);
      MakerArm.QuotesAfterCancel(o.maker, i.arm, i.nowNs, i.maker);
    } else if !WantsTaker(o, i) {
      MakerArm.FillForgetsOtherSide(o.maker, i.arm, i.nowNs, i.maker);
      MakerArm.TimeoutTracksNothing(o.maker, i.arm, i.nowNs, i.maker);
    }
  }

  // Every other handler leaves the arm alone, and never turns to quoting.
  lemma OthersKeepQuotes(o: Osm, i: Inputs)
    requires Inv(o) && GoodInputs(i) && o.state != Idle && o.state != MakerQuoted
    ensures Dispatch(o, i).osm.maker == o.maker && Dispatch(o, i).osm.state != MakerQuoted
  {
    hide TakerArm.Fired, ClosePosition, Evaluated, MakerArm.Sound;
    CloseBooksNothing(o, i);
    CloseBooksNothing(o.(position := Evaluated(o.position, i.view.signals).0), i);
  }

  // After one step orders are tracked outside quoting exactly if the step strands them, or they were
  // before and the step does not quote from idle.
  lemma StrayStepIff(o: Osm, a: Action)
    requires Inv(o) && GoodAction(a)
    ensures Stray(Act(o, a).osm) <==> Strands(o, a) || (Stray(o) && !Requotes(o, a))
  {
    hide ClosePosition, HandleIdle, HandleMakerQuoted, MakerArm.Quotable, MakerArm.Sound, MinEdge, WantsTaker;
    hide HandleTakerEval, HandlePositionOpen, HandleClosing, MakerArm.Young, MakerArm.Quiet;
    match a
    case Flatten(i) => CloseBooksNothing(o, i);
    case Evaluate(t, i) =>
      var raised := o.(flags := Raised(o.flags, t));
      CloseBooksNothing(raised, i);
      if t >= 0.0 {
        if o.state == Idle {
          SameWants(o, raised, i);
          IdleStray(raised, i);
        } else if o.state == MakerQuoted {
          QuotedStray(raised, i);
        } else {
          OthersKeepQuotes(raised, i);
        }
      }
    case _ =>
  }

  lemma SameWants(o: Osm, p: Osm, i: Inputs)
    requires p.lastEntryNs == o.lastEntryNs
    ensures WantsTaker(p, i) == WantsTaker(o, i)
  {
  }

  ghost predicate StrandsAt(o: Osm, actions: seq<Action>, k: nat)
    requires Inv(o) && k < |actions|
  {
    GoodActions(actions[..k]) && Strands(Run(o, actions[..k]).osm, actions[k])
  }

  ghost predicate RequotesAt(o: Osm, actions: seq<Action>, k: nat)
    requires Inv(o) && k < |actions|
  {
    GoodActions(actions[..k]) && Requotes(Run(o, actions[..k]).osm, actions[k])
  }

  // The k-th action strands orders, and none after it quotes from idle.
  ghost predicate StraySince(o: Osm, actions: seq<Action>, k: nat)
    requires Inv(o) && k < |actions|
  {
    StrandsAt(o, actions, k) && forall j :: k < j < |actions| ==> !RequotesAt(o, actions, j)
  }

  lemma StraySinceStep(o: Osm, actions: seq<Action>)
    requires Inv(o) && GoodActions(actions) && actions != []
    ensures var n := |actions| - 1;
            (exists k :: 0 <= k < |actions| && StraySince(o, actions, k)) <==>
              || StrandsAt(o, actions, n)
              || ((exists k :: 0 <= k < n && StraySince(o, actions[..n], k)) && !RequotesAt(o, actions, n))
  {
    hide Inv, Run, Strands, Requotes, GoodActions;
    var n := |actions| - 1;
    forall k | 0 <= k < n
      ensures StrandsAt(o, actions, k) <==> StrandsAt(o, actions[..n], k)
      ensures RequotesAt(o, actions, k) <==> RequotesAt(o, actions[..n], k)
    {
      assert actions[..n][..k] == actions[..k];
    }
    forall k | 0 <= k < n
      ensures StraySince(o, actions, k) <==> StraySince(o, actions[..n], k) && !RequotesAt(o, actions, n)
    {
    }
    assert StraySince(o, actions, n) <==> StrandsAt(o, actions, n);
  }

  // Over every run of a fresh machine: it ends with orders tracked outside quoting exactly if some step
  // stranded them and no later step quoted from idle.
  lemma {:induction false} StrayIff(isAbove: bool, actions: seq<Action>)
    requires Inv(Fresh(isAbove)) && GoodActions(actions)
    ensures Stray(Run(Fresh(isAbove), actions).osm)
       <==> exists k :: 0 <= k < |actions| && StraySince(Fresh(isAbove), actions, k)
  {
    if actions != [] {
      var n, o := |actions| - 1, Fresh(isAbove);
      RunStep(o, actions);
      StrayIff(isAbove, actions[..n]);
      StraySinceStep(o, actions);
      hide Inv, Act, Strands, Requotes, StraySince, Stray;
      StrayStepIff(Run(o, actions[..n]).osm, actions[n]);
    }
  }

  ghost predicate StrayAt(o: Osm, actions: seq<Action>, n: nat)
    requires Inv(o) && n <= |actions|
  {
    GoodActions(actions[..n]) && Stray(Run(o, actions[..n]).osm)
  }

  lemma StrayWasStranded(isAbove: bool, actions: seq<Action>, n: nat)
    requires Inv(Fresh(isAbove)) && n <= |actions| && StrayAt(Fresh(isAbove), actions, n)
    ensures exists k :: 0 <= k < n && StrandsAt(Fresh(isAbove), actions, k)
  {
    hide Inv, Run, Strands, Requotes, GoodActions, Stray;
    var o := Fresh(isAbove);
    StrayIff(isAbove, actions[..n]);
    var k :| 0 <= k < n && StraySince(o, actions[..n], k);
    assert actions[..n][..k] == actions[..k];
    assert StrandsAt(o, actions, k);
  }

  lemma StrandedIsStray(isAbove: bool, actions: seq<Action>, k: nat)
    requires Inv(Fresh(isAbove)) && GoodActions(actions) && k < |actions| && StrandsAt(Fresh(isAbove), actions, k)
    ensures StrayAt(Fresh(isAbove), actions, k + 1)
  {
    hide Inv, Run, Strands, Requotes, Stray;
    var o, longer := Fresh(isAbove), actions[..k + 1];
    assert longer[..k] == actions[..k] && GoodActions(longer);
    assert StraySince(o, longer, k);
    StrayIff(isAbove, longer);
  }

  // So a machine that is not quoting tracks nothing, at every point of a run, exactly if no step of the
  // run strands orders.
  lemma NeverStrayIff(isAbove: bool, actions: seq<Action>)
    requires Inv(Fresh(isAbove)) && GoodActions(actions)
    ensures (forall n :: 0 <= n <= |actions| ==> !StrayAt(Fresh(isAbove), actions, n))
       <==> (forall k :: 0 <= k < |actions| ==> !StrandsAt(Fresh(isAbove), actions, k))
  {
    hide StrandsAt, StrayAt, Inv;
    var o := Fresh(isAbove);
    if n :| 0 <= n <= |actions| && StrayAt(o, actions, n) { StrayWasStranded(isAbove, actions, n); }
    if k :| 0 <= k < |actions| && StrandsAt(o, actions, k) { StrandedIsStray(isAbove, actions, k); }
  }

  // Past expiry nothing is cancelled either: a machine first evaluated then keeps quoting, with its orders.
  lemma {:induction false} ExpiryKeepsQuotes(o: Osm, actions: seq<Action>)
    requires Inv(o) && GoodActions(actions) && AllExpired(actions)
    ensures Run(o, actions).osm.maker == o.maker
  {
    if actions != [] {
      var init := actions[..|actions| - 1];
      RunStep(o, actions);
      ExpiredPrefix(actions);
      ExpiryKeepsQuotes(o, init);
      hide Run, Inv, Act, Expired;
      ExpiredKeepsMaker(Run(o, init).osm, actions[|actions| - 1]);
    }
  }

  lemma ExpiredKeepsMaker(o: Osm, a: Action)
    requires Inv(o) && GoodAction(a) && Expired(a)
    ensures Act(o, a).osm.maker == o.maker
  {
    hide ClosePosition;
    if a.Flatten? || a.Evaluate? {
      CloseBooksNothing(o, a.inputs);
      CloseBooksNothing(o.(flags := if a.Evaluate? then Raised(o.flags, a.timeRemaining) else o.flags), a.inputs);
    }
  }

  // ---- When a position is released ----

  // The close is over, or was never accepted, and the market has not expired.
  predicate ReleaseDue(o: Osm, a: Action) {
    && o.state == Closing && a.Evaluate? && a.timeRemaining >= 0.0
    && (o.closePolyId == "" || a.inputs.close.status == OrderState.Filled
        || a.inputs.close.status == OrderState.Cancelled)
  }

  // One pass releases the accounts exactly then.
  lemma ReleasesIff(o: Osm, a: Action)
    requires Inv(o) && GoodAction(a)
    ensures Act(o, a).booking.Releases? <==> ReleaseDue(o, a)
  {
    hide ClosePosition, Evaluated, MakerArm.Manage, MakerArm.Quoted, MakerArm.Sound, TakerArm.Fired;
    hide MinEdge, TakerArm.InCooldown, HandleLateFill, Cost;
    if a.Flatten? { CloseBooksNothing(o, a.inputs); }
    if a.Evaluate? {
      var raised := o.(flags := Raised(o.flags, a.timeRemaining));
      CloseBooksNothing(raised, a.inputs);
      if o.state == PositionOpen {
        CloseBooksNothing(raised.(position := Evaluated(raised.position, a.inputs.view.signals).0), a.inputs);
      } else if o.state == MakerQuoted && raised.flags.quotesCancelled {
        LateFillUnreachable(raised, a.inputs);
      }
    }
  }

  // The k-th action of a run finds a release due.
  ghost predicate DueAt(o: Osm, actions: seq<Action>, k: nat)
    requires Inv(o) && k < |actions|
  {
    GoodActions(actions[..k]) && GoodAction(actions[k]) && ReleaseDue(Run(o, actions[..k]).osm, actions[k])
  }

  ghost predicate SomeRelease(bookings: seq<Booking>) {
    exists j :: 0 <= j < |bookings| && bookings[j].Releases?
  }

  lemma SomeReleaseAppend(bookings: seq<Booking>, b: Booking)
    ensures SomeRelease(bookings + Booked(b)) <==> SomeRelease(bookings) || b.Releases?
  {
    var all := bookings + Booked(b);
    if SomeRelease(bookings) {
      var j :| 0 <= j < |bookings| && bookings[j].Releases?;
      assert all[j].Releases?;
    }
    if b.Releases? { assert all[|bookings|].Releases?; }
  }

  lemma SomeDue(o: Osm, actions: seq<Action>)
    requires Inv(o) && GoodActions(actions) && actions != []
    ensures var n := |actions| - 1;
            (exists k :: 0 <= k < |actions| && DueAt(o, actions, k)) <==>
              (exists k :: 0 <= k < n && DueAt(o, actions[..n], k)) || DueAt(o, actions, n)
  {
    hide Inv, Run, ReleaseDue;
    var n := |actions| - 1;
    forall k | 0 <= k < n
      ensures DueAt(o, actions, k) <==> DueAt(o, actions[..n], k)
    {
      assert actions[..n][..k] == actions[..k];
    }
  }

  // Over a whole run something is released exactly if some pass before expiry found the machine closing
  // with its close over or never accepted; passes after expiry never count.
  lemma {:induction false} RunReleasesIff(o: Osm, actions: seq<Action>)
    requires Inv(o) && GoodActions(actions)
    ensures SomeRelease(Run(o, actions).bookings) <==> exists k :: 0 <= k < |actions| && DueAt(o, actions, k)
  {
    if actions != [] {
      var n := |actions| - 1;
      RunStep(o, actions);
      RunReleasesIff(o, actions[..n]);
      SomeDue(o, actions);
      hide Inv, Act, ReleaseDue, SomeRelease;
      var t := Run(o, actions[..n]);
      ReleasesIff(t.osm, actions[n]);
      SomeReleaseAppend(t.bookings, Act(t.osm, actions[n]).booking);
    }
  }

  // The tracked close was reported filled.
  predicate CloseFilled(o: Osm, a: Action)
    requires a.Evaluate?
  {
    o.closePolyId != "" && a.inputs.close.status == OrderState.Filled
  }

  // A closing machine releases exactly when its close was filled, unless the close had no id or was
  // cancelled: then the accounts are released although nothing was sold.
  lemma ReleasedWhenFilledIff(o: Osm, a: Action)
    requires Inv(o) && GoodAction(a) && o.state == Closing && a.Evaluate? && a.timeRemaining >= 0.0
    ensures (Act(o, a).booking.Releases? <==> CloseFilled(o, a))
       <==> !(o.closePolyId == "" || a.inputs.close.status == OrderState.Cancelled)
  {
    hide Inv, Act;
    ReleasesIff(o, a);
  }

  // ---- Shares left after the close ----

  // Share units gained by the entry: an ask fill sold them.
  function EntryShares(d: EntryData): real {
    if d.isYesLong then d.shares * 1000000.0 else -(d.shares * 1000000.0)
  }

  // Share units left if the close orders fill: they always sell.
  function SharesAfterClose(d: EntryData, s: BayesianEngine.Shared): real {
    EntryShares(d) - if CloseSell(d, s) == [] then 0.0 else CloseSell(d, s)[0].makerAmount as real
  }

  // Entry and close cancel out, to less than one share unit, exactly for a long entry whose close is
  // large enough to be sent (or an entry of less than a unit); a short entry is sold a second time.
  lemma CloseCancelsEntryIff(d: EntryData, s: BayesianEngine.Shared)
    requires d.shares > 0.0
    ensures -1.0 < SharesAfterClose(d, s) < 1.0
       <==> (d.isYesLong && CloseSell(d, s) != []) || d.shares * 1000000.0 < 1.0
    ensures !d.isYesLong && CloseSell(d, s) != [] ==>
              SharesAfterClose(d, s) <= -2.0 * (d.shares * 1000000.0) + 1.0
  {
    var units := d.shares * 1000000.0;
    assert units.Floor as real <= units < units.Floor as real + 1.0;
  }

  // ---- After expiry ----

  predicate Expired(a: Action) { a.Evaluate? ==> a.timeRemaining < 0.0 }

  ghost predicate AllExpired(actions: seq<Action>) { forall k :: 0 <= k < |actions| ==> Expired(actions[k]) }

  // Passes that try to close: each sends the close orders again.
  function Attempts(actions: seq<Action>): nat {
    if actions == [] then 0
    else
      Attempts(actions[..|actions| - 1])
      + if actions[|actions| - 1].Evaluate? || actions[|actions| - 1].Flatten? then 1 else 0
  }

  function HedgeClosed(orders: seq<Order>): real {
    if orders == [] then 0.0
    else
      HedgeClosed(orders[..|orders| - 1])
      + if orders[|orders| - 1].HedgeOrder? then orders[|orders| - 1].qty else 0.0
  }

  lemma {:induction false} HedgeClosedAppend(a: seq<Order>, b: seq<Order>)
    ensures HedgeClosed(a + b) == HedgeClosed(a) + HedgeClosed(b)
  {
    if b == [] {
      assert a + b == a;
    } else {
      HedgeClosedAppend(a, b[..|b| - 1]);
      assert (a + b)[..|a + b| - 1] == a + b[..|b| - 1];
    }
  }

  lemma ExpiredStep(o: Osm, a: Action)
    requires Inv(o) && GoodAction(a) && Expired(a) && o.position.isOpen
    ensures var out := Act(o, a);
            && out.osm.position == o.position
            && out.booking == NoBooking
            && (o.position.data.hedgeQty >= 0.001 ==>
                  HedgeClosed(out.closeOrders) == if a.Evaluate? || a.Flatten? then o.position.data.hedgeQty else 0.0)
  {
    hide HedgeClosed, CloseSell;
    if a.Evaluate? || a.Flatten? {
      var base := if a.Evaluate? then o.(flags := Raised(o.flags, a.timeRemaining)) else o;
      var d, s := o.position.data, a.inputs.view.signals;
      assert Act(o, a).closeOrders == CloseSell(d, s) + CloseHedge(d, o.isAbove, s);
      if d.hedgeQty >= 0.001 { CloseOrdersHedge(d, o.isAbove, s); }
    } else {
      NoOrders();
    }
  }

  lemma NoOrders()
    ensures HedgeClosed([]) == 0.0
  {
  }

  lemma CloseOrdersHedge(d: EntryData, isAbove: bool, s: BayesianEngine.Shared)
    requires d.hedgeQty >= 0.001
    ensures HedgeClosed(CloseSell(d, s) + CloseHedge(d, isAbove, s)) == d.hedgeQty
  {
    HedgeClosedAppend(CloseSell(d, s), CloseHedge(d, isAbove, s));
    var sell, hedge := CloseSell(d, s), CloseHedge(d, isAbove, s);
    assert hedge[..0] == [];
    if sell != [] { assert sell[..0] == []; }
  }

  lemma AttemptsStep(actions: seq<Action>)
    requires actions != []
    ensures var init, a := actions[..|actions| - 1], actions[|actions| - 1];
            Attempts(actions) == Attempts(init) + if a.Evaluate? || a.Flatten? then 1 else 0
  {
  }

  ghost predicate Stranded(o: Osm, t: Trace, attempts: nat) {
    && t.osm.position == o.position && t.bookings == []
    && (o.position.data.hedgeQty >= 0.001 ==>
          HedgeClosed(t.closeOrders) == attempts as real * o.position.data.hedgeQty)
  }

  lemma StrandedStep(o: Osm, t: Trace, attempts: nat, a: Action)
    requires Inv(t.osm) && GoodAction(a) && Expired(a) && o.position.isOpen && Stranded(o, t, attempts)
    ensures Stranded(o, Extend(t, a), attempts + if a.Evaluate? || a.Flatten? then 1 else 0)
  {
    hide Inv, Act, HedgeClosed;
    ExpiredStep(t.osm, a);
    HedgeClosedAppend(t.closeOrders, Act(t.osm, a).closeOrders);
    var q := o.position.data.hedgeQty;
    assert (attempts + 1) as real * q == attempts as real * q + q;
  }

  lemma NothingStranded(o: Osm)
    requires Inv(o)
    ensures Stranded(o, Run(o, []), Attempts([]))
  {
    hide Inv;
    NoOrders();
  }

  lemma ExpiredPrefix(actions: seq<Action>)
    requires AllExpired(actions) && actions != []
    ensures AllExpired(actions[..|actions| - 1]) && Expired(actions[|actions| - 1])
  {
    hide Expired;
  }

  // Once the market has expired the machine no longer handles Closing, so an open position is never
  // released and stays in the shared accounts; and every further pass sends its whole hedge close again.
  lemma {:induction false} ExpiryStrandsPosition(o: Osm, actions: seq<Action>)
    requires Inv(o) && GoodActions(actions) && AllExpired(actions) && o.position.isOpen
    ensures Stranded(o, Run(o, actions), Attempts(actions))
  {
    hide *;
    if actions == [] {
      NothingStranded(o);
    } else {
      var init := actions[..|actions| - 1];
      RunStep(o, actions);
      ExpiredPrefix(actions);
      ExpiryStrandsPosition(o, init);
      AttemptsStep(actions);
      StrandedStep(o, Run(o, init), Attempts(init), actions[|actions| - 1]);
    }
  }
}
