/**
 The order state machine as the object the source has: its position manager, two arms and flags updated
 step by step, and the two shared accounts moved in place. Every method is proved against the handler of
 the same name in OrderStateMachine.
 */
module OsmObject {
  import opened Exchange
  import opened OrderStateMachine
  import opened PositionManager
  import MakerArm
  import RealMath
  import RollingVol
  import TakerArm

  function ExposureChange(b: Booking): real {
    match b
    case NoBooking => 0.0
    case Books(c) => c
    case Releases(c) => -c
  }

  function CountChange(b: Booking): int {
    match b
    case NoBooking => 0
    case Books(_) => 1
    case Releases(_) => -1
  }

  class Accounts {
    var exposure: real
    var openCount: int

    constructor ()
      ensures exposure == 0.0 && openCount == 0
    {
      exposure, openCount := 0.0, 0;
    }
  }

  class Machine {
    const isAbove: bool
    const ss: Accounts
    const posMgr: Manager
    const taker: TakerArm.Arm
    const maker: MakerArm.Arm
    var state: State
    var entriesStopped: bool
    var quotesCancelled: bool
    var positionsClosed: bool
    var forceClosed: bool
    var closePolyId: string
    var closeHedgeId: string

    ghost function Model(): Osm
      reads this, posMgr, taker, maker
    {
      Osm(isAbove, state, Flags(entriesStopped, quotesCancelled, positionsClosed, forceClosed), posMgr.Model(),
          maker.Model(), taker.lastEntryNs, closePolyId, closeHedgeId)
    }

    // The machine and the accounts are where the outcome says, counted from the given balances.
    ghost predicate Reached(out: Outcome, exposure0: real, count0: int, sent: seq<Order>)
      reads this, posMgr, taker, maker, ss
    {
      && Model() == out.osm
      && ss.exposure == exposure0 + ExposureChange(out.booking)
      && ss.openCount == count0 + CountChange(out.booking)
      && sent == out.closeOrders
    }

    constructor (isAbove: bool, ss: Accounts)
      ensures this.ss == ss && Model() == Fresh(isAbove) && Inv(Model()) && taker.isAbove == isAbove
      ensures fresh(posMgr) && fresh(taker) && fresh(maker)
    {
      this.isAbove, this.ss := isAbove, ss;
      state := Idle;
      entriesStopped, quotesCancelled, positionsClosed, forceClosed := false, false, false, false;
      closePolyId, closeHedgeId := "", "";
      posMgr := new Manager();
      taker := new TakerArm.Arm(isAbove);
      maker := new MakerArm.Arm();
    }

    method ClosePosition(i: Inputs) returns (sent: seq<Order>)
      modifies this
      ensures Reached(OrderStateMachine.ClosePosition(old(Model()), i), old(ss.exposure), old(ss.openCount), sent)
    {
      if !posMgr.isOpen {
        state := Idle;
        return [];
      }
      var d, s := posMgr.data, i.view.signals;
      var sell := CloseSell(d, s);
      if sell != [] { closePolyId := i.close.poly.orderId; }
      var hedge := CloseHedge(d, isAbove, s);
      if hedge != [] { closeHedgeId := i.close.hedgeId; }
      state := Closing;
      return sell + hedge;
    }

    method Enter(d: EntryData)
      modifies this, posMgr, ss
      ensures Reached(OrderStateMachine.Enter(old(Model()), d), old(ss.exposure), old(ss.openCount), [])
    {
      posMgr.Open(d);
      ss.exposure := ss.exposure + Cost(d);
      ss.openCount := ss.openCount + 1;
      state := PositionOpen;
    }

    method HandleIdle(i: Inputs) returns (sent: seq<Order>)
      requires i.view.openCount == ss.openCount
      modifies this, maker
      ensures Reached(OrderStateMachine.HandleIdle(old(Model()), i), old(ss.exposure), old(ss.openCount), sent)
    {
      hide MakerArm.Quoted, MinEdge, TakerArm.InCooldown, OrderStateMachine.ClosePosition;
      if posMgr.isOpen {
        sent := ClosePosition(i);
        return;
      }
      if entriesStopped { return []; }
      if ss.openCount >= MAX_OPEN_POSITIONS { return []; }
      var s := i.view.signals;
      var edge := s.pTrue - s.pMarket;
      var eMin := MinEdge(s);
      if edge >= eMin && !TakerArm.InCooldown(taker.lastEntryNs, i.nowNs) {
        state := TakerEval;
        return [];
      }
      if quotesCancelled { return []; }
      if s.regime == RollingVol.Sideways && RealMath.Abs(edge) < eMin {
        var ok, _, _ := maker.Quote(s.pTrue, i.arm, i.nowNs, i.maker);
        if ok { state := MakerQuoted; }
      }
      return [];
    }

    method HandleTakerEval(i: Inputs) returns (sent: seq<Order>)
      requires GoodInputs(i) && i.view.exposure == ss.exposure && taker.isAbove == isAbove
      modifies this, posMgr, taker, ss
      ensures Reached(OrderStateMachine.HandleTakerEval(old(Model()), i), old(ss.exposure), old(ss.openCount), sent)
    {
      hide TakerArm.Fired;
      var fire := taker.FireLegs(i.view.(exposure := ss.exposure, signals := i.arm), i.taker, i.nowNs);
      if fire.result == TakerArm.Success {
        Enter(fire.entry);
      } else {
        state := Idle;
      }
      return [];
    }

    method HandlePositionOpen(i: Inputs) returns (sent: seq<Order>)
      modifies this, posMgr
      ensures Reached(OrderStateMachine.HandlePositionOpen(old(Model()), i), old(ss.exposure), old(ss.openCount), sent)
    {
      hide Evaluated, OrderStateMachine.ClosePosition;
      if forceClosed {
        sent := ClosePosition(i);
        return;
      }
      if positionsClosed {
        sent := ClosePosition(i);
        return;
      }
      var reason := posMgr.Evaluate(i.view.signals);
      if reason != NoExit {
        sent := ClosePosition(i);
      } else {
        sent := [];
      }
    }

    method HandleLateFill(d: EntryData, i: Inputs) returns (sent: seq<Order>)
      modifies this, posMgr, ss
      ensures Reached(OrderStateMachine.HandleLateFill(old(Model()), d, i), old(ss.exposure), old(ss.openCount), sent)
    {
      Enter(d.(hedgeQty := 0.0));
      if i.view.signals.bestBid >= d.entryPrice + 0.02 / 100.0 {
        sent := ClosePosition(i);
      } else {
        sent := [];
      }
    }

    method HandleMakerQuoted(i: Inputs) returns (sent: seq<Order>)
      requires MakerArm.Sound(maker.Model()) && maker.quotedMid > 0.0
      modifies this, posMgr, maker, ss
      ensures Reached(OrderStateMachine.HandleMakerQuoted(old(Model()), i), old(ss.exposure), old(ss.openCount), sent)
    {
      hide MakerArm.Manage, MinEdge, TakerArm.InCooldown, OrderStateMachine.HandleLateFill, OrderStateMachine.Enter;
      if quotesCancelled {
        var _ := maker.CancelAll();
        var out := maker.ManageQuotes(i.arm, i.nowNs, i.maker);
        if out.status == MakerArm.FilledBid || out.status == MakerArm.FilledAsk {
          sent := HandleLateFill(out.entry, i);
        } else {
          state := Idle;
          sent := [];
        }
        return;
      }
      var s := i.view.signals;
      if s.pTrue - s.pMarket >= MinEdge(s) && !TakerArm.InCooldown(taker.lastEntryNs, i.nowNs) {
        var _ := maker.CancelAll();
        state := TakerEval;
        return [];
      }
      var out := maker.ManageQuotes(i.arm, i.nowNs, i.maker);
      match out.status {
        case FilledBid => EnterFill(out.entry);
        case FilledAsk => EnterFill(out.entry);
        case TimedOut => state := Idle;
        case Active =>
        case Repriced =>
      }
      return [];
    }

    method EnterFill(d: EntryData)
      modifies this, posMgr, ss
      ensures Reached(OrderStateMachine.Enter(old(Model()), d), old(ss.exposure), old(ss.openCount), [])
    {
      hide OrderStateMachine.Enter;
      Enter(d);
    }

    method HandleClosing(i: Inputs) returns (sent: seq<Order>)
      modifies this, posMgr, ss
      ensures Reached(OrderStateMachine.HandleClosing(old(Model()), i), old(ss.exposure), old(ss.openCount), sent)
    {
      if closePolyId != "" {
        var status := i.close.status;
        if status == OrderState.Filled || status == OrderState.Cancelled {
          ss.exposure := ss.exposure - Cost(posMgr.data);
          ss.openCount := ss.openCount - 1;
          posMgr.Close();
          closePolyId := "";
          closeHedgeId := "";
          state := Idle;
        }
      } else {
        ss.exposure := ss.exposure - Cost(posMgr.data);
        ss.openCount := ss.openCount - 1;
        posMgr.Close();
        state := Idle;
      }
      return [];
    }

    method RaiseFlags(timeRemaining: real)
      modifies this
      ensures Model() == old(Model()).(flags := Raised(old(Model()).flags, timeRemaining))
    {
      if timeRemaining <= 120.0 && !entriesStopped { entriesStopped := true; }
      if timeRemaining <= 45.0 && !quotesCancelled { quotesCancelled := true; }
      if timeRemaining <= 30.0 && !positionsClosed { positionsClosed := true; }
      if timeRemaining <= 10.0 && !forceClosed { forceClosed := true; }
    }

    method Dispatch(i: Inputs) returns (sent: seq<Order>)
      requires Inv(Model()) && GoodInputs(i) && taker.isAbove == isAbove
      requires i.view.exposure == ss.exposure && i.view.openCount == ss.openCount
      modifies this, posMgr, taker, maker, ss
      ensures Reached(OrderStateMachine.Dispatch(old(Model()), i), old(ss.exposure), old(ss.openCount), sent)
    {
      hide OrderStateMachine.HandleIdle, OrderStateMachine.HandleTakerEval, OrderStateMachine.HandleMakerQuoted;
      hide OrderStateMachine.HandlePositionOpen, OrderStateMachine.HandleClosing, OrderStateMachine.ClosePosition;
      hide MakerArm.Sound, ExposureChange, CountChange;
      match state {
        case Idle => sent := HandleIdle(i);
        case TakerEval => sent := HandleTakerEval(i);
        case TakerPend => sent := Wait();
        case MakerQuoted => sent := HandleMakerQuoted(i);
        case PositionOpen => sent := HandlePositionOpen(i);
        case Closing => sent := HandleClosing(i);
      }
    }

    method Wait() returns (sent: seq<Order>)
      ensures Reached(Quiet(Model()), ss.exposure, ss.openCount, sent)
    {
      return [];
    }

    method Evaluate(timeRemaining: real, i: Inputs) returns (sent: seq<Order>)
      requires Inv(Model()) && GoodInputs(i) && taker.isAbove == isAbove
      requires i.view.exposure == ss.exposure && i.view.openCount == ss.openCount
      modifies this, posMgr, taker, maker, ss
      ensures Reached(EvaluateAt(old(Model()), timeRemaining, i), old(ss.exposure), old(ss.openCount), sent)
    {
      hide OrderStateMachine.Dispatch, OrderStateMachine.ClosePosition, Raised, GoodInputs;
      hide MakerArm.Sound, ExposureChange, CountChange;
      RaiseFlags(timeRemaining);
      if timeRemaining < 0.0 {
        if posMgr.isOpen {
          sent := ClosePosition(i);
        } else {
          sent := Wait();
        }
        return;
      }
      sent := Dispatch(i);
    }
  }
}
