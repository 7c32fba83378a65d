/**
 The drain protocol of tools/tick_recorder/main.cpp: the feed thread pushes ticks and finally raises
 its done flag; the drain thread pops, writes and counts until the flag is up and the ring is empty.
 Steps of the two threads interleave arbitrarily, inside push and pop as well.
 */
module TickRecorder {
  import opened Ticks
  import R = RingBuffer
  import BitMask

  const TICK_BYTES := 64

  // Where the drain thread is; between ticks it re-evaluates its loop condition.
  datatype Drain =
    | CheckingDone
    | CheckingEmpty
    | Popping
    | Writing(tick: Tick)
    | AddingBytes(tick: Tick)
    | Counting(tick: Tick)
    | Exited

  datatype State = State(ring: R.State<Tick>, feedDone: bool, drain: Drain, written: seq<Tick>, bytes: nat,
                         binance: nat, coinbase: nat, polymarket: nat)

  datatype Step = Feed(push: R.Step<Tick>) | RaiseDone | DrainStep

  // After run() returns, the feed thread is outside push and never pushes again.
  function FeedStep(s: State, push: R.Step<Tick>): State
    requires R.Inv(s.ring)
  {
    if s.feedDone || !R.ByProducer(push) then s else s.(ring := R.Push(s.ring, push))
  }

  function PopStep(s: State): State
    requires R.Inv(s.ring)
  {
    match s.ring.consumer
    case Ready => s.(ring := R.Pop(s.ring, R.LoadTail))
    case SawTail(_) =>
      var ring := R.Pop(s.ring, R.LoadHeadAndCheckEmpty);
      s.(ring := ring, drain := if ring.consumer.Ready? then CheckingDone else Popping)
    case Draining(_) => s.(ring := R.Pop(s.ring, R.ReadSlot))
    case Copied(_, out) => s.(ring := R.Pop(s.ring, R.StoreTail), drain := Writing(out))
  }

  function AdvanceDrain(s: State): State
    requires R.Inv(s.ring)
  {
    match s.drain
    case CheckingDone => s.(drain := if s.feedDone then CheckingEmpty else Popping)
    case CheckingEmpty =>
      s.(drain := if R.Sub64(s.ring.ring.head, s.ring.ring.tail) == 0 then Exited else Popping)
    case Popping => PopStep(s)
    case Writing(t) => s.(drain := AddingBytes(t), written := s.written + [t])
    case AddingBytes(t) => s.(drain := Counting(t), bytes := s.bytes + TICK_BYTES)
    case Counting(t) =>
      (match t.source
       case Binance => s.(drain := CheckingDone, binance := s.binance + 1)
       case Coinbase => s.(drain := CheckingDone, coinbase := s.coinbase + 1)
       case Polymarket => s.(drain := CheckingDone, polymarket := s.polymarket + 1))
    case Exited => s
  }

  function Apply(s: State, step: Step): State
    requires R.Inv(s.ring)
  {
    match step
    case Feed(push) => FeedStep(s, push)
    case RaiseDone => if s.ring.producer.Idle? then s.(feedDone := true) else s
    case DrainStep => AdvanceDrain(s)
  }

  function Count(ticks: seq<Tick>, source: Source): nat {
    if ticks == [] then 0
    else Count(ticks[..|ticks| - 1], source) + (if ticks[|ticks| - 1].source == source then 1 else 0)
  }

  // The written ticks whose counter is already incremented.
  function Counted(s: State): seq<Tick> {
    if (s.drain.AddingBytes? || s.drain.Counting?) && s.written != [] then s.written[..|s.written| - 1]
    else s.written
  }

  ghost predicate Inv(s: State) {
    && R.Inv(s.ring)
    && (s.feedDone ==> s.ring.producer.Idle?)
    && (s.drain != Popping ==> s.ring.consumer.Ready?)
    && (s.drain.CheckingEmpty? || s.drain.Exited? ==> s.feedDone)
    && (s.drain.Exited? ==> s.ring.popped == s.ring.pushed)
    && s.ring.popped == s.written + (if s.drain.Writing? then [s.drain.tick] else [])
    && (s.drain.AddingBytes? || s.drain.Counting? ==>
          s.written != [] && s.written[|s.written| - 1] == s.drain.tick)
    && s.bytes + (if s.drain.AddingBytes? then TICK_BYTES else 0) == TICK_BYTES * |s.written|
    && s.binance == Count(Counted(s), Binance)
    && s.coinbase == Count(Counted(s), Coinbase)
    && s.polymarket == Count(Counted(s), Polymarket)
  }

  lemma FeedKeeps(s: State, push: R.Step<Tick>)
    requires Inv(s)
    ensures Inv(FeedStep(s, push))
  {
    if R.ByProducer(push) { R.PushKeeps(s.ring, push); }
  }

  lemma PopKeeps(s: State)
    requires Inv(s) && s.drain.Popping?
    ensures Inv(PopStep(s))
  {
    hide R.Inv;
    match s.ring.consumer
    case Ready => R.PopKeeps(s.ring, R.LoadTail);
    case SawTail(_) => R.PopKeeps(s.ring, R.LoadHeadAndCheckEmpty);
    case Draining(_) => R.PopKeeps(s.ring, R.ReadSlot);
    case Copied(_, _) => R.PopKeeps(s.ring, R.StoreTail);
  }

  // The emptiness test that lets the drain exit sees the whole history popped.
  lemma EmptyMeansAllPopped(s: State)
    requires Inv(s) && R.Sub64(s.ring.ring.head, s.ring.ring.tail) == 0
    ensures s.ring.popped == s.ring.pushed
  {
    R.FullIffNItems(s.ring);
  }

  lemma CheckKeeps(s: State)
    requires Inv(s) && (s.drain.CheckingDone? || s.drain.CheckingEmpty?)
    ensures Inv(AdvanceDrain(s))
  {
    hide R.Inv, R.Sub64, Count;
    if s.drain.CheckingEmpty? && R.Sub64(s.ring.ring.head, s.ring.ring.tail) == 0 { EmptyMeansAllPopped(s); }
  }

  lemma WriteKeeps(s: State)
    requires Inv(s) && (s.drain.Writing? || s.drain.AddingBytes?)
    ensures Inv(AdvanceDrain(s))
  {
    hide R.Inv, Count;
  }

  lemma CountKeeps(s: State)
    requires Inv(s) && s.drain.Counting?
    ensures Inv(AdvanceDrain(s))
  {
    hide R.Inv;
  }

  lemma DrainKeeps(s: State)
    requires Inv(s)
    ensures Inv(AdvanceDrain(s))
  {
    if s.drain.CheckingDone? || s.drain.CheckingEmpty? {
      CheckKeeps(s);
    } else if s.drain.Popping? {
      PopKeeps(s);
    } else if s.drain.Counting? {
      CountKeeps(s);
    } else if !s.drain.Exited? {
      WriteKeeps(s);
    }
  }

  function Start(k: nat, slots: seq<Tick>): State {
    State(R.Start(k, slots), false, CheckingDone, [], 0, 0, 0, 0)
  }

  ghost function After(s: State, schedule: seq<Step>): (r: State)
    requires Inv(s)
    ensures Inv(r)
  {
    if schedule == [] then s
    else
      var s', step := After(s, schedule[..|schedule| - 1]), schedule[|schedule| - 1];
      match step
      case Feed(push) => FeedKeeps(s', push); Apply(s', step)
      case RaiseDone => Apply(s', step)
      case DrainStep => DrainKeeps(s'); Apply(s', step)
  }

  lemma {:induction false} CountsAddUp(ticks: seq<Tick>)
    ensures Count(ticks, Binance) + Count(ticks, Coinbase) + Count(ticks, Polymarket) == |ticks|
  {
    if ticks != [] { CountsAddUp(ticks[..|ticks| - 1]); }
  }

  lemma StartHolds(k: nat, slots: seq<Tick>)
    requires k < 64 && |slots| == BitMask.Pow2(k)
    ensures Inv(Start(k, slots))
  {
    R.SafeAfterAnySchedule(k, slots, []);
  }

  // Whatever the interleaving, at exit the file holds exactly the accepted ticks in order, and the
  // counters measure it; before that, the file is a prefix of them.
  lemma DrainIsComplete(k: nat, slots: seq<Tick>, schedule: seq<Step>)
    requires k < 64 && |slots| == BitMask.Pow2(k)
    ensures Inv(Start(k, slots))
    ensures var s := After(Start(k, slots), schedule);
            && s.written <= s.ring.pushed
            && (s.drain.Exited? ==>
                  && s.feedDone && s.written == s.ring.pushed
                  && s.binance + s.coinbase + s.polymarket == |s.written|
                  && s.bytes == 64 * |s.written|
                  && s.binance == Count(s.written, Binance)
                  && s.coinbase == Count(s.written, Coinbase))
  {
    StartHolds(k, slots);
    var s := After(Start(k, slots), schedule);
    CountsAddUp(s.written);
  }

  // ---- The drain ends ----

  function Unpopped(s: State): int { |s.ring.pushed| - |s.ring.popped| }

  // How many more steps of its own the drain takes once nothing more is pushed: nine for each tick still
  // in the ring, two for the checks that let it leave, and the rest of what it is doing now.
  function Left(s: State): int {
    var r := 9 * Unpopped(s);
    match s.drain
    case CheckingDone => r + 2
    case CheckingEmpty => r + 1
    case Popping =>
      (match s.ring.consumer
       case Ready => if r == 0 then 4 else r
       case SawTail(_) => if r == 0 then 3 else r - 1
       case Draining(_) => r - 2
       case Copied(_, _) => r - 3)
    case Writing(_) => r + 5
    case AddingBytes(_) => r + 4
    case Counting(_) => r + 3
    case Exited => 0
  }

  lemma PopStepShortens(s: State)
    requires Inv(s) && s.drain.Popping?
    ensures Left(PopStep(s)) == Left(s) - 1 && 0 < Left(s)
    ensures PopStep(s).feedDone == s.feedDone && PopStep(s).ring.ring.k == s.ring.ring.k
  {
    hide Count;
    R.FullIffNItems(s.ring);
  }

  lemma DrainStepShortens(s: State)
    requires Inv(s) && s.feedDone
    ensures AdvanceDrain(s).feedDone
    ensures if s.drain.Exited? then AdvanceDrain(s) == s else Left(AdvanceDrain(s)) == Left(s) - 1 && 0 < Left(s)
  {
    hide R.Inv, Count, PopStep, R.Sub64;
    ItemsLeft(s);
    if s.drain.Popping? { PopStepShortens(s); }
  }

  lemma ItemsLeft(s: State)
    requires Inv(s)
    ensures 0 <= Unpopped(s) <= |s.ring.ring.buf|
    ensures R.Sub64(s.ring.ring.head, s.ring.ring.tail) == 0 <==> Unpopped(s) == 0
    ensures s.drain.Exited? ==> Unpopped(s) == 0
  {
    hide Count;
    R.FullIffNItems(s.ring);
  }

  function DrainSteps(schedule: seq<Step>): nat {
    if schedule == [] then 0
    else DrainSteps(schedule[..|schedule| - 1]) + if schedule[|schedule| - 1] == DrainStep then 1 else 0
  }

  lemma LeftBounded(s: State)
    requires Inv(s)
    ensures Left(s) <= 9 * |s.ring.ring.buf| + 5 && (s.drain.Exited? <==> Left(s) <= 0)
  {
    hide Count, R.Sub64;
    ItemsLeft(s);
    if s.drain.Popping? { PopStepShortens(s); }
  }

  // With the done flag up only the drain's own steps change anything.
  lemma OthersStop(s: State, step: Step)
    requires Inv(s) && s.feedDone
    ensures Apply(s, step) == if step == DrainStep then AdvanceDrain(s) else s
  {
    hide AdvanceDrain, R.Inv, Count;
  }

  lemma LastStep(s: State, schedule: seq<Step>)
    requires Inv(s) && schedule != []
    ensures var before := After(s, schedule[..|schedule| - 1]);
            R.Inv(before.ring) && After(s, schedule) == Apply(before, schedule[|schedule| - 1])
  {
    hide Inv, R.Inv, Apply;
    RingHolds(After(s, schedule[..|schedule| - 1]));
  }

  lemma RingHolds(s: State)
    requires Inv(s)
    ensures R.Inv(s.ring)
  {
  }

  // Once the done flag is up the drain always leaves: in every schedule it has left exactly when it has
  // taken that many steps, at most nine for each slot of the ring and five, whatever the feed still does.
  lemma {:induction false} DrainExitsIff(s: State, schedule: seq<Step>)
    requires Inv(s) && s.feedDone
    ensures After(s, schedule).feedDone
    ensures After(s, schedule).drain.Exited? <==> DrainSteps(schedule) >= Left(s)
    ensures !After(s, schedule).drain.Exited? ==> Left(After(s, schedule)) == Left(s) - DrainSteps(schedule)
    ensures Left(s) <= 9 * |s.ring.ring.buf| + 5
  {
    hide Inv, AdvanceDrain, Left, R.Inv;
    LeftBounded(s);
    if schedule != [] {
      var init := schedule[..|schedule| - 1];
      DrainExitsIff(s, init);
      LastStep(s, schedule);
      hide After, Apply;
      OthersStop(After(s, init), schedule[|schedule| - 1]);
      DrainStepShortens(After(s, init));
      LeftBounded(After(s, init));
      LeftBounded(After(s, schedule));
    }
  }

  // An exited drain can no longer miss anything: no later step changes what was pushed or written.
  lemma ExitIsFinal(s: State, step: Step)
    requires Inv(s) && s.drain.Exited?
    ensures var s' := Apply(s, step);
            s'.drain.Exited? && s'.written == s.written && s'.ring.pushed == s.ring.pushed
  {
  }
}
