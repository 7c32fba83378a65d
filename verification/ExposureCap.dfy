/**
 How far the total exposure can go. A pass sizes a taker entry against the exposure it reads; the cap holds
 over every interleaving in which no reading is too low, and which readings are too low is exact.
 */
module ExposureCap {
  import opened Amounts
  import opened OrderStateMachine
  import opened SharedAccounts
  import opened SerialPasses
  import MakerArm
  import PM = PositionManager
  import Scenarios
  import Sizing
  import TakerArm

  // ---- What a pass may book ----

  // An opening is a taker entry at its rounded size or a maker fill at the quote size.
  lemma BookedFrom(o: Osm, a: Action)
    requires Inv(o) && GoodAction(a) && Act(o, a).booking.Books?
    ensures a.Evaluate?
    ensures o.state == TakerEval || o.state == MakerQuoted
    ensures o.state == MakerQuoted ==> Act(o, a).booking.cost == ToDouble(MakerArm.SIZE)
    ensures o.state == TakerEval ==>
      && Act(o, a).booking.cost == ToDouble(TakerArm.SizeOf(TakerView(a.inputs)))
      && FromDouble(a.inputs.view.exposure) + TakerArm.SizeOf(TakerView(a.inputs)) <= Sizing.MAX_TOTAL_EXPOSURE
      && TakerArm.SizeOf(TakerView(a.inputs)) >= TakerArm.MIN_SIZE
  {
    hide MakerArm.Sound, ClosePosition, PM.Evaluated, HandleIdle, WantsTaker, HandleLateFill, PM.Cost;
    hide TakerArm.Fired, TakerArm.SizeOf, MakerArm.Manage, FromDouble, ToDouble;
    if a.Flatten? { CloseBooksNothing(o, a.inputs); }
    if a.Evaluate? {
      var i, raised := a.inputs, o.(flags := Raised(o.flags, a.timeRemaining));
      CloseBooksNothing(raised, i);
      if a.timeRemaining >= 0.0 {
        match o.state
        case Idle => IdleBooksNothing(raised, i);
        case TakerEval => TakerEvalBooks(raised, i);
        case MakerQuoted => MakerBooks(raised, i);
        case PositionOpen =>
          CloseBooksNothing(raised.(position := PM.Evaluated(raised.position, i.view.signals).0), i);
        case _ =>
      }
    }
  }

  lemma IdleBooksNothing(o: Osm, i: Inputs)
    requires Inv(o) && o.state == Idle && GoodInputs(i)
    ensures HandleIdle(o, i).booking == NoBooking
  {
    hide Inv, MakerArm.Quoted;
    IdleKeeps(o, i);
  }

  lemma TakerEvalBooks(o: Osm, i: Inputs)
    requires GoodInputs(i) && HandleTakerEval(o, i).booking.Books?
    ensures var size := TakerArm.SizeOf(TakerView(i));
            && HandleTakerEval(o, i).booking.cost == ToDouble(size)
            && FromDouble(i.view.exposure) + size <= Sizing.MAX_TOTAL_EXPOSURE && size >= TakerArm.MIN_SIZE
  {
    hide TakerArm.Fired, TakerArm.SizeOf, ToDouble, FromDouble, PM.Cost;
    TakerArm.SuccessBooksItsSize(TakerView(i), o.isAbove, i.taker);
  }

  lemma MakerBooks(o: Osm, i: Inputs)
    requires Inv(o) && o.state == MakerQuoted && GoodInputs(i)
    ensures var b := HandleMakerQuoted(o, i).booking;
            !b.Releases? && (b.Books? ==> b.cost == ToDouble(MakerArm.SIZE))
  {
    hide MakerArm.Manage, HandleLateFill, WantsTaker, MakerArm.Sound, PM.Cost, ToDouble;
    if o.flags.quotesCancelled {
      LateFillUnreachable(o, i);
    } else {
      MakerArm.FillBooksQuoteSize(o.maker, i.arm, i.nowNs, i.maker);
    }
  }

  // ---- Whole amounts ----

  predicate Whole(x: real) { x == ToDouble(FromDouble(x)) }

  lemma WholeAmount(a: Amount)
    ensures Whole(ToDouble(a))
  {
    DoubleRoundTrip(a);
  }

  lemma WholeAdds(x: real, y: real)
    requires Whole(x) && Whole(y)
    ensures Whole(x + y)
  {
    ToDoubleAdds(FromDouble(x), FromDouble(y));
    WholeAmount(FromDouble(x) + FromDouble(y));
  }

  // ---- Stakes ----

  function MakerOpen(t: Thread): int { if t.osm.position.isOpen && t.byMaker then 1 else 0 }

  function MakersOpen(ts: seq<Thread>): int {
    if ts == [] then 0 else MakerOpen(ts[0]) + MakersOpen(ts[1..])
  }

  lemma {:induction false} MakersUpdate(ts: seq<Thread>, k: nat, t: Thread)
    requires k < |ts|
    ensures MakersOpen(ts[k := t]) == MakersOpen(ts) - MakerOpen(ts[k]) + MakerOpen(t)
  {
    hide MakerOpen;
    if k == 0 {
      assert ts[k := t][1..] == ts[1..];
    } else {
      MakersUpdate(ts[1..], k - 1, t);
      assert ts[k := t][1..] == ts[1..][k - 1 := t];
    }
  }

  lemma {:induction false} MakersAppend(ts: seq<Thread>, t: Thread)
    ensures MakersOpen(ts + [t]) == MakersOpen(ts) + MakerOpen(t)
  {
    hide MakerOpen;
    if ts == [] {
      assert [t][1..] == [];
    } else {
      MakersAppend(ts[1..], t);
      assert (ts + [t])[1..] == ts[1..] + [t];
    }
  }

  // A whole amount, the quote size for a maker.
  ghost predicate SoundStake(t: Thread) {
    t.osm.position.isOpen ==>
      && Whole(PM.Cost(t.osm.position.data))
      && (t.byMaker ==> PM.Cost(t.osm.position.data) == ToDouble(MakerArm.SIZE))
  }

  lemma {:induction false} WholeTotal(ts: seq<Thread>)
    requires forall k :: 0 <= k < |ts| ==> SoundStake(ts[k])
    ensures Whole(TotalHeld(ts))
  {
    if ts == [] {
      WholeAmount(0);
    } else {
      WholeTotal(ts[1..]);
      if !ts[0].osm.position.isOpen { WholeAmount(0); }
      hide Whole, PM.Cost, MakerOpen;
      WholeAdds(Held(ts[0]), TotalHeld(ts[1..]));
    }
  }

  // The cap with the open maker positions of a state.
  function Cap(s: System): real {
    ToDouble(Sizing.MAX_TOTAL_EXPOSURE) + ToDouble(MakerArm.SIZE) * MakersOpen(s.threads) as real
  }

  ghost predicate Sound(s: System) { forall k :: 0 <= k < |s.threads| ==> SoundStake(s.threads[k]) }

  ghost predicate Capped(s: System) { Sound(s) && TotalHeld(s.threads) <= Cap(s) }

  // The most a taker entry that reads this exposure can book.
  function Largest(exposure: real): Amount {
    var room := Sizing.MAX_TOTAL_EXPOSURE - FromDouble(exposure);
    if room < TakerArm.MIN_SIZE then 0 else if room < Sizing.MAX_TRADE then room else Sizing.MAX_TRADE
  }

  // What a pass does to its thread's stake: at most one quote size per maker position opened, unless it
  // is a taker entry, which is at most the largest for the exposure it reads.
  lemma PassStake(t: Thread, a: Action)
    requires SoundStake(t) && Inv(t.osm) && TakesPass(t, a)
    ensures var u := PassThread(t, a);
            && SoundStake(u)
            && (Held(u) - Held(t) <= ToDouble(MakerArm.SIZE) * (MakerOpen(u) - MakerOpen(t)) as real
                || (t.osm.state == TakerEval && a.Evaluate? && MakerOpen(u) == MakerOpen(t)
                    && Held(u) - Held(t) <= ToDouble(Largest(a.inputs.view.exposure))))
  {
    hide Inv, Act, Whole, FromDouble, PM.Cost;
    StepKeeps(t.osm, a);
    var out := Act(t.osm, a);
    match out.booking
    case NoBooking =>
    case Releases(c) => StakePositive(t);
    case Books(c) =>
      BookedFrom(t.osm, a);
      WholeAmount(MakerArm.SIZE);
      if t.osm.state == TakerEval {
        var size := TakerArm.SizeOf(TakerView(a.inputs));
        WholeAmount(size);
        SizeAtMostLargest(a.inputs);
      }
  }

  lemma StakePositive(t: Thread)
    requires Inv(t.osm)
    ensures t.osm.position.isOpen ==> PM.Cost(t.osm.position.data) >= 1.0
  {
    hide PM.Cost;
  }

  lemma SizeAtMostLargest(i: Inputs)
    requires GoodInputs(i)
    requires FromDouble(i.view.exposure) + TakerArm.SizeOf(TakerView(i)) <= Sizing.MAX_TOTAL_EXPOSURE
    requires TakerArm.SizeOf(TakerView(i)) >= TakerArm.MIN_SIZE
    ensures ToDouble(TakerArm.SizeOf(TakerView(i))) <= ToDouble(Largest(i.view.exposure))
  {
    hide FromDouble, Sizing.KellySize;
    Sizing.KellyWithinRoom(i.arm.pTrue, i.arm.pMarket, FromDouble(i.view.bankroll), FromDouble(i.view.exposure));
  }

  // ---- The cap over every interleaving ----

  // A reading is safe if even the largest entry it allows fits under the cap.
  ghost predicate SafeReading(s: System, exposure: real) {
    TotalHeld(s.threads) + ToDouble(Largest(exposure)) <= Cap(s)
  }

  // If the step is the pass of a machine about to fire, what it reads is safe.
  ghost predicate ReadsSafely(s: System, step: Step) {
    (step.Pass? && step.thread < |s.threads| && step.action.Evaluate?
     && s.threads[step.thread].osm.state == TakerEval) ==>
      SafeReading(s, step.action.inputs.view.exposure)
  }

  lemma StepKeepsCap(s: System, step: Step)
    requires AllInv(s) && Capped(s) && ReadsSafely(s, step)
    ensures Capped(Apply(s, step))
  {
    hide Inv, SoundStake, MakersOpen, MakerOpen, TotalHeld, Held, PassThread, TakesPass, AllInv, Largest, ToDouble;
    match step
    case Create(isAbove) =>
      CreateKeepsCap(s, isAbove);
    case Retire(k) =>
      if k < |s.threads| && s.threads[k].pending == [] {
        CappedBySame(s, Apply(s, step), k, s.threads[k].(retired := true));
      }
    case Commit(k) =>
      if k < |s.threads| && s.threads[k].pending != [] {
        CommitThreads(s, k);
        CappedBySame(s, Commits(s, k), k, s.threads[k].(pending := s.threads[k].pending[1..]));
      }
    case Pass(k, a) =>
      if k < |s.threads| && TakesPass(s.threads[k], a) {
        PassKeepsCap(s, k, a);
      }
  }

  lemma CreateKeepsCap(s: System, isAbove: bool)
    requires AllInv(s) && Capped(s)
    ensures Capped(Apply(s, Create(isAbove)))
  {
    hide Inv, SoundStake, MakersOpen, MakerOpen, TotalHeld, Held, AllInv;
    var t := Thread(Fresh(isAbove), [], false, false, []);
    NewStake(isAbove);
    FreshThread(isAbove);
    MakersAppend(s.threads, t);
    SumsAppend(s.threads, t);
  }

  // Changing one thread without touching its position keeps the cap.
  lemma CappedBySame(s: System, to: System, k: nat, t: Thread)
    requires k < |s.threads| && Capped(s) && to.threads == s.threads[k := t]
    requires t.osm == s.threads[k].osm && t.byMaker == s.threads[k].byMaker
    ensures Capped(to)
  {
    hide SoundStake, TotalHeld, MakersOpen;
    SameStake(s, k, t);
  }

  lemma SameStake(s: System, k: nat, t: Thread)
    requires k < |s.threads| && Sound(s)
    requires t.osm == s.threads[k].osm && t.byMaker == s.threads[k].byMaker
    ensures SoundStake(t)
    ensures TotalHeld(s.threads[k := t]) == TotalHeld(s.threads)
    ensures MakersOpen(s.threads[k := t]) == MakersOpen(s.threads)
  {
    hide Whole, PM.Cost, TotalHeld, MakersOpen;
    SumsUpdate(s.threads, k, t);
    MakersUpdate(s.threads, k, t);
  }

  lemma PassKeepsCap(s: System, k: nat, a: Action)
    requires AllInv(s) && Capped(s) && k < |s.threads| && TakesPass(s.threads[k], a)
    requires a.Evaluate? && s.threads[k].osm.state == TakerEval ==> SafeReading(s, a.inputs.view.exposure)
    ensures Capped(Apply(s, Pass(k, a)))
  {
    hide Inv, SoundStake, MakersOpen, MakerOpen, TotalHeld, Held, PassThread, TakesPass, Largest;
    var t := s.threads[k];
    PassStake(t, a);
    var u := PassThread(t, a);
    SumsUpdate(s.threads, k, u);
    MakersUpdate(s.threads, k, u);
    CapMoves(MakersOpen(s.threads), MakersOpen(s.threads[k := u]));
  }

  lemma CapMoves(m: int, n: int)
    ensures ToDouble(MakerArm.SIZE) * n as real
         == ToDouble(MakerArm.SIZE) * m as real + ToDouble(MakerArm.SIZE) * (n - m) as real
  {
  }

  lemma NewStake(isAbove: bool)
    ensures var t := Thread(Fresh(isAbove), [], false, false, []); SoundStake(t) && MakerOpen(t) == 0
  {
  }

  lemma StartCapped()
    ensures Capped(START)
  {
  }

  ghost predicate AllReadSafely(schedule: seq<Step>) {
    forall n :: 0 <= n < |schedule| ==> ReadsSafely(After(schedule[..n]), schedule[n])
  }

  lemma {:induction false} CappedAfter(schedule: seq<Step>)
    requires AllReadSafely(schedule)
    ensures Capped(After(schedule))
  {
    hide *;
    if schedule == [] {
      StartCapped();
      NothingApplied();
    } else {
      var n := |schedule| - 1;
      PrefixReadsSafely(schedule);
      CappedAfter(schedule[..n]);
      LastApplied(schedule);
      StepKeepsCap(After(schedule[..n]), schedule[n]);
    }
  }

  // Over every interleaving of any number of machines in which no reading is too low, what the open
  // positions hold (the exposure total, once the updates in flight are committed) is at most 400 USDC
  // plus 100 USDC for each open maker position: maker fills are not checked against the cap.
  lemma ExposureWithinCap(schedule: seq<Step>)
    requires AllReadSafely(schedule)
    ensures var s := After(schedule);
            && SettledExposure(s) == TotalHeld(s.threads) <= Cap(s)
            && Cap(s) == 400.0 + 100.0 * MakersOpen(s.threads) as real
  {
    hide *;
    CappedAfter(schedule);
    SettledIsHeld(After(schedule));
    CapIs(After(schedule));
  }

  lemma SettledIsHeld(s: System)
    requires SysInv(s) && Capped(s)
    ensures SettledExposure(s) == TotalHeld(s.threads) <= Cap(s)
  {
    hide FromPasses, TotalHeld, TotalInFlight, OpenCount, CountInFlight, Sound, Cap;
  }

  lemma CapIs(s: System)
    ensures Cap(s) == 400.0 + 100.0 * MakersOpen(s.threads) as real
  {
    hide MakersOpen;
    assert ToDouble(MakerArm.SIZE) == 100.0 && ToDouble(Sizing.MAX_TOTAL_EXPOSURE) == 400.0;
  }

  lemma PrefixReadsSafely(schedule: seq<Step>)
    requires AllReadSafely(schedule) && schedule != []
    ensures AllReadSafely(schedule[..|schedule| - 1])
    ensures ReadsSafely(After(schedule[..|schedule| - 1]), schedule[|schedule| - 1])
  {
    hide After, ReadsSafely, AllInv, SysInv;
    var init := schedule[..|schedule| - 1];
    forall n | 0 <= n < |init| ensures ReadsSafely(After(init[..n]), init[n]) {
      assert init[..n] == schedule[..n];
    }
  }

  // A pass that reads at least what the open positions hold reads safely.
  lemma FullReadingIsSafe(s: System, exposure: real)
    requires Capped(s) && TotalHeld(s.threads) <= exposure
    ensures SafeReading(s, exposure)
  {
    hide SoundStake, TotalHeld, MakersOpen;
    WholeTotal(s.threads);
    var held := TotalHeld(s.threads);
    FromDoubleMonotone(held, exposure);
    if Largest(exposure) > 0 {
      assert Largest(exposure) <= Sizing.MAX_TOTAL_EXPOSURE - FromDouble(held);
      ToDoubleAdds(FromDouble(held), Largest(exposure));
      MakersNotNegative(s.threads);
      SizePositive(MakersOpen(s.threads));
    }
  }

  // If the step is the pass of a machine about to fire, it reads at least what the open positions hold.
  ghost predicate ReadsFully(s: System, step: Step) {
    (step.Pass? && step.thread < |s.threads| && step.action.Evaluate?
     && s.threads[step.thread].osm.state == TakerEval) ==>
      step.action.inputs.view.exposure >= TotalHeld(s.threads)
  }

  ghost predicate AllReadFully(schedule: seq<Step>) {
    forall n :: 0 <= n < |schedule| ==> ReadsFully(After(schedule[..n]), schedule[n])
  }

  lemma PrefixReadsFully(schedule: seq<Step>)
    requires AllReadFully(schedule) && schedule != []
    ensures AllReadFully(schedule[..|schedule| - 1])
    ensures ReadsFully(After(schedule[..|schedule| - 1]), schedule[|schedule| - 1])
  {
    hide After, ReadsFully, AllInv, SysInv;
    var init := schedule[..|schedule| - 1];
    forall n | 0 <= n < |init| ensures ReadsFully(After(init[..n]), init[n]) {
      assert init[..n] == schedule[..n];
    }
  }

  lemma ReadsSafelyExtend(schedule: seq<Step>)
    requires schedule != [] && AllReadSafely(schedule[..|schedule| - 1])
    requires ReadsSafely(After(schedule[..|schedule| - 1]), schedule[|schedule| - 1])
    ensures AllReadSafely(schedule)
  {
    hide After, ReadsSafely, AllInv, SysInv;
    var init := schedule[..|schedule| - 1];
    forall n | 0 <= n < |schedule| ensures ReadsSafely(After(schedule[..n]), schedule[n]) {
      if n < |init| { assert init[..n] == schedule[..n]; }
    }
  }

  lemma FullIsSafe(s: System, step: Step)
    requires Capped(s) && ReadsFully(s, step)
    ensures ReadsSafely(s, step)
  {
    hide Capped, SafeReading;
    if ReadsFully(s, step) && step.Pass? && step.action.Evaluate?
      && TotalHeld(s.threads) <= step.action.inputs.view.exposure
    {
      FullReadingIsSafe(s, step.action.inputs.view.exposure);
    }
  }

  // In particular the cap holds over every interleaving in which a machine about to fire never reads an
  // exposure below what the open positions hold.
  lemma {:induction false} FullReadingsAreSafe(schedule: seq<Step>)
    requires AllReadFully(schedule)
    ensures AllReadSafely(schedule)
  {
    if schedule != [] {
      hide *;
      var init := schedule[..|schedule| - 1];
      PrefixReadsFully(schedule);
      FullReadingsAreSafe(init);
      CappedAfter(init);
      FullIsSafe(After(init), schedule[|schedule| - 1]);
      ReadsSafelyExtend(schedule);
    }
  }

  lemma SizePositive(makers: int)
    requires makers >= 0
    ensures ToDouble(MakerArm.SIZE) * makers as real >= 0.0
  {
  }

  lemma MakersNotNegative(ts: seq<Thread>)
    ensures MakersOpen(ts) >= 0
  {
  }

  // ---- Which readings are too low ----

  predicate Reads(a: Action, exposure: real) {
    a.Evaluate? && GoodAction(a) && a.inputs.view.exposure == exposure
  }

  // The machine's next evaluation reads this exposure and takes the positions past the cap.
  ghost predicate Breaks(s: System, k: nat, exposure: real, a: Action)
    requires AllInv(s)
  {
    Reads(a, exposure) && !Capped(Apply(s, Pass(k, a)))
  }

  // For a machine about to fire in a state under the cap: a reading is too low exactly if there are
  // prices, a bankroll and replies with which the pass breaks the cap.
  lemma UnsafeReadingBreaksIff(s: System, k: nat, exposure: real)
    requires AllInv(s) && Capped(s) && k < |s.threads|
    requires s.threads[k].osm.state == TakerEval && s.threads[k].pending == [] && !s.threads[k].retired
    ensures (exists a :: Breaks(s, k, exposure, a)) <==> !SafeReading(s, exposure)
  {
    hide Capped, Apply, SafeReading;
    if SafeReading(s, exposure) {
      forall a | Reads(a, exposure)
        ensures !Breaks(s, k, exposure, a)
      {
        StepKeepsCap(s, Pass(k, a));
      }
    } else {
      var a := Scenarios.KeenPass(exposure);
      KeenPassBreaks(s, k, exposure);
      assert Breaks(s, k, exposure, a);
    }
  }

  lemma KeenPassBreaks(s: System, k: nat, exposure: real)
    requires AllInv(s) && Capped(s) && k < |s.threads| && !SafeReading(s, exposure)
    requires s.threads[k].osm.state == TakerEval && s.threads[k].pending == [] && !s.threads[k].retired
    ensures Breaks(s, k, exposure, Scenarios.KeenPass(exposure))
  {
    hide Inv, SoundStake, MakersOpen, TotalHeld, FromDouble, PM.Cost;
    var t, a := s.threads[k], Scenarios.KeenPass(exposure);
    assert Largest(exposure) > 0;
    Scenarios.KeenPassFires(t.osm, exposure, Largest(exposure));
    KeenHolds(t, exposure, Largest(exposure));
    SumsUpdate(s.threads, k, PassThread(t, a));
    MakersUpdate(s.threads, k, PassThread(t, a));
  }

  lemma KeenHolds(t: Thread, exposure: real, size: Amount)
    requires Inv(t.osm) && t.osm.state == TakerEval && t.pending == [] && !t.retired
    requires GoodAction(Scenarios.KeenPass(exposure))
    requires Act(t.osm, Scenarios.KeenPass(exposure)).booking == Books(ToDouble(size))
    ensures var u := PassThread(t, Scenarios.KeenPass(exposure));
            Held(u) - Held(t) == ToDouble(size) && MakerOpen(u) == MakerOpen(t)
  {
    hide Inv, Act, PM.Cost, ToDouble;
    StepKeeps(t.osm, Scenarios.KeenPass(exposure));
    ClosedWhileFiring(t.osm);
  }

  lemma ClosedWhileFiring(o: Osm)
    requires Inv(o) && o.state == TakerEval
    ensures !o.position.isOpen
  {
  }

  // ---- Serialised passes ----

  lemma SerialKeepsCap(s: System, step: Step)
    requires SysInv(s) && AllInv(s) && Committed(s) && Capped(s)
    ensures Capped(Serial(s, step))
  {
    hide SysInv, AllInv, Committed, Capped, Apply, PassNow, TakesPass, Reading;
    match step
    case Create(_) => StepKeepsCap(s, step);
    case Retire(_) => StepKeepsCap(s, step);
    case Commit(_) =>
    case Pass(k, a) =>
      var read := Reading(a, s);
      if k < |s.threads| && TakesPass(s.threads[k], read) && s.threads[k].pending == [] {
        ReadsTheTotal(s, a);
        PassNowKeepsCap(s, k, read);
      }
  }

  lemma ReadsTheTotal(s: System, a: Action)
    requires SysInv(s) && Committed(s) && Capped(s)
    ensures Reading(a, s).Evaluate? ==> SafeReading(s, Reading(a, s).inputs.view.exposure)
  {
    hide SysInv, Committed, Capped, SafeReading;
    CommittedTotals(s);
    FullReadingIsSafe(s, s.exposure);
  }

  // The commits that follow a pass move no position.
  lemma PassNowKeepsCap(s: System, k: nat, a: Action)
    requires AllInv(s) && Capped(s) && k < |s.threads|
    requires TakesPass(s.threads[k], a) && s.threads[k].pending == []
    requires a.Evaluate? ==> SafeReading(s, a.inputs.view.exposure)
    ensures Capped(PassNow(s, k, a))
  {
    hide Inv, SafeReading, SoundStake, MakersOpen, TotalHeld, PassThread, TakesPass;
    PassKeepsCap(s, k, a);
    var mid, u := Apply(s, Pass(k, a)), PassThread(s.threads[k], a);
    SameStake(mid, k, u.(pending := []));
    assert mid.threads[k := u.(pending := [])] == s.threads[k := u.(pending := [])];
  }

  lemma {:induction false} SerialCapped(schedule: seq<Step>)
    ensures Capped(SerialAfter(schedule))
  {
    hide *;
    if schedule == [] {
      StartCapped();
      NothingSerial();
    } else {
      SerialStep(schedule);
      SerialCapped(schedule[..|schedule| - 1]);
      SerialKeepsCap(SerialAfter(schedule[..|schedule| - 1]), schedule[|schedule| - 1]);
    }
  }

  // So when passes are serialised the exposure total itself never passes the cap.
  lemma SerialExposureWithinCap(schedule: seq<Step>)
    ensures var s := SerialAfter(schedule);
            s.exposure == TotalHeld(s.threads) <= 400.0 + 100.0 * MakersOpen(s.threads) as real
  {
    hide *;
    var s := SerialAfter(schedule);
    SerialCapped(schedule);
    CommittedTotals(s);
    SettledIsHeld(s);
    CapIs(s);
  }
}
