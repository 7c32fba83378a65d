/**
 Any number of order state machines on their own threads, sharing the exposure total and the open-position
 count. A pass of a machine's loop reads whatever it reads and queues its two atomic updates; they are
 committed one at a time, in any interleaving with the other threads. The main thread creates machines and
 retires them between passes, open position or not (src/main.cpp, sync_osms_with_scanner).
 */
module SharedAccounts {
  import opened OrderStateMachine
  import MakerArm
  import OsmObject
  import PM = PositionManager
  import TakerArm

  datatype Update = AddExposure(delta: real) | AddCount(change: int)

  // byMaker: the machine's latest position came from a quote. passes: every action it took so far.
  datatype Thread = Thread(osm: Osm, pending: seq<Update>, retired: bool, byMaker: bool, passes: seq<Action>)

  datatype System = System(threads: seq<Thread>, exposure: real, count: int)

  datatype Step =
    | Create(isAbove: bool)
    | Pass(thread: nat, action: Action)
    | Commit(thread: nat)
    | Retire(thread: nat)

  const START := System([], 0.0, 0)

  function UpdatesFor(b: Booking): seq<Update> {
    match b
    case NoBooking => []
    case Books(c) => [AddExposure(c), AddCount(1)]
    case Releases(c) => [AddExposure(-c), AddCount(-1)]
  }

  predicate TakesPass(t: Thread, a: Action) {
    !t.retired && GoodAction(a) && (a.Flatten? || a.Evaluate? ==> t.pending == [])
  }

  function PassThread(t: Thread, a: Action): Thread
    requires Inv(t.osm) && TakesPass(t, a)
  {
    var out := Act(t.osm, a);
    t.(osm := out.osm, pending := t.pending + UpdatesFor(out.booking), passes := t.passes + [a],
       byMaker := if out.booking.Books? then t.osm.state == MakerQuoted else t.byMaker)
  }

  function Commits(s: System, k: nat): System
    requires k < |s.threads| && s.threads[k].pending != []
  {
    var t := s.threads[k];
    var rest := s.(threads := s.threads[k := t.(pending := t.pending[1..])]);
    match t.pending[0]
    case AddExposure(d) => rest.(exposure := s.exposure + d)
    case AddCount(d) => rest.(count := s.count + d)
  }

  lemma CommitThreads(s: System, k: nat)
    requires k < |s.threads| && s.threads[k].pending != []
    ensures Commits(s, k).threads == s.threads[k := s.threads[k].(pending := s.threads[k].pending[1..])]
  {
  }

  ghost predicate AllInv(s: System) { forall k :: 0 <= k < |s.threads| ==> Inv(s.threads[k].osm) }

  function Apply(s: System, step: Step): System
    requires AllInv(s)
  {
    match step
    case Create(isAbove) => s.(threads := s.threads + [Thread(Fresh(isAbove), [], false, false, [])])
    case Pass(k, a) =>
      if k < |s.threads| && TakesPass(s.threads[k], a)
      then s.(threads := s.threads[k := PassThread(s.threads[k], a)])
      else s
    case Commit(k) => if k < |s.threads| && s.threads[k].pending != [] then Commits(s, k) else s
    case Retire(k) =>
      if k < |s.threads| && s.threads[k].pending == []
      then s.(threads := s.threads[k := s.threads[k].(retired := true)])
      else s
  }

  // ---- Conservation ----

  function ExposureOf(u: Update): real { match u case AddExposure(d) => d case AddCount(_) => 0.0 }

  function CountOf(u: Update): int { match u case AddExposure(_) => 0 case AddCount(d) => d }

  function InFlightExposure(us: seq<Update>): real {
    if us == [] then 0.0 else ExposureOf(us[0]) + InFlightExposure(us[1..])
  }

  function InFlightCount(us: seq<Update>): int {
    if us == [] then 0 else CountOf(us[0]) + InFlightCount(us[1..])
  }

  function Held(t: Thread): real { if t.osm.position.isOpen then PM.Cost(t.osm.position.data) else 0.0 }

  function HeldCount(t: Thread): int { if t.osm.position.isOpen then 1 else 0 }

  function TotalHeld(ts: seq<Thread>): real {
    if ts == [] then 0.0 else Held(ts[0]) + TotalHeld(ts[1..])
  }

  function TotalInFlight(ts: seq<Thread>): real {
    if ts == [] then 0.0 else InFlightExposure(ts[0].pending) + TotalInFlight(ts[1..])
  }

  function OpenCount(ts: seq<Thread>): int {
    if ts == [] then 0 else HeldCount(ts[0]) + OpenCount(ts[1..])
  }

  function CountInFlight(ts: seq<Thread>): int {
    if ts == [] then 0 else InFlightCount(ts[0].pending) + CountInFlight(ts[1..])
  }

  lemma {:induction false} SumsUpdate(ts: seq<Thread>, k: nat, t: Thread)
    requires k < |ts|
    ensures TotalHeld(ts[k := t]) == TotalHeld(ts) - Held(ts[k]) + Held(t)
    ensures TotalInFlight(ts[k := t])
         == TotalInFlight(ts) - InFlightExposure(ts[k].pending) + InFlightExposure(t.pending)
    ensures OpenCount(ts[k := t]) == OpenCount(ts) - HeldCount(ts[k]) + HeldCount(t)
    ensures CountInFlight(ts[k := t])
         == CountInFlight(ts) - InFlightCount(ts[k].pending) + InFlightCount(t.pending)
  {
    hide Held, HeldCount, InFlightExposure, InFlightCount;
    if k == 0 {
      assert ts[k := t][1..] == ts[1..];
    } else {
      SumsUpdate(ts[1..], k - 1, t);
      assert ts[k := t][1..] == ts[1..][k - 1 := t];
    }
  }

  lemma {:induction false} SumsAppend(ts: seq<Thread>, t: Thread)
    ensures TotalHeld(ts + [t]) == TotalHeld(ts) + Held(t)
    ensures TotalInFlight(ts + [t]) == TotalInFlight(ts) + InFlightExposure(t.pending)
    ensures OpenCount(ts + [t]) == OpenCount(ts) + HeldCount(t)
    ensures CountInFlight(ts + [t]) == CountInFlight(ts) + InFlightCount(t.pending)
  {
    hide Held, HeldCount, InFlightExposure, InFlightCount;
    if ts == [] {
      assert [t][1..] == [];
    } else {
      SumsAppend(ts[1..], t);
      assert (ts + [t])[1..] == ts[1..] + [t];
    }
  }

  ghost predicate Conserved(s: System) {
    && s.exposure + TotalInFlight(s.threads) == TotalHeld(s.threads)
    && s.count + CountInFlight(s.threads) == OpenCount(s.threads)
  }

  // Each thread's machine is the run of its own passes.
  ghost predicate FromPasses(t: Thread) {
    && GoodActions(t.passes)
    && Inv(t.osm) && Inv(Fresh(t.osm.isAbove))
    && t.osm == Run(Fresh(t.osm.isAbove), t.passes).osm
  }

  ghost predicate SysInv(s: System) {
    && (forall k :: 0 <= k < |s.threads| ==> FromPasses(s.threads[k]))
    && Conserved(s)
  }

  lemma InFlightAppend(us: seq<Update>, b: Booking)
    ensures us == [] ==> InFlightExposure(us + UpdatesFor(b)) == OsmObject.ExposureChange(b)
    ensures us == [] ==> InFlightCount(us + UpdatesFor(b)) == OsmObject.CountChange(b)
    ensures b == NoBooking ==> us + UpdatesFor(b) == us
  {
    var more := UpdatesFor(b);
    assert us == [] ==> us + more == more;
    if b == NoBooking {
      assert us + [] == us;
    } else {
      InFlightPair(more[0], more[1]);
    }
  }

  lemma InFlightPair(u: Update, v: Update)
    ensures InFlightExposure([u, v]) == ExposureOf(u) + ExposureOf(v)
    ensures InFlightCount([u, v]) == CountOf(u) + CountOf(v)
  {
    assert [u, v][1..] == [v] && [v][1..] == [];
    assert InFlightExposure([v]) == ExposureOf(v) + InFlightExposure([]);
    assert InFlightCount([v]) == CountOf(v) + InFlightCount([]);
  }

  lemma ActKeepsSide(o: Osm, a: Action)
    requires Inv(o) && GoodAction(a)
    ensures Act(o, a).osm.isAbove == o.isAbove
    ensures !(a.Flatten? || a.Evaluate?) ==> Act(o, a).booking == NoBooking
  {
    hide PM.Evaluated, MakerArm.Manage, MakerArm.Quoted, TakerArm.Fired, WantsTaker, MinEdge, MakerArm.Sound;
    hide CloseSell, CloseHedge;
  }

  lemma PassesExtend(t: Thread, a: Action)
    requires FromPasses(t) && TakesPass(t, a)
    ensures FromPasses(PassThread(t, a))
  {
    hide Act, Inv, Accounts;
    StepKeeps(t.osm, a);
    ActKeepsSide(t.osm, a);
    var passes := t.passes + [a];
    assert passes[..|passes| - 1] == t.passes;
    RunStep(Fresh(t.osm.isAbove), passes);
  }

  // A pass changes what the thread holds by exactly what it queues.
  lemma PassBalances(t: Thread, a: Action)
    requires Inv(t.osm) && TakesPass(t, a)
    ensures var u := PassThread(t, a);
            && Held(u) - Held(t) == InFlightExposure(u.pending) - InFlightExposure(t.pending)
            && HeldCount(u) - HeldCount(t) == InFlightCount(u.pending) - InFlightCount(t.pending)
  {
    hide Act, Inv, InFlightExposure, InFlightCount, PM.Cost;
    StepKeeps(t.osm, a);
    ActKeepsSide(t.osm, a);
    NothingInFlight();
    InFlightAppend(t.pending, Act(t.osm, a).booking);
  }

  lemma NothingInFlight()
    ensures InFlightExposure([]) == 0.0 && InFlightCount([]) == 0
  {
  }

  lemma FreshThread(isAbove: bool)
    ensures var t := Thread(Fresh(isAbove), [], false, false, []);
            FromPasses(t) && Held(t) == 0.0 && HeldCount(t) == 0
  {
    FreshIsGood(isAbove);
  }

  lemma SysInvGivesInv(s: System)
    requires SysInv(s)
    ensures AllInv(s)
  {
    hide Inv, Run;
  }

  // Every step of every thread keeps both balances.
  lemma StepConserves(s: System, step: Step)
    requires SysInv(s) && AllInv(s)
    ensures SysInv(Apply(s, step))
  {
    hide FromPasses, Inv, TotalHeld, TotalInFlight, OpenCount, CountInFlight, PassThread, Held, HeldCount;
    hide InFlightExposure, InFlightCount, TakesPass, AllInv;
    match step
    case Create(isAbove) =>
      FreshThread(isAbove);
      NothingInFlight();
      SumsAppend(s.threads, Thread(Fresh(isAbove), [], false, false, []));
    case Pass(k, a) =>
      if k < |s.threads| && TakesPass(s.threads[k], a) {
        var t := s.threads[k];
        assert Inv(t.osm) by { FromPassesInv(t); }
        PassesExtend(t, a);
        PassBalances(t, a);
        SumsUpdate(s.threads, k, PassThread(t, a));
      }
    case Commit(k) =>
      if k < |s.threads| && s.threads[k].pending != [] {
        var t := s.threads[k];
        var u := t.(pending := t.pending[1..]);
        CommitThread(t);
        SumsUpdate(s.threads, k, u);
      }
    case Retire(k) =>
      if k < |s.threads| && s.threads[k].pending == [] {
        RetireThread(s.threads[k]);
        SumsUpdate(s.threads, k, s.threads[k].(retired := true));
      }
  }

  lemma FromPassesInv(t: Thread)
    requires FromPasses(t)
    ensures Inv(t.osm)
  {
  }

  lemma CommitThread(t: Thread)
    requires FromPasses(t) && t.pending != []
    ensures var u := t.(pending := t.pending[1..]);
            && FromPasses(u) && Held(u) == Held(t) && HeldCount(u) == HeldCount(t)
            && InFlightExposure(u.pending) == InFlightExposure(t.pending) - ExposureOf(t.pending[0])
            && InFlightCount(u.pending) == InFlightCount(t.pending) - CountOf(t.pending[0])
  {
    hide Inv, Run;
  }

  lemma RetireThread(t: Thread)
    requires FromPasses(t)
    ensures var u := t.(retired := true);
            FromPasses(u) && Held(u) == Held(t) && HeldCount(u) == HeldCount(t)
  {
    hide Inv, Run;
  }

  function After(schedule: seq<Step>): (s: System)
    ensures AllInv(s) && SysInv(s)
  {
    if schedule == [] then START
    else
      var before := After(schedule[..|schedule| - 1]);
      StepConserves(before, schedule[|schedule| - 1]);
      SysInvGivesInv(Apply(before, schedule[|schedule| - 1]));
      Apply(before, schedule[|schedule| - 1])
  }

  // Over every interleaving of any number of machines: when no update is in flight the shared totals are
  // the sum of shares times entry price and the number of open positions, retired machines included; a
  // position is open exactly in PositionOpen and Closing; and each machine's openings are released at
  // most once, for the amount they added.
  lemma TotalsMatchPositions(schedule: seq<Step>)
    ensures var s := After(schedule);
            && s.exposure + TotalInFlight(s.threads) == TotalHeld(s.threads)
            && s.count + CountInFlight(s.threads) == OpenCount(s.threads)
    ensures forall k :: 0 <= k < |After(schedule).threads| ==>
              var t := After(schedule).threads[k];
              && (t.osm.position.isOpen <==> t.osm.state == PositionOpen || t.osm.state == Closing)
              && GoodActions(t.passes) && Inv(Fresh(t.osm.isAbove))
              && Run(Fresh(t.osm.isAbove), t.passes).osm == t.osm
              && LedgerMatches(Run(Fresh(t.osm.isAbove), t.passes))
  {
    hide Run, LedgerMatches, After;
    var s := After(schedule);
    forall k | 0 <= k < |s.threads|
      ensures var t := s.threads[k];
              && (t.osm.position.isOpen <==> t.osm.state == PositionOpen || t.osm.state == Closing)
              && GoodActions(t.passes) && Inv(Fresh(t.osm.isAbove))
              && Run(Fresh(t.osm.isAbove), t.passes).osm == t.osm
              && LedgerMatches(Run(Fresh(t.osm.isAbove), t.passes))
    {
      var t := s.threads[k];
      assert FromPasses(t);
      OpeningsReleasedOnce(t.osm.isAbove, t.passes);
    }
  }

  lemma RetiredStep(s: System, step: Step, k: nat)
    requires AllInv(s) && k < |s.threads| && s.threads[k].retired && s.threads[k].pending == []
    ensures k < |Apply(s, step).threads| && Apply(s, step).threads[k] == s.threads[k]
  {
    hide Inv, PassThread, GoodAction;
  }

  // No later step changes a retired thread.
  lemma {:induction false} RetiredThreadStays(schedule: seq<Step>, later: seq<Step>, k: nat)
    requires var s := After(schedule);
             k < |s.threads| && s.threads[k].retired && s.threads[k].pending == []
    ensures var s, t := After(schedule), After(schedule + later);
            k < |t.threads| && t.threads[k] == s.threads[k]
  {
    hide *;
    if later == [] {
      assert schedule + later == schedule;
    } else {
      var init := later[..|later| - 1];
      assert (schedule + later)[..|schedule + later| - 1] == schedule + init;
      assert (schedule + later)[|schedule + later| - 1] == later[|later| - 1];
      LastApplied(schedule + later);
      RetiredThreadStays(schedule, init, k);
      RetiredStep(After(schedule + init), later[|later| - 1], k);
    }
  }

  // All threads but one.
  function Others(ts: seq<Thread>, k: nat): seq<Thread>
    requires k < |ts|
  {
    ts[..k] + ts[k + 1..]
  }

  lemma {:induction false} SumsSplit(ts: seq<Thread>, k: nat)
    requires k < |ts|
    ensures TotalHeld(ts) == TotalHeld(Others(ts, k)) + Held(ts[k])
    ensures OpenCount(ts) == OpenCount(Others(ts, k)) + HeldCount(ts[k])
  {
    hide Held, HeldCount;
    if k == 0 {
      assert Others(ts, k) == ts[1..];
    } else {
      SumsSplit(ts[1..], k - 1);
      assert Others(ts, k)[0] == ts[0];
      assert Others(ts, k)[1..] == Others(ts[1..], k - 1);
    }
  }

  lemma HeldPositive(t: Thread)
    requires FromPasses(t)
    ensures Held(t) >= 0.0 && (t.osm.position.isOpen <==> Held(t) >= 1.0)
  {
    hide Run, PM.Cost;
  }

  lemma {:induction false} HeldNotNegative(ts: seq<Thread>)
    requires forall k :: 0 <= k < |ts| ==> FromPasses(ts[k])
    ensures TotalHeld(ts) >= 0.0 && OpenCount(ts) >= 0
  {
    hide FromPasses, Held;
    if ts != [] {
      HeldPositive(ts[0]);
      HeldNotNegative(ts[1..]);
    }
  }

  // What the two totals come to once the updates in flight are committed.
  function SettledExposure(s: System): real { s.exposure + TotalInFlight(s.threads) }

  function SettledCount(s: System): int { s.count + CountInFlight(s.threads) }

  // What one thread accounts for in the totals, beside all the others.
  ghost predicate Leaves(s: System, k: nat, position: PM.Position)
    requires k < |s.threads|
  {
    && (SettledExposure(s) == TotalHeld(Others(s.threads, k)) <==> !position.isOpen)
    && (SettledCount(s) == OpenCount(Others(s.threads, k)) <==> !position.isOpen)
    && (position.isOpen ==>
          && SettledExposure(s) == TotalHeld(Others(s.threads, k)) + PM.Cost(position.data)
          && SettledExposure(s) >= PM.Cost(position.data) >= 1.0
          && SettledCount(s) == OpenCount(Others(s.threads, k)) + 1 >= 1)
  }

  lemma ThreadLeaves(s: System, k: nat)
    requires SysInv(s) && k < |s.threads|
    ensures Leaves(s, k, s.threads[k].osm.position)
  {
    hide FromPasses, TotalHeld, OpenCount, TotalInFlight, CountInFlight, PM.Cost;
    SumsSplit(s.threads, k);
    HeldPositive(s.threads[k]);
    HeldNotNegative(Others(s.threads, k));
  }

  // Retiring a machine that still holds a position strands it: in every later state the totals are what
  // the other machines hold plus its cost and one, so it leaves nothing behind exactly if its position
  // was closed when it was retired.
  lemma RetiredHoldsForever(schedule: seq<Step>, later: seq<Step>, k: nat)
    requires var s := After(schedule);
             k < |s.threads| && s.threads[k].retired && s.threads[k].pending == []
    ensures var t := After(schedule + later);
            k < |t.threads| && Leaves(t, k, After(schedule).threads[k].osm.position)
  {
    hide *;
    RetiredThreadStays(schedule, later, k);
    ThreadLeaves(After(schedule + later), k);
  }

  lemma NothingApplied()
    ensures After([]) == START
  {
  }

  lemma LastApplied(schedule: seq<Step>)
    requires schedule != []
    ensures After(schedule) == Apply(After(schedule[..|schedule| - 1]), schedule[|schedule| - 1])
  {
    hide Apply, SysInv, AllInv;
  }
}
