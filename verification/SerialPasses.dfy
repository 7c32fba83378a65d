/**
 Serialised passes: each pass reads the shared totals as they are and commits its updates before another
 thread moves. Such a run is one of the interleavings of SharedAccounts.
 */
module SerialPasses {
  import opened OrderStateMachine
  import opened SharedAccounts
  import OsmObject

  function ReadTotals(i: Inputs, s: System): Inputs {
    i.(view := i.view.(exposure := s.exposure, openCount := s.count))
  }

  function Reading(a: Action, s: System): Action {
    match a
    case Flatten(i) => Flatten(ReadTotals(i, s))
    case Evaluate(t, i) => Evaluate(t, ReadTotals(i, s))
    case _ => a
  }

  // The state after a pass and the commits of everything it queued.
  function PassNow(s: System, k: nat, a: Action): (r: System)
    requires AllInv(s) && k < |s.threads| && TakesPass(s.threads[k], a) && s.threads[k].pending == []
  {
    var t := PassThread(s.threads[k], a);
    var b := Act(s.threads[k].osm, a).booking;
    System(s.threads[k := t.(pending := [])], s.exposure + OsmObject.ExposureChange(b),
           s.count + OsmObject.CountChange(b))
  }

  function Serial(s: System, step: Step): System
    requires AllInv(s)
  {
    match step
    case Create(isAbove) => Apply(s, step)
    case Retire(k) => Apply(s, step)
    case Commit(k) => s
    case Pass(k, a) =>
      var read := Reading(a, s);
      if k < |s.threads| && TakesPass(s.threads[k], read) && s.threads[k].pending == [] then PassNow(s, k, read)
      else s
  }

  // A serial pass is one interleaving of the concurrent steps: the pass and then its commits.
  lemma PassNowIsSteps(s: System, k: nat, a: Action)
    requires AllInv(s) && k < |s.threads| && TakesPass(s.threads[k], a) && s.threads[k].pending == []
    requires AllInv(Apply(s, Pass(k, a)))
    ensures var mid := Apply(s, Pass(k, a));
            if Act(s.threads[k].osm, a).booking == NoBooking then PassNow(s, k, a) == mid
            else
              && mid.threads[k].pending != []
              && var half := Commits(mid, k);
                 half.threads[k].pending != [] && PassNow(s, k, a) == Commits(half, k)
  {
    hide Act, Inv;
    var b := Act(s.threads[k].osm, a).booking;
    var more := UpdatesFor(b);
    assert [] + more == more;
    if b != NoBooking {
      assert more[1..] == [more[1]] && [more[1]][1..] == [];
      var t := PassThread(s.threads[k], a);
      assert s.threads[k := t][k := t.(pending := more[1..])][k := t.(pending := [])]
          == s.threads[k := t.(pending := [])];
    } else {
      var t := PassThread(s.threads[k], a);
      assert t.(pending := []) == t;
    }
  }

  // No update is in flight anywhere.
  ghost predicate Committed(s: System) { forall k :: 0 <= k < |s.threads| ==> s.threads[k].pending == [] }

  lemma {:induction false} NothingInFlightAnywhere(ts: seq<Thread>)
    requires forall k :: 0 <= k < |ts| ==> ts[k].pending == []
    ensures TotalInFlight(ts) == 0.0 && CountInFlight(ts) == 0
  {
    if ts != [] {
      NothingInFlight();
      NothingInFlightAnywhere(ts[1..]);
    }
  }

  // Between serialised passes the totals are exactly what the open positions add up to.
  lemma CommittedTotals(s: System)
    requires SysInv(s) && Committed(s)
    ensures s.exposure == TotalHeld(s.threads) && s.count == OpenCount(s.threads)
  {
    hide FromPasses, TotalHeld, OpenCount, TotalInFlight, CountInFlight;
    NothingInFlightAnywhere(s.threads);
  }

  lemma EnabledPass(s: System, k: nat, a: Action)
    requires AllInv(s) && k < |s.threads| && TakesPass(s.threads[k], a)
    ensures Inv(s.threads[k].osm) && GoodAction(a)
  {
  }

  lemma PassNowKeeps(s: System, k: nat, a: Action)
    requires SysInv(s) && AllInv(s) && k < |s.threads|
    requires TakesPass(s.threads[k], a) && s.threads[k].pending == []
    ensures SysInv(PassNow(s, k, a))
  {
    hide *;
    EnabledPass(s, k, a);
    var mid := Apply(s, Pass(k, a));
    StepConserves(s, Pass(k, a));
    SysInvGivesInv(mid);
    PassNowIsSteps(s, k, a);
    PassStays(s, k, a);
    if Act(s.threads[k].osm, a).booking != NoBooking {
      CommitApplies(mid, k);
      StepConserves(mid, Commit(k));
      var half := Commits(mid, k);
      SysInvGivesInv(half);
      CommitApplies(half, k);
      StepConserves(half, Commit(k));
    }
  }

  lemma PassStays(s: System, k: nat, a: Action)
    requires AllInv(s) && k < |s.threads| && TakesPass(s.threads[k], a)
    ensures k < |Apply(s, Pass(k, a)).threads|
  {
    hide Inv, PassThread;
  }

  lemma CommitApplies(s: System, k: nat)
    requires AllInv(s) && k < |s.threads| && s.threads[k].pending != []
    ensures Apply(s, Commit(k)) == Commits(s, k) && k < |Commits(s, k).threads|
  {
    hide AllInv;
  }

  lemma SerialKeeps(s: System, step: Step)
    requires SysInv(s) && AllInv(s) && Committed(s)
    ensures SysInv(Serial(s, step)) && Committed(Serial(s, step))
  {
    hide Inv, SysInv, AllInv, PassThread, TakesPass, Reading, Act;
    match step
    case Create(_) => StepConserves(s, step);
    case Retire(_) => StepConserves(s, step);
    case Commit(_) =>
    case Pass(k, a) =>
      var read := Reading(a, s);
      if k < |s.threads| && TakesPass(s.threads[k], read) {
        PassNowKeeps(s, k, read);
      }
  }

  lemma StartKeeps()
    ensures SysInv(START) && Committed(START)
  {
  }

  function SerialAfter(schedule: seq<Step>): (s: System)
    ensures AllInv(s) && SysInv(s) && Committed(s)
  {
    if schedule == [] then
      StartKeeps();
      START
    else
      var before := SerialAfter(schedule[..|schedule| - 1]);
      SerialKeeps(before, schedule[|schedule| - 1]);
      SysInvGivesInv(Serial(before, schedule[|schedule| - 1]));
      Serial(before, schedule[|schedule| - 1])
  }

  lemma NothingSerial()
    ensures SerialAfter([]) == START
  {
  }

  lemma SerialStep(schedule: seq<Step>)
    requires schedule != []
    ensures SerialAfter(schedule) == Serial(SerialAfter(schedule[..|schedule| - 1]), schedule[|schedule| - 1])
  {
    hide Serial, SysInv, AllInv, Committed;
  }
}
