/**
 Why readings matter: machines that size their entries against the same stale total each get the full room,
 so concurrent passes take the exposure as high as one likes.
 */
module StaleReads {
  import opened OrderStateMachine
  import opened SharedAccounts
  import PM = PositionManager
  import Scenarios
  import Sizing

  function KeenStep(k: nat): Step { Pass(k, Scenarios.KeenPass(0.0)) }

  lemma KeenFires()
    ensures Inv(Scenarios.FIRING) && GoodAction(Scenarios.KeenPass(0.0))
    ensures Act(Scenarios.FIRING, Scenarios.KeenPass(0.0)).booking == Books(200.0)
  {
    hide Act;
    Scenarios.KeenIsGood(0.0);
    Scenarios.FullRoom();
    Scenarios.KeenPassFires(Scenarios.FIRING, 0.0, Sizing.MAX_TRADE);
  }

  // n machines, p of which have booked 200 USDC each; the others are about to fire.
  ghost predicate Phase(s: System, n: nat, p: nat) {
    && |s.threads| == n && s.exposure == 200.0 * p as real
    && (forall k :: p <= k < n ==>
          s.threads[k].osm == Scenarios.FIRING && s.threads[k].pending == [] && !s.threads[k].retired)
  }

  lemma EngageOne(s: System, n: nat)
    requires AllInv(s) && Phase(s, n, 0) && AllInv(Apply(s, Create(true)))
    ensures Phase(Apply(Apply(s, Create(true)), KeenStep(n)), n + 1, 0)
  {
    hide Inv, Act, Scenarios.KeenPass;
    Scenarios.KeenIsGood(0.0);
    Scenarios.EngagesFromIdle(0.0);
  }

  lemma FireOne(s: System, n: nat, p: nat)
    requires AllInv(s) && Phase(s, n, p) && p < n
    requires AllInv(Apply(s, KeenStep(p))) && AllInv(Apply(Apply(s, KeenStep(p)), Commit(p)))
    ensures Phase(Apply(Apply(Apply(s, KeenStep(p)), Commit(p)), Commit(p)), n, p + 1)
  {
    hide Inv, Act, Scenarios.KeenPass;
    KeenFires();
    var t := PassThread(s.threads[p], Scenarios.KeenPass(0.0));
    assert t.pending == [AddExposure(200.0), AddCount(1)];
  }

  function EngageAll(n: nat): seq<Step> {
    if n == 0 then [] else EngageAll(n - 1) + [Create(true), KeenStep(n - 1)]
  }

  function FireUpTo(n: nat, p: nat): seq<Step> {
    if p == 0 then EngageAll(n) else FireUpTo(n, p - 1) + [KeenStep(p - 1), Commit(p - 1), Commit(p - 1)]
  }

  lemma LastStep(schedule: seq<Step>, step: Step)
    ensures After(schedule + [step]) == Apply(After(schedule), step)
  {
    hide Apply, SysInv, AllInv;
    LastApplied(schedule + [step]);
    assert (schedule + [step])[..|schedule|] == schedule;
  }

  lemma EngageStep(n: nat)
    requires n > 0
    ensures var mid := Apply(After(EngageAll(n - 1)), Create(true));
            AllInv(mid) && After(EngageAll(n)) == Apply(mid, KeenStep(n - 1))
  {
    hide After, Apply, SysInv, AllInv, KeenStep;
    var before := EngageAll(n - 1);
    LastStep(before, Create(true));
    LastStep(before + [Create(true)], KeenStep(n - 1));
    assert before + [Create(true)] + [KeenStep(n - 1)] == EngageAll(n);
  }

  lemma FireStep(n: nat, p: nat)
    requires 0 < p <= n
    ensures var fired := Apply(After(FireUpTo(n, p - 1)), KeenStep(p - 1));
            && AllInv(fired) && AllInv(Apply(fired, Commit(p - 1)))
            && After(FireUpTo(n, p)) == Apply(Apply(fired, Commit(p - 1)), Commit(p - 1))
  {
    hide After, Apply, SysInv, AllInv, KeenStep, EngageAll;
    var before, fire, commit := FireUpTo(n, p - 1), KeenStep(p - 1), Commit(p - 1);
    LastStep(before, fire);
    LastStep(before + [fire], commit);
    LastStep(before + [fire] + [commit], commit);
    assert before + [fire] + [commit] + [commit] == FireUpTo(n, p);
  }

  lemma NoneYet(n: nat)
    ensures Phase(After(EngageAll(0)), 0, 0) && FireUpTo(n, 0) == EngageAll(n)
  {
    hide Apply, SysInv, AllInv;
  }

  lemma {:induction false} AllEngage(n: nat)
    ensures Phase(After(EngageAll(n)), n, 0)
  {
    hide *;
    if n == 0 {
      NoneYet(0);
    } else {
      EngageStep(n);
      AllEngage(n - 1);
      EngageOne(After(EngageAll(n - 1)), n - 1);
    }
  }

  lemma {:induction false} AllFire(n: nat, p: nat)
    requires p <= n
    ensures Phase(After(FireUpTo(n, p)), n, p)
  {
    hide *;
    if p == 0 {
      NoneYet(n);
      AllEngage(n);
    } else {
      FireStep(n, p);
      AllFire(n, p - 1);
      FireOne(After(FireUpTo(n, p - 1)), n, p - 1);
    }
  }

  // With stale reads n taker entries, each inside the room it saw, add up to n times 200 USDC.
  lemma StaleReadsPassCap(n: nat)
    ensures After(FireUpTo(n, n)).exposure == 200.0 * n as real
  {
    hide After, SysInv, AllInv;
    AllFire(n, n);
  }

  // The smallest stranded position: one machine enters and is retired with its position open. In every
  // later state the exposure total holds its 200 USDC and the count holds one.
  lemma RetiredWhileOpen(later: seq<Step>)
    ensures var t := After(FireUpTo(1, 1) + [Retire(0)] + later);
            SettledExposure(t) >= 200.0 && SettledCount(t) >= 1
  {
    hide *;
    var schedule := FireUpTo(1, 1) + [Retire(0)];
    RetiredState();
    AloneIs(After(schedule));
    RetiredHoldsForever(schedule, later, 0);
    LeavesAtLeast(After(schedule + later), 0, After(schedule).threads[0].osm.position);
  }

  lemma AloneIs(s: System)
    requires Alone(s, true)
    ensures |s.threads| == 1 && s.threads[0].pending == [] && s.threads[0].retired
    ensures s.threads[0].osm.position.isOpen && PM.Cost(s.threads[0].osm.position.data) == 200.0
  {
  }

  lemma LeavesAtLeast(s: System, k: nat, position: PM.Position)
    requires k < |s.threads| && Leaves(s, k, position) && position.isOpen && PM.Cost(position.data) == 200.0
    ensures SettledExposure(s) >= 200.0 && SettledCount(s) >= 1
  {
    hide PM.Cost;
  }

  // One machine, with a position of the largest size and nothing in flight.
  ghost predicate Alone(s: System, retired: bool) {
    && |s.threads| == 1 && s.threads[0].pending == [] && s.threads[0].retired == retired
    && s.threads[0].osm.position.isOpen && PM.Cost(s.threads[0].osm.position.data) == 200.0
  }

  lemma RetireAlone(s: System)
    requires AllInv(s) && Alone(s, false)
    ensures Alone(Apply(s, Retire(0)), true)
  {
    hide PM.Cost, AllInv;
  }

  lemma RetiredState()
    ensures Alone(After(FireUpTo(1, 1) + [Retire(0)]), true)
  {
    hide *;
    LastStep(FireUpTo(1, 1), Retire(0));
    FiredAlone();
    RetireAlone(After(FireUpTo(1, 1)));
  }

  // The run of one machine: created, engaged, fired, both updates committed.
  lemma FiredAlone()
    ensures Alone(After(FireUpTo(1, 1)), false)
  {
    hide *;
    NoneYet(1);
    AllEngage(1);
    FireStep(1, 1);
    FireAlone(After(FireUpTo(1, 0)));
  }

  lemma FireAlone(s: System)
    requires AllInv(s) && Phase(s, 1, 0)
    requires AllInv(Apply(s, KeenStep(0))) && AllInv(Apply(Apply(s, KeenStep(0)), Commit(0)))
    ensures Alone(Apply(Apply(Apply(s, KeenStep(0)), Commit(0)), Commit(0)), false)
  {
    hide Inv, Act, PM.Cost, Scenarios.KeenPass;
    KeenFires();
    StepKeeps(Scenarios.FIRING, Scenarios.KeenPass(0.0));
    var t := PassThread(s.threads[0], Scenarios.KeenPass(0.0));
    assert t.pending == [AddExposure(200.0), AddCount(1)];
  }
}
