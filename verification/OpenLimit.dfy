/**
 What the limit of three open positions is worth. It is tested only when an idle machine engages, so
 machines that engaged earlier may all still open; these lemmas say how far the count can go.
 */
module OpenLimit {
  import opened OrderStateMachine
  import opened Scenarios
  import opened SerialPasses
  import opened SharedAccounts
  import MakerArm
  import OsmObject
  import PM = PositionManager
  import TakerArm

  // Past the limit check and able to open: about to fire, or quoting.
  predicate Engages(o: Osm) { o.state == TakerEval || o.state == MakerQuoted }

  function Engaged(t: Thread): int { if Engages(t.osm) && !t.retired then 1 else 0 }

  function EngagedCount(ts: seq<Thread>): int {
    if ts == [] then 0 else Engaged(ts[0]) + EngagedCount(ts[1..])
  }

  lemma {:induction false} EngagedUpdate(ts: seq<Thread>, k: nat, t: Thread)
    requires k < |ts|
    ensures EngagedCount(ts[k := t]) == EngagedCount(ts) - Engaged(ts[k]) + Engaged(t)
  {
    hide Engaged;
    if k == 0 {
      assert ts[k := t][1..] == ts[1..];
    } else {
      EngagedUpdate(ts[1..], k - 1, t);
      assert ts[k := t][1..] == ts[1..][k - 1 := t];
    }
  }

  lemma {:induction false} EngagedAppend(ts: seq<Thread>, t: Thread)
    ensures EngagedCount(ts + [t]) == EngagedCount(ts) + Engaged(t)
  {
    hide Engaged;
    if ts == [] {
      assert [t][1..] == [];
    } else {
      EngagedAppend(ts[1..], t);
      assert (ts + [t])[1..] == ts[1..] + [t];
    }
  }

  function Weight(o: Osm): int { if Engages(o) then 1 else 0 }

  // An idle machine engages only from a count below the limit, and a position opens only by giving up an
  // engagement.
  lemma EngageOrOpen(o: Osm, a: Action)
    requires Inv(o) && GoodAction(a)
    ensures var out := Act(o, a);
            || Weight(out.osm) + OsmObject.CountChange(out.booking) <= Weight(o)
            || (out.booking == NoBooking && o.state == Idle && a.Evaluate?
                && a.inputs.view.openCount < MAX_OPEN_POSITIONS)
  {
    hide ClosePosition, PM.Evaluated, WantsTaker, HandleLateFill, MakerArm.Sound, PM.Cost;
    hide TakerArm.Fired, MakerArm.Manage, MakerArm.Quoted, MinEdge;
    if a.Flatten? { CloseBooksNothing(o, a.inputs); }
    if a.Evaluate? {
      var i, raised := a.inputs, o.(flags := Raised(o.flags, a.timeRemaining));
      CloseBooksNothing(raised, i);
      if o.state == MakerQuoted && raised.flags.quotesCancelled {
        LateFillUnreachable(raised, i);
      }
      if o.state == PositionOpen {
        CloseBooksNothing(raised.(position := PM.Evaluated(raised.position, i.view.signals).0), i);
      }
    }
  }

  // ---- The bound, over every interleaving ----

  // Open positions and engaged machines together.
  function Exposed(s: System): int { OpenCount(s.threads) + EngagedCount(s.threads) }

  // If the step is the pass of an idle machine, the count it reads is not below the open positions.
  ghost predicate CountsFully(s: System, step: Step) {
    (step.Pass? && step.thread < |s.threads| && step.action.Evaluate?
     && s.threads[step.thread].osm.state == Idle) ==>
      step.action.inputs.view.openCount >= OpenCount(s.threads)
  }

  // A step adds to the exposed machines only by an engagement from below the limit.
  lemma StepExposes(s: System, step: Step)
    requires AllInv(s) && CountsFully(s, step)
    ensures var t := Apply(s, step);
            Exposed(t) <= Exposed(s)
            || (OpenCount(t.threads) == OpenCount(s.threads) < MAX_OPEN_POSITIONS)
  {
    hide Inv, EngagedCount, OpenCount, PassThread, TakesPass, AllInv, Engaged, HeldCount;
    match step
    case Create(isAbove) =>
      var t := Thread(Fresh(isAbove), [], false, false, []);
      FreshIdle(isAbove);
      EngagedAppend(s.threads, t);
      SumsAppend(s.threads, t);
    case Retire(k) =>
      if k < |s.threads| && s.threads[k].pending == [] {
        var t := s.threads[k].(retired := true);
        RetiredWeight(s.threads[k]);
        EngagedUpdate(s.threads, k, t);
        SumsUpdate(s.threads, k, t);
      }
    case Commit(k) =>
      if k < |s.threads| && s.threads[k].pending != [] {
        SameWeights(s, k, s.threads[k].(pending := s.threads[k].pending[1..]));
      }
    case Pass(k, a) =>
      if k < |s.threads| && TakesPass(s.threads[k], a) {
        PassExposes(s, k, a);
      }
  }

  lemma FreshIdle(isAbove: bool)
    ensures var t := Thread(Fresh(isAbove), [], false, false, []); Engaged(t) == 0 && HeldCount(t) == 0
  {
  }

  lemma RetiredWeight(t: Thread)
    ensures Engaged(t.(retired := true)) <= Engaged(t) && HeldCount(t.(retired := true)) == HeldCount(t)
  {
  }

  lemma SameWeights(s: System, k: nat, t: Thread)
    requires k < |s.threads| && t.osm == s.threads[k].osm && t.retired == s.threads[k].retired
    ensures EngagedCount(s.threads[k := t]) == EngagedCount(s.threads)
    ensures OpenCount(s.threads[k := t]) == OpenCount(s.threads)
  {
    hide EngagedCount, OpenCount;
    EngagedUpdate(s.threads, k, t);
    SumsUpdate(s.threads, k, t);
  }

  lemma PassExposes(s: System, k: nat, a: Action)
    requires AllInv(s) && k < |s.threads| && TakesPass(s.threads[k], a)
    requires a.Evaluate? && s.threads[k].osm.state == Idle ==> a.inputs.view.openCount >= OpenCount(s.threads)
    ensures var t := Apply(s, Pass(k, a));
            Exposed(t) <= Exposed(s)
            || (OpenCount(t.threads) == OpenCount(s.threads) < MAX_OPEN_POSITIONS)
  {
    hide Inv, EngagedCount, OpenCount, PassThread, TakesPass, Engaged, HeldCount;
    var t, u := s.threads[k], PassThread(s.threads[k], a);
    PassWeight(t, a);
    EngagedUpdate(s.threads, k, u);
    SumsUpdate(s.threads, k, u);
  }

  lemma PassWeight(t: Thread, a: Action)
    requires Inv(t.osm) && TakesPass(t, a)
    ensures var u := PassThread(t, a);
            || Engaged(u) + HeldCount(u) <= Engaged(t) + HeldCount(t)
            || (HeldCount(u) == HeldCount(t) && t.osm.state == Idle && a.Evaluate?
                && a.inputs.view.openCount < MAX_OPEN_POSITIONS)
  {
    hide Inv, Act, Engages;
    EngageOrOpen(t.osm, a);
    StepKeeps(t.osm, a);
  }

  ghost predicate AllCountFully(schedule: seq<Step>) {
    forall n :: 0 <= n < |schedule| ==> CountsFully(After(schedule[..n]), schedule[n])
  }

  ghost predicate EngagedAtMost(schedule: seq<Step>, most: nat) {
    forall n :: 0 <= n <= |schedule| ==> EngagedCount(After(schedule[..n]).threads) <= most
  }

  // Over every interleaving in which idle machines never read a count below the open positions and never
  // more than `most` machines are engaged at a time, at most two plus that many positions are open.
  lemma {:induction false} OpenAtMost(schedule: seq<Step>, most: nat)
    requires most >= 1 && AllCountFully(schedule) && EngagedAtMost(schedule, most)
    ensures OpenCount(After(schedule).threads) <= MAX_OPEN_POSITIONS - 1 + most
    ensures SettledCount(After(schedule)) == OpenCount(After(schedule).threads)
  {
    ExposedAtMost(schedule, most);
    EngagedNotNegative(After(schedule).threads);
  }

  lemma EngagedNotNegative(ts: seq<Thread>)
    ensures EngagedCount(ts) >= 0
  {
  }

  lemma {:induction false} ExposedAtMost(schedule: seq<Step>, most: nat)
    requires most >= 1 && AllCountFully(schedule) && EngagedAtMost(schedule, most)
    ensures Exposed(After(schedule)) <= MAX_OPEN_POSITIONS - 1 + most
  {
    if schedule != [] {
      var n := |schedule| - 1;
      PrefixCounts(schedule, most);
      ExposedAtMost(schedule[..n], most);
      LastApplied(schedule);
      hide After, Apply, FromPasses, OpenCount, EngagedCount, AllInv, SysInv;
      StepExposes(After(schedule[..n]), schedule[n]);
    }
  }

  lemma PrefixCounts(schedule: seq<Step>, most: nat)
    requires AllCountFully(schedule) && EngagedAtMost(schedule, most) && schedule != []
    ensures var init := schedule[..|schedule| - 1];
            && AllCountFully(init) && EngagedAtMost(init, most)
            && CountsFully(After(init), schedule[|schedule| - 1])
    ensures EngagedCount(After(schedule).threads) <= most
  {
    hide *;
    CountsPrefix(schedule);
    EngagedPrefix(schedule, most);
  }

  lemma CountsPrefix(schedule: seq<Step>)
    requires AllCountFully(schedule) && schedule != []
    ensures AllCountFully(schedule[..|schedule| - 1])
    ensures CountsFully(After(schedule[..|schedule| - 1]), schedule[|schedule| - 1])
  {
    hide After, CountsFully, AllInv, SysInv;
    var init := schedule[..|schedule| - 1];
    forall n | 0 <= n < |init| ensures CountsFully(After(init[..n]), init[n]) {
      assert init[..n] == schedule[..n];
    }
  }

  lemma EngagedPrefix(schedule: seq<Step>, most: nat)
    requires EngagedAtMost(schedule, most) && schedule != []
    ensures EngagedAtMost(schedule[..|schedule| - 1], most)
    ensures EngagedCount(After(schedule).threads) <= most
  {
    hide After, EngagedCount, AllInv, SysInv;
    var init := schedule[..|schedule| - 1];
    assert schedule[..|schedule|] == schedule;
    forall n | 0 <= n <= |init| ensures EngagedCount(After(init[..n]).threads) <= most {
      assert init[..n] == schedule[..n];
    }
  }

  // ---- Serialised passes ----

  // A serialised pass reads the exact count.
  lemma SerialExposes(s: System, step: Step)
    requires SysInv(s) && AllInv(s) && Committed(s)
    ensures var t := Serial(s, step);
            Exposed(t) <= Exposed(s)
            || (OpenCount(t.threads) == OpenCount(s.threads) < MAX_OPEN_POSITIONS)
  {
    hide Inv, OpenCount, EngagedCount, PassThread, TakesPass, SysInv, AllInv, Reading, Act;
    match step
    case Create(_) => StepExposes(s, step);
    case Retire(_) => StepExposes(s, step);
    case Commit(_) =>
    case Pass(k, a) =>
      var read := Reading(a, s);
      if k < |s.threads| && TakesPass(s.threads[k], read) && s.threads[k].pending == [] {
        ReadsTheCount(s, a);
        EnabledPass(s, k, read);
        PassExposes(s, k, read);
        var mid, u := Apply(s, Pass(k, read)), PassThread(s.threads[k], read);
        SameWeights(mid, k, u.(pending := []));
        assert mid.threads[k := u.(pending := [])] == s.threads[k := u.(pending := [])];
      }
  }

  lemma ReadsTheCount(s: System, a: Action)
    requires SysInv(s) && Committed(s)
    ensures Reading(a, s).Evaluate? ==> Reading(a, s).inputs.view.openCount == OpenCount(s.threads)
  {
    hide SysInv, Committed, OpenCount;
    CommittedTotals(s);
  }

  ghost predicate SerialEngagedAtMost(schedule: seq<Step>, most: nat) {
    forall n :: 0 <= n <= |schedule| ==> EngagedCount(SerialAfter(schedule[..n]).threads) <= most
  }

  lemma {:induction false} SerialOpenAtMost(schedule: seq<Step>, most: nat)
    requires most >= 1 && SerialEngagedAtMost(schedule, most)
    ensures SerialAfter(schedule).count <= MAX_OPEN_POSITIONS - 1 + most
  {
    SerialExposedAtMost(schedule, most);
    CommittedTotals(SerialAfter(schedule));
    EngagedNotNegative(SerialAfter(schedule).threads);
  }

  lemma {:induction false} SerialExposedAtMost(schedule: seq<Step>, most: nat)
    requires most >= 1 && SerialEngagedAtMost(schedule, most)
    ensures Exposed(SerialAfter(schedule)) <= MAX_OPEN_POSITIONS - 1 + most
  {
    if schedule != [] {
      var n := |schedule| - 1;
      SerialPrefix(schedule, most);
      SerialExposedAtMost(schedule[..n], most);
      SerialStep(schedule);
      hide SerialAfter, Serial, OpenCount, EngagedCount, AllInv, SysInv, Committed;
      SerialExposes(SerialAfter(schedule[..n]), schedule[n]);
    }
  }

  lemma SerialPrefix(schedule: seq<Step>, most: nat)
    requires SerialEngagedAtMost(schedule, most) && schedule != []
    ensures SerialEngagedAtMost(schedule[..|schedule| - 1], most)
    ensures EngagedCount(SerialAfter(schedule).threads) <= most
  {
    hide SerialAfter, EngagedCount, AllInv, SysInv, Committed;
    var init := schedule[..|schedule| - 1];
    assert schedule[..|schedule|] == schedule;
    forall n | 0 <= n <= |init| ensures EngagedCount(SerialAfter(init[..n]).threads) <= most {
      assert init[..n] == schedule[..n];
    }
  }

  // ---- The bound is attained ----

  // One calm pass of the k-th machine.
  function CalmStep(k: nat): Step { Pass(k, CalmPass(0.0, 0)) }

  lemma CalmReading(s: System)
    ensures Reading(CalmPass(0.0, 0), s) == CalmPass(s.exposure, s.count)
  {
  }

  // n machines, the first p with an open position and the others quoting.
  ghost predicate Phase(s: System, n: nat, p: nat) {
    && |s.threads| == n && s.count == p <= n
    && (forall k :: 0 <= k < p ==> s.threads[k].osm.state == PositionOpen)
    && (forall k :: p <= k < n ==>
          s.threads[k].osm == QUOTING && s.threads[k].pending == [] && !s.threads[k].retired)
  }

  lemma {:induction false} PhaseEngaged(ts: seq<Thread>, p: nat)
    requires p <= |ts|
    requires forall k :: 0 <= k < p ==> ts[k].osm.state == PositionOpen
    requires forall k :: p <= k < |ts| ==> ts[k].osm == QUOTING && !ts[k].retired
    ensures EngagedCount(ts) == |ts| - p
  {
    if ts != [] {
      PhaseEngaged(ts[1..], if p == 0 then 0 else p - 1);
    }
  }

  lemma CreateOne(s: System, n: nat, p: nat)
    requires AllInv(s) && Phase(s, n, p)
    ensures EngagedCount(Serial(s, Create(true)).threads) == n - p
  {
    hide Inv;
    PhaseEngaged(s.threads, p);
    hide EngagedCount;
    EngagedAppend(s.threads, Thread(Fresh(true), [], false, false, []));
  }

  lemma QuoteOne(s: System, n: nat, p: nat)
    requires AllInv(s) && Phase(s, n, p) && p < MAX_OPEN_POSITIONS && AllInv(Serial(s, Create(true)))
    ensures Phase(Serial(Serial(s, Create(true)), CalmStep(n)), n + 1, p)
  {
    hide Inv, Act, CalmPass, Reading;
    var mid := Serial(s, Create(true));
    CalmReading(mid);
    CalmIsGood(mid.exposure, mid.count);
    QuotesFromIdle(mid.exposure, mid.count);
  }

  lemma FillOne(s: System, n: nat, p: nat)
    requires AllInv(s) && Phase(s, n, p) && p < n
    ensures Phase(Serial(s, CalmStep(p)), n, p + 1)
  {
    hide Inv, Act, CalmPass, Reading;
    CalmReading(s);
    CalmIsGood(s.exposure, s.count);
    FillOpens(s.exposure, s.count);
  }

  // A further j machines quote, and then p of them are filled.
  function Quotes(base: seq<Step>, n: nat, j: nat): seq<Step> {
    if j == 0 then base else Quotes(base, n, j - 1) + [Create(true), CalmStep(n + j - 1)]
  }

  function Fills(base: seq<Step>, n: nat, j: nat, p: nat): seq<Step> {
    if p == 0 then Quotes(base, n, j) else Fills(base, n, j, p - 1) + [CalmStep(n + p - 1)]
  }

  lemma LastStep(schedule: seq<Step>, step: Step)
    ensures SerialAfter(schedule + [step]) == Serial(SerialAfter(schedule), step)
  {
    hide Serial, SysInv, AllInv, Committed;
    SerialStep(schedule + [step]);
    assert (schedule + [step])[..|schedule|] == schedule;
  }

  lemma EngagedExtend(schedule: seq<Step>, step: Step, most: nat)
    requires SerialEngagedAtMost(schedule, most)
    requires EngagedCount(SerialAfter(schedule + [step]).threads) <= most
    ensures SerialEngagedAtMost(schedule + [step], most)
  {
    hide SerialAfter, EngagedCount;
    var all := schedule + [step];
    forall n | 0 <= n <= |all| ensures EngagedCount(SerialAfter(all[..n]).threads) <= most {
      if n <= |schedule| { assert all[..n] == schedule[..n]; } else { assert all[..n] == all; }
    }
  }

  // What a prefix of the construction has reached.
  ghost predicate Reached(schedule: seq<Step>, n: nat, p: nat, most: nat) {
    Phase(SerialAfter(schedule), n, p) && SerialEngagedAtMost(schedule, most)
  }

  lemma QuoteStep(schedule: seq<Step>, n: nat, p: nat, most: nat)
    requires Reached(schedule, n, p, most) && p < MAX_OPEN_POSITIONS && n + 1 <= p + most
    ensures Reached(schedule + [Create(true), CalmStep(n)], n + 1, p, most)
  {
    hide SerialAfter, Serial, SysInv, AllInv, Committed, Phase, CalmStep, EngagedCount, SerialEngagedAtMost;
    var created := schedule + [Create(true)];
    assert schedule + [Create(true), CalmStep(n)] == created + [CalmStep(n)];
    LastStep(schedule, Create(true));
    LastStep(created, CalmStep(n));
    CreateOne(SerialAfter(schedule), n, p);
    EngagedExtend(schedule, Create(true), most);
    QuoteOne(SerialAfter(schedule), n, p);
    PhaseCounts(SerialAfter(created + [CalmStep(n)]), n + 1, p);
    EngagedExtend(created, CalmStep(n), most);
  }

  lemma PhaseCounts(s: System, n: nat, p: nat)
    requires Phase(s, n, p)
    ensures EngagedCount(s.threads) == n - p
  {
    hide EngagedCount;
    PhaseEngaged(s.threads, p);
  }

  lemma FillStep(schedule: seq<Step>, n: nat, p: nat, most: nat)
    requires Reached(schedule, n, p, most) && p < n <= p + 1 + most
    ensures Reached(schedule + [CalmStep(p)], n, p + 1, most)
  {
    hide SerialAfter, Serial, SysInv, AllInv, Committed, Phase, CalmStep, EngagedCount, SerialEngagedAtMost;
    LastStep(schedule, CalmStep(p));
    FillOne(SerialAfter(schedule), n, p);
    PhaseCounts(SerialAfter(schedule + [CalmStep(p)]), n, p + 1);
    EngagedExtend(schedule, CalmStep(p), most);
  }

  lemma {:induction false} AllQuote(base: seq<Step>, n: nat, j: nat, most: nat)
    requires Reached(base, n, n, most) && n < MAX_OPEN_POSITIONS && j <= most
    ensures Reached(Quotes(base, n, j), n + j, n, most)
  {
    hide Reached, CalmStep;
    if j > 0 {
      AllQuote(base, n, j - 1, most);
      QuoteStep(Quotes(base, n, j - 1), n + j - 1, n, most);
    }
  }

  lemma {:induction false} AllFill(base: seq<Step>, n: nat, j: nat, p: nat, most: nat)
    requires Reached(base, n, n, most) && n < MAX_OPEN_POSITIONS && p <= j <= most
    ensures Reached(Fills(base, n, j, p), n + j, n + p, most)
  {
    hide Reached, CalmStep, Quotes;
    if p == 0 {
      AllQuote(base, n, j, most);
    } else {
      AllFill(base, n, j, p - 1, most);
      FillStep(Fills(base, n, j, p - 1), n + j, n + p - 1, most);
    }
  }

  lemma NothingReached(most: nat)
    ensures Reached([], 0, 0, most)
  {
    hide Serial, SysInv, AllInv, Committed;
  }

  // Two machines open one after the other, then `most` machines quote while the count is two, then all of
  // them are filled.
  function TightRun(most: nat): seq<Step> {
    Fills(Fills(Fills([], 0, 1, 1), 1, 1, 1), 2, most, most)
  }

  // The bound is attained: for every `most` there is a serialised run with never more engaged machines
  // that ends with two plus that many open positions.
  lemma BoundAttained(most: nat)
    requires most >= 1
    ensures SerialEngagedAtMost(TightRun(most), most)
    ensures SerialAfter(TightRun(most)).count == MAX_OPEN_POSITIONS - 1 + most
  {
    hide SerialAfter, Fills, SerialEngagedAtMost, SysInv, AllInv, Committed;
    NothingReached(most);
    AllFill([], 0, 1, 1, most);
    var one := Fills([], 0, 1, 1);
    AllFill(one, 1, 1, 1, most);
    AllFill(Fills(one, 1, 1, 1), 2, most, most, most);
  }

  // The limit of three positions, as a property of all serialised runs with so many machines engaged.
  ghost predicate LimitHolds(most: nat) {
    forall schedule :: SerialEngagedAtMost(schedule, most) ==> SerialAfter(schedule).count <= MAX_OPEN_POSITIONS
  }

  // It holds exactly if at most one machine is engaged at a time.
  lemma LimitHoldsIff(most: nat)
    requires most >= 1
    ensures LimitHolds(most) <==> most == 1
  {
    hide SerialAfter, SerialEngagedAtMost, SysInv, AllInv, Committed, TightRun;
    BoundAttained(most);
    forall schedule | SerialEngagedAtMost(schedule, most)
      ensures SerialAfter(schedule).count <= MAX_OPEN_POSITIONS - 1 + most
    {
      SerialOpenAtMost(schedule, most);
    }
  }

  // Any number of positions can be open at once, even with every pass serialised: let all machines quote
  // while none is open, then let the quotes fill.
  lemma LimitNotEnforced(n: nat)
    ensures SerialAfter(Fills([], 0, n, n)).count == n
  {
    hide SerialAfter, Fills, SerialEngagedAtMost, SysInv, AllInv, Committed;
    NothingReached(n);
    AllFill([], 0, n, n, n);
  }
}
