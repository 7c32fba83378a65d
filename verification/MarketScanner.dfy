/**
 Market admission and expiry events (src/data/market_scanner.cpp). Conditions are independent of each
 other, so the run lemmas follow one condition id; the class keeps the whole map and is proved to move
 every id by the one-id step.
 */
module MarketScanner {
  import opened Wrappers

  // One row of a scan, after parsing; endUs is zero when the date did not parse.
  datatype Listing = Listing(cid: string, active: bool, closed: bool, feesEnabled: bool, isBtc5m: bool,
                             hasTokens: bool, endUs: int)

  datatype Market = Market(resolutionUs: int, entriesStopped: bool, quotesCancelled: bool,
                           positionsClosed: bool, forceClosed: bool, redemptionChecked: bool)

  datatype Event = StopEntries | CancelQuotes | ClosePositions | ForceClose | Remove

  // One condition id: the market while it is known, and every event fired for the id so far.
  datatype Track = Track(market: Option<Market>, fired: seq<Event>)

  datatype Step = Scan(row: Listing, nowUs: int) | Check(nowUs: int)

  const FULL := [StopEntries, CancelQuotes, ClosePositions, ForceClose, Remove]

  function Admitted(endUs: int): Market {
    Market(endUs, false, false, false, false, false)
  }

  predicate Admissible(row: Listing, nowUs: int) {
    && row.active && !row.closed && row.feesEnabled && row.isBtc5m && row.cid != ""
    && row.hasTokens && row.endUs != 0 && row.endUs >= nowUs
  }

  function FireIf(due: bool, e: Event): seq<Event> { if due then [e] else [] }

  // The flags raised and the events fired when the time to resolution is checked.
  function Aged(m: Market, nowUs: int): (Market, seq<Event>) {
    var rem := m.resolutionUs - nowUs;
    var stop, cancel := !m.entriesStopped && rem <= 120_000_000, !m.quotesCancelled && rem <= 45_000_000;
    var close, force := !m.positionsClosed && rem <= 30_000_000, !m.forceClosed && rem <= 10_000_000;
    var remove := !m.redemptionChecked && rem <= -60_000_000;
    (Market(m.resolutionUs, m.entriesStopped || stop, m.quotesCancelled || cancel, m.positionsClosed || close,
            m.forceClosed || force, m.redemptionChecked || remove),
     FireIf(stop, StopEntries) + FireIf(cancel, CancelQuotes) + FireIf(close, ClosePositions)
     + FireIf(force, ForceClose) + FireIf(remove, Remove))
  }

  function Moved(t: Track, cid: string, step: Step): Track {
    match step
    case Scan(row, now) =>
      if row.cid == cid && t.market.None? && Admissible(row, now) then t.(market := Some(Admitted(row.endUs))) else t
    case Check(now) =>
      if t.market.None? then t
      else
        var (m, events) := Aged(t.market.value, now);
        Track(if Remove in events then None else Some(m), t.fired + events)
  }

  function Run(cid: string, steps: seq<Step>): Track {
    if steps == [] then Track(None, [])
    else Moved(Run(cid, steps[..|steps| - 1]), cid, steps[|steps| - 1])
  }

  // ---- The event trace of one id ----

  predicate Later(before: Step, after: Step) { before.nowUs <= after.nowUs }

  ghost predicate ClockRuns(steps: seq<Step>) {
    forall k :: 0 < k < |steps| ==> Later(steps[k - 1], steps[k])
  }

  // Every listing of the id carries the same end date.
  ghost predicate FixedEnd(cid: string, steps: seq<Step>, endUs: int) {
    forall k :: 0 <= k < |steps| && steps[k].Scan? && steps[k].row.cid == cid ==> steps[k].row.endUs == endUs
  }

  // How many of the five deadlines have passed with the given time to resolution.
  function Due(remUs: int): (n: nat)
    ensures n <= 5
  {
    if remUs <= -60_000_000 then 5
    else if remUs <= 10_000_000 then 4
    else if remUs <= 30_000_000 then 3
    else if remUs <= 45_000_000 then 2
    else if remUs <= 120_000_000 then 1
    else 0
  }

  // A market whose first n events have fired.
  function After(endUs: int, n: nat): Market {
    Market(endUs, n >= 1, n >= 2, n >= 3, n >= 4, n >= 5)
  }

  // The track after n events: known until the fifth, and gone for good then.
  ghost predicate At(t: Track, endUs: int, n: nat, nowUs: int) {
    && n <= 5 && t.fired == FULL[..n]
    && (n < 5 && t.market.Some? ==> t.market.value == After(endUs, n))
    && (n > 0 ==> n <= Due(endUs - nowUs))
    && (n == 5 ==> t.market.None?)
    && (n > 0 && n < 5 ==> t.market.Some?)
  }

  lemma AgedAdvances(endUs: int, n: nat, nowUs: int)
    requires n < 5
    ensures var (m, events) := Aged(After(endUs, n), nowUs);
            var to := if Due(endUs - nowUs) > n then Due(endUs - nowUs) else n;
            && FULL[..n] + events == FULL[..to]
            && (to < 5 ==> m == After(endUs, to))
            && (Remove in events <==> to == 5)
  {
    var events := Aged(After(endUs, n), nowUs).1;
    var d := Due(endUs - nowUs);
    if n == 0 {
    } else if n == 1 {
    } else if n == 2 {
    } else if n == 3 {
    }
  }

  lemma DueGrows(endUs: int, before: int, after: int)
    requires before <= after
    ensures Due(endUs - before) <= Due(endUs - after)
  {
  }

  // Number of events fired so far; the trace is always that long a prefix of the five.
  function Count(t: Track): nat { |t.fired| }

  lemma MovedKeepsTrace(t: Track, cid: string, endUs: int, nowUs: int, step: Step)
    requires At(t, endUs, Count(t), nowUs) && nowUs <= step.nowUs
    requires step.Scan? && step.row.cid == cid ==> step.row.endUs == endUs
    ensures var u := Moved(t, cid, step);
            At(u, endUs, Count(u), step.nowUs) && t.fired <= u.fired
  {
    DueGrows(endUs, nowUs, step.nowUs);
    var n := Count(t);
    if step.Check? && t.market.Some? {
      AgedAdvances(endUs, n, step.nowUs);
    }
  }

  // Over any run each id's events are a prefix of StopEntries, CancelQuotes, ClosePositions, ForceClose,
  // Remove, in that order and never restarting: a removed market is past its end date and not admitted
  // again. No event fires before its deadline.
  lemma TraceIsPrefix(cid: string, steps: seq<Step>, endUs: int)
    requires ClockRuns(steps) && FixedEnd(cid, steps, endUs)
    ensures var t := Run(cid, steps);
            && t.fired <= FULL
            && (t.fired != [] ==> steps != [] && |t.fired| <= Due(endUs - steps[|steps| - 1].nowUs))
            && (Remove in t.fired ==> t.market.None?)
  {
    if steps != [] {
      TraceAt(cid, steps, endUs);
      hide Run, ClockRuns, FixedEnd, Due;
      var t := Run(cid, steps);
      assert t.fired == FULL[..|t.fired|];
      if Remove in t.fired {
        var k :| 0 <= k < |t.fired| && t.fired[k] == Remove;
        assert FULL[k] == Remove;
      }
    }
  }

  lemma {:induction false} TraceAt(cid: string, steps: seq<Step>, endUs: int)
    requires ClockRuns(steps) && FixedEnd(cid, steps, endUs) && steps != []
    ensures At(Run(cid, steps), endUs, Count(Run(cid, steps)), steps[|steps| - 1].nowUs)
  {
    var init, last := steps[..|steps| - 1], steps[|steps| - 1];
    if init == [] {
      FirstStep(cid, endUs, last);
      assert steps == [last];
    } else {
      PrefixRuns(cid, steps, endUs);
      assert Later(steps[|steps| - 2], steps[|steps| - 1]);
      hide ClockRuns, FixedEnd, At, Moved;
      TraceAt(cid, init, endUs);
      EndOfLast(cid, steps, endUs);
      MovedKeepsTrace(Run(cid, init), cid, endUs, init[|init| - 1].nowUs, last);
    }
  }

  lemma EndOfLast(cid: string, steps: seq<Step>, endUs: int)
    requires FixedEnd(cid, steps, endUs) && steps != []
    ensures var last := steps[|steps| - 1]; last.Scan? && last.row.cid == cid ==> last.row.endUs == endUs
  {
  }

  lemma PrefixRuns(cid: string, steps: seq<Step>, endUs: int)
    requires ClockRuns(steps) && FixedEnd(cid, steps, endUs) && steps != []
    ensures ClockRuns(steps[..|steps| - 1]) && FixedEnd(cid, steps[..|steps| - 1], endUs)
  {
    var init := steps[..|steps| - 1];
    forall k | 0 < k < |init| ensures Later(init[k - 1], init[k]) {
      assert Later(steps[k - 1], steps[k]);
    }
  }

  lemma FirstStep(cid: string, endUs: int, step: Step)
    requires step.Scan? && step.row.cid == cid ==> step.row.endUs == endUs
    ensures At(Moved(Track(None, []), cid, step), endUs, 0, step.nowUs)
    ensures Run(cid, [step]) == Moved(Track(None, []), cid, step) && Count(Run(cid, [step])) == 0
  {
    assert [step][..0] == [];
    assert FULL[..0] == [];
  }

  // A check is prompt: right after it a known market has fired exactly the events whose deadline passed.
  lemma CheckFiresDue(cid: string, steps: seq<Step>, endUs: int, nowUs: int)
    requires ClockRuns(steps + [Check(nowUs)]) && FixedEnd(cid, steps + [Check(nowUs)], endUs)
    requires Run(cid, steps).market.Some?
    ensures Run(cid, steps + [Check(nowUs)]).fired == FULL[..Due(endUs - nowUs)]
  {
    var all := steps + [Check(nowUs)];
    assert all[..|steps|] == steps;
    PrefixRuns(cid, all, endUs);
    assert steps != [];
    assert Later(all[|steps| - 1], all[|steps|]);
    TraceAt(cid, steps, endUs);
    var t := Run(cid, steps);
    AgedAdvances(endUs, Count(t), nowUs);
    DueGrows(endUs, steps[|steps| - 1].nowUs, nowUs);
  }

  // ---- Which ids are known ----

  // The step lists the id as an active and open, fee-bearing five-minute Bitcoin market with both tokens and
  // an end date that parsed and has not passed.
  predicate Admits(cid: string, step: Step) {
    step.Scan? && step.row.cid == cid && cid != "" &&
    var row := step.row;
    && row.active && !row.closed && row.feesEnabled && row.isBtc5m && row.hasTokens
    && row.endUs != 0 && step.nowUs <= row.endUs
  }

  // The step finds the end date more than a minute past.
  predicate Expires(endUs: int, step: Step) { step.Check? && step.nowUs >= endUs + 60_000_000 }

  ghost predicate Known(t: Track, endUs: int) {
    t.market.Some? ==> t.market.value.resolutionUs == endUs && !t.market.value.redemptionChecked
  }

  lemma KnownStep(t: Track, cid: string, endUs: int, step: Step)
    requires Known(t, endUs) && (step.Scan? && step.row.cid == cid ==> step.row.endUs == endUs)
    ensures var u := Moved(t, cid, step);
            && Known(u, endUs)
            && (u.market.Some? <==> Admits(cid, step) || (t.market.Some? && !Expires(endUs, step)))
  {
    if step.Check? && t.market.Some? { RemovesIff(t.market.value, step.nowUs); }
  }

  lemma RemovesIff(m: Market, nowUs: int)
    requires !m.redemptionChecked
    ensures Remove in Aged(m, nowUs).1 <==> nowUs >= m.resolutionUs + 60_000_000
    ensures Aged(m, nowUs).0.resolutionUs == m.resolutionUs
    ensures Remove !in Aged(m, nowUs).1 ==> !Aged(m, nowUs).0.redemptionChecked
  {
    var events := Aged(m, nowUs).1;
    if nowUs >= m.resolutionUs + 60_000_000 {
      assert events[|events| - 1] == Remove;
    }
  }

  // Some step admits the id, and no later one finds it expired.
  ghost predicate AdmittedSince(cid: string, steps: seq<Step>, endUs: int, k: nat)
    requires k < |steps|
  {
    Admits(cid, steps[k]) && forall j :: k < j < |steps| ==> !Expires(endUs, steps[j])
  }

  lemma AdmittedSinceStep(cid: string, steps: seq<Step>, endUs: int)
    requires steps != []
    ensures var n := |steps| - 1;
            (exists k :: 0 <= k < |steps| && AdmittedSince(cid, steps, endUs, k)) <==>
              || Admits(cid, steps[n])
              || ((exists k :: 0 <= k < n && AdmittedSince(cid, steps[..n], endUs, k)) && !Expires(endUs, steps[n]))
  {
    hide Admits, Expires;
    var n := |steps| - 1;
    forall k | 0 <= k < n
      ensures AdmittedSince(cid, steps, endUs, k)
         <==> AdmittedSince(cid, steps[..n], endUs, k) && !Expires(endUs, steps[n])
    {
    }
    assert AdmittedSince(cid, steps, endUs, n) <==> Admits(cid, steps[n]);
  }

  // Over every run an id is known exactly if some scan admitted it and no check since then found it more
  // than a minute past its end date.
  lemma {:induction false} KnownIff(cid: string, steps: seq<Step>, endUs: int)
    requires FixedEnd(cid, steps, endUs)
    ensures Known(Run(cid, steps), endUs)
    ensures Run(cid, steps).market.Some?
       <==> exists k :: 0 <= k < |steps| && AdmittedSince(cid, steps, endUs, k)
  {
    if steps != [] {
      hide Moved, Known, AdmittedSince, Admits, Expires;
      var n := |steps| - 1;
      KnownIff(cid, steps[..n], endUs);
      EndOfLast(cid, steps, endUs);
      KnownStep(Run(cid, steps[..n]), cid, endUs, steps[n]);
      AdmittedSinceStep(cid, steps, endUs);
    }
  }

  // ---- The scanner ----

  datatype Fired = Fired(cid: string, event: Event)

  function FiredFor(log: seq<Fired>, cid: string): seq<Event> {
    if log == [] then []
    else FiredFor(log[..|log| - 1], cid) + if log[|log| - 1].cid == cid then [log[|log| - 1].event] else []
  }

  lemma FiredForLast(log: seq<Fired>, f: Fired, cid: string)
    ensures FiredFor(log + [f], cid) == FiredFor(log, cid) + if f.cid == cid then [f.event] else []
  {
    assert (log + [f])[..|log|] == log;
  }

  lemma {:induction false} FiredForAppend(a: seq<Fired>, b: seq<Fired>, cid: string)
    ensures FiredFor(a + b, cid) == FiredFor(a, cid) + FiredFor(b, cid)
  {
    if b == [] {
      assert a + b == a;
      assert FiredFor([], cid) == [];
    } else {
      hide FiredFor;
      var front, last := b[..|b| - 1], b[|b| - 1];
      FiredForAppend(a, front, cid);
      FiredForLast(a + front, last, cid);
      FiredForLast(front, last, cid);
      AppendLast(a, front, last);
      assert b == front + [last];
    }
  }

  lemma AppendLast(a: seq<Fired>, front: seq<Fired>, last: Fired)
    ensures a + (front + [last]) == a + front + [last]
  {
  }

  function Tagged(cid: string, events: seq<Event>): (r: seq<Fired>)
    ensures |r| == |events|
  {
    seq(|events|, i requires 0 <= i < |events| => Fired(cid, events[i]))
  }

  lemma {:induction false} FiredForTagged(cid: string, events: seq<Event>, other: string)
    ensures FiredFor(Tagged(cid, events), other) == if other == cid then events else []
  {
    if events != [] {
      var init := events[..|events| - 1];
      FiredForTagged(cid, init, other);
      assert Tagged(cid, events)[..|events| - 1] == Tagged(cid, init);
      assert events == init + [events[|events| - 1]];
    }
  }

  // A check part way through: all markets but those still to do have been aged.
  ghost predicate Partly(was: map<string, Market>, nowUs: int, todo: set<string>, markets: map<string, Market>,
                         pending: seq<Fired>, removed: set<string>)
  {
    && todo <= was.Keys && markets.Keys == was.Keys
    && (forall cid :: cid in was ==> markets[cid] == if cid in todo then was[cid] else Aged(was[cid], nowUs).0)
    && (forall cid :: FiredFor(pending, cid) == if cid in was && cid !in todo then Aged(was[cid], nowUs).1 else [])
    && (forall cid :: cid in removed <==> cid in was && cid !in todo && Remove in Aged(was[cid], nowUs).1)
  }

  lemma AgeOne(was: map<string, Market>, nowUs: int, todo: set<string>, markets: map<string, Market>,
               pending: seq<Fired>, removed: set<string>, cid: string)
    requires Partly(was, nowUs, todo, markets, pending, removed) && cid in todo
    ensures var (m, events) := Aged(was[cid], nowUs);
            Partly(was, nowUs, todo - {cid}, markets[cid := m], pending + Tagged(cid, events),
                   if Remove in events then removed + {cid} else removed)
    ensures cid in markets && markets[cid] == was[cid]
  {
    hide Aged, FiredFor;
    var events := Aged(was[cid], nowUs).1;
    forall other
      ensures FiredFor(pending + Tagged(cid, events), other)
           == FiredFor(pending, other) + if other == cid then events else []
    {
      FiredForAppend(pending, Tagged(cid, events), other);
      FiredForTagged(cid, events, other);
    }
  }

  lemma AllAged(was: map<string, Market>, nowUs: int, markets: map<string, Market>, log: seq<Fired>,
                pending: seq<Fired>, removed: set<string>, cid: string)
    requires Partly(was, nowUs, {}, markets, pending, removed)
    ensures Track(if cid in markets - removed then Some((markets - removed)[cid]) else None,
                  FiredFor(log + pending, cid))
         == Moved(Track(if cid in was then Some(was[cid]) else None, FiredFor(log, cid)), cid, Check(nowUs))
  {
    hide Aged, FiredFor;
    FiredForAppend(log, pending, cid);
  }

  class Scanner {
    var markets: map<string, Market>
    var log: seq<Fired>

    // What has become of one condition id.
    ghost function Of(cid: string): Track
      reads this
    {
      Track(if cid in markets then Some(markets[cid]) else None, FiredFor(log, cid))
    }

    constructor ()
      ensures forall cid :: Of(cid) == Run(cid, [])
    {
      markets, log := map[], [];
    }

    // One row of a scan.
    method Consider(row: Listing, nowUs: int)
      modifies this
      ensures forall cid :: Of(cid) == Moved(old(Of(cid)), cid, Scan(row, nowUs))
    {
      if !row.active { return; }
      if row.closed { return; }
      if !row.feesEnabled { return; }
      if !row.isBtc5m { return; }
      if row.cid == "" { return; }
      if row.cid in markets { return; }
      if !row.hasTokens { return; }
      if row.endUs == 0 { return; }
      if row.endUs < nowUs { return; }
      markets := markets[row.cid := Admitted(row.endUs)];
    }

    // The expiry check: ages every market in whatever order the map yields, then erases the removed ones.
    method CheckLifecycle(nowUs: int)
      modifies this
      ensures forall cid :: Of(cid) == Moved(old(Of(cid)), cid, Check(nowUs))
    {
      hide Aged, FiredFor, Partly, Moved;
      ghost var was, log0 := markets, log;
      var todo, pending, removed := markets.Keys, [], {};
      NothingAged(was, nowUs);
      while todo != {}
        invariant Partly(was, nowUs, todo, markets, pending, removed) && log == log0
        decreases |todo|
      {
        var cid :| cid in todo;
        AgeOne(was, nowUs, todo, markets, pending, removed, cid);
        var (m, events) := Aged(markets[cid], nowUs);
        markets := markets[cid := m];
        pending := pending + Tagged(cid, events);
        if Remove in events { removed := removed + {cid}; }
        todo := todo - {cid};
      }
      forall cid { AllAged(was, nowUs, markets, log, pending, removed, cid); }
      markets := markets - removed;
      log := log + pending;
    }
  }

  lemma NothingAged(was: map<string, Market>, nowUs: int)
    ensures Partly(was, nowUs, was.Keys, was, [], {})
  {
  }
}
