/**
 The risk watchdog (src/risk/watchdog.cpp). The class follows the source over its 256-slot circular
 buffer; Evaluated is the same evaluation on values, and the lemmas are about whole runs of it.
 */
module Watchdog {
  import opened CircularBuffer
  import opened TimeWindow
  import BitMask
  import RealMath

  const SLOTS := 256
  const SPIKE_WINDOW_US := 60_000_000
  const PERIOD_US := 500_000

  // What one evaluation reads: the shared values, and the clock each time a check reads it.
  datatype Reading = Reading(btc: real, recordUs: int, lossUs: int, spikeUs: int, navUs: int, bankroll: real,
                             losses: int, streakStartUs: int)

  // flattens counts how often the flatten callbacks were run, all of them each time.
  datatype Dog = Dog(buffer: seq<Stamped>, tripped: bool, killSwitch: bool, flattens: nat,
                     navStartUs: int, navStartUsdc: real)

  function Started(navUs: int, bankroll: real): Dog { Dog([], false, false, 0, navUs, bankroll) }

  function Push(b: seq<Stamped>, x: Stamped): seq<Stamped> {
    if |b| < SLOTS then b + [x] else b[1..] + [x]
  }

  function Recorded(b: seq<Stamped>, r: Reading): seq<Stamped> {
    if r.btc > 0.0 then Push(b, Stamped(r.recordUs, r.btc)) else b
  }

  // The buffer after the spike check's eviction, which is skipped for fewer than two samples.
  function Swept(b: seq<Stamped>, spikeUs: int): seq<Stamped> {
    if |b| < 2 then b else DropExpired(b, spikeUs - SPIKE_WINDOW_US)
  }

  function Lowest(w: seq<Stamped>): real
    requires w != []
  {
    if |w| == 1 || w[|w| - 1].value < Lowest(w[..|w| - 1]) then w[|w| - 1].value else Lowest(w[..|w| - 1])
  }

  function Highest(w: seq<Stamped>): real
    requires w != []
  {
    if |w| == 1 || w[|w| - 1].value > Highest(w[..|w| - 1]) then w[|w| - 1].value else Highest(w[..|w| - 1])
  }

  predicate SpikeTrips(w: seq<Stamped>) {
    |w| >= 2 && Lowest(w) > 0.0 && (Highest(w) - Lowest(w)) / Lowest(w) > 0.015
  }

  predicate LossTrips(r: Reading) {
    r.losses >= 4 && r.streakStartUs != 0 && (r.lossUs - r.streakStartUs) as real / 1000000.0 <= 900.0
  }

  predicate NavRolls(d: Dog, r: Reading) { (r.navUs - d.navStartUs) as real / 1000000.0 >= 3600.0 }

  predicate NavTrips(d: Dog, r: Reading) {
    !NavRolls(d, r) && d.navStartUsdc > 0.0 && (d.navStartUsdc - r.bankroll) / d.navStartUsdc > 0.08
  }

  predicate FloorTrips(r: Reading, initial: real) { r.bankroll > 0.0 && r.bankroll < initial * 0.5 }

  function Trip(d: Dog, condition: bool): Dog {
    if !condition || d.tripped then d else d.(tripped := true, killSwitch := true, flattens := d.flattens + 1)
  }

  function NavChecked(d: Dog, r: Reading): Dog {
    if NavRolls(d, r) then d.(navStartUs := r.navUs, navStartUsdc := r.bankroll) else Trip(d, NavTrips(d, r))
  }

  function Evaluated(d: Dog, r: Reading, initial: real): Dog {
    var losses := Trip(d.(buffer := Recorded(d.buffer, r)), LossTrips(r));
    var swept := losses.(buffer := Swept(losses.buffer, r.spikeUs));
    var spike := Trip(swept, SpikeTrips(swept.buffer));
    Trip(NavChecked(spike, r), FloorTrips(r, initial))
  }

  // The loop stops evaluating once tripped.
  function Pass(d: Dog, r: Reading, initial: real): Dog {
    if d.tripped then d else Evaluated(d, r, initial)
  }

  function Run(start: Dog, rs: seq<Reading>, initial: real): Dog {
    if rs == [] then start else Pass(Run(start, rs[..|rs| - 1], initial), rs[|rs| - 1], initial)
  }

  // ---- One trip ----

  ghost predicate Consistent(d: Dog) {
    d.killSwitch == d.tripped && d.flattens == if d.tripped then 1 else 0
  }

  lemma PassKeeps(d: Dog, r: Reading, initial: real)
    requires Consistent(d)
    ensures Consistent(Pass(d, r, initial)) && (d.tripped ==> Pass(d, r, initial) == d)
  {
    hide Recorded, Swept, SpikeTrips, LossTrips, NavRolls, NavTrips, FloorTrips;
  }

  // Over every run the kill switch is set exactly by a trip, each flatten callback runs at most once, and
  // nothing is ever cleared: once tripped the watchdog does not change again.
  lemma {:induction false} TripsOnceForGood(navUs: int, bankroll: real, rs: seq<Reading>, n: nat, initial: real)
    requires n <= |rs|
    ensures Consistent(Run(Started(navUs, bankroll), rs, initial))
    ensures var end := Run(Started(navUs, bankroll), rs[..n], initial);
            end.tripped ==> Run(Started(navUs, bankroll), rs, initial) == end
    decreases |rs|
  {
    hide Pass, Consistent;
    var start := Started(navUs, bankroll);
    if rs == [] {
      StartConsistent(navUs, bankroll);
    } else {
      var init := rs[..|rs| - 1];
      TripsOnceForGood(navUs, bankroll, init, if n < |rs| then n else |init|, initial);
      PassKeeps(Run(start, init, initial), rs[|rs| - 1], initial);
      if n < |rs| {
        assert init[..n] == rs[..n];
      } else {
        assert rs[..n] == rs;
      }
    }
  }

  lemma StartConsistent(navUs: int, bankroll: real)
    ensures Consistent(Started(navUs, bankroll))
  {
  }

  // ---- The spike window ----

  lemma {:induction false} LowestIsLeast(w: seq<Stamped>)
    requires w != []
    ensures exists i :: 0 <= i < |w| && w[i].value == Lowest(w)
    ensures forall i :: 0 <= i < |w| ==> Lowest(w) <= w[i].value
  {
    if |w| > 1 {
      var init := w[..|w| - 1];
      LowestIsLeast(init);
      var k :| 0 <= k < |init| && init[k].value == Lowest(init);
      assert w[k] == init[k];
      assert w[k].value == Lowest(w) || w[|w| - 1].value == Lowest(w);
      forall i | 0 <= i < |w| ensures Lowest(w) <= w[i].value {
        if i < |init| { assert w[i] == init[i]; }
      }
    } else {
      assert w[0].value == Lowest(w);
    }
  }

  lemma {:induction false} HighestIsGreatest(w: seq<Stamped>)
    requires w != []
    ensures exists i :: 0 <= i < |w| && w[i].value == Highest(w)
    ensures forall i :: 0 <= i < |w| ==> w[i].value <= Highest(w)
  {
    if |w| > 1 {
      var init := w[..|w| - 1];
      HighestIsGreatest(init);
      var k :| 0 <= k < |init| && init[k].value == Highest(init);
      assert w[k] == init[k];
      assert w[k].value == Highest(w) || w[|w| - 1].value == Highest(w);
      forall i | 0 <= i < |w| ensures w[i].value <= Highest(w) {
        if i < |init| { assert w[i] == init[i]; }
      }
    } else {
      assert w[0].value == Highest(w);
    }
  }

  ghost predicate Positive(w: seq<Stamped>) { forall i :: 0 <= i < |w| ==> w[i].value > 0.0 }

  // Two samples in the window are more than one and a half per cent apart.
  ghost predicate Moved(h: seq<Stamped>, sinceUs: int) {
    exists i, j :: 0 <= i < |h| && 0 <= j < |h| && Spread(h, i, j, sinceUs)
  }

  predicate Spread(h: seq<Stamped>, i: nat, j: nat, sinceUs: int)
    requires i < |h| && j < |h|
  {
    h[i].tsUs >= sinceUs && h[j].tsUs >= sinceUs && h[j].value > 1.015 * h[i].value
  }

  lemma RatioIff(lo: real, hi: real)
    requires lo > 0.0
    ensures (hi - lo) / lo > 0.015 <==> hi > 1.015 * lo
  {
    var q := (hi - lo) / lo;
    assert q * lo == hi - lo;
    if q > 0.015 {
      assert (q - 0.015) * lo == hi - 1.015 * lo;
      RealMath.PositiveProduct(q - 0.015, lo, hi - 1.015 * lo);
    } else {
      assert (0.015 - q) * lo == 1.015 * lo - hi;
      ProductNotNegative(0.015 - q, lo, 1.015 * lo - hi);
    }
  }

  lemma ProductNotNegative(a: real, b: real, p: real)
    requires a >= 0.0 && b > 0.0 && p == a * b
    ensures p >= 0.0
  {
    if a > 0.0 { RealMath.PositiveProduct(a, b, p); } else { assert p == 0.0 * b; }
  }

  // What the loop over the buffer decides.
  lemma SpikeTripsIff(w: seq<Stamped>, sinceUs: int)
    requires Positive(w) && forall i :: 0 <= i < |w| ==> w[i].tsUs >= sinceUs
    ensures SpikeTrips(w) <==> Moved(w, sinceUs)
  {
    hide Lowest, Highest;
    if |w| >= 2 {
      LowestIsLeast(w);
      HighestIsGreatest(w);
      var i :| 0 <= i < |w| && w[i].value == Lowest(w);
      var j :| 0 <= j < |w| && w[j].value == Highest(w);
      RatioIff(Lowest(w), Highest(w));
      if SpikeTrips(w) { assert Spread(w, i, j, sinceUs); }
    }
  }

  // Evaluations are at least half a second apart, on a clock that does not go back.
  ghost predicate Clocked(rs: seq<Reading>) {
    && (forall k :: 0 <= k < |rs| ==> rs[k].recordUs <= rs[k].spikeUs)
    && (forall k :: 0 < k < |rs| ==>
          rs[k - 1].spikeUs <= rs[k].recordUs && rs[k - 1].recordUs + PERIOD_US <= rs[k].recordUs)
  }

  // Every sample recorded so far.
  function History(rs: seq<Reading>): seq<Stamped> {
    if rs == [] then []
    else
      History(rs[..|rs| - 1])
      + if rs[|rs| - 1].btc > 0.0 then [Stamped(rs[|rs| - 1].recordUs, rs[|rs| - 1].btc)] else []
  }

  ghost predicate Paced(h: seq<Stamped>) { forall i :: 0 < i < |h| ==> h[i - 1].tsUs + PERIOD_US <= h[i].tsUs }

  // The buffer is the newest part of the history: nothing dropped is still in the window, and everything
  // kept is, unless fewer than two samples are left.
  ghost predicate Window(h: seq<Stamped>, b: seq<Stamped>, sinceUs: int) {
    && |b| <= |h|
    && b == h[|h| - |b|..]
    && (forall i :: 0 <= i < |h| - |b| ==> h[i].tsUs < sinceUs)
    && (|b| >= 2 ==> b[0].tsUs >= sinceUs)
  }

  lemma {:induction false} PacedSpan(h: seq<Stamped>, i: nat, j: nat)
    requires Paced(h) && i <= j < |h|
    ensures h[i].tsUs + (j - i) * PERIOD_US <= h[j].tsUs
    decreases j
  {
    if i < j {
      PacedSpan(h, i, j - 1);
      assert h[j - 1].tsUs + PERIOD_US <= h[j].tsUs;
    }
  }

  lemma PacedIsSorted(h: seq<Stamped>)
    requires Paced(h)
    ensures Sorted(h)
  {
    forall i, j | 0 <= i < j < |h| ensures h[i].tsUs <= h[j].tsUs { PacedSpan(h, i, j); }
  }

  // At two samples a second a minute holds at most 121, so a recorded sample never overwrites another.
  lemma WindowFits(h: seq<Stamped>, b: seq<Stamped>, checkUs: int)
    requires Paced(h) && Window(h, b, checkUs - SPIKE_WINDOW_US)
    requires h != [] ==> h[|h| - 1].tsUs <= checkUs
    ensures |b| <= 121
  {
    if |b| >= 2 {
      PacedSpan(h, |h| - |b|, |h| - 1);
    }
  }

  // One evaluation: the sample is appended and the buffer becomes the window at the check.
  lemma SweepIsWindow(h: seq<Stamped>, b: seq<Stamped>, sinceUs: int, spikeUs: int)
    requires Paced(h) && Covers(h, b, sinceUs)
    requires sinceUs <= spikeUs - SPIKE_WINDOW_US
    ensures Window(h, Swept(b, spikeUs), spikeUs - SPIKE_WINDOW_US)
  {
    var cutoff := spikeUs - SPIKE_WINDOW_US;
    PacedIsSorted(h);
    if |b| >= 2 {
      DropExpiredIsSuffix(b, cutoff);
      var d := DropExpired(b, cutoff);
      forall i | 0 <= i < |h| - |d| ensures h[i].tsUs < cutoff {
        if i >= |h| - |b| { assert h[i] == b[i - (|h| - |b|)]; }
      }
    }
  }

  // Everything recorded up to the given time: paced, positive, none later.
  ghost predicate RecordedBy(h: seq<Stamped>, recordUs: int) {
    Paced(h) && Positive(h) && (h != [] ==> h[|h| - 1].tsUs <= recordUs)
  }

  lemma RecordedNext(h: seq<Stamped>, recordUs: int, r: Reading)
    requires RecordedBy(h, recordUs) && recordUs + PERIOD_US <= r.recordUs
    ensures RecordedBy(h + Taken(r), r.recordUs)
  {
  }

  lemma {:induction false} HistoryFacts(rs: seq<Reading>)
    requires Clocked(rs)
    ensures Paced(History(rs)) && Positive(History(rs))
    ensures rs != [] ==> RecordedBy(History(rs), rs[|rs| - 1].recordUs)
  {
    if rs != [] {
      var init, r := rs[..|rs| - 1], rs[|rs| - 1];
      ClockedPrefix(rs);
      HistoryFacts(init);
      assert init + [r] == rs;
      if init == [] {
        HistoryStep(init, r);
        RecordedNext([], r.recordUs - PERIOD_US, r);
      } else {
        assert init[|init| - 1] == rs[|rs| - 2];
        assert init[|init| - 1].recordUs + PERIOD_US <= r.recordUs;
        hide Clocked, RecordedBy, History;
        HistoryStep(init, r);
        RecordedNext(History(init), init[|init| - 1].recordUs, r);
        RecordedMeans(History(rs), r.recordUs);
      }
    }
  }

  lemma RecordedMeans(h: seq<Stamped>, recordUs: int)
    requires RecordedBy(h, recordUs)
    ensures Paced(h) && Positive(h)
  {
  }

  ghost predicate Tracks(rs: seq<Reading>, d: Dog) {
    if rs == [] then d.buffer == []
    else Window(History(rs), d.buffer, rs[|rs| - 1].spikeUs - SPIKE_WINDOW_US)
  }

  function Taken(r: Reading): seq<Stamped> { if r.btc > 0.0 then [Stamped(r.recordUs, r.btc)] else [] }

  // The window the buffer was last swept to.
  function Since(rs: seq<Reading>, r: Reading): int {
    (if rs == [] then r.spikeUs else rs[|rs| - 1].spikeUs) - SPIKE_WINDOW_US
  }

  // What the buffer holds is the newest part of the history, and nothing before it is in the window.
  ghost predicate Covers(h: seq<Stamped>, b: seq<Stamped>, sinceUs: int) {
    && |b| <= |h|
    && b == h[|h| - |b|..]
    && (forall i :: 0 <= i < |h| - |b| ==> h[i].tsUs < sinceUs)
  }

  lemma CoversAppend(h: seq<Stamped>, b: seq<Stamped>, sinceUs: int, more: seq<Stamped>)
    requires Covers(h, b, sinceUs)
    ensures Covers(h + more, b + more, sinceUs)
  {
  }

  lemma HistoryStep(rs: seq<Reading>, r: Reading)
    ensures History(rs + [r]) == History(rs) + Taken(r)
  {
    assert (rs + [r])[..|rs|] == rs;
  }

  lemma TracksFits(rs: seq<Reading>, d: Dog, r: Reading)
    requires Clocked(rs) && Tracks(rs, d)
    ensures Covers(History(rs), d.buffer, Since(rs, r)) && |d.buffer| <= 121
  {
    hide Paced, Clocked;
    HistoryFacts(rs);
    if rs != [] {
      LastRecorded(rs);
      WindowFits(History(rs), d.buffer, rs[|rs| - 1].spikeUs);
    }
  }

  lemma LastRecorded(rs: seq<Reading>)
    requires Clocked(rs) && rs != []
    ensures rs[|rs| - 1].recordUs <= rs[|rs| - 1].spikeUs
  {
  }

  // The buffer the spike check is about to sweep: the new sample overwrote nothing.
  lemma RecordAppends(rs: seq<Reading>, d: Dog, r: Reading)
    requires Clocked(rs + [r]) && Tracks(rs, d)
    ensures var h, b := History(rs + [r]), Recorded(d.buffer, r);
            Covers(h, b, Since(rs, r)) && Paced(h) && Positive(h)
  {
    hide Clocked, Tracks, History, Covers, Paced, Positive;
    assert (rs + [r])[..|rs + [r]| - 1] == rs;
    ClockedPrefix(rs + [r]);
    HistoryFacts(rs + [r]);
    TracksFits(rs, d, r);
    HistoryStep(rs, r);
    CoversAppend(History(rs), d.buffer, Since(rs, r), Taken(r));
    assert Recorded(d.buffer, r) == d.buffer + Taken(r);
  }

  lemma EvaluationTracks(rs: seq<Reading>, d: Dog, r: Reading, initial: real)
    requires Clocked(rs + [r]) && Tracks(rs, d)
    ensures Tracks(rs + [r], Evaluated(d, r, initial))
  {
    hide Swept, SpikeTrips, LossTrips, NavTrips, NavRolls, FloorTrips;
    hide History, Recorded, Paced, Covers, Clocked, Window;
    RecordAppends(rs, d, r);
    ClockedSince(rs, r);
    var b := Recorded(d.buffer, r);
    SweepIsWindow(History(rs + [r]), b, Since(rs, r), r.spikeUs);
    assert Evaluated(d, r, initial).buffer == Swept(b, r.spikeUs);
  }

  lemma ClockedSince(rs: seq<Reading>, r: Reading)
    requires Clocked(rs + [r])
    ensures Since(rs, r) <= r.spikeUs - SPIKE_WINDOW_US
  {
    var all := rs + [r];
    if rs != [] { assert all[|rs| - 1] == rs[|rs| - 1] && all[|rs|] == r; }
  }

  lemma {:induction false} UntrippedTracks(start: Dog, rs: seq<Reading>, initial: real)
    requires start.buffer == [] && Clocked(rs) && !Run(start, rs, initial).tripped
    ensures Tracks(rs, Run(start, rs, initial))
  {
    if rs != [] {
      hide Evaluated, Tracks;
      var init, r := rs[..|rs| - 1], rs[|rs| - 1];
      assert init + [r] == rs;
      ClockedPrefix(rs);
      UntrippedTracks(start, init, initial);
      EvaluationTracks(init, Run(start, init, initial), r, initial);
    }
  }

  lemma ClockedPrefix(rs: seq<Reading>)
    requires Clocked(rs) && rs != []
    ensures Clocked(rs[..|rs| - 1])
  {
    var init := rs[..|rs| - 1];
    forall k | 0 < k < |init|
      ensures init[k - 1].spikeUs <= init[k].recordUs && init[k - 1].recordUs + PERIOD_US <= init[k].recordUs
    {
      assert init[k - 1] == rs[k - 1] && init[k] == rs[k];
    }
  }

  // For every run the watchdog has not yet tripped in, the next spike check fires exactly when two of all
  // the prices ever recorded that are at most sixty seconds old differ by more than one and a half per
  // cent: no sample of the window was overwritten, and no older one is scanned.
  lemma SpikeCheckExact(start: Dog, rs: seq<Reading>, r: Reading, initial: real)
    requires start.buffer == [] && Clocked(rs + [r]) && !Run(start, rs, initial).tripped
    ensures SpikeTrips(Swept(Recorded(Run(start, rs, initial).buffer, r), r.spikeUs))
       <==> Moved(History(rs + [r]), r.spikeUs - SPIKE_WINDOW_US)
  {
    hide SpikeTrips, History, Run, Recorded, Paced, Swept, Covers, Positive, Moved, Window, Clocked;
    var d, h, since := Run(start, rs, initial), History(rs + [r]), r.spikeUs - SPIKE_WINDOW_US;
    assert (rs + [r])[..|rs + [r]| - 1] == rs;
    ClockedPrefix(rs + [r]);
    UntrippedTracks(start, rs, initial);
    RecordAppends(rs, d, r);
    ClockedSince(rs, r);
    var b := Recorded(d.buffer, r);
    SweepIsWindow(h, b, Since(rs, r), r.spikeUs);
    WindowDecides(h, Swept(b, r.spikeUs), since);
  }

  lemma WindowInside(h: seq<Stamped>, w: seq<Stamped>, sinceUs: int)
    requires Window(h, w, sinceUs) && Positive(h) && Paced(h)
    ensures Positive(w)
    ensures |w| >= 2 ==> forall i :: 0 <= i < |w| ==> w[i].tsUs >= sinceUs
  {
    hide Paced;
    var k := |h| - |w|;
    PacedIsSorted(h);
    forall i | 0 <= i < |w| ensures w[i].value > 0.0 { assert w[i] == h[k + i]; }
    if |w| >= 2 {
      forall i | 0 <= i < |w| ensures w[i].tsUs >= sinceUs { assert w[i] == h[k + i] && w[0] == h[k]; }
    }
  }

  lemma MovedInWindow(h: seq<Stamped>, w: seq<Stamped>, sinceUs: int)
    requires Window(h, w, sinceUs)
    ensures Moved(h, sinceUs) <==> Moved(w, sinceUs)
  {
    var k := |h| - |w|;
    if Moved(w, sinceUs) {
      var i, j :| 0 <= i < |w| && 0 <= j < |w| && Spread(w, i, j, sinceUs);
      assert Spread(h, k + i, k + j, sinceUs);
    }
    if Moved(h, sinceUs) {
      var i, j :| 0 <= i < |h| && 0 <= j < |h| && Spread(h, i, j, sinceUs);
      assert i >= k && j >= k;
      assert Spread(w, i - k, j - k, sinceUs);
    }
  }

  lemma WindowDecides(h: seq<Stamped>, w: seq<Stamped>, sinceUs: int)
    requires Window(h, w, sinceUs) && Positive(h) && Paced(h)
    ensures SpikeTrips(w) <==> Moved(h, sinceUs)
  {
    WindowInside(h, w, sinceUs);
    MovedInWindow(h, w, sinceUs);
    if |w| >= 2 {
      hide SpikeTrips, Window, Paced, Moved;
      SpikeTripsIff(w, sinceUs);
    }
  }

  // ---- The drawdown window ----

  // The window's start is a moment at which the bankroll was what is compared against, and it is less
  // than an hour old whenever the drawdown is judged.
  ghost predicate NavAnchored(navUs: int, bankroll: real, rs: seq<Reading>, d: Dog) {
    || (d.navStartUs == navUs && d.navStartUsdc == bankroll)
    || exists k :: 0 <= k < |rs| && rs[k].navUs == d.navStartUs && rs[k].bankroll == d.navStartUsdc
  }

  lemma {:induction false} DrawdownWindow(navUs: int, bankroll: real, rs: seq<Reading>, initial: real)
    ensures NavAnchored(navUs, bankroll, rs, Run(Started(navUs, bankroll), rs, initial))
    ensures var d := Run(Started(navUs, bankroll), rs, initial);
            rs != [] && !d.tripped ==> rs[|rs| - 1].navUs - d.navStartUs < 3_600_000_000
  {
    if rs != [] {
      hide Recorded, Swept, SpikeTrips, LossTrips, NavTrips, FloorTrips;
      var init, r := rs[..|rs| - 1], rs[|rs| - 1];
      DrawdownWindow(navUs, bankroll, init, initial);
      var was, d := Run(Started(navUs, bankroll), init, initial), Run(Started(navUs, bankroll), rs, initial);
      if d.navStartUs == was.navStartUs && d.navStartUsdc == was.navStartUsdc {
        if !(was.navStartUs == navUs && was.navStartUsdc == bankroll) {
          var k :| 0 <= k < |init| && init[k].navUs == was.navStartUs && init[k].bankroll == was.navStartUsdc;
          assert rs[k] == init[k];
        }
      } else {
        assert rs[|rs| - 1].navUs == d.navStartUs;
      }
    }
  }

  // ---- When an evaluation trips ----

  datatype Anchor = Anchor(us: int, bankroll: real)

  // What the drawdown is judged against after the given readings: the reading that started the current hour.
  function AnchorOf(navUs: int, bankroll: real, rs: seq<Reading>): Anchor {
    if rs == [] then Anchor(navUs, bankroll)
    else
      var a, r := AnchorOf(navUs, bankroll, rs[..|rs| - 1]), rs[|rs| - 1];
      if r.navUs - a.us >= 3_600_000_000 then Anchor(r.navUs, r.bankroll) else a
  }

  lemma AnchorStep(d: Dog, a: Anchor, r: Reading, initial: real)
    requires d.navStartUs == a.us && d.navStartUsdc == a.bankroll
    ensures var e := Evaluated(d, r, initial);
            var b := if r.navUs - a.us >= 3_600_000_000 then Anchor(r.navUs, r.bankroll) else a;
            e.navStartUs == b.us && e.navStartUsdc == b.bankroll
  {
    hide Recorded, Swept, SpikeTrips, LossTrips, NavTrips, FloorTrips;
  }

  lemma {:induction false} AnchorTracked(navUs: int, bankroll: real, rs: seq<Reading>, initial: real)
    requires !Run(Started(navUs, bankroll), rs, initial).tripped
    ensures var d, a := Run(Started(navUs, bankroll), rs, initial), AnchorOf(navUs, bankroll, rs);
            d.navStartUs == a.us && d.navStartUsdc == a.bankroll
  {
    if rs != [] {
      hide Evaluated;
      var init := rs[..|rs| - 1];
      AnchorTracked(navUs, bankroll, init, initial);
      AnchorStep(Run(Started(navUs, bankroll), init, initial), AnchorOf(navUs, bankroll, init), rs[|rs| - 1], initial);
    }
  }

  // At least four losses, in a streak that began at most a quarter of an hour ago.
  predicate Losing(r: Reading) {
    r.losses >= 4 && r.streakStartUs != 0 && r.lossUs - r.streakStartUs <= 900_000_000
  }

  // The bankroll is more than eight per cent under an anchor less than an hour old.
  predicate DrawnDown(a: Anchor, r: Reading) {
    r.navUs - a.us < 3_600_000_000 && a.bankroll > 0.0 && r.bankroll < 0.92 * a.bankroll
  }

  // Less than half of the first bankroll is left.
  predicate Depleted(r: Reading, initial: real) { 0.0 < r.bankroll && r.bankroll < initial / 2.0 }

  lemma DrawnDownIff(d: Dog, a: Anchor, r: Reading)
    requires d.navStartUs == a.us && d.navStartUsdc == a.bankroll
    ensures NavTrips(d, r) <==> DrawnDown(a, r)
  {
    if a.bankroll > 0.0 {
      var q := (a.bankroll - r.bankroll) / a.bankroll;
      assert q * a.bankroll == a.bankroll - r.bankroll;
      if q > 0.08 {
        RealMath.PositiveProduct(q - 0.08, a.bankroll, (q - 0.08) * a.bankroll);
      } else {
        ProductNotNegative(0.08 - q, a.bankroll, (0.08 - q) * a.bankroll);
      }
    }
  }

  lemma EvaluationTripsIff(d: Dog, a: Anchor, r: Reading, initial: real)
    requires !d.tripped && d.navStartUs == a.us && d.navStartUsdc == a.bankroll
    ensures Evaluated(d, r, initial).tripped
       <==> Losing(r) || SpikeTrips(Swept(Recorded(d.buffer, r), r.spikeUs)) || DrawnDown(a, r) || Depleted(r, initial)
  {
    hide SpikeTrips, Swept, Recorded, NavTrips, DrawnDown;
    DrawnDownIff(d, a, r);
    var losses := Trip(d.(buffer := Recorded(d.buffer, r)), LossTrips(r));
    var swept := losses.(buffer := Swept(losses.buffer, r.spikeUs));
    var spike := Trip(swept, SpikeTrips(swept.buffer));
    DrawnDownIff(spike, a, r);
    RolledNeverDrawn(a, r);
  }

  lemma RolledNeverDrawn(a: Anchor, r: Reading)
    ensures r.navUs - a.us >= 3_600_000_000 ==> !DrawnDown(a, r)
  {
  }

  // For every run in which the watchdog has not yet tripped, the next evaluation trips it exactly if one of
  // four things holds of the readings: a losing streak, two prices of the last minute more than one and a
  // half per cent apart, a drawdown of more than eight per cent within the hour, or a depleted bankroll.
  lemma TripsIff(navUs: int, bankroll: real, rs: seq<Reading>, r: Reading, initial: real)
    requires Clocked(rs + [r]) && !Run(Started(navUs, bankroll), rs, initial).tripped
    ensures Run(Started(navUs, bankroll), rs + [r], initial).tripped <==>
              || Losing(r)
              || Moved(History(rs + [r]), r.spikeUs - 60_000_000)
              || DrawnDown(AnchorOf(navUs, bankroll, rs), r)
              || Depleted(r, initial)
  {
    hide Losing, DrawnDown, Depleted, SpikeTrips, Swept, Recorded, Moved, History, Clocked, Evaluated;
    var start := Started(navUs, bankroll);
    assert (rs + [r])[..|rs + [r]| - 1] == rs;
    AnchorTracked(navUs, bankroll, rs, initial);
    SpikeCheckExact(start, rs, r, initial);
    EvaluationTripsIff(Run(start, rs, initial), AnchorOf(navUs, bankroll, rs), r, initial);
  }

  // ---- The object ----

  lemma MaskSlots(i: nat)
    ensures BitMask.And(i, SLOTS - 1) == Wrap(i, SLOTS)
  {
    MaskWraps(i, 8);
    assert BitMask.Pow2(8) == 256 by {
      assert BitMask.Pow2(4) == 16;
      BitMask.Pow2Add(4, 4);
    }
  }

  class RiskWatchdog {
    const initialBankroll: real
    const btcBuf: array<Stamped>
    var btcWrite: nat
    var btcRead: nat
    var btcCount: nat
    var tripped: bool
    var killSwitch: bool
    var flattens: nat
    var navStartUs: int
    var navStartUsdc: real

    ghost predicate Valid()
      reads this
    {
      btcBuf.Length == SLOTS && btcRead < SLOTS && btcCount <= SLOTS && btcWrite == Wrap(btcRead + btcCount, SLOTS)
    }

    ghost function Model(): Dog
      reads this, btcBuf
      requires Valid()
    {
      Dog(Live(btcBuf[..], btcRead, btcCount), tripped, killSwitch, flattens, navStartUs, navStartUsdc)
    }

    constructor (initialBankroll: real, navUs: int, bankroll: real)
      ensures Valid() && fresh(btcBuf) && Model() == Started(navUs, bankroll)
      ensures this.initialBankroll == initialBankroll
    {
      this.initialBankroll := initialBankroll;
      btcBuf := new Stamped[256](_ => Stamped(0, 0.0));
      btcWrite, btcRead, btcCount := 0, 0, 0;
      tripped, killSwitch, flattens := false, false, 0;
      navStartUs, navStartUsdc := navUs, bankroll;
    }

    method RecordBtc(price: real, tsUs: int)
      requires Valid()
      modifies this`btcWrite, this`btcRead, this`btcCount, btcBuf
      ensures Valid() && Model() == old(Model()).(buffer := Push(old(Model()).buffer, Stamped(tsUs, price)))
    {
      hide Wrap, Live, BitMask.And;
      ghost var was := btcBuf[..];
      WrittenSlot();
      MaskSlots(btcWrite);
      MaskSlots(btcWrite + 1);
      MaskSlots(btcRead + 1);
      WrapTwice(btcRead + btcCount, 1, SLOTS);
      if btcCount < SLOTS {
        AppendsNewest(was, btcRead, btcCount, Stamped(tsUs, price));
        assert btcRead + btcCount + 1 == btcRead + (btcCount + 1);
      } else {
        WrapOnce(btcRead, SLOTS);
        ReplacesOldest(was, btcRead, Stamped(tsUs, price));
        WrapTwice(btcRead + 1, SLOTS, SLOTS);
        assert btcRead + 1 + SLOTS == btcRead + SLOTS + 1;
      }
      var slot := BitMask.And(btcWrite, SLOTS - 1);
      btcBuf[slot] := Stamped(tsUs, price);
      assert btcBuf[..] == was[slot := Stamped(tsUs, price)];
      btcWrite := BitMask.And(btcWrite + 1, SLOTS - 1);
      if btcCount < SLOTS {
        btcCount := btcCount + 1;
      } else {
        btcRead := BitMask.And(btcRead + 1, SLOTS - 1);
      }
    }

    lemma WrittenSlot()
      requires Valid()
      ensures Wrap(btcWrite, SLOTS) == btcWrite
    {
      WrapOnce(btcWrite, SLOTS);
    }

    method TripNow()
      modifies this`tripped, this`killSwitch, this`flattens
      requires Valid()
      ensures Valid() && Model() == Trip(old(Model()), true)
    {
      if tripped { return; }
      tripped := true;
      killSwitch := true;
      flattens := flattens + 1;
    }

    method CheckConsecutiveLosses(r: Reading)
      requires Valid()
      modifies this`tripped, this`killSwitch, this`flattens
      ensures Valid() && Model() == Trip(old(Model()), LossTrips(r))
    {
      hide Live;
      if r.losses < 4 { return; }
      if r.streakStartUs == 0 { return; }
      var elapsed := (r.lossUs - r.streakStartUs) as real / 1000000.0;
      if elapsed <= 900.0 { TripNow(); }
    }

    method SampleAt(i: nat) returns (s: Stamped)
      requires Valid() && i < btcCount
      ensures s == Model().buffer[i]
    {
      MaskSlots(btcRead + i);
      s := btcBuf[BitMask.And(btcRead + i, SLOTS - 1)];
    }

    method EvictStale(cutoffUs: int)
      requires Valid()
      modifies this`btcRead, this`btcCount
      ensures Valid() && Model() == old(Model()).(buffer := DropExpired(old(Model()).buffer, cutoffUs))
    {
      hide Wrap, Live, BitMask.And;
      ghost var kept := DropExpired(Model().buffer, cutoffUs);
      ghost var was := Model();
      while btcCount > 0
        invariant Valid() && Model() == was.(buffer := Model().buffer)
        invariant DropExpired(Model().buffer, cutoffUs) == kept
        decreases btcCount
      {
        var oldest := SampleAt(0);
        if oldest.tsUs >= cutoffUs { break; }
        MaskSlots(btcRead + 1);
        DropsOldest(btcBuf[..], btcRead, btcCount);
        WrapTwice(btcRead + 1, btcCount - 1, SLOTS);
        assert btcRead + 1 + (btcCount - 1) == btcRead + btcCount;
        btcRead := BitMask.And(btcRead + 1, SLOTS - 1);
        btcCount := btcCount - 1;
      }
    }

    method CheckBtcSpike(r: Reading)
      requires Valid()
      modifies this`btcRead, this`btcCount, this`tripped, this`killSwitch, this`flattens
      ensures Valid()
      ensures var swept := old(Model()).(buffer := Swept(old(Model()).buffer, r.spikeUs));
              Model() == Trip(swept, SpikeTrips(swept.buffer))
    {
      hide Wrap, Live, BitMask.And;
      if btcCount < 2 { return; }
      EvictStale(r.spikeUs - SPIKE_WINDOW_US);
      if btcCount < 2 { return; }
      ghost var m := Model();
      ghost var w := m.buffer;
      var oldest := SampleAt(0);
      var lo, hi := oldest.value, oldest.value;
      assert w[..1] == [w[0]];
      for i := 0 to btcCount
        invariant Valid() && Model() == m && btcCount == |w|
        invariant lo == Lowest(w[..if i == 0 then 1 else i]) && hi == Highest(w[..if i == 0 then 1 else i])
      {
        var s := SampleAt(i);
        assert w[..i + 1][..i] == w[..i];
        if s.value < lo { lo := s.value; }
        if s.value > hi { hi := s.value; }
      }
      assert w[..btcCount] == w;
      if lo > 0.0 && (hi - lo) / lo > 0.015 { TripNow(); }
    }

    method CheckNavDrawdown(r: Reading)
      requires Valid()
      modifies this`navStartUs, this`navStartUsdc, this`tripped, this`killSwitch, this`flattens
      ensures Valid() && Model() == NavChecked(old(Model()), r)
    {
      hide Live;
      var window := (r.navUs - navStartUs) as real / 1000000.0;
      if window >= 3600.0 {
        navStartUs := r.navUs;
        navStartUsdc := r.bankroll;
        return;
      }
      if navStartUsdc <= 0.0 { return; }
      var drawdown := (navStartUsdc - r.bankroll) / navStartUsdc;
      if drawdown > 0.08 { TripNow(); }
    }

    method Evaluate(r: Reading)
      requires Valid()
      modifies this, btcBuf
      ensures Valid() && Model() == Evaluated(old(Model()), r, initialBankroll)
    {
      hide Live, Wrap, Push, SpikeTrips, LossTrips, NavChecked, Trip, Swept;
      if r.btc > 0.0 { RecordBtc(r.btc, r.recordUs); }
      CheckConsecutiveLosses(r);
      CheckBtcSpike(r);
      CheckNavDrawdown(r);
      if r.bankroll > 0.0 && r.bankroll < initialBankroll * 0.5 {
        TripNow();
      } else {
        TripSkipped(Model());
      }
    }
  }

  lemma TripSkipped(d: Dog)
    ensures Trip(d, false) == d
  {
  }
}
