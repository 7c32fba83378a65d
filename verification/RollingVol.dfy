/**
 Realised volatility over a time window (src/signal/regime.cpp): a 2048-slot circular buffer of log
 returns with a running sum and sum of squares. The class is proved against Updated, a transition on the
 bare sequence of entries; the lemmas say what that sequence is for a whole history of samples.
 */
module RollingVol {
  import opened CircularBuffer
  import opened TimeWindow
  import BitMask
  import RealMath

  const SLOTS := 2048
  const WINDOW_US := 60_000_000

  // A price, stamped when it was seen.
  type Sample = Stamped

  // A log return, stamped with the later of its two samples.
  type Entry = Stamped

  // lastPrice is 0 until the first accepted sample.
  datatype Window = Window(entries: seq<Entry>, lastPrice: real)

  datatype MarketRegime = Sideways | Trending | Volatile | Spike

  const EMPTY := Window([], 0.0)

  function MakeRoom(w: seq<Entry>): seq<Entry> {
    if |w| == SLOTS then w[1..] else w
  }

  function Updated(w: Window, s: Sample, log: real -> real): Window {
    if s.value <= 0.0 then w
    else
      var entries :=
        if w.lastPrice > 0.0 then MakeRoom(w.entries) + [Stamped(s.tsUs, log(s.value / w.lastPrice))]
        else w.entries;
      Window(DropExpired(entries, s.tsUs - WINDOW_US), s.value)
  }

  function Sum(w: seq<Entry>): real {
    if w == [] then 0.0 else w[0].value + Sum(w[1..])
  }

  function SumSquares(w: seq<Entry>): real {
    if w == [] then 0.0 else w[0].value * w[0].value + SumSquares(w[1..])
  }

  function Variance(count: nat, sum: real, sumSquares: real): real
    requires count > 0
  {
    var mean := sum / count as real;
    sumSquares / count as real - mean * mean
  }

  function Volatility(count: nat, sum: real, sumSquares: real, sqrt: real -> real): real {
    if count < 2 then 0.0
    else
      var variance := Variance(count, sum, sumSquares);
      if variance <= 0.0 then 0.0 else sqrt(variance)
  }

  function VolOf(w: seq<Entry>, sqrt: real -> real): real {
    Volatility(|w|, Sum(w), SumSquares(w), sqrt)
  }

  function ClassifyRegime(vol: real): MarketRegime {
    if vol < 0.0015 then Sideways
    else if vol < 0.0050 then Trending
    else if vol < 0.0150 then Volatile
    else Spike
  }

  // ---- The window of a whole history ----

  function Accepted(samples: seq<Sample>): seq<Sample> {
    if samples == [] then []
    else
      var last := samples[|samples| - 1];
      Accepted(samples[..|samples| - 1]) + if last.value <= 0.0 then [] else [last]
  }

  // Every log return between consecutive accepted samples, stamped with the later one.
  function Returns(accepted: seq<Sample>, log: real -> real): (h: seq<Entry>)
    requires forall i :: 0 <= i < |accepted| ==> accepted[i].value > 0.0
    ensures |h| == if accepted == [] then 0 else |accepted| - 1
  {
    var n := if accepted == [] then 0 else |accepted| - 1;
    seq(n, i requires 0 <= i < n => Stamped(accepted[i + 1].tsUs, log(accepted[i + 1].value / accepted[i].value)))
  }

  function Run(samples: seq<Sample>, log: real -> real): Window {
    if samples == [] then EMPTY
    else Updated(Run(samples[..|samples| - 1], log), samples[|samples| - 1], log)
  }

  lemma RunLast(samples: seq<Sample>, s: Sample, log: real -> real)
    ensures Run(samples + [s], log) == Updated(Run(samples, log), s, log)
  {
    assert (samples + [s])[..|samples|] == samples;
  }

  // w is the part of h with at most the newest SLOTS entries and none older than the window.
  ghost predicate ExactWindow(h: seq<Entry>, w: seq<Entry>, latestUs: int) {
    && |w| <= |h|
    && w == h[|h| - |w|..]
    && (forall i :: 0 <= i < |h| ==>
          (|h| - |w| <= i <==> |h| - 2048 <= i && latestUs - 60_000_000 <= h[i].tsUs))
  }

  lemma {:induction false} AcceptedFacts(samples: seq<Sample>)
    requires Sorted(samples)
    ensures Sorted(Accepted(samples))
    ensures forall i :: 0 <= i < |Accepted(samples)| ==> Accepted(samples)[i].value > 0.0
    ensures forall i :: 0 <= i < |Accepted(samples)| ==>
              samples != [] && Accepted(samples)[i].tsUs <= samples[|samples| - 1].tsUs
  {
    if samples != [] {
      var init := samples[..|samples| - 1];
      AcceptedFacts(init);
      if init != [] { assert init[|init| - 1].tsUs <= samples[|samples| - 1].tsUs; }
    }
  }

  lemma ReturnsExtend(accepted: seq<Sample>, s: Sample, log: real -> real)
    requires forall i :: 0 <= i < |accepted| ==> accepted[i].value > 0.0
    requires s.value > 0.0 && accepted != []
    ensures Returns(accepted + [s], log)
         == Returns(accepted, log) + [Stamped(s.tsUs, log(s.value / accepted[|accepted| - 1].value))]
  {
  }

  lemma ReturnsSorted(accepted: seq<Sample>, log: real -> real)
    requires Sorted(accepted)
    requires forall i :: 0 <= i < |accepted| ==> accepted[i].value > 0.0
    ensures Sorted(Returns(accepted, log))
    ensures forall i :: 0 <= i < |Returns(accepted, log)| ==>
              Returns(accepted, log)[i].tsUs <= accepted[|accepted| - 1].tsUs
  {
    hide Returns;
    var h := Returns(accepted, log);
    forall i | 0 <= i < |h|
      ensures h[i].tsUs <= accepted[|accepted| - 1].tsUs
    {
      ReturnStamp(accepted, log, i);
    }
    forall i, j | 0 <= i < j < |h|
      ensures h[i].tsUs <= h[j].tsUs
    {
      ReturnStamp(accepted, log, i);
      ReturnStamp(accepted, log, j);
    }
  }

  lemma ReturnStamp(accepted: seq<Sample>, log: real -> real, i: nat)
    requires forall i :: 0 <= i < |accepted| ==> accepted[i].value > 0.0
    requires i < |Returns(accepted, log)|
    ensures Returns(accepted, log)[i].tsUs == accepted[i + 1].tsUs
  {
  }

  // One accepted sample keeps the window exact.
  lemma UpdateKeepsExact(h: seq<Entry>, w: seq<Entry>, wasUs: int, e: Entry)
    requires ExactWindow(h, w, wasUs) && wasUs <= e.tsUs && |w| <= SLOTS
    requires Sorted(h + [e])
    ensures var to := DropExpired(MakeRoom(w) + [e], e.tsUs - WINDOW_US);
            ExactWindow(h + [e], to, e.tsUs) && |to| <= SLOTS
  {
    hide DropExpired;
    var h', mid := h + [e], MakeRoom(w) + [e];
    var k := |h'| - |mid|;
    assert mid == h'[k..];
    assert Sorted(mid);
    DropExpiredIsSuffix(mid, e.tsUs - WINDOW_US);
    var to := DropExpired(mid, e.tsUs - WINDOW_US);
    forall i | 0 <= i < |h'|
      ensures |h'| - |to| <= i <==> |h'| - SLOTS <= i && e.tsUs - WINDOW_US <= h'[i].tsUs
    {
      if i >= k {
        assert h'[i] == mid[i - k];
      } else {
        assert h'[i] == h[i];
      }
    }
  }

  // w is what the buffer should hold after the accepted samples.
  ghost predicate Tracks(acc: seq<Sample>, w: Window, log: real -> real) {
    && (forall i :: 0 <= i < |acc| ==> acc[i].value > 0.0)
    && if acc == [] then w == EMPTY
       else
         && ExactWindow(Returns(acc, log), w.entries, acc[|acc| - 1].tsUs)
         && |w.entries| <= SLOTS
         && w.lastPrice == acc[|acc| - 1].value
  }

  // For samples in time order the buffer holds exactly the log returns that are among the newest 2048
  // and no older than sixty seconds before the latest accepted sample.
  lemma {:induction false} WindowIsExact(samples: seq<Sample>, log: real -> real)
    requires Sorted(samples)
    ensures Tracks(Accepted(samples), Run(samples, log), log)
  {
    hide Tracks;
    if samples == [] {
      NothingTracked(log);
    } else {
      var init, s := samples[..|samples| - 1], samples[|samples| - 1];
      WindowIsExact(init, log);
      AcceptedFacts(samples);
      if s.value > 0.0 {
        WindowStep(Accepted(init), Run(init, log), s, log);
      } else {
        assert Accepted(samples) == Accepted(init);
      }
    }
  }

  lemma NothingTracked(log: real -> real)
    ensures Tracks([], EMPTY, log)
  {
  }

  lemma WindowStep(acc: seq<Sample>, w: Window, s: Sample, log: real -> real)
    requires s.value > 0.0 && Sorted(acc + [s]) && Tracks(acc, w, log)
    ensures Tracks(acc + [s], Updated(w, s, log), log)
  {
    hide DropExpired, Returns;
    ReturnsSorted(acc + [s], log);
    if acc == [] {
      FirstSample(s, log);
    } else {
      ReturnsExtend(acc, s, log);
      assert (acc + [s])[|acc| - 1] == acc[|acc| - 1] && (acc + [s])[|acc|] == s;
      UpdateKeepsExact(Returns(acc, log), w.entries, acc[|acc| - 1].tsUs,
                       Stamped(s.tsUs, log(s.value / w.lastPrice)));
    }
  }

  lemma FirstSample(s: Sample, log: real -> real)
    requires s.value > 0.0
    ensures Returns([s], log) == [] && Updated(EMPTY, s, log) == Window([], s.value)
  {
  }

  // ---- The variance ----

  function SquaredDeviations(w: seq<Entry>, mean: real): real {
    if w == [] then 0.0
    else (w[0].value - mean) * (w[0].value - mean) + SquaredDeviations(w[1..], mean)
  }

  // The squared deviations from a mean, multiplied out.
  function Expanded(sumSquares: real, sum: real, n: real, mean: real): real {
    sumSquares - 2.0 * mean * sum + n * mean * mean
  }

  lemma ExpandStep(r: real, mean: real, sumSquares: real, sum: real, n: real)
    ensures (r - mean) * (r - mean) + Expanded(sumSquares, sum, n, mean)
         == Expanded(r * r + sumSquares, r + sum, n + 1.0, mean)
  {
    var square := mean * mean;
    assert (r - mean) * (r - mean) == r * r - 2.0 * mean * r + square;
    assert 2.0 * mean * (r + sum) == 2.0 * mean * r + 2.0 * mean * sum;
    assert (n + 1.0) * mean * mean == n * mean * mean + square;
  }

  lemma {:induction false} ExpandDeviations(w: seq<Entry>, mean: real)
    ensures SquaredDeviations(w, mean) == Expanded(SumSquares(w), Sum(w), |w| as real, mean)
  {
    if w == [] {
      assert SquaredDeviations(w, mean) == 0.0;
    } else {
      hide Expanded;
      var rest := w[1..];
      ExpandDeviations(rest, mean);
      assert |w| as real == |rest| as real + 1.0;
      ExpandStep(w[0].value, mean, SumSquares(rest), Sum(rest), |rest| as real);
    }
  }

  lemma {:induction false} DeviationsVanish(w: seq<Entry>, mean: real)
    ensures SquaredDeviations(w, mean) >= 0.0
    ensures SquaredDeviations(w, mean) == 0.0 <==> forall i :: 0 <= i < |w| ==> w[i].value == mean
  {
    if w != [] {
      DeviationsVanish(w[1..], mean);
      var r := w[0].value - mean;
      RealMath.SquareSign(r, r * r);
      if SquaredDeviations(w, mean) == 0.0 {
        forall i | 0 <= i < |w|
          ensures w[i].value == mean
        {
          if i > 0 { assert w[i] == w[1..][i - 1]; }
        }
      }
      if forall i :: 0 <= i < |w| ==> w[i].value == mean {
        forall i | 0 <= i < |w[1..]|
          ensures w[1..][i].value == mean
        {
          assert w[1..][i] == w[i + 1];
        }
      }
    }
  }

  lemma VarianceArithmetic(sum: real, sumSquares: real, n: real, mean: real, deviations: real)
    requires n > 0.0 && mean == sum / n
    requires deviations == sumSquares - 2.0 * mean * sum + n * mean * mean
    ensures sumSquares / n - mean * mean == deviations / n
    ensures n * sumSquares - sum * sum == n * deviations
  {
    assert sum == mean * n;
    var a := mean * mean;
    assert mean * sum == n * a;
    assert n * mean * mean == n * a;
    assert deviations == sumSquares - n * a;
    assert (n * a) / n == a;
    assert deviations / n == sumSquares / n - (n * a) / n;
    assert sum * sum == n * (n * a);
  }

  // What the code computes from the two running sums is the mean squared deviation from the mean; it is
  // never negative, so the guard before the square root only ever catches zero.
  lemma VarianceIsMeanSquare(w: seq<Entry>)
    requires w != []
    ensures var n, mean := |w| as real, Sum(w) / |w| as real;
            && Variance(|w|, Sum(w), SumSquares(w)) == SquaredDeviations(w, mean) / n >= 0.0
            && SquaredDeviations(w, mean) >= 0.0
            && |w| as real * SumSquares(w) >= Sum(w) * Sum(w)
  {
    hide Sum, SumSquares, SquaredDeviations;
    var n, mean := |w| as real, Sum(w) / |w| as real;
    ExpandDeviations(w, mean);
    DeviationsVanish(w, mean);
    var d := SquaredDeviations(w, mean);
    VarianceArithmetic(Sum(w), SumSquares(w), n, mean, d);
    ProductSign(n, d);
  }

  lemma ProductSign(n: real, d: real)
    requires n > 0.0 && d >= 0.0
    ensures n * d >= 0.0 && d / n >= 0.0 && (d / n == 0.0 <==> d == 0.0)
  {
    assert d == (d / n) * n;
  }

  // The volatility is the root of that mean square: with a true square root its square times the number of
  // returns is the sum of the squared deviations.
  lemma VolSquared(w: seq<Entry>, sqrt: real -> real)
    requires |w| >= 2
    requires forall x :: x > 0.0 ==> sqrt(x) > 0.0 && sqrt(x) * sqrt(x) == x
    ensures var v := VolOf(w, sqrt);
            v >= 0.0 && v * v * |w| as real == SquaredDeviations(w, Sum(w) / |w| as real)
  {
    VarianceIsMeanSquare(w);
    hide Sum, SumSquares, SquaredDeviations, Variance;
    var n, d := |w| as real, SquaredDeviations(w, Sum(w) / |w| as real);
    assert d / n * n == d;
  }

  // The regimes cut the volatility at 0.15, 0.5 and 1.5 per cent, each threshold belonging to the higher.
  lemma RegimeIs(vol: real)
    ensures ClassifyRegime(vol) == Sideways <==> 1000.0 * vol < 1.5
    ensures ClassifyRegime(vol) == Trending <==> 1.5 <= 1000.0 * vol < 5.0
    ensures ClassifyRegime(vol) == Volatile <==> 5.0 <= 1000.0 * vol < 15.0
    ensures ClassifyRegime(vol) == Spike <==> 1000.0 * vol >= 15.0
  {
  }

  // The reported volatility is zero exactly when there are fewer than two returns or all are the same.
  predicate AllEqual(w: seq<Entry>) { forall i :: 0 <= i < |w| ==> w[i].value == w[0].value }

  lemma VolZeroIff(w: seq<Entry>, sqrt: real -> real)
    requires forall x :: x > 0.0 ==> sqrt(x) > 0.0
    ensures VolOf(w, sqrt) >= 0.0
    ensures VolOf(w, sqrt) == 0.0 <==> |w| < 2 || AllEqual(w)
  {
    if |w| >= 2 {
      VarianceIsMeanSquare(w);
      ProductSign(|w| as real, SquaredDeviations(w, Sum(w) / |w| as real));
      DeviationsZeroIff(w);
      hide Sum, SumSquares, SquaredDeviations, AllEqual, Variance;
    }
  }

  lemma DeviationsZeroIff(w: seq<Entry>)
    requires w != []
    ensures SquaredDeviations(w, Sum(w) / |w| as real) == 0.0 <==> AllEqual(w)
  {
    hide Sum, SquaredDeviations;
    DeviationsVanish(w, Sum(w) / |w| as real);
    if AllEqual(w) { AllEqualMean(w, w[0].value); }
  }

  lemma {:induction false} AllEqualSum(w: seq<Entry>, r: real)
    requires forall i :: 0 <= i < |w| ==> w[i].value == r
    ensures Sum(w) == |w| as real * r
  {
    if w != [] {
      AllEqualSum(w[1..], r);
      assert |w| as real * r == |w[1..]| as real * r + r;
    }
  }

  lemma AllEqualMean(w: seq<Entry>, r: real)
    requires w != [] && forall i :: 0 <= i < |w| ==> w[i].value == r
    ensures Sum(w) / |w| as real == r
  {
    AllEqualSum(w, r);
  }

  // ---- The running sums ----

  lemma {:induction false} SumsAppend(w: seq<Entry>, e: Entry)
    ensures Sum(w + [e]) == Sum(w) + e.value
    ensures SumSquares(w + [e]) == SumSquares(w) + e.value * e.value
  {
    if w != [] {
      SumsAppend(w[1..], e);
      assert (w + [e])[1..] == w[1..] + [e];
    }
  }

  function Advance(i: nat): nat {
    BitMask.And(i + 1, SLOTS - 1)
  }

  lemma AdvanceWraps(i: nat)
    ensures Advance(i) == Wrap(i + 1, SLOTS)
  {
    MaskWraps(i + 1, 11);
    assert BitMask.Pow2(11) == 2048 by {
      assert BitMask.Pow2(5) == 32;
      BitMask.Pow2Add(5, 6);
      assert BitMask.Pow2(6) == 64;
    }
  }

  class RollingVolState {
    const buf: array<Entry>
    var write: nat
    var read: nat
    var count: nat
    var lastPrice: real
    var runningSum: real
    var runningSum2: real

    ghost predicate Indices()
      reads this, buf
    {
      buf.Length == SLOTS && read < SLOTS && count <= SLOTS && write == Wrap(read + count, SLOTS)
    }

    ghost function Model(): Window
      reads this, buf
      requires Indices()
    {
      Window(Live(buf[..], read, count), lastPrice)
    }

    ghost predicate Valid()
      reads this, buf
    {
      && Indices()
      && runningSum == Sum(Model().entries)
      && runningSum2 == SumSquares(Model().entries)
    }

    constructor ()
      ensures Valid() && fresh(buf) && Model() == EMPTY
    {
      buf := new Entry[2048](_ => Stamped(0, 0.0));
      write, read, count := 0, 0, 0;
      lastPrice, runningSum, runningSum2 := 0.0, 0.0, 0.0;
    }

    method Evict()
      requires Valid() && count > 0
      modifies this
      ensures Valid() && lastPrice == old(lastPrice)
      ensures Model().entries == old(Model().entries)[1..]
      ensures count == old(count) - 1
    {
      hide Wrap, Live, Advance;
      ghost var was := Model().entries;
      assert was[0] == buf[read] by { OldestIsRead(buf[..], read, count); }
      var r := buf[read].value;
      runningSum := runningSum - r;
      runningSum2 := runningSum2 - r * r;
      AdvanceWraps(read);
      DropsOldest(buf[..], read, count);
      WrapTwice(read + 1, count - 1, SLOTS);
      assert read + 1 + (count - 1) == read + count;
      read := Advance(read);
      count := count - 1;
    }

    method Append(e: Entry)
      requires Valid() && count < SLOTS
      modifies this, buf
      ensures Valid() && lastPrice == old(lastPrice)
      ensures Model().entries == old(Model().entries) + [e]
    {
      hide Wrap, Live, Advance, Sum, SumSquares;
      AppendsNewest(buf[..], read, count, e);
      SumsAppend(Model().entries, e);
      ghost var was := buf[..];
      buf[write] := e;
      assert buf[..] == was[write := e];
      AdvanceWraps(write);
      WrapTwice(read + count, 1, SLOTS);
      assert read + count + 1 == read + (count + 1);
      write := Advance(write);
      runningSum := runningSum + e.value;
      runningSum2 := runningSum2 + e.value * e.value;
      count := count + 1;
    }

    method Update(timestampUs: int, price: real, log: real -> real)
      requires Valid()
      modifies this, buf
      ensures Valid()
      ensures Model() == Updated(old(Model()), Stamped(timestampUs, price), log)
    {
      hide Wrap, Live, Sum, SumSquares;
      if price <= 0.0 { return; }
      if lastPrice > 0.0 {
        var ret := log(price / lastPrice);
        if count == SLOTS { Evict(); }
        Append(Stamped(timestampUs, ret));
      }
      lastPrice := price;
      var cutoffUs := timestampUs - WINDOW_US;
      ghost var kept := DropExpired(Model().entries, cutoffUs);
      while count > 0 && buf[read].tsUs < cutoffUs
        invariant Valid() && lastPrice == price
        invariant DropExpired(Model().entries, cutoffUs) == kept
        decreases count
      {
        OldestIsRead(buf[..], read, count);
        Evict();
      }
      if count > 0 { OldestIsRead(buf[..], read, count); }
    }

    method RealizedVol(sqrt: real -> real) returns (vol: real)
      requires Valid()
      ensures vol == VolOf(Model().entries, sqrt)
    {
      vol := Volatility(count, runningSum, runningSum2, sqrt);
    }
  }

  lemma OldestIsRead<T>(buf: seq<T>, read: nat, count: nat)
    requires 0 < count <= |buf| && read < |buf|
    ensures Live(buf, read, count)[0] == buf[read]
  {
    WrapOnce(read, |buf|);
  }
}
