/** Time-stamped values in order, and dropping those that fell out of a window. */
module TimeWindow {

  datatype Stamped = Stamped(tsUs: int, value: real)

  ghost predicate Sorted(w: seq<Stamped>) {
    forall i, j :: 0 <= i < j < |w| ==> w[i].tsUs <= w[j].tsUs
  }

  // Drops from the front while the oldest is stamped before the cutoff.
  function DropExpired(w: seq<Stamped>, cutoffUs: int): seq<Stamped> {
    if w == [] || w[0].tsUs >= cutoffUs then w else DropExpired(w[1..], cutoffUs)
  }

  // In time order, exactly the values stamped at or after the cutoff remain.
  lemma {:induction false} DropExpiredIsSuffix(w: seq<Stamped>, cutoffUs: int)
    requires Sorted(w)
    ensures var d := DropExpired(w, cutoffUs);
            && |d| <= |w|
            && d == w[|w| - |d|..]
            && forall i :: 0 <= i < |w| ==> (|w| - |d| <= i <==> cutoffUs <= w[i].tsUs)
  {
    if w != [] && w[0].tsUs < cutoffUs {
      DropExpiredIsSuffix(w[1..], cutoffUs);
      var d := DropExpired(w, cutoffUs);
      forall i | 0 <= i < |w|
        ensures |w| - |d| <= i <==> cutoffUs <= w[i].tsUs
      {
        if i > 0 { assert w[i] == w[1..][i - 1]; }
      }
    }
  }
}
