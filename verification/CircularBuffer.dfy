/**
 The index discipline shared by the volatility window and the spike check: a fixed buffer, the slot of
 the oldest item and a count, with indices masked by a power of two less one.
 */
module CircularBuffer {
  import BitMask

  function Wrap(i: nat, n: nat): (r: nat)
    requires n > 0
    ensures r < n
  {
    i % n
  }

  // The items held, oldest first.
  function Live<T>(buf: seq<T>, read: nat, count: nat): (s: seq<T>)
    requires |buf| > 0
    ensures |s| == count
  {
    seq(count, j requires 0 <= j < count => buf[Wrap(read + j, |buf|)])
  }

  lemma MaskWraps(i: nat, k: nat)
    ensures BitMask.And(i, BitMask.Pow2(k) - 1) == Wrap(i, BitMask.Pow2(k))
  {
    BitMask.MaskIsMod(i, k);
  }

  lemma WrapTwice(i: nat, j: nat, n: nat)
    requires n > 0
    ensures Wrap(Wrap(i, n) + j, n) == Wrap(i + j, n)
  {
    assert i == n * (i / n) + i % n;
    assert i % n + j == n * ((i % n + j) / n) + (i % n + j) % n;
    BitMask.ModUnique(i + j, n, i / n + (i % n + j) / n, (i % n + j) % n);
  }

  lemma WrapsDiffer(i: nat, j: nat, n: nat)
    requires i < j < i + n
    ensures Wrap(i, n) != Wrap(j, n)
  {
    BitMask.SlotsDiffer(i, j, n);
  }

  lemma WrapOnce(i: nat, n: nat)
    requires i < n
    ensures Wrap(i + n, n) == i == Wrap(i, n)
  {
    BitMask.ModUnique(i + n, n, 1, i);
  }

  // Moving the read slot on and lowering the count removes the oldest item.
  lemma DropsOldest<T>(buf: seq<T>, read: nat, count: nat)
    requires 0 < count && |buf| > 0
    ensures Live(buf, Wrap(read + 1, |buf|), count - 1) == Live(buf, read, count)[1..]
  {
    hide Wrap;
    var a, b := Live(buf, Wrap(read + 1, |buf|), count - 1), Live(buf, read, count)[1..];
    forall j | 0 <= j < count - 1
      ensures a[j] == b[j]
    {
      WrapTwice(read + 1, j, |buf|);
      assert read + 1 + j == read + (j + 1);
    }
  }

  // Writing the slot after the newest item of a buffer with room appends.
  lemma AppendsNewest<T>(buf: seq<T>, read: nat, count: nat, x: T)
    requires count < |buf|
    ensures Live(buf[Wrap(read + count, |buf|) := x], read, count + 1) == Live(buf, read, count) + [x]
  {
    hide Wrap;
    var n := |buf|;
    var to := buf[Wrap(read + count, n) := x];
    var a, b := Live(to, read, count + 1), Live(buf, read, count) + [x];
    forall j | 0 <= j < count + 1
      ensures a[j] == b[j]
    {
      assert a[j] == to[Wrap(read + j, n)];
      if j < count {
        WrapsDiffer(read + j, read + count, n);
      }
    }
  }

  // In a full buffer the slot to write is the oldest item's, so the write replaces it.
  lemma ReplacesOldest<T>(buf: seq<T>, read: nat, x: T)
    requires |buf| > 0 && read < |buf|
    ensures Live(buf[read := x], Wrap(read + 1, |buf|), |buf|) == Live(buf, read, |buf|)[1..] + [x]
  {
    hide Wrap, Live;
    var n := |buf|;
    DropsOldest(buf, read, n);
    AppendsNewest(buf, Wrap(read + 1, n), n - 1, x);
    WrapTwice(read + 1, n - 1, n);
    WrapOnce(read, n);
    assert read + 1 + (n - 1) == read + n;
  }
}
