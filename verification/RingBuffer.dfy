/**
 The lock-free single-producer single-consumer ring of src/data/ring_buffer.hpp. push and pop are
 split at every shared access, so that a schedule may interleave the two threads anywhere; the
 64-bit counters wrap. A class with the same fields runs push and pop without interruption.
 */
module RingBuffer {
  import opened BitMask
  import opened Wrappers

  const WORD := 0x1_0000_0000_0000_0000

  function Sub64(a: int, b: int): (d: nat)
    ensures d < WORD
  {
    (a - b) % WORD
  }

  // The slot of the i-th item ever pushed.
  function Home(i: nat, n: nat): (slot: nat)
    requires n > 0
    ensures slot < n
  {
    i % n
  }

  // A counter after one increment.
  function Inc64(c: nat): (r: nat)
    ensures r < WORD
  {
    (c + 1) % WORD
  }

  // What both threads share. The capacity is a power of two and a size_t.
  datatype Ring<T> = Ring(k: nat, buf: seq<T>, head: nat, tail: nat) {

    ghost predicate Valid() {
      k < 64 && |buf| == Pow2(k) && head < WORD && tail < WORD
    }

    function Slot(x: nat): (i: nat)
      requires |buf| == Pow2(k)
      ensures i == Home(x, |buf|)
    {
      MaskIsMod(x, k);
      And(x, |buf| - 1)
    }
  }

  // Where each thread is inside its call, with the values it has already loaded.
  datatype Producer<T> = Idle | SawHead(v: T, h: nat) | Filling(v: T, h: nat) | Filled(v: T, h: nat)

  datatype Consumer<T> = Ready | SawTail(t: nat) | Draining(t: nat) | Copied(t: nat, out: T)

  // pushed and popped are the histories of accepted pushes and completed pops.
  datatype State<T> = State(ring: Ring<T>, producer: Producer<T>, consumer: Consumer<T>,
                            pushed: seq<T>, popped: seq<T>)

  datatype Step<T> =
    | LoadHead(v: T)
    | LoadTailAndCheckFull
    | WriteSlot
    | StoreHead
    | LoadTail
    | LoadHeadAndCheckEmpty
    | ReadSlot
    | StoreTail

  function Push<T>(s: State<T>, step: Step<T>): (s': State<T>)
    requires |s.ring.buf| == Pow2(s.ring.k)
    ensures s'.ring.k == s.ring.k && |s'.ring.buf| == |s.ring.buf|
  {
    match (step, s.producer)
    case (LoadHead(v), Idle) => s.(producer := SawHead(v, s.ring.head))
    case (LoadTailAndCheckFull, SawHead(v, h)) =>
      if Sub64(h, s.ring.tail) == |s.ring.buf| then s.(producer := Idle)
      else s.(producer := Filling(v, h))
    case (WriteSlot, Filling(v, h)) =>
      s.(ring := s.ring.(buf := s.ring.buf[s.ring.Slot(h) := v]), producer := Filled(v, h))
    case (StoreHead, Filled(v, h)) =>
      s.(ring := s.ring.(head := Inc64(h)), producer := Idle, pushed := s.pushed + [v])
    case _ => s
  }

  function Pop<T>(s: State<T>, step: Step<T>): (s': State<T>)
    requires |s.ring.buf| == Pow2(s.ring.k)
    ensures s'.ring.k == s.ring.k && |s'.ring.buf| == |s.ring.buf|
  {
    match (step, s.consumer)
    case (LoadTail, Ready) => s.(consumer := SawTail(s.ring.tail))
    case (LoadHeadAndCheckEmpty, SawTail(t)) =>
      if t == s.ring.head then s.(consumer := Ready) else s.(consumer := Draining(t))
    case (ReadSlot, Draining(t)) => s.(consumer := Copied(t, s.ring.buf[s.ring.Slot(t)]))
    case (StoreTail, Copied(t, out)) =>
      s.(ring := s.ring.(tail := Inc64(t)), consumer := Ready, popped := s.popped + [out])
    case _ => s
  }

  predicate ByProducer<T>(step: Step<T>) {
    step.LoadHead? || step.LoadTailAndCheckFull? || step.WriteSlot? || step.StoreHead?
  }

  // A step that its thread is not ready for changes nothing.
  function Apply<T>(s: State<T>, step: Step<T>): (s': State<T>)
    requires |s.ring.buf| == Pow2(s.ring.k)
    ensures s'.ring.k == s.ring.k && |s'.ring.buf| == |s.ring.buf|
  {
    if ByProducer(step) then Push(s, step) else Pop(s, step)
  }

  // ---- The invariant of every schedule -------------------------------------------------

  ghost predicate Counted<T>(s: State<T>) {
    && s.ring.Valid()
    && s.ring.head == |s.pushed| % WORD
    && s.ring.tail == |s.popped| % WORD
    && |s.popped| <= |s.pushed| <= |s.popped| + |s.ring.buf|
  }

  ghost predicate Stored<T>(s: State<T>)
    requires s.ring.Valid()
  {
    && s.popped <= s.pushed
    && forall i :: |s.popped| <= i < |s.pushed| ==> s.ring.buf[Home(i, |s.ring.buf|)] == s.pushed[i]
  }

  ghost predicate ProducerInv<T>(s: State<T>)
    requires s.ring.Valid()
  {
    match s.producer
    case Idle => true
    case SawHead(v, h) => h == s.ring.head
    case Filling(v, h) => h == s.ring.head && |s.pushed| < |s.popped| + |s.ring.buf|
    case Filled(v, h) =>
      && h == s.ring.head && |s.pushed| < |s.popped| + |s.ring.buf|
      && s.ring.buf[Home(|s.pushed|, |s.ring.buf|)] == v
  }

  ghost predicate ConsumerInv<T>(s: State<T>) {
    match s.consumer
    case Ready => true
    case SawTail(t) => t == s.ring.tail
    case Draining(t) => t == s.ring.tail && |s.popped| < |s.pushed|
    case Copied(t, out) => t == s.ring.tail && |s.popped| < |s.pushed| && out == s.pushed[|s.popped|]
  }

  ghost predicate Inv<T>(s: State<T>) {
    Counted(s) && Stored(s) && ProducerInv(s) && ConsumerInv(s)
  }

  // ---- Wrapping counters still find the right slot and the right distance -------------------

  lemma CapacityDividesWord(k: nat)
    requires k < 64
    ensures Pow2(k) < WORD && WORD == Pow2(k) * Pow2(64 - k)
  {
    WordIsPow2();
    Pow2Add(k, 64 - k);
    assert Pow2(64 - k) == 2 * Pow2(64 - k - 1);
    hide Pow2;
    TwiceAtMost(Pow2(k), Pow2(64 - k));
  }

  lemma WordIsPow2()
    ensures Pow2(64) == WORD
  {
    assert Pow2(1) == 2;
    hide Pow2;
    Pow2Add(1, 1);
    Pow2Add(2, 2);
    assert Pow2(4) == 16;
    Pow2Add(4, 4);
    assert Pow2(8) == 0x100;
    Pow2Add(8, 8);
    assert Pow2(16) == 0x1_0000;
    Pow2Add(16, 16);
    assert Pow2(32) == 0x1_0000_0000;
    Pow2Add(32, 32);
  }

  lemma TwiceAtMost(a: nat, b: nat)
    requires b >= 2
    ensures a * 2 <= a * b
  {
    assert a * (b - 2) >= 0;
  }

  lemma WrappedSlot<T>(r: Ring<T>, count: nat)
    requires r.Valid()
    ensures r.Slot(count % WORD) == Home(count, |r.buf|)
  {
    CapacityDividesWord(r.k);
    ModOfMod(count, |r.buf|, Pow2(64 - r.k));
  }

  lemma WrappedIncrement(a: nat)
    ensures Inc64(a % WORD) == (a + 1) % WORD
  {
  }

  lemma WrappedDistance(a: nat, b: nat)
    requires b <= a < b + WORD
    ensures Sub64(a % WORD, b % WORD) == a - b
  {
  }

  // ---- Every step keeps the invariant ----------------------------------------------------------

  lemma FullIffNItems<T>(s: State<T>)
    requires Inv(s)
    ensures Sub64(s.ring.head, s.ring.tail) == |s.ring.buf| <==> |s.pushed| - |s.popped| == |s.ring.buf|
    ensures s.ring.head == s.ring.tail <==> |s.pushed| == |s.popped|
  {
    hide Sub64, Stored, ProducerInv, ConsumerInv, Pow2;
    CapacityDividesWord(s.ring.k);
    WrappedDistance(|s.pushed|, |s.popped|);
    SubZeroIff(s.ring.head, s.ring.tail);
  }

  // Subtraction and increment of 64-bit counters, case by case.
  lemma SubCases(a: nat, b: nat)
    requires a < WORD && b < WORD
    ensures Sub64(a, b) == if a >= b then a - b else a - b + WORD
  {
  }

  lemma SubZeroIff(a: nat, b: nat)
    requires a < WORD && b < WORD
    ensures Sub64(a, b) == 0 <==> a == b
  {
    hide Sub64;
    SubCases(a, b);
  }

  lemma IncCases(c: nat)
    requires c < WORD
    ensures Inc64(c) == if c == WORD - 1 then 0 else c + 1
  {
  }

  lemma WrapsOnce(c: nat)
    requires c < 2 * WORD
    ensures c % WORD == if c < WORD then c else c - WORD
  {
  }

  lemma WriteKeeps<T>(s: State<T>)
    requires Inv(s) && s.producer.Filling?
    ensures Inv(Push(s, WriteSlot))
  {
    hide Pow2;
    WrappedSlot(s.ring, |s.pushed|);
    var n, s' := |s.ring.buf|, Push(s, WriteSlot);
    forall i | |s.popped| <= i < |s.pushed|
      ensures s'.ring.buf[Home(i, n)] == s.pushed[i]
    {
      SlotsDiffer(i, |s.pushed|, n);
    }
  }

  lemma PublishHeadKeeps<T>(s: State<T>)
    requires Inv(s) && s.producer.Filled?
    ensures Inv(Push(s, StoreHead))
  {
    hide Pow2, And, Home;
    WrappedIncrement(|s.pushed|);
  }

  lemma PublishTailKeeps<T>(s: State<T>)
    requires Inv(s) && s.consumer.Copied?
    ensures Inv(Pop(s, StoreTail))
  {
    hide Pow2, And, Home;
    WrappedIncrement(|s.popped|);
  }

  lemma ReadKeeps<T>(s: State<T>)
    requires Inv(s) && s.consumer.Draining?
    ensures Inv(Pop(s, ReadSlot))
  {
    hide Pow2, And, Home;
    WrappedSlot(s.ring, |s.popped|);
  }

  lemma ChecksKeep<T>(s: State<T>)
    requires Inv(s)
    ensures s.producer.SawHead? ==> Inv(Push(s, LoadTailAndCheckFull))
    ensures s.consumer.SawTail? ==> Inv(Pop(s, LoadHeadAndCheckEmpty))
  {
    hide Pow2, And, Home, Sub64;
    FullIffNItems(s);
  }

  lemma PushKeeps<T>(s: State<T>, step: Step<T>)
    requires Inv(s) && ByProducer(step)
    ensures Inv(Push(s, step))
  {
    match (step, s.producer)
    case (LoadHead(v), Idle) =>
      hide Pow2, And, Home;
    case (LoadTailAndCheckFull, SawHead(v, h)) => ChecksKeep(s);
    case (WriteSlot, Filling(v, h)) => WriteKeeps(s);
    case (StoreHead, Filled(v, h)) => PublishHeadKeeps(s);
    case _ =>
  }

  lemma PopKeeps<T>(s: State<T>, step: Step<T>)
    requires Inv(s) && !ByProducer(step)
    ensures Inv(Pop(s, step))
  {
    match (step, s.consumer)
    case (LoadTail, Ready) =>
      hide Pow2, And, Home;
    case (LoadHeadAndCheckEmpty, SawTail(t)) => ChecksKeep(s);
    case (ReadSlot, Draining(t)) => ReadKeeps(s);
    case (StoreTail, Copied(t, out)) => PublishTailKeeps(s);
    case _ =>
  }

  // ---- Whole runs -----------------------------------------------------------------------------------

  function Start<T>(k: nat, slots: seq<T>): State<T> {
    State(Ring(k, slots, 0, 0), Idle, Ready, [], [])
  }

  ghost function After<T>(s: State<T>, schedule: seq<Step<T>>): State<T>
    requires Inv(s)
    ensures Inv(After(s, schedule))
  {
    if schedule == [] then s
    else
      var s', step := After(s, schedule[..|schedule| - 1]), schedule[|schedule| - 1];
      if ByProducer(step) then PushKeeps(s', step); Apply(s', step)
      else PopKeeps(s', step); Apply(s', step)
  }

  // The producer may be writing its slot.
  predicate Writing<T>(s: State<T>) { s.producer.Filling? || s.producer.Filled? }

  // The consumer may be reading its slot.
  predicate Reading<T>(s: State<T>) { s.consumer.Draining? || s.consumer.Copied? }

  // After any schedule: pops are a prefix of the accepted pushes, at most N items are stored, the
  // counters measure them, and the two threads are never inside the same slot.
  lemma SafeAfterAnySchedule<T>(k: nat, slots: seq<T>, schedule: seq<Step<T>>)
    requires k < 64 && |slots| == Pow2(k)
    ensures Inv(Start(k, slots))
    ensures var s := After(Start(k, slots), schedule);
            && s.popped <= s.pushed
            && |s.pushed| - |s.popped| == Sub64(s.ring.head, s.ring.tail) <= |slots|
            && (Writing(s) && Reading(s) ==> s.ring.Slot(s.producer.h) != s.ring.Slot(s.consumer.t))
  {
    hide Pow2, And;
    var s := After(Start(k, slots), schedule);
    SameCapacity(Start(k, slots), schedule);
    CapacityDividesWord(k);
    WrappedDistance(|s.pushed|, |s.popped|);
    if Writing(s) && Reading(s) {
      WrappedSlot(s.ring, |s.pushed|);
      WrappedSlot(s.ring, |s.popped|);
      SlotsDiffer(|s.popped|, |s.pushed|, |slots|);
    }
  }

  lemma {:induction false} SameCapacity<T>(s: State<T>, schedule: seq<Step<T>>)
    requires Inv(s)
    ensures After(s, schedule).ring.k == s.ring.k && |After(s, schedule).ring.buf| == |s.ring.buf|
  {
    if schedule != [] { SameCapacity(s, schedule[..|schedule| - 1]); }
  }

  // A push is rejected exactly when N items are present at the moment it reads the tail, and a pop
  // finds the ring empty exactly when no item is present at the moment it reads the head.
  lemma RejectedIff<T>(s: State<T>)
    requires Inv(s)
    ensures s.producer.SawHead? ==>
              (Push(s, LoadTailAndCheckFull).producer.Idle? <==> |s.pushed| - |s.popped| == |s.ring.buf|)
    ensures s.consumer.SawTail? ==>
              (Pop(s, LoadHeadAndCheckEmpty).consumer.Ready? <==> |s.pushed| == |s.popped|)
  {
    FullIffNItems(s);
  }

  // ---- A full ring is reached ----

  // n uninterrupted pushes.
  function Fill<T>(v: T, n: nat): seq<Step<T>> {
    if n == 0 then [] else Fill(v, n - 1) + [LoadHead(v)] + [LoadTailAndCheckFull] + [WriteSlot] + [StoreHead]
  }

  lemma AfterLast<T>(s: State<T>, schedule: seq<Step<T>>, step: Step<T>)
    requires Inv(s)
    ensures After(s, schedule + [step]) == Apply(After(s, schedule), step)
  {
    hide Inv, Apply;
    assert (schedule + [step])[..|schedule|] == schedule;
  }

  // n items stored, nothing popped, both threads outside their calls.
  ghost predicate Holds<T>(s: State<T>, n: nat) {
    Inv(s) && |s.pushed| == n && s.popped == [] && s.producer.Idle? && s.consumer.Ready?
  }

  lemma PushFits<T>(s: State<T>, v: T, n: nat)
    requires Holds(s, n) && n < |s.ring.buf|
    ensures Holds(Push(Push(Push(Push(s, LoadHead(v)), LoadTailAndCheckFull), WriteSlot), StoreHead), n + 1)
  {
    hide Pow2, Sub64;
    assert |s.ring.buf| == Pow2(s.ring.k);
    hide Inv;
    FullIffNItems(s);
    PushKeeps(s, LoadHead(v));
    var a := Push(s, LoadHead(v));
    SawHeadIs(a);
    PushKeeps(a, LoadTailAndCheckFull);
    var b := Push(a, LoadTailAndCheckFull);
    PushKeeps(b, WriteSlot);
    PushKeeps(Push(b, WriteSlot), StoreHead);
  }

  lemma SawHeadIs<T>(s: State<T>)
    requires Inv(s) && s.producer.SawHead?
    ensures s.producer.h == s.ring.head
  {
    hide Counted, Stored;
  }

  lemma {:induction false} FillReaches<T>(k: nat, slots: seq<T>, v: T, n: nat)
    requires k < 64 && |slots| == Pow2(k) && n <= |slots| && Inv(Start(k, slots))
    ensures Holds(After(Start(k, slots), Fill(v, n)), n)
  {
    hide Pow2, And, Inv, Push, Pop;
    if n > 0 {
      var s, base := Start(k, slots), Fill(v, n - 1);
      FillReaches(k, slots, v, n - 1);
      SameCapacity(s, base);
      PushFits(After(s, base), v, n - 1);
      AfterLast(s, base, LoadHead(v));
      AfterLast(s, base + [LoadHead(v)], LoadTailAndCheckFull);
      AfterLast(s, base + [LoadHead(v)] + [LoadTailAndCheckFull], WriteSlot);
      AfterLast(s, base + [LoadHead(v)] + [LoadTailAndCheckFull] + [WriteSlot], StoreHead);
    } else {
      NothingHappened(Start(k, slots));
    }
  }

  lemma NothingHappened<T>(s: State<T>)
    requires Inv(s)
    ensures After(s, []) == s
  {
  }

  // All N slots are usable: whatever the capacity, N pushes in a row are accepted and the next one, at
  // its look at the tail, is turned away.
  lemma AllSlotsUsable<T>(k: nat, slots: seq<T>, v: T)
    requires k < 64 && |slots| == Pow2(k)
    ensures Inv(Start(k, slots))
    ensures var s := After(Start(k, slots), Fill(v, |slots|));
            && |s.pushed| == |slots| && s.popped == []
            && Push(Push(s, LoadHead(v)), LoadTailAndCheckFull) == s
  {
    hide Pow2, And;
    SafeAfterAnySchedule(k, slots, []);
    FillReaches(k, slots, v, |slots|);
    var s := After(Start(k, slots), Fill(v, |slots|));
    SameCapacity(Start(k, slots), Fill(v, |slots|));
    FullIffNItems(s);
    hide Inv, After;
  }

  // ---- The class, its calls run without interruption --------------------------------------------------

  // The items in a ring, oldest first.
  ghost function Items<T>(r: Ring<T>): (items: seq<T>)
    requires r.Valid()
    ensures |items| == Sub64(r.head, r.tail)
  {
    seq(Sub64(r.head, r.tail), i requires 0 <= i < Sub64(r.head, r.tail) => r.buf[Home(r.tail + i, |r.buf|)])
  }

  // The four steps of a call one after another.
  function Run4<T>(r: Ring<T>, a: Step<T>, b: Step<T>, c: Step<T>, d: Step<T>): State<T>
    requires |r.buf| == Pow2(r.k)
  {
    Apply(Apply(Apply(Apply(State(r, Idle, Ready, [], []), a), b), c), d)
  }

  function PushAlone<T>(r: Ring<T>, v: T): State<T>
    requires |r.buf| == Pow2(r.k)
  {
    Run4(r, LoadHead(v), LoadTailAndCheckFull, WriteSlot, StoreHead)
  }

  function PopAlone<T>(r: Ring<T>): State<T>
    requires |r.buf| == Pow2(r.k)
  {
    Run4(r, LoadTail, LoadHeadAndCheckEmpty, ReadSlot, StoreTail)
  }

  lemma WrappedItem<T>(r: Ring<T>, i: nat)
    requires r.Valid()
    ensures r.Slot((r.tail + i) % WORD) == Home(r.tail + i, |r.buf|)
  {
    WrappedSlot(r, r.tail + i);
  }

  lemma DistanceAfterPush(head: nat, tail: nat)
    requires head < WORD && tail < WORD && Sub64(head, tail) < WORD - 1
    ensures (tail + Sub64(head, tail)) % WORD == head
    ensures Sub64(Inc64(head), tail) == Sub64(head, tail) + 1
  {
    hide Sub64, Inc64;
    SubCases(head, tail);
    IncCases(head);
    SubCases(Inc64(head), tail);
    WrapsOnce(tail + Sub64(head, tail));
  }

  lemma ItemAt<T>(r: Ring<T>, i: nat)
    requires r.Valid() && i < |Items(r)|
    ensures Items(r)[i] == r.buf[Home(r.tail + i, |r.buf|)]
  {
    hide Pow2, And, Home, Sub64;
  }

  lemma PushedValid<T>(r: Ring<T>, r': Ring<T>)
    requires r.Valid() && Sub64(r.head, r.tail) < |r.buf|
    requires r'.k == r.k && |r'.buf| == |r.buf| && r'.head == Inc64(r.head) && r'.tail == r.tail
    ensures r'.Valid() && Sub64(r'.head, r'.tail) == Sub64(r.head, r.tail) + 1
    ensures r.Slot(r.head) == Home(r.tail + Sub64(r.head, r.tail), |r.buf|)
    ensures |r.buf| < WORD
  {
    CapacityDividesWord(r.k);
    hide Pow2, And, Home, Sub64, Inc64;
    DistanceAfterPush(r.head, r.tail);
    WrappedItem(r, Sub64(r.head, r.tail));
  }

  lemma ItemsAfterPush<T>(r: Ring<T>, v: T)
    requires r.Valid() && Sub64(r.head, r.tail) < |r.buf|
    ensures var r' := Ring(r.k, r.buf[r.Slot(r.head) := v], Inc64(r.head), r.tail);
            r'.Valid() && Items(r') == Items(r) + [v]
  {
    hide Pow2, And, Home, Sub64, Inc64, Items;
    var r' := Ring(r.k, r.buf[r.Slot(r.head) := v], Inc64(r.head), r.tail);
    PushedValid(r, r');
    var count := Sub64(r.head, r.tail);
    forall i | 0 <= i < count + 1
      ensures Items(r')[i] == (Items(r) + [v])[i]
    {
      ItemAt(r', i);
      if i < count {
        ItemAt(r, i);
        HomesDiffer(r.tail + i, r.tail + count, |r.buf|);
      }
    }
  }

  lemma HomesDiffer(i: nat, j: nat, n: nat)
    requires i < j < i + n
    ensures Home(i, n) != Home(j, n)
  {
    SlotsDiffer(i, j, n);
  }

  lemma DistanceAfterPop(head: nat, tail: nat)
    requires head < WORD && tail < WORD && head != tail
    ensures Sub64(head, Inc64(tail)) == Sub64(head, tail) - 1
  {
    hide Sub64, Inc64;
    SubCases(head, tail);
    IncCases(tail);
    SubCases(head, Inc64(tail));
  }

  lemma IncThenAdd(c: nat, i: nat)
    ensures (Inc64(c) + i) % WORD == (c + (i + 1)) % WORD
  {
  }

  lemma HomeAfterWrap<T>(r: Ring<T>, i: nat)
    requires r.Valid()
    ensures Home(Inc64(r.tail) + i, |r.buf|) == Home(r.tail + (i + 1), |r.buf|)
  {
    hide Pow2, And, Home;
    IncThenAdd(r.tail, i);
    WrappedSlot(r, Inc64(r.tail) + i);
    WrappedSlot(r, r.tail + (i + 1));
  }

  lemma NextFacts<T>(r: Ring<T>, r': Ring<T>)
    requires r.Valid() && r.head != r.tail && r' == Ring(r.k, r.buf, r.head, Inc64(r.tail))
    ensures r'.Valid() && |Items(r')| == |Items(r)| - 1
    ensures Home(r.tail, |r.buf|) == r.Slot(r.tail)
  {
    hide Pow2, And, Home;
    DistanceAfterPop(r.head, r.tail);
    WrappedItem(r, 0);
  }

  lemma ItemsShift<T>(r: Ring<T>, r': Ring<T>)
    requires r.Valid() && r.head != r.tail && r' == Ring(r.k, r.buf, r.head, Inc64(r.tail)) && r'.Valid()
    requires |Items(r')| == |Items(r)| - 1
    ensures Items(r') == Items(r)[1..]
  {
    hide Pow2, And, Home, Sub64, Items;
    forall i | 0 <= i < |Items(r')|
      ensures Items(r')[i] == Items(r)[i + 1]
    {
      HomeAfterWrap(r, i);
      hide Inc64;
      ItemAt(r', i);
      ItemAt(r, i + 1);
    }
  }

  lemma ItemsAfterPop<T>(r: Ring<T>)
    requires r.Valid() && r.head != r.tail
    ensures var r' := Ring(r.k, r.buf, r.head, Inc64(r.tail));
            r'.Valid() && Items(r) == [r.buf[r.Slot(r.tail)]] + Items(r')
  {
    var r' := Ring(r.k, r.buf, r.head, Inc64(r.tail));
    hide Pow2, And, Home, Sub64, Items, Inc64;
    NextFacts(r, r');
    ItemsShift(r, r');
    ItemAt(r, 0);
    assert Items(r) == [Items(r)[0]] + Items(r)[1..];
  }

  class SpscRingBuffer<T(0)> {
    const k: nat
    const buf: array<T>
    var head: nat
    var tail: nat

    ghost function View(): Ring<T>
      reads this, buf
    {
      Ring(k, buf[..], head, tail)
    }

    ghost predicate Valid()
      reads this, buf
    {
      View().Valid() && Sub64(head, tail) <= buf.Length
    }

    constructor (k: nat)
      requires k < 64
      ensures Valid() && this.k == k && Items(View()) == []
    {
      this.k := k;
      this.buf := new T[Pow2(k)];
      head, tail := 0, 0;
      new;
      CapacityDividesWord(k);
    }

    method Push(v: T) returns (ok: bool)
      requires Valid()
      modifies this`head, buf
      ensures Valid()
      ensures View() == old(PushAlone(View(), v).ring)
      ensures ok <==> |old(Items(View()))| < buf.Length
      ensures Items(View()) == if ok then old(Items(View())) + [v] else old(Items(View()))
    {
      hide Pow2, And;
      ghost var r := View();
      var h, t := head, tail;
      if Sub64(h, t) == buf.Length { return false; }
      ItemsAfterPush(r, v);
      assert And(h, buf.Length - 1) == r.Slot(h);
      buf[And(h, buf.Length - 1)] := v;
      head := Inc64(h);
      ok := true;
    }

    method Pop() returns (out: Option<T>)
      requires Valid()
      modifies this`tail
      ensures Valid()
      ensures var run := old(PopAlone(View()));
              View() == run.ring && run.popped == if out.Some? then [out.value] else []
      ensures out.None? <==> old(Items(View())) == []
      ensures old(Items(View())) == (if out.Some? then [out.value] else []) + Items(View())
    {
      hide Pow2, And;
      ghost var r := View();
      EmptyIff(r);
      var t, h := tail, head;
      if t == h { return None; }
      ItemsAfterPop(r);
      assert And(t, buf.Length - 1) == r.Slot(t);
      out := Some(buf[And(t, buf.Length - 1)]);
      tail := Inc64(t);
    }

    method SizeApprox() returns (size: nat)
      requires Valid()
      ensures size == |Items(View())|
    {
      size := Sub64(head, tail);
    }

    method Empty() returns (empty: bool)
      requires Valid()
      ensures empty <==> Items(View()) == []
    {
      var size := SizeApprox();
      empty := size == 0;
    }

    method Full() returns (full: bool)
      requires Valid()
      ensures full <==> |Items(View())| == buf.Length
    {
      var size := SizeApprox();
      full := size == buf.Length;
    }
  }

  lemma EmptyIff<T>(r: Ring<T>)
    requires r.Valid()
    ensures Items(r) == [] <==> r.head == r.tail
  {
  }
}
