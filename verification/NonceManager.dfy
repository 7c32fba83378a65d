/**
 The order-nonce counter of src/wallet/nonce_manager.cpp: fetch-and-add hands nonces out while other
 threads may be anywhere inside force_resync's weak compare-and-swap loop. The counter is a uint64.
 */
module NonceManager {

  const WORD := 0x1_0000_0000_0000_0000

  // A thread inside force_resync; values it loaded may be stale.
  datatype Resync = Queried(queried: nat) | Comparing(queried: nat, current: nat) | Returned(queried: nat)

  // handed lists the nonces given out, in the order the atomic increments happened.
  datatype State = State(nonce: nat, threads: map<nat, Resync>, handed: seq<nat>)

  datatype Step =
    | Next
    | Query(thread: nat, queried: nat)
    | Load(thread: nat)
    | CompareExchange(thread: nat, spurious: bool)

  // The loop condition queried > current, tested with the value just loaded.
  function Test(queried: nat, current: nat): Resync {
    if queried > current then Comparing(queried, current) else Returned(queried)
  }

  function Apply(s: State, step: Step): State {
    match step
    case Next => s.(nonce := (s.nonce + 1) % WORD, handed := s.handed + [s.nonce])
    case Query(t, queried) =>
      if (t in s.threads && !s.threads[t].Returned?) || queried >= WORD then s
      else s.(threads := s.threads[t := Queried(queried)])
    case Load(t) =>
      if t in s.threads && s.threads[t].Queried?
      then s.(threads := s.threads[t := Test(s.threads[t].queried, s.nonce)])
      else s
    case CompareExchange(t, spurious) =>
      if t !in s.threads || !s.threads[t].Comparing? then s
      else
        var queried, current := s.threads[t].queried, s.threads[t].current;
        if s.nonce == current && !spurious
        then s.(nonce := queried, threads := s.threads[t := Returned(queried)])
        else s.(threads := s.threads[t := Test(queried, s.nonce)])
  }

  // The one step that moves the counter backwards.
  predicate Wraps(s: State, step: Step) { step.Next? && s.nonce == WORD - 1 }

  ghost predicate Increasing(a: seq<nat>) { forall i, j :: 0 <= i < j < |a| ==> a[i] < a[j] }

  ghost predicate Inv(s: State) {
    && s.nonce < WORD
    && Increasing(s.handed)
    && (forall i :: 0 <= i < |s.handed| ==> s.handed[i] < s.nonce)
    && (forall t :: t in s.threads ==> s.threads[t].queried < WORD)
    && (forall t :: t in s.threads && s.threads[t].Comparing? ==> s.threads[t].current < s.threads[t].queried)
    && (forall t :: t in s.threads && s.threads[t].Returned? ==> s.threads[t].queried <= s.nonce)
  }

  lemma StepKeeps(s: State, step: Step)
    requires Inv(s) && !Wraps(s, step)
    ensures Inv(Apply(s, step)) && s.nonce <= Apply(s, step).nonce
    ensures s.handed <= Apply(s, step).handed
  {
  }

  // The counter goes backwards exactly when an increment wraps; a resync never lowers it.
  lemma DecreasesIffWraps(s: State, step: Step)
    requires Inv(s)
    ensures Apply(s, step).nonce < s.nonce <==> Wraps(s, step)
  {
  }

  // At the wrap itself the header's promise of increasing nonces fails.
  lemma WrapBreaksOrder(s: State)
    requires s.nonce == WORD - 1
    ensures !Increasing(Apply(Apply(s, Next), Next).handed)
  {
    var h := Apply(Apply(s, Next), Next).handed;
    assert h[|h| - 2] == WORD - 1 && h[|h| - 1] == 0;
  }

  function After(s: State, schedule: seq<Step>): State {
    if schedule == [] then s else Apply(After(s, schedule[..|schedule| - 1]), schedule[|schedule| - 1])
  }

  ghost predicate NeverWraps(s: State, schedule: seq<Step>) {
    forall n :: 0 <= n < |schedule| ==> !Wraps(After(s, schedule[..n]), schedule[n])
  }

  lemma {:induction false} RunKeeps(s: State, schedule: seq<Step>)
    requires Inv(s) && NeverWraps(s, schedule)
    ensures Inv(After(s, schedule)) && s.nonce <= After(s, schedule).nonce
  {
    if schedule != [] {
      var init := schedule[..|schedule| - 1];
      forall n | 0 <= n < |init|
        ensures !Wraps(After(s, init[..n]), init[n])
      {
        assert init[..n] == schedule[..n];
      }
      RunKeeps(s, init);
      assert !Wraps(After(s, init), schedule[|init|]);
      StepKeeps(After(s, init), schedule[|init|]);
    }
  }

  // The counter after the startup query, before any call.
  function Synced(v: nat): State { State(v, map[], []) }

  // For any interleaving of next and force_resync that does not wrap: no nonce is handed out twice,
  // all are at least the startup value, and whoever has returned from force_resync finds the counter
  // at or above the value it queried.
  lemma NoncesAreUnique(v: nat, schedule: seq<Step>)
    requires v < WORD && NeverWraps(Synced(v), schedule)
    ensures var s := After(Synced(v), schedule);
            && (forall i, j :: 0 <= i < |s.handed| && 0 <= j < |s.handed| && i != j ==> s.handed[i] != s.handed[j])
            && (forall i :: 0 <= i < |s.handed| ==> v <= s.handed[i] < s.nonce)
            && (forall t :: t in s.threads && s.threads[t].Returned? ==> s.threads[t].queried <= s.nonce)
  {
    RunKeeps(Synced(v), schedule);
    HandedAboveStart(v, schedule);
    var s := After(Synced(v), schedule);
    assert Increasing(s.handed);
    forall i, j | 0 <= i < |s.handed| && 0 <= j < |s.handed| && i != j
      ensures s.handed[i] != s.handed[j]
    {
      if i < j { assert s.handed[i] < s.handed[j]; } else { assert s.handed[j] < s.handed[i]; }
    }
  }

  lemma {:induction false} HandedAboveStart(v: nat, schedule: seq<Step>)
    requires v < WORD && NeverWraps(Synced(v), schedule)
    ensures var s := After(Synced(v), schedule);
            forall i :: 0 <= i < |s.handed| ==> v <= s.handed[i]
  {
    if schedule != [] {
      var init := schedule[..|schedule| - 1];
      forall n | 0 <= n < |init|
        ensures !Wraps(After(Synced(v), init[..n]), init[n])
      {
        assert init[..n] == schedule[..n];
      }
      HandedAboveStart(v, init);
      RunKeeps(Synced(v), init);
    }
  }

  // ---- Which nonces are handed out ----

  // A resync's exchange takes effect: the counter still is what the thread last saw.
  predicate Raises(s: State, step: Step) {
    step.CompareExchange? && !step.spurious && step.thread in s.threads && s.threads[step.thread].Comparing?
    && s.threads[step.thread].current == s.nonce
  }

  // Only a call of next hands out a nonce, the counter's; only it and an exchange that takes effect move the
  // counter, by one and to the queried value, which is then higher.
  lemma StepMoves(s: State, step: Step)
    requires Inv(s) && !Wraps(s, step)
    ensures var to := Apply(s, step);
            && to.handed == (if step.Next? then s.handed + [s.nonce] else s.handed)
            && to.nonce == (if step.Next? then s.nonce + 1
                            else if Raises(s, step) then s.threads[step.thread].queried
                            else s.nonce)
            && (Raises(s, step) ==> to.nonce > s.nonce)
  {
  }

  ghost predicate NeverRaises(s: State, schedule: seq<Step>) {
    forall n :: 0 <= n < |schedule| ==> !Raises(After(s, schedule[..n]), schedule[n])
  }

  function Calls(schedule: seq<Step>): nat {
    if schedule == [] then 0
    else Calls(schedule[..|schedule| - 1]) + if schedule[|schedule| - 1].Next? then 1 else 0
  }

  lemma QuietPrefix(s: State, schedule: seq<Step>)
    requires NeverWraps(s, schedule) && NeverRaises(s, schedule) && schedule != []
    ensures var n := |schedule| - 1;
            && NeverWraps(s, schedule[..n]) && NeverRaises(s, schedule[..n])
            && !Wraps(After(s, schedule[..n]), schedule[n]) && !Raises(After(s, schedule[..n]), schedule[n])
  {
    hide After, Raises, Wraps;
    var init := schedule[..|schedule| - 1];
    forall n | 0 <= n < |init|
      ensures !Wraps(After(s, init[..n]), init[n]) && !Raises(After(s, init[..n]), init[n])
    {
      assert init[..n] == schedule[..n];
    }
  }

  // While no exchange takes effect, each call is handed the next number, from the startup value on.
  lemma {:induction false} NoncesAreConsecutive(v: nat, schedule: seq<Step>)
    requires v < WORD && NeverWraps(Synced(v), schedule) && NeverRaises(Synced(v), schedule)
    ensures var s := After(Synced(v), schedule);
            && |s.handed| == Calls(schedule) && s.nonce == v + Calls(schedule)
            && (forall i :: 0 <= i < |s.handed| ==> s.handed[i] == v + i)
  {
    if schedule != [] {
      hide Apply, Inv, NeverWraps, NeverRaises, Raises, Wraps;
      var init := schedule[..|schedule| - 1];
      QuietPrefix(Synced(v), schedule);
      NoncesAreConsecutive(v, init);
      StartInv(v);
      RunKeeps(Synced(v), init);
      StepMoves(After(Synced(v), init), schedule[|init|]);
    }
  }

  lemma StartInv(v: nat)
    requires v < WORD
    ensures Inv(Synced(v))
  {
  }

  class Counter {
    var nonce: nat

    ghost predicate Valid()
      reads this
    {
      nonce < WORD
    }

    constructor ()
      ensures nonce == 0
    {
      nonce := 0;
    }

    method Sync(queried: nat)
      requires queried < WORD
      modifies this
      ensures Valid() && nonce == queried
    {
      nonce := queried;
    }

    method Next() returns (n: nat)
      requires Valid()
      modifies this
      ensures Valid() && n == old(nonce)
      ensures nonce == Apply(State(old(nonce), map[], []), Step.Next).nonce
    {
      n := nonce;
      nonce := (nonce + 1) % WORD;
    }

    // force_resync with no other thread running; the weak exchange fails spuriously the given number
    // of times before it takes effect.
    method ForceResync(queried: nat, spuriousFailures: nat)
      requires Valid() && queried < WORD
      modifies this
      ensures Valid() && nonce == if queried > old(nonce) then queried else old(nonce)
    {
      var current := nonce;
      var failures := spuriousFailures;
      while queried > current
        invariant current == nonce == old(nonce)
        decreases failures
      {
        if failures == 0 {
          nonce := queried;
          return;
        }
        failures := failures - 1;
        current := nonce;
      }
    }
  }
}
