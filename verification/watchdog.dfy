/** The boot counter and the health window (`pkg/agent/watchdog.go`). */
module Watchdogs {
  import opened Wrappers
  import opened Device
  import opened Slots

  class BootCounter {
    const storage: Storage

    constructor (storage: Storage)
      ensures this.storage == storage
    {
      this.storage := storage;
    }

    /** One more boot of `hash`; the first one if the file is missing or about another binary. */
    method Increment(hash: string, synced: bool) returns (count: Option<nat>)
      modifies storage
      ensures hash == "" ==> count.None? && storage.disk == old(storage.disk)
      ensures hash != "" ==>
                && count == Some(old(storage.disk).files.CountFor(hash) + 1)
                && storage.disk == old(storage.disk).WroteSlots(storage.layout,
                                     old(storage.disk).files.(boots := Some(BootCount(hash, count.value))), synced)
    {
      if hash == "" { return None; }
      var st := storage.disk.files.boots;
      var c := 1;
      if st.Some? && st.value.hash == hash { c := st.value.count + 1; }
      storage.disk := storage.disk.WroteSlots(storage.layout, storage.disk.files.(boots := Some(BootCount(hash, c))), synced);
      count := Some(c);
    }

    /** Remove the file; fine if it is not there. */
    method Reset()
      modifies storage
      ensures storage.disk == old(storage.disk).Changed(old(storage.disk).files.(boots := None))
      ensures storage.disk.files.boots.None?
    {
      storage.disk := storage.disk.Changed(storage.disk.files.(boots := None));
    }
  }

  /** How one health check ends. A check that fails because its own time slot ran out carries a context error. */
  datatype Check = Pass | Fail | TimedOut

  datatype Health = Passed | NotPassed(last: Check) | CutShort

  /** The window from attempt `i` on. The context is looked at before attempt `i` (moment 2i) and while waiting
      after it (moment 2i + 1). */
  function Window(i: nat, retries: nat, checks: nat -> Check, cancelled: nat -> bool): Health
    requires i < retries
    decreases retries - i
  {
    if cancelled(2 * i) then CutShort
    else if checks(i) == Pass then Passed
    else if i + 1 == retries then NotPassed(checks(i))
    else if cancelled(2 * i + 1) then CutShort
    else Window(i + 1, retries, checks, cancelled)
  }

  /** The window is passed exactly when some attempt passes before the context is cancelled. */
  lemma {:induction false} PassedIff(i: nat, retries: nat, checks: nat -> Check, cancelled: nat -> bool)
    requires i < retries
    ensures Window(i, retries, checks, cancelled).Passed?
       <==> exists k: nat :: i <= k < retries && checks(k) == Pass && forall n :: 2 * i <= n <= 2 * k ==> !cancelled(n)
    decreases retries - i
  {
    if !cancelled(2 * i) && checks(i) == Pass {
      assert forall n :: 2 * i <= n <= 2 * i ==> !cancelled(n);
    } else if cancelled(2 * i) || i + 1 == retries || cancelled(2 * i + 1) {
    } else {
      PassedIff(i + 1, retries, checks, cancelled);
      if k: nat :| i + 1 <= k < retries && checks(k) == Pass && forall n :: 2 * (i + 1) <= n <= 2 * k ==> !cancelled(n) {
        forall n | 2 * i <= n <= 2 * k ensures !cancelled(n) {}
      }
    }
  }

  /** It runs out exactly when no attempt passes and the context is not cancelled before the last one. */
  lemma {:induction false} NotPassedIff(i: nat, retries: nat, checks: nat -> Check, cancelled: nat -> bool)
    requires i < retries
    ensures var w := Window(i, retries, checks, cancelled);
      && (w.NotPassed? <==> (forall k :: i <= k < retries ==> checks(k) != Pass) && forall n :: 2 * i <= n <= 2 * (retries - 1) ==> !cancelled(n))
      && (w.NotPassed? ==> w.last == checks(retries - 1))
    decreases retries - i
  {
    if cancelled(2 * i) || checks(i) == Pass || i + 1 == retries || cancelled(2 * i + 1) {
    } else {
      NotPassedIff(i + 1, retries, checks, cancelled);
      forall n | 2 * i <= n <= 2 * (retries - 1) && (forall m :: 2 * (i + 1) <= m <= 2 * (retries - 1) ==> !cancelled(m))
        ensures !cancelled(n)
      {}
    }
  }

  /** Some check passes, and the context is not cancelled before it does. */
  ghost predicate PassesInTime(retries: nat, checks: nat -> Check, cancelled: nat -> bool) {
    exists k: nat :: k < retries && checks(k) == Pass && forall n :: 0 <= n <= 2 * k ==> !cancelled(n)
  }

  /** No check passes, the context is not cancelled before the last one, and that one fails of itself. */
  ghost predicate FailsOutright(retries: nat, checks: nat -> Check, cancelled: nat -> bool) {
    && retries > 0 && checks(retries - 1) == Fail
    && (forall k :: 0 <= k < retries ==> checks(k) != Pass) && forall n :: 0 <= n <= 2 * (retries - 1) ==> !cancelled(n)
  }

  /** The three ends of the window, from the checks and the context alone. */
  lemma WindowEnds(retries: nat, checks: nat -> Check, cancelled: nat -> bool)
    requires retries > 0
    ensures var w := Window(0, retries, checks, cancelled);
      && (w.Passed? <==> PassesInTime(retries, checks, cancelled))
      && (w.NotPassed? && !w.last.TimedOut? <==> FailsOutright(retries, checks, cancelled))
  {
    PassedIff(0, retries, checks, cancelled);
    NotPassedIff(0, retries, checks, cancelled);
  }

  class Watchdog {
    const counter: BootCounter
    const retries: nat
    const maxBoots: nat

    constructor (counter: BootCounter, retries: int, maxBoots: int)
      ensures this.counter == counter
      ensures this.retries == (if retries <= 0 then 3 else retries) && this.maxBoots == (if maxBoots <= 0 then 2 else maxBoots)
    {
      this.counter := counter;
      this.retries := if retries <= 0 then 3 else retries;
      this.maxBoots := if maxBoots <= 0 then 2 else maxBoots;
    }

    /** Counts the boot; `exceeded` when this one is past the allowance. */
    method CheckBoot(hash: string, synced: bool) returns (exceeded: bool)
      requires hash != ""
      modifies counter.storage
      ensures var before := old(counter.storage.disk).files.CountFor(hash);
              && (exceeded <==> before + 1 > maxBoots)
              && counter.storage.disk == old(counter.storage.disk).WroteSlots(counter.storage.layout,
                                           old(counter.storage.disk).files.(boots := Some(BootCount(hash, before + 1))), synced)
    {
      var count := counter.Increment(hash, synced);
      exceeded := count.value > maxBoots;
    }

    method WaitForHealth(checks: nat -> Check, cancelled: nat -> bool) returns (h: Health)
      requires retries > 0
      ensures h == Window(0, retries, checks, cancelled)
      ensures h.Passed? <==> PassesInTime(retries, checks, cancelled)
      ensures h.NotPassed? && !h.last.TimedOut? <==> FailsOutright(retries, checks, cancelled)
    {
      WindowEnds(retries, checks, cancelled);
      var i := 0;
      while i < retries
        invariant 0 <= i < retries && Window(i, retries, checks, cancelled) == Window(0, retries, checks, cancelled)
        decreases retries - i
      {
        if cancelled(2 * i) { return CutShort; }
        var check := checks(i);
        if check == Pass { return Passed; }
        if i + 1 == retries { return NotPassed(check); }
        if cancelled(2 * i + 1) { return CutShort; }
        i := i + 1;
      }
    }

    method Confirm()
      modifies counter.storage
      ensures counter.storage.disk == old(counter.storage.disk).Changed(old(counter.storage.disk).files.(boots := None))
    {
      counter.Reset();
    }
  }
}
