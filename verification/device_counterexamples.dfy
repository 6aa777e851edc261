/** Concrete runs that show where natural stronger claims about the device protocol fail. */
module DeviceCounterexamples {
  import opened Wrappers
  import opened Hex
  import opened Primitives
  import opened Signing
  import opened Messages
  import opened Acceptance
  import opened Device
  import opened DeviceSafety

  /** Three one-byte binaries with distinct digests; a patch is the new binary itself. */
  const P: Bytes := [0]
  const N: Bytes := [1]
  const M: Bytes := [2]

  function Digest(b: Bytes): string {
    if b == N then seq(HASH_LEN, _ => '1') else if b == M then seq(HASH_LEN, _ => '2') else seq(HASH_LEN, _ => '0')
  }

  const TOY_CRYPTO := Crypto(Digest, m => [0] + m, (m, s) => true, (o, n) => n, (o, p) => Some(p), b => b, b => Some(b))

  ghost const SIGNED: SignedPairs := iset{(Digest(N), Digest(N)), (Digest(M), Digest(M))}

  const ALL_SYNCED := Lossy(false, false, false, false, false)

  ghost function Cfg(layout: Layout, lossy: Lossy): Config {
    Config(TOY_CRYPTO, layout, 2, SIGNED, {Digest(P)}, lossy)
  }

  const FRESH := State(Disk(A, [], Files(P, P, None, None, None), []), Booting, {Digest(P)}, {})

  /** The server's manifest for a binary, in delta mode. */
  function Offer(b: Bytes): ManifestResponse {
    NoUpdate("").(updateAvailable := true, targetHash := Digest(b), deltaHash := Digest(b), signature := "00", deltaEndpoint := "/delta")
  }

  lemma DigestsDiffer()
    ensures Digest(P) != Digest(N) && Digest(N) != Digest(M) && Digest(P) != Digest(M)
    ensures forall b :: IsValidHash(Digest(b))
  {
    assert Digest(P)[0] == '0' && Digest(N)[0] == '1' && Digest(M)[0] == '2';
  }

  lemma CfgIsLawful(layout: Layout, lossy: Lossy)
    ensures Lawful(Cfg(layout, lossy)) && Init(Cfg(layout, lossy), FRESH)
  {
    DigestsDiffer();
  }

  lemma OfferTarget(b: Bytes)
    ensures Offer(b).targetHash == Digest(b)
  {
  }

  lemma HexFacts(b: Bytes)
    ensures Digest(b) != "" && ManifestSigningPayload(Digest(b), Digest(b)).Some? && Decode("00").Some?
  {
    DigestsDiffer();
    EncodeDecode(Digest(b));
    EncodeDecode("00");
  }

  /** The offer is accepted, by any device. */
  lemma OfferIsAccepted(b: Bytes, active: Bytes)
    requires b == N || b == M
    ensures Unforged(TOY_CRYPTO, SIGNED, Offer(b)) && Accept(TOY_CRYPTO, Offer(b), active, b) == Ok(b)
  {
    hide Digest, ManifestSigningPayload, Decode;
    HexFacts(b);
    assert (Digest(b), Digest(b)) in SIGNED;
  }

  lemma Extend(cfg: Config, s: State, events: seq<Event>, e: Event)
    requires Run(cfg, s, events).Some?
    ensures Run(cfg, s, events + [e]) == Step(cfg, Run(cfg, s, events).value, e)
  {
    assert (events + [e])[..|events + [e]| - 1] == events;
  }

  ghost predicate From(cfg: Config, s: State) {
    exists events :: Run(cfg, FRESH, events) == Some(s)
  }

  lemma Start(cfg: Config)
    ensures From(cfg, FRESH)
  {
    assert Run(cfg, FRESH, []) == Some(FRESH);
  }

  lemma Next(cfg: Config, s: State, e: Event) returns (t: State)
    requires From(cfg, s) && Step(cfg, s, e).Some?
    ensures From(cfg, t) && t == Step(cfg, s, e).value
  {
    var events :| Run(cfg, FRESH, events) == Some(s);
    Extend(cfg, FRESH, events, e);
    t := Step(cfg, s, e).value;
    assert Run(cfg, FRESH, events + [e]) == Some(t);
  }

  /** One update cycle from steady state up to the slot. */
  lemma UpToTheSlot(layout: Layout, lossy: Lossy, s: State, b: Bytes) returns (t: State)
    requires (b == N || b == M) && From(Cfg(layout, lossy), s) && s.proc.Idle?
    ensures From(Cfg(layout, lossy), t)
    ensures var cfg := Cfg(layout, lossy);
            t == s.(disk := s.disk.WroteSlots(layout, s.disk.files.Written(s.disk.link.Other(), b), true),
                    proc := Staged(Digest(s.disk.Active()), Digest(b)))
  {
    hide From, Accept, Unforged, Digest, Offer, BootStep, Down;
    var cfg := Cfg(layout, lossy);
    OfferIsAccepted(b, s.disk.Active());
    assert Offer(b).targetHash == Digest(b) by { OfferTarget(b); }
    t := Next(cfg, s, Prepare(Offer(b), b));
    t := Next(cfg, t, StageSlot(true));
  }

  /** And on to the flipped link. */
  lemma Cycle(layout: Layout, lossy: Lossy, s: State, b: Bytes, marked: bool, linked: bool) returns (t: State)
    requires (b == N || b == M) && From(Cfg(layout, lossy), s) && s.proc.Idle?
    requires (marked || lossy.marker) && (linked || lossy.link)
    ensures From(Cfg(layout, lossy), t)
    ensures var m := Marker(Digest(s.disk.Active()), Digest(b));
            var d := s.disk.WroteSlots(layout, s.disk.files.Written(s.disk.link.Other(), b), true);
            t == s.(disk := d.WroteState(layout, d.files.(marker := Some(m)), marked).Linked(s.disk.link.Other(), linked),
                    proc := Swapped(m.previous, m.next), lost := if marked then s.lost * {m.previous} else s.lost)
  {
    hide From, Accept, Unforged, Digest, BootStep, Down;
    var cfg := Cfg(layout, lossy);
    t := UpToTheSlot(layout, lossy, s, b);
    t := Next(cfg, t, WriteMarker(marked));
    t := Next(cfg, t, FlipLink(linked));
  }

  lemma Booted(layout: Layout, lossy: Lossy) returns (s: State)
    ensures From(Cfg(layout, lossy), s) && s == FRESH.(proc := Idle)
  {
    hide From, Digest;
    CfgIsLawful(layout, lossy);
    Start(Cfg(layout, lossy));
    s := Next(Cfg(layout, lossy), FRESH, Boot(true));
  }

  lemma FromIsReachable(layout: Layout, lossy: Lossy, s: State)
    requires From(Cfg(layout, lossy), s)
    ensures Lawful(Cfg(layout, lossy)) && Reachable(Cfg(layout, lossy), s)
  {
    CfgIsLawful(layout, lossy);
  }

  // ---------------------------------------------------------------------------
  // The window of a failed restart
  // ---------------------------------------------------------------------------

  lemma KilledInWindow(s: State) returns (t: State)
    requires From(Cfg(Shared, ALL_SYNCED), s) && s.proc.Swapped? && Digest(s.disk.Active()) !in s.confirmed
    ensures From(Cfg(Shared, ALL_SYNCED), t) && t.proc.Idle? && t.disk.files.marker.None?
    ensures Digest(t.disk.Active()) !in t.confirmed
  {
    hide From, Accept, Unforged, Digest, Offer;
    var cfg := Cfg(Shared, ALL_SYNCED);
    t := Next(cfg, s, RestartFailed);
    t := Next(cfg, t, Killed);
    t := Next(cfg, t, Boot(true));
  }

  /** The window is real: a kill between the clear and the rollback of a failed restart leaves the device in
      steady state on a binary that was never confirmed, with no marker. */
  lemma RestartWindowLosesTheMarker()
    ensures exists s :: Reachable(Cfg(Shared, ALL_SYNCED), s) && s.proc.Idle? && s.disk.files.marker.None?
                        && Digest(s.disk.Active()) !in s.confirmed
  {
    hide Reachable;
    DigestsDiffer();
    var s := Booted(Shared, ALL_SYNCED);
    s := Cycle(Shared, ALL_SYNCED, s, N, true, true);
    s := KilledInWindow(s);
    FromIsReachable(Shared, ALL_SYNCED, s);
  }

  /** Steady state again after a healthy boot of the binary just swapped in. */
  lemma Confirm(layout: Layout, lossy: Lossy, s: State) returns (t: State)
    requires From(Cfg(layout, lossy), s) && s.proc.Booting? && s.disk.files.boots.None?
    requires s.disk.files.Names(Digest(s.disk.Active()))
    ensures From(Cfg(layout, lossy), t)
    ensures var m := s.disk.files.marker.value;
            var counted := s.disk.WroteSlots(layout, s.disk.files.(boots := Some(BootCount(m.next, 1))), true);
            var uncounted := counted.Changed(counted.files.(boots := None));
            t == State(uncounted.Changed(uncounted.files.(marker := None)), Idle, s.confirmed + {m.next}, s.lost)
  {
    hide From, Accept, Unforged, Digest, Offer, Down;
    var cfg := Cfg(layout, lossy);
    t := Next(cfg, s, Boot(true));
    t := Next(cfg, t, HealthOk);
    t := Next(cfg, t, ResetCounter);
    t := Next(cfg, t, ClearMarker);
  }

  // ---------------------------------------------------------------------------
  // State files in a directory of their own
  // ---------------------------------------------------------------------------

  lemma FailedBoot(lossy: Lossy, s: State) returns (t: State, u: State)
    requires From(Cfg(Split, lossy), s) && s.proc.Booting? && s.disk.files.boots.None?
    requires s.disk.files.Names(Digest(s.disk.Active()))
    ensures From(Cfg(Split, lossy), t) && t.proc == RollingBack(s.disk.files.marker.value)
    ensures t.disk.Inactive() == s.disk.Inactive()
    ensures From(Cfg(Split, lossy), u) && u.proc.RolledBack? && u.confirmed == s.confirmed && u.lost == s.lost
    ensures u.disk.Active() == s.disk.Inactive() && u.disk.files.marker == s.disk.files.marker
  {
    hide From, Accept, Unforged, Digest, Offer, Down;
    t := Next(Cfg(Split, lossy), s, Boot(true));
    t := Next(Cfg(Split, lossy), t, HealthFailed);
    u := Next(Cfg(Split, lossy), t, FlipLink(true));
  }

  /** A confirmed update to N, and the next one, to M, up to its slot: the removal of the first marker is still
      unsettled. */
  lemma SecondSlotStaged(lossy: Lossy) returns (s: State)
    ensures From(Cfg(Split, lossy), s) && s.proc.Staged? && s.disk.links == [] && s.disk.link == B
    ensures |s.disk.older| >= 2 && s.disk.older[1].marker == Some(Marker(Digest(P), Digest(N)))
    ensures s.disk.older[0].a == M && s.disk.older[0].b == N && s.disk.older[0].boots.None?
    ensures s.confirmed == {Digest(P), Digest(N)} && s.lost == {}
  {
    hide From, Digest;
    s := Booted(Split, lossy);
    s := Cycle(Split, lossy, s, N, true, true);
    s := Next(Cfg(Split, lossy), s, RestartOk);
    s := Confirm(Split, lossy, s);
    s := UpToTheSlot(Split, lossy, s, M);
  }

  /** With state files in a directory of their own, the removal of the marker outlives the next write of a slot
      only in the cache: after a power loss the old marker is back, and a rollback activates the binary that
      was being staged. */
  lemma SplitLayoutRollsBackWrongly(lossy: Lossy) returns (s: State, t: State)
    ensures From(Cfg(Split, lossy), s) && s.proc.RollingBack? && Digest(s.disk.Inactive()) != s.proc.m.previous
    ensures From(Cfg(Split, lossy), t) && t.proc.RolledBack? && !Guarded(Cfg(Split, lossy), t, t.disk.link, t.disk.files)
  {
    hide From, Digest, Accept, Unforged;
    DigestsDiffer();
    s := SecondSlotStaged(lossy);
    s := Next(Cfg(Split, lossy), s, PowerLoss(0, 0, 1));
    s, t := FailedBoot(lossy, s);
  }

  /** Rollbacks land where they should in every run of a layout, whatever directory fsyncs fail. */
  ghost predicate RollbacksLand(layout: Layout) {
    forall cfg, s :: Lawful(cfg) && cfg.layout == layout && Reachable(cfg, s) && s.proc.RollingBack?
      ==> Sha(cfg, s.disk.Inactive()) == s.proc.m.previous
  }

  /** They do exactly when the state files live in the slots directory. */
  lemma RollbacksLandIffShared(layout: Layout)
    ensures RollbacksLand(layout) <==> layout.Shared?
  {
    hide Reachable, From;
    if layout.Shared? {
      forall cfg, s | Lawful(cfg) && cfg.layout == layout && Reachable(cfg, s) && s.proc.RollingBack?
        ensures Sha(cfg, s.disk.Inactive()) == s.proc.m.previous
      {
        ReachableLands(cfg, s);
        PairTurns(cfg, s.disk.files, s.disk.link);
      }
    } else {
      var s, _ := SplitLayoutRollsBackWrongly(ALL_SYNCED);
      FromIsReachable(Split, ALL_SYNCED, s);
      assert Sha(Cfg(Split, ALL_SYNCED), s.disk.Inactive()) != s.proc.m.previous;
    }
  }

  // ---------------------------------------------------------------------------
  // Directory fsyncs that fail or are cut off
  // ---------------------------------------------------------------------------

  /** Every unconfirmed binary a power loss may leave active has a marker naming it, outside the window and but for
      those lost in it, in every run in which only the writes in `lossy` go unsynced. */
  ghost predicate AlwaysGuarded(layout: Layout, lossy: Lossy) {
    forall cfg, s, l: nat, i: nat, j: nat ::
      Lawful(cfg) && cfg.layout == layout && cfg.lossy == lossy && Reachable(cfg, s) && !s.proc.Cleared?
      && l < |s.disk.Links()| && s.disk.MayLeave(layout, i, j)
      ==> Guarded(cfg, s, s.disk.Links()[l], s.disk.Image(i, j))
  }

  /** A marker that is not synced: the flipped link survives a power loss that the marker does not. */
  lemma UnsyncedMarkerIsMissed(lossy: Lossy) returns (s: State)
    requires lossy.marker
    ensures From(Cfg(Shared, lossy), s) && s.proc.Swapped? && 0 < |s.disk.older|
    ensures !Guarded(Cfg(Shared, lossy), s, s.disk.link, s.disk.older[0])
  {
    hide From;
    DigestsDiffer();
    s := Booted(Shared, lossy);
    s := Cycle(Shared, lossy, s, N, false, true);
    assert s.disk.older[0].b == N;
  }

  /** A flip that is not synced: the next cycle writes the slot the link may still return to. */
  lemma UnsyncedLinkIsOverwritten(layout: Layout, lossy: Lossy) returns (s: State)
    requires lossy.link
    ensures From(Cfg(layout, lossy), s) && s.proc.Staged? && s.disk.links == [A] && s.disk.link == B
    ensures !Guarded(Cfg(layout, lossy), s, A, s.disk.files)
  {
    hide From;
    DigestsDiffer();
    s := Booted(layout, lossy);
    s := Cycle(layout, lossy, s, N, true, false);
    s := Next(Cfg(layout, lossy), s, RestartOk);
    s := Confirm(layout, lossy, s);
    s := UpToTheSlot(layout, lossy, s, M);
  }

  lemma Unguarded(layout: Layout, lossy: Lossy, s: State, l: nat, i: nat)
    requires From(Cfg(layout, lossy), s) && !s.proc.Cleared? && l < |s.disk.Links()| && i < |s.disk.Images()|
    requires !Guarded(Cfg(layout, lossy), s, s.disk.Links()[l], s.disk.Images()[i])
    ensures !AlwaysGuarded(layout, lossy)
  {
    hide From, Reachable, Guarded;
    FromIsReachable(layout, lossy, s);
    assert s.disk.Image(i, i) == s.disk.Images()[i];
    assert s.disk.MayLeave(layout, i, i);
  }

  /** So it is exactly the markers and the link flips that have to be synced, and exactly one directory that the
      files have to share. Slots, counters and cooldowns need not be. */
  lemma AlwaysGuardedIff(layout: Layout, lossy: Lossy)
    ensures AlwaysGuarded(layout, lossy) <==> layout.Shared? && !lossy.marker && !lossy.link
  {
    hide Reachable, From, Guarded;
    if layout.Split? {
      var _, t := SplitLayoutRollsBackWrongly(lossy);
      Unguarded(layout, lossy, t, |t.disk.links|, |t.disk.older|);
    } else if lossy.marker {
      var s := UnsyncedMarkerIsMissed(lossy);
      Unguarded(layout, lossy, s, |s.disk.links|, 0);
    } else if lossy.link {
      var s := UnsyncedLinkIsOverwritten(layout, lossy);
      Unguarded(layout, lossy, s, 0, |s.disk.older|);
    } else {
      forall cfg, s, l: nat, i: nat, j: nat
        | Lawful(cfg) && cfg.layout == layout && cfg.lossy == lossy && Reachable(cfg, s) && !s.proc.Cleared?
          && l < |s.disk.Links()| && s.disk.MayLeave(layout, i, j)
        ensures Guarded(cfg, s, s.disk.Links()[l], s.disk.Image(i, j))
      {
        assert s.disk.Image(i, j) == s.disk.Images()[i];
        UnconfirmedIsMarked(cfg, s, l, i);
      }
    }
  }

  /** Slots a power loss may yet make active are never written, in every run... */
  ghost predicate DurablyActiveIsNeverWritten(layout: Layout, lossy: Lossy) {
    forall cfg, s, l: nat ::
      Lawful(cfg) && cfg.layout == layout && cfg.lossy == lossy && Reachable(cfg, s) && s.proc.Staged? && l < |s.disk.Links()|
      ==> s.disk.Links()[l] == s.disk.link
  }

  /** ...exactly when link flips are synced. */
  lemma DurablyActiveIsNeverWrittenIff(layout: Layout, lossy: Lossy)
    ensures DurablyActiveIsNeverWritten(layout, lossy) <==> !lossy.link
  {
    hide Reachable, From, Guarded;
    if lossy.link {
      var s := UnsyncedLinkIsOverwritten(layout, lossy);
      FromIsReachable(layout, lossy, s);
      assert s.disk.Links()[0] == A;
    } else {
      forall cfg, s, l: nat
        | Lawful(cfg) && cfg.layout == layout && cfg.lossy == lossy && Reachable(cfg, s) && s.proc.Staged? && l < |s.disk.Links()|
        ensures s.disk.Links()[l] == s.disk.link
      {
        LinksSettle(cfg, s);
      }
    }
  }

  // ---------------------------------------------------------------------------
  // The boot counter
  // ---------------------------------------------------------------------------

  /** From no reachable state does a run of boots of one binary enter the health window more than MaxBoots times. */
  ghost predicate BootsBounded(layout: Layout, lossy: Lossy) {
    forall cfg, s, events, hash ::
      Lawful(cfg) && cfg.layout == layout && cfg.lossy == lossy && Reachable(cfg, s)
      && Run(cfg, s, events).Some? && CounterSettled(s) && OnlyBoots(cfg, s, events, hash)
      ==> Boots(cfg, s, events).1 <= cfg.maxBoots
  }

  /** A device that has just restarted into a new binary, with everything settled. */
  lemma Restarted(layout: Layout, lossy: Lossy) returns (s: State)
    ensures From(Cfg(layout, lossy), s) && s.proc.Booting? && s.disk.links == [] && s.disk.older == []
    ensures s.disk.files.Names(Digest(s.disk.Active())) && s.disk.files.boots.None?
  {
    hide From, Digest;
    s := Booted(layout, lossy);
    s := Cycle(layout, lossy, s, N, true, true);
    s := Next(Cfg(layout, lossy), s, RestartOk);
    var n := |s.disk.older|;
    assert s.disk.Image(n, n) == s.disk.files;
    s := Next(Cfg(layout, lossy), s, PowerLoss(0, n, n));
  }

  /** Which is so exactly when the counter is synced. */
  lemma BootsAreBoundedIff(layout: Layout, lossy: Lossy)
    ensures BootsBounded(layout, lossy) <==> !lossy.boots
  {
    hide Reachable, From, Run, OnlyBoots, Boots;
    if lossy.boots {
      var s := Restarted(layout, lossy);
      FromIsReachable(layout, lossy, s);
      var cfg := Cfg(layout, lossy);
      var events := UnsyncedBootsRepeat(cfg, s, cfg.maxBoots + 1);
      assert CounterSettled(s) && Boots(cfg, s, events).1 > cfg.maxBoots;
    } else {
      forall cfg, s, events, hash
        | Lawful(cfg) && cfg.layout == layout && cfg.lossy == lossy && Reachable(cfg, s)
          && Run(cfg, s, events).Some? && CounterSettled(s) && OnlyBoots(cfg, s, events, hash)
        ensures Boots(cfg, s, events).1 <= cfg.maxBoots
      {
        BootsAreBounded(cfg, s, events, hash);
      }
    }
  }
}
