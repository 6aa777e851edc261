/** What holds in every run of the device protocol, through any number of update cycles, boots, rollbacks,
    failed directory fsyncs, kills and power losses. */
module DeviceSafety {
  import opened Wrappers
  import opened Hex
  import opened Primitives
  import opened Messages
  import opened Acceptance
  import opened Device

  ghost predicate Lawful(cfg: Config) {
    cfg.crypto.Lawful() && WellFormedPairs(cfg.signed) && cfg.maxBoots >= 1
  }

  // ---------------------------------------------------------------------------
  // Only authorised binaries, whatever the layout and whatever is synced
  // ---------------------------------------------------------------------------

  ghost predicate Trusted(cfg: Config, f: Files) {
    Authorised(cfg, Sha(cfg, f.a)) && Authorised(cfg, Sha(cfg, f.b))
  }

  ghost predicate AllTrusted(cfg: Config, d: Disk) {
    Trusted(cfg, d.files) && forall i :: 0 <= i < |d.older| ==> Trusted(cfg, d.older[i])
  }

  ghost predicate TrustInv(cfg: Config, s: State) {
    AllTrusted(cfg, s.disk) && (s.proc.Ready? ==> Sha(cfg, s.proc.bin) == s.proc.target && Authorised(cfg, s.proc.target))
  }

  lemma TrustChanged(cfg: Config, d: Disk, f: Files)
    requires AllTrusted(cfg, d) && Trusted(cfg, f)
    ensures AllTrusted(cfg, d.Changed(f))
    ensures AllTrusted(cfg, d.Changed(f).SlotsSynced(cfg.layout)) && AllTrusted(cfg, d.Changed(f).StateSynced(cfg.layout))
  {
    hide Authorised;
  }

  lemma TrustImage(cfg: Config, d: Disk, i: nat, j: nat)
    requires AllTrusted(cfg, d) && i < |d.Images()| && j < |d.Images()|
    ensures Trusted(cfg, d.Image(i, j))
  {
    hide Authorised;
  }

  lemma PreparedIsSigned(cfg: Config, s: State, resp: ManifestResponse, transfer: Bytes)
    requires Lawful(cfg) && Unforged(cfg.crypto, cfg.signed, resp) && Accept(cfg.crypto, resp, s.disk.Active(), transfer).Ok?
    ensures Authorised(cfg, resp.targetHash)
    ensures Sha(cfg, Accept(cfg.crypto, resp, s.disk.Active(), transfer).value) == resp.targetHash
  {
    hide Accept, Unforged, Crypto.Lawful, WellFormedPairs;
    AcceptedIsSigned(cfg.crypto, cfg.signed, resp, s.disk.Active(), transfer);
  }

  lemma TrustStep(cfg: Config, s: State, e: Event)
    requires Lawful(cfg) && TrustInv(cfg, s) && Step(cfg, s, e).Some?
    ensures TrustInv(cfg, Step(cfg, s, e).value)
  {
    hide Authorised, Lawful, Accept, Unforged, Disk.Image, Disk.Changed, Disk.SlotsSynced, Disk.StateSynced, Files.CountFor, Allowed;
    var d, f := s.disk, s.disk.files;
    TrustChanged(cfg, d, f.(marker := None));
    TrustChanged(cfg, d, f.(boots := None));
    TrustChanged(cfg, d, f.(cooldown := None));
    match e
    case Boot(_) => TrustChanged(cfg, d, f.(boots := Some(BootCount(Sha(cfg, d.Active()), f.CountFor(Sha(cfg, d.Active())) + 1))));
    case Prepare(resp, transfer) => PreparedIsSigned(cfg, s, resp, transfer);
    case PowerLoss(_, i, j) => TrustImage(cfg, d, i, j);
    case StageSlot(_) => TrustChanged(cfg, d, f.Written(d.link.Other(), s.proc.bin));
    case WriteMarker(_) => TrustChanged(cfg, d, f.(marker := Some(Marker(s.proc.previous, s.proc.target))));
    case ArmCooldown(until, _) => TrustChanged(cfg, d, f.(cooldown := until));
    case _ =>
  }

  // ---------------------------------------------------------------------------
  // The way back, with all files in one directory, whatever is synced
  // ---------------------------------------------------------------------------

  /** The slots hold the two binaries the marker names, one each. */
  ghost predicate Pair(cfg: Config, f: Files, m: Marker) {
    || (Sha(cfg, f.a) == m.next && Sha(cfg, f.b) == m.previous)
    || (Sha(cfg, f.b) == m.next && Sha(cfg, f.a) == m.previous)
  }

  ghost predicate Lands(cfg: Config, f: Files) {
    f.marker.Some? ==> Pair(cfg, f, f.marker.value)
  }

  ghost predicate AllLand(cfg: Config, d: Disk) {
    Lands(cfg, d.files) && forall i :: 0 <= i < |d.older| ==> Lands(cfg, d.older[i])
  }

  /** What the agent may rely on at each point of a phase. */
  ghost predicate ProcInv(cfg: Config, s: State) {
    var active, inactive := Sha(cfg, s.disk.Active()), Sha(cfg, s.disk.Inactive());
    var marker := s.disk.files.marker;
    match s.proc
    case Booting => true
    case Watching(m) => marker == Some(m) && m.next == active
    case Healthy(m) => marker == Some(m) && m.next == active
    case Confirmed(m) => marker == Some(m) && m.next == active
    case RollingBack(m) => marker == Some(m) && m.next == active
    case RolledBack(m) => marker == Some(m) && active == m.previous && inactive == m.next
    case RolledBackReset(m) => marker == Some(m) && active == m.previous && inactive == m.next
    case Idle => marker == None
    case Ready(p, t, bin) => marker == None && p == active && Sha(cfg, bin) == t
    case Staged(p, t) => marker == None && p == active && t == inactive
    case Marked(p, t) => marker == Some(Marker(p, t)) && p == active && t == inactive
    case Swapped(p, t) => marker == Some(Marker(p, t)) && t == active && p == inactive
    case Cleared(p, t) => marker == None && t == active && p == inactive
    case Reverted => marker == None
  }

  ghost predicate LandInv(cfg: Config, s: State) {
    AllLand(cfg, s.disk) && ProcInv(cfg, s)
  }

  lemma LandChanged(cfg: Config, d: Disk, f: Files)
    requires cfg.layout.Shared? && AllLand(cfg, d) && Lands(cfg, f)
    ensures AllLand(cfg, d.Changed(f))
    ensures AllLand(cfg, d.Changed(f).SlotsSynced(cfg.layout)) && AllLand(cfg, d.Changed(f).StateSynced(cfg.layout))
  {
    hide Pair;
  }

  lemma LandImage(cfg: Config, d: Disk, i: nat, j: nat)
    requires cfg.layout.Shared? && AllLand(cfg, d) && d.MayLeave(cfg.layout, i, j)
    ensures Lands(cfg, d.Image(i, j)) && d.Image(i, j) == d.Images()[i]
  {
    hide Pair;
  }

  /** A pair whose new half is active has its old half in the other slot. */
  lemma PairTurns(cfg: Config, f: Files, link: Slot)
    requires Lands(cfg, f) && f.Names(Sha(cfg, f.At(link)))
    ensures Sha(cfg, f.At(link.Other())) == f.marker.value.previous
  {
  }

  lemma CachedLands(cfg: Config, d: Disk)
    requires AllLand(cfg, d)
    ensures Lands(cfg, d.files)
  {
    hide Lands;
  }

  lemma ProcStep(cfg: Config, s: State, e: Event)
    requires Lawful(cfg) && cfg.layout.Shared? && LandInv(cfg, s) && Step(cfg, s, e).Some?
    ensures ProcInv(cfg, Step(cfg, s, e).value)
  {
    hide AllLand, Pair, Lawful, Accept, Unforged, Files.CountFor, Allowed, Disk.Image, Sha;
    if e.Prepare? { PreparedIsSigned(cfg, s, e.resp, e.transfer); }
    if s.proc.RollingBack? {
      CachedLands(cfg, s.disk);
      PairTurns(cfg, s.disk.files, s.disk.link);
    }
  }

  lemma LandStep(cfg: Config, s: State, e: Event)
    requires Lawful(cfg) && cfg.layout.Shared? && LandInv(cfg, s) && Step(cfg, s, e).Some?
    ensures LandInv(cfg, Step(cfg, s, e).value)
  {
    hide Lawful, Accept, Unforged, Disk.Image, Disk.Changed, Disk.SlotsSynced, Disk.StateSynced, Files.CountFor, Allowed;
    ProcStep(cfg, s, e);
    var d, f := s.disk, s.disk.files;
    LandChanged(cfg, d, f.(marker := None));
    LandChanged(cfg, d, f.(boots := None));
    LandChanged(cfg, d, f.(cooldown := None));
    match e
    case Boot(_) => LandChanged(cfg, d, f.(boots := Some(BootCount(Sha(cfg, d.Active()), f.CountFor(Sha(cfg, d.Active())) + 1))));
    case PowerLoss(_, i, j) => LandImage(cfg, d, i, j);
    case StageSlot(_) => LandChanged(cfg, d, f.Written(d.link.Other(), s.proc.bin));
    case WriteMarker(_) => LandChanged(cfg, d, f.(marker := Some(Marker(s.proc.previous, s.proc.target))));
    case ArmCooldown(until, _) => LandChanged(cfg, d, f.(cooldown := until));
    case _ =>
  }

  // ---------------------------------------------------------------------------
  // A marker for everything unconfirmed, with markers and link flips synced
  // ---------------------------------------------------------------------------

  /** Confirmed, or known to have lost its marker. */
  function Known(s: State): set<string> { s.confirmed + s.lost }

  /** This image of the slots directory under link `l` does not leave the device with an unmarked novelty. */
  ghost predicate Guarded(cfg: Config, s: State, l: Slot, f: Files) {
    var active := Sha(cfg, f.At(l));
    active in Known(s) || f.Names(active)
  }

  ghost predicate Synced(cfg: Config) {
    cfg.layout.Shared? && !cfg.lossy.marker && !cfg.lossy.link
  }

  ghost predicate GuardOf(cfg: Config, s: State, f: Files) {
    && f.At(s.disk.link) == s.disk.Active()
    && (s.disk.files.marker.Some? ==> f.a == s.disk.files.a && f.b == s.disk.files.b)
    && (f.marker.Some? ==> f.marker.value.previous in Known(s))
    && (!s.proc.Cleared? ==> Guarded(cfg, s, s.disk.link, f))
  }

  ghost predicate GuardInv(cfg: Config, s: State) {
    var older := s.disk.older;
    && s.disk.links == [] && GuardOf(cfg, s, s.disk.files)
    && (forall i :: 0 <= i < |older| ==> GuardOf(cfg, s, older[i]))
    && match s.proc
       case Healthy(m) => m.next in s.confirmed
       case Confirmed(m) => m.next in s.confirmed
       case Marked(_, _) => older == []
       case Swapped(_, _) => older == []
       case Cleared(p, t) =>
         && p in Known(s)
         && forall i :: 0 <= i < |older| ==> older[i].marker == Some(Marker(p, t)) && older[i].a == s.disk.files.a && older[i].b == s.disk.files.b
       case _ => true
  }

  ghost predicate SafeInv(cfg: Config, s: State) {
    LandInv(cfg, s) && GuardInv(cfg, s)
  }

  lemma GuardBoot(cfg: Config, s: State, synced: bool)
    requires Synced(cfg) && SafeInv(cfg, s) && s.proc.Booting?
    ensures GuardInv(cfg, BootStep(cfg, s, synced))
  {
    hide Lands, Files.CountFor;
  }

  lemma GuardHealth(cfg: Config, s: State)
    requires SafeInv(cfg, s) && s.proc.Watching?
    ensures GuardInv(cfg, s.(proc := Healthy(s.proc.m), confirmed := s.confirmed + {s.proc.m.next}))
    ensures GuardInv(cfg, s.(proc := RollingBack(s.proc.m)))
  {
    hide Lands;
  }

  lemma GuardCounter(cfg: Config, s: State)
    requires SafeInv(cfg, s)
    ensures s.proc.Healthy? ==> GuardInv(cfg, WithoutCounter(s, Confirmed(s.proc.m)))
    ensures s.proc.RolledBack? ==> GuardInv(cfg, WithoutCounter(s, RolledBackReset(s.proc.m)))
  {
    hide Lands;
  }

  lemma GuardMarker(cfg: Config, s: State)
    requires SafeInv(cfg, s)
    ensures s.proc.Confirmed? ==> GuardInv(cfg, WithoutMarker(s, Idle))
    ensures s.proc.RolledBackReset? ==> GuardInv(cfg, WithoutMarker(s, Booting))
    ensures s.proc.Swapped? ==> GuardInv(cfg, WithoutMarker(s, Cleared(s.proc.previous, s.proc.target)))
  {
    hide Lands;
  }

  lemma GuardFlip(cfg: Config, s: State)
    requires SafeInv(cfg, s)
    ensures s.proc.RollingBack? ==> GuardInv(cfg, Flipped(s, true, RolledBack(s.proc.m)))
    ensures s.proc.Marked? ==> GuardInv(cfg, Flipped(s, true, Swapped(s.proc.previous, s.proc.target)))
    ensures s.proc.Cleared? ==> GuardInv(cfg, Flipped(s, true, Reverted))
  {
    if s.proc.RollingBack? { PairTurns(cfg, s.disk.files, s.disk.link); }
    hide Lands;
  }

  lemma GuardStage(cfg: Config, s: State, synced: bool)
    requires Synced(cfg) && SafeInv(cfg, s) && s.proc.Ready?
    ensures GuardInv(cfg, StagedFrom(cfg, s, synced))
  {
    hide Lands;
  }

  lemma GuardMark(cfg: Config, s: State)
    requires Synced(cfg) && SafeInv(cfg, s) && s.proc.Staged?
    ensures GuardInv(cfg, MarkedFrom(cfg, s, true))
  {
    hide Lands;
  }

  lemma GuardCooling(cfg: Config, s: State, until: Option<int>, synced: bool)
    requires Synced(cfg) && SafeInv(cfg, s)
    ensures s.proc.Idle? ==> GuardInv(cfg, s.(disk := s.disk.Changed(s.disk.files.(cooldown := None))))
    ensures s.proc.Reverted? ==> GuardInv(cfg, Cooling(cfg, s, until, synced))
  {
    hide Lands;
  }

  lemma GuardKill(cfg: Config, s: State)
    requires SafeInv(cfg, s)
    ensures GuardInv(cfg, Down(s, s.disk))
  {
    hide Lands;
  }

  lemma GuardPowerLoss(cfg: Config, s: State, l: nat, i: nat, j: nat)
    requires cfg.layout.Shared? && SafeInv(cfg, s) && l < |s.disk.Links()| && s.disk.MayLeave(cfg.layout, i, j)
    ensures GuardInv(cfg, Down(s, PowerLost(s.disk, l, i, j)))
  {
    hide Lands;
    var f := s.disk.Images()[i];
    assert s.disk.Image(i, j) == f;
    assert GuardOf(cfg, s, f);
  }

  lemma GuardProc(cfg: Config, s: State)
    requires SafeInv(cfg, s)
    ensures s.proc.Idle? ==> forall p, t, bin :: GuardInv(cfg, s.(proc := Ready(p, t, bin)))
    ensures s.proc.Swapped? ==> GuardInv(cfg, s.(proc := Booting))
  {
    hide LandInv;
  }

  lemma GuardStep(cfg: Config, s: State, e: Event)
    requires Lawful(cfg) && Synced(cfg) && SafeInv(cfg, s) && Step(cfg, s, e).Some?
    ensures GuardInv(cfg, Step(cfg, s, e).value)
  {
    hide SafeInv, GuardInv, Lawful, Accept, Unforged, BootStep, Flipped, WithoutMarker, WithoutCounter, Down, StagedFrom, MarkedFrom, Cooling;
    match e
    case Boot(y) => GuardBoot(cfg, s, y);
    case HealthOk => GuardHealth(cfg, s);
    case HealthFailed => GuardHealth(cfg, s);
    case ResetCounter => GuardCounter(cfg, s);
    case ClearMarker => GuardMarker(cfg, s);
    case ClearCooldown => GuardCooling(cfg, s, None, true);
    case Prepare(resp, transfer) => GuardProc(cfg, s);
    case StageSlot(y) => GuardStage(cfg, s, y);
    case WriteMarker(_) => GuardMark(cfg, s);
    case FlipLink(_) => GuardFlip(cfg, s);
    case RestartOk => GuardProc(cfg, s);
    case RestartFailed => GuardMarker(cfg, s);
    case ArmCooldown(until, y) => GuardCooling(cfg, s, until, y);
    case Killed => GuardKill(cfg, s);
    case PowerLoss(l, i, j) => GuardPowerLoss(cfg, s, l, i, j);
  }

  // ---------------------------------------------------------------------------
  // Reachable states
  // ---------------------------------------------------------------------------

  ghost predicate Inv(cfg: Config, s: State) {
    && TrustInv(cfg, s)
    && (cfg.layout.Shared? ==> LandInv(cfg, s))
    && (Synced(cfg) ==> GuardInv(cfg, s))
  }

  lemma InitInv(cfg: Config, s: State)
    requires Init(cfg, s)
    ensures Inv(cfg, s)
  {
  }

  /** Each step keeps as much as its layout and its fsyncs allow. */
  lemma StepInv(cfg: Config, s: State, e: Event)
    requires Lawful(cfg) && Inv(cfg, s) && Step(cfg, s, e).Some?
    ensures Inv(cfg, Step(cfg, s, e).value)
  {
    hide Lawful, TrustInv, LandInv, GuardInv, Step;
    TrustStep(cfg, s, e);
    if cfg.layout.Shared? { LandStep(cfg, s, e); }
    if Synced(cfg) { GuardStep(cfg, s, e); }
  }

  lemma {:induction false} RunInv(cfg: Config, s: State, events: seq<Event>)
    requires Lawful(cfg) && Inv(cfg, s) && Run(cfg, s, events).Some?
    ensures Inv(cfg, Run(cfg, s, events).value)
  {
    hide Inv, Step;
    if events == [] {
      assert Run(cfg, s, events) == Some(s);
    } else {
      RunInv(cfg, s, events[..|events| - 1]);
      StepInv(cfg, Run(cfg, s, events[..|events| - 1]).value, events[|events| - 1]);
    }
  }

  lemma ReachableInv(cfg: Config, s: State)
    requires Lawful(cfg) && Reachable(cfg, s)
    ensures Inv(cfg, s)
  {
    hide Inv, Step, Init;
    var s0, events :| Init(cfg, s0) && Run(cfg, s0, events) == Some(s);
    InitInv(cfg, s0);
    RunInv(cfg, s0, events);
  }

  lemma StepLinks(cfg: Config, s: State, e: Event)
    requires !cfg.lossy.link && s.disk.links == [] && Step(cfg, s, e).Some?
    ensures Step(cfg, s, e).value.disk.links == []
  {
    hide Accept, Unforged, Files.CountFor, Sha, Disk.Image;
  }

  lemma {:induction false} RunLinks(cfg: Config, s: State, events: seq<Event>)
    requires !cfg.lossy.link && s.disk.links == [] && Run(cfg, s, events).Some?
    ensures Run(cfg, s, events).value.disk.links == []
  {
    if events == [] {
      assert Run(cfg, s, events) == Some(s);
    } else {
      hide Step;
      RunLinks(cfg, s, events[..|events| - 1]);
      StepLinks(cfg, Run(cfg, s, events[..|events| - 1]).value, events[|events| - 1]);
    }
  }

  /** Synced flips leave nothing unsettled. */
  lemma LinksSettle(cfg: Config, s: State)
    requires !cfg.lossy.link && Reachable(cfg, s)
    ensures s.disk.links == []
  {
    hide Run;
    var s0, events :| Init(cfg, s0) && Run(cfg, s0, events) == Some(s);
    RunLinks(cfg, s0, events);
  }

  lemma ReachableLands(cfg: Config, s: State)
    requires Lawful(cfg) && cfg.layout.Shared? && Reachable(cfg, s)
    ensures AllLand(cfg, s.disk) && ProcInv(cfg, s)
  {
    hide TrustInv, GuardInv, Reachable, AllLand, ProcInv;
    ReachableInv(cfg, s);
  }

  lemma ReachableGuard(cfg: Config, s: State)
    requires Lawful(cfg) && Synced(cfg) && Reachable(cfg, s)
    ensures GuardInv(cfg, s) && ProcInv(cfg, s)
  {
    hide TrustInv, GuardInv, Reachable, AllLand, ProcInv;
    ReachableInv(cfg, s);
  }

  // ---------------------------------------------------------------------------
  // Main results
  // ---------------------------------------------------------------------------

  /** In every reachable state of either layout, and whatever a power loss would leave of link and files, synced
      or not, the active slot holds a binary that was provisioned or has the target digest of a pair the server
      signed. */
  lemma ActiveIsAuthorised(cfg: Config, s: State, l: nat, i: nat, j: nat)
    requires Lawful(cfg) && Reachable(cfg, s) && l < |s.disk.Links()| && s.disk.MayLeave(cfg.layout, i, j)
    ensures Authorised(cfg, Sha(cfg, s.disk.Active())) && Authorised(cfg, Sha(cfg, PowerLost(s.disk, l, i, j).Active()))
  {
    hide Reachable, LandInv, GuardInv, Authorised;
    ReachableInv(cfg, s);
    TrustImage(cfg, s.disk, i, j);
  }

  /** In either layout, no step but a power loss changes the slot the link names; and a power loss leaves it as it
      was when neither the files nor the link had anything unsettled. */
  lemma ActiveIsNeverWritten(cfg: Config, s: State, e: Event)
    requires Step(cfg, s, e).Some?
    ensures !e.PowerLoss? ==> Step(cfg, s, e).value.disk.files.At(s.disk.link) == s.disk.Active()
    ensures e.PowerLoss? && s.disk.links == [] && s.disk.older == [] ==> Step(cfg, s, e).value.disk.Active() == s.disk.Active()
  {
    hide Accept, Unforged, Files.CountFor, Allowed, Sha;
  }

  /** Whenever the marker names the active binary, in the cache or in what a power loss would leave of files and
      link, the other slot holds the binary it was updated from: whatever directory fsyncs failed, and even when
      the two have the same digest. */
  lemma MarkerNamesTheWayBack(cfg: Config, s: State, l: nat, i: nat)
    requires Lawful(cfg) && cfg.layout.Shared? && Reachable(cfg, s) && l < |s.disk.Links()| && i < |s.disk.Images()|
    requires s.disk.Images()[i].Names(Sha(cfg, s.disk.Images()[i].At(s.disk.Links()[l])))
    ensures var f := s.disk.Images()[i]; Sha(cfg, f.At(s.disk.Links()[l].Other())) == f.marker.value.previous
  {
    hide Reachable, ProcInv, Lands;
    ReachableLands(cfg, s);
    PairTurns(cfg, s.disk.Images()[i], s.disk.Links()[l]);
  }

  /** So the unchecked toggle of a rollback lands on the pre-update binary. */
  lemma RollbackLands(cfg: Config, s: State, y: bool)
    requires Lawful(cfg) && cfg.layout.Shared? && Reachable(cfg, s) && s.proc.RollingBack? && Allowed(cfg.lossy, FlipLink(y))
    ensures Step(cfg, s, FlipLink(y)).Some?
    ensures var t := Step(cfg, s, FlipLink(y)).value;
            Sha(cfg, t.disk.Active()) == s.proc.m.previous && Sha(cfg, t.disk.Inactive()) == s.proc.m.next
  {
    hide Reachable;
    ReachableLands(cfg, s);
  }

  /** A failed restart is undone the same way: the cycle ends on the binary it started from. */
  lemma FailedRestartIsUndone(cfg: Config, s: State, y: bool)
    requires Lawful(cfg) && cfg.layout.Shared? && Reachable(cfg, s) && s.proc.Cleared? && Allowed(cfg.lossy, FlipLink(y))
    ensures Step(cfg, s, FlipLink(y)).Some?
    ensures Sha(cfg, Step(cfg, s, FlipLink(y)).value.disk.Active()) == s.proc.previous
  {
    hide Reachable, AllLand;
    ReachableLands(cfg, s);
  }

  /** With one directory for the files, and markers and link flips synced, an active binary that was never
      confirmed has a pending marker naming it, in the cache and after any power loss. Excepted are the moment
      between the clear and the rollback of a failed restart, and binaries whose marker was lost in it. */
  lemma UnconfirmedIsMarked(cfg: Config, s: State, l: nat, i: nat)
    requires Lawful(cfg) && Synced(cfg) && Reachable(cfg, s) && !s.proc.Cleared?
    requires l < |s.disk.Links()| && i < |s.disk.Images()|
    ensures Guarded(cfg, s, s.disk.Links()[l], s.disk.Images()[i])
  {
    hide Reachable, ProcInv;
    ReachableGuard(cfg, s);
    assert GuardOf(cfg, s, s.disk.Images()[i]);
  }

  /** Going down in that moment leaves an unconfirmed binary without a marker exactly when it had not been
      confirmed before and the removal of the marker survives. */
  lemma WindowLosesTheMarkerIff(cfg: Config, s: State, i: nat)
    requires Lawful(cfg) && Synced(cfg) && Reachable(cfg, s) && s.proc.Cleared? && i < |s.disk.Images()|
    ensures var f := s.disk.Images()[i]; var active := Sha(cfg, f.At(s.disk.link));
      && active == s.proc.target && s.disk.Links() == [s.disk.link]
      && (active !in s.confirmed && !f.Names(active) <==> s.proc.target !in s.confirmed && i == |s.disk.older|)
  {
    hide Reachable;
    ReachableGuard(cfg, s);
    assert GuardOf(cfg, s, s.disk.Images()[i]);
  }

  /** As long as it does not happen again, nothing else becomes excepted... */
  lemma LostOnlyInTheWindow(cfg: Config, s: State, e: Event)
    requires Step(cfg, s, e).Some? && !(s.proc.Cleared? && (e.Killed? || e.PowerLoss?))
    ensures Step(cfg, s, e).value.lost <= s.lost && s.confirmed <= Step(cfg, s, e).value.confirmed
  {
    hide Accept, Unforged, Files.CountFor, Allowed, Sha;
  }

  /** No kill and no power loss falls between the clear and the rollback of a failed restart. */
  ghost predicate AvoidsWindow(cfg: Config, s: State, events: seq<Event>)
    requires Run(cfg, s, events).Some?
  {
    events == [] ||
    var rest, e := events[..|events| - 1], events[|events| - 1];
    AvoidsWindow(cfg, s, rest) && !(Run(cfg, s, rest).value.proc.Cleared? && (e.Killed? || e.PowerLoss?))
  }

  lemma {:induction false} NothingLost(cfg: Config, s: State, events: seq<Event>)
    requires s.lost == {} && Run(cfg, s, events).Some? && AvoidsWindow(cfg, s, events)
    ensures Run(cfg, s, events).value.lost == {}
  {
    hide Step;
    if events == [] {
      assert Run(cfg, s, events) == Some(s);
    } else {
      NothingLost(cfg, s, events[..|events| - 1]);
      LostOnlyInTheWindow(cfg, Run(cfg, s, events[..|events| - 1]).value, events[|events| - 1]);
    }
  }

  /** So over every run from a provisioned device that avoids the window, an active binary that was never confirmed
      has a marker naming it, in the cache and after any power loss, with no exception but the window itself. */
  lemma UnconfirmedIsMarkedOutsideTheWindow(cfg: Config, s0: State, events: seq<Event>, l: nat, i: nat)
    requires Lawful(cfg) && Synced(cfg) && Init(cfg, s0) && Run(cfg, s0, events).Some? && AvoidsWindow(cfg, s0, events)
    requires !Run(cfg, s0, events).value.proc.Cleared?
    requires l < |Run(cfg, s0, events).value.disk.Links()| && i < |Run(cfg, s0, events).value.disk.Images()|
    ensures var s := Run(cfg, s0, events).value;
      var f := s.disk.Images()[i];
      var active := Sha(cfg, f.At(s.disk.Links()[l]));
      active !in s.confirmed ==> f.Names(active)
  {
    hide Run, AvoidsWindow, Lawful, Synced;
    NothingLost(cfg, s0, events);
    assert Reachable(cfg, Run(cfg, s0, events).value);
    UnconfirmedIsMarked(cfg, Run(cfg, s0, events).value, l, i);
  }

  /** ...and from the marker of the next cycle on, nothing is any more, once the active binary is a confirmed one. */
  lemma NextMarkerCoversAll(cfg: Config, s: State)
    requires Lawful(cfg) && Synced(cfg) && Reachable(cfg, s) && s.proc.Staged? && Sha(cfg, s.disk.Active()) in s.confirmed
    ensures Step(cfg, s, WriteMarker(true)).Some?
    ensures Step(cfg, s, WriteMarker(true)).value.lost <= s.confirmed
  {
    hide Reachable, GuardInv;
    ReachableGuard(cfg, s);
  }

  // ---------------------------------------------------------------------------
  // The boot counter
  // ---------------------------------------------------------------------------

  /** A CheckBoot: BootPhase finds a marker naming the active binary. */
  ghost predicate ChecksBoot(cfg: Config, s: State, e: Event) {
    e.Boot? && s.proc.Booting? && s.disk.files.Names(Sha(cfg, s.disk.Active()))
  }

  /** How many CheckBoots a run makes, and how many of them open the health window. */
  ghost function Boots(cfg: Config, s: State, events: seq<Event>): (n: (nat, nat))
    requires Run(cfg, s, events).Some?
    ensures n.1 <= n.0
  {
    if events == [] then (0, 0)
    else
      var rest, e := events[..|events| - 1], events[|events| - 1];
      var t := Run(cfg, s, rest).value;
      var (all, entered) := Boots(cfg, s, rest);
      if !ChecksBoot(cfg, t, e) then (all, entered)
      else (all + 1, if Step(cfg, t, e).value.proc.Watching? then entered + 1 else entered)
  }

  /** Every CheckBoot of the run is for `hash`, and the counter file is never removed. */
  ghost predicate OnlyBoots(cfg: Config, s: State, events: seq<Event>, hash: string)
    requires Run(cfg, s, events).Some?
  {
    events == [] ||
    var rest, e := events[..|events| - 1], events[|events| - 1];
    var t := Run(cfg, s, rest).value;
    OnlyBoots(cfg, s, rest, hash) && !e.ResetCounter? && (ChecksBoot(cfg, t, e) ==> Sha(cfg, t.disk.Active()) == hash)
  }

  /** Every image a power loss may leave has the same counter. */
  ghost predicate CounterSettled(s: State) {
    forall i :: 0 <= i < |s.disk.older| ==> s.disk.older[i].boots == s.disk.files.boots
  }

  lemma BootCounts(cfg: Config, s: State, hash: string)
    requires CounterSettled(s) && s.proc.Booting? && (ChecksBoot(cfg, s, Boot(true)) ==> Sha(cfg, s.disk.Active()) == hash)
    ensures var t := BootStep(cfg, s, true);
            var checks := ChecksBoot(cfg, s, Boot(true));
            && CounterSettled(t)
            && t.disk.files.CountFor(hash) == s.disk.files.CountFor(hash) + (if checks then 1 else 0)
            && (checks ==> if t.disk.files.CountFor(hash) <= cfg.maxBoots then t.proc.Watching? else t.proc.RollingBack?)
  {
    hide Sha, Authorised;
  }

  ghost predicate SettledDisk(d: Disk) {
    forall i :: 0 <= i < |d.older| ==> d.older[i].boots == d.files.boots
  }

  lemma SettledChanged(layout: Layout, d: Disk, f: Files)
    requires SettledDisk(d) && f.boots == d.files.boots
    ensures SettledDisk(d.Changed(f)) && d.Changed(f).files.boots == d.files.boots
    ensures SettledDisk(d.Changed(f).SlotsSynced(layout)) && d.Changed(f).SlotsSynced(layout).files.boots == d.files.boots
    ensures SettledDisk(d.Changed(f).StateSynced(layout)) && d.Changed(f).StateSynced(layout).files.boots == d.files.boots
  {
  }

  lemma SettledLost(d: Disk, l: nat, i: nat, j: nat)
    requires SettledDisk(d) && l < |d.Links()| && i < |d.Images()| && j < |d.Images()|
    ensures SettledDisk(PowerLost(d, l, i, j)) && PowerLost(d, l, i, j).files.boots == d.files.boots
  {
  }

  lemma SettledTurned(d: Disk, slot: Slot, y: bool)
    ensures SettledDisk(d.Linked(slot, y)) <==> SettledDisk(d)
  {
  }

  lemma SettledIs(s: State)
    ensures CounterSettled(s) <==> SettledDisk(s.disk)
  {
  }

  /** Every other step leaves the counter alone. */
  lemma OthersDoNotCount(cfg: Config, s: State, e: Event)
    requires Step(cfg, s, e).Some? && CounterSettled(s) && !e.ResetCounter? && !e.Boot?
    ensures CounterSettled(Step(cfg, s, e).value) && Step(cfg, s, e).value.disk.files.boots == s.disk.files.boots
  {
    hide Accept, Unforged, Sha, Authorised, Disk.Changed, Disk.SlotsSynced, Disk.StateSynced, PowerLost, SettledDisk, BootStep, Allowed;
    var d, f := s.disk, s.disk.files;
    SettledIs(s);
    SettledIs(Step(cfg, s, e).value);
    SettledChanged(cfg.layout, d, f.(marker := None));
    SettledChanged(cfg.layout, d, f.(cooldown := None));
    match e
    case PowerLoss(l, i, j) => SettledLost(d, l, i, j);
    case StageSlot(_) => SettledChanged(cfg.layout, d, f.Written(d.link.Other(), s.proc.bin));
    case WriteMarker(_) => SettledChanged(cfg.layout, d, f.(marker := Some(Marker(s.proc.previous, s.proc.target))));
    case ArmCooldown(until, _) => SettledChanged(cfg.layout, d, f.(cooldown := until));
    case FlipLink(y) => SettledTurned(d, d.link.Other(), y);
    case _ =>
  }

  lemma BootIs(cfg: Config, s: State, synced: bool)
    requires s.proc.Booting? && Allowed(cfg.lossy, Boot(synced))
    ensures Step(cfg, s, Boot(synced)) == Some(BootStep(cfg, s, synced))
  {
    hide BootStep;
  }

  lemma BootsFrom(cfg: Config, s: State, synced: bool)
    requires Step(cfg, s, Boot(synced)).Some?
    ensures s.proc.Booting? && Allowed(cfg.lossy, Boot(synced))
  {
    hide BootStep;
  }

  lemma StepCounts(cfg: Config, s: State, e: Event, hash: string)
    requires !cfg.lossy.boots && Step(cfg, s, e).Some? && CounterSettled(s) && !e.ResetCounter?
    requires ChecksBoot(cfg, s, e) ==> Sha(cfg, s.disk.Active()) == hash
    ensures var t := Step(cfg, s, e).value;
            && CounterSettled(t)
            && t.disk.files.CountFor(hash) == s.disk.files.CountFor(hash) + (if ChecksBoot(cfg, s, e) then 1 else 0)
            && (ChecksBoot(cfg, s, e) ==>
                  if t.disk.files.CountFor(hash) <= cfg.maxBoots then t.proc.Watching? else t.proc.RollingBack?)
  {
    hide CounterSettled, BootStep, Sha;
    if e.Boot? {
      BootCounts(cfg, s, hash);
      BootsFrom(cfg, s, e.synced);
      BootIs(cfg, s, e.synced);
    } else {
      hide Step;
      OthersDoNotCount(cfg, s, e);
    }
  }

  /** Over any run without a counter reset, whatever kills and power losses it contains, the synced count
      grows by exactly one per CheckBoot, and exactly the first MaxBoots minus the initial count of them open
      the health window: every later one goes straight to the rollback. */
  lemma {:induction false} BootsAreBounded(cfg: Config, s: State, events: seq<Event>, hash: string)
    requires !cfg.lossy.boots && Run(cfg, s, events).Some? && CounterSettled(s) && OnlyBoots(cfg, s, events, hash)
    ensures var t := Run(cfg, s, events).value;
            var (all, entered) := Boots(cfg, s, events);
            var before := s.disk.files.CountFor(hash);
            && CounterSettled(t) && t.disk.files.CountFor(hash) == before + all
            && entered == if before + all <= cfg.maxBoots then all
                          else if before <= cfg.maxBoots then cfg.maxBoots - before else 0
  {
    hide Step, CounterSettled, ChecksBoot, Files.CountFor;
    if events == [] {
      assert Run(cfg, s, events) == Some(s);
    } else {
      var rest, e := events[..|events| - 1], events[|events| - 1];
      BootsAreBounded(cfg, s, rest, hash);
      StepCounts(cfg, Run(cfg, s, rest).value, e, hash);
    }
  }

  /** A boot whose count is not synced, and a power loss in its health window, are as if they had not been. */
  lemma UnsyncedBootVanishes(cfg: Config, s: State)
    requires cfg.lossy.boots && cfg.maxBoots >= 1 && s.proc.Booting? && s.disk.links == [] && s.disk.older == []
    requires s.disk.files.Names(Sha(cfg, s.disk.Active())) && s.disk.files.boots.None?
    ensures Step(cfg, s, Boot(false)).Some? && Step(cfg, s, Boot(false)).value.proc.Watching?
    ensures Step(cfg, Step(cfg, s, Boot(false)).value, PowerLoss(0, 0, 0)) == Some(s)
  {
    hide Accept, Unforged, Sha;
    var t := Step(cfg, s, Boot(false)).value;
    assert t.disk.Images()[0] == s.disk.files && t.disk.Image(0, 0) == s.disk.files;
  }

  /** One event more. */
  lemma BootsSnoc(cfg: Config, s: State, events: seq<Event>, t: State, e: Event, u: State, hash: string)
    requires Run(cfg, s, events) == Some(t) && Step(cfg, t, e) == Some(u)
    ensures Run(cfg, s, events + [e]) == Some(u)
    ensures OnlyBoots(cfg, s, events + [e], hash)
       <==> OnlyBoots(cfg, s, events, hash) && !e.ResetCounter? && (ChecksBoot(cfg, t, e) ==> Sha(cfg, t.disk.Active()) == hash)
    ensures var before, after := Boots(cfg, s, events), Boots(cfg, s, events + [e]);
            after == if !ChecksBoot(cfg, t, e) then before
                     else (before.0 + 1, if u.proc.Watching? then before.1 + 1 else before.1)
  {
    hide Step, ChecksBoot, Sha;
    assert (events + [e])[..|events + [e]| - 1] == events;
  }

  lemma {:induction false} UnsyncedBootsRepeat(cfg: Config, s: State, n: nat) returns (events: seq<Event>)
    requires cfg.lossy.boots && cfg.maxBoots >= 1 && s.proc.Booting? && s.disk.links == [] && s.disk.older == []
    requires s.disk.files.Names(Sha(cfg, s.disk.Active())) && s.disk.files.boots.None?
    ensures Run(cfg, s, events) == Some(s) && OnlyBoots(cfg, s, events, Sha(cfg, s.disk.Active())) && Boots(cfg, s, events) == (n, n)
  {
    hide Step, Sha, Disk.Active, Files.Names;
    if n == 0 {
      events := [];
    } else {
      hide Run, Boots, OnlyBoots;
      var hash := Sha(cfg, s.disk.Active());
      events := UnsyncedBootsRepeat(cfg, s, n - 1);
      UnsyncedBootVanishes(cfg, s);
      var t := Step(cfg, s, Boot(false)).value;
      BootsSnoc(cfg, s, events, s, Boot(false), t, hash);
      BootsSnoc(cfg, s, events + [Boot(false)], t, PowerLoss(0, 0, 0), s, hash);
      events := events + [Boot(false)] + [PowerLoss(0, 0, 0)];
    }
  }
}
