/** The update cycle and the boot phase as they run (`pkg/agent/updater.go`). Every durable change they make is
    a step of the device protocol, in the order the protocol gives, with its directory fsync succeeding or not: so a
    kill or power loss between any two of them, or between a rename and its fsync, is one of the runs that
    `DeviceSafety` is about. `DeviceFiles` proves the same changes of the directories underneath. */
module Updaters {
  import opened Wrappers
  import opened Hex
  import opened Primitives
  import opened Messages
  import opened Acceptance
  import opened Device
  import opened DeviceSafety
  import opened Slots
  import opened Watchdogs
  import T = Transfer
  import D = Downloading

  const STAGING := ".staging.delta"

  datatype BootResult =
    | Steady                // nil: the update loop may start
    | Interrupted           // error: the context, or a health check that ran out of time
    | RolledBackAndRestarted

  datatype CycleResult =
    | CoolingDown
    | HeartbeatFailed
    | UpToDate
    | NotReady
    | Blocked
    | Aborted(error: CycleError)
    | DownloadFailed(outcome: T.Outcome)
    | Replaced              // the new binary took over
    | RestartFailed         // it could not be started; undone

  /** `events` lead from `s` to `t`. */
  ghost predicate Leads(cfg: Config, s: State, events: seq<Event>, t: State) {
    Run(cfg, s, events) == Some(t)
  }

  lemma Stay(cfg: Config, s: State)
    ensures Leads(cfg, s, [], s)
  {
  }

  lemma Then(cfg: Config, s: State, events: seq<Event>, t: State, e: Event)
    requires Leads(cfg, s, events, t) && Step(cfg, t, e).Some?
    ensures Leads(cfg, s, events + [e], Step(cfg, t, e).value)
  {
    assert (events + [e])[..|events + [e]| - 1] == events;
  }

  /** How the directory fsyncs of a phase turn out. */
  datatype Syncs = Syncs(slot: bool, marker: bool, boots: bool, cooldown: bool, forward: bool, back: bool)

  predicate Permitted(lossy: Lossy, y: Syncs) {
    && (y.slot || lossy.slot) && (y.marker || lossy.marker) && (y.boots || lossy.boots) && (y.cooldown || lossy.cooldown)
    && ((y.forward && y.back) || lossy.link)
  }

  function RollbackEvents(y: Syncs): seq<Event> { [FlipLink(y.back), ResetCounter, ClearMarker] }

  /** What a cycle meets: the clock, the answer to its heartbeat, the verdict of the bump policy, the transport,
      whether the restart takes, and the directory fsyncs. */
  datatype Cycle = Cycle(now: int, answer: Option<ManifestResponse>, policyAllows: bool, net: T.Env, restarts: bool, syncs: Syncs)

  /** How the health window ends. One that ends on a timed-out check is reported like a cancelled context, and
      is not rolled back. */
  function WindowEvents(soFar: seq<Event>, window: Health, y: Syncs): (seq<Event>, BootResult) {
    match window
    case Passed => (soFar + [HealthOk, ResetCounter, ClearMarker], Steady)
    case CutShort => (soFar + [Killed], Interrupted)
    case NotPassed(last) =>
      if last.TimedOut? then (soFar + [Killed], Interrupted)
      else (soFar + [HealthFailed] + RollbackEvents(y), RolledBackAndRestarted)
  }

  /** The durable changes of a boot phase: what the marker and the counter say, then how the window ends. */
  function BootEvents(d: Disk, cfg: Config, window: Health, y: Syncs): (seq<Event>, BootResult) {
    var active := Sha(cfg, d.Active());
    if d.files.marker.None? || d.files.marker.value.next != active then ([Boot(y.boots)], Steady)
    else if d.files.CountFor(active) + 1 > cfg.maxBoots then ([Boot(y.boots)] + RollbackEvents(y), RolledBackAndRestarted)
    else WindowEvents([Boot(y.boots)], window, y)
  }

  /** The cooldown file is armed unless it is missing or zero. */
  predicate Armed(f: Files) { f.cooldown.Some? && f.cooldown.value != 0 }

  /** The cycle ends here before anything is downloaded; None when it goes on. */
  function EndsEarly(f: Files, forced: bool, c: Cycle, crypto: Crypto): Option<CycleResult> {
    if Armed(f) && c.now < f.cooldown.value && !forced then Some(CoolingDown)
    else match c.answer
         case None => Some(HeartbeatFailed)
         case Some(resp) =>
           if !resp.updateAvailable then Some(UpToDate)
           else if resp.retryAfter > 0 then Some(NotReady)
           else if resp.signature == "" || resp.targetHash == "" || resp.deltaHash == "" then Some(Aborted(MissingField))
           else if !forced && !c.policyAllows then Some(Blocked)
           else match CheckManifest(crypto, resp)
                case Some(e) => Some(Aborted(e))
                case None => None
  }

  /** The only change an early end may make: an armed cooldown that has expired or been overridden is removed. */
  function CooldownEvents(f: Files, forced: bool, c: Cycle): seq<Event> {
    if Armed(f) && (c.now >= f.cooldown.value || forced) then [ClearCooldown] else []
  }

  function StagingTarget(resp: ManifestResponse): T.Target { T.Target(resp.deltaHash, STAGING) }

  function UndoEvents(now: int, cooldown: int, y: Syncs): seq<Event> {
    [Event.RestartFailed, FlipLink(y.back), ArmCooldown(if cooldown <= 0 then None else Some(now + cooldown), y.cooldown)]
  }

  function LastEvents(c: Cycle, cooldown: int): seq<Event> {
    if c.restarts then [RestartOk] else UndoEvents(c.now, cooldown, c.syncs)
  }

  function ApplyEvents(c: Cycle, cooldown: int): seq<Event> {
    [StageSlot(c.syncs.slot), WriteMarker(c.syncs.marker), FlipLink(c.syncs.forward)] + LastEvents(c, cooldown)
  }

  /** The durable changes of an update that goes all the way. */
  function UpdateEvents(soFar: seq<Event>, resp: ManifestResponse, transfer: Bytes, c: Cycle, cooldown: int): seq<Event> {
    soFar + [Prepare(resp, transfer)] + ApplyEvents(c, cooldown)
  }

  /** A cycle that goes on: download, rebuild, and apply what has the promised digest. */
  function UpdatePart(d: Disk, c: Cycle, crypto: Crypto, cooldown: int, store: T.Store, resp: ManifestResponse, first: seq<Event>): (seq<Event>, CycleResult) {
    var (downloaded, o) := T.Download(store, StagingTarget(resp), c.net, crypto.sha256);
    if !o.Success? then (first, DownloadFailed(o))
    else
      var transfer := downloaded.At(STAGING);
      match Reconstruct(crypto, resp, d.Active(), transfer)
      case Err(e) => (first, Aborted(e))
      case Ok(_) => (UpdateEvents(first, resp, transfer, c, cooldown), if c.restarts then Replaced else CycleResult.RestartFailed)
  }

  /** A whole cycle: its result and its durable changes to slots, link and state files. */
  function CycleEvents(d: Disk, forced: bool, c: Cycle, crypto: Crypto, cooldown: int, store: T.Store): (seq<Event>, CycleResult) {
    var first := CooldownEvents(d.files, forced, c);
    match EndsEarly(d.files, forced, c, crypto)
    case Some(r) => (first, r)
    case None => UpdatePart(d, c, crypto, cooldown, store, c.answer.value, first)
  }

  // ---------------------------------------------------------------------------
  // What a cycle comes to, from what it meets
  // ---------------------------------------------------------------------------

  /** The last restart failed, and its cooldown is not over. */
  predicate InCooldown(f: Files, now: int) { f.cooldown.Some? && f.cooldown.value != 0 && now < f.cooldown.value }

  /** The heartbeat is sent: no cooldown is in force, or somebody has triggered an update by hand. */
  predicate Awake(f: Files, forced: bool, now: int) { forced || !InCooldown(f, now) }

  /** The answer is a manifest, and not "no update" or "retry later". */
  predicate IsOffer(answer: Option<ManifestResponse>) {
    && answer.Some? && answer.value.updateAvailable && answer.value.retryAfter <= 0
    && answer.value.signature != "" && answer.value.targetHash != "" && answer.value.deltaHash != ""
  }

  /** An update may be applied. */
  predicate MayUpdate(f: Files, forced: bool, c: Cycle) {
    Awake(f, forced, c.now) && IsOffer(c.answer) && (forced || c.policyAllows)
  }

  /** The transport brings the payload: one of its requests completes before the attempts are used up, however many are
      cut off before it. */
  ghost predicate Delivers(net: T.Env, resp: ManifestResponse, store: T.Store, sha256: Bytes -> string, payload: Bytes) {
    T.Clean(store, StagingTarget(resp), net.transport) && T.Faithful(net, payload) && T.SomeCompletes(net, 0, 0)
    && sha256(payload) == resp.deltaHash
  }

  /** Each result of a cycle, by what the device and the cycle are like. */
  ghost predicate ResultIs(d: Disk, forced: bool, c: Cycle, crypto: Crypto, store: T.Store, r: CycleResult) {
    var awake := Awake(d.files, forced, c.now);
    && (r.CoolingDown? <==> !awake)
    && (r.HeartbeatFailed? <==> awake && c.answer.None?)
    && (r.UpToDate? <==> awake && c.answer.Some? && !c.answer.value.updateAvailable)
    && (r.NotReady? <==> awake && c.answer.Some? && c.answer.value.updateAvailable && c.answer.value.retryAfter > 0)
    && (r.Blocked? <==> awake && IsOffer(c.answer) && !forced && !c.policyAllows)
    && (r.Replaced? ==> c.restarts) && (r.RestartFailed? ==> !c.restarts)
    && (r.Replaced? || r.RestartFailed? ==> MayUpdate(d.files, forced, c) && CheckManifest(crypto, c.answer.value).None?)
    && (MayUpdate(d.files, forced, c) && CheckManifest(crypto, c.answer.value).None? ==>
          forall payload ::
            Delivers(c.net, c.answer.value, store, crypto.sha256, payload) && Reconstruct(crypto, c.answer.value, d.Active(), payload).Ok?
            ==> r.Replaced? || r.RestartFailed?)
  }

  lemma EarlyResultIs(f: Files, forced: bool, c: Cycle, crypto: Crypto)
    ensures var early := EndsEarly(f, forced, c, crypto);
      && (early == Some(CoolingDown) <==> !Awake(f, forced, c.now))
      && (early == Some(HeartbeatFailed) <==> Awake(f, forced, c.now) && c.answer.None?)
      && (early == Some(UpToDate) <==> Awake(f, forced, c.now) && c.answer.Some? && !c.answer.value.updateAvailable)
      && (early == Some(NotReady) <==>
            Awake(f, forced, c.now) && c.answer.Some? && c.answer.value.updateAvailable && c.answer.value.retryAfter > 0)
      && (early == Some(Blocked) <==> Awake(f, forced, c.now) && IsOffer(c.answer) && !forced && !c.policyAllows)
      && (early.None? <==> MayUpdate(f, forced, c) && CheckManifest(crypto, c.answer.value).None?)
      && (early.Some? ==> !early.value.Replaced? && !early.value.RestartFailed? && !early.value.DownloadFailed?)
  {
    hide Crypto.Lawful;
  }

  lemma CycleResultIs(d: Disk, forced: bool, c: Cycle, crypto: Crypto, cooldown: int, store: T.Store)
    ensures ResultIs(d, forced, c, crypto, store, CycleEvents(d, forced, c, crypto, cooldown, store).1)
  {
    hide EndsEarly, CheckManifest, Reconstruct, T.Download, T.Clean, T.Faithful, T.SomeCompletes, IsOffer, Awake, CooldownEvents, UpdateEvents;
    EarlyResultIs(d.files, forced, c, crypto);
    if EndsEarly(d.files, forced, c, crypto).None? {
      forall payload | Delivers(c.net, c.answer.value, store, crypto.sha256, payload)
        ensures var (s, o) := T.Download(store, StagingTarget(c.answer.value), c.net, crypto.sha256); o.Success? && s.At(STAGING) == payload
      {
        T.SucceedsIffSomeRequestCompletes(store, StagingTarget(c.answer.value), c.net, crypto.sha256, payload);
      }
    }
  }

  lemma EarlyEnds(f: Files, forced: bool, c: Cycle, crypto: Crypto)
    ensures var early := EndsEarly(f, forced, c, crypto); early.Some? ==> !early.value.Replaced? && !early.value.RestartFailed?
  {
  }

  lemma GoesOn(f: Files, forced: bool, c: Cycle, crypto: Crypto)
    requires EndsEarly(f, forced, c, crypto).None?
    ensures c.answer.Some? && CheckManifest(crypto, c.answer.value).None?
  {
  }

  lemma UpdateSpelledOut(first: seq<Event>, resp: ManifestResponse, transfer: Bytes, c: Cycle, cooldown: int)
    ensures first + [Prepare(resp, transfer)] + ApplyEvents(c, cooldown) == UpdateEvents(first, resp, transfer, c, cooldown)
  {
  }

  /** The protocol's steps from a verified binary to a restart. */
  lemma ForwardSteps(cfg: Config, s: State, y: Syncs)
    requires Permitted(cfg.lossy, y)
    ensures s.proc.Ready? ==> Step(cfg, s, StageSlot(y.slot)) == Some(StagedFrom(cfg, s, y.slot))
    ensures s.proc.Staged? ==> Step(cfg, s, WriteMarker(y.marker)) == Some(MarkedFrom(cfg, s, y.marker))
    ensures s.proc.Marked? ==>
              Step(cfg, s, FlipLink(y.forward)) == Some(Flipped(s, y.forward, Swapped(s.proc.previous, s.proc.target)))
    ensures s.proc.Swapped? ==> Step(cfg, s, RestartOk) == Some(s.(proc := Booting))
  {
    hide StagedFrom, MarkedFrom, Flipped;
  }

  /** And those that take a failed restart back. */
  lemma BackwardSteps(cfg: Config, s: State, until: Option<int>, y: Syncs)
    requires Permitted(cfg.lossy, y)
    ensures s.proc.Swapped? ==>
              Step(cfg, s, Event.RestartFailed) == Some(WithoutMarker(s, Cleared(s.proc.previous, s.proc.target)))
    ensures s.proc.Cleared? ==> Step(cfg, s, FlipLink(y.back)) == Some(Flipped(s, y.back, Reverted))
    ensures s.proc.Reverted? ==> Step(cfg, s, ArmCooldown(until, y.cooldown)) == Some(Cooling(cfg, s, until, y.cooldown))
  {
    hide WithoutMarker, Flipped, Cooling;
  }

  lemma CooldownSteps(cfg: Config, s: State)
    requires s.proc.Idle?
    ensures var d := s.disk.Changed(s.disk.files.(cooldown := None));
            Step(cfg, s, ClearCooldown) == Some(s.(disk := d)) && d.link == s.disk.link && d.Active() == s.disk.Active()
  {
  }

  /** The steps of the boot phase after its first. */
  lemma BootSteps(cfg: Config, s: State, y: Syncs)
    requires Permitted(cfg.lossy, y)
    ensures s.proc.Watching? ==>
              && Step(cfg, s, HealthOk) == Some(s.(proc := Healthy(s.proc.m), confirmed := s.confirmed + {s.proc.m.next}))
              && Step(cfg, s, HealthFailed) == Some(s.(proc := RollingBack(s.proc.m)))
              && Step(cfg, s, Killed) == Some(Down(s, s.disk))
    ensures s.proc.Healthy? ==> Step(cfg, s, ResetCounter) == Some(WithoutCounter(s, Confirmed(s.proc.m)))
    ensures s.proc.Confirmed? ==> Step(cfg, s, ClearMarker) == Some(WithoutMarker(s, Idle))
    ensures s.proc.RollingBack? ==> Step(cfg, s, FlipLink(y.back)) == Some(Flipped(s, y.back, RolledBack(s.proc.m)))
    ensures s.proc.RolledBack? ==> Step(cfg, s, ResetCounter) == Some(WithoutCounter(s, RolledBackReset(s.proc.m)))
    ensures s.proc.RolledBackReset? ==> Step(cfg, s, ClearMarker) == Some(WithoutMarker(s, Booting))
  {
  }

  /** A manifest that passed its checks, a transfer with the promised digest and a binary rebuilt from it are
      what the protocol calls prepared. */
  lemma PrepareSteps(cfg: Config, s: State, resp: ManifestResponse, transfer: Bytes)
    requires s.proc.Idle? && Unforged(cfg.crypto, cfg.signed, resp)
    requires CheckManifest(cfg.crypto, resp).None? && cfg.crypto.sha256(transfer) == resp.deltaHash
    requires Reconstruct(cfg.crypto, resp, s.disk.Active(), transfer).Ok?
    ensures Step(cfg, s, Prepare(resp, transfer))
         == Some(s.(proc := Ready(Sha(cfg, s.disk.Active()), resp.targetHash,
                                  Reconstruct(cfg.crypto, resp, s.disk.Active(), transfer).value)))
  {
    hide CheckManifest, Reconstruct, Unforged;
  }

  lemma RebuiltIs(c: Crypto, resp: ManifestResponse, active: Bytes, transfer: Bytes)
    requires Reconstruct(c, resp, active, transfer).Ok?
    ensures c.sha256(Reconstruct(c, resp, active, transfer).value) == resp.targetHash
  {
  }

  /** `bin` has been put in the slot that was inactive. */
  predicate Installed(d: Disk, t: Disk, bin: Bytes) {
    t.files.At(d.link) == d.Active() && t.files.At(d.link.Other()) == bin && t.files.boots == d.files.boots
  }

  lemma InstalledIs(d: Disk, t: Disk, bin: Bytes)
    requires Installed(d, t, bin)
    ensures t.link == d.link.Other() ==> t.Active() == bin && t.Inactive() == d.Active()
    ensures t.link == d.link ==> t.Active() == d.Active()
  {
  }

  lemma IsAHash(c: Crypto, b: Bytes)
    requires c.Lawful()
    ensures c.sha256(b) != ""
  {
    assert IsValidHash(c.sha256(b));
  }

  lemma {:induction false} LeadsFurther(cfg: Config, s: State, a: seq<Event>, t: State, b: seq<Event>, u: State)
    requires Leads(cfg, s, a, t) && Leads(cfg, t, b, u)
    ensures Leads(cfg, s, a + b, u)
  {
    hide Step;
    if b == [] {
      assert a + b == a;
    } else {
      var n := |b| - 1;
      var v := Run(cfg, t, b[..n]).value;
      LeadsFurther(cfg, s, a, t, b[..n], v);
      assert (a + b)[..|a + b| - 1] == a + b[..n];
    }
  }

  /** A boot phase that has decided to roll back finds the pre-update binary in the other slot. */
  lemma RollbackFindsPrevious(cfg: Config, s: State, t: State, events: seq<Event>)
    requires Leads(cfg, s, events, t) && t.proc.RollingBack?
    ensures cfg.layout.Shared? && Lawful(cfg) && Reachable(cfg, s) ==> Sha(cfg, t.disk.Inactive()) == t.proc.m.previous
  {
    if cfg.layout.Shared? && Lawful(cfg) && Reachable(cfg, s) {
      var s0, before :| Init(cfg, s0) && Run(cfg, s0, before) == Some(s);
      LeadsFurther(cfg, s0, before, s, events, t);
      assert Reachable(cfg, t);
      ReachableLands(cfg, t);
      PairTurns(cfg, t.disk.files, t.disk.link);
    }
  }

  lemma ChangedIs(d: Disk, f: Files)
    ensures d.Changed(f).files == f && d.Changed(f).link == d.link
  {
  }

  lemma WroteIs(d: Disk, layout: Layout, f: Files, y: bool)
    ensures d.WroteSlots(layout, f, y).files == f && d.WroteSlots(layout, f, y).link == d.link
    ensures d.WroteState(layout, f, y).files == f && d.WroteState(layout, f, y).link == d.link
  {
  }

  lemma WrittenIs(f: Files, slot: Slot, bin: Bytes)
    ensures var g := f.Written(slot, bin);
      && g.At(slot) == bin && g.At(slot.Other()) == f.At(slot.Other()) && g.marker == f.marker && g.boots == f.boots && g.cooldown == f.cooldown
  {
  }

  lemma AtOnlySlots(f: Files, g: Files)
    requires g.a == f.a && g.b == f.b
    ensures forall slot: Slot :: g.At(slot) == f.At(slot)
  {
  }

  /** Nothing differs but the cooldown file, which is removed when it is over or has been overridden. */
  predicate SameButCooldown(d: Disk, t: Disk, forced: bool, now: int) {
    && t.link == d.link
    && t.files == d.files.(cooldown := if Awake(d.files, forced, now) && d.files.cooldown != Some(0) then None else d.files.cooldown)
  }

  /** The new binary has taken over and is marked as unproven; the old one is where a rollback looks. */
  ghost predicate Taken(d: Disk, t: Disk, crypto: Crypto, target: string) {
    && t.link != d.link && t.Inactive() == d.Active() && crypto.sha256(t.Active()) == target
    && t.files.marker == Some(Marker(crypto.sha256(d.Active()), target))
  }

  /** The old binary is back, unmarked, and the next cycles have to wait. */
  predicate Undone(d: Disk, t: Disk, now: int, cooldown: int) {
    && t.link == d.link && t.Active() == d.Active() && t.files.marker.None?
    && (cooldown > 0 ==> t.files.cooldown == Some(now + cooldown))
  }

  /** Removing a cooldown changes nothing for what follows it. */
  lemma SameAfterCooldown(d: Disk, m: Disk, t: Disk, c: Cycle, crypto: Crypto, cooldown: int, store: T.Store, resp: ManifestResponse, first: seq<Event>)
    requires m.link == d.link && m.files == d.files.(cooldown := m.files.cooldown)
    ensures UpdatePart(m, c, crypto, cooldown, store, resp, first) == UpdatePart(d, c, crypto, cooldown, store, resp, first)
    ensures Taken(m, t, crypto, resp.targetHash) ==> Taken(d, t, crypto, resp.targetHash)
    ensures Undone(m, t, c.now, cooldown) ==> Undone(d, t, c.now, cooldown)
  {
    hide T.Download, Reconstruct, UpdateEvents, Crypto.Lawful;
    assert m.Active() == d.Active() && m.Inactive() == d.Inactive();
  }

  /** After a failed restart cycles come to nothing until the cooldown is over or somebody triggers one; a cooldown that
      ends at the zero time is none. */
  lemma FailedRestartWaitsIff(d: Disk, t: Disk, now: int, cooldown: int, forced: bool, c: Cycle, crypto: Crypto, store: T.Store, r: CycleResult)
    requires Undone(d, t, now, cooldown) && cooldown > 0 && ResultIs(t, forced, c, crypto, store, r)
    ensures r.CoolingDown? <==> !forced && c.now < now + cooldown && now + cooldown != 0
  {
    hide CheckManifest, Reconstruct, Delivers, Crypto.Lawful;
  }

  class Updater {
    const storage: Storage
    const slots: SlotManager
    const watchdog: Watchdog
    const downloader: D.Downloader
    const crypto: Crypto
    const cooldown: int
    var forceOnce: bool
    var updateNow: bool      // the .update_now sidecar
    ghost const cfg: Config
    ghost var state: State

    ghost predicate Wired() {
      && slots.storage == storage && watchdog.counter.storage == storage
      && slots.sha256 == crypto.sha256 && downloader.sha256 == crypto.sha256
      && cfg.crypto == crypto && cfg.layout == storage.layout && cfg.maxBoots == watchdog.maxBoots
      && watchdog.retries > 0 && crypto.Lawful()
    }

    ghost predicate Valid()
      reads this, storage
    {
      Wired() && state.disk == storage.disk
    }

    constructor (storage: Storage, slots: SlotManager, watchdog: Watchdog, downloader: D.Downloader, crypto: Crypto,
                 cooldown: int, ghost cfg: Config, ghost state: State)
      requires slots.storage == storage && watchdog.counter.storage == storage
      requires slots.sha256 == crypto.sha256 && downloader.sha256 == crypto.sha256 && crypto.Lawful()
      requires cfg.crypto == crypto && cfg.layout == storage.layout && cfg.maxBoots == watchdog.maxBoots && watchdog.retries > 0
      requires state.disk == storage.disk
      ensures Valid() && this.storage == storage && this.cfg == cfg && this.state == state
    {
      this.storage, this.slots, this.watchdog, this.downloader := storage, slots, watchdog, downloader;
      this.crypto, this.cooldown, this.cfg, this.state := crypto, cooldown, cfg, state;
      forceOnce, updateNow := false, false;
    }

    /** Record that what has just been done to the disk is step `e` of the protocol. */
    ghost method Log(e: Event, s: State, events: seq<Event>) returns (longer: seq<Event>)
      requires Wired() && Leads(cfg, s, events, state)
      requires Step(cfg, state, e).Some? && Step(cfg, state, e).value.disk == storage.disk
      modifies this`state
      ensures Valid() && Some(state) == Step(cfg, old(state), e)
      ensures longer == events + [e] && Leads(cfg, s, longer, state)
    {
      Then(cfg, s, events, state, e);
      state := Step(cfg, state, e).value;
      longer := events + [e];
    }

    method ClearPending()
      modifies storage
      ensures storage.disk == old(storage.disk).Changed(old(storage.disk).files.(marker := None))
    {
      storage.disk := storage.disk.Changed(storage.disk.files.(marker := None));
    }

    /** Flip back, reset the counter, drop the marker, start the previous binary. */
    method RollbackAndExec(y: Syncs, ghost s: State, ghost soFar: seq<Event>) returns (ghost events: seq<Event>)
      requires Valid() && state.proc.RollingBack? && Leads(cfg, s, soFar, state) && Permitted(cfg.lossy, y)
      modifies this`state, storage
      ensures Valid() && state.proc.Booting? && Leads(cfg, s, events, state)
      ensures events == soFar + RollbackEvents(y)
      ensures storage.disk.Active() == old(storage.disk).Inactive() && storage.disk.files.marker.None?
      ensures storage.disk.link == old(storage.disk).link.Other() && storage.disk.files == old(storage.disk).files.(marker := None, boots := None)
    {
      hide Leads, Crypto.Lawful, Accept, Unforged, Step;
      slots.Rollback(y.back);
      BootSteps(cfg, state, y);
      events := Log(FlipLink(y.back), s, soFar);
      watchdog.counter.Reset();
      BootSteps(cfg, state, y);
      events := Log(ResetCounter, s, events);
      ClearPending();
      BootSteps(cfg, state, y);
      events := Log(ClearMarker, s, events);
      assert soFar + [FlipLink(y.back)] + [ResetCounter] + [ClearMarker] == soFar + RollbackEvents(y);
    }

    /** The marker names the active binary. */
    predicate Pending(d: Disk) { d.files.marker.Some? && d.files.marker.value.next == crypto.sha256(d.Active()) }

    /** It has been booted as often as it may be. */
    predicate Spent(d: Disk) { d.files.CountFor(crypto.sha256(d.Active())) >= watchdog.maxBoots }

    /** What a boot comes to: a rollback exactly when the marker names the active binary and its count is spent or its
        checks fail outright; steady state exactly when the marker does not name it, or a check passes in time. */
    method BootPhase(checks: nat -> Check, cancelled: nat -> bool, y: Syncs) returns (r: BootResult, ghost events: seq<Event>)
      requires Valid() && state.proc.Booting? && Permitted(cfg.lossy, y)
      modifies this`state, storage
      ensures Valid() && Leads(cfg, old(state), events, state)
      ensures (events, r) == BootEvents(old(storage.disk), cfg, Window(0, watchdog.retries, checks, cancelled), y)
      ensures r.Steady? <==> state.proc.Idle?
      ensures Pending(old(storage.disk)) && Spent(old(storage.disk)) ==> r.RolledBackAndRestarted?
      ensures Pending(old(storage.disk)) && !Spent(old(storage.disk)) ==>
                && (r.Steady? <==> PassesInTime(watchdog.retries, checks, cancelled))
                && (r.RolledBackAndRestarted? <==> FailsOutright(watchdog.retries, checks, cancelled))
      ensures !Pending(old(storage.disk)) ==>
                r.Steady? && storage.disk.link == old(storage.disk).link && storage.disk.files == old(storage.disk).files.(marker := None)
      ensures Pending(old(storage.disk)) ==>
                var d, t := old(storage.disk), storage.disk;
                match r
                case Steady => t.link == d.link && t.files == d.files.(marker := None, boots := None)
                case RolledBackAndRestarted => t.link != d.link && t.files == d.files.(marker := None, boots := None)
                case Interrupted =>
                  var active := crypto.sha256(d.Active());
                  t.link == d.link && t.files == d.files.(boots := Some(BootCount(active, d.files.CountFor(active) + 1)))
      ensures cfg.layout.Shared? && Lawful(cfg) && Reachable(cfg, old(state)) && r.RolledBackAndRestarted? ==>
                crypto.sha256(storage.disk.Active()) == old(storage.disk).files.marker.value.previous
    {
      hide Leads, Crypto.Lawful, Accept, Unforged, Lawful, Reachable, Window;
      ghost var s0 := state;
      Stay(cfg, s0);
      assert [] + [Boot(y.boots)] == [Boot(y.boots)];
      var marker := storage.disk.files.marker;
      if marker.None? {
        events := Log(Boot(y.boots), s0, []);
        return Steady, events;
      }
      var bin, active, name := slots.ActiveSlot();
      if active != marker.value.next {
        ClearPending();
        events := Log(Boot(y.boots), s0, []);
        return Steady, events;
      }
      IsAHash(crypto, bin);
      var exceeded := watchdog.CheckBoot(active, y.boots);
      events := Log(Boot(y.boots), s0, []);
      if exceeded {
        RollbackFindsPrevious(cfg, s0, state, events);
        events := RollbackAndExec(y, s0, events);
        return RolledBackAndRestarted, events;
      }
      r, events := Verify(checks, cancelled, y, s0, events);
    }

    /** The health window and what follows from it. */
    method Verify(checks: nat -> Check, cancelled: nat -> bool, y: Syncs, ghost s: State, ghost soFar: seq<Event>)
      returns (r: BootResult, ghost events: seq<Event>)
      requires Valid() && state.proc.Watching? && Leads(cfg, s, soFar, state) && Permitted(cfg.lossy, y)
      modifies this`state, storage
      ensures Valid() && Leads(cfg, s, events, state)
      ensures (events, r) == WindowEvents(soFar, Window(0, watchdog.retries, checks, cancelled), y)
      ensures r.Steady? <==> PassesInTime(watchdog.retries, checks, cancelled)
      ensures r.RolledBackAndRestarted? <==> FailsOutright(watchdog.retries, checks, cancelled)
      ensures var d, t := old(storage.disk), storage.disk;
        match r
        case Steady => t.link == d.link && t.files == d.files.(marker := None, boots := None)
        case RolledBackAndRestarted => t.link != d.link && t.files == d.files.(marker := None, boots := None)
        case Interrupted => t == d
      ensures r.Steady? <==> state.proc.Idle?
      ensures cfg.layout.Shared? && Lawful(cfg) && Reachable(cfg, s) && r.RolledBackAndRestarted? ==>
                crypto.sha256(storage.disk.Active()) == old(state).proc.m.previous
    {
      hide Leads, Crypto.Lawful, Accept, Unforged, Lawful, Reachable, Window, Disk.Changed, Step;
      var window := watchdog.WaitForHealth(checks, cancelled);
      BootSteps(cfg, state, y);
      if window.CutShort? || (window.NotPassed? && window.last.TimedOut?) {
        events := Log(Killed, s, soFar);
        return Interrupted, events;
      }
      if window.NotPassed? {
        events := Log(HealthFailed, s, soFar);
        RollbackFindsPrevious(cfg, s, state, events);
        events := RollbackAndExec(y, s, events);
        return RolledBackAndRestarted, events;
      }
      events := Log(HealthOk, s, soFar);
      ghost var d := storage.disk;
      ChangedIs(d, d.files.(boots := None));
      ChangedIs(d.Changed(d.files.(boots := None)), d.files.(marker := None, boots := None));
      watchdog.Confirm();
      BootSteps(cfg, state, y);
      events := Log(ResetCounter, s, events);
      ClearPending();
      BootSteps(cfg, state, y);
      events := Log(ClearMarker, s, events);
      assert soFar + [HealthOk] + [ResetCounter] + [ClearMarker] == soFar + [HealthOk, ResetCounter, ClearMarker];
      r := Steady;
    }

    /** The part of a cycle that decides whether to download. Consumes the manual trigger once it matters. */
    method Gate(c: Cycle, forced: bool) returns (early: Option<CycleResult>, ghost events: seq<Event>)
      requires Valid() && state.proc.Idle? && forced == (forceOnce || updateNow)
      modifies this`state, this`forceOnce, this`updateNow, storage
      ensures Valid() && state.proc.Idle? && Leads(cfg, old(state), events, state)
      ensures early == EndsEarly(old(storage.disk.files), forced, c, crypto)
      ensures events == CooldownEvents(old(storage.disk.files), forced, c)
      ensures storage.disk.link == old(storage.disk.link) && storage.disk.Active() == old(storage.disk).Active()
      ensures early.None? ==> !forceOnce && !updateNow
      ensures SameButCooldown(old(storage.disk), storage.disk, forced, c.now)
      ensures forceOnce == (old(forceOnce) && !IsOffer(c.answer)) && updateNow == (old(updateNow) && !IsOffer(c.answer))
    {
      hide Leads, Crypto.Lawful, Accept, CheckManifest, Unforged, Step, Disk.Changed;
      ghost var s0 := state;
      Stay(cfg, s0);
      events := [];
      var until := storage.disk.files.cooldown;
      if until.Some? && until.value != 0 {
        if c.now < until.value && !forced { return Some(CoolingDown), events; }
        ChangedIs(storage.disk, storage.disk.files.(cooldown := None));
        storage.disk := storage.disk.Changed(storage.disk.files.(cooldown := None));
        CooldownSteps(cfg, state);
        events := Log(ClearCooldown, s0, events);
        assert [] + [ClearCooldown] == [ClearCooldown];
      }
      if c.answer.None? { return Some(HeartbeatFailed), events; }
      var resp := c.answer.value;
      if !resp.updateAvailable { return Some(UpToDate), events; }
      if resp.retryAfter > 0 { return Some(NotReady), events; }
      if resp.signature == "" || resp.targetHash == "" || resp.deltaHash == "" { return Some(Aborted(MissingField)), events; }
      forceOnce, updateNow := false, false;
      if !forced && !c.policyAllows { return Some(Blocked), events; }
      match CheckManifest(crypto, resp)
      case Some(e) => early := Some(Aborted(e));
      case None => early := None;
    }

    /** Stage, mark, swap, restart; and take it all back if the restart fails. */
    method Apply(bin: Bytes, previous: string, target: string, c: Cycle, ghost s: State, ghost soFar: seq<Event>)
      returns (r: CycleResult, ghost events: seq<Event>)
      requires Valid() && Leads(cfg, s, soFar, state) && Permitted(cfg.lossy, c.syncs)
      requires state.proc == Ready(previous, target, bin)
      modifies this`state, storage
      ensures Valid() && Leads(cfg, s, events, state)
      ensures r == if c.restarts then Replaced else CycleResult.RestartFailed
      ensures state.proc == if c.restarts then Booting else Idle
      ensures events == soFar + ApplyEvents(c, cooldown)
      ensures Installed(old(storage.disk), storage.disk, bin)
      ensures c.restarts ==> storage.disk.link == old(storage.disk).link.Other() && storage.disk.files.marker == Some(Marker(previous, target))
      ensures !c.restarts ==> storage.disk.link == old(storage.disk).link && storage.disk.files.marker.None?
                              && (cooldown > 0 ==> storage.disk.files.cooldown == Some(c.now + cooldown))
    {
      hide Leads, Crypto.Lawful, Accept, Unforged, Step, Disk.WroteSlots, Disk.WroteState, Disk.Changed, Files.At, Files.Written;
      ghost var y, d := c.syncs, storage.disk;
      WrittenIs(d.files, d.link.Other(), bin);
      WroteIs(d, storage.layout, d.files.Written(d.link.Other(), bin), y.slot);
      slots.WriteToInactive(bin, c.syncs.slot);
      WroteIs(storage.disk, storage.layout, storage.disk.files.(marker := Some(Marker(previous, target))), y.marker);
      AtOnlySlots(storage.disk.files, storage.disk.files.(marker := Some(Marker(previous, target))));
      ForwardSteps(cfg, state, y);
      events := Log(StageSlot(y.slot), s, soFar);
      storage.disk := storage.disk.WroteState(storage.layout, storage.disk.files.(marker := Some(Marker(previous, target))), c.syncs.marker);
      ForwardSteps(cfg, state, y);
      events := Log(WriteMarker(y.marker), s, events);
      slots.Swap(c.syncs.forward);
      ForwardSteps(cfg, state, y);
      events := Log(FlipLink(y.forward), s, events);
      ghost var three := [StageSlot(y.slot), WriteMarker(y.marker), FlipLink(y.forward)];
      assert soFar + [StageSlot(y.slot)] + [WriteMarker(y.marker)] + [FlipLink(y.forward)] == soFar + three;
      Regroup(soFar, three, LastEvents(c, cooldown));
      if c.restarts {
        ForwardSteps(cfg, state, y);
        events := Log(RestartOk, s, events);
        return Replaced, events;
      }
      ghost var forward := storage.disk.files;
      events := Undo(c.now, c.syncs, s, events);
      AtOnlySlots(forward, storage.disk.files);
      r := CycleResult.RestartFailed;
    }

    /** After a failed restart: marker first, then the link, then the cooldown. */
    method Undo(now: int, y: Syncs, ghost s: State, ghost soFar: seq<Event>) returns (ghost events: seq<Event>)
      requires Valid() && state.proc.Swapped? && Leads(cfg, s, soFar, state) && Permitted(cfg.lossy, y)
      modifies this`state, storage
      ensures Valid() && state.proc.Idle? && Leads(cfg, s, events, state)
      ensures events == soFar + UndoEvents(now, cooldown, y)
      ensures storage.disk.link == old(storage.disk).link.Other()
      ensures storage.disk.files == old(storage.disk).files.(marker := None, cooldown := if cooldown > 0 then Some(now + cooldown) else old(storage.disk).files.cooldown)
    {
      hide Leads, Crypto.Lawful, Accept, Unforged, Step, Disk.WroteState, Disk.Changed, Files.At;
      ChangedIs(storage.disk, storage.disk.files.(marker := None));
      ClearPending();
      BackwardSteps(cfg, state, None, y);
      events := Log(Event.RestartFailed, s, soFar);
      slots.Rollback(y.back);
      BackwardSteps(cfg, state, None, y);
      events := Log(FlipLink(y.back), s, events);
      var until := if cooldown <= 0 then None else Some(now + cooldown);
      WroteIs(storage.disk, storage.layout, storage.disk.files.(cooldown := until), y.cooldown);
      if until.Some? { storage.disk := storage.disk.WroteState(storage.layout, storage.disk.files.(cooldown := until), y.cooldown); }
      BackwardSteps(cfg, state, until, y);
      events := Log(ArmCooldown(until, y.cooldown), s, events);
      assert soFar + [Event.RestartFailed] + [FlipLink(y.back)] + [ArmCooldown(until, y.cooldown)] == soFar + UndoEvents(now, cooldown, y);
    }

    /** Download, rebuild and apply: what is left of a cycle once its manifest has passed. */
    method FetchAndApply(resp: ManifestResponse, c: Cycle, activeHash: string, ghost s: State, ghost first: seq<Event>)
      returns (r: CycleResult, ghost events: seq<Event>)
      requires Valid() && state.proc.Idle? && c.net.maxRetries == downloader.maxRetries && Permitted(cfg.lossy, c.syncs)
      requires Leads(cfg, s, first, state) && activeHash == crypto.sha256(storage.disk.Active())
      requires Unforged(crypto, cfg.signed, resp) && CheckManifest(crypto, resp).None?
      modifies this`state, storage, downloader
      ensures Valid() && Leads(cfg, s, events, state)
      ensures (events, r) == UpdatePart(old(storage.disk), c, crypto, cooldown, old(downloader.store), resp, first)
      ensures r.Replaced? || r.RestartFailed? || r.Aborted? || r.DownloadFailed?
      ensures r.Replaced? || r.RestartFailed? ==> STAGING !in downloader.store.files && downloader.store.saved.None?
      ensures r.Replaced? <==> state.proc.Booting?
      ensures !r.Replaced? ==> state.proc.Idle?
      ensures !r.Replaced? && !r.RestartFailed? ==> storage.disk == old(storage.disk)
      ensures r.Replaced? ==> Taken(old(storage.disk), storage.disk, crypto, resp.targetHash)
      ensures r.RestartFailed? ==> Undone(old(storage.disk), storage.disk, c.now, cooldown)
    {
      hide Leads, Crypto.Lawful, CheckManifest, Reconstruct, Accept, Unforged, Step, T.Download, Installed, UpdateEvents, ApplyEvents, Permitted;
      ghost var before := downloader.store;
      var outcome;
      ghost var steps;
      outcome, steps := downloader.Download(StagingTarget(resp), c.net);
      if !outcome.Success? { return DownloadFailed(outcome), first; }
      T.SuccessIsVerified(before, StagingTarget(resp), c.net, crypto.sha256);
      var transfer := downloader.store.At(STAGING);
      var active, _, _ := slots.ActiveSlot();
      var rebuilt := Reconstruct(crypto, resp, active, transfer);
      if rebuilt.Err? { return Aborted(rebuilt.error), first; }
      PrepareSteps(cfg, state, resp, transfer);
      events := Log(Prepare(resp, transfer), s, first);
      RebuiltIs(crypto, resp, active, transfer);
      ghost var ready := storage.disk;
      r, events := Apply(rebuilt.value, activeHash, resp.targetHash, c, s, events);
      InstalledIs(ready, storage.disk, rebuilt.value);
      downloader.store := T.Dropped(downloader.store, STAGING);
      UpdateSpelledOut(first, resp, transfer, c, cooldown);
    }

    /** One update cycle. */
    method RunOnce(c: Cycle) returns (r: CycleResult, ghost events: seq<Event>)
      requires Valid() && state.proc.Idle? && c.net.maxRetries == downloader.maxRetries && Permitted(cfg.lossy, c.syncs)
      requires c.answer.Some? ==> Unforged(crypto, cfg.signed, c.answer.value)
      modifies this`state, this`forceOnce, this`updateNow, storage, downloader
      ensures Valid() && Leads(cfg, old(state), events, state)
      ensures (events, r) == CycleEvents(old(storage.disk), old(forceOnce || updateNow), c, crypto, cooldown, old(downloader.store))
      ensures r.Replaced? <==> state.proc.Booting?
      ensures !r.Replaced? ==> state.proc.Idle?
      ensures ResultIs(old(storage.disk), old(forceOnce || updateNow), c, crypto, old(downloader.store), r)
      ensures forceOnce == (old(forceOnce) && !IsOffer(c.answer)) && updateNow == (old(updateNow) && !IsOffer(c.answer))
      ensures !r.Replaced? && !r.RestartFailed? ==>
                SameButCooldown(old(storage.disk), storage.disk, old(forceOnce || updateNow), c.now)
      ensures r.Replaced? || r.RestartFailed? ==> STAGING !in downloader.store.files && downloader.store.saved.None?
      ensures r.Replaced? ==> Taken(old(storage.disk), storage.disk, crypto, c.answer.value.targetHash)
      ensures r.RestartFailed? ==> Undone(old(storage.disk), storage.disk, c.now, cooldown)
    {
      hide ResultIs, Leads, Crypto.Lawful, CheckManifest, Unforged, EndsEarly, CooldownEvents, UpdatePart, Permitted, IsOffer;
      ghost var forced := forceOnce || updateNow;
      CycleResultIs(storage.disk, forced, c, crypto, cooldown, downloader.store);
      ghost var s0 := state;
      var _, activeHash, _ := slots.ActiveSlot();
      var early;
      early, events := Gate(c, forceOnce || updateNow);
      if early.Some? {
        EarlyEnds(old(storage.disk.files), forced, c, crypto);
        return early.value, events;
      }
      GoesOn(old(storage.disk.files), forced, c, crypto);
      ghost var ready, first := storage.disk, events;
      r, events := FetchAndApply(c.answer.value, c, activeHash, s0, events);
      SameAfterCooldown(old(storage.disk), ready, storage.disk, c, crypto, cooldown, old(downloader.store), c.answer.value, first);
    }
  }
}
