/** The A/B update protocol of one device as a transition system (`pkg/agent/updater.go`, `slots.go`,
    `watchdog.go`). Every step makes at most one durable change, its directory fsync may fail or be cut off, and the
    device may lose power, or the agent be killed, between any two steps. */
module Device {
  import opened Wrappers
  import opened Hex
  import opened Primitives
  import opened Messages
  import opened Acceptance

  // ---------------------------------------------------------------------------
  // Durable state
  // ---------------------------------------------------------------------------

  datatype Slot = A | B {
    function Other(): Slot { if A? then B else A }
  }

  /** `.pending_update` */
  datatype Marker = Marker(previous: string, next: string)

  /** `.boot_count` */
  datatype BootCount = BootCount(hash: string, count: nat)

  datatype Files = Files(a: Bytes, b: Bytes, marker: Option<Marker>, boots: Option<BootCount>, cooldown: Option<int>) {
    function At(slot: Slot): Bytes { if slot.A? then a else b }

    function Written(slot: Slot, bin: Bytes): Files {
      if slot.A? then this.(a := bin) else this.(b := bin)
    }

    /** The persisted count for `hash`: zero when the file is missing or about another binary. */
    function CountFor(hash: string): nat {
      if boots.Some? && boots.value.hash == hash then boots.value.count else 0
    }

    ghost predicate Names(hash: string) { marker.Some? && marker.value.next == hash }
  }

  /** Where the agent's state files live: in the slots directory, as the shipped agent has it, or in a
      directory of their own, which the library allows. The boot counter is always with the slots, and the link
      always in a directory of its own. */
  datatype Layout = Shared | Split

  /** `link` and `files` are what is cached. `links` and `older` are what a power loss may still return to: every
      state since the last successful fsync of the directory, oldest first. With two directories, each returns to
      a state of its own. */
  datatype Disk = Disk(link: Slot, links: seq<Slot>, files: Files, older: seq<Files>) {
    function Active(): Bytes { files.At(link) }
    function Inactive(): Bytes { files.At(link.Other()) }

    /** Everything a power loss may leave of the link, and of the files of one directory. */
    function Links(): seq<Slot> { links + [link] }
    function Images(): seq<Files> { older + [files] }

    /** The slots directory as in image `i`, the state directory as in image `j`. */
    function Image(i: nat, j: nat): Files
      requires i < |Images()| && j < |Images()|
    {
      Images()[i].(marker := Images()[j].marker, cooldown := Images()[j].cooldown)
    }

    predicate MayLeave(layout: Layout, i: nat, j: nat) {
      i < |Images()| && j < |Images()| && (layout.Shared? ==> i == j)
    }

    /** A change that is cached, and durable only at the next fsync of its directory. */
    function Changed(f: Files): Disk {
      if f == files then this else this.(files := f, older := older + [files])
    }

    function SlotsSynced(layout: Layout): Disk {
      this.(older := if layout.Shared? then []
                     else seq(|older|, i requires 0 <= i < |older| => older[i].(a := files.a, b := files.b, boots := files.boots)))
    }

    function StateSynced(layout: Layout): Disk {
      this.(older := if layout.Shared? then []
                     else seq(|older|, i requires 0 <= i < |older| => older[i].(marker := files.marker, cooldown := files.cooldown)))
    }

    /** A crash-atomic write, renamed into place; `synced` tells whether the directory fsync after it happened. It
        fails without the write failing, and a kill may come first. */
    function WroteSlots(layout: Layout, f: Files, synced: bool): Disk {
      if synced then Changed(f).SlotsSynced(layout) else Changed(f)
    }

    function WroteState(layout: Layout, f: Files, synced: bool): Disk {
      if synced then Changed(f).StateSynced(layout) else Changed(f)
    }

    function Linked(slot: Slot, synced: bool): Disk {
      this.(link := slot, links := if synced then [] else links + [link])
    }
  }

  // ---------------------------------------------------------------------------
  // The agent process
  // ---------------------------------------------------------------------------

  /** Where the agent is between two durable changes. */
  datatype Proc =
    | Booting
    | Watching(m: Marker)             // CheckBoot passed, health window open
    | Healthy(m: Marker)              // health window passed, counter still there
    | Confirmed(m: Marker)            // counter reset, marker still there
    | RollingBack(m: Marker)          // decided to roll back
    | RolledBack(m: Marker)           // link flipped back
    | RolledBackReset(m: Marker)      // and counter reset
    | Idle                            // steady state
    | Ready(previous: string, target: string, bin: Bytes)   // verified binary in memory
    | Staged(previous: string, target: string)              // inactive slot written
    | Marked(previous: string, target: string)              // marker written
    | Swapped(previous: string, target: string)             // link flipped forward
    | Cleared(previous: string, target: string)             // restart failed, marker removed
    | Reverted                                              // and link flipped back

  /** `confirmed` are the digests that have passed a health window, or were provisioned active; `lost` those whose
      marker was cleared by an agent that then went down before taking them back, for as long as the device may
      return to them. Neither is stored anywhere. */
  datatype State = State(disk: Disk, proc: Proc, confirmed: set<string>, lost: set<string>)

  /** Writes carry whether their directory fsync succeeded. A kill between rename and fsync is an unsynced write
      followed by Killed. */
  datatype Event =
    | Boot(synced: bool)         // BootPhase up to the health window
    | HealthOk
    | HealthFailed
    | ResetCounter               // remove .boot_count
    | ClearMarker                // remove .pending_update
    | ClearCooldown              // remove .restart_cooldown
    | Prepare(resp: ManifestResponse, transfer: Bytes)   // RunOnce up to the verified binary
    | StageSlot(synced: bool)
    | WriteMarker(synced: bool)
    | FlipLink(synced: bool)     // Swap or Rollback: an unchecked toggle
    | RestartOk
    | RestartFailed              // remove .pending_update
    | ArmCooldown(until: Option<int>, synced: bool)
    | Killed                     // cancelled, exited or killed: caches survive
    | PowerLoss(link: nat, slots: nat, state: nat)   // caches do not: what is left of each directory

  /** The writes whose directory fsync may fail or be cut off. */
  datatype Lossy = Lossy(slot: bool, marker: bool, boots: bool, cooldown: bool, link: bool)

  /** `signed` are the pairs the server has signed; `provisioned` the digests installed at the factory. */
  datatype Config = Config(crypto: Crypto, layout: Layout, maxBoots: nat, signed: SignedPairs, provisioned: set<string>,
                           lossy: Lossy)

  predicate Allowed(lossy: Lossy, e: Event) {
    match e
    case Boot(synced) => synced || lossy.boots
    case StageSlot(synced) => synced || lossy.slot
    case WriteMarker(synced) => synced || lossy.marker
    case FlipLink(synced) => synced || lossy.link
    case ArmCooldown(_, synced) => synced || lossy.cooldown
    case _ => true
  }

  function Sha(cfg: Config, b: Bytes): string { cfg.crypto.sha256(b) }

  /** BootPhase up to the health window: read the marker, compare it with the active slot, count the boot. */
  function BootStep(cfg: Config, s: State, synced: bool): State {
    var d := s.disk;
    var active := Sha(cfg, d.Active());
    match d.files.marker
    case None => s.(proc := Idle)
    case Some(m) =>
      if m.next != active then
        s.(disk := d.Changed(d.files.(marker := None)), proc := Idle)
      else
        var count := d.files.CountFor(active) + 1;
        s.(disk := d.WroteSlots(cfg.layout, d.files.(boots := Some(BootCount(active, count))), synced),
           proc := if count > cfg.maxBoots then RollingBack(m) else Watching(m))
  }

  function Flipped(s: State, synced: bool, proc: Proc): State {
    s.(disk := s.disk.Linked(s.disk.link.Other(), synced), proc := proc)
  }

  function WithoutMarker(s: State, proc: Proc): State {
    s.(disk := s.disk.Changed(s.disk.files.(marker := None)), proc := proc)
  }

  function WithoutCounter(s: State, proc: Proc): State {
    s.(disk := s.disk.Changed(s.disk.files.(boots := None)), proc := proc)
  }

  function StagedFrom(cfg: Config, s: State, synced: bool): State
    requires s.proc.Ready?
  {
    s.(disk := s.disk.WroteSlots(cfg.layout, s.disk.files.Written(s.disk.link.Other(), s.proc.bin), synced),
       proc := Staged(s.proc.previous, s.proc.target))
  }

  /** From here on a power loss leaves the marker, so only the binary it leads back to may still lack one. */
  function MarkedFrom(cfg: Config, s: State, synced: bool): State
    requires s.proc.Staged?
  {
    var m := Marker(s.proc.previous, s.proc.target);
    s.(disk := s.disk.WroteState(cfg.layout, s.disk.files.(marker := Some(m)), synced),
       proc := Marked(m.previous, m.next), lost := if synced then s.lost * {m.previous} else s.lost)
  }

  function Cooling(cfg: Config, s: State, until: Option<int>, synced: bool): State {
    s.(disk := if until.None? then s.disk else s.disk.WroteState(cfg.layout, s.disk.files.(cooldown := until), synced),
       proc := Idle)
  }

  /** Losing the process, whatever it was doing. */
  function Down(s: State, disk: Disk): State {
    State(disk, Booting, s.confirmed, if s.proc.Cleared? then s.lost + {s.proc.target} else s.lost)
  }

  /** Losing power: the cache is gone, and each directory is back at one of its images. */
  function PowerLost(d: Disk, l: nat, i: nat, j: nat): Disk
    requires l < |d.Links()| && i < |d.Images()| && j < |d.Images()|
  {
    Disk(d.Links()[l], [], d.Image(i, j), [])
  }

  /** The state after event `e`, when `e` can happen in `s`. */
  ghost function Step(cfg: Config, s: State, e: Event): Option<State> {
    if !Allowed(cfg.lossy, e) then None else
    var d := s.disk;
    match (s.proc, e)
    case (_, Killed) => Some(Down(s, d))
    case (_, PowerLoss(l, i, j)) =>
      if l < |d.Links()| && d.MayLeave(cfg.layout, i, j) then Some(Down(s, PowerLost(d, l, i, j))) else None
    case (Booting, Boot(y)) => Some(BootStep(cfg, s, y))
    case (Watching(m), HealthOk) => Some(s.(proc := Healthy(m), confirmed := s.confirmed + {m.next}))
    case (Watching(m), HealthFailed) => Some(s.(proc := RollingBack(m)))
    case (Healthy(m), ResetCounter) => Some(WithoutCounter(s, Confirmed(m)))
    case (Confirmed(m), ClearMarker) => Some(WithoutMarker(s, Idle))
    case (RollingBack(m), FlipLink(y)) => Some(Flipped(s, y, RolledBack(m)))
    case (RolledBack(m), ResetCounter) => Some(WithoutCounter(s, RolledBackReset(m)))
    case (RolledBackReset(m), ClearMarker) => Some(WithoutMarker(s, Booting))
    case (Idle, ClearCooldown) => Some(s.(disk := d.Changed(d.files.(cooldown := None))))
    case (Idle, Prepare(resp, transfer)) =>
      if Unforged(cfg.crypto, cfg.signed, resp) && Accept(cfg.crypto, resp, d.Active(), transfer).Ok? then
        Some(s.(proc := Ready(Sha(cfg, d.Active()), resp.targetHash, Accept(cfg.crypto, resp, d.Active(), transfer).value)))
      else None
    case (Ready(_, _, _), StageSlot(y)) => Some(StagedFrom(cfg, s, y))
    case (Staged(_, _), WriteMarker(y)) => Some(MarkedFrom(cfg, s, y))
    case (Marked(p, t), FlipLink(y)) => Some(Flipped(s, y, Swapped(p, t)))
    case (Swapped(p, t), RestartOk) => Some(s.(proc := Booting))
    case (Swapped(p, t), RestartFailed) => Some(WithoutMarker(s, Cleared(p, t)))
    case (Cleared(p, t), FlipLink(y)) => Some(Flipped(s, y, Reverted))
    case (Reverted, ArmCooldown(until, y)) => Some(Cooling(cfg, s, until, y))
    case _ => None
  }

  ghost function Run(cfg: Config, s: State, events: seq<Event>): Option<State> {
    if events == [] then Some(s)
    else
      match Run(cfg, s, events[..|events| - 1])
      case None => None
      case Some(t) => Step(cfg, t, events[|events| - 1])
  }

  /** A provisioned device: some state files may be around, but no marker, and the active binary is trusted. */
  ghost predicate Init(cfg: Config, s: State) {
    && s.disk.older == [] && s.disk.links == [] && s.disk.files.marker.None? && s.proc.Booting? && s.lost == {}
    && s.confirmed == {Sha(cfg, s.disk.Active())}
    && cfg.provisioned == {Sha(cfg, s.disk.files.a), Sha(cfg, s.disk.files.b)}
  }

  ghost predicate Reachable(cfg: Config, s: State) {
    exists s0, events :: Init(cfg, s0) && Run(cfg, s0, events) == Some(s)
  }

  /** Installed at the factory, or the target of a pair the server signed. */
  ghost predicate Authorised(cfg: Config, hash: string) {
    hash in cfg.provisioned || exists d :: (hash, d) in cfg.signed
  }
}
