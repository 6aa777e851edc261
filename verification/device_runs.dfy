/** The protocol's runs on the device's directories: each step of `Device` is performed by one operation of
    `pkg/atomicio/atomicio.go` or one removal, whatever crashes fall in between, so what holds in the protocol's runs
    holds of the directories. */
module DeviceRuns {
  import opened Wrappers
  import opened Hex
  import opened Acceptance
  import opened Device
  import opened Directory
  import opened Durability
  import opened DeviceFiles
  import opened DeviceSafety

  // ---------------------------------------------------------------------------
  // What a step does to the directories
  // ---------------------------------------------------------------------------

  /** Nothing; a file replaced; a file removed; the link turned. `f` are the files afterwards. */
  datatype Effect =
    | Nothing
    | Put(path: string, c: Content, f: Files, synced: bool)
    | Take(path: string, f: Files)
    | Turn(slot: Slot, synced: bool)

  function BootEffect(cfg: Config, k: Codec, s: State, synced: bool): Effect {
    var f := s.disk.files;
    var active := Sha(cfg, s.disk.Active());
    if f.marker.None? then Nothing
    else if f.marker.value.next != active then Take(PENDING_UPDATE, f.(marker := None))
    else
      var n := BootCount(active, f.CountFor(active) + 1);
      Put(BOOT_COUNT, Data(k.boots(n)), f.(boots := Some(n)), synced)
  }

  function EffectOf(cfg: Config, k: Codec, s: State, e: Event): Effect {
    var f := s.disk.files;
    match e
    case Boot(y) => BootEffect(cfg, k, s, y)
    case ResetCounter => Take(BOOT_COUNT, f.(boots := None))
    case ClearMarker => Take(PENDING_UPDATE, f.(marker := None))
    case RestartFailed => Take(PENDING_UPDATE, f.(marker := None))
    case ClearCooldown => Take(RESTART_COOLDOWN, f.(cooldown := None))
    case StageSlot(y) =>
      var other := s.disk.link.Other();
      if s.proc.Ready? then Put(SlotName(other), Data(s.proc.bin), f.Written(other, s.proc.bin), y) else Nothing
    case WriteMarker(y) =>
      if s.proc.Staged? then
        var m := Marker(s.proc.previous, s.proc.target);
        Put(PENDING_UPDATE, Data(k.marker(m)), f.(marker := Some(m)), y)
      else Nothing
    case FlipLink(y) => Turn(s.disk.link.Other(), y)
    case ArmCooldown(until, y) =>
      if until.None? then Nothing
      else Put(RESTART_COOLDOWN, Data(k.cooldown(until.value)), f.(cooldown := until), y)
    case _ => Nothing
  }

  function Made(layout: Layout, d: Disk, effect: Effect): Disk {
    match effect
    case Nothing => d
    case Put(path, _, f, y) => if path in SLOT_FILES then d.WroteSlots(layout, f, y) else d.WroteState(layout, f, y)
    case Take(_, f) => d.Changed(f)
    case Turn(slot, y) => d.Linked(slot, y)
  }

  predicate Crashes(e: Event) { e.Killed? || e.PowerLoss? }

  lemma BootMakes(cfg: Config, k: Codec, s: State, y: bool)
    ensures BootStep(cfg, s, y).disk == Made(cfg.layout, s.disk, BootEffect(cfg, k, s, y))
  {
    hide Sha;
  }

  /** The effect is all a step does to the disk. */
  lemma StepMakes(cfg: Config, k: Codec, s: State, e: Event)
    requires Step(cfg, s, e).Some? && !Crashes(e)
    ensures Step(cfg, s, e).value.disk == Made(cfg.layout, s.disk, EffectOf(cfg, k, s, e))
  {
    hide Sha, Accept, Unforged, BootStep, BootEffect, Disk.WroteSlots, Disk.WroteState, Disk.Changed, Disk.Linked;
    if e.Boot? { BootMakes(cfg, k, s, e.synced); }
  }

  /** An effect on a file replaces just that file. */
  ghost predicate Apt(k: Codec, d: Disk, effect: Effect) {
    match effect
    case Nothing => true
    case Put(path, c, f, _) => Replaces(k, d.files, f, path, c) && path in SLOT_FILES + STATE_FILES
    case Take(path, f) => Replaces(k, d.files, f, path, Absent) && path in SLOT_FILES + STATE_FILES
    case Turn(_, _) => true
  }

  lemma CounterIsApt(k: Codec, d: Disk, n: BootCount, y: bool)
    ensures Apt(k, d, Put(BOOT_COUNT, Data(k.boots(n)), d.files.(boots := Some(n)), y))
    ensures Apt(k, d, Take(PENDING_UPDATE, d.files.(marker := None)))
  {
    AgentWrites(k, d.files, A, [], Marker("", ""), n, 0);
    hide Replaces, SlotName, Files.Written;
  }

  lemma NothingIsApt(k: Codec, d: Disk)
    ensures Apt(k, d, Nothing)
  {
  }

  lemma BootIsApt(cfg: Config, k: Codec, s: State, y: bool)
    ensures Apt(k, s.disk, BootEffect(cfg, k, s, y))
  {
    hide Sha, Apt, Files.CountFor;
    var active := Sha(cfg, s.disk.Active());
    CounterIsApt(k, s.disk, BootCount(active, s.disk.files.CountFor(active) + 1), y);
    if s.disk.files.marker.None? { NothingIsApt(k, s.disk); }
  }

  lemma EffectIsApt(cfg: Config, k: Codec, s: State, e: Event)
    ensures Apt(k, s.disk, EffectOf(cfg, k, s, e))
  {
    hide Sha, Replaces, SlotName, Files.Written, Files.CountFor, BootEffect;
    var f, none, zero := s.disk.files, Marker("", ""), BootCount("", 0);
    match e
    case Boot(y) => BootIsApt(cfg, k, s, y);
    case StageSlot(_) => if s.proc.Ready? { AgentWrites(k, f, s.disk.link.Other(), s.proc.bin, none, zero, 0); }
    case WriteMarker(_) => if s.proc.Staged? { AgentWrites(k, f, A, [], Marker(s.proc.previous, s.proc.target), zero, 0); }
    case ArmCooldown(until, _) => if until.Some? { AgentWrites(k, f, A, [], none, zero, until.value); }
    case _ => AgentWrites(k, f, A, [], none, zero, 0);
  }

  // ---------------------------------------------------------------------------
  // Performing a step
  // ---------------------------------------------------------------------------

  predicate InSlotsDir(layout: Layout, path: string) { layout.Shared? || path in SLOT_FILES }

  predicate Untracked(link: string, tmp: string) { tmp !in SLOT_FILES + STATE_FILES && tmp != link }

  function Unlinked(s: FsState, path: string): FsState {
    if path in View(s) then s.(pending := s.pending + [Unlink(path)]) else s
  }

  /** The operation that `effect` stands for leads from `dirs` to `dirs'`. */
  ghost predicate Performs(layout: Layout, k: Codec, link: string, dirs: Dirs, effect: Effect, dirs': Dirs) {
    match effect
    case Nothing => dirs' == dirs
    case Put(path, c, _, y) =>
      exists tmp :: Untracked(link, tmp) &&
        if InSlotsDir(layout, path) then dirs' == dirs.(slots := dirs'.slots) && Replacement(dirs.slots, dirs'.slots, tmp, path, c, y)
        else dirs' == dirs.(state := dirs'.state) && Replacement(dirs.state, dirs'.state, tmp, path, c, y)
    case Take(path, _) =>
      dirs' == if InSlotsDir(layout, path) then dirs.(slots := Unlinked(dirs.slots, path)) else dirs.(state := Unlinked(dirs.state, path))
    case Turn(slot, y) =>
      dirs' == dirs.(links := dirs'.links) && Replacement(dirs.links, dirs'.links, link + ".tmp", link, LinkTo(k.target(slot)), y)
  }

  /** A kill leaves the directories as they are, but for a temporary file it may leave behind in one of them. */
  ghost predicate Interrupted(link: string, dirs: Dirs, dirs': Dirs) {
    || dirs' == dirs
    || exists tmp :: Untracked(link, tmp) &&
         (|| (dirs' == dirs.(slots := dirs'.slots) && WellFormed(dirs'.slots) && Staging(dirs.slots, dirs'.slots, tmp))
          || (dirs' == dirs.(state := dirs'.state) && WellFormed(dirs'.state) && Staging(dirs.state, dirs'.state, tmp))
          || (dirs' == dirs.(links := dirs'.links) && WellFormed(dirs'.links) && Staging(dirs.links, dirs'.links, tmp)))
  }

  // ---------------------------------------------------------------------------
  // Whatever performs a step shows its outcome
  // ---------------------------------------------------------------------------

  lemma PutShows(layout: Layout, k: Codec, link: string, dirs: Dirs, d: Disk, effect: Effect, dirs': Dirs)
    requires DiskShows(layout, k, link, dirs, d) && Apt(k, d, effect) && effect.Put? && Performs(layout, k, link, dirs, effect, dirs')
    ensures DiskShows(layout, k, link, dirs', Made(layout, d, effect))
  {
    hide DiskShows, Replaces, Replacement, Disk.WroteSlots, Disk.WroteState;
    var Put(path, c, f, y) := effect;
    var tmp :| Untracked(link, tmp) &&
        if InSlotsDir(layout, path) then dirs' == dirs.(slots := dirs'.slots) && Replacement(dirs.slots, dirs'.slots, tmp, path, c, y)
        else dirs' == dirs.(state := dirs'.state) && Replacement(dirs.state, dirs'.state, tmp, path, c, y);
    if InSlotsDir(layout, path) {
      SlotsWriteRefines(layout, k, link, dirs, dirs'.slots, d, f, tmp, path, c, y);
      OneDirectory(d, f, y);
    } else {
      StateWriteRefines(k, link, dirs, dirs'.state, d, f, tmp, path, c, y);
    }
  }

  /** Removing what is not there changes nothing, in the directory as on the disk. */
  lemma AbsentShows(layout: Layout, k: Codec, link: string, dirs: Dirs, d: Disk, path: string)
    requires DiskShows(layout, k, link, dirs, d) && path in SLOT_FILES + STATE_FILES
    ensures InSlotsDir(layout, path) && path !in View(dirs.slots) ==> FilesImage(k, d.files)[path] == Absent
    ensures !InSlotsDir(layout, path) && path !in View(dirs.state) ==> FilesImage(k, d.files)[path] == Absent
  {
    Last(k, d);
    hide WellFormed, LeavesAlways, LeavesSome, Possible, FileImages;
  }

  lemma TakeNothing(k: Codec, f: Files, f': Files, path: string)
    requires Replaces(k, f, f', path, Absent) && path in FilesImage(k, f) && FilesImage(k, f)[path] == Absent
    requires f' == f.(boots := None) || f' == f.(marker := None) || f' == f.(cooldown := None)
    ensures f' == f
  {
    assert FilesImage(k, f') == FilesImage(k, f);
    assert FilesImage(k, f')[BOOT_COUNT] == FilesImage(k, f)[BOOT_COUNT];
    assert FilesImage(k, f')[PENDING_UPDATE] == FilesImage(k, f)[PENDING_UPDATE];
    assert FilesImage(k, f')[RESTART_COOLDOWN] == FilesImage(k, f)[RESTART_COOLDOWN];
  }

  lemma TakeShows(layout: Layout, k: Codec, link: string, dirs: Dirs, d: Disk, effect: Effect, dirs': Dirs)
    requires DiskShows(layout, k, link, dirs, d) && Apt(k, d, effect) && effect.Take? && Performs(layout, k, link, dirs, effect, dirs')
    requires effect.f == d.files.(boots := None) || effect.f == d.files.(marker := None) || effect.f == d.files.(cooldown := None)
    ensures DiskShows(layout, k, link, dirs', Made(layout, d, effect))
  {
    hide DiskShows, Replaces, FilesImage;
    var Take(path, f) := effect;
    AllNamed(Shared, k, d.files);
    AbsentShows(layout, k, link, dirs, d, path);
    if FilesImage(k, d.files)[path] == Absent { TakeNothing(k, d.files, f, path); }
    if InSlotsDir(layout, path) {
      if path in View(dirs.slots) { SlotsRemoveRefines(layout, k, link, dirs, d, f, path); }
    } else {
      if path in View(dirs.state) { StateRemoveRefines(k, link, dirs, d, f, path); }
    }
  }

  lemma TakesOne(cfg: Config, k: Codec, s: State, e: Event)
    ensures var effect, f := EffectOf(cfg, k, s, e), s.disk.files;
      effect.Take? ==> effect.f == f.(boots := None) || effect.f == f.(marker := None) || effect.f == f.(cooldown := None)
  {
    hide Sha, Files.CountFor;
  }

  /** Whatever performs a step of the protocol on directories that show its disk shows the disk after it. */
  lemma StepShows(cfg: Config, k: Codec, link: string, dirs: Dirs, s: State, e: Event, dirs': Dirs)
    requires DiskShows(cfg.layout, k, link, dirs, s.disk) && Step(cfg, s, e).Some? && !Crashes(e)
    requires Performs(cfg.layout, k, link, dirs, EffectOf(cfg, k, s, e), dirs')
    ensures DiskShows(cfg.layout, k, link, dirs', Step(cfg, s, e).value.disk)
  {
    hide DiskShows, Apt, Step, EffectOf;
    var effect := EffectOf(cfg, k, s, e);
    StepMakes(cfg, k, s, e);
    EffectIsApt(cfg, k, s, e);
    TakesOne(cfg, k, s, e);
    match effect
    case Nothing =>
    case Put(_, _, _, _) => PutShows(cfg.layout, k, link, dirs, s.disk, effect, dirs');
    case Take(_, _) => TakeShows(cfg.layout, k, link, dirs, s.disk, effect, dirs');
    case Turn(slot, y) =>
      assert link + ".tmp" != link by { assert |link + ".tmp"| == |link| + 4; }
      LinkRefines(cfg.layout, k, link, dirs, dirs'.links, s.disk, slot, link + ".tmp", y);
  }

  lemma StateIsElsewhere(k: Codec, link: string, dirs: Dirs, d: Disk, state: FsState)
    requires DiskShows(Shared, k, link, dirs, d)
    ensures DiskShows(Shared, k, link, dirs.(state := state), d)
  {
    hide Shows;
  }

  lemma InterruptedShows(layout: Layout, k: Codec, link: string, dirs: Dirs, d: Disk, dirs': Dirs)
    requires DiskShows(layout, k, link, dirs, d) && Interrupted(link, dirs, dirs')
    ensures DiskShows(layout, k, link, dirs', d)
  {
    hide DiskShows, Staging, WellFormed;
    if dirs' != dirs {
      var tmp :| Untracked(link, tmp) &&
         (|| (dirs' == dirs.(slots := dirs'.slots) && WellFormed(dirs'.slots) && Staging(dirs.slots, dirs'.slots, tmp))
          || (dirs' == dirs.(state := dirs'.state) && WellFormed(dirs'.state) && Staging(dirs.state, dirs'.state, tmp))
          || (dirs' == dirs.(links := dirs'.links) && WellFormed(dirs'.links) && Staging(dirs.links, dirs'.links, tmp)));
      if dirs' == dirs.(slots := dirs'.slots) && WellFormed(dirs'.slots) && Staging(dirs.slots, dirs'.slots, tmp) {
        StagingRefines(layout, k, link, dirs, dirs'.slots, d, tmp);
      } else if dirs' == dirs.(links := dirs'.links) && WellFormed(dirs'.links) && Staging(dirs.links, dirs'.links, tmp) {
        StagingRefines(layout, k, link, dirs, dirs'.links, d, tmp);
      } else if layout.Shared? {
        StateIsElsewhere(k, link, dirs, d, dirs'.state);
      } else {
        StagingRefines(layout, k, link, dirs, dirs'.state, d, tmp);
      }
    }
  }

  // ---------------------------------------------------------------------------
  // Every step can be performed
  // ---------------------------------------------------------------------------

  lemma {:induction false} UnusedFrom(inodes: set<nat>, from: nat) returns (i: nat)
    ensures i !in inodes && i >= from
    decreases inodes
  {
    if from !in inodes {
      i := from;
    } else {
      i := UnusedFrom(inodes - {from}, from + 1);
    }
  }

  lemma CanReplace(s: FsState, tmp: string, path: string, c: Content, y: bool) returns (t: FsState)
    requires WellFormed(s) && c != Absent && tmp != path
    ensures Replacement(s, t, tmp, path, c, y)
  {
    var ino := UnusedFrom(s.nodes.Keys, 0);
    var node := if c.Data? then File(c.bytes, true) else Symlink(c.target);
    var u := FsState(s.durable, s.pending + [Link(tmp, ino)], s.nodes[ino := node]);
    assert u.pending[..|u.pending| - 1] == s.pending;
    assert View(u) == View(s)[tmp := ino];
    t := if y then DirSynced(Renamed(u, tmp, path)) else Renamed(u, tmp, path);
    assert WellFormed(u) && Staging(s, u, tmp) && Durable(u, tmp, c);
  }

  lemma ShownIsWellFormed(layout: Layout, k: Codec, link: string, dirs: Dirs, d: Disk)
    requires DiskShows(layout, k, link, dirs, d)
    ensures WellFormed(dirs.links) && WellFormed(dirs.slots) && (layout.Split? ==> WellFormed(dirs.state))
  {
    hide WellFormed, CachedAs, LeavesAlways, LeavesSome, Possible;
  }

  lemma Untaken(link: string) returns (tmp: string)
    ensures Untracked(link, tmp)
  {
    tmp := seq(|link| + 20, _ => '.');
    assert |tmp| == |link| + 20;
    assert forall n :: n in SLOT_FILES + STATE_FILES ==> |n| < 20;
  }

  lemma PutsSomething(cfg: Config, k: Codec, s: State, e: Event)
    ensures EffectOf(cfg, k, s, e).Put? ==> EffectOf(cfg, k, s, e).c != Absent
  {
    hide Sha, Files.CountFor;
  }

  lemma CanPerform(cfg: Config, k: Codec, link: string, dirs: Dirs, s: State, e: Event) returns (dirs': Dirs)
    requires DiskShows(cfg.layout, k, link, dirs, s.disk)
    ensures Performs(cfg.layout, k, link, dirs, EffectOf(cfg, k, s, e), dirs')
  {
    hide DiskShows, EffectOf, Replacement, WellFormed;
    var effect := EffectOf(cfg, k, s, e);
    ShownIsWellFormed(cfg.layout, k, link, dirs, s.disk);
    dirs' := dirs;
    match effect
    case Nothing =>
    case Put(path, c, f, y) =>
      var tmp := Untaken(link);
      PutsSomething(cfg, k, s, e);
      EffectIsApt(cfg, k, s, e);
      if InSlotsDir(cfg.layout, path) {
        var t := CanReplace(dirs.slots, tmp, path, c, y);
        dirs' := dirs.(slots := t);
      } else {
        var t := CanReplace(dirs.state, tmp, path, c, y);
        dirs' := dirs.(state := t);
      }
    case Take(path, _) =>
      dirs' := if InSlotsDir(cfg.layout, path) then dirs.(slots := Unlinked(dirs.slots, path)) else dirs.(state := Unlinked(dirs.state, path));
    case Turn(slot, y) =>
      assert link + ".tmp" != link by { assert |link + ".tmp"| == |link| + 4; }
      var t := CanReplace(dirs.links, link + ".tmp", link, LinkTo(k.target(slot)), y);
      dirs' := dirs.(links := t);
  }

  // ---------------------------------------------------------------------------
  // Runs
  // ---------------------------------------------------------------------------

  /** A power loss is a crash of the directories that leaves what it says. */
  ghost predicate CrashedTo(layout: Layout, k: Codec, link: string, dirs: Dirs, d: Disk, dirs': Dirs) {
    exists l: nat, i: nat, j: nat, junk: nat -> Bytes ::
      CanKeep(dirs, l, i, j) && dirs' == Crashed(dirs, l, i, j, junk) && DiskShows(layout, k, link, dirs', d)
  }

  /** Event `e`, in protocol state `s`, takes the directories from `dirs` to `dirs'`. */
  ghost predicate Carried(cfg: Config, k: Codec, link: string, dirs: Dirs, s: State, e: Event, dirs': Dirs) {
    if e.Killed? then Interrupted(link, dirs, dirs')
    else if e.PowerLoss? then Step(cfg, s, e).Some? && CrashedTo(cfg.layout, k, link, dirs, Step(cfg, s, e).value.disk, dirs')
    else Performs(cfg.layout, k, link, dirs, EffectOf(cfg, k, s, e), dirs')
  }

  /** The directories after a run of the protocol from `s` that began on `dirs`. */
  ghost predicate CarriedAll(cfg: Config, k: Codec, link: string, dirs: Dirs, s: State, events: seq<Event>, dirs': Dirs)
    requires Run(cfg, s, events).Some?
  {
    if events == [] then dirs' == dirs
    else
      var rest := events[..|events| - 1];
      exists mid :: CarriedAll(cfg, k, link, dirs, s, rest, mid)
        && Carried(cfg, k, link, mid, Run(cfg, s, rest).value, events[|events| - 1], dirs')
  }

  lemma KillKeepsDisk(cfg: Config, s: State)
    ensures Step(cfg, s, Killed).Some? && Step(cfg, s, Killed).value.disk == s.disk
  {
  }

  lemma CarriedShows(cfg: Config, k: Codec, link: string, dirs: Dirs, s: State, e: Event, dirs': Dirs)
    requires DiskShows(cfg.layout, k, link, dirs, s.disk) && Step(cfg, s, e).Some? && Carried(cfg, k, link, dirs, s, e, dirs')
    ensures DiskShows(cfg.layout, k, link, dirs', Step(cfg, s, e).value.disk)
  {
    hide DiskShows, Performs, EffectOf, Interrupted, Step;
    if e.Killed? {
      KillKeepsDisk(cfg, s);
      InterruptedShows(cfg.layout, k, link, dirs, s.disk, dirs');
    } else if !e.PowerLoss? {
      StepShows(cfg, k, link, dirs, s, e, dirs');
    }
  }

  /** Over every run, whatever failed fsyncs, kills and power losses it contains, the directories show the disk the
      protocol says they do. */
  lemma {:induction false} RunShows(cfg: Config, k: Codec, link: string, dirs: Dirs, s: State, events: seq<Event>, dirs': Dirs)
    requires DiskShows(cfg.layout, k, link, dirs, s.disk) && Run(cfg, s, events).Some?
    requires CarriedAll(cfg, k, link, dirs, s, events, dirs')
    ensures DiskShows(cfg.layout, k, link, dirs', Run(cfg, s, events).value.disk)
  {
    hide DiskShows, Carried, Step;
    if events == [] {
      assert Run(cfg, s, events) == Some(s);
    } else {
      var rest, e := events[..|events| - 1], events[|events| - 1];
      var mid :| CarriedAll(cfg, k, link, dirs, s, rest, mid) && Carried(cfg, k, link, mid, Run(cfg, s, rest).value, e, dirs');
      RunShows(cfg, k, link, dirs, s, rest, mid);
      CarriedShows(cfg, k, link, mid, Run(cfg, s, rest).value, e, dirs');
    }
  }

  lemma LossIs(cfg: Config, s: State, e: Event)
    requires e.PowerLoss? && Step(cfg, s, e).Some?
    ensures e.link < |s.disk.Links()| && s.disk.MayLeave(cfg.layout, e.slots, e.state)
    ensures Step(cfg, s, e).value.disk == PowerLost(s.disk, e.link, e.slots, e.state)
  {
    hide PowerLost;
  }

  lemma CanCarry(cfg: Config, k: Codec, link: string, dirs: Dirs, s: State, e: Event) returns (dirs': Dirs)
    requires DiskShows(cfg.layout, k, link, dirs, s.disk) && Step(cfg, s, e).Some?
    ensures Carried(cfg, k, link, dirs, s, e, dirs')
  {
    hide DiskShows, EffectOf, Performs, Crashed;
    dirs' := dirs;
    if e.PowerLoss? {
      LossIs(cfg, s, e);
      var l, i, j := EveryPowerLossIsACrash(cfg.layout, k, link, dirs, s.disk, e.link, e.slots, e.state);
      var junk: nat -> Bytes := _ => [];
      dirs' := Crashed(dirs, l, i, j, junk);
      assert DiskShows(cfg.layout, k, link, dirs', PowerLost(s.disk, e.link, e.slots, e.state));
    } else if !e.Killed? {
      dirs' := CanPerform(cfg, k, link, dirs, s, e);
    }
  }

  /** And every run of the protocol can be carried out on them. */
  lemma {:induction false} RunCanBeCarried(cfg: Config, k: Codec, link: string, dirs: Dirs, s: State, events: seq<Event>)
    returns (dirs': Dirs)
    requires DiskShows(cfg.layout, k, link, dirs, s.disk) && Run(cfg, s, events).Some?
    ensures CarriedAll(cfg, k, link, dirs, s, events, dirs') && DiskShows(cfg.layout, k, link, dirs', Run(cfg, s, events).value.disk)
  {
    hide DiskShows, Carried, Step;
    if events == [] {
      dirs' := dirs;
    } else {
      var rest, e := events[..|events| - 1], events[|events| - 1];
      var mid := RunCanBeCarried(cfg, k, link, dirs, s, rest);
      dirs' := CanCarry(cfg, k, link, mid, Run(cfg, s, rest).value, e);
      CarriedShows(cfg, k, link, mid, Run(cfg, s, rest).value, e, dirs');
    }
  }

  lemma LossHappens(cfg: Config, s: State, l: nat, i: nat, j: nat)
    requires l < |s.disk.Links()| && s.disk.MayLeave(cfg.layout, i, j)
    ensures Step(cfg, s, PowerLoss(l, i, j)).Some?
    ensures Step(cfg, s, PowerLoss(l, i, j)).value.disk == PowerLost(s.disk, l, i, j)
  {
    hide PowerLost;
  }

  /** No crash escapes the protocol: whatever is kept of the directories and made of unsynced data is one of its power
      losses. */
  lemma CrashIsCarried(cfg: Config, k: Codec, link: string, dirs: Dirs, s: State, kl: nat, ki: nat, kj: nat, junk: nat -> Bytes)
    returns (e: Event)
    requires DiskShows(cfg.layout, k, link, dirs, s.disk) && CanKeep(dirs, kl, ki, kj)
    ensures e.PowerLoss? && Step(cfg, s, e).Some? && Carried(cfg, k, link, dirs, s, e, Crashed(dirs, kl, ki, kj, junk))
  {
    hide DiskShows, EffectOf, Performs, Interrupted, Crashed;
    var l, i, j := EveryCrashIsAPowerLoss(cfg.layout, k, link, dirs, s.disk, kl, ki, kj, junk);
    e := PowerLoss(l, i, j);
    LossHappens(cfg, s, l, i, j);
  }

  /** Nor does a kill in the middle of a write: each point of it is before the write, or after it, synced or not. */
  lemma CutShortIsCarried(layout: Layout, k: Codec, link: string, dirs: Dirs, effect: Effect, u: FsState, tmp: string)
    requires effect.Put? && Untracked(link, tmp)
    requires Underway(if InSlotsDir(layout, effect.path) then dirs.slots else dirs.state, u, tmp, effect.path, effect.c)
    ensures var dirs' := if InSlotsDir(layout, effect.path) then dirs.(slots := u) else dirs.(state := u);
      || Interrupted(link, dirs, dirs') || Performs(layout, k, link, dirs, Put(effect.path, effect.c, effect.f, false), dirs')
      || Performs(layout, k, link, dirs, Put(effect.path, effect.c, effect.f, true), dirs')
  {
    hide Replacement, Staging, WellFormed;
  }

  lemma ReadsTheLink(layout: Layout, k: Codec, link: string, dirs: Dirs, d: Disk)
    requires DiskShows(layout, k, link, dirs, d)
    ensures Read(dirs.links, link) == LinkTo(k.target(d.link)) && Read(dirs.slots, SlotName(d.link)) == Data(d.Active())
  {
    Last(k, d);
    assert LinkImages(k, link, d)[|d.links|] == LinkImage(k, link, d.link);
    hide WellFormed, LeavesAlways, LeavesSome, Possible, FileImages, LinkImages;
  }

  /** So what the protocol guarantees of its disk, the directories guarantee: from a provisioned device, after any run
      and any crash, the link leads to a slot with a whole, authorised binary. */
  lemma LinkLeadsToAuthorised(cfg: Config, k: Codec, link: string, dirs: Dirs, s0: State, events: seq<Event>, dirs': Dirs)
    requires Lawful(cfg) && Init(cfg, s0) && Run(cfg, s0, events).Some? && DiskShows(cfg.layout, k, link, dirs, s0.disk)
    requires CarriedAll(cfg, k, link, dirs, s0, events, dirs')
    ensures exists slot: Slot, bin: Bytes ::
              && Read(dirs'.links, link) == LinkTo(k.target(slot)) && Read(dirs'.slots, SlotName(slot)) == Data(bin)
              && Authorised(cfg, Sha(cfg, bin))
  {
    hide DiskShows, CarriedAll, Step, Authorised, Lawful, Init;
    RunShows(cfg, k, link, dirs, s0, events, dirs');
    var d := Run(cfg, s0, events).value.disk;
    assert Reachable(cfg, Run(cfg, s0, events).value);
    ActiveIsAuthorised(cfg, Run(cfg, s0, events).value, |d.links|, |d.older|, |d.older|);
    ReadsTheLink(cfg.layout, k, link, dirs', d);
    assert Read(dirs'.slots, SlotName(d.link)) == Data(d.Active()) && Authorised(cfg, Sha(cfg, d.Active()));
  }
}
