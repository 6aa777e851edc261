/** The device's disk in its directories: each write, link flip and removal of the agent (`pkg/agent/slots.go`,
    `updater.go`, `watchdog.go`), made with the crash-atomic operations of `pkg/atomicio/atomicio.go`, is one change
    of the protocol's disk, and what power losses leave of the directories are exactly that disk's images. */
module DeviceFiles {
  import opened Wrappers
  import opened Hex
  import opened Device
  import opened Directory
  import opened AtomicIo
  import opened Durability

  /** How records are written down, and what the link says. */
  datatype Codec = Codec(marker: Marker -> Bytes, boots: BootCount -> Bytes, cooldown: int -> Bytes, target: Slot -> string)

  function Stored<T>(record: Option<T>, encode: T -> Bytes): Content {
    match record
    case None => Absent
    case Some(x) => Data(encode(x))
  }

  function SlotName(slot: Slot): string { if slot.A? then "A" else "B" }

  const BOOT_COUNT := ".boot_count"
  const PENDING_UPDATE := ".pending_update"
  const RESTART_COOLDOWN := ".restart_cooldown"

  const SLOT_FILES: set<string> := {"A", "B", BOOT_COUNT}
  const STATE_FILES: set<string> := {PENDING_UPDATE, RESTART_COOLDOWN}

  /** The names that matter in the slots directory. */
  function SlotNames(layout: Layout): set<string> {
    if layout.Shared? then SLOT_FILES + STATE_FILES else SLOT_FILES
  }

  function FilesImage(k: Codec, f: Files): Image {
    map["A" := Data(f.a), "B" := Data(f.b), BOOT_COUNT := Stored(f.boots, k.boots),
        PENDING_UPDATE := Stored(f.marker, k.marker), RESTART_COOLDOWN := Stored(f.cooldown, k.cooldown)]
  }

  function FileImages(k: Codec, d: Disk): seq<Image> {
    seq(|d.Images()|, i requires 0 <= i < |d.Images()| => FilesImage(k, d.Images()[i]))
  }

  function LinkImage(k: Codec, name: string, slot: Slot): Image {
    map[name := LinkTo(k.target(slot))]
  }

  function LinkImages(k: Codec, name: string, d: Disk): seq<Image> {
    seq(|d.Links()|, i requires 0 <= i < |d.Links()| => LinkImage(k, name, d.Links()[i]))
  }

  /** The directory of the link, that of the slots, and, if it is another one, that of the state files. */
  datatype Dirs = Dirs(links: FsState, slots: FsState, state: FsState)

  /** `d` is what is cached in the directories, and its images are exactly what power losses may leave of them. */
  ghost predicate DiskShows(layout: Layout, k: Codec, link: string, dirs: Dirs, d: Disk) {
    && Shows(dirs.links, {link}, LinkImages(k, link, d))
    && Shows(dirs.slots, SlotNames(layout), FileImages(k, d))
    && (layout.Split? ==> Shows(dirs.state, STATE_FILES, FileImages(k, d)))
  }

  // ---------------------------------------------------------------------------
  // Images of changed disks
  // ---------------------------------------------------------------------------

  lemma Last(k: Codec, d: Disk)
    ensures FileImages(k, d) != [] && FileImages(k, d)[|FileImages(k, d)| - 1] == FilesImage(k, d.files)
  {
  }

  lemma AllNamed(layout: Layout, k: Codec, f: Files)
    ensures forall n :: n in SlotNames(layout) || n in STATE_FILES ==> n in FilesImage(k, f)
  {
  }

  /** A change adds one image, or none if it changes nothing. */
  lemma ChangedImages(k: Codec, d: Disk, f: Files)
    ensures FileImages(k, d.Changed(f)) == if f == d.files then FileImages(k, d) else FileImages(k, d) + [FilesImage(k, f)]
  {
  }

  lemma ListsItself(names: set<string>, k: Codec, d: Disk)
    requires names <= SLOT_FILES + STATE_FILES
    ensures forall i :: 0 <= i < |FileImages(k, d)| ==> Agree(names, FileImages(k, d)[i], FileImages(k, d)[i])
  {
    forall i | 0 <= i < |FileImages(k, d)| ensures Agree(names, FileImages(k, d)[i], FileImages(k, d)[i]) {
      AllNamed(Shared, k, d.Images()[i]);
    }
  }

  lemma TwiceTheLast(names: set<string>, xs: seq<Image>, x: Image)
    requires xs != [] && xs[|xs| - 1] == x && forall i :: 0 <= i < |xs| ==> Agree(names, xs[i], xs[i])
    ensures Covered(names, xs + [x], xs) && Covered(names, xs, xs + [x]) && Agree(names, x, x)
  {
    hide Agree;
    forall i | 0 <= i < |xs| + 1 ensures Listed(names, (xs + [x])[i], xs) {
      if i < |xs| { assert Agree(names, xs[i], xs[i]); } else { assert Agree(names, xs[|xs| - 1], xs[|xs| - 1]); }
    }
    forall i | 0 <= i < |xs| ensures Listed(names, xs[i], xs + [x]) {
      assert (xs + [x])[i] == xs[i];
    }
  }

  lemma ChangedShows(s: FsState, names: set<string>, k: Codec, d: Disk, f: Files)
    requires Shows(s, names, FileImages(k, d) + [FilesImage(k, f)]) && names <= SLOT_FILES + STATE_FILES
    ensures Shows(s, names, FileImages(k, d.Changed(f)))
  {
    hide Shows, FilesImage, Agree;
    ChangedImages(k, d, f);
    var xs := FileImages(k, d);
    Last(k, d);
    if f == d.files {
      ListsItself(names, k, d);
      TwiceTheLast(names, xs, FilesImage(k, f));
      Restate(s, names, xs + [FilesImage(k, f)], xs);
    }
  }

  lemma LikeTheLast(names: set<string>, xs: seq<Image>, y: Image)
    requires xs != [] && Agree(names, y, xs[|xs| - 1]) && forall i :: 0 <= i < |xs| ==> Agree(names, xs[i], xs[i])
    ensures Covered(names, xs + [y], xs) && Covered(names, xs, xs + [y])
  {
    hide Agree;
    forall i | 0 <= i < |xs| + 1 ensures Listed(names, (xs + [y])[i], xs) {
      if i < |xs| { assert Agree(names, xs[i], xs[i]); }
    }
    forall i | 0 <= i < |xs| ensures Listed(names, xs[i], xs + [y]) {
      assert (xs + [y])[i] == xs[i];
    }
  }

  /** A change elsewhere shows only what was there already. */
  lemma Elsewhere(s: FsState, names: set<string>, k: Codec, d: Disk, f: Files)
    requires Shows(s, names, FileImages(k, d)) && names <= SLOT_FILES + STATE_FILES
    requires Agree(names, FilesImage(k, d.files), FilesImage(k, f))
    ensures Shows(s, names, FileImages(k, d.Changed(f)))
  {
    hide Shows, FilesImage, Agree;
    ChangedImages(k, d, f);
    var xs, y := FileImages(k, d), FilesImage(k, f);
    Last(k, d);
    ListsItself(names, k, d);
    if f != d.files {
      AgreeBack(names, xs[|xs| - 1], y);
      LikeTheLast(names, xs, y);
      Restate(s, names, xs, xs + [y]);
    }
  }

  lemma ListedAt(names: set<string>, xs: seq<Image>, ys: seq<Image>, i: nat)
    requires i < |xs| && i < |ys| && Agree(names, xs[i], ys[i])
    ensures Listed(names, xs[i], ys) && Listed(names, ys[i], xs)
  {
    hide Agree;
    AgreeBack(names, xs[i], ys[i]);
  }

  lemma OneByOne(s: FsState, names: set<string>, xs: seq<Image>, ys: seq<Image>)
    requires Shows(s, names, xs) && xs != [] && |xs| == |ys| && forall i :: 0 <= i < |xs| ==> Agree(names, xs[i], ys[i])
    ensures Shows(s, names, ys)
  {
    hide Shows, Agree, Listed;
    forall i | 0 <= i < |xs| ensures Listed(names, xs[i], ys) && Listed(names, ys[i], xs) {
      ListedAt(names, xs, ys, i);
    }
    Restate(s, names, xs, ys);
  }

  lemma AllOne(s: FsState, names: set<string>, x: Image, ys: seq<Image>)
    requires Shows(s, names, [x]) && ys != [] && forall i :: 0 <= i < |ys| ==> Agree(names, x, ys[i])
    ensures Shows(s, names, ys)
  {
    hide Shows, Agree;
    assert Listed(names, [x][0], ys) by { assert Agree(names, x, ys[0]); }
    forall i | 0 <= i < |ys| ensures Listed(names, ys[i], [x]) {
      AgreeBack(names, x, ys[i]);
      assert Agree(names, ys[i], [x][0]);
    }
    assert Agree(names, x, ys[|ys| - 1]);
    Restate(s, names, [x], ys);
  }

  /** An fsynced slots directory shows one image of the slots, and leaves a separate state directory alone. */
  lemma SlotsSyncedShows(layout: Layout, k: Codec, s: FsState, t: FsState, d: Disk)
    requires Shows(s, SlotNames(layout), [FilesImage(k, d.files)])
    requires layout.Split? ==> Shows(t, STATE_FILES, FileImages(k, d))
    ensures Shows(s, SlotNames(layout), FileImages(k, d.SlotsSynced(layout)))
    ensures layout.Split? ==> Shows(t, STATE_FILES, FileImages(k, d.SlotsSynced(layout)))
  {
    hide Shows;
    var ys := FileImages(k, d.SlotsSynced(layout));
    forall i | 0 <= i < |ys| ensures Agree(SlotNames(layout), FilesImage(k, d.files), ys[i]) {}
    AllOne(s, SlotNames(layout), FilesImage(k, d.files), ys);
    if layout.Split? {
      var xs := FileImages(k, d);
      forall i | 0 <= i < |xs| ensures Agree(STATE_FILES, xs[i], ys[i]) {}
      OneByOne(t, STATE_FILES, xs, ys);
    }
  }

  lemma StateSyncedShows(k: Codec, s: FsState, t: FsState, d: Disk)
    requires Shows(t, STATE_FILES, [FilesImage(k, d.files)]) && Shows(s, SLOT_FILES, FileImages(k, d))
    ensures Shows(t, STATE_FILES, FileImages(k, d.StateSynced(Split))) && Shows(s, SLOT_FILES, FileImages(k, d.StateSynced(Split)))
  {
    hide Shows;
    var xs, ys := FileImages(k, d), FileImages(k, d.StateSynced(Split));
    forall i | 0 <= i < |ys| ensures Agree(STATE_FILES, FilesImage(k, d.files), ys[i]) {}
    AllOne(t, STATE_FILES, FilesImage(k, d.files), ys);
    forall i | 0 <= i < |xs| ensures Agree(SLOT_FILES, xs[i], ys[i]) {}
    OneByOne(s, SLOT_FILES, xs, ys);
  }

  // ---------------------------------------------------------------------------
  // One operation, one change of the disk
  // ---------------------------------------------------------------------------

  lemma SomeImage(s: FsState, names: set<string>, xs: seq<Image>)
    requires Shows(s, names, xs)
    ensures xs != []
  {
    hide CachedAs, LeavesAlways, LeavesSome, Possible, WellFormed;
  }

  lemma RenamedWellFormed(u: FsState, tmp: string, path: string)
    requires WellFormed(u)
    ensures WellFormed(Renamed(u, tmp, path)) && WellFormed(DirSynced(Renamed(u, tmp, path)))
  {
    var v := Renamed(u, tmp, path);
    forall i | 0 <= i < |v.pending| && v.pending[i].Link? ensures v.pending[i].ino in v.nodes {
      assert v.pending[i] == u.pending[i];
    }
    ReplayStaysInside(v.durable, v.pending, v.nodes.Keys);
  }

  lemma ReplacementShows(s: FsState, t: FsState, names: set<string>, xs: seq<Image>, tmp: string, path: string, c: Content, synced: bool)
    requires Shows(s, names, xs) && Replacement(s, t, tmp, path, c, synced) && tmp !in names && path in names
    ensures Shows(t, names, if synced then [With(xs, path, c)] else xs + [With(xs, path, c)])
  {
    hide Shows, WellFormed, Staging, Durable, With;
    SomeImage(s, names, xs);
    var u :| WellFormed(u) && Staging(s, u, tmp) && Durable(u, tmp, c) && t == if synced then DirSynced(Renamed(u, tmp, path)) else Renamed(u, tmp, path);
    RenamedWellFormed(u, tmp, path);
    RenamedShows(s, u, names, xs, tmp, path, c);
    if synced {
      SyncedShows(Renamed(u, tmp, path), names, xs + [With(xs, path, c)]);
    }
  }

  /** `f` is the files with `path` replaced by `c`. */
  ghost predicate Replaces(k: Codec, f: Files, f': Files, path: string, c: Content) {
    FilesImage(k, f') == FilesImage(k, f)[path := c]
  }

  lemma WithIs(k: Codec, d: Disk, f: Files, path: string, c: Content)
    requires Replaces(k, d.files, f, path, c)
    ensures With(FileImages(k, d), path, c) == FilesImage(k, f)
  {
    Last(k, d);
  }

  lemma ElsewhereAgrees(k: Codec, f: Files, f': Files, path: string, c: Content, names: set<string>)
    requires Replaces(k, f, f', path, c) && path !in names && names <= SLOT_FILES + STATE_FILES
    ensures Agree(names, FilesImage(k, f), FilesImage(k, f'))
  {
    AllNamed(Shared, k, f);
  }

  lemma SameLinks(k: Codec, link: string, d: Disk, e: Disk)
    requires e.link == d.link && e.links == d.links
    ensures LinkImages(k, link, e) == LinkImages(k, link, d)
  {
  }

  /** A file of the slots directory is written: a slot, the counter, or, with one directory for all, a state file. */
  lemma SlotsWriteRefines(layout: Layout, k: Codec, link: string, dirs: Dirs, t: FsState, d: Disk, f: Files,
                          tmp: string, path: string, c: Content, synced: bool)
    requires DiskShows(layout, k, link, dirs, d) && Replacement(dirs.slots, t, tmp, path, c, synced)
    requires Replaces(k, d.files, f, path, c) && path in SlotNames(layout) && tmp !in SlotNames(layout)
    ensures DiskShows(layout, k, link, dirs.(slots := t), d.WroteSlots(layout, f, synced))
  {
    hide Shows, Replaces, FilesImage, FileImages;
    SameLinks(k, link, d, d.WroteSlots(layout, f, synced));
    WithIs(k, d, f, path, c);
    ReplacementShows(dirs.slots, t, SlotNames(layout), FileImages(k, d), tmp, path, c, synced);
    var e := d.Changed(f);
    if layout.Split? {
      ElsewhereAgrees(k, d.files, f, path, c, STATE_FILES);
      Elsewhere(dirs.state, STATE_FILES, k, d, f);
    }
    if synced {
      assert e.files == f;
      SlotsSyncedShows(layout, k, t, dirs.state, e);
    } else {
      ChangedShows(t, SlotNames(layout), k, d, f);
    }
  }

  /** A state file is written in a directory of its own. */
  lemma StateWriteRefines(k: Codec, link: string, dirs: Dirs, t: FsState, d: Disk, f: Files,
                          tmp: string, path: string, c: Content, synced: bool)
    requires DiskShows(Split, k, link, dirs, d) && Replacement(dirs.state, t, tmp, path, c, synced)
    requires Replaces(k, d.files, f, path, c) && path in STATE_FILES && tmp !in STATE_FILES
    ensures DiskShows(Split, k, link, dirs.(state := t), d.WroteState(Split, f, synced))
  {
    hide Shows, Replaces, FilesImage, FileImages;
    SameLinks(k, link, d, d.WroteState(Split, f, synced));
    WithIs(k, d, f, path, c);
    ReplacementShows(dirs.state, t, STATE_FILES, FileImages(k, d), tmp, path, c, synced);
    ElsewhereAgrees(k, d.files, f, path, c, SLOT_FILES);
    Elsewhere(dirs.slots, SLOT_FILES, k, d, f);
    if synced {
      assert d.Changed(f).files == f;
      StateSyncedShows(k, dirs.slots, t, d.Changed(f));
    } else {
      ChangedShows(t, STATE_FILES, k, d, f);
    }
  }

  /** With one directory, writing the slots and writing the state are the same. */
  lemma OneDirectory(d: Disk, f: Files, synced: bool)
    ensures d.WroteSlots(Shared, f, synced) == d.WroteState(Shared, f, synced)
  {
  }

  /** The link is flipped. */
  lemma LinkRefines(layout: Layout, k: Codec, link: string, dirs: Dirs, t: FsState, d: Disk, slot: Slot, tmp: string, synced: bool)
    requires DiskShows(layout, k, link, dirs, d) && tmp != link
    requires Replacement(dirs.links, t, tmp, link, LinkTo(k.target(slot)), synced)
    ensures DiskShows(layout, k, link, dirs.(links := t), d.Linked(slot, synced))
  {
    hide Shows, Replacement;
    ReplacementShows(dirs.links, t, {link}, LinkImages(k, link, d), tmp, link, LinkTo(k.target(slot)), synced);
    var xs, e := LinkImages(k, link, d), d.Linked(slot, synced);
    assert With(xs, link, LinkTo(k.target(slot))) == LinkImage(k, link, slot);
    assert LinkImages(k, link, e) == if synced then [LinkImage(k, link, slot)] else xs + [LinkImage(k, link, slot)];
    assert FileImages(k, e) == FileImages(k, d);
  }

  /** A file is removed: the counter, or, with one directory for all, a state file. */
  lemma SlotsRemoveRefines(layout: Layout, k: Codec, link: string, dirs: Dirs, d: Disk, f: Files, path: string)
    requires DiskShows(layout, k, link, dirs, d) && Replaces(k, d.files, f, path, Absent) && path in SlotNames(layout)
    ensures var t := dirs.slots.(pending := dirs.slots.pending + [Unlink(path)]);
            DiskShows(layout, k, link, dirs.(slots := t), d.Changed(f))
  {
    hide Shows, Replaces, FilesImage, FileImages;
    var t := dirs.slots.(pending := dirs.slots.pending + [Unlink(path)]);
    SameLinks(k, link, d, d.Changed(f));
    WithIs(k, d, f, path, Absent);
    RemovedShows(dirs.slots, SlotNames(layout), FileImages(k, d), path);
    ChangedShows(t, SlotNames(layout), k, d, f);
    if layout.Split? {
      ElsewhereAgrees(k, d.files, f, path, Absent, STATE_FILES);
      Elsewhere(dirs.state, STATE_FILES, k, d, f);
    }
  }

  lemma StateRemoveRefines(k: Codec, link: string, dirs: Dirs, d: Disk, f: Files, path: string)
    requires DiskShows(Split, k, link, dirs, d) && Replaces(k, d.files, f, path, Absent) && path in STATE_FILES
    ensures var t := dirs.state.(pending := dirs.state.pending + [Unlink(path)]);
            DiskShows(Split, k, link, dirs.(state := t), d.Changed(f))
  {
    hide Shows, Replaces, FilesImage, FileImages;
    var t := dirs.state.(pending := dirs.state.pending + [Unlink(path)]);
    SameLinks(k, link, d, d.Changed(f));
    WithIs(k, d, f, path, Absent);
    RemovedShows(dirs.state, STATE_FILES, FileImages(k, d), path);
    ChangedShows(t, STATE_FILES, k, d, f);
    ElsewhereAgrees(k, d.files, f, path, Absent, SLOT_FILES);
    Elsewhere(dirs.slots, SLOT_FILES, k, d, f);
  }

  lemma SettledDirectory(s: FsState, names: set<string>, x: Image)
    requires s.pending == [] && WellFormed(s) && (forall i :: i in s.nodes && s.nodes[i].File? ==> s.nodes[i].synced)
    requires forall n :: n in names ==> n in x && Lookup(s.durable, s.nodes, n) == x[n]
    ensures Shows(s, names, [x])
  {
    forall junk: nat -> Bytes ensures Leaves(s, names, 0, junk, x) {
      assert SurvivingNodes(s.nodes, junk) == s.nodes && s.pending[..0] == [];
    }
    OnlyImage(s, names, x);
  }

  /** A provisioned device has such directories: both slots and the link, fsynced, and no state file yet. */
  lemma ProvisionedShows(layout: Layout, k: Codec, link: string, a: Bytes, b: Bytes) returns (dirs: Dirs)
    ensures DiskShows(layout, k, link, dirs, Disk(A, [], Files(a, b, None, None, None), []))
  {
    var d := Disk(A, [], Files(a, b, None, None, None), []);
    var slots := FsState(map["A" := 0, "B" := 1], [], map[0 := File(a, true), 1 := File(b, true)]);
    var links := FsState(map[link := 0], [], map[0 := Symlink(k.target(A))]);
    var state := FsState(map[], [], map[]);
    dirs := Dirs(links, slots, state);
    SettledDirectory(slots, SlotNames(layout), FilesImage(k, d.files));
    SettledDirectory(links, {link}, LinkImage(k, link, A));
    SettledDirectory(state, STATE_FILES, FilesImage(k, d.files));
    assert FileImages(k, d) == [FilesImage(k, d.files)] && LinkImages(k, link, d) == [LinkImage(k, link, A)];
  }

  // ---------------------------------------------------------------------------
  // The operations themselves
  // ---------------------------------------------------------------------------

  /** How a write that ran left things: unchanged on error, and otherwise one change of the disk. */
  ghost predicate Did(layout: Layout, k: Codec, link: string, dirs: Dirs, before: Disk, after: Disk, err: bool) {
    DiskShows(layout, k, link, dirs, if err then before else after)
  }

  lemma StagingRefines(layout: Layout, k: Codec, link: string, dirs: Dirs, t: FsState, d: Disk, tmp: string)
    requires DiskShows(layout, k, link, dirs, d) && WellFormed(t) && tmp !in SLOT_FILES + STATE_FILES && tmp != link
    ensures Staging(dirs.slots, t, tmp) ==> DiskShows(layout, k, link, dirs.(slots := t), d)
    ensures Staging(dirs.state, t, tmp) && layout.Split? ==> DiskShows(layout, k, link, dirs.(state := t), d)
    ensures Staging(dirs.links, t, tmp) ==> DiskShows(layout, k, link, dirs.(links := t), d)
  {
    hide Shows, FilesImage, FileImages, LinkImages;
    if Staging(dirs.slots, t, tmp) { StagingShows(dirs.slots, t, SlotNames(layout), FileImages(k, d), tmp); }
    if Staging(dirs.state, t, tmp) && layout.Split? { StagingShows(dirs.state, t, STATE_FILES, FileImages(k, d), tmp); }
    if Staging(dirs.links, t, tmp) { StagingShows(dirs.links, t, {link}, LinkImages(k, link, d), tmp); }
  }

  /** WriteFile and WriteReader in the slots directory. Whenever the agent is killed on the way, the directory shows
      the disk before the write, or after it, synced or not; and at the end it shows exactly what is reported. */
  lemma WriteRefines(layout: Layout, k: Codec, link: string, dirs: Dirs, h: seq<FsState>, t: FsState, g: seq<FsState>, d: Disk,
                     f: Files, tmp: string, path: string, c: Content, err: bool, synced: bool, i: nat)
    requires DiskShows(layout, k, link, dirs, d) && Outcome(dirs.slots, h, t, g, tmp, path, c, err, synced) && WellFormed(t)
    requires Replaces(k, d.files, f, path, c) && path in SlotNames(layout) && tmp !in SLOT_FILES + STATE_FILES && tmp != link
    requires |h| <= i < |g|
    ensures Did(layout, k, link, dirs.(slots := t), d, d.WroteSlots(layout, f, synced), err)
    ensures var at := dirs.(slots := g[i]);
      || DiskShows(layout, k, link, at, d) || DiskShows(layout, k, link, at, d.WroteSlots(layout, f, false))
      || DiskShows(layout, k, link, at, d.WroteSlots(layout, f, true))
  {
    hide DiskShows, Replacement, Staging, CrashAtomic, Settled, SameAsBefore, Replaces, WellFormed;
    if err {
      StagingRefines(layout, k, link, dirs, t, d, tmp);
    } else {
      SlotsWriteRefines(layout, k, link, dirs, t, d, f, tmp, path, c, synced);
    }
    var u := g[i];
    assert Underway(dirs.slots, u, tmp, path, c);
    if Replacement(dirs.slots, u, tmp, path, c, false) {
      SlotsWriteRefines(layout, k, link, dirs, u, d, f, tmp, path, c, false);
    } else if Replacement(dirs.slots, u, tmp, path, c, true) {
      SlotsWriteRefines(layout, k, link, dirs, u, d, f, tmp, path, c, true);
    } else {
      StagingRefines(layout, k, link, dirs, u, d, tmp);
    }
  }

  /** The same in a state directory of its own. */
  lemma StateFileRefines(k: Codec, link: string, dirs: Dirs, h: seq<FsState>, t: FsState, g: seq<FsState>, d: Disk,
                         f: Files, tmp: string, path: string, c: Content, err: bool, synced: bool, i: nat)
    requires DiskShows(Split, k, link, dirs, d) && Outcome(dirs.state, h, t, g, tmp, path, c, err, synced) && WellFormed(t)
    requires Replaces(k, d.files, f, path, c) && path in STATE_FILES && tmp !in SLOT_FILES + STATE_FILES && tmp != link
    requires |h| <= i < |g|
    ensures Did(Split, k, link, dirs.(state := t), d, d.WroteState(Split, f, synced), err)
    ensures var at := dirs.(state := g[i]);
      || DiskShows(Split, k, link, at, d) || DiskShows(Split, k, link, at, d.WroteState(Split, f, false))
      || DiskShows(Split, k, link, at, d.WroteState(Split, f, true))
  {
    hide DiskShows, Replacement, Staging, CrashAtomic, Settled, SameAsBefore, Replaces, WellFormed;
    if err {
      StagingRefines(Split, k, link, dirs, t, d, tmp);
    } else {
      StateWriteRefines(k, link, dirs, t, d, f, tmp, path, c, synced);
    }
    var u := g[i];
    assert Underway(dirs.state, u, tmp, path, c);
    if Replacement(dirs.state, u, tmp, path, c, false) {
      StateWriteRefines(k, link, dirs, u, d, f, tmp, path, c, false);
    } else if Replacement(dirs.state, u, tmp, path, c, true) {
      StateWriteRefines(k, link, dirs, u, d, f, tmp, path, c, true);
    } else {
      StagingRefines(Split, k, link, dirs, u, d, tmp);
    }
  }

  /** ReplaceSymlink: a kill between the rename and the directory fsync leaves the new link cached and the old one
      among the images. */
  lemma ReplaceSymlinkRefines(layout: Layout, k: Codec, link: string, dirs: Dirs, h: seq<FsState>, t: FsState, g: seq<FsState>,
                              d: Disk, slot: Slot, err: bool, synced: bool, i: nat)
    requires DiskShows(layout, k, link, dirs, d) && WellFormed(t) && link + ".tmp" !in SLOT_FILES + STATE_FILES
    requires Outcome(dirs.links, h, t, g, link + ".tmp", link, LinkTo(k.target(slot)), err, synced) && |h| <= i < |g|
    ensures Did(layout, k, link, dirs.(links := t), d, d.Linked(slot, synced), err)
    ensures var at := dirs.(links := g[i]);
      || DiskShows(layout, k, link, at, d) || DiskShows(layout, k, link, at, d.Linked(slot, false))
      || DiskShows(layout, k, link, at, d.Linked(slot, true))
  {
    hide DiskShows, Replacement, Staging, CrashAtomic, Settled, SameAsBefore, WellFormed;
    var tmp, c := link + ".tmp", LinkTo(k.target(slot));
    assert tmp != link by { assert |tmp| == |link| + 4; }
    if err {
      StagingRefines(layout, k, link, dirs, t, d, tmp);
    } else {
      LinkRefines(layout, k, link, dirs, t, d, slot, tmp, synced);
    }
    var u := g[i];
    assert Underway(dirs.links, u, tmp, link, c);
    if Replacement(dirs.links, u, tmp, link, c, false) {
      LinkRefines(layout, k, link, dirs, u, d, slot, tmp, false);
    } else if Replacement(dirs.links, u, tmp, link, c, true) {
      LinkRefines(layout, k, link, dirs, u, d, slot, tmp, true);
    } else {
      StagingRefines(layout, k, link, dirs, u, d, tmp);
    }
  }

  // ---------------------------------------------------------------------------
  // Power losses
  // ---------------------------------------------------------------------------

  ghost predicate CanKeep(dirs: Dirs, l: nat, i: nat, j: nat) {
    l <= |dirs.links.pending| && i <= |dirs.slots.pending| && j <= |dirs.state.pending|
  }

  function Crashed(dirs: Dirs, l: nat, i: nat, j: nat, junk: nat -> Bytes): Dirs
    requires l <= |dirs.links.pending| && i <= |dirs.slots.pending| && j <= |dirs.state.pending|
  {
    Dirs(Crash(dirs.links, l, junk), Crash(dirs.slots, i, junk), Crash(dirs.state, j, junk))
  }

  lemma LostImages(layout: Layout, k: Codec, link: string, d: Disk, l: nat, i: nat, j: nat)
    requires l < |d.Links()| && d.MayLeave(layout, i, j)
    ensures var e := PowerLost(d, l, i, j);
      && |FileImages(k, d)| == |d.Images()| && LinkImages(k, link, e) == [LinkImages(k, link, d)[l]]
      && FileImages(k, e) == [FilesImage(k, d.Image(i, j))]
      && (layout.Shared? ==> FilesImage(k, d.Image(i, j)) == FileImages(k, d)[i])
      && Agree(SLOT_FILES, FileImages(k, d)[i], FilesImage(k, d.Image(i, j)))
      && Agree(STATE_FILES, FileImages(k, d)[j], FilesImage(k, d.Image(i, j)))
  {
    if layout.Shared? { assert d.Image(i, j) == d.Images()[i]; }
  }

  lemma CrashedShows(layout: Layout, k: Codec, link: string, dirs: Dirs, d: Disk, l: nat, i: nat, j: nat)
    requires l < |d.Links()| && d.MayLeave(layout, i, j)
    requires Shows(dirs.links, {link}, [LinkImages(k, link, d)[l]]) && Shows(dirs.slots, SlotNames(layout), [FileImages(k, d)[i]])
    requires layout.Split? ==> Shows(dirs.state, STATE_FILES, [FileImages(k, d)[j]])
    ensures DiskShows(layout, k, link, dirs, PowerLost(d, l, i, j))
  {
    hide Shows, LinkImages, FileImages, FilesImage, Agree;
    LostImages(layout, k, link, d, l, i, j);
    var x := FilesImage(k, d.Image(i, j));
    if layout.Split? {
      AllOne(dirs.slots, SLOT_FILES, FileImages(k, d)[i], [x]);
      AllOne(dirs.state, STATE_FILES, FileImages(k, d)[j], [x]);
    }
  }

  /** Every crash of the directories, whatever it keeps of each and whatever it makes of unsynced data, is one of the
      protocol's power losses... */
  lemma EveryCrashIsAPowerLoss(layout: Layout, k: Codec, link: string, dirs: Dirs, d: Disk, kl: nat, ki: nat, kj: nat, junk: nat -> Bytes)
    returns (l: nat, i: nat, j: nat)
    requires DiskShows(layout, k, link, dirs, d) && CanKeep(dirs, kl, ki, kj)
    ensures l < |d.Links()| && d.MayLeave(layout, i, j)
    ensures DiskShows(layout, k, link, Crashed(dirs, kl, ki, kj, junk), PowerLost(d, l, i, j))
  {
    hide Shows, FilesImage, LinkImage;
    CrashShows(dirs.links, {link}, LinkImages(k, link, d), kl, junk);
    l :| 0 <= l < |LinkImages(k, link, d)| && Shows(Crash(dirs.links, kl, junk), {link}, [LinkImages(k, link, d)[l]]);
    CrashShows(dirs.slots, SlotNames(layout), FileImages(k, d), ki, junk);
    i :| 0 <= i < |FileImages(k, d)| && Shows(Crash(dirs.slots, ki, junk), SlotNames(layout), [FileImages(k, d)[i]]);
    j := i;
    if layout.Split? {
      CrashShows(dirs.state, STATE_FILES, FileImages(k, d), kj, junk);
      j :| 0 <= j < |FileImages(k, d)| && Shows(Crash(dirs.state, kj, junk), STATE_FILES, [FileImages(k, d)[j]]);
    }
    CrashedShows(layout, k, link, Crashed(dirs, kl, ki, kj, junk), d, l, i, j);
  }

  /** ...and each of those is what some crash leaves, whatever it makes of unsynced data. */
  lemma EveryPowerLossIsACrash(layout: Layout, k: Codec, link: string, dirs: Dirs, d: Disk, l: nat, i: nat, j: nat)
    returns (kl: nat, ki: nat, kj: nat)
    requires DiskShows(layout, k, link, dirs, d) && l < |d.Links()| && d.MayLeave(layout, i, j)
    ensures CanKeep(dirs, kl, ki, kj)
    ensures forall junk: nat -> Bytes :: DiskShows(layout, k, link, Crashed(dirs, kl, ki, kj, junk), PowerLost(d, l, i, j))
  {
    hide Shows, FilesImage, LinkImage;
    kl := SomeCrashShows(dirs.links, {link}, LinkImages(k, link, d), l);
    ki := SomeCrashShows(dirs.slots, SlotNames(layout), FileImages(k, d), i);
    kj := 0;
    if layout.Split? { kj := SomeCrashShows(dirs.state, STATE_FILES, FileImages(k, d), j); }
    forall junk: nat -> Bytes ensures DiskShows(layout, k, link, Crashed(dirs, kl, ki, kj, junk), PowerLost(d, l, i, j)) {
      CrashedShows(layout, k, link, Crashed(dirs, kl, ki, kj, junk), d, l, i, j);
    }
  }

  // ---------------------------------------------------------------------------
  // The agent's own writes
  // ---------------------------------------------------------------------------

  /** What each of the agent's writes and removals is, as a replacement of one file. */
  lemma AgentWrites(k: Codec, f: Files, slot: Slot, bin: Bytes, m: Marker, n: BootCount, until: int)
    ensures Replaces(k, f, f.Written(slot, bin), SlotName(slot), Data(bin)) && SlotName(slot) in SLOT_FILES
    ensures Replaces(k, f, f.(boots := Some(n)), BOOT_COUNT, Data(k.boots(n))) && BOOT_COUNT in SLOT_FILES
    ensures Replaces(k, f, f.(boots := None), BOOT_COUNT, Absent)
    ensures Replaces(k, f, f.(marker := Some(m)), PENDING_UPDATE, Data(k.marker(m))) && PENDING_UPDATE in STATE_FILES
    ensures Replaces(k, f, f.(marker := None), PENDING_UPDATE, Absent)
    ensures Replaces(k, f, f.(cooldown := Some(until)), RESTART_COOLDOWN, Data(k.cooldown(until))) && RESTART_COOLDOWN in STATE_FILES
    ensures Replaces(k, f, f.(cooldown := None), RESTART_COOLDOWN, Absent)
  {
  }

  lemma PathIsNotTemp(layout: Layout, path: string, tmp: string)
    requires path in SlotNames(layout) && tmp !in SLOT_FILES + STATE_FILES
    ensures tmp != path
  {
  }

  /** The device's directories, written with the crash-atomic operations; `disk` is what the protocol sees. */
  class DeviceDirs {
    const layout: Layout
    const k: Codec
    const link: string
    const links: FileSystem
    const slots: FileSystem
    const state: FileSystem
    ghost var disk: Disk

    ghost function Contents(): Dirs
      reads links, slots, state
    {
      Dirs(links.state, slots.state, state.state)
    }

    ghost predicate Valid()
      reads this, links, slots, state
    {
      && links != slots && links != state && slots != state && link + ".tmp" !in SLOT_FILES + STATE_FILES
      && links.Valid() && slots.Valid() && state.Valid()
      && DiskShows(layout, k, link, Contents(), disk)
    }

    constructor (layout: Layout, k: Codec, link: string, links: FileSystem, slots: FileSystem, state: FileSystem, ghost disk: Disk)
      requires links != slots && links != state && slots != state && link + ".tmp" !in SLOT_FILES + STATE_FILES
      requires links.Valid() && slots.Valid() && state.Valid()
      requires DiskShows(layout, k, link, Dirs(links.state, slots.state, state.state), disk)
      ensures Valid() && this.disk == disk && this.layout == layout
    {
      this.layout, this.k, this.link, this.links, this.slots, this.state := layout, k, link, links, slots, state;
      this.disk := disk;
    }

    /** Replace a file in the slots directory, from a stream that may break: a slot's binary, the boot counter, or,
        with one directory for all, a state file. */
    method WriteFile(path: string, tmp: string, pieces: seq<Bytes>, broken: bool, ghost f: Files) returns (err: bool, synced: bool)
      requires Valid() && path in SlotNames(layout) && Replaces(k, disk.files, f, path, Data(Flatten(pieces)))
      requires tmp !in View(slots.state) && tmp !in SLOT_FILES + STATE_FILES && tmp != link
      modifies slots, this`disk
      ensures Valid() && disk == if err then old(disk) else old(disk).WroteSlots(layout, f, synced)
      ensures broken ==> err
    {
      hide DiskShows, Replaces, CrashAtomic, Settled, SameAsBefore, Replacement, Staging, Recorded, Disk.WroteSlots;
      ghost var before, c := Contents(), Data(Flatten(pieces));
      PathIsNotTemp(layout, path, tmp);
      err, synced := slots.WriteReader(path, tmp, pieces, broken);
      if err {
        StagingRefines(layout, k, link, before, slots.state, disk, tmp);
      } else {
        SlotsWriteRefines(layout, k, link, before, slots.state, disk, f, tmp, path, c, synced);
        disk := disk.WroteSlots(layout, f, synced);
      }
    }

    /** The same for a state file in a directory of its own. */
    method WriteStateFile(path: string, tmp: string, data: Bytes, ghost f: Files) returns (err: bool, synced: bool)
      requires Valid() && layout.Split? && path in STATE_FILES && Replaces(k, disk.files, f, path, Data(data))
      requires tmp !in View(state.state) && tmp !in SLOT_FILES + STATE_FILES && tmp != link
      modifies state, this`disk
      ensures Valid() && disk == if err then old(disk) else old(disk).WroteState(layout, f, synced)
    {
      hide DiskShows, Replaces, CrashAtomic, Settled, SameAsBefore, Replacement, Staging, Recorded, Disk.WroteState;
      ghost var before := Contents();
      PathIsNotTemp(Shared, path, tmp);
      err, synced := state.WriteFile(path, tmp, data);
      if err {
        StagingRefines(layout, k, link, before, state.state, disk, tmp);
      } else {
        StateWriteRefines(k, link, before, state.state, disk, f, tmp, path, Data(data), synced);
        disk := disk.WroteState(layout, f, synced);
      }
    }

    /** Point the link at a slot. */
    method Flip(slot: Slot) returns (err: bool, synced: bool)
      requires Valid()
      modifies links, this`disk
      ensures Valid() && disk == if err then old(disk) else old(disk).Linked(slot, synced)
    {
      hide DiskShows, CrashAtomic, Settled, SameAsBefore, Replacement, Staging, Recorded;
      ghost var before, tmp := Contents(), link + ".tmp";
      assert tmp != link by { assert |tmp| == |link| + 4; }
      err, synced := links.ReplaceSymlink(k.target(slot), link);
      if err {
        StagingRefines(layout, k, link, before, links.state, disk, tmp);
      } else {
        LinkRefines(layout, k, link, before, links.state, disk, slot, tmp, synced);
        disk := disk.Linked(slot, synced);
      }
    }

    /** Remove a file from the slots directory; nothing is fsynced. */
    method Remove(path: string, ghost f: Files) returns (err: bool)
      requires Valid() && path in SlotNames(layout) && Replaces(k, disk.files, f, path, Absent)
      modifies slots, this`disk
      ensures Valid() && disk == if err then old(disk) else old(disk).Changed(f)
    {
      hide DiskShows, Replaces;
      ghost var before := Contents();
      err := slots.Remove(path);
      if !err {
        SlotsRemoveRefines(layout, k, link, before, disk, f, path);
        disk := disk.Changed(f);
      }
    }

    method RemoveStateFile(path: string, ghost f: Files) returns (err: bool)
      requires Valid() && layout.Split? && path in STATE_FILES && Replaces(k, disk.files, f, path, Absent)
      modifies state, this`disk
      ensures Valid() && disk == if err then old(disk) else old(disk).Changed(f)
    {
      hide DiskShows, Replaces;
      ghost var before := Contents();
      err := state.Remove(path);
      if !err {
        StateRemoveRefines(k, link, before, disk, f, path);
        disk := disk.Changed(f);
      }
    }
  }
}
