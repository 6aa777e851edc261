/** Crash-atomic writes (`pkg/atomicio/atomicio.go`) as they run: one primitive after another on a directory,
    any of which may fail. `history` records the directory after every primitive, so a crash at any point of
    an operation is a crash of one of the recorded states. */
module AtomicIo {
  import opened Hex
  import opened Directory

  function Flatten(pieces: seq<Bytes>): Bytes {
    if pieces == [] then [] else Flatten(pieces[..|pieces| - 1]) + pieces[|pieces| - 1]
  }

  /** The history since `h` shows only states that are, seen through crashes, before or after the replacement. */
  ghost predicate Recorded(s: FsState, h: seq<FsState>, g: seq<FsState>, tmp: string, path: string, c: Content) {
    && |h| <= |g| && g[..|h|] == h
    && forall i :: |h| <= i < |g| ==> CrashAtomic(s, g[i], tmp, path, c) && Underway(s, g[i], tmp, path, c)
  }

  ghost predicate Preparing(s: FsState, h: seq<FsState>, t: FsState, g: seq<FsState>, tmp: string, path: string, c: Content) {
    Staging(s, t, tmp) && Recorded(s, h, g, tmp, path, c)
  }

  /** The promise of every operation: crash-atomic all the way through; on error nothing but the temporary
      name can be seen to have changed, now or after any crash; on success `path` holds `c` and nothing else
      changed, and if the directory was fsynced no crash can take it back. */
  ghost predicate Outcome(s: FsState, h: seq<FsState>, t: FsState, g: seq<FsState>, tmp: string, path: string, c: Content,
                          err: bool, synced: bool)
  {
    && Recorded(s, h, g, tmp, path, c) && CrashAtomic(s, t, tmp, path, c)
    && (err ==>
          && !synced && Staging(s, t, tmp)
          && (forall name | name != tmp :: Read(t, name) == Read(s, name))
          && (forall kept, junk: nat -> Bytes | 0 <= kept <= |t.pending| :: SameAsBefore(s, t, tmp, kept, junk)))
    && (!err ==>
          && Replacement(s, t, tmp, path, c, synced)
          && forall name | name != tmp :: Read(t, name) == if name == path then c else Read(s, name))
    && (synced ==> !err && t.pending == [] && Settled(t, path, c))
  }

  /** The temporary file is open under inode `ino`, which is new. */
  ghost predicate OpenAs(s: FsState, t: FsState, tmp: string, ino: nat) {
    ino !in s.nodes && ino in t.nodes && t.nodes[ino].File? && tmp in View(t) && View(t)[tmp] == ino
  }

  lemma ViewAfterLink(s: FsState, t: FsState, tmp: string, ino: nat)
    requires t.durable == s.durable && t.pending == s.pending + [Link(tmp, ino)]
    ensures View(t) == View(s)[tmp := ino]
  {
    assert t.pending[..|t.pending| - 1] == s.pending;
  }

  lemma Untouched(s: FsState, h: seq<FsState>, tmp: string, path: string, c: Content)
    ensures Preparing(s, h, s, h, tmp, path, c)
  {
  }

  /** A step that changes only the temporary file keeps the operation preparing. */
  lemma StillPreparing(s: FsState, h: seq<FsState>, t: FsState, u: FsState, g: seq<FsState>, g': seq<FsState>,
                       tmp: string, path: string, c: Content)
    requires WellFormed(s) && WellFormed(u) && Preparing(s, h, t, g, tmp, path, c) && g' == g + [u]
    requires u.durable == t.durable
    requires u.pending == t.pending || (|u.pending| == |t.pending| + 1 && u.pending[..|t.pending|] == t.pending && TempOp(u.pending[|t.pending|], tmp))
    requires forall i :: i in s.nodes ==> i in u.nodes && u.nodes[i] == t.nodes[i]
    ensures Preparing(s, h, u, g', tmp, path, c)
  {
    assert u.pending[..|s.pending|] == t.pending[..|s.pending|];
    StagingIsAtomic(s, u, tmp, path, c);
  }

  lemma Aborted(s: FsState, h: seq<FsState>, t: FsState, g: seq<FsState>, tmp: string, path: string, c: Content)
    requires WellFormed(s) && Preparing(s, h, t, g, tmp, path, c)
    ensures Outcome(s, h, t, g, tmp, path, c, true, false)
  {
    StagingIsAtomic(s, t, tmp, path, c);
    forall name | name != tmp ensures Read(t, name) == Read(s, name) {
      StagingReadsTheSame(s, t, tmp, name);
    }
  }

  class FileSystem {
    var state: FsState
    var nextIno: nat
    ghost var history: seq<FsState>

    ghost predicate Valid()
      reads this
    {
      && WellFormed(state)
      && (forall i :: i in state.nodes ==> i < nextIno)
    }

    constructor ()
      ensures Valid() && state == FsState(map[], [], map[]) && history == []
    {
      state, nextIno, history := FsState(map[], [], map[]), 0, [];
    }

    // -------------------------------------------------------------------------
    // Primitives
    // -------------------------------------------------------------------------

    /** Create an empty file under a name not in use. */
    method CreateTemp(tmp: string) returns (ino: nat, err: bool)
      requires Valid() && tmp !in View(state)
      modifies this
      ensures Valid()
      ensures err ==> unchanged(this)
      ensures !err ==>
                && ino !in old(state).nodes
                && state == FsState(old(state).durable, old(state).pending + [Link(tmp, ino)],
                                    old(state).nodes[ino := File([], false)])
                && history == old(history) + [state]
    {
      if * { return 0, true; }
      ino, err := nextIno, false;
      state := FsState(state.durable, state.pending + [Link(tmp, ino)], state.nodes[ino := File([], false)]);
      nextIno := nextIno + 1;
      history := history + [state];
    }

    /** Append to an open file; a failure may leave part of the data behind. */
    method Write(ino: nat, data: Bytes) returns (err: bool)
      requires Valid() && ino in state.nodes && state.nodes[ino].File?
      modifies this
      ensures Valid() && history == old(history) + [state]
      ensures exists n | 0 <= n <= |data| ::
                && state == old(state).(nodes := old(state).nodes[ino := File(old(state).nodes[ino].data + data[..n], false)])
                && (!err ==> n == |data|)
    {
      var n: nat := |data|;
      err := false;
      if * {
        err := true;
        n :| 0 <= n <= |data|;
      }
      state := state.(nodes := state.nodes[ino := File(state.nodes[ino].data + data[..n], false)]);
      history := history + [state];
    }

    method Fsync(ino: nat) returns (err: bool)
      requires Valid() && ino in state.nodes && state.nodes[ino].File?
      modifies this
      ensures Valid()
      ensures err ==> unchanged(this)
      ensures !err ==>
                && state == old(state).(nodes := old(state).nodes[ino := File(old(state).nodes[ino].data, true)])
                && history == old(history) + [state]
    {
      if * { return true; }
      err := false;
      state := state.(nodes := state.nodes[ino := File(state.nodes[ino].data, true)]);
      history := history + [state];
    }

    /** Chmod and Close touch neither the data nor the entries; they can only fail. */
    method MayFail() returns (err: bool)
    {
      if * { return true; }
      return false;
    }

    method CreateSymlink(target: string, name: string) returns (err: bool)
      requires Valid()
      modifies this
      ensures Valid()
      ensures name in View(old(state)) ==> err
      ensures err ==> unchanged(this)
      ensures !err ==> exists ino: nat | ino !in old(state).nodes ::
                && state == FsState(old(state).durable, old(state).pending + [Link(name, ino)],
                                    old(state).nodes[ino := Symlink(target)])
                && history == old(history) + [state]
    {
      if name in View(state) { return true; }
      if * { return true; }
      err := false;
      state := FsState(state.durable, state.pending + [Link(name, nextIno)], state.nodes[nextIno := Symlink(target)]);
      nextIno := nextIno + 1;
      history := history + [state];
    }

    method RenameOver(from: string, to: string) returns (err: bool)
      requires Valid()
      modifies this
      ensures Valid()
      ensures err ==> unchanged(this)
      ensures !err ==> state == Renamed(old(state), from, to) && history == old(history) + [state]
    {
      if * { return true; }
      err := false;
      state := Renamed(state, from, to);
      history := history + [state];
    }

    /** os.Remove: on success the entry is gone from the cache, not yet from the disk. */
    method Remove(name: string) returns (err: bool)
      requires Valid()
      modifies this
      ensures Valid()
      ensures err ==> unchanged(this)
      ensures !err ==>
                && name in View(old(state))
                && state == old(state).(pending := old(state).pending + [Unlink(name)])
                && history == old(history) + [state]
    {
      if name !in View(state) { return true; }
      if * { return true; }
      err := false;
      state := state.(pending := state.pending + [Unlink(name)]);
      history := history + [state];
    }

    method FsyncDir() returns (err: bool)
      requires Valid()
      modifies this
      ensures Valid()
      ensures err ==> unchanged(this)
      ensures !err ==> state == DirSynced(old(state)) && history == old(history) + [state]
    {
      if * { return true; }
      err := false;
      ReplayStaysInside(state.durable, state.pending, state.nodes.Keys);
      state := DirSynced(state);
      history := history + [state];
    }

    // -------------------------------------------------------------------------
    // Operations. `s` and `h` are the directory and the history the operation started from.
    // -------------------------------------------------------------------------

    /** Give up: drop the temporary file, best effort. */
    method Discard(tmp: string, ghost path: string, ghost c: Content, ghost s: FsState, ghost h: seq<FsState>)
      requires Valid() && WellFormed(s) && Preparing(s, h, state, history, tmp, path, c)
      modifies this
      ensures Valid() && Outcome(s, h, state, history, tmp, path, c, true, false)
    {
      hide CrashAtomic;
      ghost var t, g := state, history;
      var err := Remove(tmp);
      if !err { StillPreparing(s, h, t, state, g, history, tmp, path, c); }
      Aborted(s, h, state, history, tmp, path, c);
    }

    /** The last two steps: rename over the destination, then fsync the directory. */
    method Publish(path: string, tmp: string, ghost c: Content, ghost s: FsState, ghost h: seq<FsState>)
      returns (err: bool, synced: bool)
      requires Valid() && WellFormed(s) && tmp != path
      requires Preparing(s, h, state, history, tmp, path, c) && Durable(state, tmp, c)
      modifies this
      ensures Valid() && Outcome(s, h, state, history, tmp, path, c, err, synced)
    {
      hide CrashAtomic, Staging, Durable, Settled, SameAsBefore, Replaced;
      ghost var t := state;
      err := RenameOver(tmp, path);
      if err {
        Discard(tmp, path, c, s, h);
        return true, false;
      }
      RenameIsAtomic(s, t, tmp, path, c);
      var unsynced := FsyncDir();
      if !unsynced { SyncSettles(s, t, tmp, path, c); }
      synced := !unsynced;
    }

    /** Replace `path` by `data`. `synced` is false when only the final directory fsync failed, which is
        still reported as success. */
    method WriteFile(path: string, tmp: string, data: Bytes) returns (err: bool, synced: bool)
      requires Valid() && tmp !in View(state) && tmp != path
      modifies this
      ensures Valid() && Outcome(old(state), old(history), state, history, tmp, path, Data(data), err, synced)
    {
      hide CrashAtomic, Settled, SameAsBefore, Underway, Staging, Replacement;
      assert Flatten([data]) == data;
      err, synced := WriteReader(path, tmp, [data], false);
    }

    /** WriteFile fed from a stream: the data arrives in pieces, and the stream may break after them. */
    method WriteReader(path: string, tmp: string, pieces: seq<Bytes>, broken: bool) returns (err: bool, synced: bool)
      requires Valid() && tmp !in View(state) && tmp != path
      modifies this
      ensures Valid() && Outcome(old(state), old(history), state, history, tmp, path, Data(Flatten(pieces)), err, synced)
      ensures broken ==> err
    {
      hide CrashAtomic, Settled, SameAsBefore;
      ghost var s, h, c := state, history, Data(Flatten(pieces));
      Untouched(s, h, tmp, path, c);
      var ino;
      ino, err := CreateTemp(tmp);
      if err {
        Aborted(s, h, state, history, tmp, path, c);
        return true, false;
      }
      ViewAfterLink(s, state, tmp, ino);
      StillPreparing(s, h, s, state, h, history, tmp, path, c);
      err := CopyAndSync(ino, pieces, broken, tmp, path, c, s, h);
      if err {
        Discard(tmp, path, c, s, h);
        return true, false;
      }
      err, synced := Publish(path, tmp, c, s, h);
    }

    /** Fill the temporary file, chmod, fsync and close it. */
    method CopyAndSync(ino: nat, pieces: seq<Bytes>, broken: bool,
                       ghost tmp: string, ghost path: string, ghost c: Content, ghost s: FsState, ghost h: seq<FsState>)
      returns (err: bool)
      requires Valid() && WellFormed(s) && Preparing(s, h, state, history, tmp, path, c)
      requires OpenAs(s, state, tmp, ino) && state.nodes[ino].data == [] && c == Data(Flatten(pieces))
      modifies this
      ensures Valid() && Preparing(s, h, state, history, tmp, path, c)
      ensures !err ==> Durable(state, tmp, c) && !broken
    {
      hide CrashAtomic, WellFormed;
      var i := 0;
      err := false;
      while i < |pieces| && !err
        invariant 0 <= i <= |pieces| && Valid()
        invariant Preparing(s, h, state, history, tmp, path, c) && OpenAs(s, state, tmp, ino)
        invariant !err ==> state.nodes[ino].data == Flatten(pieces[..i])
      {
        ghost var t, g := state, history;
        err := Write(ino, pieces[i]);
        StillPreparing(s, h, t, state, g, history, tmp, path, c);
        assert pieces[..i + 1][..i] == pieces[..i];
        assert !err ==> pieces[i][..|pieces[i]|] == pieces[i];
        i := i + 1;
      }
      if err || broken { return true; }
      assert pieces[..i] == pieces;
      err := MayFail();
      if err { return; }
      ghost var t, g := state, history;
      err := Fsync(ino);
      if err { return; }
      StillPreparing(s, h, t, state, g, history, tmp, path, c);
      err := MayFail();
    }

    /** Point `linkPath` at `target`. */
    method ReplaceSymlink(target: string, linkPath: string) returns (err: bool, synced: bool)
      requires Valid()
      modifies this
      ensures Valid()
      ensures Outcome(old(state), old(history), state, history, linkPath + ".tmp", linkPath, LinkTo(target), err, synced)
    {
      hide CrashAtomic, Settled, SameAsBefore;
      ghost var s, h, c := state, history, LinkTo(target);
      var tmp := linkPath + ".tmp";
      assert tmp != linkPath by { assert |tmp| == |linkPath| + 4; }
      Untouched(s, h, tmp, linkPath, c);
      var leftover := Remove(tmp);
      if !leftover { StillPreparing(s, h, s, state, h, history, tmp, linkPath, c); }
      ghost var t, g := state, history;
      err := CreateSymlink(target, tmp);
      if err {
        Aborted(s, h, state, history, tmp, linkPath, c);
        return true, false;
      }
      ghost var ino :| ino !in t.nodes && state == FsState(t.durable, t.pending + [Link(tmp, ino)], t.nodes[ino := Symlink(target)]);
      ViewAfterLink(t, state, tmp, ino);
      StillPreparing(s, h, t, state, g, history, tmp, linkPath, c);
      err, synced := Publish(linkPath, tmp, c, s, h);
    }
  }
}
