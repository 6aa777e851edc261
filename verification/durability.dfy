/** The device's disk as directories (`pkg/atomicio/atomicio.go`, `pkg/agent/slots.go`, `updater.go`): why the
    protocol may treat each of its writes as atomic, and what its unsettled images are. */
module Durability {
  import opened Hex
  import opened Directory

  // ---------------------------------------------------------------------------
  // A directory seen through the names that matter
  // ---------------------------------------------------------------------------

  /** What is found under the names that matter. */
  type Image = map<string, Content>

  predicate Agree(names: set<string>, x: Image, y: Image) {
    forall n :: n in names ==> n in x && n in y && x[n] == y[n]
  }

  /** This crash leaves this image. */
  ghost predicate Leaves(s: FsState, names: set<string>, kept: nat, junk: nat -> Bytes, x: Image)
    requires kept <= |s.pending|
  {
    forall n :: n in names ==> n in x && After(s, kept, junk, n) == x[n]
  }

  ghost predicate CachedAs(s: FsState, names: set<string>, x: Image) {
    forall n :: n in names ==> n in x && Read(s, n) == x[n]
  }

  ghost predicate LeavesAlways(s: FsState, names: set<string>, kept: nat, x: Image) {
    kept <= |s.pending| && forall junk: nat -> Bytes :: Leaves(s, names, kept, junk, x)
  }

  ghost predicate LeavesSome(s: FsState, names: set<string>, kept: nat, junk: nat -> Bytes, xs: seq<Image>)
    requires kept <= |s.pending|
  {
    exists i :: 0 <= i < |xs| && Leaves(s, names, kept, junk, xs[i])
  }

  ghost predicate Possible(s: FsState, names: set<string>, x: Image) {
    exists kept: nat :: LeavesAlways(s, names, kept, x)
  }

  /** `xs` are exactly what crashes may leave, and the last of them is what is cached: everything cached has been
      fsynced, so that a crash which keeps all entries keeps all contents. */
  ghost predicate Shows(s: FsState, names: set<string>, xs: seq<Image>) {
    && WellFormed(s) && xs != []
    && CachedAs(s, names, xs[|xs| - 1]) && LeavesAlways(s, names, |s.pending|, xs[|xs| - 1])
    && (forall kept: nat, junk: nat -> Bytes | kept <= |s.pending| :: LeavesSome(s, names, kept, junk, xs))
    && (forall i | 0 <= i < |xs| :: Possible(s, names, xs[i]))
  }

  ghost predicate Listed(names: set<string>, x: Image, ys: seq<Image>) {
    exists j :: 0 <= j < |ys| && Agree(names, x, ys[j])
  }

  ghost predicate Covered(names: set<string>, xs: seq<Image>, ys: seq<Image>) {
    forall i :: 0 <= i < |xs| ==> Listed(names, xs[i], ys)
  }

  lemma AgreeLeaves(s: FsState, names: set<string>, kept: nat, junk: nat -> Bytes, x: Image, y: Image)
    requires kept <= |s.pending| && Leaves(s, names, kept, junk, x) && Agree(names, x, y)
    ensures Leaves(s, names, kept, junk, y)
  {
    hide After;
  }

  lemma AgreeAlways(s: FsState, names: set<string>, kept: nat, x: Image, y: Image)
    requires LeavesAlways(s, names, kept, x) && Agree(names, x, y)
    ensures LeavesAlways(s, names, kept, y)
  {
    hide Leaves, Agree;
    forall junk: nat -> Bytes ensures Leaves(s, names, kept, junk, y) { AgreeLeaves(s, names, kept, junk, x, y); }
  }

  lemma AgreeCached(s: FsState, names: set<string>, x: Image, y: Image)
    requires CachedAs(s, names, x) && Agree(names, x, y)
    ensures CachedAs(s, names, y)
  {
    hide Read;
  }

  lemma AgreeBack(names: set<string>, x: Image, y: Image)
    requires Agree(names, x, y)
    ensures Agree(names, y, x)
  {
  }

  lemma ListedLeaves(s: FsState, names: set<string>, kept: nat, junk: nat -> Bytes, xs: seq<Image>, ys: seq<Image>)
    requires kept <= |s.pending| && LeavesSome(s, names, kept, junk, xs) && Covered(names, xs, ys)
    ensures LeavesSome(s, names, kept, junk, ys)
  {
    hide Agree, Leaves;
    var i :| 0 <= i < |xs| && Leaves(s, names, kept, junk, xs[i]);
    assert Listed(names, xs[i], ys);
    var j :| 0 <= j < |ys| && Agree(names, xs[i], ys[j]);
    AgreeLeaves(s, names, kept, junk, xs[i], ys[j]);
  }

  lemma ListedPossible(s: FsState, names: set<string>, xs: seq<Image>, y: Image)
    requires (forall i | 0 <= i < |xs| :: Possible(s, names, xs[i])) && Listed(names, y, xs)
    ensures Possible(s, names, y)
  {
    hide Agree, LeavesAlways;
    var j :| 0 <= j < |xs| && Agree(names, y, xs[j]);
    assert Possible(s, names, xs[j]);
    var kept: nat :| LeavesAlways(s, names, kept, xs[j]);
    AgreeBack(names, y, xs[j]);
    AgreeAlways(s, names, kept, xs[j], y);
  }

  /** Only the images count, not how often or in what order they are listed. */
  lemma Restate(s: FsState, names: set<string>, xs: seq<Image>, ys: seq<Image>)
    requires Shows(s, names, xs) && ys != [] && Covered(names, xs, ys) && Covered(names, ys, xs)
    requires Agree(names, xs[|xs| - 1], ys[|ys| - 1])
    ensures Shows(s, names, ys)
  {
    hide WellFormed, Agree, LeavesSome, LeavesAlways, CachedAs, Possible, Listed;
    AgreeAlways(s, names, |s.pending|, xs[|xs| - 1], ys[|ys| - 1]);
    AgreeCached(s, names, xs[|xs| - 1], ys[|ys| - 1]);
    forall kept: nat, junk: nat -> Bytes | kept <= |s.pending| ensures LeavesSome(s, names, kept, junk, ys) {
      ListedLeaves(s, names, kept, junk, xs, ys);
    }
    forall i | 0 <= i < |ys| ensures Possible(s, names, ys[i]) {
      ListedPossible(s, names, xs, ys[i]);
    }
  }

  lemma Longer(s: FsState, t: FsState, tmp: string)
    requires Staging(s, t, tmp)
    ensures |s.pending| <= |t.pending|
  {
  }

  /** While a temporary file is prepared nothing shows. */
  lemma StagingShows(s: FsState, t: FsState, names: set<string>, xs: seq<Image>, tmp: string)
    requires Shows(s, names, xs) && Staging(s, t, tmp) && WellFormed(t) && tmp !in names
    ensures Shows(t, names, xs)
  {
    hide WellFormed, Staging, Read, After;
    forall n | n in names ensures Read(t, n) == Read(s, n) { StagingReadsTheSame(s, t, tmp, n); }
    forall kept: nat, junk: nat -> Bytes, x | kept <= |t.pending|
      ensures Leaves(t, names, kept, junk, x) <==> Leaves(s, names, Earlier(s, kept), junk, x)
    {
      forall n | n in names ensures After(t, kept, junk, n) == After(s, Earlier(s, kept), junk, n) {
        StagingIsInvisible(s, t, tmp, kept, junk, n);
      }
    }
    Longer(s, t, tmp);
    forall kept: nat, junk: nat -> Bytes | kept <= |t.pending| ensures LeavesSome(t, names, kept, junk, xs) {
      assert LeavesSome(s, names, Earlier(s, kept), junk, xs);
      var i :| 0 <= i < |xs| && Leaves(s, names, Earlier(s, kept), junk, xs[i]);
      assert Leaves(t, names, kept, junk, xs[i]);
    }
    forall i | 0 <= i < |xs| ensures Possible(t, names, xs[i]) {
      assert Possible(s, names, xs[i]);
      var kept: nat :| LeavesAlways(s, names, kept, xs[i]);
      assert LeavesAlways(t, names, kept, xs[i]);
    }
  }

  /** The image after `path` has come to hold `c`. */
  function With(xs: seq<Image>, path: string, c: Content): Image
    requires xs != []
  {
    xs[|xs| - 1][path := c]
  }

  /** What a crash leaves once the rename is cached: what it left before, or, if it keeps the rename too, the last
      image with `path` replaced. */
  lemma RenamedLeaves(s: FsState, u: FsState, names: set<string>, xs: seq<Image>, tmp: string, path: string, c: Content,
                      kept: nat, junk: nat -> Bytes)
    requires Shows(s, names, xs) && Staging(s, u, tmp) && Durable(u, tmp, c) && tmp !in names && path in names
    requires kept <= |Renamed(u, tmp, path).pending|
    ensures kept == |u.pending| + 1 ==> Leaves(Renamed(u, tmp, path), names, kept, junk, With(xs, path, c))
    ensures kept <= |u.pending| ==>
              forall x :: Leaves(s, names, Earlier(s, kept), junk, x) ==> Leaves(Renamed(u, tmp, path), names, kept, junk, x)
  {
    var t := Renamed(u, tmp, path);
    hide Staging, Durable, WellFormed, LeavesSome, Possible, CachedAs;
    if kept == |u.pending| + 1 {
      assert Leaves(s, names, |s.pending|, junk, xs[|xs| - 1]);
      assert t.pending[..kept] == t.pending;
      forall n | n in names ensures n in With(xs, path, c) && After(t, kept, junk, n) == With(xs, path, c)[n] {
        RenameReplaces(s, u, tmp, path, c, junk, n);
      }
    } else {
      assert t.pending[..kept] == u.pending[..kept];
      forall n | n in names ensures After(t, kept, junk, n) == After(s, Earlier(s, kept), junk, n) {
        StagingIsInvisible(s, u, tmp, kept, junk, n);
      }
    }
  }

  lemma RenamedReads(s: FsState, u: FsState, names: set<string>, xs: seq<Image>, tmp: string, path: string, c: Content)
    requires Shows(s, names, xs) && Staging(s, u, tmp) && Durable(u, tmp, c) && tmp !in names && path in names
    ensures CachedAs(Renamed(u, tmp, path), names, With(xs, path, c))
  {
    hide Staging, Durable, WellFormed, LeavesSome, Possible, LeavesAlways;
    forall n | n in names ensures n in With(xs, path, c) && Read(Renamed(u, tmp, path), n) == With(xs, path, c)[n] {
      RenameReplaces(s, u, tmp, path, c, _ => [], n);
    }
  }

  /** A replacement whose directory fsync is missing adds one image. */
  lemma RenamedShows(s: FsState, u: FsState, names: set<string>, xs: seq<Image>, tmp: string, path: string, c: Content)
    requires Shows(s, names, xs) && Staging(s, u, tmp) && Durable(u, tmp, c) && tmp !in names && path in names
    requires WellFormed(Renamed(u, tmp, path))
    ensures Shows(Renamed(u, tmp, path), names, xs + [With(xs, path, c)])
  {
    var t, ys := Renamed(u, tmp, path), xs + [With(xs, path, c)];
    RenamedReads(s, u, names, xs, tmp, path, c);
    Longer(s, u, tmp);
    hide Staging, Durable, WellFormed, Leaves, CachedAs, With;
    var all := |u.pending| + 1;
    forall junk: nat -> Bytes ensures Leaves(t, names, all, junk, ys[|xs|]) {
      RenamedLeaves(s, u, names, xs, tmp, path, c, all, junk);
    }
    assert LeavesAlways(t, names, all, ys[|xs|]);
    forall kept: nat, junk: nat -> Bytes | kept <= |t.pending| ensures LeavesSome(t, names, kept, junk, ys) {
      if kept <= |u.pending| {
        RenamedLeaves(s, u, names, xs, tmp, path, c, kept, junk);
        assert LeavesSome(s, names, Earlier(s, kept), junk, xs);
        var i :| 0 <= i < |xs| && Leaves(s, names, Earlier(s, kept), junk, xs[i]);
        assert Leaves(t, names, kept, junk, ys[i]);
      } else {
        assert Leaves(t, names, all, junk, ys[|xs|]);
      }
    }
    forall i | 0 <= i < |ys| ensures Possible(t, names, ys[i]) {
      if i < |xs| {
        assert Possible(s, names, xs[i]);
        var kept: nat :| LeavesAlways(s, names, kept, xs[i]);
        forall junk: nat -> Bytes ensures Leaves(t, names, kept, junk, ys[i]) {
          RenamedLeaves(s, u, names, xs, tmp, path, c, kept, junk);
          assert Leaves(s, names, kept, junk, xs[i]);
        }
        assert LeavesAlways(t, names, kept, ys[i]);
      }
    }
  }

  lemma OnlyImage(u: FsState, names: set<string>, x: Image)
    requires u.pending == [] && WellFormed(u) && CachedAs(u, names, x)
    requires forall junk: nat -> Bytes :: Leaves(u, names, 0, junk, x)
    ensures Shows(u, names, [x])
  {
    hide WellFormed, CachedAs, Leaves;
    assert LeavesAlways(u, names, 0, x);
    forall kept: nat, junk: nat -> Bytes | kept <= |u.pending| ensures LeavesSome(u, names, kept, junk, [x]) {
      assert Leaves(u, names, kept, junk, [x][0]);
    }
  }

  /** A directory fsync leaves only the last image. */
  lemma SyncedShows(t: FsState, names: set<string>, ys: seq<Image>)
    requires Shows(t, names, ys) && WellFormed(DirSynced(t))
    ensures Shows(DirSynced(t), names, [ys[|ys| - 1]])
  {
    var u, x := DirSynced(t), ys[|ys| - 1];
    hide WellFormed, Possible, LeavesSome;
    assert t.pending[..|t.pending|] == t.pending && View(u) == View(t);
    forall junk: nat -> Bytes ensures Leaves(u, names, 0, junk, x) {
      assert Leaves(t, names, |t.pending|, junk, x);
      forall n | n in names ensures n in x && After(u, 0, junk, n) == x[n] {
        assert After(t, |t.pending|, junk, n) == x[n];
      }
    }
    OnlyImage(u, names, x);
  }

  lemma UnlinkedLeaves(s: FsState, names: set<string>, xs: seq<Image>, name: string, kept: nat, junk: nat -> Bytes)
    requires Shows(s, names, xs) && name in names && kept <= |s.pending| + 1
    ensures var t := s.(pending := s.pending + [Unlink(name)]);
      && (kept == |s.pending| + 1 ==> Leaves(t, names, kept, junk, With(xs, name, Absent)))
      && (kept <= |s.pending| ==> forall x :: Leaves(s, names, kept, junk, x) ==> Leaves(t, names, kept, junk, x))
  {
    var t := s.(pending := s.pending + [Unlink(name)]);
    assert Leaves(s, names, |s.pending|, junk, xs[|xs| - 1]);
    hide WellFormed, LeavesSome, Possible, CachedAs, LeavesAlways, After;
    forall n | n in names
      ensures After(t, kept, junk, n) == if kept <= |s.pending| then After(s, kept, junk, n)
                                         else if n == name then Absent else After(s, |s.pending|, junk, n)
    {
      RemoveMayBeUndone(s, name, kept, junk, n);
    }
  }

  lemma UnlinkedReads(s: FsState, names: set<string>, xs: seq<Image>, name: string)
    requires Shows(s, names, xs) && name in names
    ensures WellFormed(s.(pending := s.pending + [Unlink(name)]))
    ensures CachedAs(s.(pending := s.pending + [Unlink(name)]), names, With(xs, name, Absent))
  {
    var t := s.(pending := s.pending + [Unlink(name)]);
    hide LeavesSome, Possible, LeavesAlways;
    assert t.pending[..|t.pending| - 1] == s.pending;
    assert View(t) == View(s) - {name};
  }

  /** A removal adds one image. */
  lemma RemovedShows(s: FsState, names: set<string>, xs: seq<Image>, name: string)
    requires Shows(s, names, xs) && name in names
    ensures Shows(s.(pending := s.pending + [Unlink(name)]), names, xs + [With(xs, name, Absent)])
  {
    var t, ys := s.(pending := s.pending + [Unlink(name)]), xs + [With(xs, name, Absent)];
    var all := |s.pending| + 1;
    UnlinkedReads(s, names, xs, name);
    hide WellFormed, Leaves, CachedAs, With;
    forall junk: nat -> Bytes ensures Leaves(t, names, all, junk, ys[|xs|]) {
      UnlinkedLeaves(s, names, xs, name, all, junk);
    }
    assert LeavesAlways(t, names, all, ys[|xs|]);
    forall kept: nat, junk: nat -> Bytes | kept <= |t.pending| ensures LeavesSome(t, names, kept, junk, ys) {
      if kept <= |s.pending| {
        UnlinkedLeaves(s, names, xs, name, kept, junk);
        assert LeavesSome(s, names, kept, junk, xs);
        var i :| 0 <= i < |xs| && Leaves(s, names, kept, junk, xs[i]);
        assert Leaves(t, names, kept, junk, ys[i]);
      } else {
        assert Leaves(t, names, all, junk, ys[|xs|]);
      }
    }
    forall i | 0 <= i < |ys| ensures Possible(t, names, ys[i]) {
      if i < |xs| {
        assert Possible(s, names, xs[i]);
        var kept: nat :| LeavesAlways(s, names, kept, xs[i]);
        forall junk: nat -> Bytes ensures Leaves(t, names, kept, junk, ys[i]) {
          UnlinkedLeaves(s, names, xs, name, kept, junk);
          assert Leaves(s, names, kept, junk, xs[i]);
        }
        assert LeavesAlways(t, names, kept, ys[i]);
      }
    }
  }

  lemma CrashWellFormed(s: FsState, kept: nat, junk: nat -> Bytes)
    requires WellFormed(s) && kept <= |s.pending|
    ensures WellFormed(Crash(s, kept, junk))
  {
    ReplayStaysInside(s.durable, s.pending[..kept], s.nodes.Keys);
  }

  lemma CrashShowsImage(s: FsState, names: set<string>, kept: nat, junk: nat -> Bytes, x: Image)
    requires WellFormed(s) && kept <= |s.pending| && Leaves(s, names, kept, junk, x)
    ensures Shows(Crash(s, kept, junk), names, [x])
  {
    var t := Crash(s, kept, junk);
    CrashWellFormed(s, kept, junk);
    assert CachedAs(t, names, x);
    forall again: nat -> Bytes ensures Leaves(t, names, 0, again, x) {
      assert SurvivingNodes(t.nodes, again) == t.nodes && t.pending[..0] == [];
      forall n | n in names ensures n in x && After(t, 0, again, n) == x[n] {
        assert After(s, kept, junk, n) == x[n];
      }
    }
    OnlyImage(t, names, x);
  }

  /** A crash leaves one of the images, settled; and each of them is what some crash leaves. */
  lemma CrashShows(s: FsState, names: set<string>, xs: seq<Image>, kept: nat, junk: nat -> Bytes)
    requires Shows(s, names, xs) && kept <= |s.pending|
    ensures exists i :: 0 <= i < |xs| && Shows(Crash(s, kept, junk), names, [xs[i]])
  {
    assert LeavesSome(s, names, kept, junk, xs);
    var i :| 0 <= i < |xs| && Leaves(s, names, kept, junk, xs[i]);
    CrashShowsImage(s, names, kept, junk, xs[i]);
  }

  lemma SomeCrashShows(s: FsState, names: set<string>, xs: seq<Image>, i: nat) returns (kept: nat)
    requires Shows(s, names, xs) && i < |xs|
    ensures kept <= |s.pending| && forall junk: nat -> Bytes :: Shows(Crash(s, kept, junk), names, [xs[i]])
  {
    assert Possible(s, names, xs[i]);
    kept :| LeavesAlways(s, names, kept, xs[i]);
    forall junk: nat -> Bytes ensures Shows(Crash(s, kept, junk), names, [xs[i]]) {
      assert Leaves(s, names, kept, junk, xs[i]);
      CrashShowsImage(s, names, kept, junk, xs[i]);
    }
  }
}
