/** A directory under power loss: what is cached, what is on the disk, and what a crash may leave.

    File data is durable once the file is fsynced. Directory entries are durable up to the last fsync of the
    directory; of the entry operations since then, a crash keeps some prefix. */
module Directory {
  import opened Hex

  /** What an inode holds. A symlink's target is part of the inode itself and needs no fsync. */
  datatype Node = File(data: Bytes, synced: bool) | Symlink(target: string)

  datatype DirOp = Link(name: string, ino: nat) | Unlink(name: string) | Rename(from: string, to: string)

  type Entries = map<string, nat>

  datatype FsState = FsState(durable: Entries, pending: seq<DirOp>, nodes: map<nat, Node>)

  /** What a reader finds under a name. */
  datatype Content = Absent | Data(bytes: Bytes) | LinkTo(target: string)

  function ApplyOp(e: Entries, op: DirOp): Entries {
    match op
    case Link(n, i) => e[n := i]
    case Unlink(n) => e - {n}
    case Rename(from, to) => if from in e && from != to then (e - {from})[to := e[from]] else e
  }

  function Replay(e: Entries, ops: seq<DirOp>): Entries {
    if ops == [] then e else ApplyOp(Replay(e, ops[..|ops| - 1]), ops[|ops| - 1])
  }

  /** The entries as cached: every operation has taken effect. */
  function View(s: FsState): Entries {
    Replay(s.durable, s.pending)
  }

  function Lookup(e: Entries, nodes: map<nat, Node>, name: string): Content {
    if name !in e || e[name] !in nodes then Absent
    else match nodes[e[name]]
         case File(data, _) => Data(data)
         case Symlink(target) => LinkTo(target)
  }

  /** What a reader finds now. */
  function Read(s: FsState, name: string): Content {
    Lookup(View(s), s.nodes, name)
  }

  function SurvivingNodes(nodes: map<nat, Node>, junk: nat -> Bytes): map<nat, Node> {
    map i | i in nodes :: match nodes[i]
                          case File(data, synced) => File(if synced then data else junk(i), true)
                          case Symlink(target) => Symlink(target)
  }

  /** Losing power: `kept` pending entry operations survive, and every file that was never fsynced holds
      whatever `junk` says. */
  function Crash(s: FsState, kept: nat, junk: nat -> Bytes): FsState
    requires kept <= |s.pending|
  {
    FsState(Replay(s.durable, s.pending[..kept]), [], SurvivingNodes(s.nodes, junk))
  }

  /** What a reader finds after a crash. */
  function After(s: FsState, kept: nat, junk: nat -> Bytes, name: string): Content
    requires kept <= |s.pending|
  {
    Read(Crash(s, kept, junk), name)
  }

  /** No entry, surviving or pending, points outside the inode table. */
  ghost predicate WellFormed(s: FsState) {
    && (forall n :: n in s.durable ==> s.durable[n] in s.nodes)
    && (forall k :: 0 <= k < |s.pending| && s.pending[k].Link? ==> s.pending[k].ino in s.nodes)
  }

  lemma {:induction false} ReplayStaysInside(e: Entries, ops: seq<DirOp>, inodes: set<nat>)
    requires forall n :: n in e ==> e[n] in inodes
    requires forall k :: 0 <= k < |ops| && ops[k].Link? ==> ops[k].ino in inodes
    ensures forall n :: n in Replay(e, ops) ==> Replay(e, ops)[n] in inodes
  {
    if ops == [] {
    } else {
      ReplayStaysInside(e, ops[..|ops| - 1], inodes);
    }
  }

  /** Whatever a crash does, `name` is found holding `c`. */
  ghost predicate Settled(s: FsState, name: string, c: Content) {
    forall kept, junk: nat -> Bytes | 0 <= kept <= |s.pending| :: After(s, kept, junk, name) == c
  }

  lemma {:induction false} ReplayConcat(e: Entries, a: seq<DirOp>, b: seq<DirOp>)
    ensures Replay(e, a + b) == Replay(Replay(e, a), b)
  {
    if b == [] {
      assert a + b == a;
    } else {
      var n := |b| - 1;
      assert (a + b)[..|a + b| - 1] == a + b[..n];
      ReplayConcat(e, a, b[..n]);
    }
  }

  // ---------------------------------------------------------------------------
  // One crash-atomic replacement
  // ---------------------------------------------------------------------------

  ghost predicate TempOp(op: DirOp, tmp: string) {
    op == Unlink(tmp) || (op.Link? && op.name == tmp)
  }

  /** Every inode of `s` is still there with its content. */
  ghost predicate Keeps(s: FsState, t: FsState) {
    forall i :: i in s.nodes ==> i in t.nodes && t.nodes[i] == s.nodes[i]
  }

  /** `t` is `s` in the middle of preparing a temporary file: only entries of `tmp` have been touched. */
  ghost predicate Staging(s: FsState, t: FsState, tmp: string) {
    && t.durable == s.durable && |s.pending| <= |t.pending| && t.pending[..|s.pending|] == s.pending
    && (forall k :: |s.pending| <= k < |t.pending| ==> TempOp(t.pending[k], tmp))
    && Keeps(s, t)
  }

  lemma {:induction false} TempOpsTouchOnlyTemp(e: Entries, ops: seq<DirOp>, tmp: string)
    requires forall k :: 0 <= k < |ops| ==> TempOp(ops[k], tmp)
    ensures Replay(e, ops) - {tmp} == e - {tmp}
  {
    if ops == [] {
    } else {
      TempOpsTouchOnlyTemp(e, ops[..|ops| - 1], tmp);
    }
  }

  lemma SameLookup(e: Entries, f: Entries, nodes: map<nat, Node>, more: map<nat, Node>, tmp: string, name: string)
    requires e - {tmp} == f - {tmp} && name != tmp
    requires name in e ==> e[name] in nodes
    requires forall i :: i in nodes ==> i in more && more[i] == nodes[i]
    ensures Lookup(e, nodes, name) == Lookup(f, more, name)
  {
    assert name in e <==> name in e - {tmp};
    assert name in f <==> name in f - {tmp};
    if name in e { assert (e - {tmp})[name] == (f - {tmp})[name]; }
  }

  lemma EntriesWhileStaging(s: FsState, t: FsState, tmp: string, kept: nat)
    requires Staging(s, t, tmp) && kept <= |t.pending|
    ensures var k := if kept <= |s.pending| then kept else |s.pending|;
            Replay(t.durable, t.pending[..kept]) - {tmp} == Replay(s.durable, s.pending[..k]) - {tmp}
    ensures WellFormed(s) ==>
              var k := if kept <= |s.pending| then kept else |s.pending|;
              var e := Replay(s.durable, s.pending[..k]);
              forall n :: n in e ==> e[n] in s.nodes
  {
    var n := |s.pending|;
    if WellFormed(s) {
      ReplayStaysInside(s.durable, s.pending[..if kept <= n then kept else n], s.nodes.Keys);
    }
    if kept <= n {
      assert t.pending[..kept] == s.pending[..kept];
    } else {
      var more := t.pending[n..kept];
      assert t.pending[..kept] == s.pending + more;
      ReplayConcat(s.durable, s.pending, more);
      TempOpsTouchOnlyTemp(View(s), more, tmp);
      assert s.pending[..n] == s.pending;
    }
  }

  /** A crash while staging leaves, outside the temporary name, what the same crash before it would have. */
  lemma StagingIsInvisible(s: FsState, t: FsState, tmp: string, kept: nat, junk: nat -> Bytes, name: string)
    requires WellFormed(s) && Staging(s, t, tmp) && kept <= |t.pending| && name != tmp
    ensures After(t, kept, junk, name) == After(s, if kept <= |s.pending| then kept else |s.pending|, junk, name)
  {
    var k := if kept <= |s.pending| then kept else |s.pending|;
    EntriesWhileStaging(s, t, tmp, kept);
    SameLookup(Replay(s.durable, s.pending[..k]), Replay(t.durable, t.pending[..kept]),
               SurvivingNodes(s.nodes, junk), SurvivingNodes(t.nodes, junk), tmp, name);
  }

  lemma StagingReadsTheSame(s: FsState, t: FsState, tmp: string, name: string)
    requires WellFormed(s) && Staging(s, t, tmp) && name != tmp
    ensures Read(t, name) == Read(s, name)
  {
    EntriesWhileStaging(s, t, tmp, |t.pending|);
    assert t.pending[..|t.pending|] == t.pending && s.pending[..|s.pending|] == s.pending;
    SameLookup(View(s), View(t), s.nodes, t.nodes, tmp, name);
  }

  ghost function Earlier(s: FsState, kept: nat): nat
    ensures Earlier(s, kept) <= |s.pending|
  {
    if kept <= |s.pending| then kept else |s.pending|
  }

  /** This crash of `t` leaves what the same crash of `s` leaves. */
  ghost predicate SameAsBefore(s: FsState, t: FsState, tmp: string, kept: nat, junk: nat -> Bytes)
    requires kept <= |t.pending|
  {
    forall name | name != tmp :: After(t, kept, junk, name) == After(s, Earlier(s, kept), junk, name)
  }

  /** This crash of `t` leaves `path` holding exactly `c`, with everything that was done before it kept. */
  ghost predicate Replaced(s: FsState, t: FsState, tmp: string, path: string, c: Content, kept: nat, junk: nat -> Bytes)
    requires kept <= |t.pending|
  {
    forall name | name != tmp ::
      After(t, kept, junk, name) == if name == path then c else After(s, |s.pending|, junk, name)
  }

  /** Seen through crashes, going from `s` to `t` either has not happened or has replaced `path` by `c`. */
  ghost predicate CrashAtomic(s: FsState, t: FsState, tmp: string, path: string, c: Content) {
    forall kept, junk: nat -> Bytes | 0 <= kept <= |t.pending| ::
      SameAsBefore(s, t, tmp, kept, junk) || Replaced(s, t, tmp, path, c, kept, junk)
  }

  lemma StagingIsAtomic(s: FsState, t: FsState, tmp: string, path: string, c: Content)
    requires WellFormed(s) && Staging(s, t, tmp)
    ensures CrashAtomic(s, t, tmp, path, c)
    ensures forall kept, junk: nat -> Bytes | 0 <= kept <= |t.pending| :: SameAsBefore(s, t, tmp, kept, junk)
  {
    forall kept, junk: nat -> Bytes | 0 <= kept <= |t.pending| ensures SameAsBefore(s, t, tmp, kept, junk) {
      forall name | name != tmp
        ensures After(t, kept, junk, name) == After(s, Earlier(s, kept), junk, name)
      {
        StagingIsInvisible(s, t, tmp, kept, junk, name);
      }
    }
  }

  /** A staged temporary file whose content no crash can touch. */
  ghost predicate Durable(t: FsState, tmp: string, c: Content) {
    && tmp in View(t) && View(t)[tmp] in t.nodes
    && match t.nodes[View(t)[tmp]]
       case File(data, synced) => synced && c == Data(data)
       case Symlink(target) => c == LinkTo(target)
  }

  function Renamed(t: FsState, tmp: string, path: string): FsState {
    t.(pending := t.pending + [Rename(tmp, path)])
  }

  function DirSynced(t: FsState): FsState {
    t.(durable := View(t), pending := [])
  }

  /** `t` is `s` with `path` replaced by `c`, the directory fsynced or not. */
  ghost predicate Replacement(s: FsState, t: FsState, tmp: string, path: string, c: Content, synced: bool) {
    exists u :: WellFormed(u) && Staging(s, u, tmp) && Durable(u, tmp, c) && t == if synced then DirSynced(Renamed(u, tmp, path)) else Renamed(u, tmp, path)
  }

  /** A point of such a replacement: still preparing, renamed, or fsynced as well. */
  ghost predicate Underway(s: FsState, t: FsState, tmp: string, path: string, c: Content) {
    (WellFormed(t) && Staging(s, t, tmp)) || Replacement(s, t, tmp, path, c, false) || Replacement(s, t, tmp, path, c, true)
  }

  lemma ViewOfRenamed(t: FsState, tmp: string, path: string)
    ensures View(Renamed(t, tmp, path)) == ApplyOp(View(t), Rename(tmp, path))
  {
    assert Renamed(t, tmp, path).pending[..|t.pending|] == t.pending;
  }

  /** What is found under each name once the rename has taken effect, crash or no crash in between. */
  lemma RenameReplaces(s: FsState, t: FsState, tmp: string, path: string, c: Content, junk: nat -> Bytes, name: string)
    requires WellFormed(s) && Staging(s, t, tmp) && Durable(t, tmp, c) && tmp != path && name != tmp
    ensures Lookup(View(Renamed(t, tmp, path)), SurvivingNodes(t.nodes, junk), name)
         == if name == path then c else After(s, |s.pending|, junk, name)
    ensures Lookup(View(Renamed(t, tmp, path)), t.nodes, name) == if name == path then c else Read(s, name)
  {
    ViewOfRenamed(t, tmp, path);
    StagingIsInvisible(s, t, tmp, |t.pending|, junk, name);
    StagingReadsTheSame(s, t, tmp, name);
    assert t.pending[..|t.pending|] == t.pending && s.pending[..|s.pending|] == s.pending;
  }

  lemma RenameIsAtomic(s: FsState, t: FsState, tmp: string, path: string, c: Content)
    requires WellFormed(s) && Staging(s, t, tmp) && Durable(t, tmp, c) && tmp != path
    ensures CrashAtomic(s, Renamed(t, tmp, path), tmp, path, c)
    ensures forall name | name != tmp ::
              Read(Renamed(t, tmp, path), name) == if name == path then c else Read(s, name)
  {
    var u := Renamed(t, tmp, path);
    forall kept, junk: nat -> Bytes | 0 <= kept <= |u.pending|
      ensures SameAsBefore(s, u, tmp, kept, junk) || Replaced(s, u, tmp, path, c, kept, junk)
    {
      if kept <= |t.pending| {
        assert u.pending[..kept] == t.pending[..kept];
        StagingIsAtomic(s, t, tmp, path, c);
        forall name | name != tmp ensures After(u, kept, junk, name) == After(s, Earlier(s, kept), junk, name) {
          assert SameAsBefore(s, t, tmp, kept, junk);
        }
      } else {
        assert u.pending[..kept] == u.pending;
        forall name | name != tmp
          ensures After(u, kept, junk, name) == if name == path then c else After(s, |s.pending|, junk, name)
        {
          RenameReplaces(s, t, tmp, path, c, junk, name);
        }
      }
    }
    forall name | name != tmp
      ensures Read(u, name) == if name == path then c else Read(s, name)
    {
      RenameReplaces(s, t, tmp, path, c, _ => [], name);
    }
  }

  /** Once the directory is fsynced, no crash undoes the replacement or anything before it. */
  lemma SyncSettles(s: FsState, t: FsState, tmp: string, path: string, c: Content)
    requires WellFormed(s) && Staging(s, t, tmp) && Durable(t, tmp, c) && tmp != path
    ensures var u := DirSynced(Renamed(t, tmp, path));
            && CrashAtomic(s, u, tmp, path, c) && Settled(u, path, c)
            && (forall junk: nat -> Bytes :: Replaced(s, u, tmp, path, c, 0, junk))
            && forall name | name != tmp :: Read(u, name) == if name == path then c else Read(s, name)
  {
    var u := DirSynced(Renamed(t, tmp, path));
    RenameIsAtomic(s, t, tmp, path, c);
    forall junk: nat -> Bytes ensures Replaced(s, u, tmp, path, c, 0, junk) {
      forall name | name != tmp
        ensures After(u, 0, junk, name) == if name == path then c else After(s, |s.pending|, junk, name)
      {
        RenameReplaces(s, t, tmp, path, c, junk, name);
      }
    }
    forall name | name != tmp ensures Read(u, name) == if name == path then c else Read(s, name) {
      RenameReplaces(s, t, tmp, path, c, _ => [], name);
    }
    forall kept, junk: nat -> Bytes | 0 <= kept <= |u.pending| ensures After(u, kept, junk, path) == c {
      assert Replaced(s, u, tmp, path, c, 0, junk);
    }
  }

  // ---------------------------------------------------------------------------
  // What follows for the layers above
  // ---------------------------------------------------------------------------

  /** A name that every crash would have kept is never missing in the middle of being replaced. */
  lemma NeverMissing(s: FsState, t: FsState, tmp: string, path: string, c: Content, kept: nat, junk: nat -> Bytes)
    requires CrashAtomic(s, t, tmp, path, c) && c != Absent && tmp != path && kept <= |t.pending|
    requires forall k | 0 <= k <= |s.pending| :: After(s, k, junk, path) != Absent
    ensures After(t, kept, junk, path) != Absent
    ensures After(t, kept, junk, path) == c || exists k | 0 <= k <= |s.pending| :: After(t, kept, junk, path) == After(s, k, junk, path)
  {
    if SameAsBefore(s, t, tmp, kept, junk) {
      assert After(t, kept, junk, path) == After(s, Earlier(s, kept), junk, path);
    }
  }

  /** Replacing one name cannot unsettle another. */
  lemma SettledSurvivesOthers(s: FsState, t: FsState, tmp: string, path: string, c: Content, name: string, d: Content)
    requires CrashAtomic(s, t, tmp, path, c) && Settled(s, name, d) && name != tmp && name != path
    ensures Settled(t, name, d)
  {
    forall kept, junk: nat -> Bytes | 0 <= kept <= |t.pending| ensures After(t, kept, junk, name) == d {
      if SameAsBefore(s, t, tmp, kept, junk) {
        assert After(t, kept, junk, name) == After(s, Earlier(s, kept), junk, name);
      }
    }
  }

  /** Nor can a crash, nor any crash after it. */
  lemma SettledSurvivesCrash(s: FsState, kept: nat, junk: nat -> Bytes, name: string, d: Content)
    requires Settled(s, name, d) && kept <= |s.pending|
    ensures Settled(Crash(s, kept, junk), name, d)
  {
    var t := Crash(s, kept, junk);
    forall k, j: nat -> Bytes | 0 <= k <= |t.pending| ensures After(t, k, j, name) == d {
      assert SurvivingNodes(t.nodes, j) == t.nodes;
      assert t.pending[..k] == [];
      assert After(s, kept, junk, name) == d;
    }
  }

  /** Removing a name is not followed by a directory fsync: a crash leaves what it would have left before,
      or the name gone with everything before it kept. */
  lemma RemoveMayBeUndone(s: FsState, name: string, kept: nat, junk: nat -> Bytes, other: string)
    requires kept <= |s.pending| + 1
    ensures var t := s.(pending := s.pending + [Unlink(name)]);
            After(t, kept, junk, other)
              == if kept <= |s.pending| then After(s, kept, junk, other)
                 else if other == name then Absent else After(s, |s.pending|, junk, other)
  {
    var t := s.(pending := s.pending + [Unlink(name)]);
    if kept <= |s.pending| {
      assert t.pending[..kept] == s.pending[..kept];
    } else {
      assert t.pending[..kept] == t.pending && t.pending[..|t.pending| - 1] == s.pending;
      assert s.pending[..|s.pending|] == s.pending;
    }
  }
}
