/** What kills and power losses leave of a download (`pkg/agent/downloader.go`). The partial file and the saved state
    are entries of one directory: the state is replaced with an fsync, which may fail or be cut off, while the bytes
    it counts, and the entry of the file they are in, are written without one. */
module TransferCrashes {
  import opened Wrappers
  import opened Hex
  import opened Transfer
  import opened TransferSteps

  /** A file's data, of which the `synced` leading bytes are known to be on disk. */
  datatype Inode = Inode(data: Bytes, synced: nat)

  /** The entries that matter: which file is the partial one, and what the state file says, whose content is fsynced
      before it gets its name. */
  datatype Entries = Entries(partial: Option<nat>, saved: Option<Saved>)

  /** `images` are the entries after each operation on them since the directory was last fsynced, oldest first, up to
      what is cached. `again` counts what has been fetched anew since the partial file was truncated, dropped or moved,
      if that has happened since the offset was last saved or resumed from. */
  datatype Machine = Machine(s: State, inodes: seq<Inode>, images: seq<Entries>, again: Option<nat>) {
    predicate Valid() { images != [] }

    function Cached(): Entries
      requires Valid()
    {
      images[|images| - 1]
    }
  }

  datatype Happening =
    | Agent(e: Event, synced: bool)      // a step, or a kill; `synced` tells whether the directory fsync of SaveState happened
    | Writeback(ino: nat, n: nat)        // the system writes data back on its own
    | PowerLoss(kept: nat, tail: Bytes)  // the entries are back at an image, and the partial file there ends in anything

  function Tmp(j: Job): string { TempPath(j.target) }

  function PartialFile(j: Job, m: Machine): Bytes { m.s.store.At(Tmp(j)) }

  /** The offset a Download would start from. */
  function Counted(j: Job, saved: Option<Saved>): nat { Resume(Store(map[], saved), j.target, j.transport).1 }

  function Min(a: nat, b: nat): nat { if a <= b then a else b }

  // ---------------------------------------------------------------------------
  // What each step does to the directory
  // ---------------------------------------------------------------------------

  /** The partial file, created if there is none. */
  function Open(m: Machine): (seq<Inode>, seq<Entries>)
    requires m.Valid()
  {
    if m.Cached().partial.Some? then (m.inodes, m.images)
    else (m.inodes + [Inode([], 0)], m.images + [m.Cached().(partial := Some(|m.inodes|))])
  }

  function Update(inodes: seq<Inode>, i: Option<nat>, f: Inode): seq<Inode> {
    if i.Some? && i.value < |inodes| then inodes[i.value := f] else inodes
  }

  /** Truncating and writing change data, and leave nothing known to be on disk from there on. */
  function InodesAfter(m: Machine, e: Event): seq<Inode>
    requires m.Valid()
  {
    match (m.s.phase, e)
    case (Fetching(_, o), OpenBody(effective)) =>
      var (inodes, images) := Open(m);
      if effective != o then Update(inodes, images[|images| - 1].partial, Inode([], 0)) else inodes
    case (Copying(_, o), Chunk(data)) =>
      var i := m.Cached().partial;
      if data == [] || i.None? || i.value >= |m.inodes| then m.inodes
      else Update(m.inodes, i, Inode(Splice(m.inodes[i.value].data, o, data), Min(m.inodes[i.value].synced, o)))
    case _ => m.inodes
  }

  /** Creating, renaming and removing add an image; an fsync leaves the last. */
  function ImagesAfter(j: Job, m: Machine, e: Event, synced: bool): seq<Entries>
    requires m.Valid()
  {
    var now := m.Cached();
    match (m.s.phase, e)
    case (Fetching(_, _), FetchRefused) => m.images + [now.(partial := None)]
    case (Fetching(_, o), OpenBody(_)) => Open(m).1
    case (Failing(tmp, o), SaveState) =>
      var saved := now.(saved := Some(Saved(j.target.deltaHash, o, tmp, j.transport)));
      if synced then [saved] else m.images + [saved]
    case (Complete(_), Conclude) => m.images + [now.(partial := None)]
    case (Concluded, Forget) => m.images + [now.(saved := None)]
    case _ => m.images
  }

  function AgainAfter(m: Machine, e: Event): Option<nat> {
    match (m.s.phase, e)
    case (Fetching(_, _), FetchRefused) => Some(0)
    case (Fetching(_, o), OpenBody(effective)) => if effective != o then Some(0) else m.again
    case (Copying(_, _), Chunk(data)) => if m.again.Some? then Some(m.again.value + |data|) else None
    case (_, Conclude) => Some(0)
    case (_, SaveState) => None
    case (_, Forget) => None
    case (_, Kill) => None
    case _ => m.again
  }

  /** What is on disk of the partial file of image `k`. */
  function OnDisk(m: Machine, k: nat): Bytes
    requires k < |m.images|
  {
    match m.images[k].partial
    case None => []
    case Some(i) => if i < |m.inodes| then m.inodes[i].data[..Min(m.inodes[i].synced, |m.inodes[i].data|)] else []
  }

  /** The power goes, and the entries are back at image `k`. */
  function Lost(j: Job, m: Machine, k: nat, tail: Bytes): Machine
    requires k < |m.images|
  {
    var back := m.images[k];
    var f := OnDisk(m, k) + tail;
    if back.partial.None? then
      Machine(State(Store(m.s.store.files - {Tmp(j)}, back.saved), Off), [], [Entries(None, back.saved)], None)
    else
      Machine(State(Store(m.s.store.files[Tmp(j) := f], back.saved), Off), [Inode(f, |f|)], [Entries(Some(0), back.saved)], None)
  }

  function Go(j: Job, m: Machine, h: Happening): Option<Machine>
    requires m.Valid()
    ensures Go(j, m, h).Some? ==> Go(j, m, h).value.Valid()
  {
    match h
    case Agent(e, synced) =>
      (match Step(j, m.s, e)
       case None => None
       case Some(t) => Some(Machine(t, InodesAfter(m, e), ImagesAfter(j, m, e, synced), AgainAfter(m, e))))
    case Writeback(i, n) =>
      if i < |m.inodes| && m.inodes[i].synced <= n <= |m.inodes[i].data|
      then Some(m.(inodes := m.inodes[i := m.inodes[i].(synced := n)])) else None
    case PowerLoss(k, tail) => if k < |m.images| then Some(Lost(j, m, k, tail)) else None
  }

  function GoAll(j: Job, m: Machine, hs: seq<Happening>): Option<Machine>
    requires m.Valid()
    ensures GoAll(j, m, hs).Some? ==> GoAll(j, m, hs).value.Valid()
  {
    if hs == [] then Some(m)
    else
      match GoAll(j, m, hs[..|hs| - 1])
      case None => None
      case Some(t) => Go(j, t, hs[|hs| - 1])
  }

  /** Before the first Download. */
  ghost predicate Fresh(j: Job, m: Machine) {
    && m.s.phase.Off? && m.s.store.saved.None? && Tmp(j) !in m.s.store.files
    && m.inodes == [] && m.images == [Entries(None, None)] && m.again.None?
  }

  /** The transport serves `payload` and nothing else. */
  ghost predicate Truthful(m: Machine, h: Happening, payload: Bytes) {
    h.Agent? ==> Honest(m.s, h.e, payload)
  }

  ghost predicate HonestRun(j: Job, m: Machine, hs: seq<Happening>, payload: Bytes)
    requires m.Valid() && GoAll(j, m, hs).Some?
  {
    hs == [] ||
    var rest := hs[..|hs| - 1];
    HonestRun(j, m, rest, payload) && Truthful(GoAll(j, m, rest).value, hs[|hs| - 1], payload)
  }

  // ---------------------------------------------------------------------------
  // Offsets, over every run
  // ---------------------------------------------------------------------------

  ghost predicate GoodSaved(j: Job, saved: Option<Saved>, payload: Bytes) {
    saved.Some? ==> saved.value.tempFile == Tmp(j) && saved.value.received <= |payload|
  }

  /** Whatever crashes have happened, no offset passes the end of the payload, cached or in what a crash may leave. */
  ghost predicate OffsetInv(j: Job, m: Machine, payload: Bytes) {
    && m.Valid() && m.Cached().saved == m.s.store.saved
    && (forall k :: 0 <= k < |m.images| ==> GoodSaved(j, m.images[k].saved, payload))
    && match m.s.phase
       case Fetching(p, o) => p == Tmp(j) && o <= |payload|
       case Copying(p, o) => p == Tmp(j) && o <= |payload|
       case Failing(p, o) => p == Tmp(j) && o <= |payload|
       case Complete(p) => p == Tmp(j)
       case _ => true
  }

  lemma OffsetStep(j: Job, m: Machine, h: Happening, payload: Bytes)
    requires OffsetInv(j, m, payload) && Go(j, m, h).Some? && Truthful(m, h, payload)
    ensures OffsetInv(j, Go(j, m, h).value, payload)
  {
    hide InodesAfter, AgainAfter, OnDisk, Splice;
    assert GoodSaved(j, m.Cached().saved, payload);
  }

  lemma {:induction false} OffsetRun(j: Job, m: Machine, hs: seq<Happening>, payload: Bytes)
    requires Fresh(j, m) && GoAll(j, m, hs).Some? && HonestRun(j, m, hs, payload)
    ensures OffsetInv(j, GoAll(j, m, hs).value, payload)
  {
    hide Go, Truthful;
    if hs == [] {
      assert GoAll(j, m, hs) == Some(m);
    } else {
      OffsetRun(j, m, hs[..|hs| - 1], payload);
      OffsetStep(j, GoAll(j, m, hs[..|hs| - 1]).value, hs[|hs| - 1], payload);
    }
  }

  lemma CountedIs(j: Job, s: Store)
    ensures Counted(j, s.saved) == Resume(s, j.target, j.transport).1
  {
  }

  /** Whatever kills and power losses there were, wherever they fell and whatever they left of the directory: over a
      fault-free transport two Downloads suffice, unless the saved offset is the whole length; and over ranged HTTP
      repeated Downloads get there exactly unless it is. */
  lemma EveryCrashIsRecovered(j: Job, m: Machine, hs: seq<Happening>, payload: Bytes, env1: Env, env2: Env)
    requires Fresh(j, m) && GoAll(j, m, hs).Some? && HonestRun(j, m, hs, payload) && GoAll(j, m, hs).value.s.phase.Off?
    requires OneContent(j.sha256, j.target.deltaHash, payload) && env1.transport == env2.transport == j.transport
    ensures var store := GoAll(j, m, hs).value.s.store;
      var n := Counted(j, store.saved);
      && n <= |payload|
      && (Benign(env1, payload) && Benign(env2, payload) && (n == 0 || n < |payload|) ==>
            var (d, o) := Download(store, j.target, env1, j.sha256);
            o.Success? || Download(d, j.target, env2, j.sha256).1.Success?)
      && (RangeServer(env1, payload) ==>
            ((exists k: nat :: Downloads(store, j.target, env1, j.sha256, k).1.Success?) <==> (n == 0 || n < |payload|)))
  {
    hide Go, Truthful, Benign, Download, RangeServer, OneContent;
    OffsetRun(j, m, hs, payload);
    var t := GoAll(j, m, hs).value;
    assert GoodSaved(j, t.Cached().saved, payload);
    var store := t.s.store;
    var n := Counted(j, store.saved);
    CountedIs(j, store);
    if Benign(env1, payload) && Benign(env2, payload) && (n == 0 || n < |payload|) {
      TwoDownloadsSuffice(store, j.target, env1, env2, j.sha256, payload);
    }
    if RangeServer(env1, payload) { RangedProgress(store, j.target, env1, j.sha256, payload); }
  }

  // ---------------------------------------------------------------------------
  // Contents
  // ---------------------------------------------------------------------------

  /** The first `n` bytes are the payload's. */
  predicate Right(f: Bytes, n: nat, payload: Bytes) {
    n <= |f| && n <= |payload| && f[..n] == payload[..n]
  }

  /** A Download could resume from here. */
  predicate Sound(j: Job, s: Store, payload: Bytes) {
    Right(s.At(Tmp(j)), Counted(j, s.saved), payload)
  }

  /** The saved offset counts no more than what has been fetched since the file was truncated, dropped or moved. */
  predicate FetchedAgain(j: Job, m: Machine) {
    m.again.None? || Counted(j, m.s.store.saved) <= m.again.value
  }

  /** The state of image `k` counts only bytes that are on disk in the partial file that returns with it. */
  predicate Survives(j: Job, m: Machine, k: nat)
    requires k < |m.images|
  {
    Counted(j, m.images[k].saved) <= |OnDisk(m, k)|
  }

  predicate Careful(j: Job, m: Machine, h: Happening) {
    match h
    case Agent(e, _) => e.Kill? ==> FetchedAgain(j, m)
    case PowerLoss(k, _) => k < |m.images| && Survives(j, m, k)
    case Writeback(_, _) => true
  }

  ghost predicate CarefulRun(j: Job, m: Machine, hs: seq<Happening>, payload: Bytes)
    requires m.Valid() && GoAll(j, m, hs).Some?
  {
    hs == [] ||
    var rest := hs[..|hs| - 1];
    CarefulRun(j, m, rest, payload)
    && Truthful(GoAll(j, m, rest).value, hs[|hs| - 1], payload) && Careful(j, GoAll(j, m, rest).value, hs[|hs| - 1])
  }

  /** A state and the file it counts bytes of: as far as the file goes, they are the right ones. */
  ghost predicate Fits(j: Job, inodes: seq<Inode>, x: Entries, payload: Bytes) {
    x.partial.Some? ==>
      && x.partial.value < |inodes|
      && var f, n := inodes[x.partial.value].data, Counted(j, x.saved); n <= |f| ==> Right(f, n, payload)
  }

  /** The directory says what the agent sees. */
  ghost predicate DirectoryInv(j: Job, m: Machine, payload: Bytes) {
    && m.Valid()
    && (forall i :: 0 <= i < |m.inodes| ==> m.inodes[i].synced <= |m.inodes[i].data|)
    && (forall k :: 0 <= k < |m.images| ==> Fits(j, m.inodes, m.images[k], payload))
    && (m.Cached().partial.Some? <==> Tmp(j) in m.s.store.files)
    && (m.Cached().partial.Some? ==>
          m.Cached().partial.value < |m.inodes| && m.inodes[m.Cached().partial.value].data == PartialFile(j, m))
  }

  ghost predicate ContentInv(j: Job, m: Machine, payload: Bytes) {
    var f, n := PartialFile(j, m), Counted(j, m.s.store.saved);
    && OffsetInv(j, m, payload) && DirectoryInv(j, m, payload) && Tmp(j) != j.target.outPath
    && (m.again.None? ==> Right(f, n, payload))
    && (m.again.Some? ==> m.again.value == |f| && Right(f, |f|, payload))
    && match m.s.phase
       case Off => m.again.None?
       case Fetching(_, o) => m.again.None? && Right(f, o, payload) && n <= o
       case Copying(_, o) => Right(f, o, payload) && (m.again.None? ==> n <= o) && (m.again.Some? ==> o == |f|)
                             && Tmp(j) in m.s.store.files
       case Failing(_, o) => Right(f, o, payload)
       case Complete(_) => true
       case Concluded => f == []
  }

  lemma NothingIsRight(f: Bytes, payload: Bytes)
    ensures Right(f, 0, payload) && (f == [] ==> Right(f, |f|, payload))
  {
  }

  lemma ShorterIsRight(f: Bytes, n: nat, o: nat, payload: Bytes)
    requires Right(f, o, payload) && n <= o
    ensures Right(f, n, payload)
  {
    assert f[..n] == f[..o][..n];
  }

  /** Right data written where everything before it is right: nothing right becomes wrong, whether it lies before,
      under or beyond it. */
  lemma SpliceIsRight(f: Bytes, o: nat, data: Bytes, n: nat, payload: Bytes)
    requires Right(f, o, payload) && o + |data| <= |payload| && data == payload[o..o + |data|]
    ensures var g := Splice(f, o, data);
      && Right(g, o + |data|, payload) && |g| == (if o + |data| < |f| then |f| else o + |data|)
      && ((n <= |f| ==> Right(f, n, payload)) && n <= |g| ==> Right(g, n, payload))
  {
    var g := Splice(f, o, data);
    if data != [] {
      var rest := if o + |data| < |f| then f[o + |data|..] else [];
      assert g == f[..o] + data + rest;
      assert f[..o] == payload[..o];
      assert g[..o + |data|] == payload[..o] + payload[o..o + |data|] == payload[..o + |data|];
      if n <= o + |data| {
        assert g[..n] == g[..o + |data|][..n];
      } else if n <= |f| && Right(f, n, payload) {
        assert forall i :: 0 <= i < n ==> g[i] == payload[i] by {
          forall i | 0 <= i < n ensures g[i] == payload[i] {
            if i < o + |data| {
              assert g[i] == g[..o + |data|][i] == payload[..o + |data|][i];
            } else {
              assert g[i] == f[i] == f[..n][i] == payload[..n][i];
            }
          }
        }
      }
    }
  }

  lemma ContentLost(j: Job, m: Machine, k: nat, tail: Bytes, payload: Bytes)
    requires DirectoryInv(j, m, payload) && k < |m.images| && Survives(j, m, k)
    ensures Sound(j, Lost(j, m, k, tail).s.store, payload)
  {
    var back := m.images[k];
    assert Fits(j, m.inodes, back, payload);
    var n := Counted(j, back.saved);
    if back.partial.Some? {
      var i := m.inodes[back.partial.value];
      var g := OnDisk(m, k) + tail;
      assert g[..n] == i.data[..i.synced][..n] == i.data[..n];
    }
  }

  /** Most steps change neither the file nor its entries. */
  predicate Idle(e: Event) {
    e.Begin? || e.FetchFailed? || e.BodyEnds? || e.Stop? || e.Kill?
  }

  lemma IdleGoes(j: Job, m: Machine, e: Event, synced: bool)
    requires m.Valid() && Idle(e) && Go(j, m, Agent(e, synced)).Some?
    ensures var t := Go(j, m, Agent(e, synced)).value;
      && t.inodes == m.inodes && t.images == m.images && t.s.store == m.s.store
      && Step(j, m.s, e) == Some(t.s) && t.again == if e.Kill? then None else m.again
  {
  }

  lemma ContentIdle(j: Job, m: Machine, e: Event, synced: bool, payload: Bytes)
    requires ContentInv(j, m, payload) && Go(j, m, Agent(e, synced)).Some? && Careful(j, m, Agent(e, synced)) && Idle(e)
    requires OffsetInv(j, Go(j, m, Agent(e, synced)).value, payload)
    ensures ContentInv(j, Go(j, m, Agent(e, synced)).value, payload)
  {
    NothingIsRight(PartialFile(j, m), payload);
    if e.Kill? && m.again.Some? { ShorterIsRight(PartialFile(j, m), Counted(j, m.s.store.saved), |PartialFile(j, m)|, payload); }
    IdleGoes(j, m, e, synced);
    hide Go, Right, OffsetInv, Fits, Splice;
  }

  /** Dropping or moving the partial file, saving, forgetting: one image more, or the last alone. */
  lemma ContentEntries(j: Job, m: Machine, e: Event, synced: bool, payload: Bytes)
    requires ContentInv(j, m, payload) && Go(j, m, Agent(e, synced)).Some?
    requires e.FetchRefused? || e.Conclude? || e.SaveState? || e.Forget?
    requires OffsetInv(j, Go(j, m, Agent(e, synced)).value, payload)
    ensures ContentInv(j, Go(j, m, Agent(e, synced)).value, payload)
  {
    NothingIsRight(PartialFile(j, m), payload);
    NothingIsRight([], payload);
    assert Fits(j, m.inodes, m.Cached(), payload);
    hide Right, OffsetInv, Splice;
  }

  lemma ContentOpen(j: Job, m: Machine, effective: nat, synced: bool, payload: Bytes)
    requires ContentInv(j, m, payload) && Go(j, m, Agent(OpenBody(effective), synced)).Some?
    requires Truthful(m, Agent(OpenBody(effective), synced), payload)
    requires OffsetInv(j, Go(j, m, Agent(OpenBody(effective), synced)).value, payload)
    ensures ContentInv(j, Go(j, m, Agent(OpenBody(effective), synced)).value, payload)
  {
    NothingIsRight(PartialFile(j, m), payload);
    NothingIsRight([], payload);
    assert Fits(j, m.inodes, m.Cached(), payload);
    hide Right, OffsetInv, Splice;
  }

  lemma ContentChunk(j: Job, m: Machine, data: Bytes, synced: bool, payload: Bytes)
    requires ContentInv(j, m, payload) && m.s.phase.Copying? && Truthful(m, Agent(Chunk(data), synced), payload)
    requires OffsetInv(j, Go(j, m, Agent(Chunk(data), synced)).value, payload)
    ensures ContentInv(j, Go(j, m, Agent(Chunk(data), synced)).value, payload)
  {
    var f, o := PartialFile(j, m), m.s.phase.offset;
    SpliceIsRight(f, o, data, Counted(j, m.s.store.saved), payload);
    SpliceIsRight(f, o, data, |f|, payload);
    var t := Go(j, m, Agent(Chunk(data), synced)).value;
    forall k | 0 <= k < |t.images| ensures Fits(j, t.inodes, t.images[k], payload) {
      assert Fits(j, m.inodes, m.images[k], payload);
      SpliceIsRight(f, o, data, Counted(j, m.images[k].saved), payload);
    }
    hide Right, OffsetInv, Splice, Fits;
  }

  lemma ContentWriteback(j: Job, m: Machine, i: nat, n: nat, payload: Bytes)
    requires ContentInv(j, m, payload) && Go(j, m, Writeback(i, n)).Some? && OffsetInv(j, Go(j, m, Writeback(i, n)).value, payload)
    ensures ContentInv(j, Go(j, m, Writeback(i, n)).value, payload)
  {
    hide Right, OffsetInv;
  }

  lemma ContentPowerLoss(j: Job, m: Machine, k: nat, tail: Bytes, payload: Bytes)
    requires ContentInv(j, m, payload) && k < |m.images| && Survives(j, m, k)
    requires OffsetInv(j, Lost(j, m, k, tail), payload)
    ensures ContentInv(j, Lost(j, m, k, tail), payload)
  {
    ContentLost(j, m, k, tail, payload);
    hide Right, OffsetInv, OnDisk;
  }

  lemma OffsetOf(j: Job, m: Machine, payload: Bytes)
    requires ContentInv(j, m, payload)
    ensures OffsetInv(j, m, payload)
  {
    hide OffsetInv, DirectoryInv, Right;
  }

  lemma PowerGoes(j: Job, m: Machine, k: nat, tail: Bytes)
    requires m.Valid() && k < |m.images|
    ensures Go(j, m, PowerLoss(k, tail)) == Some(Lost(j, m, k, tail))
  {
    hide Lost;
  }

  lemma ChunksAreCopied(j: Job, m: Machine, data: Bytes, synced: bool)
    requires m.Valid() && Go(j, m, Agent(Chunk(data), synced)).Some?
    ensures m.s.phase.Copying?
  {
    hide InodesAfter, ImagesAfter, AgainAfter;
  }

  lemma ContentStep(j: Job, m: Machine, h: Happening, payload: Bytes)
    requires ContentInv(j, m, payload) && Go(j, m, h).Some? && Truthful(m, h, payload) && Careful(j, m, h)
    ensures ContentInv(j, Go(j, m, h).value, payload)
  {
    OffsetOf(j, m, payload);
    OffsetStep(j, m, h, payload);
    hide ContentInv, OffsetInv, Go, Truthful, Splice;
    match h
    case Writeback(i, n) => ContentWriteback(j, m, i, n, payload);
    case PowerLoss(k, tail) =>
      assert Go(j, m, h) == Some(Lost(j, m, k, tail)) by { PowerGoes(j, m, k, tail); }
      ContentPowerLoss(j, m, k, tail, payload);
    case Agent(e, synced) =>
      match e {
        case Chunk(data) =>
          ChunksAreCopied(j, m, data, synced);
          ContentChunk(j, m, data, synced, payload);
        case OpenBody(effective) => ContentOpen(j, m, effective, synced, payload);
        case FetchRefused => ContentEntries(j, m, e, synced, payload);
        case Conclude => ContentEntries(j, m, e, synced, payload);
        case SaveState => ContentEntries(j, m, e, synced, payload);
        case Forget => ContentEntries(j, m, e, synced, payload);
        case _ => ContentIdle(j, m, e, synced, payload);
      }
  }

  lemma FreshInv(j: Job, m: Machine, payload: Bytes)
    requires Fresh(j, m)
    ensures ContentInv(j, m, payload)
  {
    assert |Tmp(j)| == |j.target.outPath| + 8;
  }

  lemma {:induction false} ContentRun(j: Job, m: Machine, hs: seq<Happening>, payload: Bytes)
    requires Fresh(j, m) && GoAll(j, m, hs).Some? && CarefulRun(j, m, hs, payload)
    ensures ContentInv(j, GoAll(j, m, hs).value, payload)
  {
    hide Go, Truthful, Careful, ContentInv;
    if hs == [] {
      assert GoAll(j, m, hs) == Some(m);
      FreshInv(j, m, payload);
    } else {
      ContentRun(j, m, hs[..|hs| - 1], payload);
      ContentStep(j, GoAll(j, m, hs[..|hs| - 1]).value, hs[|hs| - 1], payload);
    }
  }

  /** At every attempt boundary of every run whose crashes are careful, the first `offset` bytes of the partial file
      are the payload's, whatever requests were ignored, refused or cut off; and so are those up to the saved one. */
  lemma BoundariesAreExact(j: Job, m: Machine, hs: seq<Happening>, payload: Bytes)
    requires Fresh(j, m) && GoAll(j, m, hs).Some? && CarefulRun(j, m, hs, payload) && GoAll(j, m, hs).value.s.phase.Fetching?
    ensures var t := GoAll(j, m, hs).value;
      Right(PartialFile(j, t), t.s.phase.offset, payload) && Sound(j, t.s.store, payload)
  {
    hide Go, Truthful, Careful, Right, DirectoryInv, OffsetInv;
    ContentRun(j, m, hs, payload);
  }

  lemma KillIs(j: Job, m: Machine, synced: bool)
    requires m.Valid()
    ensures Go(j, m, Agent(Kill, synced)).Some? && Go(j, m, Agent(Kill, synced)).value.s.store == m.s.store
  {
  }

  /** After any such run a kill leaves a file that can be resumed from exactly when, since the offset was saved, the
      file was not truncated for an ignored offset, dropped for a refused one or moved away, or as much as the offset
      counts has been fetched again. */
  lemma KillIsHarmlessIff(j: Job, m: Machine, hs: seq<Happening>, payload: Bytes, synced: bool)
    requires Fresh(j, m) && GoAll(j, m, hs).Some? && CarefulRun(j, m, hs, payload)
    ensures var t := GoAll(j, m, hs).value;
      Go(j, t, Agent(Kill, synced)).Some? && (Sound(j, Go(j, t, Agent(Kill, synced)).value.s.store, payload) <==> FetchedAgain(j, t))
  {
    ContentRun(j, m, hs, payload);
    var t := GoAll(j, m, hs).value;
    KillIs(j, t, synced);
    if t.again.Some? && FetchedAgain(j, t) { ShorterIsRight(PartialFile(j, t), Counted(j, t.s.store.saved), |PartialFile(j, t)|, payload); }
    hide Go, Truthful, Careful, CarefulRun, DirectoryInv, OffsetInv;
  }

  lemma NothingSurvives(j: Job, m: Machine, k: nat, payload: Bytes)
    requires m.Valid() && k < |m.images| && !Survives(j, m, k)
    ensures !Sound(j, Lost(j, m, k, []).s.store, payload)
  {
    assert OnDisk(m, k) + [] == OnDisk(m, k);
  }

  /** And a power loss leaves one, whichever entries come back and whatever becomes of bytes that are not on disk,
      exactly when each state that may come back counts only bytes that are on disk in the file that comes with it. */
  lemma PowerLossIsHarmlessIff(j: Job, m: Machine, hs: seq<Happening>, payload: Bytes, k: nat)
    requires Fresh(j, m) && GoAll(j, m, hs).Some? && CarefulRun(j, m, hs, payload) && k < |GoAll(j, m, hs).value.images|
    ensures var t := GoAll(j, m, hs).value;
      (forall tail :: Sound(j, Lost(j, t, k, tail).s.store, payload)) <==> Survives(j, t, k)
  {
    hide Go, Truthful, Careful, CarefulRun, Right, OffsetInv;
    ContentRun(j, m, hs, payload);
    var t := GoAll(j, m, hs).value;
    if Survives(j, t, k) {
      forall tail ensures Sound(j, Lost(j, t, k, tail).s.store, payload) { ContentLost(j, t, k, tail, payload); }
    } else {
      NothingSurvives(j, t, k, payload);
    }
  }

  // ---------------------------------------------------------------------------
  // The failures are real
  // ---------------------------------------------------------------------------

  /** `m` is reached from nothing, with no crash at all. */
  ghost predicate ReachedCalmly(j: Job, m: Machine, payload: Bytes) {
    exists m0: Machine, hs :: m0.Valid() && Fresh(j, m0) && GoAll(j, m0, hs) == Some(m) && CarefulRun(j, m0, hs, payload)
  }

  lemma OneMore(j: Job, m0: Machine, hs: seq<Happening>, m: Machine, h: Happening, n: Machine, payload: Bytes)
    requires m0.Valid() && GoAll(j, m0, hs) == Some(m) && CarefulRun(j, m0, hs, payload)
    requires Go(j, m, h) == Some(n) && Truthful(m, h, payload) && Careful(j, m, h)
    ensures GoAll(j, m0, hs + [h]) == Some(n) && CarefulRun(j, m0, hs + [h], payload)
  {
    hide Go, Truthful, Careful;
    assert (hs + [h])[..|hs + [h]| - 1] == hs;
  }

  lemma Next(j: Job, m: Machine, h: Happening, payload: Bytes) returns (n: Machine)
    requires ReachedCalmly(j, m, payload) && m.Valid() && Go(j, m, h).Some? && Truthful(m, h, payload)
    requires !h.PowerLoss? && (h.Agent? ==> !h.e.Kill?)
    ensures n.Valid() && ReachedCalmly(j, n, payload) && Go(j, m, h) == Some(n)
  {
    hide GoAll, CarefulRun, Fresh, Go, Truthful;
    var m0: Machine, hs :| m0.Valid() && Fresh(j, m0) && GoAll(j, m0, hs) == Some(m) && CarefulRun(j, m0, hs, payload);
    n := Go(j, m, h).value;
    OneMore(j, m0, hs, m, h, n, payload);
  }

  lemma Start(j: Job, m: Machine, payload: Bytes)
    requires Fresh(j, m)
    ensures ReachedCalmly(j, m, payload)
  {
    assert GoAll(j, m, []) == Some(m) && CarefulRun(j, m, [], payload);
  }

  /** The ordinary case: one chunk, a cut-off, the offset saved. The bytes it counts are not on disk, and a power
      loss may leave others in their place. */
  lemma CutOffLosesItsTail(j: Job, payload: Bytes) returns (m: Machine)
    requires |payload| > 0
    ensures m.Valid() && ReachedCalmly(j, m, payload) && FetchedAgain(j, m) && m.images == [m.Cached()] && !Survives(j, m, 0)
    ensures m.s.phase == Fetching(Tmp(j), 1) && Counted(j, m.s.store.saved) == 1 && m.Cached() == Entries(Some(0), m.s.store.saved)
    ensures |m.inodes| == 1 && m.inodes[0].synced == 0 && |m.inodes[0].data| == 1
    ensures Sound(j, m.s.store, payload) && exists tail :: !Sound(j, Lost(j, m, 0, tail).s.store, payload)
  {
    hide ReachedCalmly;
    m := Machine(State(Store(map[], None), Off), [], [Entries(None, None)], None);
    Start(j, m, payload);
    m := Next(j, m, Agent(Begin, true), payload);
    m := Next(j, m, Agent(OpenBody(0), true), payload);
    assert payload[..1] == payload[0..1];
    m := Next(j, m, Agent(Chunk(payload[..1]), true), payload);
    m := Next(j, m, Agent(BodyEnds(false), true), payload);
    m := Next(j, m, Agent(SaveState, true), payload);
    NothingSurvives(j, m, 0, payload);
  }

  /** A refused resume drops the file and saves offset zero; with the fsync of that save missing, the drop may survive
      it, and the old offset come back over no file at all. */
  lemma UnsyncedSaveMeetsTheDrop(j: Job, payload: Bytes) returns (m: Machine)
    requires |payload| > 0
    ensures m.Valid() && ReachedCalmly(j, m, payload) && Counted(j, m.s.store.saved) == 0 && |m.images| == 3
    ensures m.images[1].partial.None? && Counted(j, m.images[1].saved) == 1 && !Survives(j, m, 1) && Survives(j, m, 2)
  {
    hide ReachedCalmly;
    m := CutOffLosesItsTail(j, payload);
    m := Next(j, m, Agent(FetchRefused, true), payload);
    m := Next(j, m, Agent(SaveState, false), payload);
  }

  /** The removals at the end of a download are not fsynced either: while the same target is being fetched once more,
      the first download's state may come back, without the file it counted bytes of. */
  lemma SecondFetchMeetsTheFirst(j: Job, payload: Bytes) returns (m: Machine)
    requires |payload| > 0
    ensures m.Valid() && ReachedCalmly(j, m, payload) && m.s.phase.Copying? && m.s.store.saved.None? && |m.images| == 4
    ensures m.images[1].partial.None? && Counted(j, m.images[1].saved) == 1 && !Survives(j, m, 1)
  {
    hide ReachedCalmly;
    m := CutOffLosesItsTail(j, payload);
    m := Next(j, m, Agent(OpenBody(1), true), payload);
    var rest := payload[1..];
    assert rest == payload[1..1 + |rest|];
    m := Next(j, m, Agent(Chunk(rest), true), payload);
    m := Next(j, m, Agent(BodyEnds(true), true), payload);
    m := Next(j, m, Agent(Event.Conclude, true), payload);
    m := Next(j, m, Agent(Forget, true), payload);
    m := Next(j, m, Agent(Begin, true), payload);
    m := Next(j, m, Agent(OpenBody(0), true), payload);
  }

  /** A kill while fetching again from the start after an ignored offset. */
  lemma RestartedFetchLosesTheOffset(j: Job, payload: Bytes) returns (m: Machine)
    requires |payload| > 0
    ensures m.Valid() && ReachedCalmly(j, m, payload) && m.s.phase.Copying? && !FetchedAgain(j, m) && !Sound(j, m.s.store, payload)
  {
    hide ReachedCalmly;
    m := CutOffLosesItsTail(j, payload);
    m := Next(j, m, Agent(OpenBody(0), true), payload);
  }
}
