/** The retention sweep (`pkg/server/retention.go`): which derived files and binaries one pass deletes. */
module Retentions {
  import opened Wrappers
  import opened Hex
  import opened Names

  datatype Candidate = Candidate(name: string, size: nat, mtime: int)

  datatype Options = Options(deltaMaxAge: int, deltasMaxTotalBytes: int, collectOrphans: bool, orphanMinAge: int)

  datatype Stats = Stats(deltasDeleted: nat, fullsDeleted: nat, binariesDeleted: nat, bytesReclaimed: int, scanned: nat)

  /** What a sweep is told: the registry's live hashes and current targets, the clock, and the names whose
      removal the operating system will refuse. */
  datatype World = World(live: set<string>, current: set<string>, now: int, stuck: set<string>)

  function TotalSize(cs: seq<Candidate>): nat {
    if cs == [] then 0 else cs[0].size + TotalSize(cs[1..])
  }

  ghost function NamesIn(cs: seq<Candidate>): set<string> { set c | c in cs :: c.name }

  /** A directory listing: no name twice. */
  ghost predicate Listing(cs: seq<Candidate>) {
    forall i, j :: 0 <= i < j < |cs| ==> cs[i].name != cs[j].name
  }

  /** No device will ask for it again. */
  predicate Dead(t: Transfer, w: World) {
    match t
    case Delta(from, to) => to !in w.current || from !in w.live
    case Full(h) => h !in w.live
  }

  predicate Owned(c: Candidate) { ParseTransferName(c.name).Some? }

  predicate Doomed(c: Candidate, o: Options, w: World) {
    Owned(c) && (Dead(ParseTransferName(c.name).value, w) || (o.deltaMaxAge > 0 && w.now - c.mtime > o.deltaMaxAge))
  }

  function Filter(cs: seq<Candidate>, p: Candidate -> bool): seq<Candidate> {
    if cs == [] then []
    else
      var rest, c := Filter(cs[..|cs| - 1], p), cs[|cs| - 1];
      if p(c) then rest + [c] else rest
  }

  /** Deleted outright, in listing order. */
  function Condemned(cs: seq<Candidate>, o: Options, w: World): seq<Candidate> {
    Filter(cs, (c: Candidate) => Doomed(c, o, w) && c.name !in w.stuck)
  }

  /** The files the byte cap is about. */
  function Survivors(cs: seq<Candidate>, o: Options, w: World): seq<Candidate> {
    Filter(cs, (c: Candidate) => Owned(c) && !Doomed(c, o, w))
  }

  predicate OldestFirst(cs: seq<Candidate>) {
    forall i, j :: 0 <= i < j < |cs| ==> cs[i].mtime <= cs[j].mtime
  }

  /** What the cap takes from a list in age order, starting with `total` bytes: a refused removal frees nothing
      and is passed over. */
  function CapVictims(sorted: seq<Candidate>, total: int, cap: int, stuck: set<string>): seq<Candidate> {
    if sorted == [] || total <= cap then []
    else if sorted[0].name in stuck then CapVictims(sorted[1..], total, cap, stuck)
    else [sorted[0]] + CapVictims(sorted[1..], total - sorted[0].size, cap, stuck)
  }

  /** `deleted` is what one pass over the derived files deletes: the condemned, then, when a cap is set and
      exceeded, victims of some oldest-first order of the survivors. */
  ghost predicate Deletes(cs: seq<Candidate>, o: Options, w: World, sorted: seq<Candidate>, deleted: seq<Candidate>) {
    var keep := Survivors(cs, o, w);
    && multiset(sorted) == multiset(keep) && OldestFirst(sorted)
    && deleted == Condemned(cs, o, w)
                  + if o.deltasMaxTotalBytes <= 0 then []
                    else CapVictims(sorted, TotalSize(keep), o.deltasMaxTotalBytes, w.stuck)
  }

  lemma CapStep(sorted: seq<Candidate>, i: nat, total: int, cap: int, stuck: set<string>)
    requires i < |sorted| && total > cap
    ensures CapVictims(sorted[i..], total, cap, stuck)
         == if sorted[i].name in stuck then CapVictims(sorted[i + 1..], total, cap, stuck)
            else [sorted[i]] + CapVictims(sorted[i + 1..], total - sorted[i].size, cap, stuck)
  {
    assert sorted[i..][1..] == sorted[i + 1..];
  }

  lemma CapDone(sorted: seq<Candidate>, total: int, cap: int, stuck: set<string>)
    requires sorted == [] || total <= cap
    ensures CapVictims(sorted, total, cap, stuck) == []
  {
  }

  /** What remains of a listing. */
  function Remaining(cs: seq<Candidate>, gone: set<string>): seq<Candidate> {
    Filter(cs, (c: Candidate) => c.name !in gone)
  }

  // ---------------------------------------------------------------------------
  // The passes of the sweeper
  // ---------------------------------------------------------------------------

  datatype Kind = DeltaFile | FullFile | BinaryFile

  function KindOf(c: Candidate): Kind {
    match ParseTransferName(c.name)
    case Some(Delta(_, _)) => DeltaFile
    case Some(Full(_)) => FullFile
    case None => BinaryFile
  }

  function CountOf(cs: seq<Candidate>, k: Kind): nat {
    if cs == [] then 0
    else CountOf(cs[..|cs| - 1], k) + if KindOf(cs[|cs| - 1]) == k then 1 else 0
  }

  lemma {:induction false} CountsAddUp(cs: seq<Candidate>)
    ensures CountOf(cs, DeltaFile) + CountOf(cs, FullFile) + CountOf(cs, BinaryFile) == |cs|
  {
    if cs == [] {
    } else {
      CountsAddUp(cs[..|cs| - 1]);
    }
  }

  /** How many files of a list are named like deltas, and like whole binaries. */
  function NamedDeltas(cs: seq<Candidate>): nat {
    |Filter(cs, (c: Candidate) => ParseTransferName(c.name).Some? && ParseTransferName(c.name).value.Delta?)|
  }

  function NamedFulls(cs: seq<Candidate>): nat {
    |Filter(cs, (c: Candidate) => ParseTransferName(c.name).Some? && ParseTransferName(c.name).value.Full?)|
  }

  lemma {:induction false} CountsByName(cs: seq<Candidate>)
    ensures CountOf(cs, DeltaFile) == NamedDeltas(cs) && CountOf(cs, FullFile) == NamedFulls(cs)
  {
    hide ParseTransferName;
    if cs == [] {
    } else {
      CountsByName(cs[..|cs| - 1]);
    }
  }

  lemma {:induction false} CountedByName(a: seq<Candidate>, b: seq<Candidate>)
    ensures NamedDeltas(a + b) == NamedDeltas(a) + NamedDeltas(b) && NamedFulls(a + b) == NamedFulls(a) + NamedFulls(b)
  {
    hide ParseTransferName;
    if b == [] {
      assert a + b == a;
    } else {
      assert (a + b)[..|a + b| - 1] == a + b[..|b| - 1];
      CountedByName(a, b[..|b| - 1]);
    }
  }

  /** The digest a binary's file name stands for. */
  function BinaryHash(name: string): Option<string> {
    match CutSuffix(name, ".bin")
    case Some(h) => if IsValidHash(h) then Some(h) else None
    case None => None
  }

  /** How many files of a listing are named like binaries. */
  function Scannable(cs: seq<Candidate>): nat {
    if cs == [] then 0
    else Scannable(cs[..|cs| - 1]) + if BinaryHash(cs[|cs| - 1].name).Some? then 1 else 0
  }

  predicate IsOrphan(c: Candidate, o: Options, w: World) {
    BinaryHash(c.name).Some? && BinaryHash(c.name).value !in w.live && w.now - c.mtime >= o.orphanMinAge
  }

  lemma OrphanStep(c: Candidate, o: Options, w: World)
    ensures IsOrphan(c, o, w) ==> BinaryHash(c.name).Some?
  {
  }

  function Orphaned(cs: seq<Candidate>, o: Options, w: World): seq<Candidate> {
    Filter(cs, (c: Candidate) => IsOrphan(c, o, w) && c.name !in w.stuck)
  }

  method SumSizes(cs: seq<Candidate>) returns (total: nat)
    ensures total == TotalSize(cs)
  {
    total := 0;
    var i := 0;
    while i < |cs|
      invariant 0 <= i <= |cs| && total + TotalSize(cs[i..]) == TotalSize(cs)
    {
      total := total + cs[i].size;
      assert cs[i..][1..] == cs[i + 1..];
      i := i + 1;
    }
  }

  function InsertByAge(sorted: seq<Candidate>, c: Candidate): seq<Candidate> {
    if sorted == [] || c.mtime < sorted[0].mtime then [c] + sorted else [sorted[0]] + InsertByAge(sorted[1..], c)
  }

  lemma {:induction false} InsertKeeps(sorted: seq<Candidate>, c: Candidate)
    ensures multiset(InsertByAge(sorted, c)) == multiset(sorted) + multiset{c}
    ensures forall x :: x in InsertByAge(sorted, c) ==> x == c || x in sorted
  {
    if sorted == [] || c.mtime < sorted[0].mtime {
    } else {
      InsertKeeps(sorted[1..], c);
      assert sorted == [sorted[0]] + sorted[1..];
    }
  }

  lemma {:induction false} InsertSorts(sorted: seq<Candidate>, c: Candidate)
    requires OldestFirst(sorted)
    ensures OldestFirst(InsertByAge(sorted, c))
  {
    if sorted == [] || c.mtime < sorted[0].mtime {
    } else {
      InsertSorts(sorted[1..], c);
      InsertKeeps(sorted[1..], c);
      var r := InsertByAge(sorted[1..], c);
      forall j | 0 <= j < |r| ensures sorted[0].mtime <= r[j].mtime {
        assert r[j] in r;
      }
    }
  }

  lemma Unsorted()
    ensures OldestFirst([])
  {
  }

  /** sort.Slice by modification time. */
  method SortByAge(cs: seq<Candidate>) returns (sorted: seq<Candidate>)
    ensures multiset(sorted) == multiset(cs) && OldestFirst(sorted)
  {
    hide OldestFirst, InsertByAge;
    sorted := [];
    Unsorted();
    var i := 0;
    while i < |cs|
      invariant 0 <= i <= |cs| && multiset(sorted) == multiset(cs[..i]) && OldestFirst(sorted)
    {
      InsertKeeps(sorted, cs[i]);
      InsertSorts(sorted, cs[i]);
      assert cs[..i + 1] == cs[..i] + [cs[i]];
      sorted := InsertByAge(sorted, cs[i]);
      i := i + 1;
    }
    assert cs[..i] == cs;
  }

  /** The statistics after deleting `cs`. */
  function Counted(s: Stats, cs: seq<Candidate>): Stats {
    s.(deltasDeleted := s.deltasDeleted + CountOf(cs, DeltaFile),
       fullsDeleted := s.fullsDeleted + CountOf(cs, FullFile),
       binariesDeleted := s.binariesDeleted + CountOf(cs, BinaryFile),
       bytesReclaimed := s.bytesReclaimed + TotalSize(cs))
  }

  lemma FilterStep(entries: seq<Candidate>, i: nat, o: Options, w: World)
    requires i < |entries|
    ensures var c, before, after := entries[i], entries[..i], entries[..i + 1];
            && Survivors(after, o, w) == Survivors(before, o, w) + (if Owned(c) && !Doomed(c, o, w) then [c] else [])
            && Condemned(after, o, w) == Condemned(before, o, w) + (if Doomed(c, o, w) && c.name !in w.stuck then [c] else [])
  {
    assert entries[..i + 1][..i] == entries[..i];
  }

  lemma CountedOne(s: Stats, c: Candidate)
    ensures forall k :: CountOf([c], k) == if KindOf(c) == k then 1 else 0
    ensures TotalSize([c]) == c.size
  {
    assert [c][..0] == [];
  }

  lemma TotalSizeSnoc(cs: seq<Candidate>, c: Candidate)
    ensures TotalSize(cs + [c]) == TotalSize(cs) + c.size
  {
    if cs == [] {
    } else {
      assert (cs + [c])[1..] == cs[1..] + [c];
      TotalSizeSnoc(cs[1..], c);
    }
  }

  lemma CountedMore(s: Stats, cs: seq<Candidate>, c: Candidate)
    ensures Counted(Counted(s, cs), [c]) == Counted(s, cs + [c])
  {
    CountedOne(s, c);
    assert (cs + [c])[..|cs|] == cs;
    TotalSizeSnoc(cs, c);
  }

  lemma ScannedMore(s: Stats, cs: seq<Candidate>, i: nat)
    ensures var c := Counted(s.(scanned := s.scanned + i), cs);
            c.(scanned := c.scanned + 1) == Counted(s.(scanned := s.scanned + i + 1), cs)
  {
  }

  lemma CountedNone(s: Stats)
    ensures Counted(s, []) == s
  {
  }

  lemma {:induction false} RemainingNone(cs: seq<Candidate>)
    ensures Remaining(cs, {}) == cs && Remaining(cs, NamesIn([])) == cs
  {
    assert NamesIn([]) == {};
    if cs == [] {
    } else {
      RemainingNone(cs[..|cs| - 1]);
    }
  }

  lemma FilterSnoc(cs: seq<Candidate>, c: Candidate, p: Candidate -> bool)
    ensures Filter(cs + [c], p) == Filter(cs, p) + if p(c) then [c] else []
  {
    assert (cs + [c])[..|cs|] == cs;
  }

  lemma {:induction false} RemainingTwice(cs: seq<Candidate>, a: set<string>, b: set<string>)
    ensures Remaining(Remaining(cs, a), b) == Remaining(cs, a + b)
  {
    if cs == [] {
    } else {
      var rest, c := cs[..|cs| - 1], cs[|cs| - 1];
      RemainingTwice(rest, a, b);
      if c.name !in a {
        FilterSnoc(Remaining(rest, a), c, (c: Candidate) => c.name !in b);
      }
    }
  }

  lemma RemainingMore(cs: seq<Candidate>, gone: set<string>, c: Candidate)
    ensures Remaining(Remaining(cs, gone), {c.name}) == Remaining(cs, gone + {c.name})
    ensures forall ds :: NamesIn(ds) == gone ==> NamesIn(ds + [c]) == gone + {c.name}
  {
    RemainingTwice(cs, gone, {c.name});
    forall ds | NamesIn(ds) == gone ensures NamesIn(ds + [c]) == gone + {c.name} {
      forall n ensures n in NamesIn(ds + [c]) <==> n in gone || n == c.name {
        if n in gone { var d :| d in ds && d.name == n; assert d in ds + [c]; }
        assert c in ds + [c];
      }
    }
  }

  class Sweeper {
    const opts: Options
    /** The two directories. */
    var deltas: seq<Candidate>
    var binaries: seq<Candidate>
    var stats: Stats

    constructor (opts: Options, deltas: seq<Candidate>, binaries: seq<Candidate>)
      ensures this.opts == opts && this.deltas == deltas && this.binaries == binaries && stats == Stats(0, 0, 0, 0, 0)
    {
      this.opts, this.deltas, this.binaries, stats := opts, deltas, binaries, Stats(0, 0, 0, 0, 0);
    }

    /** Removes one derived file and records it. */
    method DeleteDelta(c: Candidate)
      modifies this`deltas, this`stats
      ensures deltas == Remaining(old(deltas), {c.name}) && stats == Counted(old(stats), [c])
    {
      deltas := Remaining(deltas, {c.name});
      Record(c);
    }

    method Record(c: Candidate)
      modifies this`stats
      ensures stats == Counted(old(stats), [c])
    {
      CountedOne(stats, c);
      stats := stats.(bytesReclaimed := stats.bytesReclaimed + c.size);
      match KindOf(c)
      case DeltaFile => stats := stats.(deltasDeleted := stats.deltasDeleted + 1);
      case FullFile => stats := stats.(fullsDeleted := stats.fullsDeleted + 1);
      case BinaryFile => stats := stats.(binariesDeleted := stats.binariesDeleted + 1);
    }

    /** One pass over the derived files. `deleted` is what it deletes, in order; `sorted` the age order it used. */
    method SweepDeltas(w: World) returns (ghost sorted: seq<Candidate>, ghost deleted: seq<Candidate>)
      modifies this`deltas, this`stats
      ensures Deletes(old(deltas), opts, w, sorted, deleted)
      ensures deltas == Remaining(old(deltas), NamesIn(deleted))
      ensures stats == Counted(old(stats).(scanned := old(stats).scanned + |old(deltas)|), deleted)
    {
      hide Counted, Remaining, NamesIn, Doomed, Owned, CapVictims, OldestFirst;
      var entries := deltas;
      var keep: seq<Candidate> := [];
      deleted := [];
      RemainingNone(entries);
      CountedNone(stats);
      var i := 0;
      while i < |entries|
        invariant 0 <= i <= |entries|
        invariant keep == Survivors(entries[..i], opts, w) && deleted == Condemned(entries[..i], opts, w)
        invariant deltas == Remaining(entries, NamesIn(deleted))
        invariant stats == Counted(old(stats).(scanned := old(stats).scanned + i), deleted)
      {
        var c := entries[i];
        stats := stats.(scanned := stats.scanned + 1);
        ScannedMore(old(stats), deleted, i);
        FilterStep(entries, i, opts, w);
        if Doomed(c, opts, w) {
          if c.name !in w.stuck {
            DeleteDelta(c);
            RemainingMore(entries, NamesIn(deleted), c);
            CountedMore(old(stats).(scanned := old(stats).scanned + i + 1), deleted, c);
            deleted := deleted + [c];
          }
        } else if Owned(c) {
          keep := keep + [c];
        }
        i := i + 1;
      }
      assert entries[..i] == entries;
      ghost var victims;
      sorted, victims := EnforceByteCap(keep, w.stuck, entries, deleted, old(stats).(scanned := old(stats).scanned + |entries|));
      deleted := deleted + victims;
    }

    /** Oldest first, until the rest fits. */
    method EnforceByteCap(keep: seq<Candidate>, stuck: set<string>, ghost entries: seq<Candidate>, ghost before: seq<Candidate>,
                          ghost start: Stats)
      returns (ghost order: seq<Candidate>, ghost victims: seq<Candidate>)
      requires deltas == Remaining(entries, NamesIn(before)) && stats == Counted(start, before)
      modifies this`deltas, this`stats
      ensures multiset(order) == multiset(keep) && OldestFirst(order)
      ensures victims == if opts.deltasMaxTotalBytes <= 0 then []
                         else CapVictims(order, TotalSize(keep), opts.deltasMaxTotalBytes, stuck)
      ensures deltas == Remaining(entries, NamesIn(before + victims)) && stats == Counted(start, before + victims)
    {
      hide Counted, Remaining, OldestFirst, CapVictims, NamesIn, TotalSize;
      var sorted := SortByAge(keep);
      order, victims := sorted, [];
      assert before + victims == before;
      if opts.deltasMaxTotalBytes <= 0 { return; }
      var total: int := SumSizes(keep);
      var i := 0;
      assert sorted[0..] == sorted;
      while i < |sorted| && total > opts.deltasMaxTotalBytes
        invariant 0 <= i <= |sorted|
        invariant victims + CapVictims(sorted[i..], total, opts.deltasMaxTotalBytes, stuck)
               == CapVictims(sorted, TotalSize(keep), opts.deltasMaxTotalBytes, stuck)
        invariant deltas == Remaining(entries, NamesIn(before + victims)) && stats == Counted(start, before + victims)
      {
        var c := sorted[i];
        CapStep(sorted, i, total, opts.deltasMaxTotalBytes, stuck);
        if c.name !in stuck {
          DeleteDelta(c);
          RemainingMore(entries, NamesIn(before + victims), c);
          CountedMore(start, before + victims, c);
          ghost var rest := CapVictims(sorted[i + 1..], total - c.size, opts.deltasMaxTotalBytes, stuck);
          Regroup(victims, [c], rest);
          Regroup(before, victims, [c]);
          victims := victims + [c];
          total := total - c.size;
        }
        i := i + 1;
      }
      CapDone(sorted[i..], total, opts.deltasMaxTotalBytes, stuck);
    }

    /** One pass over the binaries: those with a digest for a name that nothing refers to and that are old enough. */
    method SweepBinaries(w: World) returns (ghost deleted: seq<Candidate>)
      modifies this`binaries, this`stats
      ensures deleted == Orphaned(old(binaries), opts, w)
      ensures binaries == Remaining(old(binaries), NamesIn(deleted))
      ensures stats == Counted(old(stats).(scanned := old(stats).scanned + Scannable(old(binaries))), deleted)
    {
      hide Counted, Remaining, NamesIn, IsOrphan, BinaryHash, KindOf;
      var entries := binaries;
      deleted := [];
      RemainingNone(entries);
      CountedNone(stats);
      var i := 0;
      while i < |entries|
        invariant 0 <= i <= |entries|
        invariant deleted == Orphaned(entries[..i], opts, w)
        invariant binaries == Remaining(entries, NamesIn(deleted))
        invariant stats == Counted(old(stats).(scanned := old(stats).scanned + Scannable(entries[..i])), deleted)
      {
        var c := entries[i];
        assert entries[..i + 1][..i] == entries[..i];
        OrphanStep(c, opts, w);
        if BinaryHash(c.name).Some? {
          stats := stats.(scanned := stats.scanned + 1);
          ScannedMore(old(stats), deleted, Scannable(entries[..i]));
          if IsOrphan(c, opts, w) && c.name !in w.stuck {
            binaries := Remaining(binaries, {c.name});
            Record(c);
            RemainingMore(entries, NamesIn(deleted), c);
            CountedMore(old(stats).(scanned := old(stats).scanned + Scannable(entries[..i]) + 1), deleted, c);
            deleted := deleted + [c];
          }
        }
        i := i + 1;
      }
      assert entries[..i] == entries;
    }

    /** One sweep: derived files first, then, if asked for, binaries. The hot cache is to be dropped when
        anything went. */
    method Sweep(w: World) returns (dropHot: bool, ghost sorted: seq<Candidate>, ghost derived: seq<Candidate>, ghost orphans: seq<Candidate>)
      requires stats == Stats(0, 0, 0, 0, 0)
      modifies this
      ensures Deletes(old(deltas), opts, w, sorted, derived) && orphans == if opts.collectOrphans then Orphaned(old(binaries), opts, w) else []
      ensures deltas == Remaining(old(deltas), NamesIn(derived)) && binaries == Remaining(old(binaries), NamesIn(orphans))
      ensures stats.bytesReclaimed == TotalSize(derived) + TotalSize(orphans)
      ensures stats.deltasDeleted == NamedDeltas(derived + orphans) && stats.fullsDeleted == NamedFulls(derived + orphans)
      ensures stats.deltasDeleted + stats.fullsDeleted + stats.binariesDeleted == |derived + orphans|
      ensures stats.scanned == |old(deltas)| + if opts.collectOrphans then Scannable(old(binaries)) else 0
      ensures dropHot <==> derived + orphans != []
    {
      hide Remaining, NamesIn, Deletes, Orphaned, Scannable, NamedDeltas, NamedFulls;
      sorted, derived := SweepDeltas(w);
      orphans := [];
      RemainingNone(binaries);
      CountsAddUp(derived);
      if opts.collectOrphans {
        orphans := SweepBinaries(w);
        CountsAddUp(orphans);
      }
      CountsByName(derived);
      CountsByName(orphans);
      CountedByName(derived, orphans);
      dropHot := stats.deltasDeleted + stats.fullsDeleted + stats.binariesDeleted > 0;
    }
  }

  // ---------------------------------------------------------------------------
  // What a sweep of the derived files deletes
  // ---------------------------------------------------------------------------

  lemma {:induction false} FilterMembers(cs: seq<Candidate>, p: Candidate -> bool)
    ensures forall c :: c in Filter(cs, p) <==> c in cs && p(c)
    ensures Listing(cs) ==> Listing(Filter(cs, p))
  {
    if cs == [] {
    } else {
      var n := |cs| - 1;
      FilterMembers(cs[..n], p);
      assert cs == cs[..n] + [cs[n]];
      var r := Filter(cs[..n], p);
      if Listing(cs) {
        assert Listing(cs[..n]);
        forall i | 0 <= i < |r| ensures r[i].name != cs[n].name { assert r[i] in r; }
      }
    }
  }

  lemma {:induction false} TotalSizeSplit(a: seq<Candidate>, b: seq<Candidate>)
    ensures TotalSize(a + b) == TotalSize(a) + TotalSize(b)
  {
    if a == [] { assert a + b == b; } else { assert (a + b)[1..] == a[1..] + b; TotalSizeSplit(a[1..], b); }
  }

  lemma TakeOut(b: seq<Candidate>, i: nat)
    requires i < |b|
    ensures TotalSize(b) == b[i].size + TotalSize(b[..i] + b[i + 1..])
  {
    assert b == b[..i] + ([b[i]] + b[i + 1..]);
    TotalSizeSplit(b[..i], [b[i]] + b[i + 1..]);
    assert ([b[i]] + b[i + 1..])[1..] == b[i + 1..];
    TotalSizeSplit(b[..i], b[i + 1..]);
  }

  lemma TakeOutOfMultiset(b: seq<Candidate>, i: nat)
    requires i < |b|
    ensures multiset(b[..i] + b[i + 1..]) == multiset(b) - multiset{b[i]}
  {
    assert b == b[..i] + ([b[i]] + b[i + 1..]);
  }

  lemma {:induction false} TotalSizeOfMultiset(a: seq<Candidate>, b: seq<Candidate>)
    requires multiset(a) == multiset(b)
    ensures TotalSize(a) == TotalSize(b)
  {
    hide TotalSize;
    assert |multiset(a)| == |a| && |multiset(b)| == |b|;
    if a != [] {
      assert a[0] in multiset(b);
      var i :| 0 <= i < |b| && b[i] == a[0];
      TakeOut(a, 0);
      TakeOut(b, i);
      TakeOutOfMultiset(a, 0);
      TakeOutOfMultiset(b, i);
      TotalSizeOfMultiset(a[..0] + a[1..], b[..i] + b[i + 1..]);
    } else {
      assert a == b;
    }
  }

  /** When no removal is refused, the cap takes the shortest oldest-first prefix that makes the rest fit. */
  lemma {:induction false} CapTakesShortestPrefix(sorted: seq<Candidate>, cap: int) returns (n: nat)
    requires cap >= 0
    ensures n <= |sorted| && CapVictims(sorted, TotalSize(sorted), cap, {}) == sorted[..n]
    ensures TotalSize(sorted[n..]) <= cap
    ensures forall m :: 0 <= m < n ==> TotalSize(sorted[m..]) > cap
  {
    if sorted == [] || TotalSize(sorted) <= cap {
      n := 0;
      assert sorted[0..] == sorted;
    } else {
      n := CapTakesShortestPrefix(sorted[1..], cap);
      n := n + 1;
      assert sorted[1..][n - 1..] == sorted[n..] && [sorted[0]] + sorted[1..][..n - 1] == sorted[..n];
      forall m | 0 <= m < n ensures TotalSize(sorted[m..]) > cap {
        if m > 0 { assert sorted[m..] == sorted[1..][m - 1..]; } else { assert sorted[0..] == sorted; }
      }
    }
  }

  lemma SurvivorMembers(cs: seq<Candidate>, o: Options, w: World)
    ensures forall c :: c in Survivors(cs, o, w) <==> c in cs && Owned(c) && !Doomed(c, o, w)
    ensures forall c :: c in Condemned(cs, o, w) <==> c in cs && Doomed(c, o, w) && c.name !in w.stuck
    ensures Listing(cs) ==> Listing(Survivors(cs, o, w))
  {
    FilterMembers(cs, (c: Candidate) => Owned(c) && !Doomed(c, o, w));
    FilterMembers(cs, (c: Candidate) => Doomed(c, o, w) && c.name !in w.stuck);
  }

  /** With every removal succeeding, a sweep deletes exactly the files it owns that are dead, over age, or in the
      shortest oldest-first prefix of the others that the byte cap asks for. */
  lemma SweepIsExact(cs: seq<Candidate>, o: Options, w: World, sorted: seq<Candidate>, deleted: seq<Candidate>) returns (n: nat)
    requires Deletes(cs, o, w, sorted, deleted) && w.stuck == {}
    ensures n <= |sorted|
    ensures forall c :: c in deleted <==> (c in cs && Doomed(c, o, w)) || c in sorted[..n]
    ensures forall c :: c in sorted <==> c in cs && Owned(c) && !Doomed(c, o, w)
    ensures if o.deltasMaxTotalBytes <= 0 then n == 0
            else TotalSize(sorted[n..]) <= o.deltasMaxTotalBytes && forall m :: 0 <= m < n ==> TotalSize(sorted[m..]) > o.deltasMaxTotalBytes
    ensures o.deltasMaxTotalBytes > 0 || n == 0
    ensures deleted == Condemned(cs, o, w) + sorted[..n]
  {
    var keep := Survivors(cs, o, w);
    SurvivorMembers(cs, o, w);
    assert forall c :: c in sorted <==> c in multiset(sorted);
    assert forall c :: c in keep <==> c in multiset(keep);
    n := 0;
    if o.deltasMaxTotalBytes > 0 {
      TotalSizeOfMultiset(sorted, keep);
      n := CapTakesShortestPrefix(sorted, o.deltasMaxTotalBytes);
    }
  }

  lemma {:induction false} ListedOnce(cs: seq<Candidate>)
    requires Listing(cs)
    ensures forall c :: multiset(cs)[c] == if c in cs then 1 else 0
  {
    if cs == [] {
    } else {
      var n := |cs| - 1;
      assert cs == cs[..n] + [cs[n]];
      assert cs[n] !in cs[..n];
      ListedOnce(cs[..n]);
    }
  }

  lemma NoMembers(cs: seq<Candidate>)
    ensures (forall c :: c !in cs) ==> cs == []
  {
    if cs != [] { assert cs[0] in cs; }
  }

  /** Each element of a permutation of a listing occurs once, and it has the same members. */
  lemma PermutedOnce(keep: seq<Candidate>, sorted: seq<Candidate>)
    requires Listing(keep) && multiset(sorted) == multiset(keep)
    ensures forall c :: c in sorted <==> c in keep
    ensures forall c :: multiset(sorted)[c] <= 1
  {
    ListedOnce(keep);
    assert forall c :: c in sorted <==> c in multiset(sorted);
    assert forall c :: c in keep <==> c in multiset(keep);
  }

  lemma SplitOnce(a: seq<Candidate>, b: seq<Candidate>)
    requires forall c :: multiset(a + b)[c] <= 1
    ensures forall c :: multiset(b)[c] <= 1
    ensures forall c :: c in b ==> c !in a
    ensures forall c :: c in a + b <==> c in a || c in b
  {
    forall c ensures multiset(b)[c] <= 1 && !(c in a && c in b) {
      assert multiset(a + b)[c] == multiset(a)[c] + multiset(b)[c];
      assert c in a <==> multiset(a)[c] > 0;
      assert c in b <==> multiset(b)[c] > 0;
    }
  }

  lemma SameMembersOnce(a: seq<Candidate>, b: seq<Candidate>)
    requires Listing(a) && (forall c :: multiset(b)[c] <= 1) && (forall c :: c in a <==> c in b)
    ensures multiset(a) == multiset(b)
  {
    ListedOnce(a);
    forall c ensures multiset(a)[c] == multiset(b)[c] {
      assert c in b <==> multiset(b)[c] > 0;
    }
  }

  lemma RemainingMembers(cs: seq<Candidate>, deleted: seq<Candidate>)
    requires Listing(cs) && forall c :: c in deleted ==> c in cs
    ensures var left := Remaining(cs, NamesIn(deleted));
            Listing(left) && forall c :: c in left <==> c in cs && c !in deleted
  {
    FilterMembers(cs, (c: Candidate) => c.name !in NamesIn(deleted));
    forall c | c in cs ensures c.name in NamesIn(deleted) <==> c in deleted {
      if c.name in NamesIn(deleted) {
        var d :| d in deleted && d.name == c.name;
        var i :| 0 <= i < |cs| && cs[i] == c;
        var j :| 0 <= j < |cs| && cs[j] == d;
      }
    }
  }

  /** What is left after a sweep with every removal succeeding: the files it does not own, and the young end of
      the age order. */
  lemma LeftAfterSweep(cs: seq<Candidate>, o: Options, w: World, sorted: seq<Candidate>, deleted: seq<Candidate>, n: nat)
    requires Listing(cs) && Deletes(cs, o, w, sorted, deleted) && w.stuck == {} && n <= |sorted|
    requires deleted == Condemned(cs, o, w) + sorted[..n]
    ensures var left := Remaining(cs, NamesIn(deleted));
            && Listing(left)
            && (forall c :: c in left <==> c in cs && c !in deleted)
            && Condemned(left, o, w) == []
            && multiset(Survivors(left, o, w)) == multiset(sorted[n..])
  {
    hide Survivors, Condemned, Remaining, Doomed, Owned, TotalSize, Listing, CapVictims, OldestFirst, NamesIn;
    var left := Remaining(cs, NamesIn(deleted));
    var keep, gone, rest := Survivors(cs, o, w), sorted[..n], sorted[n..];
    SurvivorMembers(cs, o, w);
    SurvivorMembers(left, o, w);
    PermutedOnce(keep, sorted);
    assert sorted == gone + rest;
    assert forall c :: c in deleted <==> c in Condemned(cs, o, w) || c in gone;
    RemainingMembers(cs, deleted);
    NoMembers(Condemned(left, o, w));
    SplitOnce(gone, rest);
    SameMembersOnce(Survivors(left, o, w), rest);
  }

  /** With every removal succeeding, what survives fits a positive cap, and a second sweep with the same registry
      and clock deletes nothing, whatever age order it uses. */
  lemma SecondSweepDeletesNothing(cs: seq<Candidate>, o: Options, w: World, sorted: seq<Candidate>, deleted: seq<Candidate>,
                                  sorted': seq<Candidate>, deleted': seq<Candidate>)
    requires Listing(cs) && Deletes(cs, o, w, sorted, deleted) && w.stuck == {}
    requires Deletes(Remaining(cs, NamesIn(deleted)), o, w, sorted', deleted')
    ensures o.deltasMaxTotalBytes > 0 ==> TotalSize(Survivors(Remaining(cs, NamesIn(deleted)), o, w)) <= o.deltasMaxTotalBytes
    ensures deleted' == []
  {
    hide Survivors, Condemned, Remaining, TotalSize;
    var n := SweepIsExact(cs, o, w, sorted, deleted);
    LeftAfterSweep(cs, o, w, sorted, deleted, n);
    TotalSizeOfMultiset(Survivors(Remaining(cs, NamesIn(deleted)), o, w), sorted[n..]);
  }
}
