/** The sweeper's loops (`pkg/server/retention.go`) are the sweeps that the store's safety and the served manifests
    are about. */
module Sweeps {
  import opened Wrappers
  import opened Names
  import opened Registries
  import R = Retentions
  import O = Orphans
  import S = Serving

  ghost predicate Listed(cs: seq<R.Candidate>, hash: string) {
    exists c :: c in cs && R.BinaryHash(c.name) == Some(hash)
  }

  /** The binaries of a listing, with their modification times. */
  ghost predicate ListsBinaries(cs: seq<R.Candidate>, files: map<string, nat>) {
    && R.Listing(cs)
    && (forall c :: c in cs && R.BinaryHash(c.name).Some? ==>
          R.BinaryHash(c.name).value in files && files[R.BinaryHash(c.name).value] == c.mtime)
    && (forall h :: h in files ==> Listed(cs, h))
  }

  /** The sweeper was told what the registry held live when the sweep began, and reads the clock now. */
  ghost predicate Informed(cfg: O.Config, s: O.State, o: R.Options, w: R.World) {
    && s.seen.Some? && (forall h :: h in w.live <==> IsLive(s.seen.value, h))
    && w.now == s.now && o.orphanMinAge == cfg.grace
  }

  lemma OrphanIsNotKept(cfg: O.Config, s: O.State, o: R.Options, w: R.World, c: R.Candidate)
    requires Informed(cfg, s, o, w) && R.BinaryHash(c.name).Some?
    requires R.BinaryHash(c.name).value in s.files && s.files[R.BinaryHash(c.name).value] == c.mtime
    ensures R.IsOrphan(c, o, w) <==> !O.Kept(cfg, s, s.seen.value, R.BinaryHash(c.name).value)
  {
    hide IsLive, R.BinaryHash;
  }

  lemma OrphanedMembers(cs: seq<R.Candidate>, o: R.Options, w: R.World)
    ensures forall c :: c in R.Orphaned(cs, o, w) <==> c in cs && R.IsOrphan(c, o, w) && c.name !in w.stuck
  {
    hide R.IsOrphan, R.Filter;
    R.FilterMembers(cs, (c: R.Candidate) => R.IsOrphan(c, o, w) && c.name !in w.stuck);
  }

  /** What a pass over the binaries leaves, its removals succeeding, is what the end of a sweep of the store leaves; so
      the store's safety is about this loop. */
  lemma BinarySweepIsSweep(cfg: O.Config, s: O.State, cs: seq<R.Candidate>, o: R.Options, w: R.World)
    requires ListsBinaries(cs, s.files) && Informed(cfg, s, o, w) && w.stuck == {}
    ensures ListsBinaries(R.Remaining(cs, R.NamesIn(R.Orphaned(cs, o, w))), O.Swept(cfg, s).files)
  {
    hide R.BinaryHash, R.IsOrphan, IsLive, R.Remaining, R.NamesIn, R.Orphaned, O.Kept;
    var gone := R.Orphaned(cs, o, w);
    var left, files := R.Remaining(cs, R.NamesIn(gone)), O.Swept(cfg, s).files;
    OrphanedMembers(cs, o, w);
    R.RemainingMembers(cs, gone);
    forall c | c in left && R.BinaryHash(c.name).Some?
      ensures R.BinaryHash(c.name).value in files && files[R.BinaryHash(c.name).value] == c.mtime
    {
      OrphanIsNotKept(cfg, s, o, w, c);
    }
    forall h | h in files ensures Listed(left, h) {
      assert Listed(cs, h);
      var c :| c in cs && R.BinaryHash(c.name) == Some(h);
      OrphanIsNotKept(cfg, s, o, w, c);
      assert c in left;
    }
  }

  // ---------------------------------------------------------------------------
  // The served store
  // ---------------------------------------------------------------------------

  /** The transfers in a listing. */
  ghost function TransfersIn(cs: seq<R.Candidate>): set<Transfer> {
    set c | c in cs && R.Owned(c) :: ParseTransferName(c.name).value
  }

  /** One listing holds a transfer once. */
  lemma SameTransfer(cs: seq<R.Candidate>, c: R.Candidate, d: R.Candidate)
    requires R.Listing(cs) && c in cs && d in cs && R.Owned(c) && R.Owned(d)
    requires ParseTransferName(c.name).value == ParseTransferName(d.name).value
    ensures c == d
  {
    hide ParseTransferName, NameOf;
    NameOfParse(c.name);
    NameOfParse(d.name);
    var i :| 0 <= i < |cs| && cs[i] == c;
    var j :| 0 <= j < |cs| && cs[j] == d;
  }

  /** A pass over the derived files and the binaries is one sweep of the served store: the files on disk afterwards
      are those of the listing that is left. */
  lemma SweepIsSwept(s: S.Store, cs: seq<R.Candidate>, deleted: seq<R.Candidate>, hashes: set<string>, cut: bool)
    requires R.Listing(cs) && (forall c :: c in deleted ==> c in cs) && s.derived.Keys == TransfersIn(cs)
    ensures S.Swept(s, TransfersIn(deleted), hashes, cut).derived.Keys == TransfersIn(R.Remaining(cs, R.NamesIn(deleted)))
  {
    hide ParseTransferName, R.Remaining, R.NamesIn;
    R.RemainingMembers(cs, deleted);
    var left := R.Remaining(cs, R.NamesIn(deleted));
    forall t | t in TransfersIn(cs) ensures t in TransfersIn(left) <==> t !in TransfersIn(deleted) {
      var c :| c in cs && R.Owned(c) && ParseTransferName(c.name).value == t;
      forall d | d in cs && R.Owned(d) && ParseTransferName(d.name).value == t ensures d == c { SameTransfer(cs, c, d); }
    }
    forall t | t in TransfersIn(left) ensures t in TransfersIn(cs) {}
  }

  // ---------------------------------------------------------------------------
  // Derived files and the registry
  // ---------------------------------------------------------------------------

  /** The sweeper was told what is live and what is current in `reg`. */
  ghost predicate Told(reg: RegState, w: R.World) {
    (forall h :: h in w.live <==> IsLive(reg, h)) && (forall h :: h in w.current <==> IsTarget(reg, h))
  }

  predicate OverAge(c: R.Candidate, o: R.Options, w: R.World) {
    o.deltaMaxAge > 0 && w.now - c.mtime > o.deltaMaxAge
  }

  lemma DoomedIff(reg: RegState, c: R.Candidate, o: R.Options, w: R.World)
    requires Told(reg, w)
    ensures match ParseTransferName(c.name)
            case Some(Delta(f, to)) => R.Owned(c) && (R.Doomed(c, o, w) <==> OverAge(c, o, w) || !IsTarget(reg, to) || !IsLive(reg, f))
            case Some(Full(h)) => R.Owned(c) && (R.Doomed(c, o, w) <==> OverAge(c, o, w) || !IsLive(reg, h))
            case None => !R.Owned(c) && !R.Doomed(c, o, w)
  {
    hide IsLive, IsTarget, ParseTransferName;
  }

  lemma AgeOrder(sorted: seq<R.Candidate>, n: nat)
    requires R.OldestFirst(sorted) && n <= |sorted|
    ensures forall c, d :: c in sorted[..n] && d in sorted[n..] ==> c.mtime <= d.mtime
  {
  }

  /** Which derived files a pass deletes, its removals succeeding. A file survives until the byte cap, as one of `young`,
      unless it is over age, or a delta to what is no current target or from what is not live, or a whole binary
      that is not live; from these the cap takes the oldest. What the sweeper cannot parse it leaves alone. */
  lemma SweepKeepsIff(reg: RegState, cs: seq<R.Candidate>, o: R.Options, w: R.World, sorted: seq<R.Candidate>, deleted: seq<R.Candidate>)
    returns (capped: seq<R.Candidate>, left: seq<R.Candidate>)
    requires Told(reg, w) && R.Deletes(cs, o, w, sorted, deleted) && w.stuck == {}
    ensures forall c :: c in cs ==>
      match ParseTransferName(c.name)
      case Some(Delta(f, to)) =>
        (c in capped + left <==> IsTarget(reg, to) && IsLive(reg, f) && !OverAge(c, o, w)) && (c in deleted <==> c !in capped + left || c in capped)
      case Some(Full(h)) =>
        (c in capped + left <==> IsLive(reg, h) && !OverAge(c, o, w)) && (c in deleted <==> c !in capped + left || c in capped)
      case None => c !in deleted
    ensures forall c :: c in deleted || c in capped + left ==> c in cs
    ensures forall c, d :: c in capped && d in left ==> c.mtime <= d.mtime
    ensures if o.deltasMaxTotalBytes <= 0 then capped == []
            else R.TotalSize(left) <= o.deltasMaxTotalBytes
                 && forall m :: 0 <= m < |capped| ==> R.TotalSize(capped[m..] + left) > o.deltasMaxTotalBytes
  {
    hide IsLive, IsTarget, ParseTransferName, R.Doomed, R.Owned, R.OldestFirst, R.TotalSize, R.Condemned, R.Survivors, R.CapVictims, OverAge;
    var n := R.SweepIsExact(cs, o, w, sorted, deleted);
    AgeOrder(sorted, n);
    capped, left := sorted[..n], sorted[n..];
    assert capped + left == sorted;
    forall m | 0 <= m < n ensures capped[m..] + left == sorted[m..] {}
    forall c | c in cs
      ensures match ParseTransferName(c.name)
              case Some(Delta(f, to)) => R.Owned(c) && (R.Doomed(c, o, w) <==> OverAge(c, o, w) || !IsTarget(reg, to) || !IsLive(reg, f))
              case Some(Full(h)) => R.Owned(c) && (R.Doomed(c, o, w) <==> OverAge(c, o, w) || !IsLive(reg, h))
              case None => !R.Owned(c) && !R.Doomed(c, o, w)
    {
      DoomedIff(reg, c, o, w);
    }
  }

  /** No young transfer that a device on a live binary, or on an unknown one, can be offered for a registered artifact is
      lost to anything but the cap; and not at all when there is none. */
  lemma OfferableIsKept(reg: RegState, cs: seq<R.Candidate>, o: R.Options, w: R.World, sorted: seq<R.Candidate>, deleted: seq<R.Candidate>,
                        name: string, source: string, c: R.Candidate)
    requires Told(reg, w) && R.Deletes(cs, o, w, sorted, deleted) && w.stuck == {} && c in cs && !OverAge(c, o, w)
    requires WellFormed(reg) && name in reg.artifacts && (source == "" || IsLive(reg, source))
    requires ValidTransfer(S.TransferFor(source, reg.artifacts[name].targetHash))
    requires c.name == NameOf(S.TransferFor(source, reg.artifacts[name].targetHash))
    ensures c in deleted ==>
              && o.deltasMaxTotalBytes > 0
              && forall d :: d in cs && d !in deleted && ParseTransferName(d.name).Some? ==> c.mtime <= d.mtime
  {
    hide ParseTransferName, R.Deletes, OverAge, NameOf, ValidTransfer;
    var capped, left := SweepKeepsIff(reg, cs, o, w, sorted, deleted);
    ParseOfName(S.TransferFor(source, reg.artifacts[name].targetHash));
    assert IsTarget(reg, reg.artifacts[name].targetHash) && IsLive(reg, reg.artifacts[name].targetHash);
  }
}
