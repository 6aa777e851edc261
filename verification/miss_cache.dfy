/** The negative cache in front of the binaries directory (`pkg/server/store.go`, HasBinary). */
module MissCache {

  const TTL := 30
  const CAP := 256

  /** Each recorded miss with the time until which it is believed. */
  type Misses = map<string, int>

  predicate Absorbs(m: Misses, hash: string, now: int) {
    hash in m && now < m[hash]
  }

  /** What HasBinary answers. */
  predicate Has(m: Misses, disk: set<string>, hash: string, now: int) {
    !Absorbs(m, hash, now) && hash in disk
  }

  /** At the cap an arbitrary entry, `victim`, makes room. */
  function Recorded(m: Misses, hash: string, now: int, victim: string): Misses {
    (if |m| >= CAP then m - {victim} else m)[hash := now + TTL]
  }

  /** What HasBinary leaves: an expired entry goes, a new miss is recorded, and a hit is never cached. */
  function Asked(m: Misses, disk: set<string>, hash: string, now: int, victim: string): Misses {
    if Absorbs(m, hash, now) then m
    else if hash in disk then m - {hash}
    else Recorded(m - {hash}, hash, now, victim)
  }

  lemma RecordedIs(m: Misses, hash: string, now: int, victim: string)
    ensures Recorded(m, hash, now, victim) == (if |m| >= CAP then m - {victim} else m)[hash := now + TTL]
  {}

  lemma NoEntry(m: Misses, hash: string)
    ensures hash !in m ==> m - {hash} == m
  {}

  predicate Room(m: Misses, hash: string, victim: string) {
    |m - {hash}| >= CAP ==> victim in m - {hash}
  }

  ghost predicate Agrees(m: Misses, disk: set<string>) {
    |m| <= CAP && forall h :: h in m ==> h !in disk
  }

  lemma WithoutIsSmaller<K>(m: map<K, int>, k: K)
    ensures |m - {k}| <= |m| && (k in m ==> |m - {k}| < |m|)
  {
    assert (m - {k}).Keys == m.Keys - {k};
    if k in m { assert m.Keys == (m - {k}).Keys + {k}; } else { assert m - {k} == m; }
  }

  lemma RecordedFits<K>(m: map<K, int>, k: K, v: int, victim: K)
    requires |m| <= CAP && (|m| >= CAP ==> victim in m)
    ensures |(if |m| >= CAP then m - {victim} else m)[k := v]| <= CAP
  {
    WithoutIsSmaller(m, victim);
    var base := if |m| >= CAP then m - {victim} else m;
    assert base[k := v].Keys == base.Keys + {k};
  }

  lemma AskedAgrees(m: Misses, disk: set<string>, hash: string, now: int, victim: string)
    requires Agrees(m, disk) && Room(m, hash, victim)
    ensures Agrees(Asked(m, disk, hash, now, victim), disk)
    ensures Has(m, disk, hash, now) == (hash in disk)
  {
    WithoutIsSmaller(m, hash);
    RecordedFits(m - {hash}, hash, now + TTL, victim);
  }

  datatype Event =
    | Ask(hash: string, now: int, victim: string)
    | Write(hash: string)              // RegisterBinary, which wipes the cache
    | Delete(hashes: set<string>)      // a sweep, which does not

  ghost function Disk(events: seq<Event>): set<string> {
    if events == [] then {}
    else
      var d := Disk(events[..|events| - 1]);
      match events[|events| - 1]
      case Ask(_, _, _) => d
      case Write(h) => d + {h}
      case Delete(hs) => d - hs
  }

  ghost function Run(events: seq<Event>): Misses {
    if events == [] then map[]
    else
      var m := Run(events[..|events| - 1]);
      match events[|events| - 1]
      case Ask(h, now, victim) => Asked(m, Disk(events[..|events| - 1]), h, now, victim)
      case Write(_) => map[]
      case Delete(_) => m
  }

  ghost predicate Possible(events: seq<Event>) {
    events == [] ||
    var rest, e := events[..|events| - 1], events[|events| - 1];
    Possible(rest) && (e.Ask? ==> Room(Run(rest), e.hash, e.victim))
  }

  /** In sequential runs the cache never contradicts the disk, at any time and whatever it evicts: HasBinary
      answers exactly what is there. */
  lemma {:induction false} NeverContradictsDisk(events: seq<Event>, hash: string, now: int)
    requires Possible(events)
    ensures Agrees(Run(events), Disk(events)) && (Has(Run(events), Disk(events), hash, now) <==> hash in Disk(events))
  {
    if events == [] {
    } else {
      var rest := events[..|events| - 1];
      NeverContradictsDisk(rest, hash, now);
      match events[|events| - 1]
      case Ask(h, t, victim) => AskedAgrees(Run(rest), Disk(rest), h, t, victim);
      case _ =>
    }
  }
}
