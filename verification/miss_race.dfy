/** The negative cache under concurrency (`pkg/server/store.go`, HasBinary and RegisterBinary): the lock is let go
    between looking at the disk and recording the miss, and between writing a binary and wiping the cache. */
module MissRace {
  import opened MissCache

  /** `asking` are the calls that have found nothing on disk and not yet recorded it. */
  datatype Cache = Cache(misses: Misses, disk: set<string>, asking: map<nat, string>)

  datatype Action =
    | Stat(id: nat, hash: string, now: int)
    | Record(id: nat, now: int, victim: string)
    | Written(hash: string)                        // the file is there
    | Wipe
    | Deleted(hashes: set<string>)

  function Act(c: Cache, a: Action): Cache {
    match a
    case Stat(id, h, now) =>
      if Absorbs(c.misses, h, now) then c
      else if h in c.disk then c.(misses := c.misses - {h})
      else c.(misses := c.misses - {h}, asking := c.asking[id := h])
    case Record(id, now, victim) =>
      if id !in c.asking then c
      else c.(misses := Recorded(c.misses, c.asking[id], now, victim), asking := c.asking - {id})
    case Written(h) => c.(disk := c.disk + {h})
    case Wipe => c.(misses := map[])
    case Deleted(hs) => c.(disk := c.disk - hs)
  }

  const NOTHING := Cache(map[], {}, map[])

  function ActAll(acts: seq<Action>): Cache {
    if acts == [] then NOTHING else Act(ActAll(acts[..|acts| - 1]), acts[|acts| - 1])
  }

  /** Present, but answered as missing. */
  predicate Hidden(c: Cache, hash: string, now: int) {
    hash in c.disk && !Has(c.misses, c.disk, hash, now)
  }

  /** Whether the last action takes the entry of `hash` away: a wipe, an eviction, or a look at it that finds it
      expired. */
  predicate TakesAway(c: Cache, a: Action, hash: string) {
    match a
    case Wipe => true
    case Stat(_, h, now) => h == hash && !Absorbs(c.misses, h, now)
    case Record(id, _, victim) => id in c.asking && c.asking[id] != hash && |c.misses| >= CAP && victim == hash
    case _ => false
  }

  predicate Records(c: Cache, a: Action, hash: string) {
    a.Record? && a.id in c.asking && c.asking[a.id] == hash
  }

  /** Action `i` recorded a miss of `hash`, and nothing since has recorded it again or taken it away. */
  predicate Stands(acts: seq<Action>, i: nat, hash: string) {
    && i < |acts| && Records(ActAll(acts[..i]), acts[i], hash)
    && forall k :: i < k < |acts| ==> !Records(ActAll(acts[..k]), acts[k], hash) && !TakesAway(ActAll(acts[..k]), acts[k], hash)
  }

  /** Its miss was found at `j`, before the binary was written at `w`. */
  predicate FoundBefore(acts: seq<Action>, i: nat, j: nat, w: nat, hash: string) {
    && j < i < |acts| && j < w < |acts| && acts[i].Record?
    && acts[j].Stat? && acts[j].id == acts[i].id && acts[j].hash == hash && hash !in ActAll(acts[..j]).disk
    && acts[w] == Written(hash)
  }

  lemma ActEntry(c: Cache, a: Action, hash: string)
    ensures var d := Act(c, a);
      && (Records(c, a, hash) ==> hash in d.misses && d.misses[hash] == a.now + TTL)
      && (!Records(c, a, hash) && TakesAway(c, a, hash) ==> hash !in d.misses)
      && (!Records(c, a, hash) && !TakesAway(c, a, hash) ==>
            (hash in d.misses <==> hash in c.misses) && (hash in d.misses ==> d.misses[hash] == c.misses[hash]))
  {
  }

  predicate StandsStill(acts: seq<Action>, i: nat, hash: string)
    requires acts != []
  {
    var n := |acts| - 1;
    var c := ActAll(acts[..n]);
    if Records(c, acts[n], hash) then i == n else Stands(acts[..n], i, hash) && !TakesAway(c, acts[n], hash)
  }

  lemma StandsSnoc(acts: seq<Action>, i: nat, hash: string)
    requires acts != []
    ensures Stands(acts, i, hash) <==> StandsStill(acts, i, hash)
  {
    hide ActAll, Records, TakesAway;
    var n := |acts| - 1;
    forall k | 0 <= k < n ensures acts[..n][..k] == acts[..k] && acts[..n][k] == acts[k] {}
  }

  /** The cache holds a miss exactly when one stands, and believes it for as long as it should. */
  lemma {:induction false} EntryIff(acts: seq<Action>, hash: string)
    ensures hash in ActAll(acts).misses <==> exists i: nat :: Stands(acts, i, hash)
    ensures forall i: nat :: Stands(acts, i, hash) ==> ActAll(acts).misses[hash] == acts[i].now + TTL
  {
    hide Act, Records, TakesAway;
    if acts == [] {
      assert ActAll(acts) == NOTHING;
    } else {
      var n := |acts| - 1;
      var rest, a := acts[..n], acts[n];
      EntryIff(rest, hash);
      ActEntry(ActAll(rest), a, hash);
      forall i: nat ensures Stands(acts, i, hash) <==> StandsStill(acts, i, hash) { StandsSnoc(acts, i, hash); }
      if Records(ActAll(rest), a, hash) {
        assert StandsStill(acts, n, hash) && Stands(acts, n, hash);
      } else if !TakesAway(ActAll(rest), a, hash) {
        if i: nat :| Stands(rest, i, hash) { assert StandsStill(acts, i, hash) && Stands(acts, i, hash); }
      }
    }
  }

  lemma {:induction false} AskingFound(acts: seq<Action>, id: nat) returns (j: nat)
    requires id in ActAll(acts).asking
    ensures j < |acts| && acts[j].Stat? && acts[j].id == id && acts[j].hash == ActAll(acts).asking[id]
    ensures acts[j].hash !in ActAll(acts[..j]).disk
  {
    hide Recorded, Absorbs;
    var n := |acts| - 1;
    if acts[n].Stat? && acts[n].id == id && (id !in ActAll(acts[..n]).asking || ActAll(acts).asking[id] != ActAll(acts[..n]).asking[id]) {
      j := n;
    } else {
      j := AskingFound(acts[..n], id);
      assert acts[..n][..j] == acts[..j];
    }
  }

  lemma {:induction false} AppearedBetween(acts: seq<Action>, j: nat, hash: string) returns (w: nat)
    requires j < |acts| && hash !in ActAll(acts[..j]).disk && hash in ActAll(acts).disk
    ensures j <= w < |acts| && acts[w] == Written(hash)
  {
    hide Recorded, Absorbs;
    var n := |acts| - 1;
    w := n;
    if acts[n] != Written(hash) && j < n {
      assert acts[..n][..j] == acts[..j];
      w := AppearedBetween(acts[..n], j, hash);
    }
  }

  lemma StandingWasFound(acts: seq<Action>, i: nat, hash: string) returns (j: nat, w: nat)
    requires Stands(acts, i, hash) && hash in ActAll(acts).disk
    ensures FoundBefore(acts, i, j, w, hash)
  {
    hide ActAll;
    j := AskingFound(acts[..i], acts[i].id);
    assert acts[..i][..j] == acts[..j] && acts[..i][j] == acts[j];
    w := AppearedBetween(acts, j, hash);
  }

  /** Over all interleavings: a binary that is there is answered as missing exactly when a recorded miss of it still
      stands, no older than the time to live. And each such miss was found before the binary was written: no wipe
      came after it was recorded, or it would not stand. */
  lemma HiddenIff(acts: seq<Action>, hash: string, now: int)
    requires hash in ActAll(acts).disk
    ensures Hidden(ActAll(acts), hash, now) <==> exists i: nat :: Stands(acts, i, hash) && now < acts[i].now + TTL
    ensures forall i: nat :: Stands(acts, i, hash) ==> exists j: nat, w: nat :: FoundBefore(acts, i, j, w, hash)
  {
    hide ActAll, Stands, FoundBefore;
    EntryIff(acts, hash);
    forall i: nat | Stands(acts, i, hash) ensures exists j: nat, w: nat :: FoundBefore(acts, i, j, w, hash) {
      var _, _ := StandingWasFound(acts, i, hash);
    }
  }

  /** It happens: found missing, written, wiped, and only then recorded. */
  lemma RaceHides(hash: string, now: int)
    ensures var acts := [Stat(0, hash, now), Written(hash), Wipe, Record(0, now, "")];
      Hidden(ActAll(acts), hash, now) && !Hidden(ActAll(acts), hash, now + TTL)
  {
    var acts := [Stat(0, hash, now), Written(hash), Wipe, Record(0, now, "")];
    var a1, a2, a3 := acts[..1], acts[..2], acts[..3];
    assert a1[..0] == [] && a2[..1] == a1 && a3[..2] == a2 && acts[..3] == a3;
    assert ActAll(a1) == Cache(map[], {}, map[0 := hash]);
    assert ActAll(a2) == Cache(map[], {hash}, map[0 := hash]);
    assert ActAll(a3) == Cache(map[], {hash}, map[0 := hash]);
    assert ActAll(acts) == Cache(map[hash := now + TTL], {hash}, map[]);
  }
}
