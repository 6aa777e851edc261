/** Publication tracks (`pkg/server/registry.go`): which bytes are current under each artifact key, and which
    they superseded. */
module Registries {
  import opened Wrappers
  import opened ArtifactKeys
  import opened History

  const DEFAULT_HISTORY_DEPTH := 10

  datatype Artifact = Artifact(key: ArtifactKey, version: string, targetHash: string, targetSize: int,
                               updatedAt: int, source: string, history: seq<string>)

  datatype RegState = RegState(artifacts: map<string, Artifact>, defaultKey: string)

  datatype ResolveError = NoDefault | NotFound | BadKey(error: KeyError)

  /** One publish on one track; `art` is the track as it was, or empty. */
  function Published(art: Artifact, version: string, hash: string, size: int, source: string, now: int, depth: nat): Artifact {
    var t := Publish(Track(art.targetHash, art.history), hash, depth);
    Artifact(art.key, version, hash, size, now, if source != "" then source else art.source, t.history)
  }

  function EmptyTrack(key: ArtifactKey): Artifact {
    Artifact(key, "", "", 0, 0, "", [])
  }

  function TrackOf(r: RegState, key: ArtifactKey): Artifact {
    if KeyString(key) in r.artifacts then r.artifacts[KeyString(key)] else EmptyTrack(key)
  }

  /** The first artifact ever published becomes the default. */
  function WithTarget(r: RegState, key: ArtifactKey, version: string, hash: string, size: int, source: string, now: int, depth: nat): RegState {
    var ks := KeyString(key);
    var artifacts := r.artifacts[ks := Published(TrackOf(r, key), version, hash, size, source, now, depth)];
    RegState(artifacts, if r.defaultKey == "" && |artifacts| == 1 then ks else r.defaultKey)
  }

  /** A publish that must invalidate derived caches: new bytes, or the same bytes under a new label. */
  predicate Changes(r: RegState, key: ArtifactKey, version: string, hash: string) {
    TrackOf(r, key).targetHash != hash || TrackOf(r, key).version != version
  }

  ghost function SoleKey(artifacts: map<string, Artifact>): (k: string)
    requires |artifacts| == 1
    ensures artifacts.Keys == {k}
  {
    var k :| k in artifacts;
    assert artifacts.Keys == {k} by {
      assert |artifacts.Keys - {k}| == 0;
    }
    k
  }

  /** Unregister. A lost default passes to the sole survivor, if there is exactly one. */
  ghost function Removed(r: RegState, key: ArtifactKey): RegState {
    var ks := KeyString(key);
    var artifacts := r.artifacts - {ks};
    RegState(artifacts,
             if r.defaultKey != ks then r.defaultKey
             else if |artifacts| == 1 then SoleKey(artifacts) else "")
  }

  function Resolve(r: RegState, name: string): Result<Artifact, ResolveError> {
    if name == "" then
      if r.defaultKey == "" then Err(NoDefault)
      else if r.defaultKey in r.artifacts then Ok(r.artifacts[r.defaultKey]) else Err(NotFound)
    else match ParseArtifactKey(name)
         case Err(e) => Err(BadKey(e))
         case Ok(k) => if KeyString(k) in r.artifacts then Ok(r.artifacts[KeyString(k)]) else Err(NotFound)
  }

  /** Current targets and histories: what retention must not touch. */
  ghost predicate IsLive(r: RegState, hash: string) {
    exists k :: k in r.artifacts && ((r.artifacts[k].targetHash == hash && hash != "") || hash in r.artifacts[k].history)
  }

  ghost predicate IsTarget(r: RegState, hash: string) {
    hash != "" && exists k :: k in r.artifacts && r.artifacts[k].targetHash == hash
  }

  /** Every artifact is stored under the text of its own, valid key and has a target. */
  ghost predicate WellFormed(r: RegState) {
    forall k :: k in r.artifacts ==>
      ValidKey(r.artifacts[k].key) && KeyString(r.artifacts[k].key) == k && r.artifacts[k].targetHash != ""
  }

  lemma LiveGrows(artifacts: map<string, Artifact>, todo: set<string>, k: string)
    requires k in todo && k in artifacts
    ensures var r, s := RegState(artifacts - todo, ""), RegState(artifacts - (todo - {k}), "");
            && (forall h :: IsLive(s, h) <==> IsLive(r, h) || (artifacts[k].targetHash == h && h != "") || h in artifacts[k].history)
            && (forall h :: IsTarget(s, h) <==> IsTarget(r, h) || (artifacts[k].targetHash == h && h != ""))
  {
    var r, s := RegState(artifacts - todo, ""), RegState(artifacts - (todo - {k}), "");
    assert s.artifacts[k] == artifacts[k];
    assert forall j :: j in s.artifacts <==> j == k || j in r.artifacts;
  }

  /** The registry: the map of tracks and the default, updated in place. */
  class Registry {
    var artifacts: map<string, Artifact>
    var defaultKey: string
    const depth: nat

    function State(): RegState
      reads this
    {
      RegState(artifacts, defaultKey)
    }

    constructor (depth: int, defaultKey: string)
      ensures State() == RegState(map[], defaultKey) && this.depth == if depth <= 0 then DEFAULT_HISTORY_DEPTH else depth
    {
      artifacts, this.defaultKey := map[], defaultKey;
      this.depth := if depth <= 0 then DEFAULT_HISTORY_DEPTH else depth;
    }

    /** `changed` tells the caller to fire OnChange. */
    method SetTarget(key: ArtifactKey, version: string, hash: string, size: int, source: string, now: int)
      returns (snapshot: Artifact, changed: bool)
      modifies this
      ensures State() == WithTarget(old(State()), key, version, hash, size, source, now, depth)
      ensures snapshot == artifacts[KeyString(key)] && changed == Changes(old(State()), key, version, hash)
    {
      var ks := KeyString(key);
      var art := if ks in artifacts then artifacts[ks] else EmptyTrack(key);
      var previous := art.targetHash;
      changed := previous != hash || art.version != version;
      if previous != hash && previous != "" {
        var hist := PushHistory(art.history, previous);
        art := art.(history := hist);
      }
      art := art.(version := version, targetHash := hash, targetSize := size, updatedAt := now);
      if source != "" { art := art.(source := source); }
      artifacts := artifacts[ks := art];
      if defaultKey == "" && |artifacts| == 1 { defaultKey := ks; }
      snapshot := art;
    }

    /** The hash that was just superseded goes in front of the others. */
    method PushHistory(history: seq<string>, previous: string) returns (hist: seq<string>)
      ensures hist == Push(history, previous, depth)
    {
      hist := [previous];
      var i := 0;
      while i < |history|
        invariant 0 <= i <= |history| && hist == [previous] + Without(history[..i], previous)
      {
        assert history[..i + 1] == history[..i] + [history[i]];
        WithoutConcat(history[..i], [history[i]], previous);
        if history[i] != previous { hist := hist + [history[i]]; }
        i := i + 1;
      }
      assert history[..i] == history;
      if |hist| > depth { hist := hist[..depth]; }
    }

    method Remove(key: ArtifactKey) returns (found: bool)
      modifies this
      ensures found == (KeyString(key) in old(artifacts))
      ensures State() == if found then Removed(old(State()), key) else old(State())
    {
      var ks := KeyString(key);
      if ks !in artifacts { return false; }
      artifacts := artifacts - {ks};
      if defaultKey == ks {
        defaultKey := "";
        if |artifacts| == 1 {
          var k :| k in artifacts;
          defaultKey := k;
          assert k in {SoleKey(artifacts)};
        }
      }
      found := true;
    }

    method SetDefault(key: ArtifactKey) returns (found: bool)
      modifies this
      ensures found == (KeyString(key) in artifacts)
      ensures State() == if found then old(State()).(defaultKey := KeyString(key)) else old(State())
    {
      found := KeyString(key) in artifacts;
      if found { defaultKey := KeyString(key); }
    }

    method LiveHashes() returns (live: set<string>)
      ensures forall h :: h in live <==> IsLive(State(), h)
    {
      live := {};
      var todo := artifacts.Keys;
      while todo != {}
        invariant todo <= artifacts.Keys
        invariant forall h :: h in live <==> IsLive(RegState(artifacts - todo, ""), h)
        decreases todo
      {
        var k :| k in todo;
        var a := artifacts[k];
        if a.targetHash != "" { live := live + {a.targetHash}; }
        live := live + set h | h in a.history;
        LiveGrows(artifacts, todo, k);
        todo := todo - {k};
      }
      assert artifacts - {} == artifacts;
    }

    method CurrentTargets() returns (targets: set<string>)
      ensures forall h :: h in targets <==> IsTarget(State(), h)
    {
      targets := {};
      var todo := artifacts.Keys;
      while todo != {}
        invariant todo <= artifacts.Keys
        invariant forall h :: h in targets <==> IsTarget(RegState(artifacts - todo, ""), h)
        decreases todo
      {
        var k :| k in todo;
        if artifacts[k].targetHash != "" { targets := targets + {artifacts[k].targetHash}; }
        LiveGrows(artifacts, todo, k);
        todo := todo - {k};
      }
      assert artifacts - {} == artifacts;
    }
  }

  // ---------------------------------------------------------------------------
  // The default artifact
  // ---------------------------------------------------------------------------

  /** A lone artifact answers heartbeats that name none. */
  predicate SoleIsDefault(r: RegState) {
    |r.artifacts| == 1 ==> r.defaultKey in r.artifacts
  }

  lemma TwoOrMore(s: set<string>, a: string, b: string)
    requires a in s && b in s && a != b
    ensures |s| >= 2
  {
    assert s == {a, b} + (s - {a, b});
  }

  lemma SoleAfterPublish(r: RegState, ks: string, a: Artifact)
    ensures |r.artifacts[ks := a]| == 1 <==> r.artifacts.Keys <= {ks}
  {
    var s := r.artifacts[ks := a];
    assert s.Keys == r.artifacts.Keys + {ks};
    if r.artifacts.Keys <= {ks} {
      assert s.Keys == {ks};
    } else {
      var other :| other in r.artifacts.Keys && other != ks;
      TwoOrMore(s.Keys, other, ks);
    }
  }

  /** A publish leaves a sole artifact that is not the default exactly when it is to the only track there is and the
      default names another one: which takes a configured default that was never published. */
  lemma PublishKeepsDefaultIff(r: RegState, key: ArtifactKey, version: string, hash: string, size: int, source: string, now: int, depth: nat)
    requires WellFormed(r)
    ensures SoleIsDefault(WithTarget(r, key, version, hash, size, source, now, depth))
       <==> !(r.artifacts.Keys <= {KeyString(key)} && r.defaultKey != "" && r.defaultKey != KeyString(key))
  {
    hide ValidKey, KeyString, Published, WellFormed;
    SoleAfterPublish(r, KeyString(key), Published(TrackOf(r, key), version, hash, size, source, now, depth));
  }

  lemma EmptyIsNoKey(r: RegState, key: ArtifactKey)
    requires WellFormed(r)
    ensures "" !in r.artifacts
  {
  }

  /** A removal does exactly when it goes from two artifacts to one while the default names none of them: which is
      where removing the default among three leaves things, and where a default that was never published does. */
  lemma RemoveLosesDefaultIff(r: RegState, key: ArtifactKey)
    requires WellFormed(r) && KeyString(key) in r.artifacts
    ensures !SoleIsDefault(Removed(r, key)) <==> |r.artifacts| == 2 && r.defaultKey !in r.artifacts
    ensures |r.artifacts| == 3 && r.defaultKey == KeyString(key) ==>
              |Removed(r, key).artifacts| == 2 && Removed(r, key).defaultKey !in Removed(r, key).artifacts
  {
    var ks := KeyString(key);
    assert (r.artifacts - {ks}).Keys == r.artifacts.Keys - {ks};
    assert |r.artifacts - {ks}| == |r.artifacts| - 1;
    EmptyIsNoKey(r, key);
  }

  // ---------------------------------------------------------------------------
  // Which artifact a name gets
  // ---------------------------------------------------------------------------

  lemma KeyTextIsNotEmpty(k: ArtifactKey)
    requires ValidKey(k)
    ensures KeyString(k) != ""
  {
  }

  /** The text of a valid key gets the artifact registered under that key, and no other. */
  lemma NamedIsResolvedIff(r: RegState, k: ArtifactKey)
    requires WellFormed(r) && ValidKey(k)
    ensures Resolve(r, KeyString(k)).Ok? <==> KeyString(k) in r.artifacts
    ensures Resolve(r, KeyString(k)).Ok? ==> Resolve(r, KeyString(k)).value == r.artifacts[KeyString(k)] && r.artifacts[KeyString(k)].key == k
    ensures Resolve(r, KeyString(k)).Err? ==> Resolve(r, KeyString(k)).error == NotFound
  {
    hide KeyString, ParseArtifactKey, ValidKey;
    KeyTextIsNotEmpty(k);
    ParseOfString(k);
    if KeyString(k) in r.artifacts { KeyStringInjective(r.artifacts[KeyString(k)].key, k); }
  }

  /** Any other text is refused, or gets what the key it parses to gets. */
  lemma ParsedIsResolved(r: RegState, name: string)
    requires WellFormed(r) && name != ""
    ensures match ParseArtifactKey(name)
            case Ok(k) => ValidKey(k) && Resolve(r, name) == Resolve(r, KeyString(k))
            case Err(e) => Resolve(r, name) == Err(BadKey(e))
  {
    hide KeyString, ParseArtifactKey, ValidKey;
    if ParseArtifactKey(name).Ok? {
      StringOfParse(name);
      ParseOfString(ParseArtifactKey(name).value);
      KeyTextIsNotEmpty(ParseArtifactKey(name).value);
    }
  }

  /** No text gets the default artifact, and fails exactly when there is none under the default key. */
  lemma UnnamedIsResolvedIff(r: RegState)
    requires WellFormed(r)
    ensures Resolve(r, "").Ok? <==> r.defaultKey in r.artifacts
    ensures Resolve(r, "").Ok? ==> Resolve(r, "").value == r.artifacts[r.defaultKey] && KeyString(r.artifacts[r.defaultKey].key) == r.defaultKey
    ensures Resolve(r, "").Err? ==> Resolve(r, "").error == if r.defaultKey == "" then NoDefault else NotFound
  {
    hide KeyString, ParseArtifactKey, ValidKey;
    if "" in r.artifacts { KeyTextIsNotEmpty(r.artifacts[""].key); }
  }

  /** The caches derived from an artifact survive a publish exactly when it repeats what the key resolves to, bytes and
      label. */
  lemma ChangesIff(r: RegState, k: ArtifactKey, version: string, hash: string)
    requires WellFormed(r) && ValidKey(k) && hash != ""
    ensures !Changes(r, k, version, hash) <==>
        var found := Resolve(r, KeyString(k));
        found.Ok? && found.value.targetHash == hash && found.value.version == version
  {
    hide KeyString, ParseArtifactKey, ValidKey;
    KeyTextIsNotEmpty(k);
    ParseOfString(k);
  }

  // ---------------------------------------------------------------------------
  // Whole runs
  // ---------------------------------------------------------------------------

  datatype RegOp =
    | PublishOp(key: ArtifactKey, version: string, hash: string, size: int, source: string, now: int)
    | RemoveOp(key: ArtifactKey)
    | DefaultOp(key: ArtifactKey)

  ghost function Apply(r: RegState, op: RegOp, depth: nat): RegState {
    match op
    case PublishOp(k, v, h, size, source, now) => WithTarget(r, k, v, h, size, source, now, depth)
    case RemoveOp(k) => if KeyString(k) in r.artifacts then Removed(r, k) else r
    case DefaultOp(k) => if KeyString(k) in r.artifacts then r.(defaultKey := KeyString(k)) else r
  }

  ghost function RunOps(ops: seq<RegOp>, depth: nat): RegState {
    if ops == [] then RegState(map[], "") else Apply(RunOps(ops[..|ops| - 1], depth), ops[|ops| - 1], depth)
  }

  /** What has been published under `key` since it was last removed. */
  function HashesOf(ops: seq<RegOp>, key: ArtifactKey): seq<string> {
    if ops == [] then []
    else
      var earlier := HashesOf(ops[..|ops| - 1], key);
      match ops[|ops| - 1]
      case PublishOp(k, _, h, _, _, _) => if k == key then earlier + [h] else earlier
      case RemoveOp(k) => if k == key then [] else earlier
      case DefaultOp(_) => earlier
  }

  /** Publishes need a valid key and store a real digest. */
  predicate Proper(ops: seq<RegOp>) {
    forall i :: 0 <= i < |ops| ==> ValidKey(ops[i].key) && (ops[i].PublishOp? ==> ops[i].hash != "")
  }

  lemma DifferentTexts(k1: ArtifactKey, k2: ArtifactKey)
    requires ValidKey(k1) && ValidKey(k2) && k1 != k2
    ensures KeyString(k1) != KeyString(k2)
  {
    if KeyString(k1) == KeyString(k2) { KeyStringInjective(k1, k2); }
  }

  /** After any run of publishes, removals and default changes over any number of tracks, each track's history
      is the first `depth` entries of its own most-recently-superseded-first order. */
  lemma {:induction false} TracksAreExact(ops: seq<RegOp>, depth: nat, key: ArtifactKey)
    requires Proper(ops) && ValidKey(key)
    ensures var a := TrackOf(RunOps(ops, depth), key);
            var hashes := HashesOf(ops, key);
            && "" !in hashes && Track(a.targetHash, a.history) == PublishAll(hashes, depth)
            && a.history == Take(Firsts(Superseded(hashes)), depth) && Distinct(a.history)
    ensures KeyString(key) in RunOps(ops, depth).artifacts <==> HashesOf(ops, key) != []
  {
    hide Firsts, Superseded, Distinct, ValidKey, KeyString, History.Publish;
    if ops == [] {
    } else {
      var rest, op := ops[..|ops| - 1], ops[|ops| - 1];
      TracksAreExact(rest, depth, key);
      if op.key != key { DifferentTexts(op.key, key); }
      var hashes := HashesOf(ops, key);
      if op.PublishOp? && op.key == key { assert hashes[..|hashes| - 1] == HashesOf(rest, key); }
    }
    HistoryIsExact(HashesOf(ops, key), depth);
  }

  lemma {:induction false} RunsAreWellFormed(ops: seq<RegOp>, depth: nat)
    requires Proper(ops)
    ensures WellFormed(RunOps(ops, depth))
  {
    hide ValidKey, KeyString, History.Publish;
    if ops != [] {
      RunsAreWellFormed(ops[..|ops| - 1], depth);
    }
  }

  /** `ops[i]` is the last to publish or remove its artifact. */
  predicate LastOf(ops: seq<RegOp>, i: nat) {
    i < |ops| && !ops[i].DefaultOp? && forall j :: i < j < |ops| ==> ops[j].key != ops[i].key || ops[j].DefaultOp?
  }

  lemma OtherTrack(r: RegState, op: RegOp, key: ArtifactKey, depth: nat)
    requires ValidKey(op.key) && ValidKey(key) && (op.key != key || op.DefaultOp?)
    ensures var s := Apply(r, op, depth);
      && (KeyString(key) in s.artifacts <==> KeyString(key) in r.artifacts)
      && (KeyString(key) in r.artifacts ==> s.artifacts[KeyString(key)] == r.artifacts[KeyString(key)])
  {
    hide ValidKey, KeyString, Published;
    if op.key != key { DifferentTexts(op.key, key); }
  }

  /** After any run, a key gets what was published last under it: the digest, size, label and time of that publish, and
      its source if it named one. It gets nothing after its removal. */
  lemma {:induction false} LastPublishIsResolved(ops: seq<RegOp>, depth: nat, i: nat)
    requires Proper(ops) && LastOf(ops, i)
    ensures var found := Resolve(RunOps(ops, depth), KeyString(ops[i].key));
      match ops[i]
      case PublishOp(key, version, hash, size, source, now) =>
        && found.Ok? && var a := found.value;
        && a.key == key && a.version == version && a.targetHash == hash && a.targetSize == size && a.updatedAt == now
        && (source != "" ==> a.source == source)
      case RemoveOp(_) => found == Err(NotFound)
      case DefaultOp(_) => true
  {
    hide ValidKey, KeyString, History.Publish, ParseArtifactKey;
    var key, rest := ops[i].key, ops[..|ops| - 1];
    KeyTextIsNotEmpty(key);
    ParseOfString(key);
    RunsAreWellFormed(rest, depth);
    if i < |rest| {
      LastPublishIsResolved(rest, depth, i);
      OtherTrack(RunOps(rest, depth), ops[|ops| - 1], key, depth);
    } else {
      assert key == ops[|ops| - 1].key;
      if KeyString(key) in RunOps(rest, depth).artifacts {
        KeyStringInjective(RunOps(rest, depth).artifacts[KeyString(key)].key, key);
      }
    }
  }

  /** What a track protects: its last hash and the first `depth` it superseded, most recent first. */
  ghost predicate Keeps(hashes: seq<string>, depth: nat, h: string) {
    hashes != [] && (h == hashes[|hashes| - 1] || h in Take(Firsts(Superseded(hashes)), depth))
  }

  lemma TrackIs(ops: seq<RegOp>, depth: nat, key: ArtifactKey, h: string)
    requires Proper(ops) && ValidKey(key)
    ensures var r, hashes := RunOps(ops, depth), HashesOf(ops, key);
      && (KeyString(key) in r.artifacts <==> hashes != [])
      && (hashes != [] ==> r.artifacts[KeyString(key)].targetHash == hashes[|hashes| - 1] != "")
      && (hashes != [] ==> r.artifacts[KeyString(key)].history == Take(Firsts(Superseded(hashes)), depth))
  {
    hide ValidKey, KeyString, Firsts, Superseded, Take, RunOps, HashesOf;
    TracksAreExact(ops, depth, key);
    HistoryIsExact(HashesOf(ops, key), depth);
  }

  /** After any run, what is live is exactly what some track protects, and the current targets are exactly the hashes
      published last. */
  lemma LiveIff(ops: seq<RegOp>, depth: nat, h: string)
    requires Proper(ops)
    ensures IsLive(RunOps(ops, depth), h) <==> exists key :: ValidKey(key) && Keeps(HashesOf(ops, key), depth, h)
    ensures IsTarget(RunOps(ops, depth), h) <==>
        exists key :: ValidKey(key) && HashesOf(ops, key) != [] && h == HashesOf(ops, key)[|HashesOf(ops, key)| - 1]
  {
    hide ValidKey, KeyString, Firsts, Superseded, Take, RunOps, HashesOf;
    var r := RunOps(ops, depth);
    RunsAreWellFormed(ops, depth);
    forall key | ValidKey(key)
      ensures var hashes := HashesOf(ops, key);
        && (KeyString(key) in r.artifacts <==> hashes != [])
        && (hashes != [] ==> r.artifacts[KeyString(key)].targetHash == hashes[|hashes| - 1] != "")
        && (hashes != [] ==> r.artifacts[KeyString(key)].history == Take(Firsts(Superseded(hashes)), depth))
    {
      TrackIs(ops, depth, key, h);
    }
    if IsLive(r, h) {
      var k :| k in r.artifacts && ((r.artifacts[k].targetHash == h && h != "") || h in r.artifacts[k].history);
      assert Keeps(HashesOf(ops, r.artifacts[k].key), depth, h);
    }
    if IsTarget(r, h) {
      var k :| k in r.artifacts && r.artifacts[k].targetHash == h;
      assert ValidKey(r.artifacts[k].key);
    }
    forall key | ValidKey(key) && Keeps(HashesOf(ops, key), depth, h) ensures IsLive(r, h) {
      assert KeyString(key) in r.artifacts;
    }
    forall key | ValidKey(key) && HashesOf(ops, key) != [] && h == HashesOf(ops, key)[|HashesOf(ops, key)| - 1] ensures IsTarget(r, h) {
      assert KeyString(key) in r.artifacts;
    }
  }

  lemma WithoutOne(artifacts: map<string, Artifact>, ks: string)
    requires ks in artifacts
    ensures |artifacts - {ks}| == |artifacts| - 1 && artifacts.Keys == {ks} + (artifacts - {ks}).Keys
  {
    assert (artifacts - {ks}).Keys == artifacts.Keys - {ks};
  }

  /** When the default moves, and where to. */
  lemma DefaultMovesIff(r: RegState, op: RegOp, depth: nat)
    requires WellFormed(r) && ValidKey(op.key)
    ensures var was, next, ks := r.defaultKey, Apply(r, op, depth).defaultKey, KeyString(op.key);
      match op
      case PublishOp(_, _, _, _, _, _) =>
        (next != was <==> was == "" && r.artifacts.Keys <= {ks}) && (next != was ==> next == ks)
      case RemoveOp(_) =>
        && (next != was <==> was == ks && ks in r.artifacts)
        && (next != was ==> if |r.artifacts| == 2 then r.artifacts.Keys == {was, next} else next == "")
      case DefaultOp(_) => next == if ks in r.artifacts then ks else was
  {
    hide ValidKey, KeyString, Published, WellFormed;
    KeyTextIsNotEmpty(op.key);
    var ks := KeyString(op.key);
    match op
    case PublishOp(k, v, h, z, source, now) =>
      SoleAfterPublish(r, ks, Published(TrackOf(r, k), v, h, z, source, now, depth));
    case RemoveOp(k) =>
      if ks in r.artifacts {
        WithoutOne(r.artifacts, ks);
        EmptyIsNoKey(r, k);
      }
    case DefaultOp(_) =>
  }
}
