/** What devices and operators may rely on, in every state the server can reach. */
module Promises {
  import opened Wrappers
  import opened Hex
  import opened Names
  import opened Signing
  import opened Primitives
  import opened ArtifactKeys
  import opened Messages
  import opened Recency
  import opened Registries
  import opened Routes
  import opened Acceptance
  import opened Serving
  import opened ServingLaws

  /** `art` is what the heartbeat resolves to, and the device does not run it. */
  predicate Behind(s: Server, hb: Heartbeat, art: Artifact) {
    ValidHeartbeat(hb) && Resolve(s.reg, hb.artifact) == Ok(art) && hb.versionHash != art.targetHash
  }

  predicate ToldToRetry(b: Built) {
    b.Ok? && b.value.updateAvailable && b.value.signature == ""
  }

  predicate ToldNoUpdate(b: Built) {
    b.Ok? && !b.value.updateAvailable
  }

  lemma OffersAreSigned(cfg: Config, art: Artifact, source: string)
    requires cfg.crypto.Lawful() && Offer(cfg, art, source).Some?
    ensures Offer(cfg, art, source).value.signature != "" && Offer(cfg, art, source).value.updateAvailable
  {
    var t := TransferFor(source, art.targetHash);
    var p := ManifestSigningPayload(art.targetHash, cfg.crypto.sha256(Derive(cfg.crypto, cfg.content, t))).value;
    DecodeEncode(cfg.crypto.sign(p));
  }

  lemma BehindIsRegistered(cfg: Config, s: Server, hb: Heartbeat, art: Artifact)
    requires Inv(cfg, s) && Behind(s, hb, art)
    ensures KeyString(art.key) in s.reg.artifacts && s.reg.artifacts[KeyString(art.key)] == art && Genuine(cfg, art.targetHash)
  {
    hide Genuine, StoreInv, MemoInv, RegInv, ValidHeartbeat, Resolve, KeyString;
    ResolvedIsRegistered(cfg, s.reg, hb.artifact);
  }

  /** The answer in full, for a device that is behind. */
  lemma AnswerBehind(cfg: Config, s: Server, hb: Heartbeat, art: Artifact)
    requires Reachable(cfg, s) && Behind(s, hb, art)
    ensures var source := SourceKey(cfg, s.store, hb.versionHash, art.targetHash);
      && cfg.crypto.Lawful() && cfg.cacheSize >= 1 && Inv(cfg, s) && Inv(cfg, Build(cfg, s, hb).1)
      && KeyString(art.key) in s.reg.artifacts && s.reg.artifacts[KeyString(art.key)] == art && Genuine(cfg, art.targetHash)
      && Offer(cfg, art, source).Some?
      && Offer(cfg, art, source).value.signature != "" && Offer(cfg, art, source).value.updateAvailable
      && Build(cfg, s, hb).0 ==
           (if source == "" && !cfg.allowFull then Ok(NoUpdate(KeyString(art.key)))
            else if Ready(s, art, source) then Ok(Offer(cfg, art, source).value)
            else if source == "" then Err(TargetMissing)
            else Ok(RetryLater(cfg, art)))
  {
    hide Inv, Reachable, Build, ValidHeartbeat, KeyString, Offer, Ready, Genuine, CanDiff;
    ReachableInv(cfg, s);
    BuildLaws(cfg, s, hb);
    BehindIsRegistered(cfg, s, hb, art);
    EmptyIsNoHash(cfg, art.targetHash);
    var source := SourceKey(cfg, s.store, hb.versionHash, art.targetHash);
    OfferExists(cfg, art, source);
    OffersAreSigned(cfg, art, source);
  }

  // ---------------------------------------------------------------------------
  // Memoization
  // ---------------------------------------------------------------------------

  lemma SourceIsHash(cfg: Config, s: Store, from: string, to: string)
    ensures SourceKey(cfg, s, from, to) == "" || IsValidHash(SourceKey(cfg, s, from, to))
  {}

  lemma BareInv(cfg: Config, s: Server)
    requires Inv(cfg, s)
    ensures Inv(cfg, s.(memo := []))
    ensures forall k :: Lookup(s.(memo := []).memo, k).None?
  {}

  /** A memo hit is the manifest that fetching and signing would build now from the artifact as it is now, unless
      the bytes have been swept meanwhile and nothing could be built at all. */
  lemma MemoIsTransparent(cfg: Config, s: Server, hb: Heartbeat, art: Artifact, resp: ManifestResponse)
    requires Reachable(cfg, s) && Behind(s, hb, art)
    requires Lookup(s.memo, MemoKey(art, SourceKey(cfg, s.store, hb.versionHash, art.targetHash))) == Some(resp)
    ensures var source := SourceKey(cfg, s.store, hb.versionHash, art.targetHash);
      var bare := s.(memo := []);
      && Build(cfg, s, hb).0 == Ok(resp) && Offer(cfg, art, source) == Some(resp)
      && BuildFresh(cfg, bare, art, source).0 ==
           (if Ready(bare, art, source) then Ok(resp) else if source == "" then Err(TargetMissing) else Ok(RetryLater(cfg, art)))
  {
    hide Inv, Reachable, ValidHeartbeat, Resolve, KeyString, Offer, Ready, Genuine, CanDiff, BuildFresh, StoreInv, RegInv, Lookup, MemoKey;
    AnswerBehind(cfg, s, hb, art);
    var source := SourceKey(cfg, s.store, hb.versionHash, art.targetHash);
    SourceIsHash(cfg, s.store, hb.versionHash, art.targetHash);
    HitIsOffer(cfg, s, KeyString(art.key), source);
    EmptyIsNoHash(cfg, art.targetHash);
    var bare := s.(memo := []);
    BareInv(cfg, s);
    BuildFreshLaws(cfg, bare, KeyString(art.key), source);
  }

  lemma MemoOf(cfg: Config, s: Server)
    requires Inv(cfg, s)
    ensures DistinctKeys(s.memo) && |s.memo| <= cfg.cacheSize
  {
    hide StoreInv, RegInv, DistinctKeys;
  }

  /** A signed answer is remembered, under the key its repetition looks up, as the most recent of all. */
  lemma AnswersAreRemembered(cfg: Config, s: Server, hb: Heartbeat, art: Artifact)
    requires Reachable(cfg, s) && Behind(s, hb, art)
    requires Build(cfg, s, hb).0.Ok? && Build(cfg, s, hb).0.value.signature != ""
    ensures var (built, s') := Build(cfg, s, hb);
      var source := SourceKey(cfg, s.store, hb.versionHash, art.targetHash);
      Lookup(s'.memo, MemoKey(art, source)) == Some(built.value) && s'.memo != [] && s'.memo[0] == Entry(MemoKey(art, source), built.value)
  {
    hide Inv, Reachable, ValidHeartbeat, KeyString, Offer, Resolve, Ready, GetDelta, GetFull, StoreInv, RegInv, Lookup, Touch, CountedPut, DistinctKeys, MemoKey, CanDiff, IsValidHash, Genuine, Sign;
    AnswerBehind(cfg, s, hb, art);
    EmptyIsNoHash(cfg, art.targetHash);
    MemoOf(cfg, s);
    var source := SourceKey(cfg, s.store, hb.versionHash, art.targetHash);
    var k := MemoKey(art, source);
    TouchLaws(s.memo, k);
    var (built, s') := Build(cfg, s, hb);
    assert s'.memo == if Lookup(s.memo, k).Some? then Touch(s.memo, k) else CountedPut(s.memo, cfg.cacheSize, k, built.value);
    CountedPutLaws(s.memo, cfg.cacheSize, k, built.value);
    FoundInSome(s'.memo, k);
  }

  // ---------------------------------------------------------------------------
  // Which artifact, which outcome
  // ---------------------------------------------------------------------------

  lemma RegIsWellFormed(cfg: Config, s: Server)
    requires Inv(cfg, s)
    ensures WellFormed(s.reg)
  {
    hide StoreInv, MemoInv, ValidKey, KeyString;
    forall k | k in s.reg.artifacts ensures s.reg.artifacts[k].targetHash != "" {
      assert GoodArtifact(cfg, s.reg.artifacts[k], k);
    }
  }

  /** The artifact a heartbeat asks for: the one it names, or else the default. */
  function Asked(s: Server, hb: Heartbeat): string
    requires ValidHeartbeat(hb)
  {
    if hb.artifact == "" then s.reg.defaultKey else KeyString(ParseArtifactKey(hb.artifact).value)
  }

  lemma AskedIsResolved(cfg: Config, s: Server, hb: Heartbeat)
    requires Inv(cfg, s) && ValidHeartbeat(hb)
    ensures Resolve(s.reg, hb.artifact).Ok? <==> Asked(s, hb) in s.reg.artifacts
    ensures Resolve(s.reg, hb.artifact).Ok? ==>
              Resolve(s.reg, hb.artifact).value == s.reg.artifacts[Asked(s, hb)] && KeyString(Resolve(s.reg, hb.artifact).value.key) == Asked(s, hb)
  {
    hide Inv, Resolve, KeyString, ParseArtifactKey, ValidKey;
    RegIsWellFormed(cfg, s);
    if hb.artifact == "" {
      UnnamedIsResolvedIff(s.reg);
    } else {
      ParsedIsResolved(s.reg, hb.artifact);
      var k := ParseArtifactKey(hb.artifact).value;
      NamedIsResolvedIff(s.reg, k);
    }
  }

  lemma TargetOf(cfg: Config, s: Server, name: string)
    requires Inv(cfg, s) && name in s.reg.artifacts
    ensures Genuine(cfg, s.reg.artifacts[name].targetHash) && KeyString(s.reg.artifacts[name].key) == name
  {
    hide StoreInv, MemoInv, Genuine, ValidKey, KeyString;
    assert GoodArtifact(cfg, s.reg.artifacts[name], name);
  }

  /** Every answer is about the artifact asked for, as it is registered now; the text of a key asks for that key. */
  lemma AnswersNameTheArtifact(cfg: Config, s: Server, hb: Heartbeat)
    requires Reachable(cfg, s) && Build(cfg, s, hb).0.Ok?
    ensures ValidHeartbeat(hb) && Asked(s, hb) in s.reg.artifacts
    ensures var art, resp := s.reg.artifacts[Asked(s, hb)], Build(cfg, s, hb).0.value;
      && resp.artifact == Asked(s, hb)
      && (resp.updateAvailable ==>
            resp.targetHash == art.targetHash != hb.versionHash && resp.targetVersion == art.version && resp.targetSize == art.targetSize)
    ensures forall k :: ValidKey(k) && hb.artifact == KeyString(k) ==> Asked(s, hb) == hb.artifact && s.reg.artifacts[hb.artifact].key == k
  {
    hide Inv, Reachable, Build, ValidHeartbeat, KeyString, Ready, Genuine, CanDiff, Resolve, ManifestSigningPayload, Derive, Encode, Endpoint, ChunkCount, ValidKey, ParseArtifactKey, SourceKey;
    ReachableInv(cfg, s);
    BuildLaws(cfg, s, hb);
    AskedIsResolved(cfg, s, hb);
    RegIsWellFormed(cfg, s);
    forall k | ValidKey(k) && hb.artifact == KeyString(k)
      ensures Asked(s, hb) == hb.artifact && s.reg.artifacts[hb.artifact].key == k
    {
      KeyTextIsNotEmpty(k);
      ParseOfString(k);
      NamedIsResolvedIff(s.reg, k);
    }
  }

  /** One of two binaries is there and larger than a diff may read. */
  predicate OverBudget(cfg: Config, s: Store, from: string, to: string) {
    && cfg.maxSourceBytes > 0
    && ((from in s.binaries && |s.binaries[from]| > cfg.maxSourceBytes) || (to in s.binaries && |s.binaries[to]| > cfg.maxSourceBytes))
  }

  /** What a device reports can be diffed against: it is there, and the delta is too or the budget allows it. */
  predicate Diffable(cfg: Config, s: Store, from: string, to: string) {
    IsValidHash(from) && from in s.binaries && (Delta(from, to) in s.derived || !OverBudget(cfg, s, from, to))
  }

  lemma DiffableIff(cfg: Config, s: Store, from: string, to: string)
    ensures SourceKey(cfg, s, from, to) == if Diffable(cfg, s, from, to) then from else ""
    ensures Diffable(cfg, s, from, to) ==> from != "" && CanDiff(cfg, s, from, to)
  {
    hide IsValidHash;
    EmptyIsInvalid();
  }

  /** The server refuses exactly three things: a bad heartbeat, an artifact nobody published, and an update whose bytes
      it does not hold in any form. */
  lemma RefusesIff(cfg: Config, s: Server, hb: Heartbeat)
    requires Reachable(cfg, s)
    ensures var built := Build(cfg, s, hb).0;
      && (built == Err(BadHeartbeat) <==> !ValidHeartbeat(hb))
      && (built.Err? && built.error.Unresolved? <==> ValidHeartbeat(hb) && Asked(s, hb) !in s.reg.artifacts)
      && (built == Err(TargetMissing) <==>
            ValidHeartbeat(hb) && Asked(s, hb) in s.reg.artifacts && cfg.allowFull
            && var art := s.reg.artifacts[Asked(s, hb)];
            && hb.versionHash != art.targetHash && !Diffable(cfg, s.store, hb.versionHash, art.targetHash)
            && art.targetHash !in s.store.binaries && Full(art.targetHash) !in s.store.derived
            && Lookup(s.store.hot, HotKey(Full(art.targetHash))).None? && Lookup(s.memo, MemoKey(art, "")).None?)
      && built != Err(NoTarget) && built != Err(BadDigest)
  {
    hide Inv, Reachable, Build, ValidHeartbeat, KeyString, Genuine, CanDiff, Resolve, Offer, ParseArtifactKey, SourceKey, Diffable, MemoKey, HotKey, Lookup, Asked;
    ReachableInv(cfg, s);
    BuildLaws(cfg, s, hb);
    if ValidHeartbeat(hb) {
      AskedIsResolved(cfg, s, hb);
      if Asked(s, hb) in s.reg.artifacts {
        var art := s.reg.artifacts[Asked(s, hb)];
        TargetOf(cfg, s, Asked(s, hb));
        EmptyIsNoHash(cfg, art.targetHash);
        DiffableIff(cfg, s.store, hb.versionHash, art.targetHash);
        OfferExists(cfg, art, SourceKey(cfg, s.store, hb.versionHash, art.targetHash));
      }
    }
  }

  // ---------------------------------------------------------------------------
  // Nobody is stranded
  // ---------------------------------------------------------------------------

  /** With full downloads on, "no update" means exactly that the device runs the target. */
  lemma NoUpdateIff(cfg: Config, s: Server, hb: Heartbeat)
    requires Reachable(cfg, s) && cfg.allowFull
    ensures ToldNoUpdate(Build(cfg, s, hb).0) <==>
        ValidHeartbeat(hb) && Resolve(s.reg, hb.artifact).Ok? && hb.versionHash == Resolve(s.reg, hb.artifact).value.targetHash
  {
    hide Inv, Reachable, Build, ValidHeartbeat, KeyString, Offer, Ready, Genuine, CanDiff, Resolve;
    ReachableInv(cfg, s);
    BuildLaws(cfg, s, hb);
    if ValidHeartbeat(hb) && Resolve(s.reg, hb.artifact).Ok? {
      var art := Resolve(s.reg, hb.artifact).value;
      if hb.versionHash != art.targetHash { AnswerBehind(cfg, s, hb, art); }
    }
  }

  /** A source that is unknown, malformed or over the budget gets the whole target, signed, at once. */
  lemma FullAtOnce(cfg: Config, s: Server, hb: Heartbeat, art: Artifact)
    requires Reachable(cfg, s) && cfg.allowFull && Behind(s, hb, art)
    requires art.targetHash in s.store.binaries
    requires !Diffable(cfg, s.store, hb.versionHash, art.targetHash)
    ensures Offer(cfg, art, "").Some? && Build(cfg, s, hb).0 == Ok(Offer(cfg, art, "").value)
  {
    hide Inv, Reachable, Build, ValidHeartbeat, KeyString, Offer, Genuine, CanDiff, Resolve;
    AnswerBehind(cfg, s, hb, art);
    DiffableIff(cfg, s.store, hb.versionHash, art.targetHash);
  }

  lemma StoreOf(cfg: Config, s: Server)
    requires Inv(cfg, s)
    ensures StoreInv(cfg, s.store)
  {
    hide StoreInv, RegInv, MemoInv;
  }

  lemma NotReady(s: Server, art: Artifact, source: string)
    requires source != ""
    ensures !Ready(s, art, source) <==>
      Lookup(s.memo, MemoKey(art, source)).None? && Lookup(s.store.hot, HotKey(Delta(source, art.targetHash))).None?
      && Delta(source, art.targetHash) !in s.store.derived
  {}

  /** "Retry" is only ever said about a diffable source, and a generation is then under way exactly when the
      target is in the store or one was under way already. */
  lemma RetryIsBackedIff(cfg: Config, s: Server, hb: Heartbeat, art: Artifact)
    requires Reachable(cfg, s) && Behind(s, hb, art)
    requires ToldToRetry(Build(cfg, s, hb).0)
    ensures var t := Delta(hb.versionHash, art.targetHash);
      && ValidTransfer(t) && hb.versionHash in s.store.binaries && !OverBudget(cfg, s.store, hb.versionHash, art.targetHash)
      && t !in s.store.derived && Build(cfg, s, hb).0 == Ok(NoUpdate(KeyString(art.key)).(
           updateAvailable := true, targetVersion := art.version, targetHash := art.targetHash, targetSize := art.targetSize,
           retryAfter := cfg.retryAfter))
      && (t in Build(cfg, s, hb).1.store.pending <==> art.targetHash in s.store.binaries || t in s.store.pending)
      && Build(cfg, s, hb).1.store.binaries == s.store.binaries && Build(cfg, s, hb).1.reg == s.reg
  {
    hide Inv, Reachable, ValidHeartbeat, KeyString, Offer, Genuine, CanDiff, Resolve, StoreInv, RegInv, MemoInv, Lookup, MemoKey, HotKey, GetDelta, GetFull, IsValidHash;
    AnswerBehind(cfg, s, hb, art);
    EmptyIsNoHash(cfg, art.targetHash);
    StoreOf(cfg, s);
    var vh, th := hb.versionHash, art.targetHash;
    DiffableIff(cfg, s.store, vh, th);
    if vh == SourceKey(cfg, s.store, vh, th) && vh != "" {
      GetDeltaLaws(cfg, s.store, vh, th);
      NotReady(s, art, vh);
      assert Build(cfg, s, hb) == BuildFresh(cfg, s, art, vh);
    }
  }

  lemma ModeOfOffer(cfg: Config, art: Artifact, source: string)
    requires Offer(cfg, art, source).Some?
    ensures var resp := Offer(cfg, art, source).value;
      (resp.deltaEndpoint != "" <==> source != "") && (resp.binaryEndpoint != "" <==> source == "")
  {
    hide Derive, ManifestSigningPayload, Encode, ChunkCount;
  }

  /** Exactly the devices whose binary can be diffed against get a delta, or are told to wait for one. */
  lemma DeltasAreForDiffable(cfg: Config, s: Server, hb: Heartbeat, art: Artifact)
    requires Reachable(cfg, s) && Behind(s, hb, art)
    ensures var built := Build(cfg, s, hb).0;
      && (ToldToRetry(built) || (built.Ok? && built.value.deltaEndpoint != "") <==> Diffable(cfg, s.store, hb.versionHash, art.targetHash))
      && (built.Ok? && built.value.binaryEndpoint != "" ==> cfg.allowFull)
  {
    hide Inv, Reachable, Build, ValidHeartbeat, KeyString, Offer, Ready, Genuine, CanDiff, Resolve, Diffable, SourceKey;
    AnswerBehind(cfg, s, hb, art);
    DiffableIff(cfg, s.store, hb.versionHash, art.targetHash);
    ModeOfOffer(cfg, art, SourceKey(cfg, s.store, hb.versionHash, art.targetHash));
  }

  /** Nothing is published, removed, swept or restarted, and no generation of `t` fails. */
  predicate Quiet(e: Event, t: Transfer) {
    match e
    case Register(_) => true
    case Beat(_) => true
    case Fetch(_) => true
    case Generate(_, _) => true
    case Fail(f, to) => Delta(f, to) != t
    case _ => false
  }

  predicate Grows(s: Store, s': Store) {
    s'.binaries == s.binaries && s.derived.Keys <= s'.derived.Keys && s.pending <= s'.pending
  }

  lemma FetchGrows(cfg: Config, s: Store, t: Transfer)
    requires StoreInv(cfg, s) && ValidTransfer(t)
    ensures match t
            case Delta(f, to) => Grows(s, GetDelta(cfg, s, f, to).1)
            case Full(h) => Grows(s, GetFull(cfg, s, h).1)
  {
    hide StoreInv, GetDelta, GetFull, HotKey, IsValidHash;
    match t
    case Delta(f, to) => GetDeltaLaws(cfg, s, f, to);
    case Full(h) => GetFullLaws(cfg, s, h);
  }

  lemma BuildGrows(cfg: Config, s: Server, hb: Heartbeat)
    requires Inv(cfg, s)
    ensures Grows(s.store, Build(cfg, s, hb).1.store) && Build(cfg, s, hb).1.reg == s.reg
  {
    hide StoreInv, RegInv, MemoInv, GetDelta, GetFull, HotKey, IsValidHash, Genuine, Lookup, Touch, CountedPut, Sign, CanDiff, Resolve, ValidHeartbeat, KeyString, MemoKey;
    if Resolve(s.reg, hb.artifact).Ok? {
      var art := Resolve(s.reg, hb.artifact).value;
      ResolvedIsRegistered(cfg, s.reg, hb.artifact);
      EmptyIsNoHash(cfg, art.targetHash);
      FetchGrows(cfg, s.store, Full(art.targetHash));
      if IsValidHash(hb.versionHash) { FetchGrows(cfg, s.store, Delta(hb.versionHash, art.targetHash)); }
    }
  }

  lemma QuietStep(cfg: Config, s: Server, e: Event, f: string, to: string)
    requires Inv(cfg, s) && cfg.crypto.Lawful() && cfg.cacheSize >= 1 && HonestEvent(cfg, e) && Quiet(e, Delta(f, to))
    requires f in s.store.binaries && to in s.store.binaries
    ensures var s', t := Step(cfg, s, e), Delta(f, to);
      && Inv(cfg, s') && s'.reg == s.reg && f in s'.store.binaries && to in s'.store.binaries
      && (t in s.store.derived ==> t in s'.store.derived)
      && (t in s.store.pending ==> t in s'.store.pending || t in s'.store.derived)
      && (t in s.store.pending && e == Generate(f, to) ==> t in s'.store.derived)
  {
    hide Inv, StoreInv, RegInv, MemoInv, Build, GetDelta, GetFull, HotKey, BudgetPut, ValidTransfer;
    StepInv(cfg, s, e);
    StoreOf(cfg, s);
    match e
    case Beat(hb) => BuildGrows(cfg, s, hb);
    case Fetch(u) =>
      if ValidTransfer(u) { FetchGrows(cfg, s.store, u); }
    case _ =>
  }

  lemma {:induction false} QuietRun(cfg: Config, s: Server, later: seq<Event>, f: string, to: string)
    requires Inv(cfg, s) && Honest(cfg, later) && (forall i :: 0 <= i < |later| ==> Quiet(later[i], Delta(f, to)))
    requires f in s.store.binaries && to in s.store.binaries && Delta(f, to) in s.store.pending
    ensures var s', t := Run(cfg, s, later), Delta(f, to);
      && Inv(cfg, s') && s'.reg == s.reg && f in s'.store.binaries && to in s'.store.binaries
      && (t in s'.store.pending || t in s'.store.derived)
      && (Generate(f, to) in later ==> t in s'.store.derived)
  {
    hide Inv, Step, HonestEvent, Quiet;
    if later == [] {
    } else {
      var rest := later[..|later| - 1];
      QuietRun(cfg, s, rest, f, to);
      QuietStep(cfg, Run(cfg, s, rest), later[|later| - 1], f, to);
      assert later == rest + [later[|later| - 1]];
    }
  }

  /** Nobody is told to retry for ever: a device told so while the target is in the store is answered, once the
      dispatched generation has ended well, with the signed delta manifest, whatever heartbeats, downloads,
      uploads and other generations happen meanwhile. */
  lemma SignedOnceGenerated(cfg: Config, s: Server, hb: Heartbeat, art: Artifact, later: seq<Event>)
    requires Reachable(cfg, s) && Behind(s, hb, art)
    requires ToldToRetry(Build(cfg, s, hb).0) && art.targetHash in s.store.binaries
    requires Honest(cfg, later) && (forall i :: 0 <= i < |later| ==> Quiet(later[i], Delta(hb.versionHash, art.targetHash)))
    requires Generate(hb.versionHash, art.targetHash) in later
    ensures var told := Build(cfg, s, hb).1;
      Offer(cfg, art, hb.versionHash).Some?
      && Build(cfg, Run(cfg, told, later), hb).0 == Ok(Offer(cfg, art, hb.versionHash).value)
  {
    hide Inv, Reachable, Build, ValidHeartbeat, KeyString, Offer, Genuine, Resolve, MemoKey, Lookup, HotKey, IsValidHash;
    AnswerBehind(cfg, s, hb, art);
    RetryIsBackedIff(cfg, s, hb, art);
    EmptyIsNoHash(cfg, art.targetHash);
    EmptyIsInvalid();
    var told := Build(cfg, s, hb).1;
    QuietRun(cfg, told, later, hb.versionHash, art.targetHash);
    BuildLaws(cfg, Run(cfg, told, later), hb);
    OfferExists(cfg, art, hb.versionHash);
  }

  // ---------------------------------------------------------------------------
  // From the server to the slot
  // ---------------------------------------------------------------------------

  /** Where a device fetches the transfer from (`pkg/agent/updater.go`). */
  function EndpointOf(resp: ManifestResponse): string {
    if FullDownload(resp) then resp.binaryEndpoint else resp.deltaEndpoint
  }

  /** What GET of a path brings, if anything: deltas only to current targets, whole binaries only live ones. */
  ghost function Served(cfg: Config, s: Server, path: string): Option<Bytes> {
    match Routed(path)
    case None => None
    case Some(Delta(f, to)) => if IsTarget(s.reg, to) then GetDelta(cfg, s.store, f, to).0 else None
    case Some(Full(h)) => if IsLive(s.reg, h) then GetFull(cfg, s.store, h).0 else None
  }

  /** A signed offer passes every check a device makes before it downloads, and names the derived bytes. */
  lemma OfferPasses(cfg: Config, art: Artifact, source: string)
    requires cfg.crypto.Lawful() && Offer(cfg, art, source).Some? && IsValidHash(art.targetHash)
    ensures var resp := Offer(cfg, art, source).value;
      && resp.targetHash == art.targetHash && (FullDownload(resp) <==> source == "")
      && resp.updateAvailable && resp.retryAfter == 0
      && EndpointOf(resp) == Endpoint(TransferFor(source, art.targetHash))
      && resp.deltaHash == cfg.crypto.sha256(Derive(cfg.crypto, cfg.content, TransferFor(source, art.targetHash)))
      && CheckManifest(cfg.crypto, resp) == None
  {
    hide Derive;
    var resp := Offer(cfg, art, source).value;
    var p := ManifestSigningPayload(resp.targetHash, resp.deltaHash).value;
    DecodeEncode(cfg.crypto.sign(p));
  }

  /** Patching or unpacking undoes deriving. */
  lemma UnpackDerived(cfg: Config, t: Transfer)
    requires cfg.crypto.Lawful()
    ensures match t
            case Delta(f, to) => cfg.crypto.apply(cfg.content(f), Derive(cfg.crypto, cfg.content, t)) == Some(cfg.content(to))
            case Full(h) => cfg.crypto.decompress(Derive(cfg.crypto, cfg.content, t)) == Some(cfg.content(h))
  {}

  /** A signed manifest, with the bytes its endpoint serves then or at any other time, makes a device on the
      source it reported accept precisely the target: through caches, generation, signing and checking, for
      deltas and whole binaries alike. */
  lemma ServedIsAccepted(cfg: Config, s: Server, hb: Heartbeat, art: Artifact, resp: ManifestResponse,
                         other: Server, transfer: Bytes, active: Bytes)
    requires Reachable(cfg, s) && Behind(s, hb, art) && Build(cfg, s, hb).0 == Ok(resp) && resp.signature != ""
    requires Reachable(cfg, other) && Served(cfg, other, EndpointOf(resp)) == Some(transfer)
    requires FullDownload(resp) || (cfg.crypto.sha256(active) == hb.versionHash && Represents(cfg.crypto, cfg.content, active))
    ensures resp.targetHash == art.targetHash && cfg.crypto.sha256(cfg.content(art.targetHash)) == art.targetHash
    ensures Accept(cfg.crypto, resp, active, transfer) == Ok(cfg.content(art.targetHash))
    ensures resp.updateAvailable && resp.retryAfter == 0
  {
    hide Inv, Reachable, Build, ValidHeartbeat, KeyString, Offer, Resolve, Ready, GetDelta, GetFull, StoreInv, HotKey, Lookup, CanDiff, IsValidHash, CheckManifest, Derive,
         Routed, Endpoint, EndpointOf, IsTarget, IsLive;
    AnswerBehind(cfg, s, hb, art);
    ReachableInv(cfg, other);
    StoreOf(cfg, other);
    EmptyIsNoHash(cfg, art.targetHash);
    var source := SourceKey(cfg, s.store, hb.versionHash, art.targetHash);
    OfferPasses(cfg, art, source);
    RoutedEndpoint(TransferFor(source, art.targetHash));
    if source == "" { GetFullLaws(cfg, other.store, art.targetHash); } else { GetDeltaLaws(cfg, other.store, source, art.targetHash); }
    UnpackDerived(cfg, TransferFor(source, art.targetHash));
  }

  /** The bytes of `t` can be had. */
  predicate Fetchable(s: Store, t: Transfer) {
    Lookup(s.hot, HotKey(t)).Some? || t in s.derived || (t.Full? && t.hash in s.binaries)
  }

  lemma ReadTwice(cfg: Config, s: Store, t: Transfer)
    requires StoreInv(cfg, s) && ValidTransfer(t) && Fetchable(s, t)
    ensures match t
            case Delta(f, to) => Fetchable(GetDelta(cfg, s, f, to).1, t)
            case Full(h) => Fetchable(GetFull(cfg, s, h).1, t)
  {
    hide HotKey, BudgetPut, Lookup, Touch, DistinctKeys, TotalBytes, Derive;
    HotParts(cfg, s.hot);
    TouchLaws(s.hot, HotKey(t));
  }

  lemma ServedIff(cfg: Config, s: Server, t: Transfer)
    requires StoreInv(cfg, s.store) && ValidTransfer(t)
    ensures Served(cfg, s, Endpoint(t)).Some? <==>
        Fetchable(s.store, t) && match t case Delta(_, to) => IsTarget(s.reg, to) case Full(h) => IsLive(s.reg, h)
  {
    hide Routed, Endpoint, GetDelta, GetFull, StoreInv, IsTarget, IsLive, HotKey, Lookup;
    RoutedEndpoint(t);
    match t
    case Delta(f, to) => GetDeltaLaws(cfg, s.store, f, to);
    case Full(h) => GetFullLaws(cfg, s.store, h);
  }

  lemma TargetIsLive(cfg: Config, s: Server, hb: Heartbeat, art: Artifact)
    requires Inv(cfg, s) && Behind(s, hb, art)
    ensures IsTarget(s.reg, art.targetHash) && IsLive(s.reg, art.targetHash)
  {
    hide Inv, Resolve, ValidHeartbeat, KeyString;
    BehindIsRegistered(cfg, s, hb, art);
    EmptyIsNoHash(cfg, art.targetHash);
  }

  /** Right after a signed answer its endpoint brings bytes, except when the answer was remembered and they have been
      swept meanwhile. */
  lemma SignedIsServedIff(cfg: Config, s: Server, hb: Heartbeat, art: Artifact, resp: ManifestResponse)
    requires Reachable(cfg, s) && Behind(s, hb, art) && Build(cfg, s, hb).0 == Ok(resp) && resp.signature != ""
    ensures var source := if Diffable(cfg, s.store, hb.versionHash, art.targetHash) then hb.versionHash else "";
      && (Served(cfg, Build(cfg, s, hb).1, EndpointOf(resp)).Some? <==> Fetchable(s.store, TransferFor(source, art.targetHash)))
      && (Lookup(s.memo, MemoKey(art, source)).None? ==> Fetchable(s.store, TransferFor(source, art.targetHash)))
  {
    hide Inv, Reachable, ValidHeartbeat, KeyString, Offer, Resolve, GetDelta, GetFull, StoreInv, HotKey, Lookup, CanDiff, IsValidHash, CheckManifest, Derive,
         Routed, Endpoint, EndpointOf, IsTarget, IsLive, Diffable, SourceKey, CountedPut, Touch, Served, MemoKey, Sign, Genuine;
    AnswerBehind(cfg, s, hb, art);
    DiffableIff(cfg, s.store, hb.versionHash, art.targetHash);
    EmptyIsNoHash(cfg, art.targetHash);
    SourceIsHash(cfg, s.store, hb.versionHash, art.targetHash);
    StoreOf(cfg, s);
    TargetIsLive(cfg, s, hb, art);
    var source := SourceKey(cfg, s.store, hb.versionHash, art.targetHash);
    var t, after := TransferFor(source, art.targetHash), Build(cfg, s, hb).1;
    OfferPasses(cfg, art, source);
    StoreOf(cfg, after);
    BuildGrows(cfg, s, hb);
    ServedIff(cfg, after, t);
    if Fetchable(s.store, t) { ReadTwice(cfg, s.store, t); }
  }

  lemma ChunksCover(size: nat, chunk: int)
    ensures var n := ChunkCount(size, chunk);
            if chunk > 0 then (n - 1) * chunk < size <= n * chunk else n == 0
  {
    if chunk > 0 {
      var n := (size + chunk - 1) / chunk;
      assert size + chunk - 1 == n * chunk + (size + chunk - 1) % chunk;
      assert (n - 1) * chunk == n * chunk - chunk;
    }
  }

  /** What an offer says about its transfer: sizes are real sizes, the endpoint names the transfer, and the chunks
      are the fewest that cover it. */
  lemma OfferDescribesTransfer(cfg: Config, s: Server, name: string, source: string)
    requires Reachable(cfg, s) && name in s.reg.artifacts
    ensures var art := s.reg.artifacts[name];
      var t := TransferFor(source, art.targetHash);
      var offer := Offer(cfg, art, source);
      && offer.Some? && var resp := offer.value;
      && resp.artifact == name && resp.targetVersion == art.version && resp.chunkSize == cfg.chunkSize && resp.targetSize == |cfg.content(art.targetHash)|
      && resp.deltaSize == |Derive(cfg.crypto, cfg.content, t)|
      && (if source == "" then resp.binaryEndpoint == "/binary/" + art.targetHash && resp.deltaEndpoint == ""
          else resp.deltaEndpoint == "/delta/" + source + "/" + art.targetHash && resp.binaryEndpoint == "")
      && (cfg.chunkSize > 0 ==>
            (resp.totalChunks - 1) * cfg.chunkSize < resp.deltaSize <= resp.totalChunks * cfg.chunkSize)
  {
    hide Reachable, Derive, StoreInv, MemoInv, ValidKey, KeyString, IsValidHash, ManifestSigningPayload, Encode, ChunkCount;
    ReachableInv(cfg, s);
    var art := s.reg.artifacts[name];
    assert GoodArtifact(cfg, art, name);
    EmptyIsNoHash(cfg, art.targetHash);
    OfferExists(cfg, art, source);
    ChunksCover(|Derive(cfg.crypto, cfg.content, TransferFor(source, art.targetHash))|, cfg.chunkSize);
  }

  // ---------------------------------------------------------------------------
  // Publishing again
  // ---------------------------------------------------------------------------

  /** What was remembered survives a publish exactly when it repeats the bytes and the label that the key resolves to;
      either way the store only gains the bytes. */
  lemma RepublishIsInvisibleIff(cfg: Config, s: Server, key: ArtifactKey, version: string, data: Bytes, source: string, now: int)
    requires Reachable(cfg, s) && ValidKey(key) && Represents(cfg.crypto, cfg.content, data) && s.memo != []
    ensures var s', found := WithPublish(cfg, s, key, version, data, source, now), Resolve(s.reg, KeyString(key));
      var same := found.Ok? && found.value.targetHash == cfg.crypto.sha256(data) && found.value.version == version;
      && (s'.memo == s.memo <==> same) && (s'.memo == [] <==> !same)
      && s'.store == s.store.(binaries := s.store.binaries[cfg.crypto.sha256(data) := data])
  {
    hide Inv, ValidKey, KeyString, Resolve, WithTarget, Changes, HotInv, Derive, ValidTransfer, Genuine, IsValidHash;
    ReachableInv(cfg, s);
    StoreOf(cfg, s);
    RegIsWellFormed(cfg, s);
    RegisteredLaws(cfg, s.store, data);
    EmptyIsNoHash(cfg, cfg.crypto.sha256(data));
    ChangesIff(s.reg, key, version, cfg.crypto.sha256(data));
    if cfg.crypto.sha256(data) in s.store.binaries {
      assert s.store.binaries[cfg.crypto.sha256(data)] == data;
      assert s.store.binaries == s.store.binaries[cfg.crypto.sha256(data) := data];
    }
  }

  // ---------------------------------------------------------------------------
  // A Build that is overtaken by a publish
  // ---------------------------------------------------------------------------

  /** What a heartbeat for `name` is answered from memory, if anything, is the current offer. */
  predicate HitIsRight(cfg: Config, s: Server, name: string, source: string) {
    name in s.reg.artifacts && (source == "" || IsValidHash(source)) ==>
      var art := s.reg.artifacts[name]; var hit := Lookup(s.memo, MemoKey(art, source));
      hit.Some? ==> hit == Offer(cfg, art, source)
  }

  ghost predicate HitsAreOffers(cfg: Config, s: Server) {
    forall name, source :: HitIsRight(cfg, s, name, source)
  }

  lemma SourceOrEmpty(cfg: Config, source: string)
    requires Source(cfg, source)
    ensures source == "" || IsValidHash(source)
  {}

  lemma OfferNamesVersion(cfg: Config, art: Artifact, source: string)
    ensures Offer(cfg, art, source).Some? ==> Offer(cfg, art, source).value.targetVersion == art.version
  {}

  /** `s` after a Build memoizes the manifest it has signed for `art`, which is what it resolved its heartbeat to,
      however long ago. */
  function Memoized(cfg: Config, s: Server, art: Artifact, source: string): Server
    requires Offer(cfg, art, source).Some?
  {
    s.(memo := CountedPut(s.memo, cfg.cacheSize, MemoKey(art, source), Offer(cfg, art, source).value))
  }

  /** `art` was once registered under its key: its target is genuine and its size right. */
  ghost predicate OnceRegistered(cfg: Config, art: Artifact) {
    GoodArtifact(cfg, art, KeyString(art.key))
  }

  /** The artifact is still there with the same bytes, under another label. */
  predicate Relabelled(s: Server, art: Artifact) {
    var name := KeyString(art.key);
    name in s.reg.artifacts && s.reg.artifacts[name].targetHash == art.targetHash && s.reg.artifacts[name].version != art.version
  }

  /** A hit after memoizing is one from before, or the manifest just memoized. */
  lemma MemoizedHits(cfg: Config, s: Server, art: Artifact, source: string, name: string, f: string)
    requires Inv(cfg, s) && cfg.cacheSize >= 1 && Offer(cfg, art, source).Some? && name in s.reg.artifacts
    ensures var k := MemoKey(s.reg.artifacts[name], f);
      var hit := Lookup(Memoized(cfg, s, art, source).memo, k);
      && (hit.Some? ==> hit == if k == MemoKey(art, source) then Offer(cfg, art, source) else Lookup(s.memo, k))
      && (k == MemoKey(art, source) ==> hit == Offer(cfg, art, source))
  {
    hide Lookup, DistinctKeys, Offer, MemoKey, CountedPut, StoreInv, RegInv, Has, Without;
    MemoOf(cfg, s);
    var key, v := MemoKey(art, source), Offer(cfg, art, source).value;
    CountedPutLaws(s.memo, cfg.cacheSize, key, v);
    CountedPutReads(s.memo, cfg.cacheSize, key, v, MemoKey(s.reg.artifacts[name], f));
  }

  lemma NoBarIn(source: string)
    requires source == "" || IsValidHash(source)
    ensures '|' !in source
  {
  }

  lemma SameKey(cfg: Config, s: Server, art: Artifact, source: string, name: string, f: string)
    requires Inv(cfg, s) && OnceRegistered(cfg, art) && name in s.reg.artifacts
    requires (source == "" || IsValidHash(source)) && (f == "" || IsValidHash(f))
    requires MemoKey(s.reg.artifacts[name], f) == MemoKey(art, source)
    ensures name == KeyString(art.key) && f == source && s.reg.artifacts[name].targetHash == art.targetHash
    ensures s.reg.artifacts[name].targetSize == art.targetSize && KeyString(s.reg.artifacts[name].key) == name
  {
    hide StoreInv, MemoInv, Genuine, ValidKey, KeyString, IsValidHash, ManifestKey;
    assert GoodArtifact(cfg, s.reg.artifacts[name], name);
    ValidKeyHasNoBar(art.key);
    ValidKeyHasNoBar(s.reg.artifacts[name].key);
    NoBarIn(source);
    NoBarIn(f);
    ManifestKeyInjective(KeyString(s.reg.artifacts[name].key), f, s.reg.artifacts[name].targetHash,
                         KeyString(art.key), source, art.targetHash);
  }

  lemma MemoizedReg(cfg: Config, s: Server, art: Artifact, source: string)
    requires Offer(cfg, art, source).Some?
    ensures Memoized(cfg, s, art, source).reg == s.reg
  {
    hide Offer, CountedPut, MemoKey;
  }

  lemma SameNameSameKey(cfg: Config, s: Server, art: Artifact, source: string)
    requires Inv(cfg, s) && Relabelled(s, art)
    ensures MemoKey(s.reg.artifacts[KeyString(art.key)], source) == MemoKey(art, source)
  {
    hide StoreInv, MemoInv, Genuine, ValidKey;
    assert GoodArtifact(cfg, s.reg.artifacts[KeyString(art.key)], KeyString(art.key));
  }

  /** Memoizing is not atomic with resolving: any number of publishes, removals and whatever else may come between.
      It leaves a wrong answer behind exactly when, as it memoizes, the artifact has the bytes it resolved under
      another label. */
  lemma OvertakenIsHarmlessIff(cfg: Config, s: Server, art: Artifact, source: string)
    requires Reachable(cfg, s) && OnceRegistered(cfg, art) && Source(cfg, source) && Offer(cfg, art, source).Some?
    ensures HitsAreOffers(cfg, Memoized(cfg, s, art, source)) <==> !Relabelled(s, art)
  {
    hide Reachable, StoreInv, RegInv, MemoInv, Lookup, MemoKey, Offer, CountedPut, KeyString, IsValidHash, Source, Memoized, OnceRegistered;
    ReachableInv(cfg, s);
    SourceOrEmpty(cfg, source);
    var after := Memoized(cfg, s, art, source);
    assert after.reg == s.reg by { MemoizedReg(cfg, s, art, source); }
    if Relabelled(s, art) {
      var name := KeyString(art.key);
      SameNameSameKey(cfg, s, art, source);
      MemoizedHits(cfg, s, art, source, name, source);
      OfferNamesVersion(cfg, art, source);
      OfferNamesVersion(cfg, s.reg.artifacts[name], source);
      assert !HitIsRight(cfg, after, name, source);
    } else {
      forall name, f ensures HitIsRight(cfg, after, name, f) {
        if name in s.reg.artifacts && (f == "" || IsValidHash(f)) {
          MemoizedHits(cfg, s, art, source, name, f);
          HitIsOffer(cfg, s, name, f);
          if MemoKey(s.reg.artifacts[name], f) == MemoKey(art, source) {
            SameKey(cfg, s, art, source, name, f);
            SameSign(cfg, art, s.reg.artifacts[name], source);
          }
        }
      }
    }
  }
}
