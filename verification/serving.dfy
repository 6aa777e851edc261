/** What the server does between two heartbeats, as a function of its state (`pkg/server/store.go`,
    `manifest.go`, `registry.go`): publishes, removals, heartbeats, finished generations and sweeps, one at a
    time. The miss cache is not here: `Stores` proves that it never changes an answer. */
module Serving {
  import opened Wrappers
  import opened Hex
  import opened Names
  import opened Signing
  import opened Primitives
  import opened ArtifactKeys
  import opened Messages
  import opened Recency
  import opened Registries
  import opened Routes

  /** `content` is what each digest stands for among the binaries ever registered. */
  datatype Config = Config(
    crypto: Crypto,
    content: string -> Bytes,
    maxSourceBytes: int,
    hotCap: nat,
    cacheSize: nat,
    chunkSize: int,
    retryAfter: int,
    allowFull: bool,
    depth: nat)

  /** `pending` are the deltas whose generation has been dispatched and has not ended. */
  datatype Store = Store(binaries: map<string, Bytes>, derived: map<Transfer, Bytes>, hot: Order<Bytes>, pending: set<Transfer>)

  datatype Server = Server(store: Store, reg: RegState, memo: Order<ManifestResponse>)

  datatype BuildError = BadHeartbeat | Unresolved(error: ResolveError) | NoTarget | BadDigest | TargetMissing

  type Built = Result<ManifestResponse, BuildError>

  // ---------------------------------------------------------------------------
  // Store
  // ---------------------------------------------------------------------------

  predicate TooBig(cfg: Config, s: Store, hash: string) {
    hash in s.binaries && |s.binaries[hash]| > cfg.maxSourceBytes
  }

  /** Within the size budget. What is already cached costs nothing, and unknown binaries are not a size decision. */
  predicate CanDiff(cfg: Config, s: Store, from: string, to: string) {
    cfg.maxSourceBytes <= 0 || Delta(from, to) in s.derived || (!TooBig(cfg, s, from) && !TooBig(cfg, s, to))
  }

  function StartGeneration(cfg: Config, s: Store, from: string, to: string): Store {
    if Delta(from, to) in s.derived || from !in s.binaries || to !in s.binaries || !CanDiff(cfg, s, from, to) then s
    else s.(pending := s.pending + {Delta(from, to)})
  }

  function Registered(cfg: Config, s: Store, data: Bytes): Store {
    var h := cfg.crypto.sha256(data);
    if h in s.binaries then s else s.(binaries := s.binaries[h := data])
  }

  /** RAM, then disk. */
  function GetCached(cfg: Config, s: Store, t: Transfer): (Option<Bytes>, Store) {
    match Lookup(s.hot, HotKey(t))
    case Some(b) => (Some(b), s.(hot := Touch(s.hot, HotKey(t))))
    case None =>
      if t !in s.derived then (None, s)
      else (Some(s.derived[t]), s.(hot := BudgetPut(s.hot, cfg.hotCap, HotKey(t), s.derived[t])))
  }

  /** A delta that is nowhere is dispatched. */
  function GetDelta(cfg: Config, s: Store, from: string, to: string): (Option<Bytes>, Store) {
    var (found, s') := GetCached(cfg, s, Delta(from, to));
    if found.Some? then (found, s') else (None, StartGeneration(cfg, s, from, to))
  }

  /** A whole binary that is nowhere is packed on the spot. */
  function GetFull(cfg: Config, s: Store, hash: string): (Option<Bytes>, Store) {
    var (found, s') := GetCached(cfg, s, Full(hash));
    if found.Some? then (found, s')
    else if hash !in s.binaries then (None, s)
    else
      var packed := cfg.crypto.compress(s.binaries[hash]);
      (Some(packed), s.(derived := s.derived[Full(hash) := packed], hot := BudgetPut(s.hot, cfg.hotCap, HotKey(Full(hash)), packed)))
  }

  /** The end of a dispatched generation. */
  function Generated(cfg: Config, s: Store, from: string, to: string): Store {
    var t := Delta(from, to);
    if t in s.derived || from !in s.binaries || to !in s.binaries then s.(pending := s.pending - {t})
    else
      var patch := cfg.crypto.generate(s.binaries[from], s.binaries[to]);
      s.(derived := s.derived[t := patch], hot := BudgetPut(s.hot, cfg.hotCap, HotKey(t), patch), pending := s.pending - {t})
  }

  // ---------------------------------------------------------------------------
  // Manifests
  // ---------------------------------------------------------------------------

  function ChunkCount(size: int, chunk: int): int {
    if chunk <= 0 then 0 else (size + chunk - 1) / chunk
  }

  /** The manifest that offers `bytes`, which are those of `t`, for the target of `art`. */
  function Sign(cfg: Config, art: Artifact, t: Transfer, bytes: Bytes): Option<ManifestResponse> {
    var digest := cfg.crypto.sha256(bytes);
    match ManifestSigningPayload(art.targetHash, digest)
    case None => None
    case Some(payload) =>
      Some(ManifestResponse(
        true, KeyString(art.key), art.version, art.targetHash, art.targetSize,
        |bytes|, digest, cfg.chunkSize, ChunkCount(|bytes|, cfg.chunkSize), Encode(cfg.crypto.sign(payload)),
        if t.Delta? then Endpoint(t) else "", if t.Full? then Endpoint(t) else "", 0))
  }

  function RetryLater(cfg: Config, art: Artifact): ManifestResponse {
    ManifestResponse(true, KeyString(art.key), art.version, art.targetHash, art.targetSize, 0, "", 0, 0, "", "", "", cfg.retryAfter)
  }

  /** The source a manifest is for: what the device runs, or "" when a diff against it is out. */
  function SourceKey(cfg: Config, s: Store, from: string, to: string): string {
    if IsValidHash(from) && from in s.binaries && CanDiff(cfg, s, from, to) then from else ""
  }

  function TransferFor(source: string, target: string): Transfer {
    if source == "" then Full(target) else Delta(source, target)
  }

  function MemoKey(art: Artifact, source: string): string {
    ManifestKey(KeyString(art.key), source, art.targetHash)
  }

  /** Nothing memoized: fetch the bytes, sign, memoize. */
  function BuildFresh(cfg: Config, s: Server, art: Artifact, source: string): (Built, Server) {
    var (found, store) := if source == "" then GetFull(cfg, s.store, art.targetHash) else GetDelta(cfg, s.store, source, art.targetHash);
    var s' := s.(store := store);
    match found
    case None => (if source == "" then Err(TargetMissing) else Ok(RetryLater(cfg, art)), s')
    case Some(bytes) =>
      match Sign(cfg, art, TransferFor(source, art.targetHash), bytes)
      case None => (Err(BadDigest), s')
      case Some(resp) => (Ok(resp), s'.(memo := CountedPut(s.memo, cfg.cacheSize, MemoKey(art, source), resp)))
  }

  function Build(cfg: Config, s: Server, hb: Heartbeat): (Built, Server) {
    if !ValidHeartbeat(hb) then (Err(BadHeartbeat), s)
    else match Resolve(s.reg, hb.artifact)
         case Err(e) => (Err(Unresolved(e)), s)
         case Ok(art) =>
           if art.targetHash == "" then (Err(NoTarget), s)
           else if hb.versionHash == art.targetHash then (Ok(NoUpdate(KeyString(art.key))), s)
           else
             var source := SourceKey(cfg, s.store, hb.versionHash, art.targetHash);
             match Lookup(s.memo, MemoKey(art, source))
             case Some(resp) => (Ok(resp), s.(memo := Touch(s.memo, MemoKey(art, source))))
             case None =>
               if source == "" && !cfg.allowFull then (Ok(NoUpdate(KeyString(art.key))), s)
               else BuildFresh(cfg, s, art, source)
  }

  // ---------------------------------------------------------------------------
  // Runs
  // ---------------------------------------------------------------------------

  datatype Event =
    | Register(data: Bytes)
    | Publish(key: ArtifactKey, version: string, data: Bytes, source: string, now: int)
    | Remove(key: ArtifactKey)
    | SetDefault(key: ArtifactKey)
    | Beat(hb: Heartbeat)
    | Fetch(t: Transfer)                 // a device downloads
    | Generate(from: string, to: string) // a dispatched generation ends well
    | Fail(from: string, to: string)     // ... or badly
    | Sweep(transfers: set<Transfer>, hashes: set<string>, cut: bool) // `cut`: nothing was deleted, or it was cancelled before the RAM cache is dropped
    | Restart

  /** set-target, then OnChange. */
  function WithPublish(cfg: Config, s: Server, key: ArtifactKey, version: string, data: Bytes, source: string, now: int): Server {
    var h := cfg.crypto.sha256(data);
    Server(Registered(cfg, s.store, data),
           WithTarget(s.reg, key, version, h, |data|, source, now, cfg.depth),
           if Changes(s.reg, key, version, h) then [] else s.memo)
  }

  ghost function WithRemove(s: Server, key: ArtifactKey): Server {
    if KeyString(key) in s.reg.artifacts then s.(reg := Removed(s.reg, key), memo := []) else s
  }

  function Swept(s: Store, transfers: set<Transfer>, hashes: set<string>, cut: bool): Store {
    s.(derived := s.derived - transfers, binaries := s.binaries - hashes, hot := if cut then s.hot else [])
  }

  ghost function Step(cfg: Config, s: Server, e: Event): Server {
    match e
    case Register(data) => s.(store := Registered(cfg, s.store, data))
    case Publish(key, version, data, source, now) =>
      if ValidKey(key) then WithPublish(cfg, s, key, version, data, source, now) else s
    case Remove(key) => WithRemove(s, key)
    case SetDefault(key) =>
      if KeyString(key) in s.reg.artifacts then s.(reg := s.reg.(defaultKey := KeyString(key))) else s
    case Beat(hb) => Build(cfg, s, hb).1
    case Fetch(t) =>
      if !ValidTransfer(t) then s
      else s.(store := match t case Delta(f, to) => GetDelta(cfg, s.store, f, to).1 case Full(h) => GetFull(cfg, s.store, h).1)
    case Generate(f, to) => if Delta(f, to) in s.store.pending then s.(store := Generated(cfg, s.store, f, to)) else s
    case Fail(f, to) => s.(store := s.store.(pending := s.store.pending - {Delta(f, to)}))
    case Sweep(ts, hs, cut) => s.(store := Swept(s.store, ts, hs, cut))
    case Restart => s.(store := s.store.(hot := [], pending := {}), memo := [])
  }

  ghost function Run(cfg: Config, s: Server, events: seq<Event>): Server {
    if events == [] then s else Step(cfg, Run(cfg, s, events[..|events| - 1]), events[|events| - 1])
  }

  const EMPTY := Server(Store(map[], map[], [], {}), RegState(map[], ""), [])

  ghost predicate HonestEvent(cfg: Config, e: Event) {
    match e
    case Register(data) => Represents(cfg.crypto, cfg.content, data)
    case Publish(_, _, data, _, _) => Represents(cfg.crypto, cfg.content, data)
    case _ => true
  }

  /** Digests are digests, no two registered binaries collide, and both caches can hold something. */
  ghost predicate Honest(cfg: Config, events: seq<Event>) {
    && cfg.crypto.Lawful() && cfg.cacheSize >= 1
    && forall i :: 0 <= i < |events| ==> HonestEvent(cfg, events[i])
  }

  /** Some honest run leads from the empty server to `s`. */
  ghost predicate Reachable(cfg: Config, s: Server) {
    exists events :: Honest(cfg, events) && Run(cfg, EMPTY, events) == s
  }
}
