/** Answering heartbeats (`pkg/server/manifest.go`), and the publishes and removals that invalidate what was
    memoized (`pkg/server/registry.go`, wired in `cmd/update-server/main.go`). */
module Manifesters {
  import opened Wrappers
  import opened Hex
  import opened Names
  import opened Signing
  import opened ArtifactKeys
  import opened Messages
  import opened Recency
  import opened Lru
  import opened Registries
  import opened Routes
  import opened Stores
  import S = Serving
  import M = MissCache

  lemma StoreParts(store: Store)
    requires store.Valid()
    ensures store.hot.entries in store.Repr()
  {}

  lemma CacheParts(cache: EntryLru<ManifestResponse>)
    requires cache.Valid()
    ensures cache.entries in cache.Repr()
  {}

  class Manifester {
    const store: Store
    const registry: Registry
    const cache: EntryLru<ManifestResponse>

    ghost function State(): S.Server
      reads this, store, store.hot.entries, registry, cache.entries
    {
      S.Server(store.State(), registry.State(), cache.Contents())
    }

    ghost function Repr(): set<object>
      reads this, store, store.hot, store.hot.entries, cache, cache.entries
    {
      {registry} + store.Repr() + cache.Repr()
    }

    ghost predicate Valid()
      reads this, store, store.hot, store.hot.entries, cache, cache.entries, Repr()
    {
      && store.hot.entries in store.Repr() && cache.entries in cache.Repr()
      && registry !in store.Repr() && registry !in cache.Repr()
      && cache !in store.Repr() && store.Repr() !! cache.Repr()
      && store.Valid() && cache.Valid() && cache.cap == store.cfg.cacheSize && registry.depth == store.cfg.depth
    }

    constructor (store: Store, registry: Registry)
      requires store.Valid() && registry !in store.Repr() && registry.depth == store.cfg.depth && store.cfg.cacheSize >= 1
      ensures Valid() && fresh(Repr() - store.Repr() - {registry})
      ensures this.store == store && this.registry == registry
      ensures State() == S.Server(store.State(), registry.State(), [])
    {
      this.store, this.registry := store, registry;
      hide Store.Valid, EntryLru.Valid;
      StoreParts(store);
      var memo := new EntryLru<ManifestResponse>(store.cfg.cacheSize);
      CacheParts(memo);
      cache := memo;
    }

    method Sign(art: Artifact, t: Transfer, bytes: Bytes) returns (r: Option<ManifestResponse>)
      ensures r == S.Sign(store.cfg, art, t, bytes)
    {
      var digest := store.cfg.crypto.sha256(bytes);
      var payload := ManifestSigningPayload(art.targetHash, digest);
      if payload.None? { return None; }
      var sig := store.cfg.crypto.sign(payload.value);
      var resp := ManifestResponse(
        true, KeyString(art.key), art.version, art.targetHash, art.targetSize,
        |bytes|, digest, store.cfg.chunkSize, S.ChunkCount(|bytes|, store.cfg.chunkSize), Encode(sig), "", "", 0);
      if t.Full? { resp := resp.(binaryEndpoint := Endpoint(t)); } else { resp := resp.(deltaEndpoint := Endpoint(t)); }
      return Some(resp);
    }

    method InvalidateArtifact()
      requires Valid()
      modifies cache.Repr()
      ensures Valid() && Repr() == old(Repr()) && State() == old(State()).(memo := [])
    {
      hide Store.Valid, EntryLru.Valid;
      cache.Clear();
    }

    method Memoize(art: Artifact, source: string, resp: ManifestResponse)
      requires Valid()
      modifies cache.Repr()
      ensures Valid() && fresh(Repr() - old(Repr()))
      ensures State() == old(State()).(memo := CountedPut(old(State()).memo, store.cfg.cacheSize, S.MemoKey(art, source), resp))
    {
      hide Store.Valid, EntryLru.Valid, CountedPut;
      cache.Put(ManifestKey(KeyString(art.key), source, art.targetHash), resp);
      CacheParts(cache);
    }

    /** The bytes of a transfer: a delta, or, for the source "", the whole target. */
    method TransferBytes(source: string, target: string, now: int) returns (found: Option<Bytes>)
      requires Valid()
      modifies store.Repr()
      ensures Valid() && fresh(Repr() - old(Repr()))
      ensures State() == old(State()).(store := store.State())
      ensures (found, store.State()) ==
        if source == "" then S.GetFull(store.cfg, old(store.State()), target) else S.GetDelta(store.cfg, old(store.State()), source, target)
    {
      hide Store.Valid, EntryLru.Valid, S.GetFull, S.GetDelta;
      if source == "" {
        found := store.GetBinaryBytes(target, now);
      } else {
        found := store.GetDeltaBytes(source, target, now);
      }
      StoreParts(store);
    }

    /** BuildDelta and BuildFull in one: they differ in where the bytes come from, in the endpoint, and in what
        nothing found means. */
    method BuildFresh(art: Artifact, source: string, now: int) returns (built: S.Built)
      requires Valid()
      modifies store.Repr(), cache.Repr()
      ensures Valid() && fresh(Repr() - old(Repr()))
      ensures (built, State()) == S.BuildFresh(store.cfg, old(State()), art, source)
    {
      hide Store.Valid, EntryLru.Valid, S.GetFull, S.GetDelta, S.Sign, CountedPut, S.MemoKey;
      var found := TransferBytes(source, art.targetHash, now);
      if found.None? {
        return if source == "" then Err(S.TargetMissing) else Ok(S.RetryLater(store.cfg, art));
      }
      var resp := Sign(art, S.TransferFor(source, art.targetHash), found.value);
      if resp.None? { return Err(S.BadDigest); }
      Memoize(art, source, resp.value);
      return Ok(resp.value);
    }

    /** The reported hash if a delta from it can be offered, and "" otherwise. */
    method SourceFor(hb: Heartbeat, art: Artifact, now: int) returns (source: string)
      requires Valid()
      modifies store`miss
      ensures Valid() && Repr() == old(Repr()) && State() == old(State())
      ensures source == S.SourceKey(store.cfg, old(State()).store, hb.versionHash, art.targetHash)
    {
      hide EntryLru.Valid, ByteBudgetLru.Valid, M.Agrees, M.Asked, M.Room, S.CanDiff, IsValidHash;
      var known := IsValidHash(hb.versionHash);
      if known { known := store.HasBinary(hb.versionHash, now); }
      if known { known := store.CanDiff(hb.versionHash, art.targetHash); }
      return if known then hb.versionHash else "";
    }

    /** The answer to a heartbeat. */
    method Build(hb: Heartbeat, now: int) returns (built: S.Built)
      requires Valid()
      modifies store.Repr(), cache.Repr()
      ensures Valid() && fresh(Repr() - old(Repr()))
      ensures (built, State()) == S.Build(store.cfg, old(State()), hb)
    {
      hide Store.Valid, EntryLru.Valid, S.BuildFresh, S.CanDiff, Resolve, ValidHeartbeat, Lookup, Touch, KeyString, IsValidHash, S.MemoKey, S.SourceKey;
      if !ValidHeartbeat(hb) { return Err(S.BadHeartbeat); }
      var resolved := Resolve(registry.State(), hb.artifact);
      if resolved.Err? { return Err(S.Unresolved(resolved.error)); }
      var art := resolved.value;
      if art.targetHash == "" { return Err(S.NoTarget); }
      if hb.versionHash == art.targetHash { return Ok(NoUpdate(KeyString(art.key))); }
      var source := SourceFor(hb, art, now);
      var cached := Recall(S.MemoKey(art, source));
      if cached.Some? { return Ok(cached.value); }
      if source == "" && !store.cfg.allowFull { return Ok(NoUpdate(KeyString(art.key))); }
      built := BuildFresh(art, source, now);
    }

    method Recall(key: string) returns (cached: Option<ManifestResponse>)
      requires Valid()
      modifies cache.Repr()
      ensures Valid() && Repr() == old(Repr())
      ensures cached == Lookup(old(State()).memo, key)
      ensures State() == if cached.Some? then old(State()).(memo := Touch(old(State()).memo, key)) else old(State())
    {
      hide Store.Valid, EntryLru.Valid, Lookup, Touch;
      TouchMiss(cache.Contents(), key);
      cached := cache.Get(key);
      CacheParts(cache);
    }
  }

  lemma TargetSet(r: Registry, art: Artifact, before: RegState, key: ArtifactKey, version: string, hash: string, size: int, now: int)
    requires r.State() == WithTarget(before, key, version, hash, size, "", now, r.depth)
    ensures KeyString(key) in r.artifacts && r.artifacts[KeyString(key)].targetHash == hash
  {}

  /** Register, set the target, and fire OnChange when the artifact changed. */
  method PublishBytes(m: Manifester, key: ArtifactKey, version: string, data: Bytes, now: int) returns (r: Result<Artifact, KeyError>)
    requires m.Valid()
    modifies m.Repr()
    ensures m.Valid() && fresh(m.Repr() - old(m.Repr()))
    ensures m.State() == if ValidKey(key) then S.WithPublish(m.store.cfg, old(m.State()), key, version, data, "", now) else old(m.State())
    ensures match r
            case Err(e) => Validate(key) == Some(e)
            case Ok(art) => ValidKey(key) && art == m.registry.artifacts[KeyString(key)] && art.targetHash in m.store.binaries
  {
    hide Store.Valid, EntryLru.Valid, Validate, KeyString, WithTarget, Changes;
    var error := Validate(key);
    if error.Some? { return Err(error.value); }
    var hash := m.store.RegisterBinary(data);
    StoreParts(m.store);
    var art, changed := m.registry.SetTarget(key, version, hash, |data|, "", now);
    if changed { m.InvalidateArtifact(); }
    TargetSet(m.registry, art, old(m.registry.State()), key, version, hash, |data|, now);
    return Ok(art);
  }

  method Remove(m: Manifester, key: ArtifactKey) returns (found: bool)
    requires m.Valid()
    modifies m.Repr()
    ensures m.Valid() && m.Repr() == old(m.Repr())
    ensures m.State() == S.WithRemove(old(m.State()), key) && found == (KeyString(key) in old(m.registry.artifacts))
  {
    hide Store.Valid, EntryLru.Valid, KeyString, Removed;
    found := m.registry.Remove(key);
    if found { m.InvalidateArtifact(); }
  }
}
