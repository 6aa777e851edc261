/** What holds in every state the server can reach, and what devices may rely on because of it. */
module ServingLaws {
  import opened Wrappers
  import opened Hex
  import opened Names
  import opened Primitives
  import opened ArtifactKeys
  import opened Messages
  import opened Recency
  import opened Registries
  import opened Serving

  // ---------------------------------------------------------------------------
  // Invariant
  // ---------------------------------------------------------------------------

  ghost predicate Genuine(cfg: Config, hash: string) {
    IsValidHash(hash) && cfg.crypto.sha256(cfg.content(hash)) == hash
  }

  ghost predicate HotInv(cfg: Config, hot: Order<Bytes>) {
    && DistinctKeys(hot) && TotalBytes(hot) <= cfg.hotCap
    && forall t :: ValidTransfer(t) && Lookup(hot, HotKey(t)).Some? ==> Lookup(hot, HotKey(t)).value == Derive(cfg.crypto, cfg.content, t)
  }

  ghost predicate StoreInv(cfg: Config, s: Store) {
    && (forall h :: h in s.binaries ==> Genuine(cfg, h) && s.binaries[h] == cfg.content(h))
    && (forall t :: t in s.derived ==> ValidTransfer(t) && s.derived[t] == Derive(cfg.crypto, cfg.content, t))
    && HotInv(cfg, s.hot)
  }

  ghost predicate GoodArtifact(cfg: Config, a: Artifact, name: string) {
    && ValidKey(a.key) && KeyString(a.key) == name
    && Genuine(cfg, a.targetHash) && a.targetSize == |cfg.content(a.targetHash)|
  }

  ghost predicate RegInv(cfg: Config, r: RegState) {
    forall k :: k in r.artifacts ==> GoodArtifact(cfg, r.artifacts[k], k)
  }

  /** The manifest that offers the target of `art` to a device running `source`, or, for "", to any device. */
  function Offer(cfg: Config, art: Artifact, source: string): Option<ManifestResponse> {
    var t := TransferFor(source, art.targetHash);
    Sign(cfg, art, t, Derive(cfg.crypto, cfg.content, t))
  }

  ghost predicate Source(cfg: Config, source: string) {
    (source == "" && cfg.allowFull) || IsValidHash(source)
  }

  /** A memoized manifest is what signing would give now, for an artifact as it is registered now. */
  ghost predicate Backed(cfg: Config, r: RegState, key: string, resp: ManifestResponse) {
    exists name, source :: name in r.artifacts && Source(cfg, source)
      && key == MemoKey(r.artifacts[name], source) && Offer(cfg, r.artifacts[name], source) == Some(resp)
  }

  ghost predicate MemoInv(cfg: Config, s: Server) {
    && DistinctKeys(s.memo) && |s.memo| <= cfg.cacheSize
    && forall k :: Lookup(s.memo, k).Some? ==> Backed(cfg, s.reg, k, Lookup(s.memo, k).value)
  }

  ghost predicate Inv(cfg: Config, s: Server) {
    StoreInv(cfg, s.store) && RegInv(cfg, s.reg) && MemoInv(cfg, s)
  }

  // ---------------------------------------------------------------------------
  // The store
  // ---------------------------------------------------------------------------

  lemma HotPut(cfg: Config, hot: Order<Bytes>, t: Transfer)
    requires HotInv(cfg, hot) && ValidTransfer(t)
    ensures HotInv(cfg, BudgetPut(hot, cfg.hotCap, HotKey(t), Derive(cfg.crypto, cfg.content, t)))
  {
    hide HotKey, Derive, ValidTransfer, DistinctKeys, Lookup, BudgetPut, TotalBytes;
    var b := Derive(cfg.crypto, cfg.content, t);
    var r := BudgetPut(hot, cfg.hotCap, HotKey(t), b);
    BudgetPutLaws(hot, cfg.hotCap, HotKey(t), b);
    forall u | ValidTransfer(u) && Lookup(r, HotKey(u)).Some?
      ensures Lookup(r, HotKey(u)).value == Derive(cfg.crypto, cfg.content, u)
    {
      BudgetPutReads(hot, cfg.hotCap, HotKey(t), b, HotKey(u));
      if u != t { KeysAreDistinct(u, t); }
    }
  }

  lemma HotTouch(cfg: Config, hot: Order<Bytes>, k: string)
    requires HotInv(cfg, hot)
    ensures HotInv(cfg, Touch(hot, k))
  {
    hide HotKey, Derive, ValidTransfer, DistinctKeys, Lookup, Touch, TotalBytes;
    TouchLaws(hot, k);
    TotalOfTouch(hot, k);
  }

  lemma HotParts(cfg: Config, hot: Order<Bytes>)
    requires HotInv(cfg, hot)
    ensures DistinctKeys(hot) && TotalBytes(hot) <= cfg.hotCap
  {
    hide DistinctKeys, TotalBytes;
  }

  lemma HotGives(cfg: Config, hot: Order<Bytes>, t: Transfer)
    requires HotInv(cfg, hot) && ValidTransfer(t)
    ensures Lookup(hot, HotKey(t)).Some? ==> Lookup(hot, HotKey(t)).value == Derive(cfg.crypto, cfg.content, t)
  {}

  /** Reading keeps the store honest, reads are honest, and what was read and fits is the hottest of all. */
  lemma GetCachedLaws(cfg: Config, s: Store, t: Transfer)
    requires StoreInv(cfg, s) && ValidTransfer(t)
    ensures var (found, s') := GetCached(cfg, s, t);
      && StoreInv(cfg, s') && s' == s.(hot := s'.hot)
      && (found.Some? <==> Lookup(s.hot, HotKey(t)).Some? || t in s.derived)
      && (found.Some? ==> found.value == Derive(cfg.crypto, cfg.content, t))
      && (found.None? ==> s' == s)
      && (found.Some? && |found.value| <= cfg.hotCap ==>
            Lookup(s'.hot, HotKey(t)) == found && s'.hot != [] && s'.hot[0] == Entry(HotKey(t), found.value))
  {
    hide HotKey, Derive, ValidTransfer, HotInv, Lookup, Touch, BudgetPut, DistinctKeys, TotalBytes;
    HotParts(cfg, s.hot);
    TouchLaws(s.hot, HotKey(t));
    FoundInSome(GetCached(cfg, s, t).1.hot, HotKey(t));
    if t in s.derived {
      BudgetPutLaws(s.hot, cfg.hotCap, HotKey(t), s.derived[t]);
      BudgetPutReads(s.hot, cfg.hotCap, HotKey(t), s.derived[t], HotKey(t));
    }
    HotGives(cfg, s.hot, t);
    HotTouch(cfg, s.hot, HotKey(t));
    HotPut(cfg, s.hot, t);
  }

  lemma RegisteredLaws(cfg: Config, s: Store, data: Bytes)
    requires cfg.crypto.Lawful() && StoreInv(cfg, s) && Represents(cfg.crypto, cfg.content, data)
    ensures StoreInv(cfg, Registered(cfg, s, data)) && Genuine(cfg, cfg.crypto.sha256(data))
  {
    hide HotInv, ValidTransfer, Derive;
  }

  /** The binary is there, and not too large to read for a diff. */
  predicate InBudget(cfg: Config, s: Store, hash: string) {
    hash in s.binaries && (cfg.maxSourceBytes > 0 ==> |s.binaries[hash]| <= cfg.maxSourceBytes)
  }

  lemma CanDiffIff(cfg: Config, s: Store, from: string, to: string)
    requires from in s.binaries && to in s.binaries && Delta(from, to) !in s.derived
    ensures CanDiff(cfg, s, from, to) <==> InBudget(cfg, s, from) && InBudget(cfg, s, to)
  {
  }

  lemma GetDeltaLaws(cfg: Config, s: Store, from: string, to: string)
    requires StoreInv(cfg, s) && ValidTransfer(Delta(from, to))
    ensures var t, (found, s') := Delta(from, to), GetDelta(cfg, s, from, to);
      && StoreInv(cfg, s')
      && (found.Some? <==> Lookup(s.hot, HotKey(t)).Some? || t in s.derived)
      && (found.Some? ==> found.value == Derive(cfg.crypto, cfg.content, t))
      && s'.binaries == s.binaries && s'.derived == s.derived && s.pending <= s'.pending
      && (found.None? && CanDiff(cfg, s, from, to) && from in s.binaries && to in s.binaries ==> t in s'.pending)
      && (found.None? && to !in s.binaries ==> s'.pending == s.pending)
      && s'.pending <= s.pending + {t} && (t in s'.pending <==> t in s.pending || (found.None? && InBudget(cfg, s, from) && InBudget(cfg, s, to)))
  {
    hide HotKey, Derive, ValidTransfer, HotInv, Lookup, GetCached, CanDiff, Genuine;
    GetCachedLaws(cfg, s, Delta(from, to));
    if from in s.binaries && to in s.binaries && Delta(from, to) !in s.derived { CanDiffIff(cfg, s, from, to); }
  }

  lemma GetFullLaws(cfg: Config, s: Store, hash: string)
    requires StoreInv(cfg, s) && IsValidHash(hash)
    ensures var t, (found, s') := Full(hash), GetFull(cfg, s, hash);
      && StoreInv(cfg, s')
      && (found.Some? <==> Lookup(s.hot, HotKey(t)).Some? || t in s.derived || hash in s.binaries)
      && (found.Some? ==> found.value == Derive(cfg.crypto, cfg.content, t))
      && s'.binaries == s.binaries && s'.pending == s.pending
      && (forall u :: u in s.derived ==> u in s'.derived) && s'.derived.Keys <= s.derived.Keys + {t}
      && (found.Some? && Lookup(s.hot, HotKey(t)).None? ==> t in s'.derived)
      && (found.Some? && |found.value| <= cfg.hotCap ==> Lookup(s'.hot, HotKey(t)) == found)
  {
    hide HotKey, HotInv, Lookup, GetCached, Genuine, BudgetPut, DistinctKeys, TotalBytes;
    HotParts(cfg, s.hot);
    GetCachedLaws(cfg, s, Full(hash));
    HotPut(cfg, s.hot, Full(hash));
    if hash in s.binaries {
      BudgetPutReads(s.hot, cfg.hotCap, HotKey(Full(hash)), cfg.crypto.compress(s.binaries[hash]), HotKey(Full(hash)));
    }
  }

  lemma GeneratedLaws(cfg: Config, s: Store, from: string, to: string)
    requires StoreInv(cfg, s)
    ensures StoreInv(cfg, Generated(cfg, s, from, to))
    ensures var t, s' := Delta(from, to), Generated(cfg, s, from, to);
      && s'.binaries == s.binaries && s'.pending == s.pending - {t}
      && (forall u :: u in s'.derived <==> u in s.derived || (u == t && from in s.binaries && to in s.binaries))
      && (t in s'.derived && t !in s.derived && |s'.derived[t]| <= cfg.hotCap ==> Lookup(s'.hot, HotKey(t)) == Some(s'.derived[t]))
  {
    hide HotKey, HotInv, BudgetPut, DistinctKeys, TotalBytes, Lookup;
    HotParts(cfg, s.hot);
    if from in s.binaries && to in s.binaries {
      HotPut(cfg, s.hot, Delta(from, to));
      BudgetPutReads(s.hot, cfg.hotCap, HotKey(Delta(from, to)), cfg.crypto.generate(s.binaries[from], s.binaries[to]), HotKey(Delta(from, to)));
    }
  }

  lemma EmptyHot(cfg: Config)
    ensures HotInv(cfg, [])
  {}

  lemma SweptLaws(cfg: Config, s: Store, transfers: set<Transfer>, hashes: set<string>, cut: bool)
    requires StoreInv(cfg, s)
    ensures StoreInv(cfg, Swept(s, transfers, hashes, cut))
  {
    hide HotInv, Genuine, Derive, ValidTransfer;
    EmptyHot(cfg);
  }

  // ---------------------------------------------------------------------------
  // Manifests
  // ---------------------------------------------------------------------------

  /** Everything published can be offered. */
  lemma OfferExists(cfg: Config, art: Artifact, source: string)
    requires cfg.crypto.Lawful() && IsValidHash(art.targetHash)
    ensures Offer(cfg, art, source).Some?
  {
    var d := cfg.crypto.sha256(Derive(cfg.crypto, cfg.content, TransferFor(source, art.targetHash)));
    EncodeDecode(art.targetHash);
    EncodeDecode(d);
  }

  lemma ValidKeyHasNoBar(k: ArtifactKey)
    requires ValidKey(k)
    ensures '|' !in KeyString(k)
  {
  }

  /** A memoized manifest found for a registered artifact is its offer. */
  lemma HitIsOffer(cfg: Config, s: Server, name: string, source: string)
    requires Inv(cfg, s) && name in s.reg.artifacts && (source == "" || IsValidHash(source))
    ensures var art := s.reg.artifacts[name]; var hit := Lookup(s.memo, MemoKey(art, source));
            hit.Some? ==> Source(cfg, source) && hit == Offer(cfg, art, source)
  {
    hide StoreInv, Genuine, Lookup, DistinctKeys, Offer, KeyString, ValidKey, ManifestKey;
    var art := s.reg.artifacts[name];
    var k := MemoKey(art, source);
    if Lookup(s.memo, k).Some? {
      var n, f :| n in s.reg.artifacts && Source(cfg, f) && k == MemoKey(s.reg.artifacts[n], f)
                  && Offer(cfg, s.reg.artifacts[n], f) == Lookup(s.memo, k);
      var other := s.reg.artifacts[n];
      assert GoodArtifact(cfg, art, name) && GoodArtifact(cfg, other, n);
      ValidKeyHasNoBar(art.key);
      ValidKeyHasNoBar(other.key);
      ManifestKeyInjective(KeyString(art.key), source, art.targetHash, KeyString(other.key), f, other.targetHash);
    }
  }

  lemma MemoPut(cfg: Config, s: Server, name: string, source: string)
    requires MemoInv(cfg, s) && cfg.cacheSize >= 1 && name in s.reg.artifacts && Source(cfg, source)
    requires Offer(cfg, s.reg.artifacts[name], source).Some?
    ensures var art := s.reg.artifacts[name];
            MemoInv(cfg, s.(memo := CountedPut(s.memo, cfg.cacheSize, MemoKey(art, source), Offer(cfg, art, source).value)))
  {
    hide Lookup, DistinctKeys, Offer, MemoKey, Source, CountedPut, Has, Without;
    var art := s.reg.artifacts[name];
    var k, v := MemoKey(art, source), Offer(cfg, art, source).value;
    CountedPutLaws(s.memo, cfg.cacheSize, k, v);
    var r := CountedPut(s.memo, cfg.cacheSize, k, v);
    assert Backed(cfg, s.reg, k, v);
    forall j | Lookup(r, j).Some? ensures Backed(cfg, s.reg, j, Lookup(r, j).value) {
      CountedPutReads(s.memo, cfg.cacheSize, k, v, j);
    }
  }

  lemma MemoTouch(cfg: Config, s: Server, k: string)
    requires MemoInv(cfg, s)
    ensures MemoInv(cfg, s.(memo := Touch(s.memo, k)))
  {
    hide Lookup, DistinctKeys, Touch, Backed;
    TouchLaws(s.memo, k);
    assert |multiset(Touch(s.memo, k))| == |multiset(s.memo)|;
  }

  lemma ResolvedIsRegistered(cfg: Config, r: RegState, name: string)
    requires RegInv(cfg, r) && Resolve(r, name).Ok?
    ensures var art := Resolve(r, name).value;
            KeyString(art.key) in r.artifacts && r.artifacts[KeyString(art.key)] == art && Genuine(cfg, art.targetHash)
  {
    hide Genuine, KeyString, ParseArtifactKey;
  }

  /** What can be offered at once. */
  predicate Ready(s: Server, art: Artifact, source: string) {
    var t := TransferFor(source, art.targetHash);
    || Lookup(s.memo, MemoKey(art, source)).Some? || Lookup(s.store.hot, HotKey(t)).Some? || t in s.store.derived
    || (source == "" && art.targetHash in s.store.binaries)
  }

  /** What a heartbeat is answered: the outcome of Build, with nothing of how it is reached. */
  function Answer(cfg: Config, s: Server, hb: Heartbeat): Built {
    if !ValidHeartbeat(hb) then Err(BadHeartbeat)
    else match Resolve(s.reg, hb.artifact)
         case Err(e) => Err(Unresolved(e))
         case Ok(art) =>
           var source := SourceKey(cfg, s.store, hb.versionHash, art.targetHash);
           if hb.versionHash == art.targetHash || (source == "" && !cfg.allowFull) then Ok(NoUpdate(KeyString(art.key)))
           else if Ready(s, art, source) then (match Offer(cfg, art, source) case Some(r) => Ok(r) case None => Err(BadDigest))
           else if source == "" then Err(TargetMissing)
           else Ok(RetryLater(cfg, art))
  }

  lemma GoodTarget(cfg: Config, art: Artifact, source: string)
    requires Genuine(cfg, art.targetHash) && Source(cfg, source)
    ensures IsValidHash(art.targetHash) && ValidTransfer(TransferFor(source, art.targetHash)) && (source != "" ==> IsValidHash(source))
  {}

  lemma MemoOnly(cfg: Config, s: Server, store: Store)
    ensures MemoInv(cfg, s) <==> MemoInv(cfg, s.(store := store))
  {
    hide Lookup, DistinctKeys, Backed;
  }

  /** BuildFresh keeps the invariant, answers the offer when the bytes can be had, and dispatches otherwise. */
  lemma BuildFreshLaws(cfg: Config, s: Server, name: string, source: string)
    requires Inv(cfg, s) && cfg.crypto.Lawful() && cfg.cacheSize >= 1 && name in s.reg.artifacts && Source(cfg, source)
    requires Lookup(s.memo, MemoKey(s.reg.artifacts[name], source)).None?
    ensures var art := s.reg.artifacts[name];
      var (built, s') := BuildFresh(cfg, s, art, source);
      && Inv(cfg, s') && s'.reg == s.reg
      && (Ready(s, art, source) ==> Offer(cfg, art, source).Some? && built == Ok(Offer(cfg, art, source).value))
      && (!Ready(s, art, source) ==> built == if source == "" then Err(TargetMissing) else Ok(RetryLater(cfg, art)))
  {
    hide StoreInv, Genuine, Lookup, HotKey, MemoKey, Sign, Derive, GetDelta, GetFull, CountedPut, MemoInv, IsValidHash;
    var art := s.reg.artifacts[name];
    assert GoodArtifact(cfg, art, name);
    GoodTarget(cfg, art, source);
    OfferExists(cfg, art, source);
    if source == "" { GetFullLaws(cfg, s.store, art.targetHash); } else { GetDeltaLaws(cfg, s.store, source, art.targetHash); }
    MemoPut(cfg, s, name, source);
    var (found, store) := if source == "" then GetFull(cfg, s.store, art.targetHash) else GetDelta(cfg, s.store, source, art.targetHash);
    assert found.Some? <==> Ready(s, art, source);
    var s' := BuildFresh(cfg, s, art, source).1;
    if found.Some? {
      assert s' == s.(memo := s'.memo).(store := store);
      MemoOnly(cfg, s.(memo := s'.memo), store);
    } else {
      assert s' == s.(store := store);
      MemoOnly(cfg, s, store);
    }
  }

  lemma EmptyIsNoHash(cfg: Config, hash: string)
    requires Genuine(cfg, hash)
    ensures hash != "" && IsValidHash(hash)
  {}

  lemma EmptyIsInvalid()
    ensures !IsValidHash("")
  {}

  /** Build answers what it should, whatever happens to be cached, and keeps the invariant. */
  lemma BuildLaws(cfg: Config, s: Server, hb: Heartbeat)
    requires Inv(cfg, s) && cfg.crypto.Lawful() && cfg.cacheSize >= 1
    ensures Build(cfg, s, hb).0 == Answer(cfg, s, hb)
    ensures Inv(cfg, Build(cfg, s, hb).1) && Build(cfg, s, hb).1.reg == s.reg
  {
    hide StoreInv, RegInv, MemoInv, Genuine, IsValidHash, Lookup, MemoKey, Offer, Resolve, ValidHeartbeat, CanDiff, BuildFresh, Touch, KeyString;
    if ValidHeartbeat(hb) && Resolve(s.reg, hb.artifact).Ok? {
      var art := Resolve(s.reg, hb.artifact).value;
      ResolvedIsRegistered(cfg, s.reg, hb.artifact);
      EmptyIsNoHash(cfg, art.targetHash);
      EmptyIsInvalid();
      if hb.versionHash != art.targetHash {
        var source := SourceKey(cfg, s.store, hb.versionHash, art.targetHash);
        HitIsOffer(cfg, s, KeyString(art.key), source);
        OfferExists(cfg, art, source);
        MemoTouch(cfg, s, MemoKey(art, source));
        if Lookup(s.memo, MemoKey(art, source)).None? && !(source == "" && !cfg.allowFull) {
          BuildFreshLaws(cfg, s, KeyString(art.key), source);
        }
      }
    }
  }

  lemma TargetIsNotEmpty(cfg: Config, r: RegState, key: ArtifactKey, hash: string)
    requires Genuine(cfg, hash) && TrackOf(r, key).targetHash == hash
    ensures KeyString(key) in r.artifacts
  {
    EmptyIsNoHash(cfg, hash);
  }

  lemma SameText(a: Artifact, b: Artifact)
    requires KeyString(a.key) == KeyString(b.key) && a.targetHash == b.targetHash
    ensures forall f :: MemoKey(a, f) == MemoKey(b, f)
  {}

  lemma SameSign(cfg: Config, a: Artifact, b: Artifact, source: string)
    requires KeyString(a.key) == KeyString(b.key) && a.version == b.version && a.targetHash == b.targetHash && a.targetSize == b.targetSize
    ensures Offer(cfg, a, source) == Offer(cfg, b, source)
  {}

  lemma SameOffers(cfg: Config, s: Server, key: ArtifactKey, version: string, data: Bytes, source: string, now: int)
    requires Inv(cfg, s) && Genuine(cfg, cfg.crypto.sha256(data)) && ValidKey(key)
    requires cfg.content(cfg.crypto.sha256(data)) == data && !Changes(s.reg, key, version, cfg.crypto.sha256(data))
    ensures MemoInv(cfg, WithPublish(cfg, s, key, version, data, source, now))
  {
    hide StoreInv, Genuine, Lookup, DistinctKeys, Derive, Sign, ManifestKey, IsValidHash;
    var h := cfg.crypto.sha256(data);
    var ks := KeyString(key);
    var r' := WithTarget(s.reg, key, version, h, |data|, source, now, cfg.depth);
    TargetIsNotEmpty(cfg, s.reg, key, h);
    var old_, new_ := s.reg.artifacts[ks], r'.artifacts[ks];
    assert GoodArtifact(cfg, old_, ks);
    SameText(old_, new_);
    forall k, resp | Backed(cfg, s.reg, k, resp) ensures Backed(cfg, r', k, resp) {
      var name, src :| name in s.reg.artifacts && Source(cfg, src)
        && k == MemoKey(s.reg.artifacts[name], src) && Offer(cfg, s.reg.artifacts[name], src) == Some(resp);
      assert name in r'.artifacts;
      if name == ks { SameSign(cfg, old_, new_, src); }
      assert k == MemoKey(r'.artifacts[name], src) && Offer(cfg, r'.artifacts[name], src) == Some(resp);
    }
  }

  lemma EmptyMemo(cfg: Config, s: Server)
    requires s.memo == []
    ensures MemoInv(cfg, s)
  {}

  /** A publish that changes neither bytes nor label leaves every memoized manifest right; any other clears them. */
  lemma PublishInv(cfg: Config, s: Server, key: ArtifactKey, version: string, data: Bytes, source: string, now: int)
    requires Inv(cfg, s) && cfg.crypto.Lawful() && ValidKey(key) && Represents(cfg.crypto, cfg.content, data)
    ensures Inv(cfg, WithPublish(cfg, s, key, version, data, source, now))
  {
    hide StoreInv, Genuine, Lookup, DistinctKeys, Derive, KeyString, ValidKey, Sign, ManifestKey;
    var s' := WithPublish(cfg, s, key, version, data, source, now);
    var h := cfg.crypto.sha256(data);
    RegisteredLaws(cfg, s.store, data);
    assert cfg.content(h) == data;
    assert RegInv(cfg, s'.reg);
    if !Changes(s.reg, key, version, h) {
      SameOffers(cfg, s, key, version, data, source, now);
    } else {
      EmptyMemo(cfg, s');
    }
  }

  lemma HotOnly(cfg: Config, s: Store, hot: Order<Bytes>)
    requires StoreInv(cfg, s) && HotInv(cfg, hot)
    ensures StoreInv(cfg, s.(hot := hot))
  {
    hide HotInv, Genuine, Derive, ValidTransfer;
  }

  lemma PendingOnly(cfg: Config, s: Store, pending: set<Transfer>)
    requires StoreInv(cfg, s)
    ensures StoreInv(cfg, s.(pending := pending))
  {
    hide HotInv, Genuine, Derive, ValidTransfer;
  }

  lemma RemoveInv(cfg: Config, s: Server, key: ArtifactKey)
    requires Inv(cfg, s)
    ensures Inv(cfg, WithRemove(s, key))
  {
    hide StoreInv, Genuine, KeyString, ValidKey;
  }

  lemma DefaultInv(cfg: Config, s: Server, key: string)
    requires Inv(cfg, s)
    ensures Inv(cfg, s.(reg := s.reg.(defaultKey := key)))
  {
    hide StoreInv, Genuine, KeyString, ValidKey, Lookup, Offer, DistinctKeys;
    var r' := s.reg.(defaultKey := key);
    forall k, resp | Backed(cfg, s.reg, k, resp) ensures Backed(cfg, r', k, resp) {
      var name, src :| name in s.reg.artifacts && Source(cfg, src)
        && k == MemoKey(s.reg.artifacts[name], src) && Offer(cfg, s.reg.artifacts[name], src) == Some(resp);
      assert name in r'.artifacts;
    }
  }

  lemma StepInv(cfg: Config, s: Server, e: Event)
    requires Inv(cfg, s) && cfg.crypto.Lawful() && cfg.cacheSize >= 1 && HonestEvent(cfg, e)
    ensures Inv(cfg, Step(cfg, s, e))
  {
    hide StoreInv, RegInv, MemoInv, Build, WithPublish, WithRemove, Registered, GetDelta, GetFull, Generated, Swept, Represents, ValidKey, KeyString;
    MemoOnly(cfg, s, Step(cfg, s, e).store);
    match e
    case Register(data) => RegisteredLaws(cfg, s.store, data);
    case Publish(key, version, data, source, now) =>
      if ValidKey(key) { PublishInv(cfg, s, key, version, data, source, now); }
    case Remove(key) => RemoveInv(cfg, s, key);
    case SetDefault(key) => DefaultInv(cfg, s, KeyString(key));
    case Beat(hb) => BuildLaws(cfg, s, hb);
    case Fetch(t) =>
      if ValidTransfer(t) {
        match t
        case Delta(f, to) => GetDeltaLaws(cfg, s.store, f, to);
        case Full(h) => GetFullLaws(cfg, s.store, h);
      }
    case Generate(f, to) => GeneratedLaws(cfg, s.store, f, to);
    case Fail(f, to) => PendingOnly(cfg, s.store, s.store.pending - {Delta(f, to)});
    case Sweep(ts, hs, cut) => SweptLaws(cfg, s.store, ts, hs, cut);
    case Restart =>
      EmptyHot(cfg);
      HotOnly(cfg, s.store, []);
      PendingOnly(cfg, s.store.(hot := []), {});
      EmptyMemo(cfg, Step(cfg, s, e));
  }

  lemma EmptyInv(cfg: Config)
    ensures Inv(cfg, EMPTY)
  {}

  lemma {:induction false} RunInv(cfg: Config, events: seq<Event>)
    requires Honest(cfg, events)
    ensures Inv(cfg, Run(cfg, EMPTY, events))
  {
    hide Inv, Step, HonestEvent;
    if events == [] {
      EmptyInv(cfg);
    } else {
      RunInv(cfg, events[..|events| - 1]);
      StepInv(cfg, Run(cfg, EMPTY, events[..|events| - 1]), events[|events| - 1]);
    }
  }

  lemma ReachableInv(cfg: Config, s: Server)
    requires Reachable(cfg, s)
    ensures Inv(cfg, s) && cfg.crypto.Lawful() && cfg.cacheSize >= 1
  {
    hide Inv, Run, HonestEvent;
    var events :| Honest(cfg, events) && Run(cfg, EMPTY, events) == s;
    RunInv(cfg, events);
  }
}
