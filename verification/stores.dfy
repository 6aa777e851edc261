/** The content-addressed store (`pkg/server/store.go`): files, the cache of recently used transfers, the
    negative cache, and the generations under way. */
module Stores {
  import opened Wrappers
  import opened Hex
  import opened Names
  import opened Recency
  import opened Lru
  import S = Serving
  import M = MissCache

  const DEFAULT_HOT_CACHE_BYTES := 512 * 1024 * 1024

  lemma AnyRoom(m: M.Misses, hash: string) returns (victim: string)
    ensures M.Room(m, hash, victim)
  {
    victim := "";
    if m - {hash} != map[] { victim :| victim in m - {hash}; }
  }

  lemma AnyEntry(m: M.Misses, hash: string, k: string)
    requires k in m - {hash}
    ensures M.Room(m, hash, k)
  {}

  class Store {
    const cfg: S.Config
    var binaries: map<string, Bytes>
    var derived: map<Transfer, Bytes>
    var miss: M.Misses
    var pending: set<Transfer>
    const hot: ByteBudgetLru

    ghost function State(): S.Store
      reads this, hot.entries
    {
      S.Store(binaries, derived, hot.Contents(), pending)
    }

    ghost function Repr(): set<object>
      reads this, hot, hot.entries
    {
      {this} + hot.Repr()
    }

    ghost predicate Valid()
      reads this, hot, hot.entries, hot.Repr()
    {
      this !in hot.Repr() && hot.Valid() && hot.cap == cfg.hotCap && M.Agrees(miss, binaries.Keys)
    }

    constructor (c: S.Config)
      ensures Valid() && fresh(Repr())
      ensures State() == S.EMPTY.store
      ensures cfg == c.(hotCap := if c.hotCap == 0 then DEFAULT_HOT_CACHE_BYTES else c.hotCap)
    {
      var cap := if c.hotCap == 0 then DEFAULT_HOT_CACHE_BYTES else c.hotCap;
      cfg := c.(hotCap := cap);
      binaries, derived, miss, pending := map[], map[], map[], {};
      hot := new ByteBudgetLru(cap);
    }

    method RegisterBinary(data: Bytes) returns (hash: string)
      requires Valid()
      modifies this
      ensures Valid() && hash == cfg.crypto.sha256(data)
      ensures State() == S.Registered(cfg, old(State()), data)
    {
      hash := cfg.crypto.sha256(data);
      if hash !in binaries { binaries := binaries[hash := data]; }
      miss := map[];
    }

    /** Whatever is cached, the answer is what is on disk. */
    method HasBinary(hash: string, now: int) returns (r: bool)
      requires Valid()
      modifies this`miss
      ensures Valid() && r == (hash in binaries)
      ensures |miss| <= 256 && (!r && (hash !in old(miss) || now >= old(miss)[hash]) ==> hash in miss && miss[hash] == now + 30)
      ensures exists victim :: M.Room(old(miss), hash, victim) && miss == M.Asked(old(miss), binaries.Keys, hash, now, victim)
    {
      hide M.Agrees, M.Room, M.Recorded, ByteBudgetLru.Valid;
      ghost var before, disk := miss, binaries.Keys;
      ghost var victim := AnyRoom(before, hash);
      M.AskedAgrees(before, disk, hash, now, victim);
      M.NoEntry(before, hash);
      if hash in miss {
        if now < miss[hash] { return false; }
        miss := miss - {hash};
      }
      r := hash in binaries;
      if r { return; }
      var m := miss;
      if |m| >= M.CAP {
        var k :| k in m;
        victim := k;
        AnyEntry(before, hash, k);
        M.AskedAgrees(before, disk, hash, now, victim);
        m := m - {k};
      }
      m := m[hash := now + M.TTL];
      M.RecordedIs(before - {hash}, hash, now, victim);
      miss := m;
    }

    method CanDiff(from: string, to: string) returns (ok: bool)
      ensures ok == S.CanDiff(cfg, State(), from, to)
    {
      if cfg.maxSourceBytes <= 0 { return true; }
      if Delta(from, to) in derived { return true; }
      var sides, i := [from, to], 0;
      while i < 2
        invariant 0 <= i <= 2
        invariant forall j :: 0 <= j < i ==> !S.TooBig(cfg, State(), sides[j])
      {
        if sides[i] in binaries && |binaries[sides[i]]| > cfg.maxSourceBytes {
          assert S.TooBig(cfg, State(), sides[i]);
          return false;
        }
        i := i + 1;
      }
      assert !S.TooBig(cfg, State(), sides[0]) && !S.TooBig(cfg, State(), sides[1]);
      return true;
    }

    method StartDeltaGeneration(from: string, to: string, now: int) returns (dispatched: bool)
      requires Valid()
      modifies this`miss, this`pending
      ensures Valid() && State() == S.StartGeneration(cfg, old(State()), from, to)
      ensures dispatched ==> Delta(from, to) in pending
    {
      hide M.Agrees, M.Asked, M.Room, ByteBudgetLru.Valid, S.CanDiff;
      if Delta(from, to) in derived { return false; }
      var hasFrom := HasBinary(from, now);
      if !hasFrom { return false; }
      var hasTo := HasBinary(to, now);
      if !hasTo { return false; }
      var ok := CanDiff(from, to);
      if !ok { return false; }
      pending := pending + {Delta(from, to)};
      return true;
    }

    /** RAM, then disk. */
    method GetCached(t: Transfer) returns (found: Option<Bytes>)
      requires Valid()
      modifies hot.Repr()
      ensures Valid() && fresh(Repr() - old(Repr()))
      ensures (found, State()) == S.GetCached(cfg, old(State()), t)
    {
      hide M.Agrees, ByteBudgetLru.Valid, Lookup, Touch, BudgetPut, HotKey;
      TouchMiss(hot.Contents(), HotKey(t));
      found := hot.Get(HotKey(t));
      if found.Some? { return; }
      if t !in derived { return None; }
      found := hot.Get(HotKey(t));
      if found.Some? { return; }
      var data := derived[t];
      var _ := hot.Put(HotKey(t), data);
      return Some(data);
    }

    method GetDeltaBytes(from: string, to: string, now: int) returns (found: Option<Bytes>)
      requires Valid()
      modifies Repr()
      ensures Valid() && fresh(Repr() - old(Repr()))
      ensures (found, State()) == S.GetDelta(cfg, old(State()), from, to)
    {
      hide M.Agrees, ByteBudgetLru.Valid, S.StartGeneration, HotKey, Lookup, Touch, BudgetPut;
      found := GetCached(Delta(from, to));
      if found.None? { var _ := StartDeltaGeneration(from, to, now); }
    }

    method GetBinaryBytes(hash: string, now: int) returns (found: Option<Bytes>)
      requires Valid()
      modifies Repr()
      ensures Valid() && fresh(Repr() - old(Repr()))
      ensures (found, State()) == S.GetFull(cfg, old(State()), hash)
    {
      hide M.Agrees, ByteBudgetLru.Valid, HotKey, Lookup, Touch, BudgetPut;
      var t := Full(hash);
      TouchMiss(hot.Contents(), HotKey(t));
      found := hot.Get(HotKey(t));
      if found.Some? { return; }
      if t in derived {
        found := GetCached(t);
        return;
      }
      var has := HasBinary(hash, now);
      if !has { return None; }
      found := hot.Get(HotKey(t));
      if found.Some? { return; }
      var packed := cfg.crypto.compress(binaries[hash]);
      derived := derived[t := packed];
      var _ := hot.Put(HotKey(t), packed);
      return Some(packed);
    }

    /** The goroutine behind StartDeltaGeneration, run to its end. */
    method GenerateAndCacheDelta(from: string, to: string)
      requires Valid()
      modifies Repr()
      ensures Valid() && fresh(Repr() - old(Repr()))
      ensures State() == S.Generated(cfg, old(State()), from, to)
    {
      hide M.Agrees, ByteBudgetLru.Valid, HotKey, BudgetPut;
      var t := Delta(from, to);
      pending := pending - {t};
      if t in derived || from !in binaries || to !in binaries { return; }
      var patch := cfg.crypto.generate(binaries[from], binaries[to]);
      derived := derived[t := patch];
      var _ := hot.Put(HotKey(t), patch);
    }

    method InvalidateHot()
      requires Valid()
      modifies hot.Repr()
      ensures Valid() && Repr() == old(Repr()) && State() == old(State()).(hot := [])
    {
      hot.Clear();
    }
  }
}
