/** Why the sweeper never takes a binary the registry needs (`pkg/server/registry.go`, `retention.go`,
    `store.go`): publishes, removals and sweeps in any order, with publishes from several callers in flight, and with
    anything happening between a sweep's look at the registry and its deletions. */
module Orphans {
  import opened Wrappers
  import opened ArtifactKeys
  import opened History
  import opened Registries

  /** A publish between RegisterBinary and setTarget. `mtime` is the file's modification time as RegisterBinary left
      it: now if it created the file, and as it was if it found it there. */
  datatype Publish = Publish(key: ArtifactKey, version: string, hash: string, mtime: nat)

  /** `files` are the binaries in the store, with their modification times; `seen` is the registry as the sweep under
      way has seen it. */
  datatype State = State(files: map<string, nat>, reg: RegState, inFlight: map<nat, Publish>, seen: Option<RegState>, now: nat)

  datatype Event =
    | Register(id: nat, key: ArtifactKey, version: string, hash: string)
    | Commit(id: nat)
    | Abandon(id: nat)
    | Remove(key: ArtifactKey)
    | BeginSweep                 // reads what is live
    | EndSweep                   // reads the clock, lists and deletes
    | Tick

  datatype Config = Config(grace: nat, depth: nat)

  /** Younger than the grace period. */
  predicate Young(cfg: Config, s: State, hash: string) {
    hash in s.files && s.now - s.files[hash] < cfg.grace
  }

  /** What a sweep keeps: everything it saw live, and everything young. */
  ghost predicate Kept(cfg: Config, s: State, seen: RegState, hash: string) {
    hash in s.files && (IsLive(seen, hash) || Young(cfg, s, hash))
  }

  function Committed(cfg: Config, s: State, id: nat): State
    requires id in s.inFlight
  {
    var p := s.inFlight[id];
    s.(reg := WithTarget(s.reg, p.key, p.version, p.hash, 0, "", s.now, cfg.depth), inFlight := s.inFlight - {id})
  }

  ghost function Swept(cfg: Config, s: State): State
    requires s.seen.Some?
  {
    s.(files := map h | h in s.files && Kept(cfg, s, s.seen.value, h) :: s.files[h], seen := None)
  }

  ghost function Step(cfg: Config, s: State, e: Event): Option<State> {
    match e
    case Register(id, key, version, hash) =>
      if id in s.inFlight || hash == "" || !ValidKey(key) then None
      else
        var p := Publish(key, version, hash, if hash in s.files then s.files[hash] else s.now);
        Some(s.(files := if hash in s.files then s.files else s.files[hash := s.now],
                inFlight := s.inFlight[id := p]))
    case Commit(id) => if id !in s.inFlight then None else Some(Committed(cfg, s, id))
    case Abandon(id) => Some(s.(inFlight := s.inFlight - {id}))
    case Remove(key) => if KeyString(key) in s.reg.artifacts then Some(s.(reg := Removed(s.reg, key))) else None
    case BeginSweep => if s.seen.Some? then None else Some(s.(seen := Some(s.reg)))
    case EndSweep => if s.seen.None? then None else Some(Swept(cfg, s))
    case Tick => Some(s.(now := s.now + 1))
  }

  ghost function Run(cfg: Config, s: State, events: seq<Event>): Option<State> {
    if events == [] then Some(s)
    else match Run(cfg, s, events[..|events| - 1])
         case None => None
         case Some(t) => Step(cfg, t, events[|events| - 1])
  }

  /** The commit comes within the grace period of the file it registered, new or old, or names bytes that are live. */
  ghost predicate Timely(cfg: Config, s: State, id: nat)
    requires id in s.inFlight
  {
    var p := s.inFlight[id];
    s.now - p.mtime < cfg.grace || IsLive(s.reg, p.hash)
  }

  /** What became live while the sweep was under way is still young when it ends. */
  ghost predicate Quick(cfg: Config, s: State)
    requires s.seen.Some?
  {
    forall h :: IsLive(s.reg, h) && !IsLive(s.seen.value, h) ==> Young(cfg, s, h)
  }

  ghost predicate AllTimely(cfg: Config, s: State, events: seq<Event>)
    requires Run(cfg, s, events).Some?
  {
    events == [] ||
    var rest, e := events[..|events| - 1], events[|events| - 1];
    var t := Run(cfg, s, rest).value;
    AllTimely(cfg, s, rest) && (e.Commit? ==> Timely(cfg, t, e.id)) && (e.EndSweep? ==> Quick(cfg, t))
  }

  /** Every current target and every history hash is in the store. */
  ghost predicate NothingMissing(s: State) {
    forall h :: IsLive(s.reg, h) ==> h in s.files
  }

  /** A file registered by a publish in flight is there, no older than it was found, until its grace is over. */
  ghost predicate Protected(cfg: Config, s: State, p: Publish) {
    && p.hash != "" && ValidKey(p.key) && p.mtime <= s.now
    && (s.now - p.mtime < cfg.grace ==> p.hash in s.files && p.mtime <= s.files[p.hash])
  }

  ghost predicate Inv(cfg: Config, s: State) {
    && NothingMissing(s) && WellFormed(s.reg)
    && (forall h :: h in s.files ==> s.files[h] <= s.now)
    && (forall id :: id in s.inFlight ==> Protected(cfg, s, s.inFlight[id]))
  }

  /** Setting a target makes its hash live and keeps nothing alive that was not, except what it supersedes. */
  lemma LiveAfterSetTarget(r: RegState, key: ArtifactKey, version: string, hash: string, now: int, depth: nat, h: string)
    requires IsLive(WithTarget(r, key, version, hash, 0, "", now, depth), h)
    ensures h == hash || IsLive(r, h)
  {
    var ks := KeyString(key);
    var s := WithTarget(r, key, version, hash, 0, "", now, depth);
    var k :| k in s.artifacts && ((s.artifacts[k].targetHash == h && h != "") || h in s.artifacts[k].history);
    if k == ks {
      var a := TrackOf(r, key);
      WithoutLaws(a.history, a.targetHash);
      if h != hash { assert h == a.targetHash != "" || h in a.history; }
    } else {
      assert r.artifacts[k] == s.artifacts[k];
    }
  }

  lemma LiveAfterRemove(r: RegState, key: ArtifactKey, h: string)
    requires KeyString(key) in r.artifacts && IsLive(Removed(r, key), h)
    ensures IsLive(r, h)
  {
    var s := Removed(r, key);
    var k :| k in s.artifacts && ((s.artifacts[k].targetHash == h && h != "") || h in s.artifacts[k].history);
    assert s.artifacts == r.artifacts - {KeyString(key)} && r.artifacts[k] == s.artifacts[k];
  }

  lemma WellFormedAfter(r: RegState, key: ArtifactKey, version: string, hash: string, now: int, depth: nat)
    requires WellFormed(r) && ValidKey(key)
    ensures hash != "" ==> WellFormed(WithTarget(r, key, version, hash, 0, "", now, depth))
    ensures KeyString(key) in r.artifacts ==> WellFormed(Removed(r, key))
  {
    hide ValidKey, KeyString;
  }

  lemma RemovedWellFormed(r: RegState, key: ArtifactKey)
    requires WellFormed(r) && KeyString(key) in r.artifacts
    ensures WellFormed(Removed(r, key))
  {
    hide ValidKey, KeyString;
  }

  /** Ending a sweep is safe exactly when what became live while it was under way is still young. */
  lemma EndSweepIsSafeIff(cfg: Config, s: State)
    requires Inv(cfg, s) && s.seen.Some?
    ensures NothingMissing(Swept(cfg, s)) <==> Quick(cfg, s)
  {
    hide IsLive;
    forall h | IsLive(s.reg, h) ensures h in Swept(cfg, s).files <==> Kept(cfg, s, s.seen.value, h) {}
  }

  lemma StepInv(cfg: Config, s: State, e: Event)
    requires Inv(cfg, s) && Step(cfg, s, e).Some? && (e.Commit? ==> Timely(cfg, s, e.id)) && (e.EndSweep? ==> Quick(cfg, s))
    ensures Inv(cfg, Step(cfg, s, e).value)
  {
    hide IsLive, WithTarget, Removed, WellFormed, ValidKey;
    var t := Step(cfg, s, e).value;
    match e
    case Commit(id) =>
      var p := s.inFlight[id];
      WellFormedAfter(s.reg, p.key, p.version, p.hash, s.now, cfg.depth);
      forall h | IsLive(t.reg, h) ensures h in t.files {
        LiveAfterSetTarget(s.reg, p.key, p.version, p.hash, s.now, cfg.depth, h);
      }
    case Remove(key) =>
      RemovedWellFormed(s.reg, key);
      forall h | IsLive(t.reg, h) ensures h in t.files { LiveAfterRemove(s.reg, key, h); }
    case EndSweep => EndSweepIsSafeIff(cfg, s);
    case _ =>
  }

  /** Over every run whose commits are timely, and whose sweeps are quick, every artifact's current target and every
      history hash stays in the store. */
  lemma {:induction false} NothingLiveIsLost(cfg: Config, s: State, events: seq<Event>)
    requires Inv(cfg, s) && Run(cfg, s, events).Some? && AllTimely(cfg, s, events)
    ensures NothingMissing(Run(cfg, s, events).value) && Inv(cfg, Run(cfg, s, events).value)
  {
    hide Step, Timely, Quick;
    if events == [] {
      assert Run(cfg, s, events) == Some(s);
    } else {
      NothingLiveIsLost(cfg, s, events[..|events| - 1]);
      StepInv(cfg, Run(cfg, s, events[..|events| - 1]).value, events[|events| - 1]);
    }
  }

  // ---------------------------------------------------------------------------
  // When a publish is safe
  // ---------------------------------------------------------------------------

  function TickCount(events: seq<Event>): nat {
    if events == [] then 0 else TickCount(events[..|events| - 1]) + if events[|events| - 1].Tick? then 1 else 0
  }

  /** What anybody but publish `id` may do. */
  predicate Other(e: Event, id: nat) {
    match e
    case Register(other, _, _, _) => other != id
    case Commit(other) => other != id
    case Abandon(other) => other != id
    case _ => true
  }

  predicate ByOthers(events: seq<Event>, id: nat) {
    forall i :: 0 <= i < |events| ==> Other(events[i], id)
  }

  lemma OthersConcat(a: seq<Event>, b: seq<Event>, id: nat)
    requires ByOthers(a, id) && ByOthers(b, id)
    ensures ByOthers(a + b, id)
  {
    hide Other;
  }

  lemma OthersOne(e: Event, id: nat)
    requires Other(e, id)
    ensures ByOthers([e], id)
  {
    hide Other;
  }

  /** The publish commits after `ticks`; until then, and for `late` after that, others publish, remove and sweep as
      they like. */
  predicate Around(before: seq<Event>, after: seq<Event>, id: nat, ticks: nat, late: nat) {
    ByOthers(before, id) && ByOthers(after, id) && TickCount(before) == ticks && TickCount(after) <= late
  }

  /** Whatever they do, its target is in the store as long as it is live. */
  ghost predicate SafeToCommit(cfg: Config, s: State, id: nat, ticks: nat, late: nat)
    requires id in s.inFlight
  {
    forall before, after :: Around(before, after, id, ticks, late) && Run(cfg, s, before + [Commit(id)] + after).Some?
      ==> var t := Run(cfg, s, before + [Commit(id)] + after).value;
          IsLive(t.reg, s.inFlight[id].hash) ==> s.inFlight[id].hash in t.files
  }

  lemma {:induction false} TicksAdd(a: seq<Event>, b: seq<Event>)
    ensures TickCount(a + b) == TickCount(a) + TickCount(b)
  {
    if b == [] {
      assert a + b == a;
    } else {
      assert (a + b)[..|a + b| - 1] == a + b[..|b| - 1];
      TicksAdd(a, b[..|b| - 1]);
    }
  }

  /** A file that will still be young stays, whatever happens. */
  lemma {:induction false} YoungStays(cfg: Config, s: State, events: seq<Event>, hash: string)
    requires Run(cfg, s, events).Some? && hash in s.files && s.now + TickCount(events) - s.files[hash] < cfg.grace
    ensures var t := Run(cfg, s, events).value;
      hash in t.files && t.files[hash] == s.files[hash] && t.now == s.now + TickCount(events)
  {
    hide IsLive, WithTarget, Removed, ValidKey;
    if events == [] {
      assert Run(cfg, s, events) == Some(s);
    } else {
      YoungStays(cfg, s, events[..|events| - 1], hash);
    }
  }

  lemma RunSnoc(cfg: Config, s: State, events: seq<Event>, e: Event)
    requires Run(cfg, s, events).Some?
    ensures Run(cfg, s, events + [e]) == Step(cfg, Run(cfg, s, events).value, e)
    ensures TickCount(events + [e]) == TickCount(events) + if e.Tick? then 1 else 0
  {
    hide Step;
    assert (events + [e])[..|events + [e]| - 1] == events;
  }

  /** Others can take everything out of the registry. */
  lemma {:induction false} RemoveAll(cfg: Config, s: State, events: seq<Event>, id: nat) returns (more: seq<Event>)
    requires Run(cfg, s, events).Some? && ByOthers(events, id) && WellFormed(Run(cfg, s, events).value.reg)
    ensures ByOthers(more, id) && TickCount(more) == TickCount(events) && Run(cfg, s, more).Some?
    ensures var t, u := Run(cfg, s, events).value, Run(cfg, s, more).value;
      u.reg.artifacts == map[] && u.files == t.files && u.inFlight == t.inFlight && u.seen == t.seen && u.now == t.now
    decreases |Run(cfg, s, events).value.reg.artifacts|
  {
    hide Run, ValidKey, KeyString, IsLive;
    var t := Run(cfg, s, events).value;
    more := events;
    if t.reg.artifacts != map[] {
      var k :| k in t.reg.artifacts;
      var key := t.reg.artifacts[k].key;
      RemovedWellFormed(t.reg, key);
      RunSnoc(cfg, s, events, Remove(key));
      assert (t.reg.artifacts - {k}).Keys == t.reg.artifacts.Keys - {k};
      assert |t.reg.artifacts.Keys - {k}| < |t.reg.artifacts.Keys|;
      more := RemoveAll(cfg, s, events + [Remove(key)], id);
    }
  }

  lemma CountSnoc(events: seq<Event>, e: Event)
    ensures TickCount(events + [e]) == TickCount(events) + if e.Tick? then 1 else 0
  {
    assert (events + [e])[..|events + [e]| - 1] == events;
  }

  lemma NoEvents(id: nat)
    ensures ByOthers([], id) && TickCount([]) == 0
  {
  }

  function Ticks(n: nat): seq<Event> {
    if n == 0 then [] else Ticks(n - 1) + [Tick]
  }

  /** And let time pass. */
  lemma {:induction false} Wait(cfg: Config, s: State, events: seq<Event>, n: nat)
    requires Run(cfg, s, events).Some?
    ensures var t := Run(cfg, s, events).value; Run(cfg, s, events + Ticks(n)) == Some(t.(now := t.now + n))
    ensures TickCount(events + Ticks(n)) == TickCount(events) + n
  {
    hide Run, TickCount;
    if n == 0 {
      assert events + Ticks(n) == events;
    } else {
      Wait(cfg, s, events, n - 1);
      RunSnoc(cfg, s, events + Ticks(n - 1), Tick);
      Regroup(events, Ticks(n - 1), [Tick]);
    }
  }

  lemma {:induction false} TicksByOthers(n: nat, id: nat)
    ensures ByOthers(Ticks(n), id) && TickCount(Ticks(n)) == n
  {
    hide ByOthers, TickCount;
    if n == 0 {
      NoEvents(id);
    } else {
      TicksByOthers(n - 1, id);
      OthersOne(Tick, id);
      OthersConcat(Ticks(n - 1), [Tick], id);
      CountSnoc(Ticks(n - 1), Tick);
    }
  }

  lemma RunNothing(cfg: Config, s: State)
    ensures Run(cfg, s, []) == Some(s)
  {
  }

  /** The registry is emptied, time passes, and a sweep looks at it. */
  lemma LookedAtNothing(cfg: Config, s: State, id: nat, ticks: nat) returns (before: seq<Event>)
    requires Inv(cfg, s) && id in s.inFlight
    ensures ByOthers(before, id) && TickCount(before) == ticks && Run(cfg, s, before).Some?
    ensures var t := Run(cfg, s, before).value;
      && t.now == s.now + ticks && t.inFlight == s.inFlight && t.reg.artifacts == map[] && t.seen == Some(t.reg)
      && forall h :: h in t.files ==> h in s.files && t.files[h] == s.files[h]
  {
    hide Run, TickCount, ByOthers, WellFormed, ValidKey, IsLive;
    RunNothing(cfg, s);
    NoEvents(id);
    before := RemoveAll(cfg, s, [], id);
    var t := Run(cfg, s, before).value;
    if t.seen.Some? {
      RunSnoc(cfg, s, before, EndSweep);
      OthersOne(EndSweep, id);
      OthersConcat(before, [EndSweep], id);
      before := before + [EndSweep];
    }
    Wait(cfg, s, before, ticks);
    TicksByOthers(ticks, id);
    OthersConcat(before, Ticks(ticks), id);
    before := before + Ticks(ticks);
    RunSnoc(cfg, s, before, BeginSweep);
    OthersOne(BeginSweep, id);
    OthersConcat(before, [BeginSweep], id);
    before := before + [BeginSweep];
  }

  lemma CommittedIsLive(cfg: Config, s: State, id: nat)
    requires id in s.inFlight && s.inFlight[id].hash != ""
    ensures IsLive(Committed(cfg, s, id).reg, s.inFlight[id].hash)
  {
    var p := s.inFlight[id];
    assert Committed(cfg, s, id).reg.artifacts[KeyString(p.key)].targetHash == p.hash;
  }

  lemma NothingIsLive(r: RegState, hash: string)
    requires r.artifacts == map[]
    ensures !IsLive(r, hash)
  {
  }

  /** Then the publish commits, and the sweep ends. */
  lemma Overtake(cfg: Config, s: State, id: nat, ticks: nat, late: nat) returns (before: seq<Event>, after: seq<Event>)
    requires Inv(cfg, s) && id in s.inFlight
    ensures Around(before, after, id, ticks, late) && Run(cfg, s, before + [Commit(id)] + after).Some?
    ensures var t := Run(cfg, s, before + [Commit(id)] + after).value;
      && IsLive(t.reg, s.inFlight[id].hash)
      && (s.inFlight[id].hash in s.files && s.now + ticks + late - s.files[s.inFlight[id].hash] >= cfg.grace ==> s.inFlight[id].hash !in t.files)
  {
    hide Run, TickCount, ByOthers, IsLive;
    var p := s.inFlight[id];
    assert p.hash != "" by { assert Protected(cfg, s, p); }
    before := LookedAtNothing(cfg, s, id, ticks);
    hide Inv;
    var t := Run(cfg, s, before).value;
    RunSnoc(cfg, s, before, Commit(id));
    Wait(cfg, s, before + [Commit(id)], late);
    RunSnoc(cfg, s, before + [Commit(id)] + Ticks(late), EndSweep);
    after := Ticks(late) + [EndSweep];
    Regroup(before + [Commit(id)], Ticks(late), [EndSweep]);
    CountSnoc(Ticks(late), EndSweep);
    TicksByOthers(late, id);
    OthersOne(EndSweep, id);
    OthersConcat(Ticks(late), [EndSweep], id);
    CommittedIsLive(cfg, t, id);
    NothingIsLive(t.reg, p.hash);
  }

  /** A publish is safe, whatever others do until it commits and while a sweep that was under way ends, exactly when the
      file it registered will still be young then. */
  lemma CommitIsSafeIff(cfg: Config, s: State, id: nat, ticks: nat, late: nat)
    requires Inv(cfg, s) && id in s.inFlight && s.inFlight[id].hash in s.files
    ensures SafeToCommit(cfg, s, id, ticks, late)
       <==> s.now + ticks + late - s.files[s.inFlight[id].hash] < cfg.grace
  {
    hide IsLive, Run, Inv, TickCount, ByOthers;
    var hash := s.inFlight[id].hash;
    if s.now + ticks + late - s.files[hash] < cfg.grace {
      forall before, after | Around(before, after, id, ticks, late) && Run(cfg, s, before + [Commit(id)] + after).Some?
        ensures hash in Run(cfg, s, before + [Commit(id)] + after).value.files
      {
        CountSnoc(before, Commit(id));
        TicksAdd(before + [Commit(id)], after);
        YoungStays(cfg, s, before + [Commit(id)] + after, hash);
      }
    } else {
      var before, after := Overtake(cfg, s, id, ticks, late);
      assert hash !in Run(cfg, s, before + [Commit(id)] + after).value.files;
    }
  }

  lemma NothingIsLiveAtAll(r: RegState)
    requires r.artifacts == map[]
    ensures forall h :: !IsLive(r, h)
  {
  }

  /** Registering bytes that are already in the store does not renew the file's age, so the grace period does
      not cover a publish of old orphaned bytes: a sweep before its commit leaves the new target missing,
      however soon the commit comes. */
  lemma OldOrphanIsNotProtected(cfg: Config, key: ArtifactKey, hash: string)
    requires cfg.grace > 0 && hash != "" && ValidKey(key)
    ensures var s := State(map[hash := 0], RegState(map[], ""), map[], None, cfg.grace);
            var events := [Register(0, key, "v", hash), BeginSweep, EndSweep, Commit(0)];
            Inv(cfg, s) && Run(cfg, s, events).Some? && !NothingMissing(Run(cfg, s, events).value)
  {
    hide Run, WithTarget, ValidKey, IsLive;
    var s := State(map[hash := 0], RegState(map[], ""), map[], None, cfg.grace);
    RunNothing(cfg, s);
    NothingIsLiveAtAll(s.reg);
    var e1: seq<Event> := [] + [Register(0, key, "v", hash)];
    RunSnoc(cfg, s, [], Register(0, key, "v", hash));
    RunSnoc(cfg, s, e1, BeginSweep);
    RunSnoc(cfg, s, e1 + [BeginSweep], EndSweep);
    RunSnoc(cfg, s, e1 + [BeginSweep] + [EndSweep], Commit(0));
    assert e1 + [BeginSweep] + [EndSweep] + [Commit(0)] == [Register(0, key, "v", hash), BeginSweep, EndSweep, Commit(0)];
    CommittedIsLive(cfg, Run(cfg, s, e1 + [BeginSweep] + [EndSweep]).value, 0);
  }

  /** And a sweep that looked at the registry before a commit may take the new target after it, if it ends when the
      file is no longer young: however timely the commit was. */
  lemma SlowSweepTakesTheTarget(cfg: Config, key: ArtifactKey, hash: string)
    requires cfg.grace > 0 && hash != "" && ValidKey(key)
    ensures var s := State(map[hash := 0], RegState(map[], ""), map[0 := Publish(key, "v", hash, 0)], Some(RegState(map[], "")), 0);
      && Inv(cfg, s) && Timely(cfg, s, 0)
      && Run(cfg, s, [Commit(0)] + Ticks(cfg.grace) + [EndSweep]).Some?
      && !NothingMissing(Run(cfg, s, [Commit(0)] + Ticks(cfg.grace) + [EndSweep]).value)
  {
    hide Run, WithTarget, ValidKey, IsLive;
    var s := State(map[hash := 0], RegState(map[], ""), map[0 := Publish(key, "v", hash, 0)], Some(RegState(map[], "")), 0);
    RunNothing(cfg, s);
    NothingIsLiveAtAll(s.reg);
    assert [] + [Commit(0)] == [Commit(0)];
    RunSnoc(cfg, s, [], Commit(0));
    CommittedIsLive(cfg, s, 0);
    Wait(cfg, s, [Commit(0)], cfg.grace);
    RunSnoc(cfg, s, [Commit(0)] + Ticks(cfg.grace), EndSweep);
  }
}
