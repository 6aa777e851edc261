/** Whether a confirmed binary can still be rolled back. Confirming removes the counter and then the marker, and a
    removal is durable only at the next fsync of its directory (`pkg/agent/watchdog.go`, `updater.go`). */
module Confirmation {
  import opened Wrappers
  import opened Acceptance
  import opened Device
  import opened DeviceSafety
  import opened DeviceCounterexamples

  /** What happens without another update: boots, their health windows, kills and power losses. */
  predicate WithoutUpdate(e: Event) {
    match e
    case Boot(_) => true
    case HealthOk => true
    case HealthFailed => true
    case ResetCounter => true
    case ClearMarker => true
    case ClearCooldown => true
    case Killed => true
    case PowerLoss(_, _, _) => true
    case _ => false
  }

  /** Some run from `s` without another update decides to roll back. */
  ghost predicate MayRollBack(cfg: Config, s: State) {
    exists events :: (forall i :: 0 <= i < |events| ==> WithoutUpdate(events[i]))
      && Run(cfg, s, events).Some? && Run(cfg, s, events).value.proc.RollingBack?
  }

  /** This much of link and files would have the next boot find a marker naming the active binary. */
  ghost predicate Returns(cfg: Config, d: Disk, l: nat, i: nat, j: nat) {
    l < |d.Links()| && d.MayLeave(cfg.layout, i, j) && d.Image(i, j).Names(Sha(cfg, d.Image(i, j).At(d.Links()[l])))
  }

  /** A removal of the marker is still unsettled, for an active binary the marker names. */
  ghost predicate MarkerMayReturn(cfg: Config, d: Disk) {
    exists l: nat, i: nat, j: nat :: Returns(cfg, d, l, i, j)
  }

  /** The boot after a power loss rolls back at once exactly when the marker returns with a spent counter. */
  lemma NextBootRollsBackIff(cfg: Config, s: State, l: nat, i: nat, j: nat, y: bool)
    requires Step(cfg, s, PowerLoss(l, i, j)).Some? && Allowed(cfg.lossy, Boot(y))
    ensures var t := Step(cfg, s, PowerLoss(l, i, j)).value;
      && Step(cfg, t, Boot(y)).Some?
      && (Step(cfg, t, Boot(y)).value.proc.RollingBack?
          <==> Returns(cfg, s.disk, l, i, j) && s.disk.Image(i, j).CountFor(Sha(cfg, t.disk.Active())) >= cfg.maxBoots)
  {
    hide Sha;
  }

  lemma RunThree(cfg: Config, s: State, a: Event, t: State, b: Event, u: State, c: Event, v: State)
    requires Step(cfg, s, a) == Some(t) && Step(cfg, t, b) == Some(u) && Step(cfg, u, c) == Some(v)
    ensures Run(cfg, s, [a, b]) == Some(u) && Run(cfg, s, [a, b, c]) == Some(v)
  {
    hide Step;
    assert [a][..0] == [] && [a, b][..1] == [a] && [a, b, c][..2] == [a, b];
    assert Run(cfg, s, []) == Some(s);
    assert Run(cfg, s, [a]) == Some(t);
    assert Run(cfg, s, [a, b]) == Some(u);
  }

  lemma ItRollsBack(cfg: Config, s: State, events: seq<Event>)
    requires forall i :: 0 <= i < |events| ==> WithoutUpdate(events[i])
    requires Run(cfg, s, events).Some? && Run(cfg, s, events).value.proc.RollingBack?
    ensures MayRollBack(cfg, s)
  {
    hide Run;
  }

  lemma ReturnedMarkerIsSeen(cfg: Config, s: State, l: nat, i: nat, j: nat)
    requires Returns(cfg, s.disk, l, i, j)
    ensures Step(cfg, s, PowerLoss(l, i, j)).Some?
    ensures var t := Step(cfg, s, PowerLoss(l, i, j)).value;
      && Step(cfg, t, Boot(true)).Some?
      && var u := Step(cfg, t, Boot(true)).value;
         && (u.proc.Watching? || u.proc.RollingBack?) && Step(cfg, u, Killed).Some?
         && (u.proc.Watching? ==> Step(cfg, u, HealthFailed).Some? && Step(cfg, u, HealthFailed).value.proc.RollingBack?)
  {
    hide Sha, Accept, Unforged, Files.CountFor;
  }

  lemma ReturnedMarkerRollsBack(cfg: Config, s: State, l: nat, i: nat, j: nat)
    requires Returns(cfg, s.disk, l, i, j)
    ensures MayRollBack(cfg, s)
  {
    hide MayRollBack, Step, Run, Returns;
    ReturnedMarkerIsSeen(cfg, s, l, i, j);
    var lost := PowerLoss(l, i, j);
    var t := Step(cfg, s, lost).value;
    var u := Step(cfg, t, Boot(true)).value;
    var v := Step(cfg, u, if u.proc.Watching? then HealthFailed else Killed).value;
    RunThree(cfg, s, lost, t, Boot(true), u, if u.proc.Watching? then HealthFailed else Killed, v);
    ItRollsBack(cfg, s, if u.proc.Watching? then [lost, Boot(true), HealthFailed] else [lost, Boot(true)]);
  }

  /** Nothing may return, and no marker is being acted on. */
  ghost predicate Quiet(cfg: Config, s: State) {
    !MarkerMayReturn(cfg, s.disk) && (s.proc.Booting? || s.proc.Idle?)
  }

  /** A change that leaves the slots alone and adds no marker brings none back. */
  lemma ChangedReturns(cfg: Config, d: Disk, f: Files, l: nat, i: nat, j: nat)
    requires f.a == d.files.a && f.b == d.files.b && (f.marker.None? || f.marker == d.files.marker)
    requires Returns(cfg, d.Changed(f), l, i, j)
    ensures MarkerMayReturn(cfg, d)
  {
    hide Sha;
    var n := |d.older|;
    var c := d.Changed(f);
    var i', j' := if i < n then i else n, if j < n then j else n;
    assert d.MayLeave(cfg.layout, i', j');
    assert d.Images()[i'].a == c.Images()[i].a && d.Images()[i'].b == c.Images()[i].b;
    assert d.Images()[j'].marker == c.Images()[j].marker;
    assert Returns(cfg, d, l, i', j');
  }

  lemma ChangedStaysQuiet(cfg: Config, d: Disk, f: Files)
    requires f.a == d.files.a && f.b == d.files.b && (f.marker.None? || f.marker == d.files.marker)
    ensures MarkerMayReturn(cfg, d.Changed(f)) ==> MarkerMayReturn(cfg, d)
  {
    hide Returns, Disk.Changed;
    if MarkerMayReturn(cfg, d.Changed(f)) {
      var l: nat, i: nat, j: nat :| Returns(cfg, d.Changed(f), l, i, j);
      ChangedReturns(cfg, d, f, l, i, j);
    }
  }

  lemma LostStaysQuiet(cfg: Config, d: Disk, l: nat, i: nat, j: nat)
    requires l < |d.Links()| && d.MayLeave(cfg.layout, i, j)
    ensures MarkerMayReturn(cfg, PowerLost(d, l, i, j)) ==> MarkerMayReturn(cfg, d)
  {
    hide Sha;
    var c := PowerLost(d, l, i, j);
    if l': nat, i': nat, j': nat :| Returns(cfg, c, l', i', j') {
      assert c.Image(i', j') == d.Image(i, j);
      assert Returns(cfg, d, l, i, j);
    }
  }

  lemma CachedDoesNotName(cfg: Config, d: Disk)
    requires !MarkerMayReturn(cfg, d)
    ensures !d.files.Names(Sha(cfg, d.Active()))
  {
    hide Sha;
    var n := |d.older|;
    assert d.Image(n, n) == d.files && d.Links()[|d.links|] == d.link;
    assert !Returns(cfg, d, |d.links|, n, n);
  }

  lemma QuietStep(cfg: Config, s: State, e: Event)
    requires Quiet(cfg, s) && WithoutUpdate(e) && Step(cfg, s, e).Some?
    ensures Quiet(cfg, Step(cfg, s, e).value)
  {
    hide Sha, MarkerMayReturn, Disk.Changed, PowerLost;
    var d := s.disk;
    CachedDoesNotName(cfg, d);
    ChangedStaysQuiet(cfg, d, d.files.(marker := None));
    ChangedStaysQuiet(cfg, d, d.files.(cooldown := None));
    match e
    case PowerLoss(l, i, j) => LostStaysQuiet(cfg, d, l, i, j);
    case _ =>
  }

  lemma {:induction false} QuietRun(cfg: Config, s: State, events: seq<Event>)
    requires Quiet(cfg, s) && (forall i :: 0 <= i < |events| ==> WithoutUpdate(events[i])) && Run(cfg, s, events).Some?
    ensures Quiet(cfg, Run(cfg, s, events).value)
  {
    hide Quiet, Step, WithoutUpdate;
    if events == [] {
      assert Run(cfg, s, events) == Some(s);
    } else {
      QuietRun(cfg, s, events[..|events| - 1]);
      QuietStep(cfg, Run(cfg, s, events[..|events| - 1]).value, events[|events| - 1]);
    }
  }

  /** In steady state, and without another update, a device can still roll back exactly when a power loss may bring
      back a marker naming the active binary, confirmed or not. */
  lemma SteadyRollsBackIff(cfg: Config, s: State)
    requires s.proc.Idle?
    ensures MayRollBack(cfg, s) <==> MarkerMayReturn(cfg, s.disk)
  {
    hide Step, Returns, WithoutUpdate;
    if MarkerMayReturn(cfg, s.disk) {
      var l: nat, i: nat, j: nat :| Returns(cfg, s.disk, l, i, j);
      ReturnedMarkerRollsBack(cfg, s, l, i, j);
    } else if MayRollBack(cfg, s) {
      var events :| (forall i :: 0 <= i < |events| ==> WithoutUpdate(events[i]))
        && Run(cfg, s, events).Some? && Run(cfg, s, events).value.proc.RollingBack?;
      QuietRun(cfg, s, events);
      assert false;
    }
  }

  lemma NothingReturns(cfg: Config, d: Disk)
    requires d.older == [] && d.files.marker.None?
    ensures !MarkerMayReturn(cfg, d)
  {}

  /** Which is never so once the removals have been settled. */
  lemma SettledNeverRollsBack(cfg: Config, s: State)
    requires Lawful(cfg) && Reachable(cfg, s) && cfg.layout.Shared? && s.proc.Idle? && s.disk.older == []
    ensures !MayRollBack(cfg, s)
  {
    hide MayRollBack, MarkerMayReturn, Reachable, AllLand;
    ReachableLands(cfg, s);
    SteadyRollsBackIff(cfg, s);
    NothingReturns(cfg, s.disk);
  }

  lemma CountedTwice(s: State) returns (t: State)
    requires From(Cfg(Shared, ALL_SYNCED), s) && s.proc.Booting? && s.disk.files.boots.None? && s.disk.links == []
    requires s.disk.files.Names(Digest(s.disk.Active()))
    ensures From(Cfg(Shared, ALL_SYNCED), t) && t.proc.Confirmed? && t.disk.files.boots.None?
    ensures t.disk.link == s.disk.link && t.disk.links == [] && t.disk.Active() == s.disk.Active()
    ensures Digest(t.disk.Active()) in t.confirmed && |t.disk.older| == 1 && t.disk.older[0].Names(Digest(s.disk.Active()))
    ensures t.disk.older[0].a == s.disk.files.a && t.disk.older[0].b == s.disk.files.b
    ensures t.disk.older[0].CountFor(Digest(s.disk.Active())) == 2
  {
    hide From, Accept, Unforged, Digest, Offer;
    var cfg := Cfg(Shared, ALL_SYNCED);
    t := DeviceCounterexamples.Next(cfg, s, Boot(true));
    t := DeviceCounterexamples.Next(cfg, t, Killed);
    t := DeviceCounterexamples.Next(cfg, t, Boot(true));
    t := DeviceCounterexamples.Next(cfg, t, HealthOk);
    t := DeviceCounterexamples.Next(cfg, t, ResetCounter);
  }

  /** It does happen: two boots, the second healthy, the counter removed, and a power loss that brings it back with
      the marker. The next boot rolls the confirmed binary back at once. */
  lemma ConfirmedCanBeRolledBack() returns (s: State, i: nat)
    ensures Reachable(Cfg(Shared, ALL_SYNCED), s) && s.proc.Confirmed? && s.disk.files.boots.None?
    ensures Digest(s.disk.Active()) in s.confirmed
    ensures var t := Step(Cfg(Shared, ALL_SYNCED), s, PowerLoss(0, i, i));
      && t.Some? && Step(Cfg(Shared, ALL_SYNCED), t.value, Boot(true)).Some?
      && Step(Cfg(Shared, ALL_SYNCED), t.value, Boot(true)).value.proc.RollingBack?
      && t.value.disk.Active() == s.disk.Active()
  {
    hide From, Reachable;
    var cfg := Cfg(Shared, ALL_SYNCED);
    DigestsDiffer();
    s := Booted(Shared, ALL_SYNCED);
    s := Cycle(Shared, ALL_SYNCED, s, N, true, true);
    s := DeviceCounterexamples.Next(cfg, s, RestartOk);
    s := CountedTwice(s);
    FromIsReachable(Shared, ALL_SYNCED, s);
    i := 0;
    NextBootRollsBackIff(cfg, s, 0, 0, 0, true);
  }

  // ---------------------------------------------------------------------------
  // A counter that is left behind
  // ---------------------------------------------------------------------------

  lemma RunFive(cfg: Config, s: State, a: Event, t: State, b: Event, u: State, c: Event, v: State, d: Event, w: State, e: Event, x: State)
    requires Step(cfg, s, a) == Some(t) && Step(cfg, t, b) == Some(u) && Step(cfg, u, c) == Some(v)
    requires Step(cfg, v, d) == Some(w) && Step(cfg, w, e) == Some(x)
    ensures Run(cfg, s, [a, b, c, d, e]) == Some(x)
  {
    hide Step;
    RunThree(cfg, s, a, t, b, u, c, v);
    assert [a, b, c, d][..3] == [a, b, c] && [a, b, c, d, e][..4] == [a, b, c, d];
    assert Run(cfg, s, [a, b, c, d]) == Some(w);
  }

  /** A cycle carried through from a verified binary to its first boot. */
  function ThroughToTheBoot(slot: bool, marker: bool, link: bool, boots: bool): seq<Event> {
    [StageSlot(slot), WriteMarker(marker), FlipLink(link), RestartOk, Boot(boots)]
  }

  /** The protocol's states from a verified binary to its restart. */
  function Restarting(cfg: Config, s: State, slot: bool, marker: bool, link: bool): State
    requires s.proc.Ready?
  {
    var u := MarkedFrom(cfg, StagedFrom(cfg, s, slot), marker);
    Flipped(u, link, Swapped(s.proc.previous, s.proc.target)).(proc := Booting)
  }

  lemma RestartingKeeps(cfg: Config, s: State, slot: bool, marker: bool, link: bool)
    requires s.proc.Ready?
    ensures var w := Restarting(cfg, s, slot, marker, link);
      && w.proc.Booting? && w.disk.Active() == s.proc.bin && w.disk.files.boots == s.disk.files.boots
      && w.disk.files.marker == Some(Marker(s.proc.previous, s.proc.target))
  {
  }

  lemma CycleSteps(cfg: Config, s: State, slot: bool, marker: bool, link: bool) returns (t: State, u: State, v: State)
    requires s.proc.Ready?
    requires Allowed(cfg.lossy, StageSlot(slot)) && Allowed(cfg.lossy, WriteMarker(marker)) && Allowed(cfg.lossy, FlipLink(link))
    ensures Step(cfg, s, StageSlot(slot)) == Some(t) && Step(cfg, t, WriteMarker(marker)) == Some(u)
    ensures Step(cfg, u, FlipLink(link)) == Some(v) && Step(cfg, v, RestartOk) == Some(Restarting(cfg, s, slot, marker, link))
  {
    hide Sha, Accept, Unforged, Disk.WroteSlots, Disk.WroteState, Disk.Linked, Files.Written;
    t := StagedFrom(cfg, s, slot);
    u := MarkedFrom(cfg, t, marker);
    v := Flipped(u, link, Swapped(s.proc.previous, s.proc.target));
  }

  /** The first boot of a binary opens the health window exactly when the count persisted for it when it was staged is
      not spent; otherwise it is rolled back without having been looked at. */
  lemma FirstBootIsWatchedIff(cfg: Config, s: State, slot: bool, marker: bool, link: bool, boots: bool)
    requires Lawful(cfg) && Reachable(cfg, s) && cfg.layout.Shared? && s.proc.Ready?
    requires Allowed(cfg.lossy, StageSlot(slot)) && Allowed(cfg.lossy, WriteMarker(marker)) && Allowed(cfg.lossy, FlipLink(link))
    requires Allowed(cfg.lossy, Boot(boots))
    ensures var run := Run(cfg, s, ThroughToTheBoot(slot, marker, link, boots));
      && run.Some? && run.value.disk.Active() == s.proc.bin
      && (run.value.proc.Watching? <==> s.disk.files.CountFor(s.proc.target) < cfg.maxBoots)
      && (run.value.proc.RollingBack? <==> s.disk.files.CountFor(s.proc.target) >= cfg.maxBoots)
  {
    hide Reachable, AllLand, Step, Run, Lawful, Restarting;
    ReachableLands(cfg, s);
    var t, u, v := CycleSteps(cfg, s, slot, marker, link);
    var w := Restarting(cfg, s, slot, marker, link);
    RestartingKeeps(cfg, s, slot, marker, link);
    BootIs(cfg, w, boots);
    RunFive(cfg, s, StageSlot(slot), t, WriteMarker(marker), u, FlipLink(link), v, RestartOk, w, Boot(boots), BootStep(cfg, w, boots));
  }

  /** Two boots cut short, and a third that gives up. */
  lemma Spent(s: State) returns (t: State)
    requires From(Cfg(Shared, ALL_SYNCED), s) && s.proc.Booting? && s.disk.files.boots.None?
    requires s.disk.files.Names(Digest(s.disk.Active()))
    ensures From(Cfg(Shared, ALL_SYNCED), t) && t.proc.RollingBack? && t.disk.link == s.disk.link
    ensures t.disk.files == s.disk.files.(boots := Some(BootCount(Digest(s.disk.Active()), 3)))
  {
    hide From, Accept, Unforged, Digest, Offer;
    var cfg := Cfg(Shared, ALL_SYNCED);
    t := DeviceCounterexamples.Next(cfg, s, Boot(true));
    t := DeviceCounterexamples.Next(cfg, t, Killed);
    t := DeviceCounterexamples.Next(cfg, t, Boot(true));
    t := DeviceCounterexamples.Next(cfg, t, Killed);
    t := DeviceCounterexamples.Next(cfg, t, Boot(true));
  }

  lemma SpentAndFlipped(s: State) returns (t: State)
    requires From(Cfg(Shared, ALL_SYNCED), s) && s.proc.Booting? && s.disk.files.boots.None?
    requires s.disk.files.Names(Digest(s.disk.Active())) && Digest(s.disk.Active()) != Digest(s.disk.Inactive())
    ensures From(Cfg(Shared, ALL_SYNCED), t) && t.proc.Idle? && t.disk.Active() == s.disk.Inactive()
    ensures t.disk.files.CountFor(Digest(s.disk.Active())) == 3
  {
    hide From, Accept, Unforged, Digest, Offer;
    var cfg := Cfg(Shared, ALL_SYNCED);
    t := Spent(s);
    t := DeviceCounterexamples.Next(cfg, t, FlipLink(true));
    t := DeviceCounterexamples.Next(cfg, t, Killed);
    t := DeviceCounterexamples.Next(cfg, t, Boot(true));
  }

  /** And a count can be left spent: by a kill between the flip of a rollback and the removal of the counter. */
  lemma RollbackLeavesItsCounter() returns (s: State)
    ensures Reachable(Cfg(Shared, ALL_SYNCED), s) && s.proc.Idle? && s.disk.Active() == P
    ensures s.disk.files.CountFor(Digest(N)) >= Cfg(Shared, ALL_SYNCED).maxBoots
  {
    hide From, Reachable, Digest;
    DigestsDiffer();
    var cfg := Cfg(Shared, ALL_SYNCED);
    s := Booted(Shared, ALL_SYNCED);
    s := Cycle(Shared, ALL_SYNCED, s, N, true, true);
    s := DeviceCounterexamples.Next(cfg, s, RestartOk);
    s := SpentAndFlipped(s);
    FromIsReachable(Shared, ALL_SYNCED, s);
  }
}
