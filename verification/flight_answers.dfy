/** Concurrent requests get what they ask for: while the binaries of a transfer stay in the store, a delta's file is not
    swept and no generation of it fails, nobody is told that it is missing, whatever else goes on. */
module FlightAnswers {
  import opened Wrappers
  import opened Hex
  import opened Names
  import opened Primitives
  import opened Flights

  /** The binaries `t` is made of. */
  function PartsOf(t: Transfer): set<string> {
    match t
    case Delta(f, to) => {f, to}
    case Full(h) => {h}
  }

  /** No binary of `t` is removed, nor a delta's file, and none of the requests in `ids` is cancelled, over the budget or
      failed by the generator; all requests for `t` are in `ids`. A packed whole binary may be swept at any moment. */
  predicate Spares(e: Event, t: Transfer, ids: set<nat>) {
    match e
    case Spawn(id, _, u) => u == t ==> id in ids
    case Move(id, pick, _) => pick || id !in ids
    case DropBinary(h) => h !in PartsOf(t)
    case DropDerived(u) => u != t || t.Full?
    case _ => true
  }

  /** A generation ends with its file in place, a download of a whole binary with bytes, and one of a delta with bytes
      unless the delta still had to be generated. */
  predicate Earned(d: Data, q: Request, r: Answer, was: bool) {
    match q.kind
    case GetFull => r.Got?
    case GetDelta => r.Got? || (r.Missing? && !was)
    case _ => r.Path? && (q.t.Full? || q.t in d.derived)
  }

  /** Where a request may stand that is on its way to its answer. `was` tells whether the file was there to begin with. */
  predicate OnItsWay(d: Data, q: Request, was: bool) {
    var made := q.t.Full? || q.t in d.derived;
    match q.pc
    case Start => true
    case Regen => q.kind.GetFull?
    case ReadCall => made && (q.kind.GetDelta? || q.kind.GetFull?)
    case ReadWait => made && (q.kind.GetDelta? || q.kind.GetFull?)
    case ReadLead => made && (q.kind.GetDelta? || q.kind.GetFull?)
    case Fetched(_) => q.kind.GetDelta? || q.kind.GetFull?
    case ReadClose(r) => (r.Got? || (r.Missing? && q.kind.GetFull?)) && (q.kind.GetDelta? || q.kind.GetFull?)
    case Stored(_) => made && !q.kind.GetDelta?
    case GenEnd(r) => !q.kind.GetDelta? && if q.t.Delta? then r.Path? && made else r.Got?
    case GenClose(r) => !q.kind.GetDelta? && if q.t.Delta? then r.Path? && made else r.Got?
    case Done(r) => Earned(d, q, r, was)
    case _ => !q.kind.GetDelta?
  }

  ghost predicate Going(s: State, t: Transfer, ids: set<nat>, was: bool) {
    && PartsOf(t) <= s.data.binaries.Keys && (was ==> t.Delta? && t in s.data.derived)
    && forall id :: id in s.requests && s.requests[id].t == t ==> id in ids && OnItsWay(s.data, s.requests[id], was)
  }

  lemma LooksFind(cfg: Config, d: Data, q: Request, was: bool)
    requires Fits(q.kind, q.t) && PartsOf(q.t) <= d.binaries.Keys && (was ==> q.t.Delta? && q.t in d.derived)
    ensures OnItsWay(d, q.(pc := Arrive(d, q, true)), was)
    ensures !q.kind.GetDelta? ==> OnItsWay(d, q.(pc := Lead(cfg, d, q.t)), was)
    ensures q.t.Delta? && !q.kind.GetDelta? ==> OnItsWay(d, q.(pc := Diff(cfg, d, q.t)), was)
    ensures (q.t.Full? || q.t in d.derived) && (q.kind.GetDelta? || q.kind.GetFull?) ==> OnItsWay(d, q.(pc := Fetch(d, q.t)), was)
  {
    hide ValidTransfer;
  }

  lemma StepOnlyAdds(d: Data, q: Request, next: Pc, keep: bool)
    ensures var e := NextData(d, q, next, keep);
      && e.binaries == d.binaries && d.derived.Keys <= e.derived.Keys
      && (q.pc.Made? ==> q.t in e.derived)
  {
  }

  /** More files, and the same binaries, leave everybody on the way. */
  lemma StaysOnItsWay(d: Data, e: Data, q: Request, was: bool)
    requires OnItsWay(d, q, was) && (q.t in d.derived ==> q.t in e.derived)
    ensures OnItsWay(e, q, was)
  {
  }

  lemma NextIsOnItsWay(cfg: Config, s: State, id: nat, keep: bool, was: bool)
    requires id in s.requests && Next(cfg, s, id, true).Some?
    requires var q := s.requests[id];
      && Fits(q.kind, q.t) && (q.pc.Queue? || q.pc.Hold? ==> q.t.Delta?) && PartsOf(q.t) <= s.data.binaries.Keys
      && (was ==> q.t.Delta? && q.t in s.data.derived) && OnItsWay(s.data, q, was)
    ensures var q, next := s.requests[id], Next(cfg, s, id, true).value;
      OnItsWay(NextData(s.data, q, next, keep), q.(pc := next), was)
  {
    hide FlightKey, HotKey, ValidTransfer, Arrive, Lead, Diff, Fetch, NextData;
    var q, next := s.requests[id], Next(cfg, s, id, true).value;
    StepOnlyAdds(s.data, q, next, keep);
    LooksFind(cfg, s.data, q, was);
    if !q.pc.Made? {
      StaysOnItsWay(s.data, NextData(s.data, q, next, keep), q.(pc := next), was);
    }
  }

  /** Whoever joined a flight gets the answer its leader has earned. */
  lemma WokenIsOnItsWay(d: Data, q: Request, ended: Request, was: bool)
    requires Fits(q.kind, q.t) && Fits(ended.kind, ended.t) && OnItsWay(d, q, was)
    requires ended.t == q.t ==> OnItsWay(d, ended, was)
    ensures OnItsWay(d, q.(pc := Woken(q, ended)), was)
  {
    hide FlightKey, HotKey;
    if q.t != ended.t { KeysAreDistinct(q.t, ended.t); }
  }

  lemma MoveGoes(cfg: Config, s: State, t: Transfer, ids: set<nat>, was: bool, e: Event)
    requires Inv(cfg, s) && Going(s, t, ids, was) && e.Move? && Spares(e, t, ids) && Step(cfg, s, e).Some?
    ensures Going(Step(cfg, s, e).value, t, ids, was)
  {
    hide FlightKey, HotKey, Woken, Next, NextData, NextGen, NextRead, NextSlots, OnItsWay, DataInv, SlotsInv, GenInv, ReadInv, Carries, Fits;
    var s', q := Step(cfg, s, e).value, s.requests[e.id];
    Advanced(cfg, s, e.id, e.pick, e.keep);
    var next := Next(cfg, s, e.id, e.pick).value;
    StepOnlyAdds(s.data, q, next, e.keep);
    forall i | i in s'.requests && s'.requests[i].t == t ensures i in ids && OnItsWay(s'.data, s'.requests[i], was) {
      if i == e.id {
        NextIsOnItsWay(cfg, s, i, e.keep, was);
      } else {
        var r := s.requests[i];
        WokenIsOnItsWay(s.data, r, q, was);
        StaysOnItsWay(s.data, s'.data, r.(pc := Woken(r, q)), was);
      }
    }
  }

  lemma StepGoes(cfg: Config, s: State, t: Transfer, ids: set<nat>, was: bool, e: Event)
    requires Inv(cfg, s) && Going(s, t, ids, was) && !e.Move? && Spares(e, t, ids) && Step(cfg, s, e).Some?
    ensures Going(Step(cfg, s, e).value, t, ids, was)
  {
    hide Inv, Fits, Advance;
  }

  lemma {:induction false} RunGoes(cfg: Config, events: seq<Event>, later: seq<Event>, t: Transfer, ids: set<nat>, was: bool)
    requires Run(cfg, EMPTY, events).Some? && Run(cfg, EMPTY, events + later).Some?
    requires Going(Run(cfg, EMPTY, events).value, t, ids, was) && forall i :: 0 <= i < |later| ==> Spares(later[i], t, ids)
    ensures Going(Run(cfg, EMPTY, events + later).value, t, ids, was)
  {
    hide Going, Spares, Step, Inv;
    if later == [] {
      assert events + later == events;
    } else {
      var rest, e := later[..|later| - 1], later[|later| - 1];
      assert (events + later)[..|events + later| - 1] == events + rest;
      RunGoes(cfg, events, rest, t, ids, was);
      RunInv(cfg, events + rest);
      var s := Run(cfg, EMPTY, events + rest).value;
      if e.Move? { MoveGoes(cfg, s, t, ids, was, e); } else { StepGoes(cfg, s, t, ids, was, e); }
    }
  }

  lemma KindsFit(cfg: Config, events: seq<Event>)
    requires Run(cfg, EMPTY, events).Some?
    ensures var rs := Run(cfg, EMPTY, events).value.requests; forall id :: id in rs ==> (rs[id].kind.GetFull? <==> rs[id].t.Full?)
  {
    hide Run, DataInv, SlotsInv, GenInv, ReadInv, Carries, ValidTransfer;
    RunInv(cfg, events);
  }

  /** In every interleaving: when the binaries of `t` are in the store and nothing spoils it, each request for it that has
      its answer has earned it. A generation has left the file in place, a whole binary has been read or packed, even
      when its file was swept between look and read, and a delta has been read if it was there at the beginning. */
  lemma AnswersAreEarned(cfg: Config, events: seq<Event>, later: seq<Event>, t: Transfer, ids: set<nat>, id: nat)
    requires Run(cfg, EMPTY, events).Some? && Run(cfg, EMPTY, events + later).Some?
    requires PartsOf(t) <= Run(cfg, EMPTY, events).value.data.binaries.Keys
    requires forall i :: i in Run(cfg, EMPTY, events).value.requests ==> Run(cfg, EMPTY, events).value.requests[i].t != t
    requires forall i :: 0 <= i < |later| ==> Spares(later[i], t, ids)
    requires id in Run(cfg, EMPTY, events + later).value.requests
    requires var q := Run(cfg, EMPTY, events + later).value.requests[id]; q.t == t && q.pc.Done?
    ensures var s, s' := Run(cfg, EMPTY, events).value, Run(cfg, EMPTY, events + later).value;
      match s'.requests[id].kind
      case GetFull => s'.requests[id].pc.r == Got(Derive(cfg.crypto, cfg.content, t))
      case GetDelta => s'.requests[id].pc.r == Got(Derive(cfg.crypto, cfg.content, t)) || (s'.requests[id].pc.r.Missing? && t !in s.data.derived)
      case _ => s'.requests[id].pc.r.Path? && t in s'.data.derived
  {
    hide Run, Spares, Derive, PartsOf;
    RunGoes(cfg, events, later, t, ids, t.Delta? && t in Run(cfg, EMPTY, events).value.data.derived);
    CachesAgree(cfg, events + later);
    KindsFit(cfg, events + later);
  }
}
