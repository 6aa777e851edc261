/** Concurrent generation and reading of derived artifacts (`pkg/server/store.go`): any number of requests,
    the two singleflight groups, the generation slots, both RAM caches, and a sweeper, interleaved step by step. */
module Flights {
  import opened Wrappers
  import opened Hex
  import opened Names
  import opened Primitives

  /** EnsureDelta, the goroutine of StartDeltaGeneration, GetDeltaBytes, GetBinaryBytes. */
  datatype Kind = Ensure | Async | GetDelta | GetFull

  datatype Answer = Missing | Path | Got(bytes: Bytes)

  /** Where a request stands. */
  datatype Pc =
    | Start
    | Regen               // a read found nothing: is there still a binary to compress?
    | Call                // about to call genGroup.Do
    | GenWait             // joined somebody else's generation
    | GenLead             // inside the generation closure
    | Queue               // waiting for a slot
    | Hold                // holding a slot
    | Made(bytes: Bytes)  // generated, not yet on disk
    | Stored(bytes: Bytes)
    | GenEnd(r: Answer)   // leaving the closure, slot still held
    | GenClose(r: Answer) // flight about to end
    | ReadCall            // about to call readGroup.Do
    | ReadWait
    | ReadLead
    | Fetched(bytes: Bytes)
    | ReadClose(r: Answer)
    | Done(r: Answer)

  datatype Request = Request(kind: Kind, t: Transfer, pc: Pc)

  /** `binaries` and `derived` are on disk, `hot` and `targets` in RAM. */
  datatype Data = Data(
    binaries: map<string, Bytes>,
    derived: map<Transfer, Bytes>,
    hot: map<Transfer, Bytes>,
    targets: map<string, Bytes>)

  /** `gen` and `read` are the flights, each with the request that leads it; `slots` the requests holding a
      generation slot. */
  datatype State = State(data: Data, gen: map<string, nat>, read: map<string, nat>, slots: set<nat>, requests: map<nat, Request>)

  /** `content` is what each digest stands for among the binaries ever registered. */
  datatype Config = Config(crypto: Crypto, content: string -> Bytes, concurrency: nat)

  datatype Event =
    | Spawn(id: nat, kind: Kind, t: Transfer)
    | Move(id: nat, pick: bool, keep: bool)   // `pick` and `keep` settle what the model leaves open
    | AddBinary(data: Bytes)
    | DropBinary(hash: string)
    | DropDerived(t: Transfer)
    | DropHot(t: Transfer)           // eviction
    | ClearHot
    | DropTarget(hash: string)

  /** Where a request that has just arrived goes, after a look at the caches. */
  function Arrive(d: Data, q: Request, pick: bool): Pc {
    match q.kind
    case Ensure => if q.t in d.derived then Done(Path) else if pick then Call else Done(Missing)
    case Async => Call
    case GetDelta =>
      if q.t in d.hot then Done(Got(d.hot[q.t])) else if q.t in d.derived then ReadCall else Done(Missing)
    case GetFull =>
      if q.t in d.hot then Done(Got(d.hot[q.t])) else if q.t in d.derived then ReadCall else Regen
  }

  /** Inside the closure: is it there by now? Otherwise a delta queues for a slot and a whole binary is packed. */
  function Lead(cfg: Config, d: Data, t: Transfer): Pc {
    match t
    case Delta(_, _) => if t in d.derived then GenEnd(Path) else Queue
    case Full(h) =>
      if t in d.hot then GenEnd(Got(d.hot[t]))
      else if h in d.binaries then Made(cfg.crypto.compress(d.binaries[h]))
      else GenEnd(Missing)
  }

  /** The target of a diff, from RAM if it is there. */
  function Target(d: Data, to: string): Option<Bytes> {
    if to in d.targets then Some(d.targets[to]) else if to in d.binaries then Some(d.binaries[to]) else None
  }

  /** With a slot: look again, load both binaries, diff. */
  function Diff(cfg: Config, d: Data, t: Transfer): Pc {
    match t
    case Full(_) => GenEnd(Missing)
    case Delta(from, to) =>
      if t in d.derived then GenEnd(Path)
      else if from !in d.binaries || Target(d, to).None? then GenEnd(Missing)
      else Made(cfg.crypto.generate(d.binaries[from], Target(d, to).value))
  }

  /** Leading a read: is it hot by now, and is the file still there? */
  function Fetch(d: Data, t: Transfer): Pc {
    if t in d.hot then ReadClose(Got(d.hot[t]))
    else if t in d.derived then Fetched(d.derived[t])
    else ReadClose(Missing)
  }

  /** A whole binary that vanished before it could be read is made again. */
  function AfterRead(kind: Kind, r: Answer): Pc {
    if kind.GetFull? && r.Missing? then Regen else Done(r)
  }

  /** Where a request goes next; None when it has finished or must wait. `pick` false is a cancelled context,
      a size over the budget, or a generator that failed. */
  function Next(cfg: Config, s: State, id: nat, pick: bool): Option<Pc>
    requires id in s.requests
  {
    var q := s.requests[id];
    match q.pc
    case Start => Some(Arrive(s.data, q, pick))
    case Regen => Some(if pick && q.t.Full? && q.t.hash in s.data.binaries then Call else Done(Missing))
    case Call => Some(if FlightKey(q.t) in s.gen then GenWait else GenLead)
    case GenWait => None
    case GenLead => Some(if pick then Lead(cfg, s.data, q.t) else GenEnd(Missing))
    case Queue => if |s.slots| < cfg.concurrency then Some(Hold) else None
    case Hold => Some(if pick then Diff(cfg, s.data, q.t) else GenEnd(Missing))
    case Made(b) => Some(Stored(b))
    case Stored(b) => Some(GenEnd(if q.t.Full? then Got(b) else Path))
    case GenEnd(r) => Some(GenClose(r))
    case GenClose(r) => Some(Done(r))
    case ReadCall => Some(if HotKey(q.t) in s.read then ReadWait else ReadLead)
    case ReadWait => None
    case ReadLead => Some(Fetch(s.data, q.t))
    case Fetched(b) => Some(ReadClose(Got(b)))
    case ReadClose(r) => Some(AfterRead(q.kind, r))
    case Done(_) => None
  }

  /** What the step does to disk and caches. `keep` tells whether a cache accepts an entry. */
  function NextData(d: Data, q: Request, next: Pc, keep: bool): Data {
    match q.pc
    case Hold =>
      if keep && next.Made? && q.t.Delta? && Target(d, q.t.to).Some?
      then d.(targets := d.targets[q.t.to := Target(d, q.t.to).value]) else d
    case Made(b) => d.(derived := d.derived[q.t := b])
    case Stored(b) => if keep then d.(hot := d.hot[q.t := b]) else d
    case Fetched(b) => if keep then d.(hot := d.hot[q.t := b]) else d
    case _ => d
  }

  function NextSlots(slots: set<nat>, id: nat, pc: Pc, next: Pc): set<nat> {
    if next.Hold? then slots + {id} else if pc.GenEnd? then slots - {id} else slots
  }

  function NextGen(gen: map<string, nat>, id: nat, q: Request, next: Pc): map<string, nat> {
    if q.pc.GenClose? then gen - {FlightKey(q.t)}
    else if next.GenLead? then gen[FlightKey(q.t) := id] else gen
  }

  function NextRead(read: map<string, nat>, id: nat, q: Request, next: Pc): map<string, nat> {
    if q.pc.ReadClose? then read - {HotKey(q.t)}
    else if next.ReadLead? then read[HotKey(q.t) := id] else read
  }

  /** Where the end of `ended`'s flight leaves another request: everyone who joined gets the leader's answer. */
  function Woken(q: Request, ended: Request): Pc {
    if ended.pc.GenClose? && q.pc.GenWait? && FlightKey(q.t) == FlightKey(ended.t) then Done(ended.pc.r)
    else if ended.pc.ReadClose? && q.pc.ReadWait? && HotKey(q.t) == HotKey(ended.t) then AfterRead(q.kind, ended.pc.r)
    else q.pc
  }

  function Advance(cfg: Config, s: State, id: nat, pick: bool, keep: bool): Option<State>
    requires id in s.requests
  {
    var q := s.requests[id];
    match Next(cfg, s, id, pick)
    case None => None
    case Some(next) =>
      Some(State(
        NextData(s.data, q, next, keep),
        NextGen(s.gen, id, q, next),
        NextRead(s.read, id, q, next),
        NextSlots(s.slots, id, q.pc, next),
        map i | i in s.requests :: s.requests[i].(pc := if i == id then next else Woken(s.requests[i], q))))
  }

  predicate Fits(kind: Kind, t: Transfer) {
    ValidTransfer(t) && (kind.GetFull? <==> t.Full?)
  }

  /** Registrations, sweeps and evictions. */
  ghost function Outside(cfg: Config, d: Data, e: Event): Data {
    match e
    case AddBinary(b) => if Represents(cfg.crypto, cfg.content, b) then d.(binaries := d.binaries[cfg.crypto.sha256(b) := b]) else d
    case DropBinary(h) => d.(binaries := d.binaries - {h})
    case DropDerived(t) => d.(derived := d.derived - {t})
    case DropHot(t) => d.(hot := d.hot - {t})
    case ClearHot => d.(hot := map[])
    case DropTarget(h) => d.(targets := d.targets - {h})
    case _ => d
  }

  ghost function Step(cfg: Config, s: State, e: Event): Option<State> {
    match e
    case Spawn(id, kind, t) =>
      if id in s.requests || !Fits(kind, t) then None
      else Some(s.(requests := s.requests[id := Request(kind, t, Start)]))
    case Move(id, pick, keep) => if id in s.requests then Advance(cfg, s, id, pick, keep) else None
    case _ => Some(s.(data := Outside(cfg, s.data, e)))
  }

  ghost function Run(cfg: Config, s: State, events: seq<Event>): Option<State> {
    if events == [] then Some(s)
    else match Run(cfg, s, events[..|events| - 1])
         case None => None
         case Some(t) => Step(cfg, t, events[|events| - 1])
  }

  const EMPTY := State(Data(map[], map[], map[], map[]), map[], map[], {}, map[])

  // ---------------------------------------------------------------------------
  // Invariant
  // ---------------------------------------------------------------------------

  predicate HoldsSlot(pc: Pc, t: Transfer) {
    t.Delta? && (pc.Hold? || pc.Made? || pc.Stored?)
  }

  predicate MayHoldSlot(pc: Pc) { pc.Hold? || pc.Made? || pc.Stored? || pc.GenEnd? }

  predicate LeadsGen(pc: Pc) {
    pc.GenLead? || pc.Queue? || pc.Hold? || pc.Made? || pc.Stored? || pc.GenEnd? || pc.GenClose?
  }

  predicate LeadsRead(pc: Pc) { pc.ReadLead? || pc.Fetched? || pc.ReadClose? }

  predicate Truthful(cfg: Config, t: Transfer, r: Answer) {
    r.Got? ==> r.bytes == Derive(cfg.crypto, cfg.content, t)
  }

  /** Whatever bytes a request carries are those of its key. */
  predicate Carries(cfg: Config, q: Request) {
    match q.pc
    case Made(b) => b == Derive(cfg.crypto, cfg.content, q.t)
    case Stored(b) => b == Derive(cfg.crypto, cfg.content, q.t)
    case Fetched(b) => b == Derive(cfg.crypto, cfg.content, q.t)
    case GenEnd(r) => Truthful(cfg, q.t, r)
    case GenClose(r) => Truthful(cfg, q.t, r)
    case ReadClose(r) => Truthful(cfg, q.t, r)
    case Done(r) => Truthful(cfg, q.t, r)
    case _ => true
  }

  ghost predicate DataInv(cfg: Config, d: Data) {
    && (forall h :: h in d.binaries ==> d.binaries[h] == cfg.content(h))
    && (forall h :: h in d.targets ==> d.targets[h] == cfg.content(h))
    && (forall t :: t in d.derived ==> d.derived[t] == Derive(cfg.crypto, cfg.content, t))
    && (forall t :: t in d.hot ==> d.hot[t] == Derive(cfg.crypto, cfg.content, t))
  }

  ghost predicate SlotsInv(cfg: Config, s: State) {
    && |s.slots| <= cfg.concurrency
    && (forall id :: id in s.slots ==> id in s.requests && MayHoldSlot(s.requests[id].pc))
    && (forall id :: id in s.requests && HoldsSlot(s.requests[id].pc, s.requests[id].t) ==> id in s.slots)
  }

  ghost predicate GenInv(s: State) {
    && (forall k :: k in s.gen ==> s.gen[k] in s.requests && LeadsGen(s.requests[s.gen[k]].pc) && FlightKey(s.requests[s.gen[k]].t) == k)
    && (forall id :: id in s.requests && LeadsGen(s.requests[id].pc) ==> FlightKey(s.requests[id].t) in s.gen && s.gen[FlightKey(s.requests[id].t)] == id)
    && (forall id :: id in s.requests && s.requests[id].pc.GenWait? ==> FlightKey(s.requests[id].t) in s.gen)
  }

  ghost predicate ReadInv(s: State) {
    && (forall k :: k in s.read ==> s.read[k] in s.requests && LeadsRead(s.requests[s.read[k]].pc) && HotKey(s.requests[s.read[k]].t) == k)
    && (forall id :: id in s.requests && LeadsRead(s.requests[id].pc) ==> HotKey(s.requests[id].t) in s.read && s.read[HotKey(s.requests[id].t)] == id)
    && (forall id :: id in s.requests && s.requests[id].pc.ReadWait? ==> HotKey(s.requests[id].t) in s.read)
  }

  ghost predicate RequestsInv(cfg: Config, s: State) {
    forall id :: id in s.requests ==>
      Fits(s.requests[id].kind, s.requests[id].t) && Carries(cfg, s.requests[id])
      && (s.requests[id].pc.Queue? || s.requests[id].pc.Hold? ==> s.requests[id].t.Delta?)
  }

  ghost predicate Inv(cfg: Config, s: State) {
    DataInv(cfg, s.data) && SlotsInv(cfg, s) && GenInv(s) && ReadInv(s) && RequestsInv(cfg, s)
  }

  // ---------------------------------------------------------------------------
  // Preservation
  // ---------------------------------------------------------------------------

  lemma DataMoves(cfg: Config, s: State, id: nat, pick: bool, keep: bool)
    requires id in s.requests && DataInv(cfg, s.data) && Carries(cfg, s.requests[id]) && Next(cfg, s, id, pick).Some?
    ensures DataInv(cfg, NextData(s.data, s.requests[id], Next(cfg, s, id, pick).value, keep))
  {
    hide FlightKey, HotKey, Derive, Next;
  }

  /** Answers found in the caches, and what a leader computes, are what the key stands for. */
  lemma LooksAreTruthful(cfg: Config, d: Data, q: Request, pick: bool)
    requires DataInv(cfg, d)
    ensures Carries(cfg, q.(pc := Arrive(d, q, pick))) && Carries(cfg, q.(pc := Lead(cfg, d, q.t)))
    ensures Carries(cfg, q.(pc := Fetch(d, q.t)))
    ensures Lead(cfg, d, q.t).Queue? ==> q.t.Delta?
  {
  }

  lemma DiffIsTruthful(cfg: Config, d: Data, q: Request)
    requires DataInv(cfg, d)
    ensures Carries(cfg, q.(pc := Diff(cfg, d, q.t)))
  {
  }

  lemma LooksGo(cfg: Config, d: Data, q: Request, pick: bool)
    ensures var pc := Arrive(d, q, pick); !pc.Queue? && !pc.Hold?
    ensures var pc := Lead(cfg, d, q.t); !pc.Hold?
    ensures var pc := Diff(cfg, d, q.t); !pc.Queue? && !pc.Hold?
    ensures var pc := Fetch(d, q.t); !pc.Queue? && !pc.Hold?
  {
  }

  lemma NextCarries(cfg: Config, s: State, id: nat, pick: bool)
    requires id in s.requests && DataInv(cfg, s.data) && Carries(cfg, s.requests[id]) && Next(cfg, s, id, pick).Some?
    requires s.requests[id].pc.Queue? || s.requests[id].pc.Hold? ==> s.requests[id].t.Delta?
    ensures var q := s.requests[id].(pc := Next(cfg, s, id, pick).value);
            Carries(cfg, q) && (q.pc.Queue? || q.pc.Hold? ==> q.t.Delta?)
  {
    hide FlightKey, HotKey, Derive, DataInv, Arrive, Lead, Diff, Fetch;
    LooksAreTruthful(cfg, s.data, s.requests[id], pick);
    DiffIsTruthful(cfg, s.data, s.requests[id]);
    LooksGo(cfg, s.data, s.requests[id], pick);
  }

  /** Only waiting requests are woken, into Done or Regen, and only by the end of their own flight. */
  lemma Wakes(q: Request, ended: Request)
    ensures var pc := Woken(q, ended);
      || pc == q.pc
      || (pc.Done? && ended.pc.GenClose? && q.pc.GenWait? && pc.r == ended.pc.r)
      || ((pc.Done? || (pc.Regen? && q.kind.GetFull?)) && ended.pc.ReadClose? && q.pc.ReadWait? && (pc.Done? ==> pc.r == ended.pc.r))
    ensures ended.pc.GenClose? && q.pc.GenWait? && FlightKey(q.t) == FlightKey(ended.t) ==> Woken(q, ended).Done?
    ensures ended.pc.ReadClose? && q.pc.ReadWait? && HotKey(q.t) == HotKey(ended.t) ==> !Woken(q, ended).ReadWait?
    ensures Woken(q, ended) != q.pc ==> FlightKey(q.t) == FlightKey(ended.t) || HotKey(q.t) == HotKey(ended.t)
  {
    hide FlightKey, HotKey;
  }

  lemma WokenCarries(cfg: Config, q: Request, ended: Request)
    requires ValidTransfer(q.t) && ValidTransfer(ended.t) && Carries(cfg, q) && Carries(cfg, ended)
    ensures Carries(cfg, q.(pc := Woken(q, ended)))
  {
    hide FlightKey, HotKey, Derive, Woken;
    Wakes(q, ended);
    if q.t != ended.t { KeysAreDistinct(q.t, ended.t); }
  }

  lemma RequestsMove(cfg: Config, s: State, id: nat, pick: bool, keep: bool)
    requires Inv(cfg, s) && id in s.requests && Advance(cfg, s, id, pick, keep).Some?
    ensures RequestsInv(cfg, Advance(cfg, s, id, pick, keep).value)
  {
    hide FlightKey, HotKey, Derive, Woken, Next, ValidTransfer, NextData, NextGen, NextRead, NextSlots, Carries, SlotsInv, GenInv, ReadInv;
    var s' := Advance(cfg, s, id, pick, keep).value;
    NextCarries(cfg, s, id, pick);
    forall i | i in s'.requests
      ensures Fits(s'.requests[i].kind, s'.requests[i].t) && Carries(cfg, s'.requests[i])
      ensures s'.requests[i].pc.Queue? || s'.requests[i].pc.Hold? ==> s'.requests[i].t.Delta?
    {
      if i != id {
        Wakes(s.requests[i], s.requests[id]);
        WokenCarries(cfg, s.requests[i], s.requests[id]);
      }
    }
  }

  /** Where one step can lead: flights begin at Call and ReadCall and end where they close. */
  lemma NextLeads(cfg: Config, s: State, id: nat, pick: bool)
    requires id in s.requests && Next(cfg, s, id, pick).Some?
    ensures var q, pc := s.requests[id], Next(cfg, s, id, pick).value;
      && (pc.GenLead? <==> q.pc.Call? && FlightKey(q.t) !in s.gen)
      && (pc.GenWait? <==> q.pc.Call? && FlightKey(q.t) in s.gen)
      && (pc.ReadLead? <==> q.pc.ReadCall? && HotKey(q.t) !in s.read)
      && (pc.ReadWait? <==> q.pc.ReadCall? && HotKey(q.t) in s.read)
      && (LeadsGen(pc) <==> (LeadsGen(q.pc) && !q.pc.GenClose?) || pc.GenLead?)
      && (LeadsRead(pc) <==> (LeadsRead(q.pc) && !q.pc.ReadClose?) || pc.ReadLead?)
      && (pc.Hold? <==> q.pc.Queue?) && (pc.Hold? ==> |s.slots| < cfg.concurrency)
      && (MayHoldSlot(q.pc) && !q.pc.GenEnd? ==> MayHoldSlot(pc))
      && (q.t.Delta? && HoldsSlot(pc, q.t) ==> pc.Hold? || HoldsSlot(q.pc, q.t))
  {
    hide FlightKey, HotKey, Derive;
  }

  lemma WakesNoLeader(q: Request, ended: Request)
    ensures var pc := Woken(q, ended);
      && LeadsGen(pc) == LeadsGen(q.pc) && LeadsRead(pc) == LeadsRead(q.pc)
      && MayHoldSlot(pc) == MayHoldSlot(q.pc) && HoldsSlot(pc, q.t) == HoldsSlot(q.pc, q.t)
      && (pc.GenWait? ==> q.pc.GenWait? && !(ended.pc.GenClose? && FlightKey(q.t) == FlightKey(ended.t)))
      && (pc.ReadWait? ==> q.pc.ReadWait? && !(ended.pc.ReadClose? && HotKey(q.t) == HotKey(ended.t)))
  {
    hide FlightKey, HotKey, Woken;
    Wakes(q, ended);
  }

  lemma Advanced(cfg: Config, s: State, id: nat, pick: bool, keep: bool)
    requires id in s.requests && Advance(cfg, s, id, pick, keep).Some?
    ensures var q, next, s' := s.requests[id], Next(cfg, s, id, pick), Advance(cfg, s, id, pick, keep).value;
      && next.Some? && s'.requests.Keys == s.requests.Keys && s'.requests[id] == q.(pc := next.value)
      && s'.slots == NextSlots(s.slots, id, q.pc, next.value)
      && s'.gen == NextGen(s.gen, id, q, next.value) && s'.read == NextRead(s.read, id, q, next.value)
      && (forall i :: i in s.requests && i != id ==> s'.requests[i] == s.requests[i].(pc := Woken(s.requests[i], q)))
  {
    hide NextData, NextGen, NextRead, NextSlots, Woken, Next;
  }

  /** One request in, or out, of the slots. */
  lemma SlotsFit(slots: set<nat>, id: nat, pc: Pc, next: Pc, concurrency: nat)
    requires |slots| <= concurrency && (next.Hold? ==> |slots| < concurrency)
    ensures |NextSlots(slots, id, pc, next)| <= concurrency
    ensures forall i :: i != id ==> (i in NextSlots(slots, id, pc, next) <==> i in slots)
    ensures id in NextSlots(slots, id, pc, next) <==> next.Hold? || (id in slots && !pc.GenEnd?)
  {
    if id in slots { assert slots == (slots - {id}) + {id}; }
  }

  /** A request takes a slot only where there is room, and gives it up only at the end of its generation. */
  lemma SlotSteps(cfg: Config, s: State, id: nat, pick: bool)
    requires id in s.requests && Next(cfg, s, id, pick).Some?
    ensures var q, pc := s.requests[id], Next(cfg, s, id, pick).value;
      && (pc.Hold? ==> |s.slots| < cfg.concurrency) && (pc.Hold? ==> MayHoldSlot(pc))
      && (MayHoldSlot(q.pc) && !q.pc.GenEnd? ==> MayHoldSlot(pc))
      && (HoldsSlot(pc, q.t) ==> pc.Hold? || (HoldsSlot(q.pc, q.t) && !q.pc.GenEnd?))
  {
    hide FlightKey, HotKey, Derive, LeadsGen, LeadsRead;
    NextLeads(cfg, s, id, pick);
  }

  lemma SlotsMove(cfg: Config, s: State, id: nat, pick: bool, keep: bool)
    requires SlotsInv(cfg, s) && id in s.requests && Advance(cfg, s, id, pick, keep).Some?
    ensures SlotsInv(cfg, Advance(cfg, s, id, pick, keep).value)
  {
    hide Advance, FlightKey, HotKey, Derive, Woken, Next, Fits, NextData, NextGen, NextRead, NextSlots, LeadsGen, LeadsRead, MayHoldSlot, HoldsSlot;
    var s' := Advance(cfg, s, id, pick, keep).value;
    Advanced(cfg, s, id, pick, keep);
    SlotSteps(cfg, s, id, pick);
    SlotsFit(s.slots, id, s.requests[id].pc, s'.requests[id].pc, cfg.concurrency);
    forall i | i in s'.requests && i != id
      ensures HoldsSlot(s'.requests[i].pc, s'.requests[i].t) ==> i in s'.slots
      ensures MayHoldSlot(s'.requests[i].pc) == MayHoldSlot(s.requests[i].pc)
    {
      WakesNoLeader(s.requests[i], s.requests[id]);
    }
  }

  /** What a step leaves of the requests that did not take it. */
  lemma OthersKeep(cfg: Config, s: State, id: nat, pick: bool, keep: bool)
    requires id in s.requests && Advance(cfg, s, id, pick, keep).Some?
    ensures var q, s' := s.requests[id], Advance(cfg, s, id, pick, keep).value;
      s'.requests.Keys == s.requests.Keys && forall i :: i in s.requests && i != id ==>
        var r, r' := s.requests[i], s'.requests[i];
        && r'.t == r.t && LeadsGen(r'.pc) == LeadsGen(r.pc) && LeadsRead(r'.pc) == LeadsRead(r.pc)
        && (r'.pc.GenWait? ==> r.pc.GenWait? && !(q.pc.GenClose? && FlightKey(r.t) == FlightKey(q.t)))
        && (r'.pc.ReadWait? ==> r.pc.ReadWait? && !(q.pc.ReadClose? && HotKey(r.t) == HotKey(q.t)))
  {
    hide Advance, FlightKey, HotKey, Woken, Next, NextData, NextGen, NextRead, NextSlots, LeadsGen, LeadsRead, MayHoldSlot, HoldsSlot;
    Advanced(cfg, s, id, pick, keep);
    forall i | i in s.requests && i != id ensures
      var pc, pc' := s.requests[i].pc, Woken(s.requests[i], s.requests[id]);
      LeadsGen(pc') == LeadsGen(pc) && LeadsRead(pc') == LeadsRead(pc)
    {
      WakesNoLeader(s.requests[i], s.requests[id]);
    }
    forall i | i in s.requests && i != id ensures
      var r, q, pc := s.requests[i], s.requests[id], Woken(s.requests[i], s.requests[id]);
      && (pc.GenWait? ==> r.pc.GenWait? && !(q.pc.GenClose? && FlightKey(r.t) == FlightKey(q.t)))
      && (pc.ReadWait? ==> r.pc.ReadWait? && !(q.pc.ReadClose? && HotKey(r.t) == HotKey(q.t)))
    {
      WakesNoLeader(s.requests[i], s.requests[id]);
    }
  }

  lemma GenMove(cfg: Config, s: State, id: nat, pick: bool, keep: bool)
    requires GenInv(s) && id in s.requests && Advance(cfg, s, id, pick, keep).Some?
    ensures GenInv(Advance(cfg, s, id, pick, keep).value)
  {
    hide Advance, FlightKey, HotKey, Woken, Next, Fits, NextData, NextSlots, NextRead, LeadsRead, MayHoldSlot, HoldsSlot;
    Advanced(cfg, s, id, pick, keep);
    NextLeads(cfg, s, id, pick);
    OthersKeep(cfg, s, id, pick, keep);
  }

  lemma ReadMove(cfg: Config, s: State, id: nat, pick: bool, keep: bool)
    requires ReadInv(s) && id in s.requests && Advance(cfg, s, id, pick, keep).Some?
    ensures ReadInv(Advance(cfg, s, id, pick, keep).value)
  {
    hide Advance, FlightKey, HotKey, Woken, Next, Fits, NextData, NextSlots, NextGen, LeadsGen, MayHoldSlot, HoldsSlot;
    Advanced(cfg, s, id, pick, keep);
    NextLeads(cfg, s, id, pick);
    OthersKeep(cfg, s, id, pick, keep);
  }

  lemma InvMove(cfg: Config, s: State, id: nat, pick: bool, keep: bool)
    requires Inv(cfg, s) && id in s.requests && Advance(cfg, s, id, pick, keep).Some?
    ensures Inv(cfg, Advance(cfg, s, id, pick, keep).value)
  {
    hide DataInv, SlotsInv, GenInv, ReadInv, Next, NextData, NextGen, NextRead, NextSlots, Woken, Carries, Fits;
    DataMoves(cfg, s, id, pick, keep);
    RequestsMove(cfg, s, id, pick, keep);
    SlotsMove(cfg, s, id, pick, keep);
    GenMove(cfg, s, id, pick, keep);
    ReadMove(cfg, s, id, pick, keep);
  }

  lemma InvParts(cfg: Config, s: State)
    requires Inv(cfg, s)
    ensures DataInv(cfg, s.data) && SlotsInv(cfg, s) && GenInv(s) && ReadInv(s) && RequestsInv(cfg, s)
  {
    hide DataInv, SlotsInv, GenInv, ReadInv, RequestsInv;
  }

  lemma InvWhole(cfg: Config, s: State)
    requires DataInv(cfg, s.data) && SlotsInv(cfg, s) && GenInv(s) && ReadInv(s) && RequestsInv(cfg, s)
    ensures Inv(cfg, s)
  {
    hide DataInv, SlotsInv, GenInv, ReadInv, RequestsInv;
  }

  lemma GenSpawn(s: State, id: nat, q: Request)
    requires GenInv(s) && id !in s.requests && q.pc.Start?
    ensures GenInv(s.(requests := s.requests[id := q]))
  {
    hide FlightKey;
  }

  lemma ReadSpawn(s: State, id: nat, q: Request)
    requires ReadInv(s) && id !in s.requests && q.pc.Start?
    ensures ReadInv(s.(requests := s.requests[id := q]))
  {
    hide HotKey;
  }

  lemma FlightsSpawn(cfg: Config, s: State, e: Event)
    requires Inv(cfg, s) && e.Spawn? && Step(cfg, s, e).Some?
    ensures GenInv(Step(cfg, s, e).value) && ReadInv(Step(cfg, s, e).value)
    ensures !HoldsSlot(Start, e.t)
  {
    hide FlightKey, HotKey, Derive, Advance, DataInv, SlotsInv, RequestsInv, ValidTransfer, Carries, GenInv, ReadInv;
    GenSpawn(s, e.id, Request(e.kind, e.t, Start));
    ReadSpawn(s, e.id, Request(e.kind, e.t, Start));
  }

  lemma InvSpawn(cfg: Config, s: State, e: Event)
    requires Inv(cfg, s) && e.Spawn? && Step(cfg, s, e).Some?
    ensures Inv(cfg, Step(cfg, s, e).value)
  {
    hide Inv, FlightKey, HotKey, Derive, Advance, DataInv, ValidTransfer, GenInv, ReadInv, LeadsGen, LeadsRead, HoldsSlot, MayHoldSlot;
    FlightsSpawn(cfg, s, e);
    InvParts(cfg, s);
    var s' := Step(cfg, s, e).value;
    forall i | i in s.slots ensures i in s'.requests && MayHoldSlot(s'.requests[i].pc) {}
    InvWhole(cfg, s');
  }

  lemma InvOutside(cfg: Config, s: State, e: Event)
    requires Inv(cfg, s) && !e.Spawn? && !e.Move?
    ensures Inv(cfg, Step(cfg, s, e).value)
  {
    hide FlightKey, HotKey, Derive, Advance, ValidTransfer, Carries;
  }

  lemma EmptyInv(cfg: Config)
    ensures Inv(cfg, EMPTY)
  {}

  lemma {:induction false} RunInv(cfg: Config, events: seq<Event>)
    requires Run(cfg, EMPTY, events).Some?
    ensures Inv(cfg, Run(cfg, EMPTY, events).value)
  {
    hide Inv, Advance;
    if events == [] {
      EmptyInv(cfg);
    } else {
      var e := events[|events| - 1];
      RunInv(cfg, events[..|events| - 1]);
      var s := Run(cfg, EMPTY, events[..|events| - 1]).value;
      match e
      case Spawn(_, _, _) => InvSpawn(cfg, s, e);
      case Move(id, pick, keep) => InvMove(cfg, s, id, pick, keep);
      case _ => InvOutside(cfg, s, e);
    }
  }

  // ---------------------------------------------------------------------------
  // What every interleaving keeps
  // ---------------------------------------------------------------------------

  /** Requests that are diffing: they loaded, or are about to load, two whole binaries. */
  ghost function Diffing(s: State): set<nat> {
    set id | id in s.requests && HoldsSlot(s.requests[id].pc, s.requests[id].t)
  }

  lemma SubsetSize(a: set<nat>, b: set<nat>)
    requires a <= b
    ensures |a| <= |b|
  {
    assert b == a + (b - a);
  }

  /** However many deltas are asked for, at most `concurrency` diffs are under way. */
  lemma AtMostConcurrencyDiffs(cfg: Config, events: seq<Event>)
    requires Run(cfg, EMPTY, events).Some?
    ensures |Diffing(Run(cfg, EMPTY, events).value)| <= cfg.concurrency
  {
    hide Run;
    RunInv(cfg, events);
    var s := Run(cfg, EMPTY, events).value;
    SubsetSize(Diffing(s), s.slots);
  }

  /** Two requests generating the same artifact are one request. */
  lemma OneGenerationPerKey(cfg: Config, events: seq<Event>, i: nat, j: nat)
    requires Run(cfg, EMPTY, events).Some?
    requires var rs := Run(cfg, EMPTY, events).value.requests;
             i in rs && j in rs && LeadsGen(rs[i].pc) && LeadsGen(rs[j].pc) && rs[i].t == rs[j].t
    ensures i == j
  {
    hide Run;
    RunInv(cfg, events);
  }

  /** `i` cannot go on before `j` does something: a joined flight, or a slot when none is free. */
  ghost predicate WaitsFor(cfg: Config, s: State, i: nat, j: nat) {
    i in s.requests &&
    var q := s.requests[i];
    || (q.pc.GenWait? && FlightKey(q.t) in s.gen && s.gen[FlightKey(q.t)] == j)
    || (q.pc.ReadWait? && HotKey(q.t) in s.read && s.read[HotKey(q.t)] == j)
    || (q.pc.Queue? && |s.slots| >= cfg.concurrency && j in s.slots)
  }

  /** A request never waits on a flight for another artifact: a delta and a whole binary share no flight. */
  lemma FlightsAreNotShared(cfg: Config, events: seq<Event>, i: nat, j: nat)
    requires Run(cfg, EMPTY, events).Some?
    requires i in Run(cfg, EMPTY, events).value.requests && WaitsFor(cfg, Run(cfg, EMPTY, events).value, i, j)
    requires !Run(cfg, EMPTY, events).value.requests[i].pc.Queue?
    ensures j in Run(cfg, EMPTY, events).value.requests
    ensures var rs := Run(cfg, EMPTY, events).value.requests; rs[i].t == rs[j].t
  {
    hide Run, FlightKey, HotKey, ValidTransfer;
    RunInv(cfg, events);
    var rs := Run(cfg, EMPTY, events).value.requests;
    if rs[i].t != rs[j].t { KeysAreDistinct(rs[i].t, rs[j].t); }
  }

  /** Every file, every cached entry and every answer is what its key stands for. */
  lemma CachesAgree(cfg: Config, events: seq<Event>)
    requires Run(cfg, EMPTY, events).Some?
    ensures var s := Run(cfg, EMPTY, events).value;
      && (forall t :: t in s.data.derived ==> s.data.derived[t] == Derive(cfg.crypto, cfg.content, t))
      && (forall t :: t in s.data.hot ==> s.data.hot[t] == Derive(cfg.crypto, cfg.content, t))
      && (forall h :: h in s.data.targets ==> s.data.targets[h] == cfg.content(h))
      && (forall id :: id in s.requests && s.requests[id].pc.Done? && s.requests[id].pc.r.Got? ==>
            s.requests[id].pc.r.bytes == Derive(cfg.crypto, cfg.content, s.requests[id].t))
  {
    hide Run, Derive, ValidTransfer;
    RunInv(cfg, events);
  }

  // ---------------------------------------------------------------------------
  // Nobody waits for ever
  // ---------------------------------------------------------------------------

  ghost predicate WaitChain(cfg: Config, s: State, chain: seq<nat>) {
    forall k :: 0 <= k < |chain| - 1 ==> WaitsFor(cfg, s, chain[k], chain[k + 1])
  }

  function Rank(pc: Pc): nat {
    if pc.GenWait? || pc.ReadWait? then 2 else if pc.Queue? then 1 else 0
  }

  /** Waiting goes strictly down: joined flights wait for leaders, queued leaders for slot holders, and a slot
      holder waits for nobody. */
  lemma WaitsDescend(cfg: Config, s: State, i: nat, j: nat)
    requires Inv(cfg, s) && WaitsFor(cfg, s, i, j)
    ensures j in s.requests && Rank(s.requests[j].pc) < Rank(s.requests[i].pc)
  {
    hide FlightKey, HotKey, RequestsInv, DataInv;
  }

  lemma RankRange(pc: Pc)
    ensures Rank(pc) <= 2
  {}

  /** No wait chain has more than three requests, so none is a circle. */
  lemma NoCircularWait(cfg: Config, events: seq<Event>, chain: seq<nat>)
    requires Run(cfg, EMPTY, events).Some?
    requires WaitChain(cfg, Run(cfg, EMPTY, events).value, chain)
    ensures |chain| <= 3
    ensures forall k, l :: 0 <= k < l < |chain| ==> chain[k] != chain[l]
  {
    hide Run, Inv, Rank;
    RunInv(cfg, events);
    var s := Run(cfg, EMPTY, events).value;
    if |chain| >= 2 {
      WaitsDescend(cfg, s, chain[0], chain[1]);
      if |chain| >= 3 {
        WaitsDescend(cfg, s, chain[1], chain[2]);
        RankRange(s.requests[chain[0]].pc);
        if |chain| >= 4 { WaitsDescend(cfg, s, chain[2], chain[3]); }
      }
    }
  }

  lemma Movable(cfg: Config, s: State, id: nat)
    requires id in s.requests
    ensures var pc := s.requests[id].pc;
      pc.Done? || pc.GenWait? || pc.ReadWait? || (pc.Queue? && |s.slots| >= cfg.concurrency)
      || (forall pick, keep :: Advance(cfg, s, id, pick, keep).Some?)
  {
    hide FlightKey, HotKey, Derive, NextData, NextGen, NextRead, NextSlots, Woken, Arrive, Lead, Diff, Fetch, AfterRead;
  }

  lemma Blocker(cfg: Config, s: State, id: nat) returns (j: nat)
    requires Inv(cfg, s) && cfg.concurrency > 0 && id in s.requests
    requires var pc := s.requests[id].pc; pc.GenWait? || pc.ReadWait? || (pc.Queue? && |s.slots| >= cfg.concurrency)
    ensures WaitsFor(cfg, s, id, j)
    ensures j in s.requests && !s.requests[j].pc.Done?
  {
    hide FlightKey, HotKey, RequestsInv, DataInv;
    var q := s.requests[id];
    if q.pc.GenWait? { j := s.gen[FlightKey(q.t)]; }
    else if q.pc.ReadWait? { j := s.read[HotKey(q.t)]; }
    else { j :| j in s.slots; }
  }

  lemma Mover(cfg: Config, s: State, id: nat) returns (mover: nat)
    requires Inv(cfg, s) && cfg.concurrency > 0 && id in s.requests && !s.requests[id].pc.Done?
    ensures mover in s.requests && (forall pick, keep :: Advance(cfg, s, mover, pick, keep).Some?)
    ensures mover == id || WaitsFor(cfg, s, id, mover) || (exists k :: WaitsFor(cfg, s, id, k) && WaitsFor(cfg, s, k, mover))
  {
    hide Advance, Inv;
    mover := id;
    Movable(cfg, s, id);
    var q := s.requests[id];
    if q.pc.GenWait? || q.pc.ReadWait? || (q.pc.Queue? && |s.slots| >= cfg.concurrency) {
      mover := Blocker(cfg, s, id);
      WaitsDescend(cfg, s, id, mover);
      Movable(cfg, s, mover);
      if s.requests[mover].pc.Queue? && |s.slots| >= cfg.concurrency {
        var k := mover;
        mover := Blocker(cfg, s, k);
        WaitsDescend(cfg, s, k, mover);
        Movable(cfg, s, mover);
      }
    }
  }

  /** A request that has not finished can move, or waits, at most two steps away, for one that can. */
  lemma SomebodyCanMove(cfg: Config, events: seq<Event>, id: nat) returns (mover: nat)
    requires Run(cfg, EMPTY, events).Some? && cfg.concurrency > 0
    requires var rs := Run(cfg, EMPTY, events).value.requests; id in rs && !rs[id].pc.Done?
    ensures var s := Run(cfg, EMPTY, events).value;
      && mover in s.requests && (forall pick, keep :: Advance(cfg, s, mover, pick, keep).Some?)
      && (mover == id || WaitsFor(cfg, s, id, mover) || (exists k :: WaitsFor(cfg, s, id, k) && WaitsFor(cfg, s, k, mover)))
  {
    hide Run, Advance, Inv, WaitsFor;
    RunInv(cfg, events);
    mover := Mover(cfg, Run(cfg, EMPTY, events).value, id);
  }

  /** How far a request can be from its end. */
  function Distance(pc: Pc): nat {
    match pc
    case Start => 14
    case ReadCall => 13
    case ReadWait => 12
    case ReadLead => 12
    case Fetched(_) => 11
    case ReadClose(_) => 10
    case Regen => 9
    case Call => 8
    case GenWait => 1
    case GenLead => 7
    case Queue => 6
    case Hold => 5
    case Made(_) => 4
    case Stored(_) => 3
    case GenEnd(_) => 2
    case GenClose(_) => 1
    case Done(_) => 0
  }

  lemma MovesAreBounded(cfg: Config, s: State, id: nat, pick: bool)
    requires id in s.requests && Next(cfg, s, id, pick).Some?
    ensures Distance(Next(cfg, s, id, pick).value) < Distance(s.requests[id].pc)
  {
    hide FlightKey, HotKey, Derive;
  }

  ghost function Moves(events: seq<Event>, id: nat): nat {
    if events == [] then 0
    else Moves(events[..|events| - 1], id) + (if events[|events| - 1].Move? && events[|events| - 1].id == id then 1 else 0)
  }

  lemma StartDistance()
    ensures Distance(Start) == 14
  {}

  lemma WakesCloser(q: Request, ended: Request)
    ensures Distance(Woken(q, ended)) <= Distance(q.pc)
  {
    hide FlightKey, HotKey, Woken;
    Wakes(q, ended);
  }

  /** No request takes more than fourteen steps, whatever the others do: with SomebodyCanMove, once requests stop
      arriving every one of them gets its answer, and Close has nothing left to wait for. */
  lemma {:induction false} EveryRequestIsShort(cfg: Config, events: seq<Event>, id: nat)
    requires Run(cfg, EMPTY, events).Some?
    ensures Moves(events, id) <= 14
    ensures var rs := Run(cfg, EMPTY, events).value.requests;
            if id in rs then Moves(events, id) + Distance(rs[id].pc) <= 14 else Moves(events, id) == 0
  {
    hide Advance, Distance, Fits, Outside;
    if events == [] {
    } else {
      var rest, e := events[..|events| - 1], events[|events| - 1];
      EveryRequestIsShort(cfg, rest, id);
      var s := Run(cfg, EMPTY, rest).value;
      match e
      case Spawn(i, _, _) => StartDistance();
      case Move(i, pick, keep) =>
        Advanced(cfg, s, i, pick, keep);
        MovesAreBounded(cfg, s, i, pick);
        if i != id && id in s.requests { WakesCloser(s.requests[id], s.requests[i]); }
      case _ =>
    }
  }

  // ---------------------------------------------------------------------------
  // Everything finishes
  // ---------------------------------------------------------------------------

  /** How far the requests below `n` are from their ends, together. */
  function Total(rs: map<nat, Request>, n: nat): nat {
    if n == 0 then 0 else Total(rs, n - 1) + if n - 1 in rs then Distance(rs[n - 1].pc) else 0
  }

  predicate Below(s: State, n: nat) {
    forall id :: id in s.requests ==> id < n
  }

  lemma {:induction false} TotalFalls(rs: map<nat, Request>, rs': map<nat, Request>, n: nat, id: nat)
    requires rs.Keys == rs'.Keys && id in rs && forall i :: i in rs ==> Distance(rs'[i].pc) <= Distance(rs[i].pc)
    requires Distance(rs'[id].pc) < Distance(rs[id].pc)
    ensures Total(rs', n) + (if id < n then 1 else 0) <= Total(rs, n)
  {
    hide Distance;
    if n == 0 {
    } else {
      TotalFalls(rs, rs', n - 1, id);
    }
  }

  lemma MoveFalls(cfg: Config, s: State, id: nat, pick: bool, keep: bool, n: nat)
    requires id in s.requests && Below(s, n) && Advance(cfg, s, id, pick, keep).Some?
    ensures var t := Advance(cfg, s, id, pick, keep).value; Below(t, n) && Total(t.requests, n) < Total(s.requests, n)
  {
    hide Advance, Distance, Next, Woken;
    var t := Advance(cfg, s, id, pick, keep).value;
    Advanced(cfg, s, id, pick, keep);
    MovesAreBounded(cfg, s, id, pick);
    forall i | i in s.requests ensures Distance(t.requests[i].pc) <= Distance(s.requests[i].pc) {
      if i != id { WakesCloser(s.requests[i], s.requests[id]); }
    }
    TotalFalls(s.requests, t.requests, n, id);
  }

  ghost function AllMoves(events: seq<Event>): nat {
    if events == [] then 0 else AllMoves(events[..|events| - 1]) + if events[|events| - 1].Move? then 1 else 0
  }

  predicate NoArrivals(events: seq<Event>) {
    forall i :: 0 <= i < |events| ==> !events[i].Spawn?
  }

  /** While no request arrives, the requests take no more steps than they are from their ends, whatever is
      registered, swept or evicted meanwhile. */
  lemma {:induction false} StepsAreBounded(cfg: Config, s: State, events: seq<Event>, n: nat)
    requires Below(s, n) && NoArrivals(events) && Run(cfg, s, events).Some?
    ensures Below(Run(cfg, s, events).value, n)
    ensures AllMoves(events) + Total(Run(cfg, s, events).value.requests, n) <= Total(s.requests, n)
  {
    hide Advance, Total, Outside;
    if events == [] {
      assert Run(cfg, s, events) == Some(s);
    } else {
      var rest, e := events[..|events| - 1], events[|events| - 1];
      StepsAreBounded(cfg, s, rest, n);
      if e.Move? { MoveFalls(cfg, Run(cfg, s, rest).value, e.id, e.pick, e.keep, n); }
    }
  }

  ghost predicate AllDone(s: State) {
    forall id :: id in s.requests ==> s.requests[id].pc.Done?
  }

  lemma RunSnoc(cfg: Config, s: State, events: seq<Event>, e: Event)
    requires Run(cfg, s, events).Some?
    ensures Run(cfg, s, events + [e]) == Step(cfg, Run(cfg, s, events).value, e)
  {
    hide Step;
    assert (events + [e])[..|events + [e]| - 1] == events;
  }

  /** And they can always be brought to their ends. */
  lemma {:induction false} Finishing(cfg: Config, s: State, events: seq<Event>, t: State, n: nat) returns (more: seq<Event>)
    requires Run(cfg, s, events) == Some(t) && Inv(cfg, t) && cfg.concurrency > 0 && Below(t, n)
    ensures NoArrivals(more) && Run(cfg, s, events + more).Some? && AllDone(Run(cfg, s, events + more).value)
    decreases Total(t.requests, n)
  {
    hide Run, Inv, Advance, WaitsFor, Total;
    if AllDone(t) {
      more := [];
      assert events + more == events;
    } else {
      var id :| id in t.requests && !t.requests[id].pc.Done?;
      var mover := Mover(cfg, t, id);
      var e := Move(mover, true, true);
      InvMove(cfg, t, mover, true, true);
      MoveFalls(cfg, t, mover, true, true, n);
      RunSnoc(cfg, s, events, e);
      var rest := Finishing(cfg, s, events + [e], Advance(cfg, t, mover, true, true).value, n);
      more := [e] + rest;
      Regroup(events, [e], rest);
    }
  }

  lemma {:induction false} RunOfConcat(cfg: Config, s: State, a: seq<Event>, b: seq<Event>)
    requires Run(cfg, s, a + b).Some?
    ensures Run(cfg, s, a).Some? && Run(cfg, Run(cfg, s, a).value, b) == Run(cfg, s, a + b)
  {
    hide Step;
    if b == [] {
      assert a + b == a;
    } else {
      assert (a + b)[..|a + b| - 1] == a + b[..|b| - 1];
      RunOfConcat(cfg, s, a, b[..|b| - 1]);
    }
  }

  /** From every reachable state, every run without arrivals can be prolonged until each request has its answer; and
      none of them takes more steps than the requests were from their ends. So once requests stop arriving, Close has
      only finitely long to wait. */
  lemma EveryRequestFinishes(cfg: Config, events: seq<Event>, later: seq<Event>, n: nat) returns (more: seq<Event>)
    requires cfg.concurrency > 0 && Run(cfg, EMPTY, events).Some? && Run(cfg, EMPTY, events + later).Some?
    requires NoArrivals(later) && Below(Run(cfg, EMPTY, events).value, n)
    ensures NoArrivals(more) && Run(cfg, EMPTY, events + later + more).Some? && AllDone(Run(cfg, EMPTY, events + later + more).value)
    ensures AllMoves(later + more) <= Total(Run(cfg, EMPTY, events).value.requests, n)
  {
    hide Run, Inv, AllDone, Total;
    RunInv(cfg, events + later);
    var s := Run(cfg, EMPTY, events).value;
    RunOfConcat(cfg, EMPTY, events, later);
    StepsAreBounded(cfg, s, later, n);
    more := Finishing(cfg, EMPTY, events + later, Run(cfg, EMPTY, events + later).value, n);
    Regroup(events, later, more);
    RunOfConcat(cfg, EMPTY, events, later + more);
    StepsAreBounded(cfg, s, later + more, n);
  }
}
