/** A download step by step, so that it can be killed between any two durable changes and in the middle of a
    copy. */
module TransferSteps {
  import opened Wrappers
  import opened Hex
  import opened Transfer

  datatype Phase =
    | Off
    | Fetching(tmp: string, offset: nat)    // between attempts
    | Copying(tmp: string, offset: nat)     // body open
    | Failing(tmp: string, offset: nat)     // attempt failed, offset not yet saved
    | Complete(tmp: string)                 // body ended cleanly
    | Concluded                             // file moved or thrown away, saved state not yet cleared

  datatype Event =
    | Begin
    | FetchFailed
    | FetchRefused                 // drops the partial file
    | OpenBody(effective: nat)     // opens it, truncating when the offset was not honoured
    | Chunk(data: Bytes)
    | BodyEnds(clean: bool)
    | SaveState
    | Conclude                     // verify, then rename or remove
    | Forget
    | Stop                         // cancelled or out of attempts
    | Kill

  datatype State = State(store: Store, phase: Phase)

  datatype Job = Job(target: Target, transport: string, sha256: Bytes -> string)

  function Step(j: Job, s: State, e: Event): Option<State> {
    match (s.phase, e)
    case (_, Kill) => Some(State(s.store, Off))
    case (Off, Begin) =>
      var (tmp, offset) := Resume(s.store, j.target, j.transport);
      Some(s.(phase := Fetching(tmp, offset)))
    case (Fetching(tmp, o), FetchFailed) => Some(s.(phase := Failing(tmp, o)))
    case (Fetching(tmp, o), FetchRefused) => Some(State(Dropped(s.store, tmp), Failing(tmp, 0)))
    case (Fetching(tmp, o), OpenBody(effective)) =>
      Some(State(Opened(s.store, tmp, effective != o), Copying(tmp, if effective != o then 0 else o)))
    case (Copying(tmp, o), Chunk(data)) => Some(State(Wrote(s.store, tmp, o, data), Copying(tmp, o + |data|)))
    case (Copying(tmp, o), BodyEnds(clean)) => Some(s.(phase := if clean then Complete(tmp) else Failing(tmp, o)))
    case (Failing(tmp, o), SaveState) => Some(State(Remembered(s.store, j.target, tmp, o, j.transport), Fetching(tmp, o)))
    case (Complete(tmp), Conclude) =>
      Some(State(if j.sha256(s.store.At(tmp)) != j.target.deltaHash then Dropped(s.store, tmp)
                 else Promoted(s.store, tmp, j.target.outPath), Concluded))
    case (Concluded, Forget) => Some(State(Forgot(s.store), Off))
    case (Fetching(_, _), Stop) => Some(s.(phase := Off))
    case _ => None
  }

  function Run(j: Job, s: State, events: seq<Event>): Option<State> {
    if events == [] then Some(s)
    else
      match Run(j, s, events[..|events| - 1])
      case None => None
      case Some(t) => Step(j, t, events[|events| - 1])
  }

  // ---------------------------------------------------------------------------
  // One payload
  // ---------------------------------------------------------------------------

  /** The transport serves `payload` and nothing else. It may ignore an offset, refuse it, fail, or cut off. */
  ghost predicate Honest(s: State, e: Event, payload: Bytes) {
    match (s.phase, e)
    case (Fetching(_, o), OpenBody(effective)) => effective == o || effective == 0
    case (Copying(_, o), Chunk(data)) => o + |data| <= |payload| && data == payload[o..o + |data|]
    case _ => true
  }
}
