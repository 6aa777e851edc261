/** The resume loop as it runs (`pkg/agent/downloader.go`): it computes `Transfer.Download`, and does so through
    the steps of `TransferSteps`, so that what is proved about kills in between is about this code. */
module Downloading {
  import opened Wrappers
  import opened Hex
  import T = Transfer
  import TS = TransferSteps

  /** `events` lead from `s` to `t`. */
  ghost predicate Reaches(j: TS.Job, s: TS.State, events: seq<TS.Event>, t: TS.State) {
    TS.Run(j, s, events) == Some(t)
  }

  /** A refusal has changed nothing yet; any other attempt has run its course. */
  ghost function AfterAttempt(store: T.Store, tmp: string, offset: nat, error: Option<T.Response>): TS.State {
    TS.State(store,
             if error.None? then TS.Complete(tmp)
             else if error.value.Refused? then TS.Fetching(tmp, offset)
             else TS.Failing(tmp, offset))
  }

  lemma Nowhere(j: TS.Job, s: TS.State)
    ensures Reaches(j, s, [], s)
  {
  }

  lemma TakeStep(j: TS.Job, s: TS.State, events: seq<TS.Event>, t: TS.State, e: TS.Event, u: TS.State)
    requires Reaches(j, s, events, t)
    requires TS.Step(j, t, e) == Some(u)
    ensures Reaches(j, s, events + [e], u)
  {
    assert (events + [e])[..|events + [e]| - 1] == events;
  }

  lemma {:induction false} ReachesFurther(j: TS.Job, s: TS.State, a: seq<TS.Event>, t: TS.State, b: seq<TS.Event>, u: TS.State)
    requires Reaches(j, s, a, t) && Reaches(j, t, b, u)
    ensures Reaches(j, s, a + b, u)
  {
    if b == [] {
      assert a + b == a;
    } else {
      var n := |b| - 1;
      var v := TS.Run(j, t, b[..n]).value;
      ReachesFurther(j, s, a, t, b[..n], v);
      TakeStep(j, s, a + b[..n], v, b[n], u);
      assert a + b[..n] + [b[n]] == a + b;
    }
  }

  class Downloader {
    var store: T.Store
    const maxRetries: nat
    const sha256: Bytes -> string

    constructor (store: T.Store, maxRetries: int, sha256: Bytes -> string)
      ensures this.store == store && this.sha256 == sha256
      ensures this.maxRetries == if maxRetries < 0 then 0 else maxRetries
    {
      this.store, this.sha256 := store, sha256;
      this.maxRetries := if maxRetries < 0 then 0 else maxRetries;
    }

    ghost function JobOf(t: T.Target, env: T.Env): TS.Job {
      TS.Job(t, env.transport, sha256)
    }

    /** One FetchRange and copy. `events` are the steps it takes. */
    method Attempt(ghost j: TS.Job, tmp: string, offset: nat, r: T.Response)
      returns (newOffset: nat, error: Option<T.Response>, ghost events: seq<TS.Event>)
      modifies this
      ensures T.Attempted(store, newOffset, error) == T.Attempt(old(store), tmp, offset, r)
      ensures Reaches(j, TS.State(old(store), TS.Fetching(tmp, offset)), events, AfterAttempt(store, tmp, newOffset, error))
    {
      hide Reaches;
      ghost var s0 := TS.State(store, TS.Fetching(tmp, offset));
      Nowhere(j, s0);
      newOffset, events := offset, [];
      match r
      case Refused => error := Some(r);
      case Failed =>
        error, events := Some(r), [] + [TS.FetchFailed];
        TakeStep(j, s0, [], s0, TS.FetchFailed, TS.State(store, TS.Failing(tmp, offset)));
      case Body(effective, data, clean) =>
        store := T.Opened(store, tmp, effective != offset);
        if effective != offset { newOffset := 0; }
        ghost var s1 := TS.State(store, TS.Copying(tmp, newOffset));
        TakeStep(j, s0, [], s0, TS.OpenBody(effective), s1);
        store := T.Wrote(store, tmp, newOffset, data);
        newOffset := newOffset + |data|;
        ghost var s2 := TS.State(store, TS.Copying(tmp, newOffset));
        TakeStep(j, s0, [] + [TS.OpenBody(effective)], s1, TS.Chunk(data), s2);
        error := if clean then None else Some(r);
        TakeStep(j, s0, [] + [TS.OpenBody(effective)] + [TS.Chunk(data)], s2, TS.BodyEnds(clean),
                 AfterAttempt(store, tmp, newOffset, error));
        events := [] + [TS.OpenBody(effective)] + [TS.Chunk(data)] + [TS.BodyEnds(clean)];
    }

    /** After a failed attempt: drop the partial file if the resume was refused, then save the offset. */
    method Fail(ghost j: TS.Job, t: T.Target, tmp: string, offset: nat, error: T.Response, transport: string)
      returns (newOffset: nat, ghost events: seq<TS.Event>)
      requires j.target == t && j.transport == transport
      modifies this
      ensures (store, newOffset) == T.AfterFailure(T.Attempted(old(store), offset, Some(error)), t, tmp, transport)
      ensures Reaches(j, AfterAttempt(old(store), tmp, offset, Some(error)), events, TS.State(store, TS.Fetching(tmp, newOffset)))
    {
      hide Reaches;
      ghost var s0 := AfterAttempt(store, tmp, offset, Some(error));
      Nowhere(j, s0);
      newOffset, events := offset, [];
      if error.Refused? {
        store := T.Dropped(store, tmp);
        newOffset := 0;
        TakeStep(j, s0, [], s0, TS.FetchRefused, TS.State(store, TS.Failing(tmp, 0)));
        events := [] + [TS.FetchRefused];
      }
      ghost var failing := TS.State(store, TS.Failing(tmp, newOffset));
      store := T.Remembered(store, t, tmp, newOffset, transport);
      TakeStep(j, s0, events, failing, TS.SaveState, TS.State(store, TS.Fetching(tmp, newOffset)));
      events := events + [TS.SaveState];
    }

    /** The body is complete: verify its digest, move it into place or throw it away, clear the saved state. */
    method Conclude(ghost j: TS.Job, t: T.Target, tmp: string) returns (o: T.Outcome, ghost events: seq<TS.Event>)
      requires j.target == t && j.sha256 == sha256
      modifies this
      ensures (store, o) == T.Finish(old(store), t, tmp, sha256)
      ensures Reaches(j, TS.State(old(store), TS.Complete(tmp)), events, TS.State(store, TS.Off))
    {
      hide Reaches;
      ghost var complete := TS.State(store, TS.Complete(tmp));
      Nowhere(j, complete);
      if sha256(store.At(tmp)) != t.deltaHash {
        o := T.HashMismatch;
        store := T.Dropped(store, tmp);
      } else {
        o := T.Success;
        store := T.Promoted(store, tmp, t.outPath);
      }
      ghost var concluded := TS.State(store, TS.Concluded);
      TakeStep(j, complete, [], complete, TS.Conclude, concluded);
      store := T.Forgot(store);
      TakeStep(j, complete, [] + [TS.Conclude], concluded, TS.Forget, TS.State(store, TS.Off));
      events := [] + [TS.Conclude] + [TS.Forget];
    }

    /** Run the retry loop until the target is fetched and verified, cancelled, or out of attempts. */
    method Download(t: T.Target, env: T.Env) returns (o: T.Outcome, ghost events: seq<TS.Event>)
      requires env.maxRetries == maxRetries
      modifies this
      ensures (store, o) == T.Download(old(store), t, env, sha256)
      ensures Reaches(JobOf(t, env), TS.State(old(store), TS.Off), events, TS.State(store, TS.Off))
    {
      hide Reaches, T.Attempt, T.AfterFailure, T.Finish, T.Resume;
      ghost var j, s0 := JobOf(t, env), TS.State(store, TS.Off);
      var (tmp, offset) := T.Resume(store, t, env.transport);
      Nowhere(j, s0);
      TakeStep(j, s0, [], s0, TS.Begin, TS.State(store, TS.Fetching(tmp, offset)));
      events := [] + [TS.Begin];
      var attempt, success := 0, false;
      while attempt <= maxRetries
        invariant 0 <= attempt <= maxRetries && !success
        invariant T.Retry(store, t, tmp, offset, env, attempt)
               == T.Retry(old(store), t, tmp, T.Resume(old(store), t, env.transport).1, env, 0)
        invariant Reaches(j, s0, events, TS.State(store, TS.Fetching(tmp, offset)))
        decreases maxRetries - attempt
      {
        ghost var before := TS.State(store, TS.Fetching(tmp, offset));
        if env.cancelled(2 * attempt) {
          TakeStep(j, s0, events, before, TS.Stop, TS.State(store, TS.Off));
          return T.Cancelled, events + [TS.Stop];
        }
        var error;
        ghost var steps;
        offset, error, steps := Attempt(j, tmp, offset, env.serve(attempt, offset));
        ghost var after := AfterAttempt(store, tmp, offset, error);
        ReachesFurther(j, s0, events, before, steps, after);
        events := events + steps;
        if error.None? {
          success := true;
          break;
        }
        offset, steps := Fail(j, t, tmp, offset, error.value, env.transport);
        ghost var failed := TS.State(store, TS.Fetching(tmp, offset));
        ReachesFurther(j, s0, events, after, steps, failed);
        events := events + steps;
        if attempt == maxRetries || env.cancelled(2 * attempt + 1) {
          TakeStep(j, s0, events, failed, TS.Stop, TS.State(store, TS.Off));
          return if attempt == maxRetries then T.Exhausted else T.Cancelled, events + [TS.Stop];
        }
        attempt := attempt + 1;
      }
      ghost var complete := TS.State(store, TS.Complete(tmp));
      ghost var steps;
      o, steps := Conclude(j, t, tmp);
      ReachesFurther(j, s0, events, complete, steps, TS.State(store, TS.Off));
      events := events + steps;
    }
  }
}
