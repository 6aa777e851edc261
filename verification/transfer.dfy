/** One resumable download (`pkg/agent/downloader.go`): its files, its transport, and its steps. */
module Transfer {
  import opened Wrappers
  import opened Hex

  /** `.download.json` */
  datatype Saved = Saved(deltaHash: string, received: nat, tempFile: string, transport: string)

  /** The download's part of the disk. */
  datatype Store = Store(files: map<string, Bytes>, saved: Option<Saved>) {
    function At(path: string): Bytes { if path in files then files[path] else [] }
  }

  datatype Target = Target(deltaHash: string, outPath: string)

  /** What a FetchRange comes back with: a refusal to resume, any other error, or a body that is copied until
      it ends, cleanly or not. `effective` is where the body starts. */
  datatype Response = Refused | Failed | Body(effective: nat, data: Bytes, clean: bool)

  datatype Outcome = Success | HashMismatch | Exhausted | Cancelled

  function TempPath(t: Target): string { t.outPath + ".partial" }

  // ---------------------------------------------------------------------------
  // Durable changes
  // ---------------------------------------------------------------------------

  function Zeros(n: nat): Bytes { seq(n, _ => 0) }

  /** Writing at an offset: a gap before it fills with zeros, what lies beyond the data stays. */
  function Splice(f: Bytes, offset: nat, data: Bytes): Bytes {
    if data == [] then f
    else (if offset <= |f| then f[..offset] else f + Zeros(offset - |f|)) + data
         + (if offset + |data| < |f| then f[offset + |data|..] else [])
  }

  /** Open for writing: created when missing, truncated only when asked. */
  function Opened(s: Store, tmp: string, truncate: bool): Store {
    s.(files := s.files[tmp := if truncate then [] else s.At(tmp)])
  }

  function Wrote(s: Store, tmp: string, offset: nat, data: Bytes): Store {
    s.(files := s.files[tmp := Splice(s.At(tmp), offset, data)])
  }

  function Dropped(s: Store, tmp: string): Store {
    s.(files := s.files - {tmp})
  }

  function Remembered(s: Store, t: Target, tmp: string, offset: nat, transport: string): Store {
    s.(saved := Some(Saved(t.deltaHash, offset, tmp, transport)))
  }

  function Forgot(s: Store): Store {
    s.(saved := None)
  }

  function Promoted(s: Store, tmp: string, out: string): Store {
    if tmp == out then s else s.(files := (s.files - {tmp})[out := s.At(tmp)])
  }

  /** Where to start: the saved state, if it is about this target over this transport. */
  function Resume(s: Store, t: Target, transport: string): (string, nat) {
    if s.saved.Some? && s.saved.value.deltaHash == t.deltaHash && s.saved.value.transport == transport
    then (s.saved.value.tempFile, s.saved.value.received)
    else (TempPath(t), 0)
  }

  // ---------------------------------------------------------------------------
  // A whole Download
  // ---------------------------------------------------------------------------

  /** What surrounds a Download: the transport (attempt number and requested offset to response), and whether
      the context has been cancelled when it is looked at for the n-th time. */
  datatype Env = Env(transport: string, serve: (nat, nat) -> Response, cancelled: nat -> bool, maxRetries: nat)

  datatype Attempted = Attempted(store: Store, offset: nat, error: Option<Response>)

  /** One FetchRange and copy. */
  function Attempt(s: Store, tmp: string, offset: nat, r: Response): Attempted {
    match r
    case Refused => Attempted(s, offset, Some(r))
    case Failed => Attempted(s, offset, Some(r))
    case Body(effective, data, clean) =>
      var start := if effective != offset then 0 else offset;
      Attempted(Wrote(Opened(s, tmp, effective != offset), tmp, start, data), start + |data|, if clean then None else Some(r))
  }

  /** The bookkeeping after a failed attempt. */
  function AfterFailure(a: Attempted, t: Target, tmp: string, transport: string): (Store, nat)
    requires a.error.Some?
  {
    var (s, offset) := if a.error.value.Refused? then (Dropped(a.store, tmp), 0) else (a.store, a.offset);
    (Remembered(s, t, tmp, offset, transport), offset)
  }

  /** The attempts from number `attempt` on: the outcome if they end without a complete body. */
  function Retry(s: Store, t: Target, tmp: string, offset: nat, env: Env, attempt: nat): (r: (Store, Option<Outcome>))
    requires attempt <= env.maxRetries
    ensures r.1.None? ==> tmp in r.0.files
    ensures r.1.Some? ==> r.1.value.Exhausted? || r.1.value.Cancelled?
    decreases env.maxRetries - attempt
  {
    if env.cancelled(2 * attempt) then (s, Some(Cancelled))
    else
      var a := Attempt(s, tmp, offset, env.serve(attempt, offset));
      if a.error.None? then (a.store, None)
      else
        var (next, o) := AfterFailure(a, t, tmp, env.transport);
        if attempt == env.maxRetries then (next, Some(Exhausted))
        else if env.cancelled(2 * attempt + 1) then (next, Some(Cancelled))
        else Retry(next, t, tmp, o, env, attempt + 1)
  }

  /** Verify the digest, then move into place or throw away. */
  function Finish(s: Store, t: Target, tmp: string, sha256: Bytes -> string): (Store, Outcome) {
    if sha256(s.At(tmp)) != t.deltaHash then (Forgot(Dropped(s, tmp)), HashMismatch)
    else (Forgot(Promoted(s, tmp, t.outPath)), Success)
  }

  function Download(s: Store, t: Target, env: Env, sha256: Bytes -> string): (Store, Outcome) {
    var (tmp, offset) := Resume(s, t, env.transport);
    var (fetched, stopped) := Retry(s, t, tmp, offset, env, 0);
    match stopped
    case Some(o) => (fetched, o)
    case None => Finish(fetched, t, tmp, sha256)
  }

  // ---------------------------------------------------------------------------
  // Safety of one Download, whatever the transport
  // ---------------------------------------------------------------------------

  /** Whatever the transport sends and whatever was on disk, a nil return means the file in place has the
      expected digest, and there is nothing left to resume. */
  lemma SuccessIsVerified(s: Store, t: Target, env: Env, sha256: Bytes -> string)
    requires Download(s, t, env, sha256).1.Success?
    ensures var d := Download(s, t, env, sha256).0;
            t.outPath in d.files && sha256(d.files[t.outPath]) == t.deltaHash && d.saved.None?
  {
    hide Retry;
  }

  /** `payload` is the one content with digest `hash`. */
  ghost predicate OneContent(sha256: Bytes -> string, hash: string, payload: Bytes) {
    forall b :: sha256(b) == hash <==> b == payload
  }

  /** With a payload that is the one content of its digest, the file in place is the payload. */
  lemma SuccessIsPayload(s: Store, t: Target, env: Env, sha256: Bytes -> string, payload: Bytes)
    requires Download(s, t, env, sha256).1.Success? && OneContent(sha256, t.deltaHash, payload)
    ensures Download(s, t, env, sha256).0.At(t.outPath) == payload
  {
    SuccessIsVerified(s, t, env, sha256);
  }

  /** Attempts look at files, not at what was saved. */
  lemma AttemptIgnoresSaved(s: Store, u: Store, t: Target, tmp: string, offset: nat, r: Response, transport: string)
    requires u.files == s.files
    ensures var (a, b) := (Attempt(s, tmp, offset, r), Attempt(u, tmp, offset, r));
      && b.error == a.error && b.store.files == a.store.files
      && (a.error.Some? ==>
            && AfterFailure(b, t, tmp, transport).0.files == AfterFailure(a, t, tmp, transport).0.files
            && AfterFailure(b, t, tmp, transport).1 == AfterFailure(a, t, tmp, transport).1)
  {
    hide Splice;
  }

  lemma {:induction false} RetryIgnoresSaved(s: Store, u: Store, t: Target, tmp: string, offset: nat, env: Env, attempt: nat)
    requires attempt <= env.maxRetries && u.files == s.files
    ensures var (a, b) := (Retry(s, t, tmp, offset, env, attempt), Retry(u, t, tmp, offset, env, attempt));
            b.0.files == a.0.files && b.1 == a.1
    decreases env.maxRetries - attempt
  {
    hide Attempt, AfterFailure;
    if !env.cancelled(2 * attempt) {
      var r := env.serve(attempt, offset);
      var a, b := Attempt(s, tmp, offset, r), Attempt(u, tmp, offset, r);
      AttemptIgnoresSaved(s, u, t, tmp, offset, r, env.transport);
      if a.error.Some? && attempt < env.maxRetries {
        var (next, o) := AfterFailure(a, t, tmp, env.transport);
        RetryIgnoresSaved(next, AfterFailure(b, t, tmp, env.transport).0, t, tmp, o, env, attempt + 1);
      }
    }
  }

  /** State left by another target, or over another transport, counts for nothing. */
  lemma ForeignStateIsIgnored(s: Store, t: Target, env: Env, sha256: Bytes -> string)
    requires s.saved.Some? && (s.saved.value.deltaHash != t.deltaHash || s.saved.value.transport != env.transport)
    ensures var (a, b) := (Download(s, t, env, sha256), Download(Forgot(s), t, env, sha256));
            b.0.files == a.0.files && b.1 == a.1
  {
    hide Retry;
    RetryIgnoresSaved(s, Forgot(s), t, TempPath(t), 0, env, 0);
  }

  // ---------------------------------------------------------------------------
  // Progress over an honest transport without faults
  // ---------------------------------------------------------------------------

  /** An honest, fault-free answer: the payload from the requested offset, or from the start when the offset is
      ignored, or a refusal of a non-zero offset. */
  ghost predicate FaultFree(r: Response, offset: nat, payload: Bytes) {
    match r
    case Refused => offset > 0
    case Failed => false
    case Body(effective, data, clean) =>
      clean && effective <= |payload| && (effective == offset || effective == 0) && data == payload[effective..]
  }

  /** No fault and no cancellation, whenever the offset lies inside the payload. */
  ghost predicate Benign(env: Env, payload: Bytes) {
    && (forall n :: !env.cancelled(n))
    && (forall n: nat, o: nat :: o == 0 || o < |payload| ==> FaultFree(env.serve(n, o), o, payload))
  }

  lemma SpliceAtStart(payload: Bytes)
    ensures Splice([], 0, payload) == payload
  {
    if payload != [] { assert [][..0] + payload + [] == payload; }
  }

  /** From an offset of zero and no stale bytes, one attempt fetches the payload whole. */
  lemma FreshAttempt(s: Store, t: Target, tmp: string, env: Env, payload: Bytes, attempt: nat)
    requires Benign(env, payload) && attempt <= env.maxRetries && s.At(tmp) == []
    ensures var (d, stopped) := Retry(s, t, tmp, 0, env, attempt);
            stopped.None? && tmp in d.files && d.At(tmp) == payload
  {
    assert payload[0..] == payload;
    assert FaultFree(env.serve(attempt, 0), 0, payload);
    SpliceAtStart(payload);
  }

  /** Nothing on disk to go wrong: no bytes under the temporary name, and no offset but zero. */
  ghost predicate Clean(s: Store, t: Target, transport: string) {
    s.At(TempPath(t)) == [] && Resume(s, t, transport) == (TempPath(t), 0)
  }

  lemma CleanSucceeds(s: Store, t: Target, env: Env, sha256: Bytes -> string, payload: Bytes)
    requires Clean(s, t, env.transport) && Benign(env, payload) && OneContent(sha256, t.deltaHash, payload)
    ensures var (d, o) := Download(s, t, env, sha256); o.Success? && d.At(t.outPath) == payload
  {
    hide Retry, Benign;
    FreshAttempt(s, t, TempPath(t), env, payload, 0);
  }

  /** One Download from any partial file and any offset inside the payload either succeeds or leaves nothing
      that could make the next one fail: after a hash mismatch both files are gone, and a refused resume with
      no retries left has dropped the partial file and set the offset to zero. */
  lemma OneDownload(s: Store, t: Target, env: Env, sha256: Bytes -> string, payload: Bytes)
    requires Benign(env, payload) && OneContent(sha256, t.deltaHash, payload)
    requires var (tmp, offset) := Resume(s, t, env.transport); tmp == TempPath(t) && (offset == 0 || offset < |payload|)
    ensures var (d, o) := Download(s, t, env, sha256);
            match o
            case Success => d.At(t.outPath) == payload
            case HashMismatch => TempPath(t) !in d.files && d.saved.None?
            case Exhausted => env.maxRetries == 0 && TempPath(t) !in d.files && d.saved == Some(Saved(t.deltaHash, 0, TempPath(t), env.transport))
            case Cancelled => false
    ensures var (d, o) := Download(s, t, env, sha256); !o.Success? ==> Clean(d, t, env.transport)
  {
    var (tmp, offset) := Resume(s, t, env.transport);
    var r := env.serve(0, offset);
    assert FaultFree(r, offset, payload) && !env.cancelled(0) && !env.cancelled(1);
    if r.Refused? {
      var (next, o) := AfterFailure(Attempt(s, tmp, offset, r), t, tmp, env.transport);
      if env.maxRetries > 0 { FreshAttempt(next, t, tmp, env, payload, 1); }
    } else if r.effective != offset {
      SpliceAtStart(payload);
      assert payload[0..] == payload;
    }
  }

  /** So at most two Downloads are needed, from any partial file and any offset inside the payload. */
  lemma TwoDownloadsSuffice(s: Store, t: Target, env1: Env, env2: Env, sha256: Bytes -> string, payload: Bytes)
    requires Benign(env1, payload) && Benign(env2, payload) && env1.transport == env2.transport
    requires OneContent(sha256, t.deltaHash, payload)
    requires var (tmp, offset) := Resume(s, t, env1.transport); tmp == TempPath(t) && (offset == 0 || offset < |payload|)
    ensures var (d1, o1) := Download(s, t, env1, sha256);
            o1.Success? || Download(d1, t, env2, sha256).1.Success?
  {
    hide Download, Benign, OneContent, Clean;
    OneDownload(s, t, env1, sha256, payload);
    var (d1, o1) := Download(s, t, env1, sha256);
    if !o1.Success? { CleanSucceeds(d1, t, env2, sha256, payload); }
  }

  /** A server that honours ranges, as the HTTP transport reports it: an offset at or past the end is an error. */
  ghost predicate RangeServer(env: Env, payload: Bytes) {
    && (forall n :: !env.cancelled(n))
    && forall n: nat, o: nat ::
         env.serve(n, o) == if o == 0 || o < |payload| then Body(o, payload[o..], true) else Failed
  }

  /** The store and outcome of the first success, or of the last of k + 1 Downloads in a row. */
  function Downloads(s: Store, t: Target, env: Env, sha256: Bytes -> string, k: nat): (Store, Outcome)
    decreases k
  {
    var (d, o) := Download(s, t, env, sha256);
    if k == 0 || o.Success? then (d, o) else Downloads(d, t, env, sha256, k - 1)
  }

  lemma {:induction false} PastTheEndFails(s: Store, t: Target, tmp: string, offset: nat, env: Env, payload: Bytes, attempt: nat)
    requires RangeServer(env, payload) && 0 < offset && |payload| <= offset && attempt <= env.maxRetries
    requires s.saved == Some(Saved(t.deltaHash, offset, tmp, env.transport))
    ensures Retry(s, t, tmp, offset, env, attempt) == (s, Some(Exhausted))
    decreases env.maxRetries - attempt
  {
    assert env.serve(attempt, offset) == Failed;
    if attempt == env.maxRetries {
    } else {
      PastTheEndFails(s, t, tmp, offset, env, payload, attempt + 1);
    }
  }

  lemma {:induction false} Stuck(s: Store, t: Target, env: Env, sha256: Bytes -> string, payload: Bytes, k: nat)
    requires RangeServer(env, payload) && Resume(s, t, env.transport).0 == TempPath(t)
    requires 0 < Resume(s, t, env.transport).1 && |payload| <= Resume(s, t, env.transport).1
    ensures Downloads(s, t, env, sha256, k) == (s, Exhausted)
  {
    PastTheEndFails(s, t, TempPath(t), Resume(s, t, env.transport).1, env, payload, 0);
    if k == 0 {
    } else {
      Stuck(s, t, env, sha256, payload, k - 1);
    }
  }

  /** Over ranged HTTP the saved offset decides: repeated Downloads get there exactly when it is zero or lies
      inside the payload. An offset equal to the length is never made good. */
  lemma {:induction false} RangedProgress(s: Store, t: Target, env: Env, sha256: Bytes -> string, payload: Bytes)
    requires RangeServer(env, payload) && OneContent(sha256, t.deltaHash, payload)
    requires Resume(s, t, env.transport).0 == TempPath(t)
    ensures (exists k: nat :: Downloads(s, t, env, sha256, k).1.Success?)
       <==> (Resume(s, t, env.transport).1 == 0 || Resume(s, t, env.transport).1 < |payload|)
  {
    var offset := Resume(s, t, env.transport).1;
    if offset == 0 || offset < |payload| {
      assert Benign(env, payload);
      TwoDownloadsSuffice(s, t, env, env, sha256, payload);
      assert Downloads(s, t, env, sha256, 1).1.Success?;
    } else {
      forall k: nat ensures !Downloads(s, t, env, sha256, k).1.Success? { Stuck(s, t, env, sha256, payload, k); }
    }
  }

  // ---------------------------------------------------------------------------
  // How a Download ends, from the answers of the transport alone
  // ---------------------------------------------------------------------------

  predicate Completes(r: Response) { r.Body? && r.clean }

  /** Where an answer to a request at `offset` leaves the next request. */
  function NextOffset(r: Response, offset: nat): nat {
    match r
    case Refused => 0
    case Failed => offset
    case Body(effective, data, _) => if effective == offset then offset + |data| else |data|
  }

  /** The offset of request `k`, when request `first` is at `offset` and those in between have failed. */
  function OffsetAt(env: Env, first: nat, offset: nat, k: nat): nat
    requires first <= k
    decreases k - first
  {
    if k == first then offset else OffsetAt(env, first + 1, NextOffset(env.serve(first, offset), offset), k)
  }

  function AnswerAt(env: Env, first: nat, offset: nat, k: nat): Response
    requires first <= k
  {
    env.serve(k, OffsetAt(env, first, offset, k))
  }

  /** Requests `first` to `last`, excluded, are made and fail. */
  ghost predicate FailUpTo(env: Env, first: nat, offset: nat, last: nat) {
    forall k :: first <= k < last ==> !Completes(AnswerAt(env, first, offset, k))
  }

  ghost predicate Uncancelled(env: Env, from: nat, to: nat) {
    forall n :: from <= n <= to ==> !env.cancelled(n)
  }

  ghost predicate EndsComplete(env: Env, first: nat, offset: nat, k: nat) {
    first <= k <= env.maxRetries && FailUpTo(env, first, offset, k) && Completes(AnswerAt(env, first, offset, k))
    && Uncancelled(env, 2 * first, 2 * k)
  }

  ghost predicate SomeCompletes(env: Env, first: nat, offset: nat) {
    exists k: nat :: EndsComplete(env, first, offset, k)
  }

  ghost predicate EndsExhausted(env: Env, first: nat, offset: nat) {
    FailUpTo(env, first, offset, env.maxRetries + 1) && Uncancelled(env, 2 * first, 2 * env.maxRetries)
  }

  lemma OneMoreFails(env: Env, first: nat, offset: nat, last: nat)
    requires first < last
    ensures FailUpTo(env, first, offset, last) <==>
      !Completes(env.serve(first, offset)) && FailUpTo(env, first + 1, NextOffset(env.serve(first, offset), offset), last)
  {
    var next := NextOffset(env.serve(first, offset), offset);
    forall k | first < k < last ensures AnswerAt(env, first, offset, k) == AnswerAt(env, first + 1, next, k) {}
    assert AnswerAt(env, first, offset, first) == env.serve(first, offset);
    if FailUpTo(env, first, offset, last) {
      var second := first + 1;
      forall k | second <= k < last ensures !Completes(AnswerAt(env, second, next, k)) {
        assert !Completes(AnswerAt(env, first, offset, k));
      }
    }
  }

  lemma OneMoreUncancelled(env: Env, from: nat, to: nat)
    requires from + 1 <= to
    ensures Uncancelled(env, from, to) <==> !env.cancelled(from) && !env.cancelled(from + 1) && Uncancelled(env, from + 2, to)
  {
  }

  /** What an attempt and its bookkeeping leave, when it fails. */
  lemma FailedAttempt(s: Store, t: Target, tmp: string, offset: nat, r: Response, transport: string)
    ensures Attempt(s, tmp, offset, r).error.None? <==> Completes(r)
    ensures !Completes(r) ==> AfterFailure(Attempt(s, tmp, offset, r), t, tmp, transport).1 == NextOffset(r, offset)
  {
  }

  lemma NotBefore(env: Env, first: nat, offset: nat, k: nat)
    requires EndsComplete(env, first, offset, k)
    ensures first <= k
  {
  }

  lemma NotYet(env: Env, first: nat, offset: nat)
    requires !Completes(env.serve(first, offset))
    ensures !EndsComplete(env, first, offset, first)
  {
    assert AnswerAt(env, first, offset, first) == env.serve(first, offset);
  }

  /** After a failure with attempts left. */
  lemma MoreToCome(env: Env, first: nat, offset: nat)
    requires first < env.maxRetries && !env.cancelled(2 * first) && !Completes(env.serve(first, offset))
    ensures var next := NextOffset(env.serve(first, offset), offset);
      && (EndsExhausted(env, first, offset) <==> !env.cancelled(2 * first + 1) && EndsExhausted(env, first + 1, next))
      && (SomeCompletes(env, first, offset) <==>
            !env.cancelled(2 * first + 1) && SomeCompletes(env, first + 1, next))
  {
    var next := NextOffset(env.serve(first, offset), offset);
    OneMoreFails(env, first, offset, env.maxRetries + 1);
    OneMoreUncancelled(env, 2 * first, 2 * env.maxRetries);
    assert AnswerAt(env, first, offset, first) == env.serve(first, offset);
    forall k | first < k
      ensures EndsComplete(env, first, offset, k) <==> !env.cancelled(2 * first + 1) && EndsComplete(env, first + 1, next, k)
    {
      OneMoreFails(env, first, offset, k);
      OneMoreUncancelled(env, 2 * first, 2 * k);
      assert AnswerAt(env, first, offset, k) == AnswerAt(env, first + 1, next, k);
    }
    hide EndsComplete;
    assert !EndsComplete(env, first, offset, first) by { NotYet(env, first, offset); }
    var second := first + 1;
    if SomeCompletes(env, first, offset) {
      var k: nat :| EndsComplete(env, first, offset, k);
      assert first <= k by { NotBefore(env, first, offset, k); }
      assert EndsComplete(env, second, next, k);
    }
    if !env.cancelled(2 * first + 1) && SomeCompletes(env, second, next) {
      var k: nat :| EndsComplete(env, second, next, k);
      assert second <= k by { NotBefore(env, second, next, k); }
      assert EndsComplete(env, first, offset, k);
    }
  }

  /** The attempts from `first` on end with a complete body exactly when one comes before they are used up or
      cancelled, and with exhaustion exactly when all of them fail. */
  lemma {:induction false} RetryEndsIff(s: Store, t: Target, tmp: string, offset: nat, env: Env, first: nat)
    requires first <= env.maxRetries
    ensures var stopped := Retry(s, t, tmp, offset, env, first).1;
      && (stopped.None? <==> SomeCompletes(env, first, offset))
      && (stopped == Some(Exhausted) <==> EndsExhausted(env, first, offset))
    decreases env.maxRetries - first
  {
    hide Attempt, AfterFailure;
    var r := env.serve(first, offset);
    var next := NextOffset(r, offset);
    FailedAttempt(s, t, tmp, offset, r, env.transport);
    assert AnswerAt(env, first, offset, first) == r;
    if env.cancelled(2 * first) {
      assert !Uncancelled(env, 2 * first, 2 * env.maxRetries);
      forall k: nat ensures !EndsComplete(env, first, offset, k) {
        assert first <= k ==> !Uncancelled(env, 2 * first, 2 * k);
      }
    } else if Completes(r) {
      assert EndsComplete(env, first, offset, first);
      assert !FailUpTo(env, first, offset, env.maxRetries + 1);
    } else if first == env.maxRetries {
      OneMoreFails(env, first, offset, first + 1);
      forall k: nat ensures !EndsComplete(env, first, offset, k) {}
    } else {
      MoreToCome(env, first, offset);
      if !env.cancelled(2 * first + 1) {
        var a := Attempt(s, tmp, offset, r);
        RetryEndsIff(AfterFailure(a, t, tmp, env.transport).0, t, tmp, next, env, first + 1);
      }
    }
  }

  lemma {:induction false} RetryLeaves(s: Store, t: Target, tmp: string, offset: nat, env: Env, first: nat)
    requires first <= env.maxRetries
    ensures var (d, stopped) := Retry(s, t, tmp, offset, env, first);
      stopped == Some(Exhausted) ==>
        d.saved == Some(Saved(t.deltaHash, OffsetAt(env, first, offset, env.maxRetries + 1), tmp, env.transport))
    decreases env.maxRetries - first
  {
    hide Attempt;
    var r := env.serve(first, offset);
    FailedAttempt(s, t, tmp, offset, r, env.transport);
    if env.cancelled(2 * first) || Completes(r) || env.cancelled(2 * first + 1) {
    } else if first == env.maxRetries {
      assert OffsetAt(env, first + 1, NextOffset(r, offset), first + 1) == NextOffset(r, offset);
    } else {
      var (next, o) := AfterFailure(Attempt(s, tmp, offset, r), t, tmp, env.transport);
      RetryLeaves(next, t, tmp, o, env, first + 1);
    }
  }

  lemma FinishEnds(s: Store, t: Target, tmp: string, sha256: Bytes -> string)
    ensures Finish(s, t, tmp, sha256).1.Success? || Finish(s, t, tmp, sha256).1.HashMismatch?
  {
  }

  /** What an exhausted Download leaves is resumed from: the next one starts where the last request ended. */
  lemma ExhaustedIsResumed(s: Store, t: Target, env: Env, sha256: Bytes -> string)
    requires Download(s, t, env, sha256).1.Exhausted?
    ensures var (tmp, offset) := Resume(s, t, env.transport);
      Resume(Download(s, t, env, sha256).0, t, env.transport) == (tmp, OffsetAt(env, 0, offset, env.maxRetries + 1))
  {
    hide Retry, Finish, OffsetAt;
    var (tmp, offset) := Resume(s, t, env.transport);
    RetryLeaves(s, t, tmp, offset, env, 0);
    FinishEnds(Retry(s, t, tmp, offset, env, 0).0, t, tmp, sha256);
  }

  /** A Download is exhausted exactly when it was not cancelled and each of maxRetries + 1 requests, each at the offset
      the one before left, has failed; it gets as far as the digest exactly when one of them completes before that. */
  lemma DownloadEndsIff(s: Store, t: Target, env: Env, sha256: Bytes -> string)
    ensures var o := Download(s, t, env, sha256).1;
      var offset := Resume(s, t, env.transport).1;
      && (o.Exhausted? <==> EndsExhausted(env, 0, offset))
      && (o.Success? || o.HashMismatch? <==> SomeCompletes(env, 0, offset))
  {
    hide Retry, EndsExhausted, SomeCompletes;
    var (tmp, offset) := Resume(s, t, env.transport);
    RetryEndsIff(s, t, tmp, offset, env, 0);
  }

  /** An answer in the payload's terms: it may refuse, fail, or be cut off anywhere, but no byte of it is wrong. */
  ghost predicate FromPayload(r: Response, offset: nat, payload: Bytes) {
    match r
    case Refused => true
    case Failed => true
    case Body(effective, data, clean) =>
      && (effective == offset || effective == 0) && effective + |data| <= |payload|
      && data == payload[effective..effective + |data|] && (clean ==> effective + |data| == |payload|)
  }

  ghost predicate Faithful(env: Env, payload: Bytes) {
    forall k: nat, o: nat | o <= |payload| :: FromPayload(env.serve(k, o), o, payload)
  }

  predicate PrefixOf(f: Bytes, payload: Bytes) {
    |f| <= |payload| && f == payload[..|f|]
  }

  lemma SplicedPrefix(f: Bytes, o: nat, data: Bytes, payload: Bytes)
    requires PrefixOf(f, payload) && o <= |f| && o + |data| <= |payload| && data == payload[o..o + |data|]
    ensures PrefixOf(Splice(f, o, data), payload) && o + |data| <= |Splice(f, o, data)|
  {
    if data != [] {
      var tail := if o + |data| < |f| then f[o + |data|..] else [];
      assert f[..o] == payload[..o];
      assert Splice(f, o, data) == payload[..o] + payload[o..o + |data|] + tail;
      if tail != [] { assert Splice(f, o, data) == f; } else { assert Splice(f, o, data) == payload[..o + |data|]; }
    }
  }

  lemma FaithfulAttempt(s: Store, t: Target, tmp: string, offset: nat, r: Response, transport: string, payload: Bytes)
    requires PrefixOf(s.At(tmp), payload) && offset <= |s.At(tmp)| && FromPayload(r, offset, payload)
    ensures var a := Attempt(s, tmp, offset, r);
      && (Completes(r) ==> a.error.None? && a.store.At(tmp) == payload)
      && (!Completes(r) ==>
            && a.error.Some?
            && var (next, o) := AfterFailure(a, t, tmp, transport); PrefixOf(next.At(tmp), payload) && o <= |next.At(tmp)|)
  {
    if r.Body? {
      var f := if r.effective != offset then [] else s.At(tmp);
      SplicedPrefix(f, r.effective, r.data, payload);
    }
    hide Splice;
  }

  lemma PrefixLength(f: Bytes, payload: Bytes)
    requires PrefixOf(f, payload)
    ensures |f| <= |payload|
  {
  }

  lemma {:induction false} FaithfulRetry(s: Store, t: Target, tmp: string, offset: nat, env: Env, first: nat, payload: Bytes)
    requires first <= env.maxRetries && Faithful(env, payload) && PrefixOf(s.At(tmp), payload) && offset <= |s.At(tmp)|
    ensures var (d, stopped) := Retry(s, t, tmp, offset, env, first);
      stopped.None? ==> tmp in d.files && d.At(tmp) == payload
    decreases env.maxRetries - first
  {
    hide Attempt, AfterFailure, PrefixOf;
    var r := env.serve(first, offset);
    assert offset <= |payload| by { PrefixLength(s.At(tmp), payload); }
    assert FromPayload(r, offset, payload);
    FaithfulAttempt(s, t, tmp, offset, r, env.transport, payload);
    FailedAttempt(s, t, tmp, offset, r, env.transport);
    if env.cancelled(2 * first) || Completes(r) || first == env.maxRetries || env.cancelled(2 * first + 1) {
    } else {
      var (next, o) := AfterFailure(Attempt(s, tmp, offset, r), t, tmp, env.transport);
      FaithfulRetry(next, t, tmp, o, env, first + 1, payload);
    }
  }

  /** Over a transport that fails or cuts off as often as it likes, a Download that starts with nothing in its way
      succeeds, with the payload in place, exactly when it is not cancelled before one of its maxRetries + 1 requests
      completes. */
  lemma SucceedsIffSomeRequestCompletes(s: Store, t: Target, env: Env, sha256: Bytes -> string, payload: Bytes)
    requires Clean(s, t, env.transport) && Faithful(env, payload) && sha256(payload) == t.deltaHash
    ensures var (d, o) := Download(s, t, env, sha256);
      && (o.Success? <==> SomeCompletes(env, 0, 0))
      && (o.Success? ==> d.At(t.outPath) == payload) && !o.HashMismatch?
  {
    hide Retry, SomeCompletes, EndsExhausted, Faithful;
    DownloadEndsIff(s, t, env, sha256);
    assert PrefixOf([], payload);
    FaithfulRetry(s, t, TempPath(t), 0, env, 0, payload);
  }
}
