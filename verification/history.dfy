/** The history of a publication track: the target hashes it has superseded (`pkg/server/registry.go`). */
module History {
  import opened Wrappers

  /** `s` without `h`. */
  function Without<T(==)>(s: seq<T>, h: T): seq<T> {
    if s == [] then [] else if s[0] == h then Without(s[1..], h) else [s[0]] + Without(s[1..], h)
  }

  function Take<T>(s: seq<T>, n: nat): seq<T> {
    if |s| <= n then s else s[..n]
  }

  /** What a changed target leaves behind: newest first, no duplicates, capped. */
  function Push<T(==)>(history: seq<T>, previous: T, depth: nat): seq<T> {
    Take([previous] + Without(history, previous), depth)
  }

  /** The first occurrence of each element. */
  function Firsts<T(==)>(s: seq<T>): seq<T> {
    if s == [] then [] else [s[0]] + Without(Firsts(s[1..]), s[0])
  }

  ghost predicate Distinct<T>(s: seq<T>) {
    forall i, j :: 0 <= i < j < |s| ==> s[i] != s[j]
  }

  // ---------------------------------------------------------------------------
  // Removing an element
  // ---------------------------------------------------------------------------

  lemma {:induction false} WithoutLaws<T>(s: seq<T>, h: T)
    ensures forall x :: x in Without(s, h) <==> x in s && x != h
    ensures h !in s ==> Without(s, h) == s
    ensures |Without(s, h)| <= |s|
    ensures Distinct(s) ==> Distinct(Without(s, h))
    ensures Distinct(s) && h in s ==> |Without(s, h)| == |s| - 1
  {
    if s == [] {
    } else {
      WithoutLaws(s[1..], h);
      assert s == [s[0]] + s[1..];
      var w := Without(s[1..], h);
      if Distinct(s) {
        assert s[0] !in s[1..] && Distinct(s[1..]);
        assert s[0] != h ==> Distinct([s[0]] + w);
      }
    }
  }

  lemma {:induction false} WithoutConcat<T>(a: seq<T>, b: seq<T>, h: T)
    ensures Without(a + b, h) == Without(a, h) + Without(b, h)
  {
    if a == [] {
      assert a + b == b;
    } else {
      assert (a + b)[1..] == a[1..] + b;
      WithoutConcat(a[1..], b, h);
    }
  }

  lemma TakeIsPrefix<T>(s: seq<T>, n: nat)
    ensures Take(s, n) == if |s| <= n then s else s[..n]
  {}

  lemma SplitAt<T>(s: seq<T>, n: nat)
    requires n <= |s|
    ensures s == s[..n] + s[n..]
    ensures Distinct(s) ==> Distinct(s[..n])
  {}

  lemma WithoutOneLess<T>(s: seq<T>, h: T)
    requires Distinct(s)
    ensures |Without(s, h)| >= |s| - 1
  {
    hide Without, Distinct;
    WithoutLaws(s, h);
  }

  lemma TakeOfConcat<T>(a: seq<T>, b: seq<T>, n: nat)
    requires |a| >= n
    ensures Take(a + b, n) == Take(a, n)
  {
  }

  /** Capping before pushing loses nothing that capping after it would have kept. */
  lemma PushOfTake<T>(s: seq<T>, h: T, depth: nat)
    requires Distinct(s)
    ensures Push(Take(s, depth), h, depth) == Push(s, h, depth)
  {
    hide Without, Distinct, Take;
    TakeIsPrefix(s, depth);
    if |s| > depth {
      var a, b := s[..depth], s[depth..];
      SplitAt(s, depth);
      WithoutConcat(a, b, h);
      WithoutLaws(a, h);
      WithoutOneLess(a, h);
      TakeOfConcat([h] + Without(a, h), Without(b, h), depth);
      Regroup([h], Without(a, h), Without(b, h));
    }
  }

  lemma {:induction false} FirstsLaws<T>(s: seq<T>)
    ensures Distinct(Firsts(s)) && forall x :: x in Firsts(s) <==> x in s
  {
    if s == [] {
    } else {
      FirstsLaws(s[1..]);
      WithoutLaws(Firsts(s[1..]), s[0]);
      assert s == [s[0]] + s[1..];
      var f := Firsts(s);
      assert forall x :: x in f <==> x == s[0] || x in Without(Firsts(s[1..]), s[0]);
    }
  }

  // ---------------------------------------------------------------------------
  // Whole runs
  // ---------------------------------------------------------------------------

  datatype Track = Track(target: string, history: seq<string>)

  /** One publish. The empty target is that of a track never published. */
  function Publish(t: Track, hash: string, depth: nat): Track {
    Track(hash, if t.target != hash && t.target != "" then Push(t.history, t.target, depth) else t.history)
  }

  function PublishAll(hashes: seq<string>, depth: nat): Track {
    if hashes == [] then Track("", [])
    else Publish(PublishAll(hashes[..|hashes| - 1], depth), hashes[|hashes| - 1], depth)
  }

  /** Every hash the track moved away from, most recent first, as often as it happened. */
  function Superseded(hashes: seq<string>): seq<string> {
    if |hashes| < 2 then []
    else
      var n := |hashes| - 1;
      (if hashes[n] != hashes[n - 1] then [hashes[n - 1]] else []) + Superseded(hashes[..n])
  }

  /** After any run of publishes on a track, its history is the first `depth` entries of the full
      most-recently-superseded-first order, without duplicates: capping at every step loses nothing compared
      with capping once. */
  lemma {:induction false} HistoryIsExact(hashes: seq<string>, depth: nat)
    requires "" !in hashes
    ensures var t := PublishAll(hashes, depth);
            && t.target == (if hashes == [] then "" else hashes[|hashes| - 1])
            && t.history == Take(Firsts(Superseded(hashes)), depth)
            && Distinct(t.history)
  {
    FirstsLaws(Superseded(hashes));
    if hashes == [] {
    } else {
      var n := |hashes| - 1;
      HistoryIsExact(hashes[..n], depth);
      if n > 0 && hashes[n] != hashes[n - 1] {
        var s := Superseded(hashes[..n]);
        FirstsLaws(s);
        PushOfTake(Firsts(s), hashes[n - 1], depth);
        assert hashes[n - 1] in hashes;
        assert Superseded(hashes) == [hashes[n - 1]] + s && Superseded(hashes)[1..] == s;
      } else if n > 0 {
        assert Superseded(hashes) == Superseded(hashes[..n]);
      }
    }
  }
}
