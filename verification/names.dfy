/** File names and cache keys of derived artifacts (`pkg/server/store.go`, `retention.go`, `manifest.go`). */
module Names {
  import opened Wrappers
  import opened Hex

  function DeltaName(from: string, to: string): string { from + "_" + to + ".delta.zst" }

  function FullName(hash: string): string { hash + ".full.zst" }

  /** Hot-cache keys. */
  function HotDeltaKey(from: string, to: string): string { "d:" + from + "_" + to }

  function HotFullKey(hash: string): string { "f:" + hash }

  /** The key under which a delta generation is deduplicated; a full one uses its hot-cache key. */
  function DeltaFlightKey(from: string, to: string): string { from + "_" + to }

  /** Manifest cache key. */
  function ManifestKey(artifact: string, from: string, to: string): string { artifact + "|" + from + "|" + to }

  datatype Transfer = Delta(from: string, to: string) | Full(hash: string)

  function CutSuffix(s: string, suffix: string): Option<string> {
    if |suffix| <= |s| && s[|s| - |suffix|..] == suffix then Some(s[..|s| - |suffix|]) else None
  }

  /** Split at the first separator. */
  function Cut(s: string, sep: char): Option<(string, string)> {
    if s == "" then None
    else if s[0] == sep then Some(("", s[1..]))
    else match Cut(s[1..], sep)
         case None => None
         case Some((a, b)) => Some(([s[0]] + a, b))
  }

  function ParseTransferName(name: string): Option<Transfer> {
    match CutSuffix(name, ".delta.zst")
    case Some(base) =>
      (match Cut(base, '_')
       case Some((f, t)) => if IsValidHash(f) && IsValidHash(t) then Some(Delta(f, t)) else None
       case None => None)
    case None =>
      match CutSuffix(name, ".full.zst")
      case Some(base) => if IsValidHash(base) then Some(Full(base)) else None
      case None => None
  }

  predicate ValidTransfer(t: Transfer) {
    match t
    case Delta(f, to) => IsValidHash(f) && IsValidHash(to)
    case Full(h) => IsValidHash(h)
  }

  function NameOf(t: Transfer): string {
    match t
    case Delta(f, to) => DeltaName(f, to)
    case Full(h) => FullName(h)
  }

  lemma {:induction false} CutJoins(s: string, sep: char)
    ensures match Cut(s, sep)
            case None => sep !in s
            case Some((a, b)) => s == a + [sep] + b && sep !in a
  {
    if s == "" {
    } else {
      CutJoins(s[1..], sep);
      assert s == [s[0]] + s[1..];
      if s[0] != sep && Cut(s[1..], sep).Some? {
        var (a, b) := Cut(s[1..], sep).value;
        assert s == [s[0]] + a + [sep] + b;
      }
    }
  }

  lemma {:induction false} CutAt(a: string, b: string, sep: char)
    requires sep !in a
    ensures Cut(a + [sep] + b, sep) == Some((a, b))
  {
    var s := a + [sep] + b;
    if a == "" {
      assert s[1..] == b;
    } else {
      CutAt(a[1..], b, sep);
      assert s[1..] == a[1..] + [sep] + b;
      assert a == [a[0]] + a[1..];
    }
  }

  lemma SuffixOfConcat(base: string, suffix: string)
    ensures CutSuffix(base + suffix, suffix) == Some(base)
  {
    var s := base + suffix;
    assert s[|s| - |suffix|..] == suffix && s[..|s| - |suffix|] == base;
  }

  /** A full name never ends like a delta name. */
  lemma SuffixesDiffer(base: string)
    ensures CutSuffix(base + ".full.zst", ".delta.zst") == None
  {
    var s, d := base + ".full.zst", ".delta.zst";
    if |d| <= |s| {
      var tail := s[|s| - |d|..];
      assert tail[5] == s[|s| - 5] == ".full.zst"[4] != d[5];
    }
  }

  /** Parsing inverts both names on valid digests... */
  lemma ParseOfName(t: Transfer)
    requires ValidTransfer(t)
    ensures ParseTransferName(NameOf(t)) == Some(t)
  {
    match t
    case Delta(f, to) =>
      var base := f + "_" + to;
      assert DeltaName(f, to) == base + ".delta.zst";
      SuffixOfConcat(base, ".delta.zst");
      assert '_' !in f;
      assert base == f + ['_'] + to;
      CutAt(f, to, '_');
    case Full(h) =>
      SuffixesDiffer(h);
      SuffixOfConcat(h, ".full.zst");
  }

  /** ...and accepts no other name: whatever parses is the name of what it parses to. */
  lemma NameOfParse(name: string)
    requires ParseTransferName(name).Some?
    ensures ValidTransfer(ParseTransferName(name).value) && NameOf(ParseTransferName(name).value) == name
  {
    if CutSuffix(name, ".delta.zst").Some? {
      var base := CutSuffix(name, ".delta.zst").value;
      CutJoins(base, '_');
      assert name == base + ".delta.zst";
    } else {
      assert name == CutSuffix(name, ".full.zst").value + ".full.zst";
    }
  }

  function FlightKey(t: Transfer): string {
    match t
    case Delta(f, to) => DeltaFlightKey(f, to)
    case Full(h) => HotFullKey(h)
  }

  function HotKey(t: Transfer): string {
    match t
    case Delta(f, to) => HotDeltaKey(f, to)
    case Full(h) => HotFullKey(h)
  }

  /** Deltas and whole binaries never share a flight or a hot-cache entry, and neither do two different ones of
      a kind. */
  lemma KeysAreDistinct(t: Transfer, u: Transfer)
    requires ValidTransfer(t) && ValidTransfer(u) && t != u
    ensures FlightKey(t) != FlightKey(u) && HotKey(t) != HotKey(u)
  {
    match (t, u)
    case (Delta(f1, t1), Delta(f2, t2)) =>
      assert (f1 + "_" + t1)[..64] == f1 && (f2 + "_" + t2)[..64] == f2;
      assert (f1 + "_" + t1)[65..] == t1 && (f2 + "_" + t2)[65..] == t2;
      assert HotKey(t)[2..] == FlightKey(t) && HotKey(u)[2..] == FlightKey(u);
    case (Full(h1), Full(h2)) =>
      assert HotFullKey(h1)[2..] == h1 && HotFullKey(h2)[2..] == h2;
    case (Delta(f, to), Full(h)) =>
      assert FlightKey(t)[1] == f[1] && IsLowerHex(f[1]) && FlightKey(u)[1] == ':';
      assert HotKey(t)[0] == 'd' && HotKey(u)[0] == 'f';
    case (Full(h), Delta(f, to)) =>
      assert FlightKey(u)[1] == f[1] && IsLowerHex(f[1]) && FlightKey(t)[1] == ':';
      assert HotKey(u)[0] == 'd' && HotKey(t)[0] == 'f';
  }

  /** The manifest cache key determines its three parts, when the artifact's text has no '|' and the source part
      is empty or a digest. */
  lemma ManifestKeyInjective(a1: string, f1: string, t1: string, a2: string, f2: string, t2: string)
    requires '|' !in a1 && '|' !in a2 && '|' !in f1 && '|' !in f2
    requires ManifestKey(a1, f1, t1) == ManifestKey(a2, f2, t2)
    ensures a1 == a2 && f1 == f2 && t1 == t2
  {
    assert ManifestKey(a1, f1, t1) == a1 + ['|'] + (f1 + ['|'] + t1);
    assert ManifestKey(a2, f2, t2) == a2 + ['|'] + (f2 + ['|'] + t2);
    CutAt(a1, f1 + ['|'] + t1, '|');
    CutAt(a2, f2 + ['|'] + t2, '|');
    CutAt(f1, t1, '|');
    CutAt(f2, t2, '|');
  }
}
