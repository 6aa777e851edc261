/** Artifact keys and their canonical text (`pkg/protocol/artifact.go`). */
module ArtifactKeys {
  import opened Wrappers

  const MAX_NAME_LEN := 64
  const MAX_OS_LEN := 32
  const MAX_ARCH_LEN := 32

  datatype ArtifactKey = ArtifactKey(name: string, os: string, arch: string)

  datatype KeyError =
    | EmptyKey
    | WrongSegmentCount(segments: nat)
    | NameRequired
    | NameTooLong
    | NameCharset
    | PlatformHalfSet
    | OsTooLong
    | ArchTooLong
    | OsCharset
    | ArchCharset

  /** "name" or "name/os/arch". */
  function KeyString(k: ArtifactKey): string {
    if k.os == "" && k.arch == "" then k.name else k.name + "/" + k.os + "/" + k.arch
  }

  predicate NameChar(c: char) {
    'a' <= c <= 'z' || 'A' <= c <= 'Z' || '0' <= c <= '9' || c == '.' || c == '_' || c == '-'
  }

  predicate TokenChar(c: char) {
    'a' <= c <= 'z' || '0' <= c <= '9'
  }

  predicate ValidArtifactName(s: string) {
    s != "." && s != ".." && forall i :: 0 <= i < |s| ==> NameChar(s[i])
  }

  predicate ValidPlatformToken(s: string) {
    forall i :: 0 <= i < |s| ==> TokenChar(s[i])
  }

  /** The first check that fails, in the order they are made. */
  function Validate(k: ArtifactKey): Option<KeyError> {
    if k.name == "" then Some(NameRequired)
    else if |k.name| > MAX_NAME_LEN then Some(NameTooLong)
    else if !ValidArtifactName(k.name) then Some(NameCharset)
    else if (k.os == "") != (k.arch == "") then Some(PlatformHalfSet)
    else if k.os == "" then None
    else if |k.os| > MAX_OS_LEN then Some(OsTooLong)
    else if |k.arch| > MAX_ARCH_LEN then Some(ArchTooLong)
    else if !ValidPlatformToken(k.os) then Some(OsCharset)
    else if !ValidPlatformToken(k.arch) then Some(ArchCharset)
    else None
  }

  predicate ValidKey(k: ArtifactKey) {
    Validate(k).None?
  }

  /** Cut a string at every separator; always at least one segment. */
  function Split(s: string, sep: char): (parts: seq<string>)
    ensures |parts| >= 1
  {
    if s == "" then [""]
    else
      var rest := Split(s[1..], sep);
      if s[0] == sep then [""] + rest else [[s[0]] + rest[0]] + rest[1..]
  }

  function ParseArtifactKey(s: string): Result<ArtifactKey, KeyError> {
    if s == "" then Err(EmptyKey)
    else
      var parts := Split(s, '/');
      if |parts| != 1 && |parts| != 3 then Err(WrongSegmentCount(|parts|))
      else
        var k := if |parts| == 1 then ArtifactKey(parts[0], "", "")
                 else ArtifactKey(parts[0], parts[1], parts[2]);
        match Validate(k)
        case None => Ok(k)
        case Some(e) => Err(e)
  }

  function Join(parts: seq<string>, sep: char): string
    requires |parts| >= 1
  {
    if |parts| == 1 then parts[0] else parts[0] + [sep] + Join(parts[1..], sep)
  }

  lemma {:induction false} JoinSplit(s: string, sep: char)
    ensures Join(Split(s, sep), sep) == s
  {
    if s == "" {
    } else {
      var rest := Split(s[1..], sep);
      JoinSplit(s[1..], sep);
      if s[0] == sep {
        assert Split(s, sep)[1..] == rest;
        assert s == [s[0]] + s[1..];
      } else {
        var parts := Split(s, sep);
        assert parts[1..] == rest[1..];
        assert s == [s[0]] + s[1..];
        if |rest| > 1 {
          assert Join(parts, sep) == [s[0]] + rest[0] + [sep] + Join(rest[1..], sep);
        }
      }
    }
  }

  /** A segment without the separator is split off whole. */
  lemma {:induction false} SplitSegment(a: string, rest: string, sep: char)
    requires sep !in a
    ensures Split(a + [sep] + rest, sep) == [a] + Split(rest, sep)
  {
    var s := a + [sep] + rest;
    if a == "" {
      assert s[1..] == rest;
    } else {
      SplitSegment(a[1..], rest, sep);
      assert s[1..] == a[1..] + [sep] + rest;
      assert a == [a[0]] + a[1..];
    }
  }

  lemma {:induction false} SplitWhole(a: string, sep: char)
    requires sep !in a
    ensures Split(a, sep) == [a]
  {
    if a == "" {
    } else {
      SplitWhole(a[1..], sep);
      assert a == [a[0]] + a[1..];
    }
  }

  /** Printing then parsing a valid key gives the key back. */
  lemma ParseOfString(k: ArtifactKey)
    requires ValidKey(k)
    ensures ParseArtifactKey(KeyString(k)) == Ok(k)
  {
    assert '/' !in k.name;
    if k.os == "" {
      SplitWhole(k.name, '/');
    } else {
      assert '/' !in k.os && '/' !in k.arch;
      assert KeyString(k) == k.name + ['/'] + (k.os + ['/'] + k.arch);
      SplitSegment(k.name, k.os + ['/'] + k.arch, '/');
      SplitSegment(k.os, k.arch, '/');
      SplitWhole(k.arch, '/');
    }
  }

  /** So no two valid keys share a text. */
  lemma KeyStringInjective(k1: ArtifactKey, k2: ArtifactKey)
    requires ValidKey(k1) && ValidKey(k2) && KeyString(k1) == KeyString(k2)
    ensures k1 == k2
  {
    ParseOfString(k1);
    ParseOfString(k2);
  }

  /** Parsing then printing gives the text back for every accepted text except "name//", which is accepted
      and prints as "name". */
  lemma StringOfParse(s: string)
    requires ParseArtifactKey(s).Ok?
    ensures var k := ParseArtifactKey(s).value;
            ValidKey(k) && (KeyString(k) == s <==> s != k.name + "//")
  {
    var k := ParseArtifactKey(s).value;
    var parts := Split(s, '/');
    JoinSplit(s, '/');
    if |parts| == 1 {
      assert s == k.name;
    } else {
      assert |parts| == 3 && parts[1..][1..] == [parts[2]];
      assert Join(parts[1..], '/') == parts[1] + ['/'] + parts[2];
      assert s == parts[0] + ['/'] + (parts[1] + ['/'] + parts[2]);
      assert s == k.name + "/" + k.os + "/" + k.arch;
      if k.os != "" { assert |s| > |k.name + "//"|; }
    }
  }

  /** The exception is real: every valid platform-free name followed by "//" is accepted. */
  lemma DoubleSlashAccepted(name: string)
    requires ValidKey(ArtifactKey(name, "", ""))
    ensures ParseArtifactKey(name + "//") == Ok(ArtifactKey(name, "", ""))
    ensures KeyString(ArtifactKey(name, "", "")) == name != name + "//"
  {
    assert '/' !in name;
    assert name + "//" == name + ['/'] + ("" + ['/'] + "");
    SplitSegment(name, "" + ['/'] + "", '/');
    SplitSegment("", "", '/');
  }

  // ---------------------------------------------------------------------------
  // Which texts are keys
  // ---------------------------------------------------------------------------

  /** One to 64 letters, digits, dots, underscores and hyphens, and no path to here or above. */
  predicate IsName(s: string) {
    && 1 <= |s| <= 64 && s != "." && s != ".."
    && forall i :: 0 <= i < |s| ==>
         'a' <= s[i] <= 'z' || 'A' <= s[i] <= 'Z' || '0' <= s[i] <= '9' || s[i] == '.' || s[i] == '_' || s[i] == '-'
  }

  /** One to 32 lowercase letters and digits. */
  predicate IsToken(s: string) {
    1 <= |s| <= 32 && forall i :: 0 <= i < |s| ==> 'a' <= s[i] <= 'z' || '0' <= s[i] <= '9'
  }

  predicate IsPlatform(os: string, arch: string) {
    (os == "" && arch == "") || (IsToken(os) && IsToken(arch))
  }

  /** A name, or a name, an operating system and an architecture between slashes. */
  ghost predicate IsKeyText(s: string) {
    IsName(s) || exists name, os, arch :: s == name + "/" + os + "/" + arch && IsName(name) && IsPlatform(os, arch)
  }

  lemma ValidKeyIff(k: ArtifactKey)
    ensures ValidKey(k) <==> IsName(k.name) && IsPlatform(k.os, k.arch)
  {
  }

  lemma NameHasNoSlash(s: string)
    requires IsName(s)
    ensures '/' !in s && s != ""
  {
  }

  lemma PlatformMayBeEmpty()
    ensures IsPlatform("", "")
  {
  }

  lemma PlatformHasNoSlash(os: string, arch: string)
    requires IsPlatform(os, arch)
    ensures '/' !in os && '/' !in arch
  {
  }

  lemma TextOfParts(parts: seq<string>)
    requires |parts| >= 1
    ensures |parts| == 1 ==> Join(parts, '/') == parts[0]
    ensures |parts| == 3 ==> Join(parts, '/') == parts[0] + "/" + parts[1] + "/" + parts[2]
  {
    if |parts| == 3 {
      assert parts[1..][1..] == [parts[2]];
      assert Join(parts[1..], '/') == parts[1] + ['/'] + parts[2];
    }
  }

  lemma SplitText(name: string, os: string, arch: string)
    requires IsName(name) && IsPlatform(os, arch)
    ensures Split(name + "/" + os + "/" + arch, '/') == [name, os, arch] && name + "/" + os + "/" + arch != ""
  {
    hide Split, IsName, IsPlatform;
    NameHasNoSlash(name);
    PlatformHasNoSlash(os, arch);
    assert name + "/" + os + "/" + arch == name + ['/'] + (os + ['/'] + arch);
    SplitSegment(name, os + ['/'] + arch, '/');
    SplitSegment(os, arch, '/');
    SplitWhole(arch, '/');
  }

  /** The parser accepts exactly these texts. */
  lemma AcceptedTextsIff(s: string)
    ensures ParseArtifactKey(s).Ok? <==> IsKeyText(s)
  {
    hide Validate, IsName, IsPlatform, Split;
    if ParseArtifactKey(s).Ok? {
      var k := ParseArtifactKey(s).value;
      ValidKeyIff(k);
      JoinSplit(s, '/');
      TextOfParts(Split(s, '/'));
    }
    if IsName(s) {
      NameHasNoSlash(s);
      SplitWhole(s, '/');
      ValidKeyIff(ArtifactKey(s, "", ""));
      PlatformMayBeEmpty();
    }
    forall name, os, arch | s == name + "/" + os + "/" + arch && IsName(name) && IsPlatform(os, arch) ensures ParseArtifactKey(s).Ok? {
      SplitText(name, os, arch);
      ValidKeyIff(ArtifactKey(name, os, arch));
    }
  }
}
