/** The paths of derived artifacts (`pkg/protocol/constants.go`), and the routes that take a request for one to it
    (`pkg/server/http_handler.go`). */
module Routes {
  import opened Wrappers
  import opened Hex
  import opened ArtifactKeys
  import opened Names

  const PATH_DELTA := "/delta"
  const PATH_BINARY := "/binary"

  /** The path printed in a manifest. */
  function Endpoint(t: Transfer): string {
    match t
    case Delta(f, to) => PATH_DELTA + "/" + f + "/" + to
    case Full(h) => PATH_BINARY + "/" + h
  }

  /** GET /delta/{from}/{to} and GET /binary/{hash}. Both handlers refuse what is not a digest. */
  function Routed(path: string): Option<Transfer> {
    var parts := Split(path, '/');
    if |parts| == 4 && parts[0] == "" && parts[1] == "delta" && IsValidHash(parts[2]) && IsValidHash(parts[3])
    then Some(Delta(parts[2], parts[3]))
    else if |parts| == 3 && parts[0] == "" && parts[1] == "binary" && IsValidHash(parts[2]) then Some(Full(parts[2]))
    else None
  }

  lemma HashHasNoSlash(h: string)
    requires IsValidHash(h)
    ensures '/' !in h
  {
  }

  lemma {:induction false} SplitJoin(parts: seq<string>, sep: char)
    requires |parts| >= 1 && forall i :: 0 <= i < |parts| ==> sep !in parts[i]
    ensures Split(Join(parts, sep), sep) == parts
  {
    hide Split;
    if |parts| == 1 {
      SplitWhole(parts[0], sep);
    } else {
      SplitJoin(parts[1..], sep);
      SplitSegment(parts[0], Join(parts[1..], sep), sep);
    }
  }

  function Segments(t: Transfer): seq<string> {
    match t
    case Delta(f, to) => ["", "delta", f, to]
    case Full(h) => ["", "binary", h]
  }

  lemma JoinThree(a: string, b: string, c: string, sep: char)
    ensures Join([a, b, c], sep) == a + [sep] + (b + [sep] + c)
  {
    assert [a, b, c][1..] == [b, c] && [b, c][1..] == [c];
    assert Join([b, c], sep) == b + [sep] + c;
  }

  lemma JoinFour(a: string, b: string, c: string, d: string, sep: char)
    ensures Join([a, b, c, d], sep) == a + [sep] + (b + [sep] + (c + [sep] + d))
  {
    assert [a, b, c, d][1..] == [b, c, d];
    JoinThree(b, c, d, sep);
  }

  lemma EndpointJoins(t: Transfer)
    ensures Endpoint(t) == Join(Segments(t), '/')
  {
    hide Join;
    match t
    case Delta(f, to) =>
      JoinFour("", "delta", f, to, '/');
      assert "/delta" + "/" == "/delta/" && "" + ['/'] + ("delta" + ['/']) == "/delta/";
      assert Endpoint(t) == "" + ['/'] + ("delta" + ['/'] + (f + ['/'] + to));
    case Full(h) =>
      JoinThree("", "binary", h, '/');
      assert Endpoint(t) == "" + ['/'] + ("binary" + ['/'] + h);
  }

  /** A printed path is routed to what it was printed for... */
  lemma RoutedEndpoint(t: Transfer)
    requires ValidTransfer(t)
    ensures Routed(Endpoint(t)) == Some(t)
  {
    hide IsValidHash, Split, Join, Endpoint;
    EndpointJoins(t);
    match t {
      case Delta(f, to) =>
        HashHasNoSlash(f);
        HashHasNoSlash(to);
      case Full(h) =>
        HashHasNoSlash(h);
    }
    SplitJoin(Segments(t), '/');
  }

  /** ...and no other path is routed there. */
  lemma EndpointOfRouted(path: string)
    requires Routed(path).Some?
    ensures ValidTransfer(Routed(path).value) && Endpoint(Routed(path).value) == path
  {
    hide IsValidHash, Split, Join, Endpoint;
    JoinSplit(path, '/');
    EndpointJoins(Routed(path).value);
    assert Split(path, '/') == Segments(Routed(path).value);
  }
}
