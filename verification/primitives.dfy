/** The third-party functions the system is built on, kept abstract. */
module Primitives {
  import opened Wrappers
  import opened Hex
  import opened Names

  /** SHA-256 as lowercase hex, one Ed25519 key pair (signing is deterministic, section 5.1.6 of RFC 8032),
      bsdiff and zstd. */
  datatype Crypto = Crypto(
    sha256: Bytes -> string,
    sign: Bytes -> Bytes,
    verify: (Bytes, Bytes) -> bool,
    generate: (Bytes, Bytes) -> Bytes,
    apply: (Bytes, Bytes) -> Option<Bytes>,
    compress: Bytes -> Bytes,
    decompress: Bytes -> Option<Bytes>)
  {
    /** The laws every result below may rely on. */
    ghost predicate Lawful() {
      && (forall b :: IsValidHash(sha256(b)))
      && (forall m :: verify(m, sign(m)) && sign(m) != [])
      && (forall o, n :: apply(o, generate(o, n)) == Some(n))
      && (forall b :: decompress(compress(b)) == Some(b))
    }
  }

  /** Collision-freedom on the contents in play: each of them is the one content its digest stands for. */
  ghost predicate Represents(c: Crypto, content: string -> Bytes, b: Bytes) {
    content(c.sha256(b)) == b
  }

  /** What belongs in the file, and in the caches, of a transfer. */
  function Derive(c: Crypto, content: string -> Bytes, t: Transfer): Bytes {
    match t
    case Delta(from, to) => c.generate(content(from), content(to))
    case Full(h) => c.compress(content(h))
  }

  /** The laws can all hold at once, so nothing proved from them is vacuous. */
  lemma LawsAreConsistent(b: Bytes) returns (c: Crypto, content: string -> Bytes)
    ensures c.Lawful() && Represents(c, content, b)
  {
    var digest := seq(HASH_LEN, _ => '0');
    c := Crypto(_ => digest, m => [0] + m, (m, s) => s == [0] + m,
                (o, n) => n, (o, p) => Some(p), b => b, b => Some(b));
    content := _ => b;
  }
}
