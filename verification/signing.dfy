/** The byte string a manifest signature covers (`pkg/protocol/signing.go`). */
module Signing {
  import opened Wrappers
  import opened Hex

  /** target digest bytes, then transfer digest bytes: no separator and no length check. */
  function ManifestSigningPayload(target: string, transfer: string): Option<Bytes> {
    match (Decode(target), Decode(transfer))
    case (Some(t), Some(d)) => Some(t + d)
    case _ => None
  }

  /** The payload alone does not fix the pair: a byte may move across the boundary. */
  lemma PayloadBoundaryMoves(target: string, moved: string, transfer: string)
    requires Decode(target).Some? && Decode(moved).Some? && Decode(transfer).Some?
    ensures ManifestSigningPayload(target + moved, transfer) == ManifestSigningPayload(target, moved + transfer)
    ensures ManifestSigningPayload(target, moved + transfer).Some?
  {
    var left, right := target + moved, moved + transfer;
    assert Decode(left) == Some(Decode(target).value + Decode(moved).value) by { DecodeConcat(target, moved); }
    assert Decode(right) == Some(Decode(moved).value + Decode(transfer).value) by { DecodeConcat(moved, transfer); }
    Regroup(Decode(target).value, Decode(moved).value, Decode(transfer).value);
  }

  /** On well-formed digests the payload does fix the pair. */
  lemma PayloadPinsDigests(t1: string, d1: string, t2: string, d2: string)
    requires IsValidHash(t1) && IsValidHash(d1) && IsValidHash(t2) && IsValidHash(d2)
    requires ManifestSigningPayload(t1, d1) == ManifestSigningPayload(t2, d2)
    ensures ManifestSigningPayload(t1, d1).Some?
    ensures t1 == t2 && d1 == d2
  {
    EncodeDecode(t1); EncodeDecode(d1); EncodeDecode(t2); EncodeDecode(d2);
    DecodeLength(t1); DecodeLength(t2);
    var p := ManifestSigningPayload(t1, d1).value;
    assert p[..32] == Decode(t1).value && p[32..] == Decode(d1).value;
    assert p[..32] == Decode(t2).value && p[32..] == Decode(d2).value;
  }
}
