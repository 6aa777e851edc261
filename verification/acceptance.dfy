/** The checks between a manifest and the slot it is written to (`pkg/agent/updater.go`, RunOnce). */
module Acceptance {
  import opened Wrappers
  import opened Hex
  import opened Signing
  import opened Primitives
  import opened Messages

  datatype CycleError =
    | MissingField
    | BadPayload
    | BadSignatureHex
    | BadSignature
    | NoEndpoint
    | TransferMismatch
    | Unpack
    | Patch
    | WrongTarget

  predicate FullDownload(resp: ManifestResponse) {
    resp.binaryEndpoint != ""
  }

  /** Everything that is checked before a byte is downloaded. */
  function CheckManifest(c: Crypto, resp: ManifestResponse): Option<CycleError> {
    if resp.signature == "" || resp.targetHash == "" || resp.deltaHash == "" then Some(MissingField)
    else
      var payload := ManifestSigningPayload(resp.targetHash, resp.deltaHash);
      var sig := Decode(resp.signature);
      if payload.None? then Some(BadPayload)
      else if sig.None? then Some(BadSignatureHex)
      else if !c.verify(payload.value, sig.value) then Some(BadSignature)
      else if resp.binaryEndpoint == "" && resp.deltaEndpoint == "" then Some(NoEndpoint)
      else None
  }

  /** The new binary: unpacked whole, or patched onto the active one; kept only if it has the signed digest. */
  function Reconstruct(c: Crypto, resp: ManifestResponse, active: Bytes, transfer: Bytes): Result<Bytes, CycleError> {
    var rebuilt := if FullDownload(resp) then c.decompress(transfer) else c.apply(active, transfer);
    match rebuilt
    case None => Err(if FullDownload(resp) then Unpack else Patch)
    case Some(bin) => if c.sha256(bin) != resp.targetHash then Err(WrongTarget) else Ok(bin)
  }

  /** What the cycle is about to stage, given what was downloaded for it. */
  function Accept(c: Crypto, resp: ManifestResponse, active: Bytes, transfer: Bytes): Result<Bytes, CycleError> {
    match CheckManifest(c, resp)
    case Some(e) => Err(e)
    case None => if c.sha256(transfer) != resp.deltaHash then Err(TransferMismatch)
                 else Reconstruct(c, resp, active, transfer)
  }

  /** (target, transfer) digests the server has signed. */
  type SignedPairs = iset<(string, string)>

  ghost predicate WellFormedPairs(signed: SignedPairs) {
    forall t, d :: (t, d) in signed ==> IsValidHash(t) && IsValidHash(d)
  }

  ghost predicate SignedPayload(signed: SignedPairs, payload: Bytes) {
    exists t, d :: (t, d) in signed && ManifestSigningPayload(t, d) == Some(payload)
  }

  /** Nobody but the server can sign: a manifest whose signature verifies carries a payload the server signed. */
  ghost predicate Unforged(c: Crypto, signed: SignedPairs, resp: ManifestResponse) {
    var p, sig := ManifestSigningPayload(resp.targetHash, resp.deltaHash), Decode(resp.signature);
    p.Some? && sig.Some? && c.verify(p.value, sig.value) ==> SignedPayload(signed, p.value)
  }

  /** What it takes to pass: a signature, in hex, over the bytes of both digests, and somewhere to fetch from. */
  lemma ManifestPassesIff(c: Crypto, resp: ManifestResponse)
    ensures CheckManifest(c, resp).None? <==>
        var target, transfer, sig := Decode(resp.targetHash), Decode(resp.deltaHash), Decode(resp.signature);
        && target.Some? && transfer.Some? && sig.Some? && c.verify(target.value + transfer.value, sig.value)
        && resp.signature != "" && resp.targetHash != "" && resp.deltaHash != ""
        && (resp.binaryEndpoint != "" || resp.deltaEndpoint != "")
  {
    hide Decode;
  }

  /** Whatever a response says, getting as far as the slot means its two digests are precisely a pair the
      server signed, and the staged binary has the first of them. */
  lemma AcceptedIsSigned(c: Crypto, signed: SignedPairs, resp: ManifestResponse, active: Bytes, transfer: Bytes)
    requires c.Lawful() && WellFormedPairs(signed) && Unforged(c, signed, resp)
    requires Accept(c, resp, active, transfer).Ok?
    ensures (resp.targetHash, resp.deltaHash) in signed
    ensures c.sha256(Accept(c, resp, active, transfer).value) == resp.targetHash
  {
    var p := ManifestSigningPayload(resp.targetHash, resp.deltaHash).value;
    var t, d :| (t, d) in signed && ManifestSigningPayload(t, d) == Some(p);
    PayloadPinsDigests(t, d, resp.targetHash, resp.deltaHash);
  }

  /** The signature check alone would not do: the same signature also verifies for digests that were never
      signed together, whenever a signed transfer digest is split elsewhere. */
  lemma VerifiedIsNotSigned(c: Crypto, signed: SignedPairs, target: string, moved: string, transfer: string, resp: ManifestResponse)
    requires WellFormedPairs(signed) && (target, moved + transfer) in signed && |moved| % 2 == 0 && moved != "" && transfer != ""
    requires CheckManifest(c, resp).None? && resp.targetHash == target && resp.deltaHash == moved + transfer
    ensures CheckManifest(c, resp.(targetHash := target + moved, deltaHash := transfer)).None?
    ensures (target + moved, transfer) !in signed
  {
    hide Decode;
    var both := moved + transfer;
    assert both[..|moved|] == moved && both[|moved|..] == transfer;
    forall i | 0 <= i < |moved| ensures IsLowerHex(moved[i]) { assert both[i] == moved[i]; }
    forall i | 0 <= i < |transfer| ensures IsLowerHex(transfer[i]) { assert both[|moved| + i] == transfer[i]; }
    EncodeDecode(target);
    EncodeDecode(moved);
    EncodeDecode(transfer);
    PayloadBoundaryMoves(target, moved, transfer);
  }
}
