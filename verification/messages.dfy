/** The heartbeat a device sends and the manifest it gets back (`pkg/protocol/messages.go`, `validate.go`). */
module Messages {
  import opened Wrappers
  import opened ArtifactKeys

  const MAX_DEVICE_ID_LEN := 128
  const MAX_VERSION_LEN := 64

  datatype Heartbeat = Heartbeat(deviceId: string, versionHash: string, version: string, artifact: string)

  datatype ManifestResponse = ManifestResponse(
    updateAvailable: bool,
    artifact: string,
    targetVersion: string,
    targetHash: string,
    targetSize: int,
    deltaSize: int,
    deltaHash: string,
    chunkSize: int,
    totalChunks: int,
    signature: string,
    deltaEndpoint: string,
    binaryEndpoint: string,
    retryAfter: int)

  /** "no update available", for the artifact that was resolved. */
  function NoUpdate(artifact: string): ManifestResponse {
    ManifestResponse(false, artifact, "", "", 0, 0, "", 0, 0, "", "", "", 0)
  }

  predicate ValidPrintable(s: string) {
    forall i :: 0 <= i < |s| ==> s[i] >= ' ' && s[i] as int != 0x7f
  }

  /** The version hash is deliberately not looked at: a device with a corrupt one still needs an update. */
  predicate ValidHeartbeat(hb: Heartbeat) {
    && hb.deviceId != "" && |hb.deviceId| <= MAX_DEVICE_ID_LEN && ValidPrintable(hb.deviceId)
    && |hb.version| <= MAX_VERSION_LEN && ValidPrintable(hb.version)
    && (hb.artifact != "" ==> ParseArtifactKey(hb.artifact).Ok?)
  }

  /** What makes a heartbeat unacceptable; whatever its version hash is, that does not. */
  lemma RefusedHeartbeatIff(hb: Heartbeat)
    ensures !ValidHeartbeat(hb) <==>
        || hb.deviceId == "" || |hb.deviceId| > 128 || |hb.version| > 64
        || (exists c: char :: c in hb.deviceId + hb.version && (c as int < 0x20 || c as int == 0x7f))
        || (hb.artifact != "" && !IsKeyText(hb.artifact))
  {
    hide IsKeyText, ParseArtifactKey;
    AcceptedTextsIff(hb.artifact);
    if !ValidPrintable(hb.deviceId) {
      var i :| 0 <= i < |hb.deviceId| && (hb.deviceId[i] < ' ' || hb.deviceId[i] as int == 0x7f);
      assert hb.deviceId[i] in hb.deviceId + hb.version;
    }
    if !ValidPrintable(hb.version) {
      var i :| 0 <= i < |hb.version| && (hb.version[i] < ' ' || hb.version[i] as int == 0x7f);
      assert hb.version[i] in hb.deviceId + hb.version;
    }
  }
}
