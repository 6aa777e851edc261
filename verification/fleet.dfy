/** The server and a device together: a published binary reaches the slot of a device that is allowed to take it. */
module Fleet {
  import opened Wrappers
  import opened Hex
  import opened Primitives
  import opened Messages
  import opened Acceptance
  import opened Registries
  import D = Device
  import P = Promises
  import S = Serving
  import T = Transfer
  import U = Updaters

  lemma AcceptedIsRebuilt(c: Crypto, resp: ManifestResponse, active: Bytes, transfer: Bytes)
    requires Accept(c, resp, active, transfer).Ok?
    ensures CheckManifest(c, resp).None? && c.sha256(transfer) == resp.deltaHash
    ensures Reconstruct(c, resp, active, transfer) == Accept(c, resp, active, transfer)
    ensures resp.signature != "" && resp.targetHash != "" && resp.deltaHash != ""
  {
    hide Reconstruct;
  }

  /** Whoever is awake, allowed or forced, is answered with a signed manifest and gets its bytes through, however often
      the download is cut off before its attempts are used up, ends on the published binary if the restart takes, and with
      the update undone if not. `other` is the server at the time it is fetched from. */
  lemma DeviceIsUpdated(cfg: S.Config, s: S.Server, hb: Heartbeat, art: Artifact, other: S.Server, payload: Bytes,
                        d: D.Disk, forced: bool, c: U.Cycle, store: T.Store, r: U.CycleResult)
    requires S.Reachable(cfg, s) && P.Behind(s, hb, art) && c.answer.Some?
    requires S.Build(cfg, s, hb).0 == Ok(c.answer.value) && c.answer.value.signature != ""
    requires S.Reachable(cfg, other) && P.Served(cfg, other, P.EndpointOf(c.answer.value)) == Some(payload)
    requires cfg.crypto.sha256(d.Active()) == hb.versionHash && Represents(cfg.crypto, cfg.content, d.Active())
    requires U.Awake(d.files, forced, c.now) && (forced || c.policyAllows)
    requires T.Clean(store, U.StagingTarget(c.answer.value), c.net.transport) && T.Faithful(c.net, payload) && T.SomeCompletes(c.net, 0, 0)
    requires U.ResultIs(d, forced, c, cfg.crypto, store, r)
    ensures r == if c.restarts then U.Replaced else U.CycleResult.RestartFailed
    ensures c.answer.value.targetHash == art.targetHash && cfg.crypto.sha256(cfg.content(art.targetHash)) == art.targetHash
    ensures Reconstruct(cfg.crypto, c.answer.value, d.Active(), payload) == Ok(cfg.content(art.targetHash))
  {
    hide S.Reachable, P.Behind, S.Build, P.Served, P.EndpointOf, T.Clean, T.Faithful, T.SomeCompletes, CheckManifest, Reconstruct, Accept,
         Represents, U.Awake, U.StagingTarget, Crypto.Lawful;
    P.ServedIsAccepted(cfg, s, hb, art, c.answer.value, other, payload, d.Active());
    AcceptedIsRebuilt(cfg.crypto, c.answer.value, d.Active(), payload);
    assert U.Delivers(c.net, c.answer.value, store, cfg.crypto.sha256, payload);
    assert U.MayUpdate(d.files, forced, c);
  }
}
