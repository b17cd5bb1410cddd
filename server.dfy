/**
 * The optional global bearer check that `NewServer` installs in front of
 * every route when `AUTH_BEARER` is configured.
 */
module Server {
  import Config

  /** Paths that skip the global bearer check (they have their own authentication or none). */
  predicate BypassesBearer(path: string) {
    path == "/health"
    || "/v1/auth/" <= path
    || "/v1/entries" <= path
    || "/v1/user" <= path
    || "/v1/parse" <= path
  }

  /**
   * The test is a prefix test for the four route families, so any path
   * continuing one of them is exempt ("/v1/username", "/v1/entriesx"), while
   * "/health" is exempt only exactly.
   */
  lemma BypassIsPrefixTest(rest: string)
    ensures BypassesBearer("/v1/auth/" + rest) && BypassesBearer("/v1/entries" + rest)
    ensures BypassesBearer("/v1/user" + rest) && BypassesBearer("/v1/parse" + rest)
    ensures BypassesBearer("/health" + rest) <==> rest == ""
  {
    var h := "/health" + rest;
    assert "/v1/auth/" <= "/v1/auth/" + rest;
    assert "/v1/entries" <= "/v1/entries" + rest;
    assert "/v1/user" <= "/v1/user" + rest;
    assert "/v1/parse" <= "/v1/parse" + rest;
    assert h[1] == 'h';
    assert !("/v1/auth/" <= h) && !("/v1/entries" <= h) && !("/v1/user" <= h) && !("/v1/parse" <= h);
    if rest != "" {
      assert |h| > |"/health"|;
    }
  }

  /** Whether the global check is installed at all. */
  predicate BearerGateInstalled(cfg: Config.Config) {
    cfg.authBearer != ""
  }

  /** Whether a request passes the global bearer check. */
  function BearerGate(cfg: Config.Config, path: string, authorization: string): (allowed: bool)
    ensures !BearerGateInstalled(cfg) ==> allowed
    ensures BypassesBearer(path) ==> allowed
    ensures BearerGateInstalled(cfg) && !BypassesBearer(path) ==>
      (allowed <==> authorization == "Bearer " + cfg.authBearer)
  {
    if !BearerGateInstalled(cfg) then true
    else if BypassesBearer(path) then true
    else authorization == "Bearer " + cfg.authBearer
  }

  /** With the default configuration the global check is not installed: every request passes it. */
  lemma DefaultConfigHasNoGate(path: string, authorization: string)
    ensures !BearerGateInstalled(Config.Load(map[]))
    ensures BearerGate(Config.Load(map[]), path, authorization)
  {
    Config.LoadDefaults();
  }

  /** The upload route is not exempt: once installed, the global bearer is demanded there. */
  lemma UploadNeedsGlobalBearer(cfg: Config.Config, authorization: string)
    requires BearerGateInstalled(cfg)
    requires authorization != "Bearer " + cfg.authBearer
    ensures !BearerGate(cfg, "/v1/upload", authorization)
  {
    var path := "/v1/upload";
    assert !("/v1/user" <= path) by { assert path[5] != "/v1/user"[5]; }
    assert !("/v1/auth/" <= path) by { assert path[4] != "/v1/auth/"[4]; }
    assert !("/v1/entries" <= path) by { assert path[4] != "/v1/entries"[4]; }
    assert !("/v1/parse" <= path) by { assert path[4] != "/v1/parse"[4]; }
  }
}
