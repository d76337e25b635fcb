/**
 * The service context (cmd/service.go): Solr client set-up from the
 * configuration, the health report, and the Authorization header check.
 */
module Service {
  import opened Wrappers
  import opened GoStrings
  import opened Config

  // ---------------------------------------------------------------------
  // integerWithMinimum and the Solr clients
  // ---------------------------------------------------------------------

  /** A decimal setting, or `min` when it is unparsable or below `min`. */
  function IntegerWithMinimum(str: string, min: int): (r: int)
    ensures r >= min
    ensures Atoi(str).Some? && Atoi(str).value >= min ==> r == Atoi(str).value
    ensures Atoi(str).None? || Atoi(str).value < min ==> r == min
  {
    var val := Atoi(str);
    if val.None? || val.value < min then min else val.value
  }

  /** A setting written by Itoa reads back as itself, floored at `min`. */
  lemma IntegerWithMinimumOfItoa(n: int, min: int)
    requires MinInt64 <= n <= MaxInt64
    ensures IntegerWithMinimum(Itoa(n), min) == if n < min then min else n
  {
    AtoiItoa(n);
  }

  /** A digit setting too large for an int64 is refused by Atoi, so it gives `min`. */
  lemma IntegerWithMinimumOutOfRange(ds: string, min: int)
    requires ds != "" && AllDigits(ds) && DecimalValue(ds) > MaxInt64
    ensures IntegerWithMinimum(ds, min) == min
    ensures IntegerWithMinimum("+" + ds, min) == min
  {
    AtoiUnsigned(ds);
    AtoiPlus(ds);
  }

  /** One Solr endpoint with its client's timeouts, in seconds. */
  datatype SolrClient = SolrClient(url: string, connTimeout: int, readTimeout: int)

  datatype ServiceSolr = ServiceSolr(service: SolrClient, healthCheck: SolrClient)

  /** The Solr URL: host, core and endpoint joined by "/". */
  function SolrUrl(host: string, core: string, endpoint: string): (url: string) {
    host + "/" + core + "/" + endpoint
  }

  /** Splitting a Solr URL on "/" gives the pieces of the host, then those of the core, then those of the endpoint. */
  lemma SolrUrlParts(host: string, core: string, endpoint: string)
    ensures SplitOn(SolrUrl(host, core, endpoint), '/') ==
      SplitOn(host, '/') + SplitOn(core, '/') + SplitOn(endpoint, '/')
  {
    assert SolrUrl(host, core, endpoint) == host + ['/'] + (core + ['/'] + endpoint);
    SplitOnSep(host, '/', core + ['/'] + endpoint);
    SplitOnSep(core, '/', endpoint);
  }

  /** httpClientWithTimeouts: both timeouts default and are floored to one second. */
  function ClientWithTimeouts(url: string, conn: string, read: string): (c: SolrClient)
    ensures c.url == url
    ensures c.connTimeout == IntegerWithMinimum(conn, 1) && c.readTimeout == IntegerWithMinimum(read, 1)
    ensures c.connTimeout >= 1 && c.readTimeout >= 1
    ensures Atoi(conn).None? || Atoi(conn).value < 1 ==> c.connTimeout == 1
    ensures Atoi(read).None? || Atoi(read).value < 1 ==> c.readTimeout == 1
    ensures Atoi(conn).Some? && Atoi(conn).value >= 1 ==> c.connTimeout == Atoi(conn).value
    ensures Atoi(read).Some? && Atoi(read).value >= 1 ==> c.readTimeout == Atoi(read).value
  {
    SolrClient(url, IntegerWithMinimum(conn, 1), IntegerWithMinimum(read, 1))
  }

  /** InitializeService: the service and health-check clients built from the configuration. */
  function InitializeService(cfg: ServiceConfig): (s: ServiceSolr)
    ensures s.service.url == cfg.solr.host + "/" + cfg.solr.core + "/" + cfg.solr.clients.service.endpoint
    ensures s.healthCheck.url == cfg.solr.host + "/" + cfg.solr.core + "/" + cfg.solr.clients.healthCheck.endpoint
    ensures s.service == ClientWithTimeouts(SolrUrl(cfg.solr.host, cfg.solr.core, cfg.solr.clients.service.endpoint),
                                            cfg.solr.clients.service.connTimeout, cfg.solr.clients.service.readTimeout)
    ensures s.healthCheck == ClientWithTimeouts(SolrUrl(cfg.solr.host, cfg.solr.core, cfg.solr.clients.healthCheck.endpoint),
                                                cfg.solr.clients.healthCheck.connTimeout, cfg.solr.clients.healthCheck.readTimeout)
    ensures s.service.connTimeout >= 1 && s.service.readTimeout >= 1
    ensures s.healthCheck.connTimeout >= 1 && s.healthCheck.readTimeout >= 1
  {
    var solr := cfg.solr;
    ServiceSolr(
      ClientWithTimeouts(SolrUrl(solr.host, solr.core, solr.clients.service.endpoint),
                         solr.clients.service.connTimeout, solr.clients.service.readTimeout),
      ClientWithTimeouts(SolrUrl(solr.host, solr.core, solr.clients.healthCheck.endpoint),
                         solr.clients.healthCheck.connTimeout, solr.clients.healthCheck.readTimeout))
  }

  // ---------------------------------------------------------------------
  // HealthCheckHandler
  // ---------------------------------------------------------------------

  datatype HealthReport = HealthReport(healthy: bool, message: string)

  datatype HealthResponse = HealthResponse(status: int, body: map<string, HealthReport>)

  /** The health response for the outcome of a Solr ping: None is success, Some(msg) the ping's error. */
  function HealthCheck(ping: Option<string>): (r: HealthResponse)
    ensures r.body.Keys == {"solr"}
    ensures r.status == StatusOK <==> ping.None?
    ensures r.status == StatusOK || r.status == StatusInternalServerError
    ensures r.body["solr"].healthy <==> r.status == StatusOK
    ensures ping.Some? ==> r.body["solr"].message == ping.value
    ensures ping.None? ==> r.body["solr"].message == ""
  {
    var report := if ping.Some? then HealthReport(false, ping.value) else HealthReport(true, "");
    var status := if ping.Some? then StatusInternalServerError else StatusOK;
    HealthResponse(status, map["solr" := report])
  }

  // ---------------------------------------------------------------------
  // getBearerToken
  // ---------------------------------------------------------------------

  datatype AuthError = InvalidHeader(header: string) | UndefinedToken

  /** The header's words, re-joined with single spaces and split again. */
  function HeaderComponents(authorization: string): (components: seq<string>) {
    SplitOn(Join(Fields(authorization), " "), ' ')
  }

  /** The components are the header's fields, or a single empty string when there are none. */
  lemma HeaderComponentsAreFields(authorization: string)
    ensures Fields(authorization) != [] ==> HeaderComponents(authorization) == Fields(authorization)
    ensures Fields(authorization) == [] ==> HeaderComponents(authorization) == [""]
  {
    var fs := Fields(authorization);
    if fs != [] {
      assert forall i :: 0 <= i < |fs| ==> ' ' !in fs[i];
      SplitJoin(fs, ' ');
    }
  }

  /** A sequence is a given pair exactly when it has two elements and they are that pair's. */
  lemma {:induction false} PairOf(fs: seq<string>, a: string, b: string)
    ensures fs == [a, b] <==> |fs| == 2 && fs[0] == a && fs[1] == b
  {
    if |fs| == 2 && fs[0] == a && fs[1] == b {
      assert fs == [fs[0], fs[1]];
    }
  }

  /**
   * getBearerToken: the header must be exactly two whitespace-separated
   * words, "Bearer" and a token other than "undefined".
   */
  function GetBearerToken(authorization: string): (r: Result<string, AuthError>)
    ensures r.Success? <==>
      |Fields(authorization)| == 2 && Fields(authorization)[0] == "Bearer" && Fields(authorization)[1] != "undefined"
    ensures r.Success? ==> r.value == Fields(authorization)[1] && r.value != "" && NoSpace(r.value)
    ensures r == Failure(UndefinedToken) <==> Fields(authorization) == ["Bearer", "undefined"]
    ensures r.Failure? && r != Failure(UndefinedToken) ==> r == Failure(InvalidHeader(authorization))
  {
    HeaderComponentsAreFields(authorization);
    PairOf(Fields(authorization), "Bearer", "undefined");
    var components := HeaderComponents(authorization);
    if |components| != 2 || components[0] != "Bearer" || components[1] == "" then
      Failure(InvalidHeader(authorization))
    else if components[1] == "undefined" then
      Failure(UndefinedToken)
    else
      Success(components[1])
  }

  /** An empty or all-whitespace header is rejected. */
  lemma BlankHeaderRejected(authorization: string)
    requires AllSpace(authorization)
    ensures GetBearerToken(authorization).Failure?
  {
    FieldsOfSpace(authorization);
  }

  /** Surrounding whitespace does not change the outcome. */
  lemma BearerIgnoresPadding(ws1: string, authorization: string, ws2: string)
    requires AllSpace(ws1) && AllSpace(ws2)
    ensures var padded := GetBearerToken(ws1 + authorization + ws2);
            var plain := GetBearerToken(authorization);
            (padded.Success? <==> plain.Success?) && (padded.Success? ==> padded.value == plain.value)
  {
    FieldsSkipsSpace(ws1, authorization + ws2);
    FieldsTrailingSpace(authorization, ws2);
    assert ws1 + authorization + ws2 == ws1 + (authorization + ws2);
  }

  /** A run of spaces, a word, a run of spaces: exactly that word. */
  lemma PaddedWordField(gap: string, token: string, ws2: string)
    requires AllSpace(gap) && AllSpace(ws2)
    requires token != "" && NoSpace(token)
    ensures Fields(gap + (token + ws2)) == [token]
  {
    FieldsWord(token, ws2);
    FieldsOfSpace(ws2);
    FieldsSkipsSpace(gap, token + ws2);
  }

  /** A first word, a run of spaces, a second word: exactly two fields. */
  lemma FieldsOfTwoWords(word: string, gap: string, token: string, ws2: string)
    requires AllSpace(gap) && AllSpace(ws2) && gap != ""
    requires word != "" && NoSpace(word) && token != "" && NoSpace(token)
    ensures Fields(word + (gap + (token + ws2))) == [word, token]
  {
    var tail := gap + (token + ws2);
    PaddedWordField(gap, token, ws2);
    assert IsSpace(tail[0]);
    FieldsWord(word, tail);
  }

  lemma BearerIsWord()
    ensures NoSpace("Bearer") && NoSpace("bearer")
  {
  }

  /** "Bearer", any run of whitespace, and a token: the token is returned. */
  lemma BearerAccepted(ws1: string, gap: string, token: string, ws2: string)
    requires AllSpace(ws1) && AllSpace(gap) && AllSpace(ws2) && gap != ""
    requires token != "" && NoSpace(token) && token != "undefined"
    ensures GetBearerToken(ws1 + ("Bearer" + (gap + (token + ws2)))) == Success(token)
  {
    BearerIsWord();
    FieldsOfTwoWords("Bearer", gap, token, ws2);
    FieldsSkipsSpace(ws1, "Bearer" + (gap + (token + ws2)));
  }

  /** The scheme is compared case-sensitively. */
  lemma LowerCaseSchemeRejected(token: string)
    requires token != "" && NoSpace(token)
    ensures GetBearerToken("bearer" + (" " + (token + ""))).Failure?
  {
    BearerIsWord();
    FieldsOfTwoWords("bearer", " ", token, "");
  }

  /** The token "undefined" is refused with its own error, whatever whitespace surrounds the words. */
  lemma UndefinedTokenRejected(ws1: string, gap: string, ws2: string)
    requires AllSpace(ws1) && AllSpace(gap) && AllSpace(ws2) && gap != ""
    ensures GetBearerToken(ws1 + ("Bearer" + (gap + ("undefined" + ws2)))) == Failure(UndefinedToken)
  {
    BearerIsWord();
    assert NoSpace("undefined");
    FieldsOfTwoWords("Bearer", gap, "undefined", ws2);
    FieldsSkipsSpace(ws1, "Bearer" + (gap + ("undefined" + ws2)));
  }
}
