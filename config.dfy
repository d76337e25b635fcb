/**
 * Configuration loading (cmd/config.go): JSON fragments are read from the
 * environment variables named VIRGO4_SUGGESTOR_WS_JSON_*, in sorted order,
 * and decoded one over the other into a single configuration; then a Solr
 * host override and the AI defaults are applied.
 */
module Config {
  import opened Wrappers
  import opened GoStrings

  datatype ServiceSection = ServiceSection(port: string, jwtKey: string)

  datatype SolrParams = SolrParams(defType: string, fl: seq<string>, fq: seq<string>, qf: string, sort: string)

  datatype SuggestionConfig = SuggestionConfig(limit: int, params: SolrParams)

  datatype SuggestionTypes = SuggestionTypes(author: SuggestionConfig)

  /** Timeouts are kept as the strings the JSON holds; they are parsed when the clients are built. */
  datatype SolrClientConfig = SolrClientConfig(endpoint: string, connTimeout: string, readTimeout: string)

  datatype SolrClients = SolrClients(service: SolrClientConfig, healthCheck: SolrClientConfig)

  datatype SolrConfig = SolrConfig(host: string, core: string, clients: SolrClients)

  datatype AIConfig = AIConfig(provider: string, key: string, url: string, model: string)

  datatype ServiceConfig = ServiceConfig(
    service: ServiceSection,
    solr: SolrConfig,
    suggestions: SuggestionTypes,
    ai: AIConfig)

  /** Go's zero value of serviceConfig. */
  const EmptyConfig: ServiceConfig :=
    ServiceConfig(
      ServiceSection("", ""),
      SolrConfig("", "", SolrClients(SolrClientConfig("", "", ""), SolrClientConfig("", "", ""))),
      SuggestionTypes(SuggestionConfig(0, SolrParams("", [], [], "", ""))),
      AIConfig("", "", "", ""))

  const EnvPrefix: string := "VIRGO4_SUGGESTOR_WS"
  const JsonPrefix: string := EnvPrefix + "_JSON_"
  const SolrHostKey: string := EnvPrefix + "_SOLR_HOST"
  const DefaultAIProvider: string := "bedrock"
  const DefaultAIModel: string := "google.gemma-3-4b-it"

  /**
   * The outcome of one json.Decoder.Decode into the configuration: the
   * decoder may have filled in fields even when it reports an error.
   */
  datatype DecodeOutcome = DecodeOutcome(cfg: ServiceConfig, ok: bool)

  /** encoding/json with DisallowUnknownFields, decoding a text over a configuration. */
  type Decoder = (ServiceConfig, string) -> DecodeOutcome

  /** The name of an environment entry: the text before its first '='. */
  function EnvName(keyval: string): (name: string)
    ensures HasPrefix(keyval, name) && '=' !in name
    ensures |name| < |keyval| ==> keyval[|name|] == '='
  {
    SplitOnFirst(keyval, '=');
    SplitOn(keyval, '=')[0]
  }

  /** os.Getenv: the value of the first entry named `key`, or "". */
  function Getenv(environ: seq<string>, key: string): (value: string)
  {
    if |environ| == 0 then ""
    else if HasPrefix(environ[0], key + "=") then environ[0][|key| + 1..]
    else Getenv(environ[1..], key)
  }

  /** With no entry named `key`, os.Getenv gives "". */
  lemma {:induction false} GetenvUnset(environ: seq<string>, key: string)
    requires forall i :: 0 <= i < |environ| ==> !HasPrefix(environ[i], key + "=")
    ensures Getenv(environ, key) == ""
  {
    if |environ| > 0 {
      GetenvUnset(environ[1..], key);
    }
  }

  /** The first entry named `key` gives the value; later entries of that name are ignored. */
  lemma {:induction false} GetenvFirst(environ: seq<string>, key: string, i: int)
    requires 0 <= i < |environ| && HasPrefix(environ[i], key + "=")
    requires forall j :: 0 <= j < i ==> !HasPrefix(environ[j], key + "=")
    ensures Getenv(environ, key) == environ[i][|key| + 1..]
    decreases i
  {
    if i > 0 {
      GetenvFirst(environ[1..], key, i - 1);
    }
  }

  /** The names of the JSON configuration entries, in environment order. */
  function JsonEnvNames(environ: seq<string>): (names: seq<string>)
  {
    if |environ| == 0 then []
    else
      var name := EnvName(environ[|environ| - 1]);
      JsonEnvNames(environ[..|environ| - 1]) + (if HasPrefix(name, JsonPrefix) then [name] else [])
  }

  /** A name is listed exactly when some entry carries it and it has the JSON prefix. */
  lemma {:induction false} JsonEnvNamesMembers(environ: seq<string>, name: string)
    ensures name in JsonEnvNames(environ) <==>
      HasPrefix(name, JsonPrefix) && exists i :: 0 <= i < |environ| && EnvName(environ[i]) == name
  {
    if |environ| > 0 {
      var init := environ[..|environ| - 1];
      JsonEnvNamesMembers(init, name);
      if exists i :: 0 <= i < |environ| && EnvName(environ[i]) == name {
        var i :| 0 <= i < |environ| && EnvName(environ[i]) == name;
        if i < |environ| - 1 {
          assert init[i] == environ[i];
        }
      }
      if exists i :: 0 <= i < |init| && EnvName(init[i]) == name {
        var i :| 0 <= i < |init| && EnvName(init[i]) == name;
        assert environ[i] == init[i];
      }
    }
  }

  /** getSortedJSONEnvVars over the given environment. */
  method GetSortedJSONEnvVars(environ: seq<string>) returns (keys: seq<string>)
    ensures Sorted(keys)
    ensures multiset(keys) == multiset(JsonEnvNames(environ))
    ensures keys == SortStrings(JsonEnvNames(environ))
  {
    keys := [];
    var i := 0;
    while i < |environ|
      invariant 0 <= i <= |environ|
      invariant keys == JsonEnvNames(environ[..i])
    {
      var key := EnvName(environ[i]);
      if HasPrefix(key, JsonPrefix) {
        keys := keys + [key];
      }
      assert environ[..i + 1][..i] == environ[..i];
      i := i + 1;
    }
    assert environ[..i] == environ;
    keys := SortStrings(keys);
  }

  /**
   * The keys' fragments decoded one over the other, in order; an empty value
   * is skipped, and a failed decode clears `ok` without stopping the walk.
   */
  function DecodeAll(cfg: ServiceConfig, keys: seq<string>, environ: seq<string>, decode: Decoder): (out: DecodeOutcome)
  {
    if |keys| == 0 then DecodeOutcome(cfg, true)
    else
      var prev := DecodeAll(cfg, keys[..|keys| - 1], environ, decode);
      var val := Getenv(environ, keys[|keys| - 1]);
      if val == "" then prev
      else
        var d := decode(prev.cfg, val);
        DecodeOutcome(d.cfg, prev.ok && d.ok)
  }

  /** One more key decodes its non-empty fragment over what came before it. */
  lemma DecodeAllSnoc(cfg: ServiceConfig, keys: seq<string>, k: string, environ: seq<string>, decode: Decoder)
    ensures var prev := DecodeAll(cfg, keys, environ, decode);
            var val := Getenv(environ, k);
            DecodeAll(cfg, keys + [k], environ, decode) ==
              if val == "" then prev else DecodeOutcome(decode(prev.cfg, val).cfg, prev.ok && decode(prev.cfg, val).ok)
  {
    var ks := keys + [k];
    assert ks[..|ks| - 1] == keys;
  }

  /** The fragment of the `i`-th key, if it is not empty, decodes without error over what came before it. */
  predicate FragmentDecodes(cfg: ServiceConfig, keys: seq<string>, environ: seq<string>, decode: Decoder, i: int)
    requires 0 <= i < |keys|
  {
    var val := Getenv(environ, keys[i]);
    val != "" ==> decode(DecodeAll(cfg, keys[..i], environ, decode).cfg, val).ok
  }

  /** The configuration is valid exactly when every non-empty fragment decoded without error. */
  lemma {:induction false} DecodeAllValid(cfg: ServiceConfig, keys: seq<string>, environ: seq<string>, decode: Decoder)
    ensures DecodeAll(cfg, keys, environ, decode).ok <==>
      forall i :: 0 <= i < |keys| ==> FragmentDecodes(cfg, keys, environ, decode, i)
  {
    if |keys| > 0 {
      var n := |keys| - 1;
      var init := keys[..n];
      DecodeAllValid(cfg, init, environ, decode);
      forall i | 0 <= i < n
        ensures FragmentDecodes(cfg, keys, environ, decode, i) == FragmentDecodes(cfg, init, environ, decode, i)
      {
        assert keys[i] == init[i];
        assert keys[..i] == init[..i];
      }
      assert FragmentDecodes(cfg, keys, environ, decode, n) <==>
        (Getenv(environ, keys[n]) != "" ==> decode(DecodeAll(cfg, init, environ, decode).cfg, Getenv(environ, keys[n])).ok);
    }
  }

  /**
   * Decoding two runs of keys is decoding the first run and then the
   * second over its result: a failure in the first run does not stop the
   * second from being applied.
   */
  lemma {:induction false} DecodeAllAppend(cfg: ServiceConfig, ks1: seq<string>, ks2: seq<string>, environ: seq<string>, decode: Decoder)
    ensures var first := DecodeAll(cfg, ks1, environ, decode);
            var second := DecodeAll(first.cfg, ks2, environ, decode);
            DecodeAll(cfg, ks1 + ks2, environ, decode) == DecodeOutcome(second.cfg, first.ok && second.ok)
  {
    if |ks2| == 0 {
      assert ks1 + ks2 == ks1;
    } else {
      var n := |ks2| - 1;
      DecodeAllAppend(cfg, ks1, ks2[..n], environ, decode);
      assert (ks1 + ks2)[..|ks1 + ks2| - 1] == ks1 + ks2[..n];
      assert (ks1 + ks2)[|ks1 + ks2| - 1] == ks2[n];
    }
  }

  /**
   * The overrides applied after decoding: a non-empty Solr host replaces
   * the configured one, and a missing AI provider brings in the default
   * provider and model.
   */
  function ApplyOverrides(cfg: ServiceConfig, host: string): (r: ServiceConfig)
    ensures host != "" ==> r.solr == cfg.solr.(host := host)
    ensures host == "" ==> r.solr == cfg.solr
    ensures cfg.ai.provider == "" ==> r.ai == cfg.ai.(provider := DefaultAIProvider, model := DefaultAIModel)
    ensures cfg.ai.provider != "" ==> r.ai == cfg.ai
    ensures r.service == cfg.service && r.suggestions == cfg.suggestions
  {
    var withHost := if host != "" then cfg.(solr := cfg.solr.(host := host)) else cfg;
    if withHost.ai.provider == "" then
      withHost.(ai := withHost.ai.(provider := DefaultAIProvider, model := DefaultAIModel))
    else withHost
  }

  /**
   * loadConfig over the given environment: None stands for the process
   * exiting because some fragment failed to decode.
   */
  method LoadConfig(environ: seq<string>, decode: Decoder) returns (r: Option<ServiceConfig>)
    ensures var d := DecodeAll(EmptyConfig, SortStrings(JsonEnvNames(environ)), environ, decode);
            (r.None? <==> !d.ok)
            && (r.Some? ==> r.value == ApplyOverrides(d.cfg, Getenv(environ, SolrHostKey)))
  {
    var cfg := EmptyConfig;
    var envs := GetSortedJSONEnvVars(environ);
    var valid := true;
    var i := 0;
    while i < |envs|
      invariant 0 <= i <= |envs|
      invariant DecodeAll(EmptyConfig, envs[..i], environ, decode) == DecodeOutcome(cfg, valid)
    {
      assert envs[..i + 1] == envs[..i] + [envs[i]];
      DecodeAllSnoc(EmptyConfig, envs[..i], envs[i], environ, decode);
      var val := Getenv(environ, envs[i]);
      if val != "" {
        var d := decode(cfg, val);
        cfg := d.cfg;
        if !d.ok {
          valid := false;
        }
      }
      i := i + 1;
    }
    assert envs[..i] == envs;
    if !valid {
      return None;
    }
    ghost var decoded := cfg;
    var host := Getenv(environ, SolrHostKey);
    if host != "" {
      cfg := cfg.(solr := cfg.solr.(host := host));
    }
    if cfg.ai.provider == "" {
      cfg := cfg.(ai := cfg.ai.(provider := DefaultAIProvider));
      cfg := cfg.(ai := cfg.ai.(model := DefaultAIModel));
    }
    assert cfg == ApplyOverrides(decoded, host);
    return Some(cfg);
  }
}
