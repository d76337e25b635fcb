/**
 * The suggestion pipeline (cmd/suggest.go): a keyword query is checked,
 * author suggestions are cut from the Solr results by score and limit, an
 * optional AI provider reviews them, and the terms it proposes are kept
 * only when Solr finds them.
 */
module Suggest {
  import opened Wrappers
  import opened GoStrings
  import opened Config
  import opened Providers
  import Bedrock

  // ---------------------------------------------------------------------
  // Requests, responses, and the outside world
  // ---------------------------------------------------------------------

  /** One suggested search: its type (always "author" here) and its value. */
  datatype Suggestion = Suggestion(kind: string, value: string)

  const AuthorType: string := "author"

  /** The query parser's field → values map. */
  type FieldValues = map<string, seq<string>>

  /** The query parser: the field values of a query, or its parse error. */
  type Parser = string -> Result<FieldValues, string>

  datatype SolrDocument = SolrDocument(phrase: string, kind: string, count: int, score: real)

  datatype SolrRequestParams = SolrRequestParams(
    debug: bool, defType: string, start: int, rows: int,
    fl: seq<string>, fq: seq<string>, q: string, qf: string, sort: string)

  datatype SolrResponse = SolrResponse(numFound: int, docs: seq<SolrDocument>)

  /** A Solr query: the response, or the error of the HTTP call, the decoding or Solr's status. */
  type Backend = SolrRequestParams -> Result<SolrResponse, string>

  /** What a suggestion request needs from the service context. */
  datatype Service = Service(config: ServiceConfig, backend: Backend, aiProvider: Option<AIProvider>)

  datatype QueryError = ParseFailed(msg: string) | BlankOrWildcard | Unhandled

  datatype SuggestError = QueryRejected(reason: QueryError) | SolrFailed(msg: string)

  // ---------------------------------------------------------------------
  // boolOptionWithFallback
  // ---------------------------------------------------------------------

  /** A boolean query option: what strconv.ParseBool reads, or `fallback` when it reads nothing. */
  function BoolOptionWithFallback(opt: string, fallback: bool): (r: bool)
    ensures opt in {"1", "t", "T", "TRUE", "true", "True"} ==> r
    ensures opt in {"0", "f", "F", "FALSE", "false", "False"} ==> !r
    ensures ParseBool(opt).None? ==> r == fallback
  {
    var val := ParseBool(opt);
    if val.None? then fallback else val.value
  }

  /** Any spelling ParseBool does not know, including the empty option and odd casings, gives the fallback. */
  lemma UnknownOptionFallsBack(opt: string, fallback: bool)
    requires opt !in {"1", "t", "T", "TRUE", "true", "True", "0", "f", "F", "FALSE", "false", "False"}
    ensures BoolOptionWithFallback(opt, fallback) == fallback
  {
  }

  // ---------------------------------------------------------------------
  // ParseQuery
  // ---------------------------------------------------------------------

  /** A map of one entry is that entry. */
  lemma SingletonMap(m: FieldValues, k: string)
    requires |m| == 1 && k in m
    ensures m == map[k := m[k]]
  {
    assert |m.Keys - {k}| == 0;
    assert m.Keys == {k};
  }

  /**
   * The query check: only a single keyword, given once, is handled, and
   * it may be neither blank nor "*".
   */
  function CheckQuery(parsed: Result<FieldValues, string>): (r: Result<string, QueryError>)
    ensures parsed.Failure? ==> r == Failure(ParseFailed(parsed.error))
    ensures r.Success? ==> parsed == Success(map["keyword" := [r.value]]) && r.value != "" && r.value != "*"
  {
    match parsed
    case Failure(e) => Failure(ParseFailed(e))
    case Success(fieldValues) =>
      var keywords := if "keyword" in fieldValues then fieldValues["keyword"] else [];
      if |fieldValues| == 1 && |keywords| == 1 then
        var keyword := keywords[0];
        if keyword == "" || keyword == "*" then Failure(BlankOrWildcard)
        else
          SingletonMap(fieldValues, "keyword");
          assert keywords == [keyword];
          Success(keyword)
      else Failure(Unhandled)
  }

  /** A single keyword given once is accepted exactly when it is neither blank nor "*". */
  lemma CheckQuerySingleKeyword(term: string)
    ensures CheckQuery(Success(map["keyword" := [term]])) ==
      if term == "" || term == "*" then Failure(BlankOrWildcard) else Success(term)
  {
    var m := map["keyword" := [term]];
    assert m.Keys == {"keyword"};
  }

  /** Anything but one keyword given once is not handled. */
  lemma CheckQueryUnhandled(fieldValues: FieldValues)
    requires |fieldValues| != 1 || "keyword" !in fieldValues || |fieldValues["keyword"]| != 1
    ensures CheckQuery(Success(fieldValues)) == Failure(Unhandled)
  {
  }

  // ---------------------------------------------------------------------
  // The author cut
  // ---------------------------------------------------------------------

  /** The documents as author suggestions of their phrases, in order. */
  function AsAuthors(docs: seq<SolrDocument>): (r: seq<Suggestion>)
    ensures |r| == |docs|
    ensures forall i :: 0 <= i < |docs| ==> r[i] == Suggestion(AuthorType, docs[i].phrase)
  {
    seq(|docs|, i requires 0 <= i < |docs| => Suggestion(AuthorType, docs[i].phrase))
  }

  /**
   * `res` is the cut of `docs`: the leading documents, as authors, none
   * scoring below the cutoff, no more than `limit` of them, and the walk
   * stopped early only at the limit or at a document scoring below the
   * cutoff.
   */
  predicate IsAuthorCut(docs: seq<SolrDocument>, cutoff: real, limit: int, res: seq<Suggestion>) {
    |res| <= |docs|
    && res == AsAuthors(docs[..|res|])
    && (|res| == 0 || |res| <= limit)
    && (forall j :: 0 <= j < |res| ==> docs[j].score >= cutoff)
    && (|res| < |docs| && |res| < limit ==> docs[|res|].score < cutoff)
  }

  /** The author suggestions kept from the documents, `limit` being what is left of the configured limit. */
  function AuthorCut(docs: seq<SolrDocument>, cutoff: real, limit: int): (r: seq<Suggestion>)
    ensures IsAuthorCut(docs, cutoff, limit, r)
    decreases |docs|
  {
    if |docs| == 0 || docs[0].score < cutoff || limit <= 0 then []
    else
      var rest := AuthorCut(docs[1..], cutoff, limit - 1);
      assert docs[1..][..|rest|] == docs[1..|rest| + 1];
      [Suggestion(AuthorType, docs[0].phrase)] + rest
  }

  /** The cut is the only sequence with the cut's properties. */
  lemma {:induction false} AuthorCutUnique(docs: seq<SolrDocument>, cutoff: real, limit: int, res: seq<Suggestion>)
    requires IsAuthorCut(docs, cutoff, limit, res)
    ensures res == AuthorCut(docs, cutoff, limit)
    decreases |docs|
  {
    if |docs| > 0 && docs[0].score >= cutoff && limit > 0 {
      AuthorCutTail(docs, cutoff, limit, res);
      AuthorCutUnique(docs[1..], cutoff, limit - 1, res[1..]);
      assert res == [res[0]] + res[1..];
    }
  }

  /** A cut that takes the first document is that document followed by a cut of the rest. */
  lemma AuthorCutTail(docs: seq<SolrDocument>, cutoff: real, limit: int, res: seq<Suggestion>)
    requires IsAuthorCut(docs, cutoff, limit, res)
    requires |docs| > 0 && docs[0].score >= cutoff && limit > 0
    ensures |res| > 0 && res[0] == Suggestion(AuthorType, docs[0].phrase)
    ensures IsAuthorCut(docs[1..], cutoff, limit - 1, res[1..])
  {
    var tail := res[1..];
    assert docs[1..][..|tail|] == docs[1..|res|];
    forall j | 0 <= j < |tail|
      ensures docs[1..][j].score >= cutoff
    {
      assert docs[1..][j] == docs[j + 1];
    }
  }

  /**
   * The walk over the documents in HandleAuthorSuggestionRequest: each
   * document becomes an author suggestion until one scores below the
   * cutoff or `limit` suggestions are collected.
   */
  method CollectAuthors(docs: seq<SolrDocument>, cutoff: real, limit: int) returns (res: seq<Suggestion>)
    ensures res == AuthorCut(docs, cutoff, limit)
  {
    res := [];
    var i := 0;
    while i < |docs|
      invariant 0 <= i <= |docs|
      invariant |res| == i && res == AsAuthors(docs[..i])
      invariant i == 0 || i <= limit
      invariant forall j :: 0 <= j < i ==> docs[j].score >= cutoff
    {
      if docs[i].score < cutoff || |res| >= limit {
        break;
      }
      res := res + [Suggestion(AuthorType, docs[i].phrase)];
      i := i + 1;
    }
    AuthorCutUnique(docs, cutoff, limit, res);
  }

  /** The configured limit bounds the cut, and a limit of zero or less keeps nothing. */
  lemma AuthorCutBounded(docs: seq<SolrDocument>, cutoff: real, limit: int)
    ensures |AuthorCut(docs, cutoff, limit)| <= if limit < 0 then 0 else limit
    ensures forall s :: s in AuthorCut(docs, cutoff, limit) ==> s.kind == AuthorType
  {
    var r := AuthorCut(docs, cutoff, limit);
    forall s | s in r
      ensures s.kind == AuthorType
    {
      var j :| 0 <= j < |r| && r[j] == s;
      assert r[j] == AsAuthors(docs[..|r|])[j];
    }
  }

  // ---------------------------------------------------------------------
  // Solr requests and verification
  // ---------------------------------------------------------------------

  /** The author search: the configured parameters, the keyword as the query, the first 100 rows. */
  function AuthorRequest(params: SolrParams, keyword: string): (r: SolrRequestParams)
    ensures r.rows == 100 && r.start == 0 && !r.debug && r.q == keyword
    ensures r.defType == params.defType && r.fl == params.fl && r.fq == params.fq
    ensures r.qf == params.qf && r.sort == params.sort
  {
    SolrRequestParams(false, params.defType, 0, 100, params.fl, params.fq, keyword, params.qf, params.sort)
  }

  /** The verification search: only the count of the term's matches, with no field list, filter or query fields. */
  function VerifyRequest(params: SolrParams, term: string): (r: SolrRequestParams)
    ensures r.rows == 0 && r.start == 0 && !r.debug
    ensures r.q == term && r.fl == [] && r.fq == [] && r.qf == ""
    ensures r.defType == params.defType && r.sort == params.sort
  {
    SolrRequestParams(false, params.defType, 0, 0, [], [], term, "", params.sort)
  }

  /** The verification search is the author search, for no rows and without field list, filter and query fields. */
  lemma VerifyRequestFromAuthorRequest(params: SolrParams, term: string)
    ensures VerifyRequest(params, term) == AuthorRequest(params, term).(rows := 0, fl := [], fq := [], qf := "")
  {
  }

  /** verifySuggestionResults: a term is valid when Solr finds it, or when Solr cannot be asked. */
  function Verified(backend: Backend, params: SolrParams, term: string): (valid: bool)
    ensures backend(VerifyRequest(params, term)).Failure? ==> valid
    ensures backend(VerifyRequest(params, term)).Success? ==>
      (valid <==> backend(VerifyRequest(params, term)).value.numFound > 0)
  {
    match backend(VerifyRequest(params, term))
    case Failure(_) => true
    case Success(res) => res.numFound > 0
  }

  /** The verdict for every distinct term. */
  function Verdicts(backend: Backend, params: SolrParams, terms: seq<string>): (verdicts: map<string, bool>) {
    map t | t in terms :: Verified(backend, params, t)
  }

  /** Collecting the verdicts, one entry per distinct term. */
  method VerifyAll(backend: Backend, params: SolrParams, terms: seq<string>) returns (results: map<string, bool>)
    ensures results.Keys == set t | t in terms
    ensures forall t :: t in results ==> results[t] == Verified(backend, params, t)
    ensures results == Verdicts(backend, params, terms)
  {
    results := map[];
    var i := 0;
    while i < |terms|
      invariant 0 <= i <= |terms|
      invariant results.Keys == set t | t in terms[..i]
      invariant forall t :: t in results ==> results[t] == Verified(backend, params, t)
    {
      results := results[terms[i] := Verified(backend, params, terms[i])];
      assert terms[..i + 1] == terms[..i] + [terms[i]];
      i := i + 1;
    }
    assert terms[..i] == terms;
  }

  /** Every suggestion in `r` is an author suggestion of one of `terms` whose verdict is true. */
  predicate AllKept(r: seq<Suggestion>, terms: seq<string>, results: map<string, bool>) {
    forall s :: s in r ==> s.kind == AuthorType && s.value in terms && s.value in results && results[s.value]
  }

  /** Extending the terms keeps what was kept, and a verified term may be added to it. */
  lemma AllKeptSnoc(init: seq<Suggestion>, terms: seq<string>, results: map<string, bool>, last: seq<Suggestion>)
    requires |terms| > 0 && AllKept(init, terms[..|terms| - 1], results)
    requires last == [] || last == [Suggestion(AuthorType, terms[|terms| - 1])]
    requires last != [] ==> terms[|terms| - 1] in results && results[terms[|terms| - 1]]
    ensures AllKept(init + last, terms, results)
  {
    var n := |terms| - 1;
    forall s | s in init
      ensures s.value in terms
    {
      var j :| 0 <= j < n && terms[..n][j] == s.value;
      assert terms[j] == s.value;
    }
  }

  /** The terms whose verdict is true, in order and with repeats, as author suggestions. */
  function Kept(terms: seq<string>, results: map<string, bool>): (r: seq<Suggestion>)
    ensures |r| <= |terms|
  {
    if |terms| == 0 then []
    else
      var n := |terms| - 1;
      var t := terms[n];
      Kept(terms[..n], results) + (if t in results && results[t] then [Suggestion(AuthorType, t)] else [])
  }

  /** Only terms with a true verdict are kept, each as an author suggestion. */
  lemma {:induction false} KeptSound(terms: seq<string>, results: map<string, bool>)
    ensures AllKept(Kept(terms, results), terms, results)
  {
    if |terms| > 0 {
      var n := |terms| - 1;
      var t := terms[n];
      KeptSound(terms[..n], results);
      AllKeptSnoc(Kept(terms[..n], results), terms, results,
        if t in results && results[t] then [Suggestion(AuthorType, t)] else []);
    }
  }

  /** One more term adds its suggestion at the end when its verdict is true. */
  lemma KeptSnoc(init: seq<string>, u: string, results: map<string, bool>)
    ensures Kept(init + [u], results) ==
      Kept(init, results) + if u in results && results[u] then [Suggestion(AuthorType, u)] else []
  {
    var terms := init + [u];
    assert terms[..|terms| - 1] == init;
  }

  /** Filtering keeps the order of the terms: it distributes over concatenation. */
  lemma {:induction false} KeptAppend(a: seq<string>, b: seq<string>, results: map<string, bool>)
    ensures Kept(a + b, results) == Kept(a, results) + Kept(b, results)
  {
    if |b| == 0 {
      assert a + b == a;
    } else {
      var n := |b| - 1;
      var init, u := b[..n], b[n];
      assert b == init + [u];
      assert a + b == (a + init) + [u];
      KeptAppend(a, init, results);
      KeptSnoc(a + init, u, results);
      KeptSnoc(init, u, results);
    }
  }

  /** The multiplicity of one kept suggestion after one more term. */
  lemma KeptCountSnoc(init: seq<string>, u: string, results: map<string, bool>, t: string)
    ensures multiset(Kept(init + [u], results))[Suggestion(AuthorType, t)] ==
      multiset(Kept(init, results))[Suggestion(AuthorType, t)] + if u == t && u in results && results[u] then 1 else 0
  {
    KeptSnoc(init, u, results);
  }

  /** Each term is kept as often as it is proposed when its verdict is true, and never otherwise. */
  lemma {:induction false} KeptCount(terms: seq<string>, results: map<string, bool>, t: string)
    ensures multiset(Kept(terms, results))[Suggestion(AuthorType, t)] ==
      if t in results && results[t] then multiset(terms)[t] else 0
  {
    if |terms| > 0 {
      var n := |terms| - 1;
      var init, u := terms[..n], terms[n];
      assert terms == init + [u];
      KeptCount(init, results, t);
      KeptCountSnoc(init, u, results, t);
    }
  }

  /** Filtering, one term at a time. */
  method KeepVerified(terms: seq<string>, results: map<string, bool>) returns (res: seq<Suggestion>)
    ensures res == Kept(terms, results)
  {
    res := [];
    var i := 0;
    while i < |terms|
      invariant 0 <= i <= |terms|
      invariant res == Kept(terms[..i], results)
    {
      assert terms[..i + 1][..i] == terms[..i];
      if terms[i] in results && results[terms[i]] {
        res := res + [Suggestion(AuthorType, terms[i])];
      }
      i := i + 1;
    }
    assert terms[..i] == terms;
  }

  /** The values of the suggestions, in order. */
  function Values(ss: seq<Suggestion>): (r: seq<string>)
    ensures |r| == |ss| && forall i :: 0 <= i < |ss| ==> r[i] == ss[i].value
  {
    seq(|ss|, i requires 0 <= i < |ss| => ss[i].value)
  }

  // ---------------------------------------------------------------------
  // The outcomes of the two handlers
  // ---------------------------------------------------------------------

  datatype AuthorResult = AuthorResult(suggestions: seq<Suggestion>, err: Option<SuggestError>)

  /** The author suggestions for a parsed query. */
  function AuthorSuggestions(svc: Service, parsed: Result<FieldValues, string>, cutoff: real): (r: AuthorResult) {
    var author := svc.config.suggestions.author;
    match CheckQuery(parsed)
    case Failure(e) => AuthorResult([], Some(QueryRejected(e)))
    case Success(keyword) =>
      match svc.backend(AuthorRequest(author.params, keyword))
      case Failure(msg) => AuthorResult([], Some(SolrFailed(msg)))
      case Success(res) => AuthorResult(AuthorCut(res.docs, cutoff, author.limit), None)
  }

  /**
   * A rejected query or a failed search gives no suggestions and the
   * error; otherwise the suggestions are the cut of the documents found,
   * no more than the limit, all of type "author".
   */
  lemma AuthorSuggestionsShape(svc: Service, parsed: Result<FieldValues, string>, cutoff: real)
    ensures var r := AuthorSuggestions(svc, parsed, cutoff);
            var limit := svc.config.suggestions.author.limit;
            (r.err.Some? ==> r.suggestions == [])
            && (CheckQuery(parsed).Failure? <==> r.err.Some? && r.err.value.QueryRejected?)
            && |r.suggestions| <= (if limit < 0 then 0 else limit)
            && (forall s :: s in r.suggestions ==> s.kind == AuthorType)
  {
    var r := AuthorSuggestions(svc, parsed, cutoff);
    if CheckQuery(parsed).Success? {
      var request := AuthorRequest(svc.config.suggestions.author.params, CheckQuery(parsed).value);
      if svc.backend(request).Success? {
        AuthorCutBounded(svc.backend(request).value.docs, cutoff, svc.config.suggestions.author.limit);
      }
    }
  }

  /** The suggestions a request ends with: the author list, or the AI's verified terms when the provider answers. */
  function FinalSuggestions(svc: Service, query: string, author: seq<Suggestion>): (suggestions: seq<Suggestion>) {
    match svc.aiProvider
    case None => author
    case Some(provider) =>
      match provider(query, Values(author))
      case Failure(_) => author
      case Success(ai) =>
        Kept(ai.suggestions, Verdicts(svc.backend, svc.config.suggestions.author.params, ai.suggestions))
  }

  /**
   * When the provider answers, the suggestions are exactly its terms that
   * verify, in its order, each as often as it proposed it, each typed
   * "author".
   */
  lemma AnsweredSuggestionsAreVerifiedTerms(svc: Service, query: string, author: seq<Suggestion>, t: string)
    requires svc.aiProvider.Some? && svc.aiProvider.value(query, Values(author)).Success?
    ensures var ai := svc.aiProvider.value(query, Values(author)).value;
            var params := svc.config.suggestions.author.params;
            var r := FinalSuggestions(svc, query, author);
            (forall s :: s in r ==> s.kind == AuthorType && s.value in ai.suggestions && Verified(svc.backend, params, s.value))
            && multiset(r)[Suggestion(AuthorType, t)] ==
                 (if Verified(svc.backend, params, t) then multiset(ai.suggestions)[t] else 0)
  {
    var ai := svc.aiProvider.value(query, Values(author)).value;
    var params := svc.config.suggestions.author.params;
    var results := Verdicts(svc.backend, params, ai.suggestions);
    KeptCount(ai.suggestions, results, t);
    KeptSound(ai.suggestions, results);
    if t !in results {
      assert multiset(ai.suggestions)[t] == 0;
    }
  }

  /** Without a provider, or when it fails, the author list is returned unchanged. */
  lemma UnansweredKeepsAuthors(svc: Service, query: string, author: seq<Suggestion>)
    requires svc.aiProvider.None? || svc.aiProvider.value(query, Values(author)).Failure?
    ensures FinalSuggestions(svc, query, author) == author
  {
  }

  /**
   * With the Bedrock provider plugged in, the handler sends Bedrock the
   * author values as the existing suggestions. A failed invocation or a
   * non-200 reply falls back to the author list; a decoded proposal is
   * replaced by its verified terms.
   */
  lemma BedrockSuggestions(svc: Service, p: Bedrock.BedrockProvider, send: Bedrock.Transport, dec: Bedrock.Decoders,
                           query: string, author: seq<Suggestion>)
    requires svc.aiProvider == Some(Bedrock.AsProvider(p, send, dec))
    ensures var reply := Bedrock.GetSuggestions(p, query, Values(author), send, dec);
            var r := FinalSuggestions(svc, query, author);
            (reply.Failure? ==> r == author)
            && (reply.Success? ==>
                  r == Kept(reply.value.suggestions,
                            Verdicts(svc.backend, svc.config.suggestions.author.params, reply.value.suggestions)))
    ensures var sent := send(Bedrock.InvokeUrl(p), Bedrock.BuildRequest(p.model, Bedrock.PromptText(query, Values(author))));
            sent.Failure? || sent.value.statusCode != StatusOK ==> FinalSuggestions(svc, query, author) == author
  {
    assert svc.aiProvider.value(query, Values(author)) == Bedrock.GetSuggestions(p, query, Values(author), send, dec);
  }

  // ---------------------------------------------------------------------
  // The suggestion context
  // ---------------------------------------------------------------------

  /** The state of one suggestion request. */
  class SuggestionContext {
    const svc: Service
    const parser: Parser
    const query: string
    const verbose: bool
    var parsedQuery: string

    /** InitializeSuggestion, with the request's query and its "verbose" option. */
    constructor (svc: Service, parser: Parser, query: string, verboseOption: string)
      ensures this.svc == svc && this.parser == parser && this.query == query
      ensures verbose == BoolOptionWithFallback(verboseOption, false)
      ensures parsedQuery == ""
    {
      this.svc := svc;
      this.parser := parser;
      this.query := query;
      this.verbose := BoolOptionWithFallback(verboseOption, false);
      this.parsedQuery := "";
    }

    /** ParseQuery: the keyword is recorded only when the query is accepted. */
    method ParseQuery() returns (err: Option<QueryError>)
      modifies this`parsedQuery
      ensures var check := CheckQuery(parser(query));
              (err.None? <==> check.Success?)
              && (check.Success? ==> parsedQuery == check.value)
              && (check.Failure? ==> err == Some(check.error) && parsedQuery == old(parsedQuery))
    {
      var parsed := parser(query);
      if parsed.Failure? {
        return Some(ParseFailed(parsed.error));
      }
      var fieldValues := parsed.value;
      var keywords := if "keyword" in fieldValues then fieldValues["keyword"] else [];
      if |fieldValues| == 1 && |keywords| == 1 {
        var keyword := keywords[0];
        if keyword == "" || keyword == "*" {
          return Some(BlankOrWildcard);
        }
        parsedQuery := keyword;
        return None;
      }
      return Some(Unhandled);
    }

    /**
     * HandleAuthorSuggestionRequest, with the score cutoff given: the
     * documents are taken in Solr's order until one scores below the
     * cutoff or the limit is reached.
     */
    method HandleAuthorSuggestionRequest(cutoff: real) returns (res: seq<Suggestion>, err: Option<SuggestError>)
      modifies this`parsedQuery
      ensures AuthorResult(res, err) == AuthorSuggestions(svc, parser(query), cutoff)
      ensures CheckQuery(parser(query)).Success? ==> parsedQuery == CheckQuery(parser(query)).value
      ensures CheckQuery(parser(query)).Failure? ==> parsedQuery == old(parsedQuery)
    {
      var sugg := svc.config.suggestions.author;
      res := [];
      var perr := ParseQuery();
      if perr.Some? {
        return res, Some(QueryRejected(perr.value));
      }
      var request := AuthorRequest(sugg.params, parsedQuery);
      var solrRes := svc.backend(request);
      if solrRes.Failure? {
        return res, Some(SolrFailed(solrRes.error));
      }
      var docs := solrRes.value.docs;
      if |docs| == 0 {
        return res, None;
      }
      res := CollectAuthors(docs, cutoff, sugg.limit);
      return res, None;
    }

    /**
     * HandleSuggestionRequest, with the score cutoff given: the error is
     * always nil; the suggestions are the author list unless the provider
     * answers, and then the provider's terms that verify.
     */
    method HandleSuggestionRequest(cutoff: real) returns (res: seq<Suggestion>, err: Option<SuggestError>)
      modifies this`parsedQuery
      ensures err.None?
      ensures var author := AuthorSuggestions(svc, parser(query), cutoff).suggestions;
              res == FinalSuggestions(svc, query, author)
      ensures CheckQuery(parser(query)).Success? ==> parsedQuery == CheckQuery(parser(query)).value
      ensures CheckQuery(parser(query)).Failure? ==> parsedQuery == old(parsedQuery)
    {
      var authorRes, authorErr := HandleAuthorSuggestionRequest(cutoff);
      var existing: seq<string> := [];
      var i := 0;
      while i < |authorRes|
        invariant 0 <= i <= |authorRes|
        invariant existing == Values(authorRes[..i])
      {
        existing := existing + [authorRes[i].value];
        i := i + 1;
      }
      assert authorRes[..i] == authorRes;
      if svc.aiProvider.None? {
        return authorRes, None;
      }
      var _ := ParseQuery();
      var aiRes := svc.aiProvider.value(query, existing);
      if aiRes.Failure? {
        return authorRes, None;
      }
      var terms := aiRes.value.suggestions;
      var results := VerifyAll(svc.backend, svc.config.suggestions.author.params, terms);
      res := KeepVerified(terms, results);
      return res, None;
    }
  }
}
