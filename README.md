# virgo4-suggestor-ws, modelled in Dafny

This project models the suggestion service of the Virgo 4 search front end.
A client sends a keyword query. The service answers with suggested author searches.

- Suggestions start from a Solr search of an author-phrase core.
- Documents are kept in Solr's order until one scores below a cutoff or the configured limit is reached.
- When an AI provider is present, it reviews the query and the author list.
- Each term the provider proposes is checked against Solr, all at once in concurrent requests. A term is kept when Solr finds it, and also when the check itself fails (fail open). Kept terms are returned in the provider's order.
- A provider failure falls back to the author list. The handler never reports an error.

The model also covers:

- the Amazon Bedrock provider: its prompt, its two request dialects (Gemma and Anthropic), how it finds the reply text in either reply shape, and how it strips Markdown code fences;
- the service context: Solr URLs and client timeouts, the health report, and the Authorization header check;
- configuration loading: JSON fragments taken from environment variables in sorted order, then the Solr host override and the AI defaults.

Files:

| file | models |
|---|---|
| `wrappers.dfy` | `Option` and `Result` |
| `gostrings.dfy` | the parts of Go's `strings`, `strconv` and `sort` that the service uses, with Go's meaning |
| `config.dfy` | `cmd/config.go` |
| `service.dfy` | `cmd/service.go` |
| `providers.dfy` | the provider reply and error types (`providers/interface.go`) |
| `bedrock.dfy` | `providers/bedrock.go` |
| `suggest.dfy` | `cmd/suggest.go` |

Outside calls are parameters, and each one is a total function:

- Solr (`Suggest.Backend`);
- the query parser (`Suggest.Parser`);
- the AI provider (`Providers.AIProvider`, optional in `Suggest.Service`);
- the HTTP transport of the Bedrock call (`Bedrock.Transport`);
- `encoding/json` (`Config.Decoder`, `Bedrock.Decoders`);
- the process environment, a sequence of `NAME=value` strings.

The score cutoff is also a parameter. The source computes it from the scores.

The walk over the Solr documents (cmd/suggest.go:151-157) is the separate method `Suggest.CollectAuthors`, called at the same point of `HandleAuthorSuggestionRequest`.

Where the sources disagree with each other, the model does this:

- `ServiceContext` (cmd/service.go:32-35) has no `AIProvider` field, and cmd/main.go never creates a provider. `cmd/suggest.go` still reads `s.svc.AIProvider`. The model gives `Suggest.Service` an optional provider and models the call as made at cmd/suggest.go:209: the raw query and the existing author values in, a reply or an error out.
- The `AIProvider` interface (providers/interface.go:12) declares a three-argument `GetSuggestions` that returns `*AIResponse`. The call at cmd/suggest.go:209 and the Bedrock method (providers/bedrock.go:94) take two arguments. The model follows the call and the method.
- `SolrRequestParams` in cmd/solr.go:14-24 has no `Fq` field, but cmd/suggest.go:108 sets one. The model's request has `fq` and follows `cmd/suggest.go`.

## Model

| member | source | states |
|---|---|---|
| GoStrings.Fields | cmd/service.go:195 | every field of `strings.Fields` is non-empty and holds no whitespace |
| GoStrings.FieldsTrailingSpace | cmd/service.go:195 | trailing whitespace adds no field |
| GoStrings.SplitOn | cmd/config.go:71 | `strings.Split` always gives at least one piece |
| GoStrings.SplitOnFirst | cmd/config.go:71 | the first piece of `strings.Split` is a prefix free of the separator; the separator follows it, or else it is the whole text and the only piece |
| GoStrings.SplitOnSep | cmd/service.go:195 | `strings.Split` at a separator gives the pieces of the text before it followed by the pieces of the text after it; it is the law behind Service.SolrUrlParts and Bedrock.InvokeUrlSegments |
| GoStrings.SplitJoin | cmd/service.go:195 | splitting on a separator undoes joining with it when no part contains it |
| GoStrings.TrimSpace | providers/bedrock.go:251 | `strings.TrimSpace` gives a contiguous slice of its input with only whitespace removed before and after it, which neither starts nor ends with whitespace; an all-whitespace input gives the empty text |
| GoStrings.TrimSpacePadded | providers/bedrock.go:251 | `strings.TrimSpace` removes exactly the whitespace around a text that starts and ends with a non-space |
| GoStrings.TrimPrefixOf | providers/bedrock.go:253 | trimming a prefix that is present gives back the rest |
| GoStrings.TrimSuffixOf | providers/bedrock.go:254 | trimming a suffix that is present gives back the rest |
| GoStrings.Itoa | providers/bedrock.go:107 | the decimal text is never empty, starts with `-` exactly for negative numbers, and its digits have no leading zero (only 0 itself is written `0`) |
| GoStrings.DecimalCanonical | providers/bedrock.go:107 | every digit string without a leading zero is the decimal text of its own value, so the digits `Itoa` writes are the only canonical ones |
| GoStrings.Atoi | cmd/service.go:37 | a parsed value lies in the int64 range and comes from a sign and digits only |
| GoStrings.AtoiUnsigned | cmd/service.go:37 | a digit string reads as its decimal value when that fits in int64, leading zeros allowed, and is refused when it is too large |
| GoStrings.AtoiPlus | cmd/service.go:37 | a leading `+` reads the same as no sign |
| GoStrings.AtoiNegative | cmd/service.go:37 | a leading `-` negates the digits' value, and a value below the int64 minimum is refused |
| GoStrings.AtoiItoa | cmd/service.go:37 | `Atoi` reads back every int64 that `Itoa` writes |
| GoStrings.SortStrings | cmd/config.go:77 | `sort.Strings` gives an ascending permutation of its input |
| GoStrings.SortedPairs | cmd/config.go:77 | in the ascending order every element is at most every later one, not only its neighbour |
| Config.GetenvFirst | cmd/config.go:93 | `os.Getenv` gives the value of the first entry with that name; later entries of the name are ignored |
| Config.GetenvUnset | cmd/config.go:93 | `os.Getenv` gives the empty string when no entry has that name |
| Config.EnvName | cmd/config.go:71 | an environment name is the text before the first `=` and contains no `=` |
| Config.JsonEnvNamesMembers | cmd/config.go:70-75 | a name is selected exactly when some entry carries it and it starts with `VIRGO4_SUGGESTOR_WS_JSON_` |
| Config.GetSortedJSONEnvVars | cmd/config.go:67-80 | the result is the selected names, sorted ascending, as a permutation |
| Config.DecodeAllValid | cmd/config.go:89-107 | the configuration is valid exactly when every non-empty fragment decoded without error over what came before it |
| Config.DecodeAllAppend | cmd/config.go:91-102 | decoding a run of keys is decoding its first part and then the rest over that result: a failure does not stop later fragments from being applied |
| Config.ApplyOverrides | cmd/config.go:109-119 | a non-empty Solr host replaces the configured one; an empty AI provider becomes `bedrock` with model `google.gemma-3-4b-it`; nothing else changes |
| Config.LoadConfig | cmd/config.go:82-130 | the load fails exactly when some fragment failed to decode; otherwise it gives the sorted-order decoding with the overrides applied |
| Service.IntegerWithMinimum | cmd/service.go:37-46 | the result is at least `min`; it is the parsed value when parsing succeeds with a value of at least `min`, else `min` |
| Service.IntegerWithMinimumOfItoa | cmd/service.go:37-46 | a setting written as a decimal int64 reads back floored at `min` |
| Service.IntegerWithMinimumOutOfRange | cmd/service.go:37-41 | a digit setting beyond the int64 range, with or without `+`, falls back to `min` |
| Service.SolrUrlParts | cmd/service.go:73 | for every host, core and endpoint, the `/`-pieces of the Solr URL are the host's pieces, then the core's, then the endpoint's |
| Service.ClientWithTimeouts | cmd/service.go:48-66 | the connect timeout comes from the connect setting and the read timeout from the read setting, each through `integerWithMinimum` with floor 1: a valid setting of at least one is kept, anything else gives exactly one second |
| Service.InitializeService | cmd/service.go:69-96 | both Solr URLs are host/core/endpoint; the service client takes the service section's endpoint and timeouts and the health-check client the health-check section's, and every timeout is at least one second |
| Service.HealthCheck | cmd/service.go:121-152 | the status is 200 with a healthy report exactly when the ping succeeded; otherwise it is 500 with the ping's error message |
| Service.HeaderComponentsAreFields | cmd/service.go:195 | re-joining and re-splitting the header gives its fields, or one empty string when there are none |
| Service.GetBearerToken | cmd/service.go:194-209 | success exactly when the header has two fields, the first exactly `Bearer` and the second not `undefined`; the token is the second field. The `undefined` error comes exactly when the fields are `Bearer undefined`; every other failure is the invalid-header error |
| Service.BlankHeaderRejected | cmd/service.go:198-200 | an empty or all-whitespace header is rejected |
| Service.BearerIgnoresPadding | cmd/service.go:195 | whitespace around the header changes neither the outcome nor the token |
| Service.FieldsOfTwoWords | cmd/service.go:195 | two words separated by any whitespace are exactly two fields |
| Service.BearerAccepted | cmd/service.go:194-208 | `Bearer`, any whitespace and a token give back that token |
| Service.LowerCaseSchemeRejected | cmd/service.go:198 | the scheme is compared case-sensitively |
| Service.UndefinedTokenRejected | cmd/service.go:194-206 | `Bearer`, any non-empty whitespace and `undefined`, with any whitespace around them, is refused with the `undefined` error |
| Bedrock.NewBedrockProvider | providers/bedrock.go:29-48 | there is no provider when the AWS configuration fails to load; an empty model becomes `anthropic.claude-3-sonnet-20240229-v1:0`; any other model is kept |
| Bedrock.BuildPrompt | providers/bedrock.go:101-122 | the prompt built piece by piece equals the prompt text |
| Bedrock.LinesAppend | providers/bedrock.go:106-108 | numbering continues across a split of the suggestion list |
| Bedrock.LinesSplit | providers/bedrock.go:106-108 | suggestion `i` is the line numbered `first + i`, between the lines before and after it |
| Bedrock.PromptListsSuggestion | providers/bedrock.go:104-109 | each existing suggestion appears as line `i+1. s`, in input order, between the catalog header and the analysis line |
| Bedrock.PromptFraming | providers/bedrock.go:102-120 | the prompt starts with the quoted query and ends with `Respond in JSON format.` |
| Bedrock.IsGemmaAnyCase | providers/bedrock.go:127-130 | the Gemma dialect is chosen exactly when five consecutive characters of the model id are g/G, e/E, m/M, m/M, a/A |
| Bedrock.ConfigDefaultIsGemma | providers/bedrock.go:130 | the configuration's default model (`Config.DefaultAIModel`, cmd/config.go:118) selects the Gemma dialect |
| Bedrock.WithoutGNotGemma | providers/bedrock.go:130 | a model id without the letter g never selects the Gemma dialect |
| Bedrock.ProviderDefaultIsAnthropic | providers/bedrock.go:37-39 | the provider's own default model selects the Anthropic dialect |
| Bedrock.BuildRequest | providers/bedrock.go:127-157 | the Gemma shape is chosen exactly for Gemma models: one user message of system prompt, blank line and prompt, temperature 0.5 and top-p 0.9. The Anthropic shape has version `bedrock-2023-05-31` and a separate system prompt. Both allow 2000 tokens |
| Bedrock.ChoiceTextIsPath | providers/bedrock.go:209-217 | the nested type checks find exactly the string at `choices[0].message.content` |
| Bedrock.OutputTextIsPath | providers/bedrock.go:219-232 | the nested type checks find exactly the string at `output.message.content[0].text` |
| Bedrock.GemmaContent | providers/bedrock.go:200-233 | the Gemma reply text is the choices path when it is a non-empty string, else the output path, else empty |
| Bedrock.AnthropicContent | providers/bedrock.go:234-243 | the Anthropic reply text is the first block's text, or empty when there are no blocks |
| Bedrock.ExtractContent | providers/bedrock.go:198-243 | the reply is read with the parser of the model's dialect; it fails exactly when that parser fails, and then with the undecodable-reply error |
| Bedrock.StripFences | providers/bedrock.go:250-258 | the step-by-step clean-up equals trimming, removing a leading `` ```json `` (else `` ``` ``), then a trailing `` ``` `` |
| Bedrock.UnfencedOnlyTrimmed | providers/bedrock.go:251-258 | text without a leading fence is only trimmed |
| Bedrock.JsonFenceRoundTrip | providers/bedrock.go:251-255 | a `` ```json ``-fenced text, padded with whitespace, comes back as the text inside |
| Bedrock.PlainFenceRoundTrip | providers/bedrock.go:251-258 | a plain-fenced text that does not start with `json` comes back as the text inside |
| Bedrock.NotJsonFenced | providers/bedrock.go:252 | a plain fence followed by text not starting with `json` is not a `` ```json `` fence |
| Bedrock.InvokeUrlSegments | providers/bedrock.go:164 | the invoke URL's `/`-pieces are `https:`, an empty piece, the regional runtime host, `model`, the model id's own pieces and `invoke` |
| Bedrock.GetSuggestions | providers/bedrock.go:94-265 | the request goes to the model's invoke URL with the model's request for the prompt. A transport error, a non-200 status, an unreadable reply, empty reply text and undecodable text each give their own error. Otherwise the result is the decoded fence-stripped text, and a success comes only from that path |
| Suggest.BoolOptionWithFallback | cmd/suggest.go:40-49 | Go's true spellings give true, its false spellings give false, and anything else gives the fallback |
| Suggest.UnknownOptionFallsBack | cmd/suggest.go:40-49 | every option other than Go's twelve boolean spellings, including the empty and oddly-cased ones, gives the fallback |
| Suggest.SingletonMap | cmd/suggest.go:67-71 | a one-entry field map is exactly that entry |
| Suggest.CheckQuery | cmd/suggest.go:62-87 | a parse error is passed on; an accepted query is exactly one `keyword` field holding one value, neither blank nor `*` |
| Suggest.CheckQuerySingleKeyword | cmd/suggest.go:71-83 | a single keyword given once is accepted exactly when it is neither blank nor `*` |
| Suggest.CheckQueryUnhandled | cmd/suggest.go:67-86 | anything other than one keyword given once is an unhandled query |
| Suggest.SuggestionContext.constructor | cmd/suggest.go:52-59 | the context keeps the service and takes `verbose` from the option, false when unreadable |
| Suggest.SuggestionContext.ParseQuery | cmd/suggest.go:62-87 | succeeds exactly when the check accepts; the keyword is recorded then, and the recorded query is untouched on rejection |
| Suggest.AsAuthors | cmd/suggest.go:156 | each document becomes an author suggestion of its phrase, in order |
| Suggest.AuthorCut | cmd/suggest.go:151-157 | the cut is a leading run of the documents as authors. It has at most `limit` items, all scoring at least the cutoff, and stops early only at the limit or at a document below the cutoff |
| Suggest.AuthorCutUnique | cmd/suggest.go:151-157 | any sequence with those properties is the cut |
| Suggest.CollectAuthors | cmd/suggest.go:151-157 | the walk over the documents, stopping at the limit or at the first document below the cutoff, yields exactly the cut |
| Suggest.AuthorCutBounded | cmd/suggest.go:151-157 | the cut is no longer than the limit (empty when it is zero or less), and every item has type `author` |
| Suggest.AuthorRequest | cmd/suggest.go:100-112 | the author search asks for 100 rows from the start, without debug, with the keyword as the query and every other parameter from the configuration |
| Suggest.VerifyRequest | cmd/suggest.go:277-292 | the verification search asks for no rows, uses the term as the query, sets no field list, filter or query fields, and keeps defType and sort |
| Suggest.VerifyRequestFromAuthorRequest | cmd/suggest.go:278-292 | the verification search is the author search for the term, with no rows and without field list, filter and query fields |
| Suggest.Verified | cmd/suggest.go:271-302 | a term is valid when Solr cannot be asked (fail open), and otherwise exactly when Solr finds at least one match |
| Suggest.VerifyAll | cmd/suggest.go:241-254 | the verdict map has one entry per distinct proposed term, holding that term's verdict |
| Suggest.Kept | cmd/suggest.go:256-261 | no more suggestions are kept than terms were proposed |
| Suggest.KeptSound | cmd/suggest.go:256-261 | every kept suggestion has type `author` and is a proposed term whose verdict is true |
| Suggest.KeptAppend | cmd/suggest.go:256-261 | filtering keeps the proposal order: it distributes over concatenation |
| Suggest.KeptCount | cmd/suggest.go:256-261 | a term is kept as often as it was proposed when its verdict is true, and never otherwise |
| Suggest.KeepVerified | cmd/suggest.go:256-263 | the loop's result is the filtered list |
| Suggest.Values | cmd/suggest.go:178-183 | the existing suggestions handed to the provider are the author values, in order |
| Suggest.AuthorSuggestionsShape | cmd/suggest.go:91-164 | a rejected query or a failed search gives an empty list and an error, with a query error exactly when the query was rejected; the list never exceeds the limit and holds only authors |
| Suggest.AnsweredSuggestionsAreVerifiedTerms | cmd/suggest.go:209-263 | when the provider answers, the result holds only proposed terms that verify, typed `author`, each as often as proposed |
| Suggest.UnansweredKeepsAuthors | cmd/suggest.go:188-217 | without a provider, or when it fails, the author list is returned unchanged |
| Suggest.BedrockSuggestions | cmd/suggest.go:209-261 | with the Bedrock provider, the author values are what Bedrock is sent; a failed invocation or a non-200 reply gives back the author list, and a decoded proposal gives its verified terms |
| Suggest.SuggestionContext.HandleAuthorSuggestionRequest | cmd/suggest.go:91-164 | the result is the author outcome for the parsed query: empty with the error on rejection or search failure, else the cut of the documents |
| Suggest.SuggestionContext.HandleSuggestionRequest | cmd/suggest.go:168-268 | the error is always nil; the result is the author list unless the provider answers, and then its verified terms |

## Left out

- Score statistics (cmd/suggest.go:123-138): mean, median, sample variance and square root are floating-point numerics. The cutoff is a parameter of the handlers, and scores are reals. With a single document, gonum's sample variance is NaN, so the cutoff is NaN and no score is below it. The model's reals have no NaN, so this case is not captured.
- Floating point in general: scores, temperature and top-p are `real`, not IEEE doubles.
- The goroutine and channel fan-out of the verification calls (cmd/suggest.go:241-254) is sequential in the model. Solr is a function, so a term proposed twice gets the same verdict, and the order in which verdicts arrive does not matter.
- cmd/solr.go: HTTP request building, `client.Do`, response decoding, Solr's status check and ping are I/O. `Suggest.Backend` stands for the whole query, and `Service.HealthCheck` takes the ping's outcome.
- `v4parser.ConvertToSolrWithParser` is an external library. `Suggest.Parser` gives its field map or its error.
- providers/bedrock.go:159-191: marshalling the request to JSON, AWS credentials, SHA-256 payload hashing, Signature Version 4 signing and the HTTP call are one `Bedrock.Transport` function. Each of their errors is one `InvokeFailed`.
- `encoding/json`: decoding the configuration fragments, the two reply shapes and the generated text are function parameters. Marshalling the composite configuration for the log (cmd/config.go:121-127) is left out.
- `Name` and `GetModel` (providers/bedrock.go:50-56) return constants or fields and are not modelled.
- `DidYouMean` is only logged (cmd/suggest.go:220-223). It is part of `Providers.AIResponse` but is not used.
- All logging, and the `verbose` flag's only effect, which is on logging.
- cmd/main.go, setup/main.go and the gin handlers: routing, request binding, JSON responses, JWT validation, metrics and command-line flags are I/O.
- Bedrock.IsGemmaAnyCase: `strings.ToLower` is modelled on ASCII letters only. No other rune lowercases to a letter of `gemma`, so the dialect choice is unaffected.
- Config.LoadConfig: the environment is taken as `os.Environ()` returns it, and Go drops repeated names from it. A repeated name in the model's input would be listed twice. `os.Exit(1)` is the `None` result.
- Config.GetSortedJSONEnvVars: `sort.Strings` sorts in place. The model sorts a sequence value with a verified insertion sort, so the in-place update is not captured.
- Go's `int` is 64 bits. `strconv.Atoi` is bounded to int64, but other integers (limit, timeouts, status codes) are unbounded.
- Service.ClientWithTimeouts: the timeouts are whole seconds. `time.Duration(n) * time.Second` (cmd/service.go:53,56) counts nanoseconds in an int64, so a setting above 9223372036 seconds wraps around in the source. The model does not capture that wrap-around.
- The HTTP client's fixed settings (keep-alive, idle connections; cmd/service.go:52-63) are constants of the transport and are not modelled.
