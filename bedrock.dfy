/**
 * The Bedrock AI provider (providers/bedrock.go): the prompt it writes, the
 * request dialect it picks from the model id, how it finds the reply text
 * in either response shape, and how it strips Markdown code fences before
 * decoding the reply.
 */
module Bedrock {
  import opened Wrappers
  import opened GoStrings
  import opened Providers
  import Config

  const DefaultModel: string := "anthropic.claude-3-sonnet-20240229-v1:0"
  const SystemPrompt: string := "You are a helpful assistant that outputs JSON."
  const AnthropicVersion: string := "bedrock-2023-05-31"
  const MaxTokens: int := 2000

  datatype BedrockProvider = BedrockProvider(region: string, model: string)

  /**
   * NewBedrockProvider: `awsRegion` is the region of the loaded AWS
   * configuration, or None when that configuration could not be loaded.
   */
  function NewBedrockProvider(model: string, awsRegion: Option<string>): (p: Option<BedrockProvider>)
    ensures p.Some? <==> awsRegion.Some?
    ensures p.Some? ==> p.value.region == awsRegion.value
    ensures p.Some? && model == "" ==> p.value.model == DefaultModel
    ensures p.Some? && model != "" ==> p.value.model == model
  {
    match awsRegion
    case None => None
    case Some(region) => Some(BedrockProvider(region, if model == "" then DefaultModel else model))
  }

  // ---------------------------------------------------------------------
  // The prompt
  // ---------------------------------------------------------------------

  function Intro(query: string): (text: string) {
    "You are a helpful academic librarian assistant. The user is searching for: \"" + query + "\".\n"
  }

  const CatalogHeader: string := "Here are some author suggestions retrieved from our catalog:\n"
  const AnalyzeLine: string :=
    "\nAnalyze the query and these suggestions. You may keep good suggestions, refine them, or replace them if they are not relevant.\n"
  const NoneFoundLine: string := "\nNo author suggestions were found in our catalog.\n"
  const ClosingLine: string := "\nRespond in JSON format."
  const InstructionLines: string :=
    "1. If the query contains an OBVIOUS spelling error, set 'didYouMean' to the FULL corrected query string.\n"
    + "2. If the query is likely intentional, leave 'didYouMean' empty.\n"
    + "3. Populate 'suggestions' with 6-10 relevant AUTHORS (people or organizations) related to the query.\n"
    + "   - STRICTLY names of people (historians, writers) or organizations/agencies.\n"
    + "   - Do NOT suggest book titles, general topics, historical events, or refined search queries.\n"
    + "   - Example: For 'civil war', suggest 'Foote, Shelby' or 'McPherson, James', NOT 'Civil War Battles'.\n"
  const Instructions: string := InstructionLines + ClosingLine

  /** One line of the suggestion list: "n. s". */
  function NumberedLine(n: int, s: string): (line: string) {
    Itoa(n) + ". " + s + "\n"
  }

  /** The lines for `ss`, numbered from `first`, each written by `line`. */
  function Lines(ss: seq<string>, first: int, line: (int, string) -> string): (text: string) {
    if |ss| == 0 then ""
    else Lines(ss[..|ss| - 1], first, line) + line(first + |ss| - 1, ss[|ss| - 1])
  }

  /** The suggestion list of the prompt: "1. s1", "2. s2", ... */
  function NumberedList(ss: seq<string>, first: int): (text: string) {
    Lines(ss, first, NumberedLine)
  }

  /** The user prompt for a query and the existing author suggestions. */
  function PromptText(query: string, existing: seq<string>): (prompt: string) {
    if |existing| > 0 then Intro(query) + CatalogHeader + NumberedList(existing, 1) + AnalyzeLine + Instructions
    else Intro(query) + NoneFoundLine + Instructions
  }

  /** The prompt, appended piece by piece as the provider's string builder does. */
  method BuildPrompt(query: string, existing: seq<string>) returns (prompt: string)
    ensures prompt == PromptText(query, existing)
  {
    prompt := Intro(query);
    if |existing| > 0 {
      prompt := prompt + CatalogHeader;
      var i := 0;
      while i < |existing|
        invariant 0 <= i <= |existing|
        invariant prompt == Intro(query) + CatalogHeader + NumberedList(existing[..i], 1)
      {
        assert existing[..i + 1][..i] == existing[..i];
        AppendAssoc(Intro(query) + CatalogHeader, Lines(existing[..i], 1, NumberedLine), NumberedLine(i + 1, existing[i]));
        prompt := prompt + NumberedLine(i + 1, existing[i]);
        i := i + 1;
      }
      assert existing[..i] == existing;
      prompt := prompt + AnalyzeLine;
    } else {
      prompt := prompt + NoneFoundLine;
    }
    prompt := prompt + Instructions;
  }

  /** Numbering continues across a split of the list. */
  lemma {:induction false} LinesAppend(a: seq<string>, b: seq<string>, first: int, line: (int, string) -> string)
    ensures Lines(a + b, first, line) == Lines(a, first, line) + Lines(b, first + |a|, line)
  {
    if |b| > 0 {
      var n := |b| - 1;
      var ab := a + b;
      LinesAppend(a, b[..n], first, line);
      assert ab[..|ab| - 1] == a + b[..n];
      assert ab[|ab| - 1] == b[n];
      AppendAssoc(Lines(a, first, line), Lines(b[..n], first + |a|, line), line(first + |a| + n, b[n]));
    } else {
      assert a + b == a;
    }
  }

  /** Item `i` is line `first + i`, between the lines before it and the lines after it. */
  lemma LinesSplit(ss: seq<string>, i: int, first: int, line: (int, string) -> string)
    requires 0 <= i < |ss|
    ensures Lines(ss, first, line) ==
      Lines(ss[..i], first, line) + line(first + i, ss[i]) + Lines(ss[i + 1..], first + i + 1, line)
  {
    var pre, mid, post := ss[..i], [ss[i]], ss[i + 1..];
    assert ss == pre + (mid + post);
    LinesAppend(pre, mid + post, first, line);
    LinesAppend(mid, post, first + i, line);
    assert mid[..0] == [];
    assert Lines(mid, first + i, line) == Lines([], first + i, line) + line(first + i, ss[i]);
    AppendAssoc(Lines(pre, first, line), line(first + i, ss[i]), Lines(post, first + i + 1, line));
  }

  /**
   * Each existing suggestion appears as line "i+1. s", after the lines of
   * the suggestions before it and before those after it.
   */
  lemma PromptListsSuggestion(query: string, existing: seq<string>, i: int)
    requires 0 <= i < |existing|
    ensures PromptText(query, existing) ==
      Intro(query) + CatalogHeader
      + (NumberedList(existing[..i], 1) + NumberedLine(i + 1, existing[i]) + NumberedList(existing[i + 1..], i + 2))
      + AnalyzeLine + Instructions
  {
    LinesSplit(existing, i, 1, NumberedLine);
  }

  /** The prompt opens with the quoted query and closes with the request for JSON. */
  lemma PromptFraming(query: string, existing: seq<string>)
    ensures HasPrefix(PromptText(query, existing), Intro(query))
    ensures HasSuffix(PromptText(query, existing), ClosingLine)
  {
    var middle := if |existing| > 0 then CatalogHeader + NumberedList(existing, 1) + AnalyzeLine else NoneFoundLine;
    if |existing| > 0 {
      AppendAssoc(Intro(query), CatalogHeader, NumberedList(existing, 1));
      AppendAssoc(Intro(query), CatalogHeader + NumberedList(existing, 1), AnalyzeLine);
    }
    AppendAssoc(Intro(query), middle, Instructions);
    PrefixOfAppend(Intro(query), middle + Instructions);
    AppendAssoc(Intro(query) + middle, InstructionLines, ClosingLine);
    SuffixOfAppend(Intro(query) + middle + InstructionLines, ClosingLine);
  }

  // ---------------------------------------------------------------------
  // Dialects and requests
  // ---------------------------------------------------------------------

  /** The model id, lower-cased, mentions "gemma". */
  predicate IsGemma(model: string) {
    Contains(ToLower(model), "gemma")
  }

  /** The five characters of `model` at `i` spell "gemma" in some mix of cases. */
  predicate GemmaAt(model: string, i: int) {
    0 <= i <= |model| - 5
    && model[i] in "gG" && model[i + 1] in "eE" && model[i + 2] in "mM"
    && model[i + 3] in "mM" && model[i + 4] in "aA"
  }

  /** A character lower-cases to the small letter `l` exactly when it is `l` or its capital. */
  lemma LowerIsLetter(c: char, l: char, u: char)
    requires 'a' <= l <= 'z' && u as int == l as int - 32
    ensures Lower(c) == l <==> c in [l, u]
  {
  }

  /** The window at `i` lower-cases to "gemma" exactly when it spells it in some mix of cases. */
  lemma GemmaWindow(model: string, i: int)
    requires 0 <= i <= |model| - 5
    ensures OccursAt(ToLower(model), "gemma", i) <==> GemmaAt(model, i)
  {
    var lm := ToLower(model);
    LowerIsLetter(model[i], 'g', 'G');
    LowerIsLetter(model[i + 1], 'e', 'E');
    LowerIsLetter(model[i + 2], 'm', 'M');
    LowerIsLetter(model[i + 3], 'm', 'M');
    LowerIsLetter(model[i + 4], 'a', 'A');
    assert lm[i..i + 5] == [lm[i], lm[i + 1], lm[i + 2], lm[i + 3], lm[i + 4]];
  }

  /** The dialect test ignores case: "gemma" in any mix of cases, anywhere in the id. */
  lemma IsGemmaAnyCase(model: string)
    ensures IsGemma(model) <==> exists i :: GemmaAt(model, i)
  {
    if IsGemma(model) {
      var i :| 0 <= i <= |ToLower(model)| - 5 && OccursAt(ToLower(model), "gemma", i);
      GemmaWindow(model, i);
    }
    if exists i :: GemmaAt(model, i) {
      var i :| GemmaAt(model, i);
      GemmaWindow(model, i);
    }
  }

  /** The configuration's default model speaks the Gemma dialect. */
  lemma ConfigDefaultIsGemma()
    ensures IsGemma(Config.DefaultAIModel)
  {
    var g := Config.DefaultAIModel;
    assert ToLower(g)[7..12] == "gemma";
    assert OccursAt(ToLower(g), "gemma", 7);
  }

  /** A model id without the letter g cannot select the Gemma dialect. */
  lemma WithoutGNotGemma(model: string)
    requires 'g' !in model && 'G' !in model
    ensures !IsGemma(model)
  {
    var lm := ToLower(model);
    forall i | 0 <= i <= |lm| - 5
      ensures !OccursAt(lm, "gemma", i)
    {
      assert lm[i] == Lower(model[i]);
    }
  }

  /** The provider's own default model speaks the Anthropic dialect. */
  lemma ProviderDefaultIsAnthropic()
    ensures !IsGemma(DefaultModel)
  {
    var head, tail := "anthropic.claude-3-", "sonnet-20240229-v1:0";
    assert DefaultModel == head + tail;
    assert 'g' !in head && 'G' !in head;
    assert 'g' !in tail && 'G' !in tail;
    WithoutGNotGemma(head + tail);
  }

  datatype Message = Message(role: string, content: string)

  datatype InvokeRequest =
    | GemmaRequest(messages: seq<Message>, maxTokens: int, temperature: real, topP: real)
    | AnthropicRequest(anthropicVersion: string, maxTokens: int, system: string, messages: seq<Message>)

  /** The request body: the Gemma chat shape for Gemma models, the Anthropic shape otherwise. */
  function BuildRequest(model: string, prompt: string): (r: InvokeRequest)
    ensures r.GemmaRequest? <==> IsGemma(model)
    ensures r.maxTokens == MaxTokens
    ensures r.GemmaRequest? ==>
      r.messages == [Message("user", SystemPrompt + "\n\n" + prompt)] && r.temperature == 0.5 && r.topP == 0.9
    ensures r.AnthropicRequest? ==>
      r.anthropicVersion == AnthropicVersion && r.system == SystemPrompt && r.messages == [Message("user", prompt)]
  {
    if IsGemma(model) then
      GemmaRequest([Message("user", SystemPrompt + "\n\n" + prompt)], MaxTokens, 0.5, 0.9)
    else
      AnthropicRequest(AnthropicVersion, MaxTokens, SystemPrompt, [Message("user", prompt)])
  }

  /** The invoke endpoint of the provider's model in its region. */
  function InvokeUrl(p: BedrockProvider): (url: string) {
    "https://bedrock-runtime." + p.region + ".amazonaws.com/model/" + p.model + "/invoke"
  }

  /**
   * The invoke endpoint's path: the scheme, the regional runtime host, then
   * `model`, the model id's own segments and `invoke`.
   */
  lemma {:induction false} InvokeUrlSegments(p: BedrockProvider)
    ensures SplitOn(InvokeUrl(p), '/')
         == ["https:", ""] + SplitOn("bedrock-runtime." + p.region + ".amazonaws.com", '/')
            + ["model"] + SplitOn(p.model, '/') + ["invoke"]
  {
    var host := "bedrock-runtime." + p.region + ".amazonaws.com";
    InvokeUrlJoined(p);
    FixedSegments();
    SplitOnFive("https:", "", host, "model", p.model, "invoke", '/');
    assert ["https:"] + [""] == ["https:", ""];
  }

  /** The invoke URL is its six segments joined by '/'. */
  lemma {:induction false} InvokeUrlJoined(p: BedrockProvider)
    ensures InvokeUrl(p)
         == "https:" + ['/'] + ("" + ['/'] + (("bedrock-runtime." + p.region + ".amazonaws.com") + ['/']
            + ("model" + ['/'] + (p.model + ['/'] + "invoke"))))
  {
    assert "https://bedrock-runtime." == "https:" + ['/'] + ("" + ['/'] + "bedrock-runtime.") by {}
    assert ".amazonaws.com/model/" == ".amazonaws.com" + ['/'] + ("model" + ['/']) by {}
    assert "/invoke" == ['/'] + "invoke" by {}
    UrlRegrouped("https:", "bedrock-runtime.", p.region, ".amazonaws.com", "model", p.model, "invoke");
  }

  /** The fixed segments of the invoke URL hold no '/'. */
  lemma {:induction false} FixedSegments()
    ensures SplitOn("https:", '/') == ["https:"] && SplitOn("", '/') == [""]
    ensures SplitOn("model", '/') == ["model"] && SplitOn("invoke", '/') == ["invoke"]
  {
    assert '/' !in "https:" && '/' !in "" && '/' !in "model" && '/' !in "invoke" by {
      assert forall i :: 0 <= i < |"https:"| ==> "https:"[i] != '/';
      assert forall i :: 0 <= i < |"model"| ==> "model"[i] != '/';
      assert forall i :: 0 <= i < |"invoke"| ==> "invoke"[i] != '/';
    }
    SplitOnWord("https:", '/');
    SplitOnWord("", '/');
    SplitOnWord("model", '/');
    SplitOnWord("invoke", '/');
  }

  /** The invoke URL's pieces, regrouped around its separators. */
  lemma UrlRegrouped(scheme: string, pre: string, region: string, post: string, model: string, id: string, invoke: string)
    ensures scheme + ['/'] + ("" + ['/'] + pre) + region + (post + ['/'] + (model + ['/'])) + id + (['/'] + invoke)
         == scheme + ['/'] + ("" + ['/'] + ((pre + region + post) + ['/'] + (model + ['/'] + (id + ['/'] + invoke))))
  {
  }

  // ---------------------------------------------------------------------
  // Finding the reply text
  // ---------------------------------------------------------------------

  /** A decoded JSON value, as encoding/json produces it for an interface{}. */
  datatype Json =
    | JNull
    | JBool(b: bool)
    | JNumber(n: real)
    | JString(s: string)
    | JArray(items: seq<Json>)
    | JObject(fields: map<string, Json>)

  datatype Step = Key(name: string) | Index(index: nat)

  /** The value reached by following `path`, if every step exists. */
  function Lookup(j: Json, path: seq<Step>): (found: Option<Json>)
    decreases |path|
  {
    if |path| == 0 then Some(j)
    else
      match path[0]
      case Key(k) => if j.JObject? && k in j.fields then Lookup(j.fields[k], path[1..]) else None
      case Index(i) => if j.JArray? && i < |j.items| then Lookup(j.items[i], path[1..]) else None
  }

  /** The string at the end of `path`, if there is one. */
  function TextAt(j: Json, path: seq<Step>): (text: Option<string>) {
    match Lookup(j, path)
    case Some(JString(s)) => Some(s)
    case _ => None
  }

  const ChoicesPath: seq<Step> := [Key("choices"), Index(0), Key("message"), Key("content")]
  const OutputPath: seq<Step> := [Key("output"), Key("message"), Key("content"), Index(0), Key("text")]

  lemma LookupKey(j: Json, k: string, path: seq<Step>)
    ensures Lookup(j, [Key(k)] + path) ==
      if j.JObject? && k in j.fields then Lookup(j.fields[k], path) else None
  {
    assert ([Key(k)] + path)[1..] == path;
  }

  lemma LookupIndex(j: Json, i: nat, path: seq<Step>)
    ensures Lookup(j, [Index(i)] + path) ==
      if j.JArray? && i < |j.items| then Lookup(j.items[i], path) else None
  {
    assert ([Index(i)] + path)[1..] == path;
  }

  /** choices[0].message.content, each step checked as the provider's type assertions do. */
  function ChoiceText(result: map<string, Json>): (text: Option<string>) {
    if "choices" in result && result["choices"].JArray? && |result["choices"].items| > 0 then
      var choice := result["choices"].items[0];
      if choice.JObject? && "message" in choice.fields && choice.fields["message"].JObject? then
        var msg := choice.fields["message"].fields;
        if "content" in msg && msg["content"].JString? then Some(msg["content"].s) else None
      else None
    else None
  }

  /** output.message.content[0].text, each step checked as the provider's type assertions do. */
  function OutputText(result: map<string, Json>): (text: Option<string>) {
    if "output" in result && result["output"].JObject? && "message" in result["output"].fields then
      var msg := result["output"].fields["message"];
      if msg.JObject? && "content" in msg.fields && msg.fields["content"].JArray? && |msg.fields["content"].items| > 0 then
        var block := msg.fields["content"].items[0];
        if block.JObject? && "text" in block.fields && block.fields["text"].JString? then Some(block.fields["text"].s) else None
      else None
    else None
  }

  /** The nested checks find exactly the string at the end of the choices path. */
  lemma ChoiceTextIsPath(result: map<string, Json>)
    ensures ChoiceText(result) == TextAt(JObject(result), ChoicesPath)
  {
    var r := JObject(result);
    var p3: seq<Step> := [Key("content")];
    var p2: seq<Step> := [Key("message")] + p3;
    var p1: seq<Step> := [Index(0)] + p2;
    assert ChoicesPath == [Key("choices")] + p1;
    LookupKey(r, "choices", p1);
    if "choices" in result {
      var c := result["choices"];
      LookupIndex(c, 0, p2);
      if c.JArray? && |c.items| > 0 {
        var m := c.items[0];
        LookupKey(m, "message", p3);
        if m.JObject? && "message" in m.fields {
          LookupKey(m.fields["message"], "content", []);
        }
      }
    }
  }

  /** The nested checks find exactly the string at the end of the output path. */
  lemma OutputTextIsPath(result: map<string, Json>)
    ensures OutputText(result) == TextAt(JObject(result), OutputPath)
  {
    var r := JObject(result);
    var p4: seq<Step> := [Key("text")];
    var p3: seq<Step> := [Index(0)] + p4;
    var p2: seq<Step> := [Key("content")] + p3;
    var p1: seq<Step> := [Key("message")] + p2;
    assert OutputPath == [Key("output")] + p1;
    LookupKey(r, "output", p1);
    if "output" in result {
      var o := result["output"];
      LookupKey(o, "message", p2);
      if o.JObject? && "message" in o.fields {
        var m := o.fields["message"];
        LookupKey(m, "content", p3);
        if m.JObject? && "content" in m.fields {
          var c := m.fields["content"];
          LookupIndex(c, 0, p4);
          if c.JArray? && |c.items| > 0 {
            LookupKey(c.items[0], "text", []);
          }
        }
      }
    }
  }

  /**
   * The Gemma reply text: choices[0].message.content when it is a
   * non-empty string, else output.message.content[0].text, else "".
   */
  function GemmaContent(result: map<string, Json>): (content: string)
    ensures var first := TextAt(JObject(result), ChoicesPath);
            var second := TextAt(JObject(result), OutputPath);
            content == if first.Some? && first.value != "" then first.value
                       else if second.Some? then second.value
                       else ""
  {
    ChoiceTextIsPath(result);
    OutputTextIsPath(result);
    var content := if ChoiceText(result).Some? then ChoiceText(result).value else "";
    if content != "" then content
    else if OutputText(result).Some? then OutputText(result).value
    else content
  }

  datatype ContentBlock = ContentBlock(text: string, kind: string)

  /** The Anthropic reply text: the first content block's text, or "" without blocks. */
  function AnthropicContent(blocks: seq<ContentBlock>): (content: string)
    ensures |blocks| > 0 ==> content == blocks[0].text
    ensures |blocks| == 0 ==> content == ""
  {
    if |blocks| > 0 then blocks[0].text else ""
  }

  /** encoding/json, for the two reply shapes and for the generated text. */
  datatype Decoders = Decoders(
    tree: string -> Option<map<string, Json>>,
    blocks: string -> Option<seq<ContentBlock>>,
    proposal: string -> Option<AIResponse>)

  /** The reply text, read with the parser of the model's dialect. */
  function ExtractContent(model: string, body: string, dec: Decoders): (r: Result<string, ProviderError>)
    ensures IsGemma(model) ==> (r.Success? <==> dec.tree(body).Some?)
    ensures IsGemma(model) && r.Success? ==> r.value == GemmaContent(dec.tree(body).value)
    ensures !IsGemma(model) ==> (r.Success? <==> dec.blocks(body).Some?)
    ensures !IsGemma(model) && r.Success? ==> r.value == AnthropicContent(dec.blocks(body).value)
    ensures r.Failure? ==> r.error == UndecodableReply
  {
    if IsGemma(model) then
      match dec.tree(body)
      case None => Failure(UndecodableReply)
      case Some(tree) => Success(GemmaContent(tree))
    else
      match dec.blocks(body)
      case None => Failure(UndecodableReply)
      case Some(blocks) => Success(AnthropicContent(blocks))
  }

  // ---------------------------------------------------------------------
  // Code fences
  // ---------------------------------------------------------------------

  const JsonFence: string := "```json"
  const Fence: string := "```"

  /** The trimmed text without a leading ```json (else ```) fence and, then, one trailing ``` fence. */
  function FenceStripped(content: string): (stripped: string) {
    var t := TrimSpace(content);
    if HasPrefix(t, JsonFence) then TrimSuffix(TrimPrefix(t, JsonFence), Fence)
    else if HasPrefix(t, Fence) then TrimSuffix(TrimPrefix(t, Fence), Fence)
    else t
  }

  /** The clean-up of the reply text, one reassignment at a time. */
  method StripFences(content: string) returns (c: string)
    ensures c == FenceStripped(content)
  {
    c := TrimSpace(content);
    if HasPrefix(c, JsonFence) {
      c := TrimPrefix(c, JsonFence);
      c := TrimSuffix(c, Fence);
    } else if HasPrefix(c, Fence) {
      c := TrimPrefix(c, Fence);
      c := TrimSuffix(c, Fence);
    }
  }

  /** Text without a leading fence is only trimmed. */
  lemma {:induction false} UnfencedOnlyTrimmed(content: string)
    requires !HasPrefix(TrimSpace(content), Fence)
    ensures FenceStripped(content) == TrimSpace(content)
  {
    assert JsonFence[..|Fence|] == Fence;
  }

  /** A text between two fences starts with a backquote and ends with one. */
  lemma FencedEdges(open: string, x: string)
    requires HasPrefix(open, Fence)
    ensures var t := open + (x + Fence);
            t != [] && !IsSpace(t[0]) && !IsSpace(t[|t| - 1])
  {
    var t := open + (x + Fence);
    assert t[0] == open[0] == '`';
    assert t[|t| - 1] == (x + Fence)[|x + Fence| - 1] == '`';
  }

  /** A ```json-fenced text, with any whitespace around it, comes back as the text inside. */
  lemma JsonFenceRoundTrip(ws1: string, x: string, ws2: string)
    requires AllSpace(ws1) && AllSpace(ws2)
    ensures FenceStripped(ws1 + (JsonFence + (x + Fence)) + ws2) == x
  {
    var t := JsonFence + (x + Fence);
    FencedEdges(JsonFence, x);
    TrimSpacePadded(ws1, t, ws2);
    TrimPrefixOf(JsonFence, x + Fence);
    TrimSuffixOf(x, Fence);
  }

  /** A fence followed by text that does not start with "json" does not start with a ```json fence. */
  lemma NotJsonFenced(x: string)
    requires !HasPrefix(x, "json")
    ensures !HasPrefix(Fence + (x + Fence), JsonFence)
  {
    var t := Fence + (x + Fence);
    if |x| >= 4 {
      assert t[3..7] == x[..4];
    } else {
      assert t[3 + |x|] == '`';
    }
  }

  /** A plain ```-fenced text, not starting with "json", comes back as the text inside. */
  lemma PlainFenceRoundTrip(ws1: string, x: string, ws2: string)
    requires AllSpace(ws1) && AllSpace(ws2)
    requires !HasPrefix(x, "json")
    ensures FenceStripped(ws1 + (Fence + (x + Fence)) + ws2) == x
  {
    var t := Fence + (x + Fence);
    FencedEdges(Fence, x);
    TrimSpacePadded(ws1, t, ws2);
    NotJsonFenced(x);
    TrimPrefixOf(Fence, x + Fence);
    TrimSuffixOf(x, Fence);
  }

  // ---------------------------------------------------------------------
  // GetSuggestions
  // ---------------------------------------------------------------------

  datatype HttpReply = HttpReply(statusCode: int, body: string)

  /** Building, signing and sending the request to a URL; a failure at any of these steps is an error. */
  type Transport = (string, InvokeRequest) -> Result<HttpReply, string>

  /** GetSuggestions: prompt, request, status check, reply text, fence stripping, decoding. */
  function GetSuggestions(p: BedrockProvider, query: string, existing: seq<string>, send: Transport, dec: Decoders)
    : (r: Result<AIResponse, ProviderError>)
    ensures var sent := send(InvokeUrl(p), BuildRequest(p.model, PromptText(query, existing)));
            (sent.Failure? ==> r == Failure(InvokeFailed(sent.error)))
            && (sent.Success? && sent.value.statusCode != StatusOK ==>
                  r == Failure(BadStatus(sent.value.statusCode, sent.value.body)))
            && (sent.Success? && sent.value.statusCode == StatusOK ==>
                  var content := ExtractContent(p.model, sent.value.body, dec);
                  (content.Failure? ==> r == Failure(content.error))
                  && (content == Success("") ==> r == Failure(EmptyContent))
                  && (content.Success? && content.value != "" ==>
                        var proposal := dec.proposal(FenceStripped(content.value));
                        (proposal.None? ==> r == Failure(UndecodableContent))
                        && (proposal.Some? ==> r == Success(proposal.value))))
            && (r.Success? ==>
                  sent.Success? && sent.value.statusCode == StatusOK
                  && (var content := ExtractContent(p.model, sent.value.body, dec);
                      content.Success? && content.value != ""
                      && dec.proposal(FenceStripped(content.value)) == Some(r.value)))
  {
    var request := BuildRequest(p.model, PromptText(query, existing));
    match send(InvokeUrl(p), request)
    case Failure(e) => Failure(InvokeFailed(e))
    case Success(reply) =>
      if reply.statusCode != StatusOK then Failure(BadStatus(reply.statusCode, reply.body))
      else
        match ExtractContent(p.model, reply.body, dec)
        case Failure(e) => Failure(e)
        case Success(content) =>
          if content == "" then Failure(EmptyContent)
          else
            match dec.proposal(FenceStripped(content))
            case None => Failure(UndecodableContent)
            case Some(reply) => Success(reply)
  }

  /** The provider as the suggestion handler sees it. */
  function AsProvider(p: BedrockProvider, send: Transport, dec: Decoders): (provider: AIProvider)
  {
    (query, existing) => GetSuggestions(p, query, existing, send, dec)
  }
}
