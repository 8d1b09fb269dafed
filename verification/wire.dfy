/** The provider wire codec: endpoint selection, request-body shaping, header
    sets, the status check and the three line-oriented stream decoders of the
    simple provider. HTTP transport and JSON are abstracted: a request is
    handed to a transport function, and each `data: ` payload is handed to a
    frame extractor that stands for json.Unmarshal plus the field access. */
module Wire {
  import opened Wrappers
  import opened Text
  import opened Chat

  // ---------------------------------------------------------------------
  // Provider profile

  datatype Provider = Provider(name: string, apiKey: string, model: string, apiUrl: string)

  const OpenAIUrl := "https://api.openai.com/v1/chat/completions"
  const AnthropicUrl := "https://api.anthropic.com/v1/messages"
  const GoogleUrlPrefix := "https://generativelanguage.googleapis.com/v1beta/models/"
  const GoogleUrlSuffix := ":streamGenerateContent?alt=sse"
  const OpenRouterUrl := "https://openrouter.ai/api/v1/chat/completions"
  const NvidiaUrl := "https://integrate.api.nvidia.com/v1/chat/completions"

  /** The endpoint for a provider name: only Google's depends on the model,
      and it ends in the streaming suffix; every other name gets one of the
      four fixed chat endpoints. */
  function ApiUrl(name: string, model: string): (url: string)
    ensures name == "google" ==> HasSuffix(url, GoogleUrlSuffix)
    ensures name != "google" ==> url in {OpenAIUrl, AnthropicUrl, OpenRouterUrl, NvidiaUrl}
  {
    match name
    case "openai" => OpenAIUrl
    case "anthropic" => AnthropicUrl
    case "google" =>
      var url := GoogleUrlPrefix + model + GoogleUrlSuffix;
      assert url[|url| - |GoogleUrlSuffix|..] == GoogleUrlSuffix;
      url
    case "openrouter" => OpenRouterUrl
    case "nvidia" => NvidiaUrl
    case _ => OpenAIUrl
  }

  predicate IsKnownProvider(name: string) {
    name in {"openai", "anthropic", "google", "openrouter", "nvidia"}
  }

  /** Google's URL embeds the model between a fixed prefix and the streaming
      suffix, so the model can be read back from it; an unrecognised provider
      gets the OpenAI endpoint; no other URL depends on the model. */
  lemma ApiUrlSelection(name: string, model: string)
    ensures name == "google" ==>
      && HasPrefix(ApiUrl(name, model), GoogleUrlPrefix)
      && HasSuffix(ApiUrl(name, model), GoogleUrlSuffix)
      && ApiUrl(name, model)[|GoogleUrlPrefix|..|ApiUrl(name, model)| - |GoogleUrlSuffix|] == model
    ensures !IsKnownProvider(name) ==> ApiUrl(name, model) == OpenAIUrl
    ensures name != "google" ==> forall other :: ApiUrl(name, other) == ApiUrl(name, model)
  {
    if name == "google" {
      var url := ApiUrl(name, model);
      assert url == GoogleUrlPrefix + model + GoogleUrlSuffix;
      assert url[..|GoogleUrlPrefix|] == GoogleUrlPrefix;
      assert url[|url| - |GoogleUrlSuffix|..] == GoogleUrlSuffix;
    }
  }

  /** NewSimpleProvider: the URL is fixed once, from the name and the model;
      Google's embeds the model, each other known provider has its own fixed
      endpoint, and any other name is sent to OpenAI. */
  function NewProvider(name: string, apiKey: string, model: string): (p: Provider)
    ensures p.name == name && p.apiKey == apiKey && p.model == model
    ensures name == "google" ==> p.apiUrl == GoogleUrlPrefix + model + GoogleUrlSuffix
    ensures name == "anthropic" ==> p.apiUrl == AnthropicUrl
    ensures name == "openrouter" ==> p.apiUrl == OpenRouterUrl
    ensures name == "nvidia" ==> p.apiUrl == NvidiaUrl
    ensures name == "openai" || !IsKnownProvider(name) ==> p.apiUrl == OpenAIUrl
  {
    Provider(name, apiKey, model, ApiUrl(name, model))
  }

  /** The provider's own model list (distinct from the configuration's). */
  function Models(name: string): (models: seq<string>)
    ensures |models| >= 1
    ensures !IsKnownProvider(name) ==> models == ["gpt-4"]
  {
    match name
    case "openai" => ["gpt-4", "gpt-4o", "gpt-4o-mini", "gpt-3.5-turbo"]
    case "anthropic" => ["claude-3-5-sonnet-20241022", "claude-3-opus-20240229"]
    case "google" => ["gemini-1.5-pro", "gemini-1.5-flash"]
    case "openrouter" => ["openai/gpt-4", "anthropic/claude-3.5-sonnet"]
    case "nvidia" => ["nvidia/llama-3.1-nemotron-70b-instruct"]
    case _ => ["gpt-4"]
  }

  // ---------------------------------------------------------------------
  // Request bodies

  /** The 0.7 temperature literal; floating point is never computed on. */
  const DefaultTemperature: real := 0.7
  const MaxTokens := 4096

  datatype Part = Part(text: string)
  datatype Content = Content(role: string, parts: seq<Part>)

  datatype RequestBody =
    | ChatBody(model: string, messages: seq<Message>, stream: bool, temperature: real)
    | AnthropicBody(model: string, messages: seq<Message>, stream: bool, maxTokens: int,
                    system: Option<string>)
    | GoogleBody(contents: seq<Content>, temperature: real, maxOutputTokens: int)

  function GoogleRole(role: string): string {
    if role == "system" then "model" else role
  }

  /** formatGoogleMessages: one content entry per message, appended in order. */
  function GoogleContents(messages: seq<Message>): (contents: seq<Content>)
    ensures |contents| == |messages|
    ensures forall i :: 0 <= i < |messages| ==>
      && contents[i].parts == [Part(messages[i].content)]
      && (messages[i].role == "system" ==> contents[i].role == "model")
      && (messages[i].role != "system" ==> contents[i].role == messages[i].role)
  {
    if |messages| == 0 then []
    else
      var init := messages[..|messages| - 1];
      var m := messages[|messages| - 1];
      assert init == messages[..|messages| - 1];
      GoogleContents(init) + [Content(GoogleRole(m.role), [Part(m.content)])]
  }

  /** The loop of the Anthropic branch: a system message overwrites the
      remembered system text, any other message is kept. */
  function SplitSystem(messages: seq<Message>, system: string, kept: seq<Message>): (string, seq<Message>)
    decreases |messages|
  {
    if |messages| == 0 then (system, kept)
    else if messages[0].role == "system" then SplitSystem(messages[1..], messages[0].content, kept)
    else SplitSystem(messages[1..], system, kept + [messages[0]])
  }

  /** Reference filter: the messages whose role is not "system", in order. */
  function NonSystem(messages: seq<Message>): (r: seq<Message>)
    ensures forall i :: 0 <= i < |r| ==> r[i].role != "system"
  {
    if |messages| == 0 then []
    else (if messages[0].role == "system" then [] else [messages[0]]) + NonSystem(messages[1..])
  }

  /** Index j holds the last system message. */
  predicate IsLastSystem(messages: seq<Message>, j: int) {
    && 0 <= j < |messages|
    && messages[j].role == "system"
    && forall k :: j < k < |messages| ==> messages[k].role != "system"
  }

  /** buildRequestBody: the body's shape is the one the response decoder for
      the same provider expects. */
  function BuildRequestBody(p: Provider, messages: seq<Message>): (body: RequestBody)
    ensures body.GoogleBody? <==> DialectOf(p.name) == GoogleStream
    ensures body.AnthropicBody? <==> DialectOf(p.name) == AnthropicStream
    ensures body.ChatBody? <==> DialectOf(p.name) == OpenAIStream
  {
    match p.name
    case "google" => GoogleBody(GoogleContents(messages), DefaultTemperature, MaxTokens)
    case "anthropic" =>
      var (system, kept) := SplitSystem(messages, "", []);
      AnthropicBody(p.model, kept, true, MaxTokens, if system != "" then Some(system) else None)
    case _ => ChatBody(p.model, messages, true, DefaultTemperature)
  }

  lemma {:induction false} SplitSystemKeeps(messages: seq<Message>, system: string, kept: seq<Message>)
    ensures SplitSystem(messages, system, kept).1 == kept + NonSystem(messages)
    decreases |messages|
  {
    if |messages| == 0 {
      assert kept + [] == kept;
    } else if messages[0].role == "system" {
      SplitSystemKeeps(messages[1..], messages[0].content, kept);
    } else {
      SplitSystemKeeps(messages[1..], system, kept + [messages[0]]);
    }
  }

  lemma {:induction false} SplitSystemLast(messages: seq<Message>, system: string, kept: seq<Message>)
    ensures var s := SplitSystem(messages, system, kept).0;
      || (exists j :: IsLastSystem(messages, j) && s == messages[j].content)
      || ((forall k :: 0 <= k < |messages| ==> messages[k].role != "system") && s == system)
    decreases |messages|
  {
    if |messages| > 0 {
      var rest := messages[1..];
      var next := if messages[0].role == "system" then messages[0].content else system;
      var kept' := if messages[0].role == "system" then kept else kept + [messages[0]];
      SplitSystemLast(rest, next, kept');
      var s := SplitSystem(messages, system, kept).0;
      assert s == SplitSystem(rest, next, kept').0;
      if j :| IsLastSystem(rest, j) && s == rest[j].content {
        assert IsLastSystem(messages, j + 1);
      } else if messages[0].role == "system" {
        assert IsLastSystem(messages, 0);
      }
    }
  }

  /** The Anthropic body: `messages` is the input without its system messages,
      in order; `system` is the content of the last system message, present
      only when that content is non-empty; 4096 tokens; streaming on. */
  lemma AnthropicBodyShape(p: Provider, messages: seq<Message>)
    requires p.name == "anthropic"
    ensures var body := BuildRequestBody(p, messages);
      && body.AnthropicBody?
      && body.model == p.model && body.stream && body.maxTokens == 4096
      && body.messages == NonSystem(messages)
      && ((forall k :: 0 <= k < |messages| ==> messages[k].role != "system") ==> body.system == None)
      && (forall j :: IsLastSystem(messages, j) ==>
            body.system == (if messages[j].content != "" then Some(messages[j].content) else None))
  {
    SplitSystemKeeps(messages, "", []);
    SplitSystemLast(messages, "", []);
    forall j | IsLastSystem(messages, j)
      ensures forall j' :: IsLastSystem(messages, j') ==> j' == j
    {
    }
  }

  /** The Google body keeps every message, remaps only the system role, and
      wraps each content in exactly one part. */
  lemma GoogleBodyShape(p: Provider, messages: seq<Message>)
    requires p.name == "google"
    ensures var body := BuildRequestBody(p, messages);
      && body.GoogleBody?
      && body.maxOutputTokens == 4096
      && |body.contents| == |messages|
      && forall i :: 0 <= i < |messages| ==>
           body.contents[i] == Content(GoogleRole(messages[i].role), [Part(messages[i].content)])
  {
  }

  /** Every other provider sends the messages untouched, with streaming on. */
  lemma ChatBodyShape(p: Provider, messages: seq<Message>)
    requires p.name != "google" && p.name != "anthropic"
    ensures BuildRequestBody(p, messages) == ChatBody(p.model, messages, true, DefaultTemperature)
  {
  }

  // ---------------------------------------------------------------------
  // Headers

  /** setHeaders: Anthropic authenticates with x-api-key and a pinned API
      version and never sends Authorization; every other provider sends a
      bearer token; only OpenRouter identifies the application. */
  function Headers(p: Provider): (h: map<string, string>)
    ensures "Content-Type" in h && h["Content-Type"] == "application/json"
    ensures p.name == "anthropic" ==>
      && "x-api-key" in h && h["x-api-key"] == p.apiKey
      && "anthropic-version" in h && h["anthropic-version"] == "2023-06-01"
      && "Authorization" !in h
    ensures p.name != "anthropic" ==>
      && "Authorization" in h && h["Authorization"] == "Bearer " + p.apiKey
      && "x-api-key" !in h && "anthropic-version" !in h
    ensures ("HTTP-Referer" in h || "X-Title" in h) <==> p.name == "openrouter"
    ensures |h.Keys| == (if p.name == "openrouter" then 4 else if p.name == "anthropic" then 3 else 2)
  {
    var json := "application/json";
    match p.name
    case "anthropic" =>
      map["x-api-key" := p.apiKey, "anthropic-version" := "2023-06-01", "Content-Type" := json]
    case "openrouter" =>
      map["Authorization" := "Bearer " + p.apiKey, "Content-Type" := json,
          "HTTP-Referer" := "https://nexlycode.vercel.app", "X-Title" := "Nexly"]
    case _ =>
      map["Authorization" := "Bearer " + p.apiKey, "Content-Type" := json]
  }

  // ---------------------------------------------------------------------
  // Stream decoding

  /** What the frame extractor makes of one `data: ` payload: the JSON did not
      parse, or it parsed and the field the dialect reads is present (Some) or
      its enclosing array is empty (None). */
  datatype Frame = Malformed | Parsed(field: Option<string>)

  /** The three response shapes: OpenAI-compatible (choices[0].delta.content,
      ended by `[DONE]`), Anthropic (delta.text) and Google
      (candidates[0].content.parts[0].text). */
  datatype Dialect = OpenAIStream | AnthropicStream | GoogleStream

  function DialectOf(name: string): Dialect {
    match name
    case "anthropic" => AnthropicStream
    case "google" => GoogleStream
    case _ => OpenAIStream
  }

  const DataPrefix := "data: "
  const DoneSentinel := "[DONE]"

  /** The payload of a data line: after trimming white space the line must
      start with exactly `data: `; other lines carry nothing. */
  function Payload(line: string): Option<string> {
    var t := TrimSpace(line);
    if HasPrefix(t, DataPrefix) then Some(TrimPrefix(t, DataPrefix)) else None
  }

  /** The text a parsed frame hands to the callback, if any. OpenAI and
      Anthropic drop empty text (Anthropic reads a missing field as empty);
      Google passes an empty text on. */
  function FrameText(d: Dialect, frame: Frame): Option<string> {
    match frame
    case Malformed => None
    case Parsed(field) =>
      match d
      case OpenAIStream => if field.Some? && field.value != "" then field else None
      case AnthropicStream => if field.GetOr("") != "" then field else None
      case GoogleStream => field
  }

  /** The text one line contributes when decoding is not stopped before it. */
  function LineText(d: Dialect, line: string, extract: string -> Frame): Option<string> {
    match Payload(line)
    case None => None
    case Some(data) => FrameText(d, extract(data))
  }

  /** Only the OpenAI-compatible dialect stops, at `data: [DONE]`. */
  predicate IsStop(d: Dialect, line: string) {
    d == OpenAIStream && Payload(line) == Some(DoneSentinel)
  }

  /** Result of a stream: the texts passed to the callback, in order, and the
      error returned, if any. */
  datatype Outcome = Outcome(deltas: seq<string>, err: Option<string>)

  /** The read loop of handleOpenAIStream, handleAnthropicStream and
      handleGoogleStream over the newline-terminated lines of the body;
      readError is what the reader reports after the last complete line
      (None for a clean end of file). */
  function Decode(d: Dialect, lines: seq<string>, extract: string -> Frame, readError: Option<string>): (o: Outcome)
    ensures d != GoogleStream ==> forall i :: 0 <= i < |o.deltas| ==> o.deltas[i] != ""
    ensures |o.deltas| <= |lines|
    decreases |lines|
  {
    if |lines| == 0 then Outcome([], readError)
    else if IsStop(d, lines[0]) then Outcome([], None)
    else
      var rest := Decode(d, lines[1..], extract, readError);
      match LineText(d, lines[0], extract)
      case None => rest
      case Some(t) => Outcome([t] + rest.deltas, rest.err)
  }

  /** Reference reading: the per-line texts of a block of lines, with no
      stopping. */
  function Collect(d: Dialect, lines: seq<string>, extract: string -> Frame): seq<string> {
    if |lines| == 0 then [] else LinePiece(d, lines[0], extract) + Collect(d, lines[1..], extract)
  }

  /** The texts one line contributes, as a sequence of zero or one. */
  function LinePiece(d: Dialect, line: string, extract: string -> Frame): seq<string> {
    match LineText(d, line, extract)
    case None => []
    case Some(t) => [t]
  }

  /** Index of the first stopping line, or |lines|. */
  function StopIndex(d: Dialect, lines: seq<string>): (k: nat)
    ensures k <= |lines|
    ensures k < |lines| ==> IsStop(d, lines[k])
    ensures forall i :: 0 <= i < k ==> !IsStop(d, lines[i])
  {
    if |lines| == 0 || IsStop(d, lines[0]) then 0 else 1 + StopIndex(d, lines[1..])
  }

  /** The decoder emits, in order, the text of every line before the first
      `[DONE]` and nothing after it; it reports the read error only when it
      read to the end. */
  lemma {:induction false} DecodeIsCollectUntilStop(d: Dialect, lines: seq<string>, extract: string -> Frame,
                                                     readError: Option<string>)
    ensures var k := StopIndex(d, lines);
      Decode(d, lines, extract, readError)
        == Outcome(Collect(d, lines[..k], extract), if k < |lines| then None else readError)
    decreases |lines|
  {
    if |lines| > 0 && !IsStop(d, lines[0]) {
      var tail := lines[1..];
      DecodeIsCollectUntilStop(d, tail, extract, readError);
      var k := StopIndex(d, lines);
      assert k == 1 + StopIndex(d, tail);
      var pre := lines[..k];
      assert pre[0] == lines[0];
      assert pre[1..] == tail[..k - 1];
      assert Collect(d, pre, extract) == LinePiece(d, lines[0], extract) + Collect(d, tail[..k - 1], extract);
    }
  }

  lemma {:induction false} CollectAppend(d: Dialect, a: seq<string>, b: seq<string>, extract: string -> Frame)
    ensures Collect(d, a + b, extract) == Collect(d, a, extract) + Collect(d, b, extract)
    decreases |a|
  {
    if |a| == 0 {
      assert a + b == b;
    } else {
      CollectAppend(d, a[1..], b, extract);
      AppendTail(a, b);
    }
  }

  /** Lines after the first `data: [DONE]` never reach the callback, and the
      stream then ends without error. */
  lemma OpenAIStopsAtDone(before: seq<string>, done: string, after: seq<string>, extract: string -> Frame,
                          readError: Option<string>)
    requires forall i :: 0 <= i < |before| ==> !IsStop(OpenAIStream, before[i])
    requires Payload(done) == Some(DoneSentinel)
    ensures Decode(OpenAIStream, before + [done] + after, extract, readError)
      == Outcome(Collect(OpenAIStream, before, extract), None)
  {
    var lines := before + [done] + after;
    StopIndexIs(OpenAIStream, lines, |before|);
    DecodeIsCollectUntilStop(OpenAIStream, lines, extract, readError);
    assert lines[..|before|] == before;
  }

  lemma StopIndexIs(d: Dialect, lines: seq<string>, k: nat)
    requires k <= |lines|
    requires k < |lines| ==> IsStop(d, lines[k])
    requires forall i :: 0 <= i < k ==> !IsStop(d, lines[i])
    ensures StopIndex(d, lines) == k
  {
  }

  /** Decoding two blocks in a row, the first without a stop, emits the first
      block's texts and then the second's: deltas are never reordered or
      merged. Non-data and malformed lines contribute nothing. */
  lemma DecodeAppend(d: Dialect, a: seq<string>, b: seq<string>, extract: string -> Frame,
                     readError: Option<string>)
    requires forall i :: 0 <= i < |a| ==> !IsStop(d, a[i])
    ensures Decode(d, a + b, extract, readError).deltas
      == Collect(d, a, extract) + Decode(d, b, extract, readError).deltas
  {
    var k := StopIndex(d, b);
    StopIndexAppend(d, a, b);
    DecodeIsCollectUntilStop(d, a + b, extract, readError);
    DecodeIsCollectUntilStop(d, b, extract, readError);
    PrefixOfAppend(a, b, k);
    CollectAppend(d, a, b[..k], extract);
    assert Decode(d, a + b, extract, readError).deltas == Collect(d, a + b[..k], extract);
  }

  /** Lines that do not stop the decoder push the first stop back by their
      number. */
  lemma StopIndexAppend(d: Dialect, a: seq<string>, b: seq<string>)
    requires forall i :: 0 <= i < |a| ==> !IsStop(d, a[i])
    ensures StopIndex(d, a + b) == |a| + StopIndex(d, b)
  {
    var k := StopIndex(d, b);
    assert forall i :: 0 <= i < |a| ==> (a + b)[i] == a[i];
    assert forall i :: |a| <= i < |a| + |b| ==> (a + b)[i] == b[i - |a|];
    StopIndexIs(d, a + b, |a| + k);
  }

  lemma PrefixOfAppend<T>(a: seq<T>, b: seq<T>, k: nat)
    requires k <= |b|
    ensures (a + b)[..|a| + k] == a + b[..k]
  {
  }

  /** A line that is not a data line, or whose frame is malformed, is skipped. */
  lemma SkippedLine(d: Dialect, line: string, rest: seq<string>, extract: string -> Frame,
                    readError: Option<string>)
    requires Payload(line).None? || (extract(Payload(line).value) == Malformed && !IsStop(d, line))
    ensures Decode(d, [line] + rest, extract, readError) == Decode(d, rest, extract, readError)
  {
    assert ([line] + rest)[1..] == rest;
  }

  /** The empty-text rule differs: Anthropic skips an empty delta.text,
      Google passes an empty parts[0].text to the callback. */
  lemma EmptyTextHandling(line: string, rest: seq<string>, extract: string -> Frame,
                          readError: Option<string>)
    requires Payload(line).Some? && extract(Payload(line).value) == Parsed(Some(""))
    ensures Decode(AnthropicStream, [line] + rest, extract, readError)
      == Decode(AnthropicStream, rest, extract, readError)
    ensures Decode(GoogleStream, [line] + rest, extract, readError).deltas
      == [""] + Decode(GoogleStream, rest, extract, readError).deltas
  {
    assert ([line] + rest)[1..] == rest;
  }

  /** The lines the reader hands over: every piece followed by a newline; the
      text after the last newline is dropped at end of file. */
  function CompleteLines(body: string): seq<string> {
    var pieces := Split(body, '\n');
    pieces[..|pieces| - 1]
  }

  /** A final unterminated line never reaches a decoder. */
  lemma CompleteLinesDropTail(lines: seq<string>, tail: string)
    requires forall i :: 0 <= i < |lines| ==> '\n' !in lines[i]
    requires '\n' !in tail
    ensures CompleteLines(Terminated(lines) + tail) == lines
  {
    var all := lines + [tail];
    assert forall i :: 0 <= i < |all| ==> '\n' !in all[i] by {
      forall i | 0 <= i < |all| ensures '\n' !in all[i] {
        if i < |lines| { assert all[i] == lines[i]; }
      }
    }
    TerminatedJoin(lines, tail);
    SplitJoin(all, '\n');
    assert Split(Terminated(lines) + tail, '\n') == all;
    assert all[..|all| - 1] == lines;
  }

  // ---------------------------------------------------------------------
  // Responses and the whole exchange

  /** handleResponse: a status other than 200 is an error carrying the status
      and the whole body, and no text reaches the callback; a 200 response is
      decoded in the provider's dialect. */
  function HandleResponse(p: Provider, status: int, body: string, readError: Option<string>,
                          extract: string -> Frame): (o: Outcome)
    ensures status != 200 ==>
      && o.deltas == []
      && o.err.Some?
      && Contains(o.err.value, IntToString(status))
      && HasSuffix(o.err.value, body)
    ensures status == 200 ==> o == Decode(DialectOf(p.name), CompleteLines(body), extract, readError)
  {
    if status != 200 then
      var pre := "API error (status ";
      var msg := pre + IntToString(status) + "): " + body;
      ContainsInfix(pre, IntToString(status), "): " + body);
      assert pre + IntToString(status) + ("): " + body) == msg;
      Outcome([], Some(msg))
    else
      Decode(DialectOf(p.name), CompleteLines(body), extract, readError)
  }

  datatype Request = Request(url: string, headers: map<string, string>, body: RequestBody)

  /** What the transport returns for a request. */
  datatype Reply =
    | TransportFailure(err: string)
    | Response(status: int, body: string, readError: Option<string>)

  /** One exchange: the request issued (None when none was), the texts passed
      to the callback, and the error returned. */
  datatype Exchange = Exchange(request: Option<Request>, deltas: seq<string>, err: Option<string>)

  /** SendMessage: an empty API key is refused before any body is built or any
      request issued; otherwise exactly one request goes out, to the
      provider's URL with its headers and body. */
  function SendMessage(p: Provider, messages: seq<Message>, transport: Request -> Reply,
                       extract: string -> Frame): (x: Exchange)
    ensures p.apiKey == "" <==> x.request.None?
    ensures p.apiKey == "" ==> x.deltas == [] && x.err.Some? && HasPrefix(x.err.value, "API key not configured")
    ensures x.request.Some? ==>
      x.request.value == Request(p.apiUrl, Headers(p), BuildRequestBody(p, messages))
    ensures x.request.Some? && transport(x.request.value).TransportFailure? ==>
      x.deltas == [] && x.err == Some(transport(x.request.value).err)
  {
    if p.apiKey == "" then
      var msg := "API key not configured for provider: " + p.name;
      assert msg[..|"API key not configured"|] == "API key not configured";
      Exchange(None, [], Some(msg))
    else
      var req := Request(p.apiUrl, Headers(p), BuildRequestBody(p, messages));
      match transport(req)
      case TransportFailure(e) => Exchange(Some(req), [], Some(e))
      case Response(status, body, readError) =>
        var o := HandleResponse(p, status, body, readError, extract);
        Exchange(Some(req), o.deltas, o.err)
  }
}
