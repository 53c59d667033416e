/** The provider adapter (`services/aiService.ts`): one `generateText` and
    one model listing over the Gemini client and three OpenAI-compatible HTTP
    back ends. `fetch` is an input: each method receives the outcome of every
    request it may issue and reports the requests it did issue. */
module AiService {
  import opened JsValue
  import opened JsString
  import opened Types
  import GeminiService

  const OpenAIBaseUrl := "https://api.openai.com/v1"
  const OpenRouterBaseUrl := "https://openrouter.ai/api/v1"
  const OllamaHost := "http://localhost:11434"
  const OllamaBaseUrl := OllamaHost + "/v1"

  /** The models listed for Gemini without any request. */
  const GeminiModels := ["gemini-3-pro-preview", "gemini-3-flash-preview", "gemini-2.5-flash-lite-latest"]

  datatype HttpMethod = GET | POST

  /** One chat message on the wire, `{ role, content }`. */
  datatype WireMessage = WireMessage(role: string, content: string)

  /** The body of a chat completion request (its fixed `temperature` is not
      modelled). */
  datatype ChatBody = ChatBody(model: string, messages: seq<WireMessage>)

  datatype HttpRequest = HttpRequest(verb: HttpMethod, url: string, headers: map<string, string>, body: Option<ChatBody>)

  /** What `response.json()` makes of a body: a JSON value, or a SyntaxError. */
  datatype Body = Parsed(json: Json) | Unparseable

  datatype HttpResponse = HttpResponse(status: nat, body: Body) {
    /** `response.ok`. */
    predicate Ok() { 200 <= status <= 299 }
  }

  /** The call a text generation makes: to the Gemini client or over HTTP. */
  datatype Call = GeminiCall(geminiRequest: GeminiService.Request) | HttpCall(httpRequest: HttpRequest)

  /** `getBaseUrl`: the fixed endpoint of each OpenAI-compatible provider,
      and "" for every other provider. */
  function BaseUrl(provider: AIProvider): (url: string)
    ensures url == "" <==> provider == Gemini
  {
    match provider
    case OpenAI => OpenAIBaseUrl
    case OpenRouter => OpenRouterBaseUrl
    case Ollama => OllamaBaseUrl
    case Gemini => ""
  }

  /** The three HTTP providers have three different endpoints. */
  lemma BaseUrlInjective(p: AIProvider, q: AIProvider)
    requires p != q
    ensures BaseUrl(p) != BaseUrl(q)
  {
    assert OpenAIBaseUrl[8] == 'a' && OpenRouterBaseUrl[8] == 'o';
    assert OpenAIBaseUrl[4] == 's' && OllamaBaseUrl[4] == ':';
    assert OpenRouterBaseUrl[4] == 's';
  }

  // ------------------------------------------------------------ generateText

  /** `errData?.error?.message || \`HTTP Error ${status}\``, thrown as an
      Error: the server's message when it is truthy, the status otherwise. */
  function HttpError(status: nat, errData: Json): (e: Exception)
    ensures var m := GetOpt(GetOpt(Some(errData), "error"), "message");
            && (m.Some? && m.value.JStr? && m.value.s != "" ==> e == ErrorWithMessage(m.value.s))
            && (m.Some? && Truthy(m.value) && !m.value.JStr? ==> e == ErrorWithValue(m.value))
            && (m.None? || !Truthy(m.value) ==> e == ErrorWithMessage("HTTP Error " + Decimal(status)))
  {
    match GetOpt(GetOpt(Some(errData), "error"), "message")
    case Some(JStr(s)) => if s != "" then ErrorWithMessage(s) else ErrorWithMessage("HTTP Error " + Decimal(status))
    case Some(v) => if Truthy(v) then ErrorWithValue(v) else ErrorWithMessage("HTTP Error " + Decimal(status))
    case None => ErrorWithMessage("HTTP Error " + Decimal(status))
  }

  /** Two failed requests whose bodies carry no message are told apart by
      their status. */
  lemma HttpErrorFallbackNamesStatus(s1: nat, s2: nat, errData: Json)
    requires GetOpt(GetOpt(Some(errData), "error"), "message").None?
    requires HttpError(s1, errData) == HttpError(s2, errData)
    ensures s1 == s2
  {
    var p := "HTTP Error ";
    assert (p + Decimal(s1))[|p|..] == Decimal(s1);
    assert (p + Decimal(s2))[|p|..] == Decimal(s2);
    DecimalInjective(s1, s2);
  }

  /** `data[0]` on the value of `data.choices`: a TypeError on `null`, the
      first item of an array, the first character of a string, the `"0"`
      field of an object, and `undefined` for an empty array or string and
      for any other value. */
  function First(v: Json): (r: Completion<Option<Json>>)
    ensures r.Throw? <==> v == JNull
    ensures r.Throw? ==> r.error == TypeError
    ensures v.JArr? && |v.items| > 0 ==> r == Normal(Some(v.items[0]))
    ensures v.JStr? && |v.s| > 0 ==> r == Normal(Some(JStr([v.s[0]])))
    ensures v.JObj? && "0" in v.fields ==> r == Normal(Some(v.fields["0"]))
    ensures r.Normal? && r.value.Some? ==>
              (v.JArr? && |v.items| > 0) || (v.JStr? && |v.s| > 0) || (v.JObj? && "0" in v.fields)
  {
    match v
    case JNull => Throw(TypeError)
    case JArr(items) => Normal(if |items| > 0 then Some(items[0]) else None)
    case JStr(s) => Normal(if |s| > 0 then Some(JStr([s[0]])) else None)
    case JObj(m) => Normal(if "0" in m then Some(m["0"]) else None)
    case _ => Normal(None)
  }

  /** `data.choices[0].message.content` of a successful completion; reading
      through `null` or `undefined` is a TypeError. A string content is
      returned exactly when every step of the path is there, and every other
      answer throws a TypeError. */
  function ChoiceContent(data: Json): (r: Completion<string>)
    ensures r.Throw? ==> r.error == TypeError
    ensures r.Normal? <==>
              && data.JObj? && "choices" in data.fields
              && First(data.fields["choices"]).Normal?
              && First(data.fields["choices"]).value.Some?
              && var choice := First(data.fields["choices"]).value.value;
                 choice.JObj? && "message" in choice.fields
                 && var message := choice.fields["message"];
                    message.JObj? && "content" in message.fields
                    && message.fields["content"].JStr?
    ensures r.Normal? ==>
              var message := First(data.fields["choices"]).value.value.fields["message"];
              message.fields["content"] == JStr(r.value)
  {
    match Get(data, "choices")
    case Throw(e) => Throw(e)
    case Normal(None) => Throw(TypeError)
    case Normal(Some(choices)) =>
      match First(choices)
      case Throw(e) => Throw(e)
      case Normal(None) => Throw(TypeError)
      case Normal(Some(choice)) =>
        match Get(choice, "message")
        case Throw(e) => Throw(e)
        case Normal(None) => Throw(TypeError)
        case Normal(Some(message)) =>
          match Get(message, "content")
          case Throw(e) => Throw(e)
          case Normal(Some(JStr(s))) => Normal(s)
          case Normal(_) => Throw(TypeError)
  }

  /** `AIService.generateText`. For Gemini the call goes to the Gemini client
      with the selected model and the options unchanged. Otherwise a POST to
      `<base>/chat/completions`: JSON content type, a bearer token exactly when
      a key is set, the system message (when there is one) before the user's
      prompt. A non-OK status fails with the server's message or the status;
      a success yields the first choice's content and no grounding. */
  method GenerateText(prompt: string, config: AIConfig, options: TextOptions,
                      geminiAnswer: Completion<GeminiService.Response>, httpAnswer: Completion<HttpResponse>)
    returns (call: Call, result: Completion<GenerationResult>)
    ensures config.provider == Gemini <==> call.GeminiCall?
    ensures call.GeminiCall? ==>
              && call.geminiRequest.model == (if config.selectedModel != "" then config.selectedModel
                                        else if IsSet(options.useThinking) then GeminiService.ProTextModel
                                        else GeminiService.FlashTextModel)
              && call.geminiRequest.contents == GeminiService.PromptText(prompt)
              && call.geminiRequest.config.Some?
              && call.geminiRequest.config.value.systemInstruction == options.systemInstruction
              && (call.geminiRequest.config.value.tools.Some? <==> IsSet(options.useSearch))
              && (call.geminiRequest.config.value.thinkingConfig.Some? <==> IsSet(options.useThinking))
    ensures call.GeminiCall? && geminiAnswer.Throw? ==> result == Throw(geminiAnswer.error)
    ensures call.GeminiCall? && geminiAnswer.Normal? ==>
              var response := geminiAnswer.value;
              && result.Normal?
              && result.value.text == GeminiService.OrDefault(response.text, "")
              && result.value.groundingChunks ==
                   if |response.candidates| > 0 && response.candidates[0].groundingChunks.Some?
                   then response.candidates[0].groundingChunks.value
                   else []
    ensures call.HttpCall? ==>
              var req := call.httpRequest;
              && req.verb == POST
              && req.url == BaseUrl(config.provider) + "/chat/completions"
              && req.headers.Keys <= {"Content-Type", "Authorization"}
              && "Content-Type" in req.headers && req.headers["Content-Type"] == "application/json"
              && ("Authorization" in req.headers <==> config.apiKey != "")
              && ("Authorization" in req.headers ==> req.headers["Authorization"] == "Bearer " + config.apiKey)
              && req.body.Some? && req.body.value.model == config.selectedModel
              && var messages := req.body.value.messages;
                 && |messages| == (if IsNonEmpty(options.systemInstruction) then 2 else 1)
                 && messages[|messages| - 1] == WireMessage("user", prompt)
                 && (|messages| == 2 ==> messages[0] == WireMessage("system", options.systemInstruction.value))
    ensures call.HttpCall? ==>
              match httpAnswer
              case Throw(e) => result == Throw(e)
              case Normal(response) =>
                match response.body
                case Unparseable => result == Throw(SyntaxError)
                case Parsed(json) =>
                  if !response.Ok() then result == Throw(HttpError(response.status, json))
                  else match ChoiceContent(json)
                       case Throw(e) => result == Throw(e)
                       case Normal(text) => result == Normal(GenerationResult(text, []))
  {
    if config.provider == Gemini {
      var request;
      request, result := GeminiService.GenerateText(prompt,
        GeminiService.TextRequestOptions(Some(config.selectedModel), options.systemInstruction, options.useSearch, options.useThinking),
        geminiAnswer);
      call := GeminiCall(request);
      return;
    }

    var baseUrl := BaseUrl(config.provider);
    var headers := map["Content-Type" := "application/json"];
    if config.apiKey != "" {
      headers := headers["Authorization" := "Bearer " + config.apiKey];
    }
    var messages := [WireMessage("user", prompt)];
    if IsNonEmpty(options.systemInstruction) {
      messages := [WireMessage("system", options.systemInstruction.value)] + messages;
    }
    call := HttpCall(HttpRequest(POST, baseUrl + "/chat/completions", headers, Some(ChatBody(config.selectedModel, messages))));

    match httpAnswer {
      case Throw(e) =>
        result := Throw(e);
      case Normal(response) =>
        match response.body {
          case Unparseable =>
            result := Throw(SyntaxError);
          case Parsed(json) =>
            if !response.Ok() {
              result := Throw(HttpError(response.status, json));
            } else {
              match ChoiceContent(json) {
                case Throw(e) => result := Throw(e);
                case Normal(text) => result := Normal(GenerationResult(text, []));
              }
            }
        }
    }
  }

  // ------------------------------------------------------------ model listing

  /** `m.id` (or `m.name`) of a listed entry, as text: a string field gives
      its text, and an entry without one gives "" (see README). */
  function FieldText(entry: Json, key: string): (t: string)
    ensures entry.JObj? && key in entry.fields && entry.fields[key].JStr? ==> t == entry.fields[key].s
    ensures !(entry.JObj? && key in entry.fields && entry.fields[key].JStr?) ==> t == ""
  {
    if entry.JObj? && key in entry.fields && entry.fields[key].JStr? then entry.fields[key].s else ""
  }

  /** `items.map(m => m[key])`: one name per entry, or a TypeError when an
      entry is `null`. */
  function MapField(items: seq<Json>, key: string): (r: Completion<seq<string>>)
    ensures r.Normal? <==> JNull !in items
    ensures r.Throw? ==> r.error == TypeError
    ensures r.Normal? ==> |r.value| == |items|
    ensures r.Normal? ==> forall i :: 0 <= i < |items| ==> r.value[i] == FieldText(items[i], key)
  {
    if items == [] then Normal([])
    else if items[0] == JNull then Throw(TypeError)
    else match MapField(items[1..], key)
      case Throw(e) => Throw(e)
      case Normal(rest) => Normal([FieldText(items[0], key)] + rest)
  }

  /** The shape sniffing of a `/models` answer: the `id`s of a `data` array,
      else the `name`s of a `models` array, else nothing. */
  function ListedIds(data: Json): (r: Completion<seq<string>>)
    ensures data == JNull ==> r == Throw(TypeError)
    ensures data.JObj? && "data" in data.fields && data.fields["data"].JArr? ==>
              r == MapField(data.fields["data"].items, "id")
    ensures data.JObj? && !("data" in data.fields && data.fields["data"].JArr?)
            && "models" in data.fields && data.fields["models"].JArr? ==>
              r == MapField(data.fields["models"].items, "name")
    ensures data != JNull && !(data.JObj? && (("data" in data.fields && data.fields["data"].JArr?)
                                          || ("models" in data.fields && data.fields["models"].JArr?))) ==>
              r == Normal([])
  {
    match data
    case JNull => Throw(TypeError)
    case JObj(m) =>
      if "data" in m && m["data"].JArr? then MapField(m["data"].items, "id")
      else if "models" in m && m["models"].JArr? then MapField(m["models"].items, "name")
      else Normal([])
    case _ => Normal([])
  }

  /** `nativeData.models?.map(m => m.name) || []` of an Ollama `/api/tags`
      answer: the names of a `models` array; nothing when `models` is missing
      or `null`; a TypeError on a `null` answer or on a `models` value that
      is not an array (it has no `map`). */
  function TagNames(data: Json): (r: Completion<seq<string>>)
    ensures data == JNull ==> r == Throw(TypeError)
    ensures data.JObj? && "models" in data.fields && data.fields["models"].JArr? ==>
              r == MapField(data.fields["models"].items, "name")
    ensures data != JNull && !(data.JObj? && "models" in data.fields && data.fields["models"] != JNull) ==>
              r == Normal([])
    ensures data.JObj? && "models" in data.fields && data.fields["models"] != JNull
            && !data.fields["models"].JArr? ==>
              r == Throw(TypeError)
  {
    match data
    case JNull => Throw(TypeError)
    case JObj(m) =>
      if "models" !in m || m["models"] == JNull then Normal([])
      else if m["models"].JArr? then MapField(m["models"].items, "name")
      else Throw(TypeError)
    case _ => Normal([])
  }

  /** The `catch` of the listing: any exception yields the empty list. */
  function OrEmpty(c: Completion<seq<string>>): (r: seq<string>)
    ensures c.Throw? ==> r == []
    ensures c.Normal? ==> r == c.value
  {
    if c.Normal? then c.value else []
  }

  /** The Ollama native endpoint: the base URL with its first "/v1" removed,
      then "/api/tags". */
  function TagsUrl(baseUrl: string): (url: string)
    ensures |url| >= 9 && url[|url| - 9..] == "/api/tags"
    ensures IndexOf(baseUrl, "/v1", 0).None? ==> url == baseUrl + "/api/tags"
    ensures IndexOf(baseUrl, "/v1", 0).Some? ==> |url| == |baseUrl| - 3 + 9
  {
    ReplaceFirst(baseUrl, "/v1", "") + "/api/tags"
  }

  /** A base URL ending in its only "/v1" loses that suffix. */
  lemma TagsUrlOfVersioned(host: string)
    requires 'v' !in host
    ensures TagsUrl(host + "/v1") == host + "/api/tags"
  {
    var none: string := [];
    assert host + "/v1" + none == host + "/v1";
    FirstOccurrenceAfterPrefix(host, "/v1", none);
    var r := ReplaceFirst(host + "/v1", "/v1", "");
    assert r[..|host|] == host;
  }

  /** The native endpoint of the Ollama base URL. */
  lemma OllamaTagsUrl()
    ensures TagsUrl(OllamaBaseUrl) == OllamaHost + "/api/tags"
  {
    assert 'v' !in OllamaHost;
    TagsUrlOfVersioned(OllamaHost);
  }

  /** The headers of a listing request: a bearer token exactly when a key is
      set. */
  function ListingHeaders(apiKey: string): (h: map<string, string>)
    ensures "Authorization" in h <==> apiKey != ""
    ensures "Authorization" in h ==> h["Authorization"] == "Bearer " + apiKey
    ensures h.Keys <= {"Authorization"}
  {
    if apiKey != "" then map["Authorization" := "Bearer " + apiKey] else map[]
  }

  /** `AIService.fetchAvailableModels`: a fixed list for Gemini; otherwise a
      GET of `<base>/models`, and, for Ollama only and only when that answers
      with a non-OK status, a GET of the native tags endpoint. Every failure
      gives the empty list: the listing never throws. */
  method FetchAvailableModels(config: AIConfig, modelsAnswer: Completion<HttpResponse>, tagsAnswer: Completion<HttpResponse>)
    returns (requests: seq<HttpRequest>, models: seq<string>)
    ensures config.provider == Gemini ==> requests == [] && models == GeminiModels
    ensures config.provider != Gemini ==>
              |requests| >= 1
              && requests[0] == HttpRequest(GET, BaseUrl(config.provider) + "/models", ListingHeaders(config.apiKey), None)
    ensures |requests| == 2 <==>
              config.provider == Ollama && modelsAnswer.Normal? && !modelsAnswer.value.Ok()
    ensures |requests| == 2 ==> requests[1] == HttpRequest(GET, TagsUrl(OllamaBaseUrl), map[], None)
    ensures |requests| <= 2
    ensures config.provider != Gemini ==>
              match modelsAnswer
              case Throw(_) => models == []
              case Normal(response) =>
                if response.Ok() then
                  models == (if response.body.Parsed? then OrEmpty(ListedIds(response.body.json)) else [])
                else if config.provider != Ollama then models == []
                else match tagsAnswer
                     case Throw(_) => models == []
                     case Normal(native) =>
                       models == (if native.Ok() && native.body.Parsed? then OrEmpty(TagNames(native.body.json)) else [])
  {
    if config.provider == Gemini {
      return [], GeminiModels;
    }
    var baseUrl := BaseUrl(config.provider);
    var headers := map[];
    if config.apiKey != "" {
      headers := headers["Authorization" := "Bearer " + config.apiKey];
    }
    var isOllama := config.provider == Ollama;
    requests := [HttpRequest(GET, baseUrl + "/models", headers, None)];
    models := [];
    if modelsAnswer.Throw? {
      return;
    }
    var response := modelsAnswer.value;
    if !response.Ok() {
      if isOllama {
        var nativeUrl := ReplaceFirst(baseUrl, "/v1", "") + "/api/tags";
        requests := requests + [HttpRequest(GET, nativeUrl, map[], None)];
        if tagsAnswer.Normal? && tagsAnswer.value.Ok() && tagsAnswer.value.body.Parsed? {
          models := OrEmpty(TagNames(tagsAnswer.value.body.json));
        }
      }
      return;
    }
    if response.body.Parsed? {
      models := OrEmpty(ListedIds(response.body.json));
    }
  }

  /** An OpenAI-style listing yields exactly its entries' ids, in order. */
  lemma ListsDataIds(items: seq<Json>)
    requires JNull !in items
    ensures var ids := OrEmpty(ListedIds(JObj(map["data" := JArr(items)])));
            |ids| == |items| && forall i :: 0 <= i < |items| ==> ids[i] == FieldText(items[i], "id")
  {
    var m := map["data" := JArr(items)];
    assert "data" in m && m["data"].JArr?;
  }
}
