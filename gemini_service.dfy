/** The dedicated Gemini client (`services/geminiService.ts`): how each call
    chooses its model and shapes its request configuration, and how it reads
    text, grounding chunks and inline images out of the answer. The client
    library itself is an input: each method receives what the library's
    `generateContent` returned for the request the method builds. */
module GeminiService {
  import opened JsValue
  import opened JsString
  import opened Types

  const ProTextModel := "gemini-3-pro-preview"
  const FlashTextModel := "gemini-3-flash-preview"
  const FlashImageModel := "gemini-2.5-flash-image"
  const ProImageModel := "gemini-3-pro-image-preview"

  /** Thinking budgets for models whose name does and does not contain "pro". */
  const ProBudget: nat := 32768
  const FlashBudget: nat := 24576

  const DefaultAspectRatio := "1:1"
  const DefaultImageSize := "1K"
  const DefaultMimeType := "image/png"
  const PngDataUrlPrefix := "data:image/png;base64,"

  // ------------------------------------------------------------ request shapes

  datatype InlineData = InlineData(data: string, mimeType: string)

  /** A content part; in an answer either field may be absent. */
  datatype Part = Part(text: Option<string>, inlineData: Option<InlineData>)

  datatype Tool = GoogleSearch
  datatype ThinkingConfig = ThinkingConfig(thinkingBudget: nat)
  datatype ImageConfig = ImageConfig(aspectRatio: string, imageSize: Option<string>)

  /** The `config` object of a request; absent fields are never set. */
  datatype GenerateConfig = GenerateConfig(
    systemInstruction: Option<string>,
    tools: Option<seq<Tool>>,
    thinkingConfig: Option<ThinkingConfig>,
    imageConfig: Option<ImageConfig>)

  datatype Contents = PromptText(text: string) | Parts(parts: seq<Part>)

  datatype Request = Request(model: string, contents: Contents, config: Option<GenerateConfig>)

  // ----------------------------------------------------------- answer shapes

  /** A candidate, with `content?.parts` and
      `groundingMetadata?.groundingChunks` flattened into two fields. */
  datatype Candidate = Candidate(parts: Option<seq<Part>>, groundingChunks: Option<seq<GroundingChunk>>)

  /** A `GenerateContentResponse`: its `text` accessor and its candidates
      (`None` and an empty list are read alike by every caller). */
  datatype Response = Response(text: Option<string>, candidates: seq<Candidate>)

  datatype TextRequestOptions = TextRequestOptions(
    model: Option<string>,
    systemInstruction: Option<string>,
    useSearch: Option<bool>,
    useThinking: Option<bool>)

  datatype ImageOptions = ImageOptions(aspectRatio: Option<string>, imageSize: Option<string>, model: Option<string>)

  /** `o || d` on an optional string. */
  function OrDefault(o: Option<string>, d: string): (r: string)
    ensures IsNonEmpty(o) ==> r == o.value
    ensures !IsNonEmpty(o) ==> r == d
  {
    if o.Some? && o.value != "" then o.value else d
  }

  /** `response.candidates?.[0]?.content?.parts`, read as no parts when
      any step is missing. */
  function FirstCandidateParts(response: Response): (parts: seq<Part>)
    ensures |response.candidates| > 0 && response.candidates[0].parts.Some? ==>
              parts == response.candidates[0].parts.value
    ensures !(|response.candidates| > 0 && response.candidates[0].parts.Some?) ==> parts == []
  {
    if |response.candidates| > 0 && response.candidates[0].parts.Some?
    then response.candidates[0].parts.value
    else []
  }

  /** The index of the first part that carries inline data. */
  function FirstInlineIndex(parts: seq<Part>, from: nat): (r: Option<nat>)
    requires from <= |parts|
    ensures r.Some? ==> from <= r.value < |parts| && parts[r.value].inlineData.Some?
    ensures r.Some? ==> forall k :: from <= k < r.value ==> parts[k].inlineData.None?
    ensures r.None? ==> forall k :: from <= k < |parts| ==> parts[k].inlineData.None?
    decreases |parts| - from
  {
    if from == |parts| then None
    else if parts[from].inlineData.Some? then Some(from)
    else FirstInlineIndex(parts, from + 1)
  }

  /** The `data:` URL of the first inline part of the first candidate, or "". */
  method ImageUrlOf(response: Response) returns (imageUrl: string)
    ensures var parts := FirstCandidateParts(response);
            match FirstInlineIndex(parts, 0)
            case Some(k) => imageUrl == PngDataUrlPrefix + parts[k].inlineData.value.data
            case None => imageUrl == ""
  {
    imageUrl := "";
    if |response.candidates| > 0 && response.candidates[0].parts.Some? {
      var parts := response.candidates[0].parts.value;
      var i := 0;
      while i < |parts|
        invariant 0 <= i <= |parts|
        invariant forall k :: 0 <= k < i ==> parts[k].inlineData.None?
        invariant imageUrl == ""
      {
        if parts[i].inlineData.Some? {
          imageUrl := PngDataUrlPrefix + parts[i].inlineData.value.data;
          break;
        }
        i := i + 1;
      }
    }
  }

  /** A later inline part never replaces the first one. */
  lemma LaterPartsIgnored(parts: seq<Part>, more: seq<Part>)
    requires FirstInlineIndex(parts, 0).Some?
    ensures FirstInlineIndex(parts + more, 0) == FirstInlineIndex(parts, 0)
  {
    assert forall j :: 0 <= j < |parts| ==> (parts + more)[j] == parts[j];
  }

  // ------------------------------------------------------------- text generation

  /** `GeminiService.generateText`: the model is the one asked for, or the
      pro model when thinking is asked for and the flash model otherwise; the
      search tool is attached exactly when search is asked for; a thinking
      budget exactly when thinking is, larger for a "pro" model. A failure
      of the client propagates unchanged. */
  method GenerateText(prompt: string, options: TextRequestOptions, answer: Completion<Response>)
    returns (request: Request, result: Completion<GenerationResult>)
    ensures request.model == if IsNonEmpty(options.model) then options.model.value
                             else if IsSet(options.useThinking) then ProTextModel
                             else FlashTextModel
    ensures request.contents == PromptText(prompt)
    ensures request.config.Some?
    ensures var config := request.config.value;
            && config.systemInstruction == options.systemInstruction
            && config.imageConfig.None?
            && (config.tools.Some? <==> IsSet(options.useSearch))
            && (config.tools.Some? ==> config.tools.value == [GoogleSearch])
            && (config.thinkingConfig.Some? <==> IsSet(options.useThinking))
            && (config.thinkingConfig.Some? ==>
                  config.thinkingConfig.value.thinkingBudget ==
                    if Includes(request.model, "pro") then ProBudget else FlashBudget)
    ensures answer.Throw? ==> result == Throw(answer.error)
    ensures answer.Normal? ==> result.Normal?
    ensures answer.Normal? ==>
              var response := answer.value;
              && result.value.text == OrDefault(response.text, "")
              && result.value.groundingChunks ==
                   if |response.candidates| > 0 && response.candidates[0].groundingChunks.Some?
                   then response.candidates[0].groundingChunks.value
                   else []
  {
    var modelName := OrDefault(options.model, if IsSet(options.useThinking) then ProTextModel else FlashTextModel);
    var config := GenerateConfig(options.systemInstruction, None, None, None);
    if IsSet(options.useSearch) {
      config := config.(tools := Some([GoogleSearch]));
    }
    if IsSet(options.useThinking) {
      var budget := if Includes(modelName, "pro") then ProBudget else FlashBudget;
      config := config.(thinkingConfig := Some(ThinkingConfig(budget)));
    }
    request := Request(modelName, PromptText(prompt), Some(config));
    match answer {
      case Throw(e) =>
        result := Throw(e);
      case Normal(response) =>
        var chunks := [];
        if |response.candidates| > 0 && response.candidates[0].groundingChunks.Some? {
          chunks := response.candidates[0].groundingChunks.value;
        }
        result := Normal(GenerationResult(OrDefault(response.text, ""), chunks));
    }
  }

  /** Which of the listed Gemini models count as "pro" for the budget. */
  lemma ListedModelBudgets()
    ensures Includes(ProTextModel, "pro")
    ensures !Includes(FlashTextModel, "pro")
    ensures !Includes("gemini-2.5-flash-lite-latest", "pro")
  {
    assert OccursAt(ProTextModel, "pro", 9);
    IncludesIffOccurs(ProTextModel, "pro");
    NoPro(FlashTextModel);
    NoPro("gemini-2.5-flash-lite-latest");
  }

  /** A name without an 'o' cannot contain "pro". */
  lemma NoPro(s: string)
    requires 'o' !in s
    ensures !Includes(s, "pro")
  {
    IncludesIffOccurs(s, "pro");
    forall k | OccursAt(s, "pro", k) ensures false {
      OccursAtChar(s, "pro", k, 2);
    }
  }

  // ------------------------------------------------------------ images

  /** `GeminiService.generateImage`: the flash image model unless another is
      named, a square aspect ratio unless another is named, and an image size
      (default "1K") only for the pro image model, which alone accepts it. */
  method GenerateImage(prompt: string, options: ImageOptions, answer: Completion<Response>)
    returns (request: Request, result: Completion<string>)
    ensures request.model == OrDefault(options.model, FlashImageModel)
    ensures request.contents == Parts([Part(Some(prompt), None)])
    ensures request.config.Some?
    ensures var config := request.config.value;
            && config == GenerateConfig(None, None, None, config.imageConfig)
            && config.imageConfig.Some?
            && config.imageConfig.value.aspectRatio == OrDefault(options.aspectRatio, DefaultAspectRatio)
            && (config.imageConfig.value.imageSize.Some? <==> request.model == ProImageModel)
            && (config.imageConfig.value.imageSize.Some? ==>
                  config.imageConfig.value.imageSize.value == OrDefault(options.imageSize, DefaultImageSize))
    ensures answer.Throw? ==> result == Throw(answer.error)
    ensures answer.Normal? ==> result.Normal?
    ensures answer.Normal? ==>
              var parts := FirstCandidateParts(answer.value);
              match FirstInlineIndex(parts, 0)
              case Some(k) => result.value == PngDataUrlPrefix + parts[k].inlineData.value.data
              case None => result.value == ""
  {
    var modelName := OrDefault(options.model, FlashImageModel);
    var imageConfig := ImageConfig(OrDefault(options.aspectRatio, DefaultAspectRatio), None);
    if modelName == ProImageModel {
      imageConfig := imageConfig.(imageSize := Some(OrDefault(options.imageSize, DefaultImageSize)));
    }
    request := Request(modelName, Parts([Part(Some(prompt), None)]),
                       Some(GenerateConfig(None, None, None, Some(imageConfig))));
    match answer {
      case Throw(e) =>
        result := Throw(e);
      case Normal(response) =>
        var url := ImageUrlOf(response);
        result := Normal(url);
    }
  }

  // ------------------------------------------------------------ data URIs

  /** The text of `s` before its first `c` (all of `s` if it has none). */
  function Before(s: string, c: char): (r: string)
    ensures |r| <= |s| && r == s[..|r|] && c !in r
    ensures |r| < |s| ==> s[|r|] == c
  {
    if s == [] || s[0] == c then "" else [s[0]] + Before(s[1..], c)
  }

  /** The text of `s` after its first `c`: `s` is the text before, the
      `c`, and this. */
  function After(s: string, c: char): (r: string)
    requires c in s
    ensures s == Before(s, c) + [c] + r
  {
    s[|Before(s, c)| + 1..]
  }

  /** The first piece of a split is the text before the first separator, and
      the other pieces are the split of what follows it. */
  lemma {:induction false} SplitHead(s: string, sep: char)
    ensures Split(s, sep)[0] == Before(s, sep)
    ensures sep in s ==> Split(s, sep)[1..] == Split(After(s, sep), sep)
  {
    if s != [] && s[0] != sep {
      SplitHead(s[1..], sep);
      if sep in s {
        assert sep in s[1..] by {
          var i :| 0 <= i < |s| && s[i] == sep;
          assert s[1..][i - 1] == sep;
        }
        assert After(s, sep) == After(s[1..], sep);
      }
    }
  }

  /** The payload handed to the API for an uploaded image:
      `s.includes(',') ? s.split(',')[1] : s`. A string with a comma loses
      everything up to its first comma (the metadata of a `data:` URI,
      section 3 of RFC 2397) and everything from its second comma on. */
  function StripDataUriPrefix(s: string): (r: string)
    ensures ',' !in s ==> r == s
    ensures ',' in s ==> r == Before(After(s, ','), ',')
    ensures ',' in s ==> ',' !in r && |r| < |s|
  {
    if ',' in s then
      SplitHead(s, ',');
      SplitHead(After(s, ','), ',');
      Split(s, ',')[1]
    else s
  }

  /** Stripping a base64 `data:` URI gives back its payload. */
  lemma DataUriRoundTrip(metadata: string, payload: string)
    requires ',' !in metadata && ',' !in payload
    ensures StripDataUriPrefix("data:" + metadata + "," + payload) == payload
  {
    var s := "data:" + metadata + "," + payload;
    var b := Before(s, ',');
    assert s[|"data:" + metadata|] == ',';
    assert forall i :: 0 <= i < |"data:" + metadata| ==> s[i] != ',';
    assert |b| == |"data:" + metadata|;
    assert After(s, ',') == payload;
    assert Before(payload, ',') == payload;
  }

  /** The image part (its data stripped of any `data:` prefix, its MIME type
      defaulting to PNG), then the text part. */
  function ImageRequestParts(base64Image: string, prompt: string, mimeType: Option<string>): (parts: seq<Part>)
    ensures |parts| == 2
    ensures parts[0].text.None? && parts[0].inlineData.Some?
    ensures parts[0].inlineData.value.data == StripDataUriPrefix(base64Image)
    ensures parts[0].inlineData.value.mimeType == (if mimeType.Some? then mimeType.value else DefaultMimeType)
    ensures parts[1] == Part(Some(prompt), None)
  {
    [Part(None, Some(InlineData(StripDataUriPrefix(base64Image), if mimeType.Some? then mimeType.value else DefaultMimeType))),
     Part(Some(prompt), None)]
  }

  /** `GeminiService.editImage`: the image part, then the instruction, sent to
      the flash image model; the answer is read like `generateImage`'s. */
  method EditImage(base64Image: string, prompt: string, mimeType: Option<string>, answer: Completion<Response>)
    returns (request: Request, result: Completion<string>)
    ensures request.model == FlashImageModel && request.config.None?
    ensures request.contents.Parts? && |request.contents.parts| == 2
    ensures var parts := request.contents.parts;
            && parts[0].inlineData.Some? && parts[0].text.None?
            && parts[0].inlineData.value.data == StripDataUriPrefix(base64Image)
            && parts[0].inlineData.value.mimeType == (if mimeType.Some? then mimeType.value else DefaultMimeType)
            && parts[1] == Part(Some(prompt), None)
    ensures answer.Throw? ==> result == Throw(answer.error)
    ensures answer.Normal? ==> result.Normal?
    ensures answer.Normal? ==>
              var parts := FirstCandidateParts(answer.value);
              match FirstInlineIndex(parts, 0)
              case Some(k) => result.value == PngDataUrlPrefix + parts[k].inlineData.value.data
              case None => result.value == ""
  {
    request := Request(FlashImageModel, Parts(ImageRequestParts(base64Image, prompt, mimeType)), None);
    match answer {
      case Throw(e) =>
        result := Throw(e);
      case Normal(response) =>
        var url := ImageUrlOf(response);
        result := Normal(url);
    }
  }

  /** `GeminiService.analyzeImage`: the same two parts sent to the pro text
      model; the answer's `text`, which may be undefined, is returned as is. */
  method AnalyzeImage(base64Image: string, prompt: string, mimeType: Option<string>, answer: Completion<Response>)
    returns (request: Request, result: Completion<Option<string>>)
    ensures request.model == ProTextModel && request.config.None?
    ensures request.contents == Parts(ImageRequestParts(base64Image, prompt, mimeType))
    ensures answer.Throw? ==> result == Throw(answer.error)
    ensures answer.Normal? ==> result == Normal(answer.value.text)
  {
    request := Request(ProTextModel, Parts(ImageRequestParts(base64Image, prompt, mimeType)), None);
    match answer {
      case Throw(e) => result := Throw(e);
      case Normal(response) => result := Normal(response.text);
    }
  }
}
