/** The shared shapes of the application (`types.ts`) and the shapes of the
    answers its two back ends give. */
module Types {
  import opened JsValue

  datatype AIProvider = OpenAI | OpenRouter | Gemini | Ollama

  /** The configuration every generation call reads and only the settings
      screen writes. */
  datatype AIConfig = AIConfig(
    provider: AIProvider,
    apiKey: string,
    selectedModel: string,
    models: seq<string>,
    imageModel: string)

  /** The four sections of a product blueprint. */
  datatype ProductDocs = ProductDocs(prd: string, specs: string, design: string, plans: string)

  datatype Role = User | Assistant

  datatype ChatMessage = ChatMessage(role: Role, content: string, timestamp: int, imageUrl: Option<string>)

  /** `{ systemInstruction?, useSearch?, useThinking? }`, the options of a
      text generation. */
  datatype TextOptions = TextOptions(
    systemInstruction: Option<string>,
    useSearch: Option<bool>,
    useThinking: Option<bool>)

  /** A grounding reference: `chunk.web?.uri`. */
  datatype WebSource = WebSource(uri: Option<string>)
  datatype GroundingChunk = GroundingChunk(web: Option<WebSource>)

  /** The uniform answer of a text generation, whatever the back end. */
  datatype GenerationResult = GenerationResult(text: string, groundingChunks: seq<GroundingChunk>)

  /** JavaScript's `!!x` on an optional flag. */
  predicate IsSet(flag: Option<bool>)
    ensures IsSet(flag) <==> flag.Some? && flag.value
  {
    flag == Some(true)
  }

  /** JavaScript's `!!x` on an optional string. */
  predicate IsNonEmpty(s: Option<string>)
    ensures IsNonEmpty(s) <==> s.Some? && |s.value| > 0
  {
    s.Some? && s.value != ""
  }
}
