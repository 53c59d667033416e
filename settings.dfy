/** The settings screen (`components/Settings.tsx`): every change it makes to
    the configuration builds a new record from the old one. */
module Settings {
  import opened JsValue
  import opened Types

  const NoModelsError := "No models found or connection failed."

  /** The configuration and the error line after "Fetch Models". */
  datatype FetchOutcome = FetchOutcome(config: AIConfig, error: Option<string>)

  /** The model to keep selected once `models` is the list on offer. */
  function ChosenModel(current: string, models: seq<string>): (m: string)
    requires |models| > 0
    ensures m in models
    ensures current in models ==> m == current
    ensures current !in models ==> m == models[0]
  {
    if current in models then current else models[0]
  }

  /** `handleFetchModels` once the listing has answered `models`: a
      non-empty list replaces the offered models and keeps the selection if
      it is still on offer, else selects the first one, and clears the error;
      an empty list leaves the configuration as it was and reports it. */
  function AfterFetch(config: AIConfig, models: seq<string>): (r: FetchOutcome)
    ensures |models| > 0 ==>
              && r.config.models == models
              && r.config.selectedModel in models
              && (config.selectedModel in models ==> r.config.selectedModel == config.selectedModel)
              && (config.selectedModel !in models ==> r.config.selectedModel == models[0])
              && r.config.provider == config.provider
              && r.config.apiKey == config.apiKey
              && r.config.imageModel == config.imageModel
              && r.error == None
    ensures |models| == 0 ==> r == FetchOutcome(config, Some(NoModelsError))
  {
    if |models| > 0 then
      FetchOutcome(config.(models := models, selectedModel := ChosenModel(config.selectedModel, models)), None)
    else
      FetchOutcome(config, Some(NoModelsError))
  }

  /** The selected model is one of the models on offer. */
  predicate Consistent(config: AIConfig) {
    config.selectedModel in config.models
  }

  /** A successful fetch leaves a consistent configuration, whatever the
      configuration was before. */
  lemma FetchMakesConsistent(config: AIConfig, models: seq<string>)
    requires |models| > 0
    ensures Consistent(AfterFetch(config, models).config)
  {
  }

  /** Fetching the same list twice is fetching it once: the second fetch
      keeps the model the first one chose. */
  lemma FetchIdempotent(config: AIConfig, models: seq<string>)
    ensures AfterFetch(AfterFetch(config, models).config, models) == AfterFetch(config, models)
  {
    if |models| > 0 {
      var once := AfterFetch(config, models).config;
      assert ChosenModel(once.selectedModel, models) == once.selectedModel;
    }
  }

  /** A fetch that offers the selected model changes nothing but the list. */
  lemma FetchKeepsOfferedSelection(config: AIConfig, models: seq<string>)
    requires config.selectedModel in models
    ensures AfterFetch(config, models).config == config.(models := models)
  {
  }

  /** A provider button: only `provider` changes; the models fetched for the
      previous provider and the selection stay. */
  function SelectProvider(config: AIConfig, p: AIProvider): (r: AIConfig)
    ensures r.provider == p
    ensures r.(provider := config.provider) == config
  {
    config.(provider := p)
  }

  /** The key field: only `apiKey` changes. */
  function SetApiKey(config: AIConfig, key: string): (r: AIConfig)
    ensures r.apiKey == key
    ensures r.(apiKey := config.apiKey) == config
  {
    config.(apiKey := key)
  }

  /** The model drop-down: only `selectedModel` changes. */
  function SelectModel(config: AIConfig, m: string): (r: AIConfig)
    ensures r.selectedModel == m
    ensures r.(selectedModel := config.selectedModel) == config
  {
    config.(selectedModel := m)
  }

  /** The two image-model buttons. */
  datatype ImageChoice = FlashImage | ProImage

  function ImageModelId(choice: ImageChoice): (id: string)
    ensures id == "gemini-2.5-flash-image" || id == "gemini-3-pro-image-preview"
    ensures id == "gemini-2.5-flash-image" <==> choice == FlashImage
  {
    match choice
    case FlashImage => "gemini-2.5-flash-image"
    case ProImage => "gemini-3-pro-image-preview"
  }

  /** An image-model button: only `imageModel` changes. */
  function SetImageModel(config: AIConfig, choice: ImageChoice): (r: AIConfig)
    ensures r.imageModel == ImageModelId(choice)
    ensures r.(imageModel := config.imageModel) == config
  {
    config.(imageModel := ImageModelId(choice))
  }

  /** The edits other than a fetch keep a consistent configuration
      consistent, the drop-down because it offers only `config.models`. */
  lemma EditsKeepConsistent(config: AIConfig, p: AIProvider, key: string, m: string, choice: ImageChoice)
    requires Consistent(config)
    ensures Consistent(SelectProvider(config, p))
    ensures Consistent(SetApiKey(config, key))
    ensures Consistent(SetImageModel(config, choice))
    ensures m in config.models ==> Consistent(SelectModel(config, m))
  {
  }
}
