/** The records of the slide pipeline (`src/slides/types.ts` and `CropRect` of the extractor). */
module SlideTypes {
  import opened Wrappers

  /** One extracted slide; `index` is 1-based, OCR fields are absent until the OCR stage. */
  datatype SlideImage = SlideImage(
    index: int,
    timestamp: real,
    imagePath: string,
    ocrText: Option<string>,
    ocrConfidence: Option<real>)

  /** A region of interest in fractions of the frame size. */
  datatype Roi = Roi(x: real, y: real, width: real, height: real)

  /** A crop rectangle in pixels. */
  datatype CropRect = CropRect(x: int, y: int, width: int, height: int)

  /** `'adaptive' | 'llm-roi' | 'none'`, the strategies the extractor writes. */
  datatype Strategy = AdaptiveStrategy | LlmRoiStrategy | NoStrategy

  /** The auto-tune record persisted with the result. */
  datatype AutoTune = AutoTune(
    enabled: bool,
    chosenThreshold: real,
    confidence: real,
    strategy: Strategy,
    roi: Option<Roi>)

  datatype SourceKind = YouTube | Direct

  datatype SlideSource = SlideSource(url: string, kind: SourceKind, sourceId: string)

  /** The environment variable an LLM attempt needs, a closed set. */
  datatype RequiredEnv = XaiApiKey | OpenaiApiKey | GeminiApiKey | AnthropicApiKey | OpenrouterApiKey | ZaiApiKey

  /** The parts of one model attempt that the ROI refiner reads. */
  datatype LlmAttempt = LlmAttempt(userModelId: string, requiredEnv: RequiredEnv, openaiApiKeyOverride: Option<string>)

  datatype ApiKeys = ApiKeys(
    xaiApiKey: Option<string>,
    openaiApiKey: Option<string>,
    googleApiKey: Option<string>,
    anthropicApiKey: Option<string>,
    openrouterApiKey: Option<string>,
    zaiApiKey: Option<string>)

  datatype KeyFlags = KeyFlags(googleConfigured: bool, anthropicConfigured: bool, openrouterConfigured: bool)

  /** The parts of `SlideLlmConfig` the refiner reads; transport and HTTP settings are outside the model. */
  datatype LlmConfig = LlmConfig(attempts: seq<LlmAttempt>, apiKeys: ApiKeys, keyFlags: KeyFlags, verbose: bool)
}
