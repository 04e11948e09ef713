/**
 * Choosing the embedding backend (backend/app/rag/embeddings.py): Ollama or
 * OpenAI embeddings depending on `USE_PROVIDER`, each requiring its
 * credential; Anthropic has no embedding backend.
 */
module Embeddings {
  import opened Outcomes
  import opened Text
  import opened Config

  /** The LangChain embeddings object, by its constructor arguments. */
  datatype EmbeddingsClient =
    | OllamaEmbeddings(model: string, baseUrl: string)
    | OpenAIEmbeddings(model: string, apiKey: string)

  /** `OllamaEmbeddingStrategy().as_langchain_embeddings()`. */
  function OllamaStrategy(s: Settings): (r: Result<EmbeddingsClient, ConfigError>)
    ensures r.Ok? <==> Truthy(s.ollamaUrl)
    ensures r.Ok? ==> r.value == OllamaEmbeddings(s.ollamaEmbeddingModel, s.ollamaUrl.value)
    ensures r.Err? ==> r.error == MissingOllamaUrl
  {
    if !Truthy(s.ollamaUrl) then Err(MissingOllamaUrl)
    else Ok(OllamaEmbeddings(s.ollamaEmbeddingModel, s.ollamaUrl.value))
  }

  /** `OpenAIEmbeddingStrategy().as_langchain_embeddings()`. */
  function OpenAIStrategy(s: Settings): (r: Result<EmbeddingsClient, ConfigError>)
    ensures r.Ok? <==> Truthy(s.openaiApiKey)
    ensures r.Ok? ==> r.value == OpenAIEmbeddings(s.openaiEmbeddingModel, s.openaiApiKey.value)
    ensures r.Err? ==> r.error == MissingOpenAIKey
  {
    if !Truthy(s.openaiApiKey) then Err(MissingOpenAIKey)
    else Ok(OpenAIEmbeddings(s.openaiEmbeddingModel, s.openaiApiKey.value))
  }

  /** `get_embedding_strategy()`. */
  function GetEmbeddingStrategy(s: Settings): (r: Result<EmbeddingsClient, ConfigError>)
    ensures r.Ok? <==>
      || (Upper(s.useProvider) == "OLLAMA" && Truthy(s.ollamaUrl))
      || (Upper(s.useProvider) == "OPENAI" && Truthy(s.openaiApiKey))
    ensures r.Ok? && r.value.OllamaEmbeddings? ==> Upper(s.useProvider) == "OLLAMA"
    ensures r.Ok? && r.value.OpenAIEmbeddings? ==> Upper(s.useProvider) == "OPENAI"
  {
    var provider :- SelectProvider(s.useProvider);
    match provider
    case Ollama => OllamaStrategy(s)
    case OpenAI => OpenAIStrategy(s)
    case Anthropic => Err(AnthropicEmbeddingsUnsupported)
  }

  /**
   * The error raised for each failing configuration: an unknown provider is
   * reported by its upper-cased name, Anthropic is always refused whatever
   * keys are set, and Ollama/OpenAI fail only for a missing (None or empty)
   * credential of their own.
   */
  lemma EmbeddingErrors(s: Settings)
    ensures var provider := Upper(s.useProvider);
      var r := GetEmbeddingStrategy(s);
      && (provider !in {"OLLAMA", "OPENAI", "ANTHROPIC"} ==> r == Err(UnsupportedProvider(provider)))
      && (provider == "ANTHROPIC" ==> r == Err(AnthropicEmbeddingsUnsupported))
      && (provider == "OLLAMA" && !Truthy(s.ollamaUrl) ==> r == Err(MissingOllamaUrl))
      && (provider == "OPENAI" && !Truthy(s.openaiApiKey) ==> r == Err(MissingOpenAIKey))
  {
  }

  /** The provider name is matched case-insensitively. */
  lemma EmbeddingIgnoresCase(s: Settings)
    ensures GetEmbeddingStrategy(s.(useProvider := Upper(s.useProvider))) == GetEmbeddingStrategy(s)
  {
    SelectProviderIgnoresCase(s.useProvider);
  }

  /** Each strategy reads only its own provider's settings. */
  lemma EmbeddingReadsOwnCredential(s: Settings, t: Settings)
    requires Upper(s.useProvider) == Upper(t.useProvider)
    requires s.ollamaUrl == t.ollamaUrl && s.ollamaEmbeddingModel == t.ollamaEmbeddingModel
    requires s.openaiApiKey == t.openaiApiKey && s.openaiEmbeddingModel == t.openaiEmbeddingModel
    ensures GetEmbeddingStrategy(s) == GetEmbeddingStrategy(t)
  {
    SelectProviderIgnoresCase(s.useProvider);
    SelectProviderIgnoresCase(t.useProvider);
  }
}
