/**
 * The settings the core reads (backend/app/core/settings.py) and the
 * configuration errors that provider selection raises as `ValueError`.
 */
module Config {
  import opened Outcomes
  import opened Text

  /** The fields of `Settings` that provider selection consults. */
  datatype Settings = Settings(
    useProvider: string,
    openaiApiKey: Option<string>,
    anthropicApiKey: Option<string>,
    ollamaUrl: Option<string>,
    ollamaLlmModel: string,
    ollamaEmbeddingModel: string,
    openaiEmbeddingModel: string)

  /** The `ValueError`s raised while choosing a provider. */
  datatype ConfigError =
    | UnsupportedProvider(provider: string)
    | MissingOllamaUrl
    | MissingOpenAIKey
    | AnthropicEmbeddingsUnsupported

  /** The three providers the settings type admits. */
  datatype Provider = Ollama | OpenAI | Anthropic

  /** `s.use_provider.upper()` compared with the three names; anything else is unsupported. */
  function SelectProvider(useProvider: string): (r: Result<Provider, ConfigError>)
    ensures r.Err? ==> r.error == UnsupportedProvider(Upper(useProvider))
  {
    var provider := Upper(useProvider);
    if provider == "OLLAMA" then Ok(Ollama)
    else if provider == "OPENAI" then Ok(OpenAI)
    else if provider == "ANTHROPIC" then Ok(Anthropic)
    else Err(UnsupportedProvider(provider))
  }

  /** The canonical (upper-case) name of a provider. */
  function ProviderName(p: Provider): string {
    match p
    case Ollama => "OLLAMA"
    case OpenAI => "OPENAI"
    case Anthropic => "ANTHROPIC"
  }

  /**
   * Selection ignores case: a setting selects provider `p` exactly when it
   * upper-cases to `p`'s name, and so does its upper-cased form.
   */
  lemma SelectProviderIgnoresCase(useProvider: string)
    ensures forall p :: SelectProvider(useProvider) == Ok(p) <==> Upper(useProvider) == ProviderName(p)
    ensures SelectProvider(Upper(useProvider)) == SelectProvider(useProvider)
  {
    UpperIdempotent(useProvider);
  }

  /** Every provider's canonical name, in any case, selects it. */
  lemma SelectProviderByName(p: Provider)
    ensures SelectProvider(ProviderName(p)) == Ok(p)
    ensures SelectProvider(Lower(ProviderName(p))) == Ok(p)
  {
    var name := ProviderName(p);
    assert Upper(name) == name;
    var lower := Lower(name);
    assert Upper(lower) == name;
  }
}
