/** Choosing the category-suggestion provider from the configuration: none
    when suggestions are switched off or no provider is named, the OpenAI
    provider when it is named and has an API key, an error otherwise. */
module Factory {
  import opened Wrappers

  /** The configuration attributes the choice reads. An attribute that is
      missing, or set to `None`, is `None` here. */
  datatype LlmConfig = LlmConfig(
    llmEnabled: Option<bool>,
    llmProvider: Option<string>,
    llmOpenAiApiKey: Option<string>,
    llmOpenAiModel: Option<string>)

  /** The providers there are; the OpenAI one keeps its key and model. */
  datatype Provider = OpenAiProvider(apiKey: string, model: Option<string>)

  const MissingKeyMessage: string := "OpenAI provider selected but llm_openai_api_key not configured"

  /** Suggestions are on only when `llm_enabled` is present and true. */
  predicate Enabled(config: LlmConfig) {
    config.llmEnabled == Some(true)
  }

  /** An API key counts only when it is present and not empty. */
  predicate HasApiKey(config: LlmConfig) {
    config.llmOpenAiApiKey.Some? && config.llmOpenAiApiKey.value != ""
  }

  /** `get_llm_provider`: `Ok(None)` for no provider, `Ok(Some(p))` for a
      provider, `Err(message)` where the source raises `ValueError`. */
  function GetLlmProvider(config: LlmConfig): (r: Result<Option<Provider>, string>)
    ensures r == Ok(None) <==> !Enabled(config) || config.llmProvider.None?
    ensures r.Ok? && r.value.Some? <==> Enabled(config) && config.llmProvider == Some("openai") && HasApiKey(config)
    ensures r.Ok? && r.value.Some? ==>
      r.value.value.apiKey == config.llmOpenAiApiKey.value && r.value.value.model == config.llmOpenAiModel
    ensures r.Err? && config.llmProvider == Some("openai") ==> r.error == MissingKeyMessage
    ensures r.Err? && config.llmProvider != Some("openai") ==>
      config.llmProvider.Some? && r.error == "Unknown LLM provider: " + config.llmProvider.value
  {
    if !Enabled(config) then Ok(None)
    else match config.llmProvider
      case Some(name) =>
        if name == "openai" then
          if !HasApiKey(config) then Err(MissingKeyMessage)
          else Ok(Some(OpenAiProvider(config.llmOpenAiApiKey.value, config.llmOpenAiModel)))
        else Err("Unknown LLM provider: " + name)
      case None => Ok(None)
  }

  /** Every configuration has exactly one of the three outcomes, and an
      error happens only for an enabled configuration naming a provider:
      an OpenAI one without a key, or a name other than "openai". */
  lemma ErrorCases(config: LlmConfig)
    ensures GetLlmProvider(config).Err? <==>
      Enabled(config) && config.llmProvider.Some?
      && (config.llmProvider.value != "openai" || !HasApiKey(config))
  {
  }

  /** A switched-off configuration gives no provider whatever else it sets. */
  lemma DisabledIgnoresRest(config: LlmConfig, provider: Option<string>, key: Option<string>, model: Option<string>)
    requires !Enabled(config)
    ensures GetLlmProvider(LlmConfig(config.llmEnabled, provider, key, model)) == Ok(None)
  {
  }
}
