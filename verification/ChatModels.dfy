/** Which provider settings make a chat model (src/agent/llm.py). The constructors are foreign and taken to be total. */
module ChatModels {
  import opened Wrappers

  const DEFAULT_LOCAL_MODEL := "local-model"
  const NO_API_KEY := "no-key"

  datatype ChatModel =
    | OpenAI(model: string, apiKey: Option<string>, baseUrl: Option<string>)
    | OpenRouter(model: string, apiKey: Option<string>)
    | Anthropic(model: string, apiKey: Option<string>)
    | Gemini(model: string, apiKey: Option<string>)

  predicate Supported(provider: string)
  {
    provider in {"openai", "anthropic", "google", "openrouter", "openai_compatible"}
  }

  function BuildChatModel(provider: string, model: string, apiKey: Option<string>, baseUrl: Option<string>):
    (r: Result<ChatModel, string>)
    ensures r.Success? <==> Supported(provider) && (provider == "openai_compatible" ==> Truthy(baseUrl))
    // Each provider gets its own client, with the model and key it was given.
    ensures r.Success? ==>
      match r.value
      case OpenAI(_, _, url) => provider == if url.None? then "openai" else "openai_compatible"
      case OpenRouter(_, _) => provider == "openrouter"
      case Anthropic(_, _) => provider == "anthropic"
      case Gemini(_, _) => provider == "google"
    ensures r.Success? && provider != "openai_compatible" ==> r.value.model == model && r.value.apiKey == apiKey
    ensures r.Success? && provider == "openai_compatible" ==>
      && (model != "" ==> r.value.model == model)
      && (Truthy(apiKey) ==> r.value.apiKey == apiKey)
    // A keyless self-hosted server still gets a usable token and model name.
    ensures r.Success? && provider == "openai_compatible" ==>
      r.value.OpenAI? && Truthy(r.value.apiKey) && r.value.model != "" && r.value.baseUrl == baseUrl
  {
    if provider == "openai" then Success(OpenAI(model, apiKey, None))
    else if provider == "openrouter" then Success(OpenRouter(model, apiKey))
    else if provider == "anthropic" then Success(Anthropic(model, apiKey))
    else if provider == "google" then Success(Gemini(model, apiKey))
    else if provider == "openai_compatible" then
      if !Truthy(baseUrl) then Failure("openai_compatible requires a base_url")
      else Success(OpenAI(if model != "" then model else DEFAULT_LOCAL_MODEL, Or(apiKey, Some(NO_API_KEY)), baseUrl))
    else Failure("Unsupported provider")
  }
}
