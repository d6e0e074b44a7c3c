/** `ApiServiceFactory`: picks the client for a provider name. */
module ApiFactory {
  import OpenAIApi
  import AnthropicApi

  /** The two clients. */
  datatype Provider = OpenAI | Anthropic

  /** The provider name the application stores for a client. */
  function Tag(p: Provider): string {
    match p
    case OpenAI => "openai"
    case Anthropic => "anthropic"
  }

  /** `getService`: `anthropic` selects the Anthropic client; every other name, known or not, OpenAI. */
  function GetService(name: string): (r: Provider)
    ensures r == Anthropic <==> name == "anthropic"
  {
    match name
    case "openai" => OpenAI
    case "anthropic" => Anthropic
    case _ => OpenAI
  }

  /** Each client's own name selects it. */
  lemma GetServiceTagRoundTrip(p: Provider)
    ensures GetService(Tag(p)) == p
  {
  }

  /** A key the Anthropic client accepts also passes the OpenAI client's format check, but not conversely. */
  lemma AnthropicKeysLookLikeOpenAIKeys(key: string)
    ensures AnthropicApi.IsValidApiKeyFormat(key) ==> OpenAIApi.IsValidApiKeyFormat(key)
    ensures OpenAIApi.IsValidApiKeyFormat("sk-x") && !AnthropicApi.IsValidApiKeyFormat("sk-x")
  {
    if AnthropicApi.IsValidApiKeyFormat(key) {
      assert key[..3] == "sk-";
    }
  }
}
