/**
 * The provider registry: the three adapters under their keys, how each
 * decides at construction whether it is available, and the `/providers`
 * summary with its count of available entries.
 */
module Registry {
  import opened Wrappers
  import opened Sets

  /**
   * An adapter's two fields. Both are set once, when the adapter is built,
   * and never changed afterwards, so the adapter is a value here.
   */
  datatype LLMProvider = LLMProvider(name: string, available: bool)

  type Providers = map<string, LLMProvider>

  const OpenAIName: string := "OpenAI GPT-3.5 Turbo"
  const OllamaName: string := "Ollama DeepSeek-R1"
  const ClaudeName: string := "Claude 3.5 Sonnet"

  /**
   * A key read from the environment counts when it is set, not empty, not
   * the placeholder of the sample configuration, and the client built from
   * it was created without raising.
   */
  predicate ApiKeyUsable(key: Option<string>, placeholder: string, clientCreated: bool) {
    key.Some? && key.value != "" && key.value != placeholder && clientCreated
  }

  /** `OpenAIProvider()`: available exactly when its key is usable. */
  function OpenAIProvider(key: Option<string>, clientCreated: bool): (p: LLMProvider)
    ensures p.name == OpenAIName
    ensures p.available <==> ApiKeyUsable(key, "your_openai_api_key_here", clientCreated)
  {
    LLMProvider(OpenAIName, ApiKeyUsable(key, "your_openai_api_key_here", clientCreated))
  }

  /** `ClaudeProvider()`: available exactly when its key is usable. */
  function ClaudeProvider(key: Option<string>, clientCreated: bool): (p: LLMProvider)
    ensures p.name == ClaudeName
    ensures p.available <==> ApiKeyUsable(key, "your_anthropic_api_key_here", clientCreated)
  {
    LLMProvider(ClaudeName, ApiKeyUsable(key, "your_anthropic_api_key_here", clientCreated))
  }

  /**
   * `OllamaProvider()`: available exactly when the probe of the local
   * service answered with status 200; `probe` is None when it raised.
   */
  function OllamaProvider(probe: Option<int>): (p: LLMProvider)
    ensures p.name == OllamaName
    ensures p.available <==> probe == Some(200)
  {
    LLMProvider(OllamaName, probe.Some? && probe.value == 200)
  }

  /** The placeholder key from the sample configuration never makes an adapter available. */
  lemma PlaceholderKeyUnavailable(clientCreated: bool)
    ensures !OpenAIProvider(Some("your_openai_api_key_here"), clientCreated).available
    ensures !ClaudeProvider(Some("your_anthropic_api_key_here"), clientCreated).available
  {
  }

  const ProviderKeys: set<string> := {"openai", "ollama", "claude"}

  /** `get_providers()`: the three adapters under their three keys. */
  function GetProviders(openai: LLMProvider, ollama: LLMProvider, claude: LLMProvider): (r: Providers)
    ensures r.Keys == ProviderKeys
  {
    map["openai" := openai, "ollama" := ollama, "claude" := claude]
  }

  /** `available_providers`: the entries whose adapter is available. */
  function AvailableProviders(providers: Providers): (r: Providers)
    ensures r.Keys <= providers.Keys
    ensures forall k :: k in r <==> k in providers && providers[k].available
    ensures forall k :: k in r ==> r[k] == providers[k]
  {
    map k | k in providers && providers[k].available :: providers[k]
  }

  /** One entry of the `/providers` summary. */
  datatype ProviderStatus = ProviderStatus(name: string, available: bool)

  /** The `/providers` summary: each key with its adapter's name and availability, and the available count. */
  datatype ProvidersSummary = ProvidersSummary(providers: map<string, ProviderStatus>, availableCount: nat)

  function Summary(providers: Providers): (r: ProvidersSummary)
    ensures r.providers.Keys == providers.Keys
    ensures forall k :: k in providers ==>
      r.providers[k] == ProviderStatus(providers[k].name, providers[k].available)
    ensures r.availableCount == |AvailableProviders(providers)|
  {
    ProvidersSummary(
      map k | k in providers :: ProviderStatus(providers[k].name, providers[k].available),
      |AvailableProviders(providers)|)
  }

  function Flag(b: bool): nat {
    if b then 1 else 0
  }

  /** The reported count is the number of the three adapters that are available. */
  lemma AvailableCountOfThree(openai: LLMProvider, ollama: LLMProvider, claude: LLMProvider)
    ensures Summary(GetProviders(openai, ollama, claude)).availableCount
      == Flag(openai.available) + Flag(ollama.available) + Flag(claude.available)
  {
    var r := GetProviders(openai, ollama, claude);
    var a := AvailableProviders(r);
    var keys := AvailableKeys(openai.available, ollama.available, claude.available);
    forall k
      ensures k in a.Keys <==> k in keys
    {
      assert k in a.Keys <==> k in r && r[k].available;
    }
    assert a.Keys == keys;
    assert |a| == |a.Keys|;
  }

  /** The keys of the available adapters among the three. */
  function AvailableKeys(openai: bool, ollama: bool, claude: bool): (r: set<string>)
    ensures |r| == Flag(openai) + Flag(ollama) + Flag(claude)
    ensures forall k :: k in r <==> (k == "openai" && openai) || (k == "ollama" && ollama) || (k == "claude" && claude)
  {
    var a: set<string> := if openai then {"openai"} else {};
    var b: set<string> := if ollama then a + {"ollama"} else a;
    if claude then b + {"claude"} else b
  }

  /** The count never exceeds the number of registered keys, and it is that number only when all are available. */
  lemma AvailableCountBounds(providers: Providers)
    ensures Summary(providers).availableCount <= |providers|
    ensures Summary(providers).availableCount == |providers| <==>
      forall k :: k in providers ==> providers[k].available
  {
    var a := AvailableProviders(providers);
    SubsetCardinality(a.Keys, providers.Keys);
    assert |a| == |a.Keys| && |providers| == |providers.Keys|;
    if a.Keys != providers.Keys {
      var k :| k in providers && k !in a;
      assert !providers[k].available;
    } else {
      assert forall k :: k in providers ==> k in a;
    }
  }
}
