/** The stored configuration: the profile (provider and model), the API keys
    and the capped chat history, with the transformations the client applies
    between loading the file and writing it back, the fallback decision of
    LoadConfig, and the static provider and model tables. Reading, writing
    and JSON decoding are left to the caller: loading starts from what the
    read and the decoder produced. */
module Config {
  import opened Wrappers
  import opened Chat

  /** The history keeps at most this many messages. */
  const HistoryCap := 100

  datatype Config = Config(provider: string, model: string, temperature: real, maxTokens: int,
                           apiKeys: map<string, string>, history: seq<Message>)

  /** defaultConfig: OpenAI with gpt-4, no keys, no history. */
  const Default := Config("openai", "gpt-4", 0.7, 4096, map[], [])

  /** What the JSON decoder made of the file: absent scalar fields keep Go's
      zero values; an absent or null `api_keys` or `history` is None. */
  datatype Stored = Stored(provider: string, model: string, temperature: real, maxTokens: int,
                           apiKeys: Option<map<string, string>>, history: Option<seq<Message>>)

  /** The outcome of creating the directory, reading the file and decoding it. */
  datatype Source = DirUnavailable | Unreadable | Unparsable | Decoded(stored: Stored)

  /** LoadConfig: every failure gives the defaults; a decoded file is taken as
      it is, with a missing key map or history normalised to empty. */
  function Load(src: Source): (c: Config)
    ensures !src.Decoded? ==> c == Default
    ensures src.Decoded? ==>
      && c.provider == src.stored.provider && c.model == src.stored.model
      && c.temperature == src.stored.temperature && c.maxTokens == src.stored.maxTokens
      && (src.stored.apiKeys.None? ==> c.apiKeys == map[])
      && (src.stored.apiKeys.Some? ==> c.apiKeys == src.stored.apiKeys.value)
      && (src.stored.history.None? ==> c.history == [])
      && (src.stored.history.Some? ==> c.history == src.stored.history.value)
  {
    match src
    case DirUnavailable => Default
    case Unreadable => Default.(apiKeys := map[], history := [])
    case Unparsable => Default
    case Decoded(st) =>
      Config(st.provider, st.model, st.temperature, st.maxTokens,
             st.apiKeys.GetOr(map[]), st.history.GetOr([]))
  }

  /** What SaveConfig writes: every field, the map and the history present. */
  function Store(c: Config): Stored {
    Stored(c.provider, c.model, c.temperature, c.maxTokens, Some(c.apiKeys), Some(c.history))
  }

  /** Writing a configuration and loading it back gives the same
      configuration (JSON encoding and decoding taken as inverse). */
  lemma LoadStoreRoundTrip(c: Config)
    ensures Load(Decoded(Store(c))) == c
  {
  }

  /** GetAPIKey: a provider without a key reads as the empty key. */
  function ApiKey(c: Config, provider: string): string {
    if provider in c.apiKeys then c.apiKeys[provider] else ""
  }

  /** SetAPIKey: sets one provider's key and leaves everything else alone. */
  function SetApiKey(c: Config, provider: string, key: string): (r: Config)
    ensures ApiKey(r, provider) == key
    ensures forall q :: q != provider ==> ApiKey(r, q) == ApiKey(c, q)
    ensures r.apiKeys.Keys == c.apiKeys.Keys + {provider}
    ensures r.(apiKeys := c.apiKeys) == c
  {
    c.(apiKeys := c.apiKeys[provider := key])
  }

  /** SetAPIKey as the client runs it: load, set the key, save. When the save
      succeeds, the next load reads the new key for that provider and the
      earlier key of every other provider. A save that fails, because the
      configuration directory cannot be made, writes nothing and is not
      modelled. */
  lemma SetApiKeyPersists(src: Source, provider: string, key: string)
    ensures var saved := Load(Decoded(Store(SetApiKey(Load(src), provider, key))));
      && ApiKey(saved, provider) == key
      && forall q :: q != provider ==> ApiKey(saved, q) == ApiKey(Load(src), q)
  {
    LoadStoreRoundTrip(SetApiKey(Load(src), provider, key));
  }

  /** AddMessage: appends, then keeps only the newest HistoryCap entries. */
  function AddMessage(c: Config, role: string, content: string): (r: Config)
    ensures |r.history| <= HistoryCap
    ensures |r.history| > 0 && r.history[|r.history| - 1] == Message(role, content)
    ensures |c.history| < HistoryCap ==> r.history == c.history + [Message(role, content)]
    ensures |c.history| == HistoryCap ==> r.history == c.history[1..] + [Message(role, content)]
    ensures r.history == (c.history + [Message(role, content)])[|c.history| + 1 - |r.history|..]
    ensures r.(history := c.history) == c
  {
    var h := c.history + [Message(role, content)];
    c.(history := if |h| > HistoryCap then h[|h| - HistoryCap..] else h)
  }

  /** ClearHistory: the history becomes empty, nothing else changes. */
  function ClearHistory(c: Config): (r: Config)
    ensures r.history == []
    ensures r.provider == c.provider && r.model == c.model && r.apiKeys == c.apiKeys
    ensures r.(history := c.history) == c
  {
    c.(history := [])
  }

  /** GetProviders */
  const Providers: seq<string> := ["openai", "anthropic", "google", "openrouter", "nvidia"]

  /** GetModels: the models offered for a provider; ["gpt-4"] for any other. */
  function Models(provider: string): (models: seq<string>)
    ensures provider !in Providers ==> models == ["gpt-4"]
    ensures |models| >= 1
  {
    match provider
    case "openai" =>
      ["gpt-4-turbo", "gpt-4", "gpt-4o", "gpt-4o-mini", "gpt-3.5-turbo", "o1", "o1-mini", "o1-preview"]
    case "anthropic" =>
      ["claude-3-5-sonnet-20241022", "claude-3-5-sonnet-20240620", "claude-3-opus-20240229",
       "claude-3-haiku-20240307"]
    case "google" =>
      ["gemini-2.0-flash", "gemini-1.5-pro", "gemini-1.5-flash", "gemini-1.0-pro"]
    case "openrouter" =>
      ["openai/gpt-4", "openai/gpt-4o", "anthropic/claude-3.5-sonnet", "google/gemini-pro-1.5",
       "meta-llama/llama-3.1-70b-instruct"]
    case "nvidia" =>
      ["nvidia/llama-3.1-nemotron-70b-instruct", "nvidia/mixtral-8x7b-instruct-v0.1",
       "nvidia/mistral-7b-instruct-v0.2"]
    case _ => ["gpt-4"]
  }

  /** Every listed provider offers models, and the default profile's model is
      among those of its provider. */
  lemma ProviderTables()
    ensures forall p :: p in Providers ==> |Models(p)| > 1
    ensures Default.provider in Providers && Default.model in Models(Default.provider)
  {
  }
}
