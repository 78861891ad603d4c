/**
 * The decisions `chat_completion` and `list_providers` take before and
 * around the provider SDK calls: which provider serves a request, whether its
 * credentials are present, how the messages are translated for it, which
 * model name and message list the SDK receives, and what the reply holds.
 * The SDK calls themselves are an input (`sdk`), as is the list of models the
 * local Ollama server reports.
 */
module Chat {
  import opened Wrappers
  import opened Json
  import opened Http
  import opened Settings

  datatype ChatMessage = ChatMessage(role: string, content: string)

  /** The pydantic model `ChatRequest`; `temperature` is a float passed through untouched and is left out. */
  datatype ChatRequest = ChatRequest(
    messages: seq<ChatMessage>,
    provider: Option<string> := None,
    model: Option<string> := None,
    maxTokens: Option<int> := Some(1000))

  /** Python's `x or default` on an optional string. */
  function OrDefault(value: Option<string>, default: string): (r: string)
    ensures value.Some? && value.value != "" ==> r == value.value
    ensures value.None? || value.value == "" ==> r == default
  {
    if value.Some? && value.value != "" then value.value else default
  }

  // ---------------------------------------------------------------------------
  // Provider selection
  // ---------------------------------------------------------------------------

  /** The providers that need an API key from the user's settings. */
  const KeyProviders: seq<string> := ["openai", "anthropic", "google"]

  /** The settings object of a provider; providers without one read as `{}`. */
  function Entry(settings: ProviderSettings, provider: string): Fields {
    if provider == "openai" then settings.openai
    else if provider == "anthropic" then settings.anthropic
    else if provider == "google" then settings.google
    else []
  }

  /** `settings.<provider>.get("enabled")` is truthy. */
  predicate EnabledIn(settings: ProviderSettings, provider: string) {
    Truthy(GetOr(Entry(settings, provider), "enabled", JNull))
  }

  const NoProviderEnabled: Reply :=
    Rejected(400, "No AI provider enabled. Please configure your API keys in settings.")

  /** An explicit, non-empty `provider` is used as given; otherwise one is chosen automatically. */
  function SelectProvider(requested: Option<string>, settings: ProviderSettings, ollamaModels: seq<string>)
    : (r: Result<string, Reply>)
    ensures requested.Some? && requested.value != "" ==> r == Ok(requested.value)
    ensures r.Err? ==> r.error == NoProviderEnabled
    ensures r.Ok? && (requested.None? || requested.value == "") ==>
      r.value in KeyProviders + ["ollama"]
  {
    if requested.Some? && requested.value != "" then Ok(requested.value)
    else if EnabledIn(settings, "openai") then Ok("openai")
    else if EnabledIn(settings, "anthropic") then Ok("anthropic")
    else if EnabledIn(settings, "google") then Ok("google")
    else if |ollamaModels| > 0 then Ok("ollama")
    else Err(NoProviderEnabled)
  }

  /** The candidates of automatic selection in priority order, each with whether it is available. */
  function Candidates(settings: ProviderSettings, ollamaModels: seq<string>): seq<(string, bool)> {
    [("openai", EnabledIn(settings, "openai")),
     ("anthropic", EnabledIn(settings, "anthropic")),
     ("google", EnabledIn(settings, "google")),
     ("ollama", |ollamaModels| > 0)]
  }

  /** The first available candidate. */
  function FirstAvailable(candidates: seq<(string, bool)>): (r: Option<string>)
    ensures r.None? <==> forall i :: 0 <= i < |candidates| ==> !candidates[i].1
    ensures r.Some? ==> exists i :: (0 <= i < |candidates| && candidates[i] == (r.value, true) &&
      forall j :: 0 <= j < i ==> !candidates[j].1)
  {
    if candidates == [] then None
    else if candidates[0].1 then Some(candidates[0].0)
    else
      var rest := FirstAvailable(candidates[1..]);
      if rest.Some? then
        var i :| 0 <= i < |candidates[1..]| && candidates[1..][i] == (rest.value, true) &&
          forall j :: 0 <= j < i ==> !candidates[1..][j].1;
        assert candidates[i + 1] == (rest.value, true);
        rest
      else
        rest
  }

  /** Automatic selection picks the first available candidate of openai, anthropic, google, ollama. */
  lemma {:induction false} AutoSelectionPriority(settings: ProviderSettings, ollamaModels: seq<string>)
    ensures SelectProvider(None, settings, ollamaModels) ==
      match FirstAvailable(Candidates(settings, ollamaModels))
      case Some(p) => Ok(p)
      case None => Err(NoProviderEnabled)
  {
    var c := Candidates(settings, ollamaModels);
    var c1, c2, c3 := c[1..], c[2..], c[3..];
    assert c1[1..] == c2 && c2[1..] == c3 && c3[1..] == [];
    assert FirstAvailable(c3) == if c[3].1 then Some("ollama") else None;
    assert FirstAvailable(c2) == if c[2].1 then Some("google") else FirstAvailable(c3);
    assert FirstAvailable(c1) == if c[1].1 then Some("anthropic") else FirstAvailable(c2);
    assert FirstAvailable(c) == if c[0].1 then Some("openai") else FirstAvailable(c1);
  }

  // ---------------------------------------------------------------------------
  // Credentials
  // ---------------------------------------------------------------------------

  /** The key handed to the client: `get("apiKey", "")` for a key provider, `None` for ollama, "" otherwise. */
  function ApiKey(provider: string, settings: ProviderSettings): Json {
    if provider in KeyProviders then GetOr(Entry(settings, provider), "apiKey", JStr(""))
    else if provider == "ollama" then JNull
    else JStr("")
  }

  /** A key provider with a falsy key is refused with 400 before any client is built. */
  function CheckCredentials(provider: string, settings: ProviderSettings): (r: Result<Json, Reply>)
    ensures r.Err? <==>
      provider in KeyProviders &&
      (Get(Entry(settings, provider), "apiKey").None? || !Truthy(Get(Entry(settings, provider), "apiKey").value))
    ensures r.Err? ==>
      r.error == Rejected(400, "API key not configured for " + provider + ". Please update your settings.")
    ensures r.Ok? && provider in KeyProviders ==>
      Get(Entry(settings, provider), "apiKey") == Some(r.value) && Truthy(r.value)
  {
    var key := ApiKey(provider, settings);
    if !Truthy(key) && provider in KeyProviders then
      Err(Rejected(400, "API key not configured for " + provider + ". Please update your settings."))
    else
      Ok(key)
  }

  /** With the default settings no key provider passes the credential check. */
  lemma DefaultsHaveNoCredentials(provider: string)
    requires provider in KeyProviders
    ensures CheckCredentials(provider, Defaults).Err?
  {
    DefaultsDisabled();
  }

  // ---------------------------------------------------------------------------
  // Message translation
  // ---------------------------------------------------------------------------

  /** `{"role": role, "content": content}` */
  function RoleContent(m: ChatMessage): Json {
    JObj([("role", JStr(m.role)), ("content", JStr(m.content))])
  }

  /** `{"role": role, "parts": [{"text": content}]}` */
  function RoleParts(m: ChatMessage): Json {
    JObj([("role", JStr(m.role)), ("parts", JArr([JObj([("text", JStr(m.content))])]))])
  }

  /** The translation one message gets for `provider`; none for a provider without one. */
  function TranslateOne(provider: string, m: ChatMessage): Option<Json> {
    if provider == "openai" || provider == "anthropic" then Some(RoleContent(m))
    else if provider == "google" then Some(RoleParts(m))
    else None
  }

  /** `formatted_messages` after the translation loop. */
  function Translated(provider: string, messages: seq<ChatMessage>): (r: seq<Json>)
    ensures provider in KeyProviders ==> |r| == |messages|
    ensures provider !in KeyProviders ==> r == []
  {
    if messages == [] then []
    else
      var init := Translated(provider, messages[..|messages| - 1]);
      match TranslateOne(provider, messages[|messages| - 1])
      case Some(j) => init + [j]
      case None => init
  }

  /** The translation loop of `chat_completion`. */
  method TranslateMessages(provider: string, messages: seq<ChatMessage>) returns (formatted: seq<Json>)
    ensures formatted == Translated(provider, messages)
  {
    formatted := [];
    for i := 0 to |messages|
      invariant formatted == Translated(provider, messages[..i])
    {
      assert messages[..i + 1][..i] == messages[..i];
      if provider == "openai" {
        formatted := formatted + [RoleContent(messages[i])];
      } else if provider == "anthropic" {
        formatted := formatted + [RoleContent(messages[i])];
      } else if provider == "google" {
        formatted := formatted + [RoleParts(messages[i])];
      }
    }
    assert messages[..|messages|] == messages;
  }

  /** Reads a translated message back: role and content, or role and the text of the first part. */
  function ReadBack(j: Json): Option<ChatMessage> {
    if !j.JObj? then None
    else
      match (Get(j.fields, "role"), Get(j.fields, "content"), Get(j.fields, "parts"))
      case (Some(JStr(role)), Some(JStr(content)), _) => Some(ChatMessage(role, content))
      case (Some(JStr(role)), None, Some(JArr(parts))) =>
        if parts != [] && parts[0].JObj? then
          match Get(parts[0].fields, "text")
          case Some(JStr(text)) => Some(ChatMessage(role, text))
          case _ => None
        else None
      case _ => None
  }

  lemma ReadBackRoleContent(m: ChatMessage)
    ensures ReadBack(RoleContent(m)) == Some(m)
  {
    var fields := RoleContent(m).fields;
    GetUnique(fields, 0, "role");
    GetUnique(fields, 1, "content");
  }

  lemma ReadBackRoleParts(m: ChatMessage)
    ensures ReadBack(RoleParts(m)) == Some(m)
  {
    var fields := RoleParts(m).fields;
    GetUnique(fields, 0, "role");
    GetUnique(fields, 1, "parts");
    GetLastBinding(fields, "content");
  }

  lemma ReadBackOne(provider: string, m: ChatMessage)
    requires provider in KeyProviders
    ensures ReadBack(TranslateOne(provider, m).value) == Some(m)
  {
    ReadBackRoleContent(m);
    ReadBackRoleParts(m);
  }

  lemma {:induction false} TranslatedAt(provider: string, messages: seq<ChatMessage>)
    requires provider in KeyProviders
    ensures |Translated(provider, messages)| == |messages|
    ensures forall i :: 0 <= i < |messages| ==>
      Translated(provider, messages)[i] == TranslateOne(provider, messages[i]).value
  {
    if messages != [] {
      var init := messages[..|messages| - 1];
      TranslatedAt(provider, init);
      var r := Translated(provider, messages);
      assert r == Translated(provider, init) + [TranslateOne(provider, messages[|messages| - 1]).value];
      forall i | 0 <= i < |init| ensures messages[i] == init[i] {
      }
    }
  }

  /** Translation keeps every message, in order, with its role and its text. */
  lemma {:induction false} TranslationRoundTrip(provider: string, messages: seq<ChatMessage>)
    requires provider in KeyProviders
    ensures |Translated(provider, messages)| == |messages|
    ensures forall i :: 0 <= i < |messages| ==> ReadBack(Translated(provider, messages)[i]) == Some(messages[i])
  {
    TranslatedAt(provider, messages);
    forall i | 0 <= i < |messages| ensures ReadBack(Translated(provider, messages)[i]) == Some(messages[i]) {
      ReadBackOne(provider, messages[i]);
    }
  }

  // ---------------------------------------------------------------------------
  // The SDK call
  // ---------------------------------------------------------------------------

  /** The providers `get_provider_client` knows. */
  const ClientProviders: seq<string> := ["openai", "anthropic", "google", "ollama", "github"]

  /** What is handed to the SDK: the model name and the messages (or, for Gemini, one prompt). */
  datatype ProviderCall =
    | OpenAICall(model: string, messages: seq<Json>, maxTokens: Option<int>)
    | AnthropicCall(model: string, messages: seq<Json>, maxTokens: Option<int>)
    | GeminiCall(model: string, prompt: string)
    | OllamaCall(model: string, messages: seq<Json>, numPredict: Option<int>)

  /** The `messages_for_ollama` loop: role and content of each message. */
  function OllamaMessages(messages: seq<ChatMessage>): (r: seq<Json>)
    ensures |r| == |messages|
    ensures forall i :: 0 <= i < |messages| ==> r[i] == RoleContent(messages[i])
  {
    if messages == [] then [] else OllamaMessages(messages[..|messages| - 1]) + [RoleContent(messages[|messages| - 1])]
  }

  /**
   * The call the `try` block makes for `provider`, or the 500 it ends in: an
   * unknown provider makes `get_provider_client` raise; "github" gets a client
   * but no call, and the `HTTPException(400)` raised for it is caught and
   * re-raised as a 500; Gemini indexes the first translated message, which
   * fails on an empty conversation.
   */
  function PlanCall(provider: string, request: ChatRequest): (r: Result<ProviderCall, Reply>)
    ensures provider !in ClientProviders ==>
      r == Err(Rejected(500, "AI service error: Unsupported provider: " + provider))
    ensures provider == "github" ==> r == Err(Rejected(500, "AI service error: 400: Unsupported provider: github"))
    ensures r.Err? ==> r.error.Rejected? && r.error.status == 500
    ensures r.Ok? ==> provider in KeyProviders + ["ollama"]
    ensures provider == "google" ==> (r.Err? <==> request.messages == [])
    // the message lists handed over: the translation for OpenAI and Anthropic, role and content for Ollama
    ensures provider == "openai" ==>
      r.Ok? && r.value.OpenAICall? && r.value.messages == Translated(provider, request.messages) &&
      r.value.maxTokens == request.maxTokens
    ensures provider == "anthropic" ==>
      r.Ok? && r.value.AnthropicCall? && r.value.messages == Translated(provider, request.messages) &&
      r.value.maxTokens == request.maxTokens
    ensures provider == "ollama" ==>
      r.Ok? && r.value.OllamaCall? && r.value.messages == OllamaMessages(request.messages) &&
      r.value.numPredict == request.maxTokens
    ensures provider == "google" && r.Ok? ==> r.value.GeminiCall?
    // a model the request names is used as given
    ensures r.Ok? && request.model.Some? && request.model.value != "" ==> r.value.model == request.model.value
  {
    var ms := request.messages;
    if provider !in ClientProviders then
      Err(Rejected(500, "AI service error: Unsupported provider: " + provider))
    else if provider == "openai" then
      Ok(OpenAICall(OrDefault(request.model, "gpt-3.5-turbo"), Translated(provider, ms), request.maxTokens))
    else if provider == "anthropic" then
      Ok(AnthropicCall(OrDefault(request.model, "claude-3-sonnet-20240229"), Translated(provider, ms), request.maxTokens))
    else if provider == "google" then
      if ms == [] then Err(Rejected(500, "AI service error: list index out of range"))
      else Ok(GeminiCall(OrDefault(request.model, "gemini-pro"), ms[0].content))
    else if provider == "ollama" then
      Ok(OllamaCall(OrDefault(request.model, "llama2"), OllamaMessages(ms), request.maxTokens))
    else
      Err(Rejected(500, "AI service error: 400: Unsupported provider: github"))
  }

  /**
   * Gemini is sent `formatted_messages[0]["parts"][0]["text"]`: the text of
   * the first message of the conversation, not of the latest one.
   */
  lemma {:induction false} GeminiGetsFirstMessage(request: ChatRequest)
    requires request.messages != []
    ensures PlanCall("google", request).Ok?
    ensures var first := Translated("google", request.messages)[0];
      first.JObj? && Get(first.fields, "parts") == Some(JArr([JObj([("text", JStr(PlanCall("google", request).value.prompt))])]))
    ensures PlanCall("google", request).value.prompt == request.messages[0].content
  {
    FirstTranslation(request.messages);
    var first := Translated("google", request.messages)[0];
    GetUnique(first.fields, 1, "parts");
  }

  lemma {:induction false} FirstTranslation(messages: seq<ChatMessage>)
    requires messages != []
    ensures Translated("google", messages)[0] == RoleParts(messages[0])
  {
    if |messages| > 1 {
      FirstTranslation(messages[..|messages| - 1]);
    } else {
      assert messages[..0] == [];
    }
  }

  /**
   * OpenAI, Anthropic and Ollama are handed the whole conversation: one entry
   * per message, in order, each reading back as that message's role and content.
   */
  lemma CallCarriesConversation(provider: string, request: ChatRequest)
    requires provider in ["openai", "anthropic", "ollama"]
    ensures PlanCall(provider, request).Ok? && !PlanCall(provider, request).value.GeminiCall?
    ensures var call := PlanCall(provider, request).value;
      |call.messages| == |request.messages| &&
      forall i :: 0 <= i < |request.messages| ==> ReadBack(call.messages[i]) == Some(request.messages[i])
  {
    if provider == "ollama" {
      forall i | 0 <= i < |request.messages|
        ensures ReadBack(OllamaMessages(request.messages)[i]) == Some(request.messages[i])
      {
        ReadBackRoleContent(request.messages[i]);
      }
    } else {
      TranslationRoundTrip(provider, request.messages);
    }
  }

  /** The model name each provider is called with when the request names none. */
  lemma DefaultModels(request: ChatRequest)
    requires request.model.None? || request.model == Some("")
    ensures PlanCall("openai", request).value.model == "gpt-3.5-turbo"
    ensures PlanCall("anthropic", request).value.model == "claude-3-sonnet-20240229"
    ensures PlanCall("ollama", request).value.model == "llama2"
    ensures request.messages != [] ==> PlanCall("google", request).value.model == "gemini-pro"
  {
  }

  // ---------------------------------------------------------------------------
  // The whole handler
  // ---------------------------------------------------------------------------

  /** What the provider SDK yields: the reply text, or an exception and its message. */
  datatype SdkOutcome = Completed(content: Json) | SdkFailed(message: string)

  /**
   * `chat_completion` once the caller is authenticated and the settings were
   * looked up (`None`: the lookup raised, which FastAPI turns into a 500).
   * The reply names the requested model, not the default the call used.
   */
  function Respond(settings: Option<ProviderSettings>, request: ChatRequest, ollamaModels: seq<string>,
                   sdk: ProviderCall -> SdkOutcome): (r: Reply)
    ensures settings.None? ==> r == Rejected(500, "Internal Server Error")
    // a reply is only produced once selection, the credential check and the SDK call all succeed
    ensures r.Replied? ==>
      && settings.Some?
      && var selected := SelectProvider(request.provider, settings.value, ollamaModels);
      && selected.Ok?
      && CheckCredentials(selected.value, settings.value).Ok?
      && PlanCall(selected.value, request).Ok?
      && sdk(PlanCall(selected.value, request).value).Completed?
      && r.body == JObj([("content", sdk(PlanCall(selected.value, request).value).content),
                         ("provider", JStr(selected.value)),
                         ("model", OptStr(request.model))])
    // and once they all succeed, there is a reply
    ensures
      (&& settings.Some?
       && var selected := SelectProvider(request.provider, settings.value, ollamaModels);
       && selected.Ok?
       && CheckCredentials(selected.value, settings.value).Ok?
       && PlanCall(selected.value, request).Ok?
       && sdk(PlanCall(selected.value, request).value).Completed?) ==> r.Replied?
    // every refusal on the way is passed on as it is
    ensures settings.Some? && SelectProvider(request.provider, settings.value, ollamaModels).Err? ==>
      r == NoProviderEnabled
    ensures settings.Some? ==>
      var selected := SelectProvider(request.provider, settings.value, ollamaModels);
      selected.Ok? && CheckCredentials(selected.value, settings.value).Err? ==>
        r == CheckCredentials(selected.value, settings.value).error
    ensures settings.Some? ==>
      var selected := SelectProvider(request.provider, settings.value, ollamaModels);
      selected.Ok? && CheckCredentials(selected.value, settings.value).Ok? && PlanCall(selected.value, request).Err? ==>
        r == PlanCall(selected.value, request).error
    // an exception from the SDK becomes a 500 carrying its message
    ensures settings.Some? ==>
      var selected := SelectProvider(request.provider, settings.value, ollamaModels);
      selected.Ok? && CheckCredentials(selected.value, settings.value).Ok? && PlanCall(selected.value, request).Ok? &&
      sdk(PlanCall(selected.value, request).value).SdkFailed? ==>
        r == Rejected(500, "AI service error: " + sdk(PlanCall(selected.value, request).value).message)
    // so every refusal is a 400 or a 500
    ensures r.Rejected? ==> r.status == 400 || r.status == 500
  {
    if settings.None? then Rejected(500, "Internal Server Error")
    else
      match SelectProvider(request.provider, settings.value, ollamaModels)
      case Err(e) => e
      case Ok(provider) =>
        match CheckCredentials(provider, settings.value)
        case Err(e) => e
        case Ok(_) =>
          match PlanCall(provider, request)
          case Err(e) => e
          case Ok(call) =>
            match sdk(call)
            case Completed(content) =>
              Replied(JObj([("content", content), ("provider", JStr(provider)), ("model", OptStr(request.model))]))
            case SdkFailed(message) => Rejected(500, "AI service error: " + message)
  }

  /** When selection or the credential check refuses, no SDK is called: the reply does not depend on it. */
  lemma RefusalCallsNoSdk(settings: ProviderSettings, request: ChatRequest, ollamaModels: seq<string>,
                          sdk1: ProviderCall -> SdkOutcome, sdk2: ProviderCall -> SdkOutcome)
    requires var selected := SelectProvider(request.provider, settings, ollamaModels);
      selected.Err? || CheckCredentials(selected.value, settings).Err?
    ensures Respond(Some(settings), request, ollamaModels, sdk1) == Respond(Some(settings), request, ollamaModels, sdk2)
    ensures Respond(Some(settings), request, ollamaModels, sdk1).Rejected?
    ensures Respond(Some(settings), request, ollamaModels, sdk1).status == 400
  {
  }

  /** A user without stored settings, asking for no provider, reaches ollama or is refused with 400. */
  lemma DefaultsOnlyReachOllama(request: ChatRequest, ollamaModels: seq<string>)
    requires request.provider.None? || request.provider == Some("")
    ensures SelectProvider(request.provider, Defaults, ollamaModels) ==
      if |ollamaModels| > 0 then Ok("ollama") else Err(NoProviderEnabled)
  {
    DefaultsDisabled();
  }

  /** `POST /chat`. */
  method ChatCompletion(cache: SettingsCache, userId: Option<string>, request: ChatRequest, fetch: SettingsFetch,
                        ollamaModels: seq<string>, sdk: ProviderCall -> SdkOutcome) returns (reply: Reply)
    modifies cache
    ensures !Authenticated(userId) ==> reply == NotAuthenticated && cache.entries == old(cache.entries)
    ensures Authenticated(userId) ==>
      var (entries, settings) := Lookup(old(cache.entries), userId.value, fetch);
      cache.entries == entries && reply == Respond(settings, request, ollamaModels, sdk)
  {
    if !Authenticated(userId) {
      return NotAuthenticated;
    }
    var settings := cache.Get(userId.value, fetch);
    reply := Respond(settings, request, ollamaModels, sdk);
  }

  // ---------------------------------------------------------------------------
  // list_providers
  // ---------------------------------------------------------------------------

  function Strs(names: seq<string>): (r: Json)
    ensures r.JArr? && |r.items| == |names|
  {
    JArr(seq(|names|, i requires 0 <= i < |names| => JStr(names[i])))
  }

  /** One entry of the listing: display name, `enabled`, models and type, then any extra fields. */
  function ListingEntry(name: string, enabled: Json, models: Json, kind: string, extra: Fields): (r: Json)
    requires forall j :: 0 <= j < |extra| ==> extra[j].0 != "enabled"
    ensures r.JObj? && GetOr(r.fields, "enabled", JNull) == enabled
  {
    var fields := [("name", JStr(name)), ("enabled", enabled), ("models", models), ("type", JStr(kind))] + extra;
    GetUnique(fields, 1, "enabled");
    JObj(fields)
  }

  /** The `providers` object of `list_providers`. */
  function Listing(settings: ProviderSettings, ollamaModels: seq<string>): Fields {
    [("openai", ListingEntry("OpenAI", GetOr(settings.openai, "enabled", JBool(false)),
                             Strs(["gpt-4", "gpt-3.5-turbo"]), "api", [])),
     ("anthropic", ListingEntry("Anthropic", GetOr(settings.anthropic, "enabled", JBool(false)),
                                Strs(["claude-3-opus-20240229", "claude-3-sonnet-20240229"]), "api", [])),
     ("google", ListingEntry("Google AI", GetOr(settings.google, "enabled", JBool(false)),
                             Strs(["gemini-pro", "gemini-pro-vision"]), "api", [])),
     ("ollama", ListingEntry("Ollama", JBool(|ollamaModels| > 0), Strs(ollamaModels), "local",
                             [("has_custom_url", JBool(false))])),
     ("github", ListingEntry("GitHub Integration", JBool(true), JArr([]), "integration",
                             [("requires_auth", JBool(true))]))]
  }

  /** The `enabled` value `list_providers` reports for `provider`. */
  function ListedEnabled(settings: ProviderSettings, ollamaModels: seq<string>, provider: string): Json {
    match Get(Listing(settings, ollamaModels), provider)
    case Some(JObj(entry)) => GetOr(entry, "enabled", JNull)
    case _ => JNull
  }

  /** Each provider is listed once, so its lookup finds its own entry. */
  lemma ListedAt(settings: ProviderSettings, ollamaModels: seq<string>, i: nat)
    requires i < 5
    ensures var l := Listing(settings, ollamaModels);
      Get(l, l[i].0) == Some(l[i].1)
  {
    var l := Listing(settings, ollamaModels);
    GetUnique(l, i, l[i].0);
  }

  /** The listed flags: the raw stored flag for the key providers, a non-empty model list for ollama, always github. */
  lemma ListedFlags(settings: ProviderSettings, ollamaModels: seq<string>)
    ensures ListedEnabled(settings, ollamaModels, "openai") == GetOr(settings.openai, "enabled", JBool(false))
    ensures ListedEnabled(settings, ollamaModels, "anthropic") == GetOr(settings.anthropic, "enabled", JBool(false))
    ensures ListedEnabled(settings, ollamaModels, "google") == GetOr(settings.google, "enabled", JBool(false))
    ensures ListedEnabled(settings, ollamaModels, "ollama") == JBool(|ollamaModels| > 0)
    ensures ListedEnabled(settings, ollamaModels, "github") == JBool(true)
  {
    ListedAt(settings, ollamaModels, 0);
    ListedAt(settings, ollamaModels, 1);
    ListedAt(settings, ollamaModels, 2);
    ListedAt(settings, ollamaModels, 3);
    ListedAt(settings, ollamaModels, 4);
  }

  /** `list_providers` shows `provider` as enabled. */
  predicate Listed(settings: ProviderSettings, ollamaModels: seq<string>, provider: string) {
    Truthy(ListedEnabled(settings, ollamaModels, provider))
  }

  /** A missing flag is falsy for the selection (`get("enabled")`) and for the listing (`get("enabled", False)`). */
  lemma SameTruth(entry: Fields)
    ensures Truthy(GetOr(entry, "enabled", JNull)) == Truthy(GetOr(entry, "enabled", JBool(false)))
  {
  }

  /**
   * Automatic selection agrees with the listing: the provider chosen is listed
   * as enabled and every provider ahead of it in priority is listed as
   * disabled; with none listed as enabled the request is refused. GitHub is
   * listed as enabled but is never chosen.
   */
  lemma SelectionAgreesWithListing(settings: ProviderSettings, ollamaModels: seq<string>)
    ensures SelectProvider(None, settings, ollamaModels) != Ok("github")
    ensures var openai := Listed(settings, ollamaModels, "openai");
      var anthropic := Listed(settings, ollamaModels, "anthropic");
      var google := Listed(settings, ollamaModels, "google");
      var ollama := Listed(settings, ollamaModels, "ollama");
      match SelectProvider(None, settings, ollamaModels)
      case Ok(p) =>
        && Listed(settings, ollamaModels, p)
        && (p == "anthropic" ==> !openai)
        && (p == "google" ==> !openai && !anthropic)
        && (p == "ollama" ==> !openai && !anthropic && !google)
      case Err(_) => !openai && !anthropic && !google && !ollama
  {
    ListedFlags(settings, ollamaModels);
    SameTruth(settings.openai);
    SameTruth(settings.anthropic);
    SameTruth(settings.google);
  }

  /** `GET /providers`. */
  method ListProviders(cache: SettingsCache, userId: Option<string>, fetch: SettingsFetch, ollamaModels: seq<string>)
    returns (reply: Reply)
    modifies cache
    ensures !Authenticated(userId) ==> reply == NotAuthenticated && cache.entries == old(cache.entries)
    ensures Authenticated(userId) ==>
      var (entries, settings) := Lookup(old(cache.entries), userId.value, fetch);
      cache.entries == entries &&
      reply == (if settings.None? then Rejected(500, "Internal Server Error")
                else Replied(JObj([("providers", JObj(Listing(settings.value, ollamaModels)))])))
  {
    if !Authenticated(userId) {
      return NotAuthenticated;
    }
    var settings := cache.Get(userId.value, fetch);
    if settings.None? {
      return Rejected(500, "Internal Server Error");
    }
    reply := Replied(JObj([("providers", JObj(Listing(settings.value, ollamaModels)))]));
  }
}
