# AI service gateway: a verified model in Dafny

This project models the decision logic of the AI service (`services/ai-service/main.py`).
The service is an HTTP gateway that sits between a chat front end, several language-model
providers and a terminal service that runs git. The model covers five parts of it:

- **Settings cache.** `get_user_provider_settings` reads a user's provider settings through
  the process-wide `provider_settings_cache`. It is a class `Settings.SettingsCache` whose
  `entries` map is updated in place. The database service is an input (`SettingsFetch`).
- **Chat dispatch.** `chat_completion` covers authentication, automatic provider selection,
  the API-key check and the per-provider message translation. It also fixes which model
  name and which messages each provider's SDK is given, and how the reply or the error is
  built. The SDK itself is an input function (`sdk`).
- **Provider listing.** `list_providers` builds each provider's `enabled` flag. The model
  proves these flags agree with automatic selection.
- **Git-intent extraction.** `detect_git_operations` turns a chat message into an ordered
  list of `GitOperationRequest`s. It searches nine fixed regular expressions and two keyword
  tests. Each expression is modelled by functions that compute what Python's `re.search`
  returns for it: the leftmost match, and at that position the parse that Python's
  backtracking order prefers. The model then proves these agree with declarative
  descriptions of every way a pattern can match: `WordsParse` for the literal words and the
  `\s+` between them, `TokenParse` and `OptTokenParse` for the token captures with and
  without an optional group, `QuotedParse` and `OptQuotedParse` for the quoted ones. Among
  those parses, Python's choice is stated outright: the longest `\s+`, then the optional
  group taken whenever the rest still matches, then the shortest lazy capture. There is no
  general regular-expression engine.
- **Git execution.** `execute_git_operation` builds one request per operation tag and
  classifies the terminal service's answer. `execute_git_operations` finds the latest user
  message, detects operations in it and runs them all in order. The terminal service is an
  input function (`remote`).

Modules: `Wrappers` (Option and Result), `Json` (JSON values and `dict.get`), `Text`
(`str.isspace`, ASCII `str.lower`, substring tests, `str.strip`), `Http` (requests, replies,
authentication), `Settings`, `Chat`, `GitIntent`, `GitIntentExamples` (worked messages),
`DetectExamples` (whole messages through the extractor) and `GitExecutor`.

Behaviour kept as the code has it:

- **A malformed settings body poisons the cache.** The raw 200 body is stored before it is
  validated. The first lookup swallows the validation error and answers the defaults. Every
  later lookup for that user validates the stored body on a path with no handler, so it
  raises (`Settings.InvalidBodyPoisonsCache`).
- **Gemini receives only the first message.** The google call sends the text of the *first*
  translated message (`Chat.GeminiGetsFirstMessage`). A google request with no messages
  fails with 500.
- **An explicit `github` provider fails with 500.** Its message is
  `AI service error: 400: Unsupported provider: github`. The `HTTPException(400)` is raised
  inside the `try` and re-wrapped, and `str()` of it is `400: <detail>`. This assumes a
  Starlette release whose `HTTPException` defines `__str__` that way; the service's
  dependency pins are not part of this model. Under an older release that passes no
  arguments to `Exception`, the message would be `AI service error: ` alone.
- **Categories have no `break`.** Every matching pattern contributes an operation, so
  "git clone x" yields two clones (`GitIntentExamples.GitCloneYieldsTwoClones`).
- **A checkout captures the first token after the trigger.** "checkout new feature-x" gives
  branch "new" (`GitIntentExamples.CheckoutCapturesFirstToken`).
- **A token capture can be a single whitespace character.** A capture `(.+?)(?:\s+|$)` is
  the first whitespace-free token after the trigger. The exception is a message that has
  only whitespace after the trigger. Python then backtracks into the `\s+` and captures the
  last of those whitespace characters that is not a newline, as long as at least one
  whitespace character is left before it; `.strip()` turns that capture into the empty
  string. When every whitespace character after the first one is a newline, `.` finds
  nothing to capture and the pattern does not match there. The model keeps both edge cases
  (`GitIntent.LastNonNewline`, `GitIntent.TokenTailIsPreferredParse`).

## Model

| member | source | states |
|---|---|---|
| Json.GetLastBinding | services/ai-service/main.py:152-156 | `dict.get` finds nothing exactly when the key is unbound; otherwise it yields the value of the key's last binding |
| Text.StripTrims | services/ai-service/main.py:453 | `.strip()` returns a contiguous slice of its input; everything dropped before and after it is whitespace |
| Text.StripNoSpace | services/ai-service/main.py:453 | a string without whitespace is unchanged by `.strip()` |
| Text.LowerIsLowerCase | services/ai-service/main.py:442 | the lower-cased message holds no upper-case letter, and lower-casing twice changes nothing |
| Settings.Validate | services/ai-service/main.py:41-44 | `ProviderSettings(**body)` succeeds exactly when the body is an object binding openai, anthropic and google to objects, and the settings hold those objects |
| Settings.ValidateSerialize | services/ai-service/main.py:41-44 | every settings record sent back as the database service would send it validates to itself |
| Settings.DefaultsDisabled | services/ai-service/main.py:67-71 | the default record disables all three providers and gives each an empty key |
| Settings.Lookup | services/ai-service/main.py:49-79 | a hit validates the stored body and leaves the cache unchanged; a miss never raises; it stores a 200 body raw and nothing else; it answers the validated body or else the defaults |
| Settings.HitIgnoresFetch | services/ai-service/main.py:51-52 | a cache hit does not depend on what the database service would answer |
| Settings.LookupOnlyGrows | services/ai-service/main.py:63 | no entry is ever removed or overwritten; only the looked-up user can be added |
| Settings.StoredSettingsAreStable | services/ai-service/main.py:51-64 | once a valid body is stored, every later lookup for that user answers the same settings and leaves the cache unchanged |
| Settings.InvalidBodyPoisonsCache | services/ai-service/main.py:51-64 | a 200 body that fails validation yields the defaults once; after that, every lookup for the user raises, whatever the database now answers |
| Settings.SettingsCache.constructor | services/ai-service/main.py:47 | the cache starts empty |
| Settings.SettingsCache.Get | services/ai-service/main.py:49-79 | the new cache contents and the answer are those that `Lookup` gives for the old contents |
| Chat.SelectProvider | services/ai-service/main.py:149-164 | a non-empty explicit provider is used as given; an automatic choice is one of openai, anthropic, google, ollama; the only refusal is the 400 "No AI provider enabled" |
| Chat.AutoSelectionPriority | services/ai-service/main.py:150-164 | with no provider, the first of openai, anthropic, google (enabled flag truthy) and ollama (model list non-empty) is chosen; if none qualifies, the request is refused |
| Chat.DefaultsOnlyReachOllama | services/ai-service/main.py:150-164 | with the default settings (lines 67-71), automatic selection picks ollama when models exist and refuses otherwise |
| Chat.CheckCredentials | services/ai-service/main.py:166-182 | refuses with 400 exactly when the provider is openai, anthropic or google and its `apiKey` is missing or falsy; an accepted key is the stored, truthy one |
| Chat.DefaultsHaveNoCredentials | services/ai-service/main.py:166-182 | every keyed provider is refused under the default settings (lines 67-71) |
| Chat.TranslateMessages | services/ai-service/main.py:188-196 | the loop builds exactly the translated list: role and content for openai and anthropic, role and `parts:[{text}]` for google, nothing for other providers |
| Chat.TranslationRoundTrip | services/ai-service/main.py:188-196 | for a keyed provider, translation keeps the message count and order, and each message's role and content can be read back unchanged |
| Chat.PlanCall | services/ai-service/main.py:184-242 | unsupported providers fail with 500 and the wrapped message (github with its `400:` text); only openai, anthropic, google and ollama reach an SDK call; google fails exactly when there are no messages; OpenAI and Anthropic are given the translated messages and `max_tokens`, Ollama the role-and-content messages and `max_tokens` as `num_predict`; a non-empty requested model is used as given |
| Chat.CallCarriesConversation | services/ai-service/main.py:199-239 | OpenAI, Anthropic and Ollama are handed the whole conversation: one entry per message, in order, each reading back as that message's role and content |
| Chat.GeminiGetsFirstMessage | services/ai-service/main.py:217-220 | the prompt given to Gemini is the text of the first translated message, which is the first message's content |
| Chat.DefaultModels | services/ai-service/main.py:199-232 | without a model the calls use gpt-3.5-turbo, claude-3-sonnet-20240229, gemini-pro and llama2 |
| Chat.Respond | services/ai-service/main.py:146-253 | failing settings give 500; there is a reply exactly when selection, the key check, the call plan and the SDK call all succeed, and it carries the SDK content, the chosen provider and the requested model; each refusal on the way is passed on unchanged; an SDK exception with message m becomes 500 `AI service error: ` + m |
| Chat.RefusalCallsNoSdk | services/ai-service/main.py:160-182 | a selection or key refusal is a 400 that does not depend on the SDK at all |
| Chat.ChatCompletion | services/ai-service/main.py:138-253 | unauthenticated requests get 401 and leave the cache alone; otherwise the cache and the reply are those of one settings lookup followed by `Respond` |
| Chat.ListingEntry | services/ai-service/main.py:265-298 | every provider entry is an object whose `enabled` field is the given flag |
| Chat.ListedFlags | services/ai-service/main.py:265-298 | the keyed providers' flags come from settings (false when absent); ollama is enabled exactly when models exist; github is always enabled |
| Chat.SelectionAgreesWithListing | services/ai-service/main.py:150-164 | automatic selection agrees with the flags `list_providers` reports (lines 265-298): it never picks github; it picks a provider that is listed as enabled, with none listed before it; it refuses exactly when openai, anthropic, google and ollama are all listed as disabled |
| Chat.ListProviders | services/ai-service/main.py:255-300 | 401 without a user; otherwise one settings lookup, then 500 if it raises, else the listing of all five providers |
| GitIntent.LastNonNewline | services/ai-service/main.py:446-448 | finds the last position in a range that holds no newline, or reports that the range is all newlines |
| GitIntent.TokenTailIsPreferredParse | services/ai-service/main.py:446-464 | the token tail of the clone and checkout patterns (whitespace, a lazy capture, then whitespace or the end) fails exactly when no parse exists; otherwise the capture is the parse Python prefers: the longest leading whitespace, then the shortest capture |
| GitIntent.MatchWordsIsParse | services/ai-service/main.py:445-482 | the literal words of a pattern and the `\s+` between them match at a position exactly when `MatchWords` says so, and end where it says |
| GitIntent.OptionalTokenTail | services/ai-service/main.py:462-463 | an optional `branch\s+` group never changes whether the token tail matches; without it the result is the plain token tail |
| GitIntent.OptionalTokenTailIsPreferredParse | services/ai-service/main.py:462-463 | with the optional `branch\s+` group, the capture fails exactly when no parse exists; otherwise it is the parse Python prefers: the longest leading whitespace, then the group taken (with its longest whitespace) whenever a token tail follows it, then the shortest capture |
| GitIntent.QuotedAtIsShortestParse | services/ai-service/main.py:479-481 | `["'](.+?)["']` fails exactly when no parse exists; otherwise it captures the shortest newline-free text between two quotes |
| GitIntent.OptionalQuotedTailFailsIffNoParse | services/ai-service/main.py:479-481 | a commit tail with the optional `with message\s+` group fails exactly when no parse of it exists |
| GitIntent.OptionalQuotedTailIsPreferredParse | services/ai-service/main.py:479-481 | a commit capture is the parse Python prefers: the opening quote right after the longest whitespace, or right after `with message` and its longest whitespace whenever a quoted text follows there; the capture runs to the nearest closing quote |
| GitIntent.SearchLeftmost | services/ai-service/main.py:450-453 | `re.search` fails exactly when no position matches; otherwise it yields the stripped capture at the leftmost matching position |
| GitIntent.SearchNeedsFirstWord | services/ai-service/main.py:450-452 | a pattern can only match a message that contains its first word |
| GitIntent.AppendMatches | services/ai-service/main.py:449-458 | one category loop appends, in pattern order, one operation for each pattern that matches |
| GitIntent.DetectGitOperations | services/ai-service/main.py:439-500 | the result is clones, then checkouts, then commits, then push, then status, and every tag is a known operation |
| GitIntent.DetectIsCategoryOrdered | services/ai-service/main.py:439-500 | the order of the result depends only on category, never on where the text occurs in the message |
| GitIntent.DetectCounts | services/ai-service/main.py:444-500 | at most three operations per pattern category, at most one push and one status, at most eleven in all |
| GitIntent.CheckoutCreateFlag | services/ai-service/main.py:460-475 | every checkout has `create` true exactly when "create" or "new" occurs in the lower-cased message |
| GitIntent.CloneAndCommitFields | services/ai-service/main.py:444-490 | every clone has a URL and branch "main"; every commit has a message and no files |
| GitIntent.ClonesAndCheckoutsAreTokens | services/ai-service/main.py:444-475 | clone URLs and checkout branches never contain whitespace |
| GitIntent.SyncChangesPushesAndReportsStatus | services/ai-service/main.py:492-498 | "sync changes" asks for both a push and a status |
| GitIntent.SaveChangesReportsStatus | services/ai-service/main.py:481-498 | a match of the `save changes` commit pattern always comes with a status operation |
| GitIntentExamples.GitCloneYieldsTwoClones | services/ai-service/main.py:444-458 | "git clone x" yields two identical clones of "x" on branch "main" |
| GitIntentExamples.CheckoutCapturesFirstToken | services/ai-service/main.py:460-475 | "checkout new feature-x" yields one checkout of branch "new" with `create` set |
| GitIntentExamples.GitCommitYieldsOneCommit | services/ai-service/main.py:477-490 | "git commit -m 'fix bug'" yields one commit with message "fix bug" |
| DetectExamples.SmallTalkYieldsNothing | services/ai-service/main.py:439-500 | "hello, how are you" yields no operation |
| DetectExamples.CloneAndPushYieldsTwo | services/ai-service/main.py:439-500 | "clone https://x/y and push" yields a clone of "https://x/y" on branch "main", then a push |
| DetectExamples.GitCheckoutDetected | services/ai-service/main.py:439-500 | "git checkout x" yields two identical checkouts of "x" without `create`, and nothing else |
| GitExecutor.BuildRequest | services/ai-service/main.py:502-547 | a request exists exactly for the five known tags; it targets the terminal service's path for the tag; status alone is a GET without a payload |
| GitExecutor.RequestNamesUser | services/ai-service/main.py:506-545 | every request names the acting user, in the payload or in the status URL |
| GitExecutor.ClonePayload | services/ai-service/main.py:506-515 | the clone payload carries the operation's URL, branch and project name |
| GitExecutor.CheckoutPayload | services/ai-service/main.py:516-524 | the checkout payload carries the operation's branch and `create` flag |
| GitExecutor.CommitPayload | services/ai-service/main.py:529-537 | the commit payload carries the operation's message and files |
| GitExecutor.PushPayload | services/ai-service/main.py:538-545 | the push payload carries the operation's branch |
| GitExecutor.Classify | services/ai-service/main.py:549-556 | a decodable 200 body is passed through; anything else is a failure record whose error is, case by case: the exception text for a transport error or for a body that fails to decode (a 200, or an error claiming JSON); the `error` field or "Git operation failed" for a JSON object; Python's `'<type>' object has no attribute 'get'` for other JSON; the raw text otherwise |
| GitExecutor.Attempt | services/ai-service/main.py:502-556 | unknown tags fail without a request; known tags give the classified answer to their request |
| GitExecutor.RunOperations | services/ai-service/main.py:582-588 | exactly one record per operation, in order, each labelled with its tag; every operation is attempted, whatever happened to the earlier ones |
| GitExecutor.ReportsLabelled | services/ai-service/main.py:585-588 | each record's `operation` is its tag, and a failed request leaves a failure record as its result |
| GitExecutor.LatestUserContentIsLatest | services/ai-service/main.py:566-570 | nothing is found exactly when no message has role user; otherwise the content found belongs to the last user message |
| GitExecutor.LastUserMessage | services/ai-service/main.py:566-570 | the reversed scan finds the latest user message's content |
| GitExecutor.DetectedOperationsAreSent | services/ai-service/main.py:576-588 | every detected operation has a request; none takes the unknown-operation path |
| GitExecutor.ExecuteGitOperations | services/ai-service/main.py:558-593 | 401 without a user; 400 when the latest user message is missing or empty; otherwise the operations detected in it, each run and reported, or "No git operations detected" |

## Left out

- FastAPI routing, CORS, headers and the health endpoint are framework glue. A request
  reaches the model as an optional user id and a parsed body.
- The provider SDKs (OpenAI, Anthropic, google.generativeai, ollama) and `get_provider_client`
  are foreign libraries. The model keeps which provider, model name and messages each call
  receives (`Chat.ProviderCall`). The call's outcome is the input `sdk`, and its exception
  text is part of that outcome.
- `temperature` is a float passed through to the SDKs and never computed on, so it is left
  out. `max_tokens` is kept and passed through as the code does (`Chat.PlanCall`).
- The `timestamp` field of the chat reply comes from the clock and is left out.
- `get_ollama_models` talks to the ollama server. Its model list is an input, given once
  per request.
- The GitHub endpoints, repository listing, code-example scraping and ollama configuration
  are network calls to external APIs with no decision logic of their own.
- The httpx transport and `async` suspension are left out. The database service and the
  terminal service are inputs (`SettingsFetch`, `remote`), and concurrent requests sharing
  the cache are not modelled.
- The `print` logging is left out.
- Lower-casing covers ASCII letters only. Unicode case mapping is not modelled.
- JSON numbers are integers only. Floats do not occur in the modelled decisions.
- Pydantic coercions (such as a number given where a string is expected) are not modelled.
  Request fields hold values of their declared types, and `create` is a plain boolean.
- The regular expressions are modelled only for the nine fixed shapes the extractor uses,
  not as a general engine.
- Python's `$` is modelled as the end of the string. It also matches before a final
  newline, but that position is always reached through the alternative `\s+`, so the
  capture is the same.
