/**
 * `get_user_provider_settings` and the process-wide `provider_settings_cache`.
 *
 * The cache maps a user id to the raw JSON body the database service returned
 * with status 200. The body is stored before it is validated, so a body that
 * does not validate is answered with the defaults the first time (the
 * validation error is caught with the fetch) and makes every later call for
 * that user raise (the cached path has no handler).
 */
module Settings {
  import opened Wrappers
  import opened Json

  /** The pydantic model `ProviderSettings`: three free-form objects. There is no `github` entry. */
  datatype ProviderSettings = ProviderSettings(openai: Fields, anthropic: Fields, google: Fields)

  /** The object bound to `name`, when it is bound to an object. */
  function Section(fields: Fields, name: string): (r: Option<Fields>)
    ensures r.Some? <==> Get(fields, name).Some? && Get(fields, name).value.JObj?
    ensures r.Some? ==> Get(fields, name) == Some(JObj(r.value))
  {
    match Get(fields, name)
    case Some(JObj(f)) => Some(f)
    case _ => None
  }

  /**
   * `ProviderSettings(**body)`: the body must be an object that binds each of
   * "openai", "anthropic" and "google" to an object; other keys are ignored.
   * `None` stands for the exception pydantic (or `**` on a non-dict) raises.
   */
  function Validate(body: Json): (r: Option<ProviderSettings>)
    ensures r.Some? <==>
      body.JObj? && Section(body.fields, "openai").Some? &&
      Section(body.fields, "anthropic").Some? && Section(body.fields, "google").Some?
    ensures r.Some? ==>
      Get(body.fields, "openai") == Some(JObj(r.value.openai)) &&
      Get(body.fields, "anthropic") == Some(JObj(r.value.anthropic)) &&
      Get(body.fields, "google") == Some(JObj(r.value.google))
  {
    if !body.JObj? then None
    else
      match (Section(body.fields, "openai"), Section(body.fields, "anthropic"), Section(body.fields, "google"))
      case (Some(o), Some(a), Some(g)) => Some(ProviderSettings(o, a, g))
      case _ => None
  }

  /** The JSON object the database service would send for `settings`. */
  function Serialize(settings: ProviderSettings): Json {
    JObj([("openai", JObj(settings.openai)), ("anthropic", JObj(settings.anthropic)), ("google", JObj(settings.google))])
  }

  lemma ValidateSerialize(settings: ProviderSettings)
    ensures Validate(Serialize(settings)) == Some(settings)
  {
    var f := Serialize(settings).fields;
    GetUnique(f, 0, "openai");
    GetUnique(f, 1, "anthropic");
    GetUnique(f, 2, "google");
  }

  /** `{"apiKey": "", "enabled": False}` */
  const DefaultEntry: Fields := [("apiKey", JStr("")), ("enabled", JBool(false))]

  /** What a user without stored settings gets: every provider disabled, every key empty. */
  const Defaults: ProviderSettings := ProviderSettings(DefaultEntry, DefaultEntry, DefaultEntry)

  lemma DefaultsDisabled()
    ensures forall entry :: entry in [Defaults.openai, Defaults.anthropic, Defaults.google] ==>
      !Truthy(GetOr(entry, "enabled", JNull)) && GetOr(entry, "apiKey", JStr("")) == JStr("") &&
      Get(entry, "apiKey") == Some(JStr(""))
  {
    assert Get(DefaultEntry, "apiKey") == Get(DefaultEntry[..1], "apiKey");
  }

  /**
   * What the fetch from the database service yields: a 200 response with a
   * JSON body, a response with another status, or an exception (transport
   * error, or a 200 body that is not JSON).
   */
  datatype SettingsFetch = Fetched(body: Json) | NotOk | FetchFailed

  /**
   * One call of `get_user_provider_settings`: the new cache and the settings,
   * `None` when the call raises. `fetch` is what the database service would
   * answer; it is only consulted on a miss.
   */
  function Lookup(cache: map<string, Json>, userId: string, fetch: SettingsFetch)
    : (r: (map<string, Json>, Option<ProviderSettings>))
    // a hit validates the stored body and changes nothing
    ensures userId in cache ==> r.0 == cache && r.1 == Validate(cache[userId])
    // a miss never raises, and only a 200 body is stored, raw
    ensures userId !in cache ==> r.1.Some?
    ensures userId !in cache ==> r.0 == if fetch.Fetched? then cache[userId := fetch.body] else cache
    // what a miss answers: the validated body, else the defaults
    ensures userId !in cache && fetch.Fetched? && Validate(fetch.body).Some? ==> r.1 == Validate(fetch.body)
    ensures userId !in cache && (!fetch.Fetched? || Validate(fetch.body).None?) ==> r.1 == Some(Defaults)
  {
    if userId in cache then
      (cache, Validate(cache[userId]))
    else
      match fetch
      case Fetched(body) => (cache[userId := body], Some(Validate(body).GetOr(Defaults)))
      case NotOk => (cache, Some(Defaults))
      case FetchFailed => (cache, Some(Defaults))
  }

  /** A hit never looks at the database service. */
  lemma HitIgnoresFetch(cache: map<string, Json>, userId: string, f1: SettingsFetch, f2: SettingsFetch)
    requires userId in cache
    ensures Lookup(cache, userId, f1) == Lookup(cache, userId, f2)
  {
  }

  /** Entries are never dropped or overwritten: the cache only grows, by the looked-up user. */
  lemma LookupOnlyGrows(cache: map<string, Json>, userId: string, fetch: SettingsFetch)
    ensures forall k :: k in cache ==> k in Lookup(cache, userId, fetch).0 && Lookup(cache, userId, fetch).0[k] == cache[k]
    ensures Lookup(cache, userId, fetch).0.Keys <= cache.Keys + {userId}
  {
  }

  /** Once a valid body is stored, every later lookup for that user answers the same settings. */
  lemma StoredSettingsAreStable(cache: map<string, Json>, userId: string, fetch: SettingsFetch, later: SettingsFetch)
    requires userId !in cache && fetch.Fetched? && Validate(fetch.body).Some?
    ensures var (next, first) := Lookup(cache, userId, fetch);
      Lookup(next, userId, later) == (next, first)
  {
  }

  /**
   * A 200 body that does not validate is answered with the defaults once, and
   * from then on every lookup for that user raises, whatever the database
   * service would now answer.
   */
  lemma InvalidBodyPoisonsCache(cache: map<string, Json>, userId: string, body: Json, later: SettingsFetch)
    requires userId !in cache && Validate(body).None?
    ensures Lookup(cache, userId, Fetched(body)).1 == Some(Defaults)
    ensures Lookup(Lookup(cache, userId, Fetched(body)).0, userId, later).1.None?
  {
  }

  /** The process-wide cache. */
  class SettingsCache {
    var entries: map<string, Json>

    constructor()
      ensures entries == map[]
    {
      entries := map[];
    }

    /** `get_user_provider_settings(user_id)`; `None` when it raises. */
    method Get(userId: string, fetch: SettingsFetch) returns (settings: Option<ProviderSettings>)
      modifies this
      ensures (entries, settings) == Lookup(old(entries), userId, fetch)
    {
      if userId in entries {
        settings := Validate(entries[userId]);
        return;
      }
      match fetch {
        case Fetched(body) =>
          entries := entries[userId := body];
          var validated := Validate(body);
          settings := if validated.Some? then validated else Some(Defaults);
        case NotOk =>
          settings := Some(Defaults);
        case FetchFailed =>
          settings := Some(Defaults);
      }
    }
  }
}
