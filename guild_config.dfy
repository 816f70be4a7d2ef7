/** `ConfigManager`: the bot's per-guild settings, a decoded JSON document
    whose "guilds" object maps a guild id's text to an object with a
    "language" field. */
module GuildConfig {
  import opened Wrappers
  import opened PyStr
  import opened JsonValue

  /** The AttributeError or TypeError raised when a level of the document
      that must be an object is something else. */
  datatype ConfigError = NotAnObject

  const DEFAULT_LANGUAGE: string := "ru"

  /** `d.get(k, default)`, which only an object has. */
  function GetOr(v: Json, k: string, default: Json): Result<Json, ConfigError> {
    match v
    case JObj(fields) => Ok(if k in fields then fields[k] else default)
    case _ => Err(NotAnObject)
  }

  /** `get_guild_language`: the chained lookup with an empty object for a
      missing level and "ru" for a missing field. */
  function GuildLanguage(config: Json, guildId: int): Result<Json, ConfigError> {
    match GetOr(config, "guilds", JObj(map[]))
    case Err(e) => Err(e)
    case Ok(guilds) =>
      match GetOr(guilds, IntToString(guildId), JObj(map[]))
      case Err(e) => Err(e)
      case Ok(entry) => GetOr(entry, "language", JStr(DEFAULT_LANGUAGE))
  }

  /** The document after `set_guild_language`: a missing "guilds" object is
      created, and the guild's entry is replaced by one holding only the
      language. Nothing changes when either level is not an object. */
  function WithGuildLanguage(config: Json, guildId: int, language: string): Result<Json, ConfigError> {
    match config
    case JObj(top) =>
      var guilds := if "guilds" in top then top["guilds"] else JObj(map[]);
      (match guilds
       case JObj(entries) =>
         Ok(JObj(top["guilds" := JObj(entries[IntToString(guildId) := JObj(map["language" := JStr(language)])])]))
       case _ => Err(NotAnObject))
    case _ => Err(NotAnObject)
  }

  class ConfigManager {
    var config: Json

    /** `_load_config`: a missing file, or one that is not valid JSON, gives an empty
        document. */
    constructor(stored: Option<Json>)
      ensures config == if stored.None? then JObj(map[]) else stored.value
    {
      config := if stored.None? then JObj(map[]) else stored.value;
    }

    /** `set_guild_language` (the file write that follows is not modelled). */
    method SetGuildLanguage(guildId: int, language: string) returns (r: Result<(), ConfigError>)
      modifies this
      ensures r.Ok? <==> WithGuildLanguage(old(config), guildId, language).Ok?
      ensures config == if r.Ok? then WithGuildLanguage(old(config), guildId, language).value else old(config)
    {
      if !config.JObj? {
        return Err(NotAnObject);
      }
      var top := config.fields;
      var guilds := if "guilds" in top then top["guilds"] else JObj(map[]);
      if !guilds.JObj? {
        return Err(NotAnObject);
      }
      config := JObj(top["guilds" := JObj(guilds.fields[IntToString(guildId) := JObj(map["language" := JStr(language)])])]);
      return Ok(());
    }

    /** `get_guild_language`. */
    function GetGuildLanguage(guildId: int): Result<Json, ConfigError>
      reads this
    {
      GuildLanguage(config, guildId)
    }
  }

  // ---------------------------------------------------------------------
  // Properties

  /** A guild whose language was set reads it back; its entry holds the
      language and nothing else. */
  lemma SetThenGet(config: Json, guildId: int, language: string)
    requires WithGuildLanguage(config, guildId, language).Ok?
    ensures GuildLanguage(WithGuildLanguage(config, guildId, language).value, guildId) == Ok(JStr(language))
    ensures WithGuildLanguage(config, guildId, language).value.fields["guilds"].fields[IntToString(guildId)]
            == JObj(map["language" := JStr(language)])
  {
  }

  /** Setting one guild's language leaves every other guild's reading as
      it was, including the "ru" default. */
  lemma SetKeepsOtherGuilds(config: Json, guildId: int, language: string, other: int)
    requires WithGuildLanguage(config, guildId, language).Ok? && other != guildId
    ensures GuildLanguage(WithGuildLanguage(config, guildId, language).value, other) == GuildLanguage(config, other)
  {
    if IntToString(other) == IntToString(guildId) {
      IntToStringInjective(other, guildId);
    }
  }

  /** Setting a language touches only the "guilds" field of the document. */
  lemma SetKeepsOtherFields(config: Json, guildId: int, language: string, k: string)
    requires WithGuildLanguage(config, guildId, language).Ok? && k != "guilds"
    ensures var after := WithGuildLanguage(config, guildId, language).value;
      (k in after.fields <==> k in config.fields) && (k in config.fields ==> after.fields[k] == config.fields[k])
  {
  }

  /** The set fails exactly when the document, or its "guilds" field, is
      not an object. */
  lemma SetFails(config: Json, guildId: int, language: string)
    ensures WithGuildLanguage(config, guildId, language).Err? <==>
      !config.JObj? || ("guilds" in config.fields && !config.fields["guilds"].JObj?)
  {
  }

  /** A guild without a "guilds" map, without an entry, or whose entry has
      no "language" field reads "ru". */
  lemma DefaultLanguage(config: Json, guildId: int)
    requires config.JObj?
    requires || "guilds" !in config.fields
             || (config.fields["guilds"].JObj? && IntToString(guildId) !in config.fields["guilds"].fields)
             || (&& config.fields["guilds"].JObj?
                 && IntToString(guildId) in config.fields["guilds"].fields
                 && config.fields["guilds"].fields[IntToString(guildId)].JObj?
                 && "language" !in config.fields["guilds"].fields[IntToString(guildId)].fields)
    ensures GuildLanguage(config, guildId) == Ok(JStr("ru"))
  {
  }
}
