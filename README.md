# SimpleMuteBot core, modelled in Dafny

SimpleMuteBot is a Discord moderation bot. This project models the parts of it
that are plain logic rather than Discord calls, and proves what each part
promises.

- **Duration** (`duration.dfy`, from `SimpleMuteBot/main.py`):
  - `parse_duration` reads the mute length a moderator types ("30m", "2ч",
    "1 день", a bare count of minutes). It uses an ordered table of 34
    English and Russian suffixes and a five-minute default.
  - `format_duration` renders a length in Russian. It picks the bucket
    (seconds, minutes, hours, days) and the grammatical number.
- **Mute store** (`mute_store.dfy`, from `SimpleMuteBot/cogs/moderation.py`):
  - the JSON list of mute records, abstracted to a sequence;
  - the filters of `add_mute_to_file` and `remove_mute_from_file`;
  - `has_any_role`;
  - the priority choice of `get_log_channel`;
  - the record loop of `check_expired_mutes`, which keeps unexpired records
    and lifts the timeout of expired ones.
- **Anti-spam and anti-nuke** (`antispam.dfy`, from `cogs/antispam.py`):
  - the `AntiSpamCog` class with its windows of recent message times. Each
    window is a `deque` with a `maxlen`, created on first use by a
    `defaultdict`. Human windows are keyed by user id; bot windows by the
    string `"bot_<id>"`.
  - the `processed_webhooks` set shared by webhooks and bots, the
    per-kind notification cooldown, and the per-actor nuke windows with
    their alerted set;
  - the bot whitelist, the blocked-word list with its add and delete
    commands, and the eight thresholds with the settings file they are
    saved to.
- **Localisation** (`language.dfy`, from
  `SimpleMuteBot/utils/language_manager.py`): `LanguageManager.get` walks
  the decoded JSON tables by a dotted key. It falls back first to the
  default language, then to `"[[key]]"`.
- **Guild configuration** (`guild_config.dfy`, from
  `utils/config_manager.py`): `ConfigManager`, the per-guild language map
  with the default `"ru"`.
- **Support modules:**
  - `pystr.dfy` holds the pieces of Python's `str` and `int` the core relies
    on: `strip`, `lower`, `endswith`, substring search, `split`, `str(n)`
    and `int(s)`.
  - `json.dfy` holds decoded JSON values.
  - `wrappers.dfy` holds `Option` and `Result`.

Time is a whole number of seconds passed in by the caller. What Discord
answers (a message deleted or already gone, a webhook's owner, the bot's ban
and kick permissions, whether a user can be resolved) arrives as parameters.
What the handlers do comes back as outcome values. A file the bot reads is
given as its decoded content, or `None` when it is missing or not valid JSON.

## Model

| member | source | states |
|---|---|---|
| PyStr.Strip | SimpleMuteBot/main.py:78 | the stripped text neither starts nor ends with whitespace |
| PyStr.SplitJoin | SimpleMuteBot/utils/language_manager.py:27 | splitting the dot-joined segments on '.' gives back the segments, when none contains a dot |
| PyStr.JoinSplit | SimpleMuteBot/utils/language_manager.py:27 | joining the pieces of a split gives back the key |
| PyStr.ParseIntOfIntToString | SimpleMuteBot/main.py:97 | `int(str(n)) == n` for every int |
| PyStr.IntToStringInjective | utils/config_manager.py:26 | distinct ints have distinct decimal texts, so a guild id names one entry |
| PyStr.ParseIntAllSpace | SimpleMuteBot/main.py:108-114 | whitespace-only text is not an int |
| Duration.Scaled | SimpleMuteBot/main.py:100-101 | a positive count of a unit is a positive whole number of minutes in seconds, unless it exceeds the timedelta range |
| Duration.ParseDuration | SimpleMuteBot/main.py:62-114 | every accepted duration is a positive whole number of minutes, in seconds |
| Duration.UnitsAreWords | SimpleMuteBot/main.py:81-91 | every suffix of the table is a non-empty run of lower-case Latin or Cyrillic letters |
| Duration.UnitsUnshadowedEnglish | SimpleMuteBot/main.py:83-86 | no English suffix is ended by an earlier one once a digit precedes it |
| Duration.UnitsUnshadowedRussianMinutesHours | SimpleMuteBot/main.py:88-89 | the same for "мин" to "часов" against every earlier entry |
| Duration.UnitsUnshadowedRussianDays | SimpleMuteBot/main.py:90 | the same for "д" to "дней" |
| Duration.UnitsUnshadowedRussianWeeks | SimpleMuteBot/main.py:91 | the same for "н" to "недель" |
| Duration.UnitsNoShadowing | SimpleMuteBot/main.py:81-95 | after a digit or a space, no earlier table entry ends the text formed with a later one |
| Duration.MatchUnitsAt | SimpleMuteBot/main.py:94-105 | the first suffix the text ends with decides, whether or not its prefix is a number; later suffixes are never tried |
| Duration.MatchUnitsNone | SimpleMuteBot/main.py:107-114 | with no suffix matching, the whole text is read as a count of minutes |
| Duration.ParseFirstMatch | SimpleMuteBot/main.py:78-105 | normalised text is parsed by its first matching suffix |
| Duration.NumberWithUnitIsNormal | SimpleMuteBot/main.py:78 | a number, an optional space and a suffix are left unchanged by strip and lower |
| Duration.AmountOfNumber | SimpleMuteBot/main.py:96-101 | the text before the suffix reads back as the number; zero and negatives are rejected |
| Duration.ParseNumberWithUnit | SimpleMuteBot/main.py:81-102 | for every suffix, `n` followed by it (with or without a space) parses as exactly `n` of that unit when `n > 0`, and is rejected otherwise |
| Duration.ParseBareNumber | SimpleMuteBot/main.py:107-114 | a bare integer is that many minutes; zero and negatives are rejected |
| Duration.ParseNormalBare | SimpleMuteBot/main.py:107-114 | normalised text that no suffix ends is read as a bare count |
| Duration.ParseEmptyOrBlank | SimpleMuteBot/main.py:17 | None and "" give the five-minute default; whitespace-only text passes the emptiness test and is then rejected |
| Duration.FormatSingulars | SimpleMuteBot/main.py:128-162 | exactly one of each unit takes the singular ("1 секунду", "1 минуту", "1 час", "1 день") |
| Duration.FormatBucketEdges | SimpleMuteBot/main.py:128-153 | one second before 60, 3600 and 86400 the count stays in the smaller unit, by floor division |
| Duration.FormatTwentyOne | SimpleMuteBot/main.py:137-162 | 21 minutes renders as "21 минут" and 21 days as "21 день" |
| Duration.ShortFormVersusDayForm | SimpleMuteBot/main.py:128-162 | below 100 the two plural rules differ exactly for counts above 20 ending in 1 |
| Duration.ParsePhrase | SimpleMuteBot/main.py:81-102 | a rendered "count word" phrase whose word is a suffix parses as that count of the unit |
| Duration.FormatParseMinutes | SimpleMuteBot/main.py:137-144 | a rendering in minutes parses back to the duration floored to whole minutes |
| Duration.FormatParseHours | SimpleMuteBot/main.py:146-153 | a rendering in hours parses back to the duration floored to whole hours |
| Duration.FormatParseDays | SimpleMuteBot/main.py:155-162 | a rendering in days parses back to the duration floored to whole days, or overflows past the timedelta range |
| Duration.FormatParseRoundTrip | SimpleMuteBot/main.py:116-162 | from two minutes on, parsing the rendering gives the duration truncated to its bucket |
| Duration.OneMinuteText | SimpleMuteBot/main.py:107-114 | "1 " followed by a word ending in "у" is rejected |
| Duration.OneMinuteDoesNotReparse | SimpleMuteBot/main.py:137-140 | 60 to 119 seconds render as "1 минуту", which does not parse back |
| MuteStore.Loaded | SimpleMuteBot/cogs/moderation.py:31-37 | a missing file, or one that is not valid JSON, reads as the empty list |
| MuteStore.Without | SimpleMuteBot/cogs/moderation.py:39-42 | the filter never grows the list and keeps no record with the key |
| MuteStore.AddMute | SimpleMuteBot/cogs/moderation.py:30-53 | the written list ends with the new record; from a missing file it is that record alone |
| MuteStore.RemoveMute | SimpleMuteBot/cogs/moderation.py:55-74 | a record is written back exactly when it was stored and does not carry the key |
| MuteStore.WithoutMembers | SimpleMuteBot/cogs/moderation.py:67-71 | the filter keeps exactly the records that do not match |
| MuteStore.NewRecordMatches | SimpleMuteBot/cogs/moderation.py:44-50 | the appended record carries the key it was added under |
| MuteStore.AddMuteExactlyOne | SimpleMuteBot/cogs/moderation.py:39-50 | after an add exactly one record carries the key: the last, with the given name, end time and reason |
| MuteStore.WithoutCons | SimpleMuteBot/cogs/moderation.py:39-42 | the filter decides each record on its own |
| MuteStore.WithoutAppend | SimpleMuteBot/cogs/moderation.py:67-71 | the filter distributes over concatenation, so survivors keep their relative order |
| MuteStore.WithoutAbsent | SimpleMuteBot/cogs/moderation.py:67-71 | a list without the key is left exactly as it is |
| MuteStore.RemoveAbsent | SimpleMuteBot/cogs/moderation.py:55-74 | removing a key no record carries changes nothing |
| MuteStore.RemoveIdempotent | SimpleMuteBot/cogs/moderation.py:55-74 | removing twice is removing once |
| MuteStore.AddThenRemove | SimpleMuteBot/cogs/moderation.py:30-74 | removing the key just added leaves what removing it alone would |
| MuteStore.AddTwice | SimpleMuteBot/cogs/moderation.py:30-53 | adding a key twice leaves only the second record |
| MuteStore.IntTextIsNotNone | SimpleMuteBot/cogs/moderation.py:41 | no guild id's text is "None", the text of a null guild |
| MuteStore.FilterScope | SimpleMuteBot/cogs/moderation.py:64-71 | with a guild given, a null-guild record survives; without one, every record of the user goes and every other user's stays |
| MuteStore.HasAnyRole | SimpleMuteBot/cogs/moderation.py:76-77 | true exactly when some role of the member has a listed id |
| MuteStore.FirstConventional | SimpleMuteBot/cogs/moderation.py:91-94 | the first text channel with a conventional lower-cased name where the bot can send, or none when there is none |
| MuteStore.GetLogChannel | SimpleMuteBot/cogs/moderation.py:79-99 | the configured text channel first; else the first conventional channel; else the system channel if the bot can send there; else none |
| MuteStore.FirstWithId | SimpleMuteBot/cogs/moderation.py:85-219 | the lookup behind `guild.get_channel(id)` (line 85) and `bot.get_guild(id)` (line 219): the found element is in the sequence and has the id; none means no element has it |
| MuteStore.FirstHolder | SimpleMuteBot/cogs/moderation.py:223-227 | the first guild, in the bot's order, that has the member |
| MuteStore.FindHolder | SimpleMuteBot/cogs/moderation.py:223-227 | the search loop returns that first guild and the user |
| MuteStore.FirstHolderAt | SimpleMuteBot/cogs/moderation.py:223-227 | a guild with the member, preceded by none, is the first holder |
| MuteStore.LookupTarget | SimpleMuteBot/cogs/moderation.py:215-227 | the member lookup returns what `Target` defines, including the failing `int()` conversions |
| MuteStore.ExpirePass | SimpleMuteBot/cogs/moderation.py:201-242 | the record loop yields what `ExpireAll` defines over the whole list |
| MuteStore.ExpireAllErrSticks | SimpleMuteBot/cogs/moderation.py:219-224 | an uncaught conversion error stops the pass for good |
| MuteStore.Unexpired | SimpleMuteBot/cogs/moderation.py:204-213 | holds exactly the records not yet expired |
| MuteStore.ExpiredRecords | SimpleMuteBot/cogs/moderation.py:211-240 | holds exactly the expired records |
| MuteStore.ReleasedRecords | SimpleMuteBot/cogs/moderation.py:229-240 | the records of the releases, one for one |
| MuteStore.ExpireSplits | SimpleMuteBot/cogs/moderation.py:204-242 | a pass keeps exactly the unexpired records and releases exactly the expired ones, in order, found member or not |
| MuteStore.TargetOk | SimpleMuteBot/cogs/moderation.py:218-227 | the lookup fails exactly when an id it converts does not convert |
| MuteStore.ExpireAllLast | SimpleMuteBot/cogs/moderation.py:204-240 | one more record fails the pass exactly when it is expired and its ids do not convert |
| MuteStore.ExpireFails | SimpleMuteBot/cogs/moderation.py:204-242 | the pass fails exactly when some expired record has an id that does not convert |
| MuteStore.UnparsedUntilKept | SimpleMuteBot/cogs/moderation.py:205-209 | a record whose end time is missing or unparsable is kept |
| MuteStore.ExpireAgain | SimpleMuteBot/cogs/moderation.py:204-242 | a second pass at the same time over the kept records keeps them all and releases nothing |
| MuteStore.OwnGuildOnly | SimpleMuteBot/cogs/moderation.py:218-221 | a record with a guild is looked up in that guild only |
| MuteStore.NoGuildFirstHolder | SimpleMuteBot/cogs/moderation.py:222-227 | a record without a guild releases the user in the first guild that has them |
| Language.LanguageManager.constructor | SimpleMuteBot/utils/language_manager.py:6-10 | the tables are those of the readable locale files; a missing directory gives none |
| Language.LanguageManager.LoadLanguages | SimpleMuteBot/utils/language_manager.py:12-23 | each file of valid JSON sets its code; files that are not valid JSON or fail to open are skipped; the default language is untouched |
| Language.LanguageManager.TryLanguage | SimpleMuteBot/utils/language_manager.py:29-33 | the descent loop returns the value the path reaches in the chosen table, or fails |
| Language.LanguageManager.Get | SimpleMuteBot/utils/language_manager.py:25-40 | returns the chosen language's value, else the default language's, else "[[key]]" |
| Language.LanguageManager.SetLanguage | SimpleMuteBot/utils/language_manager.py:42-46 | switches the default and answers true exactly when the code is loaded; otherwise nothing changes |
| Language.LoadLastWins | SimpleMuteBot/utils/language_manager.py:17-21 | a code holds the content of the last valid JSON file for it |
| Language.LoadKeepsOthers | SimpleMuteBot/utils/language_manager.py:17-23 | a code no valid JSON file names keeps its table, or stays absent |
| Language.WalkAppend | SimpleMuteBot/utils/language_manager.py:31-32 | descending along `a + b` is descending along `a`, then along `b` |
| Language.WalkNest | SimpleMuteBot/utils/language_manager.py:31-32 | a nested path reads the value stored at its end |
| Language.LookupFound | SimpleMuteBot/utils/language_manager.py:30-36 | a path found in the chosen language gives that value unchanged |
| Language.LookupNested | SimpleMuteBot/utils/language_manager.py:27-36 | the dotted key of a nested path reads the string at its end |
| Language.FallbackToDefault | SimpleMuteBot/utils/language_manager.py:30-39 | an unloaded language, or a path missing in it, gives the default language's answer |
| Language.MissingInDefault | SimpleMuteBot/utils/language_manager.py:37-40 | a path missing in the default language gives "[[key]]" |
| Language.UnloadedDefault | SimpleMuteBot/utils/language_manager.py:30 | with the default language not loaded, every key gives "[[key]]" |
| GuildConfig.ConfigManager.constructor | utils/config_manager.py:6-17 | a missing file, or one that is not valid JSON, loads as an empty object |
| GuildConfig.ConfigManager.SetGuildLanguage | utils/config_manager.py:23-27 | succeeds exactly when both levels are objects, and then holds the updated document; a failure changes nothing |
| GuildConfig.SetThenGet | utils/config_manager.py:23-30 | after a set the guild reads the language, and its entry holds nothing else |
| GuildConfig.SetKeepsOtherGuilds | utils/config_manager.py:26-30 | every other guild reads as before, the "ru" default included |
| GuildConfig.SetKeepsOtherFields | utils/config_manager.py:23-26 | only the "guilds" field of the document changes |
| GuildConfig.SetFails | utils/config_manager.py:23-26 | a set fails exactly when the document or its "guilds" field is not an object |
| GuildConfig.DefaultLanguage | utils/config_manager.py:29-30 | no "guilds" map, no entry for the guild, or no "language" field reads "ru" |
| AntiSpam.Newest | cogs/antispam.py:46 | the newest elements number the capacity, or all when fewer |
| AntiSpam.Push | cogs/antispam.py:167 | an append keeps the capacity and stays within it |
| AntiSpam.NewestPush | cogs/antispam.py:167 | trimming before or after an append gives the same window |
| AntiSpam.PushAllNewest | cogs/antispam.py:46-167 | a window fed values one by one holds the newest `capacity` of all it was given, oldest first |
| AntiSpam.FiresOnNewest | cogs/antispam.py:166-171 | a fresh window fires exactly when it has seen `threshold` messages and the oldest of the newest `threshold` is at most `span` seconds old |
| AntiSpam.StaleCapacity | cogs/antispam.py:46-169 | a threshold above a window's capacity never fires; one below it cannot fire once the window is full |
| AntiSpam.TrackWindow | cogs/antispam.py:46-167 | only the key's window changes; an existing window keeps its capacity, a new one takes the current threshold; the newest entry is `now` |
| AntiSpam.TrackBounded | cogs/antispam.py:166-167 | every window stays within its maxlen |
| AntiSpam.BotKeyInjective | cogs/antispam.py:208-209 | distinct bots get distinct windows |
| AntiSpam.TrackUserKeepsBots | cogs/antispam.py:166-209 | a human message leaves every bot window's capacity as made |
| AntiSpam.EmojiCount | cogs/antispam.py:184-185 | the count never exceeds the length |
| AntiSpam.EmojiCountAppend | cogs/antispam.py:185 | the count of a concatenation is the sum of the counts |
| AntiSpam.NoEmojiBelow | cogs/antispam.py:184-185 | ASCII and Cyrillic text counts no emoji |
| AntiSpam.TrackFiredFull | cogs/antispam.py:169-171 | a window that fires holds exactly `threshold` entries; firing does not clear it |
| AntiSpam.PlainHitStops | cogs/antispam.py:166-171 | plain spam ends the check: the mention and emoji windows are untouched |
| AntiSpam.MentionHitStops | cogs/antispam.py:174-181 | mention spam needs mentions and leaves the emoji window untouched |
| AntiSpam.EmojiHitFull | cogs/antispam.py:184-192 | emoji spam needs more than five emoji |
| AntiSpam.SpamStepSkips | cogs/antispam.py:174-188 | the mention window is appended only with mentions, the emoji window only with more than five emoji |
| AntiSpam.PlainSpamIff | cogs/antispam.py:166-171 | plain spam is decided by the user's plain window alone |
| AntiSpam.With | cogs/antispam.py:617-636 | exactly one threshold changes, to the given value |
| AntiSpam.CommandParamNames | cogs/antispam.py:620-639 | the chain recognises exactly the eight command names, one per threshold |
| AntiSpam.SaveWritesFileKeys | cogs/antispam.py:144-158 | saving writes each threshold under its file key, and no other key |
| AntiSpam.LoadReadsFileKeys | cogs/antispam.py:124-140 | loading reads each threshold from its file key, keeping the current value for a missing key |
| AntiSpam.LoadSaved | cogs/antispam.py:124-158 | what was saved loads back, whatever the thresholds were before |
| AntiSpam.StrippedLines | cogs/antispam.py:111 | never longer than the file |
| AntiSpam.LowerAll | cogs/antispam.py:121 | one entry per word |
| AntiSpam.DropWord | cogs/antispam.py:112 | never longer than the list |
| AntiSpam.NormaliseIdempotent | cogs/antispam.py:84-91 | a normalised word is its own normal form |
| AntiSpam.StrippedLineOrigin | cogs/antispam.py:111 | every stripped line comes from a non-blank line of the file |
| AntiSpam.StrippedLineOf | cogs/antispam.py:111 | every non-blank line is among the stripped lines |
| AntiSpam.LoadWordsSet | cogs/antispam.py:15-21 | the loaded list holds exactly the words of the file's normalised set |
| AntiSpam.DropWordMembers | cogs/antispam.py:112-113 | dropping keeps exactly the entries that do not lower-case to the word, and shortens the list exactly when one does |
| AntiSpam.WordSetAppend | cogs/antispam.py:95-98 | appending a normalised word adds exactly it to the file's set |
| AntiSpam.KeptWordOrigin | cogs/antispam.py:110-118 | a word of the rewritten file was in the file and is not the deleted one |
| AntiSpam.KeptWordOf | cogs/antispam.py:110-118 | every other word of the file survives the rewrite |
| AntiSpam.DelWordSet | cogs/antispam.py:110-118 | deleting removes exactly the word from the file's set |
| AntiSpam.DelWordShrinks | cogs/antispam.py:112-115 | the file shrinks exactly when its set held the word |
| AntiSpam.ListOf | cogs/antispam.py:100 | `list(set)` holds each element once and nothing else |
| AntiSpam.FirstMatchUnique | cogs/antispam.py:505-506 | the filter's answer is determined |
| AntiSpam.LowerContains | cogs/antispam.py:504-506 | lower-casing the text keeps every match of a lower-case word |
| AntiSpam.NotifySpacing | cogs/antispam.py:302-311 | after a notice of a kind, the next of that kind is allowed exactly when 30 seconds have passed |
| AntiSpam.NotifyKinds | cogs/antispam.py:302-311 | a refusal changes nothing, and one kind never delays another |
| AntiSpam.Recent | cogs/antispam.py:425 | never more recent actions than stored ones |
| AntiSpam.RecentAppend | cogs/antispam.py:425 | the recent actions of a concatenation are those of each part |
| AntiSpam.NukeCapacityTooSmall | cogs/antispam.py:51-427 | a nuke window made with a capacity below 2 can never alert |
| AntiSpam.TwoQuickActions | cogs/antispam.py:421-427 | two actions within the window, in a window with room for both, are both recent |
| AntiSpam.Punish | cogs/antispam.py:331-345 | ban exactly when the bot may ban and the call succeeds; kick exactly when it may only kick and the call succeeds; nothing when it may do neither |
| AntiSpam.AntiSpamCog.constructor | cogs/antispam.py:15-64 | blocked words from the file, thresholds from the settings file over the defaults, Wick whitelisted, every history empty |
| AntiSpam.AntiSpamCog.CheckSpam | cogs/antispam.py:160-194 | the verdict and the three window maps are those `SpamStep` defines; all windows stay bounded and bot windows keep capacity 3 |
| AntiSpam.AntiSpamCog.CanSendNotification | cogs/antispam.py:302-311 | the answer and the new cooldown map are those `Notify` defines |
| AntiSpam.AntiSpamCog.HandleWebhookSpam | cogs/antispam.py:221-300 | `WebhookHandled`: a processed id or a whitelisted owner stops it with no change; a failed delete aborts but still schedules the clear; otherwise the id is marked processed and the cooldown decides the notice |
| AntiSpam.AntiSpamCog.HandleBotSpam | cogs/antispam.py:313-382 | `BotHandled`: a processed id stops it; a failed delete aborts; otherwise the id is marked processed, the sanction is `Punish`'s choice, and the cooldown decides the notice |
| AntiSpam.WebhookHandledUnique | cogs/antispam.py:221-300 | webhook handling has one possible outcome and new state for given inputs |
| AntiSpam.BotHandledUnique | cogs/antispam.py:313-382 | bot handling has one possible outcome and new state for given inputs |
| AntiSpam.WebhookHandledOnce | cogs/antispam.py:221-300 | a removed webhook seen again before the clear stops at the processed check and changes nothing |
| AntiSpam.BotHandledOnce | cogs/antispam.py:313-382 | a punished bot seen again before the clear stops at the processed check and changes nothing |
| AntiSpam.BotThirdMessage | cogs/antispam.py:207-217 | a new bot's first two messages are quiet and its third fires exactly when it comes at most 5 seconds after the first; the bot window never raises |
| AntiSpam.AntiSpamCog.ClearProcessed | cogs/antispam.py:297-300 | the processed set is emptied |
| AntiSpam.AntiSpamCog.CheckBotWebhookSpam | cogs/antispam.py:196-219 | `BotOrWebhookChecked`: a webhook gets exactly the webhook handling (`WebhookHandled`) with no window touched; a bot message is appended to its "bot_<id>" window, made with capacity 3; when that window holds 3 entries within 5 seconds the bot gets exactly the bot handling (`BotHandled`), otherwise nothing else changes |
| AntiSpam.AntiSpamCog.CheckNukeActions | cogs/antispam.py:418-455 | `NukeChecked`: the action is appended to the actor's window; an alert goes out exactly when at least 2 recent actions exist and the actor is not alerted, and then the actor joins the alerted set |
| AntiSpam.AntiSpamCog.ResetNukeAlert | cogs/antispam.py:481-484 | only that actor leaves the alerted set |
| AntiSpam.AntiSpamCog.OnAuditEntry | cogs/antispam.py:542-568 | the bot's own actions and entries without an author are not counted and change nothing; any other entry gets exactly `NukeChecked`'s outcome and new state |
| AntiSpam.AntiSpamCog.OnEmojisUpdate | cogs/antispam.py:570-576 | a list that does not shrink changes nothing; a shrinking one is audited as an emoji deletion, with `OnAuditEntry`'s outcome and new state |
| AntiSpam.AntiSpamCog.SetSpamSettings | cogs/antispam.py:610-642 | a non-administrator is refused; a known lower-cased name changes exactly that threshold and saves; an unknown name changes and saves nothing |
| AntiSpam.AntiSpamCog.ManageWhitelist | cogs/antispam.py:671-721 | add and remove need a truthy bot id; add inserts it; remove deletes it when listed; nothing else changes the whitelist |
| AntiSpam.AntiSpamCog.AddWord | cogs/antispam.py:81-101 | an empty or listed word is refused with no change; otherwise it is appended to the file, the file's set gains exactly it, and the cache holds that set without duplicates |
| AntiSpam.AntiSpamCog.DelWord | cogs/antispam.py:103-122 | it succeeds exactly when the normalised word is listed; the file set then loses exactly that word and the cache is the lower-cased file; otherwise nothing changes |
| AntiSpam.AntiSpamCog.FindBlockedWord | cogs/antispam.py:505-506 | returns the first blocked word found in the text, or none when there is none |
| AntiSpam.AntiSpamCog.OnMessage | cogs/antispam.py:486-540 | own and vanished messages are ignored; the first blocked word is found on the lower-cased text; after a deleted blocked-word message a webhook gets `WebhookHandled` and a bot `BotHandled` with the message already gone; without one a human message goes through `SpamStep`, a bot message through `BotOrWebhookChecked`, and a webhook through `WebhookHandled`; human paths and failed deletes leave the processed set and cooldowns alone |

## Left out

- Discord calls are left out: sending, embeds, deleting messages and webhooks, timeouts, bans, kicks and `audit_logs` iteration. Their results are parameters and their effects are outcome values.
- File I/O and JSON decoding are left out. Stored data is in-memory sequences and maps. A missing file, or one that is not valid JSON, is a `None` input.
- A stored file that is not valid UTF-8 is not modelled. Reading it raises `UnicodeDecodeError`, which the loaders at SimpleMuteBot/cogs/moderation.py:33-37, SimpleMuteBot/utils/language_manager.py:19-23 and utils/config_manager.py:13-17 do not catch, so the bot stops with that error where the model has only valid text.
- The mute store's records are already decoded into typed records. A record whose fields are not strings, or a stored list that is not a list, is not modelled.
- Wall-clock float timestamps are not modelled. Time is whole seconds, and a mute's `until` is an already-parsed `Option<int>`. `strptime` is not modelled.
- The `asyncio` timers are left out. The 60-second wait of `cleanup_processed_webhooks` and the 300-second wait of `reset_nuke_alert` are explicit operations (`ClearProcessed`, `ResetNukeAlert`). The 0.5-second sleep in `check_bot_webhook_spam` and the interleaving of concurrent handlers are not modelled.
- `check_mutes_loop` is left out. Only one pass of its record loop is modelled.
- `check_expired_mutes` refers to an undefined `ctx` (SimpleMuteBot/cogs/moderation.py:193) and raises NameError before its loop whenever the file exists. The loop (201-242) is modelled on its own. The per-record log line and the timeout call's HTTPException are not modelled; neither changes which records are kept.
- `schedule_unmute` and `remove_scheduled_unmute` are called in `SimpleMuteBot/main.py` (359, 413) but defined nowhere. They are not part of this model, and neither are the `mute` and `unmute` commands that call them.
- `handle_spam`, the temporary mute given to a human spammer, is left out. So is the choice of the channel a notice or alert is sent to, and the admin ping. These are Discord calls; the model only records whether the cooldown let the notice through.
- `send_nuke_alert` is modelled only as far as its two outcomes: the user could not be resolved (no cooldown consulted), or the cooldown was consulted. The search for a guild that has the user is left out.
- `temp_mutes` and `webhook_cooldown` are never read. They are not modelled.
- `str.format` with keyword arguments in `LanguageManager.get` is not modelled. Neither is the module-level `get_text` wrapper.
- `format_duration` drops the fractional part of a `timedelta`'s seconds. The model takes whole seconds, and negative durations are rendered by the same arithmetic without further claims.
- `cmd_blocked_list`, `antispam_settings`, the `list` display of `manage_whitelist` and the `delwebhook` command only display or call Discord. Their text is not modelled.
- The administrator checks of `addword` and `delword` are made by the command framework's decorator. The model does not repeat them. `setspam` and `whitelist` check inside the handler, and those checks are modelled as `isAdmin`.
- The thresholds are module globals in the source. The model keeps them in the cog's `settings` field, because the cog is their only user.
- A settings file may store values that are not integers. Only integer values are modelled.
- Unicode handling is narrowed. `str.lower` is modelled for ASCII and the basic Cyrillic block only. `str.isspace` is modelled for Python's whitespace set. `int()` is modelled for ASCII digits only: Python also accepts every other Unicode decimal digit, so text such as a fullwidth "５m" or "５" (5 minutes in `parse_duration`, SimpleMuteBot/main.py:99 and 109) and a stored guild or user id written in such digits are rejected by the model where the source converts them.
- A webhook id of 0 is falsy in the source, so such a message is not treated as a webhook's. The model treats every present webhook id as a webhook.
- AntiSpam.AntiSpamCog.AddWord: models the word file as a sequence of lines. Appending a word always adds a line of its own, so a hand-edited file whose last line lacks a line break is not modelled. A word containing a line break is not modelled either.
- AntiSpam.AntiSpamCog.AddWord: `list(existing)` has an order Python leaves open. The contract states the elements and that they are distinct, not their order.
- AntiSpam.AntiSpamCog.DelWord: a missing word file is read as an empty one. Both give the same "not listed" outcome; the two reply texts are not distinguished.
- Language.LanguageManager.LoadLanguages: the order in which `glob` lists the locale files is taken as given, as a sequence.
