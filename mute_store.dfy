/** The moderation cog's mute store (a JSON list of mute records, abstracted
    to a sequence), its role test, its choice of log channel and the record
    loop of its expiry pass. */
module MuteStore {
  import opened Wrappers
  import opened PyStr

  /** One stored mute, as `add_mute_to_file` writes it. `until` is the
      already-parsed end time; `None` stands for a missing or unparsable
      field. `guildId` is `None` for a JSON null. */
  datatype MuteRecord = MuteRecord(
    userId: string,
    username: string,
    until: Option<int>,
    reason: string,
    guildId: Option<string>)

  /** `str(m.get('guild_id'))`: a JSON null reads back as Python's None,
      whose text is "None". */
  function GuildText(g: Option<string>): string {
    match g
    case None => "None"
    case Some(s) => s
  }

  /** The key both filters drop: the user id is equal and, when a guild is
      given, the record's guild text equals it. */
  predicate Matches(m: MuteRecord, userId: int, guildId: Option<int>) {
    && m.userId == IntToString(userId)
    && (guildId.None? || GuildText(m.guildId) == IntToString(guildId.value))
  }

  /** The stored list as loaded: `None` is a missing file or text that is
      not valid JSON, both read as the empty list. */
  function Loaded(stored: Option<seq<MuteRecord>>): (r: seq<MuteRecord>)
    ensures stored.None? ==> r == []
  {
    stored.GetOr([])
  }

  /** The list comprehension both filters use: the records that do not
      match, in their original order. */
  function Without(mutes: seq<MuteRecord>, userId: int, guildId: Option<int>): (r: seq<MuteRecord>)
    ensures |r| <= |mutes|
    ensures forall i :: 0 <= i < |r| ==> !Matches(r[i], userId, guildId)
  {
    if mutes == [] then []
    else if Matches(mutes[0], userId, guildId) then Without(mutes[1..], userId, guildId)
    else [mutes[0]] + Without(mutes[1..], userId, guildId)
  }

  /** The record `add_mute_to_file` appends. */
  function NewRecord(userId: int, username: string, until: Option<int>, reason: string, guildId: Option<int>): MuteRecord {
    MuteRecord(
      IntToString(userId), username, until, reason,
      if guildId.None? then None else Some(IntToString(guildId.value)))
  }

  /** `add_mute_to_file`: the list it writes back. */
  function AddMute(stored: Option<seq<MuteRecord>>, userId: int, username: string,
                   until: Option<int>, reason: string, guildId: Option<int>): (r: seq<MuteRecord>)
    ensures |r| >= 1 && r[|r| - 1] == NewRecord(userId, username, until, reason, guildId)
    ensures stored.None? ==> r == [NewRecord(userId, username, until, reason, guildId)]
  {
    Without(Loaded(stored), userId, guildId) + [NewRecord(userId, username, until, reason, guildId)]
  }

  /** `remove_mute_from_file`: the list it writes back. */
  function RemoveMute(stored: Option<seq<MuteRecord>>, userId: int, guildId: Option<int>): (r: seq<MuteRecord>)
    ensures forall m :: m in r <==> m in Loaded(stored) && !Matches(m, userId, guildId)
  {
    WithoutMembers(Loaded(stored), userId, guildId);
    Without(Loaded(stored), userId, guildId)
  }

  // ---------------------------------------------------------------------
  // Properties of the two filters

  /** The filter keeps exactly the records that do not match. */
  lemma {:induction false} WithoutMembers(mutes: seq<MuteRecord>, userId: int, guildId: Option<int>)
    ensures forall m :: m in Without(mutes, userId, guildId) <==> m in mutes && !Matches(m, userId, guildId)
  {
    if mutes != [] {
      WithoutMembers(mutes[1..], userId, guildId);
      assert forall m :: m in mutes <==> m == mutes[0] || m in mutes[1..];
    }
  }

  lemma NewRecordMatches(userId: int, username: string, until: Option<int>, reason: string, guildId: Option<int>)
    ensures Matches(NewRecord(userId, username, until, reason, guildId), userId, guildId)
  {
  }

  /** After an add, exactly one record carries the key: the last one, with
      the name, end time and reason given. */
  lemma AddMuteExactlyOne(stored: Option<seq<MuteRecord>>, userId: int, username: string,
                          until: Option<int>, reason: string, guildId: Option<int>)
    ensures var r := AddMute(stored, userId, username, until, reason, guildId);
      && (forall i :: 0 <= i < |r| ==> (Matches(r[i], userId, guildId) <==> i == |r| - 1))
      && r[|r| - 1].username == username && r[|r| - 1].until == until && r[|r| - 1].reason == reason
  {
    var w := Without(Loaded(stored), userId, guildId);
    var r := AddMute(stored, userId, username, until, reason, guildId);
    NewRecordMatches(userId, username, until, reason, guildId);
    forall i | 0 <= i < |r| - 1 ensures !Matches(r[i], userId, guildId) {
      assert r[i] == w[i];
      assert w[i] in w;
    }
  }

  lemma ConsAppend<T>(a: seq<T>, b: seq<T>)
    requires a != []
    ensures [a[0]] + a[1..] == a && [a[0]] + (a[1..] + b) == a + b
  {
  }

  lemma AppendAssoc<T>(a: seq<T>, b: seq<T>, c: seq<T>)
    ensures a + (b + c) == (a + b) + c
  {
  }

  lemma WithoutCons(x: MuteRecord, rest: seq<MuteRecord>, userId: int, guildId: Option<int>)
    ensures Without([x] + rest, userId, guildId)
            == (if Matches(x, userId, guildId) then [] else [x]) + Without(rest, userId, guildId)
  {
    assert ([x] + rest)[0] == x && ([x] + rest)[1..] == rest;
  }

  /** The filter keeps relative order: it distributes over concatenation. */
  lemma {:induction false} WithoutAppend(a: seq<MuteRecord>, b: seq<MuteRecord>, userId: int, guildId: Option<int>)
    ensures Without(a + b, userId, guildId) == Without(a, userId, guildId) + Without(b, userId, guildId)
  {
    if a == [] {
      assert a + b == b;
    } else {
      var x := a[0];
      var wa := Without(a[1..], userId, guildId);
      var wb := Without(b, userId, guildId);
      WithoutAppend(a[1..], b, userId, guildId);
      WithoutCons(x, a[1..] + b, userId, guildId);
      WithoutCons(x, a[1..], userId, guildId);
      ConsAppend(a, b);
      var h := if Matches(x, userId, guildId) then [] else [x];
      AppendAssoc(h, wa, wb);
    }
  }

  /** A list without the key is left exactly as it is. */
  lemma {:induction false} WithoutAbsent(mutes: seq<MuteRecord>, userId: int, guildId: Option<int>)
    requires forall i :: 0 <= i < |mutes| ==> !Matches(mutes[i], userId, guildId)
    ensures Without(mutes, userId, guildId) == mutes
  {
    if mutes != [] {
      WithoutAbsent(mutes[1..], userId, guildId);
    }
  }

  /** Removing a key that no record carries changes nothing. */
  lemma RemoveAbsent(mutes: seq<MuteRecord>, userId: int, guildId: Option<int>)
    requires forall i :: 0 <= i < |mutes| ==> !Matches(mutes[i], userId, guildId)
    ensures RemoveMute(Some(mutes), userId, guildId) == mutes
  {
    WithoutAbsent(mutes, userId, guildId);
  }

  /** Removing twice is removing once. */
  lemma RemoveIdempotent(stored: Option<seq<MuteRecord>>, userId: int, guildId: Option<int>)
    ensures var once := RemoveMute(stored, userId, guildId);
      RemoveMute(Some(once), userId, guildId) == once
  {
    var once := RemoveMute(stored, userId, guildId);
    forall i | 0 <= i < |once| ensures !Matches(once[i], userId, guildId) {
      assert once[i] in once;
    }
    RemoveAbsent(once, userId, guildId);
  }

  /** Removing the key just added leaves what removing it alone would. */
  lemma AddThenRemove(stored: Option<seq<MuteRecord>>, userId: int, username: string,
                      until: Option<int>, reason: string, guildId: Option<int>)
    ensures RemoveMute(Some(AddMute(stored, userId, username, until, reason, guildId)), userId, guildId)
            == RemoveMute(stored, userId, guildId)
  {
    var w := Without(Loaded(stored), userId, guildId);
    var rec := NewRecord(userId, username, until, reason, guildId);
    WithoutAppend(w, [rec], userId, guildId);
    RemoveIdempotent(stored, userId, guildId);
    NewRecordMatches(userId, username, until, reason, guildId);
    assert Without([rec], userId, guildId) == [];
  }

  /** Adding the same key twice leaves only the second record. */
  lemma AddTwice(stored: Option<seq<MuteRecord>>, userId: int,
                 name1: string, until1: Option<int>, reason1: string,
                 name2: string, until2: Option<int>, reason2: string, guildId: Option<int>)
    ensures AddMute(Some(AddMute(stored, userId, name1, until1, reason1, guildId)), userId, name2, until2, reason2, guildId)
            == AddMute(stored, userId, name2, until2, reason2, guildId)
  {
    AddThenRemove(stored, userId, name1, until1, reason1, guildId);
  }

  /** A guild id's text never reads "None". */
  lemma IntTextIsNotNone(g: int)
    ensures IntToString(g) != "None"
  {
    var s := IntToString(g);
    assert s[0] != 'N';
  }

  /** With a guild given, a record stored without a guild survives both
      filters, whoever its user is; without one, every record of the user
      goes. */
  lemma FilterScope(stored: Option<seq<MuteRecord>>, m: MuteRecord, userId: int, g: int)
    requires m in Loaded(stored)
    ensures m.guildId.None? ==> m in RemoveMute(stored, userId, Some(g))
    ensures m.userId == IntToString(userId) ==> m !in RemoveMute(stored, userId, None)
    ensures m.userId != IntToString(userId) ==> m in RemoveMute(stored, userId, None)
  {
    IntTextIsNotNone(g);
  }

  // ---------------------------------------------------------------------
  // has_any_role

  /** `has_any_role`: some role of the member has an id in `roleIds`. */
  function HasAnyRole(memberRoles: seq<int>, roleIds: seq<int>): (r: bool)
    ensures r <==> exists i :: 0 <= i < |memberRoles| && memberRoles[i] in roleIds
  {
    if memberRoles == [] then false
    else if memberRoles[0] in roleIds then true
    else
      var rest := HasAnyRole(memberRoles[1..], roleIds);
      assert forall i :: 1 <= i < |memberRoles| ==> memberRoles[i] == memberRoles[1..][i - 1];
      rest
  }

  // ---------------------------------------------------------------------
  // get_log_channel

  /** What the choice needs of a channel: its id, its name, whether it is a
      text channel and whether the bot may send there. */
  datatype Channel = Channel(id: int, name: string, isText: bool, botCanSend: bool)

  datatype Guild = Guild(channels: seq<Channel>, textChannels: seq<Channel>, systemChannel: Option<Channel>)

  /** The `LOG_CHANNEL_ID` attribute of the configuration module, if any. */
  datatype ConfigSetting = Unset | IntSetting(n: int) | TextSetting(s: string)

  const COMMON_NAMES: seq<string> := ["mod-logs", "moderation-logs", "logs", "modlogs", "audit-logs"]

  /** The first element of `xs` whose id is `id`: the lookup behind both
      `guild.get_channel(id)` and `bot.get_guild(id)`. */
  function FirstWithId<T>(xs: seq<T>, idOf: T -> int, id: int): (r: Option<T>)
    ensures r.Some? ==> r.value in xs && idOf(r.value) == id
    ensures r.None? ==> forall i :: 0 <= i < |xs| ==> idOf(xs[i]) != id
  {
    if xs == [] then None
    else if idOf(xs[0]) == id then Some(xs[0])
    else FirstWithId(xs[1..], idOf, id)
  }

  /** `guild.get_channel(id)`. */
  function ChannelById(chs: seq<Channel>, id: int): Option<Channel> {
    FirstWithId(chs, (ch: Channel) => ch.id, id)
  }

  /** The configured channel, when the setting is truthy, converts with
      `int()` and names a text channel of the guild; a failed conversion is
      swallowed. */
  function ConfiguredChannel(guild: Guild, setting: ConfigSetting): Option<Channel> {
    var id := match setting
      case Unset => None
      case IntSetting(n) => if n == 0 then None else Some(n)
      case TextSetting(s) => if s == "" then None else ParseInt(s);
    if id.None? then None
    else
      match ChannelById(guild.channels, id.value)
      case Some(ch) => if ch.isText then Some(ch) else None
      case None => None
  }

  predicate Conventional(ch: Channel) {
    Lower(ch.name) in COMMON_NAMES && ch.botCanSend
  }

  /** The first text channel with a conventional name where the bot can
      send. */
  function FirstConventional(chs: seq<Channel>): (r: Option<nat>)
    ensures r.Some? ==> r.value < |chs| && Conventional(chs[r.value])
    ensures r.Some? ==> forall i :: 0 <= i < r.value ==> !Conventional(chs[i])
    ensures r.None? ==> forall i :: 0 <= i < |chs| ==> !Conventional(chs[i])
  {
    if chs == [] then None
    else if Conventional(chs[0]) then Some(0)
    else
      match FirstConventional(chs[1..])
      case None => None
      case Some(k) => Some(k + 1)
  }

  /** `get_log_channel`: the configured text channel, else the first
      conventional log channel the bot can write to, else the system channel
      if the bot can write there, else none. */
  function GetLogChannel(guild: Guild, setting: ConfigSetting): (r: Option<Channel>)
    ensures ConfiguredChannel(guild, setting).Some? ==> r == ConfiguredChannel(guild, setting)
    ensures ConfiguredChannel(guild, setting).None? && (exists i :: 0 <= i < |guild.textChannels| && Conventional(guild.textChannels[i])) ==>
      exists k :: 0 <= k < |guild.textChannels| && r == Some(guild.textChannels[k]) && Conventional(guild.textChannels[k])
        && forall i :: 0 <= i < k ==> !Conventional(guild.textChannels[i])
    ensures ConfiguredChannel(guild, setting).None? && (forall i :: 0 <= i < |guild.textChannels| ==> !Conventional(guild.textChannels[i])) ==>
      r == if guild.systemChannel.Some? && guild.systemChannel.value.botCanSend then guild.systemChannel else None
  {
    var configured := ConfiguredChannel(guild, setting);
    if configured.Some? then configured
    else
      match FirstConventional(guild.textChannels)
      case Some(k) => Some(guild.textChannels[k])
      case None =>
        if guild.systemChannel.Some? && guild.systemChannel.value.botCanSend then guild.systemChannel
        else None
  }

  // ---------------------------------------------------------------------
  // The record loop of check_expired_mutes

  /** What the bot can see of a guild: its id and the ids of its members. */
  datatype GuildView = GuildView(id: int, members: set<int>)

  /** `int()` of a stored id failed: the exception is not caught, so the
      pass stops and nothing is written. */
  datatype PassError = BadGuildId(guildText: string) | BadUserId(userText: string)

  /** An expired record and the member whose timeout was lifted, as a
      (guild id, user id) pair, if one was found. */
  datatype Release = Release(record: MuteRecord, member: Option<(int, int)>)

  datatype PassOutcome = PassOutcome(kept: seq<MuteRecord>, released: seq<Release>)

  predicate Expired(m: MuteRecord, now: int) {
    m.until.Some? && m.until.value <= now
  }

  /** `bot.get_guild(id)`. */
  function GuildById(guilds: seq<GuildView>, id: int): Option<GuildView> {
    FirstWithId(guilds, (g: GuildView) => g.id, id)
  }

  /** The first guild, in the bot's order, that has the member. */
  function FirstHolder(guilds: seq<GuildView>, userId: int): (r: Option<nat>)
    ensures r.Some? ==> r.value < |guilds| && userId in guilds[r.value].members
    ensures r.Some? ==> forall i :: 0 <= i < r.value ==> userId !in guilds[i].members
    ensures r.None? ==> forall i :: 0 <= i < |guilds| ==> userId !in guilds[i].members
  {
    if guilds == [] then None
    else if userId in guilds[0].members then Some(0)
    else
      match FirstHolder(guilds[1..], userId)
      case None => None
      case Some(k) => Some(k + 1)
  }

  /** The search loop over `bot.guilds` for a record without a guild. */
  method FindHolder(guilds: seq<GuildView>, userId: int) returns (r: Option<(int, int)>)
    ensures r == match FirstHolder(guilds, userId)
                 case None => None
                 case Some(k) => Some((guilds[k].id, userId))
  {
    var i := 0;
    while i < |guilds|
      invariant 0 <= i <= |guilds|
      invariant forall j :: 0 <= j < i ==> userId !in guilds[j].members
    {
      if userId in guilds[i].members {
        FirstHolderAt(guilds, userId, i);
        return Some((guilds[i].id, userId));
      }
      i := i + 1;
    }
    return None;
  }

  lemma {:induction false} FirstHolderAt(guilds: seq<GuildView>, userId: int, k: nat)
    requires k < |guilds| && userId in guilds[k].members
    requires forall j :: 0 <= j < k ==> userId !in guilds[j].members
    ensures FirstHolder(guilds, userId) == Some(k)
  {
    if k > 0 {
      FirstHolderAt(guilds[1..], userId, k - 1);
    }
  }

  /** The member lookup for one expired record: the record's own guild when
      its guild text is non-empty, otherwise the first guild that has the
      user. */
  function Target(m: MuteRecord, guilds: seq<GuildView>): Result<Option<(int, int)>, PassError> {
    if m.guildId.Some? && m.guildId.value != "" then
      match ParseInt(m.guildId.value)
      case None => Err(BadGuildId(m.guildId.value))
      case Some(gid) =>
        match GuildById(guilds, gid)
        case None => Ok(None)
        case Some(g) =>
          match ParseInt(m.userId)
          case None => Err(BadUserId(m.userId))
          case Some(uid) => Ok(if uid in g.members then Some((gid, uid)) else None)
    else if guilds == [] then Ok(None)
    else
      match ParseInt(m.userId)
      case None => Err(BadUserId(m.userId))
      case Some(uid) =>
        match FirstHolder(guilds, uid)
        case None => Ok(None)
        case Some(k) => Ok(Some((guilds[k].id, uid)))
  }

  /** The pass over a list of records, defined on its prefixes: a record
      is kept unless it has a parsed end time not after `now`; an expired
      record is released, found member or not. */
  function ExpireAll(mutes: seq<MuteRecord>, now: int, guilds: seq<GuildView>): Result<PassOutcome, PassError> {
    if mutes == [] then Ok(PassOutcome([], []))
    else
      match ExpireAll(mutes[..|mutes| - 1], now, guilds)
      case Err(e) => Err(e)
      case Ok(o) =>
        var m := mutes[|mutes| - 1];
        if !Expired(m, now) then Ok(PassOutcome(o.kept + [m], o.released))
        else
          match Target(m, guilds)
          case Err(e) => Err(e)
          case Ok(t) => Ok(PassOutcome(o.kept, o.released + [Release(m, t)]))
  }

  /** The member lookup of the loop body. */
  method LookupTarget(m: MuteRecord, guilds: seq<GuildView>) returns (r: Result<Option<(int, int)>, PassError>)
    ensures r == Target(m, guilds)
  {
    if m.guildId.Some? && m.guildId.value != "" {
      var gid := ParseInt(m.guildId.value);
      if gid.None? {
        return Err(BadGuildId(m.guildId.value));
      }
      var g := GuildById(guilds, gid.value);
      if g.None? {
        return Ok(None);
      }
      var uid := ParseInt(m.userId);
      if uid.None? {
        return Err(BadUserId(m.userId));
      }
      return Ok(if uid.value in g.value.members then Some((gid.value, uid.value)) else None);
    }
    if guilds == [] {
      return Ok(None);
    }
    var uid := ParseInt(m.userId);
    if uid.None? {
      return Err(BadUserId(m.userId));
    }
    var found := FindHolder(guilds, uid.value);
    return Ok(found);
  }

  /** The record loop of `check_expired_mutes` (the file is read by `Loaded`
      and the kept list is what it writes back). */
  method ExpirePass(mutes: seq<MuteRecord>, now: int, guilds: seq<GuildView>) returns (r: Result<PassOutcome, PassError>)
    ensures r == ExpireAll(mutes, now, guilds)
  {
    var kept: seq<MuteRecord> := [];
    var released: seq<Release> := [];
    var i := 0;
    while i < |mutes|
      invariant 0 <= i <= |mutes|
      invariant ExpireAll(mutes[..i], now, guilds) == Ok(PassOutcome(kept, released))
    {
      var m := mutes[i];
      assert mutes[..i + 1][..i] == mutes[..i];
      if Expired(m, now) {
        var t := LookupTarget(m, guilds);
        if t.Err? {
          ExpireAllErrSticks(mutes, i + 1, now, guilds);
          return Err(t.error);
        }
        released := released + [Release(m, t.value)];
      } else {
        kept := kept + [m];
      }
      i := i + 1;
    }
    assert mutes[..i] == mutes;
    return Ok(PassOutcome(kept, released));
  }

  /** Once a prefix fails, the whole pass fails with the same error. */
  lemma {:induction false} ExpireAllErrSticks(mutes: seq<MuteRecord>, i: nat, now: int, guilds: seq<GuildView>)
    requires i <= |mutes| && ExpireAll(mutes[..i], now, guilds).Err?
    ensures ExpireAll(mutes, now, guilds) == ExpireAll(mutes[..i], now, guilds)
    decreases |mutes| - i
  {
    if i < |mutes| {
      assert mutes[..i + 1][..i] == mutes[..i];
      ExpireAllErrSticks(mutes, i + 1, now, guilds);
    } else {
      assert mutes[..i] == mutes;
    }
  }

  // ---------------------------------------------------------------------
  // Properties of the expiry pass

  /** The records the pass keeps: those not yet expired, in order. */
  function Unexpired(mutes: seq<MuteRecord>, now: int): (r: seq<MuteRecord>)
    ensures forall m :: m in r <==> m in mutes && !Expired(m, now)
  {
    if mutes == [] then []
    else
      var rest := Unexpired(mutes[..|mutes| - 1], now);
      var m := mutes[|mutes| - 1];
      assert mutes == mutes[..|mutes| - 1] + [m];
      if Expired(m, now) then rest else rest + [m]
  }

  /** The records the pass releases, in order. */
  function ExpiredRecords(mutes: seq<MuteRecord>, now: int): (r: seq<MuteRecord>)
    ensures forall m :: m in r <==> m in mutes && Expired(m, now)
  {
    if mutes == [] then []
    else
      var rest := ExpiredRecords(mutes[..|mutes| - 1], now);
      var m := mutes[|mutes| - 1];
      assert mutes == mutes[..|mutes| - 1] + [m];
      if Expired(m, now) then rest + [m] else rest
  }

  function ReleasedRecords(rs: seq<Release>): (r: seq<MuteRecord>)
    ensures |r| == |rs| && forall i :: 0 <= i < |rs| ==> r[i] == rs[i].record
  {
    seq(|rs|, i requires 0 <= i < |rs| => rs[i].record)
  }

  /** A successful pass keeps exactly the unexpired records and releases
      exactly the expired ones, each in its original order, whether or not
      their members were found. */
  lemma {:induction false} ExpireSplits(mutes: seq<MuteRecord>, now: int, guilds: seq<GuildView>)
    requires ExpireAll(mutes, now, guilds).Ok?
    ensures ExpireAll(mutes, now, guilds).value.kept == Unexpired(mutes, now)
    ensures ReleasedRecords(ExpireAll(mutes, now, guilds).value.released) == ExpiredRecords(mutes, now)
  {
    if mutes != [] {
      ExpireSplits(mutes[..|mutes| - 1], now, guilds);
    }
  }

  /** Every id the pass converts with `int()` converts. */
  predicate IdsConvert(m: MuteRecord, guilds: seq<GuildView>) {
    if m.guildId.Some? && m.guildId.value != "" then
      && ParseInt(m.guildId.value).Some?
      && (GuildById(guilds, ParseInt(m.guildId.value).value).Some? ==> ParseInt(m.userId).Some?)
    else guilds != [] ==> ParseInt(m.userId).Some?
  }

  lemma TargetOk(m: MuteRecord, guilds: seq<GuildView>)
    ensures Target(m, guilds).Ok? <==> IdsConvert(m, guilds)
  {
  }

  /** The pass fails exactly when some expired record has an id that does
      not convert. */
  lemma ExpireAllLast(mutes: seq<MuteRecord>, now: int, guilds: seq<GuildView>)
    requires mutes != []
    ensures ExpireAll(mutes, now, guilds).Ok? <==>
      && ExpireAll(mutes[..|mutes| - 1], now, guilds).Ok?
      && (Expired(mutes[|mutes| - 1], now) ==> IdsConvert(mutes[|mutes| - 1], guilds))
  {
    TargetOk(mutes[|mutes| - 1], guilds);
  }

  lemma {:induction false} ExpireFails(mutes: seq<MuteRecord>, now: int, guilds: seq<GuildView>)
    ensures ExpireAll(mutes, now, guilds).Ok? <==>
      forall i :: 0 <= i < |mutes| && Expired(mutes[i], now) ==> IdsConvert(mutes[i], guilds)
  {
    if mutes != [] {
      var init := mutes[..|mutes| - 1];
      ExpireFails(init, now, guilds);
      ExpireAllLast(mutes, now, guilds);
      ReleasableLast(mutes, now, guilds);
    }
  }

  /** Every expired record has ids that convert. */
  predicate Releasable(mutes: seq<MuteRecord>, now: int, guilds: seq<GuildView>) {
    forall i :: 0 <= i < |mutes| && Expired(mutes[i], now) ==> IdsConvert(mutes[i], guilds)
  }

  lemma ReleasableLast(mutes: seq<MuteRecord>, now: int, guilds: seq<GuildView>)
    requires mutes != []
    ensures Releasable(mutes, now, guilds) <==>
      Releasable(mutes[..|mutes| - 1], now, guilds) && (Expired(mutes[|mutes| - 1], now) ==> IdsConvert(mutes[|mutes| - 1], guilds))
  {
    assert forall i :: 0 <= i < |mutes| - 1 ==> mutes[..|mutes| - 1][i] == mutes[i];
  }

  /** Records that do not carry a parsed end time stay in the store. */
  lemma UnparsedUntilKept(mutes: seq<MuteRecord>, now: int, guilds: seq<GuildView>, m: MuteRecord)
    requires ExpireAll(mutes, now, guilds).Ok? && m in mutes && m.until.None?
    ensures m in ExpireAll(mutes, now, guilds).value.kept
  {
    ExpireSplits(mutes, now, guilds);
  }

  /** A second pass at the same time over what the first one kept releases
      nothing and keeps everything. */
  lemma {:induction false} ExpireAgain(mutes: seq<MuteRecord>, now: int, guilds: seq<GuildView>)
    requires forall i :: 0 <= i < |mutes| ==> !Expired(mutes[i], now)
    ensures ExpireAll(mutes, now, guilds) == Ok(PassOutcome(mutes, []))
  {
    if mutes != [] {
      var init := mutes[..|mutes| - 1];
      assert forall i :: 0 <= i < |init| ==> init[i] == mutes[i];
      ExpireAgain(init, now, guilds);
      assert init + [mutes[|mutes| - 1]] == mutes;
    }
  }

  /** A record with a guild is looked up in that guild only: when that
      guild is unknown or lacks the user, no member is found, even if another
      guild has the user. */
  lemma OwnGuildOnly(m: MuteRecord, guilds: seq<GuildView>, gid: int, uid: int)
    requires m.guildId == Some(IntToString(gid)) && m.userId == IntToString(uid)
    requires GuildById(guilds, gid).None? || uid !in GuildById(guilds, gid).value.members
    ensures Target(m, guilds) == Ok(None)
  {
    ParseIntOfIntToString(gid);
    ParseIntOfIntToString(uid);
  }

  /** A record without a guild releases the user in the first guild, in the
      bot's order, that has them. */
  lemma NoGuildFirstHolder(m: MuteRecord, guilds: seq<GuildView>, uid: int, k: nat)
    requires m.guildId.None? && m.userId == IntToString(uid)
    requires k < |guilds| && uid in guilds[k].members
    requires forall j :: 0 <= j < k ==> uid !in guilds[j].members
    ensures Target(m, guilds) == Ok(Some((guilds[k].id, uid)))
  {
    ParseIntOfIntToString(uid);
    FirstHolderAt(guilds, uid, k);
  }
}
