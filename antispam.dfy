/** `AntiSpamCog`: the anti-spam and anti-nuke engine. Each user has bounded
    windows of recent message times (a `deque` with a `maxlen`, created on
    first use by a `defaultdict`). Bots and webhooks are punished once per
    id. Notices are rate-limited per kind. Staff actions are counted per
    actor. There is also a blocked-word list and a bot whitelist, and the
    eight thresholds can be changed by command and kept in a settings file.
    Time is a whole number of seconds, supplied by the caller. */
module AntiSpam {
  import opened Wrappers
  import opened PyStr

  // ---------------------------------------------------------------------
  // Bounded windows

  /** A `deque(maxlen=capacity)`: the maxlen is fixed when the deque is
      made. */
  datatype Window<T> = Window(capacity: nat, items: seq<T>)

  predicate Bounded<T>(w: Window<T>) {
    |w.items| <= w.capacity
  }

  /** The newest `c` elements of `s`, or all of them when there are fewer. */
  function Newest<T>(s: seq<T>, c: nat): (r: seq<T>)
    ensures |r| == if |s| <= c then |s| else c
  {
    if |s| <= c then s else s[|s| - c..]
  }

  /** `append` on a deque with a maxlen: once the deque is full, the oldest
      element falls out. */
  function Push<T>(w: Window<T>, x: T): (r: Window<T>)
    ensures r.capacity == w.capacity && Bounded(r)
  {
    Window(w.capacity, Newest(w.items + [x], w.capacity))
  }

  /** The window after appending each of `xs` in turn. */
  function PushAll<T>(w: Window<T>, xs: seq<T>): Window<T> {
    if xs == [] then w else Push(PushAll(w, xs[..|xs| - 1]), xs[|xs| - 1])
  }

  lemma NewestPush<T>(s: seq<T>, c: nat, x: T)
    ensures Newest(Newest(s, c) + [x], c) == Newest(s + [x], c)
  {
    if |s| > c {
      assert (s[|s| - c..] + [x])[1..] == (s + [x])[|s| + 1 - c..];
    }
  }

  /** A window that has been given `xs` one by one holds the newest
      `capacity` values of everything it was given, oldest first. */
  lemma {:induction false} PushAllNewest<T>(w: Window<T>, xs: seq<T>)
    requires Bounded(w)
    ensures PushAll(w, xs) == Window(w.capacity, Newest(w.items + xs, w.capacity))
  {
    if xs == [] {
      assert w.items + xs == w.items;
    } else {
      var init := xs[..|xs| - 1];
      PushAllNewest(w, init);
      NewestPush(w.items + init, w.capacity, xs[|xs| - 1]);
      assert w.items + init + [xs[|xs| - 1]] == w.items + xs;
    }
  }

  /** What a window test can do: fire, stay quiet, or raise. */
  datatype Verdict = Fired | Quiet | Raised

  /** `len(h) == threshold and now - h[0] <= span`, asked right after `now`
      was appended. `Raised` is the IndexError of `h[0]` on an empty deque,
      which is reached when the threshold is 0. */
  function Judge(w: Window<int>, threshold: int, span: int, now: int): Verdict {
    if |w.items| != threshold then Quiet
    else if w.items == [] then Raised
    else if now - w.items[0] <= span then Fired
    else Quiet
  }

  /** `history[key].append(now)` on a `defaultdict` whose factory is
      `deque(maxlen=threshold)`, followed by the test. A negative threshold
      makes the factory raise ValueError, and then nothing is stored. */
  function Track<K>(history: map<K, Window<int>>, key: K, threshold: int, span: int, now: int): (Verdict, map<K, Window<int>>) {
    if key !in history && threshold < 0 then (Raised, history)
    else
      var w := Push(if key in history then history[key] else Window(threshold as nat, []), now);
      (Judge(w, threshold, span, now), history[key := w])
  }

  /** A fresh window with capacity `c` equal to the threshold, fed the times
      `ts` and then `now`, fires exactly when it has seen at least `c`
      messages and the `c`-th newest of them, counting this one, is at most
      `span` seconds old. */
  lemma FiresOnNewest(c: nat, span: int, ts: seq<int>, now: int)
    requires c >= 1
    ensures Judge(PushAll(Window(c, []), ts + [now]), c, span, now) == Fired
            <==> |ts| + 1 >= c && now - (ts + [now])[|ts| + 1 - c] <= span
  {
    PushAllNewest(Window(c, []), ts + [now]);
    assert [] + (ts + [now]) == ts + [now];
  }

  /** The capacity is fixed when a window is created. A later threshold
      above that capacity is never reached. A later threshold below it can
      no longer fire once the window is full. */
  lemma StaleCapacity(w: Window<int>, threshold: int, span: int, now: int)
    requires Bounded(w)
    ensures w.capacity < threshold ==> Judge(Push(w, now), threshold, span, now) == Quiet
    ensures threshold < w.capacity == |w.items| ==> Judge(Push(w, now), threshold, span, now) == Quiet
  {
  }

  /** `Track` appends to the window under `key` and nowhere else. It never
      resizes an existing window. A new window gets the threshold of the
      moment as its capacity. */
  lemma TrackWindow<K>(history: map<K, Window<int>>, key: K, threshold: int, span: int, now: int)
    requires key in history || threshold >= 0
    ensures var h := Track(history, key, threshold, span, now).1;
      && key in h
      && h[key].capacity == (if key in history then history[key].capacity else threshold)
      && (h[key].capacity > 0 ==> h[key].items[|h[key].items| - 1] == now)
      && (forall k :: k in history && k != key ==> k in h && h[k] == history[k])
      && (forall k :: k in h ==> k in history || k == key)
  {
  }

  predicate AllBounded<K, T>(m: map<K, Window<T>>) {
    forall k :: k in m ==> Bounded(m[k])
  }

  /** Tracking keeps every window of the map within its maxlen. */
  lemma TrackBounded<K>(history: map<K, Window<int>>, key: K, threshold: int, span: int, now: int)
    requires AllBounded(history)
    ensures AllBounded(Track(history, key, threshold, span, now).1)
  {
  }

  // ---------------------------------------------------------------------
  // Keys of the message windows

  /** `spam_history` holds human windows under the user's int id and bot
      windows under the string `"bot_<id>"`, so the two kinds never share
      a window. */
  datatype HistoryKey = UserKey(id: int) | NamedKey(name: string)

  function BotKey(botId: int): HistoryKey {
    NamedKey("bot_" + IntToString(botId))
  }

  /** Distinct bots get distinct windows. */
  lemma BotKeyInjective(a: int, b: int)
    requires BotKey(a) == BotKey(b)
    ensures a == b
  {
    var sa := "bot_" + IntToString(a);
    var sb := "bot_" + IntToString(b);
    assert sa[4..] == IntToString(a) && sb[4..] == IntToString(b);
    IntToStringInjective(a, b);
  }

  /** Every bot window has the capacity 3 it was made with. */
  predicate BotWindowsFixed(m: map<HistoryKey, Window<int>>) {
    forall k :: k in m && k.NamedKey? ==> m[k].capacity == BOT_WINDOW
  }

  /** A human message leaves the bot windows alone. */
  lemma TrackUserKeepsBots(history: map<HistoryKey, Window<int>>, userId: int, threshold: int, span: int, now: int)
    requires BotWindowsFixed(history)
    ensures BotWindowsFixed(Track(history, UserKey(userId), threshold, span, now).1)
  {
  }

  // ---------------------------------------------------------------------
  // Emoji count

  /** One of the code points of the fixed emoji string of `check_spam`. The
      frowning face there is U+2639 followed by U+FE0F, so U+FE0F counts on
      its own. */
  predicate IsEmoji(c: char) {
    || c == '\U{2639}' || c == '\U{FE0F}' || c == '\U{1F47B}' || ('\U{1F47D}' <= c <= '\U{1F47E}')
    || c == '\U{1F480}' || ('\U{1F600}' <= c <= '\U{1F607}') || ('\U{1F609}' <= c <= '\U{1F62B}')
    || ('\U{1F62D}' <= c <= '\U{1F643}') || ('\U{1F910}' <= c <= '\U{1F917}') || c == '\U{1F920}'
    || ('\U{1F922}' <= c <= '\U{1F925}') || ('\U{1F927}' <= c <= '\U{1F92F}')
    || ('\U{1F970}' <= c <= '\U{1F971}') || ('\U{1F973}' <= c <= '\U{1F976}') || c == '\U{1F97A}'
    || c == '\U{1F9D0}'
  }

  /** `len([c for c in content if c in emoji_chars])`. */
  function EmojiCount(s: string): (n: nat)
    ensures n <= |s|
  {
    if s == [] then 0 else EmojiCount(s[..|s| - 1]) + (if IsEmoji(s[|s| - 1]) then 1 else 0)
  }

  /** The count of a concatenation is the sum of the counts. */
  lemma {:induction false} EmojiCountAppend(a: string, b: string)
    ensures EmojiCount(a + b) == EmojiCount(a) + EmojiCount(b)
  {
    if b == [] {
      assert a + b == a;
    } else {
      EmojiCountAppend(a, b[..|b| - 1]);
      assert (a + b)[..|a + b| - 1] == a + b[..|b| - 1];
      assert (a + b)[|a + b| - 1] == b[|b| - 1];
    }
  }

  /** Text made only of code points below U+2639 (all of ASCII and
      Cyrillic) has no emoji. */
  lemma {:induction false} NoEmojiBelow(s: string)
    requires forall i :: 0 <= i < |s| ==> s[i] < '\U{2639}'
    ensures EmojiCount(s) == 0
  {
    if s != [] {
      NoEmojiBelow(s[..|s| - 1]);
    }
  }

  // ---------------------------------------------------------------------
  // The message check of `check_spam`

  datatype SpamVerdict = PlainSpam | MentionSpam | EmojiSpam | NoSpam | SpamRaised

  /** More than this many emoji puts a message in the emoji window. */
  const EMOJI_PER_MESSAGE := 5

  function Outcome(v: Verdict, fired: SpamVerdict): SpamVerdict {
    if v == Fired then fired else if v == Raised then SpamRaised else NoSpam
  }

  /** One human message. The plain, mention and emoji tests run in that
      order, and the first one that fires or raises ends the check. The
      result is the verdict and the three window maps afterwards. */
  function SpamStep(spam: map<HistoryKey, Window<int>>, mention: map<int, Window<int>>, emoji: map<int, Window<int>>,
                    s: Settings, userId: int, mentions: nat, content: string, now: int)
    : (SpamVerdict, map<HistoryKey, Window<int>>, map<int, Window<int>>, map<int, Window<int>>)
  {
    var (v1, spam1) := Track(spam, UserKey(userId), s.spamThreshold, s.spamWindow, now);
    if v1 != Quiet then (Outcome(v1, PlainSpam), spam1, mention, emoji)
    else
      var (v2, mention1) := if mentions > 0 then Track(mention, userId, s.mentionThreshold, s.mentionWindow, now) else (Quiet, mention);
      if v2 != Quiet then (Outcome(v2, MentionSpam), spam1, mention1, emoji)
      else
        var (v3, emoji1) := if EmojiCount(content) > EMOJI_PER_MESSAGE then Track(emoji, userId, s.emojiThreshold, s.emojiWindow, now) else (Quiet, emoji);
        (Outcome(v3, EmojiSpam), spam1, mention1, emoji1)
  }

  /** A test that fires leaves its window holding exactly `threshold`
      entries: firing does not clear it. */
  lemma TrackFiredFull<K>(history: map<K, Window<int>>, key: K, threshold: int, span: int, now: int)
    requires Track(history, key, threshold, span, now).0 == Fired
    ensures var h := Track(history, key, threshold, span, now).1;
      key in h && |h[key].items| == threshold
  {
  }

  /** A plain hit ends the check: neither the mention nor the emoji window
      is touched, and the plain window stays full. */
  lemma PlainHitStops(spam: map<HistoryKey, Window<int>>, mention: map<int, Window<int>>, emoji: map<int, Window<int>>,
                      s: Settings, userId: int, mentions: nat, content: string, now: int)
    requires SpamStep(spam, mention, emoji, s, userId, mentions, content, now).0 == PlainSpam
    ensures var (_, spam1, mention1, emoji1) := SpamStep(spam, mention, emoji, s, userId, mentions, content, now);
      && mention1 == mention && emoji1 == emoji
      && UserKey(userId) in spam1 && |spam1[UserKey(userId)].items| == s.spamThreshold
  {
    TrackFiredFull(spam, UserKey(userId), s.spamThreshold, s.spamWindow, now);
  }

  /** A mention hit needs mentions, leaves the emoji window alone, and
      leaves the mention window full. */
  lemma MentionHitStops(spam: map<HistoryKey, Window<int>>, mention: map<int, Window<int>>, emoji: map<int, Window<int>>,
                        s: Settings, userId: int, mentions: nat, content: string, now: int)
    requires SpamStep(spam, mention, emoji, s, userId, mentions, content, now).0 == MentionSpam
    ensures var (_, _, mention1, emoji1) := SpamStep(spam, mention, emoji, s, userId, mentions, content, now);
      && mentions > 0 && emoji1 == emoji
      && userId in mention1 && |mention1[userId].items| == s.mentionThreshold
  {
    TrackFiredFull(mention, userId, s.mentionThreshold, s.mentionWindow, now);
  }

  /** An emoji hit needs more than five emoji and leaves the emoji window
      full. */
  lemma EmojiHitFull(spam: map<HistoryKey, Window<int>>, mention: map<int, Window<int>>, emoji: map<int, Window<int>>,
                     s: Settings, userId: int, mentions: nat, content: string, now: int)
    requires SpamStep(spam, mention, emoji, s, userId, mentions, content, now).0 == EmojiSpam
    ensures var emoji1 := SpamStep(spam, mention, emoji, s, userId, mentions, content, now).3;
      && EmojiCount(content) > EMOJI_PER_MESSAGE
      && userId in emoji1 && |emoji1[userId].items| == s.emojiThreshold
  {
    TrackFiredFull(emoji, userId, s.emojiThreshold, s.emojiWindow, now);
  }

  /** The mention window is used only for a message with mentions, and the
      emoji window only for a message with more than five emoji. */
  lemma SpamStepSkips(spam: map<HistoryKey, Window<int>>, mention: map<int, Window<int>>, emoji: map<int, Window<int>>,
                      s: Settings, userId: int, mentions: nat, content: string, now: int)
    ensures var (v, spam1, mention1, emoji1) := SpamStep(spam, mention, emoji, s, userId, mentions, content, now);
      && (mentions == 0 ==> mention1 == mention)
      && (EmojiCount(content) <= EMOJI_PER_MESSAGE ==> emoji1 == emoji)
  {
  }

  /** Plain spam is decided by the user's plain window alone, whatever the
      message holds. */
  lemma PlainSpamIff(spam: map<HistoryKey, Window<int>>, mention: map<int, Window<int>>, emoji: map<int, Window<int>>,
                     s: Settings, userId: int, mentions: nat, content: string, now: int)
    ensures SpamStep(spam, mention, emoji, s, userId, mentions, content, now).0 == PlainSpam
            <==> Track(spam, UserKey(userId), s.spamThreshold, s.spamWindow, now).0 == Fired
  {
  }

  // ---------------------------------------------------------------------
  // Settings

  /** The eight module-level thresholds. */
  datatype Settings = Settings(spamThreshold: int, spamWindow: int,
                               mentionThreshold: int, mentionWindow: int,
                               emojiThreshold: int, emojiWindow: int,
                               nukeThreshold: int, nukeWindow: int)

  const DEFAULT_SETTINGS: Settings := Settings(5, 10, 5, 10, 10, 10, 3, 30)

  datatype Param = SpamThreshold | SpamWindow | MentionThreshold | MentionWindow
                 | EmojiThreshold | EmojiWindow | NukeThreshold | NukeWindow

  function Get(s: Settings, p: Param): int {
    match p
    case SpamThreshold => s.spamThreshold
    case SpamWindow => s.spamWindow
    case MentionThreshold => s.mentionThreshold
    case MentionWindow => s.mentionWindow
    case EmojiThreshold => s.emojiThreshold
    case EmojiWindow => s.emojiWindow
    case NukeThreshold => s.nukeThreshold
    case NukeWindow => s.nukeWindow
  }

  /** The settings with one threshold replaced. */
  function With(s: Settings, p: Param, v: int): (r: Settings)
    ensures Get(r, p) == v
    ensures forall q :: q != p ==> Get(r, q) == Get(s, q)
  {
    match p
    case SpamThreshold => s.(spamThreshold := v)
    case SpamWindow => s.(spamWindow := v)
    case MentionThreshold => s.(mentionThreshold := v)
    case MentionWindow => s.(mentionWindow := v)
    case EmojiThreshold => s.(emojiThreshold := v)
    case EmojiWindow => s.(emojiWindow := v)
    case NukeThreshold => s.(nukeThreshold := v)
    case NukeWindow => s.(nukeWindow := v)
  }

  /** The name `setspam` takes for each threshold. */
  function CommandName(p: Param): string {
    match p
    case SpamThreshold => "spam_threshold"
    case SpamWindow => "spam_window"
    case MentionThreshold => "mention_threshold"
    case MentionWindow => "mention_window"
    case EmojiThreshold => "emoji_threshold"
    case EmojiWindow => "emoji_window"
    case NukeThreshold => "nuke_threshold"
    case NukeWindow => "nuke_window"
  }

  /** The key the settings file stores each threshold under. */
  function FileKey(p: Param): string {
    match p
    case SpamThreshold => "spam_threshold"
    case SpamWindow => "spam_window"
    case MentionThreshold => "mention_spam_threshold"
    case MentionWindow => "mention_spam_window"
    case EmojiThreshold => "emoji_spam_threshold"
    case EmojiWindow => "emoji_spam_window"
    case NukeThreshold => "nuke_action_threshold"
    case NukeWindow => "nuke_action_window"
  }

  /** The if-chain of `set_spam_settings` on the lowercased name. */
  function CommandParam(name: string): Option<Param> {
    if name == "spam_threshold" then Some(SpamThreshold)
    else if name == "spam_window" then Some(SpamWindow)
    else if name == "mention_threshold" then Some(MentionThreshold)
    else if name == "mention_window" then Some(MentionWindow)
    else if name == "emoji_threshold" then Some(EmojiThreshold)
    else if name == "emoji_window" then Some(EmojiWindow)
    else if name == "nuke_threshold" then Some(NukeThreshold)
    else if name == "nuke_window" then Some(NukeWindow)
    else None
  }

  /** Every threshold has its own command name, and the chain recognises
      exactly those eight names. */
  lemma CommandParamNames(name: string, p: Param)
    ensures CommandParam(name) == Some(p) <==> name == CommandName(p)
  {
  }

  /** The object `save_settings` writes. */
  function SaveSettings(s: Settings): map<string, int> {
    map["spam_threshold" := s.spamThreshold, "spam_window" := s.spamWindow,
        "mention_spam_threshold" := s.mentionThreshold, "mention_spam_window" := s.mentionWindow,
        "emoji_spam_threshold" := s.emojiThreshold, "emoji_spam_window" := s.emojiWindow,
        "nuke_action_threshold" := s.nukeThreshold, "nuke_action_window" := s.nukeWindow]
  }

  function Pick(file: map<string, int>, key: string, current: int): int {
    if key in file then file[key] else current
  }

  /** `load_settings`: `settings.get(key, current)` for each key. `None` is
      a settings file that is missing, does not decode, or is not an
      object; the thresholds then stay as they are. */
  function LoadSettings(current: Settings, stored: Option<map<string, int>>): Settings {
    if stored.None? then current
    else
      var f := stored.value;
      Settings(Pick(f, "spam_threshold", current.spamThreshold), Pick(f, "spam_window", current.spamWindow),
               Pick(f, "mention_spam_threshold", current.mentionThreshold), Pick(f, "mention_spam_window", current.mentionWindow),
               Pick(f, "emoji_spam_threshold", current.emojiThreshold), Pick(f, "emoji_spam_window", current.emojiWindow),
               Pick(f, "nuke_action_threshold", current.nukeThreshold), Pick(f, "nuke_action_window", current.nukeWindow))
  }

  /** Saving writes one key per threshold, with that threshold's value, and
      no other key. */
  lemma SaveWritesFileKeys(s: Settings)
    ensures forall p :: FileKey(p) in SaveSettings(s) && SaveSettings(s)[FileKey(p)] == Get(s, p)
    ensures forall k :: k in SaveSettings(s) ==> exists p :: k == FileKey(p)
  {
    forall k | k in SaveSettings(s) ensures exists p :: k == FileKey(p) {
      if k == "spam_threshold" { assert k == FileKey(SpamThreshold); }
      else if k == "spam_window" { assert k == FileKey(SpamWindow); }
      else if k == "mention_spam_threshold" { assert k == FileKey(MentionThreshold); }
      else if k == "mention_spam_window" { assert k == FileKey(MentionWindow); }
      else if k == "emoji_spam_threshold" { assert k == FileKey(EmojiThreshold); }
      else if k == "emoji_spam_window" { assert k == FileKey(EmojiWindow); }
      else if k == "nuke_action_threshold" { assert k == FileKey(NukeThreshold); }
      else { assert k == FileKey(NukeWindow); }
    }
  }

  /** Loading reads each threshold from its own key and keeps the current
      value when the key is missing. */
  lemma LoadReadsFileKeys(current: Settings, file: map<string, int>, p: Param)
    ensures Get(LoadSettings(current, Some(file)), p)
            == if FileKey(p) in file then file[FileKey(p)] else Get(current, p)
  {
  }

  /** What was saved loads back, whatever the thresholds were before. */
  lemma LoadSaved(current: Settings, s: Settings)
    ensures LoadSettings(current, Some(SaveSettings(s))) == s
  {
  }

  // ---------------------------------------------------------------------
  // Blocked words

  /** `s.strip().lower()`: how every word is normalised. */
  function Normalise(s: string): string {
    Lower(Strip(s))
  }

  /** `[line.strip() for line in f if line.strip()]`. */
  function StrippedLines(lines: seq<string>): (r: seq<string>)
    ensures |r| <= |lines|
  {
    if lines == [] then []
    else
      var t := Strip(lines[|lines| - 1]);
      StrippedLines(lines[..|lines| - 1]) + (if t != "" then [t] else [])
  }

  function LowerAll(words: seq<string>): (r: seq<string>)
    ensures |r| == |words|
  {
    seq(|words|, i requires 0 <= i < |words| => Lower(words[i]))
  }

  /** `BLOCKED_WORDS` as loaded from the file's lines. */
  function LoadWords(lines: seq<string>): seq<string> {
    LowerAll(StrippedLines(lines))
  }

  /** The normalised words a file lists: `set(line.strip().lower() for line
      in f if line.strip())`. */
  function WordSet(lines: seq<string>): set<string> {
    set l | l in lines && Strip(l) != "" :: Lower(Strip(l))
  }

  /** `[w for w in words if w.lower() != word]`. */
  function DropWord(words: seq<string>, word: string): (r: seq<string>)
    ensures |r| <= |words|
  {
    if words == [] then []
    else
      var w := words[|words| - 1];
      DropWord(words[..|words| - 1], word) + (if Lower(w) != word then [w] else [])
  }

  predicate NoDuplicates(words: seq<string>) {
    forall i, j :: 0 <= i < j < |words| ==> words[i] != words[j]
  }

  lemma LowerCharIdempotent(c: char)
    ensures LowerChar(LowerChar(c)) == LowerChar(c)
    ensures IsSpace(LowerChar(c)) == IsSpace(c)
  {
  }

  /** A normalised word is its own normal form. */
  lemma NormaliseIdempotent(s: string)
    ensures Strip(Normalise(s)) == Normalise(s)
    ensures Lower(Normalise(s)) == Normalise(s)
  {
    var t := Strip(s);
    var n := Lower(t);
    if n != [] {
      LowerCharIdempotent(t[0]);
      LowerCharIdempotent(t[|t| - 1]);
    }
    StripKeeps(n);
    forall i | 0 <= i < |n| ensures LowerChar(n[i]) == n[i] {
      LowerCharIdempotent(t[i]);
    }
    LowerKeeps(n);
  }

  /** Every stripped line comes from a non-blank line of the file. */
  lemma {:induction false} StrippedLineOrigin(lines: seq<string>, w: string) returns (l: string)
    requires w in StrippedLines(lines)
    ensures l in lines && Strip(l) != "" && w == Strip(l)
  {
    var init := lines[..|lines| - 1];
    if w in StrippedLines(init) {
      l := StrippedLineOrigin(init, w);
    } else {
      l := lines[|lines| - 1];
    }
  }

  /** Every non-blank line of the file is among the stripped lines. */
  lemma {:induction false} StrippedLineOf(lines: seq<string>, l: string)
    requires l in lines && Strip(l) != ""
    ensures Strip(l) in StrippedLines(lines)
  {
    var init := lines[..|lines| - 1];
    if l != lines[|lines| - 1] {
      assert l in init;
      StrippedLineOf(init, l);
    }
  }

  /** The loaded list holds exactly the words of the file's set. */
  lemma LoadWordsSet(lines: seq<string>)
    ensures forall w :: w in LoadWords(lines) <==> w in WordSet(lines)
  {
    var st := StrippedLines(lines);
    forall w | w in LoadWords(lines) ensures w in WordSet(lines) {
      var i :| 0 <= i < |st| && LoadWords(lines)[i] == w;
      var l := StrippedLineOrigin(lines, st[i]);
      assert w == Lower(Strip(l));
    }
    forall w | w in WordSet(lines) ensures w in LoadWords(lines) {
      var l :| l in lines && Strip(l) != "" && w == Lower(Strip(l));
      StrippedLineOf(lines, l);
      var i :| 0 <= i < |st| && st[i] == Strip(l);
      assert LoadWords(lines)[i] == w;
    }
  }

  /** Dropping a word keeps exactly the entries that do not lowercase to
      it, and it shortens the list exactly when some entry does. */
  lemma {:induction false} DropWordMembers(words: seq<string>, word: string)
    ensures forall w :: w in DropWord(words, word) <==> w in words && Lower(w) != word
    ensures |DropWord(words, word)| == |words| <==> forall w :: w in words ==> Lower(w) != word
  {
    if words != [] {
      var init := words[..|words| - 1];
      DropWordMembers(init, word);
      assert words == init + [words[|words| - 1]];
    }
  }

  /** Appending a word to the file adds its normal form to the file's set. */
  lemma WordSetAppend(lines: seq<string>, word: string)
    requires word != "" && Normalise(word) == word
    ensures WordSet(lines + [word]) == WordSet(lines) + {word}
  {
    NormaliseIdempotent(word);
    assert Strip(word) == word;
    var all := lines + [word];
    assert word in all;
    forall w | w in WordSet(lines) ensures w in WordSet(all) {
      var l :| l in lines && Strip(l) != "" && w == Lower(Strip(l));
      assert l in all;
    }
    forall w | w in WordSet(all) && w != word ensures w in WordSet(lines) {
      var l :| l in all && Strip(l) != "" && w == Lower(Strip(l));
      assert l != word;
      assert l in lines;
    }
  }

  lemma KeptWordOrigin(lines: seq<string>, word: string, w: string)
    requires w in WordSet(DropWord(StrippedLines(lines), word))
    ensures w in WordSet(lines) && w != word
  {
    var kept := DropWord(StrippedLines(lines), word);
    DropWordMembers(StrippedLines(lines), word);
    var k :| k in kept && Strip(k) != "" && w == Lower(Strip(k));
    var l := StrippedLineOrigin(lines, k);
    StripKeeps(k);
  }

  lemma KeptWordOf(lines: seq<string>, word: string, w: string)
    requires w in WordSet(lines) && w != word
    ensures w in WordSet(DropWord(StrippedLines(lines), word))
  {
    var kept := DropWord(StrippedLines(lines), word);
    DropWordMembers(StrippedLines(lines), word);
    var l :| l in lines && Strip(l) != "" && w == Lower(Strip(l));
    var k := Strip(l);
    StrippedLineOf(lines, l);
    StripKeeps(k);
    assert k in kept;
  }

  /** Deleting `word` from the file removes exactly `word` from its set. */
  lemma DelWordSet(lines: seq<string>, word: string)
    ensures WordSet(DropWord(StrippedLines(lines), word)) == WordSet(lines) - {word}
  {
    forall w | w in WordSet(DropWord(StrippedLines(lines), word)) ensures w in WordSet(lines) - {word} {
      KeptWordOrigin(lines, word, w);
    }
    forall w | w in WordSet(lines) - {word} ensures w in WordSet(DropWord(StrippedLines(lines), word)) {
      KeptWordOf(lines, word, w);
    }
  }

  /** The file changes exactly when its set held `word`. */
  lemma DelWordShrinks(lines: seq<string>, word: string)
    ensures |DropWord(StrippedLines(lines), word)| < |StrippedLines(lines)| <==> word in WordSet(lines)
  {
    var st := StrippedLines(lines);
    DropWordMembers(st, word);
    if word in WordSet(lines) {
      var l :| l in lines && Strip(l) != "" && word == Lower(Strip(l));
      StrippedLineOf(lines, l);
    } else {
      forall w | w in st ensures Lower(w) != word {
        var l := StrippedLineOrigin(lines, w);
      }
    }
  }

  /** `list(s)`: the elements of a set, each once, in no particular order. */
  method ListOf(s: set<string>) returns (r: seq<string>)
    ensures NoDuplicates(r)
    ensures forall w :: w in r <==> w in s
  {
    r := [];
    var rest := s;
    while rest != {}
      invariant rest <= s
      invariant NoDuplicates(r)
      invariant forall w :: w in r ==> w in s && w !in rest
      invariant forall w :: w in s ==> w in r || w in rest
      decreases |rest|
    {
      var w :| w in rest;
      r := r + [w];
      rest := rest - {w};
    }
  }

  /** The blocked-word filter: `i` is the first word of `words` found in
      `text`, or `None` when there is none. */
  predicate FirstMatch(words: seq<string>, text: string, i: Option<nat>) {
    match i
    case Some(k) => k < |words| && Contains(text, words[k]) && forall j :: 0 <= j < k ==> !Contains(text, words[j])
    case None => forall j :: 0 <= j < |words| ==> !Contains(text, words[j])
  }

  /** The filter's answer is determined. */
  lemma FirstMatchUnique(words: seq<string>, text: string, a: Option<nat>, b: Option<nat>)
    requires FirstMatch(words, text, a) && FirstMatch(words, text, b)
    ensures a == b
  {
  }

  /** Lowercasing the text keeps every match of a lowercase word, so the
      filter catches a word in any letter case. */
  lemma {:induction false} LowerContains(text: string, word: string)
    requires Lower(word) == word && Contains(text, word)
    ensures Contains(Lower(text), word)
  {
    if StartsWith(text, word) {
      assert Lower(text)[..|word|] == Lower(text[..|word|]);
    } else {
      LowerContains(text[1..], word);
      assert Lower(text)[1..] == Lower(text[1..]);
    }
  }

  // ---------------------------------------------------------------------
  // Notification cooldown

  datatype Notice = WebhookSpamNotice | BotSpamNotice | NukeAlertNotice

  const NOTIFICATION_DELAY := 30

  /** `can_send_notification`: an unseen kind counts as last sent at 0. */
  function Notify(last: map<Notice, int>, kind: Notice, now: int): (bool, map<Notice, int>) {
    var prev := if kind in last then last[kind] else 0;
    if now - prev < NOTIFICATION_DELAY then (false, last) else (true, last[kind := now])
  }

  /** After a notice of a kind goes out, the next one of that kind is
      allowed exactly when at least 30 seconds have passed. */
  lemma NotifySpacing(last: map<Notice, int>, kind: Notice, t1: int, t2: int)
    requires Notify(last, kind, t1).0
    ensures Notify(Notify(last, kind, t1).1, kind, t2).0 <==> t2 - t1 >= NOTIFICATION_DELAY
  {
  }

  /** A refusal changes nothing, and a notice of one kind does not delay
      the other kinds. */
  lemma NotifyKinds(last: map<Notice, int>, kind: Notice, other: Notice, t1: int, t2: int)
    requires other != kind
    ensures !Notify(last, kind, t1).0 ==> Notify(last, kind, t1).1 == last
    ensures Notify(Notify(last, kind, t1).1, other, t2) .0 == Notify(last, other, t2).0
  {
  }

  // ---------------------------------------------------------------------
  // Anti-nuke

  datatype NukeKind = BanAction | KickAction | ChannelDeleteAction | RoleDeleteAction | EmojiDeleteAction

  const NUKE_ALERT_THRESHOLD := 2

  /** `[action for ts, action in history if now - ts <= span]`. */
  function Recent(items: seq<(int, NukeKind)>, now: int, span: int): (r: seq<NukeKind>)
    ensures |r| <= |items|
  {
    if items == [] then []
    else
      var last := items[|items| - 1];
      Recent(items[..|items| - 1], now, span) + (if now - last.0 <= span then [last.1] else [])
  }

  /** The recent actions of a concatenation are those of each part. */
  lemma {:induction false} RecentAppend(a: seq<(int, NukeKind)>, b: seq<(int, NukeKind)>, now: int, span: int)
    ensures Recent(a + b, now, span) == Recent(a, now, span) + Recent(b, now, span)
  {
    if b == [] {
      assert a + b == a;
    } else {
      RecentAppend(a, b[..|b| - 1], now, span);
      assert (a + b)[..|a + b| - 1] == a + b[..|b| - 1];
      assert (a + b)[|a + b| - 1] == b[|b| - 1];
    }
  }

  /** A nuke window made with a capacity below 2 can never hold enough
      actions for an alert. */
  lemma NukeCapacityTooSmall(w: Window<(int, NukeKind)>, x: (int, NukeKind), now: int, span: int)
    requires w.capacity < NUKE_ALERT_THRESHOLD
    ensures |Recent(Push(w, x).items, now, span)| < NUKE_ALERT_THRESHOLD
  {
  }

  /** Two actions `span` seconds apart or less, in a fresh window with room
      for both, are both recent when the second one happens. */
  lemma TwoQuickActions(c: nat, span: int, t1: int, k1: NukeKind, t2: int, k2: NukeKind)
    requires c >= 2 && 0 <= t2 - t1 <= span && span >= 0
    ensures Recent(Push(Push(Window(c, []), (t1, k1)), (t2, k2)).items, t2, span) == [k1, k2]
  {
    var items := Push(Push(Window(c, []), (t1, k1)), (t2, k2)).items;
    assert items == [(t1, k1), (t2, k2)];
    assert items[..1] == [(t1, k1)];
  }

  // ---------------------------------------------------------------------
  // Outcomes of the handlers

  /** What `message.delete()` did. Only `DeleteFailed`, an error other than
      NotFound or Forbidden, stops a handler. */
  datatype DeleteResult = Deleted | AlreadyGone | DeleteForbidden | DeleteFailed

  /** The error a ban or kick call raised. */
  datatype PunishFault = MemberNotFound | PunishError

  datatype Sanction = Banned | Kicked | NotPermitted | AlreadyLeft | PunishFailed

  /** What Discord answers to the calls the handlers make. */
  datatype Api = Api(deleted: DeleteResult, webhookOwner: Option<int>, canBan: bool, canKick: bool,
                     punishFault: Option<PunishFault>)

  datatype WebhookOutcome = WebhookAlreadyProcessed | OwnerWhitelisted | WebhookAborted | WebhookRemoved(notified: bool)

  datatype BotOutcome = BotAlreadyProcessed | BotAborted | BotPunished(sanction: Sanction, notified: bool)

  /** The ban-or-kick choice: ban when the bot may ban, else kick when it
      may kick, else nothing. A fault of the call replaces the result. */
  function Punish(canBan: bool, canKick: bool, fault: Option<PunishFault>): (r: Sanction)
    ensures r == Banned <==> canBan && fault.None?
    ensures r == Kicked <==> !canBan && canKick && fault.None?
    ensures r == NotPermitted <==> !canBan && !canKick
  {
    if !canBan && !canKick then NotPermitted
    else
      match fault
      case None => if canBan then Banned else Kicked
      case Some(MemberNotFound) => AlreadyLeft
      case Some(PunishError) => PunishFailed
  }

  datatype NukeOutcome = NukeRaised | NoAlert | Alerted(actions: seq<NukeKind>, notified: bool)

  datatype SettingOutcome = SettingRefused | UnknownSetting | SettingChanged(param: Param)

  datatype WhitelistOutcome = WhitelistRefused | WhitelistShown | BotAdded | BotRemoved | BotNotListed | WhitelistUsage

  datatype AddOutcome = EmptyWord | AlreadyListed | WordAdded(word: string)

  datatype DelOutcome = WordNotListed | WordRemoved(word: string)

  /** A message as the listener sees it. `webhookId` is `None` for a
      message not sent through a webhook. */
  datatype Message = Message(authorId: int, authorIsBot: bool, webhookId: Option<int>, content: string, mentions: nat)

  /** What the listener did with a message. */
  datatype Action =
    | Ignored
    | Vanished
    | WordDeleteFailed
    | UserWarned
    | WebhookAction(webhook: WebhookOutcome, cleanup: bool)
    | BotAction(bot: BotOutcome)
    | BotQuiet
    | SpamAction(verdict: SpamVerdict)

  datatype Reaction = Reaction(blockedWord: Option<nat>, action: Action)

  /** The bot whose webhooks are never removed. */
  const WICK_BOT_ID := 536991182035746816

  /** The bot-window rule: 3 messages within 5 seconds. */
  const BOT_WINDOW := 3
  const BOT_SPAN := 5

  // ---------------------------------------------------------------------
  // What the handlers promise, as relations between the state before
  // (`p0`, `n0`, ...) and after (`p1`, `n1`, ...) a call

  /** `handle_webhook_spam`: a processed webhook or a whitelisted owner
      stops it with no change; a failed delete aborts, yet the 60 second
      clear (`cleanup`) is still scheduled; otherwise the id is marked
      processed and the cooldown decides the notice. */
  predicate WebhookHandled(p0: set<int>, n0: map<Notice, int>, whitelisted: set<int>, webhookId: int,
                           owner: Option<int>, deleted: DeleteResult, now: int,
                           o: WebhookOutcome, cleanup: bool, p1: set<int>, n1: map<Notice, int>)
  {
    && (webhookId in p0 ==> o == WebhookAlreadyProcessed && !cleanup && p1 == p0 && n1 == n0)
    && (webhookId !in p0 && owner.Some? && owner.value in whitelisted ==>
          o == OwnerWhitelisted && !cleanup && p1 == p0 && n1 == n0)
    && (webhookId !in p0 && !(owner.Some? && owner.value in whitelisted) ==>
          && cleanup
          && (deleted == DeleteFailed ==> o == WebhookAborted && p1 == p0 && n1 == n0)
          && (deleted != DeleteFailed ==>
                && p1 == p0 + {webhookId}
                && o.WebhookRemoved?
                && (o.notified, n1) == Notify(n0, WebhookSpamNotice, now)))
  }

  /** `handle_bot_spam`: a processed bot stops it; a failed delete aborts;
      otherwise the bot is marked processed, the sanction is `Punish`'s and
      the cooldown decides the notice. */
  predicate BotHandled(p0: set<int>, n0: map<Notice, int>, botId: int, deleted: DeleteResult,
                       canBan: bool, canKick: bool, fault: Option<PunishFault>, now: int,
                       o: BotOutcome, p1: set<int>, n1: map<Notice, int>)
  {
    && (botId in p0 ==> o == BotAlreadyProcessed && p1 == p0 && n1 == n0)
    && (botId !in p0 && deleted == DeleteFailed ==> o == BotAborted && p1 == p0 && n1 == n0)
    && (botId !in p0 && deleted != DeleteFailed ==>
          && p1 == p0 + {botId}
          && o.BotPunished?
          && o.sanction == Punish(canBan, canKick, fault)
          && (o.notified, n1) == Notify(n0, BotSpamNotice, now))
  }

  /** `check_bot_webhook_spam`: a webhook message goes straight to webhook
      handling; a bot message is tracked in its "bot_<id>" window, made with
      room for 3, and is handled as bot spam exactly when that window fires
      on 3 messages within 5 seconds. */
  predicate BotOrWebhookChecked(h0: map<HistoryKey, Window<int>>, p0: set<int>, n0: map<Notice, int>,
                                whitelisted: set<int>, authorId: int, webhookId: Option<int>, api: Api, now: int,
                                a: Action, h1: map<HistoryKey, Window<int>>, p1: set<int>, n1: map<Notice, int>)
  {
    if webhookId.Some? then
      && h1 == h0
      && a.WebhookAction?
      && WebhookHandled(p0, n0, whitelisted, webhookId.value, api.webhookOwner, api.deleted, now, a.webhook, a.cleanup, p1, n1)
    else
      var t := Track(h0, BotKey(authorId), BOT_WINDOW, BOT_SPAN, now);
      && h1 == t.1
      && (t.0 == Fired ==>
            a.BotAction?
            && BotHandled(p0, n0, authorId, api.deleted, api.canBan, api.canKick, api.punishFault, now, a.bot, p1, n1))
      && (t.0 != Fired ==> a == BotQuiet && p1 == p0 && n1 == n0)
  }

  /** `check_nuke_actions`: the action is appended to the actor's window,
      whose capacity is the threshold at its creation (a negative one raises
      and changes nothing); an alert goes out exactly when the window holds
      at least 2 recent actions and the actor is not alerted yet; the notice
      needs the actor's user and then the cooldown. */
  predicate NukeChecked(h0: map<int, Window<(int, NukeKind)>>, a0: set<int>, n0: map<Notice, int>, s: Settings,
                        actor: int, kind: NukeKind, now: int, actorKnown: bool,
                        o: NukeOutcome, h1: map<int, Window<(int, NukeKind)>>, a1: set<int>, n1: map<Notice, int>)
  {
    if actor !in h0 && s.nukeThreshold < 0 then
      o == NukeRaised && h1 == h0 && a1 == a0 && n1 == n0
    else
      var w := Push(if actor in h0 then h0[actor] else Window(s.nukeThreshold as nat, []), (now, kind));
      var recent := Recent(w.items, now, s.nukeWindow);
      && h1 == h0[actor := w]
      && (o.Alerted? <==> |recent| >= NUKE_ALERT_THRESHOLD && actor !in a0)
      && (o.Alerted? ==> o.actions == recent && a1 == a0 + {actor}
                         && (actorKnown ==> (o.notified, n1) == Notify(n0, NukeAlertNotice, now))
                         && (!actorKnown ==> !o.notified && n1 == n0))
      && (!o.Alerted? ==> o == NoAlert && a1 == a0 && n1 == n0)
  }

  /** The relations are functional: a call has one possible result. */
  lemma WebhookHandledUnique(p0: set<int>, n0: map<Notice, int>, whitelisted: set<int>, webhookId: int,
                             owner: Option<int>, deleted: DeleteResult, now: int,
                             o: WebhookOutcome, cleanup: bool, p1: set<int>, n1: map<Notice, int>,
                             o': WebhookOutcome, cleanup': bool, p1': set<int>, n1': map<Notice, int>)
    requires WebhookHandled(p0, n0, whitelisted, webhookId, owner, deleted, now, o, cleanup, p1, n1)
    requires WebhookHandled(p0, n0, whitelisted, webhookId, owner, deleted, now, o', cleanup', p1', n1')
    ensures o == o' && cleanup == cleanup' && p1 == p1' && n1 == n1'
  {
  }

  lemma BotHandledUnique(p0: set<int>, n0: map<Notice, int>, botId: int, deleted: DeleteResult,
                         canBan: bool, canKick: bool, fault: Option<PunishFault>, now: int,
                         o: BotOutcome, p1: set<int>, n1: map<Notice, int>,
                         o': BotOutcome, p1': set<int>, n1': map<Notice, int>)
    requires BotHandled(p0, n0, botId, deleted, canBan, canKick, fault, now, o, p1, n1)
    requires BotHandled(p0, n0, botId, deleted, canBan, canKick, fault, now, o', p1', n1')
    ensures o == o' && p1 == p1' && n1 == n1'
  {
  }

  /** A removed webhook is handled once: the same id coming again, before
      the clear, stops at the processed check and changes nothing. */
  lemma WebhookHandledOnce(p0: set<int>, n0: map<Notice, int>, whitelisted: set<int>, webhookId: int,
                           owner: Option<int>, deleted: DeleteResult, now: int,
                           o: WebhookOutcome, cleanup: bool, p1: set<int>, n1: map<Notice, int>,
                           owner': Option<int>, deleted': DeleteResult, now': int,
                           o': WebhookOutcome, cleanup': bool, p2: set<int>, n2: map<Notice, int>)
    requires WebhookHandled(p0, n0, whitelisted, webhookId, owner, deleted, now, o, cleanup, p1, n1)
    requires o.WebhookRemoved?
    requires WebhookHandled(p1, n1, whitelisted, webhookId, owner', deleted', now', o', cleanup', p2, n2)
    ensures o' == WebhookAlreadyProcessed && !cleanup' && p2 == p1 && n2 == n1
  {
  }

  /** A punished bot is handled once: its next burst, before the clear,
      stops at the processed check and changes nothing. */
  lemma BotHandledOnce(p0: set<int>, n0: map<Notice, int>, botId: int, deleted: DeleteResult,
                       canBan: bool, canKick: bool, fault: Option<PunishFault>, now: int,
                       o: BotOutcome, p1: set<int>, n1: map<Notice, int>,
                       deleted': DeleteResult, canBan': bool, canKick': bool, fault': Option<PunishFault>, now': int,
                       o': BotOutcome, p2: set<int>, n2: map<Notice, int>)
    requires BotHandled(p0, n0, botId, deleted, canBan, canKick, fault, now, o, p1, n1)
    requires o.BotPunished?
    requires BotHandled(p1, n1, botId, deleted', canBan', canKick', fault', now', o', p2, n2)
    ensures o' == BotAlreadyProcessed && p2 == p1 && n2 == n1
  {
  }

  /** The bot window never raises, and a bot's first three messages fire
      exactly on the third, when it comes at most 5 seconds after the
      first. */
  lemma BotThirdMessage(h: map<HistoryKey, Window<int>>, botId: int, t1: int, t2: int, t3: int)
    requires BotKey(botId) !in h
    ensures var r1 := Track(h, BotKey(botId), BOT_WINDOW, BOT_SPAN, t1);
      var r2 := Track(r1.1, BotKey(botId), BOT_WINDOW, BOT_SPAN, t2);
      var r3 := Track(r2.1, BotKey(botId), BOT_WINDOW, BOT_SPAN, t3);
      && r1.0 == Quiet && r2.0 == Quiet
      && (r3.0 == Fired <==> t3 - t1 <= BOT_SPAN)
      && (r3.0 != Fired ==> r3.0 == Quiet)
  {
  }

  class AntiSpamCog {
    var settings: Settings
    var settingsFile: Option<map<string, int>>
    /** The lines of the blocked-words file; a missing file reads as none. */
    var wordFile: seq<string>
    var blockedWords: seq<string>
    var whitelistedBots: set<int>
    var spamHistory: map<HistoryKey, Window<int>>
    var mentionHistory: map<int, Window<int>>
    var emojiHistory: map<int, Window<int>>
    var nukeHistory: map<int, Window<(int, NukeKind)>>
    var nukeAlerts: set<int>
    /** `processed_webhooks`: webhook ids and bot ids together. */
    var processed: set<int>
    var lastNotice: map<Notice, int>

    /** Every window respects its maxlen, and every bot window has the
        capacity 3 it was made with. */
    predicate Valid()
      reads this
    {
      && AllBounded(spamHistory) && BotWindowsFixed(spamHistory)
      && AllBounded(mentionHistory) && AllBounded(emojiHistory) && AllBounded(nukeHistory)
    }

    /** Importing the module reads the blocked-words file; `__init__` then
        reads the settings file. */
    constructor(wordLines: seq<string>, stored: Option<map<string, int>>)
      ensures Valid()
      ensures settings == LoadSettings(DEFAULT_SETTINGS, stored) && settingsFile == stored
      ensures wordFile == wordLines && blockedWords == LoadWords(wordLines)
      ensures whitelistedBots == {WICK_BOT_ID}
      ensures spamHistory == map[] && mentionHistory == map[] && emojiHistory == map[] && nukeHistory == map[]
      ensures nukeAlerts == {} && processed == {} && lastNotice == map[]
    {
      settings := LoadSettings(DEFAULT_SETTINGS, stored);
      settingsFile := stored;
      wordFile := wordLines;
      blockedWords := LoadWords(wordLines);
      whitelistedBots := {WICK_BOT_ID};
      spamHistory := map[];
      mentionHistory := map[];
      emojiHistory := map[];
      nukeHistory := map[];
      nukeAlerts := {};
      processed := {};
      lastNotice := map[];
    }

    /** `check_spam` for one human message with `mentions` user and role
        mentions. */
    method CheckSpam(userId: int, mentions: nat, content: string, now: int) returns (v: SpamVerdict)
      requires Valid()
      modifies this`spamHistory, this`mentionHistory, this`emojiHistory
      ensures Valid()
      ensures (v, spamHistory, mentionHistory, emojiHistory)
              == SpamStep(old(spamHistory), old(mentionHistory), old(emojiHistory), settings, userId, mentions, content, now)
    {
      TrackBounded(spamHistory, UserKey(userId), settings.spamThreshold, settings.spamWindow, now);
      TrackUserKeepsBots(spamHistory, userId, settings.spamThreshold, settings.spamWindow, now);
      var plain := Track(spamHistory, UserKey(userId), settings.spamThreshold, settings.spamWindow, now);
      spamHistory := plain.1;
      if plain.0 != Quiet {
        return Outcome(plain.0, PlainSpam);
      }
      if mentions > 0 {
        TrackBounded(mentionHistory, userId, settings.mentionThreshold, settings.mentionWindow, now);
        var m := Track(mentionHistory, userId, settings.mentionThreshold, settings.mentionWindow, now);
        mentionHistory := m.1;
        if m.0 != Quiet {
          return Outcome(m.0, MentionSpam);
        }
      }
      if EmojiCount(content) > EMOJI_PER_MESSAGE {
        TrackBounded(emojiHistory, userId, settings.emojiThreshold, settings.emojiWindow, now);
        var e := Track(emojiHistory, userId, settings.emojiThreshold, settings.emojiWindow, now);
        emojiHistory := e.1;
        return Outcome(e.0, EmojiSpam);
      }
      return NoSpam;
    }

    /** `can_send_notification`. */
    method CanSendNotification(kind: Notice, now: int) returns (ok: bool)
      modifies this`lastNotice
      ensures (ok, lastNotice) == Notify(old(lastNotice), kind, now)
    {
      var prev := if kind in lastNotice then lastNotice[kind] else 0;
      if now - prev < NOTIFICATION_DELAY {
        return false;
      }
      lastNotice := lastNotice[kind := now];
      return true;
    }

    /** `handle_webhook_spam`. `owner` is the id of the bot that owns the
        webhook, when it could be fetched. `cleanup` says whether the 60
        second clear of the processed set was scheduled. */
    method HandleWebhookSpam(webhookId: int, owner: Option<int>, deleted: DeleteResult, now: int)
      returns (o: WebhookOutcome, cleanup: bool)
      modifies this`processed, this`lastNotice
      ensures WebhookHandled(old(processed), old(lastNotice), whitelistedBots, webhookId, owner, deleted, now,
                             o, cleanup, processed, lastNotice)
    {
      if webhookId in processed {
        return WebhookAlreadyProcessed, false;
      }
      if owner.Some? && owner.value in whitelistedBots {
        return OwnerWhitelisted, false;
      }
      if deleted == DeleteFailed {
        return WebhookAborted, true;
      }
      processed := processed + {webhookId};
      var notified := CanSendNotification(WebhookSpamNotice, now);
      return WebhookRemoved(notified), true;
    }

    /** `handle_bot_spam`. */
    method HandleBotSpam(botId: int, deleted: DeleteResult, canBan: bool, canKick: bool,
                         fault: Option<PunishFault>, now: int) returns (o: BotOutcome)
      modifies this`processed, this`lastNotice
      ensures BotHandled(old(processed), old(lastNotice), botId, deleted, canBan, canKick, fault, now, o, processed, lastNotice)
    {
      if botId in processed {
        return BotAlreadyProcessed;
      }
      if deleted == DeleteFailed {
        return BotAborted;
      }
      var sanction := Punish(canBan, canKick, fault);
      processed := processed + {botId};
      var notified := CanSendNotification(BotSpamNotice, now);
      return BotPunished(sanction, notified);
    }

    /** `cleanup_processed_webhooks`, once its sleep is over. */
    method ClearProcessed()
      modifies this`processed
      ensures processed == {}
    {
      processed := {};
    }

    /** `check_bot_webhook_spam`. */
    method CheckBotWebhookSpam(authorId: int, webhookId: Option<int>, api: Api, now: int) returns (a: Action)
      requires Valid()
      modifies this`spamHistory, this`processed, this`lastNotice
      ensures Valid()
      ensures BotOrWebhookChecked(old(spamHistory), old(processed), old(lastNotice), whitelistedBots, authorId, webhookId, api, now,
                                  a, spamHistory, processed, lastNotice)
    {
      if webhookId.Some? {
        var o, cleanup := HandleWebhookSpam(webhookId.value, api.webhookOwner, api.deleted, now);
        return WebhookAction(o, cleanup);
      }
      var key := BotKey(authorId);
      var w := Push(if key in spamHistory then spamHistory[key] else Window(BOT_WINDOW, []), now);
      spamHistory := spamHistory[key := w];
      if |w.items| == BOT_WINDOW && now - w.items[0] <= BOT_SPAN {
        var o := HandleBotSpam(authorId, api.deleted, api.canBan, api.canKick, api.punishFault, now);
        return BotAction(o);
      }
      return BotQuiet;
    }

    /** `check_nuke_actions` for one audited action. `actorKnown` says
        whether the bot can resolve the actor's user, which the alert needs
        before it consults the cooldown. */
    method CheckNukeActions(actor: int, kind: NukeKind, now: int, actorKnown: bool) returns (o: NukeOutcome)
      requires Valid()
      modifies this`nukeHistory, this`nukeAlerts, this`lastNotice
      ensures Valid()
      ensures NukeChecked(old(nukeHistory), old(nukeAlerts), old(lastNotice), settings, actor, kind, now, actorKnown,
                          o, nukeHistory, nukeAlerts, lastNotice)
    {
      if actor !in nukeHistory && settings.nukeThreshold < 0 {
        return NukeRaised;
      }
      var w := Push(if actor in nukeHistory then nukeHistory[actor] else Window(settings.nukeThreshold as nat, []), (now, kind));
      nukeHistory := nukeHistory[actor := w];
      var recent := Recent(w.items, now, settings.nukeWindow);
      if |recent| >= NUKE_ALERT_THRESHOLD && actor !in nukeAlerts {
        var notified := false;
        if actorKnown {
          notified := CanSendNotification(NukeAlertNotice, now);
        }
        nukeAlerts := nukeAlerts + {actor};
        return Alerted(recent, notified);
      }
      return NoAlert;
    }

    /** `reset_nuke_alert`, once its sleep is over. */
    method ResetNukeAlert(actor: int)
      modifies this`nukeAlerts
      ensures nukeAlerts == old(nukeAlerts) - {actor}
    {
      nukeAlerts := nukeAlerts - {actor};
    }

    /** A ban, kick, channel, role or emoji deletion listener. `actor` is
        the author of the newest audit-log entry of that kind, if any; the
        bot's own actions are not counted. */
    method OnAuditEntry(kind: NukeKind, actor: Option<int>, selfId: int, now: int, actorKnown: bool)
      returns (o: Option<NukeOutcome>)
      requires Valid()
      modifies this`nukeHistory, this`nukeAlerts, this`lastNotice
      ensures Valid()
      ensures o.None? <==> actor.None? || actor.value == selfId
      ensures o.None? ==> nukeHistory == old(nukeHistory) && nukeAlerts == old(nukeAlerts) && lastNotice == old(lastNotice)
      ensures o.Some? ==> NukeChecked(old(nukeHistory), old(nukeAlerts), old(lastNotice), settings, actor.value, kind, now, actorKnown,
                                      o.value, nukeHistory, nukeAlerts, lastNotice)
    {
      if actor.None? || actor.value == selfId {
        return None;
      }
      var r := CheckNukeActions(actor.value, kind, now, actorKnown);
      return Some(r);
    }

    /** `on_guild_emojis_update`: only a shrinking emoji list is audited. */
    method OnEmojisUpdate(before: nat, after: nat, actor: Option<int>, selfId: int, now: int, actorKnown: bool)
      returns (o: Option<NukeOutcome>)
      requires Valid()
      modifies this`nukeHistory, this`nukeAlerts, this`lastNotice
      ensures Valid()
      ensures before <= after ==>
        o.None? && nukeHistory == old(nukeHistory) && nukeAlerts == old(nukeAlerts) && lastNotice == old(lastNotice)
      ensures before > after ==> (o.None? <==> actor.None? || actor.value == selfId)
      ensures before > after && o.None? ==>
        nukeHistory == old(nukeHistory) && nukeAlerts == old(nukeAlerts) && lastNotice == old(lastNotice)
      ensures before > after && o.Some? ==>
        NukeChecked(old(nukeHistory), old(nukeAlerts), old(lastNotice), settings, actor.value, EmojiDeleteAction, now, actorKnown,
                    o.value, nukeHistory, nukeAlerts, lastNotice)
    {
      if before <= after {
        return None;
      }
      o := OnAuditEntry(EmojiDeleteAction, actor, selfId, now, actorKnown);
    }

    /** `set_spam_settings`, followed by `save_settings` when the name is
        known. */
    method SetSpamSettings(isAdmin: bool, name: string, value: int) returns (r: SettingOutcome)
      modifies this`settings, this`settingsFile
      ensures !isAdmin ==> r == SettingRefused
      ensures isAdmin && CommandParam(Lower(name)).None? ==> r == UnknownSetting
      ensures isAdmin && CommandParam(Lower(name)).Some? ==> r == SettingChanged(CommandParam(Lower(name)).value)
      ensures r.SettingChanged? ==> settings == With(old(settings), r.param, value) && settingsFile == Some(SaveSettings(settings))
      ensures !r.SettingChanged? ==> settings == old(settings) && settingsFile == old(settingsFile)
    {
      if !isAdmin {
        return SettingRefused;
      }
      var p := CommandParam(Lower(name));
      if p.None? {
        return UnknownSetting;
      }
      settings := With(settings, p.value, value);
      settingsFile := Some(SaveSettings(settings));
      return SettingChanged(p.value);
    }

    /** `manage_whitelist`. A `bot_id` of 0 or none is falsy and gives the
        usage message. */
    method ManageWhitelist(isAdmin: bool, action: string, botId: Option<int>) returns (r: WhitelistOutcome)
      modifies this`whitelistedBots
      ensures !isAdmin ==> r == WhitelistRefused
      ensures var given := botId.Some? && botId.value != 0;
        && (isAdmin && Lower(action) == "list" ==> r == WhitelistShown)
        && (isAdmin && Lower(action) == "add" && given ==> r == BotAdded && whitelistedBots == old(whitelistedBots) + {botId.value})
        && (isAdmin && Lower(action) == "remove" && given ==>
              if botId.value in old(whitelistedBots)
              then r == BotRemoved && whitelistedBots == old(whitelistedBots) - {botId.value}
              else r == BotNotListed)
        && (isAdmin && Lower(action) != "list" && !((Lower(action) == "add" || Lower(action) == "remove") && given) ==> r == WhitelistUsage)
      ensures r != BotAdded && r != BotRemoved ==> whitelistedBots == old(whitelistedBots)
    {
      if !isAdmin {
        return WhitelistRefused;
      }
      var act := Lower(action);
      var given := botId.Some? && botId.value != 0;
      if act == "list" {
        return WhitelistShown;
      } else if act == "add" && given {
        whitelistedBots := whitelistedBots + {botId.value};
        return BotAdded;
      } else if act == "remove" && given {
        if botId.value in whitelistedBots {
          whitelistedBots := whitelistedBots - {botId.value};
          return BotRemoved;
        }
        return BotNotListed;
      }
      return WhitelistUsage;
    }

    /** `cmd_add_word`. The cache becomes `list(existing)`, whose order
        Python leaves open. */
    method AddWord(input: string) returns (r: AddOutcome)
      modifies this`wordFile, this`blockedWords
      ensures var word := Normalise(input);
        && (word == "" ==> r == EmptyWord)
        && (word != "" && word in WordSet(old(wordFile)) ==> r == AlreadyListed)
        && (word != "" && word !in WordSet(old(wordFile)) ==> r == WordAdded(word))
      ensures r.WordAdded? ==>
        && wordFile == old(wordFile) + [r.word]
        && WordSet(wordFile) == WordSet(old(wordFile)) + {r.word}
        && NoDuplicates(blockedWords)
        && (forall w :: w in blockedWords <==> w in WordSet(wordFile))
      ensures !r.WordAdded? ==> wordFile == old(wordFile) && blockedWords == old(blockedWords)
    {
      var word := Normalise(input);
      if word == "" {
        return EmptyWord;
      }
      var existing := WordSet(wordFile);
      if word in existing {
        return AlreadyListed;
      }
      NormaliseIdempotent(input);
      WordSetAppend(wordFile, word);
      wordFile := wordFile + [word];
      blockedWords := ListOf(existing + {word});
      return WordAdded(word);
    }

    /** `cmd_del_word`: the file is rewritten with its stripped non-blank
        lines, minus every one that lowercases to the word. */
    method DelWord(input: string) returns (r: DelOutcome)
      modifies this`wordFile, this`blockedWords
      ensures var word := Normalise(input);
        r.WordRemoved? <==> word != "" && word in WordSet(old(wordFile))
      ensures r.WordRemoved? ==>
        && r.word == Normalise(input)
        && wordFile == DropWord(StrippedLines(old(wordFile)), r.word)
        && blockedWords == LowerAll(wordFile)
        && WordSet(wordFile) == WordSet(old(wordFile)) - {r.word}
      ensures !r.WordRemoved? ==> wordFile == old(wordFile) && blockedWords == old(blockedWords)
    {
      var word := Normalise(input);
      if word == "" {
        return WordNotListed;
      }
      var words := StrippedLines(wordFile);
      var kept := DropWord(words, word);
      DelWordSet(wordFile, word);
      DelWordShrinks(wordFile, word);
      if |kept| == |words| {
        return WordNotListed;
      }
      wordFile := kept;
      blockedWords := LowerAll(kept);
      return WordRemoved(word);
    }

    /** The blocked-word loop of `on_message` over `text`, the lowercased
        content. */
    method FindBlockedWord(text: string) returns (i: Option<nat>)
      ensures FirstMatch(blockedWords, text, i)
    {
      var k := 0;
      while k < |blockedWords|
        invariant 0 <= k <= |blockedWords|
        invariant forall j :: 0 <= j < k ==> !Contains(text, blockedWords[j])
      {
        if Contains(text, blockedWords[k]) {
          return Some(k);
        }
        k := k + 1;
      }
      return None;
    }

    /** `on_message`. `fromSelf` is a message of the bot's own account;
        `stillThere` is false when fetching it again found it deleted;
        `wordDeleted` says whether deleting a message with a blocked word
        succeeded. */
    method OnMessage(msg: Message, fromSelf: bool, stillThere: bool, wordDeleted: bool, api: Api, now: int)
      returns (r: Reaction)
      requires Valid()
      modifies this`spamHistory, this`mentionHistory, this`emojiHistory, this`processed, this`lastNotice
      ensures Valid()
      ensures fromSelf ==> r == Reaction(None, Ignored)
      ensures !fromSelf && !stillThere ==> r == Reaction(None, Vanished)
      ensures !fromSelf && stillThere ==> FirstMatch(blockedWords, Lower(msg.content), r.blockedWord)
      ensures r.blockedWord.Some? || msg.webhookId.Some? || fromSelf || !stillThere ==>
        spamHistory == old(spamHistory) && mentionHistory == old(mentionHistory) && emojiHistory == old(emojiHistory)
      ensures r.blockedWord.Some? && !wordDeleted ==> r.action == WordDeleteFailed
      ensures r.blockedWord.Some? && wordDeleted && msg.webhookId.None? && !msg.authorIsBot ==> r.action == UserWarned
      ensures !fromSelf && stillThere && r.blockedWord.None? && msg.webhookId.None? && !msg.authorIsBot ==>
        r.action.SpamAction? &&
        (r.action.verdict, spamHistory, mentionHistory, emojiHistory)
          == SpamStep(old(spamHistory), old(mentionHistory), old(emojiHistory), settings,
                      msg.authorId, msg.mentions, msg.content, now)
      ensures msg.webhookId.Some? ==> r.action.WebhookAction? || r.action in {Ignored, Vanished, WordDeleteFailed}
      ensures fromSelf || !stillThere ==> processed == old(processed) && lastNotice == old(lastNotice)
      ensures r.blockedWord.Some? && (!wordDeleted || (msg.webhookId.None? && !msg.authorIsBot)) ==>
        processed == old(processed) && lastNotice == old(lastNotice)
      ensures r.blockedWord.Some? && wordDeleted && msg.webhookId.Some? ==>
        && r.action.WebhookAction?
        && WebhookHandled(old(processed), old(lastNotice), whitelistedBots, msg.webhookId.value, api.webhookOwner, AlreadyGone, now,
                          r.action.webhook, r.action.cleanup, processed, lastNotice)
      ensures r.blockedWord.Some? && wordDeleted && msg.webhookId.None? && msg.authorIsBot ==>
        && r.action.BotAction?
        && BotHandled(old(processed), old(lastNotice), msg.authorId, AlreadyGone, api.canBan, api.canKick, api.punishFault, now,
                      r.action.bot, processed, lastNotice)
      ensures !fromSelf && stillThere && r.blockedWord.None? && msg.webhookId.None? && !msg.authorIsBot ==>
        processed == old(processed) && lastNotice == old(lastNotice)
      ensures !fromSelf && stillThere && r.blockedWord.None? && msg.authorIsBot ==>
        && mentionHistory == old(mentionHistory) && emojiHistory == old(emojiHistory)
        && BotOrWebhookChecked(old(spamHistory), old(processed), old(lastNotice), whitelistedBots, msg.authorId, msg.webhookId, api, now,
                               r.action, spamHistory, processed, lastNotice)
      ensures !fromSelf && stillThere && r.blockedWord.None? && msg.webhookId.Some? && !msg.authorIsBot ==>
        && r.action.WebhookAction?
        && WebhookHandled(old(processed), old(lastNotice), whitelistedBots, msg.webhookId.value, api.webhookOwner, api.deleted, now,
                          r.action.webhook, r.action.cleanup, processed, lastNotice)
    {
      if fromSelf {
        return Reaction(None, Ignored);
      }
      if !stillThere {
        return Reaction(None, Vanished);
      }
      var hit := FindBlockedWord(Lower(msg.content));
      if hit.Some? {
        if !wordDeleted {
          return Reaction(hit, WordDeleteFailed);
        }
        if msg.webhookId.Some? {
          var o, cleanup := HandleWebhookSpam(msg.webhookId.value, api.webhookOwner, AlreadyGone, now);
          return Reaction(hit, WebhookAction(o, cleanup));
        } else if msg.authorIsBot {
          var o := HandleBotSpam(msg.authorId, AlreadyGone, api.canBan, api.canKick, api.punishFault, now);
          return Reaction(hit, BotAction(o));
        }
        return Reaction(hit, UserWarned);
      }
      if !msg.authorIsBot && msg.webhookId.None? {
        var v := CheckSpam(msg.authorId, msg.mentions, msg.content, now);
        return Reaction(None, SpamAction(v));
      } else if msg.authorIsBot {
        var a := CheckBotWebhookSpam(msg.authorId, msg.webhookId, api, now);
        return Reaction(None, a);
      }
      var o, cleanup := HandleWebhookSpam(msg.webhookId.value, api.webhookOwner, api.deleted, now);
      return Reaction(None, WebhookAction(o, cleanup));
    }
  }
}
