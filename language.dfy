/** The localisation lookup: `LanguageManager` keeps one decoded JSON table
    per language code and reads a dotted key ("moderation.mute.reason") by
    descending the nested objects one segment at a time, falling back to the
    default language and then to the key itself in double brackets. */
module Language {
  import opened Wrappers
  import opened PyStr
  import opened JsonValue

  /** A file of the locales directory: its stem and its decoded content, or
      `None` when it is not valid JSON or opening it fails with an
      `IOError`. */
  datatype LocaleFile = LocaleFile(code: string, content: Option<Json>)

  /** The tables after `load_languages` has read `files` in order on top of
      `base`: each file of valid JSON sets its code, the others are
      skipped. */
  function LoadInto(base: map<string, Json>, files: seq<LocaleFile>): map<string, Json> {
    if files == [] then base
    else
      var prev := LoadInto(base, files[..|files| - 1]);
      var f := files[|files| - 1];
      if f.content.Some? then prev[f.code := f.content.value] else prev
  }

  /** The descent `for k in keys: value = value[k]`; `None` is the KeyError
      of a missing field or the TypeError of indexing a string, list, number
      or null. */
  function Walk(v: Json, keys: seq<string>): Option<Json> {
    if keys == [] then Some(v)
    else
      match v
      case JObj(fields) => if keys[0] in fields then Walk(fields[keys[0]], keys[1..]) else None
      case _ => None
  }

  /** One attempt in language `lang`. The default table is looked up
      eagerly, as the fallback argument of `dict.get`, so an unloaded
      default language fails every attempt. */
  function Attempt(languages: map<string, Json>, defaultLang: string, lang: string, keys: seq<string>): Option<Json> {
    if defaultLang !in languages then None
    else Walk(if lang in languages then languages[lang] else languages[defaultLang], keys)
  }

  /** What `get` returns for a key it cannot resolve. */
  function Missing(key: string): Json {
    JStr("[[" + key + "]]")
  }

  /** `lang or self.default_lang`: no language, or the empty one, means the
      default. */
  function Chosen(defaultLang: string, lang: Option<string>): string {
    if lang.None? || lang.value == "" then defaultLang else lang.value
  }

  /** `get(key, lang)` without format arguments. */
  function Lookup(languages: map<string, Json>, defaultLang: string, key: string, lang: Option<string>): Json {
    var l := Chosen(defaultLang, lang);
    var keys := Split(key, '.');
    match Attempt(languages, defaultLang, l, keys)
    case Some(v) => v
    case None =>
      if l != defaultLang then
        match Attempt(languages, defaultLang, defaultLang, keys)
        case Some(v) => v
        case None => Missing(key)
      else Missing(key)
  }

  class LanguageManager {
    var languages: map<string, Json>
    var defaultLang: string

    /** `LanguageManager(default_lang)`; `locales` is `None` when the
        locales directory does not exist (it is then created, empty). */
    constructor(defaultLang: string, locales: Option<seq<LocaleFile>>)
      ensures this.defaultLang == defaultLang
      ensures languages == if locales.None? then map[] else LoadInto(map[], locales.value)
    {
      this.defaultLang := defaultLang;
      languages := map[];
      new;
      LoadLanguages(locales);
    }

    /** `load_languages`. */
    method LoadLanguages(locales: Option<seq<LocaleFile>>)
      modifies this
      ensures defaultLang == old(defaultLang)
      ensures languages == if locales.None? then old(languages) else LoadInto(old(languages), locales.value)
    {
      if locales.None? {
        return;
      }
      var files := locales.value;
      var i := 0;
      while i < |files|
        invariant 0 <= i <= |files|
        invariant defaultLang == old(defaultLang)
        invariant languages == LoadInto(old(languages), files[..i])
      {
        assert files[..i + 1][..i] == files[..i];
        if files[i].content.Some? {
          languages := languages[files[i].code := files[i].content.value];
        }
        i := i + 1;
      }
      assert files[..i] == files;
    }

    /** The `try` block of `get` for one language: pick the table, then
        descend segment by segment. */
    method TryLanguage(lang: string, keys: seq<string>) returns (v: Option<Json>)
      ensures v == Attempt(languages, defaultLang, lang, keys)
    {
      if defaultLang !in languages {
        return None;
      }
      var start := if lang in languages then languages[lang] else languages[defaultLang];
      var value := start;
      var i := 0;
      while i < |keys|
        invariant 0 <= i <= |keys|
        invariant Walk(start, keys) == Walk(value, keys[i..])
      {
        assert keys[i..][1..] == keys[i + 1..];
        if !value.JObj? || keys[i] !in value.fields {
          return None;
        }
        value := value.fields[keys[i]];
        i := i + 1;
      }
      return Some(value);
    }

    /** `get(key, lang)` without format arguments. */
    method Get(key: string, lang: Option<string>) returns (r: Json)
      ensures r == Lookup(languages, defaultLang, key, lang)
    {
      var l := if lang.None? || lang.value == "" then defaultLang else lang.value;
      var keys := Split(key, '.');
      var v := TryLanguage(l, keys);
      if v.Some? {
        return v.value;
      }
      if l != defaultLang {
        v := TryLanguage(defaultLang, keys);
        if v.Some? {
          return v.value;
        }
      }
      return Missing(key);
    }

    /** `set_language`: only a loaded language can become the default. */
    method SetLanguage(lang: string) returns (ok: bool)
      modifies this
      ensures ok <==> lang in old(languages)
      ensures defaultLang == if ok then lang else old(defaultLang)
      ensures languages == old(languages)
    {
      if lang in languages {
        defaultLang := lang;
        return true;
      }
      return false;
    }
  }

  // ---------------------------------------------------------------------
  // Properties of loading

  /** A code read from a valid JSON file holds the content of the last such
      file for it. */
  lemma {:induction false} LoadLastWins(base: map<string, Json>, files: seq<LocaleFile>, k: nat)
    requires k < |files| && files[k].content.Some?
    requires forall j :: k < j < |files| ==> files[j].code != files[k].code || files[j].content.None?
    ensures files[k].code in LoadInto(base, files)
    ensures LoadInto(base, files)[files[k].code] == files[k].content.value
  {
    var init := files[..|files| - 1];
    if k < |files| - 1 {
      assert forall j :: k < j < |init| ==> init[j] == files[j];
      LoadLastWins(base, init, k);
    }
  }

  /** A code no valid JSON file names keeps its earlier table, or stays
      absent. */
  lemma {:induction false} LoadKeepsOthers(base: map<string, Json>, files: seq<LocaleFile>, code: string)
    requires forall j :: 0 <= j < |files| ==> files[j].code != code || files[j].content.None?
    ensures code in LoadInto(base, files) <==> code in base
    ensures code in base ==> LoadInto(base, files)[code] == base[code]
  {
    if files != [] {
      var init := files[..|files| - 1];
      assert forall j :: 0 <= j < |init| ==> init[j] == files[j];
      LoadKeepsOthers(base, init, code);
    }
  }

  // ---------------------------------------------------------------------
  // Properties of the lookup

  /** Descending along `a + b` is descending along `a`, then along `b`. */
  lemma {:induction false} WalkAppend(v: Json, a: seq<string>, b: seq<string>)
    ensures Walk(v, a + b) == match Walk(v, a)
                              case None => None
                              case Some(w) => Walk(w, b)
  {
    if a == [] {
      assert a + b == b;
    } else {
      assert (a + b)[0] == a[0] && (a + b)[1..] == a[1..] + b;
      if v.JObj? && a[0] in v.fields {
        WalkAppend(v.fields[a[0]], a[1..], b);
      }
    }
  }

  /** A table holding `v` under the nested path `keys`. */
  function Nest(keys: seq<string>, v: Json): Json {
    if keys == [] then v else JObj(map[keys[0] := Nest(keys[1..], v)])
  }

  lemma {:induction false} WalkNest(keys: seq<string>, v: Json)
    ensures Walk(Nest(keys, v), keys) == Some(v)
  {
    if keys != [] {
      WalkNest(keys[1..], v);
    }
  }

  /** A key whose path resolves in the chosen language yields the value
      found there, unchanged. */
  lemma LookupFound(languages: map<string, Json>, defaultLang: string, key: string, lang: string, v: Json)
    requires defaultLang in languages && lang in languages && lang != ""
    requires Walk(languages[lang], Split(key, '.')) == Some(v)
    ensures Lookup(languages, defaultLang, key, Some(lang)) == v
  {
  }

  /** The dotted key of a nested path reads the string stored at its end. */
  lemma LookupNested(languages: map<string, Json>, defaultLang: string, lang: string, keys: seq<string>, s: string)
    requires defaultLang in languages && lang in languages && lang != ""
    requires |keys| >= 1 && forall i :: 0 <= i < |keys| ==> '.' !in keys[i]
    requires languages[lang] == Nest(keys, JStr(s))
    ensures Lookup(languages, defaultLang, Join(keys, '.'), Some(lang)) == JStr(s)
  {
    SplitJoin(keys, '.');
    WalkNest(keys, JStr(s));
  }

  /** When the chosen language does not resolve the key (it is not loaded,
      or the path is missing in it), the answer is the default language's. */
  lemma FallbackToDefault(languages: map<string, Json>, defaultLang: string, key: string, lang: string)
    requires lang != ""
    requires Attempt(languages, defaultLang, lang, Split(key, '.')).None? || lang !in languages
    ensures Lookup(languages, defaultLang, key, Some(lang)) == Lookup(languages, defaultLang, key, None)
  {
  }

  /** A path missing from the default language yields the bracketed key. */
  lemma MissingInDefault(languages: map<string, Json>, defaultLang: string, key: string, lang: Option<string>)
    requires defaultLang in languages
    requires Walk(languages[defaultLang], Split(key, '.')).None?
    requires Attempt(languages, defaultLang, Chosen(defaultLang, lang), Split(key, '.')).None?
    ensures Lookup(languages, defaultLang, key, lang) == JStr("[[" + key + "]]")
  {
  }

  /** With the default language not loaded, every key in every language
      yields the bracketed key. */
  lemma UnloadedDefault(languages: map<string, Json>, defaultLang: string, key: string, lang: Option<string>)
    requires defaultLang !in languages
    ensures Lookup(languages, defaultLang, key, lang) == JStr("[[" + key + "]]")
  {
  }
}
