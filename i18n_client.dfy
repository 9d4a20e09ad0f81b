/** `src/i18n/client.ts`: the locale a visitor starts with, how a chosen locale is
    persisted in the `NEXT_LOCALE` cookie and in local storage, the dotted-path
    message lookup `t`, and the per-locale text fallback. The browser (`window`,
    `document.cookie`, `localStorage`, `navigator.language`) is state of the
    provider or a parameter; the message bundles it loads are parameters. */
module I18nClient {
  import opened Wrappers
  import opened Strings
  import opened Json
  import Validators

  datatype Locale = EnUs | PtBr | EsEs

  /** The tag each locale is written as. */
  function Code(l: Locale): string {
    match l
    case EnUs => "en-US"
    case PtBr => "pt-BR"
    case EsEs => "es-ES"
  }

  /** `["en-US", "pt-BR", "es-ES"].includes(s)`, giving the locale it names. */
  function ParseLocale(s: string): (r: Option<Locale>)
    ensures r.Some? <==> s in {"en-US", "pt-BR", "es-ES"}
    ensures r.Some? ==> Code(r.value) == s
  {
    if s == "en-US" then Some(EnUs)
    else if s == "pt-BR" then Some(PtBr)
    else if s == "es-ES" then Some(EsEs)
    else None
  }

  /** Every locale's tag is read back as that locale. */
  lemma ParseCode(l: Locale)
    ensures ParseLocale(Code(l)) == Some(l)
  {
  }

  const LocaleCookieName: string := "NEXT_LOCALE"
  const LocaleCookiePrefix: string := LocaleCookieName + "="

  // ---------------------------------------------------------------------------
  // Cookies

  datatype Cookie = Cookie(name: string, value: string)

  /** What a browser's cookie jar holds: names that are not empty and contain no
      `=` or `;`, values that contain no `;`. */
  predicate ValidJar(jar: seq<Cookie>) {
    forall i :: 0 <= i < |jar| ==>
      jar[i].name != [] && '=' !in jar[i].name && ';' !in jar[i].name && ';' !in jar[i].value
  }

  function Pair(c: Cookie): string {
    c.name + "=" + c.value
  }

  function Pairs(jar: seq<Cookie>): (r: seq<string>)
    ensures |r| == |jar|
    ensures forall i :: 0 <= i < |jar| ==> r[i] == Pair(jar[i])
  {
    if jar == [] then [] else [Pair(jar[0])] + Pairs(jar[1..])
  }

  /** What reading `document.cookie` gives. */
  function CookieString(jar: seq<Cookie>): string {
    Join(Pairs(jar), "; ")
  }

  /** Writing `document.cookie = name + "=" + value + "; …"`: the cookie of that
      name takes the new value, in its place; a new name is added at the end. */
  function SetCookie(jar: seq<Cookie>, name: string, value: string): (r: seq<Cookie>)
    ensures |r| == |jar| || |r| == |jar| + 1
    ensures forall i :: 0 <= i < |r| ==> r[i] == Cookie(name, value) || r[i] in jar
  {
    if jar == [] then [Cookie(name, value)]
    else if jar[0].name == name then [Cookie(name, value)] + jar[1..]
    else [jar[0]] + SetCookie(jar[1..], name, value)
  }

  /** The value of the first cookie called `name`. */
  function CookieValue(jar: seq<Cookie>, name: string): (r: Option<string>)
    ensures r.Some? ==> Cookie(name, r.value) in jar
    ensures r.None? ==> forall i :: 0 <= i < |jar| ==> jar[i].name != name
  {
    if jar == [] then None
    else if jar[0].name == name then Some(jar[0].value)
    else CookieValue(jar[1..], name)
  }

  /** Writing a cookie makes it the value read back for that name, and leaves
      the others alone. */
  lemma {:induction false} SetCookieValue(jar: seq<Cookie>, name: string, value: string, other: string)
    ensures CookieValue(SetCookie(jar, name, value), name) == Some(value)
    ensures other != name ==> CookieValue(SetCookie(jar, name, value), other) == CookieValue(jar, other)
  {
    if jar != [] && jar[0].name != name {
      SetCookieValue(jar[1..], name, value, other);
    }
  }

  /** `items.find((c) => c.startsWith(prefix))`. */
  function FindStartingWith(items: seq<string>, prefix: string): (r: Option<string>)
    ensures r.Some? ==> r.value in items && StartsWith(r.value, prefix)
    ensures r.None? ==> forall i :: 0 <= i < |items| ==> !StartsWith(items[i], prefix)
  {
    if items == [] then None
    else if StartsWith(items[0], prefix) then Some(items[0])
    else FindStartingWith(items[1..], prefix)
  }

  /** The locale a cookie string names, as `getInitialLocale` reads it: the first
      entry starting with `NEXT_LOCALE=`, the text after its first `=` and up to
      any second one, and only if that is a locale tag. */
  function CookieLocale(cookie: string): Option<Locale> {
    match FindStartingWith(Split(cookie, "; "), LocaleCookiePrefix)
    case None => None
    case Some(entry) =>
      var parts := Split(entry, "=");
      if |parts| >= 2 then ParseLocale(parts[1]) else None
  }

  /** An entry `name=value` starts with `NEXT_LOCALE=` exactly when its name is
      `NEXT_LOCALE`. */
  lemma PairStartsWithPrefix(c: Cookie)
    requires '=' !in c.name
    ensures StartsWith(Pair(c), LocaleCookiePrefix) <==> c.name == LocaleCookieName
  {
    var s := Pair(c);
    if StartsWith(s, LocaleCookiePrefix) {
      assert forall i :: 0 <= i < |c.name| ==> s[i] == c.name[i];
      assert s[|c.name|] == '=';
      assert forall i :: 0 <= i < 11 ==> LocaleCookiePrefix[i] != '=';
      assert s[11] == '=';
      assert |c.name| == 11;
      assert c.name == s[..11];
    }
  }

  lemma {:induction false} FindLocaleEntry(jar: seq<Cookie>)
    requires ValidJar(jar)
    ensures FindStartingWith(Pairs(jar), LocaleCookiePrefix)
            == match CookieValue(jar, LocaleCookieName)
               case None => None
               case Some(v) => Some(LocaleCookiePrefix + v)
  {
    if jar != [] {
      PairStartsWithPrefix(jar[0]);
      assert Pairs(jar)[1..] == Pairs(jar[1..]);
      FindLocaleEntry(jar[1..]);
    }
  }

  /** No entry of a valid jar contains `;`, so splitting the cookie string at
      `"; "` gives the entries back. */
  lemma SplitCookieString(jar: seq<Cookie>)
    requires ValidJar(jar) && jar != []
    ensures Split(CookieString(jar), "; ") == Pairs(jar)
  {
    var pairs := Pairs(jar);
    forall k | 0 <= k < |pairs| ensures ';' !in pairs[k] {
      assert pairs[k] == jar[k].name + "=" + jar[k].value;
    }
    SplitJoin(pairs, "; ");
  }

  /** The entry `NEXT_LOCALE=<tag>` splits at `=` into the name and the tag. */
  lemma SplitLocaleEntry(l: Locale)
    ensures Split(LocaleCookiePrefix + Code(l), "=") == [LocaleCookieName, Code(l)]
  {
    assert Join([LocaleCookieName, Code(l)], "=") == LocaleCookiePrefix + Code(l);
    assert '=' !in LocaleCookieName;
    assert '=' !in Code(l);
    SplitJoin([LocaleCookieName, Code(l)], "=");
  }

  /** A jar holding `NEXT_LOCALE=<tag of l>` is read back as `l`. */
  lemma CookieLocaleOfJar(jar: seq<Cookie>, l: Locale)
    requires ValidJar(jar) && CookieValue(jar, LocaleCookieName) == Some(Code(l))
    ensures CookieLocale(CookieString(jar)) == Some(l)
  {
    SplitCookieString(jar);
    FindLocaleEntry(jar);
    SplitLocaleEntry(l);
    ParseCode(l);
  }

  // ---------------------------------------------------------------------------
  // The initial locale

  /** What the code can see of the browser: `document.cookie`, local storage and
      `navigator.language`. */
  datatype Browser = Browser(cookie: string, storage: map<string, string>, language: string)

  /** `detectBrowserLocale()`; `None` is rendering on the server (no `window`).
      A Portuguese language wins over a Spanish one, English is the fallback, and
      a locale other than English is only chosen when the browser language starts
      with the two letters its tag starts with. */
  function DetectBrowserLocale(w: Option<Browser>): (r: Locale)
    ensures r == PtBr <==> w.Some? && StartsWith(w.value.language, "pt")
    ensures r == EsEs <==> w.Some? && !StartsWith(w.value.language, "pt") && StartsWith(w.value.language, "es")
    ensures r == EnUs <==> w.None? || (!StartsWith(w.value.language, "pt") && !StartsWith(w.value.language, "es"))
    ensures r != EnUs ==> w.Some? && StartsWith(w.value.language, Code(r)[..2])
  {
    if w.None? then EnUs
    else if StartsWith(w.value.language, "pt") then PtBr
    else if StartsWith(w.value.language, "es") then EsEs
    else EnUs
  }

  /** The locale `localStorage.getItem("NEXT_LOCALE")` names, if it is a tag. */
  function StoredLocale(storage: map<string, string>): Option<Locale> {
    if LocaleCookieName in storage && storage[LocaleCookieName] != "" then ParseLocale(storage[LocaleCookieName])
    else None
  }

  /** `getInitialLocale()`. */
  function GetInitialLocale(w: Option<Browser>): (r: Locale) {
    if w.None? then EnUs
    else match CookieLocale(w.value.cookie)
      case Some(l) => l
      case None =>
        match StoredLocale(w.value.storage)
        case Some(l) => l
        case None => DetectBrowserLocale(w)
  }

  /** The order of preference: a cookie naming a locale, then a stored value naming
      one, then the browser language. A cookie or stored value that names no locale
      is passed over. */
  lemma InitialLocalePreference(w: Browser)
    ensures CookieLocale(w.cookie).Some? ==> GetInitialLocale(Some(w)) == CookieLocale(w.cookie).value
    ensures CookieLocale(w.cookie).None? && StoredLocale(w.storage).Some? ==>
      GetInitialLocale(Some(w)) == StoredLocale(w.storage).value
    ensures CookieLocale(w.cookie).None? && StoredLocale(w.storage).None? ==>
      GetInitialLocale(Some(w)) == DetectBrowserLocale(Some(w))
    ensures StoredLocale(w.storage).Some? ==> w.storage[LocaleCookieName] == Code(StoredLocale(w.storage).value)
  {
  }

  /** A locale can only come from a cookie entry whose value is its tag. */
  lemma CookieLocaleSource(cookie: string)
    requires CookieLocale(cookie).Some?
    ensures exists entry :: entry in Split(cookie, "; ") && StartsWith(entry, LocaleCookiePrefix)
                          && |Split(entry, "=")| >= 2 && Split(entry, "=")[1] == Code(CookieLocale(cookie).value)
  {
    var entry := FindStartingWith(Split(cookie, "; "), LocaleCookiePrefix).value;
    assert entry in Split(cookie, "; ");
  }

  /** Writing a well-formed cookie keeps the jar well formed. */
  lemma {:induction false} SetCookieKeepsValid(jar: seq<Cookie>, name: string, value: string)
    requires ValidJar(jar) && name != [] && '=' !in name && ';' !in name && ';' !in value
    ensures ValidJar(SetCookie(jar, name, value))
  {
    if jar != [] && jar[0].name != name {
      SetCookieKeepsValid(jar[1..], name, value);
    }
  }

  /** A browser whose jar holds `NEXT_LOCALE=<tag of l>` starts in `l`, whatever
      its storage and language. */
  lemma InitialLocaleFromJar(jar: seq<Cookie>, storage: map<string, string>, language: string, l: Locale)
    requires ValidJar(jar) && CookieValue(jar, LocaleCookieName) == Some(Code(l))
    ensures GetInitialLocale(Some(Browser(CookieString(jar), storage, language))) == l
  {
    CookieLocaleOfJar(jar, l);
  }

  // ---------------------------------------------------------------------------
  // Message lookup

  /** One step of the walk in `t`: descend into an object's own key, or into an
      array at a canonical index; anything else (a missing key, a string, a number,
      a truth value, `null` or nothing at all) stops the walk. A key the object only
      inherits leads to a function or to `null`, never on to a string, so it stops
      the walk too. */
  function Descend(v: Option<Value>, k: string): (r: Option<Value>)
    ensures r.Some? ==> v.Some? && (v.value.Obj? || v.value.Arr?)
    ensures v.Some? && v.value.Obj? ==> (r.Some? <==> k in v.value.fields)
    ensures v.Some? && v.value.Obj? && k in v.value.fields ==> r == Some(v.value.fields[k])
  {
    match v
    case Some(Obj(fields)) => if k in fields then Some(fields[k]) else None
    case Some(Arr(items)) =>
      if IsCanonicalIndex(k) && DecimalValue(k) < |items| then Some(items[DecimalValue(k)]) else None
    case _ => None
  }

  predicate IsDigit(c: char) {
    '0' <= c <= '9'
  }

  /** A non-negative integer written without leading zeros, as array indices are. */
  predicate IsCanonicalIndex(k: string) {
    k != [] && (forall i :: 0 <= i < |k| ==> IsDigit(k[i])) && (k[0] != '0' || |k| == 1)
  }

  function DecimalValue(k: string): nat
    requires forall i :: 0 <= i < |k| ==> IsDigit(k[i])
  {
    if k == [] then 0
    else
      var last := k[|k| - 1];
      assert IsDigit(last);
      10 * DecimalValue(k[..|k| - 1]) + (last as int - '0' as int)
  }

  /** Where the walk along `path` from `v` ends, `None` if it stopped. */
  function Resolve(v: Option<Value>, path: seq<string>): Option<Value>
    decreases |path|
  {
    if path == [] then v else Descend(Resolve(v, path[..|path| - 1]), path[|path| - 1])
  }

  /** `t(key)` against the loaded bundle (`None` before it is loaded): the string at
      the end of the walk along the dot-separated segments, or else the key itself. */
  function Translate(messages: Option<Value>, key: string): string {
    match Resolve(messages, Split(key, "."))
    case Some(Str(s)) => s
    case _ => key
  }

  /** A walk that stopped stays stopped. */
  lemma {:induction false} ResolveStopped(v: Option<Value>, p: seq<string>, q: seq<string>)
    requires Resolve(v, p) == None
    ensures Resolve(v, p + q) == None
    decreases |q|
  {
    if q == [] {
      assert p + q == p;
    } else {
      var q' := q[..|q| - 1];
      assert (p + q)[..|p + q| - 1] == p + q';
      ResolveStopped(v, p, q');
    }
  }

  /** A walk that reached a string stops at the next segment. */
  lemma ResolveThroughString(v: Option<Value>, p: seq<string>, s: string, q: seq<string>)
    requires Resolve(v, p) == Some(Str(s)) && q != []
    ensures Resolve(v, p + q) == None
  {
    assert (p + [q[0]])[..|p|] == p;
    ResolveStopped(v, p + [q[0]], q[1..]);
    assert p + [q[0]] + q[1..] == p + q;
  }

  /** `t` walks exactly the segments of a key: for segments without a dot, the key
      they make up translates to the string the walk reaches, or to itself. */
  lemma TranslatePath(messages: Option<Value>, path: seq<string>)
    requires path != [] && forall k :: 0 <= k < |path| ==> '.' !in path[k]
    ensures Translate(messages, Join(path, ".")) == match Resolve(messages, path)
                                                    case Some(Str(s)) => s
                                                    case _ => Join(path, ".")
  {
    SplitJoin(path, ".");
  }

  /** Before the bundle is loaded every key translates to itself. */
  lemma TranslateUnloaded(key: string)
    ensures Translate(None, key) == key
  {
    var keys := Split(key, ".");
    ResolveStopped(None, [], keys);
    assert [] + keys == keys;
  }

  /** The walk on a small bundle: a leaf string, a key that names an object, a
      missing key, a segment past a string, and array indices. */
  lemma TranslateExamples()
    ensures var m := Some(Obj(map["nav" := Obj(map["home" := Str("In\U{00ED}cio")]), "list" := Arr([Str("a")])]));
      && Resolve(m, ["nav", "home"]) == Some(Str("In\U{00ED}cio"))
      && Resolve(m, ["nav", "about"]) == None
      && Resolve(m, ["nav", "home", "x"]) == None
      && Resolve(m, ["list", "0"]) == Some(Str("a"))
      && Resolve(m, ["list", "00"]) == None
      && Resolve(m, ["list", "1"]) == None
  {
    var m := Some(Obj(map["nav" := Obj(map["home" := Str("In\U{00ED}cio")]), "list" := Arr([Str("a")])]));
    assert ["nav", "home", "x"][..2] == ["nav", "home"];
    assert DecimalValue("0") == 0;
    assert DecimalValue("1") == 1;
  }

  // ---------------------------------------------------------------------------
  // Per-locale texts

  /** What a text field holds: a plain string, or one string per locale (a locale
      the stored object lacks is missing from the map). */
  datatype LocalizedText = Plain(s: string) | PerLocale(texts: map<Locale, string>)

  /** `getMultilingualText(text)` (and the identical `useTranslatedText`) for the
      current `locale`; `None` is `undefined`. An empty string counts as missing. */
  function GetMultilingualText(locale: Locale, text: Option<LocalizedText>): (r: string)
    ensures text.None? ==> r == ""
    ensures text.Some? && text.value.Plain? ==> r == text.value.s
  {
    match text
    case None => ""
    case Some(Plain(s)) => s
    case Some(PerLocale(texts)) =>
      if locale in texts && texts[locale] != "" then texts[locale]
      else if EnUs in texts && texts[EnUs] != "" then texts[EnUs]
      else ""
  }

  /** The locale's own text when it has one, else the English text, else nothing;
      the result is never a text of a third locale. */
  lemma MultilingualFallback(locale: Locale, texts: map<Locale, string>)
    ensures var r := GetMultilingualText(locale, Some(PerLocale(texts)));
      && (locale in texts && texts[locale] != "" ==> r == texts[locale])
      && (r == "" || (locale in texts && r == texts[locale]) || (EnUs in texts && r == texts[EnUs]))
      && (r == "" <==> (locale !in texts || texts[locale] == "") && (EnUs !in texts || texts[EnUs] == ""))
  {
  }

  /** The texts of a JSON object, one per locale key it has as a string. */
  function TextsOf(v: Value): (r: LocalizedText)
    requires v.Obj?
    ensures r.PerLocale?
    ensures forall l :: l in r.texts <==> Code(l) in v.fields && v.fields[Code(l)].Str?
  {
    PerLocale(map l: Locale | Code(l) in v.fields && v.fields[Code(l)].Str? :: v.fields[Code(l)].s)
  }

  /** A text that passes `multilingualTextSchema` is shown in every locale without
      falling back. */
  lemma ValidTextNeedsNoFallback(v: Value, locale: Locale)
    requires Validators.IsMultilingualText(v)
    ensures GetMultilingualText(locale, Some(TextsOf(v))) == v.fields[Code(locale)].s
    ensures GetMultilingualText(locale, Some(TextsOf(v))) != ""
  {
    assert Code(locale) in Validators.LocaleKeys;
  }

  // ---------------------------------------------------------------------------
  // The provider

  /** `I18nProvider`: the current locale and loaded bundle, beside the browser
      state it reads and writes. */
  class I18nProvider {
    var locale: Locale
    var messages: Option<Value>
    var jar: seq<Cookie>
    var storage: map<string, string>
    const language: string

    ghost predicate Valid()
      reads this
    {
      ValidJar(jar)
    }

    function BrowserView(): Browser
      reads this
    {
      Browser(CookieString(jar), storage, language)
    }

    /** Mounting in the browser: the locale is `getInitialLocale()`, no bundle yet. */
    constructor (jar: seq<Cookie>, storage: map<string, string>, language: string)
      requires ValidJar(jar)
      ensures Valid()
      ensures this.jar == jar && this.storage == storage && this.language == language
      ensures locale == GetInitialLocale(Some(BrowserView())) && messages == None
    {
      this.jar := jar;
      this.storage := storage;
      this.language := language;
      messages := None;
      locale := GetInitialLocale(Some(Browser(CookieString(jar), storage, language)));
    }

    /** The effect that loads `messages/<locale>.json` once the import resolves. */
    method LoadMessages(bundle: Value)
      modifies this
      ensures messages == Some(bundle)
      ensures locale == old(locale) && jar == old(jar) && storage == old(storage)
    {
      messages := Some(bundle);
    }

    /** `saveLocale(l)`: the cookie and the storage entry both take `l`'s tag. */
    method SaveLocale(l: Locale)
      requires Valid()
      modifies this
      ensures Valid()
      ensures jar == SetCookie(old(jar), LocaleCookieName, Code(l))
      ensures storage == old(storage)[LocaleCookieName := Code(l)]
      ensures locale == old(locale) && messages == old(messages)
      ensures GetInitialLocale(Some(BrowserView())) == l
    {
      var written := SetCookie(jar, LocaleCookieName, Code(l));
      SetCookieKeepsValid(jar, LocaleCookieName, Code(l));
      SetCookieValue(jar, LocaleCookieName, Code(l), LocaleCookieName);
      InitialLocaleFromJar(written, storage[LocaleCookieName := Code(l)], language, l);
      jar := written;
      storage := storage[LocaleCookieName := Code(l)];
    }

    /** `setLocale(l)`: the state takes `l` and it is saved, so that the next visit
        starts in `l`. The bundle of the old locale stays until the new one loads. */
    method SetLocale(l: Locale)
      requires Valid()
      modifies this
      ensures Valid()
      ensures locale == l && messages == old(messages)
      ensures jar == SetCookie(old(jar), LocaleCookieName, Code(l))
      ensures storage == old(storage)[LocaleCookieName := Code(l)]
      ensures GetInitialLocale(Some(BrowserView())) == l
    {
      locale := l;
      SaveLocale(l);
    }

    /** `t(key)`. */
    method T(key: string) returns (r: string)
      ensures r == Translate(messages, key)
    {
      var keys := Split(key, ".");
      var value := messages;
      for i := 0 to |keys|
        invariant value == Resolve(messages, keys[..i])
      {
        assert keys[..i + 1][..i] == keys[..i];
        var next := Descend(value, keys[i]);
        if next.None? {
          ResolveStopped(messages, keys[..i + 1], keys[i + 1..]);
          assert keys[..i + 1] + keys[i + 1..] == keys;
          return key;
        }
        value := next;
      }
      assert keys[..|keys|] == keys;
      r := if value.Some? && value.value.Str? then value.value.s else key;
    }
  }
}
