/**
 * `LocaleManager` (locales/locale_manager.py): translations as nested
 * JSON objects per locale code, the dotted-key lookup of `get_text` with
 * its fallbacks, and the guarded locale switch of `set_locale`.
 */
module Locales {
  import opened Wrappers
  import opened Text

  /** A parsed JSON value, as far as `get_text` can tell them apart: a
      string, an object, or anything else (number, list, boolean, null). */
  datatype Value = Str(text: string) | Object(members: map<string, Value>) | Other

  /** What `_create_default_translations(code)` returns
      (locales/locale_manager.py:63-81). */
  function DefaultTranslations(code: string): (v: Value)
    ensures v.Object? && "interface" in v.members
  {
    Object(map["interface" := Object(map[
      "app_title" := Str("AMTU - Apple Music Tag Updater MP3"),
      "menu" := Object(map["language" := Str(if code == "fr" then "Langue" else "Language")])])])
  }

  /** `current = current[part]` for the parts from the k-th on: None as
      soon as a part is missing or the value is not an object (KeyError or
      TypeError). */
  function Walk(v: Value, parts: seq<string>, k: nat): Option<Value>
    decreases |parts| - k
  {
    if k >= |parts| then Some(v)
    else if v.Object? && parts[k] in v.members then Walk(v.members[parts[k]], parts, k + 1)
    else None
  }

  /** `default or key`. */
  function Fallback(default: Option<string>, key: string): string {
    if default.Some? && default.value != "" then default.value else key
  }

  /** `get_text(key, default, *args)` with the translations held and the
      current locale; `format(template, args)` is `template.format(*args)`,
      None when it raises. */
  function TextFor(translations: map<string, Value>, locale: string, key: string, default: Option<string>,
                   args: seq<string>, format: (string, seq<string>) -> Option<string>): string
  {
    if locale !in translations then Fallback(default, key)
    else match Walk(translations[locale], Split(key, '.'), 0)
      case None => Fallback(default, key)
      case Some(Str(template)) =>
        if args == [] then template
        else
          var formatted := format(template, args);
          if formatted.Some? then formatted.value else template
      case Some(_) => Fallback(default, key)
  }

  /** A key that leads to a string: that string when there are no
      arguments; otherwise the formatted string, or the template itself
      when formatting fails. */
  lemma TextForString(translations: map<string, Value>, locale: string, key: string, default: Option<string>,
                      args: seq<string>, format: (string, seq<string>) -> Option<string>, template: string)
    requires locale in translations && Walk(translations[locale], Split(key, '.'), 0) == Some(Str(template))
    ensures args == [] ==> TextFor(translations, locale, key, default, args, format) == template
    ensures args != [] && format(template, args).None? ==> TextFor(translations, locale, key, default, args, format) == template
    ensures args != [] && format(template, args).Some? ==>
      TextFor(translations, locale, key, default, args, format) == format(template, args).value
  {
  }

  /** A missing locale, a missing part, indexing into a non-object, or a
      key that ends on an object or another non-string value gives the
      default if it is non-empty and the key otherwise. */
  lemma TextForFallback(translations: map<string, Value>, locale: string, key: string, default: Option<string>,
                        args: seq<string>, format: (string, seq<string>) -> Option<string>)
    requires locale !in translations || Walk(translations[locale], Split(key, '.'), 0).None?
          || !Walk(translations[locale], Split(key, '.'), 0).value.Str?
    ensures TextFor(translations, locale, key, default, args, format)
         == if default.Some? && default.value != "" then default.value else key
  {
  }

  /** The menu entry of the default translations: "Langue" in French,
      "Language" in every other locale. */
  lemma DefaultLanguageEntry(code: string, format: (string, seq<string>) -> Option<string>)
    ensures var translations := map[code := DefaultTranslations(code)];
      TextFor(translations, code, "interface.menu.language", None, [], format)
        == if code == "fr" then "Langue" else "Language"
  {
    var translations := map[code := DefaultTranslations(code)];
    MenuKeyParts();
    DefaultWalk(code);
    TextForString(translations, code, "interface.menu.language", None, [], format,
                  if code == "fr" then "Langue" else "Language");
  }

  lemma MenuKeyParts()
    ensures Split("interface.menu.language", '.') == ["interface", "menu", "language"]
  {
    var parts := ["interface", "menu", "language"];
    assert Join(parts[2..], '.') == "language";
    assert Join(parts[1..], '.') == "menu.language";
    assert Join(parts, '.') == "interface.menu.language";
    SplitJoin(parts, '.');
  }

  lemma DefaultWalk(code: string)
    ensures Walk(DefaultTranslations(code), ["interface", "menu", "language"], 0)
         == Some(Str(if code == "fr" then "Langue" else "Language"))
  {
    var parts := ["interface", "menu", "language"];
    var word := Str(if code == "fr" then "Langue" else "Language");
    var menu := Object(map["language" := word]);
    var iface := Object(map["app_title" := Str("AMTU - Apple Music Tag Updater MP3"), "menu" := menu]);
    assert DefaultTranslations(code) == Object(map["interface" := iface]);
    assert Walk(word, parts, 3) == Some(word);
    assert Walk(menu, parts, 2) == Some(word);
    assert Walk(iface, parts, 1) == Some(word);
  }

  class LocaleManager {
    var currentLocale: string
    var translations: map<string, Value>
    var availableLocales: map<string, string>

    /** `__init__`: French, and for every available locale the
        translations its file holds, or the default translations when the
        file is missing or cannot be parsed. `stored(code)` is the parsed
        content of `<code>.json`, None in those two cases. */
    constructor (available: map<string, string>, stored: string -> Option<Value>)
      ensures currentLocale == "fr" && availableLocales == available
      ensures translations.Keys == available.Keys
      ensures forall code :: code in available ==>
        translations[code] == if stored(code).Some? then stored(code).value else DefaultTranslations(code)
    {
      currentLocale := "fr";
      availableLocales := available;
      translations := map code | code in available :: if stored(code).Some? then stored(code).value else DefaultTranslations(code);
    }

    /** `set_locale(code)`: switch only to an available locale. */
    method SetLocale(localeCode: string) returns (ok: bool)
      modifies this`currentLocale
      ensures ok <==> localeCode in availableLocales
      ensures currentLocale == if ok then localeCode else old(currentLocale)
    {
      if localeCode in availableLocales {
        currentLocale := localeCode;
        return true;
      }
      return false;
    }

    /** `get_text(key, default, *args)`. */
    method GetText(key: string, default: Option<string>, args: seq<string>, format: (string, seq<string>) -> Option<string>)
      returns (r: string)
      ensures r == TextFor(translations, currentLocale, key, default, args, format)
    {
      var parts := Split(key, '.');
      if currentLocale !in translations {
        return Fallback(default, key);
      }
      var current := translations[currentLocale];
      ghost var root := current;
      for k := 0 to |parts|
        invariant Walk(root, parts, 0) == Walk(current, parts, k)
      {
        if !(current.Object? && parts[k] in current.members) {
          return Fallback(default, key);
        }
        current := current.members[parts[k]];
      }
      if current.Str? {
        if args != [] {
          var formatted := format(current.text, args);
          if formatted.None? {
            return current.text;
          }
          return formatted.value;
        }
        return current.text;
      }
      return Fallback(default, key);
    }
  }
}
