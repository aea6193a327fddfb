/**
 * The three `I18nContext`s: the single-crate web app's, the shared
 * components' and the mobile app's. Each holds the current locale and the
 * loaded documents, restores the locale it was last set to, and persists the
 * tag on every change: the web contexts in `localStorage` under
 * "remind-me-locale" (only when compiled to WASM), the mobile one in a
 * preferences file.
 */
module I18n {
  import opened Wrappers
  import opened Strings
  import opened Locales
  import opened Translations
  import opened KeyValue

  /** The `localStorage` key of the saved tag. */
  const LocaleKey := "remind-me-locale"

  /** The locale a context starts in: the saved tag read through `Locale::from_str`, English when nothing is saved. */
  function Restored(saved: Option<string>): (l: Locale)
    ensures saved.None? ==> l == En
    ensures saved.Some? ==> l == FromStr(saved.value)
  {
    match saved
    case Some(s) => FromStr(s)
    case None => En
  }

  /** Every locale has a document. */
  predicate Complete(docs: Documents) {
    forall l: Locale :: AsStr(l) in docs
  }

  lemma LoadedIsComplete(docs: Documents, en: Json, hans: Json, hant: Json)
    requires Loaded(docs, en, hans, hant)
    ensures Complete(docs)
  {
    forall l: Locale
      ensures AsStr(l) in docs
    {
      assert AsStr(l) in {"en", "zh-Hans", "zh-Hant"};
    }
  }

  /** The tag a web context finds at start-up: only a WASM build with `localStorage` reads one. */
  function SavedTag(wasm: bool, storage: Store?): Option<string>
    reads storage
  {
    if wasm && storage != null then storage.Get(LocaleKey) else None
  }

  /** `I18nContext` of the single-crate app. */
  class LegacyContext {
    var currentLocale: Locale
    const docs: Documents
    /** Whether the app runs as WebAssembly in a browser. */
    const wasm: bool
    /** `window.local_storage()`, `null` when unavailable. */
    const storage: Store?

    ghost predicate Valid()
      reads this
    {
      Complete(docs)
    }

    /** `I18nContext::new`. */
    constructor(wasm: bool, en: Json, hans: Json, hant: Json, storage: Store?)
      ensures Valid() && Loaded(docs, en, hans, hant)
      ensures this.wasm == wasm && this.storage == storage
      ensures currentLocale == Restored(SavedTag(wasm, storage))
      ensures !wasm ==> currentLocale == En
    {
      var loaded := LoadTranslations(en, hans, hant);
      LoadedIsComplete(loaded, en, hans, hant);
      docs := loaded;
      this.wasm := wasm;
      this.storage := storage;
      currentLocale := Restored(SavedTag(wasm, storage));
    }

    /** `set_locale`: the field changes, and a WASM build writes the tag to `localStorage`. */
    method SetLocale(l: Locale)
      requires Valid()
      modifies this, storage
      ensures Valid()
      ensures currentLocale == l
      ensures storage != null ==>
        (storage.entries == if wasm && storage.accepts then old(storage.entries)[LocaleKey := AsStr(l)] else old(storage.entries))
    {
      currentLocale := l;
      if wasm && storage != null {
        var ok := storage.SetItem(LocaleKey, AsStr(l));
      }
    }

    /** `current_locale_str`: the tag, which reads back as the current locale. */
    function CurrentLocaleStr(): (r: string)
      reads this
      ensures FromStr(r) == currentLocale
      ensures r in docs <== Valid()
    {
      AsStr(currentLocale)
    }

    /** The English string for another locale, and the key otherwise or when English has none. */
    method EnglishOrKey(tag: string, key: string) returns (r: string)
      requires Valid()
      ensures r == if tag != "en" && Translation(docs, "en", key).Some? then Translation(docs, "en", key).value else key
    {
      if tag != "en" {
        assert AsStr(En) in docs;
        var english := NestedValue(docs["en"], key);
        r := english.GetOr(key);
      } else {
        r := key;
      }
    }

    /**
     * `t`: the walk through the current locale's document; at the first
     * missing member, or at a value that is not a string, the English string
     * (for another locale) or the key. This is the fallback the other two
     * contexts delegate to.
     */
    method T(key: string) returns (r: string)
      requires Valid()
      ensures r == WithFallback(docs, CurrentLocaleStr(), key)
    {
      var tag := AsStr(currentLocale);
      var doc := docs[tag];
      var parts := Split(key, '.');
      var current := doc;
      var i := 0;
      while i < |parts|
        invariant 0 <= i <= |parts|
        invariant Walk(doc, parts) == Walk(current, parts[i..])
      {
        assert parts[i..][1..] == parts[i + 1..];
        var next := Member(current, parts[i]);
        if next.None? {
          r := EnglishOrKey(tag, key);
          return;
        }
        current := next.value;
        i := i + 1;
      }
      assert parts[i..] == [];
      if current.Str? {
        return current.text;
      }
      r := EnglishOrKey(tag, key);
    }
  }

  /** `I18nContext` of the shared components crate. */
  class ComponentsContext {
    var currentLocale: Locale
    const docs: Documents
    const wasm: bool
    const storage: Store?

    ghost predicate Valid()
      reads this
    {
      Complete(docs)
    }

    /** `I18nContext::new`. */
    constructor(wasm: bool, en: Json, hans: Json, hant: Json, storage: Store?)
      ensures Valid() && Loaded(docs, en, hans, hant)
      ensures this.wasm == wasm && this.storage == storage
      ensures currentLocale == Restored(SavedTag(wasm, storage))
    {
      var loaded := LoadTranslations(en, hans, hant);
      LoadedIsComplete(loaded, en, hans, hant);
      docs := loaded;
      this.wasm := wasm;
      this.storage := storage;
      currentLocale := Restored(SavedTag(wasm, storage));
    }

    /** `set_locale`: only the locale field changes; a WASM build writes the tag to `localStorage`. */
    method SetLocale(l: Locale)
      requires Valid()
      modifies this, storage
      ensures Valid()
      ensures currentLocale == l
      ensures storage != null ==>
        (storage.entries == if wasm && storage.accepts then old(storage.entries)[LocaleKey := AsStr(l)] else old(storage.entries))
    {
      currentLocale := l;
      if wasm && storage != null {
        var ok := storage.SetItem(LocaleKey, AsStr(l));
      }
    }

    function CurrentLocaleStr(): (r: string)
      reads this
      ensures FromStr(r) == currentLocale
    {
      AsStr(currentLocale)
    }

    /** `t`: the current locale's string, else the English one, else the key itself. */
    function T(key: string): (r: string)
      reads this
      ensures r == WithFallback(docs, CurrentLocaleStr(), key)
      ensures Translation(docs, CurrentLocaleStr(), key).Some? ==> r == Translation(docs, CurrentLocaleStr(), key).value
      ensures Translation(docs, CurrentLocaleStr(), key).None? && CurrentLocaleStr() != "en" && Translation(docs, "en", key).Some? ==>
        r == Translation(docs, "en", key).value
      ensures Translation(docs, CurrentLocaleStr(), key).None? && (CurrentLocaleStr() == "en" || Translation(docs, "en", key).None?) ==>
        r == key
    {
      WithFallback(docs, CurrentLocaleStr(), key)
    }
  }

  /** What the preferences file holds: nothing, text that is not JSON, or a JSON value. */
  datatype PrefsContent = Missing | Unparsable | Parsed(json: Json)

  /** The JSON `save_locale_to_storage` writes. */
  function PrefsDoc(locale: string): Json {
    Obj(map["locale" := Str(locale)])
  }

  /** `load_locale_from_storage`: the string member "locale" of a JSON file. */
  function LoadLocale(content: PrefsContent): (r: Option<string>)
    ensures r.Some? <==> content.Parsed? && Member(content.json, "locale").Some? && Member(content.json, "locale").value.Str?
    ensures r.Some? ==> r.value == Member(content.json, "locale").value.text
  {
    if content.Parsed? then
      match Member(content.json, "locale")
      case Some(Str(s)) => Some(s)
      case _ => None
    else None
  }

  /** The file "data/preferences.json". */
  class PrefsFile {
    var content: PrefsContent
    /** Whether `create_dir_all("data")` succeeds. */
    const dirCreatable: bool
    /** Whether `fs::write` succeeds. */
    const writable: bool

    constructor(content: PrefsContent, dirCreatable: bool, writable: bool)
      ensures this.content == content && this.dirCreatable == dirCreatable && this.writable == writable
    {
      this.content := content;
      this.dirCreatable := dirCreatable;
      this.writable := writable;
    }

    /** `save_locale_to_storage`: {"locale": tag} replaces the file unless the directory or the write fails. */
    method SaveLocale(locale: string)
      modifies this
      ensures content == if dirCreatable && writable then Parsed(PrefsDoc(locale)) else old(content)
    {
      if !dirCreatable {
        return;
      }
      if writable {
        content := Parsed(PrefsDoc(locale));
      }
    }
  }

  /** `I18nContext` of the mobile app. */
  class MobileContext {
    var currentLocale: Locale
    const docs: Documents
    const prefs: PrefsFile

    ghost predicate Valid()
      reads this
    {
      Complete(docs)
    }

    /** `I18nContext::new`. */
    constructor(en: Json, hans: Json, hant: Json, prefs: PrefsFile)
      ensures Valid() && Loaded(docs, en, hans, hant)
      ensures this.prefs == prefs
      ensures currentLocale == Restored(LoadLocale(prefs.content))
    {
      var loaded := LoadTranslations(en, hans, hant);
      LoadedIsComplete(loaded, en, hans, hant);
      docs := loaded;
      this.prefs := prefs;
      currentLocale := Restored(LoadLocale(prefs.content));
    }

    /** `set_locale`: the field changes and the tag is saved to the preferences file. */
    method SetLocale(l: Locale)
      requires Valid()
      modifies this, prefs
      ensures Valid()
      ensures currentLocale == l
      ensures prefs.content == if prefs.dirCreatable && prefs.writable then Parsed(PrefsDoc(AsStr(l))) else old(prefs.content)
    {
      currentLocale := l;
      prefs.SaveLocale(AsStr(l));
    }

    function CurrentLocaleStr(): (r: string)
      reads this
      ensures FromStr(r) == currentLocale
    {
      AsStr(currentLocale)
    }

    /** `t`: the fallback lookup under the current tag. */
    function T(key: string): (r: string)
      reads this
      ensures r == WithFallback(docs, CurrentLocaleStr(), key)
      ensures Translation(docs, CurrentLocaleStr(), key).Some? ==> r == Translation(docs, CurrentLocaleStr(), key).value
      ensures Translation(docs, CurrentLocaleStr(), key).None? && CurrentLocaleStr() != "en" && Translation(docs, "en", key).Some? ==>
        r == Translation(docs, "en", key).value
      ensures Translation(docs, CurrentLocaleStr(), key).None? && (CurrentLocaleStr() == "en" || Translation(docs, "en", key).None?) ==>
        r == key
    {
      WithFallback(docs, CurrentLocaleStr(), key)
    }
  }

  // ---------------------------------------------------------------------------
  // Properties

  /** The tag a context saves is restored as the same locale. */
  lemma SavedTagRestores(l: Locale)
    ensures Restored(Some(AsStr(l))) == l
  {
    FromStrAsStr(l);
  }

  /** A saved value that is none of the known tags or aliases restores English. */
  lemma UnknownTagRestoresEnglish(s: string)
    requires s !in {"zh-Hans", "zh-CN", "zh", "zh-Hant", "zh-TW"}
    ensures Restored(Some(s)) == En
  {
    FromStrAliases(s);
  }

  /** The preferences file written for a tag reads back as that tag. */
  lemma PrefsRoundTrip(locale: string)
    ensures LoadLocale(Parsed(PrefsDoc(locale))) == Some(locale)
  {
  }

  /** A mobile context started after a successful save restores the saved locale. */
  lemma MobileRestartRestores(l: Locale)
    ensures Restored(LoadLocale(Parsed(PrefsDoc(AsStr(l))))) == l
  {
    PrefsRoundTrip(AsStr(l));
    SavedTagRestores(l);
  }

  /** A web context started after a successful save in a WASM build restores the saved locale. */
  lemma WebRestartRestores(storage: Store, l: Locale)
    requires storage.Get(LocaleKey) == Some(AsStr(l))
    ensures Restored(SavedTag(true, storage)) == l
  {
    SavedTagRestores(l);
  }
}
