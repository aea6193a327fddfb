/**
 * Translation documents and dotted-key lookup. A document is a JSON value;
 * a key such as "app.title" names the string found by following its
 * '.'-separated parts through nested objects. The table of documents is keyed
 * by locale tag, with "zh" and "zh-TW" sharing the documents of "zh-Hans" and
 * "zh-Hant".
 */
module Translations {
  import opened Wrappers
  import opened Strings

  /** A JSON value as the lookup sees it: a string, an object, or anything else. */
  datatype Json = Str(text: string) | Obj(fields: map<string, Json>) | Other

  /** The documents by locale tag. */
  type Documents = map<string, Json>

  /** `Value::get(part)`: only an object has members. */
  function Member(v: Json, part: string): (r: Option<Json>)
    ensures r.Some? <==> v.Obj? && part in v.fields
  {
    if v.Obj? && part in v.fields then Some(v.fields[part]) else None
  }

  /** The value reached by following `parts` from `v`, if every step finds a member. */
  function Walk(v: Json, parts: seq<string>): Option<Json>
    decreases |parts|
  {
    if parts == [] then Some(v)
    else match Member(v, parts[0])
      case None => None
      case Some(w) => Walk(w, parts[1..])
  }

  /** The string leaf at a dotted key, if there is one. */
  function Lookup(doc: Json, key: string): (r: Option<string>)
    ensures r.Some? ==> doc.Obj? && Split(key, '.')[0] in doc.fields
  {
    match Walk(doc, Split(key, '.'))
    case Some(Str(s)) => Some(s)
    case _ => None
  }

  /** The value `get_translation` specifies. */
  function Translation(docs: Documents, locale: string, key: string): (r: Option<string>)
    ensures locale !in docs ==> r.None?
    ensures r.Some? ==> docs[locale].Obj? && Split(key, '.')[0] in docs[locale].fields
  {
    if locale in docs then Lookup(docs[locale], key) else None
  }

  /** `get_translation_with_fallback`: the locale's string, else (for another locale than "en") the English string, else the key. */
  function WithFallback(docs: Documents, locale: string, key: string): (r: string)
    ensures r == key || Translation(docs, locale, key) == Some(r) || Translation(docs, "en", key) == Some(r)
  {
    match Translation(docs, locale, key)
    case Some(t) => t
    case None =>
      if locale != "en" && Translation(docs, "en", key).Some? then Translation(docs, "en", key).value
      else key
  }

  /**
   * The loop both `get_translation` and `get_nested_value` run: step through
   * the parts of the key, giving up at the first missing member, and accept
   * only a string at the end.
   */
  method NestedValue(doc: Json, key: string) returns (r: Option<string>)
    ensures r == Lookup(doc, key)
  {
    var parts := Split(key, '.');
    var current := doc;
    var i := 0;
    while i < |parts|
      invariant 0 <= i <= |parts|
      invariant Walk(doc, parts) == Walk(current, parts[i..])
    {
      assert parts[i..][1..] == parts[i + 1..];
      var next := Member(current, parts[i]);
      if next.None? {
        return None;
      }
      current := next.value;
      i := i + 1;
    }
    assert parts[i..] == [];
    if current.Str? {
      return Some(current.text);
    }
    return None;
  }

  /** `get_translation`: nothing for a locale without a document, otherwise the walk through its document. */
  method GetTranslation(docs: Documents, locale: string, key: string) returns (r: Option<string>)
    ensures r == Translation(docs, locale, key)
  {
    if locale !in docs {
      return None;
    }
    r := NestedValue(docs[locale], key);
  }

  /** The keys `load_translations` fills. */
  predicate Loaded(docs: Documents, en: Json, hans: Json, hant: Json) {
    docs.Keys == {"en", "zh-Hans", "zh", "zh-Hant", "zh-TW"}
    && docs["en"] == en
    && docs["zh-Hans"] == hans && docs["zh"] == hans
    && docs["zh-Hant"] == hant && docs["zh-TW"] == hant
  }

  /** `load_translations`, with the three parsed documents as inputs. */
  method LoadTranslations(en: Json, hans: Json, hant: Json) returns (docs: Documents)
    ensures Loaded(docs, en, hans, hant)
  {
    docs := map[];
    docs := docs["en" := en];
    docs := docs["zh-Hans" := hans];
    docs := docs["zh" := hans];
    docs := docs["zh-Hant" := hant];
    docs := docs["zh-TW" := hant];
  }

  // ---------------------------------------------------------------------------
  // Properties

  /** Following a path in two pieces is following the first piece and then the second. */
  lemma {:induction false} WalkAppend(v: Json, a: seq<string>, b: seq<string>)
    ensures Walk(v, a + b) == match Walk(v, a) case None => None case Some(w) => Walk(w, b)
    decreases |a|
  {
    if a == [] {
      assert a + b == b;
    } else {
      assert (a + b)[0] == a[0];
      assert (a + b)[1..] == a[1..] + b;
      match Member(v, a[0])
      case None =>
      case Some(w) => WalkAppend(w, a[1..], b);
    }
  }

  /**
   * A key reads the string stored under its parts, and nothing more: a
   * missing member on the way or a value that is not a string gives nothing.
   */
  lemma LookupCases(doc: Json, key: string)
    ensures Lookup(doc, key).Some? <==>
      (Walk(doc, Split(key, '.')).Some? && Walk(doc, Split(key, '.')).value.Str?)
    ensures Lookup(doc, key).Some? ==> Lookup(doc, key).value == Walk(doc, Split(key, '.')).value.text
  {
  }

  /** A key without '.' is a single member of the top-level object. */
  lemma {:induction false} LookupTopLevel(fields: map<string, Json>, key: string)
    requires '.' !in key
    ensures Lookup(Obj(fields), key) == if key in fields && fields[key].Str? then Some(fields[key].text) else None
  {
    SplitNoSeparator(key, '.');
    assert [key][1..] == [];
    var v := Obj(fields);
    if key in fields {
      assert Walk(v, [key]) == Walk(fields[key], []);
    } else {
      assert Walk(v, [key]) == None;
    }
  }

  /** A locale without a document translates nothing. */
  lemma MissingLocale(docs: Documents, locale: string, key: string)
    requires locale !in docs
    ensures Translation(docs, locale, key) == None
    ensures WithFallback(docs, locale, key) == if locale != "en" && Translation(docs, "en", key).Some? then Translation(docs, "en", key).value else key
  {
  }

  /** The fallback order: a hit in the locale wins, then an English hit for another locale, then the key. */
  lemma FallbackOrder(docs: Documents, locale: string, key: string)
    ensures Translation(docs, locale, key).Some? ==> WithFallback(docs, locale, key) == Translation(docs, locale, key).value
    ensures Translation(docs, locale, key).None? && locale != "en" && Translation(docs, "en", key).Some? ==>
      WithFallback(docs, locale, key) == Translation(docs, "en", key).value
    ensures Translation(docs, locale, key).None? && (locale == "en" || Translation(docs, "en", key).None?) ==>
      WithFallback(docs, locale, key) == key
  {
  }

  /** The aliases read the same documents as the tags they stand for. */
  lemma AliasesShareDocuments(docs: Documents, en: Json, hans: Json, hant: Json, key: string)
    requires Loaded(docs, en, hans, hant)
    ensures Translation(docs, "zh", key) == Translation(docs, "zh-Hans", key)
    ensures Translation(docs, "zh-TW", key) == Translation(docs, "zh-Hant", key)
    ensures WithFallback(docs, "zh", key) == WithFallback(docs, "zh-Hans", key)
    ensures WithFallback(docs, "zh-TW", key) == WithFallback(docs, "zh-Hant", key)
  {
  }

  /** Only the loaded tags have documents: "zh-CN", accepted as a locale alias, has none. */
  lemma LoadedTags(docs: Documents, en: Json, hans: Json, hant: Json, tag: string)
    requires Loaded(docs, en, hans, hant)
    ensures tag in docs <==> tag in {"en", "zh-Hans", "zh", "zh-Hant", "zh-TW"}
  {
  }
}
