/**
 * The browser side of routing, as the web crate and the wasm build of the
 * shared crate do it: which route the app starts on, and which landing-page
 * section the address asks for.
 */
module WebRouter {
  import opened Wrappers
  import opened Strings
  import opened Browser
  import opened SharedRouter
  import opened Deployment

  /** The landing-page sections a URL may select. */
  const Sections: set<string> := {"features", "how", "pricing", "faq"}

  predicate IsSection(s: string) {
    s in Sections
  }

  // ---------------------------------------------------------------------------
  // Start-up route

  /**
   * `get_initial_route`: a non-empty hash decides; otherwise a pathname that
   * carries a locale; otherwise the stored locale tag, taken as it is; otherwise
   * English. Without a window (or off the browser build) the answer is the default.
   */
  function InitialRoute(e: Env): (Route, string) {
    if !e.wasm || e.window.None? then (Landing, "en")
    else
      var w := e.window.value;
      var base := BasePath(e);
      if w.hash.Some? && TrimStart(w.hash.value, '#') != [] then FromPath(TrimStart(w.hash.value, '#'), base)
      else if w.pathname.Some? && PathHasLocalePrefix(w.pathname.value, base) then FromPath(w.pathname.value, base)
      else if w.storedLocale.Some? && w.storedLocale.value.Some? then (Landing, w.storedLocale.value.value)
      else (Landing, "en")
  }

  /**
   * `InitialRoute` with the hash read without stripping the base path. Hash
   * routes are written by `to_hash`, which never puts the base path in them.
   */
  function InitialRouteIntended(e: Env): (Route, string) {
    if !e.wasm || e.window.None? then (Landing, "en")
    else
      var w := e.window.value;
      var base := BasePath(e);
      if w.hash.Some? && TrimStart(w.hash.value, '#') != [] then FromPath(TrimStart(w.hash.value, '#'), [])
      else if w.pathname.Some? && PathHasLocalePrefix(w.pathname.value, base) then FromPath(w.pathname.value, base)
      else if w.storedLocale.Some? && w.storedLocale.value.Some? then (Landing, w.storedLocale.value.value)
      else (Landing, "en")
  }

  /** The two readings differ only when the base path is a prefix of the hash route. */
  lemma IntendedAgreesUnlessBaseInHash(e: Env)
    requires e.wasm && e.window.Some?
    requires var w := e.window.value;
      w.hash.Some? ==> BasePath(e) == [] || !StartsWith(TrimStart(w.hash.value, '#'), BasePath(e))
    ensures InitialRouteIntended(e) == InitialRoute(e)
  {
    var w := e.window.value;
    if w.hash.Some? {
      ForeignBaseIgnored(TrimStart(w.hash.value, '#'), BasePath(e));
    }
  }

  /** A non-empty hash decides the start-up route, whatever the pathname and the stored locale say. */
  lemma HashDecidesFirst(e: Env, h: string)
    requires e.wasm && e.window.Some? && e.window.value.hash == Some(h) && TrimStart(h, '#') != []
    ensures InitialRoute(e) == FromPath(TrimStart(h, '#'), BasePath(e))
  {
  }

  /** A hash made of '#' and a route is read as that route. */
  lemma HashRouteRead(e: Env, route: string)
    requires e.wasm && e.window.Some? && e.window.value.hash == Some(['#'] + route)
    requires route != [] && route[0] != '#'
    ensures InitialRoute(e) == FromPath(route, BasePath(e))
  {
    TrimOne('#', route);
  }

  /** Without a usable hash, a pathname without a locale is ignored in favour of the stored tag, which is returned verbatim. */
  lemma StoredLocaleVerbatim(e: Env, stored: string)
    requires e.wasm && e.window.Some?
    requires e.window.value.hash.None? || TrimStart(e.window.value.hash.value, '#') == []
    requires e.window.value.pathname.None? || !PathHasLocalePrefix(e.window.value.pathname.value, BasePath(e))
    requires e.window.value.storedLocale == Some(Some(stored))
    ensures InitialRoute(e) == (Landing, stored)
  {
  }

  /** With nothing to go on the app starts on the English landing page. */
  lemma DefaultRoute(e: Env)
    requires e.wasm && e.window.Some?
    requires e.window.value.hash.None? || TrimStart(e.window.value.hash.value, '#') == []
    requires e.window.value.pathname.None? || !PathHasLocalePrefix(e.window.value.pathname.value, BasePath(e))
    requires e.window.value.storedLocale.None? || e.window.value.storedLocale.value.None?
    ensures InitialRoute(e) == (Landing, "en")
  {
  }

  /**
   * A pathname that carries a locale is used when the hash is empty: a
   * reload of a page reached by a path route returns to that route.
   */
  lemma PathRouteIsRestored(e: Env, r: Route, l: string)
    requires e.wasm && e.window.Some? && !IsGithubPages(e)
    requires e.window.value.hash.None? || TrimStart(e.window.value.hash.value, '#') == []
    requires e.window.value.pathname == Some(ToPath(r, l))
    requires l != [] && '/' !in l && IsLocaleToken(l) && l != "zh"
    ensures InitialRoute(e) == (r, l)
  {
    BasePathOnlyOnGithubPages(e);
    PathRouteParses(r, l);
  }

  /** A hash route written by `to_hash` reads back as itself when the hash is read without the base path. */
  lemma HashRouteIsRestored(e: Env, r: Route, l: string)
    requires e.wasm && e.window.Some? && e.window.value.hash == Some(ToHash(r, l))
    requires l != [] && '/' !in l && IsLocaleToken(l) && l != "zh"
    ensures InitialRouteIntended(e) == (r, l)
  {
    ToHashIsHashedPath(r, l);
    ToPathShape(r, l);
    TrimOne('#', ToPath(r, l));
    PathRouteParses(r, l);
  }

  lemma PathRouteParses(r: Route, l: string)
    requires l != [] && '/' !in l && IsLocaleToken(l) && l != "zh"
    ensures PathHasLocalePrefix(ToPath(r, l), []) && FromPath(ToPath(r, l), []) == (r, l)
  {
    var p := ToPath(r, l);
    ToPathShape(r, l);
    SegmentsOfLocalePath(l, Suffix(r));
    assert Effective(p, []) == p;
    assert TakesLocaleBranch(p, []);
    assert p[0] == '/';
    RoundTrip([], r, l);
    assert [] + p == p;
  }

  // ---------------------------------------------------------------------------
  // Query parameters

  /** The query without one leading '?'. */
  function QueryBody(search: string): string {
    if search != [] && search[0] == '?' then search[1..] else search
  }

  /** The value of the first non-empty '&'-separated pair whose key is `key`. */
  function FirstValue(pairs: seq<string>, key: string): (r: Option<string>)
    ensures r.Some? ==> exists p :: p in pairs && p != [] && KeyOf(p) == key && ValueOf(p) == r.value
    ensures r.None? ==> forall p :: p in pairs && p != [] ==> KeyOf(p) != key
  {
    if pairs == [] then None
    else if pairs[0] != [] && KeyOf(pairs[0]) == key then Some(ValueOf(pairs[0]))
    else FirstValue(pairs[1..], key)
  }

  /** A value is found only in a non-empty pair with that key, and nothing is found only when no such pair exists. */
  lemma {:induction false} FirstValueSound(pairs: seq<string>, key: string)
    ensures var r := FirstValue(pairs, key);
      (r.Some? ==> exists i :: 0 <= i < |pairs| && pairs[i] != [] && KeyOf(pairs[i]) == key && ValueOf(pairs[i]) == r.value)
      && (r.None? ==> forall i :: 0 <= i < |pairs| && pairs[i] != [] ==> KeyOf(pairs[i]) != key)
  {
    if pairs != [] {
      FirstValueSound(pairs[1..], key);
      assert forall i :: 1 <= i < |pairs| ==> pairs[i] == pairs[1..][i - 1];
      if !(pairs[0] != [] && KeyOf(pairs[0]) == key) && FirstValue(pairs, key).Some? {
        var j :| 0 <= j < |pairs[1..]| && pairs[1..][j] != [] && KeyOf(pairs[1..][j]) == key && ValueOf(pairs[1..][j]) == FirstValue(pairs, key).value;
        assert pairs[j + 1] == pairs[1..][j];
      }
    }
  }

  /** The value `get_query_param` finds for `key` in a query string. */
  function QueryParam(search: string, key: string): (r: Option<string>)
    ensures QueryBody(search) == [] ==> r.None?
    ensures r.Some? ==> exists p :: p in Split(QueryBody(search), '&') && p != [] && KeyOf(p) == key && ValueOf(p) == r.value
  {
    var body := QueryBody(search);
    if body == [] then None else FirstValue(Split(body, '&'), key)
  }

  /** `get_query_param`: scans the pairs in order and stops at the first whose key matches. */
  method GetQueryParam(search: string, key: string) returns (r: Option<string>)
    ensures r == QueryParam(search, key)
  {
    var body := if search != [] && search[0] == '?' then search[1..] else search;
    if body == [] {
      return None;
    }
    var pairs := Split(body, '&');
    var i := 0;
    while i < |pairs|
      invariant 0 <= i <= |pairs|
      invariant FirstValue(pairs, key) == FirstValue(pairs[i..], key)
    {
      assert pairs[i..][1..] == pairs[i + 1..];
      var pair := pairs[i];
      if pair != [] {
        var (k, rest) := Cut(pair, '=');
        var v := if rest == [] then [] else rest[1..];
        if k == key {
          return Some(v);
        }
      }
      i := i + 1;
    }
    return None;
  }

  /** The value found is the first match: no earlier non-empty pair has that key. */
  lemma {:induction false} FirstValueIsFirst(pairs: seq<string>, key: string, i: nat)
    requires i < |pairs| && pairs[i] != [] && KeyOf(pairs[i]) == key
    requires forall j :: 0 <= j < i && pairs[j] != [] ==> KeyOf(pairs[j]) != key
    ensures FirstValue(pairs, key) == Some(ValueOf(pairs[i]))
    decreases i
  {
    if i > 0 {
      FirstValueIsFirst(pairs[1..], key, i - 1);
    }
  }

  /** A key written as "key=value" at the front of a query, with no '&' in the value, is read back. */
  lemma {:induction false} QueryParamReadsBack(key: string, value: string, rest: string)
    requires key != [] && '=' !in key && '&' !in key && '&' !in value
    requires rest == [] || rest[0] == '&'
    ensures QueryParam("?" + key + "=" + value + rest, key) == Some(value)
  {
    var pair := key + "=" + value;
    var search := "?" + pair + rest;
    assert search == "?" + key + "=" + value + rest;
    assert QueryBody(search) == pair + rest by { assert search[1..] == pair + rest; }
    assert '&' !in pair by { assert pair == key + ['='] + value; }
    if rest == [] {
      assert pair + rest == pair;
      SplitNoSeparator(pair, '&');
    } else {
      assert pair + rest == pair + ['&'] + rest[1..];
      SplitAtSeparator(pair, '&', rest[1..]);
    }
    var pairs := Split(pair + rest, '&');
    assert pairs[0] == pair;
    KeyValueOf(key, value);
    FirstValueIsFirst(pairs, key, 0);
  }

  lemma {:induction false} KeyValueOf(key: string, value: string)
    requires '=' !in key
    ensures KeyOf(key + "=" + value) == key && ValueOf(key + "=" + value) == value
    decreases |key|
  {
    var pair := key + "=" + value;
    if key == [] {
      assert pair == "=" + value;
      assert pair[1..] == value;
    } else {
      assert pair[1..] == key[1..] + "=" + value;
      KeyValueOf(key[1..], value);
      assert [key[0]] + key[1..] == key;
    }
  }

  // ---------------------------------------------------------------------------
  // Landing-page section

  /** A query string's "section" value, if it names a section. */
  function SectionOf(search: string): (r: Option<string>)
    ensures r.Some? ==> IsSection(r.value)
  {
    var v := QueryParam(search, "section");
    if v.Some? && IsSection(v.value) then v else None
  }

  /** The section a hash selects: through a "?section=" part, else by being a section name. */
  function SectionFromHash(hash: string): (r: Option<string>)
    ensures r.Some? ==> IsSection(r.value)
  {
    var trimmed := TrimStart(TrimStart(hash, '#'), '/');
    var fromQuery := match SplitOnce(trimmed, '?') case Some((_, q)) => SectionOf(q) case None => None;
    if fromQuery.Some? then fromQuery
    else if IsSection(TrimStart(trimmed, '/')) then Some(TrimStart(trimmed, '/'))
    else None
  }

  /** The section the search names, read only when the search is present and non-empty. */
  function QuerySection(search: Option<string>): (r: Option<string>)
    ensures r.Some? ==> IsSection(r.value)
  {
    if search.Some? && search.value != [] then SectionOf(search.value) else None
  }

  /**
   * `get_landing_section_from_url`: the "section" query parameter when it names
   * a section; otherwise what the hash selects.
   */
  function SectionFromUrl(e: Env): (r: Option<string>)
    ensures r.Some? ==> IsSection(r.value)
  {
    if !e.wasm || e.window.None? then None
    else
      var w := e.window.value;
      var fromQuery := QuerySection(w.search);
      if fromQuery.Some? then fromQuery
      else if w.hash.None? then None
      else SectionFromHash(w.hash.value)
  }

  /** A valid section in the query wins over anything in the hash. */
  lemma QueryBeatsHash(e: Env)
    requires e.wasm && e.window.Some? && e.window.value.search.Some?
    requires SectionOf(e.window.value.search.value).Some?
    ensures SectionFromUrl(e) == SectionOf(e.window.value.search.value)
  {
  }

  /** A lone "key=value" pair, with or without the leading '?', reads back. */
  lemma PairReadsBack(key: string, value: string)
    requires key != [] && '=' !in key && '&' !in key && '?' !in key && '&' !in value
    ensures QueryParam(key + "=" + value, key) == Some(value)
    ensures QueryParam("?" + key + "=" + value, key) == Some(value)
  {
    QueryParamReadsBack(key, value, []);
    assert "?" + key + "=" + value + [] == "?" + key + "=" + value;
    var q := key + "=" + value;
    assert q[0] == key[0] && key[0] != '?' by {
      assert key[0] in key;
    }
    assert QueryBody(q) == q;
    assert '&' !in q by { assert q == key + ['='] + value; }
    SplitNoSeparator(q, '&');
    KeyValueOf(key, value);
    FirstValueIsFirst([q], key, 0);
  }

  lemma SectionKey()
    ensures var k := "section"; k != [] && '=' !in k && '&' !in k && '?' !in k
  {
  }

  lemma SectionText(s: string)
    ensures "?section=" + s == "?" + "section" + "=" + s
    ensures "section=" + s == "section" + "=" + s
  {
  }

  lemma SectionParamReadsBack(s: string)
    requires '&' !in s
    ensures QueryParam("?section=" + s, "section") == Some(s)
    ensures QueryParam("section=" + s, "section") == Some(s)
  {
    SectionKey();
    PairReadsBack("section", s);
    SectionText(s);
  }

  lemma SectionOfHit(s: string, q: string)
    requires IsSection(s) && QueryParam(q, "section") == Some(s)
    ensures SectionOf(q) == Some(s)
  {
  }

  /** "section=s" for a section s, with or without the leading '?', reads back as s. */
  lemma SectionQueryReadsBack(s: string)
    requires IsSection(s)
    ensures SectionOf("?section=" + s) == Some(s)
    ensures SectionOf("section=" + s) == Some(s)
  {
    SectionShape(s);
    SectionParamReadsBack(s);
    SectionOfHit(s, "?section=" + s);
    SectionOfHit(s, "section=" + s);
  }

  /** What the four section names have in common. */
  lemma SectionShape(s: string)
    requires IsSection(s)
    ensures s != [] && s[0] != '/' && '?' !in s && '&' !in s && '#' !in s
  {
  }

  /** The legacy anchors "#s" and "#/s" select the section s. */
  lemma LegacyAnchors(e: Env, s: string)
    requires IsSection(s)
    requires e.wasm && e.window.Some? && e.window.value.search == Some([])
    requires e.window.value.hash == Some("#" + s) || e.window.value.hash == Some("#/" + s)
    ensures SectionFromUrl(e) == Some(s)
  {
    SectionShape(s);
    TrimOne('/', s);
    if e.window.value.hash == Some("#" + s) {
      TrimOne('#', s);
    } else {
      assert "#/" + s == ['#'] + (['/'] + s);
      TrimOne('#', ['/'] + s);
    }
  }

  lemma HashText(l: string, q: string)
    ensures "#/" + l + "/?" + q == ['#'] + (['/'] + ((l + "/") + (['?'] + q)))
  {
  }

  /** The trimmed hash of "#/{l}/?{q}" splits at its '?' into "{l}/" and q. */
  lemma HashQuerySplits(l: string, q: string)
    requires l != [] && l[0] != '/' && l[0] != '#' && '?' !in l
    ensures SplitOnce(TrimStart(TrimStart("#/" + l + "/?" + q, '#'), '/'), '?') == Some((l + "/", q))
  {
    var hash := (l + "/") + (['?'] + q);
    var t := ['/'] + hash;
    HashText(l, q);
    TrimOne('#', t);
    TrimOne('/', hash);
    assert '?' !in l + "/";
    CutAtFirst(l + "/", ['?'] + q, '?');
  }

  /** With an empty query, a hash whose trimmed form carries a section query decides the section. */
  lemma SectionFromHashQuery(h: string, front: string, q: string)
    requires SplitOnce(TrimStart(TrimStart(h, '#'), '/'), '?') == Some((front, q))
    requires SectionOf(q).Some?
    ensures SectionFromHash(h) == SectionOf(q)
  {
  }

  lemma SectionHashText(l: string, s: string)
    ensures ToHash(Landing, l) + "?section=" + s == "#/" + l + "/?" + ("section=" + s)
  {
  }

  /** With no query string, the hash decides. */
  lemma EmptySearchDefersToHash(e: Env, h: string)
    requires e.wasm && e.window.Some? && e.window.value.search == Some([]) && e.window.value.hash == Some(h)
    ensures SectionFromUrl(e) == SectionFromHash(h)
  {
    assert e.window.value.search.value == [];
  }

  /** A search that names no section defers to the hash. */
  lemma NoQuerySectionDefersToHash(e: Env, q: string, h: string)
    requires e.wasm && e.window.Some? && e.window.value.search == Some(q) && e.window.value.hash == Some(h)
    requires QuerySection(Some(q)).None?
    ensures SectionFromUrl(e) == SectionFromHash(h)
  {
    var w := e.window.value;
    calc {
      SectionFromUrl(e);
    == { assert QuerySection(w.search).None? && w.hash.Some?; }
      SectionFromHash(w.hash.value);
    == { assert w.hash.value == h; }
      SectionFromHash(h);
    }
  }

  /** The hash query "#/{l}/?section=s" selects the section s. */
  lemma HashQueryForm(l: string, s: string)
    requires IsSection(s)
    requires l != [] && l[0] != '/' && l[0] != '#' && '?' !in l
    ensures SectionFromHash(ToHash(Landing, l) + "?section=" + s) == Some(s)
  {
    var q := "section=" + s;
    SectionHashText(l, s);
    HashQuerySplits(l, q);
    SectionQueryReadsBack(s);
    SectionFromHashQuery(ToHash(Landing, l) + "?section=" + s, l + "/", q);
  }

  lemma PathHrefText(l: string, s: string, base: string)
    requires IsSection(s) && '?' !in l && '#' !in l && '?' !in base && '#' !in base
    ensures var path := base + "/" + l + "/";
      LandingSectionHref(l, Some(s), base, false) == path + ("?section=" + s) + []
      && '#' !in path && '?' !in path && '#' !in "?section=" + s
  {
    SectionShape(s);
    LandingSectionHrefShape(l, Some(s), base, false);
  }

  lemma HashHrefText(l: string, s: string, base: string)
    requires s != []
    ensures LandingSectionHref(l, Some(s), base, true) == base + [] + (ToHash(Landing, l) + "?section=" + s)
  {
    LandingSectionHrefShape(l, Some(s), base, true);
    var h := ToHash(Landing, l);
    assert base + h + "?section=" + s == base + (h + "?section=" + s);
    assert base + [] == base;
  }

  /** After moving to a path href for section s, its query selects s. */
  lemma PathSectionHrefReadsBack(e: Env, u: Url, l: string, s: string, base: string)
    requires IsSection(s)
    requires '?' !in l && '#' !in l
    requires WellFormed(Url(base, [], [])) && (base == [] || base[0] == '/')
    requires e.wasm && e.window.Some?
    requires e.window.value.search == Some(Resolve(u, LandingSectionHref(l, Some(s), base, false)).search)
    ensures SectionFromUrl(e) == Some(s)
  {
    PathHrefText(l, s, base);
    var path := base + "/" + l + "/";
    assert path != [] && path[0] == '/';
    ResolveParts(u, path, "?section=" + s, []);
    SectionQueryReadsBack(s);
  }

  /** After moving to a GitHub Pages href for section s under a base path, the query in its hash selects s. */
  lemma HashSectionHrefReadsBack(e: Env, u: Url, l: string, s: string, base: string)
    requires IsSection(s)
    requires l != [] && l[0] != '/' && l[0] != '#' && '?' !in l && '#' !in l
    requires WellFormed(Url(base, [], [])) && base != [] && base[0] == '/'
    requires e.wasm && e.window.Some?
    requires var v := Resolve(u, LandingSectionHref(l, Some(s), base, true));
      e.window.value.search == Some(v.search) && e.window.value.hash == Some(v.hash)
    ensures SectionFromUrl(e) == Some(s)
  {
    HashHrefText(l, s, base);
    var frag := ToHash(Landing, l) + "?section=" + s;
    assert frag[0] == '#';
    SectionShape(s);
    ResolveParts(u, base, [], frag);
    HashQueryForm(l, s);
    EmptySearchDefersToHash(e, frag);
  }
}
