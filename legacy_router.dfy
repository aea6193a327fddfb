/**
 * The router of the single-crate app: two pages, a path codec that takes any
 * first segment as the locale, a start-up reader that trusts the pathname
 * before the hash, and an address update that only ever writes the hash.
 */
module LegacyRouter {
  import opened Wrappers
  import opened Strings
  import opened Browser
  import Navigation

  datatype Route = Landing | App

  /** `Route::from_path`. */
  function FromPath(path: string): (r: (Route, string))
    ensures r.1 != [] && '/' !in r.1
  {
    var parts := Split(TrimStart(path, '/'), '/');
    if |parts| >= 2 && parts[0] != [] then
      (if parts[1] == "app" then App else Landing, parts[0])
    else if Contains(path, "/app") || Contains(path, "#app") then (App, "en")
    else (Landing, "en")
  }

  /** `Route::to_path`. */
  function ToPath(r: Route, locale: string): (p: string)
    ensures |p| >= |locale| + 2 && p[..|locale| + 2] == "/" + locale + "/"
    ensures (r == App) == (p[|locale| + 2..] == "app")
  {
    match r
    case Landing => "/" + locale + "/"
    case App => "/" + locale + "/app"
  }

  /** `Route::to_hash`. */
  function ToHash(r: Route, locale: string): (h: string)
    ensures h == "#" + ToPath(r, locale)
  {
    match r
    case Landing => "#/" + locale + "/"
    case App => "#/" + locale + "/app"
  }

  /** `get_initial_route`: the pathname whenever it can be read, then the hash, then the stored locale. */
  function InitialRoute(window: Option<Page>): (r: (Route, string))
    ensures window.None? ==> r == (Landing, "en")
    ensures window.Some? && window.value.pathname.Some? ==> r == FromPath(window.value.pathname.value)
  {
    if window.None? then (Landing, "en")
    else
      var w := window.value;
      if w.pathname.Some? then FromPath(w.pathname.value)
      else if w.hash.Some? then FromPath(TrimStart(w.hash.value, '#'))
      else if w.storedLocale.Some? && w.storedLocale.value.Some? then (Landing, w.storedLocale.value.value)
      else (Landing, "en")
  }

  /**
   * The start-up reading the address update is written for: a non-empty hash
   * route is read first, then the pathname, then the stored locale.
   */
  function InitialRouteIntended(window: Option<Page>): (Route, string) {
    if window.None? then (Landing, "en")
    else
      var w := window.value;
      if w.hash.Some? && TrimStart(w.hash.value, '#') != [] then FromPath(TrimStart(w.hash.value, '#'))
      else if w.pathname.Some? then FromPath(w.pathname.value)
      else if w.storedLocale.Some? && w.storedLocale.value.Some? then (Landing, w.storedLocale.value.value)
      else (Landing, "en")
  }

  /** `update_url`: the route is written into the hash; pathname and search stay as they were. */
  method UpdateUrl(tab: Navigation.Tab, r: Route, l: string)
    requires tab.Valid()
    modifies tab
    ensures tab.Valid()
    ensures tab.url == old(tab.url).(hash := ToHash(r, l))
    ensures tab.back == if tab.url == old(tab.url) then old(tab.back) else old(tab.back) + [old(tab.url)]
  {
    tab.SetHash(ToHash(r, l));
  }

  // ---------------------------------------------------------------------------
  // Properties

  /** The window a tab shows. */
  function WindowAt(h: Navigation.Host, u: Url): Option<Page> {
    Navigation.EnvAt(h, u).window
  }

  /**
   * A path with a non-empty first segment and a second one is read with the
   * first segment as the locale, unvalidated, and is the app exactly when the
   * second segment is "app".
   */
  lemma {:induction false} LocaleFirst(token: string, tail: string)
    requires token != [] && '/' !in token
    ensures FromPath("/" + token + "/" + tail) == (if Split(tail, '/')[0] == "app" then App else Landing, token)
  {
    var path := "/" + token + "/" + tail;
    assert token[0] != '/' by { assert token[0] in token; }
    assert path == ['/'] + (token + ['/'] + tail);
    TrimOne('/', token + ['/'] + tail);
    SplitAtSeparator(token, '/', tail);
  }

  /** Every route written with a non-empty locale free of '/' reads back as itself. */
  lemma RoundTrip(r: Route, l: string)
    requires l != [] && '/' !in l
    ensures FromPath(ToPath(r, l)) == (r, l)
  {
    var segment := if r == App then "app" else "";
    assert ToPath(r, l) == "/" + l + "/" + segment;
    LocaleFirst(l, segment);
    SplitNoSeparator(segment, '/');
  }

  /** "/en/" is the English landing page: the empty piece after the last '/' counts as a second segment. */
  lemma EnglishRoot(p: string)
    requires p == "/en/"
    ensures FromPath(p) == (Landing, "en")
  {
    LocaleFirst("en", "");
    assert p == "/" + "en" + "/" + "";
  }

  /** A path of at most three characters with a single segment carries no locale and is too short to name the app. */
  lemma ShortSingleSegment(p: string, t: string)
    requires p == "/" + t && |t| < 3 && '/' !in t
    ensures FromPath(p) == (Landing, "en")
  {
    assert t == [] || t[0] != '/' by {
      if t != [] { assert t[0] in t; }
    }
    assert p == ['/'] + t;
    TrimOne('/', t);
    SplitNoSeparator(t, '/');
    TooShort(p, "/app");
    TooShort(p, "#app");
    NoLocaleNoApp(p);
  }

  lemma NoLocaleNoApp(p: string)
    requires |Split(TrimStart(p, '/'), '/')| < 2 && !Contains(p, "/app") && !Contains(p, "#app")
    ensures FromPath(p) == (Landing, "en")
  {
  }

  lemma TooShort(s: string, sub: string)
    requires |s| < |sub|
    ensures !Contains(s, sub)
  {
    if Contains(s, sub) {
      ContainsLength(s, sub);
    }
  }

  /** A lone "/zh" has one segment, so no locale is read from it. */
  lemma BareZhFallsThrough(p: string)
    requires p == "/zh"
    ensures FromPath(p) == (Landing, "en")
  {
    ShortSingleSegment(p, "zh");
  }

  /** Whenever the pathname can be read, neither the hash nor the stored locale has any say. */
  lemma PathnameWins(w: Page, hash: Option<string>, stored: Option<Option<string>>)
    requires w.pathname.Some?
    ensures InitialRoute(Some(w.(hash := hash, storedLocale := stored))) == FromPath(w.pathname.value)
  {
  }

  /**
   * On a page served at the site root, a route written by `update_url` is not
   * what the next start-up reads: the pathname "/" is read instead, as the
   * English landing page.
   */
  lemma WrittenRouteLostOnReload(h: Navigation.Host, u: Url, l: string)
    requires WellFormed(u) && u.pathname == "/"
    ensures InitialRoute(WindowAt(h, u.(hash := ToHash(App, l)))) == (Landing, "en")
  {
    ShortSingleSegment("/", "");
  }

  /** Read hash-first, the route `update_url` writes is the route the next start-up restores. */
  lemma ReloadRestoresRoute(h: Navigation.Host, u: Url, r: Route, l: string)
    requires l != [] && '/' !in l
    ensures InitialRouteIntended(WindowAt(h, u.(hash := ToHash(r, l)))) == (r, l)
  {
    var hash := ToHash(r, l);
    assert hash == ['#'] + ToPath(r, l);
    TrimOne('#', ToPath(r, l));
    RoundTrip(r, l);
  }
}
