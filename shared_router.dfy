/**
 * The shared route codec: a path (or the part of a hash after '#') and a
 * deployment base path are read as a (route, locale tag) pair, and a pair is
 * written back as "/{locale}/{page}" or "#/{locale}/{page}".
 */
module SharedRouter {
  import opened Wrappers
  import opened Strings

  datatype Route = Landing | App | PrivacyPolicy | TermsOfUse

  /** Removes the base path when it is non-empty and a prefix of the path. */
  function StripBase(path: string, base: string): (r: string)
    ensures r == path || (base != [] && base + r == path)
  {
    if base != [] && StartsWith(path, base) then path[|base|..] else path
  }

  /** The path after the base is stripped, with "" read as "/". */
  function Effective(path: string, base: string): string {
    var p := StripBase(path, base);
    if p == [] then "/" else p
  }

  /** The non-empty '/'-separated segments of a path. */
  function Segments(p: string): seq<string> {
    NonEmpty(Split(TrimStart(p, '/'), '/'))
  }

  /** "en", "zh" and every "zh-*" tag start a localised path. */
  predicate IsLocaleToken(t: string) {
    t == "en" || t == "zh" || StartsWith(t, "zh-")
  }

  /** The locale a token stands for: bare "zh" means Simplified Chinese, every other token is kept verbatim. */
  function NormaliseToken(t: string): string {
    if t == "zh" then "zh-Hans" else t
  }

  /** The page named by the segment after the locale. */
  function PageOf(segment: string): Route {
    if segment == "app" then App
    else if segment == "privacy" then PrivacyPolicy
    else if segment == "terms" then TermsOfUse
    else Landing
  }

  /** Whether `FromPath` reads its locale from the path. */
  predicate TakesLocaleBranch(path: string, base: string) {
    var parts := Segments(Effective(path, base));
    parts != [] && IsLocaleToken(parts[0])
  }

  /** `Route::from_path`. */
  function FromPath(path: string, base: string): (r: (Route, string))
    ensures r.1 == "en" || StartsWith(r.1, "zh-")
  {
    var p := Effective(path, base);
    var parts := Segments(p);
    if parts != [] && IsLocaleToken(parts[0]) then
      var locale := NormaliseToken(parts[0]);
      if |parts| >= 2 then (PageOf(parts[1]), locale) else (Landing, locale)
    else if Contains(p, "/app") || Contains(p, "#app") then (App, "en")
    else (Landing, "en")
  }

  /** `Route::to_path`. */
  function ToPath(r: Route, locale: string): (p: string)
    ensures |p| >= |locale| + 2 && p[..|locale| + 2] == "/" + locale + "/"
    ensures '/' !in p[|locale| + 2..] && PageOf(p[|locale| + 2..]) == r
  {
    match r
    case Landing => "/" + locale + "/"
    case App => "/" + locale + "/app"
    case PrivacyPolicy => "/" + locale + "/privacy"
    case TermsOfUse => "/" + locale + "/terms"
  }

  /** `Route::to_hash`. */
  function ToHash(r: Route, locale: string): string {
    match r
    case Landing => "#/" + locale + "/"
    case App => "#/" + locale + "/app"
    case PrivacyPolicy => "#/" + locale + "/privacy"
    case TermsOfUse => "#/" + locale + "/terms"
  }

  /** `path_has_locale_prefix`: after a leading '#' run and the base path, the first non-empty segment is a locale token. */
  predicate PathHasLocalePrefix(path: string, base: string)
    ensures path == [] || path[0] != '#' ==> (PathHasLocalePrefix(path, base) <==> TakesLocaleBranch(path, base))
  {
    var p := StripBase(TrimStart(path, '#'), base);
    var pieces := Split(TrimStart(p, '/'), '/');
    FirstNonEmptyIsHead(pieces);
    EffectiveSegments(path, base);
    assert path == [] || path[0] != '#' ==> TrimStart(path, '#') == path;
    assert !IsLocaleToken("");
    IsLocaleToken(FirstNonEmpty(pieces).GetOr(""))
  }

  /**
   * `landing_section_href_impl`: the landing page of the locale (hash form
   * under GitHub Pages, path form elsewhere) after the base path, with
   * "?section=" and the section appended exactly when a non-empty section is
   * given.
   */
  function LandingSectionHref(locale: string, section: Option<string>, base: string, githubPages: bool): string {
    var url :=
      if githubPages then base + ToHash(Landing, locale)
      else if base == [] then ToPath(Landing, locale)
      else base + ToPath(Landing, locale);
    if section.Some? && section.value != [] then url + "?section=" + section.value else url
  }

  // ---------------------------------------------------------------------------
  // Properties

  /** The segment that `ToPath` writes after the locale. */
  function Suffix(r: Route): string {
    match r
    case Landing => ""
    case App => "app"
    case PrivacyPolicy => "privacy"
    case TermsOfUse => "terms"
  }

  lemma ToPathShape(r: Route, locale: string)
    ensures ToPath(r, locale) == "/" + locale + "/" + Suffix(r)
    ensures PageOf(Suffix(r)) == r
    ensures '/' !in Suffix(r)
  {
    if r == Landing {
      assert "/" + locale + "/" + Suffix(r) == "/" + locale + "/";
    }
  }

  /** A path route holds '#' or '?' only if its locale does. */
  lemma ToPathChars(r: Route, locale: string)
    requires '#' !in locale && '?' !in locale
    ensures var p := ToPath(r, locale); p != [] && p[0] == '/' && '#' !in p && '?' !in p
  {
    var suffix := Suffix(r);
    assert '#' !in suffix && '?' !in suffix;
    ToPathShape(r, locale);
  }

  lemma ToHashIsHashedPath(r: Route, locale: string)
    ensures ToHash(r, locale) == "#" + ToPath(r, locale)
  {
  }

  lemma StripBaseOfPrefixed(base: string, tail: string)
    requires tail != []
    ensures Effective(base + tail, base) == tail
  {
    var path := base + tail;
    if base != [] {
      assert path[..|base|] == base;
      assert path[|base|..] == tail;
    }
  }

  lemma {:induction false} SegmentsOfLocalePath(token: string, segment: string)
    requires token != [] && '/' !in token
    requires '/' !in segment
    ensures Segments("/" + token + "/" + segment) == if segment == [] then [token] else [token, segment]
  {
    var tail := "/" + token + "/" + segment;
    assert token[0] != '/' by { assert token[0] in token; }
    assert tail[1..] == token + ['/'] + segment;
    assert TrimStart(tail, '/') == token + ['/'] + segment;
    SplitAtSeparator(token, '/', segment);
    SplitNoSeparator(segment, '/');
    var pieces := [token, segment];
    assert Split(token + ['/'] + segment, '/') == pieces;
    assert pieces[1..] == [segment];
    assert [segment][1..] == [];
    assert NonEmpty(pieces) == [token] + NonEmpty([segment]);
    assert NonEmpty([segment]) == (if segment == [] then [] else [segment]) + NonEmpty([]);
  }

  /**
   * A path made of a base, a locale token and a page segment parses to that
   * page and the token's locale, whatever the base.
   */
  lemma FromLocalePath(base: string, token: string, segment: string)
    requires token != [] && '/' !in token && IsLocaleToken(token)
    requires '/' !in segment
    ensures FromPath(base + ("/" + token + "/" + segment), base) == (PageOf(segment), NormaliseToken(token))
  {
    var tail := "/" + token + "/" + segment;
    StripBaseOfPrefixed(base, tail);
    SegmentsOfLocalePath(token, segment);
  }

  /** Every route written with a locale tag other than bare "zh" reads back as itself. */
  lemma RoundTrip(base: string, r: Route, locale: string)
    requires locale != [] && '/' !in locale && IsLocaleToken(locale) && locale != "zh"
    ensures FromPath(base + ToPath(r, locale), base) == (r, locale)
  {
    ToPathShape(r, locale);
    FromLocalePath(base, locale, Suffix(r));
  }

  /** The three canonical tags round-trip for every route and base. */
  lemma CanonicalTagsRoundTrip(base: string, r: Route, locale: string)
    requires locale in {"en", "zh-Hans", "zh-Hant"}
    ensures FromPath(base + ToPath(r, locale), base) == (r, locale)
  {
    assert StartsWith("zh-Hans", "zh-") && StartsWith("zh-Hant", "zh-");
    RoundTrip(base, r, locale);
  }

  /** A path with bare "zh" is read as Simplified Chinese. */
  lemma BareZhIsSimplified(base: string, segment: string)
    requires '/' !in segment
    ensures FromPath(base + ("/zh/" + segment), base) == (PageOf(segment), "zh-Hans")
  {
    var zh := "zh";
    assert "/zh/" == "/" + zh + "/";
    FromLocalePath(base, zh, segment);
  }

  /** Any other "zh-*" tag, such as "zh-TW", is kept as written. */
  lemma RegionalZhIsKept(base: string, segment: string)
    requires '/' !in segment
    ensures FromPath(base + ("/zh-TW/" + segment), base) == (PageOf(segment), "zh-TW")
  {
    var tw := "zh-TW";
    assert tw[..3] == "zh-";
    assert "/zh-TW/" == "/" + tw + "/";
    FromLocalePath(base, tw, segment);
  }

  /** The segments `FromPath` reads are the non-empty pieces after the base path. */
  lemma EffectiveSegments(path: string, base: string)
    ensures Segments(Effective(path, base)) == NonEmpty(Split(TrimStart(StripBase(path, base), '/'), '/'))
  {
    if StripBase(path, base) == [] {
      assert TrimStart("/", '/') == [] by { assert "/"[1..] == []; }
      assert Split([], '/') == [[]];
    }
  }

  /** A base path that is not a prefix of the path plays no part. */
  lemma ForeignBaseIgnored(path: string, base: string)
    requires base == [] || !StartsWith(path, base)
    ensures FromPath(path, base) == FromPath(path, [])
  {
  }

  lemma ZhBaseStripped()
    ensures Effective("/zh-Hans/", "/zh") == "-Hans/"
  {
    assert "/zh-Hans/"[..3] == "/zh";
    assert "/zh-Hans/"[3..] == "-Hans/";
  }

  lemma HansSegments()
    ensures Segments("-Hans/") == ["-Hans"]
  {
    var rest := "-Hans/";
    assert TrimStart(rest, '/') == rest;
    assert rest == "-Hans" + ['/'] + [];
    SplitAtSeparator("-Hans", '/', []);
    assert Split(rest, '/') == ["-Hans", []];
    assert NonEmpty(["-Hans", []]) == ["-Hans"] + NonEmpty([[]]);
  }

  lemma HansNamesNoApp()
    ensures !Contains("-Hans/", "/app") && !Contains("-Hans/", "#app")
  {
    NotContainsFirst("-Hans/", "/app");
    NotContainsFirst("-Hans/", "#app");
  }

  /** With base path "/zh", the hash route "/zh-Hans/" loses its locale: "-Hans/" is left, which names none. */
  lemma ZhBaseSwallowsZhHans()
    ensures FromPath("/zh-Hans/", "/zh") == (Landing, "en")
  {
    ZhBaseStripped();
    HansSegments();
    HansNamesNoApp();
    HansIsNoLocale();
    NoLocaleSegment("/zh-Hans/", "/zh", "-Hans/", "-Hans");
  }

  lemma ZhHansIsLocale()
    ensures var l := "zh-Hans"; l != [] && '/' !in l && '#' !in l && '?' !in l && IsLocaleToken(l) && l != "zh"
  {
    assert "zh-Hans"[..3] == "zh-";
  }

  lemma ZhHansPath(l: string)
    requires l == "zh-Hans"
    ensures ToPath(Landing, l) == "/zh-Hans/"
  {
  }

  lemma HansIsNoLocale()
    ensures !IsLocaleToken("-Hans")
  {
    assert "-Hans"[0] != 'z';
  }

  lemma NoLocaleSegment(path: string, base: string, p: string, t: string)
    requires Effective(path, base) == p && Segments(p) == [t] && !IsLocaleToken(t)
    requires !Contains(p, "/app") && !Contains(p, "#app")
    ensures FromPath(path, base) == (Landing, "en")
  {
  }

  /** When the locale branch is not taken, the locale is English. */
  lemma NoLocaleMeansEnglish(path: string, base: string)
    requires !TakesLocaleBranch(path, base)
    ensures FromPath(path, base).1 == "en"
    ensures FromPath(path, base).0 == App <==>
      (Contains(Effective(path, base), "/app") || Contains(Effective(path, base), "#app"))
  {
  }

  /**
   * A section address is the base path followed by the landing route: a hash
   * route exactly on GitHub Pages, and then the "?section=" query when a
   * section is named, or the route's closing '/' otherwise.
   */
  lemma LandingSectionHrefParts(locale: string, section: Option<string>, base: string, githubPages: bool)
    ensures var href := LandingSectionHref(locale, section, base, githubPages);
      StartsWith(href, base) && |href| > |base|
      && (href[|base|] == '#' <==> githubPages)
      && (section.Some? && section.value != [] ==> EndsWith(href, "?section=" + section.value))
      && (section.None? || section.value == [] ==> EndsWith(href, "/"))
  {
    HrefStart(locale, section, base, githubPages);
    HrefEnd(locale, section, base, githubPages);
  }

  lemma HrefStart(locale: string, section: Option<string>, base: string, githubPages: bool)
    ensures var href := LandingSectionHref(locale, section, base, githubPages);
      StartsWith(href, base) && |href| > |base| && (href[|base|] == '#' <==> githubPages)
  {
    var page := LandingPage(locale, githubPages);
    var rest := if section.Some? && section.value != [] then page + "?section=" + section.value else page;
    LandingSectionHrefSplit(locale, section, base, githubPages);
    AppendParts(base, rest);
    assert rest[0] == page[0];
  }

  /** The landing route a section address starts from. */
  function LandingPage(locale: string, githubPages: bool): (page: string)
    ensures page != [] && (page[0] == '#' <==> githubPages)
    ensures EndsWith(page, "/")
  {
    var front := if githubPages then "#/" + locale else "/" + locale;
    AppendParts(front, "/");
    if githubPages then ToHash(Landing, locale) else ToPath(Landing, locale)
  }

  lemma LandingSectionHrefSplit(locale: string, section: Option<string>, base: string, githubPages: bool)
    ensures var page := LandingPage(locale, githubPages);
      LandingSectionHref(locale, section, base, githubPages)
        == base + if section.Some? && section.value != [] then page + "?section=" + section.value else page
  {
    LandingSectionHrefShape(locale, section, base, githubPages);
  }

  lemma HrefEnd(locale: string, section: Option<string>, base: string, githubPages: bool)
    ensures var href := LandingSectionHref(locale, section, base, githubPages);
      (section.Some? && section.value != [] ==> EndsWith(href, "?section=" + section.value))
      && (section.None? || section.value == [] ==> EndsWith(href, "/"))
  {
    var page := LandingPage(locale, githubPages);
    LandingSectionHrefSplit(locale, section, base, githubPages);
    if section.Some? && section.value != [] {
      var query := "?section=" + section.value;
      assert page + "?section=" + section.value == page + query;
      AppendParts(page, query);
      EndsWithExtend(base, page + query, query);
    } else {
      EndsWithExtend(base, page, "/");
    }
  }

  lemma LandingSectionHrefShape(locale: string, section: Option<string>, base: string, githubPages: bool)
    ensures var page := if githubPages then ToHash(Landing, locale) else ToPath(Landing, locale);
      LandingSectionHref(locale, section, base, githubPages) ==
        if section.Some? && section.value != [] then base + page + "?section=" + section.value
        else base + page
  {
    if !githubPages && base == [] {
      assert base + ToPath(Landing, locale) == ToPath(Landing, locale);
    }
  }
}
