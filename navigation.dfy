/**
 * One browser tab running the web build: the address it shows, its session
 * history, and the writes `update_url`, `push_landing_section_url` and
 * `replace_landing_section_url` make through `history` and `location.hash`.
 */
module Navigation {
  import opened Wrappers
  import opened Strings
  import opened Browser
  import opened Deployment
  import opened SharedRouter
  import opened WebRouter

  /**
   * What stays fixed while the app runs in a tab: the hostname and origin, the
   * stored locale, whether `window.history()` is available and whether it
   * accepts `pushState`/`replaceState`.
   */
  datatype Host = Host(
    hostname: Option<string>,
    origin: Option<string>,
    storedLocale: Option<Option<string>>,
    history: bool,
    historyAccepts: bool)

  /** What the routing code reads while the tab shows `u`. */
  function EnvAt(h: Host, u: Url): Env {
    Web(Some(Page(h.hostname, h.origin, Some(u.pathname), Some(u.search), Some(u.hash), h.storedLocale)))
  }

  /** The address after `location.set_hash(h)`: one leading '#' is dropped, and an empty fragment reads back as "". */
  function WithHash(u: Url, h: string): (r: Url)
    ensures r.pathname == u.pathname && r.search == u.search
    ensures |h| > 1 && h[0] == '#' ==> r.hash == h
    ensures WellFormed(u) ==> WellFormed(r)
  {
    var fragment := if h != [] && h[0] == '#' then h[1..] else h;
    assert |h| > 1 && h[0] == '#' ==> "#" + fragment == h;
    u.(hash := if fragment == [] then [] else "#" + fragment)
  }

  /** Where `update_url(r, l)` leaves the tab. */
  function UpdatedUrl(h: Host, u: Url, r: Route, l: string): Url {
    var e := EnvAt(h, u);
    if IsGithubPages(e) then WithHash(u, ToHash(r, l))
    else
      var base := BasePath(e);
      var full := if base != [] then base + ToPath(r, l) else ToPath(r, l);
      if h.history && h.historyAccepts then Resolve(u, full) else WithHash(u, ToHash(r, l))
  }

  /** Whether `update_url` adds a history entry: a push always does, a hash write only when the address changes. */
  predicate UpdateAddsEntry(h: Host, u: Url, r: Route, l: string) {
    (!IsGithubPages(EnvAt(h, u)) && h.history && h.historyAccepts) || UpdatedUrl(h, u, r, l) != u
  }

  /** `build_landing_section_url` as the tab showing `u` computes it. */
  function SectionHref(h: Host, u: Url, l: string, section: Option<string>): string {
    var e := EnvAt(h, u);
    LandingSectionHref(l, section, BasePath(e), IsGithubPages(e))
  }

  /** The "already correct" test of `replace_landing_section_url` as written: pathname and search spell the desired address. */
  predicate ShownAsWritten(h: Host, u: Url, l: string, section: Option<string>) {
    u.pathname + u.search == SectionHref(h, u, l, section)
  }

  /** The test as intended: the written one, or going to the desired address would change nothing. */
  predicate Shown(h: Host, u: Url, l: string, section: Option<string>) {
    ShownAsWritten(h, u, l, section) || Resolve(u, SectionHref(h, u, l, section)) == u
  }

  /** Where the corrected `replace_landing_section_url` leaves the tab. */
  function AfterReplace(h: Host, u: Url, l: string, section: Option<string>): Url {
    if Shown(h, u, l, section) || !h.history || !h.historyAccepts then u
    else Resolve(u, SectionHref(h, u, l, section))
  }

  /** Where `replace_landing_section_url` as written leaves the tab. */
  function AfterReplaceAsWritten(h: Host, u: Url, l: string, section: Option<string>): Url {
    if ShownAsWritten(h, u, l, section) || !h.history || !h.historyAccepts then u
    else Resolve(u, SectionHref(h, u, l, section))
  }

  // ---------------------------------------------------------------------------
  // Properties

  /** `update_url` writes the hash route on GitHub Pages, the path route after a successful push, and the hash route otherwise. */
  lemma UpdateUrlForms(h: Host, u: Url, r: Route, l: string)
    requires '#' !in l && '?' !in l
    ensures IsGithubPages(EnvAt(h, u)) ==> UpdatedUrl(h, u, r, l) == u.(hash := ToHash(r, l))
    ensures !IsGithubPages(EnvAt(h, u)) && h.history && h.historyAccepts ==>
      UpdatedUrl(h, u, r, l) == Url(ToPath(r, l), [], [])
    ensures !IsGithubPages(EnvAt(h, u)) && !(h.history && h.historyAccepts) ==>
      UpdatedUrl(h, u, r, l) == u.(hash := ToHash(r, l))
  {
    ToPathChars(r, l);
    ToHashIsHashedPath(r, l);
    var e := EnvAt(h, u);
    if !IsGithubPages(e) {
      BasePathOnlyOnGithubPages(e);
      ResolvePath(u, ToPath(r, l));
    }
  }

  /** After `update_url(r, l)`, the start-up route read from the tab is (r, l) again, wherever the app is served. */
  lemma ReloadRestoresRoute(h: Host, u: Url, r: Route, l: string)
    requires l != [] && '/' !in l && '#' !in l && '?' !in l && IsLocaleToken(l) && l != "zh"
    ensures InitialRouteIntended(EnvAt(h, UpdatedUrl(h, u, r, l))) == (r, l)
  {
    UpdateUrlForms(h, u, r, l);
    var v := UpdatedUrl(h, u, r, l);
    var e := EnvAt(h, v);
    if v.hash == ToHash(r, l) {
      HashRouteIsRestored(e, r, l);
    } else {
      assert TrimStart(v.hash, '#') == [];
      PathRouteIsRestored(e, r, l);
      IntendedAgreesUnlessBaseInHash(e);
    }
  }

  /**
   * As written, the same holds only when the base path is not a prefix of the
   * path route, because the base path is also stripped from the hash route.
   */
  lemma ReloadRestoresRouteAsWritten(h: Host, u: Url, r: Route, l: string)
    requires l != [] && '/' !in l && '#' !in l && '?' !in l && IsLocaleToken(l) && l != "zh"
    requires var base := BasePath(EnvAt(h, u)); base == [] || !StartsWith(ToPath(r, l), base)
    ensures InitialRoute(EnvAt(h, UpdatedUrl(h, u, r, l))) == (r, l)
  {
    ReloadRestoresRoute(h, u, r, l);
    UpdateUrlForms(h, u, r, l);
    var v := UpdatedUrl(h, u, r, l);
    if v.hash == ToHash(r, l) {
      HashRouteFreeOfBase(h, u, v, r, l);
    } else {
      BasePathOnlyOnGithubPages(EnvAt(h, v));
    }
    IntendedAgreesUnlessBaseInHash(EnvAt(h, v));
  }

  /** A hash route written on a page whose base path does not prefix the path route does not start with that base path. */
  lemma HashRouteFreeOfBase(h: Host, u: Url, v: Url, r: Route, l: string)
    requires v.pathname == u.pathname && v.hash == ToHash(r, l)
    requires var base := BasePath(EnvAt(h, u)); base == [] || !StartsWith(ToPath(r, l), base)
    ensures var base := BasePath(EnvAt(h, v)); base == [] || !StartsWith(TrimStart(v.hash, '#'), base)
  {
    assert BasePath(EnvAt(h, v)) == BasePath(EnvAt(h, u));
    ToHashIsHashedPath(r, l);
    TrimOne('#', ToPath(r, l));
  }

  /** A GitHub Pages host and an address under the repository "zh". */
  lemma ZhRepository(h: Host, u: Url)
    requires h.hostname == Some("u.github.io") && u.pathname == "/zh/"
    ensures IsGithubPages(EnvAt(h, u)) && BasePath(EnvAt(h, u)) == "/zh"
  {
    var e := EnvAt(h, u);
    UserSiteHost(h.hostname.value);
    WebGithubPagesIffHost(e.window, h.hostname.value);
    assert IsGithubPages(e);
    ZhSegment(u.pathname);
    assert BasePath(e) == "/" + "zh";
  }

  /** The repository segment of "/zh/" is "zh". */
  lemma ZhSegment(p: string)
    requires p == "/zh/"
    ensures RepoSegment(p) == Some("zh")
  {
    assert p == "/" + "zh" + "/";
    RepoSegmentOf("zh", "/");
  }

  /**
   * Served from a repository named "zh", the Simplified Chinese landing page
   * set by `update_url` reloads as the English one: "/zh" is stripped from the
   * hash route "/zh-Hans/", leaving "-Hans/".
   */
  lemma HashRouteLostUnderPrefixBase(h: Host, u: Url, l: string)
    requires h.hostname == Some("u.github.io") && u.pathname == "/zh/" && l == "zh-Hans"
    ensures UpdatedUrl(h, u, Landing, l) == u.(hash := ToHash(Landing, l))
    ensures InitialRoute(EnvAt(h, UpdatedUrl(h, u, Landing, l))) == (Landing, "en")
    ensures InitialRouteIntended(EnvAt(h, UpdatedUrl(h, u, Landing, l))) == (Landing, l)
  {
    ZhRepository(h, u);
    ZhHansIsLocale();
    UpdateUrlForms(h, u, Landing, l);
    var v := u.(hash := ToHash(Landing, l));
    ZhHashRoute(h, v, l);
  }

  lemma ZhHashRoute(h: Host, v: Url, l: string)
    requires h.hostname == Some("u.github.io") && v.pathname == "/zh/" && l == "zh-Hans" && v.hash == ToHash(Landing, l)
    ensures InitialRoute(EnvAt(h, v)) == (Landing, "en")
    ensures InitialRouteIntended(EnvAt(h, v)) == (Landing, l)
  {
    ZhRepository(h, v);
    ZhHansIsLocale();
    HashRouteIsRestored(EnvAt(h, v), Landing, l);
    ZhHashRouteAsWritten(EnvAt(h, v), l);
  }

  lemma ZhHashRouteAsWritten(e: Env, l: string)
    requires l == "zh-Hans"
    requires e.wasm && e.window.Some? && e.window.value.hash == Some(ToHash(Landing, l)) && BasePath(e) == "/zh"
    ensures InitialRoute(e) == (Landing, "en")
  {
    ToHashIsHashedPath(Landing, l);
    ZhHansPath(l);
    HashRouteRead(e, ToPath(Landing, l));
    ZhBaseSwallowsZhHans();
  }

  /** On GitHub Pages the desired address holds a '#' and a well-formed pathname and search never do, so the written test always fails. */
  lemma AsWrittenNeverShownOnGithubPages(h: Host, u: Url, l: string, section: Option<string>)
    requires WellFormed(u) && IsGithubPages(EnvAt(h, u))
    ensures !ShownAsWritten(h, u, l, section)
  {
    var base := BasePath(EnvAt(h, u));
    var d := SectionHref(h, u, l, section);
    LandingSectionHrefShape(l, section, base, true);
    assert d[|base|] == '#';
    assert '#' in d;
    assert '#' !in u.pathname + u.search;
  }

  /** Going to a base followed by a hash route makes the base the pathname. */
  lemma ResolveBeforeHash(u: Url, base: string, rest: string)
    requires base != [] && '#' !in base && '?' !in base && rest != [] && rest[0] == '#'
    ensures Resolve(u, base + rest).pathname == base
  {
    CutAtFirst(base, rest, '#');
    CutAtFirst(base, [], '?');
    assert base + [] == base;
  }

  /** On GitHub Pages a pathname that is a base path is its own base path. */
  lemma BaseAsPathname(e: Env, base: string)
    requires IsGithubPages(e) && e.window.value.pathname == Some(base)
    requires |base| >= 2 && base[0] == '/' && '/' !in base[1..]
    ensures BasePath(e) == base
  {
    assert "/" + base[1..] + [] == base;
    BasePathIsRepo(e, base[1..], []);
  }

  /** Going to the section address keeps the base path, so the address computed afterwards is the same. */
  lemma SectionHrefStable(h: Host, u: Url, l: string, section: Option<string>)
    requires WellFormed(u)
    ensures SectionHref(h, Resolve(u, SectionHref(h, u, l, section)), l, section) == SectionHref(h, u, l, section)
  {
    var v := Resolve(u, SectionHref(h, u, l, section));
    if IsGithubPages(EnvAt(h, u)) {
      GithubSectionKeepsBase(h, u, l, section);
    } else {
      BasePathOnlyOnGithubPages(EnvAt(h, u));
      BasePathOnlyOnGithubPages(EnvAt(h, v));
    }
    SameBaseSameHref(h, u, v, l, section);
  }

  /** The section address depends on the tab only through its base path and the GitHub Pages test. */
  lemma SameBaseSameHref(h: Host, u: Url, v: Url, l: string, section: Option<string>)
    requires BasePath(EnvAt(h, v)) == BasePath(EnvAt(h, u))
    ensures SectionHref(h, v, l, section) == SectionHref(h, u, l, section)
  {
  }

  /** On GitHub Pages the section address is the base path and a hash route, so going there keeps the base path. */
  lemma GithubSectionKeepsBase(h: Host, u: Url, l: string, section: Option<string>)
    requires WellFormed(u) && IsGithubPages(EnvAt(h, u))
    ensures BasePath(EnvAt(h, Resolve(u, SectionHref(h, u, l, section)))) == BasePath(EnvAt(h, u))
  {
    var base := BasePath(EnvAt(h, u));
    GithubHrefShape(l, section, base);
    if base == [] {
      HashKeepsBase(h, u, SectionHref(h, u, l, section));
    } else {
      BaseThenHashKeepsBase(h, u, SectionHref(h, u, l, section));
    }
  }

  /** Going to a bare hash keeps the pathname, and with it the base path. */
  lemma HashKeepsBase(h: Host, u: Url, d: string)
    requires d != [] && d[0] == '#'
    ensures BasePath(EnvAt(h, Resolve(u, d))) == BasePath(EnvAt(h, u))
  {
    assert Resolve(u, d).pathname == u.pathname;
  }

  /** Going to the base path followed by a hash lands on the base path itself. */
  lemma BaseThenHashKeepsBase(h: Host, u: Url, d: string)
    requires WellFormed(u) && IsGithubPages(EnvAt(h, u))
    requires var base := BasePath(EnvAt(h, u));
      base != [] && |d| > |base| && d[..|base|] == base && d[|base|] == '#'
    ensures BasePath(EnvAt(h, Resolve(u, d))) == BasePath(EnvAt(h, u))
  {
    var base := BasePath(EnvAt(h, u));
    var rest := d[|base|..];
    assert d == base + rest;
    BasePathNoHashOrQuery(h, u);
    ResolveBeforeHash(u, base, rest);
    BaseAsPathname(EnvAt(h, Resolve(u, d)), base);
  }

  /** A GitHub Pages section address is the base path followed by a hash route. */
  lemma GithubHrefShape(l: string, section: Option<string>, base: string)
    ensures var d := LandingSectionHref(l, section, base, true);
      |d| > |base| && d[..|base|] == base && d[|base|] == '#'
  {
    LandingSectionHrefShape(l, section, base, true);
  }

  /** The base path of a well-formed address holds neither '#' nor '?'. */
  lemma BasePathNoHashOrQuery(h: Host, u: Url)
    requires WellFormed(u)
    ensures '#' !in BasePath(EnvAt(h, u)) && '?' !in BasePath(EnvAt(h, u))
  {
    forall x | x in BasePath(EnvAt(h, u))
      ensures x != '#' && x != '?'
    {
      BasePathChars(EnvAt(h, u), x);
    }
  }

  /** The corrected replace settles: straight after it, the same call finds the address already shown. */
  lemma ReplaceSettles(h: Host, u: Url, l: string, section: Option<string>)
    requires WellFormed(u) && h.history && h.historyAccepts
    ensures Shown(h, AfterReplace(h, u, l, section), l, section)
  {
    if !Shown(h, u, l, section) {
      SectionHrefStable(h, u, l, section);
      ResolveIdempotent(u, SectionHref(h, u, l, section));
    }
  }

  /**
   * Off GitHub Pages the written test does settle: straight after a replace,
   * pathname and search spell the section address, so the same call does
   * nothing.
   */
  lemma AsWrittenSettlesOffGithubPages(h: Host, u: Url, l: string, section: Option<string>)
    requires WellFormed(u) && !IsGithubPages(EnvAt(h, u)) && h.history && h.historyAccepts
    requires '#' !in l && '?' !in l && (section.None? || '#' !in section.value)
    ensures ShownAsWritten(h, AfterReplaceAsWritten(h, u, l, section), l, section)
  {
    if !ShownAsWritten(h, u, l, section) {
      var d := SectionHref(h, u, l, section);
      BasePathOnlyOnGithubPages(EnvAt(h, u));
      OffPagesHrefChars(l, section);
      CutAtFirst(d, [], '#');
      assert d + [] == d;
      SectionHrefStable(h, u, l, section);
    }
  }

  /** Off GitHub Pages the section address is a path starting with '/' and free of '#'. */
  lemma OffPagesHrefChars(l: string, section: Option<string>)
    requires '#' !in l && '?' !in l && (section.None? || '#' !in section.value)
    ensures var d := LandingSectionHref(l, section, [], false); d != [] && d[0] == '/' && '#' !in d
  {
    LandingSectionHrefSplit(l, section, [], false);
    ToPathChars(Landing, l);
    var page := ToPath(Landing, l);
    assert LandingPage(l, false) == page;
    if section.Some? && section.value != [] {
      assert '#' !in "?section=";
      assert [] + (page + "?section=" + section.value) == page + ("?section=" + section.value);
    } else {
      assert [] + page == page;
    }
  }

  /** As written it never settles on GitHub Pages: every call, including the one straight after, calls `replaceState`. */
  lemma AsWrittenNeverSettlesOnGithubPages(h: Host, u: Url, l: string, section: Option<string>)
    requires WellFormed(u) && IsGithubPages(EnvAt(h, u))
    ensures !ShownAsWritten(h, u, l, section)
    ensures !ShownAsWritten(h, AfterReplaceAsWritten(h, u, l, section), l, section)
  {
    AsWrittenNeverShownOnGithubPages(h, u, l, section);
    var v := AfterReplaceAsWritten(h, u, l, section);
    assert IsGithubPages(EnvAt(h, v));
    AsWrittenNeverShownOnGithubPages(h, v, l, section);
  }

  /** After pushing the address of a section, the tab reads that section back. */
  lemma PushedSectionReadsBack(h: Host, u: Url, l: string, s: string)
    requires WellFormed(u) && IsSection(s)
    requires l != [] && l[0] != '/' && '#' !in l && '?' !in l
    requires IsGithubPages(EnvAt(h, u)) && BasePath(EnvAt(h, u)) == [] ==> SectionOf(u.search).None?
    ensures SectionFromUrl(EnvAt(h, Resolve(u, SectionHref(h, u, l, Some(s))))) == Some(s)
  {
    var e := EnvAt(h, u);
    if IsGithubPages(e) && BasePath(e) == [] {
      RootPushReadsBack(h, u, l, s);
    } else {
      BasedPushReadsBack(h, u, l, s);
    }
  }

  /** At the root of a GitHub Pages site, a pushed section reads back when the search names none. */
  lemma RootPushReadsBack(h: Host, u: Url, l: string, s: string)
    requires IsSection(s) && l != [] && l[0] != '/' && '#' !in l && '?' !in l
    requires IsGithubPages(EnvAt(h, u)) && BasePath(EnvAt(h, u)) == [] && SectionOf(u.search).None?
    ensures SectionFromUrl(EnvAt(h, Resolve(u, SectionHref(h, u, l, Some(s))))) == Some(s)
  {
    var frag := ToHash(Landing, l) + "?section=" + s;
    RootSectionAddress(h, u, l, s);
    var e := EnvAt(h, u.(hash := frag));
    assert e.window.value.search == Some(u.search) && e.window.value.hash == Some(frag);
    assert QuerySection(Some(u.search)).None?;
    NoQuerySectionDefersToHash(e, u.search, frag);
    assert l[0] in l;
    HashQueryForm(l, s);
  }

  /** Under a repository path on GitHub Pages, or off GitHub Pages, a pushed section reads back. */
  lemma BasedPushReadsBack(h: Host, u: Url, l: string, s: string)
    requires WellFormed(u) && IsSection(s) && l != [] && l[0] != '/' && '#' !in l && '?' !in l
    requires IsGithubPages(EnvAt(h, u)) ==> BasePath(EnvAt(h, u)) != []
    ensures SectionFromUrl(EnvAt(h, Resolve(u, SectionHref(h, u, l, Some(s))))) == Some(s)
  {
    var e := EnvAt(h, u);
    var base := BasePath(e);
    var v := Resolve(u, SectionHref(h, u, l, Some(s)));
    forall x | x in base
      ensures x != '#' && x != '?'
    {
      BasePathChars(e, x);
    }
    assert WellFormed(Url(base, [], []));
    if IsGithubPages(e) {
      assert l[0] in l;
      HashSectionHrefReadsBack(EnvAt(h, v), u, l, s, base);
    } else {
      BasePathOnlyOnGithubPages(e);
      PathSectionHrefReadsBack(EnvAt(h, v), u, l, s, base);
    }
  }

  /**
   * At the root of a GitHub Pages site the base path is empty, so the section
   * address is a bare fragment: resolving it replaces the hash and keeps the
   * search the tab already showed.
   */
  lemma RootSectionAddress(h: Host, u: Url, l: string, s: string)
    requires IsSection(s) && IsGithubPages(EnvAt(h, u)) && BasePath(EnvAt(h, u)) == []
    ensures Resolve(u, SectionHref(h, u, l, Some(s))) == u.(hash := ToHash(Landing, l) + "?section=" + s)
  {
    SectionShape(s);
    HashHrefText(l, s, []);
    var frag := ToHash(Landing, l) + "?section=" + s;
    assert [] + [] + frag == frag;
    ToHashIsHashedPath(Landing, l);
    assert frag[0] == '#';
  }

  /**
   * As written, a section already in the search outranks a pushed one at the
   * root of a GitHub Pages site: the pushed fragment keeps the old search, and
   * the search is read before the hash.
   */
  lemma StaleQueryOutranksPush(h: Host, u: Url, l: string, s: string, t: string)
    requires IsSection(s) && IsSection(t)
    requires IsGithubPages(EnvAt(h, u)) && BasePath(EnvAt(h, u)) == [] && u.search == "?section=" + t
    ensures SectionFromUrl(EnvAt(h, Resolve(u, SectionHref(h, u, l, Some(s))))) == Some(t)
  {
    RootSectionAddress(h, u, l, s);
    SectionQueryReadsBack(t);
  }

  /** `p + sub` contains `sub`. */
  lemma {:induction false} ContainsSuffix(p: string, sub: string)
    ensures Contains(p + sub, sub)
    decreases |p|
  {
    if p != [] {
      ContainsSuffix(p[1..], sub);
      assert (p + sub)[1..] == p[1..] + sub;
    } else {
      assert p + sub == sub;
    }
  }

  /** A readable hostname containing "github.io", at the path "/": GitHub Pages with no base path. */
  lemma GithubRoot(h: Host, u: Url)
    requires h.hostname.Some? && Contains(h.hostname.value, "github.io") && u.pathname == "/"
    ensures IsGithubPages(EnvAt(h, u)) && BasePath(EnvAt(h, u)) == []
  {
    var e := EnvAt(h, u);
    WebGithubPagesIffHost(e.window, h.hostname.value);
    BasePathWithoutSegment(e);
  }

  /** "u.github.io" is a GitHub Pages host name. */
  lemma UserSiteHost(host: string)
    requires host == "u.github.io"
    ensures Contains(host, "github.io")
  {
    assert host == "u." + "github.io";
    ContainsSuffix("u.", "github.io");
  }

  /**
   * The stale query happens: a tab on "u.github.io" at "/?section=t" that
   * pushes section s still reads t.
   */
  lemma StaleQueryExample(host: string, h: Host, u: Url, l: string, s: string, t: string)
    requires host == "u.github.io" && h.hostname == Some(host)
    requires IsSection(s) && IsSection(t) && u.pathname == "/" && u.search == "?section=" + t && u.hash == []
    ensures WellFormed(u) && SectionFromUrl(EnvAt(h, Resolve(u, SectionHref(h, u, l, Some(s))))) == Some(t)
  {
    SectionQueryWellFormed(u, t);
    UserSiteHost(host);
    GithubRoot(h, u);
    StaleQueryOutranksPush(h, u, l, s, t);
  }

  /** "/" with the search "?section=t" and no hash is a well-formed address. */
  lemma SectionQueryWellFormed(u: Url, t: string)
    requires IsSection(t) && u.pathname == "/" && u.search == "?section=" + t && u.hash == []
    ensures WellFormed(u)
  {
    SectionShape(t);
    assert '#' !in "?section=";
  }

  /**
   * The section address as evidently intended: at the root of a GitHub Pages
   * site it is anchored at "/", so that, as under a repository path, pushing
   * it replaces the search as well as the hash.
   */
  function SectionHrefIntended(h: Host, u: Url, l: string, section: Option<string>): string {
    var e := EnvAt(h, u);
    var base := if IsGithubPages(e) && BasePath(e) == [] then "/" else BasePath(e);
    LandingSectionHref(l, section, base, IsGithubPages(e))
  }

  /** With the intended address, a pushed section reads back everywhere, whatever the search held. */
  lemma PushedSectionReadsBackIntended(h: Host, u: Url, l: string, s: string)
    requires WellFormed(u) && IsSection(s)
    requires l != [] && l[0] != '/' && '#' !in l && '?' !in l
    ensures SectionFromUrl(EnvAt(h, Resolve(u, SectionHrefIntended(h, u, l, Some(s))))) == Some(s)
  {
    var e := EnvAt(h, u);
    if IsGithubPages(e) && BasePath(e) == [] {
      var v := Resolve(u, SectionHrefIntended(h, u, l, Some(s)));
      assert WellFormed(Url("/", [], []));
      assert l[0] in l;
      HashSectionHrefReadsBack(EnvAt(h, v), u, l, s, "/");
    } else {
      PushedSectionReadsBack(h, u, l, s);
    }
  }

  class Tab {
    const host: Host
    /** The address the tab shows. */
    var url: Url
    /** The earlier session-history entries, oldest first. */
    var back: seq<Url>
    /** How many times `history.replaceState` has been called. */
    var replaceCalls: nat

    ghost predicate Valid()
      reads this
    {
      WellFormed(url)
    }

    constructor(host: Host, url: Url)
      requires WellFormed(url)
      ensures Valid()
      ensures this.host == host && this.url == url && back == [] && replaceCalls == 0
    {
      this.host := host;
      this.url := url;
      back := [];
      replaceCalls := 0;
    }

    /** `location.set_hash(h)`: an entry is added only when the address changes. */
    method SetHash(h: string)
      requires Valid()
      modifies this
      ensures Valid()
      ensures url == WithHash(old(url), h)
      ensures back == if url == old(url) then old(back) else old(back) + [old(url)]
      ensures replaceCalls == old(replaceCalls)
    {
      var next := WithHash(url, h);
      if next != url {
        back := back + [url];
        url := next;
      }
    }

    /** `history.push_state_with_url`: `ok` is false when the call returns an error. */
    method PushState(target: string) returns (ok: bool)
      requires Valid() && host.history
      modifies this
      ensures Valid()
      ensures ok == host.historyAccepts
      ensures url == if ok then Resolve(old(url), target) else old(url)
      ensures back == if ok then old(back) + [old(url)] else old(back)
      ensures replaceCalls == old(replaceCalls)
    {
      ok := host.historyAccepts;
      if ok {
        back := back + [url];
        url := Resolve(url, target);
      }
    }

    /** `history.replace_state_with_url`: the current entry is rewritten in place. */
    method ReplaceState(target: string)
      requires Valid() && host.history
      modifies this
      ensures Valid()
      ensures url == if host.historyAccepts then Resolve(old(url), target) else old(url)
      ensures back == old(back)
      ensures replaceCalls == old(replaceCalls) + 1
    {
      replaceCalls := replaceCalls + 1;
      if host.historyAccepts {
        url := Resolve(url, target);
      }
    }

    /** `update_url`: the hash route on GitHub Pages; elsewhere a push of the path, falling back to the hash. */
    method UpdateUrl(r: Route, l: string)
      requires Valid()
      modifies this
      ensures Valid()
      ensures url == UpdatedUrl(host, old(url), r, l)
      ensures back == if UpdateAddsEntry(host, old(url), r, l) then old(back) + [old(url)] else old(back)
      ensures replaceCalls == old(replaceCalls)
    {
      var e := EnvAt(host, url);
      if IsGithubPages(e) {
        SetHash(ToHash(r, l));
        return;
      }
      var base := BasePath(e);
      var path := ToPath(r, l);
      var full := if base != [] then base + path else path;
      if host.history {
        var ok := PushState(full);
        if !ok {
          SetHash(ToHash(r, l));
        }
      } else {
        SetHash(ToHash(r, l));
      }
    }

    /** `push_landing_section_url`: pushes the section address when history is available. */
    method PushLandingSectionUrl(l: string, section: Option<string>)
      requires Valid()
      modifies this
      ensures Valid()
      ensures var pushed := host.history && host.historyAccepts;
        url == (if pushed then Resolve(old(url), SectionHref(host, old(url), l, section)) else old(url))
        && back == (if pushed then old(back) + [old(url)] else old(back))
      ensures replaceCalls == old(replaceCalls)
    {
      if host.history {
        var desired := SectionHref(host, url, l, section);
        var _ := PushState(desired);
      }
    }

    /** `replace_landing_section_url` with the "already correct" test it intends. */
    method ReplaceLandingSectionUrl(l: string, section: Option<string>)
      requires Valid()
      modifies this
      ensures Valid()
      ensures url == AfterReplace(host, old(url), l, section)
      ensures back == old(back)
      ensures replaceCalls == old(replaceCalls) + (if host.history && !Shown(host, old(url), l, section) then 1 else 0)
    {
      var desired := SectionHref(host, url, l, section);
      var current := url.pathname + url.search;
      if current != desired && Resolve(url, desired) != url && host.history {
        ReplaceState(desired);
      }
    }

    /** `replace_landing_section_url` as written. */
    method ReplaceLandingSectionUrlAsWritten(l: string, section: Option<string>)
      requires Valid()
      modifies this
      ensures Valid()
      ensures url == AfterReplaceAsWritten(host, old(url), l, section)
      ensures back == old(back)
      ensures replaceCalls == old(replaceCalls) + (if host.history && !ShownAsWritten(host, old(url), l, section) then 1 else 0)
    {
      var desired := SectionHref(host, url, l, section);
      var current := url.pathname + url.search;
      if current != desired && host.history {
        ReplaceState(desired);
      }
    }
  }
}
