/**
 * The pure parts of the server-side renderer: reading a request path as a
 * (locale, page) pair, the title and description each page is rendered with,
 * where hashed assets are served from, and the normalised base path.
 */
module Server {
  import opened Strings
  import opened Locales
  import opened SharedRouter

  /** `parse_locale_and_route`: '#' then '/' runs are trimmed and empty segments dropped before classification. */
  function ParseLocaleAndRoute(path: string): (r: (Locale, Route))
    ensures Segments(TrimStart(path, '#')) == [] ==> r == (En, Landing)
    ensures r.0 != En ==> var parts := Segments(TrimStart(path, '#')); parts != [] && StartsWith(parts[0], "zh")
  {
    var parts := Segments(TrimStart(path, '#'));
    ChineseTagsStartZh(if parts == [] then "" else parts[0]);
    var hasLocale := parts != [] && IsLocaleToken(parts[0]);
    var locale := if hasLocale then FromStr(parts[0]) else En;
    var rest := if hasLocale then parts[1..] else parts;
    (locale, PageOf(if rest == [] then "" else rest[0]))
  }

  /** The (title, description) of the privacy policy, in every locale. */
  const PrivacySeo: (string, string) := (
    "Remind Me - Privacy Policy",
    "Privacy Policy for Remind Me PWA. Reminders are stored locally on your device and are not collected by us.")

  /** The (title, description) of the terms of use, in every locale. */
  const TermsSeo: (string, string) := (
    "Remind Me - Terms of Use",
    "Terms of Use for Remind Me PWA. Free, open-source, offline-first reminder app.")

  /** `route_seo`: the (title, description) a page is rendered with. */
  function RouteSeo(route: Route, locale: Locale): (seo: (string, string))
    ensures route == PrivacyPolicy ==> seo == PrivacySeo
    ensures route == TermsOfUse ==> seo == TermsSeo
  {
    match route
    case Landing => LandingSeo(locale)
    case PrivacyPolicy => PrivacySeo
    case TermsOfUse => TermsSeo
    case App => AppSeo(locale)
  }

  /** The (title, description) of the landing page: the arms `(Landing, ZhHans)`, `(Landing, ZhHant)` and `(Landing, _)`. */
  function LandingSeo(locale: Locale): (string, string) {
    match locale
    case ZhHans => (
      "提醒我 PWA - 您的个人提醒助手",
      "一个简单优雅的提醒应用，帮助您保持条理。支持离线使用，可安装到设备，并保护您的数据隐私。")
    case ZhHant => (
      "提醒我 PWA - 您的個人提醒助手",
      "一個簡單優雅的提醒應用，幫助您保持條理。支援離線使用，可安裝到裝置，並保護您的資料隱私。")
    case En => (
      "Remind Me PWA - Your Personal Reminder Assistant",
      "A beautiful and functional Progressive Web App to help you manage your reminders. Works offline, installs on your device, and keeps your data private.")
  }

  /** The (title, description) of the app page: the arms `(App, ZhHans)`, `(App, ZhHant)` and `(App, _)`. */
  function AppSeo(locale: Locale): (string, string) {
    match locale
    case ZhHans => (
      "提醒我 - 管理您的提醒事项",
      "一个简单优雅的提醒应用，帮助您保持条理。支持离线使用，数据存储在本地设备。")
    case ZhHant => (
      "提醒我 - 管理您的提醒事項",
      "一個簡單優雅的提醒應用，幫助您保持條理。支援離線使用，資料儲存在本地裝置。")
    case En => (
      "Remind Me - Manage Your Reminders",
      "A simple and elegant reminder app to help you stay organized. Works offline, data stored locally on your device.")
  }

  /** `BASE_PATH` as the server uses it: every trailing '/' removed. */
  function NormaliseBasePath(configured: string): (r: string)
    ensures r == [] || r[|r| - 1] != '/'
    ensures StartsWith(configured, r) && forall i :: |r| <= i < |configured| ==> configured[i] == '/'
  {
    TrimEnd(configured, '/')
  }

  /** `AssetIndex::asset_url`: hashed assets are served under "/assets/" below the base path. */
  function AssetUrl(basePath: string, hashedFilename: string): (url: string)
    ensures StartsWith(url, basePath) && EndsWith(url, hashedFilename)
    ensures |url| == |basePath| + |"/assets/"| + |hashedFilename|
  {
    basePath + "/assets/" + hashedFilename
  }

  // ---------------------------------------------------------------------------
  // Properties

  /** Every tag read as a Chinese locale starts with "zh". */
  lemma ChineseTagsStartZh(s: string)
    ensures FromStr(s) != En ==> StartsWith(s, "zh")
  {
    if FromStr(s) != En {
      assert s in {"zh-Hans", "zh-CN", "zh", "zh-Hant", "zh-TW"};
    }
  }

  /** A locale token followed by a page segment is read as that token's locale and that page. */
  lemma ParseLocalePath(token: string, segment: string)
    requires token != [] && '/' !in token && IsLocaleToken(token)
    requires '/' !in segment
    ensures ParseLocaleAndRoute("/" + token + "/" + segment) == (FromStr(token), PageOf(segment))
  {
    var path := "/" + token + "/" + segment;
    assert TrimStart(path, '#') == path;
    SegmentsOfLocalePath(token, segment);
  }

  /** The non-empty segments of "/" followed by one segment. */
  lemma SegmentsOfBarePath(segment: string)
    requires segment != [] && '/' !in segment
    ensures Segments("/" + segment) == [segment]
  {
    assert segment[0] != '/' by { assert segment[0] in segment; }
    assert "/" + segment == ['/'] + segment;
    TrimOne('/', segment);
    SplitNoSeparator(segment, '/');
    assert NonEmpty([segment]) == [segment] + NonEmpty([]);
  }

  /** A single segment that is not a locale token names the page, in English. */
  lemma ParseBarePath(segment: string)
    requires segment != [] && '/' !in segment && !IsLocaleToken(segment)
    ensures ParseLocaleAndRoute("/" + segment) == (En, PageOf(segment))
  {
    assert TrimStart("/" + segment, '#') == "/" + segment;
    SegmentsOfBarePath(segment);
    var parts := Segments(TrimStart("/" + segment, '#'));
    assert parts == [segment] && parts[0] == segment;
  }

  /** "/terms" is the English terms page. */
  lemma TermsPath(p: string)
    requires p == "/terms"
    ensures ParseLocaleAndRoute(p) == (En, TermsOfUse)
  {
    var t := "terms";
    assert p == "/" + t;
    assert t[0] != 'z' && t != "en";
    ParseBarePath(t);
  }

  /** "/zh/app" is the app in Simplified Chinese. */
  lemma ZhAppPath(p: string)
    requires p == "/zh/app"
    ensures ParseLocaleAndRoute(p) == (ZhHans, App)
  {
    var zh, app := "zh", "app";
    assert p == "/" + zh + "/" + app;
    ParseLocalePath(zh, app);
  }

  /** A "zh-*" tag that is none of the known aliases is consumed as a locale but read as English. */
  lemma UnknownRegionalIsEnglish(token: string, segment: string)
    requires token != [] && '/' !in token && StartsWith(token, "zh-")
    requires token !in {"zh-Hans", "zh-CN", "zh-Hant", "zh-TW"}
    requires '/' !in segment
    ensures ParseLocaleAndRoute("/" + token + "/" + segment) == (En, PageOf(segment))
  {
    ParseLocalePath(token, segment);
    FromStrAliases(token);
  }

  /** A path with no segment, or whose first segment is neither a locale nor a page, is the English landing page. */
  lemma UnrecognisedIsEnglishLanding(path: string)
    requires var parts := Segments(TrimStart(path, '#'));
      parts == [] || (!IsLocaleToken(parts[0]) && parts[0] !in {"app", "privacy", "terms"})
    ensures ParseLocaleAndRoute(path) == (En, Landing)
  {
  }

  /** Every route the client writes with a canonical tag is read by the server as that page and locale. */
  lemma ServerReadsClientPaths(r: Route, l: Locale)
    ensures ParseLocaleAndRoute(ToPath(r, AsStr(l))) == (l, r)
  {
    var tag := AsStr(l);
    assert IsLocaleToken(tag) by {
      assert tag == "en" || tag[..3] == "zh-";
    }
    ToPathShape(r, tag);
    ParseLocalePath(tag, Suffix(r));
    FromStrAsStr(l);
  }

  /** The legal pages are rendered with the same title and description in every locale. */
  lemma LegalPagesIgnoreLocale(r: Route, a: Locale, b: Locale)
    requires r == PrivacyPolicy || r == TermsOfUse
    ensures RouteSeo(r, a) == RouteSeo(r, b)
  {
  }

  /** The served base path never ends in '/', so the asset URL never doubles the slash before "assets". */
  lemma AssetUrlJoin(configured: string, file: string)
    ensures var base := NormaliseBasePath(configured);
      var url := AssetUrl(base, file);
      url[..|base|] == base && url[|base|..|base| + 8] == "/assets/" && url[|base| + 8..] == file
      && (base == [] || url[|base| - 1] != '/')
  {
  }
}
