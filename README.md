# remind-me-pwa, modelled in Dafny

remind-me-pwa is a reminder app written in Rust with Dioxus, built for the
web (WebAssembly, optionally served from GitHub Pages), for mobile, and
with a small server-side renderer. This project models the logic under its
user interface: URL routing and the deployment base path, locales and
translation lookup, the reminder query engine, the in-place edits of the
reminder and tag lists, the grouping views, persistence, and two small
state machines. Browser, file-system and clock access are parameters or
small classes standing for them.

Modules, one per area of the program:

- `Wrappers`, `Strings`: `Option`, and the `str` operations the rest is built from.
- `Browser`, `KeyValue`: `window.location` and the history stack; `localStorage` as a `Store` class whose writes can be refused.
- `Deployment`: `is_github_pages`, `get_base_path`, `get_base_url`, `get_full_base_url`, `is_production` (both crates).
- `SharedRouter`: the shared route codec `from_path` / `to_path` / `to_hash`, `path_has_locale_prefix`, `landing_section_href_impl`.
- `WebRouter`: the start-up precedence, `get_query_param`, the landing-section reader and `build_landing_section_url`.
- `Navigation`: a browser tab (`Tab` class) and the writes `update_url`, `push_landing_section_url` and `replace_landing_section_url` make.
- `LegacyRouter`: the single-crate app's router.
- `Server`: `parse_locale_and_route`, `route_seo`, `asset_url` and the `BASE_PATH` normalisation.
- `Locales`, `Translations`, `I18n`: the locale tag codec, dotted-key lookup with fallback, and the three `I18nContext` classes.
- `Models`, `Dates`, `Sorting`, `Queries`, `Cards`: the records, due dates over an abstract clock, the stable sort, statistics and the filtered and sorted list, and the card's overdue test.
- `Storage`, `ReminderApp`, `Forms`: persistence of the list, the list handlers, and the two reminder forms.
- `TagManager`, `TagForm`, `FolderView`, `CalendarView`: tag editing, and the folder and calendar views.
- `Media`, `DomId`: the media cache state map and the wrapping DOM-id counter.

Where the code does something its comments or its neighbours suggest was
not meant, the model follows the code and records the difference under
"## Findings", with the corrected behaviour proved beside it.

## Model

| member | source | states |
|---|---|---|
| Deployment.BasePath | src/deployment.rs:70-92 | the base path is "" or "/" followed by one segment without '/', and it is non-empty only on GitHub Pages |
| Deployment.RepoSegment | crates/web/src/deployment.rs:32-36 | the segment found is non-empty and holds no '/' |
| Deployment.OffWasm | src/deployment.rs:47-50 | off the browser build nothing is GitHub Pages, the base path, base URL and full base URL are "", and nothing is production |
| Deployment.WebGithubPagesIffHost | crates/web/src/deployment.rs:8-18 | in the web crate GitHub Pages is detected exactly when the hostname contains "github.io" |
| Deployment.RepoSegmentOf | crates/web/src/deployment.rs:32-36 | the first non-empty segment of "/repo/rest" is "repo" |
| Deployment.BasePathIsRepo | crates/web/src/deployment.rs:24-44 | on GitHub Pages the base path is "/" and the repository segment, whatever follows it |
| Deployment.BasePathChars | src/deployment.rs:80-86 | every character of the base path is '/' or comes from the pathname |
| Deployment.BasePathWithoutSegment | src/deployment.rs:80-91 | a pathname made only of '/' gives no base path, even on github.io |
| Deployment.BasePathOnlyOnGithubPages | crates/web/src/deployment.rs:29-40 | off GitHub Pages the base path is "" and the full base URL is the base URL |
| Deployment.BaseUrlFallback | crates/web/src/deployment.rs:50-62 | the origin when it can be read; otherwise the GitHub constant on GitHub Pages and "" elsewhere |
| Deployment.LocalHostsAreNotProduction | src/deployment.rs:173-183 | "localhost" and "127.0.0.1" are never production |
| Deployment.GithubPagesIsProduction | src/deployment.rs:173-183 | a GitHub Pages host is production |
| Deployment.IsGithubPages | src/deployment.rs:35-50 | GitHub Pages means a WASM build on a host containing "github.io", never "localhost" or "127.0.0.1" |
| Deployment.BaseUrl | src/deployment.rs:118-136 | outside WASM the base is empty; inside it is empty, the GitHub Pages origin or the window's own origin |
| Deployment.FullBaseUrl | src/deployment.rs:154-164 | off GitHub Pages, or on GitHub Pages without a repository segment, it is the base; with a segment it is the base, '/' and that segment |
| Deployment.IsProduction | src/deployment.rs:173-183 | production needs a WASM build with a readable hostname, and "localhost" and "127.0.0.1" are never production |
| SharedRouter.StripBase | crates/shared/src/router.rs:33-37 | the path is kept, or it is the base (non-empty) followed by the result |
| SharedRouter.FromPath | crates/shared/src/router.rs:31-78 | the locale returned is "en" or a "zh-" tag |
| SharedRouter.ToPathShape | crates/shared/src/router.rs:81-88 | `to_path` is "/", the locale, "/" and a suffix without '/' that names the same route back |
| SharedRouter.ToPathChars | crates/shared/src/router.rs:81-88 | a path route starts with '/' and holds '#' or '?' only if its locale does |
| SharedRouter.ToHashIsHashedPath | crates/shared/src/router.rs:90-98 | `to_hash(r, l)` is "#" followed by `to_path(r, l)` |
| SharedRouter.StripBaseOfPrefixed | crates/shared/src/router.rs:33-39 | the base path in front of a non-empty rest is removed, leaving that rest |
| SharedRouter.SegmentsOfLocalePath | crates/shared/src/router.rs:40 | "/token/segment" splits into the token and the segment, or the token alone when the segment is "" |
| SharedRouter.FromLocalePath | crates/shared/src/router.rs:44-67 | after a locale token, the next segment picks App, PrivacyPolicy or TermsOfUse and anything else (or nothing) Landing, with the normalised token as locale |
| SharedRouter.RoundTrip | crates/shared/src/router.rs:31-88 | for every base, route and locale token other than bare "zh", `from_path(base + to_path(r, l), base) == (r, l)` |
| SharedRouter.CanonicalTagsRoundTrip | crates/shared/src/router.rs:31-88 | "en", "zh-Hans" and "zh-Hant" round-trip through `to_path` and `from_path` for every route and base |
| SharedRouter.BareZhIsSimplified | crates/shared/src/router.rs:48-53 | a first segment "zh" is read as "zh-Hans" |
| SharedRouter.RegionalZhIsKept | crates/shared/src/router.rs:48-53 | another "zh-*" token such as "zh-TW" is kept verbatim |
| SharedRouter.ForeignBaseIgnored | crates/shared/src/router.rs:33-37 | a base path that is not a prefix of the path gives the same result as no base path |
| SharedRouter.ZhBaseSwallowsZhHans | crates/shared/src/router.rs:31-77 | with base "/zh", the path "/zh-Hans/" reads as (Landing, "en") |
| SharedRouter.NoLocaleSegment | crates/shared/src/router.rs:71-77 | a path whose only segment is not a locale token and which has neither "/app" nor "#app" gives (Landing, "en") |
| SharedRouter.NoLocaleMeansEnglish | crates/shared/src/router.rs:71-77 | without the locale branch the locale is "en", and the route is App exactly when the path contains "/app" or "#app" |
| SharedRouter.ToPath | crates/shared/src/router.rs:81-88 | the path is "/", the locale, "/" and a suffix without '/' that reads back as the route |
| SharedRouter.PathHasLocalePrefix | crates/shared/src/router.rs:101-119 | for a path not starting with '#', it holds exactly when `from_path` takes its locale branch |
| SharedRouter.LandingPage | crates/shared/src/router.rs:349-359 | the landing page starts with '#' exactly on GitHub Pages and ends with '/' |
| SharedRouter.LandingSectionHrefSplit | crates/shared/src/router.rs:349-368 | the link is the base, then the landing page, then "?section=" and the section when one is given |
| SharedRouter.LandingSectionHrefParts | crates/shared/src/router.rs:349-368 | the link starts with the base, then '#' exactly on GitHub Pages; it ends with "?section=" and the section for a non-empty section, and with '/' otherwise |
| WebRouter.InitialRoute | crates/web/src/router.rs:8-40 | the start-up precedence: a non-empty hash, then a pathname with a locale, then the stored tag, then (Landing, "en") |
| WebRouter.IntendedAgreesUnlessBaseInHash | crates/web/src/router.rs:14-19 | reading the hash with or without stripping the base path differs only when the base is a prefix of the hash route |
| WebRouter.HashDecidesFirst | crates/web/src/router.rs:14-19 | a non-empty hash decides the route, whatever the pathname and the stored locale |
| WebRouter.HashRouteRead | crates/web/src/router.rs:14-19 | a hash "#" + route is parsed as that route |
| WebRouter.StoredLocaleVerbatim | crates/web/src/router.rs:32-36 | without a usable hash or a localised pathname, the stored tag is returned as written, not normalised |
| WebRouter.DefaultRoute | crates/web/src/router.rs:8-40 | with nothing to go on the app starts at (Landing, "en") |
| WebRouter.PathRouteIsRestored | crates/web/src/router.rs:22-30 | off GitHub Pages, a pathname written by `to_path` reads back as its route and locale |
| WebRouter.HashRouteIsRestored | crates/web/src/router.rs:14-19 | a hash written by `to_hash` reads back as its route and locale when read without the base path |
| WebRouter.PathRouteParses | crates/web/src/router.rs:22-30 | a path route has a locale prefix and parses back as itself |
| WebRouter.GetQueryParam | crates/web/src/router.rs:125-145 | the loop returns the value of the first non-empty pair whose key matches, after one leading '?' is dropped |
| WebRouter.FirstValueSound | crates/web/src/router.rs:131-142 | a value is found only in a non-empty pair with that key, and none is found only when no such pair exists |
| WebRouter.FirstValueIsFirst | crates/web/src/router.rs:131-142 | the first non-empty pair with the key decides, whatever follows |
| WebRouter.QueryParamReadsBack | crates/web/src/router.rs:125-145 | "?key=value" followed by "&..." or nothing reads back as the value |
| WebRouter.KeyValueOf | crates/web/src/router.rs:136-138 | "key=value" splits at its first '=' into the key and the value |
| WebRouter.PairReadsBack | crates/web/src/router.rs:125-145 | a lone "key=value" reads back with or without the leading '?' |
| WebRouter.SectionParamReadsBack | crates/web/src/router.rs:125-145 | "section=s" with or without '?' gives s |
| WebRouter.SectionOf | crates/web/src/router.rs:150-158 | a section read from a query is one of features, how, pricing and faq |
| WebRouter.SectionFromHash | crates/web/src/router.rs:161-179 | a section read from a hash is one of the four names |
| WebRouter.SectionFromUrl | crates/web/src/router.rs:124-183 | whatever section the address yields is one of the four names |
| WebRouter.QueryBeatsHash | crates/web/src/router.rs:150-158 | a valid section in the query wins over anything in the hash |
| WebRouter.SectionOfHit | crates/web/src/router.rs:153-156 | a query value that is a section name is returned |
| WebRouter.SectionQueryReadsBack | crates/web/src/router.rs:150-158 | "section=s" and "?section=s" yield s for each section name |
| WebRouter.LegacyAnchors | crates/web/src/router.rs:174-178 | "#s" and "#/s" select the section s |
| WebRouter.HashQuerySplits | crates/web/src/router.rs:163-166 | the trimmed hash "#/l/?q" splits at its '?' into "l/" and q |
| WebRouter.SectionFromHashQuery | crates/web/src/router.rs:165-172 | a hash whose query names a section decides the section |
| WebRouter.EmptySearchDefersToHash | crates/web/src/router.rs:151-162 | with an empty query string the hash decides |
| WebRouter.NoQuerySectionDefersToHash | crates/web/src/router.rs:151-162 | a search that names no valid section leaves the choice to the hash |
| WebRouter.HashQueryForm | crates/web/src/router.rs:165-172 | "#/l/?section=s" selects s |
| WebRouter.PathSectionHrefReadsBack | crates/web/src/router.rs:91-116 | after moving to the path address of a section, the query selects that section |
| WebRouter.HashSectionHrefReadsBack | crates/web/src/router.rs:91-116 | after moving to the GitHub Pages address of a section, the query inside the hash selects that section |
| WebRouter.FirstValue | crates/web/src/router.rs:131-142 | a value found comes from a non-empty pair with that key; none found means no non-empty pair has the key |
| WebRouter.QueryParam | crates/web/src/router.rs:125-145 | an empty query gives nothing, and a value found comes from a '&'-separated pair with that key |
| Navigation.WithHash | crates/web/src/router.rs:80-85 | `set_hash` keeps pathname and search, stores a hash longer than "#" as given, and keeps the address well formed |
| Navigation.UpdateUrlForms | crates/web/src/router.rs:43-88 | `update_url` writes the hash route on GitHub Pages, base + path route after a successful push, and the hash route when the push fails or history is missing |
| Navigation.ReloadRestoresRoute | crates/web/src/router.rs:8-88 | after `update_url(r, l)`, reading the hash route without the base path restores (r, l) wherever the app is served |
| Navigation.ReloadRestoresRouteAsWritten | crates/web/src/router.rs:8-88 | as written, (r, l) is restored when the base path is not a prefix of the path route |
| Navigation.HashRouteLostUnderPrefixBase | crates/web/src/router.rs:14-19 | from a repository named "zh" on GitHub Pages, the "zh-Hans" landing route that `update_url` writes reloads as (Landing, "en"), while the intended reading restores it |
| Navigation.ZhHashRoute | crates/shared/src/router.rs:181-186 | the hash "#/zh-Hans/" under base "/zh" starts the app in English as written, in "zh-Hans" as intended |
| Navigation.AsWrittenNeverShownOnGithubPages | crates/web/src/router.rs:197-213 | on GitHub Pages pathname + search never equals the desired address, which holds a '#' |
| Navigation.SectionHrefStable | crates/web/src/router.rs:91-116 | the section address computed after moving to it is the same address |
| Navigation.ReplaceSettles | crates/web/src/router.rs:197-213 | with the intended test, a second identical `replace_landing_section_url` finds the address already shown |
| Navigation.AsWrittenNeverSettlesOnGithubPages | crates/web/src/router.rs:197-213 | as written, on GitHub Pages both the first call and the one straight after it call `replaceState` |
| Navigation.AsWrittenSettlesOffGithubPages | crates/web/src/router.rs:197-213 | off GitHub Pages the written test does settle: straight after a replace, the same call finds the address shown and does nothing |
| Navigation.PushedSectionReadsBack | crates/web/src/router.rs:185-194 | after pushing the address of section s, the section read from the tab is s, unless the tab sits at the root of a GitHub Pages site with a section already in its search |
| Navigation.RootSectionAddress | crates/web/src/router.rs:91-104 | at the root of a GitHub Pages site the section address is a bare fragment, so following it keeps the old search |
| Navigation.StaleQueryOutranksPush | crates/web/src/router.rs:148-158 | as written, at the root of a GitHub Pages site a section t already in the search is read back after pushing any section s |
| Navigation.StaleQueryExample | crates/web/src/router.rs:148-194 | on "u.github.io" at "/?section=t", pushing section s still reads t |
| Navigation.PushedSectionReadsBackIntended | crates/web/src/router.rs:91-104 | with the address anchored at "/" on a GitHub Pages root, a pushed section reads back whatever the search held |
| Navigation.Tab.SetHash | crates/web/src/router.rs:80-85 | the address gets the new hash and history grows only when the address changes |
| Navigation.Tab.PushState | crates/web/src/router.rs:74-79 | a successful push moves to the resolved target and adds one history entry; a failed one changes nothing |
| Navigation.Tab.ReplaceState | crates/web/src/router.rs:208-211 | the current entry is rewritten without adding history, and the call is counted |
| Navigation.Tab.UpdateUrl | crates/web/src/router.rs:43-88 | the tab ends at `UpdatedUrl`, with one more history entry exactly when `update_url` adds one |
| Navigation.Tab.PushLandingSectionUrl | crates/web/src/router.rs:185-194 | with history, the section address is pushed; otherwise nothing changes |
| Navigation.Tab.ReplaceLandingSectionUrl | crates/web/src/router.rs:197-213 | the corrected replace: `replaceState` is called exactly when the address is not already shown, and history never grows |
| Navigation.Tab.ReplaceLandingSectionUrlAsWritten | crates/shared/src/router.rs:270-290 | the replace as written: `replaceState` is called whenever pathname + search differs from the desired address |
| LegacyRouter.LocaleFirst | src/router.rs:9-19 | with two or more segments and a non-empty first one, the first is the locale verbatim and the route is App exactly when the second is "app" |
| LegacyRouter.RoundTrip | src/router.rs:8-37 | for a non-empty locale without '/', `from_path(to_path(r, l)) == (r, l)` |
| LegacyRouter.EnglishRoot | src/router.rs:9-19 | "/en/" is (Landing, "en"), the empty trailing piece counting as a second segment |
| LegacyRouter.ShortSingleSegment | src/router.rs:9-28 | a single segment of fewer than three characters gives (Landing, "en") |
| LegacyRouter.NoLocaleNoApp | src/router.rs:22-28 | fewer than two segments and neither "/app" nor "#app" give (Landing, "en") |
| LegacyRouter.BareZhFallsThrough | src/router.rs:9-28 | a lone "/zh" falls through to (Landing, "en") |
| LegacyRouter.PathnameWins | src/router.rs:47-58 | whenever the pathname can be read it decides, whatever the hash and the stored locale |
| LegacyRouter.UpdateUrl | src/router.rs:69-75 | `update_url` writes the hash route and never the path |
| LegacyRouter.WrittenRouteLostOnReload | src/router.rs:47-75 | at pathname "/", the app route written to the hash reloads as (Landing, "en") |
| LegacyRouter.ReloadRestoresRoute | src/router.rs:47-75 | read hash-first, the route `update_url` writes is restored on reload |
| LegacyRouter.FromPath | src/router.rs:8-30 | the locale read is never empty and holds no '/' |
| LegacyRouter.ToPath | src/router.rs:32-37 | the path is "/", the locale, "/" and a suffix, and the route is App exactly when that suffix is "app" |
| LegacyRouter.ToHash | src/router.rs:39-44 | the hash is "#" followed by `to_path` |
| LegacyRouter.InitialRoute | src/router.rs:47-58 | without a window the route is (Landing, "en"); a readable pathname decides the route on its own |
| Server.NormaliseBasePath | src/bin/server.rs:334-335 | the result is a prefix of BASE_PATH, does not end in '/', and only '/' was removed |
| Server.ParseLocalePath | src/bin/server.rs:264-295 | "/token/segment" with a locale token is the token's `Locale::from_str` and the page the segment names |
| Server.SegmentsOfBarePath | src/bin/server.rs:271-276 | "/segment" has the one non-empty segment |
| Server.ParseBarePath | src/bin/server.rs:278-292 | a single non-locale segment names the page, in English |
| Server.TermsPath | src/bin/server.rs:287-292 | "/terms" is (En, TermsOfUse) |
| Server.ZhAppPath | src/bin/server.rs:278-292 | "/zh/app" is (ZhHans, App) |
| Server.UnknownRegionalIsEnglish | src/bin/server.rs:278-285 | an unknown "zh-*" tag is consumed as a locale but read as En |
| Server.UnrecognisedIsEnglishLanding | src/bin/server.rs:285-291 | an empty path, or one whose first segment is neither a locale nor a page, is (En, Landing) |
| Server.ServerReadsClientPaths | src/bin/server.rs:264-295 | every path the client writes with a canonical tag is read as that locale and page |
| Server.LegalPagesIgnoreLocale | src/bin/server.rs:148-187 | the privacy and terms pages get the same title and description in every locale |
| Server.AssetUrlJoin | src/bin/server.rs:84-87 | the asset URL is the normalised base, "/assets/" and the file name, with no doubled '/' |
| Server.ParseLocaleAndRoute | src/bin/server.rs:264-295 | a path with no segments is the English landing page; a locale other than English needs a first segment starting with "zh" |
| Server.RouteSeo | src/bin/server.rs:148-187 | the privacy policy and the terms of use get the same title and description in every locale |
| Server.AssetUrl | src/bin/server.rs:84-87 | the address starts with the base, ends with the file name, and holds exactly "/assets/" between them |
| Locales.FromStrAsStr | crates/shared/src/i18n.rs:22-37 | `from_str(as_str(l)) == l` for every locale |
| Locales.FromStrAliases | crates/shared/src/i18n.rs:31-37 | exactly "zh-Hans", "zh-CN" and "zh" read as ZhHans, exactly "zh-Hant" and "zh-TW" as ZhHant, and everything else as En |
| Locales.AsStrInjective | crates/shared/src/i18n.rs:22-28 | different locales have different tags |
| Locales.AsStr | crates/shared/src/i18n.rs:22-28 | the tag is "en", "zh-Hans" or "zh-Hant", and `from_str` reads it back as the same locale |
| Locales.FromStr | crates/shared/src/i18n.rs:31-37 | a tag gives a locale other than English exactly when it is one of "zh-Hans", "zh-CN", "zh", "zh-Hant", "zh-TW" |
| Translations.Member | crates/shared/src/i18n.rs:83-86 | a member is found exactly when the value is an object that has it |
| Translations.WithFallback | crates/shared/src/i18n.rs:96-111 | the result is the locale's string, the English string or the key |
| Translations.NestedValue | src/i18n.rs:157-172 | the loop over the '.'-separated parts returns the string leaf the key leads to, and nothing at a missing member or a non-string leaf |
| Translations.GetTranslation | crates/shared/src/i18n.rs:77-93 | nothing for a locale without a document, otherwise the string at the dotted key |
| Translations.LoadTranslations | crates/shared/src/i18n.rs:51-74 | "en", "zh-Hans" and "zh", "zh-Hant" and "zh-TW" hold their documents and no other tag has one |
| Translations.WalkAppend | crates/shared/src/i18n.rs:82-87 | walking a path in two pieces is walking the first piece and then the second |
| Translations.LookupCases | crates/shared/src/i18n.rs:77-93 | a key is found exactly when every part leads to a member and the last value is a string, and then it is that string |
| Translations.LookupTopLevel | crates/shared/src/i18n.rs:77-93 | a key without '.' is a string member of the top-level object |
| Translations.MissingLocale | crates/shared/src/i18n.rs:77-111 | a locale without a document translates nothing and falls back to English (for another locale) or the key |
| Translations.FallbackOrder | crates/shared/src/i18n.rs:96-111 | a hit in the locale wins, then an English hit for a locale other than "en", then the key |
| Translations.AliasesShareDocuments | crates/shared/src/i18n.rs:62-71 | "zh" translates as "zh-Hans" and "zh-TW" as "zh-Hant" |
| Translations.LoadedTags | crates/shared/src/i18n.rs:51-74 | the documents are keyed by exactly "en", "zh-Hans", "zh", "zh-Hant" and "zh-TW", so "zh-CN" has none |
| Translations.Lookup | crates/shared/src/i18n.rs:77-93 | a hit means the document is an object holding the key's first dotted part |
| Translations.Translation | crates/shared/src/i18n.rs:77-93 | a locale without a document gives nothing, and a hit means that document is an object holding the key's first dotted part |
| KeyValue.Store.Get | src/storage.rs:9 | `get_item` finds a value exactly when the key is present, and it is the stored one |
| KeyValue.Store.SetItem | src/storage.rs:28-44 | an accepted write sets the key; a refused one changes nothing and reports failure |
| I18n.Restored | src/i18n.rs:49-60 | a saved tag is read through `Locale::from_str`, and nothing saved means English |
| I18n.LoadedIsComplete | crates/shared/src/i18n.rs:51-74 | after loading, every locale's tag has a document |
| I18n.LegacyContext.constructor | src/i18n.rs:46-75 | the translations are loaded, a WASM build restores the saved tag, and any other build starts in English |
| I18n.LegacyContext.SetLocale | src/i18n.rs:102-114 | the locale changes and, in a WASM build, "remind-me-locale" is set to its tag when the store accepts it |
| I18n.LegacyContext.CurrentLocaleStr | src/i18n.rs:116-118 | the tag reads back as the current locale and has a document |
| I18n.LegacyContext.EnglishOrKey | src/i18n.rs:132-138 | for a locale other than "en" the English string if there is one, else the key |
| I18n.LegacyContext.T | src/i18n.rs:120-155 | the walk through the current document gives the same result as the shared fallback lookup |
| I18n.ComponentsContext.constructor | crates/components/src/i18n.rs:24-46 | the translations are loaded and a WASM build restores the saved tag |
| I18n.ComponentsContext.SetLocale | crates/components/src/i18n.rs:48-60 | only the locale field changes, and a WASM build writes its tag under "remind-me-locale" |
| I18n.ComponentsContext.CurrentLocaleStr | crates/components/src/i18n.rs:62-64 | the tag reads back as the current locale |
| I18n.ComponentsContext.T | crates/components/src/i18n.rs:66-69 | equals the shared fallback lookup at the current locale: that locale's string, else the English string, else the key |
| I18n.LoadLocale | crates/mobile/src/i18n.rs:56-73 | a tag is read exactly when the file parses as JSON with a string member "locale", and it is that string |
| I18n.PrefsFile.SaveLocale | crates/mobile/src/i18n.rs:76-93 | {"locale": tag} replaces the file unless creating the directory or writing fails |
| I18n.MobileContext.constructor | crates/mobile/src/i18n.rs:19-36 | the translations are loaded and the locale is the one the preferences file names, English otherwise |
| I18n.MobileContext.SetLocale | crates/mobile/src/i18n.rs:38-43 | the locale changes and its tag is saved to the preferences file |
| I18n.MobileContext.CurrentLocaleStr | crates/mobile/src/i18n.rs:45-47 | the tag reads back as the current locale |
| I18n.MobileContext.T | crates/mobile/src/i18n.rs:49-52 | equals the shared fallback lookup at the current locale: that locale's string, else the English string, else the key |
| I18n.SavedTagRestores | src/i18n.rs:56-57 | a saved tag restores the locale it was saved for |
| I18n.UnknownTagRestoresEnglish | crates/components/src/i18n.rs:35-36 | a saved value that is no known tag or alias restores English |
| I18n.PrefsRoundTrip | crates/mobile/src/i18n.rs:56-93 | the preferences file written for a tag reads back as that tag |
| I18n.MobileRestartRestores | crates/mobile/src/i18n.rs:19-43 | after a successful save, a restarted mobile context has the saved locale |
| I18n.WebRestartRestores | crates/components/src/i18n.rs:24-60 | after a successful save in a WASM build, a restarted web context has the saved locale |
| Models.FromStored | crates/shared/src/models.rs:78-80 | a stored record without `tag_ids` reads with no tags; with them, with those |
| Models.FilterRoundTrip | crates/shared/src/models.rs:16-32 | `from_str(as_str(f)) == f` for every filter |
| Models.FilterUnknownIsAll | crates/shared/src/models.rs:26-32 | any string but "active" and "completed" means All |
| Models.FilterAsStrInjective | crates/shared/src/models.rs:17-23 | different filters have different names |
| Models.SortRoundTrip | crates/shared/src/models.rs:44-60 | `from_str(as_str(s)) == s` for every sort order |
| Models.SortUnknownIsDate | crates/shared/src/models.rs:54-60 | any string but "title" and "status" sorts by date |
| Models.SortAsStrInjective | crates/shared/src/models.rs:45-51 | different sort orders have different names |
| Models.StoredRoundTrip | crates/shared/src/models.rs:63-81 | a reminder written and read back is the same reminder |
| Models.FilterAsStr | crates/shared/src/models.rs:17-23 | `from_str` reads the string back as the same filter |
| Models.FilterFromStr | crates/shared/src/models.rs:26-32 | All exactly when the string is neither "active" nor "completed" |
| Models.SortAsStr | crates/shared/src/models.rs:45-51 | `from_str` reads the string back as the same sort order |
| Models.SortFromStr | crates/shared/src/models.rs:54-60 | Date exactly when the string is neither "title" nor "status" |
| Models.ToStored | crates/shared/src/models.rs:63-81 | the stored form always writes `tag_ids`, and reading it back gives the reminder |
| Dates.ConvertCases | src/utils.rs:6-21 | "" stays ""; a wall-clock reading with a single local instant becomes that instant in UTC; anything else is returned as given |
| Dates.ConvertKeepsInstant | src/utils.rs:6-21 | a converted wall-clock reading denotes the same instant, so its sort position is unchanged |
| Dates.FormatKeepsOtherText | src/utils.rs:23-31 | text in neither date form is shown as written |
| Dates.ConvertToRfc3339 | src/utils.rs:6-21 | the input changes only when it is non-empty and a wall-clock reading with a single local instant |
| Dates.FormatDate | src/utils.rs:23-31 | the input changes only when it reads as RFC 3339 or as a wall-clock reading |
| Dates.SortInstant | src/utils.rs:33-45 | the sort key is the due instant, or now when the due date does not parse |
| Sorting.InsertBounded | src/utils.rs:111-134 | a lower bound of the element and the list bounds the insertion |
| Sorting.InsertSorted | src/utils.rs:111-134 | inserting into a sorted list keeps it sorted |
| Sorting.InsertPermutes | src/utils.rs:111-134 | insertion adds exactly the element |
| Sorting.StableSortedIsSortedPermutation | src/utils.rs:111-134 | the stable order is sorted and a permutation of the input |
| Sorting.NoneLevelAbove | src/utils.rs:111-134 | nothing that must come after x is level with something level with x |
| Sorting.InsertLevel | src/utils.rs:111-134 | insertion places the element after everything level with it |
| Sorting.LevelAppend | src/utils.rs:111-134 | the level elements of s + [x] are those of s, then x if it is level |
| Sorting.StableSortedKeepsLevelOrder | src/utils.rs:111-134 | stability: elements the comparator calls Equal keep their input order |
| Sorting.InsertAt | src/utils.rs:111-134 | insertion goes after the prefix x may follow and before the suffix that must come after it |
| Sorting.InsertNext | src/utils.rs:111-134 | one step of the in-place sort leaves `a[..i+1]` equal to the insertion of `a[i]` into the sorted prefix, and the rest untouched |
| Sorting.InsertionSort | src/utils.rs:111-134 | the array ends as the stable sorted order of its old contents |
| Queries.ActiveAndCompletedPartition | src/utils.rs:47-50 | active and completed counts add up to the total |
| Queries.OverdueAreActive | src/utils.rs:51-71 | no more reminders are overdue than are active |
| Queries.CalculateStatistics | src/utils.rs:47-79 | total is the length, active + completed == total, and overdue <= active |
| Queries.OverdueMeansPast | src/utils.rs:51-71 | overdue exactly when open, dated, and the due date denotes an instant before now |
| Queries.Filtered | src/utils.rs:87-109 | the selection is no longer than the input |
| Queries.FilteredExactly | src/utils.rs:87-109 | each selected reminder is kept as often as the input holds it, and nothing else is kept |
| Queries.EmptyQueryMatchesAll | src/utils.rs:91-104 | filter "all" with an empty query keeps the whole list in order |
| Queries.LexLeTotal | src/utils.rs:114 | any two titles are ordered one way or the other |
| Queries.LexLeTransitive | src/utils.rs:114 | the title order is transitive |
| Queries.LeTotal | src/utils.rs:112-134 | each sort order compares any two reminders |
| Queries.LeTransitive | src/utils.rs:112-134 | each sort order is transitive |
| Queries.ComparatorIsTotalPreorder | src/utils.rs:112-134 | every comparator handed to `sort_by` is a total preorder, so the stable sort has one result |
| Queries.GetFilteredAndSortedReminders | src/utils.rs:81-137 | the result is the stable sort, by the order `sort_by` names, of the reminders the filter and the search select |
| Queries.FilteredAndSorted | src/utils.rs:81-137 | the list is sorted, holds exactly the selected reminders as often as the input does, and keeps ties in input order |
| Queries.SortedMeans | src/utils.rs:112-134 | sorted means titles ascending, open before completed, or due instants ascending |
| Queries.MatchesFilter | src/utils.rs:90-95 | a reminder passes exactly when the filter is All, or the filter is Completed exactly when the reminder is completed |
| Queries.MatchesSearch | src/utils.rs:98-104 | an empty query matches everything, and a match needs a title or a description at least as long as the query |
| Queries.SearchIgnoresCase | src/utils.rs:98-104 | the search ignores the case of the query: lower-casing it first changes no result |
| Queries.SearchIgnoresTextCase | src/utils.rs:98-104 | the search ignores the case of the title and the description |
| Queries.Comparator | src/utils.rs:112-134 | each sort order is a total preorder, so a stable sort by it is well defined |
| Queries.CountActive | src/utils.rs:49 | at most the number of reminders, and zero exactly when every reminder is completed |
| Queries.CountCompleted | src/utils.rs:50 | at most the number of reminders, and zero exactly when no reminder is completed |
| Queries.CountOverdue | src/utils.rs:51-70 | at most the number of reminders, and zero exactly when no reminder is overdue |
| Cards.Render | src/components/cards.rs:21-94 | the badge and the outline exactly when overdue, a due line exactly when dated, the title struck through exactly when completed, the description exactly when non-empty |
| Cards.OverdueAgreesWithStatistics | src/components/cards.rs:21-37 | the card's overdue test agrees with the one `calculate_statistics` counts |
| Cards.CompletedOrUndatedNotOverdue | src/components/cards.rs:21-37 | a completed or undated reminder is never overdue |
| Cards.CardClassPrecedence | src/components/cards.rs:39-45 | "completed" exactly for completed reminders, "overdue" for open overdue ones, the plain class otherwise |
| Cards.IsOverdue | src/components/cards.rs:21-37 | overdue exactly when open, dated and due before now |
| Storage.WriteAll | src/storage.rs:26 | each reminder is written as its stored record |
| Storage.ReadAll | src/storage.rs:10 | each stored record is read as its reminder |
| Storage.LoadFrom | src/storage.rs:6-21 | a missing key or unreadable text gives the empty list, otherwise the records read |
| Storage.LoadReminders | src/storage.rs:6-21 | no storage gives the empty list, otherwise what the "reminders" entry holds |
| Storage.SaveReminders | src/storage.rs:23-56 | the entries become the JSON under "reminders" when encoding and the write succeed, and are unchanged otherwise |
| Storage.ReadWriteAll | src/storage.rs:6-56 | every list written reads back as itself |
| Storage.LegacyRecordLoadsUntagged | crates/shared/src/models.rs:78-80 | a record from before tags existed loads with no tags and otherwise unchanged |
| Storage.SaveLoadRoundTrip | src/storage.rs:6-56 | a successful save reads back as the list saved |
| Storage.RefusedSaveKeepsList | src/storage.rs:28-44 | a refused write leaves the stored list as it was |
| Storage.SaveKeepsOtherKeys | src/storage.rs:23-56 | saving touches no key but "reminders" |
| ReminderApp.FirstIndex | src/components/reminder_app.rs:96 | the first index whose reminder has the id, or none when no reminder has it |
| ReminderApp.App.constructor | src/components/reminder_app.rs:14-28 | the stored list, no form, filter "all", empty search, sort "date", no edit, no delete prompt, no toast |
| ReminderApp.App.CurrentForm | src/components/reminder_app.rs:94-143 | the add form exactly when adding and not editing; an edit form exactly when editing an id some reminder has, showing that reminder |
| ReminderApp.App.Save | src/components/reminder_app.rs:107 | the store holds the saved list, and the stored list is the list shown |
| ReminderApp.App.OnAdd | src/components/reminder_app.rs:126-136 | the reminder is appended and saved, the add form closes, the "added" toast shows, nothing else changes |
| ReminderApp.App.OnSave | src/components/reminder_app.rs:101-113 | the first reminder with the id is replaced and saved, the edit ends, the "updated" toast shows |
| ReminderApp.App.OnToggle | src/components/reminder_app.rs:180-192 | the first match flips its completion and is saved with an info toast; an unknown id changes nothing at all |
| ReminderApp.App.OnEdit | src/components/reminder_app.rs:194-197 | the edit form of that id replaces the add form; nothing else changes |
| ReminderApp.App.OnDelete | src/components/reminder_app.rs:198-200 | only the delete prompt is set |
| ReminderApp.App.OnConfirm | src/components/reminder_app.rs:224-234 | every reminder with the id is removed and the list saved, the prompt closes, the "deleted" toast shows |
| ReminderApp.EditThenFind | src/components/reminder_app.rs:102-106 | after an edit, the id finds the updated reminder at the same place |
| ReminderApp.FirstIndexAfterUpdate | src/components/reminder_app.rs:103-104 | rewriting the first match with the same id keeps it the first match |
| ReminderApp.FirstIndexUnique | src/components/reminder_app.rs:96 | the first match is the index with the id and none before it |
| ReminderApp.ReplaceFirstFrame | src/components/reminder_app.rs:102-106 | an edit changes nothing but the first match |
| ReminderApp.ToggleTwice | src/components/reminder_app.rs:181-183 | toggling the same id twice restores the list |
| ReminderApp.ToggleOnlyCompletion | src/components/reminder_app.rs:181-183 | a toggle changes only the completion of the first match |
| ReminderApp.RemoveAllExactly | src/components/reminder_app.rs:225-226 | a delete removes every reminder with the id and keeps every other one as often as it was there |
| ReminderApp.RemoveAllKeepsOthers | src/components/reminder_app.rs:225-226 | deleting an id no reminder has changes nothing |
| ReminderApp.RemoveAllAppend | src/components/reminder_app.rs:225-226 | deletion works piecewise, so the survivors keep their relative order |
| ReminderApp.AddThenDelete | src/components/reminder_app.rs:126-229 | adding a reminder with a fresh id and deleting that id gives back the list |
| ReminderApp.SaveKeepsLocale | src/storage.rs:28 | saving reminders never touches the saved locale tag |
| ReminderApp.ReplaceFirst | src/components/reminder_app.rs:101-106 | the length is kept, entries with another id are kept, and the new reminder is in the list exactly when some entry had its id |
| ReminderApp.ToggleFirst | src/components/reminder_app.rs:180-183 | only the completion fields can change, and the list changes exactly when some entry has the id |
| Forms.Without | src/components/forms.rs:98 | `retain` keeps exactly the ids other than the tag's |
| Forms.Toggled | src/components/forms.rs:96-102 | the tag becomes selected exactly when it was not, a newly ticked tag is pushed at the end, and every other tag keeps its state |
| Forms.NewReminder | src/components/forms.rs:126-135 | id "reminder_" and the milliseconds, the form's fields and tags, open, created now |
| Forms.Edited | src/components/forms.rs:276-285 | the form's fields and tags on the original's id, completion and creation time |
| Forms.AddForm.constructor | src/components/forms.rs:16-19 | every field and the tag selection start empty |
| Forms.AddForm.ToggleTag | src/components/forms.rs:95-103 | only the tag selection changes, by `Toggled` |
| Forms.AddForm.Submit | src/components/forms.rs:125-142 | with a title, the new reminder is handed on and every field and the tag selection are cleared; without one, nothing happens |
| Forms.EditForm.constructor | src/components/forms.rs:158-163 | the fields start from the reminder, the due date converted for the input, and the tags are the reminder's |
| Forms.EditForm.ToggleTag | src/components/forms.rs:239-247 | only the tag selection changes, by `Toggled` |
| Forms.EditForm.Submit | src/components/forms.rs:275-291 | with a title, the edited reminder is handed on and the text fields cleared while the tags stay; without one, nothing happens |
| Forms.ToggleKeepsNoDuplicates | src/components/forms.rs:96-102 | toggling keeps a selection free of duplicates |
| Forms.WithoutKeepsNoDuplicates | src/components/forms.rs:98 | removing keeps a selection free of duplicates |
| Forms.WithoutAbsent | src/components/forms.rs:98 | removing an absent id changes nothing |
| Forms.WithoutAppend | src/components/forms.rs:98 | removal works piecewise, so the other ids keep their order |
| Forms.ToggleTwiceRestores | src/components/forms.rs:96-102 | ticking and unticking an unselected tag gives the selection back |
| Forms.NewIdsDistinct | src/components/forms.rs:127-128 | reminders added at different milliseconds get different ids |
| Forms.EditReplacesOriginal | src/components/forms.rs:276-286 | saving an edit replaces the edited reminder at its own place in the list |
| TagManager.TagIndex | src/components/tag_manager.rs:46 | the index found holds the id and no earlier tag has it; `None` exactly when no tag has the id |
| TagManager.Upsert | src/components/tag_manager.rs:44-55 | saving a tag keeps the length when its id exists and adds one otherwise |
| TagManager.RemoveTag | src/components/tag_manager.rs:98-104 | a delete never lengthens the list |
| TagManager.Manager.constructor | src/components/tag_manager.rs:18-21 | the dialog starts on the loaded tags with no form, no edited tag and no pending delete |
| TagManager.Manager.Open | src/components/tag_manager.rs:24-31 | opening reloads the list and resets the form, the edited tag and the pending delete |
| TagManager.Manager.NewTag | src/components/tag_manager.rs:68-71 | "new tag" shows an empty form; the list and the pending delete are unchanged |
| TagManager.Manager.EditTag | src/components/tag_manager.rs:94-97 | "edit" shows the form on that tag; the list is unchanged |
| TagManager.Manager.OnSave | src/components/tag_manager.rs:44-55 | the list becomes the upsert of the tag, that list is what is saved, and the form closes |
| TagManager.Manager.OnCancel | src/components/tag_manager.rs:56-59 | cancelling closes the form and changes no tag |
| TagManager.Manager.ConfirmDelete | src/components/tag_manager.rs:105-107 | "delete" only asks for confirmation of that id |
| TagManager.Manager.CancelDelete | src/components/tag_manager.rs:108-110 | declining clears the pending delete and changes no tag |
| TagManager.Manager.OnDelete | src/components/tag_manager.rs:98-104 | the list loses the id's tags, is saved, and the prompt closes |
| TagManager.TagIndexUnique | src/components/tag_manager.rs:46 | `position` finds the first tag with the id |
| TagManager.UpsertThenFind | src/components/tag_manager.rs:44-55 | after a save the tag is found under its id and every other tag stays where it was |
| TagManager.UpsertIdempotent | src/components/tag_manager.rs:44-55 | saving the same tag twice is saving it once |
| TagManager.UpsertKeepsUniqueIds | src/components/tag_manager.rs:44-55 | saves keep tag ids unique |
| TagManager.RemoveTagExactly | src/components/tag_manager.rs:100 | a delete drops every tag with the id and keeps every other tag as often as before |
| TagManager.RemoveTagAbsent | src/components/tag_manager.rs:100 | deleting an id no tag has changes nothing |
| TagManager.RemoveTagAppend | src/components/tag_manager.rs:100 | `retain` works piecewise, so the survivors keep their order |
| TagManager.CreateThenDelete | src/components/tag_manager.rs:44-55 | creating a tag with a new id and deleting it gives back the list |
| TagForm.BuildTag | crates/components/src/tag_form.rs:101-111 | a tag is produced exactly when the name is not empty; it keeps the edited tag's id or gets "tag_" and the milliseconds |
| TagForm.Form.constructor | crates/components/src/tag_form.rs:34-36 | a new form starts empty with the first preset colour; an edit form starts from the tag |
| TagForm.Form.PickColor | crates/components/src/tag_form.rs:80 | a preset button sets the colour to that preset and leaves the name |
| TagForm.Form.PresetSelected | crates/components/src/tag_form.rs:78 | a preset is drawn selected exactly when it is the current colour |
| TagForm.Form.Submit | crates/components/src/tag_form.rs:102-113 | the save button hands over the tag built from the form's fields |
| TagForm.EditKeepsId | crates/components/src/tag_form.rs:107 | an edited tag keeps its id, so the manager replaces it |
| TagForm.NewTagIdsDistinct | crates/components/src/tag_form.rs:107 | new tags made at different milliseconds get different ids |
| TagForm.DefaultColor | crates/components/src/tag_form.rs:13-14 | a new tag saved without picking a colour is "#FA8A59" |
| TagForm.AtMostOnePresetSelected | crates/components/src/tag_form.rs:13-26 | the presets differ pairwise, so at most one is marked selected |
| FolderView.WithTag | crates/components/src/app_views/folder_view.rs:18-22 | a tag's group holds exactly the reminders carrying its id |
| FolderView.TagGroups | crates/components/src/app_views/folder_view.rs:15-26 | a group is listed exactly for a tag with at least one reminder, with exactly those reminders |
| FolderView.Untagged | crates/components/src/app_views/folder_view.rs:29-33 | the untagged group holds exactly the reminders with an empty tag list |
| FolderView.UntaggedOrOrphaned | crates/components/src/app_views/folder_view.rs:29-33 | the untagged group as intended holds exactly the reminders none of whose ids names a tag |
| FolderView.KnownTagShown | crates/components/src/app_views/folder_view.rs:15-26 | a reminder with a known tag appears in that tag's group |
| FolderView.OrphanedReminderHidden | crates/components/src/app_views/folder_view.rs:15-33 | as written, a reminder whose tag ids all name deleted tags is shown in no group |
| FolderView.OrphanExample | crates/components/src/app_views/folder_view.rs:15-33 | the smallest such case: one reminder tagged "tag_1" and no tags |
| FolderView.EveryReminderShown | crates/components/src/app_views/folder_view.rs:15-33 | with orphans counted as untagged, every reminder is shown |
| FolderView.NoOrphansSameUntagged | crates/components/src/app_views/folder_view.rs:29-33 | without orphaned reminders the intended group equals the written one |
| FolderView.WithTagExactly | crates/components/src/app_views/folder_view.rs:18-22 | a tag's group holds each reminder carrying the id as often as the list does, and no other |
| FolderView.WithTagAppend | crates/components/src/app_views/folder_view.rs:18-22 | `filter` works piecewise, so a group keeps the list's order |
| FolderView.TagGroupsExactly | crates/components/src/app_views/folder_view.rs:15-26 | each tag with reminders has its group once per occurrence of the tag, and no other group is listed |
| FolderView.TagGroupsAppend | crates/components/src/app_views/folder_view.rs:15-26 | groups follow the order of the tags |
| FolderView.UntaggedExactly | crates/components/src/app_views/folder_view.rs:29-33 | the untagged group holds each reminder with no tag ids as often as the list does, and no other |
| FolderView.UntaggedAppend | crates/components/src/app_views/folder_view.rs:29-33 | `filter` works piecewise, so the untagged group keeps the list's order |
| CalendarView.PrevMonth | src/components/app_views/calendar_view.rs:54-66 | the month before is a valid month one step earlier on the month line |
| CalendarView.NextMonth | src/components/app_views/calendar_view.rs:68-80 | the month after is a valid month one step later on the month line |
| CalendarView.CalendarDays | src/components/app_views/calendar_view.rs:94-110 | the grid has `first_day` blanks, then each day with its key and its number of reminders |
| CalendarView.ClickDay | src/components/app_views/calendar_view.rs:172-178 | clicking selects the day unless it was selected, which clears the selection |
| CalendarView.SelectedReminders | src/components/app_views/calendar_view.rs:47-51 | the selected day's reminders, or none without a selection or a group |
| CalendarView.DayClass | src/components/app_views/calendar_view.rs:167-171 | a cell is "selected" exactly when it is the selection, and "today" exactly when it is today and not selected |
| CalendarView.Unscheduled | src/components/app_views/calendar_view.rs:34-38 | the unscheduled list holds exactly the listed reminders without a due date |
| CalendarView.Calendar.constructor | src/components/app_views/calendar_view.rs:41-44 | the view opens on the current month with nothing selected |
| CalendarView.Calendar.HandlePrevMonth | src/components/app_views/calendar_view.rs:54-66 | "←" moves to the month before and clears the selection |
| CalendarView.Calendar.HandleNextMonth | src/components/app_views/calendar_view.rs:68-80 | "→" moves to the month after and clears the selection |
| CalendarView.Calendar.HandleToday | src/components/app_views/calendar_view.rs:82-87 | "today" returns to the current month and clears the selection |
| CalendarView.Calendar.OnDayClick | src/components/app_views/calendar_view.rs:172-178 | a day click toggles the selection and leaves the month |
| CalendarView.PrevNextInverse | src/components/app_views/calendar_view.rs:54-80 | "←" and "→" undo each other, across year ends too |
| CalendarView.DayKeyRoundTrip | src/components/app_views/calendar_view.rs:104 | a day key of a year below 10000 has ten characters and reads back as its year, month and day |
| CalendarView.DayKeyInjective | src/components/app_views/calendar_view.rs:104-105 | different days have different keys, so no count mixes two days |
| CalendarView.ClickTwiceClears | src/components/app_views/calendar_view.rs:172-178 | clicking a day twice leaves nothing selected |
| CalendarView.ParseDayKey | src/components/app_views/calendar_view.rs:104 | reading a key gives a four-digit year and a two-digit month |
| CalendarView.CountOn | src/components/app_views/calendar_view.rs:105 | a day's count is zero exactly when no reminder is grouped under its key |
| CalendarView.UnscheduledExactly | src/components/app_views/calendar_view.rs:34-38 | the unscheduled list holds each reminder without a due date as often as the list does, and no other |
| CalendarView.UnscheduledAppend | src/components/app_views/calendar_view.rs:34-38 | `filter` works piecewise, so the unscheduled list keeps the list's order |
| Media.AfterEnsure | crates/components/src/media.rs:22-34 | `ensure` leaves a key with any state alone and marks a new key loading; other keys are untouched |
| Media.CacheManager.constructor | crates/components/src/media.rs:62-67 | the provider starts with cache "media-cache-v1" and no states |
| Media.CacheManager.State | crates/components/src/media.rs:18-20 | `state` is the key's entry, and `None` exactly for unknown keys |
| Media.CacheManager.Ensure | crates/components/src/media.rs:22-37 | a caching future is spawned exactly for an unknown key, and the states become `AfterEnsure` |
| Media.CacheManager.Complete | crates/components/src/media.rs:37-57 | the spawned future records ready after a successful cache or outside WASM, and an error otherwise |
| Media.EnsureIdempotent | crates/components/src/media.rs:24-29 | a second `ensure` of a key changes nothing |
| Media.ErrorIsFinal | crates/components/src/media.rs:26 | a failed key is never retried |
| Media.NativeAlwaysReady | crates/components/src/media.rs:51-56 | outside WASM every completed key is ready |
| Media.Outcome | crates/components/src/media.rs:37-57 | a finished load is never Loading, and is Error exactly in WASM when the cache failed |
| DomId.WrappingInc | crates/ui/src/utils.rs:18 | `wrapping_add(1)` is the successor modulo 2^32 |
| DomId.CounterAfter | crates/ui/src/utils.rs:8-18 | after k ids the counter has moved k steps modulo 2^32 |
| DomId.Counter.constructor | crates/ui/src/utils.rs:8 | the counter starts at 0 |
| DomId.Counter.NextDomId | crates/ui/src/utils.rs:15-20 | the id is the prefix and the old counter, and the counter advances by one with wrap-around |
| DomId.FirstIdIsZero | crates/ui/src/utils.rs:8-19 | a fresh counter's first id is the prefix and "0" |
| DomId.IdExtendsPrefix | crates/ui/src/utils.rs:19 | every id starts with its prefix and adds at least one digit |
| DomId.IdOfInjective | crates/ui/src/utils.rs:19 | different counter values give different ids under one prefix |
| DomId.IdsDistinctWithinPeriod | crates/ui/src/utils.rs:15-20 | any 2^32 consecutive ids under one prefix are distinct |
| DomId.WrapsAfterPeriod | crates/ui/src/utils.rs:18 | after 2^32 ids the counter is back at its start, so ids repeat |
| DomId.IdOf | crates/ui/src/utils.rs:15-20 | the id is the prefix followed by digits that read back as the counter |
| Strings.Split | crates/web/src/router.rs:131 | `split` gives at least one piece, and no piece contains the separator |
| Strings.TrimStart | crates/shared/src/router.rs:103 | `trim_start_matches` keeps a suffix not starting with the character and drops only that character |
| Strings.SplitOnce | crates/web/src/router.rs:136-138 | no split exactly when the separator is absent; otherwise the halves around its first occurrence rebuild the string |
| Strings.Lower | src/utils.rs:99-104 | `to_lowercase` on ASCII keeps the length, turns each capital into its lower-case letter, leaves no capitals and keeps every other character |
| Strings.LowerIdempotent | src/utils.rs:99-104 | lower-casing twice is lower-casing once |
| Strings.LowerIgnoresCase | src/utils.rs:99-104 | strings that differ only in the case of ASCII letters lower-case alike |
| Strings.Decimal | crates/ui/src/utils.rs:19 | a number is written as a non-empty run of decimal digits |
| Strings.PadZero | src/components/app_views/calendar_view.rs:104 | `{:02}` pads to the width with leading zeros and keeps the digits as a suffix |
| Browser.Resolve | crates/web/src/router.rs:74-79 | a '#' target only replaces the hash, and a well-formed address stays well-formed |
| Browser.ResolveParts | crates/web/src/router.rs:74-79 | a well-formed absolute target leads exactly to its own path, search and hash |

## Left out

- Rendering: markup, CSS classes other than those the models name, the landing sections, legal pages, modals, toasts and their auto-close timers, and every `crates/ui` component.
- `src/app.rs`: head and meta-tag injection through `web_sys`.
- The storage back-ends (`src/storage_platform.rs`, `crates/web/src/storage.rs`, `crates/mobile/src/storage.rs`) and the `reminders_v2` / `tags_v1` keys: no migration code exists to model.
- The server's `main`, router, SSR rendering and asset directory scans, the service worker and `src/services/media_cache.rs`: asynchronous I/O.
- The floating-point scroll-spy of the landing page.
- `src/i18n_new.rs`: it is in no module list and uses an API Dioxus removed.
- chrono: RFC 3339 and `%Y-%m-%dT%H:%M` parsing, the local time zone and DST are the fields of the `Clock` datatype; instants are integers.
- `parse_date_for_sort` reads the clock once per comparison; here `now` is one fixed value for the whole sort.
- serde_json: the reminder codec is a pair of functions (`Storage.Codec`), and a JSON document is the datatype `Str | Obj | Other`; a round trip of the codec is a precondition where it is needed.
- `Strings.Lower` folds only ASCII letters; Rust's `to_lowercase` folds all of Unicode.
- `Server.RouteSeo`: the text of each page is copied as written; that the twelve (title, description) pairs differ from one another is not stated.
- `Navigation.PushedSectionReadsBack`: not stated at the root of a GitHub Pages site when a section is already in the search; there the pushed address is hash-only, so that section outranks it (see "## Findings").
- `Translations.LoadTranslations`: the table has no document under "zh-CN"; `Locale::from_str` maps that tag to Simplified Chinese before any lookup.
- `I18n.PrefsFile`: `get_app_data_dir` is a constant path; whether creating the directory and writing the file succeed are the fields `dirCreatable` and `writable`.
- `CalendarView.DayKey`: the year is a natural number; the `i32` year of the source is not bounded, and the key round trip is stated for years below 10000.
- `TagManager`: `load_tags` and `save_tags` are called but not defined anywhere in the source; the loaded list is a parameter and `saved` records what would be written.
- `TagManager.Manager.OnDelete`: deleting a tag leaves every reminder's `tag_ids` as they were; the tag manager holds no reminders, and `FolderView` shows what that does.
- `CalendarView`: `get_current_date`, `get_days_in_month`, `get_first_day_of_week`, `format_month_year` and `group_reminders_by_date` are imported but not defined in the source; their results are parameters. The view is also missing from `app_views/mod.rs`.
- `Forms`: `now_rfc3339`, `now_timestamp_millis` and `to_datetime_local_value` are imported but not defined in the crate; they are parameters.
- `Media.CacheManager.Complete`: the spawned future and the Cache API call are not modelled; the completion is its own method, called with the outcome of the spawned future.
- Browser I/O: every read of `window`, `location`, `history` and `localStorage` is a parameter, the `Env` datatype, or the `Navigation.Tab` and `KeyValue.Store` classes.
- The single-crate app's `Locale` in `src/i18n.rs` is declared identically to the shared one; `Locales` is that one definition.
- The comment in `MediaCacheManager::ensure` speaks of Loading and Ready only; the code also skips keys in Error, and the model follows the code.
- The single-crate `calculate_statistics` and the card's overdue test compare against `Local::now` and `Utc::now`, the same instant; both read the one `now` of the clock.

## Findings

| source | as written | input that shows it | evidently intended | confidence | as-written member | corrected member |
|---|---|---|---|---|---|---|
| crates/web/src/router.rs:197-214 | `replace_landing_section_url` skips the write only when pathname and search equal the desired address, but on GitHub Pages the desired address holds the hash route, which pathname and search never contain | host "u.github.io", address "/z/" with no search or hash: every call, including the one straight after a call, writes again | skip the write when the address already shows the desired one, so a second identical call changes nothing | medium, not executed | Navigation.AsWrittenNeverSettlesOnGithubPages | Navigation.ReplaceSettles |
| crates/web/src/router.rs:14-19 | `get_initial_route` strips the base path from the hash route as well as from the pathname | repository "zh" on "u.github.io" (base path "/zh"), after `update_url(Landing, "zh-Hans")` writes "#/zh-Hans/": "/zh" is stripped, "-Hans/" is left, and the reload starts on the English landing page | a hash route written by `to_hash`, which never holds the base path, is read without stripping it, so a reload restores the route | low, not executed | Navigation.HashRouteLostUnderPrefixBase | Navigation.ReloadRestoresRoute |
| src/router.rs:47-75 | `get_initial_route` reads the pathname whenever it can, while `update_url` writes only the hash | a page at pathname "/" after `update_url(App, l)` sets the hash to `to_hash(App, l)`: the next start-up reads "/" and opens the English landing page | the route written to the hash is read first, so a reload restores it | medium, not executed | LegacyRouter.WrittenRouteLostOnReload | LegacyRouter.ReloadRestoresRoute |
| crates/components/src/app_views/folder_view.rs:15-33 | only reminders with an empty tag list are untagged, and the tag manager deletes tags without touching reminders | one reminder with tag ids ["tag_1"] and no tags: it is in no group and not untagged, so the view does not show it | reminders none of whose ids names an existing tag are shown as untagged, so every reminder is shown | low, not executed | FolderView.OrphanedReminderHidden | FolderView.EveryReminderShown |
| crates/web/src/router.rs:91-158 | at the root of a GitHub Pages site the base path is empty, so the pushed section address is a bare fragment; following it keeps the old search, and `get_landing_section_from_url` reads the search before the hash | host "u.github.io" at "/?section=faq": `push_landing_section_url("en", Some("pricing"))` leads to "/?section=faq#/en/?section=pricing", which reads back "faq" | the section address is anchored at "/" as under a repository path ("/#/en/?section=pricing"), so pushing it replaces the search and the pushed section reads back | low, not executed | Navigation.StaleQueryOutranksPush | Navigation.PushedSectionReadsBackIntended |
