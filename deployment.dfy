/**
 * Deployment detection: whether the app is served from GitHub Pages, the
 * repository sub-directory it is served under, and the origin used for
 * absolute URLs. Every answer is a function of the window the code can see;
 * builds for other targets see no window at all.
 */
module Deployment {
  import opened Wrappers
  import opened Strings
  import opened Browser

  /** The fallback origin used on GitHub Pages when the real one cannot be read. */
  const GithubPagesOrigin: string := "https://wchklaus97.github.io"

  /** The build target and, in the browser, the window (`None` when `web_sys::window()` gives none). */
  datatype Env = Env(wasm: bool, window: Option<Page>)

  /** The environment the web crate runs in: always the browser build. */
  function Web(window: Option<Page>): Env {
    Env(true, window)
  }

  /** The hostname can be read and contains "github.io". */
  predicate OnGithubHost(window: Option<Page>) {
    window.Some? && window.value.hostname.Some? && Contains(window.value.hostname.value, "github.io")
  }

  /** `is_github_pages`. */
  predicate IsGithubPages(e: Env)
    ensures IsGithubPages(e) ==> e.wasm && OnGithubHost(e.window)
    ensures IsGithubPages(e) ==> e.window.value.hostname.value !in {"localhost", "127.0.0.1"}
  {
    if e.wasm && OnGithubHost(e.window) then
      GithubHostNotLocal(e.window.value.hostname.value);
      true
    else false
  }

  /** A hostname containing "github.io" is neither of the local development hosts. */
  lemma GithubHostNotLocal(host: string)
    requires Contains(host, "github.io")
    ensures host !in {"localhost", "127.0.0.1"}
  {
    if host == "localhost" || host == "127.0.0.1" {
      assert !StartsWith(host, "github.io") by {
        if StartsWith(host, "github.io") {
          StartsWithHead(host, "github.io");
          assert false;
        }
      }
      ContainsLength(host[1..], "github.io");
      assert false;
    }
  }

  /** The first non-empty segment of a pathname, as `get_base_path` looks for it. */
  function RepoSegment(pathname: string): (r: Option<string>)
    ensures r.Some? ==> r.value != [] && '/' !in r.value
  {
    FirstNonEmpty(Split(TrimStart(pathname, '/'), '/'))
  }

  /** `get_base_path`. */
  function BasePath(e: Env): (r: string)
    ensures r != [] ==> IsGithubPages(e)
    ensures r == [] || (|r| >= 2 && r[0] == '/' && '/' !in r[1..])
  {
    if IsGithubPages(e) && e.window.value.pathname.Some? then
      match RepoSegment(e.window.value.pathname.value)
      case Some(first) => "/" + first
      case None => ""
    else ""
  }

  /** `get_base_url`. */
  function BaseUrl(e: Env): (url: string)
    ensures !e.wasm ==> url == []
    ensures url == [] || url == GithubPagesOrigin || (e.window.Some? && e.window.value.origin == Some(url))
  {
    if e.wasm && e.window.Some? && e.window.value.origin.Some? then e.window.value.origin.value
    else if IsGithubPages(e) then GithubPagesOrigin
    else ""
  }

  /** `get_full_base_url`. */
  function FullBaseUrl(e: Env): (url: string)
    ensures !IsGithubPages(e) ==> url == BaseUrl(e)
    ensures IsGithubPages(e) && e.window.value.pathname.Some? && RepoSegment(e.window.value.pathname.value).Some? ==>
      url == BaseUrl(e) + "/" + RepoSegment(e.window.value.pathname.value).value
    ensures BasePath(e) == [] ==> url == BaseUrl(e)
  {
    var base := BaseUrl(e);
    var path := BasePath(e);
    if path == [] then base else base + path
  }

  /** `is_production`. */
  predicate IsProduction(e: Env)
    ensures IsProduction(e) ==> e.wasm && e.window.Some? && e.window.value.hostname.Some?
    ensures e.window.Some? && e.window.value.hostname in {Some("localhost"), Some("127.0.0.1")} ==> !IsProduction(e)
  {
    e.wasm && e.window.Some? && e.window.value.hostname.Some?
    && e.window.value.hostname.value != "localhost" && e.window.value.hostname.value != "127.0.0.1"
  }

  // ---------------------------------------------------------------------------
  // Properties

  /** Off the browser build nothing is detected. */
  lemma OffWasm(e: Env)
    requires !e.wasm
    ensures !IsGithubPages(e) && BasePath(e) == [] && BaseUrl(e) == [] && FullBaseUrl(e) == []
    ensures !IsProduction(e)
  {
  }

  /** In the web crate, GitHub Pages is detected exactly when the hostname contains "github.io". */
  lemma WebGithubPagesIffHost(window: Option<Page>, host: string)
    requires window.Some? && window.value.hostname == Some(host)
    ensures IsGithubPages(Web(window)) <==> Contains(host, "github.io")
  {
  }

  lemma {:induction false} RepoSegmentOf(repo: string, rest: string)
    requires repo != [] && '/' !in repo && (rest == [] || rest[0] == '/')
    ensures RepoSegment("/" + repo + rest) == Some(repo)
  {
    var p := "/" + repo + rest;
    assert repo[0] != '/' by { assert repo[0] in repo; }
    assert TrimStart(p, '/') == repo + rest by { assert p[1..] == repo + rest; }
    var parts := Split(repo + rest, '/');
    if rest == [] {
      assert repo + rest == repo;
      SplitNoSeparator(repo, '/');
    } else {
      assert repo + rest == repo + ['/'] + rest[1..];
      SplitAtSeparator(repo, '/', rest[1..]);
    }
    assert parts[0] == repo;
    assert FirstNonEmpty(parts) == Some(repo);
  }

  /** On GitHub Pages the base path is "/" and the repository segment of the pathname, whatever follows it. */
  lemma BasePathIsRepo(e: Env, repo: string, rest: string)
    requires IsGithubPages(e) && e.window.value.pathname == Some("/" + repo + rest)
    requires repo != [] && '/' !in repo && (rest == [] || rest[0] == '/')
    ensures BasePath(e) == "/" + repo
  {
    RepoSegmentOf(repo, rest);
  }

  /** The base path is made of '/' and characters of the pathname. */
  lemma BasePathChars(e: Env, x: char)
    requires x in BasePath(e)
    ensures x == '/' || (e.window.Some? && e.window.value.pathname.Some? && x in e.window.value.pathname.value)
  {
    var base := BasePath(e);
    if x != '/' {
      var p := e.window.value.pathname.value;
      var t := TrimStart(p, '/');
      var parts := Split(t, '/');
      var first := FirstNonEmpty(parts).value;
      assert base == "/" + first;
      assert x in first;
      var i :| 0 <= i < |parts| && parts[i] == first;
      SplitPieceChars(t, '/', i, x);
      var k :| 0 <= k < |t| && t[k] == x;
      assert p[|p| - |t| + k] == x;
    }
  }

  /** A pathname made only of '/' gives no base path, even on GitHub Pages. */
  lemma BasePathWithoutSegment(e: Env)
    requires e.window.Some? && e.window.value.pathname.Some?
    requires forall i :: 0 <= i < |e.window.value.pathname.value| ==> e.window.value.pathname.value[i] == '/'
    ensures BasePath(e) == []
  {
    var p := e.window.value.pathname.value;
    assert TrimStart(p, '/') == [];
    assert Split([], '/') == [[]];
  }

  /** Off GitHub Pages there is never a base path. */
  lemma BasePathOnlyOnGithubPages(e: Env)
    requires !IsGithubPages(e)
    ensures BasePath(e) == [] && FullBaseUrl(e) == BaseUrl(e)
  {
  }

  /** The full base URL is the base URL followed by the base path. */
  lemma FullBaseUrlJoins(e: Env)
    ensures FullBaseUrl(e) == BaseUrl(e) + BasePath(e)
    ensures BasePath(e) == [] ==> FullBaseUrl(e) == BaseUrl(e)
  {
  }

  /**
   * The origin is used when it can be read; otherwise the GitHub Pages origin
   * is used exactly on GitHub Pages, and "" elsewhere.
   */
  lemma BaseUrlFallback(e: Env)
    requires e.wasm
    ensures e.window.Some? && e.window.value.origin.Some? ==> BaseUrl(e) == e.window.value.origin.value
    ensures !(e.window.Some? && e.window.value.origin.Some?) ==>
      (BaseUrl(e) == GithubPagesOrigin <==> IsGithubPages(e)) && (BaseUrl(e) == [] <==> !IsGithubPages(e))
  {
  }

  /** Local development hosts are never production. */
  lemma LocalHostsAreNotProduction(e: Env)
    requires e.window.Some? && e.window.value.hostname in {Some("localhost"), Some("127.0.0.1")}
    ensures !IsProduction(e)
  {
  }

  /** A GitHub Pages deployment counts as production. */
  lemma GithubPagesIsProduction(e: Env)
    requires IsGithubPages(e)
    ensures IsProduction(e)
  {
  }
}
