/**
 * What the web code reads from and writes to the browser: the parts of
 * `window.location`, the `remind-me-locale` entry of `localStorage`, and the
 * history stack. Every read goes through a `Result` in the Rust bindings, so a
 * read that can fail is an `Option` here.
 */
module Browser {
  import opened Wrappers
  import opened Strings

  /** The three parts of the address the routing code looks at. */
  datatype Url = Url(pathname: string, search: string, hash: string)

  /**
   * One look at the window: each location read, and the stored locale
   * (`None` when `localStorage` is unavailable, `Some(None)` when the key is absent).
   */
  datatype Page = Page(
    hostname: Option<string>,
    origin: Option<string>,
    pathname: Option<string>,
    search: Option<string>,
    hash: Option<string>,
    storedLocale: Option<Option<string>>)

  /** A pathname never holds '#' or '?'; a non-empty search starts with '?' and a non-empty hash with '#'. */
  predicate WellFormed(u: Url) {
    '#' !in u.pathname && '?' !in u.pathname && '#' !in u.search
    && (u.search == [] || u.search[0] == '?')
    && (u.hash == [] || u.hash[0] == '#')
  }

  /** The address a relative URL of the forms the app writes leads to, as `history.pushState` resolves it. */
  function Resolve(current: Url, target: string): (r: Url)
    ensures target != [] && target[0] == '#' ==> r == current.(hash := target)
    ensures WellFormed(current) ==> WellFormed(r)
  {
    var (beforeHash, hash) := Cut(target, '#');
    var (path, search) := Cut(beforeHash, '?');
    if target != [] && target[0] == '#' then current.(hash := target)
    else if target != [] && target[0] == '?' then Url(current.pathname, search, hash)
    else Url(path, search, hash)
  }

  /** A target written as a well-formed absolute address leads exactly there, wherever the browser was. */
  lemma ResolveParts(current: Url, path: string, search: string, hash: string)
    requires WellFormed(Url(path, search, hash)) && path != [] && path[0] == '/'
    ensures Resolve(current, path + search + hash) == Url(path, search, hash)
  {
    assert '#' !in path + search;
    CutAtFirst(path + search, hash, '#');
    CutAtFirst(path, search, '?');
  }

  /** A path free of '#' and '?' leads to that path with no search and no hash. */
  lemma ResolvePath(current: Url, path: string)
    requires path != [] && path[0] == '/' && '#' !in path && '?' !in path
    ensures Resolve(current, path) == Url(path, [], [])
  {
    ResolveParts(current, path, [], []);
    assert path + [] + [] == path;
  }

  /** Going to the same target a second time stays where the first move led. */
  lemma ResolveIdempotent(current: Url, target: string)
    ensures Resolve(Resolve(current, target), target) == Resolve(current, target)
  {
  }
}
