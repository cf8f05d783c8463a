/**
 * The six-field `ParseResult` of `urllib.parse`, its `geturl`, and the two
 * URL helpers of the crawler: fragment removal and the origin test.
 */
module Urls {
  import opened Strings

  /** `ParseResult(scheme, netloc, path, params, query, fragment)` */
  datatype Url = Url(
    scheme: string,
    netloc: string,
    path: string,
    params: string,
    query: string,
    fragment: string)

  /** The path with its `;params` attached. */
  function PathWithParams(u: Url): string {
    if u.params != "" then u.path + ";" + u.params else u.path
  }

  /** The path as placed after a network location: rooted with `/` unless empty. */
  function RootedPath(u: Url): string {
    var p := PathWithParams(u);
    if p != "" && p[0] != '/' then "/" + p else p
  }

  /** Everything after the path: `?query` and `#fragment` when present. */
  function QueryPart(u: Url): string {
    if u.query != "" then "?" + u.query else ""
  }

  function FragmentPart(u: Url): string {
    if u.fragment != "" then "#" + u.fragment else ""
  }

  /** `geturl()`, i.e. `urlunparse`, for records whose netloc or path carries the location. */
  function GetUrl(u: Url): (r: string)
    ensures u.scheme != "" ==> StartsWith(r, u.scheme + ":")
    ensures EndsWith(r, QueryPart(u) + FragmentPart(u))
  {
    var head := if u.scheme != "" then u.scheme + ":" else "";
    var location := if u.netloc != "" then "//" + u.netloc + RootedPath(u) else PathWithParams(u);
    var tail := QueryPart(u) + FragmentPart(u);
    var r := head + location + QueryPart(u) + FragmentPart(u);
    assert r == head + location + tail;
    assert r[|r| - |tail|..] == tail;
    assert u.scheme != "" ==> r[..|head|] == head;
    r
  }

  /** `remove_fragment`: the same record with an empty fragment. */
  function RemoveFragment(u: Url): (r: Url)
    ensures r.fragment == ""
    ensures r.scheme == u.scheme && r.netloc == u.netloc && r.path == u.path
    ensures r.params == u.params && r.query == u.query
  {
    u.(fragment := "")
  }

  /** Only the `#fragment` suffix disappears from the URL string. */
  lemma RemoveFragmentSuffix(u: Url)
    ensures GetUrl(u) == GetUrl(RemoveFragment(u)) + FragmentPart(u)
  {
    var r := RemoveFragment(u);
    assert FragmentPart(r) == "";
    assert QueryPart(r) == QueryPart(u) && RootedPath(r) == RootedPath(u) && PathWithParams(r) == PathWithParams(u);
  }

  /**
   * `is_netloc_allowed`, the closure over the seed's netloc. The second
   * disjunct compares a string with a strictly longer one, so only exact
   * equality is accepted; in particular the `www.` variant of the origin is
   * refused.
   */
  function IsNetlocAllowed(original: string, netloc: string): (r: bool)
    ensures r <==> netloc == original
  {
    original == netloc || "www." + netloc == netloc
  }

  /** Removing the fragment twice is removing it once. */
  lemma RemoveFragmentIdempotent(u: Url)
    ensures RemoveFragment(RemoveFragment(u)) == RemoveFragment(u)
  {
  }

  /** The `www.` variant of the origin is refused. */
  lemma WwwVariantRefused(original: string)
    ensures !IsNetlocAllowed(original, "www." + original)
  {
  }
}
