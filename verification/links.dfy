/**
 * `extract_all_link` with the HTML parser and `urljoin` abstracted: the
 * anchors' `href` values arrive in the response, and `join` stands for
 * `urlparse(urljoin(base, href))`.
 */
module Links {
  import opened Wrappers
  import opened Strings
  import opened Urls
  import opened Http

  /** `Links` is the returned collection; `NoContentType` is the `KeyError` of `r.headers['content-type']`. */
  datatype LinkResult = Links(urls: set<string>) | NoContentType

  /** `if href:` skips a missing and an empty attribute. */
  predicate Usable(href: Option<string>) {
    href.Some? && href.value != ""
  }

  /** The anchor `href` resolves to a URL on the origin. */
  predicate Kept(base: Url, href: Option<string>, origin: string, join: (Url, string) -> Url) {
    Usable(href) && IsNetlocAllowed(origin, join(base, href.value).netloc)
  }

  /** The anchor `href` is kept and normalises to `u`. */
  predicate Yields(base: Url, href: Option<string>, origin: string, join: (Url, string) -> Url, u: Url) {
    Kept(base, href, origin, join) && u == RemoveFragment(join(base, href.value))
  }

  /**
   * The records of the kept links, fragment removed, gathered anchor by
   * anchor as the source's loop does.
   */
  function LinkTargets(base: Url, hrefs: seq<Option<string>>, origin: string, join: (Url, string) -> Url): (r: set<Url>)
    ensures forall u | u in r :: u.fragment == "" && u.netloc == origin
    decreases |hrefs|
  {
    if hrefs == [] then {}
    else
      var n := |hrefs| - 1;
      var before := LinkTargets(base, hrefs[..n], origin, join);
      if Kept(base, hrefs[n], origin, join) then before + {RemoveFragment(join(base, hrefs[n].value))}
      else before
  }

  /** Every gathered record comes from some anchor. */
  lemma {:induction false} LinkTargetSource(base: Url, hrefs: seq<Option<string>>, origin: string, join: (Url, string) -> Url, u: Url)
    returns (i: nat)
    requires u in LinkTargets(base, hrefs, origin, join)
    ensures i < |hrefs| && Yields(base, hrefs[i], origin, join, u)
    decreases |hrefs|
  {
    var n := |hrefs| - 1;
    var pre := hrefs[..n];
    if u in LinkTargets(base, pre, origin, join) {
      i := LinkTargetSource(base, pre, origin, join, u);
      assert pre[i] == hrefs[i];
    } else {
      i := n;
    }
  }

  /** Every kept anchor contributes its record. */
  lemma {:induction false} LinkTargetFound(base: Url, hrefs: seq<Option<string>>, origin: string, join: (Url, string) -> Url, i: nat, u: Url)
    requires i < |hrefs| && Yields(base, hrefs[i], origin, join, u)
    ensures u in LinkTargets(base, hrefs, origin, join)
    decreases |hrefs|
  {
    var n := |hrefs| - 1;
    var pre := hrefs[..n];
    if i < n {
      assert pre[i] == hrefs[i];
      LinkTargetFound(base, pre, origin, join, i, u);
    }
  }

  /** The same set, stated anchor-wise rather than as a loop. */
  lemma LinkTargetsExactly(base: Url, hrefs: seq<Option<string>>, origin: string, join: (Url, string) -> Url)
    ensures forall u :: u in LinkTargets(base, hrefs, origin, join) <==>
      exists i :: 0 <= i < |hrefs| && Yields(base, hrefs[i], origin, join, u)
  {
    forall u
      ensures u in LinkTargets(base, hrefs, origin, join) <==>
        exists i :: 0 <= i < |hrefs| && Yields(base, hrefs[i], origin, join, u)
    {
      if u in LinkTargets(base, hrefs, origin, join) {
        var i := LinkTargetSource(base, hrefs, origin, join, u);
      }
      if exists i :: 0 <= i < |hrefs| && Yields(base, hrefs[i], origin, join, u) {
        var i :| 0 <= i < |hrefs| && Yields(base, hrefs[i], origin, join, u);
        LinkTargetFound(base, hrefs, origin, join, i, u);
      }
    }
  }

  function ExtractAllLink(page: Response, origin: string, join: (Url, string) -> Url): (r: LinkResult)
    ensures r.NoContentType? <==> page.contentType.None?
    ensures page.contentType.Some? && !Contains(page.contentType.value, "text/html") ==> r == Links({})
    ensures r.Links? ==> forall l | l in r.urls ::
      exists u: Url :: u.fragment == "" && u.netloc == origin && GetUrl(u) == l
  {
    match page.contentType
    case None => NoContentType
    case Some(contentType) =>
      if !Contains(contentType, "text/html") then Links({})
      else
        var targets := LinkTargets(page.url, page.hrefs, origin, join);
        Links(set u | u in targets :: GetUrl(u))
  }

  /** A link is returned exactly when some usable anchor resolves onto the origin and normalises to it. */
  lemma LinkReturned(page: Response, origin: string, join: (Url, string) -> Url, l: string)
    requires page.contentType.Some? && Contains(page.contentType.value, "text/html")
    ensures l in ExtractAllLink(page, origin, join).urls <==>
      exists i :: 0 <= i < |page.hrefs| && Usable(page.hrefs[i])
        && join(page.url, page.hrefs[i].value).netloc == origin
        && l == GetUrl(RemoveFragment(join(page.url, page.hrefs[i].value)))
  {
    LinkTargetsExactly(page.url, page.hrefs, origin, join);
  }
}
