/**
 * `destination_path`: the relative file a fetched page is mirrored to, or
 * the reason it is not mirrored.
 */
module PathMapper {
  import opened Wrappers
  import opened Strings
  import opened Filenames
  import opened Urls
  import opened Http

  datatype Reason =
    | DomainNotAllowed(netloc: string)
    | StatusNotOk(status: int)
    | ContentTypeNotAllowed(contentType: string)

  /**
   * `Dest` carries the path; `Rejected` is the source's `None`;
   * `NoContentType` is the `KeyError` raised by `r.headers['content-type']`.
   */
  datatype Mapped = Dest(path: string) | Rejected(reason: Reason) | NoContentType

  /** The prefixes removed from the URL, tried in this order. */
  const Schemes: seq<string> := ["//", "http://", "https://"]

  /** The extensions `.html`, `.txt`, `.json`, all made of filename characters. */
  predicate IsExtension(ext: string) {
    ext == ".html" || ext == ".txt" || ext == ".json"
  }

  /**
   * The file extension for a content type, by substring test in the order
   * `text/html`, `text/plain`, `application/json`; `None` when none occurs.
   */
  function ContentExtension(contentType: string): (r: Option<string>)
    ensures r.None? <==>
      !Contains(contentType, "text/html") && !Contains(contentType, "text/plain")
      && !Contains(contentType, "application/json")
    ensures r.Some? ==> IsExtension(r.value) && AllFilenameChars(r.value)
    ensures r == Some(".html") <==> Contains(contentType, "text/html")
    ensures r == Some(".txt") <==> !Contains(contentType, "text/html") && Contains(contentType, "text/plain")
    ensures r == Some(".json") <==>
      && !Contains(contentType, "text/html") && !Contains(contentType, "text/plain")
      && Contains(contentType, "application/json")
  {
    if Contains(contentType, "text/html") then Some(".html")
    else if Contains(contentType, "text/plain") then Some(".txt")
    else if Contains(contentType, "application/json") then Some(".json")
    else None
  }

  /** One round of the scheme loop: strip `scheme` if the URL starts with it. */
  function StripScheme(s: string, scheme: string): (r: string)
    ensures StartsWith(s, scheme) ==> r == s[|scheme|..]
    ensures !StartsWith(s, scheme) ==> r == s
  {
    if StartsWith(s, scheme) then ReplaceFirst(s, scheme, "") else s
  }

  /** The scheme loop over `schemes`, each round seeing the previous round's output. */
  function StripSchemes(s: string, schemes: seq<string>): (r: string)
    ensures EndsWith(s, r)
    decreases |schemes|
  {
    if schemes == [] then s
    else
      var t := StripScheme(s, schemes[0]);
      var r := StripSchemes(t, schemes[1..]);
      assert EndsWith(s, t);
      assert s[|s| - |r|..] == t[|t| - |r|..];
      r
  }

  predicate IsSlash(c: char) {
    c == '/'
  }

  /** The path for an accepted response: strip, trim trailing slashes, extend, sanitise. */
  function MirrorPath(u: Url, ext: string): string {
    GetValidFilename(TrimRight(StripSchemes(GetUrl(RemoveFragment(u)), Schemes), IsSlash) + ext)
  }

  function DestinationPath(head: Response, origin: string): (r: Mapped)
    ensures r.Rejected? <==>
      || !IsNetlocAllowed(origin, head.url.netloc)
      || head.status != StatusOk
      || (head.contentType.Some? && ContentExtension(head.contentType.value).None?)
    ensures r.Rejected? ==>
      r.reason == if head.url.netloc != origin then DomainNotAllowed(head.url.netloc)
                  else if head.status != StatusOk then StatusNotOk(head.status)
                  else ContentTypeNotAllowed(head.contentType.value)
    ensures r.NoContentType? <==>
      head.url.netloc == origin && head.status == StatusOk && head.contentType.None?
    ensures r.Dest? ==>
      && head.contentType.Some?
      && var ext := ContentExtension(head.contentType.value).value;
      && r.path == MirrorPath(head.url, ext)
      && EndsWith(r.path, ext)
      && AllFilenameChars(r.path)
      && GetValidFilename(r.path) == r.path
  {
    if !IsNetlocAllowed(origin, head.url.netloc) then Rejected(DomainNotAllowed(head.url.netloc))
    else if head.status != StatusOk then Rejected(StatusNotOk(head.status))
    else match head.contentType
      case None => NoContentType
      case Some(contentType) =>
        match ContentExtension(contentType)
        case None => Rejected(ContentTypeNotAllowed(contentType))
        case Some(ext) =>
          var stem := TrimRight(StripSchemes(GetUrl(RemoveFragment(head.url)), Schemes), IsSlash);
          SuffixSurvives(stem, ext);
          Idempotent(stem + ext);
          Dest(MirrorPath(head.url, ext))
  }

  /** An `https` URL loses exactly its `https://` prefix. */
  lemma StripHttps(rest: string)
    ensures StripSchemes("https://" + rest, Schemes) == rest
  {
    var s := "https://" + rest;
    assert !StartsWith(s, "//") by { assert s[0] == 'h'; }
    assert !StartsWith(s, "http://") by { assert s[4] == 's'; }
    assert StartsWith(s, "https://") by { assert s[..8] == "https://"; }
    assert s[8..] == rest;
  }

  /** An `http` URL loses exactly its `http://` prefix, unless what follows starts with `https://`. */
  lemma StripHttp(rest: string)
    requires !StartsWith(rest, "https://")
    ensures StripSchemes("http://" + rest, Schemes) == rest
  {
    var s := "http://" + rest;
    assert !StartsWith(s, "//") by { assert s[0] == 'h'; }
    assert StartsWith(s, "http://") by { assert s[..7] == "http://"; }
    assert s[7..] == rest;
  }

  /**
   * A string that starts with a network location without `/` that does not
   * end in `:`, followed by the end, a `/` or a `?`, never starts with
   * `https://`.
   */
  lemma HostNotScheme(netloc: string, s: string)
    requires netloc != [] && '/' !in netloc && netloc[|netloc| - 1] != ':'
    requires StartsWith(s, netloc)
    requires |s| == |netloc| || s[|netloc|] == '/' || s[|netloc|] == '?'
    ensures !StartsWith(s, "https://")
  {
    var h := "https://";
    if |s| >= |h| {
      var k := |netloc|;
      var i := if k >= 7 then 6 else if k == 6 then 5 else k;
      assert k < 7 ==> s[..k][k - 1] == netloc[k - 1];
      assert s[i] != h[i];
      assert s[..|h|][i] != h[i];
    }
  }

  /**
   * For an `http` or `https` URL with a network location, the mirror path is
   * the host followed by path, parameters and query, trailing slashes
   * removed, extension appended, sanitised: the scheme and fragment never
   * reach the file name.
   */
  lemma WebUrlMirrorPath(u: Url, ext: string)
    requires u.scheme == "http" || u.scheme == "https"
    requires u.netloc != [] && '/' !in u.netloc && u.netloc[|u.netloc| - 1] != ':'
    ensures MirrorPath(u, ext)
      == GetValidFilename(TrimRight(u.netloc + RootedPath(u) + QueryPart(u), IsSlash) + ext)
  {
    StripWebScheme(u);
  }

  /** Scheme stripping on a web URL leaves host, path, parameters and query. */
  lemma StripWebScheme(u: Url)
    requires u.scheme == "http" || u.scheme == "https"
    requires u.netloc != [] && '/' !in u.netloc && u.netloc[|u.netloc| - 1] != ':'
    ensures StripSchemes(GetUrl(RemoveFragment(u)), Schemes) == u.netloc + RootedPath(u) + QueryPart(u)
  {
    var v := RemoveFragment(u);
    var rest := u.netloc + RootedPath(u) + QueryPart(u);
    assert RootedPath(v) == RootedPath(u) && QueryPart(v) == QueryPart(u);
    GetUrlWithNetloc(v);
    SchemeSeparators();
    if u.scheme == "https" {
      StripHttps(rest);
    } else {
      assert rest[..|u.netloc|] == u.netloc;
      HostNotScheme(u.netloc, rest);
      StripHttp(rest);
    }
  }

  lemma SchemeSeparators()
    ensures "https" + "://" == "https://" && "http" + "://" == "http://"
  {
  }

  /** `geturl` of a fragment-free record with scheme and network location. */
  lemma GetUrlWithNetloc(v: Url)
    requires v.scheme != "" && v.netloc != "" && v.fragment == ""
    ensures GetUrl(v) == (v.scheme + "://") + (v.netloc + RootedPath(v) + QueryPart(v))
  {
    assert FragmentPart(v) == "";
  }

  /**
   * The site root `http://a.test/` served as HTML is mirrored to
   * `a.test.html`, not to an `index.html`.
   */
  lemma SiteRootPath()
    ensures DestinationPath(Response(Url("http", "a.test", "/", "", "", ""), StatusOk, Some("text/html"), []), "a.test")
      == Dest("a.test.html")
  {
    var u := Url("http", "a.test", "/", "", "", "");
    HtmlExtension();
    var head := Response(u, StatusOk, Some("text/html"), []);
    var name := TrimRight(u.netloc + RootedPath(u) + QueryPart(u), IsSlash) + ".html";
    calc {
      DestinationPath(head, "a.test");
      Dest(MirrorPath(u, ".html"));
      { WebUrlMirrorPath(u, ".html"); }
      Dest(GetValidFilename(name));
      { SiteRootStem(); SiteRootChars(); FixedPoints(name); }
      Dest(name);
      { SiteRootStem(); }
      Dest("a.test.html");
    }
  }

  lemma SiteRootChars()
    ensures AllFilenameChars("a.test.html")
  {
  }

  lemma HtmlExtension()
    ensures ContentExtension("text/html") == Some(".html")
  {
    assert OccursAt("text/html", "text/html", 0);
  }

  lemma SiteRootStem()
    ensures var u := Url("http", "a.test", "/", "", "", "");
      TrimRight(u.netloc + RootedPath(u) + QueryPart(u), IsSlash) + ".html" == "a.test.html"
  {
    var stem := "a.test/";
    assert stem[..|stem| - 1] == "a.test";
    assert TrimRight("a.test", IsSlash) == "a.test";
  }
}
