/**
 * What the crawler reads from a `requests` response once the network is
 * abstracted: the final (post-redirect) URL, already parsed, the status
 * code, the `content-type` header if present, and the `href` attribute of
 * every `<a>` element the HTML parser finds in the body, in document order
 * (`None` for an anchor without `href`).
 */
module Http {
  import opened Wrappers
  import opened Urls

  const StatusOk: int := 200

  datatype Response = Response(
    url: Url,
    status: int,
    contentType: Option<string>,
    hrefs: seq<Option<string>>)

  /** The outcome of `requests.head` / `requests.get`: a response, or an exception. */
  datatype Fetch = Got(response: Response) | Raised
}
