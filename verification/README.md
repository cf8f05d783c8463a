# Website mirror crawler: a Dafny model of the crawl engine

The application mirrors a web site into a local directory. From a seed URL
it fetches every page on the seed's network location (its "origin") that
passes a user filter. It writes each HTML, plain-text or JSON page under a
path derived from the page's URL, and follows the links found in HTML
pages. It checkpoints its frontier (`to_download`) and its visited set
(`downloaded`) so that a later run can resume.

This project models the engine of `main_window.py` as pure functions over
immutable data:

- `Filenames` holds `get_valid_filename`, the sanitiser for file names.
- `Urls` holds the six-field `ParseResult` record with `geturl`,
  `remove_fragment`, and the origin test `is_netloc_allowed`.
- `PathMapper` holds `destination_path`, which gives the relative file a
  response is mirrored to, or why it is not mirrored.
- `Links` holds `extract_all_link`, the link filter.
- `Sessions` holds the session files: their names, loading, saving, and
  the choice of start state.
- `Crawler` holds `download_website`. The loop is a transition system over
  the two sets. An environment value answers for HEAD and GET, the filter,
  `running()` and file writes.
- `Strings` holds the Python `str` operations the code relies on
  (`startswith`, `in`, `find`, `replace`, `strip`, `lstrip`, `rstrip`).
- `Wrappers` holds the `Option` type. `Http` holds the response record.

The environment is a parameter of the model:

- HEAD and GET answers are functions of the URL. A URL is requested at
  most once per run, so nothing is lost.
- `running(k)` is the answer to the `k`-th poll of `running()`.
- `writes(p)` says whether creating the parent directories and writing the
  file at `p` completes.
- `join` stands for `urlparse(urljoin(base, href))`.
- The session directory is a map from file name to contents. A file
  either holds a pickled set or cannot be unpickled.

Any exception inside the loop ends the loop. The `try/finally: pass` around
the requests catches nothing. The exit is then `Crashed(cause)`, and the
outer `finally` still saves both sets. A missing `content-type` header is a
`KeyError`. It is modelled as the `NoContentType` outcome of
`destination_path` and of `extract_all_link`.

Termination of the loop needs an assumption, because the source does not
bound the set of URLs. The model assumes a finite set `site` that holds the
initial frontier and every link discovered from its members. Each
iteration then shrinks the pair (`site - downloaded`, `to_download`)
lexicographically, each component by strict inclusion.

Termination aside, three behaviours of the code are easy to misread:

- Only the exact origin is accepted. The second disjunct of
  `is_netloc_allowed` compares `'www.' + netloc` with `netloc`, which are
  never equal, so a `www.` variant of the origin is refused
  (`Urls.WwwVariantRefused`).
- An exception while handling one URL ends the crawl. The inner `try` has
  only `finally: pass`, so the exception leaves the loop, and the outer
  `finally` checkpoints.
- A site root such as `http://a.test/` is saved as `a.test.html`. The code
  strips the trailing `/` and appends the extension
  (`PathMapper.SiteRootPath`).

A run is described by the URLs it popped, in order. `Crawler.Replay`
folds `Crawler.Step` over them and stops at the first exception, and the
loop's results are stated against that fold.

## Model

| member | source | states |
|---|---|---|
| Filenames.GetValidFilename | main_window.py:153-157 | the result holds only characters of `[-\w./#]`, contains no space, and is never longer than the input |
| Filenames.FixedPoints | main_window.py:153-157 | sanitising leaves a string unchanged exactly when all its characters are in `[-\w./#]` |
| Filenames.Idempotent | main_window.py:153-157 | sanitising twice gives the same as sanitising once |
| Filenames.SuffixSurvives | main_window.py:153-157 | a non-empty suffix of allowed characters (such as a file extension) comes out unchanged at the end of the sanitised name; only the part before it is trimmed and cleaned |
| Filenames.CleanFilename | main_window.py:154-157 | replacing spaces and deleting disallowed characters changes nothing in a string of allowed characters |
| Filenames.Clean | main_window.py:154-157 | after replacing spaces and deleting disallowed characters, only allowed characters remain, none is added, and `_` appears exactly when it was there or a space was |
| Strings.Keep | main_window.py:157 | the regex deletion keeps exactly the characters of the class, in order: every kept character is in the class, and a character occurs in the result iff it occurs in the input and is in the class |
| Strings.KeepAppend | main_window.py:157 | deleting characters distributes over concatenation |
| Strings.Find | main_window.py:140 | a first occurrence is found exactly when the pattern occurs, and no earlier index matches |
| Strings.ReplaceFirst | main_window.py:140 | `replace(p, '', 1)` on a string that starts with `p` removes exactly that prefix; without an occurrence it changes nothing |
| Strings.TrimRight | main_window.py:143 | `rstrip` returns a prefix of the input, everything removed is a stripped character, and the last remaining character is not one |
| Strings.TrimLeft | main_window.py:78 | `lstrip` returns a suffix of the input, everything removed is a stripped character, and the first remaining character is not one |
| Strings.TrimLeftAppend | main_window.py:154 | left-stripping stops at a suffix that starts with a kept character |
| Strings.Strip | main_window.py:154 | `strip` never lengthens the string and leaves no whitespace at either end |
| Strings.StripIsSlice | main_window.py:154 | `strip` returns a slice of the input with only whitespace before and after it |
| Strings.ReplaceChar | main_window.py:154 | `replace(' ', '_')` keeps the length, turns every space into `_`, keeps every other character in place, and leaves no space behind |
| Urls.RemoveFragment | main_window.py:149-150 | the fragment becomes empty and the other five fields are unchanged |
| Urls.RemoveFragmentIdempotent | main_window.py:149-150 | removing the fragment twice is removing it once |
| Urls.RemoveFragmentSuffix | main_window.py:149-150 | the URL string loses exactly its `#fragment` suffix |
| Urls.GetUrl | main_window.py:200 | the URL string starts with `scheme:` when there is a scheme and ends with the `?query` and `#fragment` parts |
| Urls.IsNetlocAllowed | main_window.py:30-31 | the test holds iff the network location equals the origin's |
| Urls.WwwVariantRefused | main_window.py:30-31 | `www.` followed by the origin is refused |
| PathMapper.ContentExtension | main_window.py:120-131 | the first of `text/html`, `text/plain`, `application/json` that occurs in the header decides: `.html` iff `text/html` occurs; `.txt` iff `text/plain` occurs without `text/html`; `.json` iff `application/json` occurs without the other two; no extension iff none occurs |
| PathMapper.StripSchemes | main_window.py:136-140 | the scheme loop returns a suffix of its input |
| PathMapper.StripScheme | main_window.py:138-140 | a guarded round removes the scheme prefix when the string starts with it and otherwise changes nothing |
| PathMapper.DestinationPath | main_window.py:108-146 | rejected iff the netloc is not the origin, the status is not 200, or the header names none of the three types; the reason is the first failing check; a missing header past the first two checks raises; an accepted path is the mirror path, ends with the extension, and is a fixed point of the sanitiser |
| PathMapper.WebUrlMirrorPath | main_window.py:133-146 | for an `http`/`https` URL whose network location is non-empty, has no `/` and does not end in `:`, the path is host, path, parameters and query, with trailing `/` removed, the extension appended, and sanitised; scheme and fragment never reach the file name |
| PathMapper.StripWebScheme | main_window.py:133-140 | on an `http`/`https` URL whose network location is non-empty, has no `/` and does not end in `:`, the scheme loop removes exactly `http://` or `https://` |
| PathMapper.HostNotScheme | main_window.py:136-140 | after `http://` has been stripped, a remainder led by a network location that is non-empty, has no `/` and does not end in `:` (followed by the end, `/` or `?`) never starts with `https://`, so the third round does nothing |
| PathMapper.SiteRootPath | main_window.py:108-146 | `http://a.test/` served as `text/html` is mirrored to `a.test.html` |
| Links.LinkTargets | main_window.py:192-201 | every gathered record has an empty fragment and the origin as network location |
| Links.LinkTargetSource | main_window.py:194-201 | every gathered record comes from some kept anchor |
| Links.LinkTargetFound | main_window.py:194-201 | every kept anchor contributes its fragment-free record |
| Links.LinkTargetsExactly | main_window.py:194-201 | a record is gathered iff some anchor has a non-empty `href` that resolves onto the origin and normalises to it |
| Links.ExtractAllLink | main_window.py:186-203 | a missing header raises; non-HTML content gives no links; every link is the URL of a record with empty fragment on the origin |
| Links.LinkReturned | main_window.py:186-203 | for HTML, a link is returned iff some usable anchor resolves onto the origin and its fragment-free URL is that link |
| Sessions.PendingFile | main_window.py:35-36 | the pending-set file name starts with the sanitised origin, ends with `.to_download.pkl`, and is made of file-name characters |
| Sessions.VisitedFile | main_window.py:35-37 | the visited-set file name starts with the sanitised origin, ends with `.downloaded.pkl`, is made of file-name characters, and differs from the pending-set file name |
| Sessions.SessionFilesSanitised | main_window.py:35-37 | both session file names are fixed points of the sanitiser |
| Sessions.Load | main_window.py:41-45 | a session loads iff both files are present and unpickle |
| Sessions.Save | main_window.py:100-104 | after saving, loading returns exactly the saved pair; the directory gains the two files and no other file changes |
| Sessions.Init | main_window.py:39-55 | a successful resume starts from the loaded pair; a fresh start and a failed resume both start from ({seed}, {}) |
| Sessions.ResumeAfterSave | main_window.py:39-46 | resuming after a checkpoint starts exactly from the checkpointed sets |
| Crawler.RelativeTarget | main_window.py:78 | the relative target is the mapped path with its leading `/` characters removed: a suffix, everything removed is `/`, and it does not start with `/` |
| Crawler.Discovered | main_window.py:81-97 | a page yields links only when GET answered with an HTML content type, and every link is the URL of a fragment-free record on the origin |
| Crawler.Download | main_window.py:80-97 | the download completes and reports links iff GET answers 200 with a content type and the write under the relative target completes, and the links are then exactly the page's links; the iteration ends normally iff GET answers another status; GET raised iff the request raised; the write raised iff GET answered 200 and the write fails; the missing header raised iff GET answered 200 without one after the file was written |
| Crawler.VisitUrl | main_window.py:69-97 | the links reported are exactly those the page yields; an iteration ends normally only on a rejected mapping or a failed GET |
| Crawler.VisitOutcomes | main_window.py:69-97 | HEAD raised iff the HEAD request raised; a missing header after the first two checks raises; the iteration is skipped iff the mapping rejects; the iteration completes and reports its links iff its mapping is accepted, GET answers 200 with a content type and the write under the mapped path completes |
| Crawler.Advance | main_window.py:57-97 | the popped URL leaves the frontier and the rest stays; a URL is marked iff it was not visited and the filter accepts it; the iteration raises iff the URL is marked and its requests raise, and completes with its links (the `Mirrored` event) iff it is marked and its download completed; exactly the page's links that are unvisited and accepted are added, and nothing else |
| Crawler.Step | main_window.py:57-97 | every URL new in the frontier was discovered on the popped page |
| Crawler.StepKeepsDisjoint | main_window.py:67-97 | a step keeps the frontier disjoint from the visited set |
| Crawler.StepMeasure | main_window.py:57-97 | over a closed finite site, a step keeps the frontier in the site and shrinks (`site - downloaded`, `to_download`) lexicographically |
| Crawler.Iteration | main_window.py:57-97 | the iteration computes exactly `Step`; the measure decreases, the marking rule holds, disjointness is kept, and an exception leaves the popped URL marked and out of the frontier |
| Crawler.ReplayStep | main_window.py:57-97 | popping one more URL from the frontier of a looping run is one `Step` |
| Crawler.Probed | main_window.py:57-66 | definition of the probed URLs: every one of them was popped, and there are no more of them than pops |
| Crawler.ReplayRecorded | main_window.py:57-66 | along any run, the visited set gains exactly the probed URLs, each once, each unvisited at the start and accepted by the filter |
| Crawler.ReplayStoppedProbed | main_window.py:57-97 | a run stopped by an exception has probed a URL last, and that URL is not back in the frontier |
| Crawler.ReplayKeepsUnpopped | main_window.py:57-58 | a URL of the start frontier that was never popped is still in the frontier |
| Crawler.ReplayNewFromDiscovered | main_window.py:93-97 | every URL that entered the frontier was discovered on some popped page |
| Crawler.ReplayKeepsDisjoint | main_window.py:57-97 | along any run from a disjoint state, the frontier stays disjoint from the visited set |
| Crawler.Turn | main_window.py:57-97 | one more pass extends the run's list of popped URLs by the popped URL, and the run then stands where `Replay` says; the measure decreases |
| Crawler.Crawl | main_window.py:57-99 | from a looping run, the loop ends with an empty frontier, on a false `running()` after polling true for every earlier pass, or on an exception; the popped URLs replay to the final state, or to the exception and its state |
| Crawler.CrawlLoop | main_window.py:57-99 | the loop runs only while `running()` answers true; it stops with an empty frontier, on a false `running()`, or with the state and exception `Replay` gives for the popped URLs; otherwise the final state is the replay of the popped URLs; the visited set grows by exactly the probed URLs, which are distinct, unvisited at the start and accepted; every URL of the start frontier that was never popped is still in the frontier, and every new one was discovered on a popped page; disjointness is kept |
| Crawler.DownloadWebsite | main_window.py:21-104 | on every exit the checkpoint reloads to exactly the final in-memory pair, the session directory gains exactly the two session files, and no other session file changes; the final pair is the replay of the popped URLs from the start state, and an exception exit carries the replayed exception; the visited set grows by exactly the distinct probed URLs; unpopped start URLs stay in the frontier and new ones were discovered on popped pages; a fresh or failed-resume run keeps the frontier disjoint from the visited set |

## Left out

- The Qt user interface, the worker thread and `main` (`main_window.py:209-371`) are user-interface code. The interface also passes `url.text()` to the worker rather than the scheme-fixed text (line 349).
- HTTP HEAD and GET are network I/O. They are the environment functions `head` and `get`, which return a response or raise.
- BeautifulSoup, `urljoin` and `urlparse` are library code. The anchors' `href` values arrive in the response, and URL resolution is the uninterpreted `join`.
- Urls.GetUrl: models `urlunparse` only for records whose location is a network location or a path. The scheme-specific `uses_netloc` rules are not modelled.
- Filenames.GetValidFilename: `\w` is taken as ASCII letters, digits and `_`, not the full Unicode word class.
- Pickle file I/O is a map from file name to contents. Unpickling errors of any kind are the single `Unreadable` value.
- `safe_create_parent_directory` and `convert_file_to_directory` (lines 160-183) are not modelled, because they do not work as written. Line 87 passes `logfn` as `root`. Line 170 passes `logfn` as the file name. Line 180 reads `.name` from the string that `TemporaryDirectory()` yields. Their effect, together with writing the file, is the environment predicate `writes`.
- Logging and `datetime` timestamps have no effect on the state.
- The mkdir calls at lines 22-25 are not modelled.
- A `urlparse` failure on the seed (line 28) is not modelled. It would leave the `finally` at lines 100-104 without the session paths.
- Crawler.CrawlLoop: every guarantee, not only termination, is proved only for runs whose frontier stays inside a finite set `site` closed under link discovery; the same assumption is a precondition of Crawler.Crawl, Crawler.Turn, Crawler.Iteration and Crawler.StepMeasure. The source has no such bound.
- Crawler.CrawlLoop: `running()` is the indexed oracle `running(k)`, so cancellation from another thread is not modelled.
- Sessions.Save: both checkpoint writes are assumed to complete. Lines 101-104 can raise after the first file is written, which leaves the two files out of step; file-system failure is not modelled.
- Crawler.DownloadWebsite: every guarantee, termination included, assumes the finite set `site` that holds the start frontier and is closed under `Discovered`. `Discovered` counts the links of any page GET returns for a URL, including pages whose HEAD mapping rejects them or that the filter refuses, so `site` may be larger than the set of pages the run fetches.
- Links.ExtractAllLink: a `ValueError` raised by `urljoin` or `urlparse` on a malformed `href` (lines 197-198) is not modelled. `join` is total, so such an anchor never ends the crawl in the model, while in the source it leaves the loop like any other exception.
- Crawler.Download: written files are not part of the state. When GET answers 200 without a `content-type` header, the file is already written (lines 86-91) before the `KeyError` at line 187, and the model records only the exception.
- PathMapper.WebUrlMirrorPath: the host-plus-path form is proved only for network locations that are non-empty, contain no `/` and do not end in `:`. For others, such as `urlparse("http://https://x")` with network location `https:`, lines 137-140 strip a second scheme and the path is whatever MirrorPath computes.
