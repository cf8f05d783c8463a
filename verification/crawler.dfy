/**
 * `download_website`: the crawl loop as a transition system over
 * (`to_download`, `downloaded`), driven by an environment that answers for
 * the network, the filter, the cancellation flag and the filesystem.
 */
module Crawler {
  import opened Wrappers
  import opened Strings
  import opened Urls
  import opened Http
  import opened PathMapper
  import opened Links
  import opened Sessions

  /**
   * Everything the loop consults outside itself. A URL is fetched at most
   * once per run, so answering HEAD and GET as functions of the URL loses
   * nothing; `running(k)` is the answer of the `k`-th poll of `running()`;
   * `writes(p)` tells whether creating the parent directories and writing
   * the file at relative path `p` completes or raises.
   */
  datatype Env = Env(
    accept: string -> bool,
    running: nat -> bool,
    head: string -> Fetch,
    get: string -> Fetch,
    join: (Url, string) -> Url,
    writes: string -> bool)

  /** What one iteration did, for iterations that end normally. */
  datatype Event =
    | AlreadyDownloaded
    | Filtered
    | NotMirrored(reason: Reason)
    | GetFailed(status: int)
    /** The file at `path` was written and its links were extracted; `added` joined the frontier. */
    | Mirrored(path: string, added: set<string>)

  /** The exception that leaves an iteration: none is caught inside the loop. */
  datatype Cause =
    | HeadRaised
    | HeadWithoutContentType
    | GetRaised
    | WriteRaised
    | GetWithoutContentType

  datatype StepResult =
    | Continue(next: State, event: Event)
    | Abort(next: State, cause: Cause)

  /** The iteration got past both skips: the URL was marked and a HEAD request was sent. */
  predicate Visits(r: StepResult) {
    r.Abort? || !(r.event.AlreadyDownloaded? || r.event.Filtered?)
  }

  /** `str(dst).lstrip('/')`: the path relative to the output directory. */
  function RelativeTarget(path: string): (r: string)
    ensures r == [] || r[0] != '/'
    ensures EndsWith(path, r)
    ensures forall i :: 0 <= i < |path| - |r| ==> path[i] == '/'
  {
    TrimLeft(path, IsSlash)
  }

  /**
   * The links the page at `url` yields, whatever the state: only an HTML
   * page fetched by GET yields any, and each is the fragment-free URL of a
   * record on the origin.
   */
  function Discovered(env: Env, origin: string, url: string): (r: set<string>)
    ensures r != {} ==>
      && env.get(url).Got? && env.get(url).response.contentType.Some?
      && Contains(env.get(url).response.contentType.value, "text/html")
    ensures forall l | l in r :: exists u: Url :: u.fragment == "" && u.netloc == origin && GetUrl(u) == l
  {
    match env.get(url)
    case Raised => {}
    case Got(page) =>
      match ExtractAllLink(page, origin, env.join)
      case NoContentType => {}
      case Links(ls) => ls
  }

  /** What the requests for a marked URL lead to, before the frontier is touched. */
  datatype Visit =
    | Ended(event: Event)
    | Fetched(target: string, links: set<string>)
    | Threw(cause: Cause)

  /**
   * GET, write and link extraction for a URL whose HEAD mapped it to `path`.
   * The file is written before the links are extracted, so a 200 answer
   * without a content type leaves the file written and then raises.
   */
  function Download(url: string, path: string, origin: string, env: Env): (r: Visit)
    ensures r.Fetched? ==> r.links == Discovered(env, origin, url)
    ensures r.Ended? ==> r.event.GetFailed?
    ensures r.Threw? ==> r.cause.GetRaised? || r.cause.WriteRaised? || r.cause.GetWithoutContentType?
    ensures r.Fetched? ==> r.target == RelativeTarget(path)
    ensures r.Fetched? <==>
      && env.get(url).Got? && env.get(url).response.status == StatusOk
      && env.writes(RelativeTarget(path)) && env.get(url).response.contentType.Some?
    ensures r.Ended? <==> env.get(url).Got? && env.get(url).response.status != StatusOk
    ensures r == Threw(GetRaised) <==> env.get(url).Raised?
    ensures r == Threw(WriteRaised) <==>
      && env.get(url).Got? && env.get(url).response.status == StatusOk
      && !env.writes(RelativeTarget(path))
    ensures r == Threw(GetWithoutContentType) <==>
      && env.get(url).Got? && env.get(url).response.status == StatusOk
      && env.writes(RelativeTarget(path)) && env.get(url).response.contentType.None?
  {
    match env.get(url)
    case Raised => Threw(GetRaised)
    case Got(page) =>
      if page.status != StatusOk then Ended(GetFailed(page.status))
      else
        var target := RelativeTarget(path);
        if !env.writes(target) then Threw(WriteRaised)
        else
          match ExtractAllLink(page, origin, env.join)
          case NoContentType => Threw(GetWithoutContentType)
          case Links(links) => Fetched(target, links)
  }

  /** HEAD, path mapping, then the download, for a URL just marked as downloaded. */
  function VisitUrl(url: string, origin: string, env: Env): (r: Visit)
    ensures r.Fetched? ==> r.links == Discovered(env, origin, url)
    ensures r.Ended? ==> r.event.NotMirrored? || r.event.GetFailed?
  {
    match env.head(url)
    case Raised => Threw(HeadRaised)
    case Got(head) =>
      match DestinationPath(head, origin)
      case NoContentType => Threw(HeadWithoutContentType)
      case Rejected(why) => Ended(NotMirrored(why))
      case Dest(path) => Download(url, path, origin, env)
  }

  /**
   * Which answers of the environment lead to which outcome: HEAD failures
   * and a missing content type raise, a rejected mapping or a failed GET
   * ends the iteration, and a page is mirrored exactly when its mapping is
   * accepted, its GET answers 200 with a content type and the write under
   * the mapped path completes.
   */
  lemma VisitOutcomes(url: string, origin: string, env: Env)
    ensures VisitUrl(url, origin, env) == Threw(HeadRaised) <==> env.head(url).Raised?
    ensures VisitUrl(url, origin, env) == Threw(HeadWithoutContentType) <==>
      env.head(url).Got? && DestinationPath(env.head(url).response, origin).NoContentType?
    ensures (VisitUrl(url, origin, env).Ended? && VisitUrl(url, origin, env).event.NotMirrored?) <==>
      env.head(url).Got? && DestinationPath(env.head(url).response, origin).Rejected?
    ensures VisitUrl(url, origin, env).Fetched? <==>
      && env.head(url).Got? && DestinationPath(env.head(url).response, origin).Dest?
      && env.get(url).Got? && env.get(url).response.status == StatusOk
      && env.writes(RelativeTarget(DestinationPath(env.head(url).response, origin).path))
      && env.get(url).response.contentType.Some?
    ensures VisitUrl(url, origin, env).Fetched? ==>
      VisitUrl(url, origin, env).target == RelativeTarget(DestinationPath(env.head(url).response, origin).path)
  {
    match env.head(url)
    case Raised =>
    case Got(head) =>
      match DestinationPath(head, origin)
      case NoContentType =>
      case Rejected(why) =>
      case Dest(path) =>
        var v := Download(url, path, origin, env);
        assert VisitUrl(url, origin, env) == v;
  }

  /**
   * The loop body's bookkeeping around the requests: pop, the two skips,
   * marking, and adding the new links. `visit` is what the requests for
   * `url` lead to; it is consulted only once `url` is marked.
   */
  function Advance(st: State, url: string, accept: string -> bool, visit: Visit): (r: StepResult)
    requires url in st.toDownload
    requires visit.Ended? ==> visit.event.NotMirrored? || visit.event.GetFailed?
    ensures url !in r.next.toDownload
    ensures st.toDownload - {url} <= r.next.toDownload
    ensures forall l | l in r.next.toDownload && l !in st.toDownload ::
      l !in r.next.downloaded && accept(l) && visit.Fetched? && l in visit.links
    ensures Visits(r) <==> url !in st.downloaded && accept(url)
    ensures r.next.downloaded == if Visits(r) then st.downloaded + {url} else st.downloaded
    ensures r.Continue? && !r.event.Mirrored? ==> r.next.toDownload == st.toDownload - {url}
    ensures r.Abort? <==> url !in st.downloaded && accept(url) && visit.Threw?
    ensures r.Continue? && r.event.Mirrored? <==> url !in st.downloaded && accept(url) && visit.Fetched?
    ensures r.Continue? && r.event.Mirrored? ==>
      && visit.Fetched? && r.event.path == visit.target
      && r.next.toDownload == (st.toDownload - {url}) + r.event.added
      && forall l :: l in r.event.added <==> l in visit.links && l !in r.next.downloaded && accept(l)
  {
    var rest := st.toDownload - {url};
    if url in st.downloaded then Continue(State(rest, st.downloaded), AlreadyDownloaded)
    else if !accept(url) then Continue(State(rest, st.downloaded), Filtered)
    else
      var visited := st.downloaded + {url};
      match visit
      case Threw(cause) => Abort(State(rest, visited), cause)
      case Ended(event) => Continue(State(rest, visited), event)
      case Fetched(target, links) =>
        var added := set l | l in links && l !in visited && accept(l);
        Continue(State(rest + added, visited), Mirrored(target, added))
  }

  /** One pass of the loop body for the popped `url`. */
  function Step(st: State, url: string, origin: string, env: Env): (r: StepResult)
    requires url in st.toDownload
    ensures forall l | l in r.next.toDownload && l !in st.toDownload :: l in Discovered(env, origin, url)
  {
    Advance(st, url, env.accept, VisitUrl(url, origin, env))
  }

  /** The frontier and the visited set share no URL. */
  predicate Disjoint(st: State) {
    st.toDownload !! st.downloaded
  }

  /** A step keeps the frontier disjoint from the visited set. */
  lemma StepKeepsDisjoint(st: State, url: string, origin: string, env: Env)
    requires url in st.toDownload && Disjoint(st)
    ensures Disjoint(Step(st, url, origin, env).next)
  {
    var r := Step(st, url, origin, env);
    forall l | l in r.next.toDownload
      ensures l !in r.next.downloaded
    {
      if l in st.toDownload {
        assert l != url && l !in st.downloaded;
      }
    }
  }

  /** Every URL in `site` yields only links inside `site`. */
  predicate Closed(env: Env, origin: string, site: set<string>) {
    forall url :: url in site ==> Discovered(env, origin, url) <= site
  }

  /**
   * Over a finite site, a step keeps the frontier inside the site and
   * shrinks (site - downloaded, to_download) lexicographically, each by
   * strict inclusion.
   */
  lemma StepMeasure(st: State, url: string, origin: string, env: Env, site: set<string>)
    requires url in st.toDownload && st.toDownload <= site && Closed(env, origin, site)
    ensures var next := Step(st, url, origin, env).next;
      && next.toDownload <= site
      && (site - next.downloaded < site - st.downloaded
          || (next.downloaded == st.downloaded && next.toDownload < st.toDownload))
  {
    var r := Step(st, url, origin, env);
    assert Discovered(env, origin, url) <= site;
    if Visits(r) {
      assert site - st.downloaded == (site - r.next.downloaded) + {url};
    } else {
      assert r.next.toDownload == st.toDownload - {url};
    }
  }

  /**
   * One iteration of the loop, computed by `Step`, with the facts the loop
   * relies on: the measure decreases, the frontier stays in the site, and
   * the visited set grows by the popped URL exactly when it is probed.
   */
  method Iteration(st: State, url: string, origin: string, env: Env, ghost site: set<string>)
    returns (r: StepResult)
    requires url in st.toDownload && st.toDownload <= site && Closed(env, origin, site)
    ensures r.next.toDownload <= site
    ensures site - r.next.downloaded < site - st.downloaded
      || (r.next.downloaded == st.downloaded && r.next.toDownload < st.toDownload)
    ensures Visits(r) <==> url !in st.downloaded && env.accept(url)
    ensures r.next.downloaded == if Visits(r) then st.downloaded + {url} else st.downloaded
    ensures Disjoint(st) ==> Disjoint(r.next)
    ensures r.Abort? ==> Visits(r) && url !in r.next.toDownload
    ensures r == Step(st, url, origin, env)
  {
    r := Step(st, url, origin, env);
    StepMeasure(st, url, origin, env, site);
    if Disjoint(st) {
      StepKeepsDisjoint(st, url, origin, env);
    }
  }

  /** The URLs listed in `s`. */
  function Members(s: seq<string>): set<string> {
    set x | x in s
  }

  /** Where a run stands: still looping from `st`, or stopped by an exception in `st`. */
  datatype Trace = Running(st: State) | Stopped(st: State, cause: Cause)

  /** The trace a step leads to. */
  function Outcome(r: StepResult): Trace {
    match r
    case Continue(next, _) => Running(next)
    case Abort(next, cause) => Stopped(next, cause)
  }

  /**
   * The run from `start` that pops the URLs of `pops` in order, one `Step`
   * each. Popping stops with the first exception; a pop of a URL outside
   * the frontier is no step of the loop and leaves the trace as it was.
   */
  function Replay(start: State, pops: seq<string>, origin: string, env: Env): Trace {
    if pops == [] then Running(start)
    else
      var t := Replay(start, pops[..|pops| - 1], origin, env);
      var url := pops[|pops| - 1];
      if t.Stopped? || url !in t.st.toDownload then t
      else Outcome(Step(t.st, url, origin, env))
  }

  /** Every URL of `pops` was in the frontier, and the run still looping, when it was popped. */
  predicate Popped(start: State, pops: seq<string>, origin: string, env: Env) {
    pops == [] ||
      (var prefix := pops[..|pops| - 1];
       var t := Replay(start, prefix, origin, env);
       && Popped(start, prefix, origin, env)
       && t.Running? && pops[|pops| - 1] in t.st.toDownload)
  }

  /** Popping one more URL from a looping run is one `Step`. */
  lemma ReplayStep(start: State, pops: seq<string>, url: string, origin: string, env: Env)
    requires Popped(start, pops, origin, env)
    requires Replay(start, pops, origin, env).Running?
    requires url in Replay(start, pops, origin, env).st.toDownload
    ensures Popped(start, pops + [url], origin, env)
    ensures Replay(start, pops + [url], origin, env)
      == Outcome(Step(Replay(start, pops, origin, env).st, url, origin, env))
  {
    assert (pops + [url])[..|pops|] == pops;
  }

  /** A URL of the initial frontier that was never popped is still in the frontier. */
  lemma {:induction false} ReplayKeepsUnpopped(start: State, pops: seq<string>, origin: string, env: Env, u: string)
    requires u in start.toDownload && u !in pops
    ensures u in Replay(start, pops, origin, env).st.toDownload
  {
    if pops != [] {
      var prefix := pops[..|pops| - 1];
      assert u !in prefix by {
        assert forall i | 0 <= i < |prefix| :: prefix[i] == pops[i];
      }
      ReplayKeepsUnpopped(start, prefix, origin, env, u);
    }
  }

  /** Every URL in the frontier that was not there at the start was discovered on a popped page. */
  lemma {:induction false} ReplayNewFromDiscovered(start: State, pops: seq<string>, origin: string, env: Env, l: string)
    requires l in Replay(start, pops, origin, env).st.toDownload && l !in start.toDownload
    ensures exists i | 0 <= i < |pops| :: l in Discovered(env, origin, pops[i])
  {
    var prefix := pops[..|pops| - 1];
    var t := Replay(start, prefix, origin, env);
    var url := pops[|pops| - 1];
    if l in t.st.toDownload {
      ReplayNewFromDiscovered(start, prefix, origin, env, l);
      var i :| 0 <= i < |prefix| && l in Discovered(env, origin, prefix[i]);
      assert prefix[i] == pops[i];
    } else {
      assert l in Discovered(env, origin, pops[|pops| - 1]);
    }
  }

  /**
   * The popped URLs a HEAD request was sent for: those popped while the run
   * was looping, from the frontier, that had not been visited and that the
   * filter accepted.
   */
  function Probed(start: State, pops: seq<string>, origin: string, env: Env): (r: seq<string>)
    ensures |r| <= |pops|
    ensures forall i :: 0 <= i < |r| ==> r[i] in pops
  {
    if pops == [] then []
    else
      var prefix := pops[..|pops| - 1];
      var t := Replay(start, prefix, origin, env);
      var url := pops[|pops| - 1];
      if t.Running? && url in t.st.toDownload && Visits(Step(t.st, url, origin, env))
      then Probed(start, prefix, origin, env) + [url]
      else Probed(start, prefix, origin, env)
  }

  /**
   * `probed` lists distinct URLs, none visited before `start` and all
   * accepted by the filter, and they are what the visited set gained.
   */
  predicate Recorded(start: State, st: State, probed: seq<string>, accept: string -> bool) {
    && st.downloaded == start.downloaded + Members(probed)
    && (forall i :: 0 <= i < |probed| ==> probed[i] !in start.downloaded && accept(probed[i]))
    && (forall i, j :: 0 <= i < j < |probed| ==> probed[i] != probed[j])
  }

  /** Along any run, the visited set gains exactly the probed URLs, each once. */
  lemma {:induction false} ReplayRecorded(start: State, pops: seq<string>, origin: string, env: Env)
    ensures Recorded(start, Replay(start, pops, origin, env).st, Probed(start, pops, origin, env), env.accept)
  {
    if pops != [] {
      var prefix := pops[..|pops| - 1];
      var t := Replay(start, prefix, origin, env);
      var url := pops[|pops| - 1];
      ReplayRecorded(start, prefix, origin, env);
      var p := Probed(start, prefix, origin, env);
      if t.Running? && url in t.st.toDownload && Visits(Step(t.st, url, origin, env)) {
        assert url !in Members(p);
        assert (p + [url])[..|p|] == p;
        assert Members(p + [url]) == Members(p) + {url};
      }
    }
  }

  /** A run stopped by an exception last probed a URL that is not back in the frontier. */
  lemma {:induction false} ReplayStoppedProbed(start: State, pops: seq<string>, origin: string, env: Env)
    requires Replay(start, pops, origin, env).Stopped?
    ensures var p := Probed(start, pops, origin, env);
      |p| > 0 && p[|p| - 1] !in Replay(start, pops, origin, env).st.toDownload
  {
    var prefix := pops[..|pops| - 1];
    var t := Replay(start, prefix, origin, env);
    if t.Stopped? {
      ReplayStoppedProbed(start, prefix, origin, env);
    }
  }

  /** Along any run from a disjoint state, the frontier stays disjoint from the visited set. */
  lemma {:induction false} ReplayKeepsDisjoint(start: State, pops: seq<string>, origin: string, env: Env)
    requires Disjoint(start)
    ensures Disjoint(Replay(start, pops, origin, env).st)
  {
    if pops != [] {
      var prefix := pops[..|pops| - 1];
      var t := Replay(start, prefix, origin, env);
      var url := pops[|pops| - 1];
      ReplayKeepsDisjoint(start, prefix, origin, env);
      if t.Running? && url in t.st.toDownload {
        StepKeepsDisjoint(t.st, url, origin, env);
      }
    }
  }

  /**
   * One iteration of the loop, extending the run's trace `popped` by the
   * popped `url`; `t` is where the run stands afterwards.
   */
  method Turn(start: State, st: State, popped: seq<string>, url: string, origin: string, env: Env, ghost site: set<string>)
    returns (t: Trace, popped': seq<string>)
    requires url in st.toDownload && st.toDownload <= site && Closed(env, origin, site)
    requires Popped(start, popped, origin, env) && Replay(start, popped, origin, env) == Running(st)
    ensures popped' == popped + [url]
    ensures Popped(start, popped', origin, env) && Replay(start, popped', origin, env) == t
    ensures t.st.toDownload <= site
    ensures site - t.st.downloaded < site - st.downloaded
      || (t.st.downloaded == st.downloaded && t.st.toDownload < st.toDownload)
  {
    var r := Iteration(st, url, origin, env, site);
    ReplayStep(start, popped, url, origin, env);
    t := Outcome(r);
    popped' := popped + [url];
  }

  /** How the loop ended. */
  datatype Exit = Exhausted | Cancelled | Crashed(cause: Cause)

  /**
   * The `while` loop from `st`, after `iterations` passes that popped
   * `popped` from `start`: runs until the frontier is empty, `running()`
   * answers false or an iteration raises. Termination rests on `site`, a
   * finite set of URLs closed under link discovery.
   */
  method Crawl(start: State, st: State, iterations: nat, popped: seq<string>, origin: string, env: Env, ghost site: set<string>)
    returns (final: State, exit: Exit, iterations': nat, popped': seq<string>)
    requires st.toDownload <= site && Closed(env, origin, site)
    requires forall k :: 0 <= k < iterations ==> env.running(k)
    requires |popped| == iterations
    requires Popped(start, popped, origin, env) && Replay(start, popped, origin, env) == Running(st)
    ensures forall k :: 0 <= k < iterations' ==> env.running(k)
    ensures exit.Exhausted? ==> final.toDownload == {}
    ensures exit.Cancelled? ==> final.toDownload != {} && !env.running(iterations')
    ensures |popped'| == iterations' && Popped(start, popped', origin, env)
    ensures exit.Crashed? ==> Replay(start, popped', origin, env) == Stopped(final, exit.cause)
    ensures !exit.Crashed? ==> Replay(start, popped', origin, env) == Running(final)
    decreases site - st.downloaded, st.toDownload
  {
    if st.toDownload == {} || !env.running(iterations) {
      return st, if st.toDownload == {} then Exhausted else Cancelled, iterations, popped;
    }
    var url :| url in st.toDownload;
    var t, next := Turn(start, st, popped, url, origin, env, site);
    if t.Stopped? {
      return t.st, Crashed(t.cause), iterations + 1, next;
    }
    final, exit, iterations', popped' := Crawl(start, t.st, iterations + 1, next, origin, env, site);
  }

  /**
   * The loop from the start state. `popped` lists the URL popped by each
   * iteration and `probed` those a HEAD request was sent for, in order.
   */
  method CrawlLoop(start: State, origin: string, env: Env, ghost site: set<string>)
    returns (final: State, exit: Exit, iterations: nat, probed: seq<string>, popped: seq<string>)
    requires start.toDownload <= site
    requires Closed(env, origin, site)
    ensures forall k :: 0 <= k < iterations ==> env.running(k)
    ensures exit.Exhausted? ==> final.toDownload == {}
    ensures exit.Cancelled? ==> final.toDownload != {} && !env.running(iterations)
    ensures |popped| == iterations && Popped(start, popped, origin, env)
    ensures Replay(start, popped, origin, env) == if exit.Crashed? then Stopped(final, exit.cause) else Running(final)
    ensures probed == Probed(start, popped, origin, env)
    ensures Recorded(start, final, probed, env.accept)
    ensures exit.Crashed? ==> |probed| > 0 && probed[|probed| - 1] !in final.toDownload
    ensures |probed| <= iterations
    ensures start.toDownload - Members(popped) <= final.toDownload
    ensures forall l | l in final.toDownload && l !in start.toDownload ::
      exists i | 0 <= i < |popped| :: l in Discovered(env, origin, popped[i])
    ensures Disjoint(start) ==> Disjoint(final)
  {
    final, exit, iterations, popped := Crawl(start, start, 0, [], origin, env, site);
    probed := Probed(start, popped, origin, env);
    assert final == Replay(start, popped, origin, env).st;
    ReplayRecorded(start, popped, origin, env);
    if Disjoint(start) {
      ReplayKeepsDisjoint(start, popped, origin, env);
    }
    if exit.Crashed? {
      ReplayStoppedProbed(start, popped, origin, env);
    }
    forall u | u in start.toDownload - Members(popped)
      ensures u in final.toDownload
    {
      ReplayKeepsUnpopped(start, popped, origin, env, u);
    }
    forall l | l in final.toDownload && l !in start.toDownload
      ensures exists i | 0 <= i < |popped| :: l in Discovered(env, origin, popped[i])
    {
      ReplayNewFromDiscovered(start, popped, origin, env, l);
    }
  }

  /** The state a run starts from: the loaded session when resuming succeeds, else the seed alone. */
  function Start(seed: string, resume: bool, sessions: Store, origin: string): State {
    Init(seed, resume, Load(sessions, origin))
  }

  /**
   * `download_website`: choose the start state, run the loop, and, in the
   * `finally`, checkpoint whatever state the loop left, however it ended.
   * `origin` is the seed's netloc.
   */
  method DownloadWebsite(seed: string, origin: string, resume: bool, sessions: Store, env: Env, ghost site: set<string>)
    returns (final: State, exit: Exit, iterations: nat, probed: seq<string>, popped: seq<string>, saved: Store)
    requires Start(seed, resume, sessions, origin).toDownload <= site
    requires Closed(env, origin, site)
    ensures Load(saved, origin) == Some(final)
    ensures forall f | f in sessions && f != PendingFile(origin) && f != VisitedFile(origin) :: f in saved && saved[f] == sessions[f]
    ensures saved.Keys == sessions.Keys + {PendingFile(origin), VisitedFile(origin)}
    ensures exit.Exhausted? ==> final.toDownload == {}
    ensures exit.Cancelled? ==> final.toDownload != {} && !env.running(iterations)
    ensures forall k :: 0 <= k < iterations ==> env.running(k)
    ensures forall i :: 0 <= i < |probed| ==> env.accept(probed[i])
    ensures final.downloaded == Start(seed, resume, sessions, origin).downloaded + Members(probed)
    ensures forall i :: 0 <= i < |probed| ==> probed[i] !in Start(seed, resume, sessions, origin).downloaded
    ensures forall i, j :: 0 <= i < j < |probed| ==> probed[i] != probed[j]
    ensures !resume || Load(sessions, origin).None? ==> Disjoint(final)
    ensures |popped| == iterations && Popped(Start(seed, resume, sessions, origin), popped, origin, env)
    ensures Replay(Start(seed, resume, sessions, origin), popped, origin, env)
      == if exit.Crashed? then Stopped(final, exit.cause) else Running(final)
    ensures Start(seed, resume, sessions, origin).toDownload - Members(popped) <= final.toDownload
    ensures forall l | l in final.toDownload && l !in Start(seed, resume, sessions, origin).toDownload ::
      exists i | 0 <= i < |popped| :: l in Discovered(env, origin, popped[i])
  {
    var start := Start(seed, resume, sessions, origin);
    final, exit, iterations, probed, popped := CrawlLoop(start, origin, env, site);
    saved := Save(sessions, origin, final);
  }
}
