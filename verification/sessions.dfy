/**
 * The crawl state and its checkpoint: the two sets pickled into
 * `<origin>.to_download.pkl` and `<origin>.downloaded.pkl` under the
 * `sessions` directory. The directory is a map from file name to contents.
 */
module Sessions {
  import opened Wrappers
  import opened Strings
  import opened Filenames

  /** The frontier (`to_download`) and the visited set (`downloaded`). */
  datatype State = State(toDownload: set<string>, downloaded: set<string>)

  /** A session file: a pickled set, or data that cannot be unpickled. */
  datatype Blob = Pickled(urls: set<string>) | Unreadable

  type Store = map<string, Blob>

  const PendingSuffix: string := ".to_download.pkl"
  const VisitedSuffix: string := ".downloaded.pkl"

  /** The pending-set file: the sanitised origin followed by `.to_download.pkl`. */
  function PendingFile(origin: string): (r: string)
    ensures StartsWith(r, GetValidFilename(origin)) && EndsWith(r, PendingSuffix)
    ensures AllFilenameChars(r)
  {
    var key := GetValidFilename(origin);
    SuffixNames();
    AppendFilenameChars(key, PendingSuffix);
    Affixes(key, PendingSuffix);
    key + PendingSuffix
  }

  /** The visited-set file: the sanitised origin followed by `.downloaded.pkl`. */
  function VisitedFile(origin: string): (r: string)
    ensures StartsWith(r, GetValidFilename(origin)) && EndsWith(r, VisitedSuffix)
    ensures AllFilenameChars(r)
    ensures r != PendingFile(origin)
  {
    var key := GetValidFilename(origin);
    SuffixNames();
    AppendFilenameChars(key, VisitedSuffix);
    Affixes(key, VisitedSuffix);
    key + VisitedSuffix
  }

  /** The session file names are already valid file names: sanitising them changes nothing. */
  lemma SessionFilesSanitised(origin: string)
    ensures GetValidFilename(PendingFile(origin)) == PendingFile(origin)
    ensures GetValidFilename(VisitedFile(origin)) == VisitedFile(origin)
  {
    FixedPoints(PendingFile(origin));
    FixedPoints(VisitedFile(origin));
  }

  lemma SuffixNames()
    ensures AllFilenameChars(PendingSuffix) && AllFilenameChars(VisitedSuffix)
    ensures |PendingSuffix| == 16 && |VisitedSuffix| == 15
  {
  }

  lemma Affixes(a: string, b: string)
    ensures StartsWith(a + b, a) && EndsWith(a + b, b)
  {
    assert (a + b)[..|a|] == a;
    assert (a + b)[|a|..] == b;
  }

  /** Both files read back as sets, or `None` when either is missing or unreadable. */
  function Load(store: Store, origin: string): (r: Option<State>)
    ensures r.Some? <==>
      && PendingFile(origin) in store && store[PendingFile(origin)].Pickled?
      && VisitedFile(origin) in store && store[VisitedFile(origin)].Pickled?
  {
    var p := PendingFile(origin);
    var v := VisitedFile(origin);
    if p in store && store[p].Pickled? && v in store && store[v].Pickled? then
      Some(State(store[p].urls, store[v].urls))
    else None
  }

  /** Overwrites both session files with the current sets; nothing else in the directory changes. */
  function Save(store: Store, origin: string, st: State): (r: Store)
    ensures Load(r, origin) == Some(st)
    ensures r.Keys == store.Keys + {PendingFile(origin), VisitedFile(origin)}
    ensures forall f | f in store && f != PendingFile(origin) && f != VisitedFile(origin) :: r[f] == store[f]
  {
    var p := PendingFile(origin);
    var v := VisitedFile(origin);
    assert p != v;
    var r := store[p := Pickled(st.toDownload)][v := Pickled(st.downloaded)];
    assert r[p] == Pickled(st.toDownload) && r[v] == Pickled(st.downloaded);
    r
  }

  /** The start of a run: the loaded session when resuming succeeds, else the seed alone. */
  function Init(seed: string, resume: bool, loaded: Option<State>): (r: State)
    ensures resume && loaded.Some? ==> r == loaded.value
    ensures !resume || loaded.None? ==> r.toDownload == {seed} && r.downloaded == {}
  {
    if resume && loaded.Some? then loaded.value else State({seed}, {})
  }

  /** Resuming after a checkpoint starts exactly from the checkpointed sets. */
  lemma ResumeAfterSave(store: Store, origin: string, seed: string, st: State)
    ensures Init(seed, true, Load(Save(store, origin, st), origin)) == st
  {
  }
}
