/**
 * The demo download cache of downloader.py.
 *
 * The cache document (cache.json) holds `{"files": [entry]}`; each entry records the URL, the local
 * file name and the download time. Times are integer seconds. The network is an oracle
 * (`HttpSession.succeeds`: whether GET of that URL answers with a success status), and the working
 * directory is a `Disk` object holding the cache document and the list of demo paths written.
 */
module Downloader {
  import opened Wrappers

  const ExpiryDays: int := 60
  const SecondsPerDay: int := 86400
  /** 60 days = 5 184 000 seconds. */
  const ExpirySeconds: int := ExpiryDays * SecondsPerDay
  const DemosRoot: string := "demos/"

  datatype Entry = Entry(url: string, filename: string, downloadDate: int)

  /** The exceptions download_file lets through: `raise_for_status()` on a non-success response,
      and IsADirectoryError when `open(filepath, "wb")` is given a path that names a directory. */
  datatype DownloadError = HttpError(url: string) | DirectoryTarget(url: string)

  // ---------------------------------------------------------------------------------------------
  // Pure parts

  /** `url.split("/")[-1]`; `FilenameIsLastSegment` states what it returns. */
  function FilenameFromUrl(url: string): string {
    if url == [] then []
    else if url[|url| - 1] == '/' then []
    else FilenameFromUrl(url[..|url| - 1]) + [url[|url| - 1]]
  }

  /** The file name is the text after the last '/', or the whole URL when it has none. */
  lemma {:induction false} FilenameIsLastSegment(url: string)
    ensures var r := FilenameFromUrl(url);
      && '/' !in r
      && |r| <= |url| && url[|url| - |r|..] == r
      && (|r| < |url| ==> url[|url| - |r| - 1] == '/')
      && ('/' !in url ==> r == url)
  {
    if url != [] && url[|url| - 1] != '/' {
      var init := url[..|url| - 1];
      FilenameIsLastSegment(init);
      var r0 := FilenameFromUrl(init);
      assert url[|url| - |r0| - 1..] == init[|init| - |r0|..] + [url[|url| - 1]];
      if '/' !in url {
        assert forall k :: 0 <= k < |init| ==> init[k] == url[k];
      }
    }
  }

  /** A file name with which `os.path.join(folderpath, filename)` names the folder itself or its
      parent, so that opening it for writing raises IsADirectoryError. */
  predicate NamesDirectory(filename: string) {
    filename == "" || filename == "." || filename == ".."
  }

  /** A URL ending in `/` has an empty last segment: its file would be the folder itself. */
  lemma TrailingSlashNamesDirectory(url: string)
    requires url != [] && url[|url| - 1] == '/'
    ensures FilenameFromUrl(url) == "" && NamesDirectory(FilenameFromUrl(url))
  {
  }

  /** The exception download_file raises for a URL that is not cached, if any: the request fails,
      or it succeeds and the file name names a directory. */
  function FetchError(url: string, succeeds: string -> bool): (r: Option<DownloadError>)
    ensures r.Some? ==> r.value.url == url
    ensures r.None? <==> succeeds(url) && !NamesDirectory(FilenameFromUrl(url))
  {
    if !succeeds(url) then Some(HttpError(url))
    else if NamesDirectory(FilenameFromUrl(url)) then Some(DirectoryTarget(url))
    else None
  }

  /** Where download_file writes the demo: `demos/<folder>/<filename>`. */
  function DemoPath(folder: string, filename: string): string {
    DemosRoot + folder + "/" + filename
  }

  /** The demo paths written for the downloaded `urls`, in order. */
  function DemoPaths(folder: string, urls: seq<string>): (r: seq<string>)
    ensures |r| == |urls|
  {
    if urls == [] then [] else [DemoPath(folder, FilenameFromUrl(urls[0]))] + DemoPaths(folder, urls[1..])
  }

  /** The `k`-th path is that of the `k`-th URL's file name. */
  lemma {:induction false} DemoPathsAt(folder: string, urls: seq<string>)
    ensures forall k :: 0 <= k < |urls| ==> DemoPaths(folder, urls)[k] == DemoPath(folder, FilenameFromUrl(urls[k]))
  {
    if urls != [] {
      DemoPathsAt(folder, urls[1..]);
    }
  }

  /** The entry download_file appends for a fresh download of `url` at time `now`. */
  function NewEntry(url: string, now: int): Entry {
    Entry(url, FilenameFromUrl(url), now)
  }

  function NewEntries(urls: seq<string>, now: int): (r: seq<Entry>)
    ensures |r| == |urls|
  {
    if urls == [] then [] else [NewEntry(urls[0], now)] + NewEntries(urls[1..], now)
  }

  /** Every appended entry carries its own url and is stamped with the time of the run. */
  lemma {:induction false} NewEntriesAt(urls: seq<string>, now: int)
    ensures forall k :: 0 <= k < |urls| ==> NewEntries(urls, now)[k] == NewEntry(urls[k], now)
  {
    if urls != [] {
      NewEntriesAt(urls[1..], now);
    }
  }

  /** The first entry whose url equals `url` (is_cached); `LookupFirst` says it is the first. */
  function Lookup(files: seq<Entry>, url: string): (r: Option<Entry>)
    ensures r.None? <==> forall i :: 0 <= i < |files| ==> files[i].url != url
    ensures r.Some? ==> r.value.url == url
  {
    if files == [] then None
    else if files[0].url == url then Some(files[0])
    else Lookup(files[1..], url)
  }

  /** Lookup returns the entry at the first position holding the url. */
  lemma {:induction false} LookupFirst(files: seq<Entry>, url: string, i: nat)
    requires i < |files| && files[i].url == url
    requires forall j :: 0 <= j < i ==> files[j].url != url
    ensures Lookup(files, url) == Some(files[i])
  {
    if i > 0 {
      LookupFirst(files[1..], url, i - 1);
    }
  }

  predicate Cached(files: seq<Entry>, url: string) {
    Lookup(files, url).Some?
  }

  /** At most one entry per URL. */
  ghost predicate UniqueUrls(files: seq<Entry>) {
    forall i, j :: 0 <= i < j < |files| ==> files[i].url != files[j].url
  }

  /** The eviction test of remove_old_urls: an entry is kept when it is at most 60 days old. */
  predicate Fresh(e: Entry, now: int) {
    now - e.downloadDate <= ExpirySeconds
  }

  /** The entries remove_old_urls keeps, in their original order. */
  function Retained(files: seq<Entry>, now: int): (r: seq<Entry>)
    ensures |r| <= |files|
    ensures forall e :: e in r <==> e in files && Fresh(e, now)
  {
    if files == [] then []
    else (if Fresh(files[0], now) then [files[0]] else []) + Retained(files[1..], now)
  }

  /** What load_metadata returns: the stored entries, or an empty list when no document exists. */
  function Loaded(document: Option<seq<Entry>>): seq<Entry> {
    match document
    case None => []
    case Some(files) => files
  }

  // ---------------------------------------------------------------------------------------------
  // Specification of one url_downloader call

  /** What a url_downloader call did: the final entries, the URLs it downloaded and the exception
      that ended it, naming its URL (after which nothing more was processed). */
  datatype Run = Run(files: seq<Entry>, fetched: seq<string>, failed: Option<DownloadError>)

  /** The URLs a run sent a request for: the downloaded ones, then the failing one, whose request
      is sent in both kinds of failure. */
  function Requests(run: Run): seq<string> {
    run.fetched + (if run.failed.Some? then [run.failed.value.url] else [])
  }

  /** The for-loop of url_downloader over `urls`, starting from the entries `files`. */
  function DownloadAll(files: seq<Entry>, urls: seq<string>, succeeds: string -> bool, now: int): Run
    decreases |urls|
  {
    if urls == [] then Run(files, [], None)
    else if Cached(files, urls[0]) then DownloadAll(files, urls[1..], succeeds, now)
    else if FetchError(urls[0], succeeds).Some? then Run(files, [], FetchError(urls[0], succeeds))
    else
      var rest := DownloadAll(files + [NewEntry(urls[0], now)], urls[1..], succeeds, now);
      rest.(fetched := [urls[0]] + rest.fetched)
  }

  /** A whole url_downloader call against the stored document: load, evict, then download. */
  function SessionRun(document: Option<seq<Entry>>, urls: seq<string>, succeeds: string -> bool, now: int): Run {
    DownloadAll(Retained(Loaded(document), now), urls, succeeds, now)
  }

  // ---------------------------------------------------------------------------------------------
  // State

  /** The in-memory metadata dictionary; `files` is `metadata["files"]`. */
  class Metadata {
    var files: seq<Entry>

    constructor (files: seq<Entry>)
      ensures this.files == files
    {
      this.files := files;
    }
  }

  /** The working directory: cache.json (`None` when the file does not exist) and the demo files
      written so far, by path. */
  class Disk {
    var document: Option<seq<Entry>>
    var written: seq<string>

    constructor (document: Option<seq<Entry>>)
      ensures this.document == document && written == []
    {
      this.document := document;
      written := [];
    }
  }

  /** The HTTP session: `succeeds` is the server's answer per URL, `requested` the GETs sent. */
  class HttpSession {
    const succeeds: string -> bool
    var requested: seq<string>

    constructor (succeeds: string -> bool)
      ensures this.succeeds == succeeds && requested == []
    {
      this.succeeds := succeeds;
      requested := [];
    }

    /** `session.get(url, stream=True)` followed by `raise_for_status()`: true on success. */
    method Get(url: string) returns (ok: bool)
      modifies this
      ensures requested == old(requested) + [url]
      ensures ok == succeeds(url)
    {
      requested := requested + [url];
      ok := succeeds(url);
    }
  }

  // ---------------------------------------------------------------------------------------------
  // Operations

  /** load_metadata: the stored document, or `{"files": []}` when there is none. */
  method LoadMetadata(disk: Disk) returns (m: Metadata)
    ensures fresh(m)
    ensures m.files == Loaded(disk.document)
    ensures disk.document.None? ==> m.files == []
  {
    match disk.document
    case None => m := new Metadata([]);
    case Some(files) => m := new Metadata(files);
  }

  /** save_metadata: the persisted document becomes the in-memory metadata. */
  method SaveMetadata(m: Metadata, disk: Disk)
    modifies disk
    ensures disk.document == Some(m.files)
    ensures disk.written == old(disk.written)
  {
    disk.document := Some(m.files);
  }

  /** is_cached: the first entry with this exact url, or None. */
  method IsCached(url: string, files: seq<Entry>) returns (r: Option<Entry>)
    ensures r == Lookup(files, url)
  {
    for i := 0 to |files|
      invariant forall j :: 0 <= j < i ==> files[j].url != url
    {
      if files[i].url == url {
        LookupFirst(files, url, i);
        return Some(files[i]);
      }
    }
    return None;
  }

  /** remove_old_urls: keep the entries at most 60 days old, then persist. */
  method RemoveOldUrls(m: Metadata, disk: Disk, now: int)
    modifies m, disk
    ensures m.files == Retained(old(m.files), now)
    ensures disk.document == Some(m.files)
    ensures disk.written == old(disk.written)
  {
    m.files := Retained(m.files, now);
    SaveMetadata(m, disk);
  }

  /** download_file: skip a cached URL; otherwise fetch it, write the file, append one entry and
      persist. A failed request, or a file name that names a directory, raises before the metadata
      is touched. */
  method DownloadFile(session: HttpSession, url: string, m: Metadata, disk: Disk, folder: string, now: int)
    returns (r: Result<(string, bool), DownloadError>)
    modifies session, m, disk
    ensures Cached(old(m.files), url) ==>
      && r == Ok((Lookup(old(m.files), url).value.filename, false))
      && m.files == old(m.files)
      && disk.document == old(disk.document) && disk.written == old(disk.written)
      && session.requested == old(session.requested)
    ensures !Cached(old(m.files), url) ==> session.requested == old(session.requested) + [url]
    ensures !Cached(old(m.files), url) && session.succeeds(url) && !NamesDirectory(FilenameFromUrl(url)) ==>
      && r == Ok((FilenameFromUrl(url), true))
      && m.files == old(m.files) + [NewEntry(url, now)]
      && disk.document == Some(m.files)
      && disk.written == old(disk.written) + [DemoPath(folder, FilenameFromUrl(url))]
    ensures !Cached(old(m.files), url) && !session.succeeds(url) ==>
      && r == Err(HttpError(url))
      && m.files == old(m.files)
      && disk.document == old(disk.document) && disk.written == old(disk.written)
    ensures !Cached(old(m.files), url) && session.succeeds(url) && NamesDirectory(FilenameFromUrl(url)) ==>
      && r == Err(DirectoryTarget(url))
      && m.files == old(m.files)
      && disk.document == old(disk.document) && disk.written == old(disk.written)
  {
    var entry := IsCached(url, m.files);
    if entry.Some? {
      return Ok((entry.value.filename, false));
    }
    var ok := session.Get(url);
    if !ok {
      return Err(HttpError(url));
    }
    var filename := FilenameFromUrl(url);
    if filename == "" || filename == "." || filename == ".." {
      return Err(DirectoryTarget(url));
    }
    disk.written := disk.written + [DemoPath(folder, filename)];
    m.files := m.files + [Entry(url, filename, now)];
    SaveMetadata(m, disk);
    return Ok((filename, true));
  }

  /** url_downloader: load and evict once, then download every URL in order; the first exception of
      download_file propagates and the remaining URLs are not processed. */
  method UrlDownloader(session: HttpSession, urls: seq<string>, folder: string, disk: Disk, now: int)
    returns (outcome: Outcome<DownloadError>)
    modifies session, disk
    ensures var run := SessionRun(old(disk.document), urls, session.succeeds, now);
      && disk.document == Some(run.files)
      && session.requested == old(session.requested) + Requests(run)
      && disk.written == old(disk.written) + DemoPaths(folder, run.fetched)
      && outcome == (if run.failed.Some? then Fail(run.failed.value) else Pass)
  {
    var m := LoadMetadata(disk);
    RemoveOldUrls(m, disk, now);
    outcome := DownloadEach(session, urls, m, disk, folder, now);
  }

  /** The for-loop of url_downloader: download_file on each URL in turn, stopping at the first
      exception. */
  method DownloadEach(session: HttpSession, urls: seq<string>, m: Metadata, disk: Disk, folder: string, now: int)
    returns (outcome: Outcome<DownloadError>)
    requires disk.document == Some(m.files)
    modifies session, m, disk
    ensures var run := DownloadAll(old(m.files), urls, session.succeeds, now);
      && m.files == run.files
      && disk.document == Some(run.files)
      && session.requested == old(session.requested) + Requests(run)
      && disk.written == old(disk.written) + DemoPaths(folder, run.fetched)
      && outcome == (if run.failed.Some? then Fail(run.failed.value) else Pass)
  {
    ghost var start := m.files;
    ghost var run := DownloadAll(start, urls, session.succeeds, now);
    ghost var fetched: seq<string> := [];
    var i := 0;
    while i < |urls|
      invariant 0 <= i <= |urls|
      invariant disk.document == Some(m.files)
      invariant session.requested == old(session.requested) + fetched
      invariant disk.written == old(disk.written) + DemoPaths(folder, fetched)
      invariant Resumes(start, m.files, urls, i, fetched, session.succeeds, now)
    {
      ghost var files := m.files;
      var res := DownloadFile(session, urls[i], m, disk, folder, now);
      if res.Err? {
        assert !Cached(files, urls[i]) && FetchError(urls[i], session.succeeds) == Some(res.error);
        LoopFails(start, files, urls, i, fetched, session.succeeds, now, res.error);
        return Fail(res.error);
      }
      if res.value.1 {
        assert !Cached(files, urls[i]) && FetchError(urls[i], session.succeeds).None?;
        LoopFetches(start, files, urls, i, fetched, session.succeeds, now, folder);
        fetched := fetched + [urls[i]];
      } else {
        assert Cached(files, urls[i]);
        LoopStep(start, files, urls, i, fetched, session.succeeds, now);
      }
      i := i + 1;
    }
    LoopEnds(start, m.files, urls, fetched, session.succeeds, now);
    return Pass;
  }

  /** Loop invariant of url_downloader: the whole run from `start` is what was fetched so far,
      followed by the run over the remaining URLs from the current entries. */
  ghost predicate Resumes(start: seq<Entry>, files: seq<Entry>, urls: seq<string>, i: nat, fetched: seq<string>,
                          succeeds: string -> bool, now: int)
    requires i <= |urls|
  {
    var rest := DownloadAll(files, urls[i..], succeeds, now);
    DownloadAll(start, urls, succeeds, now) == rest.(fetched := fetched + rest.fetched)
  }

  /** One iteration of the loop of url_downloader, in each of its three cases. */
  lemma LoopStep(start: seq<Entry>, files: seq<Entry>, urls: seq<string>, i: nat, fetched: seq<string>,
                 succeeds: string -> bool, now: int)
    requires i < |urls| && Resumes(start, files, urls, i, fetched, succeeds, now)
    ensures Cached(files, urls[i]) ==> Resumes(start, files, urls, i + 1, fetched, succeeds, now)
    ensures !Cached(files, urls[i]) && FetchError(urls[i], succeeds).None? ==>
      Resumes(start, files + [NewEntry(urls[i], now)], urls, i + 1, fetched + [urls[i]], succeeds, now)
    ensures !Cached(files, urls[i]) && FetchError(urls[i], succeeds).Some? ==>
      DownloadAll(start, urls, succeeds, now) == Run(files, fetched, FetchError(urls[i], succeeds))
    ensures i + 1 == |urls| ==> DownloadAll(files, urls[i + 1..], succeeds, now) == Run(files, [], None)
  {
    DownloadAllUnfold(files, urls, i, succeeds, now);
    if !Cached(files, urls[i]) && FetchError(urls[i], succeeds).None? {
      var rest := DownloadAll(files + [NewEntry(urls[i], now)], urls[i + 1..], succeeds, now);
      assert fetched + ([urls[i]] + rest.fetched) == (fetched + [urls[i]]) + rest.fetched;
    }
  }

  /** The loop of url_downloader stops at a failing download: the run ends there, with that URL
      requested last. */
  lemma LoopFails(start: seq<Entry>, files: seq<Entry>, urls: seq<string>, i: nat, fetched: seq<string>,
                  succeeds: string -> bool, now: int, e: DownloadError)
    requires i < |urls| && Resumes(start, files, urls, i, fetched, succeeds, now)
    requires !Cached(files, urls[i]) && FetchError(urls[i], succeeds) == Some(e)
    ensures DownloadAll(start, urls, succeeds, now) == Run(files, fetched, Some(e))
    ensures Requests(DownloadAll(start, urls, succeeds, now)) == fetched + [urls[i]]
  {
    LoopStep(start, files, urls, i, fetched, succeeds, now);
  }

  /** The loop of url_downloader downloads a new URL: the run goes on from the extended entries,
      and the demo written is that of the URL's file name. */
  lemma LoopFetches(start: seq<Entry>, files: seq<Entry>, urls: seq<string>, i: nat, fetched: seq<string>,
                    succeeds: string -> bool, now: int, folder: string)
    requires i < |urls| && Resumes(start, files, urls, i, fetched, succeeds, now)
    requires !Cached(files, urls[i]) && FetchError(urls[i], succeeds).None?
    ensures Resumes(start, files + [NewEntry(urls[i], now)], urls, i + 1, fetched + [urls[i]], succeeds, now)
    ensures DemoPaths(folder, fetched + [urls[i]]) == DemoPaths(folder, fetched) + [DemoPath(folder, FilenameFromUrl(urls[i]))]
  {
    LoopStep(start, files, urls, i, fetched, succeeds, now);
    DemoPathsAppend(folder, fetched, [urls[i]]);
  }

  /** The loop of url_downloader runs out of URLs: the run is what was fetched so far. */
  lemma LoopEnds(start: seq<Entry>, files: seq<Entry>, urls: seq<string>, fetched: seq<string>,
                 succeeds: string -> bool, now: int)
    requires Resumes(start, files, urls, |urls|, fetched, succeeds, now)
    ensures DownloadAll(start, urls, succeeds, now) == Run(files, fetched, None)
    ensures Requests(DownloadAll(start, urls, succeeds, now)) == fetched
  {
    assert urls[|urls|..] == [];
    assert fetched + [] == fetched;
  }

  // ---------------------------------------------------------------------------------------------
  // Lemmas

  /** One iteration of the download loop. */
  lemma DownloadAllUnfold(files: seq<Entry>, urls: seq<string>, i: nat, succeeds: string -> bool, now: int)
    requires i < |urls|
    ensures DownloadAll(files, urls[i..], succeeds, now) ==
      if Cached(files, urls[i]) then DownloadAll(files, urls[i + 1..], succeeds, now)
      else if FetchError(urls[i], succeeds).Some? then Run(files, [], FetchError(urls[i], succeeds))
      else
        var rest := DownloadAll(files + [NewEntry(urls[i], now)], urls[i + 1..], succeeds, now);
        rest.(fetched := [urls[i]] + rest.fetched)
  {
    assert urls[i..][0] == urls[i];
    assert urls[i..][1..] == urls[i + 1..];
  }

  lemma {:induction false} DemoPathsAppend(folder: string, a: seq<string>, b: seq<string>)
    ensures DemoPaths(folder, a + b) == DemoPaths(folder, a) + DemoPaths(folder, b)
  {
    if a == [] {
      assert a + b == b;
    } else {
      assert (a + b)[0] == a[0];
      assert (a + b)[1..] == a[1..] + b;
      DemoPathsAppend(folder, a[1..], b);
    }
  }

  /** Eviction distributes over concatenation: it keeps entries in their original order. */
  lemma {:induction false} RetainedAppend(a: seq<Entry>, b: seq<Entry>, now: int)
    ensures Retained(a + b, now) == Retained(a, now) + Retained(b, now)
  {
    if a == [] {
      assert a + b == b;
    } else {
      var head := if Fresh(a[0], now) then [a[0]] else [];
      assert (a + b)[0] == a[0];
      assert (a + b)[1..] == a[1..] + b;
      RetainedAppend(a[1..], b, now);
      calc {
        Retained(a + b, now);
        head + Retained(a[1..] + b, now);
        head + (Retained(a[1..], now) + Retained(b, now));
        (head + Retained(a[1..], now)) + Retained(b, now);
        Retained(a, now) + Retained(b, now);
      }
    }
  }

  /** An entry exactly 60 days old stays; one a second older is evicted. */
  lemma RetentionBoundary(e: Entry, now: int)
    ensures Retained([e.(downloadDate := now - ExpirySeconds)], now) == [e.(downloadDate := now - ExpirySeconds)]
    ensures Retained([e.(downloadDate := now - ExpirySeconds - 1)], now) == []
  {
  }

  /** When every entry is fresh, eviction removes nothing. */
  lemma {:induction false} RetainedAllFresh(files: seq<Entry>, now: int)
    requires forall i :: 0 <= i < |files| ==> Fresh(files[i], now)
    ensures Retained(files, now) == files
  {
    if files != [] {
      RetainedAllFresh(files[1..], now);
    }
  }

  /** Evicting twice at the same time is evicting once. */
  lemma {:induction false} RetainedIdempotent(files: seq<Entry>, now: int)
    ensures Retained(Retained(files, now), now) == Retained(files, now)
  {
    var r := Retained(files, now);
    assert forall i :: 0 <= i < |r| ==> r[i] in r;
    RetainedAllFresh(r, now);
  }

  /** Eviction keeps "at most one entry per url". */
  lemma {:induction false} RetainedUnique(files: seq<Entry>, now: int)
    requires UniqueUrls(files)
    ensures UniqueUrls(Retained(files, now))
  {
    if files != [] {
      RetainedUnique(files[1..], now);
      var rest := Retained(files[1..], now);
      if Fresh(files[0], now) {
        forall j | 0 <= j < |rest|
          ensures files[0].url != rest[j].url
        {
          assert rest[j] in files[1..];
        }
      }
    }
  }

  /** A URL cached in a prefix stays cached (and maps to the same entry) in the extension. */
  lemma {:induction false} LookupExtend(a: seq<Entry>, b: seq<Entry>, url: string)
    requires Cached(a, url)
    ensures Lookup(a + b, url) == Lookup(a, url)
  {
    if a[0].url != url {
      assert (a + b)[1..] == a[1..] + b;
      LookupExtend(a[1..], b, url);
    }
  }

  /** The loop only appends, and what it appends is one new entry per downloaded URL, stamped now. */
  lemma {:induction false} DownloadAllAppends(files: seq<Entry>, urls: seq<string>, succeeds: string -> bool, now: int)
    ensures DownloadAll(files, urls, succeeds, now).files ==
            files + NewEntries(DownloadAll(files, urls, succeeds, now).fetched, now)
    decreases |urls|
  {
    if urls == [] {
    } else if Cached(files, urls[0]) {
      DownloadAllAppends(files, urls[1..], succeeds, now);
    } else if FetchError(urls[0], succeeds).None? {
      var next := files + [NewEntry(urls[0], now)];
      var rest := DownloadAll(next, urls[1..], succeeds, now);
      DownloadAllAppends(next, urls[1..], succeeds, now);
      assert NewEntries([urls[0]] + rest.fetched, now) == [NewEntry(urls[0], now)] + NewEntries(rest.fetched, now);
      calc {
        DownloadAll(files, urls, succeeds, now).files;
        rest.files;
        next + NewEntries(rest.fetched, now);
        files + NewEntries([urls[0]] + rest.fetched, now);
      }
    }
  }

  /** "At most one entry per url" survives the download loop, even with repeated input URLs. */
  lemma {:induction false} DownloadAllUnique(files: seq<Entry>, urls: seq<string>, succeeds: string -> bool, now: int)
    requires UniqueUrls(files)
    ensures UniqueUrls(DownloadAll(files, urls, succeeds, now).files)
    decreases |urls|
  {
    if urls != [] {
      if Cached(files, urls[0]) {
        DownloadAllUnique(files, urls[1..], succeeds, now);
      } else if FetchError(urls[0], succeeds).None? {
        var next := files + [NewEntry(urls[0], now)];
        assert UniqueUrls(next);
        DownloadAllUnique(next, urls[1..], succeeds, now);
      }
    }
  }

  /** After a run without failure, every input URL is cached. */
  lemma {:induction false} DownloadAllCachesAll(files: seq<Entry>, urls: seq<string>, succeeds: string -> bool, now: int)
    requires DownloadAll(files, urls, succeeds, now).failed.None?
    ensures forall u :: u in urls ==> Cached(DownloadAll(files, urls, succeeds, now).files, u)
    decreases |urls|
  {
    if urls != [] {
      var next := if Cached(files, urls[0]) then files else files + [NewEntry(urls[0], now)];
      var rest := DownloadAll(next, urls[1..], succeeds, now);
      assert DownloadAll(files, urls, succeeds, now).files == rest.files;
      if !Cached(files, urls[0]) {
        assert next[|files|].url == urls[0];
      }
      assert Cached(next, urls[0]);
      DownloadAllCachesAll(next, urls[1..], succeeds, now);
      DownloadAllAppends(next, urls[1..], succeeds, now);
      LookupExtend(next, NewEntries(rest.fetched, now), urls[0]);
      forall u | u in urls
        ensures Cached(rest.files, u)
      {
        if u != urls[0] {
          assert u in urls[1..];
        }
      }
    }
  }

  /** When every URL is already cached, the loop changes nothing and sends no request. */
  lemma {:induction false} DownloadAllNoop(files: seq<Entry>, urls: seq<string>, succeeds: string -> bool, now: int)
    requires forall u :: u in urls ==> Cached(files, u)
    ensures DownloadAll(files, urls, succeeds, now) == Run(files, [], None)
    decreases |urls|
  {
    if urls != [] {
      assert urls[0] in urls;
      assert forall u :: u in urls[1..] ==> u in urls;
      DownloadAllNoop(files, urls[1..], succeeds, now);
    }
  }

  /** The URLs after a failing one are not processed: the run equals the run over the URLs before
      it, plus the request of the URL that raised. */
  lemma {:induction false} DownloadAllStopsAtFailure(files: seq<Entry>, urls: seq<string>, succeeds: string -> bool, now: int)
    requires DownloadAll(files, urls, succeeds, now).failed.Some?
    ensures var run := DownloadAll(files, urls, succeeds, now);
      exists i :: 0 <= i < |urls| && run.failed == FetchError(urls[i], succeeds)
        && DownloadAll(files, urls[..i], succeeds, now) == run.(failed := None)
    decreases |urls|
  {
    var run := DownloadAll(files, urls, succeeds, now);
    if Cached(files, urls[0]) {
      DownloadAllStopsAtFailure(files, urls[1..], succeeds, now);
      var i :| 0 <= i < |urls[1..]| && run.failed == FetchError(urls[1..][i], succeeds)
        && DownloadAll(files, urls[1..][..i], succeeds, now) == run.(failed := None);
      assert urls[..i + 1][1..] == urls[1..][..i];
      assert urls[i + 1] == urls[1..][i];
    } else if FetchError(urls[0], succeeds).Some? {
      assert urls[..0] == [];
    } else {
      var next := files + [NewEntry(urls[0], now)];
      DownloadAllStopsAtFailure(next, urls[1..], succeeds, now);
      var rest := DownloadAll(next, urls[1..], succeeds, now);
      var i :| 0 <= i < |urls[1..]| && rest.failed == FetchError(urls[1..][i], succeeds)
        && DownloadAll(next, urls[1..][..i], succeeds, now) == rest.(failed := None);
      assert urls[..i + 1][1..] == urls[1..][..i];
      assert urls[i + 1] == urls[1..][i];
    }
  }

  // ---------------------------------------------------------------------------------------------
  // Properties of a whole url_downloader call

  /** A document that eviction at `now` leaves as it is. */
  predicate Stable(files: seq<Entry>, now: int) {
    Retained(files, now) == files
  }

  /** The document a run leaves behind is stable at the same time: a second eviction removes nothing. */
  lemma SessionRunStable(document: Option<seq<Entry>>, urls: seq<string>, succeeds: string -> bool, now: int)
    ensures Stable(SessionRun(document, urls, succeeds, now).files, now)
  {
    var base := Retained(Loaded(document), now);
    var run := DownloadAll(base, urls, succeeds, now);
    DownloadAllAppends(base, urls, succeeds, now);
    var added := NewEntries(run.fetched, now);
    NewEntriesAt(run.fetched, now);
    RetainedAppend(base, added, now);
    RetainedIdempotent(Loaded(document), now);
    RetainedAllFresh(added, now);
  }

  /** A run on a stable document only extends it. */
  lemma SessionRunExtends(files: seq<Entry>, urls: seq<string>, succeeds: string -> bool, now: int)
    requires Stable(files, now)
    ensures var r := SessionRun(Some(files), urls, succeeds, now).files; |files| <= |r| && r[..|files|] == files
  {
    DownloadAllAppends(files, urls, succeeds, now);
  }

  /** url_downloader keeps at most one entry per url in the persisted document. */
  lemma SessionRunUnique(document: Option<seq<Entry>>, urls: seq<string>, succeeds: string -> bool, now: int)
    requires UniqueUrls(Loaded(document))
    ensures UniqueUrls(SessionRun(document, urls, succeeds, now).files)
  {
    RetainedUnique(Loaded(document), now);
    DownloadAllUnique(Retained(Loaded(document), now), urls, succeeds, now);
  }

  /** After a call without failure every input URL is cached. */
  lemma SessionRunCachesAll(document: Option<seq<Entry>>, urls: seq<string>, succeeds: string -> bool, now: int)
    requires SessionRun(document, urls, succeeds, now).failed.None?
    ensures forall u :: u in urls ==> Cached(SessionRun(document, urls, succeeds, now).files, u)
  {
    DownloadAllCachesAll(Retained(Loaded(document), now), urls, succeeds, now);
  }

  /** Idempotence: a second call with the same URLs at the same time downloads nothing, sends no
      request and leaves the document as the first call left it. */
  lemma SecondRunDownloadsNothing(document: Option<seq<Entry>>, urls: seq<string>, succeeds: string -> bool, now: int)
    requires SessionRun(document, urls, succeeds, now).failed.None?
    ensures var first := SessionRun(document, urls, succeeds, now);
      SessionRun(Some(first.files), urls, succeeds, now) == Run(first.files, [], None)
  {
    var first := SessionRun(document, urls, succeeds, now);
    SessionRunStable(document, urls, succeeds, now);
    SessionRunCachesAll(document, urls, succeeds, now);
    DownloadAllNoop(first.files, urls, succeeds, now);
  }
}
