# cs2-demo-downloader in Dafny

A model of the core of cs2-demo-downloader, a tool that signs in to Steam, reads the Counter-Strike 2
match history ("Personal Game Data", `gcpd/730`) of an account and downloads the demo of each listed
match. Four parts are modelled:

- **The download cache** of `downloader.py` (`Downloader.dfy`). The cache document `cache.json`
  holds `{"files": [entry]}`, each entry a URL, a file name and a download time. A run loads it,
  evicts entries older than 60 days and saves it. It then walks the URLs: a cached URL is skipped,
  and a new one is fetched, written under `demos/<folder>/` and appended and saved at once. The
  first failing fetch ends the run, and so does the first fetched URL whose file name (empty for a
  URL ending in `/`, or `.` or `..`) names a directory, which cannot be opened for writing.
- **The package scraper** `src/cs2_demo_downloader/match_scraper.py` (`MatchScraper.dfy`, with
  `Browser.dfy` and `Parsing.dfy`):
  - choose the session file;
  - convert the session cookies for the browser;
  - reach the personal data page, re-authenticating once if the title is wrong;
  - click "load more" until the match table shows rows, then four more times;
  - scrape every row with a `val_left` cell. A row gives a record unless its match is from the
    last 30 minutes or it has no `csgo_scoreboard_inner_right` body. A row missing the inner-left
    table, its body, five map texts or a parseable date raises. A row outside the 30-minute window
    raises when it lacks the inner-right table, or when its player body lacks a score cell or
    holds a malformed player row. A raise ends the scrape;
  - hand each tab's non-empty demo URLs to the downloader, with the tab as the folder.
- **The legacy scraper**, the root `match_scraper.py` (`LegacyScraper.dfy`). It does the same job
  in one loop with different rules:
  - rows are chosen by their `style`;
  - the last map cell is always dropped;
  - every chosen row gives a record, unless a row raises, which ends the scrape;
  - scraping yields `False` when the session is not logged on.

  A row without a map body reuses, and shares, the `match_info` dictionary of the row before it.
- **`extract_community_id`** of `main.py` (`CommunityId.dfy`): the custom-URL segment after `id/` in
  a profile address.

`Html.dfy` is a small document model of the match page: tables, rows, cells and anchors in document
order, with the `find` / `find_all` lookups the scrapers use. `Seqs.dfy` and `Wrappers.dfy` hold
generic helpers.

Python exceptions are values (`Parsing.Crash`): AttributeError when a `.find(...)` that returned
`None` is dereferenced, IndexError for a too-short cell list, KeyError and ValueError for the date,
NameError for the legacy `match_info` used before it exists, and TypeError for unpacking `False`.

The environment is abstract:
- The network is the oracle `HttpSession.succeeds`.
- The working directory is a `Disk` object that holds the cache document and the demo paths written.
- The browser is a `Page` object over a `Site` oracle. The oracle gives the title after each
  navigation, the row count of the match-table locator after each click, and the parsed match table
  after each click.
- Time is integer seconds. `now` is one value per run; the date parser is the oracle `parseDate`.

## Model

| member | source | states |
|---|---|---|
| Downloader.FilenameFromUrl | downloader.py:38-39 | get_filename_from_url, `url.split("/")[-1]`, as the characters after the last `/`; what it returns is the contract of `FilenameIsLastSegment` |
| Downloader.TrailingSlashNamesDirectory | downloader.py:75-80 | a URL ending in `/` has the empty file name, which names the folder itself |
| Downloader.FetchError | downloader.py:72-80 | a new URL raises exactly when its request fails or its file name names a directory, and the exception names that URL |
| Downloader.FilenameIsLastSegment | downloader.py:38-39 | the file name holds no `/`, ends the URL, is preceded there by a `/` unless it is the whole URL, and is the whole URL when the URL has no `/` |
| Downloader.Lookup | downloader.py:42-46 | no entry is found exactly when no entry has the URL; a found entry has that URL |
| Downloader.LookupFirst | downloader.py:42-46 | the entry found is the first one whose URL matches |
| Downloader.IsCached | downloader.py:42-46 | the loop over the entries returns the first entry with the URL, or nothing |
| Downloader.Retained | downloader.py:57-62 | an entry is kept exactly when it is in the cache and at most 60 days old |
| Downloader.RetentionBoundary | downloader.py:60-61 | an entry exactly 60 days (5 184 000 s) old stays; one a second older goes |
| Downloader.RetainedAppend | downloader.py:57-62 | eviction keeps the entries in their original order |
| Downloader.RetainedAllFresh | downloader.py:57-62 | eviction leaves a cache of entries that are all recent unchanged |
| Downloader.RetainedIdempotent | downloader.py:55-63 | evicting twice at the same time is evicting once |
| Downloader.RetainedUnique | downloader.py:55-63 | eviction keeps "at most one entry per URL" |
| Downloader.LoadMetadata | downloader.py:25-29 | the loaded entries are those of the stored document, and none when no document exists |
| Downloader.SaveMetadata | downloader.py:33-35 | the stored document becomes the in-memory entries; no demo is written |
| Downloader.RemoveOldUrls | downloader.py:55-63 | the entries become the retained ones, and the stored document equals them afterwards |
| Downloader.HttpSession.Get | downloader.py:72-73 | every GET is recorded; it succeeds exactly when the network oracle says so |
| Downloader.DownloadFile | downloader.py:66-100 | a cached URL returns its entry's file name and `False`, sends no request and changes nothing. For a new URL one request is sent. On success exactly one entry (URL, last segment, now) is appended, the document is saved and `demos/<folder>/<name>` is written. A failed request returns HttpError, and a successful one whose file name names a directory returns IsADirectoryError; in both cases neither the entries, the document nor the demo files change |
| Downloader.DownloadEach | downloader.py:17-22 | the loop of url_downloader performs, requests, saves and writes exactly what `DownloadAll` over the URLs does |
| Downloader.DownloadAll | downloader.py:17-22 | the for-loop of url_downloader as a recursion over the URLs: a cached URL is passed over, a failing fetch or a file name naming a directory ends the run with that exception, any other new URL is appended as an entry and recorded as fetched; its properties are the contracts of the `DownloadAll…` lemmas below |
| Downloader.SessionRun | downloader.py:13-22 | a whole url_downloader call: `DownloadAll` over the loaded and evicted cache; its properties are the contracts of the `SessionRun…` lemmas below |
| Downloader.DemoPathsAt | downloader.py:75-78 | the `k`-th demo path written is `demos/<folder>/` followed by the file name of the `k`-th URL fetched |
| Downloader.UrlDownloader | downloader.py:13-22 | the stored document, the requests and the demo paths written are those of a run over the loaded and evicted cache; it fails, with that exception, exactly when the run ended at a URL that raised |
| Downloader.DownloadAllAppends | downloader.py:92-98 | a run appends exactly one new entry per downloaded URL, in order, and leaves the earlier entries untouched |
| Downloader.DownloadAllUnique | downloader.py:66-100 | a run keeps "at most one entry per URL", even when the URL list repeats a URL |
| Downloader.DownloadAllCachesAll | downloader.py:17-18 | after a run without failure every URL of the list is cached |
| Downloader.DownloadAllNoop | downloader.py:67-70 | when every URL is cached a run downloads nothing and changes nothing |
| Downloader.DownloadAllStopsAtFailure | downloader.py:72-80 | a failed run fails with the exception of a URL of the list that raises, after doing exactly what the run over the URLs before it does; the URLs after it are not processed |
| Downloader.SessionRunStable | downloader.py:14-15 | the cache a run leaves behind loses nothing to another eviction at the same time |
| Downloader.SessionRunExtends | downloader.py:14-18 | a run over a cache that eviction leaves as it is only appends to it |
| Downloader.SessionRunUnique | downloader.py:13-22 | a whole url_downloader call keeps "at most one entry per URL" |
| Downloader.SessionRunCachesAll | downloader.py:13-22 | after a call without failure every URL given is cached |
| Downloader.SecondRunDownloadsNothing | downloader.py:13-22 | a second call with the same URLs and time downloads nothing and leaves the cache as the first call left it |
| Browser.BrowserCookiesAt | src/cs2_demo_downloader/match_scraper.py:67-80 | the `k`-th browser cookie is the conversion of the `k`-th session cookie |
| Browser.ExtractCookies | src/cs2_demo_downloader/match_scraper.py:67-80 | one browser cookie per session cookie, in order: name, value, domain and path copied, `httpOnly` / `secure` true exactly when the `HttpOnly` / `Secure` attribute is truthy, `sameSite` always `"Lax"`; the list is `BrowserCookies(jar)` |
| Browser.TableEmpty | src/cs2_demo_downloader/match_scraper.py:97-107 | match_table_empty: no rows, or exactly one row holding a header cell; `TableEmptyRows` states it case by case |
| Browser.TableEmptyRows | src/cs2_demo_downloader/match_scraper.py:97-107 | zero rows is empty, two or more rows is not, and a single row is empty exactly when it holds a header cell |
| Browser.LoadUntilPopulated | src/cs2_demo_downloader/match_scraper.py:97-114 | clicking stops at the first click count at which the table is not empty: zero rows, or a single header row, counts as empty. Every count before it showed an empty table, and the page is not navigated |
| Browser.FirstPopulated | src/cs2_demo_downloader/match_scraper.py:113-114 | the number of clicks the loop makes is the least count from the start on that fills the table |
| Browser.GotoPersonalData | src/cs2_demo_downloader/match_scraper.py:83-94 | one navigation, and a second with re-authentication exactly when the first title lacks "Personal Game Data"; the result is false exactly when both titles lack it |
| Parsing.DownloadUrl | src/cs2_demo_downloader/match_scraper.py:124-129 | the URL is `""` without a `csgo_scoreboard_cell_noborder` cell; a URL other than `""` is the `href` of the first anchor in the first such cell |
| Parsing.DownloadUrlOfButton | src/cs2_demo_downloader/match_scraper.py:124-129 | when the first `csgo_scoreboard_cell_noborder` cell is at a given index, the URL is the `href` of the first anchor in that cell, or `""` when it holds no anchor |
| Parsing.ParseMapInfo | src/cs2_demo_downloader/match_scraper.py:123-134 | parse_map_info as the pair of `MapTexts` and `DownloadUrl`, whose contracts state it |
| Parsing.MapTexts | src/cs2_demo_downloader/match_scraper.py:131-133 | the cell texts, the last one dropped only when there are more than five |
| Parsing.MatchInfoOf | src/cs2_demo_downloader/match_scraper.py:217-224 | the dictionary exists exactly when there are at least five texts (IndexError otherwise); map, date, ranked, wait time and duration are texts 0 to 4, and the score starts empty |
| Parsing.ValidPlayerRows | src/cs2_demo_downloader/match_scraper.py:149 | the player rows are rows 1 to 5 and 7 onward, in order |
| Parsing.ValidPlayerRowsSkip | src/cs2_demo_downloader/match_scraper.py:149 | rows 0 and 6 never contribute: changing either leaves the player rows unchanged |
| Parsing.ParsePlayerRowCases | src/cs2_demo_downloader/match_scraper.py:152-164 | a row without a `linkTitle` anchor raises AttributeError; with fewer than eight cells it raises IndexError; otherwise the name is the anchor text and the stats are cells 1 to 7 as ping, kills, assists, deaths, mvp, hsp, score |
| Parsing.DictErrors | src/cs2_demo_downloader/match_scraper.py:150-165 | the players dictionary is built exactly when every row parses; otherwise the first failing row's exception is raised |
| Parsing.DictKeys | src/cs2_demo_downloader/match_scraper.py:165 | the names in the dictionary are exactly the parsed names |
| Parsing.DictLastWins | src/cs2_demo_downloader/match_scraper.py:165 | a name maps to the stats of the last row carrying it |
| Parsing.CollectPlayers | src/cs2_demo_downloader/match_scraper.py:150-166 | the loop over the player rows builds the dictionary `Players` of those rows, or raises its exception |
| Parsing.NonEmptyUrls | src/cs2_demo_downloader/match_scraper.py:23-25 | a URL is handed over exactly when some record has it and it is not empty |
| Parsing.NonEmptyUrlsAppend | src/cs2_demo_downloader/match_scraper.py:23-25 | the filter keeps the order of the URLs |
| Parsing.DownloadListAppend | src/cs2_demo_downloader/match_scraper.py:23-25 | the URLs handed over keep the order of the records |
| MatchScraper.Authenticate | src/cs2_demo_downloader/match_scraper.py:55-64 | a missing or empty username is replaced by the typed one; the session file is `<username>.pickle`; it is loaded exactly when that file exists and re-authentication is not forced, otherwise created |
| MatchScraper.ForcedAuthenticationCreates | src/cs2_demo_downloader/match_scraper.py:88 | the forced re-authentication always creates a new session file for the typed username |
| MatchScraper.FetchMatchTable | src/cs2_demo_downloader/match_scraper.py:110-120 | the page is clicked until the table fills and then exactly four more times; the table returned is the one shown after that many clicks |
| MatchScraper.TooRecentBounds | src/cs2_demo_downloader/match_scraper.py:229-235 | a match is too recent exactly when it is from the last 30 minutes, both ends included; older matches and matches dated in the future are kept |
| MatchScraper.PlayerInfo | src/cs2_demo_downloader/match_scraper.py:137-166 | parse_player_info on the player body; `PlayerInfoCases` states its cases |
| MatchScraper.PlayerInfoCases | src/cs2_demo_downloader/match_scraper.py:137-166 | no score cell raises AttributeError; the result is `(None, None)` exactly when there is a score cell but no rows; with a score cell and rows, it succeeds exactly when `Players` of the player rows does, its value is the score text and those players, and its error is theirs |
| MatchScraper.ParsePlayerInfo | src/cs2_demo_downloader/match_scraper.py:137-166 | the method computes `PlayerInfo` of the player body |
| MatchScraper.MapPartCases | src/cs2_demo_downloader/match_scraper.py:211-229 | the map part raises AttributeError without the inner-left table, KeyError without its body and IndexError with fewer than five map texts; otherwise it is the dictionary of the first five texts with an empty score, and the body's download URL |
| MatchScraper.ScrapeRow | src/cs2_demo_downloader/match_scraper.py:202-251 | one iteration of the row loop of scrape_matches; `ScrapeRowRecord`, `ScrapeRowEmits`, `ScrapeRowCases` and `TooRecentRowSkipped` state what it yields |
| MatchScraper.ScrapeRowRecord | src/cs2_demo_downloader/match_scraper.py:202-251 | a record comes only from a row with a map body and a player body. Its URL is the map body's download URL, its fields are the first five map texts, its date parses and is not too recent, and its score and players are those of the player table |
| MatchScraper.ScrapeRowEmits | src/cs2_demo_downloader/match_scraper.py:202-251 | the converse of `ScrapeRowRecord`: a row whose map part, date and player table succeed, outside the recency window, yields exactly the record of its URL, its dictionary with the score written in, and its players |
| MatchScraper.ScrapeRowCases | src/cs2_demo_downloader/match_scraper.py:202-251 | the other outcomes in loop order: the map part's exception, ValueError for an unparseable date, a skip in the recency window, AttributeError without the inner-right table, a skip without its body, the player table's exception. A row is skipped without error exactly when its map part and date succeed and it is too recent or has no player body |
| MatchScraper.TooRecentRowSkipped | src/cs2_demo_downloader/match_scraper.py:233-235 | a row whose match is too recent is skipped without error |
| MatchScraper.MatchRowsMembers | src/cs2_demo_downloader/match_scraper.py:194-195 | the rows kept are exactly those that hold a `val_left` cell |
| MatchScraper.MatchRowsAppend | src/cs2_demo_downloader/match_scraper.py:194-195 | the rows kept from two runs of rows are those kept from the first followed by those kept from the second |
| MatchScraper.RecordsFromRows | src/cs2_demo_downloader/match_scraper.py:202-251 | at most one record per row, each the record of one of the rows |
| MatchScraper.RecordsOkIff | src/cs2_demo_downloader/match_scraper.py:202-251 | the loop finishes exactly when no row raises |
| MatchScraper.RecordsFirstError | src/cs2_demo_downloader/match_scraper.py:202-251 | the loop raises the exception of the first row that raises |
| MatchScraper.RecordsEmitting | src/cs2_demo_downloader/match_scraper.py:202-251 | every row that yields a record contributes it, after the records of the rows before it and before those of the rows after it |
| MatchScraper.RecordsAppend | src/cs2_demo_downloader/match_scraper.py:202-251 | records come in row order: the records of two runs of rows are those of the first followed by those of the second |
| MatchScraper.CollectRecords | src/cs2_demo_downloader/match_scraper.py:202-251 | the loop over the rows yields `Records` of the rows, or their first exception |
| MatchScraper.ScrapeTable | src/cs2_demo_downloader/match_scraper.py:190-255 | the table part of scrape_matches; `ScrapeTableNone` and `ScrapeTableRecords` state what it returns |
| MatchScraper.ScrapeTableNone | src/cs2_demo_downloader/match_scraper.py:190-199 | the scrape returns `None` exactly when there is no match table or no row with a `val_left` cell |
| MatchScraper.ScrapeTableRecords | src/cs2_demo_downloader/match_scraper.py:190-255 | with a match table and `val_left` rows, the scrape succeeds exactly when no such row raises; it then gives the records of the row loop over them, and otherwise the loop's exception |
| MatchScraper.ScrapeOnFails | src/cs2_demo_downloader/match_scraper.py:183-185 | when both title checks fail the scrape returns `None` |
| MatchScraper.ScrapeOnLoaded | src/cs2_demo_downloader/match_scraper.py:186 | once the page is reached, the scrape parses the table shown after the first filling click count plus four |
| MatchScraper.OpenTab | src/cs2_demo_downloader/match_scraper.py:173-185 | the browser cookies added are `BrowserCookies` of the session cookies; the tab's `/my/gcpd/730/?tab=matchhistory<tab>` URL is visited once when the first title holds "Personal Game Data" and twice otherwise; success exactly when a title check passes |
| MatchScraper.ScrapeTableOf | src/cs2_demo_downloader/match_scraper.py:190-255 | the method returns `ScrapeTable` of the loaded table |
| MatchScraper.ScrapeMatches | src/cs2_demo_downloader/match_scraper.py:169-255 | the scrape of a tab on a page returns `ScrapeOn` of that page: `None` when the page cannot be reached, otherwise the parse of the loaded table. Cookies and visited URLs are as for `OpenTab` |
| MatchScraper.SkippedTabKeepsStore | src/cs2_demo_downloader/match_scraper.py:20-22 | a tab whose scrape returns `None` is skipped: no request, no write, no failure |
| MatchScraper.DownloadTabsAppend | src/cs2_demo_downloader/match_scraper.py:18 | tabs are processed in order, each on the cache the ones before it left, until one fails |
| MatchScraper.DownloadTab | src/cs2_demo_downloader/match_scraper.py:19-26 | one iteration of download_matches: a `None` scrape skips the tab, otherwise its non-empty record URLs go to url_downloader with the tab as folder |
| MatchScraper.EmptyTabEvictsAndSaves | src/cs2_demo_downloader/match_scraper.py:19-26 | a tab scraped to an empty list is not skipped: url_downloader still evicts and saves the cache, without any request or write |
| MatchScraper.ScrapeAndDownload | src/cs2_demo_downloader/match_scraper.py:19-26 | one tab: nothing happens when the scrape returns `None`; otherwise its non-empty record URLs, possibly none, go to url_downloader with the tab as folder |
| MatchScraper.DownloadMatches | src/cs2_demo_downloader/match_scraper.py:17-26 | the cache document, requests and demo paths after all tabs are those of `DownloadTabs`, and the outcome names the first failure |
| LegacyScraper.SelectedRowsMembers | match_scraper.py:111 | the rows chosen are exactly the rows whose `style` contains `display: table-row;` |
| LegacyScraper.SelectedRowsAppend | match_scraper.py:111 | the chosen rows keep the document order |
| LegacyScraper.TableInfoCells | match_scraper.py:137-148 | the last map cell is dropped whatever the count, so the dictionary is built exactly when there are at least six cells (IndexError otherwise); its fields are the texts of cells 0 to 4 and its score starts empty |
| LegacyScraper.Step | match_scraper.py:115-196 | one iteration of the legacy row loop on a row's parts; `StepCases` and `StepAppends` state what it does |
| LegacyScraper.StepCases | match_scraper.py:115-196 | a row succeeds exactly when it has a map table, a map body (if any) with six cells, a player table that has no body or has a score cell, a `match_info` built by it or an earlier row, and players that parse; otherwise it raises AttributeError, IndexError, NameError or the players' exception, in the order the loop body meets them |
| LegacyScraper.StepAppends | match_scraper.py:115-196 | a row that does not raise appends one record: its URL, its players, and the newest dictionary; the older dictionaries are untouched. With a map body the newest is a new one, with the row's score written into it. Without one it is the previous newest, with the row's score written into it when the row has a player body and unchanged otherwise |
| LegacyScraper.ScannedShape | match_scraper.py:115-196 | a successful scan holds one record per chosen row and each record holds an existing dictionary |
| LegacyScraper.RecordsPerRow | match_scraper.py:115-196 | one record per chosen row, in order, player table or not. It holds the row's download URL (`""` without a button), the row's players (`{}` without a player body), and, for a row without a map body, the same dictionary as the row before |
| LegacyScraper.FirstRowNeedsMap | match_scraper.py:141-160 | a first chosen row without a map body raises, since `match_info` does not exist yet |
| LegacyScraper.OwnerOfEntry | match_scraper.py:141-196 | the record of a row holds the dictionary that is newest right after that row |
| LegacyScraper.CurrentInfo | match_scraper.py:141-160 | while the rows after a row with a map body have none, the newest dictionary is that row's, with the score of the last of these rows that has a player body |
| LegacyScraper.Frozen | match_scraper.py:141-160 | a dictionary that is no longer the newest is never written again |
| LegacyScraper.MapRowKeeps | match_scraper.py:141-148 | a row with a map body adds one dictionary and leaves the older ones as they were |
| LegacyScraper.GroupLeft | match_scraper.py:141-160 | up to the next row with a map body, the newest dictionary is the one a row with a map body built |
| LegacyScraper.GroupFinal | match_scraper.py:141-160 | at the end, the dictionary a row with a map body built holds the score of the last row, up to the next row with a map body, that has a player body |
| LegacyScraper.GroupOwner | match_scraper.py:141-196 | a row with a map body and the rows after it without one all hold the dictionary that row built |
| LegacyScraper.GroupEntries | match_scraper.py:141-196 | each such row's record shows that dictionary as the scan leaves it |
| LegacyScraper.SharedRecords | match_scraper.py:137-196 | in a table where rows without a map body follow one that has it, each of their records and that row's own show that row's first five map texts and, as score, the score of the last row up to the next row with a map body that has a player body, or `""` when none has |
| LegacyScraper.FreshRecords | match_scraper.py:122-160 | when every chosen row has a map body, each record holds its own row's dictionary, with the row's score when its player body has a score cell |
| LegacyScraper.ScrapeTable | match_scraper.py:106-200 | the table part of scrape_match; `FolderIsTab` and `RecordsPerRow` state what it returns |
| LegacyScraper.FolderIsTab | match_scraper.py:200 | the scrape gives back the tab as the download folder, and no records without a match table |
| LegacyScraper.ReadMapSide | match_scraper.py:122-148 | the method reads the map table, its download URL and its dictionary as `MapSideOf` does |
| LegacyScraper.ReadPlayerSide | match_scraper.py:150-187 | the method reads the player table, its score cell and its players as `PlayerSideOf` does |
| LegacyScraper.StepRow | match_scraper.py:115-196 | the loop body builds, stamps and appends as `Step` does, raising the same exceptions in the same order |
| LegacyScraper.ScanRow | match_scraper.py:115-196 | one loop iteration on a row is `Step` on that row's parts |
| LegacyScraper.ScanRows | match_scraper.py:114-196 | the loop over the chosen rows is `Scanned` of their parts, stopping at the first exception |
| LegacyScraper.ScrapeTableOf | match_scraper.py:106-200 | the method returns `ScrapeTable` of the loaded table |
| LegacyScraper.ScrapeMatch | match_scraper.py:62-200 | not logged on: returns `False` without adding cookies, navigating or clicking. Logged on: the browser cookies added are `BrowserCookies` of the session cookies, the `/id/<community id>/gcpd/730/?tab=matchhistory<tab>` URL is visited once when the first title holds "Personal Game Data" and twice otherwise, the page is clicked to the first filling count, and the table it shows is parsed whatever the second title check said |
| LegacyScraper.LegacyDownload | match_scraper.py:16-20 | legacy download_matches on a loaded page; `NotLoggedOnFails` and `DownloadMatches` state what it does |
| LegacyScraper.NotLoggedOnFails | match_scraper.py:16-18 | not logged on, download_matches raises TypeError before the cache is touched |
| LegacyScraper.DownloadMatches | match_scraper.py:16-20 | the non-empty record URLs go to url_downloader with the tab as folder; the cache document, requests and demo paths are those of `LegacyDownload` |
| CommunityId.ExtractCommunityId | main.py:9-15 | extract_community_id; `PlainInputUnchanged`, `ExtractedSegment`, `NoneWhenNoSegment` and `ExtractIdempotent` state what it returns |
| CommunityId.SearchFrom | main.py:11 | the search finds the leftmost position of `id/` followed by a character other than `/`, and finds nothing exactly when there is none |
| CommunityId.SegmentEnd | main.py:11 | the captured group runs up to the next `/` or the end of the input |
| CommunityId.PlainInputUnchanged | main.py:14-15 | an input without `id/` comes back unchanged |
| CommunityId.ExtractedSegment | main.py:10-13 | with `id/`, a result is non-empty, holds no `/`, and is the maximal run of non-`/` characters right after the leftmost matching `id/` |
| CommunityId.NoneWhenNoSegment | main.py:10-13 | the result is `None` exactly when `id/` occurs but every occurrence is followed by `/` or by the end of the input |
| CommunityId.ExtractIdempotent | main.py:9-15 | extracting from a result gives the same result again |

## Left out

- I/O: the HTTP transport details of the download (streaming, `content-length`, the progress bar,
  `raise_for_status`), directory creation and the bytes written. A fetch succeeds or fails as the
  network oracle says, and a download is recorded as the demo path written.
- JSON (de)serialisation of `cache.json`: the document is kept as the entry list it encodes.
- The clock: `datetime.now()` is one integer `now` per run. ISO timestamps and the `%Z` date
  format of `strptime` are not modelled; the date parser is the oracle `parseDate`.
- Playwright: browser launch, user agent and context handling are not modelled. Navigation, the
  title, the load-more click, the row-count locator and the page content are the `Page` / `Site`
  oracle.
- BeautifulSoup: parsing is replaced by the `Html` datatypes; `get_text(strip=True)` is taken as
  the given text of a cell or anchor. A table holds at most one `tbody`; rows placed directly under
  a table, a second `tbody`, and a `find("tbody")` that reaches a `tbody` nested deeper are not
  represented.
- The `players_info` dictionary is a Dafny `map`, which has no order: the insertion order of the
  Python dict, and so the order of players in the output, is not modelled. Which names it holds
  and which stats each name has (the last row's) are.
- Steam WebAuth login, pickling of the session, and the `input` / `click.prompt` prompts. These are
  foreign and interactive. Only the session-file name and the load-or-create decision are kept
  (`MatchScraper.Authenticate`). The legacy `authenticate` relies on the same WebAuth and pickle
  calls and is not modelled.
- The session the forced re-authentication creates is not fed back into later requests. The
  browser cookies are those of the session passed in.
- Logging and `print`.
- Browser.LoadUntilPopulated: the loop has no bound in the source, so it is specified under the
  precondition that some number of clicks fills the table. A page that never fills, where the
  source loops for ever, is not modelled. The same holds for both scrapers. Neither scraper puts a
  retry ceiling on this loop, and the model adds none.
- `main` and `generate_new_settings` of main.py (TOML settings and command-line plumbing) are not
  part of this model; neither is client.py.
- The package imports its own `downloader` module. The modelled `downloader.py` is the root one,
  used as the cache of both scrapers.
- The legacy `match_info` dictionaries are modelled by handles, not by Python aliasing: the scan
  lists every dictionary created and each record names the one it holds. A score written later
  into a shared dictionary shows in every record that holds it (`SharedRecords`).
