/**
 * The match-history scraper of the package (src/cs2_demo_downloader/match_scraper.py): pick the
 * session file, reach the personal game data page, load the match table, turn its rows into
 * records and hand the demo URLs of each tab to the downloader.
 *
 * The date parser (`strptime` with the `%Y-%m-%d %H:%M:%S %Z` format, read as UTC) is the
 * oracle `parseDate`, giving seconds or `None` when it would raise; `now` is the current time in
 * the same seconds.
 */
module MatchScraper {
  import opened Wrappers
  import opened Seqs
  import opened Html
  import opened Browser
  import opened Parsing
  import Downloader

  // ---------------------------------------------------------------------------------------------
  // Authentication

  const PickleSuffix: string := ".pickle"

  /** What authenticate does with the session file: unpickle it, or log in and pickle a new one. */
  datatype AuthPlan = LoadPickle(path: string) | CreatePickle(path: string)

  function PlanPath(p: AuthPlan): string {
    match p
    case LoadPickle(path) => path
    case CreatePickle(path) => path
  }

  /** authenticate: a missing or empty username is replaced by the one typed at the prompt; the
      session file is `<username>.pickle`; it is loaded exactly when it exists and re-authentication
      is not forced. Returns the plan and the username. */
  function Authenticate(username: Option<string>, typed: string, pickleExists: string -> bool, force: bool)
    : (r: (AuthPlan, string))
    ensures r.1 == if username == None || username == Some("") then typed else username.value
    ensures PlanPath(r.0) == r.1 + PickleSuffix
    ensures r.0.LoadPickle? <==> pickleExists(r.1 + PickleSuffix) && !force
  {
    var name := if username.None? || username.value == "" then typed else username.value;
    var path := name + PickleSuffix;
    if pickleExists(path) && !force then (LoadPickle(path), name) else (CreatePickle(path), name)
  }

  /** The re-authentication of goto_personal_data (`authenticate(None, None, True)`) always logs
      in anew, under the typed username. */
  lemma ForcedAuthenticationCreates(typed: string, pickleExists: string -> bool)
    ensures Authenticate(None, typed, pickleExists, true) == (CreatePickle(typed + PickleSuffix), typed)
  {
  }

  // ---------------------------------------------------------------------------------------------
  // Loading the match table

  const GcpdPrefix: string := "https://steamcommunity.com/my/gcpd/730/?tab=matchhistory"

  /** The personal game data URL of a match-history tab. */
  function GcpdUrl(tab: string): string {
    GcpdPrefix + tab
  }

  const ExtraClicks: nat := 4

  /** fetch_match_table: click load-more while the table is empty, then four more times, and parse
      the `csgo_scoreboard_root` table out of the content. */
  method FetchMatchTable(page: Page) returns (table: Option<Table>)
    requires Populates(page.site, page.clicks)
    modifies page
    ensures page.clicks == FirstPopulated(page.site, old(page.clicks)) + ExtraClicks
    ensures table == page.site.content(page.clicks)
    ensures page.visited == old(page.visited) && page.cookies == old(page.cookies)
  {
    LoadUntilPopulated(page);
    for i := 0 to ExtraClicks
      invariant page.clicks == FirstPopulated(page.site, old(page.clicks)) + i
      invariant page.visited == old(page.visited) && page.cookies == old(page.cookies)
    {
      page.ClickLoadMore();
    }
    table := page.site.content(page.clicks);
  }

  // ---------------------------------------------------------------------------------------------
  // One match row

  /** Thirty minutes, in seconds. */
  const RecentWindow: int := 30 * 60

  /** The recency rule: a match dated within the last thirty minutes, both ends included, is skipped. */
  predicate TooRecent(date: int, now: int) {
    now - RecentWindow <= date <= now
  }

  /** The recency window is closed at both ends; older matches and matches dated in the future are kept. */
  lemma TooRecentBounds(now: int)
    ensures TooRecent(now - RecentWindow, now) && TooRecent(now, now)
    ensures !TooRecent(now - RecentWindow - 1, now) && !TooRecent(now + 1, now)
    ensures forall d :: TooRecent(d, now) <==> 0 <= now - d <= 1800
  {
  }

  /** parse_player_info on a player body: the score cell's text and the players, or `(None, None)`
      when the body has no rows. A body without a score cell raises AttributeError. */
  function PlayerInfo(body: seq<Item>): Result<(Option<string>, Option<map<string, Stats>>), Crash> {
    match FindCell(BodyContent(body), ScoreClass)
    case None => Err(AttributeError)
    case Some(scoreCell) =>
      var rows := RowsOf(BodyContent(body));
      if rows == [] then Ok((None, None))
      else
        match Players(ValidPlayerRows(rows))
        case Err(e) => Err(e)
        case Ok(players) => Ok((Some(scoreCell.text), Some(players)))
  }

  /** The score lookup comes first, so a body without a score cell fails before the row check;
      `(None, None)` needs a score cell (a stray one) and no rows; otherwise the players come
      from the valid rows. */
  lemma PlayerInfoCases(body: seq<Item>)
    ensures var r := PlayerInfo(body);
      && (FindCell(BodyContent(body), ScoreClass).None? ==> r == Err(AttributeError))
      && (r == Ok((None, None)) <==>
            FindCell(BodyContent(body), ScoreClass).Some? && RowsOf(BodyContent(body)) == [])
      && (r.Ok? && r.value.1.Some? ==>
            && r.value.0 == Some(FindCell(BodyContent(body), ScoreClass).value.text)
            && Ok(r.value.1.value) == Players(ValidPlayerRows(RowsOf(BodyContent(body)))))
      && (FindCell(BodyContent(body), ScoreClass).Some? && RowsOf(BodyContent(body)) != [] ==>
            var players := Players(ValidPlayerRows(RowsOf(BodyContent(body))));
            && (r.Ok? <==> players.Ok?)
            && (r.Ok? ==> r.value == (Some(FindCell(BodyContent(body), ScoreClass).value.text), Some(players.value)))
            && (r.Err? ==> r.error == players.error))
  {
  }

  /** parse_player_info. */
  method ParsePlayerInfo(body: seq<Item>) returns (r: Result<(Option<string>, Option<map<string, Stats>>), Crash>)
    ensures r == PlayerInfo(body)
  {
    var scoreCell := FindCell(BodyContent(body), ScoreClass);
    if scoreCell.None? {
      return Err(AttributeError);
    }
    var rows := RowsOf(BodyContent(body));
    if rows == [] {
      return Ok((None, None));
    }
    var players := CollectPlayers(ValidPlayerRows(rows));
    if players.Err? {
      return Err(players.error);
    }
    return Ok((Some(scoreCell.value.text), Some(players.value)));
  }

  /** The map part of a match row: the `match_info` dictionary and the download URL. A row
      without the inner-left table raises AttributeError; one whose table has no body leaves
      `match_info` empty, so reading its date raises KeyError. */
  function MapPart(row: Row): Result<(MatchInfo, Option<string>), Crash> {
    match FindTable(RowContent(row), InnerLeftClass)
    case None => Err(AttributeError)
    case Some(left) =>
      if !left.hasBody then Err(KeyError)
      else
        var (texts, url) := ParseMapInfo(left.body);
        match MatchInfoOf(texts)
        case Err(e) => Err(e)
        case Ok(info) => Ok((info, url))
  }

  /** The map part in each case: AttributeError without the inner-left table, KeyError without
      its body, IndexError with fewer than five map texts; otherwise the dictionary of the first
      five texts, with an empty score, and the body's download URL. */
  lemma MapPartCases(row: Row)
    ensures var left := FindTable(RowContent(row), InnerLeftClass);
      && (left.None? ==> MapPart(row) == Err(AttributeError))
      && (left.Some? && !left.value.hasBody ==> MapPart(row) == Err(KeyError))
      && (left.Some? && left.value.hasBody ==>
            var texts := MapTexts(BodyTexts(left.value.body));
            && (|texts| < 5 ==> MapPart(row) == Err(IndexError))
            && (|texts| >= 5 ==>
                  MapPart(row) == Ok((MatchInfo(texts[0], texts[1], texts[2], texts[3], texts[4], Some("")),
                                      DownloadUrl(left.value.body)))))
  {
  }

  /** The body of the loop of scrape_matches for one row: `Ok(None)` when the row is skipped. */
  function ScrapeRow(row: Row, parseDate: string -> Option<int>, now: int): Result<Option<Record>, Crash> {
    match MapPart(row)
    case Err(e) => Err(e)
    case Ok((info, url)) =>
      match parseDate(info.date)
      case None => Err(ValueError)
      case Some(date) =>
        if TooRecent(date, now) then Ok(None)
        else
          match FindTable(RowContent(row), InnerRightClass)
          case None => Err(AttributeError)
          case Some(right) =>
            if !right.hasBody then Ok(None)
            else
              match PlayerInfo(right.body)
              case Err(e) => Err(e)
              case Ok((score, players)) => Ok(Some(Record(url, info.(score := score), players)))
  }

  /** A record is emitted only for a row whose date parses to a time outside the recency window
      and that has both inner tables with bodies; its URL is the map body's download URL and its
      map, date, ranked, wait time and duration are the first five map texts. */
  lemma ScrapeRowRecord(row: Row, parseDate: string -> Option<int>, now: int)
    requires ScrapeRow(row, parseDate, now).Ok? && ScrapeRow(row, parseDate, now).value.Some?
    ensures var rec := ScrapeRow(row, parseDate, now).value.value;
      && var left := FindTable(RowContent(row), InnerLeftClass);
      && left.Some? && left.value.hasBody
      && rec.url == DownloadUrl(left.value.body)
      && var texts := MapTexts(BodyTexts(left.value.body));
      && |texts| >= 5
      && [rec.info.mapName, rec.info.date, rec.info.ranked, rec.info.waitTime, rec.info.duration] == texts[..5]
      && parseDate(rec.info.date).Some? && !TooRecent(parseDate(rec.info.date).value, now)
      && var right := FindTable(RowContent(row), InnerRightClass);
      && right.Some? && right.value.hasBody
      && PlayerInfo(right.value.body) == Ok((rec.info.score, rec.players))
  {
  }

  /** The converse of `ScrapeRowRecord`: a row whose map part, date and player table all succeed,
      outside the recency window, yields exactly the record built from them. */
  lemma ScrapeRowEmits(row: Row, parseDate: string -> Option<int>, now: int, info: MatchInfo, url: Option<string>,
                       date: int, right: Table, score: Option<string>, players: Option<map<string, Stats>>)
    requires MapPart(row) == Ok((info, url))
    requires parseDate(info.date) == Some(date) && !TooRecent(date, now)
    requires FindTable(RowContent(row), InnerRightClass) == Some(right) && right.hasBody
    requires PlayerInfo(right.body) == Ok((score, players))
    ensures ScrapeRow(row, parseDate, now) == Ok(Some(Record(url, info.(score := score), players)))
  {
  }

  /** Every other outcome of a row, in the order the loop body meets them: the map part's
      exception, ValueError for a date that does not parse, a skip inside the recency window,
      AttributeError without the inner-right table, a skip without its body, and the player
      table's exception. */
  lemma ScrapeRowCases(row: Row, parseDate: string -> Option<int>, now: int)
    ensures var r := ScrapeRow(row, parseDate, now);
      && (MapPart(row).Err? ==> r == Err(MapPart(row).error))
      && (MapPart(row).Ok? ==>
            var info := MapPart(row).value.0;
            var date := parseDate(info.date);
            var right := FindTable(RowContent(row), InnerRightClass);
            && (date.None? ==> r == Err(ValueError))
            && (date.Some? && TooRecent(date.value, now) ==> r == Ok(None))
            && (date.Some? && !TooRecent(date.value, now) ==>
                  && (right.None? ==> r == Err(AttributeError))
                  && (right.Some? && !right.value.hasBody ==> r == Ok(None))
                  && (right.Some? && right.value.hasBody && PlayerInfo(right.value.body).Err? ==>
                        r == Err(PlayerInfo(right.value.body).error))))
    ensures ScrapeRow(row, parseDate, now) == Ok(None) <==>
      && MapPart(row).Ok?
      && var date := parseDate(MapPart(row).value.0.date);
      && date.Some?
      && (TooRecent(date.value, now) ||
          var right := FindTable(RowContent(row), InnerRightClass); right.Some? && !right.value.hasBody)
  {
  }

  /** A match inside the recency window yields no record, whatever its player table holds. */
  lemma TooRecentRowSkipped(row: Row, parseDate: string -> Option<int>, now: int)
    requires MapPart(row).Ok?
    requires var date := parseDate(MapPart(row).value.0.date); date.Some? && TooRecent(date.value, now)
    ensures ScrapeRow(row, parseDate, now) == Ok(None)
  {
  }

  // ---------------------------------------------------------------------------------------------
  // The match table

  /** The rows that contain a `val_left` cell, in order. */
  function MatchRows(rows: seq<Row>): (r: seq<Row>)
    ensures |r| <= |rows|
  {
    if rows == [] then []
    else (if HasCell(RowContent(rows[0]), ValLeftClass) then [rows[0]] else []) + MatchRows(rows[1..])
  }

  /** A row is a match row exactly when it is one of the rows and holds a `val_left` cell. */
  lemma {:induction false} MatchRowsMembers(rows: seq<Row>)
    ensures forall x :: x in MatchRows(rows) <==> x in rows && HasCell(RowContent(x), ValLeftClass)
  {
    if rows != [] {
      MatchRowsMembers(rows[1..]);
      assert forall x :: x in rows <==> x == rows[0] || x in rows[1..];
    }
  }

  /** The filter keeps the order of the rows. */
  lemma {:induction false} MatchRowsAppend(a: seq<Row>, b: seq<Row>)
    ensures MatchRows(a + b) == MatchRows(a) + MatchRows(b)
  {
    if a == [] {
      assert a + b == b;
    } else {
      var head := if HasCell(RowContent(a[0]), ValLeftClass) then [a[0]] else [];
      assert (a + b)[0] == a[0];
      assert (a + b)[1..] == a[1..] + b;
      assert MatchRows(a + b) == head + MatchRows(a[1..] + b);
      MatchRowsAppend(a[1..], b);
      assert head + (MatchRows(a[1..]) + MatchRows(b)) == (head + MatchRows(a[1..])) + MatchRows(b);
    }
  }

  /** Every row scraped, in order. */
  function ScrapeRows(rows: seq<Row>, parseDate: string -> Option<int>, now: int): (r: seq<Result<Option<Record>, Crash>>)
    ensures |r| == |rows|
  {
    if rows == [] then [] else [ScrapeRow(rows[0], parseDate, now)] + ScrapeRows(rows[1..], parseDate, now)
  }

  /** The `k`-th result is the scrape of the `k`-th row. */
  lemma {:induction false} ScrapeRowsAt(rows: seq<Row>, parseDate: string -> Option<int>, now: int)
    ensures forall k :: 0 <= k < |rows| ==> ScrapeRows(rows, parseDate, now)[k] == ScrapeRow(rows[k], parseDate, now)
  {
    if rows != [] {
      ScrapeRowsAt(rows[1..], parseDate, now);
    }
  }

  /** The records of the loop of scrape_matches over `rows`: the first exception ends it. */
  function Records(rows: seq<Row>, parseDate: string -> Option<int>, now: int): Result<seq<Record>, Crash> {
    Gather(ScrapeRows(rows, parseDate, now))
  }

  /** At most one record per row, and none that ScrapeRow does not produce. */
  lemma RecordsFromRows(rows: seq<Row>, parseDate: string -> Option<int>, now: int)
    requires Records(rows, parseDate, now).Ok?
    ensures |Records(rows, parseDate, now).value| <= |rows|
    ensures forall rec :: rec in Records(rows, parseDate, now).value ==>
      exists i :: 0 <= i < |rows| && ScrapeRow(rows[i], parseDate, now) == Ok(Some(rec))
  {
    GatherFrom(ScrapeRows(rows, parseDate, now));
    ScrapeRowsAt(rows, parseDate, now);
  }

  /** The loop of scrape_matches finishes exactly when no row raises. */
  lemma RecordsOkIff(rows: seq<Row>, parseDate: string -> Option<int>, now: int)
    ensures Records(rows, parseDate, now).Ok? <==> forall i :: 0 <= i < |rows| ==> ScrapeRow(rows[i], parseDate, now).Ok?
  {
    GatherOkIff(ScrapeRows(rows, parseDate, now));
    ScrapeRowsAt(rows, parseDate, now);
  }

  /** The first row that raises ends the loop with its exception. */
  lemma RecordsFirstError(rows: seq<Row>, parseDate: string -> Option<int>, now: int, i: nat)
    requires i < |rows| && ScrapeRow(rows[i], parseDate, now).Err?
    requires forall j :: 0 <= j < i ==> ScrapeRow(rows[j], parseDate, now).Ok?
    ensures Records(rows, parseDate, now) == Err(ScrapeRow(rows[i], parseDate, now).error)
  {
    ScrapeRowsAt(rows, parseDate, now);
    GatherFirstError(ScrapeRows(rows, parseDate, now), i);
  }

  /** Every row that yields a record contributes it, between the records of the rows before it
      and those of the rows after it. */
  lemma RecordsEmitting(rows: seq<Row>, parseDate: string -> Option<int>, now: int, i: nat, rec: Record)
    requires Records(rows, parseDate, now).Ok?
    requires i < |rows| && ScrapeRow(rows[i], parseDate, now) == Ok(Some(rec))
    ensures Records(rows[..i], parseDate, now).Ok? && Records(rows[i + 1..], parseDate, now).Ok?
    ensures Records(rows, parseDate, now).value
         == Records(rows[..i], parseDate, now).value + [rec] + Records(rows[i + 1..], parseDate, now).value
  {
    var results := ScrapeRows(rows, parseDate, now);
    ScrapeRowsAt(rows, parseDate, now);
    assert results[i] == Ok(Some(rec));
    ScrapeRowsSlices(rows, parseDate, now, i);
    ScrapeRowsSlices(rows, parseDate, now, i + 1);
    GatherSplit(results, i);
  }

  /** Scraping a prefix or a suffix of the rows gives the same prefix or suffix of the results. */
  lemma ScrapeRowsSlices(rows: seq<Row>, parseDate: string -> Option<int>, now: int, i: nat)
    requires i <= |rows|
    ensures ScrapeRows(rows[..i], parseDate, now) == ScrapeRows(rows, parseDate, now)[..i]
    ensures ScrapeRows(rows[i..], parseDate, now) == ScrapeRows(rows, parseDate, now)[i..]
  {
    assert rows[..i] + rows[i..] == rows;
    ScrapeRowsAppend(rows[..i], rows[i..], parseDate, now);
  }

  /** Records keep the order of the rows: the records of a concatenation are the records of the
      first part followed by those of the second. */
  lemma RecordsAppend(a: seq<Row>, b: seq<Row>, parseDate: string -> Option<int>, now: int)
    requires Records(a, parseDate, now).Ok? && Records(b, parseDate, now).Ok?
    ensures Records(a + b, parseDate, now) == Ok(Records(a, parseDate, now).value + Records(b, parseDate, now).value)
  {
    ScrapeRowsAppend(a, b, parseDate, now);
    GatherAppend(ScrapeRows(a, parseDate, now), ScrapeRows(b, parseDate, now));
  }

  lemma {:induction false} ScrapeRowsAppend(a: seq<Row>, b: seq<Row>, parseDate: string -> Option<int>, now: int)
    ensures ScrapeRows(a + b, parseDate, now) == ScrapeRows(a, parseDate, now) + ScrapeRows(b, parseDate, now)
  {
    if a == [] {
      assert a + b == b;
    } else {
      var head := [ScrapeRow(a[0], parseDate, now)];
      assert (a + b)[0] == a[0];
      assert (a + b)[1..] == a[1..] + b;
      assert ScrapeRows(a + b, parseDate, now) == head + ScrapeRows(a[1..] + b, parseDate, now);
      ScrapeRowsAppend(a[1..], b, parseDate, now);
      assert head + (ScrapeRows(a[1..], parseDate, now) + ScrapeRows(b, parseDate, now))
          == (head + ScrapeRows(a[1..], parseDate, now)) + ScrapeRows(b, parseDate, now);
    }
  }

  /** What scrape_matches returns once the page is loaded: `None` without a match table or
      without `val_left` rows, the records otherwise. */
  function ScrapeTable(table: Option<Table>, parseDate: string -> Option<int>, now: int)
    : Result<Option<seq<Record>>, Crash>
  {
    match table
    case None => Ok(None)
    case Some(t) =>
      var matches := MatchRows(RowsOf(TableContent(t)));
      if matches == [] then Ok(None)
      else
        match Records(matches, parseDate, now)
        case Err(e) => Err(e)
        case Ok(recs) => Ok(Some(recs))
  }

  /** scrape_matches yields `None` exactly when there is no match table or no `val_left` row. */
  lemma ScrapeTableNone(table: Option<Table>, parseDate: string -> Option<int>, now: int)
    ensures ScrapeTable(table, parseDate, now) == Ok(None) <==>
      table.None? || MatchRows(RowsOf(TableContent(table.value))) == []
  {
  }

  /** With a match table and `val_left` rows, the scrape is the row loop over those rows: its
      records when no row raises, otherwise the exception of the first row that does. */
  lemma ScrapeTableRecords(table: Option<Table>, parseDate: string -> Option<int>, now: int)
    requires table.Some? && MatchRows(RowsOf(TableContent(table.value))) != []
    ensures var matches := MatchRows(RowsOf(TableContent(table.value)));
      var r := ScrapeTable(table, parseDate, now);
      && (r.Ok? <==> forall i :: 0 <= i < |matches| ==> ScrapeRow(matches[i], parseDate, now).Ok?)
      && (r.Ok? ==> r.value == Some(Records(matches, parseDate, now).value))
      && (r.Err? ==> Records(matches, parseDate, now).Err? && r.error == Records(matches, parseDate, now).error)
  {
    RecordsOkIff(MatchRows(RowsOf(TableContent(table.value))), parseDate, now);
  }

  /** The loop of scrape_matches: append the record of every row that yields one. */
  method CollectRecords(rows: seq<Row>, parseDate: string -> Option<int>, now: int)
    returns (r: Result<seq<Record>, Crash>)
    ensures r == Records(rows, parseDate, now)
  {
    var recent: seq<Record> := [];
    ghost var scraped := ScrapeRows(rows, parseDate, now);
    ScrapeRowsAt(rows, parseDate, now);
    for i := 0 to |rows|
      invariant Gather(scraped[..i]) == Ok(recent)
    {
      var rec := ScrapeRow(rows[i], parseDate, now);
      GatherStep(scraped, i, recent);
      if rec.Err? {
        return Err(rec.error);
      }
      if rec.value.Some? {
        recent := recent + [rec.value.value];
      }
    }
    assert scraped[..|rows|] == scraped;
    return Ok(recent);
  }

  /** The scrape needs the page to fill once navigation succeeds (the load-more loop has no bound). */
  ghost predicate Loads(site: Site, visits: nat, clicks: nat) {
    NavigationFails(site, visits) || Populates(site, clicks)
  }

  /** What scrape_matches returns on a page that has been navigated `visits` times and clicked
      `clicks` times. */
  ghost function ScrapeOn(site: Site, visits: nat, clicks: nat, parseDate: string -> Option<int>, now: int)
    : Result<Option<seq<Record>>, Crash>
    requires Loads(site, visits, clicks)
  {
    if NavigationFails(site, visits) then Ok(None)
    else ScrapeTable(site.content(FirstPopulated(site, clicks) + ExtraClicks), parseDate, now)
  }

  /** When navigation fails, the scrape yields nothing. */
  lemma ScrapeOnFails(site: Site, visits: nat, clicks: nat, parseDate: string -> Option<int>, now: int)
    requires NavigationFails(site, visits)
    ensures Loads(site, visits, clicks) && ScrapeOn(site, visits, clicks, parseDate, now) == Ok(None)
  {
  }

  /** Once navigation succeeds, the scrape is that of the table loaded by the clicks. */
  lemma ScrapeOnLoaded(site: Site, visits: nat, clicks: nat, parseDate: string -> Option<int>, now: int)
    requires Loads(site, visits, clicks) && !NavigationFails(site, visits)
    ensures Populates(site, clicks)
    ensures ScrapeOn(site, visits, clicks, parseDate, now)
         == ScrapeTable(site.content(FirstPopulated(site, clicks) + ExtraClicks), parseDate, now)
  {
  }

  /** scrape_matches on a browser page: set the session cookies, reach the tab's personal data
      page (`None` when that fails), load the table and collect the records. */
  method ScrapeMatches(page: Page, jar: seq<Cookie>, tab: string, parseDate: string -> Option<int>, now: int)
    returns (r: Result<Option<seq<Record>>, Crash>)
    requires Loads(page.site, |page.visited|, page.clicks)
    modifies page
    ensures r == ScrapeOn(page.site, |old(page.visited)|, old(page.clicks), parseDate, now)
    ensures page.cookies == old(page.cookies) + BrowserCookies(jar)
    ensures page.visited == old(page.visited) +
      if OnPersonalData(page.site.title(|old(page.visited)| + 1)) then [GcpdUrl(tab)] else [GcpdUrl(tab), GcpdUrl(tab)]
  {
    ghost var visits, clicks := |page.visited|, page.clicks;
    var ok := OpenTab(page, jar, tab);
    if !ok {
      ScrapeOnFails(page.site, visits, clicks, parseDate, now);
      return Ok(None);
    }
    ScrapeOnLoaded(page.site, visits, clicks, parseDate, now);
    var table := FetchMatchTable(page);
    var result := ScrapeTableOf(table, parseDate, now);
    return result;
  }

  /** The start of scrape_matches: give the browser the session cookies and go to the tab's
      personal data page. */
  method OpenTab(page: Page, jar: seq<Cookie>, tab: string) returns (ok: bool)
    modifies page
    ensures ok <==> !NavigationFails(page.site, |old(page.visited)|)
    ensures page.clicks == old(page.clicks)
    ensures page.cookies == old(page.cookies) + BrowserCookies(jar)
    ensures page.visited == old(page.visited) +
      if OnPersonalData(page.site.title(|old(page.visited)| + 1)) then [GcpdUrl(tab)] else [GcpdUrl(tab), GcpdUrl(tab)]
  {
    var cookies := ExtractCookies(jar);
    page.AddCookies(cookies);
    var reauthenticated;
    ok, reauthenticated := GotoPersonalData(page, GcpdUrl(tab));
  }

  /** The part of scrape_matches after the page is loaded. */
  method ScrapeTableOf(table: Option<Table>, parseDate: string -> Option<int>, now: int)
    returns (r: Result<Option<seq<Record>>, Crash>)
    ensures r == ScrapeTable(table, parseDate, now)
  {
    if table.None? {
      return Ok(None);
    }
    var matches := MatchRows(RowsOf(TableContent(table.value)));
    if matches == [] {
      return Ok(None);
    }
    var recs := CollectRecords(matches, parseDate, now);
    if recs.Err? {
      return Err(recs.error);
    }
    return Ok(Some(recs.value));
  }

  // ---------------------------------------------------------------------------------------------
  // download_matches

  /** The persisted side of the downloader: cache document, URLs requested, demo paths written. */
  datatype Store = Store(document: Option<seq<Downloader.Entry>>, requested: seq<string>, written: seq<string>)

  /** Why download_matches stopped early. */
  datatype Failure = Crashed(crash: Crash) | DownloadFailed(error: Downloader.DownloadError)

  /** One url_downloader call on the store. */
  function DownloadInto(st: Store, urls: seq<string>, folder: string, succeeds: string -> bool, now: int)
    : (Store, Option<Downloader.DownloadError>)
  {
    var run := Downloader.SessionRun(st.document, urls, succeeds, now);
    (Store(Some(run.files), st.requested + Downloader.Requests(run), st.written + Downloader.DemoPaths(folder, run.fetched)),
     run.failed)
  }

  /** Every tab's site fills its table once navigation succeeds, from a fresh page. */
  ghost predicate AllLoad(tabs: seq<string>, site: string -> Site) {
    forall i :: 0 <= i < |tabs| ==> Loads(site(tabs[i]), 0, 0)
  }

  /** One tab of download_matches: the tab is scraped on a fresh page; a tab whose scrape returns
      `None` leaves the store as it is; otherwise its URLs, possibly none, go to url_downloader
      with the tab as folder. */
  ghost function DownloadTab(st: Store, tab: string, site: Site, parseDate: string -> Option<int>,
                             succeeds: string -> bool, now: int): (Store, Option<Failure>)
    requires Loads(site, 0, 0)
  {
    match ScrapeOn(site, 0, 0, parseDate, now)
    case Err(c) => (st, Some(Crashed(c)))
    case Ok(None) => (st, None)
    case Ok(Some(recs)) =>
      var (next, failed) := DownloadInto(st, DownloadList(recs), tab, succeeds, now);
      (next, if failed.Some? then Some(DownloadFailed(failed.value)) else None)
  }

  /** download_matches over `tabs`: the tabs in order, until the first one that fails. */
  ghost function DownloadTabs(st: Store, tabs: seq<string>, site: string -> Site, parseDate: string -> Option<int>,
                              succeeds: string -> bool, now: int): (Store, Option<Failure>)
    requires AllLoad(tabs, site)
    decreases |tabs|
  {
    if tabs == [] then (st, None)
    else
      assert AllLoad(tabs[1..], site) by {
        forall i | 0 <= i < |tabs[1..]| ensures Loads(site(tabs[1..][i]), 0, 0) {
          assert tabs[1..][i] == tabs[i + 1];
        }
      }
      var (next, failure) := DownloadTab(st, tabs[0], site(tabs[0]), parseDate, succeeds, now);
      if failure.Some? then (next, failure)
      else DownloadTabs(next, tabs[1..], site, parseDate, succeeds, now)
  }

  /** A tab whose scrape returns `None` is skipped: nothing is downloaded and the next tab follows. */
  lemma SkippedTabKeepsStore(st: Store, tab: string, site: Site, parseDate: string -> Option<int>,
                             succeeds: string -> bool, now: int)
    requires Loads(site, 0, 0) && ScrapeOn(site, 0, 0, parseDate, now) == Ok(None)
    ensures DownloadTab(st, tab, site, parseDate, succeeds, now) == (st, None)
  {
  }

  /** A tab whose scrape returns an empty list is not skipped: url_downloader still loads the
      cache, evicts the old entries and saves the result, sending no request. */
  lemma EmptyTabEvictsAndSaves(st: Store, tab: string, site: Site, parseDate: string -> Option<int>,
                               succeeds: string -> bool, now: int)
    requires Loads(site, 0, 0) && ScrapeOn(site, 0, 0, parseDate, now) == Ok(Some([]))
    ensures DownloadTab(st, tab, site, parseDate, succeeds, now)
         == (Store(Some(Downloader.Retained(Downloader.Loaded(st.document), now)), st.requested, st.written), None)
  {
    assert DownloadList([]) == [];
    var run := Downloader.SessionRun(st.document, [], succeeds, now);
    assert run == Downloader.Run(Downloader.Retained(Downloader.Loaded(st.document), now), [], None);
    assert Downloader.Requests(run) == [];
    assert st.requested + [] == st.requested && st.written + [] == st.written;
  }

  /** Tabs are handled in order: the tabs of `a` first, then, unless one of them failed, those
      of `b` on the store `a` left. */
  lemma {:induction false} DownloadTabsAppend(st: Store, a: seq<string>, b: seq<string>, site: string -> Site,
                                              parseDate: string -> Option<int>, succeeds: string -> bool, now: int)
    requires AllLoad(a + b, site)
    ensures AllLoad(a, site) && AllLoad(b, site)
    ensures var (next, failure) := DownloadTabs(st, a, site, parseDate, succeeds, now);
      DownloadTabs(st, a + b, site, parseDate, succeeds, now)
        == if failure.Some? then (next, failure) else DownloadTabs(next, b, site, parseDate, succeeds, now)
    decreases |a|
  {
    assert AllLoad(a, site) by {
      forall i | 0 <= i < |a| ensures Loads(site(a[i]), 0, 0) {
        assert (a + b)[i] == a[i];
      }
    }
    assert AllLoad(b, site) by {
      forall i | 0 <= i < |b| ensures Loads(site(b[i]), 0, 0) {
        assert (a + b)[|a| + i] == b[i];
      }
    }
    if a == [] {
      assert a + b == b;
    } else {
      assert (a + b)[0] == a[0];
      assert (a + b)[1..] == a[1..] + b;
      var (next, failure) := DownloadTab(st, a[0], site(a[0]), parseDate, succeeds, now);
      if failure.None? {
        DownloadTabsAppend(next, a[1..], b, site, parseDate, succeeds, now);
      }
    }
  }

  /** The body of the loop of download_matches for one tab. */
  method ScrapeAndDownload(tab: string, site: Site, jar: seq<Cookie>, session: Downloader.HttpSession,
                           disk: Downloader.Disk, parseDate: string -> Option<int>, now: int)
    returns (failure: Option<Failure>)
    requires Loads(site, 0, 0)
    modifies session, disk
    ensures (Store(disk.document, session.requested, disk.written), failure)
         == DownloadTab(Store(old(disk.document), old(session.requested), old(disk.written)),
                        tab, site, parseDate, session.succeeds, now)
  {
    var page := new Page(site);
    var scraped := ScrapeMatches(page, jar, tab, parseDate, now);
    if scraped.Err? {
      return Some(Crashed(scraped.error));
    }
    if scraped.value.None? {
      return None;
    }
    var result := Downloader.UrlDownloader(session, DownloadList(scraped.value.value), tab, disk, now);
    if result.Fail? {
      return Some(DownloadFailed(result.error));
    }
    return None;
  }

  /** download_matches: for every tab, scrape it and download its demos into the tab's folder. */
  method DownloadMatches(tabs: seq<string>, site: string -> Site, jar: seq<Cookie>, session: Downloader.HttpSession,
                         disk: Downloader.Disk, parseDate: string -> Option<int>, now: int)
    returns (outcome: Outcome<Failure>)
    requires AllLoad(tabs, site)
    modifies session, disk
    ensures var (st, failure) := DownloadTabs(Store(old(disk.document), old(session.requested), old(disk.written)),
                                              tabs, site, parseDate, session.succeeds, now);
      && Store(disk.document, session.requested, disk.written) == st
      && outcome == (if failure.Some? then Fail(failure.value) else Pass)
  {
    ghost var expected := DownloadTabs(Store(disk.document, session.requested, disk.written),
                                   tabs, site, parseDate, session.succeeds, now);
    for i := 0 to |tabs|
      invariant AllLoad(tabs[i..], site)
      invariant DownloadTabs(Store(disk.document, session.requested, disk.written),
                             tabs[i..], site, parseDate, session.succeeds, now) == expected
    {
      assert tabs[i..][0] == tabs[i] && tabs[i..][1..] == tabs[i + 1..];
      var failure := ScrapeAndDownload(tabs[i], site(tabs[i]), jar, session, disk, parseDate, now);
      if failure.Some? {
        return Fail(failure.value);
      }
    }
    return Pass;
  }
}
