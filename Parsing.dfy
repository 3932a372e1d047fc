/**
 * The parsing shared by both scrapers: the map sub-table (cell texts and the demo download URL),
 * the player sub-table (rows by position, seven stats per player, later rows overwriting earlier
 * ones with the same name), the records they form, and the URL list handed to the downloader.
 *
 * Python exceptions are values: `.find(...)` returning `None` and then being dereferenced is an
 * `AttributeError`, a list index past the end an `IndexError`, and so on.
 */
module Parsing {
  import opened Wrappers
  import opened Seqs
  import opened Html

  /** The exceptions the scrapers can raise while parsing. */
  datatype Crash =
    | AttributeError  // a `.find(...)` that returned None was dereferenced
    | IndexError      // a list of cell texts was too short
    | KeyError        // `match_info["date"]` on an empty dict
    | ValueError      // `strptime` rejected the date text
    | NameError       // `match_info` read before any assignment
    | TypeError       // `False` unpacked as a pair

  const NoBorderClass: string := "csgo_scoreboard_cell_noborder"
  const ScoreClass: string := "csgo_scoreboard_score"
  const LinkTitleClass: string := "linkTitle"
  const InnerLeftClass: string := "csgo_scoreboard_inner_left"
  const InnerRightClass: string := "csgo_scoreboard_inner_right"
  const ValLeftClass: string := "val_left"

  /** A player's stats, in the order of the cells after the name cell. */
  datatype Stats = Stats(ping: string, kills: string, assists: string, deaths: string,
                         mvp: string, hsp: string, score: string)

  /** The `match_info` dictionary. `score` is `match_score`: `""` until the player table sets it, and
      `None` when parse_player_info found no player rows. */
  datatype MatchInfo = MatchInfo(mapName: string, date: string, ranked: string, waitTime: string,
                                 duration: string, score: Option<string>)

  /** One entry of `recent_matches`: `url` is `None` when the download anchor has no `href`;
      `players` is `None` when parse_player_info returned no player dictionary. */
  datatype Record = Record(url: Option<string>, info: MatchInfo, players: Option<map<string, Stats>>)

  // ---------------------------------------------------------------------------------------------
  // Python slicing

  function Min(a: int, b: int): int { if a <= b then a else b }

  /** `s[i:j]` for non-negative bounds: both ends are clamped to the length. */
  function Slice<T>(s: seq<T>, i: nat, j: nat): (r: seq<T>)
    ensures |r| == if Min(i, |s|) <= Min(j, |s|) then Min(j, |s|) - Min(i, |s|) else 0
    ensures forall k :: 0 <= k < |r| ==> r[k] == s[i + k]
  {
    var lo := Min(i, |s|);
    var hi := Min(j, |s|);
    if lo <= hi then s[lo..hi] else []
  }

  // ---------------------------------------------------------------------------------------------
  // The map sub-table

  /** The `href` of the anchor in the first `csgo_scoreboard_cell_noborder` cell of the map body:
      `""` when there is no such cell or it holds no anchor, `None` when the anchor has no `href`. */
  function DownloadUrl(body: seq<Item>): (r: Option<string>)
    ensures (forall c :: c in CellsOf(BodyContent(body)) ==> NoBorderClass !in c.classes) ==> r == Some("")
    ensures r != Some("") ==>
      exists i :: 0 <= i < |CellsOf(BodyContent(body))|
        && var button := CellsOf(BodyContent(body))[i];
        && NoBorderClass in button.classes
        && (forall j :: 0 <= j < i ==> NoBorderClass !in CellsOf(BodyContent(body))[j].classes)
        && FindAnchor(CellContent(button)).Some?
        && r == FindAnchor(CellContent(button)).value.href
  {
    match FindCell(BodyContent(body), NoBorderClass)
    case None => Some("")
    case Some(button) =>
      match FindAnchor(CellContent(button))
      case None => Some("")
      case Some(a) => a.href
  }

  /** With a first `csgo_scoreboard_cell_noborder` cell at index `i`, the URL is the `href` of
      the first anchor in it, or `""` when it holds none. */
  lemma DownloadUrlOfButton(body: seq<Item>, i: nat)
    requires i < |CellsOf(BodyContent(body))|
    requires NoBorderClass in CellsOf(BodyContent(body))[i].classes
    requires forall j :: 0 <= j < i ==> NoBorderClass !in CellsOf(BodyContent(body))[j].classes
    ensures var a := FindAnchor(CellContent(CellsOf(BodyContent(body))[i]));
      DownloadUrl(body) == if a.Some? then a.value.href else Some("")
  {
    var cells := CellsOf(BodyContent(body));
    var found := FindCell(BodyContent(body), NoBorderClass);
    assert found.Some? && found.value == cells[i];
  }

  /** parse_map_info's texts: every cell text when there are at most five, all but the last otherwise. */
  function MapTexts(texts: seq<string>): (r: seq<string>)
    ensures |r| == if |texts| > 5 then |texts| - 1 else |texts|
    ensures r == texts[..|r|]
  {
    if |texts| > 5 then texts[..|texts| - 1] else texts
  }

  /** The texts of every cell of a body (`find_all("td")`). */
  function BodyTexts(body: seq<Item>): seq<string> {
    Texts(CellsOf(BodyContent(body)))
  }

  /** parse_map_info on a map body: its texts and its download URL. */
  function ParseMapInfo(body: seq<Item>): (seq<string>, Option<string>) {
    (MapTexts(BodyTexts(body)), DownloadUrl(body))
  }

  /** The `match_info` dictionary built from the map texts: positions 0 to 4, `match_score` empty.
      Fewer than five texts raise IndexError. */
  function MatchInfoOf(texts: seq<string>): (r: Result<MatchInfo, Crash>)
    ensures r.Ok? <==> |texts| >= 5
    ensures r.Err? ==> r.error == IndexError
    ensures r.Ok? ==> [r.value.mapName, r.value.date, r.value.ranked, r.value.waitTime, r.value.duration] == texts[..5]
    ensures r.Ok? ==> r.value.score == Some("")
  {
    if |texts| < 5 then Err(IndexError)
    else Ok(MatchInfo(texts[0], texts[1], texts[2], texts[3], texts[4], Some("")))
  }

  // ---------------------------------------------------------------------------------------------
  // The player sub-table

  /** `player_rows[1:6] + player_rows[7:]`: the header row (0) and the score row (6) are dropped. */
  function ValidPlayerRows<T>(rows: seq<T>): (r: seq<T>)
    ensures |r| == if |rows| <= 1 then 0 else if |rows| <= 7 then Min(|rows| - 1, 5) else |rows| - 2
    ensures forall k :: 0 <= k < |r| ==> r[k] == rows[if k < 5 then k + 1 else k + 2]
  {
    Slice(rows, 1, 6) + Slice(rows, 7, |rows|)
  }

  /** Rows 0 and 6 never contribute: replacing either leaves the valid rows as they were. */
  lemma ValidPlayerRowsSkip<T>(rows: seq<T>, k: nat, x: T)
    requires k < |rows| && (k == 0 || k == 6)
    ensures ValidPlayerRows(rows[k := x]) == ValidPlayerRows(rows)
  {
    var a := ValidPlayerRows(rows[k := x]);
    var b := ValidPlayerRows(rows);
    assert |a| == |b|;
    forall i | 0 <= i < |a|
      ensures a[i] == b[i]
    {
      var p := if i < 5 then i + 1 else i + 2;
      assert p != k;
    }
  }

  /** `[s.get_text(strip=True) for s in player.find_all("td")[1:]]`. */
  function StatTexts(row: Row): seq<string> {
    var texts := Texts(CellsOf(RowContent(row)));
    if texts == [] then [] else texts[1..]
  }

  /** One player row: the `linkTitle` anchor's text and the seven stats after the name cell;
      `ParsePlayerRowCases` states what it returns. */
  function ParsePlayerRow(row: Row): Result<(string, Stats), Crash> {
    match FindClassedAnchor(RowContent(row), LinkTitleClass)
    case None => Err(AttributeError)
    case Some(a) =>
      var stats := StatTexts(row);
      if |stats| < 7 then Err(IndexError)
      else Ok((a.text, Stats(stats[0], stats[1], stats[2], stats[3], stats[4], stats[5], stats[6])))
  }

  /** A row without a `linkTitle` anchor raises AttributeError; one with fewer than eight cells
      (the name cell and seven stats) raises IndexError; otherwise the name is the anchor's text
      and the stats are the texts of cells 1 to 7, in the order ping, kills, assists, deaths, mvp,
      hsp, score. */
  lemma ParsePlayerRowCases(row: Row)
    ensures var r := ParsePlayerRow(row);
      var anchor := FindClassedAnchor(RowContent(row), LinkTitleClass);
      var t := Texts(CellsOf(RowContent(row)));
      && (anchor.None? <==> r == Err(AttributeError))
      && (r == Err(IndexError) <==> anchor.Some? && |t| < 8)
      && (r.Err? ==> r == Err(AttributeError) || r == Err(IndexError))
      && (r.Ok? ==> r.value.0 == anchor.value.text && |t| >= 8
                    && r.value.1 == Stats(t[1], t[2], t[3], t[4], t[5], t[6], t[7]))
  {
  }

  /** A parsed player row: the player's name and stats, or the exception parsing raised. */
  type Parsed = Result<(string, Stats), Crash>

  /** The `players_info` dictionary filled from parsed rows in order: the first failure raises,
      and a later row with the same name overwrites an earlier one. */
  function Dict(parsed: seq<Parsed>): Result<map<string, Stats>, Crash>
    decreases |parsed|
  {
    if parsed == [] then Ok(map[])
    else
      match Dict(parsed[..|parsed| - 1])
      case Err(e) => Err(e)
      case Ok(m) =>
        match parsed[|parsed| - 1]
        case Err(e) => Err(e)
        case Ok(p) => Ok(m[p.0 := p.1])
  }

  /** Every row parsed, in order. */
  function ParseRows(rows: seq<Row>): (r: seq<Parsed>)
    ensures |r| == |rows|
    ensures forall k :: 0 <= k < |rows| ==> r[k] == ParsePlayerRow(rows[k])
  {
    if rows == [] then [] else [ParsePlayerRow(rows[0])] + ParseRows(rows[1..])
  }

  /** The loop of parse_player_info over the valid rows. */
  function Players(rows: seq<Row>): Result<map<string, Stats>, Crash> {
    Dict(ParseRows(rows))
  }

  /** The dictionary is built exactly when every row parses; otherwise the first failure's exception
      is raised. */
  lemma {:induction false} DictErrors(parsed: seq<Parsed>)
    ensures Dict(parsed).Ok? <==> forall i :: 0 <= i < |parsed| ==> parsed[i].Ok?
    ensures Dict(parsed).Err? ==>
      exists i :: 0 <= i < |parsed| && parsed[i] == Err(Dict(parsed).error)
        && forall j :: 0 <= j < i ==> parsed[j].Ok?
    decreases |parsed|
  {
    if parsed != [] {
      var init := parsed[..|parsed| - 1];
      DictErrors(init);
      assert forall i :: 0 <= i < |init| ==> init[i] == parsed[i];
      if Dict(init).Err? {
        var i :| 0 <= i < |init| && init[i] == Err(Dict(init).error)
          && forall j :: 0 <= j < i ==> init[j].Ok?;
        assert parsed[i] == Err(Dict(parsed).error);
      }
    }
  }

  /** The dictionary holds exactly the names of the rows. */
  lemma {:induction false} DictKeys(parsed: seq<Parsed>)
    requires Dict(parsed).Ok?
    ensures forall i :: 0 <= i < |parsed| ==> parsed[i].Ok?
    ensures forall n :: n in Dict(parsed).value <==> exists i :: 0 <= i < |parsed| && parsed[i].value.0 == n
    decreases |parsed|
  {
    DictErrors(parsed);
    if parsed != [] {
      var init := parsed[..|parsed| - 1];
      var last := parsed[|parsed| - 1].value;
      DictKeys(init);
      assert forall i :: 0 <= i < |init| ==> init[i] == parsed[i];
      assert Dict(parsed).value == Dict(init).value[last.0 := last.1];
      forall n | n in Dict(parsed).value
        ensures exists i :: 0 <= i < |parsed| && parsed[i].value.0 == n
      {
        if n != last.0 {
          var i :| 0 <= i < |init| && init[i].value.0 == n;
          assert parsed[i].value.0 == n;
        } else {
          assert parsed[|parsed| - 1].value.0 == n;
        }
      }
    }
  }

  /** Last one wins: a name maps to the stats of the last row carrying it. */
  lemma {:induction false} DictLastWins(parsed: seq<Parsed>)
    requires Dict(parsed).Ok?
    ensures forall i :: 0 <= i < |parsed| ==> parsed[i].Ok?
    ensures forall i :: 0 <= i < |parsed| && (forall j :: i < j < |parsed| ==> parsed[j].value.0 != parsed[i].value.0) ==>
      parsed[i].value.0 in Dict(parsed).value && Dict(parsed).value[parsed[i].value.0] == parsed[i].value.1
    decreases |parsed|
  {
    DictErrors(parsed);
    if parsed != [] {
      var init := parsed[..|parsed| - 1];
      var last := parsed[|parsed| - 1].value;
      DictLastWins(init);
      assert forall i :: 0 <= i < |init| ==> init[i] == parsed[i];
      var m := Dict(init).value;
      assert Dict(parsed).value == m[last.0 := last.1];
      forall i | 0 <= i < |parsed| - 1 && (forall j :: i < j < |parsed| ==> parsed[j].value.0 != parsed[i].value.0)
        ensures parsed[i].value.0 in Dict(parsed).value && Dict(parsed).value[parsed[i].value.0] == parsed[i].value.1
      {
        assert parsed[|parsed| - 1].value.0 != parsed[i].value.0;
        assert forall j :: i < j < |init| ==> init[j].value.0 != init[i].value.0;
      }
    }
  }

  /** The loop of parse_player_info: fill `players_info` row by row. */
  method CollectPlayers(rows: seq<Row>) returns (r: Result<map<string, Stats>, Crash>)
    ensures r == Players(rows)
  {
    var players: map<string, Stats> := map[];
    ghost var parsed := ParseRows(rows);
    for i := 0 to |rows|
      invariant Dict(parsed[..i]) == Ok(players)
    {
      var player := ParsePlayerRow(rows[i]);
      DictStep(parsed, i, players);
      if player.Err? {
        return Err(player.error);
      }
      players := players[player.value.0 := player.value.1];
    }
    assert parsed[..|rows|] == parsed;
    return Ok(players);
  }

  /** One step of the fold: a failing row ends it with that row's exception, a parsed row is
      stored under its name. */
  lemma DictStep(parsed: seq<Parsed>, i: nat, m: map<string, Stats>)
    requires i < |parsed| && Dict(parsed[..i]) == Ok(m)
    ensures parsed[i].Err? ==> Dict(parsed) == Err(parsed[i].error)
    ensures parsed[i].Ok? ==> Dict(parsed[..i + 1]) == Ok(m[parsed[i].value.0 := parsed[i].value.1])
  {
    assert parsed[..i + 1][..i] == parsed[..i];
    if parsed[i].Err? {
      DictPrefixError(parsed, i + 1);
    }
  }

  /** Once a prefix fails, the whole fold fails with the same exception. */
  lemma {:induction false} DictPrefixError(parsed: seq<Parsed>, n: nat)
    requires n <= |parsed| && Dict(parsed[..n]).Err?
    ensures Dict(parsed) == Dict(parsed[..n])
    decreases |parsed| - n
  {
    if n < |parsed| {
      assert parsed[..n + 1][..n] == parsed[..n];
      DictPrefixError(parsed, n + 1);
    } else {
      assert parsed[..n] == parsed;
    }
  }

  // ---------------------------------------------------------------------------------------------
  // URLs for the downloader

  /** `[match["url"] for match in recent_matches]`. */
  function UrlFields(records: seq<Record>): (r: seq<Option<string>>)
    ensures |r| == |records|
    ensures forall k :: 0 <= k < |records| ==> r[k] == records[k].url
  {
    if records == [] then [] else [records[0].url] + UrlFields(records[1..])
  }

  /** `list(filter(None, urls))`: the URLs that are neither None nor empty, in order. */
  function NonEmptyUrls(urls: seq<Option<string>>): (r: seq<string>)
    ensures |r| <= |urls|
    ensures forall u :: u in r <==> Some(u) in urls && u != ""
  {
    if urls == [] then []
    else
      (if urls[0].Some? && urls[0].value != "" then [urls[0].value] else [])
      + NonEmptyUrls(urls[1..])
  }

  /** The filter keeps the order of the records: filtering a concatenation concatenates. */
  lemma {:induction false} NonEmptyUrlsAppend(a: seq<Option<string>>, b: seq<Option<string>>)
    ensures NonEmptyUrls(a + b) == NonEmptyUrls(a) + NonEmptyUrls(b)
  {
    if a != [] {
      assert (a + b)[1..] == a[1..] + b;
      NonEmptyUrlsAppend(a[1..], b);
    } else {
      assert a + b == b;
    }
  }

  /** The URLs the scrapers hand to url_downloader. */
  function DownloadList(records: seq<Record>): seq<string> {
    NonEmptyUrls(UrlFields(records))
  }

  /** The URLs keep the order of the records. */
  lemma DownloadListAppend(a: seq<Record>, b: seq<Record>)
    ensures DownloadList(a + b) == DownloadList(a) + DownloadList(b)
  {
    assert UrlFields(a + b) == UrlFields(a) + UrlFields(b);
    NonEmptyUrlsAppend(UrlFields(a), UrlFields(b));
  }
}
