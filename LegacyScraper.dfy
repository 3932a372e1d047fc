/**
 * The older scraper at the repository root (match_scraper.py): one function, scrape_match, that
 * loads the match table of a tab and parses every row inline, and a download_matches that hands
 * the URLs to the downloader. It differs from the package scraper: rows are chosen by their
 * `style`, the last map cell is always dropped, a record is emitted for every chosen row, no
 * recency rule applies, and a row without a map body reuses the `match_info` dictionary of the
 * row before it, so that both records hold the same dictionary.
 *
 * The dictionaries are modelled by handles: `Scan.infos` lists every `match_info` dictionary in
 * creation order, the last one being the one the name `match_info` refers to, and each entry
 * names the dictionary it holds by its index; writing the score of a dictionary is seen by every
 * record that holds it.
 */
module LegacyScraper {
  import opened Wrappers
  import opened Seqs
  import opened Html
  import opened Browser
  import opened Parsing
  import Downloader
  import MatchScraper

  // ---------------------------------------------------------------------------------------------
  // Row selection

  const TableRowStyle: string := "display: table-row;"

  /** `find_all("tr", style=re.compile("display: table-row;"))` keeps a row whose `style`
      attribute contains the pattern (a plain substring here). */
  predicate Selected(row: Row) {
    row.style.Some? && Contains(row.style.value, TableRowStyle)
  }

  function SelectedRows(rows: seq<Row>): (r: seq<Row>)
    ensures |r| <= |rows|
  {
    if rows == [] then []
    else (if Selected(rows[0]) then [rows[0]] else []) + SelectedRows(rows[1..])
  }

  /** A row is chosen exactly when it is one of the rows and its style holds the pattern. */
  lemma {:induction false} SelectedRowsMembers(rows: seq<Row>)
    ensures forall x :: x in SelectedRows(rows) <==> x in rows && Selected(x)
  {
    if rows != [] {
      SelectedRowsMembers(rows[1..]);
      assert forall x :: x in rows <==> x == rows[0] || x in rows[1..];
    }
  }

  /** Selection keeps the order of the rows. */
  lemma {:induction false} SelectedRowsAppend(a: seq<Row>, b: seq<Row>)
    ensures SelectedRows(a + b) == SelectedRows(a) + SelectedRows(b)
  {
    if a == [] {
      assert a + b == b;
    } else {
      var head := if Selected(a[0]) then [a[0]] else [];
      assert (a + b)[0] == a[0];
      assert (a + b)[1..] == a[1..] + b;
      assert SelectedRows(a + b) == head + SelectedRows(a[1..] + b);
      SelectedRowsAppend(a[1..], b);
      assert head + (SelectedRows(a[1..]) + SelectedRows(b)) == (head + SelectedRows(a[1..])) + SelectedRows(b);
    }
  }

  // ---------------------------------------------------------------------------------------------
  // One row

  /** Python's `xs[:-1]`: everything but the last element, and nothing of an empty list. */
  function DropLast<T>(xs: seq<T>): seq<T> {
    if xs == [] then [] else xs[..|xs| - 1]
  }

  /** `match.find("table", class_="csgo_scoreboard_inner_left")`. */
  function LeftTable(row: Row): Option<Table> {
    FindTable(RowContent(row), InnerLeftClass)
  }

  /** `match.find("table", class_="csgo_scoreboard_inner_right")`. */
  function RightTable(row: Row): Option<Table> {
    FindTable(RowContent(row), InnerRightClass)
  }

  /** The `match_info` dictionary built from a map body, before any score is written. */
  function TableInfo(left: Table): Result<MatchInfo, Crash>
    requires left.hasBody
  {
    MatchInfoOf(DropLast(BodyTexts(left.body)))
  }

  /** The last map cell is dropped whatever the count, so the dictionary needs six cells; its
      fields are the texts of the first five. */
  lemma TableInfoCells(left: Table)
    requires left.hasBody
    ensures var texts := BodyTexts(left.body);
      && (TableInfo(left).Ok? <==> |texts| >= 6)
      && (TableInfo(left).Err? ==> TableInfo(left).error == IndexError)
      && (TableInfo(left).Ok? ==>
            && [TableInfo(left).value.mapName, TableInfo(left).value.date, TableInfo(left).value.ranked,
                TableInfo(left).value.waitTime, TableInfo(left).value.duration] == texts[..5]
            && TableInfo(left).value.score == Some(""))
  {
    var texts := BodyTexts(left.body);
    if |texts| >= 6 {
      var kept := DropLast(texts);
      assert kept == texts[..|texts| - 1];
      assert kept[..5] == texts[..5];
    }
  }

  /** The players of a player body. */
  function TablePlayers(right: Table): Result<map<string, Stats>, Crash> {
    Players(ValidPlayerRows(RowsOf(BodyContent(right.body))))
  }

  /** What the loop body reads from the map table of a row: no table, a table without body, or
      the download URL and the `match_info` dictionary of its body. */
  datatype MapSide = NoMapTable | NoMapBody | MapBody(url: Option<string>, info: Result<MatchInfo, Crash>)

  /** What the loop body reads from the player table of a row: no table, a table without body, a
      body without score cell, or the score text and the players of its body. */
  datatype PlayerSide = NoPlayerTable | NoPlayerBody | NoScoreCell | PlayerBody(score: string, players: Result<map<string, Stats>, Crash>)

  datatype Parts = Parts(mapSide: MapSide, playerSide: PlayerSide)

  function MapSideOf(row: Row): MapSide {
    match LeftTable(row)
    case None => NoMapTable
    case Some(left) => if !left.hasBody then NoMapBody else MapBody(DownloadUrl(left.body), TableInfo(left))
  }

  function PlayerSideOf(row: Row): PlayerSide {
    match RightTable(row)
    case None => NoPlayerTable
    case Some(right) =>
      if !right.hasBody then NoPlayerBody
      else
        match FindCell(BodyContent(right.body), ScoreClass)
        case None => NoScoreCell
        case Some(cell) => PlayerBody(cell.text, TablePlayers(right))
  }

  /** The parts of a row the loop body looks at. */
  function PartsOf(row: Row): Parts {
    Parts(MapSideOf(row), PlayerSideOf(row))
  }

  /** The row builds a `match_info` dictionary of its own. */
  predicate HasMapBody(row: Row) {
    LeftTable(row).Some? && LeftTable(row).value.hasBody
  }

  /** The URL a record gets: the download button's, `""` without a map body (or button). */
  function PartUrl(p: Parts): Option<string> {
    if p.mapSide.MapBody? then p.mapSide.url else Some("")
  }

  /** The players a record gets: `{}` without a player body. */
  function PartPlayers(p: Parts): Result<map<string, Stats>, Crash> {
    if p.playerSide.PlayerBody? then p.playerSide.players else Ok(map[])
  }

  /** The score a row writes into the current `match_info`, when it has one. */
  function PartScore(p: Parts): Option<string> {
    if p.playerSide.PlayerBody? then Some(p.playerSide.score) else None
  }

  /** A dictionary with a score written into it, when there is one. */
  function Stamp(info: MatchInfo, score: Option<string>): MatchInfo {
    if score.Some? then info.(score := score) else info
  }

  /** A record as scrape_match appends it: its URL, the handle of its `match_info` dictionary, and
      its players. */
  datatype Entry = Entry(url: Option<string>, owner: nat, players: map<string, Stats>)

  /** The state of the loop: the dictionaries created so far and the records appended so far. */
  datatype Scan = Scan(infos: seq<MatchInfo>, entries: seq<Entry>)

  /** Every record holds a dictionary that exists. */
  predicate Owned(scan: Scan) {
    forall k :: 0 <= k < |scan.entries| ==> scan.entries[k].owner < |scan.infos|
  }

  /** The body of the loop of scrape_match for one row. A missing inner table raises
      AttributeError, as does a player body without a score cell; fewer than six map cells raise
      IndexError; using `match_info` before any row has built one raises NameError. */
  function Step(scan: Scan, p: Parts): Result<Scan, Crash> {
    if p.mapSide.NoMapTable? then Err(AttributeError)
    else if p.mapSide.MapBody? && p.mapSide.info.Err? then Err(p.mapSide.info.error)
    else
      var infos := if p.mapSide.MapBody? then scan.infos + [p.mapSide.info.value] else scan.infos;
      match p.playerSide
      case NoPlayerTable => Err(AttributeError)
      case NoScoreCell => Err(AttributeError)
      case NoPlayerBody =>
        if infos == [] then Err(NameError)
        else Ok(Scan(infos, scan.entries + [Entry(PartUrl(p), |infos| - 1, map[])]))
      case PlayerBody(score, players) =>
        if infos == [] then Err(NameError)
        else if players.Err? then Err(players.error)
        else
          var current := |infos| - 1;
          Ok(Scan(infos[current := infos[current].(score := Some(score))],
                  scan.entries + [Entry(PartUrl(p), current, players.value)]))
  }

  /** What one step does when it succeeds: one record appended, holding the row's URL and players
      and the dictionary `match_info` names after the row (a new one when the row has a map body,
      the previous one otherwise); the dictionaries before that one are untouched, and a row with
      a map body writes its score, if any, into its own. */
  lemma StepAppends(scan: Scan, p: Parts)
    requires Step(scan, p).Ok?
    ensures var next := Step(scan, p).value;
      && PartPlayers(p).Ok?
      && |next.infos| == |scan.infos| + (if p.mapSide.MapBody? then 1 else 0)
      && |next.infos| >= 1
      && next.entries == scan.entries + [Entry(PartUrl(p), |next.infos| - 1, PartPlayers(p).value)]
      && next.infos[..|next.infos| - 1] == scan.infos[..|next.infos| - 1]
      && (p.mapSide.MapBody? ==> next.infos[|next.infos| - 1] == Stamp(p.mapSide.info.value, PartScore(p)))
      && (!p.mapSide.MapBody? ==>
            |scan.infos| >= 1 && next.infos[|next.infos| - 1] == Stamp(scan.infos[|scan.infos| - 1], PartScore(p)))
  {
  }

  /** When a row's step succeeds, and otherwise the exception it raises, in the order of the loop
      body: AttributeError without a map table, the dictionary's IndexError for a map body with
      fewer than six cells, AttributeError without a player table or without a score cell in the
      player body, NameError when no row so far (this one included) has built a `match_info`,
      and last the players' exception. A player table without body is no error. */
  lemma StepCases(scan: Scan, p: Parts)
    ensures var r := Step(scan, p);
      var built := p.mapSide.MapBody?;
      var named := built || scan.infos != [];
      && (r.Ok? <==>
            && !p.mapSide.NoMapTable?
            && (built ==> p.mapSide.info.Ok?)
            && (p.playerSide.NoPlayerBody? || p.playerSide.PlayerBody?)
            && named
            && PartPlayers(p).Ok?)
      && (p.mapSide.NoMapTable? ==> r == Err(AttributeError))
      && (built && p.mapSide.info.Err? ==> r == Err(p.mapSide.info.error))
      && (!p.mapSide.NoMapTable? && (built ==> p.mapSide.info.Ok?) ==>
            && (p.playerSide.NoPlayerTable? || p.playerSide.NoScoreCell? ==> r == Err(AttributeError))
            && ((p.playerSide.NoPlayerBody? || p.playerSide.PlayerBody?) && !named ==> r == Err(NameError))
            && (p.playerSide.PlayerBody? && named && p.playerSide.players.Err? ==>
                  r == Err(p.playerSide.players.error)))
  {
  }

  /** The parts of every row, in order. */
  function AllParts(rows: seq<Row>): (r: seq<Parts>)
    ensures |r| == |rows|
  {
    if rows == [] then [] else [PartsOf(rows[0])] + AllParts(rows[1..])
  }

  lemma {:induction false} AllPartsAt(rows: seq<Row>)
    ensures forall k :: 0 <= k < |rows| ==> AllParts(rows)[k] == PartsOf(rows[k])
  {
    if rows != [] {
      AllPartsAt(rows[1..]);
    }
  }

  /** scrape_match's loop over the parts of the chosen rows: the first exception ends it. */
  function Scanned(parts: seq<Parts>): Result<Scan, Crash>
    decreases |parts|
  {
    if parts == [] then Ok(Scan([], []))
    else
      match Scanned(parts[..|parts| - 1])
      case Err(e) => Err(e)
      case Ok(scan) => Step(scan, parts[|parts| - 1])
  }

  /** A successful scan holds one record per row, each holding an existing dictionary, and the
      dictionary `match_info` names last is the newest one. */
  lemma {:induction false} ScannedShape(parts: seq<Parts>)
    requires Scanned(parts).Ok?
    ensures var scan := Scanned(parts).value;
      && |scan.entries| == |parts| && Owned(scan)
      && (parts != [] ==> scan.entries[|parts| - 1].owner == |scan.infos| - 1)
    decreases |parts|
  {
    if parts != [] {
      var init := parts[..|parts| - 1];
      ScannedShape(init);
      StepAppends(Scanned(init).value, parts[|parts| - 1]);
    }
  }

  /** Records, once appended, keep their URL, players and dictionary. */
  lemma {:induction false} ScannedPrefix(parts: seq<Parts>, n: nat)
    requires n <= |parts| && Scanned(parts).Ok?
    ensures Scanned(parts[..n]).Ok?
    ensures |Scanned(parts).value.entries| == |parts|
    ensures Scanned(parts[..n]).value.entries == Scanned(parts).value.entries[..n]
    decreases |parts| - n
  {
    ScannedShape(parts);
    if n == |parts| {
      assert parts[..n] == parts;
    } else {
      var init := parts[..|parts| - 1];
      assert init[..n] == parts[..n];
      ScannedPrefix(init, n);
      StepAppends(Scanned(init).value, parts[|parts| - 1]);
    }
  }

  /** Everything a prefix fails with, the whole fails with. */
  lemma {:induction false} ScannedPrefixError(parts: seq<Parts>, n: nat)
    requires n <= |parts| && Scanned(parts[..n]).Err?
    ensures Scanned(parts) == Scanned(parts[..n])
    decreases |parts| - n
  {
    if n < |parts| {
      var next := parts[..n + 1];
      assert next[..|next| - 1] == parts[..n];
      ScannedPrefixError(parts, n + 1);
    } else {
      assert parts[..n] == parts;
    }
  }

  /** The scan up to and including the `k`-th row is the scan before it followed by the `k`-th
      step, and the records it holds are the first `k + 1` of the whole. */
  lemma ScannedAt(parts: seq<Parts>, k: nat)
    requires k < |parts| && Scanned(parts).Ok?
    ensures Scanned(parts[..k]).Ok? && Scanned(parts[..k + 1]).Ok?
    ensures Scanned(parts[..k + 1]) == Step(Scanned(parts[..k]).value, parts[k])
    ensures |Scanned(parts).value.entries| == |parts| && |Scanned(parts[..k + 1]).value.entries| == k + 1
    ensures Scanned(parts).value.entries[k] == Scanned(parts[..k + 1]).value.entries[k]
  {
    ScannedPrefix(parts, k + 1);
    var prefix := parts[..k + 1];
    assert prefix[..|prefix| - 1] == parts[..k];
    assert prefix[|prefix| - 1] == parts[k];
  }

  /** The record of the `k`-th row holds that row's URL and players, `{}` without a player body. */
  lemma EntryOfRow(parts: seq<Parts>, k: nat)
    requires k < |parts| && Scanned(parts).Ok?
    ensures var e := Scanned(parts).value.entries;
      && |e| == |parts| && PartPlayers(parts[k]).Ok?
      && e[k].url == PartUrl(parts[k]) && e[k].players == PartPlayers(parts[k]).value
  {
    ScannedAt(parts, k);
    StepAppends(Scanned(parts[..k]).value, parts[k]);
  }

  /** A row without a map body holds the same dictionary as the row before it. */
  lemma StaleEntryShared(parts: seq<Parts>, k: nat)
    requires 0 < k < |parts| && Scanned(parts).Ok? && !parts[k].mapSide.MapBody?
    ensures |Scanned(parts).value.entries| == |parts|
    ensures Scanned(parts).value.entries[k].owner == Scanned(parts).value.entries[k - 1].owner
  {
    ScannedAt(parts, k);
    var before := Scanned(parts[..k]).value;
    ScannedShape(parts[..k]);
    StepAppends(before, parts[k]);
    ScannedPrefix(parts, k);
    assert Scanned(parts).value.entries[k - 1] == before.entries[k - 1];
  }

  /** A first row without a map body fails: `match_info` is not bound yet. */
  lemma FirstNeedsMap(parts: seq<Parts>)
    requires parts != [] && !parts[0].mapSide.MapBody?
    ensures Scanned(parts).Err?
  {
    var first := parts[..1];
    assert first[..0] == [];
    assert first[0] == parts[0];
    assert Scanned(first).Err?;
    ScannedPrefixError(parts, 1);
  }

  /** When every row has a map body, no dictionary is shared: the `k`-th record holds the `k`-th
      dictionary, the row's own, with the row's score written into it when it has one. */
  lemma {:induction false} FreshEntries(parts: seq<Parts>)
    requires forall k :: 0 <= k < |parts| ==> parts[k].mapSide.MapBody?
    requires Scanned(parts).Ok?
    ensures var scan := Scanned(parts).value;
      && |scan.infos| == |scan.entries| == |parts|
      && forall k :: 0 <= k < |parts| ==>
           && scan.entries[k].owner == k
           && parts[k].mapSide.info.Ok?
           && scan.infos[k] == Stamp(parts[k].mapSide.info.value, PartScore(parts[k]))
    decreases |parts|
  {
    if parts != [] {
      var init := parts[..|parts| - 1];
      var last := parts[|parts| - 1];
      assert forall k :: 0 <= k < |init| ==> init[k] == parts[k];
      FreshEntries(init);
      var before := Scanned(init).value;
      StepAppends(before, last);
      var scan := Scanned(parts).value;
      assert |scan.infos| == |parts|;
      forall k | 0 <= k < |parts|
        ensures scan.entries[k].owner == k && parts[k].mapSide.info.Ok?
        ensures scan.infos[k] == Stamp(parts[k].mapSide.info.value, PartScore(parts[k]))
      {
        if k < |init| {
          assert init[k] == parts[k];
          assert scan.entries[k] == before.entries[k];
          assert scan.infos[..|scan.infos| - 1][k] == scan.infos[k];
        }
      }
    }
  }

  /** The score the last row of `ps` with a player body writes, if any. */
  function LastScore(ps: seq<Parts>): Option<string>
    decreases |ps|
  {
    if ps == [] then None
    else if PartScore(ps[|ps| - 1]).Some? then PartScore(ps[|ps| - 1])
    else LastScore(ps[..|ps| - 1])
  }

  /** The first row from `i` on that has a map body, or the end of the rows. */
  function NextMap(parts: seq<Parts>, i: nat): (r: nat)
    requires i <= |parts|
    ensures i <= r <= |parts|
    ensures forall m :: i <= m < r ==> !parts[m].mapSide.MapBody?
    ensures r < |parts| ==> parts[r].mapSide.MapBody?
    decreases |parts| - i
  {
    if i == |parts| then i
    else if parts[i].mapSide.MapBody? then i
    else NextMap(parts, i + 1)
  }

  /** Writing two scores leaves the later one, when there is one. */
  lemma StampTwice(info: MatchInfo, s1: Option<string>, s2: Option<string>)
    ensures Stamp(Stamp(info, s1), s2) == Stamp(info, if s2.Some? then s2 else s1)
  {
  }

  /** The record of the `k`-th row holds the dictionary that is newest after that row. */
  lemma OwnerOfEntry(parts: seq<Parts>, k: nat)
    requires Scanned(parts).Ok? && k < |parts|
    ensures Scanned(parts[..k + 1]).Ok? && |Scanned(parts).value.entries| == |parts|
    ensures Scanned(parts).value.entries[k].owner == |Scanned(parts[..k + 1]).value.infos| - 1
  {
    ScannedAt(parts, k);
    var prefix := parts[..k + 1];
    ScannedShape(prefix);
  }

  /** When the rows after the `j`-th have no map body, the newest dictionary is the `j`-th row's,
      with the score of the last of these rows that has a player body written into it. */
  lemma {:induction false} CurrentInfo(parts: seq<Parts>, j: nat)
    requires Scanned(parts).Ok? && j < |parts| && parts[j].mapSide.MapBody?
    requires forall m :: j < m < |parts| ==> !parts[m].mapSide.MapBody?
    ensures Scanned(parts[..j]).Ok? && parts[j].mapSide.info.Ok?
    ensures var infos := Scanned(parts).value.infos;
      && |infos| == |Scanned(parts[..j]).value.infos| + 1
      && infos[|infos| - 1] == Stamp(parts[j].mapSide.info.value, LastScore(parts[j..]))
    decreases |parts|
  {
    var init := parts[..|parts| - 1];
    var p := parts[|parts| - 1];
    assert init[..j] == parts[..j];
    var scan := Scanned(init).value;
    StepCases(scan, p);
    StepAppends(scan, p);
    var group := parts[j..];
    assert group[..|group| - 1] == init[j..];
    assert group[|group| - 1] == p;
    if |parts| == j + 1 {
      assert init[j..] == [];
    } else {
      CurrentInfo(init, j);
      StampTwice(parts[j].mapSide.info.value, LastScore(init[j..]), PartScore(p));
    }
  }

  /** A step that keeps every dictionary but the newest keeps the `d`-th. */
  lemma KeepsOlder(before: seq<MatchInfo>, after: seq<MatchInfo>, d: nat)
    requires 1 <= |after| <= |before| + 1 && d + 1 < |after|
    requires after[..|after| - 1] == before[..|after| - 1]
    ensures after[d] == before[d]
  {
    assert after[..|after| - 1][d] == after[d];
  }

  /** A dictionary that is no longer the newest after the first `n` rows is not written again. */
  lemma {:induction false} Frozen(parts: seq<Parts>, n: nat, d: nat)
    requires Scanned(parts).Ok? && n <= |parts|
    requires Scanned(parts[..n]).Ok? && d + 1 < |Scanned(parts[..n]).value.infos|
    ensures |Scanned(parts).value.infos| >= |Scanned(parts[..n]).value.infos|
    ensures Scanned(parts).value.infos[d] == Scanned(parts[..n]).value.infos[d]
    decreases |parts|
  {
    if n == |parts| {
      assert parts[..n] == parts;
    } else {
      var init := parts[..|parts| - 1];
      assert init[..n] == parts[..n];
      var scan := Scanned(init).value;
      Frozen(init, n, d);
      StepAppends(scan, parts[|parts| - 1]);
      KeepsOlder(scan.infos, Scanned(parts).value.infos, d);
    }
  }

  /** A row with a map body adds a dictionary and keeps the older ones. */
  lemma MapRowKeeps(parts: seq<Parts>, e: nat, d: nat)
    requires Scanned(parts).Ok? && e < |parts| && parts[e].mapSide.MapBody?
    requires Scanned(parts[..e]).Ok? && d < |Scanned(parts[..e]).value.infos|
    ensures Scanned(parts[..e + 1]).Ok?
    ensures |Scanned(parts[..e + 1]).value.infos| == |Scanned(parts[..e]).value.infos| + 1
    ensures Scanned(parts[..e + 1]).value.infos[d] == Scanned(parts[..e]).value.infos[d]
  {
    ScannedPrefix(parts, e + 1);
    var upTo := parts[..e + 1];
    assert upTo[..e] == parts[..e];
    var scan := Scanned(parts[..e]).value;
    StepAppends(scan, parts[e]);
    var after := Scanned(upTo).value.infos;
    assert after[..|scan.infos|][d] == after[d];
  }

  /** Up to the next row with a map body, the newest dictionary is the one the `j`-th row builds. */
  lemma GroupLeft(parts: seq<Parts>, j: nat)
    requires Scanned(parts).Ok? && j < |parts| && parts[j].mapSide.MapBody?
    ensures var e := NextMap(parts, j + 1);
      && Scanned(parts[..j]).Ok? && Scanned(parts[..e]).Ok? && parts[j].mapSide.info.Ok?
      && var infos := Scanned(parts[..e]).value.infos;
         && |infos| == |Scanned(parts[..j]).value.infos| + 1
         && infos[|infos| - 1] == Stamp(parts[j].mapSide.info.value, LastScore(parts[j..e]))
  {
    var e := NextMap(parts, j + 1);
    ScannedPrefix(parts, e);
    var group := parts[..e];
    assert group[..j] == parts[..j];
    assert group[j..] == parts[j..e];
    CurrentInfo(group, j);
  }

  /** The dictionary the `j`-th row builds is, at the end, as it was left by the rows up to the
      next one with a map body. */
  lemma GroupFinal(parts: seq<Parts>, j: nat)
    requires Scanned(parts).Ok? && j < |parts| && parts[j].mapSide.MapBody?
    ensures Scanned(parts[..j]).Ok? && parts[j].mapSide.info.Ok?
    ensures var c := |Scanned(parts[..j]).value.infos|;
      && c < |Scanned(parts).value.infos|
      && Scanned(parts).value.infos[c] == Stamp(parts[j].mapSide.info.value, LastScore(parts[j..NextMap(parts, j + 1)]))
  {
    var e := NextMap(parts, j + 1);
    GroupLeft(parts, j);
    var c := |Scanned(parts[..j]).value.infos|;
    if e == |parts| {
      assert parts[..e] == parts;
    } else {
      MapRowKeeps(parts, e, c);
      Frozen(parts, e + 1, c);
    }
  }

  /** The records of the `j`-th row and of the rows after it without a map body hold the
      dictionary the `j`-th row builds. */
  lemma GroupOwner(parts: seq<Parts>, j: nat, k: nat)
    requires Scanned(parts).Ok? && j <= k < |parts| && parts[j].mapSide.MapBody?
    requires forall m :: j < m <= k ==> !parts[m].mapSide.MapBody?
    ensures Scanned(parts[..j]).Ok? && |Scanned(parts).value.entries| == |parts|
    ensures Scanned(parts).value.entries[k].owner == |Scanned(parts[..j]).value.infos|
  {
    OwnerOfEntry(parts, k);
    var group := parts[..k + 1];
    assert group[..j] == parts[..j];
    CurrentInfo(group, j);
  }

  /** In a table where some rows have no map body, the record of the `k`-th row holds the
      dictionary of the last row `j <= k` with a map body, as it is left at the end: with the score
      of the last row from `j` up to the next row with a map body that has a player body. */
  lemma GroupEntries(parts: seq<Parts>, j: nat, k: nat)
    requires Scanned(parts).Ok? && j <= k < |parts| && parts[j].mapSide.MapBody?
    requires forall m :: j < m <= k ==> !parts[m].mapSide.MapBody?
    ensures var scan := Scanned(parts).value;
      && Owned(scan) && |scan.entries| == |parts| && parts[j].mapSide.info.Ok?
      && scan.infos[scan.entries[k].owner] == Stamp(parts[j].mapSide.info.value, LastScore(parts[j..NextMap(parts, j + 1)]))
  {
    ScannedShape(parts);
    GroupFinal(parts, j);
    GroupOwner(parts, j, k);
  }

  /** One step of the loop of scrape_match. */
  lemma ScannedStep(parts: seq<Parts>, i: nat, scan: Scan)
    requires i < |parts| && Scanned(parts[..i]) == Ok(scan)
    ensures Step(scan, parts[i]).Err? ==> Scanned(parts) == Step(scan, parts[i])
    ensures Step(scan, parts[i]).Ok? ==> Scanned(parts[..i + 1]) == Step(scan, parts[i])
  {
    var prefix := parts[..i + 1];
    assert prefix[..|prefix| - 1] == parts[..i];
    assert prefix[|prefix| - 1] == parts[i];
    if Step(scan, parts[i]).Err? {
      ScannedPrefixError(parts, i + 1);
    }
  }

  // ---------------------------------------------------------------------------------------------
  // The records

  /** The records at the end: each record shows the dictionary it holds as it was left. */
  function Resolve(scan: Scan): (r: seq<Record>)
    requires Owned(scan)
    ensures |r| == |scan.entries|
    decreases |scan.entries|
  {
    if scan.entries == [] then []
    else
      var e := scan.entries[0];
      [Record(e.url, scan.infos[e.owner], Some(e.players))] + Resolve(Scan(scan.infos, scan.entries[1..]))
  }

  lemma {:induction false} ResolveAt(scan: Scan, k: nat)
    requires Owned(scan) && k < |scan.entries|
    ensures var e := scan.entries[k];
      Resolve(scan)[k] == Record(e.url, scan.infos[e.owner], Some(e.players))
    decreases k
  {
    if k > 0 {
      var rest := Scan(scan.infos, scan.entries[1..]);
      assert rest.entries[k - 1] == scan.entries[k];
      ResolveAt(rest, k - 1);
    }
  }

  /** The records of scrape_match for its chosen rows. */
  function LegacyRecords(rows: seq<Row>): Result<seq<Record>, Crash> {
    match Scanned(AllParts(rows))
    case Err(e) => Err(e)
    case Ok(scan) =>
      ScannedShape(AllParts(rows));
      Ok(Resolve(scan))
  }

  /** One record per chosen row, in order, player table or not: the URL of the row's download
      button (`""` without one), the players of its player body (`{}` without one), and the
      dictionary it holds, which a row without a map body shares with the row before it. */
  lemma RecordsPerRow(rows: seq<Row>, k: nat)
    requires k < |rows| && LegacyRecords(rows).Ok?
    ensures var recs := LegacyRecords(rows).value;
      && |recs| == |rows|
      && recs[k].url == PartUrl(PartsOf(rows[k]))
      && recs[k].players.Some? && Ok(recs[k].players.value) == PartPlayers(PartsOf(rows[k]))
      && (!PlayerSideOf(rows[k]).PlayerBody? ==> recs[k].players == Some(map[]))
      && (k > 0 && !HasMapBody(rows[k]) ==> recs[k].info == recs[k - 1].info)
  {
    var parts := AllParts(rows);
    AllPartsAt(rows);
    var scan := Scanned(parts).value;
    ScannedShape(parts);
    EntryOfRow(parts, k);
    ResolveAt(scan, k);
    if k > 0 && !HasMapBody(rows[k]) {
      StaleEntryShared(parts, k);
      ResolveAt(scan, k - 1);
    }
  }

  /** The first chosen row must build a `match_info` of its own. */
  lemma FirstRowNeedsMap(rows: seq<Row>)
    requires rows != [] && !HasMapBody(rows[0])
    ensures LegacyRecords(rows).Err?
  {
    AllPartsAt(rows);
    FirstNeedsMap(AllParts(rows));
  }

  /** When every chosen row has a map body, each record carries its own row's dictionary:
      the first five map texts, and the row's score when its player body has one. */
  lemma FreshRecords(rows: seq<Row>, k: nat)
    requires forall j :: 0 <= j < |rows| ==> HasMapBody(rows[j])
    requires k < |rows| && LegacyRecords(rows).Ok?
    ensures var mapSide := MapSideOf(rows[k]);
      && |LegacyRecords(rows).value| == |rows|
      && mapSide.MapBody? && mapSide.info.Ok?
      && LegacyRecords(rows).value[k].info == Stamp(mapSide.info.value, PartScore(PartsOf(rows[k])))
  {
    var parts := AllParts(rows);
    AllPartsAt(rows);
    forall j | 0 <= j < |parts| ensures parts[j].mapSide.MapBody? {
      assert parts[j] == PartsOf(rows[j]) && HasMapBody(rows[j]);
    }
    FreshEntries(parts);
    ResolveAt(Scanned(parts).value, k);
  }

  /** When rows without a map body follow the `j`-th row, which has one, each of their records
      and the `j`-th row's own hold the `j`-th row's dictionary as the scrape leaves it: the first
      five map texts of the `j`-th row, and the score of the last row from the `j`-th up to the
      next row with a map body that has a player body, or `""` when none has. */
  lemma SharedRecords(rows: seq<Row>, j: nat, k: nat)
    requires LegacyRecords(rows).Ok? && j <= k < |rows| && HasMapBody(rows[j])
    requires forall m :: j < m <= k ==> !HasMapBody(rows[m])
    ensures var recs := LegacyRecords(rows).value;
      var texts := BodyTexts(LeftTable(rows[j]).value.body);
      var parts := AllParts(rows);
      var last := LastScore(parts[j..NextMap(parts, j + 1)]);
      && |recs| == |rows| && |texts| >= 6
      && [recs[k].info.mapName, recs[k].info.date, recs[k].info.ranked,
          recs[k].info.waitTime, recs[k].info.duration] == texts[..5]
      && recs[k].info.score == (if last.Some? then last else Some(""))
  {
    var parts := AllParts(rows);
    AllPartsAt(rows);
    assert parts[j] == PartsOf(rows[j]);
    forall m | j < m <= k ensures !parts[m].mapSide.MapBody? {
      assert parts[m] == PartsOf(rows[m]) && !HasMapBody(rows[m]);
    }
    GroupEntries(parts, j, k);
    var scan := Scanned(parts).value;
    ResolveAt(scan, k);
    TableInfoCells(LeftTable(rows[j]).value);
  }

  /** The outcome of scrape_match: `False` when not logged on, else the records and the tab. */
  datatype LegacyResult = NotLoggedOn | Scraped(records: seq<Record>, folder: string)

  /** What scrape_match returns once the page is loaded: no records without a match table or
      without chosen rows, otherwise those of the chosen rows; the tab comes back as the folder. */
  function ScrapeTable(table: Option<Table>, tab: string): Result<LegacyResult, Crash> {
    match table
    case None => Ok(Scraped([], tab))
    case Some(t) =>
      var matches := SelectedRows(RowsOf(TableContent(t)));
      if matches == [] then Ok(Scraped([], tab))
      else
        match LegacyRecords(matches)
        case Err(e) => Err(e)
        case Ok(recs) => Ok(Scraped(recs, tab))
  }

  /** scrape_match hands back the tab as the download folder. */
  lemma FolderIsTab(table: Option<Table>, tab: string)
    requires ScrapeTable(table, tab).Ok?
    ensures ScrapeTable(table, tab).value.Scraped? && ScrapeTable(table, tab).value.folder == tab
    ensures table.None? ==> ScrapeTable(table, tab) == Ok(Scraped([], tab))
  {
  }

  /** The map part of the loop body: the map table, the download URL of its body and the
      `match_info` dictionary built from its cells. */
  method ReadMapSide(row: Row) returns (m: MapSide)
    ensures m == MapSideOf(row)
  {
    var left := FindTable(RowContent(row), InnerLeftClass);
    if left.None? {
      return NoMapTable;
    }
    if !left.value.hasBody {
      return NoMapBody;
    }
    var downloadUrl: Option<string> := Some("");
    var button := FindCell(BodyContent(left.value.body), NoBorderClass);
    if button.Some? {
      var a := FindAnchor(CellContent(button.value));
      if a.Some? {
        downloadUrl := a.value.href;
      }
    }
    var texts := DropLast(BodyTexts(left.value.body));
    if |texts| < 5 {
      return MapBody(downloadUrl, Err(IndexError));
    }
    return MapBody(downloadUrl, Ok(MatchInfo(texts[0], texts[1], texts[2], texts[3], texts[4], Some(""))));
  }

  /** The player part of the loop body: the player table, the score cell of its body and the
      players of its rows. */
  method ReadPlayerSide(row: Row) returns (p: PlayerSide)
    ensures p == PlayerSideOf(row)
  {
    var right := FindTable(RowContent(row), InnerRightClass);
    if right.None? {
      return NoPlayerTable;
    }
    if !right.value.hasBody {
      return NoPlayerBody;
    }
    var scoreCell := FindCell(BodyContent(right.value.body), ScoreClass);
    if scoreCell.None? {
      return NoScoreCell;
    }
    var players: Result<map<string, Stats>, Crash> := Ok(map[]);
    var playerRows := RowsOf(BodyContent(right.value.body));
    if playerRows != [] {
      players := CollectPlayers(ValidPlayerRows(playerRows));
    } else {
      assert ParseRows(ValidPlayerRows(playerRows)) == [];
    }
    return PlayerBody(scoreCell.value.text, players);
  }

  /** The body of the loop of scrape_match on what it reads from one row. */
  method StepRow(scan: Scan, mapSide: MapSide, playerSide: PlayerSide) returns (r: Result<Scan, Crash>)
    ensures r == Step(scan, Parts(mapSide, playerSide))
  {
    if mapSide.NoMapTable? {
      return Err(AttributeError);
    }
    var downloadUrl: Option<string> := Some("");
    var infos := scan.infos;
    if mapSide.MapBody? {
      if mapSide.info.Err? {
        return Err(mapSide.info.error);
      }
      downloadUrl := mapSide.url;
      infos := infos + [mapSide.info.value];
    }
    var playersInfo: map<string, Stats> := map[];
    if playerSide.NoPlayerTable? || playerSide.NoScoreCell? {
      return Err(AttributeError);
    }
    if infos == [] {
      return Err(NameError);
    }
    if playerSide.PlayerBody? {
      infos := infos[|infos| - 1 := infos[|infos| - 1].(score := Some(playerSide.score))];
      if playerSide.players.Err? {
        return Err(playerSide.players.error);
      }
      playersInfo := playerSide.players.value;
    }
    return Ok(Scan(infos, scan.entries + [Entry(downloadUrl, |infos| - 1, playersInfo)]));
  }

  /** The body of the loop of scrape_match for one row. */
  method ScanRow(scan: Scan, row: Row) returns (r: Result<Scan, Crash>)
    ensures r == Step(scan, PartsOf(row))
  {
    var mapSide := ReadMapSide(row);
    var playerSide := ReadPlayerSide(row);
    r := StepRow(scan, mapSide, playerSide);
  }

  /** The loop of scrape_match over the chosen rows. */
  method ScanRows(rows: seq<Row>) returns (r: Result<Scan, Crash>)
    ensures r == Scanned(AllParts(rows))
  {
    ghost var parts := AllParts(rows);
    AllPartsAt(rows);
    var scan := Scan([], []);
    assert parts[..0] == [];
    for i := 0 to |rows|
      invariant Scanned(parts[..i]) == Ok(scan)
    {
      var next := ScanRow(scan, rows[i]);
      ScannedStep(parts, i, scan);
      if next.Err? {
        return Err(next.error);
      }
      scan := next.value;
    }
    assert parts[..|rows|] == parts;
    return Ok(scan);
  }

  /** The part of scrape_match after the page is loaded. */
  method ScrapeTableOf(table: Option<Table>, tab: string) returns (r: Result<LegacyResult, Crash>)
    ensures r == ScrapeTable(table, tab)
  {
    if table.None? {
      return Ok(Scraped([], tab));
    }
    var matches := SelectedRows(RowsOf(TableContent(table.value)));
    if matches == [] {
      return Ok(Scraped([], tab));
    }
    var scan := ScanRows(matches);
    if scan.Err? {
      return Err(scan.error);
    }
    ScannedShape(AllParts(matches));
    return Ok(Scraped(Resolve(scan.value), tab));
  }

  // ---------------------------------------------------------------------------------------------
  // The page

  const GcpdHost: string := "https://steamcommunity.com/id/"
  const GcpdPath: string := "/gcpd/730/?tab=matchhistory"

  /** The personal game data URL of a community id and a match-history tab. */
  function GcpdUrl(communityId: string, tab: string): string {
    GcpdHost + communityId + GcpdPath + tab
  }

  /** scrape_match on a browser page: nothing when not logged on; otherwise set the session
      cookies, go to the personal data page (a second failed title check is only logged), click
      load-more until the table shows rows, and parse the table. */
  method ScrapeMatch(page: Page, loggedOn: bool, jar: seq<Cookie>, communityId: string, tab: string)
    returns (r: Result<LegacyResult, Crash>)
    requires loggedOn ==> Populates(page.site, page.clicks)
    modifies page
    ensures !loggedOn ==> r == Ok(NotLoggedOn)
    ensures !loggedOn ==>
      page.visited == old(page.visited) && page.clicks == old(page.clicks) && page.cookies == old(page.cookies)
    ensures loggedOn ==> page.clicks == FirstPopulated(page.site, old(page.clicks))
    ensures loggedOn ==> r == ScrapeTable(page.site.content(page.clicks), tab)
    ensures loggedOn ==> page.cookies == old(page.cookies) + BrowserCookies(jar)
    ensures loggedOn ==>
      page.visited == old(page.visited) +
        (if OnPersonalData(page.site.title(|old(page.visited)| + 1)) then [GcpdUrl(communityId, tab)]
         else [GcpdUrl(communityId, tab), GcpdUrl(communityId, tab)])
  {
    if !loggedOn {
      return Ok(NotLoggedOn);
    }
    var cookies := ExtractCookies(jar);
    page.AddCookies(cookies);
    var ok, reauthenticated := GotoPersonalData(page, GcpdUrl(communityId, tab));
    LoadUntilPopulated(page);
    var table := page.site.content(page.clicks);
    r := ScrapeTableOf(table, tab);
  }

  // ---------------------------------------------------------------------------------------------
  // download_matches

  /** What scrape_match yields for a tab on a fresh page. */
  ghost function ScrapeOn(site: Site, loggedOn: bool, tab: string): Result<LegacyResult, Crash>
    requires loggedOn ==> Populates(site, 0)
  {
    if !loggedOn then Ok(NotLoggedOn) else ScrapeTable(site.content(FirstPopulated(site, 0)), tab)
  }

  /** download_matches: unpacking `False` raises TypeError; otherwise the non-empty URLs of the
      records go to url_downloader with the returned folder. */
  ghost function LegacyDownload(st: MatchScraper.Store, site: Site, loggedOn: bool, tab: string,
                                succeeds: string -> bool, now: int): (MatchScraper.Store, Option<MatchScraper.Failure>)
    requires loggedOn ==> Populates(site, 0)
  {
    match ScrapeOn(site, loggedOn, tab)
    case Err(c) => (st, Some(MatchScraper.Crashed(c)))
    case Ok(NotLoggedOn) => (st, Some(MatchScraper.Crashed(TypeError)))
    case Ok(Scraped(recs, folder)) =>
      var (next, failed) := MatchScraper.DownloadInto(st, DownloadList(recs), folder, succeeds, now);
      (next, if failed.Some? then Some(MatchScraper.DownloadFailed(failed.value)) else None)
  }

  /** Logged off, download_matches fails before touching the cache. */
  lemma NotLoggedOnFails(st: MatchScraper.Store, site: Site, tab: string, succeeds: string -> bool, now: int)
    ensures LegacyDownload(st, site, false, tab, succeeds, now) == (st, Some(MatchScraper.Crashed(TypeError)))
  {
  }

  /** download_matches for one tab, on a fresh browser page. */
  method DownloadMatches(loggedOn: bool, communityId: string, tab: string, site: Site, jar: seq<Cookie>,
                         session: Downloader.HttpSession, disk: Downloader.Disk, now: int)
    returns (outcome: Outcome<MatchScraper.Failure>)
    requires loggedOn ==> Populates(site, 0)
    modifies session, disk
    ensures var (st, failure) := LegacyDownload(MatchScraper.Store(old(disk.document), old(session.requested), old(disk.written)),
                                                site, loggedOn, tab, session.succeeds, now);
      && MatchScraper.Store(disk.document, session.requested, disk.written) == st
      && outcome == (if failure.Some? then Fail(failure.value) else Pass)
  {
    var page := new Page(site);
    var scraped := ScrapeMatch(page, loggedOn, jar, communityId, tab);
    if scraped.Err? {
      return Fail(MatchScraper.Crashed(scraped.error));
    }
    if scraped.value.NotLoggedOn? {
      return Fail(MatchScraper.Crashed(TypeError));
    }
    var result := Downloader.UrlDownloader(session, DownloadList(scraped.value.records), scraped.value.folder, disk, now);
    if result.Fail? {
      return Fail(MatchScraper.DownloadFailed(result.error));
    }
    return Pass;
  }
}
