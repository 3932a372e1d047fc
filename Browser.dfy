/**
 * The browser side of both scrapers, against an abstract page: converting the Steam session's
 * cookies for the browser, checking the page title, and clicking "load more" until the match table
 * shows rows. The page is an oracle (`Site`): the title shown after each navigation, what the row
 * locator of the match table sees after each number of clicks, and the match table parsed from the
 * page content after each number of clicks.
 */
module Browser {
  import opened Wrappers
  import opened Seqs
  import opened Html

  // ---------------------------------------------------------------------------------------------
  // Cookies

  /** The Python values that can sit in a cookie's nonstandard attributes (`cookie._rest`). */
  datatype PyValue = PyNone | PyBool(b: bool) | PyInt(i: int) | PyStr(s: string)

  /** Python's `bool(v)`. */
  predicate Truthy(v: PyValue) {
    match v
    case PyNone => false
    case PyBool(b) => b
    case PyInt(i) => i != 0
    case PyStr(s) => s != ""
  }

  /** A cookie of the Steam session's cookie jar. */
  datatype Cookie = Cookie(name: string, value: string, domain: string, path: string, rest: map<string, PyValue>)

  /** The dictionary handed to the browser's `add_cookies`. */
  datatype BrowserCookie = BrowserCookie(name: string, value: string, domain: string, path: string,
                                         httpOnly: bool, secure: bool, sameSite: string)

  /** `bool(rest.get(key, False))`. */
  predicate Flag(rest: map<string, PyValue>, key: string) {
    key in rest && Truthy(rest[key])
  }

  const SameSite: string := "Lax"

  /** The browser cookie made from one jar cookie. */
  function BrowserCookieOf(c: Cookie): BrowserCookie {
    BrowserCookie(c.name, c.value, c.domain, c.path, Flag(c.rest, "HttpOnly"), Flag(c.rest, "Secure"), SameSite)
  }

  /** The browser cookies made from a jar, in order. */
  function BrowserCookies(jar: seq<Cookie>): (r: seq<BrowserCookie>)
    ensures |r| == |jar|
  {
    if jar == [] then [] else [BrowserCookieOf(jar[0])] + BrowserCookies(jar[1..])
  }

  lemma {:induction false} BrowserCookiesAt(jar: seq<Cookie>)
    ensures forall k :: 0 <= k < |jar| ==> BrowserCookies(jar)[k] == BrowserCookieOf(jar[k])
  {
    if jar != [] {
      BrowserCookiesAt(jar[1..]);
    }
  }

  /** extract_cookies: one browser cookie per jar cookie, in order. */
  method ExtractCookies(jar: seq<Cookie>) returns (r: seq<BrowserCookie>)
    ensures r == BrowserCookies(jar)
    ensures forall i :: 0 <= i < |jar| ==>
      && r[i].name == jar[i].name && r[i].value == jar[i].value
      && r[i].domain == jar[i].domain && r[i].path == jar[i].path
      && (r[i].httpOnly <==> Flag(jar[i].rest, "HttpOnly"))
      && (r[i].secure <==> Flag(jar[i].rest, "Secure"))
      && r[i].sameSite == SameSite
  {
    r := [];
    for i := 0 to |jar|
      invariant |r| == i
      invariant forall k :: 0 <= k < i ==>
        && r[k].name == jar[k].name && r[k].value == jar[k].value
        && r[k].domain == jar[k].domain && r[k].path == jar[k].path
        && (r[k].httpOnly <==> Flag(jar[k].rest, "HttpOnly"))
        && (r[k].secure <==> Flag(jar[k].rest, "Secure"))
        && r[k].sameSite == SameSite
    {
      var c := jar[i];
      var httpOnly := "HttpOnly" in c.rest && Truthy(c.rest["HttpOnly"]);
      var secure := "Secure" in c.rest && Truthy(c.rest["Secure"]);
      r := r + [BrowserCookie(c.name, c.value, c.domain, c.path, httpOnly, secure, SameSite)];
    }
    BrowserCookiesAt(jar);
  }

  // ---------------------------------------------------------------------------------------------
  // The page

  /** What the locator `table.generic_kv_table.csgo_scoreboard_root tbody tr` sees: how many rows,
      and whether the first of them holds a `th`. */
  datatype TableView = TableView(rowCount: nat, firstRowHasHeader: bool)

  /** match_table_empty: no rows, or a single row that is a header row. */
  predicate TableEmpty(v: TableView) {
    v.rowCount == 0 || (v.rowCount == 1 && v.firstRowHasHeader)
  }

  /** No rows is empty, two or more rows never are, and a single row is empty exactly when it
      is a header row. */
  lemma TableEmptyRows(v: TableView)
    ensures v.rowCount == 0 ==> TableEmpty(v)
    ensures v.rowCount >= 2 ==> !TableEmpty(v)
    ensures v.rowCount == 1 ==> (TableEmpty(v) <==> v.firstRowHasHeader)
  {
  }

  /** The site as the browser sees it: `title(n)` after `n` navigations, `view(n)` and `content(n)`
      (the `csgo_scoreboard_root` table of the page content, if any) after `n` load-more clicks. */
  datatype Site = Site(title: nat -> string, view: nat -> TableView, content: nat -> Option<Table>)

  /** A browser page: the URLs it was sent to, the load-more clicks so far, and the cookies its
      context was given. */
  class Page {
    const site: Site
    var visited: seq<string>
    var clicks: nat
    var cookies: seq<BrowserCookie>

    constructor (site: Site)
      ensures this.site == site && visited == [] && clicks == 0 && cookies == []
    {
      this.site := site;
      visited := [];
      clicks := 0;
      cookies := [];
    }

    /** `page.goto(url)`. */
    method Goto(url: string)
      modifies this
      ensures visited == old(visited) + [url]
      ensures clicks == old(clicks) && cookies == old(cookies)
    {
      visited := visited + [url];
    }

    /** `page.title()`: the title after the navigations so far. */
    function Title(): string
      reads this
    {
      site.title(|visited|)
    }

    /** `page.locator("#load_more_clickable").click()`. */
    method ClickLoadMore()
      modifies this
      ensures clicks == old(clicks) + 1
      ensures visited == old(visited) && cookies == old(cookies)
    {
      clicks := clicks + 1;
    }

    /** `context.add_cookies(cs)`. */
    method AddCookies(cs: seq<BrowserCookie>)
      modifies this
      ensures cookies == old(cookies) + cs
      ensures visited == old(visited) && clicks == old(clicks)
    {
      cookies := cookies + cs;
    }
  }

  const PersonalGameData: string := "Personal Game Data"

  /** The page shows the personal game data: the title check of both scrapers. */
  predicate OnPersonalData(title: string) {
    Contains(title, PersonalGameData)
  }

  /** Some number of clicks from `from` on makes the match table show rows. */
  ghost predicate Populates(site: Site, from: nat) {
    exists k: nat :: from <= k && !TableEmpty(site.view(k))
  }

  /** `while match_table_empty(page): click load more`. The source loop has no bound; it returns
      exactly when some number of clicks fills the table, which is what the precondition says. */
  method LoadUntilPopulated(page: Page)
    requires Populates(page.site, page.clicks)
    modifies page
    ensures old(page.clicks) <= page.clicks
    ensures !TableEmpty(page.site.view(page.clicks))
    ensures forall k :: old(page.clicks) <= k < page.clicks ==> TableEmpty(page.site.view(k))
    ensures page.clicks == FirstPopulated(page.site, old(page.clicks))
    ensures page.visited == old(page.visited) && page.cookies == old(page.cookies)
  {
    ghost var bound: nat :| page.clicks <= bound && !TableEmpty(page.site.view(bound));
    while TableEmpty(page.site.view(page.clicks))
      invariant old(page.clicks) <= page.clicks <= bound
      invariant forall k :: old(page.clicks) <= k < page.clicks ==> TableEmpty(page.site.view(k))
      invariant page.visited == old(page.visited) && page.cookies == old(page.cookies)
      decreases bound - page.clicks
    {
      page.ClickLoadMore();
    }
  }

  /** The least number of clicks from `from` on that fills the match table. */
  ghost function FirstPopulated(site: Site, from: nat): (r: nat)
    requires Populates(site, from)
    ensures from <= r && !TableEmpty(site.view(r))
    ensures forall k :: from <= k < r ==> TableEmpty(site.view(k))
  {
    var bound: nat :| from <= bound && !TableEmpty(site.view(bound));
    SearchFrom(site, from, bound)
  }

  ghost function SearchFrom(site: Site, k: nat, bound: nat): (r: nat)
    requires k <= bound && !TableEmpty(site.view(bound))
    ensures k <= r <= bound && !TableEmpty(site.view(r))
    ensures forall j :: k <= j < r ==> TableEmpty(site.view(j))
    decreases bound - k
  {
    if !TableEmpty(site.view(k)) then k else SearchFrom(site, k + 1, bound)
  }

  /** Neither the first nor the retried navigation from `visits` navigations on reaches the page. */
  predicate NavigationFails(site: Site, visits: nat) {
    !OnPersonalData(site.title(visits + 1)) && !OnPersonalData(site.title(visits + 2))
  }

  /** goto_personal_data: navigate; when the title is wrong, re-authenticate and navigate once more.
      `ok` is false only when both title checks fail; `reauthenticated` says whether the forced
      re-authentication ran. */
  method GotoPersonalData(page: Page, url: string) returns (ok: bool, reauthenticated: bool)
    modifies page
    ensures reauthenticated <==> !OnPersonalData(page.site.title(|old(page.visited)| + 1))
    ensures page.visited == old(page.visited) + (if reauthenticated then [url, url] else [url])
    ensures ok <==> !NavigationFails(page.site, |old(page.visited)|)
    ensures page.clicks == old(page.clicks) && page.cookies == old(page.cookies)
  {
    page.Goto(url);
    if !OnPersonalData(page.Title()) {
      reauthenticated := true;
      page.Goto(url);
      ok := OnPersonalData(page.Title());
    } else {
      ok, reauthenticated := true, false;
    }
  }
}
