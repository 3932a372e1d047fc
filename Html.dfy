/**
 * A small model of the parsed match-history page: tables, rows, cells and anchors, in document
 * order. Only what the scrapers look at is kept: the classes of cells, tables and anchors, the
 * `style` attribute of rows, the `href` of anchors and the stripped text of cells and anchors
 * (what `get_text(strip=True)` returns, taken as given).
 *
 * A lookup such as `tag.find("td", class_="x")` is the first element of kind `td` carrying class
 * `x` among the descendants of `tag` in document order; `tag.find_all("tr")` is every `tr`
 * descendant, nested ones included. Both are written below over the document-order list of an
 * element's descendants (`RowContent`, `CellContent`, `TableContent`, `BodyContent`).
 */
module Html {
  import opened Wrappers
  import opened Seqs

  /** An `<a>` element: its classes, its `href` attribute when it has one, its stripped text. */
  datatype Anchor = Anchor(classes: set<string>, href: Option<string>, text: string)

  /** A `<td>`: its classes, its stripped text, the anchor it holds directly (which comes first
      in its content) and the tables nested inside it. */
  datatype Cell = Cell(classes: set<string>, text: string, anchor: Option<Anchor>, tables: seq<Table>)

  /** A `<tr>`: its `style` attribute when it has one, and its cells. */
  datatype Row = Row(style: Option<string>, cells: seq<Cell>)

  /** A child of a `<tbody>`: normally a row, but the parser also keeps a stray cell. */
  datatype Item = Tr(row: Row) | Td(cell: Cell)

  /** A `<table>`: its classes, whether it has a `<tbody>`, and the content of the first one. */
  datatype Table = Table(classes: set<string>, hasBody: bool, body: seq<Item>)

  /** One element met in a document-order walk. */
  datatype Node = AnchorNode(anchor: Anchor) | CellNode(cell: Cell) | RowNode(row: Row) | TableNode(table: Table)

  // ---------------------------------------------------------------------------------------------
  // Document-order walk

  /** A cell followed by its descendants. */
  function CellNodes(c: Cell): seq<Node>
    decreases c, 2
  {
    [CellNode(c)] + CellContent(c)
  }

  /** The descendants of a cell: its anchor, then its nested tables. */
  function CellContent(c: Cell): seq<Node>
    decreases c, 1
  {
    (if c.anchor.Some? then [AnchorNode(c.anchor.value)] else []) + NestedFrom(c, 0)
  }

  /** The nested tables of `c` from the `i`-th on, each followed by its descendants. */
  function NestedFrom(c: Cell, i: nat): seq<Node>
    decreases c, 0, |c.tables| - i
  {
    if i >= |c.tables| then [] else TableNodes(c.tables[i]) + NestedFrom(c, i + 1)
  }

  /** A table followed by its descendants. */
  function TableNodes(t: Table): seq<Node>
    decreases t, 2
  {
    [TableNode(t)] + TableContent(t)
  }

  /** The descendants of a table: the content of its body. */
  function TableContent(t: Table): seq<Node>
    decreases t, 1
  {
    if t.hasBody then ItemsFrom(t, 0) else []
  }

  /** The body items of `t` from the `i`-th on, each followed by its descendants. */
  function ItemsFrom(t: Table, i: nat): seq<Node>
    decreases t, 0, |t.body| - i
  {
    if i >= |t.body| then []
    else
      var item := t.body[i];
      (match item
       case Tr(r) => [RowNode(r)] + RowContent(r)
       case Td(c) => CellNodes(c))
      + ItemsFrom(t, i + 1)
  }

  /** The descendants of a row: its cells and everything inside them. */
  function RowContent(r: Row): seq<Node>
    decreases r, 1
  {
    CellsFrom(r, 0)
  }

  /** The cells of `r` from the `i`-th on, each followed by its descendants. */
  function CellsFrom(r: Row, i: nat): seq<Node>
    decreases r, 0, |r.cells| - i
  {
    if i >= |r.cells| then [] else CellNodes(r.cells[i]) + CellsFrom(r, i + 1)
  }

  /** The descendants of a body, i.e. of a table's `<tbody>`. */
  function BodyContent(items: seq<Item>): seq<Node> {
    ItemsFrom(Table({}, true, items), 0)
  }

  // ---------------------------------------------------------------------------------------------
  // find_all / find over a list of descendants

  /** `find_all("td")`. */
  function CellsOf(ns: seq<Node>): (r: seq<Cell>)
    ensures |r| <= |ns|
  {
    if ns == [] then []
    else (if ns[0].CellNode? then [ns[0].cell] else []) + CellsOf(ns[1..])
  }

  /** `find_all("tr")`. */
  function RowsOf(ns: seq<Node>): (r: seq<Row>)
    ensures |r| <= |ns|
  {
    if ns == [] then []
    else (if ns[0].RowNode? then [ns[0].row] else []) + RowsOf(ns[1..])
  }

  function TablesOf(ns: seq<Node>): seq<Table> {
    if ns == [] then []
    else (if ns[0].TableNode? then [ns[0].table] else []) + TablesOf(ns[1..])
  }

  function AnchorsOf(ns: seq<Node>): seq<Anchor> {
    if ns == [] then []
    else (if ns[0].AnchorNode? then [ns[0].anchor] else []) + AnchorsOf(ns[1..])
  }

  /** `find("td", class_=cls)`. */
  function FindCell(ns: seq<Node>, cls: string): Option<Cell> {
    First(CellsOf(ns), (c: Cell) => cls in c.classes)
  }

  /** `find("table", class_=cls)`. */
  function FindTable(ns: seq<Node>, cls: string): Option<Table> {
    First(TablesOf(ns), (t: Table) => cls in t.classes)
  }

  /** `find("a")`. */
  function FindAnchor(ns: seq<Node>): Option<Anchor> {
    if AnchorsOf(ns) == [] then None else Some(AnchorsOf(ns)[0])
  }

  /** `find("a", class_=cls)`. */
  function FindClassedAnchor(ns: seq<Node>, cls: string): Option<Anchor> {
    First(AnchorsOf(ns), (a: Anchor) => cls in a.classes)
  }

  /** The stripped texts of a list of cells. */
  function Texts(cells: seq<Cell>): (r: seq<string>)
    ensures |r| == |cells|
    ensures forall k :: 0 <= k < |cells| ==> r[k] == cells[k].text
  {
    if cells == [] then [] else [cells[0].text] + Texts(cells[1..])
  }

  /** A cell with class `cls` occurs among the descendants. */
  predicate HasCell(ns: seq<Node>, cls: string) {
    FindCell(ns, cls).Some?
  }
}
