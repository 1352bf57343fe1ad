/**
 * The generic client-side table: search over the rendered cells, sorting by a
 * clicked column, pagination with a windowed row of page buttons, and
 * `refresh`. The closure state of the original is a class; every event
 * handler is a method that ends by re-rendering.
 */
module DataTables {
  import opened Optional
  import opened Text
  import opened Sequences

  // ---------------------------------------------------------------------------
  // Cells and rows

  /** The value a column shows for a row: `col.render(row)` or `row[col.key]`. */
  datatype Cell = TextCell(s: string) | NumberCell(n: int) | NullCell | Undefined

  /** One value per column, by column position; a missing one is `undefined`. */
  type Row = seq<Cell>

  datatype Column = Column(key: string, sortable: bool)

  function CellAt(row: Row, k: int): Cell {
    if 0 <= k < |row| then row[k] else Undefined
  }

  /** `String(n)` for an integer. */
  function IntString(n: int): string {
    if n < 0 then "-" + Decimal(-n) else Decimal(n)
  }

  /** `String(value)`. */
  function CellText(c: Cell): string {
    match c
    case TextCell(s) => s
    case NumberCell(n) => IntString(n)
    case NullCell => "null"
    case Undefined => "undefined"
  }

  // ---------------------------------------------------------------------------
  // Search

  /** Some column's text, lower-cased, contains the (lower-cased) term. */
  predicate RowMatches(row: Row, width: nat, term: string) {
    exists k :: 0 <= k < width && Contains(Lower(CellText(CellAt(row, k))), term)
  }

  function MatchesTerm(width: nat, term: string): Row -> bool {
    row => RowMatches(row, width, term)
  }

  /** `data.filter(row => columns.some(...))`. */
  function MatchingRows(rows: seq<Row>, width: nat, term: string): seq<Row> {
    Filter(rows, MatchesTerm(width, term))
  }

  /** The search keeps exactly the matching rows, in the order of `data`. */
  lemma MatchingRowsMembers(rows: seq<Row>, width: nat, term: string)
    ensures forall row :: row in MatchingRows(rows, width, term) <==> row in rows && RowMatches(row, width, term)
    ensures Subsequence(MatchingRows(rows, width, term), rows)
  {
    forall row
      ensures row in MatchingRows(rows, width, term) <==> row in rows && RowMatches(row, width, term)
    {
      FilterMembers(rows, MatchesTerm(width, term), row);
    }
    FilterSubsequence(rows, MatchesTerm(width, term));
  }

  /** An empty search keeps every row as long as there is a column. */
  lemma {:induction false} EmptySearchKeepsAll(rows: seq<Row>, width: nat)
    requires width >= 1
    ensures MatchingRows(rows, width, "") == rows
    decreases |rows|
  {
    if |rows| > 0 {
      ContainsEmpty(Lower(CellText(CellAt(rows[0], 0))));
      EmptySearchKeepsAll(rows[1..], width);
    }
  }

  // ---------------------------------------------------------------------------
  // Sorting

  datatype Direction = Asc | Desc

  function Toggle(d: Direction): Direction {
    if d == Asc then Desc else Asc
  }

  /** The comparator's `aVal < bVal`: strings lower-cased and compared by code units, numbers numerically. */
  predicate Less(a: Cell, b: Cell) {
    match (a, b)
    case (TextCell(x), TextCell(y)) => StringLess(Lower(x), Lower(y))
    case (NumberCell(x), NumberCell(y)) => x < y
    case _ => false
  }

  /** The comparator returns a negative number: `a` goes before `b`. */
  predicate Before(dir: Direction, a: Cell, b: Cell) {
    if dir == Asc then Less(a, b) else Less(b, a)
  }

  /** Two cells the comparator orders consistently: both strings or both numbers. */
  predicate SameKind(a: Cell, b: Cell) {
    (a.TextCell? && b.TextCell?) || (a.NumberCell? && b.NumberCell?)
  }

  /** Every cell of column `k` is a string, or every one is a number. */
  predicate Uniform(rows: seq<Row>, k: int) {
    forall r1, r2 :: r1 in rows && r2 in rows ==> SameKind(CellAt(r1, k), CellAt(r2, k))
  }

  lemma BeforeAsymmetric(dir: Direction, a: Cell, b: Cell)
    requires Before(dir, a, b)
    ensures !Before(dir, b, a)
  {
    if a.TextCell? && b.TextCell? {
      StringLessTrichotomy(Lower(a.s), Lower(b.s));
    }
  }

  /** "Not before" is transitive among cells of one kind. */
  lemma NotBeforeTransitive(dir: Direction, a: Cell, b: Cell, c: Cell)
    requires SameKind(a, b) && SameKind(b, c)
    requires !Before(dir, b, a) && !Before(dir, c, b)
    ensures !Before(dir, c, a)
  {
    if a.TextCell? {
      var (x, y, z) := (Lower(a.s), Lower(b.s), Lower(c.s));
      StringLessTrichotomy(x, y);
      StringLessTrichotomy(y, z);
      StringLessTrichotomy(x, z);
      StringLessIrreflexive(x);
      if dir == Asc {
        if StringLess(z, x) && StringLess(x, y) {
          StringLessTransitive(z, x, y);
        }
      } else {
        if StringLess(x, z) && StringLess(y, x) {
          StringLessTransitive(y, x, z);
        }
      }
    }
  }

  /** No row is placed after one it should precede. */
  predicate Sorted(rows: seq<Row>, k: int, dir: Direction) {
    forall i, j :: 0 <= i < j < |rows| ==> !Before(dir, CellAt(rows[j], k), CellAt(rows[i], k))
  }

  /** Insert `x` before the first row it does not follow, so equal keys keep their order. */
  function Insert(x: Row, t: seq<Row>, k: int, dir: Direction): (r: seq<Row>)
    ensures multiset(r) == multiset(t) + multiset{x}
    ensures |r| == |t| + 1
  {
    if |t| == 0 || !Before(dir, CellAt(t[0], k), CellAt(x, k)) then [x] + t
    else
      assert t == [t[0]] + t[1..];
      [t[0]] + Insert(x, t[1..], k, dir)
  }

  /** The rows `filteredData.sort(comparator)` leaves, as an insertion sort. */
  function SortRows(rows: seq<Row>, k: int, dir: Direction): (r: seq<Row>)
    ensures multiset(r) == multiset(rows)
    ensures |r| == |rows|
  {
    if |rows| == 0 then []
    else
      assert rows == [rows[0]] + rows[1..];
      Insert(rows[0], SortRows(rows[1..], k, dir), k, dir)
  }

  lemma UniformSubset(a: seq<Row>, b: seq<Row>, k: int)
    requires Uniform(b, k) && forall r :: r in a ==> r in b
    ensures Uniform(a, k)
  {
  }

  /** `x` goes first when it does not follow the sorted rows' first one. */
  lemma PrependSorted(x: Row, t: seq<Row>, k: int, dir: Direction)
    requires Sorted(t, k, dir) && Uniform([x] + t, k)
    requires |t| > 0 && !Before(dir, CellAt(t[0], k), CellAt(x, k))
    ensures Sorted([x] + t, k, dir)
  {
    var r := [x] + t;
    forall j | 1 <= j < |r|
      ensures !Before(dir, CellAt(r[j], k), CellAt(x, k))
    {
      if j > 1 {
        assert r[j] == t[j - 1] && t[0] in r && t[j - 1] in r;
        NotBeforeTransitive(dir, CellAt(x, k), CellAt(t[0], k), CellAt(t[j - 1], k));
      }
    }
  }

  /** A row that follows every member of a sorted list may go in front of it. */
  lemma ConsSorted(y: Row, tail: seq<Row>, k: int, dir: Direction)
    requires Sorted(tail, k, dir)
    requires forall j :: 0 <= j < |tail| ==> !Before(dir, CellAt(tail[j], k), CellAt(y, k))
    ensures Sorted([y] + tail, k, dir)
  {
    var r := [y] + tail;
    forall i, j | 0 <= i < j < |r|
      ensures !Before(dir, CellAt(r[j], k), CellAt(r[i], k))
    {
      assert r[j] == tail[j - 1];
      if i > 0 {
        assert r[i] == tail[i - 1];
      }
    }
  }

  lemma {:induction false} InsertSorted(x: Row, t: seq<Row>, k: int, dir: Direction)
    requires Sorted(t, k, dir) && Uniform([x] + t, k)
    ensures Sorted(Insert(x, t, k, dir), k, dir)
    decreases |t|
  {
    if |t| == 0 {
    } else if !Before(dir, CellAt(t[0], k), CellAt(x, k)) {
      PrependSorted(x, t, k, dir);
    } else {
      var rest := t[1..];
      UniformSubset([x] + rest, [x] + t, k);
      InsertSorted(x, rest, k, dir);
      var tail := Insert(x, rest, k, dir);
      BeforeAsymmetric(dir, CellAt(t[0], k), CellAt(x, k));
      forall j | 0 <= j < |tail|
        ensures !Before(dir, CellAt(tail[j], k), CellAt(t[0], k))
      {
        assert tail[j] in multiset(tail);
        if tail[j] != x {
          assert tail[j] in multiset(rest);
          var m :| 0 <= m < |rest| && rest[m] == tail[j];
          assert t[m + 1] == tail[j];
        }
      }
      ConsSorted(t[0], tail, k, dir);
    }
  }

  /** Sorting by a uniform column orders the rows by it and only permutes them. */
  lemma {:induction false} SortRowsSorted(rows: seq<Row>, k: int, dir: Direction)
    requires Uniform(rows, k)
    ensures Sorted(SortRows(rows, k, dir), k, dir)
    ensures multiset(SortRows(rows, k, dir)) == multiset(rows)
    decreases |rows|
  {
    if |rows| > 0 {
      var rest := rows[1..];
      UniformSubset(rest, rows, k);
      SortRowsSorted(rest, k, dir);
      var sorted := SortRows(rest, k, dir);
      forall r | r in [rows[0]] + sorted
        ensures r in rows
      {
        if r != rows[0] {
          assert r in multiset(sorted);
        }
      }
      UniformSubset([rows[0]] + sorted, rows, k);
      InsertSorted(rows[0], sorted, k, dir);
    }
  }

  // ---------------------------------------------------------------------------
  // Page numbers

  /** `Math.ceil(rows / pageSize)`. */
  function TotalPages(rows: nat, pageSize: int): (t: nat)
    requires pageSize >= 1
    ensures t == 0 <==> rows == 0
    ensures (t - 1) * pageSize < rows <= t * pageSize || rows == 0
  {
    (rows + pageSize - 1) / pageSize
  }

  datatype PageItem = PageButton(page: int, active: bool) | Ellipsis(page: int)

  predicate ShowsButton(i: int, current: int, total: int) {
    i == 1 || i == total || (current - 2 <= i <= current + 2)
  }

  /** What the loop emits for page `i`: a button, "...", or nothing. */
  function ItemFor(i: int, current: int, total: int): Option<PageItem> {
    if ShowsButton(i, current, total) then Some(PageButton(i, i == current))
    else if i == current - 3 || i == current + 3 then Some(Ellipsis(i))
    else None
  }

  /** The items for pages 1 to `n`. */
  function Window(current: int, total: int, n: int): seq<PageItem>
    decreases n
  {
    if n <= 0 then []
    else Window(current, total, n - 1)
         + (if ItemFor(n, current, total).Some? then [ItemFor(n, current, total).value] else [])
  }

  lemma {:induction false} WindowMembers(current: int, total: int, n: int, it: PageItem)
    ensures it in Window(current, total, n)
            <==> 1 <= it.page <= n && ItemFor(it.page, current, total) == Some(it)
    decreases n
  {
    if n > 0 {
      WindowMembers(current, total, n - 1, it);
    }
  }

  predicate Increasing(w: seq<PageItem>) {
    forall a, b :: 0 <= a < b < |w| ==> w[a].page < w[b].page
  }

  /** Items for pages 1..n name pages in increasing order. */
  lemma {:induction false} WindowIncreasing(current: int, total: int, n: int)
    ensures Increasing(Window(current, total, n))
    ensures forall it :: it in Window(current, total, n) ==> 1 <= it.page <= n
    decreases n
  {
    if n > 0 {
      WindowIncreasing(current, total, n - 1);
      var prev := Window(current, total, n - 1);
      var w := Window(current, total, n);
      if ItemFor(n, current, total).Some? {
        assert w == prev + [ItemFor(n, current, total).value];
        assert ItemFor(n, current, total).value.page == n;
        forall a, b | 0 <= a < b < |w|
          ensures w[a].page < w[b].page
        {
          if b == |prev| {
            assert w[b] == ItemFor(n, current, total).value;
            assert w[a] == prev[a] && prev[a] in prev;
            assert prev[a].page <= n - 1;
          } else {
            assert w[a] == prev[a] && w[b] == prev[b];
            assert prev[a].page < prev[b].page;
          }
        }
      } else {
        assert w == prev;
      }
      forall it | it in Window(current, total, n)
        ensures 1 <= it.page <= n
      {
        WindowMembers(current, total, n, it);
      }
    }
  }

  /**
   * The window of page numbers: buttons for the first and last page and every
   * page within two of the current one (the current one marked active), and
   * "..." for any other page exactly three away.
   */
  lemma PageWindow(current: int, total: nat, i: int, active: bool)
    ensures PageButton(i, active) in Window(current, total, total)
            <==> 1 <= i <= total && ShowsButton(i, current, total) && active == (i == current)
    ensures Ellipsis(i) in Window(current, total, total)
            <==> && 1 <= i <= total && !ShowsButton(i, current, total)
                 && (i == current - 3 || i == current + 3)
  {
    WindowMembers(current, total, total, PageButton(i, active));
    WindowMembers(current, total, total, Ellipsis(i));
  }

  // ---------------------------------------------------------------------------
  // Table state

  datatype Config = Config(columns: seq<Column>, pageSize: int, pagination: bool, sortable: bool, searchable: bool)

  /** The Previous button, the page items and the Next button, with the page count they were drawn for. */
  datatype Controls = Controls(prevDisabled: bool, items: seq<PageItem>, nextDisabled: bool, total: int)

  datatype TableState = TableState(
    data: seq<Row>,
    filteredData: seq<Row>,
    currentPage: int,
    sortColumn: Option<string>,
    sortDirection: Direction,
    controls: Option<Controls>)  // the pagination element in the container, if any

  function Pages(cfg: Config, st: TableState): nat
    requires cfg.pageSize >= 1
  {
    TotalPages(|st.filteredData|, cfg.pageSize)
  }

  function Max(a: int, b: int): int {
    if a >= b then a else b
  }

  /** `filteredData.slice(start, end)` for the current page, or every row without pagination. */
  function PageRows(cfg: Config, st: TableState): (r: seq<Row>)
    requires cfg.pageSize >= 1 && st.currentPage >= 1
    ensures cfg.pagination ==> |r| <= cfg.pageSize
    ensures !cfg.pagination ==> r == st.filteredData
  {
    var n := |st.filteredData|;
    var start := (st.currentPage - 1) * cfg.pageSize;
    var end := start + cfg.pageSize;
    if cfg.pagination then st.filteredData[(if start < n then start else n)..(if end < n then end else n)]
    else st.filteredData
  }

  function ControlsFor(cfg: Config, st: TableState): Controls
    requires cfg.pageSize >= 1
  {
    var total := Pages(cfg, st);
    Controls(st.currentPage == 1, Window(st.currentPage, total, total),
             st.currentPage == total, total)
  }

  /** `renderTable` with the pagination element removed when one page or none is left. */
  function Rendered(cfg: Config, st: TableState): TableState
    requires cfg.pageSize >= 1
  {
    st.(controls := if cfg.pagination && Pages(cfg, st) > 1 then Some(ControlsFor(cfg, st)) else None)
  }

  /** `renderTable` as written: with one page or none it leaves the old pagination element in place. */
  function RenderedAsWritten(cfg: Config, st: TableState): (r: TableState)
    requires cfg.pageSize >= 1
    ensures r.(controls := st.controls) == st
    ensures cfg.pagination && Pages(cfg, st) > 1 ==> r == Rendered(cfg, st)
    ensures !(cfg.pagination && Pages(cfg, st) > 1) ==> r.controls == st.controls
  {
    if cfg.pagination && Pages(cfg, st) > 1 then st.(controls := Some(ControlsFor(cfg, st))) else st
  }

  /** The current page is a real page, and the pagination element is the one for the current state. */
  predicate StateValid(cfg: Config, st: TableState) {
    && cfg.pageSize >= 1
    && 1 <= st.currentPage <= Max(1, Pages(cfg, st))
    && st.controls == (if cfg.pagination && Pages(cfg, st) > 1 then Some(ControlsFor(cfg, st)) else None)
  }

  function Initial(cfg: Config, data: seq<Row>): TableState
    requires cfg.pageSize >= 1
  {
    Rendered(cfg, TableState(data, data, 1, None, Asc, None))
  }

  function Searched(cfg: Config, st: TableState, input: string): TableState
    requires cfg.pageSize >= 1
  {
    Rendered(cfg, st.(filteredData := MatchingRows(st.data, |cfg.columns|, Lower(input)), currentPage := 1))
  }

  /** A header click: toggle or select the column, then sort; a column that is not sortable has no handler. */
  function HeaderClicked(cfg: Config, st: TableState, k: int): TableState
    requires cfg.pageSize >= 1 && 0 <= k < |cfg.columns|
  {
    var col := cfg.columns[k];
    if !(cfg.sortable && col.sortable) then st
    else
      var dir := if st.sortColumn == Some(col.key) then Toggle(st.sortDirection) else Asc;
      Rendered(cfg, st.(sortColumn := Some(col.key), sortDirection := dir,
                        filteredData := SortRows(st.filteredData, k, dir)))
  }

  function PrevClicked(cfg: Config, st: TableState): TableState
    requires cfg.pageSize >= 1
  {
    if st.currentPage > 1 then Rendered(cfg, st.(currentPage := st.currentPage - 1)) else st
  }

  /** The Next handler compares with the page count captured when its button was drawn. */
  function NextClicked(cfg: Config, st: TableState): TableState
    requires cfg.pageSize >= 1 && st.controls.Some?
  {
    if st.currentPage < st.controls.value.total then Rendered(cfg, st.(currentPage := st.currentPage + 1))
    else st
  }

  function PageClicked(cfg: Config, st: TableState, i: int): TableState
    requires cfg.pageSize >= 1
  {
    Rendered(cfg, st.(currentPage := i))
  }

  function Refreshed(cfg: Config, st: TableState, newData: seq<Row>): TableState
    requires cfg.pageSize >= 1
  {
    Rendered(cfg, st.(data := newData, filteredData := newData, currentPage := 1))
  }

  // ---------------------------------------------------------------------------
  // What the events keep

  lemma RenderedValid(cfg: Config, st: TableState)
    requires cfg.pageSize >= 1 && 1 <= st.currentPage <= Max(1, Pages(cfg, st))
    ensures StateValid(cfg, Rendered(cfg, st))
  {
  }

  lemma InitialValid(cfg: Config, data: seq<Row>)
    requires cfg.pageSize >= 1
    ensures StateValid(cfg, Initial(cfg, data))
    ensures PageRows(cfg, Initial(cfg, data)) == data[..if cfg.pagination && cfg.pageSize < |data| then cfg.pageSize else |data|]
  {
  }

  /** A search starts again on page 1 with exactly the matching rows of `data`, in order. */
  lemma SearchKeepsValid(cfg: Config, st: TableState, input: string)
    requires cfg.pageSize >= 1
    ensures var after := Searched(cfg, st, input);
            && StateValid(cfg, after) && after.currentPage == 1
            && after.data == st.data
            && after.sortColumn == st.sortColumn && after.sortDirection == st.sortDirection
            && Subsequence(after.filteredData, st.data)
            && forall row :: (row in after.filteredData
                              <==> row in st.data && RowMatches(row, |cfg.columns|, Lower(input)))
  {
    MatchingRowsMembers(st.data, |cfg.columns|, Lower(input));
  }

  /** A sort keeps the page and the row count, and orders the rows by the clicked column. */
  lemma HeaderKeepsValid(cfg: Config, st: TableState, k: int)
    requires StateValid(cfg, st) && 0 <= k < |cfg.columns|
    requires Uniform(st.filteredData, k)
    ensures var after := HeaderClicked(cfg, st, k);
            && StateValid(cfg, after)
            && after.currentPage == st.currentPage
            && multiset(after.filteredData) == multiset(st.filteredData)
            && (cfg.sortable && cfg.columns[k].sortable ==>
                  && after.sortColumn == Some(cfg.columns[k].key)
                  && after.sortDirection
                     == (if st.sortColumn == Some(cfg.columns[k].key) then Toggle(st.sortDirection) else Asc)
                  && Sorted(after.filteredData, k, after.sortDirection))
  {
    if cfg.sortable && cfg.columns[k].sortable {
      var dir := if st.sortColumn == Some(cfg.columns[k].key) then Toggle(st.sortDirection) else Asc;
      SortRowsSorted(st.filteredData, k, dir);
    }
  }

  lemma HeaderClickedValid(cfg: Config, st: TableState, k: int)
    requires StateValid(cfg, st) && 0 <= k < |cfg.columns|
    ensures StateValid(cfg, HeaderClicked(cfg, st, k))
  {
  }

  /** Clicking the same sortable column twice sorts it one way and then the other. */
  lemma HeaderTwiceReverses(cfg: Config, st: TableState, k: int)
    requires StateValid(cfg, st) && 0 <= k < |cfg.columns|
    requires cfg.sortable && cfg.columns[k].sortable
    ensures var once := HeaderClicked(cfg, st, k);
            HeaderClicked(cfg, once, k).sortDirection == Toggle(once.sortDirection)
  {
  }

  /** Previous and Next move one page and never leave the range 1..totalPages. */
  lemma PrevNextKeepValid(cfg: Config, st: TableState)
    requires StateValid(cfg, st) && st.controls.Some?
    ensures StateValid(cfg, PrevClicked(cfg, st)) && StateValid(cfg, NextClicked(cfg, st))
    ensures PrevClicked(cfg, st).currentPage == if st.currentPage > 1 then st.currentPage - 1 else st.currentPage
    ensures NextClicked(cfg, st).currentPage
            == if st.currentPage < Pages(cfg, st) then st.currentPage + 1 else st.currentPage
    ensures 1 <= NextClicked(cfg, st).currentPage <= Pages(cfg, st)
  {
  }

  /** Every page button in the bar leads to a real page. */
  lemma PageClickKeepsValid(cfg: Config, st: TableState, i: int, active: bool)
    requires StateValid(cfg, st) && st.controls.Some?
    requires PageButton(i, active) in st.controls.value.items
    ensures StateValid(cfg, PageClicked(cfg, st, i))
  {
    PageWindow(st.currentPage, Pages(cfg, st), i, active);
  }

  lemma RefreshKeepsValid(cfg: Config, st: TableState, newData: seq<Row>)
    requires cfg.pageSize >= 1
    ensures var after := Refreshed(cfg, st, newData);
            StateValid(cfg, after) && after.filteredData == newData && after.currentPage == 1
  {
  }

  /** The pagination bar is drawn exactly when pagination is on and there is more than one page. */
  lemma ControlsShownIffSeveralPages(cfg: Config, st: TableState)
    requires StateValid(cfg, st)
    ensures st.controls.Some? <==> cfg.pagination && Pages(cfg, st) > 1
    ensures st.controls.Some? ==>
              && st.controls.value.prevDisabled == (st.currentPage == 1)
              && st.controls.value.nextDisabled == (st.currentPage == Pages(cfg, st))
  {
  }

  lemma MulMonotone(a: int, b: int, c: int)
    requires a <= b && c >= 0
    ensures a * c <= b * c
  {
  }

  /** In a valid state the shown page is never empty while there are rows. */
  lemma PageNotEmpty(cfg: Config, st: TableState)
    requires StateValid(cfg, st) && |st.filteredData| > 0
    ensures |PageRows(cfg, st)| >= 1
  {
    var t := Pages(cfg, st);
    MulMonotone(st.currentPage - 1, t - 1, cfg.pageSize);
  }

  // ---------------------------------------------------------------------------
  // Pages cover the rows

  /** The rows of page `p`: rows [(p - 1) * size, p * size) clipped to the list. */
  function Page(rows: seq<Row>, size: int, p: int): seq<Row>
    requires size >= 1 && p >= 1
  {
    var n := |rows|;
    var start := (p - 1) * size;
    var end := start + size;
    rows[(if start < n then start else n)..(if end < n then end else n)]
  }

  function PagesUpTo(rows: seq<Row>, size: int, p: int): seq<Row>
    requires size >= 1 && p >= 0
    decreases p
  {
    if p == 0 then [] else PagesUpTo(rows, size, p - 1) + Page(rows, size, p)
  }

  lemma {:induction false} PagesUpToPrefix(rows: seq<Row>, size: int, p: int)
    requires size >= 1 && p >= 0
    ensures PagesUpTo(rows, size, p) == rows[..if p * size < |rows| then p * size else |rows|]
    decreases p
  {
    if p > 0 {
      PagesUpToPrefix(rows, size, p - 1);
      assert (p - 1) * size + size == p * size;
    }
  }

  /** Pages 1..totalPages, one after another, are exactly the rows. */
  lemma PagesCoverRows(rows: seq<Row>, size: int)
    requires size >= 1
    ensures PagesUpTo(rows, size, TotalPages(|rows|, size)) == rows
  {
    PagesUpToPrefix(rows, size, TotalPages(|rows|, size));
  }

  /** The shown rows are page `currentPage` of `filteredData`. */
  lemma PageRowsIsPage(cfg: Config, st: TableState)
    requires cfg.pageSize >= 1 && st.currentPage >= 1 && cfg.pagination
    ensures PageRows(cfg, st) == Page(st.filteredData, cfg.pageSize, st.currentPage)
  {
  }

  // ---------------------------------------------------------------------------
  // The stale pagination bar

  function InitialAsWritten(cfg: Config, data: seq<Row>): TableState
    requires cfg.pageSize >= 1
  {
    RenderedAsWritten(cfg, TableState(data, data, 1, None, Asc, None))
  }

  function SearchedAsWritten(cfg: Config, st: TableState, input: string): TableState
    requires cfg.pageSize >= 1
  {
    RenderedAsWritten(cfg, st.(filteredData := MatchingRows(st.data, |cfg.columns|, Lower(input)),
                               currentPage := 1))
  }

  function NextClickedAsWritten(cfg: Config, st: TableState): TableState
    requires cfg.pageSize >= 1 && st.controls.Some?
  {
    if st.currentPage < st.controls.value.total
    then RenderedAsWritten(cfg, st.(currentPage := st.currentPage + 1))
    else st
  }

  const SampleConfig := Config([Column("name", true)], 1, true, true, true)
  const RowA: Row := [TextCell("a")]
  const RowB: Row := [TextCell("b")]

  lemma SampleSearch()
    ensures MatchingRows([RowA, RowB], 1, "a") == [RowA]
  {
    assert Lower(CellText(CellAt(RowA, 0))) == "a";
    assert OccursAt("a", "a", 0);
    assert RowMatches(RowA, 1, "a");
    assert !RowMatches(RowB, 1, "a") by {
      assert "b" == Lower(CellText(CellAt(RowB, 0)));
      assert !OccursAt("b", "a", 0);
    }
    var p := MatchesTerm(1, "a");
    assert [RowA, RowB][1..] == [RowB] && [RowB][1..] == [];
    assert Filter([RowB], p) == [];
    assert Filter([RowA, RowB], p) == [RowA] + Filter([RowB], p);
  }

  /**
   * Two rows, one per page. A search keeping one row leaves the old two-page
   * bar on screen; its Next button still believes there are two pages and
   * moves to page 2, which shows no rows although one row matches.
   */
  lemma StaleBarShowsEmptyPage()
    ensures var s0 := InitialAsWritten(SampleConfig, [RowA, RowB]);
            var s1 := SearchedAsWritten(SampleConfig, s0, "a");
            && s1.controls.Some? && s1.filteredData == [RowA]
            && var s2 := NextClickedAsWritten(SampleConfig, s1);
               && s2.currentPage == 2 && Pages(SampleConfig, s2) == 1
               && PageRows(SampleConfig, s2) == []
               && !StateValid(SampleConfig, s2)
  {
    SampleSearch();
    assert Lower("a") == "a";
  }

  // ---------------------------------------------------------------------------
  // The table object

  class DataTable {
    const columns: seq<Column>
    const pageSize: int
    const pagination: bool
    const sortable: bool
    const searchable: bool

    var data: seq<Row>
    var filteredData: seq<Row>
    var currentPage: int
    var sortColumn: Option<string>
    var sortDirection: Direction
    var controls: Option<Controls>

    function Cfg(): Config {
      Config(columns, pageSize, pagination, sortable, searchable)
    }

    function Snapshot(): TableState
      reads this
    {
      TableState(data, filteredData, currentPage, sortColumn, sortDirection, controls)
    }

    ghost predicate Valid()
      reads this
    {
      StateValid(Cfg(), Snapshot())
    }

    /** `createDataTable(data, columns, options)`, which renders once. */
    constructor (initial: seq<Row>, cols: seq<Column>, size: int, paged: bool, sorts: bool, searches: bool)
      requires size >= 1
      ensures Cfg() == Config(cols, size, paged, sorts, searches)
      ensures Snapshot() == Initial(Cfg(), initial) && Valid()
    {
      columns, pageSize, pagination, sortable, searchable := cols, size, paged, sorts, searches;
      data, filteredData := initial, initial;
      currentPage, sortColumn, sortDirection, controls := 1, None, Asc, None;
      new;
      Render();
    }

    function TotalPagesNow(): nat
      reads this
      requires pageSize >= 1
    {
      TotalPages(|filteredData|, pageSize)
    }

    /** The page-number loop of `renderTable`. */
    method PageItems() returns (items: seq<PageItem>)
      requires pageSize >= 1
      ensures items == Window(currentPage, TotalPagesNow(), TotalPagesNow())
    {
      var total := TotalPagesNow();
      items := [];
      for i := 1 to total + 1
        invariant items == Window(currentPage, total, i - 1)
      {
        if i == 1 || i == total || (i >= currentPage - 2 && i <= currentPage + 2) {
          items := items + [PageButton(i, i == currentPage)];
        } else if i == currentPage - 3 || i == currentPage + 3 {
          items := items + [Ellipsis(i)];
        }
      }
    }

    /** `renderTable`, removing the pagination element when it is no longer needed. */
    method Render()
      requires pageSize >= 1
      modifies this
      ensures Snapshot() == Rendered(Cfg(), old(Snapshot()))
    {
      var total := TotalPagesNow();
      if pagination && total > 1 {
        var items := PageItems();
        controls := Some(Controls(currentPage == 1, items, currentPage == total, total));
      } else {
        controls := None;
      }
    }

    /** The search box's input handler; the box exists only for a searchable table. */
    method Search(input: string)
      requires Valid() && searchable
      modifies this
      ensures Snapshot() == Searched(Cfg(), old(Snapshot()), input) && Valid()
    {
      SearchKeepsValid(Cfg(), Snapshot(), input);
      var term := Lower(input);
      filteredData := MatchingRows(data, |columns|, term);
      currentPage := 1;
      Render();
    }

    /** A click on the header of column `k`. */
    method ClickHeader(k: int)
      requires Valid() && 0 <= k < |columns| && Uniform(filteredData, k)
      modifies this
      ensures Snapshot() == HeaderClicked(Cfg(), old(Snapshot()), k) && Valid()
    {
      HeaderClickedValid(Cfg(), Snapshot(), k);
      var col := columns[k];
      if sortable && col.sortable {
        var dir := Asc;
        if sortColumn == Some(col.key) {
          dir := Toggle(sortDirection);
        }
        sortColumn, sortDirection := Some(col.key), dir;
        filteredData := SortRows(filteredData, k, dir);
        Render();
      }
    }

    method ClickPrev()
      requires Valid() && controls.Some?
      modifies this
      ensures Snapshot() == PrevClicked(Cfg(), old(Snapshot())) && Valid()
    {
      PrevNextKeepValid(Cfg(), Snapshot());
      if currentPage > 1 {
        currentPage := currentPage - 1;
        Render();
      }
    }

    method ClickNext()
      requires Valid() && controls.Some?
      modifies this
      ensures Snapshot() == NextClicked(Cfg(), old(Snapshot())) && Valid()
    {
      PrevNextKeepValid(Cfg(), Snapshot());
      if currentPage < controls.value.total {
        currentPage := currentPage + 1;
        Render();
      }
    }

    /** A click on the button of page `i`. */
    method ClickPage(i: int, active: bool)
      requires Valid() && controls.Some? && PageButton(i, active) in controls.value.items
      modifies this
      ensures Snapshot() == PageClicked(Cfg(), old(Snapshot()), i) && Valid()
    {
      PageClickKeepsValid(Cfg(), Snapshot(), i, active);
      currentPage := i;
      Render();
    }

    /** `refresh(newData)`. */
    method Refresh(newData: seq<Row>)
      requires Valid()
      modifies this
      ensures Snapshot() == Refreshed(Cfg(), old(Snapshot()), newData) && Valid()
    {
      data := newData;
      filteredData := newData;
      currentPage := 1;
      Render();
    }
  }
}
