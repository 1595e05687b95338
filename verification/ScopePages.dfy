/** ORDER BY over the selected rows, and the pages that LIMIT and OFFSET cut from the ordered list. */
module ScopePages {
  import opened Wrappers
  import opened Texts
  import opened Sql
  import opened UserPropertyScope

  // ---------- ORDER BY ----------

  function SortKey(order: Order, row: Row): Value {
    ColumnValue(if order.By? then order.column else FocusScore, row)
  }

  // A missing value comes before every number, and a number before every text.
  predicate Before(a: Value, b: Value) {
    if a == Null then b != Null else Less(a, b)
  }

  predicate MayPrecede(order: Order, a: Row, b: Row) {
    if order.By? && !order.descending then !Before(SortKey(order, b), SortKey(order, a))
    else !Before(SortKey(order, a), SortKey(order, b))
  }

  predicate InOrder(order: Order, rows: seq<Row>) {
    forall i, j | 0 <= i < j < |rows| :: MayPrecede(order, rows[i], rows[j])
  }

  // What a database may answer: every row as often as it was selected, in an order that respects the sort keys.
  predicate IsListing(order: Order, rows: seq<Row>, listing: seq<Row>) {
    multiset(listing) == multiset(rows) && InOrder(order, listing)
  }

  lemma BeforeOrders(a: Value, b: Value, c: Value)
    ensures !(Before(a, b) && Before(b, a))
    ensures !Before(a, b) && !Before(b, c) ==> !Before(a, c)
  {
    if a.Text? && b.Text? { StrLessTotal(a.s, b.s); }
    if b.Text? && c.Text? { StrLessTotal(b.s, c.s); }
    if a.Text? && b.Text? && c.Text? && StrLess(a.s, c.s) {
      if StrLess(c.s, b.s) { StrLessTransitive(a.s, c.s, b.s); }
    }
  }

  // Missing values first, then numbers by size, then text by its characters.
  predicate Ascends(a: Value, b: Value) {
    match (a, b)
    case (Null, _) => true
    case (Number(m), Number(n)) => m <= n
    case (Number(_), Text(_)) => true
    case (Text(s), Text(t)) => !StrLess(t, s)
    case (_, _) => false
  }

  // The order that a sort parameter asks for: by score descending without one.
  predicate SortedAs(sort: Option<string>, rows: seq<Row>) {
    var name, descending := if sort.Some? then SortName(sort.value) else "focus_score", sort.None? || (sort.value != "" && sort.value[0] == '-');
    forall i, j | 0 <= i < j < |rows| ::
      if descending then Ascends(FieldOf(name, rows[j]), FieldOf(name, rows[i])) else Ascends(FieldOf(name, rows[i]), FieldOf(name, rows[j]))
  }

  /** Rows that are in order are sorted as the parameter asks. */
  lemma InOrderIsSorted(order: Order, sort: Option<string>, rows: seq<Row>)
    requires IsOrdered(order, sort)
    ensures InOrder(order, rows) <==> SortedAs(sort, rows)
  {
    forall a, b ensures Ascends(a, b) <==> !Before(b, a) { }
    var name := if sort.Some? then SortName(sort.value) else "focus_score";
    forall row ensures SortKey(order, row) == FieldOf(name, row) { }
    hide Ascends, Before, SortKey, FieldOf, SortName;
  }

  function InsertRow(order: Order, row: Row, rows: seq<Row>): seq<Row> {
    if rows == [] || MayPrecede(order, row, rows[0]) then [row] + rows
    else [rows[0]] + InsertRow(order, row, rows[1..])
  }

  function SortRows(order: Order, rows: seq<Row>): seq<Row> {
    if rows == [] then [] else InsertRow(order, rows[0], SortRows(order, rows[1..]))
  }

  lemma FirstOfAll(order: Order, row: Row, rows: seq<Row>)
    requires InOrder(order, rows) && forall b | b in rows :: MayPrecede(order, row, b)
    ensures InOrder(order, [row] + rows)
  {
    var all := [row] + rows;
    forall i, j | 0 <= i < j < |all| ensures MayPrecede(order, all[i], all[j]) {
      if i == 0 { assert all[j] in rows; } else { assert MayPrecede(order, rows[i - 1], rows[j - 1]); }
    }
  }

  lemma PrecedesAll(order: Order, row: Row, rows: seq<Row>)
    requires rows != [] && InOrder(order, rows) && MayPrecede(order, row, rows[0])
    ensures forall b | b in rows :: MayPrecede(order, row, b)
  {
    forall b | b in rows ensures MayPrecede(order, row, b) {
      var j :| 0 <= j < |rows| && rows[j] == b;
      if j > 0 {
        assert MayPrecede(order, rows[0], rows[j]);
        BeforeOrders(SortKey(order, row), SortKey(order, rows[0]), SortKey(order, b));
        BeforeOrders(SortKey(order, b), SortKey(order, rows[0]), SortKey(order, row));
      }
    }
  }

  lemma {:induction false} InsertRowSorts(order: Order, row: Row, rows: seq<Row>)
    requires InOrder(order, rows)
    ensures IsListing(order, [row] + rows, InsertRow(order, row, rows))
  {
    if rows != [] && !MayPrecede(order, row, rows[0]) {
      var rest := InsertRow(order, row, rows[1..]);
      assert rows == [rows[0]] + rows[1..];
      InsertRowSorts(order, row, rows[1..]);
      BeforeOrders(SortKey(order, row), SortKey(order, rows[0]), SortKey(order, row));
      forall b | b in rest ensures MayPrecede(order, rows[0], b) {
        assert b in multiset(rest) && b in multiset([row] + rows[1..]);
        if b != row {
          var j :| 0 <= j < |rows[1..]| && rows[1..][j] == b;
          assert MayPrecede(order, rows[0], rows[j + 1]);
        }
      }
      FirstOfAll(order, rows[0], rest);
    } else if rows != [] {
      PrecedesAll(order, row, rows);
      FirstOfAll(order, row, rows);
    }
  }

  lemma {:induction false} SortRowsSorts(order: Order, rows: seq<Row>)
    ensures IsListing(order, rows, SortRows(order, rows))
  {
    if rows != [] {
      SortRowsSorts(order, rows[1..]);
      InsertRowSorts(order, rows[0], SortRows(order, rows[1..]));
      assert rows == [rows[0]] + rows[1..];
    }
  }

  // ORDER BY: the contract leaves open how rows with equal keys are ordered.
  method OrderRows(order: Order, rows: seq<Row>) returns (listing: seq<Row>)
    ensures IsListing(order, rows, listing)
  {
    SortRowsSorts(order, rows);
    listing := SortRows(order, rows);
  }

  // ---------- LIMIT and OFFSET ----------

  function Slice(rows: seq<Row>, from: nat, count: nat): seq<Row> {
    if from >= |rows| then [] else if from + count >= |rows| then rows[from..] else rows[from..from + count]
  }

  // LIMIT limit OFFSET offset
  function Cut(rows: seq<Row>, limit: Value, offset: Value): seq<Row>
    requires limit.Number? && offset.Number? && limit.n >= 0.0 && offset.n >= 0.0
  {
    Slice(rows, offset.n.Floor, limit.n.Floor)
  }

  function PageOf(listing: seq<Row>, page: int, size: int): seq<Row>
    requires page >= 1 && size >= 1
  {
    Slice(listing, (page - 1) * size, size)
  }

  // Math.ceil(total / size)
  function Ceiling(total: nat, size: int): (pages: nat)
    requires size >= 1
    ensures (pages - 1) * size < total <= pages * size || (total == 0 && pages == 0)
  {
    (total + size - 1) / size
  }

  // What ORDER BY answers to the query for each page.
  type Answers = int -> seq<Row>

  function Always(listing: seq<Row>): Answers { (page: int) => listing }

  ghost predicate AreListings(order: Order, rows: seq<Row>, answers: Answers) {
    forall page :: IsListing(order, rows, answers(page))
  }

  // Pages 1 to n in one list, each cut from its own answer.
  function Pages(answers: Answers, n: nat, size: int): seq<Row>
    requires size >= 1
  {
    if n == 0 then [] else Pages(answers, n - 1, size) + PageOf(answers(n), n, size)
  }

  function Clip(n: int, rows: seq<Row>): (r: nat)
    ensures r <= |rows| && (0 <= n ==> r <= n)
  {
    if n <= 0 then 0 else if n <= |rows| then n else |rows|
  }

  lemma PageIsBetween(listing: seq<Row>, page: int, size: int)
    requires page >= 1 && size >= 1
    ensures 0 <= (page - 1) * size && Clip((page - 1) * size, listing) <= Clip(page * size, listing)
    ensures PageOf(listing, page, size) == listing[Clip((page - 1) * size, listing)..Clip(page * size, listing)]
  {
    assert page * size == (page - 1) * size + size;
  }

  // The first n pages of one listing.
  function UpTo(listing: seq<Row>, n: nat, size: int): seq<Row> { listing[..Clip(n * size, listing)] }

  // As long as one listing answers, the pages are its beginning.
  lemma {:induction false} PagesAreAPrefix(answers: Answers, listing: seq<Row>, n: nat, size: int)
    requires size >= 1 && forall page | 1 <= page <= n :: answers(page) == listing
    ensures Pages(answers, n, size) == UpTo(listing, n, size)
  {
    if n > 0 {
      PagesAreAPrefix(answers, listing, n - 1, size);
      PageIsBetween(listing, n, size);
    }
  }

  /**
    If one listing answers every query, the pages up to the reported last one are that listing, so every selected row is
    on them as often as it was selected; each of these pages has a row, all but the last are full, and the pages after
    them are empty.
   */
  lemma PagesPartition(order: Order, rows: seq<Row>, listing: seq<Row>, size: int)
    requires IsListing(order, rows, listing) && size >= 1
    ensures var last := Ceiling(|rows|, size);
            && Pages(Always(listing), last, size) == listing
            && (forall page | 1 <= page < last :: |PageOf(listing, page, size)| == size)
            && (last >= 1 ==> 1 <= |PageOf(listing, last, size)| <= size)
            && (forall page | page > last :: PageOf(listing, page, size) == [])
  {
    assert |multiset(listing)| == |multiset(rows)|;
    var last := Ceiling(|rows|, size);
    PagesAreAPrefix(Always(listing), listing, last, size);
    forall page | 1 <= page < last ensures |PageOf(listing, page, size)| == size { PageSize(listing, page, size); }
    if last >= 1 { PageSize(listing, last, size); }
    forall page | page > last ensures PageOf(listing, page, size) == [] { PageSize(listing, page, size); }
  }

  lemma PageSize(listing: seq<Row>, page: int, size: int)
    requires size >= 1 && page >= 1
    ensures var last := Ceiling(|listing|, size);
            && (page < last ==> |PageOf(listing, page, size)| == size)
            && (page == last ==> 1 <= |PageOf(listing, page, size)| <= size)
            && (page > last ==> PageOf(listing, page, size) == [])
  {
    var last := Ceiling(|listing|, size);
    assert page * size == (page - 1) * size + size;
    if page < last { ProductGrows(page, last - 1, size); }
    if page > last { ProductGrows(last, page - 1, size); }
  }

  lemma ProductGrows(a: int, b: int, size: int)
    requires a <= b && size >= 1
    ensures a * size <= b * size
  {
  }

  /** No row of a later page may have had to come before a row of an earlier one. */
  lemma PagesAreInOrder(order: Order, listing: seq<Row>, p: int, q: int, size: int, i: nat, j: nat)
    requires InOrder(order, listing) && 1 <= p < q && size >= 1
    requires i < |PageOf(listing, p, size)| && j < |PageOf(listing, q, size)|
    ensures MayPrecede(order, PageOf(listing, p, size)[i], PageOf(listing, q, size)[j])
  {
    ProductGrows(p, q - 1, size);
    assert p * size == (p - 1) * size + size;
    assert PageOf(listing, p, size)[i] == listing[(p - 1) * size + i];
    assert PageOf(listing, q, size)[j] == listing[(q - 1) * size + j];
  }

  // ---------- Every page is a query of its own ----------

  predicate Tied(order: Order, a: Row, b: Row) { MayPrecede(order, a, b) && MayPrecede(order, b, a) }

  // No two different rows with equal keys stand on the two sides of the end of page k.
  predicate BoundaryHolds(order: Order, listing: seq<Row>, k: int, size: int) {
    forall i, j | 0 <= i < k * size <= j < |listing| :: Tied(order, listing[i], listing[j]) ==> listing[i] == listing[j]
  }

  ghost predicate NoTieIsCut(order: Order, listing: seq<Row>, size: int) {
    forall k | k >= 1 :: BoundaryHolds(order, listing, k, size)
  }

  lemma NoMoreIsEqual(a: multiset<Row>, b: multiset<Row>)
    requires |a| == |b| && forall v :: a[v] <= b[v]
    ensures a == b
  {
    assert b == a + (b - a);
    assert |b - a| == 0;
  }

  lemma MoreOfOne(a: multiset<Row>, b: multiset<Row>)
    requires |a| == |b| && a != b
    ensures exists v :: a[v] > b[v]
  {
    if forall v :: a[v] <= b[v] { NoMoreIsEqual(a, b); }
  }

  lemma SplitCounts(rows: seq<Row>, m: nat)
    requires m <= |rows|
    ensures multiset(rows) == multiset(rows[..m]) + multiset(rows[m..])
  {
    assert rows == rows[..m] + rows[m..];
  }

  // Up to the end of a page at which no tie is cut, every listing has the same rows.
  lemma PrefixIsFixed(order: Order, x: seq<Row>, y: seq<Row>, k: int, size: int)
    requires InOrder(order, x) && InOrder(order, y) && multiset(x) == multiset(y)
    requires k * size >= 0 && BoundaryHolds(order, x, k, size)
    ensures Clip(k * size, x) == Clip(k * size, y)
    ensures multiset(x[..Clip(k * size, x)]) == multiset(y[..Clip(k * size, y)])
  {
    assert |multiset(x)| == |multiset(y)|;
    ClipSame(k * size, x, y);
    hide *;
    var m := Clip(k * size, x);
    SplitCounts(x, m);
    SplitCounts(y, m);
    PrefixSizes(x, y, m);
    if multiset(x[..m]) != multiset(y[..m]) {
      var v, u := Exchanged(multiset(x[..m]), multiset(x[m..]), multiset(y[..m]), multiset(y[m..]));
      Crossed(order, x, y, k, size, m, v, u);
    }
  }

  lemma PrefixSizes(x: seq<Row>, y: seq<Row>, m: nat)
    requires m <= |x| && m <= |y|
    ensures |multiset(x[..m])| == |multiset(y[..m])|
  {
  }

  lemma Exchanged(a: multiset<Row>, a': multiset<Row>, b: multiset<Row>, b': multiset<Row>) returns (v: Row, u: Row)
    requires a + a' == b + b' && |a| == |b| && a != b
    ensures v != u && a[v] > 0 && b'[v] > 0 && b[u] > 0 && a'[u] > 0
  {
    MoreOfOne(a, b);
    MoreOfOne(b, a);
    v :| a[v] > b[v];
    u :| b[u] > a[u];
    assert (a + a')[v] == (b + b')[v] && (a + a')[u] == (b + b')[u];
  }

  lemma ClipSame(n: int, x: seq<Row>, y: seq<Row>)
    requires |x| == |y|
    ensures Clip(n, x) == Clip(n, y)
  {
  }

  // Two rows that change sides between two listings have equal keys.
  lemma Crossed(order: Order, x: seq<Row>, y: seq<Row>, k: int, size: int, m: nat, v: Row, u: Row)
    requires InOrder(order, x) && InOrder(order, y) && BoundaryHolds(order, x, k, size)
    requires m <= |x| == |y| && m == Clip(k * size, x) && k * size >= 0
    requires multiset(x[..m])[v] > 0 && multiset(x[m..])[u] > 0 && multiset(y[..m])[u] > 0 && multiset(y[m..])[v] > 0
    ensures u == v
  {
    hide *;
    var i := PlaceOf(x, x[..m], v, 0);
    var j := PlaceOf(x, x[m..], u, m);
    var i' := PlaceOf(y, y[..m], u, 0);
    var j' := PlaceOf(y, y[m..], v, m);
    InOrderAt(order, x, i, j);
    InOrderAt(order, y, i', j');
    Sides(order, x, k, size, i, j);
  }

  lemma InOrderAt(order: Order, rows: seq<Row>, i: nat, j: nat)
    requires InOrder(order, rows) && i < j < |rows|
    ensures MayPrecede(order, rows[i], rows[j])
  {
  }

  lemma Sides(order: Order, x: seq<Row>, k: int, size: int, i: nat, j: nat)
    requires BoundaryHolds(order, x, k, size) && i < Clip(k * size, x) <= j < |x|
    requires MayPrecede(order, x[i], x[j]) && MayPrecede(order, x[j], x[i])
    ensures x[i] == x[j]
  {
    hide MayPrecede;
  }

  lemma PlaceOf(rows: seq<Row>, part: seq<Row>, v: Row, from: nat) returns (i: nat)
    requires from + |part| <= |rows| && part == rows[from..from + |part|] && multiset(part)[v] > 0
    ensures from <= i < from + |part| && rows[i] == v
  {
    assert v in part;
    var k :| 0 <= k < |part| && part[k] == v;
    i := from + k;
  }

  lemma {:induction false} PagesCount(order: Order, rows: seq<Row>, x: seq<Row>, answers: Answers, n: nat, size: int)
    requires size >= 1 && IsListing(order, rows, x) && AreListings(order, rows, answers) && NoTieIsCut(order, x, size)
    ensures multiset(Pages(answers, n, size)) == multiset(UpTo(x, n, size))
  {
    hide *;
    if n > 0 {
      AnswerIsListing(order, rows, answers, n);
      PagesStep(answers, n, size);
      PagesCount(order, rows, x, answers, n - 1, size);
      NextPageCounts(order, rows, x, answers(n), n, size);
      ConcatCounts(Pages(answers, n - 1, size), PageOf(answers(n), n, size));
    } else {
      NoPages(answers, x, size);
    }
  }

  lemma ConcatCounts(a: seq<Row>, b: seq<Row>)
    ensures multiset(a + b) == multiset(a) + multiset(b)
  {
  }

  lemma NoPages(answers: Answers, x: seq<Row>, size: int)
    requires size >= 1
    ensures Pages(answers, 0, size) == [] == UpTo(x, 0, size)
  {
  }

  lemma AnswerIsListing(order: Order, rows: seq<Row>, answers: Answers, n: int)
    requires AreListings(order, rows, answers)
    ensures IsListing(order, rows, answers(n))
  {
  }

  lemma PagesStep(answers: Answers, n: nat, size: int)
    requires n > 0 && size >= 1
    ensures Pages(answers, n, size) == Pages(answers, n - 1, size) + PageOf(answers(n), n, size)
  {
  }

  lemma NextPageCounts(order: Order, rows: seq<Row>, x: seq<Row>, y: seq<Row>, n: nat, size: int)
    requires n >= 1 && size >= 1 && IsListing(order, rows, x) && IsListing(order, rows, y) && NoTieIsCut(order, x, size)
    ensures multiset(UpTo(x, n - 1, size)) + multiset(PageOf(y, n, size)) == multiset(UpTo(x, n, size))
  {
    PageIsBetween(y, n, size);
    assert BoundaryHolds(order, x, n, size);
    PrefixIsFixed(order, x, y, n, size);
    if n > 1 { assert BoundaryHolds(order, x, n - 1, size); } else { assert BoundaryHolds(order, x, 0, size); }
    PrefixIsFixed(order, x, y, n - 1, size);
    var a, b := Clip((n - 1) * size, y), Clip(n * size, y);
    hide *;
    assert y[..b][..a] == y[..a] && y[..b][a..] == y[a..b];
    SplitCounts(y[..b], a);
  }

  // Two tied rows of a listing in each other's place.
  function Swapped(listing: seq<Row>, i: nat, j: nat): (r: seq<Row>)
    requires i < |listing| && j < |listing|
    ensures |r| == |listing|
  {
    listing[i := listing[j]][j := listing[i]]
  }

  lemma SwappedIsListing(order: Order, rows: seq<Row>, x: seq<Row>, i: nat, j: nat)
    requires IsListing(order, rows, x) && i < j < |x| && Tied(order, x[i], x[j])
    ensures IsListing(order, rows, Swapped(x, i, j))
  {
    var y := Swapped(x, i, j);
    forall k | 0 <= k < |y| ensures Tied(order, x[k], y[k]) { TiedSelf(order, x[k]); }
    forall k, l | 0 <= k < l < |y| ensures MayPrecede(order, y[k], y[l]) {
      TiedPrecede(order, x[k], y[k], x[l], y[l]);
    }
    SwappedCounts(x, i, j);
    hide Swapped, MayPrecede, Tied;
  }

  lemma SwappedCounts(x: seq<Row>, i: nat, j: nat)
    requires i < j < |x|
    ensures multiset(Swapped(x, i, j)) == multiset(x)
  {
    assert x == x[..i] + [x[i]] + x[i + 1..j] + [x[j]] + x[j + 1..];
    assert Swapped(x, i, j) == x[..i] + [x[j]] + x[i + 1..j] + [x[i]] + x[j + 1..];
  }

  lemma TiedSelf(order: Order, a: Row)
    ensures Tied(order, a, a)
  {
    BeforeOrders(SortKey(order, a), SortKey(order, a), SortKey(order, a));
  }

  lemma TiedPrecede(order: Order, a: Row, a': Row, b: Row, b': Row)
    requires MayPrecede(order, a, b) && Tied(order, a, a') && Tied(order, b, b')
    ensures MayPrecede(order, a', b')
  {
    PrecedeTransitive(order, a', a, b);
    PrecedeTransitive(order, a', b, b');
  }

  lemma PrecedeTransitive(order: Order, a: Row, b: Row, c: Row)
    requires MayPrecede(order, a, b) && MayPrecede(order, b, c)
    ensures MayPrecede(order, a, c)
  {
    BeforeOrders(SortKey(order, a), SortKey(order, b), SortKey(order, c));
    BeforeOrders(SortKey(order, c), SortKey(order, b), SortKey(order, a));
  }

  // x up to page k, then y.
  function Changing(x: seq<Row>, y: seq<Row>, k: int): Answers { (page: int) => if page <= k then x else y }

  lemma {:induction false} PagesOfChanging(x: seq<Row>, y: seq<Row>, k: nat, n: nat, size: int)
    requires size >= 1 && |x| == |y| && k <= n
    ensures k * size >= 0 && Clip(k * size, x) <= Clip(n * size, y)
    ensures Pages(Changing(x, y, k), n, size) == UpTo(x, k, size) + y[Clip(k * size, x)..Clip(n * size, y)]
  {
    if n == k {
      PagesAreAPrefix(Changing(x, y, k), x, n, size);
    } else {
      PagesOfChanging(x, y, k, n - 1, size);
      PageIsBetween(y, n, size);
    }
  }

  lemma CutTieShows(order: Order, rows: seq<Row>, x: seq<Row>, k: int, size: int)
    requires IsListing(order, rows, x) && size >= 1 && k >= 1 && !BoundaryHolds(order, x, k, size)
    ensures exists answers :: AreListings(order, rows, answers) && multiset(Pages(answers, Ceiling(|rows|, size), size)) != multiset(rows)
  {
    var i: int, j: int :| 0 <= i < k * size <= j < |x| && Tied(order, x[i], x[j]) && x[i] != x[j];
    hide *;
    SwapShows(order, rows, x, k, size, i, j);
    var answers := Changing(x, Swapped(x, i, j), k);
    assert AreListings(order, rows, answers);
  }

  // The first k pages come from x, the others from x with two tied rows in each other's place.
  lemma SwapShows(order: Order, rows: seq<Row>, x: seq<Row>, k: int, size: int, i: nat, j: nat)
    requires IsListing(order, rows, x) && size >= 1 && k >= 1
    requires i < k * size <= j < |x| && Tied(order, x[i], x[j]) && x[i] != x[j]
    ensures AreListings(order, rows, Changing(x, Swapped(x, i, j), k))
    ensures multiset(Pages(Changing(x, Swapped(x, i, j), k), Ceiling(|rows|, size), size)) != multiset(rows)
  {
    SwappedIsListing(order, rows, x, i, j);
    assert |multiset(x)| == |multiset(rows)| && multiset(x) == multiset(rows);
    hide *;
    BothAreListings(order, rows, x, Swapped(x, i, j), k);
    PagesToTheLast(x, Swapped(x, i, j), k, size);
    SwapCounts(x, i, j, k * size);
  }

  lemma BothAreListings(order: Order, rows: seq<Row>, x: seq<Row>, y: seq<Row>, k: int)
    requires IsListing(order, rows, x) && IsListing(order, rows, y)
    ensures AreListings(order, rows, Changing(x, y, k))
  {
    hide IsListing;
  }

  lemma PagesToTheLast(x: seq<Row>, y: seq<Row>, k: nat, size: int)
    requires size >= 1 && |x| == |y| && 0 <= k * size < |x|
    ensures Pages(Changing(x, y, k), Ceiling(|x|, size), size) == x[..k * size] + y[k * size..]
  {
    var last := Ceiling(|x|, size);
    if k > last { ProductGrows(last, k, size); }
    PagesOfChanging(x, y, k, last, size);
    hide Pages;
    assert y[k * size..|y|] == y[k * size..];
  }

  lemma SwapCounts(x: seq<Row>, i: nat, j: nat, m: nat)
    requires i < m <= j < |x| && x[i] != x[j]
    ensures multiset(x[..m] + Swapped(x, i, j)[m..]) != multiset(x)
  {
    var y := Swapped(x, i, j);
    SplitCounts(x, m);
    assert y[m..] == x[m..][j - m := x[i]];
    assert multiset(y[m..])[x[i]] == multiset(x[m..])[x[i]] + 1;
    assert multiset(x[..m] + y[m..])[x[i]] == multiset(x)[x[i]] + 1;
  }

  /**
    When every page is a query of its own, with its own order among rows of equal keys, the pages show every selected row
    as often as it was selected, whatever the database answers, if and only if no end of a page lies between two
    different rows with equal keys, in whichever listing x one looks.
   */
  lemma PagesCoverExactly(order: Order, rows: seq<Row>, x: seq<Row>, size: int)
    requires IsListing(order, rows, x) && size >= 1
    ensures (forall answers | AreListings(order, rows, answers) :: multiset(Pages(answers, Ceiling(|rows|, size), size)) == multiset(rows))
      <==> NoTieIsCut(order, x, size)
  {
    var last := Ceiling(|rows|, size);
    assert |multiset(x)| == |multiset(rows)|;
    assert Clip(last * size, x) == |x| && x[..|x|] == x;
    if NoTieIsCut(order, x, size) {
      forall answers | AreListings(order, rows, answers) ensures multiset(Pages(answers, last, size)) == multiset(rows) {
        PagesCount(order, rows, x, answers, last, size);
      }
    } else {
      var k :| k >= 1 && !BoundaryHolds(order, x, k, size);
      CutTieShows(order, rows, x, k, size);
    }
  }

  /** Where the selected rows all differ, that means: the keys of the last row of a page and the next row differ. */
  lemma DistinctRowsCut(order: Order, x: seq<Row>, size: int)
    requires InOrder(order, x) && size >= 1 && forall i, j | 0 <= i < j < |x| :: x[i] != x[j]
    ensures NoTieIsCut(order, x, size) <==> forall k | k >= 1 :: EndIsStrict(order, x, k, size)
  {
    forall k | k >= 1 ensures BoundaryHolds(order, x, k, size) <==> EndIsStrict(order, x, k, size) {
      var m := k * size;
      if m < |x| {
        if BoundaryHolds(order, x, k, size) {
          assert MayPrecede(order, x[m - 1], x[m]);
        }
        if EndIsStrict(order, x, k, size) {
          forall i, j | 0 <= i < m <= j < |x| ensures !Tied(order, x[i], x[j]) {
            if Tied(order, x[i], x[j]) {
              if m < j { PrecedeTransitive(order, x[m], x[j], x[i]); }
              if i < m - 1 { PrecedeTransitive(order, x[m], x[i], x[m - 1]); }
            }
          }
        }
      }
    }
  }

  predicate EndIsStrict(order: Order, x: seq<Row>, k: int, size: int)
    requires k >= 1 && size >= 1
  {
    k * size >= |x| || !MayPrecede(order, x[k * size], x[k * size - 1])
  }

  /** It can fail: two rows with equal keys, one on a page, and one of them is shown twice and the other never. */
  lemma TiesCanRepeat(order: Order, a: Row, b: Row)
    requires Tied(order, a, b)
    ensures AreListings(order, [a, b], Changing([a, b], [b, a], 1))
    ensures Pages(Changing([a, b], [b, a], 1), Ceiling(2, 1), 1) == [a, a]
  {
    var x, y := [a, b], [b, a];
    TwoTied(order, a, b);
    hide *;
    BothAreListings(order, x, x, y, 1);
    PagesToTheLast(x, y, 1, 1);
    assert x[..1] + y[1..] == [a, a];
  }

  lemma TwoTied(order: Order, a: Row, b: Row)
    requires Tied(order, a, b)
    ensures IsListing(order, [a, b], [a, b]) && IsListing(order, [a, b], [b, a])
  {
    hide MayPrecede;
    assert [b, a] == [b] + [a] && [a, b] == [a] + [b];
  }
}
