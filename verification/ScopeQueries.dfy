/** The statements of the repository over the compiled scope, and what they return. */
module ScopeQueries {
  import opened Wrappers
  import opened Texts
  import opened ParseRules
  import opened Sql
  import opened UserPropertyScope
  import opened ScopePages

  datatype State = State(userId: int, documentId: string, status: string)

  // A property is a row whose status the join has still to fill.
  datatype Db = Db(properties: seq<Row>, states: seq<State>)

  // ---------- FROM properties AS p LEFT JOIN user_property_states AS ups ON ... AND ups.user_id = ? ----------

  predicate Joins(s: State, p: Row, user: Value) {
    s.documentId == p.documentId && Number(s.userId as real) == user
  }

  function Matches(states: seq<State>, p: Row, user: Value): seq<Row> {
    if states == [] then []
    else (if Joins(states[0], p, user) then [p.(status := Some(states[0].status))] else []) + Matches(states[1..], p, user)
  }

  function JoinOne(states: seq<State>, p: Row, user: Value): seq<Row> {
    if Matches(states, p, user) == [] then [p.(status := None)] else Matches(states, p, user)
  }

  function Joined(properties: seq<Row>, states: seq<State>, user: Value): seq<Row> {
    if properties == [] then [] else JoinOne(states, properties[0], user) + Joined(properties[1..], states, user)
  }

  // One state for a user and a property.
  predicate UniqueStates(states: seq<State>) {
    forall i, j | 0 <= i < j < |states| :: !(states[i].userId == states[j].userId && states[i].documentId == states[j].documentId)
  }

  function StatusFor(states: seq<State>, userId: int, documentId: string): Option<string> {
    if states == [] then None
    else if states[0].userId == userId && states[0].documentId == documentId then Some(states[0].status)
    else StatusFor(states[1..], userId, documentId)
  }

  lemma {:induction false} NoMatches(states: seq<State>, p: Row, userId: int)
    requires forall i | 0 <= i < |states| :: !(states[i].userId == userId && states[i].documentId == p.documentId)
    ensures Matches(states, p, Number(userId as real)) == [] && StatusFor(states, userId, p.documentId).None?
  {
    if states != [] { NoMatches(states[1..], p, userId); }
  }

  lemma {:induction false} JoinOneIsStatus(states: seq<State>, p: Row, userId: int)
    requires UniqueStates(states)
    ensures JoinOne(states, p, Number(userId as real)) == [p.(status := StatusFor(states, userId, p.documentId))]
  {
    if states != [] {
      if Joins(states[0], p, Number(userId as real)) {
        assert states[0].userId == userId;
        NoMatches(states[1..], p, userId);
      } else {
        JoinOneIsStatus(states[1..], p, userId);
        assert Matches(states, p, Number(userId as real)) == Matches(states[1..], p, Number(userId as real));
      }
    }
  }

  /** The join gives every property once, with the user's own status. */
  lemma {:induction false} JoinedIsOneRowEach(properties: seq<Row>, states: seq<State>, userId: int)
    requires UniqueStates(states)
    ensures |Joined(properties, states, Number(userId as real))| == |properties|
    ensures forall i | 0 <= i < |properties| ::
      Joined(properties, states, Number(userId as real))[i]
      == properties[i].(status := StatusFor(states, userId, properties[i].documentId))
  {
    if properties != [] {
      JoinOneIsStatus(states, properties[0], userId);
      JoinedIsOneRowEach(properties[1..], states, userId);
    }
  }

  // ---------- Statements ----------

  // SELECT terms FROM ... WHERE conditions, followed by a number of further parameters.
  datatype Statement = Statement(select: seq<Term>, where: seq<Cond>, more: nat)

  // The selected rows, the parameters of the selected terms, and the further ones.
  datatype Answer = Answer(rows: seq<Row>, before: seq<Value>, more: seq<Value>)

  function TermsParams(terms: seq<Term>): nat {
    if terms == [] then 0 else TermParams(terms[0]) + TermsParams(terms[1..])
  }

  function StatementParams(q: Statement): nat {
    TermsParams(q.select) + 1 + WhereParams(q.where) + q.more
  }

  function TermValues(terms: seq<Term>, row: Row, ps: seq<Value>): seq<Value>
    requires |ps| == TermsParams(terms)
  {
    if terms == [] then []
    else
      var k := TermParams(terms[0]);
      [TermValue(terms[0], row, ps[..k])] + TermValues(terms[1..], row, ps[k..])
  }

  function Where(rows: seq<Row>, where: seq<Cond>, ps: seq<Value>): seq<Row>
    requires |ps| == WhereParams(where)
  {
    if rows == [] then []
    else (if WhereValue(where, rows[0], ps).True? then [rows[0]] else []) + Where(rows[1..], where, ps)
  }

  // The parameters go to SELECT, FROM, WHERE and the rest in this order; any other number of them is an error.
  function Execute(q: Statement, db: Db, ps: seq<Value>): Option<Answer> {
    if |ps| != StatementParams(q) then None
    else
      var a, b := TermsParams(q.select), TermsParams(q.select) + 1 + WhereParams(q.where);
      var rows := Where(Joined(db.properties, db.states, ps[a]), q.where, ps[a + 1..b]);
      Some(Answer(rows, ps[..a], ps[b..]))
  }

  function VisibleRows(n: Profile, r: Request, rows: seq<Row>): seq<Row> {
    if rows == [] then []
    else (if Visible(n, r, rows[0]) then [rows[0]] else []) + VisibleRows(n, r, rows[1..])
  }

  // The rows a user sees.
  function Inbox(db: Db, n: Profile, r: Request): seq<Row> {
    VisibleRows(n, r, Joined(db.properties, db.states, Number(n.userId as real)))
  }

  lemma {:induction false} WhereIsVisible(c: Compiled, n: Profile, r: Request, rows: seq<Row>)
    requires Compiles(c, n, r)
    ensures Where(rows, c.where, c.bindings[1..]) == VisibleRows(n, r, rows)
  {
    hide WhereValue, Visible;
    if rows != [] { WhereIsVisible(c, n, r, rows[1..]); }
  }

  /** A statement over the compiled scope selects the inbox; its own parameters go around the bindings. */
  lemma ScopedStatement(c: Compiled, n: Profile, r: Request, db: Db, select: seq<Term>, before: seq<Value>, after: seq<Value>)
    requires Compiles(c, n, r) && |before| == TermsParams(select)
    ensures Execute(Statement(select, c.where, |after|), db, before + c.bindings + after).Some?
    ensures var answer := Execute(Statement(select, c.where, |after|), db, before + c.bindings + after).value;
            answer.rows == Inbox(db, n, r) && answer.before == before && answer.more == after
  {
    hide Compiles, Where, Joined, VisibleRows, TermsParams;
    var ps := before + c.bindings + after;
    FitsBindings(c, n, r);
    var a, b := |before|, |before| + |c.bindings|;
    assert ps[a] == c.bindings[0] && ps[a + 1..b] == c.bindings[1..] && ps[..a] == before && ps[b..] == after;
    WhereIsVisible(c, n, r, Joined(db.properties, db.states, c.bindings[0]));
  }

  lemma FitsBindings(c: Compiled, n: Profile, r: Request)
    requires Compiles(c, n, r)
    ensures |c.bindings| == 1 + WhereParams(c.where) && c.bindings[0] == Number(n.userId as real)
  {
  }

  // ---------- Text of the statements ----------

  function FromWords(): seq<string> {
    ["FROM", "properties", "AS", "p", "LEFT", "JOIN", "user_property_states", "AS", "ups",
      "ON", "ups.property_document_id", "=", "p.document_id", "AND", "ups.user_id", "="]
  }

  function FromSql(): string { Join(FromWords()) + " " + "?" }

  lemma {:induction false} NoMarksJoined(words: seq<string>)
    requires forall w | w in words :: '?' !in w
    ensures '?' !in Join(words)
  {
    if |words| > 1 {
      assert words[0] in words && words == [words[0]] + words[1..];
      NoMarksJoined(words[1..]);
    } else if |words| == 1 { assert words[0] in words; }
  }

  /** FROM and WHERE have as many placeholders as the compiler has made bindings. */
  lemma BindingsFillPlaceholders(c: Compiled, n: Profile, r: Request)
    requires Compiles(c, n, r)
    ensures Marks(FromSql() + " WHERE " + WhereText(c.where)) == |c.bindings|
  {
    hide *;
    FitsBindings(c, n, r);
    FromMarks();
    WhereMarks(c.where);
    MarksAround(FromSql(), WhereText(c.where));
  }

  lemma MarksAround(from: string, where: string)
    ensures Marks(from + " WHERE " + where) == Marks(from) + Marks(where)
  {
    hide Marks;
    NoMarks(" WHERE ");
    Marks3(from, " WHERE ", where);
  }

  lemma FromMarks()
    ensures Marks(FromSql()) == 1
  {
    PlainFrom();
    hide FromWords, Marks, Join;
    NoMarksJoined(FromWords());
    NoMarks(Join(FromWords()));
    NoMarks(" ");
    OneMark();
    Marks3(Join(FromWords()), " ", "?");
  }

  lemma PlainFrom()
    ensures forall w | w in FromWords() :: '?' !in w
  {
  }

  // The selected columns before and after the personal status.
  function BeforeStatus(): seq<string> { FirstColumns() + LaterColumns() }

  function FirstColumns(): seq<string> {
    ["document_id", "title", "source", "external_id", "url", "city", "address", "area_sqm", "price",
      "auction_end_at", "price_per_sqm", "manual_price_per_sqm"]
  }

  function LaterColumns(): seq<string> {
    ["property_type", "auction_type", "published_at_source", "description", "contacts", "photos_downloaded",
      "latitude", "longitude", "is_undervalued", "deviation_percent", "focus_score"]
  }

  function AfterStatus(): seq<string> {
    ["tags", "photo_urls", "photos", "property_location", "parties", "minimum_price", "first_seen_at", "created_at"]
  }

  // 'p.name AS name', separated by commas
  function PlainColumns(names: seq<string>): string {
    if names == [] then ""
    else "p." + names[0] + " AS " + names[0] + (if |names| == 1 then "" else ", " + PlainColumns(names[1..]))
  }

  function ColumnsText(before: seq<string>, status: string, after: seq<string>): string {
    PlainColumns(before) + ", " + status + (" AS personal_status, " + PlainColumns(after))
  }

  function SelectColumns(): string { ColumnsText(BeforeStatus(), TermText(StatusTerm), AfterStatus()) }

  function ScopeText(c: Compiled): string { FromSql() + " WHERE " + WhereText(c.where) }

  function CountText(c: Compiled): string { "SELECT COUNT(*) AS total " + ScopeText(c) }

  function ListText(c: Compiled): string {
    "SELECT " + SelectColumns() + " " + ScopeText(c) + (" ORDER BY " + OrderText(c.orderBy) + " LIMIT ") + "?" + " OFFSET " + "?"
  }

  function DetailText(c: Compiled): string { "SELECT " + SelectColumns() + " " + ScopeText(c) + " LIMIT 1" }

  lemma {:induction false} NoMarksInColumns(names: seq<string>)
    requires forall name | name in names :: '?' !in name
    ensures '?' !in PlainColumns(names)
  {
    if names != [] {
      assert names[0] in names && names == [names[0]] + names[1..];
      NoMarksInColumns(names[1..]);
    }
  }

  lemma ColumnsMarks(before: seq<string>, status: string, after: seq<string>)
    requires forall name | name in before + after :: '?' !in name
    ensures Marks(ColumnsText(before, status, after)) == Marks(status)
  {
    hide Marks, PlainColumns;
    NoMarksInColumns(before);
    NoMarksInColumns(after);
    NoMarks(PlainColumns(before) + ", ");
    NoMarks(" AS personal_status, " + PlainColumns(after));
    Marks3(PlainColumns(before) + ", ", status, " AS personal_status, " + PlainColumns(after));
  }

  lemma PlainNames()
    ensures forall name | name in BeforeStatus() + AfterStatus() :: '?' !in name
  {
    PlainFirst();
    PlainLater();
    PlainAfter();
    hide FirstColumns, LaterColumns, AfterStatus;
  }

  lemma PlainFirst()
    ensures forall name | name in FirstColumns() :: '?' !in name
  {
  }

  lemma PlainLater()
    ensures forall name | name in LaterColumns() :: '?' !in name
  {
  }

  lemma PlainAfter()
    ensures forall name | name in AfterStatus() :: '?' !in name
  {
  }

  lemma SelectMarks()
    ensures Marks(SelectColumns()) == 1
  {
    hide Marks, ColumnsText, TermText, BeforeStatus, AfterStatus;
    PlainNames();
    TermMarks(StatusTerm);
    OneStatusParam();
    ColumnsMarks(BeforeStatus(), TermText(StatusTerm), AfterStatus());
  }

  lemma OneStatusParam()
    ensures TermParams(StatusTerm) == 1
  {
  }

  lemma NoMarksInOrder(order: Order)
    ensures '?' !in OrderText(order)
  {
    if order.By? { NoMarksInColumn(order.column); }
    hide ColumnText;
  }

  lemma NoMarksInColumn(c: Column)
    ensures '?' !in ColumnText(c)
  {
  }

  /**
    Each of the three texts has as many placeholders as its call passes values: the bindings alone, with the default
    status before them, and with the two paging values after them too.
   */
  lemma StatementsFillPlaceholders(c: Compiled, n: Profile, r: Request, status: Value, limit: Value, offset: Value)
    requires Compiles(c, n, r)
    ensures Marks(CountText(c)) == |c.bindings| == StatementParams(Statement([], c.where, 0))
    ensures Marks(DetailText(c)) == |[status] + c.bindings| == StatementParams(Statement([StatusTerm], c.where, 0))
    ensures Marks(ListText(c)) == |[status] + c.bindings + [limit, offset]| == StatementParams(Statement([StatusTerm], c.where, 2))
  {
    hide Marks, Compiles, OrderText, SelectColumns, ScopeText;
    FitsBindings(c, n, r);
    ScopeMarks(c, n, r);
    SelectMarks();
    NoTerms();
    OneStatusTerm();
    hide TermsParams;
    ListMarks(SelectColumns(), ScopeText(c), OrderText(c.orderBy), c.orderBy);
    CountMarks(ScopeText(c));
  }

  lemma ScopeMarks(c: Compiled, n: Profile, r: Request)
    requires Compiles(c, n, r)
    ensures Marks(ScopeText(c)) == |c.bindings|
  {
    hide Marks, Compiles;
    BindingsFillPlaceholders(c, n, r);
  }

  lemma CountMarks(scope: string)
    ensures Marks("SELECT COUNT(*) AS total " + scope) == Marks(scope)
  {
    hide Marks;
    NoMarks("SELECT COUNT(*) AS total ");
    MarksAppend("SELECT COUNT(*) AS total ", scope);
  }

  lemma ListMarks(columns: string, scope: string, sorting: string, order: Order)
    requires sorting == OrderText(order)
    ensures Marks("SELECT " + columns + " " + scope + " LIMIT 1") == Marks(columns) + Marks(scope)
    ensures Marks("SELECT " + columns + " " + scope + (" ORDER BY " + sorting + " LIMIT ") + "?" + " OFFSET " + "?")
            == Marks(columns) + Marks(scope) + 2
  {
    hide Marks;
    NoMarksInOrder(order);
    NoMarks("SELECT "); NoMarks(" "); NoMarks(" LIMIT 1"); NoMarks(" ORDER BY " + sorting + " LIMIT "); NoMarks(" OFFSET ");
    OneMark();
    var head := "SELECT " + columns + " " + scope;
    Marks3("SELECT " + columns, " ", scope);
    MarksAppend("SELECT ", columns);
    MarksAppend(head, " LIMIT 1");
    Marks3(head, " ORDER BY " + sorting + " LIMIT ", "?");
    Marks3(head + (" ORDER BY " + sorting + " LIMIT ") + "?", " OFFSET ", "?");
  }

  // ---------- The repository ----------

  // What the profile loader gave.
  datatype Loading = Failed | Missing | Loaded(profile: Profile)

  function ScopeOf(loading: Loading, userId: int): Result<Profile, ScopeError> {
    if !IsId(userId) then Err(Validation)
    else match loading
      case Failed => Err(Unavailable)
      case Missing => Err(NotReady)
      case Loaded(p) =>
        match ScopeProfile(p)
        case Err(e) => Err(e)
        case Ok(n) => if n.userId != userId then Err(Malformed) else Ok(n)
  }

  // The rows of a user in terms of profile and request as given: those the profile wants and the request asks for.
  function Sieve(iso: IsoParse, p: Profile, input: RawRequest, rows: seq<Row>): seq<Row> {
    if rows == [] then []
    else (if Wanted(p, rows[0]) && Sought(iso, input, rows[0]) then [rows[0]] else []) + Sieve(iso, p, input, rows[1..])
  }

  function RowsFor(db: Db, iso: IsoParse, loading: Loading, userId: int, input: RawRequest): seq<Row>
    requires loading.Loaded?
  {
    Sieve(iso, loading.profile, input, Joined(db.properties, db.states, Number(userId as real)))
  }

  lemma {:induction false} VisibleIsSieve(iso: IsoParse, p: Profile, input: RawRequest, rows: seq<Row>)
    requires ScopeProfile(p).Ok? && NormalizeRequest(iso, input).Ok?
    ensures VisibleRows(ScopeProfile(p).value, NormalizeRequest(iso, input).value, rows) == Sieve(iso, p, input, rows)
  {
    if rows != [] {
      ScopeIsPayload(p);
      AdmittedIsWanted(p, rows[0]);
      AskedIsSought(iso, input, rows[0]);
      VisibleIsSieve(iso, p, input, rows[1..]);
      hide ScopeProfile, NormalizeRequest, ProfilePayload, Admits, Asked, Wanted, Sought;
    }
  }

  /** The inbox is made of the rows that the profile, as stored, wants and the request, as given, asks for. */
  lemma InboxIsSieve(db: Db, iso: IsoParse, loading: Loading, userId: int, input: RawRequest)
    requires ScopeOf(loading, userId).Ok? && NormalizeRequest(iso, input).Ok?
    ensures loading.Loaded?
    ensures Inbox(db, ScopeOf(loading, userId).value, NormalizeRequest(iso, input).value) == RowsFor(db, iso, loading, userId, input)
  {
    hide NormalizeRequest, ScopeProfile, VisibleRows, Sieve;
    VisibleIsSieve(iso, loading.profile, input, Joined(db.properties, db.states, Number(userId as real)));
  }

  /** Which calls find a scope, and what the others are told. */
  lemma ScopeMeans(loading: Loading, userId: int)
    ensures !(1 <= userId <= 9007199254740991) ==> ScopeOf(loading, userId) == Err(Validation)
    ensures 1 <= userId <= 9007199254740991 && loading.Failed? ==> ScopeOf(loading, userId) == Err(Unavailable)
    ensures 1 <= userId <= 9007199254740991 && loading.Missing? ==> ScopeOf(loading, userId) == Err(NotReady)
    ensures 1 <= userId <= 9007199254740991 && loading.Loaded? ==>
      var p := loading.profile;
      match ScopeOf(loading, userId)
      case Ok(n) => ProfilePayload(p) == Ok(n) && p.userId == userId && HasEntry(p.regions) && HasEntry(p.propertyTypes)
      case Err(e) =>
        || (e == Malformed && (ProfilePayload(p).Err? || (p.userId != userId && HasEntry(p.regions) && HasEntry(p.propertyTypes))))
        || (e == NotReady && ProfilePayload(p).Ok? && !(HasEntry(p.regions) && HasEntry(p.propertyTypes)))
  {
    if loading.Loaded? && ProfilePayload(loading.profile).Ok? {
      PayloadLists(loading.profile);
      EntriesKept(loading.profile.regions, ProfilePayload(loading.profile).value.regions);
      EntriesKept(loading.profile.propertyTypes, ProfilePayload(loading.profile).value.propertyTypes);
      assert ProfilePayload(loading.profile).value.userId == loading.profile.userId;
    }
    hide ProfilePayload, HasEntry;
  }

  lemma EntriesKept(items: seq<string>, list: seq<string>)
    requires forall x :: x in list <==> x in CanonItems(items)
    ensures list != [] <==> HasEntry(items)
  {
    CanonItemsElements(items);
    NonEmptyCanons(items);
    hide IsCanonOf, CanonItems, Trim, Lower;
    if list != [] { assert list[0] in list; }
    if HasEntry(items) {
      var v :| v in items && Trim(v) != "";
      assert Lower(Trim(v)) in list;
    }
  }

  method Compile(iso: IsoParse, loading: Loading, userId: int, input: RawRequest) returns (result: Result<Compiled, ScopeError>)
    ensures ScopeOf(loading, userId).Err? ==> result == Err(ScopeOf(loading, userId).error)
    ensures ScopeOf(loading, userId).Ok? && NormalizeRequest(iso, input).Err? ==> result == Err(Validation)
    ensures result.Ok? <==> ScopeOf(loading, userId).Ok? && NormalizeRequest(iso, input).Ok?
    ensures result.Ok? ==> Compiles(result.value, ScopeOf(loading, userId).value, NormalizeRequest(iso, input).value)
    ensures result.Ok? <==> ScopeOf(loading, userId).Ok? && Acceptable(iso, input)
    ensures result.Ok? ==> loading.Loaded? && forall row :: Picks(result.value, row) <==> Wanted(loading.profile, row) && Sought(iso, input, row)
    ensures result.Ok? ==> IsPaged(result.value.page, result.value.pageSize, input) && IsOrdered(result.value.orderBy, input.sort)
  {
    hide Compiles, NormalizeRequest, ProfilePayload, Acceptable, Wanted, Sought, Picks, IsPaged, IsOrdered;
    var scope := ScopeOf(loading, userId);
    if scope.Err? { return Err(scope.error); }
    NormalizationIdempotent(loading.profile);
    result := CompileUserPropertyScope(iso, scope.value, input);
    if result.Ok? { PicksAsGiven(result.value, iso, loading.profile, input); }
  }

  method Count(db: Db, iso: IsoParse, loading: Loading, userId: int, input: RawRequest) returns (result: Result<nat, ScopeError>)
    ensures result.Ok? <==> ScopeOf(loading, userId).Ok? && NormalizeRequest(iso, input).Ok?
    ensures result.Ok? ==> result.value == |Inbox(db, ScopeOf(loading, userId).value, NormalizeRequest(iso, input).value)|
    ensures result.Ok? ==> loading.Loaded? && Acceptable(iso, input) && result.value == |RowsFor(db, iso, loading, userId, input)|
  {
    hide *;
    var compiled := Compile(iso, loading, userId, input);
    if compiled.Ok? { InboxIsSieve(db, iso, loading, userId, input); }
    if compiled.Err? { return Err(compiled.error); }
    var c := compiled.value;
    NoTerms();
    ScopedStatement(c, ScopeOf(loading, userId).value, NormalizeRequest(iso, input).value, db, [], [], []);
    assert [] + c.bindings + [] == c.bindings;
    var answer := Execute(Statement([], c.where, 0), db, c.bindings);
    if answer.None? { return Err(Query); }
    return Ok(|answer.value.rows|);
  }

  lemma NoTerms()
    ensures TermsParams([]) == 0
  {
  }

  // What a user is shown of a row.
  datatype Dto = Dto(row: Row, status: string, photosDownloaded: bool)

  function SqliteBoolean(v: Value): Result<bool, ScopeError> {
    if v == Number(0.0) then Ok(false) else if v == Number(1.0) then Ok(true) else Err(Query)
  }

  function MapDto(row: Row, status: Value): Result<Dto, ScopeError> {
    if row.documentId == "" then Err(Query)
    else
      var known := if status == Null then DEFAULT_STATUS else if status.Text? then status.s else "";
      if known !in STATUS_SET || SqliteBoolean(row.photosDownloaded).Err? then Err(Query)
      else Ok(Dto(row, known, SqliteBoolean(row.photosDownloaded).value))
  }

  // A row that can be shown, and what is shown.
  predicate Readable(row: Row) {
    row.documentId != "" && PersonalStatus(row) in STATUS_SET && row.photosDownloaded in {Number(0.0), Number(1.0)}
  }

  function Shown(row: Row): Dto { Dto(row, PersonalStatus(row), row.photosDownloaded == Number(1.0)) }

  lemma MapDtoShows(row: Row, before: seq<Value>)
    requires before == [Text(DEFAULT_STATUS)]
    ensures |TermValues([StatusTerm], row, before)| == TermsParams([StatusTerm]) == 1
    ensures MapDto(row, TermValues([StatusTerm], row, before)[0]) == if Readable(row) then Ok(Shown(row)) else Err(Query)
  {
    StatusColumn(row);
    hide TermValues, TermsParams;
    assert "" !in STATUS_SET;
  }

  // rows.map(mapDto)
  method MapRows(rows: seq<Row>, before: seq<Value>) returns (result: Result<seq<Dto>, ScopeError>)
    requires before == [Text(DEFAULT_STATUS)]
    ensures result.Ok? <==> forall row | row in rows :: Readable(row)
    ensures result.Ok? ==> |result.value| == |rows| && forall i | 0 <= i < |rows| :: result.value[i] == Shown(rows[i])
    ensures result.Err? ==> result.error == Query
  {
    hide TermValues, TermsParams, MapDto, Readable, Shown;
    OneStatusTerm();
    var data: seq<Dto> := [];
    for k := 0 to |rows|
      invariant |data| == k && forall i | 0 <= i < k :: Readable(rows[i]) && data[i] == Shown(rows[i])
    {
      MapDtoShows(rows[k], before);
      var dto := MapDto(rows[k], TermValues([StatusTerm], rows[k], before)[0]);
      if dto.Err? {
        assert rows[k] in rows;
        return Err(Query);
      }
      data := data + [dto.value];
    }
    return Ok(data);
  }

  datatype Page = Page(data: seq<Dto>, page: int, pageSize: int, total: nat, totalPages: nat)

  lemma RequestPaging(iso: IsoParse, input: RawRequest)
    ensures NormalizeRequest(iso, input).Ok? ==>
      NormalizeRequest(iso, input).value.page >= 1 && NormalizeRequest(iso, input).value.pageSize >= 1
  {
  }

  /**
    One page of the inbox. The total is counted in one state of the database and the page read in a later one. The rows
    of the page are cut, by the two values that follow the bindings, from some listing of the inbox in the order asked
    for: rows with equal keys come in any order. A row that cannot be shown fails the page it is on.
   */
  method List(counted: Db, db: Db, iso: IsoParse, loading: Loading, userId: int, input: RawRequest)
    returns (result: Result<Page, ScopeError>, ghost listing: seq<Row>)
    ensures ScopeOf(loading, userId).Err? ==> result == Err(ScopeOf(loading, userId).error)
    ensures ScopeOf(loading, userId).Ok? && NormalizeRequest(iso, input).Err? ==> result == Err(Validation)
    ensures ScopeOf(loading, userId).Ok? && NormalizeRequest(iso, input).Ok? ==>
      var n, r := ScopeOf(loading, userId).value, NormalizeRequest(iso, input).value;
      && r.page >= 1 && r.pageSize >= 1 && IsListing(r.sort, Inbox(db, n, r), listing)
      && var rows := PageOf(listing, r.page, r.pageSize);
      match result
      case Err(e) => e == Query && exists row | row in rows :: !Readable(row)
      case Ok(page) =>
        && (forall row | row in rows :: Readable(row))
        && |page.data| == |rows| && (forall i | 0 <= i < |rows| :: page.data[i] == Shown(rows[i]))
        && page.page == r.page && page.pageSize == r.pageSize
        && page.total == |Inbox(counted, n, r)| && page.totalPages == Ceiling(page.total, r.pageSize)
    // In terms of profile and request as given:
    ensures ScopeOf(loading, userId).Ok? && !Acceptable(iso, input) ==> result == Err(Validation)
    ensures ScopeOf(loading, userId).Ok? && Acceptable(iso, input) ==>
      && loading.Loaded? && multiset(listing) == multiset(RowsFor(db, iso, loading, userId, input)) && SortedAs(input.sort, listing)
      && (result.Ok? ==> IsPaged(result.value.page, result.value.pageSize, input)
                         && result.value.total == |RowsFor(counted, iso, loading, userId, input)|)
  {
    hide *;
    RequestPaging(iso, input);
    RequestAsGiven(iso, input);
    listing := [];
    var compiled := Compile(iso, loading, userId, input);
    if compiled.Ok? {
      InboxIsSieve(db, iso, loading, userId, input);
      InboxIsSieve(counted, iso, loading, userId, input);
    }
    if compiled.Err? { return Err(compiled.error), listing; }
    var c := compiled.value;
    ghost var n, r := ScopeOf(loading, userId).value, NormalizeRequest(iso, input).value;
    FitsPaging(c, n, r, iso, input);
    NoTerms();
    ScopedStatement(c, n, r, counted, [], [], []);
    assert [] + c.bindings + [] == c.bindings;
    var count := Execute(Statement([], c.where, 0), counted, c.bindings);
    var offset := (c.page - 1) * c.pageSize;
    var before, after := [Text(DEFAULT_STATUS)], [Number(c.pageSize as real), Number(offset as real)];
    OneStatusTerm();
    ScopedStatement(c, n, r, db, [StatusTerm], before, after);
    var answer := Execute(Statement([StatusTerm], c.where, 2), db, before + c.bindings + after);
    if count.None? || answer.None? { return Err(Query), listing; }
    var sorted := OrderRows(c.orderBy, answer.value.rows);
    listing := sorted;
    ListingAsGiven(c.orderBy, input.sort, answer.value.rows, sorted);
    CutsPage(sorted, c.page, c.pageSize);
    var rows := Cut(sorted, answer.value.more[0], answer.value.more[1]);
    var data := MapRows(rows, answer.value.before);
    if data.Err? { return Err(Query), listing; }
    var total := |count.value.rows|;
    return Ok(Page(data.value, c.page, c.pageSize, total, Ceiling(total, c.pageSize))), listing;
  }

  lemma ListingAsGiven(order: Order, sort: Option<string>, rows: seq<Row>, listing: seq<Row>)
    requires IsListing(order, rows, listing) && IsOrdered(order, sort)
    ensures multiset(listing) == multiset(rows) && SortedAs(sort, listing)
  {
    InOrderIsSorted(order, sort, listing);
    hide InOrder, SortedAs;
  }

  lemma CutsPage(rows: seq<Row>, page: int, size: int)
    requires page >= 1 && size >= 1
    ensures (page - 1) * size >= 0
    ensures Cut(rows, Number(size as real), Number(((page - 1) * size) as real)) == PageOf(rows, page, size)
  {
    assert ((page - 1) * size) as real >= 0.0;
  }

  /**
    The pages of one request over an unchanged database, each a call of its own: they show every row of the inbox once,
    whatever order the database gives to rows with equal keys, if and only if at the end of each page the next row has
    another key. Where an end of a page falls between equal keys a row may be shown twice and another never.
   */
  lemma PagesAreTheInbox(db: Db, n: Profile, r: Request, x: seq<Row>)
    requires r.pageSize >= 1 && IsListing(r.sort, Inbox(db, n, r), x)
    requires forall i, j | 0 <= i < j < |x| :: x[i] != x[j]
    ensures var inbox := Inbox(db, n, r);
            (forall answers | AreListings(r.sort, inbox, answers) ::
                multiset(Pages(answers, Ceiling(|inbox|, r.pageSize), r.pageSize)) == multiset(inbox))
            <==> forall k | k >= 1 :: EndIsStrict(r.sort, x, k, r.pageSize)
  {
    hide Inbox, Pages, AreListings, NoTieIsCut, EndIsStrict;
    PagesCoverExactly(r.sort, Inbox(db, n, r), x, r.pageSize);
    DistinctRowsCut(r.sort, x, r.pageSize);
  }

  lemma FitsPaging(c: Compiled, n: Profile, r: Request, iso: IsoParse, input: RawRequest)
    requires Compiles(c, n, r) && NormalizeRequest(iso, input) == Ok(r)
    ensures c.orderBy == r.sort && c.page == r.page && c.pageSize == r.pageSize && 1 <= r.page && 1 <= r.pageSize
  {
  }

  lemma OneStatusTerm()
    ensures TermsParams([StatusTerm]) == 1
  {
    var terms := [StatusTerm];
    assert terms[1..] == [] && TermParams(StatusTerm) == 1;
  }

  lemma StatusColumn(row: Row)
    ensures TermsParams([StatusTerm]) == 1
    ensures TermValues([StatusTerm], row, [Text(DEFAULT_STATUS)]) == [Text(PersonalStatus(row))]
  {
    OneStatusTerm();
    var terms, ps := [StatusTerm], [Text(DEFAULT_STATUS)];
    assert terms[0] == StatusTerm && terms[1..] == [] && TermParams(StatusTerm) == 1;
    assert ps[..1] == ps && ps[1..] == [];
    StatusTermValue(row);
    hide TermValue;
    assert TermValues([], row, []) == [];
  }

  predicate Named(documentId: string) { Trim(documentId) != "" && documentId == Trim(documentId) }

  // Some visible row of the document.
  predicate SeesDocument(db: Db, n: Profile, r: Request, documentId: string, row: Row) {
    InJoin(db, n, row) && Visible(n, r, row) && row.documentId == documentId
  }

  method Detail(db: Db, iso: IsoParse, loading: Loading, userId: int, documentId: string, input: RawRequest)
    returns (result: Result<Option<Dto>, ScopeError>)
    ensures !Named(documentId) ==> result == Err(Validation)
    ensures Named(documentId) && ScopeOf(loading, userId).Err? ==> result == Err(ScopeOf(loading, userId).error)
    ensures Named(documentId) && ScopeOf(loading, userId).Ok? && NormalizeRequest(iso, input.(documentId := Some(documentId))).Err?
            ==> result == Err(Validation)
    ensures ScopeOf(loading, userId).Ok? && NormalizeRequest(iso, input.(documentId := Some(documentId))).Ok? ==>
      var n, r := ScopeOf(loading, userId).value, NormalizeRequest(iso, input.(documentId := Some(documentId))).value;
      match result
      case Ok(None) => forall row :: !SeesDocument(db, n, r, documentId, row)
      case Ok(Some(dto)) => SeesDocument(db, n, r, documentId, dto.row) && Readable(dto.row) && dto == Shown(dto.row)
      case Err(e) => e == Query && exists row :: SeesDocument(db, n, r, documentId, row) && !Readable(row)
    // In terms of profile and request as given:
    ensures ScopeOf(loading, userId).Ok? && Acceptable(iso, input.(documentId := Some(documentId))) ==>
      && loading.Loaded?
      && var mine := RowsFor(db, iso, loading, userId, input.(documentId := Some(documentId)));
      match result
      case Ok(None) => mine == []
      case Ok(Some(dto)) => dto.row in mine && dto == Shown(dto.row)
      case Err(e) => exists row | row in mine :: !Readable(row)
  {
    var request := input.(documentId := Some(documentId));
    hide NormalizeRequest, Trim;
    if Trim(documentId) == "" || documentId != Trim(documentId) {
      BadDocumentId(iso, request);
      return Err(Validation);
    }
    hide *;
    NameIsGood(documentId);
    RequestAsGiven(iso, request);
    var compiled := Compile(iso, loading, userId, request);
    if compiled.Ok? { InboxIsSieve(db, iso, loading, userId, request); }
    if compiled.Err? { return Err(compiled.error); }
    var c := compiled.value;
    ghost var n, r := ScopeOf(loading, userId).value, NormalizeRequest(iso, request).value;
    OneStatusTerm();
    ScopedStatement(c, n, r, db, [StatusTerm], [Text(DEFAULT_STATUS)], []);
    assert [Text(DEFAULT_STATUS)] + c.bindings + [] == [Text(DEFAULT_STATUS)] + c.bindings;
    var answer := Execute(Statement([StatusTerm], c.where, 0), db, [Text(DEFAULT_STATUS)] + c.bindings);
    if answer.None? { return Err(Query); }
    InboxDocument(db, n, r, iso, request);
    var rows := answer.value.rows;
    if |rows| == 0 { return Ok(None); }
    assert rows[0] in rows;
    MapDtoShows(rows[0], answer.value.before);
    ShownRow(rows[0]);
    var dto := MapDto(rows[0], TermValues([StatusTerm], rows[0], answer.value.before)[0]);
    if dto.Err? { return Err(dto.error); }
    return Ok(Some(dto.value));
  }

  lemma NameIsGood(documentId: string)
    requires Trim(documentId) != "" && documentId == Trim(documentId)
    ensures Named(documentId)
  {
  }

  lemma ShownRow(row: Row)
    ensures Shown(row).row == row
  {
  }

  lemma InboxDocument(db: Db, n: Profile, r: Request, iso: IsoParse, input: RawRequest)
    requires NormalizeRequest(iso, input) == Ok(r) && input.documentId.Some?
    ensures forall row :: row in Inbox(db, n, r) <==> SeesDocument(db, n, r, input.documentId.value, row)
  {
    hide NormalizeRequest, Inbox, InJoin, Visible;
    InboxMembers(db, n, r);
    AskedDocument(n, r, iso, input);
  }

  lemma BadDocumentId(iso: IsoParse, input: RawRequest)
    requires input.documentId.Some? && !ValidDocumentId(input.documentId.value)
    ensures NormalizeRequest(iso, input) == Err(Validation)
  {
  }

  lemma {:induction false} VisibleMembers(n: Profile, r: Request, rows: seq<Row>)
    ensures forall row :: row in VisibleRows(n, r, rows) <==> row in rows && Visible(n, r, row)
  {
    hide Visible;
    if rows != [] {
      VisibleMembers(n, r, rows[1..]);
      assert rows == [rows[0]] + rows[1..];
    }
  }

  predicate InJoin(db: Db, n: Profile, row: Row) {
    row in Joined(db.properties, db.states, Number(n.userId as real))
  }

  lemma InboxMembers(db: Db, n: Profile, r: Request)
    ensures forall row :: row in Inbox(db, n, r) <==> InJoin(db, n, row) && Visible(n, r, row)
  {
    VisibleMembers(n, r, Joined(db.properties, db.states, Number(n.userId as real)));
  }

  lemma AskedDocument(n: Profile, r: Request, iso: IsoParse, input: RawRequest)
    requires NormalizeRequest(iso, input) == Ok(r) && input.documentId.Some?
    ensures forall row :: Visible(n, r, row) ==> row.documentId == input.documentId.value
  {
  }
}
