/** The canonical property scope of a user: requests, and the compilation of profile and request to SQL. */
module UserPropertyScope {
  import opened Wrappers
  import opened Texts
  import opened ParseRules
  import opened Sql

  const DEFAULT_STATUS := "new"
  const MAX_PAGE := 100000
  const DEFAULT_PAGE_SIZE := 20
  const MAX_PAGE_SIZE := 100
  const MAX_REQUEST_TEXT_LENGTH := 256
  const MAX_FILTER_CARDINALITY := 128

  const REGION_SET: set<string> := set x | x in REGION_VALUES
  const PROPERTY_TYPE_SET: set<string> := set x | x in PROPERTY_TYPE_VALUES
  const STATUS_SET: set<string> := {"new", "in_progress", "viewed", "rejected"}

  const SORT_COLUMNS: map<string, Column> := map[
    "focus_score" := FocusScore, "price" := Price, "price_per_sqm" := PricePerSqm, "area_sqm" := AreaSqm,
    "deviation_percent" := DeviationPercent, "createdAt" := CreatedAt, "created_at" := CreatedAt]

  // Without a sort field the order is by score, and its text names the column alone.
  datatype Order = ByScore | By(column: Column, descending: bool)

  function OrderText(order: Order): string {
    match order
    case ByScore => "focus_score DESC"
    case By(column, descending) => ColumnText(column) + (if descending then " DESC" else " ASC")
  }

  datatype ScopeError = Validation | Malformed | NotReady | Unavailable | Query

  // One value or an array of values.
  datatype EnumArg = Absent | One(value: string) | Many(values: seq<string>)

  datatype RawRequest = RawRequest(
    city: EnumArg, propertyType: EnumArg, status: EnumArg, search: Option<string>, focusThreshold: Option<real>,
    documentId: Option<string>, sort: Option<string>, page: Option<int>, pageSize: Option<int>,
    firstSeenAfter: Option<string>, firstSeenAtOrBefore: Option<string>)

  const EmptyRequest := RawRequest(Absent, Absent, Absent, None, None, None, None, None, None, None, None)

  // The freshness bounds, in epoch milliseconds.
  datatype Window = Window(after: real, atOrBefore: real)

  datatype Request = Request(
    city: seq<string>, propertyType: seq<string>, status: seq<string>, search: Option<string>, focusThreshold: Option<real>,
    documentId: Option<string>, sort: Order, page: int, pageSize: int, firstSeen: Option<Window>)

  // Date.parse on exact UTC ISO text; nothing for any other text.
  type IsoParse = string -> Option<real>

  // ---------- Requests ----------

  predicate NoRepeats(s: seq<string>) {
    forall i, j | 0 <= i < j < |s| :: s[i] != s[j]
  }

  function Canons(items: seq<string>): (r: seq<string>)
    ensures |r| == |items|
  {
    seq(|items|, i requires 0 <= i < |items| => Canon(items[i]))
  }

  function ArgValues(arg: EnumArg): seq<string> {
    match arg
    case Absent => []
    case One(v) => [v]
    case Many(vs) => vs
  }

  // A filter is absent, or lists between 1 and 128 values that are allowed and differ after trimming and lower-casing.
  function EnumFilter(arg: EnumArg, allowed: set<string>): Result<seq<string>, ScopeError> {
    var values := ArgValues(arg);
    if arg.Absent? then Ok([])
    else if |values| == 0 || |values| > MAX_FILTER_CARDINALITY then Err(Validation)
    else if (forall x | x in Canons(values) :: x in allowed) && NoRepeats(Canons(values)) then Ok(Canons(values))
    else Err(Validation)
  }

  lemma {:induction false} NoRepeatsBound(s: seq<string>, allowed: set<string>)
    requires NoRepeats(s) && forall x | x in s :: x in allowed
    ensures |s| <= |allowed|
  {
    if s != [] {
      var last := s[|s| - 1];
      NoRepeatsBound(s[..|s| - 1], allowed - {last});
    }
  }

  method NormalizeEnumFilter(arg: EnumArg, field: string, allowed: set<string>) returns (r: Result<seq<string>, ScopeError>)
    requires field != ""
    ensures r == EnumFilter(arg, allowed)
  {
    if arg.Absent? { return Ok([]); }
    var values := ArgValues(arg);
    if |values| == 0 || |values| > MAX_FILTER_CARDINALITY { return Err(Validation); }
    var normalized: seq<string> := [];
    var seen: set<string> := {};
    for k := 0 to |values|
      invariant normalized == Canons(values)[..k]
      invariant forall x :: x in seen <==> x in normalized
      invariant NoRepeats(normalized) && forall x | x in normalized :: x in allowed
    {
      var candidate := Canon(values[k]);
      assert candidate == Canons(values)[k];
      if candidate !in allowed || candidate in seen {
        if candidate in seen {
          var i :| 0 <= i < |normalized| && normalized[i] == candidate;
          assert Canons(values)[i] == Canons(values)[k];
        } else {
          assert candidate in Canons(values);
        }
        return Err(Validation);
      }
      seen := seen + {candidate};
      normalized := normalized + [candidate];
    }
    assert normalized == Canons(values);
    NoRepeatsBound(normalized, allowed);
    if field == "" || |normalized| > |allowed| { return Err(Validation); }
    return Ok(normalized);
  }

  function NormalizeSearch(search: Option<string>): Result<Option<string>, ScopeError> {
    if search.None? then Ok(None)
    else if |Trim(search.value)| > MAX_REQUEST_TEXT_LENGTH then Err(Validation)
    else Ok(if Trim(search.value) == "" then None else Some(Trim(search.value)))
  }

  predicate ValidDocumentId(id: string) {
    Trim(id) != "" && id == Trim(id) && |id| <= MAX_REQUEST_TEXT_LENGTH
  }

  function NormalizeSort(sort: Option<string>): Result<Order, ScopeError> {
    if sort.None? then Ok(ByScore)
    else if sort.value == "" then Err(Validation)
    else
      var descending := sort.value[0] == '-';
      var field := if descending then sort.value[1..] else sort.value;
      if field in SORT_COLUMNS then Ok(By(SORT_COLUMNS[field], descending))
      else Err(Validation)
  }

  function NormalizeWindow(iso: IsoParse, after: Option<string>, atOrBefore: Option<string>): Result<Option<Window>, ScopeError> {
    if after.None? && atOrBefore.None? then Ok(None)
    else if after.None? || atOrBefore.None? then Err(Validation)
    else if iso(after.value).None? || iso(atOrBefore.value).None? then Err(Validation)
    else
      var window := Window(iso(after.value).value, iso(atOrBefore.value).value);
      if window.after >= window.atOrBefore then Err(Validation) else Ok(Some(window))
  }

  // Every failure is the same validation error, so their order does not matter.
  predicate ValidRequest(iso: IsoParse, input: RawRequest) {
    && EnumFilter(input.city, REGION_SET).Ok?
    && EnumFilter(input.propertyType, PROPERTY_TYPE_SET).Ok?
    && EnumFilter(input.status, STATUS_SET).Ok?
    && NormalizeSearch(input.search).Ok?
    && (input.focusThreshold.Some? ==> input.focusThreshold.value >= 0.0)
    && (input.documentId.Some? ==> ValidDocumentId(input.documentId.value))
    && NormalizeSort(input.sort).Ok?
    && (input.page.Some? ==> 1 <= input.page.value <= MAX_PAGE)
    && (input.pageSize.Some? ==> 1 <= input.pageSize.value <= MAX_PAGE_SIZE)
    && NormalizeWindow(iso, input.firstSeenAfter, input.firstSeenAtOrBefore).Ok?
  }

  function NormalizeRequest(iso: IsoParse, input: RawRequest): Result<Request, ScopeError> {
    if !ValidRequest(iso, input) then Err(Validation)
    else Ok(Request(
      EnumFilter(input.city, REGION_SET).value,
      EnumFilter(input.propertyType, PROPERTY_TYPE_SET).value,
      EnumFilter(input.status, STATUS_SET).value,
      NormalizeSearch(input.search).value, input.focusThreshold, input.documentId, NormalizeSort(input.sort).value,
      if input.page.Some? then input.page.value else 1,
      if input.pageSize.Some? then input.pageSize.value else DEFAULT_PAGE_SIZE,
      NormalizeWindow(iso, input.firstSeenAfter, input.firstSeenAtOrBefore).value))
  }

  function ScopeProfile(p: Profile): Result<Profile, ScopeError> {
    match ProfilePayload(p)
    case Err(_) => Err(Malformed)
    case Ok(n) => if n.regions == [] || n.propertyTypes == [] then Err(NotReady) else Ok(n)
  }

  // ---------- The direct predicate ----------

  function OrElse(s: Option<string>, d: string): string { if s.Some? then s.value else d }

  function PersonalStatus(row: Row): string { OrElse(row.status, DEFAULT_STATUS) }

  function ProfileText(row: Row): string { OrElse(row.title, "") + " " + OrElse(row.description, "") }

  function SearchText(row: Row): string { ProfileText(row) + " " + OrElse(row.address, "") }

  predicate OneOf(x: Option<string>, list: seq<string>) { x.Some? && x.value in list }

  predicate AtLeast(x: Option<real>, from: Option<real>) { x.Some? && from.Some? ==> x.value >= from.value }

  predicate AtMost(x: Option<real>, to: Option<real>) { x.Some? && to.Some? ==> x.value <= to.value }

  predicate NoneOf(words: seq<string>, row: Row) {
    forall w | w in words :: !Contains(AsciiLower(ProfileText(row)), w)
  }

  predicate Found(search: string, row: Row) { Contains(AsciiLower(SearchText(row)), Lower(search)) }

  predicate Seen(window: Window, row: Row) {
    row.firstSeenAt.Number? && window.after < row.firstSeenAt.n <= window.atOrBefore
  }

  predicate InFocus(threshold: real, row: Row) {
    row.focusScore.Some? && row.focusScore.value >= threshold
  }

  predicate Admits(n: Profile, row: Row) {
    && OneOf(row.city, n.regions) && OneOf(row.propertyType, n.propertyTypes)
    && AtLeast(row.price, n.priceFrom) && AtMost(row.price, n.priceTo)
    && AtLeast(row.areaSqm, n.areaFrom) && AtMost(row.areaSqm, n.areaTo)
    && NoneOf(n.stopWords, row)
  }

  predicate Asked(r: Request, row: Row) {
    && (r.city != [] ==> OneOf(row.city, r.city))
    && (r.propertyType != [] ==> OneOf(row.propertyType, r.propertyType))
    && (if r.status == [] then PersonalStatus(row) != "rejected" else PersonalStatus(row) in r.status)
    && (r.search.Some? ==> Found(r.search.value, row))
    && (r.focusThreshold.Some? ==> InFocus(r.focusThreshold.value, row))
    && (r.documentId.Some? ==> row.documentId == r.documentId.value)
    && (r.firstSeen.Some? ==> Seen(r.firstSeen.value, row))
  }

  predicate Visible(n: Profile, r: Request, row: Row) {
    Admits(n, row) && Asked(r, row)
  }

  // ---------- What a caller may ask, and what it asks for, in terms of the request as given ----------

  const CITY_NAMES := ["moscow", "mo", "tver", "tver_oblast", "other"]
  const TYPE_NAMES := ["office", "warehouse", "retail", "production", "free_purpose", "apartment", "land", "other"]
  const STATUS_NAMES := ["new", "in_progress", "viewed", "rejected"]
  const SORT_NAMES := ["focus_score", "price", "price_per_sqm", "area_sqm", "deviation_percent", "createdAt", "created_at"]

  // One name, or 1 to 128 different ones, all known; blanks around them and their case do not matter.
  predicate AcceptableNames(arg: EnumArg, names: seq<string>) {
    match arg
    case Absent => true
    case One(v) => Lower(Trim(v)) in names
    case Many(vs) =>
      && 1 <= |vs| <= 128 && (forall v | v in vs :: Lower(Trim(v)) in names)
      && forall i, j | 0 <= i < j < |vs| :: Lower(Trim(vs[i])) != Lower(Trim(vs[j]))
  }

  // The name of a sort without the minus sign for descending order.
  function SortName(sort: string): string { if sort != "" && sort[0] == '-' then sort[1..] else sort }

  predicate Acceptable(iso: IsoParse, input: RawRequest) {
    && AcceptableNames(input.city, CITY_NAMES) && AcceptableNames(input.propertyType, TYPE_NAMES)
    && AcceptableNames(input.status, STATUS_NAMES)
    && (input.search.Some? ==> |Trim(input.search.value)| <= 256)
    && (input.focusThreshold.Some? ==> input.focusThreshold.value >= 0.0)
    && (input.documentId.Some? ==> 1 <= |input.documentId.value| <= 256 && Trim(input.documentId.value) == input.documentId.value)
    && (input.sort.Some? ==> SortName(input.sort.value) in SORT_NAMES)
    && (input.page.Some? ==> 1 <= input.page.value <= 100000)
    && (input.pageSize.Some? ==> 1 <= input.pageSize.value <= 100)
    && (input.firstSeenAfter.Some? <==> input.firstSeenAtOrBefore.Some?)
    && (input.firstSeenAfter.Some? && input.firstSeenAtOrBefore.Some? ==>
          var after, atOrBefore := iso(input.firstSeenAfter.value), iso(input.firstSeenAtOrBefore.value);
          after.Some? && atOrBefore.Some? && after.value < atOrBefore.value)
  }

  predicate IsNamed(arg: EnumArg, x: Option<string>) {
    match arg
    case Absent => true
    case One(v) => x == Some(Lower(Trim(v)))
    case Many(vs) => exists v | v in vs :: x == Some(Lower(Trim(v)))
  }

  predicate Sought(iso: IsoParse, input: RawRequest, row: Row) {
    && IsNamed(input.city, row.city) && IsNamed(input.propertyType, row.propertyType)
    && (if input.status.Absent? then row.status != Some("rejected")
        else IsNamed(input.status, if row.status.None? then Some("new") else row.status))
    && (input.search.Some? && Trim(input.search.value) != "" ==>
          Contains(AsciiLower(SearchText(row)), Lower(Trim(input.search.value))))
    && (input.focusThreshold.Some? ==> row.focusScore.Some? && row.focusScore.value >= input.focusThreshold.value)
    && (input.documentId.Some? ==> row.documentId == input.documentId.value)
    && (input.firstSeenAfter.Some? && input.firstSeenAtOrBefore.Some? ==>
          var after, atOrBefore := iso(input.firstSeenAfter.value), iso(input.firstSeenAtOrBefore.value);
          after.Some? && atOrBefore.Some? && row.firstSeenAt.Number? && after.value < row.firstSeenAt.n <= atOrBefore.value)
  }

  // What a profile wants, as its user has written it; blank entries of its lists do not count.
  predicate Wanted(p: Profile, row: Row) {
    && InList(p.regions, row.city) && InList(p.propertyTypes, row.propertyType)
    && (row.price.Some? && p.priceFrom.Some? ==> row.price.value >= p.priceFrom.value)
    && (row.price.Some? && p.priceTo.Some? ==> row.price.value <= p.priceTo.value)
    && (row.areaSqm.Some? && p.areaFrom.Some? ==> row.areaSqm.value >= p.areaFrom.value)
    && (row.areaSqm.Some? && p.areaTo.Some? ==> row.areaSqm.value <= p.areaTo.value)
    && FreeOf(p.stopWords, row)
  }

  predicate InList(items: seq<string>, x: Option<string>) {
    exists v | v in items :: Trim(v) != "" && x == Some(Lower(Trim(v)))
  }

  // The list has an entry that is not blank.
  predicate HasEntry(items: seq<string>) { exists v | v in items :: Trim(v) != "" }

  predicate FreeOf(words: seq<string>, row: Row) {
    forall w | w in words && Trim(w) != "" :: !Contains(AsciiLower(ProfileText(row)), Lower(Trim(w)))
  }

  function FieldOf(name: string, row: Row): Value {
    if name == "price" then NumberOf(row.price)
    else if name == "price_per_sqm" then NumberOf(row.pricePerSqm)
    else if name == "area_sqm" then NumberOf(row.areaSqm)
    else if name == "deviation_percent" then NumberOf(row.deviationPercent)
    else if name == "createdAt" || name == "created_at" then row.createdAt
    else NumberOf(row.focusScore)
  }

  predicate IsPaged(page: int, pageSize: int, input: RawRequest) {
    && page == (if input.page.Some? then input.page.value else 1)
    && pageSize == (if input.pageSize.Some? then input.pageSize.value else 20)
  }

  // By the field named, descending after a minus sign; by the score, descending, without a sort.
  ghost predicate IsOrdered(order: Order, sort: Option<string>) {
    match sort
    case None => OrderText(order) == "focus_score DESC" && order.ByScore?
    case Some(s) =>
      && order.By? && (order.descending <==> s != "" && s[0] == '-')
      && forall row :: ColumnValue(order.column, row) == FieldOf(SortName(s), row)
  }

  lemma NamesAreSets()
    ensures forall x :: x in REGION_SET <==> x in CITY_NAMES
    ensures forall x :: x in PROPERTY_TYPE_SET <==> x in TYPE_NAMES
    ensures forall x :: x in STATUS_SET <==> x in STATUS_NAMES
  {
    assert REGION_VALUES == CITY_NAMES && PROPERTY_TYPE_VALUES == TYPE_NAMES;
  }

  lemma EnumFilterMeans(arg: EnumArg, names: seq<string>, allowed: set<string>, x: Option<string>)
    requires forall v :: v in allowed <==> v in names
    ensures EnumFilter(arg, allowed).Ok? <==> AcceptableNames(arg, names)
    ensures EnumFilter(arg, allowed).Ok? ==>
      var list := EnumFilter(arg, allowed).value;
      && (list == [] <==> arg.Absent?) && (list != [] ==> (OneOf(x, list) <==> IsNamed(arg, x)))
  {
    CanonsMean(ArgValues(arg));
    hide Canons, NoRepeats, Trim, Lower;
    match arg
    case Absent =>
    case One(v) => assert forall w :: w in [v] <==> w == v;
    case Many(vs) =>
  }

  lemma CanonsMean(values: seq<string>)
    ensures forall x :: x in Canons(values) <==> exists v | v in values :: Lower(Trim(v)) == x
    ensures NoRepeats(Canons(values)) <==> forall i, j | 0 <= i < j < |values| :: Lower(Trim(values[i])) != Lower(Trim(values[j]))
  {
    var canons := Canons(values);
    assert forall i | 0 <= i < |values| :: canons[i] == Lower(Trim(values[i]));
    hide Trim, Lower, Canons;
    forall x ensures x in canons <==> exists v | v in values :: Lower(Trim(v)) == x {
      if x in canons {
        var i :| 0 <= i < |canons| && canons[i] == x;
        assert values[i] in values;
      }
      if v :| v in values && Lower(Trim(v)) == x {
        var i :| 0 <= i < |values| && values[i] == v;
        assert canons[i] == x;
      }
    }
  }

  lemma SortMeans(sort: Option<string>, row: Row)
    ensures NormalizeSort(sort).Ok? <==> (sort.Some? ==> SortName(sort.value) in SORT_NAMES)
    ensures NormalizeSort(sort).Ok? && sort.None? ==> OrderText(NormalizeSort(sort).value) == "focus_score DESC"
    ensures NormalizeSort(sort).Ok? && sort.Some? ==>
      && NormalizeSort(sort).value.By?
      && (NormalizeSort(sort).value.descending <==> sort.value != "" && sort.value[0] == '-')
      && ColumnValue(NormalizeSort(sort).value.column, row) == FieldOf(SortName(sort.value), row)
  {
    if sort.Some? {
      var name := SortName(sort.value);
      assert name in SORT_COLUMNS <==> name in SORT_NAMES;
      assert sort.value == "" ==> "" !in SORT_NAMES;
    }
  }

  /** A request is accepted exactly in these terms, and then its pages and its order are those given, or the defaults. */
  lemma AcceptedRequest(iso: IsoParse, input: RawRequest)
    ensures NormalizeRequest(iso, input).Ok? <==> Acceptable(iso, input)
    ensures NormalizeRequest(iso, input).Ok? ==>
      var r := NormalizeRequest(iso, input).value;
      && IsPaged(r.page, r.pageSize, input)
      && Ok(r.sort) == NormalizeSort(input.sort)
  {
    NamesAreSets();
    EnumFilterMeans(input.city, CITY_NAMES, REGION_SET, None);
    EnumFilterMeans(input.propertyType, TYPE_NAMES, PROPERTY_TYPE_SET, None);
    EnumFilterMeans(input.status, STATUS_NAMES, STATUS_SET, None);
    SortMeans(input.sort, AnyRow);
    hide EnumFilter, AcceptableNames, NormalizeSort, SortName, Trim;
  }

  /** A row meets the normalized request exactly if it meets the request as given. */
  lemma AskedIsSought(iso: IsoParse, input: RawRequest, row: Row)
    requires NormalizeRequest(iso, input).Ok?
    ensures Asked(NormalizeRequest(iso, input).value, row) <==> Sought(iso, input, row)
  {
    NamesAreSets();
    EnumFilterMeans(input.city, CITY_NAMES, REGION_SET, row.city);
    EnumFilterMeans(input.propertyType, TYPE_NAMES, PROPERTY_TYPE_SET, row.propertyType);
    EnumFilterMeans(input.status, STATUS_NAMES, STATUS_SET, Some(PersonalStatus(row)));
    StatusMeans(input.status, row);
    SearchMeans(input.search, row);
    WindowMeans(iso, input.firstSeenAfter, input.firstSeenAtOrBefore, row);
    NormalizedParts(iso, input);
    hide EnumFilter, IsNamed, NormalizeRequest, NormalizeSearch, NormalizeWindow, NormalizeSort, ValidDocumentId, Found, Seen, OneOf, Contains,
      SearchText, PersonalStatus, Trim, Lower, AsciiLower;
  }

  lemma NormalizedParts(iso: IsoParse, input: RawRequest)
    requires NormalizeRequest(iso, input).Ok?
    ensures var r := NormalizeRequest(iso, input).value;
            && EnumFilter(input.city, REGION_SET) == Ok(r.city) && EnumFilter(input.propertyType, PROPERTY_TYPE_SET) == Ok(r.propertyType)
            && EnumFilter(input.status, STATUS_SET) == Ok(r.status) && NormalizeSearch(input.search) == Ok(r.search)
            && r.focusThreshold == input.focusThreshold && r.documentId == input.documentId
            && NormalizeWindow(iso, input.firstSeenAfter, input.firstSeenAtOrBefore) == Ok(r.firstSeen)
  {
    hide EnumFilter, NormalizeSearch, NormalizeWindow, NormalizeSort, ValidDocumentId;
  }

  lemma StatusMeans(status: EnumArg, row: Row)
    requires EnumFilter(status, STATUS_SET).Ok?
    ensures var list := EnumFilter(status, STATUS_SET).value;
            (if list == [] then PersonalStatus(row) != "rejected" else PersonalStatus(row) in list)
            <==> (if status.Absent? then row.status != Some("rejected")
                  else IsNamed(status, if row.status.None? then Some("new") else row.status))
  {
    NamesAreSets();
    EnumFilterMeans(status, STATUS_NAMES, STATUS_SET, Some(PersonalStatus(row)));
    assert "new" != "rejected" by { assert "new"[0] != "rejected"[0]; }
    hide EnumFilter, IsNamed;
  }

  lemma SearchMeans(search: Option<string>, row: Row)
    requires NormalizeSearch(search).Ok?
    ensures var s := NormalizeSearch(search).value;
            (s.Some? ==> Found(s.value, row)) <==>
            (search.Some? && Trim(search.value) != "" ==> Contains(AsciiLower(SearchText(row)), Lower(Trim(search.value))))
  {
    hide Contains, SearchText, Trim, Lower, AsciiLower;
  }

  lemma WindowMeans(iso: IsoParse, after: Option<string>, atOrBefore: Option<string>, row: Row)
    requires NormalizeWindow(iso, after, atOrBefore).Ok?
    ensures var w := NormalizeWindow(iso, after, atOrBefore).value;
            (w.Some? ==> Seen(w.value, row)) <==>
            (after.Some? && atOrBefore.Some? ==>
               var from, to := iso(after.value), iso(atOrBefore.value);
               from.Some? && to.Some? && row.firstSeenAt.Number? && from.value < row.firstSeenAt.n <= to.value)
  {
  }

  /** A row suits the normalized profile exactly if it suits the profile as given. */
  lemma AdmittedIsWanted(p: Profile, row: Row)
    requires ProfilePayload(p).Ok?
    ensures Admits(ProfilePayload(p).value, row) <==> Wanted(p, row)
  {
    PayloadLists(p);
    var n := ProfilePayload(p).value;
    ListMeans(p.regions, n.regions, row.city);
    ListMeans(p.propertyTypes, n.propertyTypes, row.propertyType);
    StopWordsMean(p.stopWords, n.stopWords, row);
    hide OneOf, NoneOf, InList, FreeOf, CanonItems, ProfilePayload;
  }

  lemma ListMeans(items: seq<string>, list: seq<string>, x: Option<string>)
    requires forall y :: y in list <==> y in CanonItems(items)
    ensures OneOf(x, list) <==> InList(items, x)
  {
    CanonItemsElements(items);
    NonEmptyCanons(items);
    hide IsCanonOf, CanonItems, Trim, Lower;
  }

  lemma StopWordsMean(items: seq<string>, list: seq<string>, row: Row)
    requires forall y :: y in list <==> y in CanonItems(items)
    ensures NoneOf(list, row) <==> FreeOf(items, row)
  {
    CanonItemsElements(items);
    NonEmptyCanons(items);
    hide IsCanonOf, CanonItems, Trim, Lower, Contains, ProfileText, AsciiLower;
  }

  // What normalization does to each part of a profile.
  lemma PayloadLists(p: Profile)
    requires ProfilePayload(p).Ok?
    ensures var n := ProfilePayload(p).value;
            && (forall x :: x in n.regions <==> x in CanonItems(p.regions))
            && (forall x :: x in n.propertyTypes <==> x in CanonItems(p.propertyTypes))
            && (forall x :: x in n.stopWords <==> x in CanonItems(p.stopWords))
            && n.priceFrom == p.priceFrom && n.priceTo == p.priceTo && n.areaFrom == p.areaFrom && n.areaTo == p.areaTo
  {
    hide CanonItems;
  }

  lemma NonEmptyCanons(items: seq<string>)
    ensures forall x :: IsCanonOf(x, items) <==> exists y | y in items :: Trim(y) != "" && Lower(Trim(y)) == x
  {
    forall x ensures IsCanonOf(x, items) <==> exists y | y in items :: Trim(y) != "" && Lower(Trim(y)) == x {
      if IsCanonOf(x, items) { var y :| y in items && Canon(y) == x; assert Trim(y) != ""; }
    }
  }

  // ---------- Clauses ----------

  const StatusTerm := Coalesce(Col(Status), Param)
  // term || ' ' || COALESCE(column, '')
  function Spaced(t: Term, c: Column): (r: Term)
    ensures TermParams(r) == TermParams(t)
  {
    assert TermParams(Space) == 0 && TermParams(Concat(t, Space)) == TermParams(t);
    assert TermParams(Coalesce(Col(c), Empty)) == 0;
    Concat(Concat(t, Space), Coalesce(Col(c), Empty))
  }

  const ProfileTextTerm := LowerOf(Spaced(Coalesce(Col(Title), Empty), Description))
  const SearchTextTerm := LowerOf(Spaced(ProfileTextTerm.a, Address))

  function NullOr(c: Column, op: Op): Cond { Or(IsNull(Col(c)), Compare(Col(c), op, Param)) }

  const FreshClause := And(Compare(Col(FirstSeenAt), Gt, Param), Compare(Col(FirstSeenAt), Le, Param))

  function Values(items: seq<string>): (r: seq<Value>)
    ensures |r| == |items| && forall i | 0 <= i < |items| :: r[i] == Text(items[i])
  {
    seq(|items|, i requires 0 <= i < |items| => Text(items[i]))
  }

  function LikePattern(w: string): Value { Text("%" + EscapeLike(w) + "%") }

  lemma {:induction false} InValuesIsMember(x: Option<string>, items: seq<string>)
    ensures InValues(TextOf(x), Values(items)).True? <==> OneOf(x, items)
  {
    if items != [] {
      assert Values(items)[1..] == Values(items[1..]);
      InValuesIsMember(x, items[1..]);
      assert items == [items[0]] + items[1..];
    }
  }

  lemma InClause(c: Column, items: seq<string>, row: Row)
    requires c == City || c == PropertyType
    ensures CondValue(InParams(Col(c), |items|), row, Values(items)).True?
        <==> OneOf(if c == City then row.city else row.propertyType, items)
  {
    InValuesIsMember(if c == City then row.city else row.propertyType, items);
    assert Values(items)[0..] == Values(items);
  }

  lemma StatusTermValue(row: Row)
    ensures TermValue(StatusTerm, row, [Text(DEFAULT_STATUS)]) == Text(PersonalStatus(row))
  {
    assert [Text(DEFAULT_STATUS)][0..] == [Text(DEFAULT_STATUS)];
  }

  lemma StatusInClause(items: seq<string>, row: Row)
    ensures CondValue(InParams(StatusTerm, |items|), row, [Text(DEFAULT_STATUS)] + Values(items)).True? <==> PersonalStatus(row) in items
  {
    var ps := [Text(DEFAULT_STATUS)] + Values(items);
    assert ps[..1] == [Text(DEFAULT_STATUS)] && ps[1..] == Values(items);
    StatusTermValue(row);
    InValuesIsMember(Some(PersonalStatus(row)), items);
  }

  lemma NotRejectedClause(row: Row)
    ensures CondValue(Compare(StatusTerm, Ne, Param), row, [Text(DEFAULT_STATUS), Text("rejected")]).True?
        <==> PersonalStatus(row) != "rejected"
  {
    var ps := [Text(DEFAULT_STATUS), Text("rejected")];
    assert ps[..1] == [Text(DEFAULT_STATUS)] && ps[1..] == [Text("rejected")];
    StatusTermValue(row);
  }

  // The bounded columns.
  function Measure(c: Column, row: Row): Option<real> { if c == Price then row.price else row.areaSqm }

  predicate Within(x: Option<real>, op: Op, bound: Option<real>) {
    if op == Ge then AtLeast(x, bound) else AtMost(x, bound)
  }

  lemma BoundClause(c: Column, op: Op, bound: real, row: Row)
    requires (c == Price || c == AreaSqm) && (op == Ge || op == Le)
    ensures CondParams(NullOr(c, op)) == 1
    ensures CondValue(NullOr(c, op), row, [Number(bound)]).True? <==> Within(Measure(c, row), op, Some(bound))
  {
    var qs := [Number(bound)];
    assert qs[0..] == qs && qs[..0] == [] && TermValue(Param, row, qs) == qs[0] && TermValue(Col(c), row, []) == NumberOf(Measure(c, row));
    assert CondValue(Compare(Col(c), op, Param), row, qs) == CompareValues(NumberOf(Measure(c, row)), op, qs[0]);
    assert CondValue(IsNull(Col(c)), row, []) == Bool(Measure(c, row).None?);
  }

  lemma OrEmptyValue(c: Column, x: Option<string>, row: Row)
    requires ColumnValue(c, row) == TextOf(x)
    ensures TermValue(Coalesce(Col(c), Empty), row, []) == Text(OrElse(x, ""))
  {
    var ps: seq<Value> := [];
    assert ps[..0] == [] && ps[0..] == [];
  }

  lemma ConcatValue(a: Term, b: Term, row: Row, s: string, t: string)
    requires TermParams(a) == 0 && TermParams(b) == 0
    requires TermValue(a, row, []) == Text(s) && TermValue(b, row, []) == Text(t)
    ensures TermValue(Concat(a, b), row, []) == Text(s + t)
  {
    var ps: seq<Value> := [];
    assert ps[..0] == [] && ps[0..] == [];
  }

  lemma SpacedValue(a: Term, c: Column, x: Option<string>, row: Row, s: string)
    requires TermParams(a) == 0 && TermValue(a, row, []) == Text(s) && ColumnValue(c, row) == TextOf(x)
    ensures TermValue(Spaced(a, c), row, []) == Text(s + " " + OrElse(x, ""))
  {
    OrEmptyValue(c, x, row);
    ConcatValue(a, Space, row, s, " ");
    ConcatValue(Concat(a, Space), Coalesce(Col(c), Empty), row, s + " ", OrElse(x, ""));
  }

  lemma SearchedTexts(row: Row)
    ensures TermValue(ProfileTextTerm, row, []) == Text(AsciiLower(ProfileText(row)))
    ensures TermValue(SearchTextTerm, row, []) == Text(AsciiLower(SearchText(row)))
  {
    OrEmptyValue(Title, row.title, row);
    SpacedValue(Coalesce(Col(Title), Empty), Description, row.description, row, OrElse(row.title, ""));
    SpacedValue(ProfileTextTerm.a, Address, row.address, row, ProfileText(row));
  }

  lemma LikeClause(t: Term, text: string, w: string, row: Row)
    requires TermParams(t) == 0 && TermValue(t, row, []) == Text(AsciiLower(text)) && Lower(w) == w
    ensures CondValue(Like(t, true), row, [LikePattern(w)]).True? <==> !Contains(AsciiLower(text), w)
    ensures CondValue(Like(t, false), row, [LikePattern(w)]).True? <==> Contains(AsciiLower(text), w)
  {
    hide LikeMatch;
    assert [LikePattern(w)][..0] == [];
    LikeIsContains(w, AsciiLower(text));
    LowerFacts(text);
    LowerFacts(w);
  }

  lemma WindowClause(window: Window, row: Row)
    ensures CondValue(FreshClause, row, [Number(window.after), Number(window.atOrBefore)]).True? <==> Seen(window, row)
  {
    var ps := [Number(window.after), Number(window.atOrBefore)];
    assert ps[..1] == [Number(window.after)] && ps[1..] == [Number(window.atOrBefore)];
    assert ps[..1][0..] == ps[..1] && ps[1..][0..] == ps[1..];
  }

  // ---------- Compilation ----------

  datatype Compiled = Compiled(where: seq<Cond>, bindings: seq<Value>, orderBy: Order, page: int, pageSize: int)

  // What the compiled form means: each binding is used once, and the clauses hold exactly for the visible rows.
  ghost predicate Compiles(c: Compiled, n: Profile, r: Request) {
    && |c.bindings| == 1 + WhereParams(c.where)
    && c.bindings[0] == Number(n.userId as real)
    && (forall row :: WhereValue(c.where, row, c.bindings[1..]).True? <==> Visible(n, r, row))
    && c.orderBy == r.sort && c.page == r.page && c.pageSize == r.pageSize
  }

  // The clauses hold for the row on the bindings after the first.
  predicate Picks(c: Compiled, row: Row) {
    |c.bindings| == 1 + WhereParams(c.where) && WhereValue(c.where, row, c.bindings[1..]).True?
  }

  // The two arrays the compiler pushes on.
  datatype Draft = Draft(where: seq<Cond>, bindings: seq<Value>)

  // The first binding is for FROM, the others are for the clauses.
  predicate Fits(d: Draft) {
    |d.bindings| == 1 + WhereParams(d.where)
  }

  predicate Selects(d: Draft, row: Row)
    requires Fits(d)
  {
    WhereValue(d.where, row, d.bindings[1..]).True?
  }

  method Push(d: Draft, c: Cond, qs: seq<Value>, ghost k: Row -> bool) returns (d': Draft)
    requires Fits(d) && |qs| == CondParams(c)
    requires forall row :: CondValue(c, row, qs).True? <==> k(row)
    ensures Fits(d') && d'.bindings[0] == d.bindings[0]
    ensures forall row :: Selects(d', row) <==> Selects(d, row) && k(row)
  {
    d' := Draft(d.where + [c], d.bindings + qs);
    assert d'.bindings[1..] == d.bindings[1..] + qs;
    WhereParamsAppend(d.where, c);
    forall row ensures Selects(d', row) <==> Selects(d, row) && k(row) {
      WhereAppend(d.where, c, row, d.bindings[1..], qs);
    }
  }

  method PushIn(d: Draft, column: Column, items: seq<string>) returns (d': Draft)
    requires Fits(d) && (column == City || column == PropertyType)
    ensures Fits(d') && d'.bindings[0] == d.bindings[0]
    ensures forall row :: Selects(d', row) <==> Selects(d, row) && OneOf(if column == City then row.city else row.propertyType, items)
  {
    ghost var k := (row: Row) => OneOf(if column == City then row.city else row.propertyType, items);
    forall row ensures CondValue(InParams(Col(column), |items|), row, Values(items)).True? <==> k(row) {
      InClause(column, items, row);
    }
    d' := Push(d, InParams(Col(column), |items|), Values(items), k);
  }

  method PushFilter(d: Draft, column: Column, items: seq<string>) returns (d': Draft)
    requires Fits(d) && (column == City || column == PropertyType)
    ensures Fits(d') && d'.bindings[0] == d.bindings[0]
    ensures forall row :: Selects(d', row) <==>
      Selects(d, row) && (items != [] ==> OneOf(if column == City then row.city else row.propertyType, items))
  {
    d' := d;
    if |items| > 0 { d' := PushIn(d, column, items); }
  }

  method PushStatus(d: Draft, items: seq<string>) returns (d': Draft)
    requires Fits(d)
    ensures Fits(d') && d'.bindings[0] == d.bindings[0]
    ensures forall row :: Selects(d', row) <==> Selects(d, row) && (items != [] ==> PersonalStatus(row) in items)
  {
    d' := d;
    if |items| > 0 {
      var c, qs := InParams(StatusTerm, |items|), [Text(DEFAULT_STATUS)] + Values(items);
      forall row ensures CondValue(c, row, qs).True? <==> PersonalStatus(row) in items { StatusInClause(items, row); }
      d' := Push(d, c, qs, row => PersonalStatus(row) in items);
    }
  }

  // Without a status filter the rejected rows are left out.
  method PushNotRejected(d: Draft, items: seq<string>) returns (d': Draft)
    requires Fits(d)
    ensures Fits(d') && d'.bindings[0] == d.bindings[0]
    ensures forall row :: Selects(d', row) <==> Selects(d, row) && (items == [] ==> PersonalStatus(row) != "rejected")
  {
    d' := d;
    if |items| == 0 {
      var c, qs := Compare(StatusTerm, Ne, Param), [Text(DEFAULT_STATUS), Text("rejected")];
      forall row ensures CondValue(c, row, qs).True? <==> PersonalStatus(row) != "rejected" { NotRejectedClause(row); }
      d' := Push(d, c, qs, (row: Row) => PersonalStatus(row) != "rejected");
    }
  }

  // The four optional bounds of a profile.
  method PushBounds(d: Draft, n: Profile) returns (d': Draft)
    requires Fits(d)
    ensures Fits(d') && d'.bindings[0] == d.bindings[0]
    ensures forall row :: Selects(d', row) <==> Selects(d, row) && InBounds(n, row)
  {
    hide Fits, Selects, AtLeast, AtMost;
    var d1 := PushBound(d, Price, Ge, n.priceFrom);
    var d2 := PushBound(d1, Price, Le, n.priceTo);
    var d3 := PushBound(d2, AreaSqm, Ge, n.areaFrom);
    d' := PushBound(d3, AreaSqm, Le, n.areaTo);
  }

  method PushBound(d: Draft, column: Column, op: Op, bound: Option<real>) returns (d': Draft)
    requires Fits(d) && (column == Price || column == AreaSqm) && (op == Ge || op == Le)
    ensures Fits(d') && d'.bindings[0] == d.bindings[0]
    ensures forall row :: Selects(d', row) <==> Selects(d, row) && Within(Measure(column, row), op, bound)
  {
    hide Selects, Within, CondValue, Measure;
    d' := d;
    if bound.Some? {
      forall row ensures CondParams(NullOr(column, op)) == 1 && (
        CondValue(NullOr(column, op), row, [Number(bound.value)]).True? <==> Within(Measure(column, row), op, bound)) {
        BoundClause(column, op, bound.value, row);
      }
      d' := Push(d, NullOr(column, op), [Number(bound.value)], row => Within(Measure(column, row), op, bound));
    } else {
      forall row ensures Within(Measure(column, row), op, bound) { Unbounded(Measure(column, row), op); }
    }
  }

  lemma Unbounded(x: Option<real>, op: Op)
    ensures Within(x, op, None)
  {
  }

  method PushStopWords(d: Draft, words: seq<string>) returns (d': Draft)
    requires Fits(d) && forall w | w in words :: Lower(w) == w
    ensures Fits(d') && d'.bindings[0] == d.bindings[0]
    ensures forall row :: Selects(d', row) <==> Selects(d, row) && NoneOf(words, row)
  {
    d' := d;
    for i := 0 to |words|
      invariant Fits(d') && d'.bindings[0] == d.bindings[0]
      invariant forall row :: Selects(d', row) <==> Selects(d, row) && NoneOf(words[..i], row)
    {
      var before := d';
      d' := PushStopWord(before, words[i]);
      forall row ensures Selects(d', row) <==> Selects(d, row) && NoneOf(words[..i + 1], row) {
        assert Selects(before, row) <==> Selects(d, row) && NoneOf(words[..i], row);
        NoneOfOneMore(words[..i], words[i], row);
        assert words[..i + 1] == words[..i] + [words[i]];
      }
    }
    assert words[..|words|] == words;
  }

  lemma NoneOfOneMore(words: seq<string>, w: string, row: Row)
    ensures NoneOf(words + [w], row) <==> NoneOf(words, row) && !Contains(AsciiLower(ProfileText(row)), w)
  {
    var all := words + [w];
    assert forall x :: x in all <==> x in words || x == w;
  }

  method PushStopWord(d: Draft, w: string) returns (d': Draft)
    requires Fits(d) && Lower(w) == w
    ensures Fits(d') && d'.bindings[0] == d.bindings[0]
    ensures forall row :: Selects(d', row) <==> Selects(d, row) && !Contains(AsciiLower(ProfileText(row)), w)
  {
    var c, qs := Like(ProfileTextTerm, true), [LikePattern(w)];
    ghost var k := (row: Row) => !Contains(AsciiLower(ProfileText(row)), w);
    forall row ensures CondValue(c, row, qs).True? <==> k(row) {
      SearchedTexts(row);
      LikeClause(ProfileTextTerm, ProfileText(row), w, row);
    }
    d' := Push(d, c, qs, k);
  }

  method PushSearch(d: Draft, search: Option<string>) returns (d': Draft)
    requires Fits(d)
    ensures Fits(d') && d'.bindings[0] == d.bindings[0]
    ensures forall row :: Selects(d', row) <==> Selects(d, row) && (search.Some? ==> Found(search.value, row))
  {
    d' := d;
    if search.Some? {
      var c, qs := Like(SearchTextTerm, false), [LikePattern(Lower(search.value))];
      LowerFacts(search.value);
      forall row ensures CondValue(c, row, qs).True? <==> Found(search.value, row) {
        SearchedTexts(row);
        LikeClause(SearchTextTerm, SearchText(row), Lower(search.value), row);
      }
      d' := Push(d, c, qs, row => Found(search.value, row));
    }
  }

  method PushFocus(d: Draft, threshold: Option<real>) returns (d': Draft)
    requires Fits(d)
    ensures Fits(d') && d'.bindings[0] == d.bindings[0]
    ensures forall row :: Selects(d', row) <==> Selects(d, row) && (threshold.Some? ==> InFocus(threshold.value, row))
  {
    d' := d;
    if threshold.Some? {
      var qs := [Number(threshold.value)];
      assert qs[0..] == qs;
      d' := Push(d, Compare(Col(FocusScore), Ge, Param), qs, row => InFocus(threshold.value, row));
    }
  }

  method PushDocument(d: Draft, id: Option<string>) returns (d': Draft)
    requires Fits(d)
    ensures Fits(d') && d'.bindings[0] == d.bindings[0]
    ensures forall row :: Selects(d', row) <==> Selects(d, row) && (id.Some? ==> row.documentId == id.value)
  {
    d' := d;
    if id.Some? {
      var qs := [Text(id.value)];
      assert qs[0..] == qs;
      d' := Push(d, Compare(Col(DocumentId), Eq, Param), qs, (row: Row) => row.documentId == id.value);
    }
  }

  method PushWindow(d: Draft, window: Option<Window>) returns (d': Draft)
    requires Fits(d)
    ensures Fits(d') && d'.bindings[0] == d.bindings[0]
    ensures forall row :: Selects(d', row) <==> Selects(d, row) && (window.Some? ==> Seen(window.value, row))
  {
    d' := d;
    if window.Some? {
      var qs := [Number(window.value.after), Number(window.value.atOrBefore)];
      forall row ensures CondValue(FreshClause, row, qs).True? <==> Seen(window.value, row) { WindowClause(window.value, row); }
      d' := Push(d, FreshClause, qs, row => Seen(window.value, row));
    }
  }

  // What the profile demands, and without a status filter that the row is not rejected.
  predicate OfProfile(n: Profile, status: seq<string>, row: Row) {
    && OneOf(row.city, n.regions) && OneOf(row.propertyType, n.propertyTypes)
    && (status == [] ==> PersonalStatus(row) != "rejected")
    && InBounds(n, row) && NoneOf(n.stopWords, row)
  }

  // What the filters of the request demand.
  predicate OfRequest(r: Request, row: Row) {
    && (r.city != [] ==> OneOf(row.city, r.city))
    && (r.propertyType != [] ==> OneOf(row.propertyType, r.propertyType))
    && (r.status != [] ==> PersonalStatus(row) in r.status)
    && (r.search.Some? ==> Found(r.search.value, row))
    && (r.focusThreshold.Some? ==> InFocus(r.focusThreshold.value, row))
    && (r.documentId.Some? ==> row.documentId == r.documentId.value)
    && (r.firstSeen.Some? ==> Seen(r.firstSeen.value, row))
  }

  method PushProfile(d: Draft, n: Profile, status: seq<string>) returns (d': Draft)
    requires Fits(d) && forall w | w in n.stopWords :: Lower(w) == w
    ensures Fits(d') && d'.bindings[0] == d.bindings[0]
    ensures forall row :: Selects(d', row) <==> Selects(d, row) && OfProfile(n, status, row)
  {
    hide Fits, Selects, OneOf, PersonalStatus, InBounds, NoneOf, Lower;
    var d1 := PushIn(d, City, n.regions);
    var d2 := PushIn(d1, PropertyType, n.propertyTypes);
    var d3 := PushNotRejected(d2, status);
    var d4 := PushBounds(d3, n);
    d' := PushStopWords(d4, n.stopWords);
    forall row ensures Selects(d', row) <==> Selects(d, row) && OfProfile(n, status, row) {
      assert Selects(d2, row) <==> Selects(d, row) && OneOf(row.city, n.regions) && OneOf(row.propertyType, n.propertyTypes);
      assert Selects(d', row) <==> Selects(d3, row) && InBounds(n, row) && NoneOf(n.stopWords, row);
    }
  }

  method PushRequest(d: Draft, r: Request) returns (d': Draft)
    requires Fits(d)
    ensures Fits(d') && d'.bindings[0] == d.bindings[0]
    ensures forall row :: Selects(d', row) <==> Selects(d, row) && OfRequest(r, row)
  {
    hide Fits, Selects, OneOf, PersonalStatus, Found, InFocus, Seen;
    var d1 := PushFilter(d, City, r.city);
    var d2 := PushFilter(d1, PropertyType, r.propertyType);
    var d3 := PushStatus(d2, r.status);
    var d4 := PushSearch(d3, r.search);
    var d5 := PushFocus(d4, r.focusThreshold);
    var d6 := PushDocument(d5, r.documentId);
    d' := PushWindow(d6, r.firstSeen);
    forall row ensures Selects(d', row) <==> Selects(d, row) && OfRequest(r, row) {
      assert Selects(d1, row) <==> Selects(d, row) && (r.city != [] ==> OneOf(row.city, r.city));
      assert Selects(d2, row) <==> Selects(d1, row) && (r.propertyType != [] ==> OneOf(row.propertyType, r.propertyType));
    }
  }

  /**
    The compiler. For every row the clauses hold, on the bindings after the first, exactly when the profile
    admits the row and the request asks for it.
   */
  method CompileUserPropertyScope(iso: IsoParse, profile: Profile, input: RawRequest) returns (result: Result<Compiled, ScopeError>)
    ensures ScopeProfile(profile).Err? ==> result == Err(ScopeProfile(profile).error)
    ensures ScopeProfile(profile).Ok? && NormalizeRequest(iso, input).Err? ==> result == Err(Validation)
    ensures result.Ok? <==> ScopeProfile(profile).Ok? && NormalizeRequest(iso, input).Ok?
    ensures result.Ok? ==> Compiles(result.value, ScopeProfile(profile).value, NormalizeRequest(iso, input).value)
    // In terms of profile and request as given:
    ensures result.Ok? <==> ScopeProfile(profile).Ok? && Acceptable(iso, input)
    ensures result.Ok? ==> forall row :: Picks(result.value, row) <==> Wanted(profile, row) && Sought(iso, input, row)
    ensures result.Ok? ==> IsPaged(result.value.page, result.value.pageSize, input) && IsOrdered(result.value.orderBy, input.sort)
  {
    if ScopeProfile(profile).Err? { return Err(ScopeProfile(profile).error); }
    var n := ScopeProfile(profile).value;
    RequestAsGiven(iso, input);
    if NormalizeRequest(iso, input).Err? { return Err(Validation); }
    var r := NormalizeRequest(iso, input).value;
    CanonicalStopWords(profile);
    hide *;
    NothingPushed(Number(n.userId as real));
    var d0 := Draft([], [Number(n.userId as real)]);
    var d1 := PushProfile(d0, n, r.status);
    var d2 := PushRequest(d1, r);
    forall row ensures Selects(d2, row) <==> Visible(n, r, row) {
      assert Selects(d1, row) <==> OfProfile(n, r.status, row);
      ByParts(n, r, row);
    }
    var compiled := Compiled(d2.where, d2.bindings, r.sort, r.page, r.pageSize);
    MeaningCompiles(compiled, n, r);
    PicksAsGiven(compiled, iso, profile, input);
    return Ok(compiled);
  }

  lemma RequestAsGiven(iso: IsoParse, input: RawRequest)
    ensures NormalizeRequest(iso, input).Ok? <==> Acceptable(iso, input)
    ensures NormalizeRequest(iso, input).Ok? ==>
      var r := NormalizeRequest(iso, input).value; IsPaged(r.page, r.pageSize, input) && IsOrdered(r.sort, input.sort)
  {
    AcceptedRequest(iso, input);
    OrderedAsGiven(input.sort);
    hide *;
  }

  const AnyRow := Row("", None, None, None, None, None, None, None, None, None, None, Null, Null, false, Null, None)

  lemma OrderedAsGiven(sort: Option<string>)
    ensures NormalizeSort(sort).Ok? ==> IsOrdered(NormalizeSort(sort).value, sort)
  {
    if NormalizeSort(sort).Ok? {
      SortMeans(sort, AnyRow);
      forall row ensures sort.Some? ==>
        ColumnValue(NormalizeSort(sort).value.column, row) == FieldOf(SortName(sort.value), row) { SortMeans(sort, row); }
      hide ColumnValue, FieldOf, NormalizeSort, SortName;
    }
  }

  lemma PicksAsGiven(c: Compiled, iso: IsoParse, profile: Profile, input: RawRequest)
    requires ScopeProfile(profile).Ok? && NormalizeRequest(iso, input).Ok?
    requires Compiles(c, ScopeProfile(profile).value, NormalizeRequest(iso, input).value)
    ensures forall row :: Picks(c, row) <==> Wanted(profile, row) && Sought(iso, input, row)
  {
    ScopeIsPayload(profile);
    var n, r := ScopeProfile(profile).value, NormalizeRequest(iso, input).value;
    hide ScopeProfile, NormalizeRequest, ProfilePayload, Admits, Asked, Wanted, Sought, WhereValue, WhereParams;
    forall row ensures Picks(c, row) <==> Wanted(profile, row) && Sought(iso, input, row) {
      AdmittedIsWanted(profile, row);
      AskedIsSought(iso, input, row);
      assert WhereValue(c.where, row, c.bindings[1..]).True? <==> Visible(n, r, row);
    }
  }

  lemma ScopeIsPayload(profile: Profile)
    requires ScopeProfile(profile).Ok?
    ensures ProfilePayload(profile).Ok? && ScopeProfile(profile) == Ok(ProfilePayload(profile).value)
  {
  }

  lemma NothingPushed(user: Value)
    ensures Fits(Draft([], [user])) && Draft([], [user]).bindings[0] == user
    ensures forall row :: Selects(Draft([], [user]), row)
  {
  }

  predicate InBounds(n: Profile, row: Row) {
    && Within(row.price, Ge, n.priceFrom) && Within(row.price, Le, n.priceTo)
    && Within(row.areaSqm, Ge, n.areaFrom) && Within(row.areaSqm, Le, n.areaTo)
  }

  // The direct predicate in the order of the pushes.
  lemma ByParts(n: Profile, r: Request, row: Row)
    ensures Visible(n, r, row) <==> OfProfile(n, r.status, row) && OfRequest(r, row)
  {
    hide Found, Seen, OneOf, PersonalStatus, NoneOf;
  }

  lemma MeaningCompiles(c: Compiled, n: Profile, r: Request)
    requires Fits(Draft(c.where, c.bindings)) && c.bindings[0] == Number(n.userId as real)
    requires forall row :: Selects(Draft(c.where, c.bindings), row) <==> Visible(n, r, row)
    requires c.orderBy == r.sort && c.page == r.page && c.pageSize == r.pageSize
    ensures Compiles(c, n, r)
  {
    hide Visible, WhereValue;
    forall row ensures WhereValue(c.where, row, c.bindings[1..]).True? <==> Visible(n, r, row) {
      assert Selects(Draft(c.where, c.bindings), row) <==> Visible(n, r, row);
    }
  }

  lemma CanonicalStopWords(p: Profile)
    requires ProfilePayload(p).Ok?
    ensures forall w | w in ProfilePayload(p).value.stopWords :: w != "" && Trimmed(w) && Lower(w) == w
  {
    CanonItemsElements(p.stopWords);
    forall w | w in ProfilePayload(p).value.stopWords ensures w != "" && Trimmed(w) && Lower(w) == w {
      assert IsCanonOf(w, p.stopWords);
      var y :| y in p.stopWords && Canon(y) == w;
      CanonIdempotent(y);
    }
  }
}
