/** The dashboard counters over the compiled scope. */
module ScopeStats {
  import opened Wrappers
  import opened Texts
  import opened ParseRules
  import opened Sql
  import opened UserPropertyScope
  import opened ScopeQueries

  const HOT_SCORE := 50.0

  datatype Stats = Stats(total: nat, inFocus: nat, hot: nat, undervalued: nat, newToday: nat, typeBreakdown: map<string, nat>)

  // Now, and the day before it, in epoch milliseconds and as ISO text.
  datatype DayWindow = DayWindow(lowerEpoch: real, upperEpoch: real, lower: string, upper: string)

  const DAY_MS := 24.0 * 60.0 * 60.0 * 1000.0

  function DayBefore(now: real, isoText: real -> string): DayWindow {
    DayWindow(now - DAY_MS, now, isoText(now - DAY_MS), isoText(now))
  }

  // COALESCE(SUM(CASE WHEN test THEN 1 ELSE 0 END), 0)
  function CountIf(rows: seq<Row>, test: Row -> bool): nat {
    if rows == [] then 0 else (if test(rows[0]) then 1 else 0) + CountIf(rows[1..], test)
  }

  predicate IsNew(row: Row) { PersonalStatus(row) == DEFAULT_STATUS }

  predicate ScoreOver(row: Row, least: real, strict: bool) {
    row.focusScore.Some? && (if strict then row.focusScore.value > least else row.focusScore.value >= least)
  }

  // The CASE of new_today, on its four parameters: numbers are compared with the first two, text with the others.
  predicate SeenBetween(row: Row, bounds: seq<Value>)
    requires |bounds| == 4
  {
    match row.firstSeenAt
    case Null => false
    case Number(_) => CompareValues(row.firstSeenAt, Ge, bounds[0]).True? && CompareValues(row.firstSeenAt, Le, bounds[1]).True?
    case Text(_) => CompareValues(row.firstSeenAt, Ge, bounds[2]).True? && CompareValues(row.firstSeenAt, Le, bounds[3]).True?
  }

  // First seen on the day before now, by either representation of the time.
  predicate SeenOnDay(row: Row, day: DayWindow) {
    match row.firstSeenAt
    case Null => false
    case Number(n) => day.lowerEpoch <= n <= day.upperEpoch
    case Text(s) => !StrLess(s, day.lower) && !StrLess(day.upper, s)
  }

  function DayBounds(day: DayWindow): seq<Value> {
    [Number(day.lowerEpoch), Number(day.upperEpoch), Text(day.lower), Text(day.upper)]
  }

  lemma SeenBetweenIsOnDay(row: Row, day: DayWindow)
    ensures SeenBetween(row, DayBounds(day)) <==> SeenOnDay(row, day)
  {
    if row.firstSeenAt.Text? {
      StrLessTotal(row.firstSeenAt.s, day.lower);
      StrLessTotal(row.firstSeenAt.s, day.upper);
    }
  }

  lemma {:induction false} SameCount(rows: seq<Row>, a: Row -> bool, b: Row -> bool)
    requires forall row :: a(row) == b(row)
    ensures CountIf(rows, a) == CountIf(rows, b)
  {
    if rows != [] { SameCount(rows[1..], a, b); }
  }

  // GROUP BY property_type: a key and the number of its rows.
  datatype Group = Group(key: Option<string>, count: nat)

  function AddToGroups(groups: seq<Group>, key: Option<string>): seq<Group> {
    if groups == [] then [Group(key, 1)]
    else if groups[0].key == key then [Group(key, groups[0].count + 1)] + groups[1..]
    else [groups[0]] + AddToGroups(groups[1..], key)
  }

  function GroupByType(rows: seq<Row>): seq<Group> {
    if rows == [] then [] else AddToGroups(GroupByType(rows[1..]), rows[0].propertyType)
  }

  function GroupCount(groups: seq<Group>, key: Option<string>): nat {
    if groups == [] then 0 else (if groups[0].key == key then groups[0].count else 0) + GroupCount(groups[1..], key)
  }

  predicate DistinctKeys(groups: seq<Group>) {
    forall i, j | 0 <= i < j < |groups| :: groups[i].key != groups[j].key
  }

  function TypeCount(rows: seq<Row>, key: Option<string>): nat {
    CountIf(rows, (row: Row) => row.propertyType == key)
  }

  predicate HasType(rows: seq<Row>, key: Option<string>) {
    exists row | row in rows :: row.propertyType == key
  }

  predicate HasKey(groups: seq<Group>, key: Option<string>) {
    exists i | 0 <= i < |groups| :: groups[i].key == key
  }

  lemma {:induction false} AddToGroupsAdds(groups: seq<Group>, key: Option<string>)
    requires DistinctKeys(groups)
    ensures DistinctKeys(AddToGroups(groups, key))
    ensures forall k :: HasKey(AddToGroups(groups, key), k) <==> HasKey(groups, k) || k == key
    ensures forall k :: GroupCount(AddToGroups(groups, key), k) == GroupCount(groups, k) + if k == key then 1 else 0
  {
    var r := AddToGroups(groups, key);
    if groups == [] {
      assert r[0].key == key && r[1..] == [];
      assert HasKey(r, key);
    } else if groups[0].key == key {
      assert r[1..] == groups[1..] && r[0].key == key && HasKey(r, key);
      SameKeys(groups, r);
    } else {
      AddToGroupsAdds(groups[1..], key);
      var rest := AddToGroups(groups[1..], key);
      assert r == [groups[0]] + rest && r[1..] == rest;
      assert groups == [groups[0]] + groups[1..];
      KeysOfCons(groups[0], rest);
      KeysOfCons(groups[0], groups[1..]);
      forall i | 0 <= i < |groups[1..]| ensures groups[1..][i].key != groups[0].key {
        assert groups[1..][i] == groups[i + 1];
      }
    }
  }

  lemma SameKeys(a: seq<Group>, b: seq<Group>)
    requires |a| == |b| && forall i | 0 <= i < |a| :: a[i].key == b[i].key
    ensures forall k :: HasKey(a, k) <==> HasKey(b, k)
    ensures DistinctKeys(a) ==> DistinctKeys(b)
  {
  }

  lemma KeysOfCons(g: Group, rest: seq<Group>)
    ensures forall k :: HasKey([g] + rest, k) <==> HasKey(rest, k) || k == g.key
    ensures DistinctKeys(rest) && !HasKey(rest, g.key) ==> DistinctKeys([g] + rest)
  {
    var all := [g] + rest;
    assert all[0] == g;
    forall k ensures HasKey(all, k) <==> HasKey(rest, k) || k == g.key {
      if HasKey(rest, k) {
        var i :| 0 <= i < |rest| && rest[i].key == k;
        assert all[i + 1].key == k;
      }
    }
  }

  /** GROUP BY gives each key once, with the number of its rows. */
  lemma {:induction false} GroupsCount(rows: seq<Row>)
    ensures DistinctKeys(GroupByType(rows))
    ensures forall k :: HasKey(GroupByType(rows), k) <==> HasType(rows, k)
    ensures forall k :: GroupCount(GroupByType(rows), k) == TypeCount(rows, k)
  {
    if rows != [] {
      GroupsCount(rows[1..]);
      AddToGroupsAdds(GroupByType(rows[1..]), rows[0].propertyType);
      assert rows == [rows[0]] + rows[1..];
      forall k ensures HasType(rows, k) <==> HasType(rows[1..], k) || k == rows[0].propertyType {
        assert rows[0] in rows;
      }
    }
  }

  // The group of a key, when keys are distinct.
  lemma {:induction false} CountOfKey(groups: seq<Group>, i: nat)
    requires DistinctKeys(groups) && i < |groups|
    ensures GroupCount(groups, groups[i].key) == groups[i].count
  {
    if i == 0 {
      NoKeyNoCount(groups[1..], groups[0].key);
    } else {
      CountOfKey(groups[1..], i - 1);
      assert groups[0].key != groups[i].key;
    }
  }

  lemma {:induction false} NoKeyNoCount(groups: seq<Group>, key: Option<string>)
    requires forall i | 0 <= i < |groups| :: groups[i].key != key
    ensures GroupCount(groups, key) == 0
  {
    if groups != [] { NoKeyNoCount(groups[1..], key); }
  }

  method StatsTypeBreakdown(groups: seq<Group>) returns (result: Result<map<string, nat>, ScopeError>)
    ensures result.Ok? <==> DistinctKeys(groups) && forall g | g in groups :: g.key.Some? && g.key.value in PROPERTY_TYPE_SET
    ensures result.Ok? ==> forall key: string :: key in result.value <==> HasKey(groups, Some(key))
    ensures result.Ok? ==> forall key: string | key in result.value :: result.value[key] == GroupCount(groups, Some(key))
  {
    var breakdown: map<string, nat> := map[];
    for k := 0 to |groups|
      invariant DistinctKeys(groups[..k]) && forall g | g in groups[..k] :: g.key.Some? && g.key.value in PROPERTY_TYPE_SET
      invariant forall key: string :: key in breakdown <==> exists i | 0 <= i < k :: groups[i].key == Some(key)
      invariant forall i | 0 <= i < k :: groups[i].key.Some? && groups[i].key.value in breakdown
                                      && breakdown[groups[i].key.value] == groups[i].count
    {
      var g := groups[k];
      assert groups[..k + 1] == groups[..k] + [g];
      if g.key.None? || g.key.value !in PROPERTY_TYPE_SET {
        assert g in groups;
        return Err(Query);
      }
      if g.key.value in breakdown { return Err(Query); }
      breakdown := breakdown[g.key.value := g.count];
    }
    assert groups[..|groups|] == groups;
    forall key: string | key in breakdown ensures breakdown[key] == GroupCount(groups, Some(key)) {
      var i :| 0 <= i < |groups| && groups[i].key == Some(key);
      CountOfKey(groups, i);
    }
    return Ok(breakdown);
  }

  // ---------- The breakdown adds up to the total ----------

  function SumOver(breakdown: map<string, nat>, types: seq<string>): nat {
    if types == [] then 0
    else (if types[0] in breakdown then breakdown[types[0]] else 0) + SumOver(breakdown, types[1..])
  }

  function SumCounts(rows: seq<Row>, types: seq<string>): nat {
    if types == [] then 0 else TypeCount(rows, Some(types[0])) + SumCounts(rows, types[1..])
  }

  lemma {:induction false} OneRowCounts(row: Row, rest: seq<Row>, types: seq<string>)
    requires NoRepeats(types) && row.propertyType.Some?
    ensures SumCounts([row] + rest, types) == SumCounts(rest, types) + if row.propertyType.value in types then 1 else 0
  {
    if types != [] {
      assert types == [types[0]] + types[1..];
      assert ([row] + rest)[1..] == rest;
      OneRowCounts(row, rest, types[1..]);
      forall i | 0 <= i < |types[1..]| ensures types[1..][i] != types[0] {
        assert types[1..][i] == types[i + 1];
      }
    }
  }

  lemma {:induction false} EveryRowCountedOnce(rows: seq<Row>, types: seq<string>)
    requires NoRepeats(types) && forall row | row in rows :: OneOf(row.propertyType, types)
    ensures SumCounts(rows, types) == |rows|
  {
    if rows == [] {
      NoRowsNoCounts(types);
    } else {
      assert rows == [rows[0]] + rows[1..];
      OneRowCounts(rows[0], rows[1..], types);
      EveryRowCountedOnce(rows[1..], types);
    }
  }

  lemma {:induction false} NoRowsNoCounts(types: seq<string>)
    ensures SumCounts([], types) == 0
  {
    if types != [] { NoRowsNoCounts(types[1..]); }
  }

  lemma {:induction false} SumsAgree(breakdown: map<string, nat>, rows: seq<Row>, types: seq<string>)
    requires forall t | t in types :: (if t in breakdown then breakdown[t] else 0) == TypeCount(rows, Some(t))
    ensures SumOver(breakdown, types) == SumCounts(rows, types)
  {
    if types != [] {
      assert types == [types[0]] + types[1..];
      SumsAgree(breakdown, rows, types[1..]);
    }
  }

  function NewRows(rows: seq<Row>): seq<Row> {
    if rows == [] then [] else (if IsNew(rows[0]) then [rows[0]] else []) + NewRows(rows[1..])
  }

  lemma {:induction false} NewRowsFacts(rows: seq<Row>)
    ensures |NewRows(rows)| == CountIf(rows, IsNew) && forall row | row in NewRows(rows) :: row in rows
  {
    if rows != [] {
      NewRowsFacts(rows[1..]);
      assert rows == [rows[0]] + rows[1..];
    }
  }

  lemma InboxTypes(db: Db, n: Profile, r: Request)
    requires forall v | v in n.propertyTypes :: v in PROPERTY_TYPE_VALUES
    ensures forall row | row in Inbox(db, n, r) :: OneOf(row.propertyType, PROPERTY_TYPE_VALUES)
  {
    InboxMembers(db, n, r);
    forall row | row in Inbox(db, n, r) ensures OneOf(row.propertyType, PROPERTY_TYPE_VALUES) {
      assert Visible(n, r, row);
    }
  }

  /**
    The dashboard at a time, which is None when the date given cannot be read. For a stored profile and a readable time
    it never fails after the scope is compiled, and the counts by type of the new rows add up to the total.
   */
  method ReadStats(db: Db, iso: IsoParse, loading: Loading, userId: int, now: Option<real>, isoText: real -> string)
    returns (result: Result<Stats, ScopeError>)
    ensures ScopeOf(loading, userId).Err? ==> result == Err(ScopeOf(loading, userId).error)
    ensures ScopeOf(loading, userId).Ok? && now.None? ==> result == Err(Validation)
    ensures result.Ok? <==> ScopeOf(loading, userId).Ok? && now.Some?
    ensures result.Ok? ==>
      var rows := Inbox(db, ScopeOf(loading, userId).value, NormalizeRequest(iso, EmptyRequest).value);
      && result.value.total == CountIf(rows, IsNew)
      && result.value.inFocus == CountIf(rows, row => IsNew(row) && ScoreOver(row, 0.0, true))
      && result.value.hot == CountIf(rows, row => IsNew(row) && ScoreOver(row, HOT_SCORE, false))
      && result.value.undervalued == CountIf(rows, (row: Row) => row.isUndervalued)
      && result.value.newToday == CountIf(rows, row => SeenOnDay(row, DayBefore(now.value, isoText)))
      && (forall key :: key in result.value.typeBreakdown <==> HasType(NewRows(rows), Some(key)))
      && (forall key | key in result.value.typeBreakdown :: result.value.typeBreakdown[key] == TypeCount(NewRows(rows), Some(key)))
      && SumOver(result.value.typeBreakdown, PROPERTY_TYPE_VALUES) == result.value.total
    ensures result.Ok? ==> loading.Loaded? && Counted(result.value, RowsFor(db, iso, loading, userId, EmptyRequest), now.value, isoText)
  {
    EmptyRequestOk(iso);
    hide ScopeOf, NormalizeRequest, Compiles, Execute, Inbox, ScopeProfile;
    var compiled := Compile(iso, loading, userId, EmptyRequest);
    if compiled.Err? { return Err(compiled.error); }
    InboxIsSieve(db, iso, loading, userId, EmptyRequest);
    var c := compiled.value;
    if now.None? { return Err(Validation); }
    ghost var n, r := ScopeOf(loading, userId).value, NormalizeRequest(iso, EmptyRequest).value;
    var day := DayBefore(now.value, isoText);
    var more := DayBounds(day);
    NoTerms();
    ScopedStatement(c, n, r, db, [], [], more);
    ScopedStatement(c, n, r, db, [], [], []);
    assert [] + c.bindings + more == c.bindings + more && [] + c.bindings + [] == c.bindings;
    var aggregate := Execute(Statement([], c.where, 4), db, c.bindings + more);
    var breakdown := Execute(Statement([], c.where, 0), db, c.bindings);
    if aggregate.None? || breakdown.None? { return Err(Query); }
    var rows, bounds := aggregate.value.rows, aggregate.value.more;
    var groups := GroupByType(NewRows(breakdown.value.rows));
    InboxScopeTypes(db, loading, userId, r);
    GroupsOfNew(rows);
    forall row ensures SeenBetween(row, bounds) == SeenOnDay(row, day) { SeenBetweenIsOnDay(row, day); }
    SameCount(rows, row => SeenBetween(row, bounds), row => SeenOnDay(row, day));
    var types := StatsTypeBreakdown(groups);
    if types.Err? { return Err(Query); }
    BreakdownAddsUp(rows, types.value);
    CountsMean(rows, now.value, isoText);
    return Ok(Stats(
      CountIf(rows, IsNew),
      CountIf(rows, row => IsNew(row) && ScoreOver(row, 0.0, true)),
      CountIf(rows, row => IsNew(row) && ScoreOver(row, HOT_SCORE, false)),
      CountIf(rows, (row: Row) => row.isUndervalued),
      CountIf(rows, row => SeenBetween(row, bounds)),
      types.value));
  }

  // What each counter counts: three of them among the rows whose status for the user is missing or 'new'.
  ghost predicate Counted(stats: Stats, rows: seq<Row>, now: real, isoText: real -> string) {
    && stats.total == CountIf(rows, (row: Row) => row.status.None? || row.status == Some("new"))
    && stats.inFocus == CountIf(rows, (row: Row) =>
         (row.status.None? || row.status == Some("new")) && row.focusScore.Some? && row.focusScore.value > 0.0)
    && stats.hot == CountIf(rows, (row: Row) =>
         (row.status.None? || row.status == Some("new")) && row.focusScore.Some? && row.focusScore.value >= 50.0)
    && stats.undervalued == CountIf(rows, (row: Row) => row.isUndervalued)
    && stats.newToday == CountIf(rows, (row: Row) =>
         || (row.firstSeenAt.Number? && now - 86400000.0 <= row.firstSeenAt.n <= now)
         || (row.firstSeenAt.Text? && !StrLess(row.firstSeenAt.s, isoText(now - 86400000.0)) && !StrLess(isoText(now), row.firstSeenAt.s)))
  }

  lemma CountsMean(rows: seq<Row>, now: real, isoText: real -> string)
    ensures var day := DayBefore(now, isoText);
            Counted(Stats(CountIf(rows, IsNew), CountIf(rows, row => IsNew(row) && ScoreOver(row, 0.0, true)),
              CountIf(rows, row => IsNew(row) && ScoreOver(row, HOT_SCORE, false)), CountIf(rows, (row: Row) => row.isUndervalued),
              CountIf(rows, row => SeenOnDay(row, day)), map[]), rows, now, isoText)
  {
    var day := DayBefore(now, isoText);
    SameCount(rows, IsNew, (row: Row) => row.status.None? || row.status == Some("new"));
    SameCount(rows, row => IsNew(row) && ScoreOver(row, 0.0, true), (row: Row) =>
      (row.status.None? || row.status == Some("new")) && row.focusScore.Some? && row.focusScore.value > 0.0);
    SameCount(rows, row => IsNew(row) && ScoreOver(row, HOT_SCORE, false), (row: Row) =>
      (row.status.None? || row.status == Some("new")) && row.focusScore.Some? && row.focusScore.value >= 50.0);
    SameCount(rows, row => SeenOnDay(row, day), (row: Row) =>
      || (row.firstSeenAt.Number? && now - 86400000.0 <= row.firstSeenAt.n <= now)
      || (row.firstSeenAt.Text? && !StrLess(row.firstSeenAt.s, isoText(now - 86400000.0)) && !StrLess(isoText(now), row.firstSeenAt.s)));
  }

  lemma EmptyRequestOk(iso: IsoParse)
    ensures NormalizeRequest(iso, EmptyRequest).Ok?
  {
  }

  lemma InboxScopeTypes(db: Db, loading: Loading, userId: int, r: Request)
    ensures ScopeOf(loading, userId).Ok? ==>
      forall row | row in Inbox(db, ScopeOf(loading, userId).value, r) :: OneOf(row.propertyType, PROPERTY_TYPE_VALUES)
  {
    if ScopeOf(loading, userId).Ok? {
      assert ProfilePayload(loading.profile) == Ok(ScopeOf(loading, userId).value);
      hide Inbox;
      InboxTypes(db, ScopeOf(loading, userId).value, r);
    }
  }

  lemma GroupsOfNew(rows: seq<Row>)
    requires forall row | row in rows :: OneOf(row.propertyType, PROPERTY_TYPE_VALUES)
    ensures DistinctKeys(GroupByType(NewRows(rows)))
    ensures forall g | g in GroupByType(NewRows(rows)) :: g.key.Some? && g.key.value in PROPERTY_TYPE_SET
    ensures forall k :: HasKey(GroupByType(NewRows(rows)), k) <==> HasType(NewRows(rows), k)
    ensures forall k :: GroupCount(GroupByType(NewRows(rows)), k) == TypeCount(NewRows(rows), k)
  {
    GroupsCount(NewRows(rows));
    NewRowsFacts(rows);
    var groups := GroupByType(NewRows(rows));
    forall g | g in groups ensures g.key.Some? && g.key.value in PROPERTY_TYPE_SET {
      var i :| 0 <= i < |groups| && groups[i] == g;
      assert HasKey(groups, groups[i].key);
      var row :| row in NewRows(rows) && row.propertyType == g.key;
      assert OneOf(row.propertyType, PROPERTY_TYPE_VALUES);
    }
  }

  lemma BreakdownAddsUp(rows: seq<Row>, breakdown: map<string, nat>)
    requires forall row | row in rows :: OneOf(row.propertyType, PROPERTY_TYPE_VALUES)
    requires forall key :: key in breakdown <==> HasType(NewRows(rows), Some(key))
    requires forall key | key in breakdown :: breakdown[key] == TypeCount(NewRows(rows), Some(key))
    ensures SumOver(breakdown, PROPERTY_TYPE_VALUES) == CountIf(rows, IsNew)
  {
    NewRowsFacts(rows);
    TypesDiffer();
    EveryRowCountedOnce(NewRows(rows), PROPERTY_TYPE_VALUES);
    forall t | t in PROPERTY_TYPE_VALUES && t !in breakdown ensures TypeCount(NewRows(rows), Some(t)) == 0 {
      NoRowOfType(NewRows(rows), Some(t));
    }
    SumsAgree(breakdown, NewRows(rows), PROPERTY_TYPE_VALUES);
  }

  lemma TypesDiffer()
    ensures NoRepeats(PROPERTY_TYPE_VALUES)
  {
    var types := PROPERTY_TYPE_VALUES;
    assert types[0][0] == 'o' && types[1][0] == 'w' && types[2][0] == 'r' && types[3][0] == 'p'
        && types[4][0] == 'f' && types[5][0] == 'a' && types[6][0] == 'l' && types[7][1] == 't' && types[0][1] == 'f' && types[7][0] == 'o';
  }

  lemma {:induction false} NoRowOfType(rows: seq<Row>, key: Option<string>)
    requires forall row | row in rows :: row.propertyType != key
    ensures TypeCount(rows, key) == 0
  {
    if rows != [] {
      assert rows == [rows[0]] + rows[1..] && rows[0] in rows;
      NoRowOfType(rows[1..], key);
    }
  }
}
