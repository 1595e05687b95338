/** The fragment of SQLite that the scope compiler emits: conditions with positional parameters, over three truth values. */
module Sql {
  import opened Wrappers
  import opened Texts

  datatype Value = Null | Text(s: string) | Number(n: real)

  datatype Column =
    | City | PropertyType | Title | Description | Address | Price | AreaSqm | FocusScore
    | PricePerSqm | DeviationPercent | CreatedAt | DocumentId | FirstSeenAt | Status

  // Empty and Space are the only literals; every other value is a parameter.
  datatype Term = Col(c: Column) | Param | Empty | Space | Coalesce(a: Term, b: Term) | Concat(a: Term, b: Term) | LowerOf(a: Term)

  datatype Op = Eq | Ne | Gt | Ge | Le

  datatype Cond =
    | IsNull(t: Term)
    | Compare(t: Term, op: Op, u: Term)
    | InParams(t: Term, n: nat)
    | Like(t: Term, negated: bool)
    | Or(a: Cond, b: Cond)
    | And(a: Cond, b: Cond)

  datatype Truth = True | False | Unknown

  // One row of `properties LEFT JOIN user_property_states`.
  datatype Row = Row(
    documentId: string, city: Option<string>, propertyType: Option<string>,
    title: Option<string>, description: Option<string>, address: Option<string>,
    price: Option<real>, areaSqm: Option<real>, focusScore: Option<real>,
    pricePerSqm: Option<real>, deviationPercent: Option<real>, createdAt: Value, firstSeenAt: Value,
    isUndervalued: bool, photosDownloaded: Value, status: Option<string>)

  // ---------- Text and placeholders ----------

  function ColumnText(c: Column): string {
    match c
    case City => "p.city"
    case PropertyType => "p.property_type"
    case Title => "p.title"
    case Description => "p.description"
    case Address => "p.address"
    case Price => "p.price"
    case AreaSqm => "p.area_sqm"
    case FocusScore => "p.focus_score"
    case PricePerSqm => "p.price_per_sqm"
    case DeviationPercent => "p.deviation_percent"
    case CreatedAt => "p.created_at"
    case DocumentId => "p.document_id"
    case FirstSeenAt => "p.first_seen_at"
    case Status => "ups.status"
  }

  function TermText(t: Term): string {
    match t
    case Col(c) => ColumnText(c)
    case Param => "?"
    case Empty => "''"
    case Space => "' '"
    case Coalesce(a, b) => "COALESCE(" + TermText(a) + ", " + TermText(b) + ")"
    case Concat(a, b) => TermText(a) + " || " + TermText(b)
    case LowerOf(a) => "LOWER(" + TermText(a) + ")"
  }

  function OpText(op: Op): string {
    match op
    case Eq => " = "
    case Ne => " != "
    case Gt => " > "
    case Ge => " >= "
    case Le => " <= "
  }

  // placeholders(count)
  function Placeholders(n: nat): string {
    if n == 0 then "" else if n == 1 then "?" else "?," + Placeholders(n - 1)
  }

  function CondText(c: Cond): string {
    match c
    case IsNull(t) => TermText(t) + " IS NULL"
    case Compare(t, op, u) => TermText(t) + OpText(op) + TermText(u)
    case InParams(t, n) => TermText(t) + " IN (" + Placeholders(n) + ")"
    case Like(t, negated) => TermText(t) + (if negated then " NOT LIKE " else " LIKE ") + "?" + " ESCAPE '\\'"
    case Or(a, b) => "(" + CondText(a) + " OR " + CondText(b) + ")"
    case And(a, b) => CondText(a) + " AND " + CondText(b)
  }

  // where.join(' AND ')
  function WhereText(where: seq<Cond>): string {
    if where == [] then "" else if |where| == 1 then CondText(where[0]) else CondText(where[0]) + " AND " + WhereText(where[1..])
  }

  function TermParams(t: Term): nat {
    match t
    case Param => 1
    case Coalesce(a, b) => TermParams(a) + TermParams(b)
    case Concat(a, b) => TermParams(a) + TermParams(b)
    case LowerOf(a) => TermParams(a)
    case _ => 0
  }

  function CondParams(c: Cond): nat {
    match c
    case IsNull(t) => TermParams(t)
    case Compare(t, _, u) => TermParams(t) + TermParams(u)
    case InParams(t, n) => TermParams(t) + n
    case Like(t, _) => TermParams(t) + 1
    case Or(a, b) => CondParams(a) + CondParams(b)
    case And(a, b) => CondParams(a) + CondParams(b)
  }

  function WhereParams(where: seq<Cond>): nat {
    if where == [] then 0 else CondParams(where[0]) + WhereParams(where[1..])
  }

  // The placeholders in a text.
  function Marks(s: string): nat {
    if s == "" then 0 else (if s[0] == '?' then 1 else 0) + Marks(s[1..])
  }

  lemma {:induction false} MarksAppend(s: string, t: string)
    ensures Marks(s + t) == Marks(s) + Marks(t)
  {
    if s == "" { assert s + t == t; }
    else { assert (s + t)[1..] == s[1..] + t; MarksAppend(s[1..], t); }
  }

  lemma {:induction false} NoMarks(s: string)
    requires '?' !in s
    ensures Marks(s) == 0
  {
    if s != "" { assert s == [s[0]] + s[1..]; NoMarks(s[1..]); }
  }

  lemma OneMark()
    ensures Marks("?") == 1
  {
    assert "?"[1..] == "";
  }

  lemma Marks3(a: string, b: string, c: string)
    ensures Marks(a + b + c) == Marks(a) + Marks(b) + Marks(c)
  {
    MarksAppend(a + b, c);
    MarksAppend(a, b);
  }

  lemma {:induction false} PlaceholderMarks(n: nat)
    ensures Marks(Placeholders(n)) == n
  {
    OneMark();
    if n > 1 {
      PlaceholderMarks(n - 1);
      NoMarks(",");
      assert "?," + Placeholders(n - 1) == "?" + "," + Placeholders(n - 1);
      Marks3("?", ",", Placeholders(n - 1));
    }
  }

  lemma {:induction false} TermMarks(t: Term)
    ensures Marks(TermText(t)) == TermParams(t)
  {
    hide Marks;
    match t
    case Col(c) => NoMarks(ColumnText(c));
    case Param => OneMark();
    case Empty => NoMarks("''");
    case Space => NoMarks("' '");
    case Coalesce(a, b) =>
      TermMarks(a); TermMarks(b);
      NoMarks("COALESCE("); NoMarks(", "); NoMarks(")");
      Marks3("COALESCE(", TermText(a), ", ");
      Marks3("COALESCE(" + TermText(a) + ", ", TermText(b), ")");
    case Concat(a, b) =>
      TermMarks(a); TermMarks(b);
      NoMarks(" || ");
      Marks3(TermText(a), " || ", TermText(b));
    case LowerOf(a) =>
      TermMarks(a);
      NoMarks("LOWER("); NoMarks(")");
      Marks3("LOWER(", TermText(a), ")");
  }

  lemma {:induction false} CondMarks(c: Cond)
    ensures Marks(CondText(c)) == CondParams(c)
  {
    hide Marks, TermText;
    match c
    case IsNull(t) =>
      TermMarks(t); NoMarks(" IS NULL"); MarksAppend(TermText(t), " IS NULL");
    case Compare(t, op, u) =>
      TermMarks(t); TermMarks(u); NoMarks(OpText(op));
      Marks3(TermText(t), OpText(op), TermText(u));
    case InParams(t, n) =>
      TermMarks(t); PlaceholderMarks(n); NoMarks(" IN ("); NoMarks(")");
      MarksAppend(TermText(t), " IN (");
      Marks3(TermText(t) + " IN (", Placeholders(n), ")");
    case Like(t, negated) =>
      var like := if negated then " NOT LIKE " else " LIKE ";
      TermMarks(t); OneMark(); NoMarks(like); NoMarks(" ESCAPE '\\'");
      MarksAppend(TermText(t), like);
      Marks3(TermText(t) + like, "?", " ESCAPE '\\'");
    case Or(a, b) =>
      CondMarks(a); CondMarks(b); NoMarks("("); NoMarks(" OR "); NoMarks(")");
      Marks3("(", CondText(a), " OR ");
      Marks3("(" + CondText(a) + " OR ", CondText(b), ")");
    case And(a, b) =>
      CondMarks(a); CondMarks(b); NoMarks(" AND ");
      Marks3(CondText(a), " AND ", CondText(b));
  }

  /** The text has one placeholder for each parameter that evaluation takes. */
  lemma {:induction false} WhereMarks(where: seq<Cond>)
    ensures Marks(WhereText(where)) == WhereParams(where)
  {
    if where != [] {
      CondMarks(where[0]);
      WhereMarks(where[1..]);
      NoMarks(" AND ");
      Marks3(CondText(where[0]), " AND ", WhereText(where[1..]));
    }
  }

  // ---------- Evaluation: parameters are taken in the order of their placeholders ----------

  function TextOf(s: Option<string>): Value { if s.Some? then Text(s.value) else Null }

  function NumberOf(n: Option<real>): Value { if n.Some? then Number(n.value) else Null }

  function ColumnValue(c: Column, row: Row): Value {
    match c
    case City => TextOf(row.city)
    case PropertyType => TextOf(row.propertyType)
    case Title => TextOf(row.title)
    case Description => TextOf(row.description)
    case Address => TextOf(row.address)
    case Price => NumberOf(row.price)
    case AreaSqm => NumberOf(row.areaSqm)
    case FocusScore => NumberOf(row.focusScore)
    case PricePerSqm => NumberOf(row.pricePerSqm)
    case DeviationPercent => NumberOf(row.deviationPercent)
    case CreatedAt => row.createdAt
    case DocumentId => Text(row.documentId)
    case FirstSeenAt => row.firstSeenAt
    case Status => TextOf(row.status)
  }

  // String operators see only text here; a number yields Null.
  function TermValue(t: Term, row: Row, ps: seq<Value>): Value
    requires |ps| == TermParams(t)
  {
    match t
    case Col(c) => ColumnValue(c, row)
    case Param => ps[0]
    case Empty => Text("")
    case Space => Text(" ")
    case Coalesce(a, b) =>
      var first := TermValue(a, row, ps[..TermParams(a)]);
      if first == Null then TermValue(b, row, ps[TermParams(a)..]) else first
    case Concat(a, b) =>
      var first, second := TermValue(a, row, ps[..TermParams(a)]), TermValue(b, row, ps[TermParams(a)..]);
      if first.Text? && second.Text? then Text(first.s + second.s) else Null
    case LowerOf(a) =>
      var first := TermValue(a, row, ps);
      if first.Text? then Text(AsciiLower(first.s)) else Null
  }

  function Bool(b: bool): Truth { if b then True else False }

  function Not3(t: Truth): Truth { match t case True => False case False => True case Unknown => Unknown }

  function And3(a: Truth, b: Truth): Truth {
    if a == False || b == False then False else if a == True && b == True then True else Unknown
  }

  function Or3(a: Truth, b: Truth): Truth {
    if a == True || b == True then True else if a == False && b == False then False else Unknown
  }

  // Unknown is neither: a conjunction is false as soon as one part is, and negation exchanges the two connectives.
  lemma ThreeValues(a: Truth, b: Truth)
    ensures And3(a, b) == False <==> a == False || b == False
    ensures And3(a, b) == True <==> a == True && b == True
    ensures Not3(And3(a, b)) == Or3(Not3(a), Not3(b)) && Not3(Not3(a)) == a
  {
  }

  // Numbers come before text.
  predicate Less(a: Value, b: Value) {
    match (a, b)
    case (Number(m), Number(n)) => m < n
    case (Text(s), Text(t)) => StrLess(s, t)
    case (Number(_), Text(_)) => true
    case _ => false
  }

  function CompareValues(a: Value, op: Op, b: Value): Truth {
    if a == Null || b == Null then Unknown
    else match op
      case Eq => Bool(a == b)
      case Ne => Bool(a != b)
      case Gt => Bool(Less(b, a))
      case Ge => Bool(Less(b, a) || a == b)
      case Le => Bool(Less(a, b) || a == b)
  }

  function InValues(a: Value, list: seq<Value>): Truth {
    if list == [] then False else Or3(CompareValues(a, Eq, list[0]), InValues(a, list[1..]))
  }

  // t LIKE p ESCAPE e; letters of ASCII match in either case.
  predicate LikeMatch(p: string, t: string, e: char)
    decreases |p| + |t|
  {
    if p == "" then t == ""
    else if p[0] == '%' then LikeMatch(p[1..], t, e) || (t != "" && LikeMatch(p, t[1..], e))
    else if p[0] == e then
      |p| >= 2 && t != "" && AsciiLowerChar(p[1]) == AsciiLowerChar(t[0]) && LikeMatch(p[2..], t[1..], e)
    else t != "" && (p[0] == '_' || AsciiLowerChar(p[0]) == AsciiLowerChar(t[0])) && LikeMatch(p[1..], t[1..], e)
  }

  function LikeValues(a: Value, p: Value): Truth {
    if a.Text? && p.Text? then Bool(LikeMatch(p.s, a.s, '\\')) else Unknown
  }

  function CondValue(c: Cond, row: Row, ps: seq<Value>): Truth
    requires |ps| == CondParams(c)
  {
    match c
    case IsNull(t) => Bool(TermValue(t, row, ps) == Null)
    case Compare(t, op, u) =>
      CompareValues(TermValue(t, row, ps[..TermParams(t)]), op, TermValue(u, row, ps[TermParams(t)..]))
    case InParams(t, n) => InValues(TermValue(t, row, ps[..TermParams(t)]), ps[TermParams(t)..])
    case Like(t, negated) =>
      var like := LikeValues(TermValue(t, row, ps[..TermParams(t)]), ps[TermParams(t)]);
      if negated then Not3(like) else like
    case Or(a, b) => Or3(CondValue(a, row, ps[..CondParams(a)]), CondValue(b, row, ps[CondParams(a)..]))
    case And(a, b) => And3(CondValue(a, row, ps[..CondParams(a)]), CondValue(b, row, ps[CondParams(a)..]))
  }

  function WhereValue(where: seq<Cond>, row: Row, ps: seq<Value>): Truth
    requires |ps| == WhereParams(where)
  {
    if where == [] then True
    else
      var k := CondParams(where[0]);
      And3(CondValue(where[0], row, ps[..k]), WhereValue(where[1..], row, ps[k..]))
  }

  lemma {:induction false} WhereParamsAppend(where: seq<Cond>, c: Cond)
    ensures WhereParams(where + [c]) == WhereParams(where) + CondParams(c)
  {
    var all := where + [c];
    if where == [] {
      assert all == [c] && all[1..] == [];
    } else {
      assert all[0] == where[0] && all[1..] == where[1..] + [c];
      WhereParamsAppend(where[1..], c);
    }
  }

  lemma {:induction false} WhereAppend(where: seq<Cond>, c: Cond, row: Row, ps: seq<Value>, qs: seq<Value>)
    requires |ps| == WhereParams(where) && |qs| == CondParams(c)
    ensures WhereParams(where + [c]) == WhereParams(where) + CondParams(c)
    ensures WhereValue(where + [c], row, ps + qs).True? <==> WhereValue(where, row, ps).True? && CondValue(c, row, qs).True?
  {
    hide CondValue, CondParams;
    WhereParamsAppend(where, c);
    var all := where + [c];
    if where == [] {
      assert all == [c] && all[0] == c && all[1..] == [] && ps + qs == qs;
      assert WhereParams([]) == 0 && qs[..|qs|] == qs && qs[|qs|..] == [];
    } else {
      assert all[0] == where[0] && all[1..] == where[1..] + [c];
      var k := CondParams(where[0]);
      WhereAppend(where[1..], c, row, ps[k..], qs);
      assert (ps + qs)[..k] == ps[..k] && (ps + qs)[k..] == ps[k..] + qs;
    }
  }

  // ---------- LIKE ----------

  // Every occurrence of c replaced by r.
  function Replace(s: string, c: char, r: string): string {
    if s == "" then "" else (if s[0] == c then r else [s[0]]) + Replace(s[1..], c, r)
  }

  function EscapeLike(w: string): string {
    Replace(Replace(Replace(w, '\\', "\\\\"), '%', "\\%"), '_', "\\_")
  }

  function EscapeChar(c: char): string {
    if c == '\\' || c == '%' || c == '_' then "\\" + [c] else [c]
  }

  function EscapeEach(w: string): string {
    if w == "" then "" else EscapeChar(w[0]) + EscapeEach(w[1..])
  }

  lemma {:induction false} ReplaceAppend(s: string, t: string, c: char, r: string)
    ensures Replace(s + t, c, r) == Replace(s, c, r) + Replace(t, c, r)
  {
    if s == "" { assert s + t == t; }
    else {
      assert (s + t)[1..] == s[1..] + t;
      ReplaceAppend(s[1..], t, c, r);
      var first := if s[0] == c then r else [s[0]];
      assert first + (Replace(s[1..], c, r) + Replace(t, c, r)) == (first + Replace(s[1..], c, r)) + Replace(t, c, r);
    }
  }

  lemma ReplaceOne(x: char, c: char, r: string)
    ensures Replace([x], c, r) == if x == c then r else [x]
  {
    assert [x][1..] == "";
  }

  lemma EscapeLikeOne(x: char)
    ensures EscapeLike([x]) == EscapeChar(x)
  {
    hide Replace;
    ReplaceOne(x, '\\', "\\\\");
    if x == '\\' {
      assert "\\\\" == ['\\'] + ['\\'];
      ReplaceAppend(['\\'], ['\\'], '%', "\\%");
      ReplaceAppend(['\\'], ['\\'], '_', "\\_");
      ReplaceOne('\\', '%', "\\%");
      ReplaceOne('\\', '_', "\\_");
    } else if x == '%' {
      ReplaceOne(x, '%', "\\%");
      assert "\\%" == ['\\'] + ['%'];
      ReplaceAppend(['\\'], ['%'], '_', "\\_");
      ReplaceOne('\\', '_', "\\_");
      ReplaceOne('%', '_', "\\_");
    } else {
      ReplaceOne(x, '%', "\\%");
      ReplaceOne(x, '_', "\\_");
    }
  }

  /** Three replacements one after the other escape each character once. */
  lemma {:induction false} EscapeLikeIsEach(w: string)
    ensures EscapeLike(w) == EscapeEach(w)
  {
    if w == "" {
    } else {
      hide Replace;
      EscapeLikeIsEach(w[1..]);
      EscapeLikeOne(w[0]);
      assert w == [w[0]] + w[1..];
      var a, b := [w[0]], w[1..];
      ReplaceAppend(a, b, '\\', "\\\\");
      var a1, b1 := Replace(a, '\\', "\\\\"), Replace(b, '\\', "\\\\");
      ReplaceAppend(a1, b1, '%', "\\%");
      ReplaceAppend(Replace(a1, '%', "\\%"), Replace(b1, '%', "\\%"), '_', "\\_");
    }
  }

  lemma {:induction false} PercentMatchesAll(t: string)
    ensures LikeMatch("%", t, '\\')
  {
    assert "%"[1..] == "";
    if t != "" { PercentMatchesAll(t[1..]); }
  }

  // The pattern Escape(w)% matches exactly the texts that start with w.
  lemma {:induction false} EscapedPrefix(w: string, t: string)
    ensures LikeMatch(EscapeEach(w) + "%", t, '\\') <==> |w| <= |t| && AsciiLower(t[..|w|]) == AsciiLower(w)
  {
    if w == "" {
      assert EscapeEach(w) + "%" == "%";
      PercentMatchesAll(t);
    } else {
      var p := EscapeEach(w) + "%";
      var rest := EscapeEach(w[1..]) + "%";
      assert p == EscapeChar(w[0]) + rest;
      EscapedStep(w[0], rest, t);
      if t != "" {
        EscapedPrefix(w[1..], t[1..]);
        if |w| <= |t| { PrefixStep(w, t); }
      }
    }
  }

  lemma EscapedStep(c: char, rest: string, t: string)
    ensures LikeMatch(EscapeChar(c) + rest, t, '\\')
        <==> t != "" && AsciiLowerChar(c) == AsciiLowerChar(t[0]) && LikeMatch(rest, t[1..], '\\')
  {
    var p := EscapeChar(c) + rest;
    if c == '\\' || c == '%' || c == '_' {
      assert p[0] == '\\' && p[1] == c && p[2..] == rest;
    } else {
      assert p[0] == c && p[1..] == rest;
    }
  }

  lemma PrefixStep(w: string, t: string)
    requires w != "" && |w| <= |t|
    ensures AsciiLower(t[..|w|]) == AsciiLower(w)
        <==> AsciiLowerChar(w[0]) == AsciiLowerChar(t[0]) && AsciiLower(t[1..][..|w[1..]|]) == AsciiLower(w[1..])
  {
    var a, b := t[..|w|], w;
    assert t[1..][..|w[1..]|] == a[1..];
    LowerCons(a);
    LowerCons(b);
    if AsciiLower(a) == AsciiLower(b) {
      assert AsciiLower(a)[0] == AsciiLower(b)[0];
      assert AsciiLower(a)[1..] == AsciiLower(b)[1..];
    }
  }

  lemma LowerCons(s: string)
    requires s != ""
    ensures AsciiLower(s) == [AsciiLowerChar(s[0])] + AsciiLower(s[1..])
  {
  }

  // A leading % skips any number of characters.
  lemma {:induction false} PercentSkips(p: string, t: string)
    ensures LikeMatch("%" + p, t, '\\') <==> exists i: nat | i <= |t| :: LikeMatch(p, t[i..], '\\')
  {
    var q := "%" + p;
    assert q[0] == '%' && q[1..] == p && t[0..] == t;
    if t != "" {
      PercentSkips(p, t[1..]);
      if i: nat :| i <= |t[1..]| && LikeMatch(p, t[1..][i..], '\\') {
        assert t[1..][i..] == t[i + 1..];
      }
      if i: nat :| 0 < i <= |t| && LikeMatch(p, t[i..], '\\') {
        assert t[1..][i - 1..] == t[i..];
      }
    }
  }

  /** t LIKE '%' || escapeLike(w) || '%' ESCAPE '\' says that t contains w, letters of ASCII in either case. */
  lemma LikeIsContains(w: string, t: string)
    ensures LikeMatch("%" + EscapeLike(w) + "%", t, '\\') <==> Contains(AsciiLower(t), AsciiLower(w))
  {
    hide LikeMatch;
    EscapeLikeIsEach(w);
    var p := EscapeEach(w) + "%";
    assert "%" + EscapeLike(w) + "%" == "%" + p;
    PercentSkips(p, t);
    forall i: nat | i <= |t| ensures LikeMatch(p, t[i..], '\\') <==> ContainsAt(AsciiLower(t), AsciiLower(w), i) {
      EscapedPrefix(w, t[i..]);
      if i + |w| <= |t| {
        assert AsciiLower(t)[i..i + |w|] == AsciiLower(t[i..][..|w|]);
      }
    }
  }
}
