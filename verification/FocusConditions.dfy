/** The four kinds of rule conditions. */
module FocusConditions {
  import opened Wrappers
  import opened Texts
  import opened FocusGrammar
  import opened FocusEval

  // A number of the runtime, by its representation; its arithmetic is abstract.
  datatype Double = Double(bits: nat)

  datatype FieldValue = Undefined | Null | TextValue(s: string) | NumberValue(n: real) | FlagValue(b: bool)

  type Fields = map<string, FieldValue>

  // A missing condition value is null.
  datatype Condition =
    | DeviationThreshold(value: Option<string>)
    | HasField(field: string)
    | CityMatch(cities: Option<string>)
    | Custom(expression: Option<string>)

  // What the runtime gives: Number(text) and new Date(value).getTime(), nothing for NaN; a field as a variable of a custom
  // rule; arithmetic; the time.
  datatype Runtime = Runtime(
    number: string -> Option<real>, epoch: FieldValue -> Option<real>, variable: FieldValue -> Double,
    ops: Arith<Double>, now: real)

  const DAY_MS := 86400000.0

  const VARIABLES := ["area_sqm", "price", "price_per_sqm", "deviation_percent", "focus_score", "minimum_price"]

  function Get(fields: Fields, name: string): FieldValue {
    if name in fields then fields[name] else Undefined
  }

  function OrEmpty(s: Option<string>): string { if s.Some? then s.value else "" }

  // Number(value)
  function ToNumber(rt: Runtime, value: FieldValue): Option<real> {
    match value
    case Undefined => None
    case Null => Some(0.0)
    case TextValue(s) => rt.number(s)
    case NumberValue(n) => Some(n)
    case FlagValue(b) => Some(if b then 1.0 else 0.0)
  }

  function Threshold(rt: Runtime, value: Option<string>): Option<real> {
    var n := if value.None? then Some(0.0) else rt.number(value.value);
    if n.None? then None else Some(if n.value < 0.0 then -n.value else n.value)
  }

  predicate Truthy(value: FieldValue) {
    match value
    case TextValue(s) => s != ""
    case NumberValue(n) => n != 0.0
    case FlagValue(b) => b
    case _ => false
  }

  // value != null && value !== 0 && value !== ''
  predicate Filled(value: FieldValue) {
    !value.Undefined? && !value.Null? && value != NumberValue(0.0) && value != TextValue("")
  }

  // text.split(',')
  function Split(text: string): (parts: seq<string>)
    ensures parts != []
  {
    if text == "" then [""]
    else
      var rest := Split(text[1..]);
      if text[0] == ',' then [""] + rest else [[text[0]] + rest[0]] + rest[1..]
  }

  predicate NamesCity(cities: string, city: string) {
    exists part | part in Split(cities) :: Trim(part) == city
  }

  function Variables(rt: Runtime, fields: Fields): map<string, Double> {
    map name | name in VARIABLES :: rt.variable(Get(fields, name))
  }

  predicate CustomHolds(rt: Runtime, expression: string, fields: Fields) {
    match Parse(Trim(expression), Variables(rt, fields).Keys)
    case None => false
    case Some(e) => !rt.ops.isZero(Eval(rt.ops, Variables(rt, fields), e))
  }

  predicate Holds(rt: Runtime, condition: Condition, fields: Fields) {
    match condition
    case DeviationThreshold(value) =>
      var threshold, deviation := Threshold(rt, value), ToNumber(rt, Get(fields, "deviation_percent"));
      threshold.Some? && deviation.Some? && deviation.value >= threshold.value
    case HasField(field) =>
      var value := Get(fields, field);
      if field == "first_seen_at" then
        Truthy(value) && rt.epoch(value).Some? && rt.epoch(value).value >= rt.now - DAY_MS
      else Filled(value)
    case CityMatch(cities) =>
      var city := Get(fields, "city");
      Truthy(city) && city.TextValue? && NamesCity(OrEmpty(cities), city.s)
    case Custom(expression) => CustomHolds(rt, OrEmpty(expression), fields)
  }

  /** Whether a rule matches; a custom rule is evaluated by the cursor parser, and an expression that fails does not match. */
  method Matches(rt: Runtime, condition: Condition, fields: Fields) returns (matched: bool)
    ensures matched == Holds(rt, condition, fields)
  {
    match condition
    case Custom(expression) =>
      var r := SafeEval(rt.ops, OrEmpty(expression), Variables(rt, fields));
      matched := r == Some(true);
    case CityMatch(cities) =>
      var city := Get(fields, "city");
      matched := false;
      if Truthy(city) && city.TextValue? {
        var parts := Split(OrEmpty(cities));
        for i := 0 to |parts|
          invariant matched <==> exists k | 0 <= k < i :: Trim(parts[k]) == city.s
        {
          if Trim(parts[i]) == city.s { matched := true; }
        }
      }
    case DeviationThreshold(value) =>
      var threshold, deviation := Threshold(rt, value), ToNumber(rt, Get(fields, "deviation_percent"));
      matched := false;
      if threshold.Some? && deviation.Some? { matched := deviation.value >= threshold.value; }
    case HasField(field) =>
      var value := Get(fields, field);
      if field == "first_seen_at" {
        var seen := if Truthy(value) then rt.epoch(value) else None;
        matched := seen.Some? && seen.value >= rt.now - DAY_MS;
      } else {
        matched := Filled(value);
      }
  }

  // ---------- What the conditions mean ----------

  /** A deviation rule matches exactly if the deviation, read as a number, is at least the threshold and its negative. */
  lemma DeviationMatches(rt: Runtime, value: Option<string>, fields: Fields, n: real, d: real)
    requires (value.None? && n == 0.0) || (value.Some? && rt.number(value.value) == Some(n))
    requires "deviation_percent" in fields && match fields["deviation_percent"]
      case NumberValue(x) => d == x
      case TextValue(s) => rt.number(s) == Some(d)
      case Null => d == 0.0
      case FlagValue(b) => (b ==> d == 1.0) && (!b ==> d == 0.0)
      case Undefined => false
    ensures Holds(rt, DeviationThreshold(value), fields) <==> d >= n && d >= -n
  {
  }

  /** A threshold or a deviation that is no number matches nothing. */
  lemma NoNumberNoMatch(rt: Runtime, value: Option<string>, fields: Fields)
    requires
      || (value.Some? && rt.number(value.value).None?)
      || "deviation_percent" !in fields || fields["deviation_percent"].Undefined?
      || (fields["deviation_percent"].TextValue? && rt.number(fields["deviation_percent"].s).None?)
    ensures !Holds(rt, DeviationThreshold(value), fields)
  {
  }

  /**
    A field rule matches exactly if the field is there and neither null nor zero nor empty text; for the first-seen time,
    exactly if its instant can be read and is not more than 24 hours ago.
   */
  lemma FieldMatches(rt: Runtime, field: string, fields: Fields)
    ensures field != "first_seen_at" ==>
      (Holds(rt, HasField(field), fields) <==>
        field in fields && fields[field] !in {Undefined, Null, NumberValue(0.0), TextValue("")})
    ensures field == "first_seen_at" ==>
      (Holds(rt, HasField(field), fields) <==>
        && field in fields && fields[field] !in {Undefined, Null, NumberValue(0.0), TextValue(""), FlagValue(false)}
        && rt.epoch(fields[field]).Some? && rt.now - rt.epoch(fields[field]).value <= 24.0 * 3600.0 * 1000.0)
  {
  }

  /** A city rule matches exactly if the city is not empty and one of the parts of the list, without its blanks. */
  lemma CityMatches(rt: Runtime, cities: Option<string>, fields: Fields)
    ensures Holds(rt, CityMatch(cities), fields) <==>
      && "city" in fields && fields["city"].TextValue? && fields["city"].s != "" && cities.Some?
      && exists part | part in Split(cities.value) :: Trim(part) == fields["city"].s
  {
    if cities.None? { assert Split("") == [""] && forall part | part in Split("") :: part == ""; TrimOfNothing(); }
  }

  lemma TrimOfNothing()
    ensures Trim("") == ""
  {
  }

  /** A custom rule sees six fields as variables, whether the property has them or not. */
  lemma SixVariables(rt: Runtime, fields: Fields)
    ensures Variables(rt, fields).Keys ==
      {"area_sqm", "price", "price_per_sqm", "deviation_percent", "focus_score", "minimum_price"}
    ensures forall name | name in Variables(rt, fields) ::
      Variables(rt, fields)[name] == rt.variable(if name in fields then fields[name] else Undefined)
  {
  }

  /** It matches exactly if its expression answers true; a missing one, like one with an error, never does. */
  lemma CustomMatches(rt: Runtime, expression: Option<string>, fields: Fields)
    ensures Holds(rt, Custom(expression), fields) <==>
      Answer(rt.ops, Variables(rt, fields), if expression.Some? then expression.value else "") == Some(true)
  {
    hide Variables, Parse, Eval, Trim;
  }

  /** The parts of a list are what lies between its commas. */
  lemma {:induction false} SplitJoins(text: string)
    ensures JoinCommas(Split(text)) == text && forall part | part in Split(text) :: ',' !in part
  {
    if text != "" {
      SplitJoins(text[1..]);
      var rest := Split(text[1..]);
      assert rest == [rest[0]] + rest[1..];
      if text[0] == ',' {
        assert ([""] + rest)[1..] == rest;
      } else {
        var all := [[text[0]] + rest[0]] + rest[1..];
        assert all[0] == [text[0]] + rest[0] && all[1..] == rest[1..];
      }
    }
  }

  function JoinCommas(parts: seq<string>): string {
    if parts == [] then "" else if |parts| == 1 then parts[0] else parts[0] + "," + JoinCommas(parts[1..])
  }
}
