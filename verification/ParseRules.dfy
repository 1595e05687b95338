/** User profiles, filter snapshots and the in-memory matcher. */
module ParseRules {
  import opened Wrappers
  import opened Texts
  import opened SortedSets

  const REGION_VALUES := ["moscow", "mo", "tver", "tver_oblast", "other"]
  const PROPERTY_TYPE_VALUES := ["office", "warehouse", "retail", "production", "free_purpose", "apartment", "land", "other"]
  const MAX_CANONICAL_ARRAY_ITEMS := 128
  const MAX_CANONICAL_STRING_LENGTH := 256
  const MAX_SAFE_INTEGER := 9007199254740991

  datatype Profile = Profile(
    userId: int, profileId: int, version: int,
    regions: seq<string>, propertyTypes: seq<string>,
    priceFrom: Option<real>, priceTo: Option<real>, areaFrom: Option<real>, areaTo: Option<real>,
    stopWords: seq<string>, filterRent: Option<bool>)

  datatype Error = TypeError | RangeError

  // ---------- Normalization of one profile ----------

  function Canon(item: string): string {
    Lower(Trim(item))
  }

  // x is a non-empty item after trimming and lower-casing.
  predicate IsCanonOf(x: string, items: seq<string>) {
    x != "" && exists y | y in items :: Canon(y) == x
  }

  // value.map(trim + toLowerCase).filter(Boolean)
  function CanonItems(items: seq<string>): seq<string> {
    if items == [] then []
    else (if Canon(items[0]) == "" then [] else [Canon(items[0])]) + CanonItems(items[1..])
  }

  lemma {:induction false} CanonItemsElements(items: seq<string>)
    ensures forall x :: x in CanonItems(items) <==> IsCanonOf(x, items)
  {
    if items != [] {
      var first, rest := items[0], items[1..];
      CanonItemsElements(rest);
      assert items == [first] + rest;
      forall x ensures IsCanonOf(x, items) <==> IsCanonOf(x, rest) || (x != "" && x == Canon(first)) {
        if IsCanonOf(x, rest) { var y :| y in rest && Canon(y) == x; assert y in items; }
        if x != "" && x == Canon(first) { assert first in items; }
      }
    }
  }

  function NormalizeStringArray(items: seq<string>): Result<seq<string>, Error> {
    var normalized := SortedSet(CanonItems(items));
    if exists x | x in normalized :: |x| > MAX_CANONICAL_STRING_LENGTH then Err(RangeError)
    else if |normalized| > MAX_CANONICAL_ARRAY_ITEMS then Err(RangeError)
    else Ok(normalized)
  }

  function NormalizeEnumArray(items: seq<string>, allowed: seq<string>): Result<seq<string>, Error> {
    match NormalizeStringArray(items)
    case Err(e) => Err(e)
    case Ok(normalized) =>
      if forall x | x in normalized :: x in allowed then Ok(normalized) else Err(TypeError)
  }

  predicate IsId(value: int) { 0 < value <= MAX_SAFE_INTEGER }

  predicate IsBound(value: Option<real>) { value.Some? ==> value.value >= 0.0 }

  predicate Ordered(from: Option<real>, to: Option<real>) {
    from.Some? && to.Some? ==> from.value <= to.value
  }

  function ProfilePayload(p: Profile): Result<Profile, Error> {
    if !IsId(p.userId) || !IsId(p.profileId) || !IsId(p.version) then Err(TypeError) else
    match NormalizeEnumArray(p.regions, REGION_VALUES)
    case Err(e) => Err(e)
    case Ok(regions) =>
    match NormalizeEnumArray(p.propertyTypes, PROPERTY_TYPE_VALUES)
    case Err(e) => Err(e)
    case Ok(propertyTypes) =>
    if !IsBound(p.priceFrom) || !IsBound(p.priceTo) || !IsBound(p.areaFrom) || !IsBound(p.areaTo) then Err(TypeError) else
    match NormalizeStringArray(p.stopWords)
    case Err(e) => Err(e)
    case Ok(stopWords) =>
      if !Ordered(p.priceFrom, p.priceTo) || !Ordered(p.areaFrom, p.areaTo) then Err(RangeError)
      else Ok(p.(regions := regions, propertyTypes := propertyTypes, stopWords := stopWords))
  }

  // ---------- Normalization: idempotent, and blind to order, repetition, case and blanks ----------

  lemma CanonIdempotent(item: string)
    ensures Canon(Canon(item)) == Canon(item) && Trimmed(Canon(item)) && Lower(Canon(item)) == Canon(item)
  {
    var pre, post := TrimSplits(item);
    LowerFacts(Trim(item));
    LowerFacts(item);
    var c := Canon(item);
    assert "" + c + "" == c;
    TrimUndoes("", c, "");
  }

  lemma ArrayIdempotent(items: seq<string>)
    ensures SortedSet(CanonItems(SortedSet(CanonItems(items)))) == SortedSet(CanonItems(items))
  {
    var n := SortedSet(CanonItems(items));
    CanonItemsElements(items);
    CanonItemsElements(n);
    forall x | x in n ensures Canon(x) == x && x != "" {
      assert IsCanonOf(x, items);
      var y :| y in items && Canon(y) == x;
      CanonIdempotent(y);
    }
    assert SameElements(CanonItems(n), n);
    AscendingUnique(SortedSet(CanonItems(n)), n);
  }

  lemma NormalizedAgain(items: seq<string>, allowed: seq<string>)
    ensures NormalizeStringArray(items).Ok? ==>
              NormalizeStringArray(NormalizeStringArray(items).value) == NormalizeStringArray(items)
    ensures NormalizeEnumArray(items, allowed).Ok? ==>
              NormalizeEnumArray(NormalizeEnumArray(items, allowed).value, allowed) == NormalizeEnumArray(items, allowed)
  {
    ArrayIdempotent(items);
    hide SortedSet, CanonItems;
  }

  /** What comes out of the normalizer goes through it unchanged. */
  lemma NormalizationIdempotent(p: Profile)
    requires ProfilePayload(p).Ok?
    ensures ProfilePayload(ProfilePayload(p).value) == ProfilePayload(p)
  {
    hide NormalizeStringArray, NormalizeEnumArray;
    NormalizedAgain(p.regions, REGION_VALUES);
    NormalizedAgain(p.propertyTypes, PROPERTY_TYPE_VALUES);
    NormalizedAgain(p.stopWords, []);
  }

  // The same words up to order, repetition, letter case, surrounding blanks and blank items.
  predicate SameWords(a: seq<string>, b: seq<string>) {
    && (forall x | x in a && Canon(x) != "" :: IsCanonOf(Canon(x), b))
    && (forall y | y in b && Canon(y) != "" :: IsCanonOf(Canon(y), a))
  }

  predicate SameProfile(p: Profile, q: Profile) {
    && q == p.(regions := q.regions, propertyTypes := q.propertyTypes, stopWords := q.stopWords)
    && SameWords(p.regions, q.regions) && SameWords(p.propertyTypes, q.propertyTypes) && SameWords(p.stopWords, q.stopWords)
  }

  lemma SameWordsNormalize(a: seq<string>, b: seq<string>)
    requires SameWords(a, b)
    ensures NormalizeStringArray(a) == NormalizeStringArray(b)
    ensures forall allowed :: NormalizeEnumArray(a, allowed) == NormalizeEnumArray(b, allowed)
  {
    CanonItemsElements(a);
    CanonItemsElements(b);
    forall x | IsCanonOf(x, a) ensures IsCanonOf(x, b) { var y :| y in a && Canon(y) == x; }
    forall x | IsCanonOf(x, b) ensures IsCanonOf(x, a) { var y :| y in b && Canon(y) == x; }
    assert SameElements(CanonItems(a), CanonItems(b));
    hide IsCanonOf, SameWords, Canon;
    AscendingUnique(SortedSet(CanonItems(a)), SortedSet(CanonItems(b)));
  }

  /** Two spellings of the same profile normalize to the same value, or fail alike. */
  lemma NormalizationCanonical(p: Profile, q: Profile)
    requires SameProfile(p, q)
    ensures ProfilePayload(p) == ProfilePayload(q)
  {
    hide NormalizeStringArray, NormalizeEnumArray, SameWords;
    SameWordsNormalize(p.regions, q.regions);
    SameWordsNormalize(p.propertyTypes, q.propertyTypes);
    SameWordsNormalize(p.stopWords, q.stopWords);
  }

  // ---------- The matcher ----------

  // A column of a candidate, as far as the matcher distinguishes values.
  datatype Field = Missing | Str(s: string) | Num(n: real) | Other

  type Candidate = map<string, Field>

  const TEXT_KEYS := ["title", "description", "address", "excerpt", "text", "body", "content", "details"]

  predicate Present(c: Candidate, key: string) {
    key in c && !c[key].Missing?
  }

  // The first of the keys with a value.
  function CandidateValue(c: Candidate, keys: seq<string>): Field {
    if keys == [] then Missing
    else if Present(c, keys[0]) then c[keys[0]]
    else CandidateValue(c, keys[1..])
  }

  predicate MatchesEnum(values: seq<string>, c: Candidate, keys: seq<string>) {
    if values == [] then false
    else match CandidateValue(c, keys)
      case Missing => true
      case Str(s) => Canon(s) in values
      case _ => false
  }

  predicate MatchesRange(from: Option<real>, to: Option<real>, c: Candidate, keys: seq<string>) {
    match CandidateValue(c, keys)
    case Missing => true
    case Num(n) => n >= 0.0 && (from.Some? ==> n >= from.value) && (to.Some? ==> n <= to.value)
    case _ => false
  }

  // textValues.join(' '), or nothing when some text field is not a string.
  function AvailableText(c: Candidate, keys: seq<string>): Option<seq<string>> {
    if keys == [] then Some([])
    else
      match AvailableText(c, keys[1..])
      case None => None
      case Some(rest) =>
        if !Present(c, keys[0]) then Some(rest)
        else if c[keys[0]].Str? then Some([c[keys[0]].s] + rest)
        else None
  }

  function Join(parts: seq<string>): string {
    if parts == [] then "" else if |parts| == 1 then parts[0] else parts[0] + " " + Join(parts[1..])
  }

  predicate MatchesStopWords(stopWords: seq<string>, c: Candidate) {
    var parts := AvailableText(c, TEXT_KEYS);
    parts.Some? && forall w | w in stopWords :: !Contains(Lower(Join(parts.value)), w)
  }

  const RENT_WORD := "\U{0430}\U{0440}\U{0435}\U{043D}\U{0434}"

  predicate MatchesProfile(p: Profile, c: Candidate) {
    match ProfilePayload(p)
    case Err(_) => false
    case Ok(n) => MatchesNormalized(n, c)
  }

  predicate MatchesNormalized(n: Profile, c: Candidate) {
    && MatchesEnum(n.regions, c, ["region", "city"])
    && MatchesEnum(n.propertyTypes, c, ["propertyType", "property_type"])
    && MatchesRange(n.priceFrom, n.priceTo, c, ["price", "minimum_price"])
    && MatchesRange(n.areaFrom, n.areaTo, c, ["area_sqm", "area"])
    && MatchesStopWords(n.stopWords, c)
    && (n.filterRent == Some(true) ==> MatchesStopWords([RENT_WORD], c))
  }

  /** The matcher does not see how a profile was spelled. */
  lemma MatcherCanonical(p: Profile, q: Profile, c: Candidate)
    requires SameProfile(p, q)
    ensures MatchesProfile(p, c) == MatchesProfile(q, c)
    ensures ProfilePayload(p).Ok? ==> MatchesProfile(ProfilePayload(p).value, c) == MatchesProfile(p, c)
  {
    NormalizationCanonical(p, q);
    if ProfilePayload(p).Ok? { NormalizationIdempotent(p); }
  }
}
