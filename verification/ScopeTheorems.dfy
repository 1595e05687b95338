/** The in-memory matcher against the compiled scope, and what a text search misses. */
module ScopeTheorems {
  import opened Wrappers
  import opened Texts
  import opened ParseRules
  import opened Sql
  import opened UserPropertyScope

  // ---------- The matcher implies visibility ----------

  function StrField(s: Option<string>): Field { if s.Some? then Str(s.value) else Field.Missing }

  function FieldOf(c: Candidate, key: string): Field { if key in c then c[key] else Field.Missing }

  // The columns of the row form the candidate; a null column is a missing field. Other fields are free.
  predicate Describes(c: Candidate, row: Row) {
    && FieldOf(c, "region") == Field.Missing && FieldOf(c, "city") == StrField(row.city)
    && FieldOf(c, "propertyType") == Field.Missing && FieldOf(c, "property_type") == StrField(row.propertyType)
    && (row.price.Some? ==> FieldOf(c, "price") == Num(row.price.value))
    && (row.areaSqm.Some? ==> FieldOf(c, "area_sqm") == Num(row.areaSqm.value))
    && FieldOf(c, "title") == StrField(row.title) && FieldOf(c, "description") == StrField(row.description)
  }

  // The stored value is the canonical spelling.
  predicate StoredCanonical(x: Option<string>) {
    x.Some? && Canon(x.value) == x.value
  }

  lemma {:induction false} FirstValue(c: Candidate, keys: seq<string>)
    requires |keys| == 2
    ensures CandidateValue(c, keys) == if FieldOf(c, keys[0]).Missing? then FieldOf(c, keys[1]) else FieldOf(c, keys[0])
  {
    var rest := keys[1..];
    assert rest[0] == keys[1] && rest[1..] == [];
    assert CandidateValue(c, []) == Field.Missing;
    assert CandidateValue(c, rest) == FieldOf(c, keys[1]);
  }

  lemma EnumAgrees(values: seq<string>, c: Candidate, keys: seq<string>, stored: Option<string>)
    requires |keys| == 2 && FieldOf(c, keys[0]).Missing? && FieldOf(c, keys[1]) == StrField(stored)
    requires MatchesEnum(values, c, keys)
    requires forall v | v in values :: Canon(v) == v
    ensures OneOf(stored, values) <==> StoredCanonical(stored)
  {
    FirstValue(c, keys);
  }

  lemma RangeAgrees(from: Option<real>, to: Option<real>, c: Candidate, keys: seq<string>, stored: Option<real>)
    requires |keys| == 2 && MatchesRange(from, to, c, keys)
    requires stored.Some? ==> FieldOf(c, keys[0]) == Num(stored.value)
    ensures AtLeast(stored, from) && AtMost(stored, to)
  {
    FirstValue(c, keys);
  }

  // Title and description, as the matcher joins them with the other text fields.
  lemma JoinedText(c: Candidate, row: Row) returns (rest: seq<string>)
    requires Describes(c, row) && AvailableText(c, TEXT_KEYS).Some?
    ensures AvailableText(c, TEXT_KEYS).value == Given(row.title) + Given(row.description) + rest
  {
    var later := TEXT_KEYS[1..];
    assert TEXT_KEYS[0] == "title" && later[0] == "description";
    assert AvailableText(c, later).Some?;
    rest := AvailableText(c, later[1..]).value;
    assert AvailableText(c, later).value == Given(row.description) + rest;
    assert Given(row.title) + (Given(row.description) + rest) == Given(row.title) + Given(row.description) + rest;
  }

  function Given(s: Option<string>): seq<string> { if s.Some? then [s.value] else [] }

  lemma JoinCons(first: string, rest: seq<string>)
    ensures Join([first] + rest) == if rest == [] then first else first + " " + Join(rest)
  {
    var all := [first] + rest;
    assert all[0] == first && all[1..] == rest;
  }

  // The join starts with what the two columns hold.
  lemma JoinStarts(title: Option<string>, description: Option<string>, rest: seq<string>) returns (post: string)
    ensures title.Some? && description.Some? ==>
      Join(Given(title) + Given(description) + rest) == title.value + " " + description.value + post
    ensures title.Some? && description.None? ==> Join(Given(title) + Given(description) + rest) == title.value + post
    ensures title.None? && description.Some? ==> Join(Given(title) + Given(description) + rest) == description.value + post
  {
    var tail := if rest == [] then "" else " " + Join(rest);
    post := tail;
    hide Join;
    if title.Some? && description.Some? {
      assert [title.value] + [description.value] + rest == [title.value] + ([description.value] + rest);
      JoinCons(title.value, [description.value] + rest);
      JoinCons(description.value, rest);
      assert title.value + " " + (description.value + tail) == title.value + " " + description.value + tail;
    } else if title.Some? {
      assert [title.value] + [] + rest == [title.value] + rest;
      JoinCons(title.value, rest);
    } else if description.Some? {
      assert [] + [description.value] + rest == [description.value] + rest;
      JoinCons(description.value, rest);
    }
  }

  // A word in the text of the compiled clause is in the matcher's text, although they are joined differently.
  lemma WordInBoth(title: Option<string>, description: Option<string>, rest: seq<string>, w: string)
    requires w != "" && Trimmed(w) && Contains(Lower(OrElse(title, "") + " " + OrElse(description, "")), w)
    ensures Contains(Lower(Join(Given(title) + Given(description) + rest)), w)
  {
    var post := JoinStarts(title, description, rest);
    var all := Join(Given(title) + Given(description) + rest);
    hide Contains, Join, Lower;
    var text := OrElse(title, "") + " " + OrElse(description, "");
    if title.Some? && description.Some? {
      ContainsMore(text, post, w);
    } else if title.Some? {
      assert text == title.value + " ";
      BlankEnds(title.value, w);
      ContainsMore(title.value, post, w);
    } else if description.Some? {
      assert text == " " + description.value;
      BlankEnds(description.value, w);
      ContainsMore(description.value, post, w);
    } else {
      assert text == " " + "";
      BlankEnds("", w);
      EmptyContainsNothing(w);
    }
  }

  lemma ContainsMore(text: string, post: string, w: string)
    requires Contains(Lower(text), w)
    ensures Contains(Lower(text + post), w)
  {
    LowerAppend(text, post);
    ContainsInfix("", Lower(text), Lower(post), w);
    assert "" + Lower(text) + Lower(post) == Lower(text + post);
  }

  lemma BlankEnds(text: string, w: string)
    requires w != "" && Trimmed(w)
    ensures Contains(Lower(" " + text), w) ==> Contains(Lower(text), w)
    ensures Contains(Lower(text + " "), w) ==> Contains(Lower(text), w)
  {
    LowerAppend(" ", text);
    LowerAppend(text, " ");
    assert Lower(" ") == " ";
    ContainsPastBlank(Lower(text), w);
  }

  lemma EmptyContainsNothing(w: string)
    requires w != ""
    ensures !Contains(Lower(""), w)
  {
  }

  lemma StopWordsAgree(words: seq<string>, c: Candidate, row: Row)
    requires Describes(c, row) && MatchesStopWords(words, c)
    requires forall w | w in words :: w != "" && Trimmed(w) && Lower(w) == w
    ensures NoneOf(words, row)
  {
    var rest := JoinedText(c, row);
    hide Describes, Join, Contains, AvailableText, Lower;
    forall w | w in words ensures !Contains(AsciiLower(ProfileText(row)), w) {
      if Contains(AsciiLower(ProfileText(row)), w) {
        ContainsLower(AsciiLower(ProfileText(row)), w);
        LowerFacts(ProfileText(row));
        WordInBoth(row.title, row.description, rest, w);
        assert false;
      }
    }
  }

  // The empty request, normalized.
  const NothingAsked := Request([], [], [], None, None, None, ByScore, 1, DEFAULT_PAGE_SIZE, None)

  lemma EmptyRequestIsValid(iso: IsoParse)
    ensures NormalizeRequest(iso, EmptyRequest) == Ok(NothingAsked)
  {
  }

  // What normalization gives: canonical words in all lists.
  predicate Normal(n: Profile) {
    && (forall v | v in n.regions + n.propertyTypes :: Canon(v) == v)
    && (forall w | w in n.stopWords :: w != "" && Trimmed(w) && Lower(w) == w)
  }

  lemma NormalizedIsNormal(p: Profile)
    ensures ProfilePayload(p).Ok? ==> Normal(ProfilePayload(p).value)
  {
    if ProfilePayload(p).Ok? {
      CanonicalStopWords(p);
      CanonItemsElements(p.regions);
      CanonItemsElements(p.propertyTypes);
      var n := ProfilePayload(p).value;
      forall v | v in n.regions + n.propertyTypes ensures Canon(v) == v {
        assert IsCanonOf(v, p.regions) || IsCanonOf(v, p.propertyTypes);
        var y :| y in p.regions + p.propertyTypes && Canon(y) == v;
        CanonIdempotent(y);
      }
    }
  }

  /**
    A row that the matcher admits is visible to the same profile with an empty request, except that the SQL compares
    stored values as they are and hides what the user has rejected: the row is visible if and only if its city and
    type are stored in canonical spelling and its personal status is not 'rejected'.
   */
  lemma MatcherImpliesVisibility(n: Profile, c: Candidate, row: Row)
    requires Normal(n) && MatchesNormalized(n, c) && Describes(c, row)
    ensures Visible(n, NothingAsked, row) <==>
      StoredCanonical(row.city) && StoredCanonical(row.propertyType) && PersonalStatus(row) != "rejected"
  {
    hide MatchesEnum, MatchesRange, MatchesStopWords, NoneOf, OneOf, AtLeast, AtMost, Canon, Lower, Trimmed;
    EnumAgrees(n.regions, c, ["region", "city"], row.city);
    EnumAgrees(n.propertyTypes, c, ["propertyType", "property_type"], row.propertyType);
    RangeAgrees(n.priceFrom, n.priceTo, c, ["price", "minimum_price"], row.price);
    RangeAgrees(n.areaFrom, n.areaTo, c, ["area_sqm", "area"], row.areaSqm);
    StopWordsAgree(n.stopWords, c, row);
  }

  /**
    For any profile: if the matcher admits the row, the profile is ready, and the clauses compiled from it
    select the row under that condition.
   */
  lemma MatcherImpliesSelection(compiled: Compiled, iso: IsoParse, p: Profile, c: Candidate, row: Row)
    ensures MatchesProfile(p, c) ==> ScopeProfile(p).Ok? && NormalizeRequest(iso, EmptyRequest).Ok?
    ensures MatchesProfile(p, c) && Describes(c, row)
            && Compiles(compiled, ScopeProfile(p).value, NormalizeRequest(iso, EmptyRequest).value) ==>
              (Picks(compiled, row) <==>
                StoredCanonical(row.city) && StoredCanonical(row.propertyType) && PersonalStatus(row) != "rejected")
  {
    if MatchesProfile(p, c) {
      EmptyRequestIsValid(iso);
      MatchedIsReady(p, c);
      hide *;
      var n := ScopeProfile(p).value;
      if Describes(c, row) && Compiles(compiled, n, NothingAsked) {
        MatcherImpliesVisibility(n, c, row);
        SelectedIsVisible(compiled, n, NothingAsked, row);
      }
    }
  }

  lemma MatchedIsReady(p: Profile, c: Candidate)
    requires MatchesProfile(p, c)
    ensures ScopeProfile(p).Ok? && Normal(ScopeProfile(p).value) && MatchesNormalized(ScopeProfile(p).value, c)
  {
    NormalizedIsNormal(p);
    assert ProfilePayload(p).Ok? && ScopeProfile(p) == Ok(ProfilePayload(p).value);
  }

  lemma SelectedIsVisible(compiled: Compiled, n: Profile, r: Request, row: Row)
    requires Compiles(compiled, n, r)
    ensures Picks(compiled, row) <==> Visible(n, r, row)
  {
    hide WhereValue, WhereParams, Visible;
  }

  // A profile with one city and one type, a row of them, and the row as a candidate.
  function OneProfile(city: string, kind: string): Profile {
    Profile(1, 1, 1, [city], [kind], None, None, None, None, [], None)
  }

  function OneRow(city: string, kind: string): Row {
    Row("d", Some(city), Some(kind), None, None, None, None, None, None, None, None, Null, Null, false, Number(0.0), None)
  }

  function OneCandidate(city: string, kind: string): Candidate {
    map["city" := Str(city), "property_type" := Str(kind)]
  }

  /** The theorems above speak about something: a row is admitted by the profile of its city and type. */
  lemma OneRowIsAdmitted(city: string, kind: string)
    requires Canon(city) == city && Canon(kind) == kind
    ensures Normal(OneProfile(city, kind)) && MatchesNormalized(OneProfile(city, kind), OneCandidate(city, kind))
    ensures Describes(OneCandidate(city, kind), OneRow(city, kind)) && Visible(OneProfile(city, kind), NothingAsked, OneRow(city, kind))
  {
    var n, c, row := OneProfile(city, kind), OneCandidate(city, kind), OneRow(city, kind);
    OneCandidateReads(city, kind);
    hide CandidateValue, AvailableText, Canon, Lower;
    assert Describes(c, row) && MatchesNormalized(n, c);
    MatcherImpliesVisibility(n, c, row);
  }

  /** A city stored with a leading blank: the matcher admits the row, and the SQL does not show it. */
  lemma PaddedRowIsHidden(city: string, kind: string)
    requires city != "" && Canon(city) == city && Canon(kind) == kind
    ensures MatchesNormalized(OneProfile(city, kind), OneCandidate(" " + city, kind))
    ensures Describes(OneCandidate(" " + city, kind), OneRow(" " + city, kind))
    ensures !Visible(OneProfile(city, kind), NothingAsked, OneRow(" " + city, kind))
  {
    var n, c, row := OneProfile(city, kind), OneCandidate(" " + city, kind), OneRow(" " + city, kind);
    PaddedCanon(city);
    OneCandidateReads(" " + city, kind);
    hide CandidateValue, AvailableText, Canon, Lower;
    assert Describes(c, row) && MatchesNormalized(n, c);
    hide Describes, MatchesNormalized;
    assert row.city.value != city && !OneOf(row.city, n.regions);
  }

  lemma OneCandidateReads(city: string, kind: string)
    ensures var c := OneCandidate(city, kind);
            && AvailableText(c, TEXT_KEYS) == Some([])
            && CandidateValue(c, ["region", "city"]) == Str(city)
            && CandidateValue(c, ["propertyType", "property_type"]) == Str(kind)
            && CandidateValue(c, ["price", "minimum_price"]) == Field.Missing
            && CandidateValue(c, ["area_sqm", "area"]) == Field.Missing
  {
    var c := OneCandidate(city, kind);
    NothingToRead(c, TEXT_KEYS);
    FirstValue(c, ["region", "city"]);
    FirstValue(c, ["propertyType", "property_type"]);
    FirstValue(c, ["price", "minimum_price"]);
    FirstValue(c, ["area_sqm", "area"]);
    hide CandidateValue, AvailableText;
  }

  lemma PaddedCanon(city: string)
    requires Canon(city) == city
    ensures Canon(" " + city) == city
  {
    CanonIdempotent(city);
    assert AllWhite(" ") && " " + city + "" == " " + city;
    TrimUndoes(" ", city, "");
  }

  lemma {:induction false} NothingToRead(c: Candidate, keys: seq<string>)
    requires forall k | k in keys :: !Present(c, k)
    ensures AvailableText(c, keys) == Some([])
  {
    if keys != [] {
      assert keys == [keys[0]] + keys[1..];
      NothingToRead(c, keys[1..]);
    }
  }

  // ---------- Case folding in the database ----------

  // What a search means to its caller: the text contains the words in any letter case.
  predicate MeantBy(search: string, row: Row) {
    Contains(Lower(SearchText(row)), Lower(search))
  }

  /** A search never finds too much. */
  lemma SearchIsSound(search: string, row: Row)
    requires Found(search, row)
    ensures MeantBy(search, row)
  {
    ContainsLower(AsciiLower(SearchText(row)), Lower(search));
    LowerFacts(SearchText(row));
    LowerFacts(search);
  }

  /**
    SQLite's LOWER knows only ASCII: searches find all they should on a row if and only if
    the row's text has no capital letter outside ASCII.
   */
  lemma SearchIsCompleteForAscii(row: Row)
    ensures (forall search :: MeantBy(search, row) ==> Found(search, row))
       <==> (forall i | 0 <= i < |SearchText(row)| :: AsciiLowerChar(SearchText(row)[i]) == LowerChar(SearchText(row)[i]))
  {
    var text := SearchText(row);
    if forall search :: MeantBy(search, row) ==> Found(search, row) {
      assert ContainsAt(Lower(text), Lower(text), 0);
      assert MeantBy(text, row);
      assert Found(text, row);
      var i: nat :| i <= |text| && ContainsAt(AsciiLower(text), Lower(text), i);
      assert AsciiLower(text)[i..i + |text|] == AsciiLower(text);
      assert AsciiLower(text) == Lower(text);
      forall k | 0 <= k < |text| ensures AsciiLowerChar(text[k]) == LowerChar(text[k]) {
        assert AsciiLower(text)[k] == Lower(text)[k];
      }
    }
    if forall k | 0 <= k < |text| :: AsciiLowerChar(text[k]) == LowerChar(text[k]) {
      assert AsciiLower(text) == Lower(text);
    }
  }

  // The stop words the compiled clause lets pass although the text contains them in some letter case.
  ghost predicate CatchesEveryWord(row: Row) {
    forall w | w != "" && Trimmed(w) && Lower(w) == w :: NoneOf([w], row) ==> !Contains(Lower(ProfileText(row)), w)
  }

  predicate FoldsAlike(text: string) {
    forall i | 0 <= i < |text| :: AsciiLowerChar(text[i]) == LowerChar(text[i])
  }

  /**
    The compiled stop-word clause catches, on a row, every word it should, if and only if
    title and description have no capital letter outside ASCII.
   */
  lemma StopWordsAreCompleteForAscii(row: Row)
    ensures CatchesEveryWord(row) <==> FoldsAlike(ProfileText(row))
  {
    var text := ProfileText(row);
    if FoldsAlike(text) {
      assert AsciiLower(text) == Lower(text);
      forall w | NoneOf([w], row) ensures !Contains(Lower(text), w) { assert w in [w]; }
    }
    if !FoldsAlike(text) {
      WholeTextIsMissed(text);
      assert NoneOf([Lower(Trim(text))], row);
    }
  }

  lemma BlanksFoldAlike(s: string)
    requires AllWhite(s)
    ensures FoldsAlike(s) && AllWhite(Lower(s)) && AllWhite(AsciiLower(s))
  {
  }

  // The whole text, in lower case and without the blanks around it: the database does not find it in a text that it folds otherwise.
  lemma WholeTextIsMissed(text: string)
    requires !FoldsAlike(text)
    ensures var w := Lower(Trim(text));
            && w != "" && Trimmed(w) && Lower(w) == w
            && Contains(Lower(text), w) && !Contains(AsciiLower(text), w)
  {
    var pre, post := TrimSplits(text);
    var core := Trim(text);
    BlanksFoldAlike(pre);
    BlanksFoldAlike(post);
    if FoldsAlike(core) { FoldsAlikeAround(pre, core, post); }
    assert core != "";
    LowerFacts(core);
    LowerAround(pre, core, post);
    var w := Lower(core);
    assert Lower(text)[|pre|..|pre| + |w|] == w;
    assert ContainsAt(Lower(text), w, |pre|);
    if Contains(AsciiLower(text), w) {
      var i: nat :| i <= |text| && ContainsAt(AsciiLower(text), w, i);
      FoundInPlace(pre, core, post, i);
    }
  }

  lemma FoldsAlikeAround(pre: string, core: string, post: string)
    requires FoldsAlike(pre) && FoldsAlike(core) && FoldsAlike(post)
    ensures FoldsAlike(pre + core + post)
  {
  }

  lemma LowerAround(pre: string, core: string, post: string)
    ensures Lower(pre + core + post) == Lower(pre) + Lower(core) + Lower(post)
    ensures AsciiLower(pre + core + post) == AsciiLower(pre) + AsciiLower(core) + AsciiLower(post)
  {
  }

  // Blanks match nothing of a trimmed word, so it can only be found at its own place.
  lemma FoundInPlace(pre: string, core: string, post: string, i: nat)
    requires AllWhite(pre) && AllWhite(post) && core != "" && Trimmed(core)
    requires ContainsAt(AsciiLower(pre + core + post), Lower(core), i)
    ensures FoldsAlike(core)
  {
    var folded, w := AsciiLower(pre + core + post), Lower(core);
    LowerFacts(core);
    assert |w| == |core| && !IsWhite(w[0]) && !IsWhite(w[|w| - 1]);
    FoldedBlanks(pre, core, post);
    OnlyPlace(folded, w, |pre|, i);
    LowerAround(pre, core, post);
    hide *;
    assert folded[|pre|..|pre| + |core|] == w;
    SameFoldsAlike(core);
  }

  // Between two runs of blanks a word of the same length has one place.
  lemma OnlyPlace(folded: string, w: string, from: nat, i: nat)
    requires w != "" && !IsWhite(w[0]) && !IsWhite(w[|w| - 1]) && ContainsAt(folded, w, i)
    requires forall k | 0 <= k < from && k < |folded| :: IsWhite(folded[k])
    requires forall k | from + |w| <= k < |folded| :: IsWhite(folded[k])
    ensures i == from && from + |w| <= |folded| && folded[from..from + |w|] == w
  {
    hide IsWhite;
    assert w[0] == folded[i] && w[|w| - 1] == folded[i + |w| - 1];
  }

  lemma FoldedBlanks(pre: string, core: string, post: string)
    requires AllWhite(pre) && AllWhite(post)
    ensures var folded := AsciiLower(pre + core + post);
            && |folded| == |pre| + |core| + |post|
            && (forall k | 0 <= k < |pre| :: IsWhite(folded[k]))
            && (forall k | |pre| + |core| <= k < |folded| :: IsWhite(folded[k]))
  {
  }

  lemma SameFoldsAlike(s: string)
    requires AsciiLower(s) == Lower(s)
    ensures FoldsAlike(s)
  {
    forall i | 0 <= i < |s| ensures AsciiLowerChar(s[i]) == LowerChar(s[i]) { assert AsciiLower(s)[i] == Lower(s)[i]; }
  }

  lemma FirstLetterFound(text: string, w: string)
    requires w != "" && Contains(text, w)
    ensures w[0] in text
  {
    var i: nat :| i <= |text| && ContainsAt(text, w, i);
    assert text[i..i + |w|][0] == text[i];
  }

  /** A stop word in lower case does not catch a title in capital Cyrillic letters, which the matcher refuses. */
  lemma StopWordCanBeMissed(row: Row, c: Candidate)
    requires row.title == Some("\U{0410}\U{0420}\U{0415}\U{041D}\U{0414}\U{0410}") && row.description == None && Describes(c, row)
    ensures NoneOf([RENT_WORD], row) && !MatchesStopWords([RENT_WORD], c)
  {
    var title := row.title.value;
    assert ProfileText(row) == title + " ";
    if Contains(AsciiLower(title + " "), RENT_WORD) { FirstLetterFound(AsciiLower(title + " "), RENT_WORD); }
    if AvailableText(c, TEXT_KEYS).Some? {
      var rest := JoinedText(c, row);
      hide AvailableText, Describes;
      assert Lower(title)[0..0 + |RENT_WORD|] == RENT_WORD;
      assert ContainsAt(Lower(title), RENT_WORD, 0);
      var post := JoinStarts(row.title, None, rest);
      ContainsMore(title, post, RENT_WORD);
      assert RENT_WORD in [RENT_WORD];
    }
  }
}
