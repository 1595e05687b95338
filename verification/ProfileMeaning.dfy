/** What profiles, the matcher and snapshots accept, in terms of their input as given. */
module ProfileMeaning {
  import opened Wrappers
  import opened Texts
  import opened SortedSets
  import opened ParseRules
  import opened Snapshots
  import opened UserPropertyScope

  // ---------- Profiles ----------

  // The different entries of a list that are not blank, after trimming and lower-casing.
  function Entries(items: seq<string>): set<string> {
    set v | v in items && Trim(v) != "" :: Lower(Trim(v))
  }

  predicate IsShort(items: seq<string>) {
    |Entries(items)| <= 128 && forall v | v in items :: |Trim(v)| <= 256
  }

  predicate AreKnown(items: seq<string>, names: seq<string>) {
    forall v | v in items && Trim(v) != "" :: Lower(Trim(v)) in names
  }

  predicate AreIds(p: Profile) {
    1 <= p.userId <= 9007199254740991 && 1 <= p.profileId <= 9007199254740991 && 1 <= p.version <= 9007199254740991
  }

  predicate NotNegative(p: Profile) {
    && (p.priceFrom.Some? ==> p.priceFrom.value >= 0.0) && (p.priceTo.Some? ==> p.priceTo.value >= 0.0)
    && (p.areaFrom.Some? ==> p.areaFrom.value >= 0.0) && (p.areaTo.Some? ==> p.areaTo.value >= 0.0)
  }

  predicate InOrder(p: Profile) {
    && (p.priceFrom.Some? && p.priceTo.Some? ==> p.priceFrom.value <= p.priceTo.value)
    && (p.areaFrom.Some? && p.areaTo.Some? ==> p.areaFrom.value <= p.areaTo.value)
  }

  /** Which profiles are valid; a list that is too long, or bounds out of order, are range errors, all else type errors. */
  lemma ValidProfiles(p: Profile)
    ensures ProfilePayload(p).Ok? <==>
      AreIds(p) && AreKnown(p.regions, CITY_NAMES) && AreKnown(p.propertyTypes, TYPE_NAMES) && NotNegative(p) && IsShort(p.stopWords) && InOrder(p)
    ensures ProfilePayload(p) == Err(RangeError) ==>
      !IsShort(p.regions) || !IsShort(p.propertyTypes) || !IsShort(p.stopWords) || !InOrder(p)
    ensures ProfilePayload(p) == Err(TypeError) ==>
      !AreIds(p) || !AreKnown(p.regions, CITY_NAMES) || !AreKnown(p.propertyTypes, TYPE_NAMES) || !NotNegative(p)
  {
    SameNames();
    EnumMeans(p.regions, REGION_VALUES);
    EnumMeans(p.propertyTypes, PROPERTY_TYPE_VALUES);
    StringsMean(p.stopWords);
    NamesAreShort(p.regions, CITY_NAMES);
    NamesAreShort(p.propertyTypes, TYPE_NAMES);
    hide NormalizeEnumArray, NormalizeStringArray, IsShort, AreKnown;
  }

  lemma SameNames()
    ensures REGION_VALUES == CITY_NAMES && PROPERTY_TYPE_VALUES == TYPE_NAMES
    ensures |CITY_NAMES| <= 128 && forall x | x in CITY_NAMES :: |x| <= 256
    ensures |TYPE_NAMES| <= 128 && forall x | x in TYPE_NAMES :: |x| <= 256
  {
  }

  lemma EntriesSorted(items: seq<string>)
    ensures forall x :: x in SortedSet(CanonItems(items)) <==> x in Entries(items)
    ensures |SortedSet(CanonItems(items))| == |Entries(items)|
  {
    CanonItemsElements(items);
    NonEmptyCanons(items);
    var sorted := SortedSet(CanonItems(items));
    hide CanonItems, SortedSet, Trim, Lower, IsCanonOf;
    forall x ensures x in sorted <==> x in Entries(items) { assert x in sorted <==> x in CanonItems(items); }
    AscendingSize(sorted);
    assert (set x | x in sorted) == Entries(items);
  }

  lemma {:induction false} AscendingSize(s: seq<string>)
    requires Ascending(s)
    ensures |set x | x in s| == |s|
  {
    if s != [] {
      AscendingSize(s[1..]);
      assert s == [s[0]] + s[1..];
      forall i | 0 < i < |s| ensures s[i] != s[0] { StrLessTotal(s[0], s[i]); }
      assert (set x | x in s) == {s[0]} + set x | x in s[1..];
    }
  }

  lemma StringsMean(items: seq<string>)
    ensures NormalizeStringArray(items).Ok? <==> IsShort(items)
    ensures NormalizeStringArray(items).Err? ==> NormalizeStringArray(items) == Err(RangeError)
    ensures NormalizeStringArray(items).Ok? ==> forall x :: x in NormalizeStringArray(items).value <==> x in Entries(items)
  {
    EntriesSorted(items);
    var sorted := SortedSet(CanonItems(items));
    hide SortedSet, CanonItems, Trim;
    assert (forall x | x in sorted :: |x| <= 256) <==> forall v | v in items :: |Trim(v)| <= 256 by {
      forall v | v in items && Trim(v) != "" ensures Lower(Trim(v)) in sorted && |Lower(Trim(v))| == |Trim(v)| {
        assert Lower(Trim(v)) in Entries(items);
      }
    }
  }

  lemma EnumMeans(items: seq<string>, names: seq<string>)
    ensures NormalizeEnumArray(items, names).Ok? <==> IsShort(items) && AreKnown(items, names)
    ensures NormalizeEnumArray(items, names) == Err(RangeError) <==> !IsShort(items)
  {
    StringsMean(items);
    hide NormalizeStringArray, IsShort, Trim, Lower;
    if AreKnown(items, names) { assert forall x | x in Entries(items) :: x in names; }
    if !AreKnown(items, names) {
      var v :| v in items && Trim(v) != "" && Lower(Trim(v)) !in names;
      assert Lower(Trim(v)) in Entries(items);
    }
  }

  // Known names are neither long nor many.
  lemma NamesAreShort(items: seq<string>, names: seq<string>)
    requires |names| <= 128 && forall x | x in names :: |x| <= 256
    ensures AreKnown(items, names) ==> IsShort(items)
  {
    hide Trim;
    if AreKnown(items, names) {
      SetOfSeq(names);
      var all := set x | x in names;
      assert Entries(items) <= all;
      SubsetSize(Entries(items), all);
      forall v | v in items ensures |Trim(v)| <= 256 {
        if Trim(v) != "" { assert |Lower(Trim(v))| == |Trim(v)|; }
      }
    }
  }

  lemma SubsetSize(a: set<string>, b: set<string>)
    requires a <= b
    ensures |a| <= |b|
  {
    assert b == a + (b - a);
  }

  lemma {:induction false} SetOfSeq(s: seq<string>)
    ensures |set x | x in s| <= |s|
  {
    if s != [] {
      SetOfSeq(s[1..]);
      assert s == [s[0]] + s[1..];
      assert (set x | x in s) == {s[0]} + set x | x in s[1..];
    }
  }

  // ---------- The matcher ----------

  // The first of two fields with a value.
  function Either(c: Candidate, one: string, other: string): Field {
    if one in c && c[one] != Field.Missing then c[one]
    else if other in c && c[other] != Field.Missing then c[other]
    else Field.Missing
  }

  // An unknown value suits; a text suits by its trimmed lower case; anything else does not. An empty list suits nothing.
  predicate NameSuits(items: seq<string>, field: Field) {
    && HasEntry(items)
    && match field
       case Missing => true
       case Str(s) => InList(items, Some(Lower(Trim(s))))
       case Num(_) => false
       case Other => false
  }

  predicate NumberSuits(from: Option<real>, to: Option<real>, field: Field) {
    match field
    case Missing => true
    case Num(n) => 0.0 <= n && (from.Some? ==> from.value <= n) && (to.Some? ==> n <= to.value)
    case Str(_) => false
    case Other => false
  }

  const TEXT_FIELDS := ["title", "description", "address", "excerpt", "text", "body", "content", "details"]

  // Every text field that is there is text, and the texts joined by spaces contain no stop word.
  predicate TextSuits(words: seq<string>, c: Candidate) {
    && AvailableText(c, TEXT_FIELDS).Some?
    && forall w | w in words && Trim(w) != "" :: !Contains(Lower(Join(AvailableText(c, TEXT_FIELDS).value)), Lower(Trim(w)))
  }

  const RENT := "\U{0430}\U{0440}\U{0435}\U{043D}\U{0434}"

  /** The matcher admits a candidate exactly if the profile is valid and every part of it, as given, suits. */
  lemma MatchingIs(p: Profile, c: Candidate)
    ensures MatchesProfile(p, c) <==>
      && ProfilePayload(p).Ok?
      && NameSuits(p.regions, Either(c, "region", "city")) && NameSuits(p.propertyTypes, Either(c, "propertyType", "property_type"))
      && NumberSuits(p.priceFrom, p.priceTo, Either(c, "price", "minimum_price"))
      && NumberSuits(p.areaFrom, p.areaTo, Either(c, "area_sqm", "area"))
      && TextSuits(p.stopWords, c)
      && (p.filterRent == Some(true) ==> !Contains(Lower(Join(AvailableText(c, TEXT_FIELDS).value)), RENT))
  {
    if ProfilePayload(p).Ok? {
      var n := ProfilePayload(p).value;
      PayloadLists(p);
      EitherIs(c, "region", "city");
      EitherIs(c, "propertyType", "property_type");
      EitherIs(c, "price", "minimum_price");
      EitherIs(c, "area_sqm", "area");
      NameMeans(p.regions, n.regions, c, ["region", "city"], Either(c, "region", "city"));
      NameMeans(p.propertyTypes, n.propertyTypes, c, ["propertyType", "property_type"], Either(c, "propertyType", "property_type"));
      TextMeans(p.stopWords, n.stopWords, c);
      RentMeans(c);
      assert n.filterRent == p.filterRent;
      hide NameSuits, NumberSuits, TextSuits, MatchesEnum, MatchesStopWords, Either, CandidateValue, ProfilePayload, CanonItems, Contains,
        AvailableText, Join, Lower;
      RangeMeans(p.priceFrom, p.priceTo, c, ["price", "minimum_price"], Either(c, "price", "minimum_price"));
      RangeMeans(p.areaFrom, p.areaTo, c, ["area_sqm", "area"], Either(c, "area_sqm", "area"));
      hide MatchesRange;
    }
  }

  lemma EitherIs(c: Candidate, one: string, other: string)
    ensures CandidateValue(c, [one, other]) == Either(c, one, other)
  {
    var keys := [one, other];
    assert keys[0] == one && keys[1..] == [other] && [other][1..] == [];
    assert CandidateValue(c, [other]) == if Present(c, other) then c[other] else CandidateValue(c, [other][1..]);
  }

  lemma NameMeans(items: seq<string>, list: seq<string>, c: Candidate, keys: seq<string>, field: Field)
    requires (forall x :: x in list <==> x in CanonItems(items)) && CandidateValue(c, keys) == field
    ensures MatchesEnum(list, c, keys) <==> NameSuits(items, field)
  {
    if field.Str? { ListMeans(items, list, Some(Canon(field.s))); }
    CanonItemsElements(items);
    NonEmptyCanons(items);
    hide CanonItems, Trim, Lower, IsCanonOf, InList, CandidateValue;
    if list != [] { assert list[0] in list; }
    if HasEntry(items) {
      var v :| v in items && Trim(v) != "";
      assert Lower(Trim(v)) in list;
    }
  }

  lemma RangeMeans(from: Option<real>, to: Option<real>, c: Candidate, keys: seq<string>, field: Field)
    requires CandidateValue(c, keys) == field
    ensures MatchesRange(from, to, c, keys) <==> NumberSuits(from, to, field)
  {
  }

  lemma TextMeans(items: seq<string>, list: seq<string>, c: Candidate)
    requires forall x :: x in list <==> x in CanonItems(items)
    ensures MatchesStopWords(list, c) <==> TextSuits(items, c)
  {
    assert TEXT_KEYS == TEXT_FIELDS;
    CanonItemsElements(items);
    NonEmptyCanons(items);
    hide CanonItems, Trim, Lower, IsCanonOf, Contains, AvailableText, Join;
  }

  lemma RentMeans(c: Candidate)
    ensures AvailableText(c, TEXT_FIELDS).Some? ==>
      (MatchesStopWords([RENT_WORD], c) <==> !Contains(Lower(Join(AvailableText(c, TEXT_FIELDS).value)), RENT))
  {
    assert TEXT_KEYS == TEXT_FIELDS && RENT_WORD == RENT;
    hide Lower, Contains, AvailableText, Join;
    assert forall w :: w in [RENT_WORD] <==> w == RENT;
  }

  // ---------- Snapshots ----------

  // 64 characters, each 0 to 9 or a to f by its code.
  predicate IsDigest(s: string) {
    |s| == 64 && forall i | 0 <= i < 64 :: 48 <= s[i] as int <= 57 || 97 <= s[i] as int <= 102
  }

  /** Which snapshots have a payload. */
  lemma ValidSnapshots(rt: Runtime, input: Payload)
    ensures SnapshotPayload(rt, input).Ok? <==>
      && rt.isIsoDateTime(input.createdAt) && rt.isIsoDateTime(input.windowEndAt)
      && (forall p | p in input.profiles :: ProfilePayload(p).Ok?)
      && (input.scope == Single ==> |input.profiles| == 1)
      && forall i, j | 0 <= i < j < |input.profiles| ::
           input.profiles[i].userId != input.profiles[j].userId && input.profiles[i].profileId != input.profiles[j].profileId
  {
    AllNormal(input.profiles);
    if NormalizeAll(input.profiles).Ok? {
      var n := NormalizeAll(input.profiles).value;
      forall i | 0 <= i < |n| ensures n[i].userId == input.profiles[i].userId && n[i].profileId == input.profiles[i].profileId {
        IdsKept(input.profiles[i]);
      }
    }
    hide ProfilePayload, SortProfiles;
  }

  lemma IdsKept(p: Profile)
    ensures ProfilePayload(p).Ok? ==> ProfilePayload(p).value.userId == p.userId && ProfilePayload(p).value.profileId == p.profileId
  {
  }

  lemma AllNormal(profiles: seq<Profile>)
    ensures NormalizeAll(profiles).Ok? <==> forall p | p in profiles :: ProfilePayload(p).Ok?
  {
    hide ProfilePayload;
    var r := NormalizeAll(profiles);
    if r.Ok? {
      forall p | p in profiles ensures ProfilePayload(p).Ok? {
        var i :| 0 <= i < |profiles| && profiles[i] == p;
        assert ProfilePayload(profiles[i]) == Ok(r.value[i]);
      }
    } else {
      var i :| 0 <= i < |profiles| && ProfilePayload(profiles[i]).Err?;
      assert profiles[i] in profiles;
    }
  }

  /**
    A snapshot matches a candidate exactly if its hash is a digest in either case and that of its canonical payload, and
    some profile of the payload matches; one without a payload matches nothing.
   */
  lemma SnapshotMatchingIs(rt: Runtime, snapshot: Snapshot, c: Candidate)
    ensures MatchesSnapshot(rt, snapshot, c) <==>
      && IsDigest(Lower(snapshot.hash)) && SnapshotPayload(rt, snapshot.payload).Ok?
      && rt.digest(SnapshotPayload(rt, snapshot.payload).value) == Lower(snapshot.hash)
      && exists p | p in SnapshotPayload(rt, snapshot.payload).value.profiles :: MatchesProfile(p, c)
  {
    hide SnapshotPayload, MatchesProfile;
    assert IsHex64(Lower(snapshot.hash)) <==> IsDigest(Lower(snapshot.hash));
  }
}
