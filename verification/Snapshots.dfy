/** The canonical, hash-checked snapshot of all profiles. */
module Snapshots {
  import opened Wrappers
  import opened Texts
  import opened ParseRules

  datatype Scope = All | Single

  datatype Payload = Payload(scope: Scope, createdAt: string, windowEndAt: string, profiles: seq<Profile>)

  datatype Snapshot = Snapshot(payload: Payload, hash: string)

  /** What the model takes from the runtime: the ISO date check, and SHA-256 of the canonical JSON text. */
  datatype Runtime = Runtime(isIsoDateTime: string -> bool, digest: Payload -> string)

  predicate IsHex64(s: string) {
    |s| == 64 && forall i | 0 <= i < 64 :: '0' <= s[i] <= '9' || 'a' <= s[i] <= 'f'
  }

  ghost predicate ProperDigest(rt: Runtime) {
    forall p :: IsHex64(rt.digest(p))
  }

  // ---------- The payload ----------

  type Normalizer = Profile -> Result<Profile, Error>

  // profiles.map(f), up to the first failure.
  function MapAll(f: Normalizer, profiles: seq<Profile>): (r: Result<seq<Profile>, Error>)
    ensures r.Ok? ==> |r.value| == |profiles| && forall i | 0 <= i < |profiles| :: f(profiles[i]) == Ok(r.value[i])
    ensures r.Err? ==> exists i | 0 <= i < |profiles| :: f(profiles[i]).Err?
  {
    if profiles == [] then Ok([])
    else
      match f(profiles[0])
      case Err(e) => Err(e)
      case Ok(first) =>
        match MapAll(f, profiles[1..])
        case Err(e) => Err(e)
        case Ok(rest) => Ok([first] + rest)
  }

  function NormalizeAll(profiles: seq<Profile>): Result<seq<Profile>, Error> {
    MapAll(ProfilePayload, profiles)
  }

  // No user and no profile appears twice.
  predicate Distinct(profiles: seq<Profile>) {
    forall i, j | 0 <= i < j < |profiles| ::
      profiles[i].userId != profiles[j].userId && profiles[i].profileId != profiles[j].profileId
  }

  // The sort key; user ids alone decide because they are distinct.
  predicate ByUser(profiles: seq<Profile>) {
    forall i, j | 0 <= i < j < |profiles| :: profiles[i].userId < profiles[j].userId
  }

  function InsertProfile(p: Profile, sorted: seq<Profile>): (r: seq<Profile>)
    ensures multiset(r) == multiset{p} + multiset(sorted)
  {
    if sorted == [] then [p]
    else if SortsBefore(p, sorted[0]) then [p] + sorted
    else
      assert sorted == [sorted[0]] + sorted[1..];
      [sorted[0]] + InsertProfile(p, sorted[1..])
  }

  predicate SortsBefore(left: Profile, right: Profile) {
    || left.userId < right.userId
    || (left.userId == right.userId && left.profileId < right.profileId)
    || (left.userId == right.userId && left.profileId == right.profileId && left.version <= right.version)
  }

  function SortProfiles(profiles: seq<Profile>): (r: seq<Profile>)
    ensures multiset(r) == multiset(profiles)
  {
    if profiles == [] then []
    else
      assert profiles == [profiles[0]] + profiles[1..];
      InsertProfile(profiles[0], SortProfiles(profiles[1..]))
  }

  function SnapshotPayload(rt: Runtime, input: Payload): Result<Payload, Error> {
    if !rt.isIsoDateTime(input.createdAt) || !rt.isIsoDateTime(input.windowEndAt) then Err(TypeError) else
    match NormalizeAll(input.profiles)
    case Err(e) => Err(e)
    case Ok(profiles) =>
      if input.scope == Single && |profiles| != 1 then Err(RangeError)
      else if !Distinct(profiles) then Err(TypeError)
      else Ok(input.(profiles := SortProfiles(profiles)))
  }

  /** The duplicate check as the code runs it: one pass with the two sets of ids seen so far. */
  method CheckDuplicates(profiles: seq<Profile>) returns (ok: bool)
    ensures ok == Distinct(profiles)
  {
    var userIds: set<int>, profileIds: set<int> := {}, {};
    for k := 0 to |profiles|
      invariant Distinct(profiles[..k])
      invariant userIds == set i | 0 <= i < k :: profiles[i].userId
      invariant profileIds == set i | 0 <= i < k :: profiles[i].profileId
    {
      if profiles[k].userId in userIds || profiles[k].profileId in profileIds {
        return false;
      }
      userIds := userIds + {profiles[k].userId};
      profileIds := profileIds + {profiles[k].profileId};
      assert profiles[..k + 1] == profiles[..k] + [profiles[k]];
    }
    assert profiles[..|profiles|] == profiles;
    return true;
  }

  function CreateSnapshot(rt: Runtime, input: Payload): Result<Snapshot, Error> {
    match SnapshotPayload(rt, input)
    case Err(e) => Err(e)
    case Ok(payload) => Ok(Snapshot(payload, rt.digest(payload)))
  }

  predicate IsHexAnyCase(s: string) {
    IsHex64(Lower(s))
  }

  predicate MatchesSnapshot(rt: Runtime, snapshot: Snapshot, c: Candidate) {
    IsHexAnyCase(snapshot.hash) &&
    match SnapshotPayload(rt, snapshot.payload)
    case Err(_) => false
    case Ok(payload) =>
      Lower(snapshot.hash) == rt.digest(payload) && SomeMatches(payload.profiles, c)
  }

  // ---------- Sorting ----------

  lemma {:induction false} InsertByUser(p: Profile, sorted: seq<Profile>)
    requires ByUser(sorted) && forall q | q in sorted :: q.userId != p.userId
    ensures ByUser(InsertProfile(p, sorted))
  {
    if sorted == [] {
    } else if SortsBefore(p, sorted[0]) {
      forall q | q in sorted ensures p.userId < q.userId { assert sorted[0] in sorted; }
      FirstByUser(p, sorted);
    } else {
      var first, tail := sorted[0], sorted[1..];
      assert sorted == [first] + tail && first in sorted;
      forall q | q in tail ensures q in sorted && first.userId < q.userId {
        var i :| 0 <= i < |tail| && tail[i] == q;
        assert q == sorted[i + 1];
      }
      InsertByUser(p, tail);
      hide ByUser;
      forall q | q in InsertProfile(p, tail) ensures first.userId < q.userId {
        assert q in multiset(InsertProfile(p, tail));
        assert q == p || q in tail;
      }
      FirstByUser(first, InsertProfile(p, tail));
    }
  }

  lemma FirstByUser(p: Profile, rest: seq<Profile>)
    requires ByUser(rest) && forall q | q in rest :: p.userId < q.userId
    ensures ByUser([p] + rest)
  {
  }

  lemma {:induction false} SortedByUser(profiles: seq<Profile>)
    requires Distinct(profiles)
    ensures ByUser(SortProfiles(profiles))
  {
    if profiles != [] {
      SortedByUser(profiles[1..]);
      var sorted := SortProfiles(profiles[1..]);
      forall q | q in sorted ensures q.userId != profiles[0].userId {
        assert q in multiset(sorted);
        assert q in profiles[1..];
      }
      InsertByUser(profiles[0], sorted);
    }
  }

  /** A list without repeated users has only one order by user. */
  lemma {:induction false} ByUserUnique(a: seq<Profile>, b: seq<Profile>)
    requires ByUser(a) && ByUser(b) && multiset(a) == multiset(b)
    ensures a == b
  {
    assert |a| == |multiset(a)| == |multiset(b)| == |b|;
    if a != [] {
      SameFirst(a, b);
      WithoutFirst(a);
      WithoutFirst(b);
      ByUserUnique(a[1..], b[1..]);
    }
  }

  lemma SameFirst(a: seq<Profile>, b: seq<Profile>)
    requires ByUser(a) && ByUser(b) && multiset(a) == multiset(b) && a != [] && b != []
    ensures a[0] == b[0]
  {
    assert a[0] in multiset(a) && b[0] in multiset(b);
    assert a[0] in b && b[0] in a;
  }

  lemma WithoutFirst(a: seq<Profile>)
    requires a != []
    ensures a == [a[0]] + a[1..] && multiset(a[1..]) == multiset(a) - multiset{a[0]}
  {
    assert a == [a[0]] + a[1..];
  }

  lemma DistinctFromMultiset(a: seq<Profile>, b: seq<Profile>)
    requires multiset(a) == multiset(b) && Distinct(a)
    ensures Distinct(b)
  {
    forall i, j | 0 <= i < j < |b|
      ensures b[i].userId != b[j].userId && b[i].profileId != b[j].profileId
    {
      TwoOccurrences(a, b, i, j);
    }
  }

  lemma TwoOccurrences(a: seq<Profile>, b: seq<Profile>, i: nat, j: nat)
    requires multiset(a) == multiset(b) && Distinct(a) && i < j < |b|
    ensures b[i].userId != b[j].userId && b[i].profileId != b[j].profileId
  {
    assert b[i] in multiset(b) && b[j] in multiset(b);
    var k :| 0 <= k < |a| && a[k] == b[i];
    if b[i] == b[j] {
      Occurs(b, i, j);
      OccursOnce(a, k);
    } else {
      var l :| 0 <= l < |a| && a[l] == b[j];
    }
  }

  lemma Occurs(s: seq<Profile>, i: nat, j: nat)
    requires i < j < |s| && s[i] == s[j]
    ensures multiset(s)[s[i]] >= 2
  {
    assert s == s[..j] + [s[j]] + s[j + 1..];
    assert s[i] == s[..j][i];
    assert multiset(s[..j])[s[i]] >= 1;
  }

  lemma OccursOnce(s: seq<Profile>, k: nat)
    requires k < |s| && Distinct(s)
    ensures multiset(s)[s[k]] == 1
  {
    assert s == s[..k] + [s[k]] + s[k + 1..];
    forall i | 0 <= i < k ensures s[..k][i] != s[k] { assert s[i].userId != s[k].userId; }
    var tail := s[k + 1..];
    forall q | q in tail ensures q != s[k] {
      var i :| 0 <= i < |tail| && tail[i] == q;
      assert s[k].userId != s[k + 1 + i].userId;
    }
    assert multiset(s[..k])[s[k]] == 0 && multiset(tail)[s[k]] == 0;
  }

  // ---------- Canonicality ----------

  // b lists the profiles of a in another order, each possibly spelled differently.
  ghost predicate Reordered(a: seq<Profile>, b: seq<Profile>) {
    exists c: seq<Profile> :: |c| == |a| && (forall i | 0 <= i < |a| :: SameProfile(a[i], c[i])) && multiset(c) == multiset(b)
  }

  lemma MapSame(f: Normalizer, a: seq<Profile>, c: seq<Profile>)
    requires |c| == |a| && forall i | 0 <= i < |a| :: f(a[i]) == f(c[i])
    ensures MapAll(f, a).Ok? == MapAll(f, c).Ok?
    ensures MapAll(f, a).Ok? ==> MapAll(f, a) == MapAll(f, c)
  {
  }

  // Mapping one profile among others.
  lemma MapAround(f: Normalizer, pre: seq<Profile>, p: Profile, post: seq<Profile>)
    ensures MapAll(f, pre + [p] + post).Ok? == (MapAll(f, pre + post).Ok? && f(p).Ok?)
    ensures MapAll(f, pre + [p] + post).Ok? ==>
              multiset(MapAll(f, pre + [p] + post).value) == multiset(MapAll(f, pre + post).value) + multiset{f(p).value}
  {
    MapSingle(f, p);
    hide MapAll;
    MapSplit(f, pre, post);
    MapSplit(f, pre + [p], post);
    MapSplit(f, pre, [p]);
  }

  lemma Around(b: seq<Profile>, k: nat)
    requires k < |b|
    ensures b == b[..k] + [b[k]] + b[k + 1..]
    ensures multiset(b[..k] + b[k + 1..]) == multiset(b) - multiset{b[k]}
  {
    assert b == b[..k] + [b[k]] + b[k + 1..];
  }

  // A map commutes with reordering.
  lemma {:induction false} MapReordered(f: Normalizer, a: seq<Profile>, b: seq<Profile>)
    requires multiset(a) == multiset(b)
    ensures MapAll(f, a).Ok? == MapAll(f, b).Ok?
    ensures MapAll(f, a).Ok? ==> multiset(MapAll(f, a).value) == multiset(MapAll(f, b).value)
    decreases |a|
  {
    assert |a| == |multiset(a)| == |multiset(b)| == |b|;
    if a != [] {
      hide MapAll;
      assert a[0] in multiset(a);
      assert a[0] in multiset(b);
      var k :| 0 <= k < |b| && b[k] == a[0];
      Around(a, 0);
      Around(b, k);
      MapReordered(f, a[..0] + a[1..], b[..k] + b[k + 1..]);
      MapAround(f, a[..0], a[0], a[1..]);
      MapAround(f, b[..k], b[k], b[k + 1..]);
    } else {
      assert b == [];
    }
  }

  lemma MapSingle(f: Normalizer, p: Profile)
    ensures MapAll(f, [p]).Ok? == f(p).Ok?
    ensures MapAll(f, [p]).Ok? ==> MapAll(f, [p]).value == [f(p).value]
  {
    var one := [p];
    assert one[0] == p && one[1..] == [] && MapAll(f, []) == Ok([]);
  }

  lemma {:induction false} MapSplit(f: Normalizer, x: seq<Profile>, y: seq<Profile>)
    ensures MapAll(f, x + y).Ok? == (MapAll(f, x).Ok? && MapAll(f, y).Ok?)
    ensures MapAll(f, x + y).Ok? ==> MapAll(f, x + y).value == MapAll(f, x).value + MapAll(f, y).value
  {
    if x == [] { assert x + y == y; }
    else {
      var all := x + y;
      assert all[0] == x[0] && all[1..] == x[1..] + y;
      MapSplit(f, x[1..], y);
      if MapAll(f, all).Ok? {
        var first := [f(x[0]).value];
        assert first + (MapAll(f, x[1..]).value + MapAll(f, y).value) == (first + MapAll(f, x[1..]).value) + MapAll(f, y).value;
      }
    }
  }

  lemma NormalizeCanonical(a: seq<Profile>, b: seq<Profile>)
    requires Reordered(a, b)
    ensures NormalizeAll(a).Ok? == NormalizeAll(b).Ok?
    ensures NormalizeAll(a).Ok? ==> multiset(NormalizeAll(a).value) == multiset(NormalizeAll(b).value)
  {
    hide MapAll, SameProfile, ProfilePayload;
    var c: seq<Profile> :| |c| == |a| && (forall i | 0 <= i < |a| :: SameProfile(a[i], c[i])) && multiset(c) == multiset(b);
    forall i | 0 <= i < |a| ensures ProfilePayload(a[i]) == ProfilePayload(c[i]) {
      assert SameProfile(a[i], c[i]);
      NormalizationCanonical(a[i], c[i]);
    }
    MapSame(ProfilePayload, a, c);
    MapReordered(ProfilePayload, c, b);
  }

  /**
    The canonical payload does not depend on the order of the profiles, nor on the order, repetition,
    letter case or surrounding blanks of the words in their lists.
   */
  lemma PayloadCanonical(rt: Runtime, a: Payload, b: Payload)
    requires b == a.(profiles := b.profiles) && Reordered(a.profiles, b.profiles)
    ensures SnapshotPayload(rt, a).Ok? == SnapshotPayload(rt, b).Ok?
    ensures SnapshotPayload(rt, a).Ok? ==> SnapshotPayload(rt, a) == SnapshotPayload(rt, b)
  {
    hide NormalizeAll, SortProfiles, Distinct, Reordered;
    NormalizeCanonical(a.profiles, b.profiles);
    if NormalizeAll(a.profiles).Ok? { SameSortedProfiles(NormalizeAll(a.profiles).value, NormalizeAll(b.profiles).value); }
  }

  lemma SameSortedProfiles(m: seq<Profile>, n: seq<Profile>)
    requires multiset(m) == multiset(n)
    ensures |m| == |n| && Distinct(m) == Distinct(n)
    ensures Distinct(m) ==> SortProfiles(m) == SortProfiles(n)
  {
    assert |m| == |multiset(m)| == |multiset(n)| == |n|;
    if Distinct(n) { DistinctFromMultiset(n, m); }
    if Distinct(m) {
      DistinctFromMultiset(m, n);
      SortedByUser(m);
      SortedByUser(n);
      ByUserUnique(SortProfiles(m), SortProfiles(n));
    }
  }

  /** The canonical payload is a fixed point. */
  lemma PayloadIdempotent(rt: Runtime, input: Payload)
    requires SnapshotPayload(rt, input).Ok?
    ensures SnapshotPayload(rt, SnapshotPayload(rt, input).value) == SnapshotPayload(rt, input)
  {
    var n := NormalizeAll(input.profiles).value;
    var sorted := SortProfiles(n);
    forall i | 0 <= i < |sorted| ensures ProfilePayload(sorted[i]) == Ok(sorted[i]) {
      assert sorted[i] in multiset(sorted);
      assert sorted[i] in n;
      var j :| 0 <= j < |n| && n[j] == sorted[i];
      NormalizationIdempotent(input.profiles[j]);
    }
    assert |sorted| == |multiset(sorted)| == |multiset(n)| == |n|;
    AlreadyNormal(ProfilePayload, sorted);
    DistinctFromMultiset(n, sorted);
    SortedByUser(n);
    SortedByUser(sorted);
    ByUserUnique(SortProfiles(sorted), sorted);
  }

  lemma {:induction false} AlreadyNormal(f: Normalizer, profiles: seq<Profile>)
    requires forall i | 0 <= i < |profiles| :: f(profiles[i]) == Ok(profiles[i])
    ensures MapAll(f, profiles) == Ok(profiles)
  {
    if profiles != [] {
      AlreadyNormal(f, profiles[1..]);
      assert profiles == [profiles[0]] + profiles[1..];
    }
  }

  /**
    A snapshot that could be created passes its own hash check, and matches a candidate exactly
    when some input profile does.
   */
  lemma CreatedSnapshotMatches(rt: Runtime, input: Payload, c: Candidate)
    requires ProperDigest(rt) && CreateSnapshot(rt, input).Ok?
    ensures MatchesSnapshot(rt, CreateSnapshot(rt, input).value, c) == SomeMatches(input.profiles, c)
  {
    var s := CreateSnapshot(rt, input).value;
    PayloadIdempotent(rt, input);
    assert IsHex64(rt.digest(s.payload));
    assert Lower(s.hash) == s.hash;
    SomeProfileMatches(input.profiles, c);
    SortKeepsMatch(NormalizeAll(input.profiles).value, c);
  }

  predicate SomeMatches(profiles: seq<Profile>, c: Candidate) {
    exists p | p in profiles :: MatchesProfile(p, c)
  }

  lemma SomeProfileMatches(profiles: seq<Profile>, c: Candidate)
    requires NormalizeAll(profiles).Ok?
    ensures SomeMatches(NormalizeAll(profiles).value, c) == SomeMatches(profiles, c)
  {
    hide MatchesProfile;
    var n := NormalizeAll(profiles).value;
    forall i | 0 <= i < |n| ensures MatchesProfile(n[i], c) == MatchesProfile(profiles[i], c) {
      assert SameProfile(profiles[i], profiles[i]) by { SpelledAsItself(profiles[i]); }
      MatcherCanonical(profiles[i], profiles[i], c);
    }
    if p :| p in n && MatchesProfile(p, c) {
      var i :| 0 <= i < |n| && n[i] == p;
      assert profiles[i] in profiles;
    }
    if p :| p in profiles && MatchesProfile(p, c) {
      var i :| 0 <= i < |n| && profiles[i] == p;
      assert n[i] in n;
    }
  }

  lemma SpelledAsItself(p: Profile)
    ensures SameProfile(p, p)
  {
  }

  lemma SortKeepsMatch(profiles: seq<Profile>, c: Candidate)
    ensures SomeMatches(SortProfiles(profiles), c) == SomeMatches(profiles, c)
  {
    var sorted := SortProfiles(profiles);
    forall p ensures p in sorted <==> p in profiles {
      assert p in multiset(sorted) <==> p in multiset(profiles);
    }
  }

  /** Two snapshots of the same profiles, spelled and ordered differently, carry the same hash. */
  lemma HashCanonical(rt: Runtime, a: Payload, b: Payload)
    requires b == a.(profiles := b.profiles) && Reordered(a.profiles, b.profiles)
    ensures CreateSnapshot(rt, a).Ok? == CreateSnapshot(rt, b).Ok?
    ensures CreateSnapshot(rt, a).Ok? ==> CreateSnapshot(rt, a) == CreateSnapshot(rt, b)
  {
    PayloadCanonical(rt, a, b);
  }
}
