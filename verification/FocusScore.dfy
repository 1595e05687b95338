/** Scoring a property by the focus rules, and the batch over all properties. */
module FocusScore {
  import opened Wrappers
  import opened FocusConditions

  datatype Rule = Rule(condition: Condition, score: real, tag: string, isActive: bool, priority: int)

  datatype Property = Property(id: int, focusScore: Option<real>, tags: seq<string>, fields: Fields)

  // A property as it is scored.
  datatype Subject = Subject(property: Property, rt: Runtime)

  datatype Event = ScoreChanged(oldScore: real, newScore: real) | EnteredFocus(tag: string) | LeftFocus(tag: string)

  datatype Score = Score(score: real, tags: seq<string>, events: seq<Event>)

  // ---------- Reference: what a score is ----------

  predicate Deviates(r: Rule) { r.condition.DeviationThreshold? }

  predicate Counts(r: Rule, p: Subject) { r.isActive && Holds(p.rt, r.condition, p.property.fields) }

  function SumOthers(rules: seq<Rule>, p: Subject): real {
    if rules == [] then 0.0
    else (if Counts(rules[0], p) && !Deviates(rules[0]) then rules[0].score else 0.0) + SumOthers(rules[1..], p)
  }

  // Of the deviation rules that count, the last of those with the greatest priority number.
  function Better(best: Option<Rule>, r: Rule, p: Subject): Option<Rule> {
    if !Counts(r, p) || !Deviates(r) then best
    else if best.Some? && best.value.priority > r.priority then best
    else Some(r)
  }

  function BestDeviation(best: Option<Rule>, rules: seq<Rule>, p: Subject): Option<Rule>
    decreases |rules|
  {
    if rules == [] then best else BestDeviation(Better(best, rules[0], p), rules[1..], p)
  }

  function ScoreOf(rules: seq<Rule>, p: Subject): real {
    var best := BestDeviation(None, rules, p);
    SumOthers(rules, p) + if best.Some? then best.value.score else 0.0
  }

  // A rule whose tag the property gets.
  predicate Tags(r: Rule, rules: seq<Rule>, p: Subject) {
    Counts(r, p) && (!Deviates(r) || BestDeviation(None, rules, p) == Some(r))
  }

  // ---------- Sorting by priority ----------

  function Insert(x: Rule, s: seq<Rule>): seq<Rule> {
    if s == [] || x.priority <= s[0].priority then [x] + s else [s[0]] + Insert(x, s[1..])
  }

  // rules.filter(is_active).sort(by priority), stable.
  function SortedActive(rules: seq<Rule>): seq<Rule> {
    if rules == [] then []
    else if rules[0].isActive then Insert(rules[0], SortedActive(rules[1..]))
    else SortedActive(rules[1..])
  }

  predicate Ascending(s: seq<Rule>) {
    forall i, j | 0 <= i < j < |s| :: s[i].priority <= s[j].priority
  }

  lemma {:induction false} InsertFacts(x: Rule, s: seq<Rule>, p: Subject)
    requires Ascending(s)
    ensures Ascending(Insert(x, s))
    ensures forall r :: r in Insert(x, s) <==> r == x || r in s
    ensures SumOthers(Insert(x, s), p) == SumOthers([x] + s, p)
    ensures forall best :: BestDeviation(best, Insert(x, s), p) == BestDeviation(best, [x] + s, p)
  {
    if s == [] || x.priority <= s[0].priority {
    } else {
      var first, rest := s[0], s[1..];
      InsertFacts(x, rest, p);
      assert s == [first] + rest;
      var inserted := Insert(x, rest);
      assert Insert(x, s) == [first] + inserted;
      assert forall i | 0 <= i < |inserted| :: inserted[i] in inserted;
      Unfold(first, inserted, p);
      Unfold(x, s, p);
      Unfold(first, rest, p);
      Unfold(x, rest, p);
      hide SumOthers, BestDeviation, Insert;
      forall best ensures BestDeviation(best, [first] + inserted, p) == BestDeviation(best, [x] + s, p) {
        BetterSwaps(best, first, x, p);
      }
    }
  }

  lemma Unfold(x: Rule, s: seq<Rule>, p: Subject)
    ensures SumOthers([x] + s, p) == (if Counts(x, p) && !Deviates(x) then x.score else 0.0) + SumOthers(s, p)
    ensures forall best :: BestDeviation(best, [x] + s, p) == BestDeviation(Better(best, x, p), s, p)
  {
    assert ([x] + s)[1..] == s;
  }

  // A rule of lower priority number may be seen before or after.
  lemma BetterSwaps(best: Option<Rule>, low: Rule, high: Rule, p: Subject)
    requires low.priority < high.priority
    ensures Better(Better(best, low, p), high, p) == Better(Better(best, high, p), low, p)
  {
  }

  lemma {:induction false} SortedFacts(rules: seq<Rule>, p: Subject)
    ensures Ascending(SortedActive(rules))
    ensures forall r :: r in SortedActive(rules) <==> r in rules && r.isActive
    ensures SumOthers(SortedActive(rules), p) == SumOthers(rules, p)
    ensures forall best :: BestDeviation(best, SortedActive(rules), p) == BestDeviation(best, rules, p)
  {
    if rules != [] {
      var first, rest := rules[0], rules[1..];
      SortedFacts(rest, p);
      assert rules == [first] + rest;
      Unfold(first, rest, p);
      if first.isActive {
        InsertFacts(first, SortedActive(rest), p);
        Unfold(first, SortedActive(rest), p);
      }
      hide SumOthers, BestDeviation, Insert;
    }
  }

  // ---------- Scoring ----------

  predicate NoRepeats(tags: seq<string>) {
    forall i, j | 0 <= i < j < |tags| :: tags[i] != tags[j]
  }

  function AddTag(tags: seq<string>, tag: string): seq<string> {
    if tag in tags then tags else tags + [tag]
  }

  lemma {:induction false} ExtendBest(best: Option<Rule>, s: seq<Rule>, r: Rule, p: Subject)
    decreases |s|
    ensures BestDeviation(best, s + [r], p) == Better(BestDeviation(best, s, p), r, p)
    ensures SumOthers(s + [r], p) == SumOthers(s, p) + if Counts(r, p) && !Deviates(r) then r.score else 0.0
  {
    var all := s + [r];
    if s == [] {
      assert all == [r] && all[1..] == [];
    } else {
      assert all[0] == s[0] && all[1..] == s[1..] + [r];
      ExtendBest(Better(best, s[0], p), s[1..], r, p);
    }
  }

  predicate AllMatching(s: seq<Rule>, p: Subject) {
    forall i | 0 <= i < |s| :: Counts(s[i], p) && Deviates(s[i])
  }

  // matchingDeviation.reduce((a, b) => a.priority > b.priority ? a : b)
  method Reduce(matching: seq<Rule>, p: Subject) returns (best: Rule)
    requires matching != [] && AllMatching(matching, p)
    ensures BestDeviation(None, matching, p) == Some(best)
    ensures best in matching
  {
    best := matching[0];
    assert matching[..1] == [] + [best];
    ExtendBest(None, [], best, p);
    for k := 1 to |matching|
      invariant BestDeviation(None, matching[..k], p) == Some(best) && best in matching
    {
      assert matching[..k + 1] == matching[..k] + [matching[k]];
      ExtendBest(None, matching[..k], matching[k], p);
      best := if best.priority > matching[k].priority then best else matching[k];
    }
    assert matching[..|matching|] == matching;
  }

  // The loop over the sorted rules: the rules other than deviation thresholds count at once.
  method FoldRules(sorted: seq<Rule>, p: Subject) returns (score: real, tags: seq<string>, matching: seq<Rule>)
    requires forall i | 0 <= i < |sorted| :: sorted[i].isActive
    ensures score == SumOthers(sorted, p) && BestDeviation(None, matching, p) == BestDeviation(None, sorted, p)
    ensures AllMatching(matching, p) && forall r | r in matching :: r in sorted
    ensures NoRepeats(tags) && forall tag :: tag in tags <==> TaggedBy(sorted, p, tag)
    ensures InFirstOrder(sorted, p, tags)
  {
    score, tags, matching := 0.0, [], [];
    for k := 0 to |sorted|
      invariant score == SumOthers(sorted[..k], p) && BestDeviation(None, matching, p) == BestDeviation(None, sorted[..k], p)
      invariant AllMatching(matching, p) && forall r | r in matching :: r in sorted
      invariant NoRepeats(tags) && forall tag :: tag in tags <==> TaggedBy(sorted[..k], p, tag)
      invariant InFirstOrder(sorted, p, tags)
    {
      var rule := sorted[k];
      assert sorted[..k + 1] == sorted[..k] + [rule];
      ExtendBest(None, sorted[..k], rule, p);
      ExtendBest(None, matching, rule, p);
      ExtendTagged(sorted[..k], rule, p);
      hide SumOthers, BestDeviation, TaggedBy;
      var matched := Matches(p.rt, rule.condition, p.property.fields);
      if Deviates(rule) && matched { matching := matching + [rule]; }
      if !Deviates(rule) && matched {
        score := score + rule.score;
        if rule.tag !in tags { OneTagMore(sorted, p, tags, rule.tag, k); }
        tags := AddTag(tags, rule.tag);
      }
    }
    assert sorted[..|sorted|] == sorted;
  }

  // An earlier tag is given by a rule that comes before every rule with the later tag.
  predicate InFirstOrder(sorted: seq<Rule>, p: Subject, tags: seq<string>) {
    forall i, j | 0 <= i < j < |tags| :: GivenBefore(sorted, p, tags[i], tags[j])
  }

  predicate GivenBefore(sorted: seq<Rule>, p: Subject, one: string, other: string) {
    exists m | 0 <= m <= |sorted| :: TaggedBy(sorted[..m], p, one) && !TaggedBy(sorted[..m], p, other)
  }

  lemma OneTagMore(sorted: seq<Rule>, p: Subject, tags: seq<string>, tag: string, k: nat)
    requires k <= |sorted| && InFirstOrder(sorted, p, tags) && tag !in tags
    requires forall t :: t in tags <==> TaggedBy(sorted[..k], p, t)
    ensures InFirstOrder(sorted, p, tags + [tag])
  {
    hide TaggedBy;
    var all := tags + [tag];
    forall i, j | 0 <= i < j < |all| ensures GivenBefore(sorted, p, all[i], all[j]) {
      if j < |tags| { assert GivenBefore(sorted, p, tags[i], tags[j]); }
      else { assert tags[i] in tags && TaggedBy(sorted[..k], p, all[i]) && !TaggedBy(sorted[..k], p, all[j]); }
    }
  }

  predicate HasTag(rules: seq<Rule>, p: Subject, tag: string) {
    exists r | r in rules && Tags(r, rules, p) :: r.tag == tag
  }

  /** The score is that of the rules however they are listed; the tags are those of the rules that count, each once. */
  method RateProperty(p: Subject, rules: seq<Rule>) returns (score: real, tags: seq<string>)
    ensures score == ScoreOf(rules, p)
    ensures NoRepeats(tags) && forall tag :: tag in tags <==> HasTag(rules, p, tag)
    // By priority of the rules that give them, with the tag of the deciding deviation rule at the end, if it is new.
    ensures exists first :: InFirstOrder(SortedActive(rules), p, first) && (tags == first || (tags != [] && tags == first + [tags[|tags| - 1]]
              && BestDeviation(None, rules, p).Some? && tags[|tags| - 1] == BestDeviation(None, rules, p).value.tag))
  {
    var sorted := SortedActive(rules);
    SortedFacts(rules, p);
    assert forall i | 0 <= i < |sorted| :: sorted[i] in sorted;
    var matching;
    score, tags, matching := FoldRules(sorted, p);
    ghost var first := tags;
    ghost var best := BestDeviation(None, rules, p);
    if matching != [] {
      var r := Reduce(matching, p);
      score := score + r.score;
      tags := AddTag(tags, r.tag);
    }
    assert matching == [] ==> best == None;
    hide SumOthers, BestDeviation, TaggedBy, SortedActive, Ascending, HasTag, Tags;
    assert tags == first || (tags == first + [tags[|tags| - 1]] && best.Some? && tags[|tags| - 1] == best.value.tag);
    forall tag ensures tag in tags <==> HasTag(rules, p, tag) {
      TaggedIsTags(rules, sorted, best, p, tag);
    }
  }

  predicate TaggedBy(s: seq<Rule>, p: Subject, tag: string) {
    exists r | r in s :: Counts(r, p) && !Deviates(r) && r.tag == tag
  }

  lemma ExtendTagged(s: seq<Rule>, r: Rule, p: Subject)
    ensures forall tag :: TaggedBy(s + [r], p, tag) <==> TaggedBy(s, p, tag) || (Counts(r, p) && !Deviates(r) && r.tag == tag)
  {
    var all := s + [r];
    assert forall x :: x in all <==> x in s || x == r;
  }

  lemma TaggedIsTags(rules: seq<Rule>, sorted: seq<Rule>, best: Option<Rule>, p: Subject, tag: string)
    requires forall r :: r in sorted <==> r in rules && r.isActive
    requires best == BestDeviation(None, rules, p)
    requires best.Some? ==> best.value in sorted && Counts(best.value, p) && Deviates(best.value)
    ensures (TaggedBy(sorted, p, tag) || (best.Some? && best.value.tag == tag)) <==> HasTag(rules, p, tag)
  {
    if TaggedBy(sorted, p, tag) {
      var r :| r in sorted && Counts(r, p) && !Deviates(r) && r.tag == tag;
      assert Tags(r, rules, p);
    }
    if best.Some? && best.value.tag == tag { assert Tags(best.value, rules, p); }
  }

  // ---------- Events ----------

  function Absent(tags: seq<string>, others: seq<string>): (r: seq<string>)
    ensures forall t :: t in r <==> t in tags && t !in others
  {
    if tags == [] then []
    else
      assert tags == [tags[0]] + tags[1..];
      (if tags[0] in others then [] else [tags[0]]) + Absent(tags[1..], others)
  }

  function Entered(tags: seq<string>): (r: seq<Event>)
    ensures |r| == |tags| && forall i | 0 <= i < |tags| :: r[i] == EnteredFocus(tags[i])
  {
    seq(|tags|, i requires 0 <= i < |tags| => EnteredFocus(tags[i]))
  }

  function Left(tags: seq<string>): (r: seq<Event>)
    ensures |r| == |tags| && forall i | 0 <= i < |tags| :: r[i] == LeftFocus(tags[i])
  {
    seq(|tags|, i requires 0 <= i < |tags| => LeftFocus(tags[i]))
  }

  function OldScore(p: Property): real { if p.focusScore.Some? then p.focusScore.value else 0.0 }

  // The score and tags of the rules, with events that tell the change.
  ghost predicate IsScore(p: Property, rules: seq<Rule>, rt: Runtime, result: Score) {
    && result.score == ScoreOf(rules, Subject(p, rt)) && NoRepeats(result.tags)
    && (forall tag :: tag in result.tags <==> HasTag(rules, Subject(p, rt), tag))
    && EventsTell(p, result)
  }

  method ScoreProperty(p: Property, rules: seq<Rule>, rt: Runtime) returns (result: Score)
    ensures IsScore(p, rules, rt, result)
  {
    var score, tags := RateProperty(Subject(p, rt), rules);
    hide HasTag, ScoreOf, EventsTell, NoRepeats;
    var events := MakeEvents(p, score, tags);
    result := Score(score, tags, events);
  }

  method MakeEvents(p: Property, score: real, tags: seq<string>) returns (events: seq<Event>)
    ensures EventsTell(p, Score(score, tags, events))
  {
    events := [];
    var tagsChanged := multiset(p.tags) != multiset(tags);
    if score != OldScore(p) { events := [ScoreChanged(OldScore(p), score)]; }
    ghost var scoreEvents := events;
    if tagsChanged {
      events := events + Entered(Absent(tags, p.tags));
      events := events + Left(Absent(p.tags, tags));
      ChangeTold(scoreEvents, p.tags, tags);
    } else {
      SameTags(p.tags, tags);
    }
  }

  function TagSet(tags: seq<string>): set<string> { set t | t in tags }

  // What a reader of the events makes of the tags.
  function Replayed(tags: set<string>, events: seq<Event>): set<string>
    decreases |events|
  {
    if events == [] then tags
    else match events[0]
      case EnteredFocus(t) => Replayed(tags + {t}, events[1..])
      case LeftFocus(t) => Replayed(tags - {t}, events[1..])
      case ScoreChanged(_, _) => Replayed(tags, events[1..])
  }

  // The events turn the old tags into the new, and tell of a changed score exactly when it has changed.
  ghost predicate EventsTell(p: Property, result: Score) {
    && Replayed(TagSet(p.tags), result.events) == TagSet(result.tags)
    && (forall old', new' :: ScoreChanged(old', new') in result.events <==>
          old' == (if p.focusScore.Some? then p.focusScore.value else 0.0) && new' == result.score && old' != new')
  }

  lemma {:induction false} ReplayAppend(tags: set<string>, a: seq<Event>, b: seq<Event>)
    ensures Replayed(tags, a + b) == Replayed(Replayed(tags, a), b)
    decreases |a|
  {
    if a == [] { assert a + b == b; }
    else {
      assert (a + b)[0] == a[0] && (a + b)[1..] == a[1..] + b;
      match a[0]
      case EnteredFocus(t) => ReplayAppend(tags + {t}, a[1..], b);
      case LeftFocus(t) => ReplayAppend(tags - {t}, a[1..], b);
      case ScoreChanged(_, _) => ReplayAppend(tags, a[1..], b);
    }
  }

  lemma {:induction false} ReplayEntered(tags: set<string>, entered: seq<string>)
    ensures Replayed(tags, Entered(entered)) == tags + TagSet(entered)
    decreases |entered|
  {
    if entered != [] {
      assert Entered(entered)[1..] == Entered(entered[1..]);
      ReplayEntered(tags + {entered[0]}, entered[1..]);
      assert TagSet(entered) == {entered[0]} + TagSet(entered[1..]) by { assert entered == [entered[0]] + entered[1..]; }
    }
  }

  lemma {:induction false} ReplayLeft(tags: set<string>, left: seq<string>)
    ensures Replayed(tags, Left(left)) == tags - TagSet(left)
    decreases |left|
  {
    if left != [] {
      assert Left(left)[1..] == Left(left[1..]);
      ReplayLeft(tags - {left[0]}, left[1..]);
      assert TagSet(left) == {left[0]} + TagSet(left[1..]) by { assert left == [left[0]] + left[1..]; }
    }
  }

  lemma ChangeTold(scoreEvents: seq<Event>, old': seq<string>, new': seq<string>)
    requires scoreEvents == [] || (|scoreEvents| == 1 && scoreEvents[0].ScoreChanged?)
    ensures Replayed(TagSet(old'), scoreEvents + Entered(Absent(new', old')) + Left(Absent(old', new'))) == TagSet(new')
  {
    ReplayAppend(TagSet(old'), scoreEvents + Entered(Absent(new', old')), Left(Absent(old', new')));
    ReplayAppend(TagSet(old'), scoreEvents, Entered(Absent(new', old')));
    assert Replayed(TagSet(old'), scoreEvents) == TagSet(old') by {
      if scoreEvents != [] { assert scoreEvents[1..] == []; }
    }
    ReplayEntered(TagSet(old'), Absent(new', old'));
    ReplayLeft(TagSet(old') + TagSet(Absent(new', old')), Absent(old', new'));
  }

  lemma SameTags(old': seq<string>, new': seq<string>)
    requires multiset(old') == multiset(new')
    ensures TagSet(old') == TagSet(new')
  {
    forall t ensures t in old' <==> t in new' { assert t in multiset(old') <==> t in multiset(new'); }
  }

  // ---------- The batch ----------

  const BATCH := 200

  // A property of a page, with the score that a second query finds stored for it: None when its row is gone by then.
  datatype Candidate = Candidate(p: Property, current: Option<Option<real>>)

  // Events are only written for a property whose stored score differs.
  function Recorded(x: Candidate, result: Score): seq<Event> {
    if Differs(x, result) then result.events else []
  }

  predicate Differs(x: Candidate, result: Score) { x.current.Some? && x.current.value != Some(result.score) }

  /**
    The written events tell the change of tags if and only if the stored score differs or the tags are the same:
    a change of tags at an equal score leaves no event.
   */
  lemma RecordedEventsTell(x: Candidate, result: Score)
    requires EventsTell(x.p, result)
    ensures Replayed(TagSet(x.p.tags), Recorded(x, result)) == TagSet(result.tags)
      <==> Differs(x, result) || TagSet(x.p.tags) == TagSet(result.tags)
  {
  }

  function CountTag(results: seq<Score>, tag: string): nat {
    if results == [] then 0 else CountTag(results[..|results| - 1], tag) + if tag in results[|results| - 1].tags then 1 else 0
  }

  function CountInFocus(results: seq<Score>, minScore: real): nat {
    if results == [] then 0
    else CountInFocus(results[..|results| - 1], minScore) + if results[|results| - 1].score >= minScore then 1 else 0
  }

  predicate TagCounts(byTag: map<string, nat>, results: seq<Score>) {
    && (forall tag | tag in byTag :: byTag[tag] == CountTag(results, tag) > 0)
    && (forall k | 0 <= k < |results| :: forall tag | tag in results[k].tags :: tag in byTag)
  }

  // byTag[tag] = (byTag[tag] || 0) + 1, for each tag
  method AddTags(byTag: map<string, nat>, tags: seq<string>) returns (after: map<string, nat>)
    requires NoRepeats(tags)
    ensures after.Keys == byTag.Keys + TagSet(tags)
    ensures forall tag | tag in after :: after[tag] == (if tag in byTag then byTag[tag] else 0) + if tag in tags then 1 else 0
  {
    after := byTag;
    for k := 0 to |tags|
      invariant after.Keys == byTag.Keys + TagSet(tags[..k])
      invariant forall tag | tag in after ::
        after[tag] == (if tag in byTag then byTag[tag] else 0) + if tag in tags[..k] then 1 else 0
    {
      var tag := tags[k];
      assert tags[..k + 1] == tags[..k] + [tag];
      after := after[tag := (if tag in after then after[tag] else 0) + 1];
    }
    assert tags[..|tags|] == tags;
  }

  lemma NextTagCounts(byTag: map<string, nat>, after: map<string, nat>, results: seq<Score>, result: Score)
    requires TagCounts(byTag, results)
    requires after.Keys == byTag.Keys + TagSet(result.tags)
    requires forall tag | tag in after :: after[tag] == (if tag in byTag then byTag[tag] else 0) + if tag in result.tags then 1 else 0
    ensures TagCounts(after, results + [result])
  {
    var all := results + [result];
    assert all[..|all| - 1] == results;
    forall tag | tag in after ensures after[tag] == CountTag(all, tag) > 0 {
      if tag !in byTag { Untagged(byTag, results, tag); }
    }
  }

  lemma {:induction false} Untagged(byTag: map<string, nat>, results: seq<Score>, tag: string)
    requires tag !in byTag && forall k | 0 <= k < |results| :: forall t | t in results[k].tags :: t in byTag
    ensures CountTag(results, tag) == 0
  {
    if results != [] { Untagged(byTag, results[..|results| - 1], tag); }
  }

  datatype Batch = Batch(results: seq<Score>, written: seq<seq<Event>>, inFocus: nat, byTag: map<string, nat>)

  // What the batch has when these properties are done.
  ghost predicate BatchOk(done: seq<Candidate>, rules: seq<Rule>, rt: Runtime, minScore: real, b: Batch) {
    && |b.results| == |b.written| == |done|
    && (forall k | 0 <= k < |done| :: IsScore(done[k].p, rules, rt, b.results[k]) && b.written[k] == Recorded(done[k], b.results[k]))
    && b.inFocus == CountInFocus(b.results, minScore) && TagCounts(b.byTag, b.results)
  }

  method ScoreOne(x: Candidate, rules: seq<Rule>, rt: Runtime, minScore: real, b: Batch, ghost done: seq<Candidate>) returns (after: Batch)
    requires BatchOk(done, rules, rt, minScore, b)
    ensures BatchOk(done + [x], rules, rt, minScore, after)
  {
    var result := ScoreProperty(x.p, rules, rt);
    IsScoreDistinct(x.p, rules, rt, result);
    hide IsScore, Recorded, CountTag, TagCounts;
    var byTag := AddTags(b.byTag, result.tags);
    NextTagCounts(b.byTag, byTag, b.results, result);
    assert (b.results + [result])[..|b.results|] == b.results;
    after := Batch(b.results + [result], b.written + [Recorded(x, result)],
      if result.score >= minScore then b.inFocus + 1 else b.inFocus, byTag);
  }

  lemma IsScoreDistinct(p: Property, rules: seq<Rule>, rt: Runtime, result: Score)
    requires IsScore(p, rules, rt, result)
    ensures NoRepeats(result.tags)
  {
  }

  const MAX_RULES := 100

  // The query for the rules: active, by priority, at most 100.
  function ActiveRules(all: seq<Rule>): seq<Rule> {
    var sorted := SortedActive(all);
    if |sorted| <= MAX_RULES then sorted else sorted[..MAX_RULES]
  }

  const NothingScored := Batch([], [], 0, map[])

  // What the query for each page selects before its LIMIT and OFFSET, in ascending order of ids: other processes may
  // insert and delete between the queries.
  type Selections = nat -> seq<Candidate>

  function PageAt(at: Selections, k: nat): seq<Candidate> {
    at(k)[Clip(k * BATCH, at(k))..Clip((k + 1) * BATCH, at(k))]
  }

  // What the first n pages hold.
  function Visited(at: Selections, n: nat): seq<Candidate> {
    if n == 0 then [] else Visited(at, n - 1) + PageAt(at, n - 1)
  }

  // The loop ends after the first page that is not full.
  ghost predicate EndsAfter(at: Selections, n: nat) {
    n >= 1 && |PageAt(at, n - 1)| < BATCH && forall k | 0 <= k < n - 1 :: |PageAt(at, k)| == BATCH
  }

  /**
    Without active rules nothing is scored. Otherwise every candidate on the n pages read is scored, in order, and counted
    once for the focus and for each of its tags. The table never holds more than `bound` rows.
   */
  method ScoreBatch(at: Selections, ghost bound: nat, all: seq<Rule>, rt: Runtime, minScore: real) returns (b: Batch, ghost n: nat)
    requires forall k: nat :: |at(k)| <= bound
    ensures (forall r | r in all :: !r.isActive) ==> b == NothingScored
    ensures (exists r | r in all :: r.isActive) ==> EndsAfter(at, n) && BatchOk(Visited(at, n), ActiveRules(all), rt, minScore, b)
  {
    var rules := ActiveRules(all);
    SomeActive(all);
    n := 0;
    if |rules| == 0 { return NothingScored, n; }
    hide BatchOk, ActiveRules;
    b, n := ScorePages(at, bound, rules, rt, minScore);
  }

  method ScorePages(at: Selections, ghost bound: nat, rules: seq<Rule>, rt: Runtime, minScore: real) returns (b: Batch, ghost n: nat)
    requires forall k: nat :: |at(k)| <= bound
    ensures EndsAfter(at, n) && BatchOk(Visited(at, n), rules, rt, minScore, b)
  {
    NothingDone(rules, rt, minScore);
    hide BatchOk, Visited, PageAt;
    NoPages(at);
    b := NothingScored;
    var offset, query := 0, 0;
    while true
      invariant offset == query * BATCH && BatchOk(Visited(at, query), rules, rt, minScore, b)
      invariant forall k | 0 <= k < query :: |PageAt(at, k)| == BATCH
      decreases bound + BATCH - offset
    {
      var selected := at(query);
      var page := selected[Clip(offset, selected)..Clip(offset + BATCH, selected)];
      NextPage(at, query, offset, page);
      if page == [] { return b, query + 1; }
      b := ScorePage(page, rules, rt, minScore, b, Visited(at, query));
      if |page| < BATCH { return b, query + 1; }
      offset, query := offset + BATCH, query + 1;
    }
  }

  lemma NoPages(at: Selections)
    ensures Visited(at, 0) == []
  {
  }

  lemma NextPage(at: Selections, k: nat, offset: nat, page: seq<Candidate>)
    requires offset == k * BATCH && page == at(k)[Clip(offset, at(k))..Clip(offset + BATCH, at(k))]
    ensures page == PageAt(at, k) && Visited(at, k + 1) == Visited(at, k) + page
    ensures page == [] ==> Visited(at, k + 1) == Visited(at, k)
  {
  }

  method ScorePage(page: seq<Candidate>, rules: seq<Rule>, rt: Runtime, minScore: real, b: Batch, ghost done: seq<Candidate>)
    returns (after: Batch)
    requires BatchOk(done, rules, rt, minScore, b)
    ensures BatchOk(done + page, rules, rt, minScore, after)
  {
    hide BatchOk;
    assert done + page[..0] == done;
    after := b;
    for k := 0 to |page|
      invariant BatchOk(done + page[..k], rules, rt, minScore, after)
    {
      assert done + page[..k + 1] == done + page[..k] + [page[k]];
      after := ScoreOne(page[k], rules, rt, minScore, after, done + page[..k]);
    }
    assert page[..|page|] == page;
  }

  // ---------- How often a property is scored ----------

  function Times(xs: seq<Candidate>, id: int): nat {
    if xs == [] then 0 else Times(xs[..|xs| - 1], id) + if xs[|xs| - 1].p.id == id then 1 else 0
  }

  // The ids are unique, and the property stands at pos(k) when page k is read.
  ghost predicate StandsAt(at: Selections, n: nat, id: int, pos: nat -> nat) {
    forall k: nat | k < n :: pos(k) < |at(k)| && forall i | 0 <= i < |at(k)| :: at(k)[i].p.id == id <==> i == pos(k)
  }

  predicate OnPage(k: nat, place: nat) { 200 * k <= place < 200 * (k + 1) }

  function PagesWith(pos: nat -> nat, n: nat): nat {
    if n == 0 then 0 else PagesWith(pos, n - 1) + if OnPage(n - 1, pos(n - 1)) then 1 else 0
  }

  /** A property is scored as often as its place was on the page that was read. */
  lemma {:induction false} TimesScored(at: Selections, n: nat, id: int, pos: nat -> nat)
    requires StandsAt(at, n, id, pos)
    ensures Times(Visited(at, n), id) == PagesWith(pos, n)
  {
    if n > 0 {
      TimesScored(at, n - 1, id, pos);
      TimesAppend(Visited(at, n - 1), PageAt(at, n - 1), id);
      TimesOnPage(at, n - 1, id, pos(n - 1));
    }
  }

  lemma {:induction false} TimesAppend(xs: seq<Candidate>, ys: seq<Candidate>, id: int)
    ensures Times(xs + ys, id) == Times(xs, id) + Times(ys, id)
  {
    if ys == [] { assert xs + ys == xs; }
    else {
      assert (xs + ys)[..|xs + ys| - 1] == xs + ys[..|ys| - 1];
      TimesAppend(xs, ys[..|ys| - 1], id);
    }
  }

  lemma TimesOnPage(at: Selections, k: nat, id: int, place: nat)
    requires place < |at(k)| && forall i | 0 <= i < |at(k)| :: at(k)[i].p.id == id <==> i == place
    ensures Times(PageAt(at, k), id) == if OnPage(k, place) then 1 else 0
  {
    var from := Clip(k * BATCH, at(k));
    TimesAtPlace(PageAt(at, k), id, place - from);
  }

  lemma {:induction false} TimesAtPlace(xs: seq<Candidate>, id: int, place: int)
    requires forall i | 0 <= i < |xs| :: xs[i].p.id == id <==> i == place
    ensures Times(xs, id) == if 0 <= place < |xs| then 1 else 0
  {
    if xs != [] { TimesAtPlace(xs[..|xs| - 1], id, place); }
  }

  // Between two queries so much before the property is deleted that it passes the end of the page read.
  predicate Slips(pos: nat -> nat, k: nat) {
    pos(k + 1) < 200 * (k + 1) <= pos(k)
  }

  /**
    A property that is there all the time, while rows are only deleted and new ones come at the end, is scored once or
    never: never if and only if between two queries it slips from behind a page onto its place or before.
   */
  lemma ScoredUnlessItSlips(at: Selections, n: nat, id: int, pos: nat -> nat)
    requires StandsAt(at, n, id, pos) && EndsAfter(at, n)
    requires forall k: nat | k + 1 < n :: pos(k + 1) <= pos(k)
    ensures Times(Visited(at, n), id) == if exists k: nat | k + 1 < n :: Slips(pos, k) then 0 else 1
  {
    TimesScored(at, n, id, pos);
    assert |PageAt(at, n - 1)| < BATCH;
    assert pos(n - 1) < n * BATCH;
    FallsOnce(pos, n, n);
  }

  // After the first m pages: still behind them, or scored once, or passed without.
  lemma {:induction false} FallsOnce(pos: nat -> nat, n: nat, m: nat)
    requires 1 <= m <= n && forall k: nat | k + 1 < n :: pos(k + 1) <= pos(k)
    ensures pos(m - 1) >= m * BATCH ==> PagesWith(pos, m) == 0 && forall k: nat | k + 1 < m :: !Slips(pos, k)
    ensures pos(m - 1) < m * BATCH ==> PagesWith(pos, m) == if exists k: nat | k + 1 < m :: Slips(pos, k) then 0 else 1
  {
    if m > 1 {
      FallsOnce(pos, n, m - 1);
      assert (m - 2) + 1 == m - 1 && pos(m - 1) <= pos(m - 2);
      if pos(m - 2) >= (m - 1) * BATCH && pos(m - 1) < (m - 1) * BATCH { assert Slips(pos, m - 2); }
      if pos(m - 2) < (m - 1) * BATCH { assert !Slips(pos, m - 2); }
    }
  }

  /** Over an unchanged table every property is on one page, in order. */
  lemma {:induction false} UnchangedIsVisitedOnce(at: Selections, xs: seq<Candidate>, n: nat)
    requires forall k: nat | k < n :: at(k) == xs
    ensures Visited(at, n) == xs[..Clip(n * BATCH, xs)]
    ensures EndsAfter(at, n) ==> Visited(at, n) == xs
  {
    if n > 0 {
      UnchangedIsVisitedOnce(at, xs, n - 1);
      assert at(n - 1) == xs;
      assert Visited(at, n) == xs[..Clip((n - 1) * BATCH, xs)] + xs[Clip((n - 1) * BATCH, xs)..Clip(n * BATCH, xs)];
    }
  }

  lemma NothingDone(rules: seq<Rule>, rt: Runtime, minScore: real)
    ensures BatchOk([], rules, rt, minScore, NothingScored)
  {
    hide IsScore;
  }

  lemma {:induction false} ActiveAreSorted(rules: seq<Rule>)
    ensures forall r :: r in SortedActive(rules) <==> r in rules && r.isActive
    ensures Ascending(SortedActive(rules)) && multiset(SortedActive(rules)) == multiset(ActiveOnly(rules))
  {
    if rules != [] {
      assert rules == [rules[0]] + rules[1..];
      ActiveAreSorted(rules[1..]);
      InsertMembers(rules[0], SortedActive(rules[1..]));
      InsertAscends(rules[0], SortedActive(rules[1..]));
      InsertKeeps(rules[0], SortedActive(rules[1..]));
      hide Insert, Ascending;
    }
  }

  function ActiveOnly(rules: seq<Rule>): seq<Rule> {
    if rules == [] then [] else (if rules[0].isActive then [rules[0]] else []) + ActiveOnly(rules[1..])
  }

  lemma {:induction false} InsertAscends(x: Rule, s: seq<Rule>)
    requires Ascending(s)
    ensures Ascending(Insert(x, s))
  {
    if s != [] && x.priority > s[0].priority {
      InsertAscends(x, s[1..]);
      InsertMembers(x, s[1..]);
      var rest := Insert(x, s[1..]);
      forall i | 0 <= i < |rest| ensures s[0].priority <= rest[i].priority {
        assert rest[i] in rest;
        if rest[i] != x { var k :| 0 <= k < |s[1..]| && s[1..][k] == rest[i]; assert s[k + 1] == rest[i]; }
      }
    }
  }

  lemma {:induction false} InsertKeeps(x: Rule, s: seq<Rule>)
    ensures multiset(Insert(x, s)) == multiset{x} + multiset(s)
  {
    if s != [] {
      InsertKeeps(x, s[1..]);
      assert s == [s[0]] + s[1..];
    }
  }

  /**
    At most a hundred rules take part: all active ones, or so many that the active rules left out have no smaller
    priority number than any of them.
   */
  lemma HundredRules(all: seq<Rule>) returns (rest: seq<Rule>)
    ensures |ActiveRules(all)| <= 100 && (rest != [] ==> |ActiveRules(all)| == 100)
    ensures multiset(ActiveRules(all)) + multiset(rest) == multiset(ActiveOnly(all)) && Ascending(ActiveRules(all))
    ensures forall i, j | 0 <= i < |ActiveRules(all)| && 0 <= j < |rest| :: ActiveRules(all)[i].priority <= rest[j].priority
  {
    ActiveAreSorted(all);
    var sorted, taken := SortedActive(all), ActiveRules(all);
    rest := sorted[|taken|..];
    assert sorted == taken + rest;
    hide SortedActive, ActiveOnly, ActiveRules;
    forall i, j | 0 <= i < |taken| && 0 <= j < |rest| ensures taken[i].priority <= rest[j].priority {
      assert sorted[i] == taken[i] && sorted[|taken| + j] == rest[j];
    }
  }

  lemma {:induction false} InsertMembers(x: Rule, s: seq<Rule>)
    ensures forall r :: r in Insert(x, s) <==> r == x || r in s
  {
    if s != [] {
      assert s == [s[0]] + s[1..];
      InsertMembers(x, s[1..]);
    }
  }

  lemma SomeActive(all: seq<Rule>)
    ensures ActiveRules(all) == [] <==> forall r | r in all :: !r.isActive
  {
    ActiveAreSorted(all);
    var sorted := SortedActive(all);
    if sorted != [] { assert sorted[0] in sorted; }
  }

  function Clip(n: nat, selected: seq<Candidate>): (r: nat)
    ensures r <= |selected| && r <= n
  {
    if n <= |selected| then n else |selected|
  }

  // ---------- A change of tags that is not told ----------

  // A property with an unchanged score of 5 and the tag "a", and one rule that gives it 5 and the tag "b".
  const Retagged := Property(1, Some(5.0), ["a"], map["url" := TextValue("u")])
  const UrlRule := Rule(HasField("url"), 5.0, "b", true, 1)
  const RetaggedScore := Score(5.0, ["b"], [EnteredFocus("b"), LeftFocus("a")])

  /** It happens: a property gets another tag at the same score, and no event is written. */
  lemma TagsChangeUntold(rt: Runtime)
    ensures IsScore(Retagged, [UrlRule], rt, RetaggedScore)
    ensures Recorded(Candidate(Retagged, Some(Retagged.focusScore)), RetaggedScore) == [] && TagSet(Retagged.tags) != TagSet(RetaggedScore.tags)
  {
    var p, rules := Subject(Retagged, rt), [UrlRule];
    assert Counts(UrlRule, p) && !Deviates(UrlRule);
    assert rules[1..] == [] && rules == [] + [UrlRule];
    assert BestDeviation(None, [], p) == None && SumOthers([], p) == 0.0;
    ExtendBest(None, [], UrlRule, p);
    assert ScoreOf(rules, p) == 5.0;
    forall tag ensures tag in ["b"] <==> HasTag(rules, p, tag) {
      if tag == "b" { assert Tags(UrlRule, rules, p) && UrlRule in rules; }
    }
    assert "a" in TagSet(["a"]) && "a" !in TagSet(["b"]);
    hide HasTag, ScoreOf, SumOthers, BestDeviation, Counts;
    RetaggedEvents();
  }

  lemma RetaggedEvents()
    ensures EventsTell(Retagged, RetaggedScore)
  {
    var old', new' := ["a"], ["b"];
    ChangeTold([], old', new');
    assert old'[1..] == [] && new'[1..] == [];
    assert Absent([], old') == [] && Absent([], new') == [];
    assert Absent(new', old') == ["b"] && Absent(old', new') == ["a"];
    assert Entered(["b"]) == [EnteredFocus("b")] && Left(["a"]) == [LeftFocus("a")];
    assert [] + Entered(Absent(new', old')) + Left(Absent(old', new')) == RetaggedScore.events;
  }
}
