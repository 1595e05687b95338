/** The source-health policy: how one run's counters are classified against the recent healthy runs. */
module HealthPolicy {
  import opened Wrappers
  import opened ParseDetails
  import opened SourceHealth

  datatype ErrorClass = Transient | RateLimited | BlockedError | AntiBot | HttpBlock | SchemaChangedError | Permanent | CancelledError

  datatype CanaryResult = CanaryResult(checked: nat, blockFound: nat, expectBlock: bool)

  datatype Input = Input(
    counters: Counters, detailSupported: bool, baseline: seq<Counters>, canary: Option<CanaryResult>, errorClass: Option<ErrorClass>)

  const MIN_RATIO_SAMPLE := 20
  const MIN_DETAIL_SUCCESS_RATIO := 0.8
  const MAX_LOCATION_MISSING_RATIO := 0.2
  const RATIO_DELTA := 0.2

  predicate IsBlocking(e: ErrorClass) { e == RateLimited || e == BlockedError || e == AntiBot || e == HttpBlock }

  predicate ValidInput(i: Input) {
    && AssertCounters(i.counters, i.detailSupported)
    && (i.canary.Some? ==> i.canary.value.blockFound <= i.canary.value.checked)
    && |i.baseline| <= 5 && forall k | 0 <= k < |i.baseline| :: AssertCounters(i.baseline[k], true)
  }

  // The division of counters, exact or rounded: all that matters is that more of the same total is no less.
  type Ratio = (nat, nat) -> real

  ghost predicate IsMonotone(ratio: Ratio) {
    forall a: nat, b: nat, n: nat | a <= b :: ratio(a, n) <= ratio(b, n)
  }

  // ---------- Median ----------

  function InsertReal(x: real, s: seq<real>): (r: seq<real>)
    ensures multiset(r) == multiset{x} + multiset(s)
  {
    if s == [] || x <= s[0] then [x] + s
    else
      assert s == [s[0]] + s[1..];
      [s[0]] + InsertReal(x, s[1..])
  }

  function SortReals(s: seq<real>): (r: seq<real>)
    ensures multiset(r) == multiset(s) && |r| == |s|
  {
    if s == [] then []
    else
      assert s == [s[0]] + s[1..];
      var r := InsertReal(s[0], SortReals(s[1..]));
      assert |r| == |multiset(r)| == |multiset(s)| == |s|;
      r
  }

  function Median(values: seq<real>): real {
    if values == [] then 0.0
    else
      var ordered, middle := SortReals(values), |values| / 2;
      if |values| % 2 == 0 then (ordered[middle - 1] + ordered[middle]) / 2.0 else ordered[middle]
  }

  predicate Sorted(s: seq<real>) {
    forall i, j | 0 <= i < j < |s| :: s[i] <= s[j]
  }

  lemma {:induction false} InsertSorted(x: real, s: seq<real>)
    requires Sorted(s)
    ensures Sorted(InsertReal(x, s))
  {
    if s != [] && x > s[0] {
      var rest := s[1..];
      InsertSorted(x, rest);
      var inserted := InsertReal(x, rest);
      forall k | 0 <= k < |inserted| ensures s[0] <= inserted[k] {
        assert inserted[k] in multiset(inserted);
        assert inserted[k] == x || inserted[k] in rest;
      }
    }
  }

  lemma {:induction false} SortSorted(s: seq<real>)
    ensures Sorted(SortReals(s))
  {
    if s != [] {
      SortSorted(s[1..]);
      InsertSorted(s[0], SortReals(s[1..]));
    }
  }

  function CountAtMost(s: seq<real>, m: real): (n: nat)
    ensures n <= |s|
  {
    if s == [] then 0 else (if s[0] <= m then 1 else 0) + CountAtMost(s[1..], m)
  }

  function CountAtLeast(s: seq<real>, m: real): (n: nat)
    ensures n <= |s|
  {
    if s == [] then 0 else (if s[0] >= m then 1 else 0) + CountAtLeast(s[1..], m)
  }

  lemma {:induction false} InsertCounts(x: real, s: seq<real>, m: real)
    ensures CountAtMost(InsertReal(x, s), m) == CountAtMost(s, m) + if x <= m then 1 else 0
    ensures CountAtLeast(InsertReal(x, s), m) == CountAtLeast(s, m) + if x >= m then 1 else 0
  {
    if s == [] || x <= s[0] {
      assert ([x] + s)[1..] == s;
    } else {
      InsertCounts(x, s[1..], m);
      assert ([s[0]] + InsertReal(x, s[1..]))[1..] == InsertReal(x, s[1..]);
    }
  }

  lemma {:induction false} SortCounts(s: seq<real>, m: real)
    ensures CountAtMost(SortReals(s), m) == CountAtMost(s, m) && CountAtLeast(SortReals(s), m) == CountAtLeast(s, m)
  {
    if s != [] {
      SortCounts(s[1..], m);
      InsertCounts(s[0], SortReals(s[1..]), m);
    }
  }

  // In a sorted list the items up to k are at most, those from k on at least, what lies at k.
  lemma {:induction false} SortedAtMost(s: seq<real>, k: nat, m: real)
    requires Sorted(s) && k <= |s| && (k > 0 ==> s[k - 1] <= m)
    ensures CountAtMost(s, m) >= k
  {
    if k > 0 {
      if k > 1 { assert s[1..][k - 2] == s[k - 1]; }
      SortedAtMost(s[1..], k - 1, m);
    }
  }

  lemma {:induction false} SortedAtLeast(s: seq<real>, k: nat, m: real)
    requires Sorted(s) && k <= |s| && (k < |s| ==> s[k] >= m)
    ensures CountAtLeast(s, m) >= |s| - k
  {
    if s != [] {
      if k > 0 {
        if k < |s| { assert s[1..][k - 1] == s[k]; }
        SortedAtLeast(s[1..], k - 1, m);
      } else {
        if |s| > 1 { assert s[1..][0] == s[1] >= s[0]; }
        SortedAtLeast(s[1..], 0, m);
      }
    }
  }

  /** At least half of the values are at most the median, and at least half are at least the median. */
  lemma MedianSplits(values: seq<real>)
    requires values != []
    ensures 2 * CountAtMost(values, Median(values)) >= |values|
    ensures 2 * CountAtLeast(values, Median(values)) >= |values|
  {
    var ordered, middle, m := SortReals(values), |values| / 2, Median(values);
    SortSorted(values);
    SortCounts(values, m);
    if |values| % 2 == 0 {
      assert ordered[middle - 1] <= m <= ordered[middle];
      SortedAtMost(ordered, middle, m);
      SortedAtLeast(ordered, middle, m);
    } else {
      SortedAtMost(ordered, middle + 1, m);
      SortedAtLeast(ordered, middle, m);
    }
  }

  lemma {:induction false} SortedUnique(a: seq<real>, b: seq<real>)
    requires Sorted(a) && Sorted(b) && multiset(a) == multiset(b)
    ensures a == b
  {
    assert |multiset(a)| == |multiset(b)|;
    if a != [] {
      FirstIsLeast(a, b);
      FirstIsLeast(b, a);
      RestOfSame(a, b);
      hide Sorted;
      TailSorted(a);
      TailSorted(b);
      SortedUnique(a[1..], b[1..]);
      assert a == [a[0]] + a[1..] && b == [b[0]] + b[1..];
    }
  }

  lemma FirstIsLeast(a: seq<real>, b: seq<real>)
    requires a != [] && b != [] && Sorted(a) && multiset(a) == multiset(b)
    ensures a[0] <= b[0]
  {
    assert b[0] in multiset(a);
    var k :| 0 <= k < |a| && a[k] == b[0];
  }

  lemma TailSorted(a: seq<real>)
    requires a != [] && Sorted(a)
    ensures Sorted(a[1..])
  {
  }

  lemma RestOfSame(a: seq<real>, b: seq<real>)
    requires a != [] && b != [] && a[0] == b[0] && multiset(a) == multiset(b)
    ensures multiset(a[1..]) == multiset(b[1..])
  {
    assert a == [a[0]] + a[1..] && b == [b[0]] + b[1..];
    assert multiset(a[1..]) == multiset(a) - multiset{a[0]};
    assert multiset(b[1..]) == multiset(b) - multiset{b[0]};
  }

  /** The median is the value in the middle of the sorted values, or the mean of the two there. */
  lemma MedianIsTheMiddle(values: seq<real>, sorted: seq<real>)
    requires values != [] && Sorted(sorted) && multiset(sorted) == multiset(values)
    ensures |sorted| == |values|
    ensures forall k: nat | |values| == 2 * k + 1 :: Median(values) == sorted[k]
    ensures forall k: nat | |values| == 2 * k + 2 :: Median(values) == (sorted[k] + sorted[k + 1]) / 2.0
  {
    SortSorted(values);
    SortedUnique(SortReals(values), sorted);
  }

  // ---------- Classification ----------

  function SuccessRatios(ratio: Ratio, baseline: seq<Counters>): seq<real> {
    seq(|baseline|, i requires 0 <= i < |baseline| => ratio(baseline[i].ok, baseline[i].attempted))
  }

  function MissingRatios(ratio: Ratio, baseline: seq<Counters>): seq<real> {
    seq(|baseline|, i requires 0 <= i < |baseline| => ratio(baseline[i].missing, baseline[i].attempted))
  }

  function Confirmed(c: Counters): nat { c.confirmedAddress + c.regionOnly }

  // None: the input is refused.
  function Classify(ratio: Ratio, i: Input): Option<Status> {
    var c := i.counters;
    if !ValidInput(i) then None
    else if i.errorClass.Some? && IsBlocking(i.errorClass.value) then Some(Blocked)
    else if i.errorClass == Some(SchemaChangedError) then Some(SchemaChanged)
    else if !i.detailSupported then Some(Healthy)
    else if i.canary.Some? && i.canary.value.expectBlock && i.canary.value.checked > 0 && i.canary.value.blockFound == 0 then Some(SchemaChanged)
    else if c.ok > 0 && c.mismatch * 2 > c.ok then Some(SchemaChanged)
    else if c.ok > 0 && c.block == 0 then Some(SchemaChanged)
    else if c.ok > 0 && c.labelled == 0 then Some(SchemaChanged)
    else if c.attempted > 0 && c.ok == 0 then Some(Degraded)
    else if c.attempted >= MIN_RATIO_SAMPLE && ratio(c.ok, c.attempted) < MIN_DETAIL_SUCCESS_RATIO then Some(Degraded)
    else if c.attempted >= MIN_RATIO_SAMPLE && ratio(c.missing, c.attempted) > MAX_LOCATION_MISSING_RATIO then Some(Degraded)
    else if Confirmed(c) == 0 && (exists k | 0 <= k < |i.baseline| :: Confirmed(i.baseline[k]) > 0) then Some(Degraded)
    else if c.attempted >= MIN_RATIO_SAMPLE && |i.baseline| > 0
            && Median(SuccessRatios(ratio, i.baseline)) - ratio(c.ok, c.attempted) >= RATIO_DELTA then Some(Degraded)
    else if c.attempted >= MIN_RATIO_SAMPLE && |i.baseline| > 0
            && ratio(c.missing, c.attempted) - Median(MissingRatios(ratio, i.baseline)) >= RATIO_DELTA then Some(Degraded)
    else Some(Healthy)
  }

  // ---------- The classes in whole numbers ----------

  // denominator === 0 ? 0 : numerator / denominator
  function Quotient(a: nat, n: nat): real { if n == 0 then 0.0 else a as real / n as real }

  // Before the counters: blocking errors, then a changed schema, then sources without details, then the canary.
  predicate ErrorDecides(i: Input) {
    i.errorClass in {Some(RateLimited), Some(BlockedError), Some(AntiBot), Some(HttpBlock), Some(SchemaChangedError)}
  }

  predicate CanaryFails(i: Input) {
    i.canary.Some? && i.canary.value.expectBlock && i.canary.value.checked >= 1 && i.canary.value.blockFound == 0
  }

  // Some successful page, but more than half of them mismatch, or none has a property block or none a location label.
  predicate PagesChanged(c: Counters) {
    c.ok >= 1 && (c.ok < 2 * c.mismatch || c.block == 0 || c.labelled == 0)
  }

  // Less than 80 percent of at least 20 pages were fetched, or more than 20 percent of them have no location.
  predicate FewPages(c: Counters) {
    c.attempted >= 20 && (5 * c.ok < 4 * c.attempted || 5 * c.missing > c.attempted)
  }

  // At least 0.2 below or above the median of the recent healthy runs.
  predicate FarFromBaseline(i: Input) {
    && i.counters.attempted >= 20 && i.baseline != []
    && var share, lost := Quotient(i.counters.ok, i.counters.attempted), Quotient(i.counters.missing, i.counters.attempted);
       || Median(SuccessRatios(Quotient, i.baseline)) >= share + 0.2
       || Median(MissingRatios(Quotient, i.baseline)) <= lost - 0.2
  }

  predicate NothingConfirmed(i: Input) {
    && i.counters.confirmedAddress == 0 && i.counters.regionOnly == 0
    && exists b | b in i.baseline :: b.confirmedAddress >= 1 || b.regionOnly >= 1
  }

  /** Which input is refused, and what each class means. */
  lemma ClassesAre(i: Input)
    ensures Classify(Quotient, i).None? <==>
      || !AssertCounters(i.counters, i.detailSupported)
      || (i.canary.Some? && i.canary.value.blockFound > i.canary.value.checked)
      || |i.baseline| >= 6 || exists b | b in i.baseline :: !AssertCounters(b, true)
    ensures Classify(Quotient, i).Some? ==>
      && (Classify(Quotient, i) == Some(Blocked) <==>
            i.errorClass in {Some(RateLimited), Some(BlockedError), Some(AntiBot), Some(HttpBlock)})
      && (Classify(Quotient, i) == Some(SchemaChanged) <==>
            || i.errorClass == Some(SchemaChangedError)
            || (!ErrorDecides(i) && i.detailSupported && (CanaryFails(i) || PagesChanged(i.counters))))
      && (Classify(Quotient, i) == Some(Degraded) <==>
            && !ErrorDecides(i) && i.detailSupported && !CanaryFails(i) && !PagesChanged(i.counters)
            && ((i.counters.attempted >= 1 && i.counters.ok == 0) || FewPages(i.counters) || NothingConfirmed(i) || FarFromBaseline(i)))
      && (Classify(Quotient, i) == Some(Healthy) <==>
            && !ErrorDecides(i)
            && (i.detailSupported ==>
                  && !CanaryFails(i) && !PagesChanged(i.counters) && !FewPages(i.counters) && !NothingConfirmed(i) && !FarFromBaseline(i)
                  && (i.counters.attempted >= 1 ==> i.counters.ok >= 1)))
  {
    SharesInWholes(i.counters);
    ConfirmedInBaseline(i);
    InvalidBaseline(i);
    hide Median, AssertCounters, SuccessRatios, MissingRatios, Quotient;
  }

  lemma SharesInWholes(c: Counters)
    ensures c.attempted == 0 ==> Quotient(c.ok, c.attempted) == Quotient(c.missing, c.attempted) == 0.0
    ensures c.attempted >= 20 ==> (Quotient(c.ok, c.attempted) < 0.8 <==> 5 * c.ok < 4 * c.attempted)
    ensures c.attempted >= 20 ==> (Quotient(c.missing, c.attempted) > 0.2 <==> 5 * c.missing > c.attempted)
  {
    if c.attempted >= 20 {
      QuotientCompares(c.ok, c.attempted, 0.8);
      QuotientCompares(c.missing, c.attempted, 0.2);
    }
  }

  lemma QuotientCompares(a: nat, n: nat, x: real)
    requires n > 0
    ensures Quotient(a, n) < x <==> a as real < x * n as real
    ensures Quotient(a, n) > x <==> a as real > x * n as real
  {
    var q := Quotient(a, n);
    assert q * n as real == a as real;
    if q < x { Scaled(q, x, n as real); }
    if q > x { Scaled(x, q, n as real); }
  }

  lemma Scaled(x: real, y: real, n: real)
    requires x < y && n > 0.0
    ensures x * n < y * n
  {
  }

  lemma ConfirmedInBaseline(i: Input)
    ensures NothingConfirmed(i) <==>
      Confirmed(i.counters) == 0 && exists k | 0 <= k < |i.baseline| :: Confirmed(i.baseline[k]) > 0
  {
    if exists b | b in i.baseline :: b.confirmedAddress >= 1 || b.regionOnly >= 1 {
      var b :| b in i.baseline && (b.confirmedAddress >= 1 || b.regionOnly >= 1);
      var k :| 0 <= k < |i.baseline| && i.baseline[k] == b;
      assert Confirmed(i.baseline[k]) > 0;
    }
    if k :| 0 <= k < |i.baseline| && Confirmed(i.baseline[k]) > 0 { assert i.baseline[k] in i.baseline; }
  }

  lemma InvalidBaseline(i: Input)
    ensures (exists b | b in i.baseline :: !AssertCounters(b, true)) <==>
      !forall k | 0 <= k < |i.baseline| :: AssertCounters(i.baseline[k], true)
  {
    hide AssertCounters;
    if k :| 0 <= k < |i.baseline| && !AssertCounters(i.baseline[k], true) { assert i.baseline[k] in i.baseline; }
  }

  // The same pages were tried, and nothing went worse.
  predicate NoWorse(c: Counters, d: Counters) {
    && d.attempted == c.attempted && d.ok >= c.ok && d.mismatch <= c.mismatch && d.block >= c.block && d.labelled >= c.labelled
    && d.missing <= c.missing && Confirmed(d) >= Confirmed(c)
  }

  /** Counters that are no worse than those of a healthy run are healthy too, against the same baseline. */
  lemma HealthIsMonotone(ratio: Ratio, i: Input, d: Counters)
    requires IsMonotone(ratio) && Classify(ratio, i) == Some(Healthy) && NoWorse(i.counters, d) && AssertCounters(d, i.detailSupported)
    ensures Classify(ratio, i.(counters := d)) == Some(Healthy)
  {
    var c := i.counters;
    assert ratio(c.ok, c.attempted) <= ratio(d.ok, c.attempted) && ratio(d.missing, c.attempted) <= ratio(c.missing, c.attempted);
    hide Median, AssertCounters, IsMonotone;
  }

  // An error class or a failed canary settles the status before the counters are looked at.
  predicate Preset(i: Input) {
    || (i.errorClass.Some? && (IsBlocking(i.errorClass.value) || i.errorClass.value.SchemaChangedError?))
    || !i.detailSupported
    || (i.canary.Some? && i.canary.value.expectBlock && i.canary.value.checked > 0 && i.canary.value.blockFound == 0)
  }

  // From no successful page to some, but without a property block or without a location label.
  predicate FirstPagesWithoutMarks(c: Counters, d: Counters) {
    c.ok == 0 && d.ok > 0 && (d.block == 0 || d.labelled == 0)
  }

  lemma PresetIsFixed(ratio: Ratio, i: Input, d: Counters)
    requires Preset(i) && ValidInput(i) && AssertCounters(d, i.detailSupported)
    ensures Classify(ratio, i.(counters := d)) == Classify(ratio, i)
  {
    hide Median, AssertCounters;
  }

  lemma NoPagesIsDegraded(ratio: Ratio, i: Input)
    requires ValidInput(i) && !Preset(i) && i.counters.ok == 0 && i.counters.attempted > 0
    ensures Classify(ratio, i) == Some(Degraded)
  {
    hide Median, AssertCounters;
  }

  lemma SomePages(ratio: Ratio, i: Input)
    requires ValidInput(i) && !Preset(i) && i.counters.ok > 0
    ensures Classify(ratio, i).Some? && Classify(ratio, i) != Some(Blocked)
    ensures Classify(ratio, i) == Some(SchemaChanged) <==>
      i.counters.mismatch * 2 > i.counters.ok || i.counters.block == 0 || i.counters.labelled == 0
  {
    hide Median, AssertCounters;
  }

  lemma NoAttempts(ratio: Ratio, i: Input)
    requires ValidInput(i) && !Preset(i) && i.counters.attempted == 0
    ensures Classify(ratio, i) == Some(Healthy) || Classify(ratio, i) == Some(Degraded)
  {
    assert i.counters.ok == 0;
    hide Median, AssertCounters;
  }

  // Healthy is best, then degraded; the two quarantine statuses are equally bad.
  predicate IsNoWorse(before: Status, after: Status) {
    (before == Healthy ==> after == Healthy) && (before == Degraded ==> after == Healthy || after == Degraded)
  }

  /**
    Counters that are no worse are classified no worse, except in one case: the run had no successful detail page, and the
    other has some but no property block or no location label. It then counts as a changed schema, which is never lifted.
   */
  lemma BetterCanBeQuarantined(ratio: Ratio, i: Input, d: Counters)
    requires IsMonotone(ratio) && ValidInput(i) && NoWorse(i.counters, d) && AssertCounters(d, i.detailSupported)
    ensures Classify(ratio, i).Some? && Classify(ratio, i.(counters := d)).Some?
    ensures IsNoWorse(Classify(ratio, i).value, Classify(ratio, i.(counters := d)).value)
      <==> Preset(i) || !FirstPagesWithoutMarks(i.counters, d)
  {
    var c, j := i.counters, i.(counters := d);
    assert ValidInput(j) && (i.detailSupported ==> c.ok <= c.attempted && d.ok <= d.attempted && c.mismatch <= c.ok);
    if Preset(i) {
      PresetIsFixed(ratio, i, d);
    } else if Classify(ratio, i) == Some(Healthy) {
      HealthIsMonotone(ratio, i, d);
    } else if c.attempted == 0 {
      NoAttempts(ratio, i);
      NoAttempts(ratio, j);
    } else {
      if c.ok == 0 { NoPagesIsDegraded(ratio, i); } else { SomePages(ratio, i); }
      if d.ok == 0 { NoPagesIsDegraded(ratio, j); } else { SomePages(ratio, j); }
    }
  }
}
