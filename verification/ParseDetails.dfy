/** The details loop of a parser job and the counter contract of its consumer. */
module ParseDetails {
  import opened Wrappers
  import opened ParseHandler

  datatype Location = ConfirmedAddress | RegionOnly | Missing

  // Fatal: cancellation, a typed source error or an invalid location. Plain: any other exception.
  datatype Fault = Fatal | Plain

  datatype Diagnostics = NoDiagnostics | BadDiagnostics | Diagnostics(block: bool, labelled: bool, mismatch: bool)

  datatype Merge = MergeFails(fault: Fault) | Merged(location: Location)

  // What happens to one item when its detail page is fetched: the quarantine check, the adapter, the response.
  datatype Fetch =
    | CheckFails(fault: Fault)
    | FetchFails(fault: Fault)
    | FetchCancelled
    | EmptyResponse
    | Fetched(diagnostics: Diagnostics, merge: Merge, progress: Option<Fault>)

  datatype Filter = Matches | Differs | MatchFails(fault: Fault)

  datatype Create = Created | Refused | CreateFails(fault: Fault)

  // An artifact item with all that its effects will answer.
  datatype Item = Item(id: string, cancelled: bool, scanned: Location, fetch: Fetch, pauseCancelled: bool, filter: Filter, create: Create)

  // A job with a filter snapshot stops at plain faults, except those of the adapter; the parser may lack a details call.
  datatype Mode = Mode(snapshot: bool, fetches: bool)

  datatype Counters = Counters(
    attempted: nat, ok: nat, fetched: nat, block: nat, labelled: nat, mismatch: nat,
    confirmedAddress: nat, regionOnly: nat, missing: nat, unresolved: nat,
    created: nat, filtered: nat, skipped: nat, failures: nat)

  const NoCounts := Counters(0, 0, 0, 0, 0, 0, 0, 0, 0, 0, 0, 0, 0, 0)

  // ---------- What an item comes to ----------

  datatype FetchFate = FetchAborts | FetchGivesUp | Located(location: Location)

  predicate Stopping(fault: Fault, mode: Mode) {
    fault == Fatal || mode.snapshot
  }

  // Before the pause that follows each fetch.
  function FetchPart(x: Item, mode: Mode): FetchFate {
    if !mode.fetches then Located(x.scanned)
    else match x.fetch
      case CheckFails(f) => if Stopping(f, mode) then FetchAborts else FetchGivesUp
      case FetchFails(f) => if f == Fatal then FetchAborts else FetchGivesUp
      case FetchCancelled => FetchAborts
      case EmptyResponse => Located(x.scanned)
      case Fetched(BadDiagnostics, _, _) => if Stopping(Plain, mode) then FetchAborts else FetchGivesUp
      case Fetched(_, MergeFails(f), _) => if Stopping(f, mode) then FetchAborts else FetchGivesUp
      case Fetched(_, Merged(l), Some(f)) => if Stopping(f, mode) then FetchAborts else Located(l)
      case Fetched(_, Merged(l), None) => Located(l)
  }

  function FetchFateOf(x: Item, mode: Mode): FetchFate {
    if mode.fetches && x.pauseCancelled then FetchAborts else FetchPart(x, mode)
  }

  datatype Fate = Abort | Failed | Unresolved | Unwanted | NotCreated | Stored

  function FateOf(x: Item, mode: Mode): Fate {
    if x.cancelled then Abort
    else match FetchFateOf(x, mode)
      case FetchAborts => Abort
      case FetchGivesUp => Failed
      case Located(Missing) => Unresolved
      case Located(_) =>
        if mode.snapshot && x.filter.Differs? then Unwanted
        else if mode.snapshot && x.filter.MatchFails? then Abort
        else match x.create
          case Created => Stored
          case Refused => NotCreated
          case CreateFails(f) => if Stopping(f, mode) then Abort else Failed
  }

  // What is counted about an item.
  datatype Event = Attempt | Response | Block | Label | Mismatch | Place(location: Location) | EmptyMissing | Failure | Ends(fate: Fate)

  predicate Fetches(x: Item, mode: Mode) { mode.fetches && !x.cancelled }

  predicate HasDiagnostics(x: Item, mode: Mode) {
    Fetches(x, mode) && x.fetch.Fetched? && x.fetch.diagnostics.Diagnostics?
  }

  predicate Happens(x: Item, mode: Mode, e: Event) {
    match e
    case Ends(fate) => FateOf(x, mode) == fate
    case EmptyMissing => mode.fetches && x.fetch.EmptyResponse? && x.scanned == Missing && FateOf(x, mode) == Unresolved
    case Failure => !x.cancelled && (FetchPart(x, mode).FetchGivesUp? || FateOf(x, mode) == Failed)
    case Attempt => Fetches(x, mode) && !x.fetch.CheckFails?
    case Response => Fetches(x, mode) && (x.fetch.FetchCancelled? || x.fetch.EmptyResponse? || x.fetch.Fetched?)
    case Block => HasDiagnostics(x, mode) && x.fetch.diagnostics.block
    case Label => HasDiagnostics(x, mode) && x.fetch.diagnostics.labelled
    case Mismatch => HasDiagnostics(x, mode) && x.fetch.diagnostics.mismatch
    case Place(l) => Fetches(x, mode) && x.fetch.Fetched? && !x.fetch.diagnostics.BadDiagnostics? && x.fetch.merge == Merged(l)
  }

  function One(x: Item, mode: Mode, e: Event): nat { if Happens(x, mode, e) then 1 else 0 }

  function Count(items: seq<Item>, mode: Mode, e: Event): nat {
    if items == [] then 0 else Count(items[..|items| - 1], mode, e) + One(Last(items), mode, e)
  }

  function WithFate(items: seq<Item>, mode: Mode, fate: Fate): seq<Item> {
    if items == [] then []
    else WithFate(items[..|items| - 1], mode, fate) + if FateOf(Last(items), mode) == fate then [Last(items)] else []
  }

  // ---------- The loop ----------

  // The counters of the fetch part, after one item more.
  predicate FetchCounted(x: Item, mode: Mode, c: Counters, d: Counters) {
    && d.attempted == c.attempted + One(x, mode, Attempt) && d.ok == c.ok + One(x, mode, Response)
    && d.block == c.block + One(x, mode, Block) && d.labelled == c.labelled + One(x, mode, Label)
    && d.mismatch == c.mismatch + One(x, mode, Mismatch)
    && d.confirmedAddress == c.confirmedAddress + One(x, mode, Place(ConfirmedAddress))
    && d.regionOnly == c.regionOnly + One(x, mode, Place(RegionOnly))
    && d.missing == c.missing + One(x, mode, Place(Missing))
    && d.fetched == c.fetched + One(x, mode, Place(ConfirmedAddress)) + One(x, mode, Place(RegionOnly)) + One(x, mode, Place(Missing))
  }

  predicate EndCounted(x: Item, mode: Mode, c: Counters, d: Counters) {
    && d.created == c.created + One(x, mode, Ends(Stored))
    && d.unresolved == c.unresolved + One(x, mode, Ends(Unresolved))
    && d.filtered == c.filtered + One(x, mode, Ends(Unwanted)) + One(x, mode, Ends(NotCreated))
    && d.skipped == c.skipped + One(x, mode, Ends(Unresolved)) + One(x, mode, Ends(Unwanted)) + One(x, mode, Ends(NotCreated))
    && d.failures == c.failures + One(x, mode, Failure)
  }

  // A non-empty response: its diagnostics are counted, then its location is merged and counted.
  method MergeOne(scanned: Location, diagnostics: Diagnostics, merge: Merge, c: Counters)
    returns (d: Counters, location: Location, threw: Option<Fault>)
    ensures threw == if diagnostics.BadDiagnostics? then Some(Plain) else if merge.MergeFails? then Some(merge.fault) else None
    ensures threw.None? ==> location == merge.location
    ensures d == c.(block := d.block, labelled := d.labelled, mismatch := d.mismatch, fetched := d.fetched,
                    confirmedAddress := d.confirmedAddress, regionOnly := d.regionOnly, missing := d.missing)
    ensures d.block == c.block + if diagnostics.Diagnostics? && diagnostics.block then 1 else 0
    ensures d.labelled == c.labelled + if diagnostics.Diagnostics? && diagnostics.labelled then 1 else 0
    ensures d.mismatch == c.mismatch + if diagnostics.Diagnostics? && diagnostics.mismatch then 1 else 0
    ensures d.confirmedAddress == c.confirmedAddress + if threw.None? && location == ConfirmedAddress then 1 else 0
    ensures d.regionOnly == c.regionOnly + if threw.None? && location == RegionOnly then 1 else 0
    ensures d.missing == c.missing + if threw.None? && location == Missing then 1 else 0
    ensures d.fetched == c.fetched + if threw.None? then 1 else 0
  {
    d, location, threw := c, scanned, None;
    if diagnostics.BadDiagnostics? { return d, scanned, Some(Plain); }
    if diagnostics.Diagnostics? {
      if diagnostics.block { d := d.(block := d.block + 1); }
      if diagnostics.labelled { d := d.(labelled := d.labelled + 1); }
      if diagnostics.mismatch { d := d.(mismatch := d.mismatch + 1); }
    }
    if merge.MergeFails? { return d, scanned, Some(merge.fault); }
    location := merge.location;
    match location {
      case ConfirmedAddress => d := d.(confirmedAddress := d.confirmedAddress + 1);
      case RegionOnly => d := d.(regionOnly := d.regionOnly + 1);
      case Missing => d := d.(missing := d.missing + 1);
    }
    d := d.(fetched := d.fetched + 1);
  }

  method FetchOne(x: Item, mode: Mode, c: Counters) returns (d: Counters, fate: FetchFate)
    requires !x.cancelled
    ensures fate == FetchFateOf(x, mode) && FetchCounted(x, mode, c, d)
    ensures d.created == c.created && d.unresolved == c.unresolved && d.filtered == c.filtered && d.skipped == c.skipped
    ensures d.failures == c.failures + if FetchPart(x, mode).FetchGivesUp? then 1 else 0
  {
    hide Stopping, FateOf;
    d := c;
    if !mode.fetches { return d, Located(x.scanned); }
    var failed := false;
    var location := x.scanned;
    match x.fetch {
      case CheckFails(f) =>
        if Stopping(f, mode) { return d, FetchAborts; }
        failed := true;
      case FetchFails(f) =>
        d := d.(attempted := d.attempted + 1);
        if f == Fatal { return d, FetchAborts; }
        failed := true;
      case FetchCancelled =>
        d := d.(attempted := d.attempted + 1, ok := d.ok + 1);
        return d, FetchAborts;
      case EmptyResponse =>
        d := d.(attempted := d.attempted + 1, ok := d.ok + 1);
      case Fetched(diagnostics, merge, progress) =>
        d := d.(attempted := d.attempted + 1, ok := d.ok + 1);
        var threw;
        d, location, threw := MergeOne(x.scanned, diagnostics, merge, d);
        if (threw.Some? && Stopping(threw.value, mode)) || (threw.None? && progress.Some? && Stopping(progress.value, mode)) {
          return d, FetchAborts;
        }
        failed := threw.Some?;
    }
    if failed { d := d.(failures := d.failures + 1); }
    if x.pauseCancelled { return d, FetchAborts; }
    fate := if failed then FetchGivesUp else Located(location);
  }

  method PersistOne(x: Item, mode: Mode, location: Location, c: Counters) returns (d: Counters, fate: Fate)
    requires !x.cancelled && FetchFateOf(x, mode) == Located(location)
    ensures fate == FateOf(x, mode) && EndCounted(x, mode, c, d)
    ensures d == c.(created := d.created, unresolved := d.unresolved, filtered := d.filtered, skipped := d.skipped, failures := d.failures)
  {
    d := c;
    if location == Missing {
      return d.(unresolved := d.unresolved + 1, skipped := d.skipped + 1), Unresolved;
    }
    if mode.snapshot {
      if x.filter.MatchFails? { return d, Abort; }
      if x.filter.Differs? {
        return d.(filtered := d.filtered + 1, skipped := d.skipped + 1), Unwanted;
      }
    }
    match x.create {
      case Created => return d.(created := d.created + 1), Stored;
      case Refused => return d.(filtered := d.filtered + 1, skipped := d.skipped + 1), NotCreated;
      case CreateFails(f) =>
        if Stopping(f, mode) { return d, Abort; }
        return d.(failures := d.failures + 1), Failed;
    }
  }

  // The counters after the visited items.
  predicate Tallied(items: seq<Item>, mode: Mode, c: Counters) {
    && c.attempted == Count(items, mode, Attempt) && c.ok == Count(items, mode, Response)
    && c.block == Count(items, mode, Block) && c.labelled == Count(items, mode, Label) && c.mismatch == Count(items, mode, Mismatch)
    && c.confirmedAddress == Count(items, mode, Place(ConfirmedAddress))
    && c.regionOnly == Count(items, mode, Place(RegionOnly)) && c.missing == Count(items, mode, Place(Missing))
    && c.fetched == c.confirmedAddress + c.regionOnly + c.missing
    && c.created == Count(items, mode, Ends(Stored)) && c.unresolved == Count(items, mode, Ends(Unresolved))
    && c.filtered == Count(items, mode, Ends(Unwanted)) + Count(items, mode, Ends(NotCreated))
    && c.skipped == c.unresolved + c.filtered
    && c.failures == Count(items, mode, Failure)
  }

  lemma OneMoreTallied(items: seq<Item>, i: nat, mode: Mode, c: Counters, d: Counters)
    requires i < |items| && Tallied(items[..i], mode, c)
    requires FetchCounted(items[i], mode, c, d) && EndCounted(items[i], mode, c, d)
    ensures Tallied(items[..i + 1], mode, d)
    ensures WithFate(items[..i + 1], mode, Unresolved)
         == WithFate(items[..i], mode, Unresolved) + if FateOf(items[i], mode) == Unresolved then [items[i]] else []
  {
    assert items[..i + 1][..i] == items[..i] && Last(items[..i + 1]) == items[i];
    hide One, FateOf;
  }

  datatype Outcome = Finished | Aborted | SourceDown

  // No adapter call gave a response, and nothing but adapter calls failed.
  predicate Down(c: Counters, mode: Mode) {
    mode.snapshot && c.attempted > 0 && c.ok == 0 && c.failures == c.attempted
  }

  /**
    The counters are those of the visited items, which are all of them unless one aborts the loop.
    The second result lists the items left out for want of a location.
   */
  method FetchDetails(items: seq<Item>, mode: Mode) returns (outcome: Outcome, c: Counters, unresolved: seq<Item>, ghost visited: nat)
    ensures visited <= |items| && Tallied(items[..visited], mode, c)
    ensures outcome == Aborted ==> visited > 0 && FateOf(items[visited - 1], mode) == Abort
    ensures forall i | 0 <= i < visited - 1 :: FateOf(items[i], mode) != Abort
    ensures outcome != Aborted ==> visited == |items| && forall i | 0 <= i < |items| :: FateOf(items[i], mode) != Abort
    ensures outcome != Aborted ==> (outcome == SourceDown <==> mode.snapshot && c.attempted >= 1 && c.ok == 0 && c.failures == c.attempted)
    ensures unresolved == WithFate(items[..visited], mode, Unresolved)
  {
    hide FateOf, FetchPart, FetchFateOf, Tallied, Count, FetchCounted, EndCounted, WithFate;
    c, unresolved, visited := NoCounts, [], 0;
    NothingTallied(mode);
    for i := 0 to |items|
      invariant visited == i && Tallied(items[..i], mode, c)
      invariant forall k | 0 <= k < i :: FateOf(items[k], mode) != Abort
      invariant unresolved == WithFate(items[..i], mode, Unresolved)
    {
      var x := items[i];
      ghost var before := c;
      var fate;
      c, fate := HandleOne(x, mode, c);
      OneMoreTallied(items, i, mode, before, c);
      visited := i + 1;
      if fate == Unresolved { unresolved := unresolved + [x]; }
      if fate == Abort { return Aborted, c, unresolved, visited; }
    }
    assert items[..|items|] == items;
    outcome := if Down(c, mode) then SourceDown else Finished;
  }

  lemma NothingTallied(mode: Mode)
    ensures Tallied([], mode, NoCounts) && WithFate([], mode, Unresolved) == []
  {
  }

  method HandleOne(x: Item, mode: Mode, c: Counters) returns (d: Counters, fate: Fate)
    ensures fate == FateOf(x, mode) && FetchCounted(x, mode, c, d) && EndCounted(x, mode, c, d)
  {
    if x.cancelled { return c, Abort; }
    var place;
    d, place := FetchOne(x, mode, c);
    match place {
      case FetchAborts => fate := Abort;
      case FetchGivesUp => fate := Failed;
      case Located(location) => d, fate := PersistOne(x, mode, location, d);
    }
  }

  // ---------- Accounting ----------

  predicate NoAbort(items: seq<Item>, mode: Mode) {
    forall i | 0 <= i < |items| :: FateOf(items[i], mode) != Abort
  }

  lemma ItemLaws(x: Item, mode: Mode)
    ensures One(x, mode, Ends(Stored)) + One(x, mode, Ends(Unresolved)) + One(x, mode, Ends(Unwanted)) + One(x, mode, Ends(NotCreated))
          + One(x, mode, Failure) + One(x, mode, Ends(Abort))
         == 1 + if FateOf(x, mode) == Abort then One(x, mode, Failure) else 0
    ensures One(x, mode, Response) <= One(x, mode, Attempt)
    ensures One(x, mode, Block) <= One(x, mode, Response) && One(x, mode, Label) <= One(x, mode, Response)
         && One(x, mode, Mismatch) <= One(x, mode, Response)
    ensures One(x, mode, Place(ConfirmedAddress)) + One(x, mode, Place(RegionOnly)) + One(x, mode, Place(Missing)) <= One(x, mode, Response)
    ensures mode.fetches ==> One(x, mode, Ends(Unresolved)) <= One(x, mode, Place(Missing)) + One(x, mode, EmptyMissing)
    ensures mode.fetches && FateOf(x, mode) != Abort ==>
              One(x, mode, Ends(Unresolved)) == One(x, mode, Place(Missing)) + One(x, mode, EmptyMissing)
    ensures !mode.fetches ==> One(x, mode, Attempt) == 0
    ensures mode.fetches && mode.snapshot && FateOf(x, mode) != Abort ==>
              One(x, mode, Attempt) == 1 && One(x, mode, Response) + One(x, mode, Failure) == 1
  {
  }

  /** The laws of the counters after any run of the loop, also one that an item aborted. */
  lemma {:induction false} CounterLaws(items: seq<Item>, mode: Mode)
    ensures Count(items, mode, Response) <= Count(items, mode, Attempt) <= |items|
    ensures Count(items, mode, Block) <= Count(items, mode, Response) && Count(items, mode, Label) <= Count(items, mode, Response)
         && Count(items, mode, Mismatch) <= Count(items, mode, Response)
    ensures Count(items, mode, Place(ConfirmedAddress)) + Count(items, mode, Place(RegionOnly)) + Count(items, mode, Place(Missing))
         <= Count(items, mode, Response)
    ensures mode.fetches ==>
      Count(items, mode, Ends(Unresolved)) <= Count(items, mode, Place(Missing)) + Count(items, mode, EmptyMissing)
    ensures Count(items, mode, Ends(Unresolved)) <= |items|
    ensures !mode.fetches ==> Count(items, mode, Attempt) == 0
  {
    if items != [] {
      CounterLaws(items[..|items| - 1], mode);
      ItemLaws(Last(items), mode);
      hide Happens, FateOf;
    }
  }

  /** When no item aborts the loop every item is accounted for exactly once. */
  lemma {:induction false} FinishedLaws(items: seq<Item>, mode: Mode)
    requires NoAbort(items, mode)
    ensures Count(items, mode, Ends(Stored)) + Count(items, mode, Ends(Unresolved)) + Count(items, mode, Ends(Unwanted))
          + Count(items, mode, Ends(NotCreated)) + Count(items, mode, Failure) == |items|
    ensures mode.fetches ==>
      Count(items, mode, Ends(Unresolved)) == Count(items, mode, Place(Missing)) + Count(items, mode, EmptyMissing)
    ensures mode.fetches && mode.snapshot ==>
      Count(items, mode, Attempt) == |items| && Count(items, mode, Response) + Count(items, mode, Failure) == |items|
  {
    if items != [] {
      FinishedLaws(items[..|items| - 1], mode);
      ItemLaws(Last(items), mode);
      NoAbortLast(items, mode);
      hide Happens, FateOf, NoAbort;
    }
  }

  lemma NoAbortLast(items: seq<Item>, mode: Mode)
    requires items != [] && NoAbort(items, mode)
    ensures FateOf(Last(items), mode) != Abort && One(Last(items), mode, Ends(Abort)) == 0
  {
  }

  /** A finished loop finds the source down exactly if it has a snapshot and each of its items failed in the adapter. */
  lemma DownMeans(items: seq<Item>, mode: Mode, c: Counters)
    requires NoAbort(items, mode) && Tallied(items, mode, c)
    ensures (mode.snapshot && c.attempted >= 1 && c.ok == 0 && c.failures == c.attempted) <==>
      mode.snapshot && mode.fetches && items != [] && forall x | x in items :: x.fetch == FetchFails(Plain)
  {
    CounterLaws(items, mode);
    FinishedLaws(items, mode);
    if mode.snapshot && mode.fetches { ResponsesMissing(items, mode); }
    hide Count, NoAbort;
  }

  lemma {:induction false} ResponsesMissing(items: seq<Item>, mode: Mode)
    requires NoAbort(items, mode) && mode.snapshot && mode.fetches
    ensures Count(items, mode, Response) == 0 <==> forall x | x in items :: x.fetch == FetchFails(Plain)
  {
    if items != [] {
      var before := items[..|items| - 1];
      assert items == before + [Last(items)];
      NoAbortLast(items, mode);
      ResponsesMissing(before, mode);
      ResponseMissing(Last(items), mode);
      hide Happens, FateOf, NoAbort;
    }
  }

  lemma ResponseMissing(x: Item, mode: Mode)
    requires mode.snapshot && mode.fetches && FateOf(x, mode) != Abort
    ensures One(x, mode, Response) == if x.fetch == FetchFails(Plain) then 0 else 1
  {
  }

  /**
    What a fault comes to: a fatal one aborts the loop wherever it strikes; a plain one fails the item alone, except that with
    a snapshot it aborts the loop too, unless it is the adapter's.
   */
  lemma FaultsDecide(x: Item, mode: Mode, fault: Fault)
    requires mode.fetches && !x.cancelled && !x.pauseCancelled
    ensures x.fetch == CheckFails(fault) || (x.fetch.Fetched? && !x.fetch.diagnostics.BadDiagnostics? && x.fetch.merge == MergeFails(fault)) ==>
      FateOf(x, mode) == if fault == Plain && !mode.snapshot then Failed else Abort
    ensures x.fetch == FetchFails(fault) ==> FateOf(x, mode) == if fault == Plain then Failed else Abort
    ensures x.fetch.Fetched? && x.fetch.diagnostics.BadDiagnostics? ==> FateOf(x, mode) == if mode.snapshot then Abort else Failed
    ensures x.fetch.EmptyResponse? && x.scanned != Missing && (mode.snapshot ==> x.filter.Matches?) && x.create == CreateFails(fault) ==>
      FateOf(x, mode) == if fault == Plain && !mode.snapshot then Failed else Abort
  {
  }

  // The consumer's contract, parser-source-health.ts.
  const MAX_SAFE_INTEGER := 9007199254740991

  predicate AssertCounters(c: Counters, detailSupported: bool) {
    && (forall n | n in [c.attempted, c.ok, c.block, c.labelled, c.confirmedAddress, c.regionOnly, c.missing, c.unresolved, c.mismatch] ::
          n <= MAX_SAFE_INTEGER)
    && if !detailSupported then
         forall n | n in [c.attempted, c.ok, c.block, c.labelled, c.confirmedAddress, c.regionOnly, c.missing, c.mismatch] :: n == 0
       else
         && c.ok <= c.attempted && c.block <= c.ok && c.labelled <= c.ok && c.mismatch <= c.ok
         && c.confirmedAddress + c.regionOnly + c.missing <= MAX_SAFE_INTEGER
         && c.confirmedAddress + c.regionOnly + c.missing <= c.ok
         && c.unresolved <= c.missing
  }

  /** Counters above 2^53 - 1 are refused, and counters up to it are accepted. */
  lemma SafeIntegersOnly(c: Counters, supported: bool, n: nat)
    ensures AssertCounters(c, supported) ==> c.attempted <= 9007199254740991 && c.unresolved <= 9007199254740991
    ensures n <= 9007199254740991 ==>
      && AssertCounters(Counters(n, n, 0, n, n, n, 0, 0, n, n, 0, 0, 0, 0), true)
      && AssertCounters(Counters(0, 0, 0, 0, 0, 0, 0, 0, 0, n, 0, 0, 0, 0), false)
  {
    assert c.attempted in [c.attempted, c.ok, c.block, c.labelled, c.confirmedAddress, c.regionOnly, c.missing, c.unresolved, c.mismatch];
    assert c.unresolved in [c.attempted, c.ok, c.block, c.labelled, c.confirmedAddress, c.regionOnly, c.missing, c.unresolved, c.mismatch];
  }

  // No array of the runtime is longer.
  const MAX_ARRAY_LENGTH := 0xFFFF_FFFF

  lemma AssertCountersByParts(c: Counters, detailSupported: bool)
    requires c.ok <= c.attempted <= MAX_SAFE_INTEGER && c.block <= c.ok && c.labelled <= c.ok && c.mismatch <= c.ok
    requires c.confirmedAddress + c.regionOnly + c.missing <= c.ok && c.unresolved <= MAX_SAFE_INTEGER
    ensures detailSupported ==> (AssertCounters(c, true) <==> c.unresolved <= c.missing)
    ensures !detailSupported && c.attempted == 0 ==> AssertCounters(c, false)
  {
  }

  /**
    The accounting of a loop that ends: every item is created, skipped or failed; every non-empty detail response has one location; with a
    snapshot every item is attempted, and has a response or a failure.
   */
  lemma DetailsAccounting(items: seq<Item>, mode: Mode, c: Counters)
    requires NoAbort(items, mode) && Tallied(items, mode, c)
    ensures c.created + c.skipped + c.failures == |items|
    ensures c.confirmedAddress + c.regionOnly + c.missing == c.fetched <= c.ok <= c.attempted
    ensures mode.snapshot && mode.fetches ==> c.ok + c.failures == c.attempted == |items|
  {
    CounterLaws(items, mode);
    FinishedLaws(items, mode);
  }

  // A response without content for an item whose scan had found no location.
  predicate EmptyUnlocated(x: Item) { x.fetch.EmptyResponse? && x.scanned == Missing }

  /**
    The consumer accepts the counters of a loop that ends if and only if no detail response was empty for an item whose
    scan had found no location. A parser without details always passes.
   */
  lemma ContractHolds(items: seq<Item>, mode: Mode, c: Counters)
    requires NoAbort(items, mode) && Tallied(items, mode, c) && |items| <= MAX_ARRAY_LENGTH
    ensures AssertCounters(c, mode.fetches) <==>
      !mode.fetches || forall i | 0 <= i < |items| :: !EmptyUnlocated(items[i])
  {
    CounterLaws(items, mode);
    FinishedLaws(items, mode);
    if mode.fetches { FewEmptyMissing(items, mode); }
    hide Count, NoAbort;
    AssertCountersByParts(c, mode.fetches);
  }

  // The counters of a list of items.
  function Tally(items: seq<Item>, mode: Mode): (c: Counters)
    ensures Tallied(items, mode, c)
  {
    var address, region, missing := Count(items, mode, Place(ConfirmedAddress)), Count(items, mode, Place(RegionOnly)), Count(items, mode, Place(Missing));
    var unresolved, filtered := Count(items, mode, Ends(Unresolved)), Count(items, mode, Ends(Unwanted)) + Count(items, mode, Ends(NotCreated));
    Counters(Count(items, mode, Attempt), Count(items, mode, Response), address + region + missing,
      Count(items, mode, Block), Count(items, mode, Label), Count(items, mode, Mismatch), address, region, missing, unresolved,
      Count(items, mode, Ends(Stored)), filtered, unresolved + filtered, Count(items, mode, Failure))
  }

  /** It can fail: one item without a location and with an empty response ends the loop, and its counters are refused. */
  lemma EmptyResponseIsRefused(id: string, filter: Filter, create: Create, snapshot: bool)
    ensures var items, mode := [Item(id, false, Missing, EmptyResponse, false, filter, create)], Mode(snapshot, true);
            NoAbort(items, mode) && !AssertCounters(Tally(items, mode), true)
  {
    var items, mode := [Item(id, false, Missing, EmptyResponse, false, filter, create)], Mode(snapshot, true);
    assert EmptyUnlocated(items[0]);
    hide Tally, Tallied, Count, AssertCounters;
    ContractHolds(items, mode, Tally(items, mode));
  }

  // The item was merged to a missing location before it aborted the loop.
  predicate MergedToMissing(x: Item) {
    !x.cancelled && x.fetch.Fetched? && !x.fetch.diagnostics.BadDiagnostics? && x.fetch.merge == Merged(Missing)
  }

  /**
    The counters reported by a loop that its last visited item aborts are accepted if and only if no earlier item had an
    empty response without a scanned location, or one had and the aborting item was merged to a missing location, whose
    count stands in for it.
   */
  lemma ContractHoldsOnAbort(items: seq<Item>, mode: Mode, c: Counters)
    requires items != [] && FateOf(Last(items), mode) == Abort && NoAbort(items[..|items| - 1], mode)
    requires Tallied(items, mode, c) && |items| <= MAX_ARRAY_LENGTH
    ensures var earlier := items[..|items| - 1];
            AssertCounters(c, mode.fetches) <==>
              || !mode.fetches
              || (forall i | 0 <= i < |earlier| :: !EmptyUnlocated(earlier[i]))
              || (MergedToMissing(Last(items))
                  && forall i, j | 0 <= i < j < |earlier| :: !(EmptyUnlocated(earlier[i]) && EmptyUnlocated(earlier[j])))
  {
    CounterLaws(items, mode);
    var earlier := items[..|items| - 1];
    if mode.fetches {
      FinishedLaws(earlier, mode);
      AbortingItem(Last(items), mode);
      FewEmptyMissing(earlier, mode);
      LastCounts(items, mode);
    }
    hide Count, NoAbort, FateOf, EmptyUnlocated, MergedToMissing;
    AssertCountersByParts(c, mode.fetches);
  }

  lemma LastCounts(items: seq<Item>, mode: Mode)
    requires items != []
    ensures forall e :: Count(items, mode, e) == Count(items[..|items| - 1], mode, e) + One(Last(items), mode, e)
  {
  }

  lemma AbortingItem(x: Item, mode: Mode)
    requires mode.fetches && FateOf(x, mode) == Abort
    ensures One(x, mode, Ends(Unresolved)) == 0
    ensures One(x, mode, Place(Missing)) == if MergedToMissing(x) then 1 else 0
  {
  }

  /** So an aborted loop can hide such an item: the one whose loss of the page follows makes the counters agree. */
  lemma AbortCanHideIt(id: string, filter: Filter, create: Create, snapshot: bool)
    ensures var fetched := Fetched(NoDiagnostics, Merged(Missing), None);
            var items := [Item(id, false, Missing, EmptyResponse, false, filter, create),
                          Item(id, false, Missing, fetched, true, filter, create)];
            var mode := Mode(snapshot, true);
            && FateOf(items[0], mode) == Unresolved && FateOf(items[1], mode) == Abort
            && EmptyUnlocated(items[0]) && AssertCounters(Tally(items, mode), true)
  {
    var fetched := Fetched(NoDiagnostics, Merged(Missing), None);
    var items := [Item(id, false, Missing, EmptyResponse, false, filter, create),
                  Item(id, false, Missing, fetched, true, filter, create)];
    var mode := Mode(snapshot, true);
    assert items[..1] == [items[0]] && Last(items) == items[1] && MergedToMissing(items[1]);
    assert FateOf(items[0], mode) == Unresolved && FateOf(items[1], mode) == Abort;
    hide Tally, Tallied, Count, AssertCounters;
    ContractHoldsOnAbort(items, mode, Tally(items, mode));
  }

  // None, and at most one, of the items had an empty response without a location.
  lemma {:induction false} FewEmptyMissing(items: seq<Item>, mode: Mode)
    requires NoAbort(items, mode) && mode.fetches
    ensures Count(items, mode, EmptyMissing) == 0 <==> forall i | 0 <= i < |items| :: !EmptyUnlocated(items[i])
    ensures Count(items, mode, EmptyMissing) <= 1 <==>
      forall i, j | 0 <= i < j < |items| :: !(EmptyUnlocated(items[i]) && EmptyUnlocated(items[j]))
  {
    if items != [] {
      var before := items[..|items| - 1];
      FewEmptyMissing(before, mode);
      EmptyMissingEnds(Last(items), mode);
      assert items == before + [Last(items)];
      hide Happens, FateOf, NoAbort, EmptyUnlocated;
      if EmptyUnlocated(Last(items)) {
        forall i | 0 <= i < |before| && Count(items, mode, EmptyMissing) <= 1 ensures !EmptyUnlocated(before[i]) {}
        if Count(items, mode, EmptyMissing) > 1 {
          var i :| 0 <= i < |before| && EmptyUnlocated(before[i]);
          assert EmptyUnlocated(items[i]) && EmptyUnlocated(items[|before|]);
        }
      }
    }
  }

  lemma EmptyMissingEnds(x: Item, mode: Mode)
    requires mode.fetches && FateOf(x, mode) != Abort
    ensures One(x, mode, EmptyMissing) == if EmptyUnlocated(x) then 1 else 0
  {
  }
}
