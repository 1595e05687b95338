/** The scan loop and the details loop of a parser job, with the counters they report. */
module ParseHandler {

  // ---------- Scan ----------

  // What a listed item meets: the existence check, then the filters. A cancellation may come at any of their steps,
  // or before them, when the loop turns to the item.
  datatype Probe = Exists | Fresh(verdict: Verdict) | ProbeFails | ProbeCancelled
  datatype Verdict = Pass | Reject | FilterFails

  datatype Listed = Listed(id: string, cancelled: bool, probe: Probe)

  const SMART_STOP_THRESHOLD := 10

  predicate IsKept(x: Listed) { x.probe == Fresh(Pass) }

  function Kept(items: seq<Listed>): seq<Listed> {
    if items == [] then [] else Kept(items[..|items| - 1]) + (if IsKept(Last(items)) then [Last(items)] else [])
  }

  function Last<T>(s: seq<T>): T
    requires s != []
  {
    s[|s| - 1]
  }

  function CountExisting(items: seq<Listed>): nat {
    if items == [] then 0 else CountExisting(items[..|items| - 1]) + if Last(items).probe.Exists? then 1 else 0
  }

  function CountRejected(items: seq<Listed>): nat {
    if items == [] then 0 else CountRejected(items[..|items| - 1]) + if Last(items).probe == Fresh(Reject) then 1 else 0
  }

  // The existing items since the last fresh one; items whose check failed neither count nor interrupt.
  function Streak(items: seq<Listed>): nat {
    if items == [] then 0
    else match Last(items).probe
      case Exists => Streak(items[..|items| - 1]) + 1
      case Fresh(_) => 0
      case _ => Streak(items[..|items| - 1])
  }

  // The loop has what it wants, or has seen too many duplicates.
  predicate Stops(visited: seq<Listed>, depth: int) {
    |Kept(visited)| >= depth || TooManyDuplicates(visited)
  }

  // After v items a requested cancellation ends the job: at the head of the loop it comes before the test of the depth.
  predicate Cancels(items: seq<Listed>, v: nat, depth: int) {
    && v < |items| && !TooManyDuplicates(items[..v])
    && (items[v].cancelled || (|Kept(items[..v])| < depth && items[v].probe.ProbeCancelled?))
  }

  predicate EndsAt(items: seq<Listed>, v: nat, depth: int)
    requires v <= |items|
  {
    v == |items| || Stops(items[..v], depth) || Cancels(items, v, depth)
  }

  // The number of visited items, from the first `from` of them on: up to a stop, a cancellation or the end.
  function VisitedFrom(items: seq<Listed>, depth: int, from: nat): (v: nat)
    requires from <= |items|
    ensures from <= v <= |items|
    decreases |items| - from
  {
    if EndsAt(items, from, depth) then from
    else VisitedFrom(items, depth, from + 1)
  }

  function Visited(items: seq<Listed>, depth: int): nat { VisitedFrom(items, depth, 0) }

  /** The visited items end where the loop ends, and no earlier prefix of them stops it or meets a cancellation. */
  lemma {:induction false} VisitedIsFirst(items: seq<Listed>, depth: int, from: nat)
    requires from <= |items|
    ensures var v := VisitedFrom(items, depth, from);
            && (forall k | from <= k < v :: !Stops(items[..k], depth) && !items[k].cancelled && !items[k].probe.ProbeCancelled?)
            && EndsAt(items, v, depth)
    decreases |items| - from
  {
    if !EndsAt(items, from, depth) {
      VisitedIsFirst(items, depth, from + 1);
    }
  }

  datatype ScanResult = ScanCancelled | Scanned(kept: seq<Listed>, existing: nat, preFiltered: nat)

  // What one more visited item adds.
  lemma OneMoreListed(items: seq<Listed>, i: nat)
    requires i < |items|
    ensures Last(items[..i + 1]) == items[i]
    ensures Kept(items[..i + 1]) == Kept(items[..i]) + (if IsKept(items[i]) then [items[i]] else [])
    ensures CountExisting(items[..i + 1]) == CountExisting(items[..i]) + if items[i].probe.Exists? then 1 else 0
    ensures CountRejected(items[..i + 1]) == CountRejected(items[..i]) + if items[i].probe == Fresh(Reject) then 1 else 0
    ensures Streak(items[..i + 1]) ==
      match items[i].probe case Exists => Streak(items[..i]) + 1 case Fresh(_) => 0 case _ => Streak(items[..i])
  {
    assert items[..i + 1][..i] == items[..i];
  }

  predicate TooManyDuplicates(visited: seq<Listed>) {
    visited != [] && Last(visited).probe.Exists? && Streak(visited) >= SMART_STOP_THRESHOLD
  }

  lemma StreakTest(items: seq<Listed>, i: nat)
    requires i < |items|
    ensures TooManyDuplicates(items[..i + 1]) <==> items[i].probe.Exists? && Streak(items[..i + 1]) >= SMART_STOP_THRESHOLD
  {
  }

  lemma NothingVisited()
    ensures Kept([]) == [] && CountExisting([]) == 0 && CountRejected([]) == 0 && Streak([]) == 0 && !TooManyDuplicates([])
  {
  }

  /**
    The kept items are, in order, those visited that are new and pass the filters. The visited items are the shortest
    prefix of the listing at which the loop stops, or all of it; a cancellation met before that ends the job.
   */
  method Scan(items: seq<Listed>, depth: int) returns (r: ScanResult)
    ensures var visited := Visited(items, depth);
            r == if Cancels(items, visited, depth) then ScanCancelled
                 else Scanned(Kept(items[..visited]), CountExisting(items[..visited]), CountRejected(items[..visited]))
  {
    hide Kept, CountExisting, CountRejected, Streak, TooManyDuplicates;
    NothingVisited();
    var kept: seq<Listed> := [];
    var existing, preFiltered, consecutiveDuplicates := 0, 0, 0;
    var i := 0;
    while i < |items|
      invariant 0 <= i <= |items|
      invariant kept == Kept(items[..i]) && existing == CountExisting(items[..i]) && preFiltered == CountRejected(items[..i])
      invariant consecutiveDuplicates == Streak(items[..i])
      invariant !TooManyDuplicates(items[..i])
      invariant Visited(items, depth) == VisitedFrom(items, depth, i)
    {
      if items[i].cancelled { return ScanCancelled; }
      if |kept| >= depth { break; }
      OneMoreListed(items, i);
      StreakTest(items, i);
      match items[i].probe {
        case ProbeCancelled => return ScanCancelled;
        case Exists =>
          existing := existing + 1;
          consecutiveDuplicates := consecutiveDuplicates + 1;
          if consecutiveDuplicates >= SMART_STOP_THRESHOLD {
            i := i + 1;
            break;
          }
        case Fresh(verdict) =>
          consecutiveDuplicates := 0;
          match verdict {
            case Pass => kept := kept + [items[i]];
            case Reject => preFiltered := preFiltered + 1;
            case FilterFails =>
          }
        case ProbeFails =>
      }
      i := i + 1;
    }
    r := Scanned(kept, existing, preFiltered);
  }

  predicate LastTenExist(items: seq<Listed>) {
    |items| >= SMART_STOP_THRESHOLD && forall i | |items| - SMART_STOP_THRESHOLD <= i < |items| :: items[i].probe.Exists?
  }

  lemma {:induction false} StreakSuffix(items: seq<Listed>, n: nat)
    requires Streak(items) >= n
    ensures |items| >= n
    ensures (forall i | |items| - n <= i < |items| :: items[i].probe.Exists? || items[i].probe.Fresh?) ==>
            (forall i | |items| - n <= i < |items| :: items[i].probe.Exists?)
  {
    if n > 0 {
      var before := items[..|items| - 1];
      assert forall i | 0 <= i < |before| :: before[i] == items[i];
      if Last(items).probe.Exists? {
        StreakSuffix(before, n - 1);
      } else {
        StreakSuffix(before, n);
      }
    }
  }

  /**
    A stop for duplicates does not mean that the last ten visited items existed, since a failed check
    does not interrupt the streak: it means that if and only if none of the last ten checks failed.
   */
  lemma StopForDuplicates(visited: seq<Listed>)
    requires TooManyDuplicates(visited)
    requires forall i | 0 <= i < |visited| :: !visited[i].probe.ProbeCancelled?
    ensures |visited| >= SMART_STOP_THRESHOLD
    ensures LastTenExist(visited) <==>
      forall i | |visited| - SMART_STOP_THRESHOLD <= i < |visited| :: !visited[i].probe.ProbeFails?
  {
    StreakSuffix(visited, SMART_STOP_THRESHOLD);
  }

  /** Eleven items, the sixth of them not checked, end the scan although the last ten did not all exist. */
  lemma FailedCheckDoesNotInterrupt(depth: int)
    requires depth > 0
    ensures var s := Run(Listed("e", false, Exists), 5) + [Listed("f", false, ProbeFails)] + Run(Listed("e", false, Exists), 5);
            TooManyDuplicates(s) && Kept(s) == [] && !LastTenExist(s)
  {
    var e, f := Listed("e", false, Exists), Listed("f", false, ProbeFails);
    var first, s := Run(e, 5) + [f], Run(e, 5) + [f] + Run(e, 5);
    ExistingRun([], e, 5);
    assert [] + Run(e, 5) == Run(e, 5);
    assert first[..5] == Run(e, 5) && Last(first) == f;
    ExistingRun(first, e, 5);
    assert !s[5].probe.Exists?;
  }

  function Run(e: Listed, n: nat): (r: seq<Listed>)
    ensures |r| == n && forall i | 0 <= i < n :: r[i] == e
  {
    seq(n, i => e)
  }

  lemma {:induction false} ExistingRun(items: seq<Listed>, e: Listed, n: nat)
    requires e.probe.Exists?
    ensures Streak(items + Run(e, n)) == Streak(items) + n && Kept(items + Run(e, n)) == Kept(items)
  {
    var all := items + Run(e, n);
    if n == 0 {
      assert all == items;
    } else {
      assert all[..|all| - 1] == items + Run(e, n - 1);
      ExistingRun(items, e, n - 1);
    }
  }
}
