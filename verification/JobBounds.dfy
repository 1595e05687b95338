/** Bounds over whole runs: claims, status changes, leases in time, backoff, claim order. */
module JobBounds {
  import opened Wrappers
  import opened JobRows
  import opened JobMachine
  import opened JobInvariant
  import opened JobTheorems

  // ---------- Termination of one job ----------

  predicate ClaimsRow(step: Step, id: nat) {
    step.Claim? && step.pick == Some(id)
  }

  function Claims(s: Sys, steps: seq<Step>, id: nat): nat
    requires Legal(s, steps)
    decreases steps
  {
    if steps == [] then 0
    else (if ClaimsRow(steps[0], id) then 1 else 0) + Claims(Apply(s, steps[0]), steps[1..], id)
  }

  function StatusChanges(s: Sys, steps: seq<Step>, id: nat): nat
    requires Legal(s, steps)
    decreases steps
  {
    if steps == [] then 0
    else
      var t := Apply(s, steps[0]);
      (if id in s.rows && id in t.rows && s.rows[id].status != t.rows[id].status then 1 else 0)
      + StatusChanges(t, steps[1..], id)
  }

  function ClaimsLeft(r: Row): int {
    if r.Terminal() then 0 else r.Cap() - r.attempts
  }

  function ChangesLeft(r: Row): int {
    if r.Terminal() then 0 else 2 * (r.Cap() - r.attempts) + (if r.status.Active? then 1 else 0)
  }

  lemma {:induction false} DeletedIsQuiet(s: Sys, steps: seq<Step>, id: nat)
    requires Legal(s, steps) && id < s.nextId && id !in s.rows
    ensures Claims(s, steps, id) == 0 && StatusChanges(s, steps, id) == 0
    decreases steps
  {
    if steps != [] { DeletedIsQuiet(Apply(s, steps[0]), steps[1..], id); }
  }

  lemma ClaimCosts(s: Sys, step: Step, id: nat)
    requires Inv(s) && Enabled(s, step) && id in s.rows && id in Apply(s, step).rows
    ensures var r, n := s.rows[id], Apply(s, step).rows[id];
            && ClaimsLeft(n) >= 0 && ChangesLeft(n) >= 0
            && ClaimsLeft(n) + (if ClaimsRow(step, id) then 1 else 0) <= ClaimsLeft(r)
            && ChangesLeft(n) + (if r.status != n.status then 1 else 0) <= ChangesLeft(r)
  {
    StepMovesRows(s, step, id);
    StepKeepsInv(s, step);
    assert RowOk(s.rows[id], s.clock) && RowOk(Apply(s, step).rows[id], Apply(s, step).clock);
    if ClaimsRow(step, id) { PickIsPending(s, step); }
    MoveCosts(s.rows[id], Apply(s, step).rows[id], s.clock, Apply(s, step).clock, ClaimsRow(step, id));
    hide Inv, Apply, Enabled, RowOk, RowMoves;
  }

  lemma MoveCosts(r: Row, n: Row, clock: Time, later: Time, claimed: bool)
    requires RowMoves(r, n, clock) && RowOk(r, clock) && RowOk(n, later)
    requires claimed ==> r.status.Pending? && n.status.Active?
    ensures ClaimsLeft(n) >= 0 && ChangesLeft(n) >= 0
    ensures ClaimsLeft(n) + (if claimed then 1 else 0) <= ClaimsLeft(r)
    ensures ChangesLeft(n) + (if r.status != n.status then 1 else 0) <= ChangesLeft(r)
  {
  }

  // A claim picks a pending row, and makes it active.
  lemma PickIsPending(s: Sys, step: Step)
    requires Enabled(s, step) && step.Claim? && step.pick.Some?
    ensures step.pick.value in s.rows && s.rows[step.pick.value].status.Pending?
    ensures step.pick.value in Apply(s, step).rows && Apply(s, step).rows[step.pick.value].status.Active?
  {
  }

  /**
    In any run a job is claimed at most `Cap() - attempts` more times and changes status at most
    `2 * (Cap() - attempts)` (+1 while active) more times, although the claim never looks at `attempts`.
   */
  lemma {:induction false} JobTerminates(s: Sys, steps: seq<Step>, id: nat)
    requires Inv(s) && Legal(s, steps) && id in s.rows
    ensures Claims(s, steps, id) <= ClaimsLeft(s.rows[id])
    ensures StatusChanges(s, steps, id) <= ChangesLeft(s.rows[id])
    decreases steps
  {
    assert RowOk(s.rows[id], s.clock);
    if steps != [] {
      var t := Apply(s, steps[0]);
      StepMovesRows(s, steps[0], id);
      StepKeepsInv(s, steps[0]);
      if id in t.rows {
        ClaimCosts(s, steps[0], id);
        JobTerminates(t, steps[1..], id);
      } else {
        DeletedIsQuiet(t, steps[1..], id);
      }
    }
  }

  /** For a job added with maxAttempts >= 1: at most maxAttempts claims and 2 * maxAttempts status changes, ever. */
  lemma AddedJobTerminates(s: Sys, job: NewJob, steps: seq<Step>)
    requires Inv(s) && Enabled(s, Insert(job)) && !Conflicts(s.rows, job.queue, job.idempotencyKey)
    requires Legal(Apply(s, Insert(job)), steps) && job.maxAttempts >= 1
    ensures Claims(Apply(s, Insert(job)), steps, s.nextId) <= job.maxAttempts
    ensures StatusChanges(Apply(s, Insert(job)), steps, s.nextId) <= 2 * job.maxAttempts
    ensures var t := Run(Apply(s, Insert(job)), steps); s.nextId in t.rows ==> t.rows[s.nextId].attempts <= job.maxAttempts
  {
    var s1 := Apply(s, Insert(job));
    StepKeepsInv(s, Insert(job));
    JobTerminates(s1, steps, s.nextId);
    var t := Run(s1, steps);
    if s.nextId in t.rows {
      RunKeepsInv(s1, steps);
      JobColumnsFixed(s1, steps, s.nextId);
      assert RowOk(t.rows[s.nextId], t.clock);
    }
  }

  // ---------- Leases in time ----------

  function ClockAfter(clock: Time, step: Step): Time {
    if step.Tick? then step.to else clock
  }

  function LastRenewal(last: Time, step: Step, id: nat, token: Token): Time {
    if step.Beat? && step.id == id && step.token == token then step.now else last
  }

  // Along the whole run the clock stays less than `duration` after the stamp of the latest renewal.
  predicate RenewedInTime(clock: Time, steps: seq<Step>, id: nat, token: Token, last: Time, duration: int)
    decreases steps
  {
    && clock < last + duration
    && (steps != [] ==>
          RenewedInTime(ClockAfter(clock, steps[0]), steps[1..], id, token, LastRenewal(last, steps[0], id, token), duration))
  }

  predicate Holds(s: Sys, id: nat, token: Token, last: Time, duration: int) {
    && Owned(s.rows, id, token)
    && s.rows[id].leaseDurationMs == Some(duration)
    && s.rows[id].leaseExpiresAt == Some(last + duration)
  }

  // The handler is still running: its worker has not yet tried to finish the job.
  predicate Undecided(steps: seq<Step>, token: Token) {
    forall step | step in steps :: !(step.Advance? && step.token == token)
  }

  lemma LeaseStep(s: Sys, step: Step, id: nat, token: Token, last: Time, duration: int)
    requires Inv(s) && Enabled(s, step) && Holds(s, id, token, last, duration) && s.clock < last + duration
    requires !(step.Advance? && step.token == token)
    ensures Holds(Apply(s, step), id, token, LastRenewal(last, step, id, token), duration)
    ensures Apply(s, step).clock == ClockAfter(s.clock, step)
  {
    match step
    case Advance(_, _) => OthersLeaveLease(s, step, id, token, last, duration);
    case Beat(_, _, _, _) => OthersLeaveLease(s, step, id, token, last, duration);
    case SweepA(now, threshold) => FreshRowIsNotSwept(s.rows[id], now, threshold);
    case SweepB(now, threshold) => FreshRowIsNotSwept(s.rows[id], now, threshold);
    case SweepC(now, threshold) => FreshRowIsNotSwept(s.rows[id], now, threshold);
    case Insert(_) => assert id < s.nextId;
    case _ => MarksLeaveLease(s, step, id);
  }

  // A lease is touched only under its own token.
  lemma OthersLeaveLease(s: Sys, step: Step, id: nat, token: Token, last: Time, duration: int)
    requires Inv(s) && Enabled(s, step) && Holds(s, id, token, last, duration) && (step.Advance? || step.Beat?)
    requires !(step.Advance? && step.token == token)
    ensures Holds(Apply(s, step), id, token, LastRenewal(last, step, id, token), duration)
    ensures Apply(s, step).clock == s.clock
  {
    var target := if step.Beat? then step.id else s.flights[step.token].id;
    if target != id { OwnerTouchesOneRow(s, step, step.token, target, id); }
    else if step.token != token { ForeignTokenChangesNothing(s, step, step.token, id); }
  }

  lemma MarksLeaveLease(s: Sys, step: Step, id: nat)
    requires Inv(s) && Enabled(s, step) && id in s.rows && s.rows[id].status.Active?
    requires step.CancelOne? || step.MarkOne? || step.ClearAll? || step.CleanUp? || step.Claim? || step.Tick? || step.Crash?
             || step.HandlerReturns? || step.HandlerThrows?
    ensures id in Apply(s, step).rows && Apply(s, step).rows[id].status.Active? && SameLease(s.rows[id], Apply(s, step).rows[id])
    ensures Apply(s, step).clock == ClockAfter(s.clock, step)
  {
    hide Inv, NewRow, Conflicts;
  }

  lemma FreshRowIsNotSwept(r: Row, now: Time, threshold: Time)
    requires r.leaseExpiresAt.Some? && r.leaseExpiresAt.value > now
    ensures FailStaleCancelled(r, now, threshold) == r
    ensures FailStaleExhausted(r, now, threshold) == r
    ensures RecoverStale(r, now, threshold) == r
  {
  }

  /**
    While the holder renews at gaps shorter than the stored duration, its lease is valid and
    no sweep, cancellation, clean-up or other worker takes the job away, at any moment.
   */
  lemma {:induction false} LeaseIsSafe(s: Sys, steps: seq<Step>, id: nat, token: Token, last: Time, duration: int)
    requires Inv(s) && Legal(s, steps) && Holds(s, id, token, last, duration)
    requires RenewedInTime(s.clock, steps, id, token, last, duration) && Undecided(steps, token)
    ensures LeaseValid(Run(s, steps).rows, id, token, Run(s, steps).clock)
    decreases steps
  {
    if steps != [] {
      LeaseStep(s, steps[0], id, token, last, duration);
      StepKeepsInv(s, steps[0]);
      LeaseIsSafe(Apply(s, steps[0]), steps[1..], id, token, LastRenewal(last, steps[0], id, token), duration);
    }
  }

  /** A fresh claim is the start of such a lease. */
  lemma ClaimStartsLease(s: Sys, step: Step)
    requires Inv(s) && Enabled(s, step) && step.Claim? && step.pick.Some?
    ensures Holds(Apply(s, step), step.pick.value, step.token, step.now, step.duration)
    ensures step.token in Apply(s, step).flights && Apply(s, step).flights[step.token].id == step.pick.value
  {
  }

  // ---------- Exponential backoff ----------

  // The earliest start of the claim that follows `failures` failed attempts.
  function Floor(first: Time, failures: nat): Time {
    first + 1000 * (Pow2(failures + 1) - 2)
  }

  predicate BackedOff(r: Row, first: Time) {
    && r.attempts >= 1
    && (r.status.Active? ==> r.startedAt.Some? && r.startedAt.value >= Floor(first, r.attempts - 1))
    && (r.status.Pending? ==> r.scheduledAt.Some? && r.scheduledAt.value >= Floor(first, r.attempts))
  }

  // The sweeper never puts the job back to pending during the run.
  predicate NeverRecovered(s: Sys, steps: seq<Step>, id: nat)
    requires Legal(s, steps)
    decreases steps
  {
    steps != [] ==>
      && !(steps[0].SweepC? && id in s.rows && Apply(s, steps[0]).rows[id] != s.rows[id])
      && NeverRecovered(Apply(s, steps[0]), steps[1..], id)
  }

  // A job returns to pending only through the sweeper or through the retry of its own worker.
  lemma RequeueSource(s: Sys, step: Step, id: nat)
    requires Inv(s) && Enabled(s, step) && id in s.rows && id in Apply(s, step).rows
    requires s.rows[id].status.Active? && Apply(s, step).rows[id].status.Pending?
    ensures step.SweepC? || step.Advance?
    ensures step.Advance? ==>
              var f := s.flights[step.token];
              && Owned(s.rows, id, step.token) && f.claimedAt <= step.now
              && Apply(s, step).rows[id].scheduledAt == Some(step.now + 1000 * Pow2(f.attempts))
  {
    if step.Advance? {
      var f := s.flights[step.token];
      hide Inv, Complete, Fail, NextPhase, IsPick, Conflicts;
      FlightRequeues(s.rows, f, step.token, step.now, id);
    } else {
      OnlyTheSweeperRequeues(s, step, id);
    }
  }

  lemma OnlyTheSweeperRequeues(s: Sys, step: Step, id: nat)
    requires Enabled(s, step) && !step.Advance? && id in s.rows && id < s.nextId && id in Apply(s, step).rows
    requires s.rows[id].status.Active? && Apply(s, step).rows[id].status.Pending?
    ensures step.SweepC?
  {
    hide FlightRows, NextPhase, IsPick, Conflicts, NewRow, Row.Terminal, Row.Live, Row.Doomed;
    match step
    case Claim(_, _, _, _, _, pick) => if pick == Some(id) { PickIsPending(s, step); }
    case ClearAll(_, _) =>
    case SweepA(_, _) =>
    case SweepB(_, _) =>
    case SweepC(_, _) =>
    case _ => hide ClearQueue, SweepCancelled, SweepExhausted, SweepRecovery, Claimed;
  }

  lemma FlightRequeues(rows: Rows, f: Flight, token: Token, now: Time, id: nat)
    requires id in rows && rows[id].status.Active? && id in FlightRows(rows, f, token, now)
    requires FlightRows(rows, f, token, now)[id].status.Pending?
    ensures Owned(rows, id, token) && id == f.id
    ensures FlightRows(rows, f, token, now)[id].scheduledAt == Some(now + 1000 * Pow2(f.attempts))
  {
  }

  lemma MoveKeepsBackoff(r: Row, n: Row, clock: Time, first: Time)
    requires RowMoves(r, n, clock) && RowOk(r, clock) && BackedOff(r, first)
    requires !(r.status.Active? && n.status.Pending?)
    ensures BackedOff(n, first)
  {
  }

  lemma RetryBacksOff(r: Row, n: Row, f: Flight, now: Time, first: Time)
    requires r.status.Active? && n.status.Pending? && n.attempts == r.attempts == f.attempts && BackedOff(r, first)
    requires r.startedAt == Some(f.claimedAt) && f.claimedAt <= now && n.scheduledAt == Some(now + 1000 * Pow2(f.attempts))
    ensures BackedOff(n, first)
  {
    assert Pow2(r.attempts + 1) == 2 * Pow2(r.attempts);
  }

  lemma BackoffStep(s: Sys, step: Step, id: nat, first: Time)
    requires Inv(s) && Enabled(s, step) && id in s.rows && id in Apply(s, step).rows
    requires !(step.SweepC? && Apply(s, step).rows[id] != s.rows[id])
    requires BackedOff(s.rows[id], first)
    ensures BackedOff(Apply(s, step).rows[id], first)
  {
    var r, n := s.rows[id], Apply(s, step).rows[id];
    StepMovesRows(s, step, id);
    if r.status.Active? && n.status.Pending? {
      RequeueSource(s, step, id);
      var f := s.flights[step.token];
      assert FlightOk(s.rows, step.token, f) && n.attempts == r.attempts;
      hide *;
      RetryBacksOff(r, n, f, step.now, first);
    } else {
      assert RowOk(r, s.clock);
      hide *;
      MoveKeepsBackoff(r, n, s.clock, first);
    }
  }

  /**
    If every release of a job so far was a handler failure, the claim that follows k failures starts
    at least 1000 * (2^(k+1) - 2) ms after the first claim.
   */
  lemma {:induction false} BackoffBound(s: Sys, steps: seq<Step>, id: nat, first: Time)
    requires Inv(s) && Legal(s, steps) && id in s.rows && NeverRecovered(s, steps, id)
    requires BackedOff(s.rows[id], first)
    ensures id in Run(s, steps).rows ==> BackedOff(Run(s, steps).rows[id], first)
    decreases steps
  {
    if steps != [] {
      StepKeepsInv(s, steps[0]);
      if id in Apply(s, steps[0]).rows {
        BackoffStep(s, steps[0], id, first);
        BackoffBound(Apply(s, steps[0]), steps[1..], id, first);
      } else {
        StepMovesRows(s, steps[0], id);
        DeletedStaysDeleted(Apply(s, steps[0]), steps[1..], id);
      }
    }
  }

  lemma BackoffFromFirstClaim(s: Sys, claim: Step, steps: seq<Step>, failures: nat)
    requires Inv(s) && Enabled(s, claim) && claim.Claim? && claim.pick.Some? && s.rows[claim.pick.value].attempts == 0
    requires Legal(Apply(s, claim), steps) && NeverRecovered(Apply(s, claim), steps, claim.pick.value)
    ensures var id, t := claim.pick.value, Run(Apply(s, claim), steps);
            id in t.rows && t.rows[id].status.Active? && t.rows[id].attempts == failures + 1 ==>
              t.rows[id].startedAt.Some? && t.rows[id].startedAt.value >= claim.now + 1000 * (Pow2(failures + 1) - 2)
  {
    StepKeepsInv(s, claim);
    BackoffBound(Apply(s, claim), steps, claim.pick.value, claim.now);
  }

  // The stamps of the steps that put the job back after a failure of its handler.
  function Retries(s: Sys, steps: seq<Step>, id: nat): seq<Time>
    requires Legal(s, steps)
    decreases steps
  {
    if steps == [] then []
    else RetryStamp(s, steps[0], id) + Retries(Apply(s, steps[0]), steps[1..], id)
  }

  function RetryStamp(s: Sys, step: Step, id: nat): seq<Time>
    requires Enabled(s, step)
  {
    if step.Advance? && id in s.rows && s.rows[id].status.Active? && id in Apply(s, step).rows && Apply(s, step).rows[id].status.Pending?
    then [step.now] else []
  }

  // After these failures the job is in its next attempt, or waits 1000 * 2^k ms from the k-th on.
  predicate HasRetried(r: Row, stamps: seq<Time>) {
    && (r.status.Active? ==> r.attempts == |stamps| + 1)
    && (r.status.Pending? ==> r.attempts == |stamps|)
    && (r.status.Pending? && stamps != [] ==> r.scheduledAt == Some(stamps[|stamps| - 1] + 1000 * Pow2(|stamps|)))
  }

  lemma RetriedStep(s: Sys, step: Step, id: nat, stamps: seq<Time>)
    requires Inv(s) && Enabled(s, step) && id in s.rows && id in Apply(s, step).rows
    requires !(step.SweepC? && Apply(s, step).rows[id] != s.rows[id])
    requires HasRetried(s.rows[id], stamps)
    ensures HasRetried(Apply(s, step).rows[id], stamps + RetryStamp(s, step, id))
  {
    var r, n := s.rows[id], Apply(s, step).rows[id];
    StepMovesRows(s, step, id);
    if r.status.Active? && n.status.Pending? {
      RequeueSource(s, step, id);
      assert FlightOk(s.rows, step.token, s.flights[step.token]) && n.attempts == r.attempts;
      assert RetryStamp(s, step, id) == [step.now];
      hide *;
      RetriedOnce(r, n, step.now, stamps);
    } else {
      assert RowOk(r, s.clock);
      assert RetryStamp(s, step, id) == [] && stamps + [] == stamps;
      hide *;
      MoveKeepsRetried(r, n, s.clock, stamps);
    }
  }

  lemma RetriedOnce(r: Row, n: Row, now: Time, stamps: seq<Time>)
    requires HasRetried(r, stamps) && r.status.Active? && n.status.Pending?
    requires n.attempts == r.attempts && n.scheduledAt == Some(now + 1000 * Pow2(r.attempts))
    ensures HasRetried(n, stamps + [now])
  {
    hide Pow2;
  }

  lemma MoveKeepsRetried(r: Row, n: Row, clock: Time, stamps: seq<Time>)
    requires RowMoves(r, n, clock) && RowOk(r, clock) && HasRetried(r, stamps)
    requires !(r.status.Active? && n.status.Pending?)
    ensures HasRetried(n, stamps)
  {
    hide Pow2;
  }

  lemma {:induction false} RunHasRetried(s: Sys, steps: seq<Step>, id: nat, stamps: seq<Time>)
    requires Inv(s) && Legal(s, steps) && id in s.rows && NeverRecovered(s, steps, id) && HasRetried(s.rows[id], stamps)
    ensures id in Run(s, steps).rows ==> HasRetried(Run(s, steps).rows[id], stamps + Retries(s, steps, id))
    decreases steps
  {
    hide Inv, HasRetried, Enabled, Apply, RetryStamp;
    if steps == [] {
      assert stamps + Retries(s, steps, id) == stamps;
    } else {
      var t, one := Apply(s, steps[0]), RetryStamp(s, steps[0], id);
      StepKeepsInv(s, steps[0]);
      if id in t.rows {
        RetriedStep(s, steps[0], id, stamps);
        RunHasRetried(t, steps[1..], id, stamps + one);
        assert stamps + one + Retries(t, steps[1..], id) == stamps + Retries(s, steps, id);
      } else {
        StepMovesRows(s, steps[0], id);
        NextIdKnown(s, steps[0], id);
        DeletedStaysDeleted(t, steps[1..], id);
      }
    }
  }

  lemma NextIdKnown(s: Sys, step: Step, id: nat)
    requires Inv(s) && Enabled(s, step) && id in s.rows
    ensures id < Apply(s, step).nextId
  {
    StepGlobals(s, step);
    hide Apply;
  }

  /**
    Without recoveries by the sweeper a job that waits after k failures of its handler can be claimed from
    1000 * 2^k ms after the last of them on, and not earlier.
   */
  lemma RetryIsExact(s: Sys, steps: seq<Step>, id: nat)
    requires Inv(s) && Legal(s, steps) && id in s.rows && NeverRecovered(s, steps, id)
    requires s.rows[id].attempts == 0 && s.rows[id].status.Pending?
    ensures var t, stamps := Run(s, steps), Retries(s, steps, id);
            id in t.rows && t.rows[id].status.Pending? && stamps != [] ==>
              && t.rows[id].attempts == |stamps|
              && forall now :: Eligible(t.rows[id], t.rows[id].queue, now) <==> now >= stamps[|stamps| - 1] + 1000 * Pow2(|stamps|)
  {
    assert HasRetried(s.rows[id], []);
    RunHasRetried(s, steps, id, []);
    assert [] + Retries(s, steps, id) == Retries(s, steps, id);
    hide Inv, Legal, Run, Retries, NeverRecovered, Eligible;
    if id in Run(s, steps).rows { DueFrom(Run(s, steps).rows[id], Retries(s, steps, id)); }
  }

  lemma DueFrom(r: Row, stamps: seq<Time>)
    requires HasRetried(r, stamps)
    ensures r.status.Pending? && stamps != [] ==>
      forall now :: Eligible(r, r.queue, now) <==> now >= stamps[|stamps| - 1] + 1000 * Pow2(|stamps|)
  {
    hide Pow2;
  }

  // ---------- Claim order ----------

  // An undelayed job that nobody has claimed or cancelled yet.
  predicate Waiting(s: Sys, id: nat) {
    id in s.rows && s.rows[id].status.Pending? && s.rows[id].attempts == 0 && s.rows[id].scheduledAt.None?
  }

  // In one queue, with a greater priority or the same and a smaller id.
  predicate Ahead(s: Sys, i: nat, j: nat)
    requires i in s.rows && j in s.rows
  {
    && s.rows[i].queue == s.rows[j].queue
    && (s.rows[i].priority > s.rows[j].priority || (s.rows[i].priority == s.rows[j].priority && i < j))
  }

  lemma WaitingStep(s: Sys, step: Step, i: nat, j: nat)
    requires Inv(s) && Enabled(s, step) && i != j && Waiting(s, i)
    requires j in s.rows ==> Ahead(s, i, j)
    ensures !ClaimsRow(step, j)
    ensures Waiting(Apply(s, step), i) || ClaimsRow(step, i) || (i in Apply(s, step).rows && Apply(s, step).rows[i].Terminal())
    ensures i in Apply(s, step).rows && SameJob(s.rows[i], Apply(s, step).rows[i])
    ensures j in s.rows && j in Apply(s, step).rows ==> SameJob(s.rows[j], Apply(s, step).rows[j])
  {
    StepMovesRows(s, step, i);
    if j in s.rows { StepMovesRows(s, step, j); }
    if step.Claim? && step.pick.Some? {
      assert Eligible(s.rows[i], s.rows[i].queue, step.now);
    }
    assert RowOk(s.rows[i], s.clock);
    if i in Apply(s, step).rows && IsClaim(s.rows[i], Apply(s, step).rows[i], s.clock) { ClaimSource(s, step, i); }
    hide Apply;
  }

  /**
    An undelayed job is never overtaken, at its first claim, by one of its queue with a smaller priority, or with the same
    and a greater id: if such a job is claimed while the first has never been, the first never will be (it was cancelled).
   */
  lemma {:induction false} FirstClaimsInOrder(s: Sys, steps: seq<Step>, more: seq<Step>, i: nat, j: nat)
    requires Inv(s) && Legal(s, steps) && Legal(Run(s, steps), more)
    requires i != j && i < s.nextId && j < s.nextId && Waiting(s, i) && (j in s.rows ==> Ahead(s, i, j))
    requires Claims(s, steps, j) > 0 && Claims(s, steps, i) == 0
    ensures Claims(Run(s, steps), more, i) == 0
    decreases steps
  {
    var t := Apply(s, steps[0]);
    WaitingStep(s, steps[0], i, j);
    StepKeepsInv(s, steps[0]);
    StepGlobals(s, steps[0]);
    hide Apply, Enabled, RowOk;
    if Waiting(t, i) {
      FirstClaimsInOrder(t, steps[1..], more, i, j);
    } else {
      TerminalRowsFrozen(t, steps[1..], i);
      var u := Run(t, steps[1..]);
      RunKeepsInv(t, steps[1..]);
      if i in u.rows { JobTerminates(u, more, i); }
      else { NextIdGrows(t, steps[1..]); DeletedIsQuiet(u, more, i); }
    }
  }

  lemma {:induction false} NextIdGrows(s: Sys, steps: seq<Step>)
    requires Legal(s, steps)
    ensures s.nextId <= Run(s, steps).nextId
    decreases steps
  {
    if steps != [] { NextIdGrows(Apply(s, steps[0]), steps[1..]); }
  }
}
