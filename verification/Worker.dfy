/** The queue worker: poll, then complete, cancel, retry or fail what was claimed. */
module Workers {
  import opened Wrappers
  import opened JobRows
  import opened JobMachine
  import opened JobInvariant
  import opened JobTables
  import opened JobTheorems

  // How a handler call ended. A permanent error is never retried.
  datatype Outcome = Returned(result: string) | Threw(error: string, permanent: bool)

  function Min(a: real, b: real): real { if a <= b then a else b }

  function Backoff(pollInterval: real, idleStreak: nat): real {
    match idleStreak
    case 0 => pollInterval
    case 1 => Min(pollInterval * 1.5, 2000.0)
    case 2 => Min(pollInterval * 2.25, 2000.0)
    case 3 => Min(pollInterval * 3.375, 2000.0)
    case _ => Min(pollInterval * 5.0625, 2000.0)
  }

  function Power(x: real, n: nat): real { if n == 0 then 1.0 else x * Power(x, n - 1) }

  /** After n empty polls the pause is that of 1.5^n, at most of 1.5^4, and never above two seconds. */
  lemma PausesAre(pollInterval: real, n: nat)
    ensures n == 0 ==> Backoff(pollInterval, n) == pollInterval
    ensures n >= 1 ==>
      var longer := pollInterval * Power(1.5, if n <= 4 then n else 4);
      && Backoff(pollInterval, n) <= 2000.0 && Backoff(pollInterval, n) <= longer
      && (Backoff(pollInterval, n) == 2000.0 || Backoff(pollInterval, n) == longer)
  {
    assert Power(1.5, 1) == 1.5 * Power(1.5, 0);
    assert Power(1.5, 2) == 1.5 * Power(1.5, 1) == 2.25;
    assert Power(1.5, 3) == 1.5 * Power(1.5, 2) == 3.375;
    assert Power(1.5, 4) == 1.5 * Power(1.5, 3) == 5.0625;
  }

  class Worker {
    const workerId: string
    const queueName: string
    const concurrency: int
    const pollInterval: real
    const leaseDurationMs: int
    var activeCount: nat
    var stopped: bool
    var idleStreak: nat
    var currentPollInterval: real

    // The tokens of the jobs this worker has claimed and not yet settled.
    ghost var held: set<Token>

    ghost predicate Valid()
      reads this
    {
      && activeCount == |held|
      && (activeCount == 0 || activeCount <= concurrency)
      && idleStreak <= 10
      && currentPollInterval == Backoff(pollInterval, idleStreak)
    }

    constructor (workerId: string, queueName: string, concurrency: int, pollInterval: real, leaseDurationMs: int)
      ensures Valid() && held == {} && !stopped
    {
      this.workerId, this.queueName, this.concurrency := workerId, queueName, concurrency;
      this.pollInterval, this.leaseDurationMs := pollInterval, leaseDurationMs;
      activeCount, stopped, idleStreak, currentPollInterval := 0, false, 0, pollInterval;
      held := {};
    }

    // This worker's row of a held token, as the claim returned it.
    ghost predicate Holds(table: JobTable, job: Row, token: Token, phase: Phase)
      reads table
    {
      && token in table.flights
      && table.flights[token].id == job.id && table.flights[token].attempts == job.attempts
      && table.flights[token].maxAttempts == job.maxAttempts && table.flights[token].claimedAt <= table.clock
      && table.flights[token].phase == phase
    }

    // The poll found nothing: the next one comes later.
    method SlowDown()
      requires Valid()
      modifies this
      ensures Valid() && stopped == old(stopped) && activeCount == old(activeCount) && held == old(held)
      ensures idleStreak == (if old(idleStreak) < 10 then old(idleStreak) + 1 else 10) && currentPollInterval == Backoff(pollInterval, idleStreak)
    {
      idleStreak := if idleStreak + 1 <= 10 then idleStreak + 1 else 10;
      currentPollInterval := Backoff(pollInterval, idleStreak);
    }

    // The poll claimed a job: it is counted, and the pace is the first again.
    method Start(ghost token: Token)
      requires Valid() && activeCount < concurrency && token !in held
      modifies this
      ensures Valid() && stopped == old(stopped) && activeCount == old(activeCount) + 1 && held == old(held) + {token}
      ensures idleStreak == 0 && currentPollInterval == pollInterval
    {
      idleStreak, currentPollInterval := 0, pollInterval;
      OneMore(held, token);
      activeCount, held := activeCount + 1, held + {token};
    }

    /** Takes at most one job, and none when stopped or at full concurrency. */
    method Poll(table: JobTable, token: Token) returns (job: Option<Row>)
      requires Valid() && table.Valid() && token !in table.issued && token !in held
      modifies this, table
      ensures Valid() && table.Valid() && Reaches(old(table.State()), table.State())
      ensures stopped == old(stopped)
      ensures job.None? ==>
                && table.rows == old(table.rows) && held == old(held)
                && (stopped || activeCount >= concurrency || IsPick(old(table.rows), queueName, table.clock, None))
      ensures job.Some? ==>
                && !stopped && old(activeCount) < concurrency && held == old(held) + {token}
                && IsTaken(old(table.State()), table.State(), queueName, table.clock, token, job.value)
                && FirstInLine(old(table.rows), job.value.id, job.value.priority, queueName, table.clock)
                && job.value.id in old(table.rows) && table.rows == old(table.rows)[job.value.id := job.value]
                && var r := old(table.rows)[job.value.id];
                && r.queue == queueName && r.status == Pending && (r.scheduledAt.None? || r.scheduledAt.value <= table.clock)
                && job.value.attempts == r.attempts + 1 && job.value.lockedBy == Some(workerId)
                && job.value.leaseExpiresAt == Some(table.clock + leaseDurationMs)
    {
      ReachesRefl(table.State());
      hide Reaches, Inv, Apply, Enabled, IsPick, IsTaken, Claimed, Backoff, FirstInLine;
      job := None;
      if !stopped && activeCount < concurrency {
        ghost var pick;
        job, pick := table.Claim(workerId, queueName, token, table.clock, leaseDurationMs);
        if job.None? { SlowDown(); } else { Start(token); }
      }
    }

    method Interference(table: JobTable, token: Token, ghost start: Sys)
      requires table.Valid() && Reaches(start, table.State())
      modifies table
      ensures table.Valid() && Reaches(start, table.State()) && table.clock >= old(table.clock)
      ensures token in old(table.flights) ==> token in table.flights && table.flights[token] == old(table.flights)[token]
    {
      ghost var before := table.State();
      table.OtherProcesses({token});
      ReachesTrans(start, before, table.State());
    }

    method FailCancelled(table: JobTable, job: Row, token: Token, ghost start: Sys) returns (ghost last: Sys, ghost stamp: Time)
      requires table.Valid() && Reaches(start, table.State()) && Holds(table, job, token, CancelWrite)
      modifies table
      ensures table.Valid() && Reaches(start, table.State()) && Holds(table, job, token, Done)
      ensures Reaches(start, last) && table.rows == JobRows.Fail(last.rows, job.id, token, "cancelled", stamp)
    {
      var now := table.clock;
      Interference(table, token, start);
      last, stamp := table.State(), now;
      table.Fail(job.id, token, "cancelled", now);
      ReachesStep(start, last, Advance(token, now));
    }

    // The worker asks, in the state `seen`, whether a cancellation was requested; the answer decides its next phase.
    method Check(table: JobTable, job: Row, token: Token, ghost start: Sys) returns (requested: bool, ghost seen: Sys)
      requires table.Valid() && Reaches(start, table.State()) && token in table.flights
      requires Holds(table, job, token, table.flights[token].phase)
      requires var p := table.flights[token].phase; p.CompleteCheck? || p.FailCheck? || p.Recheck?
      modifies table
      ensures table.Valid() && Reaches(start, table.State()) && token in table.flights
      ensures Holds(table, job, token, table.flights[token].phase)
      ensures Inv(seen) && Reaches(start, seen) && table.rows == seen.rows
      ensures token in seen.flights && seen.flights[token] == old(table.flights)[token]
      ensures requested <==> CancellationRequested(seen.rows, job.id, token)
      ensures table.flights[token].phase == if requested then CancelWrite else
        match old(table.flights)[token].phase
        case CompleteCheck(result) => CompleteWrite(result)
        case FailCheck(error, permanent) => FailWrite(error, permanent)
        case _ => Done
    {
      Interference(table, token, start);
      seen := table.State();
      requested := table.IsCancellationRequested(job.id, token);
      table.Advanced(start, seen, token, table.clock);
    }

    // A cancellation was requested: the job is failed as cancelled, if it is still held.
    method GiveUp(table: JobTable, job: Row, token: Token, phase: Phase, ghost start: Sys) returns (ghost last: Sys, ghost stamp: Time)
      requires table.Valid() && Reaches(start, table.State()) && Holds(table, job, token, CancelWrite)
      requires CancellationRequested(table.rows, job.id, token)
      modifies table
      ensures table.Valid() && Reaches(start, table.State()) && Holds(table, job, token, Done)
      ensures Reaches(start, last) && IsEnd(last.rows, table.rows, job.id, token, phase, stamp)
    {
      ghost var marked := table.State();
      ReachesRefl(marked);
      last, stamp := FailCancelled(table, job, token, marked);
      if Owned(last.rows, job.id, token) { MarkStays(marked, last, job.id, token); }
      ReachesTrans(start, marked, last);
      ReachesTrans(start, marked, table.State());
    }

    // The write changed nothing: either a cancellation came before it, or the job was lost.
    method LookAgain(table: JobTable, job: Row, token: Token, phase: Phase, ghost start: Sys) returns (ghost last: Sys, ghost stamp: Time)
      requires table.Valid() && Reaches(start, table.State()) && Holds(table, job, token, Recheck)
      modifies table
      ensures table.Valid() && Reaches(start, table.State()) && Holds(table, job, token, Done)
      ensures Reaches(start, last) && IsEnd(last.rows, table.rows, job.id, token, phase, stamp)
    {
      var requested;
      requested, last := Check(table, job, token, start);
      stamp := table.clock;
      if requested {
        last, stamp := GiveUp(table, job, token, phase, start);
      } else {
        assert FlightOk(last.rows, token, last.flights[token]);
      }
    }

    /**
      Under any interference the call is a run of the protocol from "result known" to "done", and on return the token is on
      no row. In the state `last` its last statement ran: a job still held then is completed with the result,
      or failed as cancelled when a cancellation was requested; a job lost before is left alone.
     */
    method CompleteOrCancel(table: JobTable, job: Row, token: Token, result: string) returns (ghost last: Sys, ghost stamp: Time)
      requires table.Valid() && Holds(table, job, token, CompleteCheck(result))
      modifies table
      ensures table.Valid() && Reaches(old(table.State()), table.State())
      ensures Holds(table, job, token, Done) && !Current(table.State(), token)
      ensures Reaches(old(table.State()), last) && IsEnd(last.rows, table.rows, job.id, token, CompleteCheck(result), stamp)
      ensures Owned(last.rows, job.id, token) && last.rows[job.id].cancellationRequestedAt.None? ==>
                table.rows == last.rows[job.id := last.rows[job.id].(
                  status := Completed, result := Some(result), completedAt := Some(stamp),
                  lockedBy := None, leaseToken := None, leaseExpiresAt := None, heartbeatAt := None)]
    {
      hide Inv, Reaches, Run, Legal;
      ghost var start := table.State();
      ReachesRefl(start);
      var requested;
      requested, last := Check(table, job, token, start);
      if requested {
        last, stamp := GiveUp(table, job, token, CompleteCheck(result), start);
      } else {
        var now := table.clock;
        Interference(table, token, start);
        last, stamp := table.State(), now;
        var changes := table.Complete(job.id, token, result, now);
        ReachesStep(start, last, Advance(token, now));
        if changes == 0 { last, stamp := LookAgain(table, job, token, CompleteCheck(result), start); }
      }
      if Owned(last.rows, job.id, token) && last.rows[job.id].cancellationRequestedAt.None? {
        HeldAndUnmarked(last.rows, table.rows, job.id, token, CompleteCheck(result), stamp);
      }
      DoneIsRetired(table.State(), token);
    }

    /**
      The same for a handler that threw: a job still held is put back with exponential backoff, or failed when its attempts are
      used up or the error is permanent, or failed as cancelled; when a cancellation comes after the check, a job that fails
      anyway keeps the error of its handler.
     */
    method FailOrRetry(table: JobTable, job: Row, token: Token, error: string, permanent: bool) returns (ghost last: Sys, ghost stamp: Time)
      requires table.Valid() && Holds(table, job, token, FailCheck(error, permanent))
      modifies table
      ensures table.Valid() && Reaches(old(table.State()), table.State())
      ensures Holds(table, job, token, Done) && !Current(table.State(), token)
      ensures Reaches(old(table.State()), last) && IsEnd(last.rows, table.rows, job.id, token, FailCheck(error, permanent), stamp)
      ensures Owned(last.rows, job.id, token) && last.rows[job.id].cancellationRequestedAt.None? ==>
                && job.id in table.rows
                && if !permanent && last.rows[job.id].attempts < last.rows[job.id].maxAttempts
                   then RetriedIn(last.rows[job.id], table.rows[job.id], error, stamp,
                     if last.rows[job.id].attempts == 1 then 2000 else 1000 * Pow2(last.rows[job.id].attempts))
                   else table.rows[job.id].status == Failed && table.rows[job.id].error == Some(error)
    {
      hide Reaches, Run, Legal, RowsOk, TokensOk, KeysUnique;
      ghost var start := table.State();
      ReachesRefl(start);
      var requested;
      requested, last := Check(table, job, token, start);
      if requested {
        last, stamp := GiveUp(table, job, token, FailCheck(error, permanent), start);
      } else {
        var now := table.clock;
        Interference(table, token, start);
        last, stamp := table.State(), now;
        assert FlightOk(last.rows, token, last.flights[token]);
        if !permanent && job.attempts < job.maxAttempts {
          var changes := table.Retry(job.id, token, error, now + RetryDelay(job.attempts), now);
          ReachesStep(start, last, Advance(token, now));
          if changes == 0 { last, stamp := LookAgain(table, job, token, FailCheck(error, permanent), start); }
        } else {
          table.Fail(job.id, token, error, now);
          ReachesStep(start, last, Advance(token, now));
        }
      }
      if Owned(last.rows, job.id, token) && last.rows[job.id].cancellationRequestedAt.None? {
        HeldAndUnmarked(last.rows, table.rows, job.id, token, FailCheck(error, permanent), stamp);
      }
      DoneIsRetired(table.State(), token);
    }

    /** The end of a handler call: the job is settled as its outcome says, exactly once, and its slot is free again. */
    method Settle(table: JobTable, job: Row, token: Token, outcome: Outcome) returns (ghost last: Sys, ghost stamp: Time)
      requires Valid() && table.Valid() && token in held && Holds(table, job, token, Running)
      modifies this, table
      ensures Valid() && table.Valid() && Reaches(old(table.State()), table.State())
      ensures held == old(held) - {token} && activeCount == old(activeCount) - 1
      ensures !Current(table.State(), token)
      ensures Reaches(old(table.State()), last) && IsEnd(last.rows, table.rows, job.id, token, AfterHandler(outcome), stamp)
    {
      ghost var start := table.State();
      ReachesRefl(start);
      ghost var step := match outcome
        case Returned(result) => HandlerReturns(token, result)
        case Threw(error, permanent) => HandlerThrows(token, error, permanent);
      StepKeepsInv(start, step);
      ReachesStep(start, start, step);
      table.flights := Apply(start, step).flights;
      ghost var middle := table.State();
      hide Inv, Reaches, Run, Legal, IsEnd;
      match outcome {
        case Returned(result) => last, stamp := CompleteOrCancel(table, job, token, result);
        case Threw(error, permanent) => last, stamp := FailOrRetry(table, job, token, error, permanent);
      }
      ReachesTrans(start, middle, last);
      ReachesTrans(start, middle, table.State());
      activeCount, held := activeCount - 1, held - {token};
    }
  }

  function AfterHandler(outcome: Outcome): Phase {
    match outcome
    case Returned(result) => CompleteCheck(result)
    case Threw(error, permanent) => FailCheck(error, permanent)
  }

  // The row waits `delay` ms for its next attempt.
  predicate RetriedIn(r: Row, n: Row, error: string, now: Time, delay: int) {
    n == r.(status := Pending, error := Some(error), scheduledAt := Some(now + delay),
            lockedBy := None, leaseToken := None, leaseExpiresAt := None, heartbeatAt := None)
  }

  // What the last statement of a worker does: a held job is settled, anything else is left alone.
  predicate IsEnd(before: Rows, after: Rows, id: nat, token: Token, phase: Phase, now: Time) {
    if !Owned(before, id, token) then after == before
    else
      && id in after && after == before[id := after[id]]
      && (after[id] == Settled(before[id], phase, now)
          || (phase.FailCheck? && before[id].cancellationRequestedAt.Some?
              && (phase.permanent || before[id].attempts >= before[id].maxAttempts)
              && after[id] == Failing(before[id], phase.error, now)))
  }

  lemma HeldAndUnmarked(before: Rows, after: Rows, id: nat, token: Token, phase: Phase, now: Time)
    requires IsEnd(before, after, id, token, phase, now) && Owned(before, id, token) && before[id].cancellationRequestedAt.None?
    ensures phase.CompleteCheck? ==>
      after == before[id := before[id].(status := Completed, result := Some(phase.result), completedAt := Some(now),
                        lockedBy := None, leaseToken := None, leaseExpiresAt := None, heartbeatAt := None)]
    ensures phase.FailCheck? ==> id in after
    ensures phase.FailCheck? ==>
      if !phase.permanent && before[id].attempts < before[id].maxAttempts
      then RetriedIn(before[id], after[id], phase.error, now, if before[id].attempts == 1 then 2000 else 1000 * Pow2(before[id].attempts))
      else after[id].status == Failed && after[id].error == Some(phase.error)
  {
    assert Pow2(1) == 2 * Pow2(0);
  }

  lemma OneMore(held: set<Token>, token: Token)
    requires token !in held
    ensures |held + {token}| == |held| + 1
  {
  }

  // While the token is current, a cancellation mark stays.
  lemma MarkStays(s: Sys, t: Sys, id: nat, token: Token)
    requires Inv(s) && Reaches(s, t) && CancellationRequested(s.rows, id, token) && Owned(t.rows, id, token)
    ensures CancellationRequested(t.rows, id, token)
  {
    var steps :| Legal(s, steps) && Run(s, steps) == t;
    DoomedForever(s, steps, id);
  }

  lemma DoneIsRetired(s: Sys, token: Token)
    requires Inv(s) && token in s.flights && s.flights[token].phase.Done?
    ensures !Current(s, token)
  {
    assert FlightOk(s.rows, token, s.flights[token]);
  }
}
