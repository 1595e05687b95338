/**
  The database file as one process sees it: one method per SQL statement.
  The ghost fields complete the table to a state of the machine in JobMachine.
 */
module JobTables {
  import opened Wrappers
  import opened JobRows
  import opened JobMachine
  import opened JobInvariant
  import opened JobTheorems

  class JobTable {
    var rows: Rows
    var nextId: nat
    var clock: Time   // what Date.now() answers
    ghost var issued: set<Token>
    ghost var flights: map<Token, Flight>

    ghost function State(): Sys
      reads this
    {
      Sys(rows, nextId, clock, issued, flights)
    }

    ghost predicate Valid()
      reads this
    {
      Inv(State())
    }

    constructor (start: Time)
      ensures Valid() && State() == Initial(start)
    {
      rows, nextId := map[], 1;
      clock, issued, flights := start, {}, map[];
    }

    /**
      Whatever the other connections do between two statements of this process: any legal run
      that leaves the in-memory state of this process's claimed jobs alone.
     */
    method OtherProcesses(ghost mine: set<Token>)
      requires Valid()
      modifies this
      ensures Valid() && Reaches(old(State()), State())
      ensures clock >= old(clock) && issued >= old(issued)
      ensures forall token | token in mine && token in old(flights) ::
                token in flights && flights[token] == old(flights)[token]
    {
      ReachesRefl(State());
    }

    // The statement of a claimed job has just changed the rows: move the job to its next phase.
    ghost method Advanced(start: Sys, before: Sys, token: Token, now: Time)
      requires Inv(before) && Reaches(start, before) && Enabled(before, Advance(token, now))
      requires State() == before.(rows := FlightRows(before.rows, before.flights[token], token, now))
      modifies `flights
      ensures Valid() && State() == Apply(before, Advance(token, now)) && Reaches(start, State())
    {
      var f := flights[token];
      flights := flights[token := f.(phase := NextPhase(before.rows, f, token))];
      StepKeepsInv(before, Advance(token, now));
      ReachesStep(start, before, Advance(token, now));
    }

    // The poll's UPDATE ... RETURNING *. The token is a new random UUID.
    method Claim(worker: string, queue: string, token: Token, now: Time, duration: int)
      returns (row: Option<Row>, ghost pick: Option<nat>)
      requires Valid() && now <= clock && token !in issued
      modifies this
      ensures Valid() && IsPick(old(rows), queue, now, pick)
      ensures Enabled(old(State()), JobMachine.Claim(worker, queue, token, now, duration, pick))
      ensures State() == Apply(old(State()), JobMachine.Claim(worker, queue, token, now, duration, pick))
      ensures pick.None? ==> row.None? && rows == old(rows)
      ensures pick.Some? ==> pick.value in rows && row == Some(rows[pick.value]) && row.value.id == pick.value
      ensures row.Some? ==> IsTaken(old(State()), State(), queue, now, token, row.value)
      ensures row.None? ==> forall id | id in old(rows) && old(rows)[id].queue == queue && old(rows)[id].status == Pending ::
                old(rows)[id].scheduledAt.Some? && old(rows)[id].scheduledAt.value > now
      ensures row.Some? ==>
                var id := row.value.id;
                && id in old(rows) && old(rows)[id].queue == queue && old(rows)[id].status == Pending
                && rows == old(rows)[id := row.value]
                && row.value == old(rows)[id].(
                     status := Active, attempts := old(rows)[id].attempts + 1, startedAt := Some(now), heartbeatAt := Some(now),
                     lockedBy := Some(worker), leaseToken := Some(token), leaseExpiresAt := Some(now + duration),
                     leaseDurationMs := Some(duration), cancellationRequestedAt := None)
      ensures row.Some? ==> FirstInLine(old(rows), row.value.id, row.value.priority, queue, now)
      ensures Reaches(old(State()), State()) && clock == old(clock)
    {
      var best := PickRow(queue, now);
      pick := best;
      PickIsFirst(rows, queue, now, best);
      StepKeepsInv(State(), JobMachine.Claim(worker, queue, token, now, duration, best));
      ReachesRefl(State());
      ReachesStep(State(), State(), JobMachine.Claim(worker, queue, token, now, duration, best));
      hide Reaches, Inv;
      issued := issued + {token};
      row := None;
      if best.Some? {
        rows := rows[best.value := Claimed(rows[best.value], worker, token, now, duration)];
        row := Some(rows[best.value]);
        flights := flights[token := Flight(best.value, row.value.attempts, row.value.maxAttempts, now, Running)];
      }
    }

    // SELECT id ... ORDER BY priority DESC, id ASC LIMIT 1
    method PickRow(queue: string, now: Time) returns (pick: Option<nat>)
      ensures IsPick(rows, queue, now, pick)
      ensures pick.Some? ==> pick.value in rows && FirstInLine(rows, pick.value, rows[pick.value].priority, queue, now)
    {
      pick := None;
      var todo := rows.Keys;
      while todo != {}
        invariant todo <= rows.Keys
        invariant pick.None? ==> forall id | id in rows.Keys - todo :: !Eligible(rows[id], queue, now)
        invariant pick.Some? ==> pick.value in rows && Eligible(rows[pick.value], queue, now)
        invariant pick.Some? ==> forall id | id in rows.Keys - todo && Eligible(rows[id], queue, now) :: Before(rows, pick.value, id)
      {
        var id :| id in todo;
        todo := todo - {id};
        if Eligible(rows[id], queue, now) && (pick.None? || !Before(rows, pick.value, id)) {
          pick := Some(id);
        }
      }
      PickIsFirst(rows, queue, now, pick);
    }

    method Insert(job: NewJob) returns (id: Option<nat>)
      requires Valid() && job.createdAt <= clock
      modifies this
      ensures Valid() && State() == Apply(old(State()), JobMachine.Insert(job))
      ensures id == if Conflicts(old(rows), job.queue, job.idempotencyKey) then None else Some(old(nextId))
      ensures id.Some? ==>
                && id.value in rows && rows == old(rows)[id.value := rows[id.value]]
                && var r := rows[id.value];
                && r.id == id.value && r.status == Pending && r.attempts == 0
                && r.queue == job.queue && r.data == job.data && r.correlationId == job.correlationId
                && r.idempotencyKey == job.idempotencyKey && r.createdAt == job.createdAt && r.scheduledAt == job.scheduledAt
                && r.priority == job.priority && r.maxAttempts == job.maxAttempts
                && r.startedAt == r.completedAt == r.leaseExpiresAt == r.heartbeatAt == r.cancellationRequestedAt == None
                && r.result == r.error == r.lockedBy == None && r.leaseToken == None && r.leaseDurationMs == None
    {
      StepKeepsInv(State(), JobMachine.Insert(job));
      if Conflicts(rows, job.queue, job.idempotencyKey) {
        id := None;
      } else {
        id := Some(nextId);
        rows, nextId := rows[nextId := NewRow(nextId, job)], nextId + 1;
      }
    }

    // SELECT * ... WHERE queue = ? AND idempotency_key = ? AND status IN ('pending', 'active') LIMIT 1
    method FindByIdempotency(queue: string, key: string) returns (row: Option<Row>)
      requires Valid()
      ensures row.Some? ==> row.value.id in rows && rows[row.value.id] == row.value && IsLiveMatch(row.value, queue, Some(key))
      ensures row.None? ==> !Conflicts(rows, queue, Some(key))
    {
      if id :| id in rows && IsLiveMatch(rows[id], queue, Some(key)) {
        row := Some(rows[id]);
      } else {
        row := None;
      }
    }

    /** True exactly for the holder of a job that, whatever happens, is failed or still marked in every later state. */
    method IsCancellationRequested(id: nat, token: Token) returns (requested: bool)
      requires Valid()
      ensures requested <==> CancellationRequested(rows, id, token)
      ensures requested <==> Owned(rows, id, token) && forall t | Reaches(State(), t) && id in t.rows :: t.rows[id].Doomed()
    {
      requested := CancellationRequested(rows, id, token);
      MarkedIsDoomed(State(), id, token);
    }

    /** True exactly for the holder of a job that no pass of a sweeper at this moment would take away. */
    method IsLeaseValid(id: nat, token: Token, now: Time) returns (valid: bool)
      requires Valid()
      ensures valid <==> Owned(rows, id, token) && forall threshold :: Swept(rows[id], now, threshold) == rows[id]
    {
      valid := LeaseValid(rows, id, token, now);
      ValidIsNotSwept(State(), id, token, now);
    }

    // Where the holder of a token stands when it runs a statement with the stamp now.
    ghost predicate Runs(id: nat, token: Token, now: Time)
      reads this
    {
      token in flights && flights[token].id == id && flights[token].claimedAt <= now <= clock
    }

    /** One step of the protocol: the result is stored and the worker is done, or nothing changes and it looks again. */
    method Complete(id: nat, token: Token, result: string, now: Time) returns (changes: nat)
      requires Valid() && Runs(id, token, now) && flights[token].phase == CompleteWrite(result)
      modifies `rows, `flights
      ensures Valid() && State() == Apply(old(State()), Advance(token, now))
      ensures token in flights && flights[token].phase == if changes > 0 then Done else Recheck
      ensures changes > 0 ==> Owned(old(rows), id, token) && rows == old(rows)[id := old(rows)[id].(
                status := Completed, result := Some(result), completedAt := Some(now),
                lockedBy := None, leaseToken := None, leaseExpiresAt := None, heartbeatAt := None)]
      ensures changes == 0 ==> rows == old(rows) && (Owned(rows, id, token) ==> rows[id].Doomed())
    {
      StepKeepsInv(State(), Advance(token, now));
      AdvanceStep(State(), token, now);
      hide Inv, Apply;
      changes := if Owned(rows, id, token) && rows[id].cancellationRequestedAt.None? then 1 else 0;
      flights := flights[token := flights[token].(phase := NextPhase(rows, flights[token], token))];
      rows := JobRows.Complete(rows, id, token, result, now);
    }

    /** One step of the protocol: a held job is failed, for its own error or as cancelled, and the worker is done. */
    method Fail(id: nat, token: Token, error: string, now: Time)
      requires Valid() && Runs(id, token, now)
      requires match flights[token].phase
               case CancelWrite => error == "cancelled"
               case FailWrite(e, permanent) => error == e && (permanent || flights[token].attempts >= flights[token].maxAttempts)
               case _ => false
      modifies `rows, `flights
      ensures Valid() && State() == Apply(old(State()), Advance(token, now))
      ensures token in flights && flights[token].phase.Done?
      ensures Owned(old(rows), id, token) ==> rows == old(rows)[id := old(rows)[id].(
                status := Failed, error := Some(error), completedAt := Some(now),
                lockedBy := None, leaseToken := None, leaseExpiresAt := None, heartbeatAt := None)]
      ensures !Owned(old(rows), id, token) ==> rows == old(rows)
    {
      StepKeepsInv(State(), Advance(token, now));
      AdvanceStep(State(), token, now);
      hide Inv, Apply;
      flights := flights[token := flights[token].(phase := NextPhase(rows, flights[token], token))];
      rows := JobRows.Fail(rows, id, token, error, now);
    }

    /** One step of the protocol: the job waits for its next attempt and the worker is done, or nothing changes. */
    method Retry(id: nat, token: Token, error: string, retryAt: Time, ghost now: Time) returns (changes: nat)
      requires Valid() && Runs(id, token, now) && flights[token].phase == FailWrite(error, false)
      requires flights[token].attempts < flights[token].maxAttempts && retryAt == now + 1000 * Pow2(flights[token].attempts)
      modifies `rows, `flights
      ensures Valid() && State() == Apply(old(State()), Advance(token, now))
      ensures token in flights && flights[token].phase == if changes > 0 then Done else Recheck
      ensures changes > 0 ==> Owned(old(rows), id, token) && rows == old(rows)[id := old(rows)[id].(
                status := Pending, error := Some(error), scheduledAt := Some(now + 1000 * Pow2(old(rows)[id].attempts)),
                lockedBy := None, leaseToken := None, leaseExpiresAt := None, heartbeatAt := None)]
      ensures changes == 0 ==> rows == old(rows) && (Owned(rows, id, token) ==> rows[id].Doomed())
    {
      ghost var before, f := State(), flights[token];
      RetryStep(before, f, token, error, now);
      hide *;
      changes := if IsUnmarked(rows, id, token) then 1 else 0;
      flights := flights[token := f.(phase := if changes > 0 then Done else Recheck)];
      rows := JobRows.Retry(rows, id, token, error, retryAt);
      assert State() == Apply(before, Advance(token, now));
    }

    method Heartbeat(id: nat, token: Token, now: Time, fallback: int) returns (renewed: bool)
      requires Valid() && now <= clock
      modifies `rows
      ensures Valid() && State() == Apply(old(State()), Beat(id, token, now, fallback))
      ensures renewed == Owned(old(rows), id, token)
      ensures renewed ==>
                var r := old(rows)[id];
                rows == old(rows)[id := r.(heartbeatAt := Some(now),
                  leaseExpiresAt := Some(now + if r.leaseDurationMs.Some? then r.leaseDurationMs.value else fallback))]
      ensures !renewed ==> rows == old(rows)
    {
      StepKeepsInv(State(), Beat(id, token, now, fallback));
      renewed := Owned(rows, id, token);
      rows := JobRows.Heartbeat(rows, id, token, now, fallback);
    }

    method CancelPending(id: nat, now: Time) returns (changed: bool)
      requires Valid() && now <= clock
      modifies `rows
      ensures Valid() && State() == Apply(old(State()), CancelOne(id, now))
      ensures changed == (id in old(rows) && old(rows)[id].status.Pending?)
      ensures changed ==> rows == old(rows)[id := old(rows)[id].(
                status := Failed, error := Some("cancelled"), completedAt := Some(now), cancellationRequestedAt := Some(now))]
      ensures !changed ==> rows == old(rows)
    {
      StepKeepsInv(State(), CancelOne(id, now));
      changed := id in rows && rows[id].status.Pending?;
      rows := JobRows.CancelPending(rows, id, now);
    }

    method RequestActiveCancellation(id: nat, now: Time) returns (changed: bool)
      requires Valid() && now <= clock
      modifies `rows
      ensures Valid() && State() == Apply(old(State()), MarkOne(id, now))
      ensures changed == (id in old(rows) && old(rows)[id].status.Active?)
      ensures changed ==>
                var r := old(rows)[id];
                rows == old(rows)[id := if r.cancellationRequestedAt.Some? then r else r.(cancellationRequestedAt := Some(now))]
      ensures !changed ==> rows == old(rows)
    {
      StepKeepsInv(State(), MarkOne(id, now));
      changed := id in rows && rows[id].status.Active?;
      rows := JobRows.CancelActive(rows, id, now);
    }

    method Sweep(now: Time, threshold: Time, kind: SweepKind)
      requires Valid() && now <= clock
      modifies `rows
      ensures Valid() && State() == Apply(old(State()), SweepStep(kind, now, threshold))
      ensures AllSwept(old(rows), rows, now, kind)
    {
      StepKeepsInv(State(), SweepStep(kind, now, threshold));
      SweptRows(rows, now, threshold, clock);
      SweepApplies(State(), kind, now, threshold);
      hide Inv, RowOk, AllSwept, Apply, SweepCancelled, SweepExhausted, SweepRecovery;
      match kind
      case StaleCancelled => rows := SweepCancelled(rows, now, threshold);
      case StaleExhausted => rows := SweepExhausted(rows, now, threshold);
      case StaleRecovered => rows := SweepRecovery(rows, now, threshold);
    }
  }

  // The claim gave this worker exactly the row that was first in line, under the new token.
  ghost predicate IsTaken(before: Sys, after: Sys, queue: string, now: Time, token: Token, row: Row) {
    && IsPick(before.rows, queue, now, Some(row.id))
    && Owned(after.rows, row.id, token) && after.rows[row.id] == row
    && token in after.flights
    && after.flights[token] == Flight(row.id, row.attempts, row.maxAttempts, now, Running)
  }

  // No due job of the queue has a greater priority, or the same and a smaller id.
  predicate FirstInLine(rows: Rows, first: nat, priority: int, queue: string, now: Time) {
    forall id | id in rows && rows[id].queue == queue && rows[id].status == Pending
                && (rows[id].scheduledAt.None? || rows[id].scheduledAt.value <= now) ::
      rows[id].priority < priority || (rows[id].priority == priority && first <= id)
  }

  datatype SweepKind = StaleCancelled | StaleExhausted | StaleRecovered

  /**
    The columns after one stale UPDATE: a row is changed exactly if it is active with a lease that has run out and the
    UPDATE is the one for its mark and its attempts; then it loses its lease and fails, or is pending again.
   */
  predicate IsSwept(r: Row, n: Row, now: Time, kind: SweepKind) {
    if r.status == Active && r.leaseExpiresAt.Some? && r.leaseExpiresAt.value <= now
       && r.cancellationRequestedAt.Some? == kind.StaleCancelled?
       && (kind.StaleExhausted? ==> r.attempts >= r.maxAttempts) && (kind.StaleRecovered? ==> r.attempts < r.maxAttempts)
    then
      n == r.(lockedBy := None, leaseToken := None, leaseExpiresAt := None, heartbeatAt := None,
              status := if kind.StaleRecovered? then Pending else Failed,
              completedAt := if kind.StaleRecovered? then r.completedAt else Some(now),
              error := Some(match kind
                case StaleCancelled => "cancelled"
                case StaleExhausted => "max attempts exceeded (stale)"
                case StaleRecovered => "stale job recovery"))
    else n == r
  }

  lemma SweepApplies(s: Sys, kind: SweepKind, now: Time, threshold: Time)
    requires now <= s.clock
    ensures Enabled(s, SweepStep(kind, now, threshold))
    ensures Apply(s, SweepStep(kind, now, threshold)) == s.(rows := match kind
      case StaleCancelled => SweepCancelled(s.rows, now, threshold)
      case StaleExhausted => SweepExhausted(s.rows, now, threshold)
      case StaleRecovered => SweepRecovery(s.rows, now, threshold))
  {
  }

  predicate AllSwept(before: Rows, after: Rows, now: Time, kind: SweepKind) {
    after.Keys == before.Keys && forall id | id in before :: IsSwept(before[id], after[id], now, kind)
  }

  lemma SweptRows(rows: Rows, now: Time, threshold: Time, clock: Time)
    requires forall id | id in rows :: RowOk(rows[id], clock)
    ensures AllSwept(rows, SweepCancelled(rows, now, threshold), now, StaleCancelled)
    ensures AllSwept(rows, SweepExhausted(rows, now, threshold), now, StaleExhausted)
    ensures AllSwept(rows, SweepRecovery(rows, now, threshold), now, StaleRecovered)
  {
    hide RowOk, IsSwept, FailStaleCancelled, FailStaleExhausted, RecoverStale;
    forall id | id in rows ensures
      && IsSwept(rows[id], FailStaleCancelled(rows[id], now, threshold), now, StaleCancelled)
      && IsSwept(rows[id], FailStaleExhausted(rows[id], now, threshold), now, StaleExhausted)
      && IsSwept(rows[id], RecoverStale(rows[id], now, threshold), now, StaleRecovered)
    {
      SweptColumns(rows[id], now, threshold, clock);
    }
  }

  lemma SweptColumns(r: Row, now: Time, threshold: Time, clock: Time)
    requires RowOk(r, clock)
    ensures IsSwept(r, FailStaleCancelled(r, now, threshold), now, StaleCancelled)
    ensures IsSwept(r, FailStaleExhausted(r, now, threshold), now, StaleExhausted)
    ensures IsSwept(r, RecoverStale(r, now, threshold), now, StaleRecovered)
  {
  }

  function SweepStep(kind: SweepKind, now: Time, threshold: Time): Step {
    match kind
    case StaleCancelled => SweepA(now, threshold)
    case StaleExhausted => SweepB(now, threshold)
    case StaleRecovered => SweepC(now, threshold)
  }

  // The guard of the UPDATEs that a cancellation holds back.
  predicate IsUnmarked(rows: Rows, id: nat, token: Token) {
    Owned(rows, id, token) && rows[id].cancellationRequestedAt.None?
  }

  lemma RetryStep(s: Sys, f: Flight, token: Token, error: string, now: Time)
    requires Inv(s) && token in s.flights && s.flights[token] == f && f.claimedAt <= now <= s.clock
    requires f.phase == FailWrite(error, false) && f.attempts < f.maxAttempts
    ensures Enabled(s, Advance(token, now)) && Inv(Apply(s, Advance(token, now)))
    ensures Apply(s, Advance(token, now)) ==
      s.(rows := JobRows.Retry(s.rows, f.id, token, error, now + RetryDelay(f.attempts)),
         flights := s.flights[token := f.(phase := if IsUnmarked(s.rows, f.id, token) then Done else Recheck)])
    ensures !IsUnmarked(s.rows, f.id, token) ==>
      JobRows.Retry(s.rows, f.id, token, error, now + RetryDelay(f.attempts)) == s.rows
      && (Owned(s.rows, f.id, token) ==> s.rows[f.id].Doomed())
    ensures IsUnmarked(s.rows, f.id, token) ==>
      var after := JobRows.Retry(s.rows, f.id, token, error, now + RetryDelay(f.attempts));
      && Owned(s.rows, f.id, token) && f.id in after && after[f.id].status.Pending?
      && after[f.id].scheduledAt == Some(now + RetryDelay(after[f.id].attempts))
  {
    StepKeepsInv(s, Advance(token, now));
    assert FlightOk(s.rows, token, f);
    AdvanceStep(s, token, now);
    hide Inv, Apply, RetryDelay;
  }

  lemma MarkedIsDoomed(s: Sys, id: nat, token: Token)
    requires Inv(s)
    ensures CancellationRequested(s.rows, id, token)
      <==> Owned(s.rows, id, token) && forall t | Reaches(s, t) && id in t.rows :: t.rows[id].Doomed()
  {
    if CancellationRequested(s.rows, id, token) {
      forall t | Reaches(s, t) && id in t.rows ensures t.rows[id].Doomed() {
        var steps :| Legal(s, steps) && Run(s, steps) == t;
        DoomedForever(s, steps, id);
      }
    }
    ReachesRefl(s);
  }

  lemma ValidIsNotSwept(s: Sys, id: nat, token: Token, now: Time)
    requires Inv(s)
    ensures LeaseValid(s.rows, id, token, now)
      <==> Owned(s.rows, id, token) && forall threshold :: Swept(s.rows[id], now, threshold) == s.rows[id]
  {
    if Owned(s.rows, id, token) {
      assert RowOk(s.rows[id], s.clock);
      if !LeaseValid(s.rows, id, token, now) { assert Swept(s.rows[id], now, 0) != s.rows[id]; }
    }
  }
}
