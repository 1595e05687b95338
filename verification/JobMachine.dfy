/**
  The queue as a state machine. Any number of processes share the table; a step is one SQL
  statement of one of them (or a purely local event), so a sequence of steps is one interleaving.

  Date.now() is read before the statement it is passed to, hence `now <= clock`. The stamps used
  for one claimed job come from the process that claimed it, so they are not earlier than its claim.
 */
module JobMachine {
  import opened Wrappers
  import opened JobRows

  // Where the worker stands with one claimed job.
  datatype Phase =
    | Running                                     // inside the handler
    | CompleteCheck(result: string)               // completeOrCancel: before the first check
    | CompleteWrite(result: string)               // before the UPDATE to completed
    | FailCheck(error: string, permanent: bool)   // failOrRetry: before the check
    | FailWrite(error: string, permanent: bool)   // before the UPDATE to pending or failed
    | Recheck                                     // the UPDATE changed nothing: look for a cancellation
    | CancelWrite                                 // failCancelled
    | Done

  // A claimed job in the memory of its worker: the copy of the row made by the claim.
  datatype Flight = Flight(id: nat, attempts: nat, maxAttempts: int, claimedAt: Time, phase: Phase)

  datatype Sys = Sys(rows: Rows, nextId: nat, clock: Time, issued: set<Token>, flights: map<Token, Flight>)

  datatype Step =
    | Tick(to: Time)
    | Insert(job: NewJob)
    | Claim(worker: string, queue: string, token: Token, now: Time, duration: int, pick: Option<nat>)
    | HandlerReturns(token: Token, result: string)
    | HandlerThrows(token: Token, error: string, permanent: bool)
    | Advance(token: Token, now: Time)
    | Beat(id: nat, token: Token, now: Time, fallback: int)
    | CancelOne(id: nat, now: Time)
    | MarkOne(id: nat, now: Time)
    | ClearAll(queue: string, now: Time)
    | SweepA(now: Time, threshold: Time)
    | SweepB(now: Time, threshold: Time)
    | SweepC(now: Time, threshold: Time)
    | CleanUp(threshold: Time)
    | Crash(token: Token)

  predicate Enabled(s: Sys, step: Step) {
    match step
    case Tick(to) => s.clock <= to
    case Insert(job) => job.createdAt <= s.clock
    case Claim(_, queue, token, now, _, pick) => now <= s.clock && token !in s.issued && IsPick(s.rows, queue, now, pick)
    case HandlerReturns(token, _) => token in s.flights && s.flights[token].phase.Running?
    case HandlerThrows(token, _, _) => token in s.flights && s.flights[token].phase.Running?
    case Advance(token, now) =>
      && token in s.flights
      && !s.flights[token].phase.Running? && !s.flights[token].phase.Done?
      && s.flights[token].claimedAt <= now <= s.clock
    case Crash(token) => token in s.flights
    case Beat(_, _, now, _) => now <= s.clock
    case CancelOne(_, now) => now <= s.clock
    case MarkOne(_, now) => now <= s.clock
    case ClearAll(_, now) => now <= s.clock
    case SweepA(now, _) => now <= s.clock
    case SweepB(now, _) => now <= s.clock
    case SweepC(now, _) => now <= s.clock
    case CleanUp(_) => true
  }

  function SetPhase(s: Sys, token: Token, phase: Phase): Sys
    requires token in s.flights
  {
    s.(flights := s.flights[token := s.flights[token].(phase := phase)])
  }

  // The rows after the statement a flight is about to execute.
  function FlightRows(rows: Rows, f: Flight, token: Token, now: Time): Rows {
    match f.phase
    case CompleteWrite(result) => Complete(rows, f.id, token, result, now)
    case FailWrite(error, permanent) =>
      if !permanent && f.attempts < f.maxAttempts
      then Retry(rows, f.id, token, error, now + RetryDelay(f.attempts))
      else Fail(rows, f.id, token, error, now)
    case CancelWrite => Fail(rows, f.id, token, "cancelled", now)
    case _ => rows
  }

  // The branch the worker takes once that statement has answered.
  function NextPhase(rows: Rows, f: Flight, token: Token): Phase {
    match f.phase
    case CompleteCheck(result) => if CancellationRequested(rows, f.id, token) then CancelWrite else CompleteWrite(result)
    case CompleteWrite(_) =>
      if Owned(rows, f.id, token) && rows[f.id].cancellationRequestedAt.None? then Done else Recheck
    case FailCheck(error, permanent) =>
      if CancellationRequested(rows, f.id, token) then CancelWrite else FailWrite(error, permanent)
    case FailWrite(_, permanent) =>
      if permanent || f.attempts >= f.maxAttempts then Done
      else if Owned(rows, f.id, token) && rows[f.id].cancellationRequestedAt.None? then Done
      else Recheck
    case Recheck => if CancellationRequested(rows, f.id, token) then CancelWrite else Done
    case _ => Done
  }

  function Apply(s: Sys, step: Step): Sys
    requires Enabled(s, step)
  {
    match step
    case Tick(to) => s.(clock := to)
    case Insert(job) =>
      if Conflicts(s.rows, job.queue, job.idempotencyKey) then s
      else s.(rows := s.rows[s.nextId := NewRow(s.nextId, job)], nextId := s.nextId + 1)
    case Claim(worker, _, token, now, duration, pick) =>
      var t := s.(issued := s.issued + {token});
      if pick.None? then t
      else
        var row := Claimed(s.rows[pick.value], worker, token, now, duration);
        t.(rows := s.rows[pick.value := row],
           flights := s.flights[token := Flight(pick.value, row.attempts, row.maxAttempts, now, Running)])
    case HandlerReturns(token, result) => SetPhase(s, token, CompleteCheck(result))
    case HandlerThrows(token, error, permanent) => SetPhase(s, token, FailCheck(error, permanent))
    case Advance(token, now) =>
      var f := s.flights[token];
      SetPhase(s, token, NextPhase(s.rows, f, token)).(rows := FlightRows(s.rows, f, token, now))
    case Beat(id, token, now, fallback) => s.(rows := Heartbeat(s.rows, id, token, now, fallback))
    case CancelOne(id, now) => s.(rows := CancelPending(s.rows, id, now))
    case MarkOne(id, now) => s.(rows := CancelActive(s.rows, id, now))
    case ClearAll(queue, now) => s.(rows := ClearQueue(s.rows, queue, now))
    case SweepA(now, threshold) => s.(rows := SweepCancelled(s.rows, now, threshold))
    case SweepB(now, threshold) => s.(rows := SweepExhausted(s.rows, now, threshold))
    case SweepC(now, threshold) => s.(rows := SweepRecovery(s.rows, now, threshold))
    case CleanUp(threshold) => s.(rows := Clean(s.rows, threshold))
    case Crash(token) => s.(flights := s.flights - {token})
  }

  function Initial(clock: Time): Sys {
    Sys(map[], 1, clock, {}, map[])
  }

  // ---------- Runs ----------

  predicate Legal(s: Sys, steps: seq<Step>)
    decreases steps
  {
    steps == [] || (Enabled(s, steps[0]) && Legal(Apply(s, steps[0]), steps[1..]))
  }

  function Run(s: Sys, steps: seq<Step>): Sys
    requires Legal(s, steps)
    decreases steps
  {
    if steps == [] then s else Run(Apply(s, steps[0]), steps[1..])
  }

  ghost predicate Reaches(s: Sys, t: Sys) {
    exists steps :: Legal(s, steps) && Run(s, steps) == t
  }

  lemma {:induction false} RunConcat(s: Sys, first: seq<Step>, second: seq<Step>)
    requires Legal(s, first) && Legal(Run(s, first), second)
    ensures Legal(s, first + second) && Run(s, first + second) == Run(Run(s, first), second)
    decreases first
  {
    if first == [] {
      assert first + second == second;
    } else {
      RunConcat(Apply(s, first[0]), first[1..], second);
      assert (first + second)[1..] == first[1..] + second;
    }
  }

  lemma ReachesTrans(s: Sys, t: Sys, u: Sys)
    requires Reaches(s, t) && Reaches(t, u)
    ensures Reaches(s, u)
  {
    var first :| Legal(s, first) && Run(s, first) == t;
    var second :| Legal(t, second) && Run(t, second) == u;
    RunConcat(s, first, second);
  }

  lemma ReachesRefl(s: Sys)
    ensures Reaches(s, s)
  {
    assert Legal(s, []) && Run(s, []) == s;
  }

  lemma ReachesStep(s: Sys, t: Sys, step: Step)
    requires Reaches(s, t) && Enabled(t, step)
    ensures Reaches(s, Apply(t, step))
  {
    var one := [step];
    assert one[0] == step && one[1..] == [];
    assert Legal(Apply(t, step), []) && Run(Apply(t, step), []) == Apply(t, step);
    assert Legal(t, one) && Run(t, one) == Run(Apply(t, step), one[1..]);
    ReachesTrans(s, t, Apply(t, step));
  }

  // ---------- The invariant ----------

  // What the lease columns, the mark and `attempts` look like in each status.
  predicate RowOk(r: Row, clock: Time) {
    && (r.status.Pending? ==>
          r.leaseToken.None? && r.leaseExpiresAt.None? && r.cancellationRequestedAt.None? && r.attempts < r.Cap())
    && (r.status.Active? ==>
          && r.leaseToken.Some? && r.leaseExpiresAt.Some? && r.leaseDurationMs.Some?
          && r.startedAt.Some? && r.startedAt.value <= clock
          && 1 <= r.attempts <= r.Cap())
    && (r.Terminal() ==> r.leaseToken.None? && r.completedAt.Some? && r.attempts <= r.Cap())
    && (r.status.Completed? ==> r.cancellationRequestedAt.None?)
    && (r.attempts == 0 ==> !r.status.Active? && r.startedAt.None?)
  }

  predicate RowsOk(s: Sys) {
    forall id | id in s.rows :: id < s.nextId && s.rows[id].id == id && RowOk(s.rows[id], s.clock)
  }

  // A token is on at most one row, and only tokens that were issued are on rows.
  predicate TokensOk(s: Sys) {
    && (forall id | id in s.rows && s.rows[id].leaseToken.Some? :: s.rows[id].leaseToken.value in s.issued)
    && (forall i, j | i in s.rows && j in s.rows && s.rows[i].leaseToken.Some? && s.rows[i].leaseToken == s.rows[j].leaseToken
          :: i == j)
  }

  // At most one live row per (queue, idempotency_key).
  predicate KeysUnique(rows: Rows) {
    forall i, j | i in rows && j in rows && rows[i].Live() && rows[j].Live()
                  && rows[i].idempotencyKey.Some? && rows[i].queue == rows[j].queue
                  && rows[i].idempotencyKey == rows[j].idempotencyKey
      :: i == j
  }

  // While a token is current, the worker's copy of `attempts` is the row's, the worker has not
  // finished with the job, and it only rechecks for a cancellation that is there.
  predicate FlightOk(rows: Rows, token: Token, f: Flight) {
    forall id | id in rows && rows[id].leaseToken == Some(token) ::
      && id == f.id
      && rows[id].attempts == f.attempts
      && rows[id].maxAttempts == f.maxAttempts
      && rows[id].startedAt == Some(f.claimedAt)
      && !f.phase.Done?
      && (f.phase.Recheck? ==> rows[id].cancellationRequestedAt.Some?)
  }

  predicate FlightsOk(s: Sys) {
    forall token | token in s.flights :: token in s.issued && FlightOk(s.rows, token, s.flights[token])
  }

  predicate Inv(s: Sys) {
    RowsOk(s) && TokensOk(s) && KeysUnique(s.rows) && FlightsOk(s)
  }

  lemma InitialInv(clock: Time)
    ensures Inv(Initial(clock))
  {
  }

  // ---------- What one step can do to one row ----------

  // The columns fixed by the INSERT.
  predicate SameJob(r: Row, n: Row) {
    && n.id == r.id && n.queue == r.queue && n.data == r.data && n.maxAttempts == r.maxAttempts
    && n.correlationId == r.correlationId && n.idempotencyKey == r.idempotencyKey
    && n.createdAt == r.createdAt && n.priority == r.priority
  }

  predicate SameLease(r: Row, n: Row) {
    n.leaseToken == r.leaseToken && n.leaseExpiresAt == r.leaseExpiresAt && n.leaseDurationMs == r.leaseDurationMs
  }

  // Pending to active, by a claim under a new token.
  predicate IsClaim(r: Row, n: Row, clock: Time) {
    && r.status.Pending? && n.status.Active? && n.attempts == r.attempts + 1
    && n.scheduledAt == r.scheduledAt
    && n.leaseToken.Some? && n.leaseExpiresAt.Some? && n.leaseDurationMs.Some?
    && n.startedAt.Some? && n.startedAt.value <= clock
    && (r.scheduledAt.Some? ==> r.scheduledAt.value <= n.startedAt.value)
  }

  // A heartbeat.
  predicate IsRenewal(r: Row, n: Row) {
    && r.status.Active? && n.status.Active?
    && n == r.(heartbeatAt := n.heartbeatAt, leaseExpiresAt := n.leaseExpiresAt) && n.leaseExpiresAt.Some?
  }

  // A cooperative cancellation request.
  predicate IsMark(r: Row, n: Row) {
    && r.status.Active? && n.status.Active?
    && n == r.(cancellationRequestedAt := n.cancellationRequestedAt) && n.cancellationRequestedAt.Some?
  }

  predicate IsCompletion(r: Row, n: Row) {
    && r.status.Active? && r.cancellationRequestedAt.None? && n.status.Completed? && n.cancellationRequestedAt.None?
    && n.attempts == r.attempts && n.startedAt == r.startedAt && n.leaseToken.None? && n.completedAt.Some?
  }

  predicate IsFailure(r: Row, n: Row) {
    && r.Live() && n.status.Failed?
    && n.attempts == r.attempts && n.startedAt == r.startedAt && n.leaseToken.None? && n.completedAt.Some?
  }

  // Back to pending, by a retry or by the sweeper.
  predicate IsRequeue(r: Row, n: Row) {
    && r.status.Active? && r.cancellationRequestedAt.None? && r.attempts < r.maxAttempts && n.status.Pending?
    && n.attempts == r.attempts && n.startedAt == r.startedAt
    && n.leaseToken.None? && n.leaseExpiresAt.None? && n.cancellationRequestedAt.None?
  }

  predicate RowMoves(r: Row, n: Row, clock: Time) {
    || n == r
    || (SameJob(r, n)
        && (IsClaim(r, n, clock) || IsRenewal(r, n) || IsMark(r, n) || IsCompletion(r, n) || IsFailure(r, n) || IsRequeue(r, n)))
  }

  lemma FlightMovesRow(rows: Rows, f: Flight, token: Token, now: Time, id: nat, clock: Time)
    requires id in rows && rows[id].id == id && FlightOk(rows, token, f)
    ensures id in FlightRows(rows, f, token, now) && RowMoves(rows[id], FlightRows(rows, f, token, now)[id], clock)
  {
    if id == f.id && Owned(rows, id, token) {
      match f.phase
      case CompleteWrite(_) =>
      case FailWrite(_, _) =>
      case CancelWrite =>
      case _ =>
    }
  }

  lemma BulkMovesRow(r: Row, queue: string, now: Time, threshold: Time, clock: Time)
    requires RowOk(r, clock)
    ensures RowMoves(r, ClearedRow(r, queue, now), clock)
    ensures RowMoves(r, FailStaleCancelled(r, now, threshold), clock)
    ensures RowMoves(r, FailStaleExhausted(r, now, threshold), clock)
    ensures RowMoves(r, RecoverStale(r, now, threshold), clock)
  {
  }

  /** Every step, whoever takes it, leaves a row alone, deletes it when terminal, or makes one of six moves. */
  lemma StepMovesRows(s: Sys, step: Step, id: nat)
    requires Inv(s) && Enabled(s, step) && id in s.rows
    ensures id !in Apply(s, step).rows ==> s.rows[id].Terminal() && step.CleanUp?
    ensures id in Apply(s, step).rows ==> RowMoves(s.rows[id], Apply(s, step).rows[id], s.clock)
  {
    var r := s.rows[id];
    match step
    case Advance(token, now) => FlightMovesRow(s.rows, s.flights[token], token, now, id, s.clock);
    case Claim(worker, _, token, now, duration, pick) =>
      if pick == Some(id) {
        assert IsClaim(r, Claimed(r, worker, token, now, duration), s.clock);
      }
    case Insert(_) =>
    case Beat(_, _, now, fallback) => assert r.status.Active? ==> IsRenewal(r, Renewed(r, now, fallback));
    case CancelOne(_, now) => assert r.status.Pending? ==> IsFailure(r, CancelledPending(r, "cancelled", now));
    case MarkOne(_, now) => assert r.status.Active? ==> IsMark(r, Marked(r, now));
    case ClearAll(queue, now) => BulkMovesRow(r, queue, now, 0, s.clock);
    case SweepA(now, threshold) => BulkMovesRow(r, "", now, threshold, s.clock);
    case SweepB(now, threshold) => BulkMovesRow(r, "", now, threshold, s.clock);
    case SweepC(now, threshold) => BulkMovesRow(r, "", now, threshold, s.clock);
    case _ =>
  }

  // What one step can do to everything else.
  lemma StepGlobals(s: Sys, step: Step)
    requires Enabled(s, step)
    ensures var t := Apply(s, step); t.clock >= s.clock && t.nextId >= s.nextId && t.issued >= s.issued
    ensures var t := Apply(s, step);
            forall id | id in t.rows && id !in s.rows ::
              && step.Insert? && id == s.nextId && t.rows == s.rows[id := NewRow(id, step.job)] && t.nextId == id + 1
              && t.rows[id].leaseToken.None?
              && !Conflicts(s.rows, step.job.queue, step.job.idempotencyKey)
    ensures var t := Apply(s, step);
            forall token | token in t.flights ::
              || (token in s.flights && t.flights[token] == s.flights[token])
              || (token in s.flights && step.Advance? && step.token == token)
              || (token in s.flights && t.flights[token] == s.flights[token].(phase := t.flights[token].phase)
                  && !t.flights[token].phase.Done? && !t.flights[token].phase.Recheck?)
              || (step.Claim? && step.token == token && step.pick.Some? && token !in s.issued && token in t.issued
                  && t.flights[token] == Flight(step.pick.value, s.rows[step.pick.value].attempts + 1,
                                                s.rows[step.pick.value].maxAttempts, step.now, Running))
  {
  }

  // A lease token appears on a row only by the claim that picked the row.
  lemma TokenSource(s: Sys, step: Step, id: nat)
    requires Inv(s) && Enabled(s, step) && id in s.rows && id in Apply(s, step).rows
    ensures var r, n := s.rows[id], Apply(s, step).rows[id];
            || n.leaseToken.None?
            || (n.leaseToken == r.leaseToken && n.attempts == r.attempts && n.startedAt == r.startedAt && SameJob(r, n)
                && (r.cancellationRequestedAt.Some? ==> n.cancellationRequestedAt.Some?))
            || (step.Claim? && step.pick == Some(id) && step.token !in s.issued && step.token in Apply(s, step).issued
                && n == Claimed(r, step.worker, step.token, step.now, step.duration))
  {
    StepMovesRows(s, step, id);
    assert RowOk(s.rows[id], s.clock);
    var r, n := s.rows[id], Apply(s, step).rows[id];
    if IsClaim(r, n, s.clock) { ClaimSource(s, step, id); }
  }

  lemma FlightNeverClaims(rows: Rows, f: Flight, token: Token, now: Time, id: nat)
    requires id in rows && rows[id].status.Pending? && id in FlightRows(rows, f, token, now)
    ensures !FlightRows(rows, f, token, now)[id].status.Active?
  {
  }

  lemma ClaimSource(s: Sys, step: Step, id: nat)
    requires Inv(s) && Enabled(s, step) && id in s.rows && id in Apply(s, step).rows
    requires s.rows[id].status.Pending? && Apply(s, step).rows[id].status.Active?
    ensures step.Claim? && step.pick == Some(id)
    ensures Apply(s, step).rows[id] == Claimed(s.rows[id], step.worker, step.token, step.now, step.duration)
  {
    assert RowOk(s.rows[id], s.clock);
    hide Inv, RowOk, IsPick, Conflicts, NewRow, Complete, Retry, Fail, NextPhase;
    if step.Advance? { FlightNeverClaims(s.rows, s.flights[step.token], step.token, step.now, id); }
    hide FlightRows;
  }
}
