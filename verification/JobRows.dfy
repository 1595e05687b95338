/**
  The `jobs` table and its SQL statements, one function per UPDATE, INSERT and DELETE.
  A statement is atomic; every function below gives the rows after one execution.
 */
module JobRows {
  import opened Wrappers

  type Time = int
  // A lease token is a random UUID: only its identity matters.
  type Token = nat

  datatype Status = Pending | Active | Completed | Failed

  datatype Row = Row(
    id: nat,
    queue: string,
    status: Status,
    data: string,
    result: Option<string>,
    error: Option<string>,
    attempts: nat,
    maxAttempts: int,
    correlationId: Option<string>,
    idempotencyKey: Option<string>,
    createdAt: Time,
    startedAt: Option<Time>,
    completedAt: Option<Time>,
    scheduledAt: Option<Time>,
    priority: int,
    lockedBy: Option<string>,
    leaseToken: Option<Token>,
    leaseExpiresAt: Option<Time>,
    leaseDurationMs: Option<int>,
    heartbeatAt: Option<Time>,
    cancellationRequestedAt: Option<Time>)
  {
    predicate Live() { status.Pending? || status.Active? }

    predicate Terminal() { status.Completed? || status.Failed? }

    // A cancelled job: it is already failed, or its owner will have to fail it.
    predicate Doomed() { status.Failed? || (status.Active? && cancellationRequestedAt.Some?) }

    // The claim never compares `attempts` with `max_attempts`, so a job added with
    // maxAttempts < 1 still runs once.
    function Cap(): nat { if maxAttempts < 1 then 1 else maxAttempts }
  }

  type Rows = map<nat, Row>

  function Coalesce<T>(value: Option<T>, fallback: T): T {
    if value.Some? then value.value else fallback
  }

  function Pow2(n: nat): nat {
    if n == 0 then 1 else 2 * Pow2(n - 1)
  }

  function RetryDelay(attempts: nat): nat {
    1000 * Pow2(attempts)
  }

  /** The first retry comes after two seconds, and each later one after twice the time. */
  lemma DelaysDouble(attempts: nat)
    ensures RetryDelay(1) == 2000 && RetryDelay(attempts + 1) == 2 * RetryDelay(attempts)
    ensures RetryDelay(attempts) == 1000 * Pow2(attempts) && Pow2(0) == 1 && Pow2(attempts + 1) == 2 * Pow2(attempts)
  {
    assert Pow2(1) == 2 * Pow2(0);
  }

  // ---------- Row predicates used in WHERE clauses ----------

  predicate Owned(rows: Rows, id: nat, token: Token) {
    id in rows && rows[id].status.Active? && rows[id].leaseToken == Some(token)
  }

  predicate CancellationRequested(rows: Rows, id: nat, token: Token) {
    Owned(rows, id, token) && rows[id].cancellationRequestedAt.Some?
  }

  predicate LeaseValid(rows: Rows, id: nat, token: Token, now: Time) {
    Owned(rows, id, token) && rows[id].leaseExpiresAt.Some? && rows[id].leaseExpiresAt.value > now
  }

  predicate Stale(r: Row, now: Time, threshold: Time) {
    || (r.leaseExpiresAt.Some? && r.leaseExpiresAt.value <= now)
    || (r.leaseExpiresAt.None? && r.startedAt.Some? && r.startedAt.value < threshold)
  }

  predicate Eligible(r: Row, queue: string, now: Time) {
    && r.queue == queue
    && r.status.Pending?
    && (r.scheduledAt.None? || r.scheduledAt.value <= now)
  }

  // ORDER BY priority DESC, id ASC
  predicate Before(rows: Rows, a: nat, b: nat)
    requires a in rows && b in rows
  {
    rows[a].priority > rows[b].priority || (rows[a].priority == rows[b].priority && a <= b)
  }

  // The row chosen by the subselect of the claim, if there is one.
  predicate IsPick(rows: Rows, queue: string, now: Time, pick: Option<nat>) {
    match pick
    case None => forall id | id in rows :: !Eligible(rows[id], queue, now)
    case Some(best) =>
      && best in rows
      && Eligible(rows[best], queue, now)
      && forall id | id in rows && Eligible(rows[id], queue, now) :: Before(rows, best, id)
  }

  // The partial unique index on (queue, idempotency_key) of live rows.
  predicate Conflicts(rows: Rows, queue: string, key: Option<string>) {
    key.Some? && exists id | id in rows :: IsLiveMatch(rows[id], queue, key)
  }

  predicate IsLiveMatch(r: Row, queue: string, key: Option<string>) {
    r.Live() && r.queue == queue && r.idempotencyKey == key
  }

  // ---------- Assignments of one row ----------

  function NewRow(id: nat, job: NewJob): Row {
    Row(id, job.queue, Pending, job.data, None, None, 0, job.maxAttempts, job.correlationId, job.idempotencyKey,
        job.createdAt, None, None, job.scheduledAt, job.priority, None, None, None, None, None, None)
  }

  datatype NewJob = NewJob(
    queue: string, data: string, correlationId: Option<string>, idempotencyKey: Option<string>,
    createdAt: Time, scheduledAt: Option<Time>, priority: int, maxAttempts: int)

  function Released(r: Row): Row {
    r.(lockedBy := None, leaseToken := None, leaseExpiresAt := None, heartbeatAt := None)
  }

  function Claimed(r: Row, worker: string, token: Token, now: Time, duration: int): Row {
    r.(status := Active, startedAt := Some(now), attempts := r.attempts + 1, lockedBy := Some(worker),
       leaseToken := Some(token), leaseExpiresAt := Some(now + duration), heartbeatAt := Some(now),
       leaseDurationMs := Some(duration), cancellationRequestedAt := None)
  }

  function Renewed(r: Row, now: Time, fallback: int): Row {
    r.(heartbeatAt := Some(now), leaseExpiresAt := Some(now + Coalesce(r.leaseDurationMs, fallback)))
  }

  function Failing(r: Row, error: string, now: Time): Row {
    Released(r).(status := Failed, error := Some(error), completedAt := Some(now))
  }

  function Marked(r: Row, now: Time): Row {
    r.(cancellationRequestedAt := Some(Coalesce(r.cancellationRequestedAt, now)))
  }

  function CancelledPending(r: Row, error: string, now: Time): Row {
    Marked(r, now).(status := Failed, error := Some(error), completedAt := Some(now))
  }

  function Requeued(r: Row): Row {
    Released(r).(status := Pending, error := Some("stale job recovery"))
  }

  // ---------- Statements ----------

  function Complete(rows: Rows, id: nat, token: Token, result: string, now: Time): Rows {
    if Owned(rows, id, token) && rows[id].cancellationRequestedAt.None?
    then rows[id := Released(rows[id]).(status := Completed, result := Some(result), completedAt := Some(now))]
    else rows
  }

  function Fail(rows: Rows, id: nat, token: Token, error: string, now: Time): Rows {
    if Owned(rows, id, token) then rows[id := Failing(rows[id], error, now)] else rows
  }

  function Retry(rows: Rows, id: nat, token: Token, error: string, retryAt: Time): Rows {
    if Owned(rows, id, token) && rows[id].cancellationRequestedAt.None?
    then rows[id := Released(rows[id]).(status := Pending, error := Some(error), scheduledAt := Some(retryAt))]
    else rows
  }

  function Heartbeat(rows: Rows, id: nat, token: Token, now: Time, fallback: int): Rows {
    if Owned(rows, id, token) then rows[id := Renewed(rows[id], now, fallback)] else rows
  }

  function CancelPending(rows: Rows, id: nat, now: Time): Rows {
    if id in rows && rows[id].status.Pending?
    then rows[id := CancelledPending(rows[id], "cancelled", now)]
    else rows
  }

  function CancelActive(rows: Rows, id: nat, now: Time): Rows {
    if id in rows && rows[id].status.Active? then rows[id := Marked(rows[id], now)] else rows
  }

  // Both UPDATEs of clearQueue run in one transaction.
  function ClearedRow(r: Row, queue: string, now: Time): Row {
    if r.queue != queue then r
    else if r.status.Pending? then CancelledPending(r, "queue cleared", now)
    else if r.status.Active? then Marked(r, now)
    else r
  }

  function ClearQueue(rows: Rows, queue: string, now: Time): Rows {
    map id | id in rows :: ClearedRow(rows[id], queue, now)
  }

  function FailStaleCancelled(r: Row, now: Time, threshold: Time): Row {
    if r.status.Active? && r.cancellationRequestedAt.Some? && Stale(r, now, threshold)
    then Failing(r, "cancelled", now) else r
  }

  function FailStaleExhausted(r: Row, now: Time, threshold: Time): Row {
    if r.status.Active? && r.cancellationRequestedAt.None? && r.attempts >= r.maxAttempts && Stale(r, now, threshold)
    then Failing(r, "max attempts exceeded (stale)", now) else r
  }

  function RecoverStale(r: Row, now: Time, threshold: Time): Row {
    if r.status.Active? && r.cancellationRequestedAt.None? && r.attempts < r.maxAttempts && Stale(r, now, threshold)
    then Requeued(r) else r
  }

  function SweepCancelled(rows: Rows, now: Time, threshold: Time): Rows {
    map id | id in rows :: FailStaleCancelled(rows[id], now, threshold)
  }

  function SweepExhausted(rows: Rows, now: Time, threshold: Time): Rows {
    map id | id in rows :: FailStaleExhausted(rows[id], now, threshold)
  }

  function SweepRecovery(rows: Rows, now: Time, threshold: Time): Rows {
    map id | id in rows :: RecoverStale(rows[id], now, threshold)
  }

  function Clean(rows: Rows, threshold: Time): Rows {
    map id | id in rows && !(rows[id].Terminal() && rows[id].completedAt.Some? && rows[id].completedAt.value < threshold)
      :: rows[id]
  }

  /** What clearing a queue does to a row: pending jobs of the queue fail, active ones get a mark if they have none. */
  lemma ClearedColumns(r: Row, queue: string, now: Time)
    requires r.status == Pending ==> r.cancellationRequestedAt == None
    ensures r.queue == queue && r.status == Pending ==>
      ClearedRow(r, queue, now) == r.(status := Failed, error := Some("queue cleared"), completedAt := Some(now), cancellationRequestedAt := Some(now))
    ensures r.queue == queue && r.status == Active ==>
      ClearedRow(r, queue, now) == if r.cancellationRequestedAt.Some? then r else r.(cancellationRequestedAt := Some(now))
    ensures r.queue != queue || r.status == Completed || r.status == Failed ==> ClearedRow(r, queue, now) == r
  {
  }

  /** A row of an earlier version, active without a lease, is stale by the time it was started. */
  lemma LegacyRows(r: Row, now: Time, threshold: Time)
    requires r.status == Active && r.leaseExpiresAt == None
    ensures Swept(r, now, threshold) != r ==> r.startedAt.Some? && r.startedAt.value < threshold
    ensures r.startedAt.Some? && r.startedAt.value < threshold ==> Swept(r, now, threshold).status != Active
  {
  }

  /** The cleanup deletes exactly the ended jobs that were completed before the threshold. */
  lemma CleanDeletes(rows: Rows, threshold: Time, id: nat)
    requires id in rows
    ensures id in Clean(rows, threshold) <==>
      !((rows[id].status == Completed || rows[id].status == Failed) && rows[id].completedAt.Some? && rows[id].completedAt.value < threshold)
    ensures id in Clean(rows, threshold) ==> Clean(rows, threshold)[id] == rows[id]
  {
  }

  // ---------- The sweep as a whole ----------

  // What one pass of the sweeper does to a row, decided from the row as it was before the pass.
  function Swept(r: Row, now: Time, threshold: Time): Row {
    if !r.status.Active? || !Stale(r, now, threshold) then r
    else if r.cancellationRequestedAt.Some? then Failing(r, "cancelled", now)
    else if r.attempts >= r.maxAttempts then Failing(r, "max attempts exceeded (stale)", now)
    else Requeued(r)
  }

  lemma SweptRow(r: Row, now: Time, threshold: Time)
    ensures RecoverStale(FailStaleExhausted(FailStaleCancelled(r, now, threshold), now, threshold), now, threshold)
            == Swept(r, now, threshold)
    ensures !(Swept(r, now, threshold).status.Active? && Stale(Swept(r, now, threshold), now, threshold))
  {
  }

  /** The three UPDATEs in sequence treat every stale active row exactly once, and leave none stale. */
  lemma SweepIsOneCaseAnalysis(rows: Rows, now: Time, threshold: Time)
    ensures SweepRecovery(SweepExhausted(SweepCancelled(rows, now, threshold), now, threshold), now, threshold)
            == map id | id in rows :: Swept(rows[id], now, threshold)
    ensures forall id | id in rows ::
              !(Swept(rows[id], now, threshold).status.Active? && Stale(Swept(rows[id], now, threshold), now, threshold))
  {
    forall id | id in rows
      ensures RecoverStale(FailStaleExhausted(FailStaleCancelled(rows[id], now, threshold), now, threshold), now, threshold)
              == Swept(rows[id], now, threshold)
      ensures !(Swept(rows[id], now, threshold).status.Active? && Stale(Swept(rows[id], now, threshold), now, threshold))
    {
      SweptRow(rows[id], now, threshold);
    }
  }

  /**
    The subselect takes, of the pending jobs of the queue that are due, the one with the greatest priority and among
    those the one with the smallest id; none exactly if no job is due.
   */
  lemma PickIsFirst(rows: Rows, queue: string, now: Time, pick: Option<nat>)
    ensures IsPick(rows, queue, now, pick) <==>
      match pick
      case None =>
        forall id | id in rows && rows[id].queue == queue && rows[id].status == Pending ::
          rows[id].scheduledAt.Some? && rows[id].scheduledAt.value > now
      case Some(best) =>
        && best in rows && rows[best].queue == queue && rows[best].status == Pending
        && (rows[best].scheduledAt.None? || rows[best].scheduledAt.value <= now)
        && forall id | id in rows && rows[id].queue == queue && rows[id].status == Pending
                       && (rows[id].scheduledAt.None? || rows[id].scheduledAt.value <= now) ::
             rows[id].priority < rows[best].priority || (rows[id].priority == rows[best].priority && best <= id)
  {
    hide Before;
    if pick.Some? && pick.value in rows {
      forall id | id in rows
        ensures Before(rows, pick.value, id) <==>
          rows[id].priority < rows[pick.value].priority || (rows[id].priority == rows[pick.value].priority && pick.value <= id)
      {
        BeforeMeans(rows, pick.value, id);
      }
    }
  }

  lemma BeforeMeans(rows: Rows, a: nat, b: nat)
    requires a in rows && b in rows
    ensures Before(rows, a, b) <==> rows[b].priority < rows[a].priority || (rows[b].priority == rows[a].priority && a <= b)
  {
  }

  /** ORDER BY priority DESC, id ASC LIMIT 1 leaves no choice. */
  lemma PickIsUnique(rows: Rows, queue: string, now: Time, one: Option<nat>, other: Option<nat>)
    requires IsPick(rows, queue, now, one) && IsPick(rows, queue, now, other)
    ensures one == other
  {
    if one.Some? && other.Some? {
      assert Before(rows, one.value, other.value) && Before(rows, other.value, one.value);
    }
  }
}
