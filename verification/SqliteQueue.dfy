/** The producer and maintenance side of the queue. */
module SqliteQueues {
  import opened Wrappers
  import opened JobRows
  import opened JobMachine
  import opened JobInvariant
  import opened JobTables
  import opened JobTheorems

  const MAX_IDEMPOTENCY_CONFLICT_RETRIES := 3

  datatype AddOptions = AddOptions(
    delay: Option<int>, correlationId: Option<string>, idempotencyKey: Option<string>,
    priority: Option<int>, maxAttempts: Option<int>, idempotent: bool)

  // What add() writes, given its options and the time of the call.
  function JobOf(queue: string, data: string, opts: AddOptions, now: Time): NewJob {
    var correlationId := if opts.correlationId == Some("") then None else opts.correlationId;
    NewJob(queue, data, correlationId,
           if opts.idempotencyKey.Some? then opts.idempotencyKey else if opts.idempotent then correlationId else None,
           now,
           if opts.delay.Some? && opts.delay.value != 0 then Some(now + opts.delay.value) else None,
           Coalesce(opts.priority, 0), Coalesce(opts.maxAttempts, 3))
  }

  datatype AddResult =
    | Inserted(id: nat, again: Option<Row>)   // the row when it was read again
    | Existing(row: Row)
    | ConflictError

  class SqliteQueue {
    const table: JobTable

    constructor (table: JobTable)
      ensures this.table == table
    {
      this.table := table;
    }

    method Interference(ghost start: Sys)
      requires table.Valid() && Reaches(start, table.State())
      modifies table
      ensures table.Valid() && Reaches(start, table.State()) && Reaches(old(table.State()), table.State())
      ensures table.clock >= old(table.clock)
    {
      ghost var before := table.State();
      table.OtherProcesses({});
      ReachesTrans(start, before, table.State());
    }

    /**
      Submission under interference. `seen` is the state in which the decisive statement ran:
      the insertion that succeeded, or the read that found the winner. A conflict inserts nothing;
      a returned winner was live when read and was the only live job with that key; the error is
      raised only after `inserts` conflicts and `lookups` empty lookups.
     */
    method Add(queue: string, data: string, opts: AddOptions)
      returns (r: AddResult, ghost seen: Sys, ghost inserts: nat, ghost lookups: nat)
      requires table.Valid()
      modifies table
      ensures table.Valid() && Reaches(old(table.State()), table.State())
      ensures Reaches(old(table.State()), seen)
      ensures inserts <= 3 && lookups <= 4
      ensures var job := JobOf(queue, data, opts, old(table.clock));
              match r
              case Inserted(id, row) =>
                && Enabled(seen, Insert(job)) && !Conflicts(seen.rows, queue, job.idempotencyKey)
                && id == seen.nextId && id !in seen.rows
                && Reaches(Apply(seen, Insert(job)), table.State())
                && row == (if id in table.rows then Some(table.rows[id]) else None)
                && (row.Some? ==> SameJob(NewRow(id, job), row.value))
              case Existing(row) =>
                && job.idempotencyKey.Some? && job.idempotencyKey != Some("")
                && row.id in seen.rows && seen.rows[row.id] == row && IsLiveMatch(row, queue, job.idempotencyKey)
                && (forall id | id in seen.rows && IsLiveMatch(seen.rows[id], queue, job.idempotencyKey) :: id == row.id)
                && table.State() == seen
              case ConflictError =>
                && job.idempotencyKey.Some?
                && (job.idempotencyKey == Some("") ==> inserts == 1 && Conflicts(seen.rows, queue, Some("")))
                && (job.idempotencyKey != Some("") ==>
                      inserts == 3 && lookups == 4 && !Conflicts(seen.rows, queue, job.idempotencyKey))
                && table.State() == seen
      // In terms of the options of the caller:
      ensures r.Inserted? && r.again.Some? ==> AsSubmitted(r.again.value, queue, data, opts, old(table.clock))
      ensures r.Inserted? ==>
                var n := Apply(seen, Insert(JobOf(queue, data, opts, old(table.clock)))).rows;
                r.id in n && AsSubmitted(n[r.id], queue, data, opts, old(table.clock)) && IsFresh(n[r.id], opts, old(table.clock))
      ensures r.Inserted? && opts.idempotencyKey.Some? ==>
                forall id | id in seen.rows && seen.rows[id].queue == queue && seen.rows[id].idempotencyKey == opts.idempotencyKey ::
                  seen.rows[id].status == Completed || seen.rows[id].status == Failed
      ensures r.Existing? ==> AsAskedFor(r.row, queue, opts)
    {
      ghost var start := table.State();
      ReachesRefl(start);
      var job := JobOf(queue, data, opts, table.clock);
      hide AsSubmitted, IsFresh, AsAskedFor, SameJob;
      inserts, lookups := 0, 0;
      var attempt := 0;
      while attempt < MAX_IDEMPOTENCY_CONFLICT_RETRIES
        invariant table.Valid() && Reaches(start, table.State()) && table.clock >= job.createdAt
        invariant inserts == lookups == attempt <= 3
        invariant attempt > 0 ==> job.idempotencyKey.Some? && job.idempotencyKey != Some("")
      {
        Interference(start);
        seen := table.State();
        var id := table.Insert(job);
        inserts := inserts + 1;
        ReachesStep(start, seen, Insert(job));
        if id.Some? {
          ghost var inserted := table.State();
          var row := ReadAgain(id.value, job, seen);
          ReachesTrans(start, inserted, table.State());
          SameJobSelf(NewRow(id.value, job));
          SubmittedColumns(id.value, NewRow(id.value, job), queue, data, opts, start.clock);
          if row.Some? { SubmittedColumns(id.value, row.value, queue, data, opts, start.clock); }
          if opts.idempotencyKey.Some? { NoLiveKey(seen.rows, queue, data, opts, start.clock); }
          return Inserted(id.value, row), seen, inserts, lookups;
        }
        if job.idempotencyKey == Some("") { return ConflictError, seen, inserts, lookups; }
        Interference(start);
        seen := table.State();
        var winner := table.FindByIdempotency(queue, job.idempotencyKey.value);
        lookups := lookups + 1;
        if winner.Some? { FoundByKey(winner.value, queue, data, opts, start.clock); return Existing(winner.value), seen, inserts, lookups; }
        attempt := attempt + 1;
      }
      Interference(start);
      seen := table.State();
      var last := table.FindByIdempotency(queue, job.idempotencyKey.value);
      lookups := lookups + 1;
      if last.Some? { FoundByKey(last.value, queue, data, opts, start.clock); return Existing(last.value), seen, inserts, lookups; }
      return ConflictError, seen, inserts, lookups;
    }

    // getJob(lastInsertRowid), after whatever the other processes do first.
    method ReadAgain(id: nat, job: NewJob, ghost seen: Sys) returns (row: Option<Row>)
      requires table.Valid() && Enabled(seen, Insert(job)) && Inv(seen) && id == seen.nextId && !Conflicts(seen.rows, job.queue, job.idempotencyKey)
      requires table.State() == Apply(seen, Insert(job))
      modifies table
      ensures table.Valid() && Reaches(Apply(seen, Insert(job)), table.State())
      ensures row == if id in table.rows then Some(table.rows[id]) else None
      ensures row.Some? ==> SameJob(NewRow(id, job), row.value)
    {
      ghost var inserted := table.State();
      ReachesRefl(inserted);
      Interference(inserted);
      row := if id in table.rows then Some(table.rows[id]) else None;
      if row.Some? { JobStays(inserted, table.State(), id); }
    }

    /**
      A cancellation that is reported as accepted holds in every later state (see CancellationIsFinal). It is accepted if and
      only if the job is pending when the first UPDATE runs, or active in the state `second` in which the other one runs.
     */
    method RequestCancellation(id: nat) returns (accepted: bool, ghost second: Sys)
      requires table.Valid()
      modifies table
      ensures table.Valid() && Reaches(old(table.State()), table.State())
      ensures accepted ==> id in table.rows && table.rows[id].Doomed()
      ensures Enabled(old(table.State()), CancelOne(id, old(table.clock)))
      ensures var first := old(table.State());
              if id in first.rows && first.rows[id].status.Pending? then
                accepted && table.State() == Apply(first, CancelOne(id, first.clock))
              else
                && Reaches(first, second) && Enabled(second, MarkOne(id, first.clock))
                && table.State() == Apply(second, MarkOne(id, first.clock))
                && accepted == (id in second.rows && second.rows[id].status.Active?)
    {
      ghost var start := table.State();
      ReachesRefl(start);
      var now := table.clock;
      second := table.State();
      accepted := table.CancelPending(id, now);
      ReachesStep(start, start, CancelOne(id, now));
      if accepted { return; }
      Interference(start);
      second := table.State();
      accepted := table.RequestActiveCancellation(id, now);
      ReachesStep(start, second, MarkOne(id, now));
    }

    /**
      One pass of the sweeper: the clock is read for the threshold and again, in `first`, for the stamps; then come its
      three UPDATEs in order, the last two in the states `second` and `third` that other processes have reached in between.
     */
    method RecoverStaleJobs(staleTimeoutMin: int) returns (ghost first: Sys, ghost second: Sys, ghost third: Sys)
      requires table.Valid()
      modifies table
      ensures table.Valid() && Reaches(old(table.State()), table.State())
      ensures Reaches(old(table.State()), first)
      ensures var now, threshold := first.clock, old(table.clock) - staleTimeoutMin * 60_000;
              && Enabled(first, SweepA(now, threshold)) && Reaches(Apply(first, SweepA(now, threshold)), second)
              && Enabled(second, SweepB(now, threshold)) && Reaches(Apply(second, SweepB(now, threshold)), third)
              && Enabled(third, SweepC(now, threshold)) && table.State() == Apply(third, SweepC(now, threshold))
    {
      hide Inv, Reaches, Legal, Run;
      ghost var start := table.State();
      ReachesRefl(start);
      var threshold := table.clock - staleTimeoutMin * 60_000;
      Interference(start);
      first := table.State();
      var now := table.clock;
      table.Sweep(now, threshold, StaleCancelled);
      ReachesStep(start, first, SweepA(now, threshold));
      Interference(start);
      second := table.State();
      table.Sweep(now, threshold, StaleExhausted);
      ReachesStep(start, second, SweepB(now, threshold));
      Interference(start);
      third := table.State();
      table.Sweep(now, threshold, StaleRecovered);
      ReachesStep(start, third, SweepC(now, threshold));
    }

    /**
      One SELECT for the distinct queues and one for the counts of each, with other processes acting in between:
      `seen` is the state in which a queue was counted. Each job adds one to the totals at most, even when it has moved
      between the reads; and if the table did not change while it was read, the totals are those of the whole table.
     */
    method GetDetailedStats() returns (queues: map<string, QueueStats>, total: QueueStats, ghost seen: map<string, Sys>)
      requires table.Valid()
      modifies table
      ensures table.Valid() && Reaches(old(table.State()), table.State())
      ensures queues.Keys == seen.Keys == Queues(old(table.rows))
      ensures forall queue | queue in queues ::
                && Reaches(old(table.State()), seen[queue]) && Reaches(seen[queue], table.State())
                && queues[queue] == StatsOf(seen[queue].rows, queue)
      ensures total == TotalSeen(seen)
      ensures (forall queue | queue in seen :: seen[queue].rows == old(table.rows)) ==> total == TableStats(old(table.rows))
    {
      hide Inv, Reaches, Queues, StatsOf, TotalSeen, TableStats;
      NothingSeen();
      ghost var start := table.State();
      ReachesRefl(start);
      var all := Queues(table.rows);
      queues, total, seen := map[], QueueStats(0, 0, 0, 0), map[];
      var todo := all;
      while todo != {}
        invariant todo <= all && queues.Keys == seen.Keys == all - todo
        invariant table.Valid() && Reaches(start, table.State())
        invariant total == TotalSeen(seen)
        invariant forall queue | queue in seen ::
          && Inv(seen[queue]) && Reaches(start, seen[queue]) && Reaches(seen[queue], table.State())
          && queues[queue] == StatsOf(seen[queue].rows, queue)
      {
        var queue :| queue in todo;
        ghost var before := table.State();
        Interference(start);
        ghost var now := table.State();
        forall q | q in seen ensures Reaches(seen[q], now) { ReachesTrans(seen[q], before, now); }
        ReachesRefl(now);
        var stats := StatsOf(table.rows, queue);
        SeenAdd(seen, queue, now);
        queues := queues[queue := stats];
        total := total.Plus(stats);
        seen := seen[queue := now];
        todo := todo - {queue};
      }
      AllQueues(start.rows, seen);
    }
  }

  // The columns that the caller has chosen, with their defaults.
  predicate AsSubmitted(row: Row, queue: string, data: string, opts: AddOptions, at: Time) {
    && row.queue == queue && row.data == data && row.createdAt == at
    && row.priority == (if opts.priority.Some? then opts.priority.value else 0)
    && row.maxAttempts == (if opts.maxAttempts.Some? then opts.maxAttempts.value else 3)
    && row.correlationId == (if opts.correlationId == Some("") then None else opts.correlationId)
    && (opts.idempotencyKey.Some? ==> row.idempotencyKey == opts.idempotencyKey)
    && (opts.idempotencyKey.None? ==> row.idempotencyKey == if opts.idempotent then row.correlationId else None)
  }

  // Nobody has touched the job, and only a given delay other than zero keeps it back.
  predicate IsFresh(row: Row, opts: AddOptions, at: Time) {
    && row.status == Pending && row.attempts == 0 && row.leaseToken == None
    && row.scheduledAt == match opts.delay
         case None => None
         case Some(d) => if d == 0 then None else Some(at + d)
  }

  // A live job of the queue under the key of the call.
  predicate AsAskedFor(row: Row, queue: string, opts: AddOptions) {
    && row.queue == queue && (row.status == Pending || row.status == Active)
    && (opts.idempotencyKey.Some? ==> row.idempotencyKey == opts.idempotencyKey && opts.idempotencyKey != Some(""))
    && (opts.idempotencyKey.None? ==> opts.idempotent && row.idempotencyKey == opts.correlationId)
  }

  lemma SameJobSelf(row: Row)
    ensures SameJob(row, row)
  {
  }

  lemma SubmittedColumns(id: nat, row: Row, queue: string, data: string, opts: AddOptions, at: Time)
    requires SameJob(NewRow(id, JobOf(queue, data, opts, at)), row)
    ensures AsSubmitted(row, queue, data, opts, at) && IsFresh(NewRow(id, JobOf(queue, data, opts, at)), opts, at)
  {
  }

  lemma NoLiveKey(rows: Rows, queue: string, data: string, opts: AddOptions, at: Time)
    requires !Conflicts(rows, queue, JobOf(queue, data, opts, at).idempotencyKey) && opts.idempotencyKey.Some?
    ensures forall id | id in rows && rows[id].queue == queue && rows[id].idempotencyKey == opts.idempotencyKey ::
              rows[id].status == Completed || rows[id].status == Failed
  {
    forall id | id in rows && rows[id].queue == queue && rows[id].idempotencyKey == opts.idempotencyKey
      ensures rows[id].status == Completed || rows[id].status == Failed
    {
      assert !IsLiveMatch(rows[id], queue, opts.idempotencyKey);
    }
  }

  lemma FoundByKey(row: Row, queue: string, data: string, opts: AddOptions, at: Time)
    requires var key := JobOf(queue, data, opts, at).idempotencyKey; IsLiveMatch(row, queue, key) && key.Some? && key != Some("")
    ensures AsAskedFor(row, queue, opts)
  {
  }

  /**
    As long as a job inserted under a queue and a key is live, a submission with the same queue and key inserts nothing,
    whatever its other options are.
   */
  lemma LiveKeyBlocks(s: Sys, queue: string, key: string, data: string, opts: AddOptions, at: Time, later: seq<Step>,
                      data': string, opts': AddOptions, at': Time)
    requires Inv(s) && key != "" && opts.idempotencyKey == Some(key) && opts'.idempotencyKey == Some(key)
    requires Enabled(s, Insert(JobOf(queue, data, opts, at)))
    requires forall id | id in s.rows && s.rows[id].queue == queue && s.rows[id].idempotencyKey == Some(key) :: s.rows[id].Terminal()
    requires Legal(Apply(s, Insert(JobOf(queue, data, opts, at))), later)
    ensures var t := Run(Apply(s, Insert(JobOf(queue, data, opts, at))), later);
            s.nextId in t.rows && t.rows[s.nextId].Live() && Enabled(t, Insert(JobOf(queue, data', opts', at'))) ==>
              Apply(t, Insert(JobOf(queue, data', opts', at'))) == t
  {
    var first := Insert(JobOf(queue, data, opts, at));
    var u := Apply(s, first);
    assert s.nextId in u.rows && u.rows[s.nextId].queue == queue && u.rows[s.nextId].idempotencyKey == Some(key);
    StepKeepsInv(s, first);
    var t := Run(u, later);
    hide Inv, Run, Legal;
    if s.nextId in t.rows && t.rows[s.nextId].Live() {
      JobColumnsFixed(u, later, s.nextId);
      assert IsLiveMatch(t.rows[s.nextId], queue, Some(key));
    }
  }

  datatype QueueStats = QueueStats(pending: nat, active: nat, completed: nat, failed: nat) {
    function Plus(other: QueueStats): QueueStats {
      QueueStats(pending + other.pending, active + other.active, completed + other.completed, failed + other.failed)
    }
  }

  function Queues(rows: Rows): set<string> {
    set id | id in rows :: rows[id].queue
  }

  function IdsIn(rows: Rows, queue: string, status: Status): set<nat> {
    set id | id in rows && rows[id].queue == queue && rows[id].status == status
  }

  // SELECT status, COUNT(*) ... WHERE queue = ? GROUP BY status
  function StatsOf(rows: Rows, queue: string): QueueStats {
    QueueStats(|IdsIn(rows, queue, Pending)|, |IdsIn(rows, queue, Active)|,
               |IdsIn(rows, queue, Completed)|, |IdsIn(rows, queue, Failed)|)
  }

  // The jobs counted under a status, each queue in its own state.
  ghost function IdsSeen(seen: map<string, Sys>, status: Status): set<nat> {
    set queue, id | queue in seen && id in IdsIn(seen[queue].rows, queue, status) :: id
  }

  ghost function TotalSeen(seen: map<string, Sys>): QueueStats {
    QueueStats(|IdsSeen(seen, Pending)|, |IdsSeen(seen, Active)|, |IdsSeen(seen, Completed)|, |IdsSeen(seen, Failed)|)
  }

  lemma NothingSeen()
    ensures TotalSeen(map[]) == QueueStats(0, 0, 0, 0)
  {
    assert forall status :: IdsSeen(map[], status) == {};
  }

  /** A job keeps its queue, so what a later read counts in another queue are other jobs. */
  lemma IdsSeenAdd(seen: map<string, Sys>, queue: string, now: Sys, status: Status)
    requires queue !in seen && forall q | q in seen :: Inv(seen[q]) && Reaches(seen[q], now)
    ensures |IdsSeen(seen[queue := now], status)| == |IdsSeen(seen, status)| + |IdsIn(now.rows, queue, status)|
  {
    hide Inv, Reaches;
    var before, added := IdsSeen(seen, status), IdsIn(now.rows, queue, status);
    IdsSeenUnion(seen, queue, now, status);
    forall id | id in before && id in added ensures false {
      var q :| q in seen && id in IdsIn(seen[q].rows, q, status);
      JobStays(seen[q], now, id);
    }
    assert before !! added;
  }

  lemma IdsSeenUnion(seen: map<string, Sys>, queue: string, now: Sys, status: Status)
    requires queue !in seen
    ensures IdsSeen(seen[queue := now], status) == IdsSeen(seen, status) + IdsIn(now.rows, queue, status)
  {
    hide IdsIn;
    var all := seen[queue := now];
    forall id ensures id in IdsSeen(all, status) <==> id in IdsSeen(seen, status) || id in IdsIn(now.rows, queue, status) {
      if id in IdsSeen(seen, status) {
        var q :| q in seen && id in IdsIn(seen[q].rows, q, status);
        assert q in all && all[q] == seen[q];
      }
      if id in IdsIn(now.rows, queue, status) { assert queue in all && all[queue] == now; }
      if id in IdsSeen(all, status) {
        var q :| q in all && id in IdsIn(all[q].rows, q, status);
        assert q == queue || (q in seen && all[q] == seen[q]);
      }
    }
  }

  lemma JobStays(s: Sys, t: Sys, id: nat)
    requires Inv(s) && Reaches(s, t) && id in s.rows && id in t.rows
    ensures SameJob(s.rows[id], t.rows[id])
  {
    hide Inv, Legal, Run;
    var steps :| Legal(s, steps) && Run(s, steps) == t;
    JobColumnsFixed(s, steps, id);
  }

  lemma SeenAdd(seen: map<string, Sys>, queue: string, now: Sys)
    requires queue !in seen && forall q | q in seen :: Inv(seen[q]) && Reaches(seen[q], now)
    ensures TotalSeen(seen[queue := now]) == TotalSeen(seen).Plus(StatsOf(now.rows, queue))
  {
    hide Inv, Reaches, IdsSeen, IdsIn;
    IdsSeenAdd(seen, queue, now, Pending);
    IdsSeenAdd(seen, queue, now, Active);
    IdsSeenAdd(seen, queue, now, Completed);
    IdsSeenAdd(seen, queue, now, Failed);
  }

  // The rows of the table by status, whatever their queue.
  function TableStats(rows: Rows): QueueStats {
    QueueStats(|set id | id in rows && rows[id].status.Pending?|, |set id | id in rows && rows[id].status.Active?|,
               |set id | id in rows && rows[id].status.Completed?|, |set id | id in rows && rows[id].status.Failed?|)
  }

  /** Summing over the distinct queues of an unchanged table misses no row and counts none twice. */
  lemma AllQueues(rows: Rows, seen: map<string, Sys>)
    requires seen.Keys == Queues(rows)
    ensures (forall queue | queue in seen :: seen[queue].rows == rows) ==> TotalSeen(seen) == TableStats(rows)
  {
    if forall queue | queue in seen :: seen[queue].rows == rows {
      forall status ensures IdsSeen(seen, status) == set id | id in rows && rows[id].status == status {
        IdsSeenUnchanged(rows, seen, status);
      }
      assert IdsSeen(seen, Pending) == set id | id in rows && rows[id].status.Pending?;
      assert IdsSeen(seen, Active) == set id | id in rows && rows[id].status.Active?;
      assert IdsSeen(seen, Completed) == set id | id in rows && rows[id].status.Completed?;
      assert IdsSeen(seen, Failed) == set id | id in rows && rows[id].status.Failed?;
    }
  }

  lemma IdsSeenUnchanged(rows: Rows, seen: map<string, Sys>, status: Status)
    requires seen.Keys == Queues(rows) && forall queue | queue in seen :: seen[queue].rows == rows
    ensures IdsSeen(seen, status) == set id | id in rows && rows[id].status == status
  {
    forall id | id in rows && rows[id].status == status ensures id in IdsSeen(seen, status) {
      assert rows[id].queue in seen && id in IdsIn(seen[rows[id].queue].rows, rows[id].queue, status);
    }
  }
}
