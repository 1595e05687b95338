/** What the queue guarantees over whole runs, for every interleaving of any number of processes. */
module JobTheorems {
  import opened Wrappers
  import opened JobRows
  import opened JobMachine
  import opened JobInvariant

  // ---------- Fencing ----------

  predicate Current(s: Sys, token: Token) {
    exists id | id in s.rows :: s.rows[id].leaseToken == Some(token)
  }

  // The steps that act for the holder of `token` on row `id`.
  predicate ActsFor(s: Sys, step: Step, token: Token, id: nat) {
    || (step.Beat? && step.token == token && step.id == id)
    || (step.Advance? && step.token == token && token in s.flights && s.flights[token].id == id)
  }

  /** A step that carries a token which is not the row's current one changes nothing in the table. */
  lemma ForeignTokenChangesNothing(s: Sys, step: Step, token: Token, id: nat)
    requires Enabled(s, step) && ActsFor(s, step, token, id)
    requires id !in s.rows || s.rows[id].leaseToken != Some(token)
    ensures Apply(s, step).rows == s.rows
  {
  }

  /** A step that does carry the current token changes at most that one row. */
  lemma OwnerTouchesOneRow(s: Sys, step: Step, token: Token, id: nat, other: nat)
    requires Enabled(s, step) && ActsFor(s, step, token, id)
    requires other in s.rows && other != id
    ensures Apply(s, step).rows.Keys == s.rows.Keys && Apply(s, step).rows[other] == s.rows[other]
  {
  }

  lemma RetiredStep(s: Sys, step: Step, token: Token)
    requires Inv(s) && Enabled(s, step) && token in s.issued && !Current(s, token)
    ensures token in Apply(s, step).issued && !Current(Apply(s, step), token)
  {
    var t := Apply(s, step);
    forall id | id in t.rows ensures t.rows[id].leaseToken != Some(token) {
      if id in s.rows { TokenSource(s, step, id); }
    }
  }

  /** A token that was taken off its row never comes back, and its old holder can no longer change anything. */
  lemma {:induction false} RetiredTokenIsInert(s: Sys, steps: seq<Step>, token: Token)
    requires Inv(s) && Legal(s, steps) && token in s.issued && !Current(s, token)
    ensures !Current(Run(s, steps), token) && token in Run(s, steps).issued
    ensures forall step, id | Enabled(Run(s, steps), step) && ActsFor(Run(s, steps), step, token, id)
              :: Apply(Run(s, steps), step).rows == Run(s, steps).rows
    decreases steps
  {
    if steps == [] {
      forall step, id | Enabled(s, step) && ActsFor(s, step, token, id) ensures Apply(s, step).rows == s.rows {
        ForeignTokenChangesNothing(s, step, token, id);
      }
    } else {
      RetiredStep(s, steps[0], token);
      StepKeepsInv(s, steps[0]);
      RetiredTokenIsInert(Apply(s, steps[0]), steps[1..], token);
    }
  }

  // The number of steps of a run after which `token` is no longer current although it was before.
  function Releases(s: Sys, steps: seq<Step>, token: Token): nat
    requires Legal(s, steps)
    decreases steps
  {
    if steps == [] then 0
    else
      var t := Apply(s, steps[0]);
      (if Current(s, token) && !Current(t, token) then 1 else 0) + Releases(t, steps[1..], token)
  }

  lemma {:induction false} RetiredNeverReleases(s: Sys, steps: seq<Step>, token: Token)
    requires Inv(s) && Legal(s, steps) && token in s.issued && !Current(s, token)
    ensures Releases(s, steps, token) == 0
    decreases steps
  {
    if steps != [] {
      RetiredStep(s, steps[0], token);
      StepKeepsInv(s, steps[0]);
      RetiredNeverReleases(Apply(s, steps[0]), steps[1..], token);
    }
  }

  /** Each token is released at most once: a claim has one outcome, whoever decides it. */
  lemma {:induction false} TokenReleasedOnce(s: Sys, steps: seq<Step>, token: Token)
    requires Inv(s) && Legal(s, steps)
    ensures Releases(s, steps, token) <= 1
    decreases steps
  {
    if steps != [] {
      var t := Apply(s, steps[0]);
      StepKeepsInv(s, steps[0]);
      if Current(s, token) && !Current(t, token) {
        var id :| id in s.rows && s.rows[id].leaseToken == Some(token);
        assert token in s.issued;
        RetiredNeverReleases(t, steps[1..], token);
      } else {
        TokenReleasedOnce(t, steps[1..], token);
      }
    }
  }

  // ---------- Rows over time ----------

  lemma {:induction false} DeletedStaysDeleted(s: Sys, steps: seq<Step>, id: nat)
    requires Legal(s, steps) && id < s.nextId && id !in s.rows
    ensures id !in Run(s, steps).rows && id < Run(s, steps).nextId
    decreases steps
  {
    if steps != [] { DeletedStaysDeleted(Apply(s, steps[0]), steps[1..], id); }
  }

  /** A completed or failed row never changes again until it is deleted, and its id is never reused. */
  lemma {:induction false} TerminalRowsFrozen(s: Sys, steps: seq<Step>, id: nat)
    requires Inv(s) && Legal(s, steps) && id in s.rows && s.rows[id].Terminal()
    ensures id in Run(s, steps).rows ==> Run(s, steps).rows[id] == s.rows[id]
    decreases steps
  {
    if steps != [] {
      StepMovesRows(s, steps[0], id);
      StepKeepsInv(s, steps[0]);
      if id in Apply(s, steps[0]).rows {
        TerminalRowsFrozen(Apply(s, steps[0]), steps[1..], id);
      } else {
        DeletedStaysDeleted(Apply(s, steps[0]), steps[1..], id);
      }
    }
  }

  /** The columns written by the INSERT never change. */
  lemma {:induction false} JobColumnsFixed(s: Sys, steps: seq<Step>, id: nat)
    requires Inv(s) && Legal(s, steps) && id in s.rows && id in Run(s, steps).rows
    ensures SameJob(s.rows[id], Run(s, steps).rows[id])
    decreases steps
  {
    if steps != [] {
      StepMovesRows(s, steps[0], id);
      StepKeepsInv(s, steps[0]);
      if id in Apply(s, steps[0]).rows {
        JobColumnsFixed(Apply(s, steps[0]), steps[1..], id);
      } else {
        DeletedStaysDeleted(Apply(s, steps[0]), steps[1..], id);
      }
    }
  }

  // ---------- Cancellation ----------

  /** No cancellation is lost: a doomed job is never completed and never offered to a worker again. */
  lemma {:induction false} DoomedForever(s: Sys, steps: seq<Step>, id: nat)
    requires Inv(s) && Legal(s, steps) && id in s.rows && s.rows[id].Doomed()
    ensures id in Run(s, steps).rows ==> Run(s, steps).rows[id].Doomed()
    ensures id in Run(s, steps).rows ==> !Run(s, steps).rows[id].status.Completed? && !Run(s, steps).rows[id].status.Pending?
    decreases steps
  {
    if steps != [] {
      StepMovesRows(s, steps[0], id);
      StepKeepsInv(s, steps[0]);
      if id in Apply(s, steps[0]).rows {
        DoomedForever(Apply(s, steps[0]), steps[1..], id);
      } else {
        DeletedStaysDeleted(Apply(s, steps[0]), steps[1..], id);
      }
    }
  }

  // `changes > 0` of the two UPDATEs of requestCancellation.
  predicate CancelHits(s: Sys, step: Step) {
    || (step.CancelOne? && step.id in s.rows && s.rows[step.id].status.Pending?)
    || (step.MarkOne? && step.id in s.rows && s.rows[step.id].status.Active?)
  }

  /** Whenever one of the two UPDATEs reports a change, the job is doomed in every later state. */
  lemma CancellationIsFinal(s: Sys, step: Step, later: seq<Step>)
    requires Inv(s) && Enabled(s, step) && CancelHits(s, step) && Legal(Apply(s, step), later)
    ensures var r := Run(Apply(s, step), later).rows; step.id in r ==> r[step.id].Doomed()
  {
    StepKeepsInv(s, step);
    DoomedForever(Apply(s, step), later, step.id);
  }

  /** clearQueue dooms every job of the queue that is live when its transaction runs. */
  lemma ClearQueueIsFinal(s: Sys, queue: string, now: Time, later: seq<Step>, id: nat)
    requires Inv(s) && now <= s.clock && Legal(Apply(s, ClearAll(queue, now)), later)
    requires id in s.rows && s.rows[id].Live() && s.rows[id].queue == queue
    ensures var r := Run(Apply(s, ClearAll(queue, now)), later).rows; id in r ==> r[id].Doomed()
  {
    StepKeepsInv(s, ClearAll(queue, now));
    DoomedForever(Apply(s, ClearAll(queue, now)), later, id);
  }

  // A job that cannot be pending again: it is finished, marked, or in its last attempt.
  predicate Spent(r: Row) {
    r.Terminal() || (r.status.Active? && (r.cancellationRequestedAt.Some? || r.attempts >= r.maxAttempts))
  }

  lemma {:induction false} SpentForever(s: Sys, steps: seq<Step>, id: nat)
    requires Inv(s) && Legal(s, steps) && id in s.rows && Spent(s.rows[id])
    ensures id in Run(s, steps).rows ==> Spent(Run(s, steps).rows[id])
    decreases steps
  {
    if steps != [] {
      StepMovesRows(s, steps[0], id);
      StepKeepsInv(s, steps[0]);
      if id in Apply(s, steps[0]).rows {
        SpentForever(Apply(s, steps[0]), steps[1..], id);
      } else {
        DeletedStaysDeleted(Apply(s, steps[0]), steps[1..], id);
      }
    }
  }

  // requestCancellation, its first UPDATE run in s and its second in t, answers false for a live job.
  ghost predicate Misses(s: Sys, t: Sys, id: nat, now: Time)
    requires Enabled(s, CancelOne(id, now))
  {
    && Reaches(Apply(s, CancelOne(id, now)), t) && id in t.rows && t.rows[id].Live()
    && !CancelHits(s, CancelOne(id, now)) && !CancelHits(t, MarkOne(id, now))
  }

  // Active, not marked, and with an attempt left.
  predicate CanBeMissed(r: Row) {
    r.status.Active? && r.cancellationRequestedAt.None? && r.attempts < r.maxAttempts
  }

  /**
    The converse fails. For a live job some interleaving makes requestCancellation answer false while the job stays live
    if and only if, before the call, the job is active, not marked, and has an attempt left.
   */
  lemma MissedCancellation(s: Sys, id: nat, now: Time)
    requires Inv(s) && id in s.rows && s.rows[id].Live() && now <= s.clock
    ensures (exists t :: Misses(s, t, id, now)) <==> CanBeMissed(s.rows[id])
  {
    if t :| Misses(s, t, id, now) {
      assert Apply(s, CancelOne(id, now)) == s;
      var steps :| Legal(s, steps) && Run(s, steps) == t;
      if Spent(s.rows[id]) { SpentForever(s, steps, id); }
    }
    if CanBeMissed(s.rows[id]) { LeaseRunsOut(s, id, now); }
  }

  // Between the two UPDATEs the lease may run out and the sweeper may put the job back.
  lemma LeaseRunsOut(s: Sys, id: nat, now: Time)
    requires Inv(s) && id in s.rows && CanBeMissed(s.rows[id]) && now <= s.clock
    ensures exists t :: Misses(s, t, id, now)
  {
    assert RowOk(s.rows[id], s.clock);
    assert Apply(s, CancelOne(id, now)) == s;
    var expiry := s.rows[id].leaseExpiresAt.value;
    var to := if expiry > s.clock then expiry else s.clock;
    var u := Apply(s, Tick(to));
    var t := Apply(u, SweepC(to, 0));
    assert t.rows[id] == Requeued(s.rows[id]);
    ReachesRefl(s);
    hide Inv, Reaches, Legal, Run;
    ReachesStep(s, s, Tick(to));
    ReachesStep(s, u, SweepC(to, 0));
    assert Misses(s, t, id, now);
  }

  // A job whose handler fails for the first time while the cancellation is being requested.
  function MissedBefore(job: NewJob): Sys {
    Sys(map[1 := Claimed(NewRow(1, job), "w", 7, 0, 10)], 2, 0, {7},
        map[7 := Flight(1, 1, job.maxAttempts, 0, FailWrite("x", false))])
  }

  /** Such an interleaving exists for every job that may be retried. */
  lemma CancellationCanMissALiveJob(job: NewJob)
    requires job.createdAt == 0 && job.scheduledAt.None? && job.maxAttempts > 1
    ensures Reaches(Initial(0), MissedBefore(job))
    ensures exists t :: Reaches(Apply(MissedBefore(job), CancelOne(1, 0)), t)
              && 1 in t.rows && MissedBefore(job).rows[1].status.Active? && t.rows[1].status.Pending?
  {
    var s0 := Initial(0);
    assert Legal(s0, []) && Run(s0, []) == s0;
    var s1 := Apply(s0, Insert(job));
    ReachesStep(s0, s0, Insert(job));
    assert s1.rows == map[1 := NewRow(1, job)];
    assert IsPick(s1.rows, job.queue, 0, Some(1));
    var claim := Claim("w", job.queue, 7, 0, 10, Some(1));
    ReachesStep(s0, s1, claim);
    var s2 := Apply(s1, claim);
    ReachesStep(s0, s2, HandlerThrows(7, "x", false));
    var s3 := Apply(s2, HandlerThrows(7, "x", false));
    ReachesStep(s0, s3, Advance(7, 0));
    assert Apply(s3, Advance(7, 0)) == MissedBefore(job);
    MissedAfter(job);
  }

  lemma MissedAfter(job: NewJob)
    requires job.createdAt == 0 && job.scheduledAt.None? && job.maxAttempts > 1
    ensures exists t :: Reaches(Apply(MissedBefore(job), CancelOne(1, 0)), t)
              && 1 in t.rows && MissedBefore(job).rows[1].status.Active? && t.rows[1].status.Pending?
  {
    var s5 := Apply(MissedBefore(job), CancelOne(1, 0));
    assert s5 == MissedBefore(job);
    assert Legal(s5, []) && Run(s5, []) == s5;
    ReachesStep(s5, s5, Advance(7, 0));
    assert Apply(s5, Advance(7, 0)).rows[1].status.Pending?;
  }

  // ---------- What a worker leaves when nobody interferes ----------

  // The row after its handler has returned or thrown, decided from the row as it was.
  function Settled(r: Row, phase: Phase, now: Time): Row {
    if r.cancellationRequestedAt.Some? then Failing(r, "cancelled", now)
    else match phase
      case CompleteCheck(result) => Released(r).(status := Completed, result := Some(result), completedAt := Some(now))
      case FailCheck(error, permanent) =>
        if !permanent && r.attempts < r.maxAttempts then
          Released(r).(status := Pending, error := Some(error), scheduledAt := Some(now + 1000 * Pow2(r.attempts)))
        else Failing(r, error, now)
      case _ => r
  }

  /**
    A worker that still holds its job settles it in two statements: a cancellation that was requested wins; otherwise the
    result is stored, or the job is retried after 1000 * 2^attempts ms while attempts remain, or it fails.
   */
  lemma SettledAlone(s: Sys, token: Token, checkedAt: Time, now: Time)
    requires Inv(s) && token in s.flights && (s.flights[token].phase.CompleteCheck? || s.flights[token].phase.FailCheck?)
    requires Owned(s.rows, s.flights[token].id, token)
    requires s.flights[token].claimedAt <= checkedAt <= s.clock && s.flights[token].claimedAt <= now <= s.clock
    ensures Legal(s, [Advance(token, checkedAt), Advance(token, now)])
    ensures var t, id := Run(s, [Advance(token, checkedAt), Advance(token, now)]), s.flights[token].id;
            && t.rows == s.rows[id := Settled(s.rows[id], s.flights[token].phase, now)]
            && token in t.flights && t.flights[token].phase.Done?
  {
    var f := s.flights[token];
    assert FlightOk(s.rows, token, f);
    SettledRows(s.rows, f, token, checkedAt, now);
    AdvanceStep(s, token, checkedAt);
    var u := Apply(s, Advance(token, checkedAt));
    hide Inv, FlightRows, NextPhase, Owned, Settled;
    AdvanceStep(u, token, now);
    TwoSteps(s, Advance(token, checkedAt), Advance(token, now));
  }

  lemma AdvanceStep(s: Sys, token: Token, now: Time)
    requires token in s.flights && !s.flights[token].phase.Running? && !s.flights[token].phase.Done?
    requires s.flights[token].claimedAt <= now <= s.clock
    ensures Enabled(s, Advance(token, now))
    ensures Apply(s, Advance(token, now))
         == s.(flights := s.flights[token := s.flights[token].(phase := NextPhase(s.rows, s.flights[token], token))],
               rows := FlightRows(s.rows, s.flights[token], token, now))
  {
    hide NextPhase, FlightRows;
  }

  // The check changes nothing; the statement after it settles the row.
  lemma SettledRows(rows: Rows, f: Flight, token: Token, checkedAt: Time, now: Time)
    requires Owned(rows, f.id, token) && rows[f.id].attempts == f.attempts && rows[f.id].maxAttempts == f.maxAttempts
    requires f.phase.CompleteCheck? || f.phase.FailCheck?
    ensures FlightRows(rows, f, token, checkedAt) == rows
    ensures var g := f.(phase := NextPhase(rows, f, token));
            && !g.phase.Running? && !g.phase.Done? && NextPhase(rows, g, token).Done?
            && FlightRows(rows, g, token, now) == rows[f.id := Settled(rows[f.id], f.phase, now)]
  {
  }

  lemma TwoSteps(s: Sys, a: Step, b: Step)
    requires Enabled(s, a) && Enabled(Apply(s, a), b)
    ensures Legal(s, [a, b]) && Run(s, [a, b]) == Apply(Apply(s, a), b)
  {
    var u := Apply(s, a);
    var t := Apply(u, b);
    assert [a, b][1..] == [b] && [b][1..] == [];
    assert Legal(t, []) && Run(t, []) == t;
    hide Apply, Enabled;
    assert Legal(u, [b]) && Run(u, [b]) == t;
  }
}
