/** The invariant of the queue: every step of every interleaving keeps it. */
module JobInvariant {
  import opened Wrappers
  import opened JobRows
  import opened JobMachine

  lemma MoveKeepsRowOk(r: Row, n: Row, clock: Time, later: Time)
    requires RowOk(r, clock) && RowMoves(r, n, clock) && clock <= later
    ensures RowOk(n, later)
    ensures n.Live() ==> r.Live()
    ensures n.id == r.id && n.queue == r.queue && n.idempotencyKey == r.idempotencyKey
  {
  }

  lemma StepKeepsRowsOk(s: Sys, step: Step)
    requires Inv(s) && Enabled(s, step)
    ensures RowsOk(Apply(s, step))
  {
    StepGlobals(s, step);
    hide Apply, RowMoves, Enabled;
    var t := Apply(s, step);
    forall id | id in t.rows ensures id < t.nextId && t.rows[id].id == id && RowOk(t.rows[id], t.clock) {
      if id in s.rows {
        StepMovesRows(s, step, id);
        MoveKeepsRowOk(s.rows[id], t.rows[id], s.clock, t.clock);
      } else {
        assert t.rows[id] == NewRow(id, step.job);
      }
    }
  }

  lemma StepKeepsTokensOk(s: Sys, step: Step)
    requires Inv(s) && Enabled(s, step)
    ensures TokensOk(Apply(s, step))
  {
    StepGlobals(s, step);
    hide Apply, Enabled;
    var t := Apply(s, step);
    forall id | id in t.rows && t.rows[id].leaseToken.Some?
      ensures t.rows[id].leaseToken.value in t.issued
      ensures id in s.rows
      ensures || t.rows[id].leaseToken == s.rows[id].leaseToken
              || (step.Claim? && step.pick == Some(id) && t.rows[id].leaseToken.value !in s.issued)
    {
      if id in s.rows { TokenSource(s, step, id); }
    }
  }

  lemma StepKeepsKeysUnique(s: Sys, step: Step)
    requires Inv(s) && Enabled(s, step)
    ensures KeysUnique(Apply(s, step).rows)
  {
    StepGlobals(s, step);
    hide Apply, Enabled, RowMoves, RowOk;
    var t := Apply(s, step);
    forall id | id in t.rows && id in s.rows
      ensures t.rows[id].queue == s.rows[id].queue && t.rows[id].idempotencyKey == s.rows[id].idempotencyKey
      ensures t.rows[id].Live() ==> s.rows[id].Live()
    {
      StepMovesRows(s, step, id);
      MoveKeepsRowOk(s.rows[id], t.rows[id], s.clock, t.clock);
    }
    forall i, j | i in t.rows && j in t.rows && i !in s.rows && j in s.rows && t.rows[j].Live()
      ensures !(t.rows[i].idempotencyKey.Some? && t.rows[i].queue == t.rows[j].queue
                && t.rows[i].idempotencyKey == t.rows[j].idempotencyKey)
    {
      assert t.rows[i] == NewRow(i, step.job);
      assert t.rows[i].idempotencyKey.Some? ==> !IsLiveMatch(s.rows[j], step.job.queue, step.job.idempotencyKey);
    }
  }

  // A worker that stops dealing with a job no longer owns it.
  lemma AdvanceKeepsFlightOk(s: Sys, token: Token, now: Time)
    requires Inv(s) && Enabled(s, Advance(token, now))
    ensures var t := Apply(s, Advance(token, now)); FlightOk(t.rows, token, t.flights[token])
  {
    var t, f := Apply(s, Advance(token, now)), s.flights[token];
    assert FlightOk(s.rows, token, f);
    forall id | id in t.rows && t.rows[id].leaseToken == Some(token)
      ensures id == f.id && t.rows[id] == s.rows[id] && !t.flights[token].phase.Done?
      ensures t.flights[token].phase.Recheck? ==> t.rows[id].cancellationRequestedAt.Some?
    {
      TokenSource(s, Advance(token, now), id);
      assert id == f.id && RowOk(s.rows[id], s.clock) && Owned(s.rows, id, token);
    }
  }

  lemma StepKeepsFlightsOk(s: Sys, step: Step)
    requires Inv(s) && Enabled(s, step)
    ensures FlightsOk(Apply(s, step))
  {
    StepGlobals(s, step);
    hide Apply, RowOk, KeysUnique;
    var t := Apply(s, step);
    forall token | token in t.flights ensures token in t.issued && FlightOk(t.rows, token, t.flights[token]) {
      if token in s.flights && step.Advance? && step.token == token {
        AdvanceKeepsFlightOk(s, token, step.now);
      } else {
        FlightStays(s, step, token);
      }
    }
  }

  // The other steps do not disturb a flight.
  lemma FlightStays(s: Sys, step: Step, token: Token)
    requires Inv(s) && Enabled(s, step) && token in Apply(s, step).flights
    requires !(step.Advance? && step.token == token)
    ensures FlightOk(Apply(s, step).rows, token, Apply(s, step).flights[token])
  {
    StepGlobals(s, step);
    hide Apply, RowOk, KeysUnique, RowsOk;
    var t := Apply(s, step);
    if token in s.flights { assert FlightOk(s.rows, token, s.flights[token]); }
    forall id | id in t.rows && t.rows[id].leaseToken == Some(token)
      ensures var f := t.flights[token];
              && id == f.id && t.rows[id].attempts == f.attempts && t.rows[id].maxAttempts == f.maxAttempts
              && t.rows[id].startedAt == Some(f.claimedAt) && !f.phase.Done?
              && (f.phase.Recheck? ==> t.rows[id].cancellationRequestedAt.Some?)
    {
      TokenSource(s, step, id);
    }
  }

  /** Inductive step of the invariant. */
  lemma StepKeepsInv(s: Sys, step: Step)
    requires Inv(s) && Enabled(s, step)
    ensures Inv(Apply(s, step))
  {
    StepKeepsRowsOk(s, step);
    StepKeepsTokensOk(s, step);
    StepKeepsKeysUnique(s, step);
    StepKeepsFlightsOk(s, step);
  }

  /**
    Every state any interleaving can reach from an empty table: `attempts` never exceeds the cap,
    a pending row is below it and carries no cancellation mark, no token is on two rows,
    at most one live row exists per (queue, idempotency_key).
   */
  lemma {:induction false} RunKeepsInv(s: Sys, steps: seq<Step>)
    requires Inv(s) && Legal(s, steps)
    ensures Inv(Run(s, steps))
    decreases steps
  {
    if steps != [] {
      StepKeepsInv(s, steps[0]);
      RunKeepsInv(Apply(s, steps[0]), steps[1..]);
    }
  }

  lemma ReachesKeepsInv(s: Sys, t: Sys)
    requires Inv(s) && Reaches(s, t)
    ensures Inv(t)
  {
    var steps :| Legal(s, steps) && Run(s, steps) == t;
    RunKeepsInv(s, steps);
  }

  lemma ReachableInv(clock: Time, s: Sys)
    requires Reaches(Initial(clock), s)
    ensures forall id | id in s.rows ::
              && s.rows[id].attempts <= s.rows[id].Cap()
              && (s.rows[id].status.Pending? ==> s.rows[id].attempts < s.rows[id].Cap())
              && (s.rows[id].status.Pending? ==> s.rows[id].cancellationRequestedAt.None?)
    ensures KeysUnique(s.rows)
    ensures forall i, j | i in s.rows && j in s.rows && s.rows[i].leaseToken.Some? && s.rows[i].leaseToken == s.rows[j].leaseToken
              :: i == j && s.rows[i].status.Active?
  {
    InitialInv(clock);
    ReachesKeepsInv(Initial(clock), s);
    forall id | id in s.rows ensures RowOk(s.rows[id], s.clock) {}
  }
}
