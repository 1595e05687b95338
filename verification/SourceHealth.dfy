/** The health status of a parser source: several recorders read it and write it back by compare-and-set. */
module SourceHealth {
  import opened Wrappers

  datatype Status = Healthy | Degraded | SchemaChanged | Blocked

  // The stored status may be absent, or text that is none of the four.
  datatype Stored = Unset | Known(status: Status) | Unknown(text: string)

  datatype Stage = Scan | Details | Canary

  datatype Source = Source(status: Stored, streak: nat, checkedAt: Option<int>, alertAt: Option<int>, alertKey: Option<string>)

  // One classification to record; mailed tells what the mail service will answer.
  datatype Report = Report(stage: Stage, status: Status, zeroDetails: bool, key: string, recoveredKey: string, now: int, mailed: bool)

  predicate IsHard(s: Status) { s == SchemaChanged || s == Blocked }

  predicate Quarantined(s: Stored) { s.Known? && IsHard(s.status) }

  // ---------- The decision, from the row as it was read ----------

  // A status that cannot be understood counts as blocked.
  function Previous(s: Source): Status {
    if s.status.Known? then s.status.status else Blocked
  }

  predicate HoldsPrevious(s: Source, r: Report) {
    || (IsHard(Previous(s)) && !IsHard(r.status))
    || (r.stage == Canary && Previous(s) == Degraded && r.status == Healthy)
  }

  function NewStatus(s: Source, r: Report): Status {
    if HoldsPrevious(s, r) then Previous(s) else r.status
  }

  function NewStreak(s: Source, r: Report): nat {
    if HoldsPrevious(s, r) then s.streak else if r.status == Degraded then s.streak + 1 else 0
  }

  predicate Recovery(s: Source, r: Report) {
    r.status == Healthy && Previous(s) != Healthy && !HoldsPrevious(s, r) && s.alertAt.Some?
  }

  predicate AlertDue(s: Source, r: Report) {
    IsHard(r.status) || r.zeroDetails || Recovery(s, r) || (r.status == Degraded && NewStreak(s, r) >= 2)
  }

  function AlertKey(s: Source, r: Report): string { if Recovery(s, r) then r.recoveredKey else r.key }

  predicate Suppressed(s: Source, r: Report, cooldown: nat) {
    s.alertKey == Some(AlertKey(s, r)) && s.alertAt.Some? && r.now - s.alertAt.value < cooldown
  }

  predicate Sends(s: Source, r: Report, cooldown: nat) {
    AlertDue(s, r) && !Suppressed(s, r, cooldown) && r.mailed
  }

  function Claimed(current: Source, read: Source, r: Report): Source {
    current.(status := Known(NewStatus(read, r)), streak := NewStreak(read, r), checkedAt := Some(r.now))
  }

  // The last update is only for the row as this recorder has left it.
  function Alerted(current: Source, read: Source, r: Report): Source {
    if current.status == Known(NewStatus(read, r)) && current.checkedAt == Some(r.now) then
      current.(alertAt := Some(r.now), alertKey := Some(AlertKey(read, r)))
    else current
  }

  // ---------- Any number of recorders, interleaved ----------

  datatype Pc = Reading | Claiming(read: Source) | Mailing(read: Source) | Ended(applied: bool)

  datatype Recorder = Recorder(report: Report, pc: Pc)

  datatype State = State(source: Source, recorders: seq<Recorder>, cooldown: nat)

  datatype Step = Begin(report: Report) | Next(i: nat)

  predicate Enabled(s: State, step: Step) {
    step.Next? ==> step.i < |s.recorders| && !s.recorders[step.i].pc.Ended?
  }

  function SourceAfter(source: Source, c: Recorder): Source {
    match c.pc
    case Claiming(read) => if source.status == read.status then Claimed(source, read, c.report) else source
    case Mailing(read) => Alerted(source, read, c.report)
    case _ => source
  }

  function PcAfter(source: Source, c: Recorder, cooldown: nat): Pc {
    match c.pc
    case Reading => Claiming(source)
    case Claiming(read) =>
      if source.status != read.status then Ended(false)
      else if Sends(read, c.report, cooldown) then Mailing(read)
      else Ended(true)
    case Mailing(_) => Ended(true)
    case Ended(applied) => Ended(applied)
  }

  function Apply(s: State, step: Step): State
    requires Enabled(s, step)
  {
    match step
    case Begin(report) => s.(recorders := s.recorders + [Recorder(report, Reading)])
    case Next(i) =>
      var c := s.recorders[i];
      s.(source := SourceAfter(s.source, c), recorders := s.recorders[i := c.(pc := PcAfter(s.source, c, s.cooldown))])
  }

  ghost predicate Runs(s: State, steps: seq<Step>, t: State)
    decreases |steps|
  {
    if steps == [] then s == t
    else Enabled(s, steps[0]) && Runs(Apply(s, steps[0]), steps[1..], t)
  }

  // ---------- What every step keeps ----------

  // How the status of a source may change.
  predicate Evolves(a: Source, b: Source) {
    && (Quarantined(a.status) ==> Quarantined(b.status))
    && (!a.status.Known? ==> b.status == a.status || Quarantined(b.status))
  }

  // The streak counts while the source is degraded, and only then.
  predicate StreakOk(s: Source) {
    s.status == Known(Degraded) <==> s.streak > 0
  }

  predicate RecorderOk(c: Recorder) {
    c.pc.Claiming? || c.pc.Mailing? ==> StreakOk(c.pc.read)
  }

  predicate Inv(s: State) {
    StreakOk(s.source) && forall i | 0 <= i < |s.recorders| :: RecorderOk(s.recorders[i])
  }

  lemma RecorderEvolves(source: Source, c: Recorder)
    ensures Evolves(source, SourceAfter(source, c))
  {
  }

  lemma RecorderStep(source: Source, c: Recorder, cooldown: nat)
    requires StreakOk(source) && RecorderOk(c)
    ensures StreakOk(SourceAfter(source, c)) && RecorderOk(c.(pc := PcAfter(source, c, cooldown)))
  {
  }

  lemma StepKeeps(s: State, step: Step)
    requires Inv(s) && Enabled(s, step)
    ensures Inv(Apply(s, step))
  {
    if step.Next? {
      assert RecorderOk(s.recorders[step.i]);
      RecorderStep(s.source, s.recorders[step.i], s.cooldown);
    }
    hide RecorderOk, SourceAfter, PcAfter;
    var t := Apply(s, step);
    forall i | 0 <= i < |t.recorders| ensures RecorderOk(t.recorders[i]) {
      if i < |s.recorders| { assert RecorderOk(s.recorders[i]); } else { FreshRecorderOk(t.recorders[i]); }
    }
  }

  lemma FreshRecorderOk(c: Recorder)
    requires c.pc.Reading?
    ensures RecorderOk(c)
  {
  }

  lemma {:induction false} RunKeeps(s: State, steps: seq<Step>, t: State)
    requires Inv(s) && Runs(s, steps, t)
    ensures Inv(t)
    decreases |steps|
  {
    hide Inv, Apply, Enabled;
    if steps != [] {
      StepKeeps(s, steps[0]);
      RunKeeps(Apply(s, steps[0]), steps[1..], t);
    }
  }

  lemma {:induction false} RunEvolves(s: State, steps: seq<Step>, t: State)
    requires Runs(s, steps, t)
    ensures Evolves(s.source, t.source)
    decreases |steps|
  {
    if steps != [] {
      if steps[0].Next? { RecorderEvolves(s.source, s.recorders[steps[0].i]); }
      hide SourceAfter, PcAfter;
      RunEvolves(Apply(s, steps[0]), steps[1..], t);
    }
  }

  // ---------- Theorems ----------

  /** Quarantine is absorbing: a source with a changed schema or blocked stays one of the two, whatever is recorded. */
  lemma QuarantineIsAbsorbing(s: State, steps: seq<Step>, t: State)
    requires Runs(s, steps, t) && Quarantined(s.source.status)
    ensures Quarantined(t.source.status)
  {
    RunEvolves(s, steps, t);
  }

  /** A source without an intelligible status gets none but a quarantine status. */
  lemma UnsetOnlyBecomesQuarantined(s: State, steps: seq<Step>, t: State)
    requires Runs(s, steps, t) && !s.source.status.Known?
    ensures t.source.status == s.source.status || Quarantined(t.source.status)
  {
    RunEvolves(s, steps, t);
  }

  /** A canary never turns degraded into healthy, however its read and its write are interleaved with others. */
  lemma CanaryNeverHeals(s: State, i: nat)
    requires Enabled(s, Next(i)) && s.recorders[i].report.stage == Canary && s.source.status == Known(Degraded)
    ensures Apply(s, Next(i)).source.status != Known(Healthy)
  {
  }

  /** Only a recorder that has itself seen the source degraded, outside a canary, can turn it healthy. */
  lemma HealedBy(s: State, i: nat)
    requires Enabled(s, Next(i)) && s.source.status == Known(Degraded) && Apply(s, Next(i)).source.status == Known(Healthy)
    ensures s.recorders[i].pc.Claiming? && s.recorders[i].pc.read.status == Known(Degraded)
    ensures s.recorders[i].report.status == Healthy && s.recorders[i].report.stage != Canary
  {
  }

  /** In every reachable state the streak is positive exactly for a degraded source. */
  lemma StreakMeansDegraded(s: State, steps: seq<Step>, t: State)
    requires Inv(s) && Runs(s, steps, t)
    ensures t.source.status == Known(Degraded) <==> t.source.streak > 0
  {
    RunKeeps(s, steps, t);
  }

  // What one recording decides from the row it has read, case by case.
  predicate IsDecided(s: Source, r: Report, status: Stored, streak: nat) {
    if s.status != Known(Healthy) && s.status != Known(Degraded) && (r.status == Healthy || r.status == Degraded) then
      streak == s.streak && status == if s.status == Known(SchemaChanged) then Known(SchemaChanged) else Known(Blocked)
    else if s.status == Known(Degraded) && r.status == Healthy && r.stage == Canary then
      streak == s.streak && status == Known(Degraded)
    else
      status == Known(r.status) && streak == if r.status == Degraded then s.streak + 1 else 0
  }

  // Whether a mail is due, for which event, and not sent again too soon.
  predicate Recovers(s: Source, r: Report) {
    s.status == Known(Degraded) && r.status == Healthy && r.stage != Canary && s.alertAt.Some?
  }

  predicate MailIsDue(s: Source, r: Report) {
    || r.status == SchemaChanged || r.status == Blocked || r.zeroDetails || Recovers(s, r)
    || (r.status == Degraded && (s.streak >= 2 || (s.streak == 1 && (s.status == Known(Healthy) || s.status == Known(Degraded)))))
  }

  predicate IsRepeated(s: Source, r: Report, cooldown: nat) {
    && s.alertAt.Some? && r.now < s.alertAt.value + cooldown
    && s.alertKey == Some(if Recovers(s, r) then r.recoveredKey else r.key)
  }

  /**
    A recorder that nobody interrupts: the source has the decided status and streak and the time of the check; its alert
    columns are set exactly if a mail is due, is no repetition and could be sent, and are as before otherwise.
   */
  lemma AloneDecides(s: State, i: nat)
    requires i < |s.recorders| && s.recorders[i].pc == Reading
    ensures var t, r := Apply(Apply(s, Next(i)), Next(i)), s.recorders[i].report;
            && IsDecided(s.source, r, t.source.status, t.source.streak) && t.source.checkedAt == Some(r.now)
            && t.source.alertAt == s.source.alertAt && t.source.alertKey == s.source.alertKey
            && var sends := MailIsDue(s.source, r) && !IsRepeated(s.source, r, s.cooldown) && r.mailed;
            && (t.recorders[i].pc == if sends then Mailing(s.source) else Ended(true))
            && (sends ==>
                  var u := Apply(t, Next(i));
                  && u.recorders[i].pc == Ended(true)
                  && u.source == t.source.(alertAt := Some(r.now),
                       alertKey := Some(if Recovers(s.source, r) then r.recoveredKey else r.key)))
  {
    var u := Apply(s, Next(i));
    assert u.recorders[i] == Recorder(s.recorders[i].report, Claiming(s.source)) && u.source == s.source;
  }

  /** The answer of a recorder: not applied exactly if the status is another one than it has read, and then nothing is written. */
  lemma AnswerIsTrue(s: State, i: nat)
    requires Enabled(s, Next(i)) && s.recorders[i].pc.Claiming?
    ensures var t := Apply(s, Next(i));
            && (t.recorders[i].pc == Ended(false) <==> s.source.status != s.recorders[i].pc.read.status)
            && (t.recorders[i].pc == Ended(false) ==> t.source == s.source)
  {
  }

  /** After others have stepped in, the alert is stored only if the row still is as this recorder has left it. */
  lemma AlertIsOwn(s: State, i: nat)
    requires Enabled(s, Next(i)) && s.recorders[i].pc.Mailing?
    ensures var t, r, read := Apply(s, Next(i)).source, s.recorders[i].report, s.recorders[i].pc.read;
            && t.status == s.source.status && t.streak == s.source.streak && t.checkedAt == s.source.checkedAt
            && (s.source.checkedAt != Some(r.now) ==> t == s.source)
            && (!IsDecided(read, r, s.source.status, s.source.streak) && s.source.streak == NewStreak(read, r) ==> t == s.source)
            && (s.source.checkedAt == Some(r.now) && IsDecided(read, r, s.source.status, NewStreak(read, r)) ==>
                  t.alertAt == Some(r.now) && t.alertKey == Some(if Recovers(read, r) then r.recoveredKey else r.key))
  {
  }

  /** A recorder whose read and write are not interleaved is applied, and counts the streak exactly. */
  lemma AloneIsExact(s: State, i: nat)
    requires i < |s.recorders| && s.recorders[i].pc == Reading
    ensures var t := Apply(Apply(s, Next(i)), Next(i));
            && t.recorders[i].pc != Ended(false)
            && t.source.status == Known(NewStatus(s.source, s.recorders[i].report))
            && t.source.streak == NewStreak(s.source, s.recorders[i].report)
  {
    var u := Apply(s, Next(i));
    assert u.recorders[i] == Recorder(s.recorders[i].report, Claiming(s.source)) && u.source == s.source;
  }

  /**
    The compare-and-set is on the status alone: two recorders that both read before either writes are both
    applied to a degraded source, and one of the two counts is lost.
   */
  lemma StreakCountCanBeLost(s: State, i: nat, j: nat)
    requires i < |s.recorders| && j < |s.recorders| && i != j && s.source.status == Known(Degraded)
    requires s.recorders[i].pc == Reading && s.recorders[i].report.status == Degraded
    requires s.recorders[j].pc == Reading && s.recorders[j].report.status == Degraded
    ensures var t := Apply(Apply(Apply(Apply(s, Next(i)), Next(j)), Next(i)), Next(j));
            t.recorders[i].pc != Ended(false) && t.recorders[j].pc != Ended(false) && t.source.streak == s.source.streak + 1
  {
    var s1 := Apply(s, Next(i));
    assert s1.recorders[i] == Recorder(s.recorders[i].report, Claiming(s.source)) && s1.recorders[j] == s.recorders[j];
    var s2 := Apply(s1, Next(j));
    assert s2.recorders[i] == s1.recorders[i] && s2.recorders[j] == Recorder(s.recorders[j].report, Claiming(s.source));
    var s3 := Apply(s2, Next(i));
    assert s3.recorders[j] == s2.recorders[j] && s3.source.status == Known(Degraded) && s3.source.streak == s.source.streak + 1;
    assert !s3.recorders[i].pc.Ended? || s3.recorders[i].pc.applied;
    var s4 := Apply(s3, Next(j));
    assert s4.recorders[i] == s3.recorders[i];
  }

  // The next step is an applied compare-and-set.
  predicate Applies(s: State, step: Step) {
    && step.Next? && step.i < |s.recorders| && s.recorders[step.i].pc.Claiming?
    && s.source.status == s.recorders[step.i].pc.read.status
  }

  // The new streak does not depend on the old one.
  predicate Resets(read: Source, r: Report) {
    !HoldsPrevious(read, r) && r.status != Degraded
  }

  /**
    An applied recording leaves the streak it would have left had it read just now, if and only if it resets the streak
    or the streak is still the one it has read.
   */
  lemma CountedExactly(current: Source, read: Source, r: Report)
    requires current.status == read.status
    ensures Claimed(current, read, r).status == Known(NewStatus(current, r))
    ensures Claimed(current, read, r).streak == NewStreak(current, r) <==> current.streak == read.streak || Resets(read, r)
  {
  }

  // A source on which the applied recordings are made one after the other, each reading when it writes.
  function InTurn(alone: Source, s: State, step: Step): Source {
    if Applies(s, step) then Claimed(alone, alone, s.recorders[step.i].report) else alone
  }

  // At every moment of the run the streak is that of the recordings applied so far, made in turn.
  ghost predicate CountsEach(s: State, alone: Source, steps: seq<Step>)
    decreases |steps|
  {
    && s.source.streak == alone.streak
    && (steps != [] && Enabled(s, steps[0]) ==> CountsEach(Apply(s, steps[0]), InTurn(alone, s, steps[0]), steps[1..]))
  }

  // No other recording has changed the streak between the read and the write of one that does not reset it.
  ghost predicate Undisturbed(s: State, steps: seq<Step>)
    decreases |steps|
  {
    steps != [] && Enabled(s, steps[0]) ==>
      && (Applies(s, steps[0]) ==>
            var c := s.recorders[steps[0].i];
            s.source.streak == c.pc.read.streak || Resets(c.pc.read, c.report))
      && Undisturbed(Apply(s, steps[0]), steps[1..])
  }

  lemma TurnStep(s: State, alone: Source, step: Step)
    requires Enabled(s, step) && s.source.status == alone.status && s.source.streak == alone.streak
    ensures Apply(s, step).source.status == InTurn(alone, s, step).status
    ensures Apply(s, step).source.streak == InTurn(alone, s, step).streak <==>
      (Applies(s, step) ==>
         var c := s.recorders[step.i];
         s.source.streak == c.pc.read.streak || Resets(c.pc.read, c.report))
  {
    if Applies(s, step) { CountedExactly(s.source, s.recorders[step.i].pc.read, s.recorders[step.i].report); }
  }

  /**
    Over any run, in any interleaving, every applied recording is counted as if the recordings were made in turn, if and
    only if each of them that does not reset the streak finds, when it writes, the streak it has read.
   */
  lemma {:induction false} EachIsCounted(s: State, alone: Source, steps: seq<Step>)
    requires s.source.status == alone.status && s.source.streak == alone.streak
    ensures CountsEach(s, alone, steps) <==> Undisturbed(s, steps)
    decreases |steps|
  {
    if steps != [] && Enabled(s, steps[0]) {
      TurnStep(s, alone, steps[0]);
      var t, next := Apply(s, steps[0]), InTurn(alone, s, steps[0]);
      hide Apply, InTurn, Applies, Resets;
      if t.source.streak == next.streak { EachIsCounted(t, next, steps[1..]); }
    }
  }

  // ---------- The service, as one process runs it ----------

  class Sources {
    var source: Option<Source>
    const cooldown: nat

    // Between two statements other processes record what they have found.
    method Others()
      requires source.Some? ==> StreakOk(source.value)
      modifies this
      ensures source.Some? == old(source).Some?
      ensures source.Some? ==> Evolves(old(source).value, source.value) && StreakOk(source.value)
    {
    }

    /**
      `found` is the source when the compare-and-set runs. It is applied exactly if the status is the one read, and then
      sets what has been decided and nothing else; otherwise nothing is written. When a mail was sent, the alert is stored in
      `last`, unless the row is not any more as this call has left it. The status never leaves quarantine.
     */
    method RecordParserSourceHealth(r: Report)
      returns (applied: bool, persisted: Option<Status>, ghost read: Option<Source>, ghost found: Option<Source>, ghost claimed: Option<Source>,
               ghost last: Option<Source>)
      requires source.Some? ==> StreakOk(source.value)
      modifies this
      ensures source.Some? == old(source).Some? == read.Some? == found.Some?
      ensures read == old(source) && (found.Some? ==> Evolves(read.value, found.value))
      ensures source.Some? ==> Evolves(found.value, source.value) && StreakOk(source.value)
      ensures applied <==> found.Some? && found.value.status == read.value.status
      ensures applied == claimed.Some? == persisted.Some?
      ensures !applied ==> source == found
      ensures applied ==>
                && IsDecided(read.value, r, Known(persisted.value), claimed.value.streak)
                && claimed.value == found.value.(status := Known(persisted.value), streak := claimed.value.streak, checkedAt := Some(r.now))
                && Evolves(claimed.value, source.value)
      ensures applied && !(MailIsDue(read.value, r) && !IsRepeated(read.value, r, cooldown) && r.mailed) ==> source == claimed
      ensures applied && MailIsDue(read.value, r) && !IsRepeated(read.value, r, cooldown) && r.mailed ==>
                && last.Some? && Evolves(claimed.value, last.value)
                && source == Some(
                     if last.value.status == Known(persisted.value) && last.value.checkedAt == Some(r.now) then
                       last.value.(alertAt := Some(r.now), alertKey := Some(if Recovers(read.value, r) then r.recoveredKey else r.key))
                     else last.value)
    {
      persisted, read, found, claimed, last := None, None, None, None, None;
      if source.None? { return false, None, None, None, None, None; }
      var freshSource := source.value;
      read := Some(freshSource);
      Others();
      found := source;
      if source.None? || source.value.status != freshSource.status { return false, None, read, found, None, None; }
      RecorderEvolves(source.value, Recorder(r, Claiming(freshSource)));
      RecorderStep(source.value, Recorder(r, Claiming(freshSource)), cooldown);
      source := Some(Claimed(source.value, freshSource, r));
      applied, persisted, claimed := true, Some(NewStatus(freshSource, r)), source;
      if Sends(freshSource, r, cooldown) {
        Others();
        last := source;
        if source.Some? {
          RecorderEvolves(source.value, Recorder(r, Mailing(freshSource)));
          RecorderStep(source.value, Recorder(r, Mailing(freshSource)), cooldown);
          source := Some(Alerted(source.value, freshSource, r));
        }
      }
    }
  }
}
