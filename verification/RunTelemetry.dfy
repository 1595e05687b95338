/** The write-once fields of a parser run: snapshot metadata, digest window, digest counters. */
module RunTelemetry {
  import opened Wrappers

  datatype Scope = All | Single | Nobody

  // The filter snapshot by its canonical text.
  datatype Filter = Filter(text: string, hash: string, schemaVersion: int)

  datatype Metadata = Metadata(
    scope: Option<Scope>, targetUserId: Option<int>, snapshot: Option<string>, hash: Option<string>, schemaVersion: Option<int>)

  const NoMetadata := Metadata(None, None, None, None, None)

  datatype Digest = Digest(scheduled: nat, sent: nat, skipped: nat, failed: nat)

  const NoDigest := Digest(0, 0, 0, 0)

  // One row of parser_runs, as far as these fields go.
  datatype Run = Run(running: bool, metadata: Metadata, window: Option<string>, digest: Digest)

  const NewRun := Run(true, NoMetadata, None, NoDigest)

  // What a caller asks to be stored; text is an exact ISO instant or not.
  datatype Ask =
    | AskMetadata(scope: Scope, targetUserId: Option<int>, filter: Option<Filter>)
    | AskWindow(end: string, exact: bool)
    | AskDigest(counters: Digest)

  predicate Balanced(d: Digest) { d.scheduled - d.sent == d.skipped + d.failed }

  // The entry checks of the three calls.
  predicate Acceptable(ask: Ask) {
    match ask
    case AskMetadata(_, _, _) => true
    case AskWindow(_, exact) => exact
    case AskDigest(counters) => Balanced(counters)
  }

  function WantedMetadata(ask: Ask): Metadata
    requires ask.AskMetadata?
  {
    Metadata(Some(ask.scope), if ask.scope == Single then ask.targetUserId else None,
      if ask.filter.Some? then Some(ask.filter.value.text) else None,
      if ask.filter.Some? then Some(ask.filter.value.hash) else None,
      if ask.filter.Some? then Some(ask.filter.value.schemaVersion) else None)
  }

  // The register of the call has its initial value.
  predicate Unset(run: Run, ask: Ask) {
    match ask
    case AskMetadata(_, _, _) => run.metadata == NoMetadata
    case AskWindow(_, _) => run.window == None
    case AskDigest(_) => run.digest == NoDigest
  }

  // The register holds what the caller asks for.
  predicate Holds(run: Run, ask: Ask) {
    match ask
    case AskMetadata(_, _, _) => run.metadata == WantedMetadata(ask)
    case AskWindow(end, _) => run.window == Some(end)
    case AskDigest(counters) => run.digest == counters
  }

  function Stored(run: Run, ask: Ask): Run {
    match ask
    case AskMetadata(_, _, _) => run.(metadata := WantedMetadata(ask))
    case AskWindow(end, _) => run.(window := Some(end))
    case AskDigest(counters) => run.(digest := counters)
  }

  // Window and digest are stored only while the run is running.
  predicate NeedsRunning(ask: Ask) { !ask.AskMetadata? }

  // ---------- The three steps of a call ----------

  datatype Answer = Pending | Accepted | Refused

  // The first read: answer at once, or go on to the update.
  function FirstRead(row: Option<Run>, ask: Ask): Answer {
    if row.None? || (NeedsRunning(ask) && !row.value.running) then Refused
    else if Holds(row.value, ask) then Accepted
    else if !Unset(row.value, ask) then Refused
    else Pending
  }

  // The WHERE of the conditional update.
  predicate MayStore(row: Option<Run>, ask: Ask) {
    row.Some? && Unset(row.value, ask) && (NeedsRunning(ask) ==> row.value.running)
  }

  // The second read, after an update that matched no row. Only the window is checked against a finished run again.
  function SecondRead(row: Option<Run>, ask: Ask): Answer {
    if row.Some? && Holds(row.value, ask) && (ask.AskWindow? ==> row.value.running) then Accepted else Refused
  }

  // ---------- Any number of callers, interleaved ----------

  datatype Pc = Reading | Writing | Rereading | Ended(answer: Answer)

  datatype Caller = Caller(ask: Ask, pc: Pc)

  datatype State = State(row: Option<Run>, callers: seq<Caller>)

  const Start := State(None, [])

  // Create the row; finish the run; a new call; the next step of a call.
  datatype Step = Create | Finish | Call(ask: Ask) | Next(i: nat)

  predicate Enabled(s: State, step: Step) {
    match step
    case Create => s.row.None?
    case Finish => s.row.Some?
    case Call(_) => true
    case Next(i) => i < |s.callers| && !s.callers[i].pc.Ended?
  }

  function ToPc(answer: Answer, next: Pc): Pc { if answer == Pending then next else Ended(answer) }

  // One step of a caller: what it leaves in the table and where it goes on.
  function RowAfter(row: Option<Run>, c: Caller): Option<Run> {
    if c.pc.Writing? && MayStore(row, c.ask) then Some(Stored(row.value, c.ask)) else row
  }

  function PcAfter(row: Option<Run>, c: Caller): Pc {
    match c.pc
    case Reading => ToPc(FirstRead(row, c.ask), Writing)
    case Writing => if MayStore(row, c.ask) then Ended(Accepted) else Rereading
    case Rereading => ToPc(SecondRead(row, c.ask), Rereading)
    case Ended(answer) => Ended(answer)
  }

  function NewCaller(ask: Ask): Caller { Caller(ask, if Acceptable(ask) then Reading else Ended(Refused)) }

  function Apply(s: State, step: Step): State
    requires Enabled(s, step)
  {
    match step
    case Create => s.(row := Some(NewRun))
    case Finish => s.(row := Some(s.row.value.(running := false)))
    case Call(ask) => State(s.row, s.callers + [NewCaller(ask)])
    case Next(i) =>
      var c := s.callers[i];
      State(RowAfter(s.row, c), s.callers[i := c.(pc := PcAfter(s.row, c))])
  }

  lemma CallStep(s: State, ask: Ask)
    ensures Enabled(s, Call(ask)) && Apply(s, Call(ask)) == State(s.row, s.callers + [NewCaller(ask)])
  {
  }

  lemma NextStep(s: State, i: nat)
    requires i < |s.callers| && !s.callers[i].pc.Ended?
    ensures Enabled(s, Next(i))
    ensures Apply(s, Next(i)) == State(RowAfter(s.row, s.callers[i]), s.callers[i := s.callers[i].(pc := PcAfter(s.row, s.callers[i]))])
  {
  }

  ghost predicate Runs(s: State, steps: seq<Step>, t: State)
    decreases |steps|
  {
    if steps == [] then s == t
    else Enabled(s, steps[0]) && Runs(Apply(s, steps[0]), steps[1..], t)
  }

  // ---------- What any run keeps ----------

  // How a row may change: fields once set, and everything but the metadata of a finished run, stay.
  predicate Moves(a: Option<Run>, b: Option<Run>) {
    a.Some? ==>
      && b.Some?
      && (a.value.metadata != NoMetadata ==> b.value.metadata == a.value.metadata)
      && (a.value.window != None ==> b.value.window == a.value.window)
      && (a.value.digest != NoDigest ==> b.value.digest == a.value.digest)
      && (!a.value.running ==> !b.value.running && b.value.window == a.value.window && b.value.digest == a.value.digest)
  }

  predicate Inv(s: State) {
    && (s.row.Some? ==> Balanced(s.row.value.digest))
    && forall i | 0 <= i < |s.callers| :: CallerOk(s.row, s.callers[i])
  }

  predicate CallerOk(row: Option<Run>, c: Caller) {
    && (c.pc != Ended(Refused) ==> Acceptable(c.ask))
    && (c.pc.Writing? || c.pc.Rereading? || c.pc == Ended(Accepted) ==> row.Some?)
    && (c.pc.Rereading? ==> !MayStore(row, c.ask))
    && (c.pc == Ended(Accepted) && c.ask != AskDigest(NoDigest) ==> Holds(row.value, c.ask))
  }

  lemma CallerMoves(row: Option<Run>, c: Caller)
    ensures Moves(row, RowAfter(row, c))
  {
  }

  lemma StepMoves(s: State, step: Step)
    requires Enabled(s, step)
    ensures Moves(s.row, Apply(s, step).row)
  {
    if step.Next? { CallerMoves(s.row, s.callers[step.i]); }
    hide RowAfter;
  }

  lemma HeldIsSet(run: Run, ask: Ask)
    requires Holds(run, ask) && ask != AskDigest(NoDigest)
    ensures !Unset(run, ask)
  {
  }

  lemma SetIsHeld(a: Run, b: Run, ask: Ask)
    requires Moves(Some(a), Some(b)) && !Unset(a, ask)
    ensures !Unset(b, ask) && (Holds(a, ask) ==> Holds(b, ask))
  {
  }

  lemma ClosedStaysClosed(a: Run, b: Run, ask: Ask)
    requires Moves(Some(a), Some(b)) && !MayStore(Some(a), ask)
    ensures !MayStore(Some(b), ask)
  {
  }

  lemma MovesKeepsCaller(a: Option<Run>, b: Option<Run>, c: Caller)
    requires Moves(a, b) && CallerOk(a, c)
    ensures CallerOk(b, c)
  {
    if a.Some? {
      if !Unset(a.value, c.ask) { SetIsHeld(a.value, b.value, c.ask); }
      if Holds(a.value, c.ask) && c.ask != AskDigest(NoDigest) { HeldIsSet(a.value, c.ask); }
      if !MayStore(a, c.ask) { ClosedStaysClosed(a.value, b.value, c.ask); }
      hide Holds, Unset, MayStore, WantedMetadata;
    }
  }

  lemma StoredHolds(run: Run, ask: Ask)
    ensures Holds(Stored(run, ask), ask)
  {
  }

  lemma CallerStep(row: Option<Run>, c: Caller)
    requires CallerOk(row, c)
    ensures CallerOk(RowAfter(row, c), c.(pc := PcAfter(row, c)))
  {
    hide Holds, Stored, Unset, Acceptable;
    if row.Some? { StoredHolds(row.value, c.ask); }
  }

  lemma BalancedStep(row: Option<Run>, c: Caller)
    requires CallerOk(row, c) && (row.Some? ==> Balanced(row.value.digest)) && !c.pc.Ended?
    ensures RowAfter(row, c).Some? ==> Balanced(RowAfter(row, c).value.digest)
  {
  }

  lemma NextKeepsInv(s: State, i: nat)
    requires Inv(s) && i < |s.callers| && !s.callers[i].pc.Ended?
    ensures Inv(Apply(s, Next(i)))
  {
    var c := s.callers[i];
    assert CallerOk(s.row, c);
    BalancedStep(s.row, c);
    CallerStep(s.row, c);
    CallerMoves(s.row, c);
    NextStep(s, i);
    hide Apply, CallerOk, RowAfter, PcAfter, Moves;
    OthersKept(s, Apply(s, Next(i)), i);
  }

  lemma CallKeepsInv(s: State, ask: Ask)
    requires Inv(s)
    ensures Inv(Apply(s, Call(ask)))
  {
    NewCallerOk(s.row, ask);
    MovesNowhere(s.row);
    CallStep(s, ask);
    hide Apply, CallerOk, NewCaller, Moves;
    OthersKept(s, Apply(s, Call(ask)), |s.callers|);
  }

  lemma StepKeepsInv(s: State, step: Step)
    requires Inv(s) && Enabled(s, step)
    ensures Inv(Apply(s, step))
  {
    match step
    case Next(i) => NextKeepsInv(s, i);
    case Call(ask) => CallKeepsInv(s, ask);
    case _ =>
      StepMoves(s, step);
      ZeroBalanced();
      OthersKept(s, Apply(s, step), |s.callers|);
  }

  // Only the caller at k has moved or is new.
  lemma OthersKept(s: State, t: State, k: nat)
    requires Inv(s) && Moves(s.row, t.row) && (t.row.Some? ==> Balanced(t.row.value.digest))
    requires |s.callers| <= |t.callers| <= |s.callers| + 1
    requires forall i | 0 <= i < |s.callers| && i != k :: t.callers[i] == s.callers[i]
    requires k < |t.callers| ==> CallerOk(t.row, t.callers[k])
    requires |t.callers| > |s.callers| ==> k == |s.callers|
    ensures Inv(t)
  {
    hide CallerOk, Moves;
    forall i | 0 <= i < |t.callers| && i != k ensures CallerOk(t.row, t.callers[i]) {
      assert CallerOk(s.row, s.callers[i]);
      MovesKeepsCaller(s.row, t.row, s.callers[i]);
    }
  }

  lemma ZeroBalanced()
    ensures Balanced(NoDigest)
  {
  }

  lemma NewCallerOk(row: Option<Run>, ask: Ask)
    ensures CallerOk(row, NewCaller(ask))
  {
  }

  // Calls keep their request, and their answer once they have one.
  predicate CallersStay(s: State, t: State) {
    && |t.callers| >= |s.callers|
    && forall i | 0 <= i < |s.callers| ::
         t.callers[i].ask == s.callers[i].ask && (s.callers[i].pc.Ended? ==> t.callers[i] == s.callers[i])
  }

  lemma StepKeepsCallers(s: State, step: Step)
    requires Enabled(s, step)
    ensures CallersStay(s, Apply(s, step))
  {
    hide RowAfter, PcAfter, Acceptable;
  }

  lemma {:induction false} RunKeeps(s: State, steps: seq<Step>, t: State)
    requires Inv(s) && Runs(s, steps, t)
    ensures Inv(t) && Moves(s.row, t.row) && CallersStay(s, t)
    decreases |steps|
  {
    hide Apply, Enabled, Inv, Moves;
    if steps == [] {
      MovesNowhere(s.row);
    } else {
      StepKeepsInv(s, steps[0]);
      StepMoves(s, steps[0]);
      StepKeepsCallers(s, steps[0]);
      var u := Apply(s, steps[0]);
      RunKeeps(u, steps[1..], t);
      MovesTrans(s.row, u.row, t.row);
    }
  }

  lemma MovesNowhere(a: Option<Run>)
    ensures Moves(a, a)
  {
  }

  lemma MovesTrans(a: Option<Run>, b: Option<Run>, c: Option<Run>)
    requires Moves(a, b) && Moves(b, c)
    ensures Moves(a, c)
  {
  }

  ghost predicate Reachable(s: State) {
    exists steps :: Runs(Start, steps, s)
  }

  lemma ReachableInv(s: State)
    requires Reachable(s)
    ensures Inv(s)
  {
    var steps :| Runs(Start, steps, s);
    RunKeeps(Start, steps, s);
  }

  // ---------- Theorems ----------

  /** In every reachable state the stored digest counters add up. */
  lemma DigestAlwaysBalanced(s: State)
    requires Reachable(s) && s.row.Some?
    ensures s.row.value.digest.scheduled == s.row.value.digest.sent + s.row.value.digest.skipped + s.row.value.digest.failed
  {
    ReachableInv(s);
  }

  /** Each field leaves its initial value at most once, and the window and the digest never after the run has finished. */
  lemma WrittenOnce(s: State, steps: seq<Step>, t: State)
    requires Reachable(s) && Runs(s, steps, t) && s.row.Some?
    ensures t.row.Some?
    ensures s.row.value.metadata != NoMetadata ==> t.row.value.metadata == s.row.value.metadata
    ensures s.row.value.window != None ==> t.row.value.window == s.row.value.window
    ensures s.row.value.digest != NoDigest ==> t.row.value.digest == s.row.value.digest
    ensures !s.row.value.running ==> t.row.value.window == s.row.value.window && t.row.value.digest == s.row.value.digest
  {
    ReachableInv(s);
    RunKeeps(s, steps, t);
  }

  /** A caller that was answered finds its own value stored from then on, unless it asked for the initial zero counters. */
  lemma AnsweredIsStored(s: State, i: nat, steps: seq<Step>, t: State)
    requires Reachable(s) && i < |s.callers| && s.callers[i].pc == Ended(Accepted) && Runs(s, steps, t)
    requires s.callers[i].ask != AskDigest(NoDigest)
    ensures t.row.Some? && Holds(t.row.value, s.callers[i].ask)
  {
    ReachableInv(s);
    RunKeeps(s, steps, t);
    assert CallerOk(t.row, t.callers[i]);
  }

  /** Two answered callers of the same kind asked for the same, zero counters aside. */
  lemma AnsweredAgree(s: State, i: nat, j: nat)
    requires Reachable(s) && i < |s.callers| && j < |s.callers|
    requires s.callers[i].pc == Ended(Accepted) && s.callers[j].pc == Ended(Accepted)
    requires s.callers[i].ask != AskDigest(NoDigest) && s.callers[j].ask != AskDigest(NoDigest)
    ensures s.row.Some? && Holds(s.row.value, s.callers[i].ask) && Holds(s.row.value, s.callers[j].ask)
    ensures s.callers[i].ask.AskWindow? && s.callers[j].ask.AskWindow? ==> s.callers[i].ask == s.callers[j].ask
    ensures s.callers[i].ask.AskDigest? && s.callers[j].ask.AskDigest? ==> s.callers[i].ask == s.callers[j].ask
  {
    ReachableInv(s);
    assert CallerOk(s.row, s.callers[i]) && CallerOk(s.row, s.callers[j]);
  }

  /**
    A caller is refused only for cause: the run is missing or has finished, or another value is stored already.
   */
  lemma RefusedForCause(s: State, i: nat)
    requires Reachable(s) && i < |s.callers| && !s.callers[i].pc.Ended? && PcAfter(s.row, s.callers[i]) == Ended(Refused)
    ensures var ask := s.callers[i].ask;
            s.row.None? || (NeedsRunning(ask) && !s.row.value.running) || (!Unset(s.row.value, ask) && !Holds(s.row.value, ask))
  {
    ReachableInv(s);
    assert CallerOk(s.row, s.callers[i]);
    RefusedCause(s.row, s.callers[i]);
  }

  lemma RefusedCause(row: Option<Run>, c: Caller)
    requires CallerOk(row, c) && !c.pc.Ended? && PcAfter(row, c) == Ended(Refused)
    ensures row.None? || (NeedsRunning(c.ask) && !row.value.running) || (!Unset(row.value, c.ask) && !Holds(row.value, c.ask))
  {
    hide Holds, Unset, Acceptable;
  }

  lemma AnsweredHasRow(s: State, i: nat)
    requires Reachable(s) && i < |s.callers| && s.callers[i].pc == Ended(Accepted)
    ensures s.row.Some? && Inv(s)
  {
    ReachableInv(s);
    assert CallerOk(s.row, s.callers[i]);
  }

  // No later state has other counters than zero.
  ghost predicate ZeroForever(s: State) {
    forall steps, t | Runs(s, steps, t) :: t.row.Some? && t.row.value.digest == NoDigest
  }

  lemma FinishedStaysZero(s: State)
    requires Inv(s) && s.row.Some? && s.row.value.digest == NoDigest && !s.row.value.running
    ensures ZeroForever(s)
  {
    forall steps, t | Runs(s, steps, t) ensures t.row.Some? && t.row.value.digest == NoDigest {
      RunKeeps(s, steps, t);
    }
  }

  lemma OtherCountersStored(s: State, steps: seq<Step>, t: State)
    requires Runs(s, steps, t) && (t.row.None? || t.row.value.digest != NoDigest)
    ensures !ZeroForever(s)
  {
    hide Runs;
  }

  /**
    Zero counters are the initial value, so answering them writes nothing. Once a caller that asked for them is answered,
    they stay in every later state if and only if they are stored then and the run is no longer running.
   */
  lemma ZeroCountersStay(s: State, i: nat)
    requires Reachable(s) && i < |s.callers| && s.callers[i] == Caller(AskDigest(NoDigest), Ended(Accepted))
    ensures s.row.Some?
    ensures ZeroForever(s) <==> s.row.value.digest == NoDigest && !s.row.value.running
  {
    AnsweredHasRow(s, i);
    assert Runs(s, [], s);
    hide *;
    if s.row.value.digest != NoDigest {
      OtherCountersStored(s, [], s);
    } else if s.row.value.running {
      RunningCanStore(s);
    } else {
      FinishedStaysZero(s);
    }
  }

  lemma SomeBalanced(n: nat) returns (d: Digest)
    requires n > 0
    ensures Balanced(d) && d != NoDigest
  {
    d := Digest(n, n, 0, 0);
  }

  lemma RunningCanStore(s: State)
    requires s.row.Some? && s.row.value.running && s.row.value.digest == NoDigest
    ensures !ZeroForever(s)
  {
    var d := SomeBalanced(1);
    hide *;
    var t := CountersCanBeStored(s, d);
    OtherCountersStored(s, [Call(AskDigest(d)), Next(|s.callers|), Next(|s.callers|)], t);
  }

  // In a running run without counters a new caller can store any that add up.
  lemma CountersCanBeStored(s: State, d: Digest) returns (t: State)
    requires s.row.Some? && s.row.value.running && s.row.value.digest == NoDigest && Balanced(d) && d != NoDigest
    ensures Runs(s, [Call(AskDigest(d)), Next(|s.callers|), Next(|s.callers|)], t)
    ensures t.row == Some(s.row.value.(digest := d))
  {
    var k, asked := |s.callers|, Caller(AskDigest(d), Reading);
    AnswerCounters(s.row, d);
    hide Apply, RowAfter, PcAfter, NewCaller, Balanced;
    var t1 := State(s.row, s.callers + [asked]);
    var t2 := State(s.row, s.callers + [asked.(pc := Writing)]);
    t := State(Some(s.row.value.(digest := d)), s.callers + [asked.(pc := Ended(Accepted))]);
    CallStep(s, AskDigest(d));
    NextStep(t1, k);
    assert t1.callers[k := asked.(pc := Writing)] == t2.callers;
    NextStep(t2, k);
    assert t2.callers[k := asked.(pc := Ended(Accepted))] == t.callers;
    Runs3(s, Call(AskDigest(d)), t1, Next(k), t2, Next(k), t);
  }

  lemma AnswerCounters(row: Option<Run>, d: Digest)
    requires row.Some? && row.value.running && row.value.digest == NoDigest && Balanced(d) && d != NoDigest
    ensures var asked := Caller(AskDigest(d), Reading);
            && NewCaller(AskDigest(d)) == asked
            && RowAfter(row, asked) == row && PcAfter(row, asked) == Writing
            && RowAfter(row, asked.(pc := Writing)) == Some(row.value.(digest := d))
            && PcAfter(row, asked.(pc := Writing)) == Ended(Accepted)
  {
  }

  /** Such a state is reachable: zero counters are answered on a new run, and others can be stored after that. */
  lemma ZeroCountersAreNotKept(d: Digest)
    requires Balanced(d) && d != NoDigest
    ensures var before := State(Some(NewRun), [Caller(AskDigest(NoDigest), Ended(Accepted))]);
            Reachable(before)
            && exists t :: Runs(before, [Call(AskDigest(d)), Next(1), Next(1)], t) && t.row == Some(NewRun.(digest := d))
  {
    ZeroAnswered();
    var t := CountersCanBeStored(State(Some(NewRun), [Caller(AskDigest(NoDigest), Ended(Accepted))]), d);
  }

  // A call on a new run: other counters are stored, zero counters are answered at once.
  lemma AnswerNew(row: Option<Run>, d: Digest)
    requires row == Some(NewRun) && Balanced(d)
    ensures var asked := Caller(AskDigest(d), Reading);
            && NewCaller(AskDigest(d)) == asked && RowAfter(row, asked) == row
            && (d == NoDigest ==> PcAfter(row, asked) == Ended(Accepted))
            && (d != NoDigest ==> PcAfter(row, asked) == Writing
                                  && RowAfter(row, asked.(pc := Writing)) == Some(NewRun.(digest := d))
                                  && PcAfter(row, asked.(pc := Writing)) == Ended(Accepted))
  {
  }

  lemma ZeroAnswered()
    ensures Reachable(State(Some(NewRun), [Caller(AskDigest(NoDigest), Ended(Accepted))]))
  {
    var asked := Caller(AskDigest(NoDigest), Reading);
    ZeroBalanced();
    AnswerNew(Some(NewRun), NoDigest);
    var s1 := State(Some(NewRun), []);
    assert Apply(Start, Create) == s1;
    hide Apply, RowAfter, PcAfter, NewCaller;
    var s2 := State(Some(NewRun), [asked]);
    var s := State(Some(NewRun), [asked.(pc := Ended(Accepted))]);
    CallStep(s1, AskDigest(NoDigest));
    assert s1.callers + [asked] == s2.callers;
    NextStep(s2, 0);
    assert s2.callers[0 := asked.(pc := Ended(Accepted))] == s.callers;
    Runs3(Start, Create, s1, Call(AskDigest(NoDigest)), s2, Next(0), s);
  }

  lemma Runs3(a: State, x: Step, b: State, y: Step, c: State, z: Step, d: State)
    requires Enabled(a, x) && Apply(a, x) == b && Enabled(b, y) && Apply(b, y) == c && Enabled(c, z) && Apply(c, z) == d
    ensures Runs(a, [x, y, z], d)
  {
    assert [x, y, z][1..] == [y, z] && [y, z][1..] == [z] && [z][1..] == [];
    assert Runs(c, [z], d);
    assert Runs(b, [y, z], d);
  }

  // ---------- The service, as one process runs it ----------

  predicate RowOk(row: Option<Run>) { row.Some? ==> Balanced(row.value.digest) }

  lemma StoreMoves(row: Option<Run>, ask: Ask)
    requires RowOk(row) && Acceptable(ask)
    ensures Moves(row, row)
    ensures MayStore(row, ask) ==> Moves(row, Some(Stored(row.value, ask))) && RowOk(Some(Stored(row.value, ask)))
  {
    if row.Some? { StoredBalanced(row.value, ask); }
    hide Acceptable;
  }

  lemma StoredBalanced(run: Run, ask: Ask)
    requires Balanced(run.digest) && Acceptable(ask)
    ensures Balanced(Stored(run, ask).digest)
  {
  }

  class ParserRuns {
    var row: Option<Run>

    // Between two statements other processes take any steps of the machine above.
    method Others()
      requires RowOk(row)
      modifies this
      ensures Moves(old(row), row) && RowOk(row)
    {
      MovesNowhere(row);
    }

    // The conditional UPDATE; tells whether it matched the row.
    method UpdateUnset(ask: Ask) returns (updated: bool)
      requires RowOk(row) && Acceptable(ask)
      modifies this
      ensures updated == MayStore(old(row), ask)
      ensures row == if updated then Some(Stored(old(row).value, ask)) else old(row)
      ensures Moves(old(row), row) && RowOk(row)
    {
      StoreMoves(row, ask);
      hide Acceptable, MayStore, Stored, Moves;
      updated := MayStore(row, ask);
      if updated { row := Some(Stored(row.value, ask)); }
    }

    method EnsureParserRunSnapshot(scope: Scope, targetUserId: Option<int>, filter: Option<Filter>) returns (ok: bool)
      requires RowOk(row)
      modifies this
      ensures Moves(old(row), row) && RowOk(row)
      ensures ok ==> row.Some? && row.value.metadata == WantedMetadata(AskMetadata(scope, targetUserId, filter))
      ensures !ok && row.Some? ==>
        row.value.metadata != NoMetadata && row.value.metadata != WantedMetadata(AskMetadata(scope, targetUserId, filter))
    {
      var ask := AskMetadata(scope, targetUserId, filter);
      Others();
      if row.None? { return false; }
      var hasMetadata := row.value.metadata != NoMetadata;
      if hasMetadata { return row.value.metadata == WantedMetadata(ask); }
      ghost var read := row;
      Others();
      MovesTrans(old(row), read, row);
      ghost var before := row;
      var firstWrite := UpdateUnset(ask);
      MovesTrans(old(row), before, row);
      if firstWrite { return true; }
      before := row;
      Others();
      MovesTrans(old(row), before, row);
      return row.Some? && row.value.metadata == WantedMetadata(ask);
    }

    method SetDigestWindowEndAt(end: string, exact: bool) returns (ok: bool)
      requires RowOk(row)
      modifies this
      ensures Moves(old(row), row) && RowOk(row)
      ensures ok ==> exact && row.Some? && row.value.running && row.value.window == Some(end)
      ensures !ok && exact && row.Some? && row.value.running ==> row.value.window != None && row.value.window != Some(end)
    {
      MovesNowhere(row);
      if !exact { return false; }
      var ask := AskWindow(end, exact);
      Others();
      if row.None? || !row.value.running { return false; }
      if row.value.window != None { return row.value.window == Some(end); }
      ghost var read := row;
      Others();
      MovesTrans(old(row), read, row);
      ghost var before := row;
      var updated := UpdateUnset(ask);
      MovesTrans(old(row), before, row);
      if updated { return true; }
      before := row;
      Others();
      MovesTrans(old(row), before, row);
      return row.Some? && row.value.running && row.value.window == Some(end);
    }

    method SetDigestCounters(counters: Digest) returns (ok: bool)
      requires RowOk(row)
      modifies this
      ensures Moves(old(row), row) && RowOk(row)
      ensures ok ==> Balanced(counters) && row.Some? && row.value.digest == counters
      ensures !ok && Balanced(counters) && row.Some? && row.value.running ==>
        row.value.digest != NoDigest && row.value.digest != counters
    {
      MovesNowhere(row);
      if !Balanced(counters) { return false; }
      var ask := AskDigest(counters);
      Others();
      if row.None? || !row.value.running { return false; }
      if row.value.digest == counters { return true; }
      if row.value.digest != NoDigest { return false; }
      ghost var read := row;
      Others();
      MovesTrans(old(row), read, row);
      ghost var before := row;
      var updated := UpdateUnset(ask);
      MovesTrans(old(row), before, row);
      if updated { return true; }
      before := row;
      Others();
      MovesTrans(old(row), before, row);
      return row.Some? && row.value.digest == counters;
    }
  }
}
