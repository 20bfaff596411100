/** Sub-run delegation: pending futures, completed results, the done-callback and both ways of
    awaiting, as one transition system whose steps interleave freely. */
module SubRuns {
  import opened Options
  import opened Strings

  /** What the delegation manager answers for one request. */
  datatype DelegationResult = DelegationResult(
    status: string, summary: string, rawOutput: Option<string>, error: Option<string>, gateId: Option<string>)

  datatype SubRunResult = SubRunResult(
    success: bool, output: string, error: Option<string>, gateId: Option<string>, status: string)

  /** A failed task has the exception's text and whether that is a RuntimeError. */
  datatype TaskState =
    | Running
    | Finished(result: DelegationResult)
    | Failed(message: string, runtimeError: bool)
    | CancelledTask

  /** Both record types end up in the same dictionary; readers expect the first one. */
  datatype Stored = Delegated(result: DelegationResult) | Failure(record: SubRunResult)

  /** Why an await raises: the task has not ended, the task's own exception, a stored record
      without the attribute that is read, or a handle no longer in the pending dictionary. */
  datatype Reason = StillRunning | TaskRaised | MissingAttribute | MissingKey

  datatype Report = Answer(result: SubRunResult) | Raises(reason: Reason)

  /** Where a sub-run stands. `waiting` holds the awaits that already took their future out
      of `pending`; `due` the callbacks scheduled but not yet run. `produced` and `reports`
      are the history. */
  datatype State = State(
    dispatched: set<string>,
    tasks: map<string, TaskState>,
    pending: set<string>,
    completed: map<string, Stored>,
    waiting: set<string>,
    due: set<string>,
    produced: set<(string, DelegationResult)>,
    reports: seq<(string, Report)>)

  const START := State({}, map[], {}, map[], {}, {}, {}, [])

  datatype Op =
    | DispatchAsync(id: string)
    | DispatchSync(id: string, result: DelegationResult)
    | TaskEnds(id: string, outcome: TaskState)
    | RunCallback(id: string)
    | AwaitSync(id: string, inLoop: bool)
    | AwaitAsync(id: string)
    | Wake(id: string)
    | Finalize

  // ----- Reading results -----

  function Text(dr: DelegationResult): string {
    if dr.summary != "" then dr.summary else if dr.rawOutput.Some? then dr.rawOutput.value else ""
  }

  /** The delegation result as the caller sees it. */
  function Converted(dr: DelegationResult): SubRunResult {
    if dr.status == "gate_pending" then SubRunResult(false, "", None, dr.gateId, "gate_pending")
    else SubRunResult(dr.status == "completed", Text(dr), dr.error, None, "completed")
  }

  /** A stored failure record has no `summary`, so reading it as a delegation result raises. */
  function ReadStored(s: Stored): Report {
    match s
    case Delegated(dr) => Answer(Converted(dr))
    case Failure(r) =>
      if r.status == "gate_pending" then Answer(SubRunResult(false, "", None, r.gateId, "gate_pending"))
      else Raises(MissingAttribute)
  }

  function ReadTask(t: TaskState): Report {
    if t.Finished? then Answer(Converted(t.result)) else Raises(TaskRaised)
  }

  /** The task's exception looks to await_subrun like the one that says that no loop is
      running: a RuntimeError whose text does not name the method. */
  predicate TakenForNoLoop(t: TaskState) {
    t.Failed? && t.runtimeError && !Contains(t.message, "await_subrun")
  }

  /** Reading a done future inside a loop. Its handle is removed first; an exception taken for
      a missing loop makes the handler remove the handle once more, which fails. */
  function ReadDone(t: TaskState): Report { if TakenForNoLoop(t) then Raises(MissingKey) else ReadTask(t) }

  function UnknownHandle(id: string): SubRunResult {
    SubRunResult(false, "", Some("No pending or completed result for subrun_id='" + id + "'"), None, "completed")
  }

  function CallbackRecord(t: TaskState): SubRunResult
    requires t.Failed? || t.CancelledTask?
  {
    SubRunResult(false, if t.Failed? then "error: " + t.message else "cancelled", None, None, "completed")
  }

  function Reported(s: State, id: string, r: Report): State { s.(reports := s.reports + [(id, r)]) }

  predicate Done(s: State, id: string) { id in s.tasks && !s.tasks[id].Running? }

  // ----- Steps -----

  /** An operation that cannot happen in a state leaves it alone. Identifiers are fresh. */
  function Step(s: State, op: Op): State {
    match op
    case DispatchAsync(id) =>
      if id in s.dispatched then s
      else s.(dispatched := s.dispatched + {id}, tasks := s.tasks[id := Running], pending := s.pending + {id})
    case DispatchSync(id, dr) =>
      if id in s.dispatched then s
      else s.(dispatched := s.dispatched + {id}, completed := s.completed[id := Delegated(dr)],
              produced := s.produced + {(id, dr)})
    case TaskEnds(id, outcome) =>
      if id !in s.tasks || Done(s, id) || outcome.Running? then s
      else
        s.(tasks := s.tasks[id := outcome], due := s.due + {id},
           produced := s.produced + if outcome.Finished? then {(id, outcome.result)} else {})
    case RunCallback(id) =>
      if id !in s.due || !Done(s, id) then s
      else
        var ran := s.(due := s.due - {id});
        if s.tasks[id].Finished? then ran
        else ran.(completed := s.completed[id := Failure(CallbackRecord(s.tasks[id]))])
    case AwaitSync(id, inLoop) =>
      if id in s.completed then TakeCompleted(s, id)
      else if id !in s.pending then Reported(s, id, Answer(UnknownHandle(id)))
      else if !inLoop then StartWaiting(s, id)
      else if Done(s, id) then Reported(s.(pending := s.pending - {id}), id, ReadDone(s.tasks[id]))
      else Reported(s, id, Raises(StillRunning))
    case AwaitAsync(id) =>
      if id in s.completed then TakeCompleted(s, id)
      else if id !in s.pending then Reported(s, id, Answer(UnknownHandle(id)))
      else StartWaiting(s, id)
    case Wake(id) =>
      if id !in s.waiting || !Done(s, id) then s
      else Reported(s.(waiting := s.waiting - {id}), id, ReadTask(s.tasks[id]))
    case Finalize => s.(pending := {}, completed := map[])
  }

  function TakeCompleted(s: State, id: string): State
    requires id in s.completed
  {
    Reported(s.(completed := s.completed - {id}), id, ReadStored(s.completed[id]))
  }

  function StartWaiting(s: State, id: string): State {
    s.(pending := s.pending - {id}, waiting := s.waiting + {id})
  }

  function Run(s: State, ops: seq<Op>): State
    decreases |ops|
  {
    if ops == [] then s else Run(Step(s, ops[0]), ops[1..])
  }

  lemma RunTwo(s: State, a: Op, b: Op)
    ensures Run(s, [a]) == Step(s, a) && Run(s, [a, b]) == Step(Step(s, a), b)
  {
    hide Step;
    assert [a, b][1..] == [b] && [a][1..] == [] && [b][1..] == [];
    assert Run(Step(s, a), [b]) == Run(Step(Step(s, a), b), []);
  }

  lemma RunOn(s: State, a: Op, rest: seq<Op>)
    ensures Run(s, [a] + rest) == Run(Step(s, a), rest)
  {
    hide Step;
    assert ([a] + rest)[1..] == rest;
  }

  // ----- Safety -----

  predicate IsSuccess(r: Report) { r.Answer? && r.result.success }

  function Successes(reports: seq<(string, Report)>, id: string): nat {
    if reports == [] then 0
    else
      var last := reports[|reports| - 1];
      Successes(reports[..|reports| - 1], id) + if last.0 == id && IsSuccess(last.1) then 1 else 0
  }

  /** A result for the identifier can still be collected. */
  predicate Collectable(s: State, id: string) {
    id in s.pending || id in s.waiting || (id in s.completed && s.completed[id].Delegated?)
  }

  /** An answer is a converted delegation result that was really produced for its identifier,
      or the answer for an unknown handle. */
  ghost predicate Genuine(s: State, report: (string, Report)) {
    report.1.Answer? ==>
      report.1.result == UnknownHandle(report.0)
      || exists dr :: (report.0, dr) in s.produced && report.1.result == Converted(dr)
  }

  ghost predicate Places(s: State) {
    && s.pending <= s.tasks.Keys && s.waiting <= s.tasks.Keys && s.tasks.Keys <= s.dispatched
    && s.completed.Keys <= s.dispatched
    && s.pending !! s.waiting
  }

  /** What is stored or finished was produced, and a task has at most one result. */
  ghost predicate Results(s: State) {
    && (forall id :: id in s.completed && s.completed[id].Delegated? ==>
          id !in s.tasks && (id, s.completed[id].result) in s.produced)
    && (forall id :: id in s.completed && s.completed[id].Failure? ==>
          Done(s, id) && !s.tasks[id].Finished? && s.completed[id].record.status == "completed")
    && (forall id :: id in s.tasks && s.tasks[id].Finished? ==> (id, s.tasks[id].result) in s.produced)
    && (forall id, dr :: (id, dr) in s.produced ==>
          id in s.dispatched && (id in s.tasks ==> s.tasks[id] == Finished(dr)))
  }

  ghost predicate History(s: State) {
    && (forall i :: 0 <= i < |s.reports| ==>
          Genuine(s, s.reports[i]) && (IsSuccess(s.reports[i].1) ==> s.reports[i].0 in s.dispatched))
    && (forall id :: Successes(s.reports, id) + (if Collectable(s, id) then 1 else 0) <= 1)
  }

  ghost predicate Inv(s: State) { Places(s) && Results(s) && History(s) }

  lemma SuccessesAppend(reports: seq<(string, Report)>, last: (string, Report), id: string)
    ensures Successes(reports + [last], id)
         == Successes(reports, id) + if last.0 == id && IsSuccess(last.1) then 1 else 0
  {
    assert (reports + [last])[..|reports|] == reports;
  }

  /** A success was recorded for dispatched identifiers only. */
  lemma {:induction false} NoSuccessBefore(s: State, reports: seq<(string, Report)>, id: string)
    requires forall i :: 0 <= i < |reports| ==> IsSuccess(reports[i].1) ==> reports[i].0 in s.dispatched
    requires id !in s.dispatched
    ensures Successes(reports, id) == 0
  {
    if reports != [] { NoSuccessBefore(s, reports[..|reports| - 1], id); }
  }

  /** One more report, of a result that stops being collectable if it is a success. */
  lemma ReportKeepsHistory(s: State, t: State, id: string, r: Report)
    requires History(s)
    requires t.reports == s.reports && t.produced == s.produced && t.dispatched == s.dispatched
    requires forall j :: Collectable(t, j) ==> Collectable(s, j)
    requires Genuine(s, (id, r))
    requires IsSuccess(r) ==> id in s.dispatched && Collectable(s, id) && !Collectable(t, id)
    ensures History(Reported(t, id, r))
  {
    var u := Reported(t, id, r);
    forall j
      ensures Successes(u.reports, j) + (if Collectable(u, j) then 1 else 0) <= 1
    {
      SuccessesAppend(s.reports, (id, r), j);
    }
    forall i | 0 <= i < |u.reports|
      ensures Genuine(u, u.reports[i])
    {
      if i < |s.reports| { assert Genuine(s, s.reports[i]); }
    }
  }

  lemma QuietKeepsHistory(s: State, t: State)
    requires History(s)
    requires t.reports == s.reports && s.produced <= t.produced && s.dispatched <= t.dispatched
    requires forall j :: Collectable(t, j) && j in s.dispatched ==> Collectable(s, j)
    ensures History(t)
  {
    forall j
      ensures Successes(t.reports, j) + (if Collectable(t, j) then 1 else 0) <= 1
    {
      if j !in s.dispatched { NoSuccessBefore(s, s.reports, j); }
    }
    forall i | 0 <= i < |t.reports|
      ensures Genuine(t, t.reports[i])
    {
      assert Genuine(s, s.reports[i]);
    }
  }

  lemma AwaitPlaces(s: State, op: Op)
    requires Places(s) && (op.AwaitSync? || op.AwaitAsync? || op.Wake?)
    ensures Places(Step(s, op))
  {
    hide ReadStored, ReadTask, ReadDone, UnknownHandle;
  }

  lemma OtherPlaces(s: State, op: Op)
    requires Places(s) && !(op.AwaitSync? || op.AwaitAsync? || op.Wake?)
    ensures Places(Step(s, op))
  {
    hide CallbackRecord;
  }

  lemma StepPlaces(s: State, op: Op)
    requires Places(s)
    ensures Places(Step(s, op))
  {
    hide Places, Step;
    if op.AwaitSync? || op.AwaitAsync? || op.Wake? { AwaitPlaces(s, op); } else { OtherPlaces(s, op); }
  }

  lemma TaskResults(s: State, id: string, outcome: TaskState)
    requires Places(s) && Results(s) && !outcome.Running?
    ensures Results(Step(s, TaskEnds(id, outcome)))
  {
  }

  lemma DispatchResults(s: State, op: Op)
    requires Places(s) && Results(s) && (op.DispatchAsync? || op.DispatchSync?)
    ensures Results(Step(s, op))
  {
  }

  lemma StepResults(s: State, op: Op)
    requires Places(s) && Results(s)
    ensures Results(Step(s, op))
  {
    if op.TaskEnds? {
      if !op.outcome.Running? { TaskResults(s, op.id, op.outcome); }
    } else if op.DispatchAsync? || op.DispatchSync? {
      DispatchResults(s, op);
    } else {
      OtherResults(s, op);
    }
  }

  lemma OtherResults(s: State, op: Op)
    requires Places(s) && Results(s) && !(op.TaskEnds? || op.DispatchAsync? || op.DispatchSync?)
    ensures Results(Step(s, op))
  {
    hide ReadStored, ReadTask, Converted, UnknownHandle;
  }

  // The steps that deliver nothing.

  lemma QuietDispatch(s: State, op: Op)
    requires Inv(s) && (op.DispatchAsync? || op.DispatchSync?)
    ensures History(Step(s, op))
  {
    hide History;
    QuietKeepsHistory(s, Step(s, op));
  }

  lemma QuietTask(s: State, op: Op)
    requires Inv(s) && (op.TaskEnds? || op.RunCallback?)
    ensures History(Step(s, op))
  {
    hide History, CallbackRecord;
    QuietKeepsHistory(s, Step(s, op));
  }

  lemma QuietWait(s: State, id: string)
    requires Inv(s) && id in s.pending
    ensures History(StartWaiting(s, id))
  {
    hide History;
    QuietKeepsHistory(s, StartWaiting(s, id));
  }

  lemma QuietFinalize(s: State)
    requires Inv(s)
    ensures History(Step(s, Finalize))
  {
    hide History;
    QuietKeepsHistory(s, Step(s, Finalize));
  }

  lemma TakeHistory(s: State, id: string)
    requires Inv(s) && id in s.completed
    ensures History(TakeCompleted(s, id))
  {
    hide History;
    ReportKeepsHistory(s, s.(completed := s.completed - {id}), id, ReadStored(s.completed[id]));
  }

  lemma TaskHistory(s: State, id: string, t: State, r: Report)
    requires Inv(s) && Done(s, id) && (id in s.pending || id in s.waiting)
    requires t == s.(pending := s.pending - {id}) || t == s.(waiting := s.waiting - {id})
    requires id !in t.pending && id !in t.waiting
    requires r.Raises? || (s.tasks[id].Finished? && r == Answer(Converted(s.tasks[id].result)))
    ensures History(Reported(t, id, r))
  {
    hide History, Converted, UnknownHandle;
    ReportKeepsHistory(s, t, id, r);
  }

  lemma OtherHistory(s: State, id: string, r: Report)
    requires Inv(s) && (r == Answer(UnknownHandle(id)) || r.Raises?)
    ensures History(Reported(s, id, r))
  {
    hide History;
    ReportKeepsHistory(s, s, id, r);
  }

  lemma StepInv(s: State, op: Op)
    requires Inv(s)
    ensures Inv(Step(s, op))
  {
    hide History, TakeCompleted, Reported, StartWaiting;
    StepPlaces(s, op);
    StepResults(s, op);
    hide Places, Results;
    match op
    case AwaitSync(id, inLoop) =>
      if id in s.completed { TakeHistory(s, id); }
      else if id !in s.pending { OtherHistory(s, id, Answer(UnknownHandle(id))); }
      else if !inLoop { QuietWait(s, id); }
      else if Done(s, id) { TaskHistory(s, id, s.(pending := s.pending - {id}), ReadDone(s.tasks[id])); }
      else { OtherHistory(s, id, Raises(StillRunning)); }
    case AwaitAsync(id) =>
      if id in s.completed { TakeHistory(s, id); }
      else if id !in s.pending { OtherHistory(s, id, Answer(UnknownHandle(id))); }
      else { QuietWait(s, id); }
    case Wake(id) =>
      if id in s.waiting && Done(s, id) { TaskHistory(s, id, s.(waiting := s.waiting - {id}), ReadTask(s.tasks[id])); }
    case DispatchAsync(_) => QuietDispatch(s, op);
    case DispatchSync(_, _) => QuietDispatch(s, op);
    case TaskEnds(_, _) => QuietTask(s, op);
    case RunCallback(_) => QuietTask(s, op);
    case Finalize => QuietFinalize(s);
  }

  lemma {:induction false} RunInv(s: State, ops: seq<Op>)
    requires Inv(s)
    ensures Inv(Run(s, ops))
    decreases |ops|
  {
    hide Inv, Step;
    if ops != [] {
      StepInv(s, ops[0]);
      RunInv(Step(s, ops[0]), ops[1..]);
    }
  }

  /** Over every interleaving an identifier is reported successful at most once, and every
      success carries the text and error of a delegation result with status "completed" that
      was produced for this very identifier. */
  lemma DeliveredAtMostOnce(ops: seq<Op>, id: string)
    ensures var s := Run(START, ops);
      && Successes(s.reports, id) <= 1
      && forall i :: 0 <= i < |s.reports| && s.reports[i].0 == id && IsSuccess(s.reports[i].1) ==>
           exists dr :: (id, dr) in s.produced && dr.status == "completed" && s.reports[i].1.result == Converted(dr)
  {
    RunInv(START, ops);
    var s := Run(START, ops);
    forall i | 0 <= i < |s.reports| && s.reports[i].0 == id && IsSuccess(s.reports[i].1)
      ensures exists dr :: (id, dr) in s.produced && dr.status == "completed" && s.reports[i].1.result == Converted(dr)
    {
      assert Genuine(s, s.reports[i]);
    }
  }

  /** The record that the callback stores for a failed or cancelled task reaches nobody: every
      report for such an identifier is an exception or the unknown-handle answer. */
  lemma FailureRecordNeverDelivered(ops: seq<Op>, id: string, i: nat)
    requires var s := Run(START, ops);
      id in s.tasks && (s.tasks[id].Failed? || s.tasks[id].CancelledTask?) && i < |s.reports| && s.reports[i].0 == id
    ensures var r := Run(START, ops).reports[i].1; r.Raises? || r == Answer(UnknownHandle(id))
  {
    RunInv(START, ops);
    var s := Run(START, ops);
    assert Genuine(s, s.reports[i]);
  }

  /** What three awaits of one failed sub-run report once the callback ran: a missing
      attribute, then an exception, then an unknown handle. The second one is the task's own
      exception exactly when that is no RuntimeError or its text names await_subrun;
      otherwise it is swallowed and a missing key comes out. */
  lemma FailedAwaits(s: State, id: string)
    requires Inv(s) && id in s.pending && Done(s, id) && !s.tasks[id].Finished? && id in s.completed
    ensures var reports := Run(s, [AwaitSync(id, true), AwaitSync(id, true), AwaitSync(id, true)]).reports;
      var n := |s.reports|;
      && |reports| == n + 3 && reports[..n] == s.reports
      && reports[n] == (id, Raises(MissingAttribute)) && reports[n + 2] == (id, Answer(UnknownHandle(id)))
      && (reports[n + 1] == (id, Raises(TaskRaised)) <==>
            !(s.tasks[id].Failed? && s.tasks[id].runtimeError && !Contains(s.tasks[id].message, "await_subrun")))
      && (reports[n + 1] == (id, Raises(MissingKey)) || reports[n + 1] == (id, Raises(TaskRaised)))
  {
    var a := AwaitSync(id, true);
    var s1 := Step(s, a);
    var s2 := Step(s1, a);
    assert [a, a, a][1..] == [a, a];
    assert [a, a][1..] == [a];
    assert [a][1..] == [];
    assert Run(s2, [a]) == Step(s2, a);
    assert Run(s, [a, a, a]) == Run(s1, [a, a]) == Run(s2, [a]);
  }

  /** Waiting for an ended task takes its handle and reads its future. */
  lemma WaitedFor(s: State, id: string, wait: Op)
    requires id in s.pending && id !in s.completed && Done(s, id)
    requires wait == AwaitSync(id, false) || wait == AwaitAsync(id)
    ensures Run(s, [wait, Wake(id)]).reports == s.reports + [(id, ReadTask(s.tasks[id]))]
  {
    hide Run, ReadTask;
    RunTwo(s, wait, Wake(id));
    assert Step(s, wait) == StartWaiting(s, id);
  }

  lemma FoundDone(s: State, id: string)
    requires id in s.pending && id !in s.completed && Done(s, id)
    ensures Run(s, [AwaitSync(id, true)]).reports == s.reports + [(id, ReadDone(s.tasks[id]))]
  {
    hide Run, ReadDone;
    RunTwo(s, AwaitSync(id, true), Wake(id));
  }

  /** A failed sub-run whose callback has not run yet: waiting for it, with or without a loop,
      reports the task's exception; finding it done inside a loop reports a missing key
      exactly when the exception is a RuntimeError whose text does not name await_subrun. */
  lemma FailedReport(s: State, id: string)
    requires Inv(s) && id in s.pending && Done(s, id) && !s.tasks[id].Finished? && id !in s.completed
    ensures var raised := (id, Raises(TaskRaised));
      var task := s.tasks[id];
      var swallowed := task.Failed? && task.runtimeError && !Contains(task.message, "await_subrun");
      && Run(s, [AwaitSync(id, true)]).reports == s.reports + [if swallowed then (id, Raises(MissingKey)) else raised]
      && Run(s, [AwaitSync(id, false), Wake(id)]).reports == s.reports + [raised]
      && Run(s, [AwaitAsync(id), Wake(id)]).reports == s.reports + [raised]
  {
    hide Inv, Run;
    FoundDone(s, id);
    WaitedFor(s, id, AwaitSync(id, false));
    WaitedFor(s, id, AwaitAsync(id));
  }

  /** A finished sub-run that nobody collected is delivered as converted, by each of the
      ways of awaiting. */
  lemma FinishedIsDelivered(s: State, id: string)
    requires Inv(s) && id in s.pending && Done(s, id) && s.tasks[id].Finished?
    ensures var answer := (id, Answer(Converted(s.tasks[id].result)));
      && Run(s, [AwaitSync(id, true)]).reports == s.reports + [answer]
      && Run(s, [AwaitSync(id, false), Wake(id)]).reports == s.reports + [answer]
      && Run(s, [AwaitAsync(id), Wake(id)]).reports == s.reports + [answer]
  {
    assert id !in s.completed;
    hide Inv, Run, Converted;
    FoundDone(s, id);
    WaitedFor(s, id, AwaitSync(id, false));
    WaitedFor(s, id, AwaitAsync(id));
  }

  // ----- From dispatch to delivery -----

  /** One report for the identifier that tells the caller what the delegation result says. */
  ghost predicate Delivers(report: (string, Report), id: string, dr: DelegationResult) {
    && report.0 == id && report.1.Answer?
    && var r := report.1.result;
       && (r.success <==> dr.status == "completed")
       && if dr.status == "gate_pending" then
            r.output == "" && r.error == None && r.gateId == dr.gateId && r.status == "gate_pending"
          else
            && r.output == (if dr.summary != "" then dr.summary
                            else if dr.rawOutput.Some? then dr.rawOutput.value else "")
            && r.error == dr.error && r.gateId == None && r.status == "completed"
  }

  /** Between the two states exactly one report was made, and it delivers the result. */
  ghost predicate DeliveredOnce(s: State, t: State, id: string, dr: DelegationResult) {
    |t.reports| == |s.reports| + 1 && t.reports[..|s.reports|] == s.reports && Delivers(t.reports[|s.reports|], id, dr)
  }

  predicate Awaits(op: Op, id: string) { op == AwaitAsync(id) || (op.AwaitSync? && op.id == id) }

  /** A sub-run dispatched outside a loop is delivered by the first await of any kind. */
  lemma SyncDelivered(s: State, id: string, dr: DelegationResult, await: Op)
    requires Inv(s) && id !in s.dispatched && Awaits(await, id)
    ensures DeliveredOnce(s, Run(s, [DispatchSync(id, dr), await]), id, dr)
  {
    hide Run, Results, History;
    RunTwo(s, DispatchSync(id, dr), await);
  }

  /** A sub-run dispatched inside a loop is pending at once: an await inside the loop finds it
      still running and leaves everything else as it is. */
  lemma AsyncPending(s: State, id: string)
    requires Inv(s) && id !in s.dispatched
    ensures var t := Run(s, [DispatchAsync(id)]);
      && t.pending == s.pending + {id} && t.reports == s.reports
      && Run(t, [AwaitSync(id, true)]) == t.(reports := t.reports + [(id, Raises(StillRunning))])
  {
    hide Run, Results, History;
    RunTwo(s, DispatchAsync(id), Finalize);
    RunTwo(Step(s, DispatchAsync(id)), AwaitSync(id, true), Finalize);
  }

  /** The future of an ended task waits to be read. */
  ghost predicate Ready(s: State, t: State, id: string, dr: DelegationResult) {
    && t.reports == s.reports && id in t.pending && id !in t.completed
    && id in t.tasks && t.tasks[id] == Finished(dr)
  }

  lemma EndedReady(s: State, id: string, dr: DelegationResult)
    requires Inv(s) && id !in s.dispatched
    ensures Ready(s, Step(Step(s, DispatchAsync(id)), TaskEnds(id, Finished(dr))), id, dr)
  {
    hide Results, History;
  }

  lemma CallbackReady(s: State, t: State, id: string, dr: DelegationResult)
    requires Ready(s, t, id, dr)
    ensures Ready(s, Step(t, RunCallback(id)), id, dr)
  {
  }

  lemma ReadDelivers(s: State, t: State, id: string, dr: DelegationResult)
    ensures t.reports == s.reports + [(id, ReadTask(Finished(dr)))] ==> DeliveredOnce(s, t, id, dr)
    ensures t.reports == s.reports + [(id, ReadDone(Finished(dr)))] ==> DeliveredOnce(s, t, id, dr)
  {
  }

  /** Its result is delivered once it has ended: to an await inside the loop, and to one that
      waits, whether that began before or after the end and whether the callback ran or not. */
  lemma AsyncDelivered(s: State, id: string, dr: DelegationResult, wait: Op)
    requires Inv(s) && id !in s.dispatched && (wait == AwaitSync(id, false) || wait == AwaitAsync(id))
    ensures var started, ended := DispatchAsync(id), TaskEnds(id, Finished(dr));
      && DeliveredOnce(s, Run(s, [started, ended, AwaitSync(id, true)]), id, dr)
      && DeliveredOnce(s, Run(s, [started, ended, RunCallback(id), AwaitSync(id, true)]), id, dr)
      && DeliveredOnce(s, Run(s, [started, ended, wait, Wake(id)]), id, dr)
      && DeliveredOnce(s, Run(s, [started, wait, ended, Wake(id)]), id, dr)
  {
    hide Run, Inv, Step, DeliveredOnce;
    var started, ended := DispatchAsync(id), TaskEnds(id, Finished(dr));
    var callback, found := RunCallback(id), AwaitSync(id, true);
    var s1 := Step(s, started);
    var s2 := Step(s1, ended);
    var s3 := Step(s2, callback);
    EndedReady(s, id, dr);
    CallbackReady(s, s2, id, dr);
    RunFrom(s, started, ended, [found]);
    RunFrom(s, started, ended, [callback, found]);
    RunFrom(s, started, ended, [wait, Wake(id)]);
    assert [started, ended] + [found] == [started, ended, found];
    assert [started, ended] + [callback, found] == [started, ended, callback, found];
    assert [started, ended] + [wait, Wake(id)] == [started, ended, wait, Wake(id)];
    RunOn(s2, callback, [found]);
    assert [callback] + [found] == [callback, found];
    FoundDone(s2, id);
    FoundDone(s3, id);
    WaitedFor(s2, id, wait);
    ReadDelivers(s, Run(s2, [found]), id, dr);
    ReadDelivers(s, Run(s3, [found]), id, dr);
    ReadDelivers(s, Run(s2, [wait, Wake(id)]), id, dr);
    WaitedDelivered(s, id, dr, wait);
  }

  lemma RunFrom(s: State, a: Op, b: Op, rest: seq<Op>)
    ensures Run(s, [a, b] + rest) == Run(Step(Step(s, a), b), rest)
  {
    hide Step;
    assert [a, b] + rest == [a] + ([b] + rest);
    RunOn(s, a, [b] + rest);
    RunOn(Step(s, a), b, rest);
  }

  lemma WaitedDelivered(s: State, id: string, dr: DelegationResult, wait: Op)
    requires Inv(s) && id !in s.dispatched && (wait == AwaitSync(id, false) || wait == AwaitAsync(id))
    ensures DeliveredOnce(s, Run(s, [DispatchAsync(id), wait, TaskEnds(id, Finished(dr)), Wake(id)]), id, dr)
  {
    hide Run, Results, History, DeliveredOnce, ReadTask;
    var ended := TaskEnds(id, Finished(dr));
    assert [DispatchAsync(id), wait] + [ended, Wake(id)] == [DispatchAsync(id), wait, ended, Wake(id)];
    RunFrom(s, DispatchAsync(id), wait, [ended, Wake(id)]);
    var s2 := Step(Step(s, DispatchAsync(id)), wait);
    assert id in s2.waiting && id in s2.tasks && s2.tasks[id].Running? && s2.reports == s.reports;
    RunTwo(s2, ended, Wake(id));
    ReadDelivers(s, Run(s2, [ended, Wake(id)]), id, dr);
  }

  lemma UnknownStep(s: State, id: string, await: Op)
    requires Awaits(await, id) && id !in s.pending && id !in s.completed
    ensures Step(s, await) == s.(reports := s.reports + [(id, Answer(UnknownHandle(id)))])
  {
    hide UnknownHandle, TakeCompleted, StartWaiting;
  }

  lemma UnknownAnswer(s: State, id: string, await: Op)
    requires Awaits(await, id)
    ensures id !in s.pending && id !in s.completed ==>
      Step(s, await) == s.(reports := s.reports + [(id, Answer(UnknownHandle(id)))])
    ensures Run(s, [Finalize, await]).reports == s.reports + [(id, Answer(UnknownHandle(id)))]
  {
    var none := s.(pending := {}, completed := map[]);
    assert Step(s, Finalize) == none;
    hide Run, Step, UnknownHandle;
    if id !in s.pending && id !in s.completed { UnknownStep(s, id, await); }
    UnknownStep(none, id, await);
    RunTwo(s, Finalize, await);
  }

  /** An await of an identifier with nothing to collect answers a failure that names the
      identifier, and changes nothing else. So does every await after the run was finalized. */
  lemma NothingToCollect(s: State, id: string, await: Op)
    requires Awaits(await, id)
    ensures var text := "No pending or completed result for subrun_id='" + id + "'";
      var answer := (id, Answer(SubRunResult(false, "", Some(text), None, "completed")));
      && (id !in s.pending && id !in s.completed ==> Step(s, await) == s.(reports := s.reports + [answer]))
      && Run(s, [Finalize, await]).reports == s.reports + [answer]
  {
    hide Run, Step;
    UnknownAnswer(s, id, await);
  }

  /** What the callback of an ended task leaves in the dictionary of results. */
  lemma CallbackExact(s: State, id: string)
    requires id in s.due && Done(s, id)
    ensures var t := Step(s, RunCallback(id));
      && t == s.(due := s.due - {id}, completed := t.completed)
      && match s.tasks[id]
         case Finished(_) => t.completed == s.completed
         case CancelledTask =>
           t.completed == s.completed[id := Failure(SubRunResult(false, "cancelled", None, None, "completed"))]
         case Failed(message, _) =>
           t.completed == s.completed[id := Failure(SubRunResult(false, "error: " + message, None, None, "completed"))]
         case Running => false
  {
  }

  /** A task that ends has its outcome and its callback scheduled; for a failure the callback
      then leaves a record of it. A task ends only once. */
  lemma EndExact(s: State, id: string, outcome: TaskState, other: TaskState)
    requires id in s.tasks && s.tasks[id].Running? && !outcome.Running?
    ensures var t := Step(s, TaskEnds(id, outcome));
      && t == s.(tasks := s.tasks[id := outcome], due := s.due + {id}, produced := t.produced)
      && Step(t, TaskEnds(id, other)) == t
      && (!outcome.Finished? ==>
            var u := Step(t, RunCallback(id));
            u.due == s.due - {id} && id in u.completed && u.completed[id].Failure?)
  {
  }

  /** A stored record that is no delegation result has no summary: reading it raises, except
      for a pending gate, which is answered before the summary is read. */
  lemma RecordRead(r: SubRunResult)
    ensures ReadStored(Failure(r))
         == if r.status == "gate_pending" then Answer(SubRunResult(false, "", None, r.gateId, "gate_pending"))
            else Raises(MissingAttribute)
  {
  }

  // ----- The executor's methods -----

  /** The two dictionaries of the executor with the event loop's view of the tasks; the
      history is for specification only. */
  class SubRunTable {
    var tasks: map<string, TaskState>
    var pending: set<string>
    var completed: map<string, Stored>
    var waiting: set<string>
    var due: set<string>
    ghost var dispatched: set<string>
    ghost var produced: set<(string, DelegationResult)>
    ghost var reports: seq<(string, Report)>

    constructor ()
      ensures Value() == START
    {
      tasks, pending, completed, waiting, due := map[], {}, map[], {}, {};
      dispatched, produced, reports := {}, {}, [];
    }

    ghost function Value(): State
      reads this
    {
      State(dispatched, tasks, pending, completed, waiting, due, produced, reports)
    }

    /** dispatch_subrun: a task and its callback inside a running loop, otherwise the result
        at once. */
    method Dispatch(id: string, inLoop: bool, result: DelegationResult)
      requires id !in dispatched
      modifies this
      ensures Value() == Step(old(Value()), if inLoop then DispatchAsync(id) else DispatchSync(id, result))
    {
      dispatched := dispatched + {id};
      if inLoop {
        tasks := tasks[id := Running];
        pending := pending + {id};
      } else {
        completed := completed[id := Delegated(result)];
        produced := produced + {(id, result)};
      }
    }

    /** The done-callback. */
    method OnDone(id: string)
      requires id in due && Done(Value(), id)
      modifies this
      ensures Value() == Step(old(Value()), Op.RunCallback(id))
    {
      due := due - {id};
      match tasks[id]
      case CancelledTask =>
        completed := completed[id := Failure(SubRunResult(false, "cancelled", None, None, "completed"))];
      case Failed(message, _) =>
        completed := completed[id := Failure(SubRunResult(false, "error: " + message, None, None, "completed"))];
      case _ =>
    }

    /** await_subrun up to the point where it answers, raises or blocks (None). */
    method AwaitSubRun(id: string, inLoop: bool) returns (r: Option<Report>)
      requires Inv(Value())
      modifies this
      ensures Value() == Step(old(Value()), AwaitSync(id, inLoop))
      ensures reports == old(reports) + if r.Some? then [(id, r.value)] else []
      ensures r.None? ==> id in waiting
    {
      if id in completed {
        r := Some(ReadStored(completed[id]));
        completed := completed - {id};
      } else if id in pending {
        if !inLoop {
          pending, waiting := pending - {id}, waiting + {id};
          return None;
        }
        if id in tasks && !tasks[id].Running? {
          pending := pending - {id};
          var outcome := tasks[id];
          if outcome.Failed? && outcome.runtimeError && !Contains(outcome.message, "await_subrun") {
            // The handler for a missing loop takes the exception and pops the removed handle again.
            r := Some(Raises(MissingKey));
          } else {
            r := Some(ReadTask(outcome));
          }
        } else {
          r := Some(Raises(StillRunning));
        }
      } else {
        r := Some(Answer(UnknownHandle(id)));
      }
      reports := reports + [(id, r.value)];
    }

    /** await_subrun_async up to the point where it answers, raises or suspends (None). */
    method AwaitSubRunAsync(id: string) returns (r: Option<Report>)
      requires Inv(Value())
      modifies this
      ensures Value() == Step(old(Value()), AwaitAsync(id))
      ensures reports == old(reports) + if r.Some? then [(id, r.value)] else []
      ensures r.None? ==> id in waiting
    {
      if id in completed {
        r := Some(ReadStored(completed[id]));
        completed := completed - {id};
      } else if id in pending {
        pending, waiting := pending - {id}, waiting + {id};
        return None;
      } else {
        r := Some(Answer(UnknownHandle(id)));
      }
      reports := reports + [(id, r.value)];
    }

    /** The rest of a blocked or suspended await, once its task is done. */
    method Resume(id: string) returns (r: Report)
      requires Inv(Value()) && id in waiting && Done(Value(), id)
      modifies this
      ensures Value() == Step(old(Value()), Wake(id))
      ensures reports == old(reports) + [(id, r)]
    {
      waiting := waiting - {id};
      r := ReadTask(tasks[id]);
      reports := reports + [(id, r)];
    }
  }
}
