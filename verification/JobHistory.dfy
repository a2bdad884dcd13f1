/** What a row of the job table says about the run that led to it. */
module JobHistory {
  import opened Basics
  import opened JobTable
  import opened JobBatch
  import opened JobProtocol

  /** The step marks job `j` completed, after its handler succeeded or without a run. */
  ghost predicate Succeeds(st: State, step: Step, j: JobId)
    requires Inv(st) && Enabled(st, step)
  {
    (step.SkipByGuard? || (step.Mark? && step.ok)) && JobAt(st.phases[step.i].batch, step.w) == j
  }

  /** The step marks job `j` failed. */
  ghost predicate Fails(st: State, step: Step, j: JobId)
    requires Inv(st) && Enabled(st, step)
  {
    step.Mark? && !step.ok && JobAt(st.phases[step.i].batch, step.w) == j
  }

  ghost function Successes(st: State, steps: seq<Step>, j: JobId): nat
    requires Inv(st) && Legal(st, steps)
    decreases |steps|
  {
    if steps == [] then 0
    else
      StepKeepsInv(st, steps[0]);
      (if Succeeds(st, steps[0], j) then 1 else 0) + Successes(Apply(st, steps[0]), steps[1..], j)
  }

  ghost function Failures(st: State, steps: seq<Step>, j: JobId): nat
    requires Inv(st) && Legal(st, steps)
    decreases |steps|
  {
    if steps == [] then 0
    else
      StepKeepsInv(st, steps[0]);
      (if Fails(st, steps[0], j) then 1 else 0) + Failures(Apply(st, steps[0]), steps[1..], j)
  }

  /** The jobs enqueued, in order. */
  function Enqueued(steps: seq<Step>): seq<Step> {
    if steps == [] then [] else (if steps[0].Enqueue? then [steps[0]] else []) + Enqueued(steps[1..])
  }

  /** One step against one row that is there already. */
  lemma RowMoves(st: State, step: Step, j: JobId)
    requires Inv(st) && Enabled(st, step) && j < |st.rows|
    ensures j < |Apply(st, step).rows|
    ensures var row, next := st.rows[j], Apply(st, step).rows[j];
      && next.jobType == row.jobType && next.maxAttempts == row.maxAttempts && next.createdAt == row.createdAt
      && next.attempts == row.attempts + (if Fails(st, step, j) then 1 else 0)
      && (next.status == Completed <==> row.status == Completed || Succeeds(st, step, j))
      && (Succeeds(st, step, j) ==> row.status == Processing)
  {
    assert JobOk(st, j);
    match step
    case CommitClaim(i, order, _) =>
      assert PhaseOk(st, i);
      assert j in Elements(order) ==> j in st.phases[i].picked;
    case SkipByGuard(i, w) => assert PhaseOk(st, i);
    case Mark(i, w, _) => assert PhaseOk(st, i);
    case _ =>
  }

  /** A step about a job is about one that is there. */
  lemma MarkedIsThere(st: State, step: Step, j: JobId)
    requires Inv(st) && Enabled(st, step) && (Succeeds(st, step, j) || Fails(st, step, j))
    ensures j < |st.rows|
  {
    assert PhaseOk(st, step.i);
  }

  /** The row of job `j`, at first and after a run, with the successes and failures in between. */
  ghost predicate Tells(before: Row, after: Row, successes: nat, failures: nat) {
    && after.jobType == before.jobType && after.maxAttempts == before.maxAttempts && after.createdAt == before.createdAt
    && after.attempts == before.attempts + failures
    && (after.status == Completed <==> before.status == Completed || successes > 0)
    && successes <= 1 && (before.status == Completed ==> successes == 0)
  }

  lemma {:induction false} RowTells(st: State, steps: seq<Step>, j: JobId)
    requires Inv(st) && Legal(st, steps) && j < |st.rows|
    ensures j < |After(st, steps).rows|
    ensures Tells(st.rows[j], After(st, steps).rows[j], Successes(st, steps, j), Failures(st, steps, j))
    decreases |steps|
  {
    if steps != [] {
      StepKeepsInv(st, steps[0]);
      RowMoves(st, steps[0], j);
      RowTells(Apply(st, steps[0]), steps[1..], j);
    }
  }

  /** The row an enqueue adds. */
  ghost predicate IsNew(row: Row, step: Step) {
    && step.Enqueue? && row.jobType == step.jobType && row.createdAt == step.at
    && row.status == Pending && row.attempts == 0
    && row.maxAttempts == if step.maxAttempts <= 0 then 3 else step.maxAttempts
  }

  lemma {:induction false} NewRowTells(st: State, steps: seq<Step>, j: JobId) returns (row: Row)
    requires Inv(st) && Legal(st, steps)
    requires |st.rows| <= j < |After(st, steps).rows|
    ensures j - |st.rows| < |Enqueued(steps)| && IsNew(row, Enqueued(steps)[j - |st.rows|])
    ensures Tells(row, After(st, steps).rows[j], Successes(st, steps, j), Failures(st, steps, j))
    decreases |steps|
  {
    var step, next := steps[0], Apply(st, steps[0]);
    StepKeepsInv(st, step);
    if Succeeds(st, step, j) || Fails(st, step, j) {
      MarkedIsThere(st, step, j);
    }
    if j < |next.rows| {
      row := next.rows[j];
      RowTells(next, steps[1..], j);
    } else {
      row := NewRowTells(next, steps[1..], j);
    }
  }

  /** In every interleaving, the row of the `j`-th job enqueued is the one asked for; its attempts are the
      marks of a failed handler; it is completed exactly when there was a mark of a handler that succeeded
      or of a skip by the guard, of which there is at most one; and it has failed exactly when the failures
      have reached the attempts granted, which is three where none were asked for. */
  lemma RowsTellTheHistory(steps: seq<Step>, j: JobId)
    requires Legal(EMPTY, steps) && j < |After(EMPTY, steps).rows|
    ensures j < |Enqueued(steps)| && Enqueued(steps)[j].Enqueue?
    ensures var row, asked := After(EMPTY, steps).rows[j], Enqueued(steps)[j];
      var granted := if asked.maxAttempts <= 0 then 3 else asked.maxAttempts;
      && row.jobType == asked.jobType && row.maxAttempts == granted
      && row.attempts == Failures(EMPTY, steps, j)
      && (row.status == Completed <==> Successes(EMPTY, steps, j) == 1) && Successes(EMPTY, steps, j) <= 1
      && (row.status == Failed <==> Failures(EMPTY, steps, j) == granted)
  {
    var row := NewRowTells(EMPTY, steps, j);
    AttemptsAreBounded(steps, j);
  }
}
