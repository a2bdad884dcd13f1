/** Claims and marks are limited by the attempts granted, whatever crashes and interleavings occur. */
module JobDrain {
  import opened Basics
  import opened JobTable
  import opened JobBatch
  import opened JobProtocol

  // ---------- Bounded work ----------

  function Weight(row: Row): int {
    match row.status
    case Pending => 2 * (row.maxAttempts - row.attempts)
    case Processing => 2 * (row.maxAttempts - row.attempts) - 1
    case _ => 0
  }

  function Potential(rows: seq<Row>): int {
    if rows == [] then 0 else Potential(rows[..|rows| - 1]) + Weight(rows[|rows| - 1])
  }

  lemma {:induction false} PotentialUpdate(rows: seq<Row>, j: JobId, row: Row)
    requires j < |rows|
    ensures Potential(rows[j := row]) == Potential(rows) - Weight(rows[j]) + Weight(row)
  {
    var n := |rows| - 1;
    if j == n {
      assert rows[j := row][..n] == rows[..n];
    } else {
      PotentialUpdate(rows[..n], j, row);
      assert rows[j := row][..n] == rows[..n][j := row];
    }
  }

  lemma ClaimedPrefix(rows: seq<Row>, picked: set<JobId>)
    requires rows != []
    ensures Claimed(rows, picked)[..|rows| - 1] == Claimed(rows[..|rows| - 1], picked - {|rows| - 1})
  {
  }

  lemma {:induction false} PotentialClaim(rows: seq<Row>, picked: set<JobId>)
    requires forall j <- picked :: j < |rows| && rows[j].status == Pending
    ensures Potential(Claimed(rows, picked)) == Potential(rows) - |picked|
    decreases |rows|
  {
    if rows == [] {
      assert picked == {};
    } else {
      var n := |rows| - 1;
      var rest := picked - {n};
      PotentialClaim(rows[..n], rest);
      ClaimedPrefix(rows, picked);
      if n in picked {
        assert |picked| == |rest| + 1;
      } else {
        assert picked == rest;
      }
    }
  }

  /** Rows claimed and rows settled by a step. */
  function Work(step: Step): nat {
    match step
    case CommitClaim(_, order, _) => |order|
    case Mark(_, _, _) => 1
    case SkipByGuard(_, _) => 1
    case _ => 0
  }

  function Budget(step: Step): nat {
    match step
    case Enqueue(_, maxAttempts, _) => 2 * DefaultedMax(maxAttempts)
    case _ => 0
  }

  /** Every claimed row and every mark uses up potential; only an enqueue brings any. */
  lemma WorkUsesPotential(st: State, step: Step)
    requires Inv(st) && Enabled(st, step)
    ensures Potential(Apply(st, step).rows) + Work(step) <= Potential(st.rows) + Budget(step)
  {
    match step
    case Enqueue(_, _, _) =>
      assert Apply(st, step).rows[..|st.rows|] == st.rows;
    case CommitClaim(i, order, _) =>
      assert PhaseOk(st, i);
      forall j | j in Elements(order) ensures j < |st.rows| && st.rows[j].status == Pending {
        assert j in st.phases[i].picked;
        assert JobOk(st, j);
      }
      PotentialClaim(st.rows, Elements(order));
      NoDuplicatesSize(order);
    case SkipByGuard(i, w) => SettlingUsesPotential(st, i, w, true);
    case Mark(i, w, ok) => SettlingUsesPotential(st, i, w, ok);
    case _ =>
  }

  lemma SettlingUsesPotential(st: State, i: InstanceId, w: WorkerId, ok: bool)
    requires Inv(st) && Drains(st, i) && w in st.phases[i].batch.busy
    ensures Potential(Settled(st, i, w, ok).rows) + 1 <= Potential(st.rows)
  {
    var b := st.phases[i].batch;
    var j := JobAt(b, w);
    assert PhaseOk(st, i);
    assert JobOk(st, j);
    PotentialUpdate(st.rows, j, if ok then CompleteRow(st.rows[j]) else FailRow(st.rows[j]));
  }

  function TotalWork(steps: seq<Step>): nat {
    if steps == [] then 0 else Work(steps[0]) + TotalWork(steps[1..])
  }

  function TotalBudget(steps: seq<Step>): nat {
    if steps == [] then 0 else Budget(steps[0]) + TotalBudget(steps[1..])
  }

  lemma {:induction false} WorkFrom(st: State, steps: seq<Step>)
    requires Inv(st) && Legal(st, steps)
    ensures Potential(After(st, steps).rows) + TotalWork(steps) <= Potential(st.rows) + TotalBudget(steps)
    decreases |steps|
  {
    if steps != [] {
      StepKeepsInv(st, steps[0]);
      WorkUsesPotential(st, steps[0]);
      WorkFrom(Apply(st, steps[0]), steps[1..]);
    }
  }

  lemma PotentialIsNatural(st: State, n: nat)
    requires Inv(st) && n <= |st.rows|
    ensures Potential(st.rows[..n]) >= 0
  {
    if n > 0 {
      PotentialIsNatural(st, n - 1);
      assert st.rows[..n][..n - 1] == st.rows[..n - 1];
      assert JobOk(st, n - 1);
    }
  }

  /** Whatever crashes and interleavings occur, all claims and marks together never exceed twice the
      attempts granted at enqueue time; without new jobs the queue drains in boundedly many of them. */
  lemma WorkIsBounded(steps: seq<Step>)
    requires Legal(EMPTY, steps)
    ensures TotalWork(steps) <= TotalBudget(steps)
  {
    WorkFrom(EMPTY, steps);
    var st := After(EMPTY, steps);
    PotentialIsNatural(st, |st.rows|);
    assert st.rows[..|st.rows|] == st.rows;
  }
}
