/** The processor's own code: the worker pool, the handling of one job and the poll loop. */
module JobProcessor {
  import opened Basics
  import opened JobTable
  import opened JobBatch
  import opened JobProtocol

  /** What is left to do in a batch: receive each job, then dispose of it. */
  function Remaining(b: Batch): int {
    2 * (|b.claimed| - b.sent) + |b.busy|
  }

  /** Nobody outside the pool holds or disposes of a job. */
  ghost predicate PoolOk(b: Batch, jobs: seq<JobId>, workers: nat) {
    && BatchOk(b) && b.claimed == jobs && b.workers == workers
    && (forall w <- b.busy :: w < workers)
    && (forall d :: 0 <= d < |b.done| ==> b.done[d].w < workers)
  }

  lemma TakeInPool(b: Batch, w: WorkerId, jobs: seq<JobId>, workers: nat)
    requires PoolOk(b, jobs, workers) && CanTake(b, w)
    ensures PoolOk(TakeNext(b, w), jobs, workers) && Remaining(TakeNext(b, w)) < Remaining(b)
  {
    TakeKeepsBatch(b, w);
    assert TakeNext(b, w).busy.Keys == b.busy.Keys + {w};
  }

  lemma DisposeInPool(b: Batch, w: WorkerId, jobs: seq<JobId>, workers: nat)
    requires PoolOk(b, jobs, workers) && w in b.busy
    ensures PoolOk(Dispose(b, w), jobs, workers) && Remaining(Dispose(b, w)) < Remaining(b)
  {
    DisposeKeepsBatch(b, w);
    assert Dispose(b, w).busy.Keys == b.busy.Keys - {w};
  }

  predicate CanMove(b: Batch, w: WorkerId) {
    CanTake(b, w) || w in b.busy
  }

  lemma SomeoneCanMove(b: Batch, jobs: seq<JobId>, workers: nat)
    requires PoolOk(b, jobs, workers) && (b.sent < |b.claimed| || b.busy != map[])
    ensures exists w: WorkerId :: w < workers && CanMove(b, w)
  {
    if b.busy == map[] {
      assert CanMove(b, 0);
    } else {
      var w :| w in b.busy;
      assert CanMove(b, w);
    }
  }

  /** Workers draining the channel of one batch; which worker moves next is left open. */
  method RunWorkerPool(jobs: seq<JobId>, concurrency: nat) returns (done: seq<Disposal>)
    requires NoDuplicates(jobs) && jobs != [] && concurrency >= 1
    ensures forall d :: 0 <= d < |done| ==> done[d].w < concurrency && done[d].k < |jobs|
    ensures multiset(seq(|done|, d requires 0 <= d < |done| => jobs[done[d].k])) == multiset(jobs)
  {
    var workers := concurrency;
    if |jobs| < workers {
      workers := |jobs|;
    }
    var b := Batch(jobs, 0, workers, map[], [], seq(|jobs|, _ => InChannel));
    while b.sent < |b.claimed| || b.busy != map[]
      invariant PoolOk(b, jobs, workers)
      decreases Remaining(b)
    {
      SomeoneCanMove(b, jobs, workers);
      var w: WorkerId :| w < workers && CanMove(b, w);
      if CanTake(b, w) {
        TakeInPool(b, w, jobs, workers);
        b := TakeNext(b, w);
      } else {
        DisposeInPool(b, w, jobs, workers);
        b := Dispose(b, w);
      }
    }
    PoolIsDone(b);
    done := b.done;
    assert seq(|done|, d requires 0 <= d < |done| => jobs[done[d].k]) == DoneJobs(b);
  }

  /** How a job's turn goes: the budget guard's verdict, how the handler ends when it runs, and whether
      the marking statement succeeds. */
  datatype Ending = Ending(guardBlocks: bool, handlerOk: bool, markWorks: bool)

  predicate IsBlocked(jobType: string, e: Ending) {
    e.guardBlocks && IsExpensive(jobType)
  }

  /** What one turn makes of a row: a blocked job is completed without a run, the handler of an unknown
      type fails however `handlerOk` is given, and without a mark the row stays as it is. */
  ghost predicate Settles(row: Row, e: Ending, after: Row) {
    var ok := IsBlocked(row.jobType, e) || (IsKnown(row.jobType) && e.handlerOk);
    if !e.markWorks then after == row
    else if ok then after == row.(status := Completed)
    else
      && after == row.(status := after.status, attempts := row.attempts + 1)
      && after.status == if after.attempts < row.maxAttempts then Pending else Failed
  }

  /** One job on its worker. */
  method ProcessJob(table: BackgroundJobs, job: JobId, e: Ending) returns (handlerRan: bool)
    requires job < |table.rows|
    modifies table
    ensures handlerRan <==> !IsBlocked(old(table.rows[job].jobType), e)
    ensures |table.rows| == |old(table.rows)|
    ensures Settles(old(table.rows[job]), e, table.rows[job])
    ensures forall j :: 0 <= j < |table.rows| && j != job ==> table.rows[j] == old(table.rows[j])
  {
    handlerRan := true;
    if IsExpensive(table.rows[job].jobType) {
      if e.guardBlocks {
        handlerRan := false;
        if e.markWorks {
          table.MarkJobCompleted(job);
        }
        return;
      }
    }
    var succeeded := match table.rows[job].jobType {
      case "cleanup_r2_file" => e.handlerOk
      case "convert_video_to_audio" => e.handlerOk
      case "generate_waveform" => e.handlerOk
      case _ => false
    };
    if !succeeded {
      if e.markWorks {
        table.MarkJobFailed(job);
      }
      return;
    }
    if e.markWorks {
      table.MarkJobCompleted(job);
    }
  }

  // ---------- What a turn is in the protocol ----------

  /** One turn on worker `w`, as steps of the protocol: a skip, or a start and then a mark that says how
      the handler ended; the mark of either may fail. */
  function TurnOf(i: InstanceId, w: WorkerId, jobType: string, e: Ending): seq<Step> {
    if e.guardBlocks && (jobType == "convert_video_to_audio" || jobType == "generate_waveform") then
      [if e.markWorks then SkipByGuard(i, w) else MarkStatementFails(i, w)]
    else
      var known := jobType in {"cleanup_r2_file", "convert_video_to_audio", "generate_waveform"};
      [StartHandler(i, w), if e.markWorks then Mark(i, w, known && e.handlerOk) else MarkStatementFails(i, w)]
  }

  lemma OneStep(st: State, step: Step)
    requires Inv(st) && Enabled(st, step)
    ensures Legal(st, [step]) && After(st, [step]) == Apply(st, step)
  {
    StepKeepsInv(st, step);
    assert [step][1..] == [];
  }

  lemma TwoSteps(st: State, step: Step, next: Step)
    requires Inv(st) && Enabled(st, step)
    requires Inv(Apply(st, step)) && Enabled(Apply(st, step), next)
    ensures Legal(st, [step, next]) && After(st, [step, next]) == Apply(Apply(st, step), next)
  {
    OneStep(Apply(st, step), next);
    assert [step, next][1..] == [next];
  }

  lemma TakenIsThere(st: State, i: InstanceId, w: WorkerId)
    requires Inv(st) && Drains(st, i) && w in st.phases[i].batch.busy
    ensures w in st.phases[i].batch.busy && st.phases[i].batch.busy[w].k < |st.phases[i].batch.claimed|
    ensures JobAt(st.phases[i].batch, w) < |st.rows|
  {
    assert PhaseOk(st, i);
  }

  /** The rows after the last step of a turn. */
  ghost predicate EndsTurn(st: State, step: Step, j: JobId, e: Ending)
    requires Inv(st) && Enabled(st, step) && j < |st.rows|
  {
    var rows := Apply(st, step).rows;
    && |rows| == |st.rows| && Settles(st.rows[j], e, rows[j])
    && forall k :: 0 <= k < |rows| && k != j ==> rows[k] == st.rows[k]
  }

  lemma BlockedTurn(st: State, i: InstanceId, w: WorkerId, e: Ending, j: JobId)
    requires Inv(st) && Drains(st, i) && Holds(st.phases[i].batch, w, false)
    requires j == JobAt(st.phases[i].batch, w) < |st.rows| && IsBlocked(st.rows[j].jobType, e)
    ensures var steps := TurnOf(i, w, st.rows[j].jobType, e);
      |steps| == 1 && Enabled(st, steps[0]) && EndsTurn(st, steps[0], j, e)
  {
  }

  lemma LastMark(st: State, i: InstanceId, w: WorkerId, e: Ending, j: JobId)
    requires Inv(st) && Drains(st, i) && Holds(st.phases[i].batch, w, true)
    requires j == JobAt(st.phases[i].batch, w) < |st.rows| && !IsBlocked(st.rows[j].jobType, e)
    ensures var steps := TurnOf(i, w, st.rows[j].jobType, e);
      |steps| == 2 && Enabled(st, steps[1]) && EndsTurn(st, steps[1], j, e)
  {
  }

  lemma HandlerStarts(st: State, i: InstanceId, w: WorkerId)
    requires Inv(st) && Drains(st, i) && Holds(st.phases[i].batch, w, false)
    ensures var next := Apply(st, StartHandler(i, w));
      && Inv(next) && next.rows == st.rows && Drains(next, i) && Holds(next.phases[i].batch, w, true)
      && JobAt(next.phases[i].batch, w) == JobAt(st.phases[i].batch, w)
  {
    StepKeepsInv(st, StartHandler(i, w));
  }

  /** Where a worker has taken a job and not begun with it, its turn is a run of the protocol, which
      settles the job's row the way `ProcessJob` does and leaves every other row alone. */
  lemma TurnIsARun(st: State, i: InstanceId, w: WorkerId, e: Ending) returns (j: JobId)
    requires Inv(st) && Drains(st, i) && Holds(st.phases[i].batch, w, false)
    ensures j == JobAt(st.phases[i].batch, w) < |st.rows|
    ensures Legal(st, TurnOf(i, w, st.rows[j].jobType, e))
    ensures var rows := After(st, TurnOf(i, w, st.rows[j].jobType, e)).rows;
      && |rows| == |st.rows| && Settles(st.rows[j], e, rows[j])
      && forall k :: 0 <= k < |rows| && k != j ==> rows[k] == st.rows[k]
  {
    TakenIsThere(st, i, w);
    j := JobAt(st.phases[i].batch, w);
    var steps := TurnOf(i, w, st.rows[j].jobType, e);
    if IsBlocked(st.rows[j].jobType, e) {
      BlockedTurn(st, i, w, e, j);
      OneStep(st, steps[0]);
      assert steps == [steps[0]];
    } else {
      HandlerStarts(st, i, w);
      LastMark(Apply(st, steps[0]), i, w, e, j);
      TwoSteps(st, steps[0], steps[1]);
      assert steps == [steps[0], steps[1]];
    }
  }

  // ---------- A job's turns ----------

  /** A row before its first turn and after each of them; every turn begins with a claim. */
  ghost predicate Turns(rows: seq<Row>, ends: seq<Ending>) {
    && |rows| == |ends| + 1
    && forall n :: 0 <= n < |ends| ==>
         rows[n].status == Pending && Settles(rows[n].(status := Processing), ends[n], rows[n + 1])
  }

  /** Whether a turn is good for a job of this type: a blocked conversion is, as is any handler of the
      three that succeeds. */
  predicate GoesWell(jobType: string, e: Ending) {
    match jobType
    case "cleanup_r2_file" => e.handlerOk
    case "convert_video_to_audio" => e.guardBlocks || e.handlerOk
    case "generate_waveform" => e.guardBlocks || e.handlerOk
    case _ => false
  }

  ghost predicate AllFailed(jobType: string, ends: seq<Ending>) {
    forall n :: 0 <= n < |ends| ==> ends[n].markWorks && !GoesWell(jobType, ends[n])
  }

  lemma {:induction false} FailedTurns(rows: seq<Row>, ends: seq<Ending>, n: nat)
    requires Turns(rows, ends) && n <= |ends| && AllFailed(rows[0].jobType, ends[..n])
    requires rows[0].status == Pending && rows[0].attempts == 0 < rows[0].maxAttempts
    ensures n <= rows[0].maxAttempts
    ensures rows[n] == rows[0].(attempts := n, status := if n < rows[0].maxAttempts then Pending else Failed)
  {
    if n > 0 {
      assert ends[..n][n - 1] == ends[n - 1] && ends[..n - 1] == ends[..n][..n - 1];
      FailedTurns(rows, ends, n - 1);
    }
  }

  lemma {:induction false} EarlierTurnsFailed(rows: seq<Row>, ends: seq<Ending>, n: nat)
    requires Turns(rows, ends) && n < |ends| && rows[0].status == Pending
    requires rows[0].attempts == 0 < rows[0].maxAttempts
    ensures AllFailed(rows[0].jobType, ends[..n])
  {
    if n > 0 {
      EarlierTurnsFailed(rows, ends, n - 1);
      FailedTurns(rows, ends, n - 1);
      assert rows[n].status == Pending;
      forall m | 0 <= m < n ensures ends[m].markWorks && !GoesWell(rows[0].jobType, ends[m]) {
        assert m < n - 1 ==> ends[..n - 1][m] == ends[m];
      }
    }
  }

  /** A job's turns tell its row: it is pending, with as many attempts as turns, while all of them have
      failed and attempts are left; it has failed when they used up the attempts; the first good turn
      completes it and leaves the attempts alone; and the first turn whose mark fails leaves it
      `processing`. */
  lemma TurnsTellTheRow(rows: seq<Row>, ends: seq<Ending>)
    requires Turns(rows, ends) && rows[0].status == Pending && rows[0].attempts == 0 < rows[0].maxAttempts
    ensures var n, first, row := |ends|, rows[0], rows[|ends|];
      var good := n > 0 && ends[n - 1].markWorks && GoesWell(first.jobType, ends[n - 1]);
      && row.jobType == first.jobType && row.maxAttempts == first.maxAttempts && n <= first.maxAttempts
      && (n > 0 ==> AllFailed(first.jobType, ends[..n - 1]))
      && (row.status == Pending <==> AllFailed(first.jobType, ends) && n < first.maxAttempts)
      && (row.status == Failed <==> AllFailed(first.jobType, ends) && n == first.maxAttempts)
      && (row.status == Completed <==> good)
      && (row.status == Processing <==> n > 0 && !ends[n - 1].markWorks)
      && row.attempts == if AllFailed(first.jobType, ends) then n else n - 1
  {
    var n := |ends|;
    if n > 0 {
      EarlierTurnsFailed(rows, ends, n - 1);
      FailedTurns(rows, ends, n - 1);
      forall m | 0 <= m < n - 1 ensures ends[m].markWorks && !GoesWell(rows[0].jobType, ends[m]) {
        assert ends[..n - 1][m] == ends[m];
      }
      assert AllFailed(rows[0].jobType, ends) <==>
        ends[n - 1].markWorks && !GoesWell(rows[0].jobType, ends[n - 1]);
    }
  }

  // ---------- A batch ----------

  /** The jobs in `ended`, and no others, have had their turn. */
  ghost predicate SettlesAll(rows: seq<Row>, ended: set<JobId>, ends: JobId -> Ending, after: seq<Row>) {
    && |after| == |rows|
    && forall j :: 0 <= j < |rows| ==> if j in ended then Settles(rows[j], ends(j), after[j]) else after[j] == rows[j]
  }

  /** The jobs of the first `n` disposals. */
  ghost function JobsOf(jobs: seq<JobId>, done: seq<Disposal>, n: nat): set<JobId>
    requires n <= |done| && forall d :: 0 <= d < |done| ==> done[d].k < |jobs|
  {
    set d | 0 <= d < n :: jobs[done[d].k]
  }

  lemma NoneTwice(jobs: seq<JobId>, done: seq<Disposal>)
    requires NoDuplicates(jobs) && forall d :: 0 <= d < |done| ==> done[d].k < |jobs|
    requires multiset(seq(|done|, d requires 0 <= d < |done| => jobs[done[d].k])) == multiset(jobs)
    ensures JobsOf(jobs, done, |done|) == Elements(jobs)
    ensures forall d :: 0 <= d < |done| ==> jobs[done[d].k] !in JobsOf(jobs, done, d)
  {
    var ran := seq(|done|, d requires 0 <= d < |done| => jobs[done[d].k]);
    forall d | 0 <= d < |done| ensures ran[d] !in ran[..d] && jobs[done[d].k] !in JobsOf(jobs, done, d) {
      MultiplicityOfDistinct(jobs, ran[d]);
      assert ran == ran[..d] + [ran[d]] + ran[d + 1..];
      assert multiset(ran)[ran[d]] == multiset(ran[..d])[ran[d]] + 1 + multiset(ran[d + 1..])[ran[d]];
      assert forall c :: 0 <= c < d ==> ran[..d][c] == jobs[done[c].k];
    }
    forall j: JobId ensures j in JobsOf(jobs, done, |done|) <==> j in Elements(jobs) {
      assert j in multiset(ran) <==> j in multiset(jobs);
    }
  }

  /** The jobs of a batch, handled in the order the workers finish them. */
  method ProcessJobs(table: BackgroundJobs, jobs: seq<JobId>, done: seq<Disposal>, ends: JobId -> Ending)
    requires NoDuplicates(jobs) && forall j :: j in jobs ==> j < |table.rows|
    requires forall d :: 0 <= d < |done| ==> done[d].k < |jobs|
    requires multiset(seq(|done|, d requires 0 <= d < |done| => jobs[done[d].k])) == multiset(jobs)
    modifies table
    ensures SettlesAll(old(table.rows), Elements(jobs), ends, table.rows)
  {
    NoneTwice(jobs, done);
    ghost var rows := table.rows;
    for n := 0 to |done|
      invariant SettlesAll(rows, JobsOf(jobs, done, n), ends, table.rows)
    {
      var job := jobs[done[n].k];
      assert job in jobs;
      assert JobsOf(jobs, done, n + 1) == JobsOf(jobs, done, n) + {job};
      var _ := ProcessJob(table, job, ends(job));
    }
  }

  /** One whole batch: the oldest eligible jobs are claimed and each of them, and nothing else in the
      table, is settled exactly once. */
  method ProcessBatch(table: BackgroundJobs, limit: int, locked: set<JobId>, concurrency: nat, ends: JobId -> Ending)
    returns (processed: nat, ghost picked: set<JobId>)
    requires concurrency >= 1
    modifies table
    ensures IsOldest(old(table.rows), Eligible(old(table.rows), locked), if limit <= 0 then 10 else limit, picked)
    ensures processed == |picked|
    ensures SettlesAll(Claimed(old(table.rows), picked), picked, ends, table.rows)
  {
    var jobs := table.ClaimPendingJobs(limit, locked);
    picked := Elements(jobs);
    NoDuplicatesSize(jobs);
    processed := |jobs|;
    assert forall j :: j in jobs ==> j in picked;
    if jobs == [] {
      return;
    }
    var done := RunWorkerPool(jobs, concurrency);
    ProcessJobs(table, jobs, done, ends);
  }

  /** What one poll found: the claim failed, or a batch of `n` jobs was processed. */
  datatype Poll = ClaimFailed | Processed(n: nat)

  /** Empty polls since the last one that found work; failed claims do not count. */
  function EmptyPolls(polls: seq<Poll>): nat {
    if polls == [] then 0
    else
      var last := polls[|polls| - 1];
      match last
      case ClaimFailed => EmptyPolls(polls[..|polls| - 1])
      case Processed(n) => if n == 0 then EmptyPolls(polls[..|polls| - 1]) + 1 else 0
  }

  function Pow2(e: nat): (p: nat)
    ensures p >= 1
  {
    if e == 0 then 1 else 2 * Pow2(e - 1)
  }

  /** Exponential from five seconds, capped at a minute. */
  function Backoff(emptyPolls: nat): nat {
    var s := 5 * Pow2(emptyPolls);
    if s < 60 then s else 60
  }

  /** The pause before each poll that follows a failed or empty one. */
  function Pauses(polls: seq<Poll>): seq<nat> {
    if polls == [] then []
    else
      var n := |polls| - 1;
      var idle := polls[n] == ClaimFailed || polls[n] == Processed(0);
      Pauses(polls[..n]) + if idle then [Backoff(EmptyPolls(polls[..n]))] else []
  }

  /** The poll loop up to cancellation, over whatever the polls return. */
  method ProcessPendingJobs(polls: seq<Poll>) returns (pauses: seq<nat>)
    ensures pauses == Pauses(polls)
  {
    var idleSleep := 5;
    pauses := [];
    for k := 0 to |polls|
      invariant pauses == Pauses(polls[..k])
      invariant idleSleep == Backoff(EmptyPolls(polls[..k]))
    {
      assert polls[..k + 1][..k] == polls[..k];
      if polls[k] == ClaimFailed {
        pauses := pauses + [idleSleep];
        continue;
      }
      if polls[k].n == 0 {
        pauses := pauses + [idleSleep];
        if idleSleep < 60 {
          idleSleep := idleSleep * 2;
          if idleSleep > 60 {
            idleSleep := 60;
          }
        }
        continue;
      }
      idleSleep := 5;
    }
    assert polls[..|polls|] == polls;
  }

  // ---------- How long the pauses are ----------

  predicate IsIdlePoll(poll: Poll) {
    poll == ClaimFailed || poll == Processed(0)
  }

  /** Polls from `from` on that found nothing. */
  function EmptyOnes(polls: seq<Poll>): set<nat> {
    set k: nat | k < |polls| && polls[k] == Processed(0)
  }

  /** The pause after `empty` polls that found nothing. */
  function PauseAfter(empty: nat): nat {
    match empty
    case 0 => 5
    case 1 => 10
    case 2 => 20
    case 3 => 40
    case _ => 60
  }

  lemma {:induction false} BackoffValues(e: nat)
    ensures Backoff(e) == PauseAfter(e)
  {
    if e >= 4 {
      assert Pow2(4) == 16;
      Pow2Grows(4, e);
    } else {
      assert Pow2(0) == 1 && Pow2(1) == 2 && Pow2(2) == 4 && Pow2(3) == 8;
    }
  }

  lemma {:induction false} Pow2Grows(a: nat, b: nat)
    requires a <= b
    ensures Pow2(a) <= Pow2(b)
    decreases b
  {
    if a < b {
      Pow2Grows(a, b - 1);
    }
  }

  lemma {:induction false} EmptyPollsOf(work: seq<Poll>, idle: seq<Poll>)
    requires work == [] || !IsIdlePoll(work[|work| - 1])
    requires forall k :: 0 <= k < |idle| ==> IsIdlePoll(idle[k])
    ensures EmptyPolls(work + idle) == |EmptyOnes(idle)|
  {
    if idle == [] {
      assert work + idle == work;
      assert EmptyOnes(idle) == {};
    } else {
      var n := |idle| - 1;
      EmptyPollsOf(work, idle[..n]);
      assert (work + idle)[..|work + idle| - 1] == work + idle[..n];
      assert EmptyOnes(idle) == EmptyOnes(idle[..n]) + if idle[n] == Processed(0) then {n} else {};
    }
  }

  /** Wherever work was last found, every poll since has been followed by a pause: five seconds, doubled
      for each earlier one of them that found nothing, and a minute from the fifth on. Failed claims pause
      as long as an empty poll would, and double nothing. */
  lemma {:induction false} PausesSinceWork(work: seq<Poll>, idle: seq<Poll>)
    requires work == [] || !IsIdlePoll(work[|work| - 1])
    requires forall k :: 0 <= k < |idle| ==> IsIdlePoll(idle[k])
    ensures Pauses(work + idle) ==
      Pauses(work) + seq(|idle|, k requires 0 <= k < |idle| => PauseAfter(|EmptyOnes(idle[..k])|))
    ensures work != [] ==> Pauses(work) == Pauses(work[..|work| - 1])
  {
    if idle == [] {
      assert work + idle == work;
    } else {
      var n := |idle| - 1;
      PausesSinceWork(work, idle[..n]);
      EmptyPollsOf(work, idle[..n]);
      BackoffValues(|EmptyOnes(idle[..n])|);
      assert (work + idle)[..|work + idle| - 1] == work + idle[..n];
      assert forall k :: 0 <= k < n ==> idle[..n][..k] == idle[..k];
    }
  }
}
