/** Any number of processor instances draining the job table, as interleaved atomic steps.

    One instance claims a batch in a transaction, hands it to its workers over a channel, and each
    worker guards, runs and marks one job at a time. An instance may crash at any point, a claim
    may roll back, and the statement that marks a job may fail. */
module JobProtocol {
  import opened Basics
  import opened JobTable
  import opened JobBatch

  type InstanceId = nat

  datatype Phase = Idle | Claiming(picked: set<JobId>) | Draining(batch: Batch) | Crashed

  datatype Place = Free | LockedBy(i: InstanceId) | InBatch(i: InstanceId, k: nat) | Lost

  /** `lost` holds the jobs nobody will mark any more: their instance crashed or marking failed.
      `places` and `runs` (handler runs per job) are bookkeeping that no step reads. */
  datatype State = State(
    rows: seq<Row>, phases: map<InstanceId, Phase>, lost: set<JobId>, places: seq<Place>, runs: seq<nat>)

  datatype Step =
    | Enqueue(jobType: string, maxAttempts: int, at: int)
    | BeginClaim(i: InstanceId, limit: nat, picked: set<JobId>)
    | CommitClaim(i: InstanceId, order: seq<JobId>, concurrency: nat)
    | AbortClaim(i: InstanceId)
    | Take(i: InstanceId, w: WorkerId)
    | SkipByGuard(i: InstanceId, w: WorkerId)
    | StartHandler(i: InstanceId, w: WorkerId)
    | Mark(i: InstanceId, w: WorkerId, ok: bool)
    | MarkStatementFails(i: InstanceId, w: WorkerId)
    | Finish(i: InstanceId)
    | Crash(i: InstanceId)

  const EMPTY := State([], map[], {}, [], [])

  // ---------- The system ----------

  predicate Drains(st: State, i: InstanceId) {
    i in st.phases && st.phases[i].Draining?
  }

  predicate IsIdle(st: State, i: InstanceId) {
    i in st.phases ==> st.phases[i].Idle?
  }

  predicate Claims(st: State, i: InstanceId) {
    i in st.phases && st.phases[i].Claiming?
  }

  ghost function Locked(st: State): set<JobId> {
    set i, j | i in st.phases && st.phases[i].Claiming? && j in st.phases[i].picked :: j
  }

  predicate IsExpensive(jobType: string) {
    jobType == "convert_video_to_audio" || jobType == "generate_waveform"
  }

  /** The job types that have a handler; the handler of any other job fails. */
  predicate IsKnown(jobType: string) {
    jobType == "cleanup_r2_file" || IsExpensive(jobType)
  }

  /** A claim takes the oldest of the eligible rows no other claim has locked; but the query chooses from
      the rows as they were when it began, and passes over those that others have locked or changed since.
      So any eligible rows up to the limit are possible here, and nothing below depends on which. */
  ghost predicate Enabled(st: State, step: Step) {
    match step
    case Enqueue(_, _, _) => true
    case BeginClaim(i, limit, picked) =>
      IsIdle(st, i) && limit >= 1 && |picked| <= limit && picked <= Eligible(st.rows, Locked(st))
    case CommitClaim(i, order, concurrency) =>
      Claims(st, i) && concurrency >= 1 && NoDuplicates(order) && Elements(order) == st.phases[i].picked
    case AbortClaim(i) => Claims(st, i)
    case Take(i, w) => Drains(st, i) && CanTake(st.phases[i].batch, w)
    case SkipByGuard(i, w) =>
      && Drains(st, i) && Holds(st.phases[i].batch, w, false)
      && var j := JobAt(st.phases[i].batch, w); j < |st.rows| && IsExpensive(st.rows[j].jobType)
    case StartHandler(i, w) => Drains(st, i) && Holds(st.phases[i].batch, w, false)
    case Mark(i, w, ok) =>
      && Drains(st, i) && Holds(st.phases[i].batch, w, true)
      && var j := JobAt(st.phases[i].batch, w); ok ==> j < |st.rows| && IsKnown(st.rows[j].jobType)
    case MarkStatementFails(i, w) => Drains(st, i) && w in st.phases[i].batch.busy
    case Finish(i) =>
      Drains(st, i) && st.phases[i].batch.sent == |st.phases[i].batch.claimed| && st.phases[i].batch.busy == map[]
    case Crash(i) => i in st.phases
  }

  /** The jobs an instance still has to mark: in its channel or at one of its workers. */
  ghost function InHand(b: Batch): set<JobId> {
    (set k | b.sent <= k < |b.claimed| :: b.claimed[k])
    + (set w | w in b.busy && b.busy[w].k < |b.claimed| :: b.claimed[b.busy[w].k])
  }

  ghost function Relocated(places: seq<Place>, move: (JobId, Place) -> Place): (r: seq<Place>)
    ensures |r| == |places| && forall j :: 0 <= j < |r| ==> r[j] == move(j, places[j])
  {
    seq(|places|, j requires 0 <= j < |places| => move(j, places[j]))
  }

  function IndexOf<T(==)>(s: seq<T>, x: T): (k: nat)
    requires x in s
    ensures k < |s| && s[k] == x
  {
    if s[0] == x then 0 else 1 + IndexOf(s[1..], x)
  }

  ghost function Apply(st: State, step: Step): State
    requires Inv(st) && Enabled(st, step)
  {
    match step
    case Enqueue(jobType, maxAttempts, at) =>
      st.(rows := st.rows + [NewRow(jobType, maxAttempts, at)], places := st.places + [Free], runs := st.runs + [0])
    case BeginClaim(i, _, picked) =>
      st.(phases := st.phases[i := Claiming(picked)],
          places := Relocated(st.places, (j, p) => if j in picked then LockedBy(i) else p))
    case CommitClaim(i, order, concurrency) =>
      var workers := if |order| < concurrency then |order| else concurrency;
      var batch := Batch(order, 0, workers, map[], [], seq(|order|, _ => InChannel));
      st.(rows := Claimed(st.rows, Elements(order)),
          phases := st.phases[i := if order == [] then Idle else Draining(batch)],
          places := Relocated(st.places, (j, p) => if j in order then InBatch(i, IndexOf(order, j)) else p))
    case AbortClaim(i) =>
      st.(phases := st.phases[i := Idle], places := Relocated(st.places, (j, p) => if p == LockedBy(i) then Free else p))
    case Take(i, w) => st.(phases := st.phases[i := Draining(TakeNext(st.phases[i].batch, w))])
    case SkipByGuard(i, w) => Settled(st, i, w, true)
    case StartHandler(i, w) =>
      var j := JobAt(st.phases[i].batch, w);
      st.(phases := st.phases[i := Draining(Start(st.phases[i].batch, w))], runs := st.runs[j := st.runs[j] + 1])
    case Mark(i, w, ok) => Settled(st, i, w, ok)
    case MarkStatementFails(i, w) =>
      var j := JobAt(st.phases[i].batch, w);
      st.(phases := st.phases[i := Draining(Dispose(st.phases[i].batch, w))],
          places := st.places[j := Lost], lost := st.lost + {j})
    case Finish(i) => st.(phases := st.phases[i := Idle])
    case Crash(i) =>
      st.(phases := st.phases[i := Crashed],
          places := Relocated(st.places, (j, p) =>
            if p == LockedBy(i) then Free else if p.InBatch? && p.i == i then Lost else p),
          lost := st.lost + if st.phases[i].Draining? then InHand(st.phases[i].batch) else {})
  }

  /** The worker's mark statement succeeds: the row is completed or failed and the worker moves on. */
  ghost function Settled(st: State, i: InstanceId, w: WorkerId, ok: bool): State
    requires Inv(st) && Drains(st, i) && w in st.phases[i].batch.busy
  {
    var j := JobAt(st.phases[i].batch, w);
    st.(rows := st.rows[j := if ok then CompleteRow(st.rows[j]) else FailRow(st.rows[j])],
        phases := st.phases[i := Draining(Dispose(st.phases[i].batch, w))],
        places := st.places[j := Free])
  }

  // ---------- The invariant ----------

  ghost predicate Inv(st: State) {
    && |st.rows| == |st.places| == |st.runs|
    && (forall j :: 0 <= j < |st.rows| ==> JobOk(st, j))
    && (forall i :: i in st.phases ==> PhaseOk(st, i))
    && (forall j :: j in st.lost ==> j < |st.rows| && st.places[j] == Lost)
  }

  /** One row against the number of times its handler ran. */
  ghost predicate RowOk(row: Row, runs: nat) {
    && 1 <= row.maxAttempts && row.attempts <= row.maxAttempts
    && (row.status == Failed <==> row.attempts == row.maxAttempts)
    && (row.status == Pending || row.status == Failed ==> runs == row.attempts)
    && row.attempts <= runs <= row.attempts + 1
  }

  ghost predicate JobOk(st: State, j: JobId)
    requires |st.rows| == |st.places| == |st.runs| && j < |st.rows|
  {
    var row := st.rows[j];
    && RowOk(row, st.runs[j])
    && match st.places[j]
       case Free => row.status != Processing
       case LockedBy(i) => row.status == Pending && Claims(st, i) && j in st.phases[i].picked
       case InBatch(i, k) => row.status == Processing && Drains(st, i) && InBatchOk(st.phases[i].batch, k, j, row, st.runs[j])
       case Lost => row.status == Processing && j in st.lost
  }

  ghost predicate InBatchOk(b: Batch, k: nat, j: JobId, row: Row, runs: nat) {
    && k < |b.claimed| == |b.fate| && b.claimed[k] == j && !b.fate[k].Disposed?
    && runs == row.attempts + if RunningAt(b, k) then 1 else 0
  }

  ghost predicate PhaseOk(st: State, i: InstanceId)
    requires i in st.phases && |st.places| == |st.rows|
  {
    match st.phases[i]
    case Claiming(picked) => forall j <- picked :: j < |st.rows| && st.places[j] == LockedBy(i)
    case Draining(b) =>
      && BatchOk(b)
      && forall k :: 0 <= k < |b.claimed| && !b.fate[k].Disposed? ==>
           b.claimed[k] < |st.rows| && st.places[b.claimed[k]] == InBatch(i, k)
    case _ => true
  }

  // ---------- Every step keeps it ----------

  lemma EligibleIsFree(st: State, j: JobId)
    requires Inv(st) && j in Eligible(st.rows, Locked(st))
    ensures st.places[j] == Free
  {
    assert JobOk(st, j);
  }

  lemma EnqueueKeepsInv(st: State, step: Step)
    requires Inv(st) && Enabled(st, step) && step.Enqueue?
    ensures Inv(Apply(st, step))
  {
    var st' := Apply(st, step);
    forall j | 0 <= j < |st'.rows| ensures JobOk(st', j) {
      assert j < |st.rows| ==> JobOk(st, j);
    }
    forall i | i in st'.phases ensures PhaseOk(st', i) {
      assert PhaseOk(st, i);
    }
  }

  lemma BeginClaimKeepsInv(st: State, step: Step)
    requires Inv(st) && Enabled(st, step) && step.BeginClaim?
    ensures Inv(Apply(st, step))
  {
    var st' := Apply(st, step);
    forall j | j in step.picked ensures st.places[j] == Free {
      EligibleIsFree(st, j);
    }
    forall j | 0 <= j < |st'.rows| ensures JobOk(st', j) {
      assert JobOk(st, j);
    }
    forall i | i in st'.phases ensures PhaseOk(st', i) {
      assert i in st.phases ==> PhaseOk(st, i);
    }
  }

  lemma CommitClaimKeepsInv(st: State, step: Step)
    requires Inv(st) && Enabled(st, step) && step.CommitClaim?
    ensures Inv(Apply(st, step))
  {
    var st' := Apply(st, step);
    assert PhaseOk(st, step.i);
    forall k | 0 <= k < |step.order|
      ensures IndexOf(step.order, step.order[k]) == k && step.order[k] in st.phases[step.i].picked
    {
      assert step.order[k] in Elements(step.order);
    }
    forall j | 0 <= j < |st'.rows| ensures JobOk(st', j) {
      assert JobOk(st, j);
      assert j in step.order <==> j in Elements(step.order);
    }
    forall i | i in st'.phases ensures PhaseOk(st', i) {
      assert i in st.phases ==> PhaseOk(st, i);
    }
  }

  lemma AbortClaimKeepsInv(st: State, step: Step)
    requires Inv(st) && Enabled(st, step) && step.AbortClaim?
    ensures Inv(Apply(st, step))
  {
    var st' := Apply(st, step);
    forall j | 0 <= j < |st'.rows| ensures JobOk(st', j) {
      assert JobOk(st, j);
    }
    forall i | i in st'.phases ensures PhaseOk(st', i) {
      assert i in st.phases ==> PhaseOk(st, i);
    }
  }

  lemma TakeKeepsInv(st: State, step: Step)
    requires Inv(st) && Enabled(st, step) && step.Take?
    ensures Inv(Apply(st, step))
  {
    var st' := Apply(st, step);
    assert PhaseOk(st, step.i);
    TakeKeepsBatch(st.phases[step.i].batch, step.w);
    forall j | 0 <= j < |st'.rows| ensures JobOk(st', j) {
      assert JobOk(st, j);
    }
    forall i | i in st'.phases ensures PhaseOk(st', i) {
      assert PhaseOk(st, i);
    }
  }

  lemma StartHandlerKeepsJob(st: State, step: Step, j: JobId)
    requires Inv(st) && Enabled(st, step) && step.StartHandler? && j < |st.rows|
    ensures JobOk(Apply(st, step), j)
  {
    assert PhaseOk(st, step.i);
    StartKeepsBatch(st.phases[step.i].batch, step.w);
    assert JobOk(st, j);
  }

  lemma StartHandlerKeepsInv(st: State, step: Step)
    requires Inv(st) && Enabled(st, step) && step.StartHandler?
    ensures Inv(Apply(st, step))
  {
    var st' := Apply(st, step);
    assert PhaseOk(st, step.i);
    StartKeepsBatch(st.phases[step.i].batch, step.w);
    forall j | 0 <= j < |st'.rows| ensures JobOk(st', j) {
      StartHandlerKeepsJob(st, step, j);
    }
    forall i | i in st'.phases ensures PhaseOk(st', i) {
      assert PhaseOk(st, i);
    }
  }

  /** A skipped job completes without a run; otherwise only a handler that ran can be marked failed. */
  lemma SettledKeepsInv(st: State, i: InstanceId, w: WorkerId, ok: bool)
    requires Inv(st) && Drains(st, i) && w in st.phases[i].batch.busy
    requires st.phases[i].batch.busy[w].running || ok
    ensures Inv(Settled(st, i, w, ok))
  {
    var st' := Settled(st, i, w, ok);
    assert PhaseOk(st, i);
    var b := st.phases[i].batch;
    DisposeKeepsBatch(b, w);
    assert JobOk(st, JobAt(b, w));
    forall j | 0 <= j < |st'.rows| ensures JobOk(st', j) {
      assert JobOk(st, j);
    }
    forall i' | i' in st'.phases ensures PhaseOk(st', i') {
      assert PhaseOk(st, i');
    }
  }

  lemma MarkStatementFailsKeepsJob(st: State, step: Step, j: JobId)
    requires Inv(st) && Enabled(st, step) && step.MarkStatementFails? && j < |st.rows|
    ensures JobOk(Apply(st, step), j)
  {
    assert PhaseOk(st, step.i);
    var b := st.phases[step.i].batch;
    DisposeKeepsBatch(b, step.w);
    assert JobOk(st, JobAt(b, step.w));
    assert JobOk(st, j);
  }

  lemma MarkStatementFailsKeepsPhase(st: State, step: Step, i: InstanceId)
    requires Inv(st) && Enabled(st, step) && step.MarkStatementFails? && i in st.phases
    ensures PhaseOk(Apply(st, step), i)
  {
    assert PhaseOk(st, step.i) && PhaseOk(st, i);
    var b := st.phases[step.i].batch;
    DisposeKeepsBatch(b, step.w);
    assert JobOk(st, JobAt(b, step.w));
  }

  lemma MarkStatementFailsKeepsInv(st: State, step: Step)
    requires Inv(st) && Enabled(st, step) && step.MarkStatementFails?
    ensures Inv(Apply(st, step))
  {
    var st' := Apply(st, step);
    assert PhaseOk(st, step.i);
    assert JobOk(st, JobAt(st.phases[step.i].batch, step.w));
    forall j | 0 <= j < |st'.rows| ensures JobOk(st', j) {
      MarkStatementFailsKeepsJob(st, step, j);
    }
    forall i | i in st'.phases ensures PhaseOk(st', i) {
      MarkStatementFailsKeepsPhase(st, step, i);
    }
  }

  /** What an instance has in hand is exactly what is placed in its batch. */
  lemma InHandIsPlaced(st: State, i: InstanceId, j: JobId)
    requires Inv(st) && Drains(st, i)
    ensures j in InHand(st.phases[i].batch) <==> j < |st.rows| && st.places[j].InBatch? && st.places[j].i == i
  {
    var b := st.phases[i].batch;
    assert PhaseOk(st, i);
    if j < |st.rows| && st.places[j].InBatch? && st.places[j].i == i {
      assert JobOk(st, j);
      assert FateOk(b, st.places[j].k);
      if b.fate[st.places[j].k].Held? {
        assert j == b.claimed[b.busy[b.fate[st.places[j].k].w].k];
      }
    }
    if j in InHand(b) {
      if k: nat :| b.sent <= k < |b.claimed| && b.claimed[k] == j {
        assert FateOk(b, k);
      }
    }
  }

  lemma FinishKeepsInv(st: State, step: Step)
    requires Inv(st) && Enabled(st, step) && step.Finish?
    ensures Inv(Apply(st, step))
  {
    var st' := Apply(st, step);
    assert InHand(st.phases[step.i].batch) == {};
    forall j | 0 <= j < |st'.rows| ensures JobOk(st', j) {
      assert JobOk(st, j);
      InHandIsPlaced(st, step.i, j);
    }
    forall i | i in st'.phases ensures PhaseOk(st', i) {
      assert PhaseOk(st, i);
    }
  }

  lemma CrashKeepsInv(st: State, step: Step)
    requires Inv(st) && Enabled(st, step) && step.Crash?
    ensures Inv(Apply(st, step))
  {
    var st' := Apply(st, step);
    if Drains(st, step.i) {
      forall j: JobId ensures j in InHand(st.phases[step.i].batch) <==>
        j < |st.rows| && st.places[j].InBatch? && st.places[j].i == step.i
      {
        InHandIsPlaced(st, step.i, j);
      }
    }
    forall j | 0 <= j < |st'.rows| ensures JobOk(st', j) {
      assert JobOk(st, j);
    }
    forall i | i in st'.phases ensures PhaseOk(st', i) {
      assert PhaseOk(st, i);
    }
  }

  lemma StepKeepsInv(st: State, step: Step)
    requires Inv(st) && Enabled(st, step)
    ensures Inv(Apply(st, step))
  {
    match step
    case Enqueue(_, _, _) => EnqueueKeepsInv(st, step);
    case BeginClaim(_, _, _) => BeginClaimKeepsInv(st, step);
    case CommitClaim(_, _, _) => CommitClaimKeepsInv(st, step);
    case AbortClaim(_) => AbortClaimKeepsInv(st, step);
    case Take(_, _) => TakeKeepsInv(st, step);
    case SkipByGuard(i, w) => SettledKeepsInv(st, i, w, true);
    case StartHandler(_, _) => StartHandlerKeepsInv(st, step);
    case Mark(i, w, ok) => SettledKeepsInv(st, i, w, ok);
    case MarkStatementFails(_, _) => MarkStatementFailsKeepsInv(st, step);
    case Finish(_) => FinishKeepsInv(st, step);
    case Crash(_) => CrashKeepsInv(st, step);
  }

  // ---------- Whole runs ----------

  ghost predicate Legal(st: State, steps: seq<Step>)
    requires Inv(st)
    decreases |steps|
  {
    steps == [] || (Enabled(st, steps[0]) && (StepKeepsInv(st, steps[0]); Legal(Apply(st, steps[0]), steps[1..])))
  }

  ghost function After(st: State, steps: seq<Step>): (end: State)
    requires Inv(st) && Legal(st, steps)
    ensures Inv(end)
    decreases |steps|
  {
    if steps == [] then st else (StepKeepsInv(st, steps[0]); After(Apply(st, steps[0]), steps[1..]))
  }

  /** Who is responsible for a job: an instance whose channel still holds it, the worker it was
      handed to, or a crashed or failed worker. */
  datatype Owner = Channel(i: InstanceId, k: nat) | Worker(i: InstanceId, w: WorkerId) | LostWorker

  ghost predicate Owns(st: State, o: Owner, j: JobId) {
    match o
    case Channel(i, k) =>
      Drains(st, i) && st.phases[i].batch.sent <= k < |st.phases[i].batch.claimed| && st.phases[i].batch.claimed[k] == j
    case Worker(i, w) =>
      && Drains(st, i) && w in st.phases[i].batch.busy
      && st.phases[i].batch.busy[w].k < |st.phases[i].batch.claimed| && JobAt(st.phases[i].batch, w) == j
    case LostWorker => j in st.lost
  }

  ghost function PlaceOwner(st: State, j: JobId): Owner
    requires Inv(st) && j < |st.rows| && (st.places[j].InBatch? || st.places[j].Lost?)
  {
    assert JobOk(st, j);
    match st.places[j]
    case InBatch(i, k) =>
      var b := st.phases[i].batch;
      if b.fate[k].Held? then Worker(i, b.fate[k].w) else Channel(i, k)
    case Lost => LostWorker
  }

  lemma OwnerIsPlaced(st: State, o: Owner, j: JobId)
    requires Inv(st) && Owns(st, o, j)
    ensures j < |st.rows| && (st.places[j].InBatch? || st.places[j].Lost?) && o == PlaceOwner(st, j)
    ensures st.rows[j].status == Processing
  {
    if !o.LostWorker? {
      var b := st.phases[o.i].batch;
      assert PhaseOk(st, o.i);
      assert FateOk(b, if o.Channel? then o.k else b.busy[o.w].k);
    }
    assert JobOk(st, j);
  }

  lemma PlacedHasOwner(st: State, j: JobId)
    requires Inv(st) && j < |st.rows| && st.rows[j].status == Processing
    ensures (st.places[j].InBatch? || st.places[j].Lost?) && Owns(st, PlaceOwner(st, j), j)
  {
    assert JobOk(st, j);
    if st.places[j].InBatch? {
      assert PhaseOk(st, st.places[j].i);
      assert FateOk(st.phases[st.places[j].i].batch, st.places[j].k);
    }
  }

  /** In every interleaving a row is `processing` exactly when someone owns its job, and no job ever
      has two owners. */
  lemma ExactlyOneOwner(steps: seq<Step>, j: JobId)
    requires Legal(EMPTY, steps) && j < |After(EMPTY, steps).rows|
    ensures After(EMPTY, steps).rows[j].status == Processing <==> exists o :: Owns(After(EMPTY, steps), o, j)
    ensures forall o, o' :: Owns(After(EMPTY, steps), o, j) && Owns(After(EMPTY, steps), o', j) ==> o == o'
  {
    var st := After(EMPTY, steps);
    if st.rows[j].status == Processing {
      PlacedHasOwner(st, j);
    }
    forall o | Owns(st, o, j) ensures st.rows[j].status == Processing && o == PlaceOwner(st, j) {
      OwnerIsPlaced(st, o, j);
    }
  }

  /** In every interleaving: a pending job has attempts left, a job has failed exactly when it has
      none left, no handler runs more often than `max_attempts`, and a failed job used every run. */
  lemma AttemptsAreBounded(steps: seq<Step>, j: JobId)
    requires Legal(EMPTY, steps) && j < |After(EMPTY, steps).rows|
    ensures var row, runs := After(EMPTY, steps).rows[j], After(EMPTY, steps).runs[j];
      && (row.status == Pending ==> row.attempts < row.maxAttempts)
      && (row.status == Failed <==> row.attempts == row.maxAttempts)
      && (row.status == Pending || row.status == Failed ==> runs == row.attempts)
      && runs <= row.maxAttempts
  {
    assert JobOk(After(EMPTY, steps), j);
  }

  /** When the wait group lets the batch go, the workers' jobs are exactly the claimed jobs, each once. */
  lemma BatchIsPartitioned(steps: seq<Step>, i: InstanceId)
    requires Legal(EMPTY, steps) && Enabled(After(EMPTY, steps), Finish(i))
    ensures var b := After(EMPTY, steps).phases[i].batch;
      && (forall d :: 0 <= d < |b.done| ==> b.done[d].k < |b.claimed|)
      && NoDuplicates(DoneJobs(b)) && multiset(DoneJobs(b)) == multiset(b.claimed)
  {
    assert PhaseOk(After(EMPTY, steps), i);
    PoolIsDone(After(EMPTY, steps).phases[i].batch);
  }

  /** A job lost with its worker stays `processing` for good: nothing claims or marks it again. */
  lemma {:induction false} LostStaysProcessing(st: State, steps: seq<Step>, j: JobId)
    requires Inv(st) && Legal(st, steps) && j in st.lost
    ensures j in After(st, steps).lost && j < |st.rows|
    ensures After(st, steps).rows[j] == st.rows[j] && st.rows[j].status == Processing
    decreases |steps|
  {
    assert JobOk(st, j);
    if steps != [] {
      StepKeepsInv(st, steps[0]);
      LostIsLeftAlone(st, steps[0], j);
      LostStaysProcessing(Apply(st, steps[0]), steps[1..], j);
    }
  }

  lemma LostIsLeftAlone(st: State, step: Step, j: JobId)
    requires Inv(st) && Enabled(st, step) && j in st.lost
    ensures j in Apply(st, step).lost && j < |st.rows| && j < |Apply(st, step).rows|
    ensures Apply(st, step).rows[j] == st.rows[j]
  {
    assert JobOk(st, j);
    match step
    case CommitClaim(i, order, _) =>
      assert PhaseOk(st, i);
      assert j !in Elements(order);
    case SkipByGuard(i, w) => assert PhaseOk(st, i);
    case Mark(i, w, _) => assert PhaseOk(st, i);
    case _ =>
  }
}
