/** The queue drains: while an instance lives and a job is neither finished nor lost there is a step that
    moves the work along, and only boundedly many such steps can follow one another. */
module JobProgress {
  import opened Basics
  import opened JobTable
  import opened JobBatch
  import opened JobProtocol

  /** Steps that move a job to its next stage, and the two by which an instance leaves a batch behind. */
  predicate Progresses(step: Step) {
    match step
    case BeginClaim(_, _, picked) => picked != {}
    case CommitClaim(_, _, _) => true
    case Take(_, _) => true
    case SkipByGuard(_, _) => true
    case StartHandler(_, _) => true
    case Mark(_, _, _) => true
    case Finish(_) => true
    case _ => false
  }

  // ---------- Some step is always possible ----------

  lemma DrainingMoves(st: State, i: InstanceId) returns (step: Step)
    requires Inv(st) && Drains(st, i)
    ensures Enabled(st, step) && Progresses(step)
  {
    var b := st.phases[i].batch;
    assert PhaseOk(st, i);
    if w :| w in b.busy {
      var known := IsKnown(st.rows[JobAt(b, w)].jobType);
      step := if b.busy[w].running then Mark(i, w, known) else StartHandler(i, w);
    } else if b.sent < |b.claimed| {
      step := Take(i, 0);
    } else {
      assert b.busy == map[];
      step := Finish(i);
    }
  }

  lemma ClaimingMoves(st: State, i: InstanceId) returns (step: Step)
    requires Inv(st) && Claims(st, i)
    ensures Enabled(st, step) && Progresses(step)
  {
    var order := Ordering(st.phases[i].picked);
    step := CommitClaim(i, order, 1);
  }

  /** With one instance alive, a job that is neither finished nor lost always has a way forward. */
  lemma NeverStuck(st: State, i: InstanceId, j: JobId) returns (step: Step)
    requires Inv(st) && (i in st.phases ==> !st.phases[i].Crashed?)
    requires j < |st.rows| && st.rows[j].status != Completed && st.rows[j].status != Failed && j !in st.lost
    ensures Enabled(st, step) && Progresses(step)
  {
    assert JobOk(st, j);
    if Drains(st, i) {
      step := DrainingMoves(st, i);
    } else if Claims(st, i) {
      step := ClaimingMoves(st, i);
    } else if st.places[j].InBatch? {
      step := DrainingMoves(st, st.places[j].i);
    } else if st.places[j].LockedBy? {
      step := ClaimingMoves(st, st.places[j].i);
    } else {
      var eligible := Eligible(st.rows, Locked(st));
      forall i', j' | Claims(st, i') && j' in st.phases[i'].picked ensures j' != j {
        assert PhaseOk(st, i');
      }
      assert j in eligible;
      var oldest := OldestExists(st.rows, eligible);
      SubsetSize({oldest}, eligible);
      step := BeginClaim(i, 1, {oldest});
    }
  }

  // ---------- Boundedly many steps ----------

  /** Six stages for each attempt left, less those the job has passed in its present attempt. */
  ghost function Rank(st: State, j: JobId): nat
    requires Inv(st) && j < |st.rows|
  {
    assert JobOk(st, j);
    var row := st.rows[j];
    var left := 6 * (row.maxAttempts - row.attempts);
    match st.places[j]
    case Free => if row.status == Pending then left else 0
    case LockedBy(_) => left - 1
    case InBatch(i, k) =>
      var b := st.phases[i].batch;
      if b.fate[k].InChannel? then left - 2 else if RunningAt(b, k) then left - 4 else left - 3
    case Lost => 0
  }

  ghost function Ranks(st: State): (r: seq<nat>)
    requires Inv(st)
    ensures |r| == |st.rows| && forall j :: 0 <= j < |r| ==> r[j] == Rank(st, j)
  {
    seq(|st.rows|, j requires 0 <= j < |st.rows| => Rank(st, j))
  }

  function Sum(s: seq<nat>): nat {
    if s == [] then 0 else Sum(s[..|s| - 1]) + s[|s| - 1]
  }

  ghost predicate NoneRises(a: seq<nat>, b: seq<nat>) {
    |a| == |b| && forall j :: 0 <= j < |a| ==> b[j] <= a[j]
  }

  lemma {:induction false} SumFalls(a: seq<nat>, b: seq<nat>)
    requires NoneRises(a, b)
    ensures Sum(b) <= Sum(a)
    ensures (exists j :: 0 <= j < |a| && b[j] < a[j]) ==> Sum(b) < Sum(a)
  {
    if a != [] {
      var n := |a| - 1;
      SumFalls(a[..n], b[..n]);
      assert forall j :: 0 <= j < n ==> a[..n][j] == a[j] && b[..n][j] == b[j];
    }
  }

  ghost function ClaimingOnes(phases: map<InstanceId, Phase>): set<InstanceId> {
    set i | i in phases && phases[i].Claiming?
  }

  ghost function DrainingOnes(phases: map<InstanceId, Phase>): set<InstanceId> {
    set i | i in phases && phases[i].Draining?
  }

  /** Two for each claiming instance, one for each draining one. */
  ghost function Load(phases: map<InstanceId, Phase>): nat {
    2 * |ClaimingOnes(phases)| + |DrainingOnes(phases)|
  }

  function LoadOf(phase: Phase): nat {
    if phase.Claiming? then 2 else if phase.Draining? then 1 else 0
  }

  /** The stages left to all jobs outweigh what claiming and draining instances have left to do. */
  ghost function Measure(st: State): nat
    requires Inv(st)
  {
    3 * Sum(Ranks(st)) + Load(st.phases)
  }

  /** No job falls back, and unless the step ends a claim or a batch some job moves on. */
  ghost predicate RanksFall(st: State, step: Step)
    requires Inv(st) && Enabled(st, step)
  {
    StepKeepsInv(st, step);
    var a, b := Ranks(st), Ranks(Apply(st, step));
    NoneRises(a, b) && (step.CommitClaim? || step.Finish? || exists j :: 0 <= j < |a| && b[j] < a[j])
  }

  lemma BeginClaimFalls(st: State, step: Step)
    requires Inv(st) && Enabled(st, step) && step.BeginClaim? && step.picked != {}
    ensures RanksFall(st, step)
  {
    StepKeepsInv(st, step);
    var a, b := Ranks(st), Ranks(Apply(st, step));
    forall j: JobId | j < |st.rows| ensures b[j] <= a[j] && (j in step.picked ==> b[j] < a[j]) {
      assert JobOk(st, j);
      if j in step.picked {
        EligibleIsFree(st, j);
      } else if st.places[j].InBatch? {
        assert st.places[j].i != step.i;
      }
    }
    var j :| j in step.picked;
    assert b[j] < a[j];
  }

  lemma CommitClaimFalls(st: State, step: Step)
    requires Inv(st) && Enabled(st, step) && step.CommitClaim?
    ensures RanksFall(st, step)
  {
    StepKeepsInv(st, step);
    var a, b := Ranks(st), Ranks(Apply(st, step));
    assert PhaseOk(st, step.i);
    forall j: JobId | j < |st.rows| ensures b[j] <= a[j] {
      assert JobOk(st, j);
      assert j in step.order <==> j in Elements(step.order);
    }
  }

  lemma TakeFalls(st: State, step: Step)
    requires Inv(st) && Enabled(st, step) && step.Take?
    ensures RanksFall(st, step)
  {
    StepKeepsInv(st, step);
    var a, b := Ranks(st), Ranks(Apply(st, step));
    var batch := st.phases[step.i].batch;
    assert PhaseOk(st, step.i);
    TakeKeepsBatch(batch, step.w);
    assert FateOk(batch, batch.sent);
    var taken := batch.claimed[batch.sent];
    assert JobOk(st, taken);
    forall j: JobId | j < |st.rows| ensures b[j] <= a[j] && (j == taken ==> b[j] < a[j]) {
      assert JobOk(st, j);
    }
    assert b[taken] < a[taken];
  }

  lemma StartHandlerFalls(st: State, step: Step)
    requires Inv(st) && Enabled(st, step) && step.StartHandler?
    ensures RanksFall(st, step)
  {
    StepKeepsInv(st, step);
    var a, b := Ranks(st), Ranks(Apply(st, step));
    var batch := st.phases[step.i].batch;
    assert PhaseOk(st, step.i);
    StartKeepsBatch(batch, step.w);
    var started := JobAt(batch, step.w);
    assert JobOk(st, started);
    forall j: JobId | j < |st.rows| ensures b[j] <= a[j] && (j == started ==> b[j] < a[j]) {
      assert JobOk(st, j);
    }
    assert b[started] < a[started];
  }

  lemma MarkFalls(st: State, step: Step)
    requires Inv(st) && Enabled(st, step) && step.Mark?
    ensures RanksFall(st, step)
  {
    StepKeepsInv(st, step);
    var a, b := Ranks(st), Ranks(Apply(st, step));
    var batch := st.phases[step.i].batch;
    assert PhaseOk(st, step.i);
    DisposeKeepsBatch(batch, step.w);
    var marked := JobAt(batch, step.w);
    assert JobOk(st, marked);
    forall j: JobId | j < |st.rows| ensures b[j] <= a[j] && (j == marked ==> b[j] < a[j]) {
      assert JobOk(st, j);
    }
    assert b[marked] < a[marked];
  }

  lemma SkipFalls(st: State, step: Step)
    requires Inv(st) && Enabled(st, step) && step.SkipByGuard?
    ensures RanksFall(st, step)
  {
    StepKeepsInv(st, step);
    var a, b := Ranks(st), Ranks(Apply(st, step));
    var batch := st.phases[step.i].batch;
    assert PhaseOk(st, step.i);
    DisposeKeepsBatch(batch, step.w);
    var skipped := JobAt(batch, step.w);
    assert JobOk(st, skipped);
    forall j: JobId | j < |st.rows| ensures b[j] <= a[j] && (j == skipped ==> b[j] < a[j]) {
      assert JobOk(st, j);
    }
    assert b[skipped] < a[skipped];
  }

  lemma FinishFalls(st: State, step: Step)
    requires Inv(st) && Enabled(st, step) && step.Finish?
    ensures RanksFall(st, step)
  {
    StepKeepsInv(st, step);
    var a, b := Ranks(st), Ranks(Apply(st, step));
    assert InHand(st.phases[step.i].batch) == {};
    forall j: JobId | j < |st.rows| ensures b[j] <= a[j] {
      assert JobOk(st, j);
      InHandIsPlaced(st, step.i, j);
    }
  }

  lemma ProgressFalls(st: State, step: Step)
    requires Inv(st) && Enabled(st, step) && Progresses(step)
    ensures RanksFall(st, step)
  {
    match step
    case BeginClaim(_, _, _) => BeginClaimFalls(st, step);
    case CommitClaim(_, _, _) => CommitClaimFalls(st, step);
    case Take(_, _) => TakeFalls(st, step);
    case SkipByGuard(_, _) => SkipFalls(st, step);
    case StartHandler(_, _) => StartHandlerFalls(st, step);
    case Mark(_, _, _) => MarkFalls(st, step);
    case Finish(_) => FinishFalls(st, step);
  }

  lemma OneMember(s: set<InstanceId>, i: InstanceId, stays: bool)
    ensures |if stays then s + {i} else s - {i}| == |s| - (if i in s then 1 else 0) + if stays then 1 else 0
  {
    if i in s {
      assert s + {i} == s && s == (s - {i}) + {i};
    } else {
      assert s - {i} == s;
    }
  }

  lemma ClaimingOnesMove(phases: map<InstanceId, Phase>, i: InstanceId, next: Phase)
    ensures |ClaimingOnes(phases[i := next])| ==
      |ClaimingOnes(phases)| - (if i in ClaimingOnes(phases) then 1 else 0) + if next.Claiming? then 1 else 0
  {
    OneMember(ClaimingOnes(phases), i, next.Claiming?);
    if next.Claiming? {
      assert ClaimingOnes(phases[i := next]) == ClaimingOnes(phases) + {i};
    } else {
      assert ClaimingOnes(phases[i := next]) == ClaimingOnes(phases) - {i};
    }
  }

  lemma DrainingOnesMove(phases: map<InstanceId, Phase>, i: InstanceId, next: Phase)
    ensures |DrainingOnes(phases[i := next])| ==
      |DrainingOnes(phases)| - (if i in DrainingOnes(phases) then 1 else 0) + if next.Draining? then 1 else 0
  {
    OneMember(DrainingOnes(phases), i, next.Draining?);
    if next.Draining? {
      assert DrainingOnes(phases[i := next]) == DrainingOnes(phases) + {i};
    } else {
      assert DrainingOnes(phases[i := next]) == DrainingOnes(phases) - {i};
    }
  }

  lemma LoadMoves(phases: map<InstanceId, Phase>, i: InstanceId, next: Phase)
    ensures Load(phases[i := next])
            == Load(phases) - (if i in phases then LoadOf(phases[i]) else 0) + LoadOf(next)
  {
    ClaimingOnesMove(phases, i, next);
    DrainingOnesMove(phases, i, next);
  }

  /** A claim takes an instance up by two, a commit down by at least one, the end of a batch by one. */
  lemma InstancesMove(st: State, step: Step)
    requires Inv(st) && Enabled(st, step) && Progresses(step)
    ensures Load(Apply(st, step).phases) <= Load(st.phases)
      + if step.BeginClaim? then 2 else if step.CommitClaim? || step.Finish? then -1 else 0
  {
    var after := Apply(st, step).phases;
    assert after == st.phases[step.i := after[step.i]];
    LoadMoves(st.phases, step.i, after[step.i]);
  }

  /** Every step that moves the work along uses up the measure. */
  lemma ProgressUsesMeasure(st: State, step: Step)
    requires Inv(st) && Enabled(st, step) && Progresses(step)
    ensures Inv(Apply(st, step)) && Measure(Apply(st, step)) < Measure(st)
  {
    StepKeepsInv(st, step);
    ProgressFalls(st, step);
    SumFalls(Ranks(st), Ranks(Apply(st, step)));
    InstancesMove(st, step);
  }

  /** From any state, no more than `Measure` such steps can follow one another. */
  lemma {:induction false} ProgressIsBounded(st: State, steps: seq<Step>)
    requires Inv(st) && Legal(st, steps)
    requires forall n :: 0 <= n < |steps| ==> Progresses(steps[n])
    ensures |steps| + Measure(After(st, steps)) <= Measure(st)
    decreases |steps|
  {
    if steps != [] {
      ProgressUsesMeasure(st, steps[0]);
      ProgressIsBounded(Apply(st, steps[0]), steps[1..]);
    }
  }

  predicate Over(st: State, j: JobId) {
    j < |st.rows| && (st.rows[j].status == Completed || st.rows[j].status == Failed || j in st.lost)
  }

  predicate IsAlive(st: State, i: InstanceId) {
    i in st.phases ==> !st.phases[i].Crashed?
  }

  /** Only steps that move the work along, from `st` to `end`, after which there are none. */
  ghost predicate DrainsTo(st: State, steps: seq<Step>, end: State)
    requires Inv(st)
  {
    && Legal(st, steps) && After(st, steps) == end
    && (forall n :: 0 <= n < |steps| ==> Progresses(steps[n]))
    && forall step :: Progresses(step) ==> !Enabled(end, step)
  }

  lemma AliveStaysAlive(st: State, step: Step, i: InstanceId)
    requires Inv(st) && Enabled(st, step) && Progresses(step) && IsAlive(st, i)
    ensures IsAlive(Apply(st, step), i)
  {
  }

  lemma {:induction false} AliveAfterAll(st: State, steps: seq<Step>, i: InstanceId)
    requires Inv(st) && Legal(st, steps) && IsAlive(st, i)
    requires forall n :: 0 <= n < |steps| ==> Progresses(steps[n])
    ensures IsAlive(After(st, steps), i)
    decreases |steps|
  {
    if steps != [] {
      StepKeepsInv(st, steps[0]);
      AliveStaysAlive(st, steps[0], i);
      AliveAfterAll(Apply(st, steps[0]), steps[1..], i);
    }
  }

  /** With one instance alive, from any state, every way of moving the work along until it cannot be moved
      any further takes at most `Measure` steps and ends with each job completed, failed or lost. */
  lemma DrainedMeansSettled(st: State, i: InstanceId, steps: seq<Step>, end: State)
    requires Inv(st) && IsAlive(st, i) && DrainsTo(st, steps, end)
    ensures |steps| <= Measure(st) && forall j: JobId :: j < |end.rows| ==> Over(end, j)
  {
    ProgressIsBounded(st, steps);
    AliveAfterAll(st, steps, i);
    forall j: JobId | j < |end.rows| ensures Over(end, j) {
      if !Over(end, j) {
        var _ := NeverStuck(end, i, j);
      }
    }
  }

  /** And there is such a way: the queue drains. */
  lemma {:induction false} QueueDrains(st: State, i: InstanceId) returns (steps: seq<Step>, end: State)
    requires Inv(st) && IsAlive(st, i)
    ensures DrainsTo(st, steps, end) && |steps| <= Measure(st)
    ensures forall j: JobId :: j < |end.rows| ==> Over(end, j)
    decreases Measure(st)
  {
    if step :| Progresses(step) && Enabled(st, step) {
      ProgressUsesMeasure(st, step);
      AliveStaysAlive(st, step, i);
      var rest;
      rest, end := QueueDrains(Apply(st, step), i);
      steps := [step] + rest;
      assert steps[0] == step && steps[1..] == rest;
    } else {
      steps, end := [], st;
    }
    DrainedMeansSettled(st, i, steps, end);
  }
}
