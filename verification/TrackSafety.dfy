/** What any interleaving of uploads, deletions and cleanups leaves behind: which committed versions have
    their object, what the grace period protects, and which objects are left over for good. */
module TrackSafety {
  import opened Basics
  import opened JobTable
  import opened TrackStorage

  // ---------- Committed versions ----------

  lemma UploadsRestoreNothing(st: State, step: Step)
    requires Enabled(st, step) && IsUploadStep(step)
    ensures Apply(st, step).restored == st.restored
  {
  }

  lemma SweepsRestoreNothing(st: State, step: Step)
    requires Enabled(st, step) && IsSweepStep(step)
    ensures Apply(st, step).restored == st.restored
  {
  }

  lemma OnlyRestoreRestores(st: State, step: Step)
    requires Enabled(st, step) && !step.Restore?
    ensures Apply(st, step).restored == st.restored
  {
    if IsUploadStep(step) {
      UploadsRestoreNothing(st, step);
    } else if IsSweepStep(step) {
      SweepsRestoreNothing(st, step);
    }
  }

  lemma {:induction false} RestoredOnlyByRestore(st: State, steps: seq<Step>)
    requires Legal(st, steps) && forall n :: 0 <= n < |steps| ==> !steps[n].Restore?
    ensures After(st, steps).restored == st.restored
    decreases |steps|
  {
    if steps != [] {
      OnlyRestoreRestores(st, steps[0]);
      RestoredOnlyByRestore(Apply(st, steps[0]), steps[1..]);
    }
  }

  /** In every interleaving, a committed version without its object is of a project that is not live, or
      that was restored after having been deleted; when nobody restores projects, it is not live. */
  lemma LiveProjectsKeepTheirObjects(steps: seq<Step>, key: Key)
    requires Legal(EMPTY, steps) && key in After(EMPTY, steps).rows
    ensures var st := After(EMPTY, steps); var p := st.rows[key];
      p in st.projects && (key !in st.objects && st.projects[p].Live? ==> p in st.restored)
    ensures (forall n :: 0 <= n < |steps| ==> !steps[n].Restore?) ==>
      var st := After(EMPTY, steps);
      key !in st.objects ==> !st.projects[st.rows[key]].Live?
  {
    RunKeepsInv(EMPTY, steps);
    if forall n :: 0 <= n < |steps| ==> !steps[n].Restore? {
      RestoredOnlyByRestore(EMPTY, steps);
    }
  }

  // ---------- What the grace period protects ----------

  /** The job's delete call may still come: it waits to be claimed, or a live worker holds it and has yet to
      make the call, or had it refused with another attempt left. */
  predicate MayStillDelete(job: QueuedJob) {
    || job.row.status == Pending || job.hold == Waiting
    || (job.hold == Tried(false) && job.row.attempts + 1 < job.row.maxAttempts)
  }

  predicate HasLiveJob(st: State, key: Key) {
    key in st.jobs && exists n :: 0 <= n < |st.jobs[key]| && MayStillDelete(st.jobs[key][n])
  }

  /** The sweep will come to the project, or to the key, if it goes on. */
  predicate ComesTo(sweep: Sweep, p: ProjectId, key: Key) {
    p in sweep.todo || (sweep.Flushing? && key in sweep.keys)
  }

  predicate SweepComesTo(st: State, p: ProjectId, key: Key) {
    exists c :: c in st.sweeps && ComesTo(st.sweeps[c], p, key)
  }

  /** While its row exists and the grace period has not passed, the version's object is safe. */
  ghost predicate Guarded(st: State, key: Key, p: ProjectId, at: int) {
    && key in st.minted && key !in st.flying
    && (key in st.rows ==>
          && st.rows[key] == p && p in st.projects
          && (st.now <= at + GRACE ==>
                && st.projects[p] == SoftDeleted(at) && key in st.objects
                && !HasLiveJob(st, key) && !SweepComesTo(st, p, key)))
  }

  /** A step of someone else's upload, or none at all: nothing about the key changes. */
  ghost predicate Untouched(st: State, st': State, key: Key) {
    && key in st'.minted && key !in st'.flying && st.now <= st'.now && st'.sweeps == st.sweeps && st'.jobs == st.jobs
    && (key in st'.rows <==> key in st.rows) && (key in st.rows ==> st'.rows[key] == st.rows[key])
    && (key in st'.objects <==> key in st.objects) && (key in st.detached ==> key in st'.detached)
    && forall p :: p in st.projects ==> p in st'.projects && st'.projects[p] == st.projects[p]
  }

  /** The upload moves on, or ends in one of three ways. */
  lemma OtherUploadsLeave(st: State, u: ProcessId, next: Upload, why: Reason, key: Key)
    requires Inv(st) && u in st.uploads && key in st.minted && key !in st.flying
    ensures Untouched(st, st.(uploads := st.uploads[u := next]), key)
    ensures Untouched(st, Committed(st, u), key)
    ensures Untouched(st, Compensated(st, u), key) && Untouched(st, Abandoned(st, u, why), key)
  {
    assert st.uploads[u].key in st.flying;
  }

  lemma UploadStepLeavesOthers(st: State, step: Step, key: Key)
    requires Inv(st) && Enabled(st, step) && IsUploadStep(step) && key in st.minted && key !in st.flying
    ensures Untouched(st, Apply(st, step), key)
  {
    var u := step.u;
    var x := st.uploads[u];
    if step.Insert? {
      OtherUploadsLeave(st, u, Inserted(x.p, x.key), UploadCrashed, key);
    } else if step.Compensate? {
      OtherUploadsLeave(st, u, x, CompensationFailed, key);
    } else if step.Commit? || step.UploadCrash? {
      OtherUploadsLeave(st, u, x, UploadCrashed, key);
    } else {
      OtherUploadsLeave(st, u, Compensating(x.p, x.key), UploadCrashed, key);
    }
  }

  lemma NewcomersLeaveOthers(st: State, u: ProcessId, p: ProjectId, other: Key, key: Key, d: nat)
    requires Inv(st) && key in st.minted && key !in st.flying
    ensures Untouched(st, st.(now := st.now + d), key)
    ensures p !in st.created ==> Untouched(st, st.(projects := st.projects[p := Live], created := st.created + {p}), key)
    ensures other !in st.minted ==> Untouched(st, Store(st, u, p, other), key)
    ensures other !in st.minted ==>
      Untouched(st, StoredAnyway(st, other), key) && Untouched(st, st.(minted := st.minted + {other}), key)
  {
  }

  lemma OthersLeave(st: State, step: Step, key: Key)
    requires Inv(st) && Enabled(st, step) && key in st.minted && key !in st.flying
    requires IsUploadStep(step) || step.Put? || step.PutFails? || step.Tick? || step.CreateProject?
    ensures Untouched(st, Apply(st, step), key)
  {
    if IsUploadStep(step) {
      UploadStepLeavesOthers(st, step, key);
    } else if step.Put? {
      NewcomersLeaveOthers(st, step.u, step.p, step.key, key, 0);
    } else if step.PutFails? {
      NewcomersLeaveOthers(st, 0, 0, step.key, key, 0);
    } else if step.CreateProject? {
      NewcomersLeaveOthers(st, 0, step.p, key, key, 0);
    } else {
      NewcomersLeaveOthers(st, 0, 0, key, key, step.d);
    }
  }

  lemma GuardedWhenUntouched(st: State, st': State, key: Key, p: ProjectId, at: int)
    requires Guarded(st, key, p, at) && Untouched(st, st', key)
    ensures Guarded(st', key, p, at)
  {
  }

  lemma GuardedBySoftDelete(st: State, other: ProjectId, key: Key, p: ProjectId, at: int)
    requires Guarded(st, key, p, at) && other in st.projects && st.projects[other].Live?
    ensures Guarded(Trash(st, other), key, p, at)
  {
    if key in st.rows && st.now <= at + GRACE {
      assert other != p && key !in RowsOf(st, other);
      assert key in st.jobs ==> Trash(st, other).jobs[key] == st.jobs[key];
    }
  }

  /** Other rows and projects are deleted, or the key's own row is. */
  lemma GuardedByRemoval(
    st: State, gone: set<Key>, projects: map<ProjectId, Project>, key: Key, p: ProjectId, at: int)
    requires Guarded(st, key, p, at)
    requires key in st.rows && key !in gone && p in st.projects ==> p in projects && projects[p] == st.projects[p]
    ensures Guarded(RemoveRows(st, gone, projects), key, p, at)
  {
    var st' := RemoveRows(st, gone, projects);
    if key in st'.rows {
      assert key in st.jobs ==> st'.jobs[key] == st.jobs[key];
    }
  }

  lemma GuardedByDeletions(st: State, step: Step, key: Key, p: ProjectId, at: int)
    requires Enabled(st, step) && Guarded(st, key, p, at)
    requires step.SoftDelete? || (step.Restore? && step.p != p) || step.EraseAccount?
    ensures Guarded(Apply(st, step), key, p, at)
  {
    if step.SoftDelete? {
      GuardedBySoftDelete(st, step.p, key, p, at);
    } else if step.EraseAccount? {
      GuardedByRemoval(st, RowsOfAll(st, step.owned, step.authored), st.projects - step.owned, key, p, at);
    }
  }

  lemma DeadJobStaysDead(st: State, step: Step)
    requires Enabled(st, step) && IsCleanupStep(step)
    requires HoldOk(st.jobs[step.key][step.n], true) && !MayStillDelete(st.jobs[step.key][step.n])
    ensures !MayStillDelete(NextJob(st, step).0) && !NextJob(st, step).1
  {
  }

  /** Where no job may still delete the object, no step of a worker removes it or brings such a job back. */
  lemma DeadJobsStayDead(st: State, step: Step, key: Key)
    requires Inv(st) && Enabled(st, step) && IsCleanupStep(step) && key in st.objects && !HasLiveJob(st, key)
    ensures key in Apply(st, step).objects && !HasLiveJob(Apply(st, step), key)
  {
    CleanupStepMovesJob(st, step);
    if step.key == key {
      assert JobOk(st, key);
      DeadJobStaysDead(st, step);
      forall n | 0 <= n < |st.jobs[key]| ensures !MayStillDelete(Apply(st, step).jobs[key][n]) {
        assert !MayStillDelete(st.jobs[key][n]);
      }
    }
  }

  lemma GuardedByCleanup(st: State, step: Step, key: Key, p: ProjectId, at: int)
    requires Inv(st) && Enabled(st, step) && Guarded(st, key, p, at) && IsCleanupStep(step)
    ensures Guarded(Apply(st, step), key, p, at)
  {
    CleanupStepMovesJob(st, step);
    if key in st.rows && st.now <= at + GRACE {
      DeadJobsStayDead(st, step, key);
    }
  }

  /** Sweeps change, and none that comes to the key is new. */
  lemma GuardedBySweeps(st: State, sweeps: map<ProcessId, Sweep>, key: Key, p: ProjectId, at: int)
    requires Guarded(st, key, p, at)
    requires key in st.rows && st.now <= at + GRACE ==> forall c :: c in sweeps ==> !ComesTo(sweeps[c], p, key)
    ensures Guarded(st.(sweeps := sweeps), key, p, at)
  {
  }

  lemma GuardedByDrop(st: State, dropped: set<Key>, key: Key, p: ProjectId, at: int)
    requires Guarded(st, key, p, at)
    requires key in st.rows && st.now <= at + GRACE ==> key !in dropped
    ensures Guarded(st.(objects := st.objects - dropped), key, p, at)
  {
  }

  /** A sweep that does not come to the key does not come to it later either. */
  lemma ComesToNoMore(st: State, sweep: Sweep, p: ProjectId, key: Key, kept: set<Key>)
    requires !ComesTo(sweep, p, key) && key in st.rows && st.rows[key] == p
    ensures sweep.Visiting? && sweep.todo != [] ==>
      !ComesTo(Visiting(sweep.todo[1..]), p, key) && key !in RowsOf(st, sweep.todo[0])
    ensures sweep.Flushing? ==>
      && !ComesTo(Flushed(sweep, kept), p, key) && !ComesTo(Visiting(sweep.todo), p, key)
      && key !in Dropped(sweep, kept)
  {
  }

  lemma ChangedSweepsComeNoMore(
    st: State, c: ProcessId, next: Sweep, key: Key, p: ProjectId, at: int)
    requires Guarded(st, key, p, at)
    requires key in st.rows && st.now <= at + GRACE ==> !ComesTo(next, p, key)
    ensures Guarded(st.(sweeps := st.sweeps[c := next]), key, p, at)
  {
    GuardedBySweeps(st, st.sweeps[c := next], key, p, at);
  }

  lemma GuardedByStartSweep(st: State, step: Step, key: Key, p: ProjectId, at: int)
    requires Enabled(st, step) && Guarded(st, key, p, at) && step.StartSweep?
    ensures Guarded(Apply(st, step), key, p, at)
  {
    ChangedSweepsComeNoMore(st, step.c, Visiting(step.todo), key, p, at);
  }

  lemma GuardedByListing(st: State, step: Step, key: Key, p: ProjectId, at: int)
    requires Enabled(st, step) && Guarded(st, key, p, at) && (step.ListVersions? || step.ListFails?)
    ensures Guarded(Apply(st, step), key, p, at)
  {
    var sweep := st.sweeps[step.c];
    if key in st.rows && st.now <= at + GRACE {
      ComesToNoMore(st, sweep, p, key, {});
      if step.ListVersions? {
        assert forall k :: k in step.keys ==> k in (set k | k in step.keys);
      }
    }
    ChangedSweepsComeNoMore(st, step.c, Apply(st, step).sweeps[step.c], key, p, at);
  }

  lemma GuardedByFlush(st: State, step: Step, key: Key, p: ProjectId, at: int)
    requires Enabled(st, step) && Guarded(st, key, p, at) && step.Flush?
    ensures Guarded(Apply(st, step), key, p, at)
  {
    var sweep := st.sweeps[step.c];
    if key in st.rows && st.now <= at + GRACE {
      ComesToNoMore(st, sweep, p, key, step.kept);
    }
    GuardedByDrop(st, Dropped(sweep, step.kept), key, p, at);
    var dropped := st.(objects := st.objects - Dropped(sweep, step.kept));
    ChangedSweepsComeNoMore(dropped, step.c, Flushed(sweep, step.kept), key, p, at);
  }

  lemma GuardedByHardDelete(st: State, step: Step, key: Key, p: ProjectId, at: int)
    requires Enabled(st, step) && Guarded(st, key, p, at) && step.HardDelete?
    ensures Guarded(Apply(st, step), key, p, at)
  {
    var sweep := st.sweeps[step.c];
    var gone, projects := RowsOf(st, sweep.p), st.projects - {sweep.p};
    GuardedByRemoval(st, gone, projects, key, p, at);
    var removed := RemoveRows(st, gone, projects);
    if key in removed.rows && removed.now <= at + GRACE {
      ComesToNoMore(st, sweep, p, key, {});
    }
    ChangedSweepsComeNoMore(removed, step.c, Visiting(sweep.todo), key, p, at);
  }

  lemma GuardedBySweepEnd(st: State, step: Step, key: Key, p: ProjectId, at: int)
    requires Enabled(st, step) && Guarded(st, key, p, at) && (step.HardDeleteFails? || step.EndSweep?)
    ensures Guarded(Apply(st, step), key, p, at)
  {
    var sweep := st.sweeps[step.c];
    if step.EndSweep? {
      GuardedBySweeps(st, st.sweeps - {step.c}, key, p, at);
    } else {
      if key in st.rows && st.now <= at + GRACE {
        ComesToNoMore(st, sweep, p, key, {});
      }
      ChangedSweepsComeNoMore(st, step.c, Visiting(sweep.todo), key, p, at);
    }
  }

  lemma GuardedBySweep(st: State, step: Step, key: Key, p: ProjectId, at: int)
    requires Enabled(st, step) && Guarded(st, key, p, at) && IsSweepStep(step)
    ensures Guarded(Apply(st, step), key, p, at)
  {
    if step.StartSweep? {
      GuardedByStartSweep(st, step, key, p, at);
    } else if step.ListVersions? || step.ListFails? {
      GuardedByListing(st, step, key, p, at);
    } else if step.Flush? {
      GuardedByFlush(st, step, key, p, at);
    } else if step.HardDelete? {
      GuardedByHardDelete(st, step, key, p, at);
    } else {
      GuardedBySweepEnd(st, step, key, p, at);
    }
  }

  lemma GuardedStep(st: State, step: Step, key: Key, p: ProjectId, at: int)
    requires Inv(st) && Enabled(st, step) && Guarded(st, key, p, at) && step != Restore(p)
    ensures Guarded(Apply(st, step), key, p, at)
  {
    if IsSweepStep(step) {
      GuardedBySweep(st, step, key, p, at);
    } else if IsCleanupStep(step) {
      GuardedByCleanup(st, step, key, p, at);
    } else if step.SoftDelete? || step.Restore? || step.EraseAccount? {
      GuardedByDeletions(st, step, key, p, at);
    } else {
      OthersLeave(st, step, key);
      GuardedWhenUntouched(st, Apply(st, step), key, p, at);
    }
  }

  ghost predicate NeverRestores(steps: seq<Step>, p: ProjectId) {
    forall n :: 0 <= n < |steps| ==> steps[n] != Restore(p)
  }

  lemma {:induction false} GuardedLasts(st: State, steps: seq<Step>, key: Key, p: ProjectId, at: int)
    requires Inv(st) && Legal(st, steps) && NeverRestores(steps, p) && Guarded(st, key, p, at)
    ensures Guarded(After(st, steps), key, p, at)
    decreases |steps|
  {
    if steps != [] {
      StepKeepsInv(st, steps[0]);
      GuardedStep(st, steps[0], key, p, at);
      GuardedLasts(Apply(st, steps[0]), steps[1..], key, p, at);
    }
  }

  /** As long as the version exists and the grace period has not passed, its object is there. */
  predicate KeptInGrace(st: State, key: Key, at: int) {
    key in st.rows && st.now <= at + GRACE ==> key in st.objects
  }

  /** Whatever follows, short of restoring the project, the grace period protects the version's object. */
  ghost predicate GraceHolds(st: State, key: Key, p: ProjectId, at: int) {
    forall steps :: Legal(st, steps) && NeverRestores(steps, p) ==> KeptInGrace(After(st, steps), key, at)
  }

  /** A way on from `st` that removes the object, at once and without touching the rows. */
  ghost predicate Removes(st: State, steps: seq<Step>, key: Key) {
    && Legal(st, steps) && (forall n :: 0 <= n < |steps| ==> !steps[n].Restore?)
    && After(st, steps).rows == st.rows && After(st, steps).now == st.now
    && key !in After(st, steps).objects
  }

  lemma Prepend(st: State, step: Step, rest: seq<Step>, key: Key)
    requires Enabled(st, step) && !step.Restore? && Removes(Apply(st, step), rest, key)
    requires Apply(st, step).rows == st.rows && Apply(st, step).now == st.now
    ensures Removes(st, [step] + rest, key)
  {
    assert ([step] + rest)[1..] == rest;
  }

  /** The worker that holds the job makes its call. */
  lemma HeldJobRemoves(st: State, key: Key, n: nat) returns (steps: seq<Step>)
    requires Inv(st) && IsHeld(st, key, n, Waiting)
    ensures Removes(st, steps, key)
  {
    assert JobOk(st, key);
    var step := TryDelete(key, n, true, true);
    steps := [step] + [];
    Prepend(st, step, [], key);
  }

  lemma PendingJobRemoves(st: State, key: Key, n: nat) returns (steps: seq<Step>)
    requires Inv(st) && key in st.jobs && n < |st.jobs[key]| && st.jobs[key][n].row.status == Pending
    ensures Removes(st, steps, key)
  {
    assert JobOk(st, key);
    assert HoldOk(st.jobs[key][n], key in st.objects);
    var step := ClaimCleanup(key, n);
    CleanupStepKeepsInv(st, step);
    var rest := HeldJobRemoves(Apply(st, step), key, n);
    Prepend(st, step, rest, key);
    steps := [step] + rest;
  }

  lemma FailedJobRemoves(st: State, key: Key, n: nat) returns (steps: seq<Step>)
    requires Inv(st) && IsHeld(st, key, n, Tried(false))
    requires st.jobs[key][n].row.attempts + 1 < st.jobs[key][n].row.maxAttempts
    ensures Removes(st, steps, key)
  {
    var step := MarkCleanup(key, n);
    CleanupStepKeepsInv(st, step);
    var rest := PendingJobRemoves(Apply(st, step), key, n);
    Prepend(st, step, rest, key);
    steps := [step] + rest;
  }

  lemma LiveJobRemoves(st: State, key: Key) returns (steps: seq<Step>)
    requires Inv(st) && HasLiveJob(st, key)
    ensures Removes(st, steps, key)
  {
    var n :| 0 <= n < |st.jobs[key]| && MayStillDelete(st.jobs[key][n]);
    if st.jobs[key][n].row.status == Pending {
      steps := PendingJobRemoves(st, key, n);
    } else if st.jobs[key][n].hold == Waiting {
      steps := HeldJobRemoves(st, key, n);
    } else {
      steps := FailedJobRemoves(st, key, n);
    }
  }

  lemma {:induction false} FlushRemoves(st: State, c: ProcessId, key: Key) returns (steps: seq<Step>)
    requires c in st.sweeps && st.sweeps[c].Flushing? && key in st.sweeps[c].keys
    ensures Removes(st, steps, key)
    decreases |st.sweeps[c].keys|
  {
    var keys := st.sweeps[c].keys;
    var step := Flush(c, {});
    var next := Apply(st, step);
    var rest: seq<Step> := [];
    assert keys == NextBatch(keys) + keys[|NextBatch(keys)|..];
    if key in NextBatch(keys) {
      assert key !in next.objects;
    } else {
      rest := FlushRemoves(next, c, key);
    }
    Prepend(st, step, rest, key);
    steps := [step] + rest;
  }

  /** How far a sweep is from its end: the projects to visit, then the keys to flush. */
  function Ahead(sweep: Sweep): nat {
    2 * |sweep.todo| + if sweep.Flushing? then 1 else 0
  }

  function KeysAhead(sweep: Sweep): nat {
    if sweep.Flushing? then |sweep.keys| else 0
  }

  /** The sweep goes one step towards the key. */
  ghost predicate Approaches(st: State, step: Step, c: ProcessId, p: ProjectId, key: Key)
    requires c in st.sweeps
  {
    && Enabled(st, step) && !step.Restore? && Apply(st, step).rows == st.rows && Apply(st, step).now == st.now
    && c in Apply(st, step).sweeps && ComesTo(Apply(st, step).sweeps[c], p, key)
    && var before, after := st.sweeps[c], Apply(st, step).sweeps[c];
       Ahead(after) < Ahead(before) || (Ahead(after) == Ahead(before) && KeysAhead(after) < KeysAhead(before))
  }

  lemma VisitApproaches(st: State, c: ProcessId, p: ProjectId, key: Key) returns (step: Step)
    requires c in st.sweeps && st.sweeps[c].Visiting? && p in st.sweeps[c].todo
    requires key in st.rows && st.rows[key] == p
    ensures Approaches(st, step, c, p, key)
  {
    var todo := st.sweeps[c].todo;
    if todo[0] == p {
      var keys := Ordering(RowsOf(st, p));
      assert key in Elements(keys);
      step := ListVersions(c, keys);
    } else {
      assert p in todo[1..];
      step := ListFails(c);
    }
  }

  lemma FlushApproaches(st: State, c: ProcessId, p: ProjectId, key: Key) returns (step: Step)
    requires c in st.sweeps && st.sweeps[c].Flushing? && p in st.sweeps[c].todo
    ensures Approaches(st, step, c, p, key)
  {
    step := if st.sweeps[c].keys != [] then Flush(c, {}) else HardDeleteFails(c);
  }

  lemma {:induction false} SweepRemoves(st: State, c: ProcessId, p: ProjectId, key: Key) returns (steps: seq<Step>)
    requires c in st.sweeps && ComesTo(st.sweeps[c], p, key) && key in st.rows && st.rows[key] == p
    ensures Removes(st, steps, key)
    decreases Ahead(st.sweeps[c]), KeysAhead(st.sweeps[c])
  {
    if st.sweeps[c].Flushing? && key in st.sweeps[c].keys {
      steps := FlushRemoves(st, c, key);
      return;
    }
    var step: Step;
    if st.sweeps[c].Visiting? {
      step := VisitApproaches(st, c, p, key);
    } else {
      step := FlushApproaches(st, c, p, key);
    }
    var next := Apply(st, step);
    var rest := SweepRemoves(next, c, p, key);
    Prepend(st, step, rest, key);
    steps := [step] + rest;
  }

  lemma RemovalBreaksGrace(st: State, steps: seq<Step>, key: Key, p: ProjectId, at: int)
    requires Removes(st, steps, key) && key in st.rows && st.now <= at + GRACE
    ensures !GraceHolds(st, key, p, at)
  {
    assert NeverRestores(steps, p);
    assert !KeptInGrace(After(st, steps), key, at);
  }

  /** The grace period protects a version of a deleted project, as long as the project is not restored,
      exactly when no cleanup job may still delete its object and no sweep under way comes to it. */
  lemma GraceProtects(before: seq<Step>, key: Key, at: int)
    requires Legal(EMPTY, before) && key in After(EMPTY, before).rows && key in After(EMPTY, before).objects
    requires var st := After(EMPTY, before); var p := st.rows[key];
      p in st.projects && st.projects[p] == SoftDeleted(at) && st.now <= at + GRACE
    ensures var st := After(EMPTY, before); var p := st.rows[key];
      GraceHolds(st, key, p, at) <==> !HasLiveJob(st, key) && !SweepComesTo(st, p, key)
  {
    RunKeepsInv(EMPTY, before);
    var st := After(EMPTY, before);
    var p := st.rows[key];
    if HasLiveJob(st, key) {
      var steps := LiveJobRemoves(st, key);
      RemovalBreaksGrace(st, steps, key, p, at);
    } else if c :| c in st.sweeps && ComesTo(st.sweeps[c], p, key) {
      var steps := SweepRemoves(st, c, p, key);
      RemovalBreaksGrace(st, steps, key, p, at);
    } else {
      assert Guarded(st, key, p, at);
      forall steps | Legal(st, steps) && NeverRestores(steps, p) ensures KeptInGrace(After(st, steps), key, at) {
        GuardedLasts(st, steps, key, p, at);
      }
    }
  }

  /** So a version committed when its project is deleted is never protected: its job is queued in the same
      moment. */
  lemma DeletionEndsProtection(before: seq<Step>, key: Key)
    requires Legal(EMPTY, before) && key in After(EMPTY, before).rows && key in After(EMPTY, before).objects
    requires Enabled(After(EMPTY, before), SoftDelete(After(EMPTY, before).rows[key]))
    ensures var st := After(EMPTY, before); var p := st.rows[key];
      !GraceHolds(Apply(st, SoftDelete(p)), key, p, st.now)
  {
    var st := After(EMPTY, before);
    var p := st.rows[key];
    Snoc(EMPTY, before, SoftDelete(p));
    var deleted := Apply(st, SoftDelete(p));
    var jobs := deleted.jobs[key];
    assert jobs[|jobs| - 1] == NewJob(st.now) && MayStillDelete(NewJob(st.now));
    assert HasLiveJob(deleted, key);
    GraceProtects(before + [SoftDelete(p)], key, st.now);
  }

  // ---------- Objects without a row ----------

  predicate InFlight(st: State, key: Key) {
    exists u :: u in st.uploads && st.uploads[u].key == key
  }

  /** In any run, an object is without a row exactly when its upload is in flight, or failed to clean up
      after itself, or the row was deleted; in the last case cleanup jobs exist for it, none of which has
      succeeded, and in the case before there is none. */
  lemma EveryOrphanIsExplained(steps: seq<Step>, key: Key)
    requires Legal(EMPTY, steps) && key in After(EMPTY, steps).objects
    ensures var st := After(EMPTY, steps);
      && (key !in st.rows <==> InFlight(st, key) || key in st.detached)
      && (key in st.detached ==> (st.detached[key] == RowDeleted <==> key in st.jobs))
      && (key in st.jobs ==> st.jobs[key] != [] && forall job :: job in st.jobs[key] ==> job.row.status != Completed)
  {
    RunKeepsInv(EMPTY, steps);
    var st := After(EMPTY, steps);
    if key in st.flying {
      assert st.uploads[st.flying[key]].key == key;
    }
    if key in st.detached {
      assert DetachedOk(st, key);
    }
    if key in st.jobs {
      assert JobOk(st, key);
    }
  }

  predicate FlushComesTo(st: State, key: Key) {
    exists c :: c in st.sweeps && st.sweeps[c].Flushing? && key in st.sweeps[c].keys
  }

  ghost predicate StaysForever(st: State, key: Key) {
    forall steps :: Legal(st, steps) ==> key in After(st, steps).objects
  }

  /** Nothing that can happen next removes the object. */
  ghost predicate Stuck(st: State, key: Key) {
    key in st.objects && key in st.detached && !HasLiveJob(st, key) && !FlushComesTo(st, key)
  }

  lemma StuckWhenUntouched(st: State, st': State, key: Key)
    requires Stuck(st, key) && Untouched(st, st', key)
    ensures Stuck(st', key)
  {
  }

  /** Jobs queued for rows, and the key is in none. */
  lemma StuckByQueueing(st: State, keys: set<Key>, st': State, key: Key)
    requires Stuck(st, key) && key !in keys && st'.jobs == Queued(st.jobs, keys, st.now)
    requires st'.objects == st.objects && key in st'.detached && st'.sweeps == st.sweeps
    ensures Stuck(st', key)
  {
    assert key in st'.jobs <==> key in st.jobs;
    assert key in st.jobs ==> st'.jobs[key] == st.jobs[key];
  }

  lemma StuckByDeletions(st: State, step: Step, key: Key)
    requires Inv(st) && Enabled(st, step) && Stuck(st, key)
    requires step.SoftDelete? || step.Restore? || step.EraseAccount?
    ensures Stuck(Apply(st, step), key)
  {
    assert DetachedOk(st, key);
    if step.SoftDelete? {
      StuckByQueueing(st, RowsOf(st, step.p), Apply(st, step), key);
    } else if step.EraseAccount? {
      StuckByQueueing(st, RowsOfAll(st, step.owned, step.authored), Apply(st, step), key);
    }
  }

  lemma StuckByCleanup(st: State, step: Step, key: Key)
    requires Inv(st) && Enabled(st, step) && Stuck(st, key) && IsCleanupStep(step)
    ensures Stuck(Apply(st, step), key)
  {
    CleanupStepMovesJob(st, step);
    DeadJobsStayDead(st, step, key);
  }

  lemma StuckBySweeps(st: State, sweeps: map<ProcessId, Sweep>, key: Key)
    requires Stuck(st, key) && forall c :: c in sweeps && sweeps[c].Flushing? ==> key !in sweeps[c].keys
    ensures Stuck(st.(sweeps := sweeps), key)
  {
  }

  lemma StuckByChange(st: State, c: ProcessId, next: Sweep, key: Key)
    requires Stuck(st, key) && (next.Flushing? ==> key !in next.keys)
    ensures Stuck(st.(sweeps := st.sweeps[c := next]), key)
  {
    StuckBySweeps(st, st.sweeps[c := next], key);
  }

  lemma StuckByListing(st: State, step: Step, key: Key)
    requires Inv(st) && Enabled(st, step) && Stuck(st, key) && step.ListVersions?
    ensures Stuck(Apply(st, step), key)
  {
    assert DetachedOk(st, key);
    assert forall k :: k in step.keys ==> k in (set k | k in step.keys);
    assert key !in RowsOf(st, st.sweeps[step.c].todo[0]);
    StuckByChange(st, step.c, Apply(st, step).sweeps[step.c], key);
  }

  lemma StuckByFlush(st: State, step: Step, key: Key)
    requires Enabled(st, step) && Stuck(st, key) && step.Flush?
    ensures Stuck(Apply(st, step), key)
  {
    var sweep := st.sweeps[step.c];
    assert key !in sweep.keys;
    StuckByChange(st.(objects := st.objects - Dropped(sweep, step.kept)), step.c, Flushed(sweep, step.kept), key);
  }

  lemma StuckByHardDelete(st: State, step: Step, key: Key)
    requires Inv(st) && Enabled(st, step) && Stuck(st, key) && step.HardDelete?
    ensures Stuck(Apply(st, step), key)
  {
    assert DetachedOk(st, key);
    var sweep := st.sweeps[step.c];
    var removed := RemoveRows(st, RowsOf(st, sweep.p), st.projects - {sweep.p});
    StuckByQueueing(st, RowsOf(st, sweep.p), removed, key);
    StuckByChange(removed, step.c, Visiting(sweep.todo), key);
  }

  lemma StuckBySweep(st: State, step: Step, key: Key)
    requires Inv(st) && Enabled(st, step) && Stuck(st, key) && IsSweepStep(step)
    ensures Stuck(Apply(st, step), key)
  {
    if step.ListVersions? {
      StuckByListing(st, step, key);
    } else if step.Flush? {
      StuckByFlush(st, step, key);
    } else if step.HardDelete? {
      StuckByHardDelete(st, step, key);
    } else if step.EndSweep? {
      StuckBySweeps(st, st.sweeps - {step.c}, key);
    } else {
      StuckByChange(st, step.c, Apply(st, step).sweeps[step.c], key);
    }
  }

  lemma StuckStep(st: State, step: Step, key: Key)
    requires Inv(st) && Enabled(st, step) && Stuck(st, key)
    ensures Stuck(Apply(st, step), key)
  {
    if IsSweepStep(step) {
      StuckBySweep(st, step, key);
    } else if IsCleanupStep(step) {
      StuckByCleanup(st, step, key);
    } else if step.SoftDelete? || step.Restore? || step.EraseAccount? {
      StuckByDeletions(st, step, key);
    } else {
      assert DetachedOk(st, key);
      OthersLeave(st, step, key);
      StuckWhenUntouched(st, Apply(st, step), key);
    }
  }

  lemma {:induction false} StuckLasts(st: State, steps: seq<Step>, key: Key)
    requires Inv(st) && Legal(st, steps) && Stuck(st, key)
    ensures key in After(st, steps).objects
    decreases |steps|
  {
    if steps != [] {
      StepKeepsInv(st, steps[0]);
      StuckStep(st, steps[0], key);
      StuckLasts(Apply(st, steps[0]), steps[1..], key);
    }
  }

  /** An object whose upload or row is gone stays for good exactly when no cleanup job may still delete it
      and no sweep is about to flush it. */
  lemma OrphanStays(before: seq<Step>, key: Key)
    requires Legal(EMPTY, before) && key in After(EMPTY, before).objects && key in After(EMPTY, before).detached
    ensures var st := After(EMPTY, before);
      StaysForever(st, key) <==> !HasLiveJob(st, key) && !FlushComesTo(st, key)
  {
    RunKeepsInv(EMPTY, before);
    var st := After(EMPTY, before);
    if HasLiveJob(st, key) {
      var steps := LiveJobRemoves(st, key);
      assert key !in After(st, steps).objects;
    } else if c :| c in st.sweeps && st.sweeps[c].Flushing? && key in st.sweeps[c].keys {
      var steps := FlushRemoves(st, c, key);
      assert key !in After(st, steps).objects;
    } else {
      forall steps | Legal(st, steps) ensures key in After(st, steps).objects {
        StuckLasts(st, steps, key);
      }
    }
  }

  /** Erasing an account deletes its projects and exactly the versions in them or of its tracks, and leaves
      no object of theirs beyond reach: a job that may delete it is queued for each. */
  lemma ErasureIsCleanedUp(before: seq<Step>, owned: set<ProjectId>, authored: set<Key>, key: Key)
    requires Legal(EMPTY, before) && Enabled(After(EMPTY, before), EraseAccount(owned, authored))
    requires key in After(EMPTY, before).rows
    ensures var st := After(EMPTY, before); var erased := Apply(st, EraseAccount(owned, authored));
      && (forall p :: p in erased.projects <==> p in st.projects && p !in owned)
      && (key in erased.rows <==> st.rows[key] !in owned && key !in authored)
      && (key in erased.rows ==> erased.rows[key] == st.rows[key])
      && (key !in erased.rows ==> HasLiveJob(erased, key))
      && (key !in erased.rows && key in st.objects ==> !StaysForever(erased, key))
  {
    var st := After(EMPTY, before);
    var erased := Apply(st, EraseAccount(owned, authored));
    Snoc(EMPTY, before, EraseAccount(owned, authored));
    if key !in erased.rows {
      var jobs := erased.jobs[key];
      assert jobs[|jobs| - 1] == NewJob(st.now) && MayStillDelete(NewJob(st.now));
      assert HasLiveJob(erased, key);
      if key in st.objects {
        OrphanStays(before + [EraseAccount(owned, authored)], key);
      }
    }
  }

  /** What an upload leaves behind, by crashing or by failing to delete, no cleanup ever finds. */
  lemma UploadLeftoversStay(before: seq<Step>, key: Key)
    requires Legal(EMPTY, before) && key in After(EMPTY, before).objects && key in After(EMPTY, before).detached
    requires After(EMPTY, before).detached[key] != RowDeleted
    ensures StaysForever(After(EMPTY, before), key)
  {
    RunKeepsInv(EMPTY, before);
    var st := After(EMPTY, before);
    assert DetachedOk(st, key);
    forall c | c in st.sweeps && st.sweeps[c].Flushing? ensures key !in st.sweeps[c].keys {
      assert SweepOk(st, st.sweeps[c]);
      assert key in st.sweeps[c].listed ==> ListedOk(st, st.sweeps[c].p, key);
    }
    OrphanStays(before, key);
  }

  // ---------- Uploads alone ----------

  /** Nobody deletes or sweeps, no process dies and a put reported failed stored nothing. */
  predicate Orderly(step: Step) {
    !IsSweepStep(step) && !step.EraseAccount? && !step.UploadCrash? && (step.PutFails? ==> !step.storedAnyway)
  }

  ghost function FailedCompensation(st: State, step: Step): set<Key>
    requires Enabled(st, step)
  {
    if step.Compensate? && !step.deleted then {st.uploads[step.u].key} else {}
  }

  lemma OrderlyLeak(st: State, step: Step)
    requires Enabled(st, step) && Orderly(step)
    ensures Apply(st, step).detached.Keys == st.detached.Keys + FailedCompensation(st, step)
  {
  }

  /** The keys whose compensating delete failed along a run. */
  ghost function FailedCompensations(st: State, steps: seq<Step>): set<Key>
    requires Legal(st, steps)
    decreases |steps|
  {
    if steps == [] then {}
    else FailedCompensation(st, steps[0]) + FailedCompensations(Apply(st, steps[0]), steps[1..])
  }

  lemma {:induction false} LeaksAreFailedCompensations(st: State, steps: seq<Step>)
    requires Legal(st, steps) && forall n :: 0 <= n < |steps| ==> Orderly(steps[n])
    ensures After(st, steps).detached.Keys == st.detached.Keys + FailedCompensations(st, steps)
    decreases |steps|
  {
    if steps != [] {
      OrderlyLeak(st, steps[0]);
      LeaksAreFailedCompensations(Apply(st, steps[0]), steps[1..]);
    }
  }

  /** When only uploads run, an object without a row belongs to an upload still in flight or to one
      whose compensating delete failed. */
  lemma UploadsLeaveNoOrphans(steps: seq<Step>, key: Key)
    requires Legal(EMPTY, steps) && forall n :: 0 <= n < |steps| ==> Orderly(steps[n])
    requires key in After(EMPTY, steps).objects && key !in After(EMPTY, steps).rows
    ensures InFlight(After(EMPTY, steps), key) || key in FailedCompensations(EMPTY, steps)
  {
    EveryOrphanIsExplained(steps, key);
    LeaksAreFailedCompensations(EMPTY, steps);
  }

  // ---------- One sweep ----------

  /** Deleting a swept project leaves none of its versions' objects behind when no delete call kept a
      listed object and no version was committed after the listing. */
  lemma CleanSweepLeavesNothing(steps: seq<Step>, c: ProcessId)
    requires Legal(EMPTY, steps) && Enabled(After(EMPTY, steps), HardDelete(c))
    requires var st := After(EMPTY, steps);
      st.sweeps[c].kept == {} && RowsOf(st, st.sweeps[c].p) <= st.sweeps[c].listed
    ensures var st := After(EMPTY, steps); RowsOf(st, st.sweeps[c].p) * Apply(st, HardDelete(c)).objects == {}
  {
    RunKeepsInv(EMPTY, steps);
    var st := After(EMPTY, steps);
    assert SweepOk(st, st.sweeps[c]);
  }

  /** Were a commit reported failed after taking effect, the version would keep its object exactly
      when the compensating delete failed too: the safety above rests on commit errors being true. */
  lemma CommitErrorsMustBeTrue(st: State, u: ProcessId, deleted: bool)
    requires Inv(st) && IsInserted(st, u)
    ensures var key := st.uploads[u].key;
      var ambiguous := GiveUp(st, u).(rows := st.rows[key := st.uploads[u].p]);
      && Enabled(ambiguous, Compensate(u, deleted))
      && key in Apply(ambiguous, Compensate(u, deleted)).rows
      && (key in Apply(ambiguous, Compensate(u, deleted)).objects <==> !deleted)
  {
    assert UploadOk(st, st.uploads[u]);
  }
}
