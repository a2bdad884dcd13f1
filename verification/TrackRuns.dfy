/** Runs that show the limits of what is proved of uploads and cleanups. */
module TrackRuns {
  import opened Basics
  import opened JobTable
  import opened TrackStorage
  import opened TrackSafety

  const KEY := "tracks/u/t/v1-x"

  ghost predicate RunTo(steps: seq<Step>, st: State) {
    Legal(EMPTY, steps) && After(EMPTY, steps) == st
  }

  lemma Move(steps: seq<Step>, st: State, step: Step, next: State) returns (longer: seq<Step>)
    requires RunTo(steps, st) && Enabled(st, step) && Apply(st, step) == next
    ensures RunTo(longer, next)
    ensures longer == steps + [step]
  {
    Snoc(EMPTY, steps, step);
    longer := steps + [step];
  }

  /** Project 0 exists. */
  const CREATED := EMPTY.(projects := map[0 := Live], created := {0})

  lemma ReachCreated() returns (steps: seq<Step>)
    ensures RunTo(steps, CREATED)
  {
    steps := Move([], EMPTY, CreateProject(0), CREATED);
  }

  lemma StoreKey(steps: seq<Step>, st: State) returns (longer: seq<Step>)
    requires RunTo(steps, st) && 0 !in st.uploads && KEY !in st.minted
    ensures RunTo(longer, st.(objects := st.objects + {KEY}, uploads := st.uploads[0 := Stored(0, KEY)],
                              minted := st.minted + {KEY}, flying := st.flying[KEY := 0]))
  {
    longer := Move(steps, st, Put(0, 0, KEY), Apply(st, Put(0, 0, KEY)));
  }

  lemma CommitKey(steps: seq<Step>, st: State) returns (longer: seq<Step>)
    requires RunTo(steps, st) && st.uploads == map[0 := Stored(0, KEY)] && 0 in st.projects
    ensures RunTo(longer, st.(uploads := map[], flying := st.flying - {KEY}, rows := st.rows[KEY := 0]))
  {
    var inserted := st.(uploads := map[0 := Inserted(0, KEY)]);
    longer := Move(steps, st, Insert(0), inserted);
    var committed := st.(uploads := map[], flying := st.flying - {KEY}, rows := st.rows[KEY := 0]);
    longer := Move(longer, inserted, Commit(0), committed);
  }

  /** An upload that nothing disturbs. */
  lemma UploadKey(steps: seq<Step>, st: State) returns (longer: seq<Step>)
    requires RunTo(steps, st) && st.uploads == map[] && st.flying == map[] && 0 in st.projects && KEY !in st.minted
    ensures RunTo(longer, st.(objects := st.objects + {KEY}, rows := st.rows[KEY := 0], minted := st.minted + {KEY}))
  {
    longer := StoreKey(steps, st);
    var stored := st.(objects := st.objects + {KEY}, uploads := map[0 := Stored(0, KEY)],
                      minted := st.minted + {KEY}, flying := map[KEY := 0]);
    longer := CommitKey(longer, stored);
  }

  lemma QueuedOne(now: int)
    ensures Queued(map[], {KEY}, now) == map[KEY := [NewJob(now)]]
    ensures Queued(map[], {}, now) == map[]
  {
    var q, one := Queued(map[], {KEY}, now), map[KEY := [NewJob(now)]];
    assert q.Keys == {KEY} == one.Keys;
    assert q[KEY] == [] + one[KEY] == one[KEY];
  }

  /** The state with its only job as given. */
  function With(st: State, job: QueuedJob): State {
    st.(jobs := map[KEY := [job]])
  }

  /** A worker moves the only job on. */
  lemma MoveJob(steps: seq<Step>, st: State, job: QueuedJob, step: Step) returns (longer: seq<Step>, next: QueuedJob)
    requires RunTo(steps, With(st, job)) && Enabled(With(st, job), step)
    requires IsCleanupStep(step) && step.key == KEY && step.n == 0
    ensures step.ClaimCleanup? ==> next == QueuedJob(job.row.(status := Processing), Waiting)
    ensures step.TryDelete? ==> next == job.(hold := Tried(step.ok))
    ensures step.MarkCleanup? ==> job.hold.Tried? && next == Marked(job)
    ensures step.LoseCleanup? ==> next == job.(hold := Lost)
    ensures var removed := step.TryDelete? && step.removed;
      RunTo(longer, With(st.(objects := if removed then st.objects - {KEY} else st.objects), next))
  {
    CleanupStepMovesJob(With(st, job), step);
    next := NextJob(With(st, job), step).0;
    assert [job][0 := next] == [next];
    assert With(st, job).jobs[KEY := [next]] == map[KEY := [next]];
    Snoc(EMPTY, steps, step);
    longer := steps + [step];
  }

  /** A version has been committed and its project deleted at once. */
  const DELETED := CREATED.(
    projects := map[0 := SoftDeleted(0)], objects := {KEY}, rows := map[KEY := 0], minted := {KEY}, trashed := {0})

  lemma ReachDeleted() returns (steps: seq<Step>)
    ensures RunTo(steps, With(DELETED, NewJob(0)))
  {
    steps := ReachCreated();
    steps := UploadKey(steps, CREATED);
    var uploaded := CREATED.(objects := {KEY}, rows := map[KEY := 0], minted := {KEY});
    assert RowsOf(uploaded, 0) == {KEY};
    QueuedOne(0);
    steps := Move(steps, uploaded, SoftDelete(0), With(DELETED, NewJob(0)));
  }

  /** A project is deleted by mistake and restored in the same second: it is live, its version is
      committed, and the version's object is gone. Nothing failed. */
  lemma RestoredProjectLacksItsObject() returns (steps: seq<Step>, st: State)
    ensures RunTo(steps, st) && st.now == 0
    ensures st.projects == map[0 := Live] && st.rows == map[KEY := 0] && st.objects == {}
  {
    var job;
    steps := ReachDeleted();
    steps, job := MoveJob(steps, DELETED, NewJob(0), ClaimCleanup(KEY, 0));
    steps, job := MoveJob(steps, DELETED, job, TryDelete(KEY, 0, true, true));
    var emptied := DELETED.(objects := {});
    assert {KEY} - {KEY} == {};
    steps, job := MoveJob(steps, emptied, job, MarkCleanup(KEY, 0));
    st := With(emptied, job).(projects := map[0 := Live], restored := {0});
    steps := Move(steps, With(emptied, job), Restore(0), st);
  }

  lemma GraceAtDeleted(steps: seq<Step>, job: QueuedJob)
    requires RunTo(steps, With(DELETED, job))
    ensures GraceHolds(With(DELETED, job), KEY, 0, 0) <==> !MayStillDelete(job)
  {
    var st := With(DELETED, job);
    assert st.jobs[KEY] == [job] && st.jobs[KEY][0] == job;
    assert HasLiveJob(st, KEY) <==> MayStillDelete(job);
    GraceProtects(steps, KEY, 0);
  }

  /** A claimed job is in nobody's table but `processing`, whether its worker is about to delete or has
      died: the same tables, the same objects, and the version is protected in the one case and not in the
      other. */
  lemma ClaimedJobsLookAlike() returns (atWork: seq<Step>, died: seq<Step>, live: QueuedJob, lost: QueuedJob)
    ensures RunTo(atWork, With(DELETED, live)) && RunTo(died, With(DELETED, lost))
    ensures live.row == lost.row && live.row.status == Processing
    ensures !GraceHolds(With(DELETED, live), KEY, 0, 0) && GraceHolds(With(DELETED, lost), KEY, 0, 0)
  {
    var queued := ReachDeleted();
    atWork, live := MoveJob(queued, DELETED, NewJob(0), ClaimCleanup(KEY, 0));
    died, lost := MoveJob(atWork, DELETED, live, LoseCleanup(KEY, 0));
    GraceAtDeleted(atWork, live);
    GraceAtDeleted(died, lost);
  }

  /** Project 0 was deleted more than thirty days ago. */
  const EXPIRED := CREATED.(now := GRACE + 1, projects := map[0 := SoftDeleted(0)], trashed := {0})

  lemma ReachExpired() returns (steps: seq<Step>)
    ensures RunTo(steps, EXPIRED)
  {
    steps := ReachCreated();
    var deleted := CREATED.(projects := map[0 := SoftDeleted(0)], trashed := {0});
    QueuedOne(0);
    assert RowsOf(CREATED, 0) == {};
    steps := Move(steps, CREATED, SoftDelete(0), deleted);
    steps := Move(steps, deleted, Tick(GRACE + 1), EXPIRED);
  }

  /** A sweep has just listed its versions, of which there are none. */
  const LISTED := EXPIRED.(sweeps := map[0 := Flushing(0, {}, [], {}, [])])

  lemma ReachListed() returns (steps: seq<Step>)
    ensures RunTo(steps, LISTED)
  {
    steps := ReachExpired();
    var visiting := EXPIRED.(sweeps := map[0 := Visiting([0])]);
    steps := Move(steps, EXPIRED, StartSweep(0, [0]), visiting);
    assert RowsOf(visiting, 0) == (set k: Key | k in []) == {} && [0][1..] == [];
    steps := Move(steps, visiting, ListVersions(0, []), LISTED);
  }

  /** A version has been committed since. */
  const LATE := LISTED.(objects := {KEY}, rows := map[KEY := 0], minted := {KEY})

  /** The project and its row are gone, and the object is there. */
  const LEFT := LATE.(
    projects := map[], rows := map[], detached := map[KEY := RowDeleted], sweeps := map[0 := Visiting([])])

  lemma DeletingLate()
    ensures Enabled(LATE, HardDelete(0)) && Apply(LATE, HardDelete(0)) == With(LEFT, NewJob(GRACE + 1))
  {
    QueuedOne(GRACE + 1);
    assert RowsOf(LATE, 0) == {KEY} && LATE.rows - {KEY} == map[] && LATE.projects - {0} == map[];
    assert RowsDeleted({KEY}) == map[KEY := RowDeleted];
    assert LATE.sweeps[0 := Visiting([])] == map[0 := Visiting([])];
  }

  lemma ReachQueued() returns (steps: seq<Step>)
    ensures RunTo(steps, With(LEFT, NewJob(GRACE + 1)))
  {
    steps := ReachListed();
    steps := UploadKey(steps, LISTED);
    assert LISTED.rows[KEY := 0] == map[KEY := 0];
    DeletingLate();
    steps := Move(steps, LATE, HardDelete(0), With(LEFT, NewJob(GRACE + 1)));
  }

  /** With its job in that state, the object stays for good exactly when the job may not delete any more. */
  lemma JobDecides(steps: seq<Step>, job: QueuedJob)
    requires RunTo(steps, With(LEFT, job))
    ensures StaysForever(With(LEFT, job), KEY) <==> !MayStillDelete(job)
  {
    var st := With(LEFT, job);
    assert st.jobs[KEY] == [job] && st.jobs[KEY][0] == job;
    assert HasLiveJob(st, KEY) <==> MayStillDelete(job);
    OrphanStays(steps, KEY);
  }

  /** A version committed between the listing and the project's deletion: nothing failed, its object
      outlives both, and one cleanup job, which can still remove it, is queued for it. */
  lemma LateCommitIsQueued() returns (steps: seq<Step>, st: State)
    ensures RunTo(steps, st)
    ensures st.uploads == map[] && st.rows == map[] && st.projects == map[] && st.objects == {KEY}
    ensures st.jobs == map[KEY := [NewJob(GRACE + 1)]]
    ensures !StaysForever(st, KEY)
  {
    steps := ReachQueued();
    st := With(LEFT, NewJob(GRACE + 1));
    JobDecides(steps, NewJob(GRACE + 1));
  }

  /** An attempt at the job fails and is marked. */
  lemma FailCleanup(steps: seq<Step>, job: QueuedJob) returns (longer: seq<Step>, next: QueuedJob)
    requires RunTo(steps, With(LEFT, job)) && job.hold == Nobody && IsClaimable(job.row)
    ensures RunTo(longer, With(LEFT, next)) && next == QueuedJob(FailRow(job.row), Nobody)
  {
    longer, next := MoveJob(steps, LEFT, job, ClaimCleanup(KEY, 0));
    longer, next := MoveJob(longer, LEFT, next, TryDelete(KEY, 0, false, false));
    longer, next := MoveJob(longer, LEFT, next, MarkCleanup(KEY, 0));
  }

  /** When that job's three attempts fail, the object stays for good. */
  lemma LateCommitCanStay() returns (steps: seq<Step>, st: State)
    ensures RunTo(steps, st) && st.rows == map[] && KEY in st.objects && StaysForever(st, KEY)
  {
    var job;
    steps := ReachQueued();
    steps, job := FailCleanup(steps, NewJob(GRACE + 1));
    steps, job := FailCleanup(steps, job);
    steps, job := FailCleanup(steps, job);
    st := With(LEFT, job);
    JobDecides(steps, job);
  }
}
