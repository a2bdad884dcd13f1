/** Track uploads, project deletions and the two kinds of cleanup, over the object store and the tables
    `projects`, `track_versions` and `background_jobs`.

    Everything that any number of processes do is an interleaved atomic step. An upload stores its object
    first, then inserts and commits its row, and deletes the object when a database step fails. Triggers
    queue a `cleanup_r2_file` job for each version of a project that is soft-deleted and for each version
    row that is deleted. A worker claims a job, deletes its object, and marks the job, in three steps. A
    sweep deletes the objects of projects soft-deleted more than thirty days ago in batches and then
    deletes those projects, whose rows cascade. Erasing an account deletes its projects and tracks without
    a sweep, and a project that is only soft-deleted can be restored. */
module TrackStorage {
  import opened JobTable

  type Key = string
  type ProjectId = nat
  type ProcessId = nat

  const BATCH_SIZE := 100
  const GRACE := 30 * 24 * 60 * 60

  datatype Project = Live | SoftDeleted(at: int)

  /** An upload between its first write and its reply. */
  datatype Upload =
    | Stored(p: ProjectId, key: Key)
    | Inserted(p: ProjectId, key: Key)
    | Compensating(p: ProjectId, key: Key)

  /** A sweep: the projects it has yet to visit, and the project whose listed keys it is deleting.
      `kept` are listed keys a delete call left in place. */
  datatype Sweep =
    | Visiting(todo: seq<ProjectId>)
    | Flushing(p: ProjectId, listed: set<Key>, keys: seq<Key>, kept: set<Key>, todo: seq<ProjectId>)

  /** Why an object may be without a row and without an upload. */
  datatype Reason = CompensationFailed | UploadCrashed | PutReportedFailed | RowDeleted

  /** Who has a cleanup job that is `processing`: a live worker, which has yet to make the delete call or has
      had its answer, or nobody any more, the worker having died or the mark having failed. */
  datatype Hold = Nobody | Waiting | Tried(ok: bool) | Lost

  /** A row of `background_jobs` and who holds it; the tables show the row only. */
  datatype QueuedJob = QueuedJob(row: Row, hold: Hold)

  /** A version row is named by its object key, which is minted fresh together with the row's id. `jobs`
      are the cleanup jobs, by the key they name. `minted` and `created` remember every key and project id
      handed out; `trashed` and `restored` (projects ever soft-deleted and ever restored), `flying` (which
      upload answers for a key) and `detached` are bookkeeping that no step reads. */
  datatype State = State(
    now: int, projects: map<ProjectId, Project>, rows: map<Key, ProjectId>, objects: set<Key>,
    jobs: map<Key, seq<QueuedJob>>, uploads: map<ProcessId, Upload>, sweeps: map<ProcessId, Sweep>,
    minted: set<Key>, created: set<ProjectId>, trashed: set<ProjectId>, restored: set<ProjectId>,
    flying: map<Key, ProcessId>, detached: map<Key, Reason>)

  datatype Step =
    | Tick(d: nat)
    | CreateProject(p: ProjectId)
    | SoftDelete(p: ProjectId)
    | Restore(p: ProjectId)
    | EraseAccount(owned: set<ProjectId>, authored: set<Key>)
    | Put(u: ProcessId, p: ProjectId, key: Key)
    | PutFails(key: Key, storedAnyway: bool)
    | BeginFails(u: ProcessId)
    | Insert(u: ProcessId)
    | InsertFails(u: ProcessId)
    | Commit(u: ProcessId)
    | CommitFails(u: ProcessId)
    | Compensate(u: ProcessId, deleted: bool)
    | UploadCrash(u: ProcessId)
    | ClaimCleanup(key: Key, n: nat)
    | TryDelete(key: Key, n: nat, removed: bool, ok: bool)
    | MarkCleanup(key: Key, n: nat)
    | LoseCleanup(key: Key, n: nat)
    | StartSweep(c: ProcessId, todo: seq<ProjectId>)
    | ListVersions(c: ProcessId, keys: seq<Key>)
    | ListFails(c: ProcessId)
    | Flush(c: ProcessId, kept: set<Key>)
    | HardDelete(c: ProcessId)
    | HardDeleteFails(c: ProcessId)
    | EndSweep(c: ProcessId)

  const EMPTY := State(0, map[], map[], {}, map[], map[], map[], {}, {}, {}, {}, map[], map[])

  /** A key a cleanup job accepts. Keys of tracks are a prefix and three UUIDs, well within the limits. */
  predicate IsUsable(key: Key) {
    10 <= |key| <= 1024
  }

  /** Soft-deleted for longer than the grace period, or gone altogether. */
  predicate Purgeable(st: State, p: ProjectId) {
    p in st.created && (p in st.projects ==> st.projects[p].SoftDeleted? && st.projects[p].at < st.now - GRACE)
  }

  function RowsOf(st: State, p: ProjectId): set<Key> {
    set k | k in st.rows && st.rows[k] == p
  }

  function NextBatch(keys: seq<Key>): seq<Key> {
    if |keys| < BATCH_SIZE then keys else keys[..BATCH_SIZE]
  }

  predicate IsStored(st: State, u: ProcessId) {
    u in st.uploads && st.uploads[u].Stored?
  }

  predicate IsInserted(st: State, u: ProcessId) {
    u in st.uploads && st.uploads[u].Inserted?
  }

  predicate IsCompensating(st: State, u: ProcessId) {
    u in st.uploads && st.uploads[u].Compensating?
  }

  /** No transaction that has inserted a version of one of these projects is open. */
  predicate NoneOpen(st: State, ps: set<ProjectId>) {
    forall u :: u in st.uploads && st.uploads[u].Inserted? ==> st.uploads[u].p !in ps
  }

  /** Job `n` for the key exists and is held so. */
  predicate IsHeld(st: State, key: Key, n: nat, hold: Hold) {
    key in st.jobs && n < |st.jobs[key]| && st.jobs[key][n].hold == hold
  }

  predicate IsClaimable(row: Row) {
    row.status == Pending && row.attempts < row.maxAttempts
  }

  /** A step of an upload that has stored its object. */
  predicate IsUploadStep(step: Step) {
    || step.BeginFails? || step.Insert? || step.InsertFails? || step.Commit? || step.CommitFails?
    || step.Compensate? || step.UploadCrash?
  }

  /** A step of a sweep. */
  predicate IsSweepStep(step: Step) {
    || step.StartSweep? || step.ListVersions? || step.ListFails? || step.Flush? || step.HardDelete?
    || step.HardDeleteFails? || step.EndSweep?
  }

  /** A step of a worker with a cleanup job. */
  predicate IsCleanupStep(step: Step) {
    step.ClaimCleanup? || step.TryDelete? || step.MarkCleanup? || step.LoseCleanup?
  }

  ghost predicate Enabled(st: State, step: Step) {
    match step
    case Tick(_) => true
    case CreateProject(p) => p !in st.created
    case SoftDelete(p) => p in st.projects && st.projects[p].Live?
    case Restore(p) => p in st.projects && st.projects[p].SoftDeleted?
    case EraseAccount(owned, authored) => owned <= st.projects.Keys && authored <= st.rows.Keys && NoneOpen(st, owned)
    case Put(u, p, key) => u !in st.uploads && key !in st.minted && IsUsable(key)
    case PutFails(key, _) => key !in st.minted && IsUsable(key)
    case BeginFails(u) => IsStored(st, u)
    case Insert(u) => IsStored(st, u) && st.uploads[u].p in st.projects
    case InsertFails(u) => IsStored(st, u)
    case Commit(u) => IsInserted(st, u)
    case CommitFails(u) => IsInserted(st, u)
    case Compensate(u, _) => IsCompensating(st, u)
    case UploadCrash(u) => u in st.uploads
    case ClaimCleanup(key, n) => IsHeld(st, key, n, Nobody) && IsClaimable(st.jobs[key][n].row)
    case TryDelete(key, n, removed, ok) =>
      IsHeld(st, key, n, Waiting) && (ok ==> removed) && (removed ==> IsUsable(key))
    case MarkCleanup(key, n) => IsHeld(st, key, n, Tried(true)) || IsHeld(st, key, n, Tried(false))
    case LoseCleanup(key, n) =>
      IsHeld(st, key, n, Waiting) || IsHeld(st, key, n, Tried(true)) || IsHeld(st, key, n, Tried(false))
    case StartSweep(c, todo) => c !in st.sweeps && forall p <- todo :: p in st.projects && Purgeable(st, p)
    case ListVersions(c, keys) =>
      && c in st.sweeps && st.sweeps[c].Visiting? && st.sweeps[c].todo != []
      && (set k | k in keys) == RowsOf(st, st.sweeps[c].todo[0])
    case ListFails(c) => c in st.sweeps && st.sweeps[c].Visiting? && st.sweeps[c].todo != []
    case Flush(c, kept) =>
      && c in st.sweeps && st.sweeps[c].Flushing? && st.sweeps[c].keys != []
      && forall k <- kept :: k in NextBatch(st.sweeps[c].keys)
    case HardDelete(c) =>
      c in st.sweeps && st.sweeps[c].Flushing? && st.sweeps[c].keys == [] && NoneOpen(st, {st.sweeps[c].p})
    case HardDeleteFails(c) => c in st.sweeps && st.sweeps[c].Flushing? && st.sweeps[c].keys == []
    case EndSweep(c) => c in st.sweeps
  }

  function NewJob(now: int): QueuedJob {
    QueuedJob(NewRow("cleanup_r2_file", 3, now), Nobody)
  }

  /** A new cleanup job for each of the keys. */
  function Queued(jobs: map<Key, seq<QueuedJob>>, keys: set<Key>, now: int): map<Key, seq<QueuedJob>> {
    map k | k in jobs.Keys + keys :: (if k in jobs then jobs[k] else []) + if k in keys then [NewJob(now)] else []
  }

  /** Whether the delete call succeeded decides how its job is marked. */
  function Marked(job: QueuedJob): QueuedJob
    requires job.hold.Tried?
  {
    QueuedJob(if job.hold.ok then CompleteRow(job.row) else FailRow(job.row), Nobody)
  }

  function RowsDeleted(gone: set<Key>): map<Key, Reason> {
    map k | k in gone :: RowDeleted
  }

  /** The rows are deleted, only `projects` are left, and the delete trigger queues the rows' objects. */
  function RemoveRows(st: State, gone: set<Key>, projects: map<ProjectId, Project>): State {
    st.(rows := st.rows - gone, projects := projects, jobs := Queued(st.jobs, gone, st.now),
        detached := st.detached + RowsDeleted(gone))
  }

  /** The objects one delete call removes. */
  function Dropped(sweep: Sweep, kept: set<Key>): set<Key>
    requires sweep.Flushing?
  {
    (set k | k in NextBatch(sweep.keys)) - kept
  }

  /** The sweep after that call. */
  function Flushed(sweep: Sweep, kept: set<Key>): Sweep
    requires sweep.Flushing?
  {
    sweep.(keys := sweep.keys[|NextBatch(sweep.keys)|..], kept := sweep.kept + kept)
  }

  /** The rows of the projects, and others. */
  function RowsOfAll(st: State, owned: set<ProjectId>, authored: set<Key>): set<Key> {
    (set k | k in st.rows && st.rows[k] in owned) + authored
  }

  ghost function Apply(st: State, step: Step): State
    requires Enabled(st, step)
  {
    match step
    case Tick(d) => st.(now := st.now + d)
    case CreateProject(p) => st.(projects := st.projects[p := Live], created := st.created + {p})
    case SoftDelete(p) => Trash(st, p)
    case Restore(p) => st.(projects := st.projects[p := Live], restored := st.restored + {p})
    case EraseAccount(owned, authored) => RemoveRows(st, RowsOfAll(st, owned, authored), st.projects - owned)
    case Put(u, p, key) => Store(st, u, p, key)
    case PutFails(key, storedAnyway) => if storedAnyway then StoredAnyway(st, key) else st.(minted := st.minted + {key})
    case BeginFails(u) => GiveUp(st, u)
    case Insert(u) => st.(uploads := st.uploads[u := Inserted(st.uploads[u].p, st.uploads[u].key)])
    case InsertFails(u) => GiveUp(st, u)
    case Commit(u) => Committed(st, u)
    case CommitFails(u) => GiveUp(st, u)
    case Compensate(u, deleted) => if deleted then Compensated(st, u) else Abandoned(st, u, CompensationFailed)
    case UploadCrash(u) => Abandoned(st, u, UploadCrashed)
    case ClaimCleanup(key, n) =>
      WithJob(st, key, n, QueuedJob(st.jobs[key][n].row.(status := Processing), Waiting), false)
    case TryDelete(key, n, removed, ok) => WithJob(st, key, n, st.jobs[key][n].(hold := Tried(ok)), removed)
    case MarkCleanup(key, n) => WithJob(st, key, n, Marked(st.jobs[key][n]), false)
    case LoseCleanup(key, n) => WithJob(st, key, n, st.jobs[key][n].(hold := Lost), false)
    case StartSweep(c, todo) => st.(sweeps := st.sweeps[c := Visiting(todo)])
    case ListVersions(c, keys) =>
      var todo := st.sweeps[c].todo;
      st.(sweeps := st.sweeps[c := Flushing(todo[0], (set k | k in keys), keys, {}, todo[1..])])
    case ListFails(c) => st.(sweeps := st.sweeps[c := Visiting(st.sweeps[c].todo[1..])])
    case Flush(c, kept) =>
      st.(objects := st.objects - Dropped(st.sweeps[c], kept),
          sweeps := st.sweeps[c := Flushed(st.sweeps[c], kept)])
    case HardDelete(c) =>
      var sweep := st.sweeps[c];
      RemoveRows(st, RowsOf(st, sweep.p), st.projects - {sweep.p}).(sweeps := st.sweeps[c := Visiting(sweep.todo)])
    case HardDeleteFails(c) => st.(sweeps := st.sweeps[c := Visiting(st.sweeps[c].todo)])
    case EndSweep(c) => st.(sweeps := st.sweeps - {c})
  }

  function Trash(st: State, p: ProjectId): State {
    st.(projects := st.projects[p := SoftDeleted(st.now)], jobs := Queued(st.jobs, RowsOf(st, p), st.now),
        trashed := st.trashed + {p})
  }

  function Store(st: State, u: ProcessId, p: ProjectId, key: Key): State {
    st.(objects := st.objects + {key}, uploads := st.uploads[u := Stored(p, key)], minted := st.minted + {key},
        flying := st.flying[key := u])
  }

  /** Job `n` for the key moves on, and its object may be removed. */
  function WithJob(st: State, key: Key, n: nat, job: QueuedJob, removed: bool): State
    requires key in st.jobs && n < |st.jobs[key]|
  {
    st.(objects := if removed then st.objects - {key} else st.objects,
        jobs := st.jobs[key := st.jobs[key][n := job]])
  }

  /** The object of a write reported failed, stored nevertheless. */
  function StoredAnyway(st: State, key: Key): State {
    st.(objects := st.objects + {key}, minted := st.minted + {key}, detached := st.detached[key := PutReportedFailed])
  }

  /** A database step failed: the handler turns to deleting the object it stored. */
  function GiveUp(st: State, u: ProcessId): State
    requires u in st.uploads
  {
    st.(uploads := st.uploads[u := Compensating(st.uploads[u].p, st.uploads[u].key)])
  }

  /** The upload is over. */
  function Gone(st: State, u: ProcessId): State
    requires u in st.uploads
  {
    st.(uploads := st.uploads - {u}, flying := st.flying - {st.uploads[u].key})
  }

  function Compensated(st: State, u: ProcessId): State
    requires u in st.uploads
  {
    Gone(st, u).(objects := st.objects - {st.uploads[u].key})
  }

  function Abandoned(st: State, u: ProcessId, why: Reason): State
    requires u in st.uploads
  {
    Gone(st, u).(detached := st.detached[st.uploads[u].key := why])
  }

  function Committed(st: State, u: ProcessId): State
    requires u in st.uploads
  {
    Gone(st, u).(rows := st.rows[st.uploads[u].key := st.uploads[u].p])
  }

  ghost predicate Legal(st: State, steps: seq<Step>)
    decreases |steps|
  {
    steps == [] || (Enabled(st, steps[0]) && Legal(Apply(st, steps[0]), steps[1..]))
  }

  ghost function After(st: State, steps: seq<Step>): State
    requires Legal(st, steps)
    decreases |steps|
  {
    if steps == [] then st else After(Apply(st, steps[0]), steps[1..])
  }

  // ---------- The invariant ----------

  /** A row without its object is of a project that was soft-deleted at some time. */
  ghost predicate RowsHaveObjects(st: State) {
    forall k :: k in st.rows && k !in st.objects ==> st.rows[k] in st.trashed
  }

  ghost predicate RowsOk(st: State) {
    && (forall k :: k in st.rows ==> k in st.minted && st.rows[k] in st.projects && k !in st.detached)
    && (forall k :: k in st.minted ==> IsUsable(k))
  }

  ghost predicate ProjectsOk(st: State) {
    && (forall p :: p in st.projects ==> p in st.created)
    && (forall p :: p in st.projects && st.projects[p].SoftDeleted? ==> p in st.trashed)
    && (forall p :: p in st.projects && st.projects[p].Live? && p in st.trashed ==> p in st.restored)
    && st.trashed <= st.created
  }

  ghost predicate UploadsOk(st: State) {
    && (forall u :: u in st.uploads ==> UploadOk(st, st.uploads[u]))
    && (forall u :: u in st.uploads ==> st.uploads[u].key in st.flying && st.flying[st.uploads[u].key] == u)
    && (forall k :: k in st.flying ==> st.flying[k] in st.uploads && st.uploads[st.flying[k]].key == k)
  }

  ghost predicate UploadOk(st: State, x: Upload) {
    && x.key in st.minted && x.key in st.objects && x.key !in st.rows && x.key !in st.jobs && x.key !in st.detached
    && (x.Inserted? ==> x.p in st.projects)
  }

  ghost predicate JobsOk(st: State) {
    forall k :: k in st.jobs ==> JobOk(st, k)
  }

  /** Only objects of projects once soft-deleted, or of deleted rows, are queued; a job that succeeded has
      removed its object. */
  ghost predicate JobOk(st: State, k: Key)
    requires k in st.jobs
  {
    && k in st.minted && st.jobs[k] != []
    && (if k in st.rows then st.rows[k] in st.trashed else k in st.detached && st.detached[k] == RowDeleted)
    && forall n :: 0 <= n < |st.jobs[k]| ==> HoldOk(st.jobs[k][n], k in st.objects)
  }

  /** A job is held exactly while it is `processing`, has attempts left until its last failure, and is
      not known to have succeeded while its object is there. */
  ghost predicate HoldOk(job: QueuedJob, present: bool) {
    && (job.hold == Nobody <==> job.row.status != Processing)
    && (job.row.status == Pending || job.row.status == Processing ==> job.row.attempts < job.row.maxAttempts)
    && (job.row.status == Completed || job.hold == Tried(true) ==> !present)
  }

  /** What a sweep may visit. */
  ghost predicate Swept(st: State, p: ProjectId) {
    p in st.trashed && (p !in st.restored ==> Purgeable(st, p))
  }

  ghost predicate SweepsOk(st: State) {
    forall c :: c in st.sweeps ==> SweepOk(st, st.sweeps[c])
  }

  ghost predicate SweepOk(st: State, sweep: Sweep) {
    && (forall p <- sweep.todo :: Swept(st, p))
    && (sweep.Flushing? ==>
          && Swept(st, sweep.p)
          && (forall k <- sweep.keys :: k in sweep.listed)
          && (forall k <- sweep.listed :: ListedOk(st, sweep.p, k))
          && (forall k <- sweep.listed :: k in st.objects ==> k in sweep.keys || k in sweep.kept))
  }

  /** A listed key belongs to a row of the project, or to one deleted since. */
  ghost predicate ListedOk(st: State, p: ProjectId, k: Key) {
    k in st.minted && if k in st.rows then st.rows[k] == p else k in st.detached && st.detached[k] == RowDeleted
  }

  /** Every object has a row, an upload still responsible for it, or a known reason to be without. */
  ghost predicate ObjectsOk(st: State) {
    && (forall k :: k in st.objects ==> k in st.minted && (k in st.rows || k in st.flying || k in st.detached))
    && (forall k :: k in st.detached ==> DetachedOk(st, k))
  }

  ghost predicate DetachedOk(st: State, k: Key)
    requires k in st.detached
  {
    k in st.minted && k !in st.rows && k !in st.flying && (k in st.jobs <==> st.detached[k] == RowDeleted)
  }

  /** What the tables and the uploads say of each other. */
  ghost predicate TablesOk(st: State) {
    RowsHaveObjects(st) && RowsOk(st) && ProjectsOk(st) && UploadsOk(st)
  }

  /** What the cleanups say, and what every object is kept for. */
  ghost predicate CleanupsOk(st: State) {
    JobsOk(st) && SweepsOk(st) && ObjectsOk(st)
  }

  ghost predicate Inv(st: State) {
    TablesOk(st) && CleanupsOk(st)
  }

  // ---------- Every step keeps it ----------

  lemma TickKeepsInv(st: State, step: Step)
    requires Inv(st) && Enabled(st, step) && step.Tick?
    ensures Inv(Apply(st, step))
  {
  }

  lemma CreateProjectKeepsInv(st: State, step: Step)
    requires Inv(st) && Enabled(st, step) && step.CreateProject?
    ensures Inv(Apply(st, step))
  {
  }

  /** Jobs queued for rows of trashed projects, or for rows deleted at the same time. */
  lemma QueuedJobsAreOk(st: State, st': State, keys: set<Key>)
    requires JobsOk(st) && st'.jobs == Queued(st.jobs, keys, st.now) && st'.minted == st.minted
    requires st'.objects == st.objects && keys <= st.minted
    requires forall k :: k in st'.jobs ==>
      if k in st'.rows then st'.rows[k] in st'.trashed else k in st'.detached && st'.detached[k] == RowDeleted
    ensures JobsOk(st')
  {
    forall k | k in st'.jobs ensures JobOk(st', k) {
      assert k in st.jobs ==> JobOk(st, k);
    }
  }

  lemma SoftDeleteKeepsInv(st: State, step: Step)
    requires Inv(st) && Enabled(st, step) && step.SoftDelete?
    ensures Inv(Apply(st, step))
  {
    var st' := Apply(st, step);
    assert RowsHaveObjects(st') && RowsOk(st') && ProjectsOk(st');
    forall k | k in st'.jobs && k !in st.jobs ensures k in RowsOf(st, step.p) {
    }
    forall k | k in st.jobs
      ensures if k in st.rows then st.rows[k] in st.trashed else k in st.detached && st.detached[k] == RowDeleted
    {
      assert JobOk(st, k);
    }
    QueuedJobsAreOk(st, st', RowsOf(st, step.p));
    assert UploadsOk(st');
    assert SweepsOk(st');
    forall k | k in st'.detached ensures DetachedOk(st', k) {
      assert DetachedOk(st, k);
    }
  }

  lemma RestoreKeepsInv(st: State, step: Step)
    requires Inv(st) && Enabled(st, step) && step.Restore?
    ensures Inv(Apply(st, step))
  {
    var st' := Apply(st, step);
    assert RowsHaveObjects(st') && RowsOk(st') && ProjectsOk(st');
    assert UploadsOk(st') && JobsOk(st') && ObjectsOk(st');
    assert SweepsOk(st');
  }

  lemma RemovedRowsKeepJobs(st: State, gone: set<Key>, projects: map<ProjectId, Project>)
    requires Inv(st) && gone <= st.rows.Keys
    ensures JobsOk(RemoveRows(st, gone, projects))
  {
    var st' := RemoveRows(st, gone, projects);
    forall k | k in st'.jobs
      ensures if k in st'.rows then st'.rows[k] in st'.trashed else k in st'.detached && st'.detached[k] == RowDeleted
    {
      assert k in st.jobs ==> JobOk(st, k);
    }
    QueuedJobsAreOk(st, st', gone);
  }

  lemma RemovedRowsKeepSweeps(st: State, gone: set<Key>, projects: map<ProjectId, Project>)
    requires Inv(st) && gone <= st.rows.Keys && projects.Keys <= st.projects.Keys
    requires forall p :: p in projects ==> projects[p] == st.projects[p]
    ensures SweepsOk(RemoveRows(st, gone, projects))
  {
    var st' := RemoveRows(st, gone, projects);
    forall p | Swept(st, p) ensures Swept(st', p) {
    }
    forall p, k | ListedOk(st, p, k) ensures ListedOk(st', p, k) {
    }
  }

  /** Deleting rows, with all the projects they leave without rows. */
  lemma RemovedRowsKeepInv(st: State, gone: set<Key>, projects: map<ProjectId, Project>)
    requires Inv(st) && gone <= st.rows.Keys && projects.Keys <= st.projects.Keys
    requires forall p :: p in projects ==> projects[p] == st.projects[p]
    requires forall k :: k in st.rows && k !in gone ==> st.rows[k] in projects
    requires NoneOpen(st, st.projects.Keys - projects.Keys)
    ensures Inv(RemoveRows(st, gone, projects))
  {
    var st' := RemoveRows(st, gone, projects);
    assert RowsHaveObjects(st') && RowsOk(st') && ProjectsOk(st');
    RemovedRowsKeepJobs(st, gone, projects);
    RemovedRowsKeepSweeps(st, gone, projects);
    assert UploadsOk(st');
    forall k | k in st'.detached ensures DetachedOk(st', k) {
      assert k in st.detached ==> DetachedOk(st, k);
    }
    assert ObjectsOk(st');
  }

  lemma EraseAccountKeepsInv(st: State, step: Step)
    requires Inv(st) && Enabled(st, step) && step.EraseAccount?
    ensures Inv(Apply(st, step))
  {
    RemovedRowsKeepInv(st, RowsOfAll(st, step.owned, step.authored), st.projects - step.owned);
  }

  lemma PutKeepsTables(st: State, step: Step)
    requires Inv(st) && Enabled(st, step) && step.Put?
    ensures TablesOk(Apply(st, step))
  {
    var st' := Apply(st, step);
    assert step.key !in st.jobs && step.key !in st.detached && step.key !in st.flying;
    assert RowsHaveObjects(st') && RowsOk(st') && ProjectsOk(st');
    assert UploadsOk(st');
  }

  lemma PutKeepsCleanups(st: State, step: Step)
    requires Inv(st) && Enabled(st, step) && step.Put?
    ensures CleanupsOk(Apply(st, step))
  {
    var st' := Apply(st, step);
    assert step.key !in st.jobs && step.key !in st.detached && step.key !in st.flying;
    forall k | k in st'.jobs ensures JobOk(st', k) {
      assert JobOk(st, k);
    }
    assert SweepsOk(st');
    assert ObjectsOk(st');
  }

  lemma PutKeepsInv(st: State, step: Step)
    requires Inv(st) && Enabled(st, step) && step.Put?
    ensures Inv(Apply(st, step))
  {
    PutKeepsTables(st, step);
    PutKeepsCleanups(st, step);
  }

  /** The upload moves to another phase and still answers for its object. */
  lemma ContinuingKeepsInv(st: State, u: ProcessId, next: Upload)
    requires Inv(st) && u in st.uploads && next.key == st.uploads[u].key
    requires next.Inserted? ==> next.p in st.projects
    ensures Inv(st.(uploads := st.uploads[u := next]))
  {
    var st' := st.(uploads := st.uploads[u := next]);
    assert RowsHaveObjects(st') && RowsOk(st') && ProjectsOk(st') && ObjectsOk(st');
    assert JobsOk(st') && SweepsOk(st');
    assert UploadsOk(st');
  }

  /** A write reported failed mints its key. */
  lemma MintingKeepsInv(st: State, key: Key)
    requires Inv(st) && key !in st.minted && IsUsable(key)
    ensures Inv(st.(minted := st.minted + {key}))
  {
    var st' := st.(minted := st.minted + {key});
    assert RowsHaveObjects(st') && RowsOk(st') && ProjectsOk(st') && ObjectsOk(st');
    assert JobsOk(st') && SweepsOk(st');
    assert UploadsOk(st');
  }

  lemma FailedPutKeepsTables(st: State, key: Key)
    requires Inv(st) && key !in st.minted && IsUsable(key)
    ensures TablesOk(StoredAnyway(st, key))
  {
    var st' := StoredAnyway(st, key);
    assert key !in st.jobs && key !in st.flying && key !in st.rows;
    assert RowsHaveObjects(st') && RowsOk(st') && ProjectsOk(st');
    assert UploadsOk(st');
  }

  lemma FailedPutKeepsCleanups(st: State, key: Key)
    requires Inv(st) && key !in st.minted && IsUsable(key)
    ensures CleanupsOk(StoredAnyway(st, key))
  {
    var st' := StoredAnyway(st, key);
    assert key !in st.jobs && key !in st.flying && key !in st.rows;
    forall k | k in st'.jobs ensures JobOk(st', k) {
      assert JobOk(st, k);
    }
    assert SweepsOk(st');
    assert ObjectsOk(st');
  }

  lemma FailedPutKeepsInv(st: State, key: Key)
    requires Inv(st) && key !in st.minted && IsUsable(key)
    ensures Inv(StoredAnyway(st, key))
  {
    FailedPutKeepsTables(st, key);
    FailedPutKeepsCleanups(st, key);
  }

  lemma CompensatedKeepsTables(st: State, u: ProcessId)
    requires Inv(st) && u in st.uploads
    ensures TablesOk(Compensated(st, u))
  {
    var st' := Compensated(st, u);
    assert UploadOk(st, st.uploads[u]);
    assert RowsHaveObjects(st') && RowsOk(st') && ProjectsOk(st');
    assert UploadsOk(st');
  }

  lemma CompensatedKeepsCleanups(st: State, u: ProcessId)
    requires Inv(st) && u in st.uploads
    ensures CleanupsOk(Compensated(st, u))
  {
    var st' := Compensated(st, u);
    assert UploadOk(st, st.uploads[u]);
    assert JobsOk(st');
    assert SweepsOk(st');
    assert ObjectsOk(st');
  }

  lemma CompensatedKeepsInv(st: State, u: ProcessId)
    requires Inv(st) && u in st.uploads
    ensures Inv(Compensated(st, u))
  {
    CompensatedKeepsTables(st, u);
    CompensatedKeepsCleanups(st, u);
  }

  lemma AbandonedKeepsTables(st: State, u: ProcessId, why: Reason)
    requires Inv(st) && u in st.uploads && why != RowDeleted
    ensures TablesOk(Abandoned(st, u, why))
  {
    var st' := Abandoned(st, u, why);
    assert UploadOk(st, st.uploads[u]);
    assert RowsHaveObjects(st') && RowsOk(st') && ProjectsOk(st');
    assert UploadsOk(st');
  }

  lemma AbandonedKeepsCleanups(st: State, u: ProcessId, why: Reason)
    requires Inv(st) && u in st.uploads && why != RowDeleted
    ensures CleanupsOk(Abandoned(st, u, why))
  {
    var st' := Abandoned(st, u, why);
    assert UploadOk(st, st.uploads[u]);
    forall k | k in st'.jobs ensures JobOk(st', k) {
      assert JobOk(st, k);
    }
    assert SweepsOk(st');
    assert ObjectsOk(st');
  }

  lemma AbandonedKeepsInv(st: State, u: ProcessId, why: Reason)
    requires Inv(st) && u in st.uploads && why != RowDeleted
    ensures Inv(Abandoned(st, u, why))
  {
    AbandonedKeepsTables(st, u, why);
    AbandonedKeepsCleanups(st, u, why);
  }

  lemma CommitKeepsTables(st: State, step: Step)
    requires Inv(st) && Enabled(st, step) && step.Commit?
    ensures TablesOk(Apply(st, step))
  {
    var st' := Apply(st, step);
    assert UploadOk(st, st.uploads[step.u]);
    assert RowsHaveObjects(st') && RowsOk(st') && ProjectsOk(st');
    assert UploadsOk(st');
  }

  lemma CommitKeepsCleanups(st: State, step: Step)
    requires Inv(st) && Enabled(st, step) && step.Commit?
    ensures CleanupsOk(Apply(st, step))
  {
    var st' := Apply(st, step);
    assert UploadOk(st, st.uploads[step.u]);
    forall k | k in st'.jobs ensures JobOk(st', k) {
      assert JobOk(st, k);
    }
    assert SweepsOk(st');
    assert ObjectsOk(st');
  }

  lemma CommitKeepsInv(st: State, step: Step)
    requires Inv(st) && Enabled(st, step) && step.Commit?
    ensures Inv(Apply(st, step))
  {
    CommitKeepsTables(st, step);
    CommitKeepsCleanups(st, step);
  }

  lemma MovingJobKeepsTables(st: State, key: Key, n: nat, job: QueuedJob, removed: bool)
    requires Inv(st) && key in st.jobs && n < |st.jobs[key]|
    ensures TablesOk(WithJob(st, key, n, job, removed))
  {
    var st' := WithJob(st, key, n, job, removed);
    assert JobOk(st, key);
    forall u | u in st'.uploads ensures UploadOk(st', st'.uploads[u]) {
      assert UploadOk(st, st.uploads[u]);
    }
    assert RowsHaveObjects(st') && RowsOk(st') && ProjectsOk(st');
    assert UploadsOk(st');
  }

  lemma MovingJobKeepsJobs(st: State, key: Key, n: nat, job: QueuedJob, removed: bool)
    requires Inv(st) && key in st.jobs && n < |st.jobs[key]|
    requires HoldOk(job, key in st.objects && !removed)
    ensures JobsOk(WithJob(st, key, n, job, removed))
  {
    var st' := WithJob(st, key, n, job, removed);
    forall k | k in st'.jobs ensures JobOk(st', k) {
      assert JobOk(st, k);
    }
  }

  lemma MovingJobKeepsInv(st: State, key: Key, n: nat, job: QueuedJob, removed: bool)
    requires Inv(st) && key in st.jobs && n < |st.jobs[key]|
    requires HoldOk(job, key in st.objects && !removed)
    ensures Inv(WithJob(st, key, n, job, removed))
  {
    var st' := WithJob(st, key, n, job, removed);
    MovingJobKeepsTables(st, key, n, job, removed);
    MovingJobKeepsJobs(st, key, n, job, removed);
    assert SweepsOk(st');
    assert ObjectsOk(st');
  }

  /** The job a step of a worker leaves, and whether it removed the object. */
  ghost function NextJob(st: State, step: Step): (QueuedJob, bool)
    requires IsCleanupStep(step) && step.key in st.jobs && step.n < |st.jobs[step.key]|
  {
    var job := st.jobs[step.key][step.n];
    if step.ClaimCleanup? then (QueuedJob(job.row.(status := Processing), Waiting), false)
    else if step.TryDelete? then (job.(hold := Tried(step.ok)), step.removed)
    else if step.LoseCleanup? then (job.(hold := Lost), false)
    else (if job.hold.Tried? then Marked(job) else job, false)
  }

  lemma CleanupStepMovesJob(st: State, step: Step)
    requires Enabled(st, step) && IsCleanupStep(step)
    ensures step.key in st.jobs && step.n < |st.jobs[step.key]|
    ensures Apply(st, step) == WithJob(st, step.key, step.n, NextJob(st, step).0, NextJob(st, step).1)
  {
  }

  lemma NextJobIsHeldOk(st: State, step: Step)
    requires Enabled(st, step) && IsCleanupStep(step)
    requires HoldOk(st.jobs[step.key][step.n], step.key in st.objects)
    ensures HoldOk(NextJob(st, step).0, step.key in st.objects && !NextJob(st, step).1)
  {
  }

  lemma CleanupStepKeepsInv(st: State, step: Step)
    requires Inv(st) && Enabled(st, step) && IsCleanupStep(step)
    ensures Inv(Apply(st, step))
  {
    CleanupStepMovesJob(st, step);
    assert HoldOk(st.jobs[step.key][step.n], step.key in st.objects) by {
      assert JobOk(st, step.key);
    }
    NextJobIsHeldOk(st, step);
    MovingJobKeepsInv(st, step.key, step.n, NextJob(st, step).0, NextJob(st, step).1);
  }

  /** Sweeps change and nothing else does. */
  lemma SweepsKeepInv(st: State, sweeps: map<ProcessId, Sweep>)
    requires Inv(st) && forall c :: c in sweeps ==> SweepOk(st, sweeps[c])
    ensures Inv(st.(sweeps := sweeps))
  {
    var st' := st.(sweeps := sweeps);
    assert TablesOk(st') by {
      assert RowsHaveObjects(st') && RowsOk(st') && ProjectsOk(st');
      assert UploadsOk(st');
    }
    assert JobsOk(st') && ObjectsOk(st');
    forall c | c in sweeps ensures SweepOk(st', sweeps[c]) {
      SweepOkElsewhere(st, sweeps, sweeps[c]);
    }
  }

  lemma SweepOkElsewhere(st: State, sweeps: map<ProcessId, Sweep>, sweep: Sweep)
    requires SweepOk(st, sweep)
    ensures SweepOk(st.(sweeps := sweeps), sweep)
  {
    assert forall p :: Swept(st, p) ==> Swept(st.(sweeps := sweeps), p);
  }

  lemma SweepingKeepsInv(st: State, c: ProcessId, next: Sweep)
    requires Inv(st) && SweepOk(st, next)
    ensures Inv(st.(sweeps := st.sweeps[c := next]))
  {
    SweepsKeepInv(st, st.sweeps[c := next]);
  }

  lemma StartSweepKeepsInv(st: State, step: Step)
    requires Inv(st) && Enabled(st, step) && step.StartSweep?
    ensures Inv(Apply(st, step))
  {
    assert SweepOk(st, Visiting(step.todo));
    SweepingKeepsInv(st, step.c, Visiting(step.todo));
  }

  lemma ListVersionsKeepsInv(st: State, step: Step)
    requires Inv(st) && Enabled(st, step) && step.ListVersions?
    ensures Inv(Apply(st, step))
  {
    var todo := st.sweeps[step.c].todo;
    assert SweepOk(st, st.sweeps[step.c]);
    assert todo[0] in todo && forall p <- todo[1..] :: p in todo;
    forall k | k in step.keys ensures k in RowsOf(st, todo[0]) {
      assert k in set k | k in step.keys;
    }
    SweepingKeepsInv(st, step.c, Apply(st, step).sweeps[step.c]);
  }

  lemma ListFailsKeepsInv(st: State, step: Step)
    requires Inv(st) && Enabled(st, step) && step.ListFails?
    ensures Inv(Apply(st, step))
  {
    assert SweepOk(st, st.sweeps[step.c]);
    assert forall p <- st.sweeps[step.c].todo[1..] :: p in st.sweeps[step.c].todo;
    SweepingKeepsInv(st, step.c, Apply(st, step).sweeps[step.c]);
  }

  /** Objects of rows of trashed projects, or of deleted rows, are removed. */
  lemma RemovedObjectsKeepInv(st: State, p: ProjectId, dropped: set<Key>)
    requires Inv(st) && Swept(st, p) && forall k :: k in dropped ==> ListedOk(st, p, k)
    ensures Inv(st.(objects := st.objects - dropped))
  {
    var st' := st.(objects := st.objects - dropped);
    assert RowsHaveObjects(st') && RowsOk(st') && ProjectsOk(st');
    forall u | u in st'.uploads ensures UploadOk(st', st'.uploads[u]) {
      assert UploadOk(st, st.uploads[u]);
      assert st.uploads[u].key in st.flying;
    }
    assert UploadsOk(st');
    forall k | k in st'.jobs ensures JobOk(st', k) {
      assert JobOk(st, k);
    }
    assert SweepsOk(st');
    assert ObjectsOk(st');
  }

  lemma FlushKeepsInv(st: State, step: Step)
    requires Inv(st) && Enabled(st, step) && step.Flush?
    ensures Inv(Apply(st, step))
  {
    var sweep := st.sweeps[step.c];
    var batch := NextBatch(sweep.keys);
    var dropped := Dropped(sweep, step.kept);
    assert SweepOk(st, sweep);
    RemovedObjectsKeepInv(st, sweep.p, dropped);
    var removed := st.(objects := st.objects - dropped);
    var next := Flushed(sweep, step.kept);
    assert sweep.keys == batch + sweep.keys[|batch|..];
    assert SweepOk(removed, next);
    SweepingKeepsInv(removed, step.c, next);
  }

  lemma HardDeleteKeepsInv(st: State, step: Step)
    requires Inv(st) && Enabled(st, step) && step.HardDelete?
    ensures Inv(Apply(st, step))
  {
    var sweep := st.sweeps[step.c];
    var removed := RemoveRows(st, RowsOf(st, sweep.p), st.projects - {sweep.p});
    RemovedRowsKeepInv(st, RowsOf(st, sweep.p), st.projects - {sweep.p});
    assert SweepOk(removed, removed.sweeps[step.c]);
    SweepingKeepsInv(removed, step.c, Visiting(sweep.todo));
  }

  lemma HardDeleteFailsKeepsInv(st: State, step: Step)
    requires Inv(st) && Enabled(st, step) && step.HardDeleteFails?
    ensures Inv(Apply(st, step))
  {
    assert SweepOk(st, st.sweeps[step.c]);
    SweepingKeepsInv(st, step.c, Visiting(st.sweeps[step.c].todo));
  }

  lemma EndSweepKeepsInv(st: State, step: Step)
    requires Inv(st) && Enabled(st, step) && step.EndSweep?
    ensures Inv(Apply(st, step))
  {
    SweepsKeepInv(st, st.sweeps - {step.c});
  }

  lemma GivingUpKeepsInv(st: State, u: ProcessId)
    requires Inv(st) && u in st.uploads
    ensures Inv(GiveUp(st, u))
  {
    ContinuingKeepsInv(st, u, Compensating(st.uploads[u].p, st.uploads[u].key));
  }

  lemma CompensateKeepsInv(st: State, step: Step)
    requires Inv(st) && Enabled(st, step) && step.Compensate?
    ensures Inv(Apply(st, step))
  {
    if step.deleted {
      CompensatedKeepsInv(st, step.u);
    } else {
      AbandonedKeepsInv(st, step.u, CompensationFailed);
    }
  }

  lemma UploadStepKeepsInv(st: State, step: Step)
    requires Inv(st) && Enabled(st, step) && IsUploadStep(step)
    ensures Inv(Apply(st, step))
  {
    var u := step.u;
    if step.Insert? {
      ContinuingKeepsInv(st, u, Inserted(st.uploads[u].p, st.uploads[u].key));
    } else if step.Commit? {
      CommitKeepsInv(st, step);
    } else if step.Compensate? {
      CompensateKeepsInv(st, step);
    } else if step.UploadCrash? {
      AbandonedKeepsInv(st, u, UploadCrashed);
    } else {
      GivingUpKeepsInv(st, u);
    }
  }

  lemma SweepStepKeepsInv(st: State, step: Step)
    requires Inv(st) && Enabled(st, step) && IsSweepStep(step)
    ensures Inv(Apply(st, step))
  {
    if step.StartSweep? {
      StartSweepKeepsInv(st, step);
    } else if step.ListVersions? {
      ListVersionsKeepsInv(st, step);
    } else if step.ListFails? {
      ListFailsKeepsInv(st, step);
    } else if step.Flush? {
      FlushKeepsInv(st, step);
    } else if step.HardDelete? {
      HardDeleteKeepsInv(st, step);
    } else if step.HardDeleteFails? {
      HardDeleteFailsKeepsInv(st, step);
    } else {
      EndSweepKeepsInv(st, step);
    }
  }

  lemma PutFailsKeepsInv(st: State, step: Step)
    requires Inv(st) && Enabled(st, step) && step.PutFails?
    ensures Inv(Apply(st, step))
  {
    if step.storedAnyway {
      FailedPutKeepsInv(st, step.key);
    } else {
      MintingKeepsInv(st, step.key);
    }
  }

  lemma StepKeepsInv(st: State, step: Step)
    requires Inv(st) && Enabled(st, step)
    ensures Inv(Apply(st, step))
  {
    if IsUploadStep(step) {
      UploadStepKeepsInv(st, step);
    } else if IsSweepStep(step) {
      SweepStepKeepsInv(st, step);
    } else if step.Tick? {
      TickKeepsInv(st, step);
    } else if step.CreateProject? {
      CreateProjectKeepsInv(st, step);
    } else if step.SoftDelete? {
      SoftDeleteKeepsInv(st, step);
    } else if step.Restore? {
      RestoreKeepsInv(st, step);
    } else if step.EraseAccount? {
      EraseAccountKeepsInv(st, step);
    } else if step.Put? {
      PutKeepsInv(st, step);
    } else if step.PutFails? {
      PutFailsKeepsInv(st, step);
    } else {
      CleanupStepKeepsInv(st, step);
    }
  }

  lemma {:induction false} RunKeepsInv(st: State, steps: seq<Step>)
    requires Inv(st) && Legal(st, steps)
    ensures Inv(After(st, steps))
    decreases |steps|
  {
    if steps != [] {
      StepKeepsInv(st, steps[0]);
      RunKeepsInv(Apply(st, steps[0]), steps[1..]);
    }
  }

  lemma {:induction false} Snoc(st: State, steps: seq<Step>, step: Step)
    requires Legal(st, steps) && Enabled(After(st, steps), step)
    ensures Legal(st, steps + [step]) && After(st, steps + [step]) == Apply(After(st, steps), step)
    decreases |steps|
  {
    if steps == [] {
      assert [step][1..] == [];
    } else {
      assert (steps + [step])[1..] == steps[1..] + [step];
      Snoc(Apply(st, steps[0]), steps[1..], step);
    }
  }
}
