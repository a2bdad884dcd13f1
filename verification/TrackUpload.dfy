/** The upload handler and the handler of cleanup jobs, call by call. */
module TrackUpload {
  import opened Basics
  import opened TrackStorage

  /** How the write to the store ends; one that is reported as failed may have stored the object. */
  datatype Written = Done | Refused | StoredAndFailed

  /** Which calls of an upload succeed, in the order the handler makes them. */
  datatype Replies = Replies(put: Written, begin: bool, insert: bool, commit: bool, delete: bool)

  class TrackStore {
    var objects: set<Key>
    var rows: map<Key, ProjectId>

    constructor ()
      ensures objects == {} && rows == map[]
    {
      objects, rows := {}, map[];
    }

    method UploadTrackVersion(p: ProjectId, key: Key, replies: Replies) returns (created: bool)
      requires key !in objects
      modifies this
      ensures created <==> replies.put == Done && replies.begin && replies.insert && replies.commit
      ensures created ==> rows == old(rows)[key := p] && objects == old(objects) + {key}
      ensures !created ==> rows == old(rows)
      ensures !created ==>
        var leftOver := (replies.put == Done && !replies.delete) || replies.put == StoredAndFailed;
        objects == old(objects) + if leftOver then {key} else {}
    {
      if replies.put != Done {
        if replies.put == StoredAndFailed {
          objects := objects + {key};
        }
        return false;
      }
      objects := objects + {key};
      if !replies.begin {
        DeleteFile(key, replies.delete);
        return false;
      }
      var pending := rows;
      if !replies.insert {
        DeleteFile(key, replies.delete);
        return false;
      }
      pending := pending[key := p];
      if !replies.commit {
        DeleteFile(key, replies.delete);
        return false;
      }
      rows := pending;
      return true;
    }

    method DeleteFile(key: Key, works: bool)
      modifies this`objects
      ensures objects == if works then old(objects) - {key} else old(objects)
    {
      if works {
        objects := objects - {key};
      }
    }

    /** `data` is the key named by the job, if it names one; `works` says whether the delete call does. */
    method CleanupR2File(data: Option<Key>, works: bool) returns (ok: bool)
      modifies this`objects
      ensures ok <==> data.Some? && 10 <= |data.value| <= 1024 && works
      ensures objects == if ok then old(objects) - {data.value} else old(objects)
    {
      if data.None? {
        return false;
      }
      if data.value == "" {
        return false;
      }
      if |data.value| < 10 || |data.value| > 1024 {
        return false;
      }
      DeleteFile(data.value, works);
      return works;
    }
  }

  // ---------- The handlers are runs of the machine ----------

  /** The steps of one upload whose calls end so. */
  function UploadSteps(u: ProcessId, p: ProjectId, key: Key, replies: Replies): seq<Step> {
    if replies.put == Refused then [PutFails(key, false)]
    else if replies.put == StoredAndFailed then [PutFails(key, true)]
    else if !replies.begin then [Put(u, p, key), BeginFails(u), Compensate(u, replies.delete)]
    else if !replies.insert then [Put(u, p, key), InsertFails(u), Compensate(u, replies.delete)]
    else if !replies.commit then [Put(u, p, key), Insert(u), CommitFails(u), Compensate(u, replies.delete)]
    else [Put(u, p, key), Insert(u), Commit(u)]
  }

  lemma Then(st: State, step: Step, rest: seq<Step>)
    requires Enabled(st, step) && Legal(Apply(st, step), rest)
    ensures Legal(st, [step] + rest) && After(st, [step] + rest) == After(Apply(st, step), rest)
  {
    assert ([step] + rest)[1..] == rest;
  }

  lemma LastStep(st: State, step: Step)
    requires Enabled(st, step)
    ensures Legal(st, [step]) && After(st, [step]) == Apply(st, step)
  {
    assert [step][1..] == [];
  }

  /** What an upload under way has changed so far. */
  ghost predicate IsAt(st: State, before: State, u: ProcessId, upload: Upload) {
    && st.rows == before.rows && st.projects == before.projects && st.objects == before.objects + {upload.key}
    && st.uploads == before.uploads[u := upload]
  }

  /** What the upload has changed when it is over. */
  ghost predicate IsOver(
    st: State, before: State, key: Key, p: ProjectId, created: bool, leftOver: bool)
  {
    && st.uploads == before.uploads && st.rows == (if created then before.rows[key := p] else before.rows)
    && st.objects == before.objects + if created || leftOver then {key} else {}
  }

  lemma PutMoves(before: State, u: ProcessId, p: ProjectId, key: Key)
    requires Enabled(before, Put(u, p, key))
    ensures IsAt(Apply(before, Put(u, p, key)), before, u, Stored(p, key))
  {
  }

  lemma InsertMoves(st: State, before: State, u: ProcessId, p: ProjectId, key: Key)
    requires IsAt(st, before, u, Stored(p, key)) && p in before.projects
    ensures Enabled(st, Insert(u)) && IsAt(Apply(st, Insert(u)), before, u, Inserted(p, key))
  {
  }

  /** A database call of the upload may fail here. */
  ghost predicate FailsAt(st: State, before: State, u: ProcessId, p: ProjectId, key: Key, step: Step) {
    if step == CommitFails(u) then IsAt(st, before, u, Inserted(p, key))
    else IsAt(st, before, u, Stored(p, key)) && (step == BeginFails(u) || step == InsertFails(u))
  }

  lemma FailureMoves(st: State, before: State, u: ProcessId, p: ProjectId, key: Key, step: Step)
    requires FailsAt(st, before, u, p, key, step)
    ensures Enabled(st, step) && IsAt(Apply(st, step), before, u, Compensating(p, key))
  {
  }

  lemma CompensationEnds(st: State, before: State, u: ProcessId, p: ProjectId, key: Key, deleted: bool)
    requires IsAt(st, before, u, Compensating(p, key)) && u !in before.uploads && key !in before.objects
    ensures Enabled(st, Compensate(u, deleted))
    ensures IsOver(Apply(st, Compensate(u, deleted)), before, key, p, false, !deleted)
  {
    assert st.uploads - {u} == before.uploads;
    assert st.objects - {key} == before.objects;
  }

  lemma CommitEnds(st: State, before: State, u: ProcessId, p: ProjectId, key: Key)
    requires IsAt(st, before, u, Inserted(p, key)) && u !in before.uploads
    ensures Enabled(st, Commit(u)) && IsOver(Apply(st, Commit(u)), before, key, p, true, false)
  {
    assert st.uploads - {u} == before.uploads;
  }

  /** After a failed database call only the deletion of the object is left. */
  lemma GivingUp(st: State, before: State, u: ProcessId, p: ProjectId, key: Key, step: Step, deleted: bool)
    requires FailsAt(st, before, u, p, key, step)
    requires u !in before.uploads && key !in before.objects
    ensures Legal(st, [step] + [Compensate(u, deleted)])
    ensures IsOver(After(st, [step] + [Compensate(u, deleted)]), before, key, p, false, !deleted)
  {
    FailureMoves(st, before, u, p, key, step);
    var given := Apply(st, step);
    CompensationEnds(given, before, u, p, key, deleted);
    LastStep(given, Compensate(u, deleted));
    Then(st, step, [Compensate(u, deleted)]);
  }

  /** From the inserted row on. */
  lemma Finishing(st: State, before: State, u: ProcessId, p: ProjectId, key: Key, replies: Replies)
    requires IsAt(st, before, u, Stored(p, key)) && u !in before.uploads && key !in before.objects
    requires p in before.projects
    ensures var rest := if replies.commit then [Commit(u)] else [CommitFails(u)] + [Compensate(u, replies.delete)];
      var leftOver := !replies.commit && !replies.delete;
      && Legal(st, [Insert(u)] + rest)
      && IsOver(After(st, [Insert(u)] + rest), before, key, p, replies.commit, leftOver)
  {
    InsertMoves(st, before, u, p, key);
    var inserted := Apply(st, Insert(u));
    if replies.commit {
      CommitEnds(inserted, before, u, p, key);
      LastStep(inserted, Commit(u));
      Then(st, Insert(u), [Commit(u)]);
    } else {
      GivingUp(inserted, before, u, p, key, CommitFails(u), replies.delete);
      Then(st, Insert(u), [CommitFails(u)] + [Compensate(u, replies.delete)]);
    }
  }

  /** A write that fails leaves the object behind if it stored it. */
  lemma FailedWrite(st: State, p: ProjectId, key: Key, stored: bool)
    requires key !in st.minted && IsUsable(key)
    ensures Legal(st, [PutFails(key, stored)])
    ensures IsOver(After(st, [PutFails(key, stored)]), st, key, p, false, stored)
  {
    LastStep(st, PutFails(key, stored));
  }

  /** One upload, undisturbed, is a run of the machine with the effect that the handler has: the row and
      the object appear together, or the rows stay and an object stays behind only when its delete fails or
      its write was reported failed. */
  lemma UploadIsARun(st: State, u: ProcessId, p: ProjectId, key: Key, replies: Replies)
    requires u !in st.uploads && key !in st.minted && key !in st.objects && IsUsable(key) && p in st.projects
    ensures var steps := UploadSteps(u, p, key, replies);
      var created := replies.put == Done && replies.begin && replies.insert && replies.commit;
      var leftOver := !created && ((replies.put == Done && !replies.delete) || replies.put == StoredAndFailed);
      Legal(st, steps) && IsOver(After(st, steps), st, key, p, created, leftOver)
  {
    var steps := UploadSteps(u, p, key, replies);
    if replies.put != Done {
      FailedWrite(st, p, key, replies.put == StoredAndFailed);
    } else {
      PutMoves(st, u, p, key);
      var stored := Apply(st, Put(u, p, key));
      if !replies.begin || !replies.insert {
        GivingUp(stored, st, u, p, key, steps[1], replies.delete);
        Then(st, Put(u, p, key), [steps[1]] + [Compensate(u, replies.delete)]);
        assert steps == [Put(u, p, key)] + ([steps[1]] + [Compensate(u, replies.delete)]);
      } else {
        Finishing(stored, st, u, p, key, replies);
        var rest := if replies.commit then [Commit(u)] else [CommitFails(u)] + [Compensate(u, replies.delete)];
        Then(st, Put(u, p, key), [Insert(u)] + rest);
        assert steps == [Put(u, p, key)] + ([Insert(u)] + rest);
      }
    }
  }
}
