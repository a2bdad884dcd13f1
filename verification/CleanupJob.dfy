/** The loops of one cleanup pass: non-empty keys are gathered in a reused buffer of one hundred and
    flushed with one delete call each. */
module CleanupJob {
  import opened TrackStorage

  /** A batch delete either reports an error, or reports success and may still keep some objects. */
  datatype Reply = Reply(ok: bool, kept: set<Key>)

  /** The pass so far: the store, the two counters and the logged failures. */
  datatype Tally = Tally(objects: set<Key>, deleted: nat, errors: nat, failures: seq<Key>)

  function NonEmpty(keys: seq<Key>): seq<Key> {
    if keys == [] then []
    else NonEmpty(keys[..|keys| - 1]) + if keys[|keys| - 1] == "" then [] else [keys[|keys| - 1]]
  }

  /** Consecutive batches of one hundred, the last one possibly shorter. */
  function Chunks(keys: seq<Key>): seq<seq<Key>> {
    if keys == [] then [] else [NextBatch(keys)] + Chunks(keys[|NextBatch(keys)|..])
  }

  function Flatten(chunks: seq<seq<Key>>): seq<Key> {
    if chunks == [] then [] else Flatten(chunks[..|chunks| - 1]) + chunks[|chunks| - 1]
  }

  function ReplyTo(replies: seq<Reply>, n: nat): Reply {
    if n < |replies| then replies[n] else Reply(true, {})
  }

  function FlushOne(t: Tally, keys: seq<Key>, reply: Reply): Tally {
    var objects := t.objects - ((set k | k in keys) - reply.kept);
    if reply.ok then t.(objects := objects, deleted := t.deleted + |keys|)
    else t.(objects := objects, errors := t.errors + |keys|, failures := t.failures + keys)
  }

  function FlushAll(t: Tally, chunks: seq<seq<Key>>, replies: seq<Reply>): Tally {
    if chunks == [] then t
    else
      var n := |chunks| - 1;
      FlushOne(FlushAll(t, chunks[..n], replies), chunks[n], ReplyTo(replies, n))
  }

  // ---------- What the batches are ----------

  lemma {:induction false} FlattenAppend(a: seq<seq<Key>>, b: seq<seq<Key>>)
    ensures Flatten(a + b) == Flatten(a) + Flatten(b)
  {
    if b == [] {
      assert a + b == a;
    } else {
      var n := |b| - 1;
      FlattenAppend(a, b[..n]);
      assert (a + b)[..|a + b| - 1] == a + b[..n];
    }
  }

  lemma {:induction false} ChunksFlatten(keys: seq<Key>)
    ensures Flatten(Chunks(keys)) == keys
  {
    if keys != [] {
      var first := NextBatch(keys);
      var rest := keys[|first|..];
      ChunksFlatten(rest);
      FlattenAppend([first], Chunks(rest));
      assert Flatten([first]) == first by {
        assert [first][..0] == [];
      }
    }
  }

  lemma {:induction false} ChunkSizes(keys: seq<Key>)
    ensures forall n :: 0 <= n < |Chunks(keys)| ==> 1 <= |Chunks(keys)[n]| <= BATCH_SIZE
    ensures forall n :: 0 <= n < |Chunks(keys)| - 1 ==> |Chunks(keys)[n]| == BATCH_SIZE
  {
    if keys != [] {
      var first := NextBatch(keys);
      var rest := keys[|first|..];
      ChunkSizes(rest);
      assert rest != [] ==> |first| == BATCH_SIZE;
    }
  }

  /** The batches, end to end, are the keys; all but the last are full and none is empty. */
  lemma ChunksPartitionKeys(keys: seq<Key>)
    ensures Flatten(Chunks(keys)) == keys
    ensures forall n :: 0 <= n < |Chunks(keys)| ==> 1 <= |Chunks(keys)[n]| <= BATCH_SIZE
    ensures forall n :: 0 <= n < |Chunks(keys)| - 1 ==> |Chunks(keys)[n]| == BATCH_SIZE
  {
    ChunksFlatten(keys);
    ChunkSizes(keys);
  }

  /** Appending a full batch to full batches leaves the earlier ones as they are. */
  lemma {:induction false} ChunksAppend(full: seq<Key>, rest: seq<Key>)
    requires |full| % BATCH_SIZE == 0
    ensures Chunks(full + rest) == Chunks(full) + Chunks(rest)
  {
    if full == [] {
      assert full + rest == rest;
    } else {
      assert NextBatch(full + rest) == NextBatch(full) == full[..BATCH_SIZE];
      assert (full + rest)[BATCH_SIZE..] == full[BATCH_SIZE..] + rest;
      ChunksAppend(full[BATCH_SIZE..], rest);
    }
  }

  lemma ChunksOfOne(keys: seq<Key>)
    requires |keys| <= BATCH_SIZE
    ensures Chunks(keys) == if keys == [] then [] else [keys]
  {
    if keys != [] {
      assert NextBatch(keys) == keys;
      assert keys[|keys|..] == [];
    }
  }

  /** Every key is counted once, as deleted or as an error, and every error is logged. */
  lemma {:induction false} EveryKeyIsCounted(t: Tally, chunks: seq<seq<Key>>, replies: seq<Reply>)
    ensures var r := FlushAll(t, chunks, replies);
      && r.deleted + r.errors == t.deleted + t.errors + |Flatten(chunks)|
      && r.errors - t.errors == |r.failures| - |t.failures|
  {
    if chunks != [] {
      EveryKeyIsCounted(t, chunks[..|chunks| - 1], replies);
    }
  }

  /** The batches whose delete call reported success, or those whose call reported an error. */
  function Answered(chunks: seq<seq<Key>>, replies: seq<Reply>, ok: bool): seq<seq<Key>> {
    if chunks == [] then []
    else
      var n := |chunks| - 1;
      Answered(chunks[..n], replies, ok) + if ReplyTo(replies, n).ok == ok then [chunks[n]] else []
  }

  /** The keys of calls that reported success are counted as deleted; those of calls that reported an error
      are counted as errors and logged in order. */
  lemma {:induction false} CountersFollowReplies(t: Tally, chunks: seq<seq<Key>>, replies: seq<Reply>)
    ensures var r := FlushAll(t, chunks, replies);
      && r.deleted == t.deleted + |Flatten(Answered(chunks, replies, true))|
      && r.errors == t.errors + |Flatten(Answered(chunks, replies, false))|
      && r.failures == t.failures + Flatten(Answered(chunks, replies, false))
  {
    if chunks != [] {
      var n := |chunks| - 1;
      CountersFollowReplies(t, chunks[..n], replies);
      var ok := ReplyTo(replies, n).ok;
      FlattenSnoc(Answered(chunks[..n], replies, ok), chunks[n]);
      assert Answered(chunks, replies, !ok) == Answered(chunks[..n], replies, !ok);
    }
  }

  lemma FlattenSnoc(chunks: seq<seq<Key>>, last: seq<Key>)
    ensures Flatten(chunks + [last]) == Flatten(chunks) + last
  {
    assert (chunks + [last])[..|chunks + [last]| - 1] == chunks;
  }

  /** Only listed keys leave the store; exactly those stay that every call for them kept. */
  lemma {:induction false} OnlyListedKeysLeave(t: Tally, chunks: seq<seq<Key>>, replies: seq<Reply>, key: Key)
    ensures var r := FlushAll(t, chunks, replies);
      && (key in t.objects && key !in r.objects ==> key in Flatten(chunks))
      && (key in r.objects <==> key in t.objects && KeptByAll(chunks, replies, key))
  {
    if chunks != [] {
      var n := |chunks| - 1;
      OnlyListedKeysLeave(t, chunks[..n], replies, key);
      assert KeptByAll(chunks, replies, key) <==>
        KeptByAll(chunks[..n], replies, key) && (key in chunks[n] ==> key in ReplyTo(replies, n).kept);
    }
  }

  ghost predicate KeptByAll(chunks: seq<seq<Key>>, replies: seq<Reply>, key: Key) {
    forall n :: 0 <= n < |chunks| && key in chunks[n] ==> key in ReplyTo(replies, n).kept
  }

  /** The keys that are handed on are those that are not empty, each as often as it was listed. */
  lemma {:induction false} EmptyKeysAreSkipped(keys: seq<Key>, key: Key)
    ensures multiset(NonEmpty(keys))[key] == if key == "" then 0 else multiset(keys)[key]
  {
    if keys != [] {
      var n := |keys| - 1;
      EmptyKeysAreSkipped(keys[..n], key);
      assert keys == keys[..n] + [keys[n]];
    }
  }

  /** And they are handed on in the order listed. */
  lemma {:induction false} OthersKeepOrder(front: seq<Key>, back: seq<Key>)
    ensures NonEmpty(front + back) == NonEmpty(front) + NonEmpty(back)
  {
    if back == [] {
      assert front + back == front;
    } else {
      var n := |back| - 1;
      OthersKeepOrder(front, back[..n]);
      assert (front + back)[..|front + back| - 1] == front + back[..n];
    }
  }

  // ---------- The pass itself ----------

  /** What the database and the store answer for one expired project; `versions` is absent when the
      listing fails. */
  datatype ProjectSweep = ProjectSweep(listed: bool, versions: seq<Key>, replies: seq<Reply>, hardDeleted: bool)

  function CleanProject(t: Tally, versions: seq<Key>, replies: seq<Reply>): Tally {
    FlushAll(t, Chunks(NonEmpty(versions)), replies)
  }

  function CleanOne(t: Tally, sweep: ProjectSweep): Tally {
    if !sweep.listed then t.(errors := t.errors + 1)
    else
      var r := CleanProject(t, sweep.versions, sweep.replies);
      if sweep.hardDeleted then r else r.(errors := r.errors + 1)
  }

  function CleanAll(t: Tally, sweeps: seq<ProjectSweep>): Tally {
    if sweeps == [] then t else CleanOne(CleanAll(t, sweeps[..|sweeps| - 1]), sweeps[|sweeps| - 1])
  }

  /** What the final log line should add up to. */
  function Listed(sweeps: seq<ProjectSweep>): nat {
    if sweeps == [] then 0
    else
      var last := sweeps[|sweeps| - 1];
      Listed(sweeps[..|sweeps| - 1]) +
      (if last.listed then |NonEmpty(last.versions)| + (if last.hardDeleted then 0 else 1) else 1)
  }

  /** Files deleted plus errors is one per non-empty key and one per failed listing or hard delete. */
  lemma {:induction false} CountersAddUp(t: Tally, sweeps: seq<ProjectSweep>)
    ensures CleanAll(t, sweeps).deleted + CleanAll(t, sweeps).errors == t.deleted + t.errors + Listed(sweeps)
  {
    if sweeps != [] {
      var n := |sweeps| - 1;
      CountersAddUp(t, sweeps[..n]);
      var keys := NonEmpty(sweeps[n].versions);
      EveryKeyIsCounted(CleanAll(t, sweeps[..n]), Chunks(keys), sweeps[n].replies);
      ChunksPartitionKeys(keys);
    }
  }

  class R2CleanupJob {
    var objects: set<Key>
    var deletedCount: nat
    var errorCount: nat
    var failures: seq<Key>

    constructor (objects: set<Key>)
      ensures Total() == Tally(objects, 0, 0, [])
    {
      this.objects := objects;
      deletedCount, errorCount, failures := 0, 0, [];
    }

    ghost function Total(): Tally
      reads this
    {
      Tally(objects, deletedCount, errorCount, failures)
    }

    method FlushBatch(keys: seq<Key>, reply: Reply)
      modifies this
      ensures Total() == if keys == [] then old(Total()) else FlushOne(old(Total()), keys, reply)
    {
      if |keys| == 0 {
        return;
      }
      objects := objects - ((set k | k in keys) - reply.kept);
      if !reply.ok {
        for n := 0 to |keys|
          invariant objects == old(objects) - ((set k | k in keys) - reply.kept) && deletedCount == old(deletedCount)
          invariant failures == old(failures) + keys[..n] && errorCount == old(errorCount) + n
        {
          failures := failures + [keys[n]];
          errorCount := errorCount + 1;
        }
        assert keys[..|keys|] == keys;
        return;
      }
      deletedCount := deletedCount + |keys|;
    }

    method CleanVersions(versions: seq<Key>, replies: seq<Reply>)
      modifies this
      ensures Total() == CleanProject(old(Total()), versions, replies)
    {
      var batch := new Key[BATCH_SIZE];
      var len := 0;
      ghost var flushed: seq<Key> := [];
      var calls := 0;
      for n := 0 to |versions|
        invariant fresh(batch) && batch.Length == BATCH_SIZE && 0 <= len < BATCH_SIZE
        invariant |flushed| % BATCH_SIZE == 0 && NonEmpty(versions[..n]) == flushed + batch[..len]
        invariant calls == |Chunks(flushed)|
        invariant Total() == FlushAll(old(Total()), Chunks(flushed), replies)
      {
        assert versions[..n + 1][..n] == versions[..n];
        if versions[n] == "" {
          continue;
        }
        batch[len] := versions[n];
        len := len + 1;
        if len >= BATCH_SIZE {
          FlushFull(flushed, batch[..len], replies, old(Total()));
          FlushBatch(batch[..len], if calls < |replies| then replies[calls] else Reply(true, {}));
          calls := calls + 1;
          flushed := flushed + batch[..len];
          len := 0;
        }
      }
      assert versions[..|versions|] == versions;
      FlushFull(flushed, batch[..len], replies, old(Total()));
      FlushBatch(batch[..len], if calls < |replies| then replies[calls] else Reply(true, {}));
    }

    method ProcessCleanup(sweeps: seq<ProjectSweep>)
      modifies this
      ensures Total() == CleanAll(old(Total()), sweeps)
    {
      for n := 0 to |sweeps|
        invariant Total() == CleanAll(old(Total()), sweeps[..n])
      {
        assert sweeps[..n + 1][..n] == sweeps[..n];
        if !sweeps[n].listed {
          errorCount := errorCount + 1;
          continue;
        }
        CleanVersions(sweeps[n].versions, sweeps[n].replies);
        if !sweeps[n].hardDeleted {
          errorCount := errorCount + 1;
        }
      }
      assert sweeps[..|sweeps|] == sweeps;
    }
  }

  /** Flushing one more batch after the full ones. */
  lemma FlushFull(flushed: seq<Key>, batch: seq<Key>, replies: seq<Reply>, t: Tally)
    requires |flushed| % BATCH_SIZE == 0 && |batch| <= BATCH_SIZE
    ensures batch == [] ==> Chunks(flushed + batch) == Chunks(flushed)
    ensures batch != [] ==> Chunks(flushed + batch) == Chunks(flushed) + [batch]
    ensures batch != [] ==>
      FlushAll(t, Chunks(flushed + batch), replies) ==
      FlushOne(FlushAll(t, Chunks(flushed), replies), batch, ReplyTo(replies, |Chunks(flushed)|))
  {
    ChunksAppend(flushed, batch);
    ChunksOfOne(batch);
    if batch != [] {
      assert (Chunks(flushed) + [batch])[..|Chunks(flushed)|] == Chunks(flushed);
    }
  }

  // ---------- A project's cleanup is a run of the sweep ----------

  /** The delete calls of a sweep over `keys`, answered in turn. */
  function FlushSteps(c: ProcessId, keys: seq<Key>, replies: seq<Reply>): seq<Step> {
    if keys == [] then []
    else
      var batch := NextBatch(keys);
      [Flush(c, (set k | k in batch) * ReplyTo(replies, 0).kept)] + FlushSteps(c, keys[|batch|..], Rest(replies))
  }

  function Rest(replies: seq<Reply>): seq<Reply> {
    if replies == [] then [] else replies[1..]
  }

  lemma KeptByFirstAndRest(first: seq<Key>, rest: seq<seq<Key>>, replies: seq<Reply>, key: Key)
    ensures KeptByAll([first] + rest, replies, key) <==>
      (key in first ==> key in ReplyTo(replies, 0).kept) && KeptByAll(rest, Rest(replies), key)
  {
    var chunks := [first] + rest;
    assert forall n :: 0 <= n < |rest| ==>
      chunks[n + 1] == rest[n] && ReplyTo(replies, n + 1) == ReplyTo(Rest(replies), n);
    if KeptByAll(chunks, replies, key) {
      assert chunks[0] == first;
      forall n | 0 <= n < |rest| && key in rest[n] ensures key in ReplyTo(Rest(replies), n).kept {
        assert key in chunks[n + 1];
      }
    }
  }

  lemma {:induction false} FlushingIsARun(st: State, c: ProcessId, replies: seq<Reply>)
    requires c in st.sweeps && st.sweeps[c].Flushing?
    ensures var keys := st.sweeps[c].keys; var steps := FlushSteps(c, keys, replies);
      && Legal(st, steps) && c in After(st, steps).sweeps
      && After(st, steps).sweeps[c].Flushing? && After(st, steps).sweeps[c].keys == []
      && After(st, steps).sweeps[c].p == st.sweeps[c].p
      && forall k :: k in After(st, steps).objects <==> k in st.objects && KeptByAll(Chunks(keys), replies, k)
    decreases |st.sweeps[c].keys|
  {
    var keys := st.sweeps[c].keys;
    if keys != [] {
      var batch := NextBatch(keys);
      var step := Flush(c, (set k | k in batch) * ReplyTo(replies, 0).kept);
      var next := Apply(st, step);
      FlushingIsARun(next, c, Rest(replies));
      var rest := FlushSteps(c, keys[|batch|..], Rest(replies));
      assert ([step] + rest)[1..] == rest;
      forall k ensures KeptByAll(Chunks(keys), replies, k) <==>
        (k in batch ==> k in ReplyTo(replies, 0).kept) && KeptByAll(Chunks(keys[|batch|..]), Rest(replies), k)
      {
        KeptByFirstAndRest(batch, Chunks(keys[|batch|..]), replies, k);
      }
    }
  }

  lemma {:induction false} NoneIsEmpty(keys: seq<Key>)
    requires "" !in keys
    ensures NonEmpty(keys) == keys
  {
    if keys != [] {
      assert keys == keys[..|keys| - 1] + [keys[|keys| - 1]];
      NoneIsEmpty(keys[..|keys| - 1]);
    }
  }

  lemma ListedAreNotEmpty(st: State, c: ProcessId, versions: seq<Key>)
    requires Inv(st) && Enabled(st, ListVersions(c, versions))
    ensures "" !in versions
  {
    forall k | k in versions ensures k != "" {
      assert k in RowsOf(st, st.sweeps[c].todo[0]);
    }
  }

  /** Cleaning one project's versions is a run of the sweep, which leaves in the store what the pass leaves
      there, and leaves the project ready to be deleted. */
  lemma CleanProjectIsARun(st: State, c: ProcessId, versions: seq<Key>, replies: seq<Reply>, t: Tally)
    requires Inv(st) && Enabled(st, ListVersions(c, versions)) && t.objects == st.objects
    ensures var steps := [ListVersions(c, versions)] + FlushSteps(c, versions, replies);
      && Legal(st, steps) && c in After(st, steps).sweeps
      && After(st, steps).sweeps[c].Flushing? && After(st, steps).sweeps[c].keys == []
      && After(st, steps).sweeps[c].p == st.sweeps[c].todo[0]
      && After(st, steps).objects == CleanProject(t, versions, replies).objects
  {
    var listing := Apply(st, ListVersions(c, versions));
    var steps := FlushSteps(c, versions, replies);
    ListedAreNotEmpty(st, c, versions);
    NoneIsEmpty(versions);
    FlushingIsARun(listing, c, replies);
    assert ([ListVersions(c, versions)] + steps)[1..] == steps;
    forall k ensures k in CleanProject(t, versions, replies).objects <==>
      k in st.objects && KeptByAll(Chunks(versions), replies, k)
    {
      OnlyListedKeysLeave(t, Chunks(versions), replies, k);
    }
  }
}
