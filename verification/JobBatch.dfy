/** One claimed batch: a channel of jobs and the workers that drain it. */
module JobBatch {
  import opened Basics
  import opened JobTable

  type WorkerId = nat

  /** A worker's current job, named by its position in the batch; `running` once its handler started. */
  datatype Task = Task(k: nat, running: bool)

  /** Worker `w` is through with the job at position `k`. */
  datatype Disposal = Disposal(w: WorkerId, k: nat)

  datatype Fate = InChannel | Held(w: WorkerId) | Disposed(d: nat)

  /** One batch: the channel still holds `claimed[sent..]`. `fate` is bookkeeping that no step reads. */
  datatype Batch = Batch(
    claimed: seq<JobId>, sent: nat, workers: nat, busy: map<WorkerId, Task>, done: seq<Disposal>, fate: seq<Fate>)

  predicate CanTake(b: Batch, w: WorkerId) {
    w !in b.busy && w < b.workers && b.sent < |b.claimed|
  }

  /** The worker receives the next job from the channel. */
  function TakeNext(b: Batch, w: WorkerId): Batch
    requires CanTake(b, w) && |b.fate| == |b.claimed|
  {
    b.(sent := b.sent + 1, busy := b.busy[w := Task(b.sent, false)], fate := b.fate[b.sent := Held(w)])
  }

  predicate Holds(b: Batch, w: WorkerId, running: bool) {
    w in b.busy && b.busy[w].running == running && b.busy[w].k < |b.claimed|
  }

  function Start(b: Batch, w: WorkerId): Batch
    requires Holds(b, w, false)
  {
    b.(busy := b.busy[w := b.busy[w].(running := true)])
  }

  function Dispose(b: Batch, w: WorkerId): Batch
    requires w in b.busy && b.busy[w].k < |b.claimed| == |b.fate|
  {
    b.(busy := b.busy - {w}, done := b.done + [Disposal(w, b.busy[w].k)],
       fate := b.fate[b.busy[w].k := Disposed(|b.done|)])
  }

  function JobAt(b: Batch, w: WorkerId): JobId
    requires w in b.busy && b.busy[w].k < |b.claimed|
  {
    b.claimed[b.busy[w].k]
  }

  /** Each position is in the channel, at exactly one worker, or disposed of exactly once. */
  ghost predicate BatchOk(b: Batch) {
    && NoDuplicates(b.claimed) && |b.fate| == |b.claimed| && b.sent <= |b.claimed| && b.workers >= 1
    && (forall k :: 0 <= k < |b.fate| ==> FateOk(b, k))
    && (forall w :: w in b.busy ==> b.busy[w].k < |b.fate| && b.fate[b.busy[w].k] == Held(w))
    && (forall d :: 0 <= d < |b.done| ==> b.done[d].k < |b.fate| && b.fate[b.done[d].k] == Disposed(d))
  }

  ghost predicate FateOk(b: Batch, k: nat)
    requires k < |b.fate|
  {
    match b.fate[k]
    case InChannel => b.sent <= k
    case Held(w) => k < b.sent && w in b.busy && b.busy[w].k == k
    case Disposed(d) => k < b.sent && d < |b.done| && b.done[d].k == k
  }

  /** Whether the handler of the job at position `k` is running. */
  predicate RunningAt(b: Batch, k: nat) {
    k < |b.fate| && b.fate[k].Held? && b.fate[k].w in b.busy && b.busy[b.fate[k].w].running
  }

  lemma TakeKeepsBatch(b: Batch, w: WorkerId)
    requires BatchOk(b) && CanTake(b, w)
    ensures BatchOk(TakeNext(b, w))
    ensures forall k :: 0 <= k < |b.fate| ==> RunningAt(TakeNext(b, w), k) == RunningAt(b, k)
    ensures forall k :: 0 <= k < |b.fate| ==> TakeNext(b, w).fate[k].Disposed? == b.fate[k].Disposed?
  {
    var b' := TakeNext(b, w);
    assert FateOk(b, b.sent);
    forall k | 0 <= k < |b'.fate| ensures FateOk(b', k) && RunningAt(b', k) == RunningAt(b, k) {
      assert FateOk(b, k);
    }
  }

  lemma StartKeepsBatch(b: Batch, w: WorkerId)
    requires BatchOk(b) && Holds(b, w, false)
    ensures BatchOk(Start(b, w))
    ensures forall k :: 0 <= k < |b.fate| ==> RunningAt(Start(b, w), k) == (RunningAt(b, k) || k == b.busy[w].k)
    ensures !RunningAt(b, b.busy[w].k)
  {
    var b' := Start(b, w);
    forall k | 0 <= k < |b'.fate| ensures FateOk(b', k) && RunningAt(b', k) == (RunningAt(b, k) || k == b.busy[w].k) {
      assert FateOk(b, k);
    }
  }

  lemma DisposeKeepsBatch(b: Batch, w: WorkerId)
    requires BatchOk(b) && w in b.busy
    ensures BatchOk(Dispose(b, w))
    ensures forall k :: 0 <= k < |b.fate| && k != b.busy[w].k ==>
      RunningAt(Dispose(b, w), k) == RunningAt(b, k) && Dispose(b, w).fate[k] == b.fate[k]
    ensures RunningAt(b, b.busy[w].k) == b.busy[w].running && !b.fate[b.busy[w].k].Disposed?
  {
    var b' := Dispose(b, w);
    forall k | 0 <= k < |b'.fate|
      ensures FateOk(b', k) && (k != b.busy[w].k ==> RunningAt(b', k) == RunningAt(b, k))
    {
      assert FateOk(b, k);
    }
  }

  function DoneJobs(b: Batch): (r: seq<JobId>)
    requires forall d :: 0 <= d < |b.done| ==> b.done[d].k < |b.claimed|
    ensures |r| == |b.done|
  {
    seq(|b.done|, d requires 0 <= d < |b.done| => b.claimed[b.done[d].k])
  }

  lemma MultiplicityOfDistinct<T>(s: seq<T>, x: T)
    requires NoDuplicates(s)
    ensures multiset(s)[x] == if x in s then 1 else 0
  {
    if s != [] {
      var n := |s| - 1;
      assert s == s[..n] + [s[n]];
      MultiplicityOfDistinct(s[..n], x);
      assert s[n] !in s[..n];
    }
  }

  /** A batch with an empty channel and no busy worker has disposed of every claimed job once. */
  lemma PoolIsDone(b: Batch)
    requires BatchOk(b) && b.sent == |b.claimed| && b.busy == map[]
    ensures forall d :: 0 <= d < |b.done| ==> b.done[d].k < |b.claimed|
    ensures NoDuplicates(DoneJobs(b)) && multiset(DoneJobs(b)) == multiset(b.claimed)
  {
    var jobs := DoneJobs(b);
    forall j: JobId ensures j in jobs <==> j in b.claimed {
      if k :| 0 <= k < |b.claimed| && b.claimed[k] == j {
        assert FateOk(b, k);
        assert jobs[b.fate[k].d] == j;
      }
    }
    forall j: JobId ensures multiset(jobs)[j] == multiset(b.claimed)[j] {
      MultiplicityOfDistinct(jobs, j);
      MultiplicityOfDistinct(b.claimed, j);
    }
  }
}
