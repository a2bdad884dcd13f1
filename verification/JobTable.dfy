/** The `background_jobs` table and the statements that move its rows.

    A job's identifier is its insertion position: rows are only ever appended or updated in place,
    so an index names a row as uniquely as the UUID does. */
module JobTable {
  import opened Basics

  type JobId = nat

  datatype Status = Pending | Processing | Completed | Failed

  datatype Row = Row(jobType: string, createdAt: int, status: Status, attempts: nat, maxAttempts: int)

  function DefaultedMax(maxAttempts: int): (m: int)
    ensures m >= 1
    ensures maxAttempts >= 1 ==> m == maxAttempts
  {
    if maxAttempts <= 0 then 3 else maxAttempts
  }

  function NewRow(jobType: string, maxAttempts: int, now: int): Row {
    Row(jobType, now, Pending, 0, DefaultedMax(maxAttempts))
  }

  /** The `WHERE status = 'pending' AND attempts < max_attempts` of a claim, minus the rows that
      other transactions hold locked (`SKIP LOCKED`). */
  ghost function Eligible(rows: seq<Row>, locked: set<JobId>): set<JobId> {
    set j: JobId | j < |rows| && rows[j].status == Pending && rows[j].attempts < rows[j].maxAttempts && j !in locked
  }

  /** `ORDER BY created_at ASC LIMIT limit`: as many eligible rows as the limit allows, and no row
      left behind is older than a row taken. */
  ghost predicate IsOldest(rows: seq<Row>, eligible: set<JobId>, limit: nat, picked: set<JobId>)
    requires forall j <- eligible :: j < |rows|
  {
    && picked <= eligible
    && |picked| == (if |eligible| < limit then |eligible| else limit)
    && NoneOlder(rows, picked, eligible)
  }

  ghost predicate NoneOlder(rows: seq<Row>, picked: set<JobId>, eligible: set<JobId>)
    requires forall j <- eligible :: j < |rows|
    requires picked <= eligible
  {
    forall a <- picked, b <- eligible :: b !in picked ==> rows[a].createdAt <= rows[b].createdAt
  }

  function Claimed(rows: seq<Row>, picked: set<JobId>): seq<Row> {
    seq(|rows|, j requires 0 <= j < |rows| => if j in picked then rows[j].(status := Processing) else rows[j])
  }

  function CompleteRow(row: Row): Row {
    row.(status := Completed)
  }

  function FailRow(row: Row): Row {
    row.(status := if row.attempts + 1 >= row.maxAttempts then Failed else Pending, attempts := row.attempts + 1)
  }

  lemma NoDuplicatesSize<T>(s: seq<T>)
    requires NoDuplicates(s)
    ensures |Elements(s)| == |s|
  {
    if s != [] {
      var n := |s| - 1;
      NoDuplicatesSize(s[..n]);
      assert Elements(s) == Elements(s[..n]) + {s[n]};
      assert s[n] !in s[..n];
    }
  }

  lemma OldestExists(rows: seq<Row>, eligible: set<JobId>) returns (oldest: JobId)
    requires eligible != {}
    requires forall j <- eligible :: j < |rows|
    ensures oldest in eligible
    ensures forall j <- eligible :: rows[oldest].createdAt <= rows[j].createdAt
    decreases |eligible|
  {
    var j :| j in eligible;
    if eligible == {j} {
      oldest := j;
    } else {
      var k := OldestExists(rows, eligible - {j});
      oldest := if rows[j].createdAt <= rows[k].createdAt then j else k;
      forall e <- eligible ensures rows[oldest].createdAt <= rows[e].createdAt {
        assert e == j || e in eligible - {j};
      }
    }
  }

  lemma NoneOlderGrows(rows: seq<Row>, picked: set<JobId>, eligible: set<JobId>, next: JobId)
    requires forall j <- eligible :: j < |rows|
    requires picked <= eligible && next in eligible - picked
    requires NoneOlder(rows, picked, eligible)
    requires forall j <- eligible - picked :: rows[next].createdAt <= rows[j].createdAt
    ensures NoneOlder(rows, picked + {next}, eligible)
  {
  }

  lemma SubsetSize<T>(small: set<T>, big: set<T>)
    requires small <= big
    ensures |small| <= |big|
    ensures small != big ==> |small| < |big|
  {
    assert big == small + (big - small);
    assert |big| == |small| + |big - small|;
    if small != big {
      assert big - small != {};
    }
  }

  /** The ordered, limited selection of the claim query. */
  method SelectOldest(rows: seq<Row>, eligible: set<JobId>, limit: nat) returns (jobs: seq<JobId>)
    requires forall j <- eligible :: j < |rows|
    ensures NoDuplicates(jobs)
    ensures IsOldest(rows, eligible, limit, Elements(jobs))
    ensures forall a <- eligible, b <- eligible ::
      a in jobs && rows[b].createdAt < rows[a].createdAt ==> b in jobs
  {
    var picked: set<JobId> := {};
    jobs := [];
    while picked != eligible && |jobs| < limit
      invariant NoDuplicates(jobs) && picked <= eligible && |picked| == |jobs| <= limit
      invariant forall j :: j in jobs <==> j in picked
      invariant NoneOlder(rows, picked, eligible)
      decreases |eligible - picked|
    {
      ghost var _ := OldestExists(rows, eligible - picked);
      var next :| next in eligible - picked && forall j <- eligible - picked :: rows[next].createdAt <= rows[j].createdAt;
      NoneOlderGrows(rows, picked, eligible, next);
      picked, jobs := picked + {next}, jobs + [next];
    }
    SubsetSize(picked, eligible);
    assert Elements(jobs) == picked;
  }

  class BackgroundJobs {
    var rows: seq<Row>

    constructor ()
      ensures rows == []
    {
      rows := [];
    }

    method CreateBackgroundJob(jobType: string, maxAttempts: int, now: int) returns (id: JobId)
      modifies this
      ensures id == |old(rows)|
      ensures rows == old(rows) + [Row(jobType, now, Pending, 0, if maxAttempts <= 0 then 3 else maxAttempts)]
    {
      id := |rows|;
      var allowed := maxAttempts;
      if allowed <= 0 {
        allowed := 3;
      }
      rows := rows + [Row(jobType, now, Pending, 0, allowed)];
    }

    /** One claim transaction; `locked` is what concurrent claim transactions hold. */
    method ClaimPendingJobs(limit: int, locked: set<JobId>) returns (jobs: seq<JobId>)
      modifies this
      ensures NoDuplicates(jobs)
      ensures IsOldest(old(rows), Eligible(old(rows), locked), if limit <= 0 then 10 else limit, Elements(jobs))
      ensures forall j :: j in jobs ==>
        && j < |old(rows)| == |rows| && j !in locked
        && old(rows)[j].status == Pending && old(rows)[j].attempts < old(rows)[j].maxAttempts
        && rows[j] == old(rows)[j].(status := Processing)
      ensures var n := if limit <= 0 then 10 else limit;
        && |jobs| <= n
        && forall j: JobId | j < |old(rows)| && j !in jobs && j !in locked &&
             old(rows)[j].status == Pending && old(rows)[j].attempts < old(rows)[j].maxAttempts ::
             |jobs| == n && forall k :: k in jobs ==> old(rows)[k].createdAt <= old(rows)[j].createdAt
      ensures rows == Claimed(old(rows), Elements(jobs))
    {
      var n := if limit <= 0 then 10 else limit;
      var table := rows;
      var eligible := set j: JobId |
        j < |table| && table[j].status == Pending && table[j].attempts < table[j].maxAttempts && j !in locked;
      assert eligible == Eligible(table, locked);
      jobs := SelectOldest(table, eligible, n);
      NoDuplicatesSize(jobs);
      if j :| j in eligible && j !in jobs {
        assert Elements(jobs) != eligible;
        SubsetSize(Elements(jobs), eligible);
      }
      rows := seq(|table|, j requires 0 <= j < |table| =>
        if j in jobs then table[j].(status := Processing) else table[j]);
    }

    method MarkJobCompleted(id: JobId)
      modifies this
      ensures id < |old(rows)| ==> rows == old(rows)[id := old(rows)[id].(status := Completed)]
      ensures id >= |old(rows)| ==> rows == old(rows)
    {
      if id < |rows| {
        rows := rows[id := rows[id].(status := Completed)];
      }
    }

    method MarkJobFailed(id: JobId)
      modifies this
      ensures id < |old(rows)| ==>
        var row := old(rows)[id];
        var status := if row.attempts + 1 < row.maxAttempts then Pending else Failed;
        rows == old(rows)[id := row.(status := status, attempts := row.attempts + 1)]
      ensures id >= |old(rows)| ==> rows == old(rows)
    {
      if id < |rows| {
        var row := rows[id];
        var status := if row.attempts + 1 >= row.maxAttempts then Failed else Pending;
        rows := rows[id := row.(status := status, attempts := row.attempts + 1)];
      }
    }
  }
}
