/** The rolling latency average of the health endpoint, kept as one truncated integer. */
module RequestMetrics {
  import opened Basics

  /** One finished request: its duration in nanoseconds and whether it failed. */
  datatype Request = Request(duration: int, failed: bool)

  function Milliseconds(duration: int): int {
    Quotient(duration, 1_000_000)
  }

  function Average(requests: seq<Request>): int {
    var n := |requests|;
    if n == 0 then 0
    else
      var latest := Milliseconds(requests[n - 1].duration);
      if n == 1 then latest else Quotient(Average(requests[..n - 1]) * (n - 1) + latest, n)
  }

  function Failures(requests: seq<Request>): nat {
    if requests == [] then 0
    else Failures(requests[..|requests| - 1]) + if requests[|requests| - 1].failed then 1 else 0
  }

  /** The exact total, in milliseconds. */
  function Sum(requests: seq<Request>): int {
    if requests == [] then 0
    else Sum(requests[..|requests| - 1]) + Milliseconds(requests[|requests| - 1].duration)
  }

  class Metrics {
    var total: int
    var errors: int
    var avgLatencyMS: int
    ghost var history: seq<Request>

    ghost predicate Valid()
      reads this
    {
      total == |history| && errors == Failures(history) && avgLatencyMS == Average(history)
    }

    constructor ()
      ensures Valid() && history == []
    {
      total, errors, avgLatencyMS := 0, 0, 0;
      history := [];
    }

    method RecordRequestMetric(duration: int, failed: bool)
      requires Valid()
      modifies this
      ensures Valid() && history == old(history) + [Request(duration, failed)]
      ensures total == |history| && errors == |set i: nat | i < |history| && history[i].failed|
    {
      total := total + 1;
      if failed {
        errors := errors + 1;
      }
      var oldTotal := total - 1;
      if oldTotal > 0 {
        avgLatencyMS := Quotient(avgLatencyMS * oldTotal + Milliseconds(duration), total);
      } else {
        avgLatencyMS := Milliseconds(duration);
      }
      history := history + [Request(duration, failed)];
      assert history[..|history| - 1] == old(history);
      FailuresAreCounted(history);
    }
  }

  /** The errors counted are the requests that failed. */
  lemma {:induction false} FailuresAreCounted(requests: seq<Request>)
    ensures Failures(requests) == |set i: nat | i < |requests| && requests[i].failed|
  {
    var failed := set i: nat | i < |requests| && requests[i].failed;
    if requests == [] {
      assert failed == {};
    } else {
      var n := |requests| - 1;
      FailuresAreCounted(requests[..n]);
      var before := set i: nat | i < n && requests[..n][i].failed;
      assert failed == before + if requests[n].failed then {n} else {};
    }
  }

  // ---------- How far the average drifts ----------

  /** 0 + 1 + ... + (n - 1). */
  function Triangle(n: nat): (t: int)
    ensures 2 * t == n * (n - 1) && t >= 0
  {
    if n == 0 then 0 else Triangle(n - 1) + n - 1
  }

  /** What division drops keeps the sign of the dividend and is smaller than the divisor. */
  lemma DividingDrops(a: int, b: int)
    requires b > 0
    ensures -b < a - b * Quotient(a, b) < b
    ensures a >= 0 ==> 0 <= a - b * Quotient(a, b) && Quotient(a, b) >= 0
  {
  }

  /** How far the average falls short of the mean, times the number of requests. */
  function Shortfall(requests: seq<Request>): int {
    Sum(requests) - |requests| * Average(requests)
  }

  lemma ProductIsNatural(a: int, b: int)
    requires a >= 0 && b >= 0
    ensures a * b >= 0
  {
  }

  lemma ShortfallStep(requests: seq<Request>)
    requires |requests| > 1
    ensures var init, n := requests[..|requests| - 1], |requests|;
      var change := Shortfall(requests) - Shortfall(init);
      -n < change < n
      && (Average(init) >= 0 && requests[n - 1].duration >= 0 ==> change >= 0 && Average(requests) >= 0)
  {
    var init, n := requests[..|requests| - 1], |requests|;
    var latest := Milliseconds(requests[n - 1].duration);
    var carried := Average(init) * (n - 1) + latest;
    DividingDrops(carried, n);
    if Average(init) >= 0 && requests[n - 1].duration >= 0 {
      ProductIsNatural(Average(init), n - 1);
    }
    assert Shortfall(requests) - Shortfall(init) == carried - n * Quotient(carried, n);
  }

  /** After n requests, their sum and n times the reported average differ by at most n(n-1)/2; when no
      duration is negative the average never exceeds the true mean. */
  lemma {:induction false} AverageDrift(requests: seq<Request>)
    ensures -Triangle(|requests|) <= Sum(requests) - |requests| * Average(requests) <= Triangle(|requests|)
    ensures (forall r :: r in requests ==> r.duration >= 0) ==>
      0 <= Sum(requests) - |requests| * Average(requests) && Average(requests) >= 0
  {
    var n := |requests|;
    if n > 1 {
      var init := requests[..n - 1];
      AverageDrift(init);
      ShortfallStep(requests);
      assert forall r :: r in init ==> r in requests;
    } else if n == 1 {
      assert Sum(requests[..0]) == 0;
    }
  }

  function Nanoseconds(requests: seq<Request>): int {
    if requests == [] then 0 else Nanoseconds(requests[..|requests| - 1]) + requests[|requests| - 1].duration
  }

  lemma {:induction false} MillisecondsDrop(requests: seq<Request>)
    requires forall r :: r in requests ==> r.duration >= 0
    ensures 0 <= Nanoseconds(requests) - 1_000_000 * Sum(requests) <= 1_000_000 * |requests|
  {
    if requests != [] {
      var init, last := requests[..|requests| - 1], requests[|requests| - 1];
      assert last in requests && forall r :: r in init ==> r in requests;
      MillisecondsDrop(init);
      DividingDrops(last.duration, 1_000_000);
    }
  }

  /** In nanoseconds, the average never exceeds the mean of what was recorded, and falls short of it, after n
      requests, by no more than (n + 1)/2 milliseconds. */
  lemma AverageInNanoseconds(requests: seq<Request>)
    requires forall r :: r in requests ==> r.duration >= 0
    ensures var n := |requests|; var short := Nanoseconds(requests) - n * Average(requests) * 1_000_000;
      0 <= short && 2 * short <= n * (n + 1) * 1_000_000
  {
    AverageDrift(requests);
    MillisecondsDrop(requests);
    var n := |requests|;
    assert 2 * Triangle(n) + 2 * n == n * (n + 1);
  }

  /** The average lies between any bounds on the recorded milliseconds. */
  lemma {:induction false} AverageIsBetween(requests: seq<Request>, low: int, high: int)
    requires requests != []
    requires forall r :: r in requests ==> low <= Milliseconds(r.duration) <= high
    ensures low <= Average(requests) <= high
  {
    var n := |requests|;
    if n > 1 {
      var init := requests[..n - 1];
      AverageIsBetween(init, low, high);
      var latest := Milliseconds(requests[n - 1].duration);
      QuotientIsBetween(Average(init), latest, n, low, high);
    }
  }

  lemma Times(n: int, low: int, high: int)
    requires n > 0
    ensures low <= high ==> n * low <= n * high
    ensures low < high ==> n * low + n <= n * high
  {
    if low < high {
      assert n * (high - low - 1) >= 0 by { ProductIsNatural(n, high - low - 1); }
    }
  }

  lemma QuotientIsBetween(average: int, latest: int, n: int, low: int, high: int)
    requires n > 1 && low <= average <= high && low <= latest <= high
    ensures low <= Quotient(average * (n - 1) + latest, n) <= high
  {
    var a := average * (n - 1) + latest;
    var q := Quotient(a, n);
    Times(n - 1, low, average);
    Times(n - 1, average, high);
    assert n * low <= a <= n * high;
    DividingDrops(a, n);
    Times(n, q, low);
    Times(n, high, q);
  }

  function Ramp(n: nat): (requests: seq<Request>)
    ensures |requests| == n
  {
    seq(n, i => Request(i * 1_000_000, false))
  }

  /** The bound is met: durations of 0, 1, ..., n-1 milliseconds leave the average at zero. */
  lemma {:induction false} DriftIsMet(n: nat)
    ensures Average(Ramp(n)) == 0 && Sum(Ramp(n)) - n * Average(Ramp(n)) == Triangle(n)
  {
    if n > 0 {
      DriftIsMet(n - 1);
      assert Ramp(n)[..n - 1] == Ramp(n - 1);
      assert Milliseconds(Ramp(n)[n - 1].duration) == n - 1;
    }
  }
}
