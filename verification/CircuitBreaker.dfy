/** The circuit breaker. A call holds the breaker's lock while its function runs, so calls are
    handled one after another; each has a start time, an outcome and an end time. */
module CircuitBreaker {

  datatype Phase = Closed | Open | Half

  datatype Outcome = Success | Failure | Panic

  datatype Call = Call(start: int, outcome: Outcome, end: int)

  datatype Config = Config(failureThreshold: int, successThreshold: int, timeout: int)

  datatype Breaker = Breaker(phase: Phase, failureCount: int, successCount: int, lastFailureTime: int)

  const NEW := Breaker(Closed, 0, 0, 0)

  /** Thresholds below one act as one. */
  function Trip(cfg: Config): (n: nat)
    ensures n >= 1
  {
    if cfg.failureThreshold < 1 then 1 else cfg.failureThreshold
  }

  function Recover(cfg: Config): (n: nat)
    ensures n >= 1
  {
    if cfg.successThreshold < 1 then 1 else cfg.successThreshold
  }

  predicate Runs(cfg: Config, b: Breaker, start: int) {
    b.phase == Open ==> start - b.lastFailureTime > cfg.timeout
  }

  function Probing(b: Breaker): Breaker {
    if b.phase == Open then b.(phase := Half, successCount := 0) else b
  }

  function AfterCall(cfg: Config, b: Breaker, c: Call): Breaker {
    if !Runs(cfg, b, c.start) then b
    else
      var p := Probing(b);
      match c.outcome
      case Panic => p
      case Success =>
        if p.phase == Half then
          if p.successCount + 1 >= cfg.successThreshold
          then p.(phase := Closed, failureCount := 0, successCount := p.successCount + 1)
          else p.(successCount := p.successCount + 1)
        else p.(failureCount := 0)
      case Failure =>
        var q := p.(failureCount := p.failureCount + 1, lastFailureTime := c.end);
        if q.failureCount >= cfg.failureThreshold then q.(phase := Open) else q
  }

  datatype Reply = Refused | Succeeded | Failed(nowOpen: bool) | Panicked

  class BreakerObject {
    const cfg: Config
    var state: Phase
    var failureCount: int
    var successCount: int
    var lastFailureTime: int
    /** Every call so far, refused ones included. */
    ghost var calls: seq<Call>

    ghost predicate Valid()
      reads this
    {
      Abs() == Run(cfg, calls)
    }

    constructor (cfg: Config)
      ensures Valid() && this.cfg == cfg && calls == []
    {
      this.cfg := cfg;
      state, failureCount, successCount, lastFailureTime := Closed, 0, 0, 0;
      calls := [];
    }

    ghost function Abs(): Breaker
      reads this
    {
      Breaker(state, failureCount, successCount, lastFailureTime)
    }

    /** Whether the call is refused, and whether the breaker is closed afterwards, follows from the calls
        that ran. */
    method Call(c: Call) returns (reply: Reply)
      requires Valid()
      modifies this
      ensures Valid() && calls == old(calls) + [c]
      ensures reply == Refused <==> Refuses(cfg, Admitted(cfg, old(calls)), c.start)
      ensures reply != Refused ==>
        && (reply == Succeeded <==> c.outcome == Success)
        && (reply == Panicked <==> c.outcome == Panic)
        && (reply.Failed? <==> c.outcome == Failure)
      ensures reply.Failed? ==> (reply.nowOpen <==> Abs().phase == Open)
      ensures state == Closed <==> !IsTripped(cfg, Admitted(cfg, calls))
    {
      CallFollowsHistory(cfg, calls, c);
      calls := calls + [c];
      if state == Open {
        if c.start - lastFailureTime > cfg.timeout {
          state := Half;
          successCount := 0;
        } else {
          return Refused;
        }
      }
      if c.outcome == Panic {
        return Panicked;
      }
      if c.outcome == Success {
        if state == Half {
          successCount := successCount + 1;
          if successCount >= cfg.successThreshold {
            state := Closed;
            failureCount := 0;
          }
        } else if state == Closed {
          failureCount := 0;
        }
        return Succeeded;
      }
      failureCount := failureCount + 1;
      lastFailureTime := c.end;
      if failureCount >= cfg.failureThreshold {
        state := Open;
        return Failed(true);
      }
      return Failed(state == Open);
    }
  }

  // ---------- The state as a function of the history ----------

  function Run(cfg: Config, calls: seq<Call>): Breaker {
    if calls == [] then NEW else AfterCall(cfg, Run(cfg, calls[..|calls| - 1]), calls[|calls| - 1])
  }

  /** The outcomes of the calls whose function ran. */
  function Ran(cfg: Config, calls: seq<Call>): seq<Outcome> {
    if calls == [] then []
    else
      var n := |calls| - 1;
      Ran(cfg, calls[..n]) + if Runs(cfg, Run(cfg, calls[..n]), calls[n].start) then [calls[n].outcome] else []
  }

  function WithoutPanics(h: seq<Outcome>): seq<Outcome> {
    if h == [] then []
    else WithoutPanics(h[..|h| - 1]) + if h[|h| - 1] == Panic then [] else [h[|h| - 1]]
  }

  /** Length of the run of `o` at the end of a history. */
  function Trailing(h: seq<Outcome>, o: Outcome): nat {
    if h == [] || h[|h| - 1] != o then 0 else 1 + Trailing(h[..|h| - 1], o)
  }

  /** `k` outcomes `o` in a row, from position `from`. */
  ghost predicate RowAt(h: seq<Outcome>, from: nat, k: nat, o: Outcome) {
    from + k <= |h| && forall i :: from <= i < from + k ==> h[i] == o
  }

  /** A row of `fails` failures that no row of `succs` successes follows. */
  ghost predicate Tripped(h: seq<Outcome>, fails: nat, succs: nat) {
    exists i: nat :: TripsAt(h, fails, succs, i)
  }

  ghost predicate TripsAt(h: seq<Outcome>, fails: nat, succs: nat, i: nat) {
    RowAt(h, i, fails, Failure) && forall j: nat :: i + fails <= j ==> !RowAt(h, j, succs, Success)
  }

  lemma {:induction false} TrailingMeaning(h: seq<Outcome>, o: Outcome, k: nat)
    requires k <= |h|
    ensures Trailing(h, o) >= k <==> RowAt(h, |h| - k, k, o)
    ensures Trailing(h, o) <= |h|
  {
    if h != [] {
      var n := |h| - 1;
      TrailingMeaning(h[..n], o, if k == 0 then 0 else k - 1);
      if k > 0 {
        assert RowAt(h, |h| - k, k, o) <==> h[n] == o && RowAt(h[..n], n - (k - 1), k - 1, o) by {
          assert forall i :: 0 <= i < n ==> h[..n][i] == h[i];
        }
      }
    }
  }

  lemma RowsOfLonger(h: seq<Outcome>, o: Outcome, from: nat, k: nat, x: Outcome)
    requires k >= 1
    ensures RowAt(h + [o], from, k, x) <==> RowAt(h, from, k, x) || (from + k == |h| + 1 && RowAt(h + [o], from, k, x))
    ensures RowAt(h + [o], from, k, x) && from + k == |h| + 1 ==> Trailing(h + [o], x) >= k
  {
    assert forall i :: 0 <= i < |h| ==> (h + [o])[i] == h[i];
    if RowAt(h + [o], from, k, x) && from + k == |h| + 1 {
      TrailingMeaning(h + [o], x, k);
    }
  }

  /** One more outcome trips an untripped history when it completes a row of failures, and clears a
      tripped one when it completes a row of successes. */
  lemma TrippedStep(h: seq<Outcome>, o: Outcome, fails: nat, succs: nat)
    requires fails >= 1 && succs >= 1
    ensures Tripped(h + [o], fails, succs) <==>
      if Tripped(h, fails, succs) then Trailing(h + [o], Success) < succs else Trailing(h + [o], Failure) >= fails
  {
    var g := h + [o];
    forall from: nat, k: nat, x: Outcome | k >= 1
      ensures RowAt(g, from, k, x) <==> RowAt(h, from, k, x) || (from + k == |g| && RowAt(g, from, k, x))
      ensures RowAt(g, from, k, x) && from + k == |g| ==> Trailing(g, x) >= k
    {
      RowsOfLonger(h, o, from, k, x);
    }
    if Trailing(g, Success) >= succs {
      ClearedNow(g, fails, succs);
    } else if i: nat :| TripsAt(h, fails, succs, i) {
      assert TripsAt(g, fails, succs, i);
    }
    if Trailing(g, Failure) >= fails {
      TrailingMeaning(g, Failure, 0);
      TrailingMeaning(g, Failure, fails);
      assert TripsAt(g, fails, succs, |g| - fails);
      assert g[|g| - 1] == Failure;
    } else if i: nat :| TripsAt(g, fails, succs, i) {
      assert TripsAt(h, fails, succs, i);
    }
  }

  lemma ClearedNow(g: seq<Outcome>, fails: nat, succs: nat)
    requires fails >= 1 && succs >= 1 && Trailing(g, Success) >= succs
    ensures !Tripped(g, fails, succs)
  {
    TrailingMeaning(g, Success, 0);
    TrailingMeaning(g, Success, succs);
    assert RowAt(g, |g| - succs, succs, Success);
    forall i: nat ensures !TripsAt(g, fails, succs, i) {
      assert RowAt(g, i, fails, Failure) ==> g[i + fails - 1] == Failure;
    }
  }

  /** The breaker against the outcomes of the calls that ran. */
  ghost predicate Explained(cfg: Config, b: Breaker, ran: seq<Outcome>) {
    var h := WithoutPanics(ran);
    && (b.phase == Closed <==> !Tripped(h, Trip(cfg), Recover(cfg)))
    && (b.phase == Open ==> ran != [] && ran[|ran| - 1] == Failure)
    && (b.phase == Half ==> ran != [] && ran[|ran| - 1] != Failure)
    && (b.phase == Closed ==> b.failureCount == Trailing(h, Failure) < Trip(cfg))
    && (b.phase != Closed ==> b.failureCount >= Trip(cfg))
    && (b.phase == Half ==> b.successCount == Trailing(h, Success) < Recover(cfg))
    && (b.phase == Open ==> Trailing(h, Success) == 0)
  }

  lemma EmptyIsNotTripped(fails: nat, succs: nat)
    requires fails >= 1
    ensures !Tripped([], fails, succs)
  {
    forall i: nat ensures !TripsAt([], fails, succs, i) {
    }
  }

  lemma StepStaysExplained(cfg: Config, b: Breaker, c: Call, ran: seq<Outcome>)
    requires Explained(cfg, b, ran) && Runs(cfg, b, c.start)
    ensures Explained(cfg, AfterCall(cfg, b, c), ran + [c.outcome])
  {
    var h := WithoutPanics(ran);
    assert (ran + [c.outcome])[..|ran|] == ran;
    if c.outcome == Panic {
      assert WithoutPanics(ran + [c.outcome]) == h;
    } else {
      assert WithoutPanics(ran + [c.outcome]) == h + [c.outcome];
      assert (h + [c.outcome])[..|h|] == h;
      TrippedStep(h, c.outcome, Trip(cfg), Recover(cfg));
    }
  }

  /** After any calls at all, the breaker is closed exactly when every row of `failureThreshold`
      failures has been followed by a row of `successThreshold` successes; otherwise it is open or
      half-open according to how the last call that ran ended. Its counters are the trailing rows. */
  lemma {:induction false} StateIsExplainedByHistory(cfg: Config, calls: seq<Call>)
    ensures Explained(cfg, Run(cfg, calls), Ran(cfg, calls))
  {
    if calls == [] {
      EmptyIsNotTripped(Trip(cfg), Recover(cfg));
    } else {
      var n := |calls| - 1;
      StateIsExplainedByHistory(cfg, calls[..n]);
      if Runs(cfg, Run(cfg, calls[..n]), calls[n].start) {
        StepStaysExplained(cfg, Run(cfg, calls[..n]), calls[n], Ran(cfg, calls[..n]));
      } else {
        assert Ran(cfg, calls) == Ran(cfg, calls[..n]);
      }
    }
  }

  /** While half-open, one failure reopens the breaker and only the `successThreshold`-th success in a
      row closes it. */
  lemma HalfOpenCall(cfg: Config, calls: seq<Call>, c: Call)
    requires Run(cfg, calls).phase == Half
    ensures var next := Run(cfg, calls + [c]);
      && Ran(cfg, calls + [c]) == Ran(cfg, calls) + [c.outcome]
      && (c.outcome == Failure ==> next.phase == Open)
      && (next.phase == Closed
          <==> c.outcome == Success && Trailing(WithoutPanics(Ran(cfg, calls)), Success) + 1 == Recover(cfg))
  {
    StateIsExplainedByHistory(cfg, calls);
    assert (calls + [c])[..|calls|] == calls;
  }

  // ---------- Which calls run ----------

  function Outcomes(ran: seq<Call>): (h: seq<Outcome>)
    ensures |h| == |ran|
  {
    seq(|ran|, i requires 0 <= i < |ran| => ran[i].outcome)
  }

  /** A row of failures among the calls that ran has not been followed by a row of successes. */
  ghost predicate IsTripped(cfg: Config, ran: seq<Call>) {
    Tripped(WithoutPanics(Outcomes(ran)), Trip(cfg), Recover(cfg))
  }

  /** After the calls that ran, one starting at `start` is refused. */
  ghost predicate Refuses(cfg: Config, ran: seq<Call>, start: int) {
    && IsTripped(cfg, ran) && ran != [] && ran[|ran| - 1].outcome == Failure
    && start <= ran[|ran| - 1].end + cfg.timeout
  }

  /** The calls that ran, told from the calls alone. */
  ghost function Admitted(cfg: Config, calls: seq<Call>): seq<Call> {
    if calls == [] then []
    else
      var ran, last := Admitted(cfg, calls[..|calls| - 1]), calls[|calls| - 1];
      if Refuses(cfg, ran, last.start) then ran else ran + [last]
  }

  lemma {:induction false} AdmittedRan(cfg: Config, calls: seq<Call>)
    ensures var b, ran := Run(cfg, calls), Admitted(cfg, calls);
      && Ran(cfg, calls) == Outcomes(ran)
      && (b.phase == Open ==> ran != [] && b.lastFailureTime == ran[|ran| - 1].end)
      && forall start :: Runs(cfg, b, start) <==> !Refuses(cfg, ran, start)
  {
    if calls != [] {
      var n := |calls| - 1;
      AdmittedRan(cfg, calls[..n]);
      var before := Admitted(cfg, calls[..n]);
      assert Runs(cfg, Run(cfg, calls[..n]), calls[n].start) <==> !Refuses(cfg, before, calls[n].start);
      assert Outcomes(before + [calls[n]]) == Outcomes(before) + [calls[n].outcome];
    } else {
      assert Outcomes([]) == [];
    }
    StateIsExplainedByHistory(cfg, calls);
  }

  /** Whatever the calls before, a call is refused if and only if a row of failures is outstanding, the
      last call that ran failed, and less than the timeout, or just that, has passed since its end. */
  lemma RefusalsFollowHistory(cfg: Config, calls: seq<Call>, start: int)
    ensures var ran := Admitted(cfg, calls);
      && (Runs(cfg, Run(cfg, calls), start) <==> !Refuses(cfg, ran, start))
      && (Run(cfg, calls).phase == Closed <==> !IsTripped(cfg, ran))
  {
    AdmittedRan(cfg, calls);
    StateIsExplainedByHistory(cfg, calls);
  }

  lemma CallFollowsHistory(cfg: Config, calls: seq<Call>, c: Call)
    ensures var b, next := Run(cfg, calls), Run(cfg, calls + [c]);
      && next == AfterCall(cfg, b, c)
      && (Runs(cfg, b, c.start) <==> !Refuses(cfg, Admitted(cfg, calls), c.start))
      && (next.phase == Closed <==> !IsTripped(cfg, Admitted(cfg, calls + [c])))
  {
    assert (calls + [c])[..|calls|] == calls;
    RefusalsFollowHistory(cfg, calls, c.start);
    RefusalsFollowHistory(cfg, calls + [c], c.start);
  }

  ghost predicate AllSucceed(calls: seq<Call>) {
    forall i :: 0 <= i < |calls| ==> calls[i].outcome == Success
  }

  lemma AdmittedSnoc(cfg: Config, calls: seq<Call>, c: Call)
    ensures Admitted(cfg, calls + [c]) ==
      Admitted(cfg, calls) + if Refuses(cfg, Admitted(cfg, calls), c.start) then [] else [c]
  {
    assert (calls + [c])[..|calls|] == calls;
  }

  lemma SuccessLetsThrough(cfg: Config, ran: seq<Call>, more: seq<Call>, start: int)
    requires more != [] && more[|more| - 1].outcome == Success
    ensures !Refuses(cfg, ran + more, start)
  {
    assert (ran + more)[|ran + more| - 1] == more[|more| - 1];
  }

  lemma {:induction false} ProbesRun(cfg: Config, calls: seq<Call>, ran: seq<Call>, probes: seq<Call>)
    requires AllSucceed(probes) && ran == Admitted(cfg, calls)
    requires probes != [] ==> !Refuses(cfg, ran, probes[0].start)
    ensures Admitted(cfg, calls + probes) == ran + probes
  {
    if probes == [] {
      assert calls + probes == calls;
    } else {
      var n := |probes| - 1;
      var front, last := probes[..n], probes[n];
      assert probes == front + [last];
      ProbesRun(cfg, calls, ran, front);
      assert calls + probes == (calls + front) + [last];
      assert !Refuses(cfg, ran + front, last.start) by {
        if n > 0 {
          SuccessLetsThrough(cfg, ran, front, last.start);
        } else {
          assert ran + front == ran;
        }
      }
      AdmittedSnoc(cfg, calls + front, last);
    }
  }

  lemma {:induction false} SuccessesTrail(ran: seq<Call>, probes: seq<Call>)
    requires AllSucceed(probes)
    ensures Trailing(WithoutPanics(Outcomes(ran + probes)), Success) >= |probes|
  {
    if probes != [] {
      var n := |probes| - 1;
      SuccessesTrail(ran, probes[..n]);
      var h := Outcomes(ran + probes);
      assert h[..|h| - 1] == Outcomes(ran + probes[..n]);
      assert h[|h| - 1] == Success;
      var front := WithoutPanics(h[..|h| - 1]);
      assert (front + [Success])[..|front|] == front;
    }
  }

  /** From any open state, a row of `successThreshold` successes whose first begins more than the timeout
      after the last failure's end is let through and closes the breaker. */
  lemma RecoveryCloses(cfg: Config, calls: seq<Call>, probes: seq<Call>)
    requires var ran := Admitted(cfg, calls);
      ran != [] && ran[|ran| - 1].outcome == Failure && probes != [] &&
      probes[0].start > ran[|ran| - 1].end + cfg.timeout
    requires AllSucceed(probes) && |probes| == Recover(cfg)
    ensures Admitted(cfg, calls + probes) == Admitted(cfg, calls) + probes
    ensures !IsTripped(cfg, Admitted(cfg, calls + probes)) && Run(cfg, calls + probes).phase == Closed
  {
    var ran := Admitted(cfg, calls);
    ProbesRun(cfg, calls, ran, probes);
    SuccessesTrail(ran, probes);
    ClearedNow(WithoutPanics(Outcomes(ran + probes)), Trip(cfg), Recover(cfg));
    RefusalsFollowHistory(cfg, calls + probes, 0);
  }

  // ---------- How often a failing function runs ----------

  predicate Timed(calls: seq<Call>) {
    && (forall n :: 0 <= n < |calls| ==> calls[n].start <= calls[n].end)
    && (forall m, n :: 0 <= m < n < |calls| ==> calls[m].end <= calls[n].start)
  }

  /** The start times of the calls whose function ran. */
  function Starts(cfg: Config, calls: seq<Call>): seq<int> {
    if calls == [] then []
    else
      var n := |calls| - 1;
      Starts(cfg, calls[..n]) + if Runs(cfg, Run(cfg, calls[..n]), calls[n].start) then [calls[n].start] else []
  }

  ghost predicate AllFail(cfg: Config, calls: seq<Call>) {
    forall i :: 0 <= i < |Ran(cfg, calls)| ==> Ran(cfg, calls)[i] == Failure
  }

  /** Once tripped, a failing function runs again only after a full timeout. */
  ghost predicate Spaced(cfg: Config, starts: seq<int>) {
    forall i :: 0 < i < |starts| ==>
      starts[i - 1] <= starts[i] && (i >= Trip(cfg) ==> starts[i] - starts[i - 1] > cfg.timeout)
  }

  /** The breaker after nothing but failures, started at `starts`. */
  ghost predicate Failing(cfg: Config, b: Breaker, starts: seq<int>) {
    && Spaced(cfg, starts) && b.failureCount == |starts|
    && (b.phase == Closed <==> |starts| < Trip(cfg)) && b.phase != Half
    && (starts != [] ==> starts[|starts| - 1] <= b.lastFailureTime)
  }

  lemma FailingStep(cfg: Config, b: Breaker, starts: seq<int>, c: Call)
    requires Failing(cfg, b, starts) && Runs(cfg, b, c.start) && c.outcome == Failure && c.start <= c.end
    requires starts != [] ==> b.lastFailureTime <= c.start
    ensures Failing(cfg, AfterCall(cfg, b, c), starts + [c.start])
    ensures AfterCall(cfg, b, c).lastFailureTime == c.end
  {
  }

  lemma {:induction false} FailingRunsAreSpaced(cfg: Config, calls: seq<Call>)
    requires Timed(calls) && AllFail(cfg, calls)
    ensures Failing(cfg, Run(cfg, calls), Starts(cfg, calls)) && |Starts(cfg, calls)| == |Ran(cfg, calls)|
    ensures Starts(cfg, calls) != [] ==> calls != [] && Run(cfg, calls).lastFailureTime <= calls[|calls| - 1].end
  {
    if calls != [] {
      var n := |calls| - 1;
      var ran := Ran(cfg, calls[..n]);
      assert AllFail(cfg, calls[..n]) by {
        assert forall i :: 0 <= i < |ran| ==> Ran(cfg, calls)[i] == ran[i];
      }
      FailingRunsAreSpaced(cfg, calls[..n]);
      if Runs(cfg, Run(cfg, calls[..n]), calls[n].start) {
        assert Ran(cfg, calls)[|ran|] == calls[n].outcome;
        assert n > 0 ==> calls[n - 1].end <= calls[n].start;
        FailingStep(cfg, Run(cfg, calls[..n]), Starts(cfg, calls[..n]), calls[n]);
      } else {
        assert n > 0 ==> calls[n - 1].end <= calls[n].start <= calls[n].end;
      }
    }
  }

  lemma OneMore(k: int, t: int)
    ensures k * t == (k - 1) * t + t
    ensures k == 1 ==> k * t == t
  {
  }

  lemma {:induction false} SpacedSpan(cfg: Config, starts: seq<int>)
    requires Spaced(cfg, starts) && |starts| > 0
    ensures starts[0] <= starts[|starts| - 1]
    ensures |starts| > Trip(cfg) ==> (|starts| - Trip(cfg)) * cfg.timeout < starts[|starts| - 1] - starts[0]
  {
    var n := |starts| - 1;
    if n > 0 {
      SpacedSpan(cfg, starts[..n]);
      assert starts[..n][n - 1] == starts[n - 1];
      OneMore(|starts| - Trip(cfg), cfg.timeout);
    }
  }

  /** If every call that runs fails, then over a span `span` the function runs at most
      `failureThreshold + span / timeout` times, however the calls are scheduled. */
  lemma FailingCallsAreRare(cfg: Config, calls: seq<Call>, span: nat)
    requires Timed(calls) && AllFail(cfg, calls) && cfg.timeout > 0
    requires calls != [] && calls[|calls| - 1].start - calls[0].start <= span
    ensures |Ran(cfg, calls)| <= Trip(cfg) + span / cfg.timeout
  {
    var starts := Starts(cfg, calls);
    FailingRunsAreSpaced(cfg, calls);
    if |starts| > Trip(cfg) {
      SpacedSpan(cfg, starts);
      StartsAreCallStarts(cfg, calls);
      DivideSpan(|starts| - Trip(cfg), cfg.timeout, span);
    }
  }

  lemma {:induction false} StartsAreCallStarts(cfg: Config, calls: seq<Call>)
    requires Timed(calls) && calls != []
    ensures forall i :: 0 <= i < |Starts(cfg, calls)| ==> calls[0].start <= Starts(cfg, calls)[i] <= calls[|calls| - 1].start
  {
    var n := |calls| - 1;
    if n > 0 {
      StartsAreCallStarts(cfg, calls[..n]);
      assert calls[n - 1].end <= calls[n].start && calls[0].end <= calls[n].start;
    } else {
      assert calls[..n] == [];
    }
  }

  lemma DivideSpan(k: nat, timeout: nat, span: nat)
    requires timeout > 0 && k * timeout <= span
    ensures k <= span / timeout
  {
    var q := span / timeout;
    assert span < (q + 1) * timeout;
    MultiplyUp(q + 1, k, timeout);
  }

  lemma MultiplyUp(a: nat, b: nat, t: nat)
    ensures a <= b ==> a * t <= b * t
  {
  }
}
