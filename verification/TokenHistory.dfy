/** What a refresh, the session in memory and the restored flag owe to the events of a run. */
module TokenHistory {
  import opened Basics
  import opened TokenRefresh

  lemma {:induction false} Unsnoc(st: State, steps: seq<Step>)
    requires Legal(st, steps) && steps != []
    ensures var n := |steps| - 1;
      && Legal(st, steps[..n]) && Enabled(After(st, steps[..n]), steps[n])
      && After(st, steps) == Apply(After(st, steps[..n]), steps[n])
    decreases |steps|
  {
    var n := |steps| - 1;
    if n == 0 {
      assert steps[..0] == [] && steps[1..] == [];
    } else {
      Unsnoc(Apply(st, steps[0]), steps[1..]);
      assert steps[1..][..n - 1] == steps[..n][1..];
    }
  }

  // ---------- The phases of a refresh ----------

  /** The events a task has been given, in order. */
  function EventsOf(steps: seq<Step>, t: TaskId): seq<Event> {
    if steps == [] then []
    else
      var last := steps[|steps| - 1];
      EventsOf(steps[..|steps| - 1], t) + if last.RunTask? && last.t == t then [last.event] else []
  }

  /** Whether the restored flag was set when the task began. */
  ghost function WasRestored(steps: seq<Step>, t: TaskId): bool
    requires Legal(IDLE, steps)
  {
    if steps == [] then false
    else
      var n := |steps| - 1;
      Unsnoc(IDLE, steps);
      if steps[n] == RunTask(t, Scheduled) then After(IDLE, steps[..n]).restored else WasRestored(steps[..n], t)
  }

  /** A stored session is good for a whole second or more. */
  predicate Lasts(session: Option<Session>, now: int) {
    session.Some? && session.value.expiresAt - now >= 1000
  }

  /** What a task is about after the events given. */
  predicate Follows(r: Refresh, events: seq<Event>, wasRestored: bool) {
    if events == [] then r == NotStarted
    else
      var before, last := events[..|events| - 1], events[|events| - 1];
      match last
      case Scheduled => r == if wasRestored then Contacting else LoadingPersisted
      case PersistedLoaded(session) => r == if session.Some? then RestoringSession else Contacting
      case SessionSet => r == Contacting
      case Answered(s) => r == if s.accessToken == "" then LoadingFallback else Saving(s)
      case Saved =>
        before != [] && before[|before| - 1].Answered? && r == Finished(Refreshed(before[|before| - 1].answer))
      case FallbackLoaded(session, now) =>
        r == if Lasts(session, now) then Finished(FellBack(session.value)) else Finished(Threw)
      case Failed => r == if EndsIt(before, wasRestored) then Finished(Threw) else LoadingFallback
  }

  /** A failure after these events ends the refresh: while restoring, or while loading the fallback. */
  predicate EndsIt(events: seq<Event>, wasRestored: bool) {
    events != [] &&
    match events[|events| - 1]
    case Scheduled => !wasRestored
    case PersistedLoaded(session) => session.Some?
    case Answered(s) => s.accessToken == ""
    case Failed => true
    case _ => false
  }

  /** One more event. */
  lemma FollowsOn(st: State, t: TaskId, event: Event, events: seq<Event>, was: bool)
    requires Enabled(st, RunTask(t, event)) && Follows(st.tasks[t], events, was)
    ensures Follows(
      Apply(st, RunTask(t, event)).tasks[t], events + [event], if event.Scheduled? then st.restored else was)
  {
    var longer := events + [event];
    assert longer[..|longer| - 1] == events;
  }

  lemma {:induction false} NoEventsYet(steps: seq<Step>, t: TaskId)
    requires Legal(IDLE, steps) && t >= |After(IDLE, steps).tasks|
    ensures EventsOf(steps, t) == []
  {
    if steps != [] {
      Unsnoc(IDLE, steps);
      NoEventsYet(steps[..|steps| - 1], t);
    }
  }

  /** In every interleaving, what each refresh is about, and how it ended, follows from the events it was
      given. It ends with a refreshed session exactly when it was saved, and falls back to a stored session
      exactly when one was loaded that was good for at least a second more; an error while restoring ends
      it, any later one leads to the fallback, and an error there ends it too. */
  lemma {:induction false} RefreshFollowsEvents(steps: seq<Step>, t: TaskId)
    requires Legal(IDLE, steps) && t < |After(IDLE, steps).tasks|
    ensures Follows(After(IDLE, steps).tasks[t], EventsOf(steps, t), WasRestored(steps, t))
  {
    var n := |steps| - 1;
    Unsnoc(IDLE, steps);
    var st, step := After(IDLE, steps[..n]), steps[n];
    if t >= |st.tasks| {
      NoEventsYet(steps[..n], t);
      TaskBegins(st, step, t);
    } else {
      RefreshFollowsEvents(steps[..n], t);
      if step.RunTask? && step.t == t {
        FollowsOn(st, t, step.event, EventsOf(steps[..n], t), WasRestored(steps[..n], t));
      } else {
        TaskStays(st, step, t);
        assert EventsOf(steps, t) == EventsOf(steps[..n], t);
      }
    }
  }

  lemma TaskBegins(st: State, step: Step, t: TaskId)
    requires Enabled(st, step) && |st.tasks| <= t < |Apply(st, step).tasks|
    ensures Apply(st, step).tasks[t] == NotStarted && !step.RunTask?
  {
  }

  lemma TaskStays(st: State, step: Step, t: TaskId)
    requires Enabled(st, step) && t < |st.tasks| && !(step.RunTask? && step.t == t)
    ensures t < |Apply(st, step).tasks| && Apply(st, step).tasks[t] == st.tasks[t]
  {
  }

  /** The answer to a fallback load decides: a session good for at least a second more is handed out and
      kept in memory; otherwise the refresh throws and memory stays as it was. */
  lemma FallbackDecides(steps: seq<Step>, t: TaskId, session: Option<Session>, now: int)
    requires Legal(IDLE, steps) && t < |After(IDLE, steps).tasks|
    requires After(IDLE, steps).tasks[t] == LoadingFallback
    ensures var st := After(IDLE, steps); var next := Apply(st, RunTask(t, FallbackLoaded(session, now)));
      if session.Some? && session.value.expiresAt - now >= 1000 then
        next.tasks[t] == Finished(FellBack(session.value)) && next.memory == session
      else
        next.tasks[t] == Finished(Threw) && next.memory == st.memory
  {
  }

  lemma {:induction false} EventsAreSteps(steps: seq<Step>, t: TaskId, event: Event)
    requires event in EventsOf(steps, t)
    ensures RunTask(t, event) in steps
  {
    var n := |steps| - 1;
    if event in EventsOf(steps[..n], t) {
      EventsAreSteps(steps[..n], t, event);
      assert RunTask(t, event) in steps[..n];
    }
  }

  /** No caller is ever handed a stored session that had less than a second left when it was loaded. */
  lemma NoExpiredFallback(steps: seq<Step>, c: CallerId) returns (now: int)
    requires Legal(IDLE, steps)
    requires var st := After(IDLE, steps);
      c in st.callers && st.callers[c].Returned? && st.callers[c].outcome.FellBack?
    ensures var caller := After(IDLE, steps).callers[c]; var session := caller.outcome.session;
      RunTask(caller.t, FallbackLoaded(Some(session), now)) in steps && session.expiresAt - now >= 1000
  {
    RunKeepsInv(IDLE, steps);
    var caller := After(IDLE, steps).callers[c];
    RefreshFollowsEvents(steps, caller.t);
    var events := EventsOf(steps, caller.t);
    var last := events[|events| - 1];
    now := last.now;
    EventsAreSteps(steps, caller.t, last);
  }

  // ---------- Memory ----------

  /** The session in memory after the steps, told from the steps alone: the last one read from the vault,
      received, fallen back to, or set from outside, unless a sign-out came later. */
  function LastSession(steps: seq<Step>): Option<Session> {
    if steps == [] then None
    else
      var before := LastSession(steps[..|steps| - 1]);
      match steps[|steps| - 1]
      case SetMemory(session) => session
      case SignOut => None
      case RunTask(_, PersistedLoaded(session)) => if session.Some? then session else before
      case RunTask(_, Answered(s)) => if s.accessToken != "" then Some(s) else before
      case RunTask(_, FallbackLoaded(session, now)) => if Lasts(session, now) then session else before
      case _ => before
  }

  /** Memory is what the run last put there. */
  lemma {:induction false} MemoryFollowsEvents(steps: seq<Step>)
    requires Legal(IDLE, steps)
    ensures After(IDLE, steps).memory == LastSession(steps)
  {
    if steps != [] {
      Unsnoc(IDLE, steps);
      MemoryFollowsEvents(steps[..|steps| - 1]);
    }
  }

  // ---------- The restored flag ----------

  predicate IsRestoring(st: State, t: TaskId) {
    t < |st.tasks| && (st.tasks[t].LoadingPersisted? || st.tasks[t].RestoringSession?)
  }

  /** After the first `k` steps of the run, some task leaves the restore routine, or a sign-in ends. */
  ghost predicate EndsRestore(steps: seq<Step>, k: nat) {
    && k < |steps| && Legal(IDLE, steps[..k]) && Enabled(After(IDLE, steps[..k]), steps[k])
    && (steps[k].MarkRestored? ||
        (steps[k].RunTask? && IsRestoring(After(IDLE, steps[..k]), steps[k].t)
         && !IsRestoring(Apply(After(IDLE, steps[..k]), steps[k]), steps[k].t)))
  }

  /** Such a step that no sign-out has followed. */
  ghost predicate RestoresLastingly(steps: seq<Step>, k: nat) {
    EndsRestore(steps, k) && forall m :: k < m < |steps| ==> !steps[m].SignOut?
  }

  /** The flag is set exactly when, since the last sign-out, a refresh has left the restore routine in
      whatever way, or a sign-in has ended. */
  lemma {:induction false} FlagFollowsRun(steps: seq<Step>)
    requires Legal(IDLE, steps)
    ensures After(IDLE, steps).restored <==> exists k: nat :: RestoresLastingly(steps, k)
  {
    if steps != [] {
      var n := |steps| - 1;
      Unsnoc(IDLE, steps);
      FlagFollowsRun(steps[..n]);
      forall k: nat | k < n
        ensures RestoresLastingly(steps, k) <==> RestoresLastingly(steps[..n], k) && !steps[n].SignOut?
      {
        assert steps[..n][..k] == steps[..k] && steps[..n][k] == steps[k];
        assert forall m :: k < m < n ==> steps[..n][m] == steps[m];
      }
      if k: nat :| RestoresLastingly(steps[..n], k) && !steps[n].SignOut? {
        assert RestoresLastingly(steps, k);
      }
      assert EndsRestore(steps, n) ==> RestoresLastingly(steps, n);
    }
  }
}
