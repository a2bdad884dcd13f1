/** The token refresh of the authentication actor.

    The actor is reentrant: other calls run whenever one is suspended at an `await`. Each stretch
    between awaits is one atomic step. A refresh is an unstructured task of its own; its caller, the
    owner, waits for it and clears the slot when it resumes, and callers that find the slot taken
    wait for the same task. */
module TokenRefresh {
  import opened Basics

  type CallerId = nat
  type TaskId = nat

  datatype Session = Session(accessToken: string, expiresAt: int)

  datatype Outcome = Refreshed(session: Session) | FellBack(session: Session) | Threw

  /** Where a refresh task is suspended. */
  datatype Refresh =
    | NotStarted
    | LoadingPersisted
    | RestoringSession
    | Contacting
    | Saving(session: Session)
    | LoadingFallback
    | Finished(outcome: Outcome)

  datatype Caller = Owner(t: TaskId) | Joiner(t: TaskId) | Returned(t: TaskId, outcome: Outcome, owned: bool)

  /** Tasks are numbered in the order they were created; `owners` (who created each task) is
      bookkeeping that no step reads. */
  datatype State = State(
    slot: Option<TaskId>, lastAttempt: Option<int>, memory: Option<Session>, restored: bool,
    tasks: seq<Refresh>, callers: map<CallerId, Caller>, owners: seq<CallerId>)

  /** The first three are the refresh; a sign-in or a session request sets memory and the restored flag
      from outside it, and the last stretch of a sign-out takes both back. */
  datatype Step =
    | Call(c: CallerId, now: int)
    | RunTask(t: TaskId, event: Event)
    | Resume(c: CallerId)
    | SetMemory(session: Option<Session>)
    | MarkRestored
    | SignOut

  /** What the awaited operation of a suspended task delivered. */
  datatype Event =
    | Scheduled
    | PersistedLoaded(session: Option<Session>)
    | SessionSet
    | Answered(answer: Session)
    | Saved
    | FallbackLoaded(session: Option<Session>, now: int)
    | Failed

  const MIN_REFRESH_INTERVAL := 1000
  const IDLE := State(None, None, None, false, [], map[], [])

  /** One stretch of a refresh task: the awaited event arrives and the task runs to its next await. */
  predicate Accepts(r: Refresh, event: Event) {
    match r
    case NotStarted => event.Scheduled?
    case LoadingPersisted => event.PersistedLoaded? || event.Failed?
    case RestoringSession => event.SessionSet? || event.Failed?
    case Contacting => event.Answered? || event.Failed?
    case Saving(_) => event.Saved? || event.Failed?
    case LoadingFallback => event.FallbackLoaded? || event.Failed?
    case Finished(_) => false
  }

  function Usable(session: Option<Session>, now: int): bool {
    session.Some? && now < session.value.expiresAt && (session.value.expiresAt - now) / 1000 > 0
  }

  /** Restoring runs outside the `do` block, so its errors end the task; later errors lead to the fallback. */
  function NextPhase(st: State, r: Refresh, event: Event): Refresh
    requires Accepts(r, event)
  {
    match r
    case NotStarted => if st.restored then Contacting else LoadingPersisted
    case LoadingPersisted =>
      if event.Failed? then Finished(Threw)
      else if event.session.Some? then RestoringSession
      else Contacting
    case RestoringSession => if event.Failed? then Finished(Threw) else Contacting
    case Contacting =>
      if event.Failed? || event.answer.accessToken == "" then LoadingFallback else Saving(event.answer)
    case Saving(s) => if event.Failed? then LoadingFallback else Finished(Refreshed(s))
    case LoadingFallback =>
      if event.FallbackLoaded? && Usable(event.session, event.now) then Finished(FellBack(event.session.value))
      else Finished(Threw)
  }

  function NextMemory(st: State, r: Refresh, event: Event): Option<Session>
    requires Accepts(r, event)
  {
    match r
    case LoadingPersisted => if event.PersistedLoaded? && event.session.Some? then event.session else st.memory
    case Contacting => if event.Answered? && event.answer.accessToken != "" then Some(event.answer) else st.memory
    case LoadingFallback => if event.FallbackLoaded? && Usable(event.session, event.now) then event.session else st.memory
    case _ => st.memory
  }

  /** The `defer` of the restore routine runs however the routine ends. */
  function NextRestored(st: State, r: Refresh, event: Event): bool
    requires Accepts(r, event)
  {
    st.restored || (r.LoadingPersisted? && !(event.PersistedLoaded? && event.session.Some?)) || r.RestoringSession?
  }

  /** The decision at the top of a refresh call: join the task in the slot, or start one. */
  function JoinTarget(st: State, now: int): Option<TaskId> {
    if st.lastAttempt.Some? && now - st.lastAttempt.value < MIN_REFRESH_INTERVAL && st.slot.Some? then st.slot
    else if st.slot.Some? then st.slot
    else None
  }

  predicate Enabled(st: State, step: Step) {
    match step
    case Call(c, _) => c !in st.callers
    case RunTask(t, event) => t < |st.tasks| && Accepts(st.tasks[t], event)
    case Resume(c) =>
      && c in st.callers && !st.callers[c].Returned?
      && st.callers[c].t < |st.tasks| && st.tasks[st.callers[c].t].Finished?
    case SetMemory(_) => true
    case MarkRestored => true
    case SignOut => true
  }

  function Apply(st: State, step: Step): State
    requires Enabled(st, step)
  {
    match step
    case Call(c, now) =>
      var target := JoinTarget(st, now);
      if target.Some? then st.(callers := st.callers[c := Joiner(target.value)])
      else
        var t := |st.tasks|;
        st.(slot := Some(t), lastAttempt := Some(now), tasks := st.tasks + [NotStarted], callers := st.callers[c := Owner(t)],
            owners := st.owners + [c])
    case RunTask(t, event) =>
      var r := st.tasks[t];
      st.(tasks := st.tasks[t := NextPhase(st, r, event)],
          memory := NextMemory(st, r, event), restored := NextRestored(st, r, event))
    case Resume(c) =>
      var t := st.callers[c].t;
      var owned := st.callers[c].Owner?;
      st.(callers := st.callers[c := Returned(t, st.tasks[t].outcome, owned)], slot := if owned then None else st.slot)
    case SetMemory(session) => st.(memory := session)
    case MarkRestored => st.(restored := true)
    case SignOut => st.(memory := None, restored := false)
  }

  ghost predicate Legal(st: State, steps: seq<Step>)
    decreases |steps|
  {
    steps == [] || (Enabled(st, steps[0]) && Legal(Apply(st, steps[0]), steps[1..]))
  }

  ghost function After(st: State, steps: seq<Step>): State
    requires Legal(st, steps)
    decreases |steps|
  {
    if steps == [] then st else After(Apply(st, steps[0]), steps[1..])
  }

  // ---------- The invariant ----------

  predicate OwnsOrDid(x: Caller) {
    x.Owner? || (x.Returned? && x.owned)
  }

  /** Each task has exactly one caller that owns it or did; the slot names the task still owned. */
  ghost predicate OwnersOk(st: State) {
    && |st.owners| == |st.tasks|
    && (forall c :: c in st.callers ==> st.callers[c].t < |st.tasks|)
    && (forall c :: c in st.callers && OwnsOrDid(st.callers[c]) ==> st.owners[st.callers[c].t] == c)
    && (forall t: TaskId :: t < |st.tasks| ==>
          st.owners[t] in st.callers && OwnsOrDid(st.callers[st.owners[t]]) && st.callers[st.owners[t]].t == t)
    && (forall c :: c in st.callers && st.callers[c].Owner? ==> st.slot == Some(st.callers[c].t))
    && (st.slot.Some? ==> st.slot.value < |st.tasks| && st.callers[st.owners[st.slot.value]].Owner?)
  }

  ghost predicate TasksOk(st: State) {
    forall t: TaskId :: t < |st.tasks| && !st.tasks[t].Finished? ==> st.slot == Some(t)
  }

  ghost predicate ReturnsOk(st: State) {
    forall c :: c in st.callers && st.callers[c].Returned? && st.callers[c].t < |st.tasks| ==>
      st.tasks[st.callers[c].t] == Finished(st.callers[c].outcome)
  }

  ghost predicate SessionsOk(st: State) {
    forall t :: 0 <= t < |st.tasks| ==>
      (st.tasks[t].Saving? ==> st.tasks[t].session.accessToken != "")
      && (st.tasks[t].Finished? && st.tasks[t].outcome.Refreshed? ==> st.tasks[t].outcome.session.accessToken != "")
  }

  ghost predicate Inv(st: State) {
    OwnersOk(st) && TasksOk(st) && ReturnsOk(st) && SessionsOk(st)
  }

  lemma CallKeepsInv(st: State, step: Step)
    requires Inv(st) && Enabled(st, step) && step.Call?
    ensures Inv(Apply(st, step))
  {
  }

  lemma RunTaskKeepsInv(st: State, step: Step)
    requires Inv(st) && Enabled(st, step) && step.RunTask?
    ensures Inv(Apply(st, step))
  {
  }

  lemma ResumeKeepsInv(st: State, step: Step)
    requires Inv(st) && Enabled(st, step) && step.Resume?
    ensures Inv(Apply(st, step))
  {
  }

  lemma StepKeepsInv(st: State, step: Step)
    requires Inv(st) && Enabled(st, step)
    ensures Inv(Apply(st, step))
  {
    match step
    case Call(_, _) => CallKeepsInv(st, step);
    case RunTask(_, _) => RunTaskKeepsInv(st, step);
    case Resume(_) => ResumeKeepsInv(st, step);
    case _ =>
  }

  lemma {:induction false} RunKeepsInv(st: State, steps: seq<Step>)
    requires Inv(st) && Legal(st, steps)
    ensures Inv(After(st, steps))
    decreases |steps|
  {
    if steps != [] {
      StepKeepsInv(st, steps[0]);
      RunKeepsInv(Apply(st, steps[0]), steps[1..]);
    }
  }

  // ---------- Whole runs ----------

  /** At most one refresh is ever under way. */
  lemma SingleFlight(steps: seq<Step>, t: TaskId, u: TaskId)
    requires Legal(IDLE, steps)
    requires var st := After(IDLE, steps);
      t < |st.tasks| && u < |st.tasks| && !st.tasks[t].Finished? && !st.tasks[u].Finished?
    ensures t == u
  {
    RunKeepsInv(IDLE, steps);
  }

  predicate StartedBy(st: State, t: TaskId, c: CallerId) {
    c in st.callers && OwnsOrDid(st.callers[c]) && st.callers[c].t == t
  }

  /** The slot names a task exactly while that task's owner is still waiting; a task under way is the
      one in the slot, and no task has two owners. */
  lemma SlotFollowsOwner(steps: seq<Step>, t: TaskId)
    requires Legal(IDLE, steps)
    ensures var st := After(IDLE, steps);
      && (st.slot == Some(t) <==> exists c :: c in st.callers && st.callers[c] == Owner(t))
      && (t < |st.tasks| && !st.tasks[t].Finished? ==> st.slot == Some(t))
      && (forall c, d :: StartedBy(st, t, c) && StartedBy(st, t, d) ==> c == d)
  {
    RunKeepsInv(IDLE, steps);
    var st := After(IDLE, steps);
    if st.slot == Some(t) {
      assert st.callers[st.owners[t]] == Owner(t);
    }
  }

  /** The slot changes hands only through its own owner: a step empties it exactly when it is the
      resumption of the caller that owns the task in it, and fills it only when it is empty. */
  lemma OnlyOwnersClear(steps: seq<Step>, step: Step)
    requires Legal(IDLE, steps) && Enabled(After(IDLE, steps), step)
    ensures var st := After(IDLE, steps); var st' := Apply(st, step);
      st.slot.Some? ==>
        && (st'.slot == st.slot || st'.slot == None)
        && (st'.slot == None <==> step.Resume? && st.callers[step.c] == Owner(st.slot.value))
  {
    RunKeepsInv(IDLE, steps);
  }

  /** Everyone who waited for one task, its owner included, is handed the same outcome. */
  lemma JoinersShareTheOutcome(steps: seq<Step>, c: CallerId, d: CallerId)
    requires Legal(IDLE, steps)
    requires var st := After(IDLE, steps);
      && c in st.callers && d in st.callers && st.callers[c].Returned? && st.callers[d].Returned?
      && st.callers[c].t == st.callers[d].t
    ensures var st := After(IDLE, steps); st.callers[c].outcome == st.callers[d].outcome
    ensures var st := After(IDLE, steps);
      st.callers[c].outcome.Refreshed? ==> st.callers[c].outcome.session.accessToken != ""
  {
    RunKeepsInv(IDLE, steps);
  }

  /** Steps from outside the refresh that decide what is in memory. */
  predicate SetsMemory(step: Step) {
    step.SetMemory? || step.SignOut?
  }

  /** The session a task has put into memory or will return. */
  function SessionOf(r: Refresh): Option<Session> {
    match r
    case Saving(s) => Some(s)
    case Finished(Refreshed(s)) => Some(s)
    case Finished(FellBack(s)) => Some(s)
    case _ => None
  }

  /** Only the newest task can be unfinished, and memory holds the session it got hold of. */
  ghost predicate NewestOk(st: State) {
    && (forall t: TaskId :: t < |st.tasks| && !st.tasks[t].Finished? ==> t == |st.tasks| - 1)
    && (st.tasks != [] && SessionOf(st.tasks[|st.tasks| - 1]).Some? ==>
          st.memory == SessionOf(st.tasks[|st.tasks| - 1]))
  }

  lemma {:induction false} RunKeepsNewest(st: State, steps: seq<Step>)
    requires Inv(st) && NewestOk(st) && Legal(st, steps)
    requires forall n :: 0 <= n < |steps| ==> !SetsMemory(steps[n])
    ensures NewestOk(After(st, steps))
    decreases |steps|
  {
    if steps != [] {
      StepKeepsInv(st, steps[0]);
      RunKeepsNewest(Apply(st, steps[0]), steps[1..]);
    }
  }

  /** Unless someone else sets it, the session in memory is the one the newest refresh handed out. */
  lemma MemoryFollowsNewest(steps: seq<Step>, t: TaskId)
    requires Legal(IDLE, steps) && forall n :: 0 <= n < |steps| ==> !SetsMemory(steps[n])
    requires t + 1 == |After(IDLE, steps).tasks| && After(IDLE, steps).tasks[t].Finished?
    ensures var st := After(IDLE, steps);
      var outcome := st.tasks[t].outcome;
      !outcome.Threw? ==> st.memory == Some(outcome.session)
  {
    RunKeepsNewest(IDLE, steps);
  }

  ghost predicate NoneRunning(st: State) {
    forall t :: 0 <= t < |st.tasks| ==> st.tasks[t].Finished?
  }

  /** Signed out with no refresh under way, memory stays empty until a new refresh or session. */
  lemma {:induction false} SignedOutStays(st: State, steps: seq<Step>)
    requires NoneRunning(st) && st.memory == None && Legal(st, steps)
    requires forall n :: 0 <= n < |steps| ==> !steps[n].Call? && !steps[n].SetMemory?
    ensures After(st, steps).memory == None
    decreases |steps|
  {
    if steps != [] {
      SignedOutStays(Apply(st, steps[0]), steps[1..]);
    }
  }

  /** A refresh whose answer comes after the sign-out puts its session back. */
  lemma AnswerOutlivesSignOut(st: State, t: TaskId, answer: Session)
    requires t < |st.tasks| && st.tasks[t].Contacting? && answer.accessToken != ""
    ensures var steps := [SignOut, RunTask(t, Answered(answer))];
      Legal(st, steps) && Apply(st, steps[0]).memory == None && After(st, steps).memory == Some(answer)
  {
    var steps := [SignOut, RunTask(t, Answered(answer))];
    assert steps[1..] == [steps[1]] && steps[1..][1..] == [];
    var out := Apply(st, SignOut);
    assert After(st, steps) == After(out, [steps[1]]) == After(Apply(out, steps[1]), []);
  }

  /** How many more awaits a task can make. */
  function AwaitsLeft(r: Refresh): nat {
    match r
    case NotStarted => 6
    case LoadingPersisted => 5
    case RestoringSession => 4
    case Contacting => 3
    case Saving(_) => 2
    case LoadingFallback => 1
    case Finished(_) => 0
  }

  /** No caller is stranded: its task has finished and it can resume, or the task waits for an event,
      and each event brings it closer to its end. */
  lemma NobodyIsStranded(steps: seq<Step>, c: CallerId)
    requires Legal(IDLE, steps)
    requires c in After(IDLE, steps).callers && !After(IDLE, steps).callers[c].Returned?
    ensures var st := After(IDLE, steps); var t := st.callers[c].t;
      && t < |st.tasks|
      && (Enabled(st, Resume(c)) || exists event :: Accepts(st.tasks[t], event))
      && (forall event :: Accepts(st.tasks[t], event) ==>
            AwaitsLeft(NextPhase(st, st.tasks[t], event)) < AwaitsLeft(st.tasks[t]))
  {
    RunKeepsInv(IDLE, steps);
    var st := After(IDLE, steps);
    assert Accepts(st.tasks[st.callers[c].t], Failed) || Accepts(st.tasks[st.callers[c].t], Scheduled)
      || st.tasks[st.callers[c].t].Finished?;
  }

  /** The one-second minimum between refreshes never takes effect: whatever the time of the last
      attempt, a call starts a new task exactly when the slot is empty. */
  lemma MinimumIntervalIsInert(st: State, c: CallerId, now: int)
    requires Enabled(st, Call(c, now))
    ensures st.slot.None? <==> |Apply(st, Call(c, now)).tasks| == |st.tasks| + 1
    ensures forall attempt :: Apply(st.(lastAttempt := attempt), Call(c, now)).tasks == Apply(st, Call(c, now)).tasks
  {
  }

  // ---------- The actor ----------

  class AuthService {
    var activeRefreshTask: Option<TaskId>
    var lastRefreshAttempt: Option<int>
    var inMemorySession: Option<Session>
    var didRestorePersistedSession: bool
    var tasks: seq<Refresh>
    var callers: map<CallerId, Caller>
    ghost var owners: seq<CallerId>

    constructor ()
      ensures Abs() == IDLE
    {
      activeRefreshTask, lastRefreshAttempt, inMemorySession, didRestorePersistedSession := None, None, None, false;
      tasks, callers, owners := [], map[], [];
    }

    ghost function Abs(): State
      reads this
    {
      State(activeRefreshTask, lastRefreshAttempt, inMemorySession, didRestorePersistedSession, tasks, callers, owners)
    }

    /** From entry to the first await of `refreshSessionDeduped`. */
    method EnterRefresh(c: CallerId, now: int)
      requires Enabled(Abs(), Call(c, now))
      modifies this
      ensures Abs() == Apply(old(Abs()), Call(c, now))
    {
      if lastRefreshAttempt.Some? && now - lastRefreshAttempt.value < MIN_REFRESH_INTERVAL {
        if activeRefreshTask.Some? {
          callers := callers[c := Joiner(activeRefreshTask.value)];
          return;
        }
      }
      if activeRefreshTask.Some? {
        callers := callers[c := Joiner(activeRefreshTask.value)];
        return;
      }
      var task := |tasks|;
      tasks := tasks + [NotStarted];
      activeRefreshTask := Some(task);
      lastRefreshAttempt := Some(now);
      callers, owners := callers[c := Owner(task)], owners + [c];
    }

    /** The awaited task value arrives; an owner's deferred clear runs on the way out. */
    method LeaveRefresh(c: CallerId) returns (outcome: Outcome)
      requires Enabled(Abs(), Resume(c))
      modifies this
      ensures Abs() == Apply(old(Abs()), Resume(c))
      ensures outcome == old(tasks)[old(callers)[c].t].outcome
    {
      var caller := callers[c];
      outcome := tasks[caller.t].outcome;
      if caller.Owner? {
        activeRefreshTask := None;
      }
      callers := callers[c := Returned(caller.t, outcome, caller.Owner?)];
    }

    /** The last stretch of `signOut`, once the client has signed out and the vault is cleared. */
    method EndSignOut()
      modifies this
      ensures Abs() == Apply(old(Abs()), SignOut)
    {
      inMemorySession := None;
      didRestorePersistedSession := false;
    }

    /** One stretch of `performTokenRefresh`. */
    method PerformTokenRefresh(t: TaskId, event: Event)
      requires Enabled(Abs(), RunTask(t, event))
      modifies this
      ensures Abs() == Apply(old(Abs()), RunTask(t, event))
    {
      match tasks[t] {
        case NotStarted =>
          tasks := tasks[t := if didRestorePersistedSession then Contacting else LoadingPersisted];
        case LoadingPersisted =>
          if event.PersistedLoaded? && event.session.Some? {
            inMemorySession := event.session;
            tasks := tasks[t := RestoringSession];
          } else {
            didRestorePersistedSession := true;
            tasks := tasks[t := if event.Failed? then Finished(Threw) else Contacting];
          }
        case RestoringSession =>
          didRestorePersistedSession := true;
          tasks := tasks[t := if event.Failed? then Finished(Threw) else Contacting];
        case Contacting =>
          if event.Failed? || event.answer.accessToken == "" {
            tasks := tasks[t := LoadingFallback];
          } else {
            inMemorySession := Some(event.answer);
            tasks := tasks[t := Saving(event.answer)];
          }
        case Saving(session) =>
          tasks := tasks[t := if event.Failed? then LoadingFallback else Finished(Refreshed(session))];
        case LoadingFallback =>
          if event.FallbackLoaded? && event.session.Some? && event.now < event.session.value.expiresAt
             && (event.session.value.expiresAt - event.now) / 1000 > 0 {
            inMemorySession := event.session;
            tasks := tasks[t := Finished(FellBack(event.session.value))];
          } else {
            tasks := tasks[t := Finished(Threw)];
          }
      }
    }
  }
}
