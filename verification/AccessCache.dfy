/** Cached access checks: a Redis cache with per-key lifetimes over the access tables, filled by
    detached goroutines, while permissions change underneath. Times are in seconds. */
module AccessCache {
  import opened Basics
  import opened AccessKeys

  const PAIR_TTL := 60
  const PROJECT_LIST_TTL := 5 * 60
  const TRACK_LIST_TTL := 3 * 60

  datatype Grant = Grant(u: UserId, p: ProjectId, accessType: string)

  datatype TrackGrant = TrackGrant(u: UserId, t: TrackId)

  /** `user_project_access` and `user_track_access`. */
  datatype Tables = Tables(grants: set<Grant>, tracks: set<TrackGrant>)

  /** A cached value: one answer, or a list of ids. */
  datatype Value = Answer(ok: bool) | Listing(ids: seq<string>)

  datatype Stored = Stored(value: Value, expiresAt: int)

  // ---------- The tables and the cache ----------

  predicate IsPair(s: Subject) {
    s.Pair? || s.TrackPair?
  }

  /** What the database answers about one user and one project or track. */
  ghost predicate Truth(tables: Tables, s: Subject)
    requires IsPair(s)
  {
    match s
    case Pair(u, p) => exists g <- tables.grants :: g.u == u && g.p == p
    case TrackPair(u, t) => TrackGrant(u, t) in tables.tracks
  }

  predicate ListedType(accessType: string) {
    accessType == "owner" || accessType == "collaborator" || accessType == "shared"
  }

  function Accessible(tables: Tables, u: UserId): set<ProjectId> {
    set g | g in tables.grants && g.u == u && ListedType(g.accessType) :: g.p
  }

  function AccessibleTracks(tables: Tables, u: UserId): set<TrackId> {
    set g | g in tables.tracks && g.u == u :: g.t
  }

  /** A `SELECT DISTINCT` answer, in whatever order the database gives it. */
  ghost predicate IsListing(tables: Tables, s: Subject, ids: seq<string>) {
    && NoDuplicates(ids)
    && match s
       case ProjectList(u) => Elements(ids) == Accessible(tables, u)
       case TrackList(u) => Elements(ids) == AccessibleTracks(tables, u)
       case _ => false
  }

  /** What the database says about a subject. */
  ghost predicate Tells(tables: Tables, s: Subject, v: Value) {
    if IsPair(s) then v.Answer? && (v.ok <==> Truth(tables, s)) else v.Listing? && IsListing(tables, s, v.ids)
  }

  function TtlOf(s: Subject): int {
    match s
    case ProjectList(_) => PROJECT_LIST_TTL
    case TrackList(_) => TRACK_LIST_TTL
    case _ => PAIR_TTL
  }

  function Lookup(redis: map<string, Stored>, key: string, now: int): Option<Value> {
    if key in redis && now < redis[key].expiresAt then Some(redis[key].value) else None
  }

  // ---------- The system ----------

  /** The access tables from `at` on. */
  datatype Version = Version(at: int, tables: Tables)

  /** Where a value came from: who it is about, the table version and the time it was read. */
  datatype Origin = Origin(s: Subject, version: nat, readAt: int)

  /** A goroutine that has yet to write its value. */
  datatype Write = Write(value: Value, origin: Origin)

  /** `origins`, the origin in each write and `lastReads` (when a subject was last read through to the
      tables) are bookkeeping that no step reads. */
  datatype State = State(
    now: int, history: seq<Version>, redis: map<string, Stored>, origins: map<string, Origin>, writes: map<nat, Write>,
    lastReads: map<Subject, int>)

  datatype Step =
    | Tick(d: nat)
    | Change(tables: Tables)
    | ReadThrough(w: nat, s: Subject, v: Value)
    | Store(w: nat)
    | Drop(w: nat)
    | Invalidate(u: UserId)
    | Evict(key: string)

  const FRESH := State(0, [Version(0, Tables({}, {}))], map[], map[], map[], map[])

  function Current(st: State): Tables
    requires st.history != []
  {
    st.history[|st.history| - 1].tables
  }

  /** `delay` bounds how long a goroutine may take between its read and its write. A read goes through
      to the tables when the cache has nothing or cannot be read, so at any time. */
  ghost predicate Enabled(st: State, step: Step, delay: nat) {
    match step
    case ReadThrough(w, s, v) => w !in st.writes && WellFormed(s) && st.history != [] && Tells(Current(st), s, v)
    case Store(w) => w in st.writes && st.now - st.writes[w].origin.readAt <= delay
    case Drop(w) => w in st.writes
    case Invalidate(u) => ':' !in u
    case _ => true
  }

  ghost function Apply(st: State, step: Step): State {
    match step
    case Tick(d) => st.(now := st.now + d)
    case Change(tables) => st.(history := st.history + [Version(st.now, tables)])
    case ReadThrough(w, s, v) =>
      if |st.history| == 0 then st
      else
        st.(writes := st.writes[w := Write(v, Origin(s, |st.history| - 1, st.now))], lastReads := st.lastReads[s := st.now])
    case Store(w) =>
      if w !in st.writes then st
      else
        var write := st.writes[w];
        var key := KeyOf(write.origin.s);
        st.(redis := st.redis[key := Stored(write.value, st.now + TtlOf(write.origin.s))],
            origins := st.origins[key := write.origin], writes := st.writes - {w})
    case Drop(w) => st.(writes := st.writes - {w})
    case Invalidate(u) =>
      var keys := {KeyOf(ProjectList(u)), KeyOf(TrackList(u))};
      st.(redis := st.redis - keys, origins := st.origins - keys)
    case Evict(key) => st.(redis := st.redis - {key}, origins := st.origins - {key})
  }

  ghost predicate Legal(st: State, steps: seq<Step>, delay: nat)
    decreases |steps|
  {
    steps == [] || (Enabled(st, steps[0], delay) && Legal(Apply(st, steps[0]), steps[1..], delay))
  }

  ghost function After(st: State, steps: seq<Step>): State
    decreases |steps|
  {
    if steps == [] then st else After(Apply(st, steps[0]), steps[1..])
  }

  /** The tables were version `h` at time `t`. */
  predicate HeldAt(history: seq<Version>, h: nat, t: int) {
    h < |history| && history[h].at <= t && (h + 1 < |history| ==> t <= history[h + 1].at)
  }

  // ---------- The invariant ----------

  ghost predicate OriginOk(st: State, v: Value, o: Origin) {
    && WellFormed(o.s) && HeldAt(st.history, o.version, o.readAt) && o.readAt <= st.now
    && Tells(st.history[o.version].tables, o.s, v)
    && o.s in st.lastReads && o.readAt <= st.lastReads[o.s]
  }

  ghost predicate CacheOk(st: State, delay: nat) {
    && st.redis.Keys == st.origins.Keys
    && forall key :: key in st.redis ==>
         && OriginOk(st, st.redis[key].value, st.origins[key]) && KeyOf(st.origins[key].s) == key
         && st.redis[key].expiresAt <= st.origins[key].readAt + delay + TtlOf(st.origins[key].s)
  }

  ghost predicate WritesOk(st: State) {
    forall w :: w in st.writes ==> OriginOk(st, st.writes[w].value, st.writes[w].origin)
  }

  ghost predicate ReadsOk(st: State) {
    forall s :: s in st.lastReads ==> st.lastReads[s] <= st.now
  }

  ghost predicate Inv(st: State, delay: nat) {
    && st.history != [] && st.history[|st.history| - 1].at <= st.now
    && CacheOk(st, delay) && WritesOk(st) && ReadsOk(st)
  }

  /** Time passing, new versions and later reads leave what was read as it was. */
  lemma OriginsStayOk(st: State, later: State, v: Value, o: Origin)
    requires OriginOk(st, v, o) && st.now <= later.now && st.history <= later.history
    requires |later.history| <= |st.history| + 1
    requires |later.history| > |st.history| ==> later.history[|st.history|].at == st.now
    requires o.s in later.lastReads && st.lastReads[o.s] <= later.lastReads[o.s]
    ensures OriginOk(later, v, o)
  {
    assert later.history[o.version] == st.history[o.version];
  }

  lemma SurroundingsKeepInv(st: State, step: Step, delay: nat)
    requires Inv(st, delay) && (step.Tick? || step.Change? || step.ReadThrough?) && Enabled(st, step, delay)
    ensures Inv(Apply(st, step), delay)
  {
    var later := Apply(st, step);
    forall v, o | OriginOk(st, v, o) ensures OriginOk(later, v, o) {
      OriginsStayOk(st, later, v, o);
    }
    if step.ReadThrough? {
      assert OriginOk(later, step.v, Origin(step.s, |st.history| - 1, st.now));
    }
  }

  lemma StoreKeepsInv(st: State, step: Step, delay: nat)
    requires Inv(st, delay) && Enabled(st, step, delay) && step.Store?
    ensures Inv(Apply(st, step), delay)
  {
  }

  lemma RemovalKeepsInv(st: State, step: Step, delay: nat)
    requires Inv(st, delay) && (step.Drop? || step.Invalidate? || step.Evict?)
    ensures Inv(Apply(st, step), delay)
  {
  }

  lemma StepKeepsInv(st: State, step: Step, delay: nat)
    requires Inv(st, delay) && Enabled(st, step, delay)
    ensures Inv(Apply(st, step), delay)
  {
    match step
    case Tick(_) => SurroundingsKeepInv(st, step, delay);
    case Change(_) => SurroundingsKeepInv(st, step, delay);
    case ReadThrough(_, _, _) => SurroundingsKeepInv(st, step, delay);
    case Store(_) => StoreKeepsInv(st, step, delay);
    case _ => RemovalKeepsInv(st, step, delay);
  }

  lemma {:induction false} RunKeepsInv(st: State, steps: seq<Step>, delay: nat)
    requires Inv(st, delay) && Legal(st, steps, delay)
    ensures Inv(After(st, steps), delay)
    decreases |steps|
  {
    if steps != [] {
      StepKeepsInv(st, steps[0], delay);
      RunKeepsInv(Apply(st, steps[0]), steps[1..], delay);
    }
  }

  lemma {:induction false} Snoc(st: State, steps: seq<Step>, step: Step, delay: nat)
    requires Legal(st, steps, delay) && Enabled(After(st, steps), step, delay)
    ensures Legal(st, steps + [step], delay) && After(st, steps + [step]) == Apply(After(st, steps), step)
    decreases |steps|
  {
    if steps == [] {
      assert [step][1..] == [];
    } else {
      assert (steps + [step])[1..] == steps[1..] + [step];
      Snoc(Apply(st, steps[0]), steps[1..], step, delay);
    }
  }

  // ---------- How old an answer can be ----------

  /** What a read of the cache yields; a failed read counts as a miss. */
  function Read(st: State, key: string, readable: bool): Option<Value> {
    if readable then Lookup(st.redis, key, st.now) else None
  }

  /** What a project or track check returns: the cached answer if there is one, else the database's. */
  ghost predicate Check(st: State, s: Subject, readable: bool)
    requires st.history != [] && IsPair(s)
  {
    match Read(st, KeyOf(s), readable)
    case Some(v) => v == Answer(true)
    case None => Truth(Current(st), s)
  }

  /** What preloading a list may return: the cached list, else any listing of the tables. */
  ghost predicate Preloads(st: State, s: Subject, ids: seq<string>, readable: bool)
    requires st.history != []
  {
    match Read(st, KeyOf(s), readable)
    case Some(v) => v == Listing(ids)
    case None => IsListing(Current(st), s, ids)
  }

  /** `t` is within the lifetime of values about `s`, plus the write delay, before now. */
  predicate IsRecent(st: State, s: Subject, delay: nat, t: int) {
    st.now - (TtlOf(s) + delay) < t <= st.now
  }

  /** A hit was true, when it was read, of the subject asked for or of the same id on the other route;
      lists have no other route. */
  lemma HitIsOfEitherRoute(st: State, s: Subject, delay: nat)
    requires Inv(st, delay) && WellFormed(s) && Lookup(st.redis, KeyOf(s), st.now).Some?
    ensures var o := st.origins[KeyOf(s)];
      && (o.s == s || o.s == Other(s))
      && HeldAt(st.history, o.version, o.readAt) && IsRecent(st, s, delay, o.readAt)
      && Tells(st.history[o.version].tables, o.s, st.redis[KeyOf(s)].value)
      && o.s in st.lastReads && o.readAt <= st.lastReads[o.s]
  {
    KeysAreShared(s, st.origins[KeyOf(s)].s);
  }

  /** In every interleaving of project and track checks, detached writes and permission changes, a check
      returns what the tables said, less than a minute plus the write delay ago, about the subject asked
      for or about the same id on the other route; about the latter only if that was read through to
      the tables within the same time. */
  lemma ChecksAreOfEitherRoute(steps: seq<Step>, delay: nat, s: Subject, readable: bool)
      returns (h: nat, t: int, about: Subject)
    requires Legal(FRESH, steps, delay) && WellFormed(s) && IsPair(s)
    ensures var st := After(FRESH, steps);
      && (about == s || about == Other(s))
      && HeldAt(st.history, h, t) && IsRecent(st, s, delay, t)
      && (Check(st, s, readable) <==> Truth(st.history[h].tables, about))
      && (about != s ==> about in st.lastReads && IsRecent(st, s, delay, st.lastReads[about]))
  {
    RunKeepsInv(FRESH, steps, delay);
    var st := After(FRESH, steps);
    if Read(st, KeyOf(s), readable).Some? {
      HitIsOfEitherRoute(st, s, delay);
      var o := st.origins[KeyOf(s)];
      h, t, about := o.version, o.readAt, o.s;
    } else {
      h, t, about := |st.history| - 1, st.now, s;
    }
  }

  // ---------- When a check is about what was asked ----------

  /** The check returns what the tables said about `s` itself at a recent instant. */
  ghost predicate IsFaithful(st: State, s: Subject, readable: bool, delay: nat)
    requires st.history != [] && IsPair(s)
  {
    exists h: nat, t: int :: Matches(st, s, readable, delay, h, t)
  }

  ghost predicate Matches(st: State, s: Subject, readable: bool, delay: nat, h: nat, t: int)
    requires st.history != [] && IsPair(s)
  {
    && HeldAt(st.history, h, t) && IsRecent(st, s, delay, t)
    && (Check(st, s, readable) <==> Truth(st.history[h].tables, s))
  }

  /** The same id has not been read through on the other route for `gap` seconds. */
  predicate KeptApart(st: State, s: Subject, gap: nat) {
    Other(s) in st.lastReads ==> st.lastReads[Other(s)] + gap <= st.now
  }

  lemma ApartIsFaithful(steps: seq<Step>, delay: nat, s: Subject, readable: bool, gap: nat)
    requires Legal(FRESH, steps, delay) && WellFormed(s) && IsPair(s) && gap >= PAIR_TTL + delay
    requires KeptApart(After(FRESH, steps), s, gap)
    ensures After(FRESH, steps).history != [] && IsFaithful(After(FRESH, steps), s, readable, delay)
  {
    var h, t, about := ChecksAreOfEitherRoute(steps, delay, s, readable);
    RunKeepsInv(FRESH, steps, delay);
    assert about == s;
    assert Matches(After(FRESH, steps), s, readable, delay, h, t);
  }

  ghost predicate RunTo(steps: seq<Step>, st: State, delay: nat) {
    Legal(FRESH, steps, delay) && After(FRESH, steps) == st
  }

  lemma Move(steps: seq<Step>, st: State, step: Step, delay: nat) returns (longer: seq<Step>)
    requires RunTo(steps, st, delay) && Enabled(st, step, delay)
    ensures RunTo(longer, Apply(st, step), delay)
  {
    Snoc(FRESH, steps, step, delay);
    longer := steps + [step];
  }

  /** Tables that grant `s` and nothing else. */
  function Only(s: Subject): Tables
    requires IsPair(s)
  {
    match s
    case Pair(u, p) => Tables({Grant(u, p, "owner")}, {})
    case TrackPair(u, t) => Tables({}, {TrackGrant(u, t)})
  }

  lemma OnlyGrants(s: Subject)
    requires IsPair(s)
    ensures Truth(Only(s), s) && !Truth(Only(s), Other(s))
  {
    if s.Pair? {
      assert Grant(s.u, s.p, "owner") in Only(s).grants;
    }
  }

  /** The user holds `s` throughout the last minute plus delay, and yet the check denies it. */
  ghost predicate WronglyDenied(st: State, s: Subject, delay: nat)
    requires st.history != [] && IsPair(s)
  {
    !Check(st, s, true)
    && forall h: nat, t: int :: HeldAt(st.history, h, t) && IsRecent(st, s, delay, t) ==>
         Truth(st.history[h].tables, s)
  }

  /** An id that is granted as a project and asked for as a track, or the other way round, is denied on
      its own route until the stored answer of the other route expires. */
  lemma OtherRouteDenies(s: Subject, delay: nat, gap: nat) returns (steps: seq<Step>, st: State)
    requires WellFormed(s) && IsPair(s) && gap < PAIR_TTL + delay
    ensures RunTo(steps, st, delay) && st.history != []
    ensures KeptApart(st, s, gap) && WronglyDenied(st, s, delay)
  {
    var wait := if gap <= delay then gap else delay;
    var start := PAIR_TTL + delay + 1;
    OnlyGrants(s);
    KeysAreShared(s, Other(s));
    var granted := FRESH.(history := [Version(0, Tables({}, {})), Version(0, Only(s))]);
    steps := Move([], FRESH, Change(Only(s)), delay);
    assert Apply(FRESH, Change(Only(s))) == granted;
    steps := Move(steps, granted, Tick(start), delay);
    var ready := granted.(now := start);
    steps := Move(steps, ready, ReadThrough(0, Other(s), Answer(false)), delay);
    var write := Write(Answer(false), Origin(Other(s), 1, start));
    var asked := ready.(writes := map[0 := write], lastReads := map[Other(s) := start]);
    steps := Move(steps, asked, Tick(wait), delay);
    var waited := asked.(now := start + wait);
    steps := Move(steps, waited, Store(0), delay);
    var stored := Apply(waited, Store(0));
    steps := Move(steps, stored, Tick(gap - wait), delay);
    st := Apply(stored, Tick(gap - wait));
    assert Lookup(st.redis, KeyOf(s), st.now) == Some(Answer(false));
    assert st.history == granted.history;
  }

  /** The run, if it keeps the two routes apart for `gap` seconds before its end, ends with a check that is
      about what was asked. */
  ghost predicate GapSuffices(steps: seq<Step>, s: Subject, readable: bool, delay: nat, gap: nat)
    requires IsPair(s)
  {
    Legal(FRESH, steps, delay) && KeptApart(After(FRESH, steps), s, gap) ==>
      After(FRESH, steps).history != [] && IsFaithful(After(FRESH, steps), s, readable, delay)
  }

  /** A check is about what was asked, in every run, exactly when the same id is kept off the other route
      for a minute plus the write delay. */
  lemma GapDecides(s: Subject, delay: nat, gap: nat)
    requires WellFormed(s) && IsPair(s)
    ensures (forall steps, readable :: GapSuffices(steps, s, readable, delay, gap)) <==> gap >= PAIR_TTL + delay
  {
    if gap >= PAIR_TTL + delay {
      forall steps, readable ensures GapSuffices(steps, s, readable, delay, gap) {
        if Legal(FRESH, steps, delay) && KeptApart(After(FRESH, steps), s, gap) {
          ApartIsFaithful(steps, delay, s, readable, gap);
        }
      }
    } else {
      var steps, st := OtherRouteDenies(s, delay, gap);
      forall h: nat, t: int ensures !Matches(st, s, true, delay, h, t) {
      }
      assert !GapSuffices(steps, s, true, delay, gap);
    }
  }

  // ---------- Lists ----------

  /** A preloaded list is the tables' list at one instant less than its lifetime plus the write delay
      ago. */
  lemma ListsAreRecent(steps: seq<Step>, delay: nat, s: Subject, ids: seq<string>, readable: bool)
      returns (h: nat, t: int)
    requires Legal(FRESH, steps, delay) && WellFormed(s) && !IsPair(s)
    requires After(FRESH, steps).history != [] && Preloads(After(FRESH, steps), s, ids, readable)
    ensures var st := After(FRESH, steps);
      HeldAt(st.history, h, t) && IsRecent(st, s, delay, t) && IsListing(st.history[h].tables, s, ids)
  {
    RunKeepsInv(FRESH, steps, delay);
    var st := After(FRESH, steps);
    if Read(st, KeyOf(s), readable).Some? {
      HitIsOfEitherRoute(st, s, delay);
      h, t := st.origins[KeyOf(s)].version, st.origins[KeyOf(s)].readAt;
    } else {
      h, t := |st.history| - 1, st.now;
    }
  }

  // ---------- How long a stored value answers ----------

  /** No step of the run writes the key or removes it. */
  ghost predicate Leaves(st: State, steps: seq<Step>, key: string)
    decreases |steps|
  {
    steps == [] ||
    (&& (steps[0].Store? && steps[0].w in st.writes ==> KeyOf(st.writes[steps[0].w].origin.s) != key)
     && (steps[0].Evict? ==> steps[0].key != key)
     && (steps[0].Invalidate? ==> key != KeyOf(ProjectList(steps[0].u)) && key != KeyOf(TrackList(steps[0].u)))
     && Leaves(Apply(st, steps[0]), steps[1..], key))
  }

  lemma {:induction false} StaysStored(st: State, steps: seq<Step>, key: string)
    requires Leaves(st, steps, key) && key in st.redis
    ensures key in After(st, steps).redis && After(st, steps).redis[key] == st.redis[key]
    decreases |steps|
  {
    if steps != [] {
      StaysStored(Apply(st, steps[0]), steps[1..], key);
    }
  }

  /** From the moment a value is written, and until a minute later, or five for a list of projects and
      three for a list of tracks, it is what a readable cache answers, whatever the tables say by then, as
      long as nothing else writes or removes its key. After that the tables answer again. */
  lemma StoredValueAnswers(st: State, w: nat, steps: seq<Step>)
    requires w in st.writes && Leaves(Apply(st, Store(w)), steps, KeyOf(st.writes[w].origin.s))
    ensures var s, v, end := st.writes[w].origin.s, st.writes[w].value, After(Apply(st, Store(w)), steps);
      var lifetime := match s case ProjectList(_) => 300 case TrackList(_) => 180 case _ => 60;
      && Read(end, KeyOf(s), true) == (if end.now < st.now + lifetime then Some(v) else None)
      && (IsPair(s) && end.history != [] ==>
            (Check(end, s, true) <==>
               if end.now < st.now + lifetime then v == Answer(true) else Truth(Current(end), s)))
  {
    StaysStored(Apply(st, Store(w)), steps, KeyOf(st.writes[w].origin.s));
  }

  // ---------- What invalidation reaches ----------

  /** No value for the subject was read before `t`, neither in the cache nor on its way there. */
  ghost predicate NothingOlder(st: State, s: Subject, t: int) {
    && (forall w :: w in st.writes && st.writes[w].origin.s == s ==> st.writes[w].origin.readAt >= t)
    && (KeyOf(s) in st.redis && KeyOf(s) in st.origins ==> st.origins[KeyOf(s)].readAt >= t)
  }

  lemma NothingOlderStep(st: State, step: Step, delay: nat, s: Subject, t: int)
    requires Inv(st, delay) && Enabled(st, step, delay) && WellFormed(s) && !IsPair(s)
    requires t <= st.now && NothingOlder(st, s, t)
    ensures NothingOlder(Apply(st, step), s, t) && t <= Apply(st, step).now
  {
    if step.Store? {
      var o := st.writes[step.w].origin;
      assert OriginOk(st, st.writes[step.w].value, o);
      KeysAreShared(s, o.s);
    }
  }

  lemma {:induction false} NothingOlderLasts(st: State, steps: seq<Step>, delay: nat, s: Subject, t: int)
    requires Inv(st, delay) && Legal(st, steps, delay) && WellFormed(s) && !IsPair(s)
    requires t <= st.now && NothingOlder(st, s, t)
    ensures NothingOlder(After(st, steps), s, t)
    decreases |steps|
  {
    if steps != [] {
      StepKeepsInv(st, steps[0], delay);
      NothingOlderStep(st, steps[0], delay, s, t);
      NothingOlderLasts(Apply(st, steps[0]), steps[1..], delay, s, t);
    }
  }

  lemma OneStep(st: State, step: Step, delay: nat)
    requires Enabled(st, step, delay)
    ensures Legal(st, [step], delay) && After(st, [step]) == Apply(st, step)
  {
    var steps := [step];
    assert steps[0] == step && steps[1..] == [];
    assert After(Apply(st, step), steps[1..]) == Apply(st, step);
  }

  /** The cached value for the subject, if any, was read at `t` or later. */
  ghost predicate CachedSince(st: State, s: Subject, t: int) {
    KeyOf(s) in st.redis && KeyOf(s) in st.origins ==> st.origins[KeyOf(s)].readAt >= t
  }

  /** No list of this kind, read before now, is on its way to the cache. */
  ghost predicate NoneUnderWay(st: State, s: Subject) {
    forall w :: w in st.writes && st.writes[w].origin.s == s ==> st.writes[w].origin.readAt >= st.now
  }

  /** Whatever follows, the cached list was read at `t` or later. */
  ghost predicate StaysSince(st: State, s: Subject, t: int, delay: nat) {
    forall steps :: Legal(st, steps, delay) ==> CachedSince(After(st, steps), s, t)
  }

  lemma StaleWriteLands(st: State, s: Subject, delay: nat, w: nat, t: int)
    requires w in st.writes && st.writes[w].origin.s == s && st.writes[w].origin.readAt < t
    requires Enabled(st, Store(w), delay)
    ensures !StaysSince(st, s, t, delay)
  {
    OneStep(st, Store(w), delay);
    assert !CachedSince(After(st, [Store(w)]), s, t);
  }

  lemma ClearedStays(st: State, s: Subject, delay: nat, t: int)
    requires Inv(st, delay) && WellFormed(s) && !IsPair(s) && t <= st.now && NothingOlder(st, s, t)
    ensures StaysSince(st, s, t, delay)
  {
    forall steps | Legal(st, steps, delay) ensures CachedSince(After(st, steps), s, t) {
      NothingOlderLasts(st, steps, delay, s, t);
    }
  }

  /** After an invalidation, and whatever happens next, a list for the user comes only from reads made
      since, exactly when no older list of that kind for that user was on its way to the cache. */
  lemma InvalidationCoversLists(st: State, s: Subject, delay: nat)
    requires Inv(st, delay) && WellFormed(s) && !IsPair(s)
    requires forall w :: w in st.writes ==> st.now - st.writes[w].origin.readAt <= delay
    ensures StaysSince(Apply(st, Invalidate(s.u)), s, st.now, delay) <==> NoneUnderWay(st, s)
  {
    var cleared := Apply(st, Invalidate(s.u));
    RemovalKeepsInv(st, Invalidate(s.u), delay);
    if NoneUnderWay(st, s) {
      ClearedStays(cleared, s, delay, st.now);
    } else {
      var w :| w in st.writes && st.writes[w].origin.s == s && st.writes[w].origin.readAt < st.now;
      StaleWriteLands(cleared, s, delay, w, st.now);
    }
  }

  /** Invalidating a user leaves that user's cached answers about single projects and tracks alone: until
      they expire, a check returns what it returned before. */
  lemma InvalidationMissesChecks(st: State, s: Subject, readable: bool)
    requires WellFormed(s) && IsPair(s) && st.history != []
    ensures Check(Apply(st, Invalidate(s.u)), s, readable) == Check(st, s, readable)
  {
    KeysAreShared(s, ProjectList(s.u));
    KeysAreShared(s, TrackList(s.u));
  }
}
