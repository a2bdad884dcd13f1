/** The checks and batch filters that sit on the cached access answers. */
module AccessBatch {
  import opened Basics
  import opened AccessKeys
  import opened AccessCache

  // ---------- Filtering by a list ----------

  datatype Track = Track(id: TrackId, projectId: ProjectId)

  datatype Project = Project(id: ProjectId, name: string)

  /** The items whose project is accessible, in the order given. */
  function Filter<T>(items: seq<T>, projectOf: T -> ProjectId, accessible: set<ProjectId>): seq<T> {
    if items == [] then []
    else
      var last := items[|items| - 1];
      Filter(items[..|items| - 1], projectOf, accessible) + if projectOf(last) in accessible then [last] else []
  }

  /** Filtering keeps exactly the accessible items, each as often as it was given. */
  lemma {:induction false} KeepsExactlyAccessible<T>(
    items: seq<T>, projectOf: T -> ProjectId, accessible: set<ProjectId>, x: T)
    ensures multiset(Filter(items, projectOf, accessible))[x]
            == if projectOf(x) in accessible then multiset(items)[x] else 0
  {
    if items != [] {
      assert items == items[..|items| - 1] + [items[|items| - 1]];
      KeepsExactlyAccessible(items[..|items| - 1], projectOf, accessible, x);
    }
  }

  /** Filtering the parts filters the whole, so the order of what is kept is the order given. */
  lemma {:induction false} KeepsOrder<T>(
    front: seq<T>, back: seq<T>, projectOf: T -> ProjectId, accessible: set<ProjectId>)
    ensures Filter(front + back, projectOf, accessible)
            == Filter(front, projectOf, accessible) + Filter(back, projectOf, accessible)
  {
    if back == [] {
      assert front + back == front;
    } else {
      var n := |back| - 1;
      KeepsOrder(front, back[..n], projectOf, accessible);
      assert (front + back)[..|front + back| - 1] == front + back[..n];
    }
  }

  /** Whether a project is in a preloaded list. */
  predicate IsIn(ids: seq<ProjectId>, p: ProjectId) {
    p in ids
  }

  /** All answers of one batch, whether it filters or answers id by id, are those of one instant less than
      five minutes plus the write delay ago. */
  lemma BatchAnswersAreRecent<T>(
    steps: seq<Step>, delay: nat, u: UserId, ids: seq<ProjectId>, items: seq<T>, projectOf: T -> ProjectId,
    readable: bool)
      returns (h: nat, t: int)
    requires Legal(FRESH, steps, delay) && ':' !in u
    requires After(FRESH, steps).history != [] && Preloads(After(FRESH, steps), ProjectList(u), ids, readable)
    ensures var st := After(FRESH, steps);
      && HeldAt(st.history, h, t) && st.now - (PROJECT_LIST_TTL + delay) < t <= st.now
      && Filter(items, projectOf, Elements(ids)) == Filter(items, projectOf, Accessible(st.history[h].tables, u))
      && forall p :: IsIn(ids, p) <==> p in Accessible(st.history[h].tables, u)
  {
    h, t := ListsAreRecent(steps, delay, ProjectList(u), ids, readable);
    var accessible := Accessible(After(FRESH, steps).history[h].tables, u);
    forall p ensures IsIn(ids, p) <==> p in accessible {
      assert IsIn(ids, p) <==> p in Elements(ids);
    }
  }

  /** The schema's constraint on `user_project_access.access_type`. */
  ghost predicate MeetsConstraint(tables: Tables) {
    forall g <- tables.grants :: g.accessType in {"owner", "collaborator", "shared"}
  }

  /** On every table that meets the constraint, the lists and the single checks agree on each project and
      each track. */
  lemma ListAgreesWithChecks(tables: Tables, u: UserId, p: ProjectId)
    requires MeetsConstraint(tables)
    ensures p in Accessible(tables, u) <==> Truth(tables, Pair(u, p))
    ensures p in AccessibleTracks(tables, u) <==> Truth(tables, TrackPair(u, p))
  {
    if Truth(tables, Pair(u, p)) {
      var g :| g in tables.grants && g.u == u && g.p == p;
      assert ListedType(g.accessType);
    }
  }

  // ---------- The objects ----------

  class AccessCheckCache {
    var redis: map<string, Stored>
    /** Values handed to goroutines that have not written them yet. */
    var pending: seq<(Subject, Value)>

    constructor ()
      ensures redis == map[] && pending == []
    {
      redis, pending := map[], [];
    }

    /** A cache that cannot be read counts as a miss. */
    method Get(key: string, now: int, readable: bool) returns (hit: Option<Value>)
      ensures hit == if readable then Lookup(redis, key, now) else None
    {
      if !readable {
        return None;
      }
      if key !in redis {
        return None;
      }
      if redis[key].expiresAt <= now {
        return None;
      }
      hit := Some(redis[key].value);
    }

    /** `database` is the answer the database would give, or nothing when the query fails. */
    method CheckProjectAccessCached(u: UserId, p: ProjectId, database: Option<bool>, now: int, readable: bool)
      returns (answer: Option<bool>)
      modifies this`pending
      ensures Checked(redis, old(pending), Pair(u, p), database, now, readable) == (answer, pending)
    {
      var hit := Get(KeyOf(Pair(u, p)), now, readable);
      if hit.Some? {
        return Some(hit.value == Answer(true));
      }
      if database.None? {
        return None;
      }
      pending := pending + [(Pair(u, p), Answer(database.value))];
      return database;
    }

    /** Reads and writes under the keys of project answers. */
    method CheckTrackAccessCached(u: UserId, t: TrackId, database: Option<bool>, now: int, readable: bool)
      returns (answer: Option<bool>)
      modifies this`pending
      ensures Checked(redis, old(pending), TrackPair(u, t), database, now, readable) == (answer, pending)
    {
      var hit := Get(KeyOf(Pair(u, t)), now, readable);
      if hit.Some? {
        return Some(hit.value == Answer(true));
      }
      if database.None? {
        return None;
      }
      pending := pending + [(TrackPair(u, t), Answer(database.value))];
      return database;
    }

    method PreloadUserProjectAccessList(u: UserId, database: Option<seq<ProjectId>>, now: int, readable: bool)
      returns (ids: Option<seq<ProjectId>>)
      modifies this`pending
      ensures Preloaded(redis, old(pending), ProjectList(u), database, now, readable) == (ids, pending)
    {
      var hit := Get(KeyOf(ProjectList(u)), now, readable);
      if hit.Some? && hit.value.Listing? {
        return Some(hit.value.ids);
      }
      if database.None? {
        return None;
      }
      pending := pending + [(ProjectList(u), Listing(database.value))];
      return database;
    }

    /** One of the goroutines gets to run, and its write succeeds or not. */
    method RunWrite(n: nat, now: int, works: bool)
      requires n < |pending|
      modifies this
      ensures pending == old(pending[..n] + pending[n + 1..])
      ensures works ==>
        var (s, v) := old(pending)[n];
        redis == old(redis)[KeyOf(s) := Stored(v, now + TtlOf(s))]
      ensures !works ==> redis == old(redis)
    {
      var (s, v) := pending[n];
      pending := pending[..n] + pending[n + 1..];
      if works {
        redis := redis[KeyOf(s) := Stored(v, now + TtlOf(s))];
      }
    }

    method InvalidateUserAccessCache(u: UserId, works: bool)
      modifies this`redis
      ensures redis == if works then old(redis) - {KeyOf(ProjectList(u)), KeyOf(TrackList(u))} else old(redis)
    {
      if works {
        redis := redis - {KeyOf(ProjectList(u)), KeyOf(TrackList(u))};
      }
    }
  }

  /** The answer of a check and the writes pending after it. */
  ghost function Checked(
    redis: map<string, Stored>, pending: seq<(Subject, Value)>, s: Subject, database: Option<bool>, now: int,
    readable: bool): (Option<bool>, seq<(Subject, Value)>)
  {
    match if readable then Lookup(redis, KeyOf(s), now) else None
    case Some(v) => (Some(v == Answer(true)), pending)
    case None => (database, if database.Some? then pending + [(s, Answer(database.value))] else pending)
  }

  /** The list preloaded and the writes pending after it; what is cached and not a list does not decode,
      and counts as a miss. */
  ghost function Preloaded(
    redis: map<string, Stored>, pending: seq<(Subject, Value)>, s: Subject, database: Option<seq<string>>, now: int,
    readable: bool): (Option<seq<string>>, seq<(Subject, Value)>)
  {
    var hit := if readable then Lookup(redis, KeyOf(s), now) else None;
    if hit.Some? && hit.value.Listing? then (Some(hit.value.ids), pending)
    else (database, if database.Some? then pending + [(s, Listing(database.value))] else pending)
  }

  // ---------- The object is the machine ----------

  /** The object's cache and pending writes are the machine's; `ids` are the machine's names for them. */
  ghost predicate Represents(
    st: State, redis: map<string, Stored>, pending: seq<(Subject, Value)>, ids: seq<nat>)
  {
    && st.redis == redis && |ids| == |pending| && NoDuplicates(ids) && st.writes.Keys == Elements(ids)
    && forall n :: 0 <= n < |ids| ==> WritesAbout(st, ids[n], pending[n])
  }

  predicate WritesAbout(st: State, w: nat, about: (Subject, Value)) {
    w in st.writes && st.writes[w].origin.s == about.0 && st.writes[w].value == about.1
  }

  lemma OneMorePending(st: State, pending: seq<(Subject, Value)>, ids: seq<nat>, w: nat, s: Subject, v: Value)
    requires Represents(st, st.redis, pending, ids) && w !in st.writes && st.history != []
    ensures Represents(Apply(st, ReadThrough(w, s, v)), st.redis, pending + [(s, v)], ids + [w])
  {
    var next, more := Apply(st, ReadThrough(w, s, v)), ids + [w];
    assert next.writes.Keys == st.writes.Keys + {w};
    assert Elements(more) == Elements(ids) + {w};
    forall n | 0 <= n < |more| ensures WritesAbout(next, more[n], (pending + [(s, v)])[n]) {
      assert n < |ids| ==> WritesAbout(st, ids[n], pending[n]) && ids[n] in Elements(ids);
    }
    assert forall n :: 0 <= n < |ids| ==> ids[n] in Elements(ids);
  }

  /** A check by the object returns what the machine's check returns, unless it needs the database and
      the query fails; it takes no step on a hit or a failure, and otherwise the machine's reading step. */
  lemma CheckIsAStep(
    st: State, pending: seq<(Subject, Value)>, ids: seq<nat>, w: nat, s: Subject, database: Option<bool>,
    readable: bool, delay: nat)
    requires Represents(st, st.redis, pending, ids) && w !in st.writes && st.history != []
    requires IsPair(s) && WellFormed(s) && (database.Some? ==> (database.value <==> Truth(Current(st), s)))
    ensures var (answer, after) := Checked(st.redis, pending, s, database, st.now, readable);
      var hit := readable && KeyOf(s) in st.redis && st.now < st.redis[KeyOf(s)].expiresAt;
      && (answer == if hit || database.Some? then Some(Check(st, s, readable)) else None)
      && (if hit || database.None? then after == pending
          else
            var step := ReadThrough(w, s, Answer(database.value));
            Enabled(st, step, delay) && Represents(Apply(st, step), st.redis, after, ids + [w]))
  {
    if database.Some? {
      OneMorePending(st, pending, ids, w, s, Answer(database.value));
    }
  }

  /** The same of a preloaded list. */
  lemma PreloadIsAStep(
    st: State, pending: seq<(Subject, Value)>, ids: seq<nat>, w: nat, s: Subject, database: Option<seq<string>>,
    readable: bool, delay: nat)
    requires Represents(st, st.redis, pending, ids) && w !in st.writes && Inv(st, delay)
    requires !IsPair(s) && WellFormed(s) && (database.Some? ==> IsListing(Current(st), s, database.value))
    ensures var (list, after) := Preloaded(st.redis, pending, s, database, st.now, readable);
      var hit := readable && KeyOf(s) in st.redis && st.now < st.redis[KeyOf(s)].expiresAt;
      && (list.None? <==> !hit && database.None?)
      && (list.Some? ==> Preloads(st, s, list.value, readable))
      && (if hit || database.None? then after == pending
          else
            var step := ReadThrough(w, s, Listing(database.value));
            Enabled(st, step, delay) && Represents(Apply(st, step), st.redis, after, ids + [w]))
  {
    if database.Some? {
      OneMorePending(st, pending, ids, w, s, Listing(database.value));
    }
    if readable && Lookup(st.redis, KeyOf(s), st.now).Some? {
      HitIsOfEitherRoute(st, s, delay);
    }
  }

  /** A goroutine that gets to run is the machine storing or dropping its value. */
  lemma WriteIsAStep(st: State, pending: seq<(Subject, Value)>, ids: seq<nat>, n: nat, works: bool)
    requires Represents(st, st.redis, pending, ids) && n < |pending|
    ensures var step := if works then Store(ids[n]) else Drop(ids[n]);
      var (s, v) := pending[n];
      var redis := if works then st.redis[KeyOf(s) := Stored(v, st.now + TtlOf(s))] else st.redis;
      Represents(Apply(st, step), redis, pending[..n] + pending[n + 1..], ids[..n] + ids[n + 1..])
  {
    var step := if works then Store(ids[n]) else Drop(ids[n]);
    var next, left, about := Apply(st, step), ids[..n] + ids[n + 1..], pending[..n] + pending[n + 1..];
    assert WritesAbout(st, ids[n], pending[n]);
    assert next.writes == st.writes - {ids[n]};
    WithoutOne(ids, n);
    forall m | 0 <= m < |left| ensures WritesAbout(next, left[m], about[m]) {
      var k := if m < n then m else m + 1;
      assert left[m] == ids[k] && about[m] == pending[k] && WritesAbout(st, ids[k], pending[k]);
      assert left[m] in Elements(left);
    }
    assert next.writes.Keys == st.writes.Keys - {ids[n]};
  }

  lemma WithoutOne<T>(s: seq<T>, n: nat)
    requires NoDuplicates(s) && n < |s|
    ensures NoDuplicates(s[..n] + s[n + 1..]) && Elements(s[..n] + s[n + 1..]) == Elements(s) - {s[n]}
  {
    var left := s[..n] + s[n + 1..];
    assert forall m :: 0 <= m < |left| ==> left[m] == s[if m < n then m else m + 1];
    forall x | x in Elements(s) && x != s[n] ensures x in left {
      var k :| 0 <= k < |s| && s[k] == x;
      assert left[if k < n then k else k - 1] == x;
    }
  }

  /** Invalidating a user's lists is the machine's step. */
  lemma InvalidationIsAStep(st: State, pending: seq<(Subject, Value)>, ids: seq<nat>, u: UserId)
    requires Represents(st, st.redis, pending, ids)
    ensures Represents(
      Apply(st, Invalidate(u)), st.redis - {KeyOf(ProjectList(u)), KeyOf(TrackList(u))}, pending, ids)
  {
    forall n | 0 <= n < |ids| ensures WritesAbout(Apply(st, Invalidate(u)), ids[n], pending[n]) {
      assert WritesAbout(st, ids[n], pending[n]);
    }
  }

  /** So whatever an object's check answers, after any run, is what the tables said, less than a minute
      plus the write delay ago, about the subject or about the same id on the other route. */
  lemma ObjectAnswersAreRecent(
    steps: seq<Step>, delay: nat, pending: seq<(Subject, Value)>, s: Subject, database: Option<bool>, readable: bool)
      returns (h: nat, t: int, about: Subject)
    requires Legal(FRESH, steps, delay) && WellFormed(s) && IsPair(s) && After(FRESH, steps).history != []
    requires var st := After(FRESH, steps);
      && (database.Some? ==> (database.value <==> Truth(Current(st), s)))
      && Checked(st.redis, pending, s, database, st.now, readable).0.Some?
    ensures var st := After(FRESH, steps);
      && (about == s || about == Other(s)) && HeldAt(st.history, h, t) && st.now - (60 + delay) < t <= st.now
      && (Checked(st.redis, pending, s, database, st.now, readable).0.value <==> Truth(st.history[h].tables, about))
  {
    h, t, about := ChecksAreOfEitherRoute(steps, delay, s, readable);
  }

  class BatchAccessChecker {
    const cache: AccessCheckCache

    constructor (cache: AccessCheckCache)
      ensures this.cache == cache
    {
      this.cache := cache;
    }

    method FilterAccessibleTracks(
      u: UserId, tracks: seq<Track>, database: Option<seq<ProjectId>>, now: int, readable: bool)
      returns (result: Option<seq<Track>>)
      modifies cache`pending
      ensures var (ids, pending) :=
          Preloaded(cache.redis, old(cache.pending), ProjectList(u), database, now, readable);
        && cache.pending == pending
        && result == if ids.None? then None else Some(Filter(tracks, (x: Track) => x.projectId, Elements(ids.value)))
    {
      var accessible := cache.PreloadUserProjectAccessList(u, database, now, readable);
      if accessible.None? {
        return None;
      }
      var projectAccessMap := AccessSet(accessible.value);
      var kept: seq<Track> := [];
      for n := 0 to |tracks|
        invariant kept == Filter(tracks[..n], (x: Track) => x.projectId, Elements(accessible.value))
      {
        assert tracks[..n + 1][..n] == tracks[..n];
        if tracks[n].projectId in projectAccessMap {
          kept := kept + [tracks[n]];
        }
      }
      assert tracks[..|tracks|] == tracks;
      result := Some(kept);
    }

    method FilterAccessibleProjects(
      u: UserId, projects: seq<Project>, database: Option<seq<ProjectId>>, now: int, readable: bool)
      returns (result: Option<seq<Project>>)
      modifies cache`pending
      ensures var (ids, pending) :=
          Preloaded(cache.redis, old(cache.pending), ProjectList(u), database, now, readable);
        && cache.pending == pending
        && result == if ids.None? then None else Some(Filter(projects, (x: Project) => x.id, Elements(ids.value)))
    {
      var accessible := cache.PreloadUserProjectAccessList(u, database, now, readable);
      if accessible.None? {
        return None;
      }
      var projectAccessMap := AccessSet(accessible.value);
      var kept: seq<Project> := [];
      for n := 0 to |projects|
        invariant kept == Filter(projects[..n], (x: Project) => x.id, Elements(accessible.value))
      {
        assert projects[..n + 1][..n] == projects[..n];
        if projects[n].id in projectAccessMap {
          kept := kept + [projects[n]];
        }
      }
      assert projects[..|projects|] == projects;
      result := Some(kept);
    }

    method ParallelAccessCheck(
      u: UserId, projectIds: seq<ProjectId>, database: Option<seq<ProjectId>>, now: int, readable: bool)
      returns (result: Option<map<ProjectId, bool>>)
      modifies cache`pending
      ensures var (ids, pending) :=
          Preloaded(cache.redis, old(cache.pending), ProjectList(u), database, now, readable);
        && cache.pending == pending
        && (result.None? <==> ids.None?)
        && (ids.Some? ==>
              && result.value.Keys == Elements(projectIds)
              && forall p :: p in result.value ==> (result.value[p] <==> IsIn(ids.value, p)))
    {
      var accessible := cache.PreloadUserProjectAccessList(u, database, now, readable);
      if accessible.None? {
        return None;
      }
      var accessibleSet := AccessSet(accessible.value);
      var answers: map<ProjectId, bool> := map[];
      for n := 0 to |projectIds|
        invariant answers.Keys == Elements(projectIds[..n])
        invariant forall p :: p in answers ==> (answers[p] <==> IsIn(accessible.value, p))
      {
        var p := projectIds[n];
        answers := answers[p := p in accessibleSet];
      }
      assert projectIds[..|projectIds|] == projectIds;
      result := Some(answers);
    }
  }

  method AccessSet(accessibleProjects: seq<ProjectId>) returns (projectAccessMap: map<ProjectId, bool>)
    ensures projectAccessMap.Keys == Elements(accessibleProjects)
    ensures forall p :: p in projectAccessMap ==> projectAccessMap[p]
  {
    projectAccessMap := map[];
    for n := 0 to |accessibleProjects|
      invariant projectAccessMap.Keys == Elements(accessibleProjects[..n])
      invariant forall p :: p in projectAccessMap ==> projectAccessMap[p]
    {
      projectAccessMap := projectAccessMap[accessibleProjects[n] := true];
    }
    assert accessibleProjects[..|accessibleProjects|] == accessibleProjects;
  }
}
