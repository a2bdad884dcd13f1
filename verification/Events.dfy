/** The append-only event log, the project aggregate folded from it and the read models it feeds. */
module Events {
  import opened Basics

  datatype Kind =
    | ProjectCreated
    | ProjectUpdated
    | ProjectDeleted
    | TrackUploaded
    | PlayRecorded
    | CommentAdded
    | ProjectShared

  /** A value of an event's data: nothing, a text, or any other value, with how `%s` prints it. */
  datatype Datum = Nil | Text(text: string) | Other(value: int, printed: string)

  /** `kind` is the event's Go type; `eventType` is the free text it carries. */
  datatype Event = Event(
    kind: Kind, eventType: string, aggregateId: string, userId: string, timestamp: int,
    name: string, description: string, isPrivate: bool, fileSize: int, data: map<string, Datum>)

  // ---------- Reading the log ----------

  function EventsOf(log: seq<Event>, aggregateId: string): seq<Event> {
    if log == [] then []
    else
      var last := log[|log| - 1];
      EventsOf(log[..|log| - 1], aggregateId) + if last.aggregateId == aggregateId then [last] else []
  }

  /** All but the first `version` elements; everything when `version` is negative. */
  function From(events: seq<Event>, version: int): seq<Event> {
    if version <= 0 then events else if version >= |events| then [] else events[version..]
  }

  class EventStore {
    var events: seq<Event>
    /** Events handed to a goroutine each, for delivery to the handlers subscribed. */
    var published: seq<Event>

    constructor ()
      ensures events == [] && published == []
    {
      events, published := [], [];
    }

    method AppendEvent(event: Event)
      modifies this
      ensures events == old(events) + [event] && published == old(published) + [event]
    {
      events := events + [event];
      PublishEvent(event);
    }

    method PublishEvent(event: Event)
      modifies this`published
      ensures published == old(published) + [event]
    {
      published := published + [event];
    }

    method GetEvents(aggregateId: string) returns (found: seq<Event>)
      ensures found == EventsOf(events, aggregateId)
    {
      found := [];
      for n := 0 to |events|
        invariant found == EventsOf(events[..n], aggregateId)
      {
        assert events[..n + 1][..n] == events[..n];
        if events[n].aggregateId == aggregateId {
          found := found + [events[n]];
        }
      }
      assert events[..|events|] == events;
    }

    method GetEventsSince(aggregateId: string, version: int) returns (found: seq<Event>)
      ensures found == From(EventsOf(events, aggregateId), version)
    {
      found := [];
      var count := 0;
      for n := 0 to |events|
        invariant count == |EventsOf(events[..n], aggregateId)|
        invariant found == From(EventsOf(events[..n], aggregateId), version)
      {
        assert events[..n + 1][..n] == events[..n];
        if events[n].aggregateId == aggregateId && count >= version {
          found := found + [events[n]];
        }
        if events[n].aggregateId == aggregateId {
          count := count + 1;
        }
      }
      assert events[..|events|] == events;
    }

    method GetAllEvents() returns (all: seq<Event>)
      ensures all == events
    {
      all := events;
    }
  }

  lemma {:induction false} EventsOfAppends(before: seq<Event>, after: seq<Event>, aggregateId: string)
    ensures EventsOf(before + after, aggregateId) == EventsOf(before, aggregateId) + EventsOf(after, aggregateId)
  {
    if after == [] {
      assert before + after == before;
    } else {
      EventsOfAppends(before, after[..|after| - 1], aggregateId);
      assert (before + after)[..|before + after| - 1] == before + after[..|after| - 1];
    }
  }

  /** Exactly the aggregate's events are found, each as often as it is in the log. */
  lemma {:induction false} EventsOfKeepsExactly(log: seq<Event>, aggregateId: string, e: Event)
    ensures multiset(EventsOf(log, aggregateId))[e] == if e.aggregateId == aggregateId then multiset(log)[e] else 0
  {
    if log != [] {
      assert log == log[..|log| - 1] + [log[|log| - 1]];
      EventsOfKeepsExactly(log[..|log| - 1], aggregateId, e);
    }
  }

  // ---------- The aggregate ----------

  datatype Project = Project(
    id: string, name: string, description: string, isPrivate: bool, ownerId: string,
    version: int, createdAt: int, updatedAt: int)

  const UNBORN := Project("", "", "", false, "", 0, 0, 0)

  function Applied(p: Project, e: Event): Project {
    match e.kind
    case ProjectCreated =>
      Project(e.aggregateId, e.name, e.description, e.isPrivate, e.userId, p.version + 1, e.timestamp, e.timestamp)
    case ProjectUpdated =>
      p.(name := e.name, description := e.description, isPrivate := e.isPrivate, updatedAt := e.timestamp,
         version := p.version + 1)
    case ProjectDeleted => p.(updatedAt := e.timestamp)
    case _ => p
  }

  function Replay(p: Project, events: seq<Event>): Project {
    if events == [] then p else Applied(Replay(p, events[..|events| - 1]), events[|events| - 1])
  }

  class ProjectAggregate {
    var id: string
    var name: string
    var description: string
    var isPrivate: bool
    var ownerId: string
    var version: int
    var createdAt: int
    var updatedAt: int
    var events: seq<Event>

    ghost function State(): Project
      reads this
    {
      Project(id, name, description, isPrivate, ownerId, version, createdAt, updatedAt)
    }

    constructor (events: seq<Event>)
      ensures State() == Replay(UNBORN, events) && this.events == events
    {
      id, name, description, isPrivate, ownerId := "", "", "", false, "";
      version, createdAt, updatedAt := 0, 0, 0;
      this.events := events;
      new;
      for n := 0 to |events|
        invariant State() == Replay(UNBORN, events[..n]) && this.events == events
      {
        assert events[..n + 1][..n] == events[..n];
        ApplyEvent(events[n]);
      }
      assert events[..|events|] == events;
    }

    method ApplyEvent(e: Event)
      modifies this
      ensures State() == Applied(old(State()), e) && events == old(events)
    {
      match e.kind {
        case ProjectCreated =>
          id, name, description, isPrivate := e.aggregateId, e.name, e.description, e.isPrivate;
          ownerId := e.userId;
          createdAt, updatedAt := e.timestamp, e.timestamp;
          version := version + 1;
        case ProjectUpdated =>
          name, description, isPrivate := e.name, e.description, e.isPrivate;
          updatedAt := e.timestamp;
          version := version + 1;
        case ProjectDeleted =>
          updatedAt := e.timestamp;
        case _ =>
      }
    }
  }

  lemma {:induction false} ReplayAppends(p: Project, before: seq<Event>, after: seq<Event>)
    ensures Replay(p, before + after) == Replay(Replay(p, before), after)
  {
    if after == [] {
      assert before + after == before;
    } else {
      ReplayAppends(p, before, after[..|after| - 1]);
      assert (before + after)[..|before + after| - 1] == before + after[..|after| - 1];
    }
  }

  /** An aggregate built when the log was `before` is brought up to date by the events since its event
      count, however other aggregates' events are interleaved in `before` and `after`. */
  lemma ResumingFromCount(before: seq<Event>, after: seq<Event>, aggregateId: string)
    ensures var count := |EventsOf(before, aggregateId)|;
      Replay(Replay(UNBORN, EventsOf(before, aggregateId)), From(EventsOf(before + after, aggregateId), count))
      == Replay(UNBORN, EventsOf(before + after, aggregateId))
  {
    EventsOfAppends(before, after, aggregateId);
    ReplayAppends(UNBORN, EventsOf(before, aggregateId), EventsOf(after, aggregateId));
  }

  /** Event `i` is the last of one of the kinds. */
  predicate IsLast(events: seq<Event>, kinds: set<Kind>, i: nat) {
    i < |events| && events[i].kind in kinds && forall j :: i < j < |events| ==> events[j].kind !in kinds
  }

  /** None is of one of the kinds. */
  predicate HasNone(events: seq<Event>, kinds: set<Kind>) {
    forall i :: 0 <= i < |events| ==> events[i].kind !in kinds
  }

  lemma LastOfLonger(events: seq<Event>, e: Event, kinds: set<Kind>)
    ensures e.kind in kinds ==> forall i: nat :: IsLast(events + [e], kinds, i) <==> i == |events|
    ensures e.kind !in kinds ==> forall i: nat :: IsLast(events + [e], kinds, i) <==> IsLast(events, kinds, i)
    ensures HasNone(events + [e], kinds) <==> HasNone(events, kinds) && e.kind !in kinds
  {
    var longer := events + [e];
    assert longer[|events|] == e && forall i :: 0 <= i < |events| ==> longer[i] == events[i];
  }

  /** Which event each field is from: name, description and privacy are those of the last creation or
      update, identity, owner and creation time those of the last creation, and the update time that of the
      last creation, update or deletion; events of other kinds say nothing of the project. */
  ghost predicate TellsLatest(events: seq<Event>, p: Project) {
    && (forall i: nat :: IsLast(events, {ProjectCreated, ProjectUpdated}, i) ==>
          p.name == events[i].name && p.description == events[i].description && p.isPrivate == events[i].isPrivate)
    && (forall i: nat :: IsLast(events, {ProjectCreated}, i) ==>
          p.id == events[i].aggregateId && p.ownerId == events[i].userId && p.createdAt == events[i].timestamp)
    && (forall i: nat :: IsLast(events, {ProjectCreated, ProjectUpdated, ProjectDeleted}, i) ==>
          p.updatedAt == events[i].timestamp)
    && (HasNone(events, {ProjectCreated, ProjectUpdated}) ==> p.name == "" && p.description == "" && !p.isPrivate)
    && (HasNone(events, {ProjectCreated}) ==> p.id == "" && p.ownerId == "" && p.createdAt == 0)
    && (HasNone(events, {ProjectCreated, ProjectUpdated, ProjectDeleted}) ==> p.updatedAt == 0)
  }

  lemma {:induction false} ReplayTellsLatest(events: seq<Event>)
    ensures TellsLatest(events, Replay(UNBORN, events))
  {
    if events != [] {
      var init, last := events[..|events| - 1], events[|events| - 1];
      assert events == init + [last];
      ReplayTellsLatest(init);
      LastOfLonger(init, last, {ProjectCreated, ProjectUpdated});
      LastOfLonger(init, last, {ProjectCreated});
      LastOfLonger(init, last, {ProjectCreated, ProjectUpdated, ProjectDeleted});
    }
  }

  // ---------- Resuming from the aggregate's own version ----------

  predicate Versions(e: Event) {
    e.kind == ProjectCreated || e.kind == ProjectUpdated
  }

  function VersionsIn(events: seq<Event>): (n: nat)
    ensures n <= |events|
  {
    if events == [] then 0
    else VersionsIn(events[..|events| - 1]) + if Versions(events[|events| - 1]) then 1 else 0
  }

  /** Every created or updated event comes before every event of another kind. */
  ghost predicate VersionedFirst(events: seq<Event>) {
    forall i, j :: 0 <= i < j < |events| && Versions(events[j]) ==> Versions(events[i])
  }

  lemma {:induction false} VersionCounts(p: Project, events: seq<Event>)
    ensures Replay(p, events).version == p.version + VersionsIn(events)
  {
    if events != [] {
      VersionCounts(p, events[..|events| - 1]);
    }
  }

  lemma {:induction false} VersionsInAppends(before: seq<Event>, after: seq<Event>)
    ensures VersionsIn(before + after) == VersionsIn(before) + VersionsIn(after)
  {
    if after == [] {
      assert before + after == before;
    } else {
      VersionsInAppends(before, after[..|after| - 1]);
      assert (before + after)[..|before + after| - 1] == before + after[..|after| - 1];
    }
  }

  lemma {:induction false} FullAndQuiet(events: seq<Event>)
    ensures VersionsIn(events) == |events| <==> forall i :: 0 <= i < |events| ==> Versions(events[i])
    ensures VersionsIn(events) == 0 <==> forall i :: 0 <= i < |events| ==> !Versions(events[i])
  {
    if events != [] {
      FullAndQuiet(events[..|events| - 1]);
      assert forall i :: 0 <= i < |events| - 1 ==> events[..|events| - 1][i] == events[i];
    }
  }

  function LastDeletion(events: seq<Event>, default: int): int {
    if events == [] then default
    else if events[|events| - 1].kind == ProjectDeleted then events[|events| - 1].timestamp
    else LastDeletion(events[..|events| - 1], default)
  }

  /** Events that do not raise the version only move the update time. */
  lemma {:induction false} QuietReplay(p: Project, events: seq<Event>)
    requires VersionsIn(events) == 0
    ensures Replay(p, events) == p.(updatedAt := LastDeletion(events, p.updatedAt))
  {
    if events != [] {
      QuietReplay(p, events[..|events| - 1]);
    }
  }

  lemma {:induction false} LastDeletionTwice(events: seq<Event>, t: int)
    ensures LastDeletion(events, LastDeletion(events, t)) == LastDeletion(events, t)
  {
    if events != [] && events[|events| - 1].kind != ProjectDeleted {
      var init := events[..|events| - 1];
      LastDeletionTwice(init, t);
      assert LastDeletion(events, t) == LastDeletion(init, t);
      assert LastDeletion(events, LastDeletion(init, t)) == LastDeletion(init, LastDeletion(init, t));
    }
  }

  lemma QuietReplayTwice(p: Project, events: seq<Event>)
    requires VersionsIn(events) == 0
    ensures Replay(Replay(p, events), events) == Replay(p, events)
  {
    QuietReplay(p, events);
    QuietReplay(Replay(p, events), events);
    LastDeletionTwice(events, p.updatedAt);
  }

  lemma FullThenQuiet(head: seq<Event>, tail: seq<Event>)
    requires VersionsIn(head) + VersionsIn(tail) == |head|
    ensures VersionedFirst(head + tail) <==> VersionsIn(tail) == 0
  {
    var events := head + tail;
    FullAndQuiet(head);
    FullAndQuiet(tail);
    assert forall i :: 0 <= i < |head| ==> events[i] == head[i];
    assert forall j :: |head| <= j < |events| ==> events[j] == tail[j - |head|];
    if VersionsIn(tail) != 0 {
      var i :| 0 <= i < |head| && !Versions(head[i]);
      var j :| 0 <= j < |tail| && Versions(tail[j]);
      assert !Versions(events[i]) && Versions(events[|head| + j]);
    }
  }

  /** The first `VersionsIn` events are all versioned exactly when the rest are all quiet. */
  lemma FirstVersionsAreTheVersions(events: seq<Event>)
    ensures VersionedFirst(events) <==> VersionsIn(events[VersionsIn(events)..]) == 0
  {
    var v := VersionsIn(events);
    assert events[..v] + events[v..] == events;
    VersionsInAppends(events[..v], events[v..]);
    FullThenQuiet(events[..v], events[v..]);
  }

  /** Replaying `again`, the end of `seen`, once more is noticed by the version, unless it is quiet. */
  lemma ReplayingTheEndAgain(seen: seq<Event>, v: nat, later: seq<Event>)
    requires v <= |seen|
    ensures Replay(Replay(Replay(UNBORN, seen), seen[v..]), later) == Replay(Replay(UNBORN, seen), later)
            <==> VersionsIn(seen[v..]) == 0
  {
    var built, again := Replay(UNBORN, seen), seen[v..];
    if VersionsIn(again) == 0 {
      assert seen == seen[..v] + again;
      ReplayAppends(UNBORN, seen[..v], again);
      QuietReplayTwice(Replay(UNBORN, seen[..v]), again);
    } else {
      VersionCounts(built, again);
      VersionCounts(Replay(built, again), later);
      VersionCounts(built, later);
    }
  }

  /** The aggregate's own `version` counts only created and updated events. Resuming from it, instead of
      from the event count, rebuilds the aggregate if and only if, among the events it was built from,
      no created or updated event follows an event of another kind. */
  lemma ResumingFromVersion(before: seq<Event>, after: seq<Event>, aggregateId: string)
    ensures var built := Replay(UNBORN, EventsOf(before, aggregateId));
      Replay(built, From(EventsOf(before + after, aggregateId), built.version))
      == Replay(UNBORN, EventsOf(before + after, aggregateId))
      <==> VersionedFirst(EventsOf(before, aggregateId))
  {
    var seen, later := EventsOf(before, aggregateId), EventsOf(after, aggregateId);
    var built, v := Replay(UNBORN, seen), VersionsIn(seen);
    EventsOfAppends(before, after, aggregateId);
    VersionCounts(UNBORN, seen);
    assert From(seen + later, v) == seen[v..] + later;
    ReplayAppends(built, seen[v..], later);
    ReplayAppends(UNBORN, seen, later);
    FirstVersionsAreTheVersions(seen);
    ReplayingTheEndAgain(seen, v, later);
  }

  // ---------- Read models ----------

  datatype View =
    | CreatedView(id: string, name: string, description: string, isPrivate: bool, ownerId: string, createdAt: int)
    | UpdatedView(id: string, name: string, description: string, isPrivate: bool, updatedAt: int)
    | TracksView(trackId: string, projectId: Datum, name: string, fileSize: int, uploadedAt: int)
    | PlaysView(projectId: Datum, listener: Datum, listened: Datum, playedAt: int)

  type Cache = map<string, View>

  function Field(e: Event, key: string): Datum {
    if key in e.data then e.data[key] else Nil
  }

  function Shown(value: Datum): string {
    match value
    case Nil => "%!s(<nil>)"
    case Text(text) => text
    case Other(_, printed) => printed
  }

  function Key(e: Event): Option<string> {
    match e.kind
    case ProjectCreated | ProjectUpdated => Some(e.eventType + ":" + e.aggregateId)
    case TrackUploaded => Some("tracks:" + Shown(Field(e, "project_id")))
    case PlayRecorded => Some("plays:" + Shown(Field(e, "project_id")))
    case _ => None
  }

  function ViewOf(e: Event): View
    requires Key(e).Some?
  {
    match e.kind
    case ProjectCreated => CreatedView(e.aggregateId, e.name, e.description, e.isPrivate, e.userId, e.timestamp)
    case ProjectUpdated => UpdatedView(e.aggregateId, e.name, e.description, e.isPrivate, e.timestamp)
    case TrackUploaded => TracksView(e.aggregateId, Field(e, "project_id"), e.name, e.fileSize, e.timestamp)
    case PlayRecorded =>
      PlaysView(Field(e, "project_id"), Field(e, "listener_user_id"), Field(e, "duration_listened"), e.timestamp)
  }

  function Handled(cache: Cache, e: Event): Cache {
    if Key(e).Some? then cache[Key(e).value := ViewOf(e)] else cache
  }

  function Delivered(cache: Cache, events: seq<Event>): Cache {
    if events == [] then cache else Handled(Delivered(cache, events[..|events| - 1]), events[|events| - 1])
  }

  class ProjectionHandler {
    var cache: Cache

    constructor ()
      ensures cache == map[]
    {
      cache := map[];
    }

    method Handle(e: Event)
      modifies this
      ensures cache == Handled(old(cache), e)
    {
      var cacheKey := e.eventType + ":" + e.aggregateId;
      match e.kind {
        case ProjectCreated =>
          cache := cache[cacheKey :=
            CreatedView(e.aggregateId, e.name, e.description, e.isPrivate, e.userId, e.timestamp)];
        case ProjectUpdated =>
          cache := cache[cacheKey := UpdatedView(e.aggregateId, e.name, e.description, e.isPrivate, e.timestamp)];
        case TrackUploaded =>
          var key := "tracks:" + Shown(Field(e, "project_id"));
          cache := cache[key := TracksView(e.aggregateId, Field(e, "project_id"), e.name, e.fileSize, e.timestamp)];
        case PlayRecorded =>
          var key := "plays:" + Shown(Field(e, "project_id"));
          cache := cache[key := PlaysView(
            Field(e, "project_id"), Field(e, "listener_user_id"), Field(e, "duration_listened"), e.timestamp)];
        case _ =>
      }
    }
  }

  class EventReplayer {
    const store: EventStore
    const handler: ProjectionHandler

    constructor (store: EventStore, handler: ProjectionHandler)
      ensures this.store == store && this.handler == handler
    {
      this.store, this.handler := store, handler;
    }

    /** One replay, its events published and delivered in log order. */
    method Publish(events: seq<Event>)
      modifies handler, store`published
      ensures handler.cache == Delivered(old(handler.cache), events)
      ensures store.published == old(store.published) + events
    {
      for n := 0 to |events|
        invariant handler.cache == Delivered(old(handler.cache), events[..n])
        invariant store.published == old(store.published) + events[..n]
      {
        assert events[..n + 1][..n] == events[..n];
        store.PublishEvent(events[n]);
        handler.Handle(events[n]);
      }
      assert events[..|events|] == events;
    }

    method ReplayAll()
      modifies handler, store`published
      ensures handler.cache == Delivered(old(handler.cache), store.events)
      ensures store.published == old(store.published) + store.events
    {
      var events := store.GetAllEvents();
      Publish(events);
    }

    method ReplayAggregate(aggregateId: string)
      modifies handler, store`published
      ensures handler.cache == Delivered(old(handler.cache), EventsOf(store.events, aggregateId))
      ensures store.published == old(store.published) + EventsOf(store.events, aggregateId)
    {
      var events := store.GetEvents(aggregateId);
      Publish(events);
    }
  }

  /** Event `i` is the last of `events` to write `key`. */
  ghost predicate LastWrites(events: seq<Event>, key: string, i: nat) {
    && i < |events| && Key(events[i]) == Some(key)
    && forall j :: i < j < |events| ==> Key(events[j]) != Some(key)
  }

  ghost predicate Writes(events: seq<Event>, key: string) {
    exists i :: 0 <= i < |events| && Key(events[i]) == Some(key)
  }

  lemma WritesOfLonger(events: seq<Event>, last: Event, key: string)
    ensures Key(last) != Some(key) ==> (Writes(events + [last], key) <==> Writes(events, key))
    ensures Key(last) != Some(key) ==>
      forall i: nat :: LastWrites(events + [last], key, i) <==> LastWrites(events, key, i)
    ensures Key(last) == Some(key) ==> forall i: nat :: LastWrites(events + [last], key, i) <==> i == |events|
  {
    var longer := events + [last];
    assert longer[|events|] == last && forall i :: 0 <= i < |events| ==> longer[i] == events[i];
  }

  lemma {:induction false} SomeoneWroteLast(events: seq<Event>, key: string)
    requires Writes(events, key)
    ensures exists i: nat :: LastWrites(events, key, i)
  {
    var init, last := events[..|events| - 1], events[|events| - 1];
    assert events == init + [last];
    WritesOfLonger(init, last, key);
    if Key(last) == Some(key) {
      assert LastWrites(events, key, |init|);
    } else {
      SomeoneWroteLast(init, key);
      var i: nat :| LastWrites(init, key, i);
      assert LastWrites(events, key, i);
    }
  }

  lemma {:induction false} KeyHoldsWrite(cache: Cache, events: seq<Event>, key: string, i: nat)
    requires LastWrites(events, key, i)
    ensures key in Delivered(cache, events) && Delivered(cache, events)[key] == ViewOf(events[i])
  {
    var init, last := events[..|events| - 1], events[|events| - 1];
    if i < |init| {
      assert init[i] == events[i];
      KeyHoldsWrite(cache, init, key, i);
    }
  }

  lemma {:induction false} OtherKeysStay(cache: Cache, events: seq<Event>, key: string)
    requires !Writes(events, key)
    ensures key in Delivered(cache, events) <==> key in cache
    ensures key in cache ==> Delivered(cache, events)[key] == cache[key]
  {
    if events != [] {
      var init, last := events[..|events| - 1], events[|events| - 1];
      assert events == init + [last];
      WritesOfLonger(init, last, key);
      OtherKeysStay(cache, init, key);
    }
  }

  /** Each key holds what the last event writing it says; other keys are left as they were. */
  lemma KeysHoldLastWrite(cache: Cache, events: seq<Event>, key: string)
    ensures forall i: nat :: LastWrites(events, key, i) ==>
      key in Delivered(cache, events) && Delivered(cache, events)[key] == ViewOf(events[i])
    ensures Writes(events, key) ==> exists i: nat :: LastWrites(events, key, i)
    ensures !Writes(events, key) ==> (key in Delivered(cache, events) <==> key in cache)
    ensures !Writes(events, key) && key in cache ==> Delivered(cache, events)[key] == cache[key]
  {
    if Writes(events, key) {
      SomeoneWroteLast(events, key);
    } else {
      OtherKeysStay(cache, events, key);
    }
    forall i: nat | LastWrites(events, key, i)
      ensures key in Delivered(cache, events) && Delivered(cache, events)[key] == ViewOf(events[i])
    {
      KeyHoldsWrite(cache, events, key, i);
    }
  }

  /** Which events write the key of a project's tracks or plays, or that of an event type and an aggregate. */
  lemma SharedKeys(a: Event, b: Event)
    ensures a.kind == TrackUploaded && b.kind == TrackUploaded ==>
      (Key(a) == Key(b) <==> Shown(Field(a, "project_id")) == Shown(Field(b, "project_id")))
    ensures a.kind == PlayRecorded && b.kind == PlayRecorded ==>
      (Key(a) == Key(b) <==> Shown(Field(a, "project_id")) == Shown(Field(b, "project_id")))
    ensures a.kind == TrackUploaded && b.kind == PlayRecorded ==> Key(a) != Key(b)
    ensures a.kind in {ProjectCreated, ProjectUpdated} && b.kind in {ProjectCreated, ProjectUpdated} ==>
      (Key(a) == Key(b) <==> a.eventType + ":" + a.aggregateId == b.eventType + ":" + b.aggregateId)
    ensures Key(a) == None <==> a.kind in {ProjectDeleted, CommentAdded, ProjectShared}
  {
    var x, y := Shown(Field(a, "project_id")), Shown(Field(b, "project_id"));
    assert ("tracks:" + x)[7..] == x && ("tracks:" + y)[7..] == y;
    assert ("plays:" + x)[6..] == x && ("plays:" + y)[6..] == y;
    assert ("tracks:" + x)[0] != ("plays:" + y)[0];
  }

  /** The event is a creation or an update that is filed under the key. */
  predicate IsFiledAs(e: Event, key: string) {
    e.kind in {ProjectCreated, ProjectUpdated} && e.eventType + ":" + e.aggregateId == key
  }

  /** The event is an upload to a project, or a play in one, whose id is or prints as `project`. */
  predicate IsUploadTo(e: Event, project: string) {
    e.kind == TrackUploaded && Prints(e, project)
  }

  predicate IsPlayIn(e: Event, project: string) {
    e.kind == PlayRecorded && Prints(e, project)
  }

  predicate Prints(e: Event, project: string) {
    if "project_id" !in e.data || e.data["project_id"] == Nil then project == "%!s(<nil>)"
    else if e.data["project_id"].Text? then project == e.data["project_id"].text
    else project == e.data["project_id"].printed
  }

  lemma WritersOfTracks(e: Event, project: string)
    ensures Key(e) == Some("tracks:" + project) <==> IsUploadTo(e, project) || IsFiledAs(e, "tracks:" + project)
  {
    var x := Shown(Field(e, "project_id"));
    assert ("tracks:" + x)[7..] == x && ("tracks:" + project)[7..] == project;
    assert ("plays:" + x)[0] != ("tracks:" + project)[0];
  }

  lemma WritersOfPlays(e: Event, project: string)
    ensures Key(e) == Some("plays:" + project) <==> IsPlayIn(e, project) || IsFiledAs(e, "plays:" + project)
  {
    var x := Shown(Field(e, "project_id"));
    assert ("plays:" + x)[6..] == x && ("plays:" + project)[6..] == project;
    assert ("tracks:" + x)[0] != ("plays:" + project)[0];
  }

  /** After any deliveries, the projection of a project's tracks shows the last track uploaded to it, unless
      a later creation or update was filed under the same key. */
  lemma TracksShowLatest(cache: Cache, log: seq<Event>, project: string, i: nat)
    requires i < |log| && IsUploadTo(log[i], project)
    requires forall j :: i < j < |log| ==> !IsUploadTo(log[j], project) && !IsFiledAs(log[j], "tracks:" + project)
    ensures var views, e := Delivered(cache, log), log[i];
      && "tracks:" + project in views
      && views["tracks:" + project] == TracksView(
           e.aggregateId, if "project_id" in e.data then e.data["project_id"] else Nil, e.name, e.fileSize, e.timestamp)
  {
    forall j | i <= j < |log| ensures j == i <==> Key(log[j]) == Some("tracks:" + project) {
      WritersOfTracks(log[j], project);
    }
    KeyHoldsWrite(cache, log, "tracks:" + project, i);
  }

  /** Likewise the projection of its plays shows the last play. */
  lemma PlaysShowLatest(cache: Cache, log: seq<Event>, project: string, i: nat)
    requires i < |log| && IsPlayIn(log[i], project)
    requires forall j :: i < j < |log| ==> !IsPlayIn(log[j], project) && !IsFiledAs(log[j], "plays:" + project)
    ensures var views, e := Delivered(cache, log), log[i];
      var value := (key: string) => if key in e.data then e.data[key] else Nil;
      && "plays:" + project in views
      && views["plays:" + project]
         == PlaysView(value("project_id"), value("listener_user_id"), value("duration_listened"), e.timestamp)
  {
    forall j | i <= j < |log| ensures j == i <==> Key(log[j]) == Some("plays:" + project) {
      WritersOfPlays(log[j], project);
    }
    KeyHoldsWrite(cache, log, "plays:" + project, i);
  }

  /** And the projection under an event type and a project shows the last creation or update so filed, unless
      a later upload or play shares the key. */
  lemma ProjectsShowLatest(cache: Cache, log: seq<Event>, key: string, i: nat)
    requires i < |log| && IsFiledAs(log[i], key)
    requires forall j :: i < j < |log| ==> !IsFiledAs(log[j], key)
    requires forall j, project | i < j < |log| ::
      !(IsUploadTo(log[j], project) && key == "tracks:" + project)
      && !(IsPlayIn(log[j], project) && key == "plays:" + project)
    ensures var views, e := Delivered(cache, log), log[i];
      && key in views
      && views[key] ==
         if e.kind == ProjectCreated
         then CreatedView(e.aggregateId, e.name, e.description, e.isPrivate, e.userId, e.timestamp)
         else UpdatedView(e.aggregateId, e.name, e.description, e.isPrivate, e.timestamp)
  {
    forall j | i < j < |log| ensures Key(log[j]) != Some(key) {
      var project := Shown(Field(log[j], "project_id"));
      assert log[j].kind == TrackUploaded ==> IsUploadTo(log[j], project);
      assert log[j].kind == PlayRecorded ==> IsPlayIn(log[j], project);
    }
    KeyHoldsWrite(cache, log, key, i);
  }

  /** Replaying the whole log rebuilds the read models from `cache` exactly when the log writes every key
      that `cache` holds; nothing else about `cache` matters. */
  lemma ReplayAllRestores(cache: Cache, log: seq<Event>)
    ensures Delivered(cache, log) == Delivered(map[], log) <==> forall key :: key in cache ==> Writes(log, key)
  {
    var rebuilt, clean := Delivered(cache, log), Delivered(map[], log);
    forall key ensures key in clean <==> Writes(log, key)
      ensures key in rebuilt <==> Writes(log, key) || key in cache
      ensures Writes(log, key) ==> rebuilt[key] == clean[key]
    {
      KeysHoldLastWrite(cache, log, key);
      KeysHoldLastWrite(map[], log, key);
    }
    if forall key :: key in cache ==> Writes(log, key) {
      assert rebuilt.Keys == clean.Keys;
    }
  }

  /** Replaying the log onto a projection that any prefix of it has brought up to date, in particular the
      whole log, gives the projection of the whole log. */
  lemma ReplayAllCatchesUp(log: seq<Event>, n: nat)
    requires n <= |log|
    ensures Delivered(Delivered(map[], log[..n]), log) == Delivered(map[], log)
  {
    var cache := Delivered(map[], log[..n]);
    forall key | key in cache ensures Writes(log, key) {
      KeysHoldLastWrite(map[], log[..n], key);
      var i :| 0 <= i < n && Key(log[..n][i]) == Some(key);
      assert Key(log[i]) == Some(key);
    }
    ReplayAllRestores(cache, log);
  }

  /** `part` and `log` leave `key` with the same view. */
  ghost predicate SameLastView(part: seq<Event>, log: seq<Event>, key: string) {
    exists i: nat, j: nat :: LastWrites(part, key, i) && LastWrites(log, key, j) && ViewOf(part[i]) == ViewOf(log[j])
  }

  /** Replaying one aggregate leaves an up-to-date projection alone if and only if every key the aggregate
      writes was last written, in the whole log, with the view the aggregate last gave it. */
  lemma ReplayAggregateIsHarmless(log: seq<Event>, aggregateId: string)
    ensures var mine := EventsOf(log, aggregateId);
      Delivered(Delivered(map[], log), mine) == Delivered(map[], log)
      <==> forall key :: Writes(mine, key) ==> SameLastView(mine, log, key)
  {
    var mine := EventsOf(log, aggregateId);
    var before := Delivered(map[], log);
    var now := Delivered(before, mine);
    forall key
      ensures !Writes(mine, key) ==> (key in now <==> key in before) && (key in before ==> now[key] == before[key])
      ensures Writes(mine, key) ==> key in now && key in before
      ensures Writes(mine, key) ==> (now[key] == before[key] <==> SameLastView(mine, log, key))
    {
      KeysHoldLastWrite(before, mine, key);
      KeysHoldLastWrite(map[], log, key);
      if Writes(mine, key) {
        MineAreInTheLog(log, aggregateId, key);
      }
    }
    if forall key :: Writes(mine, key) ==> SameLastView(mine, log, key) {
      assert now.Keys == before.Keys;
    }
  }

  lemma {:induction false} MineAreInTheLog(log: seq<Event>, aggregateId: string, key: string)
    requires Writes(EventsOf(log, aggregateId), key)
    ensures Writes(log, key)
  {
    var init, last := log[..|log| - 1], log[|log| - 1];
    if Key(last) != Some(key) || last.aggregateId != aggregateId {
      assert Writes(EventsOf(init, aggregateId), key);
      MineAreInTheLog(init, aggregateId, key);
      var i :| 0 <= i < |init| && Key(init[i]) == Some(key);
      assert Key(log[i]) == Some(key);
    }
  }

  /** Two tracks whose projects print alike, as those of one project do, share a key, so replaying the
      older one alone undoes the newer. */
  lemma ReplayingOneTrackRevertsAnother(older: Event, newer: Event)
    requires older.kind == TrackUploaded && newer.kind == TrackUploaded
    requires Shown(Field(older, "project_id")) == Shown(Field(newer, "project_id"))
    requires older.aggregateId != newer.aggregateId
    ensures var mine := EventsOf([older, newer], older.aggregateId);
      Delivered(Delivered(map[], [older, newer]), mine) != Delivered(map[], [older, newer])
  {
    var log := [older, newer];
    assert log[..1] == [older] && log[..1][..0] == [];
    assert EventsOf([older], older.aggregateId) == [older];
    assert EventsOf(log, older.aggregateId) == [older];
    var before := Delivered(map[], log);
    assert [older][..0] == [];
    assert Delivered(before, [older]) == Handled(before, older);
    assert before == Handled(Delivered(map[], [older]), newer);
    var key := Key(older).value;
    assert Key(newer).value == key;
    assert before[key].trackId == newer.aggregateId;
    assert Handled(before, older)[key].trackId == older.aggregateId;
  }

  lemma {:induction false} EventsOfOneAggregate(log: seq<Event>, aggregateId: string)
    requires forall i :: 0 <= i < |log| ==> log[i].aggregateId == aggregateId
    ensures EventsOf(log, aggregateId) == log
  {
    if log != [] {
      EventsOfOneAggregate(log[..|log| - 1], aggregateId);
      assert log == log[..|log| - 1] + [log[|log| - 1]];
    }
  }

  /** A deletion between the creation and an update makes the version fall behind the event count, and
      resuming from it then counts the update twice. */
  lemma DeletionMakesVersionLag(created: Event, deleted: Event, updated: Event)
    requires created.kind == ProjectCreated && deleted.kind == ProjectDeleted && updated.kind == ProjectUpdated
    requires created.aggregateId == deleted.aggregateId == updated.aggregateId
    ensures var log := [created, deleted, updated];
      var built := Replay(UNBORN, EventsOf(log, created.aggregateId));
      built.version == 2 && Replay(built, From(EventsOf(log, created.aggregateId), built.version)).version == 3
  {
    var log := [created, deleted, updated];
    EventsOfOneAggregate(log, created.aggregateId);
    VersionsInAppends([created, deleted], [updated]);
    VersionsInAppends([created], [deleted]);
    assert [created] + [deleted] == [created, deleted] && [created, deleted] + [updated] == log;
    assert VersionsIn([created]) == 1 && VersionsIn([deleted]) == 0 && VersionsIn([updated]) == 1;
    VersionCounts(UNBORN, log);
    VersionCounts(Replay(UNBORN, log), [updated]);
    assert log[2..] == [updated];
  }
}
