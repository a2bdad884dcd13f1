/** The two in-memory fixed-window rate limiters. Times are in milliseconds. */
module RateLimit {

  const WINDOW := 60_000
  const KEEP_AFTER_RESET := 5 * 60_000

  /* The first limiter's window is one minute and its cleanup looks two windows back; its functions
     take the window `w` so that what is proved of them also serves the second, configurable one. */

  /** The first limiter's entry: requests admitted in the window that began at `windowStart`. */
  datatype Entry = Entry(count: nat, windowStart: int)

  /** The second limiter's entry: requests made before `resetAt`, refused ones included. */
  datatype Tracker = Tracker(count: nat, resetAt: int, exceeds: nat)

  type Entries = map<string, Entry>
  type Trackers = map<string, Tracker>

  predicate Expired(e: Entry, w: nat, now: int) {
    now - e.windowStart > w
  }

  predicate Allows(m: Entries, id: string, w: nat, limit: nat, now: int) {
    id in m && !Expired(m[id], w, now) ==> m[id].count < limit
  }

  function AfterRequest(m: Entries, id: string, w: nat, limit: nat, now: int): Entries {
    if id !in m || Expired(m[id], w, now) then m[id := Entry(1, now)]
    else if m[id].count >= limit then m
    else m[id := Entry(m[id].count + 1, m[id].windowStart)]
  }

  function AfterCleanup(m: Entries, w: nat, now: int): Entries {
    map id | id in m && m[id].windowStart >= now - 2 * w :: m[id]
  }

  predicate Admits(m: Trackers, id: string, limit: int, now: int) {
    id in m && now <= m[id].resetAt ==> m[id].count + 1 <= limit
  }

  function AfterHit(m: Trackers, id: string, window: int, limit: int, now: int): Trackers {
    if id !in m || now > m[id].resetAt then m[id := Tracker(1, now + window, 0)]
    else
      var t := m[id].(count := m[id].count + 1);
      m[id := if t.count > limit then t.(exceeds := t.exceeds + 1) else t]
  }

  predicate Kept(t: Tracker, now: int) {
    now <= t.resetAt + KEEP_AFTER_RESET
  }

  function AfterSweep(m: Trackers, now: int): Trackers {
    map id | id in m && Kept(m[id], now) :: m[id]
  }

  function Remaining(m: Trackers, id: string, limit: int): int {
    if id !in m then limit
    else if limit - m[id].count < 0 then 0
    else limit - m[id].count
  }

  // ---------- The limiters ----------

  class RateLimiter {
    var requests: Entries

    constructor ()
      ensures requests == map[]
    {
      requests := map[];
    }

    method IsAllowedWithLimit(identifier: string, limitPerMinute: nat, now: int) returns (allowed: bool)
      modifies this
      ensures allowed <==> Allows(old(requests), identifier, WINDOW, limitPerMinute, now)
      ensures requests == AfterRequest(old(requests), identifier, WINDOW, limitPerMinute, now)
    {
      if identifier !in requests {
        requests := requests[identifier := Entry(1, now)];
        return true;
      }
      var entry := requests[identifier];
      if now - entry.windowStart > WINDOW {
        requests := requests[identifier := Entry(1, now)];
        return true;
      }
      if entry.count >= limitPerMinute {
        return false;
      }
      requests := requests[identifier := entry.(count := entry.count + 1)];
      return true;
    }

    method Cleanup(now: int)
      modifies this
      ensures requests == AfterCleanup(old(requests), WINDOW, now)
      ensures forall id :: id in requests <==> id in old(requests) && now - old(requests)[id].windowStart <= 2 * WINDOW
    {
      var cutoff := now - 2 * WINDOW;
      var todo := requests.Keys;
      while todo != {}
        invariant todo <= old(requests).Keys
        invariant requests.Keys == set id | id in old(requests) && (id in todo || old(requests)[id].windowStart >= cutoff)
        invariant forall id :: id in requests ==> requests[id] == old(requests)[id]
      {
        var id :| id in todo;
        if requests[id].windowStart < cutoff {
          requests := requests - {id};
        }
        todo := todo - {id};
      }
    }
  }

  class ConfigurableRateLimiter {
    const window: int
    const limit: int
    var counts: Trackers

    constructor (window: int, limit: int)
      ensures this.window == window && this.limit == limit && counts == map[]
    {
      this.window, this.limit := window, limit;
      counts := map[];
    }

    method Handle(key: string, now: int) returns (served: bool)
      modifies this
      ensures served <==> Admits(old(counts), key, limit, now)
      ensures counts == AfterHit(old(counts), key, window, limit, now)
    {
      if key !in counts || now > counts[key].resetAt {
        counts := counts[key := Tracker(1, now + window, 0)];
        return true;
      }
      var tracker := counts[key];
      tracker := tracker.(count := tracker.count + 1);
      if tracker.count > limit {
        tracker := tracker.(exceeds := tracker.exceeds + 1);
        counts := counts[key := tracker];
        return false;
      }
      counts := counts[key := tracker];
      return true;
    }

    method Cleanup(now: int)
      modifies this
      ensures counts == AfterSweep(old(counts), now)
      ensures forall key :: key in counts <==> key in old(counts) && now - old(counts)[key].resetAt <= 5 * 60_000
    {
      var todo := counts.Keys;
      while todo != {}
        invariant todo <= old(counts).Keys
        invariant counts.Keys == set key | key in old(counts) && (key in todo || Kept(old(counts)[key], now))
        invariant forall key :: key in counts ==> counts[key] == old(counts)[key]
      {
        var key :| key in todo;
        if now > counts[key].resetAt + KEEP_AFTER_RESET {
          counts := counts - {key};
        }
        todo := todo - {key};
      }
    }

    method GetRateLimitStatus(key: string) returns (requestsRemaining: int)
      ensures requestsRemaining == Remaining(counts, key, limit)
    {
      if key !in counts {
        return limit;
      }
      requestsRemaining := limit - counts[key].count;
      if requestsRemaining < 0 {
        requestsRemaining := 0;
      }
    }
  }

  // ---------- Runs ----------

  datatype Event = Request(id: string, limit: nat, at: int) | Cleanup(at: int)

  predicate Ordered(events: seq<Event>) {
    forall a, b :: 0 <= a < b < |events| ==> events[a].at <= events[b].at
  }

  function Run(events: seq<Event>, w: nat): Entries {
    if events == [] then map[]
    else
      var n := |events| - 1;
      match events[n]
      case Request(id, limit, at) => AfterRequest(Run(events[..n], w), id, w, limit, at)
      case Cleanup(at) => AfterCleanup(Run(events[..n], w), w, at)
  }

  /** Whether the last event is a request by `id` that is let through. */
  predicate LastAdmitted(events: seq<Event>, w: nat, id: string) {
    && events != [] && events[|events| - 1].Request? && events[|events| - 1].id == id
    && Allows(Run(events[..|events| - 1], w), id, w, events[|events| - 1].limit, events[|events| - 1].at)
  }

  /** Requests by `id` admitted at `from` or later. */
  function AdmittedSince(events: seq<Event>, w: nat, id: string, from: int): nat {
    if events == [] then 0
    else
      var n := |events| - 1;
      AdmittedSince(events[..n], w, id, from) + if LastAdmitted(events, w, id) && from <= events[n].at then 1 else 0
  }

  /** Requests by `id` admitted between `from` and `to`, both included. */
  function AdmittedWithin(events: seq<Event>, w: nat, id: string, from: int, to: int): nat {
    if events == [] then 0
    else
      var n := |events| - 1;
      AdmittedWithin(events[..n], w, id, from, to) +
      if LastAdmitted(events, w, id) && from <= events[n].at <= to then 1 else 0
  }

  predicate LimitedBy(events: seq<Event>, id: string, most: nat) {
    forall n :: 0 <= n < |events| && events[n].Request? && events[n].id == id ==> events[n].limit <= most
  }

  /** An entry counts its own window; what came before it is at most one window's worth less its first. */
  ghost predicate Counted(events: seq<Event>, w: nat, id: string, most: nat)
    requires events != []
  {
    var m, now := Run(events, w), events[|events| - 1].at;
    if id in m then
      var e := m[id];
      && 1 <= e.count <= most && e.windowStart <= now
      && AdmittedSince(events, w, id, e.windowStart) == e.count
      && (forall t :: t > e.windowStart ==> AdmittedSince(events, w, id, t) <= e.count - 1)
      && (forall t :: t > e.windowStart + w ==> AdmittedSince(events, w, id, t) == 0)
      && (forall t :: t >= e.windowStart - w ==> AdmittedSince(events, w, id, t) <= most - 1 + e.count)
    else
      forall t :: t >= now - w ==> AdmittedSince(events, w, id, t) == 0
  }

  /** What one more event adds to the requests admitted. */
  ghost predicate AddsOne(events: seq<Event>, w: nat, id: string)
    requires events != []
  {
    var n := |events| - 1;
    forall t :: AdmittedSince(events, w, id, t) ==
      AdmittedSince(events[..n], w, id, t) + if LastAdmitted(events, w, id) && t <= events[n].at then 1 else 0
  }

  lemma CountedFirst(events: seq<Event>, w: nat, id: string, most: nat)
    requires |events| == 1 && most >= 1 && AddsOne(events, w, id)
    ensures Counted(events, w, id, most)
  {
    assert events[..0] == [];
  }

  lemma CountedCleanup(events: seq<Event>, w: nat, id: string, most: nat)
    requires |events| > 1 && Ordered(events) && most >= 1 && AddsOne(events, w, id)
    requires Counted(events[..|events| - 1], w, id, most) && events[|events| - 1].Cleanup?
    ensures Counted(events, w, id, most)
  {
    assert events[|events| - 2].at <= events[|events| - 1].at;
  }

  lemma CountedRequest(events: seq<Event>, w: nat, id: string, most: nat)
    requires |events| > 1 && Ordered(events) && LimitedBy(events, id, most) && most >= 1 && AddsOne(events, w, id)
    requires Counted(events[..|events| - 1], w, id, most) && events[|events| - 1].Request?
    ensures Counted(events, w, id, most)
  {
    assert events[|events| - 2].at <= events[|events| - 1].at;
  }

  lemma {:induction false} CountedAlways(events: seq<Event>, w: nat, id: string, most: nat)
    requires events != [] && Ordered(events) && LimitedBy(events, id, most) && most >= 1
    ensures Counted(events, w, id, most)
  {
    var n := |events| - 1;
    if n == 0 {
      CountedFirst(events, w, id, most);
    } else {
      CountedAlways(events[..n], w, id, most);
      if events[n].Request? {
        CountedRequest(events, w, id, most);
      } else {
        CountedCleanup(events, w, id, most);
      }
    }
  }

  lemma {:induction false} WithinAtMostSince(events: seq<Event>, w: nat, id: string, from: int, to: int)
    ensures AdmittedWithin(events, w, id, from, to) <= AdmittedSince(events, w, id, from)
  {
    if events != [] {
      WithinAtMostSince(events[..|events| - 1], w, id, from, to);
    }
  }

  /** No closed interval one window long sees more than twice the limit, less one, of an identifier's
      requests admitted, wherever cleanups fall and whichever limits up to `most` the requests carry. */
  lemma {:induction false} SlidingBound(events: seq<Event>, w: nat, id: string, most: nat, from: int)
    requires Ordered(events) && LimitedBy(events, id, most) && most >= 1
    ensures AdmittedWithin(events, w, id, from, from + w) <= 2 * most - 1
  {
    if events != [] {
      var n := |events| - 1;
      SlidingBound(events[..n], w, id, most, from);
      if LastAdmitted(events, w, id) && from <= events[n].at <= from + w {
        CountedAlways(events, w, id, most);
        WithinAtMostSince(events, w, id, from, from + w);
      }
    }
  }

  // ---------- Bursts ----------

  /** `k` requests by one identifier at one instant. */
  function Burst(id: string, limit: nat, at: int, k: nat): seq<Event> {
    seq(k, _ => Request(id, limit, at))
  }

  lemma AdmitsOne(events: seq<Event>, w: nat, id: string, limit: nat, at: int, from: int, to: int)
    requires id in Run(events, w) && !Expired(Run(events, w)[id], w, at)
    requires Run(events, w)[id].count < limit && from <= at <= to
    ensures var after := events + [Request(id, limit, at)];
      && id in Run(after, w) && Run(after, w)[id] == Run(events, w)[id].(count := Run(events, w)[id].count + 1)
      && AdmittedWithin(after, w, id, from, to) == AdmittedWithin(events, w, id, from, to) + 1
  {
    assert (events + [Request(id, limit, at)])[..|events|] == events;
  }

  lemma OpensWindow(events: seq<Event>, w: nat, id: string, limit: nat, at: int, from: int, to: int)
    requires id in Run(events, w) ==> Expired(Run(events, w)[id], w, at)
    ensures var after := events + [Request(id, limit, at)];
      && Run(after, w) == Run(events, w)[id := Entry(1, at)]
      && AdmittedWithin(after, w, id, from, to)
         == AdmittedWithin(events, w, id, from, to) + if from <= at <= to then 1 else 0
  {
    assert (events + [Request(id, limit, at)])[..|events|] == events;
  }

  /** In an open window a burst is admitted up to what is left of the limit. */
  lemma {:induction false} BurstFillsWindow(
    events: seq<Event>, w: nat, id: string, limit: nat, at: int, k: nat, from: int, to: int)
    requires id in Run(events, w) && !Expired(Run(events, w)[id], w, at) && from <= at <= to
    requires Run(events, w)[id].count + k <= limit
    ensures var after := events + Burst(id, limit, at, k);
      && id in Run(after, w) && Run(after, w)[id] == Run(events, w)[id].(count := Run(events, w)[id].count + k)
      && AdmittedWithin(after, w, id, from, to) == AdmittedWithin(events, w, id, from, to) + k
  {
    if k == 0 {
      assert events + Burst(id, limit, at, k) == events;
    } else {
      var shorter := events + Burst(id, limit, at, k - 1);
      BurstFillsWindow(events, w, id, limit, at, k - 1, from, to);
      AdmitsOne(shorter, w, id, limit, at, from, to);
      assert Burst(id, limit, at, k) == Burst(id, limit, at, k - 1) + [Request(id, limit, at)];
      assert events + Burst(id, limit, at, k) == shorter + [Request(id, limit, at)];
    }
  }

  /** One request, a full window's rest at its last instant, and a full new window a millisecond later. */
  function Worst(w: nat, id: string, limit: nat): seq<Event>
    requires limit >= 1
  {
    [Request(id, limit, 0)] + Burst(id, limit, w, limit - 1) + [Request(id, limit, w + 1)]
    + Burst(id, limit, w + 1, limit - 1)
  }

  lemma WorstIsOrdered(w: nat, id: string, limit: nat)
    requires limit >= 1
    ensures Ordered(Worst(w, id, limit)) && LimitedBy(Worst(w, id, limit), id, limit)
  {
    var events := Worst(w, id, limit);
    assert forall n :: 0 <= n < |events| ==>
      events[n] == Request(id, limit, if n == 0 then 0 else if n < limit then w else w + 1);
  }

  /** `events` left `count` requests in the window that opened at `start`, `admitted` of them in range. */
  ghost predicate Reached(events: seq<Event>, w: nat, id: string, count: nat, start: int, admitted: nat) {
    && id in Run(events, w) && Run(events, w)[id] == Entry(count, start)
    && AdmittedWithin(events, w, id, w, w + 1) == admitted
  }

  lemma ReachFirst(w: nat, id: string, limit: nat)
    requires w >= 1
    ensures Reached([Request(id, limit, 0)], w, id, 1, 0, 0)
  {
    OpensWindow([], w, id, limit, 0, w, w + 1);
    assert [] + [Request(id, limit, 0)] == [Request(id, limit, 0)];
  }

  lemma ReachMore(events: seq<Event>, w: nat, id: string, limit: nat, at: int, start: int, admitted: nat)
    requires limit >= 1 && Reached(events, w, id, 1, start, admitted)
    requires start <= at <= start + w && w <= at <= w + 1
    ensures Reached(events + Burst(id, limit, at, limit - 1), w, id, limit, start, admitted + limit - 1)
  {
    BurstFillsWindow(events, w, id, limit, at, limit - 1, w, w + 1);
  }

  lemma ReachNext(events: seq<Event>, w: nat, id: string, limit: nat, count: nat, admitted: nat)
    requires Reached(events, w, id, count, 0, admitted)
    ensures Reached(events + [Request(id, limit, w + 1)], w, id, 1, w + 1, admitted + 1)
  {
    OpensWindow(events, w, id, limit, w + 1, w, w + 1);
  }

  lemma ReachFull(w: nat, id: string, limit: nat)
    requires limit >= 1 && w >= 1
    ensures Reached([Request(id, limit, 0)] + Burst(id, limit, w, limit - 1), w, id, limit, 0, limit - 1)
  {
    ReachFirst(w, id, limit);
    ReachMore([Request(id, limit, 0)], w, id, limit, w, 0, 0);
  }

  lemma ReachSecond(events: seq<Event>, w: nat, id: string, limit: nat)
    requires limit >= 1 && w >= 1 && Reached(events, w, id, limit, 0, limit - 1)
    ensures Reached(events + [Request(id, limit, w + 1)] + Burst(id, limit, w + 1, limit - 1),
                    w, id, limit, w + 1, 2 * limit - 1)
  {
    ReachNext(events, w, id, limit, limit, limit - 1);
    ReachMore(events + [Request(id, limit, w + 1)], w, id, limit, w + 1, w + 1, limit);
  }

  /** The bound is met: that run admits `2 * limit - 1` requests within one millisecond. */
  lemma BoundIsMet(w: nat, id: string, limit: nat)
    requires limit >= 1 && w >= 1
    ensures Ordered(Worst(w, id, limit)) && LimitedBy(Worst(w, id, limit), id, limit)
    ensures AdmittedWithin(Worst(w, id, limit), w, id, w, w + 1) == 2 * limit - 1
  {
    WorstIsOrdered(w, id, limit);
    ReachFull(w, id, limit);
    ReachSecond([Request(id, limit, 0)] + Burst(id, limit, w, limit - 1), w, id, limit);
  }

  // ---------- Cleanup changes no decision; the two limiters agree ----------

  function Requests(events: seq<Event>): seq<Event> {
    if events == [] then []
    else
      var n := |events| - 1;
      Requests(events[..n]) + if events[n].Request? then [events[n]] else []
  }

  /** The first limiter's verdicts, one per request. */
  function Verdicts(events: seq<Event>, w: nat): seq<bool> {
    if events == [] then []
    else
      var n := |events| - 1;
      match events[n]
      case Request(id, limit, at) => Verdicts(events[..n], w) + [Allows(Run(events[..n], w), id, w, limit, at)]
      case Cleanup(_) => Verdicts(events[..n], w)
  }

  function RunTrackers(events: seq<Event>, window: int, limit: int): Trackers {
    if events == [] then map[]
    else
      var n := |events| - 1;
      match events[n]
      case Request(id, _, at) => AfterHit(RunTrackers(events[..n], window, limit), id, window, limit, at)
      case Cleanup(at) => AfterSweep(RunTrackers(events[..n], window, limit), at)
  }

  /** The second limiter's verdicts, one per request. */
  function TrackerVerdicts(events: seq<Event>, window: int, limit: int): seq<bool> {
    if events == [] then []
    else
      var n := |events| - 1;
      match events[n]
      case Request(id, _, at) =>
        TrackerVerdicts(events[..n], window, limit) + [Admits(RunTrackers(events[..n], window, limit), id, limit, at)]
      case Cleanup(_) => TrackerVerdicts(events[..n], window, limit)
  }

  /** Two tables differ at most in entries whose window is over at `now`. */
  ghost predicate SameButExpired(m: Entries, full: Entries, w: nat, now: int) {
    && (forall id :: id in m ==> id in full && m[id] == full[id])
    && (forall id :: id in full && id !in m ==> Expired(full[id], w, now))
  }

  ghost predicate SameButReset(m: Trackers, full: Trackers, now: int) {
    && (forall id :: id in m ==> id in full && m[id] == full[id])
    && (forall id :: id in full && id !in m ==> now > full[id].resetAt)
  }

  /** One more event keeps the verdicts of the cleaned and the full table alike. */
  lemma CleanupStep(m: Entries, full: Entries, w: nat, last: int, e: Event)
    requires SameButExpired(m, full, w, last) && last <= e.at
    ensures e.Request? ==>
      && (Allows(m, e.id, w, e.limit, e.at) <==> Allows(full, e.id, w, e.limit, e.at))
      && SameButExpired(AfterRequest(m, e.id, w, e.limit, e.at), AfterRequest(full, e.id, w, e.limit, e.at), w, e.at)
    ensures e.Cleanup? ==> SameButExpired(AfterCleanup(m, w, e.at), full, w, e.at)
  {
  }

  lemma SweepStep(m: Trackers, full: Trackers, last: int, e: Event, window: int, limit: int)
    requires SameButReset(m, full, last) && last <= e.at
    ensures e.Request? ==>
      && (Admits(m, e.id, limit, e.at) <==> Admits(full, e.id, limit, e.at))
      && SameButReset(AfterHit(m, e.id, window, limit, e.at), AfterHit(full, e.id, window, limit, e.at), e.at)
    ensures e.Cleanup? ==> SameButReset(AfterSweep(m, e.at), full, e.at)
  {
  }

  function LastTime(events: seq<Event>, otherwise: int): int {
    if events == [] then otherwise else events[|events| - 1].at
  }

  lemma RequestsSnoc(events: seq<Event>)
    requires events != [] && events[|events| - 1].Request?
    ensures Requests(events) == Requests(events[..|events| - 1]) + [events[|events| - 1]]
    ensures Requests(events)[..|Requests(events)| - 1] == Requests(events[..|events| - 1])
  {
  }

  /** Dropping every cleanup from a run leaves all verdicts of the first limiter as they were. */
  lemma {:induction false} CleanupIsInvisible(events: seq<Event>, w: nat, until: int)
    requires Ordered(events) && LastTime(events, until) <= until
    ensures Verdicts(events, w) == Verdicts(Requests(events), w)
    ensures SameButExpired(Run(events, w), Run(Requests(events), w), w, LastTime(events, until))
  {
    if events != [] {
      var n := |events| - 1;
      CleanupIsInvisible(events[..n], w, events[n].at);
      CleanupStep(Run(events[..n], w), Run(Requests(events[..n]), w), w, LastTime(events[..n], events[n].at), events[n]);
      if events[n].Request? {
        RequestsSnoc(events);
      } else {
        assert Requests(events) == Requests(events[..n]);
      }
    }
  }

  /** Likewise for the second limiter, whose entries outlive their window by five minutes. */
  lemma {:induction false} SweepIsInvisible(events: seq<Event>, window: int, limit: int, until: int)
    requires Ordered(events) && LastTime(events, until) <= until
    ensures TrackerVerdicts(events, window, limit) == TrackerVerdicts(Requests(events), window, limit)
    ensures SameButReset(
      RunTrackers(events, window, limit), RunTrackers(Requests(events), window, limit), LastTime(events, until))
  {
    if events != [] {
      var n := |events| - 1;
      SweepIsInvisible(events[..n], window, limit, events[n].at);
      SweepStep(RunTrackers(events[..n], window, limit), RunTrackers(Requests(events[..n]), window, limit),
                LastTime(events[..n], events[n].at), events[n], window, limit);
      if events[n].Request? {
        RequestsSnoc(events);
      } else {
        assert Requests(events) == Requests(events[..n]);
      }
    }
  }

  predicate AllLimited(events: seq<Event>, limit: nat) {
    forall n :: 0 <= n < |events| && events[n].Request? ==> events[n].limit == limit
  }

  predicate NoCleanups(events: seq<Event>) {
    forall n :: 0 <= n < |events| ==> events[n].Request?
  }

  /** The first limiter stops counting at the limit, the second counts on. */
  ghost predicate SameWindows(m: Entries, t: Trackers, w: nat, limit: nat) {
    && m.Keys == t.Keys
    && forall id :: id in m ==>
         && t[id].resetAt == m[id].windowStart + w && 1 <= m[id].count <= t[id].count
         && (m[id].count < t[id].count ==> m[id].count >= limit)
         && (m[id].count > limit ==> m[id].count == 1)
  }

  lemma WindowsStep(m: Entries, t: Trackers, w: nat, limit: nat, id: string, now: int)
    requires SameWindows(m, t, w, limit)
    ensures SameWindows(AfterRequest(m, id, w, limit, now), AfterHit(t, id, w, limit, now), w, limit)
    ensures Allows(m, id, w, limit, now) <==> Admits(t, id, limit, now)
  {
  }

  lemma {:induction false} RequestsOnlyAgree(events: seq<Event>, w: nat, limit: nat)
    requires AllLimited(events, limit) && NoCleanups(events)
    ensures SameWindows(Run(events, w), RunTrackers(events, w, limit), w, limit)
    ensures Verdicts(events, w) == TrackerVerdicts(events, w, limit)
  {
    if events != [] {
      var n := |events| - 1;
      RequestsOnlyAgree(events[..n], w, limit);
      WindowsStep(Run(events[..n], w), RunTrackers(events[..n], w, limit), w, limit, events[n].id, events[n].at);
    }
  }

  lemma {:induction false} RequestsShape(events: seq<Event>, limit: nat)
    requires AllLimited(events, limit)
    ensures AllLimited(Requests(events), limit) && NoCleanups(Requests(events))
  {
    if events != [] {
      RequestsShape(events[..|events| - 1], limit);
    }
  }

  /** With equal windows and limits, the two limiters give the same verdict on every request, even when
      each is cleaned up at its own times. */
  lemma LimitersAgree(first: seq<Event>, second: seq<Event>, w: nat, limit: nat)
    requires Ordered(first) && Ordered(second) && AllLimited(first, limit) && Requests(first) == Requests(second)
    ensures Verdicts(first, w) == TrackerVerdicts(second, w, limit)
  {
    CleanupIsInvisible(first, w, LastTime(first, 0));
    SweepIsInvisible(second, w, limit, LastTime(second, 0));
    RequestsShape(first, limit);
    RequestsOnlyAgree(Requests(first), w, limit);
  }

  /** Requests by `id` the second limiter serves between `from` and `to`, both included. */
  function ServedWithin(events: seq<Event>, w: nat, limit: nat, id: string, from: int, to: int): nat {
    if events == [] then 0
    else
      var n := |events| - 1;
      ServedWithin(events[..n], w, limit, id, from, to) +
      if events[n].Request? && events[n].id == id && Admits(RunTrackers(events[..n], w, limit), id, limit, events[n].at)
         && from <= events[n].at <= to then 1 else 0
  }

  lemma {:induction false} ServedIsAdmitted(events: seq<Event>, w: nat, limit: nat, id: string, from: int, to: int)
    requires Ordered(events) && AllLimited(events, limit)
    ensures ServedWithin(events, w, limit, id, from, to) == AdmittedWithin(events, w, id, from, to)
  {
    if events != [] {
      var n := |events| - 1;
      ServedIsAdmitted(events[..n], w, limit, id, from, to);
      LimitersAgree(events, events, w, limit);
      LimitersAgree(events[..n], events[..n], w, limit);
      if events[n].Request? {
        var k := |Verdicts(events[..n], w)|;
        assert Verdicts(events, w)[k] == TrackerVerdicts(events, w, limit)[k];
      }
    }
  }

  /** The sliding bound for the configurable limiter, over its own window. */
  lemma ConfigurableSlidingBound(events: seq<Event>, w: nat, limit: nat, id: string, from: int)
    requires Ordered(events) && AllLimited(events, limit) && limit >= 1
    ensures ServedWithin(events, w, limit, id, from, from + w) <= 2 * limit - 1
  {
    ServedIsAdmitted(events, w, limit, id, from, from + w);
    SlidingBound(events, w, id, limit, from);
  }

  // ---------- The reported status ----------

  /** The status tells whether the next request will be served, except in two cases: a full entry whose
      window is already over still reads as exhausted, and so does an unknown key under a limit below
      one, whose first request is served nevertheless. */
  lemma StatusIsAccurate(m: Trackers, id: string, limit: int, now: int)
    ensures (Remaining(m, id, limit) > 0 <==> Admits(m, id, limit, now))
      <==> !(if id in m then now > m[id].resetAt && m[id].count >= limit else limit < 1)
  {
  }

  /** Requests served out of `k` made at one instant. */
  function Served(m: Trackers, id: string, window: int, limit: int, now: int, k: nat): nat
    decreases k
  {
    if k == 0 then 0
    else
      Served(AfterHit(m, id, window, limit, now), id, window, limit, now, k - 1) +
      if Admits(m, id, limit, now) then 1 else 0
  }

  /** Before the reset, the remaining count is exactly how many further requests will be served. */
  lemma {:induction false} RemainingIsExact(m: Trackers, id: string, window: int, limit: int, now: int, k: nat)
    requires id in m && now <= m[id].resetAt
    decreases k
    ensures Served(m, id, window, limit, now, k) == if k < Remaining(m, id, limit) then k else Remaining(m, id, limit)
  {
    if k > 0 {
      RemainingIsExact(AfterHit(m, id, window, limit, now), id, window, limit, now, k - 1);
    }
  }

  // ---------- What the tables hold ----------

  /** The window of each entry opened with a request. */
  ghost predicate OpenedBy(events: seq<Event>, id: string, at: int) {
    exists n :: 0 <= n < |events| && events[n].Request? && events[n].id == id && events[n].at == at
  }

  lemma OpenedLonger(events: seq<Event>, id: string, at: int)
    requires events != []
    ensures OpenedBy(events[..|events| - 1], id, at) ==> OpenedBy(events, id, at)
    ensures events[|events| - 1].Request? ==>
      OpenedBy(events, events[|events| - 1].id, events[|events| - 1].at)
  {
    var init := events[..|events| - 1];
    if n :| 0 <= n < |init| && init[n].Request? && init[n].id == id && init[n].at == at {
      assert events[n] == init[n];
    }
  }

  lemma {:induction false} WindowsAreOpened(events: seq<Event>, w: nat, limit: int, id: string)
    ensures id in Run(events, w) ==> OpenedBy(events, id, Run(events, w)[id].windowStart)
    ensures id in RunTrackers(events, w, limit) ==> OpenedBy(events, id, RunTrackers(events, w, limit)[id].resetAt - w)
  {
    if events != [] {
      var n := |events| - 1;
      WindowsAreOpened(events[..n], w, limit, id);
      if id in Run(events, w) {
        OpenedLonger(events, id, Run(events, w)[id].windowStart);
      }
      if id in RunTrackers(events, w, limit) {
        OpenedLonger(events, id, RunTrackers(events, w, limit)[id].resetAt - w);
      }
    }
  }

  /** A cleanup leaves only identifiers that made a request in the last two windows, or for the second
      limiter in the last window and the five minutes before, and takes no entry of a later window. */
  lemma CleanupBoundsTables(events: seq<Event>, w: nat, limit: int, id: string, now: int)
    ensures var m, cleaned := Run(events, w), Run(events + [Cleanup(now)], w);
      && (id in cleaned ==> exists at :: OpenedBy(events, id, at) && now - at <= 2 * w)
      && (id in m && now - m[id].windowStart <= 2 * w ==> id in cleaned && cleaned[id] == m[id])
    ensures var m, swept := RunTrackers(events, w, limit), RunTrackers(events + [Cleanup(now)], w, limit);
      && (id in swept ==> exists at :: OpenedBy(events, id, at) && now - at <= w + 5 * 60_000)
      && (id in m && now - m[id].resetAt <= 5 * 60_000 ==> id in swept && swept[id] == m[id])
  {
    assert (events + [Cleanup(now)])[..|events|] == events;
    WindowsAreOpened(events, w, limit, id);
  }

  /** Requests by `id` from position `from` on. */
  function RequestsFrom(events: seq<Event>, id: string, from: nat): nat {
    if events == [] || |events| <= from then 0
    else
      var last := events[|events| - 1];
      RequestsFrom(events[..|events| - 1], id, from) + if last.Request? && last.id == id then 1 else 0
  }

  /** The second limiter counts every request since the one that opened the window, and counts apart those
      over the limit. */
  lemma {:induction false} TrackersCount(events: seq<Event>, window: int, limit: int, id: string) returns (first: nat)
    requires id in RunTrackers(events, window, limit)
    ensures first < |events| && events[first].Request? && events[first].id == id
    ensures var t, over := RunTrackers(events, window, limit)[id], RequestsFrom(events, id, first) - Most(limit);
      && t.resetAt == events[first].at + window && t.count >= 1 && t.count == RequestsFrom(events, id, first)
      && t.exceeds == if over > 0 then over else 0
  {
    var n := |events| - 1;
    var before, last := RunTrackers(events[..n], window, limit), events[n];
    if last.Request? && last.id == id && (id !in before || last.at > before[id].resetAt) {
      first := n;
      assert RequestsFrom(events[..n], id, n) == 0;
    } else {
      first := TrackersCount(events[..n], window, limit, id);
    }
  }

  /** The first request of a window is served whatever the limit. */
  function Most(limit: int): int {
    if limit < 1 then 1 else limit
  }
}
