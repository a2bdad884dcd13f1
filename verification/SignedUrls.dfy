/** Signed download links behind two caches: the storage client keeps a link for four minutes, the
    download handler for twelve. Times and durations are in nanoseconds. */
module SignedUrls {
  import opened Basics
  import opened UrlKeys

  const MINUTE := 60 * SECOND
  const INNER_TTL := 4 * MINUTE
  const OUTER_TTL := 12 * MINUTE

  /** A link signed at `minted` for `expiry`. */
  datatype Url = Url(objectKey: string, expiry: int, minted: int)

  datatype Entry = Entry(url: Url, expiresAt: int)

  type Cache = map<string, Entry>

  function Lookup(cache: Cache, key: string, now: int): Option<Url> {
    if key in cache && now <= cache[key].expiresAt then Some(cache[key].url) else None
  }

  function Stored(cache: Cache, key: string, url: Url, expiresAt: int): Cache {
    cache[key := Entry(url, expiresAt)]
  }

  function Cleaned(cache: Cache, now: int): Cache {
    map key | key in cache && now <= cache[key].expiresAt :: cache[key]
  }

  datatype Caches = Caches(now: int, inner: Cache, outer: Cache)

  datatype Answer = Answer(caches: Caches, url: Option<Url>)

  /** The storage client's link and its cache afterwards; `signs` says whether signing succeeds, should
      it be needed. */
  function Signed(cache: Cache, objectKey: string, expiry: int, now: int, signs: bool): (Cache, Option<Url>) {
    var key := InnerKey(objectKey, expiry);
    var cached := Lookup(cache, key, now);
    if cached.Some? then (cache, cached)
    else if !signs then (cache, None)
    else
      var url := Url(objectKey, expiry, now);
      (Stored(cache, key, url, now + INNER_TTL), Some(url))
  }

  function SignInner(s: Caches, objectKey: string, expiry: int, signs: bool): Answer {
    var (inner, url) := Signed(s.inner, objectKey, expiry, s.now, signs);
    Answer(s.(inner := inner), url)
  }

  /** The download handler's link. */
  function SignOuter(s: Caches, objectKey: string, seconds: int, signs: bool): Answer {
    var key := OuterKey(objectKey, seconds);
    var cached := Lookup(s.outer, key, s.now);
    if cached.Some? then Answer(s, cached)
    else
      var signed := SignInner(s, objectKey, seconds * SECOND, signs);
      if signed.url.None? then signed
      else
        var s' := signed.caches;
        Answer(s'.(outer := Stored(s'.outer, key, signed.url.value, s'.now + OUTER_TTL)), signed.url)
  }

  // ---------- The code's own objects ----------

  class PresignedURLCache {
    const ttl: int
    var entries: Cache

    constructor (ttl: int)
      ensures this.ttl == ttl && entries == map[]
    {
      this.ttl := ttl;
      entries := map[];
    }

    method Get(key: string, now: int) returns (url: Option<Url>)
      ensures url == Lookup(entries, key, now)
    {
      if key !in entries {
        return None;
      }
      var entry := entries[key];
      if now > entry.expiresAt {
        return None;
      }
      return Some(entry.url);
    }

    method Set(key: string, url: Url, now: int)
      modifies this
      ensures entries == Stored(old(entries), key, url, now + ttl)
    {
      entries := entries[key := Entry(url, now + ttl)];
    }

    method CleanupExpired(now: int)
      modifies this
      ensures entries == Cleaned(old(entries), now)
      ensures forall key :: key in entries <==> key in old(entries) && now <= old(entries)[key].expiresAt
    {
      var keys := entries.Keys;
      while keys != {}
        invariant keys <= old(entries).Keys
        invariant entries == map key | key in old(entries) && (key in keys || now <= old(entries)[key].expiresAt)
                             :: old(entries)[key]
        decreases keys
      {
        var key :| key in keys;
        keys := keys - {key};
        if now > entries[key].expiresAt {
          entries := entries - {key};
        }
      }
    }
  }

  class R2Client {
    const presigned: PresignedURLCache
    var presignCacheHits: nat
    var presignCacheMisses: nat

    constructor ()
      ensures presigned.ttl == INNER_TTL && presigned.entries == map[] && fresh(presigned)
      ensures presignCacheHits == presignCacheMisses == 0
    {
      presigned := new PresignedURLCache(4 * MINUTE);
      presignCacheHits, presignCacheMisses := 0, 0;
    }

    method GenerateSignedURL(objectKey: string, expiresIn: int, now: int, signs: bool) returns (url: Option<Url>)
      requires presigned.ttl == INNER_TTL
      modifies this, presigned
      ensures (presigned.entries, url) == Signed(old(presigned.entries), objectKey, expiresIn, now, signs)
      ensures var hit := Lookup(old(presigned.entries), InnerKey(objectKey, expiresIn), now).Some?;
        && presignCacheHits == old(presignCacheHits) + (if hit then 1 else 0)
        && presignCacheMisses == old(presignCacheMisses) + (if hit then 0 else 1)
    {
      var cacheKey := InnerKey(objectKey, expiresIn);
      var cached := presigned.Get(cacheKey, now);
      if cached.Some? {
        presignCacheHits := presignCacheHits + 1;
        return cached;
      }
      presignCacheMisses := presignCacheMisses + 1;
      if !signs {
        return None;
      }
      var signed := Url(objectKey, expiresIn, now);
      presigned.Set(cacheKey, signed, now);
      return Some(signed);
    }
  }

  class DownloadHandlers {
    const r2: R2Client
    const urlCache: PresignedURLCache

    ghost predicate Valid() {
      r2.presigned != urlCache && r2.presigned.ttl == INNER_TTL && urlCache.ttl == OUTER_TTL
    }

    constructor (r2: R2Client)
      requires r2.presigned.ttl == INNER_TTL
      ensures Valid() && this.r2 == r2 && urlCache.entries == map[]
    {
      this.r2 := r2;
      urlCache := new PresignedURLCache(12 * MINUTE);
    }

    method GetOrCreateSignedURL(objectKey: string, seconds: int, now: int, signs: bool) returns (url: Option<Url>)
      requires Valid()
      modifies r2, r2.presigned, urlCache
      ensures SignOuter(Caches(now, old(r2.presigned.entries), old(urlCache.entries)), objectKey, seconds, signs)
              == Answer(Caches(now, r2.presigned.entries, urlCache.entries), url)
    {
      var cacheKey := OuterKey(objectKey, seconds);
      url := urlCache.Get(cacheKey, now);
      if url.Some? {
        return;
      }
      url := r2.GenerateSignedURL(objectKey, seconds * SECOND, now, signs);
      if url.Some? {
        urlCache.Set(cacheKey, url.value, now);
      }
    }
  }

  // ---------- Runs ----------

  datatype Step =
    | Tick(duration: nat)
    | Inner(objectKey: string, expiry: int, signs: bool)
    | Outer(objectKey: string, seconds: int, signs: bool)
    | CleanInner
    | CleanOuter

  function Perform(s: Caches, step: Step): Answer {
    match step
    case Tick(duration) => Answer(s.(now := s.now + duration), None)
    case Inner(objectKey, expiry, signs) => SignInner(s, objectKey, expiry, signs)
    case Outer(objectKey, seconds, signs) => SignOuter(s, objectKey, seconds, signs)
    case CleanInner => Answer(s.(inner := Cleaned(s.inner, s.now)), None)
    case CleanOuter => Answer(s.(outer := Cleaned(s.outer, s.now)), None)
  }

  const START := Caches(0, map[], map[])

  function After(steps: seq<Step>): Caches {
    if steps == [] then START else Perform(After(steps[..|steps| - 1]), steps[|steps| - 1]).caches
  }

  ghost predicate Inv(s: Caches) {
    && (forall key :: key in s.inner ==>
          var e := s.inner[key];
          && key == InnerKey(e.url.objectKey, e.url.expiry)
          && e.url.minted <= s.now && e.expiresAt == e.url.minted + INNER_TTL)
    && (forall key :: key in s.outer ==>
          var e := s.outer[key];
          && key == OuterKey(e.url.objectKey, Whole(e.url.expiry))
          && e.url.minted <= s.now && e.expiresAt <= e.url.minted + INNER_TTL + OUTER_TTL)
  }

  /** The link is for the object asked for, with the whole seconds of expiry asked for, and no older
      than `age`. */
  ghost predicate Fits(url: Url, objectKey: string, seconds: int, now: int, age: int) {
    url.objectKey == objectKey && Whole(url.expiry) == seconds && url.minted <= now <= url.minted + age
  }

  lemma InnerFits(s: Caches, objectKey: string, expiry: int, signs: bool)
    requires Inv(s)
    ensures var a := SignInner(s, objectKey, expiry, signs);
      Inv(a.caches) && (a.url.Some? ==> Fits(a.url.value, objectKey, Whole(expiry), s.now, INNER_TTL))
  {
    var key := InnerKey(objectKey, expiry);
    if key in s.inner {
      var url := s.inner[key].url;
      InnerKeysDiffer(objectKey, expiry, url.objectKey, url.expiry);
    }
  }

  lemma StoringKeepsInv(s: Caches, seconds: int, url: Url)
    requires Inv(s) && Fits(url, url.objectKey, seconds, s.now, INNER_TTL)
    ensures Inv(s.(outer := Stored(s.outer, OuterKey(url.objectKey, seconds), url, s.now + OUTER_TTL)))
  {
  }

  lemma OuterFits(s: Caches, objectKey: string, seconds: int, signs: bool)
    requires Inv(s)
    ensures var a := SignOuter(s, objectKey, seconds, signs);
      Inv(a.caches) && (a.url.Some? ==> Fits(a.url.value, objectKey, seconds, s.now, INNER_TTL + OUTER_TTL))
  {
    var key := OuterKey(objectKey, seconds);
    if Lookup(s.outer, key, s.now).Some? {
      var url := s.outer[key].url;
      OuterKeysDiffer(objectKey, seconds, url.objectKey, Whole(url.expiry));
    } else {
      var signed := SignInner(s, objectKey, seconds * SECOND, signs);
      InnerFits(s, objectKey, seconds * SECOND, signs);
      assert Whole(seconds * SECOND) == seconds;
      if signed.url.Some? {
        StoringKeepsInv(signed.caches, seconds, signed.url.value);
      }
    }
  }

  lemma {:induction false} RunKeepsInv(steps: seq<Step>)
    ensures Inv(After(steps))
  {
    if steps != [] {
      var s, step := After(steps[..|steps| - 1]), steps[|steps| - 1];
      RunKeepsInv(steps[..|steps| - 1]);
      if step.Inner? {
        InnerFits(s, step.objectKey, step.expiry, step.signs);
      } else if step.Outer? {
        OuterFits(s, step.objectKey, step.seconds, step.signs);
      }
    }
  }

  /** Whatever the requests and sweeps before it, a link from the download handler is the right one and
      was signed at most sixteen minutes earlier; one from the storage client, at most four. */
  lemma AgesAdd(steps: seq<Step>, step: Step)
    requires step.Inner? || step.Outer?
    ensures var url := Perform(After(steps), step).url;
      url.Some? ==>
        if step.Inner? then Fits(url.value, step.objectKey, Whole(step.expiry), After(steps).now, INNER_TTL)
        else Fits(url.value, step.objectKey, step.seconds, After(steps).now, INNER_TTL + OUTER_TTL)
  {
    RunKeepsInv(steps);
    if step.Inner? {
      InnerFits(After(steps), step.objectKey, step.expiry, step.signs);
    } else {
      OuterFits(After(steps), step.objectKey, step.seconds, step.signs);
    }
  }

  // ---------- Which expiries are long enough ----------

  /** `step`, taken after `steps`, does not hand out an expired link. */
  ghost predicate HandsOutLive(steps: seq<Step>, step: Step) {
    var a := Perform(After(steps), step);
    a.url.Some? ==> a.caches.now <= a.url.value.minted + a.url.value.expiry
  }

  lemma WholeOf(duration: int)
    ensures Whole(duration) >= 0 && duration >= 0 ==> Whole(duration) * SECOND <= duration
    ensures Whole(duration) > 0 ==> duration > 0
  {
  }

  /** What `steps` followed by `step` leave. */
  lemma Snoc(steps: seq<Step>, step: Step)
    ensures After(steps + [step]) == Perform(After(steps), step).caches
  {
    assert (steps + [step])[..|steps|] == steps;
  }

  /** The storage client alone never hands out an expired link exactly when the expiry is at least its
      four minutes; the one-minute links of the player are not. */
  lemma InnerIsLive(objectKey: string, expiry: int, signs: bool)
    ensures (forall steps :: HandsOutLive(steps, Inner(objectKey, expiry, signs))) <==> expiry >= INNER_TTL
  {
    var step := Inner(objectKey, expiry, signs);
    if expiry >= INNER_TTL {
      forall steps ensures HandsOutLive(steps, step) {
        AgesAdd(steps, step);
        var url := Perform(After(steps), step).url;
        if url.Some? {
          WholeOf(url.value.expiry);
        }
      }
    } else {
      var first := Inner(objectKey, expiry, true);
      Snoc([], first);
      Snoc([first], Tick(INNER_TTL));
      assert [] + [first] == [first];
      assert !HandsOutLive([first] + [Tick(INNER_TTL)], step);
    }
  }

  /** Through both caches, when the storage client may also be asked for the same link directly, links
      are never expired exactly when the expiry is at least sixteen minutes. */
  lemma OuterIsLive(objectKey: string, seconds: int, signs: bool)
    ensures (forall steps :: HandsOutLive(steps, Outer(objectKey, seconds, signs)))
            <==> seconds * SECOND >= INNER_TTL + OUTER_TTL
  {
    var step := Outer(objectKey, seconds, signs);
    if seconds * SECOND >= INNER_TTL + OUTER_TTL {
      forall steps ensures HandsOutLive(steps, step) {
        AgesAdd(steps, step);
        var url := Perform(After(steps), step).url;
        if url.Some? {
          WholeOf(url.value.expiry);
        }
      }
    } else {
      var direct := Inner(objectKey, seconds * SECOND, true);
      var through := Outer(objectKey, seconds, true);
      assert [] + [direct] == [direct];
      Snoc([], direct);
      Snoc([direct], Tick(INNER_TTL));
      Snoc([direct] + [Tick(INNER_TTL)], through);
      Snoc([direct] + [Tick(INNER_TTL)] + [through], Tick(OUTER_TTL));
      assert !HandsOutLive([direct] + [Tick(INNER_TTL)] + [through] + [Tick(OUTER_TTL)], step);
    }
  }

  /** Nobody asks the storage client directly for this object with this expiry. */
  ghost predicate Sole(steps: seq<Step>, objectKey: string, seconds: int) {
    forall step :: step in steps && step.Inner? ==> !(step.objectKey == objectKey && Whole(step.expiry) == seconds)
  }

  /** Both caches hold the same link for the pair, or the inner one has let it lapse. */
  ghost predicate Aligned(s: Caches, objectKey: string, seconds: int) {
    var inner, outer := InnerKey(objectKey, seconds * SECOND), OuterKey(objectKey, seconds);
    && (outer in s.outer ==> s.outer[outer].expiresAt == s.outer[outer].url.minted + OUTER_TTL)
    && (inner in s.inner && s.now <= s.inner[inner].expiresAt ==>
          outer in s.outer && s.outer[outer].expiresAt == s.inner[inner].url.minted + OUTER_TTL)
  }

  lemma OtherInnerKeepsAligned(s: Caches, objectKey: string, seconds: int, other: string, expiry: int, signs: bool)
    requires Aligned(s, objectKey, seconds) && !(other == objectKey && Whole(expiry) == seconds)
    ensures Aligned(SignInner(s, other, expiry, signs).caches, objectKey, seconds)
  {
    InnerKeysDiffer(objectKey, seconds * SECOND, other, expiry);
  }

  lemma OuterKeepsAligned(s: Caches, objectKey: string, seconds: int, other: string, secs: int, signs: bool)
    requires Inv(s) && Aligned(s, objectKey, seconds)
    ensures Aligned(SignOuter(s, other, secs, signs).caches, objectKey, seconds)
  {
    OuterKeysDiffer(objectKey, seconds, other, secs);
    InnerKeysDiffer(objectKey, seconds * SECOND, other, secs * SECOND);
    if other != objectKey || seconds != secs {
      OtherInnerKeepsAligned(s, objectKey, seconds, other, secs * SECOND, signs);
    }
  }

  lemma CleanupKeepsAligned(s: Caches, objectKey: string, seconds: int)
    requires Inv(s) && Aligned(s, objectKey, seconds)
    ensures Aligned(s.(inner := Cleaned(s.inner, s.now)), objectKey, seconds)
    ensures Aligned(s.(outer := Cleaned(s.outer, s.now)), objectKey, seconds)
  {
  }

  lemma {:induction false} SoleStaysAligned(steps: seq<Step>, objectKey: string, seconds: int)
    requires Sole(steps, objectKey, seconds)
    ensures Aligned(After(steps), objectKey, seconds)
  {
    if steps != [] {
      var s, step := After(steps[..|steps| - 1]), steps[|steps| - 1];
      SoleStaysAligned(steps[..|steps| - 1], objectKey, seconds);
      RunKeepsInv(steps[..|steps| - 1]);
      match step {
        case Tick(_) =>
        case Inner(other, expiry, signs) => OtherInnerKeepsAligned(s, objectKey, seconds, other, expiry, signs);
        case Outer(other, secs, signs) => OuterKeepsAligned(s, objectKey, seconds, other, secs, signs);
        case _ => CleanupKeepsAligned(s, objectKey, seconds);
      }
    }
  }

  /** When only the download handler asks for the pair, the lifetimes do not add: links are never expired
      exactly when the expiry is at least twelve minutes, as the handler's fifteen are. */
  lemma SoleOuterIsLive(objectKey: string, seconds: int, signs: bool)
    ensures (forall steps :: Sole(steps, objectKey, seconds) ==>
               HandsOutLive(steps, Outer(objectKey, seconds, signs))) <==> seconds * SECOND >= OUTER_TTL
  {
    var step := Outer(objectKey, seconds, signs);
    if seconds * SECOND >= OUTER_TTL {
      forall steps | Sole(steps, objectKey, seconds) ensures HandsOutLive(steps, step) {
        AgesAdd(steps, step);
        SoleStaysAligned(steps, objectKey, seconds);
        RunKeepsInv(steps);
        var url := Perform(After(steps), step).url;
        if url.Some? {
          WholeOf(url.value.expiry);
        }
      }
    } else {
      var first := Outer(objectKey, seconds, true);
      assert [] + [first] == [first];
      Snoc([], first);
      Snoc([first], Tick(OUTER_TTL));
      assert Sole([first] + [Tick(OUTER_TTL)], objectKey, seconds);
      assert !HandsOutLive([first] + [Tick(OUTER_TTL)], step);
    }
  }

  // ---------- Sweeping expired entries ----------

  /** The two caches answer every lookup alike from now on. */
  ghost predicate Agree(a: Cache, b: Cache, now: int) {
    forall key, t :: t >= now ==> Lookup(a, key, t) == Lookup(b, key, t)
  }

  ghost predicate Alike(s: Caches, t: Caches) {
    s.now == t.now && Agree(s.inner, t.inner, s.now) && Agree(s.outer, t.outer, s.now)
  }

  function WithoutCleanup(steps: seq<Step>): seq<Step> {
    if steps == [] then []
    else
      var last := steps[|steps| - 1];
      WithoutCleanup(steps[..|steps| - 1]) + if last.CleanInner? || last.CleanOuter? then [] else [last]
  }

  lemma CleanedAgrees(a: Cache, b: Cache, now: int)
    requires Agree(a, b, now)
    ensures Agree(Cleaned(a, now), b, now)
  {
    forall key, t | t >= now ensures Lookup(Cleaned(a, now), key, t) == Lookup(b, key, t) {
      assert Lookup(a, key, t) == Lookup(b, key, t);
    }
  }

  lemma StoredAgrees(a: Cache, b: Cache, key: string, url: Url, expiresAt: int, now: int)
    requires Agree(a, b, now)
    ensures Agree(Stored(a, key, url, expiresAt), Stored(b, key, url, expiresAt), now)
  {
    forall k, t | t >= now
      ensures Lookup(Stored(a, key, url, expiresAt), k, t) == Lookup(Stored(b, key, url, expiresAt), k, t)
    {
      assert Lookup(a, k, t) == Lookup(b, k, t);
    }
  }

  lemma InnerAlike(s: Caches, t: Caches, objectKey: string, expiry: int, signs: bool)
    requires Alike(s, t)
    ensures var a, b := SignInner(s, objectKey, expiry, signs), SignInner(t, objectKey, expiry, signs);
      a.url == b.url && Alike(a.caches, b.caches) && a.caches.outer == s.outer && b.caches.outer == t.outer
  {
    var key := InnerKey(objectKey, expiry);
    assert Lookup(s.inner, key, s.now) == Lookup(t.inner, key, s.now);
    StoredAgrees(s.inner, t.inner, key, Url(objectKey, expiry, s.now), s.now + INNER_TTL, s.now);
  }

  lemma OuterAlike(s: Caches, t: Caches, objectKey: string, seconds: int, signs: bool)
    requires Alike(s, t)
    ensures var a, b := SignOuter(s, objectKey, seconds, signs), SignOuter(t, objectKey, seconds, signs);
      a.url == b.url && Alike(a.caches, b.caches)
  {
    var key := OuterKey(objectKey, seconds);
    assert Lookup(s.outer, key, s.now) == Lookup(t.outer, key, s.now);
    InnerAlike(s, t, objectKey, seconds * SECOND, signs);
    var signed := SignInner(s, objectKey, seconds * SECOND, signs);
    if signed.url.Some? {
      StoredAgrees(s.outer, t.outer, key, signed.url.value, s.now + OUTER_TTL, s.now);
    }
  }

  lemma {:induction false} CleanupKeepsAlike(steps: seq<Step>)
    ensures Alike(After(steps), After(WithoutCleanup(steps)))
  {
    if steps != [] {
      var init, step := steps[..|steps| - 1], steps[|steps| - 1];
      var s, t := After(init), After(WithoutCleanup(init));
      CleanupKeepsAlike(init);
      assert step.CleanInner? || step.CleanOuter? ==> WithoutCleanup(steps) == WithoutCleanup(init);
      if step.CleanInner? {
        CleanedAgrees(s.inner, t.inner, s.now);
      } else if step.CleanOuter? {
        CleanedAgrees(s.outer, t.outer, s.now);
      } else {
        Snoc(WithoutCleanup(init), step);
        if step.Inner? {
          InnerAlike(s, t, step.objectKey, step.expiry, step.signs);
        } else if step.Outer? {
          OuterAlike(s, t, step.objectKey, step.seconds, step.signs);
        }
      }
    }
  }

  /** A sweep leaves no link in the client's cache that is more than four minutes old, nor one in the
      handler's that is more than sixteen, and takes none that was stored a lifetime ago or less. */
  lemma SweptCachesAreFresh(steps: seq<Step>, key: string)
    ensures var s, inner, outer := After(steps), After(steps + [CleanInner]).inner, After(steps + [CleanOuter]).outer;
      && (key in inner <==> key in s.inner && s.now - s.inner[key].url.minted <= 4 * MINUTE)
      && (key in inner ==> inner[key] == s.inner[key])
      && (key in outer ==> key in s.outer && outer[key] == s.outer[key] && s.now - outer[key].url.minted <= 16 * MINUTE)
      && (key in s.outer && s.now <= s.outer[key].expiresAt ==> key in outer)
  {
    RunKeepsInv(steps);
    Snoc(steps, CleanInner);
    Snoc(steps, CleanOuter);
  }

  /** Sweeps, wherever they fall in a run, change no answer. */
  lemma CleanupIsInvisible(steps: seq<Step>, step: Step)
    ensures Perform(After(steps), step).url == Perform(After(WithoutCleanup(steps)), step).url
  {
    CleanupKeepsAlike(steps);
    if step.Inner? {
      InnerAlike(After(steps), After(WithoutCleanup(steps)), step.objectKey, step.expiry, step.signs);
    } else if step.Outer? {
      OuterAlike(After(steps), After(WithoutCleanup(steps)), step.objectKey, step.seconds, step.signs);
    }
  }
}
