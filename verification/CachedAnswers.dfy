/** What the authenticator's cache is for: an answer that was remembered is given again for a TTL, without
    the store; an invalidated key is asked of the store at once. */
module CachedAnswers {
  import opened Wrappers
  import opened TenantStore
  import opened Authenticator
  import opened KeyLifetime

  /** Entry `e` is in the cache, with at most `newer` entries behind it. */
  ghost predicate Kept(cache: Cache, e: Entry, newer: nat) {
    exists p: nat :: p < |cache| && cache[p] == e && |cache| - p - 1 <= newer
  }

  /** The entries in front of `e` are no newer than it. */
  ghost predicate InOrder(cache: Cache) {
    forall p, q | 0 <= p < q < |cache| :: cache[p].insertedAt <= cache[q].insertedAt
  }

  lemma {:induction false} LookupFinds(cache: Cache, e: Entry)
    requires DistinctKeys(cache) && e in cache
    ensures Lookup(cache, e.key) == Some(e)
  {
    if cache[0].key != e.key {
      assert e in cache[1..];
      assert forall p, q | 0 <= p < q < |cache[1..]| :: cache[1..][p] == cache[p + 1] && cache[1..][q] == cache[q + 1];
      LookupFinds(cache[1..], e);
    }
  }

  lemma InOrderCons(e: Entry, rest: Cache)
    requires InOrder(rest) && forall x | x in rest :: e.insertedAt <= x.insertedAt
    ensures InOrder([e] + rest)
  {
  }

  lemma InOrderTail(cache: Cache)
    requires InOrder(cache) && cache != []
    ensures InOrder(cache[1..]) && forall x | x in cache[1..] :: cache[0].insertedAt <= x.insertedAt
  {
    assert forall p | 0 <= p < |cache[1..]| :: cache[1..][p] == cache[p + 1];
  }

  lemma {:induction false} DropKeyKeepsOrder(cache: Cache, key: string)
    requires InOrder(cache)
    ensures InOrder(DropKey(cache, key))
  {
    if cache != [] {
      InOrderTail(cache);
      DropKeyKeepsOrder(cache[1..], key);
      DropKeyDrops(cache[1..], key);
      InOrderCons(cache[0], DropKey(cache[1..], key));
      hide InOrder, DistinctKeys;
    }
  }

  lemma {:induction false} DropKeyKeeps(cache: Cache, key: string, e: Entry, newer: nat)
    requires Kept(cache, e, newer) && e.key != key
    ensures Kept(DropKey(cache, key), e, newer)
  {
    var p: nat :| p < |cache| && cache[p] == e && |cache| - p - 1 <= newer;
    var rest := DropKey(cache[1..], key);
    if p == 0 {
      assert DropKey(cache, key) == [e] + rest;
      assert DropKey(cache, key)[0] == e;
    } else {
      assert cache[1..][p - 1] == e;
      DropKeyKeeps(cache[1..], key, e, newer);
      var q: nat :| q < |rest| && rest[q] == e && |rest| - q - 1 <= newer;
      if cache[0].key == key {
        assert DropKey(cache, key) == rest;
      } else {
        assert DropKey(cache, key)[q + 1] == e;
      }
    }
  }

  lemma RememberKeepsOrder(cache: Cache, cacheMax: int, entry: Entry)
    requires InOrder(cache) && Remember(cache, cacheMax, entry).Ok?
    requires forall x | x in cache :: x.insertedAt <= entry.insertedAt
    ensures InOrder(Remember(cache, cacheMax, entry).value)
  {
    assert forall p | 0 <= p < |cache| :: cache[p] in cache;
  }

  lemma OldestIsFirst(cache: Cache)
    requires InOrder(cache) && cache != []
    ensures Oldest(cache) == 0
  {
    assert forall q | 0 <= q < |cache| :: cache[0].insertedAt <= cache[q].insertedAt;
  }

  /** Remembering another entry puts one more behind `e`, and evicts `e` only when all others are behind it. */
  lemma RememberKeeps(cache: Cache, cacheMax: int, entry: Entry, e: Entry, newer: nat)
    requires InOrder(cache) && Kept(cache, e, newer) && newer + 1 < cacheMax
    ensures Remember(cache, cacheMax, entry).Ok? && Kept(Remember(cache, cacheMax, entry).value, e, newer + 1)
  {
    var p: nat :| p < |cache| && cache[p] == e && |cache| - p - 1 <= newer;
    var after := Remember(cache, cacheMax, entry).value;
    if |cache| < cacheMax {
      assert after[p] == e;
    } else {
      var i := Oldest(cache);
      OldestIsFirst(cache);
      assert p > 0;
      assert after[p - 1] == e;
    }
  }

  // --- Over runs -----------------------------------------------------

  ghost predicate NotNewer(w: World) {
    InOrder(w.cache) && forall x | x in w.cache :: x.insertedAt <= w.now
  }

  lemma AuthenticateKeepsOrder(cfg: Config, w: World, key: string)
    requires NotNewer(w)
    ensures NotNewer(Next(cfg, w, Authenticate(key)))
  {
    hide AuthenticateIn;
    DropKeyKeepsOrder(w.cache, key);
    DropKeyDrops(w.cache, key);
    var base := if Lookup(w.cache, key).Some? then DropKey(w.cache, key) else w.cache;
    var found := StoreAnswer(w, key);
    if found.Some? {
      var entry := Entry(key, w.now, found.value);
      if Remember(base, cfg.cacheMax, entry).Ok? {
        RememberKeepsOrder(base, cfg.cacheMax, entry);
        RememberEvictsOldest(base, cfg.cacheMax, entry);
      }
    }
    hide Remember, DropKey;
  }

  lemma NextKeepsOrder(cfg: Config, w: World, event: Event)
    requires NotNewer(w)
    ensures NotNewer(Next(cfg, w, event))
  {
    match event
    case Authenticate(key) => AuthenticateKeepsOrder(cfg, w, key);
    case Invalidate(key) =>
      DropKeyKeepsOrder(w.cache, key);
      DropKeyDrops(w.cache, key);
    case _ => OtherEventsKeepCache(cfg, w, event);
  }

  lemma OtherEventsKeepCache(cfg: Config, w: World, event: Event)
    requires !event.Authenticate? && !event.Invalidate?
    ensures Next(cfg, w, event).cache == w.cache && w.now <= Next(cfg, w, event).now
  {
    hide FindActive, CreateIn, RotateIn, SoftDeleteIn;
  }

  lemma {:induction false} RunKeepsOrder(cfg: Config, events: seq<Event>)
    ensures NotNewer(Run(cfg, events))
  {
    if events != [] {
      hide Next, NotNewer;
      RunKeepsOrder(cfg, events[..|events| - 1]);
      NextKeepsOrder(cfg, Run(cfg, events[..|events| - 1]), events[|events| - 1]);
    }
  }

  predicate IsOtherLookup(event: Event, key: string) {
    event.Authenticate? && event.key != key
  }

  /** How many lookups of other keys there are. */
  function OtherLookups(events: seq<Event>, key: string): nat {
    if events == [] then 0
    else
      var last := events[|events| - 1];
      OtherLookups(events[..|events| - 1], key) + if IsOtherLookup(last, key) then 1 else 0
  }

  lemma OtherLookupKeeps(cfg: Config, w: World, other: string, e: Entry, newer: nat)
    requires NotNewer(w) && Kept(w.cache, e, newer) && e.key != other && newer + 1 < cfg.cacheMax
    ensures Kept(Next(cfg, w, Authenticate(other)).cache, e, newer + 1)
  {
    hide AuthenticateIn;
    DropKeyKeeps(w.cache, other, e, newer);
    DropKeyKeepsOrder(w.cache, other);
    hide DropKey;
    var base := if Lookup(w.cache, other).Some? then DropKey(w.cache, other) else w.cache;
    assert InOrder(base) && Kept(base, e, newer);
    var found := StoreAnswer(w, other);
    if found.Some? {
      RememberKeeps(base, cfg.cacheMax, Entry(other, w.now, found.value), e, newer);
    }
    hide Remember;
  }

  lemma OwnLookupKeeps(cfg: Config, w: World, e: Entry, newer: nat)
    requires CacheBounded(cfg, w) && Kept(w.cache, e, newer) && w.now - e.insertedAt < cfg.ttl
    ensures Next(cfg, w, Authenticate(e.key)).cache == w.cache
    ensures Answer(cfg, w, e.key) == Ok(Some(e.record))
  {
    hide AuthenticateIn;
    var p: nat :| p < |w.cache| && w.cache[p] == e && |w.cache| - p - 1 <= newer;
    assert e in w.cache;
    LookupFinds(w.cache, e);
  }

  lemma InvalidateKeeps(cfg: Config, w: World, other: string, e: Entry, newer: nat)
    requires Kept(w.cache, e, newer) && e.key != other
    ensures Kept(Next(cfg, w, Invalidate(other)).cache, e, newer)
  {
    DropKeyKeeps(w.cache, other, e, newer);
  }

  lemma StepKeeps(cfg: Config, w: World, event: Event, e: Entry, newer: nat)
    requires NotNewer(w) && CacheBounded(cfg, w) && Kept(w.cache, e, newer)
    requires event != Invalidate(e.key) && w.now - e.insertedAt < cfg.ttl
    requires IsOtherLookup(event, e.key) ==> newer + 1 < cfg.cacheMax
    ensures Kept(Next(cfg, w, event).cache, e, newer + if IsOtherLookup(event, e.key) then 1 else 0)
  {
    hide Kept, NotNewer, CacheBounded, Next;
    match event
    case Authenticate(key) =>
      if key == e.key {
        OwnLookupKeeps(cfg, w, e, newer);
      } else {
        OtherLookupKeeps(cfg, w, key, e, newer);
      }
    case Invalidate(key) => InvalidateKeeps(cfg, w, key, e, newer);
    case _ => OtherEventsKeepCache(cfg, w, event);
  }

  /** An entry stays as long as its TTL lasts, its key is not invalidated, and fewer than `cacheMax` lookups
      of other keys follow. */
  lemma {:induction false} EntryStays(cfg: Config, before: seq<Event>, after: seq<Event>, e: Entry)
    requires Kept(Run(cfg, before).cache, e, 0)
    requires NeverInvalidated(after, e.key)
    requires OtherLookups(after, e.key) < cfg.cacheMax
    requires Run(cfg, before + after).now - e.insertedAt < cfg.ttl
    ensures Kept(Run(cfg, before + after).cache, e, OtherLookups(after, e.key))
    decreases |after|
  {
    hide Next, Kept, NotNewer, CacheBounded, Run, IsOtherLookup, NeverInvalidated;
    if after == [] {
      assert before + after == before;
    } else {
      var front, last := after[..|after| - 1], after[|after| - 1];
      var w := Run(cfg, before + front);
      RunOneMore(cfg, before, after);
      NeverInvalidatedFront(after, e.key);
      StepElapses(cfg, w, last);
      EntryStays(cfg, before, front, e);
      RunKeepsOrder(cfg, before + front);
      RunBounded(cfg, before + front);
      StepKeeps(cfg, w, last, e, OtherLookups(front, e.key));
    }
  }

  ghost predicate NeverInvalidated(events: seq<Event>, key: string) {
    forall event | event in events :: event != Invalidate(key)
  }

  lemma NeverInvalidatedFront(events: seq<Event>, key: string)
    requires NeverInvalidated(events, key) && events != []
    ensures NeverInvalidated(events[..|events| - 1], key) && events[|events| - 1] != Invalidate(key)
  {
    var front := events[..|events| - 1];
    assert events == front + [events[|events| - 1]];
    assert forall event | event in front :: event in events;
    assert events[|events| - 1] in events;
  }

  lemma RunOneMore(cfg: Config, before: seq<Event>, after: seq<Event>)
    requires after != []
    ensures Run(cfg, before + after) == Next(cfg, Run(cfg, before + after[..|after| - 1]), after[|after| - 1])
  {
    hide Next;
    var all := before + after;
    assert all[..|all| - 1] == before + after[..|after| - 1] && all[|all| - 1] == after[|after| - 1];
  }

  /** The time that passes during a run: only ticks take any. */
  function Elapsed(events: seq<Event>): nat {
    if events == [] then 0
    else
      var last := events[|events| - 1];
      Elapsed(events[..|events| - 1]) + if last.Tick? then last.duration else 0
  }

  lemma StepElapses(cfg: Config, w: World, event: Event)
    ensures Next(cfg, w, event).now == w.now + if event.Tick? then event.duration else 0
  {
    hide FindActive, CreateIn, RotateIn, SoftDeleteIn, AuthStep, DropKey;
  }

  lemma {:induction false} ClockIsElapsed(cfg: Config, before: seq<Event>, after: seq<Event>)
    ensures Run(cfg, before + after).now == Run(cfg, before).now + Elapsed(after)
    decreases |after|
  {
    hide Next, Run;
    if after == [] {
      assert before + after == before;
    } else {
      RunOneMore(cfg, before, after);
      ClockIsElapsed(cfg, before, after[..|after| - 1]);
      StepElapses(cfg, Run(cfg, before + after[..|after| - 1]), after[|after| - 1]);
    }
  }

  /** The lookup asks the store: there is no fresh entry. */
  ghost predicate Misses(cfg: Config, w: World, key: string) {
    var hit := Lookup(w.cache, key);
    hit.None? || w.now - hit.value.insertedAt >= cfg.ttl
  }

  lemma MissRemembers(cfg: Config, w: World, key: string, record: TenantRecord)
    requires CacheBounded(cfg, w) && cfg.cacheMax >= 1 && Misses(cfg, w, key) && StoreAnswer(w, key) == Some(record)
    ensures var w' := Next(cfg, w, Authenticate(key));
            Kept(w'.cache, Entry(key, w.now, record), 0) && w'.now == w.now
    ensures Answer(cfg, w, key) == Ok(Some(record))
  {
    hide AuthenticateIn, DistinctKeys;
    AuthRaisesIff(w.cache, cfg.ttl, cfg.cacheMax, key, w.now, StoreAnswer(w, key));
    hide DropKey, Oldest;
    var w' := Next(cfg, w, Authenticate(key));
    assert w'.cache[|w'.cache| - 1] == Entry(key, w.now, record);
  }

  /** Main result.  The store answered a lookup with `record`, and the answer was remembered.  For a TTL from
      then on the answer is that record again, without the store, whatever rotations and archivings come in
      between, unless the key is invalidated or `cacheMax` lookups of other keys push it out. */
  lemma RememberedAnswerIsServed(cfg: Config, before: seq<Event>, key: string, after: seq<Event>, record: TenantRecord)
    requires cfg.cacheMax >= 1
    requires Misses(cfg, Run(cfg, before), key) && StoreAnswer(Run(cfg, before), key) == Some(record)
    requires NeverInvalidated(after, key)
    requires OtherLookups(after, key) < cfg.cacheMax
    requires Elapsed(after) < cfg.ttl
    ensures Answer(cfg, Run(cfg, before + [Authenticate(key)] + after), key) == Ok(Some(record))
  {
    hide Next, Kept, CacheBounded, Misses, Answer, StoreAnswer, NeverInvalidated, Elapsed, OtherLookups;
    var looked := before + [Authenticate(key)];
    var e := Entry(key, Run(cfg, before).now, record);
    assert looked[..|looked| - 1] == before;
    RunBounded(cfg, before);
    MissRemembers(cfg, Run(cfg, before), key, record);
    ClockIsElapsed(cfg, looked, after);
    EntryStays(cfg, looked, after, e);
    RunBounded(cfg, looked + after);
    OwnLookupKeeps(cfg, Run(cfg, looked + after), e, OtherLookups(after, key));
  }

  /** Invalidating a key makes the next lookup ask the store. */
  lemma InvalidatedKeyIsAsked(cfg: Config, events: seq<Event>, key: string)
    requires cfg.cacheMax >= 1
    ensures var w := Run(cfg, events + [Invalidate(key)]);
            Answer(cfg, w, key) == Ok(StoreAnswer(w, key))
  {
    var all := events + [Invalidate(key)];
    assert all[..|all| - 1] == events;
    var w, v := Run(cfg, all), Run(cfg, events);
    RunBounded(cfg, all);
    DropKeyDrops(v.cache, key);
    hide Run, AuthenticateIn, Remember, DistinctKeys;
    assert w.cache == DropKey(v.cache, key);
    assert Lookup(w.cache, key) == None;
    AuthRaisesIff(w.cache, cfg.ttl, cfg.cacheMax, key, w.now, StoreAnswer(w, key));
  }
}
