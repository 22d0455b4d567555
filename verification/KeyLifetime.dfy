/** Whole runs of the gateway's authentication: tenants are created, keys rotated, tenants archived,
    keys looked up through the cache, while one clock advances. */
module KeyLifetime {
  import opened Wrappers
  import opened TenantStore
  import opened KeyLifecycle
  import opened Authenticator

  datatype Config = Config(gracePeriod: int, ttl: int, cacheMax: int)

  datatype World = World(db: Db, lives: Lives, now: int, cache: Cache)

  datatype Event =
    | CreateTenant(id: string, displayName: string, allowedModels: seq<string>,
                   rateLimits: map<string, string>, newKey: string)
    | RotateKey(id: string, newKey: string)
    | SoftDelete(id: string)
    | Tick(duration: nat)
    | Authenticate(key: string)
    | Invalidate(key: string)

  const INIT := World(Db([], []), Lives(map[], {}), 0, [])

  /** What the store answers at this moment. */
  function StoreAnswer(w: World, key: string): Option<TenantRecord> {
    AuthenticateIn(w.db, key, w.now)
  }

  /** What the authenticator answers at this moment. */
  function Answer(cfg: Config, w: World, key: string): Result<Option<TenantRecord>, CacheError> {
    AuthStep(w.cache, cfg.ttl, cfg.cacheMax, key, w.now, StoreAnswer(w, key)).1
  }

  /** Generated keys are fresh: an event that would reuse an issued key does not happen. */
  function Next(cfg: Config, w: World, event: Event): World {
    match event
    case CreateTenant(id, displayName, allowedModels, rateLimits, newKey) =>
      var row := NewRow(id, displayName, allowedModels, rateLimits, newKey, w.now);
      if newKey in w.lives.keys || CreateIn(w.db, row).Err? then w
      else w.(db := CreateIn(w.db, row).value, lives := Issue(w.lives, id, newKey))
    case RotateKey(id, newKey) =>
      var i := FindActive(w.db, id);
      if newKey in w.lives.keys || i.None? then w
      else
        var oldKey := w.db.tenants[i.value].keyHash.key;
        w.(db := RotateIn(w.db, id, newKey, cfg.gracePeriod, w.now).value,
           lives := Rotate(w.lives, id, oldKey, newKey, w.now + cfg.gracePeriod))
    case SoftDelete(id) =>
      if FindActive(w.db, id).None? then w
      else w.(db := SoftDeleteIn(w.db, id, w.now).value, lives := w.lives.(archived := w.lives.archived + {id}))
    case Tick(duration) => w.(now := w.now + duration)
    case Authenticate(key) =>
      w.(cache := AuthStep(w.cache, cfg.ttl, cfg.cacheMax, key, w.now, StoreAnswer(w, key)).0)
    case Invalidate(key) => w.(cache := DropKey(w.cache, key))
  }

  function Run(cfg: Config, events: seq<Event>): World {
    if events == [] then INIT
    else Next(cfg, Run(cfg, events[..|events| - 1]), events[|events| - 1])
  }

  // --- The store over runs -------------------------------------------

  lemma NextRepresents(cfg: Config, w: World, event: Event)
    requires Represents(w.db, w.lives)
    ensures Represents(Next(cfg, w, event).db, Next(cfg, w, event).lives)
  {
    hide Represents, Rotate, Issue, RotateIn, SoftDeleteIn, FindActive, CreateIn;
    match event
    case CreateTenant(id, displayName, allowedModels, rateLimits, newKey) =>
      var row := NewRow(id, displayName, allowedModels, rateLimits, newKey, w.now);
      if newKey !in w.lives.keys && CreateIn(w.db, row).Ok? {
        CreateRepresents(w.db, w.lives, row);
      }
    case RotateKey(id, newKey) =>
      if newKey !in w.lives.keys && FindActive(w.db, id).Some? {
        RotateRepresents(w.db, w.lives, id, newKey, cfg.gracePeriod, w.now);
      }
    case SoftDelete(id) =>
      if FindActive(w.db, id).Some? {
        SoftDeleteRepresents(w.db, w.lives, id, w.now);
      }
    case _ =>
  }

  lemma {:induction false} RunRepresents(cfg: Config, events: seq<Event>)
    ensures Represents(Run(cfg, events).db, Run(cfg, events).lives)
  {
    if events != [] {
      hide Represents, Next;
      RunRepresents(cfg, events[..|events| - 1]);
      NextRepresents(cfg, Run(cfg, events[..|events| - 1]), events[|events| - 1]);
    }
  }

  /** Over every run with fresh keys the store answers by the key's life: the unarchived tenant whose
      current key it is, or the tenant it was rotated out of while its expiry has not passed. */
  lemma StoreAnswersByLife(cfg: Config, events: seq<Event>, key: string)
    ensures var w := Run(cfg, events);
            var answer := StoreAnswer(w, key);
            && Holder(w.lives, key, w.now) == (if answer.Some? then Some(answer.value.id) else None)
            && (answer.Some? ==> GetIn(w.db, answer.value.id) == answer)
  {
    RunRepresents(cfg, events);
    hide Represents, Run;
    AuthenticateMatchesLife(Run(cfg, events).db, Run(cfg, events).lives, key, Run(cfg, events).now);
  }

  // --- What never changes about a key --------------------------------

  /** From one moment to a later one: keys keep their tenant; a rotated-out key keeps its expiry; a key
      rotated out in between expires no earlier than a grace period after the first moment. */
  ghost predicate Later(cfg: Config, w: World, w': World) {
    && w.now <= w'.now
    && (forall k | k in w.lives.keys ::
          && k in w'.lives.keys
          && w'.lives.keys[k].tenant == w.lives.keys[k].tenant
          && (w.lives.keys[k].RotatedOut? ==> w'.lives.keys[k] == w.lives.keys[k])
          && (w.lives.keys[k].Current? && w'.lives.keys[k].RotatedOut? ==>
                w.now + cfg.gracePeriod <= w'.lives.keys[k].expiry))
  }

  lemma RotateKeepsOthers(w: World, id: string, newKey: string)
    requires Represents(w.db, w.lives) && FindActive(w.db, id).Some?
    ensures var oldKey := w.db.tenants[FindActive(w.db, id).value].keyHash.key;
            oldKey in w.lives.keys && w.lives.keys[oldKey] == Current(id)
  {
    hide Find, UniqueIds, CurrentKeysHaveRows, TenantsKnown, GraceLives;
    RowLivesAt(w.db.tenants, w.lives, FindActive(w.db, id).value);
  }

  lemma RotatedIs(lives: Lives, id: string, oldKey: string, newKey: string, expiry: int)
    requires newKey !in lives.keys && oldKey in lives.keys && lives.keys[oldKey] == Current(id)
    ensures var keys := Rotate(lives, id, oldKey, newKey, expiry).keys;
            && keys.Keys == lives.keys.Keys + {newKey}
            && (forall k | k in lives.keys :: keys[k] == if k == oldKey then RotatedOut(id, expiry) else lives.keys[k])
  {
  }

  lemma RotateLater(cfg: Config, w: World, id: string, newKey: string)
    requires Represents(w.db, w.lives)
    ensures Later(cfg, w, Next(cfg, w, RotateKey(id, newKey)))
  {
    hide Represents, FindActive, RotateIn, Rotate;
    var w' := Next(cfg, w, RotateKey(id, newKey));
    if newKey !in w.lives.keys && FindActive(w.db, id).Some? {
      RotateKeepsOthers(w, id, newKey);
      var oldKey := w.db.tenants[FindActive(w.db, id).value].keyHash.key;
      assert w'.lives == Rotate(w.lives, id, oldKey, newKey, w.now + cfg.gracePeriod) && w'.now == w.now;
      hide Next;
      RotatedIs(w.lives, id, oldKey, newKey, w.now + cfg.gracePeriod);
    } else {
      assert w' == w;
    }
  }

  lemma CreateLater(cfg: Config, w: World, event: Event)
    requires event.CreateTenant?
    ensures Later(cfg, w, Next(cfg, w, event))
  {
    hide CreateIn;
    var w' := Next(cfg, w, event);
    assert w'.now == w.now;
    assert w'.lives == w.lives || (event.newKey !in w.lives.keys && w'.lives == Issue(w.lives, event.id, event.newKey));
    hide Next;
  }

  lemma OtherEventsKeepKeys(cfg: Config, w: World, event: Event)
    requires !event.RotateKey? && !event.CreateTenant?
    ensures var w' := Next(cfg, w, event); w'.lives.keys == w.lives.keys && w.now <= w'.now
  {
    hide FindActive, SoftDeleteIn, AuthStep, DropKey;
  }

  lemma NextLater(cfg: Config, w: World, event: Event)
    requires Represents(w.db, w.lives)
    ensures Later(cfg, w, Next(cfg, w, event))
  {
    if event.RotateKey? {
      RotateLater(cfg, w, event.id, event.newKey);
    } else if event.CreateTenant? {
      CreateLater(cfg, w, event);
    } else {
      OtherEventsKeepKeys(cfg, w, event);
      hide Next, Represents;
    }
  }

  lemma LaterTransitive(cfg: Config, w: World, w': World, w'': World)
    requires Later(cfg, w, w') && Later(cfg, w', w'')
    ensures Later(cfg, w, w'')
  {
  }

  lemma {:induction false} RunLater(cfg: Config, events: seq<Event>, i: nat)
    requires i <= |events|
    ensures Later(cfg, Run(cfg, events[..i]), Run(cfg, events))
    decreases |events|
  {
    if i == |events| {
      assert events[..i] == events;
    } else {
      hide Represents, Next, Later;
      var front := events[..|events| - 1];
      assert front[..i] == events[..i];
      RunLater(cfg, front, i);
      RunRepresents(cfg, front);
      NextLater(cfg, Run(cfg, front), events[|events| - 1]);
      LaterTransitive(cfg, Run(cfg, events[..i]), Run(cfg, front), Run(cfg, events));
    }
  }

  /** A key never resolves to a tenant other than the one it was issued to, in the store or
      through the cache. */
  lemma KeyKeepsItsTenant(cfg: Config, events: seq<Event>, i: nat, key: string)
    requires i <= |events| && key in Run(cfg, events[..i]).lives.keys
    ensures var (issued, w) := (Run(cfg, events[..i]).lives.keys[key].tenant, Run(cfg, events));
            && (StoreAnswer(w, key).Some? ==> StoreAnswer(w, key).value.id == issued)
            && (Answer(cfg, w, key).Ok? && Answer(cfg, w, key).value.Some? ==>
                  Answer(cfg, w, key).value.value.id == issued)
  {
    RunLater(cfg, events, i);
    StoreAnswersByLife(cfg, events, key);
    BoundedStaleness(cfg, events, key);
    hide Run, AuthStep;
    if Answer(cfg, Run(cfg, events), key).Ok? && Answer(cfg, Run(cfg, events), key).value.Some? {
      var record := Answer(cfg, Run(cfg, events), key).value.value;
      var j :| 0 <= j <= |events| && StoreAnswer(Run(cfg, events[..j]), key) == Some(record);
      StoreAnswersByLife(cfg, events[..j], key);
      RunLater(cfg, events, j);
    }
  }

  // --- The cache over runs -------------------------------------------

  ghost predicate AnsweredAt(cfg: Config, events: seq<Event>, i: int, e: Entry) {
    && 0 <= i <= |events|
    && Run(cfg, events[..i]).now == e.insertedAt
    && StoreAnswer(Run(cfg, events[..i]), e.key) == Some(e.record)
  }

  /** Every cached entry is an answer the store gave for that key at its insertion time. */
  ghost predicate CacheSound(cfg: Config, events: seq<Event>) {
    forall e | e in Run(cfg, events).cache :: exists i :: AnsweredAt(cfg, events, i, e)
  }

  ghost predicate CacheBounded(cfg: Config, w: World) {
    DistinctKeys(w.cache) && |w.cache| <= if cfg.cacheMax < 0 then 0 else cfg.cacheMax
  }

  lemma NextBounded(cfg: Config, w: World, event: Event)
    requires CacheBounded(cfg, w)
    ensures CacheBounded(cfg, Next(cfg, w, event))
  {
    hide CreateIn, RotateIn, SoftDeleteIn, FindActive, AuthStep, DropKey, AuthenticateIn;
    if event.Authenticate? {
      AuthStepKeepsCache(w.cache, cfg.ttl, cfg.cacheMax, event.key, w.now, StoreAnswer(w, event.key));
    } else if event.Invalidate? {
      DropKeyDrops(w.cache, event.key);
    }
  }

  /** The cache never holds more than its maximum, nor two entries of one key. */
  lemma {:induction false} RunBounded(cfg: Config, events: seq<Event>)
    ensures CacheBounded(cfg, Run(cfg, events))
  {
    if events != [] {
      hide Next, CacheBounded;
      RunBounded(cfg, events[..|events| - 1]);
      NextBounded(cfg, Run(cfg, events[..|events| - 1]), events[|events| - 1]);
    }
  }

  lemma NewEntries(cfg: Config, w: World, event: Event, e: Entry)
    requires CacheBounded(cfg, w) && e in Next(cfg, w, event).cache && e !in w.cache
    ensures event == Authenticate(e.key) && e.insertedAt == w.now && StoreAnswer(w, e.key) == Some(e.record)
  {
    hide CreateIn, RotateIn, SoftDeleteIn, FindActive, AuthStep, DropKey, AuthenticateIn, DistinctKeys;
    if event.Authenticate? {
      AuthStepKeepsCache(w.cache, cfg.ttl, cfg.cacheMax, event.key, w.now, StoreAnswer(w, event.key));
    } else if event.Invalidate? {
      DropKeyDrops(w.cache, event.key);
    }
  }

  lemma {:induction false} RunSound(cfg: Config, events: seq<Event>)
    ensures CacheSound(cfg, events)
  {
    if events != [] {
      hide Next, CacheBounded, AuthenticateIn;
      var n := |events| - 1;
      var front := events[..n];
      RunSound(cfg, front);
      RunBounded(cfg, front);
      forall e | e in Run(cfg, events).cache
        ensures exists i :: AnsweredAt(cfg, events, i, e)
      {
        if e in Run(cfg, front).cache {
          var i :| AnsweredAt(cfg, front, i, e);
          assert front[..i] == events[..i];
          assert AnsweredAt(cfg, events, i, e);
        } else {
          NewEntries(cfg, Run(cfg, front), events[n], e);
          assert AnsweredAt(cfg, events, n, e);
        }
      }
    }
  }

  /** Bounded staleness: a positive answer is one the store gave for that key less than a TTL ago, or
      now; a negative answer is the store's answer now; only a cache of no size raises. */
  lemma BoundedStaleness(cfg: Config, events: seq<Event>, key: string)
    ensures var (w, answer) := (Run(cfg, events), Answer(cfg, Run(cfg, events), key));
            match answer
            case Err(_) => cfg.cacheMax <= 0 && StoreAnswer(w, key).Some?
            case Ok(None) => StoreAnswer(w, key) == None
            case Ok(Some(record)) =>
              exists i | 0 <= i <= |events| ::
                var w' := Run(cfg, events[..i]);
                StoreAnswer(w', key) == Some(record) && (w.now - w'.now < cfg.ttl || w'.now == w.now)
  {
    RunSound(cfg, events);
    RunBounded(cfg, events);
    hide Run, Remember, DropKey, AuthenticateIn, DistinctKeys;
    var w := Run(cfg, events);
    AuthRaisesIff(w.cache, cfg.ttl, cfg.cacheMax, key, w.now, StoreAnswer(w, key));
    var hit := Lookup(w.cache, key);
    if hit.Some? && w.now - hit.value.insertedAt < cfg.ttl {
      var i :| AnsweredAt(cfg, events, i, hit.value);
      assert StoreAnswer(Run(cfg, events[..i]), key) == Some(hit.value.record);
    } else {
      assert events[..|events|] == events;
    }
  }

  // --- The composed lifetime of a rotated key ------------------------

  /** A rotated-out key is accepted until its expiry and rejected from a TTL after it. */
  lemma RotatedOutKey(cfg: Config, events: seq<Event>, key: string)
    requires key in Run(cfg, events).lives.keys && Run(cfg, events).lives.keys[key].RotatedOut?
    requires cfg.gracePeriod >= 0 && cfg.cacheMax >= 1
    ensures var w := Run(cfg, events);
            var (state, answer) := (w.lives.keys[key], Answer(cfg, w, key));
            && answer.Ok?
            && (w.now <= state.expiry ==> answer.value.Some? && answer.value.value.id == state.tenant)
            && (w.now > state.expiry && w.now >= state.expiry + cfg.ttl ==> answer.value == None)
  {
    var w := Run(cfg, events);
    var answer := Answer(cfg, w, key);
    StoreAnswersByLife(cfg, events, key);
    BoundedStaleness(cfg, events, key);
    assert events[..|events|] == events;
    KeyKeepsItsTenant(cfg, events, |events|, key);
    hide Run, AuthStep;
    if answer.value.Some? {
      var record := answer.value.value;
      var i :| 0 <= i <= |events| && StoreAnswer(Run(cfg, events[..i]), key) == Some(record)
               && (w.now - Run(cfg, events[..i]).now < cfg.ttl || Run(cfg, events[..i]).now == w.now);
      StoreAnswersByLife(cfg, events[..i], key);
      RunLater(cfg, events, i);
      assert Run(cfg, events[..i]).now <= w.lives.keys[key].expiry;
    }
  }

  /** Main result: a key rotated out at time r with grace g is accepted at every time up to r + g and
      rejected from r + g + ttl on (past r + g), whatever happens in between: lookups, evictions,
      other rotations, or the archiving of its tenant. */
  lemma ComposedLifetime(cfg: Config, before: seq<Event>, id: string, newKey: string, after: seq<Event>, key: string)
    requires cfg.gracePeriod >= 0 && cfg.cacheMax >= 1
    requires var w := Run(cfg, before);
             && key in w.lives.keys && w.lives.keys[key] == Current(id)
             && newKey !in w.lives.keys && FindActive(w.db, id).Some?
    ensures var r := Run(cfg, before).now;
            var w := Run(cfg, before + [RotateKey(id, newKey)] + after);
            var answer := Answer(cfg, w, key);
            && answer.Ok?
            && (w.now <= r + cfg.gracePeriod ==> answer.value.Some? && answer.value.value.id == id)
            && (w.now > r + cfg.gracePeriod && w.now >= r + cfg.gracePeriod + cfg.ttl ==> answer.value == None)
  {
    var rotated := before + [RotateKey(id, newKey)];
    var all := rotated + after;
    assert rotated[..|before|] == before && all[..|rotated|] == rotated;
    RunRepresents(cfg, before);
    OneCurrentKey(Run(cfg, before), id, key);
    assert Run(cfg, rotated).lives.keys[key] == RotatedOut(id, Run(cfg, before).now + cfg.gracePeriod);
    RunLater(cfg, all, |rotated|);
    RotatedOutKey(cfg, all, key);
  }

  /** A tenant's current key is the one in its row. */
  lemma OneCurrentKey(w: World, id: string, key: string)
    requires Represents(w.db, w.lives) && FindActive(w.db, id).Some?
    requires key in w.lives.keys && w.lives.keys[key] == Current(id)
    ensures w.db.tenants[FindActive(w.db, id).value].keyHash.key == key
  {
    assert HasRow(w.db.tenants, key);
    var i :| 0 <= i < |w.db.tenants| && w.db.tenants[i].keyHash.key == key;
    assert RowLives(w.db.tenants[i], w.lives);
    FindUnique(w.db.tenants, i);
  }

  // --- Archived tenants ----------------------------------------------

  /** An archived tenant still authenticates by exactly its rotated-out keys that have not expired. */
  lemma ArchivedTenantAuthenticatesIff(cfg: Config, events: seq<Event>, tenant: string, key: string)
    requires tenant in Run(cfg, events).lives.archived
    ensures var w := Run(cfg, events);
            var answer := StoreAnswer(w, key);
            (answer.Some? && answer.value.id == tenant) <==>
            (key in w.lives.keys && w.lives.keys[key].RotatedOut?
             && w.lives.keys[key].tenant == tenant && w.now <= w.lives.keys[key].expiry)
  {
    StoreAnswersByLife(cfg, events, key);
  }

  lemma ActiveIsNotArchived(w: World, id: string)
    requires Represents(w.db, w.lives) && FindActive(w.db, id).Some?
    ensures id !in w.lives.archived
  {
    hide Find, UniqueIds, CurrentKeysHaveRows, TenantsKnown, GraceLives;
    assert RowLives(w.db.tenants[FindActive(w.db, id).value], w.lives);
  }

  ghost predicate ArchivedWith(w: World, id: string, key: string) {
    id in w.lives.archived && key in w.lives.keys && w.lives.keys[key] == Current(id)
  }

  lemma RotateKeepsArchived(cfg: Config, w: World, id: string, key: string, other: string, newKey: string)
    requires Represents(w.db, w.lives) && ArchivedWith(w, id, key)
    ensures ArchivedWith(Next(cfg, w, RotateKey(other, newKey)), id, key)
  {
    hide Represents, FindActive, RotateIn, Rotate;
    if newKey !in w.lives.keys && FindActive(w.db, other).Some? {
      ActiveIsNotArchived(w, other);
      RotateKeepsOthers(w, other, newKey);
      var oldKey := w.db.tenants[FindActive(w.db, other).value].keyHash.key;
      RotatedIs(w.lives, other, oldKey, newKey, w.now + cfg.gracePeriod);
      assert Next(cfg, w, RotateKey(other, newKey)).lives == Rotate(w.lives, other, oldKey, newKey, w.now + cfg.gracePeriod);
      assert Rotate(w.lives, other, oldKey, newKey, w.now + cfg.gracePeriod).archived == w.lives.archived by {
        RotateArchivesNothing(w.lives, other, oldKey, newKey, w.now + cfg.gracePeriod);
      }
    }
  }

  lemma RotateArchivesNothing(lives: Lives, tenant: string, oldKey: string, newKey: string, expiry: int)
    ensures Rotate(lives, tenant, oldKey, newKey, expiry).archived == lives.archived
  {
  }

  lemma NextKeepsArchived(cfg: Config, w: World, event: Event, id: string, key: string)
    requires Represents(w.db, w.lives) && ArchivedWith(w, id, key)
    ensures ArchivedWith(Next(cfg, w, event), id, key)
  {
    if event.RotateKey? {
      RotateKeepsArchived(cfg, w, id, key, event.id, event.newKey);
    } else {
      hide Represents, FindActive, RotateIn, SoftDeleteIn, CreateIn, AuthStep, DropKey;
    }
  }

  lemma {:induction false} RunKeepsArchived(cfg: Config, events: seq<Event>, i: nat, id: string, key: string)
    requires i <= |events| && ArchivedWith(Run(cfg, events[..i]), id, key)
    ensures ArchivedWith(Run(cfg, events), id, key)
    decreases |events|
  {
    if i == |events| {
      assert events[..i] == events;
    } else {
      hide Represents, Next, ArchivedWith;
      var front := events[..|events| - 1];
      assert front[..i] == events[..i];
      RunKeepsArchived(cfg, front, i, id, key);
      RunRepresents(cfg, front);
      NextKeepsArchived(cfg, Run(cfg, front), events[|events| - 1], id, key);
    }
  }

  lemma SoftDeleteArchives(cfg: Config, before: seq<Event>, id: string, key: string)
    requires var w := Run(cfg, before);
             key in w.lives.keys && w.lives.keys[key] == Current(id) && FindActive(w.db, id).Some?
    ensures ArchivedWith(Run(cfg, before + [SoftDelete(id)]), id, key)
  {
    hide FindActive, SoftDeleteIn;
    var events := before + [SoftDelete(id)];
    assert events[..|events| - 1] == before;
  }

  /** The store answers nothing for an archived tenant's current key. */
  lemma ArchivedKeyHasNoAnswer(cfg: Config, events: seq<Event>, id: string, key: string)
    requires ArchivedWith(Run(cfg, events), id, key)
    ensures StoreAnswer(Run(cfg, events), key) == None
  {
    StoreAnswersByLife(cfg, events, key);
  }

  lemma AnsweredBeforeArchiving(cfg: Config, before: seq<Event>, id: string, after: seq<Event>, key: string, i: nat)
    requires var w := Run(cfg, before);
             key in w.lives.keys && w.lives.keys[key] == Current(id) && FindActive(w.db, id).Some?
    requires var all := before + [SoftDelete(id)] + after;
             i <= |all| && StoreAnswer(Run(cfg, all[..i]), key).Some?
    ensures Run(cfg, (before + [SoftDelete(id)] + after)[..i]).now <= Run(cfg, before).now
  {
    var archived := before + [SoftDelete(id)];
    var all := archived + after;
    SoftDeleteArchives(cfg, before, id, key);
    hide Run, ArchivedWith, StoreAnswer, FindActive;
    if i <= |before| {
      assert before[..i] == all[..i];
      RunLater(cfg, before, i);
    } else {
      assert all[..i][..|archived|] == archived;
      RunKeepsArchived(cfg, all[..i], |archived|, id, key);
      ArchivedKeyHasNoAnswer(cfg, all[..i], id, key);
    }
  }

  /** Archiving a tenant at time r stops its current key through the cache from r + ttl on (past r),
      whatever happens in between. */
  lemma ArchivedKeyStops(cfg: Config, before: seq<Event>, id: string, after: seq<Event>, key: string)
    requires cfg.cacheMax >= 1
    requires var w := Run(cfg, before);
             key in w.lives.keys && w.lives.keys[key] == Current(id) && FindActive(w.db, id).Some?
    ensures var (r, w) := (Run(cfg, before).now, Run(cfg, before + [SoftDelete(id)] + after));
            w.now > r && w.now >= r + cfg.ttl ==> Answer(cfg, w, key) == Ok(None)
  {
    var all := before + [SoftDelete(id)] + after;
    BoundedStaleness(cfg, all, key);
    hide Run, AuthStep, FindActive;
    forall i | 0 <= i <= |all| && StoreAnswer(Run(cfg, all[..i]), key).Some?
      ensures Run(cfg, all[..i]).now <= Run(cfg, before).now
    {
      AnsweredBeforeArchiving(cfg, before, id, after, key, i);
    }
  }

  /** So soft-deleted tenants do authenticate: rotate a key, archive the tenant, use the old key. */
  lemma ArchivedTenantAuthenticates(cfg: Config)
    requires cfg.gracePeriod >= 0
    ensures exists events ::
              var w := Run(cfg, events);
              "t" in w.lives.archived && StoreAnswer(w, "k0").Some? && StoreAnswer(w, "k0").value.id == "t"
  {
    var create := CreateTenant("t", "T", ["*"], map[], "k0");
    var e1 := [create];
    var e2 := e1 + [RotateKey("t", "k1")];
    var e3 := e2 + [SoftDelete("t")];
    assert e1[..0] == [] && e2[..1] == e1 && e3[..2] == e2;
    assert Run(cfg, []) == INIT;
    var w1 := Run(cfg, e1);
    assert w1 == Next(cfg, INIT, create);
    assert w1.db.tenants == [NewRow("t", "T", ["*"], map[], "k0", 0)];
    assert FindActive(w1.db, "t") == Some(0);
    var w2 := Run(cfg, e2);
    assert w2 == Next(cfg, w1, RotateKey("t", "k1"));
    assert w2.lives.keys["k0"] == RotatedOut("t", 0 + cfg.gracePeriod);
    assert w2.db.tenants[0].record.id == "t" && Active(w2.db.tenants[0]) && |w2.db.tenants| == 1;
    assert FindActive(w2.db, "t") == Some(0);
    var w3 := Run(cfg, e3);
    assert w3 == Next(cfg, w2, SoftDelete("t"));
    ArchivedTenantAuthenticatesIff(cfg, e3, "t", "k0");
  }
}
