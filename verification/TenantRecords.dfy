/** What an authenticated record says: the tenant as it was created, through rotations and archiving; and
    which operations on a tenant fail. */
module TenantRecords {
  import opened Wrappers
  import opened TenantStore
  import opened KeyLifecycle
  import opened Authenticator
  import opened KeyLifetime

  /** The record has what the tenant was created with. */
  ghost predicate IsOf(record: TenantRecord, create: Event)
    requires create.CreateTenant?
  {
    && record.id == create.id && record.displayName == create.displayName
    && record.allowedModels == create.allowedModels && record.rateLimits == create.rateLimits
  }

  /** The store has the tenant of the event, as it was created at time `createdAt`. */
  ghost predicate Has(db: Db, create: Event, createdAt: int)
    requires create.CreateTenant?
  {
    var record := GetIn(db, create.id);
    record.Some? && IsOf(record.value, create) && record.value.createdAt == createdAt
  }

  // --- Single operations ---------------------------------------------

  lemma {:induction false} FindAppended(tenants: seq<TenantRow>, row: TenantRow, id: string)
    ensures Find(tenants + [row], id) ==
            if row.record.id == id then Some(|tenants|) else Find(tenants, id)
  {
    assert (tenants + [row])[..|tenants|] == tenants;
  }

  lemma {:induction false} FindUpdated(tenants: seq<TenantRow>, i: nat, row: TenantRow, id: string)
    requires i < |tenants| && row.record.id == tenants[i].record.id
    ensures Find(tenants[i := row], id) == Find(tenants, id)
  {
    if tenants != [] {
      var n := |tenants| - 1;
      if i == n {
        assert tenants[i := row][..n] == tenants[..n];
      } else {
        assert tenants[i := row][..n] == tenants[..n][i := row];
        FindUpdated(tenants[..n], i, row, id);
      }
    }
  }

  /** A created tenant has what it was given, the time of its creation twice, and no archiving. */
  lemma CreatedRecord(db: Db, create: Event, now: int)
    requires create.CreateTenant? && GetIn(db, create.id) == None
    ensures var row := NewRow(create.id, create.displayName, create.allowedModels, create.rateLimits, create.newKey, now);
            && CreateIn(db, row).Ok? && Has(CreateIn(db, row).value, create, now)
            && GetIn(CreateIn(db, row).value, create.id).value.updatedAt == now
            && GetIn(CreateIn(db, row).value, create.id).value.deletedAt == None
  {
    var row := NewRow(create.id, create.displayName, create.allowedModels, create.rateLimits, create.newKey, now);
    FindAppended(db.tenants, row, create.id);
  }

  /** A rotation stamps its time and changes nothing else in the record. */
  lemma RotatedRecord(db: Db, id: string, newKey: string, grace: int, now: int)
    requires RotateIn(db, id, newKey, grace, now).Ok?
    ensures GetIn(db, id).Some?
    ensures GetIn(RotateIn(db, id, newKey, grace, now).value, id) == Some(GetIn(db, id).value.(updatedAt := now))
    ensures forall other | other != id :: GetIn(RotateIn(db, id, newKey, grace, now).value, other) == GetIn(db, other)
  {
    var i := FindActive(db, id).value;
    var row := TenantRow(db.tenants[i].record.(updatedAt := now), Argon2(newKey));
    forall other
      ensures Find(db.tenants[i := row], other) == Find(db.tenants, other)
    {
      FindUpdated(db.tenants, i, row, other);
    }
  }

  /** The grace table's primary key: at most one row for a tenant's old hash. */
  ghost predicate OneRowEach(grace: seq<GraceRow>) {
    forall i, j | 0 <= i < j < |grace| :: !(grace[i].tenant == grace[j].tenant && grace[i].oldHash == grace[j].oldHash)
  }

  lemma {:induction false} WithoutKeepsOneEach(grace: seq<GraceRow>, tenant: string, oldHash: Hash)
    requires OneRowEach(grace)
    ensures OneRowEach(Without(grace, tenant, oldHash))
  {
    if grace != [] {
      var rest := Without(grace[1..], tenant, oldHash);
      assert OneRowEach(grace[1..]) by {
        assert forall i | 0 <= i < |grace| - 1 :: grace[1..][i] == grace[i + 1];
      }
      WithoutKeepsOneEach(grace[1..], tenant, oldHash);
      forall j | 0 <= j < |rest|
        ensures !(grace[0].tenant == rest[j].tenant && grace[0].oldHash == rest[j].oldHash)
      {
        WithoutKeeps(grace[1..], tenant, oldHash, rest[j]);
        var i :| 0 <= i < |grace| - 1 && grace[1..][i] == rest[j];
        assert grace[i + 1] == rest[j];
      }
    }
  }

  /** A rotation leaves one grace row for the outgoing hash, which lasts the grace period from now on even if
      there was one before, and no other grace row comes or goes. */
  lemma RotatedGraceRows(db: Db, id: string, newKey: string, grace: int, now: int)
    requires RotateIn(db, id, newKey, grace, now).Ok? && OneRowEach(db.grace)
    ensures var (outgoing, rows) := (db.tenants[FindActive(db, id).value].keyHash, RotateIn(db, id, newKey, grace, now).value.grace);
            && OneRowEach(rows)
            && (forall g :: g in rows <==>
                  g == GraceRow(id, outgoing, now + grace) || (g in db.grace && !(g.tenant == id && g.oldHash == outgoing)))
  {
    var oldHash := db.tenants[FindActive(db, id).value].keyHash;
    WithoutKeepsOneEach(db.grace, id, oldHash);
    forall g
      ensures g in Without(db.grace, id, oldHash) <==> g in db.grace && !(g.tenant == id && g.oldHash == oldHash)
    {
      WithoutKeeps(db.grace, id, oldHash, g);
    }
    hide Without, FindActive;
  }

  /** Archiving stamps its time twice and changes nothing else in the record. */
  lemma ArchivedRecord(db: Db, id: string, now: int)
    requires SoftDeleteIn(db, id, now).Ok?
    ensures GetIn(db, id).Some?
    ensures GetIn(SoftDeleteIn(db, id, now).value, id) ==
            Some(GetIn(db, id).value.(updatedAt := now, deletedAt := Some(now)))
    ensures forall other | other != id :: GetIn(SoftDeleteIn(db, id, now).value, other) == GetIn(db, other)
  {
    var i := FindActive(db, id).value;
    var row := db.tenants[i].(record := db.tenants[i].record.(updatedAt := now, deletedAt := Some(now)));
    forall other
      ensures Find(db.tenants[i := row], other) == Find(db.tenants, other)
    {
      FindUpdated(db.tenants, i, row, other);
    }
  }

  /** Creation fails exactly for an id that is taken, archived or not; rotation and archiving exactly for an
      id that is unknown or archived. */
  lemma OperationsFailIff(db: Db, row: TenantRow, id: string, newKey: string, grace: int, now: int)
    ensures CreateIn(db, row) == Err(TenantExists) <==> GetIn(db, row.record.id).Some?
    ensures CreateIn(db, row).Err? ==> CreateIn(db, row) == Err(TenantExists)
    ensures var gone := GetIn(db, id) == None || GetIn(db, id).value.deletedAt.Some?;
            && (RotateIn(db, id, newKey, grace, now) == Err(TenantNotFound) <==> gone)
            && (SoftDeleteIn(db, id, now) == Err(TenantNotFound) <==> gone)
  {
  }

  // --- Runs ----------------------------------------------------------

  lemma NextHas(cfg: Config, w: World, event: Event, create: Event, createdAt: int)
    requires create.CreateTenant? && Has(w.db, create, createdAt)
    ensures Has(Next(cfg, w, event).db, create, createdAt)
  {
    match event
    case CreateTenant(id, displayName, allowedModels, rateLimits, newKey) =>
      FindAppended(w.db.tenants, NewRow(id, displayName, allowedModels, rateLimits, newKey, w.now), create.id);
    case RotateKey(id, newKey) =>
      if FindActive(w.db, id).Some? {
        RotatedRecord(w.db, id, newKey, cfg.gracePeriod, w.now);
        hide RotateIn, GetIn;
      }
    case SoftDelete(id) =>
      if FindActive(w.db, id).Some? {
        ArchivedRecord(w.db, id, w.now);
        hide SoftDeleteIn, GetIn;
      }
    case Tick(_) =>
    case Authenticate(_) => hide AuthStep;
    case Invalidate(_) => hide DropKey;
  }

  lemma NextKnows(cfg: Config, w: World, event: Event, id: string)
    requires GetIn(w.db, id).Some?
    ensures GetIn(Next(cfg, w, event).db, id).Some?
  {
    var record := GetIn(w.db, id).value;
    NextHas(cfg, w, event, CreateTenant(id, record.displayName, record.allowedModels, record.rateLimits, ""), record.createdAt);
    hide Next, GetIn;
  }

  lemma {:induction false} RunKnows(cfg: Config, events: seq<Event>, i: nat, id: string)
    requires i <= |events| && GetIn(Run(cfg, events[..i]).db, id).Some?
    ensures GetIn(Run(cfg, events).db, id).Some?
    decreases |events|
  {
    if i == |events| {
      assert events[..i] == events;
    } else {
      hide Next, GetIn;
      var front := events[..|events| - 1];
      assert front[..i] == events[..i];
      RunKnows(cfg, front, i, id);
      NextKnows(cfg, Run(cfg, front), events[|events| - 1], id);
    }
  }

  /** A tenant is created at step `i`: the id was free and the key fresh. */
  ghost predicate CreatedAt(cfg: Config, events: seq<Event>, i: nat)
    requires i < |events|
  {
    var w := Run(cfg, events[..i]);
    && events[i].CreateTenant? && GetIn(w.db, events[i].id) == None && events[i].newKey !in w.lives.keys
  }

  lemma CreationHas(cfg: Config, w: World, create: Event)
    requires create.CreateTenant? && GetIn(w.db, create.id) == None && create.newKey !in w.lives.keys
    ensures Has(Next(cfg, w, create).db, create, w.now)
  {
    CreatedRecord(w.db, create, w.now);
    hide CreateIn, NewRow, Has, GetIn, Issue;
  }

  lemma {:induction false} RunHas(cfg: Config, events: seq<Event>, i: nat, n: nat)
    requires i < n <= |events| && events[i].CreateTenant? && CreatedAt(cfg, events, i)
    ensures Has(Run(cfg, events[..n]).db, events[i], Run(cfg, events[..i]).now)
    decreases n
  {
    hide Next, Has, GetIn, Run;
    RunOf(cfg, events, n - 1);
    if n == i + 1 {
      CreationHas(cfg, Run(cfg, events[..i]), events[i]);
    } else {
      hide CreatedAt;
      RunHas(cfg, events, i, n - 1);
      NextHas(cfg, Run(cfg, events[..n - 1]), events[n - 1], events[i], Run(cfg, events[..i]).now);
    }
  }

  lemma RunOf(cfg: Config, events: seq<Event>, i: nat)
    requires i < |events|
    ensures Run(cfg, events[..i + 1]) == Next(cfg, Run(cfg, events[..i]), events[i])
  {
    hide Next;
    assert events[..i + 1][..i] == events[..i];
  }

  lemma AnswerIsOf(cfg: Config, events: seq<Event>, i: nat, n: nat, key: string)
    requires i < |events| && n <= |events| && events[i].CreateTenant? && CreatedAt(cfg, events, i)
    requires var answer := StoreAnswer(Run(cfg, events[..n]), key); answer.Some? && answer.value.id == events[i].id
    ensures i < n && IsOf(StoreAnswer(Run(cfg, events[..n]), key).value, events[i])
  {
    hide Next, Run, GetIn, CreatedAt, AuthenticateIn, IsOf;
    StoreAnswersByLife(cfg, events[..n], key);
    if n <= i {
      assert events[..i][..n] == events[..n];
      RunKnows(cfg, events[..i], n, events[i].id);
      NotYetCreated(cfg, events, i);
    } else {
      RunHas(cfg, events, i, n);
    }
  }

  lemma NotYetCreated(cfg: Config, events: seq<Event>, i: nat)
    requires i < |events| && CreatedAt(cfg, events, i)
    ensures events[i].CreateTenant? && GetIn(Run(cfg, events[..i]).db, events[i].id) == None
  {
  }

  /** Main result.  Whenever a key of a tenant authenticates, in the store or through the cache, the record
      has the display name, the models and the limits the tenant was created with, whatever rotations,
      archivings and other tenants came in between. */
  lemma RecordAsCreated(cfg: Config, events: seq<Event>, i: nat, key: string)
    requires i < |events| && CreatedAt(cfg, events, i)
    ensures events[i].CreateTenant?
    ensures var (w, create) := (Run(cfg, events), events[i]);
            var (stored, answer) := (StoreAnswer(w, key), Answer(cfg, w, key));
            && (stored.Some? && stored.value.id == create.id ==> IsOf(stored.value, create))
            && (answer.Ok? && answer.value.Some? && answer.value.value.id == create.id ==> IsOf(answer.value.value, create))
  {
    var w, create := Run(cfg, events), events[i];
    hide Next, Run, GetIn, CreatedAt, AuthenticateIn, IsOf, AuthStep;
    NotYetCreated(cfg, events, i);
    assert events[..|events|] == events;
    BoundedStaleness(cfg, events, key);
    if StoreAnswer(w, key).Some? && StoreAnswer(w, key).value.id == create.id {
      AnswerIsOf(cfg, events, i, |events|, key);
    }
    if Answer(cfg, w, key).Ok? && Answer(cfg, w, key).value.Some? && Answer(cfg, w, key).value.value.id == create.id {
      var record := Answer(cfg, w, key).value.value;
      var j :| 0 <= j <= |events| && StoreAnswer(Run(cfg, events[..j]), key) == Some(record);
      AnswerIsOf(cfg, events, i, j, key);
    }
  }
}
