/** The life of an API key, independent of the tables: current for its tenant, then rotated out
    with an expiry.  The store's tables represent this life for every key ever issued. */
module KeyLifecycle {
  import opened Wrappers
  import opened TenantStore

  datatype KeyState = Current(tenant: string) | RotatedOut(tenant: string, expiry: int)

  datatype Lives = Lives(keys: map<string, KeyState>, archived: set<string>)

  /** Who a key belongs to at a time: an unarchived tenant by its current key, or any tenant by a
      rotated-out key until its expiry. */
  function Holder(lives: Lives, key: string, now: int): Option<string> {
    if key !in lives.keys then None
    else
      match lives.keys[key]
      case Current(tenant) => if tenant in lives.archived then None else Some(tenant)
      case RotatedOut(tenant, expiry) => if now <= expiry then Some(tenant) else None
  }

  ghost predicate UniqueIds(tenants: seq<TenantRow>) {
    forall i, j | 0 <= i < j < |tenants| :: tenants[i].record.id != tenants[j].record.id
  }

  ghost predicate Known(tenants: seq<TenantRow>, tenant: string) {
    Find(tenants, tenant).Some?
  }

  ghost predicate RowLives(row: TenantRow, lives: Lives) {
    && row.keyHash.key in lives.keys && lives.keys[row.keyHash.key] == Current(row.record.id)
    && (Active(row) <==> row.record.id !in lives.archived)
  }

  ghost predicate RowsLive(tenants: seq<TenantRow>, lives: Lives) {
    forall i | 0 <= i < |tenants| :: RowLives(tenants[i], lives)
  }

  ghost predicate HasRow(tenants: seq<TenantRow>, key: string) {
    exists i :: 0 <= i < |tenants| && tenants[i].keyHash.key == key
  }

  ghost predicate CurrentKeysHaveRows(tenants: seq<TenantRow>, lives: Lives) {
    forall k | k in lives.keys && lives.keys[k].Current? :: HasRow(tenants, k)
  }

  ghost predicate TenantsKnown(tenants: seq<TenantRow>, lives: Lives) {
    && (forall t | t in lives.archived :: Known(tenants, t))
    && (forall k | k in lives.keys :: Known(tenants, lives.keys[k].tenant))
  }

  ghost predicate GraceLives(grace: seq<GraceRow>, lives: Lives) {
    && (forall k | k in lives.keys && lives.keys[k].RotatedOut? ::
          GraceRow(lives.keys[k].tenant, Argon2(k), lives.keys[k].expiry) in grace)
    && (forall g | g in grace ::
          g.oldHash.key in lives.keys && lives.keys[g.oldHash.key] == RotatedOut(g.tenant, g.expiresAt))
  }

  ghost predicate Represents(db: Db, lives: Lives) {
    && UniqueIds(db.tenants)
    && RowsLive(db.tenants, lives)
    && CurrentKeysHaveRows(db.tenants, lives)
    && TenantsKnown(db.tenants, lives)
    && GraceLives(db.grace, lives)
  }

  // --- Searching the tables ------------------------------------------

  lemma {:induction false} CurrentMatchFinds(tenants: seq<TenantRow>, key: string)
    ensures CurrentMatch(tenants, key).Some? ==>
              exists i :: 0 <= i < |tenants| && Active(tenants[i]) && tenants[i].keyHash.key == key
                          && CurrentMatch(tenants, key) == Some(tenants[i].record)
    ensures CurrentMatch(tenants, key).None? ==>
              forall i | 0 <= i < |tenants| :: !(Active(tenants[i]) && tenants[i].keyHash.key == key)
  {
    if tenants != [] {
      CurrentMatchFinds(tenants[1..], key);
      if CurrentMatch(tenants[1..], key).Some? {
        var i :| 0 <= i < |tenants[1..]| && Active(tenants[1..][i]) && tenants[1..][i].keyHash.key == key
                 && CurrentMatch(tenants[1..], key) == Some(tenants[1..][i].record);
        assert tenants[i + 1] == tenants[1..][i];
      } else {
        forall i | 0 < i < |tenants|
          ensures !(Active(tenants[i]) && tenants[i].keyHash.key == key)
        {
          assert tenants[i] == tenants[1..][i - 1];
        }
      }
    }
  }

  lemma {:induction false} GraceMatchFinds(grace: seq<GraceRow>, key: string, now: int)
    ensures GraceMatch(grace, key, now).Some? ==>
              exists g :: g in grace && g.oldHash.key == key && g.expiresAt >= now
                          && GraceMatch(grace, key, now) == Some(g.tenant)
    ensures GraceMatch(grace, key, now).None? ==>
              forall g | g in grace && g.oldHash.key == key :: g.expiresAt < now
  {
    if grace != [] {
      GraceMatchFinds(grace[1..], key, now);
      assert forall g :: g in grace <==> g == grace[0] || g in grace[1..];
    }
  }

  lemma {:induction false} WithoutKeeps(grace: seq<GraceRow>, tenant: string, oldHash: Hash, g: GraceRow)
    ensures g in Without(grace, tenant, oldHash) <==> g in grace && !(g.tenant == tenant && g.oldHash == oldHash)
  {
    if grace != [] {
      WithoutKeeps(grace[1..], tenant, oldHash, g);
      assert g in grace <==> g == grace[0] || g in grace[1..];
    }
  }

  lemma FindUnique(tenants: seq<TenantRow>, i: nat)
    requires i < |tenants| && UniqueIds(tenants)
    ensures Find(tenants, tenants[i].record.id) == Some(i)
  {
    var f := Find(tenants, tenants[i].record.id);
    assert f.Some?;
  }

  /** The store's loops answer exactly as the key's life says, with the tenant's own record. */
  lemma AuthenticateMatchesLife(db: Db, lives: Lives, key: string, now: int)
    requires Represents(db, lives)
    ensures match AuthenticateIn(db, key, now)
            case None => Holder(lives, key, now) == None
            case Some(record) =>
              Holder(lives, key, now) == Some(record.id) && GetIn(db, record.id) == Some(record)
  {
    CurrentMatchFinds(db.tenants, key);
    GraceMatchFinds(db.grace, key, now);
    if CurrentMatch(db.tenants, key).Some? {
      var i :| 0 <= i < |db.tenants| && Active(db.tenants[i]) && db.tenants[i].keyHash.key == key
               && CurrentMatch(db.tenants, key) == Some(db.tenants[i].record);
      assert RowLives(db.tenants[i], lives);
      FindUnique(db.tenants, i);
    } else if key in lives.keys && lives.keys[key].RotatedOut? {
      var state := lives.keys[key];
      assert GraceRow(state.tenant, Argon2(key), state.expiry) in db.grace;
      assert Known(db.tenants, state.tenant);
    } else if key in lives.keys {
      assert HasRow(db.tenants, key);
      var i :| 0 <= i < |db.tenants| && db.tenants[i].keyHash.key == key;
      assert RowLives(db.tenants[i], lives);
    }
  }

  // --- The operations on keys' lives ---------------------------------

  function Issue(lives: Lives, tenant: string, newKey: string): Lives {
    lives.(keys := lives.keys[newKey := Current(tenant)])
  }

  function Rotate(lives: Lives, tenant: string, oldKey: string, newKey: string, expiry: int): Lives {
    lives.(keys := lives.keys[oldKey := RotatedOut(tenant, expiry)][newKey := Current(tenant)])
  }

  lemma KnownGrows(tenants: seq<TenantRow>, tenants': seq<TenantRow>, lives: Lives, lives': Lives, t: string)
    requires TenantsKnown(tenants, lives)
    requires |tenants| <= |tenants'| && forall i | 0 <= i < |tenants| :: tenants'[i].record.id == tenants[i].record.id
    requires lives'.archived <= lives.archived + {t} && Known(tenants', t)
    requires forall k | k in lives'.keys :: lives'.keys[k].tenant == t || (k in lives.keys && lives.keys[k].tenant == lives'.keys[k].tenant)
    ensures TenantsKnown(tenants', lives')
  {
    forall u | Known(tenants, u)
      ensures Known(tenants', u)
    {
      assert tenants'[Find(tenants, u).value].record.id == u;
    }
    hide Find;
  }

  lemma CreatedRows(tenants: seq<TenantRow>, lives: Lives, row: TenantRow)
    requires UniqueIds(tenants) && RowsLive(tenants, lives) && CurrentKeysHaveRows(tenants, lives)
    requires row.keyHash.key !in lives.keys && Active(row) && row.record.id !in lives.archived
    requires forall i | 0 <= i < |tenants| :: tenants[i].record.id != row.record.id
    ensures var lives' := Issue(lives, row.record.id, row.keyHash.key);
            UniqueIds(tenants + [row]) && RowsLive(tenants + [row], lives') && CurrentKeysHaveRows(tenants + [row], lives')
  {
    var tenants', key := tenants + [row], row.keyHash.key;
    var lives' := Issue(lives, row.record.id, key);
    assert tenants'[|tenants|] == row;
    forall i | 0 <= i < |tenants'|
      ensures RowLives(tenants'[i], lives')
    {
      if i < |tenants| {
        assert RowLives(tenants[i], lives);
      }
    }
    forall k | k in lives'.keys && lives'.keys[k].Current?
      ensures HasRow(tenants', k)
    {
      if k != key {
        assert HasRow(tenants, k);
        var i :| 0 <= i < |tenants| && tenants[i].keyHash.key == k;
        assert tenants'[i].keyHash.key == k;
      }
    }
  }

  lemma IsKnown(tenants: seq<TenantRow>, i: nat)
    requires i < |tenants|
    ensures Known(tenants, tenants[i].record.id)
  {
  }

  lemma NotKnown(tenants: seq<TenantRow>, lives: Lives, id: string)
    requires TenantsKnown(tenants, lives) && Find(tenants, id).None?
    ensures id !in lives.archived && forall i | 0 <= i < |tenants| :: tenants[i].record.id != id
  {
    assert !Known(tenants, id);
  }

  lemma CreateRepresents(db: Db, lives: Lives, row: TenantRow)
    requires Represents(db, lives) && CreateIn(db, row).Ok?
    requires row.keyHash.key !in lives.keys && Active(row)
    ensures Represents(CreateIn(db, row).value, Issue(lives, row.record.id, row.keyHash.key))
  {
    hide Find, UniqueIds, RowsLive, CurrentKeysHaveRows, TenantsKnown, Known;
    var tenants' := db.tenants + [row];
    NotKnown(db.tenants, lives, row.record.id);
    CreatedRows(db.tenants, lives, row);
    assert tenants'[|db.tenants|] == row;
    IsKnown(tenants', |db.tenants|);
    KnownGrows(db.tenants, tenants', lives, Issue(lives, row.record.id, row.keyHash.key), row.record.id);
  }

  lemma RotatedGrace(grace: seq<GraceRow>, lives: Lives, id: string, oldKey: string, newKey: string, expiry: int)
    requires GraceLives(grace, lives)
    requires oldKey in lives.keys && lives.keys[oldKey] == Current(id) && newKey !in lives.keys
    ensures GraceLives(Upsert(grace, GraceRow(id, Argon2(oldKey), expiry)), Rotate(lives, id, oldKey, newKey, expiry))
  {
    var g := GraceRow(id, Argon2(oldKey), expiry);
    forall r
      ensures r in Upsert(grace, g) <==> r == g || (r in grace && !(r.tenant == id && r.oldHash == Argon2(oldKey)))
    {
      WithoutKeeps(grace, id, Argon2(oldKey), r);
    }
    hide Upsert;
  }

  lemma RotatedRows(tenants: seq<TenantRow>, lives: Lives, i: nat, row: TenantRow, newKey: string, expiry: int)
    requires i < |tenants| && UniqueIds(tenants) && RowsLive(tenants, lives) && CurrentKeysHaveRows(tenants, lives)
    requires newKey !in lives.keys && row.keyHash.key == newKey
    requires row.record.id == tenants[i].record.id && Active(row) && Active(tenants[i])
    ensures var lives' := Rotate(lives, row.record.id, tenants[i].keyHash.key, newKey, expiry);
            RowsLive(tenants[i := row], lives') && CurrentKeysHaveRows(tenants[i := row], lives')
  {
    var tenants', oldKey := tenants[i := row], tenants[i].keyHash.key;
    var lives' := Rotate(lives, row.record.id, oldKey, newKey, expiry);
    assert RowLives(tenants[i], lives);
    forall j | 0 <= j < |tenants'|
      ensures RowLives(tenants'[j], lives')
    {
      assert RowLives(tenants[j], lives);
    }
    forall k | k in lives'.keys && lives'.keys[k].Current?
      ensures HasRow(tenants', k)
    {
      if k == newKey {
        assert tenants'[i].keyHash.key == k;
      } else {
        assert HasRow(tenants, k);
        var j :| 0 <= j < |tenants| && tenants[j].keyHash.key == k;
        assert tenants'[j].keyHash.key == k;
      }
    }
  }

  lemma UpdatedIds(tenants: seq<TenantRow>, i: nat, row: TenantRow)
    requires i < |tenants| && UniqueIds(tenants) && row.record.id == tenants[i].record.id
    ensures UniqueIds(tenants[i := row])
    ensures forall j | 0 <= j < |tenants| :: tenants[i := row][j].record.id == tenants[j].record.id
  {
  }

  /** Rotation changes no key's tenant. */
  lemma RotatedTenants(lives: Lives, id: string, oldKey: string, newKey: string, expiry: int)
    requires oldKey in lives.keys && lives.keys[oldKey] == Current(id)
    ensures var lives' := Rotate(lives, id, oldKey, newKey, expiry);
            && lives'.archived == lives.archived
            && forall k | k in lives'.keys ::
                 lives'.keys[k].tenant == id || (k in lives.keys && lives.keys[k].tenant == lives'.keys[k].tenant)
  {
  }

  lemma RowLivesAt(tenants: seq<TenantRow>, lives: Lives, i: nat)
    requires i < |tenants| && RowsLive(tenants, lives)
    ensures RowLives(tenants[i], lives) && tenants[i].keyHash == Argon2(tenants[i].keyHash.key)
  {
  }

  lemma RotateRepresents(db: Db, lives: Lives, id: string, newKey: string, gracePeriod: int, now: int)
    requires Represents(db, lives) && FindActive(db, id).Some? && newKey !in lives.keys
    ensures var oldKey := db.tenants[FindActive(db, id).value].keyHash.key;
            && oldKey in lives.keys && lives.keys[oldKey] == Current(id)
            && Represents(RotateIn(db, id, newKey, gracePeriod, now).value,
                          Rotate(lives, id, oldKey, newKey, now + gracePeriod))
  {
    hide FindActive, Find, UniqueIds, RowsLive, CurrentKeysHaveRows, TenantsKnown, Known, GraceLives, Upsert, Rotate;
    var i := FindActive(db, id).value;
    var row := db.tenants[i];
    RowLivesAt(db.tenants, lives, i);
    var oldKey, expiry := row.keyHash.key, now + gracePeriod;
    var row' := TenantRow(row.record.(updatedAt := now), Argon2(newKey));
    var tenants' := db.tenants[i := row'];
    UpdatedIds(db.tenants, i, row');
    IsKnown(tenants', i);
    RotatedGrace(db.grace, lives, id, oldKey, newKey, expiry);
    RotatedRows(db.tenants, lives, i, row', newKey, expiry);
    RotatedTenants(lives, id, oldKey, newKey, expiry);
    KnownGrows(db.tenants, tenants', lives, Rotate(lives, id, oldKey, newKey, expiry), id);
  }

  lemma ArchivedRows(tenants: seq<TenantRow>, lives: Lives, i: nat, row: TenantRow)
    requires i < |tenants| && UniqueIds(tenants) && RowsLive(tenants, lives) && CurrentKeysHaveRows(tenants, lives)
    requires row.record.id == tenants[i].record.id && row.keyHash == tenants[i].keyHash && !Active(row)
    ensures var lives' := lives.(archived := lives.archived + {row.record.id});
            RowsLive(tenants[i := row], lives') && CurrentKeysHaveRows(tenants[i := row], lives')
  {
    var tenants' := tenants[i := row];
    forall j | 0 <= j < |tenants'|
      ensures RowLives(tenants'[j], lives.(archived := lives.archived + {row.record.id}))
    {
      assert RowLives(tenants[j], lives);
    }
    forall k | k in lives.keys && lives.keys[k].Current?
      ensures HasRow(tenants', k)
    {
      assert HasRow(tenants, k);
      var j :| 0 <= j < |tenants| && tenants[j].keyHash.key == k;
      assert tenants'[j].keyHash.key == k;
    }
  }

  lemma SoftDeleteRepresents(db: Db, lives: Lives, id: string, now: int)
    requires Represents(db, lives) && FindActive(db, id).Some?
    ensures Represents(SoftDeleteIn(db, id, now).value, lives.(archived := lives.archived + {id}))
  {
    hide FindActive, Find, UniqueIds, RowsLive, CurrentKeysHaveRows, TenantsKnown, Known, GraceLives;
    var i := FindActive(db, id).value;
    var row := db.tenants[i];
    var row' := row.(record := row.record.(updatedAt := now, deletedAt := Some(now)));
    var tenants' := db.tenants[i := row'];
    var lives' := lives.(archived := lives.archived + {id});
    UpdatedIds(db.tenants, i, row');
    IsKnown(tenants', i);
    ArchivedRows(db.tenants, lives, i, row');
    KnownGrows(db.tenants, tenants', lives, lives', id);
    SameGrace(db.grace, lives, lives');
  }

  lemma SameGrace(grace: seq<GraceRow>, lives: Lives, lives': Lives)
    requires GraceLives(grace, lives) && lives'.keys == lives.keys
    ensures GraceLives(grace, lives')
  {
  }
}
