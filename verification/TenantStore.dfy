/** The tenant store: two tables and the operations on them. */
module TenantStore {
  import opened Wrappers

  /** Argon2, idealised: a hash verifies exactly the key it was made from. */
  datatype Hash = Argon2(key: string)

  datatype TenantRecord = TenantRecord(
    id: string, displayName: string, allowedModels: seq<string>, rateLimits: map<string, string>,
    createdAt: int, updatedAt: int, deletedAt: Option<int>)

  datatype TenantRow = TenantRow(record: TenantRecord, keyHash: Hash)
  datatype GraceRow = GraceRow(tenant: string, oldHash: Hash, expiresAt: int)

  /** Both tables, rows in the order a SELECT returns them. */
  datatype Db = Db(tenants: seq<TenantRow>, grace: seq<GraceRow>)

  datatype StoreError = TenantExists | TenantNotFound

  predicate Verify(hash: Hash, rawKey: string) {
    hash.key == rawKey
  }

  predicate Active(row: TenantRow) {
    row.record.deletedAt == None
  }

  // --- Reads ---------------------------------------------------------

  function Find(tenants: seq<TenantRow>, id: string): (i: Option<nat>)
    ensures i.Some? ==> i.value < |tenants| && tenants[i.value].record.id == id
    ensures i.None? ==> forall j | 0 <= j < |tenants| :: tenants[j].record.id != id
  {
    if tenants == [] then None
    else if tenants[|tenants| - 1].record.id == id then Some(|tenants| - 1)
    else Find(tenants[..|tenants| - 1], id)
  }

  function GetIn(db: Db, id: string): Option<TenantRecord> {
    match Find(db.tenants, id)
    case None => None
    case Some(i) => Some(db.tenants[i].record)
  }

  /** The first active tenant whose current key is `rawKey`. */
  function CurrentMatch(tenants: seq<TenantRow>, rawKey: string): Option<TenantRecord> {
    if tenants == [] then None
    else if Active(tenants[0]) && Verify(tenants[0].keyHash, rawKey) then Some(tenants[0].record)
    else CurrentMatch(tenants[1..], rawKey)
  }

  /** The tenant of the first unexpired rotated-out key that is `rawKey`. */
  function GraceMatch(grace: seq<GraceRow>, rawKey: string, now: int): Option<string> {
    if grace == [] then None
    else if grace[0].expiresAt >= now && Verify(grace[0].oldHash, rawKey) then Some(grace[0].tenant)
    else GraceMatch(grace[1..], rawKey, now)
  }

  function AuthenticateIn(db: Db, rawKey: string, now: int): Option<TenantRecord> {
    match CurrentMatch(db.tenants, rawKey)
    case Some(record) => Some(record)
    case None =>
      match GraceMatch(db.grace, rawKey, now)
      case None => None
      case Some(tenant) => GetIn(db, tenant)
  }

  // --- Writes --------------------------------------------------------

  function NewRow(id: string, displayName: string, allowedModels: seq<string>,
                  rateLimits: map<string, string>, newKey: string, now: int): TenantRow
  {
    TenantRow(TenantRecord(id, displayName, allowedModels, rateLimits, now, now, None), Argon2(newKey))
  }

  function CreateIn(db: Db, row: TenantRow): Result<Db, StoreError> {
    if Find(db.tenants, row.record.id).Some? then Err(TenantExists)
    else Ok(db.(tenants := db.tenants + [row]))
  }

  /** INSERT OR REPLACE on the primary key (tenant, old hash). */
  function Upsert(grace: seq<GraceRow>, row: GraceRow): seq<GraceRow> {
    Without(grace, row.tenant, row.oldHash) + [row]
  }

  function Without(grace: seq<GraceRow>, tenant: string, oldHash: Hash): seq<GraceRow> {
    if grace == [] then []
    else
      var rest := Without(grace[1..], tenant, oldHash);
      if grace[0].tenant == tenant && grace[0].oldHash == oldHash then rest else [grace[0]] + rest
  }

  function FindActive(db: Db, id: string): (i: Option<nat>)
    ensures i.Some? ==> i.value < |db.tenants| && db.tenants[i.value].record.id == id && Active(db.tenants[i.value])
  {
    match Find(db.tenants, id)
    case None => None
    case Some(i) => if Active(db.tenants[i]) then Some(i) else None
  }

  function RotateIn(db: Db, id: string, newKey: string, gracePeriod: int, now: int): Result<Db, StoreError> {
    match FindActive(db, id)
    case None => Err(TenantNotFound)
    case Some(i) =>
      var row := db.tenants[i];
      Ok(Db(db.tenants[i := TenantRow(row.record.(updatedAt := now), Argon2(newKey))],
            Upsert(db.grace, GraceRow(id, row.keyHash, now + gracePeriod))))
  }

  function SoftDeleteIn(db: Db, id: string, now: int): Result<Db, StoreError> {
    match FindActive(db, id)
    case None => Err(TenantNotFound)
    case Some(i) =>
      var row := db.tenants[i];
      Ok(db.(tenants := db.tenants[i := row.(record := row.record.(updatedAt := now, deletedAt := Some(now)))]))
  }

  // --- The store -----------------------------------------------------

  class Store {
    var tenants: seq<TenantRow>
    var grace: seq<GraceRow>
    const gracePeriod: int

    constructor (gracePeriod: int)
      ensures Contents() == Db([], []) && this.gracePeriod == gracePeriod
    {
      tenants, grace := [], [];
      this.gracePeriod := gracePeriod;
    }

    function Contents(): Db
      reads this
    {
      Db(tenants, grace)
    }

    method Get(id: string) returns (record: Option<TenantRecord>)
      ensures record == GetIn(Contents(), id)
    {
      var i := Find(tenants, id);
      record := if i.Some? then Some(tenants[i.value].record) else None;
    }

    method Authenticate(rawKey: string, now: int) returns (record: Option<TenantRecord>)
      ensures record == AuthenticateIn(Contents(), rawKey, now)
    {
      for i := 0 to |tenants|
        invariant CurrentMatch(tenants, rawKey) == CurrentMatch(tenants[i..], rawKey)
      {
        if Active(tenants[i]) && Verify(tenants[i].keyHash, rawKey) {
          return Some(tenants[i].record);
        }
        assert tenants[i..][1..] == tenants[i + 1..];
      }
      for i := 0 to |grace|
        invariant GraceMatch(grace, rawKey, now) == GraceMatch(grace[i..], rawKey, now)
      {
        assert grace[i..][1..] == grace[i + 1..];
        if grace[i].expiresAt < now {
          continue;
        }
        if Verify(grace[i].oldHash, rawKey) {
          record := Get(grace[i].tenant);
          return;
        }
      }
      return None;
    }

    method Create(id: string, displayName: string, allowedModels: seq<string>,
                  rateLimits: map<string, string>, newKey: string, now: int)
      returns (r: Result<(TenantRecord, string), StoreError>)
      modifies this
      ensures var row := NewRow(id, displayName, allowedModels, rateLimits, newKey, now);
              match CreateIn(old(Contents()), row)
              case Err(e) => r == Err(e) && Contents() == old(Contents())
              case Ok(db) => r == Ok((row.record, newKey)) && Contents() == db
    {
      var existing := Get(id);
      if existing.Some? {
        return Err(TenantExists);
      }
      var row := NewRow(id, displayName, allowedModels, rateLimits, newKey, now);
      tenants := tenants + [row];
      var record := Get(id);
      return Ok((record.value, newKey));
    }

    method RotateKey(id: string, newKey: string, now: int) returns (r: Result<string, StoreError>)
      modifies this
      ensures match RotateIn(old(Contents()), id, newKey, gracePeriod, now)
              case Err(e) => r == Err(e) && Contents() == old(Contents())
              case Ok(db) => r == Ok(newKey) && Contents() == db
    {
      var i := FindActive(Contents(), id);
      if i.None? {
        return Err(TenantNotFound);
      }
      var row := tenants[i.value];
      grace := Upsert(grace, GraceRow(id, row.keyHash, now + gracePeriod));
      tenants := tenants[i.value := TenantRow(row.record.(updatedAt := now), Argon2(newKey))];
      return Ok(newKey);
    }

    method SoftDelete(id: string, now: int) returns (error: Option<StoreError>)
      modifies this
      ensures match SoftDeleteIn(old(Contents()), id, now)
              case Err(e) => error == Some(e) && Contents() == old(Contents())
              case Ok(db) => error == None && Contents() == db
    {
      var i := FindActive(Contents(), id);
      if i.None? {
        return Some(TenantNotFound);
      }
      var row := tenants[i.value];
      tenants := tenants[i.value := row.(record := row.record.(updatedAt := now, deletedAt := Some(now)))];
      return None;
    }
  }
}
