/** The S3-compatible adapter over a flat map of object keys. */
module S3Adapter {
  import opened Wrappers
  import opened Text
  import opened BlobStore

  /** A stored object; an absent content type stands for the server's default. */
  datatype Object = Object(data: seq<byte>, contentType: Option<string>, userMetadata: UserMetadata)

  type Bucket = map<string, Object>

  // --- Object keys ---------------------------------------------------

  function TenantPrefix(tenant: string): string {
    tenant + "/"
  }

  function ObjectKey(tenant: string, key: string): Result<string, StoreError> {
    if tenant == "" || '/' in tenant then Err(TenantIsolation)
    else if StartsWith(key, "/") then Err(TenantIsolation)
    else Ok(TenantPrefix(tenant) + key)
  }

  function StripTenant(tenant: string, objectKey: string): Result<string, StoreError> {
    var prefix := TenantPrefix(tenant);
    if !StartsWith(objectKey, prefix) then Err(TenantIsolation) else Ok(objectKey[|prefix|..])
  }

  // --- Effects of the operations -------------------------------------

  /** A content type is sent only when it is not empty. */
  function Truthy(contentType: Option<string>): Option<string> {
    if contentType == Some("") then None else contentType
  }

  function PutObject(bucket: Bucket, objectKey: string, op: Op): (Bucket, Outcome)
    requires op.Put?
  {
    var body := ContentOf(op.source);
    if Broken(op.source) then (bucket, Failed(SourceFailure))
    else if op.ifNoneMatch && objectKey in bucket then (bucket, Failed(AlreadyExists))
    else (bucket[objectKey := Object(body, Truthy(op.contentType), op.userMetadata)],
          Stored(BlobRef(op.tenant, op.key, S3Tag(body), |body|, op.contentType)))
  }

  function FullPrefix(tenant: string, prefix: string): Result<string, StoreError> {
    if prefix != "" then ObjectKey(tenant, prefix) else Ok(TenantPrefix(tenant))
  }

  function ObjectRef(bucket: Bucket, tenant: string, objectKey: string): Result<BlobRef, StoreError>
    requires objectKey in bucket
  {
    match StripTenant(tenant, objectKey)
    case Err(e) => Err(e)
    case Ok(key) =>
      var data := bucket[objectKey].data;
      Ok(BlobRef(tenant, key, S3Tag(data), |data|, None))
  }

  function Matching(bucket: Bucket, fullPrefix: string): set<string> {
    set k | k in bucket && fullPrefix <= k
  }

  ghost function ListObjects(bucket: Bucket, tenant: string, prefix: string): Outcome {
    match FullPrefix(tenant, prefix)
    case Err(e) => Failed(e)
    case Ok(fullPrefix) =>
      var found := Matching(bucket, fullPrefix);
      if exists k | k in found :: ObjectRef(bucket, tenant, k).Err? then Failed(TenantIsolation)
      else Listed(set k | k in found :: ObjectRef(bucket, tenant, k).value)
  }

  ghost function S3Step(bucket: Bucket, op: Op): (Bucket, Outcome) {
    match op
    case Put(tenant, key, _, _, _, _) => (
      match ObjectKey(tenant, key)
      case Err(e) => (bucket, Failed(e))
      case Ok(k) => PutObject(bucket, k, op))
    case Get(tenant, key) => (
      match ObjectKey(tenant, key)
      case Err(e) => (bucket, Failed(e))
      case Ok(k) =>
        if k !in bucket then (bucket, Failed(NotFound))
        else
          var o := bucket[k];
          (bucket, Fetched(BlobRef(tenant, key, S3Tag(o.data), |o.data|, o.contentType), o.data)))
    case Head(tenant, key) => (
      match ObjectKey(tenant, key)
      case Err(e) => (bucket, Failed(e))
      case Ok(k) =>
        if k !in bucket then (bucket, Absent)
        else
          var o := bucket[k];
          (bucket, Described(BlobMetadata(tenant, key, |o.data|, S3Tag(o.data), o.contentType, o.userMetadata))))
    case Delete(tenant, key) => (
      match ObjectKey(tenant, key)
      case Err(e) => (bucket, Failed(e))
      case Ok(k) => (bucket - {k}, Deleted))
    case List(tenant, prefix) => (bucket, ListObjects(bucket, tenant, prefix))
  }

  ghost function S3Run(bucket: Bucket, ops: seq<Op>): (Bucket, seq<Outcome>)
    decreases |ops|
  {
    if ops == [] then (bucket, [])
    else
      var (bucket', outcome) := S3Step(bucket, ops[0]);
      var (final, rest) := S3Run(bucket', ops[1..]);
      (final, [outcome] + rest)
  }

  // --- The codec -----------------------------------------------------

  /** `_strip_tenant` undoes `_object_key`. */
  lemma StripUndoesObjectKey(tenant: string, key: string)
    requires ObjectKey(tenant, key).Ok?
    ensures StripTenant(tenant, ObjectKey(tenant, key).value) == Ok(key)
  {
    var prefix := TenantPrefix(tenant);
    assert (prefix + key)[|prefix|..] == key;
  }

  /** No object key carries two tenants' prefixes. */
  lemma TenantPrefixesDisjoint(a: string, b: string, objectKey: string)
    requires '/' !in a && '/' !in b
    requires StartsWith(objectKey, TenantPrefix(a)) && StartsWith(objectKey, TenantPrefix(b))
    ensures a == b
  {
    FirstSeparator(a, b, objectKey[|a| + 1..], objectKey[|b| + 1..], '/');
  }

  lemma ObjectKeyInjective(a: Id, b: Id)
    requires ObjectKey(a.0, a.1).Ok? && ObjectKey(a.0, a.1) == ObjectKey(b.0, b.1)
    ensures a == b
  {
    var k := ObjectKey(a.0, a.1).value;
    assert StartsWith(k, TenantPrefix(a.0)) && StartsWith(k, TenantPrefix(b.0));
    TenantPrefixesDisjoint(a.0, b.0, k);
    StripUndoesObjectKey(a.0, a.1);
    StripUndoesObjectKey(b.0, b.1);
  }

  /** Inside `list`, stripping the tenant never raises, whatever the tenant. */
  lemma ListedKeysStrip(bucket: Bucket, tenant: string, prefix: string, objectKey: string)
    requires FullPrefix(tenant, prefix).Ok? && objectKey in Matching(bucket, FullPrefix(tenant, prefix).value)
    ensures ObjectRef(bucket, tenant, objectKey).Ok?
    ensures prefix <= ObjectRef(bucket, tenant, objectKey).value.key
    ensures objectKey == TenantPrefix(tenant) + ObjectRef(bucket, tenant, objectKey).value.key
  {
    var full := TenantPrefix(tenant) + prefix;
    assert FullPrefix(tenant, prefix).value == full;
    assert TenantPrefix(tenant) <= full <= objectKey;
    assert full[|TenantPrefix(tenant)|..] == prefix;
  }

  // --- The adapter ---------------------------------------------------

  class Adapter {
    var objects: Bucket

    constructor (objects: Bucket)
      ensures this.objects == objects
    {
      this.objects := objects;
    }

    method Put(tenant: string, key: string, source: Source,
               contentType: Option<string>, userMetadata: UserMetadata, ifNoneMatch: bool)
      returns (outcome: Outcome)
      modifies this
      ensures (objects, outcome) == S3Step(old(objects), Op.Put(tenant, key, source, contentType, userMetadata, ifNoneMatch))
    {
      var objectKey := ObjectKey(tenant, key);
      if objectKey.Err? {
        return Failed(objectKey.error);
      }
      var body;
      match source {
        case Buffer(data) =>
          body := data;
        case Chunked(chunks, broken) =>
          if broken {
            return Failed(SourceFailure);
          }
          body := JoinChunks(chunks);
      }
      if ifNoneMatch && objectKey.value in objects {
        return Failed(AlreadyExists);
      }
      objects := objects[objectKey.value := Object(body, Truthy(contentType), userMetadata)];
      return Stored(BlobRef(tenant, key, S3Tag(body), |body|, contentType));
    }

    method Get(tenant: string, key: string) returns (outcome: Outcome)
      ensures (objects, outcome) == S3Step(objects, Op.Get(tenant, key))
    {
      var objectKey := ObjectKey(tenant, key);
      if objectKey.Err? {
        return Failed(objectKey.error);
      }
      if objectKey.value !in objects {
        return Failed(NotFound);
      }
      var o := objects[objectKey.value];
      return Fetched(BlobRef(tenant, key, S3Tag(o.data), |o.data|, o.contentType), o.data);
    }

    method Head(tenant: string, key: string) returns (outcome: Outcome)
      ensures (objects, outcome) == S3Step(objects, Op.Head(tenant, key))
    {
      var objectKey := ObjectKey(tenant, key);
      if objectKey.Err? {
        return Failed(objectKey.error);
      }
      if objectKey.value !in objects {
        return Absent;
      }
      var o := objects[objectKey.value];
      return Described(BlobMetadata(tenant, key, |o.data|, S3Tag(o.data), o.contentType, o.userMetadata));
    }

    method Delete(tenant: string, key: string) returns (outcome: Outcome)
      modifies this
      ensures (objects, outcome) == S3Step(old(objects), Op.Delete(tenant, key))
    {
      var objectKey := ObjectKey(tenant, key);
      if objectKey.Err? {
        return Failed(objectKey.error);
      }
      objects := objects - {objectKey.value};
      return Deleted;
    }

    /** Lists the matching objects page by page; `StripTenant` is attempted on each. */
    method List(tenant: string, prefix: string) returns (refs: seq<BlobRef>, error: Option<StoreError>)
      ensures (objects, if error.Some? then Failed(error.value) else Listed(set r | r in refs)) ==
              S3Step(objects, Op.List(tenant, prefix))
    {
      refs, error := [], None;
      var fullPrefix := FullPrefix(tenant, prefix);
      if fullPrefix.Err? {
        error := Some(fullPrefix.error);
        return;
      }
      ghost var found := Matching(objects, fullPrefix.value);
      var pending := Matching(objects, fullPrefix.value);
      while pending != {}
        invariant pending <= found
        invariant forall k | k in found - pending :: ObjectRef(objects, tenant, k).Ok?
        invariant (set r | r in refs) == set k | k in found - pending :: ObjectRef(objects, tenant, k).value
        decreases pending
      {
        var k :| k in pending;
        ListedKeysStrip(objects, tenant, prefix, k);
        var r := ObjectRef(objects, tenant, k).value;
        assert (set x | x in refs + [r]) == (set x | x in refs) + {r};
        assert found - (pending - {k}) == (found - pending) + {k};
        refs, pending := refs + [r], pending - {k};
      }
      assert found - pending == found;
    }
  }
}
