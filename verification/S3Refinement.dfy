/** The S3 adapter implements the port's map, and therefore agrees with the filesystem adapter. */
module S3Refinement {
  import opened Wrappers
  import opened Text
  import opened BlobStore
  import opened S3Adapter

  ghost predicate Accepted(id: Id) {
    ObjectKey(id.0, id.1).Ok?
  }

  ghost function KeyOf(id: Id): string
    requires Accepted(id)
  {
    ObjectKey(id.0, id.1).value
  }

  function ObjectOf(blob: Blob): Object {
    Object(blob.data, Truthy(blob.contentType), blob.userMetadata)
  }

  ghost predicate Represents(bucket: Bucket, blobs: BlobMap) {
    && (forall id | id in blobs :: Accepted(id) && KeyOf(id) in bucket && bucket[KeyOf(id)] == ObjectOf(blobs[id]))
    && (forall k | k in bucket :: exists id | id in blobs :: Accepted(id) && k == KeyOf(id))
  }

  ghost predicate WellFormedOp(op: Op) {
    match op
    case Put(tenant, key, _, _, _, _) => Accepted((tenant, key))
    case Get(tenant, key) => Accepted((tenant, key))
    case Head(tenant, key) => Accepted((tenant, key))
    case Delete(tenant, key) => Accepted((tenant, key))
    case List(tenant, prefix) => Accepted((tenant, prefix))
  }

  // --- How S3 reports what the map reports ---------------------------

  function Tag(etag: Etag): Etag {
    S3Tag(etag.content)
  }

  /** The same outcome with S3's tags; content types are echoed by put, reported as stored by get
      and head, and not reported by list. */
  function AsS3(outcome: Outcome): Outcome {
    match outcome
    case Stored(r) => Stored(r.(etag := Tag(r.etag)))
    case Fetched(r, data) => Fetched(r.(etag := Tag(r.etag), contentType := Truthy(r.contentType)), data)
    case Described(m) => Described(m.(etag := Tag(m.etag), contentType := Truthy(m.contentType)))
    case Listed(refs) => Listed(set r | r in refs :: r.(etag := Tag(r.etag), contentType := None))
    case Absent => Absent
    case Deleted => Deleted
    case Failed(e) => Failed(e)
  }

  /** S3 reads the whole source before it asks whether the object exists, so a broken source
      wins over an existing key. */
  ghost predicate SourceFailsFirst(blobs: BlobMap, op: Op) {
    op.Put? && op.ifNoneMatch && Broken(op.source) && (op.tenant, op.key) in blobs
  }

  lemma InBucket(bucket: Bucket, blobs: BlobMap, id: Id)
    requires Represents(bucket, blobs) && Accepted(id)
    ensures KeyOf(id) in bucket <==> id in blobs
  {
    if KeyOf(id) in bucket {
      var o :| o in blobs && Accepted(o) && KeyOf(o) == KeyOf(id);
      ObjectKeyInjective(o, id);
    }
  }

  lemma PutRepresents(bucket: Bucket, blobs: BlobMap, id: Id, blob: Blob)
    requires Represents(bucket, blobs) && Accepted(id)
    ensures Represents(bucket[KeyOf(id) := ObjectOf(blob)], blobs[id := blob])
  {
    var bucket', blobs' := bucket[KeyOf(id) := ObjectOf(blob)], blobs[id := blob];
    forall i | i in blobs'
      ensures Accepted(i) && KeyOf(i) in bucket' && bucket'[KeyOf(i)] == ObjectOf(blobs'[i])
    {
      if i != id && KeyOf(i) == KeyOf(id) {
        ObjectKeyInjective(i, id);
      }
    }
    forall k | k in bucket'
      ensures exists i | i in blobs' :: Accepted(i) && k == KeyOf(i)
    {
      if k == KeyOf(id) {
        assert id in blobs';
      } else {
        var o :| o in blobs && Accepted(o) && k == KeyOf(o);
        assert o in blobs';
      }
    }
  }

  lemma DeleteRepresents(bucket: Bucket, blobs: BlobMap, id: Id)
    requires Represents(bucket, blobs) && Accepted(id)
    ensures Represents(bucket - {KeyOf(id)}, blobs - {id})
  {
    var bucket', blobs' := bucket - {KeyOf(id)}, blobs - {id};
    forall i | i in blobs'
      ensures Accepted(i) && KeyOf(i) in bucket' && bucket'[KeyOf(i)] == ObjectOf(blobs'[i])
    {
      if KeyOf(i) == KeyOf(id) {
        ObjectKeyInjective(i, id);
      }
    }
    forall k | k in bucket'
      ensures exists i | i in blobs' :: Accepted(i) && k == KeyOf(i)
    {
      var o :| o in blobs && Accepted(o) && k == KeyOf(o);
      assert o in blobs';
    }
  }

  lemma ListedIsStored(bucket: Bucket, blobs: BlobMap, tenant: string, prefix: string, k: string) returns (id: Id)
    requires Represents(bucket, blobs) && Accepted((tenant, prefix))
    requires k in Matching(bucket, TenantPrefix(tenant) + prefix)
    ensures id in blobs && id.0 == tenant && prefix <= id.1
    ensures ObjectRef(bucket, tenant, k) == Ok(BlobRef(tenant, id.1, S3Tag(blobs[id].data), |blobs[id].data|, None))
  {
    assert TenantPrefix(tenant) + "" == TenantPrefix(tenant);
    assert FullPrefix(tenant, prefix) == Ok(TenantPrefix(tenant) + prefix);
    ListedKeysStrip(bucket, tenant, prefix, k);
    id :| id in blobs && Accepted(id) && k == KeyOf(id);
    assert StartsWith(k, TenantPrefix(id.0)) && StartsWith(k, TenantPrefix(tenant));
    TenantPrefixesDisjoint(id.0, tenant, k);
    StripUndoesObjectKey(id.0, id.1);
  }

  lemma StoredIsListed(bucket: Bucket, blobs: BlobMap, tenant: string, prefix: string, id: Id)
    requires Represents(bucket, blobs) && Accepted((tenant, prefix))
    requires id in blobs && id.0 == tenant && prefix <= id.1
    ensures Accepted(id) && KeyOf(id) in Matching(bucket, TenantPrefix(tenant) + prefix)
    ensures ObjectRef(bucket, tenant, KeyOf(id)) == Ok(BlobRef(tenant, id.1, S3Tag(blobs[id].data), |blobs[id].data|, None))
  {
    assert Accepted(id) && KeyOf(id) in bucket;
    StripUndoesObjectKey(id.0, id.1);
    assert TenantPrefix(tenant) + prefix <= TenantPrefix(tenant) + id.1;
  }

  lemma ListRefines(bucket: Bucket, blobs: BlobMap, tenant: string, prefix: string)
    requires Represents(bucket, blobs) && Accepted((tenant, prefix))
    ensures ListObjects(bucket, tenant, prefix) == AsS3(MapStep(blobs, List(tenant, prefix)).1)
  {
    var full := TenantPrefix(tenant) + prefix;
    assert TenantPrefix(tenant) + "" == TenantPrefix(tenant);
    assert FullPrefix(tenant, prefix) == Ok(full);
    var found := Matching(bucket, full);
    var refs := AsS3(MapStep(blobs, List(tenant, prefix)).1).refs;
    hide Represents, ObjectRef;
    forall k | k in found
      ensures ObjectRef(bucket, tenant, k).Ok? && ObjectRef(bucket, tenant, k).value in refs
    {
      var id := ListedIsStored(bucket, blobs, tenant, prefix, k);
      assert RefOf(id, blobs[id]) in MapStep(blobs, List(tenant, prefix)).1.refs;
    }
    var listed := set k | k in found :: ObjectRef(bucket, tenant, k).value;
    forall r | r in refs
      ensures r in listed
    {
      var id :| id in blobs && id.0 == tenant && prefix <= id.1
             && r == RefOf(id, blobs[id]).(etag := S3Tag(blobs[id].data), contentType := None);
      StoredIsListed(bucket, blobs, tenant, prefix, id);
    }
    assert listed == refs;
  }

  ghost predicate StepMatches(bucket: Bucket, blobs: BlobMap, op: Op) {
    && S3Step(bucket, op).1 ==
       (if SourceFailsFirst(blobs, op) then Failed(SourceFailure) else AsS3(MapStep(blobs, op).1))
    && Represents(S3Step(bucket, op).0, MapStep(blobs, op).0)
  }

  lemma PutRefines(bucket: Bucket, blobs: BlobMap, op: Op)
    requires Represents(bucket, blobs) && WellFormedOp(op) && op.Put?
    ensures StepMatches(bucket, blobs, op)
  {
    var id := (op.tenant, op.key);
    hide ObjectKey, Represents, Concat, ContentOf;
    InBucket(bucket, blobs, id);
    PutRepresents(bucket, blobs, id, Blob(ContentOf(op.source), op.contentType, op.userMetadata));
  }

  lemma ReadRefines(bucket: Bucket, blobs: BlobMap, op: Op)
    requires Represents(bucket, blobs) && WellFormedOp(op) && (op.Get? || op.Head?)
    ensures StepMatches(bucket, blobs, op)
  {
    InBucket(bucket, blobs, (op.tenant, op.key));
    hide ObjectKey;
  }

  lemma StepRefines(bucket: Bucket, blobs: BlobMap, op: Op)
    requires Represents(bucket, blobs) && WellFormedOp(op)
    ensures StepMatches(bucket, blobs, op)
  {
    match op
    case Put(_, _, _, _, _, _) => PutRefines(bucket, blobs, op);
    case Get(_, _) => ReadRefines(bucket, blobs, op);
    case Head(_, _) => ReadRefines(bucket, blobs, op);
    case Delete(tenant, key) =>
      DeleteRepresents(bucket, blobs, (tenant, key));
      hide ObjectKey, Represents;
    case List(tenant, prefix) =>
      ListRefines(bucket, blobs, tenant, prefix);
  }

  /** What S3 answers where the map answers `outcome` and holds `blobs` before. */
  ghost function S3Outcome(blobs: BlobMap, op: Op, outcome: Outcome): Outcome {
    if SourceFailsFirst(blobs, op) then Failed(SourceFailure) else AsS3(outcome)
  }

  /** Every run on accepted keys gives the map's outcomes in S3's terms, with the one exception of
      `SourceFailsFirst`, and leaves the bucket representing the map. */
  lemma {:induction false} RunRefines(bucket: Bucket, blobs: BlobMap, ops: seq<Op>)
    requires Represents(bucket, blobs)
    requires forall op | op in ops :: WellFormedOp(op)
    ensures |S3Run(bucket, ops).1| == |MapRun(blobs, ops).1| == |ops|
    ensures forall i | 0 <= i < |ops| ::
              S3Run(bucket, ops).1[i] == S3Outcome(MapRun(blobs, ops[..i]).0, ops[i], MapRun(blobs, ops).1[i])
    ensures Represents(S3Run(bucket, ops).0, MapRun(blobs, ops).0)
    decreases |ops|
  {
    hide Represents, S3Step, MapStep, WellFormedOp, S3Outcome;
    if ops != [] {
      assert ops[0] in ops;
      var (bucket', blobs') := (S3Step(bucket, ops[0]).0, MapStep(blobs, ops[0]).0);
      StepRefines(bucket, blobs, ops[0]);
      StepOutcome(bucket, blobs, ops[0]);
      RunRefines(bucket', blobs', ops[1..]);
      forall i | 0 <= i < |ops|
        ensures S3Run(bucket, ops).1[i] == S3Outcome(MapRun(blobs, ops[..i]).0, ops[i], MapRun(blobs, ops).1[i])
      {
        if i == 0 {
          assert ops[..0] == [];
        } else {
          assert ops[..i][0] == ops[0] && ops[..i][1..] == ops[1..][..i - 1];
          assert S3Run(bucket, ops).1[i] == S3Run(bucket', ops[1..]).1[i - 1];
        }
      }
    }
  }

  lemma StepOutcome(bucket: Bucket, blobs: BlobMap, op: Op)
    requires StepMatches(bucket, blobs, op)
    ensures S3Step(bucket, op).1 == S3Outcome(blobs, op, MapStep(blobs, op).1)
    ensures Represents(S3Step(bucket, op).0, MapStep(blobs, op).0)
  {
    hide S3Step, MapStep, Represents, AsS3, SourceFailsFirst;
  }
}
