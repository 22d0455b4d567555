/** What an S3 store holds and reports after a run, in the caller's own terms: object names, content types,
    and refusals. */
module S3Contents {
  import opened Wrappers
  import opened BlobStore
  import opened S3Adapter
  import opened S3Refinement

  /** What S3 keeps of a content type: a nonempty one is sent, `None` and the empty one are not. */
  function Reported(contentType: Option<string>): Option<string> {
    match contentType
    case None => None
    case Some(c) => if c == "" then None else Some(c)
  }

  /** After every run on accepted keys, get and head of a stored key report the bytes and the user metadata
      of its last successful put, the content type if that put gave a nonempty one, and the tag and size of
      the bytes. */
  lemma LastPutIsReported(ops: seq<Op>, id: Id)
    requires forall op | op in ops :: WellFormedOp(op)
    requires id in MapRun(map[], ops).0
    ensures var (bucket, blob) := (S3Run(map[], ops).0, MapRun(map[], ops).0[id]);
            && S3Step(bucket, Get(id.0, id.1)).1 ==
               Fetched(BlobRef(id.0, id.1, S3Tag(blob.data), |blob.data|, Reported(blob.contentType)), blob.data)
            && S3Step(bucket, Head(id.0, id.1)).1 ==
               Described(BlobMetadata(id.0, id.1, |blob.data|, S3Tag(blob.data), Reported(blob.contentType), blob.userMetadata))
  {
    hide S3Run, MapRun;
    RunRefines(map[], map[], ops);
    StoredObject(S3Run(map[], ops).0, MapRun(map[], ops).0, id);
    hide Represents, WellFormedOp;
  }

  lemma StoredObject(bucket: Bucket, blobs: BlobMap, id: Id)
    requires Represents(bucket, blobs) && id in blobs
    ensures var blob := blobs[id];
            && ObjectKey(id.0, id.1).Ok? && ObjectKey(id.0, id.1).value in bucket
            && bucket[ObjectKey(id.0, id.1).value] == Object(blob.data, Reported(blob.contentType), blob.userMetadata)
  {
    assert Accepted(id) && KeyOf(id) in bucket;
  }

  /** Which tenants and keys are refused: less than on the filesystem, `.` and `..` are names like others. */
  predicate Refused(tenant: string, key: string) {
    tenant == "" || '/' in tenant || (key != "" && key[0] == '/')
  }

  /** Object names are the tenant, a slash and the key; exactly the refused ones have none. */
  lemma ObjectNames(tenant: string, key: string)
    ensures ObjectKey(tenant, key) == if Refused(tenant, key) then Err(TenantIsolation) else Ok(tenant + "/" + key)
  {
  }

  predicate OnKey(op: Op, tenant: string, key: string) {
    match op
    case Put(t, k, _, _, _, _) => t == tenant && k == key
    case Get(t, k) => t == tenant && k == key
    case Head(t, k) => t == tenant && k == key
    case Delete(t, k) => t == tenant && k == key
    case List(_, _) => false
  }

  /** In any bucket: exactly the refused tenants and keys raise `TenantIsolationError`, in every operation on
      a key, and a refused operation leaves the bucket alone. */
  lemma KeyOperationsRefuseIff(bucket: Bucket, op: Op, tenant: string, key: string)
    requires OnKey(op, tenant, key)
    ensures S3Step(bucket, op).1 == Failed(TenantIsolation) <==> Refused(tenant, key)
    ensures Refused(tenant, key) ==> S3Step(bucket, op).0 == bucket
  {
    ObjectNames(tenant, key);
    hide ObjectKey, Concat;
  }

  /** `list` refuses only a prefix that is not empty, for a tenant or prefix that is refused. */
  lemma ListRefusesIff(bucket: Bucket, tenant: string, prefix: string)
    ensures S3Step(bucket, List(tenant, prefix)).1 == Failed(TenantIsolation) <==>
              prefix != "" && Refused(tenant, prefix)
  {
    ObjectNames(tenant, prefix);
    hide ObjectKey;
    forall k | FullPrefix(tenant, prefix).Ok? && k in Matching(bucket, FullPrefix(tenant, prefix).value)
      ensures ObjectRef(bucket, tenant, k).Ok?
    {
      ListedKeysStrip(bucket, tenant, prefix, k);
    }
  }

  /** A put over an empty bucket leaves one object, under the tenant, a slash and the key. */
  lemma PutStoresUnderTenant(tenant: string, key: string, data: seq<byte>, contentType: Option<string>,
                             userMetadata: UserMetadata)
    requires !Refused(tenant, key)
    ensures S3Step(map[], Op.Put(tenant, key, Buffer(data), contentType, userMetadata, true)) ==
            (map[tenant + "/" + key := Object(data, Reported(contentType), userMetadata)],
             Stored(BlobRef(tenant, key, S3Tag(data), |data|, contentType)))
  {
    ObjectNames(tenant, key);
  }

  /** In any bucket: what a put has stored, get and head answer. */
  lemma StoredIsRead(bucket: Bucket, op: Op)
    requires op.Put? && S3Step(bucket, op).1.Stored?
    ensures var (after, data) := (S3Step(bucket, op).0, ContentOf(op.source));
            && S3Step(bucket, op).1 == Stored(BlobRef(op.tenant, op.key, S3Tag(data), |data|, op.contentType))
            && S3Step(after, Get(op.tenant, op.key)).1 ==
               Fetched(BlobRef(op.tenant, op.key, S3Tag(data), |data|, Reported(op.contentType)), data)
            && S3Step(after, Head(op.tenant, op.key)).1 ==
               Described(BlobMetadata(op.tenant, op.key, |data|, S3Tag(data), Reported(op.contentType), op.userMetadata))
  {
    hide ObjectKey;
  }

  /** After a delete, nothing is there. */
  lemma DeletedIsGone(bucket: Bucket, tenant: string, key: string)
    requires S3Step(bucket, Delete(tenant, key)).1 == Deleted
    ensures var after := S3Step(bucket, Delete(tenant, key)).0;
            && S3Step(after, Get(tenant, key)).1 == Failed(NotFound) && S3Step(after, Head(tenant, key)).1 == Absent
  {
    hide ObjectKey;
  }
}
