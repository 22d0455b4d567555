/** The blob-store port: the values its operations exchange, and the map from
    (tenant, key) to blob that both adapters are meant to implement. */
module BlobStore {
  import opened Wrappers

  type byte = x: int | 0 <= x < 256

  /** Content digests, idealised as free constructors over the hashed bytes: equal
      digests mean equal content.  The filesystem uses SHA-256, S3 its own tag. */
  datatype Etag = Sha256(content: seq<byte>) | S3Tag(content: seq<byte>)

  type UserMetadata = map<string, string>

  datatype BlobRef = BlobRef(tenant: string, key: string, etag: Etag, size: nat, contentType: Option<string>)

  datatype BlobMetadata = BlobMetadata(
    tenant: string, key: string, size: nat, etag: Etag,
    contentType: Option<string>, userMetadata: UserMetadata)

  /** What `put` is given: a buffer, or an iterator of chunks that may raise after the last one. */
  datatype Source = Buffer(data: seq<byte>) | Chunked(chunks: seq<seq<byte>>, broken: bool)

  datatype StoreError = TenantIsolation | AlreadyExists | NotFound | IoFailure | SourceFailure

  datatype Op =
    | Put(tenant: string, key: string, source: Source,
          contentType: Option<string>, userMetadata: UserMetadata, ifNoneMatch: bool)
    | Get(tenant: string, key: string)
    | Head(tenant: string, key: string)
    | Delete(tenant: string, key: string)
    | List(tenant: string, prefix: string)

  datatype Outcome =
    | Stored(ref: BlobRef)
    | Fetched(ref: BlobRef, data: seq<byte>)
    | Described(meta: BlobMetadata)
    | Absent
    | Deleted
    | Listed(refs: set<BlobRef>)
    | Failed(error: StoreError)

  function Concat(chunks: seq<seq<byte>>): seq<byte> {
    if chunks == [] then [] else Concat(chunks[..|chunks| - 1]) + chunks[|chunks| - 1]
  }

  predicate Broken(source: Source) {
    source.Chunked? && source.broken
  }

  function ContentOf(source: Source): seq<byte> {
    match source
    case Buffer(data) => data
    case Chunked(chunks, _) => Concat(chunks)
  }

  lemma ConcatStep(chunks: seq<seq<byte>>, i: nat)
    requires i < |chunks|
    ensures Concat(chunks[..i + 1]) == Concat(chunks[..i]) + chunks[i]
  {
    assert chunks[..i + 1][..i] == chunks[..i];
  }

  /** BlobData.bytes: the joined chunks of a stream. */
  method JoinChunks(chunks: seq<seq<byte>>) returns (data: seq<byte>)
    ensures data == Concat(chunks)
  {
    data := [];
    for i := 0 to |chunks|
      invariant data == Concat(chunks[..i])
    {
      data := data + chunks[i];
      ConcatStep(chunks, i);
    }
    assert chunks[..|chunks|] == chunks;
  }

  /** A stored blob, as the port's client sees it. */
  datatype Blob = Blob(data: seq<byte>, contentType: Option<string>, userMetadata: UserMetadata)

  type Id = (string, string)
  type BlobMap = map<Id, Blob>

  function RefOf(id: Id, blob: Blob): BlobRef {
    BlobRef(id.0, id.1, Sha256(blob.data), |blob.data|, blob.contentType)
  }

  function MetadataOf(id: Id, blob: Blob): BlobMetadata {
    BlobMetadata(id.0, id.1, |blob.data|, Sha256(blob.data), blob.contentType, blob.userMetadata)
  }

  /** The port's contract as one step on the map. */
  function MapStep(blobs: BlobMap, op: Op): (BlobMap, Outcome) {
    match op
    case Put(tenant, key, source, contentType, userMetadata, ifNoneMatch) =>
      var id := (tenant, key);
      var blob := Blob(ContentOf(source), contentType, userMetadata);
      if ifNoneMatch && id in blobs then (blobs, Failed(AlreadyExists))
      else if Broken(source) then (blobs, Failed(SourceFailure))
      else (blobs[id := blob], Stored(RefOf(id, blob)))
    case Get(tenant, key) =>
      var id := (tenant, key);
      if id !in blobs then (blobs, Failed(NotFound))
      else (blobs, Fetched(RefOf(id, blobs[id]), blobs[id].data))
    case Head(tenant, key) =>
      var id := (tenant, key);
      if id !in blobs then (blobs, Absent) else (blobs, Described(MetadataOf(id, blobs[id])))
    case Delete(tenant, key) =>
      (blobs - {(tenant, key)}, Deleted)
    case List(tenant, prefix) =>
      (blobs, Listed(set id | id in blobs && id.0 == tenant && prefix <= id.1 :: RefOf(id, blobs[id])))
  }

  function MapRun(blobs: BlobMap, ops: seq<Op>): (BlobMap, seq<Outcome>)
    decreases |ops|
  {
    if ops == [] then (blobs, [])
    else
      var (blobs', outcome) := MapStep(blobs, ops[0]);
      var (final, rest) := MapRun(blobs', ops[1..]);
      (final, [outcome] + rest)
  }
}
