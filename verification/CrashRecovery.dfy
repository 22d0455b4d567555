/** What survives a crash in the middle of a put, and why a sidecar on disk can be trusted
    after a run without crashes. */
module CrashRecovery {
  import opened Wrappers
  import opened BlobStore
  import opened FileTree
  import opened FilesystemAdapter
  import opened FilesystemRefinement

  lemma SuffixesDropped(before: map<Path, Content>, now: map<Path, Content>, p: Path, c: Content, c': Content)
    requires p != []
    requires TmpPath(p) !in before
    requires forall q | q !in {p, TmpPath(p), MetaPath(p)} ::
               (q in before <==> q in now) && (q in before ==> before[q] == now[q])
    ensures (now - {TmpPath(p)})[p := c][MetaPath(p) := c'] == (before - {TmpPath(p)})[p := c][MetaPath(p) := c']
  {
    PutPathsDiffer(p);
    hide TmpPath, MetaPath;
  }

  /** Repeating a put after a crash leaves exactly the tree an uninterrupted put would have left. */
  lemma RetryAfterCrash(before: Tree, now: Tree, p: Path, data: seq<byte>, sidecar: Sidecar,
                        tenant: string, key: string, source: Source,
                        contentType: Option<string>, userMetadata: UserMetadata)
    requires p != [] && TmpPath(p) !in before.files
    requires CrashPoint(before, now, p, data, sidecar)
    requires WriteBlob(before, p, tenant, key, source, contentType, userMetadata).1.Stored?
    ensures WriteBlob(now, p, tenant, key, source, contentType, userMetadata) ==
            WriteBlob(before, p, tenant, key, source, contentType, userMetadata)
  {
    PutPathsDiffer(p);
    forall q | q in Prefixes(Parent(p))
      ensures q !in now.files
    {
      PrefixOf(Parent(p), q);
      assert |q| < |p| == |TmpPath(p)| == |MetaPath(p)|;
      assert q !in before.files;
      assert SameFile(before, now, q);
    }
    assert MakeDirs(now, Parent(p)) == Ok(now);
    var made := MakeDirs(before, Parent(p)).value;
    assert made.dirs == now.dirs;
    forall q | q !in {p, TmpPath(p), MetaPath(p)}
      ensures (q in before.files <==> q in now.files) && (q in before.files ==> before.files[q] == now.files[q])
    {
      assert SameFile(before, now, q);
    }
    hide Prefixes, MakeDirs, TmpPath, MetaPath, SameFile, CrashPoint;
    SuffixesDropped(before.files, now.files, p,
                    Bytes(ContentOf(source)), Json(SidecarFor(ContentOf(source), contentType, userMetadata)));
  }

  /** A crash during a put leaves every other disciplined blob held. */
  lemma CrashKeepsOthers(before: Tree, now: Tree, keys: set<Id>, id: Id, other: Id, blob: Blob,
                         data: seq<byte>, sidecar: Sidecar)
    requires Disciplined(keys) && id in keys && other in keys && other != id
    requires Holds(before, PathOf(other), blob)
    requires CrashPoint(before, now, PathOf(id), data, sidecar)
    ensures Holds(now, PathOf(other), blob)
  {
    hide PathOf, TmpPath, MetaPath, Disciplined;
    DistinctKeys(keys, other, id);
    NotTmp(keys, other, id);
    assert SameFile(before, now, PathOf(other)) && SameFile(before, now, MetaPath(PathOf(other)));
  }

  /** Atomicity of a put, at every state it passes through and whatever the store held before: its own
      blob is unchanged, absent included, or complete and new, with its sidecar unchanged until then; the
      blob and the sidecar of every other disciplined key are unchanged. */
  lemma PutIsAtomic(before: Tree, now: Tree, keys: set<Id>, id: Id, other: Id, source: Source, sidecar: Sidecar)
    requires Disciplined(keys) && id in keys && other in keys && other != id
    requires PutState(before, now, PathOf(id), source, sidecar)
    ensures AllOrNothing(before, now, PathOf(id), ContentOf(source))
    ensures SameFile(before, now, MetaPath(PathOf(id)))
            || (PathOf(id) in now.files && now.files[PathOf(id)] == Bytes(ContentOf(source)))
    ensures SameFile(before, now, PathOf(other)) && SameFile(before, now, MetaPath(PathOf(other)))
  {
    hide PathOf, TmpPath, MetaPath, Disciplined, PutState, SameFile;
    PutStateIsCrashPoint(before, now, PathOf(id), source, sidecar);
    DistinctKeys(keys, other, id);
    NotTmp(keys, other, id);
  }

  lemma NotTmp(keys: set<Id>, a: Id, b: Id)
    requires Disciplined(keys) && a in keys && b in keys
    ensures PathOf(a) != TmpPath(PathOf(b)) && MetaPath(PathOf(a)) != TmpPath(PathOf(b))
  {
    hide PathOf, TmpPath, MetaPath, ValidId;
    assert !Clash(PathOf(b), PathOf(a));
    TmpIsNotMeta(PathOf(b), PathOf(a));
  }

  /** A crashed put on disciplined keys is healed by any later successful put of the same key. */
  lemma CrashedPutHeals(before: Tree, now: Tree, keys: set<Id>, blobs: BlobMap, op: Op, crashed: Op)
    requires Disciplined(keys) && Represents(before, keys, blobs) && Within(keys, op)
    requires op.Put? && !op.ifNoneMatch && !Broken(op.source)
    requires crashed.Put? && crashed.tenant == op.tenant && crashed.key == op.key
    requires CrashPoint(before, now, PathOf((op.tenant, op.key)), ContentOf(crashed.source),
                        SidecarFor(ContentOf(crashed.source), crashed.contentType, crashed.userMetadata))
    ensures FsStep(now, op).1 == MapStep(blobs, op).1
    ensures Represents(FsStep(now, op).0, keys, MapStep(blobs, op).0)
  {
    var id := (op.tenant, op.key);
    KeyIsValid(keys, id);
    ResolveValid(id);
    hide PathOf, TmpPath, MetaPath, Disciplined, Represents, ValidId, Resolve, WriteBlob, CrashPoint, FsStep;
    PutStep(before, op, PathOf(id));
    PutStep(now, op, PathOf(id));
    PutRefines(before, keys, blobs, op);
    PathsOfKey(before, keys, blobs, id);
    RetryAfterCrash(before, now, PathOf(id), ContentOf(crashed.source),
                    SidecarFor(ContentOf(crashed.source), crashed.contentType, crashed.userMetadata),
                    op.tenant, op.key, op.source, op.contentType, op.userMetadata);
  }

  /** The metadata of `p` has the size and digest of its bytes, with its sidecar and without it. */
  ghost predicate SidecarAgrees(t: Tree, p: Path)
    requires p != []
  {
    if p !in t.files then MetaPath(p) !in t.files
    else
      && t.files[p].Bytes?
      && var (loaded, recomputed) := (LoadMeta(t, p, "", ""), LoadMeta(Unlink(t, MetaPath(p)), p, "", ""));
      && loaded.Ok? && recomputed.Ok?
      && loaded.value.etag == recomputed.value.etag == Sha256(t.files[p].data)
      && loaded.value.size == recomputed.value.size == |t.files[p].data|
  }

  lemma HeldSidecarAgrees(t: Tree, p: Path, blob: Blob)
    requires p != [] && Holds(t, p, blob) && MetaPath(p) !in t.dirs
    ensures SidecarAgrees(t, p)
  {
    PutPathsDiffer(p);
    hide MetaPath;
  }

  /** After any run without crashes, every sidecar agrees with the bytes beside it. */
  lemma SidecarsAgree(keys: set<Id>, ops: seq<Op>, id: Id)
    requires Disciplined(keys) && id in keys && forall op | op in ops :: Within(keys, op)
    ensures SidecarAgrees(FsRun(EMPTY_TREE, ops).0, PathOf(id))
  {
    EmptyTreeRepresents(keys);
    RunRefines(EMPTY_TREE, keys, map[], ops);
    hide PathOf, MetaPath, TmpPath, Disciplined, Represents, FsRun, MapRun, Holds, LoadMeta;
    var t, blobs := FsRun(EMPTY_TREE, ops).0, MapRun(map[], ops).0;
    PathsOfKey(t, keys, blobs, id);
    if id in blobs {
      HeldBlob(t, keys, blobs, id);
      HeldSidecarAgrees(t, PathOf(id), blobs[id]);
    }
  }
}
