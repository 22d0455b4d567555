/** What the other operations do on the disk that a crashed put leaves behind, phase by phase: reads of the
    same key, of other keys, a delete, and the next put, conditional or not. */
module CrashOperations {
  import opened Wrappers
  import opened BlobStore
  import opened FileTree
  import opened FilesystemAdapter
  import opened FilesystemRefinement
  import opened CrashRecovery
  import opened CrashListing

  /** The disk after a put of `blob` to `id` has stopped at `phase`. */
  ghost function CrashedTree(made: Tree, id: Id, blob: Blob, phase: Phase): Tree {
    StateAt(made, PathOf(id), blob.data, SidecarFor(blob.data, blob.contentType, blob.userMetadata), phase)
  }

  /** A tree with the directories of a put to `id`, in which nothing is in its way. */
  ghost predicate Ready(made: Tree, keys: set<Id>, blobs: BlobMap, id: Id) {
    Disciplined(keys) && Represents(made, keys, blobs) && id in keys && WayIsClear(made, PathOf(id))
  }

  /** Every crash point of a put on disciplined keys is one of these trees. */
  lemma CrashedTreesAreAll(before: Tree, now: Tree, keys: set<Id>, blobs: BlobMap, id: Id, source: Source, blob: Blob)
    requires Disciplined(keys) && Represents(before, keys, blobs) && id in keys && blob.data == ContentOf(source)
    requires PutState(before, now, PathOf(id), source, SidecarFor(blob.data, blob.contentType, blob.userMetadata))
    ensures exists made, phase :: Ready(made, keys, blobs, id) && now == CrashedTree(made, id, blob, phase)
  {
    hide PathOf, MakeDirs, StateAt, Disciplined, Represents, WayIsClear, Reachable;
    PutClearsTheWay(before, keys, blobs, id);
    var made := MakeDirs(before, Parent(PathOf(id))).value;
    var phase :| Reachable(phase, source)
                 && now == StateAt(made, PathOf(id), ContentOf(source),
                                   SidecarFor(blob.data, blob.contentType, blob.userMetadata), phase);
    assert Ready(made, keys, blobs, id) && now == CrashedTree(made, id, blob, phase);
  }

  // --- Reads ---------------------------------------------------------

  /** What get and head answer: what was there until the rename; then the new bytes under the old sidecar's
      size, tag and metadata, or without metadata where there was no sidecar; a failure at the empty
      sidecar; and at last the new blob. */
  ghost function ReadingAt(made: Tree, blobs: BlobMap, id: Id, blob: Blob, phase: Phase, op: Op): Outcome {
    match phase
    case DirectoriesMade => MapStep(blobs, op).1
    case Staging(_) => MapStep(blobs, op).1
    case CleanedUp => MapStep(blobs, op).1
    case Renamed =>
      if id in blobs && MetaPath(PathOf(id)) in made.files then
        if op.Get? then Fetched(RefOf(id, blobs[id]), blob.data) else Described(MetadataOf(id, blobs[id]))
      else MapStep(blobs[id := Blob(blob.data, None, map[])], op).1
    case SidecarOpened => Failed(IoFailure)
    case SidecarWritten => MapStep(blobs[id := blob], op).1
  }

  ghost predicate Reads(op: Op, id: Id) {
    (op.Get? && id == (op.tenant, op.key)) || (op.Head? && id == (op.tenant, op.key))
  }

  lemma ReadsWithin(keys: set<Id>, op: Op, id: Id)
    requires id in keys && Reads(op, id)
    ensures Within(keys, op)
  {
  }

  lemma ResolvesTo(keys: set<Id>, id: Id)
    requires Disciplined(keys) && id in keys
    ensures Resolve(id.0, id.1) == Ok(PathOf(id))
  {
    hide PathOf, Disciplined;
    KeyIsValid(keys, id);
    ResolveValid(id);
  }

  /** Get and head depend on the blob's file, its sidecar and the directories only. */
  lemma SameReading(t: Tree, t': Tree, keys: set<Id>, op: Op, id: Id)
    requires Disciplined(keys) && id in keys && Reads(op, id) && t'.dirs == t.dirs
    requires SameFile(t, t', PathOf(id)) && SameFile(t, t', MetaPath(PathOf(id)))
    ensures FsStep(t', op).1 == FsStep(t, op).1 && FsStep(t', op).0 == t'
  {
    ResolvesTo(keys, id);
    hide PathOf, MetaPath, Disciplined, Resolve;
  }

  lemma ReadStored(t: Tree, keys: set<Id>, id: Id, op: Op, meta: BlobMetadata, data: seq<byte>)
    requires Disciplined(keys) && id in keys && Reads(op, id)
    requires PathOf(id) in t.files && t.files[PathOf(id)] == Bytes(data)
    requires LoadMeta(t, PathOf(id), id.0, id.1) == Ok(meta)
    ensures FsStep(t, op).1 == if op.Get? then Fetched(RefFrom(meta), data) else Described(meta)
  {
    hide PathOf, MetaPath, Disciplined, Resolve, LoadMeta;
    ResolvesTo(keys, id);
  }

  lemma SidecarDecides(t: Tree, t': Tree, p: Path, tenant: string, key: string)
    requires p != [] && MetaPath(p) in t.files && SameFile(t, t', MetaPath(p))
    ensures LoadMeta(t', p, tenant, key) == LoadMeta(t, p, tenant, key)
  {
    hide MetaPath;
  }

  lemma ReadOldSidecar(made: Tree, keys: set<Id>, blobs: BlobMap, id: Id, blob: Blob, op: Op)
    requires Ready(made, keys, blobs, id) && Reads(op, id) && id in blobs && MetaPath(PathOf(id)) in made.files
    ensures FsStep(WriteContent(made, PathOf(id), Bytes(blob.data)), op).1 == ReadingAt(made, blobs, id, blob, Renamed, op)
  {
    hide PathOf, MetaPath, TmpPath, Disciplined, Represents, WayIsClear, LoadMeta, FsStep, Reads;
    var p, t' := PathOf(id), WriteContent(made, PathOf(id), Bytes(blob.data));
    LoadedMeta(made, keys, blobs, id);
    PutPathsDiffer(p);
    SidecarDecides(made, t', p, id.0, id.1);
    ReadStored(t', keys, id, op, MetadataOf(id, blobs[id]), blob.data);
  }

  lemma ReadTruncated(made: Tree, keys: set<Id>, id: Id, data: seq<byte>, op: Op)
    requires Disciplined(keys) && id in keys && Reads(op, id)
    ensures FsStep(Truncated(made, PathOf(id), data), op).1 == Failed(IoFailure)
  {
    ResolvesTo(keys, id);
    PutPathsDiffer(PathOf(id));
    hide PathOf, MetaPath, TmpPath, Disciplined, Resolve;
  }

  lemma ReadsNeverWrite(t: Tree, op: Op)
    requires op.Get? || op.Head?
    ensures FsStep(t, op).0 == t
  {
  }

  /** Reading a key at every crash point of a put to it. */
  lemma ReadAfterCrash(made: Tree, keys: set<Id>, blobs: BlobMap, id: Id, blob: Blob, phase: Phase, op: Op)
    requires Ready(made, keys, blobs, id) && Reads(op, id)
    ensures FsStep(CrashedTree(made, id, blob, phase), op) ==
            (CrashedTree(made, id, blob, phase), ReadingAt(made, blobs, id, blob, phase, op))
  {
    hide PathOf, MetaPath, TmpPath, Disciplined, Represents, FsStep, MapStep, Within;
    var p, now := PathOf(id), CrashedTree(made, id, blob, phase);
    ReadsNeverWrite(now, op);
    ReadsWithin(keys, op, id);
    ReadsRefine(made, keys, blobs, op);
    PutPathsDiffer(p);
    assert Unlink(made, TmpPath(p)) == made;
    match phase
    case DirectoriesMade =>
    case CleanedUp =>
    case Staging(_) => SameReading(made, now, keys, op, id);
    case Renamed =>
      PathsOfKey(made, keys, blobs, id);
      if MetaPath(p) in made.files {
        ReadOldSidecar(made, keys, blobs, id, blob, op);
      } else {
        BareRepresents(made, keys, blobs, id, blob.data);
        ReadsRefine(now, keys, blobs[id := Blob(blob.data, None, map[])], op);
      }
    case SidecarOpened => ReadTruncated(made, keys, id, blob.data, op);
    case SidecarWritten =>
      StoredRepresents(made, keys, blobs, id, blob);
      ReadsRefine(now, keys, blobs[id := blob], op);
  }

  lemma CrashTouchesThree(made: Tree, id: Id, blob: Blob, phase: Phase, q: Path)
    requires q !in {PathOf(id), MetaPath(PathOf(id)), TmpPath(PathOf(id))}
    ensures SameFile(made, CrashedTree(made, id, blob, phase), q) && CrashedTree(made, id, blob, phase).dirs == made.dirs
  {
    hide PathOf, MetaPath, TmpPath;
  }

  /** Reading any other key answers what it answered before, at every crash point. */
  lemma OthersReadAfterCrash(made: Tree, keys: set<Id>, blobs: BlobMap, id: Id, blob: Blob, phase: Phase,
                             op: Op, other: Id)
    requires Ready(made, keys, blobs, id) && other in keys && other != id && Reads(op, other)
    ensures FsStep(CrashedTree(made, id, blob, phase), op) == (CrashedTree(made, id, blob, phase), MapStep(blobs, op).1)
  {
    hide PathOf, MetaPath, TmpPath, Disciplined, Represents, FsStep, MapStep, Within, SameFile, CrashedTree;
    var q := PathOf(other);
    ReadsWithin(keys, op, other);
    ReadsRefine(made, keys, blobs, op);
    DistinctKeys(keys, other, id);
    NotTmp(keys, other, id);
    CrashTouchesThree(made, id, blob, phase, q);
    CrashTouchesThree(made, id, blob, phase, MetaPath(q));
    SameReading(made, CrashedTree(made, id, blob, phase), keys, op, other);
  }

  // --- Delete --------------------------------------------------------

  function WithoutBlob(made: Tree, p: Path): Tree
    requires p != []
  {
    made.(files := made.files - {p, MetaPath(p)})
  }

  /** What a delete of the key leaves of a crashed put: the temporary file, when there is one. */
  function Leftover(phase: Phase): Phase {
    if phase.Staging? then phase else DirectoriesMade
  }

  /** A delete succeeds at every crash point and removes blob and sidecar, the empty one included, so that
      the key is absent again; a leftover temporary file stays, and stays listed. */
  lemma DeleteAfterCrash(made: Tree, keys: set<Id>, blobs: BlobMap, id: Id, blob: Blob, phase: Phase)
    requires Ready(made, keys, blobs, id)
    ensures var made' := WithoutBlob(made, PathOf(id));
            && Ready(made', keys, blobs - {id}, id)
            && FsStep(CrashedTree(made, id, blob, phase), Delete(id.0, id.1)) ==
               (CrashedTree(made', id, blob, Leftover(phase)), Deleted)
  {
    hide PathOf, Disciplined, Represents, Resolve;
    var p := PathOf(id);
    DeletedRepresents(made, keys, blobs, id);
    ResolvesTo(keys, id);
    ClearAfterDelete(made, p);
    hide WayIsClear;
    DeleteAtPhase(made, p, blob, phase);
    assert WayIsClear(made, p) && Represents(WithoutBlob(made, p), keys, blobs - {id});
    hide DeleteBlob;
  }

  lemma ClearAfterDelete(made: Tree, p: Path)
    requires p != [] && WayIsClear(made, p)
    ensures WayIsClear(WithoutBlob(made, p), p)
  {
  }

  lemma DeleteAtPhase(made: Tree, p: Path, blob: Blob, phase: Phase)
    requires p != [] && WayIsClear(made, p)
    ensures var sidecar := SidecarFor(blob.data, blob.contentType, blob.userMetadata);
            DeleteBlob(StateAt(made, p, blob.data, sidecar, phase), p) ==
            (StateAt(WithoutBlob(made, p), p, blob.data, sidecar, Leftover(phase)), Deleted)
  {
    PutPathsDiffer(p);
    hide MetaPath, TmpPath;
    var sidecar := SidecarFor(blob.data, blob.contentType, blob.userMetadata);
    var now := StateAt(made, p, blob.data, sidecar, phase);
    assert Unlink(made, TmpPath(p)) == made;
    assert Unlink(Unlink(now, p), MetaPath(p)).files ==
           StateAt(WithoutBlob(made, p), p, blob.data, sidecar, Leftover(phase)).files;
  }

  /** The listing after the crash and the delete. */
  lemma ListAfterCrashAndDelete(made: Tree, keys: set<Id>, blobs: BlobMap, id: Id, blob: Blob, phase: Phase,
                                tenant: string, prefix: string)
    requires Ready(made, keys, blobs, id) && Within(keys, List(tenant, prefix))
    ensures ListBlobs(FsStep(CrashedTree(made, id, blob, phase), Delete(id.0, id.1)).0, tenant, prefix) ==
            ListingAt(WithoutBlob(made, PathOf(id)), blobs - {id}, id, blob, Leftover(phase), tenant, prefix)
  {
    DeleteAfterCrash(made, keys, blobs, id, blob, phase);
    hide FsStep, ListBlobs, ListingAt, PathOf, Disciplined, Represents, WayIsClear, StateAt, Within, WithoutBlob;
    ListAtPhase(WithoutBlob(made, PathOf(id)), keys, blobs - {id}, id, blob, Leftover(phase), tenant, prefix);
  }

  // --- The next put --------------------------------------------------

  /** Whether a conditional put finds the key taken. */
  predicate Taken(blobs: BlobMap, id: Id, phase: Phase) {
    id in blobs || phase.Renamed? || phase.SidecarOpened? || phase.SidecarWritten?
  }

  ghost predicate PutsTo(op: Op, id: Id) {
    op.Put? && id == (op.tenant, op.key)
  }

  /** A put to the key at every crash point.  A conditional one is refused as soon as the crashed put has
      renamed its file, even if the sidecar is empty, so that it never repairs it.  A failing source removes
      a leftover temporary file and nothing else.  Every other put heals: it has the map's outcome, and the
      tree represents the map again. */
  lemma PutAfterCrash(made: Tree, keys: set<Id>, blobs: BlobMap, id: Id, blob: Blob, phase: Phase, op: Op)
    requires Ready(made, keys, blobs, id) && PutsTo(op, id)
    ensures var now := CrashedTree(made, id, blob, phase);
            var (after, outcome) := FsStep(now, op);
            var stored := Blob(ContentOf(op.source), op.contentType, op.userMetadata);
            if op.ifNoneMatch && Taken(blobs, id, phase) then after == now && outcome == Failed(AlreadyExists)
            else if Broken(op.source) then
              after == CrashedTree(made, id, blob, if phase.Staging? then CleanedUp else phase)
              && outcome == Failed(SourceFailure)
            else
              Represents(after, keys, blobs[id := stored]) && outcome == Stored(RefOf(id, stored))
  {
    hide PathOf, MetaPath, TmpPath, Disciplined, Represents, Resolve, FsStep, WriteBlob, CrashedTree;
    var p, now := PathOf(id), CrashedTree(made, id, blob, phase);
    ResolvesTo(keys, id);
    PutStep(now, op, p);
    ExistsAfterCrash(made, keys, blobs, id, blob, phase);
    if !(op.ifNoneMatch && Taken(blobs, id, phase)) {
      RepresentsWellFormed(made, keys, blobs);
      WriteAfterCrash(made, id, blob, phase, op);
      if !Broken(op.source) {
        StoredRepresents(made, keys, blobs, id, Blob(ContentOf(op.source), op.contentType, op.userMetadata));
      }
    }
  }

  lemma ExistsAfterCrash(made: Tree, keys: set<Id>, blobs: BlobMap, id: Id, blob: Blob, phase: Phase)
    requires Ready(made, keys, blobs, id)
    ensures Exists(CrashedTree(made, id, blob, phase), PathOf(id)) <==> Taken(blobs, id, phase)
  {
    hide PathOf, MetaPath, TmpPath, Disciplined, Represents;
    PutPathsDiffer(PathOf(id));
    PathsOfKey(made, keys, blobs, id);
  }

  /** The directories of a put that has begun are all there. */
  lemma DirectoriesStay(made: Tree, p: Path, q: Path)
    requires WellFormed(made) && p != [] && Parent(p) in made.dirs && q in Prefixes(Parent(p))
    ensures q in made.dirs && q !in made.files && |q| < |p|
  {
    PrefixOf(Parent(p), q);
    if q != Parent(p) {
      AncestorsAreDirs(made, Parent(p), q);
    }
  }

  lemma MakeDirsAgain(made: Tree, id: Id, blob: Blob, phase: Phase)
    requires WellFormed(made) && Parent(PathOf(id)) in made.dirs
    ensures var now := CrashedTree(made, id, blob, phase); MakeDirs(now, Parent(PathOf(id))) == Ok(now)
  {
    hide PathOf, WellFormed, Prefixes, StateAt;
    var p, now := PathOf(id), CrashedTree(made, id, blob, phase);
    DirectoriesOnly(made, id, blob, phase);
    forall q | q in Prefixes(Parent(p))
      ensures q in now.dirs && q !in now.files
    {
      DirectoriesStay(made, p, q);
      SuffixesKeepLength(p);
      CrashTouchesThree(made, id, blob, phase, q);
    }
    assert now.dirs + Prefixes(Parent(p)) == now.dirs;
  }

  lemma DirectoriesOnly(made: Tree, id: Id, blob: Blob, phase: Phase)
    ensures CrashedTree(made, id, blob, phase).dirs == made.dirs
  {
  }

  lemma SuffixesKeepLength(p: Path)
    requires p != []
    ensures |TmpPath(p)| == |p| && |MetaPath(p)| == |p|
  {
  }

  /** The writing part of a put over a crashed one does what it does over the tree without the crash, except
      that a failing source leaves what the crash had stored under the key. */
  lemma WriteAfterCrash(made: Tree, id: Id, blob: Blob, phase: Phase, op: Op)
    requires op.Put? && WellFormed(made) && WayIsClear(made, PathOf(id))
    ensures var (p, data) := (PathOf(id), ContentOf(op.source));
            var sidecar := SidecarFor(data, op.contentType, op.userMetadata);
            WriteBlob(CrashedTree(made, id, blob, phase), p, op.tenant, op.key, op.source, op.contentType, op.userMetadata) ==
            if Broken(op.source) then
              (CrashedTree(made, id, blob, if phase.Staging? then CleanedUp else phase), Failed(SourceFailure))
            else
              (made.(files := made.files[p := Bytes(data)][MetaPath(p) := Json(sidecar)]),
               Stored(BlobRef(op.tenant, op.key, Sha256(data), |data|, op.contentType)))
  {
    hide PathOf, WellFormed, MakeDirs, MetaPath, TmpPath, ContentOf;
    MakeDirsAgain(made, id, blob, phase);
    WriteOver(made, PathOf(id), blob.data, SidecarFor(blob.data, blob.contentType, blob.userMetadata), phase, op);
  }

  lemma WriteOver(made: Tree, p: Path, data0: seq<byte>, sidecar0: Sidecar, phase: Phase, op: Op)
    requires op.Put? && p != [] && WayIsClear(made, p)
    requires var now := StateAt(made, p, data0, sidecar0, phase); MakeDirs(now, Parent(p)) == Ok(now)
    ensures var (now, data) := (StateAt(made, p, data0, sidecar0, phase), ContentOf(op.source));
            var sidecar := SidecarFor(data, op.contentType, op.userMetadata);
            WriteBlob(now, p, op.tenant, op.key, op.source, op.contentType, op.userMetadata) ==
            if Broken(op.source) then
              (StateAt(made, p, data0, sidecar0, if phase.Staging? then CleanedUp else phase), Failed(SourceFailure))
            else
              (made.(files := made.files[p := Bytes(data)][MetaPath(p) := Json(sidecar)]),
               Stored(BlobRef(op.tenant, op.key, Sha256(data), |data|, op.contentType)))
  {
    hide MakeDirs, MetaPath, TmpPath, ContentOf;
    PutPathsDiffer(p);
    var now, data := StateAt(made, p, data0, sidecar0, phase), ContentOf(op.source);
    var sidecar := SidecarFor(data, op.contentType, op.userMetadata);
    assert Unlink(made, TmpPath(p)) == made;
    assert Unlink(now, TmpPath(p)) == StateAt(made, p, data0, sidecar0, if phase.Staging? then CleanedUp else phase);
    assert Unlink(now, TmpPath(p)).files[p := Bytes(data)][MetaPath(p) := Json(sidecar)] ==
           made.files[p := Bytes(data)][MetaPath(p) := Json(sidecar)];
  }
}
