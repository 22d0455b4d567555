/** The filesystem adapter: the effect of each operation on the file tree, and the
    adapter object that performs it call by call. */
module FilesystemAdapter {
  import opened Wrappers
  import opened Text
  import opened BlobStore
  import opened FileTree

  const CHUNK_SIZE: nat := 1024 * 1024
  const META_SUFFIX := ".meta.json"
  const TMP_SUFFIX := ".tmp"

  // --- Paths ---------------------------------------------------------

  function DropEmptyAndDot(parts: seq<string>): Path {
    if parts == [] then []
    else
      var rest := DropEmptyAndDot(parts[1..]);
      if parts[0] == "" || parts[0] == "." then rest else [parts[0]] + rest
  }

  /** PurePosixPath(key).parts of a relative key. */
  function Parts(key: string): Path {
    DropEmptyAndDot(Split(key, '/'))
  }

  predicate ValidTenant(tenant: string) {
    tenant != "" && '/' !in tenant && tenant != "." && tenant != ".."
  }

  predicate Escapes(key: string) {
    StartsWith(key, "/") || ".." in Parts(key)
  }

  function Resolve(tenant: string, key: string): (r: Result<Path, StoreError>)
    ensures r.Ok? ==> r.value != []
  {
    if !ValidTenant(tenant) || Escapes(key) then Err(TenantIsolation)
    else Ok([tenant] + Parts(key))
  }

  function MetaPath(p: Path): Path
    requires p != []
  {
    WithSuffix(p, META_SUFFIX)
  }

  function TmpPath(p: Path): Path
    requires p != []
  {
    WithSuffix(p, TMP_SUFFIX)
  }

  // --- Effects of the operations -------------------------------------

  function SidecarFor(data: seq<byte>, contentType: Option<string>, userMetadata: UserMetadata): Sidecar {
    Sidecar(contentType, userMetadata, Sha256(data), |data|)
  }

  /** Metadata of an existing path: its sidecar when there is one, else recomputed from the bytes. */
  function LoadMeta(t: Tree, p: Path, tenant: string, key: string): Result<BlobMetadata, StoreError>
    requires p != []
  {
    var m := MetaPath(p);
    if Exists(t, m) then
      if m in t.files && t.files[m].Json? then
        var s := t.files[m].meta;
        Ok(BlobMetadata(tenant, key, s.size, s.etag, s.contentType, s.userMetadata))
      else Err(IoFailure)
    else if p in t.files && t.files[p].Bytes? then
      var data := t.files[p].data;
      Ok(BlobMetadata(tenant, key, |data|, Sha256(data), None, map[]))
    else Err(IoFailure)
  }

  function RefFrom(meta: BlobMetadata): BlobRef {
    BlobRef(meta.tenant, meta.key, meta.etag, meta.size, meta.contentType)
  }

  /** Writes the source to the temporary file and moves it over `p`; cleans up on failure. */
  function SwapIn(t: Tree, p: Path, source: Source): (Tree, Option<StoreError>)
    requires p != []
  {
    var tmp := TmpPath(p);
    if OpenTruncating(t, tmp).Err? then (t, Some(IoFailure))
    else if Broken(source) then (Unlink(t, tmp), Some(SourceFailure))
    else if p in t.dirs then (Unlink(t, tmp), Some(IoFailure))
    else (WriteContent(Unlink(t, tmp), p, Bytes(ContentOf(source))), None)
  }

  /** `put` once the path is resolved and the existence test is passed. */
  function WriteBlob(t: Tree, p: Path, tenant: string, key: string, source: Source,
                     contentType: Option<string>, userMetadata: UserMetadata): (Tree, Outcome)
    requires p != []
  {
    match MakeDirs(t, Parent(p))
    case Err(e) => (t, Failed(e))
    case Ok(t1) =>
      var (t2, error) := SwapIn(t1, p, source);
      var meta, data := MetaPath(p), ContentOf(source);
      if error.Some? then (t2, Failed(error.value))
      else if OpenTruncating(t2, meta).Err? then (t2, Failed(IoFailure))
      else
        (WriteContent(t2, meta, Json(SidecarFor(data, contentType, userMetadata))),
         Stored(BlobRef(tenant, key, Sha256(data), |data|, contentType)))
  }

  function DeleteBlob(t: Tree, p: Path): (Tree, Outcome)
    requires p != []
  {
    if p in t.dirs then (t, Failed(IoFailure))
    else
      var t1 := Unlink(t, p);
      if MetaPath(p) in t1.dirs then (t1, Failed(IoFailure))
      else (Unlink(t1, MetaPath(p)), Deleted)
  }

  /** Where `list` starts: the tenant is joined to the root without validation. */
  function ListRoot(tenant: string): Path {
    Parts(tenant)
  }

  function RelativeKey(root: Path, f: Path): string
    requires root <= f
  {
    Join(f[|root|..], '/')
  }

  predicate IsListed(t: Tree, root: Path, prefix: string, f: Path) {
    && root < f
    && f in t.files
    && !EndsWith(f[|f| - 1], META_SUFFIX)
    && prefix <= RelativeKey(root, f)
  }

  function ListedFiles(t: Tree, root: Path, prefix: string): set<Path> {
    set f | f in t.files && IsListed(t, root, prefix, f)
  }

  function EntryRef(t: Tree, tenant: string, f: Path): Result<BlobRef, StoreError>
    requires ListRoot(tenant) < f
  {
    match LoadMeta(t, f, tenant, RelativeKey(ListRoot(tenant), f))
    case Err(e) => Err(e)
    case Ok(meta) => Ok(RefFrom(meta))
  }

  ghost predicate Readable(t: Tree, tenant: string, files: set<Path>)
    requires forall f | f in files :: ListRoot(tenant) < f
  {
    forall f | f in files :: EntryRef(t, tenant, f).Ok?
  }

  ghost function RefsOf(t: Tree, tenant: string, files: set<Path>): set<BlobRef>
    requires forall f | f in files :: ListRoot(tenant) < f
    requires Readable(t, tenant, files)
  {
    set f | f in files :: EntryRef(t, tenant, f).value
  }

  ghost function ListBlobs(t: Tree, tenant: string, prefix: string): Outcome {
    var root := ListRoot(tenant);
    if !Exists(t, root) then Listed({})
    else if prefix != "" && Escapes(prefix) then Failed(TenantIsolation)
    else
      var found := ListedFiles(t, root, prefix);
      if Readable(t, tenant, found) then Listed(RefsOf(t, tenant, found)) else Failed(IoFailure)
  }

  /** The walk of `list`: the listed files outside `pending` have all been visited, each giving one
      reference, unless one of them could not be read. */
  ghost predicate WalkState(t: Tree, tenant: string, prefix: string, pending: set<Path>,
                            visited: set<Path>, refs: seq<BlobRef>, failed: bool)
  {
    var found := ListedFiles(t, ListRoot(tenant), prefix);
    if failed then !Readable(t, tenant, found)
    else
      && found - pending == visited <= found
      && Readable(t, tenant, visited)
      && (set r | r in refs) == RefsOf(t, tenant, visited)
      && |refs| == |visited|
  }

  lemma WalkStep(t: Tree, tenant: string, prefix: string, pending: set<Path>,
                 visited: set<Path>, refs: seq<BlobRef>, f: Path)
    requires WalkState(t, tenant, prefix, pending, visited, refs, false) && f in pending
    ensures !IsListed(t, ListRoot(tenant), prefix, f) ==>
              WalkState(t, tenant, prefix, pending - {f}, visited, refs, false)
    ensures IsListed(t, ListRoot(tenant), prefix, f) ==>
              var ref := EntryRef(t, tenant, f);
              if ref.Ok? then WalkState(t, tenant, prefix, pending - {f}, visited + {f}, refs + [ref.value], false)
              else WalkState(t, tenant, prefix, pending - {f}, visited, refs, true)
  {
    var found := ListedFiles(t, ListRoot(tenant), prefix);
    if IsListed(t, ListRoot(tenant), prefix, f) && EntryRef(t, tenant, f).Ok? {
      var r := EntryRef(t, tenant, f).value;
      assert found - (pending - {f}) == visited + {f};
      assert RefsOf(t, tenant, visited + {f}) == RefsOf(t, tenant, visited) + {r};
      assert (set x | x in refs + [r]) == (set x | x in refs) + {r};
    } else {
      assert !IsListed(t, ListRoot(tenant), prefix, f) ==> found - (pending - {f}) == visited;
    }
  }

  ghost function FsStep(t: Tree, op: Op): (Tree, Outcome) {
    match op
    case Put(tenant, key, source, contentType, userMetadata, ifNoneMatch) => (
      match Resolve(tenant, key)
      case Err(e) => (t, Failed(e))
      case Ok(p) =>
        if ifNoneMatch && Exists(t, p) then (t, Failed(AlreadyExists))
        else WriteBlob(t, p, tenant, key, source, contentType, userMetadata))
    case Get(tenant, key) => (
      match Resolve(tenant, key)
      case Err(e) => (t, Failed(e))
      case Ok(p) =>
        if !Exists(t, p) then (t, Failed(NotFound))
        else
          match LoadMeta(t, p, tenant, key)
          case Err(e) => (t, Failed(e))
          case Ok(meta) =>
            if p in t.files && t.files[p].Bytes? then (t, Fetched(RefFrom(meta), t.files[p].data))
            else (t, Failed(IoFailure)))
    case Head(tenant, key) => (
      match Resolve(tenant, key)
      case Err(e) => (t, Failed(e))
      case Ok(p) =>
        if !Exists(t, p) then (t, Absent)
        else
          match LoadMeta(t, p, tenant, key)
          case Err(e) => (t, Failed(e))
          case Ok(meta) => (t, Described(meta)))
    case Delete(tenant, key) => (
      match Resolve(tenant, key)
      case Err(e) => (t, Failed(e))
      case Ok(p) => DeleteBlob(t, p))
    case List(tenant, prefix) => (t, ListBlobs(t, tenant, prefix))
  }

  ghost function FsRun(t: Tree, ops: seq<Op>): (Tree, seq<Outcome>)
    decreases |ops|
  {
    if ops == [] then (t, [])
    else
      var (t', outcome) := FsStep(t, ops[0]);
      var (final, rest) := FsRun(t', ops[1..]);
      (final, [outcome] + rest)
  }

  // --- Crash points of a put -----------------------------------------

  ghost predicate SameFile(t: Tree, t': Tree, p: Path) {
    (p in t.files <==> p in t'.files) && (p in t.files ==> t.files[p] == t'.files[p])
  }

  /** How far a put has come once its directories exist. */
  datatype Phase =
    | DirectoriesMade
    | Staging(part: seq<byte>) // the temporary file holds this much
    | CleanedUp                // the temporary file is gone again after a failure
    | Renamed                  // the temporary file has become the blob
    | SidecarOpened            // its sidecar exists and is empty
    | SidecarWritten

  function RenamedTree(made: Tree, p: Path, data: seq<byte>): Tree
    requires p != []
  {
    WriteContent(Unlink(made, TmpPath(p)), p, Bytes(data))
  }

  function StateAt(made: Tree, p: Path, data: seq<byte>, sidecar: Sidecar, phase: Phase): Tree
    requires p != []
  {
    match phase
    case DirectoriesMade => made
    case Staging(part) => WriteContent(made, TmpPath(p), Bytes(part))
    case CleanedUp => Unlink(made, TmpPath(p))
    case Renamed => RenamedTree(made, p, data)
    case SidecarOpened => WriteContent(RenamedTree(made, p, data), MetaPath(p), Bytes([]))
    case SidecarWritten => WriteContent(RenamedTree(made, p, data), MetaPath(p), Json(sidecar))
  }

  /** The temporary file only ever holds a beginning of the data; a failing source is never renamed. */
  predicate Reachable(phase: Phase, source: Source) {
    match phase
    case DirectoriesMade => true
    case Staging(part) => part <= ContentOf(source)
    case CleanedUp => true
    case Renamed => !Broken(source)
    case SidecarOpened => !Broken(source)
    case SidecarWritten => !Broken(source)
  }

  /** The disk states a put of `source` to `p` passes through. */
  ghost predicate PutState(before: Tree, now: Tree, p: Path, source: Source, sidecar: Sidecar)
    requires p != []
  {
    && MakeDirs(before, Parent(p)).Ok?
    && exists phase :: Reachable(phase, source)
                       && now == StateAt(MakeDirs(before, Parent(p)).value, p, ContentOf(source), sidecar, phase)
  }

  /** All or nothing: the file at `p` is as before, absent included, or holds the complete data. */
  ghost predicate AllOrNothing(before: Tree, now: Tree, p: Path, data: seq<byte>) {
    SameFile(before, now, p) || (p in now.files && now.files[p] == Bytes(data))
  }

  /** What a crash during a put of `data` to `p` can leave behind: nothing outside the three
      paths of the put has changed, and the blob is either the complete old one with its
      sidecar, or the complete new one whose sidecar is old, just truncated, or new. */
  ghost predicate CrashPoint(before: Tree, now: Tree, p: Path, data: seq<byte>, sidecar: Sidecar)
    requires p != []
  {
    && now.dirs == before.dirs + Prefixes(Parent(p))
    && (forall q | q !in {p, TmpPath(p), MetaPath(p)} :: SameFile(before, now, q))
    && ( || (SameFile(before, now, p) && SameFile(before, now, MetaPath(p)))
         || ( && p in now.files && now.files[p] == Bytes(data)
              && TmpPath(p) !in now.files
              && ( || SameFile(before, now, MetaPath(p))
                   || (MetaPath(p) in now.files && now.files[MetaPath(p)] in {Bytes([]), Json(sidecar)}))))
  }

  lemma PutPathsDiffer(p: Path)
    requires p != []
    ensures p != TmpPath(p) && p != MetaPath(p) && TmpPath(p) != MetaPath(p)
    ensures Parent(TmpPath(p)) == Parent(MetaPath(p)) == Parent(p)
  {
    assert p[|p| - 1] == p[|p| - 1] + "" && |TmpPath(p)[|p| - 1]| == |p[|p| - 1]| + 4;
    assert |MetaPath(p)[|p| - 1]| == |p[|p| - 1]| + 10;
  }

  lemma PhaseIsCrashPoint(before: Tree, p: Path, data: seq<byte>, sidecar: Sidecar, phase: Phase)
    requires p != [] && MakeDirs(before, Parent(p)).Ok?
    ensures CrashPoint(before, StateAt(MakeDirs(before, Parent(p)).value, p, data, sidecar, phase), p, data, sidecar)
  {
    PutPathsDiffer(p);
    hide TmpPath, MetaPath, Prefixes;
  }

  /** Every state of a put is a crash point: what was written to the temporary file never matters. */
  lemma PutStateIsCrashPoint(before: Tree, now: Tree, p: Path, source: Source, sidecar: Sidecar)
    requires p != [] && PutState(before, now, p, source, sidecar)
    ensures CrashPoint(before, now, p, ContentOf(source), sidecar)
    ensures AllOrNothing(before, now, p, ContentOf(source))
  {
    var phase :| Reachable(phase, source)
                 && now == StateAt(MakeDirs(before, Parent(p)).value, p, ContentOf(source), sidecar, phase);
    PhaseIsCrashPoint(before, p, ContentOf(source), sidecar, phase);
    hide StateAt, MakeDirs;
  }

  lemma ReachesPhase(before: Tree, p: Path, source: Source, sidecar: Sidecar, phase: Phase)
    requires p != [] && MakeDirs(before, Parent(p)).Ok? && Reachable(phase, source)
    ensures var now := StateAt(MakeDirs(before, Parent(p)).value, p, ContentOf(source), sidecar, phase);
            PutState(before, now, p, source, sidecar)
  {
    hide StateAt, MakeDirs;
  }

  lemma StagingIsPutState(before: Tree, now: Tree, p: Path, source: Source, sidecar: Sidecar)
    requires p != [] && MakeDirs(before, Parent(p)).Ok?
    requires var made := MakeDirs(before, Parent(p)).value;
             || now == made || now == Unlink(made, TmpPath(p))
             || (exists part :: part <= ContentOf(source) && now == WriteContent(made, TmpPath(p), Bytes(part)))
    ensures PutState(before, now, p, source, sidecar)
  {
    hide PutState, MakeDirs, TmpPath;
    var made := MakeDirs(before, Parent(p)).value;
    if now == made {
      ReachesPhase(before, p, source, sidecar, DirectoriesMade);
    } else if now == Unlink(made, TmpPath(p)) {
      ReachesPhase(before, p, source, sidecar, CleanedUp);
    } else {
      var part :| part <= ContentOf(source) && now == WriteContent(made, TmpPath(p), Bytes(part));
      ReachesPhase(before, p, source, sidecar, Staging(part));
    }
  }

  // --- The adapter ---------------------------------------------------

  class Adapter {
    var disk: Tree
    /** Every disk state between two system calls, oldest first. */
    ghost var history: seq<Tree>

    constructor (disk: Tree)
      ensures this.disk == disk && history == [disk]
    {
      this.disk := disk;
      this.history := [disk];
    }

    method SetDisk(t: Tree)
      modifies this
      ensures disk == t && history == old(history) + [t]
    {
      disk := t;
      history := history + [t];
    }

    /** Writes the source to the open temporary file, hashing and counting as it goes. */
    method WriteChunks(tmp: Path, source: Source)
      returns (etag: Etag, size: nat)
      requires tmp in disk.files && disk.files[tmp] == Bytes([])
      modifies this
      ensures etag == Sha256(ContentOf(source)) && size == |ContentOf(source)|
      ensures disk == WriteContent(old(disk), tmp, Bytes(ContentOf(source)))
      ensures |history| >= |old(history)| && history[..|old(history)|] == old(history)
      ensures forall k | |old(history)| <= k < |history| ::
                exists part :: part <= ContentOf(source) && history[k] == WriteContent(old(disk), tmp, Bytes(part))
    {
      match source
      case Buffer(data) =>
        SetDisk(WriteContent(disk, tmp, Bytes(data)));
        etag, size := Sha256(data), |data|;
      case Chunked(chunks, _) =>
        var h: seq<byte> := [];
        size := 0;
        assert disk == WriteContent(disk, tmp, Bytes([]));
        for i := 0 to |chunks|
          invariant h == Concat(chunks[..i]) && size == |h|
          invariant disk == WriteContent(old(disk), tmp, Bytes(h))
          invariant |history| >= |old(history)| && history[..|old(history)|] == old(history)
          invariant forall k | |old(history)| <= k < |history| ::
              exists part :: part <= h && history[k] == WriteContent(old(disk), tmp, Bytes(part))
        {
          ConcatStep(chunks, i);
          h := h + chunks[i];
          size := size + |chunks[i]|;
          SetDisk(WriteContent(disk, tmp, Bytes(disk.files[tmp].data + chunks[i])));
          assert disk == WriteContent(old(disk), tmp, Bytes(h));
        }
        assert chunks[..|chunks|] == chunks;
        etag := Sha256(h);
    }

    /** The temporary-file part of a put, up to the rename or the clean-up. */
    method SwapInContent(p: Path, source: Source) returns (etag: Etag, size: nat, error: Option<StoreError>)
      requires p != []
      modifies this
      ensures (disk, error) == SwapIn(old(disk), p, source)
      ensures error.None? ==> etag == Sha256(ContentOf(source)) && size == |ContentOf(source)|
      ensures error.None? ==> disk == WriteContent(Unlink(old(disk), TmpPath(p)), p, Bytes(ContentOf(source)))
      ensures error.Some? ==> disk == old(disk) || disk == Unlink(old(disk), TmpPath(p))
      ensures |history| >= |old(history)| && history[..|old(history)|] == old(history)
      ensures error.None? ==> !Broken(source)
      ensures forall k | |old(history)| <= k < |history| ::
                || history[k] == disk || history[k] == Unlink(old(disk), TmpPath(p))
                || (exists part :: part <= ContentOf(source)
                                   && history[k] == WriteContent(old(disk), TmpPath(p), Bytes(part)))
    {
      PutPathsDiffer(p);
      etag, size, error := Sha256([]), 0, None;
      var tmp := TmpPath(p);
      var created := OpenTruncating(disk, tmp);
      if created.Err? {
        error := Some(IoFailure);
        return;
      }
      SetDisk(created.value);
      assert disk == WriteContent(old(disk), tmp, Bytes([]));
      label Created:
      etag, size := WriteChunks(tmp, source);
      forall k | |old@Created(history)| <= k < |history|
        ensures exists part :: part <= ContentOf(source) && history[k] == WriteContent(old(disk), tmp, Bytes(part))
      {
        var part :| part <= ContentOf(source) && history[k] == WriteContent(old@Created(disk), tmp, Bytes(part));
        assert history[k] == WriteContent(old(disk), tmp, Bytes(part));
      }
      assert Unlink(disk, tmp) == Unlink(old(disk), tmp);
      var replaced := Replace(disk, tmp, p);
      if Broken(source) {
        SetDisk(Unlink(disk, tmp));
        error := Some(SourceFailure);
      } else if replaced.Err? {
        SetDisk(Unlink(disk, tmp));
        error := Some(IoFailure);
      } else {
        SetDisk(replaced.value);
        assert disk == WriteContent(Unlink(old(disk), tmp), p, Bytes(ContentOf(source)));
      }
    }

    method WriteResolved(p: Path, tenant: string, key: string, source: Source,
                         contentType: Option<string>, userMetadata: UserMetadata)
      returns (outcome: Outcome)
      requires p != []
      modifies this
      ensures (disk, outcome) == WriteBlob(old(disk), p, tenant, key, source, contentType, userMetadata)
      ensures |history| >= |old(history)| && history[..|old(history)|] == old(history)
      ensures forall k | |old(history)| <= k < |history| ::
                PutState(old(disk), history[k], p, source, SidecarFor(ContentOf(source), contentType, userMetadata))
    {
      hide SwapIn, MakeDirs, PutState, TmpPath;
      ghost var data := ContentOf(source);
      ghost var sidecar := SidecarFor(data, contentType, userMetadata);
      var made := MakeDirs(disk, Parent(p));
      if made.Err? {
        return Failed(made.error);
      }
      SetDisk(made.value);
      ReachesPhase(old(disk), p, source, sidecar, DirectoriesMade);
      label Made:
      var etag, size, error := SwapInContent(p, source);
      forall k | |old@Made(history)| <= k < |history|
        ensures PutState(old(disk), history[k], p, source, sidecar)
      {
        if history[k] == disk && error.None? {
          ReachesPhase(old(disk), p, source, sidecar, Renamed);
        } else {
          StagingIsPutState(old(disk), history[k], p, source, sidecar);
        }
      }
      assert forall k | |old(history)| <= k < |history| :: PutState(old(disk), history[k], p, source, sidecar) by {
        assert history[|old(history)|] == made.value;
      }
      if error.Some? {
        return Failed(error.value);
      }
      var meta := MetaPath(p);
      var metaCreated := OpenTruncating(disk, meta);
      if metaCreated.Err? {
        return Failed(IoFailure);
      }
      ReachesPhase(old(disk), p, source, sidecar, SidecarOpened);
      SetDisk(metaCreated.value);
      var written := WriteContent(disk, meta, Json(Sidecar(contentType, userMetadata, etag, size)));
      ReachesPhase(old(disk), p, source, sidecar, SidecarWritten);
      assert written == StateAt(made.value, p, data, sidecar, SidecarWritten);
      SetDisk(written);
      assert disk == WriteBlob(old(disk), p, tenant, key, source, contentType, userMetadata).0;
      assert history[|history| - 1] == disk && history[|history| - 2] == metaCreated.value;
      return Stored(BlobRef(tenant, key, etag, size, contentType));
    }

    method Put(tenant: string, key: string, source: Source,
               contentType: Option<string>, userMetadata: UserMetadata, ifNoneMatch: bool)
      returns (outcome: Outcome)
      modifies this
      ensures (disk, outcome) == FsStep(old(disk), Op.Put(tenant, key, source, contentType, userMetadata, ifNoneMatch))
      ensures |history| >= |old(history)| && history[..|old(history)|] == old(history)
      ensures Resolve(tenant, key).Err? ==> history == old(history)
      ensures Resolve(tenant, key).Ok? ==>
                forall k | |old(history)| <= k < |history| ::
                  && PutState(old(disk), history[k], Resolve(tenant, key).value, source,
                              SidecarFor(ContentOf(source), contentType, userMetadata))
                  && AllOrNothing(old(disk), history[k], Resolve(tenant, key).value, ContentOf(source))
    {
      var resolved := Resolve(tenant, key);
      if resolved.Err? {
        return Failed(resolved.error);
      }
      if ifNoneMatch && Exists(disk, resolved.value) {
        return Failed(AlreadyExists);
      }
      outcome := WriteResolved(resolved.value, tenant, key, source, contentType, userMetadata);
      hide PutState, AllOrNothing;
      forall k | |old(history)| <= k < |history|
        ensures AllOrNothing(old(disk), history[k], resolved.value, ContentOf(source))
      {
        PutStateIsCrashPoint(old(disk), history[k], resolved.value, source,
                             SidecarFor(ContentOf(source), contentType, userMetadata));
      }
    }

    method Delete(tenant: string, key: string) returns (outcome: Outcome)
      modifies this
      ensures (disk, outcome) == FsStep(old(disk), Op.Delete(tenant, key))
    {
      var resolved := Resolve(tenant, key);
      if resolved.Err? {
        return Failed(resolved.error);
      }
      var p := resolved.value;
      if Exists(disk, p) {
        if p in disk.dirs {
          return Failed(IoFailure);
        }
        SetDisk(Unlink(disk, p));
      }
      assert disk == Unlink(old(disk), p);
      if Exists(disk, MetaPath(p)) {
        if MetaPath(p) in disk.dirs {
          return Failed(IoFailure);
        }
        SetDisk(Unlink(disk, MetaPath(p)));
      }
      assert disk == Unlink(Unlink(old(disk), p), MetaPath(p));
      return Deleted;
    }

    method Get(tenant: string, key: string) returns (outcome: Outcome)
      ensures (disk, outcome) == FsStep(disk, Op.Get(tenant, key))
    {
      var resolved := Resolve(tenant, key);
      if resolved.Err? {
        return Failed(resolved.error);
      }
      var p := resolved.value;
      if !Exists(disk, p) {
        return Failed(NotFound);
      }
      var loaded := LoadMetadata(p, tenant, key);
      if loaded.Err? {
        return Failed(loaded.error);
      }
      if p !in disk.files || !disk.files[p].Bytes? {
        return Failed(IoFailure);
      }
      var chunks := StreamChunks(disk.files[p].data);
      var data := JoinChunks(chunks);
      return Fetched(RefFrom(loaded.value), data);
    }

    method Head(tenant: string, key: string) returns (outcome: Outcome)
      ensures (disk, outcome) == FsStep(disk, Op.Head(tenant, key))
    {
      var resolved := Resolve(tenant, key);
      if resolved.Err? {
        return Failed(resolved.error);
      }
      if !Exists(disk, resolved.value) {
        return Absent;
      }
      var loaded := LoadMetadata(resolved.value, tenant, key);
      if loaded.Err? {
        return Failed(loaded.error);
      }
      return Described(loaded.value);
    }

    method LoadMetadata(p: Path, tenant: string, key: string) returns (r: Result<BlobMetadata, StoreError>)
      requires p != []
      ensures r == LoadMeta(disk, p, tenant, key)
    {
      var m := MetaPath(p);
      if Exists(disk, m) {
        if m in disk.files && disk.files[m].Json? {
          var s := disk.files[m].meta;
          return Ok(BlobMetadata(tenant, key, s.size, s.etag, s.contentType, s.userMetadata));
        }
        return Err(IoFailure);
      }
      if p !in disk.files || !disk.files[p].Bytes? {
        return Err(IoFailure);
      }
      var etag := ComputeEtag(disk.files[p].data);
      return Ok(BlobMetadata(tenant, key, |disk.files[p].data|, etag, None, map[]));
    }

    /** One entry met by the walk: its reference, or nothing when the entry is skipped. */
    method ReadEntry(tenant: string, prefix: string, f: Path)
      returns (listed: bool, ref: Result<BlobRef, StoreError>)
      ensures listed <==> IsListed(disk, ListRoot(tenant), prefix, f)
      ensures listed ==> ref == EntryRef(disk, tenant, f)
    {
      var root := ListRoot(tenant);
      listed, ref := false, Err(IoFailure);
      if root < f && f in disk.files && !EndsWith(f[|f| - 1], META_SUFFIX) && prefix <= RelativeKey(root, f) {
        var loaded := LoadMetadata(f, tenant, RelativeKey(root, f));
        listed := true;
        ref := if loaded.Ok? then Ok(RefFrom(loaded.value)) else Err(loaded.error);
      }
    }

    /** Walks every entry once, in no particular order; stops at the first unreadable one. */
    method Walk(tenant: string, prefix: string) returns (refs: seq<BlobRef>, failed: bool)
      ensures var found := ListedFiles(disk, ListRoot(tenant), prefix);
              && (failed <==> !Readable(disk, tenant, found))
              && (!failed ==> (set r | r in refs) == RefsOf(disk, tenant, found) && |refs| == |found|)
    {
      refs, failed := [], false;
      var pending := disk.files.Keys + disk.dirs;
      ghost var visited: set<Path> := {};
      while pending != {} && !failed
        invariant WalkState(disk, tenant, prefix, pending, visited, refs, failed)
        decreases pending
      {
        var f :| f in pending;
        var listed, ref := ReadEntry(tenant, prefix, f);
        WalkStep(disk, tenant, prefix, pending, visited, refs, f);
        pending := pending - {f};
        if listed && ref.Ok? {
          refs, visited := refs + [ref.value], visited + {f};
        } else if listed {
          failed := true;
        }
      }
      assert !failed ==> visited == ListedFiles(disk, ListRoot(tenant), prefix);
    }

    method List(tenant: string, prefix: string) returns (refs: seq<BlobRef>, error: Option<StoreError>)
      ensures (disk, if error.Some? then Failed(error.value) else Listed(set r | r in refs)) ==
              FsStep(disk, Op.List(tenant, prefix))
      ensures error.None? && Exists(disk, ListRoot(tenant)) ==>
                |refs| == |ListedFiles(disk, ListRoot(tenant), prefix)|
    {
      refs, error := [], None;
      if !Exists(disk, ListRoot(tenant)) {
        assert (set r | r in refs) == {};
      } else if prefix != "" && Escapes(prefix) {
        error := Some(TenantIsolation);
      } else {
        var failed;
        refs, failed := Walk(tenant, prefix);
        error := if failed then Some(IoFailure) else None;
      }
    }
  }

  /** stream(): reads of at most CHUNK_SIZE bytes until an empty one. */
  method StreamChunks(content: seq<byte>) returns (chunks: seq<seq<byte>>)
    ensures Concat(chunks) == content
    ensures forall i | 0 <= i < |chunks| :: 0 < |chunks[i]| <= 1_048_576
    ensures forall i | 0 <= i < |chunks| - 1 :: |chunks[i]| == 1_048_576
  {
    chunks := [];
    var pos := 0;
    while true
      invariant 0 <= pos <= |content|
      invariant Concat(chunks) == content[..pos]
      invariant forall i | 0 <= i < |chunks| :: 0 < |chunks[i]| <= CHUNK_SIZE
      invariant forall i | 0 <= i < |chunks| - 1 :: |chunks[i]| == CHUNK_SIZE
      invariant pos < |content| && chunks != [] ==> |chunks[|chunks| - 1]| == CHUNK_SIZE
      decreases |content| - pos
    {
      var end := if |content| - pos < CHUNK_SIZE then |content| else pos + CHUNK_SIZE;
      var chunk := content[pos..end];
      if chunk == [] {
        break;
      }
      assert (chunks + [chunk])[..|chunks|] == chunks;
      assert content[..end] == content[..pos] + chunk;
      chunks, pos := chunks + [chunk], end;
    }
  }

  /** _compute_etag: the digest of the file, fed chunk by chunk. */
  method ComputeEtag(content: seq<byte>) returns (etag: Etag)
    ensures etag == Sha256(content)
  {
    var h: seq<byte> := [];
    while true
      invariant |h| <= |content| && h == content[..|h|]
      decreases |content| - |h|
    {
      var end := if |content| - |h| < CHUNK_SIZE then |content| else |h| + CHUNK_SIZE;
      var chunk := content[|h|..end];
      if chunk == [] {
        break;
      }
      h := h + chunk;
    }
    etag := Sha256(h);
  }
}
