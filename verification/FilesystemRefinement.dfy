/** Under a key discipline, the filesystem adapter implements the port's map: every run gives
    the same outcomes, and the file tree keeps representing the map. */
module FilesystemRefinement {
  import opened Wrappers
  import opened Text
  import opened BlobStore
  import opened FileTree
  import opened FilesystemAdapter

  // --- The key discipline --------------------------------------------

  /** A tenant and a key already in normal form. */
  ghost predicate ValidId(id: Id) {
    && ValidTenant(id.0)
    && forall part | part in Split(id.1, '/') :: part != "" && part != "." && part != ".."
  }

  ghost function PathOf(id: Id): (p: Path)
    ensures |p| >= 2
  {
    [id.0] + Split(id.1, '/')
  }

  /** `p` cannot be stored beside `q`: `p`, its temporary file or its sidecar is `q` or lies above it. */
  ghost predicate Clash(p: Path, q: Path)
    requires p != []
  {
    p < q || TmpPath(p) <= q || MetaPath(p) <= q
  }

  ghost predicate Disciplined(keys: set<Id>) {
    && (forall id | id in keys :: ValidId(id) && !EndsWith(PathOf(id)[|PathOf(id)| - 1], META_SUFFIX))
    && (forall a, b | a in keys && b in keys :: !Clash(PathOf(a), PathOf(b)))
  }

  ghost predicate Within(keys: set<Id>, op: Op) {
    match op
    case Put(tenant, key, _, _, _, _) => (tenant, key) in keys
    case Get(tenant, key) => (tenant, key) in keys
    case Head(tenant, key) => (tenant, key) in keys
    case Delete(tenant, key) => (tenant, key) in keys
    case List(tenant, prefix) => ValidTenant(tenant) && !Escapes(prefix)
  }

  // --- Representation ------------------------------------------------

  /** `p` holds the blob, and its sidecar agrees with what would be recomputed from the bytes;
      a blob without sidecar (a file older than the adapter) has no other metadata. */
  ghost predicate Holds(t: Tree, p: Path, blob: Blob)
    requires p != []
  {
    && p in t.files && t.files[p] == Bytes(blob.data)
    && if MetaPath(p) in t.files
       then t.files[MetaPath(p)] == Json(SidecarFor(blob.data, blob.contentType, blob.userMetadata))
       else blob.contentType == None && blob.userMetadata == map[]
  }

  ghost predicate OwnedBy(f: Path, id: Id) {
    f == PathOf(id) || f == MetaPath(PathOf(id))
  }

  ghost predicate Represents(t: Tree, keys: set<Id>, blobs: BlobMap) {
    && WellFormed(t)
    && blobs.Keys <= keys
    && (forall id | id in blobs :: Holds(t, PathOf(id), blobs[id]))
    && (forall f | f in t.files :: exists id | id in blobs :: OwnedBy(f, id))
    && (forall d | d in t.dirs && d != [] :: exists id | id in keys :: d < PathOf(id))
  }

  // --- Paths ---------------------------------------------------------

  lemma {:induction false} DropNothing(parts: seq<string>)
    requires forall part | part in parts :: part != "" && part != "."
    ensures DropEmptyAndDot(parts) == parts
  {
    if parts != [] {
      assert parts[0] in parts && forall part | part in parts[1..] :: part in parts;
      DropNothing(parts[1..]);
    }
  }

  lemma SlashFreeSplit(s: string)
    requires '/' !in s
    ensures Split(s, '/') == [s]
  {
    SplitJoin([s], '/');
  }

  lemma LeadingSlash(s: string)
    requires StartsWith(s, "/")
    ensures "" in Split(s, '/')
  {
    assert s[0] == '/';
    assert Split(s, '/')[0] == "";
  }

  lemma ResolveValid(id: Id)
    requires ValidId(id)
    ensures Resolve(id.0, id.1) == Ok(PathOf(id))
  {
    DropNothing(Split(id.1, '/'));
    if StartsWith(id.1, "/") {
      LeadingSlash(id.1);
    }
  }

  lemma TenantRoot(tenant: string)
    requires ValidTenant(tenant)
    ensures ListRoot(tenant) == [tenant]
  {
    SlashFreeSplit(tenant);
    DropNothing([tenant]);
  }

  lemma PathOfInjective(a: Id, b: Id)
    requires PathOf(a) == PathOf(b)
    ensures a == b
  {
    assert PathOf(a)[0] == a.0 && PathOf(b)[0] == b.0;
    assert PathOf(a)[1..] == Split(a.1, '/') && PathOf(b)[1..] == Split(b.1, '/');
    JoinSplit(a.1, '/');
    JoinSplit(b.1, '/');
  }

  lemma SuffixInjective(p: Path, q: Path, suffix: string)
    requires p != [] && q != [] && WithSuffix(p, suffix) == WithSuffix(q, suffix)
    ensures p == q
  {
    var x, y := WithSuffix(p, suffix), WithSuffix(q, suffix);
    assert Parent(p) == Parent(x) && Parent(q) == Parent(y);
    assert x[|x| - 1] == p[|p| - 1] + suffix && y[|y| - 1] == q[|q| - 1] + suffix;
    assert p[|p| - 1] == x[|x| - 1][..|x[|x| - 1]| - |suffix|];
    assert p == Parent(p) + [p[|p| - 1]] && q == Parent(q) + [q[|q| - 1]];
  }

  lemma MetaInjective(p: Path, q: Path)
    requires p != [] && q != [] && MetaPath(p) == MetaPath(q)
    ensures p == q
  {
    SuffixInjective(p, q, META_SUFFIX);
  }

  lemma TmpIsNotMeta(p: Path, q: Path)
    requires p != [] && q != []
    ensures TmpPath(p) != MetaPath(q)
  {
    if TmpPath(p) == MetaPath(q) {
      assert TmpPath(p)[|TmpPath(p)| - 1] == p[|p| - 1] + TMP_SUFFIX;
      assert MetaPath(q)[|MetaPath(q)| - 1] == q[|q| - 1] + META_SUFFIX;
      SuffixesDiffer(p[|p| - 1], q[|q| - 1], TMP_SUFFIX, META_SUFFIX);
      assert false;
    }
  }

  lemma HeldBlob(t: Tree, keys: set<Id>, blobs: BlobMap, id: Id)
    requires Represents(t, keys, blobs) && id in blobs
    ensures id in keys && Holds(t, PathOf(id), blobs[id])
  {
    hide PathOf, MetaPath, WellFormed, Holds;
  }

  lemma BlobPath(t: Tree, keys: set<Id>, blobs: BlobMap, id: Id)
    requires Disciplined(keys) && Represents(t, keys, blobs) && id in keys && PathOf(id) in t.files
    ensures id in blobs
  {
    hide PathOf, TmpPath, MetaPath, ValidId, WellFormed, EndsWith, Holds;
    var o :| o in blobs && OwnedBy(PathOf(id), o);
    assert !Clash(PathOf(o), PathOf(id));
    PathOfInjective(o, id);
  }

  lemma SidecarPath(t: Tree, keys: set<Id>, blobs: BlobMap, id: Id)
    requires Disciplined(keys) && Represents(t, keys, blobs) && id in keys
    ensures MetaPath(PathOf(id)) in t.files ==> id in blobs
  {
    hide PathOf, TmpPath, MetaPath, ValidId, WellFormed, EndsWith, Holds;
    var p := PathOf(id);
    if MetaPath(p) in t.files {
      var o :| o in blobs && OwnedBy(MetaPath(p), o);
      assert !Clash(p, PathOf(o));
      MetaInjective(p, PathOf(o));
      PathOfInjective(o, id);
    }
  }

  lemma NoTmpFile(t: Tree, keys: set<Id>, blobs: BlobMap, id: Id)
    requires Disciplined(keys) && Represents(t, keys, blobs) && id in keys
    ensures TmpPath(PathOf(id)) !in t.files
  {
    hide PathOf, TmpPath, MetaPath, ValidId, WellFormed, EndsWith, Holds;
    forall o | o in blobs
      ensures !OwnedBy(TmpPath(PathOf(id)), o)
    {
      assert !Clash(PathOf(id), PathOf(o));
      TmpIsNotMeta(PathOf(id), PathOf(o));
    }
  }

  lemma NoDirectoryInTheWay(t: Tree, keys: set<Id>, blobs: BlobMap, id: Id, d: Path)
    requires Disciplined(keys) && Represents(t, keys, blobs) && id in keys
    requires d != [] && d in {PathOf(id), MetaPath(PathOf(id)), TmpPath(PathOf(id))}
    ensures d !in t.dirs
  {
    hide PathOf, TmpPath, MetaPath, ValidId, WellFormed, EndsWith, Holds;
    forall o | o in keys
      ensures !(d < PathOf(o))
    {
      assert !Clash(PathOf(id), PathOf(o));
    }
  }

  /** What the representation says about the three paths of a disciplined key. */
  lemma PathsOfKey(t: Tree, keys: set<Id>, blobs: BlobMap, id: Id)
    requires Disciplined(keys) && Represents(t, keys, blobs) && id in keys
    ensures PathOf(id) in t.files <==> id in blobs
    ensures MetaPath(PathOf(id)) in t.files ==> id in blobs
    ensures TmpPath(PathOf(id)) !in t.files
    ensures PathOf(id) !in t.dirs && MetaPath(PathOf(id)) !in t.dirs && TmpPath(PathOf(id)) !in t.dirs
  {
    hide PathOf, Represents, Disciplined;
    if id in blobs {
      HeldBlob(t, keys, blobs, id);
    }
    if PathOf(id) in t.files {
      BlobPath(t, keys, blobs, id);
    }
    SidecarPath(t, keys, blobs, id);
    NoTmpFile(t, keys, blobs, id);
    NoDirectoryInTheWay(t, keys, blobs, id, PathOf(id));
    NoDirectoryInTheWay(t, keys, blobs, id, MetaPath(PathOf(id)));
    NoDirectoryInTheWay(t, keys, blobs, id, TmpPath(PathOf(id)));
  }

  lemma DistinctKeys(keys: set<Id>, a: Id, b: Id)
    requires Disciplined(keys) && a in keys && b in keys && a != b
    ensures PathOf(a) != PathOf(b) && PathOf(a) != MetaPath(PathOf(b))
    ensures MetaPath(PathOf(a)) != PathOf(b) && MetaPath(PathOf(a)) != MetaPath(PathOf(b))
  {
    hide PathOf, TmpPath, MetaPath, ValidId, EndsWith;
    if PathOf(a) == PathOf(b) {
      PathOfInjective(a, b);
    }
    assert !Clash(PathOf(a), PathOf(b)) && !Clash(PathOf(b), PathOf(a));
    if MetaPath(PathOf(a)) == MetaPath(PathOf(b)) {
      MetaInjective(PathOf(a), PathOf(b));
    }
  }

  // --- Reads ---------------------------------------------------------

  lemma LoadedMeta(t: Tree, keys: set<Id>, blobs: BlobMap, id: Id)
    requires Disciplined(keys) && Represents(t, keys, blobs) && id in blobs
    ensures LoadMeta(t, PathOf(id), id.0, id.1) == Ok(MetadataOf(id, blobs[id]))
  {
    hide PathOf, MetaPath, Represents, Disciplined;
    HeldBlob(t, keys, blobs, id);
    PathsOfKey(t, keys, blobs, id);
  }

  lemma ReadsRefine(t: Tree, keys: set<Id>, blobs: BlobMap, op: Op)
    requires Disciplined(keys) && Represents(t, keys, blobs) && Within(keys, op) && (op.Get? || op.Head?)
    ensures FsStep(t, op) == (t, MapStep(blobs, op).1)
  {
    hide PathOf, MetaPath, TmpPath, Represents, Resolve, LoadMeta;
    var id := (op.tenant, op.key);
    ResolveValid(id);
    hide Disciplined;
    PathsOfKey(t, keys, blobs, id);
    if id in blobs {
      LoadedMeta(t, keys, blobs, id);
      HeldBlob(t, keys, blobs, id);
    }
  }

  lemma RelativeKeyOf(id: Id)
    requires ValidId(id)
    ensures [id.0] < PathOf(id) && PathOf(id)[0] == id.0 && RelativeKey([id.0], PathOf(id)) == id.1
  {
    assert PathOf(id)[1..] == Split(id.1, '/');
    JoinSplit(id.1, '/');
  }

  lemma SidecarsAreSkipped(p: Path)
    requires p != []
    ensures EndsWith(MetaPath(p)[|MetaPath(p)| - 1], META_SUFFIX)
  {
    assert MetaPath(p)[|MetaPath(p)| - 1] == p[|p| - 1] + META_SUFFIX;
  }

  ghost predicate Wanted(blobs: BlobMap, tenant: string, prefix: string, id: Id) {
    id in blobs && id.0 == tenant && prefix <= id.1
  }

  lemma ListedIsStored(t: Tree, keys: set<Id>, blobs: BlobMap, tenant: string, prefix: string, f: Path)
    requires Disciplined(keys) && Represents(t, keys, blobs) && IsListed(t, [tenant], prefix, f)
    ensures exists id :: Wanted(blobs, tenant, prefix, id) && f == PathOf(id)
  {
    hide PathOf, MetaPath, TmpPath, WellFormed, Holds, EndsWith, RelativeKey, ValidId, Clash;
    var o :| o in blobs && OwnedBy(f, o);
    SidecarsAreSkipped(PathOf(o));
    RelativeKeyOf(o);
    assert Wanted(blobs, tenant, prefix, o);
  }

  lemma KeyIsValid(keys: set<Id>, id: Id)
    requires Disciplined(keys) && id in keys
    ensures ValidId(id) && ValidTenant(id.0)
    ensures !EndsWith(PathOf(id)[|PathOf(id)| - 1], META_SUFFIX)
  {
    hide PathOf, Clash, EndsWith;
  }

  lemma StoredIsListed(t: Tree, keys: set<Id>, blobs: BlobMap, tenant: string, prefix: string, id: Id)
    requires Disciplined(keys) && Represents(t, keys, blobs) && Wanted(blobs, tenant, prefix, id)
    ensures IsListed(t, [tenant], prefix, PathOf(id))
    ensures ListRoot(tenant) == [tenant] && EntryRef(t, tenant, PathOf(id)) == Ok(RefOf(id, blobs[id]))
  {
    hide PathOf, MetaPath, TmpPath, Represents, Disciplined, EndsWith, RelativeKey, ListRoot, LoadMeta, ValidId, ValidTenant;
    HeldBlob(t, keys, blobs, id);
    KeyIsValid(keys, id);
    RelativeKeyOf(id);
    TenantRoot(tenant);
    LoadedMeta(t, keys, blobs, id);
  }

  lemma FoundAreStored(t: Tree, keys: set<Id>, blobs: BlobMap, tenant: string, prefix: string)
    requires ListRoot(tenant) == [tenant]
    requires Disciplined(keys) && Represents(t, keys, blobs)
    ensures forall f | f in ListedFiles(t, [tenant], prefix) :: [tenant] < f
    ensures Readable(t, tenant, ListedFiles(t, [tenant], prefix))
    ensures RefsOf(t, tenant, ListedFiles(t, [tenant], prefix)) == MapStep(blobs, List(tenant, prefix)).1.refs
  {
    hide PathOf, Represents, Disciplined, ListRoot, EntryRef, RelativeKey, EndsWith;
    var found := ListedFiles(t, [tenant], prefix);
    var refs := MapStep(blobs, List(tenant, prefix)).1.refs;
    forall f | f in found
      ensures [tenant] < f && EntryRef(t, tenant, f).Ok? && EntryRef(t, tenant, f).value in refs
    {
      ListedIsStored(t, keys, blobs, tenant, prefix, f);
      var id :| Wanted(blobs, tenant, prefix, id) && f == PathOf(id);
      StoredIsListed(t, keys, blobs, tenant, prefix, id);
    }
    assert Readable(t, tenant, found);
    forall r | r in refs
      ensures r in RefsOf(t, tenant, found)
    {
      var id :| Wanted(blobs, tenant, prefix, id) && r == RefOf(id, blobs[id]);
      StoredIsListed(t, keys, blobs, tenant, prefix, id);
      assert PathOf(id) in found;
    }
  }

  lemma NoTenantNoBlobs(t: Tree, keys: set<Id>, blobs: BlobMap, tenant: string, prefix: string)
    requires Disciplined(keys) && Represents(t, keys, blobs) && !Exists(t, [tenant])
    ensures MapStep(blobs, List(tenant, prefix)).1 == Listed({})
  {
    hide Represents, Disciplined;
    forall id | id in blobs
      ensures id.0 != tenant
    {
      TenantDirectory(t, keys, blobs, id);
    }
  }

  lemma ListRefines(t: Tree, keys: set<Id>, blobs: BlobMap, tenant: string, prefix: string)
    requires Disciplined(keys) && Represents(t, keys, blobs) && Within(keys, List(tenant, prefix))
    ensures ListBlobs(t, tenant, prefix) == MapStep(blobs, List(tenant, prefix)).1
  {
    TenantRoot(tenant);
    hide Represents, Disciplined, ListRoot, Escapes, ValidTenant, RefsOf, Readable, ListedFiles;
    if Exists(t, [tenant]) {
      FoundAreStored(t, keys, blobs, tenant, prefix);
    } else {
      NoTenantNoBlobs(t, keys, blobs, tenant, prefix);
    }
  }

  lemma TenantDirectory(t: Tree, keys: set<Id>, blobs: BlobMap, id: Id)
    requires Disciplined(keys) && Represents(t, keys, blobs) && id in blobs
    ensures [id.0] in t.dirs
  {
    HeldBlob(t, keys, blobs, id);
    RelativeKeyOf(id);
    hide PathOf, WellFormed;
    AncestorsAreDirs(t, PathOf(id), [id.0]);
  }

  // --- Writes --------------------------------------------------------

  lemma NoFileAbove(t: Tree, keys: set<Id>, blobs: BlobMap, id: Id, q: Path)
    requires Disciplined(keys) && Represents(t, keys, blobs) && id in keys && q < PathOf(id)
    ensures q !in t.files
  {
    hide PathOf, TmpPath, MetaPath, ValidId, WellFormed, EndsWith, Holds;
    forall o | o in blobs
      ensures !OwnedBy(q, o)
    {
      assert !Clash(PathOf(o), PathOf(id));
    }
  }

  lemma PrefixesWellFormed(t: Tree, p: Path)
    requires WellFormed(t) && forall q | q <= p :: q !in t.files
    ensures WellFormed(t.(dirs := t.dirs + Prefixes(p)))
  {
    forall d | d in Prefixes(p)
      ensures d !in t.files && (d != [] ==> Parent(d) in Prefixes(p))
    {
      PrefixOf(p, d);
      if d != [] {
        PrefixOf(p, Parent(d));
      }
    }
  }

  lemma RepresentsWellFormed(t: Tree, keys: set<Id>, blobs: BlobMap)
    requires Represents(t, keys, blobs)
    ensures WellFormed(t)
  {
  }

  lemma MakeDirsSucceeds(t: Tree, keys: set<Id>, blobs: BlobMap, id: Id)
    requires Disciplined(keys) && Represents(t, keys, blobs) && id in keys
    ensures MakeDirs(t, Parent(PathOf(id))).Ok?
    ensures Represents(t.(dirs := t.dirs + Prefixes(Parent(PathOf(id)))), keys, blobs)
  {
    hide PathOf, TmpPath, MetaPath, WellFormed, Prefixes, Disciplined, Represents;
    var p := PathOf(id);
    assert WellFormed(t) by {
      RepresentsWellFormed(t, keys, blobs);
    }
    forall q | q in Prefixes(Parent(p)) || q <= Parent(p)
      ensures q < p && q !in t.files
    {
      PrefixOf(Parent(p), q);
      NoFileAbove(t, keys, blobs, id, q);
    }
    PrefixesWellFormed(t, Parent(p));
    MoreDirsRepresent(t, keys, blobs, id, Prefixes(Parent(p)));
  }

  lemma HoldsByFiles(t: Tree, t': Tree, p: Path, blob: Blob)
    requires p != [] && t.files == t'.files && Holds(t, p, blob)
    ensures Holds(t', p, blob)
  {
  }

  lemma MoreDirsRepresent(t: Tree, keys: set<Id>, blobs: BlobMap, id: Id, more: set<Path>)
    requires Represents(t, keys, blobs) && id in keys && forall d | d in more :: d < PathOf(id)
    requires WellFormed(t.(dirs := t.dirs + more))
    ensures Represents(t.(dirs := t.dirs + more), keys, blobs)
  {
    hide PathOf, MetaPath, WellFormed, OwnedBy, Holds;
    var t' := t.(dirs := t.dirs + more);
    forall i | i in blobs
      ensures Holds(t', PathOf(i), blobs[i])
    {
      HoldsByFiles(t, t', PathOf(i), blobs[i]);
    }
  }

  /** Writing one blob leaves the blobs at other paths held. */
  lemma StillHolds(t: Tree, p: Path, m: Path, c: Content, c': Content, q: Path, blob: Blob)
    requires q != [] && Holds(t, q, blob)
    requires q != p && q != m && MetaPath(q) != p && MetaPath(q) != m
    ensures Holds(t.(files := t.files[p := c][m := c']), q, blob)
    ensures Holds(t.(files := t.files - {p, m}), q, blob)
  {
    hide MetaPath;
  }

  lemma NowHolds(t: Tree, p: Path, blob: Blob)
    requires p != []
    ensures var sidecar := SidecarFor(blob.data, blob.contentType, blob.userMetadata);
            Holds(t.(files := t.files[p := Bytes(blob.data)][MetaPath(p) := Json(sidecar)]), p, blob)
  {
    PutPathsDiffer(p);
    hide MetaPath;
  }

  lemma StoredHolds(t: Tree, keys: set<Id>, blobs: BlobMap, id: Id, blob: Blob, i: Id)
    requires Disciplined(keys) && Represents(t, keys, blobs) && id in keys && i in blobs[id := blob]
    ensures var p := PathOf(id);
            var sidecar := SidecarFor(blob.data, blob.contentType, blob.userMetadata);
            Holds(t.(files := t.files[p := Bytes(blob.data)][MetaPath(p) := Json(sidecar)]), PathOf(i), blobs[id := blob][i])
  {
    hide PathOf, MetaPath, Disciplined, Represents, Holds;
    var p := PathOf(id);
    if i == id {
      NowHolds(t, p, blob);
    } else {
      HeldBlob(t, keys, blobs, i);
      DistinctKeys(keys, i, id);
      var sidecar := SidecarFor(blob.data, blob.contentType, blob.userMetadata);
      StillHolds(t, p, MetaPath(p), Bytes(blob.data), Json(sidecar), PathOf(i), blobs[i]);
    }
  }

  lemma StoredWellFormed(t: Tree, p: Path, c: Content, c': Content)
    requires WellFormed(t) && p != [] && Parent(p) in t.dirs && p !in t.dirs && MetaPath(p) !in t.dirs
    ensures WellFormed(t.(files := t.files[p := c][MetaPath(p) := c']))
  {
    PutPathsDiffer(p);
  }

  lemma StoredRepresents(t: Tree, keys: set<Id>, blobs: BlobMap, id: Id, blob: Blob)
    requires Disciplined(keys) && Represents(t, keys, blobs) && id in keys && Parent(PathOf(id)) in t.dirs
    ensures var p := PathOf(id);
            var sidecar := SidecarFor(blob.data, blob.contentType, blob.userMetadata);
            Represents(t.(files := t.files[p := Bytes(blob.data)][MetaPath(p) := Json(sidecar)]), keys, blobs[id := blob])
  {
    hide PathOf, TmpPath, MetaPath, Disciplined, WellFormed, Holds;
    var p := PathOf(id);
    PathsOfKey(t, keys, blobs, id);
    var sidecar := SidecarFor(blob.data, blob.contentType, blob.userMetadata);
    var t' := t.(files := t.files[p := Bytes(blob.data)][MetaPath(p) := Json(sidecar)]);
    StoredWellFormed(t, p, Bytes(blob.data), Json(sidecar));
    var blobs' := blobs[id := blob];
    forall i | i in blobs'
      ensures Holds(t', PathOf(i), blobs'[i])
    {
      StoredHolds(t, keys, blobs, id, blob, i);
    }
    forall f | f in t'.files
      ensures exists i | i in blobs' :: OwnedBy(f, i)
    {
      if f == p || f == MetaPath(p) {
        assert OwnedBy(f, id) && id in blobs';
      } else {
        var o :| o in blobs && OwnedBy(f, o);
        assert o in blobs';
      }
    }
  }

  /** Nothing occupies the three paths of a put, so nothing makes its writing part fail. */
  ghost predicate WayIsClear(t: Tree, p: Path)
    requires p != []
  {
    && Parent(p) in t.dirs && TmpPath(p) !in t.files
    && TmpPath(p) !in t.dirs && p !in t.dirs && MetaPath(p) !in t.dirs
  }

  lemma WriteBlobSucceeds(t: Tree, p: Path, tenant: string, key: string, source: Source,
                          contentType: Option<string>, userMetadata: UserMetadata)
    requires p != [] && MakeDirs(t, Parent(p)).Ok? && WayIsClear(MakeDirs(t, Parent(p)).value, p)
    ensures var data := ContentOf(source);
            var t1 := MakeDirs(t, Parent(p)).value;
            var sidecar := SidecarFor(data, contentType, userMetadata);
            WriteBlob(t, p, tenant, key, source, contentType, userMetadata) ==
              if Broken(source) then (t1, Failed(SourceFailure))
              else (t1.(files := t1.files[p := Bytes(data)][MetaPath(p) := Json(sidecar)]),
                    Stored(BlobRef(tenant, key, Sha256(data), |data|, contentType)))
  {
    PutPathsDiffer(p);
    var t1 := MakeDirs(t, Parent(p)).value;
    assert Unlink(t1, TmpPath(p)) == t1;
    hide MakeDirs, TmpPath, MetaPath, Prefixes;
  }

  lemma PutClearsTheWay(t: Tree, keys: set<Id>, blobs: BlobMap, id: Id)
    requires Disciplined(keys) && Represents(t, keys, blobs) && id in keys
    ensures MakeDirs(t, Parent(PathOf(id))).Ok?
    ensures WayIsClear(MakeDirs(t, Parent(PathOf(id))).value, PathOf(id))
    ensures Represents(MakeDirs(t, Parent(PathOf(id))).value, keys, blobs)
  {
    hide PathOf, Represents, Disciplined, TmpPath, MetaPath;
    MakeDirsSucceeds(t, keys, blobs, id);
    var t1 := MakeDirs(t, Parent(PathOf(id))).value;
    PrefixOf(Parent(PathOf(id)), Parent(PathOf(id)));
    PathsOfKey(t1, keys, blobs, id);
  }

  lemma WriteRefines(t: Tree, keys: set<Id>, blobs: BlobMap, id: Id, op: Op)
    requires Disciplined(keys) && Represents(t, keys, blobs)
    requires op.Put? && id == (op.tenant, op.key) && id in keys && !(op.ifNoneMatch && id in blobs)
    ensures var r := WriteBlob(t, PathOf(id), op.tenant, op.key, op.source, op.contentType, op.userMetadata);
            r.1 == MapStep(blobs, op).1 && Represents(r.0, keys, MapStep(blobs, op).0)
  {
    hide PathOf, MetaPath, TmpPath, Disciplined, Represents, MakeDirs, WriteBlob, Parent, WayIsClear;
    var p := PathOf(id);
    PutClearsTheWay(t, keys, blobs, id);
    WriteBlobSucceeds(t, p, op.tenant, op.key, op.source, op.contentType, op.userMetadata);
    if !Broken(op.source) {
      hide Broken;
      var t1 := MakeDirs(t, Parent(p)).value;
      ParentIsClear(t1, p);
      StoredRepresents(t1, keys, blobs, id, Blob(ContentOf(op.source), op.contentType, op.userMetadata));
    }
  }

  lemma ParentIsClear(t: Tree, p: Path)
    requires p != [] && WayIsClear(t, p)
    ensures Parent(p) in t.dirs
  {
  }

  lemma PutStep(t: Tree, op: Op, p: Path)
    requires op.Put? && Resolve(op.tenant, op.key) == Ok(p)
    ensures FsStep(t, op) ==
            if op.ifNoneMatch && Exists(t, p) then (t, Failed(AlreadyExists))
            else WriteBlob(t, p, op.tenant, op.key, op.source, op.contentType, op.userMetadata)
  {
    hide WriteBlob, Resolve;
  }

  lemma PutRefines(t: Tree, keys: set<Id>, blobs: BlobMap, op: Op)
    requires Disciplined(keys) && Represents(t, keys, blobs) && Within(keys, op) && op.Put?
    ensures FsStep(t, op).1 == MapStep(blobs, op).1
    ensures Represents(FsStep(t, op).0, keys, MapStep(blobs, op).0)
  {
    hide PathOf, MetaPath, TmpPath, Disciplined, Represents, Resolve, ValidId, WriteBlob, FsStep;
    var id := (op.tenant, op.key);
    KeyIsValid(keys, id);
    ResolveValid(id);
    PutStep(t, op, PathOf(id));
    PathsOfKey(t, keys, blobs, id);
    if !(op.ifNoneMatch && id in blobs) {
      WriteRefines(t, keys, blobs, id, op);
    }
  }

  lemma DeletedRepresents(t: Tree, keys: set<Id>, blobs: BlobMap, id: Id)
    requires Disciplined(keys) && Represents(t, keys, blobs) && id in keys
    ensures Represents(t.(files := t.files - {PathOf(id), MetaPath(PathOf(id))}), keys, blobs - {id})
  {
    hide PathOf, MetaPath, Disciplined, Holds;
    var t', blobs' := t.(files := t.files - {PathOf(id), MetaPath(PathOf(id))}), blobs - {id};
    forall i | i in blobs'
      ensures Holds(t', PathOf(i), blobs'[i])
    {
      HeldBlob(t, keys, blobs, i);
      DistinctKeys(keys, i, id);
      StillHolds(t, PathOf(id), MetaPath(PathOf(id)), Bytes([]), Bytes([]), PathOf(i), blobs[i]);
    }
    forall f | f in t'.files
      ensures exists i | i in blobs' :: OwnedBy(f, i)
    {
      var o :| o in blobs && OwnedBy(f, o);
      assert o in blobs';
    }
  }

  lemma UnlinkBoth(t: Tree, p: Path, m: Path)
    ensures Unlink(Unlink(t, p), m) == t.(files := t.files - {p, m})
  {
  }

  lemma DeleteRefines(t: Tree, keys: set<Id>, blobs: BlobMap, op: Op)
    requires Disciplined(keys) && Represents(t, keys, blobs) && Within(keys, op) && op.Delete?
    ensures FsStep(t, op).1 == Deleted
    ensures Represents(FsStep(t, op).0, keys, MapStep(blobs, op).0)
  {
    var id := (op.tenant, op.key);
    var p := PathOf(id);
    KeyIsValid(keys, id);
    ResolveValid(id);
    hide PathOf, TmpPath, MetaPath, Disciplined, Represents, Resolve, ValidId;
    PathsOfKey(t, keys, blobs, id);
    DeletedRepresents(t, keys, blobs, id);
    UnlinkBoth(t, p, MetaPath(p));
    hide Unlink;
  }

  // --- Runs ----------------------------------------------------------

  lemma StepRefines(t: Tree, keys: set<Id>, blobs: BlobMap, op: Op)
    requires Disciplined(keys) && Represents(t, keys, blobs) && Within(keys, op)
    ensures FsStep(t, op).1 == MapStep(blobs, op).1
    ensures Represents(FsStep(t, op).0, keys, MapStep(blobs, op).0)
  {
    hide Represents;
    hide Disciplined;
    match op
    case Put(_, _, _, _, _, _) => PutRefines(t, keys, blobs, op);
    case Delete(_, _) => DeleteRefines(t, keys, blobs, op);
    case List(tenant, prefix) => ListRefines(t, keys, blobs, tenant, prefix);
    case Get(_, _) => ReadsRefine(t, keys, blobs, op);
    case Head(_, _) => ReadsRefine(t, keys, blobs, op);
  }

  /** For every run on disciplined keys, the file tree and the map answer alike, and every
      sidecar on disk agrees with the bytes beside it at the end. */
  lemma {:induction false} RunRefines(t: Tree, keys: set<Id>, blobs: BlobMap, ops: seq<Op>)
    requires Disciplined(keys) && Represents(t, keys, blobs)
    requires forall op | op in ops :: Within(keys, op)
    ensures FsRun(t, ops).1 == MapRun(blobs, ops).1
    ensures Represents(FsRun(t, ops).0, keys, MapRun(blobs, ops).0)
    decreases |ops|
  {
    if ops != [] {
      assert ops[0] in ops;
      StepRefines(t, keys, blobs, ops[0]);
      RunRefines(FsStep(t, ops[0]).0, keys, MapStep(blobs, ops[0]).0, ops[1..]);
    }
  }

  lemma EmptyTreeRepresents(keys: set<Id>)
    ensures Represents(EMPTY_TREE, keys, map[])
  {
  }
}
