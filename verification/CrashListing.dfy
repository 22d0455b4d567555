/** What `list` answers on the disk that a crashed put leaves behind, phase by phase. */
module CrashListing {
  import opened Wrappers
  import opened Text
  import opened BlobStore
  import opened FileTree
  import opened FilesystemAdapter
  import opened FilesystemRefinement

  /** The references the map lists. */
  function Refs(blobs: BlobMap, tenant: string, prefix: string): set<BlobRef> {
    MapStep(blobs, List(tenant, prefix)).1.refs
  }

  /** The listing after a put to `id` of blob `blob` has stopped at `phase`; `made` is the tree with the
      put's directories, `blobs` what the store held before.

      A leftover temporary file is listed as a blob of its own, unless a directory has the name of its
      sidecar: then it cannot be read.  After the rename, an old sidecar still reports the old size and tag;
      where there was none they are those of the new bytes.  A truncated sidecar cannot be read, so that
      listing its key fails. */
  ghost function ListingAt(made: Tree, blobs: BlobMap, id: Id, blob: Blob, phase: Phase,
                           tenant: string, prefix: string): Outcome
  {
    match phase
    case DirectoriesMade => Listed(Refs(blobs, tenant, prefix))
    case CleanedUp => Listed(Refs(blobs, tenant, prefix))
    case Staging(part) =>
      if id.0 != tenant || !(prefix <= id.1 + TMP_SUFFIX) then Listed(Refs(blobs, tenant, prefix))
      else if MetaPath(TmpPath(PathOf(id))) in made.dirs then Failed(IoFailure)
      else Listed(Refs(blobs, tenant, prefix) + {BlobRef(tenant, id.1 + TMP_SUFFIX, Sha256(part), |part|, None)})
    case Renamed =>
      if MetaPath(PathOf(id)) in made.files then Listed(Refs(blobs, tenant, prefix))
      else Listed(Refs(blobs[id := Blob(blob.data, None, map[])], tenant, prefix))
    case SidecarOpened =>
      if id.0 == tenant && prefix <= id.1 then Failed(IoFailure) else Listed(Refs(blobs, tenant, prefix))
    case SidecarWritten => Listed(Refs(blobs[id := blob], tenant, prefix))
  }

  // --- Comparing listings --------------------------------------------

  /** File `f` is listed alike in both trees, or in neither. */
  ghost predicate ListedAlike(t: Tree, t': Tree, tenant: string, prefix: string, f: Path) {
    && (IsListed(t, [tenant], prefix, f) <==> IsListed(t', [tenant], prefix, f))
    && (IsListed(t, [tenant], prefix, f) && ListRoot(tenant) == [tenant] ==>
          EntryRef(t, tenant, f) == EntryRef(t', tenant, f))
  }

  lemma SameListing(t: Tree, t': Tree, tenant: string, prefix: string)
    requires ListRoot(tenant) == [tenant] && (Exists(t, [tenant]) <==> Exists(t', [tenant]))
    requires forall f :: ListedAlike(t, t', tenant, prefix, f)
    ensures ListBlobs(t, tenant, prefix) == ListBlobs(t', tenant, prefix)
  {
    hide IsListed, EntryRef, ListRoot, Escapes;
    var found, found' := ListedFiles(t, [tenant], prefix), ListedFiles(t', [tenant], prefix);
    forall f
      ensures f in found <==> f in found'
    {
      assert ListedAlike(t, t', tenant, prefix, f);
      ListedInFiles(t, [tenant], prefix, f);
      ListedInFiles(t', [tenant], prefix, f);
    }
    assert found == found';
    forall f | f in found
      ensures [tenant] < f && EntryRef(t, tenant, f) == EntryRef(t', tenant, f)
    {
      assert ListedAlike(t, t', tenant, prefix, f);
      ListedInFiles(t, [tenant], prefix, f);
    }
    if Readable(t, tenant, found) {
      assert RefsOf(t, tenant, found) == RefsOf(t', tenant, found);
    }
  }

  lemma ListedInFiles(t: Tree, root: Path, prefix: string, f: Path)
    ensures IsListed(t, root, prefix, f) ==> f in t.files && root < f
  {
  }

  lemma NotListedAlike(t: Tree, t': Tree, tenant: string, prefix: string, f: Path)
    requires !IsListed(t, [tenant], prefix, f) && !IsListed(t', [tenant], prefix, f)
    ensures ListedAlike(t, t', tenant, prefix, f)
  {
    hide IsListed, EntryRef, ListRoot;
  }

  lemma SidecarListedAlike(t: Tree, t': Tree, p: Path, tenant: string, prefix: string)
    requires p != []
    ensures ListedAlike(t, t', tenant, prefix, MetaPath(p))
  {
    SidecarNotListed(t, [tenant], prefix, p);
    SidecarNotListed(t', [tenant], prefix, p);
    hide MetaPath, IsListed;
    NotListedAlike(t, t', tenant, prefix, MetaPath(p));
  }

  lemma ListRootOf(keys: set<Id>, tenant: string, prefix: string)
    requires Within(keys, List(tenant, prefix))
    ensures ValidTenant(tenant) && !Escapes(prefix) && ListRoot(tenant) == [tenant]
  {
    TenantRoot(tenant);
  }

  /** The files of other keys after writes to `p` and its sidecar. */
  lemma OtherFilesListedAlike(t: Tree, t': Tree, keys: set<Id>, id: Id, tenant: string, prefix: string, f: Path)
    requires Disciplined(keys) && id in keys && f != PathOf(id) && t'.dirs == t.dirs
    requires forall q | q !in {PathOf(id), MetaPath(PathOf(id))} :: SameFile(t, t', q)
    ensures ListedAlike(t, t', tenant, prefix, f)
  {
    hide PathOf, MetaPath, Disciplined, IsListed, ListedAlike, SameFile;
    if f == MetaPath(PathOf(id)) {
      SidecarListedAlike(t, t', PathOf(id), tenant, prefix);
    } else {
      if f != [] {
        SidecarNames(keys, id, f);
      }
      OthersListedAlike(t, t', PathOf(id), tenant, prefix, f);
    }
  }

  /** A file of another key is listed and read alike after a write to `p` or its sidecar. */
  lemma OthersListedAlike(t: Tree, t': Tree, p: Path, tenant: string, prefix: string, f: Path)
    requires p != [] && f !in {p, MetaPath(p)} && t'.dirs == t.dirs
    requires f != [] ==> MetaPath(f) !in {p, MetaPath(p)}
    requires forall q | q !in {p, MetaPath(p)} :: SameFile(t, t', q)
    ensures ListedAlike(t, t', tenant, prefix, f)
  {
    hide MetaPath, EndsWith, ListRoot, RelativeKey;
    assert SameFile(t, t', f);
    if f != [] {
      assert SameFile(t, t', MetaPath(f));
    }
  }

  /** Neither the sidecar of another file nor a second sidecar has the name of a disciplined key. */
  lemma SidecarNames(keys: set<Id>, id: Id, f: Path)
    requires Disciplined(keys) && id in keys && f != [] && f != PathOf(id)
    ensures MetaPath(f) != PathOf(id) && MetaPath(f) != MetaPath(PathOf(id))
  {
    hide PathOf, MetaPath, Disciplined;
    KeyIsValid(keys, id);
    SidecarsAreSkipped(f);
    if MetaPath(f) == MetaPath(PathOf(id)) {
      MetaInjective(f, PathOf(id));
    }
  }

  lemma SidecarNotListed(t: Tree, root: Path, prefix: string, p: Path)
    requires p != []
    ensures !IsListed(t, root, prefix, MetaPath(p))
  {
    SidecarsAreSkipped(p);
    hide MetaPath, EndsWith;
  }

  // --- After the rename ----------------------------------------------

  /** The new bytes under an old sidecar: the listing is the old one. */
  lemma OldSidecarListed(t: Tree, keys: set<Id>, blobs: BlobMap, id: Id, data: seq<byte>, tenant: string, prefix: string)
    requires Disciplined(keys) && Represents(t, keys, blobs) && id in keys && Within(keys, List(tenant, prefix))
    requires MetaPath(PathOf(id)) in t.files
    ensures ListBlobs(WriteContent(t, PathOf(id), Bytes(data)), tenant, prefix) == Listed(Refs(blobs, tenant, prefix))
  {
    hide PathOf, MetaPath, TmpPath, Disciplined, Represents, Within, ListRoot, ListBlobs, Refs, IsListed, ListedAlike,
         ValidTenant, Escapes;
    var p, t' := PathOf(id), WriteContent(t, PathOf(id), Bytes(data));
    ListsRefs(blobs, tenant, prefix);
    ListRefines(t, keys, blobs, tenant, prefix);
    ListRootOf(keys, tenant, prefix);
    PathsOfKey(t, keys, blobs, id);
    forall f
      ensures ListedAlike(t, t', tenant, prefix, f)
    {
      if f == p {
        BlobUnderOldSidecar(t, p, data, tenant, prefix);
      } else {
        OtherFilesListedAlike(t, t', keys, id, tenant, prefix, f);
      }
    }
    KeyPathIsLong(id);
    SameListing(t, t', tenant, prefix);
  }

  lemma BlobUnderOldSidecar(t: Tree, p: Path, data: seq<byte>, tenant: string, prefix: string)
    requires p != [] && p in t.files && MetaPath(p) in t.files
    ensures ListedAlike(t, WriteContent(t, p, Bytes(data)), tenant, prefix, p)
  {
    PutPathsDiffer(p);
    hide MetaPath, EndsWith, RelativeKey, ListRoot;
  }

  /** The new bytes of a key without sidecar are a blob without metadata. */
  lemma BareRepresents(t: Tree, keys: set<Id>, blobs: BlobMap, id: Id, data: seq<byte>)
    requires Disciplined(keys) && Represents(t, keys, blobs) && id in keys && Parent(PathOf(id)) in t.dirs
    requires MetaPath(PathOf(id)) !in t.files
    ensures Represents(WriteContent(t, PathOf(id), Bytes(data)), keys, blobs[id := Blob(data, None, map[])])
  {
    hide PathOf, TmpPath, MetaPath, Disciplined, WellFormed, Holds;
    var p := PathOf(id);
    var t', blobs' := WriteContent(t, p, Bytes(data)), blobs[id := Blob(data, None, map[])];
    PathsOfKey(t, keys, blobs, id);
    WrittenWellFormed(t, p, Bytes(data));
    forall i | i in blobs'
      ensures Holds(t', PathOf(i), blobs'[i])
    {
      if i == id {
        BareHolds(t, p, data);
      } else {
        HeldBlob(t, keys, blobs, i);
        DistinctKeys(keys, i, id);
        OtherHolds(t, p, Bytes(data), PathOf(i), blobs[i]);
      }
    }
    forall f | f in t'.files
      ensures exists i | i in blobs' :: OwnedBy(f, i)
    {
      if f == p {
        assert OwnedBy(f, id) && id in blobs';
      } else {
        var o :| o in blobs && OwnedBy(f, o);
        assert o in blobs';
      }
    }
  }

  lemma BareHolds(t: Tree, p: Path, data: seq<byte>)
    requires p != [] && MetaPath(p) !in t.files
    ensures Holds(WriteContent(t, p, Bytes(data)), p, Blob(data, None, map[]))
  {
    PutPathsDiffer(p);
    hide MetaPath;
  }

  lemma OtherHolds(t: Tree, p: Path, c: Content, q: Path, blob: Blob)
    requires q != [] && q != p && MetaPath(q) != p && Holds(t, q, blob)
    ensures Holds(WriteContent(t, p, c), q, blob)
  {
    hide MetaPath;
  }

  // --- The truncated sidecar -----------------------------------------

  ghost function Truncated(t: Tree, p: Path, data: seq<byte>): Tree
    requires p != []
  {
    WriteContent(WriteContent(t, p, Bytes(data)), MetaPath(p), Bytes([]))
  }

  lemma TruncatedUnreadable(t: Tree, keys: set<Id>, blobs: BlobMap, id: Id, data: seq<byte>, tenant: string,
                            prefix: string)
    requires Disciplined(keys) && Represents(t, keys, blobs) && id in keys && Parent(PathOf(id)) in t.dirs
    requires Within(keys, List(tenant, prefix)) && id.0 == tenant && prefix <= id.1
    ensures ListBlobs(Truncated(t, PathOf(id), data), tenant, prefix) == Failed(IoFailure)
  {
    hide PathOf, MetaPath, TmpPath, Disciplined, Represents, Within, ListRoot, RelativeKey, EndsWith, WellFormed, ValidId,
         ValidTenant, Escapes, ListBlobs;
    var p := PathOf(id);
    ListRootOf(keys, tenant, prefix);
    KeyIsValid(keys, id);
    RelativeKeyOf(id);
    PathsOfKey(t, keys, blobs, id);
    RepresentsWellFormed(t, keys, blobs);
    TenantAbove(t, p, tenant);
    UnreadableFile(t, p, data, tenant, prefix);
  }

  lemma UnreadableFile(t: Tree, p: Path, data: seq<byte>, tenant: string, prefix: string)
    requires [tenant] < p && [tenant] in t.dirs && ListRoot(tenant) == [tenant] && !Escapes(prefix)
    requires !EndsWith(p[|p| - 1], META_SUFFIX) && prefix <= RelativeKey([tenant], p)
    ensures ListBlobs(Truncated(t, p, data), tenant, prefix) == Failed(IoFailure)
  {
    hide MetaPath, ListRoot, RelativeKey, EndsWith, Escapes;
    PutPathsDiffer(p);
    var t' := Truncated(t, p, data);
    assert p in ListedFiles(t', [tenant], prefix);
    assert EntryRef(t', tenant, p).Err?;
  }

  lemma TenantAbove(t: Tree, p: Path, tenant: string)
    requires WellFormed(t) && p != [] && [tenant] < p && Parent(p) in t.dirs
    ensures [tenant] in t.dirs
  {
    if [tenant] != Parent(p) {
      AncestorsAreDirs(t, Parent(p), [tenant]);
    }
  }

  lemma TruncatedUnlisted(t: Tree, keys: set<Id>, blobs: BlobMap, id: Id, data: seq<byte>, tenant: string, prefix: string)
    requires Disciplined(keys) && Represents(t, keys, blobs) && id in keys && Parent(PathOf(id)) in t.dirs
    requires Within(keys, List(tenant, prefix)) && !(id.0 == tenant && prefix <= id.1)
    ensures ListBlobs(Truncated(t, PathOf(id), data), tenant, prefix) == Listed(Refs(blobs, tenant, prefix))
  {
    hide PathOf, MetaPath, TmpPath, Disciplined, Represents, Within, ListRoot, ListBlobs, Refs, IsListed, ListedAlike,
         ValidTenant, Escapes, ValidId;
    var p, t' := PathOf(id), Truncated(t, PathOf(id), data);
    ListsRefs(blobs, tenant, prefix);
    ListRefines(t, keys, blobs, tenant, prefix);
    ListRootOf(keys, tenant, prefix);
    KeyIsValid(keys, id);
    forall f
      ensures ListedAlike(t, t', tenant, prefix, f)
    {
      if f == p {
        KeyNotListed(t, id, tenant, prefix);
        KeyNotListed(t', id, tenant, prefix);
        NotListedAlike(t, t', tenant, prefix, p);
      } else {
        OtherFilesListedAlike(t, t', keys, id, tenant, prefix, f);
      }
    }
    KeyPathIsLong(id);
    SameListing(t, t', tenant, prefix);
  }

  lemma KeyNotListed(t: Tree, id: Id, tenant: string, prefix: string)
    requires ValidId(id) && !(id.0 == tenant && prefix <= id.1)
    ensures !IsListed(t, [tenant], prefix, PathOf(id))
  {
    RelativeKeyOf(id);
    hide PathOf, ValidId, EndsWith, RelativeKey;
  }

  lemma KeyPathIsLong(id: Id)
    ensures |PathOf(id)| >= 2 && |MetaPath(PathOf(id))| >= 2 && |TmpPath(PathOf(id))| >= 2
  {
  }

  // --- The leftover temporary file -----------------------------------

  lemma TmpKey(id: Id)
    requires ValidId(id)
    ensures [id.0] < TmpPath(PathOf(id)) && RelativeKey([id.0], TmpPath(PathOf(id))) == id.1 + TMP_SUFFIX
  {
    var parts := Split(id.1, '/');
    assert PathOf(id)[1..] == parts;
    assert TmpPath(PathOf(id))[1..] == parts[..|parts| - 1] + [parts[|parts| - 1] + TMP_SUFFIX];
    JoinLast(parts, TMP_SUFFIX, '/');
    JoinSplit(id.1, '/');
  }

  lemma {:induction false} JoinLast(parts: seq<string>, suffix: string, sep: char)
    requires parts != []
    ensures Join(parts[..|parts| - 1] + [parts[|parts| - 1] + suffix], sep) == Join(parts, sep) + suffix
  {
    if |parts| > 1 {
      var tail := parts[1..];
      JoinLast(tail, suffix, sep);
      var extended := parts[..|parts| - 1] + [parts[|parts| - 1] + suffix];
      assert extended[1..] == tail[..|tail| - 1] + [tail[|tail| - 1] + suffix];
      hide Join;
      assert Join(extended, sep) == parts[0] + [sep] + Join(extended[1..], sep) by {
        JoinMany(extended, sep);
      }
      JoinMany(parts, sep);
    }
  }

  lemma JoinMany(parts: seq<string>, sep: char)
    requires |parts| > 1
    ensures Join(parts, sep) == parts[0] + [sep] + Join(parts[1..], sep)
  {
  }

  lemma TmpName(p: Path)
    requires p != []
    ensures !EndsWith(TmpPath(p)[|TmpPath(p)| - 1], META_SUFFIX)
  {
    var name := TmpPath(p)[|TmpPath(p)| - 1];
    assert name == p[|p| - 1] + TMP_SUFFIX;
    if EndsWith(name, META_SUFFIX) {
      assert name == name[..|name| - |META_SUFFIX|] + META_SUFFIX;
      SuffixesDiffer(p[|p| - 1], name[..|name| - |META_SUFFIX|], TMP_SUFFIX, META_SUFFIX);
      assert false;
    }
  }

  /** The temporary file of a disciplined key has no sidecar of its own. */
  lemma TmpHasNoSidecar(t: Tree, keys: set<Id>, blobs: BlobMap, id: Id)
    requires Disciplined(keys) && Represents(t, keys, blobs) && id in keys
    ensures MetaPath(TmpPath(PathOf(id))) !in t.files
  {
    hide PathOf, TmpPath, MetaPath, ValidId, WellFormed, EndsWith, Holds;
    var tmp := TmpPath(PathOf(id));
    SidecarsAreSkipped(tmp);
    forall o | o in blobs
      ensures !OwnedBy(MetaPath(tmp), o)
    {
      assert !Clash(PathOf(id), PathOf(o));
      if MetaPath(tmp) == MetaPath(PathOf(o)) {
        MetaInjective(tmp, PathOf(o));
      }
    }
  }

  /** Files other than the temporary one are listed alike while it is there. */
  lemma OthersWhileStaged(t: Tree, keys: set<Id>, blobs: BlobMap, id: Id, part: seq<byte>, tenant: string,
                          prefix: string, f: Path)
    requires Disciplined(keys) && Represents(t, keys, blobs) && id in keys && f != TmpPath(PathOf(id))
    ensures ListedAlike(t, WriteContent(t, TmpPath(PathOf(id)), Bytes(part)), tenant, prefix, f)
  {
    hide PathOf, TmpPath, MetaPath, Disciplined, Represents, ListRoot, RelativeKey, EndsWith;
    var tmp := TmpPath(PathOf(id));
    if f != [] {
      TmpIsNotMeta(PathOf(id), f);
    }
  }

  lemma TmpEntry(t: Tree, keys: set<Id>, blobs: BlobMap, id: Id, part: seq<byte>, prefix: string)
    requires Disciplined(keys) && Represents(t, keys, blobs) && id in keys && ListRoot(id.0) == [id.0]
    ensures var (tmp, t') := (TmpPath(PathOf(id)), WriteContent(t, TmpPath(PathOf(id)), Bytes(part)));
            && (IsListed(t', [id.0], prefix, tmp) <==> prefix <= id.1 + TMP_SUFFIX)
            && [id.0] < tmp
            && EntryRef(t', id.0, tmp) ==
               if MetaPath(tmp) in t.dirs then Err(IoFailure)
               else Ok(BlobRef(id.0, id.1 + TMP_SUFFIX, Sha256(part), |part|, None))
  {
    hide PathOf, TmpPath, MetaPath, Disciplined, Represents, ListRoot, RelativeKey, EndsWith, ValidId;
    var tmp := TmpPath(PathOf(id));
    KeyIsValid(keys, id);
    TmpKey(id);
    TmpName(PathOf(id));
    TmpHasNoSidecar(t, keys, blobs, id);
    PutPathsDiffer(tmp);
    ReadBare(WriteContent(t, tmp, Bytes(part)), tmp, id.0, id.1 + TMP_SUFFIX, part);
  }

  lemma ReadBare(t: Tree, p: Path, tenant: string, key: string, data: seq<byte>)
    requires p != [] && p in t.files && t.files[p] == Bytes(data) && MetaPath(p) !in t.files
    ensures LoadMeta(t, p, tenant, key) ==
            if MetaPath(p) in t.dirs then Err(IoFailure)
            else Ok(BlobMetadata(tenant, key, |data|, Sha256(data), None, map[]))
  {
    hide MetaPath;
  }

  lemma TmpOfOtherTenant(id: Id, tenant: string)
    requires id.0 != tenant
    ensures !([tenant] < TmpPath(PathOf(id)))
  {
    assert TmpPath(PathOf(id))[0] == id.0;
  }

  lemma StagedNotListed(t: Tree, keys: set<Id>, blobs: BlobMap, id: Id, part: seq<byte>, tenant: string, prefix: string)
    requires Disciplined(keys) && Represents(t, keys, blobs) && id in keys && Within(keys, List(tenant, prefix))
    requires id.0 != tenant || !(prefix <= id.1 + TMP_SUFFIX)
    ensures ListBlobs(WriteContent(t, TmpPath(PathOf(id)), Bytes(part)), tenant, prefix) == Listed(Refs(blobs, tenant, prefix))
  {
    hide PathOf, TmpPath, MetaPath, Disciplined, Represents, Within, ListRoot, ListBlobs, Refs, EntryRef, IsListed,
         ListedAlike, ValidTenant, Escapes;
    var tmp := TmpPath(PathOf(id));
    var t' := WriteContent(t, tmp, Bytes(part));
    ListsRefs(blobs, tenant, prefix);
    ListRefines(t, keys, blobs, tenant, prefix);
    ListRootOf(keys, tenant, prefix);
    PathsOfKey(t, keys, blobs, id);
    KeyPathIsLong(id);
    if id.0 == tenant {
      TmpEntry(t, keys, blobs, id, part, prefix);
    } else {
      TmpOfOtherTenant(id, tenant);
    }
    ListedInFiles(t, [tenant], prefix, tmp);
    ListedInFiles(t', [tenant], prefix, tmp);
    NotListedAlike(t, t', tenant, prefix, tmp);
    forall f
      ensures ListedAlike(t, t', tenant, prefix, f)
    {
      if f != tmp {
        OthersWhileStaged(t, keys, blobs, id, part, tenant, prefix, f);
      }
    }
    SameListing(t, t', tenant, prefix);
  }

  lemma AlikeMeans(t: Tree, t': Tree, tenant: string, prefix: string, f: Path)
    requires ListedAlike(t, t', tenant, prefix, f) && ListRoot(tenant) == [tenant]
    ensures f in ListedFiles(t, [tenant], prefix) <==> f in ListedFiles(t', [tenant], prefix)
    ensures f in ListedFiles(t, [tenant], prefix) ==> [tenant] < f && EntryRef(t, tenant, f) == EntryRef(t', tenant, f)
  {
    ListedInFiles(t, [tenant], prefix, f);
    ListedInFiles(t', [tenant], prefix, f);
    hide IsListed, EntryRef, ListRoot;
  }

  /** One more readable file is one more reference; an unreadable one fails the listing. */
  lemma OneMoreListed(t: Tree, t': Tree, tenant: string, prefix: string, tmp: Path, refs: set<BlobRef>)
    requires ListRoot(tenant) == [tenant] && !Escapes(prefix) && Exists(t', [tenant])
    requires forall f | f != tmp :: ListedAlike(t, t', tenant, prefix, f)
    requires tmp !in t.files && tmp in t'.files && IsListed(t', [tenant], prefix, tmp) && [tenant] < tmp
    requires forall f | f in ListedFiles(t, [tenant], prefix) :: [tenant] < f
    requires Readable(t, tenant, ListedFiles(t, [tenant], prefix))
    requires RefsOf(t, tenant, ListedFiles(t, [tenant], prefix)) == refs
    ensures ListBlobs(t', tenant, prefix) ==
            if EntryRef(t', tenant, tmp).Err? then Failed(IoFailure)
            else Listed(refs + {EntryRef(t', tenant, tmp).value})
  {
    hide IsListed, EntryRef, ListRoot, Escapes, ListedAlike;
    var found, found' := ListedFiles(t, [tenant], prefix), ListedFiles(t', [tenant], prefix);
    forall f | f != tmp
      ensures (f in found <==> f in found') && (f in found ==> EntryRef(t', tenant, f) == EntryRef(t, tenant, f))
    {
      AlikeMeans(t, t', tenant, prefix, f);
    }
    assert found' == found + {tmp};
    if EntryRef(t', tenant, tmp).Ok? {
      assert Readable(t', tenant, found');
      assert RefsOf(t', tenant, found') == RefsOf(t, tenant, found) + {EntryRef(t', tenant, tmp).value};
    } else {
      assert !Readable(t', tenant, found');
    }
  }

  lemma StagedListed(t: Tree, keys: set<Id>, blobs: BlobMap, id: Id, part: seq<byte>, prefix: string)
    requires Disciplined(keys) && Represents(t, keys, blobs) && id in keys && Parent(PathOf(id)) in t.dirs
    requires Within(keys, List(id.0, prefix)) && prefix <= id.1 + TMP_SUFFIX
    ensures ListBlobs(WriteContent(t, TmpPath(PathOf(id)), Bytes(part)), id.0, prefix) ==
            if MetaPath(TmpPath(PathOf(id))) in t.dirs then Failed(IoFailure)
            else Listed(Refs(blobs, id.0, prefix) + {BlobRef(id.0, id.1 + TMP_SUFFIX, Sha256(part), |part|, None)})
  {
    hide PathOf, TmpPath, MetaPath, Disciplined, Represents, Within, ListRoot, EntryRef, EndsWith, RelativeKey, IsListed,
         Escapes, WellFormed, ValidId, ValidTenant, ListedAlike, ListBlobs, Readable, RefsOf;
    var tenant, tmp := id.0, TmpPath(PathOf(id));
    var t' := WriteContent(t, tmp, Bytes(part));
    ListRootOf(keys, tenant, prefix);
    FoundAreStored(t, keys, blobs, tenant, prefix);
    PathsOfKey(t, keys, blobs, id);
    KeyIsValid(keys, id);
    RelativeKeyOf(id);
    RepresentsWellFormed(t, keys, blobs);
    TenantAbove(t, PathOf(id), tenant);
    TmpEntry(t, keys, blobs, id, part, prefix);
    forall f | f != tmp
      ensures ListedAlike(t, t', tenant, prefix, f)
    {
      OthersWhileStaged(t, keys, blobs, id, part, tenant, prefix, f);
    }
    OneMoreListed(t, t', tenant, prefix, tmp, Refs(blobs, tenant, prefix));
  }

  // --- Every phase ---------------------------------------------------

  /** The listing at every crash point of a put, for every tenant and prefix. */
  lemma ListAfterCrash(before: Tree, keys: set<Id>, blobs: BlobMap, id: Id, blob: Blob, phase: Phase,
                       tenant: string, prefix: string)
    requires Disciplined(keys) && Represents(before, keys, blobs) && id in keys && Within(keys, List(tenant, prefix))
    ensures MakeDirs(before, Parent(PathOf(id))).Ok?
    ensures var made := MakeDirs(before, Parent(PathOf(id))).value;
            var sidecar := SidecarFor(blob.data, blob.contentType, blob.userMetadata);
            ListBlobs(StateAt(made, PathOf(id), blob.data, sidecar, phase), tenant, prefix) ==
            ListingAt(made, blobs, id, blob, phase, tenant, prefix)
  {
    hide PathOf, MakeDirs, WayIsClear, Disciplined, Represents, ListBlobs, ListingAt, Within, StateAt;
    PutClearsTheWay(before, keys, blobs, id);
    ListAtPhase(MakeDirs(before, Parent(PathOf(id))).value, keys, blobs, id, blob, phase, tenant, prefix);
  }

  lemma ListAtPhase(made: Tree, keys: set<Id>, blobs: BlobMap, id: Id, blob: Blob, phase: Phase,
                    tenant: string, prefix: string)
    requires Disciplined(keys) && Represents(made, keys, blobs) && id in keys && Within(keys, List(tenant, prefix))
    requires WayIsClear(made, PathOf(id))
    ensures var sidecar := SidecarFor(blob.data, blob.contentType, blob.userMetadata);
            ListBlobs(StateAt(made, PathOf(id), blob.data, sidecar, phase), tenant, prefix) ==
            ListingAt(made, blobs, id, blob, phase, tenant, prefix)
  {
    hide PathOf, TmpPath, MetaPath, Disciplined, Represents, ListBlobs, Refs, Within;
    ListRefines(made, keys, blobs, tenant, prefix);
    ListsRefs(blobs, tenant, prefix);
    assert Unlink(made, TmpPath(PathOf(id))) == made;
    match phase
    case DirectoriesMade =>
    case CleanedUp =>
    case Staging(part) =>
      if id.0 == tenant && prefix <= id.1 + TMP_SUFFIX {
        StagedListed(made, keys, blobs, id, part, prefix);
      } else {
        StagedNotListed(made, keys, blobs, id, part, tenant, prefix);
      }
    case Renamed =>
      if MetaPath(PathOf(id)) in made.files {
        OldSidecarListed(made, keys, blobs, id, blob.data, tenant, prefix);
      } else {
        BareListed(made, keys, blobs, id, blob.data, tenant, prefix);
      }
    case SidecarOpened =>
      if id.0 == tenant && prefix <= id.1 {
        TruncatedUnreadable(made, keys, blobs, id, blob.data, tenant, prefix);
      } else {
        TruncatedUnlisted(made, keys, blobs, id, blob.data, tenant, prefix);
      }
    case SidecarWritten =>
      CompleteListed(made, keys, blobs, id, blob, tenant, prefix);
  }

  lemma BareListed(t: Tree, keys: set<Id>, blobs: BlobMap, id: Id, data: seq<byte>, tenant: string, prefix: string)
    requires Disciplined(keys) && Represents(t, keys, blobs) && id in keys && Parent(PathOf(id)) in t.dirs
    requires Within(keys, List(tenant, prefix)) && MetaPath(PathOf(id)) !in t.files
    ensures ListBlobs(WriteContent(t, PathOf(id), Bytes(data)), tenant, prefix) ==
            Listed(Refs(blobs[id := Blob(data, None, map[])], tenant, prefix))
  {
    hide PathOf, MetaPath, Disciplined, Represents, ListBlobs, Refs, Within;
    var bare := blobs[id := Blob(data, None, map[])];
    BareRepresents(t, keys, blobs, id, data);
    ListRefines(WriteContent(t, PathOf(id), Bytes(data)), keys, bare, tenant, prefix);
    ListsRefs(bare, tenant, prefix);
  }

  lemma CompleteListed(t: Tree, keys: set<Id>, blobs: BlobMap, id: Id, blob: Blob, tenant: string, prefix: string)
    requires Disciplined(keys) && Represents(t, keys, blobs) && id in keys && Parent(PathOf(id)) in t.dirs
    requires Within(keys, List(tenant, prefix))
    ensures var sidecar := SidecarFor(blob.data, blob.contentType, blob.userMetadata);
            var written := WriteContent(WriteContent(t, PathOf(id), Bytes(blob.data)), MetaPath(PathOf(id)), Json(sidecar));
            ListBlobs(written, tenant, prefix) == Listed(Refs(blobs[id := blob], tenant, prefix))
  {
    hide PathOf, MetaPath, Disciplined, Represents, ListBlobs, Refs, Within;
    var p, sidecar := PathOf(id), SidecarFor(blob.data, blob.contentType, blob.userMetadata);
    StoredRepresents(t, keys, blobs, id, blob);
    var written := t.(files := t.files[p := Bytes(blob.data)][MetaPath(p) := Json(sidecar)]);
    ListRefines(written, keys, blobs[id := blob], tenant, prefix);
    ListsRefs(blobs[id := blob], tenant, prefix);
  }

  lemma ListsRefs(blobs: BlobMap, tenant: string, prefix: string)
    ensures MapStep(blobs, List(tenant, prefix)).1 == Listed(Refs(blobs, tenant, prefix))
  {
  }
}
