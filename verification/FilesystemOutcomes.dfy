/** What each operation of the filesystem adapter does on any tree that a run can leave, whatever the keys:
    exactly when it succeeds, and what a directory in the way does to it. */
module FilesystemOutcomes {
  import opened Wrappers
  import opened BlobStore
  import opened FileTree
  import opened FilesystemAdapter

  // --- Trees stay well-formed ----------------------------------------

  lemma MadeWellFormed(t: Tree, p: Path)
    requires WellFormed(t) && MakeDirs(t, p).Ok?
    ensures WellFormed(MakeDirs(t, p).value) && p in MakeDirs(t, p).value.dirs
  {
    var made := MakeDirs(t, p).value;
    PrefixOf(p, p);
    forall q | q in Prefixes(p) && q != []
      ensures Parent(q) in Prefixes(p)
    {
      PrefixOf(p, q);
      PrefixOf(p, Parent(q));
    }
  }

  lemma UnlinkedWellFormed(t: Tree, p: Path)
    requires WellFormed(t)
    ensures WellFormed(Unlink(t, p))
  {
  }

  lemma WriteBlobWellFormed(t: Tree, p: Path, op: Op)
    requires op.Put? && WellFormed(t) && p != []
    ensures WellFormed(WriteBlob(t, p, op.tenant, op.key, op.source, op.contentType, op.userMetadata).0)
  {
    hide WellFormed, Prefixes, TmpPath, MetaPath, WriteContent, Unlink;
    PutPathsDiffer(p);
    if MakeDirs(t, Parent(p)).Ok? {
      var made := MakeDirs(t, Parent(p)).value;
      var (t2, error) := SwapIn(made, p, op.source);
      MadeWellFormed(t, Parent(p));
      UnlinkedWellFormed(made, TmpPath(p));
      assert Unlink(made, TmpPath(p)).dirs == made.dirs by { UnlinkKeepsDirs(made, TmpPath(p)); }
      if p !in made.dirs {
        WrittenWellFormed(Unlink(made, TmpPath(p)), p, Bytes(ContentOf(op.source)));
      }
      if MetaPath(p) !in t2.dirs && Parent(p) in t2.dirs {
        WrittenWellFormed(t2, MetaPath(p), Json(SidecarFor(ContentOf(op.source), op.contentType, op.userMetadata)));
      }
    }
  }

  lemma UnlinkKeepsDirs(t: Tree, p: Path)
    ensures Unlink(t, p).dirs == t.dirs
  {
  }

  lemma StepWellFormed(t: Tree, op: Op)
    requires WellFormed(t)
    ensures WellFormed(FsStep(t, op).0)
  {
    hide WellFormed, Resolve, WriteBlob, MetaPath, LoadMeta, Unlink;
    match op {
      case Put(tenant, key, _, _, _, _) =>
        if Resolve(tenant, key).Ok? {
          WriteBlobWellFormed(t, Resolve(tenant, key).value, op);
        }
      case Delete(tenant, key) =>
        if Resolve(tenant, key).Ok? {
          var p := Resolve(tenant, key).value;
          UnlinkedWellFormed(t, p);
          UnlinkedWellFormed(Unlink(t, p), MetaPath(p));
        }
      case _ =>
    }
  }

  /** Whatever keys a run uses, its files stay below directories; so the conditions below are those of
      every run. */
  lemma {:induction false} RunWellFormed(t: Tree, ops: seq<Op>)
    requires WellFormed(t)
    ensures WellFormed(FsRun(t, ops).0)
    decreases |ops|
  {
    hide WellFormed, FsStep;
    if ops != [] {
      StepWellFormed(t, ops[0]);
      RunWellFormed(FsStep(t, ops[0]).0, ops[1..]);
    }
  }

  // --- Exactly when an operation succeeds ----------------------------

  /** On any well-formed tree, whatever keys made it: a put of a resolved key stores exactly when its source
      does not fail, no file lies above its path, and none of its three paths is a directory; and a
      conditional one only when nothing is there. */
  lemma PutStoresIff(t: Tree, op: Op, p: Path)
    requires op.Put? && WellFormed(t) && Resolve(op.tenant, op.key) == Ok(p)
    ensures FsStep(t, op).1.Stored? <==>
              && !Broken(op.source)
              && (forall q | q < p :: q !in t.files)
              && t.dirs !! {p, TmpPath(p), MetaPath(p)}
              && (op.ifNoneMatch ==> p !in t.files)
  {
    hide Resolve, Prefixes, TmpPath, MetaPath, WellFormed;
    PutPathsDiffer(p);
    PathsAbove(t, p);
    PathsUnder(t, p);
  }

  /** A put that finds a directory at its sidecar's path has already replaced the blob when it fails. */
  lemma PutWithoutSidecar(t: Tree, op: Op, p: Path)
    requires op.Put? && !op.ifNoneMatch && WellFormed(t) && Resolve(op.tenant, op.key) == Ok(p)
    requires !Broken(op.source) && t.dirs !! {p, TmpPath(p)} && MetaPath(p) in t.dirs
    ensures FsStep(t, op) == (t.(files := (t.files - {TmpPath(p)})[p := Bytes(ContentOf(op.source))]), Failed(IoFailure))
  {
    PutPathsDiffer(p);
    AboveMeta(t, p);
    hide Resolve, Prefixes, TmpPath, MetaPath, WellFormed;
  }

  lemma PathsAbove(t: Tree, p: Path)
    requires p != []
    ensures MakeDirs(t, Parent(p)).Ok? <==> forall q | q < p :: q !in t.files
  {
    forall q
      ensures q in Prefixes(Parent(p)) <==> q < p
    {
      PrefixOf(Parent(p), q);
      if q < p {
        assert q <= Parent(p);
      }
    }
  }

  /** The directories above a path are not the three paths of a put. */
  lemma PathsUnder(t: Tree, p: Path)
    requires p != []
    ensures Prefixes(Parent(p)) !! {p, TmpPath(p), MetaPath(p)} && Parent(p) in Prefixes(Parent(p))
  {
    forall q | q in Prefixes(Parent(p))
      ensures |q| < |p|
    {
      PrefixOf(Parent(p), q);
    }
    PrefixOf(Parent(p), Parent(p));
  }

  lemma AboveMeta(t: Tree, p: Path)
    requires WellFormed(t) && p != [] && MetaPath(p) in t.dirs
    ensures MakeDirs(t, Parent(p)) == Ok(t) && Parent(p) in t.dirs
  {
    var m := MetaPath(p);
    assert Parent(m) == Parent(p);
    forall q | q in Prefixes(Parent(p))
      ensures q in t.dirs
    {
      PrefixOf(Parent(p), q);
      assert q < m;
      AncestorsAreDirs(t, m, q);
    }
    assert t.dirs + Prefixes(Parent(p)) == t.dirs;
  }

  /** A get answers with data exactly when there is a file at the path whose sidecar, if it has one, is whole;
      it is absent exactly when nothing is there, and fails otherwise, as on a directory. */
  lemma GetFetchesIff(t: Tree, tenant: string, key: string, p: Path)
    requires WellFormed(t) && Resolve(tenant, key) == Ok(p)
    ensures var (t', outcome) := FsStep(t, Get(tenant, key));
            && t' == t
            && (outcome.Fetched? <==> && p in t.files && t.files[p].Bytes? && MetaPath(p) !in t.dirs
                                      && (MetaPath(p) in t.files ==> t.files[MetaPath(p)].Json?))
            && (outcome.Fetched? ==>
                  && outcome.data == t.files[p].data
                  && outcome.ref == if MetaPath(p) in t.files then
                                      var s := t.files[MetaPath(p)].meta; BlobRef(tenant, key, s.etag, s.size, s.contentType)
                                    else BlobRef(tenant, key, Sha256(outcome.data), |outcome.data|, None))
            && (outcome == Failed(NotFound) <==> p !in t.files && p !in t.dirs)
            && (outcome.Fetched? || outcome == Failed(NotFound) || outcome == Failed(IoFailure))
  {
    hide Resolve, MetaPath;
  }

  /** A head never fails on a directory that has a whole sidecar beside it. */
  lemma HeadDescribesIff(t: Tree, tenant: string, key: string, p: Path)
    requires WellFormed(t) && Resolve(tenant, key) == Ok(p)
    ensures var (t', outcome) := FsStep(t, Head(tenant, key));
            && t' == t
            && (outcome == Absent <==> p !in t.files && p !in t.dirs)
            && (outcome.Described? <==>
                  || ((p in t.files || p in t.dirs) && MetaPath(p) in t.files && t.files[MetaPath(p)].Json?)
                  || (p in t.files && t.files[p].Bytes? && MetaPath(p) !in t.files && MetaPath(p) !in t.dirs))
            && (outcome.Described? && MetaPath(p) in t.files ==>
                  var s := t.files[MetaPath(p)].meta;
                  outcome.meta == BlobMetadata(tenant, key, s.size, s.etag, s.contentType, s.userMetadata))
            && (outcome == Absent || outcome.Described? || outcome == Failed(IoFailure))
  {
    hide Resolve, MetaPath;
  }

  /** A delete succeeds exactly when neither path is a directory.  When only the sidecar's is, the blob is gone
      all the same. */
  lemma DeleteSucceedsIff(t: Tree, tenant: string, key: string, p: Path)
    requires Resolve(tenant, key) == Ok(p)
    ensures var (t', outcome) := FsStep(t, Delete(tenant, key));
            && (outcome == Deleted <==> p !in t.dirs && MetaPath(p) !in t.dirs)
            && (outcome == Deleted || outcome == Failed(IoFailure))
            && t'.dirs == t.dirs
            && t'.files == (if p in t.dirs then t.files
                            else if MetaPath(p) in t.dirs then t.files - {p}
                            else t.files - {p, MetaPath(p)})
  {
    hide Resolve, MetaPath;
    assert t.files - {p} - {MetaPath(p)} == t.files - {p, MetaPath(p)};
  }

  /** On any well-formed tree: what a put has stored, get and head answer, with the size and digest of the
      bytes and the content type and user metadata of the put. */
  lemma StoredIsRead(t: Tree, op: Op, p: Path)
    requires op.Put? && WellFormed(t) && Resolve(op.tenant, op.key) == Ok(p) && FsStep(t, op).1.Stored?
    ensures var (t', data) := (FsStep(t, op).0, ContentOf(op.source));
            var ref := BlobRef(op.tenant, op.key, Sha256(data), |data|, op.contentType);
            && FsStep(t, op).1 == Stored(ref)
            && FsStep(t', Get(op.tenant, op.key)).1 == Fetched(ref, data)
            && FsStep(t', Head(op.tenant, op.key)).1 ==
               Described(BlobMetadata(op.tenant, op.key, |data|, Sha256(data), op.contentType, op.userMetadata))
  {
    hide Resolve, Prefixes, TmpPath, MetaPath, WellFormed;
    PutPathsDiffer(p);
  }

  /** After a delete that succeeds, nothing is there. */
  lemma DeletedIsGone(t: Tree, tenant: string, key: string, p: Path)
    requires Resolve(tenant, key) == Ok(p) && FsStep(t, Delete(tenant, key)).1 == Deleted
    ensures var t' := FsStep(t, Delete(tenant, key)).0;
            && FsStep(t', Get(tenant, key)).1 == Failed(NotFound) && FsStep(t', Head(tenant, key)).1 == Absent
  {
    hide Resolve, MetaPath;
  }
}
