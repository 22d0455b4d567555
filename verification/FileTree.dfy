/** A file tree without symbolic links, and the operating-system calls the
    filesystem adapter makes on it. */
module FileTree {
  import opened Wrappers
  import opened BlobStore

  /** Path components below the store's root; [] is the root itself. */
  type Path = seq<string>

  datatype Sidecar = Sidecar(contentType: Option<string>, userMetadata: UserMetadata, etag: Etag, size: nat)

  /** File contents: raw bytes, or the JSON text of a sidecar.  Raw bytes never parse as a sidecar. */
  datatype Content = Bytes(data: seq<byte>) | Json(meta: Sidecar)

  datatype Tree = Tree(files: map<Path, Content>, dirs: set<Path>)

  const EMPTY_TREE := Tree(map[], {[]})

  function Parent(p: Path): Path
    requires p != []
  {
    p[..|p| - 1]
  }

  function WithSuffix(p: Path, suffix: string): Path
    requires p != []
  {
    Parent(p) + [p[|p| - 1] + suffix]
  }

  predicate WellFormed(t: Tree) {
    && [] in t.dirs
    && t.files.Keys !! t.dirs
    && (forall p | p in t.files :: p != [] && Parent(p) in t.dirs)
    && (forall p | p in t.dirs && p != [] :: Parent(p) in t.dirs)
  }

  predicate Exists(t: Tree, p: Path) {
    p in t.files || p in t.dirs
  }

  function Prefixes(p: Path): set<Path> {
    set i | 0 <= i <= |p| :: p[..i]
  }

  /** makedirs(p, exist_ok=True): fails when a file is in the way, then creates nothing. */
  function MakeDirs(t: Tree, p: Path): Result<Tree, StoreError> {
    if exists q :: q in Prefixes(p) && q in t.files then Err(IoFailure)
    else Ok(t.(dirs := t.dirs + Prefixes(p)))
  }

  /** open(p, "w"): creates or truncates. */
  function OpenTruncating(t: Tree, p: Path): Result<Tree, StoreError>
    requires p != []
  {
    if p in t.dirs || Parent(p) !in t.dirs then Err(IoFailure)
    else Ok(t.(files := t.files[p := Bytes([])]))
  }

  function WriteContent(t: Tree, p: Path, content: Content): Tree {
    t.(files := t.files[p := content])
  }

  function Unlink(t: Tree, p: Path): Tree {
    t.(files := t.files - {p})
  }

  /** os.replace(source, target): refuses a directory as target. */
  function Replace(t: Tree, source: Path, target: Path): Result<Tree, StoreError>
    requires source in t.files
  {
    if target in t.dirs then Err(IoFailure)
    else Ok(t.(files := (t.files - {source})[target := t.files[source]]))
  }

  lemma PrefixOf(p: Path, q: Path)
    ensures q in Prefixes(p) <==> q <= p
  {
    if q <= p {
      assert p[..|q|] == q;
    }
  }

  lemma WrittenWellFormed(t: Tree, p: Path, content: Content)
    requires WellFormed(t) && p != [] && Parent(p) in t.dirs && p !in t.dirs
    ensures WellFormed(WriteContent(t, p, content))
  {
  }

  /** In a well-formed tree every proper ancestor of a file or directory is a directory. */
  lemma {:induction false} AncestorsAreDirs(t: Tree, p: Path, q: Path)
    requires WellFormed(t) && Exists(t, p) && q < p
    ensures q in t.dirs
    decreases |p|
  {
    if |q| == |p| - 1 {
      assert q == Parent(p);
    } else {
      assert q < Parent(p);
      AncestorsAreDirs(t, Parent(p), q);
    }
  }
}
