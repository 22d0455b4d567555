/** The keys everybody uses, in written-out names: no special suffix, no key below another.  On them the
    store behaves like the port's map and lists every key; and which keys are refused. */
module PlainKeys {
  import opened Wrappers
  import opened Text
  import opened BlobStore
  import opened FileTree
  import opened FilesystemAdapter
  import opened FilesystemRefinement

  // --- Plain keys ----------------------------------------------------

  predicate PlainSegment(s: string) {
    && s != "" && s != "." && s != ".."
    && !(|s| >= 4 && s[|s| - 4..] == ".tmp")
    && !(|s| >= 10 && s[|s| - 10..] == ".meta.json")
  }

  predicate PlainTenant(tenant: string) {
    tenant != "" && '/' !in tenant && tenant != "." && tenant != ".."
  }

  /** Plain tenants and segments, and no key of a tenant below another. */
  ghost predicate Plain(keys: set<Id>) {
    && (forall id | id in keys :: PlainTenant(id.0) && forall part | part in Split(id.1, '/') :: PlainSegment(part))
    && (forall a, b | a in keys && b in keys && a.0 == b.0 :: !(a.1 + "/" <= b.1))
  }

  lemma {:induction false} JoinPrefix(a: seq<string>, b: seq<string>)
    requires a != [] && a < b
    ensures Join(a, '/') + "/" <= Join(b, '/')
    decreases |a|
  {
    assert a[0] == b[0];
    if |a| > 1 {
      assert a[1..] < b[1..];
      JoinPrefix(a[1..], b[1..]);
      assert Join(a, '/') + "/" == a[0] + "/" + (Join(a[1..], '/') + "/");
      assert Join(b, '/') == a[0] + "/" + Join(b[1..], '/');
    }
  }

  lemma NotBelow(a: Id, b: Id)
    requires PathOf(a) < PathOf(b)
    ensures a.0 == b.0 && a.1 + "/" <= b.1
  {
    var p, q := PathOf(a), PathOf(b);
    assert p[0] == a.0 && q[0] == b.0;
    assert p[1..] == Split(a.1, '/') && q[1..] == Split(b.1, '/') && p[1..] < q[1..];
    JoinPrefix(p[1..], q[1..]);
    JoinSplit(a.1, '/');
    JoinSplit(b.1, '/');
  }

  lemma SegmentsOf(id: Id, i: nat)
    requires 1 <= i < |PathOf(id)|
    ensures PathOf(id)[i] in Split(id.1, '/')
  {
  }

  lemma SuffixedSegment(p: Path)
    requires p != []
    ensures var (tmp, meta) := (TmpPath(p)[|p| - 1], MetaPath(p)[|p| - 1]);
            && |TmpPath(p)| == |MetaPath(p)| == |p|
            && !PlainSegment(tmp) && !PlainSegment(meta)
  {
    var name := p[|p| - 1];
    assert (name + ".tmp")[|name + ".tmp"| - 4..] == ".tmp";
    assert (name + ".meta.json")[|name + ".meta.json"| - 10..] == ".meta.json";
  }

  lemma PlainDoNotClash(a: Id, b: Id)
    requires !(a.0 == b.0 && a.1 + "/" <= b.1)
    requires forall part | part in Split(b.1, '/') :: PlainSegment(part)
    ensures !Clash(PathOf(a), PathOf(b))
  {
    hide PathOf, TmpPath, MetaPath, PlainSegment;
    var p, q := PathOf(a), PathOf(b);
    if p < q {
      NotBelow(a, b);
    }
    SuffixedSegment(p);
    if |p| <= |q| {
      SegmentsOf(b, |p| - 1);
      assert PlainSegment(q[|p| - 1]);
    }
  }

  /** Plain keys are disciplined, for any set of them. */
  lemma PlainIsDisciplined(keys: set<Id>)
    requires Plain(keys)
    ensures Disciplined(keys)
  {
    forall id | id in keys
      ensures ValidId(id) && !EndsWith(PathOf(id)[|PathOf(id)| - 1], META_SUFFIX)
    {
      SegmentsOf(id, |PathOf(id)| - 1);
      assert PlainSegment(PathOf(id)[|PathOf(id)| - 1]);
    }
    hide PathOf, Clash, EndsWith, ValidId, PlainSegment;
    forall a, b | a in keys && b in keys
      ensures !Clash(PathOf(a), PathOf(b))
    {
      PlainDoNotClash(a, b);
    }
  }

  /** So every run on plain keys behaves like the map. */
  lemma PlainRunsRefine(keys: set<Id>, ops: seq<Op>)
    requires Plain(keys) && forall op | op in ops :: Within(keys, op)
    ensures FsRun(EMPTY_TREE, ops).1 == MapRun(map[], ops).1
  {
    hide Plain, Disciplined, FsRun, MapRun, Within;
    PlainIsDisciplined(keys);
    EmptyTreeRepresents(keys);
    RunRefines(EMPTY_TREE, keys, map[], ops);
  }

  /** After any run on plain keys, `list` with a harmless prefix yields every stored key that has it, with
      its size, tag and content type, and nothing else. */
  lemma StoredKeysAreListed(keys: set<Id>, ops: seq<Op>, tenant: string, prefix: string)
    requires Plain(keys) && forall op | op in ops :: Within(keys, op)
    requires PlainTenant(tenant) && !Absolute(prefix) && ".." !in Split(prefix, '/')
    ensures var (t, blobs) := (FsRun(EMPTY_TREE, ops).0, MapRun(map[], ops).0);
            var listing := FsStep(t, List(tenant, prefix)).1;
            && listing.Listed?
            && (forall id | id in blobs && id.0 == tenant && prefix <= id.1 ::
                  BlobRef(tenant, id.1, Sha256(blobs[id].data), |blobs[id].data|, blobs[id].contentType) in listing.refs)
            && (forall r | r in listing.refs :: (tenant, r.key) in blobs && prefix <= r.key)
  {
    hide Plain, Disciplined, FsRun, MapRun, Represents, Escapes, ListBlobs, Within;
    PlainIsDisciplined(keys);
    EmptyTreeRepresents(keys);
    RunRefines(EMPTY_TREE, keys, map[], ops);
    var t, blobs := FsRun(EMPTY_TREE, ops).0, MapRun(map[], ops).0;
    HarmlessList(keys, tenant, prefix);
    ListRefines(t, keys, blobs, tenant, prefix);
    MapLists(blobs, tenant, prefix);
  }

  lemma HarmlessList(keys: set<Id>, tenant: string, prefix: string)
    requires PlainTenant(tenant) && !Absolute(prefix) && ".." !in Split(prefix, '/')
    ensures Within(keys, List(tenant, prefix))
  {
    EscapesIff(prefix);
  }

  lemma MapLists(blobs: BlobMap, tenant: string, prefix: string)
    ensures var refs := MapStep(blobs, List(tenant, prefix)).1.refs;
            && (forall id | id in blobs && id.0 == tenant && prefix <= id.1 ::
                  BlobRef(tenant, id.1, Sha256(blobs[id].data), |blobs[id].data|, blobs[id].contentType) in refs)
            && (forall r | r in refs :: (tenant, r.key) in blobs && prefix <= r.key)
  {
    forall id | id in blobs && id.0 == tenant && prefix <= id.1
      ensures RefOf(id, blobs[id]) in MapStep(blobs, List(tenant, prefix)).1.refs
    {
    }
  }

  // --- Refusals ------------------------------------------------------

  lemma {:induction false} DotDotKept(parts: seq<string>)
    ensures ".." in DropEmptyAndDot(parts) <==> ".." in parts
  {
    if parts != [] {
      DotDotKept(parts[1..]);
      assert ".." in parts <==> parts[0] == ".." || ".." in parts[1..];
    }
  }

  predicate Absolute(key: string) {
    key != "" && key[0] == '/'
  }

  lemma EscapesIff(key: string)
    ensures Escapes(key) <==> Absolute(key) || ".." in Split(key, '/')
  {
    DotDotKept(Split(key, '/'));
  }

  /** Which tenants and keys are refused, in raw strings. */
  ghost predicate Refused(tenant: string, key: string) {
    || tenant == "" || '/' in tenant || tenant == "." || tenant == ".."
    || Absolute(key) || ".." in Split(key, '/')
  }

  ghost predicate OnKey(op: Op, tenant: string, key: string) {
    match op
    case Put(t, k, _, _, _, _) => t == tenant && k == key
    case Get(t, k) => t == tenant && k == key
    case Head(t, k) => t == tenant && k == key
    case Delete(t, k) => t == tenant && k == key
    case List(_, _) => false
  }

  lemma ResolveRefuses(tenant: string, key: string)
    ensures if Refused(tenant, key) then Resolve(tenant, key) == Err(TenantIsolation) else Resolve(tenant, key).Ok?
  {
    EscapesIff(key);
    hide Escapes, Parts;
  }

  lemma WriteIsNotRefused(t: Tree, p: Path, op: Op)
    requires op.Put? && p != []
    ensures WriteBlob(t, p, op.tenant, op.key, op.source, op.contentType, op.userMetadata).1 != Failed(TenantIsolation)
  {
    hide TmpPath, MetaPath, Prefixes;
  }

  lemma ReadIsNotRefused(t: Tree, p: Path, tenant: string, key: string)
    requires p != []
    ensures LoadMeta(t, p, tenant, key) != Err(TenantIsolation)
  {
    hide MetaPath;
  }

  /** On any tree: exactly the refused tenants and keys raise `TenantIsolationError`, in every operation on
      a key, and a refused operation leaves the tree alone. */
  lemma KeyOperationsRefuseIff(t: Tree, op: Op, tenant: string, key: string)
    requires OnKey(op, tenant, key)
    ensures FsStep(t, op).1 == Failed(TenantIsolation) <==> Refused(tenant, key)
    ensures Refused(tenant, key) ==> FsStep(t, op).0 == t
  {
    ResolveRefuses(tenant, key);
    hide Resolve, Refused, WriteBlob, LoadMeta;
    if Resolve(tenant, key).Ok? {
      var p := Resolve(tenant, key).value;
      ReadIsNotRefused(t, p, tenant, key);
      if op.Put? {
        WriteIsNotRefused(t, p, op);
      }
      hide MetaPath;
    }
  }

  lemma TenantRootIs(tenant: string)
    requires PlainTenant(tenant)
    ensures ListRoot(tenant) == [tenant]
  {
    TenantRoot(tenant);
  }

  /** `list` refuses exactly the prefixes that are absolute or climb, when the tenant has anything stored;
      it never changes the tree. */
  lemma ListRefusesIff(t: Tree, tenant: string, prefix: string)
    requires PlainTenant(tenant)
    ensures FsStep(t, List(tenant, prefix)).1 == Failed(TenantIsolation) <==>
              ([tenant] in t.dirs || [tenant] in t.files) && (Absolute(prefix) || ".." in Split(prefix, '/'))
    ensures FsStep(t, List(tenant, prefix)).0 == t
  {
    TenantRootIs(tenant);
    EscapesIff(prefix);
    NothingEscapes();
    hide Escapes, ListRoot, Readable, RefsOf, ListedFiles;
  }

  lemma NothingEscapes()
    ensures !Escapes("")
  {
    assert Parts("") == [];
  }

  // --- Written out ---------------------------------------------------

  lemma ResolvesTo(tenant: string, key: string, parts: seq<string>)
    requires PlainTenant(tenant) && !Absolute(key) && DropEmptyAndDot(Split(key, '/')) == parts && ".." !in parts
    ensures Resolve(tenant, key) == Ok([tenant] + parts)
  {
    hide Split;
  }

  lemma SuffixedPaths(p: Path, name: string)
    requires |p| >= 1 && p[|p| - 1] == name
    ensures TmpPath(p) == p[..|p| - 1] + [name + ".tmp"] && MetaPath(p) == p[..|p| - 1] + [name + ".meta.json"]
  {
  }

  lemma ConfigPaths()
    ensures Resolve("t", "config.json") == Ok(["t", "config.json"])
    ensures TmpPath(["t", "config.json"]) == ["t", "config.json.tmp"]
    ensures MetaPath(["t", "config.json"]) == ["t", "config.json.meta.json"]
  {
    hide Split, Resolve, TmpPath, MetaPath;
    var key, p := "config.json", ["t", "config.json"];
    SlashFreeSplit(key);
    DropNothing([key]);
    ResolvesTo("t", key, [key]);
    assert ["t"] + [key] == p && p[..1] == ["t"];
    SuffixedPaths(p, key);
    assert key + ".tmp" == "config.json.tmp" && key + ".meta.json" == "config.json.meta.json";
  }

  /** A put of a key that ends in `.json`, and what is on the disk during and after it. */
  lemma ConfigJson()
    ensures var op := Op.Put("t", "config.json", Buffer([1, 2, 3]), Some("application/json"), map[], false);
            var (t, outcome) := FsStep(EMPTY_TREE, op);
            var sidecar := Sidecar(Some("application/json"), map[], Sha256([1, 2, 3]), 3);
            && outcome == Stored(BlobRef("t", "config.json", Sha256([1, 2, 3]), 3, Some("application/json")))
            && t.files == map[["t", "config.json"] := Bytes([1, 2, 3]), ["t", "config.json.meta.json"] := Json(sidecar)]
            && t.dirs == {[], ["t"]}
    ensures TmpPath(["t", "config.json"]) == ["t", "config.json.tmp"]
  {
    hide Resolve, MetaPath, TmpPath, Prefixes, WriteBlob, FsStep;
    ConfigPaths();
    PrefixesOfTenant();
    var op := Op.Put("t", "config.json", Buffer([1, 2, 3]), Some("application/json"), map[], false);
    PutStep(EMPTY_TREE, op, ["t", "config.json"]);
    WriteConfig(["t", "config.json"]);
  }

  lemma PrefixesOfTenant()
    ensures Prefixes(["t"]) == {[], ["t"]}
  {
    assert ["t"][..0] == [] && ["t"][..1] == ["t"];
    forall q
      ensures q in Prefixes(["t"]) <==> q in {[], ["t"]}
    {
      PrefixOf(["t"], q);
    }
  }

  lemma WriteConfig(p: Path)
    requires p == ["t", "config.json"] && Prefixes(["t"]) == {[], ["t"]}
    requires MetaPath(p) == ["t", "config.json.meta.json"] && TmpPath(p) == ["t", "config.json.tmp"]
    ensures var (t, outcome) := WriteBlob(EMPTY_TREE, p, "t", "config.json", Buffer([1, 2, 3]), Some("application/json"), map[]);
            var sidecar := Sidecar(Some("application/json"), map[], Sha256([1, 2, 3]), 3);
            && outcome == Stored(BlobRef("t", "config.json", Sha256([1, 2, 3]), 3, Some("application/json")))
            && t.files == map[["t", "config.json"] := Bytes([1, 2, 3]), ["t", "config.json.meta.json"] := Json(sidecar)]
            && t.dirs == {[], ["t"]}
  {
    hide MetaPath, TmpPath, Prefixes;
    assert Parent(p) == ["t"] && Parent(MetaPath(p)) == ["t"] && Parent(TmpPath(p)) == ["t"];
    var made := MakeDirs(EMPTY_TREE, ["t"]).value;
    assert made == Tree(map[], {[], ["t"]});
    var (t2, error) := SwapIn(made, p, Buffer([1, 2, 3]));
    assert error == None && t2 == Tree(map[p := Bytes([1, 2, 3])], {[], ["t"]});
    assert OpenTruncating(t2, MetaPath(p)).Ok?;
  }

  /** Empty and `.` segments do not count: these three keys are the same file. */
  lemma SameFileThreeKeys(tenant: string)
    requires PlainTenant(tenant)
    ensures Resolve(tenant, "a/b") == Ok([tenant, "a", "b"])
    ensures Resolve(tenant, "a//b") == Ok([tenant, "a", "b"])
    ensures Resolve(tenant, "a/./b") == Ok([tenant, "a", "b"])
  {
    hide Split, Join, Resolve, Parts;
    JoinsWritten();
    SplitJoin(["a", "b"], '/');
    SplitJoin(["a", "", "b"], '/');
    SplitJoin(["a", ".", "b"], '/');
    DropMiddle("");
    DropMiddle(".");
    DropNothing(["a", "b"]);
    assert [tenant] + ["a", "b"] == [tenant, "a", "b"];
    ResolvesTo(tenant, "a/b", ["a", "b"]);
    ResolvesTo(tenant, "a//b", ["a", "b"]);
    ResolvesTo(tenant, "a/./b", ["a", "b"]);
  }

  lemma JoinsWritten()
    ensures Join(["a", "b"], '/') == "a/b" && Join(["a", "", "b"], '/') == "a//b" && Join(["a", ".", "b"], '/') == "a/./b"
  {
    assert ["a", "b"][1..] == ["b"];
    assert ["a", "", "b"][1..] == ["", "b"] && ["", "b"][1..] == ["b"];
    assert ["a", ".", "b"][1..] == [".", "b"] && [".", "b"][1..] == ["b"];
  }

  lemma DropMiddle(dot: string)
    requires dot == "" || dot == "."
    ensures DropEmptyAndDot(["a", dot, "b"]) == ["a", "b"]
  {
    assert ["a", dot, "b"][1..] == [dot, "b"] && [dot, "b"][1..] == ["b"] && ["b"][1..] == [];
    assert DropEmptyAndDot(["b"]) == ["b"];
    assert DropEmptyAndDot([dot, "b"]) == ["b"];
  }
}
