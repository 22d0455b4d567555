/** The key discipline is exactly what the filesystem layout needs: a set of keys
    satisfies it if and only if every run on those keys behaves like the port's map. */
module KeyDiscipline {
  import opened Wrappers
  import opened Text
  import opened BlobStore
  import opened FileTree
  import opened FilesystemAdapter
  import opened FilesystemRefinement

  ghost predicate BehavesLikeMap(ops: seq<Op>) {
    FsRun(EMPTY_TREE, ops).1 == MapRun(map[], ops).1
  }

  ghost predicate RunWithin(keys: set<Id>, ops: seq<Op>) {
    forall op | op in ops :: Within(keys, op)
  }

  function PlainPut(id: Id): Op {
    Op.Put(id.0, id.1, Buffer([]), None, map[], false)
  }

  /** A put that reports success found no file above its path and no directory on its paths. */
  lemma StoredEffects(t: Tree, p: Path, tenant: string, key: string)
    requires p != [] && WriteBlob(t, p, tenant, key, Buffer([]), None, map[]).1.Stored?
    ensures var t' := WriteBlob(t, p, tenant, key, Buffer([]), None, map[]).0;
            && t'.files == (t.files - {TmpPath(p)})[p := Bytes([])][MetaPath(p) := Json(SidecarFor([], None, map[]))]
            && t'.dirs == t.dirs + Prefixes(Parent(p))
            && TmpPath(p) !in t'.dirs
    ensures forall q | q < p :: q !in t.files
  {
    PutPathsDiffer(p);
    forall q | q < p
      ensures q in Prefixes(Parent(p))
    {
      PrefixOf(Parent(p), q);
    }
  }

  lemma PutStored(t: Tree, id: Id)
    requires ValidId(id) && FsStep(t, PlainPut(id)).1.Stored?
    ensures var (t', p) := (FsStep(t, PlainPut(id)).0, PathOf(id));
            && t'.files == (t.files - {TmpPath(p)})[p := Bytes([])][MetaPath(p) := Json(SidecarFor([], None, map[]))]
            && t'.dirs == t.dirs + Prefixes(Parent(p))
            && TmpPath(p) !in t'.dirs
    ensures forall q | q < PathOf(id) :: q !in t.files
  {
    ResolveValid(id);
    hide PathOf, Resolve, WriteBlob, TmpPath, MetaPath, Prefixes;
    PutStep(t, PlainPut(id), PathOf(id));
    StoredEffects(t, PathOf(id), id.0, id.1);
  }

  lemma NotFetched(t: Tree, id: Id)
    requires ValidId(id) && !(PathOf(id) in t.files && t.files[PathOf(id)].Bytes?)
    ensures !FsStep(t, Get(id.0, id.1)).1.Fetched?
  {
    ResolveValid(id);
    hide PathOf, Resolve, LoadMeta;
  }

  /** Two keys that clash: writing a, b, a again and reading b cannot all succeed. */
  lemma ClashingPuts(a: Id, b: Id, t1: Tree, t2: Tree, t3: Tree)
    requires ValidId(a) && ValidId(b) && Clash(PathOf(a), PathOf(b))
    requires FsStep(EMPTY_TREE, PlainPut(a)).1.Stored? && t1 == FsStep(EMPTY_TREE, PlainPut(a)).0
    requires FsStep(t1, PlainPut(b)).1.Stored? && t2 == FsStep(t1, PlainPut(b)).0
    requires FsStep(t2, PlainPut(a)).1.Stored? && t3 == FsStep(t2, PlainPut(a)).0
    ensures !FsStep(t3, Get(b.0, b.1)).1.Fetched?
  {
    hide FsStep, PathOf, TmpPath, MetaPath, Prefixes, ValidId;
    var p, q := PathOf(a), PathOf(b);
    PutPathsDiffer(p);
    PutStored(EMPTY_TREE, a);
    PutStored(t1, b);
    PutStored(t2, a);
    assert p in t1.files && MetaPath(p) in t1.files;
    assert !(p < q) && !(MetaPath(p) < q);
    PrefixOf(Parent(q), TmpPath(p));
    assert q == TmpPath(p) || q == MetaPath(p);
    NotFetched(t3, b);
  }

  lemma MapPuts(a: Id, b: Id)
    requires a != b
    ensures var r := MapRun(map[], [PlainPut(a), PlainPut(b), PlainPut(a), Get(b.0, b.1)]).1;
            |r| == 4 && r[0].Stored? && r[1].Stored? && r[2].Stored? && r[3].Fetched?
  {
    var ops := [PlainPut(a), PlainPut(b), PlainPut(a), Get(b.0, b.1)];
    var m1 := MapStep(map[], ops[0]).0;
    var m2 := MapStep(m1, ops[1]).0;
    var m3 := MapStep(m2, ops[2]).0;
    assert ops[1..] == [ops[1], ops[2], ops[3]] && ops[1..][1..] == [ops[2], ops[3]] && ops[1..][1..][1..] == [ops[3]];
    assert ops[1..][1..][1..][1..] == [];
    assert MapRun(m3, [ops[3]]).1 == [MapStep(m3, ops[3]).1];
    assert MapRun(m2, [ops[2], ops[3]]).1 == [MapStep(m2, ops[2]).1] + MapRun(m3, [ops[3]]).1;
    assert MapRun(m1, [ops[1], ops[2], ops[3]]).1 == [MapStep(m1, ops[1]).1] + MapRun(m2, [ops[2], ops[3]]).1;
  }

  lemma FsFourSteps(t: Tree, ops: seq<Op>)
    requires |ops| == 4
    ensures var t1 := FsStep(t, ops[0]).0;
            var t2 := FsStep(t1, ops[1]).0;
            var t3 := FsStep(t2, ops[2]).0;
            FsRun(t, ops).1 ==
              [FsStep(t, ops[0]).1, FsStep(t1, ops[1]).1, FsStep(t2, ops[2]).1, FsStep(t3, ops[3]).1]
  {
    hide FsStep;
    assert ops[1..][1..] == ops[2..] && ops[2..][1..] == ops[3..] && ops[3..][1..] == [];
    var t1 := FsStep(t, ops[0]).0;
    var t2 := FsStep(t1, ops[1]).0;
    var t3 := FsStep(t2, ops[2]).0;
    assert FsRun(t3, ops[3..]).1 == [FsStep(t3, ops[3]).1];
    assert FsRun(t2, ops[2..]).1 == [FsStep(t2, ops[2]).1] + FsRun(t3, ops[3..]).1;
    assert FsRun(t1, ops[1..]).1 == [FsStep(t1, ops[1]).1] + FsRun(t2, ops[2..]).1;
  }

  lemma ClashBreaksRun(keys: set<Id>, a: Id, b: Id)
    requires a in keys && b in keys && a != b && ValidId(a) && ValidId(b) && Clash(PathOf(a), PathOf(b))
    ensures exists ops | RunWithin(keys, ops) :: !BehavesLikeMap(ops)
  {
    hide FsStep, MapStep, PathOf, ValidId, Clash;
    var ops := [PlainPut(a), PlainPut(b), PlainPut(a), Get(b.0, b.1)];
    assert RunWithin(keys, ops);
    MapPuts(a, b);
    FsFourSteps(EMPTY_TREE, ops);
    if BehavesLikeMap(ops) {
      var t1 := FsStep(EMPTY_TREE, ops[0]).0;
      var t2 := FsStep(t1, ops[1]).0;
      ClashingPuts(a, b, t1, t2, FsStep(t2, ops[2]).0);
    }
  }

  lemma NoSelfClash(p: Path)
    requires p != []
    ensures !Clash(p, p)
  {
    PutPathsDiffer(p);
  }

  /** A key whose last name looks like a sidecar is stored but never listed. */
  lemma HiddenFromList(id: Id)
    requires ValidId(id) && EndsWith(PathOf(id)[|PathOf(id)| - 1], META_SUFFIX)
    requires FsStep(EMPTY_TREE, PlainPut(id)).1.Stored?
    ensures ListBlobs(FsStep(EMPTY_TREE, PlainPut(id)).0, id.0, "") == Listed({})
  {
    TenantRoot(id.0);
    PutStored(EMPTY_TREE, id);
    hide FsStep, PathOf, TmpPath, MetaPath, Prefixes, ValidId, ListRoot, EndsWith;
    var t := FsStep(EMPTY_TREE, PlainPut(id)).0;
    SidecarsAreSkipped(PathOf(id));
    assert ListedFiles(t, [id.0], "") == {};
    assert RefsOf(t, id.0, {}) == {};
  }

  function PlainRef(id: Id): BlobRef {
    RefOf(id, Blob([], None, map[]))
  }

  /** A put that is not accepted, or whose blob is not listed under its own key, departs from the map. */
  lemma UnlistedBreaksRun(keys: set<Id>, id: Id)
    requires id in keys && ValidTenant(id.0)
    requires FsStep(EMPTY_TREE, PlainPut(id)).1.Stored? ==>
               var listing := ListBlobs(FsStep(EMPTY_TREE, PlainPut(id)).0, id.0, "");
               !(listing.Listed? && PlainRef(id) in listing.refs)
    ensures exists ops | RunWithin(keys, ops) :: !BehavesLikeMap(ops)
  {
    var ops := [PlainPut(id), List(id.0, "")];
    assert !Escapes("") by {
      assert Parts("") == [];
    }
    assert RunWithin(keys, ops);
    assert ops[1..] == [List(id.0, "")] && ops[1..][1..] == [];
    var m := MapStep(map[], ops[0]).0;
    var refs := MapStep(m, ops[1]).1.refs;
    assert m == map[id := Blob([], None, map[])] && "" <= id.1;
    assert PlainRef(id) in refs;
    assert MapRun(m, ops[1..]).1 == [Listed(refs)];
    assert MapRun(map[], ops).1 == [MapStep(map[], ops[0]).1] + [Listed(refs)];
    hide ListBlobs;
    var t := FsStep(EMPTY_TREE, ops[0]).0;
    assert FsRun(t, ops[1..]).1 == [ListBlobs(t, id.0, "")];
    assert FsRun(EMPTY_TREE, ops).1 == [FsStep(EMPTY_TREE, ops[0]).1] + [ListBlobs(t, id.0, "")];
    assert FsRun(EMPTY_TREE, ops).1[0] != MapRun(map[], ops).1[0] || FsRun(EMPTY_TREE, ops).1[1] != MapRun(map[], ops).1[1];
    assert !BehavesLikeMap(ops);
  }

  lemma MetaNameBreaksRun(keys: set<Id>, id: Id)
    requires id in keys && ValidId(id) && EndsWith(PathOf(id)[|PathOf(id)| - 1], META_SUFFIX)
    ensures exists ops | RunWithin(keys, ops) :: !BehavesLikeMap(ops)
  {
    hide PathOf, EndsWith, FsStep, ListBlobs, BehavesLikeMap, RunWithin;
    if FsStep(EMPTY_TREE, PlainPut(id)).1.Stored? {
      HiddenFromList(id);
    }
    UnlistedBreaksRun(keys, id);
  }

  // --- Keys that are not in normal form ------------------------------

  lemma {:induction false} PartsArePlain(parts: seq<string>)
    ensures forall part | part in DropEmptyAndDot(parts) :: part in parts && part != "" && part != "."
  {
    if parts != [] {
      PartsArePlain(parts[1..]);
      assert forall part | part in parts[1..] :: part in parts;
    }
  }

  /** Only normal keys are what their parts join to. */
  lemma JoinedPartsAreNormal(key: string)
    requires Parts(key) != [] && Join(Parts(key), '/') == key
    ensures Split(key, '/') == Parts(key)
    ensures forall part | part in Split(key, '/') :: part != "" && part != "."
  {
    PartsArePlain(Split(key, '/'));
    SplitJoin(Parts(key), '/');
  }

  lemma NotNormal(id: Id)
    requires Resolve(id.0, id.1).Ok? && !ValidId(id)
    ensures Parts(id.1) != [] ==> Join(Parts(id.1), '/') != id.1
  {
    if Parts(id.1) != [] && Join(Parts(id.1), '/') == id.1 {
      JoinedPartsAreNormal(id.1);
    }
  }

  lemma ListedUnderOtherName(id: Id)
    requires Resolve(id.0, id.1).Ok? && !ValidId(id) && FsStep(EMPTY_TREE, PlainPut(id)).1.Stored?
    ensures var listing := ListBlobs(FsStep(EMPTY_TREE, PlainPut(id)).0, id.0, "");
            !(listing.Listed? && PlainRef(id) in listing.refs)
  {
    var p := Resolve(id.0, id.1).value;
    var t := FsStep(EMPTY_TREE, PlainPut(id)).0;
    NotNormal(id);
    PutStep(EMPTY_TREE, PlainPut(id), p);
    StoredEffects(EMPTY_TREE, p, id.0, id.1);
    TenantRoot(id.0);
    SidecarsAreSkipped(p);
    assert p[1..] == Parts(id.1);
    hide FsStep, WriteBlob, Parts, MetaPath, TmpPath, EndsWith, ListRoot, Prefixes;
    forall f | f in ListedFiles(t, [id.0], "")
      ensures f == p && RelativeKey([id.0], f) != id.1
    {
    }
    hide IsListed;
    var listing := ListBlobs(t, id.0, "");
    if listing.Listed? {
      forall r | r in listing.refs
        ensures r.key != id.1
      {
      }
    }
  }

  /** A key that is refused, or that has empty or `.` segments, departs from the map on its own. */
  lemma InvalidIdBreaksRun(keys: set<Id>, id: Id)
    requires id in keys && !ValidId(id)
    ensures exists ops | RunWithin(keys, ops) :: !BehavesLikeMap(ops)
  {
    if Resolve(id.0, id.1).Err? {
      var ops := [PlainPut(id)];
      assert RunWithin(keys, ops) && ops[1..] == [];
      assert FsRun(EMPTY_TREE, ops).1 == [FsStep(EMPTY_TREE, ops[0]).1];
      assert MapRun(map[], ops).1 == [MapStep(map[], ops[0]).1];
      assert FsRun(EMPTY_TREE, ops).1[0] != MapRun(map[], ops).1[0];
    } else {
      hide FsStep, ListBlobs, ValidId, BehavesLikeMap, RunWithin;
      if FsStep(EMPTY_TREE, PlainPut(id)).1.Stored? {
        ListedUnderOtherName(id);
      }
      UnlistedBreaksRun(keys, id);
    }
  }

  /** Main result, for any set of keys whatever: the discipline holds if and only if all runs on the
      keys behave like the map. */
  lemma DisciplineIsExact(keys: set<Id>)
    ensures Disciplined(keys) <==> forall ops | RunWithin(keys, ops) :: BehavesLikeMap(ops)
  {
    hide PathOf, Clash, EndsWith, FsRun, MapRun, Within, ValidId;
    if Disciplined(keys) {
      forall ops | RunWithin(keys, ops)
        ensures BehavesLikeMap(ops)
      {
        EmptyTreeRepresents(keys);
        RunRefines(EMPTY_TREE, keys, map[], ops);
      }
    } else if id :| id in keys && !ValidId(id) {
      InvalidIdBreaksRun(keys, id);
    } else if id :| id in keys && EndsWith(PathOf(id)[|PathOf(id)| - 1], META_SUFFIX) {
      MetaNameBreaksRun(keys, id);
    } else {
      var a, b :| a in keys && b in keys && Clash(PathOf(a), PathOf(b));
      NoSelfClash(PathOf(a));
      ClashBreaksRun(keys, a, b);
    }
  }
}
