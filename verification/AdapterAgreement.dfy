/** Both adapters answer alike: swapping one for the other is invisible on disciplined keys,
    except for entity tags and the content types S3 does not report. */
module AdapterAgreement {
  import opened Text
  import opened BlobStore
  import opened FileTree
  import opened FilesystemAdapter
  import Fs = FilesystemRefinement
  import opened S3Adapter
  import S3 = S3Refinement

  lemma DisciplinedIsAccepted(id: Id)
    requires Fs.ValidId(id)
    ensures S3.Accepted(id)
  {
    if StartsWith(id.1, "/") {
      Fs.LeadingSlash(id.1);
    }
  }

  lemma WithinIsWellFormed(keys: set<Id>, op: Op)
    requires Fs.Disciplined(keys) && Fs.Within(keys, op)
    ensures S3.WellFormedOp(op)
  {
    if op.List? {
      assert ValidTenant(op.tenant) && !StartsWith(op.prefix, "/");
    } else {
      Fs.KeyIsValid(keys, (op.tenant, op.key));
      DisciplinedIsAccepted((op.tenant, op.key));
    }
  }

  /** From empty stores, every run on disciplined keys gives on S3 the filesystem's outcomes in S3's
      terms; the outcomes of an operation differ exactly when it is a conditional put of a failing
      source to a key that is stored. */
  lemma AdaptersAgree(keys: set<Id>, ops: seq<Op>)
    requires Fs.Disciplined(keys) && forall op | op in ops :: Fs.Within(keys, op)
    ensures |FsRun(EMPTY_TREE, ops).1| == |S3Run(map[], ops).1| == |ops|
    ensures forall i | 0 <= i < |ops| ::
              var (onFs, onS3) := (FsRun(EMPTY_TREE, ops).1[i], S3Run(map[], ops).1[i]);
              && (onS3 == S3.AsS3(onFs) <==> !S3.SourceFailsFirst(MapRun(map[], ops[..i]).0, ops[i]))
              && (onS3 != S3.AsS3(onFs) ==> onFs == Failed(AlreadyExists) && onS3 == Failed(SourceFailure))
  {
    hide Fs.Disciplined, Fs.Within, S3.WellFormedOp, S3.SourceFailsFirst;
    forall op | op in ops
      ensures S3.WellFormedOp(op)
    {
      WithinIsWellFormed(keys, op);
    }
    Fs.EmptyTreeRepresents(keys);
    Fs.RunRefines(EMPTY_TREE, keys, map[], ops);
    S3.RunRefines(map[], map[], ops);
    hide FsRun, S3Run;
    forall i | 0 <= i < |ops| && S3.SourceFailsFirst(MapRun(map[], ops[..i]).0, ops[i])
      ensures MapRun(map[], ops).1[i] == Failed(AlreadyExists)
    {
      OutcomeAt(map[], ops, i);
      ExistingKeyRefused(MapRun(map[], ops[..i]).0, ops[i]);
    }
    hide MapRun;
  }

  lemma ExistingKeyRefused(blobs: BlobMap, op: Op)
    requires S3.SourceFailsFirst(blobs, op)
    ensures MapStep(blobs, op).1 == Failed(AlreadyExists)
  {
  }

  lemma {:induction false} OutcomeAt(blobs: BlobMap, ops: seq<Op>, i: nat)
    requires i < |ops|
    ensures |MapRun(blobs, ops).1| == |ops|
    ensures MapRun(blobs, ops).1[i] == MapStep(MapRun(blobs, ops[..i]).0, ops[i]).1
    decreases |ops|
  {
    hide MapStep;
    RunLength(blobs, ops);
    var blobs' := MapStep(blobs, ops[0]).0;
    if i == 0 {
      assert ops[..0] == [];
    } else {
      OutcomeAt(blobs', ops[1..], i - 1);
      assert ops[..i][0] == ops[0] && ops[..i][1..] == ops[1..][..i - 1];
      assert MapRun(blobs, ops).1[i] == MapRun(blobs', ops[1..]).1[i - 1];
    }
  }

  lemma {:induction false} RunLength(blobs: BlobMap, ops: seq<Op>)
    ensures |MapRun(blobs, ops).1| == |ops|
    decreases |ops|
  {
    hide MapStep;
    if ops != [] {
      RunLength(MapStep(blobs, ops[0]).0, ops[1..]);
    }
  }

  /** The exception on any represented store: the filesystem sees the existing key first, S3 the
      failing source. */
  lemma BrokenSourceDiffers(t: Tree, bucket: Bucket, keys: set<Id>, blobs: BlobMap, op: Op)
    requires Fs.Disciplined(keys) && Fs.Within(keys, op) && S3.SourceFailsFirst(blobs, op)
    requires Fs.Represents(t, keys, blobs) && S3.Represents(bucket, blobs)
    ensures FsStep(t, op).1 == Failed(AlreadyExists) && S3Step(bucket, op).1 == Failed(SourceFailure)
  {
    hide Fs.Disciplined, Fs.Represents, S3.Represents, FsStep, S3Step, S3.WellFormedOp, Fs.Within, S3.SourceFailsFirst;
    ExistingKeyRefused(blobs, op);
    Fs.StepRefines(t, keys, blobs, op);
    WithinIsWellFormed(keys, op);
    S3.StepRefines(bucket, blobs, op);
  }
}
