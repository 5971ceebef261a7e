/** When the S2 writer succeeds. */
module S2Success {
  import opened Prelude
  import opened JsonValues
  import opened Ordering
  import opened Paths
  import opened Trees
  import opened S2Selection
  import opened S2Materialize
  import opened S2Laws

  /** A tree whose projections all lie at one depth, as far as it has any, and below directories only. */
  ghost predicate Level(t: Materialization, depth: nat) {
    && t.Valid()
    && (forall d :: d in t.dirs ==> |d| < depth && d != MANIFEST_FILE)
    && (forall p :: p in t.files && UnderProjections(p) ==> |p| == depth)
  }

  lemma LevelWrite(t: Materialization, depth: nat, p: Path, text: Content)
    requires Level(t, depth) && UnderProjections(p) && |p| == depth
    ensures t.WriteWithParents(p, text).Some? && Level(t.WriteWithParents(p, text).value, depth)
  {
    var parent := Init(p);
    forall d | d <= parent
      ensures d !in t.files
    {
      assert d != [] ==> d[0] == p[0];
    }
    MakeDirsSucceeds(t, parent);
    MakeDirsAddsPrefixes(t, parent);
    MakeDirsOnlyAddsDirs(t, parent);
    var made := t.MakeDirs(parent).value;
    assert MANIFEST_FILE[0] != "projections";
    WriteWithParentsAddsOne(t, p, text);
  }

  lemma TwoWrites(w: World, bed: Bed, t: Materialization, s: SelectedRecord, m: Path, e: Path, mid: Materialization, r: Materialization)
    requires ModelPath(s.record.taskId) == Some(m) && EvaluationPath(s.record.taskId) == Some(e)
    requires HoldsNeitherPatch(w.serialize(ModelOf(bed, s.record)), s.record)
    requires t.WriteWithParents(m, ModelFile(ModelOf(bed, s.record))) == Some(mid)
    requires mid.WriteWithParents(e, EvaluationFile(EvaluationOf(bed, s.record))) == Some(r)
    ensures WriteRecord(w, bed, t, s) == Ok(r)
  {
    hide ModelPath, EvaluationPath, Leaks, HoldsNeitherPatch, Tree.WriteWithParents;
    LeakIsOccurrence(w, ModelOf(bed, s.record), s.record);
  }

  lemma RecordIsWritten(w: World, bed: Bed, t: Materialization, s: SelectedRecord, depth: nat)
    requires Level(t, depth) && ModelPath(s.record.taskId).Some? && |ModelPath(s.record.taskId).value| == depth
    requires HoldsNeitherPatch(w.serialize(ModelOf(bed, s.record)), s.record)
    ensures WriteRecord(w, bed, t, s).Ok? && Level(WriteRecord(w, bed, t, s).value, depth)
  {
    hide Level, ModelPath, EvaluationPath, Tree.WriteWithParents, HoldsNeitherPatch, WriteRecord, NormalPath, SafeRelative, PosixString;
    var id := s.record.taskId;
    PathShape(id);
    var m, e := ModelPath(id).value, EvaluationPath(id).value;
    LevelWrite(t, depth, m, ModelFile(ModelOf(bed, s.record)));
    var mid := t.WriteWithParents(m, ModelFile(ModelOf(bed, s.record))).value;
    LevelWrite(mid, depth, e, EvaluationFile(EvaluationOf(bed, s.record)));
    var r := mid.WriteWithParents(e, EvaluationFile(EvaluationOf(bed, s.record))).value;
    TwoWrites(w, bed, t, s, m, e, mid, r);
  }

  lemma {:induction false} RecordsAreWritten(w: World, bed: Bed, t: Materialization, records: seq<SelectedRecord>, depth: nat)
    requires Level(t, depth)
    requires forall i :: 0 <= i < |records| ==>
      && ModelPath(records[i].record.taskId).Some? && |ModelPath(records[i].record.taskId).value| == depth
      && HoldsNeitherPatch(w.serialize(ModelOf(bed, records[i].record)), records[i].record)
    ensures WriteRecords(w, bed, t, records).Ok? && Level(WriteRecords(w, bed, t, records).value, depth)
  {
    hide Level, ModelPath, WriteRecord, HoldsNeitherPatch, ModelOf;
    if records != [] {
      assert forall i :: 0 <= i < |records| - 1 ==> Init(records)[i] == records[i];
      RecordsAreWritten(w, bed, t, Init(records), depth);
      RecordIsWritten(w, bed, WriteRecords(w, bed, t, Init(records)).value, Last(records), depth);
    }
  }

  lemma ManifestIsWritten(t: Materialization, depth: nat, m: Manifest)
    requires Level(t, depth)
    ensures t.WriteWithParents(MANIFEST_FILE, ManifestFile(m)).Some?
  {
    assert Init(MANIFEST_FILE) == [];
  }

  /** Materialization succeeds when each of its steps does. */
  lemma StepsMaterialize(w: World, registry: Registry, bed: Bed, t: Materialization, asset: Path, bytes: string, rows: seq<Object>,
                         columns: seq<string>, records: seq<SelectedRecord>, mid: Materialization, blob: Option<string>, at: string)
    requires ValidBed(bed) && asset in t.files && t.files[asset] == AssetFile(bytes) && w.sha256(bytes) == bed.assetSha256
    requires w.parse(bytes, bed.sourceFormat) == Some((rows, columns)) && Selection(w.src, rows, bed, columns) == Ok(records)
    requires AllResolve(w, records) && WriteRecords(w, bed, t, records) == Ok(mid)
    requires forall m :: mid.WriteWithParents(MANIFEST_FILE, ManifestFile(m)).Some?
    ensures Materialize(w, registry, bed, t, asset, blob, at).Ok?
  {
    hide ValidBed, Selection, WriteRecords, ManifestOf, StringLe, Tree.WriteWithParents, AllResolve;
    var m := ManifestOf(w, registry.version, bed, asset, bytes, Sort(columns, StringLe), records, blob, at);
    assert mid.WriteWithParents(MANIFEST_FILE, ManifestFile(m)).Some?;
  }

  /** What a bed must bring to be materialized: its registered asset, and records that resolve and do not show their patches. */
  ghost predicate Materializable(w: World, bed: Bed, t: Materialization, asset: Path) {
    && ValidBed(bed) && asset in t.files && t.files[asset].AssetFile?
    && w.sha256(t.files[asset].bytes) == bed.assetSha256 && w.parse(t.files[asset].bytes, bed.sourceFormat).Some?
    && var selected := RecordsOf(w, bed, t.files[asset].bytes);
    && selected.Ok?
    && forall i :: 0 <= i < |selected.value| ==>
         && w.commitResolves(selected.value[i].record.repository, selected.value[i].record.baseCommit)
         && HoldsNeitherPatch(w.serialize(ModelOf(bed, selected.value[i].record)), selected.value[i].record)
  }

  /** A bed whose ids hold no slash is materialized on a fresh or equally laid out tree exactly when it is materializable. */
  lemma PlainBedMaterializesIff(w: World, registry: Registry, bed: Bed, t: Materialization, asset: Path, blob: Option<string>, at: string)
    requires Level(t, 3) && IsAssetPath(asset) && forall i :: 0 <= i < |bed.taskIds| ==> '/' !in bed.taskIds[i]
    ensures Materialize(w, registry, bed, t, asset, blob, at).Ok? <==> Materializable(w, bed, t, asset)
  {
    hide ValidBed, Selection, WriteRecords, Materialize, Tree.WriteWithParents, IsAssetPath, HoldsNeitherPatch, StringLe, DistinctProjections, Stored;
    assert t.Valid();
    if Materialize(w, registry, bed, t, asset, blob, at).Ok? {
      var records := WrittenTreeHoldsNoPatch(w, registry, bed, t, asset, blob, at);
      MaterializeResolves(w, registry, bed, t, asset, blob, at);
    }
    if Materializable(w, bed, t, asset) {
      var bytes := t.files[asset].bytes;
      var (rows, columns) := w.parse(bytes, bed.sourceFormat).value;
      var records := RecordsOf(w, bed, bytes).value;
      SelectedFollowIds(w.src, rows, bed, columns);
      forall i | 0 <= i < |records|
        ensures ModelPath(records[i].record.taskId).Some? && |ModelPath(records[i].record.taskId).value| == 3
      {
        PlainPath(bed.taskIds[i]);
      }
      RecordsAreWritten(w, bed, t, records, 3);
      var mid := WriteRecords(w, bed, t, records).value;
      forall m
        ensures mid.WriteWithParents(MANIFEST_FILE, ManifestFile(m)).Some?
      {
        ManifestIsWritten(mid, 3, m);
      }
      StepsMaterialize(w, registry, bed, t, asset, bytes, rows, columns, records, mid, blob, at);
    }
  }

  lemma MaterializeResolves(w: World, registry: Registry, bed: Bed, t: Materialization, asset: Path, blob: Option<string>, at: string)
    requires Materialize(w, registry, bed, t, asset, blob, at).Ok?
    ensures ValidBed(bed) && asset in t.files && t.files[asset].AssetFile? && w.sha256(t.files[asset].bytes) == bed.assetSha256
    ensures w.parse(t.files[asset].bytes, bed.sourceFormat).Some? && RecordsOf(w, bed, t.files[asset].bytes).Ok?
    ensures AllResolve(w, RecordsOf(w, bed, t.files[asset].bytes).value)
  {
    hide ValidBed, Selection, WriteRecords, ManifestOf, StringLe, Tree.WriteWithParents, AllResolve;
  }
}
