/** The writer and the verifier of S2 materializations in benchmarks/s2/materialize.py. */
module S2Materialize {
  import opened Prelude
  import opened JsonValues
  import opened Ordering
  import opened Paths
  import opened Trees
  import opened S2Selection

  datatype ModelProjection = ModelProjection(bedId: string, taskId: string, repository: string, baseCommit: string, problemStatement: string)

  datatype EvaluationProjection = EvaluationProjection(
    bedId: string, taskId: string, repository: string, baseCommit: string, environmentSetupCommit: string,
    failToPass: seq<string>, passToPass: seq<string>, goldPatch: string, goldTestPatch: string, sourceMetadata: Json)

  datatype Upstream = Upstream(
    locator: string, revision: string, assetRelativePath: string, assetSizeBytes: nat, assetSha256: string,
    gitBlobSha: Option<string>, sourceFormat: string)

  datatype SelectedTask = SelectedTask(
    taskId: string, recordSha256: string, repository: string, baseCommit: string,
    modelProjection: string, evaluationProjection: string)

  datatype Preflight = Preflight(taskId: string, repository: string, baseCommit: string, resolved: bool)

  datatype TaskIdentity = TaskIdentity(taskId: string, recordSha256: string, repository: string, baseCommit: string)

  datatype Identity = Identity(
    taskSetVersion: string, bedId: string, adapter: string, sourceType: string, sourceFormat: string,
    locator: string, revision: string, assetPath: string, assetSizeBytes: nat, assetSha256: string,
    gitBlobSha: Option<string>, sourceSchema: seq<string>, selectedTasks: seq<TaskIdentity>)

  datatype Manifest = Manifest(
    taskSetVersion: string, bedId: string, upstream: Upstream, localAssetPath: string, sourceSchema: seq<string>,
    acquiredAt: string, selectedTaskIds: seq<string>, selectedTaskCount: int, selectedTasks: seq<SelectedTask>,
    preflight: seq<Preflight>, goldExcluded: bool, fingerprintBasis: Identity, fingerprint: string)

  /** What a file of a materialization holds. */
  datatype Content =
    | ModelFile(model: ModelProjection)
    | EvaluationFile(evaluation: EvaluationProjection)
    | ManifestFile(manifest: Manifest)
    | AssetFile(bytes: string)
    | OtherFile(text: string)

  type Materialization = Tree<Content>

  /** The foreign parts: parsing, digests, JSON text, the manifest schema and the commit lookup. */
  datatype World = World(
    src: Source,
    parse: (string, string) -> Option<(seq<Object>, seq<string>)>,
    sha256: string -> string,
    identityDigest: Identity -> string,
    serialize: ModelProjection -> string,
    schemaAccepts: Manifest -> bool,
    commitResolves: (string, string) -> bool)

  datatype Registry = Registry(version: string, beds: map<string, Bed>)

  /** The state of the Git checkout of a bed: its HEAD and the blob of the asset. */
  datatype Checkout = Checkout(head: string, blob: string)

  datatype Failure =
    | SelectionFailed(cause: SelectError)
    | AssetInvalid | ParseFailed | PreflightFailed | UnsafeName | GoldLeak | CannotWrite
    | ManifestUnreadable | SchemaRejected | BedUnregistered | BedInvalid | VersionStale | UpstreamMismatch
    | AssetSizeChanged | CheckoutChanged | SchemaChanged | TaskOrderChanged | TaskCountChanged
    | TaskNotInManifest | RecordChanged | ProjectionUnreadable | ModelChanged | EvaluationChanged
    | TaskEntriesChanged | PreflightChanged | BasisChanged | FingerprintChanged | GoldNotExcluded

  const MANIFEST_FILE: Path := ["REPOPACT-S2-MATERIALIZATION.json"]

  // ---------------------------------------------------------------- projections

  /** `_model_projection` */
  function ModelOf(bed: Bed, r: Record): ModelProjection {
    ModelProjection(bed.id, r.taskId, r.repository, r.baseCommit, r.problemStatement)
  }

  /** `_evaluation_projection` */
  function EvaluationOf(bed: Bed, r: Record): EvaluationProjection {
    EvaluationProjection(bed.id, r.taskId, r.repository, r.baseCommit, r.environmentSetupCommit,
                         r.failToPass, r.passToPass, r.goldPatch, r.goldTestPatch, r.sourceMetadata)
  }

  /** `_assert_no_gold_leakage`: the keys of a model projection never leak, its text may. */
  predicate Leaks(w: World, model: ModelProjection, r: Record) {
    (r.goldPatch != "" && Contains(w.serialize(model), r.goldPatch)) ||
    (r.goldTestPatch != "" && Contains(w.serialize(model), r.goldTestPatch))
  }

  /** Where the projection of a task goes; `None` where its file name is refused. */
  function ProjectionPath(kind: string, taskId: string): Option<Path> {
    match SafeRelative(taskId + ".json")
    case None => None
    case Some(p) => Some(["projections", kind] + p)
  }

  function ModelPath(taskId: string): Option<Path> {
    ProjectionPath("model-facing", taskId)
  }

  function EvaluationPath(taskId: string): Option<Path> {
    ProjectionPath("evaluation", taskId)
  }

  // ---------------------------------------------------------------- the writer

  /** The two files of one record. */
  function WriteRecord(w: World, bed: Bed, t: Materialization, s: SelectedRecord): Result<Materialization, Failure> {
    var model, evaluation := ModelPath(s.record.taskId), EvaluationPath(s.record.taskId);
    if model.None? || evaluation.None? then Err(UnsafeName)
    else if Leaks(w, ModelOf(bed, s.record), s.record) then Err(GoldLeak)
    else
      match t.WriteWithParents(model.value, ModelFile(ModelOf(bed, s.record)))
      case None => Err(CannotWrite)
      case Some(mid) =>
        match mid.WriteWithParents(evaluation.value, EvaluationFile(EvaluationOf(bed, s.record)))
        case None => Err(CannotWrite)
        case Some(r) => Ok(r)
  }

  function WriteRecords(w: World, bed: Bed, t: Materialization, records: seq<SelectedRecord>): Result<Materialization, Failure> {
    if records == [] then Ok(t) else
    match WriteRecords(w, bed, t, Init(records))
    case Err(e) => Err(e)
    case Ok(mid) => WriteRecord(w, bed, mid, Last(records))
  }

  /** The manifest entry of a record; the paths are those of the files just written. */
  function EntryOf(s: SelectedRecord): SelectedTask {
    var model, evaluation := ModelPath(s.record.taskId), EvaluationPath(s.record.taskId);
    SelectedTask(s.record.taskId, s.sha256, s.record.repository, s.record.baseCommit,
      if model.Some? then PosixString(model.value) else "", if evaluation.Some? then PosixString(evaluation.value) else "")
  }

  function EntriesOf(records: seq<SelectedRecord>): seq<SelectedTask> {
    Map(records, EntryOf)
  }

  function TaskIdsOf(records: seq<SelectedRecord>): seq<string> {
    Map(records, (s: SelectedRecord) => s.record.taskId)
  }

  function PreflightOf(records: seq<SelectedRecord>): seq<Preflight> {
    Map(records, (s: SelectedRecord) => Preflight(s.record.taskId, s.record.repository, s.record.baseCommit, true))
  }

  /** `_identity` */
  function IdentityOf(version: string, bed: Bed, schema: seq<string>, size: nat, sha: string, records: seq<SelectedRecord>, blob: Option<string>): Identity {
    Identity(version, bed.id, bed.adapter, bed.sourceType, bed.sourceFormat, bed.dataset, bed.revision, bed.assetPath,
      size, sha, blob, schema,
      Map(records, (s: SelectedRecord) => TaskIdentity(s.record.taskId, s.sha256, s.record.repository, s.record.baseCommit)))
  }

  function ManifestOf(w: World, version: string, bed: Bed, asset: Path, bytes: string, schema: seq<string>,
                      records: seq<SelectedRecord>, blob: Option<string>, acquiredAt: string): Manifest
  {
    var sha := w.sha256(bytes);
    var identity := IdentityOf(version, bed, schema, |bytes|, sha, records, blob);
    Manifest(version, bed.id, Upstream(bed.dataset, bed.revision, bed.assetPath, |bytes|, sha, blob, bed.sourceFormat),
      PosixString(asset), schema, acquiredAt, TaskIdsOf(records), |records|, EntriesOf(records), PreflightOf(records),
      true, identity, w.identityDigest(identity))
  }

  predicate AllResolve(w: World, records: seq<SelectedRecord>) {
    forall i :: 0 <= i < |records| ==> w.commitResolves(records[i].record.repository, records[i].record.baseCommit)
  }

  /** `_write_materialization`, and the manifest it returns. */
  function WriteMaterialization(w: World, version: string, bed: Bed, t: Materialization, asset: Path, bytes: string,
                                schema: seq<string>, records: seq<SelectedRecord>, blob: Option<string>, acquiredAt: string)
    : Result<(Materialization, Manifest), Failure>
  {
    if w.sha256(bytes) != bed.assetSha256 then Err(AssetInvalid) else
    match WriteRecords(w, bed, t, records)
    case Err(e) => Err(e)
    case Ok(mid) =>
      var manifest := ManifestOf(w, version, bed, asset, bytes, schema, records, blob, acquiredAt);
      match mid.WriteWithParents(MANIFEST_FILE, ManifestFile(manifest))
      case None => Err(CannotWrite)
      case Some(r) => Ok((r, manifest))
  }

  /** `materialize_bed` from the acquired asset on. */
  function Materialize(w: World, registry: Registry, bed: Bed, t: Materialization, asset: Path, blob: Option<string>, acquiredAt: string)
    : Result<(Materialization, Manifest), Failure>
  {
    if !ValidBed(bed) then Err(BedInvalid)
    else if asset !in t.files || !t.files[asset].AssetFile? then Err(AssetInvalid)
    else
      var bytes := t.files[asset].bytes;
      var parsed := w.parse(bytes, bed.sourceFormat);
      if parsed.None? then Err(ParseFailed) else
      var (rows, columns) := parsed.value;
      var records := Selection(w.src, rows, bed, columns);
      if records.Err? then Err(SelectionFailed(records.error))
      else if !AllResolve(w, records.value) then Err(PreflightFailed)
      else WriteMaterialization(w, registry.version, bed, t, asset, bytes, Sort(columns, StringLe), records.value, blob, acquiredAt)
  }

  // ---------------------------------------------------------------- the verifier

  /** The first manifest entry of a task. */
  function EntryFor(entries: seq<SelectedTask>, taskId: string): Option<SelectedTask> {
    if entries == [] then None
    else if entries[0].taskId == taskId then Some(entries[0])
    else EntryFor(entries[1..], taskId)
  }

  /** One iteration of the verification loop: the manifest entry that this record must have. */
  function VerifyRecord(w: World, bed: Bed, t: Materialization, entries: seq<SelectedTask>, s: SelectedRecord): Result<SelectedTask, Failure> {
    var entry := EntryFor(entries, s.record.taskId);
    if entry.None? then Err(TaskNotInManifest)
    else if entry.value.recordSha256 != s.sha256 then Err(RecordChanged)
    else
      var model, evaluation := SafeRelative(entry.value.modelProjection), SafeRelative(entry.value.evaluationProjection);
      if model.None? || evaluation.None? then Err(UnsafeName)
      else if model.value !in t.files || evaluation.value !in t.files then Err(ProjectionUnreadable)
      else if t.files[model.value].ModelFile? && Leaks(w, t.files[model.value].model, s.record) then Err(GoldLeak)
      else if t.files[model.value] != ModelFile(ModelOf(bed, s.record)) then Err(ModelChanged)
      else if t.files[evaluation.value] != EvaluationFile(EvaluationOf(bed, s.record)) then Err(EvaluationChanged)
      else Ok(SelectedTask(s.record.taskId, s.sha256, s.record.repository, s.record.baseCommit,
                           entry.value.modelProjection, entry.value.evaluationProjection))
  }

  function VerifyRecords(w: World, bed: Bed, t: Materialization, entries: seq<SelectedTask>, records: seq<SelectedRecord>): Result<seq<SelectedTask>, Failure> {
    if records == [] then Ok([]) else
    match VerifyRecords(w, bed, t, entries, Init(records))
    case Err(e) => Err(e)
    case Ok(front) =>
      match VerifyRecord(w, bed, t, entries, Last(records))
      case Err(e) => Err(e)
      case Ok(entry) => Ok(front + [entry])
  }

  predicate UpstreamMatches(u: Upstream, bed: Bed) {
    && u.locator == bed.dataset && u.revision == bed.revision && u.assetRelativePath == bed.assetPath
    && u.sourceFormat == bed.sourceFormat && u.assetSha256 == bed.assetSha256 && u.gitBlobSha == bed.assetGitBlobSha
  }

  predicate CheckoutMatches(bed: Bed, checkout: Checkout, blob: Option<string>) {
    bed.sourceType == "git" ==> checkout.head == bed.revision && Some(checkout.blob) == blob
  }

  /** The resolved triples of the manifest are those of the records, and there are no other entries. */
  predicate PreflightMatches(preflight: seq<Preflight>, records: seq<SelectedRecord>) {
    && |preflight| == |records|
    && (set p | p in preflight && p.resolved :: (p.taskId, p.repository, p.baseCommit)) ==
       (set s | s in records :: (s.record.taskId, s.record.repository, s.record.baseCommit))
  }

  /** The checks of `verify_materialization` that follow the recomputation of the records. */
  function VerifyAgainst(w: World, registry: Registry, bed: Bed, t: Materialization, m: Manifest, bytes: string,
                         schema: seq<string>, records: seq<SelectedRecord>): Result<Manifest, Failure>
  {
    if schema != m.sourceSchema then Err(SchemaChanged)
    else if m.selectedTaskIds != TaskIdsOf(records) then Err(TaskOrderChanged)
    else if m.selectedTaskCount != |records| then Err(TaskCountChanged)
    else
      var expected := VerifyRecords(w, bed, t, m.selectedTasks, records);
      if expected.Err? then Err(expected.error)
      else if m.selectedTasks != expected.value then Err(TaskEntriesChanged)
      else if !PreflightMatches(m.preflight, records) then Err(PreflightChanged)
      else
        var identity := IdentityOf(registry.version, bed, schema, |bytes|, w.sha256(bytes), records, m.upstream.gitBlobSha);
        if m.fingerprintBasis != identity then Err(BasisChanged)
        else if m.fingerprint != w.identityDigest(identity) then Err(FingerprintChanged)
        else if !m.goldExcluded then Err(GoldNotExcluded)
        else Ok(m)
  }

  /** `verify_materialization` */
  function Verify(w: World, registry: Registry, t: Materialization, checkout: Checkout): Result<Manifest, Failure> {
    if MANIFEST_FILE !in t.files || !t.files[MANIFEST_FILE].ManifestFile? then Err(ManifestUnreadable) else
    var m := t.files[MANIFEST_FILE].manifest;
    if !w.schemaAccepts(m) then Err(SchemaRejected)
    else if m.bedId !in registry.beds then Err(BedUnregistered)
    else
      var bed := registry.beds[m.bedId];
      if !ValidBed(bed) then Err(BedInvalid)
      else if m.taskSetVersion != registry.version then Err(VersionStale)
      else if !UpstreamMatches(m.upstream, bed) then Err(UpstreamMismatch)
      else
        var asset := SafeRelative(m.localAssetPath);
        if asset.None? then Err(UnsafeName)
        else if asset.value !in t.files || !t.files[asset.value].AssetFile? then Err(AssetInvalid)
        else
          var bytes := t.files[asset.value].bytes;
          if w.sha256(bytes) != m.upstream.assetSha256 then Err(AssetInvalid)
          else if |bytes| != m.upstream.assetSizeBytes then Err(AssetSizeChanged)
          else if !CheckoutMatches(bed, checkout, m.upstream.gitBlobSha) then Err(CheckoutChanged)
          else
            var parsed := w.parse(bytes, bed.sourceFormat);
            if parsed.None? then Err(ParseFailed) else
            var records := Selection(w.src, parsed.value.0, bed, parsed.value.1);
            if records.Err? then Err(SelectionFailed(records.error))
            else VerifyAgainst(w, registry, bed, t, m, bytes, Sort(parsed.value.1, StringLe), records.value)
  }

  // ---------------------------------------------------------------- the loops

  /** The writing loop of `_write_materialization`, collecting the manifest entries as it goes. */
  method WriteProjections(w: World, bed: Bed, t: Materialization, records: seq<SelectedRecord>)
    returns (r: Result<(Materialization, seq<SelectedTask>), Failure>)
    ensures WriteRecords(w, bed, t, records).Err? ==> r == Err(WriteRecords(w, bed, t, records).error)
    ensures WriteRecords(w, bed, t, records).Ok? ==> r == Ok((WriteRecords(w, bed, t, records).value, EntriesOf(records)))
  {
    hide WriteRecord, EntryOf;
    var tree := t;
    var selectedTasks: seq<SelectedTask> := [];
    for i := 0 to |records|
      invariant WriteRecords(w, bed, t, records[..i]) == Ok(tree)
      invariant selectedTasks == EntriesOf(records[..i])
    {
      assert Init(records[..i + 1]) == records[..i];
      var next := WriteRecord(w, bed, tree, records[i]);
      if next.Err? {
        WriteStopsAt(w, bed, t, records, i);
        return Err(next.error);
      }
      tree := next.value;
      selectedTasks := selectedTasks + [EntryOf(records[i])];
    }
    assert records[..|records|] == records;
    return Ok((tree, selectedTasks));
  }

  lemma {:induction false} WriteStopsAt(w: World, bed: Bed, t: Materialization, records: seq<SelectedRecord>, i: nat)
    requires i < |records| && WriteRecords(w, bed, t, records[..i]).Ok?
    requires WriteRecord(w, bed, WriteRecords(w, bed, t, records[..i]).value, records[i]).Err?
    ensures WriteRecords(w, bed, t, records) == Err(WriteRecord(w, bed, WriteRecords(w, bed, t, records[..i]).value, records[i]).error)
  {
    hide WriteRecord;
    if i == |records| - 1 {
      assert Init(records) == records[..i];
    } else {
      assert Init(records)[..i] == records[..i];
      WriteStopsAt(w, bed, t, Init(records), i);
    }
  }

  /** The verification loop of `verify_materialization`. */
  method VerifyProjections(w: World, bed: Bed, t: Materialization, entries: seq<SelectedTask>, records: seq<SelectedRecord>)
    returns (r: Result<seq<SelectedTask>, Failure>)
    ensures r == VerifyRecords(w, bed, t, entries, records)
  {
    hide VerifyRecord;
    var expected: seq<SelectedTask> := [];
    for i := 0 to |records|
      invariant VerifyRecords(w, bed, t, entries, records[..i]) == Ok(expected)
    {
      assert Init(records[..i + 1]) == records[..i];
      var entry := VerifyRecord(w, bed, t, entries, records[i]);
      if entry.Err? {
        VerifyStopsAt(w, bed, t, entries, records, i);
        return Err(entry.error);
      }
      expected := expected + [entry.value];
    }
    assert records[..|records|] == records;
    return Ok(expected);
  }

  lemma {:induction false} VerifyStopsAt(w: World, bed: Bed, t: Materialization, entries: seq<SelectedTask>, records: seq<SelectedRecord>, i: nat)
    requires i < |records| && VerifyRecords(w, bed, t, entries, records[..i]).Ok?
    requires VerifyRecord(w, bed, t, entries, records[i]).Err?
    ensures VerifyRecords(w, bed, t, entries, records) == Err(VerifyRecord(w, bed, t, entries, records[i]).error)
  {
    hide VerifyRecord;
    if i == |records| - 1 {
      assert Init(records) == records[..i];
    } else {
      assert Init(records)[..i] == records[..i];
      VerifyStopsAt(w, bed, t, entries, Init(records), i);
    }
  }

  /** `materialize_bed` from the acquired asset on, with its raises in source order. */
  method MaterializeBed(w: World, registry: Registry, bed: Bed, t: Materialization, asset: Path, blob: Option<string>, acquiredAt: string)
    returns (r: Result<(Materialization, Manifest), Failure>)
    ensures r == Materialize(w, registry, bed, t, asset, blob, acquiredAt)
  {
    hide ValidBed, Selection, WriteRecords, StringLe, Tree.WriteWithParents, IdentityOf;
    if !ValidBed(bed) {
      return Err(BedInvalid);
    }
    if asset !in t.files || !t.files[asset].AssetFile? {
      return Err(AssetInvalid);
    }
    var bytes := t.files[asset].bytes;
    var parsed := w.parse(bytes, bed.sourceFormat);
    if parsed.None? {
      return Err(ParseFailed);
    }
    var records := SelectRecords(w.src, parsed.value.0, bed, parsed.value.1);
    if records.Err? {
      return Err(SelectionFailed(records.error));
    }
    if !AllResolve(w, records.value) {
      return Err(PreflightFailed);
    }
    if w.sha256(bytes) != bed.assetSha256 {
      return Err(AssetInvalid);
    }
    var written := WriteProjections(w, bed, t, records.value);
    if written.Err? {
      return Err(written.error);
    }
    var (tree, selectedTasks) := written.value;
    var schema := Sort(parsed.value.1, StringLe);
    var manifest := ManifestOf(w, registry.version, bed, asset, bytes, schema, records.value, blob, acquiredAt).(selectedTasks := selectedTasks);
    var finished := tree.WriteWithParents(MANIFEST_FILE, ManifestFile(manifest));
    if finished.None? {
      return Err(CannotWrite);
    }
    return Ok((finished.value, manifest));
  }

  /** `verify_materialization`, with its raises in source order. */
  method VerifyMaterialization(w: World, registry: Registry, t: Materialization, checkout: Checkout) returns (r: Result<Manifest, Failure>)
    ensures r == Verify(w, registry, t, checkout)
  {
    hide ValidBed, Selection, StringLe, SafeRelative, VerifyRecords, IdentityOf, PreflightMatches, TaskIdsOf;
    if MANIFEST_FILE !in t.files || !t.files[MANIFEST_FILE].ManifestFile? {
      return Err(ManifestUnreadable);
    }
    var m := t.files[MANIFEST_FILE].manifest;
    if !w.schemaAccepts(m) {
      return Err(SchemaRejected);
    }
    if m.bedId !in registry.beds {
      return Err(BedUnregistered);
    }
    var bed := registry.beds[m.bedId];
    if !ValidBed(bed) {
      return Err(BedInvalid);
    }
    if m.taskSetVersion != registry.version {
      return Err(VersionStale);
    }
    if !UpstreamMatches(m.upstream, bed) {
      return Err(UpstreamMismatch);
    }
    var asset := SafeRelative(m.localAssetPath);
    if asset.None? {
      return Err(UnsafeName);
    }
    if asset.value !in t.files || !t.files[asset.value].AssetFile? {
      return Err(AssetInvalid);
    }
    var bytes := t.files[asset.value].bytes;
    if w.sha256(bytes) != m.upstream.assetSha256 {
      return Err(AssetInvalid);
    }
    if |bytes| != m.upstream.assetSizeBytes {
      return Err(AssetSizeChanged);
    }
    if !CheckoutMatches(bed, checkout, m.upstream.gitBlobSha) {
      return Err(CheckoutChanged);
    }
    var parsed := w.parse(bytes, bed.sourceFormat);
    if parsed.None? {
      return Err(ParseFailed);
    }
    var records := SelectRecords(w.src, parsed.value.0, bed, parsed.value.1);
    if records.Err? {
      return Err(SelectionFailed(records.error));
    }
    r := VerifyRecomputed(w, registry, bed, t, m, bytes, Sort(parsed.value.1, StringLe), records.value);
  }

  method VerifyRecomputed(w: World, registry: Registry, bed: Bed, t: Materialization, m: Manifest, bytes: string,
                          schema: seq<string>, records: seq<SelectedRecord>) returns (r: Result<Manifest, Failure>)
    ensures r == VerifyAgainst(w, registry, bed, t, m, bytes, schema, records)
  {
    hide VerifyRecords, IdentityOf, PreflightMatches, TaskIdsOf;
    if schema != m.sourceSchema {
      return Err(SchemaChanged);
    }
    if m.selectedTaskIds != TaskIdsOf(records) {
      return Err(TaskOrderChanged);
    }
    if m.selectedTaskCount != |records| {
      return Err(TaskCountChanged);
    }
    var expected := VerifyProjections(w, bed, t, m.selectedTasks, records);
    if expected.Err? {
      return Err(expected.error);
    }
    if m.selectedTasks != expected.value {
      return Err(TaskEntriesChanged);
    }
    if !PreflightMatches(m.preflight, records) {
      return Err(PreflightChanged);
    }
    var identity := IdentityOf(registry.version, bed, schema, |bytes|, w.sha256(bytes), records, m.upstream.gitBlobSha);
    if m.fingerprintBasis != identity {
      return Err(BasisChanged);
    }
    if m.fingerprint != w.identityDigest(identity) {
      return Err(FingerprintChanged);
    }
    if !m.goldExcluded {
      return Err(GoldNotExcluded);
    }
    return Ok(m);
  }
}
