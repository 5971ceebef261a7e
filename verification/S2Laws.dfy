/** When the S2 verifier accepts what the S2 writer produced, and what an accepted tree must hold. */
module S2Laws {
  import opened Prelude
  import opened JsonValues
  import opened Ordering
  import opened Paths
  import opened Trees
  import opened S2Selection
  import opened S2Materialize

  /** Records as selection yields them: one per registered id, in registered order, so with distinct ids. */
  ghost predicate FollowsIds(records: seq<SelectedRecord>, ids: seq<string>) {
    && |records| == |ids|
    && (forall i :: 0 <= i < |ids| ==> records[i].record.taskId == ids[i])
    && (forall i, j :: 0 <= i < j < |ids| ==> ids[i] != ids[j])
  }

  lemma SelectedFollowIds(src: Source, rows: seq<Object>, bed: Bed, columns: seq<string>)
    requires Selection(src, rows, bed, columns).Ok?
    ensures FollowsIds(Selection(src, rows, bed, columns).value, bed.taskIds)
  {
    hide StringLe, RowsWith, Adapt, KnownAdapter;
    SelectionExact(src, rows, bed, columns);
  }

  // ---------------------------------------------------------------- paths

  /** No two tasks of a bed have their projections at the same place. */
  ghost predicate DistinctProjections(ids: seq<string>) {
    forall i, j :: 0 <= i < j < |ids| ==> ModelPath(ids[i]) != ModelPath(ids[j])
  }

  lemma PathShape(taskId: string)
    ensures ModelPath(taskId).Some? <==> EvaluationPath(taskId).Some?
    ensures ModelPath(taskId).Some? ==>
      var m, e := ModelPath(taskId).value, EvaluationPath(taskId).value;
      && |m| == |e| >= 2 && m[0] == e[0] == "projections" && m[1] == "model-facing" && e[1] == "evaluation" && m[2..] == e[2..]
      && NormalPath(m) && NormalPath(e)
      && SafeRelative(PosixString(m)) == Some(m) && SafeRelative(PosixString(e)) == Some(e)
  {
    hide SafeRelative, PosixString;
    SafeRelativeIsNormal(taskId + ".json");
    assert NormalName("projections") && NormalName("model-facing") && NormalName("evaluation");
    if ModelPath(taskId).Some? {
      PosixRoundTrip(ModelPath(taskId).value);
      PosixRoundTrip(EvaluationPath(taskId).value);
    }
  }

  lemma KindsDiffer(a: string, b: string)
    requires ModelPath(a).Some? && EvaluationPath(b).Some?
    ensures ModelPath(a).value != EvaluationPath(b).value
  {
    hide SafeRelative;
    PathShape(a);
    PathShape(b);
    assert "model-facing"[0] != "evaluation"[0];
  }

  /** Model and evaluation projections collide together. */
  lemma PathsCollideTogether(a: string, b: string)
    requires ModelPath(a).Some? && ModelPath(b).Some?
    ensures ModelPath(a) == ModelPath(b) <==> EvaluationPath(a) == EvaluationPath(b)
  {
    hide SafeRelative;
    PathShape(a);
    PathShape(b);
    var m, n := ModelPath(a).value, ModelPath(b).value;
    var e, f := EvaluationPath(a).value, EvaluationPath(b).value;
    assert m == m[..2] + m[2..] && n == n[..2] + n[2..] && e == e[..2] + e[2..] && f == f[..2] + f[2..];
    assert m[..2] == n[..2] && e[..2] == f[..2];
  }

  /** Task ids without a slash, as all registered ones are, never share a place. */
  lemma PlainIdsAreDistinct(ids: seq<string>)
    requires forall i :: 0 <= i < |ids| ==> '/' !in ids[i]
    requires forall i, j :: 0 <= i < j < |ids| ==> ids[i] != ids[j]
    ensures DistinctProjections(ids)
    ensures forall i :: 0 <= i < |ids| ==> ModelPath(ids[i]) == Some(["projections", "model-facing", ids[i] + ".json"])
  {
    forall i | 0 <= i < |ids|
      ensures ModelPath(ids[i]) == Some(["projections", "model-facing", ids[i] + ".json"])
    {
      PlainPath(ids[i]);
    }
    forall i, j | 0 <= i < j < |ids|
      ensures ModelPath(ids[i]) != ModelPath(ids[j])
    {
      assert ids[i] == (ids[i] + ".json")[..|ids[i]|] && ids[j] == (ids[j] + ".json")[..|ids[j]|];
      assert ModelPath(ids[i]).value[2] != ModelPath(ids[j]).value[2] by {
        assert |ids[i] + ".json"| == |ids[i]| + 5 && |ids[j] + ".json"| == |ids[j]| + 5;
      }
    }
  }

  lemma PlainPath(id: string)
    requires '/' !in id
    ensures ModelPath(id) == Some(["projections", "model-facing", id + ".json"])
  {
    var name := id + ".json";
    assert |name| >= 5;
    SplitOfName(name);
    NameIsComponent(name, []);
    assert "/" + name != name && [name] != [".."];
    assert SafeRelative(name) == Some([name]);
    assert ["projections", "model-facing"] + [name] == ["projections", "model-facing", name];
  }

  lemma NameIsComponent(name: string, rest: seq<string>)
    requires |name| > 2
    ensures Components([name] + rest) == [name] + Components(rest)
  {
    assert ([name] + rest)[1..] == rest;
  }

  /** Two ids that differ only by a doubled slash lead to one file: a bed with both can be written but not verified. */
  lemma SlashesAliasTasks()
    ensures "a//b" != "a/b" && StringLe("a//b", "a/b") && ModelPath("a//b") == ModelPath("a/b")
  {
    hide Components, Split, StringLe, SafeRelative;
    assert "a//b" != "a/b" by { assert |"a//b"| == 4 && |"a/b"| == 3; }
    assert StringLe("a//b", "a/b") by { DoubledComesFirst(); }
    assert "a//b" + ".json" == "a//b.json" && "a/b" + ".json" == "a/b.json";
    DoubledIsSingle();
  }

  lemma DoubledComesFirst()
    ensures StringLe("a//b", "a/b")
  {
    assert "a//b"[1..] == "//b" && "a/b"[1..] == "/b" && "//b"[1..] == "/b" && "/b"[1..] == "b";
  }

  lemma DoubledIsSingle()
    ensures SafeRelative("a//b.json") == SafeRelative("a/b.json")
  {
    hide Components, Split;
    var rest := Split("b.json");
    assert "a" + "/" + "b.json" == "a/b.json" && "" + "/" + "b.json" == "/b.json" && "a" + "/" + "/b.json" == "a//b.json";
    SplitAtSlash("a", "b.json");
    SplitAtSlash("", "b.json");
    SplitAtSlash("a", "/b.json");
    assert "a//b.json"[0] != '/' && "a/b.json"[0] != '/';
    EmptyIsDropped("a", rest);
  }

  lemma EmptyIsDropped(name: string, rest: seq<string>)
    ensures Components([name] + ([""] + rest)) == Components([name] + rest)
  {
    assert ([""] + rest)[1..] == rest && ([name] + ([""] + rest))[1..] == [""] + rest && ([name] + rest)[1..] == rest;
  }

  // ---------------------------------------------------------------- what writing leaves behind

  /** Neither patch of the record occurs in the text, at any position. */
  ghost predicate HoldsNeitherPatch(text: string, r: Record) {
    && (r.goldPatch != "" ==> forall i: nat :: !MatchAt(text, r.goldPatch, i))
    && (r.goldTestPatch != "" ==> forall i: nat :: !MatchAt(text, r.goldTestPatch, i))
  }

  /** The leak check finds a patch exactly when the serialized projection holds one. */
  lemma LeakIsOccurrence(w: World, model: ModelProjection, r: Record)
    ensures Leaks(w, model, r) <==> !HoldsNeitherPatch(w.serialize(model), r)
  {
    hide Contains, MatchAt;
    ContainsIffOccurs(w.serialize(model), r.goldPatch);
    ContainsIffOccurs(w.serialize(model), r.goldTestPatch);
  }

  /** The projections of one record are in the tree, without its patches, at the places its manifest entry names. */
  ghost predicate Stored(w: World, bed: Bed, t: Materialization, s: SelectedRecord) {
    var m, e := ModelPath(s.record.taskId), EvaluationPath(s.record.taskId);
    && m.Some? && e.Some? && HoldsNeitherPatch(w.serialize(ModelOf(bed, s.record)), s.record)
    && m.value in t.files && t.files[m.value] == ModelFile(ModelOf(bed, s.record))
    && e.value in t.files && t.files[e.value] == EvaluationFile(EvaluationOf(bed, s.record))
  }

  predicate UnderProjections(p: Path) {
    p != [] && p[0] == "projections"
  }

  lemma WriteRecordStores(w: World, bed: Bed, t: Materialization, s: SelectedRecord)
    requires t.Valid() && WriteRecord(w, bed, t, s).Ok?
    ensures var r := WriteRecord(w, bed, t, s).value; var m, e := ModelPath(s.record.taskId), EvaluationPath(s.record.taskId);
      && r.Valid() && Stored(w, bed, r, s) && m.Some? && e.Some?
      && r.files.Keys == t.files.Keys + {m.value, e.value}
      && (forall p :: p in t.files && p != m.value && p != e.value ==> r.files[p] == t.files[p])
  {
    hide Leaks, HoldsNeitherPatch, ModelPath, EvaluationPath, Tree.WriteWithParents;
    LeakIsOccurrence(w, ModelOf(bed, s.record), s.record);
    var m, e := ModelPath(s.record.taskId).value, EvaluationPath(s.record.taskId).value;
    KindsDiffer(s.record.taskId, s.record.taskId);
    WriteWithParentsAddsOne(t, m, ModelFile(ModelOf(bed, s.record)));
    var mid := t.WriteWithParents(m, ModelFile(ModelOf(bed, s.record))).value;
    WriteWithParentsAddsOne(mid, e, EvaluationFile(EvaluationOf(bed, s.record)));
  }

  /** What the writing loop keeps: other files, and names that were accepted and did not leak. */
  ghost predicate Written(w: World, bed: Bed, t: Materialization, r: Materialization, records: seq<SelectedRecord>) {
    && r.Valid()
    && (forall p :: p in t.files && !UnderProjections(p) ==> p in r.files && r.files[p] == t.files[p])
    && (forall i :: 0 <= i < |records| ==>
          && ModelPath(records[i].record.taskId).Some?
          && HoldsNeitherPatch(w.serialize(ModelOf(bed, records[i].record)), records[i].record))
  }

  lemma OthersAreUntouched(taskId: string, p: Path)
    requires ModelPath(taskId).Some? && !UnderProjections(p)
    ensures p != ModelPath(taskId).value && p != EvaluationPath(taskId).value
  {
    hide SafeRelative;
    PathShape(taskId);
  }

  lemma {:induction false} WriteRecordsWrite(w: World, bed: Bed, t: Materialization, records: seq<SelectedRecord>)
    requires t.Valid() && WriteRecords(w, bed, t, records).Ok?
    ensures Written(w, bed, t, WriteRecords(w, bed, t, records).value, records)
  {
    hide WriteRecord, ModelPath, EvaluationPath, HoldsNeitherPatch, UnderProjections;
    if records != [] {
      WriteRecordsWrite(w, bed, t, Init(records));
      var mid, s := WriteRecords(w, bed, t, Init(records)).value, Last(records);
      var r := WriteRecords(w, bed, t, records).value;
      WriteRecordStores(w, bed, mid, s);
      forall p | p in t.files && !UnderProjections(p)
        ensures p in r.files && r.files[p] == t.files[p]
      {
        OthersAreUntouched(s.record.taskId, p);
      }
      assert forall i :: 0 <= i < |records| - 1 ==> Init(records)[i] == records[i];
    }
  }

  /** With distinct places, writing one more record keeps what was stored before. */
  lemma StoredSurvives(w: World, bed: Bed, t: Materialization, old_: SelectedRecord, s: SelectedRecord)
    requires t.Valid() && WriteRecord(w, bed, t, s).Ok? && Stored(w, bed, t, old_)
    requires ModelPath(old_.record.taskId) != ModelPath(s.record.taskId)
    ensures Stored(w, bed, WriteRecord(w, bed, t, s).value, old_)
  {
    hide ModelPath, EvaluationPath, HoldsNeitherPatch, WriteRecord;
    WriteRecordStores(w, bed, t, s);
    var a, b := old_.record.taskId, s.record.taskId;
    KindsDiffer(a, b);
    KindsDiffer(b, a);
    PathsCollideTogether(a, b);
  }

  lemma {:induction false} DistinctPlacesStoreAll(w: World, bed: Bed, t: Materialization, records: seq<SelectedRecord>, i: nat)
    requires t.Valid() && WriteRecords(w, bed, t, records).Ok? && DistinctProjections(TaskIdsOf(records)) && i < |records|
    ensures Stored(w, bed, WriteRecords(w, bed, t, records).value, records[i])
  {
    hide ModelPath, WriteRecord, Stored;
    var front, s := Init(records), Last(records);
    assert TaskIdsOf(front) == Init(TaskIdsOf(records));
    WriteRecordsWrite(w, bed, t, front);
    var mid := WriteRecords(w, bed, t, front).value;
    WriteRecordStores(w, bed, mid, s);
    if i < |front| {
      DistinctPlacesStoreAll(w, bed, t, front, i);
      assert TaskIdsOf(records)[i] == records[i].record.taskId && TaskIdsOf(records)[|front|] == s.record.taskId;
      StoredSurvives(w, bed, mid, records[i], s);
    }
  }

  // ---------------------------------------------------------------- what the verification loop checks

  /** The verifier finds the record's entry and, at the places it names, exactly the recomputed projections. */
  ghost predicate Confirmed(w: World, bed: Bed, t: Materialization, entries: seq<SelectedTask>, s: SelectedRecord, entry: SelectedTask) {
    var m, e := SafeRelative(entry.modelProjection), SafeRelative(entry.evaluationProjection);
    && EntryFor(entries, s.record.taskId).Some?
    && EntryFor(entries, s.record.taskId).value.modelProjection == entry.modelProjection
    && entry.taskId == s.record.taskId && entry.recordSha256 == s.sha256
    && entry.repository == s.record.repository && entry.baseCommit == s.record.baseCommit
    && m.Some? && e.Some? && m.value in t.files && e.value in t.files
    && t.files[m.value] == ModelFile(ModelOf(bed, s.record)) && t.files[e.value] == EvaluationFile(EvaluationOf(bed, s.record))
    && HoldsNeitherPatch(w.serialize(ModelOf(bed, s.record)), s.record)
  }

  predicate NamesFiles(entry: SelectedTask) {
    SafeRelative(entry.modelProjection).Some? && SafeRelative(entry.evaluationProjection).Some?
  }

  /** Which change of a task the verification loop reports first. */
  lemma RefusalsInOrder(w: World, bed: Bed, t: Materialization, entries: seq<SelectedTask>, s: SelectedRecord)
    ensures var r, entry := VerifyRecord(w, bed, t, entries, s), EntryFor(entries, s.record.taskId);
      && (r == Err(TaskNotInManifest) <==> entry.None?)
      && (r == Err(RecordChanged) <==> entry.Some? && entry.value.recordSha256 != s.sha256)
      && (r == Err(UnsafeName) <==> entry.Some? && entry.value.recordSha256 == s.sha256 && !NamesFiles(entry.value))
  {
    hide SafeRelative, EntryFor, Leaks;
  }

  lemma VerifiedRecordIsConfirmed(w: World, bed: Bed, t: Materialization, entries: seq<SelectedTask>, s: SelectedRecord)
    requires VerifyRecord(w, bed, t, entries, s).Ok?
    ensures Confirmed(w, bed, t, entries, s, VerifyRecord(w, bed, t, entries, s).value)
  {
    hide Leaks, HoldsNeitherPatch, SafeRelative;
    LeakIsOccurrence(w, ModelOf(bed, s.record), s.record);
  }

  lemma {:induction false} VerifiedRecordsAreConfirmed(w: World, bed: Bed, t: Materialization, entries: seq<SelectedTask>, records: seq<SelectedRecord>)
    requires VerifyRecords(w, bed, t, entries, records).Ok?
    ensures var r := VerifyRecords(w, bed, t, entries, records).value;
      |r| == |records| && forall i :: 0 <= i < |records| ==> Confirmed(w, bed, t, entries, records[i], r[i])
  {
    hide VerifyRecord, Confirmed;
    if records != [] {
      VerifiedRecordsAreConfirmed(w, bed, t, entries, Init(records));
      VerifiedRecordIsConfirmed(w, bed, t, entries, Last(records));
      assert forall i :: 0 <= i < |records| - 1 ==> Init(records)[i] == records[i];
    }
  }

  lemma {:induction false} EntryOfDistinct(entries: seq<SelectedTask>, i: nat)
    requires i < |entries| && forall a, b :: 0 <= a < b < |entries| ==> entries[a].taskId != entries[b].taskId
    ensures EntryFor(entries, entries[i].taskId) == Some(entries[i])
  {
    if i > 0 {
      assert entries[0].taskId != entries[i].taskId;
      EntryOfDistinct(entries[1..], i - 1);
    }
  }

  /** The verifier confirms a stored record through its own manifest entry. */
  lemma StoredRecordVerifies(w: World, bed: Bed, t: Materialization, entries: seq<SelectedTask>, s: SelectedRecord)
    requires Stored(w, bed, t, s) && EntryFor(entries, s.record.taskId) == Some(EntryOf(s))
    ensures VerifyRecord(w, bed, t, entries, s) == Ok(EntryOf(s))
  {
    hide Leaks, HoldsNeitherPatch, SafeRelative, ModelPath, EvaluationPath, PosixString;
    LeakIsOccurrence(w, ModelOf(bed, s.record), s.record);
    PathShape(s.record.taskId);
  }

  lemma {:induction false} StoredRecordsVerify(w: World, bed: Bed, t: Materialization, entries: seq<SelectedTask>, records: seq<SelectedRecord>)
    requires forall i :: 0 <= i < |records| ==> Stored(w, bed, t, records[i]) && EntryFor(entries, records[i].record.taskId) == Some(EntryOf(records[i]))
    ensures VerifyRecords(w, bed, t, entries, records) == Ok(EntriesOf(records))
  {
    hide Stored, EntryOf, VerifyRecord, EntryFor;
    if records != [] {
      assert forall i :: 0 <= i < |records| - 1 ==> Init(records)[i] == records[i];
      StoredRecordsVerify(w, bed, t, entries, Init(records));
      StoredRecordVerifies(w, bed, t, entries, Last(records));
      assert EntriesOf(records) == EntriesOf(Init(records)) + [EntryOf(Last(records))];
    }
  }

  /** If every record verifies through its own entry, no two records share a place. */
  lemma VerifiedPlacesAreDistinct(w: World, bed: Bed, t: Materialization, records: seq<SelectedRecord>, ids: seq<string>)
    requires FollowsIds(records, ids)
    requires forall i :: 0 <= i < |records| ==> ModelPath(records[i].record.taskId).Some?
    requires VerifyRecords(w, bed, t, EntriesOf(records), records).Ok?
    ensures DistinctProjections(ids)
  {
    hide ModelPath, EvaluationPath, SafeRelative, PosixString, HoldsNeitherPatch;
    VerifiedRecordsAreConfirmed(w, bed, t, EntriesOf(records), records);
    var r := VerifyRecords(w, bed, t, EntriesOf(records), records).value;
    EntriesFollowIds(records, ids);
    forall i | 0 <= i < |records|
      ensures ModelPath(ids[i]).Some? && ModelPath(ids[i]).value in t.files
      ensures t.files[ModelPath(ids[i]).value] == ModelFile(ModelOf(bed, records[i].record))
    {
      assert Confirmed(w, bed, t, EntriesOf(records), records[i], r[i]);
      EntryOfDistinct(EntriesOf(records), i);
      PathShape(ids[i]);
    }
    forall i, j | 0 <= i < j < |ids|
      ensures ModelPath(ids[i]) != ModelPath(ids[j])
    {
      assert records[i].record.taskId != records[j].record.taskId;
    }
  }

  lemma EntriesFollowIds(records: seq<SelectedRecord>, ids: seq<string>)
    requires FollowsIds(records, ids)
    ensures forall i :: 0 <= i < |records| ==> EntriesOf(records)[i] == EntryOf(records[i]) && EntriesOf(records)[i].taskId == ids[i]
    ensures forall a, b :: 0 <= a < b < |records| ==> EntriesOf(records)[a].taskId != EntriesOf(records)[b].taskId
    ensures TaskIdsOf(records) == ids
  {
    hide ModelPath, EvaluationPath, PosixString;
  }

  // ---------------------------------------------------------------- the writer against the verifier

  /** The asset was acquired below `source`, at a normal path. */
  predicate IsAssetPath(p: Path) {
    |p| >= 2 && p[0] == "source" && NormalPath(p)
  }

  /** The records and columns that a materialization of these bytes selects. */
  function RecordsOf(w: World, bed: Bed, bytes: string): Result<seq<SelectedRecord>, SelectError> {
    var parsed := w.parse(bytes, bed.sourceFormat);
    if parsed.None? then Err(SchemaIncomplete) else Selection(w.src, parsed.value.0, bed, parsed.value.1)
  }

  function SchemaOf(w: World, bed: Bed, bytes: string): seq<string> {
    var parsed := w.parse(bytes, bed.sourceFormat);
    if parsed.None? then [] else Sort(parsed.value.1, StringLe)
  }

  /** What a successful materialization consists of. */
  ghost predicate IsMaterialized(w: World, version: string, bed: Bed, t: Materialization, asset: Path, blob: Option<string>, at: string,
                                 records: seq<SelectedRecord>, mid: Materialization, r: Materialization, m: Manifest) {
    && ValidBed(bed) && asset in t.files && t.files[asset].AssetFile?
    && w.parse(t.files[asset].bytes, bed.sourceFormat).Some?
    && RecordsOf(w, bed, t.files[asset].bytes) == Ok(records)
    && w.sha256(t.files[asset].bytes) == bed.assetSha256
    && WriteRecords(w, bed, t, records) == Ok(mid)
    && m == ManifestOf(w, version, bed, asset, t.files[asset].bytes, SchemaOf(w, bed, t.files[asset].bytes), records, blob, at)
    && mid.WriteWithParents(MANIFEST_FILE, ManifestFile(m)) == Some(r)
  }

  lemma MaterializedShape(w: World, registry: Registry, bed: Bed, t: Materialization, asset: Path, blob: Option<string>, at: string)
    returns (records: seq<SelectedRecord>, mid: Materialization)
    requires Materialize(w, registry, bed, t, asset, blob, at).Ok?
    ensures var (r, m) := Materialize(w, registry, bed, t, asset, blob, at).value;
      IsMaterialized(w, registry.version, bed, t, asset, blob, at, records, mid, r, m)
  {
    hide ValidBed, Selection, WriteRecords, ManifestOf, StringLe, Tree.WriteWithParents, AllResolve;
    var bytes := t.files[asset].bytes;
    records := RecordsOf(w, bed, bytes).value;
    mid := WriteRecords(w, bed, t, records).value;
  }

  /** The finished tree holds the manifest, the asset, and the projections as the loop left them. */
  lemma FinishedTree(w: World, bed: Bed, t: Materialization, asset: Path, records: seq<SelectedRecord>, mid: Materialization, r: Materialization, m: Manifest)
    requires t.Valid() && IsAssetPath(asset) && asset in t.files
    requires WriteRecords(w, bed, t, records) == Ok(mid) && mid.WriteWithParents(MANIFEST_FILE, ManifestFile(m)) == Some(r)
    ensures MANIFEST_FILE in r.files && r.files[MANIFEST_FILE] == ManifestFile(m)
    ensures asset in r.files && r.files[asset] == t.files[asset]
    ensures forall i :: 0 <= i < |records| ==> ModelPath(records[i].record.taskId).Some?
    ensures forall s :: Stored(w, bed, mid, s) <==> Stored(w, bed, r, s)
  {
    hide WriteRecords, Tree.WriteWithParents, ModelPath, EvaluationPath, HoldsNeitherPatch, NormalPath;
    assert MANIFEST_FILE[0] != "source" && "projections" != "source" && MANIFEST_FILE[0] != "projections";
    WriteRecordsWrite(w, bed, t, records);
    WriteWithParentsAddsOne(mid, MANIFEST_FILE, ManifestFile(m));
    forall s
      ensures Stored(w, bed, mid, s) <==> Stored(w, bed, r, s)
    {
      PathShape(s.record.taskId);
    }
  }

  /** On a tree that keeps the manifest and the asset, verification comes down to these conditions. */
  lemma VerifyComesDownTo(w: World, registry: Registry, bed: Bed, r: Materialization, asset: Path, bytes: string, blob: Option<string>,
                          at: string, records: seq<SelectedRecord>, checkout: Checkout, m: Manifest)
    requires ValidBed(bed) && bed.id in registry.beds && registry.beds[bed.id] == bed && IsAssetPath(asset)
    requires w.parse(bytes, bed.sourceFormat).Some? && RecordsOf(w, bed, bytes) == Ok(records) && w.sha256(bytes) == bed.assetSha256
    requires m == ManifestOf(w, registry.version, bed, asset, bytes, SchemaOf(w, bed, bytes), records, blob, at)
    requires MANIFEST_FILE in r.files && r.files[MANIFEST_FILE] == ManifestFile(m)
    requires asset in r.files && r.files[asset] == AssetFile(bytes)
    ensures Verify(w, registry, r, checkout).Ok? <==>
      && w.schemaAccepts(m) && blob == bed.assetGitBlobSha && CheckoutMatches(bed, checkout, blob)
      && VerifyRecords(w, bed, r, EntriesOf(records), records) == Ok(EntriesOf(records))
    ensures Verify(w, registry, r, checkout).Ok? ==> Verify(w, registry, r, checkout).value == m
  {
    hide ValidBed, Selection, StringLe, SafeRelative, PosixString, VerifyRecords, EntriesOf, TaskIdsOf, IdentityOf;
    PosixRoundTrip(asset);
    assert PreflightMatches(m.preflight, records) by { PreflightOfRecordsMatches(records); }
    assert m.selectedTasks == EntriesOf(records);
  }

  lemma PreflightOfRecordsMatches(records: seq<SelectedRecord>)
    ensures PreflightMatches(PreflightOf(records), records)
  {
    var preflight := PreflightOf(records);
    var a := set p | p in preflight && p.resolved :: (p.taskId, p.repository, p.baseCommit);
    var b := set s | s in records :: (s.record.taskId, s.record.repository, s.record.baseCommit);
    forall x | x in b
      ensures x in a
    {
      var i :| 0 <= i < |records| && x == (records[i].record.taskId, records[i].record.repository, records[i].record.baseCommit);
      assert preflight[i] in preflight && preflight[i].resolved;
    }
    assert a <= b;
  }

  /**
    The verifier accepts a tree that the writer produced for a registered bed if and only if the
    manifest schema accepts the manifest, the recorded Git blob is the registered one, the checkout is
    still the registered one, and no two task ids lead to the same projection file. It then returns
    the written manifest.
   */
  lemma WrittenTreeVerifies(w: World, registry: Registry, bed: Bed, t: Materialization, asset: Path, blob: Option<string>, at: string, checkout: Checkout)
    requires t.Valid() && IsAssetPath(asset) && bed.id in registry.beds && registry.beds[bed.id] == bed
    requires Materialize(w, registry, bed, t, asset, blob, at).Ok?
    ensures var (r, m) := Materialize(w, registry, bed, t, asset, blob, at).value;
      && (Verify(w, registry, r, checkout).Ok? <==>
            && w.schemaAccepts(m) && blob == bed.assetGitBlobSha && CheckoutMatches(bed, checkout, blob)
            && DistinctProjections(bed.taskIds))
      && (Verify(w, registry, r, checkout).Ok? ==> Verify(w, registry, r, checkout).value == m)
  {
    hide Materialize, Verify, ValidBed, ManifestOf, WriteRecords, VerifyRecords, Stored, DistinctProjections, IsAssetPath,
         Selection, EntriesOf, ModelPath, EvaluationPath, Tree.WriteWithParents, CheckoutMatches, StringLe;
    var records, mid := MaterializedShape(w, registry, bed, t, asset, blob, at);
    var (r, m) := Materialize(w, registry, bed, t, asset, blob, at).value;
    var bytes := t.files[asset].bytes;
    FinishedTree(w, bed, t, asset, records, mid, r, m);
    VerifyComesDownTo(w, registry, bed, r, asset, bytes, blob, at, records, checkout, m);
    SelectedFollowIds(w.src, w.parse(bytes, bed.sourceFormat).value.0, bed, w.parse(bytes, bed.sourceFormat).value.1);
    EntriesFollowIds(records, bed.taskIds);
    if DistinctProjections(bed.taskIds) {
      forall i | 0 <= i < |records|
        ensures Stored(w, bed, r, records[i]) && EntryFor(EntriesOf(records), records[i].record.taskId) == Some(EntryOf(records[i]))
      {
        DistinctPlacesStoreAll(w, bed, t, records, i);
        EntryOfRecord(records, bed.taskIds, i);
      }
      StoredRecordsVerify(w, bed, r, EntriesOf(records), records);
    } else if VerifyRecords(w, bed, r, EntriesOf(records), records).Ok? {
      VerifiedPlacesAreDistinct(w, bed, r, records, bed.taskIds);
    }
  }

  lemma EntryOfRecord(records: seq<SelectedRecord>, ids: seq<string>, i: nat)
    requires FollowsIds(records, ids) && i < |records|
    ensures EntryFor(EntriesOf(records), records[i].record.taskId) == Some(EntryOf(records[i]))
  {
    hide EntryOf, EntryFor;
    EntriesFollowIds(records, ids);
    assert |EntriesOf(records)| == |records|;
    EntryOfDistinct(EntriesOf(records), i);
  }

  // ---------------------------------------------------------------- what acceptance means

  /** The model-facing projection shows these five values of the record and the bed, under their own names. */
  predicate Shows(bed: Bed, r: Record, m: ModelProjection) {
    m.bedId == bed.id && m.taskId == r.taskId && m.repository == r.repository && m.baseCommit == r.baseCommit &&
    m.problemStatement == r.problemStatement
  }

  /** The evaluation projection holds everything else but the hints. */
  predicate Evaluates(bed: Bed, r: Record, e: EvaluationProjection) {
    e.bedId == bed.id && e.taskId == r.taskId && e.repository == r.repository && e.baseCommit == r.baseCommit &&
    e.environmentSetupCommit == r.environmentSetupCommit && e.failToPass == r.failToPass && e.passToPass == r.passToPass &&
    e.goldPatch == r.goldPatch && e.goldTestPatch == r.goldTestPatch && e.sourceMetadata == r.sourceMetadata
  }

  /**
    One registered task in an accepted tree: its manifest entry repeats its record and names two files,
    which show and evaluate that record, the first without its patches.
   */
  ghost predicate Verified(w: World, bed: Bed, t: Materialization, s: SelectedRecord, entry: SelectedTask) {
    var m, e := SafeRelative(entry.modelProjection), SafeRelative(entry.evaluationProjection);
    && entry.taskId == s.record.taskId && entry.recordSha256 == s.sha256
    && entry.repository == s.record.repository && entry.baseCommit == s.record.baseCommit
    && m.Some? && e.Some? && m.value in t.files && e.value in t.files
    && t.files[m.value].ModelFile? && Shows(bed, s.record, t.files[m.value].model)
    && t.files[e.value].EvaluationFile? && Evaluates(bed, s.record, t.files[e.value].evaluation)
    && HoldsNeitherPatch(w.serialize(t.files[m.value].model), s.record)
  }

  lemma ConfirmedIsVerified(w: World, bed: Bed, t: Materialization, entries: seq<SelectedTask>, s: SelectedRecord, entry: SelectedTask)
    requires Confirmed(w, bed, t, entries, s, entry)
    ensures Verified(w, bed, t, s, entry)
  {
    hide SafeRelative, HoldsNeitherPatch, EntryFor;
  }

  /** The manifest names the registered source, its asset has the registered digest, and the checkout is the registered one. */
  ghost predicate SourceIsRegistered(w: World, version: string, bed: Bed, m: Manifest, bytes: string, checkout: Checkout) {
    && m.taskSetVersion == version && m.bedId == bed.id
    && m.upstream.locator == bed.dataset && m.upstream.revision == bed.revision && m.upstream.assetRelativePath == bed.assetPath
    && m.upstream.sourceFormat == bed.sourceFormat && m.upstream.assetSha256 == bed.assetSha256 == w.sha256(bytes)
    && m.upstream.assetSizeBytes == |bytes| && m.upstream.gitBlobSha == bed.assetGitBlobSha
    && (bed.sourceType == "git" ==> checkout.head == bed.revision && bed.assetGitBlobSha == Some(checkout.blob))
  }

  /** The manifest lists the registered tasks in registered order, and each of them, and only them, was resolved. */
  ghost predicate TasksAreRegistered(m: Manifest, bed: Bed, records: seq<SelectedRecord>) {
    && m.selectedTaskIds == bed.taskIds && m.selectedTaskCount == |bed.taskIds| && |m.selectedTasks| == |m.preflight| == |bed.taskIds|
    && (forall i :: 0 <= i < |records| ==> WasResolved(m.preflight, records[i].record))
    && (forall p :: p in m.preflight && p.resolved ==> WasSelected(p, records))
    && m.goldExcluded
  }

  ghost predicate WasResolved(preflight: seq<Preflight>, r: Record) {
    exists p :: p in preflight && Resolves(p, r)
  }

  ghost predicate WasSelected(p: Preflight, records: seq<SelectedRecord>) {
    exists i :: 0 <= i < |records| && Resolves(p, records[i].record)
  }

  predicate Resolves(p: Preflight, r: Record) {
    p.resolved && p.taskId == r.taskId && p.repository == r.repository && p.baseCommit == r.baseCommit
  }

  /** The fingerprint is that of a basis which holds the whole identity of the source and of every record. */
  ghost predicate BasisIsComplete(w: World, version: string, bed: Bed, m: Manifest, bytes: string, columns: seq<string>, records: seq<SelectedRecord>) {
    var basis := m.fingerprintBasis;
    && m.fingerprint == w.identityDigest(basis)
    && basis.taskSetVersion == version && basis.bedId == bed.id && basis.adapter == bed.adapter
    && basis.sourceType == bed.sourceType && basis.sourceFormat == bed.sourceFormat && basis.locator == bed.dataset
    && basis.revision == bed.revision && basis.assetPath == bed.assetPath && basis.assetSizeBytes == |bytes|
    && basis.assetSha256 == bed.assetSha256 && basis.gitBlobSha == bed.assetGitBlobSha
    && basis.sourceSchema == m.sourceSchema == columns && |basis.selectedTasks| == |records|
    && forall i :: 0 <= i < |records| ==>
         && basis.selectedTasks[i].taskId == records[i].record.taskId && basis.selectedTasks[i].recordSha256 == records[i].sha256
         && basis.selectedTasks[i].repository == records[i].record.repository && basis.selectedTasks[i].baseCommit == records[i].record.baseCommit
  }

  /** Everything that acceptance says about a tree and its manifest. */
  ghost predicate Accepted(w: World, registry: Registry, t: Materialization, checkout: Checkout, m: Manifest, bytes: string, records: seq<SelectedRecord>) {
    && w.schemaAccepts(m) && m.bedId in registry.beds
    && var bed := registry.beds[m.bedId];
    && ValidBed(bed) && RecordsOf(w, bed, bytes) == Ok(records) && FollowsIds(records, bed.taskIds)
    && SafeRelative(m.localAssetPath).Some? && SafeRelative(m.localAssetPath).value in t.files
    && t.files[SafeRelative(m.localAssetPath).value] == AssetFile(bytes)
    && SourceIsRegistered(w, registry.version, bed.(id := m.bedId), m, bytes, checkout)
    && TasksAreRegistered(m, bed, records)
    && BasisIsComplete(w, registry.version, bed, m, bytes, SchemaOf(w, bed, bytes), records)
    && |m.selectedTasks| == |records|
    && forall i :: 0 <= i < |records| ==> Verified(w, bed, t, records[i], m.selectedTasks[i])
  }

  lemma PreflightIsMutual(preflight: seq<Preflight>, records: seq<SelectedRecord>)
    requires PreflightMatches(preflight, records)
    ensures forall i :: 0 <= i < |records| ==> WasResolved(preflight, records[i].record)
    ensures forall p :: p in preflight && p.resolved ==> WasSelected(p, records)
  {
    var a := set p | p in preflight && p.resolved :: (p.taskId, p.repository, p.baseCommit);
    var b := set s | s in records :: (s.record.taskId, s.record.repository, s.record.baseCommit);
    assert a == b;
    forall i | 0 <= i < |records|
      ensures WasResolved(preflight, records[i].record)
    {
      var s := records[i];
      assert s in records;
      assert (s.record.taskId, s.record.repository, s.record.baseCommit) in a;
    }
    forall p | p in preflight && p.resolved
      ensures WasSelected(p, records)
    {
      assert (p.taskId, p.repository, p.baseCommit) in b;
      var s :| s in records && (s.record.taskId, s.record.repository, s.record.baseCommit) == (p.taskId, p.repository, p.baseCommit);
      var i :| 0 <= i < |records| && records[i] == s;
      assert Resolves(p, records[i].record);
    }
  }

  /** The manifest, asset and records that an accepted tree was verified against. */
  ghost predicate VerifiedAgainst(w: World, registry: Registry, t: Materialization, checkout: Checkout, m: Manifest, bed: Bed,
                                  bytes: string, records: seq<SelectedRecord>) {
    && w.schemaAccepts(m) && m.bedId in registry.beds && bed == registry.beds[m.bedId] && ValidBed(bed)
    && m.taskSetVersion == registry.version && UpstreamMatches(m.upstream, bed)
    && SafeRelative(m.localAssetPath).Some? && SafeRelative(m.localAssetPath).value in t.files
    && t.files[SafeRelative(m.localAssetPath).value] == AssetFile(bytes)
    && w.sha256(bytes) == m.upstream.assetSha256 && |bytes| == m.upstream.assetSizeBytes
    && CheckoutMatches(bed, checkout, m.upstream.gitBlobSha)
    && w.parse(bytes, bed.sourceFormat).Some? && RecordsOf(w, bed, bytes) == Ok(records)
    && VerifyAgainst(w, registry, bed, t, m, bytes, SchemaOf(w, bed, bytes), records) == Ok(m)
  }

  lemma VerifyUnfolds(w: World, registry: Registry, t: Materialization, checkout: Checkout)
    returns (bed: Bed, bytes: string, records: seq<SelectedRecord>)
    requires Verify(w, registry, t, checkout).Ok?
    ensures VerifiedAgainst(w, registry, t, checkout, Verify(w, registry, t, checkout).value, bed, bytes, records)
  {
    hide ValidBed, Selection, StringLe, SafeRelative, VerifyRecords, IdentityOf, PreflightMatches, TaskIdsOf, UpstreamMatches, CheckoutMatches;
    var m := t.files[MANIFEST_FILE].manifest;
    bed := registry.beds[m.bedId];
    bytes := t.files[SafeRelative(m.localAssetPath).value].bytes;
    records := RecordsOf(w, bed, bytes).value;
  }

  lemma BasisOfIdentity(w: World, version: string, bed: Bed, m: Manifest, bytes: string, records: seq<SelectedRecord>)
    requires m.fingerprintBasis == IdentityOf(version, bed, m.sourceSchema, |bytes|, bed.assetSha256, records, bed.assetGitBlobSha)
    requires m.fingerprint == w.identityDigest(m.fingerprintBasis)
    ensures BasisIsComplete(w, version, bed, m, bytes, m.sourceSchema, records)
  {
  }

  /** What the checks after the recomputation say. */
  lemma ChecksPass(w: World, registry: Registry, bed: Bed, t: Materialization, m: Manifest, bytes: string,
                   schema: seq<string>, records: seq<SelectedRecord>)
    requires VerifyAgainst(w, registry, bed, t, m, bytes, schema, records) == Ok(m)
    requires w.sha256(bytes) == bed.assetSha256 && m.upstream.gitBlobSha == bed.assetGitBlobSha && FollowsIds(records, bed.taskIds)
    ensures TasksAreRegistered(m, bed, records) && BasisIsComplete(w, registry.version, bed, m, bytes, schema, records)
    ensures |m.selectedTasks| == |records| && forall i :: 0 <= i < |records| ==> Verified(w, bed, t, records[i], m.selectedTasks[i])
  {
    hide VerifyRecords, Confirmed, Verified, IdentityOf, PreflightMatches, BasisIsComplete, TasksAreRegistered, TaskIdsOf, FollowsIds;
    VerifiedRecordsAreConfirmed(w, bed, t, m.selectedTasks, records);
    TasksAgree(m, bed, records);
    BasisOfIdentity(w, registry.version, bed, m, bytes, records);
    forall i | 0 <= i < |records|
      ensures Verified(w, bed, t, records[i], m.selectedTasks[i])
    {
      ConfirmedIsVerified(w, bed, t, m.selectedTasks, records[i], m.selectedTasks[i]);
    }
  }

  lemma TasksAgree(m: Manifest, bed: Bed, records: seq<SelectedRecord>)
    requires FollowsIds(records, bed.taskIds) && m.selectedTaskIds == TaskIdsOf(records) && m.selectedTaskCount == |records|
    requires PreflightMatches(m.preflight, records) && |m.selectedTasks| == |records| && m.goldExcluded
    ensures TasksAreRegistered(m, bed, records)
  {
    PreflightIsMutual(m.preflight, records);
    assert m.selectedTaskIds == bed.taskIds;
  }

  /**
    An accepted tree holds, for every registered task in registered order, exactly the projections of
    the record recomputed from an asset with the registered digest, at the places its manifest names,
    and its manifest tells the truth about the source, the tasks and the basis of its fingerprint.
   */
  lemma AcceptedTreeIsExact(w: World, registry: Registry, t: Materialization, checkout: Checkout)
    returns (bytes: string, records: seq<SelectedRecord>)
    requires Verify(w, registry, t, checkout).Ok?
    ensures Accepted(w, registry, t, checkout, Verify(w, registry, t, checkout).value, bytes, records)
  {
    hide Verify, ValidBed, Selection, StringLe, SafeRelative, VerifyAgainst, FollowsIds, Verified, TasksAreRegistered, BasisIsComplete;
    var bed;
    bed, bytes, records := VerifyUnfolds(w, registry, t, checkout);
    var parsed := w.parse(bytes, bed.sourceFormat).value;
    SelectedFollowIds(w.src, parsed.0, bed, parsed.1);
    ChecksPass(w, registry, bed, t, Verify(w, registry, t, checkout).value, bytes, SchemaOf(w, bed, bytes), records);
  }

  lemma AcquisitionIsKept(w: World, version: string, bed: Bed, asset: Path, bytes: string, schema: seq<string>,
                          records: seq<SelectedRecord>, blob: Option<string>, at: string)
    ensures ManifestOf(w, version, bed, asset, bytes, schema, records, blob, at).acquiredAt == at
  {
  }

  /** A bed is written only if no serialized model-facing projection holds a patch of its own record. Its manifest keeps the time of acquisition. */
  lemma WrittenTreeHoldsNoPatch(w: World, registry: Registry, bed: Bed, t: Materialization, asset: Path, blob: Option<string>, at: string)
    returns (records: seq<SelectedRecord>)
    requires t.Valid() && IsAssetPath(asset) && Materialize(w, registry, bed, t, asset, blob, at).Ok?
    ensures RecordsOf(w, bed, t.files[asset].bytes) == Ok(records) && FollowsIds(records, bed.taskIds)
    ensures Materialize(w, registry, bed, t, asset, blob, at).value.1.acquiredAt == at
    ensures forall i :: 0 <= i < |records| ==> HoldsNeitherPatch(w.serialize(ModelOf(bed, records[i].record)), records[i].record)
    ensures DistinctProjections(bed.taskIds) ==>
      forall i :: 0 <= i < |records| ==> Stored(w, bed, Materialize(w, registry, bed, t, asset, blob, at).value.0, records[i])
  {
    hide Materialize, ValidBed, ManifestOf, WriteRecords, Stored, DistinctProjections, IsAssetPath, HoldsNeitherPatch,
         Selection, ModelPath, EvaluationPath, Tree.WriteWithParents, StringLe;
    var mid;
    records, mid := MaterializedShape(w, registry, bed, t, asset, blob, at);
    var (r, m) := Materialize(w, registry, bed, t, asset, blob, at).value;
    var bytes := t.files[asset].bytes;
    assert m.acquiredAt == at by { AcquisitionIsKept(w, registry.version, bed, asset, bytes, SchemaOf(w, bed, bytes), records, blob, at); }
    WriteRecordsWrite(w, bed, t, records);
    FinishedTree(w, bed, t, asset, records, mid, r, m);
    SelectedFollowIds(w.src, w.parse(bytes, bed.sourceFormat).value.0, bed, w.parse(bytes, bed.sourceFormat).value.1);
    EntriesFollowIds(records, bed.taskIds);
    if DistinctProjections(bed.taskIds) {
      forall i | 0 <= i < |records|
        ensures Stored(w, bed, r, records[i])
      {
        DistinctPlacesStoreAll(w, bed, t, records, i);
      }
    }
  }

  /** Two accepted trees of one bed agree, if the registered digest has one preimage among their assets. */
  lemma AcceptedTreesAgree(w: World, registry: Registry, t: Materialization, u: Materialization, c: Checkout, d: Checkout)
    requires forall x, y :: AssetFile(x) in t.files.Values && AssetFile(y) in u.files.Values && w.sha256(x) == w.sha256(y) ==> x == y
    ensures
      var a, b := Verify(w, registry, t, c), Verify(w, registry, u, d);
      a.Ok? && b.Ok? && a.value.bedId == b.value.bedId ==>
        && a.value.fingerprint == b.value.fingerprint && |a.value.selectedTasks| == |b.value.selectedTasks|
        && forall i :: 0 <= i < |a.value.selectedTasks| ==> SameProjections(t, a.value.selectedTasks[i], u, b.value.selectedTasks[i])
  {
    var a, b := Verify(w, registry, t, c), Verify(w, registry, u, d);
    if a.Ok? && b.Ok? && a.value.bedId == b.value.bedId {
      AgreeOnceAccepted(w, registry, t, u, c, d);
    }
  }

  lemma AgreeOnceAccepted(w: World, registry: Registry, t: Materialization, u: Materialization, c: Checkout, d: Checkout)
    requires Verify(w, registry, t, c).Ok? && Verify(w, registry, u, d).Ok?
    requires Verify(w, registry, t, c).value.bedId == Verify(w, registry, u, d).value.bedId
    requires forall x, y :: AssetFile(x) in t.files.Values && AssetFile(y) in u.files.Values && w.sha256(x) == w.sha256(y) ==> x == y
    ensures
      var m, n := Verify(w, registry, t, c).value, Verify(w, registry, u, d).value;
      && m.fingerprint == n.fingerprint && |m.selectedTasks| == |n.selectedTasks|
      && forall i :: 0 <= i < |m.selectedTasks| ==> SameProjections(t, m.selectedTasks[i], u, n.selectedTasks[i])
  {
    hide Verify, Verified, SameProjections, RecordsOf, FollowsIds, ValidBed, SchemaOf, SafeRelative, TasksAreRegistered, BasisIsComplete;
    var x, records := AcceptedTreeIsExact(w, registry, t, c);
    var y, others := AcceptedTreeIsExact(w, registry, u, d);
    var m, n := Verify(w, registry, t, c).value, Verify(w, registry, u, d).value;
    var bed := registry.beds[m.bedId];
    assert x == y;
    BasesAgree(w, registry.version, bed, m, n, x, SchemaOf(w, bed, x), records);
    forall i | 0 <= i < |m.selectedTasks|
      ensures SameProjections(t, m.selectedTasks[i], u, n.selectedTasks[i])
    {
      VerifiedAlike(w, bed, t, m.selectedTasks[i], u, n.selectedTasks[i], records[i]);
    }
  }

  /** Two manifest entries name the same task and files with the same projections. */
  ghost predicate SameProjections(t: Materialization, a: SelectedTask, u: Materialization, b: SelectedTask) {
    var m, e, n, f := SafeRelative(a.modelProjection), SafeRelative(a.evaluationProjection), SafeRelative(b.modelProjection), SafeRelative(b.evaluationProjection);
    && a.taskId == b.taskId && a.recordSha256 == b.recordSha256
    && m.Some? && e.Some? && n.Some? && f.Some?
    && m.value in t.files && n.value in u.files && t.files[m.value] == u.files[n.value]
    && e.value in t.files && f.value in u.files && t.files[e.value] == u.files[f.value]
  }

  lemma BasesAgree(w: World, version: string, bed: Bed, m: Manifest, n: Manifest, bytes: string, columns: seq<string>, records: seq<SelectedRecord>)
    requires BasisIsComplete(w, version, bed, m, bytes, columns, records) && BasisIsComplete(w, version, bed, n, bytes, columns, records)
    ensures m.fingerprint == n.fingerprint
  {
    assert m.fingerprintBasis.selectedTasks == n.fingerprintBasis.selectedTasks;
  }

  lemma VerifiedAlike(w: World, bed: Bed, t: Materialization, a: SelectedTask, u: Materialization, b: SelectedTask, s: SelectedRecord)
    requires Verified(w, bed, t, s, a) && Verified(w, bed, u, s, b)
    ensures SameProjections(t, a, u, b)
  {
    hide HoldsNeitherPatch, SafeRelative;
  }
}
