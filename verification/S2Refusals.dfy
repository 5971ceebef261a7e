/** Sample beds that the S2 writer materializes, and what the S2 verifier says to them. */
module S2Refusals {
  import opened Prelude
  import opened JsonValues
  import opened Ordering
  import opened Paths
  import opened Trees
  import opened S2Selection
  import opened S2Materialize
  import opened S2Laws
  import opened S2Success

  /** A digest of n hexadecimal digits. */
  function Digits(n: nat): (r: string)
    ensures IsHex(r, n)
  {
    if n == 0 then "" else Digits(n - 1) + "a"
  }

  /** A Hugging Face bed of these tasks. */
  function SampleBed(ids: seq<string>, blob: Option<string>): Bed {
    Bed("bed", Digits(40), ids, "data", Digits(64), "huggingface", "parquet", "https://", "swe-bench-verified-v1", {}, blob)
  }

  function SampleRow(id: string): Object {
    map["instance_id" := Str(id)]
  }

  function SampleRecord(id: string): Record {
    Record(id, "r", "c", "p", "", "", [], [], "", "", Null)
  }

  function Adapted(row: Object): Option<Record> {
    if Get(row, "instance_id").Str? then Some(SampleRecord(Get(row, "instance_id").s)) else None
  }

  /** A world in which the asset holds one row per task. */
  function SampleWorld(ids: seq<string>): World {
    World(
      Source(Adapted, Adapted, (_, _, _, _) => ""),
      (_, _) => Some((Map(ids, SampleRow), [])),
      _ => Digits(64), _ => "", _ => "", _ => true, (_, _) => true)
  }

  const ASSET: Path := ["source", "data"]
  const ACQUIRED: Materialization := Tree(map[ASSET := AssetFile("")], {[], ["source"]})

  function SampleRegistry(ids: seq<string>, blob: Option<string>): Registry {
    Registry("1", map["bed" := SampleBed(ids, blob)])
  }

  predicate DistinctIds(ids: seq<string>) {
    forall i, j :: 0 <= i < j < |ids| ==> ids[i] != ids[j]
  }

  // ---------------------------------------------------------------- selection

  lemma {:induction false} NoRow(ids: seq<string>, id: string)
    requires id !in ids
    ensures RowsWith(Map(ids, SampleRow), id) == []
  {
    if ids != [] {
      assert Init(Map(ids, SampleRow)) == Map(Init(ids), SampleRow);
      NoRow(Init(ids), id);
    }
  }

  lemma {:induction false} OneRow(ids: seq<string>, i: nat)
    requires DistinctIds(ids) && i < |ids|
    ensures RowsWith(Map(ids, SampleRow), ids[i]) == [SampleRow(ids[i])]
  {
    assert Init(Map(ids, SampleRow)) == Map(Init(ids), SampleRow);
    if i == |ids| - 1 {
      NoRow(Init(ids), ids[i]);
    } else {
      OneRow(Init(ids), i);
    }
  }

  lemma SampleIsSelected(ids: seq<string>, blob: Option<string>)
    requires ValidBed(SampleBed(ids, blob)) && DistinctIds(ids)
    ensures var r := Selection(SampleWorld(ids).src, Map(ids, SampleRow), SampleBed(ids, blob), []);
      r.Ok? && |r.value| == |ids| && forall i :: 0 <= i < |ids| ==> r.value[i].record == SampleRecord(ids[i])
  {
    hide ValidBed, RowsWith, SampleRow, Selection, StringLe;
    var src, rows, bed := SampleWorld(ids).src, Map(ids, SampleRow), SampleBed(ids, blob);
    forall i | 0 <= i < |ids|
      ensures RowsWith(rows, ids[i]) == [SampleRow(ids[i])]
      ensures Adapt(src, bed.adapter, SampleRow(ids[i])) == Some(SampleRecord(ids[i]))
    {
      OneRow(ids, i);
      RowIsAdapted(ids[i]);
    }
    SelectionExact(src, rows, bed, []);
  }

  lemma RowIsAdapted(id: string)
    ensures Adapted(SampleRow(id)) == Some(SampleRecord(id))
  {
  }

  // ---------------------------------------------------------------- writing

  predicate AtDepth(ids: seq<string>, depth: nat) {
    forall i :: 0 <= i < |ids| ==> ModelPath(ids[i]).Some? && |ModelPath(ids[i]).value| == depth
  }

  lemma SampleHoldsNoPatch(w: World, bed: Bed, id: string)
    ensures HoldsNeitherPatch(w.serialize(ModelOf(bed, SampleRecord(id))), SampleRecord(id))
  {
  }

  lemma SampleIsWritten(w: World, bed: Bed, t: Materialization, records: seq<SelectedRecord>, ids: seq<string>, depth: nat)
    requires Level(t, depth) && AtDepth(ids, depth)
    requires |records| == |ids| && forall i :: 0 <= i < |ids| ==> records[i].record == SampleRecord(ids[i])
    ensures WriteRecords(w, bed, t, records).Ok? && Level(WriteRecords(w, bed, t, records).value, depth)
  {
    hide Level, ModelPath, WriteRecords, HoldsNeitherPatch;
    forall i | 0 <= i < |records|
      ensures ModelPath(records[i].record.taskId).Some? && |ModelPath(records[i].record.taskId).value| == depth
      ensures HoldsNeitherPatch(w.serialize(ModelOf(bed, records[i].record)), records[i].record)
    {
      assert records[i].record.taskId == ids[i];
      SampleHoldsNoPatch(w, bed, ids[i]);
    }
    RecordsAreWritten(w, bed, t, records, depth);
  }

  lemma AcquiredIsLevel(depth: nat)
    requires depth >= 2
    ensures Level(ACQUIRED, depth) && IsAssetPath(ASSET)
  {
    assert Init(ASSET) == ["source"] && Init(["source"]) == [];
    assert "source"[0] != "projections"[0] && MANIFEST_FILE[0][0] != "source"[0];
    assert forall d :: d in ACQUIRED.dirs ==> d == [] || d == ["source"];
    assert NormalName("source") && NormalName("data") by { assert |"source"| == 6 && |"data"| == 4; }
  }

  /** Every sample bed of one depth is materialized. */
  lemma SampleIsMaterialized(ids: seq<string>, registered: Option<string>, depth: nat)
    requires ValidBed(SampleBed(ids, registered)) && DistinctIds(ids) && depth >= 2 && AtDepth(ids, depth)
    ensures Materialize(SampleWorld(ids), SampleRegistry(ids, registered), SampleBed(ids, registered), ACQUIRED, ASSET, None, "").Ok?
  {
    hide ValidBed, Selection, WriteRecords, Materialize, Tree.WriteWithParents, Level, AtDepth, SampleRow, Digits;
    var w, bed, rows := SampleWorld(ids), SampleBed(ids, registered), Map(ids, SampleRow);
    SampleIsSelected(ids, registered);
    var records := Selection(w.src, rows, bed, []).value;
    AcquiredIsLevel(depth);
    SampleIsWritten(w, bed, ACQUIRED, records, ids, depth);
    var mid := WriteRecords(w, bed, ACQUIRED, records).value;
    forall m
      ensures mid.WriteWithParents(MANIFEST_FILE, ManifestFile(m)).Some?
    {
      ManifestIsWritten(mid, depth, m);
    }
    StepsMaterialize(w, SampleRegistry(ids, registered), bed, ACQUIRED, ASSET, "", rows, [], records, mid, None, "");
  }

  /** The verifier accepts a sample bed if and only if it registers no blob and its tasks have their own files. */
  lemma SampleVerdict(ids: seq<string>, registered: Option<string>, depth: nat, checkout: Checkout)
    requires ValidBed(SampleBed(ids, registered)) && DistinctIds(ids) && depth >= 2 && AtDepth(ids, depth)
    ensures Materialize(SampleWorld(ids), SampleRegistry(ids, registered), SampleBed(ids, registered), ACQUIRED, ASSET, None, "").Ok?
    ensures
      var w, registry := SampleWorld(ids), SampleRegistry(ids, registered);
      var tree := Materialize(w, registry, SampleBed(ids, registered), ACQUIRED, ASSET, None, "").value.0;
      Verify(w, registry, tree, checkout).Ok? <==> registered.None? && DistinctProjections(ids)
  {
    hide ValidBed, Materialize, Verify, DistinctProjections, Level, AtDepth;
    SampleIsMaterialized(ids, registered, depth);
    AcquiredIsLevel(depth);
    assert ACQUIRED.Valid() by { LevelIsValid(ACQUIRED, depth); }
    WrittenTreeVerifies(SampleWorld(ids), SampleRegistry(ids, registered), SampleBed(ids, registered), ACQUIRED, ASSET, None, "", checkout);
  }

  lemma LevelIsValid(t: Materialization, depth: nat)
    requires Level(t, depth)
    ensures t.Valid()
  {
  }

  // ---------------------------------------------------------------- three beds

  lemma SampleBedIsValid(ids: seq<string>, blob: Option<string>)
    requires ids != [] && (forall i :: 0 <= i < |ids| ==> ids[i] != "") && DistinctIds(ids)
    requires forall i, j :: 0 <= i < j < |ids| ==> StringLe(ids[i], ids[j])
    ensures ValidBed(SampleBed(ids, blob))
  {
    hide StringLe, SafeRelative;
    assert SafeRelative("data").Some? by {
      PosixRoundTrip(["data"]) by { assert NormalName("data") by { assert |"data"| == 4; } }
      assert PosixString(["data"]) == "data";
    }
  }

  lemma PlainSample(registered: Option<string>)
    ensures ValidBed(SampleBed(["a"], registered)) && DistinctIds(["a"]) && AtDepth(["a"], 3) && DistinctProjections(["a"])
  {
    SampleBedIsValid(["a"], registered);
    PlainIdsAreDistinct(["a"]);
  }

  /** Each of these changes to that bed makes it invalid. */
  lemma CorruptedBedsAreInvalid()
    ensures var bed := SampleBed(["a"], None);
      && ValidBed(bed) && !ValidBed(bed.(id := "")) && !ValidBed(bed.(revision := "a")) && !ValidBed(bed.(assetSha256 := "a"))
      && !ValidBed(bed.(assetPath := "/data")) && !ValidBed(bed.(adapter := ""))
  {
    SampleBedIsValid(["a"], None);
    DescendingIds();
    hide SafeRelative, StringLe;
  }

  lemma CorruptedSourcesAreInvalid(bed: Bed)
    ensures !ValidBed(bed.(dataset := "http://")) && !ValidBed(bed.(sourceType := "git", assetGitBlobSha := None))
    ensures !ValidBed(bed.(sourceType := "ftp")) && !ValidBed(bed.(sourceFormat := "csv"))
  {
    hide SafeRelative, StringLe, IsHex;
    assert |"ftp"| == 3 && |"csv"| == 3 && "http://"[4] != "https://"[4];
  }

  /** So does a list of ids that is empty, holds an empty or repeated id, or is out of order. */
  lemma CorruptedIdsAreInvalid(bed: Bed)
    ensures !ValidBed(bed.(taskIds := [])) && !ValidBed(bed.(taskIds := [""]))
    ensures !ValidBed(bed.(taskIds := ["a", "a"])) && !ValidBed(bed.(taskIds := ["b", "a"]))
  {
    DescendingIds();
    hide SafeRelative, StringLe, IsHex;
    assert [""][0] == "" && ["a", "a"][0] == ["a", "a"][1] && ["b", "a"][0] == "b" && ["b", "a"][1] == "a";
  }

  lemma DescendingIds()
    ensures !StringLe("b", "a") && SafeRelative("/data").None?
  {
  }

  /** A bed of one task without a registered blob verifies. */
  lemma PlainBedVerifies(checkout: Checkout)
    ensures
      var w, registry := SampleWorld(["a"]), SampleRegistry(["a"], None);
      var written := Materialize(w, registry, SampleBed(["a"], None), ACQUIRED, ASSET, None, "");
      written.Ok? && Verify(w, registry, written.value.0, checkout).Ok?
  {
    hide ValidBed, Materialize, Verify, DistinctProjections, AtDepth;
    PlainSample(None);
    SampleVerdict(["a"], None, 3, checkout);
  }

  /** The same bed with a registered blob digest is materialized and then refused. */
  lemma RegisteredBlobIsRefused(checkout: Checkout)
    ensures
      var w, registry := SampleWorld(["a"]), SampleRegistry(["a"], Some(Digits(40)));
      var written := Materialize(w, registry, SampleBed(["a"], Some(Digits(40))), ACQUIRED, ASSET, None, "");
      written.Ok? && Verify(w, registry, written.value.0, checkout).Err?
  {
    hide ValidBed, Materialize, Verify, DistinctProjections, AtDepth;
    PlainSample(Some(Digits(40)));
    SampleVerdict(["a"], Some(Digits(40)), 3, checkout);
  }

  /** A bed of two tasks that share a projection file is materialized and then refused. */
  lemma AliasedTasksAreRefused(checkout: Checkout)
    ensures
      var ids := ["a//b", "a/b"];
      var w, registry := SampleWorld(ids), SampleRegistry(ids, None);
      var written := Materialize(w, registry, SampleBed(ids, None), ACQUIRED, ASSET, None, "");
      written.Ok? && Verify(w, registry, written.value.0, checkout).Err?
  {
    hide ValidBed, Materialize, Verify, StringLe, ModelPath;
    var ids := ["a//b", "a/b"];
    SlashesAliasTasks();
    SampleBedIsValid(ids, None);
    AliasedPath();
    assert !DistinctProjections(ids) by { assert ModelPath(ids[0]) == ModelPath(ids[1]); }
    SampleVerdict(ids, None, |ModelPath("a/b").value|, checkout);
  }

  lemma AliasedPath()
    ensures ModelPath("a/b").Some? && |ModelPath("a/b").value| >= 2
  {
    var p: Path := ["a", "b.json"];
    assert NormalName("a") && NormalName("b.json") by { assert "a"[0] != '.' && |"b.json"| == 6; }
    PosixRoundTrip(p);
    assert p[1..] == ["b.json"] && PosixString(p) == "a" + "/" + "b.json" == "a/b" + ".json";
  }
}
