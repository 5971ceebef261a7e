/** Bed validation and `_select_records` of benchmarks/s2/materialize.py. */
module S2Selection {
  import opened Prelude
  import opened JsonValues
  import opened Ordering
  import opened Paths

  datatype Bed = Bed(
    id: string, revision: string, taskIds: seq<string>, assetPath: string, assetSha256: string,
    sourceType: string, sourceFormat: string, dataset: string, adapter: string,
    requiredFields: set<string>, assetGitBlobSha: Option<string>)

  predicate IsHex(s: string, length: nat) {
    |s| == length && forall i :: 0 <= i < |s| ==> '0' <= s[i] <= '9' || 'a' <= s[i] <= 'f'
  }

  /** `_validate_bed`: the registered task ids are non-empty, sorted and unique. */
  predicate ValidBed(bed: Bed) {
    && bed.id != "" && IsHex(bed.revision, 40)
    && bed.taskIds != [] && (forall i :: 0 <= i < |bed.taskIds| ==> bed.taskIds[i] != "")
    && (forall i, j :: 0 <= i < j < |bed.taskIds| ==> StringLe(bed.taskIds[i], bed.taskIds[j]) && bed.taskIds[i] != bed.taskIds[j])
    && SafeRelative(bed.assetPath).Some? && IsHex(bed.assetSha256, 64)
    && bed.sourceType in {"huggingface", "git"} && bed.sourceFormat in {"parquet", "arrow-stream"}
    && (bed.sourceType == "git" ==> bed.assetGitBlobSha.Some? && IsHex(bed.assetGitBlobSha.value, 40))
    && "https://" <= bed.dataset && bed.adapter != ""
  }

  /** A normalized source record, as the study-owned adapters return it. */
  datatype Record = Record(
    taskId: string, repository: string, baseCommit: string, problemStatement: string, hintsText: string,
    environmentSetupCommit: string, failToPass: seq<string>, passToPass: seq<string>,
    goldPatch: string, goldTestPatch: string, sourceMetadata: Json)

  datatype SelectedRecord = SelectedRecord(record: Record, sourceSchema: seq<string>, sha256: string)

  /** The parts of the source that this model takes as given: the two row adapters and the digest of a record. */
  datatype Source = Source(
    adaptSweBench: Object -> Option<Record>, adaptSweEvo: Object -> Option<Record>,
    recordDigest: (string, Record, seq<string>, Object) -> string)

  datatype SelectError = InvalidBed | SchemaIncomplete | UnsupportedAdapter | TaskRepeated | TaskMissing | RecordInvalid | IdentifierMismatch

  predicate KnownAdapter(name: string) {
    name == "swe-bench-verified-v1" || name == "swe-evo-v1"
  }

  /** `_adapter_for(bed)(row)` */
  function Adapt(src: Source, name: string, row: Object): Option<Record> {
    if name == "swe-bench-verified-v1" then src.adaptSweBench(row) else src.adaptSweEvo(row)
  }

  predicate HasId(row: Object, id: string) {
    Get(row, "instance_id") == Str(id)
  }

  /** The rows that carry a task id, in order. */
  function RowsWith(rows: seq<Object>, id: string): seq<Object> {
    if rows == [] then []
    else if HasId(Last(rows), id) then RowsWith(Init(rows), id) + [Last(rows)]
    else RowsWith(Init(rows), id)
  }

  function NormalizeOne(src: Source, bed: Bed, row: Object, id: string, schema: seq<string>): Result<SelectedRecord, SelectError> {
    match Adapt(src, bed.adapter, row)
    case None => Err(RecordInvalid)
    case Some(record) =>
      if record.taskId != id then Err(IdentifierMismatch)
      else Ok(SelectedRecord(record, schema, src.recordDigest(bed.id, record, schema, row)))
  }

  function NormalizeAll(src: Source, bed: Bed, rows: seq<Object>, ids: seq<string>, schema: seq<string>): Result<seq<SelectedRecord>, SelectError>
    requires forall i :: 0 <= i < |ids| ==> RowsWith(rows, ids[i]) != []
  {
    if ids == [] then Ok([]) else
    match NormalizeAll(src, bed, rows, Init(ids), schema)
    case Err(e) => Err(e)
    case Ok(front) =>
      match NormalizeOne(src, bed, RowsWith(rows, Last(ids))[0], Last(ids), schema)
      case Err(e) => Err(e)
      case Ok(record) => Ok(front + [record])
  }

  /** The value of `_select_records`. */
  function Selection(src: Source, rows: seq<Object>, bed: Bed, columns: seq<string>): Result<seq<SelectedRecord>, SelectError> {
    if !ValidBed(bed) then Err(InvalidBed)
    else if exists field :: field in bed.requiredFields && field !in columns then Err(SchemaIncomplete)
    else if !KnownAdapter(bed.adapter) then Err(UnsupportedAdapter)
    else if SomeRepeated(rows, bed.taskIds) then Err(TaskRepeated)
    else if SomeMissing(rows, bed.taskIds) then Err(TaskMissing)
    else NormalizeAll(src, bed, rows, bed.taskIds, Sort(columns, StringLe))
  }

  // ---------------------------------------------------------------- the loop over rows

  lemma {:induction false} RowsWithGrows(rows: seq<Object>, id: string, n: nat)
    requires n <= |rows|
    ensures |RowsWith(rows[..n], id)| <= |RowsWith(rows, id)|
  {
    if n < |rows| {
      assert Init(rows)[..n] == rows[..n];
      RowsWithGrows(Init(rows), id, n);
    } else {
      assert rows[..n] == rows;
    }
  }

  ghost predicate Tallied(ids: seq<string>, rows: seq<Object>, counts: map<string, nat>, matches: map<string, Object>) {
    && (forall id :: id in counts <==> id in ids)
    && (forall id :: id in counts ==>
          counts[id] == |RowsWith(rows, id)| <= 1 && (counts[id] == 1 ==> id in matches && RowsWith(rows, id) == [matches[id]]))
  }

  lemma TallyOne(ids: seq<string>, rows: seq<Object>, row: Object, counts: map<string, nat>, matches: map<string, Object>)
    requires Tallied(ids, rows, counts, matches)
    ensures var id := Get(row, "instance_id");
      if id.Str? && id.s in counts then
        (counts[id.s] == 0 ==> Tallied(ids, rows + [row], counts[id.s := 1], matches[id.s := row])) &&
        (counts[id.s] == 1 ==> |RowsWith(rows + [row], id.s)| == 2)
      else Tallied(ids, rows + [row], counts, matches)
  {
    assert Init(rows + [row]) == rows;
  }

  predicate SomeRepeated(rows: seq<Object>, ids: seq<string>) {
    exists i :: 0 <= i < |ids| && |RowsWith(rows, ids[i])| > 1
  }

  predicate SomeMissing(rows: seq<Object>, ids: seq<string>) {
    exists i :: 0 <= i < |ids| && |RowsWith(rows, ids[i])| == 0
  }

  lemma RepeatedInPrefix(rows: seq<Object>, ids: seq<string>, id: string, n: nat)
    requires n <= |rows| && id in ids && |RowsWith(rows[..n], id)| > 1
    ensures SomeRepeated(rows, ids)
  {
    RowsWithGrows(rows, id, n);
    var i :| 0 <= i < |ids| && ids[i] == id;
    assert |RowsWith(rows, ids[i])| > 1;
  }

  /** The loop over the rows: how often each registered id occurs and where; `None` at the first repeat. */
  method TallyRows(ids: seq<string>, rows: seq<Object>) returns (r: Option<(map<string, nat>, map<string, Object>)>)
    ensures r.None? <==> SomeRepeated(rows, ids)
    ensures r.Some? ==> Tallied(ids, rows, r.value.0, r.value.1)
  {
    hide HasId, RowsWith, SomeRepeated;
    var counts: map<string, nat> := map id | id in ids :: 0;
    var matches: map<string, Object> := map[];
    NothingTallied(ids, counts);
    for k := 0 to |rows|
      invariant Tallied(ids, rows[..k], counts, matches)
    {
      var id := Get(rows[k], "instance_id");
      assert rows[..k + 1] == rows[..k] + [rows[k]];
      TallyOne(ids, rows[..k], rows[k], counts, matches);
      if id.Str? && id.s in counts {
        if counts[id.s] + 1 > 1 {
          RepeatedInPrefix(rows, ids, id.s, k + 1);
          return None;
        }
        counts := counts[id.s := 1];
        matches := matches[id.s := rows[k]];
      }
    }
    assert rows[..|rows|] == rows;
    NoneRepeated(ids, rows, counts, matches);
    return Some((counts, matches));
  }

  lemma NothingTallied(ids: seq<string>, counts: map<string, nat>)
    requires counts == map id | id in ids :: 0
    ensures Tallied(ids, [], counts, map[])
  {
  }

  lemma NoneRepeated(ids: seq<string>, rows: seq<Object>, counts: map<string, nat>, matches: map<string, Object>)
    requires Tallied(ids, rows, counts, matches)
    ensures !SomeRepeated(rows, ids)
    ensures SomeMissing(rows, ids) <==> exists i :: 0 <= i < |ids| && ids[i] in counts && counts[ids[i]] == 0
  {
    hide RowsWith;
    assert forall i :: 0 <= i < |ids| ==> ids[i] in counts;
  }

  /** The loop over the registered ids. */
  method NormalizeRows(src: Source, bed: Bed, rows: seq<Object>, matches: map<string, Object>, schema: seq<string>)
    returns (r: Result<seq<SelectedRecord>, SelectError>)
    requires forall i :: 0 <= i < |bed.taskIds| ==> bed.taskIds[i] in matches && RowsWith(rows, bed.taskIds[i]) == [matches[bed.taskIds[i]]]
    ensures r == NormalizeAll(src, bed, rows, bed.taskIds, schema)
  {
    hide RowsWith, NormalizeOne;
    var normalized: seq<SelectedRecord> := [];
    for i := 0 to |bed.taskIds|
      invariant NormalizeAll(src, bed, rows, bed.taskIds[..i], schema) == Ok(normalized)
    {
      assert Init(bed.taskIds[..i + 1]) == bed.taskIds[..i];
      var one := NormalizeOne(src, bed, matches[bed.taskIds[i]], bed.taskIds[i], schema);
      if one.Err? {
        NormalizeStopsAt(src, bed, rows, bed.taskIds, schema, i);
        return Err(one.error);
      }
      normalized := normalized + [one.value];
    }
    assert bed.taskIds[..|bed.taskIds|] == bed.taskIds;
    return Ok(normalized);
  }

  /** `_select_records`, with its early raises in source order. */
  method SelectRecords(src: Source, rows: seq<Object>, bed: Bed, columns: seq<string>) returns (r: Result<seq<SelectedRecord>, SelectError>)
    ensures r == Selection(src, rows, bed, columns)
  {
    hide ValidBed, KnownAdapter, StringLe, RowsWith, NormalizeAll;
    if !ValidBed(bed) {
      return Err(InvalidBed);
    }
    if exists field :: field in bed.requiredFields && field !in columns {
      return Err(SchemaIncomplete);
    }
    if !KnownAdapter(bed.adapter) {
      return Err(UnsupportedAdapter);
    }
    var schema := Sort(columns, StringLe);
    var tally := TallyRows(bed.taskIds, rows);
    if tally.None? {
      return Err(TaskRepeated);
    }
    var (counts, matches) := tally.value;
    NoneRepeated(bed.taskIds, rows, counts, matches);
    assert forall i :: 0 <= i < |bed.taskIds| ==> bed.taskIds[i] in counts;
    if exists i :: 0 <= i < |bed.taskIds| && counts[bed.taskIds[i]] == 0 {
      return Err(TaskMissing);
    }
    r := NormalizeRows(src, bed, rows, matches, schema);
  }

  lemma {:induction false} NormalizeStopsAt(src: Source, bed: Bed, rows: seq<Object>, ids: seq<string>, schema: seq<string>, i: nat)
    requires forall k :: 0 <= k < |ids| ==> RowsWith(rows, ids[k]) != []
    requires i < |ids| && NormalizeAll(src, bed, rows, ids[..i], schema).Ok?
    requires NormalizeOne(src, bed, RowsWith(rows, ids[i])[0], ids[i], schema).Err?
    ensures NormalizeAll(src, bed, rows, ids, schema) == Err(NormalizeOne(src, bed, RowsWith(rows, ids[i])[0], ids[i], schema).error)
  {
    hide NormalizeOne, RowsWith;
    if i == |ids| - 1 {
      assert Init(ids) == ids[..i];
    } else {
      assert Init(ids)[..i] == ids[..i];
      NormalizeStopsAt(src, bed, rows, Init(ids), schema, i);
    }
  }

  // ---------------------------------------------------------------- laws

  /** The first row of an id adapts to a record with that very id. */
  predicate Normalizes(src: Source, bed: Bed, rows: seq<Object>, id: string) {
    RowsWith(rows, id) != [] &&
    var record := Adapt(src, bed.adapter, RowsWith(rows, id)[0]);
    record.Some? && record.value.taskId == id
  }

  /** Every id normalizes. */
  ghost predicate AllNormalize(src: Source, bed: Bed, rows: seq<Object>, ids: seq<string>) {
    forall i :: 0 <= i < |ids| ==> Normalizes(src, bed, rows, ids[i])
  }

  lemma {:induction false} NormalizeExact(src: Source, bed: Bed, rows: seq<Object>, ids: seq<string>, schema: seq<string>)
    requires forall i :: 0 <= i < |ids| ==> RowsWith(rows, ids[i]) != []
    ensures var r := NormalizeAll(src, bed, rows, ids, schema);
      && (r.Ok? <==> AllNormalize(src, bed, rows, ids))
      && (r.Ok? ==> |r.value| == |ids| && forall i :: 0 <= i < |ids| ==>
            NormalizeOne(src, bed, RowsWith(rows, ids[i])[0], ids[i], schema) == Ok(r.value[i]))
  {
    hide Adapt, RowsWith;
    if ids != [] {
      var front := Init(ids);
      NormalizeExact(src, bed, rows, front, schema);
      assert forall i :: 0 <= i < |front| ==> front[i] == ids[i];
      assert AllNormalize(src, bed, rows, ids) ==> AllNormalize(src, bed, rows, front);
      if AllNormalize(src, bed, rows, front) && NormalizeOne(src, bed, RowsWith(rows, Last(ids))[0], Last(ids), schema).Ok? {
        assert AllNormalize(src, bed, rows, ids);
      }
    }
  }

  /** A registered task occurs exactly once in the rows. */
  predicate OccurOnce(rows: seq<Object>, ids: seq<string>) {
    forall i :: 0 <= i < |ids| ==> |RowsWith(rows, ids[i])| == 1
  }

  /**
    Selection succeeds exactly when every registered id occurs once, given a valid bed, a complete
    schema and rows that adapt; it then yields one record per registered id, in registered order.
   */
  lemma SelectionExact(src: Source, rows: seq<Object>, bed: Bed, columns: seq<string>)
    requires ValidBed(bed) && KnownAdapter(bed.adapter) && forall field :: field in bed.requiredFields ==> field in columns
    ensures var r := Selection(src, rows, bed, columns);
      && (r.Ok? <==> OccurOnce(rows, bed.taskIds) && AllNormalize(src, bed, rows, bed.taskIds))
      && (r.Ok? ==> |r.value| == |bed.taskIds| && forall i :: 0 <= i < |bed.taskIds| ==>
            && r.value[i].record.taskId == bed.taskIds[i] && r.value[i].sourceSchema == Sort(columns, StringLe)
            && Adapt(src, bed.adapter, RowsWith(rows, bed.taskIds[i])[0]) == Some(r.value[i].record)
            && r.value[i].sha256 == src.recordDigest(bed.id, r.value[i].record, Sort(columns, StringLe), RowsWith(rows, bed.taskIds[i])[0]))
  {
    hide Adapt, RowsWith, ValidBed, KnownAdapter, StringLe, AllNormalize;
    if OccurOnce(rows, bed.taskIds) {
      NormalizeExact(src, bed, rows, bed.taskIds, Sort(columns, StringLe));
    }
  }

  lemma {:induction false} RowsWithElements(rows: seq<Object>, id: string, row: Object)
    ensures multiset(RowsWith(rows, id))[row] == if HasId(row, id) then multiset(rows)[row] else 0
  {
    hide HasId;
    if rows != [] {
      RowsWithElements(Init(rows), id, row);
      assert rows == Init(rows) + [Last(rows)];
    }
  }

  lemma RowsWithIgnoresOrder(rows: seq<Object>, other: seq<Object>, id: string)
    requires multiset(rows) == multiset(other)
    ensures |RowsWith(rows, id)| == |RowsWith(other, id)|
    ensures |RowsWith(rows, id)| == 1 ==> RowsWith(rows, id) == RowsWith(other, id)
  {
    hide HasId, RowsWith;
    var a, b := RowsWith(rows, id), RowsWith(other, id);
    forall row
      ensures multiset(a)[row] == multiset(b)[row]
    {
      RowsWithElements(rows, id, row);
      RowsWithElements(other, id, row);
    }
    assert multiset(a) == multiset(b);
    assert |multiset(a)| == |a| && |multiset(b)| == |b|;
    if |a| == 1 {
      assert a == [a[0]] && b == [b[0]];
      assert a[0] in multiset(b);
    }
  }

  lemma {:induction false} NormalizeIgnoresOrder(src: Source, bed: Bed, rows: seq<Object>, other: seq<Object>, ids: seq<string>, schema: seq<string>)
    requires forall i :: 0 <= i < |ids| ==> RowsWith(rows, ids[i]) == RowsWith(other, ids[i]) != []
    ensures NormalizeAll(src, bed, rows, ids, schema) == NormalizeAll(src, bed, other, ids, schema)
  {
    hide RowsWith, NormalizeOne;
    if ids != [] {
      assert forall i :: 0 <= i < |ids| - 1 ==> Init(ids)[i] == ids[i];
      NormalizeIgnoresOrder(src, bed, rows, other, Init(ids), schema);
    }
  }

  /** The result, records and error alike, does not depend on the order of the source rows. */
  lemma SelectionIgnoresRowOrder(src: Source, rows: seq<Object>, other: seq<Object>, bed: Bed, columns: seq<string>)
    requires multiset(rows) == multiset(other)
    ensures Selection(src, rows, bed, columns) == Selection(src, other, bed, columns)
  {
    hide RowsWith, ValidBed, KnownAdapter, StringLe;
    forall i | 0 <= i < |bed.taskIds|
      ensures |RowsWith(rows, bed.taskIds[i])| == |RowsWith(other, bed.taskIds[i])|
      ensures |RowsWith(rows, bed.taskIds[i])| == 1 ==> RowsWith(rows, bed.taskIds[i]) == RowsWith(other, bed.taskIds[i])
    {
      RowsWithIgnoresOrder(rows, other, bed.taskIds[i]);
    }
    if OccurOnce(rows, bed.taskIds) {
      NormalizeIgnoresOrder(src, bed, rows, other, bed.taskIds, Sort(columns, StringLe));
    }
  }
}
