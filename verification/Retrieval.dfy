/** `_rag_files`, `SQLiteMemoryStore` and the C3 and C5 regimes of benchmarks/s4/operationalization.py. */
module Retrieval {
  import opened Prelude
  import opened Ordering
  import opened Cosine
  import opened ContextFormat

  const RETRIEVAL_TOP_K := 8

  /** The tokenizer and the token hash, both foreign to this model. */
  datatype Encoder = Encoder(tokenize: string -> seq<string>, bucket: string -> Bucket)
  {
    function Embed(text: string): Vector {
      Embedding(tokenize(text), bucket)
    }
  }

  /** A ranked file; the score is the square of the source's, which orders files alike. */
  datatype Row = Row(score: real, file: File)

  /** The order of `(-score, path)`. */
  predicate RankLe(a: Row, b: Row) {
    a.score > b.score || (a.score == b.score && StringLe(a.file.path, b.file.path))
  }

  function Scored(e: Encoder, task: string, files: seq<File>): seq<Row> {
    if files == [] then [] else
    Scored(e, task, Init(files)) + [Row(SquaredScore(e.Embed(task), e.Embed(Last(files).content)), Last(files))]
  }

  function Ranked(e: Encoder, task: string, files: seq<File>): seq<Row> {
    Sort(Scored(e, task, files), RankLe)
  }

  function Take<T>(s: seq<T>, k: nat): seq<T> {
    if k <= |s| then s[..k] else s
  }

  function FilesOf(rows: seq<Row>): seq<File> {
    Map(rows, (r: Row) => r.file)
  }

  function Positive(rows: seq<Row>): seq<Row> {
    Filter(rows, (r: Row) => r.score > 0.0)
  }

  /** `_rag_files` */
  function RagFiles(e: Encoder, task: string, files: seq<File>): seq<File> {
    var ranked := Ranked(e, task, files);
    var selected := Take(Positive(ranked), RETRIEVAL_TOP_K);
    FilesOf(if selected == [] then Take(ranked, RETRIEVAL_TOP_K) else selected)
  }

  ghost predicate DistinctPaths(files: seq<File>) {
    forall i, j :: 0 <= i < j < |files| ==> files[i].path != files[j].path
  }

  // ---------------------------------------------------------------- ranking

  lemma RankLeIsPreorder()
    ensures TotalPreorder(RankLe)
  {
    StringLeIsOrder();
  }

  lemma {:induction false} ScoredRows(e: Encoder, task: string, files: seq<File>)
    ensures |Scored(e, task, files)| == |files|
    ensures forall i :: 0 <= i < |files| ==>
      Scored(e, task, files)[i] == Row(SquaredScore(e.Embed(task), e.Embed(files[i].content)), files[i])
  {
    hide SquaredScore;
    if files != [] {
      ScoredRows(e, task, Init(files));
    }
  }

  lemma DistinctPathsHaveDistinctKeys(e: Encoder, task: string, files: seq<File>)
    requires DistinctPaths(files)
    ensures DistinctKeys(Scored(e, task, files), RankLe)
  {
    hide SquaredScore;
    StringLeIsOrder();
    ScoredRows(e, task, files);
  }

  /** The ranking, and so the retrieval, does not depend on the order in which distinct files are listed. */
  lemma RetrievalIgnoresOrder(e: Encoder, task: string, files: seq<File>, other: seq<File>)
    requires DistinctPaths(files) && DistinctPaths(other) && (forall f :: f in files <==> f in other)
    ensures Ranked(e, task, files) == Ranked(e, task, other)
    ensures RagFiles(e, task, files) == RagFiles(e, task, other)
  {
    hide SquaredScore, DistinctKeys;
    RankLeIsPreorder();
    DistinctPathsHaveDistinctKeys(e, task, files);
    DistinctPathsHaveDistinctKeys(e, task, other);
    ScoredMembers(e, task, files, other);
    ScoredMembers(e, task, other, files);
    SortIgnoresOrder(Scored(e, task, files), Scored(e, task, other), RankLe);
  }

  lemma ScoredMembers(e: Encoder, task: string, files: seq<File>, other: seq<File>)
    requires forall f :: f in files ==> f in other
    ensures forall r :: r in Scored(e, task, files) ==> r in Scored(e, task, other)
  {
    hide SquaredScore, Scored;
    ScoredRows(e, task, files);
    ScoredRows(e, task, other);
    forall r | r in Scored(e, task, files)
      ensures r in Scored(e, task, other)
    {
      var i :| 0 <= i < |files| && Scored(e, task, files)[i] == r;
      assert files[i] in other;
      var j :| 0 <= j < |other| && other[j] == files[i];
      assert Scored(e, task, other)[j] == r;
    }
  }

  // ---------------------------------------------------------------- the selection is a prefix of the ranking

  function PositiveCount(rows: seq<Row>): nat {
    |Positive(rows)|
  }

  lemma {:induction false} PositiveIsPrefix(rows: seq<Row>)
    requires Sorted(rows, RankLe)
    ensures PositiveCount(rows) <= |rows| && Positive(rows) == rows[..PositiveCount(rows)]
    ensures forall i :: 0 <= i < |rows| ==> (rows[i].score > 0.0 <==> i < PositiveCount(rows))
  {
    hide StringLe;
    if rows != [] {
      var front := Init(rows);
      PositiveIsPrefix(front);
      if Last(rows).score > 0.0 {
        forall i | 0 <= i < |front|
          ensures front[i].score > 0.0
        {
          assert RankLe(rows[i], rows[|rows| - 1]);
        }
        assert PositiveCount(front) == |front| by {
          if front != [] {
            assert front[|front| - 1].score > 0.0;
          }
        }
        assert Positive(rows) == front + [Last(rows)];
      } else {
        assert Positive(rows) == Positive(front);
      }
    }
  }

  /** How many files are selected: the positive ones up to the limit, or without any, the limit. */
  function SelectedCount(ranked: seq<Row>): nat {
    var available := if PositiveCount(ranked) > 0 then PositiveCount(ranked) else |ranked|;
    if available < RETRIEVAL_TOP_K then available else RETRIEVAL_TOP_K
  }

  /** Higher scores come first, and among equal scores smaller paths. */
  predicate RanksBefore(e: Encoder, task: string, f: File, g: File) {
    var x, y := SquaredScore(e.Embed(task), e.Embed(f.content)), SquaredScore(e.Embed(task), e.Embed(g.content));
    x > y || (x == y && StringLe(f.path, g.path))
  }

  predicate Matches(e: Encoder, task: string, f: File) {
    SquaredScore(e.Embed(task), e.Embed(f.content)) > 0.0
  }

  /** All the files in rank order. */
  function RankedFiles(e: Encoder, task: string, files: seq<File>): seq<File> {
    FilesOf(Ranked(e, task, files))
  }

  /**
    The selection is a prefix of a ranking of all the files, by score and then by path. It holds the
    files that match, up to eight, and only if none matches the first eight of them all.
   */
  lemma SelectionIsRankPrefix(e: Encoder, task: string, files: seq<File>)
    ensures var ranked, chosen := RankedFiles(e, task, files), RagFiles(e, task, files);
      && multiset(ranked) == multiset(files) && chosen <= ranked
      && (forall i, j :: 0 <= i < j < |ranked| ==> RanksBefore(e, task, ranked[i], ranked[j]))
      && |chosen| <= 8 && (|chosen| < 8 ==> |chosen| == |ranked| || exists f :: f in files && Matches(e, task, f))
      && (forall i :: 0 <= i < |ranked| && Matches(e, task, ranked[i]) ==> i < |chosen| || |chosen| == 8)
      && (forall i, j :: 0 <= i < |chosen| && 0 <= j < |ranked| && !Matches(e, task, chosen[i]) ==> !Matches(e, task, ranked[j]))
  {
    hide Scored, RankLe, SquaredScore, Ranked, RagFiles, RanksBefore, Matches;
    var rows := Ranked(e, task, files);
    RankingIsSorted(e, task, files);
    RowsAreScored(e, task, files);
    PositiveIsPrefix(rows);
    SelectionTakesPrefix(e, task, files);
    var k, p := SelectedCount(rows), PositiveCount(rows);
    var ranked, chosen := RankedFiles(e, task, files), RagFiles(e, task, files);
    assert chosen == ranked[..k];
    forall i | 0 <= i < |ranked|
      ensures Matches(e, task, ranked[i]) <==> i < p
    {
      RowMatches(e, task, rows[i]);
    }
    if |chosen| < 8 && |chosen| != |ranked| {
      assert Matches(e, task, ranked[0]) && ranked[0] in multiset(ranked);
    }
  }

  lemma RowMatches(e: Encoder, task: string, r: Row)
    requires r.score == SquaredScore(e.Embed(task), e.Embed(r.file.content))
    ensures Matches(e, task, r.file) <==> r.score > 0.0
  {
    hide SquaredScore;
  }

  lemma RankingIsSorted(e: Encoder, task: string, files: seq<File>)
    ensures Sorted(Ranked(e, task, files), RankLe)
    ensures var ranked := RankedFiles(e, task, files);
      forall i, j :: 0 <= i < j < |ranked| ==> RanksBefore(e, task, ranked[i], ranked[j])
  {
    hide Scored, SquaredScore, RanksBefore, RankLe;
    RankLeIsPreorder();
    SortSorted(Scored(e, task, files), RankLe);
    RowsAreScored(e, task, files);
    var rows, ranked := Ranked(e, task, files), RankedFiles(e, task, files);
    hide TotalPreorder, Ranked;
    forall i, j | 0 <= i < j < |ranked|
      ensures RanksBefore(e, task, ranked[i], ranked[j])
    {
      RowsRank(e, task, rows[i], rows[j]);
    }
  }

  lemma SelectionTakesPrefix(e: Encoder, task: string, files: seq<File>)
    requires Sorted(Ranked(e, task, files), RankLe)
    ensures var rows := Ranked(e, task, files);
      SelectedCount(rows) <= |rows| && RagFiles(e, task, files) == RankedFiles(e, task, files)[..SelectedCount(rows)]
  {
    hide RankLe, Ranked;
    PositiveIsPrefix(Ranked(e, task, files));
    PrefixIsSelected(Ranked(e, task, files));
  }

  lemma PrefixIsSelected(rows: seq<Row>)
    requires PositiveCount(rows) <= |rows| && Positive(rows) == rows[..PositiveCount(rows)]
    ensures SelectedCount(rows) <= |rows|
    ensures var selected := Take(Positive(rows), RETRIEVAL_TOP_K);
      (if selected == [] then Take(rows, RETRIEVAL_TOP_K) else selected) == rows[..SelectedCount(rows)]
  {
    var p := PositiveCount(rows);
    if p > 0 {
      assert Take(rows[..p], RETRIEVAL_TOP_K) == rows[..SelectedCount(rows)];
    } else {
      assert Take(rows, RETRIEVAL_TOP_K) == rows[..SelectedCount(rows)];
    }
  }

  lemma RowsRank(e: Encoder, task: string, a: Row, b: Row)
    requires a.score == SquaredScore(e.Embed(task), e.Embed(a.file.content)) && b.score == SquaredScore(e.Embed(task), e.Embed(b.file.content))
    requires RankLe(a, b)
    ensures RanksBefore(e, task, a.file, b.file)
  {
    hide SquaredScore, StringLe;
  }

  /** The ranking holds each file once per occurrence, with its own score. */
  lemma RowsAreScored(e: Encoder, task: string, files: seq<File>)
    ensures var rows := Ranked(e, task, files);
      && multiset(FilesOf(rows)) == multiset(files)
      && forall i :: 0 <= i < |rows| ==> rows[i].score == SquaredScore(e.Embed(task), e.Embed(rows[i].file.content))
  {
    hide SquaredScore, Scored;
    var scored, rows := Scored(e, task, files), Ranked(e, task, files);
    SortMembers(scored, RankLe);
    ScoredRows(e, task, files);
    FilesOfSort(scored);
    assert FilesOf(scored) == files;
    forall i | 0 <= i < |rows|
      ensures rows[i].score == SquaredScore(e.Embed(task), e.Embed(rows[i].file.content))
    {
      assert rows[i] in scored;
    }
  }

  lemma {:induction false} FilesOfInsert(x: Row, rows: seq<Row>)
    ensures multiset(FilesOf(Insert(x, rows, RankLe))) == multiset{x.file} + multiset(FilesOf(rows))
  {
    hide RankLe;
    if rows == [] {
      assert FilesOf(rows) == [] && FilesOf([x]) == [x.file];
    } else if RankLe(x, rows[0]) {
      assert FilesOf([x] + rows) == [x.file] + FilesOf(rows);
    } else {
      FilesOfInsert(x, rows[1..]);
      FilesOfFirst(rows);
      FilesOfFirst([rows[0]] + Insert(x, rows[1..], RankLe));
    }
  }

  lemma FilesOfFirst(rows: seq<Row>)
    requires rows != []
    ensures multiset(FilesOf(rows)) == multiset{rows[0].file} + multiset(FilesOf(rows[1..]))
  {
    assert FilesOf(rows) == [rows[0].file] + FilesOf(rows[1..]);
  }

  lemma {:induction false} FilesOfSort(rows: seq<Row>)
    ensures multiset(FilesOf(Sort(rows, RankLe))) == multiset(FilesOf(rows))
  {
    hide RankLe;
    if rows != [] {
      FilesOfSort(rows[1..]);
      FilesOfInsert(rows[0], Sort(rows[1..], RankLe));
      FilesOfFirst(rows);
    }
  }

  // ---------------------------------------------------------------- the memory store

  /** A list that holds exactly the rows of a store, in any order. */
  ghost predicate Represents(files: seq<File>, rows: map<string, string>) {
    DistinctPaths(files) && forall f :: f in files <==> f.path in rows && rows[f.path] == f.content
  }

  predicate PathLe(a: File, b: File) {
    StringLe(a.path, b.path)
  }

  lemma Extended(files: seq<File>, f: File, rows: map<string, string>)
    requires Represents(files, rows) && f.path !in rows
    ensures Represents(files + [f], rows[f.path := f.content])
  {
    forall i | 0 <= i < |files|
      ensures files[i].path != f.path
    {
      assert files[i] in files;
    }
    forall g
      ensures g in files + [f] <==> g.path in rows[f.path := f.content] && rows[f.path := f.content][g.path] == g.content
    {
      assert g in files + [f] <==> g in files || g == f;
    }
  }

  lemma SortKeepsRepresenting(files: seq<File>, rows: map<string, string>)
    requires Represents(files, rows)
    ensures Represents(Sort(files, PathLe), rows)
  {
    var s := Sort(files, PathLe);
    SortMembers(files, PathLe);
    SortElements(files, PathLe);
    forall i, j | 0 <= i < j < |s|
      ensures s[i].path != s[j].path
    {
      assert s[i] in files && s[j] in files;
      if s[i].path == s[j].path {
        assert s[i] == s[j];
        TwiceInMultiset(s, i, j);
        OnceInMultiset(files, s[i]);
      }
    }
  }

  /** No path occurs twice, neither among the files nor in the table. */
  ghost predicate Insertable(rows: map<string, string>, files: seq<File>) {
    DistinctPaths(files) && forall i :: 0 <= i < |files| ==> files[i].path !in rows
  }

  /** A table after inserting files. */
  function Inserted(rows: map<string, string>, files: seq<File>): map<string, string> {
    if files == [] then rows else Inserted(rows, Init(files))[Last(files).path := Last(files).content]
  }

  lemma InsertableNext(rows: map<string, string>, files: seq<File>, i: nat)
    requires i < |files|
    ensures Insertable(rows, files[..i + 1]) <==> Insertable(rows, files[..i]) && files[i].path !in Inserted(rows, files[..i])
    ensures Inserted(rows, files[..i + 1]) == Inserted(rows, files[..i])[files[i].path := files[i].content]
  {
    assert Init(files[..i + 1]) == files[..i];
    InsertedPaths(rows, files[..i], files[i].path);
  }

  lemma {:induction false} InsertedPaths(rows: map<string, string>, files: seq<File>, path: string)
    ensures path in Inserted(rows, files) <==> path in rows || exists i :: 0 <= i < |files| && files[i].path == path
  {
    if files != [] {
      InsertedPaths(rows, Init(files), path);
      assert files[|files| - 1] == Last(files);
      assert forall i :: 0 <= i < |files| - 1 ==> Init(files)[i] == files[i];
    }
  }

  lemma InsertableShrinks(rows: map<string, string>, files: seq<File>, n: nat)
    requires n <= |files| && Insertable(rows, files)
    ensures Insertable(rows, files[..n])
  {
  }

  /** The rows of the table and the inserted files, together, are the new table. */
  lemma {:induction false} InsertedRepresents(held: seq<File>, rows: map<string, string>, files: seq<File>)
    requires Represents(held, rows) && Insertable(rows, files)
    ensures Represents(held + files, Inserted(rows, files))
  {
    if files == [] {
      assert held + files == held;
    } else {
      InsertableShrinks(rows, files, |files| - 1);
      InsertedRepresents(held, rows, Init(files));
      assert files[..|files|] == files;
      InsertableNext(rows, files, |files| - 1);
      Extended(held + Init(files), Last(files), Inserted(rows, Init(files)));
      assert held + files == held + Init(files) + [Last(files)];
    }
  }

  /** File i is the first whose path is taken. */
  ghost predicate StopsAt(rows: map<string, string>, files: seq<File>, i: nat)
    requires i < |files|
  {
    Insertable(rows, files[..i]) && !Insertable(rows, files[..i + 1])
  }

  lemma NothingInserted(rows: map<string, string>, files: seq<File>)
    ensures Insertable(rows, files[..0]) && Inserted(rows, files[..0]) == rows
  {
  }

  /** `SQLiteMemoryStore`: a table with the path as its primary key. */
  class MemoryStore {
    var rows: map<string, string>

    constructor ()
      ensures rows == map[]
    {
      rows := map[];
    }

    /** `load`: inserts file after file, up to the first path that occurs twice or is in the table already. */
    method Load(files: seq<File>) returns (ok: bool)
      modifies this
      ensures ok <==> Insertable(old(rows), files)
      ensures ok ==> rows == Inserted(old(rows), files)
      ensures !ok ==> exists i :: 0 <= i < |files| && StopsAt(old(rows), files, i) && rows == Inserted(old(rows), files[..i])
    {
      hide Insertable, Inserted;
      assert Insertable(rows, files[..0]) && rows == Inserted(rows, files[..0]) by { NothingInserted(rows, files); }
      for i := 0 to |files|
        invariant Insertable(old(rows), files[..i]) && rows == Inserted(old(rows), files[..i])
      {
        InsertableNext(old(rows), files, i);
        if files[i].path in rows {
          if Insertable(old(rows), files) {
            InsertableShrinks(old(rows), files, i + 1);
          }
          assert StopsAt(old(rows), files, i);
          return false;
        }
        rows := rows[files[i].path := files[i].content];
      }
      assert files[..|files|] == files;
      return true;
    }

    /** `retrieve`: `SELECT ... ORDER BY path`, then the same retrieval as without a store. */
    method Retrieve(e: Encoder, task: string) returns (selected: seq<File>)
      ensures forall files :: Represents(files, rows) ==> selected == RagFiles(e, task, files)
    {
      var unordered: seq<File> := [];
      var rest := rows;
      while rest.Keys != {}
        invariant rest.Keys <= rows.Keys && forall p :: p in rest ==> rest[p] == rows[p]
        invariant Represents(unordered, rows - rest.Keys)
        decreases rest.Keys
      {
        var path :| path in rest.Keys;
        var next := rest - {path};
        Extended(unordered, File(path, rows[path]), rows - rest.Keys);
        assert rows - next.Keys == (rows - rest.Keys)[path := rows[path]];
        unordered := unordered + [File(path, rows[path])];
        rest := next;
      }
      assert rows - rest.Keys == rows;
      var ordered := Sort(unordered, PathLe);
      SortKeepsRepresenting(unordered, rows);
      selected := RagFiles(e, task, ordered);
      forall files | Represents(files, rows)
        ensures selected == RagFiles(e, task, files)
      {
        RetrievalIgnoresOrder(e, task, ordered, files);
      }
    }
  }

  /** The C3 selection. */
  function DirectRetrieval(e: Encoder, task: string, files: seq<File>): seq<File> {
    RagFiles(e, task, files)
  }

  /** The C5 selection: load a fresh store, then retrieve from it; `None` is SQLite's uniqueness error. */
  method MemoryRetrieval(e: Encoder, task: string, files: seq<File>) returns (r: Option<seq<File>>)
    ensures r == if DistinctPaths(files) then Some(DirectRetrieval(e, task, files)) else None
  {
    var store := new MemoryStore();
    var ok := store.Load(files);
    if !ok {
      return None;
    }
    InsertedRepresents([], map[], files);
    assert [] + files == files;
    var selected := store.Retrieve(e, task);
    return Some(selected);
  }
}
