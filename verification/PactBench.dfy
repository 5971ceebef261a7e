/** benchmarks/pactbench/materialize.py: seed setup, arm rendering and tree fingerprints. */
module PactBench {
  import opened Prelude
  import opened JsonValues
  import opened Ordering
  import opened Paths
  import opened TextEdit
  import opened Trees

  datatype SetupError =
    | OperationNotObject
    | OpAndPathRequired
    | UnsafePath
    | TargetMissing
    | OneMatchRequired
    | WrongMatchCount(count: nat)
    | ContentNotText
    | WouldOverwrite
    | AppendNeedsFile
    | UnsupportedOperation
    | ForgedRecordInvalid
    | FileSystemError

  // ---------------------------------------------------------------- one operation

  /** The path an operation names, if it names one. */
  function TargetOf(operation: Json): Option<Path> {
    if operation.Obj? && Get(operation.fields, "path").Str? then SafeRelative(Get(operation.fields, "path").s) else None
  }

  predicate HasKind(operation: Json, kind: string) {
    operation.Obj? && Get(operation.fields, "op") == Str(kind)
  }

  function ReplaceText(t: Tree<string>, p: Path, o: Object): Result<Tree<string>, SetupError> {
    var old_, new_ := Get(o, "old"), Get(o, "new");
    if p !in t.files then Err(TargetMissing)
    else if !old_.Str? || !new_.Str? || !EqualsInt(Get(o, "expected_matches"), 1) then Err(OneMatchRequired)
    else
      var source := ReadText(t.files[p]);
      if Count(source, old_.s) != 1 then Err(WrongMatchCount(Count(source, old_.s)))
      else Ok(t.(files := t.files[p := Replace(source, old_.s, new_.s)]))
  }

  function WriteFile(t: Tree<string>, p: Path, o: Object): Result<Tree<string>, SetupError> {
    var content := Get(o, "content");
    if !content.Str? then Err(ContentNotText)
    else if p == [] then Err(WouldOverwrite)
    else if t.MakeDirs(Init(p)).None? then Err(FileSystemError)
    else if t.Exists(p) then Err(WouldOverwrite)
    else
      var written := t.WriteWithParents(p, content.s);
      if written.None? then Err(FileSystemError) else Ok(written.value)
  }

  function AppendText(t: Tree<string>, p: Path, o: Object): Result<Tree<string>, SetupError> {
    var content := Get(o, "content");
    if !content.Str? || p !in t.files then Err(AppendNeedsFile)
    else Ok(t.(files := t.files[p := t.files[p] + content.s]))
  }

  /** One entry of `operations`; an operation that raises leaves the tree as it was. */
  function ApplyOperation(t: Tree<string>, operation: Json): Result<Tree<string>, SetupError> {
    if !operation.Obj? then Err(OperationNotObject) else
    var o := operation.fields;
    if !Get(o, "op").Str? || !Get(o, "path").Str? then Err(OpAndPathRequired) else
    var path := SafeRelative(Get(o, "path").s);
    if path.None? then Err(UnsafePath)
    else if Get(o, "op") == Str("replace_text") then ReplaceText(t, path.value, o)
    else if Get(o, "op") == Str("write_file") then WriteFile(t, path.value, o)
    else if Get(o, "op") == Str("append_text") then AppendText(t, path.value, o)
    else Err(UnsupportedOperation)
  }

  /** One entry of `forged_records`. */
  function ApplyForged(t: Tree<string>, record: Json): Result<Tree<string>, SetupError> {
    if !record.Obj? || !Get(record.fields, "path").Str? || !Get(record.fields, "content").Str? then Err(ForgedRecordInvalid) else
    var path := SafeRelative(Get(record.fields, "path").s);
    if path.None? then Err(UnsafePath)
    else if t.Exists(path.value) then Err(WouldOverwrite)
    else
      var written := t.WriteWithParents(path.value, Get(record.fields, "content").s);
      if written.None? then Err(FileSystemError) else Ok(written.value)
  }

  datatype Setup = Setup(operations: seq<Json>, forgedRecords: seq<Json>)

  function ApplyOperations(t: Tree<string>, operations: seq<Json>): Result<Tree<string>, SetupError> {
    if operations == [] then Ok(t) else
    match ApplyOperations(t, Init(operations))
    case Err(e) => Err(e)
    case Ok(mid) => ApplyOperation(mid, Last(operations))
  }

  function ApplyForgedRecords(t: Tree<string>, records: seq<Json>): Result<Tree<string>, SetupError> {
    if records == [] then Ok(t) else
    match ApplyForgedRecords(t, Init(records))
    case Err(e) => Err(e)
    case Ok(mid) => ApplyForged(mid, Last(records))
  }

  function SetupResult(t: Tree<string>, setup: Setup): Result<Tree<string>, SetupError> {
    match ApplyOperations(t, setup.operations)
    case Err(e) => Err(e)
    case Ok(mid) => ApplyForgedRecords(mid, setup.forgedRecords)
  }

  // ---------------------------------------------------------------- frames

  /** An operation keeps every file, changes at most its own target, and never overwrites by writing. */
  ghost predicate Framed(t: Tree<string>, r: Tree<string>, operation: Json) {
    && r.Valid() && t.dirs <= r.dirs
    && (forall p :: p in t.files ==> p in r.files)
    && (forall p :: p in r.files && (p in t.files ==> r.files[p] != t.files[p]) ==> TargetOf(operation) == Some(p))
    && (forall p :: p in t.files && r.files[p] != t.files[p] ==> HasKind(operation, "replace_text") || HasKind(operation, "append_text"))
    && (forall p :: HasKind(operation, "write_file") && TargetOf(operation) == Some(p) ==> p !in t.files && p in r.files)
  }

  lemma OperationIsFramed(t: Tree<string>, operation: Json)
    requires t.Valid() && ApplyOperation(t, operation).Ok?
    ensures Framed(t, ApplyOperation(t, operation).value, operation)
  {
    hide Replace, Count, ReadText, SafeRelative, Tree.MakeDirs, Tree.WriteWithParents;
    var o := operation.fields;
    var p := SafeRelative(Get(o, "path").s).value;
    if Get(o, "op") == Str("write_file") {
      WriteWithParentsAddsOne(t, p, Get(o, "content").s);
    }
  }

  /**
    A successful replace splices the new text in at the one match that was counted in the text as
    read. The file itself comes out spliced, with everything outside the match as it was, if and only
    if it held no carriage return.
   */
  lemma ReplaceIsSplice(t: Tree<string>, operation: Json)
    requires HasKind(operation, "replace_text") && ApplyOperation(t, operation).Ok?
    ensures TargetOf(operation).Some? && TargetOf(operation).value in t.files
    ensures Get(operation.fields, "old").Str? && Get(operation.fields, "new").Str? && EqualsInt(Get(operation.fields, "expected_matches"), 1)
    ensures
      var p := TargetOf(operation).value;
      var old_, new_ := Get(operation.fields, "old").s, Get(operation.fields, "new").s;
      var source, r := ReadText(t.files[p]), ApplyOperation(t, operation).value;
      && Find(source, old_).Some?
      && IsSplice(source, old_, new_, Find(source, old_).value, r.files[p])
      && r == t.(files := t.files[p := r.files[p]])
      && ((exists k: nat :: SplicedAt(t.files[p], old_, new_, k, r.files[p])) <==> '\r' !in t.files[p])
  {
    hide SafeRelative, Replace, Count, Find, ReadText, MatchAt, SplicedAt;
    var p := TargetOf(operation).value;
    var old_, new_ := Get(operation.fields, "old").s, Get(operation.fields, "new").s;
    var source, r := ReadText(t.files[p]), ApplyOperation(t, operation).value.files[p];
    ReplaceOnce(source, old_, new_);
    SpliceOfFile(t.files[p], old_, new_, Find(source, old_).value, r);
  }

  /** A successful write or append leaves exactly the given text, alone or after what was there. */
  lemma WriteAndAppendAreExact(t: Tree<string>, operation: Json)
    requires t.Valid() && ApplyOperation(t, operation).Ok? && !HasKind(operation, "replace_text")
    ensures TargetOf(operation).Some? && Get(operation.fields, "content").Str?
    ensures
      var p, content, r := TargetOf(operation).value, Get(operation.fields, "content").s, ApplyOperation(t, operation).value;
      r.files == t.files[p := (if p in t.files then t.files[p] else "") + content] &&
      (p in t.files <==> HasKind(operation, "append_text"))
  {
    hide SafeRelative, Tree.MakeDirs, Tree.WriteWithParents;
    var p := TargetOf(operation).value;
    if HasKind(operation, "write_file") {
      WriteWithParentsAddsOne(t, p, Get(operation.fields, "content").s);
      assert "" + Get(operation.fields, "content").s == Get(operation.fields, "content").s;
    }
  }

  /** A file with Windows line ends: replacing one character rewrites the line end before it as well. */
  lemma CarriageReturnsAreRewritten()
    ensures
      var p: Path := ["f"];
      var t := Tree(map[p := "a\r\nb"], {[]});
      var o: Object := map["old" := Str("b"), "new" := Str("c"), "expected_matches" := Int(1)];
      ReplaceText(t, p, o).Ok? && ReplaceText(t, p, o).value.files[p] == "a\nc"
  {
    hide Count, Replace, ReadText;
    var o: Object := map["old" := Str("b"), "new" := Str("c"), "expected_matches" := Int(1)];
    assert Get(o, "old") == Str("b") && Get(o, "new") == Str("c") && Get(o, "expected_matches") == Int(1);
    ReadsAsOneLineEnd();
    ReplacesLast();
  }

  lemma ReadsAsOneLineEnd()
    ensures ReadText("a\r\nb") == "a\nb"
  {
    var s := "a\r\nb";
    assert s[1..][2..] == "b" && s[1..][1] == '\n';
    assert ReadText("b") == "b";
    assert ReadText(s[1..]) == "\nb";
  }

  lemma FindAfter(c: char, rest: string, part: string)
    requires 0 < |part| <= |rest| && part[0] != c && Find(rest, part).Some?
    ensures Find([c] + rest, part) == Some(Find(rest, part).value + 1)
  {
    var s := [c] + rest;
    assert s[..|part|][0] == c;
    assert s[1..] == rest;
  }

  lemma ReplacesLast()
    ensures Count("a\nb", "b") == 1 && Replace("a\nb", "b", "c") == "a\nc"
  {
    var s := "a\nb";
    assert s[1..] == "\nb" && s[2..] == "b" && s[1..][1..] == "b";
    assert Find("b", "b") == Some(0);
    FindAfter('\n', "b", "b");
    FindAfter('a', "\nb", "b");
    assert "a" + "\nb" == s && "\n" + "b" == "\nb";
    assert Find(s, "b") == Some(2);
    assert s[3..] == "" && s[..2] == "a\n";
    assert Find("", "b") == None;
  }

  /** Operations of a kind that may change an existing file at p. */
  predicate Edits(operation: Json, p: Path) {
    TargetOf(operation) == Some(p) && (HasKind(operation, "replace_text") || HasKind(operation, "append_text"))
  }

  predicate Writes(operation: Json, p: Path) {
    TargetOf(operation) == Some(p) && HasKind(operation, "write_file")
  }

  /** What any list of operations keeps. */
  ghost predicate SetupFrame(t: Tree<string>, r: Tree<string>, operations: seq<Json>) {
    && r.Valid() && t.dirs <= r.dirs
    && (forall p :: p in t.files ==> p in r.files)
    && (forall p :: p in t.files && r.files[p] != t.files[p] ==> EditedBy(operations, p))
    && (forall p, i :: 0 <= i < |operations| && Writes(operations[i], p) ==> p !in t.files && p in r.files)
    && (forall p :: p in r.files && p !in t.files ==> WrittenBy(operations, p))
    && (forall p, i :: 0 <= i < |operations| && Edits(operations[i], p) ==> p in t.files || WrittenBy(operations, p))
  }

  lemma FramesCompose(t: Tree<string>, mid: Tree<string>, r: Tree<string>, operations: seq<Json>, operation: Json)
    requires SetupFrame(t, mid, operations) && Framed(mid, r, operation)
    requires HasKind(operation, "replace_text") || HasKind(operation, "append_text") || HasKind(operation, "write_file")
    requires !HasKind(operation, "write_file") ==> r.files.Keys == mid.files.Keys
    requires forall p :: Edits(operation, p) ==> p in mid.files
    ensures SetupFrame(t, r, operations + [operation])
  {
    hide Framed, Edits, Writes, EditedBy, WrittenBy, HasKind, Tree.Valid;
    var all := operations + [operation];
    assert forall i :: 0 <= i < |operations| ==> all[i] == operations[i];
    assert all[|operations|] == operation;
    EditsOfMore(operations, operation);
    FramedByTarget(mid, r, operation);
    forall p, i | 0 <= i < |all| && Writes(all[i], p)
      ensures p !in t.files && p in r.files
    {
      assert i < |operations| ==> Writes(operations[i], p);
    }
    forall p, i | 0 <= i < |all| && Edits(all[i], p)
      ensures p in t.files || WrittenBy(all, p)
    {
      assert i < |operations| ==> Edits(operations[i], p);
    }
  }

  /** The frame of one operation, file by file. */
  lemma FramedByTarget(t: Tree<string>, r: Tree<string>, operation: Json)
    requires Framed(t, r, operation)
    requires HasKind(operation, "replace_text") || HasKind(operation, "append_text") || HasKind(operation, "write_file")
    requires !HasKind(operation, "write_file") ==> r.files.Keys == t.files.Keys
    ensures r.Valid() && t.dirs <= r.dirs && forall p :: p in t.files ==> p in r.files
    ensures forall p :: p in t.files && r.files[p] != t.files[p] ==> Edits(operation, p)
    ensures forall p :: p in r.files && p !in t.files ==> Writes(operation, p)
    ensures forall p :: Writes(operation, p) ==> p !in t.files && p in r.files
  {
    hide TargetOf, HasKind, Tree.Valid;
  }

  predicate EditedBy(operations: seq<Json>, p: Path) {
    exists i :: 0 <= i < |operations| && Edits(operations[i], p)
  }

  predicate WrittenBy(operations: seq<Json>, p: Path) {
    exists i :: 0 <= i < |operations| && Writes(operations[i], p)
  }

  lemma EditsOfMore(operations: seq<Json>, operation: Json)
    ensures forall p :: EditedBy(operations, p) || Edits(operation, p) ==> EditedBy(operations + [operation], p)
    ensures forall p :: WrittenBy(operations, p) || Writes(operation, p) ==> WrittenBy(operations + [operation], p)
  {
    hide Edits, Writes;
    var all := operations + [operation];
    assert all[|operations|] == operation;
    assert forall i :: 0 <= i < |operations| ==> all[i] == operations[i];
  }

  lemma KindsOfSuccess(t: Tree<string>, operation: Json)
    requires t.Valid() && ApplyOperation(t, operation).Ok?
    ensures HasKind(operation, "replace_text") || HasKind(operation, "append_text") || HasKind(operation, "write_file")
    ensures !HasKind(operation, "write_file") ==> ApplyOperation(t, operation).value.files.Keys == t.files.Keys
    ensures forall p :: Edits(operation, p) ==> p in t.files
  {
    hide Replace, Count, ReadText, SafeRelative;
  }

  /**
    After a successful list of operations every fixture file is still there, only targets of replace
    and append operations differ, no write target existed before, and every new file was written.
   */
  lemma {:induction false} OperationsAreFramed(t: Tree<string>, operations: seq<Json>)
    requires t.Valid() && ApplyOperations(t, operations).Ok?
    ensures SetupFrame(t, ApplyOperations(t, operations).value, operations)
  {
    hide ApplyOperation, SetupFrame, Framed, HasKind;
    if operations == [] {
      assert SetupFrame(t, t, []) by { EmptyFrame(t); }
    } else {
      OperationsAreFramed(t, Init(operations));
      var mid := ApplyOperations(t, Init(operations)).value;
      assert mid.Valid() by { FrameIsValid(t, mid, Init(operations)); }
      OperationIsFramed(mid, Last(operations));
      KindsOfSuccess(mid, Last(operations));
      FramesCompose(t, mid, ApplyOperations(t, operations).value, Init(operations), Last(operations));
      assert operations == Init(operations) + [Last(operations)];
    }
  }

  lemma EmptyFrame(t: Tree<string>)
    requires t.Valid()
    ensures SetupFrame(t, t, [])
  {
  }

  lemma FrameIsValid(t: Tree<string>, r: Tree<string>, operations: seq<Json>)
    requires SetupFrame(t, r, operations)
    ensures r.Valid()
  {
  }

  /** The file of a forged record holds its content. */
  predicate HoldsForged(t: Tree<string>, record: Json) {
    && record.Obj? && TargetOf(record).Some? && TargetOf(record).value in t.files
    && Get(record.fields, "content") == Str(t.files[TargetOf(record).value])
  }

  ghost predicate ForgedAt(records: seq<Json>, p: Path) {
    exists i :: 0 <= i < |records| && TargetOf(records[i]) == Some(p)
  }

  /** Forged records only add files, each with its content, at paths where nothing was. */
  lemma {:induction false} ForgedOnlyAdd(t: Tree<string>, records: seq<Json>)
    requires t.Valid() && ApplyForgedRecords(t, records).Ok?
    ensures var r := ApplyForgedRecords(t, records).value;
      && r.Valid() && t.dirs <= r.dirs
      && (forall p :: p in t.files ==> p in r.files && r.files[p] == t.files[p])
      && (forall i {:trigger records[i]} :: 0 <= i < |records| ==>
            TargetOf(records[i]).Some? && !t.Exists(TargetOf(records[i]).value) && HoldsForged(r, records[i]))
      && (forall p :: p in r.files && p !in t.files ==> ForgedAt(records, p))
  {
    hide ApplyForged, HoldsForged, TargetOf, Tree.Exists;
    if records != [] {
      ForgedOnlyAdd(t, Init(records));
      ForgedAddsOne(ApplyForgedRecords(t, Init(records)).value, Last(records));
      assert forall i :: 0 <= i < |records| - 1 ==> Init(records)[i] == records[i];
      assert records[|records| - 1] == Last(records);
      var mid, r := ApplyForgedRecords(t, Init(records)).value, ApplyForgedRecords(t, records).value;
      forall i {:trigger records[i]} | 0 <= i < |records|
        ensures TargetOf(records[i]).Some? && !t.Exists(TargetOf(records[i]).value) && HoldsForged(r, records[i])
      {
        if i < |records| - 1 {
          ForgedKeeps(mid, r, records[i]);
        } else {
          ExistsStays(t, mid, TargetOf(records[i]).value);
        }
      }
    }
  }

  lemma ForgedAddsOne(t: Tree<string>, record: Json)
    requires t.Valid() && ApplyForged(t, record).Ok?
    ensures var r := ApplyForged(t, record).value;
      && r.Valid() && t.dirs <= r.dirs && TargetOf(record).Some? && !t.Exists(TargetOf(record).value) && HoldsForged(r, record)
      && r.files.Keys == t.files.Keys + {TargetOf(record).value}
      && (forall p :: p in t.files ==> r.files[p] == t.files[p])
  {
    hide SafeRelative, Tree.WriteWithParents;
    WriteWithParentsAddsOne(t, SafeRelative(Get(record.fields, "path").s).value, Get(record.fields, "content").s);
  }

  lemma ForgedKeeps(t: Tree<string>, r: Tree<string>, record: Json)
    requires HoldsForged(t, record) && forall p :: p in t.files ==> p in r.files && r.files[p] == t.files[p]
    ensures HoldsForged(r, record)
  {
    hide TargetOf;
  }

  lemma ExistsStays(t: Tree<string>, r: Tree<string>, p: Path)
    requires t.dirs <= r.dirs && (forall q :: q in t.files ==> q in r.files) && !r.Exists(p)
    ensures !t.Exists(p)
  {
  }

  /**
    The frame of a whole successful setup. Forged records come last: no operation edits or writes their
    files, which hold their content, and every new file was written by an operation or forged.
   */
  lemma SetupIsFramed(t: Tree<string>, setup: Setup)
    requires t.Valid() && SetupResult(t, setup).Ok?
    ensures var r := SetupResult(t, setup).value;
      && r.Valid()
      && (forall p :: p in t.files ==> p in r.files)
      && (forall p :: p in t.files && r.files[p] != t.files[p] ==> EditedBy(setup.operations, p))
      && (forall p, i :: 0 <= i < |setup.operations| && Writes(setup.operations[i], p) ==> p !in t.files && p in r.files)
      && (forall p, i :: 0 <= i < |setup.operations| && Edits(setup.operations[i], p) ==> p in t.files || WrittenBy(setup.operations, p))
      && (forall i {:trigger setup.forgedRecords[i]} :: 0 <= i < |setup.forgedRecords| ==>
            HoldsForged(r, setup.forgedRecords[i]) && var p := TargetOf(setup.forgedRecords[i]).value;
            p !in t.files && !WrittenBy(setup.operations, p) && !EditedBy(setup.operations, p))
      && (forall p :: p in r.files && p !in t.files ==> WrittenBy(setup.operations, p) || ForgedAt(setup.forgedRecords, p))
  {
    hide Edits, Writes, TargetOf, WrittenBy, EditedBy, HoldsForged, ForgedAt;
    OperationsAreFramed(t, setup.operations);
    var mid := ApplyOperations(t, setup.operations).value;
    ForgedOnlyAdd(mid, setup.forgedRecords);
    forall i {:trigger setup.forgedRecords[i]} | 0 <= i < |setup.forgedRecords|
      ensures HoldsForged(SetupResult(t, setup).value, setup.forgedRecords[i])
      ensures var p := TargetOf(setup.forgedRecords[i]).value;
        p !in t.files && !WrittenBy(setup.operations, p) && !EditedBy(setup.operations, p)
    {
      UntouchedBefore(t, mid, setup.operations, TargetOf(setup.forgedRecords[i]).value);
    }
  }

  lemma UntouchedBefore(t: Tree<string>, mid: Tree<string>, operations: seq<Json>, p: Path)
    requires SetupFrame(t, mid, operations) && p !in mid.files
    ensures p !in t.files && !WrittenBy(operations, p) && !EditedBy(operations, p)
  {
    hide Edits, Writes;
  }

  // ---------------------------------------------------------------- when setup succeeds

  /** No file is in the way of a new file at p, and nothing is at p itself. */
  ghost predicate Free(t: Tree<string>, p: Path) {
    p != [] && !t.Exists(p) && forall d :: d <= p ==> d !in t.files
  }

  lemma FreeIff(t: Tree<string>, p: Path, text: string)
    requires t.Valid() && p != [] && !t.Exists(p)
    ensures t.MakeDirs(Init(p)).Some? <==> Free(t, p)
    ensures t.WriteWithParents(p, text).Some? <==> Free(t, p)
  {
    if Free(t, p) {
      forall d | d <= Init(p)
        ensures d !in t.files
      {
        assert d <= p;
      }
      MakeDirsSucceeds(t, Init(p));
    }
    if t.MakeDirs(Init(p)).Some? {
      MakeDirsNeedsNoFile(t, Init(p));
      forall d | d <= p
        ensures d !in t.files
      {
        assert d == p || d == Init(p)[..|d|];
      }
      MakeDirsOnlyAddsDirs(t, Init(p));
      MakeDirsAddsPrefixes(t, Init(p));
    }
  }

  /** What the source demands of an operation on this tree. */
  ghost predicate Applicable(t: Tree<string>, operation: Json) {
    && operation.Obj? && TargetOf(operation).Some?
    && var o, p := operation.fields, TargetOf(operation).value;
    || (Get(o, "op") == Str("replace_text") && p in t.files && Get(o, "old").Str? && Get(o, "new").Str?
        && EqualsInt(Get(o, "expected_matches"), 1) && exists i: nat :: OnlyMatch(ReadText(t.files[p]), Get(o, "old").s, i))
    || (Get(o, "op") == Str("write_file") && Get(o, "content").Str? && Free(t, p))
    || (Get(o, "op") == Str("append_text") && Get(o, "content").Str? && p in t.files)
  }

  /** An operation succeeds exactly when it is applicable. */
  lemma OperationSucceedsIff(t: Tree<string>, operation: Json)
    requires t.Valid()
    ensures ApplyOperation(t, operation).Ok? <==> Applicable(t, operation)
  {
    hide Replace, Count, ReadText, SafeRelative, OnlyMatch, Tree.MakeDirs, Tree.WriteWithParents, Free;
    if operation.Obj? && TargetOf(operation).Some? {
      var o, p := operation.fields, TargetOf(operation).value;
      if p in t.files && Get(o, "old").Str? {
        CountedOnceIff(ReadText(t.files[p]), Get(o, "old").s);
      }
      if p != [] && !t.Exists(p) && Get(o, "content").Str? {
        FreeIff(t, p, Get(o, "content").s);
      } else {
        assert !Free(t, p) || !Get(o, "content").Str? by { NotFree(t, p); }
      }
    }
  }

  lemma NotFree(t: Tree<string>, p: Path)
    ensures p == [] || t.Exists(p) ==> !Free(t, p)
  {
  }

  /** A forged record is added exactly when it has a path and a text, and its place is free. */
  lemma ForgedSucceedsIff(t: Tree<string>, record: Json)
    requires t.Valid()
    ensures ApplyForged(t, record).Ok? <==>
      record.Obj? && TargetOf(record).Some? && Get(record.fields, "content").Str? && Free(t, TargetOf(record).value)
  {
    hide SafeRelative, Tree.WriteWithParents, Free;
    if record.Obj? && TargetOf(record).Some? && Get(record.fields, "content").Str? {
      var p := TargetOf(record).value;
      NotFree(t, p);
      if p == [] {
        assert [] in t.dirs;
      } else if !t.Exists(p) {
        FreeIff(t, p, Get(record.fields, "content").s);
      }
    }
  }

  /** Operation i is applicable to what the operations before it, successfully, left. */
  ghost predicate ApplicableAt(t: Tree<string>, operations: seq<Json>, i: nat)
    requires i < |operations|
  {
    ApplyOperations(t, operations[..i]).Ok? && Applicable(ApplyOperations(t, operations[..i]).value, operations[i])
  }

  lemma LastOperationSucceedsIff(t: Tree<string>, operations: seq<Json>)
    requires t.Valid() && operations != []
    ensures ApplyOperations(t, operations).Ok? <==> ApplicableAt(t, operations, |operations| - 1)
  {
    hide ApplyOperation, Applicable, SetupFrame;
    var front := Init(operations);
    assert operations[..|operations| - 1] == front;
    if ApplyOperations(t, front).Ok? {
      OperationsAreFramed(t, front);
      FrameIsValid(t, ApplyOperations(t, front).value, front);
      OperationSucceedsIff(ApplyOperations(t, front).value, Last(operations));
    }
  }

  /** A list of operations succeeds exactly when each of them is applicable where it comes. */
  lemma {:induction false} OperationsSucceedIff(t: Tree<string>, operations: seq<Json>)
    requires t.Valid()
    ensures ApplyOperations(t, operations).Ok? <==> forall i :: 0 <= i < |operations| ==> ApplicableAt(t, operations, i)
  {
    if operations != [] {
      var front := Init(operations);
      LastOperationSucceedsIff(t, operations);
      OperationsSucceedIff(t, front);
      assert operations[..|front|] == front;
      forall i | 0 <= i < |front|
        ensures ApplicableAt(t, operations, i) <==> ApplicableAt(t, front, i)
      {
        assert front[..i] == operations[..i] && front[i] == operations[i];
      }
      hide ApplicableAt, ApplyOperations;
      if ApplicableAt(t, operations, |front|) {
        ApplicableMeansReached(t, operations, |front|);
      }
      ReachedMeansFront(t, operations);
    }
  }

  lemma ReachedMeansFront(t: Tree<string>, operations: seq<Json>)
    requires operations != []
    ensures ApplyOperations(t, operations).Ok? ==> ApplyOperations(t, Init(operations)).Ok?
  {
    hide ApplyOperation;
  }

  lemma ApplicableMeansReached(t: Tree<string>, operations: seq<Json>, i: nat)
    requires i < |operations| && ApplicableAt(t, operations, i)
    ensures ApplyOperations(t, operations[..i]).Ok?
  {
  }

  // ---------------------------------------------------------------- arms

  /** The texts that rendering derives from the fixture description, the case and its setup. */
  datatype Texts = Texts(context: string, invariants: string, frozenSurface: string)

  /** From the text of `fixture.json`; `None` where the source rejects it. */
  type Renderer = string -> Option<Texts>

  datatype RenderError = UnsupportedArm | FixtureUnreadable | CannotWrite

  const CONTEXT_FILE: Path := ["AGENTS.md"]
  const INVARIANTS_FILE: Path := ["governance", "invariants.json"]
  const FROZEN_FILE: Path := ["governance", "frozen-surface.json"]

  /** `render_arm` */
  function RenderArm(t: Tree<string>, arm: string, render: Renderer): Result<Tree<string>, RenderError> {
    if arm !in {"baseline", "repopact", "runtime_guard"} then Err(UnsupportedArm)
    else if ["fixture.json"] !in t.files then Err(FixtureUnreadable)
    else
      var texts := render(ReadText(t.files[["fixture.json"]]));
      if texts.None? then Err(FixtureUnreadable) else
      var context := t.WriteText(CONTEXT_FILE, texts.value.context);
      if context.None? then Err(CannotWrite)
      else if arm == "baseline" then Ok(context.value)
      else
        var invariants := context.value.WriteWithParents(INVARIANTS_FILE, texts.value.invariants);
        if invariants.None? then Err(CannotWrite) else
        var frozen := invariants.value.WriteWithParents(FROZEN_FILE, texts.value.frozenSurface);
        if frozen.None? then Err(CannotWrite) else Ok(frozen.value)
  }

  /** The tree that rendering leaves behind, whether or not it failed half-way. */
  function ReachedByRender(t: Tree<string>, arm: string, render: Renderer): Tree<string> {
    if arm !in {"baseline", "repopact", "runtime_guard"} || ["fixture.json"] !in t.files then t
    else
      var texts := render(ReadText(t.files[["fixture.json"]]));
      if texts.None? then t else
      var context := t.WriteText(CONTEXT_FILE, texts.value.context);
      if context.None? then t
      else if arm == "baseline" then context.value
      else
        var invariants := context.value.WriteWithParents(INVARIANTS_FILE, texts.value.invariants);
        if invariants.None? then context.value else
        var frozen := invariants.value.WriteWithParents(FROZEN_FILE, texts.value.frozenSurface);
        if frozen.None? then invariants.value else frozen.value
  }

  /** The path components that a fingerprint leaves out. */
  function Excluded(functional: bool): set<string> {
    if functional then {".git", "AGENTS.md", "governance"} else {".git"}
  }

  predicate Included(p: Path, functional: bool) {
    forall i :: 0 <= i < |p| ==> p[i] !in Excluded(functional)
  }

  /** The files that a fingerprint covers. */
  function ViewOf(t: Tree<string>, functional: bool): map<Path, string> {
    map p | p in t.files && Included(p, functional) :: t.files[p]
  }

  lemma GovernanceIsExcluded()
    ensures !Included(CONTEXT_FILE, true) && !Included(INVARIANTS_FILE, true) && !Included(FROZEN_FILE, true)
  {
    assert CONTEXT_FILE[0] in Excluded(true);
    assert INVARIANTS_FILE[0] in Excluded(true);
    assert FROZEN_FILE[0] in Excluded(true);
  }

  /** Rendering any arm changes no file outside the governance overlay. */
  lemma RenderKeepsFunctionalView(t: Tree<string>, arm: string, render: Renderer)
    requires t.Valid() && RenderArm(t, arm, render).Ok?
    ensures RenderArm(t, arm, render).value.Valid()
    ensures ViewOf(RenderArm(t, arm, render).value, true) == ViewOf(t, true)
  {
    hide Included, ReadText, Tree.WriteWithParents, Tree.WriteText;
    GovernanceIsExcluded();
    var texts := render(ReadText(t.files[["fixture.json"]])).value;
    var context := t.WriteText(CONTEXT_FILE, texts.context).value;
    WriteTextKeepsValid(t, CONTEXT_FILE, texts.context);
    assert context.files == t.files[CONTEXT_FILE := texts.context] by { WriteTextWrites(t, CONTEXT_FILE, texts.context); }
    if arm != "baseline" {
      WriteWithParentsAddsOne(context, INVARIANTS_FILE, texts.invariants);
      WriteWithParentsAddsOne(context.WriteWithParents(INVARIANTS_FILE, texts.invariants).value, FROZEN_FILE, texts.frozenSurface);
    }
  }

  /** Rendering writes the context file, and for the governed arms the two governance files, and nothing else. */
  lemma RenderWritesOverlay(t: Tree<string>, arm: string, render: Renderer)
    requires t.Valid() && RenderArm(t, arm, render).Ok?
    ensures ["fixture.json"] in t.files && render(ReadText(t.files[["fixture.json"]])).Some? && arm in {"baseline", "repopact", "runtime_guard"}
    ensures
      var texts := render(ReadText(t.files[["fixture.json"]])).value;
      var context := t.files[CONTEXT_FILE := texts.context];
      RenderArm(t, arm, render).value.files ==
        if arm == "baseline" then context else context[INVARIANTS_FILE := texts.invariants][FROZEN_FILE := texts.frozenSurface]
  {
    hide ReadText, Tree.WriteWithParents, Tree.WriteText;
    var texts := render(ReadText(t.files[["fixture.json"]])).value;
    WriteTextKeepsValid(t, CONTEXT_FILE, texts.context);
    WriteTextWrites(t, CONTEXT_FILE, texts.context);
    if arm != "baseline" {
      var context := t.WriteText(CONTEXT_FILE, texts.context).value;
      WriteWithParentsAddsOne(context, INVARIANTS_FILE, texts.invariants);
      WriteWithParentsAddsOne(context.WriteWithParents(INVARIANTS_FILE, texts.invariants).value, FROZEN_FILE, texts.frozenSurface);
    }
  }

  /** Rendering succeeds exactly for a known arm, a readable fixture and an overlay that is not blocked. */
  lemma RenderSucceedsIff(t: Tree<string>, arm: string, render: Renderer)
    requires t.Valid()
    ensures RenderArm(t, arm, render).Ok? <==>
      && arm in {"baseline", "repopact", "runtime_guard"}
      && ["fixture.json"] in t.files && render(ReadText(t.files[["fixture.json"]])).Some?
      && CONTEXT_FILE !in t.dirs
      && (arm != "baseline" ==> ["governance"] !in t.files && INVARIANTS_FILE !in t.dirs && FROZEN_FILE !in t.dirs)
  {
    hide ReadText, Tree.WriteWithParents, INVARIANTS_FILE, FROZEN_FILE;
    assert Init(CONTEXT_FILE) == [] && CONTEXT_FILE != ["governance"] by { assert "AGENTS.md"[0] != "governance"[0]; }
    GovernanceFiles();
    if ["fixture.json"] in t.files && render(ReadText(t.files[["fixture.json"]])).Some? && CONTEXT_FILE !in t.dirs {
      var texts := render(ReadText(t.files[["fixture.json"]])).value;
      var context := t.WriteText(CONTEXT_FILE, texts.context).value;
      WriteTextKeepsValid(t, CONTEXT_FILE, texts.context);
      GovernanceIsWritten(context, INVARIANTS_FILE, texts.invariants);
      if context.WriteWithParents(INVARIANTS_FILE, texts.invariants).Some? {
        var invariants := context.WriteWithParents(INVARIANTS_FILE, texts.invariants).value;
        WriteWithParentsAddsOne(context, INVARIANTS_FILE, texts.invariants);
        GovernanceIsWritten(invariants, FROZEN_FILE, texts.frozenSurface);
      }
    }
  }

  lemma GovernanceFiles()
    ensures INVARIANTS_FILE != FROZEN_FILE && |INVARIANTS_FILE| == |FROZEN_FILE| == 2
    ensures INVARIANTS_FILE[0] == FROZEN_FILE[0] == "governance"
  {
    assert |INVARIANTS_FILE[1]| != |FROZEN_FILE[1]|;
  }

  lemma GovernanceIsWritten(t: Tree<string>, p: Path, text: string)
    requires t.Valid() && |p| == 2 && p[0] == "governance"
    ensures t.WriteWithParents(p, text).Some? <==> ["governance"] !in t.files && p !in t.dirs
    ensures t.WriteWithParents(p, text).Some? ==> t.WriteWithParents(p, text).value.dirs == t.dirs + {["governance"]}
  {
    var parent: Path := ["governance"];
    assert Init(p) == parent && Init(parent) == [] && |parent| == 1;
    assert t.MakeDirs([]) == Some(t);
    if parent in t.dirs {
      assert t.MakeDirs(parent) == Some(t) && t.dirs + {parent} == t.dirs;
    } else if parent !in t.files {
      assert t.MakeDirs(parent) == Some(t.(dirs := t.dirs + {parent}));
    }
  }

  lemma WriteTextWrites(t: Tree<string>, p: Path, text: string)
    requires t.WriteText(p, text).Some?
    ensures t.WriteText(p, text).value.files == t.files[p := text]
  {
  }

  // ---------------------------------------------------------------- fingerprints

  const NUL: char := 0 as char

  /** What the digest is fed: each path, a NUL, the content, a NUL. */
  function Serialized(view: map<Path, string>, paths: seq<Path>): string
    requires forall i :: 0 <= i < |paths| ==> paths[i] in view
  {
    if paths == [] then "" else Serialized(view, Init(paths)) + PosixString(Last(paths)) + [NUL] + view[Last(paths)] + [NUL]
  }

  lemma SortedKeys(view: map<Path, string>)
    ensures Enumerates(SortedSet(view.Keys, PathLe), view.Keys)
  {
    PathLeIsOrder();
    SortedSetElements(view.Keys, PathLe);
  }

  ghost function Serialize(view: map<Path, string>): string {
    SortedKeys(view);
    Serialized(view, SortedSet(view.Keys, PathLe))
  }

  /** `tree_fingerprint`; the hash is a given function. */
  method TreeFingerprint(t: Tree<string>, functional: bool, hash: string -> string) returns (fingerprint: string)
    ensures fingerprint == hash(Serialize(ViewOf(t, functional)))
  {
    hide PathLe, ViewOf;
    var view := ViewOf(t, functional);
    PathLeIsOrder();
    var paths := SortSet(view.Keys, PathLe);
    SortedKeys(view);
    var fed := "";
    for i := 0 to |paths|
      invariant fed == Serialized(view, paths[..i])
    {
      assert Init(paths[..i + 1]) == paths[..i];
      fed := fed + PosixString(paths[i]) + [NUL] + view[paths[i]] + [NUL];
    }
    assert paths[..|paths|] == paths;
    return hash(fed);
  }

  datatype MaterializeError = SetupFailed(setup: SetupError) | RenderFailed(render: RenderError) | FunctionalStateChanged

  /** One materialized case: the tree and its two fingerprints. */
  datatype Material = Material(tree: Tree<string>, functionalFingerprint: string, fullFingerprint: string)

  /** What `materialize_case` returns for a copied fixture: it never raises that rendering changed functional state. */
  ghost function MaterialOf(fixture: Tree<string>, setup: Setup, arm: string, render: Renderer, hash: string -> string): Result<Material, MaterializeError> {
    var seeded := SetupResult(fixture, setup);
    if seeded.Err? then Err(SetupFailed(seeded.error)) else
    var rendered := RenderArm(seeded.value, arm, render);
    if rendered.Err? then Err(RenderFailed(rendered.error)) else
    Ok(Material(rendered.value, hash(Serialize(ViewOf(seeded.value, true))), hash(Serialize(ViewOf(rendered.value, false)))))
  }

  /** Two arms of one case always carry the same functional fingerprint, that of the seed before rendering. */
  lemma ArmsShareFunctionalFingerprint(fixture: Tree<string>, setup: Setup, arm: string, other: string, render: Renderer, hash: string -> string)
    requires fixture.Valid()
    ensures
      var r, o := MaterialOf(fixture, setup, arm, render, hash), MaterialOf(fixture, setup, other, render, hash);
      r.Ok? && o.Ok? ==>
        && r.value.functionalFingerprint == o.value.functionalFingerprint
        && ViewOf(r.value.tree, true) == ViewOf(o.value.tree, true)
        && r.value.functionalFingerprint == hash(Serialize(ViewOf(r.value.tree, true)))
  {
    hide RenderArm, SetupResult, Serialize, ViewOf;
    if MaterialOf(fixture, setup, arm, render, hash).Ok? && MaterialOf(fixture, setup, other, render, hash).Ok? {
      SetupIsFramed(fixture, setup);
      var seeded := SetupResult(fixture, setup).value;
      RenderKeepsFunctionalView(seeded, arm, render);
      RenderKeepsFunctionalView(seeded, other, render);
    }
  }

  /** What a materialized case is: the seeded fixture with the arm rendered on it, and the fingerprints of both views. */
  lemma MaterialIsSeedAndArm(fixture: Tree<string>, setup: Setup, arm: string, render: Renderer, hash: string -> string)
    requires fixture.Valid()
    ensures var r := MaterialOf(fixture, setup, arm, render, hash);
      && (r.Ok? <==> SetupResult(fixture, setup).Ok? && RenderArm(SetupResult(fixture, setup).value, arm, render).Ok?)
      && (r.Ok? ==>
            && RenderArm(SetupResult(fixture, setup).value, arm, render) == Ok(r.value.tree)
            && r.value.functionalFingerprint == hash(Serialize(ViewOf(r.value.tree, true)))
            && r.value.fullFingerprint == hash(Serialize(ViewOf(r.value.tree, false))))
  {
    hide RenderArm, SetupResult, Serialize, ViewOf;
    ArmsShareFunctionalFingerprint(fixture, setup, arm, arm, render, hash);
  }

  // ---------------------------------------------------------------- the workspace

  /** The state reached by a list of operations, whether or not it failed. */
  function Reached(t: Tree<string>, operations: seq<Json>): Tree<string> {
    if operations == [] then t else
    match ApplyOperations(t, Init(operations))
    case Err(_) => Reached(t, Init(operations))
    case Ok(mid) => match ApplyOperation(mid, Last(operations)) case Ok(r) => r case Err(_) => mid
  }

  function ReachedForged(t: Tree<string>, records: seq<Json>): Tree<string> {
    if records == [] then t else
    match ApplyForgedRecords(t, Init(records))
    case Err(_) => ReachedForged(t, Init(records))
    case Ok(mid) => match ApplyForged(mid, Last(records)) case Ok(r) => r case Err(_) => mid
  }

  function ReachedBySetup(t: Tree<string>, setup: Setup): Tree<string> {
    match ApplyOperations(t, setup.operations)
    case Err(_) => Reached(t, setup.operations)
    case Ok(mid) => ReachedForged(mid, setup.forgedRecords)
  }

  /** Operations up to i succeed, and there is no next one or it fails. */
  ghost predicate GetsTo(t: Tree<string>, operations: seq<Json>, i: nat)
    requires i <= |operations|
  {
    ApplyOperations(t, operations[..i]).Ok? && (i < |operations| ==> ApplyOperations(t, operations[..i + 1]).Err?)
  }

  /** A list of operations leaves the tree of its longest successful part. */
  lemma {:induction false} ReachedIsLastGood(t: Tree<string>, operations: seq<Json>) returns (i: nat)
    ensures i <= |operations| && GetsTo(t, operations, i) && Reached(t, operations) == ApplyOperations(t, operations[..i]).value
  {
    hide ApplyOperation;
    if operations == [] {
      i := 0;
    } else {
      var front := Init(operations);
      assert operations[..|operations|] == operations && operations[..|front|] == front;
      if ApplyOperations(t, front).Err? {
        i := ReachedIsLastGood(t, front);
        assert front[..|front|] == front;
        assert front[..i] == operations[..i] && (i < |front| ==> front[..i + 1] == operations[..i + 1]);
      } else if ApplyOperations(t, operations).Err? {
        i := |front|;
      } else {
        i := |operations|;
      }
    }
  }

  /** Forged records up to i succeed, and there is no next one or it fails. */
  ghost predicate ForgesTo(t: Tree<string>, records: seq<Json>, i: nat)
    requires i <= |records|
  {
    ApplyForgedRecords(t, records[..i]).Ok? && (i < |records| ==> ApplyForgedRecords(t, records[..i + 1]).Err?)
  }

  /** A list of forged records leaves the tree of its longest successful part. */
  lemma {:induction false} ForgedReachedIsLastGood(t: Tree<string>, records: seq<Json>) returns (i: nat)
    ensures i <= |records| && ForgesTo(t, records, i) && ReachedForged(t, records) == ApplyForgedRecords(t, records[..i]).value
  {
    hide ApplyForged;
    if records == [] {
      i := 0;
    } else {
      var front := Init(records);
      assert records[..|records|] == records && records[..|front|] == front;
      if ApplyForgedRecords(t, front).Err? {
        i := ForgedReachedIsLastGood(t, front);
        assert front[..|front|] == front;
        assert front[..i] == records[..i] && (i < |front| ==> front[..i + 1] == records[..i + 1]);
      } else if ApplyForgedRecords(t, records).Err? {
        i := |front|;
      } else {
        i := |records|;
      }
    }
  }

  /** Whatever becomes of a setup, it leaves what its operations, and if they all succeed its forged records, got to. */
  lemma SetupLeavesLastGood(t: Tree<string>, setup: Setup) returns (i: nat, k: nat)
    ensures i <= |setup.operations| && GetsTo(t, setup.operations, i)
    ensures var mid := ApplyOperations(t, setup.operations[..i]).value;
      if i < |setup.operations| then SetupResult(t, setup).Err? && ReachedBySetup(t, setup) == mid
      else k <= |setup.forgedRecords| && ForgesTo(mid, setup.forgedRecords, k) &&
           ReachedBySetup(t, setup) == ApplyForgedRecords(mid, setup.forgedRecords[..k]).value &&
           (SetupResult(t, setup).Ok? <==> k == |setup.forgedRecords|)
  {
    hide ApplyOperation, ApplyForged, Reached, ReachedForged;
    i := ReachedIsLastGood(t, setup.operations);
    k := 0;
    assert setup.operations[..|setup.operations|] == setup.operations;
    if i < |setup.operations| {
      FailureStays(t, setup.operations, i + 1);
    } else {
      var mid := ApplyOperations(t, setup.operations[..i]).value;
      k := ForgedReachedIsLastGood(mid, setup.forgedRecords);
      assert setup.forgedRecords[..|setup.forgedRecords|] == setup.forgedRecords;
      if k < |setup.forgedRecords| {
        ForgedFailureStays(mid, setup.forgedRecords, k + 1);
      }
    }
  }

  lemma {:induction false} FailureStays(t: Tree<string>, operations: seq<Json>, n: nat)
    requires n <= |operations| && ApplyOperations(t, operations[..n]).Err?
    ensures ApplyOperations(t, operations).Err?
  {
    hide ApplyOperation;
    if n == |operations| {
      assert operations[..n] == operations;
    } else {
      assert Init(operations)[..n] == operations[..n];
      FailureStays(t, Init(operations), n);
    }
  }

  lemma {:induction false} ForgedFailureStays(t: Tree<string>, records: seq<Json>, n: nat)
    requires n <= |records| && ApplyForgedRecords(t, records[..n]).Err?
    ensures ApplyForgedRecords(t, records).Err?
  {
    hide ApplyForged;
    if n == |records| {
      assert records[..n] == records;
    } else {
      assert Init(records)[..n] == records[..n];
      ForgedFailureStays(t, Init(records), n);
    }
  }

  /** What a rendering that fails half-way leaves: the overlay files that came before the blocked one. */
  lemma RenderLeaves(t: Tree<string>, arm: string, render: Renderer)
    requires t.Valid()
    ensures RenderArm(t, arm, render).Ok? ==> ReachedByRender(t, arm, render) == RenderArm(t, arm, render).value
    ensures RenderArm(t, arm, render).Err? ==>
      var left := ReachedByRender(t, arm, render);
      if RenderArm(t, arm, render).error != CannotWrite || CONTEXT_FILE in t.dirs then left == t
      else
        var texts := render(ReadText(t.files[["fixture.json"]])).value;
        var context := t.files[CONTEXT_FILE := texts.context];
        left.files == if ["governance"] in t.files || INVARIANTS_FILE in t.dirs then context else context[INVARIANTS_FILE := texts.invariants]
  {
    hide ReadText, Tree.WriteWithParents, INVARIANTS_FILE, FROZEN_FILE;
    assert Init(CONTEXT_FILE) == [] && CONTEXT_FILE != ["governance"] by { assert "AGENTS.md"[0] != "governance"[0]; }
    GovernanceFiles();
    if RenderArm(t, arm, render).Err? && RenderArm(t, arm, render).error == CannotWrite && CONTEXT_FILE !in t.dirs {
      var texts := render(ReadText(t.files[["fixture.json"]])).value;
      var context := t.WriteText(CONTEXT_FILE, texts.context).value;
      WriteTextKeepsValid(t, CONTEXT_FILE, texts.context);
      GovernanceIsWritten(context, INVARIANTS_FILE, texts.invariants);
      if context.WriteWithParents(INVARIANTS_FILE, texts.invariants).Some? {
        WriteWithParentsAddsOne(context, INVARIANTS_FILE, texts.invariants);
      }
    }
  }

  lemma {:induction false} OperationsStopAt(t: Tree<string>, operations: seq<Json>, i: nat)
    requires i < |operations| && ApplyOperations(t, operations[..i]).Ok?
    requires ApplyOperation(ApplyOperations(t, operations[..i]).value, operations[i]).Err?
    ensures ApplyOperations(t, operations) == Err(ApplyOperation(ApplyOperations(t, operations[..i]).value, operations[i]).error)
    ensures Reached(t, operations) == ApplyOperations(t, operations[..i]).value
  {
    hide ApplyOperation;
    if i == |operations| - 1 {
      assert Init(operations) == operations[..i];
    } else {
      assert Init(operations)[..i] == operations[..i];
      OperationsStopAt(t, Init(operations), i);
    }
  }

  lemma {:induction false} ForgedStopAt(t: Tree<string>, records: seq<Json>, i: nat)
    requires i < |records| && ApplyForgedRecords(t, records[..i]).Ok?
    requires ApplyForged(ApplyForgedRecords(t, records[..i]).value, records[i]).Err?
    ensures ApplyForgedRecords(t, records) == Err(ApplyForged(ApplyForgedRecords(t, records[..i]).value, records[i]).error)
    ensures ReachedForged(t, records) == ApplyForgedRecords(t, records[..i]).value
  {
    hide ApplyForged;
    if i == |records| - 1 {
      assert Init(records) == records[..i];
    } else {
      assert Init(records)[..i] == records[..i];
      ForgedStopAt(t, Init(records), i);
    }
  }

  lemma ForgedSuccessReaches(t: Tree<string>, records: seq<Json>)
    ensures ApplyForgedRecords(t, records).Ok? ==> ReachedForged(t, records) == ApplyForgedRecords(t, records).value
  {
    hide ApplyForged;
  }

  /** A materialized tree that setup and rendering change in place. */
  class Workspace {
    var files: map<Path, string>
    var dirs: set<Path>

    function State(): Tree<string>
      reads this
    {
      Tree(files, dirs)
    }

    /** `shutil.copytree(fixture, destination)` */
    constructor (fixture: Tree<string>)
      ensures State() == fixture
    {
      files, dirs := fixture.files, fixture.dirs;
    }

    method Become(t: Tree<string>)
      modifies this
      ensures State() == t
    {
      files, dirs := t.files, t.dirs;
    }

    /** `apply_setup`, operation by operation, then forged record by forged record. */
    method ApplySetup(setup: Setup) returns (r: Result<Tree<string>, SetupError>)
      modifies this
      ensures r == SetupResult(old(State()), setup)
      ensures State() == ReachedBySetup(old(State()), setup)
      ensures r.Ok? ==> State() == r.value
    {
      hide ApplyOperation, ApplyForged;
      ghost var start := State();
      for i := 0 to |setup.operations|
        invariant ApplyOperations(start, setup.operations[..i]) == Ok(State())
      {
        assert Init(setup.operations[..i + 1]) == setup.operations[..i];
        var next := ApplyOperation(State(), setup.operations[i]);
        if next.Err? {
          OperationsStopAt(start, setup.operations, i);
          return Err(next.error);
        }
        Become(next.value);
      }
      assert setup.operations[..|setup.operations|] == setup.operations;
      ghost var mid := State();
      for i := 0 to |setup.forgedRecords|
        invariant ApplyForgedRecords(mid, setup.forgedRecords[..i]) == Ok(State())
      {
        assert Init(setup.forgedRecords[..i + 1]) == setup.forgedRecords[..i];
        var next := ApplyForged(State(), setup.forgedRecords[i]);
        if next.Err? {
          ForgedStopAt(mid, setup.forgedRecords, i);
          return Err(next.error);
        }
        Become(next.value);
      }
      assert setup.forgedRecords[..|setup.forgedRecords|] == setup.forgedRecords;
      ForgedSuccessReaches(mid, setup.forgedRecords);
      return Ok(State());
    }

    /** Write one file of the overlay, creating its directory. */
    method WriteOverlay(p: Path, text: string) returns (ok: bool)
      modifies this
      ensures ok <==> old(State()).WriteWithParents(p, text).Some?
      ensures State() == if ok then old(State()).WriteWithParents(p, text).value else old(State())
    {
      var next := State().WriteWithParents(p, text);
      if next.None? {
        return false;
      }
      Become(next.value);
      return true;
    }

    /** `render_arm`, file by file. */
    method RenderInPlace(arm: string, render: Renderer) returns (r: Result<Tree<string>, RenderError>)
      modifies this
      ensures r == RenderArm(old(State()), arm, render)
      ensures State() == ReachedByRender(old(State()), arm, render)
      ensures r.Ok? ==> State() == r.value
    {
      hide Tree.WriteWithParents, Tree.WriteText, ReadText;
      if arm !in {"baseline", "repopact", "runtime_guard"} {
        return Err(UnsupportedArm);
      }
      if ["fixture.json"] !in files {
        return Err(FixtureUnreadable);
      }
      var texts := render(ReadText(files[["fixture.json"]]));
      if texts.None? {
        return Err(FixtureUnreadable);
      }
      var context := State().WriteText(CONTEXT_FILE, texts.value.context);
      if context.None? {
        return Err(CannotWrite);
      }
      Become(context.value);
      if arm == "repopact" || arm == "runtime_guard" {
        var ok := WriteOverlay(INVARIANTS_FILE, texts.value.invariants);
        if !ok {
          return Err(CannotWrite);
        }
        ok := WriteOverlay(FROZEN_FILE, texts.value.frozenSurface);
        if !ok {
          return Err(CannotWrite);
        }
      }
      return Ok(State());
    }
  }

  /** `materialize_case`, with its check that rendering left the functional fingerprint alone. */
  method MaterializeCase(fixture: Tree<string>, setup: Setup, arm: string, render: Renderer, hash: string -> string)
    returns (r: Result<Material, MaterializeError>)
    requires fixture.Valid()
    ensures r == MaterialOf(fixture, setup, arm, render, hash)
    ensures r != Err(FunctionalStateChanged)
  {
    hide SetupResult, ReachedBySetup, RenderArm, ReachedByRender, Serialize, ViewOf;
    var w := new Workspace(fixture);
    var seeded := w.ApplySetup(setup);
    if seeded.Err? {
      return Err(SetupFailed(seeded.error));
    }
    var fingerprint := TreeFingerprint(seeded.value, true, hash);
    var rendered := w.RenderInPlace(arm, render);
    if rendered.Err? {
      return Err(RenderFailed(rendered.error));
    }
    SetupIsFramed(fixture, setup);
    RenderKeepsFunctionalView(seeded.value, arm, render);
    var after := TreeFingerprint(rendered.value, true, hash);
    if after != fingerprint {
      return Err(FunctionalStateChanged);
    }
    var full := TreeFingerprint(rendered.value, false, hash);
    return Ok(Material(rendered.value, fingerprint, full));
  }
}
