/** What a tree fingerprint of benchmarks/pactbench/materialize.py tells about the tree. */
module Fingerprints {
  import opened Prelude
  import opened Ordering
  import opened Paths
  import opened Trees
  import opened PactBench

  /** The position of the first delimiter, or the length. */
  function IndexOf(s: string, delimiter: char): nat {
    if s == "" || s[0] == delimiter then 0 else 1 + IndexOf(s[1..], delimiter)
  }

  lemma {:induction false} IndexOfField(a: string, x: string, delimiter: char)
    requires delimiter !in a
    ensures IndexOf(a + [delimiter] + x, delimiter) == |a|
  {
    if a != "" {
      IndexOfField(a[1..], x, delimiter);
      assert (a + [delimiter] + x)[1..] == a[1..] + [delimiter] + x;
    }
  }

  /** A field that does not contain its delimiter is read back unambiguously. */
  lemma Delimited(a: string, x: string, b: string, y: string, delimiter: char)
    requires delimiter !in a && delimiter !in b
    requires a + [delimiter] + x == b + [delimiter] + y
    ensures a == b && x == y
  {
    var s, t := a + [delimiter] + x, b + [delimiter] + y;
    IndexOfField(a, x, delimiter);
    IndexOfField(b, y, delimiter);
    assert a == s[..|a|] && b == t[..|b|];
    assert x == s[|a| + 1..] && y == t[|b| + 1..];
  }

  predicate ValidName(name: string) {
    NormalName(name) && NUL !in name
  }

  predicate ValidPath(p: Path) {
    p != [] && forall i :: 0 <= i < |p| ==> ValidName(p[i])
  }

  lemma {:induction false} PosixStringHasNoNul(p: Path)
    requires ValidPath(p)
    ensures NUL !in PosixString(p)
  {
    assert ValidName(p[0]);
    if |p| > 1 {
      assert forall i :: 0 <= i < |p[1..]| ==> p[1..][i] == p[i + 1];
      PosixStringHasNoNul(p[1..]);
    }
  }

  lemma SlashMeansLong(p: Path)
    requires ValidPath(p)
    ensures '/' in PosixString(p) <==> |p| > 1
  {
    assert ValidName(p[0]);
    if |p| > 1 {
      assert PosixString(p)[|p[0]|] == '/';
    }
  }

  lemma {:induction false} PosixStringInjective(p: Path, q: Path)
    requires ValidPath(p) && ValidPath(q) && PosixString(p) == PosixString(q)
    ensures p == q
  {
    assert ValidName(p[0]) && ValidName(q[0]);
    SlashMeansLong(p);
    SlashMeansLong(q);
    if |p| > 1 {
      assert forall i :: 0 <= i < |p[1..]| ==> p[1..][i] == p[i + 1];
      assert forall i :: 0 <= i < |q[1..]| ==> q[1..][i] == q[i + 1];
      Delimited(p[0], PosixString(p[1..]), q[0], PosixString(q[1..]), '/');
      PosixStringInjective(p[1..], q[1..]);
      assert p == [p[0]] + p[1..] && q == [q[0]] + q[1..];
    }
  }

  /** File names that a POSIX file system allows, and contents without NUL. */
  predicate NulFree(view: map<Path, string>) {
    forall p :: p in view ==> ValidPath(p) && NUL !in view[p]
  }

  /** One file as the digest sees it. */
  function Chunk(view: map<Path, string>, p: Path): string
    requires p in view
  {
    PosixString(p) + [NUL] + view[p] + [NUL]
  }

  lemma SerializedSnoc(view: map<Path, string>, paths: seq<Path>)
    requires paths != [] && forall i :: 0 <= i < |paths| ==> paths[i] in view
    ensures Serialized(view, paths) == Serialized(view, Init(paths)) + Chunk(view, Last(paths))
  {
    hide PosixString;
  }

  lemma {:induction false} SerializedFromFront(view: map<Path, string>, paths: seq<Path>)
    requires paths != [] && forall i :: 0 <= i < |paths| ==> paths[i] in view
    ensures Serialized(view, paths) == Chunk(view, paths[0]) + Serialized(view, paths[1..])
  {
    hide Serialized, Chunk;
    SerializedSnoc(view, paths);
    if |paths| == 1 {
      assert Init(paths) == [] && paths[1..] == [];
      OnlyEmptyIsEmpty(view, []);
    } else {
      SerializedFromFront(view, Init(paths));
      SerializedSnoc(view, paths[1..]);
      assert Init(paths)[1..] == Init(paths[1..]) && Init(paths)[0] == paths[0] && Last(paths[1..]) == Last(paths);
      assert Chunk(view, paths[0]) + Serialized(view, Init(paths[1..])) + Chunk(view, Last(paths))
        == Chunk(view, paths[0]) + (Serialized(view, Init(paths[1..])) + Chunk(view, Last(paths)));
    }
  }

  lemma ChunkInFields(view: map<Path, string>, p: Path, rest: string)
    requires p in view
    ensures Chunk(view, p) + rest == PosixString(p) + [NUL] + (view[p] + [NUL] + rest)
  {
    hide PosixString;
  }

  lemma {:induction false} SerializedInjective(v: map<Path, string>, ps: seq<Path>, w: map<Path, string>, qs: seq<Path>)
    requires NulFree(v) && NulFree(w)
    requires forall i :: 0 <= i < |ps| ==> ps[i] in v
    requires forall i :: 0 <= i < |qs| ==> qs[i] in w
    requires Serialized(v, ps) == Serialized(w, qs)
    ensures ps == qs && forall i :: 0 <= i < |ps| ==> v[ps[i]] == w[qs[i]]
  {
    hide PosixString, Serialized, ValidPath, Chunk;
    if ps == [] || qs == [] {
      OnlyEmptyIsEmpty(v, ps);
      OnlyEmptyIsEmpty(w, qs);
    } else {
      SerializedFromFront(v, ps);
      SerializedFromFront(w, qs);
      var p, q := ps[0], qs[0];
      assert p in v && q in w;
      ChunkInFields(v, p, Serialized(v, ps[1..]));
      ChunkInFields(w, q, Serialized(w, qs[1..]));
      PosixStringHasNoNul(p);
      PosixStringHasNoNul(q);
      var x, y := v[p] + [NUL] + Serialized(v, ps[1..]), w[q] + [NUL] + Serialized(w, qs[1..]);
      Delimited(PosixString(p), x, PosixString(q), y, NUL);
      Delimited(v[p], Serialized(v, ps[1..]), w[q], Serialized(w, qs[1..]), NUL);
      PosixStringInjective(p, q);
      SerializedInjective(v, ps[1..], w, qs[1..]);
      assert ps == [p] + ps[1..] && qs == [q] + qs[1..];
    }
  }

  lemma OnlyEmptyIsEmpty(v: map<Path, string>, ps: seq<Path>)
    requires forall i :: 0 <= i < |ps| ==> ps[i] in v
    ensures Serialized(v, ps) == "" <==> ps == []
  {
  }

  /** On trees without NUL the digested bytes determine the tree. */
  lemma SerializationIsFaithful(v: map<Path, string>, w: map<Path, string>)
    requires NulFree(v) && NulFree(w)
    ensures Serialize(v) == Serialize(w) <==> v == w
  {
    hide PathLe, Serialized, NulFree;
    if Serialize(v) == Serialize(w) {
      SortedKeys(v);
      SortedKeys(w);
      var ps, qs := SortedSet(v.Keys, PathLe), SortedSet(w.Keys, PathLe);
      SerializedInjective(v, ps, w, qs);
      assert v.Keys == w.Keys;
      forall p | p in v.Keys
        ensures v[p] == w[p]
      {
        assert p in ps;
      }
    }
  }

  /**
    The full fingerprint covers every file outside `.git`, the functional one every file outside `.git`,
    `AGENTS.md` and `governance`: trees without NUL that are fed alike agree on all of these.
   */
  lemma FingerprintSeesTree(t: Tree<string>, u: Tree<string>, functional: bool)
    requires NulFree(ViewOf(t, functional)) && NulFree(ViewOf(u, functional))
    ensures Serialize(ViewOf(t, functional)) == Serialize(ViewOf(u, functional)) <==>
      forall p: Path :: ".git" !in p && (functional ==> "AGENTS.md" !in p && "governance" !in p) ==> SameFile(t, u, p)
  {
    hide NulFree, Serialize;
    SerializationIsFaithful(ViewOf(t, functional), ViewOf(u, functional));
    forall p: Path
      ensures Included(p, functional) <==> ".git" !in p && (functional ==> "AGENTS.md" !in p && "governance" !in p)
    {
    }
    var v, w := ViewOf(t, functional), ViewOf(u, functional);
    if forall p: Path :: Included(p, functional) ==> SameFile(t, u, p) {
      assert forall p :: p in v <==> p in w;
      assert v.Keys == w.Keys;
    }
    if v == w {
      forall p: Path | Included(p, functional)
        ensures SameFile(t, u, p)
      {
        assert p in v <==> p in t.files;
        assert p in w <==> p in u.files;
      }
    }
  }

  predicate SameFile(t: Tree<string>, u: Tree<string>, p: Path) {
    (p in t.files <==> p in u.files) && (p in t.files && p in u.files ==> t.files[p] == u.files[p])
  }

  // ---------------------------------------------------------------- which views exist

  /** File names that a POSIX file system allows, only covered paths, and no file below another. */
  ghost predicate PossibleView(view: map<Path, string>, functional: bool) {
    && (forall p :: p in view ==> ValidPath(p) && Included(p, functional))
    && (forall p, q :: p in view && q in view && p <= q ==> p == q)
  }

  ghost function Above(view: map<Path, string>): set<Path> {
    {[]} + (set p, n | p in view && 0 <= n < |p| :: p[..n])
  }

  lemma FilesAreNotAbove(view: map<Path, string>, functional: bool, p: Path)
    requires PossibleView(view, functional) && p in view
    ensures p != [] && Init(p) in Above(view) && p !in Above(view)
  {
    hide Included, NormalName;
    assert ValidPath(p);
    assert Init(p) == p[..|p| - 1];
  }

  lemma AboveIsClosed(view: map<Path, string>, d: Path)
    requires d in Above(view) && d != []
    ensures Init(d) in Above(view)
  {
    var p, n :| p in view && 0 <= n < |p| && d == p[..n];
    assert Init(d) == p[..n - 1];
  }

  /** Every possible view is the view of some tree. */
  lemma PossibleViewsExist(view: map<Path, string>, functional: bool) returns (t: Tree<string>)
    requires PossibleView(view, functional)
    ensures t.Valid() && ViewOf(t, functional) == view
  {
    t := Tree(view, Above(view));
    assert [] in Above(view);
    assert ViewOf(t, functional).Keys == view.Keys;
    hide Included, ValidPath, Above, ViewOf;
    forall p | p in view
      ensures p != [] && Init(p) in t.dirs && p !in t.dirs
    {
      FilesAreNotAbove(view, functional, p);
    }
    forall d | d in t.dirs && d != []
      ensures Init(d) in t.dirs
    {
      AboveIsClosed(view, d);
    }
    assert ViewOf(t, functional) == view by { ViewKeepsContent(t, functional); }
  }

  lemma ViewKeepsContent(t: Tree<string>, functional: bool)
    requires ViewOf(t, functional).Keys == t.files.Keys
    ensures ViewOf(t, functional) == t.files
  {
  }

  lemma {:induction false} AncestorsAreDirs(t: Tree<string>, p: Path, n: nat)
    requires t.Valid() && n < |p| && (p in t.files || p in t.dirs)
    ensures p[..n] in t.dirs
    decreases |p| - n
  {
    if n == |p| - 1 {
      assert p[..n] == Init(p);
    } else {
      AncestorsAreDirs(t, p, n + 1);
      assert Init(p[..n + 1]) == p[..n];
    }
  }

  /** Every tree with file names that a POSIX file system allows has a possible view. */
  lemma ViewsArePossible(t: Tree<string>, functional: bool)
    requires t.Valid() && forall p :: p in t.files ==> ValidPath(p)
    ensures PossibleView(ViewOf(t, functional), functional)
  {
    var view := ViewOf(t, functional);
    forall p, q | p in view && q in view && p <= q
      ensures p == q
    {
      assert p == q[..|p|];
      if |p| < |q| {
        AncestorsAreDirs(t, q, |p|);
      }
    }
  }

  // ---------------------------------------------------------------- twins

  /** Another possible view is fed to the digest as the same bytes. */
  ghost predicate HasTwin(view: map<Path, string>, functional: bool) {
    exists w :: PossibleView(w, functional) && w != view && Serialize(w) == Serialize(view)
  }

  /** The content of the file p holds, between two NULs, a covered path that a file after p could have. */
  ghost predicate HidesFile(p: Path, content: string, functional: bool, before: string, q: Path, after: string) {
    && content == before + [NUL] + PosixString(q) + [NUL] + after
    && ValidPath(q) && Included(q, functional) && PathLe(p, q) && !(p <= q)
  }

  lemma {:induction false} SerializedAgrees(v: map<Path, string>, w: map<Path, string>, paths: seq<Path>)
    requires forall i :: 0 <= i < |paths| ==> paths[i] in v && paths[i] in w && v[paths[i]] == w[paths[i]]
    ensures Serialized(v, paths) == Serialized(w, paths)
  {
    hide PosixString;
    if paths != [] {
      SerializedAgrees(v, w, Init(paths));
    }
  }

  /** Two files in a row are fed like the first alone, with the second appended to its content. */
  lemma AbsorbedChunk(v: map<Path, string>, w: map<Path, string>, a: Path, b: Path)
    requires a in v && b in v && a in w && w[a] == v[a] + [NUL] + PosixString(b) + [NUL] + v[b]
    ensures Chunk(w, a) == Chunk(v, a) + Chunk(v, b)
  {
    hide PosixString;
  }

  /** The view in which file a has absorbed file b. */
  function Absorbing(view: map<Path, string>, a: Path, b: Path): map<Path, string>
    requires a in view && b in view
  {
    (view - {b})[a := view[a] + [NUL] + PosixString(b) + [NUL] + view[b]]
  }

  lemma AbsorbingIsPossible(view: map<Path, string>, functional: bool, a: Path, b: Path)
    requires PossibleView(view, functional) && a in view && b in view && a != b
    ensures var w := Absorbing(view, a, b); PossibleView(w, functional) && w != view && w.Keys == view.Keys - {b}
  {
    hide PosixString, Included, ValidPath;
    var w := Absorbing(view, a, b);
    assert b in view && b !in w;
    assert w.Keys == view.Keys - {b};
  }

  /** The last file of a list is fed alike when the file before it has absorbed it. */
  lemma AbsorbedAtEnd(view: map<Path, string>, paths: seq<Path>)
    requires |paths| >= 2 && (forall i :: 0 <= i < |paths| ==> paths[i] in view)
    requires forall i, j :: 0 <= i < j < |paths| ==> paths[i] != paths[j]
    ensures var w := Absorbing(view, Last(Init(paths)), Last(paths));
      && (forall i :: 0 <= i < |paths| - 1 ==> paths[i] in w)
      && Serialized(w, Init(paths)) == Serialized(view, paths)
  {
    hide PosixString, Serialized, Chunk;
    var front, b := Init(paths), Last(paths);
    var rest, a := Init(front), Last(front);
    var w := Absorbing(view, a, b);
    forall i | 0 <= i < |rest|
      ensures rest[i] in w && rest[i] in view && w[rest[i]] == view[rest[i]]
    {
      assert rest[i] == paths[i] && paths[|paths| - 2] == a && paths[|paths| - 1] == b;
    }
    SerializedAgrees(w, view, rest);
    SerializedSnoc(view, paths);
    SerializedSnoc(view, front);
    SerializedSnoc(w, front);
    AbsorbedChunk(view, w, a, b);
  }

  /** The last file of a view is absorbed by the file before it. */
  lemma TwinOfMany(view: map<Path, string>, functional: bool) returns (w: map<Path, string>)
    requires PossibleView(view, functional) && |view| >= 2
    ensures PossibleView(w, functional) && w != view && Serialize(w) == Serialize(view)
  {
    hide PathLe, Serialized, PossibleView, Absorbing, SortedSet, TotalOrder, Sorted;
    var paths := SortedSet(view.Keys, PathLe);
    PathLeIsOrder();
    SortedKeys(view);
    InitOfSortedSet(view.Keys, PathLe);
    var a, b := Last(Init(paths)), Last(paths);
    assert paths[|paths| - 2] == a;
    w := Absorbing(view, a, b);
    AbsorbingIsPossible(view, functional, a, b);
    AbsorbedAtEnd(view, paths);
  }

  lemma OnlyFile(view: map<Path, string>, p: Path)
    requires view.Keys == {p}
    ensures Serialize(view) == Chunk(view, p)
  {
    hide PathLe, Chunk;
    PathLeIsOrder();
    SortedListIsSortedSet([p], view.Keys, PathLe);
    SerializedSnoc(view, [p]);
    assert Init([p]) == [];
    OnlyEmptyIsEmpty(view, []);
  }

  lemma TwoFiles(w: map<Path, string>, p: Path, q: Path)
    requires w.Keys == {p, q} && p != q && PathLe(p, q)
    ensures Serialize(w) == Chunk(w, p) + Chunk(w, q)
  {
    hide PathLe, PosixString, Serialized, Chunk;
    PathLeIsOrder();
    SortedListIsSortedSet([p, q], w.Keys, PathLe);
    SerializedSnoc(w, [p, q]);
    SerializedSnoc(w, [p]);
    assert Init([p, q]) == [p] && Init([p]) == [];
    OnlyEmptyIsEmpty(w, []);
  }

  lemma TwoFilesArePossible(p: Path, q: Path, functional: bool, x: string, y: string)
    requires ValidPath(p) && ValidPath(q) && Included(p, functional) && Included(q, functional) && PathLe(p, q) && !(p <= q)
    ensures PossibleView(map[p := x, q := y], functional)
  {
    hide PathLe, ValidPath, Included;
    PathLeIsOrder();
    if q <= p {
      PrefixIsLess(q, p);
    }
  }

  /** A single file that hides another is fed like the two of them. */
  lemma TwinOfOne(view: map<Path, string>, functional: bool, p: Path, before: string, q: Path, after: string)
    requires PossibleView(view, functional) && view.Keys == {p} && HidesFile(p, view[p], functional, before, q, after)
    ensures HasTwin(view, functional)
  {
    var w: map<Path, string> := map[p := before, q := after];
    assert p in view;
    TwoFilesArePossible(p, q, functional, before, after);
    hide PathLe, PosixString, Chunk, PossibleView, Serialize;
    assert w.Keys == {p, q} && q !in view && q in w;
    TwoFiles(w, p, q);
    OnlyFile(view, p);
    AbsorbedChunk(w, view, p, q);
  }

  lemma {:induction false} PrefixIsLess(p: Path, q: Path)
    requires p <= q
    ensures PathLe(p, q)
  {
    if p != [] {
      PrefixIsLess(p[1..], q[1..]);
    }
  }

  /** What is fed like a single file starts with that file's path. */
  lemma FirstOfTwin(view: map<Path, string>, p: Path, w: map<Path, string>, paths: seq<Path>)
    requires p in view && ValidPath(p) && paths != [] && forall i :: 0 <= i < |paths| ==> paths[i] in w && ValidPath(paths[i])
    requires Chunk(view, p) == Serialized(w, paths)
    ensures paths[0] == p && view[p] + [NUL] == w[p] + [NUL] + Serialized(w, paths[1..])
  {
    hide PosixString, Serialized, Chunk, ValidPath;
    var first, rest := paths[0], Serialized(w, paths[1..]);
    SerializedFromFront(w, paths);
    ChunkInFields(w, first, rest);
    ChunkInFields(view, p, "");
    assert Chunk(view, p) + "" == Chunk(view, p) && view[p] + [NUL] + "" == view[p] + [NUL];
    PosixStringHasNoNul(p);
    PosixStringHasNoNul(first);
    Delimited(PosixString(p), view[p] + [NUL] + "", PosixString(first), w[first] + [NUL] + rest, NUL);
    PosixStringInjective(p, first);
  }

  /** The second file of a twin is hidden in the single file. */
  lemma SecondIsHidden(content: string, w: map<Path, string>, p: Path, paths: seq<Path>) returns (after: string)
    requires |paths| >= 2 && p in w && forall i :: 0 <= i < |paths| ==> paths[i] in w
    requires content + [NUL] == w[p] + [NUL] + Serialized(w, paths[1..])
    ensures content == w[p] + [NUL] + PosixString(paths[1]) + [NUL] + after
  {
    hide PosixString, Serialized, Chunk;
    var q, tail := paths[1], paths[1..];
    assert tail[0] == q;
    SerializedFromFront(w, tail);
    var rest := Serialized(w, tail[1..]);
    ChunkInFields(w, q, rest);
    after := Init(w[q] + [NUL] + rest);
    HiddenContent(content, w[p], PosixString(q), w[q] + [NUL] + rest);
  }

  /** Whatever else is fed like a single file comes from a file hidden in it. */
  lemma TwinHides(view: map<Path, string>, functional: bool, p: Path, w: map<Path, string>) returns (before: string, q: Path, after: string)
    requires PossibleView(view, functional) && view.Keys == {p}
    requires PossibleView(w, functional) && w != view && Serialize(w) == Serialize(view)
    ensures HidesFile(p, view[p], functional, before, q, after)
  {
    hide PathLe, PosixString, Chunk, Included, ValidPath, Serialized, TotalOrder, SortedSet;
    OnlyFile(view, p);
    var paths := SortedSet(w.Keys, PathLe);
    SortedKeys(w);
    assert p in view;
    ChunkIsNotEmpty(view, p);
    OnlyEmptyIsEmpty(w, paths);
    FirstOfTwin(view, p, w, paths);
    if |paths| == 1 {
      assert paths[1..] == [];
      SingleTwin(view, p, w, paths);
      assert false;
    }
    before, q := w[p], paths[1];
    after := SecondIsHidden(view[p], w, p, paths);
    assert PathLe(p, q) by { FirstIsLeast(w, paths); }
  }

  lemma FirstIsLeast(w: map<Path, string>, paths: seq<Path>)
    requires paths == SortedSet(w.Keys, PathLe) && |paths| >= 2
    ensures PathLe(paths[0], paths[1])
  {
    PathLeIsOrder();
    SortedSetElements(w.Keys, PathLe);
  }

  lemma ChunkIsNotEmpty(view: map<Path, string>, p: Path)
    requires p in view
    ensures Chunk(view, p) != ""
  {
  }

  lemma SingleTwin(view: map<Path, string>, p: Path, w: map<Path, string>, paths: seq<Path>)
    requires view.Keys == {p} && Enumerates(paths, w.Keys) && |paths| == 1 && paths[0] == p && p in w
    requires view[p] + [NUL] == w[p] + [NUL] + Serialized(w, [])
    ensures w == view
  {
    assert Serialized(w, []) == "" && view[p] + [NUL] == w[p] + [NUL];
    assert view[p] == (view[p] + [NUL])[..|view[p]|] && w[p] == (w[p] + [NUL])[..|w[p]|];
    assert forall x :: x in w ==> x in paths && x == p;
    assert w.Keys == {p};
  }

  lemma HiddenContent(content: string, before: string, name: string, tail: string)
    requires tail != "" && content + [NUL] == before + [NUL] + (name + [NUL] + tail)
    ensures content == before + [NUL] + name + [NUL] + Init(tail)
  {
    var whole := before + [NUL] + (name + [NUL] + tail);
    assert content == whole[..|whole| - 1];
    assert whole == before + [NUL] + name + [NUL] + tail;
  }

  /**
    The digested bytes fail to determine the view of a tree if and only if it has two or more files,
    or one that hides another in its content.
   */
  lemma AmbiguousIffHiding(view: map<Path, string>, functional: bool)
    requires PossibleView(view, functional)
    ensures HasTwin(view, functional) <==>
      || |view| >= 2
      || (exists p, before, q, after :: p in view && HidesFile(p, view[p], functional, before, q, after))
  {
    hide HidesFile, PossibleView;
    if |view| >= 2 {
      var w := TwinOfMany(view, functional);
    } else if |view| == 0 {
      NoFilesNoTwin(view, functional);
    } else {
      var p :| p in view.Keys;
      assert view.Keys == {p} by { OneElement(view.Keys, p); }
      if HasTwin(view, functional) {
        var w :| PossibleView(w, functional) && w != view && Serialize(w) == Serialize(view);
        var before, q, after := TwinHides(view, functional, p, w);
      }
      if o, before, q, after :| o in view && HidesFile(o, view[o], functional, before, q, after) {
        TwinOfOne(view, functional, p, before, q, after);
      }
    }
  }

  lemma OneElement<T>(s: set<T>, x: T)
    requires |s| == 1 && x in s
    ensures s == {x}
  {
    assert |s - {x}| == 0;
  }

  lemma NoFilesNoTwin(view: map<Path, string>, functional: bool)
    requires |view| == 0
    ensures !HasTwin(view, functional)
  {
    hide PathLe, Serialized;
    forall w | Serialize(w) == Serialize(view)
      ensures w == view
    {
      SortedKeys(w);
      SortedKeys(view);
      OnlyEmptyIsEmpty(w, SortedSet(w.Keys, PathLe));
      OnlyEmptyIsEmpty(view, SortedSet(view.Keys, PathLe));
      LengthOfEnumeration(SortedSet(view.Keys, PathLe), view.Keys);
      LengthOfEnumeration(SortedSet(w.Keys, PathLe), w.Keys);
      assert w.Keys == {} && view.Keys == {};
    }
  }

  /** One file that is fed to the digest exactly like two. */
  lemma NulMakesFingerprintsAmbiguous()
    ensures
      var one: map<Path, string> := map[["a"] := ['x', NUL, 'b', NUL, 'y']];
      var two: map<Path, string> := map[["a"] := "x", ["b"] := "y"];
      one != two && Serialize(one) == Serialize(two)
  {
    var a, b: Path := ["a"], ["b"];
    var one: map<Path, string> := map[a := ['x', NUL, 'b', NUL, 'y']];
    var two: map<Path, string> := map[a := "x", b := "y"];
    assert PosixString(b) == "b" && a[0] != b[0];
    FirstLetters();
    hide PathLe, Serialize, Chunk;
    assert two.Keys == {a, b} && one.Keys == {a} && b !in one;
    TwoFiles(two, a, b);
    OnlyFile(one, a);
    assert one[a] == two[a] + [NUL] + "b" + [NUL] + two[b];
    AbsorbedChunk(two, one, a, b);
  }

  lemma FirstLetters()
    ensures PathLe(["a"], ["b"])
  {
    assert ["a"][0] != ["b"][0];
  }
}
