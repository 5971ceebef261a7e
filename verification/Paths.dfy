/** Relative POSIX paths: `Path(value).parts`, `_safe_relative`, and the order in which trees are listed. */
module Paths {
  import opened Prelude
  import opened Ordering

  /** A path below a root, as its components; the root itself is []. */
  type Path = seq<string>

  /** `value.split("/")` */
  function Split(value: string): (r: seq<string>)
    ensures r != []
  {
    if value == "" then [""] else
    var rest := Split(value[1..]);
    if value[0] == '/' then [""] + rest else [[value[0]] + rest[0]] + rest[1..]
  }

  function Components(parts: seq<string>): Path {
    if parts == [] then []
    else if parts[0] == "" || parts[0] == "." then Components(parts[1..])
    else [parts[0]] + Components(parts[1..])
  }

  /** `_safe_relative`: absolute paths and parent components are refused; pathlib drops "" and ".". */
  function SafeRelative(value: string): Option<Path> {
    if value != "" && value[0] == '/' then None else
    var path := Components(Split(value));
    if ".." in path then None else Some(path)
  }

  /** The POSIX string of a relative path. */
  function PosixString(path: Path): string {
    if path == [] then "" else if |path| == 1 then path[0] else path[0] + "/" + PosixString(path[1..])
  }

  predicate NormalName(name: string) {
    name != "" && name != "." && name != ".." && '/' !in name
  }

  predicate NormalPath(p: Path) {
    forall i :: 0 <= i < |p| ==> NormalName(p[i])
  }

  lemma {:induction false} SplitHasNoSlash(value: string)
    ensures forall i :: 0 <= i < |Split(value)| ==> '/' !in Split(value)[i]
  {
    if value != "" {
      SplitHasNoSlash(value[1..]);
    }
  }

  lemma {:induction false} ComponentsAreParts(parts: seq<string>)
    ensures forall c :: c in Components(parts) ==> c in parts && c != "" && c != "."
  {
    if parts != [] {
      ComponentsAreParts(parts[1..]);
    }
  }

  /** Whatever `_safe_relative` returns is a normal path. */
  lemma SafeRelativeIsNormal(value: string)
    ensures SafeRelative(value).Some? ==> NormalPath(SafeRelative(value).value)
  {
    SplitHasNoSlash(value);
    ComponentsAreParts(Split(value));
    if SafeRelative(value).Some? {
      var p := SafeRelative(value).value;
      assert forall i :: 0 <= i < |p| ==> p[i] in p;
    }
  }

  lemma {:induction false} SplitOfName(name: string)
    requires '/' !in name
    ensures Split(name) == [name]
  {
    if name != "" {
      SplitOfName(name[1..]);
      assert name == [name[0]] + name[1..];
    }
  }

  lemma {:induction false} SplitAtSlash(name: string, rest: string)
    requires '/' !in name
    ensures Split(name + "/" + rest) == [name] + Split(rest)
  {
    var value := name + "/" + rest;
    if name == "" {
      assert value[1..] == rest;
    } else {
      SplitAtSlash(name[1..], rest);
      assert value[1..] == name[1..] + "/" + rest;
      assert name == [name[0]] + name[1..];
    }
  }

  lemma {:induction false} SplitOfPosix(p: Path)
    requires p != [] && NormalPath(p)
    ensures Split(PosixString(p)) == p
  {
    assert NormalName(p[0]);
    if |p| == 1 {
      SplitOfName(p[0]);
    } else {
      assert forall i :: 0 <= i < |p| - 1 ==> p[1..][i] == p[i + 1];
      SplitOfPosix(p[1..]);
      SplitAtSlash(p[0], PosixString(p[1..]));
      assert p == [p[0]] + p[1..];
    }
  }

  lemma {:induction false} ComponentsOfNormal(p: Path)
    requires NormalPath(p)
    ensures Components(p) == p
  {
    if p != [] {
      assert NormalName(p[0]);
      assert forall i :: 0 <= i < |p| - 1 ==> p[1..][i] == p[i + 1];
      ComponentsOfNormal(p[1..]);
      assert p == [p[0]] + p[1..];
    }
  }

  /** A normal path survives being written as a POSIX string and read back. */
  lemma PosixRoundTrip(p: Path)
    requires p != [] && NormalPath(p)
    ensures SafeRelative(PosixString(p)) == Some(p)
  {
    SplitOfPosix(p);
    ComponentsOfNormal(p);
    assert NormalName(p[0]);
    assert PosixString(p)[0] == p[0][0];
    assert forall i :: 0 <= i < |p| ==> NormalName(p[i]);
  }

  /** pathlib's order: component by component. */
  predicate PathLe(a: Path, b: Path) {
    a == [] || (b != [] && (if a[0] == b[0] then PathLe(a[1..], b[1..]) else StringLe(a[0], b[0])))
  }

  lemma {:induction false} PathLeTotal(a: Path, b: Path)
    ensures PathLe(a, b) || PathLe(b, a)
  {
    if a != [] && b != [] {
      StringLeTotal(a[0], b[0]);
      PathLeTotal(a[1..], b[1..]);
    }
  }

  lemma {:induction false} PathLeTransitive(a: Path, b: Path, c: Path)
    requires PathLe(a, b) && PathLe(b, c)
    ensures PathLe(a, c)
  {
    hide StringLe;
    if a != [] {
      if a[0] == b[0] == c[0] {
        PathLeTransitive(a[1..], b[1..], c[1..]);
      } else if a[0] != b[0] && b[0] != c[0] {
        StringLeTransitive(a[0], b[0], c[0]);
        if a[0] == c[0] {
          StringLeAntisymmetric(a[0], b[0]);
        }
      }
    }
  }

  lemma {:induction false} PathLeAntisymmetric(a: Path, b: Path)
    requires PathLe(a, b) && PathLe(b, a)
    ensures a == b
  {
    hide StringLe;
    if a != [] {
      if a[0] != b[0] {
        StringLeAntisymmetric(a[0], b[0]);
      }
      PathLeAntisymmetric(a[1..], b[1..]);
      assert a == [a[0]] + a[1..] && b == [b[0]] + b[1..];
    }
  }

  lemma PathLeIsOrder()
    ensures TotalOrder(PathLe)
  {
    forall a, b ensures PathLe(a, b) || PathLe(b, a) { PathLeTotal(a, b); }
    forall a, b, c | PathLe(a, b) && PathLe(b, c) ensures PathLe(a, c) { PathLeTransitive(a, b, c); }
    forall a, b | PathLe(a, b) && PathLe(b, a) ensures a == b { PathLeAntisymmetric(a, b); }
  }

  // ---------------------------------------------------------------- sets in sorted order

  /** The elements of a set in some order. */
  ghost function Enumerate<T>(s: set<T>): seq<T> {
    if s == {} then [] else
    var x :| x in s;
    [x] + Enumerate(s - {x})
  }

  ghost predicate Enumerates<T(!new)>(r: seq<T>, s: set<T>) {
    (forall x :: x in r <==> x in s) && forall i, j :: 0 <= i < j < |r| ==> r[i] != r[j]
  }

  lemma {:induction false} EnumerateIsExact<T(!new)>(s: set<T>)
    ensures Enumerates(Enumerate(s), s)
    decreases s
  {
    if s != {} {
      var x := Enumerate(s)[0];
      assert Enumerate(s) == [x] + Enumerate(s - {x});
      EnumerateIsExact(s - {x});
    }
  }

  /** `sorted(s)` for a set, under an order that tells all elements apart. */
  ghost function SortedSet<T(!new)>(s: set<T>, le: (T, T) -> bool): seq<T> {
    Sort(Enumerate(s), le)
  }

  lemma SortedSetIsUnique<T(!new)>(r: seq<T>, s: set<T>, le: (T, T) -> bool)
    requires TotalOrder(le) && Enumerates(r, s)
    ensures Sort(r, le) == SortedSet(s, le)
  {
    EnumerateIsExact(s);
    SortIgnoresOrder(r, Enumerate(s), le);
  }

  lemma SortedSetElements<T(!new)>(s: set<T>, le: (T, T) -> bool)
    requires TotalPreorder(le)
    ensures Enumerates(SortedSet(s, le), s) && Sorted(SortedSet(s, le), le)
  {
    EnumerateIsExact(s);
    SortSorted(Enumerate(s), le);
    SortMembers(Enumerate(s), le);
    SortElements(Enumerate(s), le);
    var r := SortedSet(s, le);
    forall i, j | 0 <= i < j < |r|
      ensures r[i] != r[j]
    {
      if r[i] == r[j] {
        TwiceInMultiset(r, i, j);
        OnceInMultiset(Enumerate(s), r[i]);
        assert false;
      }
    }
  }

  /** A sorted list of a set's elements is the sorted set. */
  lemma SortedListIsSortedSet<T(!new)>(r: seq<T>, s: set<T>, le: (T, T) -> bool)
    requires TotalOrder(le) && Enumerates(r, s) && Sorted(r, le)
    ensures r == SortedSet(s, le)
  {
    SortOfSorted(r, le);
    SortedSetIsUnique(r, s, le);
  }

  lemma {:induction false} LengthOfEnumeration<T(!new)>(r: seq<T>, s: set<T>)
    requires Enumerates(r, s)
    ensures |r| == |s|
  {
    if r == [] {
      assert s == {};
    } else {
      InitEnumerates(r, s);
      LengthOfEnumeration(Init(r), s - {Last(r)});
    }
  }

  lemma InitEnumerates<T(!new)>(r: seq<T>, s: set<T>)
    requires r != [] && Enumerates(r, s)
    ensures Enumerates(Init(r), s - {Last(r)})
  {
    assert r == Init(r) + [Last(r)];
  }

  /** Without its last element, a sorted set is the sorted rest. */
  lemma InitOfSortedSet<T(!new)>(s: set<T>, le: (T, T) -> bool)
    requires TotalOrder(le) && s != {}
    ensures var r := SortedSet(s, le); |r| == |s| && Init(r) == SortedSet(s - {Last(r)}, le)
  {
    var r := SortedSet(s, le);
    SortedSetElements(s, le);
    LengthOfEnumeration(r, s);
    InitEnumerates(r, s);
    SortedListIsSortedSet(Init(r), s - {Last(r)}, le);
  }

  /** `sorted(s)` for a set. */
  method SortSet<T(==, !new)>(s: set<T>, le: (T, T) -> bool) returns (r: seq<T>)
    requires TotalOrder(le)
    ensures r == SortedSet(s, le)
  {
    var unordered: seq<T> := [];
    var rest := s;
    while rest != {}
      invariant rest <= s && Enumerates(unordered, s - rest)
      decreases rest
    {
      var x :| x in rest;
      unordered := unordered + [x];
      rest := rest - {x};
    }
    assert s - rest == s;
    SortedSetIsUnique(unordered, s, le);
    r := Sort(unordered, le);
  }
}
