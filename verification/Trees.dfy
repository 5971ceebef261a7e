/** A directory tree as pathlib sees it, and the calls that the materializers make on it. */
module Trees {
  import opened Prelude
  import opened Paths

  /** Files with their content, and directories; the root is the directory []. */
  datatype Tree<T> = Tree(files: map<Path, T>, dirs: set<Path>)
  {
    /** Every file and every directory other than the root lies in a directory, and nothing is both. */
    ghost predicate Valid() {
      && [] in dirs && files.Keys !! dirs
      && (forall p :: p in files ==> p != [] && Init(p) in dirs)
      && (forall d :: d in dirs && d != [] ==> Init(d) in dirs)
    }

    predicate Exists(p: Path) {
      p in files || p in dirs
    }

    /** `path.mkdir(parents=True, exist_ok=True)`; `None` is the OSError of a file in the way. */
    function MakeDirs(p: Path): Option<Tree<T>> {
      if p in dirs then Some(this)
      else if p in files || p == [] then None
      else
        match MakeDirs(Init(p))
        case None => None
        case Some(t) => Some(t.(dirs := t.dirs + {p}))
    }

    /** `path.write_text(text)`; `None` is the OSError of a missing parent or of a directory at the path. */
    function WriteText(p: Path, text: T): Option<Tree<T>> {
      if p in dirs || p == [] || Init(p) !in dirs then None else Some(this.(files := files[p := text]))
    }

    /** Create the parent directories, then write. */
    function WriteWithParents(p: Path, text: T): Option<Tree<T>> {
      if p == [] then None else
      match MakeDirs(Init(p))
      case None => None
      case Some(t) => t.WriteText(p, text)
    }
  }

  lemma {:induction false} MakeDirsOnlyAddsDirs<T>(t: Tree<T>, p: Path)
    requires t.Valid() && t.MakeDirs(p).Some?
    ensures var r := t.MakeDirs(p).value;
      r.Valid() && r.files == t.files && t.dirs <= r.dirs && p in r.dirs
  {
    if p !in t.dirs {
      MakeDirsOnlyAddsDirs(t, Init(p));
    }
  }

  lemma {:induction false} MakeDirsAddsPrefixes<T>(t: Tree<T>, p: Path)
    requires t.MakeDirs(p).Some?
    ensures forall d :: d in t.MakeDirs(p).value.dirs && d !in t.dirs ==> d <= p
  {
    if p !in t.dirs {
      MakeDirsAddsPrefixes(t, Init(p));
    }
  }

  /** Directories can be made only with no file in the way. */
  lemma {:induction false} MakeDirsNeedsNoFile<T>(t: Tree<T>, p: Path)
    requires t.Valid() && t.MakeDirs(p).Some?
    ensures forall d :: d <= p ==> d !in t.files
  {
    if p in t.dirs {
      forall d | d <= p
        ensures d !in t.files
      {
        PrefixesAreDirs(t, p, |d|);
        assert d == p[..|d|];
      }
    } else {
      MakeDirsNeedsNoFile(t, Init(p));
      forall d | d <= p && d != p
        ensures d !in t.files
      {
        assert d == Init(p)[..|d|];
      }
    }
  }

  lemma {:induction false} PrefixesAreDirs<T>(t: Tree<T>, p: Path, n: nat)
    requires t.Valid() && p in t.dirs && n <= |p|
    ensures p[..n] in t.dirs
    decreases |p| - n
  {
    if n == |p| {
      assert p[..n] == p;
    } else {
      PrefixesAreDirs(t, p, n + 1);
      assert Init(p[..n + 1]) == p[..n];
    }
  }

  /** With no file in the way, directories can be made. */
  lemma {:induction false} MakeDirsSucceeds<T>(t: Tree<T>, p: Path)
    requires t.Valid() && forall d :: d <= p ==> d !in t.files
    ensures t.MakeDirs(p).Some?
  {
    if p !in t.dirs {
      assert p <= p;
      MakeDirsSucceeds(t, Init(p));
    }
  }

  lemma WriteTextKeepsValid<T>(t: Tree<T>, p: Path, text: T)
    requires t.Valid() && t.WriteText(p, text).Some?
    ensures t.WriteText(p, text).value.Valid()
  {
  }

  /** Writing below new parents adds or replaces exactly one file. */
  lemma WriteWithParentsAddsOne<T>(t: Tree<T>, p: Path, text: T)
    requires t.Valid() && t.WriteWithParents(p, text).Some?
    ensures var r := t.WriteWithParents(p, text).value;
      r.Valid() && p != [] && r.files == t.files[p := text] && t.dirs <= r.dirs
  {
    MakeDirsOnlyAddsDirs(t, Init(p));
    WriteTextKeepsValid(t.MakeDirs(Init(p)).value, p, text);
  }
}
