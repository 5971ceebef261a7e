/** `_format_files` of benchmarks/s4/operationalization.py. */
module ContextFormat {
  import opened Prelude

  datatype File = File(path: string, content: string)

  function Piece(f: File): string {
    "\n--- " + f.path + " ---\n" + f.content + "\n"
  }

  /** `"".join(pieces)` */
  function Join(pieces: seq<string>): string {
    if pieces == [] then "" else Join(Init(pieces)) + Last(pieces)
  }

  /** The unbounded text: every file in full. */
  function FullText(files: seq<File>): string {
    if files == [] then "" else FullText(Init(files)) + Piece(Last(files))
  }

  /** Python's `s[:limit]`. */
  function Head(s: string, limit: int): string {
    if limit >= |s| then s
    else if limit >= 0 then s[..limit]
    else if |s| + limit >= 0 then s[..|s| + limit]
    else ""
  }

  function Max(a: int, b: int): int {
    if a < b then b else a
  }

  lemma {:induction false} FullTextGrows(files: seq<File>, n: nat)
    requires n <= |files|
    ensures FullText(files[..n]) <= FullText(files)
    ensures n < |files| ==> |FullText(files[..n])| < |FullText(files)|
  {
    if n < |files| {
      FullTextGrows(Init(files), n);
      assert Init(files)[..n] == files[..n];
    } else {
      assert files[..n] == files;
    }
  }

  lemma FullTextStep(files: seq<File>, i: nat)
    requires i < |files|
    ensures FullText(files[..i + 1]) == FullText(files[..i]) + Piece(files[i])
  {
    assert Init(files[..i + 1]) == files[..i];
  }

  lemma NoFiles()
    ensures FullText([]) == ""
  {
  }

  /** The bounded formatter returns the first `limit` characters of the full text, and says whether it cut. */
  method FormatFiles(files: seq<File>, limit: int) returns (payload: string, truncated: bool)
    ensures payload == Head(FullText(files), Max(limit, 0))
    ensures truncated <==> |FullText(files)| > Max(limit, 0)
  {
    hide Piece, FullText;
    var pieces: seq<string> := [];
    var used := 0;
    truncated := false;
    var i := 0;
    assert FullText([]) == "" by { NoFiles(); }
    assert files[..0] == [];
    while i < |files| && !truncated
      invariant 0 <= i <= |files|
      invariant !truncated ==> Join(pieces) == FullText(files[..i]) && used == |Join(pieces)| <= Max(limit, 0)
      invariant truncated ==> Join(pieces) <= FullText(files) && |Join(pieces)| == Max(limit, 0) < |FullText(files)|
      decreases |files| - i, !truncated
    {
      var piece := Piece(files[i]);
      var remaining := limit - used;
      FullTextStep(files, i);
      FullTextGrows(files, i);
      FullTextGrows(files, i + 1);
      if remaining <= 0 {
        truncated := true;
      } else if |piece| > remaining {
        ghost var before := pieces;
        pieces := pieces + [piece[..remaining]];
        assert Init(pieces) == before;
        assert Join(before) + piece[..remaining] <= Join(before) + piece;
        truncated := true;
      } else {
        ghost var before := pieces;
        pieces := pieces + [piece];
        assert Init(pieces) == before;
        used := used + |piece|;
        i := i + 1;
      }
    }
    payload := Join(pieces);
    if truncated {
      payload := Head(payload, limit);
    } else {
      assert files[..|files|] == files;
    }
  }

  /** The full text of two files: each under its own heading, in the order given. */
  lemma TextOfTwo(p: string, x: string, q: string, y: string)
    ensures FullText([File(p, x), File(q, y)]) ==
      "\n--- " + p + " ---\n" + x + "\n" + "\n--- " + q + " ---\n" + y + "\n"
  {
    var files := [File(p, x), File(q, y)];
    assert Init(files) == [File(p, x)] && Init([File(p, x)]) == [];
    assert FullText([File(p, x)]) == "" + Piece(File(p, x));
  }
}
