/** Python's `str.count` and `str.replace`, and the newline translation of `Path.read_text`. */
module TextEdit {
  import opened Prelude

  /** The first position at which `part` occurs. */
  function Find(s: string, part: string): Option<nat> {
    if |part| > |s| then None
    else if s[..|part|] == part then Some(0)
    else if s == "" then None
    else match Find(s[1..], part)
      case None => None
      case Some(i) => Some(i + 1)
  }

  /** `s.count(part)`: occurrences that do not overlap, from the left. */
  function Count(s: string, part: string): nat
    decreases |s|
  {
    if part == "" then |s| + 1 else
    match Find(s, part)
    case None => 0
    case Some(i) => if i + |part| <= |s| then 1 + Count(s[i + |part|..], part) else 0
  }

  /** `s.replace(part, new)` */
  function Replace(s: string, part: string, new_: string): string
    decreases |s|
  {
    if part == "" then Interleave(s, new_) else
    match Find(s, part)
    case None => s
    case Some(i) => if i + |part| <= |s| then s[..i] + new_ + Replace(s[i + |part|..], part, new_) else s
  }

  function Interleave(s: string, new_: string): string {
    if s == "" then new_ else new_ + [s[0]] + Interleave(s[1..], new_)
  }

  lemma {:induction false} FindIsFirst(s: string, part: string)
    ensures Find(s, part).Some? ==> MatchAt(s, part, Find(s, part).value)
    ensures forall i :: 0 <= i && (Find(s, part).None? || i < Find(s, part).value) ==> !MatchAt(s, part, i)
  {
    if |part| <= |s| && s[..|part|] != part && s != "" {
      FindIsFirst(s[1..], part);
      forall i | 0 < i
        ensures MatchAt(s, part, i) <==> MatchAt(s[1..], part, i - 1)
      {
        MatchShifts(s, part, i);
      }
      if Find(s, part).Some? {
        assert MatchAt(s[1..], part, Find(s, part).value - 1);
      }
      forall i | 0 <= i && (Find(s, part).None? || i < Find(s, part).value)
        ensures !MatchAt(s, part, i)
      {
        if i > 0 {
          assert !MatchAt(s[1..], part, i - 1);
        }
      }
    }
  }

  /** `r` is `s` with the match of `part` at position i replaced, and all else as it was. */
  predicate SplicedAt(s: string, part: string, new_: string, i: nat, r: string) {
    MatchAt(s, part, i) && r == s[..i] + new_ + s[i + |part|..]
  }

  /** `r` is `s` with `part` at position i, its first occurrence and the only one counted, replaced. */
  ghost predicate IsSplice(s: string, part: string, new_: string, i: nat, r: string) {
    && SplicedAt(s, part, new_, i, r)
    && (forall j :: 0 <= j < i ==> !MatchAt(s, part, j))
    && (part != "" ==> forall j :: i + |part| <= j ==> !MatchAt(s, part, j))
  }

  /** Occurrences at or after position m are those in the rest of the text. */
  lemma NoLaterMatch(s: string, part: string, m: nat, j: nat)
    requires m <= |s| && m <= j && Find(s[m..], part).None?
    ensures !MatchAt(s, part, j)
  {
    FindIsFirst(s[m..], part);
    assert !MatchAt(s[m..], part, j - m);
    if j + |part| <= |s| {
      assert s[j..j + |part|] == s[m..][j - m..j - m + |part|];
    }
  }

  lemma CountNone(s: string, part: string)
    requires part != "" && Count(s, part) == 0
    ensures Find(s, part).None?
  {
    FindIsFirst(s, part);
  }

  /** A text in which `part` is counted once is replaced exactly at that one match. */
  lemma ReplaceOnce(s: string, part: string, new_: string)
    requires Count(s, part) == 1
    ensures Find(s, part).Some? && IsSplice(s, part, new_, Find(s, part).value, Replace(s, part, new_))
  {
    FindIsFirst(s, part);
    if part == "" {
      assert s == "" && Find(s, part) == Some(0);
    } else {
      var i := Find(s, part).value;
      ReplacesAtFirst(s, part, new_, i);
      hide Find, Count, Replace, MatchAt;
      forall j | i + |part| <= j
        ensures !MatchAt(s, part, j)
      {
        NoLaterMatch(s, part, i + |part|, j);
      }
    }
  }

  lemma ReplacesAtFirst(s: string, part: string, new_: string, i: nat)
    requires part != "" && Count(s, part) == 1 && Find(s, part) == Some(i) && MatchAt(s, part, i)
    ensures Find(s[i + |part|..], part).None? && Replace(s, part, new_) == s[..i] + new_ + s[i + |part|..]
  {
    hide Find, MatchAt;
    var rest := s[i + |part|..] by { MatchEnds(s, part, i); }
    CountNone(rest, part);
    assert Replace(rest, part, new_) == rest;
  }

  lemma MatchEnds(s: string, part: string, i: nat)
    requires MatchAt(s, part, i)
    ensures i + |part| <= |s|
  {
  }

  /** The part occurs at i, nowhere before, and nowhere from the end of that match on. */
  ghost predicate OnlyMatch(s: string, part: string, i: nat) {
    MatchAt(s, part, i) && (forall j :: 0 <= j < i ==> !MatchAt(s, part, j)) && (forall j :: i + |part| <= j && i < j ==> !MatchAt(s, part, j))
  }

  /** A part is counted once exactly when it has an only match. */
  lemma CountedOnceIff(s: string, part: string)
    ensures Count(s, part) == 1 <==> exists i: nat :: OnlyMatch(s, part, i)
  {
    FindIsFirst(s, part);
    if part == "" {
      EmptyPartOnce(s);
    } else {
      if Count(s, part) == 1 {
        ReplaceOnce(s, part, "");
        assert OnlyMatch(s, part, Find(s, part).value);
      }
      if i: nat :| OnlyMatch(s, part, i) {
        assert Find(s, part) == Some(i);
        NoMatchLeft(s, part, i + |part|);
      }
    }
  }

  lemma EmptyPartOnce(s: string)
    ensures Count(s, "") == 1 <==> exists i: nat :: OnlyMatch(s, "", i)
  {
    assert MatchAt(s, "", 0);
    if s == "" {
      assert OnlyMatch(s, "", 0);
    } else {
      assert MatchAt(s, "", 1);
    }
  }

  lemma NoMatchLeft(s: string, part: string, m: nat)
    requires m <= |s| && part != "" && forall j :: m <= j ==> !MatchAt(s, part, j)
    ensures Count(s[m..], part) == 0
  {
    FindIsFirst(s[m..], part);
    if Find(s[m..], part).Some? {
      var i := Find(s[m..], part).value;
      assert s[m..][i..i + |part|] == s[m + i..m + i + |part|];
      assert MatchAt(s, part, m + i);
    }
  }

  // ---------------------------------------------------------------- newline translation

  /** `read_text()` translates "\\r\\n" and "\\r" to "\\n". */
  function ReadText(s: string): string {
    if s == "" then ""
    else if s[0] == '\r' then ['\n'] + ReadText(if |s| > 1 && s[1] == '\n' then s[2..] else s[1..])
    else [s[0]] + ReadText(s[1..])
  }

  lemma {:induction false} ReadTextShrinks(s: string)
    ensures |ReadText(s)| <= |s| && '\r' !in ReadText(s)
  {
    if s != "" {
      ReadTextShrinks(if s[0] == '\r' && |s| > 1 && s[1] == '\n' then s[2..] else s[1..]);
    }
  }

  /** Reading a file as text returns it unchanged exactly when it holds no carriage return. */
  lemma {:induction false} ReadTextIsExact(s: string)
    ensures ReadText(s) == s <==> '\r' !in s
  {
    if s != "" {
      ReadTextIsExact(s[1..]);
      ReadTextShrinks(s);
      assert s == [s[0]] + s[1..];
      if s[0] != '\r' {
        assert ReadText(s)[1..] == ReadText(s[1..]);
      }
    }
  }

  /** The number of carriage returns. */
  function Returns(s: string): nat {
    if s == "" then 0 else Returns(s[1..]) + if s[0] == '\r' then 1 else 0
  }

  lemma {:induction false} ReturnsOfConcat(a: string, b: string)
    ensures Returns(a + b) == Returns(a) + Returns(b)
  {
    if a == "" {
      assert a + b == b;
    } else {
      assert (a + b)[1..] == a[1..] + b;
      ReturnsOfConcat(a[1..], b);
    }
  }

  lemma {:induction false} NoReturns(s: string)
    ensures Returns(s) == 0 <==> '\r' !in s
  {
    if s != "" {
      NoReturns(s[1..]);
      assert s == [s[0]] + s[1..];
    }
  }

  /** A splice trades the carriage returns of the match for those of the new text. */
  lemma ReturnsOfSplice(s: string, part: string, new_: string, i: nat, r: string)
    requires SplicedAt(s, part, new_, i, r)
    ensures Returns(r) + Returns(part) == Returns(s) + Returns(new_)
  {
    var before, after := s[..i], s[i + |part|..];
    assert s == before + part + after;
    ReturnsOfConcat(before + part, after);
    ReturnsOfConcat(before, part);
    ReturnsOfConcat(before + new_, after);
    ReturnsOfConcat(before, new_);
  }

  /**
    A text read with newline translation, spliced and written back is a splice of the file itself if
    and only if the file holds no carriage return.
   */
  lemma SpliceOfFile(file: string, part: string, new_: string, i: nat, r: string)
    requires SplicedAt(ReadText(file), part, new_, i, r)
    ensures (exists k: nat :: SplicedAt(file, part, new_, k, r)) <==> '\r' !in file
  {
    hide SplicedAt, ReadText, Returns;
    ReadTextIsExact(file);
    if '\r' !in file {
      assert SplicedAt(file, part, new_, i, r);
    } else if k: nat :| SplicedAt(file, part, new_, k, r) {
      ReturnsOfSplice(ReadText(file), part, new_, i, r);
      ReturnsOfSplice(file, part, new_, k, r);
      ReadTextShrinks(file);
      NoReturns(ReadText(file));
      NoReturns(file);
      assert false;
    }
  }
}
