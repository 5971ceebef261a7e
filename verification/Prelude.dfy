/** Option, Result and a few facts about sequences shared by the other modules. */
module Prelude {

  datatype Option<+T> = None | Some(value: T)

  /** A Python call that either returns or raises. */
  datatype Result<+T, +E> = Ok(value: T) | Err(error: E)

  function Last<T>(s: seq<T>): T
    requires s != []
  {
    s[|s| - 1]
  }

  function Init<T>(s: seq<T>): seq<T>
    requires s != []
  {
    s[..|s| - 1]
  }

  /** Keep the elements that satisfy `p`, in their original order. */
  function Filter<T>(s: seq<T>, p: T -> bool): seq<T> {
    if s == [] then []
    else if p(Last(s)) then Filter(Init(s), p) + [Last(s)]
    else Filter(Init(s), p)
  }

  function Map<T, U>(s: seq<T>, f: T -> U): (r: seq<U>)
    ensures |r| == |s|
    ensures forall i :: 0 <= i < |s| ==> r[i] == f(s[i])
  {
    seq(|s|, i requires 0 <= i < |s| => f(s[i]))
  }

  /** `part in s` for strings. */
  predicate Contains(s: string, part: string) {
    |part| <= |s| && (s[..|part|] == part || (s != [] && Contains(s[1..], part)))
  }

  /** `part` occurs in `s` at position i. */
  predicate MatchAt(s: string, part: string, i: nat) {
    i + |part| <= |s| && s[i..i + |part|] == part
  }

  lemma MatchShifts(s: string, part: string, i: nat)
    requires 0 < i && s != ""
    ensures MatchAt(s, part, i) <==> MatchAt(s[1..], part, i - 1)
  {
    if i + |part| <= |s| {
      var end := i + |part|;
      assert s[1..][i - 1..end - 1] == s[i..end];
    }
  }

  /** A part is contained exactly when it occurs at some position. */
  lemma {:induction false} ContainsIffOccurs(s: string, part: string)
    ensures Contains(s, part) <==> exists i: nat :: MatchAt(s, part, i)
  {
    if |part| <= |s| && s[..|part|] == part {
      assert MatchAt(s, part, 0);
    } else if s != [] {
      ContainsIffOccurs(s[1..], part);
      if Contains(s[1..], part) {
        var i: nat :| MatchAt(s[1..], part, i);
        MatchShifts(s, part, i + 1);
      }
      if i: nat :| MatchAt(s, part, i) {
        MatchShifts(s, part, i);
      }
    }
  }
}
