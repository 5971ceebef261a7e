/** Python's stable `sorted` over a total preorder, and the orders that the harness sorts by. */
module Ordering {
  import opened Prelude

  ghost predicate TotalPreorder<T(!new)>(le: (T, T) -> bool) {
    && (forall a, b :: le(a, b) || le(b, a))
    && (forall a, b, c :: le(a, b) && le(b, c) ==> le(a, c))
  }

  /** An order that tells all elements apart. */
  ghost predicate TotalOrder<T(!new)>(le: (T, T) -> bool) {
    TotalPreorder(le) && forall a, b :: le(a, b) && le(b, a) ==> a == b
  }

  function Insert<T>(x: T, s: seq<T>, le: (T, T) -> bool): seq<T> {
    if s == [] then [x]
    else if le(x, s[0]) then [x] + s
    else [s[0]] + Insert(x, s[1..], le)
  }

  /** `sorted(s, key=...)`, where `le` compares keys: a stable insertion sort. */
  function Sort<T>(s: seq<T>, le: (T, T) -> bool): (r: seq<T>)
    ensures |r| == |s|
  {
    if s == [] then [] else InsertLength(s[0], Sort(s[1..], le), le); Insert(s[0], Sort(s[1..], le), le)
  }

  lemma {:induction false} InsertLength<T>(x: T, s: seq<T>, le: (T, T) -> bool)
    ensures |Insert(x, s, le)| == |s| + 1
  {
    if s != [] && !le(x, s[0]) {
      InsertLength(x, s[1..], le);
    }
  }

  ghost predicate Sorted<T>(s: seq<T>, le: (T, T) -> bool) {
    forall i, j :: 0 <= i < j < |s| ==> le(s[i], s[j])
  }

  predicate SameKey<T>(a: T, b: T, le: (T, T) -> bool) {
    le(a, b) && le(b, a)
  }

  /** The elements whose key equals that of `x`, in their original order. */
  function Class<T>(s: seq<T>, x: T, le: (T, T) -> bool): seq<T> {
    if s == [] then [] else
    (if SameKey(s[0], x, le) then [s[0]] else []) + Class(s[1..], x, le)
  }

  ghost predicate DistinctKeys<T>(s: seq<T>, le: (T, T) -> bool) {
    forall i, j :: 0 <= i < j < |s| ==> !SameKey(s[i], s[j], le)
  }

  // ---------------------------------------------------------------- what sorting does

  lemma {:induction false} InsertElements<T(!new)>(x: T, s: seq<T>, le: (T, T) -> bool)
    ensures multiset(Insert(x, s, le)) == multiset{x} + multiset(s)
  {
    if s != [] && !le(x, s[0]) {
      InsertElements(x, s[1..], le);
      assert s == [s[0]] + s[1..];
    }
  }

  lemma {:induction false} SortElements<T(!new)>(s: seq<T>, le: (T, T) -> bool)
    ensures multiset(Sort(s, le)) == multiset(s)
  {
    if s != [] {
      SortElements(s[1..], le);
      InsertElements(s[0], Sort(s[1..], le), le);
      assert s == [s[0]] + s[1..];
    }
  }

  lemma SortMembers<T(!new)>(s: seq<T>, le: (T, T) -> bool)
    ensures forall x :: x in Sort(s, le) <==> x in s
  {
    SortElements(s, le);
    assert forall x :: x in Sort(s, le) <==> x in multiset(Sort(s, le));
  }

  lemma TwiceInMultiset<T>(s: seq<T>, i: nat, j: nat)
    requires i < j < |s| && s[i] == s[j]
    ensures multiset(s)[s[i]] >= 2
  {
    assert s == s[..j] + [s[j]] + s[j + 1..];
    assert s[i] in s[..j];
  }

  lemma {:induction false} OnceInMultiset<T>(s: seq<T>, x: T)
    requires forall i, j :: 0 <= i < j < |s| ==> s[i] != s[j]
    ensures multiset(s)[x] <= 1
  {
    if s != [] {
      OnceInMultiset(Init(s), x);
      assert s == Init(s) + [Last(s)];
      if Last(s) == x {
        assert x !in Init(s);
      }
    }
  }

  lemma {:induction false} InsertSorted<T(!new)>(x: T, s: seq<T>, le: (T, T) -> bool)
    requires TotalPreorder(le) && Sorted(s, le)
    ensures Sorted(Insert(x, s, le), le)
  {
    if s != [] && !le(x, s[0]) {
      InsertSorted(x, s[1..], le);
      InsertElements(x, s[1..], le);
      var rest := Insert(x, s[1..], le);
      forall k | 0 <= k < |rest|
        ensures le(s[0], rest[k])
      {
        assert rest[k] in multiset(rest);
      }
    }
  }

  lemma {:induction false} SortSorted<T(!new)>(s: seq<T>, le: (T, T) -> bool)
    requires TotalPreorder(le)
    ensures Sorted(Sort(s, le), le)
  {
    if s != [] {
      SortSorted(s[1..], le);
      InsertSorted(s[0], Sort(s[1..], le), le);
    }
  }

  /** Sorting changes nothing about a sorted list. */
  lemma {:induction false} SortOfSorted<T>(s: seq<T>, le: (T, T) -> bool)
    requires Sorted(s, le)
    ensures Sort(s, le) == s
  {
    if s != [] {
      assert Sorted(s[1..], le);
      SortOfSorted(s[1..], le);
      assert s == [s[0]] + s[1..];
    }
  }

  lemma ClassOfCons<T>(x: T, s: seq<T>, y: T, le: (T, T) -> bool)
    ensures Class([x] + s, y, le) == (if SameKey(x, y, le) then [x] else []) + Class(s, y, le)
  {
    hide SameKey;
    assert ([x] + s)[1..] == s;
  }

  lemma OneOfTheClass<T>(x: T, first: T, rest: seq<T>, y: T, le: (T, T) -> bool)
    requires !(SameKey(x, y, le) && SameKey(first, y, le))
    ensures
      var a, b := if SameKey(x, y, le) then [x] else [], if SameKey(first, y, le) then [first] else [];
      b + (a + rest) == a + (b + rest)
  {
    hide SameKey;
  }

  lemma {:induction false} InsertClass<T(!new)>(x: T, s: seq<T>, y: T, le: (T, T) -> bool)
    requires TotalPreorder(le)
    ensures Class(Insert(x, s, le), y, le) == (if SameKey(x, y, le) then [x] else []) + Class(s, y, le)
  {
    if s == [] {
      ClassOfCons(x, [], y, le);
      assert [x] + [] == [x];
    } else if le(x, s[0]) {
      ClassOfCons(x, s, y, le);
    } else {
      assert !(SameKey(x, y, le) && SameKey(s[0], y, le));
      hide SameKey, TotalPreorder, Class;
      InsertClass(x, s[1..], y, le);
      ClassOfCons(s[0], Insert(x, s[1..], le), y, le);
      ClassOfCons(s[0], s[1..], y, le);
      assert s == [s[0]] + s[1..];
      OneOfTheClass(x, s[0], Class(s[1..], y, le), y, le);
    }
  }

  /** Stability: sorting keeps the elements of one key in their original order. */
  lemma {:induction false} SortClass<T(!new)>(s: seq<T>, y: T, le: (T, T) -> bool)
    requires TotalPreorder(le)
    ensures Class(Sort(s, le), y, le) == Class(s, y, le)
  {
    if s != [] {
      SortClass(s[1..], y, le);
      InsertClass(s[0], Sort(s[1..], le), y, le);
    }
  }

  lemma {:induction false} ClassConcat<T>(a: seq<T>, b: seq<T>, y: T, le: (T, T) -> bool)
    ensures Class(a + b, y, le) == Class(a, y, le) + Class(b, y, le)
  {
    if a == [] {
      assert a + b == b;
      assert [] + Class(b, y, le) == Class(b, y, le);
    } else {
      assert (a + b)[1..] == a[1..] + b && (a + b)[0] == a[0];
      ClassConcat(a[1..], b, y, le);
      var own := if SameKey(a[0], y, le) then [a[0]] else [];
      assert Class(a, y, le) == own + Class(a[1..], y, le);
      assert own + (Class(a[1..], y, le) + Class(b, y, le)) == (own + Class(a[1..], y, le)) + Class(b, y, le);
    }
  }

  lemma {:induction false} ClassMembers<T>(s: seq<T>, y: T, x: T, le: (T, T) -> bool)
    ensures x in Class(s, y, le) <==> x in s && SameKey(x, y, le)
  {
    if s != [] {
      ClassMembers(s[1..], y, x, le);
    }
  }

  lemma {:induction false} ClassOfDistinct<T>(s: seq<T>, y: T, le: (T, T) -> bool)
    requires DistinctKeys(s, le)
    requires forall a, b, c | a in s && b in s && c == y :: SameKey(a, c, le) && SameKey(b, c, le) ==> SameKey(a, b, le)
    ensures |Class(s, y, le)| <= 1
  {
    if s != [] {
      ClassOfDistinct(s[1..], y, le);
      if SameKey(s[0], y, le) && Class(s[1..], y, le) != [] {
        var other := Class(s[1..], y, le)[0];
        ClassMembers(s[1..], y, other, le);
        assert false;
      }
    }
  }

  /** Two sorted sequences with the same elements of every key, in the same order, are equal. */
  lemma {:induction false} StableSortIsUnique<T(!new)>(s: seq<T>, t: seq<T>, le: (T, T) -> bool)
    requires TotalPreorder(le) && Sorted(s, le) && Sorted(t, le)
    requires forall y :: Class(s, y, le) == Class(t, y, le)
    ensures s == t
  {
    if s == [] {
      if t != [] {
        ClassMembers(t, t[0], t[0], le);
        assert false;
      }
    } else {
      assert Class(s, s[0], le) == Class(t, s[0], le);
      assert le(s[0], s[0]);
      assert t != [];
      HeadsAgree(s, t, le);
      forall y
        ensures Class(s[1..], y, le) == Class(t[1..], y, le)
      {
        assert Class(s, y, le) == Class(t, y, le);
        var own := if SameKey(s[0], y, le) then [s[0]] else [];
        assert Class(s[1..], y, le) == Class(s, y, le)[|own|..];
        assert Class(t[1..], y, le) == Class(t, y, le)[|own|..];
      }
      StableSortIsUnique(s[1..], t[1..], le);
      assert s == [s[0]] + s[1..] && t == [t[0]] + t[1..];
    }
  }

  lemma HeadsAgree<T(!new)>(s: seq<T>, t: seq<T>, le: (T, T) -> bool)
    requires TotalPreorder(le) && Sorted(s, le) && Sorted(t, le) && s != [] && t != []
    requires Class(s, s[0], le) == Class(t, s[0], le) && Class(s, t[0], le) == Class(t, t[0], le)
    ensures s[0] == t[0]
  {
    ClassMembers(t, s[0], s[0], le);
    ClassMembers(s, s[0], s[0], le);
    ClassMembers(s, t[0], t[0], le);
    ClassMembers(t, t[0], t[0], le);
    assert le(s[0], s[0]) && le(t[0], t[0]);
    assert s[0] in t && t[0] in s;
    assert le(s[0], t[0]) && le(t[0], s[0]);
    assert Class(s, s[0], le)[0] == s[0];
    assert Class(t, s[0], le)[0] == t[0];
  }

  lemma ClassOfSameElements<T(!new)>(s: seq<T>, t: seq<T>, y: T, le: (T, T) -> bool)
    requires TotalPreorder(le) && DistinctKeys(s, le) && DistinctKeys(t, le)
    requires forall x :: x in s <==> x in t
    ensures Class(s, y, le) == Class(t, y, le)
  {
    ClassOfDistinct(s, y, le);
    ClassOfDistinct(t, y, le);
    var a, b := Class(s, y, le), Class(t, y, le);
    if a != [] {
      ClassMembers(s, y, a[0], le);
      ClassMembers(t, y, a[0], le);
    } else if b != [] {
      ClassMembers(t, y, b[0], le);
      ClassMembers(s, y, b[0], le);
    }
  }

  /** Lists with distinct keys and the same elements sort alike, whatever their order. */
  lemma SortIgnoresOrder<T(!new)>(s: seq<T>, t: seq<T>, le: (T, T) -> bool)
    requires TotalPreorder(le) && DistinctKeys(s, le) && DistinctKeys(t, le)
    requires forall x :: x in s <==> x in t
    ensures Sort(s, le) == Sort(t, le)
  {
    SortSorted(s, le);
    SortSorted(t, le);
    forall y
      ensures Class(Sort(s, le), y, le) == Class(Sort(t, le), y, le)
    {
      SortClass(s, y, le);
      SortClass(t, y, le);
      ClassOfSameElements(s, t, y, le);
    }
    StableSortIsUnique(Sort(s, le), Sort(t, le), le);
  }

  // ---------------------------------------------------------------- strings

  /** Python's order on strings, by code point. */
  predicate StringLe(a: string, b: string) {
    a == [] || (b != [] && (a[0] < b[0] || (a[0] == b[0] && StringLe(a[1..], b[1..]))))
  }

  lemma {:induction false} StringLeTotal(a: string, b: string)
    ensures StringLe(a, b) || StringLe(b, a)
  {
    if a != [] && b != [] && a[0] == b[0] {
      StringLeTotal(a[1..], b[1..]);
    }
  }

  lemma {:induction false} StringLeTransitive(a: string, b: string, c: string)
    requires StringLe(a, b) && StringLe(b, c)
    ensures StringLe(a, c)
  {
    if a != [] && a[0] == b[0] == c[0] {
      StringLeTransitive(a[1..], b[1..], c[1..]);
    }
  }

  lemma {:induction false} StringLeAntisymmetric(a: string, b: string)
    requires StringLe(a, b) && StringLe(b, a)
    ensures a == b
  {
    if a != [] {
      StringLeAntisymmetric(a[1..], b[1..]);
      assert a == [a[0]] + a[1..] && b == [b[0]] + b[1..];
    }
  }

  lemma StringLeIsOrder()
    ensures TotalOrder(StringLe)
  {
    forall a, b ensures StringLe(a, b) || StringLe(b, a) { StringLeTotal(a, b); }
    forall a, b, c | StringLe(a, b) && StringLe(b, c) ensures StringLe(a, c) { StringLeTransitive(a, b, c); }
    forall a, b | StringLe(a, b) && StringLe(b, a) ensures a == b { StringLeAntisymmetric(a, b); }
  }
}
