/**
  Python's `round(x, digits)` over exact reals: to the nearest multiple of 1/scale, ties to even.
  The scale is 10 to the number of digits. Binary floating point is not modelled.
 */
module Rounding {
  import opened Prelude

  const MILLIS := 1000.0
  const MICROS := 1000000.0

  function Nearest(y: real): int {
    var below := y.Floor;
    var part := y - below as real;
    if part < 0.5 then below
    else if part > 0.5 then below + 1
    else if below % 2 == 0 then below
    else below + 1
  }

  function Round(x: real, scale: real): real
    requires scale > 0.0
  {
    Nearest(x * scale) as real / scale
  }

  /** `x` is a multiple of 1/scale. */
  predicate Quantized(x: real, scale: real) {
    (x * scale).Floor as real == x * scale
  }

  /** `x` lies exactly halfway between two multiples of 1/scale. */
  predicate Tie(x: real, scale: real) {
    x * scale - (x * scale).Floor as real == 0.5
  }

  function Abs(x: real): real {
    if x < 0.0 then -x else x
  }

  lemma FloorOfSum(k: int, y: real)
    ensures (k as real + y).Floor == k + y.Floor
  {
  }

  lemma QuotientTimes(n: int, scale: real)
    requires scale > 0.0
    ensures n as real / scale * scale == n as real
  {
  }

  lemma Distributes(x: real, y: real, scale: real)
    ensures (x + y) * scale == x * scale + y * scale
  {
  }

  lemma TimesQuotient(x: real, scale: real)
    requires scale > 0.0
    ensures x * scale / scale == x
  {
  }

  lemma RoundedIsQuantized(x: real, scale: real)
    requires scale > 0.0
    ensures Quantized(Round(x, scale), scale)
  {
    var n := Nearest(x * scale);
    QuotientTimes(n, scale);
    assert Round(x, scale) * scale == n as real;
    assert (n as real).Floor == n;
  }

  lemma RoundKeepsQuantized(x: real, scale: real)
    requires scale > 0.0 && Quantized(x, scale)
    ensures Round(x, scale) == x
  {
    TimesQuotient(x, scale);
  }

  lemma QuantizedSum(x: real, y: real, scale: real)
    requires Quantized(x, scale) && Quantized(y, scale)
    ensures Quantized(x + y, scale)
  {
    Distributes(x, y, scale);
    FloorOfSum((x * scale).Floor, y * scale);
  }

  lemma RoundIsClose(x: real, scale: real)
    requires scale > 0.0
    ensures Abs(Round(x, scale) - x) * scale <= 0.5
  {
    var n := Nearest(x * scale) as real;
    QuotientTimes(Nearest(x * scale), scale);
    assert (Round(x, scale) - x) * scale == n - x * scale;
    assert (x - Round(x, scale)) * scale == x * scale - n;
  }

  lemma RoundNonNegative(x: real, scale: real)
    requires scale > 0.0 && x >= 0.0
    ensures Round(x, scale) >= 0.0
  {
    assert x * scale >= 0.0;
  }

  // ---------------------------------------------------------------- folds

  /** `for x in xs: total = round(total + x, digits)` */
  function RoundedFold(start: real, xs: seq<real>, scale: real): real
    requires scale > 0.0
  {
    if xs == [] then start else Round(RoundedFold(start, Init(xs), scale) + Last(xs), scale)
  }

  /** The exact sum. */
  function Total(xs: seq<real>): real {
    if xs == [] then 0.0 else Total(Init(xs)) + Last(xs)
  }

  /** x and y differ by at most n half units. */
  predicate Near(x: real, y: real, scale: real, n: nat) {
    Abs(x - y) * scale <= n as real * 0.5
  }

  /** Rounding after every addition costs at most half a unit per summand. */
  lemma {:induction false} FoldIsNearTotal(xs: seq<real>, scale: real)
    requires scale > 0.0
    ensures Near(RoundedFold(0.0, xs, scale), Total(xs), scale, |xs|)
  {
    hide Round;
    if xs != [] {
      var front := Init(xs);
      FoldIsNearTotal(front, scale);
      var fold, x := RoundedFold(0.0, front, scale), Last(xs);
      RoundIsClose(fold + x, scale);
      DriftsAdd(fold - Total(front), Round(fold + x, scale) - (fold + x), scale, |front| as real * 0.5);
      assert Round(fold + x, scale) - Total(xs) == (fold - Total(front)) + (Round(fold + x, scale) - (fold + x));
    }
  }

  lemma DriftsAdd(a: real, b: real, scale: real, bound: real)
    requires scale > 0.0 && Abs(a) * scale <= bound && Abs(b) * scale <= 0.5
    ensures Abs(a + b) * scale <= bound + 0.5
  {
    Distributes(Abs(a), Abs(b), scale);
    assert Abs(a + b) <= Abs(a) + Abs(b);
    ScaledLe(Abs(a + b), Abs(a) + Abs(b), scale);
  }

  lemma ScaledLe(x: real, y: real, scale: real)
    requires x <= y && scale > 0.0
    ensures x * scale <= y * scale
  {
  }

  /** The same fold in units of 1/scale. */
  function UnitFold(start: int, ys: seq<real>): int {
    if ys == [] then start else Nearest(UnitFold(start, Init(ys)) as real + Last(ys))
  }

  predicate IsHalf(y: real) {
    y - y.Floor as real == 0.5
  }

  predicate SomeHalf(ys: seq<real>) {
    exists i :: 0 <= i < |ys| && IsHalf(ys[i])
  }

  predicate SomeTie(xs: seq<real>, scale: real) {
    exists i :: 0 <= i < |xs| && Tie(xs[i], scale)
  }

  function InUnits(xs: seq<real>, scale: real): seq<real> {
    Map(xs, (x: real) => x * scale)
  }

  lemma SomeHalfStep(ys: seq<real>)
    requires ys != []
    ensures SomeHalf(ys) <==> SomeHalf(Init(ys)) || IsHalf(Last(ys))
  {
    assert forall i :: 0 <= i < |ys| - 1 ==> Init(ys)[i] == ys[i];
  }

  lemma RoundOfUnits(n: int, x: real, y: real, scale: real)
    requires scale > 0.0 && y == x * scale
    ensures Round(n as real / scale + x, scale) == Nearest(n as real + y) as real / scale
  {
    QuotientTimes(n, scale);
    Distributes(n as real / scale, x, scale);
  }

  lemma {:induction false} FoldInUnits(start: int, xs: seq<real>, scale: real)
    requires scale > 0.0
    ensures RoundedFold(start as real / scale, xs, scale) == UnitFold(start, InUnits(xs, scale)) as real / scale
  {
    hide Round, Nearest;
    var ys := InUnits(xs, scale);
    if xs == [] {
      assert ys == [];
    } else {
      FoldInUnits(start, Init(xs), scale);
      assert Init(ys) == InUnits(Init(xs), scale) && Last(ys) == Last(xs) * scale;
      var n := UnitFold(start, Init(ys));
      assert UnitFold(start, ys) == Nearest(n as real + Last(ys));
      assert RoundedFold(start as real / scale, xs, scale) == Round(n as real / scale + Last(xs), scale);
      RoundOfUnits(n, Last(xs), Last(ys), scale);
    }
  }

  /** Without halves, a later start shifts the whole fold. */
  lemma {:induction false} FoldShifts(start: int, ys: seq<real>)
    requires !SomeHalf(ys)
    ensures UnitFold(start, ys) == start + UnitFold(0, ys)
  {
    hide Nearest, SomeHalf;
    if ys != [] {
      SomeHalfStep(ys);
      FoldShifts(start, Init(ys));
      NearestSum(UnitFold(start, Init(ys)), Last(ys));
      NearestSum(UnitFold(0, Init(ys)), Last(ys));
    }
  }

  lemma NearestSum(k: int, y: real)
    requires !IsHalf(y)
    ensures Nearest(k as real + y) == k + Nearest(y)
  {
    FloorOfSum(k, y);
  }

  /** The folds started at zero and at one stay one apart until the first half, and evenly apart ever after. */
  lemma {:induction false} FoldsFromZeroAndOne(ys: seq<real>)
    ensures var a, b := UnitFold(0, ys), UnitFold(1, ys);
      if SomeHalf(ys) then (b - a) % 2 == 0 else b == a + 1
  {
    hide Nearest, SomeHalf, IsHalf;
    if ys == [] {
      assert !SomeHalf([]) by { NoHalf(); }
    } else {
      SomeHalfStep(ys);
      FoldsFromZeroAndOne(Init(ys));
      StepFromZeroAndOne(UnitFold(0, Init(ys)), UnitFold(1, Init(ys)), Last(ys));
    }
  }

  lemma StepFromZeroAndOne(a: int, b: int, y: real)
    ensures var m, n := Nearest(a as real + y), Nearest(b as real + y);
      if IsHalf(y) then (n - m) % 2 == 0 else n - m == b - a
  {
    hide Nearest, IsHalf;
    if !IsHalf(y) {
      NearestSum(a, y);
      NearestSum(b, y);
    } else {
      NearestOfHalf(a, y);
      NearestOfHalf(b, y);
    }
  }

  lemma NoHalf()
    ensures !SomeHalf([])
  {
  }

  /** A half is rounded to an even number. */
  lemma NearestOfHalf(k: int, y: real)
    requires IsHalf(y)
    ensures Nearest(k as real + y) % 2 == 0
  {
    FloorOfSum(k, y);
  }

  lemma TiesAreHalves(xs: seq<real>, scale: real)
    ensures SomeTie(xs, scale) <==> SomeHalf(InUnits(xs, scale))
  {
    var ys := InUnits(xs, scale);
    forall i | 0 <= i < |xs|
      ensures Tie(xs[i], scale) <==> IsHalf(ys[i])
    {
    }
  }

  /**
    Folding onto a start that is a multiple of 1/scale is adding the fold from zero, if no summand is
    a tie. With a tie it is not, already for a start of one unit.
   */
  lemma FoldOntoStart(xs: seq<real>, scale: real)
    requires scale > 0.0
    ensures !SomeTie(xs, scale) ==> forall start :: Quantized(start, scale) ==>
      RoundedFold(start, xs, scale) == Round(start + RoundedFold(0.0, xs, scale), scale)
    ensures SomeTie(xs, scale) ==>
      RoundedFold(1.0 / scale, xs, scale) != Round(1.0 / scale + RoundedFold(0.0, xs, scale), scale)
  {
    hide SomeTie, SomeHalf, Tie, Nearest, Round, RoundedFold, UnitFold, Quantized, InUnits;
    var ys := InUnits(xs, scale);
    TiesAreHalves(xs, scale);
    if SomeTie(xs, scale) {
      FoldsFromZeroAndOne(ys);
      FoldSumInUnits(1, xs, scale);
      UnitsApart(UnitFold(1, ys), 1 + UnitFold(0, ys), scale);
      assert 1 as real == 1.0;
    } else {
      forall start | Quantized(start, scale)
        ensures RoundedFold(start, xs, scale) == Round(start + RoundedFold(0.0, xs, scale), scale)
      {
        var k := UnitsOf(start, scale);
        FoldShifts(k, ys);
        FoldSumInUnits(k, xs, scale);
      }
    }
  }

  lemma UnitsOf(x: real, scale: real) returns (k: int)
    requires scale > 0.0 && Quantized(x, scale)
    ensures x == k as real / scale
  {
    k := (x * scale).Floor;
    TimesQuotient(x, scale);
  }

  lemma UnitsApart(a: int, b: int, scale: real)
    requires scale > 0.0 && a != b
    ensures a as real / scale != b as real / scale
  {
    QuotientTimes(a, scale);
    QuotientTimes(b, scale);
  }

  lemma FoldSumInUnits(start: int, xs: seq<real>, scale: real)
    requires scale > 0.0
    ensures var ys := InUnits(xs, scale);
      && RoundedFold(start as real / scale, xs, scale) == UnitFold(start, ys) as real / scale
      && Round(start as real / scale + RoundedFold(0.0, xs, scale), scale) == (start + UnitFold(0, ys)) as real / scale
  {
    hide Nearest, RoundedFold, UnitFold, InUnits;
    var n := UnitFold(0, InUnits(xs, scale));
    FoldInUnits(start, xs, scale);
    FoldInUnits(0, xs, scale);
    assert 0 as real / scale == 0.0;
    SumOfUnits(start, n, scale);
  }

  lemma SumOfUnits(m: int, n: int, scale: real)
    requires scale > 0.0
    ensures Round(m as real / scale + n as real / scale, scale) == (m + n) as real / scale
  {
    QuotientTimes(n, scale);
    RoundOfUnits(m, n as real / scale, n as real, scale);
    assert m as real + n as real == (m + n) as real;
    assert ((m + n) as real).Floor == m + n;
  }
}
