/** `pareto_frontier` of benchmarks/s4/driver.py. */
module Pareto {
  import opened Prelude
  import opened Ordering

  datatype ParetoPoint = ParetoPoint(condition: string, cost: real, successRate: real, observations: int)

  predicate IsCandidate(p: ParetoPoint) {
    p.cost >= 0.0 && 0.0 <= p.successRate <= 1.0 && p.successRate > 0.0
  }

  /** `other` costs no more and succeeds no less, and is strictly better in one of the two. */
  predicate Dominates(other: ParetoPoint, p: ParetoPoint) {
    other.cost <= p.cost && other.successRate >= p.successRate && (other.cost < p.cost || other.successRate > p.successRate)
  }

  /** The order of `(cost, -success_rate, condition)`. */
  predicate KeyLe(a: ParetoPoint, b: ParetoPoint) {
    a.cost < b.cost || (a.cost == b.cost &&
      (a.successRate > b.successRate || (a.successRate == b.successRate && StringLe(a.condition, b.condition))))
  }

  predicate IsDominated(p: ParetoPoint, candidates: seq<ParetoPoint>) {
    exists i :: 0 <= i < |candidates| && Dominates(candidates[i], p)
  }

  function Candidates(points: seq<ParetoPoint>): seq<ParetoPoint> {
    Filter(points, IsCandidate)
  }

  /** The candidates that no candidate dominates, in input order. */
  function NonDominated(among: seq<ParetoPoint>, candidates: seq<ParetoPoint>): seq<ParetoPoint> {
    if among == [] then []
    else if IsDominated(Last(among), candidates) then NonDominated(Init(among), candidates)
    else NonDominated(Init(among), candidates) + [Last(among)]
  }

  function Frontier(points: seq<ParetoPoint>): seq<ParetoPoint> {
    Sort(NonDominated(Candidates(points), Candidates(points)), KeyLe)
  }

  /** `pareto_frontier`. The source's `other is not point` never matters: no point dominates its equal. */
  method ParetoFrontier(points: seq<ParetoPoint>) returns (r: seq<ParetoPoint>)
    ensures r == Frontier(points)
  {
    var candidates := Candidates(points);
    var frontier: seq<ParetoPoint> := [];
    for i := 0 to |candidates|
      invariant frontier == NonDominated(candidates[..i], candidates)
    {
      assert Init(candidates[..i + 1]) == candidates[..i];
      var dominated := false;
      for j := 0 to |candidates|
        invariant dominated <==> exists k :: 0 <= k < j && Dominates(candidates[k], candidates[i])
      {
        if Dominates(candidates[j], candidates[i]) {
          dominated := true;
        }
      }
      if !dominated {
        frontier := frontier + [candidates[i]];
      }
    }
    assert candidates[..|candidates|] == candidates;
    return Sort(frontier, KeyLe);
  }

  // ---------------------------------------------------------------- membership

  lemma {:induction false} FilterMembers(s: seq<ParetoPoint>, p: ParetoPoint)
    ensures p in Candidates(s) <==> p in s && IsCandidate(p)
  {
    if s != [] {
      FilterMembers(Init(s), p);
      assert s == Init(s) + [Last(s)];
    }
  }

  lemma {:induction false} NonDominatedMembers(among: seq<ParetoPoint>, candidates: seq<ParetoPoint>, p: ParetoPoint)
    ensures p in NonDominated(among, candidates) <==> p in among && !IsDominated(p, candidates)
  {
    if among != [] {
      NonDominatedMembers(Init(among), candidates, p);
      assert among == Init(among) + [Last(among)];
    }
  }

  /** Membership in the frontier, without its order: a valid point that no valid point dominates. */
  lemma FrontierMembers(points: seq<ParetoPoint>, p: ParetoPoint)
    ensures p in Frontier(points) <==> p in points && IsCandidate(p) && !IsDominated(p, Candidates(points))
  {
    hide IsDominated, IsCandidate;
    SortMembers(NonDominated(Candidates(points), Candidates(points)), KeyLe);
    NonDominatedMembers(Candidates(points), Candidates(points), p);
    FilterMembers(points, p);
  }

  /** A cost, and a success rate that is a share but not zero. */
  predicate IsValid(p: ParetoPoint) {
    p.cost >= 0.0 && 0.0 < p.successRate <= 1.0
  }

  /** Better in one of cost and success, and not worse in the other. */
  predicate Beats(q: ParetoPoint, p: ParetoPoint) {
    (q.cost < p.cost && q.successRate >= p.successRate) || (q.cost == p.cost && q.successRate > p.successRate)
  }

  ghost predicate IsUnbeaten(p: ParetoPoint, points: seq<ParetoPoint>) {
    IsValid(p) && forall q :: q in points && IsValid(q) ==> !Beats(q, p)
  }

  /**
    The frontier is exactly this: the valid points that no valid point beats, each as often as it was
    given, by cost and, for equal points, by condition.
   */
  lemma FrontierIsExact(points: seq<ParetoPoint>)
    ensures forall p :: multiset(Frontier(points))[p] == (if IsUnbeaten(p, points) then multiset(points)[p] else 0)
    ensures forall i, j :: 0 <= i < j < |Frontier(points)| ==>
      var a, b := Frontier(points)[i], Frontier(points)[j];
      a.cost < b.cost || (a.cost == b.cost && a.successRate == b.successRate && StringLe(a.condition, b.condition))
  {
    forall p
      ensures multiset(Frontier(points))[p] == (if IsUnbeaten(p, points) then multiset(points)[p] else 0)
    {
      FrontierCounts(points, p);
    }
    forall i, j | 0 <= i < j < |Frontier(points)|
      ensures
        var a, b := Frontier(points)[i], Frontier(points)[j];
        a.cost < b.cost || (a.cost == b.cost && a.successRate == b.successRate && StringLe(a.condition, b.condition))
    {
      SuccessRisesWithCost(points, i, j);
      FrontierIsSorted(points);
      assert KeyLe(Frontier(points)[i], Frontier(points)[j]);
    }
  }

  lemma FrontierCounts(points: seq<ParetoPoint>, p: ParetoPoint)
    ensures multiset(Frontier(points))[p] == (if IsUnbeaten(p, points) then multiset(points)[p] else 0)
  {
    SortElements(NonDominated(Candidates(points), Candidates(points)), KeyLe);
    CountNonDominated(Candidates(points), Candidates(points), p);
    CountCandidates(points, p);
    assert IsDominated(p, Candidates(points)) <==> exists q :: q in points && IsValid(q) && Beats(q, p) by {
      hide Dominates, Beats;
      if i :| 0 <= i < |Candidates(points)| && Dominates(Candidates(points)[i], p) {
        FilterMembers(points, Candidates(points)[i]);
        DominatesIsBeats(Candidates(points)[i], p);
      }
      if q :| q in points && IsValid(q) && Beats(q, p) {
        FilterMembers(points, q);
        DominatesIsBeats(q, p);
        assert q in Candidates(points);
      }
    }
  }

  lemma DominatesIsBeats(q: ParetoPoint, p: ParetoPoint)
    ensures Dominates(q, p) <==> Beats(q, p)
  {
  }

  lemma {:induction false} CountNonDominated(among: seq<ParetoPoint>, candidates: seq<ParetoPoint>, p: ParetoPoint)
    ensures multiset(NonDominated(among, candidates))[p] == if IsDominated(p, candidates) then 0 else multiset(among)[p]
  {
    hide IsDominated;
    if among != [] {
      CountNonDominated(Init(among), candidates, p);
      assert among == Init(among) + [Last(among)];
    }
  }

  lemma {:induction false} CountCandidates(points: seq<ParetoPoint>, p: ParetoPoint)
    ensures multiset(Candidates(points))[p] == if IsValid(p) then multiset(points)[p] else 0
  {
    if points != [] {
      CountCandidates(Init(points), p);
      assert points == Init(points) + [Last(points)];
    }
  }

  // ---------------------------------------------------------------- dominance is well founded

  function Dominators(p: ParetoPoint, candidates: seq<ParetoPoint>): nat {
    if candidates == [] then 0
    else Dominators(p, Init(candidates)) + if Dominates(Last(candidates), p) then 1 else 0
  }

  /** A dominator has strictly fewer dominators than the point it dominates. */
  lemma {:induction false} FewerDominators(q: ParetoPoint, p: ParetoPoint, candidates: seq<ParetoPoint>)
    requires Dominates(q, p)
    ensures Dominators(q, candidates) <= Dominators(p, candidates)
    ensures q in candidates ==> Dominators(q, candidates) < Dominators(p, candidates)
  {
    if candidates != [] {
      FewerDominators(q, p, Init(candidates));
      assert q in candidates ==> q in Init(candidates) || q == Last(candidates);
    }
  }

  /** Every dominated point is dominated by a candidate that is itself not dominated. */
  lemma {:induction false} SomeMaximalDominator(p: ParetoPoint, candidates: seq<ParetoPoint>) returns (q: ParetoPoint)
    requires IsDominated(p, candidates)
    ensures q in candidates && Dominates(q, p) && !IsDominated(q, candidates)
    decreases Dominators(p, candidates)
  {
    var i :| 0 <= i < |candidates| && Dominates(candidates[i], p);
    q := candidates[i];
    if IsDominated(q, candidates) {
      FewerDominators(q, p, candidates);
      q := SomeMaximalDominator(q, candidates);
    }
  }

  /** Every valid point outside the frontier is dominated by a member of it. */
  lemma ExcludedIsDominatedByMember(points: seq<ParetoPoint>, p: ParetoPoint)
    requires p in points && IsCandidate(p) && p !in Frontier(points)
    ensures exists q :: q in Frontier(points) && Dominates(q, p)
  {
    FrontierMembers(points, p);
    var q := SomeMaximalDominator(p, Candidates(points));
    FilterMembers(points, q);
    FrontierMembers(points, q);
  }

  /** No member of the frontier is dominated by any valid point. */
  lemma MembersAreNotDominated(points: seq<ParetoPoint>, p: ParetoPoint, q: ParetoPoint)
    requires p in Frontier(points) && q in points && IsCandidate(q)
    ensures !Dominates(q, p)
  {
    FrontierMembers(points, p);
    FilterMembers(points, q);
  }

  /** The frontier is empty only if no point is valid. */
  lemma EmptyFrontier(points: seq<ParetoPoint>)
    ensures Frontier(points) == [] <==> forall p :: p in points ==> !IsCandidate(p)
  {
    if Frontier(points) == [] {
      forall p | p in points && IsCandidate(p)
        ensures false
      {
        ExcludedIsDominatedByMember(points, p);
      }
    } else {
      FrontierMembers(points, Frontier(points)[0]);
    }
  }

  // ---------------------------------------------------------------- order

  lemma KeyLeIsPreorder()
    ensures TotalPreorder(KeyLe)
  {
    StringLeIsOrder();
  }

  /** Along the output cost never decreases and success never decreases; equal costs mean equal success. */
  lemma SuccessRisesWithCost(points: seq<ParetoPoint>, i: nat, j: nat)
    requires i < j < |Frontier(points)|
    ensures var a, b := Frontier(points)[i], Frontier(points)[j];
      a.cost <= b.cost && a.successRate <= b.successRate && (a.cost == b.cost <==> a.successRate == b.successRate)
  {
    KeyLeIsPreorder();
    SortSorted(NonDominated(Candidates(points), Candidates(points)), KeyLe);
    var a, b := Frontier(points)[i], Frontier(points)[j];
    FrontierMembers(points, a);
    FrontierMembers(points, b);
    MembersAreNotDominated(points, a, b);
    MembersAreNotDominated(points, b, a);
  }

  // ---------------------------------------------------------------- composition

  /** The elements of one key on the frontier, in input order. */
  lemma {:induction false} ClassOfNonDominated(among: seq<ParetoPoint>, candidates: seq<ParetoPoint>, y: ParetoPoint)
    ensures Class(NonDominated(among, candidates), y, KeyLe) == if IsDominated(y, candidates) then [] else Class(among, y, KeyLe)
  {
    hide StringLe;
    if among != [] {
      var last := Last(among);
      ClassOfNonDominated(Init(among), candidates, y);
      assert among == Init(among) + [last];
      ClassConcat(Init(among), [last], y, KeyLe);
      ClassConcat(NonDominated(Init(among), candidates), [last], y, KeyLe);
      SameKeySameFate(last, y, candidates);
      assert Class([last], y, KeyLe) == if SameKey(last, y, KeyLe) then [last] else [];
    }
  }

  lemma SameKeySameFate(p: ParetoPoint, y: ParetoPoint, candidates: seq<ParetoPoint>)
    ensures SameKey(p, y, KeyLe) ==> (IsDominated(p, candidates) <==> IsDominated(y, candidates))
  {
  }

  lemma {:induction false} ClassOfCandidates(points: seq<ParetoPoint>, y: ParetoPoint)
    ensures Class(Candidates(points), y, KeyLe) == if IsCandidate(y) then Class(points, y, KeyLe) else []
  {
    hide StringLe;
    if points != [] {
      var last := Last(points);
      ClassOfCandidates(Init(points), y);
      assert points == Init(points) + [last];
      ClassConcat(Init(points), [last], y, KeyLe);
      ClassConcat(Candidates(Init(points)), [last], y, KeyLe);
      assert Class([last], y, KeyLe) == if SameKey(last, y, KeyLe) then [last] else [];
    }
  }

  predicate Survives(y: ParetoPoint, points: seq<ParetoPoint>) {
    IsCandidate(y) && !IsDominated(y, Candidates(points))
  }

  /** On the frontier, each key keeps all of its points in input order, or none. */
  lemma ClassOfFrontier(points: seq<ParetoPoint>, y: ParetoPoint)
    ensures Class(Frontier(points), y, KeyLe) == if Survives(y, points) then Class(points, y, KeyLe) else []
  {
    hide IsDominated, IsCandidate;
    KeyLeIsPreorder();
    SortClass(NonDominated(Candidates(points), Candidates(points)), y, KeyLe);
    ClassOfNonDominated(Candidates(points), Candidates(points), y);
    ClassOfCandidates(points, y);
  }

  /** Whether a point survives a batch can be decided from the frontiers of its parts. */
  lemma SurvivalFromParts(a: seq<ParetoPoint>, b: seq<ParetoPoint>, y: ParetoPoint)
    ensures Survives(y, a + b) <==> Survives(y, Frontier(a) + Frontier(b))
    ensures Survives(y, a + b) ==> Survives(y, a) && Survives(y, b)
  {
    var whole, parts := a + b, Frontier(a) + Frontier(b);
    forall q | q in Candidates(parts) && Dominates(q, y)
      ensures q in Candidates(whole)
    {
      FilterMembers(parts, q);
      FrontierMembers(a, q);
      FrontierMembers(b, q);
      FilterMembers(whole, q);
    }
    forall q | q in Candidates(whole) && Dominates(q, y)
      ensures exists r :: r in Candidates(parts) && Dominates(r, y)
    {
      FilterMembers(whole, q);
      var r := DominatorInParts(a, b, q);
      FilterMembers(parts, r);
    }
    CandidatesOfPart(a, b);
  }

  /** A valid point of a batch, or a member of a part's frontier that dominates it. */
  lemma DominatorInParts(a: seq<ParetoPoint>, b: seq<ParetoPoint>, q: ParetoPoint) returns (r: ParetoPoint)
    requires q in a + b && IsCandidate(q)
    ensures r in Frontier(a) + Frontier(b) && IsCandidate(r) && (r == q || Dominates(r, q))
  {
    var part := if q in a then a else b;
    r := q;
    if q !in Frontier(part) {
      ExcludedIsDominatedByMember(part, q);
      r :| r in Frontier(part) && Dominates(r, q);
      FrontierMembers(part, r);
    }
  }

  lemma CandidatesOfPart(a: seq<ParetoPoint>, b: seq<ParetoPoint>)
    ensures forall q :: q in Candidates(a) || q in Candidates(b) <==> q in Candidates(a + b)
  {
    forall q
      ensures q in Candidates(a) || q in Candidates(b) <==> q in Candidates(a + b)
    {
      FilterMembers(a, q);
      FilterMembers(b, q);
      FilterMembers(a + b, q);
    }
  }

  /** The frontier of a batch is the frontier of its parts' frontiers, element by element. */
  lemma FrontierOfParts(a: seq<ParetoPoint>, b: seq<ParetoPoint>)
    ensures Frontier(a + b) == Frontier(Frontier(a) + Frontier(b))
  {
    hide Survives, Frontier, Class, KeyLe;
    forall y
      ensures Class(Frontier(a + b), y, KeyLe) == Class(Frontier(Frontier(a) + Frontier(b)), y, KeyLe)
    {
      ClassOfFrontier(a + b, y);
      ClassOfFrontier(Frontier(a) + Frontier(b), y);
      ClassOfFrontier(a, y);
      ClassOfFrontier(b, y);
      ClassConcat(a, b, y, KeyLe);
      ClassConcat(Frontier(a), Frontier(b), y, KeyLe);
      SurvivalFromParts(a, b, y);
    }
    FrontierIsSorted(a + b);
    FrontierIsSorted(Frontier(a) + Frontier(b));
    KeyLeIsPreorder();
    StableSortIsUnique(Frontier(a + b), Frontier(Frontier(a) + Frontier(b)), KeyLe);
  }

  lemma FrontierIsSorted(points: seq<ParetoPoint>)
    ensures Sorted(Frontier(points), KeyLe)
  {
    KeyLeIsPreorder();
    SortSorted(NonDominated(Candidates(points), Candidates(points)), KeyLe);
  }

  /** Taking the frontier twice changes nothing. */
  lemma FrontierIsIdempotent(points: seq<ParetoPoint>)
    ensures Frontier(Frontier(points)) == Frontier(points)
  {
    hide Frontier;
    FrontierOfParts(points, []);
    assert points + [] == points;
    NoPointsNoFrontier();
    assert Frontier(points) + [] == Frontier(points);
  }

  lemma NoPointsNoFrontier()
    ensures Frontier([]) == []
  {
  }
}
