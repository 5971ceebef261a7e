/** `score_coordination` of benchmarks/s3/driver.py. */
module Coordination {
  import opened Prelude
  import opened Rounding

  datatype CoordinationEvent = CoordinationEvent(
    workerId: string, event: string, path: Option<string>, contentDigest: Option<string>,
    logicalTask: Option<string>, sequence: nat)

  datatype WorkerResult = WorkerResult(workerId: string, success: bool, events: seq<CoordinationEvent>, failure: Option<string>)

  datatype CoordinationScore = CoordinationScore(
    conflictingEdits: nat, duplicatedWork: nat, scopeCollisions: nat, jointSuccess: bool,
    conflictRate: real, duplicateWorkRate: real, scopeCollisionRate: real)

  /** `_matches(path, worker_scopes[worker])`, by worker id and path. */
  type Scopes = (string, string) -> bool

  /** `value or ""` */
  function TextOr(o: Option<string>): string {
    if o.Some? then o.value else ""
  }

  predicate IsEdit(e: CoordinationEvent) {
    e.event == "edit" && TextOr(e.path) != ""
  }

  predicate NamesTask(e: CoordinationEvent) {
    TextOr(e.logicalTask) != ""
  }

  function AllEvents(results: seq<WorkerResult>): seq<CoordinationEvent> {
    if results == [] then [] else AllEvents(Init(results)) + Last(results).events
  }

  function AllSucceed(results: seq<WorkerResult>): bool {
    forall i :: 0 <= i < |results| ==> results[i].success
  }

  // ---------------------------------------------------------------- the score as a specification

  ghost function EditedPaths(events: seq<CoordinationEvent>): set<string> {
    set e | e in events && IsEdit(e) :: TextOr(e.path)
  }

  ghost function DigestsAt(events: seq<CoordinationEvent>, path: string): set<string> {
    set e | e in events && IsEdit(e) && TextOr(e.path) == path :: TextOr(e.contentDigest)
  }

  ghost function ConflictedPaths(events: seq<CoordinationEvent>): set<string> {
    set p | p in EditedPaths(events) && |DigestsAt(events, p)| > 1
  }

  ghost function NamedTasks(events: seq<CoordinationEvent>): set<string> {
    set e | e in events && NamesTask(e) :: TextOr(e.logicalTask)
  }

  ghost function WorkersOn(events: seq<CoordinationEvent>, task: string): set<string> {
    set e | e in events && NamesTask(e) && TextOr(e.logicalTask) == task :: e.workerId
  }

  ghost function DuplicatedTasks(events: seq<CoordinationEvent>): set<string> {
    set t | t in NamedTasks(events) && |WorkersOn(events, t)| > 1
  }

  predicate Collides(inScope: Scopes, e: CoordinationEvent) {
    IsEdit(e) && !inScope(e.workerId, TextOr(e.path))
  }

  function CountEdits(events: seq<CoordinationEvent>): nat {
    if events == [] then 0 else CountEdits(Init(events)) + if IsEdit(Last(events)) then 1 else 0
  }

  function CountCollisions(inScope: Scopes, events: seq<CoordinationEvent>): nat {
    if events == [] then 0 else CountCollisions(inScope, Init(events)) + if Collides(inScope, Last(events)) then 1 else 0
  }

  /** `round(count / max(total, 1), 3)` */
  function Rate(count: nat, total: nat): real {
    Round(count as real / (if total < 1 then 1 else total) as real, MILLIS)
  }

  ghost function ScoreOf(inScope: Scopes, results: seq<WorkerResult>): CoordinationScore {
    var events := AllEvents(results);
    var conflicts, duplicates := |ConflictedPaths(events)|, |DuplicatedTasks(events)|;
    var collisions := CountCollisions(inScope, events);
    CoordinationScore(conflicts, duplicates, collisions, results != [] && AllSucceed(results),
      Rate(conflicts, |EditedPaths(events)|), Rate(duplicates, |NamedTasks(events)|), Rate(collisions, CountEdits(events)))
  }

  // ---------------------------------------------------------------- the scorer

  /** The dictionary of sets that `setdefault(key, set()).add(value)` builds. */
  ghost predicate GroupsEdits(byPath: map<string, set<string>>, events: seq<CoordinationEvent>) {
    byPath.Keys == EditedPaths(events) && forall p :: p in byPath ==> byPath[p] == DigestsAt(events, p)
  }

  ghost predicate GroupsTasks(byLogical: map<string, set<string>>, events: seq<CoordinationEvent>) {
    byLogical.Keys == NamedTasks(events) && forall t :: t in byLogical ==> byLogical[t] == WorkersOn(events, t)
  }

  function AddTo(groups: map<string, set<string>>, key: string, value: string): map<string, set<string>> {
    groups[key := (if key in groups then groups[key] else {}) + {value}]
  }

  lemma GroupOneEdit(byPath: map<string, set<string>>, events: seq<CoordinationEvent>, e: CoordinationEvent)
    requires GroupsEdits(byPath, events)
    ensures GroupsEdits(if IsEdit(e) then AddTo(byPath, TextOr(e.path), TextOr(e.contentDigest)) else byPath, events + [e])
  {
    var next := if IsEdit(e) then AddTo(byPath, TextOr(e.path), TextOr(e.contentDigest)) else byPath;
    assert forall x :: x in events + [e] <==> x in events || x == e;
    assert next.Keys == EditedPaths(events + [e]);
    forall p | p in next
      ensures next[p] == DigestsAt(events + [e], p)
    {
      if p !in byPath {
        assert DigestsAt(events, p) == {};
      }
    }
  }

  lemma GroupOneTask(byLogical: map<string, set<string>>, events: seq<CoordinationEvent>, e: CoordinationEvent)
    requires GroupsTasks(byLogical, events)
    ensures GroupsTasks(if NamesTask(e) then AddTo(byLogical, TextOr(e.logicalTask), e.workerId) else byLogical, events + [e])
  {
    var next := if NamesTask(e) then AddTo(byLogical, TextOr(e.logicalTask), e.workerId) else byLogical;
    assert forall x :: x in events + [e] <==> x in events || x == e;
    assert next.Keys == NamedTasks(events + [e]);
    forall t | t in next
      ensures next[t] == WorkersOn(events + [e], t)
    {
      if t !in byLogical {
        assert WorkersOn(events, t) == {};
      }
    }
  }

  ghost function Shared(groups: map<string, set<string>>, keys: set<string>): set<string> {
    set k | k in keys && k in groups && |groups[k]| > 1
  }

  lemma SharedOneMore(groups: map<string, set<string>>, done: set<string>, key: string)
    requires key in groups && key !in done
    ensures |Shared(groups, done + {key})| == |Shared(groups, done)| + if |groups[key]| > 1 then 1 else 0
  {
    if |groups[key]| > 1 {
      assert Shared(groups, done + {key}) == Shared(groups, done) + {key};
    } else {
      assert Shared(groups, done + {key}) == Shared(groups, done);
    }
  }

  /** `sum(1 for values in groups.values() if len(values) > 1)`, in any order. */
  method CountShared(groups: map<string, set<string>>) returns (count: nat)
    ensures count == |Shared(groups, groups.Keys)|
  {
    count := 0;
    var rest := groups.Keys;
    ghost var done: set<string> := {};
    assert Shared(groups, done) == {};
    hide Shared;
    while rest != {}
      invariant rest + done == groups.Keys && rest !! done
      invariant count == |Shared(groups, done)|
      decreases rest
    {
      var key :| key in rest;
      SharedOneMore(groups, done, key);
      if |groups[key]| > 1 {
        count := count + 1;
      }
      rest := rest - {key};
      done := done + {key};
    }
    assert done == groups.Keys;
  }

  /** `score_coordination` */
  method ScoreCoordination(inScope: Scopes, results: seq<WorkerResult>) returns (score: CoordinationScore)
    ensures score == ScoreOf(inScope, results)
  {
    hide EditedPaths, DigestsAt, NamedTasks, WorkersOn, Rate, IsEdit, NamesTask;
    var events := AllEvents(results);
    var byPath, byLogical := map[], map[];
    var editCount, collisions := 0, 0;
    NothingGrouped();
    for i := 0 to |events|
      invariant GroupsEdits(byPath, events[..i]) && GroupsTasks(byLogical, events[..i])
      invariant editCount == CountEdits(events[..i]) && collisions == CountCollisions(inScope, events[..i])
    {
      var e := events[i];
      assert events[..i + 1] == events[..i] + [e] && Init(events[..i + 1]) == events[..i];
      GroupOneEdit(byPath, events[..i], e);
      GroupOneTask(byLogical, events[..i], e);
      if IsEdit(e) {
        byPath := AddTo(byPath, TextOr(e.path), TextOr(e.contentDigest));
        editCount := editCount + 1;
      }
      if NamesTask(e) {
        byLogical := AddTo(byLogical, TextOr(e.logicalTask), e.workerId);
      }
      if Collides(inScope, e) {
        collisions := collisions + 1;
      }
    }
    assert events[..|events|] == events;
    var conflicts := CountShared(byPath);
    var duplicates := CountShared(byLogical);
    assert Shared(byPath, byPath.Keys) == ConflictedPaths(events);
    assert Shared(byLogical, byLogical.Keys) == DuplicatedTasks(events);
    score := CoordinationScore(conflicts, duplicates, collisions, results != [] && AllSucceed(results),
      Rate(conflicts, |byPath|), Rate(duplicates, |byLogical|), Rate(collisions, editCount));
  }

  lemma NothingGrouped()
    ensures GroupsEdits(map[], []) && GroupsTasks(map[], [])
  {
  }

  // ---------------------------------------------------------------- laws

  lemma {:induction false} SubsetSize<T>(a: set<T>, b: set<T>)
    requires a <= b
    ensures |a| <= |b|
  {
    if a != {} {
      var x :| x in a;
      SubsetSize(a - {x}, b - {x});
    }
  }

  lemma {:induction false} CollisionsAreEdits(inScope: Scopes, events: seq<CoordinationEvent>)
    ensures CountCollisions(inScope, events) <= CountEdits(events)
  {
    if events != [] {
      CollisionsAreEdits(inScope, Init(events));
    }
  }

  lemma RateInUnitInterval(count: nat, total: nat)
    requires count <= total
    ensures 0.0 <= Rate(count, total) <= 1.0
  {
    var d := if total < 1 then 1 else total;
    var x := count as real / d as real;
    assert 0.0 <= x <= 1.0;
    assert 0.0 <= x * MILLIS <= 1000.0;
  }

  /** For any events whatever, all three rates lie between zero and one. */
  lemma RatesInUnitInterval(inScope: Scopes, results: seq<WorkerResult>)
    ensures var s := ScoreOf(inScope, results);
      0.0 <= s.conflictRate <= 1.0 && 0.0 <= s.duplicateWorkRate <= 1.0 && 0.0 <= s.scopeCollisionRate <= 1.0
  {
    hide Rate, EditedPaths, NamedTasks, WorkersOn, DigestsAt;
    var events := AllEvents(results);
    SubsetSize(ConflictedPaths(events), EditedPaths(events));
    SubsetSize(DuplicatedTasks(events), NamedTasks(events));
    CollisionsAreEdits(inScope, events);
    RateInUnitInterval(|ConflictedPaths(events)|, |EditedPaths(events)|);
    RateInUnitInterval(|DuplicatedTasks(events)|, |NamedTasks(events)|);
    RateInUnitInterval(CountCollisions(inScope, events), CountEdits(events));
  }

  // ---------------------------------------------------------------- what the counts mean

  /** Two edits of one path. */
  predicate EditSamePath(e: CoordinationEvent, f: CoordinationEvent) {
    e.event == "edit" && f.event == "edit" && e.path.Some? && e.path == f.path && e.path.value != ""
  }

  /** Two events of one logical task. */
  predicate ShareTask(e: CoordinationEvent, f: CoordinationEvent) {
    e.logicalTask.Some? && e.logicalTask == f.logicalTask && e.logicalTask.value != ""
  }

  lemma TwoElements<T(!new)>(s: set<T>)
    ensures |s| > 1 <==> exists x, y :: x in s && y in s && x != y
  {
    if x, y :| x in s && y in s && x != y {
      SubsetSize({x, y}, s);
    } else {
      SingletonSize(s);
    }
  }

  lemma SingletonSize<T(!new)>(s: set<T>)
    requires forall x, y :: x in s && y in s ==> x == y
    ensures |s| <= 1
  {
    if s != {} {
      var x :| x in s;
      assert s == {x};
    }
  }

  /** A conflicting edit is a path that was edited twice with different digests. */
  lemma ConflictsAreClobberedPaths(events: seq<CoordinationEvent>, p: string)
    ensures p in ConflictedPaths(events) <==>
      exists e, f :: e in events && f in events && EditSamePath(e, f) && e.path == Some(p) && TextOr(e.contentDigest) != TextOr(f.contentDigest)
  {
    TwoElements(DigestsAt(events, p));
    if p in ConflictedPaths(events) {
      var x, y :| x in DigestsAt(events, p) && y in DigestsAt(events, p) && x != y;
      var e :| e in events && IsEdit(e) && TextOr(e.path) == p && TextOr(e.contentDigest) == x;
      var f :| f in events && IsEdit(f) && TextOr(f.path) == p && TextOr(f.contentDigest) == y;
      assert EditSamePath(e, f);
    }
    if e, f :| e in events && f in events && EditSamePath(e, f) && e.path == Some(p) && TextOr(e.contentDigest) != TextOr(f.contentDigest) {
      assert IsEdit(e) && IsEdit(f);
      assert TextOr(e.contentDigest) in DigestsAt(events, p) && TextOr(f.contentDigest) in DigestsAt(events, p);
    }
  }

  /** Duplicated work is a logical task that two different workers name. */
  lemma DuplicatesAreSharedTasks(events: seq<CoordinationEvent>, t: string)
    ensures t in DuplicatedTasks(events) <==>
      exists e, f :: e in events && f in events && ShareTask(e, f) && e.logicalTask == Some(t) && e.workerId != f.workerId
  {
    TwoElements(WorkersOn(events, t));
    if t in DuplicatedTasks(events) {
      var x, y :| x in WorkersOn(events, t) && y in WorkersOn(events, t) && x != y;
      var e :| e in events && NamesTask(e) && TextOr(e.logicalTask) == t && e.workerId == x;
      var f :| f in events && NamesTask(f) && TextOr(f.logicalTask) == t && f.workerId == y;
      assert ShareTask(e, f);
    }
    if e, f :| e in events && f in events && ShareTask(e, f) && e.logicalTask == Some(t) && e.workerId != f.workerId {
      assert NamesTask(e) && NamesTask(f);
      assert e.workerId in WorkersOn(events, t) && f.workerId in WorkersOn(events, t);
    }
  }

  lemma {:induction false} CollisionsAreOutside(inScope: Scopes, events: seq<CoordinationEvent>)
    ensures CountCollisions(inScope, events) == 0 <==>
      forall e :: e in events && EditSamePath(e, e) ==> inScope(e.workerId, e.path.value)
  {
    if events != [] {
      CollisionsAreOutside(inScope, Init(events));
      assert events == Init(events) + [Last(events)];
      assert EditSamePath(Last(events), Last(events)) <==> IsEdit(Last(events));
    }
  }

  /**
    When each number of a score is zero, and when it reports joint success. No conflict: edits of one
    path agree on its digest. No duplicate: events of one task come from one worker. No collision:
    every edit lies in the scope of its worker.
   */
  lemma ScoreIsZeroExactly(inScope: Scopes, results: seq<WorkerResult>)
    ensures var s, events := ScoreOf(inScope, results), AllEvents(results);
      && (s.conflictingEdits == 0 <==> forall e, f :: e in events && f in events && EditSamePath(e, f) ==> TextOr(e.contentDigest) == TextOr(f.contentDigest))
      && (s.duplicatedWork == 0 <==> forall e, f :: e in events && f in events && ShareTask(e, f) ==> e.workerId == f.workerId)
      && (s.scopeCollisions == 0 <==> forall e :: e in events && EditSamePath(e, e) ==> inScope(e.workerId, e.path.value))
      && (s.jointSuccess <==> results != [] && forall r :: r in results ==> r.success)
  {
    hide Rate, ConflictedPaths, DuplicatedTasks, EditedPaths, NamedTasks, CountCollisions, CountEdits;
    var s, events := ScoreOf(inScope, results), AllEvents(results);
    CollisionsAreOutside(inScope, events);
    NoConflict(events);
    NoDuplicate(events);
    assert s.jointSuccess <==> results != [] && AllSucceed(results);
    assert AllSucceed(results) <==> forall r :: r in results ==> r.success;
  }

  lemma NoConflict(events: seq<CoordinationEvent>)
    ensures |ConflictedPaths(events)| == 0 <==>
      forall e, f :: e in events && f in events && EditSamePath(e, f) ==> TextOr(e.contentDigest) == TextOr(f.contentDigest)
  {
    hide ConflictedPaths;
    if p :| p in ConflictedPaths(events) {
      ConflictsAreClobberedPaths(events, p);
    }
    if e, f :| e in events && f in events && EditSamePath(e, f) && TextOr(e.contentDigest) != TextOr(f.contentDigest) {
      ConflictsAreClobberedPaths(events, e.path.value);
    }
  }

  lemma NoDuplicate(events: seq<CoordinationEvent>)
    ensures |DuplicatedTasks(events)| == 0 <==>
      forall e, f :: e in events && f in events && ShareTask(e, f) ==> e.workerId == f.workerId
  {
    hide DuplicatedTasks;
    if t :| t in DuplicatedTasks(events) {
      DuplicatesAreSharedTasks(events, t);
    }
    if e, f :| e in events && f in events && ShareTask(e, f) && e.workerId != f.workerId {
      DuplicatesAreSharedTasks(events, e.logicalTask.value);
    }
  }

  /** Each rate is its count over the number of edited paths, named tasks and edits, to half a thousandth. */
  lemma RatesAreShares(inScope: Scopes, results: seq<WorkerResult>)
    ensures var s, events := ScoreOf(inScope, results), AllEvents(results);
      && Near(s.conflictRate, Share(s.conflictingEdits, |set e | e in events && EditSamePath(e, e) :: e.path|), MILLIS, 1)
      && Near(s.duplicateWorkRate, Share(s.duplicatedWork, |set e | e in events && ShareTask(e, e) :: e.logicalTask|), MILLIS, 1)
      && Near(s.scopeCollisionRate, Share(s.scopeCollisions, |Edits(events)|), MILLIS, 1)
      && s.scopeCollisions == |Outside(inScope, events)|
  {
    hide ConflictedPaths, DuplicatedTasks, CountCollisions, CountEdits, Round;
    var events := AllEvents(results);
    PathsByName(events);
    TasksByName(events);
    EditsAreCounted(inScope, events);
    RateIsNear(|ConflictedPaths(events)|, |EditedPaths(events)|);
    RateIsNear(|DuplicatedTasks(events)|, |NamedTasks(events)|);
    RateIsNear(CountCollisions(inScope, events), CountEdits(events));
  }

  /** The positions of the edits. */
  ghost function Edits(events: seq<CoordinationEvent>): set<nat> {
    set i: nat | i < |events| && EditSamePath(events[i], events[i])
  }

  ghost function Outside(inScope: Scopes, events: seq<CoordinationEvent>): set<nat> {
    set i | i in Edits(events) && !inScope(events[i].workerId, events[i].path.value)
  }

  lemma EditsNext(inScope: Scopes, events: seq<CoordinationEvent>)
    requires events != []
    ensures var n, last := |events| - 1, Last(events);
      && Edits(events) == Edits(Init(events)) + (if IsEdit(last) then {n} else {}) && n !in Edits(Init(events))
      && Outside(inScope, events) == Outside(inScope, Init(events)) + (if Collides(inScope, last) then {n} else {})
      && n !in Outside(inScope, Init(events))
  {
    var n, front := |events| - 1, Init(events);
    assert forall i :: 0 <= i < n ==> front[i] == events[i];
    assert EditSamePath(events[n], events[n]) <==> IsEdit(events[n]);
    assert Edits(events) == Edits(front) + (if IsEdit(events[n]) then {n} else {});
  }

  lemma {:induction false} EditsAreCounted(inScope: Scopes, events: seq<CoordinationEvent>)
    ensures CountEdits(events) == |Edits(events)| && CountCollisions(inScope, events) == |Outside(inScope, events)|
  {
    hide IsEdit, Collides;
    if events == [] {
      assert Edits(events) == {} && Outside(inScope, events) == {};
    } else {
      EditsNext(inScope, events);
      hide Edits, Outside;
      EditsAreCounted(inScope, Init(events));
    }
  }

  /** A part of a whole; nothing of nothing is nothing. */
  function Share(count: nat, total: nat): real {
    if total == 0 then count as real else count as real / total as real
  }

  lemma RateIsNear(count: nat, total: nat)
    ensures Near(Rate(count, total), Share(count, total), MILLIS, 1)
  {
    RoundIsClose(Share(count, total), MILLIS);
  }

  lemma {:induction false} SomesHaveSize(names: set<string>, somes: set<Option<string>>)
    requires forall o :: o in somes <==> o.Some? && o.value in names
    ensures |names| == |somes|
    decreases names
  {
    if names == {} {
      assert somes == {};
    } else {
      var n :| n in names;
      SomesHaveSize(names - {n}, somes - {Some(n)});
    }
  }

  lemma PathsByName(events: seq<CoordinationEvent>)
    ensures |EditedPaths(events)| == |set e | e in events && EditSamePath(e, e) :: e.path|
  {
    SomesHaveSize(EditedPaths(events), set e | e in events && EditSamePath(e, e) :: e.path);
  }

  lemma TasksByName(events: seq<CoordinationEvent>)
    ensures |NamedTasks(events)| == |set e | e in events && ShareTask(e, e) :: e.logicalTask|
  {
    SomesHaveSize(NamedTasks(events), set e | e in events && ShareTask(e, e) :: e.logicalTask);
  }

  // ---------------------------------------------------------------- order

  /** Remove the first occurrence of x. */
  function Without<T(==)>(s: seq<T>, x: T): seq<T> {
    if s == [] then [] else if s[0] == x then s[1..] else [s[0]] + Without(s[1..], x)
  }

  lemma {:induction false} WithoutElements<T>(s: seq<T>, x: T)
    requires x in s
    ensures multiset(Without(s, x)) == multiset(s) - multiset{x} && |Without(s, x)| == |s| - 1
  {
    assert s == [s[0]] + s[1..];
    if s[0] != x {
      WithoutElements(s[1..], x);
    }
  }

  lemma {:induction false} CountsWithout(inScope: Scopes, events: seq<CoordinationEvent>, x: CoordinationEvent)
    requires x in events
    ensures CountEdits(events) == CountEdits(Without(events, x)) + if IsEdit(x) then 1 else 0
    ensures CountCollisions(inScope, events) == CountCollisions(inScope, Without(events, x)) + if Collides(inScope, x) then 1 else 0
  {
    hide IsEdit, Collides;
    CountsFromFront(inScope, events[0], events[1..]);
    assert events == [events[0]] + events[1..];
    if events[0] != x {
      CountsWithout(inScope, events[1..], x);
      CountsFromFront(inScope, events[0], Without(events[1..], x));
    }
  }

  lemma {:induction false} CountsFromFront(inScope: Scopes, x: CoordinationEvent, events: seq<CoordinationEvent>)
    ensures CountEdits([x] + events) == CountEdits(events) + if IsEdit(x) then 1 else 0
    ensures CountCollisions(inScope, [x] + events) == CountCollisions(inScope, events) + if Collides(inScope, x) then 1 else 0
  {
    hide IsEdit, Collides;
    if events == [] {
      assert Init([x]) == [];
    } else {
      assert Init([x] + events) == [x] + Init(events);
      CountsFromFront(inScope, x, Init(events));
    }
  }

  lemma {:induction false} CountsIgnoreOrder(inScope: Scopes, a: seq<CoordinationEvent>, b: seq<CoordinationEvent>)
    requires multiset(a) == multiset(b)
    ensures CountEdits(a) == CountEdits(b) && CountCollisions(inScope, a) == CountCollisions(inScope, b)
  {
    hide IsEdit, Collides;
    if a == [] {
      assert |multiset(b)| == |b| == 0;
    } else {
      var x := a[0];
      assert x in multiset(b);
      WithoutElements(a, x);
      WithoutElements(b, x);
      CountsWithout(inScope, a, x);
      CountsWithout(inScope, b, x);
      CountsIgnoreOrder(inScope, Without(a, x), Without(b, x));
    }
  }

  lemma SameElements<T>(a: seq<T>, b: seq<T>)
    requires multiset(a) == multiset(b)
    ensures forall x :: x in a <==> x in b
  {
    assert forall x :: (x in a <==> x in multiset(a)) && (x in b <==> x in multiset(b));
  }

  lemma {:induction false} EventsIgnoreResultOrder(a: seq<WorkerResult>, b: seq<WorkerResult>)
    requires multiset(a) == multiset(b)
    ensures multiset(AllEvents(a)) == multiset(AllEvents(b))
  {
    if a == [] {
      assert |multiset(b)| == |b| == 0;
    } else {
      var x := a[0];
      assert x in multiset(b);
      WithoutElements(a, x);
      WithoutElements(b, x);
      EventsWithout(a, x);
      EventsWithout(b, x);
      EventsIgnoreResultOrder(Without(a, x), Without(b, x));
    }
  }

  lemma {:induction false} EventsFromFront(x: WorkerResult, rest: seq<WorkerResult>)
    ensures multiset(AllEvents([x] + rest)) == multiset(x.events) + multiset(AllEvents(rest))
  {
    if rest == [] {
      assert Init([x]) == [] && AllEvents([x]) == [] + x.events;
    } else {
      assert Init([x] + rest) == [x] + Init(rest);
      EventsFromFront(x, Init(rest));
    }
  }

  lemma {:induction false} EventsWithout(results: seq<WorkerResult>, x: WorkerResult)
    requires x in results
    ensures multiset(AllEvents(results)) == multiset(x.events) + multiset(AllEvents(Without(results, x)))
  {
    EventsFromFront(results[0], results[1..]);
    assert results == [results[0]] + results[1..];
    if results[0] != x {
      EventsWithout(results[1..], x);
      EventsFromFront(results[0], Without(results[1..], x));
    }
  }

  /** The score depends only on which events there are and on whether all workers succeeded. */
  lemma ScoreIgnoresEventOrder(inScope: Scopes, a: seq<WorkerResult>, b: seq<WorkerResult>)
    requires multiset(AllEvents(a)) == multiset(AllEvents(b))
    requires a != [] && AllSucceed(a) <==> b != [] && AllSucceed(b)
    ensures ScoreOf(inScope, a) == ScoreOf(inScope, b)
  {
    hide Rate, CountEdits, CountCollisions, IsEdit, NamesTask;
    var x, y := AllEvents(a), AllEvents(b);
    CountsIgnoreOrder(inScope, x, y);
    SameElements(x, y);
    assert EditedPaths(x) == EditedPaths(y) && NamedTasks(x) == NamedTasks(y);
    assert forall p :: DigestsAt(x, p) == DigestsAt(y, p);
    assert forall t :: WorkersOn(x, t) == WorkersOn(y, t);
    assert ConflictedPaths(x) == ConflictedPaths(y) && DuplicatedTasks(x) == DuplicatedTasks(y);
  }

  /** The order in which the workers' results arrive does not matter. */
  lemma ScoreIgnoresResultOrder(inScope: Scopes, a: seq<WorkerResult>, b: seq<WorkerResult>)
    requires multiset(a) == multiset(b)
    ensures ScoreOf(inScope, a) == ScoreOf(inScope, b)
  {
    hide ScoreOf;
    EventsIgnoreResultOrder(a, b);
    SameElements(a, b);
    SameSuccess(a, b);
    SameSuccess(b, a);
    ScoreIgnoresEventOrder(inScope, a, b);
  }

  lemma SameSuccess(a: seq<WorkerResult>, b: seq<WorkerResult>)
    requires forall x :: x in a <==> x in b
    ensures AllSucceed(a) ==> AllSucceed(b)
    ensures a == [] ==> b == []
  {
    if AllSucceed(a) {
      forall i | 0 <= i < |b|
        ensures b[i].success
      {
        assert b[i] in a;
      }
    }
    if b != [] {
      assert b[0] in a;
    }
  }

  // ---------------------------------------------------------------- disjoint scopes

  /** A worker leaves every path in one final version, as a before/after diff reports it. */
  ghost predicate OneVersionPerWorker(events: seq<CoordinationEvent>) {
    forall e, f :: e in events && f in events && IsEdit(e) && IsEdit(f) && e.workerId == f.workerId && TextOr(e.path) == TextOr(f.path) ==>
      TextOr(e.contentDigest) == TextOr(f.contentDigest)
  }

  ghost predicate DisjointScopes(inScope: Scopes) {
    forall v, w, path :: inScope(v, path) && inScope(w, path) ==> v == w
  }

  lemma {:induction false} NoCollisionMeansInScope(inScope: Scopes, events: seq<CoordinationEvent>, e: CoordinationEvent)
    requires CountCollisions(inScope, events) == 0 && e in events
    ensures !Collides(inScope, e)
  {
    if e != Last(events) {
      assert events == Init(events) + [Last(events)];
      NoCollisionMeansInScope(inScope, Init(events), e);
    }
  }

  /** With disjoint scopes, a score without scope collisions has no conflicting edits. */
  lemma DisjointScopesPreventClobbering(inScope: Scopes, results: seq<WorkerResult>)
    requires DisjointScopes(inScope) && OneVersionPerWorker(AllEvents(results))
    requires ScoreOf(inScope, results).scopeCollisions == 0
    ensures ScoreOf(inScope, results).conflictingEdits == 0
  {
    hide Rate, CountCollisions;
    var events := AllEvents(results);
    forall p | p in EditedPaths(events)
      ensures |DigestsAt(events, p)| <= 1
    {
      forall x, y | x in DigestsAt(events, p) && y in DigestsAt(events, p)
        ensures x == y
      {
        var e :| e in events && IsEdit(e) && TextOr(e.path) == p && TextOr(e.contentDigest) == x;
        var f :| f in events && IsEdit(f) && TextOr(f.path) == p && TextOr(f.contentDigest) == y;
        NoCollisionMeansInScope(inScope, events, e);
        NoCollisionMeansInScope(inScope, events, f);
        assert inScope(e.workerId, p) && inScope(f.workerId, p);
      }
      SingletonSize(DigestsAt(events, p));
    }
    assert ConflictedPaths(events) == {};
  }
}
