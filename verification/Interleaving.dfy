/** The two-worker pool of `run_case` (benchmarks/s3/empirical.py) as an interleaving of worker steps. */
module Interleaving {
  import opened Prelude
  import opened Ordering
  import opened Paths
  import opened Coordination
  import opened Workers

  datatype Worker = A | B

  function Name(w: Worker): string {
    match w
    case A => "worker-a"
    case B => "worker-b"
  }

  /** One disk holds both isolated roots: a file is named by the worker's root and its relative path. */
  type Disk = map<(Worker, string), string>

  ghost function ViewOf(disk: Disk, w: Worker): View {
    map k | k in disk && k.0 == w :: k.1 := disk[k]
  }

  datatype Edit = Write(path: string, content: string) | Remove(path: string)

  datatype Reply = Reply(workerId: string, logicalTask: Option<string>)

  datatype Action = Change(edit: Edit) | Look | Answer(reply: Reply)

  /**
    What a worker does. Its next action, and the verdict of the objective check, may depend on all that
    it has seen of its own root so far, and neither has to come to an end.
   */
  datatype Plan = Plan(act: seq<View> -> Action, judge: (Reply, seq<View>) -> Option<bool>)

  datatype Outcome = Finished(result: WorkerResult) | Mismatched

  /** Where a worker stands in `run_worker`. A snapshot is under way file by file, `rest` still to be read. */
  datatype Local =
    | Fresh
    | Before(rest: seq<string>, taken: Snapshot)
    | Working(before: Snapshot, seen: seq<View>)
    | Answered(before: Snapshot, reply: Reply)
    | After(before: Snapshot, reply: Reply, rest: seq<string>, taken: Snapshot)
    | Judging(before: Snapshot, reply: Reply, after: Snapshot, looks: seq<View>)
    | Done(outcome: Outcome)

  datatype Case = Case(plans: Worker -> Plan, digest: string -> string)

  /** The paths that `_snapshot` lists, in its order. */
  ghost function Listed(view: View): seq<string> {
    SortedSet(view.Keys, StringLe)
  }

  /** `_snapshot` reads one file. */
  function ReadFile(view: View, digest: string -> string, taken: Snapshot, path: string): Snapshot {
    if path in view && IsVisible(path) then taken[path := digest(view[path])] else taken
  }

  ghost function ResultFrom(w: Worker, before: Snapshot, reply: Reply, after: Snapshot, success: bool): WorkerResult {
    WorkerResult(Name(w), success, EditEvents(Name(w), reply.logicalTask, before, after),
                 if success then None else Some("objective_postcondition_failed"))
  }

  /** One step of a worker that sees only its own root: its next local state and its edit, if any. */
  ghost function StepOf(c: Case, w: Worker, l: Local, view: View): (Local, Option<Edit>) {
    match l
    case Fresh => (Before(Listed(view), map[]), None)
    case Before(rest, taken) =>
      if rest == [] then (Working(taken, []), None)
      else (Before(rest[1..], ReadFile(view, c.digest, taken, rest[0])), None)
    case Working(before, seen) => (
      match c.plans(w).act(seen + [view])
      case Change(edit) => (Working(before, seen + [view]), Some(edit))
      case Look => (Working(before, seen + [view]), None)
      case Answer(reply) => (if reply.workerId != Name(w) then Done(Mismatched) else Answered(before, reply), None))
    case Answered(before, reply) => (After(before, reply, Listed(view), map[]), None)
    case After(before, reply, rest, taken) =>
      if rest == [] then (Judging(before, reply, taken, []), None)
      else (After(before, reply, rest[1..], ReadFile(view, c.digest, taken, rest[0])), None)
    case Judging(before, reply, after, looks) => (
      match c.plans(w).judge(reply, looks + [view])
      case None => (Judging(before, reply, after, looks + [view]), None)
      case Some(success) => (Done(Finished(ResultFrom(w, before, reply, after, success))), None))
    case Done(_) => (l, None)
  }

  function EditView(view: View, e: Option<Edit>): View {
    match e
    case None => view
    case Some(Write(path, content)) => view[path := content]
    case Some(Remove(path)) => view - {path}
  }

  function EditDisk(disk: Disk, w: Worker, e: Option<Edit>): Disk {
    match e
    case None => disk
    case Some(Write(path, content)) => disk[(w, path) := content]
    case Some(Remove(path)) => disk - {(w, path)}
  }

  datatype System = System(disk: Disk, locals: Worker -> Local)

  ghost function Step(c: Case, s: System, w: Worker): System {
    var (next, edit) := StepOf(c, w, s.locals(w), ViewOf(s.disk, w));
    System(EditDisk(s.disk, w, edit), v => if v == w then next else s.locals(v))
  }

  /** A system after a schedule of worker steps. */
  ghost function RunSchedule(c: Case, disk: Disk, schedule: seq<Worker>): System {
    if schedule == [] then System(disk, _ => Fresh) else Step(c, RunSchedule(c, disk, Init(schedule)), Last(schedule))
  }

  // ---------------------------------------------------------------- isolation

  /** Worker w alone on its own root, for n steps. */
  ghost function Alone(c: Case, w: Worker, view: View, n: nat): (Local, View) {
    if n == 0 then (Fresh, view) else
    var (l, v) := Alone(c, w, view, n - 1);
    var (next, edit) := StepOf(c, w, l, v);
    (next, EditView(v, edit))
  }

  function StepsBy(schedule: seq<Worker>, w: Worker): nat {
    if schedule == [] then 0 else StepsBy(Init(schedule), w) + if Last(schedule) == w then 1 else 0
  }

  /** An edit changes the view of its own worker as on a private root, and no other view. */
  lemma EditsAreIsolated(disk: Disk, w: Worker, e: Option<Edit>, v: Worker)
    ensures ViewOf(EditDisk(disk, w, e), v) == if v == w then EditView(ViewOf(disk, w), e) else ViewOf(disk, v)
  {
    hide ViewOf;
    var after, view := ViewOf(EditDisk(disk, w, e), v), ViewOf(disk, v);
    var expected := if v == w then EditView(view, e) else view;
    forall p
      ensures SameAt(after, expected, p)
    {
      ViewLookup(EditDisk(disk, w, e), v, p);
      ViewLookup(disk, v, p);
    }
    SameEverywhere(after, expected);
  }

  predicate SameAt(a: View, b: View, p: string) {
    (p in a <==> p in b) && (p in a ==> a[p] == b[p])
  }

  lemma SameEverywhere(a: View, b: View)
    requires forall p :: SameAt(a, b, p)
    ensures a == b
  {
    assert forall p :: SameAt(a, b, p) ==> (p in a <==> p in b);
    assert a.Keys == b.Keys;
    forall p | p in a
      ensures a[p] == b[p]
    {
      assert SameAt(a, b, p);
    }
  }

  lemma ViewLookup(disk: Disk, w: Worker, p: string)
    ensures p in ViewOf(disk, w) <==> (w, p) in disk
    ensures p in ViewOf(disk, w) ==> ViewOf(disk, w)[p] == disk[(w, p)]
  {
    if (w, p) in disk {
      assert (w, p).1 in ViewOf(disk, w);
    }
  }

  /** Under every schedule each worker is where it would be alone after as many steps of its own. */
  lemma {:induction false} ScheduleIsolatesWorkers(c: Case, disk: Disk, schedule: seq<Worker>, w: Worker)
    ensures var s := RunSchedule(c, disk, schedule);
      (s.locals(w), ViewOf(s.disk, w)) == Alone(c, w, ViewOf(disk, w), StepsBy(schedule, w))
  {
    hide ViewOf, StepOf;
    if schedule != [] {
      ScheduleIsolatesWorkers(c, disk, Init(schedule), w);
      var s, v := RunSchedule(c, disk, Init(schedule)), Last(schedule);
      var (next, edit) := StepOf(c, v, s.locals(v), ViewOf(s.disk, v));
      EditsAreIsolated(s.disk, v, edit, w);
    }
  }

  /** A worker that is done stays as it is, and so does its root. */
  lemma {:induction false} DoneStays(c: Case, w: Worker, view: View, m: nat, n: nat)
    requires m <= n && Alone(c, w, view, m).0.Done?
    ensures Alone(c, w, view, n) == Alone(c, w, view, m)
  {
    if m < n {
      DoneStays(c, w, view, m, n - 1);
    }
  }

  // ---------------------------------------------------------------- the case

  ghost predicate Completed(s: System) {
    s.locals(A).Done? && s.locals(B).Done?
  }

  datatype CaseResult = Raised(w: Worker) | Scored(score: CoordinationScore, results: seq<WorkerResult>)

  /** The futures are read in the order worker-a, worker-b, whichever finished first. */
  ghost function ResultOf(inScope: Scopes, s: System): CaseResult
    requires Completed(s)
  {
    var a, b := s.locals(A).outcome, s.locals(B).outcome;
    if a.Mismatched? then Raised(A)
    else if b.Mismatched? then Raised(B)
    else Scored(ScoreOf(inScope, [a.result, b.result]), [a.result, b.result])
  }

  function Repeat(w: Worker, n: nat): seq<Worker> {
    seq(n, _ => w)
  }

  /** First all steps that worker-a takes in a schedule, then all those of worker-b. */
  function Sequential(schedule: seq<Worker>): seq<Worker> {
    Repeat(A, StepsBy(schedule, A)) + Repeat(B, StepsBy(schedule, B))
  }

  lemma {:induction false} StepsOfRepeat(w: Worker, n: nat, v: Worker)
    ensures StepsBy(Repeat(w, n), v) == if v == w then n else 0
  {
    if n > 0 {
      assert Init(Repeat(w, n)) == Repeat(w, n - 1);
      StepsOfRepeat(w, n - 1, v);
    }
  }

  lemma {:induction false} StepsOfConcat(x: seq<Worker>, y: seq<Worker>, w: Worker)
    ensures StepsBy(x + y, w) == StepsBy(x, w) + StepsBy(y, w)
  {
    if y == [] {
      assert x + y == x;
    } else {
      assert Init(x + y) == x + Init(y);
      StepsOfConcat(x, Init(y), w);
    }
  }

  lemma StepsOfSequential(schedule: seq<Worker>, w: Worker)
    ensures StepsBy(Sequential(schedule), w) == StepsBy(schedule, w)
  {
    StepsOfConcat(Repeat(A, StepsBy(schedule, A)), Repeat(B, StepsBy(schedule, B)), w);
    StepsOfRepeat(A, StepsBy(schedule, A), w);
    StepsOfRepeat(B, StepsBy(schedule, B), w);
  }

  /** Two disks with the same views are the same disk. */
  lemma ViewsDetermineDisk(d: Disk, e: Disk)
    requires forall w :: ViewOf(d, w) == ViewOf(e, w)
    ensures d == e
  {
    hide ViewOf;
    forall k: (Worker, string)
      ensures k in d <==> k in e
      ensures k in d && k in e ==> d[k] == e[k]
    {
      assert k == (k.0, k.1);
      ViewLookup(d, k.0, k.1);
      ViewLookup(e, k.0, k.1);
    }
    assert d.Keys == e.Keys;
  }

  /** A worker that is done under two schedules is in the same state under both, on the same root. */
  lemma DoneAlike(c: Case, disk: Disk, schedule: seq<Worker>, other: seq<Worker>, w: Worker)
    requires RunSchedule(c, disk, schedule).locals(w).Done? && RunSchedule(c, disk, other).locals(w).Done?
    ensures RunSchedule(c, disk, schedule).locals(w) == RunSchedule(c, disk, other).locals(w)
    ensures ViewOf(RunSchedule(c, disk, schedule).disk, w) == ViewOf(RunSchedule(c, disk, other).disk, w)
  {
    hide RunSchedule, Alone, ViewOf;
    ScheduleIsolatesWorkers(c, disk, schedule, w);
    ScheduleIsolatesWorkers(c, disk, other, w);
    var m, n := StepsBy(schedule, w), StepsBy(other, w);
    if m <= n {
      DoneStays(c, w, ViewOf(disk, w), m, n);
    } else {
      DoneStays(c, w, ViewOf(disk, w), n, m);
    }
  }

  /** Any two schedules in which both workers finish lead to the same results, score and disk. */
  lemma SchedulesAgree(c: Case, disk: Disk, schedule: seq<Worker>, other: seq<Worker>, inScope: Scopes)
    requires Completed(RunSchedule(c, disk, schedule)) && Completed(RunSchedule(c, disk, other))
    ensures ResultOf(inScope, RunSchedule(c, disk, schedule)) == ResultOf(inScope, RunSchedule(c, disk, other))
    ensures RunSchedule(c, disk, schedule).disk == RunSchedule(c, disk, other).disk
  {
    hide RunSchedule, ViewOf, ScoreOf;
    DoneAlike(c, disk, schedule, other, A);
    DoneAlike(c, disk, schedule, other, B);
    forall w: Worker
      ensures ViewOf(RunSchedule(c, disk, schedule).disk, w) == ViewOf(RunSchedule(c, disk, other).disk, w)
    {
      assert w == A || w == B;
    }
    ViewsDetermineDisk(RunSchedule(c, disk, schedule).disk, RunSchedule(c, disk, other).disk);
  }

  /**
    For every interleaving of the two workers' steps in which both finish, the worker results, the
    coordination score and the final disk equal those of running worker-a to its end and then worker-b.
   */
  lemma InterleavingIsSequential(c: Case, disk: Disk, schedule: seq<Worker>, inScope: Scopes)
    requires Completed(RunSchedule(c, disk, schedule))
    ensures Completed(RunSchedule(c, disk, Sequential(schedule)))
    ensures ResultOf(inScope, RunSchedule(c, disk, schedule)) == ResultOf(inScope, RunSchedule(c, disk, Sequential(schedule)))
    ensures RunSchedule(c, disk, schedule).disk == RunSchedule(c, disk, Sequential(schedule)).disk
  {
    hide RunSchedule, Alone, ViewOf, ScoreOf, Sequential;
    forall w: Worker
      ensures RunSchedule(c, disk, Sequential(schedule)).locals(w) == RunSchedule(c, disk, schedule).locals(w)
    {
      StepsOfSequential(schedule, w);
      ScheduleIsolatesWorkers(c, disk, schedule, w);
      ScheduleIsolatesWorkers(c, disk, Sequential(schedule), w);
    }
    SchedulesAgree(c, disk, schedule, Sequential(schedule), inScope);
  }

  // ---------------------------------------------------------------- what a case reports

  /** A snapshot of a root under way: everything listed but not in `rest` has been read. */
  ghost predicate Partial(c: Case, view: View, rest: seq<string>, taken: Snapshot) {
    && (forall i, j :: 0 <= i < j < |rest| ==> rest[i] != rest[j])
    && (forall i :: 0 <= i < |rest| ==> rest[i] in view)
    && taken == map p | p in view && p !in rest && IsVisible(p) :: c.digest(view[p])
  }

  lemma ListedEnumerates(view: View)
    ensures Enumerates(Listed(view), view.Keys)
  {
    StringLeIsOrder();
    SortedSetElements(view.Keys, StringLe);
  }

  lemma ListedIsPartial(c: Case, view: View)
    ensures Partial(c, view, Listed(view), map[])
  {
    hide Listed, IsVisible;
    ListedEnumerates(view);
    assert forall p :: p in Listed(view) <==> p in view.Keys;
  }

  lemma ReadIsPartial(c: Case, view: View, rest: seq<string>, taken: Snapshot)
    requires rest != [] && Partial(c, view, rest, taken)
    ensures Partial(c, view, rest[1..], ReadFile(view, c.digest, taken, rest[0]))
  {
    hide IsVisible;
    var path, next := rest[0], ReadFile(view, c.digest, taken, rest[0]);
    assert forall p :: p in rest <==> p == path || p in rest[1..];
    assert path !in rest[1..];
    var expected := map p | p in view && p !in rest[1..] && IsVisible(p) :: c.digest(view[p]);
    assert next.Keys == expected.Keys;
  }

  lemma ReadAllIsSnapshot(c: Case, view: View, taken: Snapshot)
    requires Partial(c, view, [], taken)
    ensures taken == SnapshotOf(view, c.digest)
  {
    hide IsVisible;
  }

  /** What the root holds when the worker takes its i-th look: the start, or what its last action made of its last look. */
  function ViewAt(c: Case, w: Worker, start: View, seen: seq<View>, i: nat): View
    requires i <= |seen|
  {
    if i == 0 then start else
    match c.plans(w).act(seen[..i])
    case Change(edit) => EditView(seen[i - 1], Some(edit))
    case _ => seen[i - 1]
  }

  /** All that a worker saw, look by look, while it had not answered yet. */
  ghost predicate Transcript(c: Case, w: Worker, start: View, seen: seq<View>) {
    && (forall i :: 0 <= i < |seen| ==> seen[i] == ViewAt(c, w, start, seen, i))
    && (forall i :: 0 < i < |seen| ==> !c.plans(w).act(seen[..i]).Answer?)
  }

  /** On a transcript that ends with this view, the worker answered with this reply. */
  ghost predicate AnsweredWith(c: Case, w: Worker, start: View, reply: Reply, view: View) {
    exists seen: seq<View> :: seen != [] && Transcript(c, w, start, seen) && Last(seen) == view && c.plans(w).act(seen) == Answer(reply)
  }

  /** The objective check, looking at this view over and over, came to this verdict and to none before. */
  ghost predicate Judged(c: Case, w: Worker, reply: Reply, view: View, verdict: bool) {
    exists looks: seq<View> :: && looks != [] && StillLooking(c, w, reply, view, Init(looks)) && Last(looks) == view
      && c.plans(w).judge(reply, looks) == Some(verdict)
  }

  ghost predicate StillLooking(c: Case, w: Worker, reply: Reply, view: View, looks: seq<View>) {
    && (forall i :: 0 <= i < |looks| ==> looks[i] == view)
    && (forall i :: 0 < i <= |looks| ==> c.plans(w).judge(reply, looks[..i]) == None)
  }

  /**
    What a finished worker reports: its own name, the diff between its root before and after with the
    task of its reply on every event, the verdict on that reply, and a failure class if that is negative.
   */
  ghost predicate Reports(c: Case, w: Worker, start: View, view: View, result: WorkerResult) {
    exists reply :: && AnsweredWith(c, w, start, reply, view) && reply.workerId == Name(w)
      && Judged(c, w, reply, view, result.success)
      && result.workerId == Name(w)
      && result.events == EditEvents(Name(w), reply.logicalTask, SnapshotOf(start, c.digest), SnapshotOf(view, c.digest))
      && result.failure == if result.success then None else Some("objective_postcondition_failed")
  }

  /** The worker answered under another name. */
  ghost predicate AnsweredAsOther(c: Case, w: Worker, start: View) {
    exists reply, view :: AnsweredWith(c, w, start, reply, view) && reply.workerId != Name(w)
  }

  /** What a worker alone keeps, from the view it started on. */
  ghost predicate LocalInv(c: Case, w: Worker, start: View, l: Local, view: View) {
    var before := SnapshotOf(start, c.digest);
    match l
    case Fresh => view == start
    case Before(rest, taken) => view == start && Partial(c, view, rest, taken)
    case Working(b, seen) => b == before && AtWork(c, w, start, seen, view)
    case Answered(b, reply) => b == before && AnsweredWith(c, w, start, reply, view) && reply.workerId == Name(w)
    case After(b, reply, rest, taken) =>
      b == before && AnsweredWith(c, w, start, reply, view) && reply.workerId == Name(w) && Partial(c, view, rest, taken)
    case Judging(b, reply, after, looks) =>
      b == before && AnsweredWith(c, w, start, reply, view) && reply.workerId == Name(w) &&
      after == SnapshotOf(view, c.digest) && StillLooking(c, w, reply, view, looks)
    case Done(Mismatched) => AnsweredAsOther(c, w, start)
    case Done(Finished(result)) => Reports(c, w, start, view, result)
  }

  /** The worker has not answered, and its next look will show the view. */
  ghost predicate AtWork(c: Case, w: Worker, start: View, seen: seq<View>, view: View) {
    && Transcript(c, w, start, seen) && view == ViewAt(c, w, start, seen, |seen|)
    && (seen != [] ==> !c.plans(w).act(seen).Answer?)
  }

  lemma LooksAreTranscribed(c: Case, w: Worker, start: View, seen: seq<View>, view: View)
    requires AtWork(c, w, start, seen, view)
    ensures Transcript(c, w, start, seen + [view])
    ensures c.plans(w).act(seen + [view]).Change? ==>
      AtWork(c, w, start, seen + [view], EditView(view, Some(c.plans(w).act(seen + [view]).edit)))
    ensures c.plans(w).act(seen + [view]).Look? ==> AtWork(c, w, start, seen + [view], view)
  {
    var all := seen + [view];
    assert all[..|all|] == all && all[..|seen|] == seen && seen[..|seen|] == seen;
    LooksAgree(c, w, start, seen, view);
    hide EditView;
    assert ViewAt(c, w, start, all, |seen|) == view;
    forall i | 0 < i < |all|
      ensures !c.plans(w).act(all[..i]).Answer?
    {
      assert all[..i] == seen[..i];
    }
  }

  lemma LooksAgree(c: Case, w: Worker, start: View, seen: seq<View>, view: View)
    ensures forall i :: 0 <= i <= |seen| ==> ViewAt(c, w, start, seen + [view], i) == ViewAt(c, w, start, seen, i)
  {
    hide EditView;
    forall i | 0 <= i <= |seen|
      ensures ViewAt(c, w, start, seen + [view], i) == ViewAt(c, w, start, seen, i)
    {
      assert (seen + [view])[..i] == seen[..i];
    }
  }

  lemma WorkKeepsInv(c: Case, w: Worker, start: View, before: Snapshot, seen: seq<View>, view: View)
    requires LocalInv(c, w, start, Working(before, seen), view)
    ensures var (next, edit) := StepOf(c, w, Working(before, seen), view); LocalInv(c, w, start, next, EditView(view, edit))
  {
    hide Transcript, AtWork, SnapshotOf;
    LooksAreTranscribed(c, w, start, seen, view);
    var all := seen + [view];
    if c.plans(w).act(all).Answer? {
      assert all != [] && Last(all) == view;
      assert AnsweredWith(c, w, start, c.plans(w).act(all).reply, view);
    }
  }

  lemma JudgeKeepsInv(c: Case, w: Worker, start: View, before: Snapshot, reply: Reply, after: Snapshot, looks: seq<View>, view: View)
    requires LocalInv(c, w, start, Judging(before, reply, after, looks), view)
    ensures var (next, edit) := StepOf(c, w, Judging(before, reply, after, looks), view); LocalInv(c, w, start, next, EditView(view, edit))
  {
    hide AnsweredWith, SnapshotOf, EditEvents, StillLooking;
    var all := looks + [view];
    assert Init(all) == looks && Last(all) == view;
    LooksOnceMore(c, w, reply, view, looks);
    if c.plans(w).judge(reply, all).Some? {
      assert Judged(c, w, reply, view, c.plans(w).judge(reply, all).value);
    }
  }

  lemma LooksOnceMore(c: Case, w: Worker, reply: Reply, view: View, looks: seq<View>)
    requires StillLooking(c, w, reply, view, looks)
    ensures c.plans(w).judge(reply, looks + [view]) == None ==> StillLooking(c, w, reply, view, looks + [view])
  {
    var all := looks + [view];
    assert all[..|all|] == all;
    assert forall i :: 0 < i < |all| ==> all[..i] == looks[..i];
  }

  lemma StepKeepsInv(c: Case, w: Worker, start: View, l: Local, view: View)
    requires LocalInv(c, w, start, l, view)
    ensures var (next, edit) := StepOf(c, w, l, view); LocalInv(c, w, start, next, EditView(view, edit))
  {
    hide Partial, Listed, ReadFile, SnapshotOf, EditEvents, AnsweredWith, AnsweredAsOther, Reports, AtWork, StillLooking;
    match l
    case Fresh => ListedIsPartial(c, view);
    case Before(rest, taken) =>
      if rest == [] {
        ReadAllIsSnapshot(c, view, taken);
        assert AtWork(c, w, start, [], view) by { NothingSeen(c, w, start); }
      } else {
        ReadIsPartial(c, view, rest, taken);
      }
    case Working(before, seen) => WorkKeepsInv(c, w, start, before, seen, view);
    case Answered(_, _) => ListedIsPartial(c, view);
    case After(_, reply, rest, taken) =>
      if rest == [] {
        ReadAllIsSnapshot(c, view, taken);
        assert StillLooking(c, w, reply, view, []) by { NotLookedYet(c, w, reply, view); }
      } else {
        ReadIsPartial(c, view, rest, taken);
      }
    case Judging(before, reply, after, looks) => JudgeKeepsInv(c, w, start, before, reply, after, looks, view);
    case Done(_) =>
  }

  lemma NothingSeen(c: Case, w: Worker, start: View)
    ensures AtWork(c, w, start, [], start)
  {
  }

  lemma NotLookedYet(c: Case, w: Worker, reply: Reply, view: View)
    ensures StillLooking(c, w, reply, view, [])
  {
  }

  lemma {:induction false} AloneKeepsInv(c: Case, w: Worker, start: View, n: nat)
    ensures var (l, view) := Alone(c, w, start, n); LocalInv(c, w, start, l, view)
  {
    hide StepOf, LocalInv;
    if n == 0 {
      assert LocalInv(c, w, start, Fresh, start) by { FreshIsInv(c, w, start); }
    } else {
      AloneKeepsInv(c, w, start, n - 1);
      var (l, view) := Alone(c, w, start, n - 1);
      StepKeepsInv(c, w, start, l, view);
    }
  }

  lemma FreshIsInv(c: Case, w: Worker, start: View)
    ensures LocalInv(c, w, start, Fresh, start)
  {
  }

  /** Under every schedule, a worker that is done reports truly, or answered under another name. */
  lemma DoneReportsTruly(c: Case, disk: Disk, schedule: seq<Worker>, w: Worker)
    requires RunSchedule(c, disk, schedule).locals(w).Done?
    ensures var s := RunSchedule(c, disk, schedule); var outcome := s.locals(w).outcome;
      if outcome.Finished? then Reports(c, w, ViewOf(disk, w), ViewOf(s.disk, w), outcome.result)
      else AnsweredAsOther(c, w, ViewOf(disk, w))
  {
    hide RunSchedule, Alone, ViewOf, Reports, AnsweredAsOther;
    ScheduleIsolatesWorkers(c, disk, schedule, w);
    AloneKeepsInv(c, w, ViewOf(disk, w), StepsBy(schedule, w));
  }

  /** Applying the events of a report to the root before gives the root after, each changed path has one event. */
  lemma ReportReplays(c: Case, w: Worker, start: View, view: View, result: WorkerResult)
    requires Reports(c, w, start, view, result)
    ensures Replay(SnapshotOf(start, c.digest), result.events) == SnapshotOf(view, c.digest)
    ensures OneVersionPerWorker(result.events) && forall e :: e in result.events ==> e.workerId == Name(w)
  {
    hide EditEvents, Replay, AnsweredWith, Judged, SnapshotOf;
    var reply: Reply :| result.events == EditEvents(Name(w), reply.logicalTask, SnapshotOf(start, c.digest), SnapshotOf(view, c.digest));
    EventsReplayDiff(Name(w), reply.logicalTask, SnapshotOf(start, c.digest), SnapshotOf(view, c.digest));
    DiffHasOneVersion(w, reply.logicalTask, result, SnapshotOf(start, c.digest), SnapshotOf(view, c.digest));
  }

  lemma DiffHasOneVersion(w: Worker, task: Option<string>, result: WorkerResult, before: Snapshot, after: Snapshot)
    requires result.events == EditEvents(Name(w), task, before, after)
    ensures OneVersionPerWorker(result.events)
    ensures forall e :: e in result.events ==> e.workerId == Name(w)
  {
    hide EditEvents;
    OneEventPerChange(Name(w), task, before, after);
    forall e, f | e in result.events && f in result.events && IsEdit(e) && IsEdit(f) && TextOr(e.path) == TextOr(f.path)
      ensures TextOr(e.contentDigest) == TextOr(f.contentDigest)
    {
      assert e.path == f.path;
    }
  }

  /**
    What a completed case reports, under every schedule. If both workers answered under their own names:
    a true report of each, and joint success exactly when both verdicts are positive. Otherwise it is
    raised for a worker that did not, worker-a first.
   */
  lemma CaseReportsTruly(c: Case, disk: Disk, schedule: seq<Worker>, inScope: Scopes)
    requires Completed(RunSchedule(c, disk, schedule))
    ensures var s := RunSchedule(c, disk, schedule);
      match ResultOf(inScope, s)
      case Scored(score, results) =>
        && |results| == 2 && results[0].workerId == "worker-a" && results[1].workerId == "worker-b"
        && Reports(c, A, ViewOf(disk, A), ViewOf(s.disk, A), results[0])
        && Reports(c, B, ViewOf(disk, B), ViewOf(s.disk, B), results[1])
        && score == ScoreOf(inScope, results)
        && (score.jointSuccess <==> results[0].success && results[1].success)
      case Raised(w) => AnsweredAsOther(c, w, ViewOf(disk, w)) && (w == B ==> s.locals(A).outcome.Finished?)
  {
    hide RunSchedule, ViewOf, Reports, AnsweredAsOther, ConflictedPaths, DuplicatedTasks, CountCollisions, Rate;
    DoneReportsTruly(c, disk, schedule, A);
    DoneReportsTruly(c, disk, schedule, B);
    var r := ResultOf(inScope, RunSchedule(c, disk, schedule));
    if r.Scored? {
      ReportNames(c, A, ViewOf(disk, A), ViewOf(RunSchedule(c, disk, schedule).disk, A), r.results[0]);
      ReportNames(c, B, ViewOf(disk, B), ViewOf(RunSchedule(c, disk, schedule).disk, B), r.results[1]);
    }
  }

  lemma ReportNames(c: Case, w: Worker, start: View, view: View, result: WorkerResult)
    requires Reports(c, w, start, view, result)
    ensures result.workerId == Name(w)
  {
  }

  // ---------------------------------------------------------------- progress

  /** On its own root the worker comes to an answer under its own name, and its objective check to this verdict. */
  ghost predicate ComesToVerdict(c: Case, w: Worker, start: View, verdict: bool) {
    exists reply, view :: AnsweredWith(c, w, start, reply, view) && reply.workerId == Name(w) && Judged(c, w, reply, view, verdict)
  }

  lemma AloneNext(c: Case, w: Worker, start: View, n: nat)
    ensures var (l, v) := Alone(c, w, start, n); var (next, edit) := StepOf(c, w, l, v);
      Alone(c, w, start, n + 1) == (next, EditView(v, edit))
  {
    hide StepOf;
  }

  lemma {:induction false} FirstSnapshotEnds(c: Case, w: Worker, start: View, n: nat, rest: seq<string>, taken: Snapshot) returns (m: nat, b: Snapshot)
    requires Alone(c, w, start, n) == (Before(rest, taken), start)
    ensures Alone(c, w, start, m) == (Working(b, []), start)
    decreases |rest|
  {
    hide Alone, ReadFile;
    AloneNext(c, w, start, n);
    if rest == [] {
      m, b := n + 1, taken;
    } else {
      m, b := FirstSnapshotEnds(c, w, start, n + 1, rest[1..], ReadFile(start, c.digest, taken, rest[0]));
    }
  }

  lemma {:induction false} WorkEnds(c: Case, w: Worker, start: View, n: nat, b: Snapshot, seen: seq<View>, i: nat, reply: Reply) returns (m: nat)
    requires seen != [] && Transcript(c, w, start, seen) && c.plans(w).act(seen) == Answer(reply) && reply.workerId == Name(w)
    requires i < |seen| && Alone(c, w, start, n) == (Working(b, seen[..i]), seen[i])
    ensures Alone(c, w, start, m) == (Answered(b, reply), Last(seen))
    decreases |seen| - i
  {
    hide Alone, EditView, Transcript, ViewAt, Listed, ReadFile, EditEvents;
    AloneNext(c, w, start, n);
    assert seen[..i] + [seen[i]] == seen[..i + 1];
    m := n + 1;
    if i + 1 == |seen| {
      assert seen[..i + 1] == seen;
      assert EditView(seen[i], None) == seen[i] by { NoEdit(seen[i]); }
    } else {
      NextLook(c, w, start, seen, i);
      NoEdit(seen[i]);
      m := WorkEnds(c, w, start, n + 1, b, seen, i + 1, reply);
    }
  }

  lemma NextLook(c: Case, w: Worker, start: View, seen: seq<View>, i: nat)
    requires Transcript(c, w, start, seen) && i + 1 < |seen|
    ensures !c.plans(w).act(seen[..i + 1]).Answer?
    ensures seen[i + 1] == match c.plans(w).act(seen[..i + 1]) case Change(edit) => EditView(seen[i], Some(edit)) case _ => seen[i]
  {
    assert seen[i + 1] == ViewAt(c, w, start, seen, i + 1);
  }

  lemma NoEdit(view: View)
    ensures EditView(view, None) == view
  {
  }

  lemma {:induction false} SecondSnapshotEnds(c: Case, w: Worker, start: View, view: View, n: nat, b: Snapshot, reply: Reply, rest: seq<string>, taken: Snapshot)
    returns (m: nat, after: Snapshot)
    requires Alone(c, w, start, n) == (After(b, reply, rest, taken), view)
    ensures Alone(c, w, start, m) == (Judging(b, reply, after, []), view)
    decreases |rest|
  {
    hide Alone, ReadFile;
    AloneNext(c, w, start, n);
    if rest == [] {
      m, after := n + 1, taken;
    } else {
      m, after := SecondSnapshotEnds(c, w, start, view, n + 1, b, reply, rest[1..], ReadFile(view, c.digest, taken, rest[0]));
    }
  }

  lemma {:induction false} JudgingEnds(c: Case, w: Worker, start: View, view: View, n: nat, b: Snapshot, reply: Reply, after: Snapshot,
                                       looks: seq<View>, i: nat, verdict: bool) returns (m: nat)
    requires looks != [] && StillLooking(c, w, reply, view, Init(looks)) && Last(looks) == view && c.plans(w).judge(reply, looks) == Some(verdict)
    requires i < |looks| && Alone(c, w, start, n) == (Judging(b, reply, after, looks[..i]), view)
    ensures Alone(c, w, start, m).0 == Done(Finished(ResultFrom(w, b, reply, after, verdict)))
    decreases |looks| - i
  {
    hide Alone, ResultFrom;
    AloneNext(c, w, start, n);
    assert looks[i] == view;
    assert looks[..i] + [view] == looks[..i + 1];
    m := n + 1;
    if i + 1 == |looks| {
      assert looks[..i + 1] == looks;
    } else {
      assert Init(looks)[..i + 1] == looks[..i + 1];
      m := JudgingEnds(c, w, start, view, n + 1, b, reply, after, looks, i + 1, verdict);
    }
  }

  lemma FirstLook(c: Case, w: Worker, start: View, seen: seq<View>)
    requires seen != [] && Transcript(c, w, start, seen)
    ensures seen[0] == start && seen[..0] == []
  {
    assert seen[0] == ViewAt(c, w, start, seen, 0);
  }

  lemma Started(c: Case, w: Worker, start: View)
    ensures Alone(c, w, start, 1) == (Before(Listed(start), map[]), start)
  {
    hide Listed;
    AloneNext(c, w, start, 0);
  }

  lemma Relisted(c: Case, w: Worker, start: View, n: nat, b: Snapshot, reply: Reply, view: View)
    requires Alone(c, w, start, n) == (Answered(b, reply), view)
    ensures Alone(c, w, start, n + 1) == (After(b, reply, Listed(view), map[]), view)
  {
    hide Listed, Alone;
    AloneNext(c, w, start, n);
  }

  lemma WorkerFinishesWith(c: Case, w: Worker, start: View, seen: seq<View>, reply: Reply, looks: seq<View>, verdict: bool) returns (n: nat)
    requires seen != [] && Transcript(c, w, start, seen) && c.plans(w).act(seen) == Answer(reply) && reply.workerId == Name(w)
    requires looks != [] && StillLooking(c, w, reply, Last(seen), Init(looks)) && Last(looks) == Last(seen)
    requires c.plans(w).judge(reply, looks) == Some(verdict)
    ensures var l := Alone(c, w, start, n).0; l.Done? && l.outcome.Finished? && l.outcome.result.success == verdict
  {
    hide Transcript, StillLooking, Alone, Listed, EditEvents;
    FirstLook(c, w, start, seen);
    Started(c, w, start);
    var m, b := FirstSnapshotEnds(c, w, start, 1, Listed(start), map[]);
    m := WorkEnds(c, w, start, m, b, seen, 0, reply);
    Relisted(c, w, start, m, b, reply, Last(seen));
    var k, after := SecondSnapshotEnds(c, w, start, Last(seen), m + 1, b, reply, Listed(Last(seen)), map[]);
    assert looks[..0] == [];
    n := JudgingEnds(c, w, start, Last(seen), k, b, reply, after, looks, 0, verdict);
  }

  /** A worker that comes to a verdict is done after some number of steps of its own. */
  lemma WorkerFinishes(c: Case, w: Worker, start: View, verdict: bool) returns (n: nat)
    requires ComesToVerdict(c, w, start, verdict)
    ensures var l := Alone(c, w, start, n).0; l.Done? && l.outcome.Finished? && l.outcome.result.success == verdict
  {
    hide Transcript, StillLooking, Alone;
    var reply, view :| AnsweredWith(c, w, start, reply, view) && reply.workerId == Name(w) && Judged(c, w, reply, view, verdict);
    var seen: seq<View> :| seen != [] && Transcript(c, w, start, seen) && Last(seen) == view && c.plans(w).act(seen) == Answer(reply);
    var looks: seq<View> :| looks != [] && StillLooking(c, w, reply, view, Init(looks)) && Last(looks) == view
      && c.plans(w).judge(reply, looks) == Some(verdict);
    n := WorkerFinishesWith(c, w, start, seen, reply, looks, verdict);
  }

  lemma JointSuccess(inScope: Scopes, x: WorkerResult, y: WorkerResult)
    ensures ScoreOf(inScope, [x, y]).jointSuccess <==> x.success && y.success
  {
    hide ConflictedPaths, DuplicatedTasks, CountCollisions, Rate;
    assert [x, y][0] == x && [x, y][1] == y;
  }

  /**
    A case whose workers come to verdicts is completed and scored by every schedule that gives each of
    them enough steps, whatever their order, and those verdicts are what it reports.
   */
  lemma CaseCompletes(c: Case, disk: Disk, verdicts: Worker -> bool) returns (a: nat, b: nat)
    requires forall w :: ComesToVerdict(c, w, ViewOf(disk, w), verdicts(w))
    ensures forall schedule, inScope :: StepsBy(schedule, A) >= a && StepsBy(schedule, B) >= b ==>
      var s := RunSchedule(c, disk, schedule);
      Completed(s) && ResultOf(inScope, s).Scored? &&
      (ResultOf(inScope, s).score.jointSuccess <==> verdicts(A) && verdicts(B))
  {
    hide ViewOf, ComesToVerdict, RunSchedule, Alone;
    a := WorkerFinishes(c, A, ViewOf(disk, A), verdicts(A));
    b := WorkerFinishes(c, B, ViewOf(disk, B), verdicts(B));
    forall schedule, inScope: Scopes | StepsBy(schedule, A) >= a && StepsBy(schedule, B) >= b
      ensures
        var s := RunSchedule(c, disk, schedule);
        Completed(s) && ResultOf(inScope, s).Scored? &&
        (ResultOf(inScope, s).score.jointSuccess <==> verdicts(A) && verdicts(B))
    {
      hide ScoreOf;
      ScheduleIsolatesWorkers(c, disk, schedule, A);
      ScheduleIsolatesWorkers(c, disk, schedule, B);
      DoneStays(c, A, ViewOf(disk, A), a, StepsBy(schedule, A));
      DoneStays(c, B, ViewOf(disk, B), b, StepsBy(schedule, B));
      var s := RunSchedule(c, disk, schedule);
      JointSuccess(inScope, s.locals(A).outcome.result, s.locals(B).outcome.result);
    }
  }

  lemma TwoDiffsHaveOneVersion(a: WorkerResult, b: WorkerResult)
    requires OneVersionPerWorker(a.events) && OneVersionPerWorker(b.events)
    requires forall e :: e in a.events ==> e.workerId == Name(A)
    requires forall e :: e in b.events ==> e.workerId == Name(B)
    ensures OneVersionPerWorker(AllEvents([a, b]))
  {
    assert Init([a, b]) == [a] && Init([a]) == [];
    assert AllEvents([a]) == [] + a.events && AllEvents([a, b]) == AllEvents([a]) + b.events;
    assert AllEvents([a, b]) == a.events + b.events;
    assert Name(A)[7] != Name(B)[7];
  }

  /**
    For every interleaving: if no path lies in both scopes and the score reports no scope collision,
    it reports no conflicting edit.
   */
  lemma ScopedWorkersNeverClobber(c: Case, disk: Disk, schedule: seq<Worker>, inScope: Scopes)
    requires Completed(RunSchedule(c, disk, schedule)) && DisjointScopes(inScope)
    requires var r := ResultOf(inScope, RunSchedule(c, disk, schedule)); r.Scored? && r.score.scopeCollisions == 0
    ensures ResultOf(inScope, RunSchedule(c, disk, schedule)).score.conflictingEdits == 0
  {
    hide RunSchedule, ViewOf, ScoreOf, Reports, AnsweredAsOther, OneVersionPerWorker, Name;
    var s := RunSchedule(c, disk, schedule);
    var results := ResultOf(inScope, s).results;
    DoneReportsTruly(c, disk, schedule, A);
    DoneReportsTruly(c, disk, schedule, B);
    ReportReplays(c, A, ViewOf(disk, A), ViewOf(s.disk, A), results[0]);
    ReportReplays(c, B, ViewOf(disk, B), ViewOf(s.disk, B), results[1]);
    TwoDiffsHaveOneVersion(results[0], results[1]);
    DisjointScopesPreventClobbering(inScope, results);
  }
}
