/**
  benchmarks/s3/empirical.py: two workers on their own roots of one disk, each bracketed by snapshots,
  as an interleaving of their steps.
 */
module Workers {
  import opened Prelude
  import opened Ordering
  import opened Paths
  import opened Coordination

  // ---------------------------------------------------------------- snapshots and their difference

  /** Relative path to content, below one root. */
  type View = map<string, string>

  /** Relative path to content digest. */
  type Snapshot = map<string, string>

  predicate IsVisible(path: string) {
    ".git" !in Split(path)
  }

  function SnapshotOf(view: View, digest: string -> string): Snapshot {
    map p | p in view && IsVisible(p) :: digest(view[p])
  }

  /** `_snapshot`: fills a dictionary file by file; the digest is a given function. */
  method TakeSnapshot(view: View, digest: string -> string) returns (result: Snapshot)
    ensures result == SnapshotOf(view, digest)
  {
    hide IsVisible;
    result := map[];
    var rest := view.Keys;
    while rest != {}
      invariant rest <= view.Keys
      invariant result == map p | p in view.Keys - rest && IsVisible(p) :: digest(view[p])
      decreases rest
    {
      var path :| path in rest;
      if IsVisible(path) {
        result := result[path := digest(view[path])];
      }
      rest := rest - {path};
    }
  }

  /** A snapshot holds the digests of exactly the files no component of whose path is `.git`. */
  lemma SnapshotSkipsGit(view: View, digest: string -> string, path: Path)
    requires path != [] && NormalPath(path)
    ensures Lookup(SnapshotOf(view, digest), PosixString(path)) ==
      if PosixString(path) in view && ".git" !in path then Some(digest(view[PosixString(path)])) else None
  {
    SplitOfPosix(path);
  }

  /** `snapshot.get(path)` */
  function Lookup(s: Snapshot, path: string): Option<string> {
    if path in s then Some(s[path]) else None
  }

  predicate Changed(before: Snapshot, after: Snapshot, path: string) {
    Lookup(before, path) != Lookup(after, path)
  }

  /** The edit events for a list of paths: one per changed path, numbered from zero. */
  function EventsFor(worker: string, task: Option<string>, before: Snapshot, after: Snapshot, paths: seq<string>): seq<CoordinationEvent> {
    if paths == [] then [] else
    var front := EventsFor(worker, task, before, after, Init(paths));
    if Changed(before, after, Last(paths)) then
      front + [CoordinationEvent(worker, "edit", Some(Last(paths)), Lookup(after, Last(paths)), task, |front|)]
    else front
  }

  /** The edit events of a worker: over `sorted(set(before) | set(after))`. */
  ghost function EditEvents(worker: string, task: Option<string>, before: Snapshot, after: Snapshot): seq<CoordinationEvent> {
    EventsFor(worker, task, before, after, SortedSet(before.Keys + after.Keys, StringLe))
  }

  method DiffEvents(worker: string, task: Option<string>, before: Snapshot, after: Snapshot) returns (events: seq<CoordinationEvent>)
    ensures events == EditEvents(worker, task, before, after)
  {
    hide StringLe, Lookup, Changed;
    StringLeIsOrder();
    var changed := SortSet(before.Keys + after.Keys, StringLe);
    events := [];
    for i := 0 to |changed|
      invariant events == EventsFor(worker, task, before, after, changed[..i])
    {
      assert Init(changed[..i + 1]) == changed[..i];
      if Changed(before, after, changed[i]) {
        events := events + [CoordinationEvent(worker, "edit", Some(changed[i]), Lookup(after, changed[i]), task, |events|)];
      }
    }
    assert changed[..|changed|] == changed;
  }

  /** Apply edit events to a snapshot; a missing digest is a deletion. */
  function Replay(s: Snapshot, events: seq<CoordinationEvent>): Snapshot {
    if events == [] then s else
    var front := Replay(s, Init(events));
    var e := Last(events);
    if e.path.None? then front
    else if e.contentDigest.Some? then front[e.path.value := e.contentDigest.value]
    else front - {e.path.value}
  }

  lemma {:induction false} ReplayOnPaths(worker: string, task: Option<string>, before: Snapshot, after: Snapshot, paths: seq<string>, p: string)
    ensures Lookup(Replay(before, EventsFor(worker, task, before, after, paths)), p) ==
            if p in paths then Lookup(after, p) else Lookup(before, p)
  {
    if paths != [] {
      var front, last := Init(paths), Last(paths);
      ReplayOnPaths(worker, task, before, after, front, p);
      assert paths == front + [last];
      var events := EventsFor(worker, task, before, after, paths);
      if Changed(before, after, last) {
        assert Init(events) == EventsFor(worker, task, before, after, front);
      }
    }
  }

  lemma SnapshotsAgree(a: Snapshot, b: Snapshot)
    requires forall p :: Lookup(a, p) == Lookup(b, p)
    ensures a == b
  {
    assert forall p :: p in a <==> Lookup(a, p).Some?;
    assert forall p :: p in b <==> Lookup(b, p).Some?;
    assert a.Keys == b.Keys;
    forall p | p in a
      ensures a[p] == b[p]
    {
      assert Lookup(a, p) == Lookup(b, p);
    }
  }

  /** Applying a worker's edit events to its "before" snapshot gives exactly its "after" snapshot. */
  lemma EventsReplayDiff(worker: string, task: Option<string>, before: Snapshot, after: Snapshot)
    ensures Replay(before, EditEvents(worker, task, before, after)) == after
  {
    hide StringLe, Replay, EventsFor;
    var paths := SortedSet(before.Keys + after.Keys, StringLe);
    StringLeIsOrder();
    SortedSetElements(before.Keys + after.Keys, StringLe);
    var replayed := Replay(before, EditEvents(worker, task, before, after));
    forall p
      ensures Lookup(replayed, p) == Lookup(after, p)
    {
      ReplayOnPaths(worker, task, before, after, paths, p);
    }
    SnapshotsAgree(replayed, after);
  }

  /** Every event is an edit by its worker, numbered by its position, of a changed path from the list. */
  lemma {:induction false} EventsAreNumbered(worker: string, task: Option<string>, before: Snapshot, after: Snapshot, paths: seq<string>, i: nat)
    requires i < |EventsFor(worker, task, before, after, paths)|
    ensures var e := EventsFor(worker, task, before, after, paths)[i];
      && e.workerId == worker && e.event == "edit" && e.sequence == i && e.path.Some?
      && e.path.value in paths && Changed(before, after, e.path.value) && e.contentDigest == Lookup(after, e.path.value)
      && e.logicalTask == task
  {
    var front := EventsFor(worker, task, before, after, Init(paths));
    assert paths == Init(paths) + [Last(paths)];
    if i < |front| {
      EventsAreNumbered(worker, task, before, after, Init(paths), i);
    }
  }

  /** Distinct paths give events in the same order as the paths. */
  lemma {:induction false} EventsFollowPaths(worker: string, task: Option<string>, before: Snapshot, after: Snapshot, paths: seq<string>, i: nat, j: nat)
    requires forall a, b :: 0 <= a < b < |paths| ==> paths[a] != paths[b]
    requires i < j < |EventsFor(worker, task, before, after, paths)|
    ensures EventsFor(worker, task, before, after, paths)[i].path != EventsFor(worker, task, before, after, paths)[j].path
  {
    var front := EventsFor(worker, task, before, after, Init(paths));
    if j < |front| {
      EventsFollowPaths(worker, task, before, after, Init(paths), i, j);
    } else {
      EventsAreNumbered(worker, task, before, after, Init(paths), i);
    }
  }

  lemma {:induction false} EveryChangeHasAnEvent(worker: string, task: Option<string>, before: Snapshot, after: Snapshot, paths: seq<string>, p: string)
    requires p in paths && Changed(before, after, p)
    ensures exists i :: 0 <= i < |EventsFor(worker, task, before, after, paths)| && EventsFor(worker, task, before, after, paths)[i].path == Some(p)
  {
    hide Changed;
    var front := EventsFor(worker, task, before, after, Init(paths));
    var events := EventsFor(worker, task, before, after, paths);
    if p == Last(paths) {
      assert events[|front|].path == Some(p);
    } else {
      assert paths == Init(paths) + [Last(paths)];
      EveryChangeHasAnEvent(worker, task, before, after, Init(paths), p);
      var i :| 0 <= i < |front| && front[i].path == Some(p);
      assert events[i] == front[i];
    }
  }

  /** One event per changed path, numbered 0 to n-1, with the new digest or none for a deletion, and the task. */
  lemma OneEventPerChange(worker: string, task: Option<string>, before: Snapshot, after: Snapshot)
    ensures var events := EditEvents(worker, task, before, after);
      && (forall i :: 0 <= i < |events| ==>
            events[i].workerId == worker && events[i].event == "edit" && events[i].sequence == i && events[i].path.Some? &&
            Changed(before, after, events[i].path.value) && events[i].contentDigest == Lookup(after, events[i].path.value) &&
            events[i].logicalTask == task)
      && (forall i, j :: 0 <= i < j < |events| ==> events[i].path != events[j].path)
      && (forall p :: Changed(before, after, p) ==> exists i :: 0 <= i < |events| && events[i].path == Some(p))
  {
    hide EventsFor, StringLe;
    var paths := SortedSet(before.Keys + after.Keys, StringLe);
    var events := EditEvents(worker, task, before, after);
    StringLeIsOrder();
    SortedSetElements(before.Keys + after.Keys, StringLe);
    forall i | 0 <= i < |events|
      ensures
        events[i].workerId == worker && events[i].event == "edit" && events[i].sequence == i && events[i].path.Some? &&
        Changed(before, after, events[i].path.value) && events[i].contentDigest == Lookup(after, events[i].path.value) &&
        events[i].logicalTask == task
    {
      EventsAreNumbered(worker, task, before, after, paths, i);
    }
    forall i, j | 0 <= i < j < |events|
      ensures events[i].path != events[j].path
    {
      EventsFollowPaths(worker, task, before, after, paths, i, j);
    }
    forall p | Changed(before, after, p)
      ensures exists i :: 0 <= i < |events| && events[i].path == Some(p)
    {
      assert p in paths;
      EveryChangeHasAnEvent(worker, task, before, after, paths, p);
    }
  }
}
