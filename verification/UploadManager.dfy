/**
 The upload scheduler of the console. Each handler runs to its end before the next
 one; an upload that was started settles in a later handler. Ghost fields record the
 whole history: which files were accepted, started, reported on and settled.
 */
module UploadManager {
  import opened Wrappers

  type Id(==, !new)
  type File(==, !new)

  const CONCURRENCY := 2

  datatype State = Invalid | Queued | Uploading | Uploaded | Failed

  datatype Task = Task(id: Id, state: State)

  /** `ids.filter(q => q !== ...)` for a set of ids to leave out. */
  function Without(ids: seq<Id>, left: set<Id>): seq<Id> {
    if ids == [] then []
    else
      var last := ids[|ids| - 1];
      Without(ids[..|ids| - 1], left) + if last in left then [] else [last]
  }

  lemma {:induction false} WithoutMembers(ids: seq<Id>, left: set<Id>)
    ensures forall id :: id in Without(ids, left) <==> id in ids && id !in left
  {
    if ids != [] {
      var n := |ids| - 1;
      WithoutMembers(ids[..n], left);
      assert ids == ids[..n] + [ids[n]];
    }
  }

  ghost predicate Distinct(ids: seq<Id>) {
    ids == [] || (ids[|ids| - 1] !in ids[..|ids| - 1] && Distinct(ids[..|ids| - 1]))
  }

  lemma {:induction false} WithoutDistinct(ids: seq<Id>, left: set<Id>)
    requires Distinct(ids)
    ensures Distinct(Without(ids, left))
  {
    if ids != [] {
      var n := |ids| - 1;
      WithoutDistinct(ids[..n], left);
      WithoutMembers(ids[..n], left);
      DistinctNext(Without(ids[..n], left), ids[n]);
      assert Without(ids[..n], left) + [] == Without(ids[..n], left);
    }
  }

  lemma {:induction false} DistinctNext(ids: seq<Id>, id: Id)
    ensures Distinct(ids + [id]) <==> Distinct(ids) && id !in ids
  {
    assert (ids + [id])[..|ids|] == ids;
  }

  /** In a list without repetition, the two sides of a cut have nothing in common. */
  lemma {:induction false} DistinctApart(a: seq<Id>, b: seq<Id>)
    requires Distinct(a + b)
    ensures Distinct(a) && Distinct(b)
    ensures forall id :: id in a ==> id !in b
  {
    if b == [] {
      assert a + b == a;
    } else {
      var n := |b| - 1;
      FrontOfSum(a, b);
      DistinctApart(a, b[..n]);
      assert b[n] !in a + b[..n];
      FrontAndLast(b);
    }
  }

  lemma {:induction false} FrontOfSum(a: seq<Id>, b: seq<Id>)
    requires b != []
    ensures (a + b)[..|a + b| - 1] == a + b[..|b| - 1] && (a + b)[|a + b| - 1] == b[|b| - 1]
  {
  }

  lemma {:induction false} FrontAndLast(b: seq<Id>)
    requires b != []
    ensures forall id :: id in b <==> id in b[..|b| - 1] || id == b[|b| - 1]
  {
    assert b == b[..|b| - 1] + [b[|b| - 1]];
  }

  lemma {:induction false} WithoutConcat(a: seq<Id>, b: seq<Id>, left: set<Id>)
    ensures Without(a + b, left) == Without(a, left) + Without(b, left)
  {
    if b == [] {
      assert a + b == a;
    } else {
      assert (a + b)[..|a + b| - 1] == a + b[..|b| - 1];
      WithoutConcat(a, b[..|b| - 1], left);
    }
  }

  lemma {:induction false} WithoutTwice(ids: seq<Id>, left: set<Id>, more: set<Id>)
    ensures Without(Without(ids, left), more) == Without(ids, left + more)
  {
    if ids != [] {
      var n := |ids| - 1;
      WithoutTwice(ids[..n], left, more);
      WithoutConcat(Without(ids[..n], left), if ids[n] in left then [] else [ids[n]], more);
    }
  }

  lemma {:induction false} WithoutNothing(ids: seq<Id>, left: set<Id>)
    requires forall k :: 0 <= k < |ids| ==> ids[k] !in left
    ensures Without(ids, left) == ids
  {
    if ids != [] {
      var n := |ids| - 1;
      WithoutNothing(ids[..n], left);
      assert ids == ids[..n] + [ids[n]];
    }
  }

  /** `tasks.map(t => t.id === id ? {...t, state} : t)`. */
  function Patch(tasks: seq<Task>, id: Id, state: State): (r: seq<Task>)
    ensures |r| == |tasks|
    ensures forall k :: 0 <= k < |tasks| ==> r[k] == if tasks[k].id == id then Task(id, state) else tasks[k]
  {
    seq(|tasks|, k requires 0 <= k < |tasks| => if tasks[k].id == id then Task(id, state) else tasks[k])
  }

  function Filtered(tasks: seq<Task>, keep: Task -> bool): (r: seq<Task>)
    ensures forall t :: t in r <==> t in tasks && keep(t)
  {
    if tasks == [] then []
    else
      var last := tasks[|tasks| - 1];
      Filtered(tasks[..|tasks| - 1], keep) + if keep(last) then [last] else []
  }

  /** What the scheduler knows, with the history of what it was given and did. */
  datatype Snapshot = Snapshot(
    held: set<Id>,        // the files kept
    active: int,
    queue: seq<Id>,
    tasks: seq<Task>,
    known: set<Id>,       // all ids made so far
    accepted: seq<Id>,    // those of valid files, as they arrived
    dropped: set<Id>,     // accepted, and removed while waiting
    started: seq<Id>,     // as they were started
    inFlight: set<Id>,    // started and not settled
    reported: set<Id>)    // of these, the ones whose result is already shown
  {
    /** First come, first served: what was started, then what waits, is what arrived and was not dropped. */
    ghost predicate InOrder() {
      && Distinct(accepted)
      && started + queue == Without(accepted, dropped)
      && (forall id :: id in accepted ==> id in known)
      && (forall id :: id in dropped ==> id in accepted)
    }

    ghost predicate Counted() {
      && active == |inFlight| <= CONCURRENCY
      && reported <= inFlight
      && (forall id :: id in inFlight ==> id in started)
    }

    /** A file is held exactly as long as it may be needed. */
    ghost predicate Kept() {
      && (forall id :: id in queue ==> id in held)
      && (forall id :: id in held ==> id in queue || id in inFlight)
    }

    ghost predicate ShownRightly(t: Task) {
      && t.id in known
      && (t.state.Queued? <==> t.id in queue)
      && (t.state.Uploading? <==> t.id in inFlight - reported)
    }

    ghost predicate Consistent() {
      && InOrder() && Counted() && Kept()
      && (forall t :: t in tasks ==> ShownRightly(t))
    }

    /** Between handlers: a file waits only when all places are taken. */
    ghost predicate Settled() {
      Consistent() && (queue != [] ==> active == CONCURRENCY)
    }
  }

  /** No file is both started and waiting, and none waits twice: each is started once at most. */
  lemma {:induction false} StartedOnce(s: Snapshot)
    requires s.InOrder()
    ensures Distinct(s.started) && Distinct(s.queue)
    ensures forall id :: id in s.started ==> id !in s.queue
    ensures forall id :: id in s.started || id in s.queue ==> id in s.accepted
  {
    WithoutDistinct(s.accepted, s.dropped);
    WithoutMembers(s.accepted, s.dropped);
    DistinctApart(s.started, s.queue);
    forall id | id in s.started || id in s.queue ensures id in s.accepted {
      assert id in s.started + s.queue;
    }
  }

  /** The first waiting file is started. */
  function Starting(s: Snapshot): Snapshot
    requires s.queue != []
  {
    var id := s.queue[0];
    s.(queue := s.queue[1..], active := s.active + 1, tasks := Patch(s.tasks, id, Uploading),
       started := s.started + [id], inFlight := s.inFlight + {id})
  }

  lemma {:induction false} FirstIsFresh(s: Snapshot)
    requires s.InOrder() && s.queue != []
    ensures s.queue[0] !in s.started && s.queue[0] !in s.queue[1..]
    ensures (s.started + [s.queue[0]]) + s.queue[1..] == s.started + s.queue
  {
    StartedOnce(s);
    assert s.queue == [s.queue[0]] + s.queue[1..];
    DistinctApart([s.queue[0]], s.queue[1..]);
  }

  lemma {:induction false} StartingKeeps(s: Snapshot)
    requires s.Consistent() && s.queue != [] && s.active < CONCURRENCY
    ensures Starting(s).Consistent()
  {
    FirstIsFresh(s);
    var id, after := s.queue[0], Starting(s);
    assert after.InOrder();
    assert id !in s.inFlight;
    assert after.Counted();
    assert after.Kept();
    forall t | t in after.tasks ensures after.ShownRightly(t) {
      var k :| 0 <= k < |s.tasks| && after.tasks[k] == t;
      assert s.tasks[k] in s.tasks && s.ShownRightly(s.tasks[k]);
      StartedOnce(s);
      assert id in s.accepted;
    }
  }

  /** A valid file is accepted under a new id. */
  function Accepting(s: Snapshot, id: Id): Snapshot {
    s.(held := s.held + {id}, queue := s.queue + [id], known := s.known + {id}, accepted := s.accepted + [id])
  }

  lemma {:induction false} AcceptingInOrder(s: Snapshot, id: Id)
    requires s.InOrder() && id !in s.known
    ensures Accepting(s, id).InOrder()
  {
    DistinctNext(s.accepted, id);
    WithoutConcat(s.accepted, [id], s.dropped);
    assert Without([id], s.dropped) == [id] by {
      WithoutNothing([id], s.dropped);
    }
    assert s.started + (s.queue + [id]) == (s.started + s.queue) + [id];
  }

  lemma {:induction false} AcceptingKeeps(s: Snapshot, id: Id)
    requires s.Consistent() && id !in s.known
    ensures Accepting(s, id).Consistent()
    ensures forall t :: s.ShownRightly(t) ==> Accepting(s, id).ShownRightly(t)
    ensures Accepting(s, id).ShownRightly(Task(id, Queued))
  {
    AcceptingInOrder(s, id);
    NewIsNotInFlight(s, id);
    forall t | s.ShownRightly(t) ensures Accepting(s, id).ShownRightly(t) {
      AcceptingShows(s, id, t);
    }
    AcceptingIsCounted(s, id);
  }

  lemma {:induction false} AcceptingIsCounted(s: Snapshot, id: Id)
    requires s.Counted() && s.Kept()
    ensures Accepting(s, id).Counted() && Accepting(s, id).Kept()
  {
  }

  lemma {:induction false} NewIsNotInFlight(s: Snapshot, id: Id)
    requires s.InOrder() && s.Counted() && id !in s.known
    ensures id !in s.inFlight && id !in s.queue && id !in s.started
  {
    StartedOnce(s);
  }

  lemma {:induction false} AcceptingShows(s: Snapshot, id: Id, t: Task)
    requires s.ShownRightly(t) && id !in s.known
    ensures Accepting(s, id).ShownRightly(t)
  {
  }

  /** An invalid file only gets an id. */
  lemma {:induction false} RefusingKeeps(s: Snapshot, id: Id)
    requires s.Consistent() && id !in s.known
    ensures s.(known := s.known + {id}).Consistent()
    ensures forall t :: s.ShownRightly(t) ==> s.(known := s.known + {id}).ShownRightly(t)
    ensures s.(known := s.known + {id}).ShownRightly(Task(id, Invalid))
  {
    NewIsNotInFlight(s, id);
  }

  /** The ids of the valid files, in order. */
  function ValidIds(files: seq<File>, ids: seq<Id>, valid: File -> bool): seq<Id>
    requires |files| == |ids|
  {
    if files == [] then []
    else
      var n := |files| - 1;
      ValidIds(files[..n], ids[..n], valid) + if valid(files[n]) then [ids[n]] else []
  }

  /** The tasks shown for new files. */
  function NewTasks(files: seq<File>, ids: seq<Id>, valid: File -> bool): seq<Task>
    requires |files| == |ids|
  {
    seq(|ids|, k requires 0 <= k < |ids| => Task(ids[k], if valid(files[k]) then Queued else Invalid))
  }

  /** Files are taken in one after the other; the invalid ones only get an id. */
  function Admitting(s: Snapshot, files: seq<File>, ids: seq<Id>, valid: File -> bool): Snapshot
    requires |files| == |ids|
  {
    if files == [] then s
    else
      var n := |files| - 1;
      var before := Admitting(s, files[..n], ids[..n], valid);
      if valid(files[n]) then Accepting(before, ids[n]) else before.(known := before.known + {ids[n]})
  }

  lemma {:induction false} AdmittingNext(s: Snapshot, files: seq<File>, ids: seq<Id>, valid: File -> bool, k: nat)
    requires k < |files| == |ids|
    ensures var before := Admitting(s, files[..k], ids[..k], valid);
            Admitting(s, files[..k + 1], ids[..k + 1], valid) ==
              if valid(files[k]) then Accepting(before, ids[k]) else before.(known := before.known + {ids[k]})
  {
    assert files[..k + 1][..k] == files[..k] && ids[..k + 1][..k] == ids[..k];
  }

  lemma {:induction false} AdmittingAdds(s: Snapshot, files: seq<File>, ids: seq<Id>, valid: File -> bool)
    requires |files| == |ids|
    ensures var after := Admitting(s, files, ids, valid);
            && after.accepted == s.accepted + ValidIds(files, ids, valid)
            && after.queue == s.queue + ValidIds(files, ids, valid)
            && (forall id :: id in after.known <==> id in s.known || id in ids)
            && after == s.(held := after.held, queue := after.queue, known := after.known, accepted := after.accepted)
  {
    if files != [] {
      var n := |files| - 1;
      AdmittingAdds(s, files[..n], ids[..n], valid);
      assert ids == ids[..n] + [ids[n]];
    }
  }

  lemma {:induction false} AdmittingOneKeeps(s: Snapshot, id: Id, valid: bool)
    requires s.Consistent() && id !in s.known
    ensures var after := if valid then Accepting(s, id) else s.(known := s.known + {id});
            && after.Consistent()
            && after.ShownRightly(Task(id, if valid then Queued else Invalid))
            && forall t :: s.ShownRightly(t) ==> after.ShownRightly(t)
  {
    if valid {
      AcceptingKeeps(s, id);
    } else {
      RefusingKeeps(s, id);
    }
  }

  lemma {:induction false} NewTasksNext(files: seq<File>, ids: seq<Id>, valid: File -> bool)
    requires |files| == |ids| && files != []
    ensures var n := |files| - 1;
            NewTasks(files, ids, valid) ==
              NewTasks(files[..n], ids[..n], valid) + [Task(ids[n], if valid(files[n]) then Queued else Invalid)]
  {
  }

  lemma {:induction false} AdmittingKeeps(s: Snapshot, files: seq<File>, ids: seq<Id>, valid: File -> bool)
    requires |files| == |ids| && s.Consistent() && Distinct(ids) && forall id :: id in ids ==> id !in s.known
    ensures var after := Admitting(s, files, ids, valid);
            && after.Consistent()
            && forall t :: t in NewTasks(files, ids, valid) ==> after.ShownRightly(t)
  {
    if files != [] {
      var n := |files| - 1;
      var before := Admitting(s, files[..n], ids[..n], valid);
      assert ids[n] !in before.known by {
        AdmittingAdds(s, files[..n], ids[..n], valid);
        assert ids[n] in ids;
      }
      AdmittingKeeps(s, files[..n], ids[..n], valid);
      AdmittingOneKeeps(before, ids[n], valid(files[n]));
      NewTasksNext(files, ids, valid);
    }
  }

  /** Taking files in and showing their tasks. */
  function Enqueuing(s: Snapshot, files: seq<File>, ids: seq<Id>, valid: File -> bool): Snapshot
    requires |files| == |ids|
  {
    Admitting(s, files, ids, valid).(tasks := NewTasks(files, ids, valid) + s.tasks)
  }

  lemma {:induction false} EnqueuingKeeps(s: Snapshot, files: seq<File>, ids: seq<Id>, valid: File -> bool)
    requires |files| == |ids| && s.Consistent() && Distinct(ids) && forall id :: id in ids ==> id !in s.known
    ensures Enqueuing(s, files, ids, valid).Consistent()
  {
    AdmittingKeeps(s, files, ids, valid);
    AdmittingAdds(s, files, ids, valid);
    var admitted, after := Admitting(s, files, ids, valid), Enqueuing(s, files, ids, valid);
    forall t | t in after.tasks ensures after.ShownRightly(t) {
      assert admitted.ShownRightly(t);
    }
  }

  /** A task is removed, and with it the file if it waits. */
  function Removing(s: Snapshot, id: Id): Snapshot {
    s.(held := s.held - {id}, queue := Without(s.queue, {id}), tasks := Filtered(s.tasks, (t: Task) => t.id != id),
       dropped := s.dropped + if id in s.queue then {id} else {})
  }

  lemma {:induction false} RemovingInOrder(s: Snapshot, id: Id)
    requires s.InOrder()
    ensures Removing(s, id).InOrder()
    ensures id !in s.queue ==> Removing(s, id).queue == s.queue
  {
    if id in s.queue {
      StartedOnce(s);
      WithoutNothing(s.started, {id});
      WithoutConcat(s.started, s.queue, {id});
      WithoutTwice(s.accepted, s.dropped, {id});
    } else {
      WithoutNothing(s.queue, {id});
      assert s.dropped + {} == s.dropped;
    }
  }

  lemma {:induction false} RemovingKeeps(s: Snapshot, id: Id)
    requires s.Consistent()
    ensures Removing(s, id).Consistent()
    ensures s.Settled() ==> Removing(s, id).Settled()
  {
    RemovingInOrder(s, id);
    WithoutMembers(s.queue, {id});
    WithoutShorter(s.queue, {id});
    var after := Removing(s, id);
    forall t | t in after.tasks ensures after.ShownRightly(t) {
      assert t in s.tasks && s.ShownRightly(t);
    }
  }

  lemma {:induction false} WithoutShorter(ids: seq<Id>, left: set<Id>)
    ensures |Without(ids, left)| <= |ids|
  {
    if ids != [] {
      WithoutShorter(ids[..|ids| - 1], left);
    }
  }

  /** The result of an upload is shown. */
  function Reporting(s: Snapshot, id: Id, ok: bool): Snapshot {
    s.(tasks := Patch(s.tasks, id, if ok then Uploaded else Failed), reported := s.reported + {id})
  }

  lemma {:induction false} ReportingKeeps(s: Snapshot, id: Id, ok: bool)
    requires s.Consistent() && id in s.inFlight - s.reported
    ensures Reporting(s, id, ok).Consistent()
  {
    StartedOnce(s);
    var after := Reporting(s, id, ok);
    forall t | t in after.tasks ensures after.ShownRightly(t) {
      var k :| 0 <= k < |s.tasks| && after.tasks[k] == t;
      assert s.tasks[k] in s.tasks && s.ShownRightly(s.tasks[k]);
    }
  }

  /** An upload gives up its place. */
  function Finishing(s: Snapshot, id: Id): Snapshot {
    s.(held := s.held - {id}, active := s.active - 1, inFlight := s.inFlight - {id}, reported := s.reported - {id})
  }

  lemma {:induction false} FinishingKeeps(s: Snapshot, id: Id)
    requires s.Consistent() && id in s.reported
    ensures Finishing(s, id).Consistent()
  {
    StartedOnce(s);
    var after := Finishing(s, id);
    assert after.Counted() && after.Kept();
    forall t | t in after.tasks ensures after.ShownRightly(t) {
      assert s.ShownRightly(t);
    }
  }

  /** Between handlers, as many uploads run as there are files for and places to. */
  lemma {:induction false} NoPlaceIsWasted(s: Snapshot)
    requires s.Settled()
    ensures |s.inFlight| == if |s.inFlight| + |s.queue| < CONCURRENCY then |s.inFlight| + |s.queue| else CONCURRENCY
    ensures forall id :: id in s.accepted && id !in s.dropped ==>
      id in s.started || (id in s.queue && s.active == CONCURRENCY)
  {
    WithoutMembers(s.accepted, s.dropped);
    forall id | id in s.accepted && id !in s.dropped ensures id in s.started || id in s.queue {
      assert id in s.started + s.queue;
    }
  }

  /** Every accepted file, and no other, has exactly one fate: it was started, it waits, or it was removed. */
  lemma {:induction false} OneFate(s: Snapshot)
    requires s.InOrder()
    ensures forall id :: id in s.accepted <==> id in s.started || id in s.queue || id in s.dropped
    ensures forall id :: !(id in s.started && id in s.queue)
    ensures forall id :: id in s.dropped ==> id !in s.started && id !in s.queue
  {
    StartedOnce(s);
    WithoutMembers(s.accepted, s.dropped);
    forall id ensures id in Without(s.accepted, s.dropped) <==> id in s.started || id in s.queue {
      assert id in s.started + s.queue <==> id in s.started || id in s.queue;
    }
  }

  /**
   Once nothing is in flight, the accepted files that nobody removed were each started
   exactly once, in the order they arrived; no file is kept and no task waits or runs.
   */
  lemma {:induction false} IdleMeansDone(s: Snapshot)
    requires s.Settled() && s.inFlight == {}
    ensures s.queue == [] && s.held == {}
    ensures s.started == Without(s.accepted, s.dropped) && Distinct(s.started)
    ensures forall id :: id in s.accepted ==> (id in s.started <==> id !in s.dropped)
    ensures forall t :: t in s.tasks ==> !t.state.Queued? && !t.state.Uploading?
  {
    assert s.started + [] == s.started;
    StartedOnce(s);
    OneFate(s);
    forall t | t in s.tasks ensures !t.state.Queued? && !t.state.Uploading? {
      assert s.ShownRightly(t);
    }
  }

  /** New tasks stand in front of the old ones, the refused files marked invalid and no others. */
  ghost predicate ShownInFront(
    shown: seq<Task>, before: seq<Task>, files: seq<File>, ids: seq<Id>, valid: File -> bool)
    requires |files| == |ids|
  {
    && |shown| == |files| + |before|
    && (forall k :: 0 <= k < |files| ==> shown[k].id == ids[k] && (shown[k].state.Invalid? <==> !valid(files[k])))
    && (forall k :: 0 <= k < |before| ==> shown[|files| + k].id == before[k].id)
  }

  lemma {:induction false} EnqueuedInFront(
    s: Snapshot, files: seq<File>, ids: seq<Id>, valid: File -> bool, after: Snapshot)
    requires |files| == |ids| && Enqueuing(s, files, ids, valid).Consistent()
    requires Advanced(Enqueuing(s, files, ids, valid), after)
    ensures ShownInFront(after.tasks, s.tasks, files, ids, valid)
  {
    var before := Enqueuing(s, files, ids, valid);
    var shown := before.tasks;
    assert shown == NewTasks(files, ids, valid) + s.tasks;
    forall k | 0 <= k < |files|
      ensures after.tasks[k].id == ids[k] && (after.tasks[k].state.Invalid? <==> !valid(files[k]))
    {
      assert shown[k] == NewTasks(files, ids, valid)[k];
      assert shown[k] in shown && before.ShownRightly(shown[k]);
    }
    forall k | 0 <= k < |s.tasks| ensures after.tasks[|files| + k].id == s.tasks[k].id {
      assert shown[|files| + k] == s.tasks[k];
    }
  }

  class Manager {
    var files: map<Id, File>
    var active: int
    var queue: seq<Id>
    var tasks: seq<Task>
    ghost var known: set<Id>
    ghost var accepted: seq<Id>
    ghost var dropped: set<Id>
    ghost var started: seq<Id>
    ghost var inFlight: set<Id>
    ghost var reported: set<Id>

    ghost function State(): Snapshot
      reads this
    {
      Snapshot(files.Keys, active, queue, tasks, known, accepted, dropped, started, inFlight, reported)
    }

    constructor ()
      ensures State() == Snapshot({}, 0, [], [], {}, [], {}, [], {}, {}) && State().Settled()
    {
      files, active, queue, tasks := map[], 0, [], [];
      known, accepted, dropped, started, inFlight, reported := {}, [], {}, [], {}, {};
    }

    /** One round of the loop below. A waiting file is always there. */
    method StartFirst()
      requires State().Consistent() && |queue| > 0 && active < CONCURRENCY
      modifies this
      ensures State() == Starting(old(State()))
    {
      var id := queue[0];
      queue := queue[1..];
      if id !in files {
        assert false;
      }
      active := active + 1;
      tasks := Patch(tasks, id, Uploading);
      started, inFlight := started + [id], inFlight + {id};
    }

    /** Starts waiting files while there is room. */
    method Pump()
      requires State().Consistent()
      modifies this
      ensures State().Settled()
      ensures Advanced(old(State()), State())
    {
      while active < CONCURRENCY && |queue| > 0
        invariant State().Consistent() && Advanced(old(State()), State())
        decreases |queue|
      {
        StartingKeeps(State());
        AdvancedNext(old(State()), State());
        StartFirst();
      }
    }

    /** The loop over new files: valid ones are kept and queued. */
    method Admit(incoming: seq<File>, ids: seq<Id>, valid: File -> bool) returns (newTasks: seq<Task>)
      requires |ids| == |incoming|
      modifies `files, `queue, `accepted, `known
      ensures State() == Admitting(old(State()), incoming, ids, valid)
      ensures newTasks == NewTasks(incoming, ids, valid)
    {
      newTasks := [];
      for k := 0 to |incoming|
        invariant State() == Admitting(old(State()), incoming[..k], ids[..k], valid)
        invariant newTasks == NewTasks(incoming[..k], ids[..k], valid)
      {
        AdmittingNext(old(State()), incoming, ids, valid, k);
        var id := ids[k];
        newTasks := newTasks + [Task(id, if valid(incoming[k]) then Queued else Invalid)];
        if valid(incoming[k]) {
          files := files[id := incoming[k]];
          queue := queue + [id];
          accepted := accepted + [id];
        }
        known := known + {id};
      }
      assert incoming[..|incoming|] == incoming && ids[..|incoming|] == ids;
    }

    /** Files are picked or dropped in; `ids` are the ones `newId` makes for them. */
    method Enqueue(incoming: seq<File>, ids: seq<Id>, valid: File -> bool)
      requires State().Settled()
      requires |ids| == |incoming| && Distinct(ids) && forall id :: id in ids ==> id !in known
      modifies this
      ensures State().Settled()
      ensures Advanced(Enqueuing(old(State()), incoming, ids, valid), State())
      ensures ShownInFront(tasks, old(tasks), incoming, ids, valid)
    {
      EnqueuingKeeps(State(), incoming, ids, valid);
      AdmittingAdds(State(), incoming, ids, valid);
      var newTasks := Admit(incoming, ids, valid);
      tasks := newTasks + tasks;
      Pump();
      EnqueuedInFront(old(State()), incoming, ids, valid, State());
    }

    /** The user removes a task, whatever its state. */
    method RemoveTask(id: Id)
      requires State().Settled()
      modifies this
      ensures State() == Removing(old(State()), id) && State().Settled()
      ensures id !in queue && id !in files && forall t :: t in tasks <==> t in old(tasks) && t.id != id
    {
      RemovingKeeps(State(), id);
      WithoutMembers(queue, {id});
      dropped := dropped + if id in queue then {id} else {};
      files := files - {id};
      queue := Without(queue, {id});
      tasks := Filtered(tasks, (t: Task) => t.id != id);
    }

    /** Finished tasks are cleared from the display. */
    method ClearFinished()
      requires State().Settled()
      modifies this`tasks
      ensures State().Settled()
      ensures forall t :: t in tasks <==> t in old(tasks) && (t.state.Queued? || t.state.Uploading?)
    {
      tasks := Filtered(tasks, (t: Task) => t.state.Queued? || t.state.Uploading?);
    }

    /** An upload succeeded or failed: the `then` and `catch` callbacks. */
    method Report(id: Id, ok: bool)
      requires State().Settled() && id in inFlight - reported
      modifies this
      ensures State() == Reporting(old(State()), id, ok) && State().Settled()
      ensures |tasks| == |old(tasks)|
      ensures forall k :: 0 <= k < |tasks| ==>
        tasks[k] == if old(tasks)[k].id != id then old(tasks)[k] else Task(id, if ok then Uploaded else Failed)
    {
      ReportingKeeps(State(), id, ok);
      tasks := Patch(tasks, id, if ok then Uploaded else Failed);
      reported := reported + {id};
    }

    /** The `finally` callback: the place is free for the next file. */
    method Finish(id: Id)
      requires State().Settled() && id in reported
      modifies this
      ensures State().Settled() && Advanced(Finishing(old(State()), id), State())
    {
      FinishingKeeps(State(), id);
      files := files - {id};
      active := active - 1;
      inFlight, reported := inFlight - {id}, reported - {id};
      Pump();
    }
  }

  /** Only waiting files were started, from the front, and only their tasks look different. */
  ghost predicate Advanced(before: Snapshot, after: Snapshot) {
    && before.started <= after.started
    && after.started + after.queue == before.started + before.queue
    && |after.tasks| == |before.tasks|
    && (forall k :: 0 <= k < |after.tasks| ==>
          after.tasks[k] == before.tasks[k]
          || (before.tasks[k].id in before.queue && after.tasks[k] == Task(before.tasks[k].id, Uploading)))
    && after == before.(queue := after.queue, active := after.active, tasks := after.tasks,
                        started := after.started, inFlight := after.inFlight)
  }

  lemma {:induction false} AdvancedNext(first: Snapshot, s: Snapshot)
    requires Advanced(first, s) && s.queue != []
    ensures Advanced(first, Starting(s))
  {
    var id := s.queue[0];
    assert (s.started + [id]) + s.queue[1..] == s.started + s.queue;
    var n := |s.started| - |first.started|;
    assert first.queue[n] == id by {
      assert (s.started + s.queue)[|s.started|] == id;
      assert (first.started + first.queue)[|first.started| + n] == first.queue[n];
    }
  }
}
