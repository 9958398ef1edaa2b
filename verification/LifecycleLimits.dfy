/**
 * Executions that show what the theorems have to leave out: which files and rows are
 * left behind, and what goes wrong in an execution that is not orderly. Each lemma
 * takes any image and starts from an empty server or from a state reached there.
 */
module LifecycleLimits {
  import opened Store
  import opened StartUp
  import opened Lifecycle
  import opened LifecycleProofs
  import opened LifecycleTheorems

  /** An image as `upload` inserts it. */
  predicate Uploadable(disc: Image) {
    disc.source == FromIso && disc.status == Pending && PlainName(disc.filename)
  }

  /** The files of an image that has its ISO and nothing else. */
  function IsoOnly(disc: Image): Files {
    map[IsoFile(disc.filename) := 9]
  }

  /** The claim a task at this point has. */
  function ClaimAt(disc: Image, pc: Pc): Option<string> {
    if pc in {Queued, Registered} then None else Some(disc.filename)
  }

  /** The one image `id`, its row in `status`, its run `tid` at `pc`, and tasks that wait. */
  function Held(id: Id, disc: Image, status: Status, tid: Tid, pc: Pc, rest: map<Tid, Task>, stops: set<Tid>): State {
    State(map[id := disc.(status := status)], IsoOnly(disc),
          if pc in {Queued, Finishing} then map[] else map[id := tid],
          stops, rest[tid := Task(id, pc, ClaimAt(disc, pc), false)], map[])
  }

  /** The same image with no run of its own. */
  function Idle(id: Id, disc: Image, status: Status, rest: map<Tid, Task>): State {
    State(map[id := disc.(status := status)], IsoOnly(disc), map[], {}, rest, map[])
  }

  /** The uploaded image and its first run. */
  function Alone(id: Id, disc: Image, status: Status, pc: Pc, stopped: bool): State {
    Held(id, disc, status, 0, pc, map[], if stopped then {0} else {})
  }

  /** Its run was working when Delete was pressed. */
  function Stopped(id: Id, disc: Image): State {
    Alone(id, disc, Deleting, Working, true)
  }

  /** `es` is a legal execution from `s` to `s'`. */
  ghost predicate Leads(s: State, es: seq<Event>, s': State) {
    LegalRun(s, es) && Run(s, es) == s'
  }

  /** And an orderly one. */
  ghost predicate Reaches(s: State, es: seq<Event>, s': State) {
    OrderlyRun(s, es) && Leads(s, es, s')
  }

  /** One more event at the end of an execution. */
  lemma {:induction false} Next(s: State, es: seq<Event>, m: State, e: Event, t: State)
    requires Leads(s, es, m) && Legal(m, e) && Apply(m, e) == t
    ensures Leads(s, es + [e], t)
    ensures Reaches(s, es, m) && Orderly(m, e) ==> Reaches(s, es + [e], t)
    decreases es
  {
    if es == [] {
      assert [e][1..] == [];
      assert es + [e] == [e];
    } else {
      Next(Apply(s, es[0]), es[1..], m, e, t);
      assert (es + [e])[1..] == es[1..] + [e];
    }
  }

  /** `e` leads from `s` to `t`, in good order. */
  ghost predicate Steps(s: State, e: Event, t: State) {
    Legal(s, e) && Orderly(s, e) && Apply(s, e) == t
  }

  lemma NextStep(s: State, es: seq<Event>, m: State, e: Event, t: State)
    requires Reaches(s, es, m) && Steps(m, e, t)
    ensures Reaches(s, es + [e], t)
  {
    Next(s, es, m, e, t);
  }

  lemma ThreeSteps(s: State, e: Event, s1: State, e1: Event, s2: State, e2: Event, t: State)
    requires Steps(s, e, s1) && Steps(s1, e1, s2) && Steps(s2, e2, t)
    ensures Reaches(s, [e, e1, e2], t)
  {
    NextStep(s, [], s, e, s1);
    NextStep(s, [] + [e], s1, e1, s2);
    NextStep(s, [] + [e] + [e1], s2, e2, t);
    assert [] + [e] + [e1] + [e2] == [e, e1, e2];
  }

  ghost predicate Moves(s: State, e: Event, t: State) {
    Legal(s, e) && Apply(s, e) == t
  }

  lemma FourMoves(s: State, e: Event, s1: State, e1: Event, s2: State, e2: Event, s3: State, e3: Event, t: State)
    requires Moves(s, e, s1) && Moves(s1, e1, s2) && Moves(s2, e2, s3) && Moves(s3, e3, t)
    ensures Leads(s, [e, e1, e2, e3], t)
  {
    Next(s, [], s, e, s1);
    Next(s, [] + [e], s1, e1, s2);
    Next(s, [] + [e] + [e1], s2, e2, s3);
    Next(s, [] + [e] + [e1] + [e2], s3, e3, t);
    assert [] + [e] + [e1] + [e2] + [e3] == [e, e1, e2, e3];
  }

  lemma {:induction false} Chain(s: State, es: seq<Event>, m: State, fs: seq<Event>, t: State)
    requires Leads(s, es, m) && Leads(m, fs, t)
    ensures Leads(s, es + fs, t)
    ensures Reaches(s, es, m) && Reaches(m, fs, t) ==> Reaches(s, es + fs, t)
    decreases es
  {
    if es == [] {
      assert es + fs == fs;
    } else {
      Chain(Apply(s, es[0]), es[1..], m, fs, t);
      assert (es + fs)[1..] == es[1..] + fs;
    }
  }

  // --- One step of a run ---------------------------------------------------

  /** The other tasks wait, and are not this one. */
  predicate Waiting(rest: map<Tid, Task>, tid: Tid) {
    tid !in rest && forall t | t in rest :: rest[t].pc == Queued
  }

  lemma Registers(id: Id, disc: Image, status: Status, tid: Tid, rest: map<Tid, Task>)
    requires Waiting(rest, tid)
    ensures Steps(Held(id, disc, status, tid, Queued, rest, {}), Register(tid),
                  Held(id, disc, status, tid, Registered, rest, {}))
  {
  }

  lemma Reads(id: Id, disc: Image, tid: Tid, rest: map<Tid, Task>)
    requires Uploadable(disc) && Waiting(rest, tid)
    ensures Steps(Held(id, disc, Pending, tid, Registered, rest, {}), ReadRow(tid),
                  Held(id, disc, Pending, tid, Claimed, rest, {}))
  {
  }

  lemma Claims(id: Id, disc: Image, tid: Tid, rest: map<Tid, Task>)
    requires Waiting(rest, tid)
    ensures Steps(Held(id, disc, Pending, tid, Claimed, rest, {}), Claim(tid),
                  Held(id, disc, Processing, tid, Cleaning, rest, {}))
  {
  }

  lemma Cleans(id: Id, disc: Image, tid: Tid, rest: map<Tid, Task>)
    requires Waiting(rest, tid)
    ensures Steps(Held(id, disc, Processing, tid, Cleaning, rest, {}), CleanOld(tid),
                  Held(id, disc, Processing, tid, Working, rest, {}))
  {
    assert Clean(IsoOnly(disc), id) == IsoOnly(disc);
  }

  lemma Commits(id: Id, disc: Image, from: Status, status: Status, tid: Tid, rest: map<Tid, Task>, stops: set<Tid>)
    requires Waiting(rest, tid) && status in {Ready, Error}
    ensures Steps(Held(id, disc, from, tid, Working, rest, stops), Commit(tid, disc.(status := status)),
                  Held(id, disc, status, tid, Committed, rest, stops))
  {
  }

  lemma Returns(id: Id, disc: Image, status: Status, tid: Tid, rest: map<Tid, Task>)
    requires Waiting(rest, tid)
    ensures Steps(Held(id, disc, status, tid, Committed, rest, {}), Return(tid),
                  Held(id, disc, status, tid, Leaving, rest, {}))
  {
  }

  lemma Deregisters(id: Id, disc: Image, status: Status, tid: Tid, pc: Pc, rest: map<Tid, Task>)
    requires Waiting(rest, tid) && pc in {Leaving, Broken}
    ensures Steps(Held(id, disc, status, tid, pc, rest, {}), Deregister(tid), Idle(id, disc, status, rest))
  {
  }

  /** The same with the run's task given: it may have claimed its row or not. */
  function HeldAs(id: Id, disc: Image, status: Status, tid: Tid, task: Task, rest: map<Tid, Task>): State {
    State(map[id := disc.(status := status)], IsoOnly(disc), map[id := tid], {}, rest[tid := task], map[])
  }

  lemma RaiseStep(id: Id, disc: Image, status: Status, tid: Tid, task: Task, rest: map<Tid, Task>)
    requires task.pc in {Registered, Claimed, Cleaning, Working, Committed, Failing, Reporting}
    ensures Steps(HeldAs(id, disc, status, tid, task, rest), Raise(tid),
                  HeldAs(id, disc, status, tid, task.(pc := Raised(task.pc)), rest))
  {
  }

  lemma FailReadStep(id: Id, disc: Image, status: Status, tid: Tid, task: Task, rest: map<Tid, Task>)
    requires task.pc == Failing && task.image == id
    ensures Steps(HeldAs(id, disc, status, tid, task, rest), FailRead(tid),
                  HeldAs(id, disc, status, tid, task.(pc := Reporting), rest))
  {
  }

  lemma FailCommitStep(id: Id, disc: Image, status: Status, tid: Tid, task: Task, rest: map<Tid, Task>)
    requires task.pc == Reporting && task.image == id
    ensures Steps(HeldAs(id, disc, status, tid, task, rest), FailCommit(tid),
                  HeldAs(id, disc, Error, tid, task.(pc := Leaving), rest))
  {
  }

  /** A run that raises ends in its handler, which writes "error". */
  lemma Raises(id: Id, disc: Image, status: Status, tid: Tid, task: Task, rest: map<Tid, Task>)
    requires task.pc in {Registered, Claimed, Cleaning, Working, Committed} && task.image == id
    ensures Reaches(HeldAs(id, disc, status, tid, task, rest), [Raise(tid), FailRead(tid), FailCommit(tid)],
                    HeldAs(id, disc, Error, tid, task.(pc := Leaving), rest))
  {
    var failing, reporting, leaving := task.(pc := Failing), task.(pc := Reporting), task.(pc := Leaving);
    RaiseStep(id, disc, status, tid, task, rest);
    FailReadStep(id, disc, status, tid, failing, rest);
    FailCommitStep(id, disc, status, tid, reporting, rest);
    ThreeSteps(HeldAs(id, disc, status, tid, task, rest), Raise(tid),
               HeldAs(id, disc, status, tid, failing, rest), FailRead(tid),
               HeldAs(id, disc, status, tid, reporting, rest), FailCommit(tid),
               HeldAs(id, disc, Error, tid, leaving, rest));
  }

  // --- Longer stretches ----------------------------------------------------

  lemma Uploads(id: Id, disc: Image) returns (es: seq<Event>)
    requires Uploadable(disc)
    ensures Reaches(EMPTY, es, Alone(id, disc, Pending, Queued, false))
  {
    var begin, end := BeginUpload(0, disc.filename, 9), EndUpload(0, id, disc, 0);
    var mid := State(map[], IsoOnly(disc), map[], {}, map[], map[0 := disc.filename]);
    assert disc.(status := Pending) == disc;
    NextStep(EMPTY, [], EMPTY, begin, mid);
    es := [] + [begin];
    NextStep(EMPTY, es, mid, end, Alone(id, disc, Pending, Queued, false));
    es := es + [end];
  }

  /** A queued run comes to its work. */
  lemma Starts(id: Id, disc: Image, tid: Tid, rest: map<Tid, Task>) returns (es: seq<Event>)
    requires Uploadable(disc) && Waiting(rest, tid)
    ensures Reaches(Held(id, disc, Pending, tid, Queued, rest, {}), es,
                    Held(id, disc, Processing, tid, Working, rest, {}))
  {
    var start := Held(id, disc, Pending, tid, Queued, rest, {});
    Registers(id, disc, Pending, tid, rest);
    NextStep(start, [], start, Register(tid), Held(id, disc, Pending, tid, Registered, rest, {}));
    es := [] + [Register(tid)];
    Reads(id, disc, tid, rest);
    NextStep(start, es, Held(id, disc, Pending, tid, Registered, rest, {}), ReadRow(tid),
         Held(id, disc, Pending, tid, Claimed, rest, {}));
    es := es + [ReadRow(tid)];
    Claims(id, disc, tid, rest);
    NextStep(start, es, Held(id, disc, Pending, tid, Claimed, rest, {}), Claim(tid),
         Held(id, disc, Processing, tid, Cleaning, rest, {}));
    es := es + [Claim(tid)];
    Cleans(id, disc, tid, rest);
    NextStep(start, es, Held(id, disc, Processing, tid, Cleaning, rest, {}), CleanOld(tid),
         Held(id, disc, Processing, tid, Working, rest, {}));
    es := es + [CleanOld(tid)];
  }

  /** And, undisturbed, to its end. */
  lemma Finishes(id: Id, disc: Image, tid: Tid, rest: map<Tid, Task>) returns (es: seq<Event>)
    requires Uploadable(disc) && Waiting(rest, tid)
    ensures Reaches(Held(id, disc, Processing, tid, Working, rest, {}), es, Idle(id, disc, Ready, rest))
  {
    var start, commit := Held(id, disc, Processing, tid, Working, rest, {}), Commit(tid, disc.(status := Ready));
    Commits(id, disc, Processing, Ready, tid, rest, {});
    NextStep(start, [], start, commit, Held(id, disc, Ready, tid, Committed, rest, {}));
    es := [] + [commit];
    Returns(id, disc, Ready, tid, rest);
    NextStep(start, es, Held(id, disc, Ready, tid, Committed, rest, {}), Return(tid),
         Held(id, disc, Ready, tid, Leaving, rest, {}));
    es := es + [Return(tid)];
    Deregisters(id, disc, Ready, tid, Leaving, rest);
    NextStep(start, es, Held(id, disc, Ready, tid, Leaving, rest, {}), Deregister(tid), Idle(id, disc, Ready, rest));
    es := es + [Deregister(tid)];
  }

  lemma IsStopped(id: Id, disc: Image)
    requires Uploadable(disc)
    ensures Steps(Alone(id, disc, Processing, Working, false), Delete(id), Stopped(id, disc))
  {
  }

  lemma StoppedReachable(id: Id, disc: Image) returns (es: seq<Event>)
    requires Uploadable(disc)
    ensures Reaches(EMPTY, es, Stopped(id, disc)) && |es| > 1 && es[|es| - 1] == Delete(id)
  {
    var up := Uploads(id, disc);
    var run := Starts(id, disc, 0, map[]);
    Chain(EMPTY, up, Alone(id, disc, Pending, Queued, false), run, Alone(id, disc, Processing, Working, false));
    IsStopped(id, disc);
    NextStep(EMPTY, up + run, Alone(id, disc, Processing, Working, false), Delete(id), Stopped(id, disc));
    es := up + run + [Delete(id)];
  }

  // --- A stale task --------------------------------------------------------

  /** Requeued while its run has committed "ready" and not left yet. */
  lemma RequeuedWhileLeaving(id: Id, disc: Image, tid: Tid)
    requires tid != 0
    ensures Steps(Held(id, disc, Ready, 0, Committed, map[], {}), Reprocess(id, tid),
                  Held(id, disc, Pending, 0, Committed, map[tid := Task(id, Queued, None, false)], {}))
  {
  }

  lemma RequeuedAfterError(id: Id, disc: Image, tid: Tid, rest: map<Tid, Task>)
    requires Waiting(rest, tid)
    ensures Steps(Idle(id, disc, Error, rest), Reprocess(id, tid), Held(id, disc, Pending, tid, Queued, rest, {}))
  {
  }

  /** A run that has committed "ready" is requeued, and then raises. */
  lemma RaisesAfterReady(id: Id, disc: Image, rest: map<Tid, Task>) returns (es: seq<Event>)
    requires Uploadable(disc) && rest == map[1 := Task(id, Queued, None, false)]
    ensures Reaches(Held(id, disc, Ready, 0, Committed, map[], {}), es, Held(id, disc, Error, 0, Leaving, rest, {}))
  {
    var start, task := Held(id, disc, Ready, 0, Committed, map[], {}), Task(id, Committed, Some(disc.filename), false);
    RequeuedWhileLeaving(id, disc, 1);
    NextStep(start, [], start, Reprocess(id, 1), Held(id, disc, Pending, 0, Committed, rest, {}));
    es := [] + [Reprocess(id, 1)];
    Raises(id, disc, Pending, 0, task, rest);
    HeldIsHeldAs(id, disc, Pending, 0, task, rest);
    HeldIsHeldAs(id, disc, Error, 0, task.(pc := Leaving), rest);
    Chain(start, es, Held(id, disc, Pending, 0, Committed, rest, {}), [Raise(0), FailRead(0), FailCommit(0)],
          Held(id, disc, Error, 0, Leaving, rest, {}));
    es := es + [Raise(0), FailRead(0), FailCommit(0)];
  }

  lemma HeldIsHeldAs(id: Id, disc: Image, status: Status, tid: Tid, task: Task, rest: map<Tid, Task>)
    requires task.pc !in {Queued, Finishing} && task == Task(id, task.pc, ClaimAt(disc, task.pc), false)
    ensures Held(id, disc, status, tid, task.pc, rest, {}) == HeldAs(id, disc, status, tid, task, rest)
  {
  }

  /** It leaves an error and a queued task. */
  lemma LeavesQueuedTask(id: Id, disc: Image, rest: map<Tid, Task>) returns (es: seq<Event>)
    requires Uploadable(disc) && rest == map[1 := Task(id, Queued, None, false)]
    ensures Reaches(EMPTY, es, Idle(id, disc, Error, rest))
  {
    var working := Alone(id, disc, Processing, Working, false);
    var committed := Held(id, disc, Ready, 0, Committed, map[], {});
    var up := Uploads(id, disc);
    var run := Starts(id, disc, 0, map[]);
    Chain(EMPTY, up, Alone(id, disc, Pending, Queued, false), run, working);
    es := up + run;
    var commit := Commit(0, disc.(status := Ready));
    Commits(id, disc, Processing, Ready, 0, map[], {});
    NextStep(EMPTY, es, working, commit, committed);
    es := es + [commit];
    var fail := RaisesAfterReady(id, disc, rest);
    Chain(EMPTY, es, committed, fail, Held(id, disc, Error, 0, Leaving, rest, {}));
    es := es + fail;
    Deregisters(id, disc, Error, 0, Leaving, rest);
    NextStep(EMPTY, es, Held(id, disc, Error, 0, Leaving, rest, {}), Deregister(0), Idle(id, disc, Error, rest));
    es := es + [Deregister(0)];
  }

  /**
   * A task left over from an earlier Reprocess starts when the image has long been built,
   * cannot read its row, and writes "error" over "ready".
   */
  lemma StaleTaskSpoilsReady(id: Id, disc: Image) returns (es: seq<Event>)
    requires Uploadable(disc)
    ensures Reaches(EMPTY, es, HeldAs(id, disc, Ready, 1, Task(id, Registered, None, false), map[]))
    ensures Reaches(HeldAs(id, disc, Ready, 1, Task(id, Registered, None, false), map[]),
                    [Raise(1), FailRead(1), FailCommit(1)],
                    HeldAs(id, disc, Error, 1, Task(id, Leaving, None, false), map[]))
  {
    var stale, rest := Task(id, Registered, None, false), map[1 := Task(id, Queued, None, false)];
    es := LeavesQueuedTask(id, disc, rest);
    RequeuedAfterError(id, disc, 2, rest);
    NextStep(EMPTY, es, Idle(id, disc, Error, rest), Reprocess(id, 2), Held(id, disc, Pending, 2, Queued, rest, {}));
    es := es + [Reprocess(id, 2)];
    var run := Starts(id, disc, 2, rest);
    Chain(EMPTY, es, Held(id, disc, Pending, 2, Queued, rest, {}), run,
          Held(id, disc, Processing, 2, Working, rest, {}));
    var end := Finishes(id, disc, 2, rest);
    Chain(EMPTY, es + run, Held(id, disc, Processing, 2, Working, rest, {}), end, Idle(id, disc, Ready, rest));
    es := es + run + end;
    assert Idle(id, disc, Ready, rest) == Held(id, disc, Ready, 1, Queued, map[], {});
    Registers(id, disc, Ready, 1, map[]);
    NextStep(EMPTY, es, Idle(id, disc, Ready, rest), Register(1), Held(id, disc, Ready, 1, Registered, map[], {}));
    es := es + [Register(1)];
    HeldIsHeldAs(id, disc, Ready, 1, stale, map[]);
    Raises(id, disc, Ready, 1, stale, map[]);
  }

  // --- Rows that are left behind -------------------------------------------

  /** A handler that raises too leaves the row "processing", with no run to change that. */
  lemma HandlerRaises(id: Id, disc: Image) returns (es: seq<Event>)
    requires Uploadable(disc)
    ensures Reaches(EMPTY, es, Idle(id, disc, Processing, map[]))
  {
    var task := Task(id, Working, Some(disc.filename), false);
    var up := Uploads(id, disc);
    var run := Starts(id, disc, 0, map[]);
    Chain(EMPTY, up, Alone(id, disc, Pending, Queued, false), run, Alone(id, disc, Processing, Working, false));
    es := up + run;
    assert Alone(id, disc, Processing, Working, false) == HeldAs(id, disc, Processing, 0, task, map[]);
    RaiseStep(id, disc, Processing, 0, task, map[]);
    var failing, broken := task.(pc := Failing), task.(pc := Broken);
    NextStep(EMPTY, es, HeldAs(id, disc, Processing, 0, task, map[]), Raise(0),
         HeldAs(id, disc, Processing, 0, failing, map[]));
    es := es + [Raise(0)];
    RaiseStep(id, disc, Processing, 0, failing, map[]);
    NextStep(EMPTY, es, HeldAs(id, disc, Processing, 0, failing, map[]), Raise(0),
         HeldAs(id, disc, Processing, 0, broken, map[]));
    es := es + [Raise(0)];
    assert HeldAs(id, disc, Processing, 0, broken, map[]) == Held(id, disc, Processing, 0, Broken, map[], {});
    Deregisters(id, disc, Processing, 0, Broken, map[]);
    NextStep(EMPTY, es, Held(id, disc, Processing, 0, Broken, map[], {}), Deregister(0),
             Idle(id, disc, Processing, map[]));
    es := es + [Deregister(0)];
  }

  /** The image being deleted, its stopped run at `pc` without a claim. */
  function Unread(id: Id, disc: Image, pc: Pc): State {
    State(map[id := disc.(status := Deleting)], IsoOnly(disc), if pc == Finishing then map[] else map[id := 0], {0},
          map[0 := Task(id, pc, None, false)], map[])
  }

  lemma ToldBeforeReading(id: Id, disc: Image)
    requires Uploadable(disc)
    ensures Steps(Alone(id, disc, Pending, Registered, false), Delete(id), Unread(id, disc, Registered))
  {
  }

  lemma ReadsDeleting(id: Id, disc: Image)
    ensures Steps(Unread(id, disc, Registered), ReadRow(0), Unread(id, disc, Leaving))
  {
  }

  lemma LeavesUnread(id: Id, disc: Image)
    ensures Steps(Unread(id, disc, Leaving), Deregister(0), Unread(id, disc, Finishing))
  {
  }

  lemma FinishesUnread(id: Id, disc: Image)
    ensures Steps(Unread(id, disc, Finishing), FinishDelete(0), Unread(id, disc, Finishing).(tasks := map[]))
  {
  }

  /** A Delete between the run's registration and its look at the row: the row stays "deleting". */
  lemma DeleteBeforeReadSticks(id: Id, disc: Image) returns (es: seq<Event>, s': State)
    requires Uploadable(disc)
    ensures Reaches(EMPTY, es, s')
    ensures s'.tasks == map[] && s'.runs == map[] && id in s'.rows && s'.rows[id].status == Deleting
  {
    es := Uploads(id, disc);
    Registers(id, disc, Pending, 0, map[]);
    NextStep(EMPTY, es, Alone(id, disc, Pending, Queued, false), Register(0),
             Alone(id, disc, Pending, Registered, false));
    es := es + [Register(0)];
    ToldBeforeReading(id, disc);
    NextStep(EMPTY, es, Alone(id, disc, Pending, Registered, false), Delete(id), Unread(id, disc, Registered));
    es := es + [Delete(id)];
    ReadsDeleting(id, disc);
    NextStep(EMPTY, es, Unread(id, disc, Registered), ReadRow(0), Unread(id, disc, Leaving));
    es := es + [ReadRow(0)];
    LeavesUnread(id, disc);
    NextStep(EMPTY, es, Unread(id, disc, Leaving), Deregister(0), Unread(id, disc, Finishing));
    es := es + [Deregister(0)];
    FinishesUnread(id, disc);
    s' := Unread(id, disc, Finishing).(tasks := map[]);
    NextStep(EMPTY, es, Unread(id, disc, Finishing), FinishDelete(0), s');
    es := es + [FinishDelete(0)];
  }

  lemma StopsWhenTold(id: Id, disc: Image)
    ensures Steps(Stopped(id, disc), Stop(0), Alone(id, disc, Deleting, Leaving, true))
  {
  }

  lemma LeavesWhenTold(id: Id, disc: Image)
    ensures Steps(Alone(id, disc, Deleting, Leaving, true), Deregister(0), Alone(id, disc, Deleting, Finishing, true))
  {
  }

  lemma FailsToFinish(id: Id, disc: Image)
    ensures Steps(Alone(id, disc, Deleting, Finishing, true), FailFinish(0, {}),
                  Idle(id, disc, Deleting, map[]).(stops := {0}))
  {
    var s := Alone(id, disc, Deleting, Finishing, true);
    assert s.files - {} == s.files;
  }

  /** An exception at the end of a stopped run leaves its row "deleting", with no run to remove it. */
  lemma FailedFinishSticks(id: Id, disc: Image) returns (es: seq<Event>)
    requires Uploadable(disc)
    ensures Reaches(EMPTY, es, Idle(id, disc, Deleting, map[]).(stops := {0}))
  {
    es := StoppedReachable(id, disc);
    StopsWhenTold(id, disc);
    NextStep(EMPTY, es, Stopped(id, disc), Stop(0), Alone(id, disc, Deleting, Leaving, true));
    es := es + [Stop(0)];
    LeavesWhenTold(id, disc);
    NextStep(EMPTY, es, Alone(id, disc, Deleting, Leaving, true), Deregister(0),
             Alone(id, disc, Deleting, Finishing, true));
    es := es + [Deregister(0)];
    FailsToFinish(id, disc);
    NextStep(EMPTY, es, Alone(id, disc, Deleting, Finishing, true), FailFinish(0, {}),
             Idle(id, disc, Deleting, map[]).(stops := {0}));
    es := es + [FailFinish(0, {})];
  }

  /**
   * In an orderly execution a stopped run whose row is there removes it exactly if it had
   * claimed it.
   */
  lemma FinishRemovesRowIff(es: seq<Event>, tid: Tid)
    requires OrderlyRun(EMPTY, es) && LegalRun(EMPTY, es) && At(Run(EMPTY, es), tid, {Finishing})
    requires Run(EMPTY, es).tasks[tid].image in Run(EMPTY, es).rows
    ensures var s := Run(EMPTY, es);
      s.tasks[tid].image !in Apply(s, FinishDelete(tid)).rows <==> HasClaimed(s, tid)
  {
    InvAlways(EMPTY, NOTHING, es);
    var s := Run(EMPTY, es);
    ApplyFinish(s, tid);
    if HasClaimed(s, tid) {
      assert ClaimOk(s, tid);
    }
  }

  /** A second Delete, or one with no run registered, always removes the image at once. */
  lemma SecondDeleteRemoves(s: State, id: Id)
    requires NamesOk(s) && id in s.rows && (id in s.runs ==> s.runs[id] in s.stops)
    ensures var s' := Apply(s, Delete(id));
      && id !in s'.rows
      && (forall p | RowOwns(s, id, p) :: p !in s'.files)
      && OthersKept(s, s', id)
  {
  }

  // --- Uploads -------------------------------------------------------------

  function Copying(name: string, size: nat): State {
    State(map[], map[IsoFile(name) := size], map[], {}, map[], map[0 := name])
  }

  lemma CopyBegins(name: string, size: nat)
    requires PlainName(name)
    ensures Steps(EMPTY, BeginUpload(0, name, size), Copying(name, size))
  {
  }

  lemma CopyFails(name: string, size: nat)
    ensures Steps(Copying(name, size), FailUpload(0), Copying(name, size).(uploads := map[]))
  {
  }

  /** A copy that fails, on a full disk say, leaves a file that no image has. */
  lemma FailedUploadOrphans(name: string, size: nat) returns (es: seq<Event>, s': State)
    requires PlainName(name)
    ensures Reaches(EMPTY, es, s') && s' == State(map[], map[IsoFile(name) := size], map[], {}, map[], map[])
    ensures LeftAfter(EMPTY, NOTHING, es).litter == {IsoFile(name)}
  {
    var mid := Copying(name, size);
    CopyBegins(name, size);
    NextStep(EMPTY, [], EMPTY, BeginUpload(0, name, size), mid);
    es := [] + [BeginUpload(0, name, size)];
    s' := mid.(uploads := map[]);
    CopyFails(name, size);
    NextStep(EMPTY, es, mid, FailUpload(0), s');
    es := es + [FailUpload(0)];
    NobodysFile(es, s', IsoFile(name));
  }

  /** The only file there is, without any row, run or upload. */
  lemma NobodysFile(es: seq<Event>, s': State, p: Path)
    requires Reaches(EMPTY, es, s') && s'.files.Keys == {p}
    requires s'.rows == map[] && s'.tasks == map[] && s'.uploads == map[]
    ensures LeftAfter(EMPTY, NOTHING, es).litter == {p}
  {
    InvAlways(EMPTY, NOTHING, es);
    var left := LeftAfter(EMPTY, NOTHING, es);
    assert !FileOk(s', p);
    assert p in left.litter;
  }

  /** The image is gone, its run is on its way out, and a new upload has the name. */
  function Recopied(id: Id, name: string, pc: Pc, files: Files, uploads: map<Upload, string>): State {
    State(map[], files, if pc == Finishing then map[] else map[id := 0], {0},
          map[0 := Task(id, pc, Some(name), false)], uploads)
  }

  lemma DeletesTwice(id: Id, disc: Image)
    requires Uploadable(disc)
    ensures Steps(Stopped(id, disc), Delete(id), Recopied(id, disc.filename, Working, map[], map[]))
  {
  }

  lemma StopsRecopied(id: Id, name: string, files: Files, uploads: map<Upload, string>)
    ensures Steps(Recopied(id, name, Working, files, uploads), Stop(0), Recopied(id, name, Leaving, files, uploads))
  {
  }

  lemma LeavesRecopied(id: Id, name: string, files: Files, uploads: map<Upload, string>)
    ensures Steps(Recopied(id, name, Leaving, files, uploads), Deregister(0),
                  Recopied(id, name, Finishing, files, uploads))
  {
  }

  lemma FinishesRecopied(id: Id, name: string, size: nat, uploads: map<Upload, string>)
    requires PlainName(name)
    ensures Steps(Recopied(id, name, Finishing, map[IsoFile(name) := size], uploads), FinishDelete(0),
                  State(map[], map[], map[], {0}, map[], uploads))
  {
  }

  /**
   * Delete pressed twice, then an ISO of the same name uploaded: the old run takes the
   * file of the upload away, in an orderly execution.
   */
  lemma UploadLosesItsFile(id: Id, disc: Image) returns (es: seq<Event>)
    requires Uploadable(disc)
    ensures Reaches(Stopped(id, disc), es, State(map[], map[], map[], {0}, map[], map[1 := disc.filename]))
  {
    var start, name := Stopped(id, disc), disc.filename;
    var file, copying := map[IsoFile(name) := 7 as nat], map[1 := name];
    DeletesTwice(id, disc);
    NextStep(start, [], start, Delete(id), Recopied(id, name, Working, map[], map[]));
    es := [] + [Delete(id)];
    BeginsRecopied(id, name, file, copying);
    NextStep(start, es, Recopied(id, name, Working, map[], map[]), BeginUpload(1, name, 7),
         Recopied(id, name, Working, file, copying));
    es := es + [BeginUpload(1, name, 7)];
    TakesFileAway(id, name, file, copying);
    Chain(start, es, Recopied(id, name, Working, file, copying), [Stop(0), Deregister(0), FinishDelete(0)],
          State(map[], map[], map[], {0}, map[], copying));
    es := es + [Stop(0), Deregister(0), FinishDelete(0)];
  }

  lemma TakesFileAway(id: Id, name: string, file: Files, copying: map<Upload, string>)
    requires PlainName(name) && file == map[IsoFile(name) := 7]
    ensures Reaches(Recopied(id, name, Working, file, copying), [Stop(0), Deregister(0), FinishDelete(0)],
                    State(map[], map[], map[], {0}, map[], copying))
  {
    StopsRecopied(id, name, file, copying);
    LeavesRecopied(id, name, file, copying);
    FinishesRecopied(id, name, 7, copying);
    ThreeSteps(Recopied(id, name, Working, file, copying), Stop(0), Recopied(id, name, Leaving, file, copying),
               Deregister(0), Recopied(id, name, Finishing, file, copying), FinishDelete(0),
               State(map[], map[], map[], {0}, map[], copying));
  }

  lemma BeginsRecopied(id: Id, name: string, file: Files, copying: map<Upload, string>)
    requires PlainName(name) && file == map[IsoFile(name) := 7] && copying == map[1 := name]
    ensures Steps(Recopied(id, name, Working, map[], map[]), BeginUpload(1, name, 7),
                  Recopied(id, name, Working, file, copying))
  {
  }

  /** Where the file of an upload has gone, a second upload takes its name, and both get a row. */
  lemma TwoRowsOneIso(s: State, name: string, i: Id, j: Id, a: Image, b: Image)
    returns (es: seq<Event>, s': State)
    requires s == State(map[], map[], map[], {0}, map[], map[1 := name]) && i != j
    requires PlainName(name) && a.filename == name && b.filename == name && a.status == Pending && b.status == Pending
    ensures Leads(s, es, s') && es == [BeginUpload(2, name, 8), EndUpload(1, i, a, 1), EndUpload(2, j, b, 2)]
    ensures s'.rows == map[i := a, j := b] && !DistinctIsos(s'.rows)
  {
    var s1 := s.(files := map[IsoFile(name) := 8], uploads := map[1 := name, 2 := name]);
    assert Apply(s, BeginUpload(2, name, 8)) == s1;
    Next(s, [], s, BeginUpload(2, name, 8), s1);
    var s2 := Apply(s1, EndUpload(1, i, a, 1));
    Next(s, [] + [BeginUpload(2, name, 8)], s1, EndUpload(1, i, a, 1), s2);
    assert s2.rows == map[i := a] && s2.uploads == map[2 := name] && s2.tasks == map[1 := Task(i, Queued, None, false)];
    s' := Apply(s2, EndUpload(2, j, b, 2));
    Next(s, [] + [BeginUpload(2, name, 8)] + [EndUpload(1, i, a, 1)], s2, EndUpload(2, j, b, 2), s');
    es := [BeginUpload(2, name, 8), EndUpload(1, i, a, 1), EndUpload(2, j, b, 2)];
    assert es == [] + [BeginUpload(2, name, 8)] + [EndUpload(1, i, a, 1)] + [EndUpload(2, j, b, 2)];
    assert s'.rows[i].filename == s'.rows[j].filename;
  }

  // --- A catalog image's download ------------------------------------------

  /** An image as `add_netboot` inserts it. */
  predicate FromMirror(cat: Image) {
    cat.source == FromCatalog && cat.status == Pending && PlainName(cat.filename)
  }

  /** The catalog image and its run. */
  function Fetching(id: Id, cat: Image, status: Status, pc: Pc, files: Files): State {
    State(map[id := cat.(status := status)], files, if pc == Queued then map[] else map[id := 0], {},
          map[0 := Task(id, pc, ClaimAt(cat, pc), pc !in {Queued, Registered})], map[])
  }

  lemma AddsFromCatalog(id: Id, cat: Image)
    requires FromMirror(cat)
    ensures Steps(EMPTY, Add(id, cat, 0), Fetching(id, cat, Pending, Queued, map[]))
  {
    assert cat.(status := Pending) == cat;
  }

  lemma RegistersToFetch(id: Id, cat: Image)
    requires FromMirror(cat)
    ensures Steps(Fetching(id, cat, Pending, Queued, map[]), Register(0), Fetching(id, cat, Pending, Registered, map[]))
  {
  }

  lemma ReadsToFetch(id: Id, cat: Image)
    requires FromMirror(cat)
    ensures Steps(Fetching(id, cat, Pending, Registered, map[]), ReadRow(0), Fetching(id, cat, Pending, Claimed, map[]))
  {
  }

  lemma ClaimsToFetch(id: Id, cat: Image)
    requires FromMirror(cat)
    ensures Steps(Fetching(id, cat, Pending, Claimed, map[]), Claim(0), Fetching(id, cat, Processing, Cleaning, map[]))
  {
  }

  lemma CleansBeforeFetch(id: Id, cat: Image)
    requires FromMirror(cat)
    ensures Steps(Fetching(id, cat, Processing, Cleaning, map[]), CleanOld(0),
                  Fetching(id, cat, Processing, Working, map[]))
  {
  }

  lemma BeginsToFetch(id: Id, cat: Image)
    requires FromMirror(cat)
    ensures Steps(Fetching(id, cat, Processing, Working, map[]), StartDownload(0),
                  Fetching(id, cat, Processing, Downloading, map[]))
  {
  }

  lemma Downloads(id: Id, cat: Image) returns (es: seq<Event>)
    requires FromMirror(cat)
    ensures Reaches(EMPTY, es, Fetching(id, cat, Processing, Downloading, map[PartFile(cat.filename) := 5]))
  {
    AddsFromCatalog(id, cat);
    RegistersToFetch(id, cat);
    ReadsToFetch(id, cat);
    ThreeSteps(EMPTY, Add(id, cat, 0), Fetching(id, cat, Pending, Queued, map[]), Register(0),
               Fetching(id, cat, Pending, Registered, map[]), ReadRow(0), Fetching(id, cat, Pending, Claimed, map[]));
    ClaimsToFetch(id, cat);
    CleansBeforeFetch(id, cat);
    BeginsToFetch(id, cat);
    ThreeSteps(Fetching(id, cat, Pending, Claimed, map[]), Claim(0), Fetching(id, cat, Processing, Cleaning, map[]),
               CleanOld(0), Fetching(id, cat, Processing, Working, map[]), StartDownload(0),
               Fetching(id, cat, Processing, Downloading, map[]));
    var start, fetch := [Add(id, cat, 0), Register(0), ReadRow(0)], [Claim(0), CleanOld(0), StartDownload(0)];
    Chain(EMPTY, start, Fetching(id, cat, Pending, Claimed, map[]), fetch,
          Fetching(id, cat, Processing, Downloading, map[]));
    WritesPart(id, cat);
    NextStep(EMPTY, start + fetch, Fetching(id, cat, Processing, Downloading, map[]),
             Write(0, PartFile(cat.filename), 5),
             Fetching(id, cat, Processing, Downloading, map[PartFile(cat.filename) := 5]));
    es := start + fetch + [Write(0, PartFile(cat.filename), 5)];
  }

  lemma WritesPart(id: Id, cat: Image)
    requires FromMirror(cat)
    ensures Steps(Fetching(id, cat, Processing, Downloading, map[]), Write(0, PartFile(cat.filename), 5),
                  Fetching(id, cat, Processing, Downloading, map[PartFile(cat.filename) := 5]))
  {
  }

  /** A restart in the middle of a download leaves the .part file, and deleting the image does not remove it. */
  lemma RestartLeavesPart(id: Id, cat: Image) returns (es: seq<Event>, s': State)
    requires FromMirror(cat)
    ensures Reaches(EMPTY, es, s')
    ensures s' == State(map[], map[PartFile(cat.filename) := 5], map[], {}, map[], map[])
  {
    var files := map[PartFile(cat.filename) := 5 as nat];
    var fetching := Fetching(id, cat, Processing, Downloading, files);
    es := Downloads(id, cat);
    var settled := State(map[id := cat.(status := NeedsReprocess)], files, map[], {}, map[], map[]);
    RestartsFetching(id, cat, files);
    NextStep(EMPTY, es, fetching, Restart(map[]), settled);
    es := es + [Restart(map[])];
    s' := State(map[], files, map[], {}, map[], map[]);
    DeletesFetched(id, cat, files);
    NextStep(EMPTY, es, settled, Delete(id), s');
    es := es + [Delete(id)];
  }

  lemma RestartsFetching(id: Id, cat: Image, files: Files)
    requires files == map[PartFile(cat.filename) := 5]
    ensures Steps(Fetching(id, cat, Processing, Downloading, files), Restart(map[]),
                  State(map[id := cat.(status := NeedsReprocess)], files, map[], {}, map[], map[]))
  {
    var s := Fetching(id, cat, Processing, Downloading, files);
    assert SettledFiles(s.rows, files) == files;
    assert SettledRows(s.rows, files, map[]) == map[id := cat.(status := NeedsReprocess)];
  }

  lemma DeletesFetched(id: Id, cat: Image, files: Files)
    requires files == map[PartFile(cat.filename) := 5]
    ensures Steps(State(map[id := cat.(status := NeedsReprocess)], files, map[], {}, map[], map[]), Delete(id),
                  State(map[], files, map[], {}, map[], map[]))
  {
    assert RemoveFiles(files, id, cat.filename) == files;
  }

  // --- The id is given out again -------------------------------------------

  /** The old run of `id` is at `pc`, after a second Delete let `other` have the id. */
  predicate Reused(s: State, id: Id, disc: Image, other: Image, pc: Pc) {
    && s.rows == map[id := other] && 0 in s.stops
    && 0 in s.tasks && s.tasks[0] == Task(id, pc, Some(disc.filename), false)
  }

  lemma ReuseSteps(id: Id, disc: Image, other: Image) returns (es: seq<Event>, s': State)
    requires Uploadable(disc) && Uploadable(other) && disc.filename != other.filename
    ensures Leads(Stopped(id, disc), es, s') && Reused(s', id, disc, other, Working)
  {
    var start, name := Stopped(id, disc), other.filename;
    DeletesTwice(id, disc);
    var gone := Recopied(id, disc.filename, Working, map[], map[]);
    Next(start, [], start, Delete(id), gone);
    var copied := Recopied(id, disc.filename, Working, map[IsoFile(name) := 7], map[1 := name]);
    assert Apply(gone, BeginUpload(1, name, 7)) == copied;
    Next(start, [] + [Delete(id)], gone, BeginUpload(1, name, 7), copied);
    s' := Apply(copied, EndUpload(1, id, other, 1));
    Next(start, [] + [Delete(id)] + [BeginUpload(1, name, 7)], copied, EndUpload(1, id, other, 1), s');
    es := [] + [Delete(id)] + [BeginUpload(1, name, 7)] + [EndUpload(1, id, other, 1)];
  }

  lemma ReusedWrites(s: State, id: Id, disc: Image, other: Image, left: Path) returns (s': State)
    requires Reused(s, id, disc, other, Working) && DerivedOf(left, id)
    ensures Moves(s, Write(0, left, 5), s') && Reused(s', id, disc, other, Working) && left in s'.files
  {
    s' := Apply(s, Write(0, left, 5));
  }

  lemma ReusedStops(s: State, id: Id, disc: Image, other: Image, left: Path) returns (s': State)
    requires Reused(s, id, disc, other, Working) && left in s.files
    ensures Moves(s, Stop(0), s') && Reused(s', id, disc, other, Leaving) && left in s'.files
  {
    s' := Apply(s, Stop(0));
  }

  lemma ReusedLeaves(s: State, id: Id, disc: Image, other: Image, left: Path) returns (s': State)
    requires Reused(s, id, disc, other, Leaving) && left in s.files
    ensures Moves(s, Deregister(0), s') && Reused(s', id, disc, other, Finishing) && left in s'.files
  {
    s' := Apply(s, Deregister(0));
  }

  lemma ReusedFinishes(s: State, id: Id, disc: Image, other: Image, left: Path) returns (s': State)
    requires Reused(s, id, disc, other, Finishing) && left in s.files && disc.filename != other.filename
    ensures Moves(s, FinishDelete(0), s') && s'.rows == s.rows && left in s'.files
  {
    s' := Apply(s, FinishDelete(0));
  }

  /** The old run writes, notices the stop flag, and finishes. */
  lemma ReusedRun(s: State, id: Id, disc: Image, other: Image, left: Path)
    returns (es: seq<Event>, s': State)
    requires Reused(s, id, disc, other, Working) && DerivedOf(left, id)
    requires disc.filename != other.filename
    ensures Leads(s, es, s') && |es| == 4 && es[3] == FinishDelete(0)
    ensures s'.rows == s.rows && left in s'.files
  {
    var s1 := ReusedWrites(s, id, disc, other, left);
    var s2 := ReusedStops(s1, id, disc, other, left);
    var s3 := ReusedLeaves(s2, id, disc, other, left);
    s' := ReusedFinishes(s3, id, disc, other, left);
    FourMoves(s, Write(0, left, 5), s1, Stop(0), s2, Deregister(0), s3, FinishDelete(0), s');
    es := [Write(0, left, 5), Stop(0), Deregister(0), FinishDelete(0)];
  }

  /**
   * An id given out again while its old run is still stopping: the old run finds
   * a row it does not know, and leaves what it wrote in the new image's folder.
   */
  lemma ReusedIdKeepsLeftovers(id: Id, disc: Image, other: Image, left: Path)
    returns (es: seq<Event>, s': State)
    requires Uploadable(disc) && Uploadable(other) && disc.filename != other.filename
    requires DerivedOf(left, id)
    ensures Leads(Stopped(id, disc), es, s') && |es| > 0 && es[|es| - 1] == FinishDelete(0)
    ensures s'.rows == map[id := other] && left in s'.files
  {
    var reused, rest;
    es, reused := ReuseSteps(id, disc, other);
    rest, s' := ReusedRun(reused, id, disc, other, left);
    Chain(Stopped(id, disc), es, reused, rest, s');
    es := es + rest;
  }

  // --- Reprocess in the gap ------------------------------------------------

  /** A second run (task 1) of `id`, in the gap before the first has finished. */
  function Overlap(id: Id, disc: Image, status: Status, pc: Pc): State {
    State(map[id := disc.(status := status)], IsoOnly(disc),
          if pc == Queued then map[] else map[id := 1], {0},
          map[0 := Task(id, Finishing, Some(disc.filename), false),
              1 := Task(id, pc, ClaimAt(disc, pc), false)], map[])
  }

  /** The second run after the first one has removed the image. */
  function Lost(id: Id, disc: Image, pc: Pc, files: Files): State {
    State(map[], files, map[id := 1], {0}, map[1 := Task(id, pc, Some(disc.filename), false)], map[])
  }

  /** The image requeued while its stopped run is on its way out. */
  function Requeued(id: Id, disc: Image, pc: Pc): State {
    Held(id, disc, Pending, 0, pc, map[1 := Task(id, Queued, None, false)], {0})
  }

  lemma CommittedIsRequeued(id: Id, disc: Image)
    ensures Moves(Alone(id, disc, Ready, Committed, true), Reprocess(id, 1), Requeued(id, disc, Committed))
  {
  }

  lemma RequeuedReturns(id: Id, disc: Image)
    ensures Moves(Requeued(id, disc, Committed), Return(0), Requeued(id, disc, Leaving))
  {
  }

  lemma RequeuedLeaves(id: Id, disc: Image)
    ensures Moves(Requeued(id, disc, Leaving), Deregister(0), Overlap(id, disc, Pending, Queued))
  {
  }

  lemma OverlapRegisters(id: Id, disc: Image)
    ensures Moves(Overlap(id, disc, Pending, Queued), Register(1), Overlap(id, disc, Pending, Registered))
  {
  }

  lemma OverlapReads(id: Id, disc: Image)
    requires Uploadable(disc)
    ensures Moves(Overlap(id, disc, Pending, Registered), ReadRow(1), Overlap(id, disc, Pending, Claimed))
  {
  }

  lemma OverlapClaims(id: Id, disc: Image)
    ensures Moves(Overlap(id, disc, Pending, Claimed), Claim(1), Overlap(id, disc, Processing, Cleaning))
  {
  }

  lemma OverlapCleans(id: Id, disc: Image)
    ensures Moves(Overlap(id, disc, Processing, Cleaning), CleanOld(1), Overlap(id, disc, Processing, Working))
  {
    assert Clean(IsoOnly(disc), id) == IsoOnly(disc);
  }

  lemma GapSteps(id: Id, disc: Image) returns (es: seq<Event>)
    requires Uploadable(disc)
    ensures Leads(Stopped(id, disc), es, Overlap(id, disc, Pending, Queued))
  {
    var commit := Commit(0, disc.(status := Ready));
    Commits(id, disc, Deleting, Ready, 0, map[], {0});
    CommittedIsRequeued(id, disc);
    RequeuedReturns(id, disc);
    RequeuedLeaves(id, disc);
    FourMoves(Stopped(id, disc), commit, Alone(id, disc, Ready, Committed, true), Reprocess(id, 1),
              Requeued(id, disc, Committed), Return(0), Requeued(id, disc, Leaving), Deregister(0),
              Overlap(id, disc, Pending, Queued));
    es := [commit, Reprocess(id, 1), Return(0), Deregister(0)];
  }

  lemma OverlapSteps(id: Id, disc: Image) returns (es: seq<Event>)
    requires Uploadable(disc)
    ensures Leads(Overlap(id, disc, Pending, Queued), es, Overlap(id, disc, Processing, Working))
  {
    OverlapRegisters(id, disc);
    OverlapReads(id, disc);
    OverlapClaims(id, disc);
    OverlapCleans(id, disc);
    FourMoves(Overlap(id, disc, Pending, Queued), Register(1), Overlap(id, disc, Pending, Registered), ReadRow(1),
              Overlap(id, disc, Pending, Claimed), Claim(1), Overlap(id, disc, Processing, Cleaning), CleanOld(1),
              Overlap(id, disc, Processing, Working));
    es := [Register(1), ReadRow(1), Claim(1), CleanOld(1)];
  }

  lemma OverlapLoses(id: Id, disc: Image)
    requires Uploadable(disc)
    ensures Apply(Overlap(id, disc, Processing, Working), FinishDelete(0)) == Lost(id, disc, Working, map[])
  {
  }

  lemma LostWrites(id: Id, disc: Image, p: Path)
    requires DerivedOf(p, id)
    ensures var s := Lost(id, disc, Working, map[]);
            Legal(s, Write(1, p, 5)) && Apply(s, Write(1, p, 5)) == Lost(id, disc, Working, map[p := 5])
  {
  }

  lemma LostCommits(id: Id, disc: Image, built: Image, files: Files)
    requires built.status == Ready
    ensures var s := Lost(id, disc, Working, files);
            Legal(s, Commit(1, built)) && Apply(s, Commit(1, built)) == Lost(id, disc, Failing, files)
  {
  }

  lemma LostFails(id: Id, disc: Image, files: Files)
    ensures Apply(Lost(id, disc, Failing, files), FailRead(1)) == Lost(id, disc, Leaving, files)
  {
  }

  lemma LostLeaves(id: Id, disc: Image, files: Files)
    ensures Apply(Lost(id, disc, Leaving, files), Deregister(1)) == State(map[], files, map[], {0}, map[], map[])
  {
  }

  lemma LostSteps(id: Id, disc: Image, p: Path) returns (es: seq<Event>, s': State)
    requires Uploadable(disc) && DerivedOf(p, id)
    ensures Leads(Overlap(id, disc, Processing, Working), es, s')
    ensures s' == State(map[], map[p := 5], map[], {0}, map[], map[])
  {
    var start, built := Overlap(id, disc, Processing, Working), disc.(status := Ready);
    OverlapLoses(id, disc);
    Next(start, [], start, FinishDelete(0), Lost(id, disc, Working, map[]));
    es := [] + [FinishDelete(0)];
    LostWrites(id, disc, p);
    var files: Files := map[p := 5];
    Next(start, es, Lost(id, disc, Working, map[]), Write(1, p, 5), Lost(id, disc, Working, files));
    es := es + [Write(1, p, 5)];
    var rest;
    rest, s' := LostEnds(id, disc, built, files);
    Chain(start, es, Lost(id, disc, Working, files), rest, s');
    es := es + rest;
  }

  lemma LostEnds(id: Id, disc: Image, built: Image, files: Files) returns (es: seq<Event>, s': State)
    requires built.status == Ready
    ensures Leads(Lost(id, disc, Working, files), es, s')
    ensures s' == State(map[], files, map[], {0}, map[], map[])
  {
    var start := Lost(id, disc, Working, files);
    LostCommits(id, disc, built, files);
    Next(start, [], start, Commit(1, built), Lost(id, disc, Failing, files));
    es := [] + [Commit(1, built)];
    LostFails(id, disc, files);
    Next(start, es, Lost(id, disc, Failing, files), FailRead(1), Lost(id, disc, Leaving, files));
    es := es + [FailRead(1)];
    LostLeaves(id, disc, files);
    s' := State(map[], files, map[], {0}, map[], map[]);
    Next(start, es, Lost(id, disc, Leaving, files), Deregister(1), s');
    es := es + [Deregister(1)];
  }

  /**
   * Reprocess pressed after a stopped run wrote "ready" over "deleting": the new
   * run goes on writing after the old one has removed the image, and nothing
   * that is left knows of its files.
   */
  lemma ReprocessInGapOrphans(id: Id, disc: Image, p: Path) returns (es: seq<Event>, s': State)
    requires Uploadable(disc) && DerivedOf(p, id)
    ensures Leads(Stopped(id, disc), es, s')
    ensures s'.tasks == map[] && s'.rows == map[] && p in s'.files
  {
    var start := Stopped(id, disc);
    var gap := GapSteps(id, disc);
    var overlap := OverlapSteps(id, disc);
    Chain(start, gap, Overlap(id, disc, Pending, Queued), overlap, Overlap(id, disc, Processing, Working));
    var lost;
    lost, s' := LostSteps(id, disc, p);
    Chain(start, gap + overlap, Overlap(id, disc, Processing, Working), lost, s');
    es := gap + overlap + lost;
  }

  // --- Restart before the run finishes -------------------------------------

  /** A restart while a run outlives its row: nobody knows its files any more. */
  lemma RestartAfterSecondDeleteOrphans(id: Id, disc: Image, p: Path) returns (es: seq<Event>, s': State)
    requires Uploadable(disc) && DerivedOf(p, id)
    ensures Reaches(EMPTY, es, s') && s'.tasks == map[] && s'.rows == map[] && s'.uploads == map[]
    ensures s'.files.Keys == {p} && LeftAfter(EMPTY, NOTHING, es).litter == {p}
  {
    var start, gone := Stopped(id, disc), Recopied(id, disc.filename, Working, map[], map[]);
    es := StoppedReachable(id, disc);
    DeletesTwice(id, disc);
    NextStep(EMPTY, es, start, Delete(id), gone);
    es := es + [Delete(id)];
    var written := Recopied(id, disc.filename, Working, map[p := 5], map[]);
    WritesAfterDelete(id, disc.filename, p);
    NextStep(EMPTY, es, gone, Write(0, p, 5), written);
    es := es + [Write(0, p, 5)];
    s' := State(map[], map[p := 5], map[], {}, map[], map[]);
    RestartsWithoutRow(id, disc.filename, p);
    NextStep(EMPTY, es, written, Restart(map[]), s');
    es := es + [Restart(map[])];
    NobodysFile(es, s', p);
  }

  lemma WritesAfterDelete(id: Id, name: string, p: Path)
    requires DerivedOf(p, id)
    ensures Steps(Recopied(id, name, Working, map[], map[]), Write(0, p, 5),
                  Recopied(id, name, Working, map[p := 5], map[]))
  {
  }

  lemma RestartsWithoutRow(id: Id, name: string, p: Path)
    ensures Steps(Recopied(id, name, Working, map[p := 5], map[]), Restart(map[]),
                  State(map[], map[p := 5], map[], {}, map[], map[]))
  {
    assert SettledFiles(map[], map[p := 5]) == map[p := 5];
    assert SettledRows(map[], map[p := 5], map[]) == map[];
  }

  lemma ErrorOutlivesRestart(id: Id, disc: Image)
    ensures Steps(Alone(id, disc, Error, Committed, true), Restart(map[]), Idle(id, disc, Error, map[]))
  {
    var s := Alone(id, disc, Error, Committed, true);
    assert SettledRows(s.rows, s.files, map[]) == s.rows && SettledFiles(s.rows, s.files) == s.files;
  }

  /** A run may write over "deleting"; a restart before it finishes brings the image back. */
  lemma RestartUndoesDelete(id: Id, disc: Image) returns (es: seq<Event>)
    requires Uploadable(disc)
    ensures Reaches(EMPTY, es, Idle(id, disc, Error, map[])) && Delete(id) in es
  {
    var commit := Commit(0, disc.(status := Error));
    var mid := Alone(id, disc, Error, Committed, true);
    var stopped := StoppedReachable(id, disc);
    Commits(id, disc, Deleting, Error, 0, map[], {0});
    NextStep(EMPTY, stopped, Stopped(id, disc), commit, mid);
    ErrorOutlivesRestart(id, disc);
    NextStep(EMPTY, stopped + [commit], mid, Restart(map[]), Idle(id, disc, Error, map[]));
    es := stopped + [commit] + [Restart(map[])];
  }

  lemma RaisesAfterDelete(id: Id, disc: Image)
    ensures Steps(Stopped(id, disc), Raise(0), Alone(id, disc, Deleting, Failing, true))
    ensures Steps(Alone(id, disc, Deleting, Failing, true), FailRead(0), Alone(id, disc, Deleting, Leaving, true))
  {
  }

  lemma RestartRemovesDeleting(id: Id, disc: Image)
    requires Uploadable(disc)
    ensures Steps(Alone(id, disc, Deleting, Leaving, true), Restart(map[]), EMPTY)
  {
    var s := Alone(id, disc, Deleting, Leaving, true);
    assert id in s.rows && s.rows[id].status == Deleting;
    assert OwnedByDeleted(s.rows, IsoFile(disc.filename));
    assert SettledRows(s.rows, s.files, map[]) == map[] && SettledFiles(s.rows, s.files) == map[];
  }

  /** An exception that is handled after the Delete reports nothing: the restart removes the image. */
  lemma RestartFinishesDelete(id: Id, disc: Image) returns (es: seq<Event>)
    requires Uploadable(disc)
    ensures Reaches(EMPTY, es, EMPTY)
    ensures |es| > 4 && es[|es| - 4..] == [Delete(id), Raise(0), FailRead(0), Restart(map[])]
  {
    var stopped := StoppedReachable(id, disc);
    RaisesAfterDelete(id, disc);
    RestartRemovesDeleting(id, disc);
    var raised, left := Alone(id, disc, Deleting, Failing, true), Alone(id, disc, Deleting, Leaving, true);
    NextStep(EMPTY, stopped, Stopped(id, disc), Raise(0), raised);
    NextStep(EMPTY, stopped + [Raise(0)], raised, FailRead(0), left);
    NextStep(EMPTY, stopped + [Raise(0)] + [FailRead(0)], left, Restart(map[]), EMPTY);
    es := stopped + [Raise(0)] + [FailRead(0)] + [Restart(map[])];
    assert |stopped| > 1 ==> stopped[|stopped| - 1..] == [Delete(id)];
  }
}
