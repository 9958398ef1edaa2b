/** What the lifecycle promises over whole executions. */
module LifecycleTheorems {
  import opened Store
  import opened BootFiles
  import opened StartUp
  import opened Lifecycle
  import opened LifecycleProofs

  // --- Delete wins ---------------------------------------------------------

  /** Nothing is left of image `id`; its ISO name is free, or already another's. */
  ghost predicate Gone(s: State, id: Id, filename: string) {
    && id !in s.rows
    && (forall p | p in s.files :: !DerivedOf(p, id))
    && (IsoFile(filename) in s.files ==> exists other :: RowOwns(s, other, IsoFile(filename)))
  }

  /** Rows other than `id` and everything they own are as before. */
  ghost predicate OthersKept(s: State, s': State, id: Id) {
    && (forall other | other != id :: other in s.rows <==> other in s'.rows)
    && (forall other | other in s.rows && other != id :: s'.rows[other] == s.rows[other])
    && (forall other, p | other != id && RowOwns(s, other, p) ::
          (p in s.files <==> p in s'.files) && (p in s.files ==> s'.files[p] == s.files[p]))
  }

  /** A stopped run's image is gone, and no other has changed. */
  ghost predicate LeavesNothing(s: State, s': State, task: Task)
    requires task.filename.Some?
  {
    && Gone(s', task.image, task.filename.value)
    && (task.netboot ==> IsoFile(task.filename.value) !in s'.files)
    && OthersKept(s, s', task.image)
  }

  lemma FinishLeavesNothing(s: State, tid: Tid)
    requires NamesOk(s) && TasksOk(s) && At(s, tid, {Finishing}) && HasClaimed(s, tid)
    ensures LeavesNothing(s, FinishDeletion(s, tid), s.tasks[tid])
  {
    var id, name := s.tasks[tid].image, s.tasks[tid].filename.value;
    assert ClaimOk(s, tid);
    if id in s.rows {
      RemovalLeavesNothing(s, FinishDeletion(s, tid), id);
    } else {
      AbsentLeavesNothing(s, tid);
    }
  }

  lemma RemovalLeavesNothing(s: State, s': State, id: Id)
    requires NamesOk(s) && id in s.rows
    requires s'.rows == s.rows - {id} && s'.files == RemoveFiles(s.files, id, s.rows[id].filename)
    ensures Gone(s', id, s.rows[id].filename) && IsoFile(s.rows[id].filename) !in s'.files
    ensures OthersKept(s, s', id)
  {
    assert PlainName(s.rows[id].filename);
  }

  lemma AbsentLeavesNothing(s: State, tid: Tid)
    requires NamesOk(s) && HasClaimed(s, tid) && ClaimOk(s, tid) && s.tasks[tid].image !in s.rows
    ensures LeavesNothing(s, FinishDeletion(s, tid), s.tasks[tid])
  {
    AbsentIsGone(s, tid);
    AbsentKeepsOthers(s, tid);
  }

  lemma AbsentIsGone(s: State, tid: Tid)
    requires NamesOk(s) && HasClaimed(s, tid) && ClaimOk(s, tid) && s.tasks[tid].image !in s.rows
    ensures var s', task := FinishDeletion(s, tid), s.tasks[tid];
      && Gone(s', task.image, task.filename.value)
      && (task.netboot ==> IsoFile(task.filename.value) !in s'.files)
  {
    var s', name := FinishDeletion(s, tid), s.tasks[tid].filename.value;
    if IsoFile(name) in s'.files {
      var other :| other in s.rows && s.rows[other].filename == name;
      assert RowOwns(s', other, IsoFile(name));
    }
  }

  lemma AbsentKeepsOthers(s: State, tid: Tid)
    requires NamesOk(s) && HasClaimed(s, tid) && ClaimOk(s, tid) && s.tasks[tid].image !in s.rows
    ensures OthersKept(s, FinishDeletion(s, tid), s.tasks[tid].image)
  {
    var s', id := FinishDeletion(s, tid), s.tasks[tid].image;
    assert s'.rows == s.rows;
    forall other, p | other != id && RowOwns(s, other, p)
      ensures (p in s.files <==> p in s'.files) && (p in s.files ==> s'.files[p] == s.files[p])
    {
    }
  }

  /**
   * Delete wins. In every orderly execution, when a run that claimed its row and
   * was told to stop finishes, its row, its folders and its ISO are gone, whatever
   * it wrote or committed after the Delete, and no other image has changed.
   */
  lemma DeleteWins(es: seq<Event>, tid: Tid)
    requires OrderlyRun(EMPTY, es) && LegalRun(EMPTY, es)
    requires At(Run(EMPTY, es), tid, {Finishing}) && HasClaimed(Run(EMPTY, es), tid)
    ensures var s := Run(EMPTY, es); LeavesNothing(s, Apply(s, FinishDelete(tid)), s.tasks[tid])
  {
    InvAlways(EMPTY, NOTHING, es);
    LastStepLeavesNothing(Run(EMPTY, es), tid);
  }

  lemma LastStepLeavesNothing(s: State, tid: Tid)
    requires NamesOk(s) && TasksOk(s) && At(s, tid, {Finishing}) && HasClaimed(s, tid)
    ensures LeavesNothing(s, Apply(s, FinishDelete(tid)), s.tasks[tid])
  {
    FinishLeavesNothing(s, tid);
    ApplyFinish(s, tid);
  }

  lemma ApplyFinish(s: State, tid: Tid)
    requires At(s, tid, {Finishing})
    ensures Apply(s, FinishDelete(tid)) == FinishDeletion(s, tid)
  {
  }

  /** The last event of a stopped run, whether it succeeds or not. */
  predicate Ends(e: Event, tid: Tid) {
    (e.FinishDelete? || e.FailFinish?) && e.tid == tid
  }

  /** Once stopped, a run stays stopped and keeps its claim until it finishes. */
  lemma StopIsFinal(s: State, e: Event, tid: Tid)
    requires TableOk(s) && Legal(s, e) && Doomed(s, tid)
    requires !Ends(e, tid) && !e.Restart?
    ensures StillDoomed(s, Apply(s, e), tid)
  {
    assert TaskOk(s, tid);
    if OwnStep(e) {
      StepKeepsClaim(s, e, tid);
    } else {
      OtherKeepsClaim(s, e, tid);
    }
  }

  lemma StepKeepsClaim(s: State, e: Event, tid: Tid)
    requires TableOk(s) && Legal(s, e) && Doomed(s, tid) && OwnStep(e)
    ensures StillDoomed(s, Apply(s, e), tid)
  {
    OwnStepMoves(s, e);
    assert TaskOk(s, e.tid);
  }

  lemma OtherKeepsClaim(s: State, e: Event, tid: Tid)
    requires TableOk(s) && Legal(s, e) && Doomed(s, tid) && !OwnStep(e)
    requires !Ends(e, tid) && !e.Restart?
    ensures StillDoomed(s, Apply(s, e), tid)
  {
    assert TaskOk(s, tid);
  }

  /** An event of this task, from its start to its return. */
  ghost predicate OwnEvent(e: Event, tid: Tid) {
    (OwnStep(e) || e.Register? || e.Deregister? || e.FinishDelete? || e.FailFinish?) && e.tid == tid
  }

  /** From its start to its return a run changes nothing of any other image. */
  lemma RunKeepsOthers(es: seq<Event>, e: Event, tid: Tid)
    requires OrderlyRun(EMPTY, es) && LegalRun(EMPTY, es) && Legal(Run(EMPTY, es), e)
    requires tid in Run(EMPTY, es).tasks && OwnEvent(e, tid)
    ensures var s := Run(EMPTY, es); OthersKept(s, Apply(s, e), s.tasks[tid].image)
  {
    InvAlways(EMPTY, NOTHING, es);
    EventKeepsOthers(Run(EMPTY, es), e, tid);
  }

  lemma EventKeepsOthers(s: State, e: Event, tid: Tid)
    requires TableOk(s) && NamesOk(s) && TasksOk(s) && Legal(s, e) && tid in s.tasks && OwnEvent(e, tid)
    ensures OthersKept(s, Apply(s, e), s.tasks[tid].image)
  {
    if e.FinishDelete? {
      FinishKeepsOthers(s, tid);
    } else if e.FailFinish? {
      FailFinishKeepsOthers(s, tid, e.gone);
    } else if OwnStep(e) {
      StepKeepsOthers(s, e);
    }
  }

  lemma FinishKeepsOthers(s: State, tid: Tid)
    requires NamesOk(s) && TasksOk(s) && At(s, tid, {Finishing})
    ensures OthersKept(s, Apply(s, FinishDelete(tid)), s.tasks[tid].image)
  {
    ApplyFinish(s, tid);
    if HasClaimed(s, tid) {
      FinishLeavesNothing(s, tid);
    }
  }

  /** What is gone when the last step fails is among what it removes when it does not. */
  lemma FailFinishKeepsOthers(s: State, tid: Tid, gone: set<Path>)
    requires NamesOk(s) && TasksOk(s) && Legal(s, FailFinish(tid, gone))
    ensures OthersKept(s, FailFinishing(s, tid, gone), s.tasks[tid].image)
  {
    FinishKeepsOthers(s, tid);
    ApplyFinish(s, tid);
  }

  lemma StepKeepsOthers(s: State, e: Event)
    requires TableOk(s) && TasksOk(s) && Legal(s, e) && OwnStep(e)
    ensures OthersKept(s, Apply(s, e), s.tasks[e.tid].image)
  {
    OwnStepRows(s, e);
    assert TaskOk(s, e.tid);
    if HasClaimed(s, e.tid) {
      assert ClaimOk(s, e.tid);
    }
    var s', id := Apply(s, e), s.tasks[e.tid].image;
    forall other, p | other != id && RowOwns(s, other, p)
      ensures (p in s.files <==> p in s'.files) && (p in s.files ==> s'.files[p] == s.files[p])
    {
      StepKeepsFile(s, e, other, p);
    }
  }

  lemma StepKeepsFile(s: State, e: Event, other: Id, p: Path)
    requires OwnStep(e) && Legal(s, e) && e.tid in s.tasks
    requires TaskOk(s, e.tid) && (HasClaimed(s, e.tid) ==> ClaimOk(s, e.tid))
    requires other != s.tasks[e.tid].image && RowOwns(s, other, p)
    ensures (p in s.files <==> p in Apply(s, e).files) && (p in s.files ==> Apply(s, e).files[p] == s.files[p])
  {
  }

  /** The step a stopped run takes next if nothing goes wrong. */
  function NextOwn(s: State, tid: Tid): Event
    requires tid in s.tasks
  {
    match s.tasks[tid].pc
    case Queued => Register(tid)
    case Registered => ReadRow(tid)
    case Claimed => Claim(tid)
    case Cleaning => CleanOld(tid)
    case Working => Stop(tid)
    case Downloading => Stop(tid)
    case Committed => Return(tid)
    case Failing => FailRead(tid)
    case Reporting => FailCommit(tid)
    case Leaving => Deregister(tid)
    case Broken => Deregister(tid)
    case Finishing => FinishDelete(tid)
  }

  function StepsLeft(pc: Pc): nat {
    match pc
    case Queued => 10 case Registered => 9 case Claimed => 8 case Cleaning => 7 case Working => 6
    case Downloading => 6 case Committed => 5 case Failing => 4 case Reporting => 3 case Leaving => 2
    case Broken => 2 case Finishing => 1
  }

  /** What a run may do any number of times before it looks at its stop flag. */
  predicate Works(e: Event) {
    e.Write? || e.Discard? || e.StartDownload? || e.EndDownload?
  }

  /** A stopped run is never stuck: at most eight steps of its own remove the image. */
  lemma {:induction false} StoppedRunFinishes(s: State, left: Left, tid: Tid) returns (es: seq<Event>)
    requires Inv(s, left) && Doomed(s, tid)
    ensures OrderlyRun(s, es) && LegalRun(s, es) && |es| <= StepsLeft(s.tasks[tid].pc) <= 8
    ensures var s', task := Run(s, es), s.tasks[tid];
      tid !in s'.tasks && Gone(s', task.image, task.filename.value)
    decreases StepsLeft(s.tasks[tid].pc)
  {
    assert TaskOk(s, tid);
    if s.tasks[tid].pc == Finishing {
      es := FinishingFinishes(s, tid);
    } else {
      var e := NextOwn(s, tid);
      NextOwnLegal(s, left, tid);
      StepAdvances(s, e, tid);
      var rest := StoppedRunFinishes(Apply(s, e), LeftBy(s, left, e), tid);
      es := [e] + rest;
      RunOne(s, e, rest);
    }
  }

  lemma NextOwnLegal(s: State, left: Left, tid: Tid)
    requires Inv(s, left) && Doomed(s, tid) && s.tasks[tid].pc != Finishing
    ensures var e := NextOwn(s, tid);
      && Legal(s, e) && Orderly(s, e) && !Works(e) && OwnEvent(e, tid) && !Ends(e, tid)
      && Inv(Apply(s, e), LeftBy(s, left, e)) && StillDoomed(s, Apply(s, e), tid)
  {
    var e := NextOwn(s, tid);
    assert TaskOk(s, tid);
    NextOwnTakes(s, tid);
    InvStep(s, left, e);
    StopIsFinal(s, e, tid);
  }

  lemma NextOwnTakes(s: State, tid: Tid)
    requires TableOk(s) && Doomed(s, tid) && s.tasks[tid].pc != Finishing
    ensures var e := NextOwn(s, tid);
      Legal(s, e) && Orderly(s, e) && !Works(e) && OwnEvent(e, tid) && !Ends(e, tid)
  {
    assert TaskOk(s, tid);
  }

  /** The task works on, or has come nearer to its end. */
  predicate Advances(s: State, s': State, e: Event, tid: Tid)
    requires tid in s.tasks && tid in s'.tasks
  {
    var before, after := StepsLeft(s.tasks[tid].pc), StepsLeft(s'.tasks[tid].pc);
    if Works(e) then after == before else after < before
  }

  /** Whatever a stopped run does but work brings it nearer to its end. */
  lemma StepAdvances(s: State, e: Event, tid: Tid)
    requires TableOk(s) && Doomed(s, tid) && Legal(s, e) && OwnEvent(e, tid) && tid in Apply(s, e).tasks
    ensures Advances(s, Apply(s, e), e, tid)
  {
    assert TaskOk(s, tid);
    if OwnStep(e) && DropsPart(e) {
      DropStepAdvances(s, e);
    } else if OwnStep(e) {
      PlainStepAdvances(s, e);
    }
  }

  lemma DropStepAdvances(s: State, e: Event)
    requires DropsPart(e) && Legal(s, e) && e.tid in Apply(s, e).tasks
    ensures Advances(s, Apply(s, e), e, e.tid)
  {
  }

  lemma PlainStepAdvances(s: State, e: Event)
    requires OwnStep(e) && !DropsPart(e) && Legal(s, e) && e.tid in Apply(s, e).tasks
    ensures Advances(s, Apply(s, e), e, e.tid)
  {
    if WorksTowards(e) {
      WorkStepAdvances(s, e);
    } else {
      EndStepAdvances(s, e);
    }
  }

  lemma WorkStepAdvances(s: State, e: Event)
    requires WorksTowards(e) && Legal(s, e) && e.tid in Apply(s, e).tasks
    ensures Advances(s, Apply(s, e), e, e.tid)
  {
  }

  lemma EndStepAdvances(s: State, e: Event)
    requires OwnStep(e) && !DropsPart(e) && !WorksTowards(e) && Legal(s, e) && e.tid in Apply(s, e).tasks
    ensures Advances(s, Apply(s, e), e, e.tid)
  {
  }

  /** The steps a run has taken, other than its work. */
  ghost function StepsTaken(s: State, es: seq<Event>, tid: Tid): nat
    requires LegalRun(s, es)
    decreases es
  {
    if es == [] then 0
    else (if OwnEvent(es[0], tid) && !Works(es[0]) then 1 else 0) + StepsTaken(Apply(s, es[0]), es[1..], tid)
  }

  /** The task has returned and its number is not given out again. */
  predicate Returned(s: State, tid: Tid) {
    tid !in s.tasks && tid in s.stops
  }

  predicate NoRestart(es: seq<Event>) {
    forall e | e in es :: !e.Restart?
  }

  /**
   * In every execution without a restart a stopped run takes at most eight more steps
   * other than its work, whatever else happens: it works on, or it comes to its end.
   */
  lemma {:induction false} StoppedRunIsBounded(s: State, es: seq<Event>, tid: Tid)
    requires TableOk(s) && (Doomed(s, tid) || Returned(s, tid)) && LegalRun(s, es) && NoRestart(es)
    ensures var s' := Run(s, es);
      StepsTaken(s, es, tid) + (if tid in s'.tasks then StepsLeft(s'.tasks[tid].pc) else 0)
      <= if tid in s.tasks then StepsLeft(s.tasks[tid].pc) else 0
    decreases es
  {
    if es != [] {
      var e := es[0];
      assert e in es && forall o | o in es[1..] :: o in es;
      TableStep(s, e);
      OneStepBounded(s, e, tid);
      StoppedRunIsBounded(Apply(s, e), es[1..], tid);
    }
  }

  lemma OneStepBounded(s: State, e: Event, tid: Tid)
    requires TableOk(s) && (Doomed(s, tid) || Returned(s, tid)) && Legal(s, e) && !e.Restart?
    ensures var s' := Apply(s, e);
      && (Doomed(s', tid) || Returned(s', tid))
      && (if OwnEvent(e, tid) && !Works(e) then 1 else 0)
         + (if tid in s'.tasks then StepsLeft(s'.tasks[tid].pc) else 0)
         <= if tid in s.tasks then StepsLeft(s.tasks[tid].pc) else 0
  {
    if Doomed(s, tid) && !Ends(e, tid) {
      StopIsFinal(s, e, tid);
      if OwnEvent(e, tid) {
        StepAdvances(s, e, tid);
      } else {
        OthersLeaveTask(s, e, tid);
      }
    } else if Returned(s, tid) {
      StaysReturned(s, e, tid);
    }
  }

  lemma OthersLeaveTask(s: State, e: Event, tid: Tid)
    requires TableOk(s) && Doomed(s, tid) && Legal(s, e) && !e.Restart? && !OwnEvent(e, tid)
    ensures tid in Apply(s, e).tasks && Apply(s, e).tasks[tid] == s.tasks[tid]
  {
    if OwnStep(e) {
      OwnStepMoves(s, e);
    }
  }

  lemma StaysReturned(s: State, e: Event, tid: Tid)
    requires TableOk(s) && Returned(s, tid) && Legal(s, e) && !e.Restart?
    ensures Returned(Apply(s, e), tid) && !OwnEvent(e, tid)
  {
    if OwnStep(e) {
      OwnStepMoves(s, e);
    }
  }

  lemma FinishingFinishes(s: State, tid: Tid) returns (es: seq<Event>)
    requires NamesOk(s) && TasksOk(s) && Doomed(s, tid) && s.tasks[tid].pc == Finishing
    ensures es == [FinishDelete(tid)] && OrderlyRun(s, es) && LegalRun(s, es)
    ensures var s', task := Run(s, es), s.tasks[tid];
      tid !in s'.tasks && Gone(s', task.image, task.filename.value)
  {
    FinishLeavesNothing(s, tid);
    RunOne(s, FinishDelete(tid), []);
    es := [FinishDelete(tid)] + [];
  }

  lemma RunOne(s: State, e: Event, rest: seq<Event>)
    requires Legal(s, e) && Orderly(s, e) && OrderlyRun(Apply(s, e), rest)
    requires LegalRun(Apply(s, e), rest)
    ensures OrderlyRun(s, [e] + rest) && LegalRun(s, [e] + rest)
    ensures Run(s, [e] + rest) == Run(Apply(s, e), rest)
  {
    assert ([e] + rest)[1..] == rest;
  }

  // --- No orphans ----------------------------------------------------------

  /** No run and no upload is under way. */
  predicate Quiet(s: State) {
    s.uploads == map[] && forall t | t in s.tasks :: s.tasks[t].pc == Queued
  }

  /**
   * With no run and no upload under way, a file on disk belongs to a row exactly if it
   * was not left behind by a copy that failed or by a restart in a copy or a download.
   */
  lemma NoOrphans(es: seq<Event>, p: Path)
    requires OrderlyRun(EMPTY, es) && LegalRun(EMPTY, es)
    requires p in Run(EMPTY, es).files && Quiet(Run(EMPTY, es))
    ensures (exists id :: RowOwns(Run(EMPTY, es), id, p)) <==> p !in LeftAfter(EMPTY, NOTHING, es).litter
  {
    InvAlways(EMPTY, NOTHING, es);
    QuietFile(Run(EMPTY, es), LeftAfter(EMPTY, NOTHING, es), p);
  }

  lemma QuietFile(s: State, left: Left, p: Path)
    requires Inv(s, left) && Quiet(s) && p in s.files
    ensures (exists id :: RowOwns(s, id, p)) <==> p !in left.litter
  {
    assert FileOk(s, p) <==> p !in left.litter;
    assert forall t | t in s.tasks :: TaskOk(s, t);
    assert forall t :: !RunOwns(s, t, p);
  }

  /**
   * No copy fails; the end of a stopped run fails only where its row is still there; and a
   * restart finds no upload, no download and no stopped run that has outlived its row.
   */
  predicate Tidy(s: State, e: Event) {
    match e
    case FailUpload(_) => false
    case FailFinish(tid, _) => tid in s.tasks && s.tasks[tid].image in s.rows
    case Restart(_) =>
      && s.uploads == map[]
      && forall t | t in s.tasks :: s.tasks[t].pc != Downloading && (t in s.stops ==> s.tasks[t].image in s.rows)
    case _ => true
  }

  predicate TidyRun(s: State, es: seq<Event>)
    requires LegalRun(s, es)
    decreases es
  {
    es == [] || (Tidy(s, es[0]) && TidyRun(Apply(s, es[0]), es[1..]))
  }

  /** Such an orderly execution leaves nothing behind. */
  lemma {:induction false} TidyLeavesNothing(s: State, left: Left, es: seq<Event>)
    requires Inv(s, left) && OrderlyRun(s, es) && LegalRun(s, es) && TidyRun(s, es) && left.litter == {}
    ensures LeftAfter(s, left, es).litter == {}
    decreases es
  {
    if es != [] {
      TidyStrandsNothing(s, left, es[0]);
      InvStep(s, left, es[0]);
      TidyLeavesNothing(Apply(s, es[0]), LeftBy(s, left, es[0]), es[1..]);
    }
  }

  lemma TidyStrandsNothing(s: State, left: Left, e: Event)
    requires FilesOk(s, left.litter) && left.litter == {} && Tidy(s, e)
    ensures Strands(s, e) == {}
  {
    assert forall p | p in s.files :: FileOk(s, p);
  }

  // --- ISO names -----------------------------------------------------------

  predicate DistinctIsos(rows: Rows) {
    forall i, j | i in rows && j in rows && IsoName(rows[i].filename) == IsoName(rows[j].filename) ::
      i == j
  }

  /** Every state of the execution has distinct names for its rows and uploads. */
  ghost predicate NamesAlwaysOk(s: State, es: seq<Event>)
    requires LegalRun(s, es)
    decreases es
  {
    NamesOk(s) && (es == [] || NamesAlwaysOk(Apply(s, es[0]), es[1..]))
  }

  /** No upload or catalog image takes the name of an upload still being copied. */
  ghost predicate ApartRun(s: State, es: seq<Event>)
    requires LegalRun(s, es)
    decreases es
  {
    es == [] || (Apart(s, es[0]) && ApartRun(Apply(s, es[0]), es[1..]))
  }

  /**
   * In every execution, orderly or not: rows and uploads have ISO names of their own
   * throughout exactly if no name is taken while an upload of that name is copied.
   */
  lemma {:induction false} IsoOwnersDistinct(s: State, es: seq<Event>)
    requires TableOk(s) && NamesOk(s) && LegalRun(s, es)
    ensures NamesAlwaysOk(s, es) <==> ApartRun(s, es)
    ensures ApartRun(s, es) ==> DistinctIsos(Run(s, es).rows)
    decreases es
  {
    if es == [] {
      assert forall id | id in s.rows :: PlainName(s.rows[id].filename);
    } else {
      var e := es[0];
      TableStep(s, e);
      if Apart(s, e) {
        NamesStep(s, e);
        IsoOwnersDistinct(Apply(s, e), es[1..]);
      } else {
        TakenTwice(s, e);
        if es[1..] != [] {
          assert !NamesOk(Apply(s, e));
        }
      }
    }
  }

  lemma TakenTwice(s: State, e: Event)
    requires NamesOk(s) && Legal(s, e) && !Apart(s, e)
    ensures !NamesOk(Apply(s, e))
  {
    var s', name := Apply(s, e), if e.BeginUpload? then e.name else e.img.filename;
    var u :| u in s.uploads && s.uploads[u] == name;
    assert u in s'.uploads && s'.uploads[u] == name;
    if e.BeginUpload? {
      assert e.upload in s'.uploads && s'.uploads[e.upload] == name;
    } else {
      assert e.id in s'.rows && s'.rows[e.id].filename == name;
    }
  }

  /** Taking the name of an upload is possible only once the file of that upload has gone. */
  lemma TakenOnlyIfGone(s: State, e: Event)
    requires Legal(s, e) && !Apart(s, e)
    ensures exists u | u in s.uploads :: IsoFile(s.uploads[u]) !in s.files
  {
    var name := if e.BeginUpload? then e.name else e.img.filename;
    var u :| u in s.uploads && s.uploads[u] == name;
    assert IsoFile(s.uploads[u]) !in s.files;
  }

  /** A stopped run of an image of the same name, whose row is gone, takes the upload's file away. */
  predicate Undercuts(s: State, e: Event, u: Upload) {
    && (e.FinishDelete? || e.FailFinish?) && At(s, e.tid, {Finishing}) && s.tasks[e.tid].image !in s.rows
    && u in s.uploads && s.tasks[e.tid].filename == Some(s.uploads[u])
    && (e.FailFinish? ==> IsoFile(s.uploads[u]) in e.gone)
  }

  /** In an orderly execution an upload keeps its file until it ends, exactly unless that happens. */
  lemma UploadKeepsFile(s: State, left: Left, e: Event, u: Upload)
    requires Inv(s, left) && Legal(s, e) && Orderly(s, e)
    requires u in s.uploads && u in Apply(s, e).uploads && IsoFile(s.uploads[u]) in s.files
    ensures IsoFile(s.uploads[u]) in Apply(s, e).files <==> !Undercuts(s, e, u)
  {
    var p := IsoFile(s.uploads[u]);
    assert PlainName(s.uploads[u]);
    if e.FinishDelete? {
      FinishAndUpload(s, e.tid, u);
    } else if e.FailFinish? {
      FinishAndUpload(s, e.tid, u);
      ApplyFinish(s, e.tid);
    } else if e.Delete? {
      DeleteAndUpload(s, e.id, u);
    } else if OwnStep(e) {
      CopyIsNoArchive(s, u);
      StepAndUpload(s, e, u);
    } else {
      OtherAndUpload(s, left, e, u);
    }
  }

  lemma OtherAndUpload(s: State, left: Left, e: Event, u: Upload)
    requires Inv(s, left) && Legal(s, e) && !OwnStep(e) && !e.FinishDelete? && !e.FailFinish? && !e.Delete?
    requires u in s.uploads && u in Apply(s, e).uploads && IsoFile(s.uploads[u]) in s.files
    ensures IsoFile(s.uploads[u]) in Apply(s, e).files
  {
  }

  lemma FinishAndUpload(s: State, tid: Tid, u: Upload)
    requires NamesOk(s) && At(s, tid, {Finishing}) && u in s.uploads && IsoFile(s.uploads[u]) in s.files
    requires HasClaimed(s, tid) ==> ClaimOk(s, tid)
    ensures IsoFile(s.uploads[u]) in Apply(s, FinishDelete(tid)).files <==> !Undercuts(s, FinishDelete(tid), u)
  {
    ApplyFinish(s, tid);
    assert PlainName(s.uploads[u]);
  }

  lemma DeleteAndUpload(s: State, id: Id, u: Upload)
    requires NamesOk(s) && u in s.uploads && IsoFile(s.uploads[u]) in s.files
    ensures IsoFile(s.uploads[u]) in DeleteImage(s, id).files
  {
  }

  lemma StepAndUpload(s: State, e: Event, u: Upload)
    requires TableOk(s) && TasksOk(s) && Legal(s, e) && OwnStep(e)
    requires u in s.uploads && IsoFile(s.uploads[u]) in s.files && NotArchive(s, s.uploads[u])
    ensures IsoFile(s.uploads[u]) in Apply(s, e).files
  {
    assert TaskOk(s, e.tid);
    if HasClaimed(s, e.tid) {
      assert ClaimOk(s, e.tid);
    }
  }

  // --- Run discipline ------------------------------------------------------

  /**
   * A run that nobody deleted leaves its row ready or in error, or queued again; or
   * "processing", exactly if its handler raised too.
   */
  lemma RunEndsSettled(es: seq<Event>, tid: Tid)
    requires OrderlyRun(EMPTY, es) && LegalRun(EMPTY, es)
    requires At(Run(EMPTY, es), tid, {Leaving, Broken}) && HasClaimed(Run(EMPTY, es), tid)
    requires tid !in Run(EMPTY, es).stops
    ensures var s := Run(EMPTY, es); var id := s.tasks[tid].image;
      && id in s.rows && s.rows[id].status in {Ready, Error, Pending, Processing}
      && (s.rows[id].status == Processing <==> id in LeftAfter(EMPTY, NOTHING, es).stuck)
  {
    InvAlways(EMPTY, NOTHING, es);
    var s, left := Run(EMPTY, es), LeftAfter(EMPTY, NOTHING, es);
    var id := s.tasks[tid].image;
    assert ClaimOk(s, tid) && RowOk(s, left.stuck, id);
    forall keeper
      ensures !Keeper(s, keeper, id)
    {
      assert HasClaimed(s, keeper) && s.tasks[keeper].image == id ==> keeper == tid;
    }
  }

  /** With no run under way, the rows that say "processing" are those given up by a handler that raised. */
  lemma OnlyStuckRowsProcess(es: seq<Event>, id: Id)
    requires OrderlyRun(EMPTY, es) && LegalRun(EMPTY, es) && Quiet(Run(EMPTY, es)) && id in Run(EMPTY, es).rows
    ensures Run(EMPTY, es).rows[id].status == Processing <==> id in LeftAfter(EMPTY, NOTHING, es).stuck
  {
    InvAlways(EMPTY, NOTHING, es);
    var s, left := Run(EMPTY, es), LeftAfter(EMPTY, NOTHING, es);
    assert RowOk(s, left.stuck, id);
    forall keeper
      ensures !Keeper(s, keeper, id)
    {
      assert keeper in s.tasks ==> TaskOk(s, keeper);
    }
  }

  ghost predicate KeepsOwnedFiles(s: State, s': State) {
    forall p | (exists id :: RowOwns(s, id, p)) || (exists u :: UploadOwns(s, u, p)) ::
      (p in s.files <==> p in s'.files) && (p in s.files ==> s'.files[p] == s.files[p])
  }

  /** The handler of a task that has claimed nothing writes "error" over whatever its row says. */
  predicate WritesError(s: State, e: Event, tid: Tid) {
    && e == FailCommit(tid) && tid in s.tasks && s.tasks[tid].image in s.rows
    && s.rows[s.tasks[tid].image].status != Error
  }

  /**
   * In every execution, a duplicate or stale task, one that has not claimed its row,
   * changes no row and no file of any row or upload with any event of its own: exactly
   * unless that event is its handler writing "error" to a row that is still there.
   */
  lemma StaleTaskHarmless(es: seq<Event>, e: Event, tid: Tid)
    requires LegalRun(EMPTY, es) && Legal(Run(EMPTY, es), e) && OwnEvent(e, tid)
    requires tid in Run(EMPTY, es).tasks && !HasClaimed(Run(EMPTY, es), tid)
    ensures var s := Run(EMPTY, es); var s' := Apply(s, e);
      && (s'.rows == s.rows <==> !WritesError(s, e, tid))
      && KeepsOwnedFiles(s, s')
      && (WritesError(s, e, tid) ==>
            var id := s.tasks[tid].image; s'.rows == s.rows[id := s.rows[id].(status := Error)])
  {
    OneRunPerImage(EMPTY, es, tid, tid);
    var s := Run(EMPTY, es);
    assert TaskOk(s, tid);
    StaleStep(s, e, tid);
  }

  lemma StaleStep(s: State, e: Event, tid: Tid)
    requires tid in s.tasks && TaskOk(s, tid) && Legal(s, e) && OwnEvent(e, tid) && !HasClaimed(s, tid)
    ensures var s' := Apply(s, e);
      && (s'.rows == s.rows <==> !WritesError(s, e, tid))
      && KeepsOwnedFiles(s, s')
      && (WritesError(s, e, tid) ==>
            var id := s.tasks[tid].image; s'.rows == s.rows[id := s.rows[id].(status := Error)])
  {
    if e.FailCommit? {
      FailCommitWrites(s, tid);
    } else if e.FinishDelete? || e.FailFinish? {
      StaleFinish(s, tid);
      ApplyFinish(s, tid);
    } else {
      StaleOther(s, e, tid);
    }
  }

  lemma StaleFinish(s: State, tid: Tid)
    requires At(s, tid, {Finishing}) && !HasClaimed(s, tid)
    ensures Apply(s, FinishDelete(tid)).rows == s.rows && KeepsOwnedFiles(s, Apply(s, FinishDelete(tid)))
  {
    ApplyFinish(s, tid);
    var s' := FinishDeletion(s, tid);
    assert s'.rows == s.rows;
  }

  lemma StaleOther(s: State, e: Event, tid: Tid)
    requires tid in s.tasks && TaskOk(s, tid) && Legal(s, e) && OwnEvent(e, tid) && !HasClaimed(s, tid)
    requires !e.FailCommit? && !e.FinishDelete? && !e.FailFinish?
    ensures Apply(s, e).rows == s.rows && Apply(s, e).files == s.files
  {
  }

  lemma FailCommitWrites(s: State, tid: Tid)
    requires At(s, tid, {Reporting})
    ensures var s' := Apply(s, FailCommit(tid)); var id := s.tasks[tid].image;
      && s'.files == s.files
      && s'.rows == (if id in s.rows then s.rows[id := s.rows[id].(status := Error)] else s.rows)
      && (s'.rows == s.rows <==> !WritesError(s, FailCommit(tid), tid))
  {
  }

  predicate Claiming(s: State, tid: Tid, id: Id) {
    tid in s.tasks && s.tasks[tid].pc == Claimed && s.tasks[tid].image == id
  }

  /** One build of `id` is still owed: its row is queued, or a run has just seen it queued. */
  ghost function Owed(s: State, id: Id): nat {
    if (id in s.rows && s.rows[id].status == Pending) || exists tid :: Claiming(s, tid, id)
    then 1 else 0
  }

  /** The event sets the row of `id` to pending. */
  predicate Queues(s: State, e: Event, id: Id) {
    || ((e.Add? || e.EndUpload?) && e.id == id)
    || (e.Reprocess? && e.id == id && id in s.rows && !Busy(s.rows[id].status))
  }

  /** The event starts a build of `id`. */
  predicate Builds(s: State, e: Event, id: Id) {
    e.Claim? && e.tid in s.tasks && s.tasks[e.tid].image == id && id in s.rows
  }

  function QueuedTimes(s: State, es: seq<Event>, id: Id): nat
    requires LegalRun(s, es)
    decreases es
  {
    if es == [] then 0
    else (if Queues(s, es[0], id) then 1 else 0) + QueuedTimes(Apply(s, es[0]), es[1..], id)
  }

  function BuiltTimes(s: State, es: seq<Event>, id: Id): nat
    requires LegalRun(s, es)
    decreases es
  {
    if es == [] then 0
    else (if Builds(s, es[0], id) then 1 else 0) + BuiltTimes(Apply(s, es[0]), es[1..], id)
  }

  /** A row that a run is about to claim can only have been deleted meanwhile. */
  ghost predicate ClaimingOk(s: State) {
    forall tid, id | Claiming(s, tid, id) && id in s.rows :: s.rows[id].status in {Pending, Deleting}
  }

  /** A task about to claim was so before, or has just seen its row queued. */
  lemma ClaimingBefore(s: State, e: Event, tid: Tid, id: Id)
    requires TableOk(s) && Legal(s, e) && Claiming(Apply(s, e), tid, id)
    ensures Claiming(s, tid, id) || (e == ReadRow(tid) && id in s.rows && s.rows[id].status == Pending)
  {
    if OwnStep(e) {
      OwnStepMoves(s, e);
    }
  }

  /** An event that ends with a row neither pending nor deleting found it so, or is a run's. */
  lemma ClaimingRow(s: State, e: Event, id: Id)
    requires TableOk(s) && Legal(s, e) && id in Apply(s, e).rows
    requires Apply(s, e).rows[id].status !in {Pending, Deleting}
    ensures e.Restart?
            || (id in s.rows && s.rows[id].status !in {Pending, Deleting})
            || (OwnStep(e) && e.tid in s.tasks && s.tasks[e.tid].image == id && !e.ReadRow?)
  {
    if OwnStep(e) {
      OwnStepRows(s, e);
    }
  }

  lemma ClaimingStep(s: State, e: Event)
    requires TableOk(s) && ClaimingOk(s) && Legal(s, e)
    ensures ClaimingOk(Apply(s, e))
  {
    var s' := Apply(s, e);
    forall tid, id | Claiming(s', tid, id) && id in s'.rows
      ensures s'.rows[id].status in {Pending, Deleting}
    {
      ClaimingBefore(s, e, tid, id);
      assert tid in s.tasks && TaskOk(s, tid);
      if s'.rows[id].status !in {Pending, Deleting} {
        ClaimingRow(s, e, id);
        ClaimingStays(s, e, tid, id);
      }
    }
  }

  /** A run that leaves "claimed" is no longer about to claim. */
  lemma ClaimingStays(s: State, e: Event, tid: Tid, id: Id)
    requires TableOk(s) && Legal(s, e) && Claiming(Apply(s, e), tid, id)
    ensures OwnStep(e) && !e.ReadRow? ==> e.tid != tid && s.tasks[e.tid].image != id
  {
    if OwnStep(e) {
      OwnStepMoves(s, e);
      assert TaskOk(s, e.tid);
      assert TaskOk(s, tid);
    }
  }

  lemma OwedStep(s: State, e: Event, id: Id)
    requires TableOk(s) && ClaimingOk(s) && Legal(s, e)
    ensures (if Builds(s, e, id) then 1 else 0) + Owed(Apply(s, e), id)
         <= (if Queues(s, e, id) then 1 else 0) + Owed(s, id)
  {
    var s' := Apply(s, e);
    if Builds(s, e, id) {
      assert Claiming(s, e.tid, id);
      forall tid
        ensures !Claiming(s', tid, id)
      {
        if Claiming(s', tid, id) {
          ClaimingStays(s, e, tid, id);
        }
      }
    } else if tid :| Claiming(s', tid, id) {
      ClaimingBefore(s, e, tid, id);
    } else if id in s'.rows && s'.rows[id].status == Pending {
      PendingBefore(s, e, id);
    }
  }

  lemma PendingBefore(s: State, e: Event, id: Id)
    requires TableOk(s) && Legal(s, e)
    requires id in Apply(s, e).rows && Apply(s, e).rows[id].status == Pending
    ensures Queues(s, e, id) || (id in s.rows && s.rows[id].status == Pending)
  {
    if OwnStep(e) {
      OwnStepPending(s, e, id);
    }
  }

  lemma OwnStepPending(s: State, e: Event, id: Id)
    requires TableOk(s) && Legal(s, e) && OwnStep(e)
    requires id in Apply(s, e).rows && Apply(s, e).rows[id].status == Pending
    ensures id in s.rows && s.rows[id].status == Pending
  {
    OwnStepRows(s, e);
  }

  /** An image is never built more often than its row was set to pending. */
  lemma {:induction false} BuildsBounded(s: State, es: seq<Event>, id: Id)
    requires TableOk(s) && ClaimingOk(s) && LegalRun(s, es)
    ensures BuiltTimes(s, es, id) + Owed(Run(s, es), id) <= QueuedTimes(s, es, id) + Owed(s, id)
    decreases es
  {
    if es != [] {
      TableStep(s, es[0]);
      ClaimingStep(s, es[0]);
      OwedStep(s, es[0], id);
      BuildsBounded(Apply(s, es[0]), es[1..], id);
    }
  }

  // --- Restart -------------------------------------------------------------

  /** After a restart no run or upload is under way and no row waits for one. */
  lemma RestartSettles(s: State, builtin: Catalog)
    ensures var s' := Apply(s, Restart(builtin));
      && s'.tasks == map[] && s'.runs == map[] && s'.uploads == map[]
      && (forall id | id in s'.rows :: Resting(s'.rows[id].status))
      && (forall id | id in Menu(s'.rows) ::
            Bootable(s'.rows[id], id, s'.files, builtin) <==> !LooksIntoDeleted(s.rows, id))
      && (forall id | id in s.rows && s.rows[id].status == Deleting ::
            id !in s'.rows && forall p | p in s'.files :: !DerivedOf(p, id))
  {
    SettledIsSound(s.rows, s.files, builtin);
  }

  // --- What a restart makes of a Delete ------------------------------------

  /** A run of image `id` commits a status, whatever the row says. */
  predicate Overwrites(s: State, e: Event, id: Id) {
    (e.Claim? || e.Commit? || e.FailCommit?) && e.tid in s.tasks && s.tasks[e.tid].image == id
  }

  /** Whether the last word on image `id` was a Delete, after one more event. */
  predicate ToldBy(s: State, e: Event, id: Id, told: bool) {
    if e == Delete(id) then true
    else if Overwrites(s, e, id) || ((e.Add? || e.EndUpload?) && e.id == id) then false
    else told
  }

  /** Whether it was after the whole execution: no run has committed over it since. */
  predicate Told(s: State, es: seq<Event>, id: Id, told: bool)
    requires LegalRun(s, es)
    decreases es
  {
    if es == [] then told else Told(Apply(s, es[0]), es[1..], id, ToldBy(s, es[0], id, told))
  }

  /** In every execution a row says "deleting" exactly while the last word on it was a Delete. */
  lemma {:induction false} SaysDeletingIff(s: State, es: seq<Event>, id: Id, told: bool)
    requires LegalRun(s, es) && (id in s.rows ==> (s.rows[id].status == Deleting <==> told))
    ensures id in Run(s, es).rows ==> (Run(s, es).rows[id].status == Deleting <==> Told(s, es, id, told))
    decreases es
  {
    if es != [] {
      ToldStep(s, es[0], id, told);
      SaysDeletingIff(Apply(s, es[0]), es[1..], id, ToldBy(s, es[0], id, told));
    }
  }

  lemma ToldStep(s: State, e: Event, id: Id, told: bool)
    requires Legal(s, e) && (id in s.rows ==> (s.rows[id].status == Deleting <==> told))
    ensures id in Apply(s, e).rows ==> (Apply(s, e).rows[id].status == Deleting <==> ToldBy(s, e, id, told))
  {
    if OwnStep(e) {
      ToldOwnStep(s, e, id, told);
    } else if e.Add? || e.EndUpload? || e.Reprocess? || e.Delete? {
      ToldRequest(s, e, id, told);
    } else {
      ToldOther(s, e, id);
    }
  }

  lemma ToldOwnStep(s: State, e: Event, id: Id, told: bool)
    requires Legal(s, e) && (id in s.rows ==> (s.rows[id].status == Deleting <==> told)) && OwnStep(e)
    ensures id in Apply(s, e).rows ==> (Apply(s, e).rows[id].status == Deleting <==> ToldBy(s, e, id, told))
  {
    assert !(e.Claim? || e.Commit? || e.FailCommit?) ==> Apply(s, e).rows == s.rows;
  }

  lemma ToldRequest(s: State, e: Event, id: Id, told: bool)
    requires Legal(s, e) && (id in s.rows ==> (s.rows[id].status == Deleting <==> told))
    requires e.Add? || e.EndUpload? || e.Reprocess? || e.Delete?
    ensures id in Apply(s, e).rows ==> (Apply(s, e).rows[id].status == Deleting <==> ToldBy(s, e, id, told))
  {
  }

  /** What else happens removes the row or leaves it deleting if it was. */
  lemma ToldOther(s: State, e: Event, id: Id)
    requires Legal(s, e) && !OwnStep(e) && !e.Add? && !e.EndUpload? && !e.Reprocess? && !e.Delete?
    ensures id in Apply(s, e).rows ==>
              id in s.rows && (Apply(s, e).rows[id].status == Deleting <==> s.rows[id].status == Deleting)
  {
  }

  /**
   * A restart removes an image exactly if the last word on it was a Delete: the row, its
   * folders and its ISO. A commit of its run after the Delete brings it back.
   */
  lemma RestartRemovesIff(es: seq<Event>, id: Id, builtin: Catalog)
    requires LegalRun(EMPTY, es) && id in Run(EMPTY, es).rows
    ensures var s := Run(EMPTY, es); var s' := Apply(s, Restart(builtin));
      && (id !in s'.rows <==> Told(EMPTY, es, id, false))
      && (Told(EMPTY, es, id, false) ==>
            IsoFile(IsoName(s.rows[id].filename)) !in s'.files && forall p | p in s'.files :: !DerivedOf(p, id))
  {
    SaysDeletingIff(EMPTY, es, id, false);
    RestartRemoves(Run(EMPTY, es), id, builtin);
  }

  lemma RestartRemoves(s: State, id: Id, builtin: Catalog)
    requires id in s.rows
    ensures var s' := Apply(s, Restart(builtin));
      && (id !in s'.rows <==> s.rows[id].status == Deleting)
      && (s.rows[id].status == Deleting ==>
            IsoFile(IsoName(s.rows[id].filename)) !in s'.files && forall p | p in s'.files :: !DerivedOf(p, id))
  {
  }

  /**
   * A stopped run that a restart cuts off: its image is gone then exactly if no run of it
   * has committed since the last Delete, or a second Delete had removed the row before.
   */
  lemma DeleteOutlivesRestart(es: seq<Event>, tid: Tid, builtin: Catalog)
    requires OrderlyRun(EMPTY, es) && LegalRun(EMPTY, es) && Doomed(Run(EMPTY, es), tid)
    ensures var s := Run(EMPTY, es); var s', id := Apply(s, Restart(builtin)), s.tasks[tid].image;
      && (id !in s'.rows <==> id !in s.rows || Told(EMPTY, es, id, false))
      && (id in s.rows && id !in s'.rows ==> Gone(s', id, s.tasks[tid].filename.value))
  {
    InvAlways(EMPTY, NOTHING, es);
    var s := Run(EMPTY, es);
    var id := s.tasks[tid].image;
    assert ClaimOk(s, tid);
    if id in s.rows {
      RestartRemovesIff(es, id, builtin);
    } else {
      RestartAddsNoRow(s, id, builtin);
    }
  }

  lemma RestartAddsNoRow(s: State, id: Id, builtin: Catalog)
    requires id !in s.rows
    ensures id !in Apply(s, Restart(builtin)).rows
  {
  }

  // --- An exception around a Delete ----------------------------------------

  /** The handler of a stopped run has looked at its stop flag: it will not report any more. */
  predicate PastReport(s: State, tid: Tid) {
    tid in s.stops && (tid in s.tasks ==> s.tasks[tid].pc in {Leaving, Broken, Finishing})
  }

  lemma {:induction false} NeverReports(s: State, es: seq<Event>, tid: Tid)
    requires LegalRun(s, es) && NoRestart(es) && PastReport(s, tid)
    ensures FailCommit(tid) !in es
    decreases es
  {
    if es != [] {
      assert es[0] in es && forall o | o in es[1..] :: o in es;
      PastReportStep(s, es[0], tid);
      NeverReports(Apply(s, es[0]), es[1..], tid);
    }
  }

  lemma PastReportStep(s: State, e: Event, tid: Tid)
    requires Legal(s, e) && !e.Restart? && PastReport(s, tid)
    ensures PastReport(Apply(s, e), tid) && e != FailCommit(tid)
  {
  }

  lemma StopStays(s: State, e: Event, tid: Tid)
    requires Legal(s, e) && !e.Restart? && tid in s.stops
    ensures tid in Apply(s, e).stops
  {
  }

  /** A stopped run that reads the row in its handler leaves without a report. */
  lemma {:induction false} ReadAfterStop(s: State, es: seq<Event>, tid: Tid)
    requires LegalRun(s, es) && NoRestart(es) && tid in s.stops && FailRead(tid) in es
    requires tid in s.tasks ==> s.tasks[tid].pc != Reporting
    ensures FailCommit(tid) !in es
    decreases es
  {
    var e := es[0];
    assert e in es && forall o | o in es[1..] :: o in es;
    StopStays(s, e, tid);
    if e == FailRead(tid) {
      HandlerSeesStop(s, tid);
      NeverReports(Apply(s, e), es[1..], tid);
    } else {
      NotReporting(s, e, tid);
      ReadAfterStop(Apply(s, e), es[1..], tid);
    }
  }

  lemma HandlerSeesStop(s: State, tid: Tid)
    requires Legal(s, FailRead(tid)) && tid in s.stops
    ensures PastReport(Apply(s, FailRead(tid)), tid)
  {
  }

  /** Only reading the row in the handler leads to a report. */
  lemma NotReporting(s: State, e: Event, tid: Tid)
    requires Legal(s, e) && e != FailRead(tid) && (tid in s.tasks ==> s.tasks[tid].pc != Reporting)
    ensures tid in Apply(s, e).tasks ==> Apply(s, e).tasks[tid].pc != Reporting
    ensures e != FailCommit(tid)
  {
    if e.BeginUpload? || e.EndUpload? || e.FailUpload? || e.Add? || e.Reprocess? || e.Delete? || e.Restart? {
      OutsideLeavesPc(s, e, tid);
    }
  }

  lemma OutsideLeavesPc(s: State, e: Event, tid: Tid)
    requires Legal(s, e)
    requires e.BeginUpload? || e.EndUpload? || e.FailUpload? || e.Add? || e.Reprocess? || e.Delete? || e.Restart?
    ensures tid in Apply(s, e).tasks ==>
              Apply(s, e).tasks[tid].pc == Queued || (tid in s.tasks && Apply(s, e).tasks[tid] == s.tasks[tid])
  {
  }

  lemma {:induction false} ReportNeedsRead(s: State, es: seq<Event>, tid: Tid)
    requires LegalRun(s, es) && (tid in s.tasks ==> s.tasks[tid].pc != Reporting)
    ensures FailCommit(tid) in es ==> FailRead(tid) in es
    ensures FailRead(tid) !in es && tid in Run(s, es).tasks ==> Run(s, es).tasks[tid].pc != Reporting
    decreases es
  {
    if es != [] && es[0] != FailRead(tid) {
      NotReporting(s, es[0], tid);
      ReportNeedsRead(Apply(s, es[0]), es[1..], tid);
    }
  }

  /** Once the row has been read in the handler it is not read again. */
  lemma {:induction false} ReadsOnce(s: State, es: seq<Event>, tid: Tid)
    requires LegalRun(s, es) && NoRestart(es) && tid in s.stops
    requires tid in s.tasks ==> s.tasks[tid].pc in {Reporting, Leaving, Broken, Finishing}
    ensures FailRead(tid) !in es
    decreases es
  {
    if es != [] {
      assert es[0] in es && forall o | o in es[1..] :: o in es;
      StopStays(s, es[0], tid);
      ReadOnceStep(s, es[0], tid);
      ReadsOnce(Apply(s, es[0]), es[1..], tid);
    }
  }

  lemma ReadOnceStep(s: State, e: Event, tid: Tid)
    requires Legal(s, e) && !e.Restart? && tid in s.stops
    requires tid in s.tasks ==> s.tasks[tid].pc in {Reporting, Leaving, Broken, Finishing}
    ensures tid in Apply(s, e).tasks ==> Apply(s, e).tasks[tid].pc in {Reporting, Leaving, Broken, Finishing}
    ensures e != FailRead(tid)
  {
    if OwnStep(e) {
      ReadOnceOwn(s, e, tid);
    } else {
      ReadOnceOther(s, e, tid);
    }
  }

  lemma ReadOnceOwn(s: State, e: Event, tid: Tid)
    requires Legal(s, e) && OwnStep(e) && tid in s.stops
    requires tid in s.tasks ==> s.tasks[tid].pc in {Reporting, Leaving, Broken, Finishing}
    ensures tid in Apply(s, e).tasks ==> Apply(s, e).tasks[tid].pc in {Reporting, Leaving, Broken, Finishing}
    ensures e != FailRead(tid)
  {
    if e.tid != tid {
      OthersKeepPc(s, e, tid);
    }
  }

  lemma OthersKeepPc(s: State, e: Event, tid: Tid)
    requires Legal(s, e) && OwnStep(e) && e.tid != tid
    ensures tid in Apply(s, e).tasks ==> tid in s.tasks && Apply(s, e).tasks[tid] == s.tasks[tid]
  {
  }

  lemma ReadOnceOther(s: State, e: Event, tid: Tid)
    requires Legal(s, e) && !OwnStep(e) && !e.Restart? && tid in s.stops
    requires tid in s.tasks ==> s.tasks[tid].pc in {Reporting, Leaving, Broken, Finishing}
    ensures tid in Apply(s, e).tasks ==> Apply(s, e).tasks[tid].pc in {Reporting, Leaving, Broken, Finishing}
  {
  }

  /**
   * In every execution a run that a Delete stopped reports an exception afterwards only if
   * its handler had looked at the row, and at its stop flag, before that Delete.
   */
  lemma ReportAfterDelete(before: seq<Event>, id: Id, after: seq<Event>, tid: Tid)
    requires LegalRun(EMPTY, before) && tid !in Run(EMPTY, before).stops
    requires var told := Apply(Run(EMPTY, before), Delete(id));
      tid in told.stops && LegalRun(told, after) && NoRestart(after) && FailCommit(tid) in after
    ensures FailRead(tid) in before && FailRead(tid) !in after
  {
    var s := Run(EMPTY, before);
    var told := Apply(s, Delete(id));
    assert told.tasks == s.tasks;
    if tid in s.tasks && s.tasks[tid].pc == Reporting {
      ReadsOnce(told, after, tid);
    } else if FailRead(tid) in after {
      ReadAfterStop(told, after, tid);
    } else {
      ReportNeedsRead(told, after, tid);
    }
    ReportNeedsRead(EMPTY, before, tid);
  }

  /** The run is over, or on its way out of the run table without its row having been touched. */
  ghost predicate Withdrawn(s: State, tid: Tid, id: Id) {
    && tid in s.stops
    && (tid in s.tasks && s.tasks[tid].pc != Finishing ==>
          && s.tasks[tid].image == id && s.tasks[tid].pc in {Failing, Leaving, Broken}
          && (id in s.rows ==> s.rows[id].status == Deleting))
  }

  predicate NotAdded(es: seq<Event>, id: Id) {
    forall e | e in es :: (e.Add? || e.EndUpload?) ==> e.id != id
  }

  lemma WithdrawnStep(s: State, e: Event, tid: Tid, id: Id)
    requires TableOk(s) && Legal(s, e) && !e.Restart? && Withdrawn(s, tid, id)
    requires (e.Add? || e.EndUpload?) ==> e.id != id
    ensures Withdrawn(Apply(s, e), tid, id)
  {
    StopStays(s, e, tid);
    if OwnStep(e) {
      WithdrawnOwn(s, e, tid, id);
    } else if e.Register? || e.Deregister? || e.FinishDelete? || e.FailFinish? {
      WithdrawnTable(s, e, tid, id);
    } else {
      WithdrawnRequest(s, e, tid, id);
    }
  }

  lemma WithdrawnOwn(s: State, e: Event, tid: Tid, id: Id)
    requires TableOk(s) && Legal(s, e) && OwnStep(e) && Withdrawn(s, tid, id)
    ensures Withdrawn(Apply(s, e), tid, id)
  {
    OwnStepMoves(s, e);
    assert TaskOk(s, e.tid) && (tid in s.tasks ==> TaskOk(s, tid));
    if e.tid == tid {
      WithdrawnSelf(s, e, id);
    } else {
      OwnStepRows(s, e);
    }
  }

  lemma WithdrawnSelf(s: State, e: Event, id: Id)
    requires Legal(s, e) && OwnStep(e) && Withdrawn(s, e.tid, id)
    ensures Withdrawn(Apply(s, e), e.tid, id)
  {
  }

  lemma WithdrawnTable(s: State, e: Event, tid: Tid, id: Id)
    requires Legal(s, e) && Withdrawn(s, tid, id)
    requires e.Register? || e.Deregister? || e.FinishDelete? || e.FailFinish?
    ensures Withdrawn(Apply(s, e), tid, id)
  {
    var s' := Apply(s, e);
    assert s'.stops == s.stops;
    assert id in s'.rows ==> id in s.rows && s'.rows[id] == s.rows[id];
  }

  lemma WithdrawnRequest(s: State, e: Event, tid: Tid, id: Id)
    requires Legal(s, e) && Withdrawn(s, tid, id) && ((e.Add? || e.EndUpload?) ==> e.id != id)
    requires e.BeginUpload? || e.EndUpload? || e.FailUpload? || e.Add? || e.Reprocess? || e.Delete?
    ensures Withdrawn(Apply(s, e), tid, id)
  {
  }

  /**
   * A run whose exception is handled after the Delete: until it has left the run table its
   * row goes on saying "deleting", and a restart removes the image.
   */
  lemma {:induction false} HandledAfterDelete(s: State, es: seq<Event>, tid: Tid, id: Id, builtin: Catalog)
    requires TableOk(s) && LegalRun(s, es) && NoRestart(es) && NotAdded(es, id) && Withdrawn(s, tid, id)
    requires tid in Run(s, es).tasks && Run(s, es).tasks[tid].pc != Finishing
    ensures var end := Run(s, es);
      && (id in end.rows ==> end.rows[id].status == Deleting)
      && id !in Apply(end, Restart(builtin)).rows
    decreases es
  {
    if es == [] {
      if id in s.rows {
        RestartRemoves(s, id, builtin);
      } else {
        RestartAddsNoRow(s, id, builtin);
      }
    } else {
      assert es[0] in es && forall o | o in es[1..] :: o in es;
      TableStep(s, es[0]);
      WithdrawnStep(s, es[0], tid, id);
      HandledAfterDelete(Apply(s, es[0]), es[1..], tid, id, builtin);
    }
  }
}
