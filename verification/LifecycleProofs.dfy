/** What every execution of the image lifecycle keeps. */
module LifecycleProofs {
  import opened Store
  import opened BootFiles
  import opened StartUp
  import opened Lifecycle

  // --- The run table -------------------------------------------------------

  ghost predicate RunOk(s: State, id: Id)
    requires id in s.runs
  {
    s.runs[id] in s.tasks && s.tasks[s.runs[id]].image == id && Active(s.tasks[s.runs[id]])
  }

  ghost predicate TaskOk(s: State, tid: Tid)
    requires tid in s.tasks
  {
    var task := s.tasks[tid];
    && (Active(task) ==> task.image in s.runs && s.runs[task.image] == tid)
    && (task.pc == Queued ==> tid !in s.stops)
    && (task.pc == Finishing ==> tid in s.stops)
    && (task.pc in {Queued, Registered} ==> task.filename.None?)
    && (HoldsClaim(task.pc) ==> task.filename.Some?)
    && (task.pc == Downloading ==> task.netboot)
  }

  /** From reading the row to leaving the run's body. */
  predicate HoldsClaim(pc: Pc) {
    pc == Claimed || pc == Cleaning || pc == Working || pc == Downloading || pc == Committed
  }

  /** The run table names exactly the tasks that are between register and deregister. */
  ghost predicate TableOk(s: State) {
    && (forall id | id in s.runs :: RunOk(s, id))
    && (forall tid | tid in s.tasks :: TaskOk(s, tid))
  }

  ghost predicate SameRun(s: State, t1: Tid, t2: Tid) {
    && t1 in s.tasks && Active(s.tasks[t1])
    && t2 in s.tasks && Active(s.tasks[t2])
    && s.tasks[t1].image == s.tasks[t2].image
  }

  /** `s'` differs from `s` in one running task and perhaps in rows and files. */
  ghost predicate Moved(s: State, s': State, tid: Tid) {
    && tid in s.tasks && tid in s'.tasks
    && s'.runs == s.runs && s'.stops == s.stops && s'.uploads == s.uploads
    && s'.tasks == s.tasks[tid := s'.tasks[tid]]
    && s'.tasks[tid].image == s.tasks[tid].image
    && Active(s.tasks[tid]) && Active(s'.tasks[tid])
  }

  /** The steps a run takes between entering the run table and leaving it. */
  ghost predicate OwnStep(e: Event) {
    e.ReadRow? || e.Claim? || e.CleanOld? || e.StartDownload? || e.EndDownload? || e.Write? || e.Discard?
    || e.Stop? || e.Commit? || e.Return? || e.Raise? || e.FailRead? || e.FailCommit?
  }

  lemma OwnStepMoves(s: State, e: Event)
    requires TableOk(s) && Legal(s, e) && OwnStep(e)
    ensures var s' := Apply(s, e);
      && Moved(s, s', e.tid)
      && s'.tasks[e.tid].pc != Registered
      && (HoldsClaim(s'.tasks[e.tid].pc) ==> s'.tasks[e.tid].filename.Some?)
      && (s'.tasks[e.tid].pc == Downloading ==> s'.tasks[e.tid].netboot)
  {
    assert TaskOk(s, e.tid);
    if DropsPart(e) {
      DropStepMoves(s, e);
    } else {
      PlainStepMoves(s, e);
    }
  }

  predicate DropsPart(e: Event) {
    e.StartDownload? || e.EndDownload? || e.Stop? || e.Raise?
  }

  lemma DropStepMoves(s: State, e: Event)
    requires DropsPart(e) && Legal(s, e) && TaskOk(s, e.tid)
    ensures var s' := Apply(s, e);
      && Moved(s, s', e.tid)
      && s'.tasks[e.tid].pc in {Working, Downloading, Leaving, Failing, Broken}
      && s'.tasks[e.tid] == s.tasks[e.tid].(pc := s'.tasks[e.tid].pc)
      && (s'.tasks[e.tid].pc in {Working, Downloading} ==> s.tasks[e.tid].pc in {Working, Downloading})
      && (s'.tasks[e.tid].pc == Downloading ==> s.tasks[e.tid].netboot)
  {
    if e.StartDownload? || e.EndDownload? {
      DownloadStepMoves(s, e);
    }
  }

  lemma DownloadStepMoves(s: State, e: Event)
    requires (e.StartDownload? || e.EndDownload?) && Legal(s, e) && TaskOk(s, e.tid)
    ensures var s' := Apply(s, e);
      && Moved(s, s', e.tid)
      && s'.tasks[e.tid].pc in {Working, Downloading, Leaving, Failing, Broken}
      && s'.tasks[e.tid] == s.tasks[e.tid].(pc := s'.tasks[e.tid].pc)
      && (s'.tasks[e.tid].pc in {Working, Downloading} ==> s.tasks[e.tid].pc in {Working, Downloading})
      && (s'.tasks[e.tid].pc == Downloading ==> s.tasks[e.tid].netboot)
  {
  }

  /** The steps up to and including a run's work. */
  predicate WorksTowards(e: Event) {
    e.ReadRow? || e.Claim? || e.CleanOld? || e.Write? || e.Discard?
  }

  /** A running task moves on and stays in good order. */
  ghost predicate MovesOn(s: State, s': State, tid: Tid) {
    && Moved(s, s', tid)
    && s'.tasks[tid].pc != Registered
    && (s'.tasks[tid].pc == Downloading ==> s.tasks[tid].pc == Downloading && s'.tasks[tid].netboot)
    && (HoldsClaim(s'.tasks[tid].pc) ==> s'.tasks[tid].filename.Some?)
  }

  lemma PlainStepMoves(s: State, e: Event)
    requires OwnStep(e) && !DropsPart(e) && Legal(s, e) && TaskOk(s, e.tid)
    ensures MovesOn(s, Apply(s, e), e.tid)
  {
    if WorksTowards(e) {
      WorkStepMoves(s, e);
    } else {
      EndStepMoves(s, e);
    }
  }

  lemma WorkStepMoves(s: State, e: Event)
    requires WorksTowards(e) && Legal(s, e) && TaskOk(s, e.tid)
    ensures MovesOn(s, Apply(s, e), e.tid)
  {
  }

  lemma EndStepMoves(s: State, e: Event)
    requires OwnStep(e) && !DropsPart(e) && !WorksTowards(e) && Legal(s, e) && TaskOk(s, e.tid)
    ensures MovesOn(s, Apply(s, e), e.tid)
  {
  }

  lemma MovedKeepsTable(s: State, s': State, tid: Tid)
    requires TableOk(s) && Moved(s, s', tid)
    requires HoldsClaim(s'.tasks[tid].pc) ==> s'.tasks[tid].filename.Some?
    requires s'.tasks[tid].pc == Downloading ==> s'.tasks[tid].netboot
    requires s'.tasks[tid].pc != Registered
    ensures TableOk(s')
  {
    assert TaskOk(s, tid);
    forall id | id in s'.runs
      ensures RunOk(s', id)
    {
      assert RunOk(s, id);
    }
    forall t | t in s'.tasks
      ensures TaskOk(s', t)
    {
      assert TaskOk(s, t);
    }
  }

  lemma QueueKeepsTable(s: State, s': State, id: Id, tid: Tid)
    requires TableOk(s) && Fresh(s, tid)
    requires s'.runs == s.runs && s'.stops == s.stops
    requires s'.tasks == s.tasks[tid := Task(id, Queued, None, false)]
    ensures TableOk(s')
  {
    forall i | i in s'.runs
      ensures RunOk(s', i)
    {
      assert RunOk(s, i);
    }
    forall t | t in s'.tasks
      ensures TaskOk(s', t)
    {
      assert t != tid ==> TaskOk(s, t);
    }
  }

  lemma DeleteKeepsTable(s: State, id: Id)
    requires TableOk(s)
    ensures TableOk(DeleteImage(s, id))
  {
    var s' := DeleteImage(s, id);
    forall i | i in s'.runs
      ensures RunOk(s', i)
    {
      assert RunOk(s, i);
    }
    forall t | t in s'.tasks
      ensures TaskOk(s', t)
    {
      assert TaskOk(s, t);
      assert id in s.runs ==> RunOk(s, id);
    }
  }

  lemma RegisterKeepsTable(s: State, tid: Tid)
    requires TableOk(s) && At(s, tid, {Queued})
    ensures TableOk(RegisterRun(s, tid))
  {
    var s' := RegisterRun(s, tid);
    assert TaskOk(s, tid);
    forall i | i in s'.runs
      ensures RunOk(s', i)
    {
      assert i in s.runs ==> RunOk(s, i);
    }
    forall t | t in s'.tasks
      ensures TaskOk(s', t)
    {
      assert TaskOk(s, t);
    }
  }

  lemma LeaveKeepsTable(s: State, tid: Tid)
    requires TableOk(s) && At(s, tid, {Leaving, Broken})
    ensures TableOk(LeaveTable(s, tid))
  {
    var s' := LeaveTable(s, tid);
    assert TaskOk(s, tid);
    forall i | i in s'.runs
      ensures RunOk(s', i)
    {
      assert RunOk(s, i);
    }
    forall t | t in s'.tasks
      ensures TaskOk(s', t)
    {
      assert TaskOk(s, t);
    }
  }

  lemma FinishOnlyReturns(s: State, tid: Tid)
    requires At(s, tid, {Finishing})
    ensures var s' := FinishDeletion(s, tid);
      s'.runs == s.runs && s'.stops == s.stops && s'.uploads == s.uploads && s'.tasks == s.tasks - {tid}
  {
  }

  lemma FinishKeepsTable(s: State, tid: Tid)
    requires TableOk(s) && At(s, tid, {Finishing})
    ensures TableOk(FinishDeletion(s, tid))
  {
    var s' := FinishDeletion(s, tid);
    FinishOnlyReturns(s, tid);
    assert TaskOk(s, tid);
    forall i | i in s'.runs
      ensures RunOk(s', i)
    {
      assert RunOk(s, i);
    }
    forall t | t in s'.tasks
      ensures TaskOk(s', t)
    {
      assert TaskOk(s, t);
    }
  }

  lemma FailFinishKeepsTable(s: State, tid: Tid, gone: set<Path>)
    requires TableOk(s) && At(s, tid, {Finishing})
    ensures TableOk(FailFinishing(s, tid, gone))
  {
    var s' := FailFinishing(s, tid, gone);
    assert TaskOk(s, tid);
    forall i | i in s'.runs
      ensures RunOk(s', i)
    {
      assert RunOk(s, i);
    }
    forall t | t in s'.tasks
      ensures TaskOk(s', t)
    {
      assert TaskOk(s, t);
    }
  }

  lemma TableStep(s: State, e: Event)
    requires TableOk(s) && Legal(s, e)
    ensures TableOk(Apply(s, e))
  {
    if OwnStep(e) {
      OwnStepMoves(s, e);
      MovedKeepsTable(s, Apply(s, e), e.tid);
    } else if e.Add? || e.EndUpload? || (e.Reprocess? && e.id in s.rows && !Busy(s.rows[e.id].status)) {
      QueueKeepsTable(s, Apply(s, e), e.id, e.tid);
    } else if e.Delete? {
      DeleteKeepsTable(s, e.id);
    } else if e.Register? {
      RegisterKeepsTable(s, e.tid);
    } else if e.Deregister? {
      LeaveKeepsTable(s, e.tid);
    } else if e.FinishDelete? {
      FinishKeepsTable(s, e.tid);
    } else if e.FailFinish? {
      FailFinishKeepsTable(s, e.tid, e.gone);
    }
  }

  /** In every execution: at most one run of an image is under way. */
  lemma {:induction false} OneRunPerImage(s: State, es: seq<Event>, t1: Tid, t2: Tid)
    requires TableOk(s) && LegalRun(s, es)
    ensures TableOk(Run(s, es))
    ensures SameRun(Run(s, es), t1, t2) ==> t1 == t2
    decreases es
  {
    if es != [] {
      TableStep(s, es[0]);
      OneRunPerImage(Apply(s, es[0]), es[1..], t1, t2);
    }
  }

  // --- What an orderly execution keeps -------------------------------------

  /** No upload being copied has this name. */
  ghost predicate NotCopying(s: State, name: string) {
    forall u | u in s.uploads :: s.uploads[u] != name
  }

  /** No started run still has this id. */
  ghost predicate NotRunning(s: State, id: Id) {
    forall t | t in s.tasks && s.tasks[t].image == id :: s.tasks[t].pc == Queued
  }

  /** No run of a catalog image has this archive. */
  ghost predicate NotArchive(s: State, name: string) {
    forall t | t in s.tasks && s.tasks[t].netboot :: s.tasks[t].filename != Some(name)
  }

  /**
   * The orderly events. An id, or the archive name of a catalog image, is not given
   * out again while a started run still has it; an upload does not take the name of
   * another that is still being copied; and Reprocess is not pressed while a stopped
   * run of the image has yet to finish. `LifecycleLimits` shows what goes wrong otherwise.
   */
  ghost predicate Orderly(s: State, e: Event) {
    match e
    case BeginUpload(_, name, _) => NotCopying(s, name) && NotArchive(s, name)
    case EndUpload(_, id, _, _) => NotRunning(s, id)
    case Add(id, img, _) => NotRunning(s, id) && NotArchive(s, img.filename) && NotCopying(s, img.filename)
    case Reprocess(id, _) => forall t | t in s.tasks && t in s.stops :: s.tasks[t].image != id
    case _ => true
  }

  ghost predicate OrderlyRun(s: State, es: seq<Event>)
    decreases es
  {
    es == [] ||
    (Legal(s, es[0]) && Orderly(s, es[0]) && OrderlyRun(Apply(s, es[0]), es[1..]))
  }

  ghost predicate HasClaimed(s: State, tid: Tid) {
    tid in s.tasks && s.tasks[tid].filename.Some?
  }

  /** A run that claimed its row and was then told to stop. */
  ghost predicate Doomed(s: State, tid: Tid) {
    HasClaimed(s, tid) && tid in s.stops
  }

  /** Every image and every upload being copied has an ISO name of its own. */
  ghost predicate NamesOk(s: State) {
    && (forall id | id in s.rows :: PlainName(s.rows[id].filename) && NotCopying(s, s.rows[id].filename))
    && (forall i, j | i in s.rows && j in s.rows && s.rows[i].filename == s.rows[j].filename :: i == j)
    && (forall u | u in s.uploads :: PlainName(s.uploads[u]))
    && (forall u, v | u in s.uploads && v in s.uploads && s.uploads[u] == s.uploads[v] :: u == v)
  }

  ghost predicate ClaimOk(s: State, tid: Tid)
    requires HasClaimed(s, tid)
  {
    var task := s.tasks[tid];
    && PlainName(task.filename.value)
    && (task.image in s.rows ==> s.rows[task.image].filename == task.filename.value)
    && (tid !in s.stops ==> task.image in s.rows
                            && s.rows[task.image].status !in {Deleting, NeedsReprocess})
    && (task.netboot ==> NotCopying(s, task.filename.value)
                         && forall j | j in s.rows && s.rows[j].filename == task.filename.value :: j == task.image)
    && (forall t | HasClaimed(s, t) && s.tasks[t].image == task.image :: t == tid)
    && (forall t | task.netboot && HasClaimed(s, t) && s.tasks[t].netboot && s.tasks[t].filename == task.filename ::
          t == tid)
  }

  ghost predicate StopOk(s: State, tid: Tid)
    requires tid in s.tasks
  {
    tid in s.stops && s.tasks[tid].image in s.rows ==>
      s.rows[s.tasks[tid].image].status != Pending
  }

  ghost predicate Keeper(s: State, tid: Tid, id: Id) {
    && HasClaimed(s, tid) && s.tasks[tid].image == id
    && (tid in s.stops || s.tasks[tid].pc in {Cleaning, Working, Downloading, Failing, Reporting})
  }

  /** What an execution has left behind that nothing will clear up. */
  datatype Left = Left(
    litter: set<Path>,          // files of no image, run or upload
    stuck: set<Id>)             // rows left "processing" by an exception nothing handles

  const NOTHING := Left({}, {})

  /** A stopped run has outlived its row, and this file waits for it to be removed. */
  ghost predicate Outlived(s: State, tid: Tid, p: Path) {
    tid in s.tasks && s.tasks[tid].image !in s.rows && RunOwns(s, tid, p)
  }

  /** The files an event leaves without an owner. */
  ghost function Strands(s: State, e: Event): set<Path> {
    match e
    case FailUpload(u) => if u in s.uploads then {IsoFile(s.uploads[u])} else {}
    case FailFinish(tid, _) => set p | p in s.files && Outlived(s, tid, p)
    case Restart(_) =>
      set p | p in s.files &&
        (p.PartFile? || (p.IsoFile? && !NotCopying(s, p.name)) || exists tid :: Outlived(s, tid, p))
    case _ => {}
  }

  /** The row that is given up when the handler of its run raises, or the end of a stopped run. */
  ghost function GivesUp(s: State, e: Event): set<Id> {
    if e.Raise? && At(s, e.tid, {Failing, Reporting}) then {s.tasks[e.tid].image}
    else if e.FailFinish? && HasClaimed(s, e.tid) then {s.tasks[e.tid].image}
    else {}
  }

  /** What a new image of an id finds in its folders is its own from then on. */
  predicate Adopts(e: Event, p: Path) {
    (e.Add? || e.EndUpload?) && DerivedOf(p, e.id)
  }

  /** What is left behind after one more event: less what has been cleared up or taken over since. */
  ghost function LeftBy(s: State, left: Left, e: Event): Left
    requires Legal(s, e)
  {
    var s' := Apply(s, e);
    Left(set p | p in left.litter + Strands(s, e) && p in s'.files && !Adopts(e, p),
         set id | id in left.stuck + GivesUp(s, e) && id in s'.rows && s'.rows[id].status == Processing)
  }

  ghost function LeftAfter(s: State, left: Left, es: seq<Event>): Left
    requires LegalRun(s, es)
    decreases es
  {
    if es == [] then left else LeftAfter(Apply(s, es[0]), LeftBy(s, left, es[0]), es[1..])
  }

  /** A row says "processing" only while some run will still change that, or it is stuck. */
  ghost predicate RowOk(s: State, stuck: set<Id>, id: Id)
    requires id in s.rows
  {
    s.rows[id].status == Processing ==> id in stuck || exists tid :: Keeper(s, tid, id)
  }

  ghost predicate RowOwns(s: State, id: Id, p: Path) {
    && id in s.rows
    && ((p.Derived? && p.id == id) || (p.IsoFile? && s.rows[id].filename == p.name))
  }

  ghost predicate RunOwns(s: State, tid: Tid, p: Path) {
    if p.PartFile? then
      tid in s.tasks && s.tasks[tid].pc == Downloading && s.tasks[tid].filename == Some(p.name)
    else
      && Doomed(s, tid)
      && ((p.Derived? && s.tasks[tid].image == p.id)
          || (p.IsoFile? && s.tasks[tid].netboot && s.tasks[tid].filename == Some(p.name)))
  }

  ghost predicate UploadOwns(s: State, u: Upload, p: Path) {
    u in s.uploads && p.IsoFile? && s.uploads[u] == p.name
  }

  /** A file belongs to a row, to an upload, or to a run that will remove it. */
  ghost predicate FileOk(s: State, p: Path) {
    || (exists id :: RowOwns(s, id, p))
    || (exists tid :: RunOwns(s, tid, p))
    || (exists u :: UploadOwns(s, u, p))
  }

  ghost predicate TasksOk(s: State) {
    forall tid | tid in s.tasks :: StopOk(s, tid) && (HasClaimed(s, tid) ==> ClaimOk(s, tid))
  }

  ghost predicate RowsOk(s: State, stuck: set<Id>) {
    && (forall id | id in s.rows :: RowOk(s, stuck, id))
    && (forall id | id in stuck :: id in s.rows && s.rows[id].status == Processing)
  }

  /** The litter is exactly the files without an owner. */
  ghost predicate FilesOk(s: State, litter: set<Path>) {
    && (forall p | p in s.files :: FileOk(s, p) <==> p !in litter)
    && (forall p | p in litter :: p in s.files)
  }

  ghost predicate Inv(s: State, left: Left) {
    TableOk(s) && NamesOk(s) && TasksOk(s) && RowsOk(s, left.stuck) && FilesOk(s, left.litter)
  }

  // --- Rows ----------------------------------------------------------------

  ghost predicate RowsShrink(s: State, s': State) {
    && s'.rows.Keys <= s.rows.Keys
    && forall id | id in s'.rows :: s'.rows[id].filename == s.rows[id].filename
  }

  /** What a run's step does to the table of images: at most a status of its own row. */
  ghost predicate RowsMoved(s: State, s': State, id: Id) {
    && s'.rows.Keys == s.rows.Keys
    && (forall other | other in s.rows && other != id :: s'.rows[other] == s.rows[other])
    && (id in s.rows ==>
          && s'.rows[id].filename == s.rows[id].filename
          && (s'.rows[id] == s.rows[id] || s'.rows[id].status in {Processing, Ready, Error}))
  }

  lemma OwnStepRows(s: State, e: Event)
    requires TableOk(s) && Legal(s, e) && OwnStep(e)
    ensures RowsMoved(s, Apply(s, e), s.tasks[e.tid].image)
  {
    var id := s.tasks[e.tid].image;
    if e.Claim? || e.Commit? || e.FailCommit? {
      assert Apply(s, e).rows.Keys == s.rows.Keys;
    } else {
      assert Apply(s, e).rows == s.rows;
    }
  }

  /** No event but Add and the end of an upload brings in a row or changes a file name. */
  lemma RowsOnlyShrink(s: State, e: Event)
    requires TableOk(s) && Legal(s, e) && !e.Add? && !e.EndUpload?
    ensures RowsShrink(s, Apply(s, e))
  {
    if OwnStep(e) {
      OwnStepRows(s, e);
    }
  }

  /** The event does not take the name of an upload that is being copied. */
  ghost predicate Apart(s: State, e: Event) {
    && (e.BeginUpload? ==> NotCopying(s, e.name))
    && (e.Add? ==> NotCopying(s, e.img.filename))
  }

  lemma NamesStep(s: State, e: Event)
    requires TableOk(s) && NamesOk(s) && Legal(s, e) && Apart(s, e)
    ensures NamesOk(Apply(s, e))
  {
    if e.Add? || e.EndUpload? || e.BeginUpload? {
      NewName(s, e);
    } else {
      RowsOnlyShrink(s, e);
      UploadsKept(s, e);
    }
  }

  lemma NewName(s: State, e: Event)
    requires NamesOk(s) && Legal(s, e) && Apart(s, e) && (e.Add? || e.EndUpload? || e.BeginUpload?)
    ensures NamesOk(Apply(s, e))
  {
  }

  lemma UploadsKept(s: State, e: Event)
    requires TableOk(s) && Legal(s, e) && !e.BeginUpload?
    ensures forall u | u in Apply(s, e).uploads :: u in s.uploads && Apply(s, e).uploads[u] == s.uploads[u]
  {
    if OwnStep(e) {
      OwnStepMoves(s, e);
    }
  }

  /** A run that is not stopped and has claimed its row is in the run table. */
  lemma RunningIsActive(s: State, tid: Tid)
    requires TableOk(s) && HasClaimed(s, tid) && tid !in s.stops
    ensures var id := s.tasks[tid].image; id in s.runs && s.runs[id] == tid
  {
    assert TaskOk(s, tid);
  }

  // --- Tasks ---------------------------------------------------------------

  lemma ReadRowKeepsTasks(s: State, tid: Tid)
    requires TableOk(s) && NamesOk(s) && TasksOk(s) && At(s, tid, {Registered})
    ensures TasksOk(ReadPending(s, tid))
  {
    var s' := ReadPending(s, tid);
    forall t | t in s'.tasks
      ensures StopOk(s', t) && (HasClaimed(s', t) ==> ClaimOk(s', t))
    {
      assert StopOk(s, t);
      if t == tid {
        NewClaimOk(s, tid);
      } else if HasClaimed(s, t) {
        OldClaimOk(s, tid, t);
      }
    }
  }

  /** No other run holds a claim on a pending row, or on its archive. */
  lemma NoRivalClaim(s: State, tid: Tid, t: Tid)
    requires TableOk(s) && TasksOk(s) && At(s, tid, {Registered}) && HasClaimed(s, t)
    requires var id := s.tasks[tid].image; id in s.rows && s.rows[id].status == Pending
    ensures var id := s.tasks[tid].image;
      && s.tasks[t].image != id
      && (s.tasks[t].netboot ==> s.tasks[t].filename != Some(s.rows[id].filename))
  {
    var id := s.tasks[tid].image;
    assert TaskOk(s, tid) && TaskOk(s, t) && StopOk(s, t) && ClaimOk(s, t);
  }

  lemma NewClaimOk(s: State, tid: Tid)
    requires TableOk(s) && NamesOk(s) && TasksOk(s) && At(s, tid, {Registered})
    ensures var s' := ReadPending(s, tid); HasClaimed(s', tid) ==> ClaimOk(s', tid)
  {
    assert TaskOk(s, tid) && StopOk(s, tid);
    var id := s.tasks[tid].image;
    if id in s.rows && s.rows[id].status == Pending {
      forall t | HasClaimed(s, t)
        ensures s.tasks[t].image != id
        ensures s.tasks[t].netboot ==> s.tasks[t].filename != Some(s.rows[id].filename)
      {
        NoRivalClaim(s, tid, t);
      }
    }
  }

  lemma OldClaimOk(s: State, tid: Tid, t: Tid)
    requires TableOk(s) && NamesOk(s) && TasksOk(s) && At(s, tid, {Registered}) && HasClaimed(s, t) && t != tid
    ensures ClaimOk(ReadPending(s, tid), t)
  {
    assert TaskOk(s, tid) && ClaimOk(s, t);
    var id := s.tasks[tid].image;
    if id in s.rows && s.rows[id].status == Pending {
      NoRivalClaim(s, tid, t);
    }
  }

  lemma OwnStepKeepsTasks(s: State, e: Event)
    requires TableOk(s) && TasksOk(s) && Legal(s, e) && OwnStep(e) && !e.ReadRow?
    ensures TasksOk(Apply(s, e))
  {
    var s' := Apply(s, e);
    OwnStepMoves(s, e);
    OwnStepRows(s, e);
    MovedKeepsTasks(s, s', e.tid);
  }

  lemma MovedKeepsTasks(s: State, s': State, tid: Tid)
    requires TasksOk(s) && Moved(s, s', tid) && RowsMoved(s, s', s.tasks[tid].image)
    requires s'.tasks[tid] == s.tasks[tid].(pc := s'.tasks[tid].pc)
    ensures TasksOk(s')
  {
    forall t | t in s'.tasks
      ensures StopOk(s', t) && (HasClaimed(s', t) ==> ClaimOk(s', t))
    {
      assert StopOk(s, t);
      assert HasClaimed(s, t) ==> ClaimOk(s, t);
    }
  }

  lemma DeleteKeepsTasks(s: State, id: Id)
    requires TableOk(s) && TasksOk(s)
    ensures TasksOk(DeleteImage(s, id))
  {
    var s' := DeleteImage(s, id);
    forall t | t in s'.tasks
      ensures StopOk(s', t) && (HasClaimed(s', t) ==> ClaimOk(s', t))
    {
      if id in s.rows && id in s.runs && s.runs[id] !in s.stops {
        TellKeepsTask(s, id, t);
      } else {
        RemovalKeepsTask(s, id, t);
      }
    }
  }

  lemma TellKeepsTask(s: State, id: Id, t: Tid)
    requires TableOk(s) && TasksOk(s) && id in s.rows && id in s.runs && s.runs[id] !in s.stops && t in s.tasks
    ensures var s' := DeleteImage(s, id); t in s'.tasks && StopOk(s', t) && (HasClaimed(s', t) ==> ClaimOk(s', t))
  {
    assert StopOk(s, t);
    assert HasClaimed(s, t) ==> ClaimOk(s, t);
    assert RunOk(s, id);
  }

  lemma RemovalKeepsTask(s: State, id: Id, t: Tid)
    requires TableOk(s) && TasksOk(s) && (id in s.rows && id in s.runs ==> s.runs[id] in s.stops) && t in s.tasks
    ensures var s' := DeleteImage(s, id); t in s'.tasks && StopOk(s', t) && (HasClaimed(s', t) ==> ClaimOk(s', t))
  {
    assert StopOk(s, t);
    if HasClaimed(s, t) {
      assert ClaimOk(s, t);
      if t !in s.stops {
        RunningIsActive(s, t);
      }
    }
  }

  lemma FinishKeepsTasks(s: State, tid: Tid)
    requires TableOk(s) && TasksOk(s) && At(s, tid, {Finishing})
    ensures TasksOk(FinishDeletion(s, tid))
  {
    forall t | t in s.tasks && t != tid
      ensures var s' := FinishDeletion(s, tid); StopOk(s', t) && (HasClaimed(s', t) ==> ClaimOk(s', t))
    {
      FinishKeepsTask(s, tid, t);
    }
  }

  lemma FinishKeepsTask(s: State, tid: Tid, t: Tid)
    requires TableOk(s) && TasksOk(s) && At(s, tid, {Finishing}) && t in s.tasks && t != tid
    ensures var s' := FinishDeletion(s, tid);
            t in s'.tasks && StopOk(s', t) && (HasClaimed(s', t) ==> ClaimOk(s', t))
  {
    assert StopOk(s, t);
    assert HasClaimed(s, t) ==> ClaimOk(s, t);
    FinishRows(s, tid);
    FewerRowsKeepTask(s, FinishDeletion(s, tid), tid, t);
  }

  /** Only a run that claimed its row removes it. */
  lemma FinishRows(s: State, tid: Tid)
    requires At(s, tid, {Finishing})
    ensures var s' := FinishDeletion(s, tid);
      && s'.stops == s.stops && s'.uploads == s.uploads && s'.tasks == s.tasks - {tid}
      && (s'.rows == s.rows || (HasClaimed(s, tid) && s'.rows == s.rows - {s.tasks[tid].image}))
  {
    var task := s.tasks[tid];
    if task.image in s.rows && task.filename == Some(s.rows[task.image].filename) {
      assert FinishDeletion(s, tid) == RemoveImage(s.(tasks := s.tasks - {tid}), task.image);
    } else {
      assert FinishDeletion(s, tid).rows == s.rows;
    }
  }

  lemma FewerRowsKeepTask(s: State, s': State, tid: Tid, t: Tid)
    requires t in s.tasks && t != tid && StopOk(s, t) && (HasClaimed(s, t) ==> ClaimOk(s, t))
    requires tid in s.tasks && s'.stops == s.stops && s'.uploads == s.uploads && s'.tasks == s.tasks - {tid}
    requires s'.rows == s.rows || (HasClaimed(s, tid) && s'.rows == s.rows - {s.tasks[tid].image})
    ensures t in s'.tasks && StopOk(s', t) && (HasClaimed(s', t) ==> ClaimOk(s', t))
  {
  }

  /** Fewer tasks over the same rows. */
  lemma LeavingKeepsTasks(s: State, s': State)
    requires TasksOk(s) && s'.rows == s.rows && s'.stops == s.stops
    requires forall u | u in s'.uploads :: u in s.uploads && s'.uploads[u] == s.uploads[u]
    requires forall t | t in s'.tasks ::
               t in s.tasks && s'.tasks[t] == s.tasks[t].(pc := s'.tasks[t].pc)
    ensures TasksOk(s')
  {
    forall t | t in s'.tasks
      ensures StopOk(s', t) && (HasClaimed(s', t) ==> ClaimOk(s', t))
    {
      assert StopOk(s, t);
      assert HasClaimed(s, t) ==> ClaimOk(s, t);
    }
  }

  lemma AddKeepsTasks(s: State, id: Id, img: Image, tid: Tid)
    requires TableOk(s) && TasksOk(s) && Fresh(s, tid) && id !in s.rows && img.status == Pending
    requires NotRunning(s, id) && NotArchive(s, img.filename)
    ensures TasksOk(AddImage(s, id, img, tid))
  {
    var s' := AddImage(s, id, img, tid);
    forall t | t in s'.tasks
      ensures StopOk(s', t) && (HasClaimed(s', t) ==> ClaimOk(s', t))
    {
      if t != tid {
        assert StopOk(s, t) && TaskOk(s, t);
        assert HasClaimed(s, t) ==> ClaimOk(s, t);
      }
    }
  }

  lemma BeginKeepsTasks(s: State, upload: Upload, name: string, size: nat)
    requires TasksOk(s) && NotArchive(s, name)
    ensures TasksOk(OpenUpload(s, upload, name, size))
  {
    var s' := OpenUpload(s, upload, name, size);
    forall t | t in s'.tasks
      ensures StopOk(s', t) && (HasClaimed(s', t) ==> ClaimOk(s', t))
    {
      assert StopOk(s, t);
      assert HasClaimed(s, t) ==> ClaimOk(s, t);
    }
  }

  /** An upload's name is no run's archive. */
  lemma CopyIsNoArchive(s: State, upload: Upload)
    requires TasksOk(s) && upload in s.uploads
    ensures NotArchive(s, s.uploads[upload])
  {
    forall t | t in s.tasks && s.tasks[t].netboot
      ensures s.tasks[t].filename != Some(s.uploads[upload])
    {
      assert HasClaimed(s, t) ==> ClaimOk(s, t);
    }
  }

  lemma EndKeepsTasks(s: State, e: Event)
    requires TableOk(s) && TasksOk(s) && e.EndUpload? && Legal(s, e) && Orderly(s, e)
    ensures TasksOk(Apply(s, e))
  {
    var s1 := CloseUpload(s, e.upload);
    CopyIsNoArchive(s, e.upload);
    LeavingKeepsTasks(s, s1);
    CloseKeepsTable(s, e.upload);
    AddKeepsTasks(s1, e.id, e.img, e.tid);
  }

  lemma CloseKeepsTable(s: State, upload: Upload)
    requires TableOk(s)
    ensures TableOk(CloseUpload(s, upload))
  {
    var s' := CloseUpload(s, upload);
    forall id | id in s'.runs
      ensures RunOk(s', id)
    {
      assert RunOk(s, id);
    }
    forall t | t in s'.tasks
      ensures TaskOk(s', t)
    {
      assert TaskOk(s, t);
    }
  }

  lemma ReprocessKeepsTasks(s: State, id: Id, tid: Tid)
    requires TasksOk(s) && Fresh(s, tid) && Orderly(s, Reprocess(id, tid))
    ensures TasksOk(ReprocessImage(s, id, tid))
  {
    var s' := ReprocessImage(s, id, tid);
    if s' == s {
      return;
    }
    forall t | t in s'.tasks
      ensures StopOk(s', t) && (HasClaimed(s', t) ==> ClaimOk(s', t))
    {
      if t in s.tasks {
        assert StopOk(s, t);
        assert HasClaimed(s, t) ==> ClaimOk(s, t);
      }
    }
  }

  lemma TasksStep(s: State, e: Event)
    requires TableOk(s) && NamesOk(s) && TasksOk(s) && Legal(s, e) && Orderly(s, e)
    ensures TasksOk(Apply(s, e))
  {
    if e.ReadRow? {
      ReadRowKeepsTasks(s, e.tid);
    } else if OwnStep(e) {
      OwnStepKeepsTasks(s, e);
    } else if !e.Restart? {
      OtherStepKeepsTasks(s, e);
    }
  }

  lemma OtherStepKeepsTasks(s: State, e: Event)
    requires TableOk(s) && NamesOk(s) && TasksOk(s) && Legal(s, e) && Orderly(s, e) && !OwnStep(e) && !e.Restart?
    ensures TasksOk(Apply(s, e))
  {
    if e.Delete? {
      DeleteKeepsTasks(s, e.id);
    } else if e.FinishDelete? {
      FinishKeepsTasks(s, e.tid);
    } else if e.Register? || e.Deregister? || e.FailUpload? || e.FailFinish? {
      LeaveStepKeepsTasks(s, e);
    } else {
      NewStepKeepsTasks(s, e);
    }
  }

  lemma LeaveStepKeepsTasks(s: State, e: Event)
    requires TableOk(s) && TasksOk(s) && Legal(s, e)
    requires e.Register? || e.Deregister? || e.FailUpload? || e.FailFinish?
    ensures TasksOk(Apply(s, e))
  {
    LeavingKeepsTasks(s, Apply(s, e));
  }

  lemma NewStepKeepsTasks(s: State, e: Event)
    requires TableOk(s) && TasksOk(s) && Legal(s, e) && Orderly(s, e)
    requires e.Add? || e.BeginUpload? || e.EndUpload? || e.Reprocess?
    ensures TasksOk(Apply(s, e))
  {
    if e.Add? {
      AddKeepsTasks(s, e.id, e.img, e.tid);
    } else if e.BeginUpload? {
      BeginKeepsTasks(s, e.upload, e.name, e.size);
    } else if e.EndUpload? {
      EndKeepsTasks(s, e);
    } else {
      ReprocessKeepsTasks(s, e.id, e.tid);
    }
  }

  // --- Rows that say "processing" ------------------------------------------

  lemma KeeperMoves(s: State, e: Event, keeper: Tid)
    requires TableOk(s) && Legal(s, e) && OwnStep(e)
    requires s.tasks[e.tid].image in s.rows && Keeper(s, keeper, s.tasks[e.tid].image)
    ensures var id := s.tasks[e.tid].image;
      Apply(s, e).rows[id].status == Processing ==> id in GivesUp(s, e) || Keeper(Apply(s, e), keeper, id)
  {
    OwnStepMoves(s, e);
    assert TaskOk(s, e.tid);
  }

  /** What is stuck stays so while it says "processing". */
  lemma StuckKept(s: State, left: Left, e: Event)
    requires Legal(s, e)
    ensures var s', left' := Apply(s, e), LeftBy(s, left, e);
      forall id | id in s'.rows && s'.rows[id].status == Processing ::
        id in left.stuck || id in GivesUp(s, e) ==> id in left'.stuck
    ensures var s', left' := Apply(s, e), LeftBy(s, left, e);
      forall id | id in left'.stuck :: id in s'.rows && s'.rows[id].status == Processing
  {
  }

  lemma OwnStepKeepsRows(s: State, left: Left, e: Event)
    requires TableOk(s) && TasksOk(s) && RowsOk(s, left.stuck) && Legal(s, e) && OwnStep(e)
    ensures RowsOk(Apply(s, e), LeftBy(s, left, e).stuck)
  {
    var s', stuck' := Apply(s, e), LeftBy(s, left, e).stuck;
    forall id | id in s'.rows && s'.rows[id].status == Processing && id !in stuck'
      ensures exists tid :: Keeper(s', tid, id)
    {
      StuckKept(s, left, e);
      if id != s.tasks[e.tid].image {
        OtherRowKept(s, left, e, id);
      } else {
        OwnRowKept(s, left, e);
      }
    }
  }

  lemma OtherRowKept(s: State, left: Left, e: Event, id: Id)
    requires TableOk(s) && TasksOk(s) && RowsOk(s, left.stuck) && Legal(s, e) && OwnStep(e)
    requires id != s.tasks[e.tid].image && id !in left.stuck
    requires id in Apply(s, e).rows && Apply(s, e).rows[id].status == Processing
    ensures exists tid :: Keeper(Apply(s, e), tid, id)
  {
    OwnStepMoves(s, e);
    OwnStepRows(s, e);
    assert RowOk(s, left.stuck, id);
    var keeper :| Keeper(s, keeper, id);
    assert Keeper(Apply(s, e), keeper, id);
  }

  lemma OwnRowKept(s: State, left: Left, e: Event)
    requires TableOk(s) && TasksOk(s) && RowsOk(s, left.stuck) && Legal(s, e) && OwnStep(e)
    requires var id := s.tasks[e.tid].image;
      && id !in left.stuck && id !in GivesUp(s, e)
      && id in Apply(s, e).rows && Apply(s, e).rows[id].status == Processing
    ensures exists tid :: Keeper(Apply(s, e), tid, s.tasks[e.tid].image)
  {
    var s', id := Apply(s, e), s.tasks[e.tid].image;
    OwnStepRows(s, e);
    if e.Claim? {
      assert Keeper(s', e.tid, id);
    } else {
      assert RowOk(s, left.stuck, id);
      var keeper :| Keeper(s, keeper, id);
      KeeperMoves(s, e, keeper);
    }
  }

  /** Every other event leaves the keepers of the rows it leaves as they were. */
  lemma KeptKeepersKeepRows(s: State, left: Left, e: Event)
    requires RowsOk(s, left.stuck) && Legal(s, e) && !e.Raise?
    requires forall id | id in Apply(s, e).rows && Apply(s, e).rows[id].status == Processing ::
               id in s.rows && s.rows[id].status == Processing
    requires forall id, tid | id in Apply(s, e).rows && Keeper(s, tid, id) :: Keeper(Apply(s, e), tid, id)
    ensures RowsOk(Apply(s, e), LeftBy(s, left, e).stuck)
  {
    var s', stuck' := Apply(s, e), LeftBy(s, left, e).stuck;
    StuckKept(s, left, e);
    forall id | id in s'.rows && s'.rows[id].status == Processing && id !in stuck'
      ensures exists tid :: Keeper(s', tid, id)
    {
      assert RowOk(s, left.stuck, id);
      var keeper :| Keeper(s, keeper, id);
      assert Keeper(s', keeper, id);
    }
  }

  lemma KeepersKept(s: State, e: Event)
    requires TableOk(s) && TasksOk(s) && Legal(s, e) && !OwnStep(e) && !e.Restart? && !e.FailFinish?
    ensures forall id, tid | id in Apply(s, e).rows && Keeper(s, tid, id) :: Keeper(Apply(s, e), tid, id)
  {
    forall id, tid | id in Apply(s, e).rows && Keeper(s, tid, id)
      ensures Keeper(Apply(s, e), tid, id)
    {
      if e.FinishDelete? {
        FinishKeepsKeeper(s, e.tid, tid, id);
      } else {
        OtherKeepsKeeper(s, e, tid, id);
      }
    }
  }

  lemma FinishKeepsKeeper(s: State, tid: Tid, keeper: Tid, id: Id)
    requires TasksOk(s) && At(s, tid, {Finishing}) && Keeper(s, keeper, id)
    requires id in Apply(s, FinishDelete(tid)).rows
    ensures Keeper(Apply(s, FinishDelete(tid)), keeper, id)
  {
    FinishApplies(s, tid);
    FinishRows(s, tid);
    assert ClaimOk(s, keeper);
  }

  lemma OtherKeepsKeeper(s: State, e: Event, keeper: Tid, id: Id)
    requires TableOk(s) && Legal(s, e) && !OwnStep(e) && !e.Restart? && !e.FinishDelete? && !e.FailFinish?
    requires Keeper(s, keeper, id)
    ensures Keeper(Apply(s, e), keeper, id)
  {
    assert TaskOk(s, keeper);
  }

  lemma RowsStep(s: State, left: Left, e: Event)
    requires TableOk(s) && TasksOk(s) && RowsOk(s, left.stuck) && Legal(s, e)
    ensures RowsOk(Apply(s, e), LeftBy(s, left, e).stuck)
  {
    if OwnStep(e) {
      OwnStepKeepsRows(s, left, e);
    } else if e.Restart? {
      StuckKept(s, left, e);
    } else if e.FailFinish? {
      FailFinishKeepsRows(s, left, e);
    } else {
      OtherStepKeepsRows(s, left, e);
    }
  }

  /** The rows its run would have removed are given up. */
  lemma FailFinishKeepsRows(s: State, left: Left, e: Event)
    requires TasksOk(s) && RowsOk(s, left.stuck) && Legal(s, e) && e.FailFinish?
    ensures RowsOk(Apply(s, e), LeftBy(s, left, e).stuck)
  {
    var s', stuck' := Apply(s, e), LeftBy(s, left, e).stuck;
    StuckKept(s, left, e);
    forall id | id in s'.rows && s'.rows[id].status == Processing && id !in stuck'
      ensures exists tid :: Keeper(s', tid, id)
    {
      assert RowOk(s, left.stuck, id);
      var keeper :| Keeper(s, keeper, id);
      assert keeper != e.tid;
      assert Keeper(s', keeper, id);
    }
  }

  lemma OtherStepKeepsRows(s: State, left: Left, e: Event)
    requires TableOk(s) && TasksOk(s) && RowsOk(s, left.stuck) && Legal(s, e)
    requires !OwnStep(e) && !e.Restart? && !e.FailFinish?
    ensures RowsOk(Apply(s, e), LeftBy(s, left, e).stuck)
  {
    KeepersKept(s, e);
    KeptKeepersKeepRows(s, left, e);
  }

  // --- Files ---------------------------------------------------------------

  ghost predicate StillDoomed(s: State, s': State, tid: Tid)
    requires Doomed(s, tid)
  {
    && Doomed(s', tid)
    && s'.tasks[tid].image == s.tasks[tid].image
    && s'.tasks[tid].filename == s.tasks[tid].filename
    && s'.tasks[tid].netboot == s.tasks[tid].netboot
  }

  /** With the same owners, and perhaps fewer files, the litter is what is left of it. */
  lemma SameOwners(s: State, left: Left, e: Event)
    requires FilesOk(s, left.litter) && Legal(s, e) && Strands(s, e) == {} && !e.Add? && !e.EndUpload?
    requires Apply(s, e).files.Keys <= s.files.Keys
    requires forall p | p in Apply(s, e).files :: FileOk(s, p) <==> FileOk(Apply(s, e), p)
    ensures FilesOk(Apply(s, e), LeftBy(s, left, e).litter)
  {
  }

  /** A new image takes over what is in its folders, and nothing else changes hands. */
  lemma NewOwner(s: State, left: Left, e: Event)
    requires FilesOk(s, left.litter) && Legal(s, e) && (e.Add? || e.EndUpload?)
    requires Apply(s, e).files == s.files
    requires forall p | p in s.files :: FileOk(Apply(s, e), p) <==> FileOk(s, p) || DerivedOf(p, e.id)
    ensures FilesOk(Apply(s, e), LeftBy(s, left, e).litter)
  {
  }

  /** A run's step keeps names and stop flags; only its .part file may change hands. */
  lemma OwnStepOwners(s: State, e: Event, p: Path)
    requires TableOk(s) && TasksOk(s) && Legal(s, e) && OwnStep(e) && (p.PartFile? ==> p in Apply(s, e).files)
    ensures FileOk(s, p) <==> FileOk(Apply(s, e), p)
  {
    OwnStepMoves(s, e);
    OwnStepRows(s, e);
    OwnStepRunOwns(s, e, p);
    MovedOwners(s, Apply(s, e), e.tid, p);
  }

  lemma MovedOwners(s: State, s': State, tid: Tid, p: Path)
    requires Moved(s, s', tid) && RowsMoved(s, s', s.tasks[tid].image)
    requires RunOwns(s, tid, p) <==> RunOwns(s', tid, p)
    ensures FileOk(s, p) <==> FileOk(s', p)
  {
    assert forall id :: RowOwns(s, id, p) <==> RowOwns(s', id, p);
    assert forall u :: UploadOwns(s, u, p) <==> UploadOwns(s', u, p);
    assert forall t :: RunOwns(s, t, p) <==> RunOwns(s', t, p);
  }

  lemma OwnStepRunOwns(s: State, e: Event, p: Path)
    requires TableOk(s) && TasksOk(s) && Legal(s, e) && OwnStep(e) && (p.PartFile? ==> p in Apply(s, e).files)
    ensures RunOwns(s, e.tid, p) <==> RunOwns(Apply(s, e), e.tid, p)
  {
    OwnStepMoves(s, e);
    assert TaskOk(s, e.tid) && StopOk(s, e.tid);
    if p.PartFile? {
      assert HasClaimed(s, e.tid) ==> ClaimOk(s, e.tid);
      StepPart(s, e, p);
    } else {
      StepDoomed(s, e);
    }
  }

  /** The .part file goes with the download. */
  lemma StepPart(s: State, e: Event, p: Path)
    requires Legal(s, e) && OwnStep(e) && TaskOk(s, e.tid) && p.PartFile? && p in Apply(s, e).files
    requires HasClaimed(s, e.tid) ==> ClaimOk(s, e.tid)
    ensures RunOwns(s, e.tid, p) <==> RunOwns(Apply(s, e), e.tid, p)
  {
    if DropsPart(e) {
      DropStepMoves(s, e);
    } else {
      PlainStepPart(s, e, p);
    }
  }

  lemma PlainStepPart(s: State, e: Event, p: Path)
    requires Legal(s, e) && OwnStep(e) && TaskOk(s, e.tid) && p.PartFile? && !DropsPart(e)
    ensures RunOwns(s, e.tid, p) <==> RunOwns(Apply(s, e), e.tid, p)
  {
  }

  /** A step neither stops a run nor, unless it is unstopped, gives it a claim. */
  lemma StepDoomed(s: State, e: Event)
    requires Legal(s, e) && OwnStep(e) && TaskOk(s, e.tid) && StopOk(s, e.tid)
    ensures var s', tid := Apply(s, e), e.tid;
      && (Doomed(s, tid) <==> Doomed(s', tid))
      && (Doomed(s, tid) ==> StillDoomed(s, s', tid))
  {
  }

  lemma OwnStepKeepsFiles(s: State, left: Left, e: Event)
    requires FilesOk(s, left.litter) && TableOk(s) && TasksOk(s) && Legal(s, e) && OwnStep(e) && !e.Write?
    ensures FilesOk(Apply(s, e), LeftBy(s, left, e).litter)
  {
    OwnStepMoves(s, e);
    forall p | p in Apply(s, e).files
      ensures FileOk(s, p) <==> FileOk(Apply(s, e), p)
    {
      OwnStepOwners(s, e, p);
    }
    SameOwners(s, left, e);
  }

  lemma WriteKeepsFiles(s: State, left: Left, tid: Tid, path: Path, size: nat)
    requires FilesOk(s, left.litter) && TasksOk(s) && TableOk(s) && Legal(s, Write(tid, path, size))
    ensures FilesOk(Apply(s, Write(tid, path, size)), LeftBy(s, left, Write(tid, path, size)).litter)
  {
    var e := Write(tid, path, size);
    var s', image := Apply(s, e), s.tasks[tid].image;
    assert TaskOk(s, tid) && ClaimOk(s, tid);
    assert FileOk(s, path) by {
      assert RowOwns(s, image, path) || RunOwns(s, tid, path);
    }
    forall p | p in s'.files
      ensures FileOk(s, p) <==> FileOk(s', p)
    {
      OwnStepOwners(s, e, p);
    }
  }

  /** What is left after an image's files are removed was not its own. */
  lemma SurvivorNotOwned(s: State, id: Id, p: Path)
    requires NamesOk(s) && id in s.rows && p in RemoveFiles(s.files, id, s.rows[id].filename)
    ensures p in s.files && !RowOwns(s, id, p)
    ensures forall t | RunOwns(s, t, p) && !p.PartFile? ::
              s.tasks[t].filename != Some(s.rows[id].filename) || (p.Derived? && s.tasks[t].image != id)
  {
    assert PlainName(s.rows[id].filename);
  }

  lemma RemoveKeepsFiles(s: State, left: Left, id: Id)
    requires FilesOk(s, left.litter) && NamesOk(s) && id in s.rows && (id in s.runs ==> s.runs[id] in s.stops)
    ensures FilesOk(Apply(s, Delete(id)), LeftBy(s, left, Delete(id)).litter)
  {
    var s' := RemoveImage(s, id);
    assert Apply(s, Delete(id)) == s';
    forall p | p in s'.files
      ensures FileOk(s, p) <==> FileOk(s', p)
    {
      SurvivorNotOwned(s, id, p);
      OwnersRemain(s, s', id, p);
    }
    SameOwners(s, left, Delete(id));
  }

  /** Without the row of `id`, which does not own the file, its owners are the same. */
  lemma OwnersRemain(s: State, s': State, id: Id, p: Path)
    requires !RowOwns(s, id, p) && s'.rows == s.rows - {id} && s'.stops == s.stops && s'.uploads == s.uploads
    requires forall t | RunOwns(s, t, p) :: t in s'.tasks && s'.tasks[t] == s.tasks[t]
    requires forall t | t in s'.tasks :: t in s.tasks && s'.tasks[t] == s.tasks[t]
    ensures FileOk(s, p) <==> FileOk(s', p)
  {
    assert forall other :: RowOwns(s, other, p) <==> RowOwns(s', other, p);
    assert forall t :: RunOwns(s, t, p) <==> RunOwns(s', t, p);
    assert forall u :: UploadOwns(s, u, p) <==> UploadOwns(s', u, p);
  }

  /** Being told to stop gives a run nothing its row does not own. */
  lemma TellKeepsFiles(s: State, left: Left, id: Id)
    requires FilesOk(s, left.litter) && TableOk(s) && TasksOk(s)
    requires id in s.rows && id in s.runs && s.runs[id] !in s.stops
    ensures FilesOk(Apply(s, Delete(id)), LeftBy(s, left, Delete(id)).litter)
  {
    var s', tid := Apply(s, Delete(id)), s.runs[id];
    assert RunOk(s, id);
    forall p | p in s'.files
      ensures FileOk(s, p) <==> FileOk(s', p)
    {
      TellOwners(s, id, p);
    }
    SameOwners(s, left, Delete(id));
  }

  lemma TellOwners(s: State, id: Id, p: Path)
    requires TableOk(s) && TasksOk(s) && id in s.rows && id in s.runs && s.runs[id] !in s.stops
    ensures FileOk(s, p) <==> FileOk(DeleteImage(s, id), p)
  {
    var s', tid := DeleteImage(s, id), s.runs[id];
    assert RunOk(s, id);
    assert forall other :: RowOwns(s, other, p) <==> RowOwns(s', other, p);
    assert forall u :: UploadOwns(s, u, p) <==> UploadOwns(s', u, p);
    assert forall t | t != tid :: RunOwns(s, t, p) <==> RunOwns(s', t, p);
    assert RunOwns(s, tid, p) ==> RunOwns(s', tid, p);
    if RunOwns(s', tid, p) && !p.PartFile? {
      assert ClaimOk(s, tid);
      assert RowOwns(s, id, p);
    }
  }

  /** `_finish_delete` finds the row it claimed, and removes it. */
  lemma FinishPresentKeepsFiles(s: State, left: Left, tid: Tid)
    requires FilesOk(s, left.litter) && NamesOk(s) && At(s, tid, {Finishing}) && HasClaimed(s, tid)
    requires ClaimOk(s, tid) && s.tasks[tid].image in s.rows
    ensures FilesOk(Apply(s, FinishDelete(tid)), LeftBy(s, left, FinishDelete(tid)).litter)
  {
    FinishApplies(s, tid);
    var s' := FinishDeletion(s, tid);
    forall p | p in s'.files
      ensures FileOk(s, p) <==> FileOk(s', p)
    {
      FinishPresentOwners(s, tid, p);
    }
    SameOwners(s, left, FinishDelete(tid));
  }

  lemma FinishApplies(s: State, tid: Tid)
    requires At(s, tid, {Finishing})
    ensures Apply(s, FinishDelete(tid)) == FinishDeletion(s, tid) && Strands(s, FinishDelete(tid)) == {}
    ensures FinishDeletion(s, tid).files.Keys <= s.files.Keys
  {
  }

  lemma FinishPresentOwners(s: State, tid: Tid, p: Path)
    requires NamesOk(s) && At(s, tid, {Finishing}) && HasClaimed(s, tid) && ClaimOk(s, tid)
    requires s.tasks[tid].image in s.rows && p in FinishDeletion(s, tid).files
    ensures FileOk(s, p) <==> FileOk(FinishDeletion(s, tid), p)
  {
    var s', id := FinishDeletion(s, tid), s.tasks[tid].image;
    assert s' == RemoveImage(s.(tasks := s.tasks - {tid}), id);
    SurvivorNotOwned(s, id, p);
    assert !RunOwns(s, tid, p);
    OwnersRemain(s, s', id, p);
  }

  /** A second Delete has removed the row meanwhile. */
  lemma FinishAbsentKeepsFiles(s: State, left: Left, tid: Tid)
    requires FilesOk(s, left.litter) && At(s, tid, {Finishing}) && s.tasks[tid].image !in s.rows
    requires HasClaimed(s, tid) ==> ClaimOk(s, tid)
    ensures FilesOk(Apply(s, FinishDelete(tid)), LeftBy(s, left, FinishDelete(tid)).litter)
  {
    FinishApplies(s, tid);
    forall p | p in FinishDeletion(s, tid).files
      ensures FileOk(s, p) <==> FileOk(FinishDeletion(s, tid), p)
    {
      AbsentOwners(s, tid, p);
    }
    SameOwners(s, left, FinishDelete(tid));
  }

  lemma AbsentOwners(s: State, tid: Tid, p: Path)
    requires At(s, tid, {Finishing}) && s.tasks[tid].image !in s.rows
    requires HasClaimed(s, tid) ==> ClaimOk(s, tid)
    requires p in FinishDeletion(s, tid).files
    ensures FileOk(s, p) <==> FileOk(FinishDeletion(s, tid), p)
  {
    AbsentOwnsNothing(s, tid, p);
    OwnersRemain(s, FinishDeletion(s, tid), s.tasks[tid].image, p);
  }

  lemma AbsentOwnsNothing(s: State, tid: Tid, p: Path)
    requires At(s, tid, {Finishing}) && s.tasks[tid].image !in s.rows
    requires HasClaimed(s, tid) ==> ClaimOk(s, tid)
    requires p in FinishDeletion(s, tid).files
    ensures !RunOwns(s, tid, p)
  {
  }

  /** A row the run never claimed stays, and everything with it. */
  lemma FinishUnclaimedKeepsFiles(s: State, left: Left, tid: Tid)
    requires FilesOk(s, left.litter) && At(s, tid, {Finishing}) && !HasClaimed(s, tid)
    requires s.tasks[tid].image in s.rows
    ensures FilesOk(Apply(s, FinishDelete(tid)), LeftBy(s, left, FinishDelete(tid)).litter)
  {
    var s' := FinishDeletion(s, tid);
    assert Apply(s, FinishDelete(tid)) == s';
    forall p | p in s'.files
      ensures FileOk(s, p) <==> FileOk(s', p)
    {
      TaskLeaves(s, s', tid, p);
    }
    SameOwners(s, left, FinishDelete(tid));
  }

  /** A task that owns nothing leaves. */
  lemma TaskLeaves(s: State, s': State, tid: Tid, p: Path)
    requires s'.rows == s.rows && s'.stops == s.stops && s'.uploads == s.uploads && s'.tasks == s.tasks - {tid}
    requires !RunOwns(s, tid, p)
    ensures FileOk(s, p) <==> FileOk(s', p)
  {
    assert forall other :: RowOwns(s, other, p) <==> RowOwns(s', other, p);
    assert forall t :: RunOwns(s, t, p) <==> RunOwns(s', t, p);
    assert forall u :: UploadOwns(s, u, p) <==> UploadOwns(s', u, p);
  }

  lemma FinishKeepsFiles(s: State, left: Left, tid: Tid)
    requires FilesOk(s, left.litter) && NamesOk(s) && TasksOk(s) && At(s, tid, {Finishing})
    ensures FilesOk(Apply(s, FinishDelete(tid)), LeftBy(s, left, FinishDelete(tid)).litter)
  {
    assert HasClaimed(s, tid) ==> ClaimOk(s, tid);
    if s.tasks[tid].image !in s.rows {
      FinishAbsentKeepsFiles(s, left, tid);
    } else if HasClaimed(s, tid) {
      FinishPresentKeepsFiles(s, left, tid);
    } else {
      FinishUnclaimedKeepsFiles(s, left, tid);
    }
  }

  lemma RestartKeepsFiles(s: State, left: Left, builtin: Catalog)
    requires FilesOk(s, left.litter) && NamesOk(s) && TasksOk(s)
    ensures FilesOk(Apply(s, Restart(builtin)), LeftBy(s, left, Restart(builtin)).litter)
  {
    var s' := RestartServer(s, builtin);
    assert Apply(s, Restart(builtin)) == s';
    forall p | p in s'.files
      ensures FileOk(s', p) <==> FileOk(s, p) && p !in Strands(s, Restart(builtin))
    {
      RestartOwners(s, builtin, p);
    }
  }

  lemma RestartKeepsOwners(s: State, builtin: Catalog, p: Path)
    requires NamesOk(s) && p in RestartServer(s, builtin).files
    ensures forall id :: RowOwns(RestartServer(s, builtin), id, p) <==> RowOwns(s, id, p)
  {
    forall id
      ensures RowOwns(RestartServer(s, builtin), id, p) <==> RowOwns(s, id, p)
    {
      if RowOwns(s, id, p) {
        assert PlainName(s.rows[id].filename);
        assert s.rows[id].status != Deleting;
      }
    }
  }

  lemma RestartOwners(s: State, builtin: Catalog, p: Path)
    requires NamesOk(s) && TasksOk(s) && p in RestartServer(s, builtin).files
    ensures FileOk(RestartServer(s, builtin), p) <==> FileOk(s, p) && p !in Strands(s, Restart(builtin))
  {
    var s' := RestartServer(s, builtin);
    assert p in s.files && !OwnedByDeleted(s.rows, p);
    assert forall t :: !RunOwns(s', t, p);
    assert forall u :: !UploadOwns(s', u, p);
    RestartKeepsOwners(s, builtin, p);
    forall t | RunOwns(s, t, p) && !p.PartFile? && !Outlived(s, t, p)
      ensures RowOwns(s, s.tasks[t].image, p)
    {
      assert ClaimOk(s, t);
    }
    if id :| RowOwns(s, id, p) {
      RowsFileStays(s, builtin, id, p);
    }
  }

  /** A row's file is not among what a restart leaves to nobody. */
  lemma RowsFileStays(s: State, builtin: Catalog, id: Id, p: Path)
    requires NamesOk(s) && TasksOk(s) && RowOwns(s, id, p)
    ensures p !in Strands(s, Restart(builtin))
  {
    forall t
      ensures !Outlived(s, t, p)
    {
      assert RunOwns(s, t, p) && !p.PartFile? ==> ClaimOk(s, t);
    }
  }

  /** What a run that has outlived its row leaves when its end fails belongs to nobody. */
  lemma FailFinishKeepsFiles(s: State, left: Left, tid: Tid, gone: set<Path>)
    requires FilesOk(s, left.litter) && TasksOk(s) && Legal(s, FailFinish(tid, gone))
    ensures FilesOk(Apply(s, FailFinish(tid, gone)), LeftBy(s, left, FailFinish(tid, gone)).litter)
  {
    forall p | p in s.files - gone
      ensures FileOk(FailFinishing(s, tid, gone), p) <==> FileOk(s, p) && !Outlived(s, tid, p)
    {
      FailFinishOwners(s, tid, gone, p);
    }
    FailFinishApplies(s, tid, gone);
  }

  lemma FailFinishApplies(s: State, tid: Tid, gone: set<Path>)
    requires Legal(s, FailFinish(tid, gone))
    ensures Apply(s, FailFinish(tid, gone)) == FailFinishing(s, tid, gone)
    ensures forall p :: p in Strands(s, FailFinish(tid, gone)) <==> p in s.files && Outlived(s, tid, p)
  {
  }

  lemma FailFinishOwners(s: State, tid: Tid, gone: set<Path>, p: Path)
    requires TasksOk(s) && At(s, tid, {Finishing})
    ensures FileOk(FailFinishing(s, tid, gone), p) <==> FileOk(s, p) && !Outlived(s, tid, p)
  {
    var s', id := FailFinishing(s, tid, gone), s.tasks[tid].image;
    assert forall other :: RowOwns(s, other, p) <==> RowOwns(s', other, p);
    assert forall u :: UploadOwns(s, u, p) <==> UploadOwns(s', u, p);
    assert forall t | t != tid :: RunOwns(s, t, p) <==> RunOwns(s', t, p);
    if RunOwns(s, tid, p) {
      assert ClaimOk(s, tid);
      if id in s.rows {
        assert RowOwns(s, id, p);
      } else {
        OnlyOwner(s, tid, p);
      }
    }
  }

  lemma OnlyOwner(s: State, tid: Tid, p: Path)
    requires TasksOk(s) && At(s, tid, {Finishing}) && Outlived(s, tid, p)
    ensures forall other :: !RowOwns(s, other, p)
    ensures forall u :: !UploadOwns(s, u, p)
    ensures forall t | t != tid :: !RunOwns(s, t, p)
  {
    assert ClaimOk(s, tid);
  }

  lemma OtherStepKeepsFiles(s: State, left: Left, e: Event)
    requires FilesOk(s, left.litter) && TableOk(s) && Legal(s, e)
    requires e.Reprocess? || e.Register? || e.Deregister? || (e.Delete? && e.id !in s.rows)
    ensures FilesOk(Apply(s, e), LeftBy(s, left, e).litter)
  {
    var s' := Apply(s, e);
    forall p | p in s'.files
      ensures FileOk(s, p) <==> FileOk(s', p)
    {
      OtherStepOwners(s, e, p);
    }
    SameOwners(s, left, e);
  }

  lemma OtherStepOwners(s: State, e: Event, p: Path)
    requires TableOk(s) && Legal(s, e)
    requires e.Reprocess? || e.Register? || e.Deregister? || (e.Delete? && e.id !in s.rows)
    ensures FileOk(s, p) <==> FileOk(Apply(s, e), p)
  {
    var s' := Apply(s, e);
    OtherStepNames(s, e);
    assert forall id :: RowOwns(s, id, p) <==> RowOwns(s', id, p);
    assert forall u :: UploadOwns(s, u, p) <==> UploadOwns(s', u, p);
    forall t
      ensures RunOwns(s, t, p) <==> RunOwns(s', t, p)
    {
      OtherStepRuns(s, e, t, p);
    }
  }

  lemma OtherStepNames(s: State, e: Event)
    requires Legal(s, e)
    requires e.Reprocess? || e.Register? || e.Deregister? || (e.Delete? && e.id !in s.rows)
    ensures var s' := Apply(s, e);
      && s'.rows.Keys == s.rows.Keys && s'.uploads == s.uploads && s'.stops == s.stops
      && forall id | id in s.rows :: s'.rows[id].filename == s.rows[id].filename
  {
  }

  lemma OtherStepRuns(s: State, e: Event, t: Tid, p: Path)
    requires TableOk(s) && Legal(s, e)
    requires e.Reprocess? || e.Register? || e.Deregister? || (e.Delete? && e.id !in s.rows)
    ensures RunOwns(s, t, p) <==> RunOwns(Apply(s, e), t, p)
  {
    if e.Register? || e.Deregister? {
      TableStepRuns(s, e, t, p);
    }
  }

  lemma TableStepRuns(s: State, e: Event, t: Tid, p: Path)
    requires TableOk(s) && Legal(s, e) && (e.Register? || e.Deregister?)
    ensures RunOwns(s, t, p) <==> RunOwns(Apply(s, e), t, p)
  {
    assert t in s.tasks ==> TaskOk(s, t);
  }

  // --- Uploads -------------------------------------------------------------

  lemma BeginKeepsFiles(s: State, left: Left, e: Event)
    requires FilesOk(s, left.litter) && e.BeginUpload? && Legal(s, e)
    ensures FilesOk(Apply(s, e), LeftBy(s, left, e).litter)
  {
    var s', file := Apply(s, e), IsoFile(e.name);
    assert UploadOwns(s', e.upload, file);
    forall p | p in s'.files && p != file
      ensures FileOk(s', p) <==> FileOk(s, p)
    {
      assert forall id :: RowOwns(s, id, p) <==> RowOwns(s', id, p);
      assert forall t :: RunOwns(s, t, p) <==> RunOwns(s', t, p);
      assert forall u :: UploadOwns(s, u, p) <==> UploadOwns(s', u, p);
    }
  }

  /** The row takes over its upload's file, and its folders if there are any. */
  lemma EndKeepsFiles(s: State, left: Left, e: Event)
    requires FilesOk(s, left.litter) && e.EndUpload? && Legal(s, e)
    ensures FilesOk(Apply(s, e), LeftBy(s, left, e).litter)
  {
    var s' := Apply(s, e);
    forall p | p in s.files
      ensures FileOk(s', p) <==> FileOk(s, p) || DerivedOf(p, e.id)
    {
      RowsMoreOwners(s, s', e.id, p);
      forall u | u != e.upload
        ensures UploadOwns(s, u, p) <==> UploadOwns(s', u, p)
      {
      }
      assert UploadOwns(s, e.upload, p) ==> RowOwns(s', e.id, p);
      assert RowOwns(s', e.id, p) ==> p.Derived? || UploadOwns(s, e.upload, p);
      assert DerivedOf(p, e.id) ==> RowOwns(s', e.id, p);
      NewTaskOwnsNothing(s, s', e.tid, p);
    }
    NewOwner(s, left, e);
  }

  lemma RowsMoreOwners(s: State, s': State, id: Id, p: Path)
    requires id !in s.rows && id in s'.rows && s'.rows == s.rows[id := s'.rows[id]]
    ensures forall other | other != id :: RowOwns(s, other, p) <==> RowOwns(s', other, p)
    ensures !RowOwns(s, id, p)
  {
  }

  lemma NewTaskOwnsNothing(s: State, s': State, tid: Tid, p: Path)
    requires s'.stops == s.stops && tid !in s.tasks && tid in s'.tasks
    requires s'.tasks == s.tasks[tid := s'.tasks[tid]] && s'.tasks[tid].pc == Queued && s'.tasks[tid].filename.None?
    ensures forall t :: RunOwns(s, t, p) <==> RunOwns(s', t, p)
  {
  }

  lemma AddKeepsFiles(s: State, left: Left, e: Event)
    requires FilesOk(s, left.litter) && e.Add? && Legal(s, e)
    ensures FilesOk(Apply(s, e), LeftBy(s, left, e).litter)
  {
    var s' := Apply(s, e);
    forall p | p in s.files
      ensures FileOk(s', p) <==> FileOk(s, p) || DerivedOf(p, e.id)
    {
      RowsMoreOwners(s, s', e.id, p);
      NewTaskOwnsNothing(s, s', e.tid, p);
      assert forall u :: UploadOwns(s, u, p) <==> UploadOwns(s', u, p);
      assert RowOwns(s', e.id, p) <==> DerivedOf(p, e.id);
    }
    NewOwner(s, left, e);
  }

  /** A copy that fails leaves its file to nobody. */
  lemma FailKeepsFiles(s: State, left: Left, e: Event)
    requires FilesOk(s, left.litter) && NamesOk(s) && TasksOk(s) && e.FailUpload? && Legal(s, e)
    ensures FilesOk(Apply(s, e), LeftBy(s, left, e).litter)
  {
    var s', file := CloseUpload(s, e.upload), IsoFile(s.uploads[e.upload]);
    assert Apply(s, e) == s' && Strands(s, e) == {file};
    CopyStrands(s, e.upload);
    forall p | p in s'.files && p != file
      ensures FileOk(s', p) <==> FileOk(s, p)
    {
      ClosedOwners(s, e.upload, p);
    }
  }

  lemma CopyStrands(s: State, u: Upload)
    requires NamesOk(s) && TasksOk(s) && u in s.uploads
    ensures !FileOk(CloseUpload(s, u), IsoFile(s.uploads[u]))
  {
    var s', file := CloseUpload(s, u), IsoFile(s.uploads[u]);
    CopyIsNoArchive(s, u);
    assert forall id :: !RowOwns(s', id, file);
    assert forall t :: !RunOwns(s', t, file);
    assert forall v :: !UploadOwns(s', v, file);
  }

  lemma ClosedOwners(s: State, u: Upload, p: Path)
    requires u in s.uploads && p != IsoFile(s.uploads[u])
    ensures FileOk(CloseUpload(s, u), p) <==> FileOk(s, p)
  {
    var s' := CloseUpload(s, u);
    assert forall id :: RowOwns(s, id, p) <==> RowOwns(s', id, p);
    assert forall t :: RunOwns(s, t, p) <==> RunOwns(s', t, p);
    assert forall v :: UploadOwns(s, v, p) <==> UploadOwns(s', v, p);
  }

  lemma FilesStep(s: State, left: Left, e: Event)
    requires Inv(s, left) && Legal(s, e) && Orderly(s, e)
    ensures FilesOk(Apply(s, e), LeftBy(s, left, e).litter)
  {
    if e.Write? {
      WriteKeepsFiles(s, left, e.tid, e.path, e.size);
    } else if OwnStep(e) {
      OwnStepKeepsFiles(s, left, e);
    } else if e.FinishDelete? {
      FinishKeepsFiles(s, left, e.tid);
    } else if e.FailFinish? {
      FailFinishKeepsFiles(s, left, e.tid, e.gone);
    } else if e.Restart? {
      RestartKeepsFiles(s, left, e.builtin);
    } else if e.Delete? && e.id in s.rows {
      if e.id in s.runs && s.runs[e.id] !in s.stops {
        TellKeepsFiles(s, left, e.id);
      } else {
        RemoveKeepsFiles(s, left, e.id);
      }
    } else {
      UploadStepKeepsFiles(s, left, e);
    }
  }

  lemma UploadStepKeepsFiles(s: State, left: Left, e: Event)
    requires Inv(s, left) && Legal(s, e)
    requires !OwnStep(e) && !e.FinishDelete? && !e.FailFinish? && !e.Restart? && !(e.Delete? && e.id in s.rows)
    ensures FilesOk(Apply(s, e), LeftBy(s, left, e).litter)
  {
    if e.BeginUpload? {
      BeginKeepsFiles(s, left, e);
    } else if e.EndUpload? {
      EndKeepsFiles(s, left, e);
    } else if e.FailUpload? {
      FailKeepsFiles(s, left, e);
    } else if e.Add? {
      AddKeepsFiles(s, left, e);
    } else {
      OtherStepKeepsFiles(s, left, e);
    }
  }

  lemma InvStep(s: State, left: Left, e: Event)
    requires Inv(s, left) && Legal(s, e) && Orderly(s, e)
    ensures Inv(Apply(s, e), LeftBy(s, left, e))
  {
    TableStep(s, e);
    NamesStep(s, e);
    TasksStep(s, e);
    RowsStep(s, left, e);
    FilesStep(s, left, e);
  }

  lemma {:induction false} OrderlyIsLegal(s: State, es: seq<Event>)
    requires OrderlyRun(s, es)
    ensures LegalRun(s, es)
    decreases es
  {
    if es != [] {
      OrderlyIsLegal(Apply(s, es[0]), es[1..]);
    }
  }

  lemma {:induction false} InvAlways(s: State, left: Left, es: seq<Event>)
    requires Inv(s, left) && OrderlyRun(s, es)
    ensures LegalRun(s, es) && Inv(Run(s, es), LeftAfter(s, left, es))
    decreases es
  {
    OrderlyIsLegal(s, es);
    if es != [] {
      InvStep(s, left, es[0]);
      InvAlways(Apply(s, es[0]), LeftBy(s, left, es[0]), es[1..]);
    }
  }
}
