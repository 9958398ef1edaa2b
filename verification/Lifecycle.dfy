/**
 * The image lifecycle: uploads, background runs, Delete, Reprocess and restarts
 * acting on one row, one entry of the run table, one stop flag and three folders.
 *
 * A state is moved by events, each one database commit or one step of a run
 * between two points where another request can come in between. A whole
 * execution is a sequence of events; `Legal` says which event the code can take
 * in which state, and `Apply` what it does.
 */
module Lifecycle {
  import opened Store
  import opened BootFiles
  import opened StartUp

  type Tid = nat
  type Upload = nat

  /** How far a background task has come in `process_image`. */
  datatype Pc =
    | Queued        // handed to the background queue
    | Registered    // in the run table, row not read yet
    | Claimed       // saw "pending", has not committed "processing"
    | Cleaning      // about to wipe what an earlier run left
    | Working       // extracting
    | Downloading   // working, with a .part file of its archive
    | Committed     // "ready" or "error" is in the database
    | Failing       // in the handler of an unexpected exception
    | Reporting     // about to commit "error" from that handler
    | Leaving       // on its way to the finally block
    | Broken        // the same, after the handler itself raised
    | Finishing     // out of the run table, stop flag seen set

  /** `filename` is set once the task has claimed its row. */
  datatype Task = Task(image: Id, pc: Pc, filename: Option<string>, netboot: bool)

  datatype State = State(
    rows: Rows,
    files: Files,
    runs: map<Id, Tid>,         // the run table: whose run is under way
    stops: set<Tid>,            // the runs whose stop flag is set
    tasks: map<Tid, Task>,      // every task that has not returned
    uploads: map<Upload, string>)   // the file names of uploads being copied

  datatype Event =
    | BeginUpload(upload: Upload, name: string, size: nat)
    | EndUpload(upload: Upload, id: Id, img: Image, tid: Tid)
    | FailUpload(upload: Upload)
    | Add(id: Id, img: Image, tid: Tid)
    | Reprocess(id: Id, tid: Tid)
    | Delete(id: Id)
    | Register(tid: Tid)
    | ReadRow(tid: Tid)
    | Claim(tid: Tid)
    | CleanOld(tid: Tid)
    | StartDownload(tid: Tid)
    | EndDownload(tid: Tid)
    | Write(tid: Tid, path: Path, size: nat)
    | Discard(tid: Tid, path: Path)
    | Stop(tid: Tid)
    | Commit(tid: Tid, built: Image)
    | Return(tid: Tid)
    | Raise(tid: Tid)
    | FailRead(tid: Tid)
    | FailCommit(tid: Tid)
    | Deregister(tid: Tid)
    | FinishDelete(tid: Tid)
    | FailFinish(tid: Tid, gone: set<Path>)
    | Restart(builtin: Catalog)

  /** The task is in the run table. */
  predicate Active(task: Task) {
    task.pc != Queued && task.pc != Finishing
  }

  predicate Fresh(s: State, tid: Tid) {
    tid !in s.tasks && tid !in s.stops
  }

  predicate At(s: State, tid: Tid, pcs: set<Pc>) {
    tid in s.tasks && s.tasks[tid].pc in pcs
  }

  /**
   * What a run may write: its own folders and, for a catalog image, its archive and,
   * while it downloads that, the archive's .part file.
   */
  predicate MayTouch(task: Task, path: Path) {
    || DerivedOf(path, task.image)
    || (task.netboot && task.filename.Some? && path == IsoFile(IsoName(task.filename.value)))
    || (task.pc == Downloading && task.filename.Some? && path == PartFile(IsoName(task.filename.value)))
  }

  /** No file and no row has this name: what `_unused_filename` looks at. */
  predicate Unused(s: State, name: string) {
    && PlainName(name) && IsoFile(name) !in s.files
    && forall other | other in s.rows :: s.rows[other].filename != name
  }

  /** The code can take this event in this state. */
  predicate Legal(s: State, e: Event) {
    match e
    case BeginUpload(upload, name, size) => upload !in s.uploads && Unused(s, name)
    case EndUpload(upload, id, img, tid) =>
      && upload in s.uploads && img.filename == s.uploads[upload]
      && Fresh(s, tid) && id !in s.rows && img.status == Pending
    case FailUpload(upload) => upload in s.uploads
    case Add(id, img, tid) =>
      // a catalog image's name is random
      && Fresh(s, tid) && id !in s.rows && img.status == Pending && Unused(s, img.filename)
    case Reprocess(id, tid) => Fresh(s, tid)
    case Delete(id) => true
    case Register(tid) => At(s, tid, {Queued})
    case ReadRow(tid) => At(s, tid, {Registered})
    case Claim(tid) => At(s, tid, {Claimed})
    case CleanOld(tid) => At(s, tid, {Cleaning})
    case StartDownload(tid) => At(s, tid, {Working}) && s.tasks[tid].netboot
    case EndDownload(tid) => At(s, tid, {Downloading})
    case Write(tid, path, size) => At(s, tid, {Working, Downloading}) && MayTouch(s.tasks[tid], path)
    case Discard(tid, path) => At(s, tid, {Working, Downloading}) && MayTouch(s.tasks[tid], path)
    case Stop(tid) => At(s, tid, {Working, Downloading}) && tid in s.stops
    case Commit(tid, built) => At(s, tid, {Working}) && built.status in {Ready, Error}
    case Return(tid) => At(s, tid, {Committed})
    case Raise(tid) =>
      At(s, tid, {Registered, Claimed, Cleaning, Working, Downloading, Committed, Failing, Reporting})
    case FailRead(tid) => At(s, tid, {Failing})
    case FailCommit(tid) => At(s, tid, {Reporting})
    case Deregister(tid) => At(s, tid, {Leaving, Broken})
    case FinishDelete(tid) => At(s, tid, {Finishing})
    case FailFinish(tid, gone) =>
      At(s, tid, {Finishing}) && forall p | p in gone :: p in s.files && p !in FinishDeletion(s, tid).files
    case Restart(_) => true
  }

  function Goto(s: State, tid: Tid, pc: Pc): State
    requires tid in s.tasks
  {
    s.(tasks := s.tasks[tid := s.tasks[tid].(pc := pc)])
  }

  function SetStatus(s: State, id: Id, status: Status): State
    requires id in s.rows
  {
    s.(rows := s.rows[id := s.rows[id].(status := status)])
  }

  /** `_remove_image`: the ISO, the derived files and the row. */
  function RemoveImage(s: State, id: Id): State
    requires id in s.rows
  {
    s.(rows := s.rows - {id}, files := RemoveFiles(s.files, id, s.rows[id].filename))
  }

  function Queue(s: State, id: Id, tid: Tid): State {
    s.(tasks := s.tasks[tid := Task(id, Queued, None, false)])
  }

  /** Add from the catalog, and the end of an upload: the row, and a task for it. */
  function AddImage(s: State, id: Id, img: Image, tid: Tid): State {
    Queue(s, id, tid).(rows := s.rows[id := img])
  }

  /** An upload's file counts from when it is opened; how much of it is there does not. */
  function OpenUpload(s: State, upload: Upload, name: string, size: nat): State {
    s.(files := s.files[IsoFile(IsoName(name)) := size], uploads := s.uploads[upload := name])
  }

  /** The copy ends. What it wrote stays, and so does the file another request removed. */
  function CloseUpload(s: State, upload: Upload): State {
    s.(uploads := s.uploads - {upload})
  }

  /** The .part file goes, as it does on every way out of a download. */
  function DropPart(s: State, tid: Tid): State
    requires tid in s.tasks
  {
    var task := s.tasks[tid];
    if task.pc == Downloading && task.filename.Some? then
      s.(files := s.files - {PartFile(IsoName(task.filename.value))})
    else s
  }

  /** A download begins by removing what an earlier one may have left. */
  function OpenDownload(s: State, tid: Tid): State
    requires tid in s.tasks
  {
    DropPart(Goto(s, tid, Downloading), tid)
  }

  /** An exception: into the handler, or out of it. */
  function Raised(pc: Pc): Pc {
    if pc == Failing || pc == Reporting then Broken else Failing
  }

  /** Reprocess: a busy image is left alone. */
  function ReprocessImage(s: State, id: Id, tid: Tid): State {
    if id !in s.rows || Busy(s.rows[id].status) then s
    else Queue(SetStatus(s, id, Pending), id, tid)
  }

  /** `delete_image`: a run not yet told to stop is told; otherwise remove now. */
  function DeleteImage(s: State, id: Id): State {
    if id !in s.rows then s
    else if id in s.runs && s.runs[id] !in s.stops then
      SetStatus(s, id, Deleting).(stops := s.stops + {s.runs[id]})
    else RemoveImage(s, id)
  }

  function RegisterRun(s: State, tid: Tid): State
    requires tid in s.tasks
  {
    var id := s.tasks[tid].image;
    if id in s.runs then s.(tasks := s.tasks - {tid})
    else Goto(s, tid, Registered).(runs := s.runs[id := tid])
  }

  function ReadPending(s: State, tid: Tid): State
    requires tid in s.tasks
  {
    var task := s.tasks[tid];
    if task.image in s.rows && s.rows[task.image].status == Pending then
      var img := s.rows[task.image];
      s.(tasks := s.tasks[tid :=
        Task(task.image, Claimed, Some(img.filename), img.source == FromCatalog)])
    else Goto(s, tid, Leaving)
  }

  /** An UPDATE of a row that is gone raises, which lands in the handler. */
  function ClaimRow(s: State, tid: Tid): State
    requires tid in s.tasks
  {
    var id := s.tasks[tid].image;
    if id in s.rows then Goto(SetStatus(s, id, Processing), tid, Cleaning)
    else Goto(s, tid, Failing)
  }

  /** The columns a run sets. */
  function Built(img: Image, built: Image): Image {
    img.(status := built.status, family := built.family, kernelPath := built.kernelPath,
         initrdPath := built.initrdPath, bootArgs := built.bootArgs)
  }

  function CommitResult(s: State, tid: Tid, built: Image): State
    requires tid in s.tasks
  {
    var id := s.tasks[tid].image;
    if id in s.rows then
      Goto(s.(rows := s.rows[id := Built(s.rows[id], built)]), tid, Committed)
    else Goto(s, tid, Failing)
  }

  function ReportFailure(s: State, tid: Tid): State
    requires tid in s.tasks
  {
    var id := s.tasks[tid].image;
    Goto(if id in s.rows then SetStatus(s, id, Error) else s, tid, Leaving)
  }

  function LeaveTable(s: State, tid: Tid): State
    requires tid in s.tasks
  {
    var s' := s.(runs := s.runs - {s.tasks[tid].image});
    if tid in s.stops then Goto(s', tid, Finishing) else s'.(tasks := s.tasks - {tid})
  }

  /** `_finish_delete`, after which the task has returned. */
  function FinishDeletion(s: State, tid: Tid): State
    requires tid in s.tasks
  {
    var task := s.tasks[tid];
    var id := task.image;
    var s' := s.(tasks := s.tasks - {tid});
    if id in s.rows then
      if task.filename == Some(s.rows[id].filename) then RemoveImage(s', id) else s'
    else
      var cleaned := s'.(files := Clean(s.files, id));
      if task.filename.None? || (exists other | other in s.rows ::
           s.rows[other].filename == task.filename.value)
      then cleaned
      else cleaned.(files := Unlink(cleaned.files, task.filename.value))
  }

  /** An exception in `_finish_delete`, after some of the files have gone: the row stays. */
  function FailFinishing(s: State, tid: Tid, gone: set<Path>): State
    requires tid in s.tasks
  {
    s.(tasks := s.tasks - {tid}, files := s.files - gone)
  }

  /** No task survives a restart; start-up then settles the rows. */
  function RestartServer(s: State, builtin: Catalog): State {
    State(SettledRows(s.rows, s.files, builtin), SettledFiles(s.rows, s.files), map[], {}, map[], map[])
  }

  function Apply(s: State, e: Event): State
    requires Legal(s, e)
  {
    match e
    case BeginUpload(upload, name, size) => OpenUpload(s, upload, name, size)
    case EndUpload(upload, id, img, tid) => AddImage(CloseUpload(s, upload), id, img, tid)
    case FailUpload(upload) => CloseUpload(s, upload)
    case Add(id, img, tid) => AddImage(s, id, img, tid)
    case Reprocess(id, tid) => ReprocessImage(s, id, tid)
    case Delete(id) => DeleteImage(s, id)
    case Register(tid) => RegisterRun(s, tid)
    case ReadRow(tid) => ReadPending(s, tid)
    case Claim(tid) => ClaimRow(s, tid)
    case CleanOld(tid) => Goto(s.(files := Clean(s.files, s.tasks[tid].image)), tid, Working)
    case StartDownload(tid) => OpenDownload(s, tid)
    case EndDownload(tid) => Goto(DropPart(s, tid), tid, Working)
    case Write(tid, path, size) => s.(files := s.files[path := size])
    case Discard(tid, path) => s.(files := s.files - {path})
    case Stop(tid) => Goto(DropPart(s, tid), tid, Leaving)
    case Commit(tid, built) => CommitResult(s, tid, built)
    case Return(tid) => Goto(s, tid, Leaving)
    case Raise(tid) => Goto(DropPart(s, tid), tid, Raised(s.tasks[tid].pc))
    case FailRead(tid) =>
      Goto(s, tid, if tid !in s.stops && s.tasks[tid].image in s.rows then Reporting else Leaving)
    case FailCommit(tid) => ReportFailure(s, tid)
    case Deregister(tid) => LeaveTable(s, tid)
    case FinishDelete(tid) => FinishDeletion(s, tid)
    case FailFinish(tid, gone) => FailFinishing(s, tid, gone)
    case Restart(builtin) => RestartServer(s, builtin)
  }

  predicate LegalRun(s: State, es: seq<Event>)
    decreases es
  {
    es == [] || (Legal(s, es[0]) && LegalRun(Apply(s, es[0]), es[1..]))
  }

  function Run(s: State, es: seq<Event>): State
    requires LegalRun(s, es)
    decreases es
  {
    if es == [] then s else Run(Apply(s, es[0]), es[1..])
  }

  /** A server that has just been set up. */
  const EMPTY := State(map[], map[], map[], {}, map[], map[])
}
