/** From the end of one run to the next press of Delete or Reprocess: what "ready" is worth. */
module ReadyRuns {
  import opened Store
  import opened BootFiles
  import opened StartUp
  import opened Lifecycle
  import opened LifecycleProofs
  import opened LifecycleTheorems
  import opened LifecycleLimits
  import Extracted
  import Extraction
  import IsoLayout

  // --- A run, step by step -------------------------------------------------

  ghost predicate Differs(files: Files, files': Files, p: Path) {
    (p in files) != (p in files') || (p in files && files[p] != files'[p])
  }

  /** The run may write or remove whatever is different. */
  ghost predicate MayChange(task: Task, files: Files, files': Files) {
    forall p | Differs(files, files', p) :: MayTouch(task, p)
  }

  /** One write or removal fewer to go. */
  lemma {:induction false} Writes(s: State, tid: Tid, files': Files, todo: set<Path>) returns (es: seq<Event>)
    requires At(s, tid, {Working}) && MayChange(s.tasks[tid], s.files, files')
    requires forall p :: p in todo <==> Differs(s.files, files', p)
    ensures Reaches(s, es, s.(files := files'))
    decreases |todo|
  {
    if p :| p in todo {
      var e := if p in files' then Write(tid, p, files'[p]) else Discard(tid, p);
      WriteOne(s, tid, files', p);
      var rest := Writes(Apply(s, e), tid, files', todo - {p});
      es := [e] + rest;
      RunOne(s, e, rest);
    } else {
      es := [];
      SameFiles(s.files, files');
    }
  }

  lemma SameFiles(files: Files, files': Files)
    requires forall p :: !Differs(files, files', p)
    ensures files == files'
  {
    assert forall p :: !Differs(files, files', p) ==> (p in files <==> p in files');
  }

  lemma WriteOne(s: State, tid: Tid, files': Files, p: Path)
    requires At(s, tid, {Working}) && MayChange(s.tasks[tid], s.files, files') && Differs(s.files, files', p)
    ensures var e := if p in files' then Write(tid, p, files'[p]) else Discard(tid, p);
      && Legal(s, e) && Orderly(s, e)
      && Apply(s, e) == s.(files := Apply(s, e).files)
      && forall q :: Differs(Apply(s, e).files, files', q) <==> q != p && Differs(s.files, files', q)
  {
  }

  /** The columns a run does not set are as in the row. */
  predicate SameRow(row: Image, img: Image) {
    Built(row, img) == img
  }

  /** What the run has claimed: its row says "processing", and what an earlier run left is gone. */
  function Begun(s: State, tid: Tid): State
    requires At(s, tid, {Claimed}) && s.tasks[tid].image in s.rows
  {
    var id := s.tasks[tid].image;
    Goto(SetStatus(s, id, Processing).(files := Clean(s.files, id)), tid, Working)
  }

  function Ended(s: State, tid: Tid, img: Image, files: Files): State
    requires tid in s.tasks
  {
    Goto(s.(rows := s.rows[s.tasks[tid].image := img], files := files), tid, Committed)
  }

  lemma Begins(s: State, tid: Tid)
    requires At(s, tid, {Claimed}) && s.tasks[tid].image in s.rows
    ensures var claimed := Goto(SetStatus(s, s.tasks[tid].image, Processing), tid, Cleaning);
      && Legal(s, Claim(tid)) && Apply(s, Claim(tid)) == claimed
      && Legal(claimed, CleanOld(tid)) && Apply(claimed, CleanOld(tid)) == Begun(s, tid)
  {
  }

  lemma Ends(s: State, tid: Tid, img: Image, files: Files)
    requires At(s, tid, {Claimed}) && s.tasks[tid].image in s.rows
    requires SameRow(s.rows[s.tasks[tid].image], img) && img.status in {Ready, Error}
    ensures var written := Begun(s, tid).(files := files);
      Legal(written, Commit(tid, img)) && Apply(written, Commit(tid, img)) == Ended(s, tid, img, files)
  {
  }

  /** The task has claimed the row as it is. */
  predicate ClaimedNow(s: State, tid: Tid) {
    && tid in s.tasks && s.tasks[tid].image in s.rows
    && var row := s.rows[s.tasks[tid].image];
       s.tasks[tid] == Task(s.tasks[tid].image, Claimed, Some(row.filename), row.source == FromCatalog)
  }

  /** A download that begins and ends takes an old .part file away. */
  lemma DropsOldPart(s: State, tid: Tid, part: Path) returns (es: seq<Event>)
    requires At(s, tid, {Working}) && s.tasks[tid].netboot && s.tasks[tid].filename.Some?
    requires part == PartFile(IsoName(s.tasks[tid].filename.value))
    ensures Reaches(s, es, s.(files := s.files - {part}))
  {
    var loading := Goto(s.(files := s.files - {part}), tid, Downloading);
    StartsDownload(s, tid, part);
    NextStep(s, [], s, StartDownload(tid), loading);
    EndsDownload(s, tid, part);
    NextStep(s, [] + [StartDownload(tid)], loading, EndDownload(tid), s.(files := s.files - {part}));
    es := [] + [StartDownload(tid)] + [EndDownload(tid)];
  }

  lemma StartsDownload(s: State, tid: Tid, part: Path)
    requires At(s, tid, {Working}) && s.tasks[tid].netboot && s.tasks[tid].filename.Some?
    requires part == PartFile(IsoName(s.tasks[tid].filename.value))
    ensures Steps(s, StartDownload(tid), Goto(s.(files := s.files - {part}), tid, Downloading))
  {
  }

  lemma EndsDownload(s: State, tid: Tid, part: Path)
    requires At(s, tid, {Working}) && s.tasks[tid].netboot && s.tasks[tid].filename.Some?
    requires part == PartFile(IsoName(s.tasks[tid].filename.value))
    ensures Steps(Goto(s.(files := s.files - {part}), tid, Downloading), EndDownload(tid),
                  s.(files := s.files - {part}))
  {
    var loading := Goto(s.(files := s.files - {part}), tid, Downloading);
    assert loading.files - {part} == s.files - {part};
    assert s.tasks[tid := s.tasks[tid].(pc := Downloading)][tid := s.tasks[tid]] == s.tasks;
  }

  /** The run gets the files as it leaves them. */
  lemma Fills(s: State, tid: Tid, row: Image, files: Files) returns (es: seq<Event>)
    requires At(s, tid, {Working})
    requires s.tasks[tid] == Task(s.tasks[tid].image, Working, Some(row.filename), row.source == FromCatalog)
    requires Extracted.OnlyRun(s.files, files, s.tasks[tid].image, row)
    ensures Reaches(s, es, s.(files := files))
  {
    var part, mid, first := Extracted.PartOf(row), s, [];
    if part in s.files && part !in files {
      first := DropsOldPart(s, tid, part);
      mid := s.(files := s.files - {part});
    }
    var todo := set p | p in mid.files.Keys + files.Keys && Differs(mid.files, files, p);
    var rest := Writes(mid, tid, files, todo);
    Chain(s, first, mid, rest, s.(files := files));
    es := first + rest;
  }

  lemma Stepwise(s: State, tid: Tid, img: Image, files: Files) returns (es: seq<Event>)
    requires ClaimedNow(s, tid)
    requires SameRow(s.rows[s.tasks[tid].image], img) && img.status in {Ready, Error}
    requires Extracted.OnlyRun(s.files, files, s.tasks[tid].image, img)
    ensures Reaches(s, es, Ended(s, tid, img, files))
  {
    var begun := Begun(s, tid);
    var fills := Fills(begun, tid, s.rows[s.tasks[tid].image], files);
    var written := begun.(files := files);
    Ends(s, tid, img, files);
    NextStep(begun, fills, written, Commit(tid, img), Ended(s, tid, img, files));
    Begins(s, tid);
    var claimed := Apply(s, Claim(tid));
    RunOne(claimed, CleanOld(tid), fills + [Commit(tid, img)]);
    RunOne(s, Claim(tid), [CleanOld(tid)] + (fills + [Commit(tid, img)]));
    es := [Claim(tid)] + ([CleanOld(tid)] + (fills + [Commit(tid, img)]));
  }

  /**
   * A run of `process_image` from its claim to its commit is an orderly execution: the row
   * then says "ready" exactly when everything could be extracted, and is as bootable as
   * the files of the ISO or of the mirror make it.
   */
  method RunImage(
      s: State, tid: Tid, iso: IsoLayout.Iso, tools: Extracted.Tools, builtin: Catalog, custom: Catalog,
      src: Extracted.Sources)
      returns (s': State, ghost es: seq<Event>)
    requires ClaimedNow(s, tid)
    ensures Reaches(s, es, s')
    ensures s.tasks[tid].image in s'.rows && s' == Ended(s, tid, s'.rows[s.tasks[tid].image], s'.files)
    ensures var id := s.tasks[tid].image;
      && SameRow(s.rows[id], s'.rows[id]) && Extracted.OnlyRun(s.files, s'.files, id, s.rows[id])
      && s'.rows[id].status ==
         (if Extracted.RunReady(s.rows[id], id, s.files, iso, tools, builtin, custom, src) then Ready else Error)
    ensures var id := s.tasks[tid].image;
      var img := s'.rows[id];
      img.status == Ready && img.source == FromIso ==>
        (Bootable(img, id, s'.files, builtin) <==> Extracted.IsoBoots(iso, id, tools))
    ensures var id := s.tasks[tid].image;
      var img := s'.rows[id];
      img.status == Ready && img.source == FromCatalog ==>
        var entry: Entry := Extracted.CatalogEntry(builtin, custom, img.catalogId).value;
        && Extracted.NetbootVerdict(img, id, s'.files, entry, builtin, src, tools)
        && Extracted.ArchiveKept(entry, img, s.files, s'.files)
  {
    var id := s.tasks[tid].image;
    var run := new Extraction.Run(id, s.rows[id], s.files);
    run.ProcessImage(iso, tools, builtin, custom, src);
    es := Stepwise(s, tid, run.img, run.files);
    s' := Ended(s, tid, run.img, run.files);
  }

  // --- Until someone presses Delete or Reprocess ---------------------------

  /** The image has a row, and no task is about it. */
  ghost predicate AtRest(s: State, id: Id) {
    id in s.rows && forall t | t in s.tasks :: s.tasks[t].image != id
  }

  /** The row says "ready" and the start-up check agrees, by the image's own files. */
  ghost predicate Boots(s: State, id: Id, builtin: Catalog) {
    && id in s.rows && s.rows[id].status == Ready
    && Astray(s.rows[id], id).None? && Bootable(s.rows[id], id, s.files, builtin)
  }

  /** Anything but Delete and Reprocess of this image, and a start-up with another catalog. */
  predicate Spares(e: Event, id: Id, builtin: Catalog) {
    match e
    case Delete(other) => other != id
    case Reprocess(other, _) => other != id
    case Restart(now) => now == builtin
    case _ => true
  }

  /** The row and the image's own files are as before. */
  ghost predicate Kept(s: State, s': State, id: Id) {
    && id in s.rows && id in s'.rows && s'.rows[id] == s.rows[id]
    && forall p | DerivedOf(p, id) :: (p in s.files <==> p in s'.files) && (p in s.files ==> s'.files[p] == s.files[p])
  }

  lemma KeptBoots(s: State, s': State, id: Id, builtin: Catalog)
    requires Boots(s, id, builtin) && Kept(s, s', id)
    ensures Boots(s', id, builtin)
  {
    BootableFrame(s.rows[id], id, s.files, s'.files, builtin);
  }

  lemma OthersEventKeeps(s: State, e: Event, tid: Tid, id: Id)
    requires TableOk(s) && NamesOk(s) && TasksOk(s) && Legal(s, e) && tid in s.tasks && OwnEvent(e, tid)
    requires AtRest(s, id)
    ensures Kept(s, Apply(s, e), id)
  {
    EventKeepsOthers(s, e, tid);
    forall p | DerivedOf(p, id)
      ensures (p in s.files <==> p in Apply(s, e).files) && (p in s.files ==> Apply(s, e).files[p] == s.files[p])
    {
      assert RowOwns(s, id, p);
    }
  }

  lemma RequestKeeps(s: State, e: Event, id: Id, builtin: Catalog)
    requires Legal(s, e) && id in s.rows && Spares(e, id, builtin)
    requires e.BeginUpload? || e.EndUpload? || e.FailUpload? || e.Add? || e.Reprocess? || e.Delete?
    ensures Kept(s, Apply(s, e), id)
  {
  }

  lemma RestartKeeps(s: State, id: Id, builtin: Catalog)
    requires Boots(s, id, builtin)
    ensures Kept(s, RestartServer(s, builtin), id)
  {
  }

  /** No event but those brings in a task about the image. */
  lemma StaysAtRest(s: State, e: Event, id: Id, builtin: Catalog)
    requires TableOk(s) && Legal(s, e) && AtRest(s, id) && Spares(e, id, builtin)
    ensures forall t | t in Apply(s, e).tasks :: Apply(s, e).tasks[t].image != id
  {
    if OwnStep(e) {
      OwnStepMoves(s, e);
    }
  }

  lemma SparedKeeps(s: State, e: Event, id: Id, builtin: Catalog)
    requires TableOk(s) && NamesOk(s) && TasksOk(s) && Legal(s, e)
    requires AtRest(s, id) && Boots(s, id, builtin) && Spares(e, id, builtin)
    ensures AtRest(Apply(s, e), id) && Kept(s, Apply(s, e), id)
  {
    StaysAtRest(s, e, id, builtin);
    SparedKeepsImage(s, e, id, builtin);
  }

  lemma SparedKeepsImage(s: State, e: Event, id: Id, builtin: Catalog)
    requires TableOk(s) && NamesOk(s) && TasksOk(s) && Legal(s, e)
    requires AtRest(s, id) && Boots(s, id, builtin) && Spares(e, id, builtin)
    ensures Kept(s, Apply(s, e), id)
  {
    if e.Restart? {
      RestartKeeps(s, id, builtin);
    } else if OwnStep(e) || e.Register? || e.Deregister? || e.FinishDelete? || e.FailFinish? {
      OthersEventKeeps(s, e, e.tid, id);
    } else {
      RequestKeeps(s, e, id, builtin);
    }
  }

  /**
   * A bootable image stays in the menu and bootable, through uploads, runs, deletes and
   * restarts, until someone presses Delete or Reprocess on it.
   */
  lemma {:induction false} StaysBootable(s: State, left: Left, es: seq<Event>, id: Id, builtin: Catalog)
    requires Inv(s, left) && OrderlyRun(s, es) && LegalRun(s, es)
    requires AtRest(s, id) && Boots(s, id, builtin) && forall e | e in es :: Spares(e, id, builtin)
    ensures AtRest(Run(s, es), id) && Run(s, es).rows[id] == s.rows[id] && Boots(Run(s, es), id, builtin)
    decreases es
  {
    if es != [] {
      var e, rest := es[0], es[1..];
      assert e in es && forall o | o in rest :: o in es;
      SparedKeeps(s, e, id, builtin);
      KeptBoots(s, Apply(s, e), id, builtin);
      InvStep(s, left, e);
      StaysBootable(Apply(s, e), LeftBy(s, left, e), rest, id, builtin);
    }
  }
}
