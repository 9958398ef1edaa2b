/**
 * The requests that act on images in place: delete, finishing a delete,
 * Reprocess (one image or many) and the start-up check. Each is proved to be
 * the event of the lifecycle it stands for.
 */
module ImageService {
  import opened Store
  import opened BootFiles
  import opened StartUp
  import L = Lifecycle
  import FreshNames
  import Decimal
  import opened Text

  /** The rows among `done` that start-up changes or removes. */
  ghost function Touched(rows: Rows, files: Files, builtin: Catalog, late: set<Id>, done: set<Id>): set<Id> {
    (Unsettled(rows, files, builtin) + late) * done
  }

  /** The files that are left once the deleted rows among `done` are removed. */
  ghost function LeftOver(rows: Rows, files: Files, done: set<Id>): Files {
    map p | p in files && !(exists id | id in done && id in rows ::
              rows[id].status == Deleting
              && (DerivedOf(p, id) || p == IsoFile(IsoName(rows[id].filename)))) :: files[p]
  }

  ghost function HalfSettled(rows: Rows, files: Files, builtin: Catalog, late: set<Id>, done: set<Id>): Rows {
    map id | id in rows && (id in done ==> rows[id].status != Deleting) ::
      if id in done then SettleInTurn(rows[id], id, files, builtin, late) else rows[id]
  }

  lemma LeftOverBootable(rows: Rows, files: Files, builtin: Catalog, done: set<Id>, id: Id)
    requires id in rows && id !in done && !LooksIntoDeleted(rows, id)
    ensures Bootable(rows[id], id, LeftOver(rows, files, done), builtin)
       <==> Bootable(rows[id], id, files, builtin)
  {
    AstrayIsNoIso(rows[id], id);
    if Astray(rows[id], id).Some? {
      LeftOverBelow(rows, files, done, Astray(rows[id], id).value);
    }
    BootableFrame(rows[id], id, files, LeftOver(rows, files, done), builtin);
  }

  /** The row joins the late ones if only its turn makes the difference. */
  ghost function LateBy(rows: Rows, files: Files, builtin: Catalog, late: set<Id>, done: set<Id>, id: Id): set<Id>
    requires id in rows
  {
    if rows[id].status == Ready && Bootable(rows[id], id, files, builtin)
       && !Bootable(rows[id], id, LeftOver(rows, files, done), builtin)
    then late + {id}
    else late
  }

  lemma LateByIs(rows: Rows, files: Files, builtin: Catalog, late: set<Id>, done: set<Id>, id: Id)
    requires id in rows && id !in done && LateOk(rows, late) && late <= done
    ensures var late' := LateBy(rows, files, builtin, late, done, id);
      && LateOk(rows, late')
      && Settle(rows[id], id, LeftOver(rows, files, done), builtin) == SettleInTurn(rows[id], id, files, builtin, late')
  {
    if !LooksIntoDeleted(rows, id) {
      LeftOverBootable(rows, files, builtin, done, id);
    }
    if Bootable(rows[id], id, LeftOver(rows, files, done), builtin) {
      FewerBootable(rows[id], id, files, LeftOver(rows, files, done), builtin);
    }
  }

  lemma FewerBootable(img: Image, id: Id, files: Files, files': Files, builtin: Catalog)
    requires (forall p | p in files' :: p in files && files[p] == files'[p]) && Bootable(img, id, files', builtin)
    ensures Bootable(img, id, files, builtin)
  {
  }

  lemma LeftOverBelow(rows: Rows, files: Files, done: set<Id>, p: Path)
    requires p.Derived? || p.Elsewhere?
    requires p.Derived? ==> !(p.id in rows && rows[p.id].status == Deleting)
    ensures SameBelow(files, LeftOver(rows, files, done), p)
  {
    forall q | q == p || StrictlyBelow(q, p)
      ensures q in files <==> q in LeftOver(rows, files, done)
    {
    }
  }

  /** Start-up has settled the rows `done`, and counted those it changed or removed. */
  ghost predicate SettledSoFar(rows: Rows, files: Files, count: nat, rows0: Rows, files0: Files, builtin: Catalog,
                               late: set<Id>, done: set<Id>)
  {
    && rows == HalfSettled(rows0, files0, builtin, late, done)
    && files == LeftOver(rows0, files0, done)
    && count == |Touched(rows0, files0, builtin, late, done)|
    && LateOk(rows0, late) && late <= done
  }

  lemma NoneSettled(rows: Rows, files: Files, builtin: Catalog)
    ensures SettledSoFar(rows, files, 0, rows, files, builtin, {}, {})
  {
    assert HalfSettled(rows, files, builtin, {}, {}) == rows;
    assert LeftOver(rows, files, {}) == files;
  }

  /** One row settled: what is left of the rows, the files and the count. */
  lemma SettleOne(rows: Rows, files: Files, builtin: Catalog, late: set<Id>, late': set<Id>, done: set<Id>, id: Id)
    requires id in rows && id !in done && late <= done && late <= late' <= late + {id}
    ensures var before, after := HalfSettled(rows, files, builtin, late, done),
                                 HalfSettled(rows, files, builtin, late', done + {id});
      && id in before && before[id] == rows[id]
      && after == (if rows[id].status == Deleting then before - {id}
                   else before[id := SettleInTurn(rows[id], id, files, builtin, late')])
    ensures var before, after := LeftOver(rows, files, done), LeftOver(rows, files, done + {id});
      after == if rows[id].status == Deleting then RemoveFiles(before, id, rows[id].filename)
               else before
  {
  }

  lemma TouchOne(rows: Rows, files: Files, builtin: Catalog, late: set<Id>, late': set<Id>, done: set<Id>, id: Id)
    requires id in rows && id !in done && late <= done && late <= late' <= late + {id}
    requires LateOk(rows, late')
    ensures Touched(rows, files, builtin, late', done + {id}) ==
            Touched(rows, files, builtin, late, done) +
            if rows[id].status == Deleting || SettleInTurn(rows[id], id, files, builtin, late') != rows[id]
            then {id} else {}
  {
  }

  predicate Distinct(ids: seq<Id>) {
    forall i, j | 0 <= i < j < |ids| :: ids[i] != ids[j]
  }

  lemma {:induction false} DistinctSize(ids: seq<Id>)
    requires Distinct(ids)
    ensures |set id | id in ids| == |ids|
  {
    if ids != [] {
      DistinctSize(ids[1..]);
      assert (set id | id in ids) == (set id | id in ids[1..]) + {ids[0]};
    }
  }

  /** The rows after the ticked ones are queued. */
  function PendingRows(rows: Rows, ids: seq<Id>): Rows {
    map id | id in rows :: if id in ids then rows[id].(status := Pending) else rows[id]
  }

  /** Reprocess pressed on each row in turn, the tasks numbered from `tid`. */
  ghost function ReprocessAll(s: L.State, ids: seq<Id>, tid: L.Tid): L.State {
    if ids == [] then s
    else
      var n := |ids| - 1;
      L.ReprocessImage(ReprocessAll(s, ids[..n], tid), ids[n], tid + n)
  }

  /** Delete pressed on each row in turn. */
  ghost function DeleteAll(s: L.State, ids: seq<Id>): L.State {
    if ids == [] then s
    else L.DeleteImage(DeleteAll(s, ids[..|ids| - 1]), ids[|ids| - 1])
  }

  function NewTasks(ids: seq<Id>, tid: L.Tid): map<L.Tid, L.Task> {
    if ids == [] then map[]
    else
      var n := |ids| - 1;
      NewTasks(ids[..n], tid)[tid + n := L.Task(ids[n], L.Queued, None, false)]
  }

  predicate AllIdle(rows: Rows, ids: seq<Id>) {
    forall i | 0 <= i < |ids| :: ids[i] in rows && !Busy(rows[ids[i]].status)
  }

  /** The same state, in one go: the rows marked, the tasks added. */
  ghost function Requeued(s: L.State, ids: seq<Id>, tid: L.Tid): L.State {
    s.(rows := PendingRows(s.rows, ids), tasks := s.tasks + NewTasks(ids, tid))
  }

  lemma {:induction false} ReprocessAllIs(s: L.State, ids: seq<Id>, tid: L.Tid)
    requires Distinct(ids) && AllIdle(s.rows, ids)
    ensures ReprocessAll(s, ids, tid) == Requeued(s, ids, tid)
  {
    if ids == [] {
      NoneRequeued(s, tid);
    } else {
      ReprocessAllIs(s, ids[..|ids| - 1], tid);
      OneMoreRequeued(s, ids, tid);
    }
  }

  lemma NoneRequeued(s: L.State, tid: L.Tid)
    ensures Requeued(s, [], tid) == s
  {
    assert PendingRows(s.rows, []) == s.rows;
    assert s.tasks + NewTasks([], tid) == s.tasks;
  }

  lemma OneMoreRequeued(s: L.State, ids: seq<Id>, tid: L.Tid)
    requires ids != [] && Distinct(ids)
    requires var last := ids[|ids| - 1]; last in s.rows && !Busy(s.rows[last].status)
    ensures var n := |ids| - 1;
      L.ReprocessImage(Requeued(s, ids[..n], tid), ids[n], tid + n) == Requeued(s, ids, tid)
  {
    var n := |ids| - 1;
    var first, last := ids[..n], ids[n];
    assert ids == first + [last] && last !in first;
    PendingOneMore(s.rows, first, last);
    TasksOneMore(s.tasks, ids, tid);
    ReprocessOne(Requeued(s, first, tid), last, tid + n);
  }

  lemma ReprocessOne(s: L.State, id: Id, tid: L.Tid)
    requires id in s.rows && !Busy(s.rows[id].status)
    ensures L.ReprocessImage(s, id, tid) ==
            s.(rows := s.rows[id := s.rows[id].(status := Pending)],
               tasks := s.tasks[tid := L.Task(id, L.Queued, None, false)])
  {
  }

  lemma TasksOneMore(tasks: map<L.Tid, L.Task>, ids: seq<Id>, tid: L.Tid)
    requires ids != []
    ensures var n := |ids| - 1;
      tasks + NewTasks(ids, tid) ==
      (tasks + NewTasks(ids[..n], tid))[tid + n := L.Task(ids[n], L.Queued, None, false)]
  {
  }

  lemma PendingOneMore(rows: Rows, ids: seq<Id>, last: Id)
    requires last in rows && last !in ids
    ensures PendingRows(rows, ids + [last]) ==
            PendingRows(rows, ids)[last := rows[last].(status := Pending)]
    ensures PendingRows(rows, ids)[last] == rows[last]
  {
  }

  lemma AllSettled(rows: Rows, files: Files, builtin: Catalog, late: set<Id>)
    requires LateOk(rows, late)
    ensures HalfSettled(rows, files, builtin, late, rows.Keys) == SettledLate(rows, files, builtin, late)
    ensures LeftOver(rows, files, rows.Keys) == SettledFiles(rows, files)
    ensures Touched(rows, files, builtin, late, rows.Keys) == Unsettled(rows, files, builtin) + late
  {
    assert forall id | id in late :: id in rows.Keys;
    assert forall id | id in Unsettled(rows, files, builtin) :: id in rows.Keys;
  }

  lemma EndsSettled(rows: Rows, files: Files, count: nat, rows0: Rows, files0: Files, builtin: Catalog, late: set<Id>)
    requires SettledSoFar(rows, files, count, rows0, files0, builtin, late, rows0.Keys)
    ensures rows == SettledLate(rows0, files0, builtin, late) && files == SettledFiles(rows0, files0)
    ensures LateOk(rows0, late) && count == |Unsettled(rows0, files0, builtin) + late|
    ensures NoneLooksIntoDeleted(rows0) ==>
              rows == SettledRows(rows0, files0, builtin) && count == |Unsettled(rows0, files0, builtin)|
  {
    AllSettled(rows0, files0, builtin, late);
    if NoneLooksIntoDeleted(rows0) {
      LateUnlessNone(rows0, files0, builtin, late);
      assert Unsettled(rows0, files0, builtin) + late == Unsettled(rows0, files0, builtin);
    }
  }

  lemma LateUnlessNone(rows: Rows, files: Files, builtin: Catalog, late: set<Id>)
    requires LateOk(rows, late) && NoneLooksIntoDeleted(rows)
    ensures late == {} && SettledLate(rows, files, builtin, late) == SettledRows(rows, files, builtin)
  {
    assert forall id :: id !in late;
    NoneLate(rows, files, builtin);
  }

  lemma NoneLate(rows: Rows, files: Files, builtin: Catalog)
    ensures SettledLate(rows, files, builtin, {}) == SettledRows(rows, files, builtin)
  {
  }

  // --- Bulk delete ---------------------------------------------------------

  /** Of the ids done so far, the ones whose rows are still there. */
  predicate LeftOf(left: set<Id>, done: seq<Id>, rows: Rows) {
    (forall id | id in left :: id in done) && forall id | id in done :: id in left <==> id in rows
  }

  lemma LeftMore(left: set<Id>, done: seq<Id>, before: Rows, after: Rows, id: Id)
    requires LeftOf(left, done, before) && id !in done
    requires forall other | other != id :: other in after <==> other in before
    ensures id !in left
    ensures LeftOf(if id in after then left + {id} else left, done + [id], after)
  {
  }

  lemma LeftIs(left: set<Id>, images: seq<Id>, rows: Rows)
    requires LeftOf(left, images, rows)
    ensures left == set id | id in images && id in rows
  {
    var still := set id | id in images && id in rows;
    forall id
      ensures id in left <==> id in still
    {
    }
  }

  lemma SplitAt(ids: seq<Id>, i: nat)
    requires Distinct(ids) && i < |ids|
    ensures ids[..i + 1] == ids[..i] + [ids[i]] && ids[i..] == [ids[i]] + ids[i + 1..]
    ensures ids[i] !in ids[..i] && ids[i] !in ids[i + 1..]
  {
  }

  // --- Upload names --------------------------------------------------------

  lemma SlashFreeIsPlain(name: string)
    requires '/' !in name && |name| > 2
    ensures PlainName(name)
  {
    SplitNoSeparator(name, '/');
    assert KeepNamed([name][1..]) == [];
  }

  /** No name that is tried for an upload leaves the image folder. */
  lemma CandidateIsPlain(filename: string, n: nat)
    requires '/' !in filename && |filename| > 2
    ensures PlainName(FreshNames.IsoCandidate(filename, n))
  {
    var name := FreshNames.IsoCandidate(filename, n);
    assert filename == FreshNames.Stem(filename) + FreshNames.Ending(filename);
    assert '/' !in Decimal.Digits(n);
    SlashFreeIsPlain(name);
  }

  class Service {
    var rows: Rows
    var files: Files
    var runs: map<Id, L.Tid>
    var stops: set<L.Tid>
    var tasks: map<L.Tid, L.Task>
    var uploads: map<L.Upload, string>

    ghost function View(): L.State
      reads this
    {
      L.State(rows, files, runs, stops, tasks, uploads)
    }

    /** The file names `_unused_filename` finds taken: on disk, or in a row. */
    function Taken(): (names: set<string>)
      reads this
      ensures forall name | name !in names :: IsoFile(name) !in files
      ensures forall name, id | name !in names && id in rows :: rows[id].filename != name
    {
      (set p | p in files && p.IsoFile? :: p.name) + (set id | id in rows :: rows[id].filename)
    }

    /** The first part of `upload`: pick a name and open the file. */
    method BeginUpload(upload: L.Upload, filename: string, size: nat) returns (name: string)
      requires upload !in uploads && '/' !in filename && |filename| > 2
      modifies this`files, this`uploads
      ensures L.Legal(old(View()), L.BeginUpload(upload, name, size))
      ensures View() == L.Apply(old(View()), L.BeginUpload(upload, name, size))
    {
      var n;
      name, n := FreshNames.UnusedFilename(filename, Taken());
      CandidateIsPlain(filename, n);
      files := files[IsoFile(IsoName(name)) := size];
      uploads := uploads[upload := name];
    }

    /** The rest of it, once the copy is done: the row, and a task for it. */
    method EndUpload(upload: L.Upload, id: Id, img: Image, tid: L.Tid)
      requires upload in uploads && img.filename == uploads[upload] && img.status == Pending
      requires id !in rows && tid !in tasks && tid !in stops
      modifies this`rows, this`uploads, this`tasks
      ensures View() == L.Apply(old(View()), L.EndUpload(upload, id, img, tid))
    {
      uploads := uploads - {upload};
      rows := rows[id := img];
      tasks := tasks[tid := L.Task(id, L.Queued, None, false)];
    }

    method CleanDerivedData(id: Id)
      modifies this`files
      ensures files == Clean(old(files), id)
    {
      files := map p | p in files && !DerivedOf(p, id) :: files[p];
    }

    method RemoveImageFiles(id: Id, filename: string)
      modifies this`files
      ensures files == RemoveFiles(old(files), id, filename)
    {
      files := files - {IsoFile(IsoName(filename))};
      CleanDerivedData(id);
    }

    method RemoveImage(id: Id)
      requires id in rows
      modifies this`rows, this`files
      ensures View() == L.RemoveImage(old(View()), id)
    {
      RemoveImageFiles(id, rows[id].filename);
      rows := rows - {id};
    }

    /** `delete_image`; false when the removal was left to the run. */
    method DeleteImage(id: Id) returns (removed: bool)
      requires id in rows
      modifies this
      ensures View() == L.DeleteImage(old(View()), id)
      ensures removed <==> id !in rows
      ensures forall other | other != id :: other in rows <==> other in old(rows)
    {
      if id in runs && runs[id] !in stops {
        stops := stops + {runs[id]};
        rows := rows[id := rows[id].(status := Deleting)];
        removed := false;
      } else {
        RemoveImage(id);
        removed := true;
      }
    }

    /** `_finish_delete`, in the finally block of a stopped run. */
    method FinishDelete(tid: L.Tid)
      requires tid in tasks
      modifies this
      ensures View() == L.FinishDeletion(old(View()), tid)
    {
      var id, filename := tasks[tid].image, tasks[tid].filename;
      if id in rows {
        if Some(rows[id].filename) == filename {
          RemoveImage(id);
        }
      } else {
        CleanDerivedData(id);
        if filename.Some? && !exists other | other in rows :: rows[other].filename == filename.value {
          files := files - {IsoFile(IsoName(filename.value))};
        }
      }
      tasks := tasks - {tid};
    }

    /** Reprocess on one row; false when the row is busy or gone. */
    method Retry(id: Id, tid: L.Tid) returns (queued: bool)
      modifies this`rows, this`tasks
      ensures View() == L.ReprocessImage(old(View()), id, tid)
      ensures queued <==> id in old(rows) && Resting(old(rows[id].status))
    {
      queued := id in rows && !Busy(rows[id].status);
      if queued {
        rows := rows[id := rows[id].(status := Pending)];
        tasks := tasks[tid := L.Task(id, L.Queued, None, false)];
      }
    }

    /** The ticked rows that exist, each once, in the order ticked. */
    method Ticked(ids: seq<Id>) returns (found: seq<Id>)
      ensures forall id :: id in found <==> id in ids && id in rows
      ensures Distinct(found)
    {
      found := [];
      for i := 0 to |ids|
        invariant forall id :: id in found <==> id in ids[..i] && id in rows
        invariant Distinct(found)
      {
        assert ids[..i + 1] == ids[..i] + [ids[i]];
        if ids[i] in rows && ids[i] !in found {
          found := found + [ids[i]];
        }
      }
      assert ids[..|ids|] == ids;
    }

    /**
     * Reprocess on every ticked row: one commit for all, then one task each. It
     * comes to pressing Reprocess on the rows in `queued` one after another.
     */
    method BulkReprocess(ids: seq<Id>, tid: L.Tid) returns (queued: seq<Id>, skipped: nat)
      modifies this`rows, this`tasks
      ensures forall id :: id in queued <==> id in ids && id in old(rows) && Resting(old(rows)[id].status)
      ensures Distinct(queued) && |queued| + skipped == |set id | id in ids && id in old(rows)|
      ensures View() == ReprocessAll(old(View()), queued, tid)
    {
      var images := Ticked(ids);
      queued := NotBusy(images);
      assert forall id | id in queued :: id in images;
      MarkPending(queued);
      StartTasks(queued, tid);
      forall i | 0 <= i < |queued|
        ensures queued[i] in old(rows) && !Busy(old(rows)[queued[i]].status)
      {
        var id := queued[i];
        assert id in queued;
      }
      ReprocessAllIs(old(View()), queued, tid);
      skipped := |images| - |queued|;
      DistinctSize(images);
      assert (set id | id in images) == set id | id in ids && id in old(rows);
    }

    method NotBusy(images: seq<Id>) returns (queued: seq<Id>)
      requires Distinct(images) && forall id | id in images :: id in rows
      ensures forall id :: id in queued <==> id in images && !Busy(rows[id].status)
      ensures Distinct(queued) && |queued| <= |images|
    {
      queued := [];
      for i := 0 to |images|
        invariant forall id :: id in queued <==> id in images[..i] && !Busy(rows[id].status)
        invariant Distinct(queued) && |queued| <= i
      {
        var id := images[i];
        assert images[..i + 1] == images[..i] + [id] && id in images && id !in images[..i];
        if !Busy(rows[id].status) {
          queued := queued + [id];
        }
      }
      assert images[..|images|] == images;
    }

    method MarkPending(queued: seq<Id>)
      requires Distinct(queued) && forall id | id in queued :: id in rows
      modifies this`rows
      ensures rows == PendingRows(old(rows), queued)
    {
      for i := 0 to |queued|
        invariant rows == PendingRows(old(rows), queued[..i])
      {
        var id := queued[i];
        assert queued[..i + 1] == queued[..i] + [id] && id in queued;
        PendingOneMore(old(rows), queued[..i], id);
        rows := rows[id := rows[id].(status := Pending)];
      }
      assert queued[..|queued|] == queued;
    }

    method StartTasks(queued: seq<Id>, tid: L.Tid)
      modifies this`tasks
      ensures tasks == old(tasks) + NewTasks(queued, tid)
    {
      for i := 0 to |queued|
        invariant tasks == old(tasks) + NewTasks(queued[..i], tid)
      {
        assert queued[..i + 1][..i] == queued[..i];
        TasksOneMore(old(tasks), queued[..i + 1], tid);
        tasks := tasks[tid + i := L.Task(queued[i], L.Queued, None, false)];
      }
      assert queued[..|queued|] == queued;
    }

    /** Delete on every ticked row, each once; how many were left to their runs. */
    method BulkDelete(ids: seq<Id>) returns (images: seq<Id>, waiting: nat)
      modifies this
      ensures forall id :: id in images <==> id in ids && id in old(rows)
      ensures Distinct(images)
      ensures View() == DeleteAll(old(View()), images)
      ensures waiting == |set id | id in images && id in rows|
    {
      images := Ticked(ids);
      waiting := 0;
      ghost var left: set<Id> := {};
      for i := 0 to |images|
        invariant View() == DeleteAll(old(View()), images[..i])
        invariant forall id | id in images[i..] :: id in rows
        invariant LeftOf(left, images[..i], rows) && waiting == |left|
      {
        var id := images[i];
        SplitAt(images, i);
        ghost var before := rows;
        var removed := DeleteImage(id);
        LeftMore(left, images[..i], before, rows, id);
        if !removed {
          left, waiting := left + {id}, waiting + 1;
        }
      }
      assert images[..|images|] == images;
      LeftIs(left, images, rows);
    }

    /** The body of the start-up loop: settle one row, given those `done` before. */
    method SettleRow(id: Id, builtin: Catalog, count: nat, ghost rows0: Rows, ghost files0: Files,
                     ghost late: set<Id>, ghost done: set<Id>) returns (changed: nat, ghost late': set<Id>)
      requires id in rows0 && id !in done
      requires SettledSoFar(rows, files, count, rows0, files0, builtin, late, done)
      modifies this`rows, this`files
      ensures SettledSoFar(rows, files, count + changed, rows0, files0, builtin, late', done + {id})
    {
      late' := LateBy(rows0, files0, builtin, late, done, id);
      LateByIs(rows0, files0, builtin, late, done, id);
      SettleOne(rows0, files0, builtin, late, late', done, id);
      TouchOne(rows0, files0, builtin, late, late', done, id);
      var img := rows[id];
      changed := 0;
      if img.status == Deleting {
        RemoveImageFiles(id, img.filename);
        rows := rows - {id};
        changed := 1;
      } else if InFlight(img.status) || (img.status == Ready && !Bootable(img, id, files, builtin)) {
        rows := rows[id := img.(status := NeedsReprocess)];
        changed := 1;
      }
    }

    /**
     * `reconcile_statuses`: the number of images changed or removed. The order of the rows
     * matters only to the ones that look into the folder of another that is removed.
     */
    method ReconcileStatuses(builtin: Catalog) returns (count: nat, ghost late: set<Id>)
      modifies this`rows, this`files
      ensures LateOk(old(rows), late)
      ensures rows == SettledLate(old(rows), old(files), builtin, late)
      ensures files == SettledFiles(old(rows), old(files))
      ensures count == |Unsettled(old(rows), old(files), builtin) + late|
      ensures NoneLooksIntoDeleted(old(rows)) ==>
                && rows == SettledRows(old(rows), old(files), builtin)
                && count == |Unsettled(old(rows), old(files), builtin)|
    {
      var todo := rows.Keys;
      ghost var done: set<Id> := {};
      count, late := 0, {};
      NoneSettled(rows, files, builtin);
      while todo != {}
        invariant done + todo == old(rows).Keys && done !! todo
        invariant SettledSoFar(rows, files, count, old(rows), old(files), builtin, late, done)
        decreases todo
      {
        assert |todo| != 0;
        var id :| id in todo;
        assert id in old(rows) && id !in done;
        var changed;
        changed, late := SettleRow(id, builtin, count, old(rows), old(files), late, done);
        count := count + changed;
        todo, done := todo - {id}, done + {id};
      }
      assert done == old(rows).Keys;
      EndsSettled(rows, files, count, old(rows), old(files), builtin, late);
    }
  }
}
