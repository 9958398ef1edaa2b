/**
 * Start-up reconciliation: the database survives a restart, the tasks and
 * perhaps the volumes do not.
 */
module StartUp {
  import opened Text
  import opened Decimal
  import opened Store
  import opened BootFiles

  /** What start-up makes of one row that is not being deleted. */
  function Settle(img: Image, id: Id, files: Files, builtin: Catalog): Image {
    if InFlight(img.status) || (img.status == Ready && !Bootable(img, id, files, builtin))
    then img.(status := NeedsReprocess)
    else img
  }

  /** A file of some row whose delete a restart interrupted. */
  predicate OwnedByDeleted(rows: Rows, p: Path) {
    exists id | id in rows ::
      rows[id].status == Deleting && (DerivedOf(p, id) || p == IsoFile(IsoName(rows[id].filename)))
  }

  function SettledRows(rows: Rows, files: Files, builtin: Catalog): Rows {
    map id | id in rows && rows[id].status != Deleting :: Settle(rows[id], id, files, builtin)
  }

  /** The same, where the rows `late` find the folder they look into gone. */
  function SettleInTurn(img: Image, id: Id, files: Files, builtin: Catalog, late: set<Id>): Image {
    if id in late then img.(status := NeedsReprocess) else Settle(img, id, files, builtin)
  }

  /**
   * Start-up goes through the rows in the order of the query. The rows `late` come after
   * one that is removed and whose folder they look into.
   */
  function SettledLate(rows: Rows, files: Files, builtin: Catalog, late: set<Id>): Rows {
    map id | id in rows && rows[id].status != Deleting ::
      SettleInTurn(rows[id], id, files, builtin, late)
  }

  predicate LateOk(rows: Rows, late: set<Id>) {
    forall id | id in late :: id in rows && rows[id].status == Ready && LooksIntoDeleted(rows, id)
  }

  function SettledFiles(rows: Rows, files: Files): Files {
    map p | p in files && !OwnedByDeleted(rows, p) :: files[p]
  }

  /** The rows that start-up changes or removes. */
  function Unsettled(rows: Rows, files: Files, builtin: Catalog): set<Id> {
    set id | id in rows &&
      (rows[id].status == Deleting || Settle(rows[id], id, files, builtin) != rows[id])
  }

  /** The rows `ipxe.render` lists in the boot menu. */
  function Menu(rows: Rows): set<Id> {
    set id | id in rows && rows[id].status == Ready && rows[id].enabled
  }

  /** The row is asked to look in the folder of another whose delete a restart interrupted. */
  predicate LooksIntoDeleted(rows: Rows, id: Id) {
    && id in rows && Astray(rows[id], id).Some? && Astray(rows[id], id).value.Derived?
    && var other := Astray(rows[id], id).value.id; other in rows && rows[other].status == Deleting
  }

  /** No image in the menu looks into such a folder, so the order of the rows does not matter. */
  predicate NoneLooksIntoDeleted(rows: Rows) {
    forall id | id in rows && rows[id].status == Ready :: !LooksIntoDeleted(rows, id)
  }

  lemma FilesKept(rows: Rows, files: Files, id: Id, builtin: Catalog)
    requires id in rows && rows[id].status != Deleting
    ensures Bootable(rows[id], id, SettledFiles(rows, files), builtin)
       <==> Bootable(rows[id], id, files, builtin) && !LooksIntoDeleted(rows, id)
  {
    if LooksIntoDeleted(rows, id) {
      RequiredBelowOwnId(rows[id], id, builtin);
      NothingLeftOf(rows, files, Astray(rows[id], id).value);
    } else {
      AstrayIsNoIso(rows[id], id);
      if Astray(rows[id], id).Some? {
        NothingLost(rows, files, Astray(rows[id], id).value);
      }
      BootableFrame(rows[id], id, files, SettledFiles(rows, files), builtin);
    }
  }

  lemma NothingLeftOf(rows: Rows, files: Files, p: Path)
    requires p.Derived? && p.id in rows && rows[p.id].status == Deleting
    ensures !ExistsNonempty(SettledFiles(rows, files), p)
  {
    forall q | q == p || StrictlyBelow(q, p)
      ensures q !in SettledFiles(rows, files)
    {
      assert DerivedOf(q, p.id);
    }
  }

  lemma NothingLost(rows: Rows, files: Files, p: Path)
    requires p.Derived? || p.Elsewhere?
    requires p.Derived? ==> !(p.id in rows && rows[p.id].status == Deleting)
    ensures SameBelow(files, SettledFiles(rows, files), p)
  {
    forall q | q == p || StrictlyBelow(q, p)
      ensures !OwnedByDeleted(rows, q)
    {
    }
  }

  lemma AstrayIsNoIso(img: Image, id: Id)
    ensures Astray(img, id).Some? ==> Astray(img, id).value.Derived? || Astray(img, id).value.Elsewhere?
  {
  }

  /**
   * After start-up nothing is in flight, and a row is ready iff its files exist;
   * they are still there afterwards unless it looks into a folder that was removed.
   */
  lemma SettledIsSound(rows: Rows, files: Files, builtin: Catalog)
    ensures var rows', files' := SettledRows(rows, files, builtin), SettledFiles(rows, files);
      && (forall id | id in rows' :: Resting(rows'[id].status))
      && (forall id | id in rows && (rows[id].status == Pending || rows[id].status == Processing) ::
            id in rows' && rows'[id] == rows[id].(status := NeedsReprocess))
      && (forall id | id in rows && rows[id].status == Ready ::
            rows'[id].status == Ready <==> Bootable(rows[id], id, files, builtin))
      && (forall id | id in rows' && rows'[id].status == Ready ::
            && rows'[id] == rows[id]
            && (Bootable(rows'[id], id, files', builtin) <==> !LooksIntoDeleted(rows, id)))
      && (forall id | id in rows && rows[id].status in {Error, NeedsReprocess} ::
            id in rows' && rows'[id] == rows[id])
      && (forall id | id in Menu(rows') ::
            Bootable(rows'[id], id, files', builtin) <==> !LooksIntoDeleted(rows, id))
  {
    forall id | id in rows && rows[id].status != Deleting
      ensures Bootable(rows[id], id, SettledFiles(rows, files), builtin)
         <==> Bootable(rows[id], id, files, builtin) && !LooksIntoDeleted(rows, id)
    {
      FilesKept(rows, files, id, builtin);
    }
  }

  /** No row that stays in the menu looks into a folder that start-up removes. */
  predicate NoneAstray(rows: Rows, files: Files, builtin: Catalog) {
    forall id | id in rows && rows[id].status == Ready && Bootable(rows[id], id, files, builtin) ::
      !LooksIntoDeleted(rows, id)
  }

  /** A second start-up finds nothing to do: exactly when no row that stays is led astray. */
  lemma SettledIsStable(rows: Rows, files: Files, builtin: Catalog)
    ensures var rows', files' := SettledRows(rows, files, builtin), SettledFiles(rows, files);
      && (Unsettled(rows', files', builtin) == {} <==> NoneAstray(rows, files, builtin))
      && (NoneAstray(rows, files, builtin) ==> SettledRows(rows', files', builtin) == rows')
      && SettledFiles(rows', files') == files'
  {
    if NoneAstray(rows, files, builtin) {
      StableUnlessAstray(rows, files, builtin);
    } else {
      var id :| id in rows && rows[id].status == Ready && Bootable(rows[id], id, files, builtin)
                && LooksIntoDeleted(rows, id);
      UnstableIfAstray(rows, files, builtin, id);
    }
  }

  lemma StableUnlessAstray(rows: Rows, files: Files, builtin: Catalog)
    requires NoneAstray(rows, files, builtin)
    ensures var rows', files' := SettledRows(rows, files, builtin), SettledFiles(rows, files);
      && Unsettled(rows', files', builtin) == {}
      && SettledRows(rows', files', builtin) == rows' && SettledFiles(rows', files') == files'
  {
    var rows', files' := SettledRows(rows, files, builtin), SettledFiles(rows, files);
    forall id | id in rows'
      ensures rows'[id].status != Deleting && Settle(rows'[id], id, files', builtin) == rows'[id]
    {
      FilesKept(rows, files, id, builtin);
    }
    NothingUnsettled(rows', files', builtin);
  }

  lemma UnstableIfAstray(rows: Rows, files: Files, builtin: Catalog, id: Id)
    requires id in rows && rows[id].status == Ready && Bootable(rows[id], id, files, builtin)
    requires LooksIntoDeleted(rows, id)
    ensures var rows', files' := SettledRows(rows, files, builtin), SettledFiles(rows, files);
      && id in Unsettled(rows', files', builtin) && SettledFiles(rows', files') == files'
  {
    var rows', files' := SettledRows(rows, files, builtin), SettledFiles(rows, files);
    FilesKept(rows, files, id, builtin);
    assert rows'[id] == rows[id];
    NothingDeleted(rows', files');
  }

  lemma NothingDeleted(rows: Rows, files: Files)
    requires forall id | id in rows :: rows[id].status != Deleting
    ensures SettledFiles(rows, files) == files
  {
    assert SettledFiles(rows, files).Keys == files.Keys;
  }

  lemma NothingUnsettled(rows: Rows, files: Files, builtin: Catalog)
    requires forall id | id in rows ::
               rows[id].status != Deleting && Settle(rows[id], id, files, builtin) == rows[id]
    ensures Unsettled(rows, files, builtin) == {}
    ensures SettledRows(rows, files, builtin) == rows && SettledFiles(rows, files) == files
  {
    var rows' := SettledRows(rows, files, builtin);
    forall id | id in rows
      ensures id in rows' && rows'[id] == rows[id]
    {
      assert rows[id].status != Deleting;
    }
    assert SettledFiles(rows, files).Keys == files.Keys;
  }

  /** A row that stays keeps every file of its own, unless its ISO name is shared. */
  lemma SettledKeepsFiles(rows: Rows, files: Files, id: Id)
    requires id in rows && rows[id].status != Deleting
    ensures forall p | p in files && DerivedOf(p, id) ::
              p in SettledFiles(rows, files) && SettledFiles(rows, files)[p] == files[p]
    ensures var iso := IsoFile(IsoName(rows[id].filename));
      iso in files ==>
        (iso in SettledFiles(rows, files) <==>
         forall other | other in rows && IsoName(rows[other].filename) == iso.name ::
           rows[other].status != Deleting)
  {
  }

  /**
   * An image whose arguments say archisobasedir=../7 is kept in the menu by the start-up
   * that removes image 7, and taken out by the one after.
   */
  lemma BasedirLedAstray(rows: Rows, files: Files, builtin: Catalog, dir: string, other: Id)
    requires dir == "../7" && other == 7 && 5 in rows && other in rows && rows[other].status == Deleting
    requires rows[5].status == Ready && rows[5].family == Linux && rows[5].source == FromIso
    requires rows[5].kernelPath == VMLINUZ && rows[5].initrdPath == INITRD
    requires rows[5].bootArgs == [ArchisoBasedir(dir)]
    requires OsFile(5, VMLINUZ) in files && files[OsFile(5, VMLINUZ)] > 0
    requires OsFile(5, INITRD) in files && files[OsFile(5, INITRD)] > 0
    requires OsFile(other, VMLINUZ) in files
    ensures var rows', files' := SettledRows(rows, files, builtin), SettledFiles(rows, files);
      rows'[5].status == Ready && 5 in Unsettled(rows', files', builtin)
  {
    LeadsTo(dir, other);
    var target := OsFile(other, []);
    assert StrictlyBelow(OsFile(other, VMLINUZ), target);
    assert RequiredPaths(rows[5], 5, builtin) == [OsFile(5, VMLINUZ), OsFile(5, INITRD), target];
    assert Bootable(rows[5], 5, files, builtin) && LooksIntoDeleted(rows, 5);
    SettledIsSound(rows, files, builtin);
  }

  lemma LeadsTo(dir: string, other: Id)
    requires dir == "../7" && other == 7
    ensures !OwnFolder(dir) && BasedirPath(5, dir) == OsFile(other, [])
  {
    var up, seven := dir[..2], dir[3..];
    assert dir == up + ['/'] + seven && up == ".." && seven == "7";
    OneStepUp(dir, up, seven);
    assert [up, seven][1..] == [seven] && [up, seven][2..] == [];
    SevenIsANumber(seven);
  }

  lemma OneStepUp(dir: string, up: string, name: string)
    requires dir == up + ['/'] + name && '/' !in up && '/' !in name
    requires up != "" && up != "." && name != "" && name != "."
    ensures Components(dir) == [up, name]
  {
    SplitFirst(up, '/', name);
    SplitNoSeparator(name, '/');
    assert Split(dir, '/') == [up, name];
    assert [up, name][1..] == [name] && [name][1..] == [];
    assert KeepNamed([name]) == [name];
  }

  lemma SevenIsANumber(part: string)
    requires part == "7"
    ensures NamesId(part) && Value(part) == 7
  {
    assert part[..|part| - 1] == "";
    assert Digits(7) == part;
  }
}
