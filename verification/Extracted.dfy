/**
 * What runs leave on disk, and which of it decides whether an image passes the
 * start-up check: the sizes of the files it boots from.
 */
module Extracted {
  import opened Text
  import opened Store
  import opened BootFiles
  import opened IsoLayout

  /** How the outside tools behave in this run. */
  datatype Tools = Tools(
    listOk: bool,             // the ISO can be listed
    broken: set<string>,      // members that cannot be read
    treeOk: bool,             // the ISO can be unpacked
    patchOk: bool,            // boot.wim can be patched
    grubOk: bool,             // a GRUB image can be built
    xenSize: nat,             // xen.gz decompressed
    grubSize: nat)

  /** What a catalog image's sources yield: the size of each file, by where it goes. */
  datatype Sources = Sources(
    fetched: map<Rel, nat>,   // a missing key is a file that cannot be had
    isKernel: bool,           // the fetched kernel is one
    archive: Option<nat>,     // the size of the archive or live ISO, if it can be downloaded
    iso: Iso)                 // the live ISO, for a desktop served over NFS

  predicate NoneDerived(files: Files, id: Id) {
    forall p | p in files :: !DerivedOf(p, id)
  }

  /** A catalog image's archive or live ISO. */
  function ArchiveOf(img: Image): Path {
    IsoFile(IsoName(img.filename))
  }

  /** And while it is being downloaded. */
  function PartOf(img: Image): Path {
    PartFile(IsoName(img.filename))
  }

  /** Only files derived for `id` have changed, and for a catalog image its archive; a .part file has only gone. */
  ghost predicate OnlyRun(files: Files, files': Files, id: Id, img: Image) {
    && (forall p | !DerivedOf(p, id) && !(img.source == FromCatalog && (p == ArchiveOf(img) || p == PartOf(img))) ::
          (p in files <==> p in files') && (p in files ==> files'[p] == files[p]))
    && (PartOf(img) in files' ==> PartOf(img) in files && files'[PartOf(img)] == files[PartOf(img)])
  }

  lemma OwnAfterRun(files: Files, mid: Files, files': Files, id: Id, img: Image, img': Image)
    requires OnlyRun(files, mid, id, img) && OnlyOwn(mid, files', id)
    requires img'.filename == img.filename && img'.source == img.source
    ensures OnlyRun(files, files', id, img')
    ensures ArchiveOf(img') in files' <==> ArchiveOf(img) in mid
  {
  }

  /** Only files derived for `id` have changed. */
  ghost predicate OnlyOwn(files: Files, files': Files, id: Id) {
    forall p | !DerivedOf(p, id) ::
      (p in files <==> p in files') && (p in files ==> files'[p] == files[p])
  }

  ghost predicate OnlyFile(files: Files, files': Files, file: Path) {
    forall p | p != file :: (p in files <==> p in files') && (p in files ==> files'[p] == files[p])
  }

  // --- Unpacking a whole ISO -----------------------------------------------

  predicate InTree(p: Path, tree: Tree, id: Id) {
    p.Derived? && p.tree == tree && p.id == id
  }

  function DropTree(files: Files, tree: Tree, id: Id): Files {
    map p | p in files && !InTree(p, tree, id) :: files[p]
  }

  function Unpack(files: Files, iso: Iso, entries: seq<string>, tree: Tree, id: Id): Files
    decreases entries
  {
    if entries == [] then files
    else if entries[0] in iso.members then
      var p := Derived(tree, id, Components(entries[0]));
      Unpack(files[p := iso.members[entries[0]]], iso, entries[1..], tree, id)
    else Unpack(files, iso, entries[1..], tree, id)
  }

  /** The size of the file that ends up at `rel`: the last one listed for it. */
  function SizeAt(iso: Iso, entries: seq<string>, rel: Rel): (size: Option<nat>)
    ensures size.Some? <==> Comes(iso, entries, rel)
  {
    if entries == [] then None
    else
      var later := SizeAt(iso, entries[1..], rel);
      if later.Some? then later
      else if entries[0] in iso.members && Components(entries[0]) == rel then Some(iso.members[entries[0]])
      else
        assert forall e | e in entries :: e == entries[0] || e in entries[1..];
        None
  }

  /** A file of the ISO is unpacked to `rel`. */
  predicate Comes(iso: Iso, entries: seq<string>, rel: Rel) {
    exists e | e in entries :: e in iso.members && Components(e) == rel
  }

  /** The unpacked tree holds the files of the ISO, with their sizes, and nothing else changes. */
  lemma {:induction false} UnpackHolds(
      files: Files, iso: Iso, entries: seq<string>, tree: Tree, id: Id, p: Path)
    ensures var r := Unpack(files, iso, entries, tree, id);
      var size := if InTree(p, tree, id) then SizeAt(iso, entries, p.rel) else None;
      if size.Some? then p in r && r[p] == size.value
      else (p in r <==> p in files) && (p in files ==> r[p] == files[p])
    decreases entries
  {
    if entries != [] {
      var e := entries[0];
      if e in iso.members {
        var q := Derived(tree, id, Components(e));
        UnpackHolds(files[q := iso.members[e]], iso, entries[1..], tree, id, p);
      } else {
        UnpackHolds(files, iso, entries[1..], tree, id, p);
      }
    }
  }

  function Unpacked(files: Files, iso: Iso, tree: Tree, id: Id): Files {
    Unpack(DropTree(files, tree, id), iso, iso.entries, tree, id)
  }

  lemma UnpackedElsewhere(files: Files, iso: Iso, tree: Tree, id: Id)
    ensures var r := Unpacked(files, iso, tree, id);
      forall p | !InTree(p, tree, id) :: (p in r <==> p in files) && (p in files ==> r[p] == files[p])
  {
    forall p | !InTree(p, tree, id)
      ensures var r := Unpacked(files, iso, tree, id);
        (p in r <==> p in files) && (p in files ==> r[p] == files[p])
    {
      UnpackHolds(DropTree(files, tree, id), iso, iso.entries, tree, id, p);
    }
  }

  /** An ISO with any file in it gives a folder with something in it. */
  lemma UnpackedNonempty(files: Files, iso: Iso, tree: Tree, id: Id)
    ensures ExistsNonempty(Unpacked(files, iso, tree, id), Derived(tree, id, [])) <==> iso.members != map[]
  {
    var r, top := Unpacked(files, iso, tree, id), Derived(tree, id, []);
    if iso.members != map[] {
      var e :| e in iso.members;
      var p := Derived(tree, id, Components(e));
      UnpackHolds(DropTree(files, tree, id), iso, iso.entries, tree, id, p);
      assert Comes(iso, iso.entries, p.rel);
      assert p in r && StrictlyBelow(p, top);
    }
    forall q | q in r && InTree(q, tree, id)
      ensures iso.members != map[]
    {
      UnpackHolds(DropTree(files, tree, id), iso, iso.entries, tree, id, q);
    }
  }

  // --- What is below os/<id> -----------------------------------------------

  /** The files of `id` below os/<id> are exactly these, by name and size. */
  ghost predicate HoldsOs(files: Files, id: Id, held: map<Rel, nat>) {
    forall p | InTree(p, Os, id) ::
      (p in files <==> p.rel in held) && (p in files ==> files[p] == held[p.rel])
  }

  lemma HoldsNone(files: Files, id: Id)
    requires forall p | p in files :: !InTree(p, Os, id)
    ensures HoldsOs(files, id, map[])
  {
  }

  lemma HoldsMore(files: Files, id: Id, held: map<Rel, nat>, rel: Rel, size: nat)
    requires HoldsOs(files, id, held)
    ensures HoldsOs(files[OsFile(id, rel) := size], id, held[rel := size])
  {
  }

  predicate Below(held: map<Rel, nat>, rel: Rel) {
    exists name | name in held :: rel < name
  }

  /** What start-up asks for at `want` is met: by a file with content, or by files below it. */
  predicate Served(want: Rel, held: map<Rel, nat>) {
    (want in held && held[want] > 0) || Below(held, want)
  }

  lemma ServedIff(files: Files, id: Id, held: map<Rel, nat>, want: Rel)
    requires HoldsOs(files, id, held)
    ensures ExistsNonempty(files, OsFile(id, want)) <==> Served(want, held)
  {
    var target := OsFile(id, want);
    assert InTree(target, Os, id);
    if Below(held, want) {
      var rel :| rel in held && want < rel;
      var p := OsFile(id, rel);
      assert InTree(p, Os, id) && p in files && StrictlyBelow(p, target);
    }
    if q :| q in files && StrictlyBelow(q, target) {
      assert InTree(q, Os, id) && q.rel in held;
    }
  }

  /** Members written one after another to the places named, the last one to a place staying. */
  function Placed(held: map<Rel, nat>, wanted: seq<(string, Rel)>, iso: Iso): map<Rel, nat> {
    if wanted == [] then held
    else
      var n := |wanted| - 1;
      var before := Placed(held, wanted[..n], iso);
      if wanted[n].0 in iso.members then before[wanted[n].1 := iso.members[wanted[n].0]] else before
  }

  /** What is written elsewhere changes nothing at `want`. */
  lemma {:induction false} PlacedApart(held: map<Rel, nat>, wanted: seq<(string, Rel)>, iso: Iso, want: Rel)
    requires forall f | f in wanted :: !(want <= f.1)
    ensures Served(want, Placed(held, wanted, iso)) <==> Served(want, held)
  {
    if wanted != [] {
      var n := |wanted| - 1;
      assert forall f | f in wanted[..n] :: f in wanted;
      PlacedApart(held, wanted[..n], iso, want);
      assert wanted[n] in wanted;
      if wanted[n].0 in iso.members {
        OneApart(Placed(held, wanted[..n], iso), wanted[n].1, iso.members[wanted[n].0], want);
      }
    }
  }

  lemma OneApart(held: map<Rel, nat>, rel: Rel, size: nat, want: Rel)
    requires !(want <= rel)
    ensures Served(want, held[rel := size]) <==> Served(want, held)
  {
    var after := held[rel := size];
    assert forall name | want < name :: name in after <==> name in held;
    assert Below(after, want) <==> Below(held, want);
  }

  /** Two files of one component each, and others elsewhere. */
  lemma BothServed(a: Rel, x: nat, b: Rel, y: nat, wanted: seq<(string, Rel)>, iso: Iso)
    requires a != b && |a| == |b| == 1
    requires forall f | f in wanted :: !(a <= f.1) && !(b <= f.1)
    ensures Served(a, Placed(map[a := x, b := y], wanted, iso)) <==> x > 0
    ensures Served(b, Placed(map[a := x, b := y], wanted, iso)) <==> y > 0
  {
    PlacedApart(map[a := x, b := y], wanted, iso, a);
    PlacedApart(map[a := x, b := y], wanted, iso, b);
    assert !Below(map[a := x, b := y], a) && !Below(map[a := x, b := y], b);
  }

  lemma {:induction false} PlacedThere(held: map<Rel, nat>, wanted: seq<(string, Rel)>, iso: Iso, i: nat)
    requires i < |wanted| && wanted[i].0 in iso.members
    ensures wanted[i].1 in Placed(held, wanted, iso)
  {
    var n := |wanted| - 1;
    if i < n {
      assert wanted[..n][i] == wanted[i];
      PlacedThere(held, wanted[..n], iso, i);
    }
  }

  // --- Windows ISOs --------------------------------------------------------

  /** The WinPE boot files. */
  const WINDOWS_FILES: seq<Rel> := [BOOT_MGR, BCD, BOOT_SDI, BOOT_WIM]

  /** Where the ISO has this boot file. */
  function WindowsMember(iso: Iso, file: Rel): Option<string> {
    FirstFit(iso.entries, WindowsPattern(file))
  }

  function WindowsSize(iso: Iso, file: Rel): Option<nat> {
    var member := WindowsMember(iso, file);
    if member.Some? && member.value in iso.members then Some(iso.members[member.value]) else None
  }

  /** These boot files, as far as the ISO has them. */
  function WindowsHeld(iso: Iso, files: seq<Rel>): map<Rel, nat> {
    Held(files, file => WindowsSize(iso, file))
  }

  /** The files of these names that have a size. */
  function Held(files: seq<Rel>, size: Rel -> Option<nat>): map<Rel, nat> {
    if files == [] then map[]
    else
      var n := |files| - 1;
      var before := Held(files[..n], size);
      if size(files[n]).Some? then before[files[n] := size(files[n]).value] else before
  }

  lemma {:induction false} HeldAt(files: seq<Rel>, size: Rel -> Option<nat>, file: Rel)
    ensures var held := Held(files, size);
      && (file in held <==> file in files && size(file).Some?)
      && (file in held ==> Some(held[file]) == size(file))
  {
    if files != [] {
      HeldAt(files[..|files| - 1], size, file);
    }
  }

  lemma OneMoreHeld(files: seq<Rel>, size: Rel -> Option<nat>, i: nat)
    requires i < |files| && size(files[i]).Some?
    ensures Held(files[..i + 1], size) == Held(files[..i], size)[files[i] := size(files[i]).value]
  {
    assert files[..i + 1][..i] == files[..i];
  }

  /** The boot file has content. */
  predicate WindowsFilled(iso: Iso, file: Rel) {
    WindowsSize(iso, file).Some? && WindowsSize(iso, file).value > 0
  }

  /** All four do: what a Windows ISO that can be read takes to be bootable. */
  predicate WindowsBoots(iso: Iso) {
    forall k | 0 <= k < |WINDOWS_FILES| :: WindowsFilled(iso, WINDOWS_FILES[k])
  }

  lemma WindowsServed(iso: Iso, files: seq<Rel>, k: nat)
    requires k < |files| && forall i | 0 <= i < |files| :: |files[i]| == 1
    ensures Served(files[k], WindowsHeld(iso, files)) <==> WindowsFilled(iso, files[k])
  {
    HeldAt(files, file => WindowsSize(iso, file), files[k]);
    forall rel | rel in WindowsHeld(iso, files)
      ensures !(files[k] < rel)
    {
      HeldAt(files, file => WindowsSize(iso, file), rel);
    }
  }

  lemma WindowsBootable(img: Image, id: Id, iso: Iso, files: Files, builtin: Catalog)
    requires img.family == Windows && img.kernelPath == BOOT_WIM && img.initrdPath == BOOT_MGR
    requires HoldsOs(files, id, WindowsHeld(iso, WINDOWS_FILES)) && ExistsNonempty(files, Derived(Smb, id, []))
    ensures Bootable(img, id, files, builtin) <==> WindowsBoots(iso)
  {
    var held := WindowsHeld(iso, WINDOWS_FILES);
    forall k | 0 <= k < |WINDOWS_FILES|
      ensures ExistsNonempty(files, OsFile(id, WINDOWS_FILES[k])) <==> WindowsFilled(iso, WINDOWS_FILES[k])
    {
      WindowsServed(iso, WINDOWS_FILES, k);
      ServedIff(files, id, held, WINDOWS_FILES[k]);
    }
    WindowsNeeds(img, id, files, builtin);
  }

  lemma WindowsNeeds(img: Image, id: Id, files: Files, builtin: Catalog)
    requires img.family == Windows && img.kernelPath == BOOT_WIM && img.initrdPath == BOOT_MGR
    ensures Bootable(img, id, files, builtin) <==>
            && ExistsNonempty(files, Derived(Smb, id, []))
            && forall k | 0 <= k < |WINDOWS_FILES| :: ExistsNonempty(files, OsFile(id, WINDOWS_FILES[k]))
  {
    assert WINDOWS_FILES[0] == BOOT_MGR && WINDOWS_FILES[1] == BCD;
    assert WINDOWS_FILES[2] == BOOT_SDI && WINDOWS_FILES[3] == BOOT_WIM;
    assert RequiredPaths(img, id, builtin)
        == [OsFile(id, BOOT_WIM), OsFile(id, BOOT_MGR), OsFile(id, BCD), OsFile(id, BOOT_SDI), Derived(Smb, id, [])];
  }

  // --- Linux ISOs ----------------------------------------------------------

  /** The ISO carries the installer's stage 2 with content, or something in a folder of that name. */
  predicate HasInstallImg(iso: Iso) {
    || (exists e | e in iso.members :: TREE_INSTALL_IMG < Components(e))
    || (var size := SizeAt(iso, iso.entries, TREE_INSTALL_IMG); size.Some? && size.value > 0)
  }

  /** The plan boots the distro's installer from the unpacked ISO. */
  predicate BootsInstaller(iso: Iso, id: Id) {
    InstallerSource(NetbootPlan(iso.entries, id).args).Some?
  }

  /** What the arguments of a plan ask for is what the plan provides. */
  ghost predicate Consistent(plan: Plan) {
    && (plan.needsNfs <==> NetbootNfs in plan.args || InstallerSource(plan.args).Some?)
    && (NetbootNfs in plan.args ==> InstallerSource(plan.args).None?)
    && InstallerSource(plan.args) in {None, Some(true)}
    && (plan.needsNfs ==> RdLiveImage !in plan.args && Basedir(plan.args).None? && plan.httpFiles == [])
    && (RdLiveImage in plan.args ==> |plan.httpFiles| == 1 && plan.httpFiles[0].1 == SQUASHFS_IMG)
    && (Basedir(plan.args).Some? ==>
          && OwnFolder(Basedir(plan.args).value) && |plan.httpFiles| > 0
          && Components(Basedir(plan.args).value) < plan.httpFiles[0].1)
    && forall f | f in plan.httpFiles :: !(VMLINUZ <= f.1) && !(INITRD <= f.1)
  }

  lemma PlanConsistent(entries: seq<string>, id: Id)
    ensures Consistent(NetbootPlan(entries, id))
  {
    forall boot {
      NfsRootConsistent(boot, id);
    }
    forall isRepo {
      InstallerConsistent(isRepo);
    }
    forall member {
      SquashfsConsistent(member, id);
    }
    var sfs := FirstFit(entries, AIROOTFS_PATTERN);
    if sfs.Some? {
      var sha := FirstFit(entries, SHA512_PATTERN);
      AirootfsBelowBasedir(StripDots(sfs.value));
      if sha.Some? {
        AirootfsBelowBasedir(StripDots(sha.value));
      }
      ArchisoConsistent(sfs.value, sha, id);
    }
  }

  lemma NfsRootConsistent(boot: string, id: Id)
    ensures Consistent(NfsRootPlan(boot, id))
  {
    assert NfsRootPlan(boot, id).args[1] == NetbootNfs;
  }

  lemma InstallerConsistent(isRepo: bool)
    ensures Consistent(InstallerPlan(isRepo))
  {
  }

  lemma SquashfsConsistent(member: string, id: Id)
    ensures Consistent(SquashfsPlan(member, id))
  {
    KernelNames();
  }

  lemma ArchisoConsistent(sfs: string, sha: Option<string>, id: Id)
    requires BelowArch(StripDots(sfs)) && (sha.Some? ==> BelowArch(StripDots(sha.value)))
    ensures Consistent(ArchisoPlan(sfs, sha, id))
  {
    OneComponent(FirstPart(StripDots(sfs)));
    NotBelowKernel(StripDots(sfs));
    if sha.Some? {
      NotBelowKernel(StripDots(sha.value));
    }
    assert ArchisoPlan(sfs, sha, id).args[1..][0] == ArchisoBasedir(FirstPart(StripDots(sfs)));
  }

  lemma NotBelowKernel(s: string)
    requires BelowArch(s)
    ensures !(VMLINUZ <= Components(s)) && !(INITRD <= Components(s))
  {
    assert |VMLINUZ[0]| == 7 && |INITRD[0]| == 6 && |Components(s)[0]| == 4;
  }

  /** The unpacked ISO has something at images/install.img exactly when the ISO does. */
  lemma InstallImgUnpacked(before: Files, iso: Iso, id: Id)
    ensures ExistsNonempty(Unpacked(before, iso, Nfs, id), Derived(Nfs, id, TREE_INSTALL_IMG))
       <==> HasInstallImg(iso)
  {
    var r, target := Unpacked(before, iso, Nfs, id), Derived(Nfs, id, TREE_INSTALL_IMG);
    forall p | InTree(p, Nfs, id)
      ensures p in r <==> Comes(iso, iso.entries, p.rel)
    {
      UnpackHolds(DropTree(before, Nfs, id), iso, iso.entries, Nfs, id, p);
    }
    UnpackHolds(DropTree(before, Nfs, id), iso, iso.entries, Nfs, id, target);
    if e :| e in iso.members && TREE_INSTALL_IMG < Components(e) {
      var p := Derived(Nfs, id, Components(e));
      assert Comes(iso, iso.entries, p.rel) && InTree(p, Nfs, id);
      assert p in r && StrictlyBelow(p, target);
    }
    if q :| q in r && StrictlyBelow(q, target) {
      assert InTree(q, Nfs, id) && Comes(iso, iso.entries, q.rel);
    }
  }

  /** The member can be read. */
  predicate Readable(iso: Iso, tools: Tools, member: string) {
    member in iso.members && member !in tools.broken
  }

  /** The kernel that is taken off the ISO. */
  function KernelOf(iso: Iso): (r: Option<string>)
    ensures r.Some? ==> r.value in iso.entries
  {
    Match(iso.entries, KERNEL_PATTERNS)
  }

  /** And the initrd. */
  function InitrdOf(iso: Iso): (r: Option<string>)
    ensures r.Some? ==> r.value in iso.entries
  {
    var initrd := Match(iso.entries, INITRD_PATTERNS);
    if KernelOf(iso).None? || initrd.None? then None
    else Some(PairInitrd(KernelOf(iso).value, initrd.value, iso.entries))
  }

  /** A kernel and an initrd are found and can be read. */
  predicate HasKernel(iso: Iso, tools: Tools) {
    && InitrdOf(iso).Some?
    && Readable(iso, tools, KernelOf(iso).value) && Readable(iso, tools, InitrdOf(iso).value)
  }

  /** What a Linux ISO takes to become ready. */
  predicate LinuxReady(iso: Iso, tools: Tools, id: Id) {
    var plan := NetbootPlan(iso.entries, id);
    && HasKernel(iso, tools)
    && if plan.needsNfs then tools.treeOk
       else forall i | 0 <= i < |plan.httpFiles| :: Readable(iso, tools, plan.httpFiles[i].0)
  }

  /** The WinPE boot file is on the ISO and can be read. */
  predicate HasWindowsFile(iso: Iso, tools: Tools, file: Rel) {
    WindowsMember(iso, file).Some? && Readable(iso, tools, WindowsMember(iso, file).value)
  }

  predicate HasWindowsFiles(iso: Iso, tools: Tools, files: seq<Rel>) {
    forall k | 0 <= k < |files| :: HasWindowsFile(iso, tools, files[k])
  }

  lemma OneMoreFile(iso: Iso, tools: Tools, files: seq<Rel>, i: nat)
    requires i < |files| && HasWindowsFiles(iso, tools, files[..i])
    ensures HasWindowsFiles(iso, tools, files[..i + 1]) <==> HasWindowsFile(iso, tools, files[i])
    ensures !HasWindowsFile(iso, tools, files[i]) ==> !HasWindowsFiles(iso, tools, files)
  {
    assert files[..i + 1] == files[..i] + [files[i]];
  }

  predicate WindowsReady(iso: Iso, tools: Tools) {
    HasWindowsFiles(iso, tools, WINDOWS_FILES) && tools.treeOk && tools.patchOk
  }

  predicate XcpngReady(iso: Iso, tools: Tools) {
    && Readable(iso, tools, "boot/xen.gz") && Readable(iso, tools, "boot/vmlinuz")
    && Readable(iso, tools, "install.img") && tools.grubOk
  }

  /** The two files every Linux run extracts. */
  function KernelHeld(iso: Iso): map<Rel, nat>
    requires InitrdOf(iso).Some? && KernelOf(iso).value in iso.members && InitrdOf(iso).value in iso.members
  {
    map[VMLINUZ := iso.members[KernelOf(iso).value], INITRD := iso.members[InitrdOf(iso).value]]
  }

  lemma PairHolds(files: Files, id: Id, kernel: nat, initrd: nat)
    requires NoneDerived(files, id)
    ensures HoldsOs(files[OsFile(id, VMLINUZ) := kernel][OsFile(id, INITRD) := initrd], id,
                    map[VMLINUZ := kernel, INITRD := initrd])
  {
    HoldsNone(files, id);
    HoldsMore(files, id, map[], VMLINUZ, kernel);
    HoldsMore(files[OsFile(id, VMLINUZ) := kernel], id, map[][VMLINUZ := kernel], INITRD, initrd);
    assert map[][VMLINUZ := kernel][INITRD := initrd] == map[VMLINUZ := kernel, INITRD := initrd];
  }

  /**
   * What a Linux ISO that can be read takes to be bootable: a kernel and an initrd with
   * content, the installer's stage 2 if its arguments name the installer's source, and a
   * squashfs with content if they say rd.live.image.
   */
  predicate LinuxBoots(iso: Iso, id: Id) {
    && InitrdOf(iso).Some? && HasContent(iso, KernelOf(iso).value) && HasContent(iso, InitrdOf(iso).value)
    && RootBoots(iso, NetbootPlan(iso.entries, id))
  }

  predicate RootBoots(iso: Iso, plan: Plan) {
    && (InstallerSource(plan.args).Some? ==> HasInstallImg(iso))
    && (RdLiveImage in plan.args ==> forall i | 0 <= i < |plan.httpFiles| :: HasContent(iso, plan.httpFiles[i].0))
  }

  /** The files of a plan are there, and with the kernel's all there is below os/<id>. */
  ghost predicate LinuxExtracted(files: Files, id: Id, iso: Iso, plan: Plan) {
    && InitrdOf(iso).Some? && KernelOf(iso).value in iso.members && InitrdOf(iso).value in iso.members
    && (forall i | 0 <= i < |plan.httpFiles| :: plan.httpFiles[i].0 in iso.members)
    && HoldsOs(files, id, Placed(KernelHeld(iso), plan.httpFiles, iso))
  }

  lemma LinuxBootable(img: Image, id: Id, iso: Iso, before: Files, files: Files, builtin: Catalog)
    requires var plan := NetbootPlan(iso.entries, id);
      && img.family == Linux && img.source == FromIso && img.bootArgs == plan.args
      && img.kernelPath == VMLINUZ && img.initrdPath == INITRD
      && LinuxExtracted(files, id, iso, plan)
      && (plan.needsNfs ==> files == Unpacked(before, iso, Nfs, id))
    ensures Bootable(img, id, files, builtin) <==> LinuxBoots(iso, id)
  {
    var plan := NetbootPlan(iso.entries, id);
    PlanConsistent(iso.entries, id);
    KernelServed(files, id, iso, plan);
    LinuxNeeds(img, id, files, builtin);
    RootMet(img, id, iso, plan, before, files, builtin);
  }

  lemma RootMet(img: Image, id: Id, iso: Iso, plan: Plan, before: Files, files: Files, builtin: Catalog)
    requires img.source == FromIso && img.bootArgs == plan.args
    requires LinuxExtracted(files, id, iso, plan) && Consistent(plan) && iso.members != map[]
    requires plan.needsNfs ==> files == Unpacked(before, iso, Nfs, id)
    ensures (forall p | p in LinuxPaths(img, id, builtin) :: ExistsNonempty(files, p)) <==> RootBoots(iso, plan)
  {
    if plan.needsNfs {
      UnpackedMet(img, id, iso, plan.args, before, builtin);
    } else {
      HttpBootable(img, id, iso, files, plan, builtin);
    }
  }

  lemma UnpackedMet(img: Image, id: Id, iso: Iso, args: seq<Arg>, before: Files, builtin: Catalog)
    requires img.source == FromIso && img.bootArgs == args && iso.members != map[]
    requires NetbootNfs in args <==> InstallerSource(args) != Some(true)
    requires InstallerSource(args) in {None, Some(true)} && RdLiveImage !in args && Basedir(args).None?
    ensures (forall p | p in LinuxPaths(img, id, builtin) :: ExistsNonempty(Unpacked(before, iso, Nfs, id), p)) <==>
            (InstallerSource(args).Some? ==> HasInstallImg(iso))
  {
    UnpackedNonempty(before, iso, Nfs, id);
    InstallImgUnpacked(before, iso, id);
    UnpackedPath(img, id, args, builtin);
  }

  lemma UnpackedPath(img: Image, id: Id, args: seq<Arg>, builtin: Catalog)
    requires img.source == FromIso && img.bootArgs == args
    requires NetbootNfs in args <==> InstallerSource(args) != Some(true)
    requires InstallerSource(args) in {None, Some(true)} && RdLiveImage !in args && Basedir(args).None?
    ensures LinuxPaths(img, id, builtin)
         == [if NetbootNfs in args then Derived(Nfs, id, []) else Derived(Nfs, id, TREE_INSTALL_IMG)]
  {
  }

  /** Whatever else is streamed, the kernel and the initrd are as they are on the ISO. */
  lemma KernelServed(files: Files, id: Id, iso: Iso, plan: Plan)
    requires LinuxExtracted(files, id, iso, plan) && Consistent(plan)
    ensures ExistsNonempty(files, OsFile(id, VMLINUZ)) <==> HasContent(iso, KernelOf(iso).value)
    ensures ExistsNonempty(files, OsFile(id, INITRD)) <==> HasContent(iso, InitrdOf(iso).value)
  {
    var held := Placed(KernelHeld(iso), plan.httpFiles, iso);
    var kernel, initrd := iso.members[KernelOf(iso).value], iso.members[InitrdOf(iso).value];
    KernelNames();
    BothServed(VMLINUZ, kernel, INITRD, initrd, plan.httpFiles, iso);
    ServedIff(files, id, held, VMLINUZ);
    ServedIff(files, id, held, INITRD);
  }

  lemma KernelNames()
    ensures |VMLINUZ| == |INITRD| == |SQUASHFS_IMG| == 1 && VMLINUZ != INITRD
    ensures !(VMLINUZ <= SQUASHFS_IMG) && !(INITRD <= SQUASHFS_IMG)
  {
    assert |VMLINUZ[0]| == 7 && |INITRD[0]| == 6 && |SQUASHFS_IMG[0]| == 12;
  }

  lemma LinuxNeeds(img: Image, id: Id, files: Files, builtin: Catalog)
    requires img.family == Linux && img.kernelPath == VMLINUZ && img.initrdPath == INITRD
    ensures Bootable(img, id, files, builtin) <==>
            && ExistsNonempty(files, OsFile(id, VMLINUZ)) && ExistsNonempty(files, OsFile(id, INITRD))
            && forall p | p in LinuxPaths(img, id, builtin) :: ExistsNonempty(files, p)
  {
    assert RequiredPaths(img, id, builtin)
        == [OsFile(id, VMLINUZ)] + [OsFile(id, INITRD)] + LinuxPaths(img, id, builtin);
  }

  /** An image whose root is streamed has it wherever its arguments look, unless its squashfs is empty. */
  lemma HttpBootable(img: Image, id: Id, iso: Iso, files: Files, plan: Plan, builtin: Catalog)
    requires img.source == FromIso && img.bootArgs == plan.args
    requires NetbootNfs !in plan.args && InstallerSource(plan.args).None?
    requires LinuxExtracted(files, id, iso, plan) && Consistent(plan)
    ensures (forall p | p in LinuxPaths(img, id, builtin) :: ExistsNonempty(files, p)) <==>
            (RdLiveImage in plan.args ==> forall i | 0 <= i < |plan.httpFiles| :: HasContent(iso, plan.httpFiles[i].0))
  {
    if RdLiveImage in plan.args {
      SquashfsServed(files, id, iso, plan);
    }
    if Basedir(plan.args).Some? {
      BasedirServed(files, id, iso, plan);
    }
    StreamedMet(img, id, files, plan.args, builtin);
  }

  lemma StreamedMet(img: Image, id: Id, files: Files, args: seq<Arg>, builtin: Catalog)
    requires img.source == FromIso && img.bootArgs == args && NetbootNfs !in args && InstallerSource(args).None?
    requires Basedir(args).Some? ==> ExistsNonempty(files, BasedirPath(id, Basedir(args).value))
    ensures (forall p | p in LinuxPaths(img, id, builtin) :: ExistsNonempty(files, p)) <==>
            (RdLiveImage in args ==> ExistsNonempty(files, OsFile(id, SQUASHFS_IMG)))
  {
    var squashfs := if RdLiveImage in args then [OsFile(id, SQUASHFS_IMG)] else [];
    var folder := if Basedir(args).Some? then [BasedirPath(id, Basedir(args).value)] else [];
    HttpPaths(img, id, builtin, args);
    BothMet(files, squashfs, folder);
  }

  lemma HttpPaths(img: Image, id: Id, builtin: Catalog, args: seq<Arg>)
    requires img.source == FromIso && img.bootArgs == args && NetbootNfs !in args && InstallerSource(args).None?
    ensures LinuxPaths(img, id, builtin)
         == (if RdLiveImage in args then [OsFile(id, SQUASHFS_IMG)] else [])
          + (if Basedir(args).Some? then [BasedirPath(id, Basedir(args).value)] else [])
  {
  }

  lemma BothMet(files: Files, some: seq<Path>, more: seq<Path>)
    ensures (forall p | p in some + more :: ExistsNonempty(files, p)) <==>
            && (forall i | 0 <= i < |some| :: ExistsNonempty(files, some[i]))
            && (forall i | 0 <= i < |more| :: ExistsNonempty(files, more[i]))
  {
    forall i | 0 <= i < |some|
      ensures some[i] in some + more
    {
      assert (some + more)[i] == some[i];
    }
    forall i | 0 <= i < |more|
      ensures more[i] in some + more
    {
      assert (some + more)[|some| + i] == more[i];
    }
  }

  lemma SquashfsServed(files: Files, id: Id, iso: Iso, plan: Plan)
    requires LinuxExtracted(files, id, iso, plan) && Consistent(plan) && RdLiveImage in plan.args
    ensures ExistsNonempty(files, OsFile(id, SQUASHFS_IMG)) <==>
            forall i | 0 <= i < |plan.httpFiles| :: HasContent(iso, plan.httpFiles[i].0)
  {
    HeldIsShort(iso);
    SquashfsHeld(files, id, KernelHeld(iso), plan.httpFiles, iso, SQUASHFS_IMG);
  }

  lemma SquashfsHeld(
      files: Files, id: Id, held: map<Rel, nat>, wanted: seq<(string, Rel)>, iso: Iso, squashfs: Rel)
    requires HoldsOs(files, id, Placed(held, wanted, iso)) && forall rel | rel in held :: |rel| == 1
    requires |wanted| == 1 && wanted[0].0 in iso.members && wanted[0].1 == squashfs && |squashfs| == 1
    ensures ExistsNonempty(files, OsFile(id, squashfs)) <==>
            forall i | 0 <= i < |wanted| :: HasContent(iso, wanted[i].0)
  {
    ServedIff(files, id, Placed(held, wanted, iso), squashfs);
    OnlyPlaced(held, wanted, iso);
  }

  lemma HeldIsShort(iso: Iso)
    requires InitrdOf(iso).Some? && KernelOf(iso).value in iso.members && InitrdOf(iso).value in iso.members
    ensures (forall rel | rel in KernelHeld(iso) :: |rel| == 1) && |SQUASHFS_IMG| == 1
  {
    KernelNames();
  }

  lemma OnlyPlaced(held: map<Rel, nat>, wanted: seq<(string, Rel)>, iso: Iso)
    requires |wanted| == 1 && wanted[0].0 in iso.members && |wanted[0].1| == 1
    requires forall rel | rel in held :: |rel| == 1
    ensures Served(wanted[0].1, Placed(held, wanted, iso)) <==>
            forall i | 0 <= i < |wanted| :: HasContent(iso, wanted[i].0)
  {
    assert wanted[..0] == [];
    assert Placed(held, wanted, iso) == held[wanted[0].1 := iso.members[wanted[0].0]];
    assert !Below(held[wanted[0].1 := iso.members[wanted[0].0]], wanted[0].1);
  }

  lemma BasedirServed(files: Files, id: Id, iso: Iso, plan: Plan)
    requires LinuxExtracted(files, id, iso, plan) && Consistent(plan) && Basedir(plan.args).Some?
    ensures ExistsNonempty(files, BasedirPath(id, Basedir(plan.args).value))
  {
    var held, folder := Placed(KernelHeld(iso), plan.httpFiles, iso), Components(Basedir(plan.args).value);
    PlacedThere(KernelHeld(iso), plan.httpFiles, iso, 0);
    assert Below(held, folder);
    ServedIff(files, id, held, folder);
  }

  /** The installer plan is chosen by the listing alone. */
  lemma BootsInstallerIff(iso: Iso, id: Id)
    ensures BootsInstaller(iso, id) <==>
            !Mentions(iso.entries, "casper/") && !Mentions(iso.entries, "live/")
            && Mentions(iso.entries, "images/pxeboot/")
  {
    PlanConsistent(iso.entries, id);
    forall boot {
      NfsRootConsistent(boot, id);
    }
  }

  // --- Catalog images ------------------------------------------------------

  /** `catalog_entry`, with a database session: a built-in entry, else a custom one. */
  function CatalogEntry(builtin: Catalog, custom: Catalog, id: string): Option<Entry> {
    if id in builtin then Some(builtin[id]) else Lookup(custom, id)
  }

  /** Where the files of a kernel-URL installer go, in the order they are fetched. */
  function FetchedRels(entry: Entry, release: string): seq<Rel> {
    [VMLINUZ, INITRD] + ForRelease(entry, release).extraFiles
  }

  /** What an installer's run leaves below os/<id>. */
  function InstallerRels(entry: Entry, release: string): seq<Rel> {
    if entry.hasKernelUrl then FetchedRels(entry, release) else [VMLINUZ, INITRD]
  }

  /** What a live desktop's run must have. */
  function LiveRels(live: LiveEntry): seq<Rel> {
    [VMLINUZ, INITRD] + if live.rootOverNfs then [] else [live.rootDest]
  }

  /** The ISO's member of this name, as it is listed. */
  function Listed(entries: seq<string>, member: string): (r: Option<string>)
    ensures r.Some? ==> r.value in entries
  {
    if entries == [] then None
    else
      var last := entries[|entries| - 1];
      if StripDots(last) == member then Some(last) else Listed(entries[..|entries| - 1], member)
  }

  /** The extra members that the ISO has, as they are listed, and where they go. */
  function ExtraFiles(extras: seq<(string, Rel)>, entries: seq<string>): seq<(string, Rel)> {
    if extras == [] then []
    else
      var n := |extras| - 1;
      var member := Listed(entries, extras[n].0);
      ExtraFiles(extras[..n], entries) + if member.Some? then [(member.value, extras[n].1)] else []
  }

  /** The fetched files of these names, with their sizes. */
  function FetchedHeld(rels: seq<Rel>, src: Sources): map<Rel, nat> {
    map rel | rel in rels && rel in src.fetched :: src.fetched[rel]
  }

  lemma ExtraStep(held: map<Rel, nat>, extras: seq<(string, Rel)>, iso: Iso, i: nat)
    requires i < |extras|
    ensures var before := Placed(held, ExtraFiles(extras[..i], iso.entries), iso);
      var member := Listed(iso.entries, extras[i].0);
      Placed(held, ExtraFiles(extras[..i + 1], iso.entries), iso) ==
        if member.Some? && member.value in iso.members then before[extras[i].1 := iso.members[member.value]] else before
  {
    assert extras[..i + 1][..i] == extras[..i];
    var before, member := ExtraFiles(extras[..i], iso.entries), Listed(iso.entries, extras[i].0);
    if member.Some? {
      assert (before + [(member.value, extras[i].1)])[..|before|] == before;
    } else {
      assert before + [] == before;
    }
  }

  /** What the run of a catalog image leaves below os/<id>, by name and size. */
  function CatalogHeld(entry: Entry, variant: Variant, release: string, src: Sources): map<Rel, nat>
    requires variant == Live ==> entry.live.Some?
  {
    if variant == Live then
      var live := entry.live.value;
      Placed(FetchedHeld(LiveRels(live), src), ExtraFiles(live.extraMembers, src.iso.entries), src.iso)
    else FetchedHeld(InstallerRels(entry, release), src)
  }

  /** The extra members that are listed can be read. */
  predicate ExtrasReadable(extras: seq<(string, Rel)>, iso: Iso, tools: Tools) {
    forall i | 0 <= i < |extras| ::
      var member := Listed(iso.entries, extras[i].0); member.Some? ==> Readable(iso, tools, member.value)
  }

  /** Each of these can be fetched, and has content. */
  predicate Fetchable(rels: seq<Rel>, src: Sources) {
    forall i | 0 <= i < |rels| :: rels[i] in src.fetched && src.fetched[rels[i]] > 0
  }

  /** The files of a catalog image can be had. */
  predicate SourcesOk(entry: Entry, variant: Variant, release: string, src: Sources, tools: Tools)
    requires variant == Live ==> entry.live.Some?
  {
    if variant == Live then
      && Fetchable(LiveRels(entry.live.value), src)
      && ExtrasReadable(entry.live.value.extraMembers, src.iso, tools)
      && (entry.live.value.rootOverNfs ==> tools.treeOk)
    else if entry.hasKernelUrl then Fetchable(FetchedRels(entry, release), src) && src.isKernel
    else VMLINUZ in src.fetched && INITRD in src.fetched
  }

  /** The run needs an archive: its entry does not name its files one by one. */
  predicate NeedsArchive(entry: Entry, variant: Variant) {
    variant == Live || !entry.hasKernelUrl
  }

  /** It is there, or it can be downloaded. */
  predicate HasArchive(img: Image, files: Files, src: Sources) {
    ArchiveOf(img) in files || (img.sourceUrl != "" && src.archive.Some?)
  }

  /** What a catalog image takes to become ready. */
  predicate CatalogReady(entry: Option<Entry>, img: Image, files: Files, src: Sources, tools: Tools) {
    && entry.Some? && (img.variant == Live ==> entry.value.live.Some?)
    && (NeedsArchive(entry.value, img.variant) ==> HasArchive(img, files, src))
    && SourcesOk(entry.value, img.variant, img.release, src, tools)
    && LaidOutOk(entry.value, img.variant, img.release, src, tools)
  }

  /** An XCP-ng image's files can be laid out like an ISO's. */
  predicate LaidOutOk(entry: Entry, variant: Variant, release: string, src: Sources, tools: Tools)
    requires variant == Live ==> entry.live.Some?
  {
    entry.family == Xcpng ==>
      XEN_GZ in CatalogHeld(entry, variant, release, src) && "xen.gz" !in tools.broken && tools.grubOk
  }

  /** Wiping the image's own folders first makes no difference to any of this. */
  lemma RunAfterClean(files: Files, files': Files, id: Id, img: Image, img': Image, src: Sources, entry: Entry)
    requires OnlyRun(Clean(files, id), files', id, img')
    requires img'.filename == img.filename && img'.source == img.source && img'.sourceUrl == img.sourceUrl
    requires img'.variant == img.variant
    ensures OnlyRun(files, files', id, img')
    ensures HasArchive(img', Clean(files, id), src) <==> HasArchive(img, files, src)
    ensures ArchiveKept(entry, img', Clean(files, id), files') <==> ArchiveKept(entry, img', files, files')
  {
  }

  /** A catalog image keeps its archive, and a live one does not keep its ISO. */
  predicate ArchiveKept(entry: Entry, img: Image, before: Files, files: Files) {
    ArchiveOf(img) in files <==>
      img.variant != Live && (NeedsArchive(entry, img.variant) || ArchiveOf(img) in before)
  }

  /** What the start-up check asks of a catalog image below os/<id>, beyond kernel and initrd. */
  function Demanded(img: Image, builtin: Catalog): seq<Rel> {
    var entry := Lookup(builtin, img.catalogId);
    (if img.variant == Live && NetbootNfs !in img.bootArgs then
       [if entry.Some? && entry.value.live.Some? then entry.value.live.value.rootDest else FILESYSTEM_SQUASHFS]
     else if entry.Some? && img.variant != Live then ForRelease(entry.value, img.release).extraFiles
     else []) +
    (if Basedir(img.bootArgs).Some? then [Components(Basedir(img.bootArgs).value)] else [])
  }

  /** A catalog image that has just been built, before its status is looked at. */
  predicate IsCatalogLinux(img: Image) {
    && img.source == FromCatalog && img.family == Linux
    && img.kernelPath == VMLINUZ && img.initrdPath == INITRD
  }

  /** The two files every catalog image has fetched. */
  lemma KernelIsFetched(entry: Entry, variant: Variant, release: string, src: Sources, tools: Tools)
    requires variant == Live ==> entry.live.Some?
    requires SourcesOk(entry, variant, release, src, tools)
    ensures var held := CatalogHeld(entry, variant, release, src); VMLINUZ in held && INITRD in held
  {
    if variant == Live {
      var live := entry.live.value;
      var rels := LiveRels(live);
      assert rels[0] == VMLINUZ && rels[1] == INITRD;
      PlacedKeeps(FetchedHeld(rels, src), ExtraFiles(live.extraMembers, src.iso.entries), src.iso, VMLINUZ);
      PlacedKeeps(FetchedHeld(rels, src), ExtraFiles(live.extraMembers, src.iso.entries), src.iso, INITRD);
    } else {
      var rels := InstallerRels(entry, release);
      assert rels[0] == VMLINUZ && rels[1] == INITRD;
    }
  }

  lemma {:induction false} PlacedKeeps(held: map<Rel, nat>, wanted: seq<(string, Rel)>, iso: Iso, rel: Rel)
    requires rel in held
    ensures rel in Placed(held, wanted, iso)
  {
    if wanted != [] {
      PlacedKeeps(held, wanted[..|wanted| - 1], iso, rel);
    }
  }

  /** What is demanded of a catalog image, path by path. */
  lemma DemandedPaths(img: Image, id: Id, builtin: Catalog)
    requires IsCatalogLinux(img) && OwnArgs(img.bootArgs)
    ensures LinuxPaths(img, id, builtin)
         == (if NetbootNfs in img.bootArgs then [Derived(Nfs, id, [])] else []) + OsFiles(id, Demanded(img, builtin))
  {
  }

  /**
   * Exactly when a catalog image passes the start-up check: its kernel and initrd have
   * content, its arguments say netboot=nfs only if its ISO was unpacked, and all that is
   * demanded of it was fetched.
   */
  lemma CatalogBootableIff(img: Image, id: Id, files: Files, builtin: Catalog, held: map<Rel, nat>)
    requires IsCatalogLinux(img) && OwnArgs(img.bootArgs) && HoldsOs(files, id, held)
    ensures Bootable(img, id, files, builtin) <==>
            && Served(VMLINUZ, held) && Served(INITRD, held)
            && (NetbootNfs in img.bootArgs ==> ExistsNonempty(files, Derived(Nfs, id, [])))
            && forall i | 0 <= i < |Demanded(img, builtin)| :: Served(Demanded(img, builtin)[i], held)
  {
    var wants := Demanded(img, builtin);
    LinuxNeeds(img, id, files, builtin);
    DemandedPaths(img, id, builtin);
    ServedIff(files, id, held, VMLINUZ);
    ServedIff(files, id, held, INITRD);
    forall i | 0 <= i < |wants|
      ensures ExistsNonempty(files, OsFiles(id, wants)[i]) <==> Served(wants[i], held)
    {
      ServedIff(files, id, held, wants[i]);
    }
    PathsMet(files, LinuxPaths(img, id, builtin), NetbootNfs in img.bootArgs, id, wants);
  }

  lemma PathsMet(files: Files, paths: seq<Path>, nfs: bool, id: Id, wants: seq<Rel>)
    requires paths == (if nfs then [Derived(Nfs, id, [])] else []) + OsFiles(id, wants)
    ensures (forall p | p in paths :: ExistsNonempty(files, p)) <==>
            && (nfs ==> ExistsNonempty(files, Derived(Nfs, id, [])))
            && forall i | 0 <= i < |wants| :: ExistsNonempty(files, OsFiles(id, wants)[i])
  {
    var os := OsFiles(id, wants);
    forall i | 0 <= i < |wants|
      ensures os[i] in paths
    {
      assert paths[|paths| - |wants| + i] == os[i];
    }
    if nfs {
      assert paths[0] == Derived(Nfs, id, []);
    }
  }

  /** The live part's arguments ask for what its kind of root provides, and its extras go elsewhere. */
  predicate LiveWellFormed(live: LiveEntry) {
    && (live.rootOverNfs <==> NetbootNfs in live.bootArgs)
    && (Basedir(live.bootArgs).Some? ==>
          && OwnFolder(Basedir(live.bootArgs).value) && !live.rootOverNfs
          && Components(Basedir(live.bootArgs).value) <= live.rootDest)
    && forall i, rel | 0 <= i < |live.extraMembers| && rel in LiveRels(live) :: !(rel <= live.extraMembers[i].1)
  }

  /** A well-formed built-in live desktop is served all it demands, whatever extras its ISO has. */
  lemma LiveIsServed(img: Image, builtin: Catalog, entry: Entry, src: Sources)
    requires img.variant == Live && entry.live.Some? && LiveWellFormed(entry.live.value)
    requires img.catalogId in builtin && builtin[img.catalogId] == entry
    requires img.bootArgs == entry.live.value.bootArgs && Fetchable(LiveRels(entry.live.value), src)
    ensures var held := CatalogHeld(entry, Live, img.release, src);
      && OwnArgs(img.bootArgs) && Served(VMLINUZ, held) && Served(INITRD, held)
      && forall i | 0 <= i < |Demanded(img, builtin)| :: Served(Demanded(img, builtin)[i], held)
  {
    var live := entry.live.value;
    var rels, held := LiveRels(live), CatalogHeld(entry, Live, img.release, src);
    forall i | 0 <= i < |rels|
      ensures rels[i] in held && Served(rels[i], held)
    {
      LiveServed(live, src, i);
    }
    assert rels[0] == VMLINUZ && rels[1] == INITRD;
    if !live.rootOverNfs {
      assert rels[2] == live.rootDest;
    }
    if Basedir(live.bootArgs).Some? {
      var folder := Components(Basedir(live.bootArgs).value);
      assert live.rootDest in held && folder <= live.rootDest;
      assert folder == live.rootDest || Below(held, folder);
    }
  }

  lemma LiveServed(live: LiveEntry, src: Sources, i: nat)
    requires LiveWellFormed(live) && Fetchable(LiveRels(live), src) && i < |LiveRels(live)|
    ensures var extras := ExtraFiles(live.extraMembers, src.iso.entries);
      var held := Placed(FetchedHeld(LiveRels(live), src), extras, src.iso);
      LiveRels(live)[i] in held && Served(LiveRels(live)[i], held)
  {
    var rels, extras := LiveRels(live), ExtraFiles(live.extraMembers, src.iso.entries);
    assert rels[i] in rels;
    ExtrasGo(live.extraMembers, src.iso.entries);
    PlacedKeeps(FetchedHeld(rels, src), extras, src.iso, rels[i]);
    PlacedApart(FetchedHeld(rels, src), extras, src.iso, rels[i]);
  }

  lemma {:induction false} ExtrasGo(extras: seq<(string, Rel)>, entries: seq<string>)
    ensures forall f | f in ExtraFiles(extras, entries) :: exists i | 0 <= i < |extras| :: extras[i].1 == f.1
  {
    if extras != [] {
      var n := |extras| - 1;
      ExtrasGo(extras[..n], entries);
      forall f | f in ExtraFiles(extras, entries)
        ensures exists i | 0 <= i < |extras| :: extras[i].1 == f.1
      {
        if f in ExtraFiles(extras[..n], entries) {
          var i :| 0 <= i < n && extras[..n][i].1 == f.1;
          assert extras[i].1 == f.1;
        } else {
          assert extras[n].1 == f.1;
        }
      }
    }
  }

  // --- XCP-ng --------------------------------------------------------------

  lemma XcpngNamesDiffer()
    ensures XEN != VMLINUZ && XEN != INSTALLER_IMG && VMLINUZ != INSTALLER_IMG
    ensures GRUB_EFI !in {XEN, VMLINUZ, INSTALLER_IMG} && GRUB_CFG !in {XEN, VMLINUZ, INSTALLER_IMG}
    ensures GRUB_EFI != GRUB_CFG
  {
  }

  lemma XcpngNeeds(img: Image, id: Id, files: Files, builtin: Catalog)
    requires img.family == Xcpng && img.kernelPath == XEN && img.initrdPath == VMLINUZ
    ensures Bootable(img, id, files, builtin) <==>
            && ExistsNonempty(files, OsFile(id, XEN)) && ExistsNonempty(files, OsFile(id, VMLINUZ))
            && ExistsNonempty(files, OsFile(id, GRUB_EFI)) && ExistsNonempty(files, OsFile(id, INSTALLER_IMG))
  {
    assert RequiredPaths(img, id, builtin)
        == [OsFile(id, XEN), OsFile(id, VMLINUZ), OsFile(id, GRUB_EFI), OsFile(id, INSTALLER_IMG)];
  }

  /** What an XCP-ng ISO that can be read takes to be bootable. */
  predicate XcpngBoots(iso: Iso, tools: Tools) {
    && tools.xenSize > 0 && tools.grubSize > 0
    && HasContent(iso, "boot/vmlinuz") && HasContent(iso, "install.img")
  }

  /** The files below os/<id> of an XCP-ng ISO, before its GRUB image is built. */
  function MultibootHeld(xen: nat, kernel: nat, installer: nat): map<Rel, nat> {
    map[][XEN := xen][VMLINUZ := kernel][INSTALLER_IMG := installer]
  }

  /** And after that. */
  function XcpngHeld(xen: nat, kernel: nat, installer: nat, grub: nat): map<Rel, nat> {
    MultibootHeld(xen, kernel, installer)[GRUB_CFG := 1][GRUB_EFI := grub]
  }

  lemma MultibootHolds(files: Files, id: Id, xen: nat, kernel: nat, installer: nat)
    requires HoldsOs(files, id, map[])
    ensures var unzipped := files[OsFile(id, XEN) := xen][OsFile(id, VMLINUZ) := kernel];
      HoldsOs(unzipped[OsFile(id, INSTALLER_IMG) := installer], id, MultibootHeld(xen, kernel, installer))
  {
    var held, unzipped := map[][XEN := xen], files[OsFile(id, XEN) := xen];
    HoldsMore(files, id, map[], XEN, xen);
    HoldsMore(unzipped, id, held, VMLINUZ, kernel);
    HoldsMore(unzipped[OsFile(id, VMLINUZ) := kernel], id, held[VMLINUZ := kernel], INSTALLER_IMG, installer);
  }

  lemma XcpngServed(
      img: Image, id: Id, files: Files, builtin: Catalog, xen: nat, kernel: nat, installer: nat, grub: nat)
    requires img.family == Xcpng && img.kernelPath == XEN && img.initrdPath == VMLINUZ
    requires HoldsOs(files, id, XcpngHeld(xen, kernel, installer, grub))
    ensures Bootable(img, id, files, builtin) <==> xen > 0 && kernel > 0 && installer > 0 && grub > 0
  {
    var held := XcpngHeld(xen, kernel, installer, grub);
    XcpngNamesDiffer();
    FinishedBootable(img, id, files, builtin, held);
    assert forall rel | rel in held :: |rel| == 1;
  }

  /** A fetched XCP-ng image once it is laid out like one from an ISO. */
  function FinishedHeld(held: map<Rel, nat>, tools: Tools): map<Rel, nat>
    requires INITRD in held
  {
    LaidOut(held, tools)[GRUB_CFG := 1][GRUB_EFI := tools.grubSize]
  }

  function LaidOut(held: map<Rel, nat>, tools: Tools): map<Rel, nat>
    requires INITRD in held
  {
    (held - {INITRD})[INSTALLER_IMG := held[INITRD]][XEN := tools.xenSize] - {XEN_GZ}
  }

  lemma GrubHolds(files: Files, id: Id, held: map<Rel, nat>, grub: nat)
    requires HoldsOs(files, id, held)
    ensures HoldsOs(files[OsFile(id, GRUB_CFG) := 1][OsFile(id, GRUB_EFI) := grub], id,
                    held[GRUB_CFG := 1][GRUB_EFI := grub])
  {
    HoldsMore(files, id, held, GRUB_CFG, 1);
    HoldsMore(files[OsFile(id, GRUB_CFG) := 1], id, held[GRUB_CFG := 1], GRUB_EFI, grub);
  }

  lemma FinishedServed(held: map<Rel, nat>, tools: Tools)
    requires INITRD in held
    ensures var done := FinishedHeld(held, tools);
      && (Served(XEN, done) <==> tools.xenSize > 0 || Below(held, XEN))
      && (Served(VMLINUZ, done) <==> Served(VMLINUZ, held))
      && (Served(GRUB_EFI, done) <==> tools.grubSize > 0 || Below(held, GRUB_EFI))
      && (Served(INSTALLER_IMG, done) <==> held[INITRD] > 0 || Below(held, INSTALLER_IMG))
  {
    XcpngNamesDiffer();
    FetchedNamesDiffer();
    forall want: Rel | |want| == 1
      ensures Below(FinishedHeld(held, tools), want) <==> Below(held, want)
    {
      SameBelowIt(held, tools, want);
    }
  }

  lemma SameBelowIt(held: map<Rel, nat>, tools: Tools, want: Rel)
    requires INITRD in held && |want| == 1
    ensures Below(FinishedHeld(held, tools), want) <==> Below(held, want)
  {
    var done := FinishedHeld(held, tools);
    forall rel | want < rel
      ensures rel in done <==> rel in held
    {
      assert |INITRD| == |INSTALLER_IMG| == |XEN| == |XEN_GZ| == |GRUB_CFG| == |GRUB_EFI| == 1;
    }
  }

  lemma FetchedNamesDiffer()
    ensures INITRD !in {XEN, VMLINUZ, INSTALLER_IMG, GRUB_EFI} && XEN_GZ !in {XEN, VMLINUZ, INSTALLER_IMG, GRUB_EFI}
  {
  }

  lemma FinishedBootable(img: Image, id: Id, files: Files, builtin: Catalog, held: map<Rel, nat>)
    requires img.family == Xcpng && img.kernelPath == XEN && img.initrdPath == VMLINUZ && HoldsOs(files, id, held)
    ensures Bootable(img, id, files, builtin) <==>
            Served(XEN, held) && Served(VMLINUZ, held) && Served(GRUB_EFI, held) && Served(INSTALLER_IMG, held)
  {
    XcpngNeeds(img, id, files, builtin);
    ServedIff(files, id, held, XEN);
    ServedIff(files, id, held, VMLINUZ);
    ServedIff(files, id, held, GRUB_EFI);
    ServedIff(files, id, held, INSTALLER_IMG);
  }

  /** XCP-ng's dom0 arguments when the image has none of its own. */
  const DOM0_ARGS: seq<Arg> := [Word("netinstall"), Word("console=tty0")]

  /**
   * How a catalog image that ended ready stands with the start-up check: the files below
   * a name that is itself a file, which no file system has, aside, it passes exactly when
   * all that its family, its arguments and its entry demand has content.
   */
  ghost predicate NetbootVerdict(
      img: Image, id: Id, files: Files, entry: Entry, builtin: Catalog, src: Sources, tools: Tools)
    requires img.variant == Live ==> entry.live.Some?
  {
    var held := CatalogHeld(entry, img.variant, img.release, src);
    if entry.family == Xcpng then
      INITRD in held
      && (Bootable(img, id, files, builtin) <==>
          && (tools.xenSize > 0 || Below(held, XEN)) && Served(VMLINUZ, held)
          && (tools.grubSize > 0 || Below(held, GRUB_EFI)) && (held[INITRD] > 0 || Below(held, INSTALLER_IMG)))
    else
      OwnArgs(img.bootArgs) ==>
        (Bootable(img, id, files, builtin) <==>
         && Served(VMLINUZ, held) && Served(INITRD, held)
         && (NetbootNfs in img.bootArgs ==>
               img.variant == Live && entry.live.value.rootOverNfs && src.iso.members != map[])
         && forall i | 0 <= i < |Demanded(img, builtin)| :: Served(Demanded(img, builtin)[i], held))
  }

  /** Removing the archive touches nothing below the image's own folders. */
  lemma WithoutArchive(files: Files, id: Id, img: Image, held: map<Rel, nat>)
    requires HoldsOs(files, id, held)
    ensures HoldsOs(files - {ArchiveOf(img)}, id, held)
    ensures ExistsNonempty(files - {ArchiveOf(img)}, Derived(Nfs, id, [])) <==>
            ExistsNonempty(files, Derived(Nfs, id, []))
  {
  }

  // --- By family -----------------------------------------------------------

  /** What an ISO of this family takes to become ready. */
  predicate FamilyReady(family: Family, iso: Iso, id: Id, tools: Tools) {
    match family
    case Windows => WindowsReady(iso, tools)
    case Xcpng => XcpngReady(iso, tools)
    case Linux => LinuxReady(iso, tools, id)
  }

  /** And to be bootable then. */
  predicate FamilyBoots(family: Family, iso: Iso, id: Id, tools: Tools) {
    match family
    case Windows => WindowsBoots(iso)
    case Xcpng => XcpngBoots(iso, tools)
    case Linux => LinuxBoots(iso, id)
  }

  /** What an ISO takes to become ready, by what its listing looks like. */
  predicate IsoReady(iso: Iso, id: Id, tools: Tools) {
    if LooksXcpng(iso.entries) then XcpngReady(iso, tools)
    else if LooksWindows(iso.entries) then WindowsReady(iso, tools)
    else LinuxReady(iso, tools, id)
  }

  /** What it takes for the run of an image to end ready. */
  predicate RunReady(
      img: Image, id: Id, files: Files, iso: Iso, tools: Tools, builtin: Catalog, custom: Catalog, src: Sources)
  {
    if img.source == FromCatalog then
      CatalogReady(CatalogEntry(builtin, custom, img.catalogId), img, files, src, tools)
    else tools.listOk && IsoReady(iso, id, tools)
  }

  /** What it takes for an ISO image that ended ready to be bootable. */
  predicate IsoBoots(iso: Iso, id: Id, tools: Tools) {
    if LooksXcpng(iso.entries) then XcpngBoots(iso, tools)
    else if LooksWindows(iso.entries) then WindowsBoots(iso)
    else LinuxBoots(iso, id)
  }
}
