/**
 * What a catalog entry is, and which files the start-up check demands of an
 * image before it may stay in the boot menu.
 */
module BootFiles {
  import opened Text
  import opened Decimal
  import opened Store

  /** Boot arguments or extra files a release has of its own. */
  datatype Override = Override(bootArgs: Option<seq<Arg>>, extraFiles: Option<seq<Rel>>)

  /** Live desktop: `extraMembers` are copied beside the root where the ISO has them. */
  datatype LiveEntry = LiveEntry(
    rootOverNfs: bool, rootDest: Rel, bootArgs: seq<Arg>, extraMembers: seq<(string, Rel)>)

  /**
   * A netboot catalog entry. `overrides` holds, for each release name that the
   * entry's releases or its pre-release part treat differently, what replaces
   * the entry's own values.
   */
  datatype Entry = Entry(
    family: Family,
    hasKernelUrl: bool,
    bootArgs: seq<Arg>,
    extraFiles: seq<Rel>,
    overrides: map<string, Override>,
    live: Option<LiveEntry>)

  type Catalog = map<string, Entry>

  /** `for_release`: the entry with a release's own arguments and extra files. */
  function ForRelease(entry: Entry, release: string): Entry {
    if release !in entry.overrides then entry
    else
      var over := entry.overrides[release];
      entry.(bootArgs := if over.bootArgs.Some? then over.bootArgs.value else entry.bootArgs,
             extraFiles := if over.extraFiles.Some? then over.extraFiles.value else entry.extraFiles)
  }

  /** What a release has of its own counts, and nothing else of it. */
  lemma ReleaseHasItsOwn(entry: Entry, release: string)
    ensures var its := ForRelease(entry, release);
      var over := if release in entry.overrides then entry.overrides[release] else Override(None, None);
      && (over.bootArgs == Some(its.bootArgs) || (over.bootArgs.None? && its.bootArgs == entry.bootArgs))
      && (over.extraFiles == Some(its.extraFiles) || (over.extraFiles.None? && its.extraFiles == entry.extraFiles))
      && its == entry.(bootArgs := its.bootArgs, extraFiles := its.extraFiles)
  {
  }

  function Lookup(catalog: Catalog, id: string): Option<Entry> {
    if id in catalog then Some(catalog[id]) else None
  }

  /** The first inst.repo= or inst.stage2= word, if any: whether it names NFS. */
  function InstallerSource(args: seq<Arg>): (r: Option<bool>)
    ensures r.None? <==> forall a | a in args :: !a.InstSource?
  {
    if args == [] then None
    else if args[0].InstSource? then Some(args[0].nfs)
    else InstallerSource(args[1..])
  }

  function Basedir(args: seq<Arg>): (r: Option<string>)
    ensures r.None? <==> forall a | a in args :: !a.ArchisoBasedir?
  {
    if args == [] then None
    else if args[0].ArchisoBasedir? then Some(args[0].dir)
    else Basedir(args[1..])
  }

  function OsFile(id: Id, rel: Rel): Path {
    Derived(Os, id, rel)
  }

  function OsFiles(id: Id, rels: seq<Rel>): (paths: seq<Path>)
    ensures |paths| == |rels|
    ensures forall i | 0 <= i < |rels| :: paths[i] == OsFile(id, rels[i])
  {
    seq(|rels|, i requires 0 <= i < |rels| => OsFile(id, rels[i]))
  }

  const BOOT_MGR: Rel := ["bootmgr"]
  const BCD: Rel := ["bcd"]
  const BOOT_SDI: Rel := ["boot.sdi"]
  const BOOT_WIM: Rel := ["boot.wim"]
  const XEN: Rel := ["xen"]
  const VMLINUZ: Rel := ["vmlinuz"]
  const INITRD: Rel := ["initrd"]
  const INSTALLER_IMG: Rel := ["install.img"]
  const GRUB_EFI: Rel := ["bootx64.efi"]
  const GRUB_CFG: Rel := ["grub.cfg"]
  const XEN_GZ: Rel := ["xen.gz"]
  const SQUASHFS_IMG: Rel := ["squashfs.img"]
  const TREE_INSTALL_IMG: Rel := ["images", "install.img"]
  const FILESYSTEM_SQUASHFS: Rel := ["filesystem.squashfs"]

  /** The text stays in the folder it is joined to. */
  predicate OwnFolder(dir: string) {
    !("/" <= dir) && ".." !in Components(dir)
  }

  /**
   * `dest_dir / dir`, where `dir` is free text. One step up leads to another image's
   * folder; what any other way out leads to is not followed.
   */
  function BasedirPath(id: Id, dir: string): Path {
    var parts := Components(dir);
    if OwnFolder(dir) then OsFile(id, parts)
    else if !("/" <= dir) && |parts| > 1 && parts[0] == ".." && ".." !in parts[1..] && NamesId(parts[1]) then
      OsFile(Value(parts[1]), parts[2..])
    else Elsewhere(dir)
  }

  /** One step up and down into a folder named like an image is that image's. */
  lemma BasedirToOther(id: Id, dir: string, other: nat, rel: Rel)
    requires !("/" <= dir) && Components(dir) == ["..", Digits(other)] + rel && ".." !in rel
    ensures BasedirPath(id, dir) == OsFile(other, rel)
  {
    var parts := Components(dir);
    ValueOfDigits(other);
    assert parts[0] == ".." && parts[1] == Digits(other) && parts[2..] == rel;
    assert parts[1..] == [Digits(other)] + rel && IsDigit(Digits(other)[0]);
  }

  /** And nothing else leads there. */
  lemma BasedirFromOther(id: Id, dir: string, other: Id, rel: Rel)
    requires BasedirPath(id, dir) == OsFile(other, rel) && other != id
    ensures !("/" <= dir) && ".." !in rel && other >= 0 && Components(dir) == ["..", Digits(other)] + rel
  {
    var parts := Components(dir);
    assert parts == [parts[0], parts[1]] + parts[2..];
    assert forall part | part in parts[2..] :: part in parts[1..];
  }

  /** The name of an image's folder. */
  predicate NamesId(part: string) {
    AllDigits(part) && Digits(Value(part)) == part
  }

  /** An archisobasedir= word, if there is one, names something in the image's own folder. */
  predicate OwnArgs(args: seq<Arg>) {
    Basedir(args).Some? ==> OwnFolder(Basedir(args).value)
  }

  /** What a Linux image needs beyond its kernel and initrd. */
  function LinuxPaths(img: Image, id: Id, builtin: Catalog): seq<Path> {
    var args := img.bootArgs;
    var entry := Lookup(builtin, img.catalogId);
    (if NetbootNfs in args then [Derived(Nfs, id, [])] else []) +
    (if img.source == FromCatalog then
       if img.variant == Live && NetbootNfs !in args then
         [OsFile(id, if entry.Some? && entry.value.live.Some? then entry.value.live.value.rootDest
                     else FILESYSTEM_SQUASHFS)]
       else if entry.Some? && img.variant != Live then
         OsFiles(id, ForRelease(entry.value, img.release).extraFiles)
       else []
     else
       (match InstallerSource(args)
        case None => []
        case Some(true) => [Derived(Nfs, id, TREE_INSTALL_IMG)]
        case Some(false) => [OsFile(id, ["tree"] + TREE_INSTALL_IMG)]) +
       (if RdLiveImage in args then [OsFile(id, SQUASHFS_IMG)] else [])) +
    (match Basedir(args)
     case None => []
     case Some(dir) => [BasedirPath(id, dir)])
  }

  /** `_required_paths`: everything that must be on disk for this image to boot. */
  function RequiredPaths(img: Image, id: Id, builtin: Catalog): seq<Path> {
    (if img.kernelPath != [] then [OsFile(id, img.kernelPath)] else []) +
    (if img.initrdPath != [] then [OsFile(id, img.initrdPath)] else []) +
    match img.family
    case Xcpng => [OsFile(id, GRUB_EFI), OsFile(id, INSTALLER_IMG)]
    case Windows => [OsFile(id, BCD), OsFile(id, BOOT_SDI), Derived(Smb, id, [])]
    case Linux => LinuxPaths(img, id, builtin)
  }

  /** The image would pass the start-up check with these files on disk. */
  predicate Bootable(img: Image, id: Id, files: Files, builtin: Catalog) {
    forall p | p in RequiredPaths(img, id, builtin) :: ExistsNonempty(files, p)
  }

  lemma LinuxBelowOwnId(img: Image, id: Id, builtin: Catalog)
    requires OwnArgs(img.bootArgs)
    ensures forall p | p in LinuxPaths(img, id, builtin) :: DerivedOf(p, id)
  {
  }

  /** Where an image is asked to look outside its own folders, if anywhere. */
  function Astray(img: Image, id: Id): Option<Path> {
    if img.family == Linux && !OwnArgs(img.bootArgs) then Some(BasedirPath(id, Basedir(img.bootArgs).value))
    else None
  }

  /** Everything demanded is below the image's own id, but for where its arguments point elsewhere. */
  lemma RequiredBelowOwnId(img: Image, id: Id, builtin: Catalog)
    ensures forall p | p in RequiredPaths(img, id, builtin) :: DerivedOf(p, id) || Astray(img, id) == Some(p)
    ensures Astray(img, id).Some? ==> Astray(img, id).value in RequiredPaths(img, id, builtin)
  {
    if img.family == Linux {
      if OwnArgs(img.bootArgs) {
        LinuxBelowOwnId(img, id, builtin);
      } else {
        var paths := LinuxPaths(img, id, builtin);
        assert paths[|paths| - 1] == BasedirPath(id, Basedir(img.bootArgs).value);
      }
    }
  }

  /** Below this path, nothing differs. */
  ghost predicate SameBelow(files: Files, files': Files, p: Path) {
    forall q | q == p || StrictlyBelow(q, p) ::
      (q in files <==> q in files') && (q in files ==> files[q] == files'[q])
  }

  lemma SameExists(files: Files, files': Files, p: Path)
    requires SameBelow(files, files', p)
    ensures ExistsNonempty(files, p) <==> ExistsNonempty(files', p)
  {
  }

  /** Only an image's own trees decide whether it is bootable, and where its arguments point elsewhere. */
  lemma BootableFrame(img: Image, id: Id, files: Files, files': Files, builtin: Catalog)
    requires forall p | DerivedOf(p, id) :: p in files <==> p in files'
    requires forall p | DerivedOf(p, id) && p in files :: files[p] == files'[p]
    requires Astray(img, id).Some? ==> SameBelow(files, files', Astray(img, id).value)
    ensures Bootable(img, id, files, builtin) <==> Bootable(img, id, files', builtin)
  {
    RequiredBelowOwnId(img, id, builtin);
    forall p | p in RequiredPaths(img, id, builtin)
      ensures ExistsNonempty(files, p) <==> ExistsNonempty(files', p)
    {
      SameExists(files, files', p);
    }
  }
}
