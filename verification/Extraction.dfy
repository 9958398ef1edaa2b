/**
 * The run of one image, from its sources to "ready" or "error": when it ends
 * ready, and exactly when the start-up check then accepts it.
 */
module Extraction {
  import opened Text
  import opened Store
  import opened BootFiles
  import opened IsoLayout
  import opened Extracted

  class Run {
    const id: Id
    var img: Image
    var files: Files

    constructor (id: Id, img: Image, files: Files)
      ensures this.id == id && this.img == img && this.files == files
    {
      this.id, this.img, this.files := id, img, files;
    }

    /** Only what a run may set has changed in the row. */
    twostate predicate RowKept()
      reads this
    {
      img == old(img).(status := img.status, family := img.family, kernelPath := img.kernelPath,
                       initrdPath := img.initrdPath, bootArgs := img.bootArgs)
    }

    method Fail()
      modifies this`img
      ensures img == old(img).(status := Error)
    {
      img := img.(status := Error);
    }

    /** `_extract_one`: the destination is opened first, so a failure leaves it empty. */
    method ExtractOne(iso: Iso, tools: Tools, member: string, rel: Rel) returns (ok: bool)
      modifies this`files
      ensures ok <==> member in iso.members && member !in tools.broken
      ensures files == old(files)[OsFile(id, rel) := if ok then iso.members[member] else 0]
    {
      ok := member in iso.members && member !in tools.broken;
      files := files[OsFile(id, rel) := if ok then iso.members[member] else 0];
    }

    method RemoveTree(tree: Tree)
      modifies this`files
      ensures files == DropTree(old(files), tree, id)
    {
      files := map p | p in files && !InTree(p, tree, id) :: files[p];
    }

    /** `_extract_tree`. */
    method ExtractTree(iso: Iso, tools: Tools, tree: Tree) returns (ok: bool)
      modifies this`files
      ensures ok == tools.treeOk
      ensures files == if ok then Unpacked(old(files), iso, tree, id)
                       else DropTree(old(files), tree, id)
    {
      RemoveTree(tree);
      ok := tools.treeOk;
      if ok {
        files := Unpack(files, iso, iso.entries, tree, id);
      }
    }

    // --- Windows -----------------------------------------------------------

    /** One WinPE boot file; false when the ISO has none such or it cannot be read. */
    method ExtractWindowsFile(iso: Iso, tools: Tools, file: Rel) returns (ok: bool)
      modifies this`files
      ensures OnlyFile(old(files), files, OsFile(id, file))
      ensures ok <==> HasWindowsFile(iso, tools, file)
      ensures ok ==> WindowsSize(iso, file).Some?
                     && files == old(files)[OsFile(id, file) := WindowsSize(iso, file).value]
    {
      var member := WindowsMember(iso, file);
      if member.None? {
        return false;
      }
      ok := ExtractOne(iso, tools, member.value, file);
    }

    /** The WinPE boot files; false when one is missing or cannot be read. */
    method ExtractWindowsFiles(iso: Iso, tools: Tools, wanted: seq<Rel>) returns (ok: bool)
      requires HoldsOs(files, id, map[])
      modifies this`files
      ensures OnlyOwn(old(files), files, id)
      ensures ok <==> HasWindowsFiles(iso, tools, wanted)
      ensures ok ==> HoldsOs(files, id, WindowsHeld(iso, wanted))
    {
      ok := true;
      for i := 0 to |wanted|
        invariant ok && OnlyOwn(old(files), files, id)
        invariant HasWindowsFiles(iso, tools, wanted[..i])
        invariant HoldsOs(files, id, WindowsHeld(iso, wanted[..i]))
      {
        ok := ExtractWindowsFile(iso, tools, wanted[i]);
        OneMoreFile(iso, tools, wanted, i);
        if !ok {
          return;
        }
        OneMoreHeld(wanted, file => WindowsSize(iso, file), i);
      }
      assert wanted[..|wanted|] == wanted;
    }

    /** `_process_windows`: ready exactly when the boot files are there and the tools succeed. */
    method ProcessWindows(iso: Iso, tools: Tools, builtin: Catalog)
      requires img.family == Windows
      modifies this
      ensures RowKept() && img.family == Windows && OnlyOwn(old(files), files, id)
      ensures img.status == if WindowsReady(iso, tools) then Ready else Error
      ensures img.status == Ready ==> (Bootable(img, id, files, builtin) <==> WindowsBoots(iso))
    {
      RemoveTree(Os);
      var extracted := ExtractWindowsFiles(iso, tools, WINDOWS_FILES);
      if !extracted {
        Fail();
        return;
      }
      ghost var boot := files;
      var unpacked := ExtractTree(iso, tools, Smb);
      UnpackedElsewhere(boot, iso, Smb, id);
      if !unpacked || !tools.patchOk {
        Fail();
        return;
      }
      img := img.(kernelPath := BOOT_WIM, initrdPath := BOOT_MGR, status := Ready);
      assert HasWindowsFile(iso, tools, WINDOWS_FILES[0]);
      UnpackedNonempty(boot, iso, Smb, id);
      WindowsBootable(img, id, iso, files, builtin);
    }

    // --- XCP-ng ------------------------------------------------------------

    /** `_build_xcpng_grub`. */
    method BuildGrub(tools: Tools) returns (ok: bool)
      modifies this`files
      ensures ok == tools.grubOk
      ensures var scripted := old(files)[OsFile(id, GRUB_CFG) := 1];
        files == if ok then scripted[OsFile(id, GRUB_EFI) := tools.grubSize] else scripted
    {
      files := files[OsFile(id, GRUB_CFG) := 1];
      ok := tools.grubOk;
      if ok {
        files := files[OsFile(id, GRUB_EFI) := tools.grubSize];
      }
    }

    /** `_extract_gunzip`, into os/<id>/xen. */
    method Gunzip(tools: Tools, readable: bool) returns (ok: bool)
      modifies this`files
      ensures ok == readable
      ensures files == old(files)[OsFile(id, XEN) := if ok then tools.xenSize else 0]
    {
      ok := readable;
      files := files[OsFile(id, XEN) := if ok then tools.xenSize else 0];
    }

    /** The hypervisor, dom0's kernel and the installer. */
    method ExtractMultiboot(iso: Iso, tools: Tools) returns (ok: bool)
      requires HoldsOs(files, id, map[])
      modifies this`files
      ensures OnlyOwn(old(files), files, id)
      ensures ok <==> && Readable(iso, tools, "boot/xen.gz") && Readable(iso, tools, "boot/vmlinuz")
                      && Readable(iso, tools, "install.img")
      ensures ok ==> HoldsOs(files, id, MultibootHeld(tools.xenSize, iso.members["boot/vmlinuz"],
                                                      iso.members["install.img"]))
    {
      ok := Gunzip(tools, Readable(iso, tools, "boot/xen.gz"));
      if !ok {
        return;
      }
      ok := ExtractOne(iso, tools, "boot/vmlinuz", VMLINUZ);
      if !ok {
        return;
      }
      ok := ExtractOne(iso, tools, "install.img", INSTALLER_IMG);
      if ok {
        MultibootHolds(old(files), id, tools.xenSize, iso.members["boot/vmlinuz"], iso.members["install.img"]);
      }
    }

    /** The multiboot files and the GRUB image; false when any step fails. */
    method ExtractXcpngFiles(iso: Iso, tools: Tools) returns (ok: bool)
      requires HoldsOs(files, id, map[])
      modifies this`files
      ensures OnlyOwn(old(files), files, id)
      ensures ok <==> XcpngReady(iso, tools)
      ensures ok ==> HoldsOs(files, id, XcpngHeld(tools.xenSize, iso.members["boot/vmlinuz"],
                                                  iso.members["install.img"], tools.grubSize))
    {
      ok := ExtractMultiboot(iso, tools);
      if ok {
        ghost var fetched := files;
        ok := BuildGrub(tools);
        GrubHolds(fetched, id, MultibootHeld(tools.xenSize, iso.members["boot/vmlinuz"], iso.members["install.img"]),
                  tools.grubSize);
      }
    }

    /** `_process_xcpng`: ready exactly when its files can be read and the GRUB image is built. */
    method ProcessXcpng(iso: Iso, tools: Tools, builtin: Catalog)
      requires img.family == Xcpng
      modifies this
      ensures RowKept() && img.family == Xcpng && OnlyOwn(old(files), files, id)
      ensures img.status == if XcpngReady(iso, tools) then Ready else Error
      ensures img.status == Ready ==> (Bootable(img, id, files, builtin) <==> XcpngBoots(iso, tools))
    {
      RemoveTree(Os);
      var ok := ExtractXcpngFiles(iso, tools);
      if !ok {
        Fail();
        return;
      }
      img := img.(kernelPath := XEN, initrdPath := VMLINUZ, status := Ready,
                  bootArgs := if img.bootArgs != [] then img.bootArgs else DOM0_ARGS);
      XcpngServed(img, id, files, builtin, tools.xenSize, iso.members["boot/vmlinuz"],
                  iso.members["install.img"], tools.grubSize);
    }

    // --- Linux -------------------------------------------------------------

    /** The single files a plan streams over HTTP. */
    method ExtractHttpFiles(iso: Iso, tools: Tools, wanted: seq<(string, Rel)>, ghost held: map<Rel, nat>)
      returns (ok: bool)
      requires HoldsOs(files, id, held)
      modifies this`files
      ensures OnlyOwn(old(files), files, id)
      ensures ok <==> forall i | 0 <= i < |wanted| :: Readable(iso, tools, wanted[i].0)
      ensures ok ==> HoldsOs(files, id, Placed(held, wanted, iso))
    {
      ok := true;
      for i := 0 to |wanted|
        invariant ok && OnlyOwn(old(files), files, id)
        invariant forall j | 0 <= j < i :: Readable(iso, tools, wanted[j].0)
        invariant HoldsOs(files, id, Placed(held, wanted[..i], iso))
      {
        assert wanted[..i + 1][..i] == wanted[..i];
        ok := ExtractOne(iso, tools, wanted[i].0, wanted[i].1);
        if !ok {
          return;
        }
      }
      assert wanted[..|wanted|] == wanted;
    }

    /** What the kernel fetches next: an unpacked tree, single files or nothing. */
    method ExtractRoot(plan: Plan, iso: Iso, tools: Tools) returns (ok: bool)
      requires HasKernel(iso, tools) && HoldsOs(files, id, KernelHeld(iso)) && Consistent(plan)
      modifies this`files
      ensures OnlyOwn(old(files), files, id)
      ensures ok <==> if plan.needsNfs then tools.treeOk
                      else forall i | 0 <= i < |plan.httpFiles| :: Readable(iso, tools, plan.httpFiles[i].0)
      ensures ok && plan.needsNfs ==> files == Unpacked(old(files), iso, Nfs, id)
      ensures ok ==> LinuxExtracted(files, id, iso, plan)
    {
      ghost var before := files;
      ok := true;
      if plan.needsNfs {
        ok := ExtractTree(iso, tools, Nfs);
        UnpackedElsewhere(before, iso, Nfs, id);
      } else if |plan.httpFiles| > 0 {
        ok := ExtractHttpFiles(iso, tools, plan.httpFiles, KernelHeld(iso));
      }
    }

    /** Two members, under the names every Linux image's kernel and initrd have. */
    method ExtractPair(iso: Iso, tools: Tools, kernel: string, initrd: string) returns (ok: bool)
      requires NoneDerived(files, id)
      modifies this`files
      ensures OnlyOwn(old(files), files, id)
      ensures ok <==> Readable(iso, tools, kernel) && Readable(iso, tools, initrd)
      ensures ok ==> HoldsOs(files, id, map[VMLINUZ := iso.members[kernel], INITRD := iso.members[initrd]])
    {
      ok := ExtractOne(iso, tools, kernel, VMLINUZ);
      if !ok {
        return;
      }
      ok := ExtractOne(iso, tools, initrd, INITRD);
      if ok {
        PairHolds(old(files), id, iso.members[kernel], iso.members[initrd]);
      }
    }

    /** The kernel and the initrd that goes with it; false when there is none. */
    method ExtractKernel(iso: Iso, tools: Tools) returns (ok: bool)
      requires NoneDerived(files, id)
      modifies this`files
      ensures OnlyOwn(old(files), files, id)
      ensures ok <==> HasKernel(iso, tools)
      ensures ok ==> HoldsOs(files, id, KernelHeld(iso))
    {
      var initrd := InitrdOf(iso);
      if initrd.None? {
        return false;
      }
      ok := ExtractPair(iso, tools, KernelOf(iso).value, initrd.value);
    }

    /**
     * The Linux part of `process_image`. It ends ready exactly when what it looks for
     * is there and can be read, and then passes the start-up check exactly when the files
     * that its arguments name have content.
     */
    method ProcessLinux(iso: Iso, tools: Tools, builtin: Catalog)
      requires img.family == Linux && img.source == FromIso && NoneDerived(files, id)
      modifies this
      ensures RowKept() && img.family == Linux && OnlyOwn(old(files), files, id)
      ensures img.status == if LinuxReady(iso, tools, id) then Ready else Error
      ensures img.status == Ready ==> img.bootArgs == NetbootPlan(iso.entries, id).args
      ensures img.status == Ready ==> (Bootable(img, id, files, builtin) <==> LinuxBoots(iso, id))
    {
      var ok := ExtractKernel(iso, tools);
      if !ok {
        Fail();
        return;
      }
      var plan := NetbootPlan(iso.entries, id);
      PlanConsistent(iso.entries, id);
      ghost var before := files;
      ok := ExtractRoot(plan, iso, tools);
      if !ok {
        Fail();
        return;
      }
      img := img.(kernelPath := VMLINUZ, initrdPath := INITRD, bootArgs := plan.args, status := Ready);
      LinuxBootable(img, id, iso, before, files, builtin);
    }

    // --- Catalog images ----------------------------------------------------

    /** Files fetched or read one after another; a missing or empty one ends the run. */
    method FetchAll(wanted: seq<Rel>, src: Sources, needsKernel: bool) returns (ok: bool)
      requires NoneDerived(files, id)
      modifies this`files
      ensures OnlyOwn(old(files), files, id)
      ensures ok <==> Fetchable(wanted, src) && (needsKernel && VMLINUZ in wanted ==> src.isKernel)
      ensures ok ==> HoldsOs(files, id, FetchedHeld(wanted, src))
      ensures forall p | p in files && DerivedOf(p, id) :: InTree(p, Os, id)
    {
      ok := true;
      for i := 0 to |wanted|
        invariant ok && OnlyOwn(old(files), files, id)
        invariant forall j | 0 <= j < i :: wanted[j] in src.fetched && src.fetched[wanted[j]] > 0
        invariant needsKernel && VMLINUZ in wanted[..i] ==> src.isKernel
        invariant HoldsOs(files, id, FetchedHeld(wanted[..i], src))
        invariant forall p | p in files && DerivedOf(p, id) :: InTree(p, Os, id)
      {
        var rel := wanted[i];
        assert wanted[..i + 1] == wanted[..i] + [rel] && rel in wanted;
        if rel !in src.fetched {
          return false;
        }
        files := files[OsFile(id, rel) := src.fetched[rel]];
        if src.fetched[rel] == 0 || (needsKernel && rel == VMLINUZ && !src.isKernel) {
          return false;
        }
      }
      assert wanted[..|wanted|] == wanted;
    }

    /** `extract_boot_files`: the two members of an archive, whatever their size. */
    method ExtractArchive(src: Sources) returns (ok: bool)
      requires NoneDerived(files, id)
      modifies this`files
      ensures OnlyOwn(old(files), files, id)
      ensures ok <==> VMLINUZ in src.fetched && INITRD in src.fetched
      ensures ok ==> HoldsOs(files, id, FetchedHeld([VMLINUZ, INITRD], src))
      ensures forall p | p in files && DerivedOf(p, id) :: InTree(p, Os, id)
    {
      ok := VMLINUZ in src.fetched && INITRD in src.fetched;
      if ok {
        files := files[OsFile(id, VMLINUZ) := src.fetched[VMLINUZ]]
                      [OsFile(id, INITRD) := src.fetched[INITRD]];
      }
    }

    /** The members beside the root that the ISO has; false when one cannot be read. */
    method ExtractExtras(extras: seq<(string, Rel)>, iso: Iso, tools: Tools, ghost held: map<Rel, nat>)
      returns (ok: bool)
      requires HoldsOs(files, id, held)
      modifies this`files
      ensures OnlyOwn(old(files), files, id)
      ensures ok <==> ExtrasReadable(extras, iso, tools)
      ensures ok ==> HoldsOs(files, id, Placed(held, ExtraFiles(extras, iso.entries), iso))
      ensures forall p | DerivedOf(p, id) && !InTree(p, Os, id) :: p in files <==> p in old(files)
    {
      ok := true;
      for i := 0 to |extras|
        invariant ok && OnlyOwn(old(files), files, id)
        invariant ExtrasReadable(extras[..i], iso, tools)
        invariant HoldsOs(files, id, Placed(held, ExtraFiles(extras[..i], iso.entries), iso))
        invariant forall p | DerivedOf(p, id) && !InTree(p, Os, id) :: p in files <==> p in old(files)
      {
        ExtraStep(held, extras, iso, i);
        var member := Listed(iso.entries, extras[i].0);
        if member.Some? {
          ok := ExtractOne(iso, tools, member.value, extras[i].1);
          if !ok {
            return;
          }
        }
      }
      assert extras[..|extras|] == extras;
    }

    /** The live desktop's files, and for a casper one its unpacked ISO. */
    method ExtractLive(live: LiveEntry, src: Sources, tools: Tools) returns (ok: bool)
      requires NoneDerived(files, id)
      modifies this`files
      ensures OnlyOwn(old(files), files, id)
      ensures ok <==> && Fetchable(LiveRels(live), src) && ExtrasReadable(live.extraMembers, src.iso, tools)
                      && (live.rootOverNfs ==> tools.treeOk)
      ensures ok ==> HoldsOs(files, id, Placed(FetchedHeld(LiveRels(live), src),
                                               ExtraFiles(live.extraMembers, src.iso.entries), src.iso))
      ensures ok ==> (ExistsNonempty(files, Derived(Nfs, id, [])) <==> live.rootOverNfs && src.iso.members != map[])
    {
      ok := FetchAll(LiveRels(live), src, false);
      if ok {
        ok := ExtractExtras(live.extraMembers, src.iso, tools, FetchedHeld(LiveRels(live), src));
      }
      if ok && live.rootOverNfs {
        ghost var before := files;
        ok := ExtractTree(src.iso, tools, Nfs);
        UnpackedElsewhere(before, src.iso, Nfs, id);
        UnpackedNonempty(before, src.iso, Nfs, id);
      }
    }

    /** The initrd is the installer, and the hypervisor is unpacked. */
    method UnpackMultiboot(tools: Tools, ghost held: map<Rel, nat>) returns (ok: bool)
      requires HoldsOs(files, id, held) && INITRD in held && XEN_GZ in held
      requires OsFile(id, INITRD) in files
      modifies this`files
      ensures OnlyOwn(old(files), files, id)
      ensures ok <==> "xen.gz" !in tools.broken
      ensures ok ==> HoldsOs(files, id, LaidOut(held, tools))
    {
      var initrd := OsFile(id, INITRD);
      assert InTree(initrd, Os, id);
      files := (files - {initrd})[OsFile(id, INSTALLER_IMG) := files[initrd]];
      ok := Gunzip(tools, "xen.gz" !in tools.broken);
      if ok {
        files := files - {OsFile(id, XEN_GZ)};
      }
    }

    /** `_finish_xcpng_netboot`: the fetched files under the names the boot loader asks for. */
    method FinishXcpng(tools: Tools, builtin: Catalog, ghost held: map<Rel, nat>)
      requires HoldsOs(files, id, held)
      modifies this
      ensures RowKept() && OnlyOwn(old(files), files, id)
      ensures img.status == if INITRD in held && XEN_GZ in held && "xen.gz" !in tools.broken && tools.grubOk
                            then Ready else Error
      ensures img.status == Ready ==>
                (Bootable(img, id, files, builtin) <==>
                 && (tools.xenSize > 0 || Below(held, XEN)) && Served(VMLINUZ, held)
                 && (tools.grubSize > 0 || Below(held, GRUB_EFI))
                 && (held[INITRD] > 0 || Below(held, INSTALLER_IMG)))
    {
      assert InTree(OsFile(id, INITRD), Os, id) && InTree(OsFile(id, XEN_GZ), Os, id);
      if OsFile(id, INITRD) !in files || OsFile(id, XEN_GZ) !in files {
        Fail();
        return;
      }
      var ok := UnpackMultiboot(tools, held);
      if !ok {
        Fail();
        return;
      }
      ghost var laid := files;
      ok := BuildGrub(tools);
      if !ok {
        Fail();
        return;
      }
      img := img.(family := Xcpng, kernelPath := XEN, initrdPath := VMLINUZ, status := Ready,
                  bootArgs := if img.bootArgs != [] then img.bootArgs else DOM0_ARGS);
      GrubHolds(laid, id, LaidOut(held, tools), tools.grubSize);
      FinishedServed(held, tools);
      FinishedBootable(img, id, files, builtin, FinishedHeld(held, tools));
    }

    /** The entry, when it can still build this image. */
    function UsableEntry(builtin: Catalog, custom: Catalog): (r: Option<Entry>)
      reads this
      ensures r.Some? && img.variant == Live ==> r.value.live.Some?
      ensures r.Some? ==> r == CatalogEntry(builtin, custom, img.catalogId)
    {
      var entry := CatalogEntry(builtin, custom, img.catalogId);
      if entry.Some? && img.variant == Live && entry.value.live.None? then None else entry
    }

    /** The archive, downloaded unless it is there already; false when it cannot be had. */
    method FetchArchive(src: Sources) returns (ok: bool)
      requires img.source == FromCatalog
      modifies this`files
      ensures OnlyRun(old(files), files, id, img)
      ensures ok <==> HasArchive(img, old(files), src)
      ensures ok ==> ArchiveOf(img) in files
      ensures forall p: Path | p.Derived? ::
                (p in files <==> p in old(files)) && (p in files ==> files[p] == old(files)[p])
    {
      if img.sourceUrl != "" && ArchiveOf(img) !in files {
        files := files - {PartOf(img)};
        if src.archive.Some? {
          files := files[ArchiveOf(img) := src.archive.value];
        }
      }
      ok := ArchiveOf(img) in files;
    }

    /** The files of a catalog image, by its variant and how the entry names them. */
    method FetchSources(entry: Entry, src: Sources, tools: Tools) returns (ok: bool)
      requires NoneDerived(files, id) && (img.variant == Live ==> entry.live.Some?)
      modifies this`files
      ensures OnlyOwn(old(files), files, id)
      ensures ok <==> SourcesOk(entry, img.variant, img.release, src, tools)
      ensures ok ==> HoldsOs(files, id, CatalogHeld(entry, img.variant, img.release, src))
      ensures ok ==> (ExistsNonempty(files, Derived(Nfs, id, [])) <==>
                      img.variant == Live && entry.live.value.rootOverNfs && src.iso.members != map[])
    {
      if img.variant == Live {
        ok := ExtractLive(entry.live.value, src, tools);
      } else if entry.hasKernelUrl {
        ok := FetchAll(FetchedRels(entry, img.release), src, true);
        assert FetchedRels(entry, img.release)[0] == VMLINUZ;
      } else {
        ok := ExtractArchive(src);
      }
    }

    /** The archive if it takes one, and the files; a live ISO goes once they are extracted. */
    method FetchCatalog(entry: Entry, src: Sources, tools: Tools) returns (ok: bool)
      requires img.source == FromCatalog && NoneDerived(files, id) && (img.variant == Live ==> entry.live.Some?)
      modifies this`files
      ensures OnlyRun(old(files), files, id, img)
      ensures ok <==> && (NeedsArchive(entry, img.variant) ==> HasArchive(img, old(files), src))
                      && SourcesOk(entry, img.variant, img.release, src, tools)
      ensures ok ==> HoldsOs(files, id, CatalogHeld(entry, img.variant, img.release, src))
      ensures ok ==> (ExistsNonempty(files, Derived(Nfs, id, [])) <==>
                      img.variant == Live && entry.live.value.rootOverNfs && src.iso.members != map[])
      ensures ok ==> ArchiveKept(entry, img, old(files), files)
    {
      ok := true;
      if NeedsArchive(entry, img.variant) {
        ok := FetchArchive(src);
      }
      if ok {
        ok := FetchSources(entry, src, tools);
      }
      if ok && img.variant == Live {
        ghost var before := files;
        files := files - {ArchiveOf(img)};
        WithoutArchive(before, id, img, CatalogHeld(entry, img.variant, img.release, src));
      }
    }

    /**
     * `_process_netboot`. A catalog image ends ready exactly when its entry still exists
     * and its files can be had; it then passes the start-up check exactly when all that
     * its arguments and its entry demand was fetched.
     */
    method ProcessNetboot(builtin: Catalog, custom: Catalog, src: Sources, tools: Tools)
      requires img.source == FromCatalog && NoneDerived(files, id)
      modifies this
      ensures RowKept() && OnlyRun(old(files), files, id, img)
      ensures var entry := CatalogEntry(builtin, custom, img.catalogId);
        && img.status == (if CatalogReady(entry, old(img), old(files), src, tools) then Ready else Error)
        && (img.status == Ready ==>
              && NetbootVerdict(img, id, files, entry.value, builtin, src, tools)
              && ArchiveKept(entry.value, img, old(files), files))
    {
      var usable := UsableEntry(builtin, custom);
      if usable.None? {
        Fail();
        return;
      }
      var entry := usable.value;
      var ok := FetchCatalog(entry, src, tools);
      if !ok {
        Fail();
        return;
      }
      ghost var fetched := files;
      FinishCatalog(entry, src, tools, builtin);
      OwnAfterRun(old(files), fetched, files, id, old(img), img);
    }

    /** The row of a catalog image whose files are there. */
    method FinishCatalog(entry: Entry, src: Sources, tools: Tools, builtin: Catalog)
      requires img.source == FromCatalog && (img.variant == Live ==> entry.live.Some?)
      requires SourcesOk(entry, img.variant, img.release, src, tools)
      requires HoldsOs(files, id, CatalogHeld(entry, img.variant, img.release, src))
      requires ExistsNonempty(files, Derived(Nfs, id, [])) <==>
               img.variant == Live && entry.live.value.rootOverNfs && src.iso.members != map[]
      modifies this
      ensures RowKept() && OnlyOwn(old(files), files, id)
      ensures img.status == if LaidOutOk(entry, img.variant, img.release, src, tools) then Ready else Error
      ensures img.status == Ready ==> NetbootVerdict(img, id, files, entry, builtin, src, tools)
    {
      ghost var held := CatalogHeld(entry, img.variant, img.release, src);
      KernelIsFetched(entry, img.variant, img.release, src, tools);
      if entry.family == Xcpng {
        FinishXcpng(tools, builtin, held);
        return;
      }
      img := img.(family := Linux, kernelPath := VMLINUZ, initrdPath := INITRD, status := Ready,
                  bootArgs := if img.variant == Live then entry.live.value.bootArgs
                              else ForRelease(entry, img.release).bootArgs);
      if OwnArgs(img.bootArgs) {
        CatalogBootableIff(img, id, files, builtin, held);
      }
    }

    // --- The whole run -----------------------------------------------------

    /** What an earlier run left is wiped first. */
    method CleanDerivedData()
      modifies this`files
      ensures files == Clean(old(files), id)
    {
      RemoveTree(Os);
      RemoveTree(Nfs);
      RemoveTree(Smb);
    }

    /**
     * `process_image` once the row is claimed, with no Delete. The run ends ready exactly
     * when what its kind of image takes is there and the tools succeed, else in error. One
     * that ends ready passes the start-up check exactly when the files it boots from have
     * content.
     */
    method ProcessImage(iso: Iso, tools: Tools, builtin: Catalog, custom: Catalog, src: Sources)
      modifies this
      ensures RowKept() && OnlyRun(old(files), files, id, img)
      ensures img.status ==
              if RunReady(old(img), id, old(files), iso, tools, builtin, custom, src) then Ready else Error
      ensures img.status == Ready && img.source == FromIso ==>
                (Bootable(img, id, files, builtin) <==> IsoBoots(iso, id, tools))
      ensures img.status == Ready && img.source == FromIso ==> IsOfFamily(iso.entries, img.family)
      ensures img.status == Ready && img.source == FromCatalog ==>
                var entry: Entry := CatalogEntry(builtin, custom, img.catalogId).value;
                && NetbootVerdict(img, id, files, entry, builtin, src, tools)
                && ArchiveKept(entry, img, old(files), files)
    {
      if img.source == FromCatalog {
        RunCatalog(builtin, custom, src, tools);
      } else {
        RunIso(iso, tools, builtin);
      }
    }

    /** The run of a catalog image. */
    method RunCatalog(builtin: Catalog, custom: Catalog, src: Sources, tools: Tools)
      requires img.source == FromCatalog
      modifies this
      ensures RowKept() && OnlyRun(old(files), files, id, img)
      ensures var entry := CatalogEntry(builtin, custom, img.catalogId);
        && img.status == (if CatalogReady(entry, old(img), old(files), src, tools) then Ready else Error)
        && (img.status == Ready ==>
              && NetbootVerdict(img, id, files, entry.value, builtin, src, tools)
              && ArchiveKept(entry.value, img, old(files), files))
    {
      img := img.(status := Processing);
      CleanDerivedData();
      ghost var claimed := img;
      ProcessNetboot(builtin, custom, src, tools);
      ghost var entry: Option<Entry> := CatalogEntry(builtin, custom, img.catalogId);
      if entry.Some? {
        RunAfterClean(old(files), files, id, old(img), img, src, entry.value);
        RunAfterClean(old(files), files, id, old(img), claimed, src, entry.value);
      }
    }

    /** The run of an uploaded ISO. */
    method RunIso(iso: Iso, tools: Tools, builtin: Catalog)
      requires img.source == FromIso
      modifies this
      ensures RowKept() && OnlyOwn(old(files), files, id)
      ensures img.status ==
              if tools.listOk && IsoReady(iso, id, tools) then Ready else Error
      ensures img.status == Ready ==>
                && IsOfFamily(iso.entries, img.family)
                && (Bootable(img, id, files, builtin) <==> IsoBoots(iso, id, tools))
    {
      img := img.(status := Processing);
      CleanDerivedData();
      if !tools.listOk {
        Fail();
        return;
      }
      img := img.(family := DetectFamily(iso.entries));
      DetectsFamily(iso.entries);
      ProcessIso(iso, tools, builtin);
    }

    /** The rest of it, by the family that was detected. */
    method ProcessIso(iso: Iso, tools: Tools, builtin: Catalog)
      requires img.source == FromIso && NoneDerived(files, id)
      modifies this
      ensures RowKept() && img.family == old(img).family && OnlyOwn(old(files), files, id)
      ensures img.status == if FamilyReady(img.family, iso, id, tools) then Ready else Error
      ensures img.status == Ready ==> (Bootable(img, id, files, builtin) <==> FamilyBoots(img.family, iso, id, tools))
    {
      if img.family == Windows {
        ProcessWindows(iso, tools, builtin);
      } else if img.family == Xcpng {
        ProcessXcpng(iso, tools, builtin);
      } else {
        ProcessLinux(iso, tools, builtin);
      }
    }
  }
}
