/**
 * Layouts that a run takes and the next start-up takes out of the menu again: a
 * live ISO that is mistaken for an installer, and a kernel that reads as empty.
 */
module FlaggedLayouts {
  import opened Text
  import opened Store
  import opened BootFiles
  import opened StartUp
  import opened IsoLayout
  import opened Extracted
  import opened Extraction

  // --- Any such ISO --------------------------------------------------------

  /** The run takes it for a Linux ISO, and reads a kernel and an initrd off it. */
  predicate Taken(iso: Iso, tools: Tools, id: Id) {
    tools.listOk && IsOfFamily(iso.entries, Linux) && LinuxReady(iso, tools, id)
  }

  /** An installer's kernel without the installer's image: any listing of that kind. */
  predicate InstallerWithoutImage(iso: Iso) {
    && Mentions(iso.entries, "images/pxeboot/")
    && !Mentions(iso.entries, "casper/") && !Mentions(iso.entries, "live/")
    && !HasInstallImg(iso)
  }

  predicate EmptyKernel(iso: Iso) {
    InitrdOf(iso).Some? && !(HasContent(iso, KernelOf(iso).value) && HasContent(iso, InitrdOf(iso).value))
  }

  /** Ready after the run, not bootable, and flagged by the next start-up. */
  method TakenAndFlagged(id: Id, row: Image, iso: Iso, tools: Tools, builtin: Catalog, custom: Catalog,
                         src: Sources, before: Files)
    returns (img: Image, files: Files)
    requires row.source == FromIso && Taken(iso, tools, id)
    requires InstallerWithoutImage(iso) || EmptyKernel(iso)
    ensures img.status == Ready && !Bootable(img, id, files, builtin)
    ensures Settle(img, id, files, builtin).status == NeedsReprocess
  {
    BootsInstallerIff(iso, id);
    var run := new Run(id, row, before);
    run.ProcessImage(iso, tools, builtin, custom, src);
    img, files := run.img, run.files;
  }

  // --- An old Fedora live ISO ----------------------------------------------

  lemma {:induction false} ContainsAt(s: string, sub: string) returns (i: nat)
    requires Contains(s, sub)
    ensures i + |sub| <= |s| && s[i..i + |sub|] == sub
  {
    if sub <= s {
      i := 0;
    } else {
      var j := ContainsAt(s[1..], sub);
      i := j + 1;
    }
  }

  /** Nowhere in the path does `d` come right after `c`, in either case. */
  predicate NoPair(e: string, c: char, d: char) {
    forall i | 0 <= i < |e| - 1 && LowerChar(e[i]) == c :: LowerChar(e[i + 1]) != d
  }

  /** A path without two neighbouring letters of `sub` next to each other does not mention it. */
  lemma NotMentioned(e: string, sub: string, k: nat)
    requires k + 1 < |sub| && NoPair(e, sub[k], sub[k + 1])
    ensures !Contains(Lower(e), sub)
  {
    if Contains(Lower(e), sub) {
      var i := ContainsAt(Lower(e), sub);
      assert Lower(e)[i..i + |sub|][k] == sub[k] && Lower(e)[i..i + |sub|][k + 1] == sub[k + 1];
      LowerAt(e, i + k);
      LowerAt(e, i + k + 1);
    }
  }

  lemma PxebootParts(e: string, name: string)
    requires e == "images/pxeboot/" + name
    ensures Components(e) == ["images", "pxeboot"] + Components(name)
  {
    var inner := "pxeboot" + "/" + name;
    assert e == "images" + "/" + inner;
    ComponentsHead("pxeboot", name);
    ComponentsHead("images", inner);
    assert ["images"] + (["pxeboot"] + Components(name)) == ["images", "pxeboot"] + Components(name);
  }

  lemma LiveOsParts(e: string, name: string)
    requires e == "LiveOS/" + name
    ensures Components(e) == ["LiveOS"] + Components(name)
  {
    assert e == "LiveOS" + "/" + name;
    ComponentsHead("LiveOS", name);
  }

  lemma KernelParts(e: string)
    requires e == "images/pxeboot/vmlinuz"
    ensures ["images", "pxeboot"] <= Components(e)
  {
    PxebootParts(e, "vmlinuz");
  }

  lemma InitrdParts(e: string)
    requires e == "images/pxeboot/initrd.img"
    ensures ["images", "pxeboot"] <= Components(e)
  {
    PxebootParts(e, "initrd.img");
  }

  lemma RootParts(e: string)
    requires e == "LiveOS/squashfs.img"
    ensures ["LiveOS"] <= Components(e)
  {
    LiveOsParts(e, "squashfs.img");
  }

  lemma NoLiveFolder(e: string)
    requires NoPair(e, 'c', 'a') && (NoPair(e, 'v', 'e') || NoPair(e, 'e', '/'))
    ensures !Contains(Lower(e), "casper/") && !Contains(Lower(e), "live/")
  {
    var casper, live := "casper/", "live/";
    assert casper[0] == 'c' && casper[1] == 'a';
    assert live[2] == 'v' && live[3] == 'e' && live[4] == '/';
    NotMentioned(e, casper, 0);
    NotMentioned(e, live, if NoPair(e, 'v', 'e') then 2 else 3);
  }

  lemma KernelNoLive(e: string)
    requires e == "images/pxeboot/vmlinuz"
    ensures !Contains(Lower(e), "casper/") && !Contains(Lower(e), "live/")
  {
    NoLiveFolder(e);
  }

  lemma InitrdNoLive(e: string)
    requires e == "images/pxeboot/initrd.img"
    ensures !Contains(Lower(e), "casper/") && !Contains(Lower(e), "live/")
  {
    NoLiveFolder(e);
  }

  lemma RootNoLive(e: string)
    requires e == "LiveOS/squashfs.img"
    ensures !Contains(Lower(e), "casper/") && !Contains(Lower(e), "live/")
  {
    NoLiveFolder(e);
  }

  /** The files of such an ISO. */
  predicate IsFedoraLive(iso: Listing, kernel: string, initrd: string, root: string, efi: string) {
    && kernel == "images/pxeboot/vmlinuz" && initrd == "images/pxeboot/initrd.img"
    && root == "LiveOS/squashfs.img" && efi == "EFI/BOOT/BOOTX64.EFI"
    && iso == Listing([kernel, initrd, root, efi], map[kernel := 9, initrd := 8, root := 7, efi := 6])
  }

  lemma EfiParts(e: string)
    requires e == "EFI/BOOT/BOOTX64.EFI"
    ensures ["EFI"] <= Components(e)
  {
    var folder, name := e[..3], e[4..];
    assert e == folder + "/" + name;
    SomeParts(folder, name);
    assert folder == "EFI";
  }

  lemma SomeParts(folder: string, name: string)
    requires folder != "" && folder != "." && '/' !in folder
    ensures [folder] <= Components(folder + "/" + name)
  {
    ComponentsHead(folder, name);
  }

  lemma EfiNoLive(e: string)
    requires e == "EFI/BOOT/BOOTX64.EFI"
    ensures !Contains(Lower(e), "casper/") && !Contains(Lower(e), "live/")
  {
    NoLiveFolder(e);
  }

  /** None of these is the installer's image. */
  lemma NoInstallImg(iso: Listing, kernel: string, initrd: string, root: string, efi: string)
    requires IsFedoraLive(iso, kernel, initrd, root, efi)
    ensures WellListed(iso) && !HasInstallImg(iso)
  {
    KernelParts(kernel);
    InitrdParts(initrd);
    RootParts(root);
    EfiParts(efi);
    OtherParts(iso, [kernel, initrd, root, efi]);
  }

  lemma OtherParts(iso: Listing, names: seq<string>)
    requires iso.entries == names && forall e | e in iso.members :: e in names
    requires forall e | e in names :: var parts := Components(e);
               (|parts| > 0 && parts[0] != "images") || (|parts| > 1 && parts[1] == "pxeboot")
    ensures WellListed(iso) && !HasInstallImg(iso)
  {
    assert "pxeboot" != "install.img" by {
      assert |"pxeboot"| == 7 && |"install.img"| == 11;
    }
    forall e | e in iso.entries
      ensures !(TREE_INSTALL_IMG <= Components(e))
    {
    }
  }

  // --- What the run finds --------------------------------------------------

  lemma {:induction false} AnythingFits(s: string)
    ensures Fits([AnyStar], s)
  {
    assert [AnyStar][1..] == [];
    if s != "" {
      AnythingFits(s[1..]);
    }
  }

  lemma WordFits(word: string, rest: string)
    ensures Fits([Text(word), AnyStar], word + rest)
    ensures Fits([Text(word)], word)
  {
    var s := word + rest;
    assert s[..|word|] == word && s[|word|..] == rest;
    assert [Text(word), AnyStar][1..] == [AnyStar];
    AnythingFits(rest);
    assert [Text(word)][1..] == [] && word[..|word|] == word && word[|word|..] == "";
  }

  lemma MatchAt(entries: seq<string>, patterns: seq<Pattern>, k: nat, e: string)
    requires k < |patterns| && e in entries && e != "" && e[0] != '.' && e[0] != '/' && Fits(patterns[k], e)
    ensures Match(entries, patterns).Some?
  {
    assert StripDots(e) == e;
    assert !FitsNothing(entries, patterns[k]);
  }

  lemma PxebootKernelPattern(word: string)
    requires word == "images/pxeboot/vmlinuz"
    ensures |KERNEL_PATTERNS| > 2 && KERNEL_PATTERNS[2] == [Text(word)]
  {
  }

  lemma PxebootInitrdPattern(word: string)
    requires word == "images/pxeboot/initrd"
    ensures |INITRD_PATTERNS| > 2 && INITRD_PATTERNS[2] == [Text(word), AnyStar]
  {
  }

  lemma KernelIsFound(entries: seq<string>, kernel: string)
    requires kernel == "images/pxeboot/vmlinuz" && kernel in entries
    ensures Match(entries, KERNEL_PATTERNS).Some?
  {
    WordFits(kernel, "");
    PxebootKernelPattern(kernel);
    MatchAt(entries, KERNEL_PATTERNS, 2, kernel);
  }

  lemma InitrdIsFound(entries: seq<string>, initrd: string)
    requires initrd == "images/pxeboot/initrd.img" && initrd in entries
    ensures Match(entries, INITRD_PATTERNS).Some?
  {
    var word, rest := initrd[..21], initrd[21..];
    assert initrd == word + rest && word == "images/pxeboot/initrd";
    WordFits(word, rest);
    PxebootInitrdPattern(word);
    MatchAt(entries, INITRD_PATTERNS, 2, initrd);
  }

  /** Where every entry is a file that can be read, so are the ones that are found. */
  lemma FindsReadable(iso: Iso, tools: Tools)
    requires Match(iso.entries, KERNEL_PATTERNS).Some? && Match(iso.entries, INITRD_PATTERNS).Some?
    requires (forall e | e in iso.entries :: e in iso.members) && tools.broken == {}
    ensures HasKernel(iso, tools)
  {
  }

  lemma TakenIf(iso: Iso, tools: Tools, id: Id)
    requires tools.listOk && tools.treeOk && IsOfFamily(iso.entries, Linux) && HasKernel(iso, tools)
    requires Mentions(iso.entries, "casper/") || Mentions(iso.entries, "images/pxeboot/")
    ensures Taken(iso, tools, id)
  {
  }

  lemma NormalIs(e: string)
    requires e != "" && LowerChar(e[0]) != '.' && LowerChar(e[0]) != '/' && LowerChar(e[|e| - 1]) != '/'
    ensures Normal(e) == Lower(e) && Lower(e) != "" && Lower(e)[0] == LowerChar(e[0])
  {
    LowerAt(e, 0);
    LowerAt(e, |e| - 1);
    NothingToStrip(Lower(e));
  }

  lemma NothingToStrip(e: string)
    requires e != "" && e[0] != '.' && e[0] != '/' && e[|e| - 1] != '/'
    ensures StripSlashes(StripDots(e)) == e
  {
  }

  /** A name that starts with one of these letters gives away Windows or XCP-ng. */
  predicate StartsOtherwise(e: string) {
    && e != "" && LowerChar(e[0]) != '.' && LowerChar(e[0]) != '/' && LowerChar(e[|e| - 1]) != '/'
    && LowerChar(e[0]) != 'b' && LowerChar(e[0]) != 's'
  }

  lemma IsLinux(entries: seq<string>)
    requires forall e | e in entries :: StartsOtherwise(e)
    ensures DetectFamily(entries) == Linux && IsOfFamily(entries, Linux)
  {
    var norm := set e | e in entries :: Normal(e);
    forall el | el in norm
      ensures el != "" && el[0] != 'b' && el[0] != 's'
    {
      var e :| e in entries && Normal(e) == el;
      NormalIs(e);
    }
    StartsElsewhere(norm);
    DetectsFamily(entries);
  }

  /** A listing of an XCP-ng ISO. */
  lemma XcpngListing(hypervisor: string, kernel: string, installer: string)
    requires hypervisor == "boot/xen.gz" && kernel == "boot/vmlinuz" && installer == "./install.img"
    ensures DetectFamily([hypervisor, kernel, installer]) == Xcpng
  {
    var entries := [hypervisor, kernel, installer];
    IsListed(entries, 0, 0, hypervisor);
    IsListed(entries, 2, 2, installer[2..]);
    DetectsFamily(entries);
  }

  /** One of a Windows ISO, which writes its names in capitals. */
  lemma WindowsListing(manager: string, image: string)
    requires manager == "BOOTMGR" && image == "sources/install.esd"
    ensures DetectFamily([manager, image]) == Windows
  {
    var entries := [manager, image];
    IsListed(entries, 0, 0, "bootmgr");
    NoInstaller(entries);
    DetectsFamily(entries);
  }

  /** A package of that name somewhere below does not make an ISO Windows. */
  lemma UbuntuListing(kernel: string, package: string)
    requires kernel == "casper/vmlinuz" && package == "pool/main/e/efibootmgr/bootmgr"
    ensures DetectFamily([kernel, package]) == Linux
  {
    IsLinux([kernel, package]);
  }

  lemma IsListed(entries: seq<string>, n: nat, i: nat, name: string)
    requires n < |entries| && i <= |entries[n]| && forall k | 0 <= k < i :: entries[n][k] == '.' || entries[n][k] == '/'
    requires |name| == |entries[n]| - i && forall k | 0 <= k < |name| :: LowerChar(entries[n][i + k]) == name[k]
    ensures Lists(entries, name)
  {
    var e := entries[n];
    assert e in entries && e[i..|e|] == e[i..];
    forall k | 0 <= k < |name|
      ensures Lower(e[i..])[k] == name[k]
    {
      LowerAt(e[i..], k);
    }
    assert Lower(e[i..|e|]) == name;
  }

  lemma NoInstaller(entries: seq<string>)
    requires forall e | e in entries :: |e| == 7 || |e| == 19
    requires forall e | e in entries :: e[0] != '.' && e[0] != '/' && e[|e| - 1] != '/'
    ensures !LooksXcpng(entries)
  {
    forall e | e in entries
      ensures !IsPath(e, "install.img")
    {
      assert |"install.img"| == 11;
    }
  }

  lemma StartsElsewhere(norm: set<string>)
    requires forall el | el in norm :: el != "" && el[0] != 'b' && el[0] != 's'
    ensures "boot/xen.gz" !in norm && "boot/xen.gz." !in norm
    ensures forall el | el in norm :: el !in {"sources/boot.wim", "sources/install.wim", "bootmgr", "bootmgr.efi"}
  {
    assert "boot/xen.gz"[0] == 'b' && "boot/xen.gz."[0] == 'b' && "sources/boot.wim"[0] == 's';
    assert "sources/install.wim"[0] == 's' && "bootmgr"[0] == 'b' && "bootmgr.efi"[0] == 'b';
  }

  lemma PxebootMentioned(e: string, name: string)
    requires e == "images/pxeboot/" + name
    ensures Contains(Lower(e), "images/pxeboot/")
  {
    forall i | 0 <= i < |e|
      ensures Lower(e)[i] == LowerChar(e[i])
    {
      LowerAt(e, i);
    }
    var n := |"images/pxeboot/"|;
    assert Lower(e)[..n] == "images/pxeboot/";
  }

  /** An old Fedora live ISO is such an ISO: it becomes ready and is flagged by the next start-up. */
  lemma FedoraLiveFlagged(
      iso: Listing, kernel: string, initrd: string, root: string, efi: string, tools: Tools, id: Id)
    requires IsFedoraLive(iso, kernel, initrd, root, efi) && tools.listOk && tools.broken == {} && tools.treeOk
    ensures WellListed(iso) && Taken(iso, tools, id) && InstallerWithoutImage(iso)
  {
    NoInstallImg(iso, kernel, initrd, root, efi);
    FedoraMembers(iso, kernel, initrd, root, efi);
    FedoraMentions(iso, kernel, initrd, root, efi);
    TakenFromPxeboot(iso, kernel, initrd, tools, id);
  }

  lemma TakenFromPxeboot(iso: Iso, kernel: string, initrd: string, tools: Tools, id: Id)
    requires kernel == "images/pxeboot/vmlinuz" && initrd == "images/pxeboot/initrd.img"
    requires kernel in iso.entries && initrd in iso.entries && Mentions(iso.entries, "images/pxeboot/")
    requires forall e | e in iso.entries :: e in iso.members && StartsOtherwise(e)
    requires tools.listOk && tools.broken == {} && tools.treeOk
    ensures Taken(iso, tools, id)
  {
    KernelIsFound(iso.entries, kernel);
    InitrdIsFound(iso.entries, initrd);
    FindsReadable(iso, tools);
    IsLinux(iso.entries);
    TakenIf(iso, tools, id);
  }

  lemma FedoraMentions(iso: Listing, kernel: string, initrd: string, root: string, efi: string)
    requires IsFedoraLive(iso, kernel, initrd, root, efi)
    ensures Mentions(iso.entries, "images/pxeboot/")
    ensures !Mentions(iso.entries, "casper/") && !Mentions(iso.entries, "live/")
  {
    assert kernel in iso.entries;
    PxebootMentioned(kernel, "vmlinuz");
    FedoraNoLive(iso.entries, kernel, initrd, root, efi);
  }

  lemma FedoraNoLive(entries: seq<string>, kernel: string, initrd: string, root: string, efi: string)
    requires kernel == "images/pxeboot/vmlinuz" && initrd == "images/pxeboot/initrd.img"
    requires root == "LiveOS/squashfs.img" && efi == "EFI/BOOT/BOOTX64.EFI"
    requires forall e | e in entries :: e in {kernel, initrd, root, efi}
    ensures !Mentions(entries, "casper/") && !Mentions(entries, "live/")
  {
    KernelNoLive(kernel);
    InitrdNoLive(initrd);
    RootNoLive(root);
    EfiNoLive(efi);
    NoneMentions(entries, {kernel, initrd, root, efi}, "casper/");
    NoneMentions(entries, {kernel, initrd, root, efi}, "live/");
  }

  lemma NoneMentions(entries: seq<string>, names: set<string>, sub: string)
    requires forall e | e in entries :: e in names
    requires forall e | e in names :: !Contains(Lower(e), sub)
    ensures !Mentions(entries, sub)
  {
  }

  lemma FedoraMembers(iso: Listing, kernel: string, initrd: string, root: string, efi: string)
    requires IsFedoraLive(iso, kernel, initrd, root, efi)
    ensures kernel in iso.entries && initrd in iso.entries
    ensures forall e | e in iso.entries :: e in iso.members && StartsOtherwise(e)
  {
  }

  // --- A kernel that reads as empty ----------------------------------------

  /** The kernel and its versioned name are hard links, and the other one holds the data. */
  predicate IsHardLinked(iso: Listing, plain: string, versioned: string, initrd: string, root: string) {
    && plain == "casper/vmlinuz" && versioned == "casper/vmlinuz-6.8" && initrd == "casper/initrd"
    && root == "casper/filesystem.squashfs"
    && iso == Listing([plain, versioned, initrd, root], map[plain := 0, versioned := 9, initrd := 8, root := 7])
  }

  lemma CasperParts(e: string)
    requires |e| > 7 && e[..6] == "casper" && e[6] == '/'
    ensures Components(e) != []
  {
    var folder, name := e[..6], e[7..];
    assert e == folder + "/" + name;
    SomeParts(folder, name);
  }

  lemma CasperMentioned(e: string)
    requires e == "casper/initrd"
    ensures Contains(Lower(e), "casper/")
  {
    forall i | 0 <= i < |e|
      ensures Lower(e)[i] == LowerChar(e[i])
    {
      LowerAt(e, i);
    }
    assert Lower(e)[..|"casper/"|] == "casper/";
  }

  lemma CasperKernel(entries: seq<string>, plain: string)
    requires plain == "casper/vmlinuz" && entries != [] && entries[0] == plain
    ensures Match(entries, KERNEL_PATTERNS) == Some(plain)
  {
    WordFits(plain, "");
    CasperKernelPattern(plain);
    FirstOfFirst(entries, KERNEL_PATTERNS, plain);
  }

  lemma FirstOfFirst(entries: seq<string>, patterns: seq<Pattern>, e: string)
    requires entries != [] && entries[0] == e && patterns != [] && Fits(patterns[0], e)
    requires e != "" && e[0] != '.' && e[0] != '/'
    ensures Match(entries, patterns) == Some(e)
  {
    assert StripDots(e) == e;
    assert FirstFit(entries, patterns[0]) == Some(e);
  }

  lemma CasperKernelPattern(word: string)
    requires word == "casper/vmlinuz"
    ensures |KERNEL_PATTERNS| > 0 && KERNEL_PATTERNS[0] == [Text(word)]
  {
  }

  lemma CasperInitrd(entries: seq<string>, initrd: string)
    requires initrd == "casper/initrd" && initrd in entries
    ensures Match(entries, INITRD_PATTERNS).Some?
  {
    WordFits(initrd, "");
    CasperInitrdPattern(initrd);
    assert initrd + "" == initrd;
    MatchAt(entries, INITRD_PATTERNS, 0, initrd);
  }

  lemma CasperInitrdPattern(word: string)
    requires word == "casper/initrd"
    ensures |INITRD_PATTERNS| > 0 && INITRD_PATTERNS[0] == [Text(word), AnyStar]
  {
  }

  lemma HardLinkedMembers(iso: Listing, plain: string, versioned: string, initrd: string, root: string)
    requires IsHardLinked(iso, plain, versioned, initrd, root)
    ensures iso.members.Keys == (set e | e in iso.entries) == {plain, versioned, initrd, root}
    ensures iso.members[plain] == 0
  {
    assert |plain| == 14 && |versioned| == 18 && |initrd| == 13 && |root| == 26;
  }

  lemma HardLinkedNamed(iso: Listing, plain: string, versioned: string, initrd: string, root: string)
    requires IsHardLinked(iso, plain, versioned, initrd, root)
    ensures WellListed(iso) && forall e | e in iso.entries :: e in iso.members && StartsOtherwise(e)
  {
    HardLinkedMembers(iso, plain, versioned, initrd, root);
    CasperParts(plain);
    CasperParts(versioned);
    CasperParts(initrd);
    CasperParts(root);
    forall e | e in iso.entries
      ensures e in iso.members && StartsOtherwise(e) && Components(e) != []
    {
      assert e in iso.members.Keys;
    }
  }

  /** Such an ISO becomes ready with an empty kernel, and is flagged by the next start-up. */
  lemma EmptyKernelFlagged(
      iso: Listing, plain: string, versioned: string, initrd: string, root: string, tools: Tools, id: Id)
    requires IsHardLinked(iso, plain, versioned, initrd, root) && tools.listOk && tools.broken == {} && tools.treeOk
    ensures WellListed(iso) && Taken(iso, tools, id) && EmptyKernel(iso)
  {
    HardLinkedNamed(iso, plain, versioned, initrd, root);
    HardLinkedMembers(iso, plain, versioned, initrd, root);
    TakenWithEmptyKernel(iso, plain, initrd, tools, id);
  }

  lemma TakenWithEmptyKernel(iso: Iso, plain: string, initrd: string, tools: Tools, id: Id)
    requires plain == "casper/vmlinuz" && iso.entries != [] && iso.entries[0] == plain && plain in iso.members
    requires initrd == "casper/initrd" && initrd in iso.entries && iso.members[plain] == 0
    requires forall e | e in iso.entries :: e in iso.members && StartsOtherwise(e)
    requires tools.listOk && tools.broken == {} && tools.treeOk
    ensures Taken(iso, tools, id) && EmptyKernel(iso)
  {
    CasperKernel(iso.entries, plain);
    CasperInitrd(iso.entries, initrd);
    FindsReadable(iso, tools);
    CasperMentioned(initrd);
    IsLinux(iso.entries);
    TakenIf(iso, tools, id);
  }
}
