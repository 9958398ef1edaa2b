/**
 * How Beacon reads an ISO's file listing: path patterns, the distro family, and
 * the way a Linux ISO is going to netboot.
 */
module IsoLayout {
  import opened Text
  import opened Store
  import opened BootFiles

  /** What the tools see of an ISO: its listing, and the size of every file in it. */
  datatype Listing = Listing(entries: seq<string>, members: map<string, nat>)

  /** Every file is listed, and has a name. */
  predicate WellListed(iso: Listing) {
    forall e | e in iso.members :: e in iso.entries && Components(e) != []
  }

  type Iso = iso: Listing | WellListed(iso) witness Listing([], map[])

  /** The file has content. */
  predicate HasContent(iso: Iso, member: string) {
    member in iso.members && iso.members[member] > 0
  }

  // --- Patterns ------------------------------------------------------------

  /** The parts of a regular expression that the path patterns use. */
  datatype Atom =
    | Text(word: string)   // these letters, in either case
    | Any                  // .
    | AnyStar              // .*
    | SegPlus              // [^/]+

  type Pattern = seq<Atom>

  /** `fullmatch`, ignoring case. */
  predicate Fits(p: Pattern, s: string)
    decreases |p| + |s|
  {
    if p == [] then s == ""
    else match p[0]
      case Text(w) => |w| <= |s| && Lower(s[..|w|]) == Lower(w) && Fits(p[1..], s[|w|..])
      case Any => s != "" && Fits(p[1..], s[1..])
      case AnyStar => Fits(p[1..], s) || (s != "" && Fits(p, s[1..]))
      case SegPlus => s != "" && s[0] != '/' && (Fits(p[1..], s[1..]) || Fits(p, s[1..]))
  }

  /** `lstrip("./")`. */
  function StripDots(s: string): string {
    if s != "" && (s[0] == '.' || s[0] == '/') then StripDots(s[1..]) else s
  }

  predicate FitsNothing(entries: seq<string>, p: Pattern) {
    forall e | e in entries :: !Fits(p, StripDots(e))
  }

  function FirstFit(entries: seq<string>, p: Pattern): (r: Option<string>)
    ensures r.Some? ==> r.value in entries && Fits(p, StripDots(r.value))
    ensures r.None? <==> FitsNothing(entries, p)
  {
    if entries == [] then None
    else if Fits(p, StripDots(entries[0])) then Some(entries[0])
    else FirstFit(entries[1..], p)
  }

  /** `_match`: the first pattern that fits anything decides. */
  function Match(entries: seq<string>, patterns: seq<Pattern>): (r: Option<string>)
    ensures r.Some? ==> r.value in entries
    ensures r.None? <==> forall i | 0 <= i < |patterns| :: FitsNothing(entries, patterns[i])
  {
    if patterns == [] then None
    else
      var first := FirstFit(entries, patterns[0]);
      if first.Some? then first
      else
        assert forall i | 1 <= i < |patterns| :: patterns[i] == patterns[1..][i - 1];
        Match(entries, patterns[1..])
  }

  const KERNEL_PATTERNS: seq<Pattern> := [
    [Text("casper/vmlinuz")],
    [Text("live/vmlinuz"), AnyStar],
    [Text("images/pxeboot/vmlinuz")],
    [Text("isolinux/vmlinuz"), AnyStar],
    [Text("arch/boot/x86_64/vmlinuz"), AnyStar],
    [Text("boot/"), SegPlus, Text("/loader/linux")],
    [Text("boot/vmlinuz"), AnyStar],
    [Text("kernel/vmlinuz")],
    [AnyStar, Text("/vmlinuz"), AnyStar],
    [AnyStar, Text("/bzimage")]]

  const INITRD_PATTERNS: seq<Pattern> := [
    [Text("casper/initrd"), AnyStar],
    [Text("live/initrd"), AnyStar],
    [Text("images/pxeboot/initrd"), AnyStar],
    [Text("isolinux/initrd"), AnyStar],
    [Text("arch/boot/x86_64/initramfs"), AnyStar],
    [Text("boot/"), SegPlus, Text("/loader/initrd")],
    [Text("boot/initramfs"), AnyStar],
    [Text("boot/initrd"), AnyStar],
    [AnyStar, Text("/initrd"), AnyStar],
    [AnyStar, Text("/initramfs"), AnyStar]]

  const SQUASHFS_PATTERN: Pattern := [Text("liveos/squashfs"), Any, Text("img")]
  const AIROOTFS_PATTERN: Pattern := [Text("arch/"), SegPlus, Text("/airootfs"), Any, Text("sfs")]
  const SHA512_PATTERN: Pattern := [Text("arch/"), SegPlus, Text("/airootfs"), Any, Text("sha512")]

  /** What each Windows boot file is called on the ISO, in the order they are looked for. */
  function WindowsPattern(file: Rel): Pattern {
    if file == BOOT_MGR then [Text("bootmgr")]
    else if file == BCD then [Text("boot/bcd")]
    else if file == BOOT_SDI then [Text("boot/boot.sdi")]
    else [Text("sources/boot.wim")]
  }

  /** The last component of a listed path. */
  function BaseName(e: string): string {
    var parts := Split(StripDots(e), '/');
    parts[|parts| - 1]
  }

  function FindBase(entries: seq<string>, names: seq<string>): (r: Option<string>)
    ensures r.Some? ==> r.value in entries
  {
    if entries == [] then None
    else if Lower(BaseName(entries[0])) in names then Some(entries[0])
    else FindBase(entries[1..], names)
  }

  /** `_pair_initrd`: the initramfs named like the chosen kernel, if there is one. */
  function PairInitrd(kernel: string, initrd: string, entries: seq<string>): (r: string)
    ensures r == initrd || r in entries
  {
    var name := BaseName(kernel);
    if "vmlinuz-" < Lower(name) then
      var wanted := "initramfs" + Lower(name[7..]);
      var found := FindBase(entries, [wanted, wanted + ".img"]);
      if found.Some? then found.value else initrd
    else initrd
  }

  function Normal(e: string): string {
    StripSlashes(StripDots(Lower(e)))
  }

  /** `_detect_family`. */
  function DetectFamily(entries: seq<string>): Family {
    var norm := set e | e in entries :: Normal(e);
    if ("boot/xen.gz" in norm || "boot/xen.gz." in norm) && "install.img" in norm then Xcpng
    else if exists el | el in norm ::
      el in {"sources/boot.wim", "sources/install.wim", "bootmgr", "bootmgr.efi"} then Windows
    else Linux
  }

  // --- Which family a listing belongs to -----------------------------------

  /** The entry is this path: dots and slashes before it, slashes after it and letter case aside. */
  predicate IsPath(e: string, name: string) {
    exists i, j | 0 <= i <= j <= |e| ::
      && Lower(e[i..j]) == name
      && (forall k | 0 <= k < i :: e[k] == '.' || e[k] == '/')
      && (forall k | j <= k < |e| :: e[k] == '/')
  }

  predicate Lists(entries: seq<string>, name: string) {
    exists e | e in entries :: IsPath(e, name)
  }

  /** A XenServer or XCP-ng ISO carries the hypervisor, and its installer at the top. */
  predicate LooksXcpng(entries: seq<string>) {
    (Lists(entries, "boot/xen.gz") || Lists(entries, "boot/xen.gz.")) && Lists(entries, "install.img")
  }

  /** A Windows ISO carries one of its images in sources/, or its boot manager at the top. */
  predicate LooksWindows(entries: seq<string>) {
    || Lists(entries, "sources/boot.wim") || Lists(entries, "sources/install.wim")
    || Lists(entries, "bootmgr") || Lists(entries, "bootmgr.efi")
  }

  /** XCP-ng comes before Windows, and what looks like neither is Linux. */
  predicate IsOfFamily(entries: seq<string>, family: Family) {
    match family
    case Xcpng => LooksXcpng(entries)
    case Windows => LooksWindows(entries) && !LooksXcpng(entries)
    case Linux => !LooksXcpng(entries) && !LooksWindows(entries)
  }

  lemma {:induction false} DotsGo(s: string, i: nat)
    requires i <= |s| && (forall k | 0 <= k < i :: s[k] == '.' || s[k] == '/')
    requires i < |s| ==> s[i] != '.' && s[i] != '/'
    ensures StripDots(s) == s[i..]
  {
    if i > 0 {
      DotsGo(s[1..], i - 1);
      assert s[1..][i - 1..] == s[i..];
    }
  }

  lemma {:induction false} SlashesGo(s: string, j: nat)
    requires j <= |s| && (forall k | j <= k < |s| :: s[k] == '/')
    requires j > 0 ==> s[j - 1] != '/'
    ensures StripSlashes(s) == s[..j]
    decreases |s|
  {
    if j < |s| {
      SlashesGo(s[..|s| - 1], j);
      assert s[..|s| - 1][..j] == s[..j];
    } else {
      assert s[..j] == s;
    }
  }

  lemma {:induction false} LeadingDots(s: string) returns (i: nat)
    ensures i <= |s| && (forall k | 0 <= k < i :: s[k] == '.' || s[k] == '/')
    ensures i < |s| ==> s[i] != '.' && s[i] != '/'
  {
    if s != "" && (s[0] == '.' || s[0] == '/') {
      i := LeadingDots(s[1..]);
      i := i + 1;
    } else {
      i := 0;
    }
  }

  lemma {:induction false} TrailingSlashes(s: string) returns (j: nat)
    ensures j <= |s| && (forall k | j <= k < |s| :: s[k] == '/')
    ensures j > 0 ==> s[j - 1] != '/'
    decreases |s|
  {
    if s != "" && s[|s| - 1] == '/' {
      j := TrailingSlashes(s[..|s| - 1]);
    } else {
      j := |s|;
    }
  }

  lemma {:induction false} LowerSlice(s: string, i: nat, j: nat)
    requires i <= j <= |s|
    ensures Lower(s)[i..j] == Lower(s[i..j])
  {
    forall k | 0 <= k < j - i
      ensures Lower(s)[i..j][k] == Lower(s[i..j])[k]
    {
      LowerAt(s, i + k);
      LowerAt(s[i..j], k);
    }
  }

  lemma LowerKeeps(e: string)
    ensures forall k | 0 <= k < |e| :: (Lower(e)[k] == '.' <==> e[k] == '.') && (Lower(e)[k] == '/' <==> e[k] == '/')
  {
    forall k | 0 <= k < |e|
      ensures Lower(e)[k] == LowerChar(e[k])
    {
      LowerAt(e, k);
    }
  }

  predicate PlainEnds(name: string) {
    name != "" && name[0] != '.' && name[0] != '/' && name[|name| - 1] != '/'
  }

  lemma PathIsNormal(e: string, name: string, i: nat, j: nat)
    requires PlainEnds(name) && i <= j <= |e| && Lower(e[i..j]) == name
    requires (forall k | 0 <= k < i :: e[k] == '.' || e[k] == '/') && (forall k | j <= k < |e| :: e[k] == '/')
    ensures Normal(e) == name
  {
    var low := Lower(e);
    LowerKeeps(e);
    LowerSlice(e, i, j);
    assert low[i..j] == name && |name| == j - i;
    assert low[i] == name[0] && low[j - 1] == name[|name| - 1];
    DotsGo(low, i);
    SlashesGo(low[i..], j - i);
    assert low[i..][..j - i] == low[i..j];
  }

  lemma NormalIsPath(e: string)
    ensures IsPath(e, Normal(e))
  {
    var low := Lower(e);
    var i := LeadingDots(low);
    DotsGo(low, i);
    var j := TrailingSlashes(low[i..]);
    SlashesGo(low[i..], j);
    assert low[i..][..j] == low[i..i + j];
    LowerSlice(e, i, i + j);
    LowerKeeps(e);
    forall k | i + j <= k < |e|
      ensures e[k] == '/'
    {
      assert low[k] == low[i..][k - i];
    }
  }

  /** What is left of an entry once it is normalised is the path it is. */
  lemma NormalIff(e: string, name: string)
    requires PlainEnds(name)
    ensures Normal(e) == name <==> IsPath(e, name)
  {
    if IsPath(e, name) {
      var i, j :| 0 <= i <= j <= |e| && Lower(e[i..j]) == name
        && (forall k | 0 <= k < i :: e[k] == '.' || e[k] == '/') && (forall k | j <= k < |e| :: e[k] == '/');
      PathIsNormal(e, name, i, j);
    }
    NormalIsPath(e);
  }

  lemma ListsIff(entries: seq<string>, name: string)
    requires PlainEnds(name)
    ensures Lists(entries, name) <==> name in (set e | e in entries :: Normal(e))
  {
    forall e
      ensures Normal(e) == name <==> IsPath(e, name)
    {
      NormalIff(e, name);
    }
  }

  lemma XcpngIff(entries: seq<string>)
    ensures var norm := set e | e in entries :: Normal(e);
      LooksXcpng(entries) <==> ("boot/xen.gz" in norm || "boot/xen.gz." in norm) && "install.img" in norm
  {
    ListsIff(entries, "boot/xen.gz");
    ListsIff(entries, "boot/xen.gz.");
    ListsIff(entries, "install.img");
  }

  lemma WindowsIff(entries: seq<string>)
    ensures var norm := set e | e in entries :: Normal(e);
      LooksWindows(entries) <==>
      "sources/boot.wim" in norm || "sources/install.wim" in norm || "bootmgr" in norm || "bootmgr.efi" in norm
  {
    ListsIff(entries, "sources/boot.wim");
    ListsIff(entries, "sources/install.wim");
    ListsIff(entries, "bootmgr");
    ListsIff(entries, "bootmgr.efi");
  }

  /** The family that is detected is the one the listing looks like. */
  lemma DetectsFamily(entries: seq<string>)
    ensures IsOfFamily(entries, DetectFamily(entries))
  {
    XcpngIff(entries);
    WindowsIff(entries);
  }

  // --- How a Linux ISO netboots --------------------------------------------

  datatype Plan = Plan(needsNfs: bool, httpFiles: seq<(string, Rel)>, args: seq<Arg>)

  /** `sub` occurs in the lower-cased listing. */
  predicate Mentions(entries: seq<string>, sub: string) {
    exists e | e in entries :: Contains(Lower(e), sub)
  }

  const IP_DHCP := Word("ip=dhcp")

  /** The part of a path before its first slash. */
  function FirstPart(s: string): string {
    Split(s, '/')[0]
  }

  /** casper (Ubuntu) and live (Debian) mount their root over NFS. */
  function NfsRootPlan(boot: string, id: Id): Plan {
    Plan(true, [], [Word(boot), NetbootNfs, Own("nfsroot=", id), IP_DHCP])
  }

  /** A full DVD is its own repository; a netinstall ISO is only the stage 2. */
  function InstallerPlan(isRepo: bool): Plan {
    Plan(true, [], [InstSource(isRepo, true), IP_DHCP])
  }

  function SquashfsPlan(member: string, id: Id): Plan {
    Plan(false, [(member, SQUASHFS_IMG)], [Own("root=live:", id), RdLiveImage, IP_DHCP])
  }

  /** Archiso: the root file system and its checksum keep their place on the ISO. */
  function ArchisoPlan(sfs: string, sha: Option<string>, id: Id): Plan {
    Plan(false,
         [(sfs, Components(StripDots(sfs)))] +
         (if sha.Some? then [(sha.value, Components(StripDots(sha.value)))] else []),
         [Own("archiso_http_srv=", id), ArchisoBasedir(FirstPart(StripDots(sfs))),
          Word("BOOTIF"), IP_DHCP])
  }

  /** `_netboot_plan`. */
  function NetbootPlan(entries: seq<string>, id: Id): Plan {
    if Mentions(entries, "casper/") then NfsRootPlan("boot=casper", id)
    else if Mentions(entries, "live/") then NfsRootPlan("boot=live", id)
    else if Mentions(entries, "images/pxeboot/") then InstallerPlan(Mentions(entries, "repodata/"))
    else
      var squashfs := FirstFit(entries, SQUASHFS_PATTERN);
      if squashfs.Some? then SquashfsPlan(squashfs.value, id)
      else
        var sfs := FirstFit(entries, AIROOTFS_PATTERN);
        if sfs.Some? then ArchisoPlan(sfs.value, FirstFit(entries, SHA512_PATTERN), id)
        else Plan(false, [], [IP_DHCP])
  }

  // --- What a fitting path looks like --------------------------------------

  lemma SameTail(s: string, n: nat, k: nat)
    requires n + k <= |s|
    ensures |s[n..]| == |s| - n && s[n..][|s| - n - k..] == s[|s| - k..]
  {
  }

  lemma {:induction false} FitsSuffix(p: Pattern, w: string, s: string)
    requires Fits(p + [Text(w)], s)
    ensures |w| <= |s| && Lower(s[|s| - |w|..]) == Lower(w)
    decreases |p| + |s|
  {
    var q := p + [Text(w)];
    if p == [] {
      assert q[1..] == [] && s[|w|..] == "" && s[..|w|] == s;
    } else {
      assert q[1..] == p[1..] + [Text(w)];
      if Fits(q[1..], s) {
        FitsSuffix(p[1..], w, s);
      } else if p[0].Text? {
        FitsSuffix(p[1..], w, s[|p[0].word|..]);
        SameTail(s, |p[0].word|, |w|);
      } else if Fits(q, s[1..]) {
        FitsSuffix(p, w, s[1..]);
        SameTail(s, 1, |w|);
      } else {
        FitsSuffix(p[1..], w, s[1..]);
        SameTail(s, 1, |w|);
      }
    }
  }

  lemma {:induction false} SplitHead(a: string, b: string)
    requires '/' !in a
    ensures Split(a + "/" + b, '/') == [a] + Split(b, '/')
  {
    if a == "" {
      assert (a + "/" + b)[1..] == b;
    } else {
      assert (a + "/" + b)[1..] == a[1..] + "/" + b;
      SplitHead(a[1..], b);
      assert [a[0]] + a[1..] == a;
    }
  }

  /** A path whose last letter is no slash or dot names something. */
  lemma {:induction false} NamedAtEnd(s: string)
    requires s != "" && s[|s| - 1] != '/' && s[|s| - 1] != '.'
    ensures Components(s) != []
  {
    var parts := Split(s, '/');
    LastPart(s);
    KeepsNamed(parts, |parts| - 1);
  }

  lemma {:induction false} LastPart(s: string)
    requires s != "" && s[|s| - 1] != '/'
    ensures var parts := Split(s, '/');
      parts[|parts| - 1] != "" && var last := parts[|parts| - 1]; last[|last| - 1] == s[|s| - 1]
  {
    if |s| > 1 {
      LastPart(s[1..]);
    } else {
      assert s[1..] == "";
    }
  }

  lemma {:induction false} KeepsNamed(parts: seq<string>, i: nat)
    requires i < |parts| && parts[i] != "" && parts[i] != "."
    ensures parts[i] in KeepNamed(parts)
  {
    if i > 0 {
      KeepsNamed(parts[1..], i - 1);
    }
  }

  lemma ComponentsHead(a: string, b: string)
    requires a != "" && a != "." && '/' !in a
    ensures Components(a + "/" + b) == [a] + Components(b)
  {
    SplitHead(a, b);
    assert ([a] + Split(b, '/'))[1..] == Split(b, '/');
  }

  /** A path lies below the folder its first part names. */
  lemma BelowFirstPart(a: string, b: string)
    requires a != "" && a != "." && '/' !in a
    requires b != "" && b[|b| - 1] != '/' && b[|b| - 1] != '.'
    ensures FirstPart(a + "/" + b) == a && [a] < Components(a + "/" + b)
  {
    SplitHead(a, b);
    ComponentsHead(a, b);
    NamedAtEnd(b);
  }

  /** Lower-casing makes no slash or dot, and removes none. */
  lemma SamePunctuation(s: string, t: string, i: nat)
    requires Lower(s) == Lower(t) && i < |s|
    ensures |s| == |t|
    ensures s[i] == '/' <==> t[i] == '/'
    ensures s[i] == '.' <==> t[i] == '.'
  {
    assert |s| == |Lower(s)| && |t| == |Lower(t)|;
    LowerAt(s, i);
    LowerAt(t, i);
  }

  /** The name of one folder, no path. */
  predicate NamesFolder(part: string) {
    part != "" && '/' !in part && part[0] != '.'
  }

  lemma OneComponent(part: string)
    requires NamesFolder(part)
    ensures Components(part) == [part] && OwnFolder(part)
  {
    SplitNoSeparator(part, '/');
    assert [part][1..] == [];
    assert part[0] in part && "/"[0] == '/';
    assert part != "." && part != ".." by {
      assert "."[0] == '.' && ".."[0] == '.';
    }
    assert KeepNamed([part]) == [part];
  }

  /** A path that fits a folder, something and a name lies below that folder. */
  lemma FitsBelow(folder: string, middle: Pattern, name: string, s: string)
    requires folder != "" && '/' !in folder && folder[0] != '.'
    requires name != "" && name[|name| - 1] != '/' && name[|name| - 1] != '.'
    requires Fits([Text(folder + "/")] + middle + [Text(name)], s)
    ensures [FirstPart(s)] < Components(s) && NamesFolder(FirstPart(s)) && |FirstPart(s)| == |folder|
  {
    var n := |folder|;
    var p := [Text(folder + "/")] + middle + [Text(name)];
    assert p[0] == Text(folder + "/") && p[1..] == middle + [Text(name)];
    FitsSuffix(middle, name, s[n + 1..]);
    var a, b := s[..n], s[n + 1..];
    forall i | 0 <= i < n + 1
      ensures s[i] == '/' <==> i == n
      ensures i == 0 ==> s[i] != '.'
    {
      SamePunctuation(s[..n + 1], folder + "/", i);
    }
    SamePunctuation(b[|b| - |name|..], name, |name| - 1);
    assert s == a + "/" + b;
    assert a[0] == s[0] && s[0] != '.';
    BelowFirstPart(a, b);
  }

  /** Below a folder whose name is as long as "arch". */
  predicate BelowArch(s: string) {
    [FirstPart(s)] < Components(s) && NamesFolder(FirstPart(s)) && |FirstPart(s)| == 4
  }

  /** An airootfs path, and its checksum's, lie below the folder they name first. */
  lemma AirootfsBelowBasedir(s: string)
    requires Fits(AIROOTFS_PATTERN, s) || Fits(SHA512_PATTERN, s)
    ensures BelowArch(s)
  {
    var folder, middle := "arch", [SegPlus, Text("/airootfs"), Any];
    assert folder + "/" == "arch/";
    if Fits(AIROOTFS_PATTERN, s) {
      assert AIROOTFS_PATTERN == [Text(folder + "/")] + middle + [Text("sfs")];
      FitsBelow(folder, middle, "sfs", s);
    } else {
      assert SHA512_PATTERN == [Text(folder + "/")] + middle + [Text("sha512")];
      FitsBelow(folder, middle, "sha512", s);
    }
  }
}
