/**
 * What Beacon takes off an ISO and boots it with, said by the listing: which
 * member is found, which initrd goes with a kernel, and which way of booting
 * the arguments ask for.
 */
module LinuxBoot {
  import opened Text
  import opened Store
  import opened BootFiles
  import opened IsoLayout
  import opened Extracted

  // --- What a pattern fits -------------------------------------------------

  /** One part of a pattern, on its own. */
  predicate IsPiece(a: Atom, s: string) {
    match a
    case Text(w) => Lower(s) == Lower(w)
    case Any => |s| == 1
    case AnyStar => true
    case SegPlus => s != "" && '/' !in s
  }

  predicate Pieces(a: Atom, p: Pattern, s: string, i: nat) {
    i <= |s| && IsPiece(a, s[..i]) && Fits(p, s[i..])
  }

  /** A path fits a pattern exactly if a piece of it is the first part and the rest fits the others. */
  lemma FitsByPieces(a: Atom, p: Pattern, s: string)
    ensures Fits([a] + p, s) <==> exists i :: Pieces(a, p, s, i)
  {
    if Fits([a] + p, s) {
      var i := FirstPiece(a, p, s);
    }
    if i: nat :| Pieces(a, p, s, i) {
      PiecesFit(a, p, s, i);
    }
  }

  lemma {:induction false} FirstPiece(a: Atom, p: Pattern, s: string) returns (i: nat)
    requires Fits([a] + p, s)
    ensures Pieces(a, p, s, i)
    decreases |s|
  {
    assert ([a] + p)[1..] == p;
    match a
    case Text(w) => i := |w|;
    case Any =>
      i := 1;
    case AnyStar =>
      i := 0;
      if Fits(p, s) {
        assert s[0..] == s;
      } else {
        var rest := FirstPiece(a, p, s[1..]);
        i := rest + 1;
        assert s[1..][rest..] == s[i..];
      }
    case SegPlus =>
      i := 1;
      if !Fits(p, s[1..]) {
        var rest := FirstPiece(a, p, s[1..]);
        i := rest + 1;
        assert s[1..][rest..] == s[i..] && s[..i] == [s[0]] + s[1..][..rest];
      }
  }

  lemma {:induction false} PiecesFit(a: Atom, p: Pattern, s: string, i: nat)
    requires Pieces(a, p, s, i)
    ensures Fits([a] + p, s)
    decreases i
  {
    assert ([a] + p)[1..] == p;
    if a.Text? {
      assert |Lower(s[..i])| == i && |Lower(a.word)| == |a.word|;
    } else if a.AnyStar? && i == 0 {
      assert s[0..] == s;
    } else if (a.AnyStar? || a.SegPlus?) && !(a.SegPlus? && i == 1) {
      assert s[1..][..i - 1] == s[..i][1..] && s[1..][i - 1..] == s[i..];
      assert s[..i][0] == s[0];
      PiecesFit(a, p, s[1..], i - 1);
    } else if a.SegPlus? {
      assert s[..1][0] == s[0];
    }
  }

  // --- Which member is found -----------------------------------------------

  /** The first entry that fits the first pattern that any entry fits. */
  predicate IsFirst(entries: seq<string>, patterns: seq<Pattern>, k: nat, i: nat) {
    && k < |patterns| && i < |entries| && Fits(patterns[k], StripDots(entries[i]))
    && FitsNothing(entries[..i], patterns[k])
    && forall j | 0 <= j < k :: FitsNothing(entries, patterns[j])
  }

  lemma {:induction false} FirstFitIsFirst(entries: seq<string>, p: Pattern) returns (i: nat)
    requires FirstFit(entries, p).Some?
    ensures IsFirst(entries, [p], 0, i) && FirstFit(entries, p) == Some(entries[i])
  {
    i := 0;
    if !Fits(p, StripDots(entries[0])) {
      var rest := FirstFitIsFirst(entries[1..], p);
      i := rest + 1;
      forall e | e in entries[..i]
        ensures !Fits(p, StripDots(e))
      {
        assert e == entries[0] || e in entries[1..][..rest];
      }
    }
  }

  /** What is found is the first entry of the first pattern. */
  lemma {:induction false} MatchIsFirst(entries: seq<string>, patterns: seq<Pattern>) returns (k: nat, i: nat)
    requires Match(entries, patterns).Some?
    ensures IsFirst(entries, patterns, k, i) && Match(entries, patterns) == Some(entries[i])
  {
    if FirstFit(entries, patterns[0]).Some? {
      k := 0;
      i := FirstFitIsFirst(entries, patterns[0]);
    } else {
      k, i := MatchIsFirst(entries, patterns[1..]);
      forall j | 0 <= j < k + 1
        ensures FitsNothing(entries, patterns[j])
      {
        assert j > 0 ==> patterns[j] == patterns[1..][j - 1];
      }
      k := k + 1;
    }
  }

  /** Of several members of one name the last one counts. */
  lemma {:induction false} ListedIsLast(entries: seq<string>, member: string, i: nat)
    requires i < |entries| && StripDots(entries[i]) == member
    requires forall j | i < j < |entries| :: StripDots(entries[j]) != member
    ensures Listed(entries, member) == Some(entries[i])
  {
    if i < |entries| - 1 {
      ListedIsLast(entries[..|entries| - 1], member, i);
    }
  }

  /** A pattern without wildcards is that path, in either case. */
  lemma FitsWord(w: string, s: string)
    ensures Fits([Text(w)], s) <==> Lower(s) == Lower(w)
  {
    assert [Text(w)][1..] == [];
    if |w| <= |s| {
      assert s[|w|..] == "" <==> |s| == |w|;
      assert |s| == |w| ==> s[..|w|] == s;
    }
    assert |Lower(s)| == |s| && |Lower(w)| == |w|;
  }

  /** An Ubuntu kernel is taken wherever it is listed, and whatever else is. */
  lemma CasperComesFirst(iso: Iso, e: string, casper: string)
    requires casper == "casper/vmlinuz" && e in iso.entries && Lower(StripDots(e)) == Lower(casper)
    ensures KernelOf(iso).Some? && Lower(StripDots(KernelOf(iso).value)) == Lower(casper)
  {
    assert KERNEL_PATTERNS[0] == [Text(casper)];
    FitsWord(casper, StripDots(e));
    var k, i := MatchIsFirst(iso.entries, KERNEL_PATTERNS);
    FitsWord(casper, StripDots(iso.entries[i]));
  }

  /** What a Windows boot file is called on the ISO. */
  function WindowsName(file: Rel): string {
    if file == ["bootmgr"] then "bootmgr"
    else if file == ["bcd"] then "boot/bcd"
    else if file == ["boot.sdi"] then "boot/boot.sdi"
    else "sources/boot.wim"
  }

  /** Each of them is looked for under its own name, in either case. */
  lemma WindowsMemberIs(iso: Iso, file: Rel)
    ensures var r := WindowsMember(iso, file);
      && (r.Some? <==> exists e | e in iso.entries :: Lower(StripDots(e)) == Lower(WindowsName(file)))
      && (r.Some? ==> Lower(StripDots(r.value)) == Lower(WindowsName(file)))
  {
    forall s
      ensures Fits(WindowsPattern(file), s) <==> Lower(s) == Lower(WindowsName(file))
    {
      FitsWord(WindowsName(file), s);
    }
  }

  // --- The initrd that goes with a kernel ----------------------------------

  /** An initramfs of this version. */
  predicate IsInitramfs(e: string, version: string) {
    Lower(BaseName(e)) == "initramfs" + version || Lower(BaseName(e)) == "initramfs" + version + ".img"
  }

  predicate HasInitramfs(entries: seq<string>, version: string) {
    exists e | e in entries :: IsInitramfs(e, version)
  }

  lemma {:induction false} BaseIsFound(entries: seq<string>, version: string, names: seq<string>)
    requires names == ["initramfs" + version, "initramfs" + version + ".img"]
    ensures var r := FindBase(entries, names);
      && (r.Some? <==> HasInitramfs(entries, version))
      && (r.Some? ==> IsInitramfs(r.value, version))
  {
    if entries != [] {
      BaseIsFound(entries[1..], version, names);
      assert IsInitramfs(entries[0], version) <==> Lower(BaseName(entries[0])) in names;
    }
  }

  /** A kernel with a version gets the initramfs of that version, if the ISO has one. */
  lemma PairedByVersion(kernel: string, initrd: string, entries: seq<string>, version: string)
    requires Lower(BaseName(kernel)) == "vmlinuz" + version && |version| > 1 && version[0] == '-'
    ensures var r := PairInitrd(kernel, initrd, entries);
      if HasInitramfs(entries, version) then IsInitramfs(r, version) else r == initrd
  {
    var name := BaseName(kernel);
    assert |name| == 7 + |version| && "vmlinuz-" < Lower(name);
    forall k | 0 <= k < |version|
      ensures Lower(name[7..])[k] == version[k]
    {
      LowerAt(name, 7 + k);
      LowerAt(name[7..], k);
    }
    assert Lower(name[7..]) == version;
    BaseIsFound(entries, version, ["initramfs" + version, "initramfs" + version + ".img"]);
  }

  /** Any other keeps the one that was found. */
  lemma PairedOtherwise(kernel: string, initrd: string, entries: seq<string>)
    requires var name := Lower(BaseName(kernel)); |name| <= 8 || name[..8] != "vmlinuz-"
    ensures PairInitrd(kernel, initrd, entries) == initrd
  {
  }

  // --- The way of booting --------------------------------------------------

  datatype Way = Ubuntu | Debian | Repository | Stage2 | LiveOs | Archiso | Unknown

  /** The way of booting that these arguments ask for. */
  predicate AsksFor(args: seq<Arg>, way: Way) {
    AsksByMark(args, way) && AsksByWord(args, "boot=casper", "boot=live", "ip=dhcp", way)
  }

  predicate AsksByMark(args: seq<Arg>, way: Way) {
    && (InstSource(true, true) in args <==> way == Repository)
    && (InstSource(false, true) in args <==> way == Stage2)
    && (RdLiveImage in args <==> way == LiveOs)
    && (Basedir(args).Some? <==> way == Archiso)
  }

  predicate AsksByWord(args: seq<Arg>, casper: string, live: string, dhcp: string, way: Way) {
    (Word(casper) in args <==> way == Ubuntu) && (Word(live) in args <==> way == Debian) && Word(dhcp) in args
  }

  lemma NfsAsks(casper: string, live: string, dhcp: string, id: Id)
    requires casper !in [live, dhcp] && live != dhcp && IP_DHCP == Word(dhcp)
    ensures var args := NfsRootPlan(casper, id).args;
      AsksByMark(args, Ubuntu) && AsksByWord(args, casper, live, dhcp, Ubuntu)
    ensures var args := NfsRootPlan(live, id).args;
      AsksByMark(args, Debian) && AsksByWord(args, casper, live, dhcp, Debian)
  {
    assert NfsRootPlan(casper, id).args[0] == Word(casper) && NfsRootPlan(casper, id).args[3] == Word(dhcp);
    assert NfsRootPlan(live, id).args[0] == Word(live) && NfsRootPlan(live, id).args[3] == Word(dhcp);
  }

  lemma InstallerAsks(isRepo: bool, casper: string, live: string, dhcp: string)
    requires casper != dhcp && live != dhcp && IP_DHCP == Word(dhcp)
    ensures var args, way := InstallerPlan(isRepo).args, if isRepo then Repository else Stage2;
      AsksByMark(args, way) && AsksByWord(args, casper, live, dhcp, way)
  {
    assert InstallerPlan(isRepo).args[0] == InstSource(isRepo, true) && InstallerPlan(isRepo).args[1] == Word(dhcp);
  }

  lemma SquashfsAsks(member: string, id: Id, casper: string, live: string, dhcp: string)
    requires casper != dhcp && live != dhcp && IP_DHCP == Word(dhcp)
    ensures var args := SquashfsPlan(member, id).args;
      AsksByMark(args, LiveOs) && AsksByWord(args, casper, live, dhcp, LiveOs)
  {
    assert SquashfsPlan(member, id).args[1] == RdLiveImage && SquashfsPlan(member, id).args[2] == Word(dhcp);
  }

  lemma ArchisoAsks(
      sfs: string, sha: Option<string>, id: Id, casper: string, live: string, dhcp: string, bootif: string)
    requires casper !in [dhcp, bootif] && live !in [dhcp, bootif] && IP_DHCP == Word(dhcp) && bootif == "BOOTIF"
    ensures var args := ArchisoPlan(sfs, sha, id).args;
      AsksByMark(args, Archiso) && AsksByWord(args, casper, live, dhcp, Archiso)
  {
    var args := ArchisoPlan(sfs, sha, id).args;
    assert args[1].ArchisoBasedir? && args[2] == Word(bootif) && args[3] == Word(dhcp);
  }

  /** casper comes before live, both before an installer, and that before a live image. */
  predicate LooksLike(entries: seq<string>, way: Way) {
    var casper, live := Mentions(entries, "casper/"), Mentions(entries, "live/");
    var pxeboot, repo := Mentions(entries, "images/pxeboot/"), Mentions(entries, "repodata/");
    var squashfs, airootfs := FirstFit(entries, SQUASHFS_PATTERN).Some?, FirstFit(entries, AIROOTFS_PATTERN).Some?;
    match way
    case Ubuntu => casper
    case Debian => live && !casper
    case Repository => pxeboot && repo && !casper && !live
    case Stage2 => pxeboot && !repo && !casper && !live
    case LiveOs => squashfs && !casper && !live && !pxeboot
    case Archiso => airootfs && !casper && !live && !pxeboot && !squashfs
    case Unknown => !airootfs && !casper && !live && !pxeboot && !squashfs
  }

  lemma OneWay(args: seq<Arg>, a: Way, b: Way)
    requires AsksFor(args, a) && AsksFor(args, b)
    ensures a == b
  {
  }

  lemma DhcpAsks(casper: string, live: string, dhcp: string)
    requires casper != dhcp && live != dhcp && IP_DHCP == Word(dhcp)
    ensures AsksByMark([IP_DHCP], Unknown) && AsksByWord([IP_DHCP], casper, live, dhcp, Unknown)
  {
    assert [IP_DHCP][0] == Word(dhcp);
  }

  lemma WordsDiffer(casper: string, live: string, dhcp: string, bootif: string)
    requires casper == "boot=casper" && live == "boot=live" && dhcp == "ip=dhcp" && bootif == "BOOTIF"
    ensures casper !in [live, dhcp, bootif] && live !in [dhcp, bootif]
  {
    assert casper[5] != live[5] && |dhcp| < |live| && |bootif| < |live|;
  }

  /** Debian and Ubuntu. */
  lemma MountsAsListed(entries: seq<string>, id: Id, casper: string, live: string, dhcp: string, way: Way)
    requires casper == "boot=casper" && live == "boot=live" && dhcp == "ip=dhcp"
    requires way in {Ubuntu, Debian} && LooksLike(entries, way)
    ensures AsksByMark(NetbootPlan(entries, id).args, way)
    ensures AsksByWord(NetbootPlan(entries, id).args, casper, live, dhcp, way)
  {
    WordsDiffer(casper, live, dhcp, "BOOTIF");
    NfsAsks(casper, live, dhcp, id);
  }

  lemma InstallsAsListed(entries: seq<string>, id: Id, casper: string, live: string, dhcp: string, way: Way)
    requires casper == "boot=casper" && live == "boot=live" && dhcp == "ip=dhcp"
    requires way in {Repository, Stage2} && LooksLike(entries, way)
    ensures AsksByMark(NetbootPlan(entries, id).args, way)
    ensures AsksByWord(NetbootPlan(entries, id).args, casper, live, dhcp, way)
  {
    WordsDiffer(casper, live, dhcp, "BOOTIF");
    InstallerAsks(way == Repository, casper, live, dhcp);
  }

  lemma LivePlan(entries: seq<string>, id: Id, way: Way)
    requires way in {LiveOs, Archiso, Unknown} && LooksLike(entries, way)
    ensures var squashfs, sfs := FirstFit(entries, SQUASHFS_PATTERN), FirstFit(entries, AIROOTFS_PATTERN);
      && (way == LiveOs ==> NetbootPlan(entries, id) == SquashfsPlan(squashfs.value, id))
      && (way == Archiso ==>
          NetbootPlan(entries, id) == ArchisoPlan(sfs.value, FirstFit(entries, SHA512_PATTERN), id))
      && (way == Unknown ==> NetbootPlan(entries, id).args == [IP_DHCP])
  {
  }

  lemma LivesAsListed(entries: seq<string>, id: Id, casper: string, live: string, dhcp: string, way: Way)
    requires casper == "boot=casper" && live == "boot=live" && dhcp == "ip=dhcp"
    requires way in {LiveOs, Archiso, Unknown} && LooksLike(entries, way)
    ensures AsksByMark(NetbootPlan(entries, id).args, way)
    ensures AsksByWord(NetbootPlan(entries, id).args, casper, live, dhcp, way)
  {
    LivePlan(entries, id, way);
    WordsDiffer(casper, live, dhcp, "BOOTIF");
    var squashfs, sfs := FirstFit(entries, SQUASHFS_PATTERN), FirstFit(entries, AIROOTFS_PATTERN);
    if way == LiveOs {
      SquashfsAsks(squashfs.value, id, casper, live, dhcp);
    } else if way == Archiso {
      ArchisoAsks(sfs.value, FirstFit(entries, SHA512_PATTERN), id, casper, live, dhcp, "BOOTIF");
    } else {
      DhcpAsks(casper, live, dhcp);
    }
  }

  lemma AsksAsListed(entries: seq<string>, id: Id, way: Way)
    requires LooksLike(entries, way)
    ensures AsksFor(NetbootPlan(entries, id).args, way)
  {
    if way in {Ubuntu, Debian} {
      MountsAsListed(entries, id, "boot=casper", "boot=live", "ip=dhcp", way);
    } else if way in {Repository, Stage2} {
      InstallsAsListed(entries, id, "boot=casper", "boot=live", "ip=dhcp", way);
    } else {
      LivesAsListed(entries, id, "boot=casper", "boot=live", "ip=dhcp", way);
    }
  }

  lemma LooksSomehow(entries: seq<string>) returns (way: Way)
    ensures LooksLike(entries, way)
  {
    way := if LooksLike(entries, Ubuntu) then Ubuntu else if LooksLike(entries, Debian) then Debian
           else if LooksLike(entries, Repository) then Repository else if LooksLike(entries, Stage2) then Stage2
           else if LooksLike(entries, LiveOs) then LiveOs else if LooksLike(entries, Archiso) then Archiso
           else Unknown;
  }

  /** The arguments ask for exactly the way of booting the listing looks like. */
  lemma PlanSays(entries: seq<string>, id: Id, way: Way)
    ensures AsksFor(NetbootPlan(entries, id).args, way) <==> LooksLike(entries, way)
  {
    var listed := LooksSomehow(entries);
    AsksAsListed(entries, id, listed);
    if AsksFor(NetbootPlan(entries, id).args, way) {
      OneWay(NetbootPlan(entries, id).args, way, listed);
    }
  }
}
