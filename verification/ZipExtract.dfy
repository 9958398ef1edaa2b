/**
 * Unpacking a driver archive. Windows-built archives spell paths with backslashes
 * and store folders as empty files, so entries are cleaned up, folder markers are
 * dropped, and an archive whose files get in each other's way is refused.
 */
module ZipExtract {
  import opened Text

  type Data = seq<bv8>
  type Parts = seq<string>

  datatype Entry = Entry(name: string, link: bool, data: Data)
  datatype Member = Member(parts: Parts, data: Data)
  datatype Node = Folder | File(data: Data)
  type Tree = map<Parts, Node>

  /** `OsError` is what the file system raises; the others are told to the admin. */
  datatype Refusal = Exists | TooMany | TooBig | Escapes | Conflict | Nothing | OsError

  datatype Result<T> = Ok(value: T) | Err(why: Refusal)

  const MAX_ENTRIES: nat := 20000
  const MAX_TOTAL_BYTES: nat := 2 * 1024 * 1024 * 1024

  // --- Names ---------------------------------------------------------------

  predicate Unsafe(c: char) {
    c <= '\U{1F}' || c == '/' || c == '\\'
  }

  function DropUnsafe(s: string): (r: string)
    ensures forall c | c in r :: c in s && !Unsafe(c)
  {
    if s == "" then ""
    else if Unsafe(s[0]) then DropUnsafe(s[1..])
    else [s[0]] + DropUnsafe(s[1..])
  }

  function Clean(component: string): string {
    Strip(DropUnsafe(component))
  }

  lemma CleanIsSafe(component: string)
    ensures Stripped(Clean(component)) && forall c | c in Clean(component) :: !Unsafe(c)
  {
    forall c | c in Clean(component)
      ensures !Unsafe(c)
    {
      InStrip(DropUnsafe(component), c);
    }
  }

  function Slashed(name: string): (r: string)
    ensures |r| == |name| && forall i | 0 <= i < |r| :: r[i] == if name[i] == '\\' then '/' else name[i]
  {
    if name == "" then "" else [if name[0] == '\\' then '/' else name[0]] + Slashed(name[1..])
  }

  function NameComponents(name: string): seq<string> {
    Split(Slashed(name), '/')
  }

  predicate Tidy(part: string) {
    part != "" && part != "." && Stripped(part) && forall c | c in part :: !Unsafe(c)
  }

  /** The components that are kept, cleaned, in order. */
  function Named(components: seq<string>): (parts: Parts)
    ensures forall part | part in parts :: Tidy(part)
  {
    if components == [] then []
    else
      var part := Clean(components[0]);
      CleanIsSafe(components[0]);
      (if part == "" || part == "." then [] else [part]) + Named(components[1..])
  }

  /** A component that can stand in a path as it is. */
  predicate SafePart(part: string) {
    Tidy(part) && part != ".."
  }

  predicate SafePath(parts: Parts) {
    forall part | part in parts :: SafePart(part)
  }

  lemma NamedFirst(components: seq<string>)
    requires components != []
    ensures var part, rest := Clean(components[0]), Named(components[1..]);
            Named(components) == if part == "" || part == "." then rest else [part] + rest
  {
  }

  /** The first `i` components gave `parts`, none of them "..". */
  predicate NamedSoFar(components: seq<string>, i: nat, parts: Parts)
    requires i <= |components|
  {
    Named(components) == parts + Named(components[i..]) && ".." !in parts
  }

  lemma JoinNext(parts: Parts, part: string, rest: Parts)
    ensures parts + ([part] + rest) == parts + [part] + rest && part in parts + ([part] + rest)
  {
    assert (parts + ([part] + rest))[|parts|] == part;
  }

  lemma NamedNext(components: seq<string>, i: nat, parts: Parts)
    requires i < |components| && NamedSoFar(components, i, parts)
    ensures var part := Clean(components[i]);
            if part == "" || part == "." then NamedSoFar(components, i + 1, parts)
            else if part == ".." then ".." in Named(components)
            else NamedSoFar(components, i + 1, parts + [part])
  {
    NamedFirst(components[i..]);
    assert components[i..][0] == components[i] && components[i..][1..] == components[i + 1..];
    JoinNext(parts, Clean(components[i]), Named(components[i + 1..]));
  }

  /** The entry's path as far as Beacon will use it; nothing when it climbs out. */
  method MemberParts(name: string) returns (r: Result<Parts>)
    ensures r.Ok? <==> ".." !in Named(NameComponents(name))
    ensures r.Ok? ==> r.value == Named(NameComponents(name)) && SafePath(r.value)
    ensures r.Err? ==> r.why == Escapes
  {
    var components := NameComponents(name);
    var parts: Parts := [];
    assert components[0..] == components;
    for i := 0 to |components|
      invariant NamedSoFar(components, i, parts)
    {
      NamedNext(components, i, parts);
      var cleaned := Clean(components[i]);
      if cleaned == "" || cleaned == "." {
        continue;
      }
      if cleaned == ".." {
        return Err(Escapes);
      }
      parts := parts + [cleaned];
    }
    assert components[|components|..] == [];
    assert parts + [] == parts;
    r := Ok(parts);
  }

  /** A cleaned path, written out again, is read back as it is. */
  lemma {:induction false} CleanPathIsStable(parts: Parts)
    requires parts != [] && SafePath(parts)
    ensures Named(NameComponents(Join(parts, '/'))) == parts
  {
    JoinKeepsSafe(parts);
    var name := Join(parts, '/');
    assert Slashed(name) == name;
    SplitOfJoin(parts, '/');
    NamedSafe(parts);
  }

  lemma {:induction false} JoinKeepsSafe(parts: Parts)
    requires SafePath(parts)
    ensures '\\' !in Join(parts, '/')
    ensures forall part | part in parts :: '/' !in part
  {
    if parts != [] {
      assert SafePart(parts[0]);
      JoinKeepsSafe(parts[1..]);
      assert parts == [parts[0]] + parts[1..];
    }
  }

  lemma {:induction false} NothingDropped(s: string)
    requires forall c | c in s :: !Unsafe(c)
    ensures DropUnsafe(s) == s
  {
    if s != "" {
      assert s[0] in s;
      NothingDropped(s[1..]);
    }
  }

  lemma {:induction false} NamedSafe(parts: Parts)
    requires SafePath(parts)
    ensures Named(parts) == parts
  {
    if parts != [] {
      assert SafePart(parts[0]);
      NothingDropped(parts[0]);
      StripOfStripped(parts[0]);
      NamedSafe(parts[1..]);
    }
  }

  // --- Where a path leads --------------------------------------------------

  /** `root.joinpath(*parts).resolve()` where there are no links. */
  function Resolve(at: Parts, parts: Parts): Parts
    decreases parts
  {
    if parts == [] then at
    else if parts[0] == ".." then Resolve(if at == [] then [] else at[..|at| - 1], parts[1..])
    else Resolve(at + [parts[0]], parts[1..])
  }

  /** A path without ".." stays below the folder it starts from. */
  lemma {:induction false} StaysUnder(root: Parts, parts: Parts)
    requires SafePath(parts)
    ensures Resolve(root, parts) == root + parts
    decreases parts
  {
    if parts != [] {
      assert SafePart(parts[0]);
      StaysUnder(root + [parts[0]], parts[1..]);
      assert root + [parts[0]] + parts[1..] == root + parts;
    } else {
      assert root + parts == root;
    }
  }

  // --- What an archive holds -----------------------------------------------

  predicate IsDir(e: Entry) {
    e.name != "" && e.name[|e.name| - 1] == '/'
  }

  /** The entries that are files: folders have a slash at the end. */
  function Files(entries: seq<Entry>): (files: seq<Entry>)
    ensures forall e :: e in files <==> e in entries && (e.name == "" || e.name[|e.name| - 1] != '/')
  {
    if entries == [] then []
    else (if IsDir(entries[0]) then [] else [entries[0]]) + Files(entries[1..])
  }

  function TotalSize(entries: seq<Entry>): nat {
    if entries == [] then 0 else |entries[0].data| + TotalSize(entries[1..])
  }

  /** Sizes add up, over folders too. */
  lemma {:induction false} SizesAddUp(a: seq<Entry>, b: seq<Entry>)
    ensures TotalSize(a + b) == TotalSize(a) + TotalSize(b) && |Files(a + b)| == |Files(a)| + |Files(b)|
    ensures forall e :: TotalSize([e]) == |e.data| && |Files([e])| <= 1
  {
    assert forall e: Entry :: [e][1..] == [];
    if a == [] {
      assert a + b == b;
    } else {
      assert (a + b)[1..] == a[1..] + b;
      SizesAddUp(a[1..], b);
    }
  }

  function PathOf(e: Entry): Parts {
    Named(NameComponents(e.name))
  }

  /** What an entry adds: nothing when it is a link or has no usable path. */
  function MemberOf(e: Entry): (ms: seq<Member>)
    ensures forall m | m in ms :: m.parts != []
  {
    if e.link || PathOf(e) == [] then [] else [Member(PathOf(e), e.data)]
  }

  /** The entries with a usable path, in archive order. */
  function Members(files: seq<Entry>): (ms: seq<Member>)
    ensures forall m | m in ms :: m.parts != []
  {
    if files == [] then [] else MemberOf(files[0]) + Members(files[1..])
  }

  predicate Climbs(e: Entry) {
    !e.link && ".." in PathOf(e)
  }

  /** Some entry lies below this path. */
  predicate IsFolder(ms: seq<Member>, p: Parts) {
    p != [] && exists m | m in ms :: p < m.parts
  }

  predicate Names(ms: seq<Member>, p: Parts) {
    exists m | m in ms :: m.parts == p
  }

  /** The last entry of a path is the one that stays. */
  function LastData(ms: seq<Member>, p: Parts): Data
    requires Names(ms, p)
  {
    var m, front := ms[|ms| - 1], ms[..|ms| - 1];
    if m.parts == p then m.data
    else
      assert forall o | o in ms :: o == m || o in front;
      LastData(front, p)
  }

  /** A non-empty file stands where another entry needs a folder. */
  predicate Clash(ms: seq<Member>) {
    exists m | m in ms :: m.data != [] && IsFolder(ms, m.parts)
  }

  /** Exactly the archive's files and the folders above them. */
  ghost predicate Unpacked(tree: Tree, ms: seq<Member>) {
    && (forall p :: p in tree <==> Names(ms, p) || IsFolder(ms, p))
    && (forall p | p in tree ::
          if IsFolder(ms, p) then tree[p] == Folder else Names(ms, p) && tree[p] == File(LastData(ms, p)))
  }

  // --- Dropping folder markers ---------------------------------------------

  predicate Marker(m: Member, all: seq<Member>) {
    m.data == [] && IsFolder(all, m.parts)
  }

  function Real(ms: seq<Member>, all: seq<Member>): (kept: seq<Member>)
    ensures forall m :: m in kept <==> m in ms && !Marker(m, all)
  {
    if ms == [] then []
    else
      var last := ms[|ms| - 1];
      Real(ms[..|ms| - 1], all) + if Marker(last, all) then [] else [last]
  }

  /** Below any folder there is an entry that is no marker: a deepest one. */
  lemma {:induction false} RealBelow(all: seq<Member>, p: Parts, m: Member, limit: nat) returns (below: Member)
    requires p != [] && m in all && p < m.parts
    requires forall o | o in all :: |o.parts| <= limit
    ensures below in Real(all, all) && p < below.parts
    decreases limit - |m.parts|
  {
    if Marker(m, all) {
      var o :| o in all && m.parts < o.parts;
      below := RealBelow(all, p, o, limit);
    } else {
      below := m;
    }
  }

  function Longest(ms: seq<Member>): (n: nat)
    ensures forall m | m in ms :: |m.parts| <= n
  {
    if ms == [] then 0
    else
      var rest := Longest(ms[1..]);
      if |ms[0].parts| > rest then |ms[0].parts| else rest
  }

  /** Markers are implied by what lies below them. */
  lemma RealSameFolders(all: seq<Member>, p: Parts)
    ensures IsFolder(Real(all, all), p) <==> IsFolder(all, p)
  {
    if IsFolder(all, p) {
      var m :| m in all && p < m.parts;
      var below := RealBelow(all, p, m, Longest(all));
    }
  }

  lemma {:induction false} RealLast(ms: seq<Member>, all: seq<Member>, p: Parts)
    requires !IsFolder(all, p)
    ensures Names(Real(ms, all), p) <==> Names(ms, p)
    ensures Names(ms, p) ==> LastData(Real(ms, all), p) == LastData(ms, p)
  {
    if ms != [] {
      var front, last := ms[..|ms| - 1], ms[|ms| - 1];
      RealLast(front, all, p);
      assert ms == front + [last];
      var kept := Real(ms, all);
      if Marker(last, all) {
        assert kept == Real(front, all);
      } else {
        assert kept[..|kept| - 1] == Real(front, all);
      }
    }
  }

  /** No path is both a file and a folder. */
  ghost predicate Consistent(ms: seq<Member>) {
    forall p :: !(Names(ms, p) && IsFolder(ms, p))
  }

  lemma ConsistentIffNoClash(all: seq<Member>)
    ensures Consistent(Real(all, all)) <==> !Clash(all)
  {
    var kept := Real(all, all);
    if Clash(all) {
      var m :| m in all && m.data != [] && IsFolder(all, m.parts);
      RealSameFolders(all, m.parts);
      assert m in kept && Names(kept, m.parts);
    } else {
      forall p
        ensures !(Names(kept, p) && IsFolder(kept, p))
      {
        RealSameFolders(all, p);
      }
    }
  }

  lemma FewerAreConsistent(some: seq<Member>, more: seq<Member>)
    requires Consistent(more) && forall m | m in some :: m in more
    ensures Consistent(some)
  {
    forall p
      ensures !(Names(some, p) && IsFolder(some, p))
    {
      assert !(Names(more, p) && IsFolder(more, p));
    }
  }

  lemma RealOfFront(all: seq<Member>, i: nat)
    requires i < |all|
    ensures Real(all[..i + 1], all) == Real(all[..i], all) + if Marker(all[i], all) then [] else [all[i]]
  {
    assert all[..i + 1][..i] == all[..i];
  }

  lemma {:induction false} RealOfPart(all: seq<Member>, i: nat)
    requires i <= |all|
    ensures forall m | m in Real(all[..i], all) :: m in Real(all, all)
  {
    assert forall m | m in all[..i] :: m in all;
  }

  lemma UnpackedAll(tree: Tree, all: seq<Member>)
    requires Unpacked(tree, Real(all, all)) && !Clash(all)
    ensures Unpacked(tree, all)
  {
    var kept := Real(all, all);
    forall p
      ensures p in tree <==> Names(all, p) || IsFolder(all, p)
      ensures p in tree ==>
                if IsFolder(all, p) then tree[p] == Folder else Names(all, p) && tree[p] == File(LastData(all, p))
    {
      RealSameFolders(all, p);
      if !IsFolder(all, p) {
        RealLast(all, all, p);
      }
    }
  }

  lemma SomethingIsReal(all: seq<Member>)
    requires all != [] && forall m | m in all :: m.parts != []
    ensures Real(all, all) != []
  {
    var m := all[0];
    if Marker(m, all) {
      var o :| o in all && m.parts < o.parts;
      var below := RealBelow(all, m.parts, o, Longest(all));
    } else {
      assert m in Real(all, all);
    }
  }

  /** Files of distinct paths: the order of the archive does not matter. */
  lemma {:induction false} OrderDoesNotMatter(tree: Tree, other: Tree, ms: seq<Member>, ns: seq<Member>)
    requires Unpacked(tree, ms) && Unpacked(other, ns)
    requires forall m :: m in ms <==> m in ns
    requires forall m, m' | m in ms && m' in ms && m.parts == m'.parts :: m == m'
    ensures tree == other
  {
    forall p
      ensures p in tree <==> p in other
      ensures p in tree ==> tree[p] == other[p]
    {
      assert IsFolder(ms, p) <==> IsFolder(ns, p);
      assert Names(ms, p) <==> Names(ns, p);
      if Names(ms, p) && !IsFolder(ms, p) {
        LastIsMember(ms, p);
        LastIsMember(ns, p);
      }
    }
  }

  lemma {:induction false} LastIsMember(ms: seq<Member>, p: Parts)
    requires Names(ms, p)
    ensures Member(p, LastData(ms, p)) in ms
  {
    var m, front := ms[|ms| - 1], ms[..|ms| - 1];
    if m.parts != p {
      assert forall o | o in ms :: o == m || o in front;
      LastIsMember(front, p);
    }
  }

  // --- One more file -------------------------------------------------------

  lemma FoldersMore(ms: seq<Member>, m: Member, p: Parts)
    ensures IsFolder(ms + [m], p) <==> IsFolder(ms, p) || (p != [] && p < m.parts)
    ensures Names(ms + [m], p) <==> Names(ms, p) || p == m.parts
  {
    assert m in ms + [m];
    assert forall o | o in ms :: o in ms + [m];
    assert forall o | o in ms + [m] :: o in ms || o == m;
  }

  /** The tree with the folders above a path. */
  ghost predicate WithParents(tree: Tree, before: Tree, parts: Parts) {
    && (forall p :: p in tree <==> p in before || (p != [] && p < parts))
    && (forall p | p in tree :: tree[p] == if p in before then before[p] else Folder)
  }

  predicate ParentsFree(tree: Tree, parts: Parts) {
    forall i | 0 < i < |parts| :: parts[..i] in tree ==> tree[parts[..i]] == Folder
  }

  lemma FreeIffConsistent(tree: Tree, ms: seq<Member>, m: Member)
    requires Unpacked(tree, ms) && Consistent(ms) && m.parts != []
    ensures Consistent(ms + [m])
      <==> ParentsFree(tree, m.parts) && !(m.parts in tree && tree[m.parts] == Folder)
  {
    var more := ms + [m];
    FoldersMore(ms, m, m.parts);
    if Consistent(more) {
      forall i | 0 < i < |m.parts| && m.parts[..i] in tree
        ensures tree[m.parts[..i]] == Folder
      {
        var above := m.parts[..i];
        FoldersMore(ms, m, above);
        assert !(Names(more, above) && IsFolder(more, above));
      }
      assert !(Names(more, m.parts) && IsFolder(more, m.parts));
    } else {
      var p :| Names(more, p) && IsFolder(more, p);
      FoldersMore(ms, m, p);
      assert !(Names(ms, p) && IsFolder(ms, p));
      if p != m.parts {
        assert p == m.parts[..|p|];
      }
    }
  }

  lemma UnpackedMore(tree: Tree, mid: Tree, ms: seq<Member>, m: Member)
    requires Unpacked(tree, ms) && Consistent(ms) && Consistent(ms + [m])
    requires m.parts != [] && WithParents(mid, tree, m.parts)
    ensures Unpacked(mid[m.parts := File(m.data)], ms + [m])
  {
    var after, more := mid[m.parts := File(m.data)], ms + [m];
    forall p
      ensures p in after <==> Names(more, p) || IsFolder(more, p)
      ensures p in after ==>
                if IsFolder(more, p) then after[p] == Folder else Names(more, p) && after[p] == File(LastData(more, p))
    {
      FoldersMore(ms, m, p);
      assert !(Names(more, p) && IsFolder(more, p));
      if Names(more, p) {
        assert more[..|more| - 1] == ms;
      }
    }
  }

  // --- Reading the archive -------------------------------------------------

  method ParseEntry(info: Entry) returns (r: Result<seq<Member>>)
    ensures r == if Climbs(info) then Err(Escapes) else Ok(MemberOf(info))
    ensures r.Ok? ==> Safe(r.value)
  {
    if info.link {
      return Ok([]);
    }
    var parts := MemberParts(info.name);
    if parts.Err? {
      return Err(parts.why);
    }
    r := Ok(if parts.value == [] then [] else [Member(parts.value, info.data)]);
  }

  predicate Safe(ms: seq<Member>) {
    forall m | m in ms :: m.parts != [] && SafePath(m.parts)
  }

  predicate SomeClimbs(files: seq<Entry>) {
    exists e | e in files :: Climbs(e)
  }

  lemma MembersFrom(files: seq<Entry>, i: nat)
    requires i < |files|
    ensures Members(files[i..]) == MemberOf(files[i]) + Members(files[i + 1..])
  {
    assert files[i..][1..] == files[i + 1..];
  }

  lemma ClimbsUpTo(files: seq<Entry>, i: nat)
    requires i < |files|
    ensures SomeClimbs(files[..i + 1]) <==> SomeClimbs(files[..i]) || Climbs(files[i])
  {
    var e, front := files[i], files[..i];
    assert files[..i + 1] == front + [e];
    assert e in front + [e];
    assert forall o | o in front + [e] :: o in front || o == e;
    assert forall o | o in front :: o in front + [e];
  }

  /** The first `i` entries were usable, and gave `parsed`. */
  predicate ParsedSoFar(files: seq<Entry>, i: nat, parsed: seq<Member>)
    requires i <= |files|
  {
    parsed + Members(files[i..]) == Members(files) && !SomeClimbs(files[..i]) && Safe(parsed)
  }

  lemma ParsedOneMore(files: seq<Entry>, i: nat, parsed: seq<Member>, one: seq<Member>)
    requires i < |files| && ParsedSoFar(files, i, parsed)
    requires !Climbs(files[i]) && one == MemberOf(files[i]) && Safe(one)
    ensures ParsedSoFar(files, i + 1, parsed + one)
  {
    MembersFrom(files, i);
    ClimbsUpTo(files, i);
    assert parsed + (one + Members(files[i + 1..])) == parsed + one + Members(files[i + 1..]);
  }

  lemma ParsedAll(files: seq<Entry>, parsed: seq<Member>)
    requires ParsedSoFar(files, |files|, parsed)
    ensures parsed == Members(files) && !SomeClimbs(files)
  {
    assert files[|files|..] == [] && files[..|files|] == files;
    assert parsed + [] == parsed;
  }

  lemma OneClimbs(files: seq<Entry>, i: nat)
    requires i < |files| && Climbs(files[i])
    ensures SomeClimbs(files)
  {
    var e := files[i];
    assert e in files;
  }

  method Parse(files: seq<Entry>) returns (r: Result<seq<Member>>)
    ensures r.Err? <==> SomeClimbs(files)
    ensures r.Err? ==> r.why == Escapes
    ensures r.Ok? ==> r.value == Members(files) && Safe(r.value)
  {
    var parsed: seq<Member> := [];
    for i := 0 to |files|
      invariant ParsedSoFar(files, i, parsed)
    {
      var one := ParseEntry(files[i]);
      if one.Err? {
        OneClimbs(files, i);
        return Err(one.why);
      }
      ParsedOneMore(files, i, parsed, one.value);
      parsed := parsed + one.value;
    }
    ParsedAll(files, parsed);
    r := Ok(parsed);
  }

  method FolderPaths(ms: seq<Member>) returns (dirs: set<Parts>)
    ensures forall p :: p in dirs <==> IsFolder(ms, p)
  {
    dirs := {};
    for k := 0 to |ms|
      invariant forall p :: p in dirs <==> IsFolder(ms[..k], p)
    {
      var parts := ms[k].parts;
      ghost var before := dirs;
      var i := 1;
      while i < |parts|
        invariant 0 < i && (parts == [] || i <= |parts|)
        invariant forall p :: p in dirs <==> p in before || (p != [] && p < parts && |p| < i)
      {
        forall p | p < parts && |p| == i
          ensures p == parts[..i]
        {
        }
        dirs := dirs + {parts[..i]};
        i := i + 1;
      }
      assert ms[..k + 1] == ms[..k] + [ms[k]];
      forall p
        ensures p in dirs <==> IsFolder(ms[..k + 1], p)
      {
        FoldersMore(ms[..k], ms[k], p);
      }
    }
    assert ms[..|ms|] == ms;
  }

  /** The first `i` entries are done. */
  ghost predicate Halfway(tree: Tree, parsed: seq<Member>, i: nat, written: nat)
    requires i <= |parsed|
  {
    var kept := Real(parsed[..i], parsed);
    Unpacked(tree, kept) && Consistent(kept) && written == |kept|
  }

  lemma HalfwaySkips(tree: Tree, parsed: seq<Member>, i: nat, written: nat)
    requires i < |parsed| && Halfway(tree, parsed, i, written) && Marker(parsed[i], parsed)
    ensures Halfway(tree, parsed, i + 1, written)
  {
    RealOfFront(parsed, i);
    assert Real(parsed[..i + 1], parsed) == Real(parsed[..i], parsed);
  }

  lemma HalfwayStarts(parsed: seq<Member>)
    ensures Halfway(map[], parsed, 0, 0)
  {
    assert Real(parsed[..0], parsed) == [];
  }

  // --- Writing -------------------------------------------------------------

  /** Why an archive is refused: the first of these reasons that applies. */
  ghost predicate ZipVerdict(entries: seq<Entry>, r: Result<nat>) {
    var files := Files(entries);
    && (r == Err(TooMany) <==> |files| > 20000)
    && (r == Err(TooBig) <==> |files| <= 20000 && TotalSize(files) > 0x8000_0000)
    && (r == Err(Escapes) ==> exists e | e in files :: !e.link && ".." in PathOf(e))
    && (r == Err(Conflict) ==> Clash(Members(files)))
    && (r == Err(Nothing) ==> forall e | e in files :: e.link || PathOf(e) == [])
    && (r.Ok? ==>
          && r.value > 0 && |files| <= 20000 && TotalSize(files) <= 0x8000_0000 && !Clash(Members(files))
          && forall e | e in files :: e.link || ".." !in PathOf(e))
    && r != Err(Exists) && r != Err(OsError)
  }

  /** The same for a part of an archive, whose limits are those of the part. */
  ghost predicate SubsetVerdict(entries: seq<Entry>, prefixes: seq<string>, r: Result<nat>) {
    var files, part := Files(entries), Wanted(Members(Files(entries)), WantPaths(prefixes));
    && (r == Err(Escapes) <==>
          || (exists prefix | prefix in prefixes :: ".." in Named(NameComponents(prefix)))
          || (exists e | e in files :: !e.link && ".." in PathOf(e)))
    && (r == Err(TooMany) ==> |part| > 20000)
    && (r == Err(TooBig) ==> |part| <= 20000 && DataSize(part) > 0x8000_0000)
    && (r == Err(OsError) ==> Clash(part))
    && (r.Ok? ==> |part| <= 20000 && DataSize(part) <= 0x8000_0000 && !Clash(part))
    && (r.Err? ==> r.why in {Escapes, TooMany, TooBig, OsError})
  }

  lemma SubsetSays(entries: seq<Entry>, prefixes: seq<string>)
    ensures SubsetVerdict(entries, prefixes, SubsetOutcome(entries, prefixes))
  {
    SomePrefix(prefixes);
  }

  lemma {:induction false} SomePrefix(prefixes: seq<string>)
    ensures SomePrefixClimbs(prefixes) <==> exists prefix | prefix in prefixes :: ".." in Named(NameComponents(prefix))
  {
    if prefixes != [] {
      SomePrefix(prefixes[1..]);
      assert forall p :: p in prefixes <==> p == prefixes[0] || p in prefixes[1..];
    }
  }

  lemma OutcomeSays(entries: seq<Entry>)
    ensures ZipVerdict(entries, Outcome(entries))
  {
    var files := Files(entries);
    var ms := Members(files);
    if ms == [] {
      forall e | e in files
        ensures e.link || PathOf(e) == []
      {
        InMembers(files, Member(PathOf(e), e.data));
      }
    } else {
      SomethingIsReal(ms);
    }
  }

  /** Every file with a usable path is there, links are not, and nothing is there but for a reason. */
  ghost predicate HoldsEach(tree: Tree, entries: seq<Entry>) {
    && (forall e | e in Files(entries) && !e.link && PathOf(e) != [] :: PathOf(e) in tree)
    && (forall p | p in tree && tree[p].File? ::
          exists e | e in Files(entries) :: !e.link && PathOf(e) == p && tree[p] == File(e.data))
    && (forall p | p in tree && tree[p].Folder? ::
          exists e | e in Files(entries) :: !e.link && p < PathOf(e))
  }

  lemma {:induction false} InMembers(files: seq<Entry>, m: Member)
    ensures m in Members(files) <==>
            exists e | e in files :: !e.link && PathOf(e) != [] && m == Member(PathOf(e), e.data)
  {
    if files != [] {
      InMembers(files[1..], m);
      assert forall e :: e in files <==> e == files[0] || e in files[1..];
    }
  }

  lemma {:induction false} LastIsOne(ms: seq<Member>, p: Parts)
    requires Names(ms, p)
    ensures Member(p, LastData(ms, p)) in ms
  {
    var n := |ms| - 1;
    if ms[n].parts == p {
      assert ms[n] in ms;
    } else {
      assert forall o | o in ms :: o == ms[n] || o in ms[..n];
      LastIsOne(ms[..n], p);
      assert forall o | o in ms[..n] :: o in ms;
    }
  }

  lemma HasEach(tree: Tree, entries: seq<Entry>)
    requires Unpacked(tree, Members(Files(entries)))
    ensures HoldsEach(tree, entries)
  {
    var files := Files(entries);
    var ms := Members(files);
    forall e | e in files && !e.link && PathOf(e) != []
      ensures PathOf(e) in tree
    {
      InMembers(files, Member(PathOf(e), e.data));
      assert Names(ms, PathOf(e));
    }
    forall p | p in tree && tree[p].File?
      ensures exists e | e in files :: !e.link && PathOf(e) == p && tree[p] == File(e.data)
    {
      LastIsOne(ms, p);
      InMembers(files, Member(p, LastData(ms, p)));
    }
    forall p | p in tree && tree[p].Folder?
      ensures exists e | e in files :: !e.link && p < PathOf(e)
    {
      var m :| m in ms && p < m.parts;
      InMembers(files, m);
    }
  }

  /** The folder a pack is unpacked into: a path below it names a file or a folder. */
  class Pack {
    var nodes: Tree

    constructor ()
      ensures nodes == map[]
    {
      nodes := map[];
    }

    /** `mkdir(parents=True, exist_ok=True)` on the path's parent. */
    method MakeParents(parts: Parts) returns (ok: bool)
      modifies this
      ensures ok <==> ParentsFree(old(nodes), parts)
      ensures ok ==> WithParents(nodes, old(nodes), parts)
    {
      var i := 1;
      while i < |parts|
        invariant 0 < i && (|parts| == 0 || i <= |parts|)
        invariant forall j | 0 < j < i && j < |parts| :: parts[..j] in old(nodes) ==> old(nodes)[parts[..j]] == Folder
        invariant forall p :: p in nodes <==> p in old(nodes) || (p != [] && p < parts && |p| < i)
        invariant forall p | p in nodes :: nodes[p] == if p in old(nodes) then old(nodes)[p] else Folder
      {
        var above := parts[..i];
        if above in nodes {
          if nodes[above].File? {
            return false;
          }
        } else {
          nodes := nodes[above := Folder];
        }
        forall p | p < parts && |p| == i
          ensures p == above
        {
        }
        i := i + 1;
      }
      ok := true;
    }

    method WriteFile(parts: Parts, data: Data) returns (ok: bool)
      modifies this
      ensures ok <==> !(parts in old(nodes) && old(nodes)[parts] == Folder)
      ensures nodes == if ok then old(nodes)[parts := File(data)] else old(nodes)
    {
      if parts in nodes && nodes[parts].Folder? {
        return false;
      }
      nodes := nodes[parts := File(data)];
      ok := true;
    }

    method WriteMember(m: Member, ghost ms: seq<Member>) returns (ok: bool)
      requires Unpacked(nodes, ms) && Consistent(ms) && m.parts != []
      modifies this
      ensures ok <==> Consistent(ms + [m])
      ensures ok ==> Unpacked(nodes, ms + [m])
    {
      FreeIffConsistent(nodes, ms, m);
      ghost var before := nodes;
      ok := MakeParents(m.parts);
      if ok {
        ghost var mid := nodes;
        ok := WriteFile(m.parts, m.data);
        if ok {
          UnpackedMore(before, mid, ms, m);
        }
      }
    }

    method WriteNext(parsed: seq<Member>, i: nat, written: nat) returns (ok: bool)
      requires i < |parsed| && Safe(parsed) && !Marker(parsed[i], parsed)
      requires Halfway(nodes, parsed, i, written)
      modifies this
      ensures ok ==> Halfway(nodes, parsed, i + 1, written + 1)
      ensures !ok ==> Clash(parsed)
    {
      ghost var kept := Real(parsed[..i], parsed);
      RealOfFront(parsed, i);
      var m := parsed[i];
      StaysUnder([], m.parts);
      assert [] + m.parts == m.parts;
      ok := WriteMember(m.(parts := Resolve([], m.parts)), kept);
      if !ok {
        RealOfPart(parsed, i + 1);
        ConsistentIffNoClash(parsed);
        if Consistent(Real(parsed, parsed)) {
          FewerAreConsistent(kept + [m], Real(parsed, parsed));
        }
      }
    }

    /** Write every entry that is no folder marker; say how many, or that a write was refused. */
    method WriteAll(parsed: seq<Member>) returns (r: Result<nat>)
      requires nodes == map[] && Safe(parsed)
      modifies this
      ensures r.Err? <==> Clash(parsed)
      ensures r.Err? ==> r.why == OsError
      ensures r.Ok? ==> r.value == |Real(parsed, parsed)|
      ensures r.Ok? ==> Unpacked(nodes, parsed)
    {
      var dirs := FolderPaths(parsed);
      var written: nat := 0;
      HalfwayStarts(parsed);
      for i := 0 to |parsed|
        invariant Halfway(nodes, parsed, i, written)
      {
        var m := parsed[i];
        assert (|m.data| == 0 && m.parts in dirs) <==> Marker(m, parsed);
        if |m.data| == 0 && m.parts in dirs {
          HalfwaySkips(nodes, parsed, i, written);
        } else {
          var ok := WriteNext(parsed, i, written);
          if !ok {
            return Err(OsError);
          }
          written := written + 1;
        }
      }
      assert parsed[..|parsed|] == parsed;
      ConsistentIffNoClash(parsed);
      UnpackedAll(nodes, parsed);
      r := Ok(written);
    }

    /** Unpack a whole archive into a new folder. */
    method ExtractZip(entries: seq<Entry>) returns (r: Result<nat>)
      requires nodes == map[]
      modifies this
      ensures r == Outcome(entries) && ZipVerdict(entries, r)
      ensures r.Ok? ==> Unpacked(nodes, Members(Files(entries))) && HoldsEach(nodes, entries)
      ensures r.Ok? ==> forall p, part | p in nodes && part in p :: SafePart(part)
    {
      OutcomeSays(entries);
      var members := Files(entries);
      if |members| > MAX_ENTRIES {
        return Err(TooMany);
      }
      if TotalSize(members) > MAX_TOTAL_BYTES {
        return Err(TooBig);
      }
      var parsed := Parse(members);
      if parsed.Err? {
        return Err(parsed.why);
      }
      r := WriteAll(parsed.value);
      if r.Err? {
        return Err(Conflict);
      }
      if r == Ok(0) {
        return Err(Nothing);
      }
      UnpackedIsSafe(nodes, parsed.value);
      HasEach(nodes, entries);
    }

    /** A driver pack is uploaded: a refused one leaves nothing behind. */
    method Upload(entries: seq<Entry>, present: bool) returns (r: Result<nat>)
      requires !present ==> nodes == map[]
      modifies this
      ensures r == if present then Err(Exists) else Outcome(entries)
      ensures present ==> nodes == old(nodes)
      ensures !present && r.Err? ==> nodes == map[]
      ensures r.Ok? ==> Unpacked(nodes, Members(Files(entries)))
    {
      if present {
        return Err(Exists);
      }
      r := ExtractZip(entries);
      if r.Err? {
        nodes := map[];
      }
    }

    /** Unpack what a catalog pack names. The limits apply to that part only; a clash is left as an `OSError`. */
    method ExtractSubset(entries: seq<Entry>, prefixes: seq<string>) returns (r: Result<nat>)
      requires nodes == map[]
      modifies this
      ensures r == SubsetOutcome(entries, prefixes) && SubsetVerdict(entries, prefixes, r)
      ensures r.Ok? ==> Unpacked(nodes, Wanted(Members(Files(entries)), WantPaths(prefixes)))
    {
      SubsetSays(entries, prefixes);
      var want := ParsePrefixes(prefixes);
      if want.Err? {
        return Err(want.why);
      }
      var parsed := Parse(Files(entries));
      if parsed.Err? {
        return Err(parsed.why);
      }
      var part := Wanted(parsed.value, want.value);
      if |part| > MAX_ENTRIES {
        return Err(TooMany);
      }
      if DataSize(part) > MAX_TOTAL_BYTES {
        return Err(TooBig);
      }
      r := WriteAll(part);
    }
  }

  function SubsetOutcome(entries: seq<Entry>, prefixes: seq<string>): Result<nat> {
    var part := Wanted(Members(Files(entries)), WantPaths(prefixes));
    if SomePrefixClimbs(prefixes) then Err(Escapes)
    else if SomeClimbs(Files(entries)) then Err(Escapes)
    else if |part| > MAX_ENTRIES then Err(TooMany)
    else if DataSize(part) > MAX_TOTAL_BYTES then Err(TooBig)
    else if Clash(part) then Err(OsError)
    else Ok(|Real(part, part)|)
  }

  // --- Part of an archive --------------------------------------------------

  function Lowered(parts: Parts): (r: Parts)
    ensures |r| == |parts| && forall i | 0 <= i < |r| :: r[i] == Lower(parts[i])
  {
    if parts == [] then [] else [Lower(parts[0])] + Lowered(parts[1..])
  }

  /** Below one of the wanted folders, in any case; no folder named means everything. */
  predicate IsWanted(m: Member, want: seq<Parts>) {
    want == [] || exists w | w in want :: w <= Lowered(m.parts)
  }

  function Wanted(ms: seq<Member>, want: seq<Parts>): (r: seq<Member>)
    ensures forall m :: m in r <==> m in ms && IsWanted(m, want)
  {
    if ms == [] then []
    else (if IsWanted(ms[0], want) then [ms[0]] else []) + Wanted(ms[1..], want)
  }

  /** The same members, but for the case of their paths. */
  predicate SameButCase(ms: seq<Member>, ms': seq<Member>) {
    && |ms| == |ms'|
    && forall i | 0 <= i < |ms| :: Lowered(ms[i].parts) == Lowered(ms'[i].parts) && ms[i].data == ms'[i].data
  }

  /** Which members of an archive are taken does not depend on the case of their paths. */
  lemma {:induction false} CaseMakesNoDifference(ms: seq<Member>, ms': seq<Member>, want: seq<Parts>)
    requires SameButCase(ms, ms')
    ensures SameButCase(Wanted(ms, want), Wanted(ms', want))
  {
    if ms != [] {
      var rest, rest' := ms[1..], ms'[1..];
      assert forall i | 0 <= i < |rest| :: rest[i] == ms[i + 1] && rest'[i] == ms'[i + 1];
      CaseMakesNoDifference(rest, rest', want);
      WantedEither(ms[0], ms'[0], want);
      if IsWanted(ms[0], want) {
        OneMoreSame(ms[0], ms'[0], Wanted(rest, want), Wanted(rest', want));
      } else {
        assert Wanted(ms, want) == Wanted(rest, want) && Wanted(ms', want) == Wanted(rest', want);
      }
    }
  }

  lemma WantedEither(m: Member, m': Member, want: seq<Parts>)
    requires Lowered(m.parts) == Lowered(m'.parts)
    ensures IsWanted(m, want) <==> IsWanted(m', want)
  {
  }

  lemma OneMoreSame(m: Member, m': Member, ms: seq<Member>, ms': seq<Member>)
    requires Lowered(m.parts) == Lowered(m'.parts) && m.data == m'.data && SameButCase(ms, ms')
    ensures SameButCase([m] + ms, [m'] + ms')
  {
  }

  predicate SameStart(a: Parts, b: Parts) {
    |a| <= |b| && forall i | 0 <= i < |a| :: Lower(b[i]) == Lower(a[i])
  }

  lemma StartsLowered(a: Parts, b: Parts)
    requires SameStart(a, b)
    ensures Lowered(a) <= Lowered(b)
  {
    forall i | 0 <= i < |a|
      ensures Lowered(a)[i] == Lowered(b)[i]
    {
    }
  }

  lemma LoweredStarts(a: Parts, b: Parts)
    requires Lowered(a) <= Lowered(b)
    ensures SameStart(a, b)
  {
    forall i | 0 <= i < |a|
      ensures Lower(b[i]) == Lower(a[i])
    {
      assert Lowered(a)[i] == Lowered(b)[i];
    }
  }

  /** A folder that is asked for takes what lies below it in any case, and nothing else. */
  lemma FolderTakes(m: Member, folder: Parts, prefix: string)
    requires WantPaths([prefix]) == [Lowered(folder)]
    ensures IsWanted(m, WantPaths([prefix])) <==> SameStart(folder, m.parts)
  {
    OnlyOne(Lowered(folder), m);
    if SameStart(folder, m.parts) {
      StartsLowered(folder, m.parts);
    }
    if Lowered(folder) <= Lowered(m.parts) {
      LoweredStarts(folder, m.parts);
    }
  }

  lemma OnlyOne(want: Parts, m: Member)
    ensures IsWanted(m, [want]) <==> want <= Lowered(m.parts)
  {
    assert [want][0] == want && want in [want];
  }

  function WantPaths(prefixes: seq<string>): (r: seq<Parts>)
    ensures |r| == |prefixes|
  {
    if prefixes == [] then []
    else [Lowered(Named(NameComponents(prefixes[0])))] + WantPaths(prefixes[1..])
  }

  function DataSize(ms: seq<Member>): nat {
    if ms == [] then 0 else |ms[0].data| + DataSize(ms[1..])
  }

  predicate SomePrefixClimbs(prefixes: seq<string>) {
    prefixes != [] && (".." in Named(NameComponents(prefixes[0])) || SomePrefixClimbs(prefixes[1..]))
  }

  method ParsePrefixes(prefixes: seq<string>) returns (r: Result<seq<Parts>>)
    ensures r.Err? <==> SomePrefixClimbs(prefixes)
    ensures if r.Ok? then r.value == WantPaths(prefixes) else r.why == Escapes
  {
    if prefixes == [] {
      return Ok([]);
    }
    var parts := MemberParts(prefixes[0]);
    if parts.Err? {
      return Err(parts.why);
    }
    r := ParsePrefixes(prefixes[1..]);
    if r.Ok? {
      r := Ok([Lowered(parts.value)] + r.value);
    }
  }

  lemma UnpackedIsSafe(tree: Tree, ms: seq<Member>)
    requires Unpacked(tree, ms) && Safe(ms)
    ensures forall p, part | p in tree && part in p :: SafePart(part)
  {
    forall p, part | p in tree && part in p
      ensures SafePart(part)
    {
      var m :| m in ms && p <= m.parts;
      assert part in m.parts;
    }
  }

  /** What becomes of an archive: the first reason to refuse it, or its number of files. */
  function Outcome(entries: seq<Entry>): Result<nat> {
    var files := Files(entries);
    if |files| > MAX_ENTRIES then Err(TooMany)
    else if TotalSize(files) > MAX_TOTAL_BYTES then Err(TooBig)
    else if SomeClimbs(files) then Err(Escapes)
    else if Clash(Members(files)) then Err(Conflict)
    else if Members(files) == [] then Err(Nothing)
    else Ok(|Real(Members(files), Members(files))|)
  }
}
