/**
 * The release lists of a catalog entry: rebuilt from what the mirror carries, with
 * the distro's pre-releases put on top unless they have been released since.
 */
module Releases {
  import opened Text
  import opened Store
  import Decimal
  import Lists

  /** A release the mirror carries, newest first in a list of them. */
  datatype Found = Found(codename: string, number: string, testing: bool, eol: string)

  datatype Release = Release(
    id: string, title: string, number: string, build: string, eol: string,
    isDefault: bool, prerelease: bool, ended: bool, fields: map<string, string>)

  /** A release list: an entry has one for its installer, one for its live desktop, or both. */
  datatype Entry = Entry(releases: Option<seq<Release>>, live: Option<seq<Release>>)

  /** How a release that only the mirror knows is listed, and which dates have passed. */
  datatype Site = Site(
    plain: Found -> Release, live: Found -> Release, past: string -> bool, preferred: Option<string -> bool>)

  const TAG: string := "pre-release"
  const LEAD: string := " \U{2014} "

  // --- Rebuilding from the mirror ------------------------------------------

  function Codenames(found: seq<Found>): (ids: seq<string>)
    ensures |ids| == |found| && forall i | 0 <= i < |ids| :: ids[i] == found[i].codename
  {
    if found == [] then [] else [found[0].codename] + Codenames(found[1..])
  }

  function Ids(rs: seq<Release>): (ids: seq<string>)
    ensures |ids| == |rs| && forall i | 0 <= i < |ids| :: ids[i] == rs[i].id
  {
    if rs == [] then [] else [rs[0].id] + Ids(rs[1..])
  }

  predicate DistinctFinds(found: seq<Found>) {
    forall i, j | 0 <= i < j < |found| :: found[i].codename != found[j].codename
  }

  /** The newest released find, among those a pattern accepts. */
  function Newest(found: seq<Found>, accepts: string -> bool): (r: Option<string>)
    ensures r.Some? <==> exists i | 0 <= i < |found| :: !found[i].testing && accepts(found[i].codename)
    ensures r.Some? ==> r.value in Codenames(found)
  {
    if found == [] then None
    else if !found[0].testing && accepts(found[0].codename) then Some(found[0].codename)
    else
      var rest := Newest(found[1..], accepts);
      assert rest.Some? ==> rest.value in Codenames(found[1..]);
      rest
  }

  /** The release that becomes the default: the newest preferred one, else the newest. */
  function Stable(found: seq<Found>, preferred: Option<string -> bool>): Option<string> {
    var any := Newest(found, id => true);
    match preferred
    case None => any
    case Some(accepts) =>
      var best := Newest(found, accepts);
      if best.Some? then best else any
  }

  /** The catalog's release of this name; the last one counts. */
  function ById(listed: seq<Release>, id: string): (r: Option<Release>)
    ensures r.Some? ==> r.value in listed && r.value.id == id
    ensures r.None? <==> id !in Ids(listed)
  {
    if listed == [] then None
    else
      var last := listed[|listed| - 1];
      assert Ids(listed) == Ids(listed[..|listed| - 1]) + [last.id];
      if last.id == id then Some(last) else ById(listed[..|listed| - 1], id)
  }

  function Titled(title: string): string {
    if Contains(title, TAG) then title else title + LEAD + TAG
  }

  /** A release brought up to date with what the mirror says of it. */
  function Mark(rel: Release, f: Found, stable: Option<string>, past: string -> bool): (r: Release)
    ensures r.id == rel.id && (r.isDefault <==> stable == Some(f.codename))
    ensures r.number == rel.number && r.build == rel.build && r.fields == rel.fields
    ensures !f.testing ==> r.title == rel.title && r.prerelease == rel.prerelease
    ensures f.testing ==> r.prerelease
    ensures r.eol == if f.eol != "" then f.eol else rel.eol
  {
    var tested := if f.testing then rel.(prerelease := true, title := Titled(rel.title)) else rel;
    var dated := if f.eol != "" then tested.(eol := f.eol) else tested;
    dated.(isDefault := stable == Some(f.codename), ended := past(dated.eol))
  }

  function Carried(listed: seq<Release>, f: Found, make: Found -> Release): Release {
    var known := ById(listed, f.codename);
    if known.Some? then known.value else make(f)
  }

  function MarkAll(
      listed: seq<Release>, found: seq<Found>, stable: Option<string>, make: Found -> Release, past: string -> bool)
      : (out: seq<Release>)
    ensures |out| == |found|
    ensures forall i | 0 <= i < |out| :: out[i] == Mark(Carried(listed, found[i], make), found[i], stable, past)
  {
    if found == [] then []
    else
      [Mark(Carried(listed, found[0], make), found[0], stable, past)] + MarkAll(listed, found[1..], stable, make, past)
  }

  function One(p: Release, wanted: bool): seq<Release> {
    if wanted then [p] else []
  }

  lemma Assoc(a: seq<Release>, b: seq<Release>, c: seq<Release>)
    ensures a + (b + c) == a + b + c
  {
  }

  /** The release, unless the mirror carries it. */
  function Still(r: Release, seen: set<string>): seq<Release> {
    if r.id in seen then [] else [r]
  }

  /** The catalog's releases the mirror no longer carries. */
  function Unlisted(listed: seq<Release>, seen: set<string>): (out: seq<Release>)
    ensures forall r :: r in out <==> r in listed && r.id !in seen
  {
    if listed == [] then []
    else Still(listed[0], seen) + Unlisted(listed[1..], seen)
  }

  function Seen(found: seq<Found>): set<string> {
    set i | 0 <= i < |found| :: found[i].codename
  }

  function Merged(
      listed: seq<Release>, found: seq<Found>, stable: Option<string>, make: Found -> Release, past: string -> bool)
      : seq<Release>
  {
    MarkAll(listed, found, stable, make, past) + Unlisted(listed, Seen(found))
  }

  method BringUpToDate(known: Release, f: Found, stable: Option<string>, past: string -> bool) returns (rel: Release)
    ensures rel == Mark(known, f, stable, past)
  {
    rel := known;
    if f.testing {
      rel := rel.(prerelease := true);
      if !Contains(rel.title, TAG) {
        rel := rel.(title := rel.title + LEAD + TAG);
      }
    }
    if f.eol != "" {
      rel := rel.(eol := f.eol);
    }
    rel := rel.(isDefault := false);
    if stable == Some(f.codename) {
      rel := rel.(isDefault := true);
    }
    rel := rel.(ended := past(rel.eol));
  }

  method Merge(
      listed: seq<Release>, found: seq<Found>, stable: Option<string>, make: Found -> Release, past: string -> bool)
      returns (out: seq<Release>)
    ensures out == Merged(listed, found, stable, make, past)
  {
    out := [];
    ghost var all := MarkAll(listed, found, stable, make, past);
    var seen: set<string> := {};
    for i := 0 to |found|
      invariant out == all[..i] && seen == Seen(found[..i])
    {
      var f := found[i];
      var rel := BringUpToDate(Carried(listed, f, make), f, stable, past);
      OneMoreMarked(all, i);
      out := out + [rel];
      SeenMore(found, i);
      seen := seen + {f.codename};
    }
    AllMarked(all, found);
    out := out + Unlisted(listed, seen);
  }

  lemma OneMoreMarked(all: seq<Release>, i: nat)
    requires i < |all|
    ensures all[..i + 1] == all[..i] + [all[i]]
  {
  }

  lemma AllMarked(all: seq<Release>, found: seq<Found>)
    requires |all| == |found|
    ensures all[..|found|] == all && found[..|found|] == found
  {
  }

  lemma SeenMore(found: seq<Found>, i: nat)
    requires i < |found|
    ensures Seen(found[..i + 1]) == Seen(found[..i]) + {found[i].codename}
  {
    var some, more := found[..i], found[..i + 1];
    forall id | id in Seen(some)
      ensures id in Seen(more)
    {
      var j :| 0 <= j < i && some[j].codename == id;
      assert more[j].codename == id;
    }
    forall id | id in Seen(more)
      ensures id in Seen(some) + {found[i].codename}
    {
      var j :| 0 <= j < i + 1 && more[j].codename == id;
      if j < i {
        assert some[j].codename == id;
      }
    }
    assert more[i].codename == found[i].codename;
  }

  // --- What merging keeps --------------------------------------------------

  /** A made release is named after its find. */
  ghost predicate Makes(make: Found -> Release) {
    forall f :: make(f).id == f.codename
  }

  function UnlistedIds(ids: seq<string>, seen: set<string>): seq<string> {
    if ids == [] then []
    else (if ids[0] in seen then [] else [ids[0]]) + UnlistedIds(ids[1..], seen)
  }

  lemma {:induction false} UnlistedNames(listed: seq<Release>, seen: set<string>)
    ensures Ids(Unlisted(listed, seen)) == UnlistedIds(Ids(listed), seen)
  {
    if listed != [] {
      UnlistedNames(listed[1..], seen);
      assert Ids(listed)[1..] == Ids(listed[1..]);
      var rest := Unlisted(listed[1..], seen);
      assert Ids([listed[0]] + rest) == [listed[0].id] + Ids(rest);
      assert [] + rest == rest;
    }
  }

  /** The finds in their order, then the catalog's others in theirs; nothing is lost. */
  lemma MergedIds(
      listed: seq<Release>, found: seq<Found>, stable: Option<string>, make: Found -> Release, past: string -> bool)
    requires Makes(make)
    ensures Ids(Merged(listed, found, stable, make, past)) == Codenames(found) + UnlistedIds(Ids(listed), Seen(found))
  {
    UnlistedNames(listed, Seen(found));
    var first, rest := MarkAll(listed, found, stable, make, past), Unlisted(listed, Seen(found));
    MarkAllNamed(listed, found, stable, make, past);
    MarkedNames(first, found);
    IdsAppend(first, rest);
  }

  /** The release at each place is the find's. */
  predicate NamedAs(first: seq<Release>, found: seq<Found>) {
    |first| == |found| && forall i | 0 <= i < |found| :: first[i].id == found[i].codename
  }

  lemma MarkAllNamed(
      listed: seq<Release>, found: seq<Found>, stable: Option<string>, make: Found -> Release, past: string -> bool)
    requires Makes(make)
    ensures NamedAs(MarkAll(listed, found, stable, make, past), found)
  {
    forall i | 0 <= i < |found|
      ensures Carried(listed, found[i], make).id == found[i].codename
    {
    }
  }

  lemma MarkedNames(first: seq<Release>, found: seq<Found>)
    requires NamedAs(first, found)
    ensures Ids(first) == Codenames(found)
  {
  }

  lemma IdsAppend(a: seq<Release>, b: seq<Release>)
    ensures Ids(a + b) == Ids(a) + Ids(b)
  {
  }

  predicate IsDefault(r: Release) {
    r.isDefault
  }

  function Defaults(rs: seq<Release>): nat {
    Lists.CountOf(rs, IsDefault)
  }

  /** The release the page offers first: the first one marked. */
  function FirstDefault(rs: seq<Release>): (r: Option<Release>)
    ensures r.Some? ==> r.value in rs && r.value.isDefault
  {
    if rs == [] then None
    else if rs[0].isDefault then Some(rs[0])
    else FirstDefault(rs[1..])
  }

  lemma {:induction false} FirstDefaultAt(rs: seq<Release>, k: nat)
    requires k < |rs| && rs[k].isDefault && forall i | 0 <= i < k :: !rs[i].isDefault
    ensures FirstDefault(rs) == Some(rs[k])
  {
    if k > 0 {
      FirstDefaultAt(rs[1..], k - 1);
    }
  }

  /**
   * The first default is the chosen release. It is the only one exactly when no
   * catalog release the mirror has dropped carries the mark.
   */
  lemma MergedDefault(
      listed: seq<Release>, found: seq<Found>, stable: Option<string>, make: Found -> Release, past: string -> bool)
    requires Makes(make) && DistinctFinds(found) && stable.Some? && stable.value in Codenames(found)
    ensures var out := Merged(listed, found, stable, make, past);
            && FirstDefault(out).Some? && FirstDefault(out).value.id == stable.value
            && Defaults(out) == 1 + Defaults(Unlisted(listed, Seen(found)))
  {
    var first, rest := MarkAll(listed, found, stable, make, past), Unlisted(listed, Seen(found));
    var k :| 0 <= k < |found| && Codenames(found)[k] == stable.value;
    OneMarked(listed, found, stable, make, past, k);
    Lists.CountOne(first, IsDefault, k);
    Lists.CountAppend(first, rest, IsDefault);
    MarkAllNamed(listed, found, stable, make, past);
    FirstMarked(first, rest, k);
  }

  predicate MarkedAt(rs: seq<Release>, k: nat) {
    k < |rs| && forall i | 0 <= i < |rs| :: rs[i].isDefault <==> i == k
  }

  lemma OneMarked(
      listed: seq<Release>, found: seq<Found>, stable: Option<string>, make: Found -> Release, past: string -> bool,
      k: nat)
    requires DistinctFinds(found) && k < |found| && stable == Some(found[k].codename)
    ensures MarkedAt(MarkAll(listed, found, stable, make, past), k)
  {
  }

  lemma FirstMarked(first: seq<Release>, rest: seq<Release>, k: nat)
    requires MarkedAt(first, k)
    ensures FirstDefault(first + rest) == Some(first[k])
  {
    FirstDefaultAt(first + rest, k);
  }

  lemma StableIsFound(found: seq<Found>, preferred: Option<string -> bool>)
    ensures var stable := Stable(found, preferred);
            && (stable.Some? <==> exists i | 0 <= i < |found| :: !found[i].testing)
            && (stable.Some? ==> stable.value in Codenames(found))
  {
    var any := Newest(found, id => true);
    if preferred.Some? {
      var best := Newest(found, preferred.value);
    }
  }

  lemma {:induction false} NewestIsNewest(found: seq<Found>, accepts: string -> bool, k: nat)
    requires k < |found| && !found[k].testing && accepts(found[k].codename)
    ensures exists i | 0 <= i <= k ::
              !found[i].testing && accepts(found[i].codename) && Newest(found, accepts) == Some(found[i].codename)
  {
    if !found[0].testing && accepts(found[0].codename) {
      assert Newest(found, accepts) == Some(found[0].codename);
    } else {
      NewestIsNewest(found[1..], accepts, k - 1);
      var i :| 0 <= i <= k - 1 && !found[1..][i].testing && accepts(found[1..][i].codename)
               && Newest(found[1..], accepts) == Some(found[1..][i].codename);
      assert found[i + 1] == found[1..][i];
    }
  }

  // --- Merging twice -------------------------------------------------------

  lemma {:induction false} ContainsAtEnd(s: string, sub: string)
    ensures Contains(s + sub, sub)
  {
    if s == "" {
      assert s + sub == sub;
    } else {
      assert (s + sub)[1..] == s[1..] + sub;
      ContainsAtEnd(s[1..], sub);
    }
  }

  lemma MarkTwice(rel: Release, f: Found, stable: Option<string>, past: string -> bool)
    ensures Mark(Mark(rel, f, stable, past), f, stable, past) == Mark(rel, f, stable, past)
  {
    ContainsAtEnd(rel.title + LEAD, TAG);
  }

  lemma {:induction false} ByIdAt(listed: seq<Release>, k: nat)
    requires k < |listed| && forall i | k < i < |listed| :: listed[i].id != listed[k].id
    ensures ById(listed, listed[k].id) == Some(listed[k])
  {
    if k < |listed| - 1 {
      ByIdAt(listed[..|listed| - 1], k);
    }
  }

  lemma {:induction false} UnlistedNone(rs: seq<Release>, seen: set<string>)
    requires forall r | r in rs :: r.id in seen
    ensures Unlisted(rs, seen) == []
  {
    if rs != [] {
      assert rs[0] in rs;
      UnlistedNone(rs[1..], seen);
    }
  }

  lemma {:induction false} UnlistedAll(rs: seq<Release>, seen: set<string>)
    requires forall r | r in rs :: r.id !in seen
    ensures Unlisted(rs, seen) == rs
  {
    if rs != [] {
      assert rs[0] in rs;
      UnlistedAll(rs[1..], seen);
    }
  }

  lemma UnlistedFirst(first: Release, rest: seq<Release>, seen: set<string>)
    ensures Unlisted([first] + rest, seen) == Still(first, seen) + Unlisted(rest, seen)
  {
    assert ([first] + rest)[1..] == rest;
  }

  lemma {:induction false} UnlistedAppend(a: seq<Release>, b: seq<Release>, seen: set<string>)
    ensures Unlisted(a + b, seen) == Unlisted(a, seen) + Unlisted(b, seen)
  {
    if a == [] {
      assert a + b == b;
    } else {
      var first, rest := a[0], a[1..];
      UnlistedAppend(rest, b, seen);
      assert a == [first] + rest;
      Assoc([first], rest, b);
      UnlistedFirst(first, rest, seen);
      UnlistedFirst(first, rest + b, seen);
      Assoc(Still(first, seen), Unlisted(rest, seen), Unlisted(b, seen));
    }
  }

  /** Rebuilding a list from the same finds again changes nothing. */
  lemma MergedTwice(
      listed: seq<Release>, found: seq<Found>, stable: Option<string>, make: Found -> Release, past: string -> bool)
    requires Makes(make) && DistinctFinds(found)
    ensures var once := Merged(listed, found, stable, make, past);
            Merged(once, found, stable, make, past) == once
  {
    var first, rest := MarkAll(listed, found, stable, make, past), Unlisted(listed, Seen(found));
    var once := first + rest;
    MarkedTwice(listed, found, stable, make, past, rest);
    UnlistedAppend(first, rest, Seen(found));
    forall r | r in first
      ensures r.id in Seen(found)
    {
    }
    UnlistedNone(first, Seen(found));
    UnlistedAll(rest, Seen(found));
    assert [] + rest == rest;
  }

  lemma MarkedTwice(
      listed: seq<Release>, found: seq<Found>, stable: Option<string>, make: Found -> Release, past: string -> bool,
      rest: seq<Release>)
    requires Makes(make) && DistinctFinds(found) && forall r | r in rest :: r.id !in Seen(found)
    ensures var first := MarkAll(listed, found, stable, make, past);
            MarkAll(first + rest, found, stable, make, past) == first
  {
    var first := MarkAll(listed, found, stable, make, past);
    var again := MarkAll(first + rest, found, stable, make, past);
    MarkAllNamed(listed, found, stable, make, past);
    forall i | 0 <= i < |found|
      ensures again[i] == first[i]
    {
      FoundAgain(first, rest, found, i);
      MarkTwice(Carried(listed, found[i], make), found[i], stable, past);
      assert Carried(first + rest, found[i], make) == first[i];
    }
  }

  lemma FoundAgain(first: seq<Release>, rest: seq<Release>, found: seq<Found>, i: nat)
    requires NamedAs(first, found) && i < |found| && DistinctFinds(found)
    requires forall r | r in rest :: r.id !in Seen(found)
    ensures ById(first + rest, found[i].codename) == Some(first[i])
  {
    var all := first + rest;
    forall j | i < j < |all|
      ensures all[j].id != all[i].id
    {
      if j >= |first| {
        assert all[j] in rest;
      }
    }
    ByIdAt(all, i);
  }

  // --- Both lists of an entry ----------------------------------------------

  /** `with_discovered`: each list the entry has, rebuilt. */
  method WithDiscovered(entry: Entry, found: seq<Found>, site: Site) returns (out: Entry)
    ensures out == Discovered(entry, found, site)
  {
    var stable := Stable(found, site.preferred);
    out := entry;
    if entry.releases.Some? {
      var releases := Merge(entry.releases.value, found, stable, site.plain, site.past);
      out := out.(releases := Some(releases));
    }
    if entry.live.Some? {
      var live := Merge(entry.live.value, found, stable, site.live, site.past);
      out := out.(live := Some(live));
    }
  }

  function Discovered(entry: Entry, found: seq<Found>, site: Site): Entry {
    var stable := Stable(found, site.preferred);
    Entry(
      if entry.releases.Some? then Some(Merged(entry.releases.value, found, stable, site.plain, site.past)) else None,
      if entry.live.Some? then Some(Merged(entry.live.value, found, stable, site.live, site.past)) else None)
  }

  lemma DiscoveredTwice(entry: Entry, found: seq<Found>, site: Site)
    requires Makes(site.plain) && Makes(site.live) && DistinctFinds(found)
    ensures var once := Discovered(entry, found, site); Discovered(once, found, site) == once
  {
    var stable := Stable(found, site.preferred);
    if entry.releases.Some? {
      MergedTwice(entry.releases.value, found, stable, site.plain, site.past);
    }
    if entry.live.Some? {
      MergedTwice(entry.live.value, found, stable, site.live, site.past);
    }
  }

  // --- Versions ------------------------------------------------------------

  const ARCHS: seq<string> :=
    ["x86_64", "amd64", "arm64", "aarch64", "ppc64le", "s390x", "i386", "i486", "i586", "i686"]

  /** The length of the architecture name a text starts with, if any. */
  function ArchAt(s: string, archs: seq<string>): (n: nat)
    ensures n <= |s| && (n > 0 ==> s[..n] in archs)
    ensures n == 0 <==> forall a | a in archs :: a == "" || !(a <= s)
  {
    if archs == [] then 0
    else
      assert forall a | a in archs :: a == archs[0] || a in archs[1..];
      if archs[0] <= s && archs[0] != "" then
        assert s[..|archs[0]|] == archs[0];
        |archs[0]|
      else ArchAt(s, archs[1..])
  }

  function WithoutArchs(s: string): (r: string)
    ensures |r| <= |s|
  {
    if s == "" then ""
    else
      var n := ArchAt(s, ARCHS);
      if n > 0 then WithoutArchs(s[n..]) else [s[0]] + WithoutArchs(s[1..])
  }

  function Numbers(s: string): seq<nat>
    decreases |s|
  {
    if s == "" then []
    else
      var d := Decimal.LeadingDigits(s);
      if d == "" then Numbers(s[1..]) else [Decimal.Value(d)] + Numbers(s[|d|..])
  }

  /** The numbers in a version, by which versions are compared. */
  function VersionKey(name: string): seq<nat> {
    Numbers(WithoutArchs(name))
  }

  /** A number is read whole, as far as its digits go. */
  lemma NumberRead(n: nat, rest: string)
    requires rest != "" ==> !Decimal.IsDigit(rest[0])
    ensures Numbers(Decimal.Digits(n) + rest) == [n] + Numbers(rest)
  {
    var d := Decimal.Digits(n);
    Decimal.ValueOfDigits(n);
    Decimal.LeadingDigitsOf(d, rest);
    assert (d + rest)[|d|..] == rest;
  }

  /** Anything else is skipped. */
  lemma OtherSkipped(c: char, rest: string)
    requires !Decimal.IsDigit(c)
    ensures Numbers([c] + rest) == Numbers(rest)
  {
    assert ([c] + rest)[1..] == rest;
    Decimal.LeadingDigitsOf("", [c] + rest);
    assert "" + ([c] + rest) == [c] + rest;
  }

  /** The name of an architecture counts for nothing, wherever it stands. */
  lemma ArchSkipped(s: string)
    requires s != ""
    ensures if exists a | a in ARCHS :: a <= s
            then exists n | 0 < n <= |s| :: s[..n] in ARCHS && WithoutArchs(s) == WithoutArchs(s[n..])
            else WithoutArchs(s) == [s[0]] + WithoutArchs(s[1..])
  {
    ArchsAreNamed();
    var n := ArchAt(s, ARCHS);
    assert n > 0 ==> s[..n] <= s && s[..n] in ARCHS;
  }

  lemma ArchsAreNamed()
    ensures forall a | a in ARCHS :: a != ""
  {
  }

  /** Python's order on lists. */
  predicate ListLe(a: seq<nat>, b: seq<nat>) {
    a == [] || (b != [] && (a[0] < b[0] || (a[0] == b[0] && ListLe(a[1..], b[1..]))))
  }

  /** A released version makes a pre-release of this number obsolete. */
  predicate Overtakes(have: seq<nat>, want: seq<nat>) {
    want != [] && have != [] && have[0] == want[0] && ListLe(want, Lists.Take(have, |want|))
  }

  method Superseded(number: string, released: seq<string>) returns (yes: bool)
    ensures yes == IsSuperseded(number, released)
  {
    var want := VersionKey(number);
    if |want| == 0 {
      return false;
    }
    for i := 0 to |released|
      invariant forall j | 0 <= j < i :: !Overtakes(VersionKey(released[j]), want)
    {
      var have := VersionKey(released[i]);
      if |have| > 0 && have[0] == want[0] && ListLe(want, Lists.Take(have, |want|)) {
        assert Overtakes(VersionKey(released[i]), want);
        return true;
      }
    }
    yes := false;
  }

  predicate IsSuperseded(number: string, released: seq<string>) {
    exists i | 0 <= i < |released| :: Overtakes(VersionKey(released[i]), VersionKey(number))
  }

  lemma {:induction false} ListLeTransitive(a: seq<nat>, b: seq<nat>, c: seq<nat>)
    requires ListLe(a, b) && ListLe(b, c)
    ensures ListLe(a, c)
  {
    if a != [] && a[0] == b[0] && b[0] == c[0] {
      ListLeTransitive(a[1..], b[1..], c[1..]);
    }
  }

  lemma {:induction false} CutLe(a: seq<nat>, b: seq<nat>, n: nat)
    requires ListLe(a, b)
    ensures ListLe(Lists.Take(a, n), Lists.Take(b, n))
  {
    if a != [] && n > 0 && a[0] == b[0] {
      CutLe(a[1..], b[1..], n - 1);
      assert Lists.Take(a, n)[1..] == Lists.Take(a[1..], n - 1) && Lists.Take(b, n)[1..] == Lists.Take(b[1..], n - 1);
    }
  }

  lemma {:induction false} PrefixLe(a: seq<nat>, b: seq<nat>)
    requires a <= b
    ensures ListLe(a, b)
  {
    if a != [] {
      PrefixLe(a[1..], b[1..]);
    }
  }

  /** A release that makes a pre-release obsolete makes the older ones of that major release obsolete. */
  lemma OvertakesOlder(have: seq<nat>, want: seq<nat>, older: seq<nat>)
    requires Overtakes(have, want) && older != [] && older[0] == want[0] && ListLe(older, want)
    ensures Overtakes(have, older)
  {
    var k := |older|;
    CutLe(want, Lists.Take(have, |want|), k);
    CutLe(older, want, k);
    ListLeTransitive(older, Lists.Take(want, k), Lists.Take(Lists.Take(have, |want|), k));
    PrefixLe(Lists.Take(Lists.Take(have, |want|), k), Lists.Take(have, k));
    ListLeTransitive(older, Lists.Take(Lists.Take(have, |want|), k), Lists.Take(have, k));
  }

  /** A pre-release is obsolete once its own version, or a point release of it, is out. */
  lemma OvertakenByItself(want: seq<nat>, more: seq<nat>)
    requires want != []
    ensures Overtakes(want + more, want)
  {
    assert Lists.Take(want + more, |want|) == want;
    PrefixLe(want, want);
  }

  /** A release of another major version makes nothing obsolete. */
  lemma OvertakesOwnMajor(have: seq<nat>, want: seq<nat>)
    requires Overtakes(have, want)
    ensures have != [] && want != [] && have[0] == want[0]
  {
  }

  // --- Pre-releases on top -------------------------------------------------

  /** What a release is called: by its id, its version number and its build. */
  function Names(r: Release): (names: seq<string>)
    ensures forall n :: n in names <==> n != "" && n in {r.id, r.number, r.build}
  {
    (if r.id == "" then [] else [r.id]) + (if r.number == "" then [] else [r.number])
      + (if r.build == "" then [] else [r.build])
  }

  /** Every name of every release that is out. */
  function ReleasedNames(listed: seq<Release>): (names: seq<string>)
    ensures forall n :: n in names <==> exists r | r in listed :: !r.prerelease && n in Names(r)
  {
    if listed == [] then []
    else (if listed[0].prerelease then [] else Names(listed[0])) + ReleasedNames(listed[1..])
  }

  predicate Offered(p: Release, listed: seq<Release>) {
    p.id !in Ids(listed) && !IsSuperseded(p.number, ReleasedNames(listed))
  }

  function Ahead(found: seq<Release>, listed: seq<Release>): (out: seq<Release>)
    ensures forall p :: p in out <==> p in found && Offered(p, listed)
  {
    if found == [] then []
    else One(found[0], Offered(found[0], listed)) + Ahead(found[1..], listed)
  }

  lemma AheadFrom(found: seq<Release>, listed: seq<Release>, i: nat)
    requires i < |found|
    ensures Ahead(found[i..], listed) == One(found[i], Offered(found[i], listed)) + Ahead(found[i + 1..], listed)
  {
    assert found[i..][0] == found[i] && found[i..][1..] == found[i + 1..];
  }

  predicate AheadSoFar(found: seq<Release>, listed: seq<Release>, i: nat, ahead: seq<Release>)
    requires i <= |found|
  {
    Ahead(found, listed) == ahead + Ahead(found[i..], listed)
  }

  lemma AheadStarts(found: seq<Release>, listed: seq<Release>)
    ensures AheadSoFar(found, listed, 0, [])
  {
    assert found[0..] == found;
  }

  lemma AheadDone(found: seq<Release>, listed: seq<Release>, ahead: seq<Release>)
    requires AheadSoFar(found, listed, |found|, ahead)
    ensures ahead == Ahead(found, listed)
  {
    assert found[|found|..] == [];
  }

  lemma AheadMore(found: seq<Release>, listed: seq<Release>, i: nat, ahead: seq<Release>)
    requires i < |found| && AheadSoFar(found, listed, i, ahead)
    ensures AheadSoFar(found, listed, i + 1, ahead + One(found[i], Offered(found[i], listed)))
  {
    AheadFrom(found, listed, i);
    var one, rest := One(found[i], Offered(found[i], listed)), Ahead(found[i + 1..], listed);
    Assoc(ahead, one, rest);
  }

  function OnTop(listed: seq<Release>, found: seq<Release>): seq<Release> {
    Ahead(found, listed) + listed
  }

  /** What a pre-release lookup returns: marked, and never a default. */
  predicate PreReleases(found: seq<Release>) {
    forall p | p in found :: p.prerelease && !p.isDefault
  }

  method PutOnTop(listed: seq<Release>, found: seq<Release>) returns (out: seq<Release>)
    ensures out == OnTop(listed, found)
  {
    var released, ids := ReleasedNames(listed), Ids(listed);
    var ahead: seq<Release> := [];
    AheadStarts(found, listed);
    for i := 0 to |found|
      invariant AheadSoFar(found, listed, i, ahead)
    {
      AheadMore(found, listed, i, ahead);
      var superseded := Superseded(found[i].number, released);
      ahead := ahead + One(found[i], found[i].id !in ids && !superseded);
    }
    AheadDone(found, listed, ahead);
    out := ahead + listed;
  }

  lemma {:induction false} PreReleasesAreNoNames(ps: seq<Release>, listed: seq<Release>)
    requires forall p | p in ps :: p.prerelease
    ensures ReleasedNames(ps + listed) == ReleasedNames(listed)
  {
    if ps != [] {
      assert ps[0] in ps;
      assert (ps + listed)[1..] == ps[1..] + listed;
      PreReleasesAreNoNames(ps[1..], listed);
    } else {
      assert ps + listed == listed;
    }
  }

  lemma {:induction false} AheadNone(found: seq<Release>, listed: seq<Release>)
    requires forall p | p in found :: !Offered(p, listed)
    ensures Ahead(found, listed) == []
  {
    if found != [] {
      assert found[0] in found;
      AheadNone(found[1..], listed);
    }
  }

  /** Doing it again adds nothing. */
  lemma OnTopTwice(listed: seq<Release>, found: seq<Release>)
    requires PreReleases(found)
    ensures var once := OnTop(listed, found); OnTop(once, found) == once
  {
    var ahead := Ahead(found, listed);
    var once := ahead + listed;
    PreReleasesAreNoNames(ahead, listed);
    IdsAppend(ahead, listed);
    forall p | p in found
      ensures !Offered(p, once)
    {
      if Offered(p, listed) {
        var i :| 0 <= i < |ahead| && ahead[i] == p;
        assert Ids(ahead)[i] == p.id && p.id in Ids(once);
      } else if p.id in Ids(listed) {
        assert p.id in Ids(once);
      }
    }
    AheadNone(found, once);
    assert [] + once == once;
  }

  /** The list below stays as it is, and so does the first default. */
  lemma OnTopKeepsDefault(listed: seq<Release>, found: seq<Release>)
    requires PreReleases(found)
    ensures listed == OnTop(listed, found)[|Ahead(found, listed)|..]
    ensures FirstDefault(OnTop(listed, found)) == FirstDefault(listed)
  {
    FirstDefaultBelow(Ahead(found, listed), listed);
  }

  lemma {:induction false} FirstDefaultBelow(top: seq<Release>, listed: seq<Release>)
    requires forall r | r in top :: !r.isDefault
    ensures FirstDefault(top + listed) == FirstDefault(listed)
  {
    if top != [] {
      assert top[0] in top;
      assert (top + listed)[1..] == top[1..] + listed;
      FirstDefaultBelow(top[1..], listed);
    } else {
      assert top + listed == listed;
    }
  }

  predicate DistinctIds(rs: seq<Release>) {
    forall i, j | 0 <= i < j < |rs| :: rs[i].id != rs[j].id
  }

  /** No id is listed twice, if none was and the finds are distinct. */
  lemma OnTopDistinct(listed: seq<Release>, found: seq<Release>)
    requires DistinctIds(listed) && DistinctIds(found)
    ensures DistinctIds(OnTop(listed, found))
  {
    var ahead := Ahead(found, listed);
    AheadDistinct(found, listed);
    forall i, j | 0 <= i < |ahead| && 0 <= j < |listed|
      ensures ahead[i].id != listed[j].id
    {
      var p := ahead[i];
      assert p in ahead && Offered(p, listed);
      assert Ids(listed)[j] == listed[j].id;
    }
  }

  lemma {:induction false} AheadDistinct(found: seq<Release>, listed: seq<Release>)
    requires DistinctIds(found)
    ensures DistinctIds(Ahead(found, listed))
  {
    if found != [] {
      var rest := Ahead(found[1..], listed);
      assert DistinctIds(found[1..]);
      AheadDistinct(found[1..], listed);
      forall j | 0 <= j < |rest|
        ensures rest[j].id != found[0].id
      {
        var p := rest[j];
        assert p in rest && p in found[1..];
      }
    }
  }

  /** `with_prereleases`: the installer's list, and the live one unless pre-releases have none. */
  method WithPrereleases(entry: Entry, found: seq<Release>, live: bool) returns (out: Entry)
    ensures out == Entry(
              if entry.releases.Some? then Some(OnTop(entry.releases.value, found)) else None,
              if entry.live.Some? && live then Some(OnTop(entry.live.value, found)) else entry.live)
  {
    out := entry;
    if entry.releases.Some? {
      var releases := PutOnTop(entry.releases.value, found);
      out := out.(releases := Some(releases));
    }
    if entry.live.Some? && live {
      var list := PutOnTop(entry.live.value, found);
      out := out.(live := Some(list));
    }
  }

  /** On the page: the default is still what the mirror says, pre-releases or not. */
  lemma PageDefault(listed: seq<Release>, found: seq<Found>, pres: seq<Release>, site: Site)
    requires Makes(site.plain) && DistinctFinds(found) && PreReleases(pres)
    requires exists i | 0 <= i < |found| :: !found[i].testing
    ensures var stable := Stable(found, site.preferred);
            var page := OnTop(Merged(listed, found, stable, site.plain, site.past), pres);
            stable.Some? && FirstDefault(page).Some? && FirstDefault(page).value.id == stable.value
  {
    var stable := Stable(found, site.preferred);
    StableIsFound(found, site.preferred);
    MergedDefault(listed, found, stable, site.plain, site.past);
    OnTopKeepsDefault(Merged(listed, found, stable, site.plain, site.past), pres);
  }
}
