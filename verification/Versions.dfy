/**
 * Release tags and their rank, next to the precedence that section 11 of Semantic
 * Versioning 2.0.0 gives the same tags.
 */
module Versions {
  import opened Text
  import opened Store
  import Decimal

  /** The parts of a tag such as v0.8.0-beta.6+build. */
  datatype Version = Version(major: nat, minor: nat, patch: nat, pre: Option<string>)

  /** What releases are compared by: the numbers, then the beta number. */
  datatype Rank = Rank(major: nat, minor: nat, patch: nat, beta: nat)

  const RELEASE_RANK: nat := 0x4000_0000_0000_0000
  const BETA: string := "beta"

  // --- Reading a tag -------------------------------------------------------

  predicate IsNumber(s: string) {
    s != "" && Decimal.AllDigits(s)
  }

  predicate IsIdentChar(c: char) {
    Decimal.IsDigit(c) || 'A' <= c <= 'Z' || 'a' <= c <= 'z' || c == '.' || c == '-'
  }

  predicate IsSuffix(s: string) {
    s != "" && forall c | c in s :: IsIdentChar(c)
  }

  function WithoutV(s: string): string {
    if s != "" && s[0] == 'v' then s[1..] else s
  }

  function ReadNumbers(core: string, pre: Option<string>): Option<Version> {
    var parts := Split(core, '.');
    if |parts| == 3 && IsNumber(parts[0]) && IsNumber(parts[1]) && IsNumber(parts[2]) then
      Some(Version(Decimal.Value(parts[0]), Decimal.Value(parts[1]), Decimal.Value(parts[2]), pre))
    else None
  }

  /** The tag's version; build metadata is not part of it. */
  function Read(tag: string): Option<Version> {
    ReadBare(WithoutV(Strip(tag)))
  }

  function ReadBare(s: string): Option<Version> {
    var main := Before(s, '+');
    if '+' in s && !IsSuffix(After(s, '+')) then None
    else if '-' !in main then ReadNumbers(main, None)
    else if !IsSuffix(After(main, '-')) then None
    else ReadNumbers(Before(main, '-'), Some(After(main, '-')))
  }

  /** N of "beta.N", 0 for any other pre-release. */
  function BetaNumber(pre: string): nat {
    if BETA + "." <= pre && IsNumber(pre[|BETA| + 1..]) then Decimal.Value(pre[|BETA| + 1..]) else 0
  }

  function RankOf(v: Version): Rank {
    Rank(v.major, v.minor, v.patch, if v.pre.Some? then BetaNumber(v.pre.value) else RELEASE_RANK)
  }

  /** `_parse_release`. */
  function Parse(tag: string): Option<Rank> {
    var v := Read(tag);
    if v.None? then None else Some(RankOf(v.value))
  }

  /** Python's order on the rank tuples. */
  predicate RankLess(a: Rank, b: Rank) {
    if a.major != b.major then a.major < b.major
    else if a.minor != b.minor then a.minor < b.minor
    else if a.patch != b.patch then a.patch < b.patch
    else a.beta < b.beta
  }

  predicate AtLeast(a: Rank, b: Rank) {
    !RankLess(a, b)
  }

  // --- Precedence as the standard has it -----------------------------------

  predicate TextLess(a: string, b: string) {
    if a == "" then b != ""
    else b != "" && (a[0] < b[0] || (a[0] == b[0] && TextLess(a[1..], b[1..])))
  }

  /** Numeric identifiers by value, others in ASCII order, numeric below others. */
  predicate IdentLess(a: string, b: string) {
    if IsNumber(a) && IsNumber(b) then Decimal.Value(a) < Decimal.Value(b)
    else if IsNumber(a) || IsNumber(b) then IsNumber(a)
    else TextLess(a, b)
  }

  /** From left to right until two differ; with all alike, the longer list is higher. */
  predicate IdentsLess(a: seq<string>, b: seq<string>) {
    if a == [] then b != []
    else b != [] && (IdentLess(a[0], b[0]) || (!IdentLess(b[0], a[0]) && IdentsLess(a[1..], b[1..])))
  }

  predicate PreLess(a: Option<string>, b: Option<string>) {
    if a.None? then false
    else b.None? || IdentsLess(Split(a.value, '.'), Split(b.value, '.'))
  }

  predicate Precedes(a: Version, b: Version) {
    if a.major != b.major then a.major < b.major
    else if a.minor != b.minor then a.minor < b.minor
    else if a.patch != b.patch then a.patch < b.patch
    else PreLess(a.pre, b.pre)
  }

  // --- Where the two agree -------------------------------------------------

  /** The tags Beacon publishes: a release, or a numbered beta. */
  predicate IsBeta(v: Version) {
    v.pre.Some? && BETA + "." <= v.pre.value && IsNumber(v.pre.value[|BETA| + 1..])
  }

  predicate Published(v: Version) {
    v.pre.None? || IsBeta(v)
  }

  predicate SameNumbers(a: Version, b: Version) {
    a.major == b.major && a.minor == b.minor && a.patch == b.patch
  }

  /** A beta number so high that it is no longer below the release's. */
  predicate Overflows(v: Version, w: Version) {
    SameNumbers(v, w) && IsBeta(v) && w.pre.None? && BetaNumber(v.pre.value) >= RELEASE_RANK
  }

  lemma BetaIdents(v: Version)
    requires IsBeta(v)
    ensures Split(v.pre.value, '.') == [BETA, v.pre.value[|BETA| + 1..]]
  {
    var number := v.pre.value[|BETA| + 1..];
    assert v.pre.value == BETA + ['.'] + number;
    SplitFirst(BETA, '.', number);
    SplitNoSeparator(number, '.');
  }

  lemma {:induction false} TextLessIrreflexive(s: string)
    ensures !TextLess(s, s)
  {
    if s != "" {
      TextLessIrreflexive(s[1..]);
    }
  }

  lemma BetasPrecede(beta: string, m: string, n: string)
    requires IsNumber(m) && IsNumber(n) && !IsNumber(beta)
    ensures IdentsLess([beta, m], [beta, n]) <==> Decimal.Value(m) < Decimal.Value(n)
  {
    TextLessIrreflexive(beta);
    assert [beta, m][1..] == [m] && [beta, n][1..] == [n];
    assert [m][1..] == [] && [n][1..] == [];
    assert IdentsLess([m], [n]) <==> Decimal.Value(m) < Decimal.Value(n);
  }

  lemma BetaIsNoNumber()
    ensures !IsNumber(BETA)
  {
    assert !Decimal.IsDigit(BETA[0]);
  }

  /**
   * On published tags the rank orders as the standard does, in both directions:
   * unless a beta and the release of the same version meet and the beta number
   * reaches 2^62.
   */
  lemma RankAgrees(v: Version, w: Version)
    requires Published(v) && Published(w)
    ensures ((RankLess(RankOf(v), RankOf(w)) <==> Precedes(v, w)) &&
             (RankLess(RankOf(w), RankOf(v)) <==> Precedes(w, v)))
       <==> !Overflows(v, w) && !Overflows(w, v)
  {
    if SameNumbers(v, w) && IsBeta(v) && IsBeta(w) {
      BetaIdents(v);
      BetaIdents(w);
      BetaIsNoNumber();
      BetasPrecede(BETA, v.pre.value[|BETA| + 1..], w.pre.value[|BETA| + 1..]);
      BetasPrecede(BETA, w.pre.value[|BETA| + 1..], v.pre.value[|BETA| + 1..]);
    }
  }

  /** The standard puts every beta below its release; with 2^62 betas the rank no longer does. */
  lemma HighBetaTies(v: Version, w: Version)
    requires SameNumbers(v, w) && IsBeta(v) && w.pre.None? && BetaNumber(v.pre.value) == RELEASE_RANK
    ensures Precedes(v, w) && RankOf(v) == RankOf(w)
  {
  }

  /** Other pre-releases are out of order: a release candidate ranks below every beta. */
  lemma CandidateBelowBeta(rc: Version, beta: Version)
    requires SameNumbers(rc, beta) && IsBeta(beta) && BetaNumber(beta.pre.value) > 0 && rc.pre == Some("rc.1")
    ensures Precedes(beta, rc) && RankLess(RankOf(rc), RankOf(beta))
  {
    BetaIdents(beta);
    CandidateIdents(rc.pre.value);
    BetaIsNoNumber();
    var a, b := Split(beta.pre.value, '.'), Split(rc.pre.value, '.');
    assert !Decimal.IsDigit(b[0][0]);
    assert TextLess(a[0], b[0]);
  }

  lemma CandidateIdents(pre: string)
    requires pre == "rc.1"
    ensures Split(pre, '.') == ["rc", "1"] && BetaNumber(pre) == 0
  {
    assert pre == "rc" + ['.'] + "1";
    SplitFirst("rc", '.', "1");
    SplitNoSeparator("1", '.');
  }

  /** The rank is a strict total order up to equality, so "newest" is well-defined. */
  lemma RankIsOrder(a: Rank, b: Rank, c: Rank)
    ensures RankLess(a, b) || RankLess(b, a) || a == b
    ensures !(RankLess(a, b) && RankLess(b, a))
    ensures AtLeast(a, b) && AtLeast(b, c) ==> AtLeast(a, c)
  {
  }

  // --- What is read --------------------------------------------------------

  function Core(v: Version): string {
    Decimal.Digits(v.major) + ['.'] + (Decimal.Digits(v.minor) + ['.'] + Decimal.Digits(v.patch))
  }

  function Marked(mark: char, text: Option<string>): string {
    if text.None? then "" else [mark] + text.value
  }

  /** How a tag is written. */
  function Tag(v: Version, prefix: string, build: Option<string>): string {
    prefix + ((Core(v) + Marked('-', v.pre)) + Marked('+', build))
  }

  predicate IsPrintable(v: Version, build: Option<string>) {
    (v.pre.Some? ==> IsSuffix(v.pre.value)) && (build.Some? ==> IsSuffix(build.value))
  }

  lemma DigitsHaveNo(s: string, c: char)
    requires Decimal.AllDigits(s) && !Decimal.IsDigit(c)
    ensures c !in s
  {
  }

  lemma Dotted(a: string, b: string, c: string)
    requires '.' !in a && '.' !in b && '.' !in c
    ensures Split(a + ['.'] + (b + ['.'] + c), '.') == [a, b, c]
  {
    SplitFirst(a, '.', b + ['.'] + c);
    SplitFirst(b, '.', c);
    SplitNoSeparator(c, '.');
  }

  lemma NumbersRead(v: Version, pre: Option<string>)
    ensures ReadNumbers(Core(v), pre) == Some(v.(pre := pre))
  {
    var a, b, c := Decimal.Digits(v.major), Decimal.Digits(v.minor), Decimal.Digits(v.patch);
    DigitsHaveNo(a, '.');
    DigitsHaveNo(b, '.');
    DigitsHaveNo(c, '.');
    Dotted(a, b, c);
    Decimal.ValueOfDigits(v.major);
    Decimal.ValueOfDigits(v.minor);
    Decimal.ValueOfDigits(v.patch);
  }

  lemma CoreHasNo(v: Version, c: char)
    requires !Decimal.IsDigit(c) && c != '.'
    ensures c !in Core(v)
  {
    DigitsHaveNo(Decimal.Digits(v.major), c);
    DigitsHaveNo(Decimal.Digits(v.minor), c);
    DigitsHaveNo(Decimal.Digits(v.patch), c);
  }

  /** Splitting off a marked text at its mark. */
  lemma MarkedCut(front: string, mark: char, text: Option<string>)
    requires mark !in front
    ensures var s := front + Marked(mark, text);
            && (mark in s <==> text.Some?) && Before(s, mark) == front
            && (text.Some? ==> After(s, mark) == text.value)
  {
    if text.None? {
      assert front + "" == front;
      PartitionNone(front, mark);
    } else {
      var s := front + [mark] + text.value;
      assert front + ([mark] + text.value) == s && s[|front|] == mark;
      PartitionAt(front, mark, text.value);
    }
  }

  lemma NoPlus(v: Version)
    requires v.pre.Some? ==> IsSuffix(v.pre.value)
    ensures '+' !in Core(v) + Marked('-', v.pre)
  {
    CoreHasNo(v, '+');
    if v.pre.Some? {
      assert '+' !in v.pre.value;
    }
  }

  lemma ReadBarePrinted(v: Version, build: Option<string>)
    requires IsPrintable(v, build)
    ensures ReadBare((Core(v) + Marked('-', v.pre)) + Marked('+', build)) == Some(v)
  {
    NoPlus(v);
    MarkedCut(Core(v) + Marked('-', v.pre), '+', build);
    CoreHasNo(v, '-');
    MarkedCut(Core(v), '-', v.pre);
    NumbersRead(v, v.pre);
    assert v.pre.None? ==> Core(v) + Marked('-', v.pre) == Core(v);
    assert v.(pre := v.pre) == v;
  }

  /** Begins with a digit, and does not end in white space. */
  predicate Compact(s: string) {
    s != "" && Decimal.IsDigit(s[0]) && !IsSpace(s[|s| - 1])
  }

  lemma MarkedEnds(front: string, mark: char, text: Option<string>)
    requires Compact(front) && (text.Some? ==> IsSuffix(text.value))
    ensures Compact(front + Marked(mark, text))
  {
    var s := front + Marked(mark, text);
    assert s[0] == front[0];
    if text.Some? {
      var last := text.value[|text.value| - 1];
      assert last in text.value && s[|s| - 1] == last;
      PlainIsNoSpace(last);
    } else {
      assert s == front;
    }
  }

  lemma CoreEnds(v: Version)
    ensures Compact(Core(v))
  {
    var s, first, last := Core(v), Decimal.Digits(v.major), Decimal.Digits(v.patch);
    assert s[0] == first[0];
    assert s[|s| - 1] == last[|last| - 1];
    PlainIsNoSpace(s[|s| - 1]);
  }

  lemma PrefixEnds(prefix: string, main: string)
    requires prefix == "" || prefix == "v"
    requires Compact(main)
    ensures prefix + main != "" && Stripped(prefix + main) && WithoutV(prefix + main) == main
  {
    var tag := prefix + main;
    PlainIsNoSpace('v');
    PlainIsNoSpace(main[0]);
    assert tag[|tag| - 1] == main[|main| - 1];
    assert prefix == "" ==> tag == main;
  }

  /** A printed version reads back as itself: white space, a "v" and build metadata make no difference. */
  lemma ReadPrinted(v: Version, prefix: string, build: Option<string>, left: string, right: string)
    requires IsPrintable(v, build) && (prefix == "" || prefix == "v")
    requires forall c | c in left || c in right :: IsSpace(c)
    ensures Read(left + Tag(v, prefix, build) + right) == Some(v)
  {
    CoreEnds(v);
    MarkedEnds(Core(v), '-', v.pre);
    MarkedEnds(Core(v) + Marked('-', v.pre), '+', build);
    PrefixEnds(prefix, (Core(v) + Marked('-', v.pre)) + Marked('+', build));
    StripPadded(left, Tag(v, prefix, build), right);
    ReadBarePrinted(v, build);
  }

  // --- The newest of a list ------------------------------------------------

  /** A release as GitHub lists it. */
  datatype Listed = Listed(draft: bool, tag: Option<string>)

  function RankAt(r: Listed): Option<Rank> {
    if r.draft || r.tag.None? then None else Parse(r.tag.value)
  }

  /** `tag.strip().removeprefix("v")`. */
  function Label(tag: string): string {
    WithoutV(Strip(tag))
  }

  /** A label without its "v" still has the tag's rank. */
  lemma LabelRank(tag: string)
    requires Parse(tag).Some?
    ensures Parse(Label(tag)) == Parse(tag) && Label(tag) != ""
  {
    var s, bare := Strip(tag), Label(tag);
    BareStartsWithDigit(bare);
    BareIsStripped(s);
  }

  lemma BareIsStripped(s: string)
    requires Stripped(s) && WithoutV(s) != "" && Decimal.IsDigit(WithoutV(s)[0])
    ensures WithoutV(Strip(WithoutV(s))) == WithoutV(s)
  {
    var bare := WithoutV(s);
    assert bare[|bare| - 1] == s[|s| - 1];
    PlainIsNoSpace(bare[0]);
    StripOfStripped(bare);
  }

  lemma BareStartsWithDigit(bare: string)
    requires ReadBare(bare).Some?
    ensures bare != "" && Decimal.IsDigit(bare[0])
  {
    var main := Before(bare, '+');
    CoreStartsWithDigit(if '-' in main then Before(main, '-') else main);
  }

  lemma CoreStartsWithDigit(core: string)
    requires IsNumber(Split(core, '.')[0])
    ensures core != "" && Decimal.IsDigit(core[0])
  {
    if core != "" {
      assert Split(core, '.')[0][0] == core[0];
    }
  }

  predicate NoneRanked(doc: seq<Listed>) {
    forall r | r in doc :: RankAt(r).None?
  }

  predicate IsEntry(r: Listed, rank: Rank, name: string) {
    RankAt(r) == Some(rank) && Label(r.tag.value) == name
  }

  /** No published release of the list ranks higher, and one has this rank and name. */
  predicate IsNewest(doc: seq<Listed>, rank: Rank, name: string) {
    && (exists r | r in doc :: IsEntry(r, rank, name))
    && (forall r | r in doc && RankAt(r).Some? :: AtLeast(rank, RankAt(r).value))
  }

  /** The highest rank in the list, with its label. */
  method Newest(doc: seq<Listed>) returns (best: Option<(Rank, string)>)
    ensures best.None? <==> NoneRanked(doc)
    ensures best.Some? ==> IsNewest(doc, best.value.0, best.value.1)
    ensures best.Some? ==> Parse(best.value.1) == Some(best.value.0) && best.value.1 != ""
  {
    best := None;
    for i := 0 to |doc|
      invariant best.None? <==> NoneRanked(doc[..i])
      invariant best.Some? ==> IsNewest(doc[..i], best.value.0, best.value.1)
      invariant best.Some? ==> Parse(best.value.1) == Some(best.value.0) && best.value.1 != ""
    {
      var rel := doc[i];
      assert doc[..i + 1] == doc[..i] + [rel];
      if rel.draft || rel.tag.None? {
        RestStays(doc[..i], rel);
        continue;
      }
      var rank := Parse(rel.tag.value);
      if rank.Some? && (best.None? || RankLess(best.value.0, rank.value)) {
        LabelRank(rel.tag.value);
        if best.Some? {
          Overtakes(doc[..i], rel, best.value.0, best.value.1);
        } else {
          FirstRanked(doc[..i], rel);
        }
        best := Some((rank.value, Label(rel.tag.value)));
      } else {
        RestStays(doc[..i], rel);
      }
    }
    assert doc[..|doc|] == doc;
  }

  lemma RestStays(doc: seq<Listed>, rel: Listed)
    ensures RankAt(rel).None? ==> (NoneRanked(doc + [rel]) <==> NoneRanked(doc))
    ensures forall rank, name | IsNewest(doc, rank, name) && (RankAt(rel).Some? ==> AtLeast(rank, RankAt(rel).value)) ::
              IsNewest(doc + [rel], rank, name) && !NoneRanked(doc + [rel])
  {
    var more := doc + [rel];
    assert forall r | r in doc :: r in more;
    assert forall r | r in more :: r in doc || r == rel;
    forall rank, name | IsNewest(doc, rank, name) && (RankAt(rel).Some? ==> AtLeast(rank, RankAt(rel).value))
      ensures IsNewest(more, rank, name) && !NoneRanked(more)
    {
      var r :| r in doc && IsEntry(r, rank, name);
      assert r in more;
    }
  }

  lemma FirstRanked(doc: seq<Listed>, rel: Listed)
    requires NoneRanked(doc) && RankAt(rel).Some?
    ensures IsNewest(doc + [rel], RankAt(rel).value, Label(rel.tag.value)) && !NoneRanked(doc + [rel])
  {
    var more := doc + [rel];
    assert rel in more && IsEntry(rel, RankAt(rel).value, Label(rel.tag.value));
    assert forall r | r in more :: r in doc || r == rel;
  }

  lemma Overtakes(doc: seq<Listed>, rel: Listed, rank: Rank, name: string)
    requires IsNewest(doc, rank, name) && RankAt(rel).Some? && RankLess(rank, RankAt(rel).value)
    ensures IsNewest(doc + [rel], RankAt(rel).value, Label(rel.tag.value)) && !NoneRanked(doc + [rel])
  {
    var more, high := doc + [rel], RankAt(rel).value;
    assert rel in more && IsEntry(rel, high, Label(rel.tag.value));
    assert forall r | r in more :: r in doc || r == rel;
    forall r | r in more && RankAt(r).Some?
      ensures AtLeast(high, RankAt(r).value)
    {
      if r in doc {
        RankIsOrder(high, rank, RankAt(r).value);
      }
    }
  }

  /** Whatever the order of the list, and whichever of it is seen, the rank is the same. */
  lemma NewestIsUnique(doc: seq<Listed>, other: seq<Listed>, rank: Rank, name: string, rank': Rank, name': string)
    requires IsNewest(doc, rank, name) && IsNewest(other, rank', name') && forall r :: r in doc <==> r in other
    ensures rank == rank'
  {
    var r :| r in doc && IsEntry(r, rank, name);
    var r' :| r' in other && IsEntry(r', rank', name');
    assert r in other && r' in doc;
    RankIsOrder(rank, rank', rank);
  }
}
