/**
 * Custom catalog entries: how one is checked, and how it is turned into the edit
 * form and read back. What a filled-in template must look like is left to `Rules`.
 */
module CustomEntry {
  import opened Text
  import Decimal
  import Lists

  datatype Release = Release(
    id: string, title: string, number: string, eol: string, isDefault: bool, prerelease: bool)

  datatype BootSource =
    | Archive(url: string, kernelMember: string, initrdMember: string)
    | Urls(kernel: string, initrd: string)

  datatype Entry = Entry(
    id: string, name: string, mirror: string, boot: BootSource, bootArgs: string, releases: seq<Release>)

  /** An entry as it is handed in; a field that is missing is empty. */
  datatype Raw = Raw(
    id: string, name: string, mirror: string, archiveUrl: string, kernelMember: string, initrdMember: string,
    kernelUrl: string, initrdUrl: string, bootArgs: string, releases: seq<Release>)

  /** Placeholders and URLs: what the templates of an entry have to satisfy. */
  datatype Rules = Rules(
    argsTemplate: string -> bool,                 // well-formed, with known placeholders
    urlTemplate: string -> bool,
    versioned: string -> bool,                    // uses {version}
    givesUrl: (string, string, string) -> bool,   // template, mirror, release: a usable URL
    argsFit: (string, string, string) -> bool,    // template, mirror, release: not too long
    isDate: string -> bool)

  datatype Problem =
    | NotOneLine | TooLong | Required | BadId | BadMirror | TwoSources | NoSource | BadMember
    | NoReleases | TooManyReleases | BadRelease | ListedTwice | BadTitle | BadNumber | BadEol | ManyDefaults
    | BadTemplate | NoVersion | NoUrl | ArgsTooLong
  datatype Result<+T> = Ok(value: T) | Err(problem: Problem)

  const MAX_RELEASES: nat := 50
  const MAX_TITLE: nat := 128

  // --- Texts ---------------------------------------------------------------

  predicate IsControl(c: char) {
    c <= '\U{1F}' || c == '\U{7F}'
  }

  predicate NoControl(s: string) {
    forall c | c in s :: !IsControl(c)
  }

  /** A field as it is stored: stripped, on one line, within its limit. */
  predicate IsField(s: string, limit: nat) {
    Stripped(s) && NoControl(s) && |s| <= limit
  }

  function Field(raw: string, limit: nat, required: bool): (r: Result<string>)
    ensures r.Ok? ==> IsField(r.value, limit) && (required ==> r.value != "")
  {
    var s := Strip(raw);
    if !NoControl(s) then Err(NotOneLine)
    else if |s| > limit then Err(TooLong)
    else if required && s == "" then Err(Required)
    else Ok(s)
  }

  lemma FieldIsStable(s: string, limit: nat, required: bool)
    requires IsField(s, limit) && (required ==> s != "")
    ensures Field(s, limit, required) == Ok(s)
  {
    StripOfStripped(s);
  }

  predicate IsAlnum(c: char) {
    'A' <= c <= 'Z' || 'a' <= c <= 'z' || '0' <= c <= '9'
  }

  predicate IsIdChar(c: char) {
    'a' <= c <= 'z' || '0' <= c <= '9' || c == '-'
  }

  predicate IsId(s: string) {
    0 < |s| <= 32 && s[0] != '-' && forall c | c in s :: IsIdChar(c)
  }

  predicate IsRelease(s: string) {
    0 < |s| <= 64 && IsAlnum(s[0]) && forall c | c in s :: IsAlnum(c) || c == '.' || c == '_' || c == '-'
  }

  predicate IsNumber(s: string) {
    0 < |s| <= 16 && Decimal.IsDigit(s[0]) && forall c | c in s :: Decimal.IsDigit(c) || c == '.'
  }

  predicate IsMemberPart(part: string) {
    part != "" && part != ".." && forall c | c in part :: IsAlnum(c) || c == '.' || c == '_' || c == '+' || c == '-'
  }

  predicate IsMember(s: string) {
    forall part | part in Split(s, '/') :: IsMemberPart(part)
  }

  // --- The patterns, as their expressions write them -----------------------

  predicate AllFrom(s: string, from: nat, plain: char -> bool) {
    forall i | from <= i < |s| :: plain(s[i])
  }

  lemma AllIsAllFrom(s: string, from: nat, plain: char -> bool)
    requires from <= |s|
    ensures AllFrom(s, from, plain) <==> forall c | c in s[from..] :: plain(c)
  {
    forall i | from <= i < |s|
      ensures s[i] in s[from..]
    {
      assert s[from..][i - from] == s[i];
    }
  }

  /** `[a-z0-9][a-z0-9-]{0,31}` */
  lemma IdPattern(s: string)
    ensures IsId(s) <==> 1 <= |s| <= 32 && IsWordChar(s[0]) && AllFrom(s, 1, IsIdChar)
  {
    if s != "" {
      AllIsAllFrom(s, 1, IsIdChar);
      assert s[0] in s && s == [s[0]] + s[1..];
    }
  }

  predicate IsReleaseChar(c: char) {
    IsAlnum(c) || c == '.' || c == '_' || c == '-'
  }

  /** `[A-Za-z0-9][A-Za-z0-9._-]{0,63}` */
  lemma ReleasePattern(s: string)
    ensures IsRelease(s) <==> 1 <= |s| <= 64 && IsAlnum(s[0]) && AllFrom(s, 1, IsReleaseChar)
  {
    if s != "" {
      AllIsAllFrom(s, 1, IsReleaseChar);
      assert s[0] in s && s == [s[0]] + s[1..];
    }
  }

  predicate IsNumberChar(c: char) {
    '0' <= c <= '9' || c == '.'
  }

  /** `[0-9][0-9.]{0,15}` */
  lemma NumberPattern(s: string)
    ensures IsNumber(s) <==> 1 <= |s| <= 16 && '0' <= s[0] <= '9' && AllFrom(s, 1, IsNumberChar)
  {
    if s != "" {
      AllIsAllFrom(s, 1, IsNumberChar);
      assert s[0] in s && s == [s[0]] + s[1..];
      assert forall c :: IsNumberChar(c) <==> Decimal.IsDigit(c) || c == '.';
    }
  }

  /** A mirror starts with http:// or https:// and a host, and has plain characters from there on. */
  lemma MirrorPattern(s: string)
    requires IsMirrorUrl(s)
    ensures var n := if Lower(Lists.Take(s, 5)) == "https" then 5 else 4;
      && |s| > n + 3 && Lower(s[..n]) == (if n == 4 then "http" else "https")
      && s[n] == ':' && s[n + 1] == '/' && s[n + 2] == '/' && s[n + 3] != '/' && AllFrom(s, n + 3, IsMirrorChar)
  {
    var n := if HasScheme(s, 5) then 5 else 4;
    assert s[n..n + 3][0] == s[n] && s[n..n + 3][1] == s[n + 1] && s[n..n + 3][2] == s[n + 2];
    AllIsAllFrom(s, n + 3, IsMirrorChar);
    if n == 4 {
      assert s[n..n + 3][0] == ':';
      LowerAt(s[..5], 4);
    }
  }

  /** `s.removeprefix("./")`. */
  function WithoutDotSlash(s: string): string {
    if "./" <= s then s[2..] else s
  }

  function Member(raw: string): Result<string> {
    var s := Field(raw, 255, true);
    if s.Err? then s
    else if IsMember(WithoutDotSlash(s.value)) then Ok(WithoutDotSlash(s.value))
    else Err(BadMember)
  }

  predicate IsMirrorChar(c: char) {
    || IsAlnum(c) || c == '.' || c == '_' || c == '~' || c == ':' || c == '/'
    || c == '@' || c == '%' || c == '+' || c == '-'
  }

  /** http:// or https://, then a host, of plain characters throughout. */
  predicate IsMirrorUrl(s: string) {
    HasScheme(s, 4) || HasScheme(s, 5)
  }

  predicate HasScheme(s: string, n: nat) {
    && |s| > n + 3 && Lower(s[..n]) == (if n == 4 then "http" else "https") && s[n..n + 3] == "://"
    && s[n + 3] != '/' && forall c | c in s[n + 3..] :: IsMirrorChar(c)
  }

  predicate IsMirror(s: string) {
    IsField(s, 255) && s != "" && s[|s| - 1] != '/' && IsMirrorUrl(s)
  }

  function Mirror(raw: string): (r: Result<string>) {
    var s := Field(raw, 255, true);
    if s.Err? then s
    else
      var m := StripSlashes(s.value);
      if IsMirrorUrl(m) then Ok(m) else Err(BadMirror)
  }

  lemma MirrorEnds(m: string, n: nat)
    requires HasScheme(m, n)
    ensures IsMirrorChar(m[|m| - 1])
  {
    var rest := m[n + 3..];
    assert rest[|rest| - 1] in rest;
  }

  lemma MirrorPrefix(s: string, m: string)
    requires IsField(s, 255) && m <= s && IsMirrorUrl(m)
    ensures IsField(m, 255) && m != ""
  {
    MirrorEnds(m, if HasScheme(m, 4) then 4 else 5);
    PlainIsNoSpace(m[|m| - 1]);
    assert m[0] == s[0];
    assert forall c | c in m :: c in s;
  }

  lemma MirrorIsStored(raw: string, m: string)
    requires Mirror(raw) == Ok(m)
    ensures IsMirror(m)
  {
    MirrorPrefix(Field(raw, 255, true).value, m);
  }

  lemma MirrorIsStable(m: string)
    requires IsMirror(m)
    ensures Mirror(m) == Ok(m)
  {
    FieldIsStable(m, 255, true);
  }

  // --- Releases ------------------------------------------------------------

  /** The title a release has when none is given. */
  function Auto(name: string, id: string): string {
    name + " " + id
  }

  function CheckRelease(item: Release, name: string, seen: set<string>, rules: Rules): Result<Release> {
    var id := Strip(item.id);
    var title := if item.title == "" then Auto(name, id) else item.title;
    if !IsRelease(id) then Err(BadRelease)
    else if Lower(id) in seen then Err(ListedTwice)
    else if |title| > MAX_TITLE || !NoControl(title) then Err(BadTitle)
    else if item.number != "" && !IsNumber(item.number) then Err(BadNumber)
    else if item.eol != "" && !rules.isDate(item.eol) then Err(BadEol)
    else Ok(Release(id, Strip(title), item.number, item.eol, item.isDefault, item.prerelease))
  }

  function CheckEach(items: seq<Release>, name: string, seen: set<string>, rules: Rules): (r: Result<seq<Release>>)
    ensures r.Ok? ==> |r.value| == |items|
  {
    if items == [] then Ok([])
    else
      var first := CheckRelease(items[0], name, seen, rules);
      if first.Err? then Err(first.problem)
      else
        var rest := CheckEach(items[1..], name, seen + {Lower(first.value.id)}, rules);
        if rest.Err? then rest else Ok([first.value] + rest.value)
  }

  predicate IsDefault(r: Release) {
    r.isDefault
  }

  function Defaults(rs: seq<Release>): nat {
    Lists.CountOf(rs, IsDefault)
  }

  /** The checked releases: one of them is the default, the first unless one is marked. */
  function CheckReleases(items: seq<Release>, name: string, rules: Rules): Result<seq<Release>> {
    if items == [] then Err(NoReleases)
    else if |items| > MAX_RELEASES then Err(TooManyReleases)
    else
      var out := CheckEach(items, name, {}, rules);
      if out.Err? then out
      else if Defaults(out.value) > 1 then Err(ManyDefaults)
      else if Defaults(out.value) == 0 then Ok(out.value[0 := out.value[0].(isDefault := true)])
      else out
  }

  lemma DefaultsMore(rs: seq<Release>, r: Release)
    ensures Defaults(rs + [r]) == Defaults(rs) + if r.isDefault then 1 else 0
  {
    Lists.CountAppend(rs, [r], IsDefault);
    assert [r][1..] == [];
  }

  /** The first `i` releases passed and gave `out`. */
  predicate Checking(items: seq<Release>, name: string, rules: Rules, i: nat, seen: set<string>, out: seq<Release>)
    requires i <= |items|
  {
    && |out| == i
    && CheckEach(items, name, {}, rules) == PrependAll(out, CheckEach(items[i..], name, seen, rules))
  }

  lemma CheckEachFirst(items: seq<Release>, name: string, seen: set<string>, rules: Rules, i: nat)
    requires i < |items|
    ensures var first := CheckRelease(items[i], name, seen, rules);
            CheckEach(items[i..], name, seen, rules)
            == if first.Err? then Err(first.problem)
               else Prepend(first.value, CheckEach(items[i + 1..], name, seen + {Lower(first.value.id)}, rules))
  {
    var here := items[i..];
    assert here[0] == items[i] && here[1..] == items[i + 1..];
  }

  function Prepend(first: Release, rest: Result<seq<Release>>): Result<seq<Release>> {
    if rest.Err? then rest else Ok([first] + rest.value)
  }

  function PrependAll(out: seq<Release>, rest: Result<seq<Release>>): Result<seq<Release>> {
    if rest.Err? then rest else Ok(out + rest.value)
  }

  lemma PrependMore(out: seq<Release>, first: Release, rest: Result<seq<Release>>)
    ensures PrependAll(out, Prepend(first, rest)) == PrependAll(out + [first], rest)
  {
    if rest.Ok? {
      assert out + ([first] + rest.value) == out + [first] + rest.value;
    }
  }

  lemma CheckingNext(items: seq<Release>, name: string, rules: Rules, i: nat, seen: set<string>, out: seq<Release>,
                     first: Release)
    requires i < |items| && Checking(items, name, rules, i, seen, out)
    requires CheckRelease(items[i], name, seen, rules) == Ok(first)
    ensures Checking(items, name, rules, i + 1, seen + {Lower(first.id)}, out + [first])
  {
    CheckEachFirst(items, name, seen, rules, i);
    PrependMore(out, first, CheckEach(items[i + 1..], name, seen + {Lower(first.id)}, rules));
  }

  lemma CheckingStarts(items: seq<Release>, name: string, rules: Rules)
    ensures Checking(items, name, rules, 0, {}, [])
  {
    assert items[0..] == items;
    var all := CheckEach(items, name, {}, rules);
    if all.Ok? {
      assert [] + all.value == all.value;
    }
  }

  lemma CheckingDone(items: seq<Release>, name: string, rules: Rules, seen: set<string>, out: seq<Release>)
    requires Checking(items, name, rules, |items|, seen, out)
    ensures CheckEach(items, name, {}, rules) == Ok(out)
  {
    assert items[|items|..] == [] && out + [] == out;
  }

  method EntryReleases(items: seq<Release>, name: string, rules: Rules) returns (r: Result<seq<Release>>)
    ensures r == CheckReleases(items, name, rules)
  {
    if |items| == 0 {
      return Err(NoReleases);
    }
    if |items| > MAX_RELEASES {
      return Err(TooManyReleases);
    }
    var out: seq<Release>, seen: set<string>, defaults: nat := [], {}, 0;
    CheckingStarts(items, name, rules);
    for i := 0 to |items|
      invariant Checking(items, name, rules, i, seen, out) && defaults == Defaults(out)
    {
      var first := CheckRelease(items[i], name, seen, rules);
      if first.Err? {
        CheckEachFirst(items, name, seen, rules, i);
        return Err(first.problem);
      }
      CheckingNext(items, name, rules, i, seen, out, first.value);
      DefaultsMore(out, first.value);
      seen := seen + {Lower(first.value.id)};
      defaults := defaults + if first.value.isDefault then 1 else 0;
      out := out + [first.value];
    }
    CheckingDone(items, name, rules, seen, out);
    if defaults > 1 {
      return Err(ManyDefaults);
    }
    if defaults == 0 {
      out := out[0 := out[0].(isDefault := true)];
    }
    r := Ok(out);
  }

  // --- The whole entry -----------------------------------------------------

  function Templates(boot: BootSource): seq<string> {
    match boot
    case Archive(url, _, _) => [url]
    case Urls(kernel, initrd) => [kernel, initrd]
  }

  function CheckBoot(raw: Raw): Result<BootSource> {
    var archive := Field(raw.archiveUrl, 512, false);
    var kernel := Field(raw.kernelUrl, 512, false);
    var initrd := Field(raw.initrdUrl, 512, false);
    if archive.Err? then Err(archive.problem)
    else if kernel.Err? then Err(kernel.problem)
    else if initrd.Err? then Err(initrd.problem)
    else if archive.value != "" then
      if kernel.value != "" || initrd.value != "" then Err(TwoSources)
      else
        var k, i := Member(raw.kernelMember), Member(raw.initrdMember);
        if k.Err? then Err(k.problem)
        else if i.Err? then Err(i.problem)
        else Ok(Archive(archive.value, k.value, i.value))
    else if kernel.value != "" && initrd.value != "" then Ok(Urls(kernel.value, initrd.value))
    else Err(NoSource)
  }

  function UrlTemplates(urls: seq<string>, many: bool, rules: Rules): (r: Result<()>)
    ensures r.Ok? <==> forall u | u in urls :: rules.urlTemplate(u) && (many ==> rules.versioned(u))
  {
    if urls == [] then Ok(())
    else if !rules.urlTemplate(urls[0]) then Err(BadTemplate)
    else if many && !rules.versioned(urls[0]) then Err(NoVersion)
    else UrlTemplates(urls[1..], many, rules)
  }

  predicate FilledIn(e: Entry, r: Release, rules: Rules) {
    && (forall u | u in Templates(e.boot) :: rules.givesUrl(u, e.mirror, r.id))
    && rules.argsFit(e.bootArgs, e.mirror, r.id)
  }

  function FillIn(rs: seq<Release>, e: Entry, rules: Rules): (result: Result<()>)
    ensures result.Ok? <==> forall r | r in rs :: FilledIn(e, r, rules)
  {
    assert rs != [] ==> rs[0] in rs;
    if rs == [] then Ok(())
    else if exists u | u in Templates(e.boot) :: !rules.givesUrl(u, e.mirror, rs[0].id) then Err(NoUrl)
    else if !rules.argsFit(e.bootArgs, e.mirror, rs[0].id) then Err(ArgsTooLong)
    else
      assert forall r | r in rs :: r == rs[0] || r in rs[1..];
      FillIn(rs[1..], e, rules)
  }

  /** The templates, as they stand and once they are filled in for every release. */
  function CheckTemplates(e: Entry, rules: Rules): Result<()> {
    if !rules.argsTemplate(e.bootArgs) then Err(BadTemplate)
    else
      var urls := UrlTemplates(Templates(e.boot), |e.releases| > 1, rules);
      if urls.Err? then urls else FillIn(e.releases, e, rules)
  }

  /** An entry boots from an archive or from two URLs, never from both and never from one. */
  lemma OneSource(raw: Raw)
    requires CheckBoot(raw).Ok?
    ensures var archive, kernel, initrd := Strip(raw.archiveUrl), Strip(raw.kernelUrl), Strip(raw.initrdUrl);
      match CheckBoot(raw).value
      case Archive(url, _, _) => url == archive != "" && kernel == "" && initrd == ""
      case Urls(k, i) => archive == "" && k == kernel != "" && i == initrd != ""
  {
  }

  /** What else keeps a source that fits its limits from being accepted. */
  lemma SourceRefused(raw: Raw)
    requires NoControl(Strip(raw.archiveUrl)) && |Strip(raw.archiveUrl)| <= 512
    requires NoControl(Strip(raw.kernelUrl)) && |Strip(raw.kernelUrl)| <= 512
    requires NoControl(Strip(raw.initrdUrl)) && |Strip(raw.initrdUrl)| <= 512
    ensures var archive, kernel, initrd := Strip(raw.archiveUrl), Strip(raw.kernelUrl), Strip(raw.initrdUrl);
      && (CheckBoot(raw) == Err(TwoSources) <==> archive != "" && (kernel != "" || initrd != ""))
      && (CheckBoot(raw) == Err(NoSource) <==> archive == "" && (kernel == "" || initrd == ""))
  {
  }

  /** A single mark is kept as it is; without one the first release gets it, and more are refused. */
  lemma DefaultsSettled(items: seq<Release>, name: string, rules: Rules)
    requires 0 < |items| <= MAX_RELEASES && CheckEach(items, name, {}, rules).Ok?
    ensures var out, marked := CheckEach(items, name, {}, rules).value, Lists.CountOf(items, IsDefault);
      && (marked == 1 ==> CheckReleases(items, name, rules) == Ok(out))
      && (marked == 0 ==> CheckReleases(items, name, rules) == Ok(out[0 := out[0].(isDefault := true)]))
      && (marked > 1 ==> CheckReleases(items, name, rules) == Err(ManyDefaults))
  {
    SameMarks(items, name, {}, rules);
  }

  lemma {:induction false} SameMarks(items: seq<Release>, name: string, seen: set<string>, rules: Rules)
    requires CheckEach(items, name, seen, rules).Ok?
    ensures Defaults(CheckEach(items, name, seen, rules).value) == Lists.CountOf(items, IsDefault)
  {
    if items != [] {
      var first := CheckRelease(items[0], name, seen, rules).value;
      SameMarks(items[1..], name, seen + {Lower(first.id)}, rules);
    }
  }

  // --- Identifiers ---------------------------------------------------------

  predicate IsWordChar(c: char) {
    'a' <= c <= 'z' || '0' <= c <= '9'
  }

  /** Every run of other characters becomes one dash. */
  function Dashed(s: string, inRun: bool): (r: string)
    ensures forall c | c in r :: IsIdChar(c)
  {
    if s == "" then ""
    else if IsWordChar(s[0]) then [s[0]] + Dashed(s[1..], false)
    else (if inRun then "" else "-") + Dashed(s[1..], true)
  }

  /** `s.strip("-")`. */
  function TrimDashes(s: string): (r: string)
    ensures forall c | c in r :: c in s
    ensures |r| <= |s| && (r != "" ==> r[0] != '-' && r[|r| - 1] != '-')
  {
    if s == "" then ""
    else if s[0] == '-' then TrimDashes(s[1..])
    else if s[|s| - 1] == '-' then TrimDashes(s[..|s| - 1])
    else s
  }

  /** The ID an entry gets from its name. */
  function IdFor(name: string): (id: string)
    ensures IsId(id)
  {
    var dashed := TrimDashes(Dashed(Lower(name), false));
    var head := Lists.Take(dashed, 32);
    assert forall c | c in head :: c in dashed;
    var id := TrimDashes(head);
    if id == "" then "custom" else id
  }

  /** No two dashes in a row. */
  predicate SingleDashes(s: string) {
    forall i | 0 <= i < |s| - 1 :: s[i] == '-' ==> s[i + 1] != '-'
  }

  lemma {:induction false} DashedOnce(s: string, inRun: bool)
    ensures SingleDashes(Dashed(s, inRun)) && (inRun && Dashed(s, inRun) != "" ==> Dashed(s, inRun)[0] != '-')
  {
    if s != "" {
      DashedOnce(s[1..], !IsWordChar(s[0]));
    }
  }

  lemma {:induction false} TrimKeepsSingle(s: string)
    requires SingleDashes(s)
    ensures SingleDashes(TrimDashes(s))
    decreases |s|
  {
    if s != "" && s[0] == '-' {
      assert forall i | 0 <= i < |s| - 1 :: s[1..][i] == s[i + 1];
      TrimKeepsSingle(s[1..]);
    } else if s != "" && s[|s| - 1] == '-' {
      TrimKeepsSingle(s[..|s| - 1]);
    }
  }

  /** The ID made from a name joins its words by single dashes. */
  lemma IdForJoins(name: string)
    ensures SingleDashes(IdFor(name))
  {
    var dashed := TrimDashes(Dashed(Lower(name), false));
    DashedOnce(Lower(name), false);
    TrimKeepsSingle(Dashed(Lower(name), false));
    assert SingleDashes(Lists.Take(dashed, 32));
    TrimKeepsSingle(Lists.Take(dashed, 32));
    assert SingleDashes("custom");
  }

  /** And a name that is such an ID already is its own. */
  lemma IdForStays(id: string)
    requires IsId(id) && SingleDashes(id) && id[|id| - 1] != '-'
    ensures IdFor(id) == id
  {
    LowerOfId(id);
    DashedStays(id, false);
  }

  lemma {:induction false} DashedStays(s: string, inRun: bool)
    requires SingleDashes(s) && (forall c | c in s :: IsIdChar(c)) && (inRun && s != "" ==> s[0] != '-')
    ensures Dashed(s, inRun) == s
  {
    if s != "" {
      assert s[0] in s;
      assert forall i | 0 <= i < |s| - 1 :: s[1..][i] == s[i + 1];
      DashedStays(s[1..], !IsWordChar(s[0]));
      assert [s[0]] + s[1..] == s;
    }
  }

  function EntryId(raw: string, name: string): Result<string> {
    var field := Field(raw, 32, false);
    if field.Err? then field
    else
      var id := if field.value == "" then IdFor(name) else Lower(field.value);
      if IsId(id) then Ok(id) else Err(BadId)
  }

  // --- Checking an entry ---------------------------------------------------

  /** The entry of checked parts, or the problem of the first part that has one. */
  function Assemble(id: Result<string>, name: Result<string>, mirror: Result<string>, boot: Result<BootSource>,
                    args: Result<string>, releases: Result<seq<Release>>, rules: Rules): Result<Entry>
  {
    if name.Err? then Err(name.problem)
    else if id.Err? then Err(id.problem)
    else if mirror.Err? then Err(mirror.problem)
    else if boot.Err? then Err(boot.problem)
    else if args.Err? then Err(args.problem)
    else if releases.Err? then Err(releases.problem)
    else
      var e := Entry(id.value, name.value, mirror.value, boot.value, args.value, releases.value);
      var templates := CheckTemplates(e, rules);
      if templates.Err? then Err(templates.problem) else Ok(e)
  }

  /** Check an entry and put it in its stored form; the first problem found is reported. */
  function Validate(raw: Raw, rules: Rules): Result<Entry> {
    var name := Field(raw.name, 64, true);
    if name.Err? then Err(name.problem)
    else
      Assemble(EntryId(raw.id, name.value), name, Mirror(raw.mirror), CheckBoot(raw),
               Field(raw.bootArgs, 1024, false), CheckReleases(raw.releases, name.value, rules), rules)
  }

  /** What it takes for an entry to pass: each of its parts does. */
  predicate Passes(raw: Raw, e: Entry, rules: Rules) {
    && Field(raw.name, 64, true) == Ok(e.name) && EntryId(raw.id, e.name) == Ok(e.id)
    && Mirror(raw.mirror) == Ok(e.mirror) && CheckBoot(raw) == Ok(e.boot)
    && Field(raw.bootArgs, 1024, false) == Ok(e.bootArgs)
    && CheckReleases(raw.releases, e.name, rules) == Ok(e.releases)
    && CheckTemplates(e, rules).Ok?
  }

  lemma ValidateIff(raw: Raw, e: Entry, rules: Rules)
    ensures Validate(raw, rules) == Ok(e) <==> Passes(raw, e, rules)
  {
    AssembleIff(EntryId(raw.id, e.name), Ok(e.name), Mirror(raw.mirror), CheckBoot(raw),
                Field(raw.bootArgs, 1024, false), CheckReleases(raw.releases, e.name, rules), e, rules);
    var name := Field(raw.name, 64, true);
    if name.Ok? && name.value != e.name {
      AssembleIff(EntryId(raw.id, name.value), name, Mirror(raw.mirror), CheckBoot(raw),
                  Field(raw.bootArgs, 1024, false), CheckReleases(raw.releases, name.value, rules), e, rules);
    }
  }

  lemma AssembleIff(id: Result<string>, name: Result<string>, mirror: Result<string>, boot: Result<BootSource>,
                    args: Result<string>, releases: Result<seq<Release>>, e: Entry, rules: Rules)
    ensures Assemble(id, name, mirror, boot, args, releases, rules) == Ok(e)
      <==> (&& name == Ok(e.name) && id == Ok(e.id) && mirror == Ok(e.mirror) && boot == Ok(e.boot)
            && args == Ok(e.bootArgs) && releases == Ok(e.releases) && CheckTemplates(e, rules).Ok?)
  {
  }

  // --- What a stored entry looks like --------------------------------------

  predicate IsStoredRelease(r: Release, rules: Rules) {
    && IsRelease(r.id) && IsField(r.title, MAX_TITLE)
    && (r.number == "" || IsNumber(r.number)) && (r.eol == "" || rules.isDate(r.eol))
  }

  predicate DistinctIds(rs: seq<Release>) {
    forall i, j | 0 <= i < j < |rs| :: Lower(rs[i].id) != Lower(rs[j].id)
  }

  predicate IsStoredBoot(boot: BootSource) {
    match boot
    case Archive(url, k, i) =>
      && IsField(url, 512) && url != "" && IsField(k, 255) && IsMember(k) && IsField(i, 255) && IsMember(i)
    case Urls(kernel, initrd) =>
      IsField(kernel, 512) && kernel != "" && IsField(initrd, 512) && initrd != ""
  }

  predicate IsStoredReleases(rs: seq<Release>, rules: Rules) {
    && 0 < |rs| <= MAX_RELEASES && DistinctIds(rs) && Defaults(rs) == 1
    && forall r | r in rs :: IsStoredRelease(r, rules)
  }

  predicate IsStored(e: Entry, rules: Rules) {
    && IsField(e.name, 64) && e.name != "" && IsId(e.id) && IsMirror(e.mirror) && IsStoredBoot(e.boot)
    && IsField(e.bootArgs, 1024) && IsStoredReleases(e.releases, rules)
    && CheckTemplates(e, rules).Ok?
  }

  lemma MemberIsStored(raw: string, m: string)
    requires Member(raw) == Ok(m)
    ensures IsField(m, 255) && IsMember(m) && m != ""
  {
    var s := Field(raw, 255, true);
    PartIsStored(s.value, m);
  }

  lemma PartIsStored(s: string, m: string)
    requires IsField(s, 255) && IsMember(m) && |m| <= |s| && m == s[|s| - |m|..]
    ensures IsField(m, 255) && m != ""
  {
    assert forall c | c in m :: c in s;
    if m == "" {
      assert Split(m, '/')[0] in Split(m, '/');
    } else {
      MemberFirst(m);
      assert m[|m| - 1] == s[|s| - 1];
    }
  }

  /** A member path does not begin with white space. */
  lemma MemberFirst(m: string)
    requires IsMember(m) && m != ""
    ensures !IsSpace(m[0])
  {
    var parts := Split(m, '/');
    assert parts[0] in parts;
    if m[0] != '/' {
      assert m[0] == parts[0][0] && m[0] in parts[0];
    }
    PlainIsNoSpace(m[0]);
  }

  lemma CheckedIsStored(item: Release, name: string, seen: set<string>, rules: Rules)
    requires CheckRelease(item, name, seen, rules).Ok?
    ensures var r := CheckRelease(item, name, seen, rules).value;
            IsStoredRelease(r, rules) && Lower(r.id) !in seen
  {
    var title := if item.title == "" then Auto(name, Strip(item.id)) else item.title;
    forall c | c in Strip(title)
      ensures !IsControl(c)
    {
      InStrip(title, c);
    }
  }

  lemma {:induction false} CheckedAreStored(items: seq<Release>, name: string, seen: set<string>, rules: Rules)
    requires CheckEach(items, name, seen, rules).Ok?
    ensures var rs := CheckEach(items, name, seen, rules).value;
            && DistinctIds(rs) && (forall r | r in rs :: IsStoredRelease(r, rules) && Lower(r.id) !in seen)
  {
    if items != [] {
      var first := CheckRelease(items[0], name, seen, rules).value;
      var seen' := seen + {Lower(first.id)};
      CheckedIsStored(items[0], name, seen, rules);
      CheckedAreStored(items[1..], name, seen', rules);
      var rest := CheckEach(items[1..], name, seen', rules).value;
      forall j | 0 <= j < |rest|
        ensures Lower(rest[j].id) != Lower(first.id)
      {
        assert rest[j] in rest;
      }
    }
  }

  lemma DefaultsSet(rs: seq<Release>)
    requires rs != [] && Defaults(rs) == 0
    ensures Defaults(rs[0 := rs[0].(isDefault := true)]) == 1
  {
    var set0 := rs[0 := rs[0].(isDefault := true)];
    assert set0[1..] == rs[1..];
  }

  lemma ReleasesAreStored(items: seq<Release>, name: string, rules: Rules)
    requires CheckReleases(items, name, rules).Ok?
    ensures IsStoredReleases(CheckReleases(items, name, rules).value, rules)
  {
    CheckedAreStored(items, name, {}, rules);
    var out := CheckEach(items, name, {}, rules).value;
    if Defaults(out) == 0 {
      DefaultsSet(out);
      var first := out[0].(isDefault := true);
      assert out[0] in out;
      assert forall r | r in out[0 := first] :: r == first || r in out;
    }
  }

  lemma BootIsStored(raw: Raw, boot: BootSource)
    requires CheckBoot(raw) == Ok(boot)
    ensures IsStoredBoot(boot)
  {
    if boot.Archive? {
      MemberIsStored(raw.kernelMember, boot.kernelMember);
      MemberIsStored(raw.initrdMember, boot.initrdMember);
    }
  }

  /** Whatever is handed in, an entry that passes the check is a stored one. */
  lemma ValidatedIsStored(raw: Raw, e: Entry, rules: Rules)
    requires Validate(raw, rules) == Ok(e)
    ensures IsStored(e, rules)
  {
    ValidateIff(raw, e, rules);
    PassedIsStored(raw, e, rules);
  }

  lemma PassedIsStored(raw: Raw, e: Entry, rules: Rules)
    requires Passes(raw, e, rules)
    ensures IsStored(e, rules)
  {
    MirrorIsStored(raw.mirror, e.mirror);
    BootIsStored(raw, e.boot);
    ReleasesAreStored(raw.releases, e.name, rules);
  }

  // --- The form ------------------------------------------------------------

  /** The edit form. Its releases are one text, a release a line. */
  datatype Form = Form(
    name: string, mirror: string, files: bool, archiveUrl: string, kernelMember: string, initrdMember: string,
    kernelUrl: string, initrdUrl: string, bootArgs: string, releases: string)

  /** Releases with this mark, in order. */
  function Marked(rs: seq<Release>, mark: bool): (some: seq<Release>)
    ensures forall r :: r in some <==> r in rs && r.isDefault == mark
  {
    if rs == [] then []
    else (if rs[0].isDefault == mark then [rs[0]] else []) + Marked(rs[1..], mark)
  }

  /** The default first, the others as they were. */
  function Ordered(rs: seq<Release>): seq<Release> {
    Marked(rs, true) + Marked(rs, false)
  }

  function Line(r: Release, name: string): string {
    if r.title == Auto(name, r.id) then r.id else r.id + " " + "|" + " " + r.title
  }

  function Lines(rs: seq<Release>, name: string): (lines: seq<string>)
    ensures |lines| == |rs| && forall i | 0 <= i < |rs| :: lines[i] == Line(rs[i], name)
  {
    seq(|rs|, i requires 0 <= i < |rs| => Line(rs[i], name))
  }

  /** The form for an entry; `nl` is how the browser ends the lines it sends back. */
  function ToForm(e: Entry, nl: string): Form {
    var lines := JoinLines(Lines(Ordered(e.releases), e.name), nl);
    match e.boot
    case Archive(url, k, i) => Form(e.name, e.mirror, false, url, k, i, "", "", e.bootArgs, lines)
    case Urls(kernel, initrd) => Form(e.name, e.mirror, true, "", "", "", kernel, initrd, e.bootArgs, lines)
  }

  function ReadLine(line: string): Release {
    Release(Strip(Before(line, '|')), Strip(After(line, '|')), "", "", false, false)
  }

  function ReadLines(lines: seq<string>): seq<Release> {
    if lines == [] then []
    else Read1(ReadLine(lines[0])) + ReadLines(lines[1..])
  }

  lemma ReadLinesFrom(lines: seq<string>, i: nat)
    requires i < |lines|
    ensures ReadLines(lines[i..]) == Read1(ReadLine(lines[i])) + ReadLines(lines[i + 1..])
  {
    assert lines[i..][0] == lines[i] && lines[i..][1..] == lines[i + 1..];
  }

  /** A line that names no release is skipped. */
  function Read1(r: Release): seq<Release> {
    if r.id == "" then [] else [r]
  }

  predicate ReadSoFar(lines: seq<string>, i: nat, read: seq<Release>)
    requires i <= |lines|
  {
    ReadLines(lines) == read + ReadLines(lines[i..])
  }

  lemma ReadStarts(lines: seq<string>)
    ensures ReadSoFar(lines, 0, [])
  {
    assert lines[0..] == lines;
  }

  lemma Shift(all: seq<Release>, read: seq<Release>, one: seq<Release>, rest: seq<Release>)
    requires all == read + (one + rest)
    ensures all == (read + one) + rest
  {
  }

  lemma ReadOneMore(lines: seq<string>, i: nat, read: seq<Release>)
    requires i < |lines| && ReadSoFar(lines, i, read)
    ensures ReadSoFar(lines, i + 1, read + Read1(ReadLine(lines[i])))
  {
    ReadLinesFrom(lines, i);
    Shift(ReadLines(lines), read, Read1(ReadLine(lines[i])), ReadLines(lines[i + 1..]));
  }

  lemma ReadDone(lines: seq<string>, read: seq<Release>)
    requires ReadSoFar(lines, |lines|, read)
    ensures read == ReadLines(lines)
  {
    assert lines[|lines|..] == [];
  }

  method ParseReleases(text: string) returns (releases: seq<Release>)
    ensures releases == ReadLines(SplitLines(text))
  {
    var lines := SplitLines(text);
    releases := [];
    ReadStarts(lines);
    for i := 0 to |lines|
      invariant ReadSoFar(lines, i, releases)
    {
      ReadOneMore(lines, i, releases);
      var r := ReadLine(lines[i]);
      releases := releases + if r.id == "" then [] else [r];
    }
    ReadDone(lines, releases);
  }

  /** What the form has no box for is kept from the entry being edited. */
  function Keep(item: Release, kept: seq<Release>): Release {
    if kept == [] then item
    else
      var k := kept[|kept| - 1];
      if k.id == item.id then item.(number := k.number, eol := k.eol, prerelease := k.prerelease)
      else Keep(item, kept[..|kept| - 1])
  }

  function KeepAll(items: seq<Release>, kept: seq<Release>): (r: seq<Release>)
    ensures |r| == |items| && forall i | 0 <= i < |r| :: r[i] == Keep(items[i], kept)
  {
    if items == [] then [] else [Keep(items[0], kept)] + KeepAll(items[1..], kept)
  }

  function RawOf(form: Form, id: string, releases: seq<Release>): Raw {
    if form.files then
      Raw(id, form.name, form.mirror, "", "", "", form.kernelUrl, form.initrdUrl, form.bootArgs, releases)
    else
      Raw(id, form.name, form.mirror, form.archiveUrl, form.kernelMember, form.initrdMember, "", "", form.bootArgs,
          releases)
  }

  /** The entry the form describes, when it edits `edited`. */
  function Edited(form: Form, edited: Entry, rules: Rules): Result<Entry> {
    var releases := KeepAll(ReadLines(SplitLines(form.releases)), edited.releases);
    Validate(RawOf(form, edited.id, releases), rules)
  }

  method KeepFields(items: seq<Release>, kept: seq<Release>) returns (releases: seq<Release>)
    ensures releases == KeepAll(items, kept)
  {
    releases := items;
    for i := 0 to |items|
      invariant |releases| == |items|
      invariant forall j | 0 <= j < i :: releases[j] == Keep(items[j], kept)
      invariant forall j | i <= j < |items| :: releases[j] == items[j]
    {
      releases := releases[i := Keep(releases[i], kept)];
    }
  }

  method FormToEntry(form: Form, edited: Entry, rules: Rules) returns (r: Result<Entry>)
    ensures r == Edited(form, edited, rules)
  {
    var items := ParseReleases(form.releases);
    var releases := KeepFields(items, edited.releases);
    r := Validate(RawOf(form, edited.id, releases), rules);
  }

  // --- When an entry survives the form -------------------------------------

  /** Its line says everything about this release that the form has room for. */
  predicate Faithful(r: Release, name: string) {
    r.title == Auto(name, r.id) || (r.title != "" && OneLine(r.title))
  }

  predicate FaithfulBoot(boot: BootSource) {
    boot.Archive? ==> !("./" <= boot.kernelMember) && !("./" <= boot.initrdMember)
  }

  predicate Survives(e: Entry) {
    FaithfulBoot(e.boot) && forall r | r in e.releases :: Faithful(r, e.name)
  }

  function Normal(e: Entry): Entry {
    e.(releases := Ordered(e.releases))
  }

  // --- One line ------------------------------------------------------------

  lemma ReleaseIsPlain(id: string)
    requires IsRelease(id)
    ensures Stripped(id) && OneLine(id) && '|' !in id
  {
    assert id[|id| - 1] in id && id[0] in id;
    PlainIsNoSpace(id[0]);
    PlainIsNoSpace(id[|id| - 1]);
  }

  lemma LineRead(r: Release, name: string)
    requires IsRelease(r.id) && Stripped(r.title) && r.title != Auto(name, r.id)
    ensures ReadLine(Line(r, name)) == Release(r.id, r.title, "", "", false, false)
  {
    ReleaseIsPlain(r.id);
    var left, right := r.id + " ", " " + r.title;
    assert Line(r, name) == left + ['|'] + right;
    PartitionAt(left, '|', right);
    StripRightOf(r.id);
    StripLeftOf(r.title);
  }

  lemma StripRightOf(s: string)
    requires Stripped(s) && s != ""
    ensures Strip(s + " ") == s
  {
    StripLeftPadded("", s + " ");
    assert "" + (s + " ") == s + " ";
    StripRightPadded(s, " ");
  }

  lemma StripLeftOf(s: string)
    requires Stripped(s)
    ensures Strip(" " + s) == s
  {
    StripLeftPadded(" ", s);
  }

  lemma ShortLineRead(r: Release, name: string)
    requires IsRelease(r.id) && r.title == Auto(name, r.id)
    ensures ReadLine(Line(r, name)) == Release(r.id, "", "", "", false, false)
  {
    ReleaseIsPlain(r.id);
    PartitionNone(r.id, '|');
  }

  lemma LineIsOne(r: Release, name: string)
    requires IsRelease(r.id) && Faithful(r, name)
    ensures Line(r, name) != "" && OneLine(Line(r, name))
  {
    ReleaseIsPlain(r.id);
  }

  /** What the line of a release says. */
  function Said(r: Release, name: string): Release {
    Release(r.id, if r.title == Auto(name, r.id) then "" else r.title, "", "", false, false)
  }

  function SaidAll(rs: seq<Release>, name: string): (r: seq<Release>)
    ensures |r| == |rs| && forall i | 0 <= i < |rs| :: r[i] == Said(rs[i], name)
  {
    if rs == [] then [] else [Said(rs[0], name)] + SaidAll(rs[1..], name)
  }

  lemma {:induction false} LinesRead(rs: seq<Release>, name: string, rules: Rules)
    requires forall r | r in rs :: IsStoredRelease(r, rules)
    ensures ReadLines(Lines(rs, name)) == SaidAll(rs, name)
  {
    if rs != [] {
      var r, rest := rs[0], rs[1..];
      assert r in rs;
      assert forall o | o in rest :: o in rs;
      LinesRead(rest, name, rules);
      SaidLine(r, name, rules);
      LinesFirst(rs, name);
      FirstLineRead(Line(r, name), Lines(rest, name));
    }
  }

  lemma LinesFirst(rs: seq<Release>, name: string)
    requires rs != []
    ensures Lines(rs, name) == [Line(rs[0], name)] + Lines(rs[1..], name)
  {
  }

  lemma FirstLineRead(line: string, rest: seq<string>)
    ensures ReadLines([line] + rest) == Read1(ReadLine(line)) + ReadLines(rest)
  {
    assert ([line] + rest)[1..] == rest;
  }

  lemma SaidLine(r: Release, name: string, rules: Rules)
    requires IsStoredRelease(r, rules)
    ensures ReadLine(Line(r, name)) == Said(r, name)
  {
    if r.title == Auto(name, r.id) {
      ShortLineRead(r, name);
    } else {
      LineRead(r, name);
    }
  }

  // --- Ordered releases ----------------------------------------------------

  lemma ApartIds(rs: seq<Release>, r: Release, s: Release)
    requires DistinctIds(rs) && r in rs && s in rs && r != s
    ensures Lower(r.id) != Lower(s.id)
  {
  }

  lemma {:induction false} MarkedDistinct(rs: seq<Release>, mark: bool)
    requires DistinctIds(rs)
    ensures DistinctIds(Marked(rs, mark))
  {
    if rs != [] {
      var rest := rs[1..];
      MarkedDistinct(rest, mark);
      var some := Marked(rest, mark);
      forall j | 0 <= j < |some|
        ensures Lower(some[j].id) != Lower(rs[0].id)
      {
        assert some[j] in some && some[j] in rest;
      }
    }
  }

  lemma {:induction false} MarkedCount(rs: seq<Release>)
    ensures |Marked(rs, true)| == Defaults(rs) && |Marked(rs, true)| + |Marked(rs, false)| == |rs|
  {
    if rs != [] {
      MarkedCount(rs[1..]);
    }
  }

  /** The same releases, each once. */
  lemma OrderedSame(rs: seq<Release>)
    requires DistinctIds(rs)
    ensures |Ordered(rs)| == |rs| && DistinctIds(Ordered(rs))
    ensures forall r :: r in Ordered(rs) <==> r in rs
  {
    MarkedCount(rs);
    MarkedDistinct(rs, true);
    MarkedDistinct(rs, false);
    var first, last := Marked(rs, true), Marked(rs, false);
    forall i, j | 0 <= i < |first| && 0 <= j < |last|
      ensures Lower(first[i].id) != Lower(last[j].id)
    {
      var a, b := first[i], last[j];
      assert a in first && b in last;
      ApartIds(rs, a, b);
    }
  }

  /** As a multiset, nothing changes either. */
  lemma {:induction false} OrderedPermutes(rs: seq<Release>)
    ensures multiset(Ordered(rs)) == multiset(rs)
  {
    if rs != [] {
      OrderedPermutes(rs[1..]);
      assert rs == [rs[0]] + rs[1..];
    }
  }

  lemma OrderedDefaults(rs: seq<Release>)
    requires Defaults(rs) == 1 && DistinctIds(rs)
    ensures |Ordered(rs)| == |rs| > 0
    ensures forall i | 0 <= i < |rs| :: Ordered(rs)[i].isDefault <==> i == 0
  {
    MarkedCount(rs);
    var first, last := Marked(rs, true), Marked(rs, false);
    assert first[0] in first;
    forall i | 1 <= i < |rs|
      ensures !Ordered(rs)[i].isDefault
    {
      assert Ordered(rs)[i] == last[i - 1] && last[i - 1] in last;
    }
  }

  // --- There and back ------------------------------------------------------

  lemma {:induction false} KeepFinds(item: Release, kept: seq<Release>, r: Release)
    requires DistinctIds(kept) && r in kept && item.id == r.id
    ensures Keep(item, kept) == item.(number := r.number, eol := r.eol, prerelease := r.prerelease)
  {
    var k, front := kept[|kept| - 1], kept[..|kept| - 1];
    if k.id != item.id {
      assert kept == front + [k];
      KeepFinds(item, front, r);
    } else if k != r {
      ApartIds(kept, k, r);
    }
  }

  /** What comes back from the form for a release. */
  function Filled(r: Release, name: string): Release {
    Said(r, name).(number := r.number, eol := r.eol, prerelease := r.prerelease)
  }

  function Cleared(r: Release): Release {
    r.(isDefault := false)
  }

  lemma AutoStripped(name: string, id: string)
    requires Stripped(name) && name != "" && IsRelease(id)
    ensures Stripped(Auto(name, id))
  {
    ReleaseIsPlain(id);
  }

  lemma FilledChecks(r: Release, name: string, seen: set<string>, rules: Rules)
    requires IsStoredRelease(r, rules) && Faithful(r, name) && Lower(r.id) !in seen
    ensures CheckRelease(Filled(r, name), name, seen, rules) == Ok(Cleared(r))
  {
    ReleaseIsPlain(r.id);
    var item := Filled(r, name);
    assert Strip(item.id) == r.id && Strip(r.title) == r.title;
    assert r.title == if item.title == "" then Auto(name, r.id) else item.title;
  }

  function ClearAll(rs: seq<Release>): (r: seq<Release>)
    ensures |r| == |rs| && forall i | 0 <= i < |rs| :: r[i] == Cleared(rs[i])
  {
    if rs == [] then [] else [Cleared(rs[0])] + ClearAll(rs[1..])
  }

  function FillAll(rs: seq<Release>, name: string): (r: seq<Release>)
    ensures |r| == |rs| && forall i | 0 <= i < |rs| :: r[i] == Filled(rs[i], name)
  {
    if rs == [] then [] else [Filled(rs[0], name)] + FillAll(rs[1..], name)
  }

  predicate CanComeBack(r: Release, name: string, seen: set<string>, rules: Rules) {
    IsStoredRelease(r, rules) && Faithful(r, name) && Lower(r.id) !in seen
  }

  lemma {:induction false} FilledCheckAll(rs: seq<Release>, name: string, seen: set<string>, rules: Rules)
    requires DistinctIds(rs) && forall r | r in rs :: CanComeBack(r, name, seen, rules)
    ensures CheckEach(FillAll(rs, name), name, seen, rules) == Ok(ClearAll(rs))
  {
    if rs != [] {
      var r, rest := rs[0], rs[1..];
      assert r in rs && CanComeBack(r, name, seen, rules);
      FilledChecks(r, name, seen, rules);
      forall o | o in rest
        ensures CanComeBack(o, name, seen + {Lower(r.id)}, rules)
      {
        assert o in rs && CanComeBack(o, name, seen, rules);
      }
      FilledCheckAll(rest, name, seen + {Lower(r.id)}, rules);
      FilledFirst(rs, name, seen, rules);
    }
  }

  lemma FilledFirst(rs: seq<Release>, name: string, seen: set<string>, rules: Rules)
    requires rs != [] && CheckRelease(Filled(rs[0], name), name, seen, rules) == Ok(Cleared(rs[0]))
    ensures CheckEach(FillAll(rs, name), name, seen, rules)
         == Prepend(Cleared(rs[0]), CheckEach(FillAll(rs[1..], name), name, seen + {Lower(rs[0].id)}, rules))
  {
    var items := FillAll(rs, name);
    assert items[0] == Filled(rs[0], name) && items[1..] == FillAll(rs[1..], name);
  }

  lemma FilledItem(read: Release, rs: seq<Release>, r: Release, name: string)
    requires DistinctIds(rs) && r in rs && read == Said(r, name)
    ensures Keep(read, rs) == Filled(r, name)
  {
    KeepFinds(read, rs, r);
  }

  lemma FilledItems(rs: seq<Release>, name: string, rules: Rules)
    requires DistinctIds(rs) && forall r | r in rs :: IsStoredRelease(r, rules)
    ensures KeepAll(ReadLines(Lines(Ordered(rs), name)), rs) == FillAll(Ordered(rs), name)
  {
    var sorted := Ordered(rs);
    OrderedSame(rs);
    LinesRead(sorted, name, rules);
    var read := ReadLines(Lines(sorted, name));
    var items := KeepAll(read, rs);
    forall i | 0 <= i < |sorted|
      ensures items[i] == Filled(sorted[i], name)
    {
      assert sorted[i] in sorted;
      FilledItem(read[i], rs, sorted[i], name);
    }
  }

  lemma CheckedUnmarked(items: seq<Release>, name: string, rules: Rules, out: seq<Release>)
    requires 0 < |items| <= MAX_RELEASES && CheckEach(items, name, {}, rules) == Ok(out) && Defaults(out) == 0
    ensures CheckReleases(items, name, rules) == Ok(out[0 := out[0].(isDefault := true)])
  {
  }

  lemma AllCanComeBack(rs: seq<Release>, name: string, rules: Rules)
    requires DistinctIds(rs) && forall r | r in rs :: IsStoredRelease(r, rules) && Faithful(r, name)
    ensures CheckEach(FillAll(Ordered(rs), name), name, {}, rules) == Ok(ClearAll(Ordered(rs)))
  {
    OrderedSame(rs);
    forall r | r in Ordered(rs)
      ensures CanComeBack(r, name, {}, rules)
    {
      assert r in rs;
    }
    FilledCheckAll(Ordered(rs), name, {}, rules);
  }

  /** The lines of a faithful entry give back its releases, the default first. */
  lemma ReleasesComeBack(rs: seq<Release>, name: string, rules: Rules)
    requires IsStoredReleases(rs, rules) && forall r | r in rs :: Faithful(r, name)
    ensures CheckReleases(KeepAll(ReadLines(Lines(Ordered(rs), name)), rs), name, rules) == Ok(Ordered(rs))
  {
    OrderedSame(rs);
    FilledItems(rs, name, rules);
    AllCanComeBack(rs, name, rules);
    Lists.CountNone(ClearAll(Ordered(rs)), IsDefault);
    FirstIsDefault(rs);
    CheckedUnmarked(FillAll(Ordered(rs), name), name, rules, ClearAll(Ordered(rs)));
  }

  lemma FirstIsDefault(rs: seq<Release>)
    requires Defaults(rs) == 1 && DistinctIds(rs)
    ensures var out := ClearAll(Ordered(rs));
            out != [] && out[0 := out[0].(isDefault := true)] == Ordered(rs)
  {
    OrderedDefaults(rs);
  }

  lemma LinesComeBack(rs: seq<Release>, name: string, nl: string, rules: Rules)
    requires IsStoredReleases(rs, rules) && IsNewline(nl) && forall r | r in rs :: Faithful(r, name)
    ensures SplitLines(JoinLines(Lines(Ordered(rs), name), nl)) == Lines(Ordered(rs), name)
  {
    var sorted := Ordered(rs);
    OrderedSame(rs);
    var lines := Lines(sorted, name);
    forall line | line in lines
      ensures line != "" && OneLine(line)
    {
      var i :| 0 <= i < |lines| && lines[i] == line;
      assert sorted[i] in sorted;
      LineIsOne(sorted[i], name);
    }
    SplitLinesOfJoin(lines, nl);
  }

  lemma IdComesBack(id: string, name: string)
    requires IsId(id)
    ensures EntryId(id, name) == Ok(id)
  {
    assert id[0] in id && id[|id| - 1] in id;
    PlainIsNoSpace(id[0]);
    PlainIsNoSpace(id[|id| - 1]);
    FieldIsStable(id, 32, false);
    LowerOfId(id);
  }

  lemma {:induction false} LowerOfId(s: string)
    requires forall c | c in s :: IsIdChar(c)
    ensures Lower(s) == s
  {
    if s != "" {
      assert s[0] in s;
      LowerOfId(s[1..]);
    }
  }

  lemma MemberComesBack(m: string)
    requires IsField(m, 255) && IsMember(m)
    ensures Member(m) == Ok(m) <==> !("./" <= m)
  {
    if m == "" {
      assert Split(m, '/')[0] in Split(m, '/');
    } else {
      FieldIsStable(m, 255, true);
    }
  }

  lemma BootComesBack(e: Entry, nl: string, releases: seq<Release>)
    requires IsStoredBoot(e.boot)
    ensures CheckBoot(RawOf(ToForm(e, nl), e.id, releases)) == Ok(e.boot) <==> FaithfulBoot(e.boot)
  {
    FieldIsStable("", 512, false);
    match e.boot
    case Archive(url, k, i) =>
      FieldIsStable(url, 512, false);
      MemberComesBack(k);
      MemberComesBack(i);
    case Urls(kernel, initrd) =>
      FieldIsStable(kernel, 512, false);
      FieldIsStable(initrd, 512, false);
  }

  /** The templates do not care in which order the releases are listed. */
  lemma TemplatesComeBack(e: Entry, rules: Rules)
    requires DistinctIds(e.releases) && CheckTemplates(e, rules).Ok?
    ensures CheckTemplates(Normal(e), rules).Ok?
  {
    OrderedSame(e.releases);
    var n := Normal(e);
    forall r | r in n.releases
      ensures FilledIn(n, r, rules)
    {
      assert FilledIn(e, r, rules);
    }
  }

  lemma StrippedOneLine(line: string, part: string)
    requires OneLine(line) && |part| <= |line| && part == line[|line| - |part|..]
    ensures OneLine(Strip(part))
  {
    forall c | c in Strip(part)
      ensures !IsBreak(c)
    {
      InStrip(part, c);
      assert c in line;
    }
  }

  /** Nothing read from lines is lost between the form and the entry. */
  lemma {:induction false} ReadIsOneLine(lines: seq<string>)
    requires forall line | line in lines :: OneLine(line)
    ensures forall r | r in ReadLines(lines) :: OneLine(r.title) && Stripped(r.title)
  {
    if lines != [] {
      var line := lines[0];
      assert line in lines;
      StrippedOneLine(line, After(line, '|'));
      ReadIsOneLine(lines[1..]);
    }
  }

  lemma {:induction false} KeepKeepsTitle(item: Release, kept: seq<Release>)
    ensures Keep(item, kept).title == item.title
  {
    if kept != [] {
      KeepKeepsTitle(item, kept[..|kept| - 1]);
    }
  }

  lemma CheckedIsFaithful(item: Release, name: string, seen: set<string>, rules: Rules, r: Release)
    requires CheckRelease(item, name, seen, rules) == Ok(r)
    requires OneLine(item.title) && Stripped(item.title) && Stripped(name) && name != ""
    ensures Faithful(r, name)
  {
    AutoStripped(name, r.id);
  }

  predicate Clean(items: seq<Release>) {
    forall i | 0 <= i < |items| :: OneLine(items[i].title) && Stripped(items[i].title)
  }

  predicate AllFaithful(rs: seq<Release>, name: string) {
    forall i | 0 <= i < |rs| :: Faithful(rs[i], name)
  }

  lemma {:induction false} CheckedAreFaithful(
      items: seq<Release>, name: string, seen: set<string>, rules: Rules, rs: seq<Release>)
    requires CheckEach(items, name, seen, rules) == Ok(rs) && Stripped(name) && name != "" && Clean(items)
    ensures AllFaithful(rs, name)
  {
    if items != [] {
      CheckedIsFaithful(items[0], name, seen, rules, rs[0]);
      CheckedAreFaithful(items[1..], name, seen + {Lower(rs[0].id)}, rules, rs[1..]);
    }
  }

  lemma FormIsClean(text: string, kept: seq<Release>)
    ensures Clean(KeepAll(ReadLines(SplitLines(text)), kept))
  {
    var read := ReadLines(SplitLines(text));
    ReadIsOneLine(SplitLines(text));
    var items := KeepAll(read, kept);
    forall i | 0 <= i < |items|
      ensures OneLine(items[i].title) && Stripped(items[i].title)
    {
      assert read[i] in read;
      KeepKeepsTitle(read[i], kept);
    }
  }

  /** Releases that come out of the form can go through it again. */
  lemma FromFormIsFaithful(items: seq<Release>, name: string, rules: Rules, rs: seq<Release>)
    requires CheckReleases(items, name, rules) == Ok(rs) && Clean(items)
    requires Stripped(name) && name != ""
    ensures AllFaithful(rs, name)
  {
    var out := CheckEach(items, name, {}, rules).value;
    CheckedAreFaithful(items, name, {}, rules, out);
    assert |rs| == |out| && forall i | 0 <= i < |rs| :: rs[i].title == out[i].title && rs[i].id == out[i].id;
  }

  /**
   * Opening a stored entry in the form and saving it gives the same entry back, its
   * default release moved to the front: exactly when every release title is either
   * the automatic one or one non-blank line, and no member path starts with "./".
   */
  lemma EditGivesBack(e: Entry, rules: Rules, nl: string)
    requires IsStored(e, rules) && IsNewline(nl)
    ensures Edited(ToForm(e, nl), e, rules) == Ok(Normal(e)) <==> Survives(e)
  {
    var form := ToForm(e, nl);
    var releases := KeepAll(ReadLines(SplitLines(form.releases)), e.releases);
    var raw := RawOf(form, e.id, releases);
    ValidateIff(raw, Normal(e), rules);
    BootComesBack(e, nl, releases);
    if Survives(e) {
      SurvivorPasses(e, rules, nl);
    } else if Passes(raw, Normal(e), rules) {
      FormIsClean(form.releases, e.releases);
      FromFormIsFaithful(releases, e.name, rules, Ordered(e.releases));
      AllOrNone(e);
    }
  }

  lemma AllOrNone(e: Entry)
    requires DistinctIds(e.releases) && AllFaithful(Ordered(e.releases), e.name)
    ensures forall r | r in e.releases :: Faithful(r, e.name)
  {
    OrderedSame(e.releases);
    forall r | r in e.releases
      ensures Faithful(r, e.name)
    {
      assert r in Ordered(e.releases);
    }
  }

  lemma SurvivorPasses(e: Entry, rules: Rules, nl: string)
    requires IsStored(e, rules) && IsNewline(nl) && Survives(e)
    ensures var releases := KeepAll(ReadLines(SplitLines(ToForm(e, nl).releases)), e.releases);
            Passes(RawOf(ToForm(e, nl), e.id, releases), Normal(e), rules)
  {
    var form := ToForm(e, nl);
    var releases := KeepAll(ReadLines(SplitLines(form.releases)), e.releases);
    BootComesBack(e, nl, releases);
    FieldIsStable(e.name, 64, true);
    IdComesBack(e.id, e.name);
    MirrorIsStable(e.mirror);
    FieldIsStable(e.bootArgs, 1024, false);
    LinesComeBack(e.releases, e.name, nl, rules);
    ReleasesComeBack(e.releases, e.name, rules);
    TemplatesComeBack(e, rules);
  }

  // --- Entries that do not survive -----------------------------------------

  predicate Lenient(rules: Rules) {
    && rules.argsTemplate("") && rules.urlTemplate("u")
    && rules.givesUrl("u", "http://h", "1") && rules.argsFit("", "http://h", "1")
  }

  function Sample(title: string, boot: BootSource): Entry {
    Entry("x", "x", "http://h", boot, "", [Release("1", title, "", "", true, false)])
  }

  lemma LetterIsField(s: string, limit: nat)
    requires |s| == 1 && 'a' <= s[0] <= 'z' && limit >= 1
    ensures IsField(s, limit)
  {
    PlainIsNoSpace(s[0]);
  }

  lemma SampleScheme(m: string)
    requires m == "http://h"
    ensures HasScheme(m, 4)
  {
    assert m[..4] == "http" && m[4..7] == "://" && m[7..] == "h";
    LowerHttp(m[..4]);
  }

  lemma LowerHttp(s: string)
    requires s == "http"
    ensures Lower(s) == s
  {
    LowerOfId(s);
  }

  lemma SampleMirror(m: string)
    requires m == "http://h"
    ensures IsMirror(m)
  {
    PlainIsNoSpace(m[0]);
    PlainIsNoSpace(m[7]);
    SampleScheme(m);
  }

  lemma SampleReleases(r: Release, rules: Rules)
    requires r.id == "1" && r.number == "" && r.eol == "" && r.isDefault && IsField(r.title, MAX_TITLE)
    ensures IsStoredReleases([r], rules)
  {
    Lists.CountOne([r], IsDefault, 0);
  }

  lemma SampleTemplates(e: Entry, rules: Rules)
    requires Lenient(rules) && e.mirror == "http://h" && e.bootArgs == ""
    requires |e.releases| == 1 && e.releases[0].id == "1"
    requires Templates(e.boot) == ["u"] || Templates(e.boot) == ["u", "u"]
    ensures CheckTemplates(e, rules).Ok?
  {
    forall r | r in e.releases
      ensures FilledIn(e, r, rules)
    {
    }
  }

  lemma SampleIsStored(title: string, boot: BootSource, rules: Rules)
    requires Lenient(rules) && IsField(title, MAX_TITLE) && IsStoredBoot(boot)
    requires Templates(boot) == ["u"] || Templates(boot) == ["u", "u"]
    ensures IsStored(Sample(title, boot), rules)
  {
    var e := Sample(title, boot);
    LetterIsField(e.name, 64);
    SampleMirror(e.mirror);
    SampleReleases(e.releases[0], rules);
    SampleTemplates(e, rules);
  }

  /** A blank title, a title with a Unicode line break, a member "./k": each is lost in the form. */
  lemma EditCanLose(rules: Rules, nl: string)
    requires Lenient(rules) && IsNewline(nl)
    ensures var e := Sample("", Urls("u", "u"));
            IsStored(e, rules) && Edited(ToForm(e, nl), e, rules) != Ok(Normal(e))
    ensures var e := Sample("a\U{2028}b", Urls("u", "u"));
            IsStored(e, rules) && Edited(ToForm(e, nl), e, rules) != Ok(Normal(e))
    ensures var e := Sample("a", Archive("u", "./k", "i"));
            IsStored(e, rules) && Edited(ToForm(e, nl), e, rules) != Ok(Normal(e))
  {
    BlankIsLost(rules, nl);
    BreakIsLost(rules, nl);
    DotSlashIsLost(rules, nl);
  }

  lemma BlankIsLost(rules: Rules, nl: string)
    requires Lenient(rules) && IsNewline(nl)
    ensures var e := Sample("", Urls("u", "u"));
            IsStored(e, rules) && Edited(ToForm(e, nl), e, rules) != Ok(Normal(e))
  {
    var e := Sample("", Urls("u", "u"));
    LetterIsField("u", 512);
    SampleIsStored("", e.boot, rules);
    assert e.releases[0] in e.releases && !Faithful(e.releases[0], "x");
    EditGivesBack(e, rules, nl);
  }

  lemma BrokenTitle(title: string, r: Release, name: string)
    requires title == "a\U{2028}b" && r.title == title && r.id == "1" && name == "x"
    ensures IsField(title, MAX_TITLE) && !Faithful(r, name)
  {
    PlainIsNoSpace(title[0]);
    PlainIsNoSpace(title[2]);
    assert title[1] in title && IsBreak(title[1]);
    assert Auto(name, r.id)[0] == 'x';
  }

  lemma BreakIsLost(rules: Rules, nl: string)
    requires Lenient(rules) && IsNewline(nl)
    ensures var e := Sample("a\U{2028}b", Urls("u", "u"));
            IsStored(e, rules) && Edited(ToForm(e, nl), e, rules) != Ok(Normal(e))
  {
    var title := "a\U{2028}b";
    var e := Sample(title, Urls("u", "u"));
    LetterIsField("u", 512);
    BrokenTitle(title, e.releases[0], e.name);
    SampleIsStored(title, e.boot, rules);
    assert e.releases[0] in e.releases;
    EditGivesBack(e, rules, nl);
  }

  lemma DotSlashIsLost(rules: Rules, nl: string)
    requires Lenient(rules) && IsNewline(nl)
    ensures var e := Sample("a", Archive("u", "./k", "i"));
            IsStored(e, rules) && Edited(ToForm(e, nl), e, rules) != Ok(Normal(e))
  {
    var boot := Archive("u", "./k", "i");
    LetterIsField("a", MAX_TITLE);
    DotSlashBoot(boot);
    SampleIsStored("a", boot, rules);
    EditGivesBack(Sample("a", boot), rules, nl);
  }

  lemma DotSlashBoot(boot: BootSource)
    requires boot == Archive("u", "./k", "i")
    ensures IsStoredBoot(boot) && !FaithfulBoot(boot)
  {
    LetterIsField(boot.url, 512);
    LetterIsField(boot.initrdMember, 255);
    SplitNoSeparator(boot.initrdMember, '/');
    DotSlashMember(boot.kernelMember);
  }

  lemma DotSlashMember(m: string)
    requires m == "./k"
    ensures IsField(m, 255) && IsMember(m)
  {
    PlainIsNoSpace(m[0]);
    PlainIsNoSpace(m[2]);
    var dot, k := m[..1], m[2..];
    assert m == dot + ['/'] + k;
    SplitFirst(dot, '/', k);
    SplitNoSeparator(k, '/');
  }
}
