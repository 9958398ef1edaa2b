/** The string operations the modelled code relies on, over `seq<char>`. */
module Text {

  function LowerChar(c: char): char {
    if 'A' <= c <= 'Z' then c - 'A' + 'a' else c
  }

  /** `str.lower`, on the ASCII letters. */
  function Lower(s: string): (r: string)
    ensures |r| == |s|
  {
    if s == "" then "" else [LowerChar(s[0])] + Lower(s[1..])
  }

  lemma {:induction false} LowerAt(s: string, i: nat)
    requires i < |s|
    ensures Lower(s)[i] == LowerChar(s[i])
  {
    if i > 0 {
      LowerAt(s[1..], i - 1);
    }
  }

  /** `sub in s`. */
  predicate Contains(s: string, sub: string) {
    sub <= s || (s != "" && Contains(s[1..], sub))
  }

  /** `s.split(sep)`. */
  function Split(s: string, sep: char): (parts: seq<string>)
    ensures |parts| > 0
    ensures forall part | part in parts :: sep !in part
  {
    if s == "" then [""]
    else
      var rest := Split(s[1..], sep);
      if s[0] == sep then [""] + rest else [[s[0]] + rest[0]] + rest[1..]
  }

  /** The components pathlib keeps: empty ones and "." are dropped. */
  function Components(s: string): (parts: seq<string>)
    ensures forall part | part in parts :: part != "" && part != "." && '/' !in part
  {
    KeepNamed(Split(s, '/'))
  }

  function KeepNamed(parts: seq<string>): (kept: seq<string>)
    ensures forall part | part in kept :: part in parts && part != "" && part != "."
  {
    if parts == [] then []
    else if parts[0] == "" || parts[0] == "." then KeepNamed(parts[1..])
    else [parts[0]] + KeepNamed(parts[1..])
  }

  lemma {:induction false} SplitNoSeparator(s: string, sep: char)
    requires sep !in s
    ensures Split(s, sep) == [s]
  {
    if s != "" {
      SplitNoSeparator(s[1..], sep);
      assert [s[0]] + s[1..] == s;
    }
  }

  // --- Joining -------------------------------------------------------------

  /** `sep.join(parts)`. */
  function Join(parts: seq<string>, sep: char): string {
    if parts == [] then ""
    else if |parts| == 1 then parts[0]
    else parts[0] + [sep] + Join(parts[1..], sep)
  }

  lemma {:induction false} SplitFirst(first: string, sep: char, rest: string)
    requires sep !in first
    ensures Split(first + [sep] + rest, sep) == [first] + Split(rest, sep)
  {
    var s := first + [sep] + rest;
    if first == "" {
      assert s[1..] == rest;
    } else {
      assert s[1..] == first[1..] + [sep] + rest;
      SplitFirst(first[1..], sep, rest);
      assert [first[0]] + first[1..] == first;
    }
  }

  lemma {:induction false} SplitOfJoin(parts: seq<string>, sep: char)
    requires parts != [] && forall part | part in parts :: sep !in part
    ensures Split(Join(parts, sep), sep) == parts
  {
    if |parts| == 1 {
      SplitNoSeparator(parts[0], sep);
    } else {
      SplitFirst(parts[0], sep, Join(parts[1..], sep));
      SplitOfJoin(parts[1..], sep);
    }
  }

  // --- White space ---------------------------------------------------------

  predicate InRanges(c: char, ranges: seq<(char, char)>) {
    ranges != [] && (ranges[0].0 <= c <= ranges[0].1 || InRanges(c, ranges[1..]))
  }

  const SPACES: seq<(char, char)> :=
    [('\U{1C}', ' '), ('\t', '\r'), ('\U{85}', '\U{85}'), ('\U{A0}', '\U{A0}'), ('\U{1680}', '\U{1680}'),
     ('\U{2000}', '\U{200A}'), ('\U{2028}', '\U{2029}'), ('\U{202F}', '\U{202F}'), ('\U{205F}', '\U{205F}'),
     ('\U{3000}', '\U{3000}')]

  /** What `str.strip` takes off. */
  predicate IsSpace(c: char) {
    InRanges(c, SPACES)
  }

  lemma {:induction false} OutOfRanges(c: char, ranges: seq<(char, char)>)
    requires forall i | 0 <= i < |ranges| :: c < ranges[i].0 || ranges[i].1 < c
    ensures !InRanges(c, ranges)
  {
    if ranges != [] {
      OutOfRanges(c, ranges[1..]);
    }
  }

  /** Printed ASCII characters are no white space. */
  lemma PlainIsNoSpace(c: char)
    requires '!' <= c <= '~'
    ensures !IsSpace(c)
  {
    OutOfRanges(c, SPACES);
  }

  /** No white space at either end. */
  predicate Stripped(s: string) {
    s != "" ==> !IsSpace(s[0]) && !IsSpace(s[|s| - 1])
  }

  function StripLeft(s: string): (r: string)
    ensures |r| <= |s| && (r != "" ==> !IsSpace(r[0]))
  {
    if s != "" && IsSpace(s[0]) then StripLeft(s[1..]) else s
  }

  function StripRight(s: string): (r: string)
    ensures r <= s && (r != "" ==> !IsSpace(r[|r| - 1]))
  {
    if s != "" && IsSpace(s[|s| - 1]) then StripRight(s[..|s| - 1]) else s
  }

  /** `s.strip()`. */
  function Strip(s: string): (r: string)
    ensures Stripped(r) && |r| <= |s|
  {
    StripRight(StripLeft(s))
  }

  lemma StripOfStripped(s: string)
    requires Stripped(s)
    ensures Strip(s) == s
  {
  }

  lemma {:induction false} InStripLeft(s: string, c: char)
    requires c in StripLeft(s)
    ensures c in s
  {
    if s != "" && IsSpace(s[0]) {
      InStripLeft(s[1..], c);
    }
  }

  lemma InStrip(s: string, c: char)
    requires c in Strip(s)
    ensures c in s
  {
    var left := StripLeft(s);
    assert c in left;
    InStripLeft(s, c);
  }

  lemma {:induction false} StripLeftPadded(pad: string, s: string)
    requires (forall c | c in pad :: IsSpace(c)) && (s != "" ==> !IsSpace(s[0]))
    ensures StripLeft(pad + s) == s
  {
    if pad != "" {
      assert (pad + s)[1..] == pad[1..] + s;
      StripLeftPadded(pad[1..], s);
    } else {
      assert pad + s == s;
    }
  }

  lemma {:induction false} StripRightPadded(s: string, pad: string)
    requires (forall c | c in pad :: IsSpace(c)) && (s != "" ==> !IsSpace(s[|s| - 1]))
    ensures StripRight(s + pad) == s
  {
    if pad != "" {
      assert (s + pad)[..|s + pad| - 1] == s + pad[..|pad| - 1];
      StripRightPadded(s, pad[..|pad| - 1]);
    } else {
      assert s + pad == s;
    }
  }

  lemma StripPadded(left: string, s: string, right: string)
    requires Stripped(s) && s != "" && forall c | c in left || c in right :: IsSpace(c)
    ensures Strip(left + s + right) == s
  {
    assert left + s + right == left + (s + right);
    StripLeftPadded(left, s + right);
    StripRightPadded(s, right);
  }

  // --- Lines ---------------------------------------------------------------

  /** Where `str.splitlines` breaks a line. */
  predicate IsBreak(c: char) {
    '\n' <= c <= '\r' || '\U{1C}' <= c <= '\U{1E}' || c == '\U{85}' || c == '\U{2028}' || c == '\U{2029}'
  }

  predicate OneLine(s: string) {
    forall c | c in s :: !IsBreak(c)
  }

  /** `s.splitlines()`; a carriage return and a line feed are one break. */
  function SplitLines(s: string): (lines: seq<string>)
    ensures forall line | line in lines :: OneLine(line)
    ensures s != "" ==> lines != []
  {
    if s == "" then []
    else if IsBreak(s[0]) then [""] + SplitLines(if "\r\n" <= s then s[2..] else s[1..])
    else if |s| == 1 then [s]
    else
      var rest := SplitLines(s[1..]);
      assert OneLine(rest[0]);
      [[s[0]] + rest[0]] + rest[1..]
  }

  predicate IsNewline(nl: string) {
    nl == "\n" || nl == "\r\n"
  }

  lemma {:induction false} SplitLinesFirst(line: string, nl: string, rest: string)
    requires OneLine(line) && IsNewline(nl)
    ensures SplitLines(line + nl + rest) == [line] + SplitLines(rest)
  {
    var s := line + nl + rest;
    if line == "" {
      assert s[|nl|..] == rest;
    } else {
      assert s[1..] == line[1..] + nl + rest;
      assert forall c | c in line[1..] :: c in line;
      SplitLinesFirst(line[1..], nl, rest);
      assert [line[0]] + line[1..] == line;
    }
  }

  lemma {:induction false} SplitLinesOne(line: string)
    requires OneLine(line) && line != ""
    ensures SplitLines(line) == [line]
  {
    if |line| > 1 {
      assert forall c | c in line[1..] :: c in line;
      SplitLinesOne(line[1..]);
      assert [line[0]] + line[1..] == line;
    }
  }

  function JoinLines(lines: seq<string>, nl: string): string {
    if lines == [] then ""
    else if |lines| == 1 then lines[0]
    else lines[0] + nl + JoinLines(lines[1..], nl)
  }

  lemma {:induction false} SplitLinesOfJoin(lines: seq<string>, nl: string)
    requires IsNewline(nl) && forall line | line in lines :: line != "" && OneLine(line)
    ensures SplitLines(JoinLines(lines, nl)) == lines
  {
    if |lines| == 1 {
      SplitLinesOne(lines[0]);
    } else if lines != [] {
      assert lines[0] in lines;
      SplitLinesFirst(lines[0], nl, JoinLines(lines[1..], nl));
      assert forall line | line in lines[1..] :: line in lines;
      SplitLinesOfJoin(lines[1..], nl);
    }
  }

  // --- Partitioning --------------------------------------------------------

  /** `s.partition(sep)[0]`. */
  function Before(s: string, sep: char): (r: string)
    ensures r <= s && sep !in r
  {
    if s == "" || s[0] == sep then "" else [s[0]] + Before(s[1..], sep)
  }

  /** `s.partition(sep)[2]`. */
  function After(s: string, sep: char): (r: string)
    ensures |r| <= |s| && r == s[|s| - |r|..]
  {
    if s == "" then "" else if s[0] == sep then s[1..] else After(s[1..], sep)
  }

  lemma {:induction false} PartitionAt(first: string, sep: char, rest: string)
    requires sep !in first
    ensures Before(first + [sep] + rest, sep) == first && After(first + [sep] + rest, sep) == rest
  {
    var s := first + [sep] + rest;
    if first != "" {
      assert s[1..] == first[1..] + [sep] + rest;
      PartitionAt(first[1..], sep, rest);
    }
  }

  lemma {:induction false} PartitionNone(s: string, sep: char)
    requires sep !in s
    ensures Before(s, sep) == s && After(s, sep) == ""
  {
    if s != "" {
      PartitionNone(s[1..], sep);
    }
  }

  // --- Slashes -------------------------------------------------------------

  /** `s.rstrip("/")`. */
  function StripSlashes(s: string): (r: string)
    ensures r <= s && (r != "" ==> r[|r| - 1] != '/')
    ensures s != "" && s[|s| - 1] != '/' ==> r == s
  {
    if s != "" && s[|s| - 1] == '/' then StripSlashes(s[..|s| - 1]) else s
  }
}
