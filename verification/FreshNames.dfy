/** Names nothing else has: for an uploaded ISO, and for a new catalog entry. */
module FreshNames {
  import opened Text
  import opened Decimal
  import CustomEntry

  // --- ISO files -----------------------------------------------------------

  /** Where the extension's dot is, or none. */
  function LastDot(name: string): (i: int)
    ensures -1 <= i < |name|
    ensures i >= 0 ==> name[i] == '.'
  {
    if name == "" then -1
    else if name[|name| - 1] == '.' then |name| - 1
    else LastDot(name[..|name| - 1])
  }

  function Stem(name: string): string {
    if LastDot(name) < 0 then "" else name[..LastDot(name)]
  }

  /** The dot and what follows it; the whole name when there is none. */
  function Ending(name: string): string {
    if LastDot(name) < 0 then name else name[LastDot(name)..]
  }

  /** `rpartition(".")`: the name is cut at its last dot. */
  lemma CutAtLastDot(name: string)
    requires '.' in name
    ensures name == Stem(name) + Ending(name)
    ensures Ending(name) != "" && Ending(name)[0] == '.' && '.' !in Ending(name)[1..]
  {
    AfterLastDot(name);
    CutAt(name, LastDot(name));
  }

  lemma CutAt(s: string, i: nat)
    requires i < |s|
    ensures s == s[..i] + s[i..] && s[i..][1..] == s[i + 1..] && s[i..][0] == s[i]
  {
  }

  /** What has no dot is all ending. */
  lemma NoDotNoStem(name: string)
    requires '.' !in name
    ensures Stem(name) == "" && Ending(name) == name
  {
    AfterLastDot(name);
  }

  lemma {:induction false} AfterLastDot(name: string)
    ensures forall k | LastDot(name) < k < |name| :: name[k] != '.'
  {
    if name != "" && name[|name| - 1] != '.' {
      AfterLastDot(name[..|name| - 1]);
      assert forall k | 0 <= k < |name| - 1 :: name[..|name| - 1][k] == name[k];
    }
  }

  /** The n-th name that is tried. */
  function IsoCandidate(name: string, n: nat): string {
    if n <= 1 then name else Stem(name) + ("-" + Digits(n)) + Ending(name)
  }

  lemma IsoCandidatesDiffer(name: string, m: nat, n: nat)
    requires 1 <= m < n
    ensures IsoCandidate(name, m) != IsoCandidate(name, n)
  {
    var stem, ending := Stem(name), Ending(name);
    assert name == stem + ending;
    if m == 1 {
      assert |IsoCandidate(name, n)| > |name|;
    } else if IsoCandidate(name, m) == IsoCandidate(name, n) {
      var a, b := Digits(m), Digits(n);
      SameMiddle(stem, "-" + a, "-" + b, ending);
      assert a == ("-" + a)[1..] && b == ("-" + b)[1..];
      DigitsInjective(m, n);
    }
  }

  lemma SameMiddle(front: string, a: string, b: string, back: string)
    requires front + a + back == front + b + back
    ensures a == b
  {
    assert |a| == |b|;
    assert a == (front + a + back)[|front|..|front| + |a|];
    assert b == (front + b + back)[|front|..|front| + |b|];
  }

  /** The first tries, all taken and all different. */
  ghost predicate TriedNames(tried: set<string>, name: string, n: nat, taken: set<string>) {
    && tried <= taken && |tried| == n - 1 <= |taken|
    && (forall c | c in tried :: exists k | 1 <= k < n :: IsoCandidate(name, k) == c)
    && (forall k | 1 <= k < n :: IsoCandidate(name, k) in taken)
  }

  lemma NotTried(tried: set<string>, name: string, n: nat, taken: set<string>)
    requires n >= 1 && TriedNames(tried, name, n, taken)
    ensures IsoCandidate(name, n) !in tried
  {
    if IsoCandidate(name, n) in tried {
      var k :| 1 <= k < n && IsoCandidate(name, k) == IsoCandidate(name, n);
      IsoCandidatesDiffer(name, k, n);
    }
  }

  lemma OneMoreTried(tried: set<string>, name: string, n: nat, taken: set<string>, c: string)
    requires n >= 1 && TriedNames(tried, name, n, taken) && c == IsoCandidate(name, n) && c in taken
    ensures TriedNames(tried + {c}, name, n + 1, taken)
  {
    NotTried(tried, name, n, taken);
    Fits(tried + {c}, taken);
  }

  /** A name that is not taken: the first one free, after at most one try more than names are taken. */
  method UnusedFilename(filename: string, taken: set<string>) returns (candidate: string, n: nat)
    ensures candidate !in taken && candidate == IsoCandidate(filename, n)
    ensures 1 <= n <= |taken| + 1 && forall k | 1 <= k < n :: IsoCandidate(filename, k) in taken
  {
    candidate, n := filename, 1;
    ghost var tried: set<string> := {};
    while candidate in taken
      invariant 1 <= n && candidate == IsoCandidate(filename, n)
      invariant TriedNames(tried, filename, n, taken)
      decreases |taken| + 1 - n
    {
      OneMoreTried(tried, filename, n, taken, candidate);
      tried := tried + {candidate};
      n := n + 1;
      candidate := Stem(filename) + ("-" + Digits(n)) + Ending(filename);
    }
  }

  lemma {:induction false} Fits(some: set<string>, all: set<string>)
    requires some <= all
    ensures |some| <= |all|
  {
    if some != {} {
      var c :| c in some;
      Fits(some - {c}, all - {c});
    }
  }

  // --- Catalog entries -----------------------------------------------------

  const ID_LIMIT: int := 32

  /** `s[:n]`, which counts from the end when n is negative. */
  function Slice(s: string, n: int): (r: string)
    ensures r <= s && (n >= 0 ==> |r| <= n) && (0 <= n <= |s| ==> |r| == n) && (n >= |s| ==> r == s)
  {
    if n >= |s| then s
    else if n >= 0 then s[..n]
    else if |s| + n >= 0 then s[..|s| + n]
    else ""
  }

  function Suffix(n: nat): string {
    "-" + Digits(n)
  }

  /** The n-th ID that is tried, cut to the length an ID may have. */
  function IdCandidate(base: string, n: nat): string {
    if n <= 1 then base else Slice(base, ID_LIMIT - |Suffix(n)|) + Suffix(n)
  }

  lemma IdCandidatesDiffer(base: string, m: nat, n: nat)
    requires 2 <= m < n
    ensures IdCandidate(base, m) != IdCandidate(base, n)
  {
    NumberAtEnd(Slice(base, ID_LIMIT - |Suffix(m)|), m);
    NumberAtEnd(Slice(base, ID_LIMIT - |Suffix(n)|), n);
    if Digits(m) == Digits(n) {
      DigitsInjective(m, n);
    }
  }

  lemma NumberAtEnd(front: string, n: nat)
    ensures TrailingDigits(front + Suffix(n)) == Digits(n)
  {
    var rest := front + "-";
    assert front + Suffix(n) == rest + Digits(n);
    TrailingDigitsOf(rest, Digits(n));
  }

  /** A try comes out as the base itself exactly when the base has full length and ends like it. */
  lemma RepeatsIff(base: string, n: nat)
    requires n >= 2 && |base| <= ID_LIMIT && |Suffix(n)| <= ID_LIMIT
    ensures IdCandidate(base, n) == base
       <==> |base| == ID_LIMIT && base[|base| - |Suffix(n)|..] == Suffix(n)
  {
    var keep := ID_LIMIT - |Suffix(n)|;
    var c := IdCandidate(base, n);
    if |base| == ID_LIMIT {
      assert base == base[..keep] + base[keep..];
      assert c[keep..] == Suffix(n);
    }
  }

  /** The tries from the second on were all taken, and all different. */
  ghost predicate Tried(tried: set<string>, base: string, n: nat, taken: set<string>) {
    && tried <= taken && |tried| == (if n <= 1 then 0 else n - 2) <= |taken|
    && (forall c | c in tried :: exists k | 2 <= k < n :: IdCandidate(base, k) == c)
    && (forall k | 1 <= k < n :: IdCandidate(base, k) in taken)
  }

  lemma NotTriedId(tried: set<string>, base: string, n: nat, taken: set<string>)
    requires n >= 2 && Tried(tried, base, n, taken)
    ensures IdCandidate(base, n) !in tried
  {
    if IdCandidate(base, n) in tried {
      var k :| 2 <= k < n && IdCandidate(base, k) == IdCandidate(base, n);
      IdCandidatesDiffer(base, k, n);
    }
  }

  /** The ids tried after one more; the base itself is not counted. */
  function MoreTried(tried: set<string>, n: nat, c: string): set<string> {
    if n == 1 then tried else tried + {c}
  }

  lemma TriedMore(tried: set<string>, base: string, n: nat, taken: set<string>, c: string)
    requires n >= 1 && Tried(tried, base, n, taken) && c == IdCandidate(base, n) && c in taken
    ensures Tried(MoreTried(tried, n, c), base, n + 1, taken)
  {
    if n >= 2 {
      NotTriedId(tried, base, n, taken);
      Fits(tried + {c}, taken);
    }
  }

  /** With as many tries as there are IDs, the base was among the later ones. */
  lemma AllTried(tried: set<string>, base: string, n: nat, taken: set<string>)
    requires n == |taken| + 2 && Tried(tried, base, n, taken)
    ensures exists k | 2 <= k < n :: IdCandidate(base, k) == base
  {
    EveryTakenTried(tried, taken);
    assert IdCandidate(base, 1) in taken;
  }

  method NextId(base: string, n: nat) returns (candidate: string)
    requires n >= 2
    ensures candidate == IdCandidate(base, n)
  {
    var suffix := Suffix(n);
    candidate := Slice(base, ID_LIMIT - |suffix|) + suffix;
  }

  /** An ID no built-in or custom entry has, after at most two tries more than IDs are taken. */
  method FreeEntryId(base: string, taken: set<string>) returns (candidate: string, n: nat)
    ensures candidate !in taken && candidate == IdCandidate(base, n)
    ensures 1 <= n <= |taken| + 2 && forall k | 1 <= k < n :: IdCandidate(base, k) in taken
    ensures n == |taken| + 2 ==> exists k | 2 <= k < n :: IdCandidate(base, k) == base
  {
    candidate, n := base, 1;
    ghost var tried: set<string> := {};
    while candidate in taken
      invariant 1 <= n && candidate == IdCandidate(base, n)
      invariant Tried(tried, base, n, taken)
      decreases |taken| + 2 - n
    {
      TriedMore(tried, base, n, taken, candidate);
      tried := MoreTried(tried, n, candidate);
      n := n + 1;
      candidate := NextId(base, n);
    }
    if n == |taken| + 2 {
      AllTried(tried, base, n, taken);
    }
  }

  lemma EveryTakenTried(tried: set<string>, taken: set<string>)
    requires tried <= taken && |tried| == |taken|
    ensures tried == taken
  {
    if c :| c in taken && c !in tried {
      Fits(tried, taken - {c});
    }
  }

  /** With a base of full length that ends in "-2", the second try is the first one again. */
  lemma TwoTriesMore(base: string)
    requires |base| == ID_LIMIT && base[30..] == "-2"
    ensures IdCandidate(base, 1) == base && IdCandidate(base, 2) == base
    ensures IdCandidate(base, 3) != base
  {
    assert Digits(2) == "2";
    assert Digits(3) == "3";
    assert IdCandidate(base, 2) == base[..30] + "-2";
    assert IdCandidate(base, 3)[31] == '3';
    assert base[31] == base[30..][1];
  }

  // --- Length --------------------------------------------------------------

  function Pow10(k: nat): (p: nat)
    ensures p >= 1
  {
    if k == 0 then 1 else 10 * Pow10(k - 1)
  }

  lemma {:induction false} DigitsAreFew(n: nat, k: nat)
    requires n < Pow10(k) && k >= 1
    ensures |Digits(n)| <= k
  {
    if n >= 10 {
      DigitsAreFew(n / 10, k - 1);
    }
  }

  /** A candidate made from an ID is an ID, as long as its number has at most 30 digits. */
  lemma CandidateIsId(base: string, n: nat)
    requires CustomEntry.IsId(base) && n < Pow10(30)
    ensures CustomEntry.IsId(IdCandidate(base, n))
  {
    if n >= 2 {
      DigitsAreFew(n, 30);
      var front, suffix := Slice(base, ID_LIMIT - |Suffix(n)|), Suffix(n);
      assert |front| > 0 && front[0] == base[0];
      forall c | c in front + suffix
        ensures CustomEntry.IsIdChar(c)
      {
        if c in front {
          assert c in base;
        } else {
          assert c in suffix;
          assert c == '-' || c in Digits(n);
        }
      }
    }
  }
}
