/** Lists, whatever they hold. */
module Lists {

  /** `s[:n]`. */
  function Take<T>(s: seq<T>, n: nat): (r: seq<T>)
    ensures r <= s && |r| <= n && (|s| <= n ==> r == s)
  {
    if |s| <= n then s else s[..n]
  }

  /** How many have this property. */
  function CountOf<T>(s: seq<T>, p: T -> bool): nat {
    if s == [] then 0 else (if p(s[0]) then 1 else 0) + CountOf(s[1..], p)
  }

  lemma {:induction false} CountNone<T>(s: seq<T>, p: T -> bool)
    requires forall i | 0 <= i < |s| :: !p(s[i])
    ensures CountOf(s, p) == 0
  {
    if s != [] {
      CountNone(s[1..], p);
    }
  }

  lemma {:induction false} CountAppend<T>(a: seq<T>, b: seq<T>, p: T -> bool)
    ensures CountOf(a + b, p) == CountOf(a, p) + CountOf(b, p)
  {
    if a != [] {
      assert (a + b)[1..] == a[1..] + b;
      CountAppend(a[1..], b, p);
    } else {
      assert a + b == b;
    }
  }

  /** Only the one at `k` has the property. */
  lemma {:induction false} CountOne<T>(s: seq<T>, p: T -> bool, k: nat)
    requires k < |s| && forall i | 0 <= i < |s| :: p(s[i]) <==> i == k
    ensures CountOf(s, p) == 1
  {
    if k > 0 {
      CountOne(s[1..], p, k - 1);
    } else {
      CountNone(s[1..], p);
    }
  }
}
