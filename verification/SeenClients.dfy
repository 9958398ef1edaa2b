/**
 * The capped table of clients that loaded the boot menu. The endpoint is open to
 * anyone, so past the cap the least recently seen client makes room; the table
 * is then an exact least-recently-used cache over everything ever recorded.
 */
module SeenClients {
  /** One recorded menu load. */
  datatype Seen = Seen(mac: string, ip: string, at: int)

  datatype Row = Row(ip: string, lastSeen: int)

  const IP_LIMIT: nat := 64

  function Clip(ip: string): (r: string)
    ensures r <= ip && |r| <= 64 && (|r| < 64 ==> r == ip)
  {
    if |ip| <= IP_LIMIT then ip else ip[..IP_LIMIT]
  }

  predicate IsHex(c: char) {
    '0' <= c <= '9' || 'a' <= c <= 'f'
  }

  /** Six pairs of hex digits with colons between them. */
  predicate IsMac(mac: string) {
    |mac| == 17 && forall i | 0 <= i < 17 :: if i % 3 == 2 then mac[i] == ':' else IsHex(mac[i])
  }

  /** The shape of an address, written out: where its colons are, and what its digits are. */
  lemma MacShape(mac: string)
    requires |mac| == 17
    ensures IsMac(mac) <==>
            && mac[2] == mac[5] == mac[8] == mac[11] == mac[14] == ':'
            && forall i | i in {0, 1, 3, 4, 6, 7, 9, 10, 12, 13, 15, 16} :: mac[i] in "0123456789abcdef"
  {
    forall i | 0 <= i < 17
      ensures IsHex(mac[i]) <==> mac[i] in "0123456789abcdef"
    {
      HexDigits(mac[i]);
    }
  }

  lemma HexDigits(c: char)
    ensures IsHex(c) <==> c in "0123456789abcdef"
  {
    var all := "0123456789abcdef";
    assert all[0] == '0' && all[1] == '1' && all[2] == '2' && all[3] == '3' && all[4] == '4' && all[5] == '5';
    assert all[6] == '6' && all[7] == '7' && all[8] == '8' && all[9] == '9' && all[10] == 'a' && all[11] == 'b';
    assert all[12] == 'c' && all[13] == 'd' && all[14] == 'e' && all[15] == 'f';
  }

  // --- What should be in the table -----------------------------------------

  function Without(macs: seq<string>, mac: string): (r: seq<string>)
    ensures forall m :: m in r <==> m in macs && m != mac
    ensures |r| <= |macs| && (mac !in macs ==> r == macs)
  {
    if macs == [] then []
    else if macs[0] == mac then Without(macs[1..], mac)
    else [macs[0]] + Without(macs[1..], mac)
  }

  predicate Recorded(h: seq<Seen>, mac: string) {
    exists i | 0 <= i < |h| :: h[i].mac == mac
  }

  lemma RecordedFront(h: seq<Seen>, mac: string)
    requires h != []
    ensures Recorded(h, mac) <==> h[|h| - 1].mac == mac || Recorded(h[..|h| - 1], mac)
  {
    var front := h[..|h| - 1];
    assert forall i | 0 <= i < |front| :: front[i] == h[i];
    if Recorded(front, mac) {
      var i :| 0 <= i < |front| && front[i].mac == mac;
      assert h[i].mac == mac;
    }
  }

  /** The clients of a history, most recently seen first, each once. */
  function Recency(h: seq<Seen>): (r: seq<string>)
  {
    if h == [] then []
    else [h[|h| - 1].mac] + Without(Recency(h[..|h| - 1]), h[|h| - 1].mac)
  }

  lemma {:induction false} InRecency(h: seq<Seen>, mac: string)
    ensures mac in Recency(h) <==> Recorded(h, mac)
  {
    if h != [] {
      InRecency(h[..|h| - 1], mac);
      RecordedFront(h, mac);
    }
  }

  /** The last record of a client. */
  function Latest(h: seq<Seen>, mac: string): (s: Seen)
    requires Recorded(h, mac)
    ensures s in h && s.mac == mac
  {
    RecordedFront(h, mac);
    if h[|h| - 1].mac == mac then h[|h| - 1] else Latest(h[..|h| - 1], mac)
  }

  predicate Increasing(h: seq<Seen>) {
    forall i, j | 0 <= i < j < |h| :: h[i].at < h[j].at
  }

  function Min(a: nat, b: nat): nat {
    if a <= b then a else b
  }

  /** The first `cap` clients in order of recency. */
  function Kept(h: seq<Seen>, cap: nat): (kept: seq<string>)
    ensures |kept| <= cap && forall m | m in kept :: Recorded(h, m)
  {
    var r := Recency(h);
    var kept := r[..Min(cap, |r|)];
    assert forall m | m in kept :: Recorded(h, m) by {
      forall m | m in kept
        ensures Recorded(h, m)
      {
        assert m in r;
        InRecency(h, m);
      }
    }
    kept
  }

  /** The table holds exactly the most recent clients, each with its latest record. */
  ghost predicate IsLru(rows: map<string, Row>, h: seq<Seen>, cap: nat) {
    && (forall mac :: mac in rows <==> mac in Kept(h, cap))
    && (forall mac | mac in rows ::
          var s := Latest(h, mac); rows[mac] == Row(Clip(s.ip), s.at))
  }

  function Put(rows: map<string, Row>, seen: Seen): map<string, Row> {
    rows[seen.mac := Row(Clip(seen.ip), seen.at)]
  }

  lemma StillIncreasing(h: seq<Seen>, seen: Seen)
    requires Increasing(h) && (h != [] ==> h[|h| - 1].at < seen.at)
    ensures Increasing(h + [seen])
  {
  }

  // --- Recency -------------------------------------------------------------

  predicate Distinct(macs: seq<string>) {
    forall i, j | 0 <= i < j < |macs| :: macs[i] != macs[j]
  }

  lemma DistinctRest(macs: seq<string>)
    requires Distinct(macs) && macs != []
    ensures Distinct(macs[1..]) && macs[0] !in macs[1..]
  {
  }

  lemma DistinctMore(mac: string, macs: seq<string>)
    requires Distinct(macs) && mac !in macs
    ensures Distinct([mac] + macs)
  {
  }

  lemma {:induction false} WithoutDistinct(macs: seq<string>, mac: string)
    requires Distinct(macs)
    ensures Distinct(Without(macs, mac))
    ensures mac in macs ==> |Without(macs, mac)| == |macs| - 1
  {
    if macs != [] {
      var first, rest := macs[0], macs[1..];
      assert macs == [first] + rest;
      DistinctRest(macs);
      WithoutDistinct(rest, mac);
      if first != mac {
        DistinctMore(first, Without(rest, mac));
      }
    }
  }

  lemma {:induction false} RecencyDistinct(h: seq<Seen>)
    ensures Distinct(Recency(h))
  {
    if h != [] {
      var before, mac := Recency(h[..|h| - 1]), h[|h| - 1].mac;
      RecencyDistinct(h[..|h| - 1]);
      WithoutDistinct(before, mac);
      var r := Without(before, mac);
      forall i | 0 <= i < |r|
        ensures r[i] != mac
      {
        assert r[i] in r;
      }
    }
  }

  /** Taking a client out does not disturb the ones before it. */
  lemma WithoutTake(macs: seq<string>, mac: string, n: nat)
    requires Distinct(macs) && 0 < n <= |macs|
    ensures mac in macs[..n] ==>
              n - 1 <= |Without(macs, mac)| &&
              forall m :: m in Without(macs, mac)[..n - 1] <==> m in macs[..n] && m != mac
    ensures mac !in macs[..n - 1] ==>
              n - 1 <= |Without(macs, mac)| && Without(macs, mac)[..n - 1] == macs[..n - 1]
  {
    if mac in macs[..n] {
      WithoutOneOf(macs, mac, n);
    }
    if mac !in macs[..n - 1] {
      WithoutLater(macs, mac, n);
    }
  }

  lemma {:induction false} WithoutOneOf(macs: seq<string>, mac: string, n: nat)
    requires Distinct(macs) && 0 < n <= |macs| && mac in macs[..n]
    ensures n - 1 <= |Without(macs, mac)|
    ensures forall m :: m in Without(macs, mac)[..n - 1] <==> m in macs[..n] && m != mac
  {
    var rest := macs[1..];
    assert forall i | 0 < i < |macs| :: macs[i] == rest[i - 1];
    assert macs[..n] == [macs[0]] + rest[..n - 1];
    var first := rest[..n - 1];
    assert forall m :: m in macs[..n] <==> m == macs[0] || m in first;
    if macs[0] == mac {
      assert mac !in rest && Without(macs, mac) == rest;
      assert mac !in first;
    } else {
      assert mac in first;
      WithoutOneOf(rest, mac, n - 1);
      TakeMore(macs[0], Without(rest, mac), n - 2);
    }
  }

  lemma {:induction false} WithoutLater(macs: seq<string>, mac: string, n: nat)
    requires Distinct(macs) && 0 < n <= |macs| && mac !in macs[..n - 1]
    ensures n - 1 <= |Without(macs, mac)| && Without(macs, mac)[..n - 1] == macs[..n - 1]
  {
    if n > 1 {
      var rest := macs[1..];
      assert forall i | 0 < i < |macs| :: macs[i] == rest[i - 1];
      assert macs[..n - 1] == [macs[0]] + rest[..n - 2];
      WithoutLater(rest, mac, n - 1);
      TakeMore(macs[0], Without(rest, mac), n - 2);
    }
  }

  lemma TakeMore(mac: string, macs: seq<string>, n: nat)
    ensures n <= |macs| ==> ([mac] + macs)[..n + 1] == [mac] + macs[..n]
  {
  }

  // --- Order and size ------------------------------------------------------

  lemma {:induction false} LatestOther(h: seq<Seen>, seen: Seen, mac: string)
    requires mac != seen.mac && Recorded(h, mac)
    ensures Recorded(h + [seen], mac)
    ensures Latest(h + [seen], mac) == Latest(h, mac)
  {
    var g := h + [seen];
    assert g[..|g| - 1] == h;
    RecordedFront(g, mac);
  }

  /** A client nearer the front was seen later. */
  lemma {:induction false} RecencyOrder(h: seq<Seen>, i: nat, j: nat)
    requires Increasing(h) && i < j < |Recency(h)|
    ensures Recorded(h, Recency(h)[i]) && Recorded(h, Recency(h)[j])
    ensures Latest(h, Recency(h)[i]).at > Latest(h, Recency(h)[j]).at
    decreases |h|, 0
  {
    var front, last := h[..|h| - 1], h[|h| - 1];
    assert h == front + [last];
    var before := Recency(front);
    var a, b := Recency(h)[i], Recency(h)[j];
    if i == 0 {
      var j' := WithoutFind(before, last.mac, j - 1);
      assert a == last.mac && b == before[j'];
      OneBefore(front, last, b);
      LatestSelf(front, last);
    } else {
      var i', j' := WithoutKeepsOrder(before, last.mac, i - 1, j - 1);
      assert a == before[i'] && b == before[j'];
      OrderCarries(front, last, i', j');
    }
  }

  lemma {:induction false} OrderCarries(front: seq<Seen>, last: Seen, i: nat, j: nat)
    requires Increasing(front + [last]) && i < j < |Recency(front)|
    requires Recency(front)[i] != last.mac && Recency(front)[j] != last.mac
    ensures var a, b := Recency(front)[i], Recency(front)[j];
            && Recorded(front + [last], a) && Recorded(front + [last], b)
            && Latest(front + [last], a).at > Latest(front + [last], b).at
    decreases |front|, 1
  {
    var h := front + [last];
    assert forall k | 0 <= k < |front| :: front[k] == h[k];
    RecencyOrder(front, i, j);
    LatestOther(front, last, Recency(front)[i]);
    LatestOther(front, last, Recency(front)[j]);
  }

  lemma OneBefore(front: seq<Seen>, last: Seen, mac: string)
    requires Increasing(front + [last]) && mac != last.mac && mac in Recency(front)
    ensures Recorded(front + [last], mac) && Latest(front + [last], mac).at < last.at
  {
    var h := front + [last];
    InRecency(front, mac);
    LatestOther(front, last, mac);
    var s := Latest(front, mac);
    var k :| 0 <= k < |front| && front[k] == s;
    assert h[k] == s && h[|front|] == last;
  }

  lemma LatestSelf(h: seq<Seen>, seen: Seen)
    ensures Recorded(h + [seen], seen.mac) && Latest(h + [seen], seen.mac) == seen
  {
    RecordedFront(h + [seen], seen.mac);
  }

  /** Two entries that stay keep their order. */
  lemma {:induction false} WithoutKeepsOrder(macs: seq<string>, mac: string, i: nat, j: nat)
    returns (i': nat, j': nat)
    requires i < j < |Without(macs, mac)|
    ensures i' < j' < |macs|
    ensures macs[i'] == Without(macs, mac)[i] && macs[j'] == Without(macs, mac)[j]
    ensures macs[i'] != mac && macs[j'] != mac
  {
    if macs[0] == mac {
      i', j' := WithoutKeepsOrder(macs[1..], mac, i, j);
      i', j' := i' + 1, j' + 1;
    } else if i > 0 {
      i', j' := WithoutKeepsOrder(macs[1..], mac, i - 1, j - 1);
      i', j' := i' + 1, j' + 1;
    } else {
      j' := WithoutFind(macs[1..], mac, j - 1);
      i', j' := 0, j' + 1;
    }
  }

  lemma {:induction false} WithoutFind(macs: seq<string>, mac: string, j: nat) returns (j': nat)
    requires j < |Without(macs, mac)|
    ensures j' < |macs| && macs[j'] == Without(macs, mac)[j] && macs[j'] != mac
  {
    if macs[0] == mac {
      j' := WithoutFind(macs[1..], mac, j);
      j' := j' + 1;
    } else if j > 0 {
      j' := WithoutFind(macs[1..], mac, j - 1);
      j' := j' + 1;
    } else {
      j' := 0;
    }
  }

  lemma {:induction false} CountDistinct(macs: seq<string>, keys: set<string>)
    requires Distinct(macs) && forall m :: m in keys <==> m in macs
    ensures |keys| == |macs|
  {
    if macs != [] {
      var rest, last := macs[..|macs| - 1], macs[|macs| - 1];
      assert macs == rest + [last] && last !in rest;
      CountDistinct(rest, keys - {last});
    }
  }

  lemma LruSize(rows: map<string, Row>, h: seq<Seen>, cap: nat)
    requires IsLru(rows, h, cap)
    ensures |rows| == |Kept(h, cap)| <= cap
  {
    RecencyDistinct(h);
    CountDistinct(Kept(h, cap), rows.Keys);
    assert |rows.Keys| == |rows|;
  }

  // --- One more record -----------------------------------------------------

  /** Who is kept after a record: its client, and the others one place further down. */
  lemma KeptAfter(h: seq<Seen>, seen: Seen, cap: nat, mac: string)
    requires cap > 0
    ensures var others := Without(Recency(h), seen.mac);
            mac in Kept(h + [seen], cap) <==> mac == seen.mac || mac in others[..Min(cap - 1, |others|)]
  {
    var g := h + [seen];
    assert g[..|g| - 1] == h;
    var others := Without(Recency(h), seen.mac);
    var n := Min(cap - 1, |others|);
    assert Recency(g) == [seen.mac] + others;
    assert Kept(g, cap) == [seen.mac] + others[..n];
  }

  /** A client that is in the table already moves to the front of it. */
  lemma KeptKnown(h: seq<Seen>, seen: Seen, cap: nat, mac: string)
    requires seen.mac in Kept(h, cap)
    ensures mac in Kept(h + [seen], cap) <==> mac in Kept(h, cap)
  {
    var r := Recency(h);
    RecencyDistinct(h);
    WithoutTake(r, seen.mac, Min(cap, |r|));
    WithoutDistinct(r, seen.mac);
    var k := Kept(h, cap);
    assert forall m | m in k :: m in r;
    KeptAfter(h, seen, cap, mac);
  }

  /** A new client pushes out only the one at the end of a full table. */
  lemma KeptNew(h: seq<Seen>, seen: Seen, cap: nat, mac: string)
    requires cap > 0 && seen.mac !in Kept(h, cap)
    ensures mac in Kept(h + [seen], cap) <==> mac == seen.mac || (mac in Kept(h, cap) && !PushedOut(h, cap, mac))
  {
    if |Kept(h, cap)| == cap {
      KeptNewFull(h, seen, cap, mac);
    } else {
      KeptNewRoom(h, seen, cap, mac);
    }
  }

  lemma KeptNewRoom(h: seq<Seen>, seen: Seen, cap: nat, mac: string)
    requires seen.mac !in Kept(h, cap) && |Kept(h, cap)| < cap
    ensures mac in Kept(h + [seen], cap) <==> mac == seen.mac || mac in Kept(h, cap)
  {
    var r := Recency(h);
    assert Kept(h, cap) == r;
    KeptAfter(h, seen, cap, mac);
    assert Without(r, seen.mac) == r;
    assert r[..Min(cap - 1, |r|)] == r;
  }

  lemma KeptNewFull(h: seq<Seen>, seen: Seen, cap: nat, mac: string)
    requires seen.mac !in Kept(h, cap) && |Kept(h, cap)| == cap > 0
    ensures mac in Kept(h + [seen], cap) <==>
            mac == seen.mac || (mac in Kept(h, cap) && mac != Kept(h, cap)[cap - 1])
  {
    var r := Recency(h);
    assert Kept(h, cap) == r[..cap];
    KeptAfter(h, seen, cap, mac);
    RecencyDistinct(h);
    FullBut(r, seen.mac, cap, mac);
  }

  /** Without a client that is not among the first `n`, the next to be cut is the `n`th. */
  lemma FullBut(macs: seq<string>, mac: string, n: nat, other: string)
    requires Distinct(macs) && 0 < n <= |macs| && mac !in macs[..n]
    ensures var others := Without(macs, mac);
            other in others[..Min(n - 1, |others|)] <==> other in macs[..n] && other != macs[n - 1]
  {
    FullWithout(macs, mac, n);
    LastApart(macs, n);
    assert macs[..n] == macs[..n - 1] + [macs[n - 1]];
  }

  lemma FullWithout(macs: seq<string>, mac: string, n: nat)
    requires Distinct(macs) && 0 < n <= |macs| && mac !in macs[..n]
    ensures var others := Without(macs, mac);
            n - 1 <= |others| && others[..Min(n - 1, |others|)] == macs[..n - 1]
  {
    assert macs[..n] == macs[..n - 1] + [macs[n - 1]];
    WithoutTake(macs, mac, n);
  }

  /** The client a full table has no more room for. */
  predicate PushedOut(h: seq<Seen>, cap: nat, mac: string) {
    var k := Kept(h, cap);
    |k| == cap > 0 && mac == k[cap - 1]
  }

  lemma LastApart(macs: seq<string>, n: nat)
    requires Distinct(macs) && 0 < n <= |macs|
    ensures macs[n - 1] !in macs[..n - 1]
  {
  }

  /** The row that was seen longest ago is the one recency puts last. */
  lemma OldestIsLast(rows: map<string, Row>, h: seq<Seen>, cap: nat, oldest: string)
    requires Increasing(h) && IsLru(rows, h, cap)
    requires oldest in rows && forall mac | mac in rows :: rows[oldest].lastSeen <= rows[mac].lastSeen
    ensures var k := Kept(h, cap); k != [] && oldest == k[|k| - 1]
  {
    var k := Kept(h, cap);
    var i :| 0 <= i < |k| && k[i] == oldest;
    var last := k[|k| - 1];
    assert last in k && last in rows;
    if i < |k| - 1 {
      RecencyOrder(h, i, |k| - 1);
    }
  }

  /** The kept rows of other clients carry over; the new record has its own row. */
  lemma RowsAfter(rows: map<string, Row>, after: map<string, Row>, h: seq<Seen>, seen: Seen, cap: nat)
    requires IsLru(rows, h, cap)
    requires forall mac :: mac in after <==> mac in Kept(h + [seen], cap)
    requires forall mac | mac in after && mac != seen.mac :: mac in rows && after[mac] == rows[mac]
    requires seen.mac in after && after[seen.mac] == Row(Clip(seen.ip), seen.at)
    ensures IsLru(after, h + [seen], cap)
  {
    var g := h + [seen];
    forall mac | mac in after
      ensures var s := Latest(g, mac); after[mac] == Row(Clip(s.ip), s.at)
    {
      assert mac in Kept(g, cap);
      if mac == seen.mac {
        LatestSelf(h, seen);
      } else {
        assert mac in Kept(h, cap);
        LatestOther(h, seen, mac);
      }
    }
  }

  lemma KnownStays(rows: map<string, Row>, h: seq<Seen>, seen: Seen, cap: nat)
    requires cap > 0 && IsLru(rows, h, cap) && seen.mac in rows
    ensures IsLru(Put(rows, seen), h + [seen], cap)
  {
    var after := Put(rows, seen);
    forall mac
      ensures mac in after <==> mac in Kept(h + [seen], cap)
    {
      KeptKnown(h, seen, cap, mac);
    }
    RowsAfter(rows, after, h, seen, cap);
  }

  /** `room` is the table after the oldest row made way, if one had to. */
  lemma NewFits(rows: map<string, Row>, room: map<string, Row>, h: seq<Seen>, seen: Seen, cap: nat)
    requires cap > 0 && IsLru(rows, h, cap) && seen.mac !in rows
    requires var k := Kept(h, cap); room == if |rows| >= cap && k != [] then rows - {k[|k| - 1]} else rows
    ensures IsLru(Put(room, seen), h + [seen], cap)
  {
    LruSize(rows, h, cap);
    var after := Put(room, seen);
    forall mac
      ensures mac in after <==> mac in Kept(h + [seen], cap)
    {
      KeptNew(h, seen, cap, mac);
    }
    RowsAfter(rows, after, h, seen, cap);
  }

  // --- The table -----------------------------------------------------------

  const MAX_SEEN: nat := 10000

  class Table {
    var rows: map<string, Row>
    const cap: nat
    ghost var history: seq<Seen>   // every load ever recorded, in order

    ghost predicate Valid()
      reads this
    {
      cap > 0 && Increasing(history) && IsLru(rows, history, cap)
    }

    constructor ()
      ensures Valid() && cap == MAX_SEEN && rows == map[] && history == []
    {
      rows, cap, history := map[], MAX_SEEN, [];
    }

    /**
     * A client loads the menu at time `now`. `allowed` is the throttle's verdict on
     * the address it came from.
     */
    method TrackMenu(allowed: bool, mac: string, ip: string, now: int)
      requires Valid() && (history != [] ==> history[|history| - 1].at < now)
      modifies this
      ensures Valid() && |rows| <= cap
      ensures history == if allowed && IsMac(mac) then old(history) + [Seen(mac, ip, now)] else old(history)
      ensures !(allowed && IsMac(mac)) ==> rows == old(rows)
    {
      LruSize(rows, history, cap);
      if allowed && IsMac(mac) {
        var seen := Seen(mac, ip, now);
        MakeRoom(seen);
        StillIncreasing(history, seen);
        rows := Put(rows, seen);
        history := history + [seen];
        LruSize(rows, history, cap);
      }
    }

    /** A client that has no row yet needs a free place. */
    method MakeRoom(seen: Seen)
      requires Valid()
      modifies this`rows
      ensures IsLru(Put(rows, seen), history + [seen], cap)
    {
      if seen.mac in rows {
        KnownStays(rows, history, seen, cap);
      } else if |rows| >= cap {
        LruSize(rows, history, cap);
        var oldest := Oldest();
        OldestIsLast(rows, history, cap, oldest);
        NewFits(rows, rows - {oldest}, history, seen, cap);
        rows := rows - {oldest};
      } else {
        NewFits(rows, rows, history, seen, cap);
      }
    }

    /** A row no other was seen before; which one of several is not determined. */
    method Oldest() returns (oldest: string)
      requires rows != map[]
      ensures oldest in rows && forall mac | mac in rows :: rows[oldest].lastSeen <= rows[mac].lastSeen
    {
      oldest :| oldest in rows;
      var rest := rows.Keys - {oldest};
      while rest != {}
        invariant rest <= rows.Keys && oldest in rows
        invariant forall mac | mac in rows && mac !in rest :: rows[oldest].lastSeen <= rows[mac].lastSeen
      {
        var mac :| mac in rest;
        if rows[mac].lastSeen < rows[oldest].lastSeen {
          oldest := mac;
        }
        rest := rest - {mac};
      }
    }
  }
}
