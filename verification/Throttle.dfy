/**
 * The in-memory sliding-window throttle. Its table is pruned on every call and
 * swept when it grows, yet it answers as if it had kept every event.
 */
module Throttle {

  predicate Sorted(h: seq<real>) {
    forall i, j | 0 <= i < j < |h| :: h[i] <= h[j]
  }

  /** The events less than a window old. */
  function Recent(h: seq<real>, now: real, window: real): seq<real> {
    if h == [] then []
    else
      var last := h[|h| - 1];
      Recent(h[..|h| - 1], now, window) + (if now - last < window then [last] else [])
  }

  /** `h` is what the rule accepts: fewer than `limit` recent events before each. */
  predicate Accepted(h: seq<real>, limit: int, window: real) {
    Sorted(h) && forall i | 0 <= i < |h| :: |Recent(h[..i], h[i], window)| < limit
  }

  /** How many events fall in the half-open span of one window from `from` on. */
  function InSpan(h: seq<real>, from: real, window: real): nat {
    if h == [] then 0
    else
      var last := h[|h| - 1];
      InSpan(h[..|h| - 1], from, window) + (if from <= last < from + window then 1 else 0)
  }

  // --- The rule bounds every span ------------------------------------------

  /** Events that are all recent are all counted. */
  lemma {:induction false} RecentAtLeast(h: seq<real>, now: real, window: real, k: nat)
    requires Sorted(h) && k <= |h|
    requires k > 0 ==> now - h[|h| - k] < window
    ensures |Recent(h, now, window)| >= k
  {
    if k > 0 {
      var front := h[..|h| - 1];
      if k > 1 {
        assert front[|front| - (k - 1)] == h[|h| - k];
      }
      RecentAtLeast(front, now, window, k - 1);
    }
  }

  /** Among limit + 1 accepted events the first is at least a window before the last. */
  lemma AcceptedSpread(h: seq<real>, limit: nat, window: real, i: nat)
    requires Accepted(h, limit, window) && limit > 0 && i + limit < |h|
    ensures h[i + limit] - h[i] >= window
  {
    var j := i + limit;
    if h[j] - h[i] < window {
      RecentAtLeast(h[..j], h[j], window, limit);
    }
  }

  /** The events of a span that reaches the last one are the last events. */
  lemma {:induction false} SpanIsTail(h: seq<real>, from: real, window: real) returns (i: nat)
    requires Sorted(h) && h != [] && from <= h[|h| - 1] < from + window
    ensures i < |h| && from <= h[i] && InSpan(h, from, window) == |h| - i
  {
    var front := h[..|h| - 1];
    if front == [] || front[|front| - 1] < from {
      NothingInSpan(front, from, window);
      i := |h| - 1;
    } else {
      i := SpanIsTail(front, from, window);
    }
  }

  lemma {:induction false} NothingInSpan(h: seq<real>, from: real, window: real)
    requires Sorted(h) && (h != [] ==> h[|h| - 1] < from)
    ensures InSpan(h, from, window) == 0
  {
    if h != [] {
      NothingInSpan(h[..|h| - 1], from, window);
    }
  }

  /** No span of one window ever holds more than `limit` accepted events. */
  lemma {:induction false} SpanBounded(h: seq<real>, limit: nat, window: real, from: real)
    requires Accepted(h, limit, window)
    ensures InSpan(h, from, window) <= limit
  {
    if h != [] {
      var n := |h| - 1;
      assert |Recent(h[..n], h[n], window)| < limit;
      if from <= h[n] < from + window {
        var i := SpanIsTail(h, from, window);
        if n - i >= limit {
          AcceptedSpread(h, limit, window, i);
        }
      } else {
        AcceptedPrefix(h, limit, window);
        SpanBounded(h[..n], limit, window, from);
      }
    }
  }

  lemma AcceptedPrefix(h: seq<real>, limit: int, window: real)
    requires h != [] && Accepted(h, limit, window)
    ensures Accepted(h[..|h| - 1], limit, window)
  {
    var front := h[..|h| - 1];
    forall i | 0 <= i < |front|
      ensures |Recent(front[..i], front[i], window)| < limit
    {
      assert front[..i] == h[..i];
    }
  }

  // --- Pruning loses nothing -----------------------------------------------

  /** `kept` is `h` without some old events at its front. */
  predicate Pruned(kept: seq<real>, h: seq<real>, now: real, window: real) {
    && |kept| <= |h| && kept == h[|h| - |kept|..]
    && forall i | 0 <= i < |h| - |kept| :: now - h[i] >= window
  }

  lemma {:induction false} RecentOfPruned(kept: seq<real>, h: seq<real>, now: real, window: real)
    requires Pruned(kept, h, now, window)
    ensures Recent(kept, now, window) == Recent(h, now, window)
  {
    if kept == [] {
      NoneRecent(h, now, window);
    } else {
      assert kept[..|kept| - 1] == h[..|h| - 1][|h| - |kept|..];
      RecentOfPruned(kept[..|kept| - 1], h[..|h| - 1], now, window);
    }
  }

  lemma {:induction false} NoneRecent(h: seq<real>, now: real, window: real)
    requires forall i | 0 <= i < |h| :: now - h[i] >= window
    ensures Recent(h, now, window) == []
  {
    if h != [] {
      NoneRecent(h[..|h| - 1], now, window);
    }
  }

  /** Keeping only the recent events of a sorted list prunes it. */
  lemma {:induction false} RecentIsPruned(h: seq<real>, now: real, window: real)
    requires Sorted(h)
    ensures Pruned(Recent(h, now, window), h, now, window)
  {
    if h != [] {
      var front, last := h[..|h| - 1], h[|h| - 1];
      assert h == front + [last];
      if now - last < window {
        RecentIsPruned(front, now, window);
        PrunedMore(Recent(front, now, window), front, last, now, window);
      } else {
        AllOld(h, now, window);
        NoneRecent(h, now, window);
      }
    }
  }

  lemma AllOld(h: seq<real>, now: real, window: real)
    requires Sorted(h) && h != [] && now - h[|h| - 1] >= window
    ensures forall i | 0 <= i < |h| :: now - h[i] >= window
  {
  }

  lemma PrunedMore(kept: seq<real>, h: seq<real>, x: real, now: real, window: real)
    requires Pruned(kept, h, now, window)
    ensures Pruned(kept + [x], h + [x], now, window)
  {
    var g, k := h + [x], kept + [x];
    assert g[|g| - |k|..] == h[|h| - |kept|..] + [x];
  }

  lemma PrunedLater(kept: seq<real>, h: seq<real>, now: real, later: real, window: real)
    requires Pruned(kept, h, now, window) && now <= later
    ensures Pruned(kept, h, later, window)
  {
  }

  /** What the table has of one key stands for all that was ever accepted for it. */
  predicate KeyOk(kept: seq<real>, h: seq<real>, now: real, window: real) {
    Sorted(h) && (h != [] ==> h[|h| - 1] <= now) && Pruned(kept, h, now, window)
  }

  function Lookup(m: map<string, seq<real>>, key: string): seq<real> {
    if key in m then m[key] else []
  }

  /** The table stands for the whole history. */
  ghost predicate Stands(
      events: map<string, seq<real>>, history: map<string, seq<real>>, now: real, window: real)
  {
    forall key :: KeyOk(Lookup(events, key), Lookup(history, key), now, window)
  }

  /** Another list for one key, and perhaps another history. */
  lemma StandsWith(
      events: map<string, seq<real>>, history: map<string, seq<real>>, events': map<string, seq<real>>,
      history': map<string, seq<real>>, key: string, now: real, window: real)
    requires Stands(events, history, now, window)
    requires KeyOk(Lookup(events', key), Lookup(history', key), now, window)
    requires forall other | other != key ::
               Lookup(events', other) == Lookup(events, other) && Lookup(history', other) == Lookup(history, other)
    ensures Stands(events', history', now, window)
  {
    forall other
      ensures KeyOk(Lookup(events', other), Lookup(history', other), now, window)
    {
      assert KeyOk(Lookup(events, other), Lookup(history, other), now, window);
    }
  }

  lemma StandsLater(
      events: map<string, seq<real>>, history: map<string, seq<real>>, now: real, later: real, window: real)
    requires Stands(events, history, now, window) && now <= later
    ensures Stands(events, history, later, window)
  {
    forall key
      ensures KeyOk(Lookup(events, key), Lookup(history, key), later, window)
    {
      assert KeyOk(Lookup(events, key), Lookup(history, key), now, window);
      PrunedLater(Lookup(events, key), Lookup(history, key), now, later, window);
    }
  }

  class Table {
    const window: real
    const sweepAbove: nat := 4096
    var events: map<string, seq<real>>
    ghost var history: map<string, seq<real>>   // every event ever accepted
    ghost var clock: real                       // the time of the last call

    ghost predicate Valid()
      reads this
    {
      Stands(events, history, clock, window)
    }

    constructor (window: real)
      ensures Valid() && history == map[] && this.window == window
    {
      this.window := window;
      events, history := map[], map[];
      clock := 0.0;
    }

    /** The times that are less than a window before now, in their order. */
    method KeepRecent(ts: seq<real>, now: real) returns (recent: seq<real>)
      ensures recent == Recent(ts, now, window)
    {
      recent := [];
      for i := 0 to |ts|
        invariant recent == Recent(ts[..i], now, window)
      {
        assert ts[..i + 1][..i] == ts[..i];
        if now - ts[i] < window {
          recent := recent + [ts[i]];
        }
      }
      assert ts[..|ts|] == ts;
    }

    /**
     * `allow`: yes exactly when fewer than `limit` of all events ever accepted for
     * this key are less than a window old, and then this one is accepted too.
     */
    method Allow(key: string, limit: int, now: real) returns (ok: bool)
      requires Valid() && clock <= now
      modifies this
      ensures Valid() && clock == now
      ensures ok <==> |Recent(Lookup(old(history), key), now, window)| < limit
      ensures history == if ok then old(history)[key := Lookup(old(history), key) + [now]]
                         else old(history)
      ensures ok && Accepted(Lookup(old(history), key), limit, window) ==> Accepted(Lookup(history, key), limit, window)
    {
      TimePasses(now);
      var recent := KeyRecent(key, now);
      ok := |recent| < limit;
      if !ok {
        Refresh(key, recent);
        return;
      }
      Record(key, recent, now, limit);
    }

    /** A call that is let through is remembered; a table grown large is swept. */
    method Record(key: string, recent: seq<real>, now: real, ghost limit: int)
      requires Valid() && clock == now && recent == Recent(Lookup(history, key), now, window) && |recent| < limit
      modifies this`events, this`history
      ensures Valid() && history == old(history)[key := Lookup(old(history), key) + [now]]
      ensures Accepted(Lookup(old(history), key), limit, window) ==> Accepted(Lookup(history, key), limit, window)
    {
      assert KeyOk(Lookup(events, key), Lookup(history, key), now, window);
      AcceptOne(Lookup(history, key), now, limit, window);
      Accept(key, recent, now);
      if |events| > sweepAbove {
        Sweep(now);
      }
    }

    /** The recent events of a key: all of them, although the table was pruned. */
    method KeyRecent(key: string, now: real) returns (recent: seq<real>)
      requires Valid() && clock == now
      ensures recent == Recent(Lookup(history, key), now, window)
      ensures KeyOk(recent, Lookup(history, key), now, window)
    {
      ghost var h := Lookup(history, key);
      assert KeyOk(Lookup(events, key), h, now, window);
      RecentOfPruned(Lookup(events, key), h, now, window);
      RecentIsPruned(h, now, window);
      recent := KeepRecent(if key in events then events[key] else [], now);
    }

    /** The pruned list of a key goes back in the table. */
    method Refresh(key: string, recent: seq<real>)
      requires Valid() && KeyOk(recent, Lookup(history, key), clock, window)
      modifies this`events
      ensures Valid() && events == old(events)[key := recent]
    {
      StandsWith(events, history, events[key := recent], history, key, clock, window);
      events := events[key := recent];
    }

    method Accept(key: string, recent: seq<real>, now: real)
      requires Valid() && clock == now
      requires KeyOk(recent + [now], Lookup(history, key) + [now], clock, window)
      modifies this`events, this`history
      ensures Valid()
      ensures history == old(history)[key := Lookup(old(history), key) + [now]]
    {
      events := events[key := recent + [now]];
      history := history[key := Lookup(history, key) + [now]];
      StandsWith(old(events), old(history), events, history, key, clock, window);
    }

    ghost method TimePasses(now: real)
      requires Valid() && clock <= now
      modifies this`clock
      ensures Valid() && clock == now
    {
      StandsLater(events, history, clock, now, window);
      clock := now;
    }

    /** A key with no recent event is dropped. */
    method SweepKey(key: string, now: real)
      requires Valid() && clock == now && key in events
      modifies this`events
      ensures Valid()
      ensures events == if Recent(old(events)[key], now, window) == [] then old(events) - {key} else old(events)
    {
      var recent := KeepRecent(events[key], now);
      if recent == [] {
        assert KeyOk(Lookup(events, key), Lookup(history, key), clock, window);
        NothingLeft(events[key], Lookup(history, key), now, window);
        StandsWith(events, history, events - {key}, history, key, clock, window);
        events := events - {key};
      }
    }

    /** Drop the keys with no recent event, so one-off keys cannot fill the table. */
    method Sweep(now: real)
      requires Valid() && clock == now
      modifies this`events
      ensures Valid() && Swept(events, old(events), {}, now, window)
    {
      var todo := events.Keys;
      while todo != {}
        invariant Valid() && todo <= events.Keys
        invariant Swept(events, old(events), todo, now, window)
        decreases todo
      {
        var key :| key in todo;
        SweepKey(key, now);
        todo := todo - {key};
      }
    }
  }

  /** The keys that are not `todo` any more are kept exactly if they have a recent event. */
  predicate Swept(
      events: map<string, seq<real>>, before: map<string, seq<real>>, todo: set<string>, now: real, window: real)
  {
    && (forall key | key in events :: key in before && events[key] == before[key])
    && (forall key | key in before && key !in todo :: key in events <==> Recent(before[key], now, window) != [])
  }

  lemma NothingLeft(kept: seq<real>, h: seq<real>, now: real, window: real)
    requires KeyOk(kept, h, now, window) && Recent(kept, now, window) == []
    ensures KeyOk([], h, now, window)
  {
    RecentOfPruned(kept, h, now, window);
    RecentIsPruned(h, now, window);
  }

  lemma AcceptOne(h: seq<real>, now: real, limit: int, window: real)
    requires Sorted(h) && (h != [] ==> h[|h| - 1] <= now)
    requires |Recent(h, now, window)| < limit
    ensures KeyOk(Recent(h, now, window) + [now], h + [now], now, window)
    ensures Accepted(h, limit, window) ==> Accepted(h + [now], limit, window)
  {
    RecentIsPruned(h, now, window);
    SortedMore(h, now);
    PrunedMore(Recent(h, now, window), h, now, now, window);
    if Accepted(h, limit, window) {
      AcceptedMore(h, now, limit, window);
    }
  }

  lemma SortedMore(h: seq<real>, now: real)
    requires Sorted(h) && (h != [] ==> h[|h| - 1] <= now)
    ensures Sorted(h + [now])
  {
  }

  lemma AcceptedMore(h: seq<real>, now: real, limit: int, window: real)
    requires Accepted(h, limit, window) && Sorted(h + [now]) && |Recent(h, now, window)| < limit
    ensures Accepted(h + [now], limit, window)
  {
    var g := h + [now];
    forall i | 0 <= i < |g|
      ensures |Recent(g[..i], g[i], window)| < limit
    {
      assert g[..i] == h[..i];
      if i == |h| {
        assert h[..i] == h;
      }
    }
  }
}
