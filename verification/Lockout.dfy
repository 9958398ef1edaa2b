/**
 * The login lockout: one row per throttle key, and the order in which a login
 * attempt reads and writes it. Times are seconds since the epoch.
 */
module Lockout {
  import opened Store

  const MAX_FAILURES := 5
  const WINDOW_SECONDS := 300.0
  const LOCKOUT_SECONDS := 900.0

  datatype Row = Row(failCount: int, lockedUntil: Option<real>, lastFail: Option<real>)

  /** A stored time that is set and not zero, as Python's truth test sees it. */
  predicate IsSet(t: Option<real>) {
    t.Some? && t.value != 0.0
  }

  predicate IsLocked(row: Option<Row>, now: real) {
    row.Some? && IsSet(row.value.lockedUntil) && row.value.lockedUntil.value > now
  }

  /** The seconds `retry_after` answers. */
  function WaitSeconds(row: Option<Row>, now: real): nat {
    if IsLocked(row, now) then (row.value.lockedUntil.value - now).Floor + 1 else 0
  }

  /** What `retry_after` leaves: a row whose window is over goes. */
  function AfterRetry(row: Option<Row>, now: real): Option<Row> {
    if row.Some? && !IsLocked(row, now) && IsSet(row.value.lastFail)
       && now - row.value.lastFail.value >= WINDOW_SECONDS
    then None
    else row
  }

  /** What `record_failure` leaves. */
  function AfterFailure(row: Option<Row>, now: real): Row {
    var prev := if row.Some? then row.value else Row(0, None, None);
    var stale := prev.lastFail.Some? && now - prev.lastFail.value >= WINDOW_SECONDS;
    var count := (if stale then 0 else prev.failCount) + 1;
    if count >= MAX_FAILURES then Row(0, Some(now + LOCKOUT_SECONDS), Some(now))
    else Row(count, prev.lockedUntil, Some(now))
  }

  datatype Answer = Wait(seconds: nat) | Wrong | Right

  /** One attempt, as `login_submit` and `totp_submit` make it. */
  function Submit(row: Option<Row>, now: real, correct: bool): (Option<Row>, Answer) {
    var wait := WaitSeconds(row, now);
    if wait > 0 then (AfterRetry(row, now), Wait(wait))
    else if correct then (None, Right)
    else (Some(AfterFailure(AfterRetry(row, now), now)), Wrong)
  }

  class Lockouts {
    var rows: map<string, Row>

    function Get(key: string): Option<Row>
      reads this
    {
      if key in rows then Some(rows[key]) else None
    }

    ghost predicate OnlyKey(before: map<string, Row>, key: string)
      reads this
    {
      forall other | other != key ::
        (other in rows <==> other in before) && (other in rows ==> rows[other] == before[other])
    }

    /** `retry_after`. */
    method RetryAfter(key: string, now: real) returns (wait: nat)
      modifies this
      ensures wait == WaitSeconds(old(Get(key)), now)
      ensures Get(key) == AfterRetry(old(Get(key)), now) && OnlyKey(old(rows), key)
    {
      if key !in rows {
        return 0;
      }
      var row := rows[key];
      if IsSet(row.lockedUntil) && row.lockedUntil.value > now {
        return (row.lockedUntil.value - now).Floor + 1;
      }
      if IsSet(row.lastFail) && now - row.lastFail.value >= WINDOW_SECONDS {
        rows := rows - {key};
      }
      return 0;
    }

    /** `record_failure`. */
    method RecordFailure(key: string, now: real)
      modifies this
      ensures Get(key) == Some(AfterFailure(old(Get(key)), now)) && OnlyKey(old(rows), key)
    {
      var row := if key in rows then rows[key] else Row(0, None, None);
      if row.lastFail.Some? && now - row.lastFail.value >= WINDOW_SECONDS {
        row := row.(failCount := 0);
      }
      row := row.(failCount := row.failCount + 1, lastFail := Some(now));
      if row.failCount >= MAX_FAILURES {
        row := row.(lockedUntil := Some(now + LOCKOUT_SECONDS), failCount := 0);
      }
      rows := rows[key := row];
    }

    /** `reset`. */
    method Reset(key: string)
      modifies this
      ensures Get(key) == None && OnlyKey(old(rows), key)
    {
      rows := rows - {key};
    }

    /** `login_submit`; `correct` is what checking the password would say. */
    method LoginSubmit(key: string, now: real, correct: bool) returns (answer: Answer)
      modifies this
      ensures (Get(key), answer) == Submit(old(Get(key)), now, correct)
      ensures OnlyKey(old(rows), key)
      ensures answer == Right ==> key !in rows
      ensures answer == Wrong ==> key in rows && rows[key].lastFail == Some(now)
      ensures !answer.Wait? ==> answer == if correct then Right else Wrong
    {
      var wait := RetryAfter(key, now);
      if wait > 0 {
        // refused without looking at the password
        return Wait(wait);
      }
      if !correct {
        RecordFailure(key, now);
        return Wrong;
      }
      Reset(key);
      return Right;
    }

    /** `totp_submit`, once the password is proven: throttled per account. */
    method TotpSubmit(userKey: string, now: real, correct: bool) returns (answer: Answer)
      modifies this
      ensures (Get("totp:" + userKey), answer) == Submit(old(Get("totp:" + userKey)), now, correct)
      ensures OnlyKey(old(rows), "totp:" + userKey)
      ensures answer == Right ==> "totp:" + userKey !in rows
    {
      answer := LoginSubmit("totp:" + userKey, now, correct);
    }
  }

  // --- Whole runs of wrong attempts ----------------------------------------

  /** Times of attempts on one key, on a clock that does not run backwards. */
  predicate Clock(ts: seq<real>) {
    (forall i | 0 <= i < |ts| :: 0.0 <= ts[i]) && forall i, j | 0 <= i < j < |ts| :: ts[i] <= ts[j]
  }

  /** The row after wrong attempts at these times, and the times that were checked. */
  function After(ts: seq<real>): (Option<Row>, seq<real>) {
    if ts == [] then (None, [])
    else
      var n := |ts| - 1;
      var (row, checked) := After(ts[..n]);
      var (row', answer) := Submit(row, ts[n], false);
      (row', if answer == Wrong then checked + [ts[n]] else checked)
  }

  /** How many of the last failures follow each other in less than a window. */
  function Chain(c: seq<real>): nat {
    var n := |c|;
    if n == 0 then 0
    else if n == 1 || c[n - 1] - c[n - 2] >= WINDOW_SECONDS then 1
    else 1 + Chain(c[..n - 1])
  }

  /** How the row stands for the checked failures `c`, at a time not before the last. */
  predicate Counts(row: Option<Row>, c: seq<real>, now: real) {
    var n := |c|;
    && Clock(c) && 0.0 <= now && (n > 0 ==> c[n - 1] <= now)
    && (if row.None? then n == 0
        else
          var r := row.value;
          && n > 0 && r.lastFail == Some(c[n - 1])
          && 1 <= Chain(c) <= MAX_FAILURES
          && (if Chain(c) < MAX_FAILURES
              then r.failCount == Chain(c) && (r.lockedUntil.Some? ==> r.lockedUntil.value <= c[n - 1])
              else r.failCount == 0 && r.lockedUntil == Some(c[n - 1] + LOCKOUT_SECONDS)))
  }

  lemma CountsStep(row: Option<Row>, c: seq<real>, now: real, t: real)
    requires Counts(row, c, now) && now <= t
    ensures var (row', answer) := Submit(row, t, false);
      Counts(row', if answer == Wrong then c + [t] else c, t)
  {
    var (row', answer) := Submit(row, t, false);
    if answer == Wrong {
      var c' := c + [t];
      assert c'[..|c'| - 1] == c;
    }
  }

  lemma {:induction false} AfterCounts(ts: seq<real>)
    requires Clock(ts)
    ensures Counts(After(ts).0, After(ts).1, if ts == [] then 0.0 else ts[|ts| - 1])
  {
    if ts != [] {
      var n := |ts| - 1;
      AfterCounts(ts[..n]);
      CountsStep(After(ts[..n]).0, After(ts[..n]).1, if n == 0 then 0.0 else ts[n - 1], ts[n]);
    }
  }

  /** No chain ever gets longer than the limit, and a full one is followed by a lockout. */
  predicate Spaced(c: seq<real>) {
    forall k | 0 < k <= |c| :: SpacedAt(c, k)
  }

  predicate SpacedAt(c: seq<real>, k: nat)
    requires 0 < k <= |c|
  {
    && Chain(c[..k]) <= MAX_FAILURES
    && (Chain(c[..k]) == MAX_FAILURES && k < |c| ==> c[k] - c[k - 1] >= LOCKOUT_SECONDS)
  }

  lemma {:induction false} AfterSpaced(ts: seq<real>)
    requires Clock(ts)
    ensures Spaced(After(ts).1)
  {
    if ts != [] {
      var n := |ts| - 1;
      AfterSpaced(ts[..n]);
      AfterCounts(ts[..n]);
      AfterCounts(ts);
      var (row, c) := After(ts[..n]);
      var c' := After(ts).1;
      if c' != c {
        SpacedOneMore(row, c, if n == 0 then 0.0 else ts[n - 1], ts[n]);
      }
    }
  }

  lemma SpacedOneMore(row: Option<Row>, c: seq<real>, now: real, t: real)
    requires Spaced(c) && Counts(row, c, now) && now <= t
    requires Submit(row, t, false).1 == Wrong
    ensures Spaced(c + [t])
  {
    CountsStep(row, c, now, t);
    var c' := c + [t];
    forall k | 0 < k <= |c'|
      ensures SpacedAt(c', k)
    {
      if k < |c| {
        assert c'[..k] == c[..k] && SpacedAt(c, k);
      } else if k == |c| {
        assert c'[..k] == c && c[..k] == c && SpacedAt(c, k);
        if Chain(c) == MAX_FAILURES {
          CheckedAfterLock(row, c, now, t);
        }
      } else {
        assert c'[..k] == c';
      }
    }
  }

  /** A check right after a full chain is past the lockout. */
  lemma CheckedAfterLock(row: Option<Row>, c: seq<real>, now: real, t: real)
    requires Counts(row, c, now) && now <= t && c != [] && Chain(c) == MAX_FAILURES
    requires Submit(row, t, false).1 == Wrong
    ensures t - c[|c| - 1] >= LOCKOUT_SECONDS
  {
  }

  /** Gaps below the window make a chain. */
  lemma {:induction false} ChainAtLeast(c: seq<real>, k: nat)
    requires 0 < k <= |c|
    requires forall i | |c| - k < i < |c| :: c[i] - c[i - 1] < WINDOW_SECONDS
    ensures Chain(c) >= k
  {
    if k > 1 {
      ChainAtLeast(c[..|c| - 1], k - 1);
    }
  }

  /** Six checks in a row cannot all follow each other within the window. */
  lemma SpacedSpread(c: seq<real>, i: nat)
    requires Clock(c) && Spaced(c) && i + MAX_FAILURES < |c|
    ensures c[i + MAX_FAILURES] - c[i] >= WINDOW_SECONDS
  {
    var n := i + MAX_FAILURES + 1;
    var front := c[..n];
    assert SpacedAt(c, n);
    if c[i + MAX_FAILURES] - c[i] < WINDOW_SECONDS {
      forall j | i < j < n
        ensures front[j] - front[j - 1] < WINDOW_SECONDS
      {
        assert c[i] <= c[j - 1] && c[j] <= c[i + MAX_FAILURES];
      }
      ChainAtLeast(front, MAX_FAILURES + 1);
    }
  }

  /** At most five wrong attempts are checked in any span shorter than five minutes. */
  lemma AtMostFiveChecked(ts: seq<real>, i: nat)
    requires Clock(ts) && i + MAX_FAILURES < |After(ts).1|
    ensures After(ts).1[i + MAX_FAILURES] - After(ts).1[i] >= WINDOW_SECONDS
  {
    AfterSpaced(ts);
    AfterCounts(ts);
    SpacedSpread(After(ts).1, i);
  }

  /** A fifth failure in a chain blocks every check for the next fifteen minutes. */
  lemma FifthFailureBlocks(ts: seq<real>, k: nat)
    requires Clock(ts) && 0 < k < |After(ts).1| && Chain(After(ts).1[..k]) == MAX_FAILURES
    ensures After(ts).1[k] - After(ts).1[k - 1] >= LOCKOUT_SECONDS
  {
    AfterSpaced(ts);
    assert SpacedAt(After(ts).1, k);
  }

  /** Five failures in a chain do lock the key, and the lock refuses even the right password. */
  lemma FullChainLocks(ts: seq<real>, now: real, correct: bool)
    requires Clock(ts) && ts != [] && Chain(After(ts).1) == MAX_FAILURES
    requires After(ts).1 != [] ==> After(ts).1[|After(ts).1| - 1] <= now
    requires now < After(ts).1[|After(ts).1| - 1] + LOCKOUT_SECONDS
    ensures Submit(After(ts).0, now, correct).1.Wait?
    ensures Submit(After(ts).0, now, correct).0 == After(ts).0
  {
    AfterCounts(ts);
  }

  /** And the lock ends to the second: at its end any attempt is checked. */
  lemma LockEnds(ts: seq<real>, now: real, correct: bool)
    requires Clock(ts) && After(ts).1 != [] && now >= After(ts).1[|After(ts).1| - 1] + LOCKOUT_SECONDS
    ensures Submit(After(ts).0, now, correct).1 == if correct then Right else Wrong
  {
    AfterCounts(ts);
  }

  /** Waiting the seconds that were answered always ends the lockout. */
  lemma WaitingEndsLockout(row: Option<Row>, now: real, later: real, correct: bool)
    requires Submit(row, now, correct).1.Wait?
    requires later >= now + Submit(row, now, correct).1.seconds as real
    ensures Submit(Submit(row, now, correct).0, later, correct).1 == if correct then Right else Wrong
  {
    var left := row.value.lockedUntil.value - now;
    assert left < (left.Floor + 1) as real;
  }

  /** The answer is never more than a second too long. */
  lemma WaitIsTight(row: Option<Row>, now: real)
    requires IsLocked(row, now)
    ensures IsLocked(row, now + (WaitSeconds(row, now) - 1) as real)
            || row.value.lockedUntil.value == now + (WaitSeconds(row, now) - 1) as real
  {
  }

  // --- Runs of right and wrong attempts ------------------------------------

  datatype Attempt = Attempt(at: real, correct: bool)

  /** The row after these attempts, from `row` on, and what they were answered. */
  function Answered(row: Option<Row>, attempts: seq<Attempt>): (Option<Row>, seq<Answer>)
    ensures |Answered(row, attempts).1| == |attempts|
    decreases attempts
  {
    if attempts == [] then (row, [])
    else
      var (row', answer) := Submit(row, attempts[0].at, attempts[0].correct);
      var (end, answers) := Answered(row', attempts[1..]);
      (end, [answer] + answers)
  }

  function Answers(attempts: seq<Attempt>): seq<Answer> {
    Answered(None, attempts).1
  }

  /** After a right attempt the ones that follow are answered as on a fresh key. */
  lemma RightStartsAfresh(attempts: seq<Attempt>, i: nat)
    requires i < |attempts| && Answers(attempts)[i] == Right
    ensures Answers(attempts)[i + 1..] == Answers(attempts[i + 1..])
  {
    RightClears(None, attempts, i);
  }

  lemma {:induction false} RightClears(row: Option<Row>, attempts: seq<Attempt>, i: nat)
    requires i < |attempts| && Answered(row, attempts).1[i] == Right
    ensures Answered(row, attempts).1[i + 1..] == Answers(attempts[i + 1..])
    decreases i
  {
    var (row', answer) := Submit(row, attempts[0].at, attempts[0].correct);
    var answers := Answered(row', attempts[1..]).1;
    assert Answered(row, attempts).1 == [answer] + answers;
    if i > 0 {
      RightClears(row', attempts[1..], i - 1);
      assert attempts[1..][i..] == attempts[i + 1..];
      assert ([answer] + answers)[i + 1..] == answers[i..];
    } else {
      assert ([answer] + answers)[1..] == answers;
    }
  }

  /** The wrong attempts that were checked since the last right one. */
  function WrongSince(answers: seq<Answer>): nat {
    if answers == [] then 0
    else
      var n := |answers| - 1;
      if answers[n] == Right then 0
      else WrongSince(answers[..n]) + if answers[n] == Wrong then 1 else 0
  }

  /** A row cannot be ahead of the failures it stands for. */
  predicate Earned(row: Option<Row>, wrong: nat) {
    row.Some? ==>
      && 0 <= row.value.failCount <= wrong
      && (row.value.lockedUntil.Some? ==> wrong >= MAX_FAILURES)
  }

  /** A lockout takes five checked failures since the last right attempt. */
  lemma LockoutIsEarned(attempts: seq<Attempt>, i: nat)
    requires i < |attempts| && Answers(attempts)[i].Wait?
    ensures WrongSince(Answers(attempts)[..i]) >= 5
  {
    EarnedThen(attempts, i);
    var row := Answered(None, attempts[..i]).0;
    AnsweredMore(None, attempts[..i], attempts[i..]);
    assert attempts[..i] + attempts[i..] == attempts;
    var later := Answered(row, attempts[i..]).1;
    assert Answers(attempts) == Answers(attempts[..i]) + later;
    assert later[0] == Answers(attempts)[i] == Submit(row, attempts[i].at, attempts[i].correct).1;
    assert Answers(attempts)[..i] == Answers(attempts[..i]);
  }

  lemma {:induction false} EarnedThen(attempts: seq<Attempt>, i: nat)
    requires i <= |attempts|
    ensures Earned(Answered(None, attempts[..i]).0, WrongSince(Answers(attempts[..i])))
  {
    if i > 0 {
      EarnedThen(attempts, i - 1);
      var front, last := attempts[..i - 1], [attempts[i - 1]];
      assert attempts[..i] == front + last;
      AnsweredMore(None, front, last);
      assert last[1..] == [];
      var answers := Answers(attempts[..i]);
      assert answers[..i - 1] == Answers(front);
    }
  }

  lemma {:induction false} AnsweredMore(row: Option<Row>, a: seq<Attempt>, b: seq<Attempt>)
    ensures var (mid, first) := Answered(row, a); var (end, second) := Answered(mid, b);
      Answered(row, a + b) == (end, first + second)
    decreases a
  {
    if a == [] {
      assert a + b == b;
      assert [] + Answered(row, b).1 == Answered(row, b).1;
    } else {
      var (row', answer) := Submit(row, a[0].at, a[0].correct);
      AnsweredMore(row', a[1..], b);
      assert (a + b)[1..] == a[1..] + b;
      var (mid, first) := Answered(row', a[1..]);
      var second := Answered(mid, b).1;
      assert [answer] + (first + second) == ([answer] + first) + second;
    }
  }
}
