/**
 When tokens are asked for: the polling of the device code flow, and the sleeps
 between refreshes that keep a token alive. Times are in nanoseconds.
 */
module TokenTiming {
  import opened Seqs

  const SECOND: int := 1_000_000_000

  function Seconds(n: int): int {
    n * 1_000_000_000
  }

  /** How one poll of the grant endpoint ends. */
  datatype Grant = Granted | OAuthError(error: string) | StatusError(code: nat) | OtherError

  /** The standard answer to slow down, and the one GitHub gives. */
  predicate AsksToSlowDown(g: Grant) {
    (g.OAuthError? && g.error == "slow_down") || (g.StatusError? && g.code == 429)
  }

  lemma SlowDownByValue(g: Grant)
    ensures AsksToSlowDown(g) <==> g == OAuthError("slow_down") || g == StatusError(429)
  {
  }

  /** How many of the first `n` answers asked to slow down. */
  function Slowed(grants: nat -> Grant, n: nat): nat {
    if n == 0 then 0 else Slowed(grants, n - 1) + if AsksToSlowDown(grants(n - 1)) then 1 else 0
  }

  /** The seconds slept before the first `n` polls, by section 3.5 of RFC 8628: five
      seconds each, and five more after every answer asking to slow down. */
  function Waited(grants: nat -> Grant, n: nat): nat {
    if n == 0 then 0 else Waited(grants, n - 1) + 5 + 5 * Slowed(grants, n - 1)
  }

  /** The sleeps before the first `n` polls. */
  function Intervals(grants: nat -> Grant, n: nat): seq<nat> {
    if n == 0 then [] else Intervals(grants, n - 1) + [5 + 5 * Slowed(grants, n - 1)]
  }

  predicate NoneGranted(grants: nat -> Grant, n: nat) {
    n == 0 || (NoneGranted(grants, n - 1) && !grants(n - 1).Granted?)
  }

  /** Where polling stands after the first `n` polls, none of them granted. */
  predicate Polled(grants: nat -> Grant, n: nat, expiresIn: int, interval: nat, elapsed: int) {
    && interval == 5 + 5 * Slowed(grants, n) && NoneGranted(grants, n)
    && elapsed >= Seconds(Waited(grants, n))
    && (n > 0 ==> Waited(grants, n - 1) < expiresIn)
  }

  /** How polling ends after `n` polls: with the first grant, or when the code has expired;
      all polls but the last, with the sleeps before them, fit in its life. */
  predicate EndsAfter(grants: nat -> Grant, n: nat, expiresIn: int, granted: bool, elapsed: int) {
    && (granted ==> n > 0 && grants(n - 1).Granted? && NoneGranted(grants, n - 1))
    && (!granted ==> NoneGranted(grants, n) && elapsed >= Seconds(expiresIn))
    && elapsed >= Seconds(Waited(grants, n))
    && (n > 0 ==> Waited(grants, n - 1) < expiresIn)
  }

  lemma OnePollMore(grants: nat -> Grant, n: nat)
    ensures Waited(grants, n + 1) == Waited(grants, n) + 5 + 5 * Slowed(grants, n)
    ensures Slowed(grants, n + 1) == Slowed(grants, n) + if AsksToSlowDown(grants(n)) then 1 else 0
    ensures Intervals(grants, n + 1) == Intervals(grants, n) + [5 + 5 * Slowed(grants, n)]
    ensures NoneGranted(grants, n + 1) <==> NoneGranted(grants, n) && !grants(n).Granted?
  {
  }

  lemma LaterBy(elapsed: int, waited: nat, interval: nat, late: nat)
    requires elapsed >= Seconds(waited)
    ensures elapsed + Seconds(interval) + late >= Seconds(waited + interval)
    ensures interval > 0 ==> elapsed < elapsed + Seconds(interval) + late
  {
  }

  lemma StillAlive(elapsed: int, expiresIn: int, waited: nat)
    requires Seconds(waited) <= elapsed < Seconds(expiresIn)
    ensures waited < expiresIn
  {
  }

  lemma NextPoll(grants: nat -> Grant, n: nat, expiresIn: int, interval: nat, elapsed: int, late: nat)
    requires Polled(grants, n, expiresIn, interval, elapsed) && elapsed < Seconds(expiresIn)
    ensures var elapsed' := elapsed + Seconds(interval) + late;
            && elapsed < elapsed'
            && if grants(n).Granted? then EndsAfter(grants, n + 1, expiresIn, true, elapsed')
               else Polled(grants, n + 1, expiresIn, interval + (if AsksToSlowDown(grants(n)) then 5 else 0), elapsed')
  {
    OnePollMore(grants, n);
    StillAlive(elapsed, expiresIn, Waited(grants, n));
    LaterBy(elapsed, Waited(grants, n), interval, late);
  }

  /** Polling within the life of one device code. The grant endpoint answers poll `i`
      with `grants(i)`; oversleeping and the request take `late(i)`. */
  method PollForToken(start: int, expiresIn: int, grants: nat -> Grant, late: nat -> nat)
    returns (granted: bool, intervals: seq<nat>, end: int)
    ensures intervals == Intervals(grants, |intervals|)
    ensures EndsAfter(grants, |intervals|, expiresIn, granted, end - start)
  {
    var now, expiresAt := start, start + Seconds(expiresIn);
    var interval := 5;
    intervals := [];
    var polls := 0;
    while now < expiresAt
      invariant Polled(grants, polls, expiresIn, interval, now - start)
      invariant |intervals| == polls && intervals == Intervals(grants, polls)
      decreases expiresAt - now
    {
      NextPoll(grants, polls, expiresIn, interval, now - start, late(polls));
      OnePollMore(grants, polls);
      now := now + Seconds(interval) + late(polls);
      intervals := intervals + [interval];
      var answer := grants(polls);
      polls := polls + 1;
      if answer.Granted? {
        return true, intervals, now;
      }
      if AsksToSlowDown(answer) {
        interval := interval + 5;
      }
    }
    return false, intervals, now;
  }

  /** Polls are at least five seconds apart, so few fit in the life of a code. */
  lemma {:induction false} PollsAreBounded(grants: nat -> Grant, n: nat, expiresIn: int)
    requires n > 0 && Waited(grants, n - 1) < expiresIn
    ensures 5 * (n - 1) < expiresIn
    ensures n <= (expiresIn + 4) / 5
  {
    WaitedAtLeast(grants, n - 1);
  }

  lemma {:induction false} WaitedAtLeast(grants: nat -> Grant, n: nat)
    ensures 5 * n <= Waited(grants, n)
  {
    if n > 0 {
      WaitedAtLeast(grants, n - 1);
    }
  }

  /** A server that keeps asking to slow down makes the waits grow with the square of
      the number of polls. */
  lemma {:induction false} WaitsGrow(grants: nat -> Grant, n: nat)
    requires forall i: nat :: i < n ==> AsksToSlowDown(grants(i))
    ensures Slowed(grants, n) == n
    ensures 2 * Waited(grants, n) == 5 * n * (n + 1)
  {
    if n > 0 {
      WaitsGrow(grants, n - 1);
      OneMore(n);
    }
  }

  /** Without such an answer they stay five seconds. */
  lemma {:induction false} WaitsStay(grants: nat -> Grant, n: nat)
    requires forall i: nat :: i < n ==> grants(i) != OAuthError("slow_down") && grants(i) != StatusError(429)
    ensures Slowed(grants, n) == 0 && Waited(grants, n) == 5 * n
    ensures |Intervals(grants, n)| == n && forall i :: 0 <= i < n ==> Intervals(grants, n)[i] == 5
  {
    if n > 0 {
      WaitsStay(grants, n - 1);
      SlowDownByValue(grants(n - 1));
    }
  }

  lemma OneMore(n: nat)
    requires n > 0
    ensures 5 * n * (n + 1) == 5 * (n - 1) * (n - 1 + 1) + 10 * n
  {
  }

  const MIN_REFRESH: int := 10 * SECOND
  const DEFAULT_REFRESH: int := 60 * 60 * SECOND

  /** Division that truncates toward zero. */
  function Truncated(a: int, b: int): int
    requires b > 0
  {
    if a >= 0 then a / b else -(-a / b)
  }

  /** How long to sleep before the next refresh. */
  function SleepTime(lastDidError: bool, expiresAt: Option<int>, now: int): int {
    var sleepTime :=
      if lastDidError then MIN_REFRESH else
      match expiresAt
      case None => DEFAULT_REFRESH
      case Some(d) =>
        var nanos := Truncated((d - now) * 2, 3);
        var seconds := Truncated(nanos, SECOND);
        var scaled := seconds * SECOND + (nanos - seconds * SECOND);
        if scaled < 0 then MIN_REFRESH else scaled;
    if sleepTime < MIN_REFRESH then MIN_REFRESH else sleepTime
  }

  /** Ten seconds after an error; an hour if the token does not expire; else two thirds of its
      life, in whole nanoseconds, but never less than ten seconds. */
  lemma SleepByValue(expiresAt: Option<int>, now: int)
    ensures SleepTime(true, expiresAt, now) == 10_000_000_000
    ensures SleepTime(false, None, now) == 3_600_000_000_000
    ensures expiresAt.Some? ==>
              var left := expiresAt.value - now;
              SleepTime(false, expiresAt, now) == if left < 15_000_000_000 then 10_000_000_000 else 2 * left / 3
  {
  }

  /** Never less than ten seconds; and after a refresh that worked, the token outlives
      the sleep exactly when it has ten seconds left. With fifteen or more, a third
      of its life is left to refresh it in. */
  lemma SleepFitsIff(expiresAt: int, now: int, lastDidError: bool)
    ensures SleepTime(lastDidError, Some(expiresAt), now) >= MIN_REFRESH
    ensures SleepTime(false, Some(expiresAt), now) <= expiresAt - now <==> expiresAt - now >= MIN_REFRESH
    ensures expiresAt - now >= 15 * SECOND ==>
              2 * (expiresAt - now) - 3 < 3 * SleepTime(false, Some(expiresAt), now) <= 2 * (expiresAt - now)
  {
  }

  datatype Refresh = Refreshed(expiresAt: Option<int>) | Unchanged | ClientError(code: nat) | NoRefreshToken | Failed
  datatype End = Dead(code: nat) | Quit | Listening

  predicate Ends(r: Refresh) {
    (r.ClientError? && 400 <= r.code < 500) || r.NoRefreshToken?
  }

  predicate Errs(r: Refresh) {
    r.Failed? || (r.ClientError? && !Ends(r))
  }

  lemma RefreshByValue(r: Refresh)
    ensures Ends(r) <==> r == NoRefreshToken || exists code: nat :: 400 <= code <= 499 && r == ClientError(code)
    ensures Errs(r) <==> r == Failed || exists code: nat :: !(400 <= code <= 499) && r == ClientError(code)
  {
  }

  /** Keeping a token alive through the given refreshes; `clock(i)` is the time at which
      sleep `i` starts. It stops at the first client error or missing refresh token;
      it sleeps the minimum after any other error, and otherwise by the expiry of the
      latest token. */
  method KeepTokenAlive(expiresAt: Option<int>, refreshes: seq<Refresh>, clock: nat -> int)
    returns (sleeps: seq<int>, end: End)
    ensures |sleeps| <= |refreshes|
    ensures end.Listening? ==> |sleeps| == |refreshes|
    ensures forall i :: 0 <= i < |sleeps| ==>
              sleeps[i] == SleepTime(i > 0 && Errs(refreshes[i - 1]), LatestExpiry(expiresAt, refreshes[..i]), clock(i))
    ensures forall i :: 0 <= i < |sleeps| - 1 ==> !Ends(refreshes[i])
    ensures !end.Listening? <==> sleeps != [] && Ends(refreshes[|sleeps| - 1])
    ensures end.Dead? ==> refreshes[|sleeps| - 1] == ClientError(end.code)
    ensures end.Quit? ==> refreshes[|sleeps| - 1] == NoRefreshToken
  {
    sleeps := [];
    var expiry, lastDidError := expiresAt, false;
    for i := 0 to |refreshes|
      invariant |sleeps| == i
      invariant expiry == LatestExpiry(expiresAt, refreshes[..i])
      invariant lastDidError == (i > 0 && Errs(refreshes[i - 1]))
      invariant forall j :: 0 <= j < i ==>
                  sleeps[j] ==
                    SleepTime(j > 0 && Errs(refreshes[j - 1]), LatestExpiry(expiresAt, refreshes[..j]), clock(j))
      invariant forall j :: 0 <= j < i ==> !Ends(refreshes[j])
    {
      sleeps := sleeps + [SleepTime(lastDidError, expiry, clock(i))];
      assert refreshes[..i + 1][..i] == refreshes[..i];
      match refreshes[i]
      case ClientError(code) =>
        if 400 <= code < 500 {
          return sleeps, Dead(code);
        }
        lastDidError := true;
      case NoRefreshToken =>
        return sleeps, Quit;
      case Failed =>
        lastDidError := true;
      case Unchanged =>
        lastDidError := false;
      case Refreshed(d) =>
        lastDidError := false;
        expiry := d;
    }
    end := Listening;
  }

  function LatestExpiry(expiresAt: Option<int>, refreshes: seq<Refresh>): Option<int> {
    if refreshes == [] then expiresAt else
    var last := refreshes[|refreshes| - 1];
    if last.Refreshed? then last.expiresAt else LatestExpiry(expiresAt, refreshes[..|refreshes| - 1])
  }
}
