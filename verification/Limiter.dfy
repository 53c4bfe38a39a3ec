/** The login rate limiter: garbage-collected buckets per source address, against the
    simple reading of each address's own attempts. Times are nanoseconds. */
module Limiter {
  import opened Prelude

  const SECOND := 1_000_000_000
  const WINDOW := 60 * SECOND
  const BLOCK := 300 * SECOND
  const MAX_AGE := 600 * SECOND
  const LIMIT := 10

  /** `None` is the zero time: before every attempt, by more than any duration. */
  datatype Bucket = Bucket(attempts: nat, windowStart: Option<int>, blockedUntil: Option<int>)

  const FRESH := Bucket(0, None, None)

  predicate Blocked(b: Bucket, now: int) {
    b.blockedUntil.Some? && now < b.blockedUntil.value
  }

  /** The attempt starts a new window. */
  predicate Opens(b: Bucket, now: int) {
    !Blocked(b, now) && (b.windowStart.Some? ==> now - b.windowStart.value > WINDOW)
  }

  predicate Allows(b: Bucket, now: int) {
    Opens(b, now) || (!Blocked(b, now) && b.attempts + 1 <= LIMIT)
  }

  function Attempted(b: Bucket, now: int): Bucket {
    if Blocked(b, now) then b
    else if Opens(b, now) then Bucket(1, Some(now), None)
    else
      Bucket(b.attempts + 1, b.windowStart, if b.attempts + 1 > LIMIT then Some(now + BLOCK) else b.blockedUntil)
  }

  /** What the sweep may drop. */
  predicate Stale(b: Bucket, now: int) {
    && (b.windowStart.Some? ==> now - b.windowStart.value > MAX_AGE)
    && (b.blockedUntil.Some? ==> now > b.blockedUntil.value)
  }

  type Buckets = map<string, Bucket>

  function Lookup(m: Buckets, ip: string): Bucket {
    if ip in m then m[ip] else FRESH
  }

  function Swept(m: Buckets, now: int): Buckets {
    map ip | ip in m && !Stale(m[ip], now) :: m[ip]
  }

  class LoginRateLimiter {
    var buckets: Buckets

    constructor ()
      ensures buckets == map[]
    {
      buckets := map[];
    }

    method Allow(ip: string, now: int) returns (allowed: bool)
      modifies this
      ensures allowed == Allows(Lookup(old(buckets), ip), now)
      ensures buckets == old(buckets)[ip := Attempted(Lookup(old(buckets), ip), now)]
    {
      if ip !in buckets { buckets := buckets[ip := FRESH]; }
      var bucket := buckets[ip];
      if bucket.blockedUntil.Some? && now < bucket.blockedUntil.value { return false; }
      if bucket.windowStart.None? || now - bucket.windowStart.value > WINDOW {
        buckets := buckets[ip := Bucket(1, Some(now), None)];
        return true;
      }
      bucket := bucket.(attempts := bucket.attempts + 1);
      allowed := bucket.attempts <= LIMIT;
      if !allowed { bucket := bucket.(blockedUntil := Some(now + BLOCK)); }
      buckets := buckets[ip := bucket];
    }

    method Sweep(now: int)
      modifies this
      ensures buckets == Swept(old(buckets), now)
    {
      var ips := buckets.Keys;
      while ips != {}
        invariant ips <= old(buckets).Keys
        invariant buckets.Keys == set ip | ip in old(buckets) && (ip in ips || !Stale(old(buckets)[ip], now))
        invariant forall ip :: ip in buckets ==> buckets[ip] == old(buckets)[ip]
        decreases |ips|
      {
        var ip :| ip in ips;
        ips := ips - {ip};
        if Stale(buckets[ip], now) { buckets := buckets - {ip}; }
      }
    }
  }

  // ---------------------------------------------------------------- traces of the whole limiter

  datatype Event = Attempt(ip: string, now: int) | Sweep(now: int)

  function Run(trace: seq<Event>): Buckets {
    if trace == [] then map[]
    else
      var m := Run(trace[..|trace| - 1]);
      match trace[|trace| - 1]
      case Attempt(ip, now) => m[ip := Attempted(Lookup(m, ip), now)]
      case Sweep(now) => Swept(m, now)
  }

  function Answers(trace: seq<Event>): seq<bool> {
    if trace == [] then []
    else
      var before, e := trace[..|trace| - 1], trace[|trace| - 1];
      if e.Attempt? then Answers(before) + [Allows(Lookup(Run(before), e.ip), e.now)] else Answers(before)
  }

  ghost predicate Ordered(trace: seq<Event>) {
    forall i, j :: 0 <= i < j < |trace| ==> trace[i].now <= trace[j].now
  }

  /** The attempts of one address. */
  function Times(trace: seq<Event>, ip: string): seq<int> {
    if trace == [] then []
    else
      var before, e := trace[..|trace| - 1], trace[|trace| - 1];
      if e.Attempt? && e.ip == ip then Times(before, ip) + [e.now] else Times(before, ip)
  }

  // ---------------------------------------------------------------- one address's own log

  function BucketOf(times: seq<int>): Bucket {
    if times == [] then FRESH else Attempted(BucketOf(times[..|times| - 1]), times[|times| - 1])
  }

  lemma BucketSnoc(times: seq<int>, t: int)
    ensures BucketOf(times + [t]) == Attempted(BucketOf(times), t)
  {
    assert (times + [t])[..|times|] == times;
  }

  ghost predicate Sorted(times: seq<int>) {
    forall i, j :: 0 <= i < j < |times| ==> times[i] <= times[j]
  }

  /** The limiter's bucket is the one its address's own attempts produce, or both mean "fresh". */
  ghost predicate Agrees(m: Buckets, ip: string, b: Bucket, now: int) {
    if ip in m then m[ip] == b else b == FRESH || Stale(b, now)
  }

  lemma StaleIsFresh(b: Bucket, since: int, now: int)
    requires Stale(b, since) && since <= now
    ensures Stale(b, now) && Opens(b, now) && Attempted(b, now) == Attempted(FRESH, now)
  {
  }

  lemma {:induction false} RunAgrees(trace: seq<Event>, ip: string)
    requires Ordered(trace)
    ensures trace != [] ==> Agrees(Run(trace), ip, BucketOf(Times(trace, ip)), trace[|trace| - 1].now)
  {
    if trace != [] {
      var before, e := trace[..|trace| - 1], trace[|trace| - 1];
      RunAgrees(before, ip);
      var m, own := Run(before), Times(before, ip);
      if before != [] { assert before[|before| - 1].now <= e.now; }
      if ip !in m && before != [] && BucketOf(own) != FRESH {
        StaleIsFresh(BucketOf(own), before[|before| - 1].now, e.now);
      }
      BucketSnoc(own, e.now);
    }
  }

  /** Each answer is decided by the address's own attempts: neither other addresses nor any
      number of sweeps, anywhere, can change it. */
  lemma AnswerDependsOnOwnAttempts(trace: seq<Event>, ip: string, now: int)
    requires Ordered(trace + [Attempt(ip, now)])
    ensures var b, own := Lookup(Run(trace), ip), BucketOf(Times(trace, ip));
            && Allows(b, now) == Allows(own, now)
            && Opens(b, now) == Opens(own, now) && Blocked(b, now) == Blocked(own, now)
  {
    var all := trace + [Attempt(ip, now)];
    assert trace == all[..|trace|];
    assert trace != [] ==> all[|trace| - 1].now <= all[|trace|].now;
    RunAgrees(trace, ip);
    if trace != [] && ip !in Run(trace) && BucketOf(Times(trace, ip)) != FRESH {
      StaleIsFresh(BucketOf(Times(trace, ip)), trace[|trace| - 1].now, now);
    }
  }

  function AttemptsOnly(trace: seq<Event>): seq<Event> {
    if trace == [] then []
    else
      var before, e := trace[..|trace| - 1], trace[|trace| - 1];
      if e.Attempt? then AttemptsOnly(before) + [e] else AttemptsOnly(before)
  }

  lemma SnocRuns(trace: seq<Event>, e: Event, ip: string)
    ensures Times(trace + [e], ip) == if e.Attempt? && e.ip == ip then Times(trace, ip) + [e.now] else Times(trace, ip)
    ensures Answers(trace + [e]) ==
            if e.Attempt? then Answers(trace) + [Allows(Lookup(Run(trace), e.ip), e.now)] else Answers(trace)
  {
    assert (trace + [e])[..|trace|] == trace;
  }

  lemma {:induction false} AttemptsOnlyKeeps(trace: seq<Event>, ip: string)
    requires Ordered(trace)
    ensures Times(AttemptsOnly(trace), ip) == Times(trace, ip)
    ensures Ordered(AttemptsOnly(trace))
    ensures forall e :: e in AttemptsOnly(trace) ==> e in trace
  {
    if trace != [] {
      var before, e := trace[..|trace| - 1], trace[|trace| - 1];
      AttemptsOnlyKeeps(before, ip);
      var kept := AttemptsOnly(before);
      SnocRuns(kept, e, ip);
      forall x | x in kept ensures x.now <= e.now { assert x in before; }
    }
  }

  /** Garbage collection is unobservable: dropping all sweeps from a trace leaves every answer. */
  lemma {:induction false} SweepsUnobservable(trace: seq<Event>)
    requires Ordered(trace)
    ensures Answers(trace) == Answers(AttemptsOnly(trace))
  {
    if trace != [] {
      var before, e := trace[..|trace| - 1], trace[|trace| - 1];
      SweepsUnobservable(before);
      if e.Attempt? {
        var kept := AttemptsOnly(before);
        AttemptsOnlyKeeps(trace, e.ip);
        AttemptsOnlyKeeps(before, e.ip);
        SnocRuns(kept, e, e.ip);
        assert trace == before + [e];
        AnswerDependsOnOwnAttempts(before, e.ip, e.now);
        AnswerDependsOnOwnAttempts(kept, e.ip, e.now);
      }
    }
  }

  // ---------------------------------------------------------------- how many, how often

  /** The times of the allowed attempts. */
  function Allowed(times: seq<int>): seq<int> {
    if times == [] then []
    else
      var before, now := times[..|times| - 1], times[|times| - 1];
      if Allows(BucketOf(before), now) then Allowed(before) + [now] else Allowed(before)
  }

  function CountBetween(times: seq<int>, lo: int, hi: int): nat {
    if times == [] then 0
    else CountBetween(times[..|times| - 1], lo, hi) + if lo <= times[|times| - 1] <= hi then 1 else 0
  }

  lemma CountSnoc(times: seq<int>, t: int, lo: int, hi: int)
    ensures CountBetween(times + [t], lo, hi) == CountBetween(times, lo, hi) + if lo <= t <= hi then 1 else 0
  {
    assert (times + [t])[..|times|] == times;
  }

  function Capped(n: nat): nat {
    if n < LIMIT then n else LIMIT
  }

  lemma AllowedSnoc(times: seq<int>, t: int)
    ensures Allowed(times + [t]) == if Allows(BucketOf(times), t) then Allowed(times) + [t] else Allowed(times)
  {
    assert (times + [t])[..|times|] == times;
  }

  lemma PrefixStep(times: seq<int>, n: nat)
    requires n < |times|
    ensures BucketOf(times[..n + 1]) == Attempted(BucketOf(times[..n]), times[n])
    ensures |Allowed(times[..n + 1])| == |Allowed(times[..n])| + if Allows(BucketOf(times[..n]), times[n]) then 1 else 0
  {
    assert times[..n + 1] == times[..n] + [times[n]];
    BucketSnoc(times[..n], times[n]);
    AllowedSnoc(times[..n], times[n]);
  }

  lemma PrefixCount(times: seq<int>, n: nat, lo: int, hi: int)
    requires n < |times|
    ensures CountBetween(Allowed(times[..n + 1]), lo, hi) == CountBetween(Allowed(times[..n]), lo, hi)
            + if Allows(BucketOf(times[..n]), times[n]) && lo <= times[n] <= hi then 1 else 0
  {
    assert times[..n + 1] == times[..n] + [times[n]];
    AllowedSnoc(times[..n], times[n]);
    CountSnoc(Allowed(times[..n]), times[n], lo, hi);
  }

  /** What the bucket says about the `n` attempts allowed so far between lo and lo + WINDOW. */
  ghost predicate Tallied(b: Bucket, n: nat, lo: int, last: int) {
    && b.windowStart.Some? && b.windowStart.value <= last && b.attempts >= 1
    && var start := b.windowStart.value;
       && (last < lo ==> n == 0)
       && (start < lo ==> n <= Capped(b.attempts) - 1)
       && (lo <= start <= lo + WINDOW ==> n <= 9 + Capped(b.attempts))
       && (lo + WINDOW < start ==> n <= 19)
  }

  lemma TallyStep(b: Bucket, n: nat, lo: int, last: int, now: int)
    requires last <= now && (Tallied(b, n, lo, last) || (b == FRESH && n == 0))
    ensures Tallied(Attempted(b, now), if Allows(b, now) && lo <= now <= lo + WINDOW then n + 1 else n, lo, now)
  {
  }

  lemma {:induction false} AllowedSoFar(times: seq<int>, lo: int)
    requires Sorted(times)
    ensures var b, n := BucketOf(times), CountBetween(Allowed(times), lo, lo + WINDOW);
            if times == [] then b == FRESH && n == 0 else Tallied(b, n, lo, times[|times| - 1])
  {
    if times != [] {
      var before, now := times[..|times| - 1], times[|times| - 1];
      AllowedSoFar(before, lo);
      assert before != [] ==> before[|before| - 1] <= now;
      assert times == before + [now];
      AllowedSnoc(before, now);
      CountSnoc(Allowed(before), now, lo, lo + WINDOW);
      TallyStep(BucketOf(before), CountBetween(Allowed(before), lo, lo + WINDOW), lo,
                if before == [] then now else before[|before| - 1], now);
    }
  }

  /** A bucket in the window opened at `start`, after `total` attempts in that window. */
  ghost predicate InWindow(b: Bucket, start: int, total: nat) {
    && b.windowStart == Some(start) && b.attempts >= 1 && Capped(b.attempts) == Capped(total)
    && (b.blockedUntil.Some? ==> b.attempts > LIMIT && b.blockedUntil.value >= start + BLOCK)
  }

  lemma WindowStep(b: Bucket, start: int, total: nat, now: int)
    requires start <= now <= start + WINDOW
    requires (Opens(b, start) && now == start && total == 0) || InWindow(b, start, total)
    ensures InWindow(Attempted(b, now), start, total + 1)
    ensures Allows(b, now) <==> total < LIMIT
  {
  }

  /** Inside the window that attempt i opened, exactly the first ten attempts are allowed. */
  lemma {:induction false} WindowExact(times: seq<int>, i: nat, n: nat)
    requires i < n <= |times| && Opens(BucketOf(times[..i]), times[i])
    requires forall k :: i <= k < n ==> times[i] <= times[k] <= times[i] + WINDOW
    ensures InWindow(BucketOf(times[..n]), times[i], n - i)
    ensures |Allowed(times[..n])| - |Allowed(times[..i])| == Capped(n - i)
    decreases n
  {
    if n > i + 1 { WindowExact(times, i, n - 1); }
    PrefixStep(times, n - 1);
    WindowStep(BucketOf(times[..n - 1]), times[i], n - 1 - i, times[n - 1]);
  }

  lemma WindowToEnd(times: seq<int>, i: nat)
    requires Sorted(times) && i < |times| && Opens(BucketOf(times[..i]), times[i])
    requires times[|times| - 1] <= times[i] + WINDOW
    ensures |Allowed(times)| - |Allowed(times[..i])| == Capped(|times[i..]|)
  {
    WindowExact(times, i, |times|);
    assert times[..|times|] == times;
  }

  // ---------------------------------------------------------------- exactly when a minute exceeds ten

  /** Attempt j opens a window in (lo, lo + WINDOW]. */
  predicate OpensInside(times: seq<int>, lo: int, j: nat)
    requires j < |times|
  {
    Opens(BucketOf(times[..j]), times[j]) && lo < times[j] <= lo + WINDOW
  }

  lemma {:induction false} CountAll(times: seq<int>, lo: int, hi: int)
    requires forall k :: 0 <= k < |times| ==> lo <= times[k] <= hi
    ensures CountBetween(times, lo, hi) == |times|
  {
    if times != [] { CountAll(times[..|times| - 1], lo, hi); }
  }

  /** Attempt n, still inside the minute: the ones since the opening all count, and ten of them are allowed. */
  lemma InsideStep(times: seq<int>, lo: int, j: nat, n: nat)
    requires Sorted(times) && j < n < |times| && OpensInside(times, lo, j) && times[n] <= lo + WINDOW
    ensures CountBetween(times[j..n], lo, lo + WINDOW) == n - j
    ensures Allows(BucketOf(times[..n]), times[n]) <==> n - j < LIMIT
  {
    WindowExact(times, j, n);
    WindowStep(BucketOf(times[..n]), times[j], n - j, times[n]);
    CountAll(times[j..n], lo, lo + WINDOW);
  }

  /** The attempts allowed in the minute from lo on, of the first n. */
  function AllowedIn(times: seq<int>, n: nat, lo: int): nat
    requires n <= |times|
  {
    CountBetween(Allowed(times[..n]), lo, lo + WINDOW)
  }

  /** The attempts j .. n - 1 in the minute from lo on. */
  function SeenIn(times: seq<int>, j: nat, n: nat, lo: int): nat
    requires j <= n <= |times|
  {
    CountBetween(times[j..n], lo, lo + WINDOW)
  }

  lemma SeenStep(times: seq<int>, j: nat, n: nat, lo: int)
    requires j <= n < |times|
    ensures SeenIn(times, j, n + 1, lo) == SeenIn(times, j, n, lo) + if lo <= times[n] <= lo + WINDOW then 1 else 0
    ensures SeenIn(times, j, j, lo) == 0
  {
    assert times[j..n + 1] == times[j..n] + [times[n]];
    CountSnoc(times[j..n], times[n], lo, lo + WINDOW);
  }

  lemma MinuteStep(times: seq<int>, lo: int, j: nat, n: nat)
    requires Sorted(times) && j <= n < |times| && OpensInside(times, lo, j)
    ensures AllowedIn(times, n + 1, lo) - AllowedIn(times, n, lo)
            == Capped(SeenIn(times, j, n + 1, lo)) - Capped(SeenIn(times, j, n, lo))
  {
    PrefixCount(times, n, lo, lo + WINDOW);
    SeenStep(times, j, n, lo);
    if j < n && times[n] <= lo + WINDOW { InsideStep(times, lo, j, n); }
  }

  /** After an opening in (lo, lo + WINDOW] the minute allows the first ten of its attempts from there on. */
  lemma {:induction false} OpenedMinute(times: seq<int>, lo: int, j: nat, n: nat)
    requires Sorted(times) && j < n <= |times| && OpensInside(times, lo, j)
    ensures AllowedIn(times, n, lo) == AllowedIn(times, j, lo) + Capped(SeenIn(times, j, n, lo))
    decreases n
  {
    MinuteStep(times, lo, j, n - 1);
    if n == j + 1 { SeenStep(times, j, j, lo); } else { OpenedMinute(times, lo, j, n - 1); }
  }

  /** `n` attempts have been allowed between lo and lo + WINDOW and no window opened in (lo, lo + WINDOW]. */
  ghost predicate Calm(b: Bucket, n: nat, lo: int, last: int) {
    && b.windowStart.Some? && b.windowStart.value <= last && !Opens(b, last)
    && (last < lo ==> n == 0) && n <= LIMIT
    && (b.windowStart.value <= lo ==> n <= Capped(b.attempts))
    && !(lo < b.windowStart.value <= lo + WINDOW)
  }

  lemma CalmStep(b: Bucket, n: nat, lo: int, last: int, now: int)
    requires last <= now && (Calm(b, n, lo, last) || (b == FRESH && n == 0))
    requires !(Opens(b, now) && lo < now <= lo + WINDOW)
    ensures Calm(Attempted(b, now), if Allows(b, now) && lo <= now <= lo + WINDOW then n + 1 else n, lo, now)
  {
  }

  ghost predicate CalmAfter(times: seq<int>, lo: int, n: nat)
    requires n <= |times|
  {
    var b, allowed := BucketOf(times[..n]), AllowedIn(times, n, lo);
    if n == 0 then b == FRESH && allowed == 0 else Calm(b, allowed, lo, times[n - 1])
  }

  lemma CalmNext(times: seq<int>, lo: int, n: nat)
    requires n < |times| && CalmAfter(times, lo, n) && !OpensInside(times, lo, n)
    requires n > 0 ==> times[n - 1] <= times[n]
    ensures CalmAfter(times, lo, n + 1)
  {
    PrefixStep(times, n);
    PrefixCount(times, n, lo, lo + WINDOW);
    CalmStep(BucketOf(times[..n]), AllowedIn(times, n, lo), lo, if n == 0 then times[n] else times[n - 1], times[n]);
  }

  lemma {:induction false} CalmMinute(times: seq<int>, lo: int, n: nat)
    requires Sorted(times) && n <= |times| && forall j :: 0 <= j < n ==> !OpensInside(times, lo, j)
    ensures CalmAfter(times, lo, n)
  {
    if n > 0 {
      CalmMinute(times, lo, n - 1);
      CalmNext(times, lo, n - 1);
    }
  }

  /** Attempt j opens a window inside the minute, and the attempts of the minute from j on, together
      with those allowed before, make more than ten. */
  predicate Overfills(times: seq<int>, lo: int, j: nat)
    requires j < |times|
  {
    OpensInside(times, lo, j) && AllowedIn(times, j, lo) + Capped(SeenIn(times, j, |times|, lo)) > LIMIT
  }

  lemma OverfillsMeans(times: seq<int>, lo: int, j: nat)
    requires j < |times|
    ensures Overfills(times, lo, j) <==>
            && OpensInside(times, lo, j)
            && CountBetween(Allowed(times[..j]), lo, lo + WINDOW)
               + Capped(CountBetween(times[j..], lo, lo + WINDOW)) > LIMIT
  {
    assert times[j..|times|] == times[j..];
  }

  lemma MoreThanTenIff(times: seq<int>, lo: int)
    requires Sorted(times)
    ensures AllowedIn(times, |times|, lo) > LIMIT <==> exists j :: 0 <= j < |times| && Overfills(times, lo, j)
  {
    var n := |times|;
    forall j | 0 <= j < n && OpensInside(times, lo, j)
      ensures Overfills(times, lo, j) <==> AllowedIn(times, n, lo) > LIMIT
    {
      OpenedMinute(times, lo, j, n);
    }
    if forall j :: 0 <= j < n ==> !OpensInside(times, lo, j) { CalmMinute(times, lo, n); }
  }

  // ---------------------------------------------------------------- blocks

  /** Attempt i is refused and sets the block. */
  predicate SetsBlock(times: seq<int>, i: nat)
    requires i < |times|
  {
    var b := BucketOf(times[..i]);
    !Blocked(b, times[i]) && !Allows(b, times[i])
  }

  lemma {:induction false} BlockHolds(times: seq<int>, i: nat, n: nat)
    requires Sorted(times) && i < n <= |times| && SetsBlock(times, i)
    requires times[n - 1] < times[i] + BLOCK
    ensures BucketOf(times[..n]) == BucketOf(times[..i + 1])
    ensures var b := BucketOf(times[..n]);
            b.blockedUntil == Some(times[i] + BLOCK) && b.windowStart.Some? && b.windowStart.value <= times[i]
    decreases n
  {
    assert times[..n][..n - 1] == times[..n - 1];
    if n > i + 1 {
      BlockHolds(times, i, n - 1);
    } else {
      AllowedSoFar(times[..i], 0);
    }
  }

  /** A block set at t refuses every attempt in [t, t + 5 min) and lets the first one from t + 5 min on through. */
  lemma BlockExactInLog(times: seq<int>, i: nat, n: nat)
    requires Sorted(times) && i < n < |times| && SetsBlock(times, i)
    requires times[n - 1] < times[i] + BLOCK
    ensures Allows(BucketOf(times[..n]), times[n]) <==> times[n] >= times[i] + BLOCK
  {
    BlockHolds(times, i, n);
  }

  /** A bucket's times come from its address's attempts. */
  lemma {:induction false} BucketTimes(times: seq<int>)
    ensures var b := BucketOf(times);
            && (b.windowStart.Some? ==> b.windowStart.value in times)
            && (b.blockedUntil.Some? ==> b.blockedUntil.value - BLOCK in times)
  {
    if times != [] {
      var before := times[..|times| - 1];
      BucketTimes(before);
      assert forall t :: t in before ==> t in times;
    }
  }

  lemma QuietOpens(times: seq<int>, now: int)
    requires forall t :: t in times ==> now - t >= BLOCK
    ensures Opens(BucketOf(times), now) && Allows(BucketOf(times), now)
  {
    BucketTimes(times);
  }

  lemma {:induction false} AttemptStarts(times: seq<int>)
    requires times != []
    ensures BucketOf(times).windowStart.Some?
  {
    if |times| > 1 { AttemptStarts(times[..|times| - 1]); }
  }

  // ---------------------------------------------------------------- the bound 19 is attained

  function Repeat(t: int, n: nat): seq<int> {
    seq(n, _ => t)
  }

  lemma RepeatSnoc(times: seq<int>, t: int, n: nat)
    ensures times + Repeat(t, n + 1) == (times + Repeat(t, n)) + [t] && times + Repeat(t, 0) == times
  {
    assert Repeat(t, n + 1) == Repeat(t, n) + [t];
  }

  lemma RepeatStep(times: seq<int>, t: int, n: nat)
    ensures var before, after := times + Repeat(t, n), times + Repeat(t, n + 1);
            && BucketOf(after) == Attempted(BucketOf(before), t)
            && Allowed(after) == if Allows(BucketOf(before), t) then Allowed(before) + [t] else Allowed(before)
  {
    RepeatSnoc(times, t, n);
    BucketSnoc(times + Repeat(t, n), t);
    AllowedSnoc(times + Repeat(t, n), t);
  }

  /** The bucket has an open, unblocked window at t, with room for n more attempts. */
  predicate HasRoom(b: Bucket, t: int, n: nat) {
    b.windowStart.Some? && b.blockedUntil.None? && t - b.windowStart.value <= WINDOW && b.attempts + n <= LIMIT
  }

  lemma {:induction false} RepeatBucket(times: seq<int>, t: int, n: nat)
    requires HasRoom(BucketOf(times), t, n)
    ensures BucketOf(times + Repeat(t, n)) == BucketOf(times).(attempts := BucketOf(times).attempts + n)
  {
    if n == 0 {
      RepeatSnoc(times, t, 0);
    } else {
      RepeatBucket(times, t, n - 1);
      RepeatStep(times, t, n - 1);
    }
  }

  /** Attempts inside an open, unblocked window are allowed up to the tenth. */
  lemma {:induction false} RepeatAllowed(times: seq<int>, t: int, n: nat)
    requires HasRoom(BucketOf(times), t, n)
    ensures Allowed(times + Repeat(t, n)) == Allowed(times) + Repeat(t, n)
  {
    if n == 0 {
      RepeatSnoc(times, t, 0);
      RepeatSnoc(Allowed(times), t, 0);
    } else {
      RepeatAllowed(times, t, n - 1);
      RepeatBucket(times, t, n - 1);
      RepeatStep(times, t, n - 1);
      RepeatSnoc(Allowed(times), t, n - 1);
    }
  }

  lemma OpeningAllowed(times: seq<int>, t: int)
    requires Opens(BucketOf(times), t)
    ensures BucketOf(times + [t]) == Bucket(1, Some(t), None) && Allowed(times + [t]) == Allowed(times) + [t]
  {
    assert (times + [t])[..|times|] == times;
  }

  lemma {:induction false} CountRepeat(times: seq<int>, t: int, n: nat, lo: int, hi: int)
    requires lo <= t <= hi
    ensures CountBetween(times + Repeat(t, n), lo, hi) == CountBetween(times, lo, hi) + n
  {
    if n == 0 {
      RepeatSnoc(times, t, 0);
    } else {
      CountRepeat(times, t, n - 1, lo, hi);
      RepeatSnoc(times, t, n - 1);
      CountSnoc(times + Repeat(t, n - 1), t, lo, hi);
    }
  }

  /** One attempt at 0, nine at the window's last instant, ten just after it: nineteen allowed
      attempts within one nanosecond of each other. */
  lemma NineteenInLog()
    ensures var times := [0] + Repeat(WINDOW, 9) + [WINDOW + 1] + Repeat(WINDOW + 1, 9);
            Sorted(times) && CountBetween(Allowed(times), WINDOW, 2 * WINDOW) == 19
  {
    var first := [0] + Repeat(WINDOW, 9);
    assert [] + [0] == [0] && Allowed([]) == [];
    OpeningAllowed([], 0);
    RepeatBucket([0], WINDOW, 9);
    RepeatAllowed([0], WINDOW, 9);
    OpeningAllowed(first, WINDOW + 1);
    RepeatAllowed(first + [WINDOW + 1], WINDOW + 1, 9);
    CountRepeat([0], WINDOW, 9, WINDOW, 2 * WINDOW);
    assert [WINDOW + 1] == Repeat(WINDOW + 1, 1);
    CountRepeat(first, WINDOW + 1, 1, WINDOW, 2 * WINDOW);
    CountRepeat(first + [WINDOW + 1], WINDOW + 1, 9, WINDOW, 2 * WINDOW);
  }
}
