/** What the login limiter promises over every run: any number of addresses, sweeps anywhere. */
module LimiterTheorems {
  import opened Limiter

  /** The promised durations, in nanoseconds. */
  const MINUTE := 60_000_000_000
  const FIVE_MINUTES := 300_000_000_000
  const TEN_MINUTES := 600_000_000_000

  /** Step i of the run is an attempt of this address. */
  predicate By(trace: seq<Event>, i: nat, ip: string)
    requires i < |trace|
  {
    trace[i].Attempt? && trace[i].ip == ip
  }

  /** The limiter's bucket for an address before step i. */
  function BucketAt(trace: seq<Event>, i: nat, ip: string): Bucket
    requires i <= |trace|
  {
    Lookup(Run(trace[..i]), ip)
  }

  /** The times of the attempts of one address that the limiter allows. */
  function Admitted(trace: seq<Event>, ip: string): seq<int> {
    if trace == [] then []
    else
      var before, e := trace[..|trace| - 1], trace[|trace| - 1];
      if e.Attempt? && e.ip == ip && Allows(Lookup(Run(before), ip), e.now) then Admitted(before, ip) + [e.now]
      else Admitted(before, ip)
  }

  /** How many of them lie in the closed minute from lo on. */
  function AdmittedIn(trace: seq<Event>, ip: string, lo: int): nat {
    CountBetween(Admitted(trace, ip), lo, lo + MINUTE)
  }

  // ---------------------------------------------------------------- a run and an address's own attempts

  lemma {:induction false} TimesSorted(trace: seq<Event>, ip: string)
    requires Ordered(trace)
    ensures Sorted(Times(trace, ip))
    ensures forall t :: t in Times(trace, ip) ==> t <= trace[|trace| - 1].now
  {
    if trace != [] {
      var before := trace[..|trace| - 1];
      TimesSorted(before, ip);
      forall k | 0 <= k < |Times(before, ip)| ensures Times(before, ip)[k] <= trace[|trace| - 1].now {
        assert Times(before, ip)[k] in Times(before, ip);
        assert before != [] && Times(before, ip)[k] <= before[|before| - 1].now <= trace[|trace| - 1].now;
      }
    }
  }

  lemma {:induction false} AdmittedIsAllowed(trace: seq<Event>, ip: string)
    requires Ordered(trace)
    ensures Admitted(trace, ip) == Allowed(Times(trace, ip))
  {
    if trace != [] {
      var before, e := trace[..|trace| - 1], trace[|trace| - 1];
      AdmittedIsAllowed(before, ip);
      if e.Attempt? && e.ip == ip {
        assert trace == before + [Attempt(ip, e.now)];
        AnswerDependsOnOwnAttempts(before, ip, e.now);
        AllowedSnoc(Times(before, ip), e.now);
      }
    }
  }

  lemma {:induction false} TimesSplit(trace: seq<Event>, i: nat, ip: string)
    requires i <= |trace|
    ensures Times(trace, ip) == Times(trace[..i], ip) + Times(trace[i..], ip)
  {
    if i == |trace| {
      assert trace[..i] == trace;
    } else {
      var before := trace[..|trace| - 1];
      TimesSplit(before, i, ip);
      assert before[..i] == trace[..i] && trace[i..][..|trace| - 1 - i] == before[i..];
    }
  }

  /** An attempt in the run is an attempt in its address's log, with the same past, future and standing. */
  lemma Locate(trace: seq<Event>, i: nat, ip: string) returns (j: nat)
    requires Ordered(trace) && i < |trace| && By(trace, i, ip)
    ensures var times := Times(trace, ip);
            && j < |times| && times[j] == trace[i].now
            && times[..j] == Times(trace[..i], ip) && times[j..] == Times(trace[i..], ip)
    ensures SameStanding(trace, i, ip, j)
  {
    var past := Times(trace[..i], ip);
    j := |past|;
    TimesSplit(trace, i, ip);
    TimesSplit(trace[i..], 1, ip);
    assert trace[i..][..1][..0] == [];
    assert trace[..i + 1] == trace[..i] + [Attempt(ip, trace[i].now)];
    AnswerDependsOnOwnAttempts(trace[..i], ip, trace[i].now);
  }

  ghost predicate SameStanding(trace: seq<Event>, i: nat, ip: string, j: nat) {
    && i < |trace| && j < |Times(trace, ip)|
    && var b, own, now := BucketAt(trace, i, ip), BucketOf(Times(trace, ip)[..j]), trace[i].now;
       Allows(b, now) == Allows(own, now) && Opens(b, now) == Opens(own, now) && Blocked(b, now) == Blocked(own, now)
  }

  lemma {:induction false} Find(trace: seq<Event>, ip: string, j: nat) returns (i: nat)
    requires j < |Times(trace, ip)|
    ensures i < |trace| && By(trace, i, ip) && |Times(trace[..i], ip)| == j
  {
    var before := trace[..|trace| - 1];
    if j < |Times(before, ip)| {
      i := Find(before, ip, j);
      assert before[..i] == trace[..i];
    } else {
      i := |trace| - 1;
    }
  }

  lemma OrderedPrefix(trace: seq<Event>, n: nat)
    requires Ordered(trace) && n <= |trace|
    ensures Ordered(trace[..n])
  {
  }

  // ---------------------------------------------------------------- per window

  /** Once an attempt has opened a window, the limiter allows exactly the first ten attempts of that
      address until the window is over. */
  lemma TenPerWindow(trace: seq<Event>, ip: string, i: nat, n: nat)
    requires Ordered(trace) && i < n <= |trace| && By(trace, i, ip)
    requires Opens(BucketAt(trace, i, ip), trace[i].now) && trace[n - 1].now <= trace[i].now + MINUTE
    ensures var seen := |Times(trace[i..n], ip)|;
            |Admitted(trace[..n], ip)| - |Admitted(trace[..i], ip)| == if seen < 10 then seen else 10
  {
    var run := trace[..n];
    assert run[..i] == trace[..i] && run[i..] == trace[i..n];
    OrderedPrefix(trace, n);
    OrderedPrefix(trace, i);
    AdmittedIsAllowed(run, ip);
    AdmittedIsAllowed(trace[..i], ip);
    LogOfWindow(run, ip, i);
  }

  lemma LogOfWindow(run: seq<Event>, ip: string, i: nat)
    requires Ordered(run) && i < |run| && By(run, i, ip)
    requires Opens(BucketAt(run, i, ip), run[i].now) && run[|run| - 1].now <= run[i].now + WINDOW
    ensures |Allowed(Times(run, ip))| - |Allowed(Times(run[..i], ip))| == Capped(|Times(run[i..], ip)|)
  {
    var times := Times(run, ip);
    var j := Locate(run, i, ip);
    TimesSorted(run, ip);
    assert times[|times| - 1] in times;
    WindowToEnd(times, j);
  }

  // ---------------------------------------------------------------- per minute

  /** In every run at most 19 attempts of one address are allowed in any closed minute. */
  lemma AtMostNineteenPerMinute(trace: seq<Event>, ip: string, lo: int)
    requires Ordered(trace)
    ensures AdmittedIn(trace, ip, lo) <= 19
  {
    AdmittedIsAllowed(trace, ip);
    TimesSorted(trace, ip);
    AllowedSoFar(Times(trace, ip), lo);
  }

  /** Step i opens a window inside the minute, and the address's attempts of the minute from there
      on, together with those allowed before, make more than ten. */
  ghost predicate OverfillsAt(trace: seq<Event>, ip: string, lo: int, i: nat)
    requires i < |trace|
  {
    && By(trace, i, ip) && Opens(BucketAt(trace, i, ip), trace[i].now) && lo < trace[i].now <= lo + MINUTE
    && AdmittedIn(trace[..i], ip, lo) + Capped(CountBetween(Times(trace[i..], ip), lo, lo + MINUTE)) > 10
  }

  lemma OverfillsAgree(trace: seq<Event>, ip: string, lo: int, i: nat, j: nat)
    requires Ordered(trace) && i < |trace| && By(trace, i, ip) && SameStanding(trace, i, ip, j)
    requires var times := Times(trace, ip);
             times[j] == trace[i].now && times[..j] == Times(trace[..i], ip) && times[j..] == Times(trace[i..], ip)
    ensures OverfillsAt(trace, ip, lo, i) <==> Overfills(Times(trace, ip), lo, j)
  {
    var times := Times(trace, ip);
    OrderedPrefix(trace, i);
    AdmittedIsAllowed(trace[..i], ip);
    OverfillsMeans(times, lo, j);
  }

  /** The promised ten per minute is exceeded exactly when a window opens inside the minute with
      enough attempts to follow. */
  lemma MoreThanTenPerMinuteIff(trace: seq<Event>, ip: string, lo: int)
    requires Ordered(trace)
    ensures AdmittedIn(trace, ip, lo) > 10 <==> exists i :: 0 <= i < |trace| && OverfillsAt(trace, ip, lo, i)
  {
    var times := Times(trace, ip);
    AdmittedIsAllowed(trace, ip);
    TimesSorted(trace, ip);
    assert times[..|times|] == times;
    MoreThanTenIff(times, lo);
    if j :| 0 <= j < |times| && Overfills(times, lo, j) {
      var i := Find(trace, ip, j);
      var k := Locate(trace, i, ip);
      assert k == |times[..k]| == j;
      OverfillsAgree(trace, ip, lo, i, j);
    }
    if i :| 0 <= i < |trace| && OverfillsAt(trace, ip, lo, i) {
      var j := Locate(trace, i, ip);
      OverfillsAgree(trace, ip, lo, i, j);
    }
  }

  /** The run in which one address attempts at these times. */
  function Attempts(times: seq<int>, ip: string): seq<Event> {
    seq(|times|, k requires 0 <= k < |times| => Attempt(ip, times[k]))
  }

  lemma {:induction false} AttemptsTimes(times: seq<int>, ip: string)
    ensures Times(Attempts(times, ip), ip) == times
  {
    if times != [] {
      var before := times[..|times| - 1];
      AttemptsTimes(before, ip);
      assert Attempts(times, ip)[..|times| - 1] == Attempts(before, ip);
    }
  }

  /** The bound 19 is attained: one attempt at 0, nine at the window's last instant, ten just after it. */
  lemma NineteenAttained(ip: string)
    ensures var trace := Attempts([0] + Repeat(WINDOW, 9) + [WINDOW + 1] + Repeat(WINDOW + 1, 9), ip);
            Ordered(trace) && AdmittedIn(trace, ip, WINDOW) == 19
  {
    var times := [0] + Repeat(WINDOW, 9) + [WINDOW + 1] + Repeat(WINDOW + 1, 9);
    NineteenInLog();
    AttemptsTimes(times, ip);
    AdmittedIsAllowed(Attempts(times, ip), ip);
  }

  // ---------------------------------------------------------------- blocks

  /** Step i is an attempt that is refused and sets the block. */
  predicate Blocks(trace: seq<Event>, i: nat, ip: string)
    requires i < |trace|
  {
    var b := BucketAt(trace, i, ip);
    By(trace, i, ip) && !Blocked(b, trace[i].now) && !Allows(b, trace[i].now)
  }

  /** A block set at t refuses every attempt of the address in [t, t + 5 min), and lets the first
      one from t + 5 min on through. */
  lemma BlockExact(trace: seq<Event>, ip: string, i: nat, n: nat)
    requires Ordered(trace) && i < n < |trace| && Blocks(trace, i, ip) && By(trace, n, ip)
    requires forall k :: i < k < n && By(trace, k, ip) ==> trace[k].now < trace[i].now + FIVE_MINUTES
    ensures Allows(BucketAt(trace, n, ip), trace[n].now) <==> trace[n].now >= trace[i].now + FIVE_MINUTES
  {
    var times := Times(trace, ip);
    TimesSorted(trace, ip);
    var j := Locate(trace, i, ip);
    var m := Locate(trace, n, ip);
    Precedes(trace, ip, i, n);
    assert j == |times[..j]| && m == |times[..m]|;
    var k := Find(trace, ip, m - 1);
    var l := Locate(trace, k, ip);
    assert l == |times[..l]|;
    if k >= n { LogGrows(trace, ip, n, k); }
    if k < i { Precedes(trace, ip, k, i); }
    BlockExactInLog(times, j, m);
  }

  lemma LogGrows(trace: seq<Event>, ip: string, i: nat, n: nat)
    requires i <= n <= |trace|
    ensures |Times(trace[..i], ip)| <= |Times(trace[..n], ip)|
  {
    TimesSplit(trace[..n], i, ip);
    assert trace[..n][..i] == trace[..i];
  }

  lemma Precedes(trace: seq<Event>, ip: string, i: nat, n: nat)
    requires i < n <= |trace| && By(trace, i, ip)
    ensures |Times(trace[..i], ip)| < |Times(trace[..n], ip)|
  {
    assert trace[..i + 1][..i] == trace[..i];
    LogGrows(trace, ip, i + 1, n);
  }

  // ---------------------------------------------------------------- fresh addresses and sweeps

  /** An address that has not tried for five minutes, or never, is allowed, and a new window opens. */
  lemma QuietIsAllowed(trace: seq<Event>, ip: string, i: nat)
    requires Ordered(trace) && i < |trace| && By(trace, i, ip)
    requires forall k :: 0 <= k < i && By(trace, k, ip) ==> trace[i].now - trace[k].now >= FIVE_MINUTES
    ensures Allows(BucketAt(trace, i, ip), trace[i].now) && Opens(BucketAt(trace, i, ip), trace[i].now)
  {
    var times := Times(trace, ip);
    var j := Locate(trace, i, ip);
    forall t | t in times[..j] ensures trace[i].now - t >= FIVE_MINUTES {
      var l :| 0 <= l < j && times[l] == t;
      assert j == |times[..j]|;
      var k := Find(trace, ip, l);
      var m := Locate(trace, k, ip);
      assert m == |times[..m]|;
      if k >= i { LogGrows(trace, ip, i, k); }
    }
    QuietOpens(times[..j], trace[i].now);
  }

  predicate Recent(b: Bucket, now: int) {
    && b.windowStart.Some?
    && (now - b.windowStart.value <= TEN_MINUTES || (b.blockedUntil.Some? && now <= b.blockedUntil.value))
  }

  /** After a sweep exactly the buckets are gone whose window started more than ten minutes ago and
      whose block, if any, is over. */
  lemma SweepExact(trace: seq<Event>, ip: string, now: int)
    requires Ordered(trace + [Sweep(now)])
    ensures ip in Run(trace + [Sweep(now)]) <==> Recent(BucketOf(Times(trace, ip)), now)
  {
    var all := trace + [Sweep(now)];
    assert all[..|trace|] == trace;
    OrderedPrefix(all, |trace|);
    RunAgrees(trace, ip);
    if trace != [] { assert all[|trace| - 1].now <= all[|trace|].now; }
    if Times(trace, ip) != [] { AttemptStarts(Times(trace, ip)); }
    if ip !in Run(trace) && trace != [] && BucketOf(Times(trace, ip)) != FRESH {
      StaleIsFresh(BucketOf(Times(trace, ip)), trace[|trace| - 1].now, now);
    }
  }
}
