/** Reconnect backoff in 64-bit arithmetic, and the attempt numbers that Run and the slot workers pass to it. */
module Backoff {
  const MAX_INT64 := 0x7fff_ffff_ffff_ffff
  const TWO64 := 0x1_0000_0000_0000_0000
  const SECOND := 1_000_000_000
  const MAX_JITTER := 500_000_000
  const DEFAULT_MAX_DELAY := 60 * SECOND
  const POOL_REPAIR_MAX_LAG := 4 * SECOND

  function Wrap(x: int): (r: int)
    ensures -MAX_INT64 - 1 <= r <= MAX_INT64
    ensures -MAX_INT64 - 1 <= x <= MAX_INT64 ==> r == x
  {
    var m := x % TWO64;
    if m > MAX_INT64 then m - TWO64 else m
  }

  function Pow2(n: nat): (r: int)
    ensures r >= 1
  {
    if n == 0 then 1 else 2 * Pow2(n - 1)
  }

  /** time.Duration(math.Pow(2, attempt)): exact up to 62; beyond that the float does not fit
      int64 and the conversion yields whatever the platform yields. */
  function Exponential(attempt: nat, platform: int): int {
    if attempt <= 62 then Pow2(attempt) else platform
  }

  /** The delay before jitter. */
  function Base(attempt: nat, maxDelay: int, platform: int): int {
    var delay := Wrap(Exponential(attempt, platform) * SECOND);
    if delay > maxDelay then maxDelay else delay
  }

  function Least(a: int, b: int): int {
    if a < b then a else b
  }

  method BackoffDelay(attempt: int, maxDelay: int, platform: int, jitter: int) returns (delay: int)
    requires 0 <= jitter <= MAX_JITTER
    ensures var a := if attempt < 0 then 0 else attempt;
            var m := if maxDelay <= 0 then 60_000_000_000 else maxDelay;
            && delay == Wrap(Base(a, m, platform) + jitter)
            && (a <= 33 && m <= MAX_INT64 - MAX_JITTER ==>
                  Least(Pow2(a) * SECOND, m) <= delay <= Least(Pow2(a) * SECOND, m) + MAX_JITTER)
  {
    var a, m := attempt, maxDelay;
    if a < 0 { a := 0; }
    if m <= 0 { m := DEFAULT_MAX_DELAY; }
    var exponential := Exponential(a, platform);
    delay := Wrap(exponential * SECOND);
    if delay > m { delay := m; }
    if a <= 33 { NoOverflow(a); }
    delay := Wrap(delay + jitter);
  }

  lemma {:induction false} Pow2Monotone(a: nat, b: nat)
    requires a <= b
    ensures Pow2(a) <= Pow2(b)
  {
    if a < b { Pow2Monotone(a, b - 1); }
  }

  lemma {:induction false} Pow2Sum(a: nat, b: nat)
    ensures Pow2(a + b) == Pow2(a) * Pow2(b)
  {
    if b > 0 {
      Pow2Sum(a, b - 1);
      assert Pow2(a + b) == 2 * Pow2(a + (b - 1));
    }
  }

  lemma {:induction false} SmallPow2(n: nat)
    requires n <= 20
    ensures Pow2(n) == [1, 2, 4, 8, 16, 32, 64, 128, 256, 512, 1024, 2048, 4096, 8192, 16384, 32768, 65536, 131072,
                        262144, 524288, 1048576][n]
  {
    if n > 0 { SmallPow2(n - 1); }
  }

  lemma SumOf(a: nat, b: nat, x: int, y: int)
    requires Pow2(a) == x && Pow2(b) == y
    ensures Pow2(a + b) == x * y
  {
    Pow2Sum(a, b);
  }

  lemma BigPow2()
    ensures Pow2(33) == 8589934592 && Pow2(34) == 17179869184 && Pow2(55) == 36028797018963968
  {
    SmallPow2(11);
    SumOf(11, 11, 2048, 2048);
    SumOf(22, 11, 4194304, 2048);
    SumOf(33, 22, 8589934592, 4194304);
    assert Pow2(34) == 2 * Pow2(33);
  }

  /** 33 is the last attempt whose product fits in 64 bits, 34 the first whose product does not. */
  lemma NoOverflow(a: nat)
    ensures a <= 33 <==> Pow2(a) * SECOND <= MAX_INT64
  {
    BigPow2();
    if a <= 33 { Pow2Monotone(a, 33); } else { Pow2Monotone(34, a); }
  }

  /** Up to attempt 33 the base delay is min(2^attempt s, maxDelay), and it never decreases. */
  lemma BaseExact(a: nat, b: nat, maxDelay: int, platform: int)
    requires a <= b <= 33 && maxDelay > 0
    ensures Base(a, maxDelay, platform) == Least(Pow2(a) * SECOND, maxDelay)
    ensures Base(a, maxDelay, platform) <= Base(b, maxDelay, platform)
  {
    NoOverflow(a);
    NoOverflow(b);
    Pow2Monotone(a, b);
  }

  /** For every attempt whose power converts exactly: the base is the intended delay exactly when
      the product fits or its wrapped value still exceeds the cap. */
  lemma BaseExactIff(a: nat, maxDelay: int, platform: int)
    requires a <= 62 && 0 < maxDelay <= MAX_INT64
    ensures Base(a, maxDelay, platform) == Least(Pow2(a) * SECOND, maxDelay)
       <==> a <= 33 || Wrap(Pow2(a) * SECOND) >= maxDelay
  {
    NoOverflow(a);
  }

  /** The attempts above 33 at which a cap of up to 91 years is still met, by accident. */
  predicate Lucky(a: nat) {
    a == 37 || a == 41 || a == 42 || a == 45 || a == 47 || a == 50 || a == 51 || a == 53
  }

  lemma Multiple(a: nat)
    requires a >= 55
    ensures Pow2(a) * SECOND == (1953125 * Pow2(a - 55)) * TWO64
  {
    BigPow2();
    Pow2Sum(55, a - 55);
  }

  lemma MultipleWraps(k: int)
    ensures Wrap(k * TWO64) == 0
  {
  }

  /** From attempt 55 on the product is a multiple of 2^64. */
  lemma WrapsToZero(a: nat)
    requires a >= 55
    ensures Wrap(Pow2(a) * SECOND) == 0
  {
    Multiple(a);
    MultipleWraps(1953125 * Pow2(a - 55));
  }

  /** The wrapped products for attempts 34 to 54. */
  const WRAPPED := [
    -1266874889709551616, -2533749779419103232, -5067499558838206464,
    8311744956033138688, -1823254161643274240, -3646508323286548480,
    -7293016646573096960, 3860710780563357696, 7721421561126715392,
    -3003900951456120832, -6007801902912241664, 6431140267885068288,
    -5584463537939415040, 7277816997830721536, -3891110078048108544,
    -7782220156096217088, 2882303761517117440, 5764607523034234880,
    -6917529027641081856, 4611686018427387904, -9223372036854775808]

  /** Doubling in 64 bits. */
  function Doubled(w: int): int {
    if w > MAX_INT64 / 2 then 2 * w - TWO64
    else if w < -(MAX_INT64 / 2) - 1 then 2 * w + TWO64
    else 2 * w
  }

  lemma WrapUnique(x: int, r: int, k: int)
    requires x == r + k * TWO64 && -MAX_INT64 - 1 <= r <= MAX_INT64
    ensures Wrap(x) == r
  {
    assert x % TWO64 == if r < 0 then r + TWO64 else r;
  }

  lemma WrapDoubles(x: int)
    ensures Wrap(2 * x) == Doubled(Wrap(x))
  {
    var w := Wrap(x);
    var k := if w < 0 then x / TWO64 + 1 else x / TWO64;
    assert x == w + k * TWO64;
    var carry := if w > MAX_INT64 / 2 then 1 else if w < -(MAX_INT64 / 2) - 1 then -1 else 0;
    WrapUnique(2 * x, Doubled(w), 2 * k + carry);
  }

  lemma TableDoubles(i: nat)
    requires i < 20
    ensures WRAPPED[i + 1] == Doubled(WRAPPED[i])
  {
  }

  lemma {:induction false} WrappedTable(a: nat)
    requires 34 <= a <= 54
    ensures Wrap(Pow2(a) * SECOND) == WRAPPED[a - 34]
  {
    if a == 34 {
      BigPow2();
    } else {
      WrappedTable(a - 1);
      WrapDoubles(Pow2(a - 1) * SECOND);
      TableDoubles(a - 35);
      assert Pow2(a) * SECOND == 2 * (Pow2(a - 1) * SECOND);
    }
  }

  lemma LuckyTable(a: nat)
    requires 34 <= a <= 54
    ensures if Lucky(a) then WRAPPED[a - 34] >= 2882303761517117440 else WRAPPED[a - 34] < -MAX_JITTER
  {
  }

  lemma WrappedSign(a: nat)
    requires 34 <= a
    ensures var w := Wrap(Pow2(a) * SECOND);
            if Lucky(a) then w >= 2882303761517117440 else if a <= 54 then w < -MAX_JITTER else w == 0
  {
    if a >= 55 {
      WrapsToZero(a);
    } else {
      WrappedTable(a);
      LuckyTable(a);
    }
  }

  /** With any cap of up to 91 years, the attempts that get the intended base delay are exactly these. */
  lemma IntendedAttempts(a: nat, maxDelay: int, platform: int)
    requires a <= 62 && 0 < maxDelay <= 2882303761517117440
    ensures Base(a, maxDelay, platform) == Least(Pow2(a) * SECOND, maxDelay) <==> a <= 33 || Lucky(a)
    ensures 34 <= a <= 54 && !Lucky(a) ==> Base(a, maxDelay, platform) < -MAX_JITTER
    ensures a >= 55 ==> Base(a, maxDelay, platform) == 0
  {
    BaseExactIff(a, maxDelay, platform);
    if a >= 34 { assert Wrap(Pow2(a) * SECOND) >= maxDelay <==> Lucky(a) by { WrappedSign(a); } }
    if a >= 34 { WrappedSign(a); }
  }

  lemma AttemptThirtyFour(maxDelay: int, platform: int, jitter: int)
    requires 0 < maxDelay <= 2882303761517117440 && 0 <= jitter <= MAX_JITTER
    ensures Wrap(Base(34, maxDelay, platform) + jitter) < 0
  {
    IntendedAttempts(34, maxDelay, platform);
  }

  // ---------------------------------------------------------------- Run

  /** One turn of Run: `failed` tells whether runSession returned an error; `doneAfter` and
      `doneWaiting`, whether the caller's context had ended by then or ends during the wait. */
  datatype Turn = Turn(failed: bool, doneAfter: bool, doneWaiting: bool)

  /** Turns that leave the loop going. */
  predicate GoesOn(t: Turn) {
    !t.doneAfter && (t.failed ==> !t.doneWaiting)
  }

  /** Failed sessions since the last one that returned nil. */
  function FailuresInARow(turns: seq<Turn>): nat {
    if turns == [] then 0
    else if turns[|turns| - 1].failed then FailuresInARow(turns[..|turns| - 1]) + 1 else 0
  }

  /** What BackoffDelay is asked for, turn by turn, as long as the loop goes on. */
  function Requested(turns: seq<Turn>): seq<nat> {
    if turns == [] then []
    else
      var before, t := turns[..|turns| - 1], turns[|turns| - 1];
      if t.failed && !t.doneAfter then Requested(before) + [FailuresInARow(before)] else Requested(before)
  }

  method Run(turns: seq<Turn>) returns (attempts: seq<nat>, handled: nat)
    ensures handled <= |turns| && attempts == Requested(turns[..handled])
    ensures forall k :: 0 <= k < handled - 1 ==>
              GoesOn(turns[k]) && !turns[k].doneAfter && !(turns[k].failed && turns[k].doneWaiting)
    ensures handled < |turns| ==> handled > 0 && !GoesOn(turns[handled - 1])
    ensures 0 < handled < |turns| ==>
              turns[handled - 1].doneAfter || (turns[handled - 1].failed && turns[handled - 1].doneWaiting)
  {
    var attempt := 0;
    attempts, handled := [], 0;
    while handled < |turns|
      invariant handled <= |turns| && attempts == Requested(turns[..handled])
      invariant attempt == FailuresInARow(turns[..handled])
      invariant forall k :: 0 <= k < handled ==> GoesOn(turns[k])
    {
      var t := turns[handled];
      assert turns[..handled + 1][..handled] == turns[..handled];
      handled := handled + 1;
      if t.doneAfter { return; }
      if !t.failed {
        attempt := 0;
        continue;
      }
      attempts := attempts + [attempt];
      attempt := attempt + 1;
      if t.doneWaiting { return; }
    }
  }

  /** As runSession returns nil only when the caller's context is done, the reset is never reached
      and the n-th wait asks for attempt n-1: the count of all earlier failed sessions.
      SessionTheorems.RunNeverResets discharges the hypothesis for every sequence of sessions. */
  lemma {:induction false} NeverResets(turns: seq<Turn>)
    requires forall k :: 0 <= k < |turns| ==> (!turns[k].failed ==> turns[k].doneAfter)
    requires forall k :: 0 <= k < |turns| - 1 ==> GoesOn(turns[k])
    ensures |Requested(turns)| <= |turns| && forall k :: 0 <= k < |Requested(turns)| ==> Requested(turns)[k] == k
    ensures (forall k :: 0 <= k < |turns| ==> GoesOn(turns[k])) ==>
              FailuresInARow(turns) == |turns| == |Requested(turns)|
  {
    if turns != [] { NeverResets(turns[..|turns| - 1]); }
  }

  /** Hence the 35th failed session of a client's life waits a negative time: it reconnects at once. */
  lemma ThirtyFifthFailureDoesNotWait(turns: seq<Turn>, maxDelay: int, platform: int, jitter: int)
    requires forall k :: 0 <= k < |turns| ==> turns[k].failed && GoesOn(turns[k])
    requires |turns| >= 35 && 0 < maxDelay <= 2882303761517117440 && 0 <= jitter <= MAX_JITTER
    ensures |Requested(turns)| == |turns| && Requested(turns)[34] == 34
    ensures Wrap(Base(Requested(turns)[34], maxDelay, platform) + jitter) < 0
  {
    NeverResets(turns);
    IntendedAttempts(34, maxDelay, platform);
  }

  // ---------------------------------------------------------------- maintainPoolSlot

  /** What moves a slot worker's attempt counter: a successful join, or a wait before the next try. */
  datatype SlotTurn = Joined | Waited

  function WaitsSinceJoin(turns: seq<SlotTurn>): nat {
    if turns == [] || turns[|turns| - 1].Joined? then 0 else WaitsSinceJoin(turns[..|turns| - 1]) + 1
  }

  /** What BackoffDelay is asked for, wait by wait. */
  function SlotRequested(turns: seq<SlotTurn>): seq<nat> {
    if turns == [] then []
    else
      var before, t := turns[..|turns| - 1], turns[|turns| - 1];
      SlotRequested(before) + if t.Waited? then [WaitsSinceJoin(before)] else []
  }

  method SlotWaits(turns: seq<SlotTurn>) returns (attempts: seq<nat>)
    ensures attempts == SlotRequested(turns)
  {
    var attempt := 0;
    attempts := [];
    for k := 0 to |turns|
      invariant attempts == SlotRequested(turns[..k]) && attempt == WaitsSinceJoin(turns[..k])
    {
      assert turns[..k + 1][..k] == turns[..k];
      if turns[k].Joined? {
        attempt := 0;
      } else {
        attempts := attempts + [attempt];
        attempt := attempt + 1;
      }
    }
    assert turns[..|turns|] == turns;
  }

  function Waits(n: nat): seq<SlotTurn> {
    seq(n, _ => Waited)
  }

  lemma WaitsSnoc(before: seq<SlotTurn>, n: nat)
    ensures before + Waits(n + 1) == before + Waits(n) + [Waited] && before + Waits(0) == before
  {
    assert Waits(n + 1) == Waits(n) + [Waited];
  }

  /** n waits in a row after a join, or after the start, ask for attempts 0 .. n - 1. */
  lemma {:induction false} WaitsCount(before: seq<SlotTurn>, n: nat)
    requires before == [] || before[|before| - 1].Joined?
    ensures var turns := before + Waits(n);
            && WaitsSinceJoin(turns) == n
            && SlotRequested(turns) == SlotRequested(before) + seq(n, k => k)
  {
    if n == 0 {
      WaitsSnoc(before, 0);
    } else {
      WaitsCount(before, n - 1);
      var turns := before + Waits(n);
      WaitsSnoc(before, n - 1);
      assert turns[..|turns| - 1] == before + Waits(n - 1);
      assert seq(n, k => k) == seq(n - 1, k => k) + [n - 1];
    }
  }

  /** The 35th wait of a slot worker since its last join is negative, whatever the jitter. */
  lemma ThirtyFifthSlotWait(before: seq<SlotTurn>, n: nat, platform: int, jitter: int)
    requires before == [] || before[|before| - 1].Joined?
    requires n >= 35 && 0 <= jitter <= MAX_JITTER
    ensures var earlier, requested := SlotRequested(before), SlotRequested(before + Waits(n));
            && |requested| == |earlier| + n && requested[|earlier| + 34] == 34
            && Wrap(Base(requested[|earlier| + 34], POOL_REPAIR_MAX_LAG, platform) + jitter) < 0
  {
    WaitsCount(before, n);
    AttemptThirtyFour(POOL_REPAIR_MAX_LAG, platform, jitter);
  }

  lemma StopsWaiting(turns: seq<SlotTurn>, n: nat, platform: int, jitter: int)
    requires turns == Waits(n) && n >= 35 && 0 <= jitter <= MAX_JITTER
    ensures var requested := SlotRequested(turns);
            |requested| == n && Wrap(Base(requested[34], POOL_REPAIR_MAX_LAG, platform) + jitter) < 0
  {
    ThirtyFifthSlotWait([], n, platform, jitter);
    assert [] + Waits(n) == turns;
  }
}
