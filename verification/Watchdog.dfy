/** pingLoop: when a silent connection is given up.

    One tick records what the loop finds when the ticker fires: the time, the last pong stored so
    far, what others have done to the session's shared failure counter since the previous tick,
    whether the ping can be sent, and whether the loop's context is done first.  Others are the
    read loops, which zero the counter on a pong, a newer control loop, which zeroes it when it
    starts, and cancelled predecessors: `select` may still hand such a loop a tick, which then
    raises the counter by one. */
module Watchdog {
  import opened Prelude

  const CONTROL_FAILURE_THRESHOLD := 3

  /** `raised` counts the raises by other loops, since the last zeroing if there was one. */
  datatype Tick = Tick(now: int, lastPong: int, counterZeroed: bool, raised: nat, sendOk: bool, done: bool)

  /** `control`: the loop has the session's failure counter; a data loop has none. */
  datatype Config = Config(interval: int, timeout: int, control: bool)

  datatype Result = Stopped | PongTimeout | SendFailed

  /** `misses` and `raises`: what this loop and others have added to the counter since it was last
      zeroed.  `result` is the outcome and the index of the tick that decided it. */
  datatype Watch = Watch(observed: int, misses: nat, raises: nat, result: Option<(Result, nat)>)

  predicate Overdue(c: Config, t: Tick) {
    t.now - t.lastPong > c.interval + c.timeout
  }

  /** The loop's state once the first |ticks| ticks have been handled. */
  function After(c: Config, firstPong: int, ticks: seq<Tick>): Watch {
    if ticks == [] then Watch(firstPong, 0, 0, None)
    else
      var k := |ticks| - 1;
      var w, t := After(c, firstPong, ticks[..k]), ticks[k];
      if w.result.Some? then w else Handled(c, w, t, k)
  }

  /** Tick k, reached by a loop that has not returned. */
  function Handled(c: Config, w: Watch, t: Tick, k: nat): Watch {
    if t.done then w.(result := Some((Stopped, k)))
    else
      var ponged := t.lastPong != w.observed;
      var misses := (if ponged || t.counterZeroed then 0 else w.misses) + if c.control && Overdue(c, t) then 1 else 0;
      var raises := if ponged || !c.control then 0 else (if t.counterZeroed then 0 else w.raises) + t.raised;
      var result :=
        if Overdue(c, t) && (c.control ==> misses + raises >= CONTROL_FAILURE_THRESHOLD) then Some((PongTimeout, k))
        else if !t.sendOk then Some((SendFailed, k))
        else None;
      Watch(t.lastPong, misses, raises, result)
  }

  /** `firstPong` is the pong time loaded before the loop; the control counter was zeroed just before. */
  method PingLoop(c: Config, firstPong: int, ticks: seq<Tick>) returns (result: Option<(Result, nat)>)
    ensures result == After(c, firstPong, ticks).result
  {
    var disconnectAfter := c.interval + c.timeout;
    var lastObservedPong, consecutiveFailures := firstPong, 0;
    for k := 0 to |ticks|
      invariant var w := After(c, firstPong, ticks[..k]);
                && w.observed == lastObservedPong && w.result.None?
                && consecutiveFailures == (if c.control then w.misses + w.raises else 0)
    {
      assert ticks[..k + 1][..k] == ticks[..k];
      StoppedStays(c, firstPong, ticks, k + 1);
      var t := ticks[k];
      if t.done { return Some((Stopped, k)); }
      if c.control {
        if t.counterZeroed { consecutiveFailures := 0; }
        consecutiveFailures := consecutiveFailures + t.raised;
      }
      var currentLastPong := t.lastPong;
      if currentLastPong != lastObservedPong {
        lastObservedPong := currentLastPong;
        if c.control { consecutiveFailures := 0; }
      }
      if t.now - currentLastPong > disconnectAfter {
        if !c.control { return Some((PongTimeout, k)); }
        consecutiveFailures := consecutiveFailures + 1;
        if consecutiveFailures >= CONTROL_FAILURE_THRESHOLD { return Some((PongTimeout, k)); }
      }
      if !t.sendOk { return Some((SendFailed, k)); }
    }
    assert ticks[..|ticks|] == ticks;
    return None;
  }

  /** Once the loop has returned, later ticks change nothing. */
  lemma {:induction false} StoppedStays(c: Config, firstPong: int, ticks: seq<Tick>, n: nat)
    requires n <= |ticks|
    ensures After(c, firstPong, ticks[..n]).result.Some? ==>
              After(c, firstPong, ticks) == After(c, firstPong, ticks[..n])
    decreases |ticks|
  {
    if n < |ticks| {
      var init := ticks[..|ticks| - 1];
      StoppedStays(c, firstPong, init, n);
      assert init[..n] == ticks[..n];
    } else {
      assert ticks[..n] == ticks;
    }
  }

  // ---------------------------------------------------------------- what one tick decides

  /** A loop that has not returned stops at a tick whose context is done; otherwise it fails with a pong
      timeout if the last pong is overdue and, for control, the counter has reached three; otherwise it
      fails if the ping cannot be sent; otherwise it goes on. */
  lemma TickDecides(c: Config, firstPong: int, ticks: seq<Tick>, t: Tick)
    requires After(c, firstPong, ticks).result.None?
    ensures var w, n := After(c, firstPong, ticks + [t]), |ticks|;
            var overdue := t.now - t.lastPong > c.interval + c.timeout;
            w.result ==
            if t.done then Some((Stopped, n))
            else if overdue && (c.control ==> w.misses + w.raises >= 3) then Some((PongTimeout, n))
            else if !t.sendOk then Some((SendFailed, n))
            else None
  {
    AfterSnoc(c, firstPong, ticks, t);
  }

  /** The control counter after a tick: a new pong forgets everything before it, a zeroing everything
      before the zeroing; an overdue tick is one more miss. */
  lemma TickCounts(c: Config, firstPong: int, ticks: seq<Tick>, t: Tick)
    requires c.control && After(c, firstPong, ticks).result.None? && !t.done
    ensures var v, w := After(c, firstPong, ticks), After(c, firstPong, ticks + [t]);
            var miss := if t.now - t.lastPong > c.interval + c.timeout then 1 else 0;
            && w.observed == t.lastPong
            && (t.lastPong != v.observed ==> w.misses == miss && w.raises == 0)
            && (t.lastPong == v.observed && t.counterZeroed ==> w.misses == miss && w.raises == t.raised)
            && (t.lastPong == v.observed && !t.counterZeroed ==>
                  w.misses == v.misses + miss && w.raises == v.raises + t.raised)
  {
    AfterSnoc(c, firstPong, ticks, t);
  }

  // ---------------------------------------------------------------- no false alarm

  ghost predicate TimeOrdered(ticks: seq<Tick>) {
    forall i, j :: 0 <= i < j < |ticks| ==> ticks[i].now <= ticks[j].now
  }

  /** The last `misses` ticks were all overdue against the pong observed last. */
  ghost predicate Missed(c: Config, ticks: seq<Tick>, w: Watch) {
    && w.misses <= |ticks|
    && (ticks != [] ==> w.observed == ticks[|ticks| - 1].lastPong)
    && forall k :: |ticks| - w.misses <= k < |ticks| ==> Overdue(c, ticks[k]) && ticks[k].lastPong == w.observed
  }

  /** A counted miss is a tick overdue against the last pong, and so is every tick since. */
  lemma {:induction false} MissesMeanSilence(c: Config, firstPong: int, ticks: seq<Tick>)
    requires c.control && TimeOrdered(ticks)
    requires var r := After(c, firstPong, ticks).result; r.Some? ==> r.value == (PongTimeout, |ticks| - 1)
    ensures var w := After(c, firstPong, ticks);
            && Missed(c, ticks, w)
            && (w.result.None? && w.misses > 0 ==> w.misses + w.raises <= 2)
            && (w.result.Some? ==> 1 <= w.misses <= 3 <= w.misses + w.raises)
  {
    if ticks != [] {
      var n := |ticks| - 1;
      var before := ticks[..n];
      var w := After(c, firstPong, before);
      if w.result.Some? { ResultInRange(c, firstPong, before); }
      MissesMeanSilence(c, firstPong, before);
      if w.misses > 0 { assert Overdue(c, before[n - 1]) && before[n - 1].now <= ticks[n].now; }
    }
  }

  lemma {:induction false} ResultInRange(c: Config, firstPong: int, ticks: seq<Tick>)
    ensures var r := After(c, firstPong, ticks).result; r.Some? ==> r.value.1 < |ticks|
  {
    if ticks != [] { ResultInRange(c, firstPong, ticks[..|ticks| - 1]); }
  }

  /** A control loop that reports a pong timeout has itself seen as many successive overdue ticks,
      against one pong, as the raises by others since the last zeroing leave of three. */
  lemma {:induction false} ReportMeansMisses(c: Config, firstPong: int, ticks: seq<Tick>)
    requires c.control && TimeOrdered(ticks)
    requires var r := After(c, firstPong, ticks).result; r.Some? && r.value.0.PongTimeout?
    ensures var w := After(c, firstPong, ticks);
            var n := w.result.value.1 + 1;
            && n <= |ticks| && Missed(c, ticks[..n], w)
            && 1 <= w.misses <= 3 <= w.misses + w.raises
  {
    var before := ticks[..|ticks| - 1];
    if After(c, firstPong, before).result.Some? {
      ReportMeansMisses(c, firstPong, before);
      var n := After(c, firstPong, before).result.value.1 + 1;
      assert before[..n] == ticks[..n];
    } else {
      MissesMeanSilence(c, firstPong, ticks);
      assert ticks[..|ticks|] == ticks;
    }
  }

  /** Nothing but this loop raises the counter. */
  ghost predicate Undisturbed(ticks: seq<Tick>) {
    forall k :: 0 <= k < |ticks| ==> ticks[k].raised == 0
  }

  /** `more` makes the loop report a pong timeout that it has counted itself `misses` times. */
  ghost predicate ReportsAfter(c: Config, firstPong: int, ticks: seq<Tick>, misses: nat) {
    var w := After(c, firstPong, ticks);
    w.result.Some? && w.result.value.0.PongTimeout? && w.misses == misses
  }

  lemma {:induction false} RaisesStayZero(c: Config, firstPong: int, ticks: seq<Tick>, more: seq<Tick>)
    requires After(c, firstPong, ticks).raises == 0 && Undisturbed(more)
    ensures After(c, firstPong, ticks + more).raises == 0
  {
    if more == [] {
      assert ticks + more == ticks;
    } else {
      RaisesStayZero(c, firstPong, ticks, more[..|more| - 1]);
      assert (ticks + more)[..|ticks + more| - 1] == ticks + more[..|more| - 1];
    }
  }

  /** One more tick at `now`, overdue against the pong observed so far. */
  lemma SilentTick(c: Config, firstPong: int, ticks: seq<Tick>, now: int)
    requires c.control && After(c, firstPong, ticks).result.None?
    requires now - After(c, firstPong, ticks).observed > c.interval + c.timeout
    requires TimeOrdered(ticks) && (ticks != [] ==> ticks[|ticks| - 1].now <= now)
    ensures var w := After(c, firstPong, ticks);
            var all := ticks + [Tick(now, w.observed, false, 0, true, false)];
            && TimeOrdered(all)
            && After(c, firstPong, all) == Watch(w.observed, w.misses + 1, w.raises,
                 if w.misses + w.raises >= 2 then Some((PongTimeout, |ticks|)) else None)
  {
    var t := Tick(now, After(c, firstPong, ticks).observed, false, 0, true, false);
    AfterSnoc(c, firstPong, ticks, t);
    OrderedSnoc(ticks, t);
  }

  lemma AfterSnoc(c: Config, firstPong: int, ticks: seq<Tick>, t: Tick)
    requires After(c, firstPong, ticks).result.None?
    ensures After(c, firstPong, ticks + [t]) == Handled(c, After(c, firstPong, ticks), t, |ticks|)
  {
    assert (ticks + [t])[..|ticks|] == ticks;
  }

  lemma OrderedSnoc(ticks: seq<Tick>, t: Tick)
    requires TimeOrdered(ticks) && (ticks != [] ==> ticks[|ticks| - 1].now <= t.now)
    ensures TimeOrdered(ticks + [t])
  {
    forall i, j | 0 <= i < j < |ticks + [t]| ensures (ticks + [t])[i].now <= (ticks + [t])[j].now {
      if i < |ticks| - 1 { assert ticks[i].now <= ticks[|ticks| - 1].now; }
    }
  }

  /** Whatever has happened so far: from here on, if nobody else raises the counter, a report needs
      three misses of the loop's own exactly when no other loop has raised the counter since the
      loop's start or the last zeroing. */
  lemma ThreeMissesNeededIff(c: Config, firstPong: int, ticks: seq<Tick>)
    requires c.control && TimeOrdered(ticks) && After(c, firstPong, ticks).result.None?
    ensures After(c, firstPong, ticks).raises == 0 <==>
            (forall more, misses: nat {:trigger ReportsAfter(c, firstPong, ticks + more, misses)} ::
               TimeOrdered(ticks + more) && Undisturbed(more) && ReportsAfter(c, firstPong, ticks + more, misses)
               ==> misses == 3)
  {
    var w := After(c, firstPong, ticks);
    if w.raises == 0 {
      forall more, misses: nat {:trigger ReportsAfter(c, firstPong, ticks + more, misses)}
        | TimeOrdered(ticks + more) && Undisturbed(more) && ReportsAfter(c, firstPong, ticks + more, misses)
        ensures misses == 3
      {
        RaisesStayZero(c, firstPong, ticks, more);
        ReportMeansMisses(c, firstPong, ticks + more);
      }
    } else {
      var more := EarlyReport(c, firstPong, ticks);
      assert ReportsAfter(c, firstPong, ticks + more, After(c, firstPong, ticks + more).misses);
    }
  }

  /** A raise by another loop lets the report come after at most two misses. */
  lemma EarlyReport(c: Config, firstPong: int, ticks: seq<Tick>) returns (more: seq<Tick>)
    requires c.control && TimeOrdered(ticks) && After(c, firstPong, ticks).result.None?
    requires After(c, firstPong, ticks).raises > 0
    ensures TimeOrdered(ticks + more) && Undisturbed(more)
    ensures var w := After(c, firstPong, ticks + more);
            ReportsAfter(c, firstPong, ticks + more, w.misses) && w.misses < 3
  {
    var w := After(c, firstPong, ticks);
    MissesMeanSilence(c, firstPong, ticks);
    var deadline := w.observed + c.interval + c.timeout;
    var last := if ticks == [] then deadline else ticks[|ticks| - 1].now;
    var t := Tick(if last > deadline then last else deadline + 1, w.observed, false, 0, true, false);
    SilentTick(c, firstPong, ticks, t.now);
    if w.misses + w.raises >= 2 {
      more := [t];
    } else {
      more := [t, t];
      SilentTick(c, firstPong, ticks + [t], t.now);
      assert ticks + more == ticks + [t] + [t];
    }
  }

  /** Unless another loop has raised the counter since it was last zeroed, a report comes only after
      three successive ticks that were all overdue against one pong. */
  lemma ControlNeedsThreeMisses(c: Config, firstPong: int, ticks: seq<Tick>)
    requires c.control && TimeOrdered(ticks) && After(c, firstPong, ticks).raises == 0
    requires var r := After(c, firstPong, ticks).result; r.Some? && r.value.0.PongTimeout?
    ensures var k := After(c, firstPong, ticks).result.value.1;
            && 2 <= k < |ticks|
            && ticks[k - 2].lastPong == ticks[k - 1].lastPong == ticks[k].lastPong
            && Overdue(c, ticks[k - 2]) && Overdue(c, ticks[k - 1]) && Overdue(c, ticks[k])
  {
    var k := After(c, firstPong, ticks).result.value.1;
    ReportMeansMisses(c, firstPong, ticks);
    assert ticks[..k + 1][k - 2] == ticks[k - 2] && ticks[..k + 1][k - 1] == ticks[k - 1];
  }

  // ---------------------------------------------------------------- no missed alarm

  /** The ticker fires every interval from `start` on, the context stays live and pings go out;
      the last pong comes at `pong`: ticks before it see older pongs, the others see it, and
      after the first of these nothing zeroes the counter any more. */
  ghost predicate SilentFrom(c: Config, start: int, pong: int, ticks: seq<Tick>) {
    && c.interval > 0 && c.timeout >= 0
    && (|ticks| > 0 ==> ticks[0].now == start + c.interval)
    && (forall k {:trigger ticks[k]} :: 0 < k < |ticks| ==> ticks[k].now == ticks[k - 1].now + c.interval)
    && (forall k :: 0 <= k < |ticks| ==> !ticks[k].done && ticks[k].sendOk)
    && (forall k :: 0 <= k < |ticks| ==>
          if ticks[k].now < pong then ticks[k].lastPong < pong else ticks[k].lastPong == pong)
    && (forall k {:trigger ticks[k]} :: 0 < k < |ticks| && ticks[k - 1].now >= pong ==> !ticks[k].counterZeroed)
  }

  /** What a loop that has not returned knows after a tick at `last`: until the deadline it has
      counted no miss against the last pong, afterwards it counts one at every tick. */
  predicate Ledger(c: Config, pong: int, w: Watch, last: int) {
    && w.observed == pong
    && (last <= pong + c.interval + c.timeout ==> w.misses == 0)
    && (last > pong + c.interval + c.timeout ==>
          && c.control && 1 <= w.misses && w.misses + w.raises <= 2
          && (w.misses == 1 ==> last <= pong + 2 * c.interval + c.timeout)
          && (w.misses == 2 ==> pong + 2 * c.interval + c.timeout < last <= pong + 3 * c.interval + c.timeout))
  }

  /** The tick times at which a loop may notice that nothing has come since `pong`: a data loop at
      its first miss, the control loop at the first miss that makes three with the raises by others. */
  predicate InTime(c: Config, pong: int, at: int, w: Watch) {
    var deadline := pong + c.interval + c.timeout;
    if c.control then
      && 1 <= w.misses <= 3 <= w.misses + w.raises
      && match w.misses
         case 1 => deadline < at <= deadline + c.interval
         case 2 => deadline + c.interval < at <= deadline + 2 * c.interval
         case _ => deadline + 2 * c.interval < at <= deadline + 3 * c.interval
    else deadline < at <= deadline + c.interval
  }

  /** The first tick that sees the last pong. */
  lemma LedgerOpens(c: Config, pong: int, w: Watch, t: Tick, k: nat)
    requires c.interval > 0 && t.lastPong == pong && t.now <= pong + 2 * c.interval + c.timeout && !t.done && t.sendOk
    requires w.misses == 0 || w.observed != pong
    ensures var v := Handled(c, w, t, k);
            if v.result.None? then Ledger(c, pong, v, t.now)
            else v.result == Some((PongTimeout, k)) && InTime(c, pong, t.now, v)
  {
  }

  lemma LedgerContinues(c: Config, pong: int, w: Watch, t: Tick, k: nat)
    requires c.interval > 0 && t.lastPong == pong && !t.counterZeroed && !t.done && t.sendOk
    requires Ledger(c, pong, w, t.now - c.interval)
    ensures var v := Handled(c, w, t, k);
            if v.result.None? then Ledger(c, pong, v, t.now)
            else v.result == Some((PongTimeout, k)) && InTime(c, pong, t.now, v)
  {
  }

  /** The last tick, in a loop that had not returned before it. */
  lemma {:induction false} LastTick(c: Config, start: int, pong: int, firstPong: int, ticks: seq<Tick>)
    requires SilentFrom(c, start, pong, ticks) && ticks != [] && ticks[|ticks| - 1].now >= pong
    requires start <= pong + c.interval + c.timeout && After(c, firstPong, ticks[..|ticks| - 1]).result.None?
    ensures var w, n := After(c, firstPong, ticks), |ticks| - 1;
            if w.result.None? then Ledger(c, pong, w, ticks[n].now)
            else w.result == Some((PongTimeout, n)) && InTime(c, pong, ticks[n].now, w)
  {
    var n := |ticks| - 1;
    var before := ticks[..n];
    var w, t := After(c, firstPong, before), ticks[n];
    if n > 0 && ticks[n - 1].now >= pong {
      SilentBefore(c, start, pong, ticks);
      AliveEarlier(c, firstPong, before);
      LastTick(c, start, pong, firstPong, before);
      LedgerContinues(c, pong, w, t, n);
    } else {
      if n > 0 { ObservedIsLast(c, firstPong, before); }
      LedgerOpens(c, pong, w, t, n);
    }
  }

  lemma AliveEarlier(c: Config, firstPong: int, ticks: seq<Tick>)
    requires ticks != [] && After(c, firstPong, ticks).result.None?
    ensures After(c, firstPong, ticks[..|ticks| - 1]).result.None?
  {
  }

  lemma ObservedIsLast(c: Config, firstPong: int, ticks: seq<Tick>)
    requires ticks != [] && After(c, firstPong, ticks).result.None?
    ensures After(c, firstPong, ticks).observed == ticks[|ticks| - 1].lastPong
  {
  }

  lemma SilentBefore(c: Config, start: int, pong: int, ticks: seq<Tick>)
    requires SilentFrom(c, start, pong, ticks) && ticks != []
    ensures SilentFrom(c, start, pong, ticks[..|ticks| - 1])
  {
  }

  /** The loop had not returned before the last pong. */
  ghost predicate AliveAt(c: Config, pong: int, firstPong: int, ticks: seq<Tick>) {
    forall n :: 0 <= n < |ticks| && ticks[n].now < pong ==> After(c, firstPong, ticks[..n + 1]).result.None?
  }

  lemma AliveBefore(c: Config, pong: int, firstPong: int, ticks: seq<Tick>)
    requires ticks != [] && AliveAt(c, pong, firstPong, ticks)
    ensures AliveAt(c, pong, firstPong, ticks[..|ticks| - 1])
  {
    var before := ticks[..|ticks| - 1];
    forall n | 0 <= n < |before| && before[n].now < pong ensures After(c, firstPong, before[..n + 1]).result.None? {
      assert before[..n + 1] == ticks[..n + 1];
    }
  }

  lemma {:induction false} DecidesInTime(c: Config, start: int, pong: int, firstPong: int, ticks: seq<Tick>)
    requires SilentFrom(c, start, pong, ticks) && start <= pong + c.interval + c.timeout
    requires AliveAt(c, pong, firstPong, ticks) && After(c, firstPong, ticks).result.Some?
    ensures var w := After(c, firstPong, ticks);
            var r := w.result.value;
            r.0.PongTimeout? && r.1 < |ticks| && InTime(c, pong, ticks[r.1].now, w)
  {
    var before := ticks[..|ticks| - 1];
    if After(c, firstPong, before).result.Some? {
      AliveBefore(c, pong, firstPong, ticks);
      SilentBefore(c, start, pong, ticks);
      DecidesInTime(c, start, pong, firstPong, before);
    } else {
      assert ticks[..|ticks|] == ticks;
      LastTick(c, start, pong, firstPong, ticks);
    }
  }

  /** If the loop was alive when the last pong came, it fails with a pong timeout: a data loop at a
      tick in (pong + I + T, pong + 2I + T], and the control loop after m <= 3 misses in
      (pong + mI + T, pong + (m + 1)I + T], where m is 3 if no other loop raises the counter. */
  lemma FailsInTime(c: Config, start: int, pong: int, firstPong: int, ticks: seq<Tick>)
    requires SilentFrom(c, start, pong, ticks) && start <= pong + c.interval + c.timeout
    requires AliveAt(c, pong, firstPong, ticks)
    requires ticks != [] && ticks[|ticks| - 1].now > pong + (if c.control then 3 else 1) * c.interval + c.timeout
    ensures var w := After(c, firstPong, ticks);
            var r := w.result;
            && r.Some? && r.value.0.PongTimeout? && r.value.1 < |ticks|
            && InTime(c, pong, ticks[r.value.1].now, w)
            && (c.control && Undisturbed(ticks) ==> w.misses == 3)
  {
    if After(c, firstPong, ticks).result.None? {
      AliveEarlier(c, firstPong, ticks);
      LastTick(c, start, pong, firstPong, ticks);
      assert false;
    }
    DecidesInTime(c, start, pong, firstPong, ticks);
    if Undisturbed(ticks) {
      assert [] + ticks == ticks;
      RaisesStayZero(c, firstPong, [], ticks);
    }
  }

  /** One raise by a cancelled predecessor is enough: with timeout 0 and the last pong at 0 the
      loop fails at the third interval after two misses, and not later than that. */
  lemma TwoMissesSuffice(interval: int)
    requires interval > 0
    ensures var c := Config(interval, 0, true);
            var ticks := [Tick(interval, 0, false, 1, true, false), Tick(2 * interval, 0, false, 0, true, false),
                          Tick(3 * interval, 0, false, 0, true, false)];
            && TimeOrdered(ticks) && SilentFrom(c, 0, 0, ticks) && AliveAt(c, 0, 0, ticks)
            && After(c, 0, ticks) == Watch(0, 2, 1, Some((PongTimeout, 2)))
            && !Overdue(c, ticks[0])
  {
    var c := Config(interval, 0, true);
    var t0, t1 := Tick(interval, 0, false, 1, true, false), Tick(2 * interval, 0, false, 0, true, false);
    var t2 := Tick(3 * interval, 0, false, 0, true, false);
    assert [t0, t1, t2][..2] == [t0, t1] && [t0, t1][..1] == [t0] && [t0][..0] == [];
    assert After(c, 0, [t0]) == Handled(c, Watch(0, 0, 0, None), t0, 0);
    assert After(c, 0, [t0, t1]) == Handled(c, After(c, 0, [t0]), t1, 1);
  }
}
