/** The circuit breaker of pkg/client/circuit.go: a timed state machine, the object that
    implements it, and what its answers mean in terms of the events it has seen. */
module Breaker {
  import opened Prelude

  datatype Phase = Closed | Open | HalfOpen

  /** `None` is the zero time. */
  datatype State = State(
    threshold: int, cooldown: int, failures: int, phase: Phase,
    lastFailure: Option<int>, halfOpenAt: Option<int>)

  function New(threshold: int, cooldown: int): State {
    State(if threshold < 1 then 1 else threshold, if cooldown < 0 then 0 else cooldown, 0, Closed, None, None)
  }

  datatype Event = Ask(now: int) | Success(now: int) | Failure(now: int)

  /** Open refuses until the cooldown has passed; half-open refuses everybody but its probe.
      The zero time lies further back than any duration. */
  predicate Admits(b: State, now: int) {
    b.phase.Closed? || (b.phase.Open? && (b.halfOpenAt.Some? ==> now - b.halfOpenAt.value >= b.cooldown))
  }

  function Next(b: State, e: Event): State {
    match e
    case Ask(now) => if b.phase.Open? && Admits(b, now) then b.(phase := HalfOpen) else b
    case Success(_) => b.(failures := 0, lastFailure := None, halfOpenAt := None, phase := Closed)
    case Failure(now) =>
      var c := b.(failures := b.failures + 1, lastFailure := Some(now));
      match b.phase
      case HalfOpen => c.(halfOpenAt := Some(now), phase := Open)
      case Open => c
      case Closed => if c.failures >= b.threshold then c.(halfOpenAt := Some(now), phase := Open) else c
  }

  class CircuitBreaker {
    const threshold: int
    const cooldown: int
    var consecutiveFailures: int
    var state: Phase
    var lastFailureTime: Option<int>
    var halfOpenAt: Option<int>

    function Model(): State
      reads this
    {
      State(threshold, cooldown, consecutiveFailures, state, lastFailureTime, halfOpenAt)
    }

    constructor (threshold: int, cooldown: int)
      ensures Model() == New(threshold, cooldown)
    {
      var t, c := threshold, cooldown;
      if t < 1 { t := 1; }
      if c < 0 { c := 0; }
      this.threshold, this.cooldown := t, c;
      consecutiveFailures, state, lastFailureTime, halfOpenAt := 0, Closed, None, None;
    }

    method Allow(now: int) returns (admitted: bool)
      modifies this`state
      ensures admitted == Admits(old(Model()), now)
      ensures Model() == Next(old(Model()), Ask(now))
    {
      match state {
        case Closed => return true;
        case Open =>
          if halfOpenAt.Some? && now - halfOpenAt.value < cooldown { return false; }
          state := HalfOpen;
          return true;
        case HalfOpen => return false;
      }
    }

    method RecordSuccess(now: int)
      modifies this
      ensures Model() == Next(old(Model()), Success(now))
    {
      consecutiveFailures := 0;
      lastFailureTime := None;
      halfOpenAt := None;
      state := Closed;
    }

    method RecordFailure(now: int)
      modifies this
      ensures Model() == Next(old(Model()), Failure(now))
    {
      consecutiveFailures := consecutiveFailures + 1;
      lastFailureTime := Some(now);
      match state {
        case HalfOpen =>
          halfOpenAt := Some(now);
          state := Open;
        case Open =>
        case Closed =>
          if consecutiveFailures >= threshold {
            halfOpenAt := Some(now);
            state := Open;
          }
      }
    }
  }

  // ---------------------------------------------------------------- traces

  function Run(b: State, trace: seq<Event>): State {
    if trace == [] then b else Next(Run(b, trace[..|trace| - 1]), trace[|trace| - 1])
  }

  /** The times of the admitted calls, in order. */
  function Admissions(b: State, trace: seq<Event>): seq<int> {
    if trace == [] then []
    else
      var before, e := trace[..|trace| - 1], trace[|trace| - 1];
      Admissions(b, before) + if e.Ask? && Admits(Run(b, before), e.now) then [e.now] else []
  }

  ghost predicate Ordered(trace: seq<Event>) {
    forall i, j :: 0 <= i < j < |trace| ==> trace[i].now <= trace[j].now
  }

  /** The reference reading of a log: how many failures since the last success. */
  function FailuresSinceSuccess(trace: seq<Event>): nat {
    if trace == [] then 0
    else
      match trace[|trace| - 1]
      case Success(_) => 0
      case Failure(_) => FailuresSinceSuccess(trace[..|trace| - 1]) + 1
      case Ask(_) => FailuresSinceSuccess(trace[..|trace| - 1])
  }

  /** The time of the last failure, forgotten at a success. */
  function LastFailure(trace: seq<Event>): Option<int> {
    if trace == [] then None
    else
      match trace[|trace| - 1]
      case Success(_) => None
      case Failure(now) => Some(now)
      case Ask(_) => LastFailure(trace[..|trace| - 1])
  }

  /** The counter and the closed state read off the log, for every constructor argument. */
  lemma {:induction false} RefinesLog(threshold: int, cooldown: int, trace: seq<Event>)
    ensures var b := Run(New(threshold, cooldown), trace);
            && b.failures == FailuresSinceSuccess(trace)
            && (b.phase.Closed? <==> FailuresSinceSuccess(trace) < b.threshold)
            && b.threshold == (if threshold < 1 then 1 else threshold)
            && b.cooldown == (if cooldown < 0 then 0 else cooldown)
            && (b.phase.Open? ==> b.halfOpenAt.Some?)
            && b.lastFailure == LastFailure(trace)
  {
    if trace != [] { RefinesLog(threshold, cooldown, trace[..|trace| - 1]); }
  }

  /** The state after `k` admissions since an opening at time `since`. */
  ghost predicate Paced(b: State, since: int, k: nat, now: int) {
    && (b.phase.Open? ==> b.halfOpenAt.Some? && b.halfOpenAt.value >= since + k * b.cooldown)
    && (b.phase.HalfOpen? ==> now >= since + k * b.cooldown)
    && !b.phase.Closed?
  }

  lemma {:induction false} PacedRun(b: State, since: int, trace: seq<Event>)
    requires b.phase.Open? && b.halfOpenAt == Some(since) && b.cooldown >= 0
    requires Ordered(trace) && forall i :: 0 <= i < |trace| ==> !trace[i].Success?
    ensures Run(b, trace).cooldown == b.cooldown
    ensures Paced(Run(b, trace), since, |Admissions(b, trace)|, if trace == [] then since else trace[|trace| - 1].now)
    ensures forall k :: 0 <= k < |Admissions(b, trace)| ==> Admissions(b, trace)[k] >= since + (k + 1) * b.cooldown
  {
    if trace != [] {
      var before, e := trace[..|trace| - 1], trace[|trace| - 1];
      PacedRun(b, since, before);
      assert before != [] ==> before[|before| - 1].now <= e.now;
      var k := |Admissions(b, before)|;
      assert since + (k + 1) * b.cooldown == since + k * b.cooldown + b.cooldown;
    }
  }

  /** Rate bound: after an opening at `since` and without a recorded success, the k-th admitted
      call (k = 1, 2, ..) comes no earlier than `since + k * cooldown`, whatever failures stray in. */
  lemma RateBound(b: State, since: int, trace: seq<Event>, k: nat)
    requires b.phase.Open? && b.halfOpenAt == Some(since) && b.cooldown >= 0
    requires Ordered(trace) && forall i :: 0 <= i < |trace| ==> !trace[i].Success?
    requires 1 <= k <= |Admissions(b, trace)|
    ensures Admissions(b, trace)[k - 1] >= since + k * b.cooldown
  {
    PacedRun(b, since, trace);
  }

  /** Without a success or an admission the breaker stays open as of `since`: no failure that strays
      in extends the cooldown. */
  lemma {:induction false} StraysChangeNothing(b: State, since: int, trace: seq<Event>)
    requires b.phase.Open? && b.halfOpenAt == Some(since)
    requires (forall i :: 0 <= i < |trace| ==> !trace[i].Success?) && Admissions(b, trace) == []
    ensures var c := Run(b, trace); c.phase.Open? && c.halfOpenAt == Some(since) && c.cooldown == b.cooldown
  {
    if trace != [] { StraysChangeNothing(b, since, trace[..|trace| - 1]); }
  }

  /** After an opening at `since`, and whatever failures stray in, a request is admitted exactly from
      since + cooldown on. */
  lemma AdmittedExactlyAfterCooldown(b: State, since: int, trace: seq<Event>, now: int)
    requires b.phase.Open? && b.halfOpenAt == Some(since)
    requires (forall i :: 0 <= i < |trace| ==> !trace[i].Success?) && Admissions(b, trace) == []
    ensures Admits(Run(b, trace), now) <==> now >= since + b.cooldown
    ensures Run(b, trace + [Ask(now)]).phase == if now >= since + b.cooldown then HalfOpen else Open
  {
    StraysChangeNothing(b, since, trace);
    assert (trace + [Ask(now)])[..|trace|] == trace;
  }

  /** When the breaker opens: at the failure that completes a row of `threshold`, and at every failure
      while half-open; the cooldown counts from that failure. */
  lemma OpensExactly(threshold: int, cooldown: int, trace: seq<Event>, now: int)
    ensures var b, c := Run(New(threshold, cooldown), trace), Run(New(threshold, cooldown), trace + [Failure(now)]);
            var row := FailuresSinceSuccess(trace) + 1;
            && (b.phase.Closed? && (row == threshold || (row == 1 && threshold < 1)) ==>
                  c.phase.Open? && c.halfOpenAt == Some(now))
            && (b.phase.Closed? && row < threshold ==> c.phase.Closed?)
            && (b.phase.HalfOpen? ==> c.phase.Open? && c.halfOpenAt == Some(now))
  {
    RefinesLog(threshold, cooldown, trace);
    assert (trace + [Failure(now)])[..|trace|] == trace;
  }

  /** A closed breaker admits everybody, a half-open one nobody; a success closes it from any state. */
  lemma ClosedAndHalfOpen(b: State, now: int, at: int)
    ensures b.phase.Closed? ==> Admits(b, now) && Next(b, Ask(now)) == b
    ensures b.phase.HalfOpen? ==> !Admits(b, now) && Next(b, Ask(now)) == b
    ensures Next(b, Success(at)).phase.Closed? && Next(b, Success(at)).failures == 0
  {
  }

  /** n probes, each admitted at the first possible moment and failing at once. */
  function Probes(since: int, cooldown: int, n: nat): seq<Event> {
    if n == 0 then []
    else Probes(since, cooldown, n - 1) + [Ask(since + n * cooldown), Failure(since + n * cooldown)]
  }

  /** The bound is attained for every k. */
  lemma {:induction false} RateBoundTight(b: State, since: int, n: nat)
    requires b.phase.Open? && b.halfOpenAt == Some(since) && b.cooldown >= 0
    ensures var trace := Probes(since, b.cooldown, n);
            && |Admissions(b, trace)| == n
            && (forall k :: 1 <= k <= n ==> Admissions(b, trace)[k - 1] == since + k * b.cooldown)
            && var c := Run(b, trace);
               c.phase.Open? && c.halfOpenAt == Some(since + n * b.cooldown) && c.cooldown == b.cooldown
  {
    if n > 0 {
      RateBoundTight(b, since, n - 1);
      var before, t := Probes(since, b.cooldown, n - 1), since + n * b.cooldown;
      assert t == since + (n - 1) * b.cooldown + b.cooldown;
      ProbeStep(b, before, t);
      assert Probes(since, b.cooldown, n) == before + [Ask(t), Failure(t)];
    }
  }

  /** An open breaker whose cooldown has just passed admits the probe and opens again when it fails. */
  lemma ProbeStep(b: State, before: seq<Event>, t: int)
    requires var c := Run(b, before); c.phase.Open? && c.halfOpenAt == Some(t - c.cooldown)
    ensures var trace := before + [Ask(t), Failure(t)];
            && Admissions(b, trace) == Admissions(b, before) + [t]
            && var c := Run(b, trace); c.phase.Open? && c.halfOpenAt == Some(t) && c.cooldown == Run(b, before).cooldown
  {
    var asked, trace := before + [Ask(t)], before + [Ask(t), Failure(t)];
    assert trace[..|trace| - 1] == asked && asked[..|asked| - 1] == before;
    assert Run(b, asked) == Next(Run(b, before), Ask(t));
  }
}
