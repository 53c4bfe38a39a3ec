/** Proxied requests and the breaker they report to, in every interleaving.

    A request comes with everything its handler will meet: what the upstream does and which sends
    succeed (see Streaming).  It asks the breaker at most once; if admitted it is outstanding until
    its handler leaves, and then records what those inputs make HandleHTTPRequest record. */
module Requests {
  import opened Prelude
  import opened Breaker
  import opened Streaming

  datatype Input = Input(request: Request, upstream: Upstream, sendOk: nat -> bool)

  datatype Fate = NotAsked | Rejected | Outstanding | Left

  datatype Entry = Entry(input: Input, fate: Fate)

  datatype Action = Arrive(input: Input, now: int) | Leave(request: nat, now: int)

  /** `log`: the outcomes recorded so far, each with the request it belongs to. */
  datatype World = World(breaker: State, requests: seq<Entry>, log: seq<(nat, Record)>)

  function Initial(threshold: int, cooldown: int): World {
    World(New(threshold, cooldown), [], [])
  }

  /** A handler whose upstream never comes to an end stays. */
  predicate Leaves(input: Input) {
    !ExchangeEnd(input.upstream, input.sendOk).StillReading?
  }

  function Records(input: Input): seq<Record> {
    RecordsOf(input.upstream, input.sendOk)
  }

  /** The handler will record an outcome. */
  predicate Reports(input: Input) {
    Leaves(input) && Records(input) != []
  }

  function Told(b: State, records: seq<Record>, now: int): State {
    if records == [] then b else Next(b, if records[0].Success? then Event.Success(now) else Event.Failure(now))
  }

  function Signed(r: nat, records: seq<Record>): seq<(nat, Record)> {
    seq(|records|, k requires 0 <= k < |records| => (r, records[k]))
  }

  predicate IsOutstanding(w: World, r: nat) {
    r < |w.requests| && w.requests[r].fate.Outstanding?
  }

  function Step(w: World, a: Action): World {
    match a
    case Arrive(input, now) =>
      if !Asks(input.request) then w.(requests := w.requests + [Entry(input, NotAsked)])
      else
        var fate := if Admits(w.breaker, now) then Outstanding else Rejected;
        w.(breaker := Next(w.breaker, Ask(now)), requests := w.requests + [Entry(input, fate)])
    case Leave(r, now) =>
      if !IsOutstanding(w, r) || !Leaves(w.requests[r].input) then w
      else
        var records := Records(w.requests[r].input);
        World(Told(w.breaker, records, now), w.requests[r := w.requests[r].(fate := Left)], w.log + Signed(r, records))
  }

  function RunFrom(w: World, schedule: seq<Action>): World {
    if schedule == [] then w else Step(RunFrom(w, schedule[..|schedule| - 1]), schedule[|schedule| - 1])
  }

  /** Whoever is outstanding got past the checks before the breaker. */
  ghost predicate OutstandingAsked(w: World) {
    forall r: nat :: IsOutstanding(w, r) ==> Asks(w.requests[r].input.request)
  }

  lemma StepKeepsAsked(w: World, a: Action)
    requires OutstandingAsked(w)
    ensures OutstandingAsked(Step(w, a))
  {
    forall r: nat | IsOutstanding(Step(w, a), r) ensures Asks(Step(w, a).requests[r].input.request) {
      assert r < |w.requests| ==> IsOutstanding(w, r);
    }
  }

  // ---------------------------------------------------------------- the objects that take the steps

  /** The breaker of a client; `world` follows what its handlers do. */
  class Proxy {
    const circuit: CircuitBreaker
    ghost var world: World

    ghost predicate Valid()
      reads this, circuit
    {
      circuit.Model() == world.breaker && OutstandingAsked(world)
    }

    constructor (threshold: int, cooldown: int)
      ensures Valid() && fresh(circuit) && world == Initial(threshold, cooldown)
    {
      circuit := new CircuitBreaker(threshold, cooldown);
      world := Initial(threshold, cooldown);
    }

    /** A handler up to the breaker's answer.  One that is not admitted ends here. */
    method Accept(input: Input, chunkSize: nat, text: seq<byte>, now: int) returns (admitted: bool)
      requires Valid()
      requires input.upstream.Responds? ==>
                 forall k :: 0 <= k < |input.upstream.response.turns| ==>
                   |input.upstream.response.turns[k].data| <= chunkSize
      modifies this`world, circuit
      ensures Valid() && world == Step(old(world), Arrive(input, now))
      ensures admitted <==> IsOutstanding(world, |old(world).requests|)
    {
      admitted := false;
      if Asks(input.request) { admitted := circuit.Allow(now); }
      if !admitted {
        var result, asked, sent, records, observed;
        ghost var packets, consumed;
        result, asked, sent, records, observed, packets, consumed :=
          HandleHTTPRequest(input.request, false, input.upstream, chunkSize, text, input.sendOk);
        Tell(records, now);
      }
      StepKeepsAsked(world, Arrive(input, now));
      world := Step(world, Arrive(input, now));
    }

    /** The rest of an admitted handler, any number of steps of others later. */
    method Finish(r: nat, input: Input, chunkSize: nat, text: seq<byte>, now: int) returns (result: Result)
      requires Valid() && r < |world.requests| && world.requests[r] == Entry(input, Outstanding)
      requires input.upstream.Responds? ==>
                 forall k :: 0 <= k < |input.upstream.response.turns| ==>
                   |input.upstream.response.turns[k].data| <= chunkSize
      modifies this`world, circuit
      ensures Valid() && world == Step(old(world), Leave(r, now))
      ensures IsOutstanding(world, r) <==> result.StillReading?
    {
      var asked, sent, records, observed;
      ghost var packets, consumed;
      assert IsOutstanding(world, r);
      result, asked, sent, records, observed, packets, consumed :=
        HandleHTTPRequest(input.request, true, input.upstream, chunkSize, text, input.sendOk);
      Tell(records, now);
      StepKeepsAsked(world, Leave(r, now));
      world := Step(world, Leave(r, now));
    }

    method Tell(records: seq<Record>, now: int)
      modifies circuit
      ensures circuit.Model() == Told(old(circuit.Model()), records, now)
    {
      if records != [] {
        if records[0].Success? { circuit.RecordSuccess(now); } else { circuit.RecordFailure(now); }
      }
    }
  }

  // ---------------------------------------------------------------- accounting

  /** The outcomes that request r has recorded. */
  function RecordedBy(log: seq<(nat, Record)>, r: nat): seq<Record> {
    if log == [] then []
    else
      var before, last := RecordedBy(log[..|log| - 1], r), log[|log| - 1];
      if last.0 == r then before + [last.1] else before
  }

  lemma RecordedMore(log: seq<(nat, Record)>, owner: nat, records: seq<Record>, r: nat)
    requires |records| <= 1
    ensures RecordedBy(log + Signed(owner, records), r) == RecordedBy(log, r) + if r == owner then records else []
  {
    var more := log + Signed(owner, records);
    if records == [] {
      assert more == log;
    } else {
      assert more[..|more| - 1] == log;
    }
  }

  /** Who has recorded what: a handler that has left, what its inputs say; everybody else nothing. */
  ghost predicate Accounted(w: World) {
    forall r: nat :: RecordedBy(w.log, r) ==
                     if r < |w.requests| && w.requests[r].fate.Left? then Records(w.requests[r].input) else []
  }

  lemma StepAccounts(w: World, a: Action)
    requires Accounted(w)
    ensures Accounted(Step(w, a))
  {
    var v := Step(w, a);
    forall r: nat
      ensures RecordedBy(v.log, r) ==
              if r < |v.requests| && v.requests[r].fate.Left? then Records(v.requests[r].input) else []
    {
      assert RecordedBy(w.log, r) ==
             if r < |w.requests| && w.requests[r].fate.Left? then Records(w.requests[r].input) else [];
      if a.Leave? && IsOutstanding(w, a.request) && Leaves(w.requests[a.request].input) {
        var input := w.requests[a.request].input;
        OneOutcome(input.upstream, input.sendOk);
        RecordedMore(w.log, a.request, Records(input), r);
      }
    }
  }

  lemma {:induction false} RunAccounts(threshold: int, cooldown: int, schedule: seq<Action>)
    ensures Accounted(RunFrom(Initial(threshold, cooldown), schedule))
  {
    if schedule != [] {
      RunAccounts(threshold, cooldown, schedule[..|schedule| - 1]);
      StepAccounts(RunFrom(Initial(threshold, cooldown), schedule[..|schedule| - 1]), schedule[|schedule| - 1]);
    }
  }

  /** In every interleaving: a request that was rejected, never asked or is still outstanding has
      recorded nothing; one that has left has recorded exactly one outcome, unless it left because
      its timeout context had ended, and then none. */
  lemma OutcomesAccounted(threshold: int, cooldown: int, schedule: seq<Action>, r: nat)
    requires r < |RunFrom(Initial(threshold, cooldown), schedule).requests|
    ensures var w := RunFrom(Initial(threshold, cooldown), schedule);
            var input := w.requests[r].input;
            |RecordedBy(w.log, r)|
            == if w.requests[r].fate.Left? && !EndsOnTimeout(input.upstream, input.sendOk) then 1 else 0
  {
    var w := RunFrom(Initial(threshold, cooldown), schedule);
    RunAccounts(threshold, cooldown, schedule);
    assert RecordedBy(w.log, r) == if w.requests[r].fate.Left? then Records(w.requests[r].input) else [];
    OneOutcome(w.requests[r].input.upstream, w.requests[r].input.sendOk);
    LeftEnds(threshold, cooldown, schedule, r);
  }

  lemma {:induction false} LeftEnds(threshold: int, cooldown: int, schedule: seq<Action>, r: nat)
    ensures var w := RunFrom(Initial(threshold, cooldown), schedule);
            r < |w.requests| && w.requests[r].fate.Left? ==> Leaves(w.requests[r].input)
  {
    if schedule != [] { LeftEnds(threshold, cooldown, schedule[..|schedule| - 1], r); }
  }

  /** How many of the latest outcomes were failures. */
  function FailuresInARow(log: seq<(nat, Record)>): nat {
    if log == [] || log[|log| - 1].1.Success? then 0 else FailuresInARow(log[..|log| - 1]) + 1
  }

  predicate ReadOff(b: State, failures: nat) {
    b.threshold >= 1 && b.failures == failures && (b.phase.Closed? <==> failures < b.threshold)
  }

  lemma RowMore(log: seq<(nat, Record)>, r: nat, records: seq<Record>)
    requires |records| <= 1
    ensures FailuresInARow(log + Signed(r, records))
            == if records == [] then FailuresInARow(log) else if records[0].Success? then 0 else FailuresInARow(log) + 1
  {
    var more := log + Signed(r, records);
    assert if records == [] then more == log else more[..|more| - 1] == log;
  }

  lemma ToldReadsOff(b: State, failures: nat, records: seq<Record>, now: int)
    requires ReadOff(b, failures) && |records| <= 1
    ensures var after := if records == [] then failures else if records[0].Success? then 0 else failures + 1;
            ReadOff(Told(b, records, now), after)
  {
  }

  lemma StepReadsOff(w: World, a: Action)
    requires ReadOff(w.breaker, FailuresInARow(w.log))
    ensures var v := Step(w, a); ReadOff(v.breaker, FailuresInARow(v.log)) && v.breaker.threshold == w.breaker.threshold
  {
    if a.Leave? && IsOutstanding(w, a.request) {
      var input := w.requests[a.request].input;
      OneOutcome(input.upstream, input.sendOk);
      RowMore(w.log, a.request, Records(input));
      ToldReadsOff(w.breaker, FailuresInARow(w.log), Records(input), a.now);
    }
  }

  /** The breaker's counter and its closed state are read off the outcomes that the handlers recorded. */
  lemma {:induction false} BreakerRefinesOutcomes(threshold: int, cooldown: int, schedule: seq<Action>)
    ensures var w := RunFrom(Initial(threshold, cooldown), schedule);
            ReadOff(w.breaker, FailuresInARow(w.log)) && w.breaker.threshold == if threshold < 1 then 1 else threshold
  {
    if schedule != [] {
      BreakerRefinesOutcomes(threshold, cooldown, schedule[..|schedule| - 1]);
      StepReadsOff(RunFrom(Initial(threshold, cooldown), schedule[..|schedule| - 1]), schedule[|schedule| - 1]);
    }
  }

  // ---------------------------------------------------------------- the probe

  /** Half-open with nobody left to report: the breaker waits for an outcome that cannot come. */
  ghost predicate Stuck(w: World) {
    w.breaker.phase.HalfOpen? && forall r: nat :: !IsOutstanding(w, r)
  }

  /** The last outstanding handler leaves on the timeout while the breaker is half-open. */
  ghost predicate AbandonsProbe(w: World, a: Action) {
    && a.Leave? && w.breaker.phase.HalfOpen? && IsOutstanding(w, a.request)
    && (forall r: nat :: IsOutstanding(w, r) ==> r == a.request)
    && var input := w.requests[a.request].input; EndsOnTimeout(input.upstream, input.sendOk)
  }

  /** How a step changes who is outstanding. */
  lemma StepOutstanding(w: World, a: Action, q: nat)
    ensures IsOutstanding(Step(w, a), q) <==>
            match a
            case Arrive(input, now) =>
              IsOutstanding(w, q) || (q == |w.requests| && Asks(input.request) && Admits(w.breaker, now))
            case Leave(r, _) => IsOutstanding(w, q) && !(q == r && Leaves(w.requests[r].input))
  {
  }

  /** One step makes the breaker stuck exactly by abandoning its probe, and never unsticks it. */
  lemma StepSticks(w: World, a: Action)
    ensures Stuck(w) ==> Stuck(Step(w, a)) && Step(w, a).log == w.log
    ensures !Stuck(w) ==> (Stuck(Step(w, a)) <==> AbandonsProbe(w, a))
  {
    var v := Step(w, a);
    forall q: nat { StepOutstanding(w, a, q); }
    if a.Leave? && IsOutstanding(w, a.request) {
      var input := w.requests[a.request].input;
      OneOutcome(input.upstream, input.sendOk);
    }
    if a.Arrive? && Asks(a.input.request) && Admits(w.breaker, a.now) { assert IsOutstanding(v, |w.requests|); }
  }

  /** A stuck breaker rejects every later request that asks, for ever, and hears no outcome again. */
  lemma {:induction false} StuckForever(w: World, schedule: seq<Action>)
    requires Stuck(w)
    ensures var v := RunFrom(w, schedule);
            && Stuck(v) && v.log == w.log && |v.requests| >= |w.requests|
            && forall r :: |w.requests| <= r < |v.requests| ==>
                 v.requests[r].fate == if Asks(v.requests[r].input.request) then Rejected else NotAsked
  {
    if schedule != [] {
      StuckForever(w, schedule[..|schedule| - 1]);
      StepSticks(RunFrom(w, schedule[..|schedule| - 1]), schedule[|schedule| - 1]);
    }
  }

  /** Some step of the schedule abandons the probe. */
  ghost predicate ProbeAbandoned(w: World, schedule: seq<Action>) {
    exists k :: 0 <= k < |schedule| && AbandonsProbe(RunFrom(w, schedule[..k]), schedule[k])
  }

  lemma AbandonedSnoc(w: World, schedule: seq<Action>)
    requires schedule != []
    ensures var n := |schedule| - 1;
            ProbeAbandoned(w, schedule)
            <==> ProbeAbandoned(w, schedule[..n]) || AbandonsProbe(RunFrom(w, schedule[..n]), schedule[n])
  {
    var before := schedule[..|schedule| - 1];
    forall k | 0 <= k < |before| ensures before[..k] == schedule[..k] && before[k] == schedule[k] {}
  }

  /** Over all runs from a fresh breaker: stuck exactly when some step abandoned the probe. */
  lemma {:induction false} StuckIff(threshold: int, cooldown: int, schedule: seq<Action>)
    ensures var w := Initial(threshold, cooldown); Stuck(RunFrom(w, schedule)) <==> ProbeAbandoned(w, schedule)
  {
    if schedule != [] {
      var w, before := Initial(threshold, cooldown), schedule[..|schedule| - 1];
      StuckIff(threshold, cooldown, before);
      StepSticks(RunFrom(w, before), schedule[|schedule| - 1]);
      AbandonedSnoc(w, schedule);
    }
  }

  /** A request brings the inputs it arrived with. */
  lemma {:induction false} InputsArrive(w: World, schedule: seq<Action>, r: nat) returns (k: nat)
    requires |w.requests| <= r < |RunFrom(w, schedule).requests|
    ensures k < |schedule| && schedule[k].Arrive? && schedule[k].input == RunFrom(w, schedule).requests[r].input
  {
    var before := schedule[..|schedule| - 1];
    if r < |RunFrom(w, before).requests| {
      k := InputsArrive(w, before, r);
    } else {
      k := |schedule| - 1;
    }
  }

  /** Whenever the breaker is half-open a handler is outstanding, in every interleaving of requests
      none of whose inputs reach a timeout exit.  It may be one that never ends. */
  lemma HalfOpenHasProbe(threshold: int, cooldown: int, schedule: seq<Action>)
    requires forall k :: 0 <= k < |schedule| && schedule[k].Arrive? ==>
                       !EndsOnTimeout(schedule[k].input.upstream, schedule[k].input.sendOk)
    ensures var w := RunFrom(Initial(threshold, cooldown), schedule);
            w.breaker.phase.HalfOpen? ==> exists r: nat :: IsOutstanding(w, r)
  {
    var w0 := Initial(threshold, cooldown);
    StuckIff(threshold, cooldown, schedule);
    if k :| 0 <= k < |schedule| && AbandonsProbe(RunFrom(w0, schedule[..k]), schedule[k]) {
      var m := InputsArrive(w0, schedule[..k], schedule[k].request);
    }
  }

  // ---------------------------------------------------------------- when the breaker recovers

  ghost predicate TimesFrom(schedule: seq<Action>, now: int) {
    && (forall k :: 0 <= k < |schedule| ==> schedule[k].now >= now)
    && forall i, j :: 0 <= i < j < |schedule| ==> schedule[i].now <= schedule[j].now
  }

  /** Between w and v no request has been admitted. */
  ghost predicate NoneAdmitted(w: World, v: World) {
    && |v.requests| >= |w.requests|
    && forall r :: |w.requests| <= r < |v.requests| ==>
         v.requests[r].fate == if Asks(v.requests[r].input.request) then Rejected else NotAsked
  }

  /** Whatever comes from `now` on, every request that asks is rejected. */
  ghost predicate RejectsForever(w: World, now: int) {
    forall schedule :: TimesFrom(schedule, now) ==> NoneAdmitted(w, RunFrom(w, schedule))
  }

  /** Half-open, and no outstanding handler will ever record an outcome. */
  ghost predicate Hopeless(w: World) {
    w.breaker.phase.HalfOpen? && forall r: nat :: IsOutstanding(w, r) ==> !Reports(w.requests[r].input)
  }

  lemma StepHopeless(w: World, a: Action)
    requires Hopeless(w)
    ensures Hopeless(Step(w, a)) && NoneAdmitted(w, Step(w, a))
  {
    var v := Step(w, a);
    forall q: nat | IsOutstanding(v, q) ensures !Reports(v.requests[q].input) {
      StepOutstanding(w, a, q);
      assert IsOutstanding(w, q);
    }
  }

  lemma {:induction false} HopelessForever(w: World, schedule: seq<Action>)
    requires Hopeless(w)
    ensures Hopeless(RunFrom(w, schedule)) && NoneAdmitted(w, RunFrom(w, schedule))
  {
    if schedule != [] {
      HopelessForever(w, schedule[..|schedule| - 1]);
      StepHopeless(RunFrom(w, schedule[..|schedule| - 1]), schedule[|schedule| - 1]);
    }
  }

  /** An open breaker admits a request once the cooldown has passed, a closed one at once. */
  function AskTime(b: State, now: int): int {
    if b.phase.Open? && b.halfOpenAt.Some? && now < b.halfOpenAt.value + b.cooldown
    then b.halfOpenAt.value + b.cooldown
    else now
  }

  const PLAIN := Input(Request("1", "GET", "/", true, true), DoFailed(false), _ => true)

  lemma AskingIsAdmitted(w: World, now: int)
    requires !w.breaker.phase.HalfOpen?
    ensures var v := Step(w, Arrive(PLAIN, AskTime(w.breaker, now)));
            |v.requests| == |w.requests| + 1 && v.requests[|w.requests|].fate.Outstanding?
  {
  }

  lemma ReportAdmits(w: World, r: nat, now: int)
    requires w.breaker.phase.HalfOpen? && IsOutstanding(w, r) && Reports(w.requests[r].input)
    ensures var v := Step(w, Leave(r, now));
            var u := RunFrom(w, [Leave(r, now), Arrive(PLAIN, AskTime(v.breaker, now))]);
            |u.requests| == |w.requests| + 1 && u.requests[|w.requests|].fate.Outstanding?
  {
    var v := Step(w, Leave(r, now));
    assert !v.breaker.phase.HalfOpen? && |v.requests| == |w.requests|;
    AskingIsAdmitted(v, now);
    var none: seq<Action> := [];
    assert none + [Leave(r, now), Arrive(PLAIN, AskTime(v.breaker, now))]
        == [Leave(r, now), Arrive(PLAIN, AskTime(v.breaker, now))];
    RunTwo(w, none, Leave(r, now), Arrive(PLAIN, AskTime(v.breaker, now)));
  }

  /** How a request comes to be admitted when there is hope. */
  lemma HopeAdmits(w: World, now: int) returns (schedule: seq<Action>)
    requires !Hopeless(w)
    ensures TimesFrom(schedule, now) && !NoneAdmitted(w, RunFrom(w, schedule))
  {
    if w.breaker.phase.HalfOpen? {
      var r: nat :| IsOutstanding(w, r) && Reports(w.requests[r].input);
      ReportAdmits(w, r, now);
      schedule := [Leave(r, now), Arrive(PLAIN, AskTime(Step(w, Leave(r, now)).breaker, now))];
    } else {
      schedule := [Arrive(PLAIN, AskTime(w.breaker, now))];
      AskingIsAdmitted(w, now);
      assert schedule[..0] == [];
    }
  }

  /** For every world: the breaker rejects every later request that asks, for ever, exactly when it
      is half-open and no outstanding handler will record an outcome: each ends on its timeout or
      does not end. */
  lemma RejectsForeverIff(w: World, now: int)
    ensures RejectsForever(w, now) <==> Hopeless(w)
  {
    if Hopeless(w) {
      forall schedule ensures NoneAdmitted(w, RunFrom(w, schedule)) { HopelessForever(w, schedule); }
    } else {
      var schedule := HopeAdmits(w, now);
      assert !NoneAdmitted(w, RunFrom(w, schedule));
    }
  }

  /** In a run of requests whose handlers all record an outcome the breaker always recovers. */
  lemma RecoversIfAllReport(threshold: int, cooldown: int, schedule: seq<Action>, now: int)
    requires forall k :: 0 <= k < |schedule| && schedule[k].Arrive? ==> Reports(schedule[k].input)
    ensures !RejectsForever(RunFrom(Initial(threshold, cooldown), schedule), now)
  {
    var w0 := Initial(threshold, cooldown);
    var w := RunFrom(w0, schedule);
    RejectsForeverIff(w, now);
    if w.breaker.phase.HalfOpen? {
      forall k | 0 <= k < |schedule| && schedule[k].Arrive?
        ensures !EndsOnTimeout(schedule[k].input.upstream, schedule[k].input.sendOk)
      {
        OneOutcome(schedule[k].input.upstream, schedule[k].input.sendOk);
      }
      HalfOpenHasProbe(threshold, cooldown, schedule);
      var r: nat :| IsOutstanding(w, r);
      var k := InputsArrive(w0, schedule, r);
    }
  }

  // ---------------------------------------------------------------- runs that do not recover

  /** n requests arrive and fail at time 0. */
  function Failing(input: Input, n: nat): seq<Action> {
    if n == 0 then [] else Failing(input, n - 1) + [Arrive(input, 0), Leave(n - 1, 0)]
  }

  lemma RunTwo(w: World, schedule: seq<Action>, a: Action, b: Action)
    ensures RunFrom(w, schedule + [a, b]) == Step(Step(RunFrom(w, schedule), a), b)
  {
    var all, some := schedule + [a, b], schedule + [a];
    assert all[..|all| - 1] == some && some[..|some| - 1] == schedule;
  }

  /** The state of a breaker after n failures at time 0, up to its threshold. */
  ghost predicate FailedAtZero(w: World, threshold: int, cooldown: int, n: nat) {
    && |w.requests| == n && (forall r: nat :: !IsOutstanding(w, r))
    && w.breaker.threshold == threshold && w.breaker.cooldown == cooldown && w.breaker.failures == n
    && if n < threshold then w.breaker.phase.Closed? else w.breaker.phase.Open? && w.breaker.halfOpenAt == Some(0)
  }

  /** A request that is let through, fails and comes to an end. */
  ghost predicate Fails(input: Input) {
    && Asks(input.request) && Leaves(input)
    && match input.upstream
       case DoFailed(timeoutCause) => !timeoutCause
       case Responds(response) =>
         && !(200 <= response.status <= 299)
         && var end := RelayEnd(response, input.sendOk, 0, 0);
            end.Completed? || end.FinalSendFailed? || end.ChunkSendFailed?
  }

  lemma FailsRecords(input: Input)
    requires Fails(input)
    ensures Records(input) == [Record.Failure]
  {
    if input.upstream.Responds? { OutcomeByStatus(input.upstream.response, input.sendOk); }
  }

  lemma {:induction false} FailuresOpen(threshold: int, cooldown: int, input: Input, n: nat)
    requires 1 <= threshold && cooldown >= 0 && n <= threshold && Fails(input)
    ensures FailedAtZero(RunFrom(Initial(threshold, cooldown), Failing(input, n)), threshold, cooldown, n)
  {
    if n > 0 {
      FailuresOpen(threshold, cooldown, input, n - 1);
      FailsRecords(input);
      var w := RunFrom(Initial(threshold, cooldown), Failing(input, n - 1));
      RunTwo(Initial(threshold, cooldown), Failing(input, n - 1), Arrive(input, 0), Leave(n - 1, 0));
      var v := Step(w, Arrive(input, 0));
      assert v.requests[n - 1] == Entry(input, Outstanding);
      var u := Step(v, Leave(n - 1, 0));
      forall r: nat ensures !IsOutstanding(u, r) { assert !IsOutstanding(w, r); }
    }
  }

  /** The hypothesis is needed, whatever the threshold (the client's is 5, with a cooldown of 30 s):
      as many failures open the breaker, the probe is admitted after the cooldown and times out, and
      from then on no request is ever admitted again. */
  lemma TimedOutProbeSticks(threshold: int, cooldown: int, bad: Input, slow: Input, later: seq<Action>)
    requires threshold >= 1 && cooldown >= 0
    requires Fails(bad)
    requires Asks(slow.request) && slow.upstream == DoFailed(true)
    ensures var w := RunFrom(Initial(threshold, cooldown),
                             Failing(bad, threshold) + [Arrive(slow, cooldown), Leave(threshold, cooldown)]);
            && Stuck(w) && |w.requests| == threshold + 1 && w.requests[threshold] == Entry(slow, Left)
            && forall r: nat :: threshold < r < |RunFrom(w, later).requests| ==>
                 !RunFrom(w, later).requests[r].fate.Outstanding? && !RunFrom(w, later).requests[r].fate.Left?
  {
    FailuresOpen(threshold, cooldown, bad, threshold);
    var w := RunFrom(Initial(threshold, cooldown), Failing(bad, threshold));
    RunTwo(Initial(threshold, cooldown), Failing(bad, threshold), Arrive(slow, cooldown), Leave(threshold, cooldown));
    var v := Step(w, Arrive(slow, cooldown));
    assert v.requests[threshold] == Entry(slow, Outstanding) && v.breaker.phase.HalfOpen?;
    var u := Step(v, Leave(threshold, cooldown));
    forall r: nat ensures !IsOutstanding(u, r) { assert !IsOutstanding(w, r); }
    StuckForever(u, later);
  }

  /** An event stream without an end: reads go on as long as anybody looks, and every send succeeds. */
  ghost predicate EndlessStream(input: Input) {
    && Asks(input.request) && input.upstream.Responds? && input.upstream.response.isSSE
    && (forall k :: 0 <= k < |input.upstream.response.turns| ==> input.upstream.response.turns[k].error.NoError?)
    && forall k: nat :: input.sendOk(k)
  }

  lemma EndlessStays(input: Input)
    requires EndlessStream(input)
    ensures !Leaves(input) && !EndsOnTimeout(input.upstream, input.sendOk)
  {
    var response := input.upstream.response;
    EndAfter(response, input.sendOk, |response.turns|);
  }

  /** No timeout is needed: if the probe is an event stream without an end, which is exempt from the
      timeout, the breaker stays half-open and rejects everybody else, though its probe is outstanding. */
  lemma EndlessProbeRejects(threshold: int, cooldown: int, bad: Input, stream: Input, now: int)
    requires threshold >= 1 && cooldown >= 0
    requires Fails(bad) && EndlessStream(stream)
    ensures var w := RunFrom(Initial(threshold, cooldown),
                             Failing(bad, threshold) + [Arrive(stream, cooldown), Leave(threshold, cooldown)]);
            IsOutstanding(w, threshold) && !Stuck(w) && RejectsForever(w, now)
  {
    FailuresOpen(threshold, cooldown, bad, threshold);
    EndlessStays(stream);
    var w := RunFrom(Initial(threshold, cooldown), Failing(bad, threshold));
    RunTwo(Initial(threshold, cooldown), Failing(bad, threshold), Arrive(stream, cooldown), Leave(threshold, cooldown));
    var v := Step(w, Arrive(stream, cooldown));
    assert v.requests[threshold] == Entry(stream, Outstanding) && v.breaker.phase.HalfOpen?;
    assert IsOutstanding(v, threshold) && Step(v, Leave(threshold, cooldown)) == v;
    forall r: nat | IsOutstanding(v, r) ensures !Reports(v.requests[r].input) {
      assert !IsOutstanding(w, r);
      assert r == threshold;
    }
    RejectsForeverIff(v, now);
  }

  // ---------------------------------------------------------------- statuses and the breaker

  /** As many responses other than 2xx as the threshold says, or failed calls, open a fresh breaker:
      the next request is rejected until the cooldown has passed. */
  lemma ErrorResponsesOpen(threshold: int, cooldown: int, bad: Input, next: Input, now: int)
    requires threshold >= 1 && cooldown >= 0 && Fails(bad) && Asks(next.request)
    ensures var w := RunFrom(Initial(threshold, cooldown), Failing(bad, threshold));
            var v := Step(w, Arrive(next, now));
            |v.requests| == threshold + 1 &&
            v.requests[threshold].fate == if now >= cooldown then Outstanding else Rejected
  {
    FailuresOpen(threshold, cooldown, bad, threshold);
  }

  /** From any world, one 2xx response relayed to its end closes the breaker, and the next request is admitted. */
  lemma GoodResponseCloses(w: World, r: nat, next: Input, now: int, later: int)
    requires IsOutstanding(w, r) && Asks(next.request)
    requires var input := w.requests[r].input;
             && input.upstream.Responds? && 200 <= input.upstream.response.status <= 299
             && RelayEnd(input.upstream.response, input.sendOk, 0, 0).Completed?
    ensures var v := Step(w, Leave(r, now));
            var u := Step(v, Arrive(next, later));
            && v.breaker.phase.Closed? && v.breaker.failures == 0 && v.requests[r].fate.Left?
            && v.log == w.log + [(r, Record.Success)]
            && |u.requests| == |w.requests| + 1 && u.requests[|w.requests|].fate.Outstanding?
  {
    var input := w.requests[r].input;
    OutcomeByStatus(input.upstream.response, input.sendOk);
    assert Signed(r, Records(input)) == [(r, Record.Success)];
  }
}
