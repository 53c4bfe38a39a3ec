/** The stream semaphore, the per-connection stream counts and the active-stream gauge, in
    every interleaving of request arrivals and handler steps of one client. */
module StreamSlots {

  const MAX_CONCURRENT_STREAMS := 128

  /** Where a handler goroutine stands: it takes its token before it starts, counts itself in
      twice, and undoes the three in reverse order. */
  datatype Phase =
    | Started      // token
    | Counted      // token, stream count
    | Serving      // token, stream count, gauge
    | Leaving      // token, stream count
    | Releasing    // token
    | Gone

  datatype Handler = Handler(conn: nat, phase: Phase)

  /** `streams[c]` is the count of connection c; `overloads` counts the rejections. */
  datatype Client = Client(handlers: seq<Handler>, tokens: int, streams: seq<int>, gauge: int, overloads: nat)

  datatype Action = Request(conn: nat) | Advance(handler: nat)

  function New(connections: nat): Client {
    Client([], 0, seq(connections, _ => 0), 0, 0)
  }

  function Step(c: Client, a: Action): Client {
    match a
    case Request(conn) =>
      if conn >= |c.streams| then c
      else if c.tokens >= MAX_CONCURRENT_STREAMS then c.(overloads := c.overloads + 1)
      else c.(tokens := c.tokens + 1, handlers := c.handlers + [Handler(conn, Started)])
    case Advance(h) =>
      if h >= |c.handlers| || c.handlers[h].conn >= |c.streams| then c
      else
        var conn := c.handlers[h].conn;
        match c.handlers[h].phase
        case Started => Move(c, h, Counted).(streams := c.streams[conn := c.streams[conn] + 1])
        case Counted => Move(c, h, Serving).(gauge := c.gauge + 1)
        case Serving => Move(c, h, Leaving).(gauge := c.gauge - 1)
        case Leaving => Move(c, h, Releasing).(streams := c.streams[conn := c.streams[conn] - 1])
        case Releasing => Move(c, h, Gone).(tokens := c.tokens - 1)
        case Gone => c
  }

  function Move(c: Client, h: nat, phase: Phase): Client
    requires h < |c.handlers|
  {
    c.(handlers := c.handlers[h := c.handlers[h].(phase := phase)])
  }

  function Run(connections: nat, schedule: seq<Action>): Client {
    if schedule == [] then New(connections)
    else Step(Run(connections, schedule[..|schedule| - 1]), schedule[|schedule| - 1])
  }

  // ---------------------------------------------------------------- sums over handlers

  function Sum(s: seq<int>): int {
    if s == [] then 0 else s[0] + Sum(s[1..])
  }

  lemma {:induction false} SumUpdate(s: seq<int>, i: nat, x: int)
    requires i < |s|
    ensures Sum(s[i := x]) == Sum(s) - s[i] + x
  {
    if i == 0 {
      assert s[i := x][1..] == s[1..];
    } else {
      SumUpdate(s[1..], i - 1, x);
      assert s[i := x][1..] == s[1..][i - 1 := x];
    }
  }

  lemma {:induction false} SumSnoc(s: seq<int>, x: int)
    ensures Sum(s + [x]) == Sum(s) + x
  {
    if s != [] {
      SumSnoc(s[1..], x);
      assert (s + [x])[1..] == s[1..] + [x];
    }
  }

  lemma {:induction false} SumZero(s: seq<int>)
    requires forall i :: 0 <= i < |s| ==> s[i] == 0
    ensures Sum(s) == 0
  {
    if s != [] { SumZero(s[1..]); }
  }

  lemma {:induction false} SumMonotone(a: seq<int>, b: seq<int>)
    requires |a| == |b| && forall i :: 0 <= i < |a| ==> a[i] <= b[i]
    ensures Sum(a) <= Sum(b)
  {
    if a != [] { SumMonotone(a[1..], b[1..]); }
  }

  datatype Kind = Token | Stream | Gauge | StreamOf(conn: nat)

  /** What one handler contributes to each of the counters. */
  function Weight(h: Handler, kind: Kind): int {
    match kind
    case Token => if h.phase.Gone? then 0 else 1
    case Stream => if h.phase.Counted? || h.phase.Serving? || h.phase.Leaving? then 1 else 0
    case Gauge => if h.phase.Serving? then 1 else 0
    case StreamOf(conn) => if h.conn == conn && (h.phase.Counted? || h.phase.Serving? || h.phase.Leaving?) then 1 else 0
  }

  function Weights(handlers: seq<Handler>, kind: Kind): (r: seq<int>)
    ensures |r| == |handlers|
  {
    seq(|handlers|, i requires 0 <= i < |handlers| => Weight(handlers[i], kind))
  }

  function Total(handlers: seq<Handler>, kind: Kind): int {
    Sum(Weights(handlers, kind))
  }

  lemma TotalUpdate(handlers: seq<Handler>, i: nat, h: Handler, kind: Kind)
    requires i < |handlers|
    ensures Total(handlers[i := h], kind) == Total(handlers, kind) - Weight(handlers[i], kind) + Weight(h, kind)
  {
    assert Weights(handlers[i := h], kind) == Weights(handlers, kind)[i := Weight(h, kind)];
    SumUpdate(Weights(handlers, kind), i, Weight(h, kind));
  }

  lemma TotalSnoc(handlers: seq<Handler>, h: Handler, kind: Kind)
    ensures Total(handlers + [h], kind) == Total(handlers, kind) + Weight(h, kind)
  {
    assert Weights(handlers + [h], kind) == Weights(handlers, kind) + [Weight(h, kind)];
    SumSnoc(Weights(handlers, kind), Weight(h, kind));
  }

  // ---------------------------------------------------------------- the counters are the handlers' weights

  ghost predicate Inv(c: Client) {
    && (forall h :: 0 <= h < |c.handlers| ==> c.handlers[h].conn < |c.streams|)
    && c.tokens == Total(c.handlers, Token) && c.tokens <= MAX_CONCURRENT_STREAMS
    && c.gauge == Total(c.handlers, Gauge)
    && Sum(c.streams) == Total(c.handlers, Stream)
    && forall k :: 0 <= k < |c.streams| ==> c.streams[k] == Total(c.handlers, StreamOf(k))
  }

  lemma RequestKeepsInv(c: Client, conn: nat)
    requires Inv(c)
    ensures Inv(Step(c, Request(conn)))
  {
    var h := Handler(conn, Started);
    TotalSnoc(c.handlers, h, Token);
    TotalSnoc(c.handlers, h, Gauge);
    TotalSnoc(c.handlers, h, Stream);
    forall k | 0 <= k < |c.streams| ensures Total(c.handlers + [h], StreamOf(k)) == Total(c.handlers, StreamOf(k)) {
      TotalSnoc(c.handlers, h, StreamOf(k));
    }
  }

  /** Each step of a handler moves the counters by the change of its weights. */
  lemma MovedBy(c: Client, c': Client, i: nat)
    requires Inv(c) && i < |c.handlers| && c' == Step(c, Advance(i))
    ensures |c'.handlers| == |c.handlers| && |c'.streams| == |c.streams|
    ensures var g, h := c.handlers[i], c'.handlers[i];
            && c'.handlers == c.handlers[i := h] && h.conn == g.conn < |c.streams|
            && c'.tokens == c.tokens - Weight(g, Token) + Weight(h, Token) && c'.tokens <= c.tokens
            && c'.gauge == c.gauge - Weight(g, Gauge) + Weight(h, Gauge)
            && c'.streams == c.streams[g.conn := c.streams[g.conn] - Weight(g, Stream) + Weight(h, Stream)]
  {
  }

  lemma AdvanceKeepsInv(c: Client, i: nat)
    requires Inv(c)
    ensures Inv(Step(c, Advance(i)))
  {
    if i < |c.handlers| {
      var c' := Step(c, Advance(i));
      var h, g := c'.handlers[i], c.handlers[i];
      MovedBy(c, c', i);
      TotalUpdate(c.handlers, i, h, Token);
      TotalUpdate(c.handlers, i, h, Gauge);
      TotalUpdate(c.handlers, i, h, Stream);
      forall k | 0 <= k < |c.streams| ensures c'.streams[k] == Total(c'.handlers, StreamOf(k)) {
        TotalUpdate(c.handlers, i, h, StreamOf(k));
      }
      SumUpdate(c.streams, g.conn, c'.streams[g.conn]);
    }
  }

  lemma {:induction false} RunInv(connections: nat, schedule: seq<Action>)
    ensures Inv(Run(connections, schedule)) && |Run(connections, schedule).streams| == connections
  {
    if schedule == [] {
      SumZero(New(connections).streams);
    } else {
      RunInv(connections, schedule[..|schedule| - 1]);
      var c, a := Run(connections, schedule[..|schedule| - 1]), schedule[|schedule| - 1];
      match a
      case Request(conn) => RequestKeepsInv(c, conn);
      case Advance(h) => AdvanceKeepsInv(c, h);
    }
  }

  /** gauge <= sum of stream counts <= tokens held <= 128, nothing negative, in every reachable state. */
  lemma CountersOrdered(connections: nat, schedule: seq<Action>)
    ensures var c := Run(connections, schedule);
            && 0 <= c.gauge <= Sum(c.streams) <= c.tokens <= 128
            && forall k :: 0 <= k < |c.streams| ==> 0 <= c.streams[k] <= c.tokens
  {
    var c := Run(connections, schedule);
    RunInv(connections, schedule);
    var none := seq(|c.handlers|, i => 0);
    SumZero(none);
    SumMonotone(none, Weights(c.handlers, Gauge));
    SumMonotone(Weights(c.handlers, Gauge), Weights(c.handlers, Stream));
    SumMonotone(Weights(c.handlers, Stream), Weights(c.handlers, Token));
    forall k | 0 <= k < |c.streams| ensures 0 <= c.streams[k] <= c.tokens {
      SumMonotone(none, Weights(c.handlers, StreamOf(k)));
      SumMonotone(Weights(c.handlers, StreamOf(k)), Weights(c.handlers, Token));
    }
  }

  /** Once every handler has finished, all counters are back at zero. */
  lemma AllReturnToZero(connections: nat, schedule: seq<Action>)
    requires forall h :: 0 <= h < |Run(connections, schedule).handlers| ==>
               Run(connections, schedule).handlers[h].phase.Gone?
    ensures var c := Run(connections, schedule);
            c.tokens == 0 && c.gauge == 0 && forall k :: 0 <= k < |c.streams| ==> c.streams[k] == 0
  {
    var c := Run(connections, schedule);
    RunInv(connections, schedule);
    SumZero(Weights(c.handlers, Token));
    SumZero(Weights(c.handlers, Gauge));
    forall k | 0 <= k < |c.streams| ensures c.streams[k] == 0 { SumZero(Weights(c.handlers, StreamOf(k))); }
  }

  /** How many handlers have not finished. */
  function Unfinished(handlers: seq<Handler>): nat {
    if handlers == [] then 0 else (if handlers[0].phase.Gone? then 0 else 1) + Unfinished(handlers[1..])
  }

  lemma {:induction false} UnfinishedIsTotal(handlers: seq<Handler>)
    ensures Unfinished(handlers) == Total(handlers, Token)
  {
    if handlers != [] {
      UnfinishedIsTotal(handlers[1..]);
      assert Weights(handlers, Token)[1..] == Weights(handlers[1..], Token);
    }
  }

  /** A request is turned away as overloaded exactly when 128 handlers are unfinished. */
  lemma OverloadedIff(connections: nat, schedule: seq<Action>, conn: nat)
    requires conn < connections
    ensures var c := Run(connections, schedule);
            && Unfinished(c.handlers) <= 128
            && (Step(c, Request(conn)).overloads == c.overloads + 1 <==> Unfinished(c.handlers) == 128)
            && (Step(c, Request(conn)).overloads == c.overloads <==>
                |Step(c, Request(conn)).handlers| == |c.handlers| + 1)
  {
    RunInv(connections, schedule);
    UnfinishedIsTotal(Run(connections, schedule).handlers);
  }

  // ---------------------------------------------------------------- every handler comes to its end

  function RunFrom(c: Client, schedule: seq<Action>): Client {
    if schedule == [] then c else Step(RunFrom(c, schedule[..|schedule| - 1]), schedule[|schedule| - 1])
  }

  /** How many steps of handler h the schedule contains. */
  function Advances(schedule: seq<Action>, h: nat): nat {
    if schedule == [] then 0
    else Advances(schedule[..|schedule| - 1], h) + if schedule[|schedule| - 1] == Advance(h) then 1 else 0
  }

  /** The steps taken to a phase. */
  function Taken(phase: Phase): nat {
    match phase
    case Started => 0
    case Counted => 1
    case Serving => 2
    case Leaving => 3
    case Releasing => 4
    case Gone => 5
  }

  /** Whatever others do in between, a handler goes through its phases by its own steps only, and is
      gone, with its token and its counts returned, after exactly five. */
  lemma {:induction false} ProgressExact(c: Client, schedule: seq<Action>, h: nat)
    requires Inv(c) && h < |c.handlers| && c.handlers[h].phase.Started?
    ensures var d := RunFrom(c, schedule);
            && Inv(d) && h < |d.handlers| && d.handlers[h].conn == c.handlers[h].conn
            && Taken(d.handlers[h].phase) == if Advances(schedule, h) < 5 then Advances(schedule, h) else 5
  {
    if schedule != [] {
      var before, a := schedule[..|schedule| - 1], schedule[|schedule| - 1];
      ProgressExact(c, before, h);
      match a
      case Request(conn) => RequestKeepsInv(RunFrom(c, before), conn);
      case Advance(g) => AdvanceKeepsInv(RunFrom(c, before), g);
    }
  }

  /** The counters one handler moves by its own five steps. */
  lemma FiveSteps(c: Client, h: nat)
    requires Inv(c) && h < |c.handlers| && c.handlers[h].phase.Started?
    ensures var conn := c.handlers[h].conn;
            var c1 := Step(c, Advance(h));
            var c2 := Step(c1, Advance(h));
            var c3 := Step(c2, Advance(h));
            var c4 := Step(c3, Advance(h));
            var c5 := Step(c4, Advance(h));
            && c2.streams[conn] == c.streams[conn] + 1 && c2.gauge == c.gauge + 1 && c2.tokens == c.tokens
            && c4.streams == c.streams && c4.gauge == c.gauge
            && c5 == c.(handlers := c.handlers[h := Handler(conn, Gone)], tokens := c.tokens - 1)
  {
    var conn := c.handlers[h].conn;
    assert c.streams[conn := c.streams[conn] + 1][conn := c.streams[conn]] == c.streams;
    assert Step(Step(Step(Step(c, Advance(h)), Advance(h)), Advance(h)), Advance(h)).streams == c.streams;
    assert Step(Step(Step(Step(Step(c, Advance(h)), Advance(h)), Advance(h)), Advance(h)), Advance(h)).handlers
        == c.handlers[h := Handler(conn, Gone)];
  }
}
