/** What holds in every state of every run of a session. */
module SessionTheorems {
  import opened Prelude
  import opened PoolSpec
  import opened PoolLaws
  import opened Session
  import opened SessionInvariant
  import opened SessionProofs
  import Backoff

  /** The shape of the pool while the session lasts. */
  lemma PoolShape(granted: int, schedule: seq<Action>)
    requires granted >= 1 && Run(granted, schedule).ending.None?
    ensures var p := Run(granted, schedule).pool;
            && |p.conns| == |p.slotCancels| == p.maxConns && 1 <= p.maxConns <= 32
            && (forall i :: 0 <= i < p.maxConns && p.conns[i].Some? ==> p.conns[i].value.index == i)
            && -1 <= p.controlIndex < p.maxConns
            && (p.controlIndex >= 0 && p.conns[p.controlIndex].None? ==>
                  forall i :: 0 <= i < p.maxConns ==> p.conns[i].None?)
            && (p.pingCancel.Some? <==> p.controlIndex >= 0 && p.conns[p.controlIndex].Some?)
            && (forall i :: 0 <= i < p.maxConns && p.conns[i].Some? ==>
                  (p.conns[i].value.pingCancel.Some? <==> i != p.controlIndex))
  {
    RunInv(granted, schedule);
    var p := Run(granted, schedule).pool;
    assert forall i :: Occupied(p, i) <==> 0 <= i < p.maxConns && p.conns[i].Some?;
  }

  // ---------------------------------------------------------------- ping loops

  /** The ping cancel that serves slot i. */
  function CancelFor(p: Pool, i: nat): Option<nat>
    requires Occupied(p, i)
  {
    if i == p.controlIndex then p.pingCancel else p.conns[i].value.pingCancel
  }

  lemma {:induction false} CountFinds(s: seq<Option<nat>>, x: nat) returns (i: nat)
    requires Count(s, x) >= 1
    ensures i < |s| && s[i] == Some(x)
  {
    if s[0] == Some(x) {
      i := 0;
    } else {
      i := CountFinds(s[1..], x);
      i := i + 1;
    }
  }

  /** An uncancelled loop serves some occupied slot. */
  lemma UncancelledServes(s: State, t: nat) returns (i: nat)
    requires Inv(s) && s.ending.None? && Uncancelled(s, t)
    ensures Occupied(s.pool, i) && CancelFor(s.pool, i) == Some(t) && s.loops[t] == s.pool.conns[i].value.id
  {
    assert Stored(s.pool, t) + s.pingCalled[t] == 1;
    if s.pool.pingCancel == Some(t) {
      i := s.pool.controlIndex;
    } else {
      i := CountFinds(Cancels(s.pool.conns), t);
      assert Occupied(s.pool, i);
    }
  }

  /** Slots hold different connections. */
  lemma SlotsDiffer(s: State, i: nat, j: nat)
    requires Inv(s) && s.ending.None? && Occupied(s.pool, i) && Occupied(s.pool, j)
    requires s.pool.conns[i].value.id == s.pool.conns[j].value.id
    ensures i == j
  {
    var c, ids := s.pool.conns[i].value.id, Ids(s.pool.conns);
    assert Owners(s, c) == Minted(s.dialled, c);
    if i < j { CountTwice(ids, i, j, c); }
    if j < i { CountTwice(ids, j, i, c); }
  }

  /** Loop t is the one uncancelled ping loop on the connection in slot i. */
  ghost predicate OnlyLoop(s: State, i: nat, t: nat)
    requires Occupied(s.pool, i)
  {
    && Uncancelled(s, t) && s.loops[t] == s.pool.conns[i].value.id
    && forall u: nat :: Uncancelled(s, u) && s.loops[u] == s.loops[t] ==> u == t
  }

  /** Each active connection has exactly one uncancelled ping loop, and every uncancelled loop is
      that of an active connection. */
  lemma OneLoopEach(granted: int, schedule: seq<Action>)
    requires granted >= 1 && Run(granted, schedule).ending.None?
    ensures var s := Run(granted, schedule);
            && (forall i {:trigger Occupied(s.pool, i)} :: Occupied(s.pool, i) ==> exists t: nat :: OnlyLoop(s, i, t))
            && (forall t: nat :: Uncancelled(s, t) ==> exists i :: Occupied(s.pool, i) && OnlyLoop(s, i, t))
  {
    var s := Run(granted, schedule);
    RunInv(granted, schedule);
    forall i {:trigger Occupied(s.pool, i)} | Occupied(s.pool, i) ensures exists t: nat :: OnlyLoop(s, i, t) {
      var t := CancelFor(s.pool, i).value;
      ServedOnce(s, i, t);
      LoopIsOnly(s, i, t);
    }
    forall t: nat | Uncancelled(s, t) ensures exists i :: Occupied(s.pool, i) && OnlyLoop(s, i, t) {
      var i := UncancelledServes(s, t);
      LoopIsOnly(s, i, t);
    }
  }

  lemma LoopIsOnly(s: State, i: nat, t: nat)
    requires Inv(s) && s.ending.None? && Occupied(s.pool, i)
    requires Uncancelled(s, t) && s.loops[t] == s.pool.conns[i].value.id
    ensures OnlyLoop(s, i, t)
  {
    forall u: nat | Uncancelled(s, u) && s.loops[u] == s.loops[t] ensures u == t {
      var j := UncancelledServes(s, u);
      var k := UncancelledServes(s, t);
      SlotsDiffer(s, j, k);
    }
  }

  lemma ServedOnce(s: State, i: nat, t: nat)
    requires Inv(s) && s.ending.None? && Occupied(s.pool, i) && CancelFor(s.pool, i) == Some(t)
    ensures Uncancelled(s, t) && s.loops[t] == s.pool.conns[i].value.id
  {
    assert Stored(s.pool, t) + s.pingCalled[t] == Minted(|s.loops|, t);
    if i != s.pool.controlIndex { CountHas(Cancels(s.pool.conns), i, t); }
  }

  // ---------------------------------------------------------------- nothing is lost

  /** Every ping cancel ever minted is stored exactly once or has been called exactly once. */
  lemma PingCancelsConserved(granted: int, schedule: seq<Action>, t: nat)
    requires granted >= 1
    ensures var s := Run(granted, schedule);
            Stored(s.pool, t) + s.pingCalled[t] == if t < |s.loops| then 1 else 0
  {
    RunInv(granted, schedule);
    assert PingsConserved(Run(granted, schedule));
  }

  /** Every connection ever dialled is in exactly one place: a worker's hand, a pool slot,
      a drain list, or closed by its owner. */
  lemma {:induction false} ConnectionsConserved(granted: int, schedule: seq<Action>, c: nat)
    requires granted >= 1
    ensures var s := Run(granted, schedule);
            Count(Hands(s.workers), c) + (if s.ending.None? then Held(s.pool, c) else 0) + s.draining[c] + s.closed[c]
            == if c < s.dialled then 1 else 0
  {
    RunInv(granted, schedule);
    assert Owners(Run(granted, schedule), c) == Minted(Run(granted, schedule).dialled, c);
  }

  /** A slot cancel is called at most once: exactly when the pool stops storing it or the session
      ends.  The cancels of workers beyond slot 31 are stored nowhere and never called. */
  lemma SlotCancelsConserved(granted: int, schedule: seq<Action>, w: nat)
    requires granted >= 1 && w < |Run(granted, schedule).workers|
    ensures var s := Run(granted, schedule);
            s.slotCalled[w]
            == if s.workers[w].index >= 32 || (s.ending.None? && Some(w) in s.pool.slotCancels) then 0 else 1
  {
    var s := Run(granted, schedule);
    RunInv(granted, schedule);
    if s.ending.None? {
      assert WorkerOK(s, w);
      PostedCount(s, s.pool.maxConns, w);
      if Some(w) in s.pool.slotCancels {
        var i :| 0 <= i < |s.pool.slotCancels| && s.pool.slotCancels[i] == Some(w);
        CountHas(s.pool.slotCancels, i, w);
      }
    }
  }

  /** After the end: every ping loop is cancelled, every stored slot cancel has been called, and once no
      worker or closing goroutine holds one, every connection ever dialled has been closed once. */
  lemma EndReleasesAll(granted: int, schedule: seq<Action>)
    requires granted >= 1 && Run(granted, schedule).ending.Some?
    ensures var s := Run(granted, schedule);
            && (forall t: nat :: !Uncancelled(s, t))
            && (forall w :: 0 <= w < |s.workers| ==> Cancelled(s, w))
            && (s.draining == multiset{} && (forall w :: 0 <= w < |s.workers| ==> s.workers[w].phase.Finished?) ==>
                  forall c :: 0 <= c < s.dialled ==> s.closed[c] == 1)
  {
    var s := Run(granted, schedule);
    RunInv(granted, schedule);
    forall t: nat ensures !Uncancelled(s, t) {
      assert Stored(s.pool, t) + s.pingCalled[t] == Minted(|s.loops|, t);
    }
    if s.draining == multiset{} && forall w :: 0 <= w < |s.workers| ==> s.workers[w].phase.Finished? {
      forall c | 0 <= c < s.dialled ensures s.closed[c] == 1 { ClosedOnce(s, c); }
    }
  }

  lemma ClosedOnce(s: State, c: nat)
    requires Inv(s) && s.ending.Some? && s.draining == multiset{} && c < s.dialled
    requires forall w :: 0 <= w < |s.workers| ==> s.workers[w].phase.Finished?
    ensures s.closed[c] == 1
  {
    assert Owners(s, c) == Minted(s.dialled, c);
    CountZero(Hands(s.workers), c);
  }

  // ---------------------------------------------------------------- no silent death

  /** Slot i has a goroutine that still works for it. */
  ghost predicate Staffed(s: State, i: nat) {
    exists w :: 0 <= w < |s.workers| && s.workers[w].index == i && !s.workers[w].phase.Finished? && !Cancelled(s, w)
  }

  ghost predicate NotSilentlyDead(s: State) {
    s.ending.Some? || s.parentDone || s.errCh.Some? || forall i :: 0 <= i < s.pool.maxConns ==> Staffed(s, i)
  }

  ghost predicate NeverSilentlyDead(granted: int) {
    forall schedule :: NotSilentlyDead(Run(granted, schedule))
  }

  lemma RunNotDead(granted: int, schedule: seq<Action>)
    requires granted >= 1
    ensures NotSilentlyDead(Run(granted, schedule))
  {
    var s := Run(granted, schedule);
    RunInv(granted, schedule);
    if s.ending.None? && !s.parentDone && s.errCh.None? {
      forall i | 0 <= i < s.pool.maxConns ensures Staffed(s, i) {
        assert SlotOK(s, i);
        var w := s.pool.slotCancels[i].value;
        assert WorkerOK(s, w);
        assert s.workers[w].index == i && !s.workers[w].phase.Finished? && !Cancelled(s, w);
      }
    }
  }

  /** While its contexts live, a session has posted an error or has a working goroutine for
      every slot, over all runs, exactly when the server granted at least one connection.
      With a grant below one the pool has one slot and the start loop starts nobody. */
  lemma NoSilentDeathIff(granted: int)
    ensures NeverSilentlyDead(granted) <==> granted >= 1
  {
    if granted >= 1 {
      forall schedule ensures NotSilentlyDead(Run(granted, schedule)) { RunNotDead(granted, schedule); }
    } else {
      var nothing: seq<Action> := [];
      var s := Run(granted, nothing);
      assert s == Start(granted);
      assert s.workers == [] && s.pool.maxConns == 1;
      assert !Staffed(s, 0);
      assert !NotSilentlyDead(Run(granted, nothing));
    }
  }

  /** A removal that empties the pool, or leaves it without a control slot, leaves an error
      in the channel in the same step. */
  lemma FatalRemovalPosts(granted: int, schedule: seq<Action>, w: nat)
    requires granted >= 1
    requires var s := Run(granted, schedule); Enabled(s, ReadEnds(w)) && !Cancelled(s, w)
    ensures var s := Run(granted, schedule);
            var s' := Step(s, ReadEnds(w));
            && (Active(s'.pool.conns) == 0 || s'.pool.controlIndex == -1 ==> s'.errCh.Some?)
            && (Active(s'.pool.conns) == 0 ==> s'.workers[w].phase.Finished?)
            && (s'.workers[w].phase.Finished? <==> |s'.reports| == |s.reports| + 1)
            && (s'.reports == s.reports ==> s'.workers[w].phase.Idle? && Active(s'.pool.conns) > 0)
  {
    var s := Run(granted, schedule);
    var i := s.workers[w].index;
    RunInv(granted, schedule);
    LiveWorkerSlot(s, w);
    RemoveFailsOver(s.pool, i);
    RemoveKeepsPool(s.pool, s.loops, i);
    RemovedActive(s.pool, i);
    ReadEndsKeepsInv(s, w);
  }

  lemma RemovedActive(p: Pool, i: nat)
    requires Occupied(p, i)
    ensures Active(Remove(p, i).pool.conns) == 0 <==> Remove(p, i).remaining == 0
  {
    RemoveShape(p, i);
    var r := Remove(p, i);
    assert forall j :: 0 <= j < |p.conns| ==> (r.pool.conns[j].Some? <==> Occupied(p, j) && j != i);
    assert forall j :: 0 <= j < |p.conns| ==> (Vacated(p, i).conns[j].Some? <==> Occupied(p, j) && j != i);
  }

  /** Whatever is reported later, the session ends with the first fault reported. */
  lemma FirstFaultWins(granted: int, schedule: seq<Action>)
    requires granted >= 1
    ensures var s := Run(granted, schedule);
            && (s.ending.None? ==>
                  (s.errCh.None? <==> s.reports == []) && (s.errCh.Some? ==> s.errCh.value == s.reports[0]))
            && (s.ending.Some? && s.ending.value.Failed? ==> s.reports != [] && s.ending.value.fault == s.reports[0])
            && (s.ending == Some(ContextDone) ==> s.parentDone)
  {
    RunInv(granted, schedule);
  }

  // ---------------------------------------------------------------- the loop around the sessions

  lemma {:induction false} StartSlotsEnding(s: State, from: nat, to: int)
    ensures var t := StartSlots(s, from, to);
            && t.ending == s.ending && t.parentDone == s.parentDone && t.slotCalled == s.slotCalled
            && t.pool.conns == s.pool.conns && s.workers <= t.workers
    decreases if from < to then to - from else 0
  {
    if from < to { StartSlotsEnding(StartSlot(s, from, Idle), from + 1, to); }
  }

  lemma StepEnding(s: State, a: Action)
    requires WellSized(s.pool) && Enabled(s, a)
    ensures var t := Step(s, a);
            && (s.parentDone ==> t.parentDone)
            && (t.ending == s.ending || (a.SessionEnds? && (t.ending == Some(ContextDone) ==> s.parentDone)))
  {
    match a {
      case ResizeTo(_, max) =>
        var r := Resize(s.pool, max);
        StartSlotsEnding(AfterResize(s, max), r.oldMax, r.updatedMax);
      case _ =>
    }
  }

  /** For every grant: runSession returns nil only when the caller's context is done. */
  lemma {:induction false} NilOnlyWhenDone(granted: int, schedule: seq<Action>)
    ensures Run(granted, schedule).ending == Some(ContextDone) ==> Run(granted, schedule).parentDone
  {
    if schedule == [] {
      if granted >= 1 { StartEnding(granted); }
    } else {
      var before, a := Run(granted, schedule[..|schedule| - 1]), schedule[|schedule| - 1];
      NilOnlyWhenDone(granted, schedule[..|schedule| - 1]);
      if Enabled(before, a) { StepEnding(before, a); }
    }
  }

  lemma StartEnding(granted: int)
    ensures Start(granted).ending.None?
  {
    var capped := if granted > MAX_POOL_CONNECTIONS then MAX_POOL_CONNECTIONS else granted;
    var s := State(New(capped), [], [], {}, multiset{}, multiset{}, 1, multiset{}, multiset{}, None, [], false, None);
    if granted >= 1 { StartSlotsEnding(StartSlot(s, 0, Holding(0)), 1, granted); }
  }

  /** One call of runSession by Run, and whether the caller's context ends in the wait after it:
      a session that was registered, or a failure before that. */
  datatype Ran =
    | Ran(granted: int, schedule: seq<Action>, doneWaiting: bool)
    | Unregistered(doneAfter: bool, doneWaiting: bool)

  predicate Over(x: Ran) {
    x.Ran? ==> Run(x.granted, x.schedule).ending.Some?
  }

  /** What Run sees of a call that has returned. */
  function TurnOf(x: Ran): Backoff.Turn {
    match x
    case Ran(granted, schedule, doneWaiting) =>
      var s := Run(granted, schedule);
      Backoff.Turn(s.ending.Some? && s.ending.value.Failed?, s.parentDone, doneWaiting)
    case Unregistered(doneAfter, doneWaiting) => Backoff.Turn(true, doneAfter, doneWaiting)
  }

  function TurnsOf(sessions: seq<Ran>): (r: seq<Backoff.Turn>)
    ensures |r| == |sessions|
  {
    seq(|sessions|, k requires 0 <= k < |sessions| => TurnOf(sessions[k]))
  }

  /** However its sessions go, Run never resets its attempt: the n-th wait asks for attempt n - 1. */
  lemma RunNeverResets(sessions: seq<Ran>)
    requires forall k :: 0 <= k < |sessions| ==> Over(sessions[k])
    requires forall k :: 0 <= k < |sessions| - 1 ==> Backoff.GoesOn(TurnsOf(sessions)[k])
    ensures var requested := Backoff.Requested(TurnsOf(sessions));
            |requested| <= |sessions| && forall k :: 0 <= k < |requested| ==> requested[k] == k
  {
    var turns := TurnsOf(sessions);
    forall k | 0 <= k < |turns| && !turns[k].failed ensures turns[k].doneAfter {
      assert Over(sessions[k]);
      NilOnlyWhenDone(sessions[k].granted, sessions[k].schedule);
    }
    Backoff.NeverResets(turns);
  }

  // ---------------------------------------------------------------- the waits of one slot worker

  /** What step a means for the attempt counter of worker w: a join starts it over, a failed join
      or a lost connection that the worker survives makes it wait. */
  function SlotTurn(s: State, a: Action, w: nat): Option<Backoff.SlotTurn>
    requires WellSized(s.pool) && Enabled(s, a)
  {
    match a
    case Handshake(v, ack) => if v == w && Accepted(s.pool, ack) then Some(Backoff.Joined) else None
    case JoinError(v) => if v == w && Step(s, a).workers[w].phase.Idle? then Some(Backoff.Waited) else None
    case ReadEnds(v) => if v == w && Step(s, a).workers[w].phase.Idle? then Some(Backoff.Waited) else None
    case _ => None
  }

  /** The same read off the worker's phases. */
  lemma SlotTurnExact(s: State, a: Action, w: nat)
    requires WellSized(s.pool) && Enabled(s, a) && w < |s.workers|
    ensures |Step(s, a).workers| >= |s.workers|
    ensures var p, q := s.workers[w].phase, Step(s, a).workers[w].phase;
            SlotTurn(s, a, w) ==
            if (p.JoinFailed? || p.Reading?) && q.Idle? then Some(Backoff.Waited)
            else if p.Handshaking? && q.Holding? then Some(Backoff.Joined)
            else None
  {
    if Acts(a, w) { OwnPhase(s, a, w); } else { OthersPhase(s, a, w); }
  }

  /** The action is a step of worker w's own goroutine that may change its phase. */
  predicate Acts(a: Action, w: nat) {
    match a
    case Dial(v, _) => v == w
    case Handshake(v, _) => v == w
    case JoinError(v) => v == w
    case Quit(v) => v == w
    case Install(v) => v == w
    case ReadEnds(v) => v == w
    case _ => false
  }

  lemma OthersPhase(s: State, a: Action, w: nat)
    requires WellSized(s.pool) && Enabled(s, a) && w < |s.workers| && !Acts(a, w)
    ensures |Step(s, a).workers| >= |s.workers| && Step(s, a).workers[w] == s.workers[w]
    ensures SlotTurn(s, a, w).None?
  {
    match a {
      case ResizeTo(_, max) =>
        var r := Resize(s.pool, max);
        ResizeFrame(s, max);
        StartSlotsEnding(AfterResize(s, max), r.oldMax, r.updatedMax);
      case Install(v) => InstallWorkers(s, v, s.workers[v].phase.conn);
      case ReadEnds(v) => ReadEndsWorkers(s, v, s.workers[v].phase.conn);
      case _ =>
    }
  }

  lemma OwnPhase(s: State, a: Action, w: nat)
    requires WellSized(s.pool) && Enabled(s, a) && w < |s.workers| && Acts(a, w)
    ensures |Step(s, a).workers| == |s.workers|
    ensures var p, q := s.workers[w].phase, Step(s, a).workers[w].phase;
            SlotTurn(s, a, w) ==
            if (p.JoinFailed? || p.Reading?) && q.Idle? then Some(Backoff.Waited)
            else if p.Handshaking? && q.Holding? then Some(Backoff.Joined)
            else None
  {
    match a {
      case Install(v) => InstallWorkers(s, v, s.workers[v].phase.conn);
      case ReadEnds(v) => ReadEndsWorkers(s, v, s.workers[v].phase.conn);
      case _ =>
    }
  }

  lemma InstallWorkers(s: State, v: nat, conn: nat)
    requires v < |s.workers|
    ensures var t := DoInstall(s, v, conn);
            |t.workers| == |s.workers| && t.workers == s.workers[v := t.workers[v]]
  {
  }

  lemma ReadEndsWorkers(s: State, v: nat, conn: nat)
    requires v < |s.workers|
    ensures var t := DoReadEnds(s, v, conn);
            |t.workers| == |s.workers| && t.workers == s.workers[v := t.workers[v]]
  {
  }

  function SlotTurns(granted: int, schedule: seq<Action>, w: nat): seq<Backoff.SlotTurn> {
    if schedule == [] then []
    else
      var before, a := schedule[..|schedule| - 1], schedule[|schedule| - 1];
      var s := Run(granted, before);
      SlotTurns(granted, before, w) + if Enabled(s, a) then AsList(SlotTurn(s, a, w)) else []
  }

  /** Slot 0 is up, and worker 1 fails to join n times. */
  function FailedJoins(n: nat): seq<Action> {
    if n == 0 then [Install(0)] else FailedJoins(n - 1) + [Dial(1, false), JoinError(1)]
  }

  lemma TwoMore(granted: int, schedule: seq<Action>, a: Action, b: Action, w: nat)
    ensures var s := Run(granted, schedule);
            var t := if Enabled(s, a) then Step(s, a) else s;
            && Run(granted, schedule + [a, b]) == (if Enabled(t, b) then Step(t, b) else t)
            && SlotTurns(granted, schedule + [a, b], w)
               == SlotTurns(granted, schedule, w) + (if Enabled(s, a) then AsList(SlotTurn(s, a, w)) else [])
                  + if Enabled(t, b) then AsList(SlotTurn(t, b, w)) else []
  {
    var all, some := schedule + [a, b], schedule + [a];
    assert all[..|all| - 1] == some && some[..|some| - 1] == schedule;
  }

  /** Worker 1 waits for its next attempt while slot 0 holds a connection. */
  ghost predicate WaitsBesideOne(s: State) {
    && |s.workers| >= 2 && s.workers[1].phase.Idle? && Occupied(s.pool, 0)
    && !s.parentDone && s.ending.None? && s.slotCalled == multiset{}
  }

  /** A session in which worker 0 holds the control connection and worker 1 is about to join. */
  ghost predicate BothStarted(s: State) {
    && |s.workers| >= 2 && s.workers[0] == Worker(0, Holding(0)) && s.workers[1] == Worker(1, Idle)
    && |s.pool.conns| > 0 && !s.parentDone && s.ending.None? && s.slotCalled == multiset{}
  }

  lemma TwoStarted(granted: int)
    requires granted >= 2
    ensures BothStarted(Start(granted))
  {
    var capped := if granted > MAX_POOL_CONNECTIONS then MAX_POOL_CONNECTIONS else granted;
    var s := State(New(capped), [], [], {}, multiset{}, multiset{}, 1, multiset{}, multiset{}, None, [], false, None);
    var s2 := StartSlot(StartSlot(s, 0, Holding(0)), 1, Idle);
    assert Start(granted) == StartSlots(s2, 2, granted);
    StartSlotsEnding(s2, 2, granted);
    assert s2.workers == [Worker(0, Holding(0)), Worker(1, Idle)];
  }

  lemma FirstInstalled(s: State)
    requires WellSized(s.pool) && BothStarted(s)
    ensures Enabled(s, Install(0)) && WaitsBesideOne(Step(s, Install(0)))
  {
  }

  lemma RunOne(granted: int, a: Action, w: nat)
    requires Enabled(Start(granted), a)
    ensures Run(granted, [a]) == Step(Start(granted), a)
    ensures SlotTurns(granted, [a], w) == AsList(SlotTurn(Start(granted), a, w))
  {
    var none: seq<Action> := [];
    assert [a][..0] == none;
    assert Run(granted, none) == Start(granted) && SlotTurns(granted, none, w) == [];
  }

  lemma OneUp(granted: int)
    requires granted >= 2
    ensures WaitsBesideOne(Run(granted, [Install(0)])) && SlotTurns(granted, [Install(0)], 1) == []
  {
    TwoStarted(granted);
    FirstInstalled(Start(granted));
    RunOne(granted, Install(0), 1);
  }

  lemma FailedJoin(s: State)
    requires WellSized(s.pool) && WaitsBesideOne(s)
    ensures var t := Step(s, Dial(1, false));
            && Enabled(t, JoinError(1)) && WaitsBesideOne(Step(t, JoinError(1)))
            && SlotTurn(t, JoinError(1), 1) == Some(Backoff.Waited)
  {
    ActiveBeside(s.pool, 0);
  }

  /** So far worker 1 has waited n times, and it waits for its next attempt. */
  ghost predicate HasFailed(granted: int, schedule: seq<Action>, n: nat) {
    WaitsBesideOne(Run(granted, schedule)) && SlotTurns(granted, schedule, 1) == Backoff.Waits(n)
  }

  lemma FailsOnceMore(granted: int, schedule: seq<Action>, n: nat)
    requires HasFailed(granted, schedule, n)
    ensures HasFailed(granted, schedule + [Dial(1, false), JoinError(1)], n + 1)
  {
    TwoMore(granted, schedule, Dial(1, false), JoinError(1), 1);
    FailedJoin(Run(granted, schedule));
    Backoff.WaitsSnoc([], n);
  }

  /** A worker whose joins fail while another connection lives never returns and keeps counting. */
  lemma {:induction false} KeepsFailing(granted: int, n: nat)
    requires granted >= 2
    ensures HasFailed(granted, FailedJoins(n), n)
  {
    if n == 0 {
      OneUp(granted);
      Backoff.WaitsSnoc([], 0);
    } else {
      KeepsFailing(granted, n - 1);
      FailsOnceMore(granted, FailedJoins(n - 1), n - 1);
    }
  }

  lemma ActiveBeside(p: Pool, i: nat)
    requires Occupied(p, i)
    ensures Active(p.conns) > 0
  {
    assert p.conns[i].Some?;
  }

  /** In every session granted two connections or more there are runs in which a slot fails to join
      any number of times in a row; after the 35th it does not wait. */
  lemma SlotStopsWaiting(granted: int, n: nat, platform: int, jitter: int)
    requires granted >= 2 && n >= 35 && 0 <= jitter <= Backoff.MAX_JITTER
    ensures var requested := Backoff.SlotRequested(SlotTurns(granted, FailedJoins(n), 1));
            && |requested| == n
            && Backoff.Wrap(Backoff.Base(requested[34], Backoff.POOL_REPAIR_MAX_LAG, platform) + jitter) < 0
  {
    KeepsFailing(granted, n);
    Backoff.StopsWaiting(SlotTurns(granted, FailedJoins(n), 1), n, platform, jitter);
  }
}
