/** One tunnel session as a state machine: the pool, its slot workers, the ping loops,
    the closing goroutines and the one-place error channel.

    Identifiers are minted in order: worker w owns slot cancel w, ping loop t owns
    ping cancel t, and connection c is the c-th successful dial.

    Each action is one grouped step of a goroutine (the atomicity assumption):
    a context check together with the pool calls that follow it. */
module Session {
  import opened Prelude
  import opened PoolSpec

  datatype Phase =
    | Idle                      // no connection; waiting to join
    | Handshaking(conn: nat)    // dialled, register not yet acknowledged
    | JoinFailed                // the join attempt returned an error
    | Holding(conn: nat)        // joined, not yet in the pool
    | Reading(conn: nat)        // in the pool, inside the read loop
    | Finished                  // the goroutine has returned

  datatype Worker = Worker(index: nat, phase: Phase)

  datatype Fault = JoinLost | ControlLost | AllLost

  datatype Ending = ContextDone | Failed(fault: Fault)

  /** A register ack that reached the client and passed validateRegisterAck. */
  datatype Ack = Ack(sameSession: bool, maxConnections: int, sameSubdomain: bool)

  datatype State = State(
    pool: Pool,
    workers: seq<Worker>,
    loops: seq<nat>,              // loops[t]: the connection that ping loop t watches
    loopsFailed: set<nat>,        // ping loops that have ended by an error of their own
    pingCalled: multiset<nat>,    // calls of ping cancels
    slotCalled: multiset<nat>,    // calls of slot cancels
    dialled: nat,                 // connections dialled so far
    draining: multiset<nat>,      // owned by closing goroutines of earlier shrinks
    closed: multiset<nat>,        // given up by their owner with Close
    errCh: Option<Fault>,         // the channel of capacity one
    reports: seq<Fault>,          // every sendErr, in order
    parentDone: bool,             // the caller's context has ended
    ending: Option<Ending>)       // what runSession returned

  datatype Action =
    | Dial(w: nat, ok: bool)
    | Handshake(w: nat, ack: Option<Ack>)
    | JoinError(w: nat)
    | Quit(w: nat)
    | Install(w: nat)
    | ReadEnds(w: nat)
    | ResizeTo(w: nat, max: int)   // a read loop receives the server's new size
    | DrainClose(conn: nat)
    | SetStreams(slot: nat, count: int)
    | LoopFails(t: nat)            // a ping loop closes its connection and ends; the read loop will notice
    | ParentEnds
    | SessionEnds(viaError: bool)

  /** The worker's context: ended by its slot cancel, the session's end or the caller. */
  predicate Cancelled(s: State, w: nat) {
    s.parentDone || s.ending.Some? || w in s.slotCalled
  }

  function SetPhase(s: State, w: nat, phase: Phase): State
    requires w < |s.workers|
  {
    s.(workers := s.workers[w := s.workers[w].(phase := phase)])
  }

  /** sendErr: dropped when the channel is full. */
  function Report(s: State, f: Fault): State {
    s.(reports := s.reports + [f], errCh := if s.errCh.None? then Some(f) else s.errCh)
  }

  function StartControlLoop(s: State, conn: nat): State {
    var r := ReplacePingLoop(s.pool, |s.loops|);
    s.(pool := r.pool, loops := s.loops + [conn], pingCalled := s.pingCalled + multiset(r.called))
  }

  function StartDataLoop(s: State, index: int, conn: nat): State {
    s.(pool := SetConnPingCancel(s.pool, index, |s.loops|), loops := s.loops + [conn])
  }

  function StartSlot(s: State, index: nat, phase: Phase): State {
    s.(pool := SetSlotCancel(s.pool, index, |s.workers|), workers := s.workers + [Worker(index, phase)])
  }

  function StartSlots(s: State, from: nat, to: int): (r: State)
    ensures WellSized(s.pool) ==> WellSized(r.pool)
    decreases if from < to then to - from else 0
  {
    if from >= to then s else StartSlots(StartSlot(s, from, Idle), from + 1, to)
  }

  /** runSession after the register ack: pool capped at 32, start loop over the uncapped grant.
      The control connection, dialled first, is handed to worker 0. */
  function Start(granted: int): (s: State)
    ensures WellSized(s.pool)
  {
    var capped := if granted > MAX_POOL_CONNECTIONS then MAX_POOL_CONNECTIONS else granted;
    var s := State(New(capped), [], [], {}, multiset{}, multiset{}, 1, multiset{}, multiset{}, None, [], false, None);
    if granted < 1 then s
    else StartSlots(StartSlot(s, 0, Holding(0)), 1, granted)
  }

  predicate Accepted(p: Pool, ack: Option<Ack>) {
    ack.Some? && ack.value.sameSession && ack.value.maxConnections == p.maxConns && ack.value.sameSubdomain
  }

  function DoJoinError(s: State, w: nat): State
    requires w < |s.workers|
  {
    if Cancelled(s, w) then SetPhase(s, w, Finished)
    else if Active(s.pool.conns) == 0 then Report(SetPhase(s, w, Finished), JoinLost)
    else SetPhase(s, w, Idle)
  }

  /** Context check, add, start of the ping loop. */
  function DoInstall(s: State, w: nat, conn: nat): State
    requires w < |s.workers|
  {
    var index := s.workers[w].index;
    var a := Add(s.pool, index, conn);
    if Cancelled(s, w) || a.conn.None? then SetPhase(s, w, Finished).(closed := s.closed + multiset{conn})
    else
      var s1 := SetPhase(s, w, Reading(conn)).(pool := a.pool);
      if a.isControl then StartControlLoop(s1, conn) else StartDataLoop(s1, index, conn)
  }

  /** remove, close, ping loop for the promoted connection. */
  function AfterRemove(s: State, index: int, conn: nat): State {
    Reaped(s, Remove(s.pool, index), conn)
  }

  function Reaped(s: State, r: RemoveResult, conn: nat): State
    requires r.promoted.Some? ==> Occupied(r.pool, r.promoted.value)
  {
    var s1 := s.(pool := r.pool, pingCalled := s.pingCalled + multiset(r.called), closed := s.closed + multiset{conn});
    if r.controlLost && r.promoted.Some? then StartControlLoop(s1, r.pool.conns[r.promoted.value].value.id) else s1
  }

  /** Context check, removal, sendErr. */
  function DoReadEnds(s: State, w: nat, conn: nat): State
    requires w < |s.workers|
  {
    if Cancelled(s, w) then SetPhase(s, w, Finished)
    else
      var r := Remove(s.pool, s.workers[w].index);
      var t := AfterRemove(s, s.workers[w].index, conn);
      if r.controlLost && r.promoted.None? && r.remaining > 0 then Report(SetPhase(t, w, Finished), ControlLost)
      else if r.remaining == 0 then Report(SetPhase(t, w, Finished), AllLost)
      else SetPhase(t, w, Idle)
  }

  /** Resize, ping loop for the promoted connection. */
  function AfterResize(s: State, max: int): (t: State)
    requires WellSized(s.pool)
    ensures WellSized(t.pool)
  {
    Adopted(s, Resize(s.pool, max))
  }

  function Adopted(s: State, r: ResizeResult): State
    requires r.promoted.Some? ==> Occupied(r.pool, r.promoted.value)
  {
    var s1 := s.(pool := r.pool, pingCalled := s.pingCalled + multiset(r.pingCalls),
                 slotCalled := s.slotCalled + multiset(r.slotCalls), draining := s.draining + multiset(r.drained));
    if r.promoted.Some? then StartControlLoop(s1, r.pool.conns[r.promoted.value].value.id) else s1
  }

  /** The same, then workers for the new slots. */
  function DoResize(s: State, max: int): State
    requires WellSized(s.pool)
  {
    var r := Resize(s.pool, max);
    StartSlots(AfterResize(s, max), r.oldMax, r.updatedMax)
  }

  /** runSession returns: pool.close, then the session context is cancelled. */
  function DoEnd(s: State, ending: Ending): State {
    Ended(s, Close(s.pool), ending)
  }

  function Ended(s: State, r: CloseResult, ending: Ending): State {
    s.(pool := r.pool, pingCalled := s.pingCalled + multiset(r.pingCalls),
       slotCalled := s.slotCalled + multiset(r.slotCalls), closed := s.closed + multiset(r.closed),
       errCh := if ending.Failed? then None else s.errCh, ending := Some(ending))
  }

  /** Ping loop t has been started and its cancel has not been called. */
  predicate Uncancelled(s: State, t: nat) {
    t < |s.loops| && s.pingCalled[t] == 0
  }

  predicate Running(s: State, t: nat) {
    Uncancelled(s, t) && t !in s.loopsFailed && !s.parentDone
  }

  predicate Enabled(s: State, a: Action) {
    match a
    case Dial(w, _) => w < |s.workers| && s.workers[w].phase.Idle?
    case Handshake(w, _) => w < |s.workers| && s.workers[w].phase.Handshaking?
    case JoinError(w) => w < |s.workers| && s.workers[w].phase.JoinFailed?
    case Quit(w) => w < |s.workers| && s.workers[w].phase.Idle? && Cancelled(s, w)
    case Install(w) => w < |s.workers| && s.workers[w].phase.Holding?
    case ReadEnds(w) => w < |s.workers| && s.workers[w].phase.Reading?
    case ResizeTo(w, _) => w < |s.workers| && s.workers[w].phase.Reading? && s.ending.None?
    case DrainClose(c) => c in s.draining
    case SetStreams(slot, _) => Occupied(s.pool, slot)
    case LoopFails(t) => Running(s, t)
    case ParentEnds => true
    case SessionEnds(viaError) => s.ending.None? && if viaError then s.errCh.Some? else s.parentDone
  }

  function Step(s: State, a: Action): (s': State)
    requires WellSized(s.pool) && Enabled(s, a)
    ensures WellSized(s'.pool)
  {
    match a
    case Dial(w, ok) =>
      if ok then SetPhase(s, w, Handshaking(s.dialled)).(dialled := s.dialled + 1)
      else SetPhase(s, w, JoinFailed)
    case Handshake(w, ack) =>
      var conn := s.workers[w].phase.conn;
      if Accepted(s.pool, ack) then SetPhase(s, w, Holding(conn))
      else SetPhase(s, w, JoinFailed).(closed := s.closed + multiset{conn})
    case JoinError(w) => DoJoinError(s, w)
    case Quit(w) => SetPhase(s, w, Finished)
    case Install(w) => DoInstall(s, w, s.workers[w].phase.conn)
    case ReadEnds(w) => DoReadEnds(s, w, s.workers[w].phase.conn)
    case ResizeTo(_, max) => DoResize(s, max)
    case DrainClose(c) => s.(draining := s.draining - multiset{c}, closed := s.closed + multiset{c})
    case SetStreams(slot, count) =>
      s.(pool := s.pool.(conns := s.pool.conns[slot := Some(s.pool.conns[slot].value.(streams := count))]))
    case LoopFails(t) => s.(loopsFailed := s.loopsFailed + {t})
    case ParentEnds => s.(parentDone := true)
    case SessionEnds(viaError) => DoEnd(s, if viaError then Failed(s.errCh.value) else ContextDone)
  }

  /** The state after a schedule; an action that is not enabled is skipped. */
  function Run(granted: int, schedule: seq<Action>): (s: State)
    ensures WellSized(s.pool)
  {
    if schedule == [] then Start(granted)
    else
      var s := Run(granted, schedule[..|schedule| - 1]);
      var a := schedule[|schedule| - 1];
      if Enabled(s, a) then Step(s, a) else s
  }
}
