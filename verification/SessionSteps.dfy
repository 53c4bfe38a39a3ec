/** What each step of a session does, in every run, in terms of slots, workers and reports. */
module SessionSteps {
  import opened Prelude
  import opened PoolSpec
  import opened PoolLaws
  import opened Session
  import opened SessionInvariant
  import opened SessionProofs

  /** The worker's context has ended. */
  predicate Over(s: State, w: nat) {
    s.parentDone || s.ending.Some? || s.slotCalled[w] > 0
  }

  predicate Vacant(p: Pool) {
    forall j :: 0 <= j < |p.conns| ==> p.conns[j].None?
  }

  function Moved(s: State, w: nat, phase: Phase): seq<Worker>
    requires w < |s.workers|
  {
    s.workers[w := Worker(s.workers[w].index, phase)]
  }

  // ---------------------------------------------------------------- start

  /** The slot cancels after the start loop: worker `first` + k for slot `from` + k. */
  function Handed(slots: seq<Option<nat>>, first: nat, from: nat, to: nat): (r: seq<Option<nat>>)
    ensures |r| == |slots|
  {
    seq(|slots|, i requires 0 <= i < |slots| => if from <= i < to then Some(first + (i - from)) else slots[i])
  }

  function Fresh(from: nat, to: nat): seq<Worker>
    requires from <= to
  {
    seq(to - from, k requires 0 <= k < to - from => Worker(from + k, Idle))
  }

  lemma {:induction false} StartedSlots(s: State, from: nat, to: nat)
    requires from <= to
    ensures StartSlots(s, from, to) ==
            s.(pool := s.pool.(slotCancels := Handed(s.pool.slotCancels, |s.workers|, from, to)),
               workers := s.workers + Fresh(from, to))
    decreases if from < to then to - from else 0
  {
    if from == to {
      assert Handed(s.pool.slotCancels, |s.workers|, from, to) == s.pool.slotCancels;
      assert s.workers + Fresh(from, to) == s.workers;
    } else {
      var u := StartSlot(s, from, Idle);
      StartedSlots(u, from + 1, to);
      assert Handed(u.pool.slotCancels, |u.workers|, from + 1, to) == Handed(s.pool.slotCancels, |s.workers|, from, to);
      assert u.workers + Fresh(from + 1, to) == s.workers + Fresh(from, to);
    }
  }

  /** A session starts with as many slots as granted, at most 32, all of them empty, and one worker
      for each number below the grant; worker 0 holds the control connection. */
  lemma StartExact(granted: int)
    requires granted >= 1
    ensures var s := Run(granted, []);
            && |s.pool.conns| == (if granted > 32 then 32 else granted) && Vacant(s.pool) && s.pool.controlIndex == 0
            && |s.workers| == granted
            && (forall w :: 0 <= w < granted ==> s.workers[w] == Worker(w, if w == 0 then Holding(0) else Idle))
            && (forall i :: 0 <= i < |s.pool.slotCancels| ==> s.pool.slotCancels[i] == Some(i))
            && s.dialled == 1 && s.reports == [] && s.ending.None? && !s.parentDone
  {
    var capped := if granted > MAX_POOL_CONNECTIONS then MAX_POOL_CONNECTIONS else granted;
    var s := State(New(capped), [], [], {}, multiset{}, multiset{}, 1, multiset{}, multiset{}, None, [], false, None);
    var s1 := StartSlot(s, 0, Holding(0));
    StartedSlots(s1, 1, granted);
    var t := StartSlots(s1, 1, granted);
    assert Run(granted, []) == Start(granted) == t;
    assert s1.workers == [Worker(0, Holding(0))];
  }

  // ---------------------------------------------------------------- joining

  /** A dial mints the next connection, or fails; nothing else changes. */
  lemma DialExact(s: State, w: nat, ok: bool)
    requires WellSized(s.pool) && Enabled(s, Dial(w, ok))
    ensures Step(s, Dial(w, ok)) ==
            s.(workers := Moved(s, w, if ok then Handshaking(s.dialled) else JoinFailed),
               dialled := if ok then s.dialled + 1 else s.dialled)
  {
  }

  /** An ack is accepted exactly when it is for this session, names the pool's present size and this
      subdomain; otherwise, or without one, the connection is closed and the join has failed. */
  lemma HandshakeExact(s: State, w: nat, ack: Option<Ack>)
    requires WellSized(s.pool) && Enabled(s, Handshake(w, ack))
    ensures var c, t := s.workers[w].phase.conn, Step(s, Handshake(w, ack));
            if ack == Some(Ack(true, |s.pool.conns|, true))
            then t == s.(workers := Moved(s, w, Holding(c)))
            else t == s.(workers := Moved(s, w, JoinFailed), closed := s.closed + multiset{c})
  {
  }

  /** A failed join ends the session if no connection is left, with the fault JoinLost; otherwise the
      worker waits and tries again.  A cancelled worker returns without a report. */
  lemma JoinErrorExact(s: State, w: nat)
    requires WellSized(s.pool) && Enabled(s, JoinError(w))
    ensures var t := Step(s, JoinError(w));
            && t.reports == s.reports + (if !Over(s, w) && Vacant(s.pool) then [JoinLost] else [])
            && t.workers == Moved(s, w, if Over(s, w) || Vacant(s.pool) then Finished else Idle)
            && t == s.(workers := t.workers, reports := t.reports, errCh := t.errCh)
  {
  }

  // ---------------------------------------------------------------- installing

  /** Worker w's connection c sits in slot i, watched by a new ping loop; all other slots are as before,
      and the control role is taken exactly if the pool was empty. */
  ghost predicate PutInto(s: State, t: State, w: nat, i: nat, c: nat)
    requires w < |s.workers|
  {
    && t.workers == Moved(s, w, Reading(c)) && t.loops == s.loops + [c]
    && |t.pool.conns| == |s.pool.conns| && i < |t.pool.conns|
    && (forall j :: 0 <= j < |s.pool.conns| && j != i ==> t.pool.conns[j] == s.pool.conns[j])
    && t.pool.conns[i].Some? && t.pool.conns[i].value.id == c
    && t.pool.conns[i].value.index == i && t.pool.conns[i].value.streams == 0
    && t.pool.controlIndex == (if Vacant(s.pool) then i else s.pool.controlIndex)
    && t.closed == s.closed && t.reports == s.reports && t.draining == s.draining && t.dialled == s.dialled
  }

  /** A live worker puts its connection into its own slot. */
  lemma InstallExact(granted: int, schedule: seq<Action>, w: nat)
    requires granted >= 1
    requires var s := Run(granted, schedule); Enabled(s, Install(w)) && !Over(s, w) && s.workers[w].index < 32
    ensures var s := Run(granted, schedule);
            PutInto(s, Step(s, Install(w)), w, s.workers[w].index, s.workers[w].phase.conn)
  {
    RunInv(granted, schedule);
    InstallAt(Run(granted, schedule), w);
  }

  lemma InstallAt(s: State, w: nat)
    requires Inv(s) && Enabled(s, Install(w)) && !Over(s, w) && s.workers[w].index < 32
    ensures PutInto(s, Step(s, Install(w)), w, s.workers[w].index, s.workers[w].phase.conn)
  {
    LiveWorkerSlot(s, w);
    InstalledShape(s.pool, s.workers[w].index, s.workers[w].phase.conn, |s.loops|);
    InstallIsInstalled(s, w);
  }

  lemma InstallIsInstalled(s: State, w: nat)
    requires Inv(s) && Enabled(s, Install(w)) && !Over(s, w) && s.workers[w].index < |s.pool.conns|
    requires !Occupied(s.pool, s.workers[w].index)
    ensures var t, c := Step(s, Install(w)), s.workers[w].phase.conn;
            && t.pool == Installed(s.pool, s.workers[w].index, c, |s.loops|)
            && t.workers == Moved(s, w, Reading(c)) && t.loops == s.loops + [c]
            && t.closed == s.closed && t.reports == s.reports && t.draining == s.draining && t.dialled == s.dialled
  {
  }

  /** A worker that is cancelled, or was started beyond slot 31, closes its connection and returns. */
  lemma InstallRefused(granted: int, schedule: seq<Action>, w: nat)
    requires granted >= 1
    requires var s := Run(granted, schedule); Enabled(s, Install(w)) && (Over(s, w) || s.workers[w].index >= 32)
    ensures var s := Run(granted, schedule);
            Step(s, Install(w)) ==
            s.(workers := Moved(s, w, Finished), closed := s.closed + multiset{s.workers[w].phase.conn})
  {
    RunInv(granted, schedule);
  }

  // ---------------------------------------------------------------- losing a connection

  /** Slot i is the control slot and every other connection is busy. */
  ghost predicate NoHeir(p: Pool, i: nat) {
    i == p.controlIndex && forall j :: Occupied(p, j) && j != i ==> p.conns[j].value.streams != 0
  }

  ghost predicate Alone(p: Pool, i: nat) {
    forall j :: Occupied(p, j) ==> j == i
  }

  /** The end of a live worker's read loop: its slot is emptied and its connection closed.  It reports
      AllLost if no connection is left, ControlLost if the control connection is lost and all others
      are busy, and nothing otherwise; it returns if it reports and rejoins if not. */
  lemma ReadEndsExact(granted: int, schedule: seq<Action>, w: nat)
    requires granted >= 1
    requires var s := Run(granted, schedule); Enabled(s, ReadEnds(w)) && !Over(s, w)
    ensures var s := Run(granted, schedule);
            var t, i, c := Step(s, ReadEnds(w)), s.workers[w].index, s.workers[w].phase.conn;
            var fault := if Alone(s.pool, i) then [AllLost] else if NoHeir(s.pool, i) then [ControlLost] else [];
            && t.reports == s.reports + fault
            && t.workers == Moved(s, w, if fault == [] then Idle else Finished)
            && t.closed == s.closed + multiset{c} && t.draining == s.draining && t.slotCalled == s.slotCalled
            && Occupied(s.pool, i) && s.pool.conns[i].value.id == c
            && Ids(t.pool.conns) == Ids(s.pool.conns)[i := None]
  {
    var s := Run(granted, schedule);
    var i := s.workers[w].index;
    RunInv(granted, schedule);
    LiveWorkerSlot(s, w);
    RemoveFailsOver(s.pool, i);
    RemoveFrame(s, i, s.workers[w].phase.conn);
    ReadEndsIsAfterRemove(s, w, s.workers[w].phase.conn);
    ReadEndsReports(s, w);
  }

  lemma ReadEndsReports(s: State, w: nat)
    requires WellSized(s.pool) && Enabled(s, ReadEnds(w)) && !Over(s, w)
    ensures var r, t := Remove(s.pool, s.workers[w].index), Step(s, ReadEnds(w));
            var fault := if r.remaining == 0 then [AllLost]
                         else if r.controlLost && r.promoted.None? then [ControlLost] else [];
            && t.reports == s.reports + fault
            && t.workers == Moved(s, w, if fault == [] then Idle else Finished)
            && t.closed == s.closed + multiset{s.workers[w].phase.conn}
            && t.draining == s.draining && t.slotCalled == s.slotCalled
  {
  }

  /** A cancelled worker returns from its read loop and leaves everything to whoever cancelled it. */
  lemma ReadEndsCancelled(s: State, w: nat)
    requires WellSized(s.pool) && Enabled(s, ReadEnds(w)) && Over(s, w)
    ensures Step(s, ReadEnds(w)) == s.(workers := Moved(s, w, Finished))
  {
  }

  /** Who is in control after a loss: with nobody left slot 0 by default; the same slot if another one
      was lost; otherwise the least idle slot, or nobody. */
  lemma ControlAfterLoss(granted: int, schedule: seq<Action>, w: nat)
    requires granted >= 1
    requires var s := Run(granted, schedule); Enabled(s, ReadEnds(w)) && !Over(s, w)
    ensures var s := Run(granted, schedule);
            var t, i := Step(s, ReadEnds(w)), s.workers[w].index;
            var h := t.pool.controlIndex;
            if Alone(s.pool, i) then h == 0
            else if i != s.pool.controlIndex then h == s.pool.controlIndex
            else if NoHeir(s.pool, i) then h == -1
            else
              && h != i && Occupied(s.pool, h) && s.pool.conns[h].value.streams == 0
              && forall j :: Occupied(s.pool, j) && j != i && s.pool.conns[j].value.streams == 0 ==> h <= j
  {
    var s := Run(granted, schedule);
    RunInv(granted, schedule);
    LiveWorkerSlot(s, w);
    RemoveFailsOver(s.pool, s.workers[w].index);
    RemovedControl(s, w);
  }

  lemma RemovedControl(s: State, w: nat)
    requires WellSized(s.pool) && Enabled(s, ReadEnds(w)) && !Over(s, w)
    ensures Step(s, ReadEnds(w)).pool.controlIndex == Remove(s.pool, s.workers[w].index).pool.controlIndex
  {
  }

  // ---------------------------------------------------------------- resizing

  /** The pool takes exactly the size asked for, between 1 and 32. */
  lemma ResizeSizes(p: Pool, requested: int)
    requires WellSized(p)
    ensures var n := |Resize(p, requested).pool.conns|;
            (requested < 1 ==> n == 1) && (1 <= requested <= 32 ==> n == requested) && (requested > 32 ==> n == 32)
  {
  }

  /** What x counts for in the slots from n on has moved to the closing goroutines and the called cancels. */
  ghost predicate TailHanded(s: State, t: State, n: nat, x: nat) {
    if n < |s.pool.conns| == |s.pool.slotCancels| then
      && t.draining[x] == s.draining[x] + Count(Ids(s.pool.conns)[n..], x)
      && t.slotCalled[x] == s.slotCalled[x] + Count(s.pool.slotCancels[n..], x)
    else
      t.draining[x] == s.draining[x] && t.slotCalled[x] == s.slotCalled[x]
  }

  /** The pool has n slots: those below n keep their connections, those above have given theirs to a
      closing goroutine and their workers are cancelled, new ones are empty. */
  ghost predicate PoolResized(s: State, t: State, n: nat) {
    && |t.pool.conns| == |t.pool.slotCancels| == t.pool.maxConns == n
    && (forall i :: 0 <= i < n ==> Ids(t.pool.conns)[i] == if i < |s.pool.conns| then Ids(s.pool.conns)[i] else None)
    && (forall x: nat :: TailHanded(s, t, n, x))
    && t.closed == s.closed && t.reports == s.reports && t.dialled == s.dialled
  }

  /** A resize gives the pool exactly the size asked for, between 1 and 32, and each new slot a new worker. */
  lemma ResizeExact(granted: int, schedule: seq<Action>, w: nat, max: int)
    requires granted >= 1
    requires Enabled(Run(granted, schedule), ResizeTo(w, max))
    ensures var s := Run(granted, schedule);
            var t, was := Step(s, ResizeTo(w, max)), |s.pool.conns|;
            var n := if max < 1 then 1 else if max > 32 then 32 else max;
            PoolResized(s, t, n) && t.workers == s.workers + if n > was then Fresh(was, n) else []
  {
    RunInv(granted, schedule);
    ResizeAt(Run(granted, schedule), max);
  }

  lemma ResizeAt(s: State, max: int)
    requires Inv(s) && s.ending.None?
    ensures var t, was, n := DoResize(s, max), |s.pool.conns|, if max < 1 then 1 else if max > 32 then 32 else max;
            PoolResized(s, t, n) && t.workers == s.workers + if n > was then Fresh(was, n) else []
  {
    AfterResizeExact(s, max);
    WorkersStarted(s, AfterResize(s, max), Clamp(max));
    assert DoResize(s, max) == StartSlots(AfterResize(s, max), |s.pool.conns|, Clamp(max));
  }

  lemma WorkersStarted(s: State, u: State, n: nat)
    requires PoolResized(s, u, n) && u.workers == s.workers
    ensures var t, was := StartSlots(u, |s.pool.conns|, n), |s.pool.conns|;
            PoolResized(s, t, n) && t.workers == s.workers + if n > was then Fresh(was, n) else []
  {
    var was := |s.pool.conns|;
    var t := StartSlots(u, was, n);
    if n > was {
      StartedSlots(u, was, n);
    } else {
      assert t == u && s.workers + [] == s.workers;
    }
    forall x: nat ensures TailHanded(s, t, n, x) { assert TailHanded(s, u, n, x); }
  }

  lemma AfterResizeExact(s: State, max: int)
    requires Inv(s) && s.ending.None?
    ensures PoolResized(s, AfterResize(s, max), Clamp(max)) && AfterResize(s, max).workers == s.workers
  {
    ResizeFrame(s, max);
    ResizeShape(s.pool, max);
    forall x: nat ensures TailHanded(s, AfterResize(s, max), Clamp(max), x) { TailCounts(s, max, x); }
  }

  lemma TailCounts(s: State, max: int, x: nat)
    requires WellSized(s.pool)
    ensures TailHanded(s, AfterResize(s, max), Clamp(max), x)
  {
    var r := Resize(s.pool, max);
    AdoptedLogs(s, r);
    TailOut(s.pool, max, x);
    LogGrows(s.draining, r.drained, x);
    LogGrows(s.slotCalled, r.slotCalls, x);
  }

  lemma TailOut(p: Pool, max: int, x: nat)
    requires WellSized(p)
    ensures var r, n := Resize(p, max), Clamp(max);
            && Times(r.drained, x) == (if n < |p.conns| then Count(Ids(p.conns)[n..], x) else 0)
            && Times(r.slotCalls, x) == if n < |p.conns| then Count(p.slotCancels[n..], x) else 0
  {
    if Clamp(max) < |p.conns| {
      ShrinkPartitions(p, max);
      assert Ids(p.conns[Clamp(max)..]) == Ids(p.conns)[Clamp(max)..];
    }
  }

  lemma AdoptedLogs(s: State, r: ResizeResult)
    requires r.promoted.Some? ==> Occupied(r.pool, r.promoted.value)
    ensures var t := Adopted(s, r);
            t.draining == s.draining + multiset(r.drained) && t.slotCalled == s.slotCalled + multiset(r.slotCalls)
  {
  }

  // ---------------------------------------------------------------- the end

  /** Every connection in a slot has been closed once more and every stored cancel called once more. */
  ghost predicate Released(s: State, t: State, x: nat) {
    && t.closed[x] == s.closed[x] + Count(Ids(s.pool.conns), x)
    && t.slotCalled[x] == s.slotCalled[x] + Count(s.pool.slotCancels, x)
  }

  /** The end of a session: its outcome is the error taken from the channel, the first one reported,
      or nil; the pool's connections are closed and the workers cancelled. */
  lemma EndExact(granted: int, schedule: seq<Action>, viaError: bool)
    requires granted >= 1 && Enabled(Run(granted, schedule), SessionEnds(viaError))
    ensures var s := Run(granted, schedule);
            var t := Step(s, SessionEnds(viaError));
            && (if viaError then s.reports != [] && t.ending == Some(Failed(s.reports[0])) && t.errCh.None?
                else t.ending == Some(ContextDone) && s.parentDone)
            && (forall x: nat :: Released(s, t, x))
            && Ids(t.pool.conns) == Ids(s.pool.conns) && t.workers == s.workers && t.draining == s.draining
  {
    var s := Run(granted, schedule);
    RunInv(granted, schedule);
    EndAt(s, if viaError then Failed(s.errCh.value) else ContextDone);
  }

  lemma EndAt(s: State, ending: Ending)
    ensures var t := DoEnd(s, ending);
            && t.ending == Some(ending) && (ending.Failed? ==> t.errCh.None?) && (forall x: nat :: Released(s, t, x))
            && Ids(t.pool.conns) == Ids(s.pool.conns) && t.workers == s.workers && t.draining == s.draining
  {
    var r := Close(s.pool);
    forall x: nat ensures Released(s, DoEnd(s, ending), x) {
      CloseReleasesAll(s.pool, x);
      LogGrows(s.closed, r.closed, x);
      LogGrows(s.slotCalled, r.slotCalls, x);
    }
    CloseShape(s.pool);
  }

  /** As long as a session lasts, an error that was ever reported can end it, and so can the end of the
      caller's context. */
  lemma CanEnd(granted: int, schedule: seq<Action>)
    requires granted >= 1 && Run(granted, schedule).ending.None?
    ensures var s := Run(granted, schedule);
            && (s.reports != [] <==> Enabled(s, SessionEnds(true)))
            && (s.parentDone <==> Enabled(s, SessionEnds(false)))
  {
    RunInv(granted, schedule);
  }

  /** A worker that has not returned always has a step: it may go on from every phase, give up while idle
      once its context has ended, and, reading, lose its connection at any time or hear of a new size
      as long as the session lasts.  A closing goroutine may close whatever it holds. */
  lemma NobodyIsStuck(s: State, w: nat, max: int, ack: Option<Ack>, ok: bool, conn: nat)
    requires w < |s.workers|
    ensures match s.workers[w].phase
            case Idle => Enabled(s, Dial(w, ok)) && (Over(s, w) ==> Enabled(s, Quit(w)))
            case Handshaking(_) => Enabled(s, Handshake(w, ack))
            case JoinFailed => Enabled(s, JoinError(w))
            case Holding(_) => Enabled(s, Install(w))
            case Reading(_) => Enabled(s, ReadEnds(w)) && (s.ending.None? ==> Enabled(s, ResizeTo(w, max)))
            case Finished => true
    ensures s.draining[conn] > 0 ==> Enabled(s, DrainClose(conn))
  {
  }

  // ---------------------------------------------------------------- every slot can be repaired

  /** A worker with this index reads this connection, which sits in its slot. */
  ghost predicate Serves(t: State, w: nat, i: nat, c: nat) {
    && w < |t.workers| && t.workers[w] == Worker(i, Reading(c))
    && i < |t.pool.conns| && Ids(t.pool.conns)[i] == Some(c)
  }

  /** In every state of a session that lives, a worker without a connection can join and fill its slot. */
  lemma SlotRepairable(granted: int, schedule: seq<Action>, w: nat)
    requires granted >= 1
    requires var s := Run(granted, schedule);
             w < |s.workers| && s.workers[w].phase.Idle? && s.workers[w].index < 32 && !Over(s, w)
    ensures var s := Run(granted, schedule);
            var ack := Some(Ack(true, |s.pool.conns|, true));
            var t := Run(granted, schedule + [Dial(w, true), Handshake(w, ack), Install(w)]);
            Serves(t, w, s.workers[w].index, s.dialled) && t.reports == s.reports
  {
    var s := Run(granted, schedule);
    var ack := Some(Ack(true, |s.pool.conns|, true));
    RunInv(granted, schedule);
    RepairAt(s, w, ack);
    RunThree(granted, schedule, Dial(w, true), Handshake(w, ack), Install(w));
  }

  function Then(s: State, a: Action): (t: State)
    requires WellSized(s.pool)
    ensures WellSized(t.pool)
  {
    if Enabled(s, a) then Step(s, a) else s
  }

  lemma RunSnoc(granted: int, schedule: seq<Action>, a: Action)
    ensures Run(granted, schedule + [a]) == Then(Run(granted, schedule), a)
  {
    assert (schedule + [a])[..|schedule|] == schedule;
  }

  lemma RunThree(granted: int, schedule: seq<Action>, a: Action, b: Action, c: Action)
    ensures Run(granted, schedule + [a, b, c]) == Then(Then(Then(Run(granted, schedule), a), b), c)
  {
    RunSnoc(granted, schedule, a);
    RunSnoc(granted, schedule + [a], b);
    RunSnoc(granted, schedule + [a] + [b], c);
    assert schedule + [a] + [b] + [c] == schedule + [a, b, c];
  }

  lemma RepairAt(s: State, w: nat, ack: Option<Ack>)
    requires Inv(s) && w < |s.workers| && s.workers[w].phase.Idle? && s.workers[w].index < 32 && !Over(s, w)
    requires ack == Some(Ack(true, |s.pool.conns|, true))
    ensures var t := Then(Then(Then(s, Dial(w, true)), Handshake(w, ack)), Install(w));
            Serves(t, w, s.workers[w].index, s.dialled) && t.reports == s.reports
  {
    HoldsAfterJoin(s, w, ack);
    StepKeepsInv(s, Dial(w, true));
    StepKeepsInv(Step(s, Dial(w, true)), Handshake(w, ack));
    InstallAt(Step(Step(s, Dial(w, true)), Handshake(w, ack)), w);
  }

  lemma HoldsAfterJoin(s: State, w: nat, ack: Option<Ack>)
    requires WellSized(s.pool) && w < |s.workers| && s.workers[w].phase.Idle?
    requires ack == Some(Ack(true, |s.pool.conns|, true))
    ensures var t := Step(s, Dial(w, true));
            && Enabled(t, Handshake(w, ack))
            && Step(t, Handshake(w, ack)) == s.(workers := Moved(s, w, Holding(s.dialled)), dialled := s.dialled + 1)
  {
    DialExact(s, w, true);
    HandshakeExact(Step(s, Dial(w, true)), w, ack);
  }
}
