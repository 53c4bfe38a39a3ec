/** Every grouped step keeps the session invariant. */
module SessionProofs {
  import opened Prelude
  import opened PoolSpec
  import opened PoolLaws
  import opened Session
  import opened SessionInvariant

  // ---------------------------------------------------------------- ownership bookkeeping

  lemma HandUpdate(workers: seq<Worker>, w: nat, worker: Worker, c: nat)
    requires w < |workers|
    ensures Count(Hands(workers[w := worker]), c) + Is(HandOf(workers[w]), c)
         == Count(Hands(workers), c) + Is(HandOf(worker), c)
  {
    assert Hands(workers[w := worker]) == Hands(workers)[w := HandOf(worker)];
    CountUpdate(Hands(workers), w, HandOf(worker), c);
  }

  lemma HandAppend(workers: seq<Worker>, worker: Worker, c: nat)
    ensures Count(Hands(workers + [worker]), c) == Count(Hands(workers), c) + Is(HandOf(worker), c)
  {
    assert Hands(workers + [worker]) == Hands(workers) + [HandOf(worker)];
    CountConcat(Hands(workers), [HandOf(worker)], c);
    assert Count([HandOf(worker)], c) == Is(HandOf(worker), c);
  }

  // ---------------------------------------------------------------- phases that do not touch the pool

  /** The worker may move between phases outside the pool, and may return once its context
      is cancelled or a fault has been reported. */
  lemma PhaseKeepsSlots(s: State, s': State, w: nat, phase: Phase)
    requires s.ending.None? && SlotsOK(s, s.pool.maxConns)
    requires w < |s.workers| && !phase.Reading?
    requires s.workers[w].phase.Reading? ==> Cancelled(s, w)
    requires phase.Finished? ==> Cancelled(s, w) || s'.reports != []
    requires s'.pool == s.pool && s'.slotCalled == s.slotCalled && s'.parentDone == s.parentDone
    requires s'.reports == [] ==> s.reports == []
    requires s'.workers == s.workers[w := s.workers[w].(phase := phase)]
    ensures SlotsOK(s', s'.pool.maxConns)
  {
    forall i | 0 <= i < s.pool.maxConns ensures SlotOK(s', i) {
      assert SlotOK(s, i);
      if s.pool.slotCancels[i] == Some(w) { assert WorkerOK(s, w); }
    }
    forall v | 0 <= v < |s'.workers| ensures WorkerOK(s', v) {
      assert WorkerOK(s, v);
    }
  }

  /** A worker's move keeps, releases or gains one connection. */
  predicate FairMove(s: State, s': State, w: nat)
    requires w < |s.workers| == |s'.workers|
  {
    var before, after := HandOf(s.workers[w]), HandOf(s'.workers[w]);
    || (after == before && s'.closed == s.closed && s'.dialled == s.dialled)
    || (before.Some? && after.None? && s'.closed == s.closed + multiset{before.value} && s'.dialled == s.dialled)
    || (before.None? && after == Some(s.dialled) && s'.closed == s.closed && s'.dialled == s.dialled + 1)
  }

  lemma MoveKeepsConns(s: State, s': State, w: nat)
    requires ConnsConserved(s) && w < |s.workers| == |s'.workers|
    requires s'.workers == s.workers[w := s'.workers[w]]
    requires s'.pool == s.pool && s'.ending == s.ending && s'.draining == s.draining
    requires FairMove(s, s', w)
    ensures ConnsConserved(s')
  {
    forall c: nat ensures Owners(s', c) == Minted(s'.dialled, c) {
      assert Owners(s, c) == Minted(s.dialled, c);
      HandUpdate(s.workers, w, s'.workers[w], c);
    }
  }

  /** Everything a worker does without touching the pool: dialling, the handshake, join errors,
      and returning. */
  lemma MoveKeepsInv(s: State, s': State, w: nat, phase: Phase)
    requires Inv(s) && w < |s.workers|
    requires s' == s.(workers := s.workers[w := s.workers[w].(phase := phase)],
                      closed := s'.closed, dialled := s'.dialled, reports := s'.reports, errCh := s'.errCh)
    requires FairMove(s, s', w) && ReportsOK(s')
    requires s'.reports == [] ==> s.reports == []
    requires !phase.Reading? && (s.workers[w].phase.Reading? ==> Cancelled(s, w))
    requires phase.Finished? ==> Cancelled(s, w) || s'.reports != []
    ensures Inv(s')
  {
    MoveKeepsConns(s, s', w);
    if s.ending.None? { PhaseKeepsSlots(s, s', w, phase); }
  }

  lemma DialKeepsInv(s: State, w: nat, ok: bool)
    requires Inv(s) && Enabled(s, Dial(w, ok))
    ensures Inv(Step(s, Dial(w, ok)))
  {
    MoveKeepsInv(s, Step(s, Dial(w, ok)), w, if ok then Handshaking(s.dialled) else JoinFailed);
  }

  lemma HandshakeKeepsInv(s: State, w: nat, ack: Option<Ack>)
    requires Inv(s) && Enabled(s, Handshake(w, ack))
    ensures Inv(Step(s, Handshake(w, ack)))
  {
    var phase := if Accepted(s.pool, ack) then Holding(s.workers[w].phase.conn) else JoinFailed;
    MoveKeepsInv(s, Step(s, Handshake(w, ack)), w, phase);
  }

  lemma JoinErrorKeepsInv(s: State, w: nat)
    requires Inv(s) && Enabled(s, JoinError(w))
    ensures Inv(DoJoinError(s, w))
  {
    MoveKeepsInv(s, DoJoinError(s, w), w, DoJoinError(s, w).workers[w].phase);
  }

  /** Returning on a cancelled context; a connection still in hand is closed first. */
  lemma ReturnKeepsInv(s: State, w: nat)
    requires Inv(s) && w < |s.workers| && Cancelled(s, w)
    ensures s.workers[w].phase.Holding? ==> Inv(DoInstall(s, w, s.workers[w].phase.conn))
    ensures !s.workers[w].phase.Holding? && !s.workers[w].phase.Handshaking? ==> Inv(SetPhase(s, w, Finished))
  {
    if s.workers[w].phase.Holding? {
      MoveKeepsInv(s, DoInstall(s, w, s.workers[w].phase.conn), w, Finished);
    } else if !s.workers[w].phase.Handshaking? {
      MoveKeepsInv(s, SetPhase(s, w, Finished), w, Finished);
    }
  }

  // ---------------------------------------------------------------- installing a connection

  /** A worker whose context is live, or that has no slot, and the slot it may fill. */
  lemma LiveWorkerSlot(s: State, w: nat)
    requires Inv(s) && w < |s.workers| && !Cancelled(s, w)
    ensures s.workers[w].index < MAX_POOL_CONNECTIONS ==> Posted(s, w) && SlotOK(s, s.workers[w].index)
    ensures s.workers[w].phase.Reading? ==>
              var i := s.workers[w].index;
              Occupied(s.pool, i) && s.pool.conns[i].value.id == s.workers[w].phase.conn
    ensures s.workers[w].phase.Holding? && s.workers[w].index < MAX_POOL_CONNECTIONS ==>
              !Occupied(s.pool, s.workers[w].index)
  {
    assert WorkerOK(s, w);
  }

  /** The slot's content and its worker's phase change together. */
  lemma SlotChangeKeepsSlots(s: State, s': State, w: nat, conn: Option<nat>, phase: Phase)
    requires Inv(s) && w < |s.workers| && !Cancelled(s, w) && Posted(s, w)
    requires WellSized(s'.pool) && s'.pool.maxConns == s.pool.maxConns && s'.pool.slotCancels == s.pool.slotCancels
    requires Ids(s'.pool.conns) == Ids(s.pool.conns)[s.workers[w].index := conn]
    requires s'.workers == s.workers[w := s.workers[w].(phase := phase)]
    requires s'.slotCalled == s.slotCalled && s'.parentDone == s.parentDone
    requires if conn.Some? then phase == Reading(conn.value) else !phase.Reading?
    requires phase.Finished? ==> s'.reports != []
    requires s'.reports == [] ==> s.reports == []
    ensures SlotsOK(s', s'.pool.maxConns)
  {
    assert WorkerOK(s, w);
    forall i | 0 <= i < s.pool.maxConns ensures SlotOK(s', i) {
      assert SlotOK(s, i);
    }
    forall v | 0 <= v < |s'.workers| ensures WorkerOK(s', v) {
      assert WorkerOK(s, v);
    }
  }

  lemma InstallKeepsPings(s: State, s': State, i: nat, conn: nat)
    requires Inv(s) && s.ending.None? && i < s.pool.maxConns && !Occupied(s.pool, i)
    requires s'.pool == Installed(s.pool, i, conn, |s.loops|) && s'.loops == s.loops + [conn]
    requires s'.pingCalled == s.pingCalled
    ensures PingsConserved(s') && forall c: nat :: Held(s'.pool, c) == Held(s.pool, c) + Is(Some(conn), c)
  {
    var a := Add(s.pool, i, conn);
    InstallKeepsPool(s.pool, s.loops, i, conn);
    forall x: nat
      ensures Stored(s'.pool, x) + s'.pingCalled[x] == Minted(|s'.loops|, x)
      ensures Held(s'.pool, x) == Held(s.pool, x) + Is(Some(conn), x)
    {
      AddCounts(s.pool, i, conn, x);
      if a.isControl { ReplaceConserves(a.pool, |s.loops|, x); } else { SetCounts(a.pool, i, |s.loops|, x); }
    }
  }

  lemma InstallKeepsInv(s: State, w: nat)
    requires Inv(s) && w < |s.workers| && s.workers[w].phase.Holding? && !Cancelled(s, w)
    ensures Inv(DoInstall(s, w, s.workers[w].phase.conn))
  {
    var conn, i := s.workers[w].phase.conn, s.workers[w].index;
    var s' := DoInstall(s, w, conn);
    LiveWorkerSlot(s, w);
    if i >= MAX_POOL_CONNECTIONS {
      OrphanKeepsInv(s, w);
    } else {
      InstallKeepsPool(s.pool, s.loops, i, conn);
      InstallKeepsPings(s, s', i, conn);
      SlotChangeKeepsSlots(s, s', w, Some(conn), Reading(conn));
      forall c: nat ensures Owners(s', c) == Minted(s'.dialled, c) {
        assert Owners(s, c) == Minted(s.dialled, c);
        HandUpdate(s.workers, w, s'.workers[w], c);
      }
    }
  }

  /** A worker beyond slot 31 cannot install: its connection is closed and it returns. */
  lemma OrphanKeepsInv(s: State, w: nat)
    requires Inv(s) && w < |s.workers| && s.workers[w].phase.Holding? && !Cancelled(s, w)
    requires s.workers[w].index >= MAX_POOL_CONNECTIONS
    ensures Inv(DoInstall(s, w, s.workers[w].phase.conn))
  {
    var s' := DoInstall(s, w, s.workers[w].phase.conn);
    MoveKeepsConns(s, s', w);
    forall i | 0 <= i < s.pool.maxConns ensures SlotOK(s', i) {
      assert SlotOK(s, i);
    }
    forall v | 0 <= v < |s'.workers| ensures WorkerOK(s', v) {
      assert WorkerOK(s, v);
    }
  }

  // ---------------------------------------------------------------- removing a connection

  /** Giving a promoted connection its ping loop mints one token. */
  lemma ControlLoopCounts(s: State, conn: nat, x: nat)
    ensures var t := StartControlLoop(s, conn);
            && Stored(t.pool, x) + t.pingCalled[x] + Minted(|s.loops|, x)
               == Stored(s.pool, x) + s.pingCalled[x] + Minted(|t.loops|, x)
            && Held(t.pool, x) == Held(s.pool, x)
  {
    ReplaceConserves(s.pool, |s.loops|, x);
    LogGrows(s.pingCalled, ReplacePingLoop(s.pool, |s.loops|).called, x);
  }

  lemma RemoveCounts(s: State, i: nat, conn: nat, x: nat)
    requires Occupied(s.pool, i) && s.pool.conns[i].value.id == conn
    ensures var t := AfterRemove(s, i, conn);
            && Stored(t.pool, x) + t.pingCalled[x] + Minted(|s.loops|, x)
               == Stored(s.pool, x) + s.pingCalled[x] + Minted(|t.loops|, x)
            && Held(t.pool, x) + t.closed[x] == Held(s.pool, x) + s.closed[x]
  {
    RemoveConserves(s.pool, i, x);
    ReapedCounts(s, Remove(s.pool, i), conn, x);
  }

  lemma ReapedCounts(s: State, r: RemoveResult, conn: nat, x: nat)
    requires r.promoted.Some? ==> Occupied(r.pool, r.promoted.value)
    ensures var t := Reaped(s, r, conn);
            && Stored(t.pool, x) + t.pingCalled[x] + Minted(|s.loops|, x)
               == Stored(r.pool, x) + Times(r.called, x) + s.pingCalled[x] + Minted(|t.loops|, x)
            && Held(t.pool, x) == Held(r.pool, x) && t.closed[x] == s.closed[x] + Is(Some(conn), x)
  {
    var s1 := s.(pool := r.pool, pingCalled := s.pingCalled + multiset(r.called), closed := s.closed + multiset{conn});
    LogGrows(s.pingCalled, r.called, x);
    if r.promoted.Some? { ControlLoopCounts(s1, r.pool.conns[r.promoted.value].value.id, x); }
  }

  lemma LogGrows(log: multiset<nat>, more: seq<nat>, x: nat)
    ensures (log + multiset(more))[x] == log[x] + Times(more, x)
  {
  }

  lemma ReadEndsIsAfterRemove(s: State, w: nat, conn: nat)
    requires PoolInv(s.pool) && Watched(s.pool, s.loops) && w < |s.workers| && !Cancelled(s, w)
    requires Occupied(s.pool, s.workers[w].index)
    ensures var t, u := AfterRemove(s, s.workers[w].index, conn), DoReadEnds(s, w, conn);
            && u == t.(workers := u.workers, reports := u.reports, errCh := u.errCh)
            && u.workers == s.workers[w := s.workers[w].(phase := u.workers[w].phase)]
            && (u.workers[w].phase.Idle? || (u.workers[w].phase.Finished? && u.reports != []))
            && (u.reports == [] ==> s.reports == [])
            && (ReportsOK(s) && s.ending.None? ==> ReportsOK(u))
  {
    RemoveKeepsPool(s.pool, s.loops, s.workers[w].index);
  }

  /** The parts of the state a removal determines. */
  lemma RemoveFrame(s: State, i: nat, conn: nat)
    requires PoolInv(s.pool) && Watched(s.pool, s.loops) && Occupied(s.pool, i)
    ensures var t, r := AfterRemove(s, i, conn), Remove(s.pool, i);
            && PoolInv(t.pool) && Watched(t.pool, t.loops)
            && t.pool.maxConns == s.pool.maxConns && t.pool.slotCancels == s.pool.slotCancels
            && Ids(t.pool.conns) == Ids(s.pool.conns)[i := None]
            && t.workers == s.workers && t.slotCalled == s.slotCalled && t.parentDone == s.parentDone
            && t.ending == s.ending && t.dialled == s.dialled && t.draining == s.draining
  {
    RemoveKeepsPool(s.pool, s.loops, i);
  }

  lemma ReadEndsKeepsInv(s: State, w: nat)
    requires Inv(s) && w < |s.workers| && s.workers[w].phase.Reading? && !Cancelled(s, w)
    ensures Inv(DoReadEnds(s, w, s.workers[w].phase.conn))
  {
    var conn, i := s.workers[w].phase.conn, s.workers[w].index;
    LiveWorkerSlot(s, w);
    assert WorkerOK(s, w);
    RemoveFrame(s, i, conn);
    ReadEndsIsAfterRemove(s, w, conn);
    RemovalConserves(s, AfterRemove(s, i, conn), DoReadEnds(s, w, conn), w, i, conn);
    RemovalKeepsInv(s, DoReadEnds(s, w, conn), w, i);
  }

  lemma RemovalKeepsInv(s: State, s': State, w: nat, i: nat)
    requires Inv(s) && s.ending.None? && s'.ending.None? && w < |s.workers|
    requires !Cancelled(s, w) && Posted(s, w) && s.workers[w].index == i < |s.pool.conns|
    requires PoolInv(s'.pool) && Watched(s'.pool, s'.loops)
    requires s'.pool.maxConns == s.pool.maxConns && s'.pool.slotCancels == s.pool.slotCancels
    requires Ids(s'.pool.conns) == Ids(s.pool.conns)[i := None]
    requires s'.slotCalled == s.slotCalled && s'.parentDone == s.parentDone
    requires |s'.workers| == |s.workers| && s'.workers == s.workers[w := s.workers[w].(phase := s'.workers[w].phase)]
    requires s'.workers[w].phase.Idle? || (s'.workers[w].phase.Finished? && s'.reports != [])
    requires (s'.reports == [] ==> s.reports == []) && ReportsOK(s')
    requires PingsConserved(s') && ConnsConserved(s')
    ensures Inv(s')
  {
    SlotChangeKeepsSlots(s, s', w, None, s'.workers[w].phase);
  }

  lemma RemovalConserves(s: State, t: State, s': State, w: nat, i: nat, conn: nat)
    requires PingsConserved(s) && ConnsConserved(s) && s.ending.None? && w < |s.workers| == |s'.workers|
    requires Occupied(s.pool, i) && s.pool.conns[i].value.id == conn
    requires t == AfterRemove(s, i, conn)
    requires s' == t.(workers := s'.workers, reports := s'.reports, errCh := s'.errCh)
    requires s'.workers == s.workers[w := s'.workers[w]]
    requires HandOf(s.workers[w]).None? && HandOf(s'.workers[w]).None?
    ensures PingsConserved(s') && ConnsConserved(s')
  {
    forall x: nat
      ensures Stored(s'.pool, x) + s'.pingCalled[x] == Minted(|s'.loops|, x)
      ensures Owners(s', x) == Minted(s'.dialled, x)
    {
      assert Stored(s.pool, x) + s.pingCalled[x] == Minted(|s.loops|, x);
      assert Owners(s, x) == Minted(s.dialled, x);
      RemoveCounts(s, i, conn, x);
      HandUpdate(s.workers, w, s'.workers[w], x);
    }
  }

  // ---------------------------------------------------------------- resizing

  lemma ResizeCounts(s: State, max: int, x: nat)
    requires PoolInv(s.pool) && Watched(s.pool, s.loops)
    ensures var t := AfterResize(s, max);
            && Stored(t.pool, x) + t.pingCalled[x] + Minted(|s.loops|, x)
               == Stored(s.pool, x) + s.pingCalled[x] + Minted(|t.loops|, x)
            && Held(t.pool, x) + t.draining[x] == Held(s.pool, x) + s.draining[x]
            && Count(t.pool.slotCancels, x) + t.slotCalled[x] == Count(s.pool.slotCancels, x) + s.slotCalled[x]
  {
    ResizeConserves(s.pool, max, x);
    AdoptedCounts(s, Resize(s.pool, max), x);
  }

  lemma AdoptedCounts(s: State, r: ResizeResult, x: nat)
    requires r.promoted.Some? ==> Occupied(r.pool, r.promoted.value)
    ensures var t := Adopted(s, r);
            && Stored(t.pool, x) + t.pingCalled[x] + Minted(|s.loops|, x)
               == Stored(r.pool, x) + Times(r.pingCalls, x) + s.pingCalled[x] + Minted(|t.loops|, x)
            && Held(t.pool, x) == Held(r.pool, x) && t.draining[x] == s.draining[x] + Times(r.drained, x)
            && t.pool.slotCancels == r.pool.slotCancels && t.slotCalled[x] == s.slotCalled[x] + Times(r.slotCalls, x)
  {
    var s1 := s.(pool := r.pool, pingCalled := s.pingCalled + multiset(r.pingCalls),
                 slotCalled := s.slotCalled + multiset(r.slotCalls), draining := s.draining + multiset(r.drained));
    LogGrows(s.pingCalled, r.pingCalls, x);
    LogGrows(s.slotCalled, r.slotCalls, x);
    LogGrows(s.draining, r.drained, x);
    if r.promoted.Some? { ControlLoopCounts(s1, r.pool.conns[r.promoted.value].value.id, x); }
  }

  /** A worker's cancel is stored in its own slot or nowhere. */
  lemma PostedCount(s: State, n: int, w: nat)
    requires SlotsOK(s, n) && w < |s.workers|
    ensures Count(s.pool.slotCancels, w) == if Posted(s, w) then 1 else 0
  {
    var slots := s.pool.slotCancels;
    assert forall i :: 0 <= i < |slots| && i != s.workers[w].index && slots[i] == Some(w) ==> !SlotOK(s, i);
    if Posted(s, w) {
      var i := s.workers[w].index;
      CountUpdate(slots, i, None, w);
      CountZero(slots[i := None], w);
    } else {
      CountZero(slots, w);
    }
  }

  lemma ResizeKeepsWorker(s: State, max: int, w: nat)
    requires LiveInv(s, s.pool.maxConns) && w < |s.workers|
    ensures WorkerOK(AfterResize(s, max), w)
  {
    var t := AfterResize(s, max);
    assert WorkerOK(s, w);
    PostedCount(s, s.pool.maxConns, w);
    ResizeCounts(s, max, w);
    ResizeShape(s.pool, max);
    var i := s.workers[w].index;
    if i < Clamp(max) && i < s.pool.maxConns {
      assert SlotOK(s, i);
      assert t.pool.slotCancels[i] == s.pool.slotCancels[i];
    }
    forall j | 0 <= j < |t.pool.slotCancels| && t.pool.slotCancels[j] == Some(w) ensures j == i {
      assert j < s.pool.maxConns && t.pool.slotCancels[j] == s.pool.slotCancels[j];
      assert SlotOK(s, j);
    }
    if Posted(t, w) {
      CountHas(t.pool.slotCancels, i, w);
    } else {
      CountZero(t.pool.slotCancels, w);
    }
  }

  /** The parts of the state a resize leaves alone. */
  lemma ResizeFrame(s: State, max: int)
    requires WellSized(s.pool)
    ensures var t, q := AfterResize(s, max), Resize(s.pool, max).pool;
            && t.workers == s.workers && t.reports == s.reports && t.errCh == s.errCh && t.dialled == s.dialled
            && t.closed == s.closed && t.parentDone == s.parentDone && t.ending == s.ending
            && t.pool.conns == q.conns && t.pool.slotCancels == q.slotCancels
            && t.pool.maxConns == q.maxConns == Clamp(max)
            && t.pool == Attended(q, Resize(s.pool, max).promoted, |s.loops|)
            && t.loops == s.loops + Promotee(q, Resize(s.pool, max).promoted)
  {
  }

  lemma ResizeKeepsSlot(s: State, max: int, i: nat)
    requires LiveInv(s, s.pool.maxConns) && i < s.pool.maxConns && i < Clamp(max)
    ensures var t := AfterResize(s, max);
            |t.pool.slotCancels| == |t.pool.conns| == Clamp(max) && SlotOK(t, i)
  {
    ResizeFrame(s, max);
    ResizeShape(s.pool, max);
    assert SlotOK(s, i);
    assert Ids(AfterResize(s, max).pool.conns)[i] == Ids(s.pool.conns)[i];
  }

  lemma ResizeCallsWorkersOnly(s: State, max: int, w: nat)
    requires LiveInv(s, s.pool.maxConns) && w in AfterResize(s, max).slotCalled
    ensures w < |s.workers|
  {
    ResizeCounts(s, max, w);
    if w >= |s.workers| {
      var slots := s.pool.slotCancels;
      forall i | 0 <= i < |slots| ensures slots[i] != Some(w) { assert SlotOK(s, i); }
      CountZero(slots, w);
    }
  }

  lemma ResizeKeepsSlots(s: State, max: int)
    requires LiveInv(s, s.pool.maxConns)
    ensures SlotsOK(AfterResize(s, max), s.pool.maxConns)
  {
    var t := AfterResize(s, max);
    ResizeFrame(s, max);
    forall i | 0 <= i < s.pool.maxConns && i < t.pool.maxConns ensures SlotOK(t, i) { ResizeKeepsSlot(s, max, i); }
    forall i | s.pool.maxConns <= i < t.pool.maxConns ensures t.pool.slotCancels[i].None? && t.pool.conns[i].None? {
      ResizeShape(s.pool, max);
    }
    forall w | 0 <= w < |s.workers| ensures WorkerOK(t, w) { ResizeKeepsWorker(s, max, w); }
    forall w | w in t.slotCalled ensures w < |s.workers| { ResizeCallsWorkersOnly(s, max, w); }
  }

  lemma ResizeConservesState(s: State, max: int)
    requires LiveInv(s, s.pool.maxConns)
    ensures PingsConserved(AfterResize(s, max)) && ConnsConserved(AfterResize(s, max))
  {
    var t := AfterResize(s, max);
    ResizeFrame(s, max);
    forall x: nat
      ensures Stored(t.pool, x) + t.pingCalled[x] == Minted(|t.loops|, x)
      ensures Owners(t, x) == Minted(t.dialled, x)
    {
      assert Stored(s.pool, x) + s.pingCalled[x] == Minted(|s.loops|, x);
      assert Owners(s, x) == Minted(s.dialled, x);
      ResizeCounts(s, max, x);
    }
  }

  lemma ResizeKeepsLive(s: State, max: int)
    requires LiveInv(s, s.pool.maxConns)
    ensures LiveInv(AfterResize(s, max), s.pool.maxConns)
  {
    ResizeFrame(s, max);
    ResizeKeepsPool(s.pool, s.loops, max);
    ResizeKeepsSlots(s, max);
    ResizeConservesState(s, max);
  }

  lemma SlotCancelKeepsPool(p: Pool, loops: seq<nat>, i: nat, w: nat)
    requires PoolInv(p) && Watched(p, loops)
    ensures var q := SetSlotCancel(p, i, w); PoolInv(q) && Watched(q, loops)
  {
    var q := SetSlotCancel(p, i, w);
    assert forall j :: Occupied(q, j) <==> Occupied(p, j);
  }

  /** The next slot gets its worker; beyond slot 31 the worker has no stored cancel. */
  lemma StartSlotKeepsLive(s: State, i: nat)
    requires LiveInv(s, i) && (i < s.pool.maxConns || i >= MAX_POOL_CONNECTIONS)
    ensures LiveInv(StartSlot(s, i, Idle), i + 1)
  {
    var s' := StartSlot(s, i, Idle);
    forall x: nat ensures Owners(s', x) == Minted(s'.dialled, x) {
      assert Owners(s, x) == Minted(s.dialled, x);
      HandAppend(s.workers, Worker(i, Idle), x);
    }
    forall t: nat ensures Stored(s'.pool, t) + s'.pingCalled[t] == Minted(|s'.loops|, t) {
      assert Stored(s.pool, t) + s.pingCalled[t] == Minted(|s.loops|, t);
    }
    SlotCancelKeepsPool(s.pool, s.loops, i, |s.workers|);
    StartSlotKeepsSlots(s, i, Idle);
  }

  lemma StartSlotKeepsSlots(s: State, i: nat, phase: Phase)
    requires SlotsOK(s, i) && (i < s.pool.maxConns || i >= MAX_POOL_CONNECTIONS)
    requires s.pool.maxConns <= MAX_POOL_CONNECTIONS && !phase.Reading? && !phase.Finished?
    ensures SlotsOK(StartSlot(s, i, phase), i + 1)
  {
    var s' := StartSlot(s, i, phase);
    forall j | 0 <= j < i + 1 && j < s.pool.maxConns ensures SlotOK(s', j) {
      if j < i { assert SlotOK(s, j); }
    }
    forall w | 0 <= w < |s'.workers| ensures WorkerOK(s', w) {
      if w < |s.workers| {
        assert WorkerOK(s, w);
        if s.workers[w].index == i < s.pool.maxConns { assert !Posted(s, w); }
      }
    }
  }

  lemma {:induction false} StartSlotsKeepsLive(s: State, from: nat, to: int)
    requires LiveInv(s, from)
    requires to == s.pool.maxConns || (s.pool.maxConns == MAX_POOL_CONNECTIONS && to > MAX_POOL_CONNECTIONS)
    ensures var r := StartSlots(s, from, to); LiveInv(r, r.pool.maxConns)
    decreases if from < to then to - from else 0
  {
    if from < to {
      StartSlotKeepsLive(s, from);
      StartSlotsKeepsLive(StartSlot(s, from, Idle), from + 1, to);
    }
  }

  lemma ResizeKeepsInv(s: State, max: int)
    requires Inv(s) && s.ending.None?
    ensures Inv(DoResize(s, max))
  {
    ResizeKeepsLive(s, max);
    ResizeKeepsPool(s.pool, s.loops, max);
    StartSlotsKeepsLive(AfterResize(s, max), s.pool.maxConns, Clamp(max));
  }

  /** The session starts sound for every granted size of at least one. */
  lemma StartInv(granted: int)
    requires granted >= 1
    ensures Inv(Start(granted))
  {
    var capped := if granted > MAX_POOL_CONNECTIONS then MAX_POOL_CONNECTIONS else granted;
    var s := State(New(capped), [], [], {}, multiset{}, multiset{}, 1, multiset{}, multiset{}, None, [], false, None);
    var s' := StartSlot(s, 0, Holding(0));
    StartSlotKeepsSlots(s, 0, Holding(0));
    forall x: nat
      ensures Stored(s'.pool, x) + s'.pingCalled[x] == Minted(|s'.loops|, x)
      ensures Owners(s', x) == Minted(s'.dialled, x)
    {
      HandAppend([], Worker(0, Holding(0)), x);
      assert s.workers == [];
      CountZero(Ids(s'.pool.conns), x);
      CountZero(Cancels(s'.pool.conns), x);
    }
    StartSlotsKeepsLive(s', 1, granted);
  }

  // ---------------------------------------------------------------- the remaining steps

  lemma EndKeepsInv(s: State, ending: Ending)
    requires Inv(s) && s.ending.None?
    requires if ending.Failed? then s.errCh == Some(ending.fault) else s.parentDone
    ensures Inv(DoEnd(s, ending))
  {
    var s' := DoEnd(s, ending);
    forall x: nat
      ensures Stored(s'.pool, x) == 0 && s'.pingCalled[x] == Minted(|s'.loops|, x)
      ensures Owners(s', x) == Minted(s'.dialled, x)
    {
      assert Stored(s.pool, x) + s.pingCalled[x] == Minted(|s.loops|, x);
      assert Owners(s, x) == Minted(s.dialled, x);
      CloseReleasesAll(s.pool, x);
    }
    forall w | 0 <= w < |s'.workers|
      ensures s'.slotCalled[w] == if s'.workers[w].index < MAX_POOL_CONNECTIONS then 1 else 0
    {
      assert WorkerOK(s, w);
      PostedCount(s, s.pool.maxConns, w);
      CloseReleasesAll(s.pool, w);
    }
  }

  lemma SameSlots(s: State, s': State, n: int)
    requires SlotsOK(s, n) && WellSized(s'.pool) && s'.pool.maxConns == s.pool.maxConns
    requires Ids(s'.pool.conns) == Ids(s.pool.conns) && s'.pool.slotCancels == s.pool.slotCancels
    requires s'.workers == s.workers && s'.slotCalled == s.slotCalled && s'.reports == s.reports
    requires s.parentDone ==> s'.parentDone
    ensures SlotsOK(s', n)
  {
    forall i | 0 <= i < n && i < s'.pool.maxConns ensures SlotOK(s', i) { assert SlotOK(s, i); }
    forall i | n <= i < s'.pool.maxConns ensures s'.pool.conns[i].None? { assert Ids(s.pool.conns)[i].None?; }
    forall w | 0 <= w < |s.workers| ensures WorkerOK(s', w) { assert WorkerOK(s, w); }
  }

  lemma SetStreamsKeepsPool(p: Pool, loops: seq<nat>, slot: nat, count: int)
    requires Occupied(p, slot)
    ensures var q := p.(conns := p.conns[slot := Some(p.conns[slot].value.(streams := count))]);
            && Ids(q.conns) == Ids(p.conns) && Cancels(q.conns) == Cancels(p.conns)
            && (PoolInv(p) && Watched(p, loops) ==> PoolInv(q) && Watched(q, loops))
  {
    var q := p.(conns := p.conns[slot := Some(p.conns[slot].value.(streams := count))]);
    assert forall j :: Occupied(q, j) <==> Occupied(p, j);
  }

  lemma StreamsKeepInv(s: State, slot: nat, count: int)
    requires Inv(s) && Occupied(s.pool, slot)
    ensures Inv(Step(s, SetStreams(slot, count)))
  {
    var s' := Step(s, SetStreams(slot, count));
    SetStreamsKeepsPool(s.pool, s.loops, slot, count);
    SameCountsConserved(s, s');
    if s.ending.None? { SameSlots(s, s', s.pool.maxConns); }
  }

  lemma SameCountsConserved(s: State, s': State)
    requires PingsConserved(s) && ConnsConserved(s)
    requires Ids(s'.pool.conns) == Ids(s.pool.conns) && Cancels(s'.pool.conns) == Cancels(s.pool.conns)
    requires s'.pool.pingCancel == s.pool.pingCancel && s'.loops == s.loops && s'.pingCalled == s.pingCalled
    requires s'.workers == s.workers && s'.ending == s.ending && s'.dialled == s.dialled
    requires forall x: nat :: s'.draining[x] + s'.closed[x] == s.draining[x] + s.closed[x]
    ensures PingsConserved(s') && ConnsConserved(s')
    ensures forall x: nat :: Stored(s'.pool, x) == Stored(s.pool, x)
  {
    forall x: nat
      ensures Stored(s'.pool, x) == Stored(s.pool, x) && Stored(s'.pool, x) + s'.pingCalled[x] == Minted(|s'.loops|, x)
      ensures Owners(s', x) == Minted(s'.dialled, x)
    {
      assert Stored(s.pool, x) + s.pingCalled[x] == Minted(|s.loops|, x);
      assert Owners(s, x) == Minted(s.dialled, x);
    }
  }

  lemma DrainKeepsInv(s: State, conn: nat)
    requires Inv(s) && conn in s.draining
    ensures Inv(Step(s, DrainClose(conn)))
  {
    var s' := Step(s, DrainClose(conn));
    SameCountsConserved(s, s');
    if s.ending.None? { SameSlots(s, s', s.pool.maxConns); }
  }

  lemma ParentEndsKeepsInv(s: State)
    requires Inv(s)
    ensures Inv(s.(parentDone := true))
  {
    var s' := s.(parentDone := true);
    SameCountsConserved(s, s');
    if s.ending.None? { SameSlots(s, s', s.pool.maxConns); }
  }

  lemma LoopFailsKeepsInv(s: State, t: nat)
    requires Inv(s)
    ensures Inv(s.(loopsFailed := s.loopsFailed + {t}))
  {
    var s' := s.(loopsFailed := s.loopsFailed + {t});
    SameCountsConserved(s, s');
    if s.ending.None? { SameSlots(s, s', s.pool.maxConns); }
  }

  /** Every enabled step keeps the invariant. */
  lemma StepKeepsInv(s: State, a: Action)
    requires Inv(s) && Enabled(s, a)
    ensures Inv(Step(s, a))
  {
    match a
    case Dial(w, ok) => DialKeepsInv(s, w, ok);
    case Handshake(w, ack) => HandshakeKeepsInv(s, w, ack);
    case JoinError(w) => JoinErrorKeepsInv(s, w);
    case Quit(w) => ReturnKeepsInv(s, w);
    case Install(w) => if Cancelled(s, w) { ReturnKeepsInv(s, w); } else { InstallKeepsInv(s, w); }
    case ReadEnds(w) => if Cancelled(s, w) { ReturnKeepsInv(s, w); } else { ReadEndsKeepsInv(s, w); }
    case ResizeTo(_, max) => ResizeKeepsInv(s, max);
    case DrainClose(c) => DrainKeepsInv(s, c);
    case SetStreams(slot, count) => StreamsKeepInv(s, slot, count);
    case LoopFails(t) => LoopFailsKeepsInv(s, t);
    case ParentEnds => ParentEndsKeepsInv(s);
    case SessionEnds(viaError) => EndKeepsInv(s, if viaError then Failed(s.errCh.value) else ContextDone);
  }

  /** Every state of every run satisfies the invariant. */
  lemma {:induction false} RunInv(granted: int, schedule: seq<Action>)
    requires granted >= 1
    ensures Inv(Run(granted, schedule))
  {
    if schedule == [] {
      StartInv(granted);
    } else {
      var s := Run(granted, schedule[..|schedule| - 1]);
      RunInv(granted, schedule[..|schedule| - 1]);
      if Enabled(s, schedule[|schedule| - 1]) { StepKeepsInv(s, schedule[|schedule| - 1]); }
    }
  }
}
