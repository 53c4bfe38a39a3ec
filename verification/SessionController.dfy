/** sessionPoolController and the grouped steps of maintainPoolSlot, run on the pool object:
    each method performs the pool calls in the source's order and reaches exactly the state
    that the corresponding step of the session machine names. */
module SessionController {
  import opened Prelude
  import S = Session
  import Spec = PoolSpec
  import ConnectionPool

  class Controller {
    const pool: ConnectionPool.Pool
    var workers: seq<S.Worker>
    var loops: seq<nat>
    var loopsFailed: set<nat>
    var pingCalled: multiset<nat>
    var slotCalled: multiset<nat>
    var dialled: nat
    var draining: multiset<nat>
    var closed: multiset<nat>
    var errCh: Option<S.Fault>
    var reports: seq<S.Fault>
    var parentDone: bool
    var ending: Option<S.Ending>

    ghost function Abstract(): S.State
      reads this, pool, pool.conns
    {
      S.State(pool.Model(), workers, loops, loopsFailed, pingCalled, slotCalled, dialled, draining, closed, errCh,
              reports, parentDone, ending)
    }

    /** The controller around a fresh pool, before the start loop. */
    constructor (capped: int)
      ensures pool.Valid() && fresh(pool)
      ensures Abstract() ==
              S.State(Spec.New(capped), [], [], {}, multiset{}, multiset{}, 1, multiset{}, multiset{}, None, [], false,
                      None)
    {
      pool := new ConnectionPool.Pool(capped);
      workers, loops, loopsFailed, reports := [], [], {}, [];
      pingCalled, slotCalled, draining, closed := multiset{}, multiset{}, multiset{}, multiset{};
      dialled, errCh, parentDone, ending := 1, None, false, None;
    }

    method SetPhase(w: nat, phase: S.Phase)
      requires w < |workers|
      modifies this`workers
      ensures Abstract() == S.SetPhase(old(Abstract()), w, phase)
    {
      workers := workers[w := workers[w].(phase := phase)];
    }

    method CallCancels(pingCalls: seq<nat>, slotCalls: seq<nat>)
      modifies this`pingCalled, this`slotCalled
      ensures Abstract() == old(Abstract()).(pingCalled := old(pingCalled) + multiset(pingCalls),
                                             slotCalled := old(slotCalled) + multiset(slotCalls))
    {
      pingCalled := pingCalled + multiset(pingCalls);
      slotCalled := slotCalled + multiset(slotCalls);
    }

    method CloseAll(conns: seq<nat>)
      modifies this`closed
      ensures Abstract() == old(Abstract()).(closed := old(closed) + multiset(conns))
    {
      closed := closed + multiset(conns);
    }

    method Terminate(outcome: S.Ending)
      modifies this`errCh, this`ending
      ensures Abstract() == old(Abstract()).(errCh := if outcome.Failed? then None else old(errCh),
                                             ending := Some(outcome))
    {
      if outcome.Failed? { errCh := None; }
      ending := Some(outcome);
    }

    method SendErr(fault: S.Fault)
      modifies this`reports, this`errCh
      ensures Abstract() == S.Report(old(Abstract()), fault)
    {
      reports := reports + [fault];
      if errCh.None? { errCh := Some(fault); }
    }

    method StartPoolPingLoop(conn: nat)
      requires pool.Valid()
      modifies this`loops, this`pingCalled, pool`pingCancel
      ensures pool.Valid() && Abstract() == S.StartControlLoop(old(Abstract()), conn)
    {
      var called := pool.ReplacePingLoop(|loops|);
      loops := loops + [conn];
      pingCalled := pingCalled + multiset(called);
    }

    method StartConnPingLoop(index: int, conn: nat)
      requires pool.Valid()
      modifies this`loops, pool.conns
      ensures pool.Valid() && Abstract() == S.StartDataLoop(old(Abstract()), index, conn)
    {
      pool.SetConnPingCancel(index, |loops|);
      loops := loops + [conn];
    }

    method StartSlot(index: nat, phase: S.Phase)
      requires pool.Valid()
      modifies this`workers, pool`slotCancels
      ensures pool.Valid() && Abstract() == S.StartSlot(old(Abstract()), index, phase)
    {
      pool.SetSlotCancel(index, |workers|);
      workers := workers + [S.Worker(index, phase)];
    }

    /** The loops of lines 246-252 and 100-102. */
    method StartSlots(from: nat, to: int)
      requires pool.Valid()
      modifies this`workers, pool`slotCancels
      ensures pool.Valid() && Abstract() == S.StartSlots(old(Abstract()), from, to)
    {
      var index := from;
      while index < to
        invariant pool.Valid() && from <= index
        invariant S.StartSlots(Abstract(), index, to) == S.StartSlots(old(Abstract()), from, to)
      {
        StartSlot(index, S.Idle);
        index := index + 1;
      }
    }

    /** pkg/client/pool.go:276-283 and pkg/client/client.go:92-98: the calls and closures a resize causes. */
    method Adopt(ghost before: S.State, ghost r: Spec.ResizeResult, promoted: ConnectionPool.PoolConn?,
                 pingCalls: seq<nat>, slotCalls: seq<nat>, drained: seq<nat>)
      requires pool.Valid() && Abstract() == before.(pool := r.pool)
      requires pingCalls == r.pingCalls && slotCalls == r.slotCalls && drained == r.drained
      requires promoted == null <==> r.promoted.None?
      requires promoted != null ==>
                 Spec.Occupied(r.pool, r.promoted.value) && r.pool.conns[r.promoted.value].value.id == promoted.conn
      modifies this`pingCalled, this`slotCalled, this`draining, this`loops, pool`pingCancel
      ensures pool.Valid() && Abstract() == S.Adopted(before, r)
    {
      CallCancels(pingCalls, slotCalls);
      draining := draining + multiset(drained);
      if promoted != null { StartPoolPingLoop(promoted.conn); }
    }

    /** Pool and the promoted connection's ping loop. */
    method ResizePool(newMax: int) returns (oldMax: int, updatedMax: int)
      requires pool.Valid()
      modifies this, pool, pool.conns
      ensures pool.Valid() && Abstract() == S.AfterResize(old(Abstract()), newMax)
      ensures var r := Spec.Resize(old(pool.Model()), newMax); oldMax == r.oldMax && updatedMax == r.updatedMax
    {
      ghost var before := Abstract();
      ghost var r := Spec.Resize(before.pool, newMax);
      var promoted, pingCalls, slotCalls, drained;
      oldMax, updatedMax, promoted, pingCalls, slotCalls, drained := pool.Resize(newMax);
      var ids := seq(|drained|, i requires 0 <= i < |drained| => drained[i].conn);
      assert ids == ConnectionPool.RefIds(drained);
      Adopt(before, r, promoted, pingCalls, slotCalls, ids);
    }

    method Resize(newMax: int)
      requires pool.Valid()
      modifies this, pool, pool.conns
      ensures pool.Valid() && Abstract() == S.DoResize(old(Abstract()), newMax)
    {
      var oldMax, updatedMax := ResizePool(newMax);
      StartSlots(oldMax, updatedMax);
    }

    method Cancelled(w: nat) returns (cancelled: bool)
      ensures cancelled == S.Cancelled(Abstract(), w)
    {
      cancelled := parentDone || ending.Some? || w in slotCalled;
    }

    /** pkg/client/client.go:830-853: the ack of a join, or none. */
    method Acknowledged(w: nat, conn: nat, ack: Option<S.Ack>)
      requires pool.Valid() && w < |workers| && workers[w].phase == S.Handshaking(conn)
      modifies this`workers, this`closed
      ensures Abstract() == S.Step(old(Abstract()), S.Handshake(w, ack))
    {
      var joined := ack.Some?;
      if ack.Some? && !ack.value.sameSession { joined := false; }
      if ack.Some? && ack.value.maxConnections != pool.maxConns { joined := false; }
      if ack.Some? && !ack.value.sameSubdomain { joined := false; }
      if !joined {
        closed := closed + multiset{conn};
        SetPhase(w, S.JoinFailed);
        return;
      }
      SetPhase(w, S.Holding(conn));
    }

    /** pkg/client/client.go:692-699: a join attempt has failed. */
    method JoinFailed(w: nat)
      requires w < |workers|
      modifies this`workers, this`reports, this`errCh
      ensures Abstract() == S.DoJoinError(old(Abstract()), w)
    {
      var cancelled := Cancelled(w);
      var active := pool.ActiveCount();
      if cancelled {
        SetPhase(w, S.Finished);
      } else if active == 0 {
        SetPhase(w, S.Finished);
        SendErr(S.JoinLost);
      } else {
        SetPhase(w, S.Idle);
      }
    }

    /** pkg/client/client.go:716-732. */
    method Install(w: nat, conn: nat)
      requires pool.Valid() && w < |workers|
      modifies this, pool, pool.conns
      ensures pool.Valid() && Abstract() == S.DoInstall(old(Abstract()), w, conn)
    {
      var cancelled := Cancelled(w);
      if cancelled {
        closed := closed + multiset{conn};
        SetPhase(w, S.Finished);
        return;
      }
      var index := workers[w].index;
      var connRef, isControl := pool.Add(index, conn);
      if connRef == null {
        closed := closed + multiset{conn};
        SetPhase(w, S.Finished);
        return;
      }
      SetPhase(w, S.Reading(conn));
      if isControl { StartPoolPingLoop(conn); } else { StartConnPingLoop(index, conn); }
    }

    /** pkg/client/client.go:748-757: close the connection, ping loop for the promoted one. */
    method Release(ghost before: S.State, ghost r: Spec.RemoveResult, promoted: ConnectionPool.PoolConn?,
                   called: seq<nat>, controlLost: bool, conn: nat)
      requires pool.Valid() && Abstract() == before.(pool := r.pool)
      requires called == r.called && controlLost == r.controlLost
      requires promoted == null <==> r.promoted.None?
      requires promoted != null ==>
                 Spec.Occupied(r.pool, r.promoted.value) && r.pool.conns[r.promoted.value].value.id == promoted.conn
      modifies this`pingCalled, this`closed, this`loops, pool`pingCancel
      ensures pool.Valid() && Abstract() == S.Reaped(before, r, conn)
    {
      pingCalled := pingCalled + multiset(called);
      closed := closed + multiset{conn};
      if controlLost && promoted != null { StartPoolPingLoop(promoted.conn); }
    }

    /** pkg/client/client.go:746-757: remove, close, ping loop for the promoted connection. */
    method Reap(index: int, conn: nat) returns (remaining: nat, promoted: bool, controlLost: bool)
      requires pool.Valid()
      modifies this`pingCalled, this`closed, this`loops, pool, pool.conns
      ensures pool.Valid() && Abstract() == S.AfterRemove(old(Abstract()), index, conn)
      ensures var r := Spec.Remove(old(pool.Model()), index);
              remaining == r.remaining && promoted == r.promoted.Some? && controlLost == r.controlLost
    {
      ghost var before := Abstract();
      ghost var r := Spec.Remove(before.pool, index);
      var heir, called;
      remaining, heir, controlLost, called := pool.Remove(index);
      promoted := heir != null;
      Release(before, r, heir, called, controlLost, conn);
    }

    /** pkg/client/client.go:738-766. */
    method ReadEnded(w: nat, conn: nat)
      requires pool.Valid() && w < |workers|
      modifies this, pool, pool.conns
      ensures pool.Valid() && Abstract() == S.DoReadEnds(old(Abstract()), w, conn)
    {
      var cancelled := Cancelled(w);
      if cancelled {
        SetPhase(w, S.Finished);
        return;
      }
      var remaining, promoted, controlLost := Reap(workers[w].index, conn);
      if controlLost && !promoted && remaining > 0 {
        SetPhase(w, S.Finished);
        SendErr(S.ControlLost);
      } else if remaining == 0 {
        SetPhase(w, S.Finished);
        SendErr(S.AllLost);
      } else {
        SetPhase(w, S.Idle);
      }
    }

    method LogEnd(ghost before: S.State, ghost r: Spec.CloseResult,
                  pingCalls: seq<nat>, slotCalls: seq<nat>, closes: seq<nat>, outcome: S.Ending)
      requires Abstract() == before.(pool := r.pool)
      requires pingCalls == r.pingCalls && slotCalls == r.slotCalls && closes == r.closed
      modifies this`pingCalled, this`slotCalled, this`closed, this`errCh, this`ending
      ensures Abstract() == S.Ended(before, r, outcome)
    {
      CallCancels(pingCalls, slotCalls);
      CloseAll(closes);
      Terminate(outcome);
    }

    /** pkg/client/client.go:254-259 and the deferred pool.close and cancel. */
    method End(outcome: S.Ending)
      requires pool.Valid()
      modifies this, pool`pingCancel, pool.conns
      ensures pool.Valid() && Abstract() == S.DoEnd(old(Abstract()), outcome)
    {
      ghost var before := Abstract();
      ghost var r := Spec.Close(before.pool);
      var pingCalls, slotCalls, closes := pool.Close();
      LogEnd(before, r, pingCalls, slotCalls, closes, outcome);
    }
  }
}
