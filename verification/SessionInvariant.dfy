/** The inductive invariant of a session and the pool-level steps that keep it. */
module SessionInvariant {
  import opened Prelude
  import opened PoolSpec
  import opened PoolLaws
  import opened Session

  // ---------------------------------------------------------------- the invariant

  predicate Watches(loops: seq<nat>, t: nat, conn: nat) {
    t < |loops| && loops[t] == conn
  }

  /** A stored ping cancel belongs to a loop on the connection it is stored for. */
  ghost predicate Watched(p: Pool, loops: seq<nat>) {
    && (p.pingCancel.Some? && Occupied(p, p.controlIndex) ==>
          Watches(loops, p.pingCancel.value, p.conns[p.controlIndex].value.id))
    && (forall i :: Occupied(p, i) && p.conns[i].value.pingCancel.Some? ==>
          Watches(loops, p.conns[i].value.pingCancel.value, p.conns[i].value.id))
  }

  function Minted(n: nat, x: nat): nat {
    if x < n then 1 else 0
  }

  /** Every ping cancel minted is stored once or has been called once. */
  ghost predicate PingsConserved(s: State) {
    forall t: nat :: Stored(s.pool, t) + s.pingCalled[t] == Minted(|s.loops|, t)
  }

  function HandOf(w: Worker): Option<nat> {
    match w.phase
    case Handshaking(c) => Some(c)
    case Holding(c) => Some(c)
    case _ => None
  }

  function Hands(workers: seq<Worker>): (r: seq<Option<nat>>)
    ensures |r| == |workers|
  {
    seq(|workers|, i requires 0 <= i < |workers| => HandOf(workers[i]))
  }

  /** In how many hands the connection is: a worker's, the pool's, a drain list's, or nobody's any more. */
  function Owners(s: State, c: nat): nat {
    Count(Hands(s.workers), c) + (if s.ending.None? then Held(s.pool, c) else 0) + s.draining[c] + s.closed[c]
  }

  ghost predicate ConnsConserved(s: State) {
    forall c: nat :: Owners(s, c) == Minted(s.dialled, c)
  }

  /** The worker's slot cancel is where the pool can call it. */
  predicate Posted(s: State, w: nat)
    requires w < |s.workers|
  {
    var i := s.workers[w].index;
    i < |s.pool.slotCancels| && s.pool.slotCancels[i] == Some(w)
  }

  /** A slot cancel is called exactly when the pool no longer stores it.  Workers that the
      uncapped start loop creates beyond slot 31 have no stored cancel and never read. */
  ghost predicate WorkerOK(s: State, w: nat)
    requires w < |s.workers|
  {
    && s.slotCalled[w] <= 1
    && (s.workers[w].index >= MAX_POOL_CONNECTIONS ==> s.slotCalled[w] == 0 && !s.workers[w].phase.Reading?)
    && (s.workers[w].index < MAX_POOL_CONNECTIONS ==> (s.slotCalled[w] == 0 <==> Posted(s, w)))
  }

  /** A started slot has its worker; the worker reads exactly the connection in the slot,
      and has returned only after a report. */
  ghost predicate SlotOK(s: State, i: nat)
    requires i < |s.pool.slotCancels| == |s.pool.conns|
  {
    var conn := Ids(s.pool.conns)[i];
    s.pool.slotCancels[i].Some? && var w := s.pool.slotCancels[i].value;
    && w < |s.workers| && s.workers[w].index == i
    && (s.workers[w].phase.Reading? ==> conn == Some(s.workers[w].phase.conn))
    && (!s.parentDone && conn.Some? ==> s.workers[w].phase == Reading(conn.value))
    && (!s.parentDone && s.reports == [] ==> !s.workers[w].phase.Finished?)
  }

  /** Slots below n are started, the others blank. */
  ghost predicate SlotsOK(s: State, n: int) {
    && WellSized(s.pool) && 0 <= n
    && (forall i :: 0 <= i < n && i < s.pool.maxConns ==> SlotOK(s, i))
    && (forall i :: n <= i < s.pool.maxConns ==> s.pool.slotCancels[i].None? && s.pool.conns[i].None?)
    && (forall w :: 0 <= w < |s.workers| ==> WorkerOK(s, w))
    && (forall w :: w in s.slotCalled ==> w < |s.workers|)
  }

  ghost predicate ReportsOK(s: State) {
    match s.ending
    case None =>
      && (s.reports == [] <==> s.errCh.None?)
      && (s.errCh.Some? ==> s.errCh.value == s.reports[0])
      && (s.pool.controlIndex < 0 ==> s.reports != [])
    case Some(Failed(f)) => s.reports != [] && f == s.reports[0]
    case Some(ContextDone) => s.parentDone
  }

  ghost predicate LiveInv(s: State, n: int) {
    && s.ending.None?
    && PoolInv(s.pool) && Watched(s.pool, s.loops)
    && PingsConserved(s) && ConnsConserved(s)
    && SlotsOK(s, n) && ReportsOK(s)
  }

  /** After the session's end nothing is stored or owned by the pool, and every slot cancel has been called. */
  ghost predicate OverInv(s: State) {
    && s.ending.Some?
    && WellSized(s.pool)
    && (forall t: nat :: Stored(s.pool, t) == 0) && PingsConserved(s) && ConnsConserved(s) && ReportsOK(s)
    && (forall w :: 0 <= w < |s.workers| ==>
          s.slotCalled[w] == if s.workers[w].index < MAX_POOL_CONNECTIONS then 1 else 0)
  }

  ghost predicate Inv(s: State) {
    WellSized(s.pool) && if s.ending.None? then LiveInv(s, s.pool.maxConns) else OverInv(s)
  }

  // ---------------------------------------------------------------- pool steps keep the pool's part

  /** add + start of the ping loop, into a vacant slot. */
  function Installed(p: Pool, i: int, conn: nat, t: nat): Pool {
    var a := Add(p, i, conn);
    if a.isControl then ReplacePingLoop(a.pool, t).pool else SetConnPingCancel(a.pool, i, t)
  }

  lemma InstallKeepsPool(p: Pool, loops: seq<nat>, i: nat, conn: nat)
    requires PoolInv(p) && Watched(p, loops) && i < p.maxConns && !Occupied(p, i)
    ensures var q := Installed(p, i, conn, |loops|);
            && PoolInv(q) && Watched(q, loops + [conn])
            && q.maxConns == p.maxConns && q.slotCancels == p.slotCancels
            && Ids(q.conns) == Ids(p.conns)[i := Some(conn)]
            && (q.controlIndex < 0 ==> p.controlIndex < 0)
    ensures Add(p, i, conn).isControl ==> p.pingCancel.None?
  {
    InstalledShape(p, i, conn, |loops|);
    PlacedKeepsPool(p, Installed(p, i, conn, |loops|), loops, i, conn);
  }

  /** One more connection, with the ping loop |loops|, in the vacant slot i. */
  ghost predicate Placed(p: Pool, q: Pool, i: nat, conn: nat, t: nat) {
    && WellSized(q) && q.maxConns == p.maxConns && q.slotCancels == p.slotCancels && i < |q.conns| == |p.conns|
    && (forall j :: 0 <= j < |p.conns| && j != i ==> q.conns[j] == p.conns[j])
    && if Active(p.conns) == 0 then
         q.controlIndex == i && q.pingCancel == Some(t) && q.conns[i] == Some(Conn(conn, i, 0, None))
       else
         q.controlIndex == p.controlIndex && q.pingCancel == p.pingCancel
         && q.conns[i] == Some(Conn(conn, i, 0, Some(t)))
  }

  lemma PlacedKeepsPool(p: Pool, q: Pool, loops: seq<nat>, i: nat, conn: nat)
    requires PoolInv(p) && Watched(p, loops) && i < p.maxConns && !Occupied(p, i) && Placed(p, q, i, conn, |loops|)
    ensures PoolInv(q) && Watched(q, loops + [conn]) && Ids(q.conns) == Ids(p.conns)[i := Some(conn)]
    ensures q.controlIndex < 0 ==> p.controlIndex < 0
    ensures Active(p.conns) == 0 ==> p.pingCancel.None?
  {
    assert forall j :: Occupied(q, j) <==> Occupied(p, j) || j == i;
    if Active(p.conns) != 0 {
      var j :| 0 <= j < |p.conns| && p.conns[j].Some?;
      assert Occupied(p, j);
    }
  }

  lemma InstalledShape(p: Pool, i: nat, conn: nat, t: nat)
    requires PoolInv(p) && i < p.maxConns && !Occupied(p, i)
    ensures Placed(p, Installed(p, i, conn, t), i, conn, t)
    ensures Add(p, i, conn).isControl == (Active(p.conns) == 0)
  {
    AddTakesControlIff(p, i, conn);
  }

  function Promotee(p: Pool, promoted: Option<nat>): seq<nat>
    requires promoted.Some? ==> Occupied(p, promoted.value)
  {
    if promoted.Some? then [p.conns[promoted.value].value.id] else []
  }

  function Attended(p: Pool, promoted: Option<nat>, t: nat): Pool {
    if promoted.Some? then ReplacePingLoop(p, t).pool else p
  }

  /** Why a pool that lost connections is sound again: an heir was found, the control
      connection survived, no heir was free, or nothing is left. */
  ghost predicate Settled(p: Pool, q: Pool, promoted: Option<nat>) {
    if promoted.Some? then
      Occupied(q, promoted.value) && q.controlIndex == promoted.value && q.pingCancel.None?
    else
      || (q.controlIndex == p.controlIndex < q.maxConns && q.pingCancel == p.pingCancel
          && (Occupied(p, p.controlIndex) ==> Occupied(q, p.controlIndex)))
      || (q.controlIndex == -1 && q.pingCancel.None? && !Occupied(q, p.controlIndex))
      || (q.controlIndex == 0 && q.pingCancel.None? && forall j :: !Occupied(q, j))
  }

  lemma SettledKeepsPool(p: Pool, q: Pool, promoted: Option<nat>, loops: seq<nat>)
    requires PoolInv(p) && Watched(p, loops)
    requires WellSized(q) && 1 <= q.maxConns <= MAX_POOL_CONNECTIONS
    requires forall j :: Occupied(q, j) ==>
               && Occupied(p, j)
               && q.conns[j] == if promoted == Some(j) then Some(Detached(p.conns[j].value)) else p.conns[j]
    requires Settled(p, q, promoted)
    requires promoted.Some? ==> !Occupied(q, p.controlIndex)
    ensures PoolInv(Attended(q, promoted, |loops|))
    ensures Watched(Attended(q, promoted, |loops|), loops + Promotee(q, promoted))
  {
    var a := Attended(q, promoted, |loops|);
    assert forall j :: Occupied(a, j) <==> Occupied(q, j);
    assert forall j :: Occupied(q, j) ==> q.conns[j].value.id == p.conns[j].value.id;
  }

  lemma RemoveSettles(p: Pool, i: nat)
    requires PoolInv(p) && Occupied(p, i)
    ensures var r := Remove(p, i);
            && Settled(p, r.pool, r.promoted)
            && (r.promoted.Some? ==> r.controlLost && r.pool.pingCancel.None? && !Occupied(r.pool, p.controlIndex))
            && (r.pool.controlIndex < 0 ==>
                  p.controlIndex < 0 || (r.controlLost && r.promoted.None? && r.remaining > 0))
  {
    RemoveShape(p, i);
    RemoveFailsOver(p, i);
    assert forall j :: Occupied(Remove(p, i).pool, j) <==> Occupied(p, j) && j != i;
  }

  lemma RemoveIds(p: Pool, i: int)
    requires Occupied(p, i)
    ensures Ids(Remove(p, i).pool.conns) == Ids(p.conns)[i := None]
  {
    RemoveShape(p, i);
  }

  /** remove + start of the ping loop for the promoted connection. */
  lemma RemoveKeepsPool(p: Pool, loops: seq<nat>, i: nat)
    requires PoolInv(p) && Watched(p, loops) && Occupied(p, i)
    ensures var r := Remove(p, i);
            var q := Attended(r.pool, r.promoted, |loops|);
            && PoolInv(q) && Watched(q, loops + Promotee(r.pool, r.promoted))
            && q.maxConns == p.maxConns && q.slotCancels == p.slotCancels
            && Ids(q.conns) == Ids(p.conns)[i := None]
            && (r.promoted.Some? ==> r.controlLost && r.pool.pingCancel.None?)
            && (q.controlIndex < 0 ==> p.controlIndex < 0 || (r.controlLost && r.promoted.None? && r.remaining > 0))
  {
    var r := Remove(p, i);
    RemoveIds(p, i);
    RemoveShape(p, i);
    RemoveSettles(p, i);
    assert WellSized(r.pool);
    SettledKeepsPool(p, r.pool, r.promoted, loops);
  }

  /** What `Resize` leaves in each slot, growing or shrinking. */
  lemma ResizeShape(p: Pool, max: int)
    requires WellSized(p)
    ensures var r, n := Resize(p, max), Clamp(max);
            && (forall i :: 0 <= i < n && i < p.maxConns ==>
                  && r.pool.slotCancels[i] == p.slotCancels[i]
                  && r.pool.conns[i] == if r.promoted == Some(i) then Some(Detached(p.conns[i].value)) else p.conns[i])
            && (forall i :: p.maxConns <= i < n ==> r.pool.slotCancels[i].None? && r.pool.conns[i].None?)
            && (forall j :: Occupied(r.pool, j) <==> Occupied(p, j) && j < n)
  {
    if Clamp(max) < p.maxConns { ShrinkPartitions(p, max); }
  }

  lemma ResizeSettles(p: Pool, max: int)
    requires PoolInv(p)
    ensures var r := Resize(p, max);
            && Settled(p, r.pool, r.promoted)
            && (r.promoted.Some? ==> !Occupied(r.pool, p.controlIndex))
            && (r.pool.controlIndex < 0 ==> p.controlIndex < 0)
  {
    ResizeShape(p, max);
    if Clamp(max) < p.maxConns { ShrinkPartitions(p, max); }
  }

  /** Resize + start of the ping loop for the promoted connection. */
  lemma ResizeKeepsPool(p: Pool, loops: seq<nat>, max: int)
    requires PoolInv(p) && Watched(p, loops)
    ensures var r := Resize(p, max);
            var q := Attended(r.pool, r.promoted, |loops|);
            && PoolInv(q) && Watched(q, loops + Promotee(r.pool, r.promoted))
            && q.maxConns == Clamp(max) && (r.promoted.Some? ==> r.pool.pingCancel.None?)
            && (q.controlIndex < 0 ==> p.controlIndex < 0)
  {
    var r := Resize(p, max);
    ResizeShape(p, max);
    ResizeSettles(p, max);
    SettledKeepsPool(p, r.pool, r.promoted, loops);
  }
}
