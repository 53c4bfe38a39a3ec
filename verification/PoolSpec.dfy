/** What each operation of the connection pool computes, on values.

    A cancel function is a number (a token); an operation that calls cancel
    functions returns the tokens it calls, in call order.  A websocket
    connection is a number too. */
module PoolSpec {
  import opened Prelude

  const MAX_POOL_CONNECTIONS := 32

  datatype Conn = Conn(id: nat, index: int, streams: int, pingCancel: Option<nat>)

  datatype Pool = Pool(
    conns: seq<Option<Conn>>,
    slotCancels: seq<Option<nat>>,
    maxConns: int,
    controlIndex: int,
    pingCancel: Option<nat>)

  /** The slices agree with the recorded size. */
  predicate WellSized(p: Pool) {
    |p.conns| == |p.slotCancels| == p.maxConns
  }

  predicate Occupied(p: Pool, i: int) {
    0 <= i < |p.conns| && p.conns[i].Some?
  }

  function Active(conns: seq<Option<Conn>>): (n: nat)
    ensures n == 0 <==> forall i :: 0 <= i < |conns| ==> conns[i].None?
  {
    if conns == [] then 0
    else
      assert conns == [conns[0]] + conns[1..];
      (if conns[0].Some? then 1 else 0) + Active(conns[1..])
  }

  predicate Eligible(c: Option<Conn>, idleOnly: bool) {
    c.Some? && (idleOnly ==> c.value.streams == 0)
  }

  /** The least eligible slot at or after `from`, or -1 when there is none. */
  function FirstFrom(conns: seq<Option<Conn>>, from: nat, idleOnly: bool): (r: int)
    requires from <= |conns|
    ensures r == -1 || from <= r < |conns|
    ensures r == -1 <==> forall j :: from <= j < |conns| ==> !Eligible(conns[j], idleOnly)
    ensures r >= 0 ==> Eligible(conns[r], idleOnly) && forall j :: from <= j < r ==> !Eligible(conns[j], idleOnly)
    decreases |conns| - from
  {
    if from == |conns| then -1
    else if Eligible(conns[from], idleOnly) then from
    else FirstFrom(conns, from + 1, idleOnly)
  }

  function Detached(c: Conn): Conn {
    c.(pingCancel := None)
  }

  function New(requested: int): Pool {
    var n := if requested < 1 then 1 else requested;
    Pool(seq(n, _ => None), seq(n, _ => None), n, 0, None)
  }

  /** `conn.None?` in the result stands for the nil reference. */
  datatype AddResult = AddResult(pool: Pool, conn: Option<Conn>, isControl: bool)

  function Add(p: Pool, index: int, id: nat): (r: AddResult)
    ensures WellSized(p) ==> WellSized(r.pool)
  {
    if index < 0 || index >= |p.conns| then AddResult(p, None, false)
    else
      var missing := p.controlIndex < 0 || p.controlIndex >= |p.conns| || p.conns[p.controlIndex].None?;
      var c := Conn(id, index, 0, None);
      var control := if missing && Active(p.conns) == 0 then index else p.controlIndex;
      AddResult(p.(conns := p.conns[index := Some(c)], controlIndex := control), Some(c), index == control)
  }

  function SetConnPingCancel(p: Pool, index: int, token: nat): Pool {
    if index < 0 || index >= |p.conns| || p.conns[index].None? then p
    else p.(conns := p.conns[index := Some(p.conns[index].value.(pingCancel := Some(token)))])
  }

  function SetSlotCancel(p: Pool, index: int, token: nat): Pool {
    if index < 0 || index >= |p.slotCancels| then p
    else p.(slotCancels := p.slotCancels[index := Some(token)])
  }

  datatype ReplaceResult = ReplaceResult(pool: Pool, called: seq<nat>)

  function ReplacePingLoop(p: Pool, token: nat): ReplaceResult {
    ReplaceResult(p.(pingCancel := Some(token)), AsList(p.pingCancel))
  }

  /** `promoted` is the slot whose connection became the control connection. */
  datatype RemoveResult = RemoveResult(
    pool: Pool, remaining: nat, promoted: Option<nat>, controlLost: bool, called: seq<nat>)

  /** The pool with the slot emptied and the ping loops that watched it forgotten. */
  function Vacated(p: Pool, index: nat): Pool
    requires index < |p.conns| && p.conns[index].Some?
  {
    p.(conns := p.conns[index := None], pingCancel := if index == p.controlIndex then None else p.pingCancel)
  }

  function VacateCalls(p: Pool, index: nat): seq<nat>
    requires index < |p.conns| && p.conns[index].Some?
  {
    AsList(p.conns[index].value.pingCancel) + if index == p.controlIndex then AsList(p.pingCancel) else []
  }

  /** A slot takes the control role and gives up its own ping loop. */
  function Promoted(p: Pool, next: nat): Pool
    requires next < |p.conns| && p.conns[next].Some?
  {
    p.(conns := p.conns[next := Some(Detached(p.conns[next].value))], controlIndex := next)
  }

  /** The control connection is gone: the least idle slot inherits, if there is one. */
  function FailOver(p: Pool): (r: RemoveResult)
    ensures r.promoted.Some? ==> Occupied(r.pool, r.promoted.value)
  {
    var next := FirstFrom(p.conns, 0, true);
    if next < 0 then RemoveResult(p.(controlIndex := -1), Active(p.conns), None, true, [])
    else RemoveResult(Promoted(p, next), Active(p.conns), Some(next), true, AsList(p.conns[next].value.pingCancel))
  }

  function Remove(p: Pool, index: int): (r: RemoveResult)
    ensures r.promoted.Some? ==> Occupied(r.pool, r.promoted.value)
    ensures WellSized(p) ==> WellSized(r.pool)
  {
    if index < 0 || index >= |p.conns| || p.conns[index].None? then
      RemoveResult(p, Active(p.conns), None, false, [])
    else
      var q := Vacated(p, index);
      var called := VacateCalls(p, index);
      if Active(q.conns) == 0 then RemoveResult(q.(controlIndex := 0), 0, None, index == p.controlIndex, called)
      else if index != p.controlIndex then RemoveResult(q, Active(q.conns), None, false, called)
      else
        var r := FailOver(q);
        r.(called := called + r.called)
  }

  /** Connection and ping-cancel columns of the slot row. */
  function Ids(conns: seq<Option<Conn>>): (r: seq<Option<nat>>)
    ensures |r| == |conns|
  {
    seq(|conns|, i requires 0 <= i < |conns| => if conns[i].Some? then Some(conns[i].value.id) else None)
  }

  function Cancels(conns: seq<Option<Conn>>): (r: seq<Option<nat>>)
    ensures |r| == |conns|
  {
    seq(|conns|, i requires 0 <= i < |conns| => if conns[i].Some? then conns[i].value.pingCancel else None)
  }

  function Clamp(requested: int): int {
    if requested < 1 then 1
    else if requested > MAX_POOL_CONNECTIONS then MAX_POOL_CONNECTIONS
    else requested
  }

  /** `drained` lists the connections handed to the closing goroutine. */
  datatype ResizeResult = ResizeResult(
    pool: Pool, oldMax: int, updatedMax: int, promoted: Option<nat>,
    pingCalls: seq<nat>, slotCalls: seq<nat>, drained: seq<nat>)

  function Resize(p: Pool, requested: int): (r: ResizeResult)
    requires WellSized(p)
    ensures r.promoted.Some? ==> Occupied(r.pool, r.promoted.value)
    ensures WellSized(r.pool) && r.pool.maxConns == r.updatedMax && r.oldMax == p.maxConns
    ensures r.updatedMax == Clamp(requested) == if requested < 1 then 1 else if requested > 32 then 32 else requested
  {
    var newMax := Clamp(requested);
    var oldMax := p.maxConns;
    if newMax == oldMax then ResizeResult(p, oldMax, oldMax, None, [], [], [])
    else if newMax > oldMax then
      ResizeResult(Grown(p, newMax), oldMax, newMax, None, [], [], [])
    else Shrink(p, newMax)
  }

  function Grown(p: Pool, newMax: int): Pool
    requires newMax >= p.maxConns
  {
    var blanks := newMax - p.maxConns;
    p.(conns := p.conns + seq(blanks, _ => None), slotCancels := p.slotCancels + seq(blanks, _ => None),
       maxConns := newMax)
  }

  datatype ReseatResult = ReseatResult(pool: Pool, promoted: Option<nat>, called: seq<nat>)

  /** Moves the control role below `newMax`: the lowest surviving connection inherits it. */
  function Reseat(p: Pool, newMax: nat): (r: ReseatResult)
    requires newMax <= |p.conns|
    ensures r.promoted.Some? ==> r.promoted.value < newMax && Occupied(r.pool, r.promoted.value)
    ensures WellSized(p) ==> WellSized(r.pool) && r.pool.maxConns == p.maxConns
  {
    if p.controlIndex < newMax then ReseatResult(p, None, [])
    else
      var heir := FirstFrom(p.conns[..newMax], 0, false);
      var q := p.(pingCancel := None);
      if heir < 0 then ReseatResult(q.(controlIndex := 0), None, AsList(p.pingCancel))
      else
        ReseatResult(
          Promoted(q, heir), Some(heir), AsList(p.pingCancel) + AsList(p.conns[heir].value.pingCancel))
  }

  function Truncated(p: Pool, newMax: nat): Pool
    requires newMax <= |p.conns| == |p.slotCancels|
  {
    p.(conns := p.conns[..newMax], slotCancels := p.slotCancels[..newMax], maxConns := newMax)
  }

  function Shrink(p: Pool, newMax: nat): (r: ResizeResult)
    requires WellSized(p) && 1 <= newMax < p.maxConns
    ensures r.promoted.Some? ==> Occupied(r.pool, r.promoted.value)
    ensures WellSized(r.pool) && r.pool.maxConns == newMax
  {
    var r := Reseat(p, newMax);
    var tail := r.pool.conns[newMax..];
    ResizeResult(
      Truncated(r.pool, newMax), p.maxConns, newMax, r.promoted,
      r.called + Collect(Cancels(tail)), Collect(p.slotCancels[newMax..]), Collect(Ids(tail)))
  }

  datatype CloseResult = CloseResult(pool: Pool, pingCalls: seq<nat>, slotCalls: seq<nat>, closed: seq<nat>)

  function DetachAll(conns: seq<Option<Conn>>): (r: seq<Option<Conn>>)
    ensures |r| == |conns|
  {
    seq(|conns|, i requires 0 <= i < |conns| => if conns[i].Some? then Some(Detached(conns[i].value)) else None)
  }

  /** Closing leaves the slots in place and forgets only the ping cancels. */
  function Close(p: Pool): CloseResult {
    CloseResult(
      p.(conns := DetachAll(p.conns), pingCancel := None),
      AsList(p.pingCancel) + InOrder(Cancels(p.conns)),
      InOrder(p.slotCancels),
      InOrder(Ids(p.conns)))
  }
}
