/** Laws of single pool operations: what is conserved, who inherits the control role. */
module PoolLaws {
  import opened Prelude
  import opened PoolSpec

  /** In how many places the pool stores the ping cancel `t`. */
  function Stored(p: Pool, t: nat): nat {
    Is(p.pingCancel, t) + Count(Cancels(p.conns), t)
  }

  /** How many slots hold the connection `c`. */
  function Held(p: Pool, c: nat): nat {
    Count(Ids(p.conns), c)
  }

  /** How often a list of calls mentions `t`. */
  function Times(calls: seq<nat>, t: nat): nat {
    multiset(calls)[t]
  }

  lemma TimesConcat(a: seq<nat>, b: seq<nat>, t: nat)
    ensures Times(a + b, t) == Times(a, t) + Times(b, t)
  {
    assert multiset(a + b) == multiset(a) + multiset(b);
  }

  // ---------------------------------------------------------------- columns

  function IdOf(c: Option<Conn>): Option<nat> {
    if c.Some? then Some(c.value.id) else None
  }

  function CancelOf(c: Option<Conn>): Option<nat> {
    if c.Some? then c.value.pingCancel else None
  }

  lemma ColumnUpdate(conns: seq<Option<Conn>>, i: nat, c: Option<Conn>, x: nat)
    requires i < |conns|
    ensures Count(Ids(conns[i := c]), x) + Is(IdOf(conns[i]), x) == Count(Ids(conns), x) + Is(IdOf(c), x)
    ensures Count(Cancels(conns[i := c]), x) + Is(CancelOf(conns[i]), x)
            == Count(Cancels(conns), x) + Is(CancelOf(c), x)
  {
    assert Ids(conns[i := c]) == Ids(conns)[i := IdOf(c)];
    assert Cancels(conns[i := c]) == Cancels(conns)[i := CancelOf(c)];
    CountUpdate(Ids(conns), i, IdOf(c), x);
    CountUpdate(Cancels(conns), i, CancelOf(c), x);
  }

  lemma ColumnSplit(conns: seq<Option<Conn>>, k: nat, x: nat)
    requires k <= |conns|
    ensures Count(Ids(conns), x) == Count(Ids(conns[..k]), x) + Count(Ids(conns[k..]), x)
    ensures Count(Cancels(conns), x) == Count(Cancels(conns[..k]), x) + Count(Cancels(conns[k..]), x)
  {
    CountSplit(Ids(conns), k, x);
    CountSplit(Cancels(conns), k, x);
    assert Ids(conns)[..k] == Ids(conns[..k]) && Ids(conns)[k..] == Ids(conns[k..]);
    assert Cancels(conns)[..k] == Cancels(conns[..k]) && Cancels(conns)[k..] == Cancels(conns[k..]);
  }

  // ---------------------------------------------------------------- conservation

  lemma VacateConserves(p: Pool, i: nat, x: nat)
    requires Occupied(p, i)
    ensures Stored(Vacated(p, i), x) + Times(VacateCalls(p, i), x) == Stored(p, x)
    ensures Held(Vacated(p, i), x) + Is(Some(p.conns[i].value.id), x) == Held(p, x)
  {
    ColumnUpdate(p.conns, i, None, x);
  }

  lemma PromoteConserves(p: Pool, i: nat, x: nat)
    requires Occupied(p, i)
    ensures Stored(Promoted(p, i), x) + Times(AsList(p.conns[i].value.pingCancel), x) == Stored(p, x)
    ensures Held(Promoted(p, i), x) == Held(p, x)
  {
    ColumnUpdate(p.conns, i, Some(Detached(p.conns[i].value)), x);
  }

  lemma FailOverConserves(p: Pool, x: nat)
    ensures Stored(FailOver(p).pool, x) + Times(FailOver(p).called, x) == Stored(p, x)
    ensures Held(FailOver(p).pool, x) == Held(p, x)
  {
    var next := FirstFrom(p.conns, 0, true);
    if next >= 0 { PromoteConserves(p, next, x); }
  }

  /** `remove` calls exactly the ping cancels it stops storing, and lets go of exactly one connection. */
  lemma RemoveConserves(p: Pool, i: int, x: nat)
    ensures Stored(Remove(p, i).pool, x) + Times(Remove(p, i).called, x) == Stored(p, x)
    ensures Held(Remove(p, i).pool, x) + (if Occupied(p, i) then Is(Some(p.conns[i].value.id), x) else 0) == Held(p, x)
  {
    if Occupied(p, i) {
      VacateConserves(p, i, x);
      if i == p.controlIndex && Active(Vacated(p, i).conns) != 0 {
        FailOverConserves(Vacated(p, i), x);
        TimesConcat(VacateCalls(p, i), FailOver(Vacated(p, i)).called, x);
      }
    }
  }

  lemma ReseatConserves(p: Pool, newMax: nat, x: nat)
    requires newMax <= |p.conns|
    ensures Stored(Reseat(p, newMax).pool, x) + Times(Reseat(p, newMax).called, x) == Stored(p, x)
    ensures Held(Reseat(p, newMax).pool, x) == Held(p, x)
  {
    var heir := FirstFrom(p.conns[..newMax], 0, false);
    if p.controlIndex >= newMax && heir >= 0 { PromoteConserves(p.(pingCancel := None), heir, x); }
  }

  /** `Resize` conserves all three resources: what leaves the pool is called or drained, each once. */
  lemma ResizeConserves(p: Pool, requested: int, x: nat)
    requires WellSized(p)
    ensures var r := Resize(p, requested);
            && Stored(r.pool, x) + Times(r.pingCalls, x) == Stored(p, x)
            && Held(r.pool, x) + Times(r.drained, x) == Held(p, x)
            && Count(r.pool.slotCancels, x) + Times(r.slotCalls, x) == Count(p.slotCancels, x)
  {
    var n := Clamp(requested);
    if n > p.maxConns {
      GrowConserves(p, n, x);
    } else if n < p.maxConns {
      var q := Reseat(p, n).pool;
      ReseatConserves(p, n, x);
      ColumnSplit(q.conns, n, x);
      CountSplit(p.slotCancels, n, x);
      CollectCount(Ids(q.conns[n..]), x);
      CollectCount(Cancels(q.conns[n..]), x);
      CollectCount(p.slotCancels[n..], x);
    }
  }

  lemma GrowConserves(p: Pool, newMax: int, x: nat)
    requires WellSized(p) && newMax > p.maxConns
    ensures var q := Grown(p, newMax);
            && Stored(q, x) == Stored(p, x) && Held(q, x) == Held(p, x)
            && Count(q.slotCancels, x) == Count(p.slotCancels, x)
  {
    var q := Grown(p, newMax);
    var k := p.maxConns;
    ColumnSplit(q.conns, k, x);
    CountSplit(q.slotCancels, k, x);
    assert q.conns[..k] == p.conns && q.slotCancels[..k] == p.slotCancels;
    CountZero(Ids(q.conns[k..]), x);
    CountZero(Cancels(q.conns[k..]), x);
    CountZero(q.slotCancels[k..], x);
  }

  /** `replacePingLoop` swaps one stored cancel for another and calls the old one. */
  lemma ReplaceConserves(p: Pool, token: nat, x: nat)
    ensures var r := ReplacePingLoop(p, token);
            && Stored(r.pool, x) + Times(r.called, x) == Stored(p, x) + Is(Some(token), x)
            && Held(r.pool, x) == Held(p, x)
  {
    assert Times(AsList(p.pingCancel), x) == Is(p.pingCancel, x);
  }

  /** `add` overwrites its slot: it loses a ping cancel exactly when the slot still held one, and a
      connection exactly when the slot is occupied. */
  lemma AddConservesIff(p: Pool, i: int, id: nat)
    ensures (forall x: nat :: Stored(Add(p, i, id).pool, x) == Stored(p, x))
       <==> !(Occupied(p, i) && p.conns[i].value.pingCancel.Some?)
    ensures (forall x: nat :: Held(Add(p, i, id).pool, x)
                              == Held(p, x) + if 0 <= i < |p.conns| then Is(Some(id), x) else 0)
       <==> !Occupied(p, i)
  {
    if Occupied(p, i) {
      AddCounts(p, i, id, p.conns[i].value.id);
    } else if 0 <= i < |p.conns| {
      forall x: nat { AddCounts(p, i, id, x); }
    }
    if Occupied(p, i) && p.conns[i].value.pingCancel.Some? {
      AddCounts(p, i, id, p.conns[i].value.pingCancel.value);
    } else {
      forall x: nat ensures Stored(Add(p, i, id).pool, x) == Stored(p, x) {
        if 0 <= i < |p.conns| { AddCounts(p, i, id, x); }
      }
    }
  }

  lemma AddCounts(p: Pool, i: nat, id: nat, x: nat)
    requires i < |p.conns|
    ensures Stored(Add(p, i, id).pool, x) + Is(CancelOf(p.conns[i]), x) == Stored(p, x)
    ensures Held(Add(p, i, id).pool, x) + Is(IdOf(p.conns[i]), x) == Held(p, x) + Is(Some(id), x)
  {
    ColumnUpdate(p.conns, i, Some(Conn(id, i, 0, None)), x);
  }

  /** `setConnPingCancel` keeps every token exactly when the slot is occupied and had none. */
  lemma SetConnPingCancelConservesIff(p: Pool, i: int, token: nat)
    ensures (forall x: nat :: Stored(SetConnPingCancel(p, i, token), x) == Stored(p, x) + Is(Some(token), x))
       <==> Occupied(p, i) && p.conns[i].value.pingCancel.None?
  {
    if Occupied(p, i) {
      if p.conns[i].value.pingCancel.Some? {
        var t := p.conns[i].value.pingCancel.value;
        SetCounts(p, i, token, t);
      } else {
        forall x: nat ensures Stored(SetConnPingCancel(p, i, token), x) == Stored(p, x) + Is(Some(token), x) {
          SetCounts(p, i, token, x);
        }
      }
    } else {
      assert Is(Some(token), token) == 1;
    }
  }

  lemma SetCounts(p: Pool, i: nat, token: nat, x: nat)
    requires Occupied(p, i)
    ensures var q := SetConnPingCancel(p, i, token);
            && Stored(q, x) + Is(p.conns[i].value.pingCancel, x) == Stored(p, x) + Is(Some(token), x)
            && Held(q, x) == Held(p, x)
  {
    ColumnUpdate(p.conns, i, Some(p.conns[i].value.(pingCancel := Some(token))), x);
  }

  /** `close` calls every stored cancel once, closes every held connection once, keeps no ping cancel. */
  lemma CloseReleasesAll(p: Pool, x: nat)
    ensures var r := Close(p);
            && Times(r.pingCalls, x) == Stored(p, x) && Stored(r.pool, x) == 0
            && Times(r.slotCalls, x) == Count(p.slotCancels, x)
            && Times(r.closed, x) == Held(p, x)
  {
    PingCallsAreStored(p.pingCancel, Cancels(p.conns), x);
    InOrderTimes(p.slotCancels, x);
    InOrderTimes(Ids(p.conns), x);
    ClosedStoresNothing(p, x);
  }

  lemma ClosedStoresNothing(p: Pool, x: nat)
    ensures Stored(Close(p).pool, x) == 0
  {
    CountZero(Cancels(DetachAll(p.conns)), x);
  }

  /** `close` leaves every slot, size and role as it was, but for the ping cancels. */
  lemma CloseShape(p: Pool)
    ensures var q := Close(p).pool;
            && Ids(q.conns) == Ids(p.conns) && q.slotCancels == p.slotCancels
            && q.maxConns == p.maxConns && q.controlIndex == p.controlIndex && q.pingCancel.None?
            && (forall i :: 0 <= i < |q.conns| && q.conns[i].Some? ==> q.conns[i].value.pingCancel.None?)
  {
  }

  lemma InOrderTimes(s: seq<Option<nat>>, x: nat)
    ensures Times(InOrder(s), x) == Count(s, x)
  {
    InOrderCount(s, x);
  }

  lemma PingCallsAreStored(first: Option<nat>, others: seq<Option<nat>>, x: nat)
    ensures Times(AsList(first) + InOrder(others), x) == Is(first, x) + Count(others, x)
  {
    TimesConcat(AsList(first), InOrder(others), x);
    InOrderTimes(others, x);
  }

  // ---------------------------------------------------------------- who is in control

  /** What holds between grouped worker steps (see Session). */
  ghost predicate PoolInv(p: Pool) {
    && WellSized(p) && 1 <= p.maxConns <= MAX_POOL_CONNECTIONS
    && (forall i :: Occupied(p, i) ==> p.conns[i].value.index == i)
    && -1 <= p.controlIndex < p.maxConns
    && ((exists i :: Occupied(p, i)) && p.controlIndex >= 0 ==> Occupied(p, p.controlIndex))
    && (p.pingCancel.Some? <==> Occupied(p, p.controlIndex))
    && (forall i :: Occupied(p, i) ==> (p.conns[i].value.pingCancel.Some? <==> i != p.controlIndex))
  }

  /** A new connection takes control exactly when the pool was empty. */
  lemma AddTakesControlIff(p: Pool, i: int, id: nat)
    requires PoolInv(p) && 0 <= i < p.maxConns && !Occupied(p, i)
    ensures Add(p, i, id).isControl <==> Active(p.conns) == 0
  {
    if Active(p.conns) != 0 {
      var j :| 0 <= j < |p.conns| && p.conns[j].Some?;
      assert Occupied(p, j);
    }
  }

  lemma {:induction false} ActiveDrops(conns: seq<Option<Conn>>, i: nat)
    requires i < |conns| && conns[i].Some?
    ensures Active(conns[i := None]) == Active(conns) - 1
  {
    if i == 0 {
      assert conns[i := None][1..] == conns[1..];
    } else {
      ActiveDrops(conns[1..], i - 1);
      assert conns[i := None][1..] == conns[1..][i - 1 := None];
    }
  }

  /** Failover: who inherits, and when nobody does. */
  lemma RemoveFailsOver(p: Pool, i: int)
    requires Occupied(p, i)
    ensures var r := Remove(p, i);
            && r.controlLost == (i == p.controlIndex)
            && r.remaining == Active(p.conns) - 1
            && (r.remaining == 0 <==> forall j :: Occupied(p, j) ==> j == i)
            && (r.remaining == 0 ==> r.promoted.None? && r.pool.controlIndex == 0)
            && (r.promoted.Some? ==>
                  var h := r.promoted.value;
                  && r.controlLost && h != i && Occupied(p, h) && p.conns[h].value.streams == 0
                  && r.pool.controlIndex == h
                  && forall j :: Occupied(p, j) && j != i && p.conns[j].value.streams == 0 ==> h <= j)
            && (r.controlLost && r.remaining > 0 ==>
                  (r.promoted.None? <==> forall j :: Occupied(p, j) && j != i ==> p.conns[j].value.streams != 0))
            && (r.controlLost && r.remaining > 0 && r.promoted.None? ==> r.pool.controlIndex == -1)
            && (!r.controlLost && r.remaining > 0 ==> r.pool.controlIndex == p.controlIndex)
  {
    var q := Vacated(p, i);
    ActiveDrops(p.conns, i);
    assert forall j :: Occupied(q, j) <==> Occupied(p, j) && j != i;
    assert forall j :: Occupied(q, j) ==> q.conns[j] == p.conns[j];
    assert forall j {:trigger q.conns[j]} :: 0 <= j < |q.conns| ==> (q.conns[j].Some? <==> Occupied(q, j));
    assert forall j :: 0 <= j < |q.conns| ==>
                         (Eligible(q.conns[j], true) <==> Occupied(q, j) && p.conns[j].value.streams == 0);
  }

  /** The slots `remove` leaves behind. */
  lemma RemoveShape(p: Pool, i: int)
    requires Occupied(p, i)
    ensures var r := Remove(p, i);
            && |r.pool.conns| == |p.conns| && r.pool.slotCancels == p.slotCancels && r.pool.maxConns == p.maxConns
            && r.pool.pingCancel == (if i == p.controlIndex then None else p.pingCancel)
            && forall j :: 0 <= j < |p.conns| ==>
                 r.pool.conns[j] ==
                 if j == i then None
                 else if r.promoted == Some(j) then Some(Detached(p.conns[j].value)) else p.conns[j]
  {
    RemoveFailsOver(p, i);
  }

  /** A shrink is an exact partition of slots, connections and cancels. */
  lemma ShrinkPartitions(p: Pool, requested: int)
    requires WellSized(p) && Clamp(requested) < p.maxConns
    ensures var n, r := Clamp(requested), Resize(p, requested);
            && (forall x :: Times(r.drained, x) == Count(Ids(p.conns[n..]), x))
            && (forall x :: Times(r.slotCalls, x) == Count(p.slotCancels[n..], x))
            && r.pool.slotCancels == p.slotCancels[..n]
            && (forall i :: 0 <= i < n ==>
                  r.pool.conns[i] == if r.promoted == Some(i) then Some(Detached(p.conns[i].value)) else p.conns[i])
            && (p.controlIndex < n ==>
                  r.promoted.None? && r.pool.controlIndex == p.controlIndex && r.pool.pingCancel == p.pingCancel)
            && (p.controlIndex >= n ==>
                  r.pool.pingCancel.None? &&
                  match r.promoted
                  case Some(h) => r.pool.controlIndex == h && Occupied(p, h) && forall j :: Occupied(p, j) ==> h <= j
                  case None => r.pool.controlIndex == 0 && forall j :: Occupied(p, j) ==> n <= j)
  {
    var n := Clamp(requested);
    var kept := p.conns[..n];
    var q := Reseat(p, n).pool;
    assert q.conns[n..] == p.conns[n..];
    forall x ensures Times(Resize(p, requested).drained, x) == Count(Ids(p.conns[n..]), x) {
      CollectCount(Ids(p.conns[n..]), x);
    }
    forall x ensures Times(Resize(p, requested).slotCalls, x) == Count(p.slotCancels[n..], x) {
      CollectCount(p.slotCancels[n..], x);
    }
    assert forall j {:trigger kept[j]} :: 0 <= j < n ==> (Eligible(kept[j], false) <==> Occupied(p, j));
    assert forall j {:trigger Occupied(p, j)} :: 0 <= j < n ==> kept[j] == p.conns[j];
  }
}
