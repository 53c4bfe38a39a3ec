/** The pool object of pkg/client/pool.go, updated in place and proved against PoolSpec. */
module ConnectionPool {
  import opened Prelude
  import Spec = PoolSpec

  class PoolConn {
    const conn: nat
    const index: int
    var streams: int
    var pingCancel: Option<nat>

    constructor (conn: nat, index: int)
      ensures this.conn == conn && this.index == index && streams == 0 && pingCancel == None
    {
      this.conn := conn;
      this.index := index;
      streams := 0;
      pingCancel := None;
    }

    function Model(): Spec.Conn
      reads this
    {
      Spec.Conn(conn, index, streams, pingCancel)
    }
  }

  /** No connection object sits in two slots. */
  ghost predicate Distinct(conns: seq<PoolConn?>) {
    forall i, j :: 0 <= i < j < |conns| && conns[i] != null ==> conns[i] != conns[j]
  }

  /** The values behind a row of references. */
  ghost function ModelOf(conns: seq<PoolConn?>): (r: seq<Option<Spec.Conn>>)
    reads conns
    ensures |r| == |conns|
  {
    seq(|conns|, i requires 0 <= i < |conns| reads conns => if conns[i] == null then None else Some(conns[i].Model()))
  }

  /** References of a row, last cell first. */
  ghost function CollectRefs(conns: seq<PoolConn?>): seq<PoolConn> {
    if conns == [] then [] else CollectRefs(conns[1..]) + RefList(conns[0])
  }

  ghost function RefIds(refs: seq<PoolConn>): seq<nat> {
    seq(|refs|, i requires 0 <= i < |refs| => refs[i].conn)
  }

  lemma {:induction false} ActiveStep(s: seq<Option<Spec.Conn>>, k: nat)
    requires k < |s|
    ensures Spec.Active(s[..k + 1]) == Spec.Active(s[..k]) + if s[k].Some? then 1 else 0
  {
    if k == 0 {
      assert s[..1][1..] == [];
    } else {
      ActiveStep(s[1..], k - 1);
      assert s[..k + 1][1..] == s[1..][..k];
      assert s[..k][1..] == s[1..][..k - 1];
    }
  }

  /** The three lists hold what the slots from i on held, top slot first. */
  ghost predicate Collected(refs: seq<PoolConn?>, m: seq<Option<Spec.Conn>>, slots: seq<Option<nat>>, i: nat,
                            conns: seq<PoolConn>, pings: seq<nat>, cancels: seq<nat>)
    requires i <= |refs| == |m| == |slots|
  {
    conns == CollectRefs(refs[i..]) && pings == Collect(Spec.Cancels(m[i..])) && cancels == Collect(slots[i..])
  }

  function RefList(c: PoolConn?): seq<PoolConn> {
    if c == null then [] else [c]
  }

  /** One turn of the top-down collection. */
  lemma CollectStep(refs: seq<PoolConn?>, m: seq<Option<Spec.Conn>>, slots: seq<Option<nat>>, i: nat,
                    conns: seq<PoolConn>, pings: seq<nat>, cancels: seq<nat>)
    requires i < |refs| == |m| == |slots| && Collected(refs, m, slots, i + 1, conns, pings, cancels)
    ensures Collected(refs, m, slots, i, conns + RefList(refs[i]), pings + AsList(Spec.Cancels(m)[i]),
                      cancels + AsList(slots[i]))
  {
    assert refs[i..][1..] == refs[i + 1..] && slots[i..][1..] == slots[i + 1..];
    assert Spec.Cancels(m[i..])[1..] == Spec.Cancels(m[i + 1..]);
  }

  class Pool {
    var conns: seq<PoolConn?>
    var slotCancels: seq<Option<nat>>
    var maxConns: int
    var controlIndex: int
    var pingCancel: Option<nat>

    /** The three lengths agree. */
    ghost predicate Valid()
      reads this
    {
      && |conns| == |slotCancels| == maxConns
      && Distinct(conns)
    }

    ghost function Model(): Spec.Pool
      reads this, conns
    {
      Spec.Pool(ModelOf(conns), slotCancels, maxConns, controlIndex, pingCancel)
    }

    constructor (requested: int)
      ensures Valid() && Model() == Spec.New(requested)
    {
      var n := if requested < 1 then 1 else requested;
      conns := seq(n, _ => null);
      slotCancels := seq(n, _ => None);
      maxConns := n;
      controlIndex := 0;
      pingCancel := None;
    }

    method ActiveCount() returns (active: nat)
      ensures active == Spec.Active(Model().conns)
    {
      active := 0;
      ghost var m := Model().conns;
      for i := 0 to |conns|
        invariant active == Spec.Active(m[..i])
      {
        ActiveStep(m, i);
        if conns[i] != null { active := active + 1; }
      }
      assert m[..|conns|] == m;
    }

    method Add(index: int, conn: nat) returns (connRef: PoolConn?, isControl: bool)
      requires Valid()
      modifies this
      ensures Valid()
      ensures var r := Spec.Add(old(Model()), index, conn);
              && Model() == r.pool && isControl == r.isControl
              && (connRef == null <==> r.conn.None?)
      ensures connRef != null ==> fresh(connRef) && conns == old(conns)[index := connRef]
    {
      if index < 0 || index >= |conns| { return null, false; }
      var activeBefore := ActiveCount();
      var controlMissing := controlIndex < 0 || controlIndex >= |conns| || conns[controlIndex] == null;
      connRef := new PoolConn(conn, index);
      conns := conns[index := connRef];
      if controlMissing && activeBefore == 0 { controlIndex := index; }
      isControl := index == controlIndex;
      assert Model().conns == Spec.Add(old(Model()), index, conn).pool.conns;
    }

    method SetConnPingCancel(index: int, cancel: nat)
      requires Valid()
      modifies conns
      ensures Valid() && Model() == Spec.SetConnPingCancel(old(Model()), index, cancel)
    {
      if index < 0 || index >= |conns| || conns[index] == null { return; }
      conns[index].pingCancel := Some(cancel);
      assert Model().conns == Spec.SetConnPingCancel(old(Model()), index, cancel).conns;
    }

    method SetSlotCancel(index: int, cancel: nat)
      requires Valid()
      modifies this`slotCancels
      ensures Valid() && Model() == Spec.SetSlotCancel(old(Model()), index, cancel)
    {
      if index < 0 || index >= |slotCancels| { return; }
      slotCancels := slotCancels[index := Some(cancel)];
    }

    method ReplacePingLoop(cancel: nat) returns (called: seq<nat>)
      requires Valid()
      modifies this`pingCancel
      ensures Valid()
      ensures var r := Spec.ReplacePingLoop(old(Model()), cancel); Model() == r.pool && called == r.called
    {
      var oldCancel := pingCancel;
      pingCancel := Some(cancel);
      called := AsList(oldCancel);
    }

    /** The scan of lines 144-151 and of lines 237-244: the first eligible slot below `limit`. */
    method FindFirst(limit: nat, idleOnly: bool) returns (next: int)
      requires limit <= |conns|
      ensures next == Spec.FirstFrom(Model().conns[..limit], 0, idleOnly)
    {
      ghost var m := Model().conns[..limit];
      for i := 0 to limit
        invariant Spec.FirstFrom(m, 0, idleOnly) == Spec.FirstFrom(m, i, idleOnly)
      {
        if conns[i] == null || (idleOnly && conns[i].streams != 0) { continue; }
        return i;
      }
      return -1;
    }

    /** pkg/client/pool.go:119-131: empty the slot and stop the ping loops that watched it. */
    method Vacate(index: nat) returns (controlLost: bool, called: seq<nat>)
      requires Valid() && index < |conns| && conns[index] != null
      modifies this, conns[index]
      ensures Valid() && conns == old(conns)[index := null]
      ensures controlLost == (index == old(controlIndex))
      ensures called == Spec.VacateCalls(old(Model()), index)
      ensures Model() == Spec.Vacated(old(Model()), index)
    {
      var removedConn := conns[index];
      conns := conns[index := null];
      controlLost, called := index == controlIndex, [];
      if removedConn.pingCancel != None {
        called := called + [removedConn.pingCancel.value];
        removedConn.pingCancel := None;
      }
      if controlLost && pingCancel != None {
        called := called + [pingCancel.value];
        pingCancel := None;
      }
      assert Model().conns == old(Model()).conns[index := None];
    }

    /** pkg/client/pool.go:156-160: the slot becomes the control slot and gives up its own ping loop. */
    method Promote(next: nat) returns (promoted: PoolConn, called: seq<nat>)
      requires Valid() && next < |conns| && conns[next] != null
      modifies this`controlIndex, conns[next]
      ensures Valid() && promoted == conns[next]
      ensures called == AsList(old(conns[next].pingCancel))
      ensures Model() == Spec.Promoted(old(Model()), next)
    {
      called := [];
      controlIndex := next;
      promoted := conns[next];
      if promoted.pingCancel != None {
        called := [promoted.pingCancel.value];
        promoted.pingCancel := None;
      }
      assert Model().conns == Spec.Promoted(old(Model()), next).conns;
    }

    /** pkg/client/pool.go:144-161: hand the control role to the least idle slot. */
    method FailOver() returns (promoted: PoolConn?, called: seq<nat>)
      requires Valid()
      modifies this`controlIndex, conns
      ensures Valid()
      ensures var r := Spec.FailOver(old(Model()));
              && Model() == r.pool && called == r.called
              && (promoted == null <==> r.promoted.None?)
              && (promoted != null ==> promoted == conns[r.promoted.value])
    {
      promoted, called := null, [];
      var nextIndex := FindFirst(|conns|, true);
      assert Model().conns[..|conns|] == Model().conns;
      if nextIndex < 0 {
        controlIndex := -1;
      } else {
        promoted, called := Promote(nextIndex);
      }
    }

    method Remove(index: int)
      returns (remaining: nat, promoted: PoolConn?, controlLost: bool, called: seq<nat>)
      requires Valid()
      modifies this, conns
      ensures Valid()
      ensures var r := Spec.Remove(old(Model()), index);
              && Model() == r.pool && remaining == r.remaining && controlLost == r.controlLost && called == r.called
              && (promoted == null <==> r.promoted.None?)
              && (promoted != null ==> r.promoted.value < |conns| && promoted == conns[r.promoted.value])
    {
      promoted, called := null, [];
      if index < 0 || index >= |conns| || conns[index] == null {
        remaining := ActiveCount();
        controlLost := false;
        return;
      }
      controlLost, called := Vacate(index);
      remaining := ActiveCount();
      if remaining == 0 {
        if |conns| > 0 { controlIndex := 0; }
        return;
      }
      if !controlLost { return; }
      var more;
      promoted, more := FailOver();
      called := called + more;
    }

    /** pkg/client/pool.go:236-254: find the control role a place among the surviving slots. */
    method Reseat(newMax: nat) returns (promoted: PoolConn?, called: seq<nat>)
      requires Valid() && newMax <= |conns|
      modifies this`controlIndex, this`pingCancel, conns
      ensures Valid()
      ensures var r := Spec.Reseat(old(Model()), newMax);
              && Model() == r.pool && called == r.called
              && (promoted == null <==> r.promoted.None?)
              && (promoted != null ==> r.promoted.value < newMax && promoted == conns[r.promoted.value])
    {
      promoted, called := null, [];
      if controlIndex < newMax { return; }
      var heir := FindFirst(newMax, false);
      called := AsList(pingCancel);
      pingCancel := None;
      if heir < 0 {
        controlIndex := 0;
      } else {
        var more;
        promoted, more := Promote(heir);
        called := called + more;
      }
    }

    /** pkg/client/pool.go:257-268: take whatever the slot holds out of the pool. */
    method TakeSlot(i: nat) returns (taken: seq<PoolConn>, ping: seq<nat>, slot: seq<nat>)
      requires |conns| == |slotCancels| && i < |conns|
      requires Distinct(conns)
      modifies this`conns, this`slotCancels, conns[i]
      ensures conns == old(conns)[i := null] && slotCancels == old(slotCancels)[i := None]
      ensures ModelOf(conns) == old(ModelOf(conns))[i := None] && Distinct(conns)
      ensures taken == RefList(old(conns)[i]) && slot == AsList(old(slotCancels[i]))
      ensures ping == AsList(Spec.Cancels(old(ModelOf(conns)))[i])
    {
      taken, ping, slot := [], [], [];
      var connRef := conns[i];
      if connRef != null {
        if connRef.pingCancel != None {
          ping := [connRef.pingCancel.value];
          connRef.pingCancel := None;
        }
        taken := [connRef];
        conns := conns[i := null];
      }
      if slotCancels[i] != None {
        slot := [slotCancels[i].value];
        slotCancels := slotCancels[i := None];
      }
    }

    /** pkg/client/pool.go:256-269: collect and clear the slots from the top down. */
    method ClearTail(newMax: nat)
      returns (removedConns: seq<PoolConn>, removedPingCancels: seq<nat>, removedCancels: seq<nat>)
      requires Valid() && newMax <= |conns|
      modifies this`conns, this`slotCancels, conns
      ensures |conns| == |slotCancels| == |old(conns)| && Distinct(conns)
      ensures forall k :: 0 <= k < newMax ==> conns[k] == old(conns)[k] && slotCancels[k] == old(slotCancels)[k]
      ensures forall k :: 0 <= k < newMax ==> ModelOf(conns)[k] == old(ModelOf(conns))[k]
      ensures removedConns == CollectRefs(old(conns)[newMax..])
      ensures removedPingCancels == Collect(Spec.Cancels(old(Model()).conns[newMax..]))
      ensures removedCancels == Collect(old(slotCancels)[newMax..])
    {
      ghost var m, refs, slots := Model().conns, conns, slotCancels;
      removedConns, removedPingCancels, removedCancels := [], [], [];
      var i := |conns|;
      while i > newMax
        invariant newMax <= i <= |refs| == |conns| == |slotCancels|
        invariant Distinct(conns)
        invariant forall k :: 0 <= k < i ==> conns[k] == refs[k] && slotCancels[k] == slots[k]
        invariant forall k :: 0 <= k < i ==> ModelOf(conns)[k] == m[k]
        invariant Collected(refs, m, slots, i, removedConns, removedPingCancels, removedCancels)
      {
        i := i - 1;
        CollectStep(refs, m, slots, i, removedConns, removedPingCancels, removedCancels);
        var taken, ping, slot := TakeSlot(i);
        removedConns := removedConns + taken;
        removedPingCancels := removedPingCancels + ping;
        removedCancels := removedCancels + slot;
      }
    }

    /** pkg/client/pool.go:256-273: empty the tail, then cut the slices. */
    method CutTail(newMax: nat)
      returns (removedConns: seq<PoolConn>, removedPingCancels: seq<nat>, removedCancels: seq<nat>)
      requires Valid() && newMax <= |conns|
      modifies this`conns, this`slotCancels, this`maxConns, conns
      ensures Valid() && conns == old(conns)[..newMax]
      ensures Model() == Spec.Truncated(old(Model()), newMax)
      ensures removedConns == CollectRefs(old(conns)[newMax..])
      ensures removedPingCancels == Collect(Spec.Cancels(old(Model()).conns[newMax..]))
      ensures removedCancels == Collect(old(slotCancels)[newMax..])
    {
      ghost var m := Model().conns;
      removedConns, removedPingCancels, removedCancels := ClearTail(newMax);
      ghost var cleared := ModelOf(conns);
      conns := conns[..newMax];
      slotCancels := slotCancels[..newMax];
      maxConns := newMax;
      assert ModelOf(conns) == cleared[..newMax] == m[..newMax];
    }

    /** pkg/client/pool.go:223-229: append blank slots. */
    method Grow(newMax: int)
      requires Valid() && newMax > maxConns
      modifies this`conns, this`slotCancels, this`maxConns
      ensures Valid() && Model() == Spec.Grown(old(Model()), newMax)
    {
      conns := conns + seq(newMax - maxConns, _ => null);
      slotCancels := slotCancels + seq(newMax - maxConns, _ => None);
      maxConns := newMax;
      assert Model().conns == Spec.Grown(old(Model()), newMax).conns;
    }

    method Shrink(newMax: nat)
      returns (promoted: PoolConn?, pingCalls: seq<nat>, slotCalls: seq<nat>, drained: seq<PoolConn>)
      requires Valid() && 1 <= newMax < maxConns
      modifies this, conns
      ensures Valid()
      ensures var r := Spec.Shrink(old(Model()), newMax);
              && Model() == r.pool
              && pingCalls == r.pingCalls && slotCalls == r.slotCalls && RefIds(drained) == r.drained
              && (promoted == null <==> r.promoted.None?)
              && (promoted != null ==> r.promoted.value < |conns| && promoted == conns[r.promoted.value])
    {
      var called, removedPingCancels;
      promoted, called := Reseat(newMax);
      RefIdsCollect(conns[newMax..], Model().conns[newMax..]);
      drained, removedPingCancels, slotCalls := CutTail(newMax);
      pingCalls := called + removedPingCancels;
    }

    method Resize(requested: int)
      returns (oldMax: int, updatedMax: int, promoted: PoolConn?,
               pingCalls: seq<nat>, slotCalls: seq<nat>, drained: seq<PoolConn>)
      requires Valid()
      modifies this, conns
      ensures Valid() && |conns| == if requested < 1 then 1 else if requested > 32 then 32 else requested
      ensures var r := Spec.Resize(old(Model()), requested);
              && Model() == r.pool && oldMax == r.oldMax && updatedMax == r.updatedMax
              && pingCalls == r.pingCalls && slotCalls == r.slotCalls && RefIds(drained) == r.drained
              && (promoted == null <==> r.promoted.None?)
              && (promoted != null ==> r.promoted.value < |conns| && promoted == conns[r.promoted.value])
    {
      promoted, pingCalls, slotCalls, drained := null, [], [], [];
      var newMax := requested;
      if newMax < 1 { newMax := 1; }
      if newMax > Spec.MAX_POOL_CONNECTIONS { newMax := Spec.MAX_POOL_CONNECTIONS; }
      oldMax := maxConns;
      updatedMax := newMax;
      if newMax > oldMax {
        Grow(newMax);
      } else if newMax < oldMax {
        promoted, pingCalls, slotCalls, drained := Shrink(newMax);
      }
    }

    /** pkg/client/pool.go:306-312: stop the slot's own ping loop, keep the connection. */
    method DetachSlot(i: nat) returns (active: seq<nat>, cancel: seq<nat>)
      requires Valid() && i < |conns|
      modifies conns[i]
      ensures ModelOf(conns) == old(ModelOf(conns))[i := Spec.DetachAll(old(ModelOf(conns)))[i]]
      ensures active == AsList(Spec.Ids(old(ModelOf(conns)))[i])
      ensures cancel == AsList(Spec.Cancels(old(ModelOf(conns)))[i])
    {
      active, cancel := [], [];
      if conns[i] != null {
        if conns[i].pingCancel != None {
          cancel := [conns[i].pingCancel.value];
          conns[i].pingCancel := None;
        }
        active := [conns[i].conn];
      }
    }

    /** pkg/client/pool.go:305-313: stop every connection's own ping loop. */
    method DetachConns() returns (active: seq<nat>, cancels: seq<nat>)
      requires Valid()
      modifies conns
      ensures ModelOf(conns) == Spec.DetachAll(old(ModelOf(conns)))
      ensures active == InOrder(Spec.Ids(old(ModelOf(conns))))
      ensures cancels == InOrder(Spec.Cancels(old(ModelOf(conns))))
    {
      ghost var m := ModelOf(conns);
      active, cancels := [], [];
      for i := 0 to |conns|
        invariant forall k :: 0 <= k < i ==> ModelOf(conns)[k] == Spec.DetachAll(m)[k]
        invariant forall k :: i <= k < |conns| ==> ModelOf(conns)[k] == m[k]
        invariant active == InOrder(Spec.Ids(m)[..i]) && cancels == InOrder(Spec.Cancels(m)[..i])
      {
        InOrderStep(Spec.Ids(m), i);
        InOrderStep(Spec.Cancels(m), i);
        var a, c := DetachSlot(i);
        active, cancels := active + a, cancels + c;
      }
      assert Spec.Ids(m)[..|conns|] == Spec.Ids(m) && Spec.Cancels(m)[..|conns|] == Spec.Cancels(m);
    }

    /** pkg/client/pool.go:314-319. */
    method StoredSlotCancels() returns (cancels: seq<nat>)
      ensures cancels == InOrder(slotCancels)
    {
      cancels := [];
      for i := 0 to |slotCancels|
        invariant cancels == InOrder(slotCancels[..i])
      {
        InOrderStep(slotCancels, i);
        if slotCancels[i] != None { cancels := cancels + [slotCancels[i].value]; }
      }
      assert slotCancels[..|slotCancels|] == slotCancels;
    }

    method Close() returns (pingCalls: seq<nat>, slotCalls: seq<nat>, closed: seq<nat>)
      requires Valid()
      modifies this`pingCancel, conns
      ensures Valid()
      ensures var r := Spec.Close(old(Model()));
              Model() == r.pool && pingCalls == r.pingCalls && slotCalls == r.slotCalls && closed == r.closed
    {
      var connPingCancels;
      closed, connPingCancels := DetachConns();
      slotCalls := StoredSlotCancels();
      pingCalls := AsList(pingCancel) + connPingCancels;
      pingCancel := None;
    }
  }

  /** One turn of a bottom-up collection. */
  lemma InOrderStep<T>(s: seq<Option<T>>, i: nat)
    requires i < |s|
    ensures InOrder(s[..i + 1]) == InOrder(s[..i]) + AsList(s[i])
  {
    assert s[..i + 1][..i] == s[..i];
  }

  /** The closing goroutine of a shrink (lines 285-296).  `busy(k, j)` says whether the
      k-th drained connection still has streams when it is looked at for the j-th time. */
  method Drain(removed: seq<PoolConn>, busy: (nat, nat) -> bool) returns (closed: seq<nat>, sleeps: seq<nat>)
    ensures closed == RefIds(removed) && |sleeps| == |removed|
    ensures forall k :: 0 <= k < |removed| ==>
              && sleeps[k] <= 50
              && (sleeps[k] < 50 ==> !busy(k, sleeps[k]))
              && forall j :: 0 <= j < sleeps[k] ==> busy(k, j)
  {
    closed, sleeps := [], [];
    for k := 0 to |removed|
      invariant closed == RefIds(removed[..k]) && |sleeps| == k
      invariant forall l :: 0 <= l < k ==>
                  && sleeps[l] <= 50
                  && (sleeps[l] < 50 ==> !busy(l, sleeps[l]))
                  && forall j :: 0 <= j < sleeps[l] ==> busy(l, j)
    {
      var i := 0;
      while i < 50
        invariant i <= 50 && forall j :: 0 <= j < i ==> busy(k, j)
      {
        if !busy(k, i) { break; }
        i := i + 1;
      }
      closed, sleeps := closed + [removed[k].conn], sleeps + [i];
    }
    assert removed[..|removed|] == removed;
  }

  lemma {:induction false} RefIdsCollect(refs: seq<PoolConn?>, m: seq<Option<Spec.Conn>>)
    requires |m| == |refs|
    requires forall k :: 0 <= k < |m| ==> (m[k].None? <==> refs[k] == null)
    requires forall k :: 0 <= k < |m| && refs[k] != null ==> m[k].value.id == refs[k].conn
    ensures RefIds(CollectRefs(refs)) == Collect(Spec.Ids(m))
  {
    if refs != [] {
      RefIdsCollect(refs[1..], m[1..]);
      assert Spec.Ids(m)[1..] == Spec.Ids(m[1..]);
    }
  }
}
