/** The login session store: lazily expired tokens, against the log of what happened to each token. */
module SessionStore {
  import opened Prelude

  type Sessions = map<string, int>

  predicate Expired(createdAt: int, now: int, ttl: int) {
    now - createdAt > ttl
  }

  predicate Accepts(m: Sessions, token: string, now: int, ttl: int) {
    token != "" && token in m && !Expired(m[token], now, ttl)
  }

  function Validated(m: Sessions, token: string, now: int, ttl: int): Sessions {
    if token != "" && token in m && Expired(m[token], now, ttl) then m - {token} else m
  }

  function Swept(m: Sessions, now: int, ttl: int): Sessions {
    map token | token in m && !Expired(m[token], now, ttl) :: m[token]
  }

  class Store {
    var sessions: Sessions
    const ttl: int

    constructor (ttl: int)
      ensures sessions == map[] && this.ttl == ttl
    {
      sessions := map[];
      this.ttl := ttl;
    }

    /** `token` is whatever the random source yields. */
    method Create(token: string, now: int)
      modifies this
      ensures sessions == old(sessions)[token := now]
    {
      sessions := sessions[token := now];
    }

    method Validate(token: string, now: int) returns (ok: bool)
      modifies this
      ensures ok == Accepts(old(sessions), token, now, ttl)
      ensures sessions == Validated(old(sessions), token, now, ttl)
    {
      if token == "" { return false; }
      if token !in sessions { return false; }
      if now - sessions[token] > ttl {
        sessions := sessions - {token};
        return false;
      }
      return true;
    }

    method Delete(token: string)
      modifies this
      ensures sessions == if token == "" then old(sessions) else old(sessions) - {token}
    {
      if token == "" { return; }
      sessions := sessions - {token};
    }

    method Sweep(now: int)
      modifies this
      ensures sessions == Swept(old(sessions), now, ttl)
    {
      var tokens := sessions.Keys;
      while tokens != {}
        invariant tokens <= old(sessions).Keys
        invariant sessions.Keys == set t | t in old(sessions) && (t in tokens || !Expired(old(sessions)[t], now, ttl))
        invariant forall t :: t in sessions ==> sessions[t] == old(sessions)[t]
        decreases |tokens|
      {
        var token :| token in tokens;
        tokens := tokens - {token};
        if now - sessions[token] > ttl { sessions := sessions - {token}; }
      }
    }
  }

  // ---------------------------------------------------------------- traces

  datatype Event =
    | Created(token: string, now: int)
    | Checked(token: string, now: int)
    | Deleted(token: string, now: int)
    | GC(now: int)

  function Run(trace: seq<Event>, ttl: int): Sessions {
    if trace == [] then map[]
    else
      var m := Run(trace[..|trace| - 1], ttl);
      match trace[|trace| - 1]
      case Created(token, now) => m[token := now]
      case Checked(token, now) => Validated(m, token, now, ttl)
      case Deleted(token, _) => if token == "" then m else m - {token}
      case GC(now) => Swept(m, now, ttl)
  }

  ghost predicate Ordered(trace: seq<Event>) {
    forall i, j :: 0 <= i < j < |trace| ==> trace[i].now <= trace[j].now
  }

  /** The log's own reading: the time of the token's latest creation, unless it was deleted since. */
  function LiveSince(trace: seq<Event>, token: string): Option<int> {
    if trace == [] then None
    else
      var before := trace[..|trace| - 1];
      match trace[|trace| - 1]
      case Created(t, now) => if t == token then Some(now) else LiveSince(before, token)
      case Deleted(t, _) => if t == token && t != "" then None else LiveSince(before, token)
      case _ => LiveSince(before, token)
  }

  /** A stored token carries its latest creation; one that was dropped without a Delete had expired. */
  lemma {:induction false} StoreAgrees(trace: seq<Event>, token: string, ttl: int)
    requires Ordered(trace)
    ensures var m, live := Run(trace, ttl), LiveSince(trace, token);
            if token in m then live == Some(m[token])
            else live.Some? ==> trace != [] && Expired(live.value, trace[|trace| - 1].now, ttl)
  {
    if trace != [] {
      var before := trace[..|trace| - 1];
      StoreAgrees(before, token, ttl);
      if before != [] { assert before[|before| - 1].now <= trace[|trace| - 1].now; }
    }
  }

  /** In every interleaving, a check succeeds exactly when the token is non-empty, its latest
      creation has no later deletion, and it is at most ttl old. */
  lemma ValidateRefinesLog(trace: seq<Event>, token: string, now: int, ttl: int)
    requires Ordered(trace) && (trace != [] ==> trace[|trace| - 1].now <= now)
    ensures Accepts(Run(trace, ttl), token, now, ttl)
       <==> token != "" && LiveSince(trace, token).Some? && now - LiveSince(trace, token).value <= ttl
  {
    StoreAgrees(trace, token, ttl);
  }

  predicate Housekeeping(e: Event) {
    e.Checked? || e.GC?
  }

  function WithoutHousekeeping(trace: seq<Event>): seq<Event> {
    if trace == [] then []
    else
      var before, e := trace[..|trace| - 1], trace[|trace| - 1];
      if Housekeeping(e) then WithoutHousekeeping(before) else WithoutHousekeeping(before) + [e]
  }

  lemma {:induction false} HousekeepingNotLogged(trace: seq<Event>, token: string)
    ensures LiveSince(WithoutHousekeeping(trace), token) == LiveSince(trace, token)
  {
    if trace != [] {
      var before, e := trace[..|trace| - 1], trace[|trace| - 1];
      HousekeepingNotLogged(before, token);
      var kept := WithoutHousekeeping(before);
      assert (kept + [e])[..|kept|] == kept;
    }
  }

  lemma {:induction false} HousekeepingKeepsOrder(trace: seq<Event>)
    requires Ordered(trace)
    ensures Ordered(WithoutHousekeeping(trace))
    ensures forall e :: e in WithoutHousekeeping(trace) ==> e in trace
  {
    if trace != [] {
      var before, e := trace[..|trace| - 1], trace[|trace| - 1];
      HousekeepingKeepsOrder(before);
      forall x | x in WithoutHousekeeping(before) ensures x.now <= e.now { assert x in before; }
    }
  }

  /** Lazy deletion and sweeping never change an answer: removing every earlier check and sweep
      from the trace leaves it the same. */
  lemma {:induction false} HousekeepingUnobservable(trace: seq<Event>, token: string, now: int, ttl: int)
    requires Ordered(trace) && (trace != [] ==> trace[|trace| - 1].now <= now)
    ensures Accepts(Run(trace, ttl), token, now, ttl) == Accepts(Run(WithoutHousekeeping(trace), ttl), token, now, ttl)
  {
    var kept := WithoutHousekeeping(trace);
    HousekeepingNotLogged(trace, token);
    HousekeepingKeepsOrder(trace);
    if kept != [] {
      var last := kept[|kept| - 1];
      assert last in trace;
      var i :| 0 <= i < |trace| && trace[i] == last;
      assert trace[i].now <= trace[|trace| - 1].now;
    }
    ValidateRefinesLog(trace, token, now, ttl);
    ValidateRefinesLog(kept, token, now, ttl);
  }

  /** After a sweep exactly the tokens remain that were created and not deleted, at most ttl ago. */
  lemma SweepExact(trace: seq<Event>, token: string, now: int, ttl: int)
    requires Ordered(trace) && (trace != [] ==> trace[|trace| - 1].now <= now)
    ensures token in Run(trace + [GC(now)], ttl)
       <==> LiveSince(trace, token).Some? && now - LiveSince(trace, token).value <= ttl
  {
    assert (trace + [GC(now)])[..|trace|] == trace;
    StoreAgrees(trace, token, ttl);
  }

  /** After a check the token remains exactly if it is still good, and no other token is touched. */
  lemma CheckExact(trace: seq<Event>, token: string, other: string, now: int, ttl: int)
    requires Ordered(trace) && (trace != [] ==> trace[|trace| - 1].now <= now) && token != ""
    ensures token in Run(trace + [Checked(token, now)], ttl)
       <==> LiveSince(trace, token).Some? && now - LiveSince(trace, token).value <= ttl
    ensures other != token ==> (other in Run(trace + [Checked(token, now)], ttl) <==> other in Run(trace, ttl))
  {
    assert (trace + [Checked(token, now)])[..|trace|] == trace;
    StoreAgrees(trace, token, ttl);
  }
}
