/** Shared vocabulary: optional values, and counting the occurrences of a value in a
    row of optional cells.  The conservation laws of the project are equations
    between such counts, one equation for every identifier. */
module Prelude {

  datatype Option<+T> = None | Some(value: T)

  function AsList<T>(o: Option<T>): seq<T> {
    if o.Some? then [o.value] else []
  }

  function Is<T(==)>(o: Option<T>, x: T): nat {
    if o == Some(x) then 1 else 0
  }

  /** How many cells hold `x`. */
  function Count<T(==)>(s: seq<Option<T>>, x: T): nat {
    if s == [] then 0 else Is(s[0], x) + Count(s[1..], x)
  }

  /** The present values of a row, last cell first. */
  function Collect<T>(s: seq<Option<T>>): seq<T> {
    if s == [] then [] else Collect(s[1..]) + AsList(s[0])
  }

  /** The present values of a row, first cell first. */
  function InOrder<T>(s: seq<Option<T>>): seq<T> {
    if s == [] then [] else InOrder(s[..|s| - 1]) + AsList(s[|s| - 1])
  }

  lemma {:induction false} CountUpdate<T>(s: seq<Option<T>>, i: nat, o: Option<T>, x: T)
    requires i < |s|
    ensures Count(s[i := o], x) + Is(s[i], x) == Count(s, x) + Is(o, x)
  {
    if i == 0 {
      assert s[i := o][1..] == s[1..];
    } else {
      CountUpdate(s[1..], i - 1, o, x);
      assert s[i := o][1..] == s[1..][i - 1 := o];
    }
  }

  lemma {:induction false} CountConcat<T>(a: seq<Option<T>>, b: seq<Option<T>>, x: T)
    ensures Count(a + b, x) == Count(a, x) + Count(b, x)
  {
    if a == [] {
      assert a + b == b;
    } else {
      CountConcat(a[1..], b, x);
      assert (a + b)[1..] == a[1..] + b;
    }
  }

  lemma {:induction false} CountSplit<T>(s: seq<Option<T>>, k: nat, x: T)
    requires k <= |s|
    ensures Count(s, x) == Count(s[..k], x) + Count(s[k..], x)
  {
    assert s == s[..k] + s[k..];
    CountConcat(s[..k], s[k..], x);
  }

  lemma {:induction false} CountZero<T>(s: seq<Option<T>>, x: T)
    requires forall i :: 0 <= i < |s| ==> s[i] != Some(x)
    ensures Count(s, x) == 0
  {
    if s != [] { CountZero(s[1..], x); }
  }

  lemma {:induction false} CountHas<T>(s: seq<Option<T>>, i: nat, x: T)
    requires i < |s| && s[i] == Some(x)
    ensures Count(s, x) >= 1
  {
    if i > 0 { CountHas(s[1..], i - 1, x); }
  }

  lemma {:induction false} CountTwice<T>(s: seq<Option<T>>, i: nat, j: nat, x: T)
    requires i < j < |s| && s[i] == s[j] == Some(x)
    ensures Count(s, x) >= 2
  {
    if i > 0 {
      CountTwice(s[1..], i - 1, j - 1, x);
    } else {
      CountHas(s[1..], j - 1, x);
    }
  }

  /** Collecting a row loses and invents nothing. */
  lemma {:induction false} CollectCount<T>(s: seq<Option<T>>, x: T)
    ensures multiset(Collect(s))[x] == Count(s, x)
  {
    if s != [] {
      CollectCount(s[1..], x);
      assert multiset(AsList(s[0]))[x] == Is(s[0], x);
    }
  }

  lemma {:induction false} InOrderCount<T>(s: seq<Option<T>>, x: T)
    ensures multiset(InOrder(s))[x] == Count(s, x)
  {
    if s != [] {
      var k := |s| - 1;
      InOrderCount(s[..k], x);
      CountSplit(s, k, x);
      assert multiset(AsList(s[k]))[x] == Is(s[k], x);
      assert Count(s[k..], x) == Is(s[k], x) by { assert s[k..][1..] == []; }
    }
  }
}
