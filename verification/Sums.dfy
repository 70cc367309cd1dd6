/** Totals over a sequence and how they react to the update of one element, and a few helpers beside them. */
module Sums {

  function Sum<T>(f: T -> int, s: seq<T>): int {
    if s == [] then 0 else f(s[0]) + Sum(f, s[1..])
  }

  /** All that f yields for the elements of s, one after the other. */
  function Gather<T, U>(f: T -> seq<U>, s: seq<T>): seq<U> {
    if s == [] then [] else f(s[0]) + Gather(f, s[1..])
  }

  lemma {:induction false} SumUpdate<T>(f: T -> int, s: seq<T>, i: nat, x: T)
    requires i < |s|
    ensures Sum(f, s[i := x]) == Sum(f, s) - f(s[i]) + f(x)
  {
    if i == 0 {
      assert s[0 := x][1..] == s[1..];
    } else {
      assert s[i := x][1..] == s[1..][i - 1 := x];
      SumUpdate(f, s[1..], i - 1, x);
    }
  }

  lemma {:induction false} SumConstant<T>(f: T -> int, s: seq<T>, c: int)
    requires forall k :: 0 <= k < |s| ==> f(s[k]) == c
    ensures Sum(f, s) == |s| * c
  {
    if s == [] {
    } else {
      SumConstant(f, s[1..], c);
    }
  }

  lemma {:induction false} SumNonNegative<T>(f: T -> int, s: seq<T>)
    requires forall k :: 0 <= k < |s| ==> f(s[k]) >= 0
    ensures forall k :: 0 <= k < |s| ==> f(s[k]) <= Sum(f, s)
    ensures Sum(f, s) >= 0
  {
    if s == [] {
    } else {
      SumNonNegative(f, s[1..]);
      forall k | 0 <= k < |s| ensures f(s[k]) <= Sum(f, s) {
        if k > 0 { assert s[k] == s[1..][k - 1]; }
      }
    }
  }

  lemma {:induction false} SumPositive<T>(f: T -> int, s: seq<T>) returns (i: nat)
    requires Sum(f, s) > 0
    ensures i < |s| && f(s[i]) > 0
  {
    if f(s[0]) > 0 {
      i := 0;
    } else {
      i := SumPositive(f, s[1..]);
      i := i + 1;
    }
  }

  lemma {:induction false} GatherUpdate<T, U>(f: T -> seq<U>, s: seq<T>, i: nat, x: T)
    requires i < |s|
    ensures multiset(Gather(f, s[i := x])) + multiset(f(s[i])) == multiset(Gather(f, s)) + multiset(f(x))
  {
    var t, tail := s[i := x], s[1..];
    var head, rest, rest' := multiset(f(s[0])), multiset(Gather(f, tail)), multiset(Gather(f, t[1..]));
    assert multiset(Gather(f, s)) == head + rest;
    assert multiset(Gather(f, t)) == multiset(f(t[0])) + rest';
    if i == 0 {
      assert t[1..] == tail;
    } else {
      assert t[1..] == tail[i - 1 := x];
      GatherUpdate(f, tail, i - 1, x);
      assert rest' + multiset(f(s[i])) == rest + multiset(f(x));
      assert head + rest' + multiset(f(s[i])) == head + (rest' + multiset(f(s[i])));
    }
  }

  lemma {:induction false} GatherLength<T, U>(f: T -> seq<U>, s: seq<T>, c: nat)
    requires forall k :: 0 <= k < |s| ==> |f(s[k])| == c
    ensures |Gather(f, s)| == |s| * c
  {
    if s == [] {
    } else {
      GatherLength(f, s[1..], c);
    }
  }

  lemma {:induction false} GatherOrigin<T, U>(f: T -> seq<U>, s: seq<T>, y: U)
    requires y in Gather(f, s)
    ensures exists i :: 0 <= i < |s| && y in f(s[i])
  {
    if y !in f(s[0]) {
      GatherOrigin(f, s[1..], y);
      var i :| 0 <= i < |s[1..]| && y in f(s[1..][i]);
      assert s[i + 1] == s[1..][i];
    }
  }

  /** An element that only one of the gathered parts holds. */
  lemma {:induction false} GatherCount<T, U>(f: T -> seq<U>, s: seq<T>, i: nat, y: U)
    requires i < |s| && forall j :: 0 <= j < |s| && j != i ==> y !in f(s[j])
    ensures multiset(Gather(f, s))[y] == multiset(f(s[i]))[y]
  {
    var tail := s[1..];
    assert multiset(Gather(f, s)) == multiset(f(s[0])) + multiset(Gather(f, tail));
    assert forall j :: 0 <= j < |tail| ==> tail[j] == s[j + 1];
    if i == 0 {
      if y in Gather(f, tail) {
        GatherOrigin(f, tail, y);
      }
    } else {
      GatherCount(f, tail, i - 1, y);
    }
  }

  lemma {:induction false} GatherConcat<T, U>(f: T -> seq<U>, a: seq<T>, b: seq<T>)
    ensures Gather(f, a + b) == Gather(f, a) + Gather(f, b)
  {
    if a == [] {
      assert a + b == b;
    } else {
      assert (a + b)[1..] == a[1..] + b;
      GatherConcat(f, a[1..], b);
    }
  }

  lemma GatherOne<T, U>(f: T -> seq<U>, x: T)
    ensures Gather(f, [x]) == f(x)
  {
    assert [x][1..] == [];
  }

  /** One more round of a loop that gathers. */
  lemma GatherPrefix<T, U>(f: T -> seq<U>, s: seq<T>, i: nat)
    requires i < |s|
    ensures Gather(f, s[..i + 1]) == Gather(f, s[..i]) + f(s[i])
  {
    assert s[..i + 1] == s[..i] + [s[i]];
    GatherConcat(f, s[..i], [s[i]]);
    GatherOne(f, s[i]);
  }

  /** c holds of no element. */
  ghost predicate NoneOf<T(!new)>(c: T -> bool, s: seq<T>) { forall k :: 0 <= k < |s| ==> !c(s[k]) }

  lemma NoneOfConcat<T(!new)>(c: T -> bool, a: seq<T>, b: seq<T>)
    ensures NoneOf(c, a + b) <==> NoneOf(c, a) && NoneOf(c, b)
  {
    assert forall k :: 0 <= k < |a| ==> (a + b)[k] == a[k];
    assert forall k :: 0 <= k < |b| ==> (a + b)[|a| + k] == b[k];
  }

  lemma Assoc<T>(a: seq<T>, b: seq<T>, c: seq<T>)
    ensures (a + b) + c == a + (b + c)
  {}

  function Min(a: int, b: int): int { if a < b then a else b }

  function Max(a: int, b: int): int { if a > b then a else b }
}
