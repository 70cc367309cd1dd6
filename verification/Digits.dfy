/**
 Fixed-width numbers written as digit strings, most significant digit first.

 A MAC address is such a string of six digits in base 256, a stack of VLAN tags one of
 12-bit digits. Both are advanced by adding a step to the whole number.
 */
module Digits {
  import opened Wrappers

  ghost predicate IsDigits(base: nat, ds: seq<nat>) {
    forall k :: 0 <= k < |ds| ==> ds[k] < base
  }

  function Pow(base: nat, n: nat): nat {
    if n == 0 then 1 else Pow(base, n - 1) * base
  }

  function Value(base: nat, ds: seq<nat>): nat {
    if ds == [] then 0 else Value(base, ds[..|ds| - 1]) * base + ds[|ds| - 1]
  }

  /** The digit string of the given width that stands for v. */
  function Render(base: nat, width: nat, v: nat): (ds: seq<nat>)
    requires base > 0
    ensures |ds| == width && IsDigits(base, ds)
  {
    if width == 0 then [] else Render(base, width - 1, v / base) + [v % base]
  }

  lemma MulMono(a: int, b: int, c: nat)
    requires a <= b
    ensures a * c <= b * c
  {
    assert b * c - a * c == (b - a) * c;
  }

  lemma BelowNext(high: nat, d: nat, base: nat, limit: nat)
    requires d < base && high < limit
    ensures high * base + d < limit * base
  {
    assert (high + 1) * base == high * base + base;
    MulMono(high + 1, limit, base);
  }

  lemma {:induction false} ValueBound(base: nat, ds: seq<nat>)
    requires IsDigits(base, ds)
    ensures Value(base, ds) < Pow(base, |ds|)
  {
    if ds == [] {
    } else {
      var front := ds[..|ds| - 1];
      ValueBound(base, front);
      BelowNext(Value(base, front), ds[|ds| - 1], base, Pow(base, |front|));
    }
  }

  lemma QuotientBound(q: nat, d: nat, base: nat, limit: nat)
    requires q * base + d < limit * base
    ensures q < limit
  {
    if q >= limit { MulMono(limit, q, base); }
  }

  lemma Euclid(base: nat, v: nat)
    requires base > 0
    ensures v == v / base * base + v % base
  {}

  lemma ValueOfSnoc(base: nat, front: seq<nat>, d: nat)
    ensures Value(base, front + [d]) == Value(base, front) * base + d
  {
    assert (front + [d])[..|front|] == front;
  }

  lemma RenderedFits(base: nat, width: nat, v: nat)
    requires base > 0 && width > 0
    requires v < Pow(base, width)
    ensures v / base < Pow(base, width - 1)
  {
    Euclid(base, v);
    QuotientBound(v / base, v % base, base, Pow(base, width - 1));
  }

  lemma {:induction false} ValueOfRender(base: nat, width: nat, v: nat)
    requires base > 0
    requires v < Pow(base, width)
    ensures Value(base, Render(base, width, v)) == v
  {
    if width == 0 {
    } else {
      RenderedFits(base, width, v);
      ValueOfRender(base, width - 1, v / base);
      ValueOfSnoc(base, Render(base, width - 1, v / base), v % base);
      Euclid(base, v);
    }
  }

  lemma DivModUnique(base: nat, q: nat, r: nat)
    requires r < base
    ensures (q * base + r) / base == q && (q * base + r) % base == r
  {
    var x := q * base + r;
    var d := x / base;
    assert x == d * base + x % base;
    MulMono(q + 1, if d > q then d else q + 1, base);
    MulMono(if d < q then d + 1 else q, q, base);
  }

  lemma {:induction false} RenderOfValue(base: nat, ds: seq<nat>)
    requires base > 0
    requires IsDigits(base, ds)
    ensures Render(base, |ds|, Value(base, ds)) == ds
  {
    if ds == [] {
    } else {
      var front, last := ds[..|ds| - 1], ds[|ds| - 1];
      DivModUnique(base, Value(base, front), last);
      RenderOfValue(base, front);
    }
  }

  lemma Regroup(d: nat, p: nat, v: nat, base: nat, last: nat)
    ensures (d * p + v) * base + last == d * (p * base) + (v * base + last)
  {
    calc {
      (d * p + v) * base + last;
      (d * p) * base + v * base + last;
      { assert (d * p) * base == d * (p * base); }
      d * (p * base) + (v * base + last);
    }
  }

  lemma {:induction false} ValueOfCons(base: nat, d: nat, ds: seq<nat>)
    ensures Value(base, [d] + ds) == d * Pow(base, |ds|) + Value(base, ds)
  {
    if ds == [] {
      assert ([d] + ds)[..0] == [];
    } else {
      var front, last := ds[..|ds| - 1], ds[|ds| - 1];
      var p, v := Pow(base, |front|), Value(base, front);
      assert ([d] + ds)[..|ds|] == [d] + front;
      ValueOfCons(base, d, front);
      Regroup(d, p, v, base, last);
    }
  }

  /** One column of the addition: the last digit of the high part and the carry give a digit and a new carry. */
  lemma AddDigit(base: nat, high: nat, last: nat, carry: nat, q: nat, d: nat, p: nat)
    requires last + carry == q * base + d
    ensures (high * base + last + carry) * p == (high + q) * (p * base) + d * p
  {
    calc {
      (high * base + last + carry) * p;
      (high * base + q * base + d) * p;
      { assert high * base + q * base == (high + q) * base; }
      ((high + q) * base + d) * p;
      ((high + q) * base) * p + d * p;
      (high + q) * (p * base) + d * p;
    }
  }

  lemma CarryMeansOverflow(carry: nat, limit: nat)
    ensures carry > 0 ==> carry * limit >= limit
    ensures carry == 0 ==> carry * limit == 0
  {
    if carry > 0 { MulMono(1, carry, limit); }
  }

  method DivMod(base: nat, t: nat) returns (q: nat, d: nat)
    requires base > 0
    ensures t == q * base + d && d < base
  {
    q, d := t / base, t % base;
  }

  /** Adds step to the number ds stands for; fails when the sum does not fit the width. */
  method Increase(base: nat, ds: seq<nat>, step: nat) returns (r: Option<seq<nat>>)
    requires base > 0
    requires IsDigits(base, ds)
    ensures r.Some? <==> Value(base, ds) + step < Pow(base, |ds|)
    ensures r.Some? ==> |r.value| == |ds| && IsDigits(base, r.value)
    ensures r.Some? ==> Value(base, r.value) == Value(base, ds) + step
  {
    var i, carry := |ds|, step;
    var sum: seq<nat> := [];
    assert ds[..i] == ds;
    assert Pow(base, 0) == 1;
    while i > 0
      invariant 0 <= i <= |ds|
      invariant |sum| == |ds| - i
      invariant IsDigits(base, sum)
      invariant Value(base, ds) + step == (Value(base, ds[..i]) + carry) * Pow(base, |sum|) + Value(base, sum)
    {
      var q, d := DivMod(base, ds[i - 1] + carry);
      assert ds[..i][..i - 1] == ds[..i - 1];
      AddDigit(base, Value(base, ds[..i - 1]), ds[i - 1], carry, q, d, Pow(base, |sum|));
      ValueOfCons(base, d, sum);
      i, carry, sum := i - 1, q, [d] + sum;
    }
    ValueBound(base, sum);
    CarryMeansOverflow(carry, Pow(base, |sum|));
    r := if carry == 0 then Some(sum) else None;
  }

  /** Term j of the progression start, start + step, start + 2 * step, ... */
  function Term(start: nat, step: nat, j: nat): nat {
    if j == 0 then start else Term(start, step, j - 1) + step
  }

  lemma {:induction false} TermIsProduct(start: nat, step: nat, j: nat)
    ensures Term(start, step, j) == start + j * step
  {
    if j == 0 {
    } else {
      TermIsProduct(start, step, j - 1);
      assert j * step == (j - 1) * step + step;
    }
  }

  lemma {:induction false} TermMonotone(start: nat, step: nat, j: nat, k: nat)
    requires j <= k
    ensures Term(start, step, j) <= Term(start, step, k)
    ensures Term(start, step, j) == Term(start, step, k) <==> j == k || step == 0
  {
    if j == k {
    } else {
      TermMonotone(start, step, j, k - 1);
    }
  }
}
