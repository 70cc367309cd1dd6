/** The collector of results and the summary it keeps (sched.go, dhcplt.go). Times are in nanoseconds. */
module Summary {
  import opened Sums
  import opened Wrappers

  datatype Action = DORA | Release | Renew | Rebind

  datatype DialResult = DialResult(client: nat, isV6: bool, action: Action, ok: bool, start: int, finish: int)
  {
    /** How long it took; clocks that step back count as no time. */
    function Taken(): nat {
      var d := Sub(finish, start);
      if d < 0 then 0 else d
    }

    predicate Dialed() { ok && action.DORA? }
  }

  const MAX_DURATION := 0x7FFF_FFFF_FFFF_FFFF
  const MIN_DURATION := -0x8000_0000_0000_0000
  const SECOND := 1_000_000_000

  /** The difference of two times, saturating at the bounds of a duration. */
  function Sub(a: int, b: int): int {
    if a - b > MAX_DURATION then MAX_DURATION else if a - b < MIN_DURATION then MIN_DURATION else a - b
  }

  /** The summary, and the two times the collector keeps beside it. */
  datatype Tally = Tally(
    total: nat, success: nat, failed: nat, released: nat, renewed: nat, rebinded: nat,
    lessThanSecond: nat, shortest: int, longest: int, totalTime: int,
    beginTime: int, endTime: int)

  /** beginTime starts in the future and endTime at the zero time. */
  function Start(beginTime: int, endTime: int): Tally {
    Tally(0, 0, 0, 0, 0, 0, 0, MAX_DURATION, 0, 0, beginTime, endTime)
  }

  function Observe(t: Tally, r: DialResult): Tally {
    var (begin, end) := (Min(r.start, t.beginTime), Max(r.finish, t.endTime));
    var shortest := if r.Dialed() then Min(r.Taken(), t.shortest) else t.shortest;
    Tally(
      t.total + 1,
      t.success + (if r.Dialed() then 1 else 0),
      t.failed + (if r.ok then 0 else 1),
      t.released + (if r.action.Release? then 1 else 0),
      t.renewed + (if r.action.Renew? then 1 else 0),
      t.rebinded + (if r.action.Rebind? then 1 else 0),
      t.lessThanSecond + (if r.Dialed() && r.Taken() < SECOND then 1 else 0),
      if shortest == MAX_DURATION then 0 else shortest,
      if r.Dialed() then Max(r.Taken(), t.longest) else t.longest,
      Sub(end, begin), begin, end)
  }

  function TallyAll(t: Tally, s: seq<DialResult>): Tally {
    if s == [] then t else Observe(TallyAll(t, s[..|s| - 1]), s[|s| - 1])
  }

  lemma TallySnoc(t: Tally, s: seq<DialResult>, r: DialResult)
    ensures TallyAll(t, s + [r]) == Observe(TallyAll(t, s), r)
  {
    assert (s + [r])[..|s|] == s;
  }

  // ---- the loop ----

  class ResultSummary {
    var total: nat
    var success: nat
    var failed: nat
    var released: nat
    var renewed: nat
    var rebinded: nat
    var lessThanSecond: nat
    var shortest: int
    var longest: int
    var totalTime: int

    constructor ()
      ensures forall b, e :: AsTally(b, e) == Start(b, e)
    {
      total, success, failed, released, renewed, rebinded, lessThanSecond := 0, 0, 0, 0, 0, 0, 0;
      shortest, longest, totalTime := MAX_DURATION, 0, 0;
    }

    function AsTally(beginTime: int, endTime: int): Tally
      reads this
    {
      Tally(total, success, failed, released, renewed, rebinded, lessThanSecond,
            shortest, longest, totalTime, beginTime, endTime)
    }

    method AddAction(action: Action)
      modifies this`total, this`released, this`renewed, this`rebinded
      ensures total == old(total) + 1
      ensures released == old(released) + if action.Release? then 1 else 0
      ensures renewed == old(renewed) + if action.Renew? then 1 else 0
      ensures rebinded == old(rebinded) + if action.Rebind? then 1 else 0
    {
      total := total + 1;
      match action {
        case Release => released := released + 1;
        case Rebind => rebinded := rebinded + 1;
        case Renew => renewed := renewed + 1;
        case DORA =>
      }
    }

    method AddOutcome(r: DialResult, completeTime: int)
      requires completeTime == r.Taken()
      modifies this`failed, this`success, this`lessThanSecond, this`longest, this`shortest
      ensures failed == old(failed) + if r.ok then 0 else 1
      ensures success == old(success) + if r.Dialed() then 1 else 0
      ensures lessThanSecond == old(lessThanSecond) + if r.Dialed() && r.Taken() < SECOND then 1 else 0
      ensures longest == if r.Dialed() then Max(r.Taken(), old(longest)) else old(longest)
      ensures shortest == if r.Dialed() then Min(r.Taken(), old(shortest)) else old(shortest)
    {
      if !r.ok {
        failed := failed + 1;
      } else if r.action == DORA {
        success := success + 1;
        if completeTime < SECOND { lessThanSecond := lessThanSecond + 1; }
        if completeTime > longest { longest := completeTime; }
        if completeTime < shortest { shortest := completeTime; }
      }
    }

    /** One round of the collector's loop. */
    method Add(r: DialResult, begin0: int, end0: int) returns (beginTime: int, endTime: int)
      modifies this
      ensures AsTally(beginTime, endTime) == Observe(old(AsTally(begin0, end0)), r)
    {
      beginTime, endTime := begin0, end0;
      var completeTime := Sub(r.finish, r.start);
      if r.finish > endTime { endTime := r.finish; }
      if completeTime < 0 { completeTime := 0; }
      if r.start < beginTime { beginTime := r.start; }
      AddAction(r.action);
      AddOutcome(r, completeTime);
      totalTime := Sub(endTime, beginTime);
      if shortest == MAX_DURATION { shortest := 0; }
    }

    /** collectResults, over everything the channel delivers until it is closed. */
    method CollectResults(results: seq<DialResult>, begin0: int, end0: int) returns (beginTime: int, endTime: int)
      modifies this
      ensures AsTally(beginTime, endTime) == TallyAll(old(AsTally(begin0, end0)), results)
    {
      beginTime, endTime := begin0, end0;
      for i := 0 to |results|
        invariant AsTally(beginTime, endTime) == TallyAll(old(AsTally(begin0, end0)), results[..i])
      {
        assert results[..i + 1][..i] == results[..i];
        beginTime, endTime := Add(results[i], beginTime, endTime);
      }
      assert results[..|results|] == results;
    }
  }

  // ---- what the counters count ----

  function Count(p: DialResult -> bool, s: seq<DialResult>): nat {
    if s == [] then 0 else Count(p, s[..|s| - 1]) + if p(s[|s| - 1]) then 1 else 0
  }

  lemma CountOne(p: DialResult -> bool, r: DialResult)
    ensures Count(p, [r]) == if p(r) then 1 else 0
  {
    assert [r][..0] == [];
  }

  lemma {:induction false} CountConcat(p: DialResult -> bool, a: seq<DialResult>, b: seq<DialResult>)
    ensures Count(p, a + b) == Count(p, a) + Count(p, b)
    decreases |b|
  {
    if b == [] {
      assert a + b == a;
    } else {
      assert (a + b)[..|a + b| - 1] == a + b[..|b| - 1];
      CountConcat(p, a, b[..|b| - 1]);
    }
  }

  /** Each counter counts its results; Released, Renewed and Rebinded count failed attempts too. */
  lemma {:induction false} Counters(b: int, e: int, s: seq<DialResult>)
    ensures var t := TallyAll(Start(b, e), s);
      && t.total == |s|
      && t.success == Count((r: DialResult) => r.Dialed(), s)
      && t.failed == Count((r: DialResult) => !r.ok, s)
      && t.released == Count((r: DialResult) => r.action.Release?, s)
      && t.renewed == Count((r: DialResult) => r.action.Renew?, s)
      && t.rebinded == Count((r: DialResult) => r.action.Rebind?, s)
      && t.lessThanSecond == Count((r: DialResult) => r.Dialed() && r.Taken() < 1_000_000_000, s)
  {
    if s == [] {
    } else {
      Counters(b, e, s[..|s| - 1]);
    }
  }

  /** Nothing is lost: every result is a successful dial, a failed dial or one of the other actions. */
  lemma {:induction false} Conservation(b: int, e: int, s: seq<DialResult>)
    ensures var t := TallyAll(Start(b, e), s);
      && t.total == t.success + Count((r: DialResult) => r.action.DORA? && !r.ok, s)
                    + t.released + t.renewed + t.rebinded
      && t.lessThanSecond <= t.success
      && t.success + t.failed <= t.total
  {
    if s == [] {
    } else {
      Conservation(b, e, s[..|s| - 1]);
    }
  }

  /** Longest is the longest successful dial, and 0 without one. */
  lemma {:induction false} LongestExact(b: int, e: int, s: seq<DialResult>)
    ensures var t := TallyAll(Start(b, e), s);
      && t.longest >= 0
      && (forall k :: 0 <= k < |s| && s[k].Dialed() ==> s[k].Taken() <= t.longest)
      && (t.longest > 0 ==> exists k :: 0 <= k < |s| && s[k].Dialed() && s[k].Taken() == t.longest)
  {
    if s == [] {
    } else {
      var front, r := s[..|s| - 1], s[|s| - 1];
      LongestExact(b, e, front);
      var t := TallyAll(Start(b, e), front);
      if r.Dialed() && r.Taken() > t.longest {
        assert s[|s| - 1].Taken() == TallyAll(Start(b, e), s).longest;
      } else if t.longest > 0 {
        var k :| 0 <= k < |front| && front[k].Dialed() && front[k].Taken() == t.longest;
        assert s[k] == front[k];
      }
      assert forall k :: 0 <= k < |front| ==> s[k] == front[k];
    }
  }

  /** beginTime and endTime are the earliest start and the latest finish, or the initial sentinels. */
  lemma {:induction false} SpanExact(b: int, e: int, s: seq<DialResult>)
    ensures var t := TallyAll(Start(b, e), s);
      && (forall k :: 0 <= k < |s| ==> t.beginTime <= s[k].start && s[k].finish <= t.endTime)
      && t.beginTime <= b && e <= t.endTime
      && (t.beginTime == b || exists k :: 0 <= k < |s| && s[k].start == t.beginTime)
      && (t.endTime == e || exists k :: 0 <= k < |s| && s[k].finish == t.endTime)
      && (s != [] ==> t.totalTime == Sub(t.endTime, t.beginTime))
  {
    if s == [] {
    } else {
      var n := |s| - 1;
      var front := s[..n];
      SpanExact(b, e, front);
      var t, t' := TallyAll(Start(b, e), front), TallyAll(Start(b, e), s);
      assert forall k :: 0 <= k < n ==> s[k] == front[k];
      if t'.beginTime != t.beginTime { assert s[n].start == t'.beginTime; }
      if t'.endTime != t.endTime { assert s[n].finish == t'.endTime; }
    }
  }

  // ---- independence of the order ----

  /** The summary without the one field that depends on the order. */
  function OrderFree(t: Tally): Tally { t.(shortest := 0) }

  lemma ObserveCommutes(t: Tally, x: DialResult, y: DialResult)
    ensures OrderFree(Observe(Observe(t, x), y)) == OrderFree(Observe(Observe(t, y), x))
  {}

  lemma ObserveOrderFree(t: Tally, t': Tally, r: DialResult)
    requires OrderFree(t) == OrderFree(t')
    ensures OrderFree(Observe(t, r)) == OrderFree(Observe(t', r))
  {}

  /** A result may as well have come last. */
  lemma {:induction false} MoveToEnd(t: Tally, s: seq<DialResult>, i: nat)
    requires i < |s|
    ensures OrderFree(TallyAll(t, s)) == OrderFree(Observe(TallyAll(t, s[..i] + s[i + 1..]), s[i]))
  {
    var n := |s| - 1;
    if i < n {
      var front, y := s[..n], s[n];
      MoveToEnd(t, front, i);
      var rest := front[..i] + front[i + 1..];
      assert s[..i] + s[i + 1..] == rest + [y];
      assert (rest + [y])[..|rest|] == rest;
      ObserveOrderFree(TallyAll(t, front), Observe(TallyAll(t, rest), s[i]), y);
      ObserveCommutes(TallyAll(t, rest), s[i], y);
    } else {
      assert s[..i] + s[i + 1..] == s[..n];
    }
  }

  lemma RemoveOne<T>(s: seq<T>, i: nat)
    requires i < |s|
    ensures multiset(s) == multiset(s[..i] + s[i + 1..]) + multiset{s[i]}
  {
    assert s == s[..i] + [s[i]] + s[i + 1..];
  }

  lemma CancelOne<T>(a: multiset<T>, b: multiset<T>, x: T)
    requires a + multiset{x} == b + multiset{x}
    ensures a == b
  {
    assert a == a + multiset{x} - multiset{x};
  }

  /** The summary, Shortest apart, does not depend on the order in which results arrive. */
  lemma {:induction false} OrderIndependent(t: Tally, a: seq<DialResult>, b: seq<DialResult>)
    requires multiset(a) == multiset(b)
    ensures OrderFree(TallyAll(t, a)) == OrderFree(TallyAll(t, b))
  {
    if a == [] {
      assert |b| == |multiset(b)| == |multiset(a)| == 0;
    } else {
      var n := |a| - 1;
      assert a == a[..n] + [a[n]];
      assert a[n] in multiset(b);
      var i :| 0 <= i < |b| && b[i] == a[n];
      RemoveOne(b, i);
      CancelOne(multiset(a[..n]), multiset(b[..i] + b[i + 1..]), a[n]);
      OrderIndependent(t, a[..n], b[..i] + b[i + 1..]);
      MoveToEnd(t, b, i);
      ObserveOrderFree(TallyAll(t, a[..n]), TallyAll(t, b[..i] + b[i + 1..]), a[n]);
    }
  }

  /**
   The exact value of Shortest: the shortest successful dial when the very first result is a successful
   dial below the maximum duration, and 0 otherwise, whatever comes later.
   */
  lemma {:induction false} ShortestExact(b: int, e: int, s: seq<DialResult>)
    requires s != []
    ensures var shortest := TallyAll(Start(b, e), s).shortest;
      if s[0].Dialed() && s[0].Taken() < MAX_DURATION then
        && 0 <= shortest < MAX_DURATION
        && (forall k :: 0 <= k < |s| && s[k].Dialed() ==> shortest <= s[k].Taken())
        && exists k :: 0 <= k < |s| && s[k].Dialed() && shortest == s[k].Taken()
      else shortest == 0
  {
    var n := |s| - 1;
    var front := s[..n];
    if front == [] {
      assert TallyAll(Start(b, e), front) == Start(b, e);
    } else {
      ShortestExact(b, e, front);
      assert forall k :: 0 <= k < n ==> s[k] == front[k];
      var lower := s[n].Dialed() && s[n].Taken() < TallyAll(Start(b, e), front).shortest;
      if s[0].Dialed() && s[0].Taken() < MAX_DURATION && !lower {
        var k :| 0 <= k < |front| && front[k].Dialed() && TallyAll(Start(b, e), front).shortest == front[k].Taken();
        assert s[k].Dialed();
      }
    }
  }

  /** Shortest does depend on the order: a failure that arrives first sets it to 0 for good. */
  lemma ShortestDependsOnOrder(b: int, e: int)
    ensures var good, bad := DialResult(0, false, DORA, true, 0, 5), DialResult(1, false, DORA, false, 0, 5);
      TallyAll(Start(b, e), [good, bad]).shortest == 5 && TallyAll(Start(b, e), [bad, good]).shortest == 0
  {
    var good, bad := DialResult(0, false, DORA, true, 0, 5), DialResult(1, false, DORA, false, 0, 5);
    assert [good, bad][..1] == [good] && [bad, good][..1] == [bad];
    assert [good][..0] == [] && [bad][..0] == [];
    assert TallyAll(Start(b, e), [good]) == Observe(Start(b, e), good);
    assert TallyAll(Start(b, e), [bad]) == Observe(Start(b, e), bad);
  }

  // ---- the same in times themselves ----

  /** A difference of times is kept when it fits a duration, and clamped to the nearer bound otherwise. */
  lemma SubExact(a: int, b: int)
    ensures MIN_DURATION <= a - b <= MAX_DURATION ==> Sub(a, b) == a - b
    ensures a - b > MAX_DURATION ==> Sub(a, b) == MAX_DURATION
    ensures a - b < MIN_DURATION ==> Sub(a, b) == MIN_DURATION
  {}

  /** The result's times are no farther apart than a duration can say. */
  predicate Measurable(r: DialResult) { MIN_DURATION <= r.finish - r.start <= MAX_DURATION }

  ghost predicate AllMeasurable(s: seq<DialResult>) { forall k :: 0 <= k < |s| && s[k].Dialed() ==> Measurable(s[k]) }

  lemma TakenExact(r: DialResult)
    ensures Measurable(r) ==> r.Taken() == if r.finish < r.start then 0 else r.finish - r.start
    ensures r.finish - r.start > MAX_DURATION ==> r.Taken() == MAX_DURATION
    ensures r.finish <= r.start ==> r.Taken() == 0
  {
    SubExact(r.finish, r.start);
  }

  lemma AllTakenExact(s: seq<DialResult>)
    requires AllMeasurable(s)
    ensures forall k :: 0 <= k < |s| && s[k].Dialed() ==>
      s[k].Taken() == if s[k].finish < s[k].start then 0 else s[k].finish - s[k].start
  {
    forall k | 0 <= k < |s| && s[k].Dialed()
      ensures s[k].Taken() == if s[k].finish < s[k].start then 0 else s[k].finish - s[k].start
    {
      TakenExact(s[k]);
    }
  }

  /** Longest is the greatest finish - start of the successful dials, and 0 without a positive one. */
  lemma LongestElapsed(b: int, e: int, s: seq<DialResult>)
    requires AllMeasurable(s)
    ensures var longest := TallyAll(Start(b, e), s).longest;
      && longest >= 0
      && (forall k :: 0 <= k < |s| && s[k].Dialed() ==> s[k].finish - s[k].start <= longest)
      && (longest > 0 ==> exists k :: 0 <= k < |s| && s[k].Dialed() && s[k].finish - s[k].start == longest)
  {
    LongestExact(b, e, s);
    AllTakenExact(s);
  }

  /**
   Shortest is the least of max(0, finish - start) over the successful dials when the first result is one below
   the maximum duration, and 0 otherwise.
   */
  lemma ShortestElapsed(b: int, e: int, s: seq<DialResult>)
    requires s != [] && AllMeasurable(s)
    ensures var shortest := TallyAll(Start(b, e), s).shortest;
      if s[0].ok && s[0].action == DORA && s[0].finish - s[0].start < MAX_DURATION then
        && 0 <= shortest
        && (forall k :: 0 <= k < |s| && s[k].ok && s[k].action == DORA ==>
             shortest <= if s[k].finish < s[k].start then 0 else s[k].finish - s[k].start)
        && exists k :: 0 <= k < |s| && s[k].ok && s[k].action == DORA
             && shortest == if s[k].finish < s[k].start then 0 else s[k].finish - s[k].start
      else shortest == 0
  {
    ShortestExact(b, e, s);
    AllTakenExact(s);
  }

  /** TotalTime is the latest finish minus the earliest start, when some lie beyond the sentinels and it fits. */
  lemma SpanElapsed(b: int, e: int, s: seq<DialResult>, first: nat, last: nat)
    requires first < |s| && last < |s| && s[first].start <= b && e <= s[last].finish
    requires forall k :: 0 <= k < |s| ==> s[first].start <= s[k].start && s[k].finish <= s[last].finish
    ensures var elapsed := s[last].finish - s[first].start;
      TallyAll(Start(b, e), s).totalTime ==
        if elapsed > MAX_DURATION then MAX_DURATION else if elapsed < MIN_DURATION then MIN_DURATION else elapsed
  {
    SpanExact(b, e, s);
    SubExact(s[last].finish, s[first].start);
  }
}
