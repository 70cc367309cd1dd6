/** What every flapping run keeps: histories that alternate, and a channel closed only after the last send. */
module FlappingProof {
  import opened Wrappers
  import opened Sums
  import opened Summary
  import opened Dialing
  import opened Flapping

  // ---- histories ----

  lemma HistorySnoc(log: seq<DialResult>, r: DialResult, i: nat, k: Stack)
    ensures History(log + [r], i, k) == History(log, i, k) + if Concerns(r, i, k) then [r.action] else []
  {
    assert (log + [r])[..|log|] == log;
  }

  lemma HistorySends(log: seq<DialResult>, sends: seq<DialResult>, i: nat, j: nat, k: Stack)
    requires |sends| <= 1 && forall r :: r in sends ==> r.client == i
    ensures j != i ==> History(log + sends, j, k) == History(log, j, k)
    ensures sends == [] ==> History(log + sends, j, k) == History(log, j, k)
    ensures sends != [] ==>
      History(log + sends, i, k) == History(log, i, k) + if sends[0].isV6 == k.V6? then [sends[0].action] else []
  {
    if sends == [] {
      assert log + sends == log;
    } else {
      assert sends == [sends[0]];
      HistorySnoc(log, sends[0], i, k);
      HistorySnoc(log, sends[0], j, k);
    }
  }

  lemma AlternatesSnoc(h: seq<Action>, a: Action)
    requires Alternates(h) && a == if |h| % 2 == 0 then DORA else Release
    ensures Alternates(h + [a])
  {}

  // ---- one client ----

  /** What a client sends fits its history. */
  ghost predicate Fits(f: Flapper, f': Flapper, sends: seq<DialResult>, k: Stack) {
    k in f.other && f.at != Ending && f.at != Ended ==>
      if sends != [] && sends[0].isV6 == k.V6?
      then sends[0].action == (if Up(f, k) then Release else DORA)
           && (f'.at != Ending && f'.at != Ended ==> Up(f', k) == !Up(f, k))
      else f'.at != Ending && f'.at != Ended ==> Up(f', k) == Up(f, k)
  }

  lemma HistoryStep(f: Flapper, f': Flapper, h: seq<Action>, h': seq<Action>, sends: seq<DialResult>, k: Stack)
    requires HistoryOk(f, h, k) && f'.other == f.other && Fits(f, f', sends, k)
    requires h' == h + if sends != [] && sends[0].isV6 == k.V6? then [sends[0].action] else []
    requires f.at.Ending? || f.at.Ended? ==> sends == [] && (f'.at.Ending? || f'.at.Ended?)
    ensures HistoryOk(f', h', k)
  {
    if k in f.other && sends != [] && sends[0].isV6 == k.V6? {
      AlternatesSnoc(h, sends[0].action);
    }
  }

  /** A step of client i, taken by itself: its flapper stays in order and its sends fit. */
  ghost predicate GoodMove(cfg: Config, i: nat, f: Flapper, f': Flapper, sends: seq<DialResult>) {
    && FlapperOk(cfg, i, f')
    && f'.other == f.other
    && |sends| <= 1 && (forall r :: r in sends ==> r.client == i)
    && Fits(f, f', sends, V4) && Fits(f, f', sends, V6)
    && (f.at.Ending? || f.at.Ended? ==> sends == [] && (f'.at.Ending? || f'.at.Ended?))
  }

  lemma CheckMoves(cfg: Config, i: nat, f: Flapper, stopped: bool)
    requires FlapperOk(cfg, i, f) && AtCheck(f)
    ensures GoodMove(cfg, i, f, AfterCheck(f, stopped), [])
    ensures Flaps(f) == 1 == Flaps(AfterCheck(f, stopped))
  {}

  lemma DropMoves(cfg: Config, i: nat, f: Flapper, r: DialResult)
    requires FlapperOk(cfg, i, f) && AtDrop(f) && r.client == i && r.isV6 == f.at.Drop6? && r.action == Release
    ensures Holds(f, DropStack(f)) ==> GoodMove(cfg, i, f, AfterDrop(f), [r])
    ensures !Holds(f, DropStack(f)) ==> GoodMove(cfg, i, f, AfterDrop(f), [])
    ensures Flaps(f) == 1 == Flaps(AfterDrop(f))
  {}

  lemma StartMoves(cfg: Config, i: nat, f: Flapper)
    requires FlapperOk(cfg, i, f) && f.at.NotFlapping?
    ensures GoodMove(cfg, i, f, f.(at := Check1), [])
  {}

  lemma EndMoves(cfg: Config, i: nat, f: Flapper)
    requires FlapperOk(cfg, i, f) && f.at.Ending?
    ensures GoodMove(cfg, i, f, f.(at := Ended), [])
  {}

  lemma RedialStaysOk(cfg: Config, i: nat, f: Flapper, x: ClientStep)
    requires FlapperOk(cfg, i, f) && f.at.Redialing? && Ready(f.client, x)
    ensures FlapperOk(cfg, i, AfterMove(cfg, i, f, x))
    ensures Flaps(f) == 1 == Flaps(AfterMove(cfg, i, f, x))
    ensures x.SubDone? ==> f.client.sub > 0
  {
    StepProceeds(cfg, i, f.client, x);
    LeasesStay(cfg, i, f.client, x);
  }

  lemma LeasesStay(cfg: Config, i: nat, c: Client, x: ClientStep)
    requires Ready(c, x)
    ensures forall k :: c.HeldOf(k) != NoLease ==> Moved(cfg, i, c, x).HeldOf(k) != NoLease
  {}

  /** A dial reports a DORA and is up from then on; when dialAll returns both enabled stacks are up. */
  lemma RedialFits(cfg: Config, i: nat, f: Flapper, x: ClientStep, k: Stack)
    requires FlapperOk(cfg, i, f) && f.at.Redialing? && Ready(f.client, x)
    ensures Fits(f, AfterMove(cfg, i, f, x), Sends(i, f.client, x), k)
  {}

  lemma RedialMoves(cfg: Config, i: nat, f: Flapper, x: ClientStep)
    requires FlapperOk(cfg, i, f) && f.at.Redialing? && Ready(f.client, x)
    ensures GoodMove(cfg, i, f, AfterMove(cfg, i, f, x), Sends(i, f.client, x))
  {
    RedialStaysOk(cfg, i, f, x);
    RedialFits(cfg, i, f, x, V4);
    RedialFits(cfg, i, f, x, V6);
  }

  // ---- all clients ----

  lemma FlappersKept(cfg: Config, s: FlapState, i: nat, f: Flapper, sends: seq<DialResult>)
    requires FlappersOk(cfg, s.flappers, s.log) && i < |s.flappers| && GoodMove(cfg, i, s.flappers[i], f, sends)
    ensures FlappersOk(cfg, s.flappers[i := f], s.log + sends)
  {
    forall j | 0 <= j < |s.flappers|
      ensures HistoryOk(s.flappers[i := f][j], History(s.log + sends, j, V4), V4)
      ensures HistoryOk(s.flappers[i := f][j], History(s.log + sends, j, V6), V6)
      ensures FlapperOk(cfg, j, s.flappers[i := f][j])
    {
      HistorySends(s.log, sends, i, j, V4);
      HistorySends(s.log, sends, i, j, V6);
      if j == i {
        HistoryStep(s.flappers[i], f, History(s.log, i, V4), History(s.log + sends, i, V4), sends, V4);
        HistoryStep(s.flappers[i], f, History(s.log, i, V6), History(s.log + sends, i, V6), sends, V6);
      }
    }
  }

  lemma FlapsCounted(cfg: Config, s: FlapState, i: nat)
    requires Inv(cfg, s) && i < |s.flappers|
    ensures s.wg >= Flaps(s.flappers[i])
  {
    SumNonNegative(Flaps, s.flappers);
  }

  /** A client that sends keeps the invariant when there is room; only a closed channel could spoil it. */
  lemma SendKeeps(cfg: Config, s: FlapState, i: nat, f: Flapper, sends: seq<DialResult>)
    requires Inv(cfg, s) && i < |s.flappers| && Room(s, sends)
    requires GoodMove(cfg, i, s.flappers[i], f, sends) && Flaps(f) == Flaps(s.flappers[i]) == 1
    ensures Inv(cfg, Send(s, i, f, sends))
  {
    FlappersKept(cfg, s, i, f, sends);
    SumUpdate(Flaps, s.flappers, i, f);
    assert !s.flappers[i].at.Ended?;
  }

  lemma StartKeeps(cfg: Config, s: FlapState, i: nat)
    requires Inv(cfg, s) && Enabled(s, StartFlapper(i))
    ensures Inv(cfg, Next(cfg, s, StartFlapper(i)))
  {
    StartMoves(cfg, i, s.flappers[i]);
    FlappersKept(cfg, s, i, s.flappers[i].(at := Check1), []);
    SumUpdate(Flaps, s.flappers, i, s.flappers[i].(at := Check1));
  }

  lemma EndKeeps(cfg: Config, s: FlapState, i: nat)
    requires Inv(cfg, s) && Enabled(s, EndFlapper(i))
    ensures Inv(cfg, Next(cfg, s, EndFlapper(i)))
  {
    FlapsCounted(cfg, s, i);
    EndMoves(cfg, i, s.flappers[i]);
    FlappersKept(cfg, s, i, s.flappers[i].(at := Ended), []);
    SumUpdate(Flaps, s.flappers, i, s.flappers[i].(at := Ended));
  }

  lemma CloseKeeps(cfg: Config, s: FlapState)
    requires Inv(cfg, s) && Enabled(s, CloseChannel)
    ensures Inv(cfg, Next(cfg, s, CloseChannel))
  {
    forall i | 0 <= i < |s.flappers| ensures s.flappers[i].at.Ended? { FlapsCounted(cfg, s, i); }
  }

  lemma DropKeeps(cfg: Config, s: FlapState, i: nat, ok: bool, start: int, finish: int)
    requires Inv(cfg, s) && Enabled(s, Drop(i, ok, start, finish)) && !BadRelease(s, Drop(i, ok, start, finish))
    ensures Inv(cfg, Next(cfg, s, Drop(i, ok, start, finish)))
  {
    var f := s.flappers[i];
    var r := DropResult(i, f, ok, start, finish);
    DropMoves(cfg, i, f, r);
    SendKeeps(cfg, s, i, AfterDrop(f), if Holds(f, DropStack(f)) then [r] else []);
  }

  lemma RedialKeeps(cfg: Config, s: FlapState, i: nat, x: ClientStep)
    requires Inv(cfg, s) && Enabled(s, Redial(i, x))
    ensures Inv(cfg, Unpanicked(Next(cfg, s, Redial(i, x))))
    ensures Next(cfg, s, Redial(i, x)).panicked <==> Breaks(cfg, x)
  {
    var f := s.flappers[i];
    RedialMoves(cfg, i, f, x);
    RedialStaysOk(cfg, i, f, x);
    SendKeeps(cfg, s, i, AfterMove(cfg, i, f, x), Sends(i, f.client, x));
  }

  lemma CheckKeeps(cfg: Config, s: FlapState, i: nat)
    requires Inv(cfg, s) && Enabled(s, Check(i)) && !NoDelay(cfg, s, i)
    ensures Inv(cfg, Next(cfg, s, Check(i)))
  {
    CheckMoves(cfg, i, s.flappers[i], s.stopped);
    SendKeeps(cfg, s, i, AfterCheck(s.flappers[i], s.stopped), []);
  }

  lemma OthersKeep(cfg: Config, s: FlapState, a: FlapStep)
    requires Inv(cfg, s) && Enabled(s, a)
    requires a.Stop? || a.CollectOne? || a.CollectorEnds? || a.AwaitEnd?
    ensures Inv(cfg, Next(cfg, s, a))
  {}

  lemma FlappersKeep(cfg: Config, s: FlapState, a: FlapStep)
    requires Inv(cfg, s) && Enabled(s, a) && !a.Redial? && !Fatal(cfg, s, a)
    ensures Inv(cfg, Next(cfg, s, a))
  {
    match a
    case StartFlapper(i) => StartKeeps(cfg, s, i);
    case Check(i) => CheckKeeps(cfg, s, i);
    case Drop(i, ok, start, finish) => DropKeeps(cfg, s, i, ok, start, finish);
    case EndFlapper(i) => EndKeeps(cfg, s, i);
    case CloseChannel => CloseKeeps(cfg, s);
    case _ => OthersKeep(cfg, s, a);
  }

  lemma InvUnpanicked(cfg: Config, s: FlapState)
    requires Inv(cfg, s)
    ensures Unpanicked(s) == s && !s.panicked
  {}

  /** A step keeps the invariants, but for a panic; a panic is due to one of three things. */
  lemma StepKeeps(cfg: Config, s: FlapState, a: FlapStep)
    requires Inv(cfg, s) && Enabled(s, a)
    ensures Next(cfg, s, a).panicked <==> Fatal(cfg, s, a)
    ensures Inv(cfg, Unpanicked(Next(cfg, s, a)))
  {
    InvUnpanicked(cfg, s);
    if a.Redial? {
      RedialKeeps(cfg, s, a.i, a.x);
    } else if !Fatal(cfg, s, a) {
      FlappersKeep(cfg, s, a);
      InvUnpanicked(cfg, Next(cfg, s, a));
    }
  }

  /** Nothing happens after a panic. */
  lemma PanicIsLast(cfg: Config, s: FlapState, steps: seq<FlapStep>, t: FlapState)
    requires s.panicked && Path(cfg, s, steps, t)
    ensures steps == [] && t == s
  {}

  /** The invariants hold in every state flapping can reach, but for a panic. */
  lemma {:induction false} PathKeeps(cfg: Config, s: FlapState, steps: seq<FlapStep>, t: FlapState)
    requires Inv(cfg, s) && Path(cfg, s, steps, t)
    ensures Inv(cfg, Unpanicked(t))
    decreases |steps|
  {
    if steps == [] {
    } else {
      StepKeeps(cfg, s, steps[0]);
      if Fatal(cfg, s, steps[0]) {
        PanicIsLast(cfg, Next(cfg, s, steps[0]), steps[1..], t);
      } else {
        PathKeeps(cfg, Next(cfg, s, steps[0]), steps[1..], t);
      }
    }
  }

  // ---- what releases report ----

  /** A DHCPv6 release is reported as a success. */
  predicate Lenient(r: DialResult) { r.isV6 && r.action == Release ==> r.ok }

  /** A release of a held lease is logged with the times it took; a stack without a lease logs nothing. */
  lemma DropIsLogged(cfg: Config, s: FlapState, i: nat, ok: bool, start: int, finish: int)
    requires Enabled(s, Drop(i, ok, start, finish)) && !BadRelease(s, Drop(i, ok, start, finish))
    ensures var f, t := s.flappers[i], Next(cfg, s, Drop(i, ok, start, finish));
      t.log == s.log +
        if f.at.Drop4? && f.client.held4 != NoLease then [DialResult(i, false, Release, ok, start, finish)]
        else if f.at.Drop6? && f.client.held6 != NoLease then [DialResult(i, true, Release, true, start, finish)]
        else []
  {}

  lemma SendsAreLenient(cfg: Config, s: FlapState, a: FlapStep)
    requires Enabled(s, a) && forall r :: r in s.log ==> Lenient(r)
    ensures forall r :: r in Next(cfg, s, a).log ==> Lenient(r)
  {}

  /** Whatever becomes of a DHCPv6 release while flapping, it counts as a success. */
  lemma {:induction false} ReleasesReportSuccess(cfg: Config, s: FlapState, steps: seq<FlapStep>, t: FlapState)
    requires Path(cfg, s, steps, t) && forall r :: r in s.log ==> Lenient(r)
    ensures forall r :: r in t.log ==> Lenient(r)
    decreases |steps|
  {
    if steps == [] {
    } else {
      SendsAreLenient(cfg, s, steps[0]);
      ReleasesReportSuccess(cfg, Next(cfg, s, steps[0]), steps[1..], t);
    }
  }

  // ---- whole runs ----

  /** A client at the start: it has reported each lease it holds, and can release just these. */
  ghost predicate BeginsAt(cfg: Config, log: seq<DialResult>, i: nat, f: Flapper) {
    && f.at.NotFlapping? && LeasesOk(cfg, f.client)
    && forall k :: (k in f.other <==> Holds(f, k)) && (Holds(f, k) ==> History(log, i, k) == [DORA])
  }

  /** Flapping begins: the first dials are over, each has reported once, and the results are collected. */
  ghost predicate Begins(cfg: Config, s: FlapState) {
    && !s.panicked && s.main.Starting? && !s.closed && s.collecting && s.tg == 1 && s.wg == 0
    && s.queued <= RESULT_CAPACITY
    && forall i :: 0 <= i < |s.flappers| ==> BeginsAt(cfg, s.log, i, s.flappers[i])
  }

  /** Every enabled stack of every client got its lease before flapping began. */
  ghost predicate AllLeased(cfg: Config, s: FlapState) {
    forall i, k :: 0 <= i < |s.flappers| && cfg.Enables(k) ==> k in s.flappers[i].other
  }

  lemma FirstDora(f: Flapper, h: seq<Action>, k: Stack)
    requires f.at.NotFlapping? && (k in f.other ==> h == [DORA])
    ensures HistoryOk(f, h, k)
  {}

  lemma BeginsAtInOrder(cfg: Config, log: seq<DialResult>, i: nat, f: Flapper)
    requires BeginsAt(cfg, log, i, f)
    ensures FlapperOk(cfg, i, f) && Flaps(f) == 0
    ensures HistoryOk(f, History(log, i, V4), V4) && HistoryOk(f, History(log, i, V6), V6)
  {
    FirstDora(f, History(log, i, V4), V4);
    FirstDora(f, History(log, i, V6), V6);
  }

  lemma BeginsInOrder(cfg: Config, s: FlapState)
    requires Begins(cfg, s)
    ensures Inv(cfg, s)
  {
    forall i | 0 <= i < |s.flappers|
      ensures FlapperOk(cfg, i, s.flappers[i]) && Flaps(s.flappers[i]) == 0
      ensures HistoryOk(s.flappers[i], History(s.log, i, V4), V4)
      ensures HistoryOk(s.flappers[i], History(s.log, i, V6), V6)
    {
      BeginsAtInOrder(cfg, s.log, i, s.flappers[i]);
    }
    SumConstant(Flaps, s.flappers, 0);
  }

  /** And delays can be drawn, and no DHCPv6 answer breaks a dial or makes a lease that cannot be released. */
  ghost predicate Safe(cfg: Config, s: FlapState) {
    AllLeased(cfg, s) && (s.flappers != [] ==> SafeSetup(cfg))
  }

  predicate SafeSetup(cfg: Config) { cfg.flapSpread > 0 && (cfg.enable6 ==> cfg.conforming && cfg.complete) }

  lemma NothingBreaks(cfg: Config, i: nat, c: Client, x: ClientStep)
    requires ClientOk(cfg, i, c) && Ready(c, x) && (cfg.enable6 ==> cfg.complete)
    ensures !Breaks(cfg, x)
  {}

  lemma ReleasesAreGood(cfg: Config, s: FlapState, a: FlapStep)
    requires Inv(cfg, s) && Enabled(s, a) && Safe(cfg, s)
    ensures !BadRelease(s, a)
  {
    if a.Drop? {
      var f := s.flappers[a.i];
      assert LeaseOk(cfg, f.client, DropStack(f));
    }
  }

  lemma SafeStaysSafe(cfg: Config, s: FlapState, a: FlapStep)
    requires Inv(cfg, s) && Enabled(s, a) && Safe(cfg, s)
    ensures !Fatal(cfg, s, a) && Safe(cfg, Next(cfg, s, a))
  {
    ReleasesAreGood(cfg, s, a);
    if a.Redial? { NothingBreaks(cfg, a.i, s.flappers[a.i].client, a.x); }
  }

  lemma {:induction false} FlappingKeeps(cfg: Config, s: FlapState, steps: seq<FlapStep>, t: FlapState)
    requires Inv(cfg, s) && Safe(cfg, s) && Path(cfg, s, steps, t)
    ensures Inv(cfg, t) && Safe(cfg, t) && |t.flappers| == |s.flappers|
    decreases |steps|
  {
    if steps == [] {
    } else {
      SafeStaysSafe(cfg, s, steps[0]);
      StepKeeps(cfg, s, steps[0]);
      FlappingKeeps(cfg, Next(cfg, s, steps[0]), steps[1..], t);
    }
  }

  function Occurrences(h: seq<Action>, a: Action): nat {
    if h == [] then 0 else Occurrences(h[..|h| - 1], a) + if h[|h| - 1] == a then 1 else 0
  }

  lemma {:induction false} AlternatesBalance(h: seq<Action>)
    requires Alternates(h)
    ensures Occurrences(h, DORA) == Occurrences(h, Release) + |h| % 2
  {
    if h == [] {
    } else {
      AlternatesBalance(h[..|h| - 1]);
    }
  }

  /**
   When all enabled stacks were leased before flapping began, delays can be drawn, and DHCPv6 answers carry what
   the program looks into: whatever the scheduling and whenever the context is cancelled, the program does not
   panic, every stack's transactions alternate between DORA and release, starting with its first dial, and the
   channel is closed only after every flapper has returned.
   */
  lemma FlappingHistory(cfg: Config, s: FlapState, steps: seq<FlapStep>, t: FlapState, i: nat, k: Stack)
    requires Begins(cfg, s) && Safe(cfg, s) && Path(cfg, s, steps, t)
    requires i < |s.flappers| && cfg.Enables(k)
    ensures !t.panicked
    ensures Alternates(History(t.log, i, k))
    ensures var h := History(t.log, i, k); 0 <= Occurrences(h, DORA) - Occurrences(h, Release) <= 1
    ensures t.closed ==> AllEnded(t)
  {
    BeginsInOrder(cfg, s);
    FlappingKeeps(cfg, s, steps, t);
    AlternatesBalance(History(t.log, i, k));
  }
}
