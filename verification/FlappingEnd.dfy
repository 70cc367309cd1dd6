/**
 How flapping ends: after a cancellation it comes to its end within a bounded number of steps, unless leases
 are saved, when a dial can jam.
 */
module FlappingEnd {
  import opened Wrappers
  import opened Sums
  import opened Summary
  import opened Dialing
  import opened Flapping
  import opened FlappingProof

  // ---- termination ----

  function FlapRank(f: Flapper): int {
    match f.at
    case NotFlapping => 3
    case Drop4 => 4
    case Drop6 => 4
    case Redialing => 3 + Rank(f.client)
    case Ending => 1
    case Ended => 0
    case _ => 2
  }

  function EndRank(s: FlapState): nat {
    s.queued + (if s.collecting then 1 else 0)
    + match s.main case Starting => 2 case AwaitCollector => 1 case Finished => 0
  }

  /** What is left to do once the context has been cancelled. */
  function TotalRank(s: FlapState): int { Sum(FlapRank, s.flappers) + EndRank(s) }

  lemma RedialLowers(cfg: Config, i: nat, f: Flapper, x: ClientStep)
    requires FlapperOk(cfg, i, f) && f.at.Redialing? && Ready(f.client, x)
    ensures FlapRank(AfterMove(cfg, i, f, x)) + |Sends(i, f.client, x)| < FlapRank(f)
  {
    StepLowersRank(cfg, i, f.client, x);
    var c := Moved(cfg, i, f.client, x);
    assert Rank(c) >= 0;
  }

  lemma SendLowers(s: FlapState, i: nat, f: Flapper, sends: seq<DialResult>)
    requires i < |s.flappers| && FlapRank(f) + |sends| < FlapRank(s.flappers[i])
    ensures TotalRank(Send(s, i, f, sends)) < TotalRank(s)
  {
    SumUpdate(FlapRank, s.flappers, i, f);
  }

  /** Neither releasing nor dialing. */
  predicate Between(f: Flapper) { !AtDrop(f) && !f.at.Redialing? }

  /** A release or a part of a dial of flapper i. */
  predicate Works(a: FlapStep, i: nat) { (a.Drop? || a.Redial?) && a.i == i }

  lemma StopIsHeeded(cfg: Config, s: FlapState, a: FlapStep, i: nat)
    requires s.stopped && Enabled(s, a) && i < |s.flappers| && Between(s.flappers[i])
    ensures !Works(a, i) && Next(cfg, s, a).stopped
    ensures i < |Next(cfg, s, a).flappers| && Between(Next(cfg, s, a).flappers[i])
  {}

  /** After a cancellation no flapper begins another release or another dial, in any run. */
  lemma {:induction false} NoWorkAfterStop(cfg: Config, s: FlapState, steps: seq<FlapStep>, t: FlapState, i: nat)
    requires s.stopped && Path(cfg, s, steps, t) && i < |s.flappers| && Between(s.flappers[i])
    ensures forall j :: 0 <= j < |steps| ==> !Works(steps[j], i)
    ensures i < |t.flappers| && Between(t.flappers[i])
    decreases |steps|
  {
    if steps == [] {
    } else {
      StopIsHeeded(cfg, s, steps[0], i);
      NoWorkAfterStop(cfg, Next(cfg, s, steps[0]), steps[1..], t, i);
    }
  }

  /** No flapper is releasing or dialing. */
  ghost predicate AllBetween(s: FlapState) { forall i :: 0 <= i < |s.flappers| ==> Between(s.flappers[i]) }

  lemma IdleStep(cfg: Config, s: FlapState, a: FlapStep)
    requires s.stopped && Enabled(s, a) && AllBetween(s)
    ensures Next(cfg, s, a).stopped && AllBetween(Next(cfg, s, a)) && Next(cfg, s, a).log == s.log
  {
    assert |Next(cfg, s, a).flappers| == |s.flappers|;
    forall i | 0 <= i < |s.flappers| ensures !Works(a, i) && Between(Next(cfg, s, a).flappers[i]) {
      StopIsHeeded(cfg, s, a, i);
    }
  }

  /** Flapping that is cancelled while nobody releases or dials reports nothing more. */
  lemma {:induction false} NothingAfterStop(cfg: Config, s: FlapState, steps: seq<FlapStep>, t: FlapState)
    requires s.stopped && AllBetween(s) && Path(cfg, s, steps, t)
    ensures t.log == s.log
    decreases |steps|
  {
    if steps == [] {
    } else {
      IdleStep(cfg, s, steps[0]);
      NothingAfterStop(cfg, Next(cfg, s, steps[0]), steps[1..], t);
    }
  }

  /** After a cancellation every step brings the end closer. */
  lemma StepLowers(cfg: Config, s: FlapState, a: FlapStep)
    requires Inv(cfg, s) && s.stopped && Enabled(s, a) && !Fatal(cfg, s, a)
    ensures TotalRank(Next(cfg, s, a)) < TotalRank(s) && Next(cfg, s, a).stopped
  {
    match a
    case StartFlapper(i) => SendLowers(s, i, s.flappers[i].(at := Check1), []);
    case Check(i) => SendLowers(s, i, AfterCheck(s.flappers[i], true), []);
    case Drop(i, ok, start, finish) =>
      var f := s.flappers[i];
      SendLowers(s, i, AfterDrop(f), if Holds(f, DropStack(f)) then [DropResult(i, f, ok, start, finish)] else []);
    case Redial(i, x) =>
      RedialLowers(cfg, i, s.flappers[i], x);
      SendLowers(s, i, AfterMove(cfg, i, s.flappers[i], x), Sends(i, s.flappers[i].client, x));
    case EndFlapper(i) => SendLowers(s, i, s.flappers[i].(at := Ended), []);
    case _ =>
  }

  lemma {:induction false} PathLowers(cfg: Config, s: FlapState, steps: seq<FlapStep>, t: FlapState)
    requires Inv(cfg, s) && Safe(cfg, s) && s.stopped && Path(cfg, s, steps, t)
    ensures Inv(cfg, t) && t.stopped && |steps| + TotalRank(t) <= TotalRank(s)
    decreases |steps|
  {
    if steps == [] {
    } else {
      SafeStaysSafe(cfg, s, steps[0]);
      StepKeeps(cfg, s, steps[0]);
      StepLowers(cfg, s, steps[0]);
      PathLowers(cfg, Next(cfg, s, steps[0]), steps[1..], t);
    }
  }

  lemma RankIsBounded(cfg: Config, s: FlapState)
    requires Inv(cfg, s)
    ensures 0 <= TotalRank(s) <= 22 * |s.flappers| + RESULT_CAPACITY + 3
  {
    forall i | 0 <= i < |s.flappers| ensures 0 <= FlapRank(s.flappers[i]) <= 22 {}
    SumWithin(s.flappers);
  }

  lemma {:induction false} SumWithin(fs: seq<Flapper>)
    requires forall k :: 0 <= k < |fs| ==> 0 <= FlapRank(fs[k]) <= 22
    ensures 0 <= Sum(FlapRank, fs) <= 22 * |fs|
  {
    if fs == [] {
    } else {
      SumWithin(fs[1..]);
    }
  }

  // ---- progress ----

  function SavedCount(s: FlapState, k: Stack): nat { if k.V4? then s.saved4 else s.saved6 }

  /** The flapper is about to save a lease in a queue that is full and that nobody reads any more. */
  predicate JammedAt(s: FlapState, i: nat, k: Stack) {
    && i < |s.flappers| && s.flappers[i].at.Redialing? && s.flappers[i].client.DialOf(k).Saving?
    && SavedCount(s, k) >= SAVE_CAPACITY
  }

  ghost predicate Jammed(s: FlapState) { exists i, k :: JammedAt(s, i, k) }

  /** The server's answer to a stack: out to the chosen one, no to the other. */
  function Reply(w: Stack, out: Outcome, k: Stack): Outcome { if k == w then out else Refused }

  /** A redialing client can move as long as results are accepted, unless it is jammed. */
  lemma RedialMovesOn(cfg: Config, s: FlapState, i: nat, w: Stack, out: Outcome) returns (x: ClientStep)
    requires i < |s.flappers| && s.flappers[i].at.Redialing? && FlapperOk(cfg, i, s.flappers[i])
    requires !JammedAt(s, i, V4) && !JammedAt(s, i, V6) && !s.panicked && s.queued < RESULT_CAPACITY
    ensures Enabled(s, Redial(i, x)) && (x.GetAnswer? ==> x.out == Reply(w, out, x.k))
  {
    var c := s.flappers[i].client;
    if c.pc.First? || c.pc.Second? {
      x := LaunchStack(0);
    } else if c.pc.Returning? {
      x := Leave;
    } else if c.sub == 0 {
      x := Join;
    } else {
      var k := if c.d4.Alive() then V4 else V6;
      x := match c.DialOf(k)
        case Requesting(_) => GetAnswer(k, Reply(w, out, k))
        case Saving(_, _) => Save(k)
        case Reporting(_, _, _) => Report(k, 0)
        case _ => SubDone(k);
    }
  }

  /** The step belongs to flapper i, and its exchanges end as given. */
  predicate OwnStep(i: nat, w: Stack, out: Outcome, a: FlapStep) {
    match a
    case StartFlapper(j) => j == i
    case Check(j) => j == i
    case Drop(j, _, _, _) => j == i
    case EndFlapper(j) => j == i
    case Redial(j, x) => j == i && (x.GetAnswer? ==> x.out == Reply(w, out, x.k))
    case _ => false
  }

  lemma FlapperMoves(cfg: Config, s: FlapState, i: nat, w: Stack, out: Outcome) returns (a: FlapStep)
    requires Inv(cfg, s) && s.main.Starting? && s.queued < RESULT_CAPACITY
    requires i < |s.flappers| && !s.flappers[i].at.Ended? && !JammedAt(s, i, V4) && !JammedAt(s, i, V6)
    ensures Enabled(s, a) && OwnStep(i, w, out, a)
  {
    var f := s.flappers[i];
    if f.at.NotFlapping? {
      a := StartFlapper(i);
    } else if AtCheck(f) {
      a := Check(i);
    } else if AtDrop(f) {
      a := Drop(i, true, 0, 0);
    } else if f.at.Redialing? {
      var x := RedialMovesOn(cfg, s, i, w, out);
      a := Redial(i, x);
    } else {
      a := EndFlapper(i);
    }
  }

  /** Deadlock freedom: short of its end some goroutine can move, unless a dial is jammed. */
  lemma SomeStep(cfg: Config, s: FlapState) returns (a: FlapStep)
    requires Inv(cfg, s) && !s.main.Finished? && !Jammed(s)
    ensures Enabled(s, a) && !a.Stop?
  {
    if s.collecting && s.queued > 0 {
      a := CollectOne;
    } else if s.main.AwaitCollector? {
      a := if s.collecting then CollectorEnds else AwaitEnd;
    } else if AllEnded(s) {
      SumConstant(Flaps, s.flappers, 0);
      a := CloseChannel;
    } else {
      var i :| 0 <= i < |s.flappers| && !s.flappers[i].at.Ended?;
      a := FlapperMoves(cfg, s, i, V4, Refused);
    }
  }

  /** Only a run that saves leases can jam. */
  lemma NeverJammed(cfg: Config, s: FlapState)
    requires Inv(cfg, s) && !cfg.saveLease
    ensures !Jammed(s)
  {}

  lemma JamStays(cfg: Config, s: FlapState, i: nat, k: Stack, a: FlapStep)
    requires Inv(cfg, s) && JammedAt(s, i, k) && Enabled(s, a)
    ensures JammedAt(Next(cfg, s, a), i, k)
  {
    if a.Redial? && a.i == i { JammedMove(cfg, i, s.flappers[i], k, a.x); }
  }

  lemma JammedMove(cfg: Config, i: nat, f: Flapper, k: Stack, x: ClientStep)
    requires ClientOk(cfg, i, f.client) && f.client.DialOf(k).Saving? && Ready(f.client, x) && !(x.Save? && x.k == k)
    requires f.at.Redialing?
    ensures var g := AfterMove(cfg, i, f, x); g.at.Redialing? && g.client.DialOf(k).Saving?
  {}

  /** Once a dial is jammed no cancellation helps: flapping never ends. */
  lemma {:induction false} JamIsForEver(cfg: Config, s: FlapState, steps: seq<FlapStep>, t: FlapState, i: nat, k: Stack)
    requires Inv(cfg, s) && JammedAt(s, i, k) && Path(cfg, s, steps, t)
    ensures JammedAt(t, i, k) && !t.closed && !t.main.Finished?
    decreases |steps|
  {
    if steps == [] {
    } else {
      StepKeeps(cfg, s, steps[0]);
      JamStays(cfg, s, i, k, steps[0]);
      if Fatal(cfg, s, steps[0]) {
        PanicIsLast(cfg, Next(cfg, s, steps[0]), steps[1..], t);
      } else {
        JamIsForEver(cfg, Next(cfg, s, steps[0]), steps[1..], t, i, k);
      }
    }
  }

  ghost predicate Stuck(s: FlapState) { forall a :: !Enabled(s, a) }

  /**
   How flapping ends, with every enabled stack leased at its start, delays that can be drawn and DHCPv6 answers
   that carry what the program looks into: after a cancellation at most 22 steps a client and 1027 more are
   taken, and then `run` has returned, unless a dial is jammed; and no dial can be when leases are not saved.
   */
  lemma FlappingEnds(cfg: Config, s: FlapState, before: seq<FlapStep>, t: FlapState, after: seq<FlapStep>, u: FlapState)
    requires Begins(cfg, s) && Safe(cfg, s)
    requires Path(cfg, s, before, t) && t.stopped && Path(cfg, t, after, u)
    ensures |after| <= 22 * |s.flappers| + RESULT_CAPACITY + 3
    ensures Stuck(u) ==> (u.main.Finished? <==> !Jammed(u))
    ensures u.main.Finished? ==> u.closed && AllEnded(u) && !u.collecting && u.queued == 0
    ensures !cfg.saveLease ==> !Jammed(u)
  {
    BeginsInOrder(cfg, s);
    FlappingKeeps(cfg, s, before, t);
    PathLowers(cfg, t, after, u);
    FlappingKeeps(cfg, t, after, u);
    RankIsBounded(cfg, t);
    RankIsBounded(cfg, u);
    if Jammed(u) {
      var i, k :| JammedAt(u, i, k);
      JamIsForEver(cfg, u, [], u, i, k);
    } else if Stuck(u) && !u.main.Finished? {
      var a := SomeStep(cfg, u);
    }
    if !cfg.saveLease { NeverJammed(cfg, u); }
  }

  /** The successful dials of a stack that have been reported. */
  function Succeeded(log: seq<DialResult>, k: Stack): nat {
    if log == [] then 0
    else Succeeded(log[..|log| - 1], k)
         + if log[|log| - 1].Dialed() && log[|log| - 1].isV6 == k.V6? then 1 else 0
  }

  /** Whether the client has saved a lease of the stack and not yet reported it. */
  function Unreported(k: Stack): Flapper -> int {
    (f: Flapper) => if f.at.Redialing? && f.client.DialOf(k).Reporting? && f.client.DialOf(k).ok then 1 else 0
  }

  /** Every success has gone through the save queue. */
  predicate Balanced(s: FlapState, k: Stack, base: int) {
    Succeeded(s.log, k) + Sum(Unreported(k), s.flappers) == SavedCount(s, k) + base
  }

  lemma SucceededSends(log: seq<DialResult>, sends: seq<DialResult>, k: Stack)
    requires |sends| <= 1
    ensures Succeeded(log + sends, k) == Succeeded(log, k) + Succeeded(sends, k)
  {
    if sends == [] { assert log + sends == log; } else { assert (log + sends)[..|log|] == log && sends[..0] == []; }
  }

  /** What a client sends, saves and still has to report. */
  lemma SendBalances(s: FlapState, i: nat, f: Flapper, sends: seq<DialResult>, saves: int, k: Stack, base: int)
    requires i < |s.flappers| && Balanced(s, k, base) && |sends| <= 1
    requires Succeeded(sends, k) + Unreported(k)(f) == saves + Unreported(k)(s.flappers[i])
    ensures Succeeded(s.log + sends, k) + Sum(Unreported(k), s.flappers[i := f]) == SavedCount(s, k) + saves + base
  {
    SumUpdate(Unreported(k), s.flappers, i, f);
    SucceededSends(s.log, sends, k);
  }

  lemma RedialBalances(cfg: Config, i: nat, f: Flapper, x: ClientStep, k: Stack)
    requires cfg.saveLease && FlapperOk(cfg, i, f) && f.at.Redialing? && Ready(f.client, x)
    ensures |Sends(i, f.client, x)| <= 1
    ensures Succeeded(Sends(i, f.client, x), k) + Unreported(k)(AfterMove(cfg, i, f, x))
      == |Stores(i, f.client, x, k)| + Unreported(k)(f)
  {
    if x.Report? { assert Sends(i, f.client, x)[..0] == []; }
  }

  lemma ReleaseIsNoSuccess(r: DialResult, k: Stack)
    requires r.action == Release
    ensures Succeeded([r], k) == 0
  {
    assert [r][..0] == [];
  }

  lemma DropBalances(s: FlapState, i: nat, r: DialResult, k: Stack, base: int)
    requires i < |s.flappers| && AtDrop(s.flappers[i]) && r.action == Release && Balanced(s, k, base)
    ensures Balanced(DropNext(s, i, r), k, base)
  {
    var f := s.flappers[i];
    ReleaseIsNoSuccess(r, k);
    if !Holds(f, DropStack(f)) {
      SendBalances(s, i, AfterDrop(f), [], 0, k, base);
    } else if CanRelease(f, DropStack(f)) {
      SendBalances(s, i, AfterDrop(f), [r], 0, k, base);
    }
  }

  lemma RedialStepBalances(cfg: Config, s: FlapState, i: nat, x: ClientStep, k: Stack, base: int)
    requires Inv(cfg, s) && cfg.saveLease && Enabled(s, Redial(i, x)) && Balanced(s, k, base)
    ensures Balanced(Next(cfg, s, Redial(i, x)), k, base)
  {
    var f := s.flappers[i];
    RedialBalances(cfg, i, f, x, k);
    SendBalances(s, i, AfterMove(cfg, i, f, x), Sends(i, f.client, x), |Stores(i, f.client, x, k)|, k, base);
  }

  lemma StepBalances(cfg: Config, s: FlapState, a: FlapStep, k: Stack, base: int)
    requires Inv(cfg, s) && cfg.saveLease && Enabled(s, a) && Balanced(s, k, base)
    ensures Balanced(Next(cfg, s, a), k, base)
  {
    match a
    case StartFlapper(i) => SendBalances(s, i, s.flappers[i].(at := Check1), [], 0, k, base);
    case Check(i) =>
      if !NoDelay(cfg, s, i) { SendBalances(s, i, AfterCheck(s.flappers[i], s.stopped), [], 0, k, base); }
    case Drop(i, ok, start, finish) => DropBalances(s, i, DropResult(i, s.flappers[i], ok, start, finish), k, base);
    case Redial(i, x) => RedialStepBalances(cfg, s, i, x, k, base);
    case EndFlapper(i) => SendBalances(s, i, s.flappers[i].(at := Ended), [], 0, k, base);
    case _ =>
  }

  lemma QueueStaysBounded(cfg: Config, s: FlapState, a: FlapStep, k: Stack)
    requires Enabled(s, a) && SavedCount(s, k) <= SAVE_CAPACITY
    ensures SavedCount(Next(cfg, s, a), k) <= SAVE_CAPACITY
  {}

  lemma {:induction false} PathBalances(cfg: Config, s: FlapState, steps: seq<FlapStep>, t: FlapState,
                                        k: Stack, base: int)
    requires Inv(cfg, s) && cfg.saveLease && Path(cfg, s, steps, t)
    requires Balanced(s, k, base) && SavedCount(s, k) <= SAVE_CAPACITY
    ensures Balanced(t, k, base) && SavedCount(t, k) <= SAVE_CAPACITY
    decreases |steps|
  {
    if steps == [] {
    } else {
      var next := Next(cfg, s, steps[0]);
      StepBalances(cfg, s, steps[0], k, base);
      QueueStaysBounded(cfg, s, steps[0], k);
      StepKeeps(cfg, s, steps[0]);
      if Fatal(cfg, s, steps[0]) {
        PanicIsLast(cfg, next, steps[1..], t);
      } else {
        PathBalances(cfg, next, steps[1..], t, k, base);
      }
    }
  }

  /**
   While leases are saved, flapping dials of a stack succeed at most eight times in all, less the leases
   that the saver left in the queue; after that every lease that is won jams its client.
   */
  lemma FewRedialsSucceed(cfg: Config, s: FlapState, steps: seq<FlapStep>, t: FlapState, k: Stack)
    requires Begins(cfg, s) && cfg.saveLease && Path(cfg, s, steps, t)
    requires SavedCount(s, k) <= SAVE_CAPACITY
    ensures Succeeded(t.log, k) - Succeeded(s.log, k) <= 8 - SavedCount(s, k)
  {
    BeginsInOrder(cfg, s);
    SumConstant(Unreported(k), s.flappers, 0);
    var base := Succeeded(s.log, k) - SavedCount(s, k);
    PathBalances(cfg, s, steps, t, k, base);
    forall j | 0 <= j < |t.flappers| ensures Unreported(k)(t.flappers[j]) >= 0 {}
    SumNonNegative(Unreported(k), t.flappers);
  }
}
