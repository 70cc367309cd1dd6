/**
 When flapping can go wrong, and when it cannot: exactly which beginnings lead to a jammed dial, and exactly
 which to a panic. One flapper is driven there, with the answers of the server chosen for it.
 */
module FlappingWitness {
  import opened Wrappers
  import opened Sums
  import opened Summary
  import opened Dialing
  import opened Flapping
  import opened FlappingProof
  import opened FlappingEnd

  lemma PathCons(cfg: Config, s: FlapState, a: FlapStep, steps: seq<FlapStep>, t: FlapState)
    requires Enabled(s, a) && Path(cfg, Next(cfg, s, a), steps, t)
    ensures Path(cfg, s, [a] + steps, t)
  {
    assert ([a] + steps)[1..] == steps;
  }

  // ---- driving one flapper ----

  /** Flapper i is somewhere in its loop, and the context is not cancelled. */
  predicate Loops(s: FlapState, i: nat) {
    && !s.stopped && s.main.Starting? && i < |s.flappers|
    && !s.flappers[i].at.Ending? && !s.flappers[i].at.Ended?
  }

  /** A step of flapper i, or a collected result where there is one. */
  lemma DriveStep(cfg: Config, s: FlapState, i: nat, w: Stack, out: Outcome) returns (a: FlapStep)
    requires Inv(cfg, s) && Loops(s, i) && !JammedAt(s, i, V4) && !JammedAt(s, i, V6)
    ensures Enabled(s, a) && if s.queued > 0 then a.CollectOne? else OwnStep(i, w, out, a)
  {
    if s.queued > 0 {
      a := CollectOne;
    } else {
      a := FlapperMoves(cfg, s, i, w, out);
    }
  }

  lemma LoopsOn(cfg: Config, s: FlapState, i: nat, w: Stack, out: Outcome, a: FlapStep)
    requires Loops(s, i) && Enabled(s, a) && (a.CollectOne? || OwnStep(i, w, out, a))
    ensures Loops(Next(cfg, s, a), i) && Next(cfg, s, a).flappers[i].other == s.flappers[i].other
  {}

  /** Where in the loop a flapper is: how far from dialing again. */
  function Lap(at: FlapPosition): nat {
    match at
    case NotFlapping => 10
    case Check1 => 9
    case Check2 => 8
    case Drop4 => 7
    case Check3 => 6
    case Drop6 => 5
    case Check4 => 4
    case Check5 => 3
    case _ => 2
  }

  /** One round of the loop, and what is left of a dial before and after a certain point of it. */
  function ToPoint(f: Flapper, before: bool): int {
    if !f.at.Redialing? then 20 + Lap(f.at) else if before then Rank(f.client) else 40 + Rank(f.client)
  }

  lemma RankRange(c: Client)
    ensures 0 <= Rank(c) <= 19 && Rank(Anew(c)) == 18
  {}

  // ---- to a jam ----

  /** The dial of the stack has not yet handed over its lease. */
  predicate BeforeSave(f: Flapper, k: Stack) {
    f.client.DialOf(k).Idle? || f.client.DialOf(k).Requesting? || f.client.DialOf(k).Saving?
  }

  /** All its releases can be made, also those of leases it will yet get of stack k. */
  predicate Releasable(f: Flapper, k: Stack) {
    !HoldsBare(f) && k in f.other && forall l :: Holds(f, l) ==> l in f.other
  }

  predicate HoldsBare(f: Flapper) { f.client.held4 == Bare || f.client.held6 == Bare }

  const WON := Leased(7, false)

  lemma RedialStaysReleasable(cfg: Config, i: nat, f: Flapper, k: Stack, x: ClientStep)
    requires Releasable(f, k) && Ready(f.client, x) && (x.GetAnswer? ==> x.out == Reply(k, WON, x.k))
    ensures Releasable(AfterMove(cfg, i, f, x), k) && !Breaks(cfg, x)
  {}

  lemma StaysReleasable(cfg: Config, s: FlapState, i: nat, k: Stack, a: FlapStep)
    requires Loops(s, i) && Enabled(s, a) && (a.CollectOne? || OwnStep(i, k, WON, a)) && cfg.flapSpread > 0
    requires Releasable(s.flappers[i], k)
    ensures !Fatal(cfg, s, a) && i < |Next(cfg, s, a).flappers| && Releasable(Next(cfg, s, a).flappers[i], k)
  {
    if a.Redial? { RedialStaysReleasable(cfg, i, s.flappers[i], k, a.x); }
  }

  /** A dial that is over has passed the point. */
  lemma OverIsAfter(cfg: Config, i: nat, f: Flapper, k: Stack)
    requires FlapperOk(cfg, i, f) && f.at.Redialing? && f.client.pc.Returning? && cfg.Enables(k)
    ensures !BeforeSave(f, k)
  {}

  lemma RedialNears(cfg: Config, i: nat, f: Flapper, x: ClientStep, k: Stack)
    requires FlapperOk(cfg, i, f) && f.at.Redialing? && Ready(f.client, x) && cfg.Enables(k) && cfg.saveLease
    requires x.GetAnswer? ==> x.out == Reply(k, WON, x.k)
    requires !(x.Save? && x.k == k)
    ensures var g := AfterMove(cfg, i, f, x);
      0 <= ToPoint(g, BeforeSave(g, k)) < ToPoint(f, BeforeSave(f, k)) && |Sends(i, f.client, x)| <= 1
  {
    StepLowersRank(cfg, i, f.client, x);
    RankRange(Moved(cfg, i, f.client, x));
    if x.Leave? { OverIsAfter(cfg, i, f, k); }
  }

  lemma CheckNears(f: Flapper, b: bool, b': bool)
    requires AtCheck(f) && (f.at.Check5? ==> b')
    ensures 0 <= ToPoint(AfterCheck(f, false), b') < ToPoint(f, b)
  {
    RankRange(f.client);
  }

  function JamRank(s: FlapState, i: nat, k: Stack): int
    requires i < |s.flappers|
  {
    2 * ToPoint(s.flappers[i], BeforeSave(s.flappers[i], k)) + s.queued
  }

  function FreePlaces(s: FlapState, k: Stack): nat {
    if SavedCount(s, k) >= SAVE_CAPACITY then 0 else SAVE_CAPACITY - SavedCount(s, k)
  }

  /** A lease is saved: one place less. */
  lemma SaveFillsPlace(cfg: Config, s: FlapState, i: nat, k: Stack)
    requires i < |s.flappers| && Enabled(s, Redial(i, Save(k)))
    ensures FreePlaces(Next(cfg, s, Redial(i, Save(k))), k) < FreePlaces(s, k)
  {}

  /** Any other step of a dial comes closer to that. */
  lemma RedialNearsSave(cfg: Config, s: FlapState, i: nat, k: Stack, x: ClientStep)
    requires Inv(cfg, s) && Enabled(s, Redial(i, x)) && cfg.saveLease && cfg.Enables(k)
    requires s.queued == 0 && (x.GetAnswer? ==> x.out == Reply(k, WON, x.k)) && !(x.Save? && x.k == k)
    ensures var t := Next(cfg, s, Redial(i, x));
      FreePlaces(t, k) == FreePlaces(s, k) && 0 <= JamRank(t, i, k) < JamRank(s, i, k)
  {
    RedialNears(cfg, i, s.flappers[i], x, k);
  }

  lemma LapNearsSave(cfg: Config, s: FlapState, i: nat, k: Stack, a: FlapStep)
    requires Loops(s, i) && Enabled(s, a) && !a.Redial? && !Fatal(cfg, s, a)
    requires if s.queued > 0 then a.CollectOne? else OwnStep(i, k, WON, a)
    ensures var t := Next(cfg, s, a);
      && i < |t.flappers| && FreePlaces(t, k) == FreePlaces(s, k) && 0 <= JamRank(t, i, k) < JamRank(s, i, k)
  {
    var f := s.flappers[i];
    RankRange(f.client);
    if a.Check? { CheckNears(f, BeforeSave(f, k), BeforeSave(AfterCheck(f, false), k)); }
  }

  lemma NearsSave(cfg: Config, s: FlapState, i: nat, k: Stack, a: FlapStep)
    requires Inv(cfg, s) && Loops(s, i) && Enabled(s, a) && cfg.saveLease && cfg.Enables(k)
    requires if s.queued > 0 then a.CollectOne? else OwnStep(i, k, WON, a)
    requires !Fatal(cfg, s, a)
    ensures var t := Next(cfg, s, a);
      && i < |t.flappers| && (FreePlaces(t, k) < FreePlaces(s, k)
         || (FreePlaces(t, k) == FreePlaces(s, k) && 0 <= JamRank(t, i, k) < JamRank(s, i, k)))
  {
    if !a.Redial? {
      LapNearsSave(cfg, s, i, k, a);
    } else if a.x.Save? && a.x.k == k {
      SaveFillsPlace(cfg, s, i, k);
    } else {
      RedialNearsSave(cfg, s, i, k, a.x);
    }
  }

  lemma {:induction false} DriveToJam(cfg: Config, s: FlapState, i: nat, k: Stack)
      returns (steps: seq<FlapStep>, t: FlapState)
    requires Inv(cfg, s) && Loops(s, i) && Releasable(s.flappers[i], k)
    requires cfg.saveLease && cfg.Enables(k) && cfg.flapSpread > 0
    ensures Path(cfg, s, steps, t) && Jammed(t) && !t.panicked
    decreases FreePlaces(s, k), JamRank(s, i, k)
  {
    if JammedAt(s, i, V4) || JammedAt(s, i, V6) {
      return [], s;
    }
    var a := DriveStep(cfg, s, i, k, WON);
    StaysReleasable(cfg, s, i, k, a);
    StepKeeps(cfg, s, a);
    LoopsOn(cfg, s, i, k, WON, a);
    NearsSave(cfg, s, i, k, a);
    steps, t := DriveToJam(cfg, Next(cfg, s, a), i, k);
    PathCons(cfg, s, a, steps, t);
    steps := [a] + steps;
  }

  ghost predicate CanJam(cfg: Config, s: FlapState) {
    exists steps, t :: Path(cfg, s, steps, t) && !t.panicked && Jammed(t)
  }

  /** It never dials again: it panics first, in its first sleep or its first bare release. */
  predicate Grounded(cfg: Config, f: Flapper) {
    && !f.at.Redialing? && !f.at.Check4? && !f.at.Check5?
    && (if cfg.flapSpread == 0 then f.at.NotFlapping? || f.at.Check1? || f.at.Ending? || f.at.Ended?
        else f.client.held6 == Bare)
  }

  ghost predicate AllGrounded(cfg: Config, s: FlapState) {
    forall i :: 0 <= i < |s.flappers| ==> Grounded(cfg, s.flappers[i])
  }

  /** What a step can make of a flapper that does not dial. */
  predicate MovesTo(s: FlapState, f: Flapper, g: Flapper) {
    || g == f
    || (f.at.NotFlapping? && g == f.(at := Check1))
    || (f.at.Ending? && g == f.(at := Ended))
    || (AtCheck(f) && g == AfterCheck(f, s.stopped))
    || (AtDrop(f) && g == AfterDrop(f))
  }

  lemma NextFlapper(cfg: Config, s: FlapState, a: FlapStep, i: nat)
    requires Enabled(s, a) && i < |s.flappers| && !s.flappers[i].at.Redialing?
    ensures i < |Next(cfg, s, a).flappers| && MovesTo(s, s.flappers[i], Next(cfg, s, a).flappers[i])
  {}

  /** It can pass neither a sleep without delays nor a bad release. */
  lemma StaysGrounded(cfg: Config, s: FlapState, a: FlapStep, i: nat)
    requires Enabled(s, a) && !Fatal(cfg, s, a) && i < |s.flappers| && Grounded(cfg, s.flappers[i])
    ensures i < |Next(cfg, s, a).flappers| && Grounded(cfg, Next(cfg, s, a).flappers[i])
  {
    NextFlapper(cfg, s, a, i);
    var f, g := s.flappers[i], Next(cfg, s, a).flappers[i];
    if g != f && (f.at.Check1? || AtDrop(f)) {
      assert (a.Check? || a.Drop?) && a.i == i;
    }
  }

  lemma GroundedStays(cfg: Config, s: FlapState, a: FlapStep)
    requires Enabled(s, a) && !Fatal(cfg, s, a) && AllGrounded(cfg, s)
    ensures AllGrounded(cfg, Next(cfg, s, a))
  {
    forall i | 0 <= i < |s.flappers| ensures Grounded(cfg, Next(cfg, s, a).flappers[i]) { StaysGrounded(cfg, s, a, i); }
  }

  lemma {:induction false} GroundedNeverJam(cfg: Config, s: FlapState, steps: seq<FlapStep>, t: FlapState)
    requires Inv(cfg, s) && AllGrounded(cfg, s) && Path(cfg, s, steps, t) && !t.panicked
    ensures !Jammed(t)
    decreases |steps|
  {
    if steps == [] {
      forall i: nat, k ensures !JammedAt(t, i, k) { if i < |s.flappers| { assert Grounded(cfg, s.flappers[i]); } }
    } else {
      StepKeeps(cfg, s, steps[0]);
      assert !Fatal(cfg, s, steps[0]);
      GroundedStays(cfg, s, steps[0]);
      GroundedNeverJam(cfg, Next(cfg, s, steps[0]), steps[1..], t);
    }
  }

  lemma BareIsGrounded(cfg: Config, s: FlapState)
    requires Begins(cfg, s)
    requires cfg.flapSpread == 0 || forall i :: 0 <= i < |s.flappers| ==> HoldsBare(s.flappers[i])
    ensures AllGrounded(cfg, s)
  {
    forall i | 0 <= i < |s.flappers| ensures Grounded(cfg, s.flappers[i]) {
      assert BeginsAt(cfg, s.log, i, s.flappers[i]);
      assert LeaseOk(cfg, s.flappers[i].client, V4);
    }
  }

  /** What a jam needs, from any beginning. */
  lemma JamNeeds(cfg: Config, s: FlapState)
    requires Begins(cfg, s) && CanJam(cfg, s)
    ensures cfg.saveLease && cfg.Dials() && cfg.flapSpread > 0
    ensures exists i :: 0 <= i < |s.flappers| && !HoldsBare(s.flappers[i])
  {
    var steps, t :| Path(cfg, s, steps, t) && !t.panicked && Jammed(t);
    BeginsInOrder(cfg, s);
    PathKeeps(cfg, s, steps, t);
    assert Unpanicked(t) == t;
    if !cfg.saveLease { NeverJammed(cfg, t); }
    var i: nat, k :| JammedAt(t, i, k);
    SavingIsDialed(cfg, i, t.flappers[i], k);
    if cfg.flapSpread == 0 || forall i :: 0 <= i < |s.flappers| ==> HoldsBare(s.flappers[i]) {
      BareIsGrounded(cfg, s);
      GroundedNeverJam(cfg, s, steps, t);
    }
  }

  lemma SavingIsDialed(cfg: Config, i: nat, f: Flapper, k: Stack)
    requires FlapperOk(cfg, i, f) && f.at.Redialing? && f.client.DialOf(k).Saving?
    ensures cfg.Enables(k)
  {}

  /** One client whose lease can be released is enough. */
  lemma OneCanJam(cfg: Config, s: FlapState, i: nat, k: Stack)
    requires Begins(cfg, s) && !s.stopped && i < |s.flappers| && Releasable(s.flappers[i], k)
    requires cfg.saveLease && cfg.Enables(k) && cfg.flapSpread > 0
    ensures CanJam(cfg, s)
  {
    BeginsInOrder(cfg, s);
    assert BeginsAt(cfg, s.log, i, s.flappers[i]);
    var steps, t := DriveToJam(cfg, s, i, k);
  }

  /**
   Flapping that begins with all stacks leased can jam exactly when leases are saved, delays can be drawn and
   some client holds no bare lease: otherwise the program goes down before any client dials again.
   */
  lemma JamsIffSaving(cfg: Config, s: FlapState)
    requires Begins(cfg, s) && AllLeased(cfg, s) && !s.stopped && cfg.Dials()
    ensures CanJam(cfg, s) <==>
      cfg.saveLease && cfg.flapSpread > 0 && exists i :: 0 <= i < |s.flappers| && !HoldsBare(s.flappers[i])
  {
    if i: nat :| i < |s.flappers| && !HoldsBare(s.flappers[i]) && cfg.saveLease && cfg.flapSpread > 0 {
      assert BeginsAt(cfg, s.log, i, s.flappers[i]);
      var k := if cfg.enable4 then V4 else V6;
      assert cfg.Enables(k) && k in s.flappers[i].other;
      OneCanJam(cfg, s, i, k);
    } else if CanJam(cfg, s) {
      JamNeeds(cfg, s);
    }
  }

  // ---- to a panic ----

  /** Its next release of the stack cannot be made. */
  predicate Armed(f: Flapper, k: Stack) { Holds(f, k) && !CanRelease(f, k) }

  /** Such answers to the stack lead to a panic: a lease that arms the flapper, or a broken answer. */
  predicate Aims(cfg: Config, f: Flapper, k: Stack, out: Outcome) {
    cfg.Enables(k) &&
    (if out == Broken then k.V6? && !cfg.complete
     else out == BARE && (k !in f.other || (k.V6? && !cfg.conforming)))
  }

  /** It has no lease to save. */
  predicate Calm(f: Flapper) { f.at.Redialing? ==> !f.client.d4.Saving? && !f.client.d6.Saving? }

  /** A lease that is not saved, because it could not be applied, from a Reply without ids. */
  const BARE := NotApplied(true)

  predicate BeforeAnswer(f: Flapper, k: Stack) { f.client.DialOf(k).Idle? || f.client.DialOf(k).Requesting? }

  /** Up to the release of the stack; one that has just been passed comes a round later. */
  function ToDrop(f: Flapper, k: Stack): int {
    if f.at.Redialing? then 20 + Rank(f.client)
    else if Lap(f.at) >= (if k.V4? then 7 else 5) then Lap(f.at)
    else 60 + Lap(f.at)
  }

  function ToPanic(f: Flapper, k: Stack): int {
    if Armed(f, k) then ToDrop(f, k) else 100 + ToPoint(f, BeforeAnswer(f, k))
  }

  function PanicRank(s: FlapState, i: nat, k: Stack): int
    requires i < |s.flappers|
  {
    2 * ToPanic(s.flappers[i], k) + s.queued
  }

  lemma StaysCalm(cfg: Config, i: nat, f: Flapper, x: ClientStep, k: Stack, out: Outcome)
    requires Calm(f) && f.at.Redialing? && Ready(f.client, x) && (out == BARE || out == Broken)
    requires x.GetAnswer? ==> x.out == Reply(k, out, x.k)
    ensures Calm(AfterMove(cfg, i, f, x))
  {}

  lemma StaysArmed(cfg: Config, i: nat, f: Flapper, x: ClientStep, k: Stack, out: Outcome)
    requires Aims(cfg, f, k, out) && f.at.Redialing? && Ready(f.client, x) && !Breaks(cfg, x)
    requires x.GetAnswer? ==> x.out == Reply(k, out, x.k)
    ensures Armed(f, k) || (x.GetAnswer? && x.k == k) ==> Armed(AfterMove(cfg, i, f, x), k)
    ensures !Armed(f, k) && !(x.GetAnswer? && x.k == k) ==> !Armed(AfterMove(cfg, i, f, x), k)
  {}

  lemma AnsweredIsAfter(cfg: Config, i: nat, f: Flapper, k: Stack)
    requires FlapperOk(cfg, i, f) && f.at.Redialing? && f.client.pc.Returning? && cfg.Enables(k)
    ensures !BeforeAnswer(f, k)
  {}

  lemma RedialNearsPanic(cfg: Config, i: nat, f: Flapper, x: ClientStep, k: Stack, out: Outcome)
    requires FlapperOk(cfg, i, f) && f.at.Redialing? && Ready(f.client, x) && Aims(cfg, f, k, out)
    requires !Breaks(cfg, x)
    requires x.GetAnswer? ==> x.out == Reply(k, out, x.k)
    ensures 0 <= ToPanic(AfterMove(cfg, i, f, x), k) < ToPanic(f, k) && |Sends(i, f.client, x)| <= 1
  {
    StepLowersRank(cfg, i, f.client, x);
    RankRange(f.client);
    RankRange(Moved(cfg, i, f.client, x));
    StaysArmed(cfg, i, f, x, k, out);
    if x.Leave? { AnsweredIsAfter(cfg, i, f, k); }
  }

  lemma LapNearsPanic(f: Flapper, g: Flapper, k: Stack)
    requires !f.at.Redialing? && !f.at.Ended? && !f.at.Ending? && g.other == f.other
    requires g.client == f.client || g.client == Anew(f.client)
    requires if g.at.Redialing? then f.at.Check5? && g.client == Anew(f.client) else Lap(g.at) == Lap(f.at) - 1
    requires Armed(f, k) ==> !(f.at.Drop4? && k.V4?) && !(f.at.Drop6? && k.V6?)
    ensures 0 <= ToPanic(g, k) < ToPanic(f, k)
  {
    RankRange(f.client);
    RankRange(g.client);
  }

  lemma NearsPanic(cfg: Config, s: FlapState, i: nat, k: Stack, out: Outcome, a: FlapStep)
    requires Inv(cfg, s) && Loops(s, i) && Enabled(s, a) && Aims(cfg, s.flappers[i], k, out)
    requires if s.queued > 0 then a.CollectOne? else OwnStep(i, k, out, a)
    requires !Fatal(cfg, s, a)
    ensures var t := Next(cfg, s, a); i < |t.flappers| && 0 <= PanicRank(t, i, k) < PanicRank(s, i, k)
  {
    var f := s.flappers[i];
    RankRange(f.client);
    match a
    case Check(_) => LapNearsPanic(f, AfterCheck(f, false), k);
    case Drop(_, _, _, _) => LapNearsPanic(f, AfterDrop(f), k);
    case StartFlapper(_) => LapNearsPanic(f, f.(at := Check1), k);
    case Redial(_, x) => RedialNearsPanic(cfg, i, f, x, k, out);
    case _ =>
  }

  lemma CalmDrive(cfg: Config, s: FlapState, i: nat, k: Stack, out: Outcome, a: FlapStep)
    requires Loops(s, i) && Enabled(s, a) && (a.CollectOne? || OwnStep(i, k, out, a)) && Calm(s.flappers[i])
    requires out == BARE || out == Broken
    ensures i < |Next(cfg, s, a).flappers| && Calm(Next(cfg, s, a).flappers[i])
  {
    if a.Redial? { StaysCalm(cfg, i, s.flappers[i], a.x, k, out); }
  }

  lemma {:induction false} DriveToPanic(cfg: Config, s: FlapState, i: nat, k: Stack, out: Outcome)
      returns (steps: seq<FlapStep>, t: FlapState)
    requires Inv(cfg, s) && Loops(s, i) && Aims(cfg, s.flappers[i], k, out) && Calm(s.flappers[i])
    ensures Path(cfg, s, steps, t) && t.panicked
    decreases PanicRank(s, i, k)
  {
    var a := DriveStep(cfg, s, i, k, out);
    StepKeeps(cfg, s, a);
    if Fatal(cfg, s, a) {
      t := Next(cfg, s, a);
      PathCons(cfg, s, a, [], t);
      return [a] + [], t;
    }
    LoopsOn(cfg, s, i, k, out, a);
    CalmDrive(cfg, s, i, k, out, a);
    NearsPanic(cfg, s, i, k, out, a);
    steps, t := DriveToPanic(cfg, Next(cfg, s, a), i, k, out);
    PathCons(cfg, s, a, steps, t);
    steps := [a] + steps;
  }

  ghost predicate CanPanic(cfg: Config, s: FlapState) { exists steps, t :: Path(cfg, s, steps, t) && t.panicked }

  /** Without delays to draw the first flapper panics in its first sleep. */
  lemma NoDelayPanics(cfg: Config, s: FlapState)
    requires Begins(cfg, s) && !s.stopped && s.flappers != [] && cfg.flapSpread == 0
    ensures CanPanic(cfg, s)
  {
    assert BeginsAt(cfg, s.log, 0, s.flappers[0]);
    var t := Next(cfg, s, StartFlapper(0));
    var u := Next(cfg, t, Check(0));
    PathCons(cfg, t, Check(0), [], u);
    PathCons(cfg, s, StartFlapper(0), [Check(0)] + [], u);
  }

  lemma AimPanics(cfg: Config, s: FlapState, i: nat, k: Stack, out: Outcome)
    requires Begins(cfg, s) && !s.stopped && i < |s.flappers| && Aims(cfg, s.flappers[i], k, out)
    ensures CanPanic(cfg, s)
  {
    BeginsInOrder(cfg, s);
    assert BeginsAt(cfg, s.log, i, s.flappers[i]);
    var steps, t := DriveToPanic(cfg, s, i, k, out);
  }

  /**
   Which beginnings can lead to a panic: exactly those with a client for which an enabled stack had not got its
   first lease, or no delay can be drawn, or a DHCPv6 answer may lack an IA or an id.
   */
  lemma PanicsIffUnsafe(cfg: Config, s: FlapState)
    requires Begins(cfg, s) && !s.stopped
    ensures CanPanic(cfg, s) <==> !Safe(cfg, s)
  {
    if Safe(cfg, s) {
      BeginsInOrder(cfg, s);
      forall steps, t | Path(cfg, s, steps, t) ensures !t.panicked { FlappingKeeps(cfg, s, steps, t); }
    } else if !AllLeased(cfg, s) {
      var i, k :| 0 <= i < |s.flappers| && cfg.Enables(k) && k !in s.flappers[i].other;
      AimPanics(cfg, s, i, k, BARE);
    } else if cfg.flapSpread == 0 {
      NoDelayPanics(cfg, s);
    } else {
      AimPanics(cfg, s, 0, V6, if cfg.complete then BARE else Broken);
    }
  }
}
