/**
 Runs that do not end well, and for which configurations there are any: an interrupted run that hangs, and a
 finished run with a lease missing from the file.
 */
module RunWitness {
  import opened Wrappers
  import opened Sums
  import LeaseMerge
  import opened Summary
  import opened Dialing
  import opened RunProtocol
  import opened RunInvariant
  import opened RunLiveness
  import opened RunOutcome

  lemma {:induction false} PathConcat(cfg: Config, s: State, a: seq<Step>, t: State, b: seq<Step>, u: State)
    requires Path(cfg, s, a, t) && Path(cfg, t, b, u)
    ensures Path(cfg, s, a + b, u)
    decreases |a|
  {
    if a == [] {
      assert a + b == b;
    } else {
      PathConcat(cfg, Next(cfg, s, a[0]), a[1..], t, b, u);
      assert (a + b)[1..] == a[1..] + b;
    }
  }

  lemma OneStep(cfg: Config, s: State, a: Step)
    requires Enabled(cfg, s, a)
    ensures Path(cfg, s, [a], Next(cfg, s, a))
  {
    assert [a][1..] == [];
    assert Path(cfg, Next(cfg, s, a), [], Next(cfg, s, a));
  }

  // ---- calm runs ----

  /** No dial has a lease to save. */
  ghost predicate Settled(s: State) { forall i, k :: 0 <= i < |s.clients| ==> !s.clients[i].DialOf(k).Saving? }

  /** Where the leases are. */
  ghost predicate SameLeases(s: State, t: State) {
    && t.sav.q4 == s.sav.q4 && t.sav.q6 == s.sav.q6
    && |t.clients| == |s.clients|
    && forall i, k :: 0 <= i < |s.clients| ==> t.clients[i].HeldOf(k) == s.clients[i].HeldOf(k)
  }

  lemma CalmMove(cfg: Config, i: nat, c: Client, x: ClientStep)
    requires Ready(c, x) && !c.d4.Saving? && !c.d6.Saving? && (x.GetAnswer? ==> x.out == Refused)
    ensures var d := Moved(cfg, i, c, x);
      !d.d4.Saving? && !d.d6.Saving? && d.held4 == c.held4 && d.held6 == c.held6
    ensures Stores(i, c, x, V4) == [] == Stores(i, c, x, V6)
  {}

  lemma CalmMoveKeeps(cfg: Config, s: State, i: nat, x: ClientStep)
    requires ClientEnabled(s, i, x) && (x.GetAnswer? ==> x.out == Refused) && Settled(s)
    ensures Settled(ClientNext(cfg, s, i, x)) && SameLeases(s, ClientNext(cfg, s, i, x))
  {
    var c, t := s.clients[i], ClientNext(cfg, s, i, x);
    assert !c.DialOf(V4).Saving? && !c.DialOf(V6).Saving?;
    CalmMove(cfg, i, c, x);
    assert s.sav.q4 + [] == s.sav.q4 && s.sav.q6 + [] == s.sav.q6;
    forall j, k | 0 <= j < |s.clients|
      ensures !t.clients[j].DialOf(k).Saving? && t.clients[j].HeldOf(k) == s.clients[j].HeldOf(k)
    {
      assert !s.clients[j].DialOf(k).Saving?;
    }
  }

  lemma CalmKeeps(cfg: Config, s: State, a: Step)
    requires Enabled(cfg, s, a) && Calm(a) && Settled(s)
    ensures Settled(Next(cfg, s, a)) && SameLeases(s, Next(cfg, s, a))
    ensures Next(cfg, s, a).main.interrupted == s.main.interrupted
  {
    if a.ClientMove? {
      CalmMoveKeeps(cfg, s, a.i, a.x);
    } else if a.Spawn? {
      forall j, k | 0 <= j < |s.clients|
        ensures !Next(cfg, s, a).clients[j].DialOf(k).Saving?
        ensures Next(cfg, s, a).clients[j].HeldOf(k) == s.clients[j].HeldOf(k)
      {
        assert !s.clients[j].DialOf(k).Saving?;
      }
    }
  }

  /** From a settled state the run can go on to its end, or up to the close, with the leases left where they are. */
  lemma {:induction false} DriveTo(cfg: Config, s: State, goal: MainPosition) returns (steps: seq<Step>, t: State)
    requires Inv(cfg, s) && Settled(s) && (goal.Closing? || goal.Finished?)
    requires goal.Closing? ==> !s.main.at.AwaitCollector? && !s.main.at.Finished?
    ensures Path(cfg, s, steps, t) && Inv(cfg, t) && t.main.at == goal && SameLeases(s, t)
    ensures t.main.interrupted == s.main.interrupted
    decreases RunRank(cfg, s)
  {
    if s.main.at == goal {
      return [], s;
    }
    assert NoneFull(s) by { assert forall i, k :: 0 <= i < |s.clients| ==> !s.clients[i].DialOf(k).Saving?; }
    var a := CalmStep(cfg, s);
    StepKeeps(cfg, s, a);
    StepLowers(cfg, s, a);
    RankNonNegative(cfg, Next(cfg, s, a));
    CalmKeeps(cfg, s, a);
    steps, t := DriveTo(cfg, Next(cfg, s, a), goal);
    OneStep(cfg, s, a);
    PathConcat(cfg, s, [a], Next(cfg, s, a), steps, t);
    steps := [a] + steps;
  }

  // ---- dials that save their leases ----

  const LEASE := 7

  /** The stack that is dialed first. */
  function DialedFirst(cfg: Config): Stack
    requires cfg.Dials()
  {
    if cfg.Enables(cfg.FirstStack()) then cfg.FirstStack() else cfg.SecondStack()
  }

  /** A client whose first dial stands at d. */
  function StandsAt(cfg: Config, d: Dial, h: Held): Client
    requires cfg.Dials()
  {
    Client(if cfg.Enables(cfg.FirstStack()) then Second else Waiting, Idle, Idle, 1, NoLease, NoLease)
      .With(DialedFirst(cfg), d).Holding(DialedFirst(cfg), h)
  }

  function ToSave(cfg: Config): Client
    requires cfg.Dials()
  {
    StandsAt(cfg, Saving(0, LEASE), Usable)
  }

  function SavedClient(cfg: Config, i: nat): Client
    requires cfg.Dials()
  {
    StandsAt(cfg, Reporting(0, true, Some((i, LEASE))), Usable)
  }

  /** A step of client i that sends nothing. */
  lemma SilentMove(cfg: Config, s: State, i: nat, x: ClientStep)
    requires !s.panicked && i < |s.clients| && Ready(s.clients[i], x)
    requires x.LaunchStack? || (x.GetAnswer? && !x.out.Broken?)
    ensures Enabled(cfg, s, ClientMove(i, x))
    ensures Next(cfg, s, ClientMove(i, x)) == s.(clients := s.clients[i := Moved(cfg, i, s.clients[i], x)])
  {
    assert s.col.results + [] == s.col.results && s.sav.q4 + [] == s.sav.q4 && s.sav.q6 + [] == s.sav.q6;
  }

  lemma TakeSilent(cfg: Config, s: State, i: nat, x: ClientStep, c: Client) returns (t: State)
    requires !s.panicked && i < |s.clients| && Ready(s.clients[i], x) && Moved(cfg, i, s.clients[i], x) == c
    requires x.LaunchStack? || (x.GetAnswer? && !x.out.Broken?)
    ensures Path(cfg, s, [ClientMove(i, x)], t) && t == s.(clients := s.clients[i := c])
  {
    SilentMove(cfg, s, i, x);
    OneStep(cfg, s, ClientMove(i, x));
    t := Next(cfg, s, ClientMove(i, x));
  }

  /** dialAll up to its first dial. */
  lemma Launches(cfg: Config, s: State, i: nat) returns (steps: seq<Step>, t: State)
    requires cfg.Dials() && !s.panicked && i < |s.clients| && s.clients[i] == FRESH.(pc := First)
    ensures Path(cfg, s, steps, t) && t == s.(clients := s.clients[i := StandsAt(cfg, Requesting(0), NoLease)])
  {
    var x := LaunchStack(0);
    if cfg.Enables(cfg.FirstStack()) {
      t := TakeSilent(cfg, s, i, x, StandsAt(cfg, Requesting(0), NoLease));
      steps := [ClientMove(i, x)];
    } else {
      var m := TakeSilent(cfg, s, i, x, FRESH.(pc := Second));
      t := TakeSilent(cfg, m, i, x, StandsAt(cfg, Requesting(0), NoLease));
      PathConcat(cfg, s, [ClientMove(i, x)], m, [ClientMove(i, x)], t);
      steps := [ClientMove(i, x)] + [ClientMove(i, x)];
      assert m.clients[i := t.clients[i]] == s.clients[i := t.clients[i]];
    }
  }

  /** Client i is started, and its first dial gets a lease to save. */
  lemma GetsLease(cfg: Config, s: State, i: nat) returns (steps: seq<Step>, t: State)
    requires cfg.Dials() && cfg.saveLease && !s.panicked && s.main.at.Spawning?
    requires i < |s.clients| && s.clients[i] == FRESH
    ensures Path(cfg, s, steps, t) && t == s.(clients := s.clients[i := ToSave(cfg)], wg := s.wg + 1)
  {
    OneStep(cfg, s, Spawn(i));
    var s1 := Next(cfg, s, Spawn(i));
    var launches, s2 := Launches(cfg, s1, i);
    var x := GetAnswer(DialedFirst(cfg), Leased(LEASE, false));
    t := TakeSilent(cfg, s2, i, x, ToSave(cfg));
    PathConcat(cfg, s, [Spawn(i)], s1, launches, s2);
    PathConcat(cfg, s, [Spawn(i)] + launches, s2, [ClientMove(i, x)], t);
    steps := [Spawn(i)] + launches + [ClientMove(i, x)];
    assert s1.clients[i := ToSave(cfg)] == s.clients[i := ToSave(cfg)];
    assert s2.clients[i := ToSave(cfg)] == s1.clients[i := ToSave(cfg)];
  }

  /** The first i clients have saved their leases and not reported yet, nobody has merged any. */
  predicate Filled(cfg: Config, s: State, i: nat)
    requires cfg.Dials()
  {
    && !s.panicked && s.main.at.Spawning? && !s.main.closed && i <= |s.clients| == cfg.n
    && |s.sav.Queue(DialedFirst(cfg))| == i
    && forall j :: 0 <= j < |s.clients| ==> s.clients[j] == if j < i then SavedClient(cfg, j) else FRESH
  }

  lemma SavesLease(cfg: Config, s: State, i: nat) returns (t: State)
    requires cfg.Dials() && !s.panicked && i < |s.clients| && s.clients[i] == ToSave(cfg)
    requires |s.sav.Queue(DialedFirst(cfg))| < SAVE_CAPACITY
    ensures Path(cfg, s, [ClientMove(i, Save(DialedFirst(cfg)))], t)
    ensures !t.panicked && t.main == s.main && t.sav.thread == s.sav.thread
    ensures t.clients == s.clients[i := SavedClient(cfg, i)]
    ensures t.sav.Queue(DialedFirst(cfg)) == s.sav.Queue(DialedFirst(cfg)) + [(i, LEASE)]
  {
    var a := ClientMove(i, Save(DialedFirst(cfg)));
    OneStep(cfg, s, a);
    t := Next(cfg, s, a);
  }

  /** Client i gets a lease and saves it. */
  lemma FillOne(cfg: Config, s: State, i: nat) returns (steps: seq<Step>, t: State)
    requires cfg.Dials() && cfg.saveLease && Filled(cfg, s, i) && i < SAVE_CAPACITY && i < cfg.n
    ensures Path(cfg, s, steps, t) && Filled(cfg, t, i + 1)
    ensures t.main == s.main && t.sav.thread == s.sav.thread
  {
    var gets, m := GetsLease(cfg, s, i);
    t := SavesLease(cfg, m, i);
    steps := gets + [ClientMove(i, Save(DialedFirst(cfg)))];
    PathConcat(cfg, s, gets, m, [ClientMove(i, Save(DialedFirst(cfg)))], t);
  }

  lemma {:induction false} Fill(cfg: Config, s: State, i: nat, goal: nat) returns (steps: seq<Step>, t: State)
    requires cfg.Dials() && cfg.saveLease && Filled(cfg, s, i) && i <= goal <= SAVE_CAPACITY && goal <= cfg.n
    ensures Path(cfg, s, steps, t) && Filled(cfg, t, goal)
    ensures t.main == s.main && t.sav.thread == s.sav.thread
    decreases goal - i
  {
    if i == goal {
      return [], s;
    }
    var first, m := FillOne(cfg, s, i);
    var rest;
    rest, t := Fill(cfg, m, i + 1, goal);
    PathConcat(cfg, s, first, m, rest, t);
    steps := first + rest;
  }

  // ---- runs that hang ----

  ghost predicate CanJam(cfg: Config) { exists steps, t :: Path(cfg, Init(cfg), steps, t) && !t.panicked && Jammed(t) }

  /** Interrupted at once, eight clients fill the queue, and the ninth is stuck. */
  lemma JamIsReachable(cfg: Config)
    requires cfg.interruptible && cfg.saveLease && cfg.Dials() && cfg.n > SAVE_CAPACITY
    ensures CanJam(cfg)
  {
    var s := Init(cfg);
    var s1 := Next(cfg, s, Interrupt);
    var s2 := Next(cfg, s1, SaverExit);
    OneStep(cfg, s, Interrupt);
    OneStep(cfg, s1, SaverExit);
    PathConcat(cfg, s, [Interrupt], s1, [SaverExit], s2);
    var fill, s3 := Fill(cfg, s2, 0, SAVE_CAPACITY);
    PathConcat(cfg, s, [Interrupt] + [SaverExit], s2, fill, s3);
    var last, t := GetsLease(cfg, s3, SAVE_CAPACITY);
    PathConcat(cfg, s, [Interrupt] + [SaverExit] + fill, s3, last, t);
    assert JammedAt(t, SAVE_CAPACITY, DialedFirst(cfg));
  }

  lemma {:induction false} GatherAtMost<T, U>(f: T -> seq<U>, s: seq<T>)
    requires forall k :: 0 <= k < |s| ==> |f(s[k])| <= 1
    ensures |Gather(f, s)| <= |s|
    ensures (exists k :: 0 <= k < |s| && f(s[k]) == []) ==> |Gather(f, s)| < |s|
  {
    if s == [] {
    } else {
      GatherAtMost(f, s[1..]);
      forall k | 0 < k < |s| && f(s[k]) == [] ensures f(s[1..][k - 1]) == [] {}
    }
  }

  lemma QueueIsPart<T>(merged: seq<T>, queue: seq<T>, all: seq<T>)
    requires multiset(merged + queue) == multiset(all)
    ensures |queue| <= |all|
  {
    assert |merged + queue| == |multiset(merged + queue)| == |multiset(all)| == |all|;
  }

  /** A dial that has a lease to save finds at most the leases of the other clients in the queue. */
  lemma QueueOfOthers(cfg: Config, s: State, i: nat, k: Stack)
    requires Inv(cfg, s) && i < |s.clients| && s.clients[i].DialOf(k).Saving?
    ensures |s.sav.Queue(k)| < cfg.n
  {
    OneForEachStack(cfg, s);
    if k.V4? {
      QueueIsPart(LeaseMerge.V4Stream(s.sav.events), s.sav.q4, Gather(Saved4, s.clients));
      assert Saved4(s.clients[i]) == [];
      GatherAtMost(Saved4, s.clients);
    } else {
      QueueIsPart(LeaseMerge.V6Stream(s.sav.events), s.sav.q6, Gather(Saved6, s.clients));
      assert Saved6(s.clients[i]) == [];
      GatherAtMost(Saved6, s.clients);
    }
  }

  lemma SavingNeeds(cfg: Config, i: nat, c: Client, k: Stack)
    requires ClientOk(cfg, i, c) && c.DialOf(k).Saving?
    ensures cfg.saveLease && cfg.Enables(k)
  {}

  lemma JamNeeds(cfg: Config, t: State)
    requires Inv(cfg, t) && Jammed(t)
    ensures cfg.interruptible && cfg.saveLease && cfg.Dials() && cfg.n > SAVE_CAPACITY
  {
    if !cfg.interruptible { NeverJammed(cfg, t); }
    var i, k :| 0 <= i < |t.clients| && JammedAt(t, i, k);
    SavingNeeds(cfg, i, t.clients[i], k);
    QueueOfOthers(cfg, t, i, k);
  }

  lemma JamsIffConfigured(cfg: Config)
    ensures CanJam(cfg) <==> cfg.interruptible && cfg.saveLease && cfg.Dials() && cfg.n > SAVE_CAPACITY
  {
    if CanJam(cfg) {
      var steps, t :| Path(cfg, Init(cfg), steps, t) && !t.panicked && Jammed(t);
      ReachedInv(cfg, steps, t);
      JamNeeds(cfg, t);
    } else if cfg.interruptible && cfg.saveLease && cfg.Dials() && cfg.n > SAVE_CAPACITY {
      JamIsReachable(cfg);
    }
  }

  /** A run goes on until it is over or a dial is jammed. */
  lemma {:induction false} RunsOn(cfg: Config, s: State) returns (steps: seq<Step>, t: State)
    requires Inv(cfg, s)
    ensures Path(cfg, s, steps, t) && !t.panicked && (t.main.at.Finished? || Jammed(t))
    decreases RunRank(cfg, s)
  {
    if s.main.at.Finished? || Jammed(s) {
      return [], s;
    }
    var a := SomeStep(cfg, s);
    StepKeeps(cfg, s, a);
    StepLowers(cfg, s, a);
    RankNonNegative(cfg, Next(cfg, s, a));
    steps, t := RunsOn(cfg, Next(cfg, s, a));
    OneStep(cfg, s, a);
    PathConcat(cfg, s, [a], Next(cfg, s, a), steps, t);
    steps := [a] + steps;
  }

  /** The program has not panicked, and yet, however the run goes on from here, it never returns. */
  ghost predicate Doomed(cfg: Config, s: State) {
    !s.panicked && forall steps, t :: Path(cfg, s, steps, t) ==> !t.main.at.Finished?
  }

  lemma DoomedIsJam(cfg: Config, before: seq<Step>, s: State)
    requires Path(cfg, Init(cfg), before, s) && Doomed(cfg, s)
    ensures CanJam(cfg)
  {
    ReachedInv(cfg, before, s);
    var steps, t := RunsOn(cfg, s);
    PathConcat(cfg, Init(cfg), before, s, steps, t);
  }

  lemma JamIsDoom(cfg: Config, before: seq<Step>, s: State)
    requires Path(cfg, Init(cfg), before, s) && !s.panicked && Jammed(s)
    ensures Doomed(cfg, s)
  {
    ReachedInv(cfg, before, s);
    forall steps, t | Path(cfg, s, steps, t) ensures !t.main.at.Finished? { JamIsForEver(cfg, s, steps, t); }
  }

  ghost predicate CanHang(cfg: Config) { exists steps, t :: Path(cfg, Init(cfg), steps, t) && Doomed(cfg, t) }

  /**
   Which configurations can hang: exactly those that save leases, can be interrupted during the first dials
   and have more clients than a save queue has places.
   */
  lemma HangsIffConfigured(cfg: Config)
    ensures CanHang(cfg) <==> cfg.interruptible && cfg.saveLease && cfg.Dials() && cfg.n > SAVE_CAPACITY
  {
    JamsIffConfigured(cfg);
    if CanJam(cfg) {
      var steps, t :| Path(cfg, Init(cfg), steps, t) && !t.panicked && Jammed(t);
      JamIsDoom(cfg, steps, t);
    }
    if CanHang(cfg) {
      var steps, t :| Path(cfg, Init(cfg), steps, t) && Doomed(cfg, t);
      DoomedIsJam(cfg, steps, t);
    }
  }

  // ---- runs that lose a lease ----

  /** The run is over, and the lease of a successful dial is not in the file. */
  ghost predicate LosesLease(cfg: Config, t: State) {
    !t.panicked && t.main.at.Finished? && t.sav.file == Some(t.sav.leaseMap) && !(Complete(t, V4) && Complete(t, V6))
  }

  ghost predicate CanLose(cfg: Config) { exists steps, t :: Path(cfg, Init(cfg), steps, t) && LosesLease(cfg, t) }

  lemma FilledIsSettled(cfg: Config, s: State, i: nat)
    requires cfg.Dials() && Filled(cfg, s, i)
    ensures Settled(s)
  {}

  lemma QueuedIsLost(cfg: Config, t: State, k: Stack)
    requires Inv(cfg, t) && t.main.at.Finished? && cfg.saveLease && t.sav.Queue(k) != []
    ensures LosesLease(cfg, t)
  {
    CompleteIffDrained(cfg, t, k);
  }

  /** One client has saved its lease, and nobody merges it. */
  lemma OneSaved(cfg: Config) returns (steps: seq<Step>, m: State)
    requires cfg.saveLease && cfg.Dials() && cfg.n > 0
    ensures Path(cfg, Init(cfg), steps, m) && Inv(cfg, m) && Settled(m) && !m.main.at.Finished?
    ensures m.sav.Queue(DialedFirst(cfg)) != [] && m.main == Init(cfg).main
    ensures m.clients != [] && forall k ::
      m.clients[0].HeldOf(k) == if k == DialedFirst(cfg) then Usable else NoLease
  {
    steps, m := Fill(cfg, Init(cfg), 0, 1);
    ReachedInv(cfg, steps, m);
    FilledIsSettled(cfg, m, 1);
  }

  /** The run goes on to its end, and nobody merges what is queued. */
  lemma EndsWithQueue(cfg: Config, s: State, first: seq<Step>, m: State, k: Stack) returns (steps: seq<Step>, t: State)
    requires Path(cfg, s, first, m) && Inv(cfg, m) && Settled(m) && m.sav.Queue(k) != []
    ensures Path(cfg, s, steps, t) && Inv(cfg, t) && t.main.at.Finished? && t.sav.Queue(k) != []
  {
    var rest;
    rest, t := DriveTo(cfg, m, Finished);
    PathConcat(cfg, s, first, m, rest, t);
    steps := first + rest;
  }

  /** One client saves its lease, all others are refused, and the saver stops without looking at its queue. */
  lemma LeaseCanBeLost(cfg: Config)
    requires cfg.saveLease && cfg.Dials() && cfg.n > 0
    ensures CanLose(cfg)
  {
    var first, m := OneSaved(cfg);
    var steps, t := EndsWithQueue(cfg, Init(cfg), first, m, DialedFirst(cfg));
    QueuedIsLost(cfg, t, DialedFirst(cfg));
    assert Path(cfg, Init(cfg), steps, t);
  }

  /** What a lost lease needs. */
  lemma LostNeeds(cfg: Config, t: State, k: Stack)
    requires Inv(cfg, t) && !Complete(t, k)
    ensures cfg.saveLease && cfg.Dials() && cfg.n > 0
  {
    CompleteIffDrained(cfg, t, k);
    var i := QueuedFrom(t, k, t.sav.Queue(k)[0]);
    assert ClientOk(cfg, i, t.clients[i]);
  }

  /** Which configurations can lose a lease: all that save leases and dial at all. */
  lemma LosesIffConfigured(cfg: Config)
    ensures CanLose(cfg) <==> cfg.saveLease && cfg.Dials() && cfg.n > 0
  {
    if cfg.saveLease && cfg.Dials() && cfg.n > 0 {
      LeaseCanBeLost(cfg);
    }
    if CanLose(cfg) {
      var steps, t :| Path(cfg, Init(cfg), steps, t) && LosesLease(cfg, t);
      ReachedInv(cfg, steps, t);
      LostNeeds(cfg, t, if Complete(t, V4) then V6 else V4);
    }
  }

  // ---- runs that panic ----

  ghost predicate CanPanic(cfg: Config) { exists steps, t :: Path(cfg, Init(cfg), steps, t) && t.panicked }

  /** The first client's dials are both under way. */
  lemma BothLaunched(cfg: Config, s: State) returns (steps: seq<Step>, t: State)
    requires !s.panicked && s.clients != [] && s.clients[0] == FRESH.(pc := First) && cfg.enable6
    ensures Path(cfg, s, steps, t) && !t.panicked && t.clients != [] && t.clients[0].d6.Requesting?
  {
    var x := LaunchStack(0);
    var c := Launch(cfg, s.clients[0], 0);
    var m := TakeSilent(cfg, s, 0, x, c);
    t := TakeSilent(cfg, m, 0, x, Launch(cfg, c, 0));
    PathConcat(cfg, s, [ClientMove(0, x)], m, [ClientMove(0, x)], t);
    steps := [ClientMove(0, x)] + [ClientMove(0, x)];
  }

  /** A server that answers without the IA takes the program down with its first answer. */
  lemma PanicIsReachable(cfg: Config)
    requires !Unbreakable(cfg)
    ensures CanPanic(cfg)
  {
    var s := Init(cfg);
    OneStep(cfg, s, Spawn(0));
    var s1 := Next(cfg, s, Spawn(0));
    var launches, s2 := BothLaunched(cfg, s1);
    var a := ClientMove(0, GetAnswer(V6, Broken));
    OneStep(cfg, s2, a);
    PathConcat(cfg, s, [Spawn(0)], s1, launches, s2);
    PathConcat(cfg, s, [Spawn(0)] + launches, s2, [a], Next(cfg, s2, a));
  }

  /** Which configurations can panic in the first dials: exactly those with a DHCPv6 dial and an incomplete server. */
  lemma PanicsIffBreakable(cfg: Config)
    ensures CanPanic(cfg) <==> !cfg.complete && cfg.enable6 && cfg.n > 0
  {
    if Unbreakable(cfg) {
      InitHolds(cfg);
      forall steps, t | Path(cfg, Init(cfg), steps, t) ensures !t.panicked {
        UnbreakableKeeps(cfg, Init(cfg), steps, t);
      }
    } else {
      PanicIsReachable(cfg);
    }
  }
}
