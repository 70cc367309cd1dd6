/** The run cannot block before its end and cannot go on for ever; and when an interrupt makes it hang. */
module RunLiveness {
  import opened Wrappers
  import opened Sums
  import opened Summary
  import opened Dialing
  import opened RunProtocol
  import opened RunInvariant

  // ---- termination ----

  function MainRank(p: MainPosition): nat {
    match p
    case Spawning => 5
    case Cancelling => 4
    case AwaitSaver => 3
    case Closing => 2
    case AwaitCollector => 1
    case Finished => 0
  }

  function ThreadRank(t: Thread): nat { if t.Running? then 1 else 0 }

  function ChannelRank(cfg: Config, m: MainState, col: CollectorState, sav: SaverState): nat {
    |col.results| + |sav.q4| + |sav.q6|
    + MainRank(m.at) + ThreadRank(col.thread) + ThreadRank(sav.thread)
    + (if cfg.interruptible && !m.interrupted then 1 else 0)
  }

  /** What is left to do: positions of all goroutines, and everything still in a channel. */
  function RunRank(cfg: Config, s: State): int { Sum(Rank, s.clients) + ChannelRank(cfg, s.main, s.col, s.sav) }

  lemma RankNonNegative(cfg: Config, s: State)
    ensures RunRank(cfg, s) >= 0
  {
    SumNonNegative(Rank, s.clients);
  }

  lemma ClientMoveLowers(cfg: Config, s: State, i: nat, x: ClientStep)
    requires Inv(cfg, s) && ClientEnabled(s, i, x)
    ensures RunRank(cfg, ClientNext(cfg, s, i, x)) < RunRank(cfg, s)
  {
    StepLowersRank(cfg, i, s.clients[i], x);
    SumUpdate(Rank, s.clients, i, Moved(cfg, i, s.clients[i], x));
  }

  lemma SpawnLowers(cfg: Config, s: State, i: nat)
    requires SpawnEnabled(s, i)
    ensures RunRank(cfg, SpawnNext(s, i)) < RunRank(cfg, s)
  {
    SumUpdate(Rank, s.clients, i, s.clients[i].(pc := First));
  }

  lemma OthersLower(cfg: Config, s: State, a: Step)
    requires Enabled(cfg, s, a) && !a.Spawn? && !a.ClientMove?
    ensures var t := Next(cfg, s, a);
      t.clients == s.clients && ChannelRank(cfg, t.main, t.col, t.sav) < ChannelRank(cfg, s.main, s.col, s.sav)
  {}

  /** Every step of every goroutine lowers the rank. */
  lemma StepLowers(cfg: Config, s: State, a: Step)
    requires Inv(cfg, s) && Enabled(cfg, s, a)
    ensures RunRank(cfg, Next(cfg, s, a)) < RunRank(cfg, s)
  {
    match a
    case Spawn(i) => SpawnLowers(cfg, s, i);
    case ClientMove(i, x) => ClientMoveLowers(cfg, s, i, x);
    case _ => OthersLower(cfg, s, a);
  }

  lemma {:induction false} PathLowers(cfg: Config, s: State, steps: seq<Step>, t: State)
    requires Inv(cfg, s) && Path(cfg, s, steps, t)
    ensures |steps| + RunRank(cfg, t) <= RunRank(cfg, s)
    decreases |steps|
  {
    if steps == [] {
    } else {
      StepLowers(cfg, s, steps[0]);
      StepKeeps(cfg, s, steps[0]);
      if StepBreaks(cfg, steps[0]) {
        PanicIsLast(cfg, Next(cfg, s, steps[0]), steps[1..], t);
      } else {
        PathLowers(cfg, Next(cfg, s, steps[0]), steps[1..], t);
      }
    }
  }

  /** No run takes more than 19 steps a client and 8 more, whatever the scheduler does. */
  lemma RunsAreBounded(cfg: Config, steps: seq<Step>, t: State)
    requires Path(cfg, Init(cfg), steps, t)
    ensures |steps| <= 19 * cfg.n + 8
  {
    InitHolds(cfg);
    PathLowers(cfg, Init(cfg), steps, t);
    RankNonNegative(cfg, t);
    SumConstant(Rank, Repeat(cfg.n, FRESH), 19);
  }

  // ---- deadlock freedom ----

  /** A dial is about to save a lease, and its queue is full. */
  predicate FullAt(s: State, i: nat, k: Stack)
    requires i < |s.clients|
  {
    s.clients[i].DialOf(k).Saving? && |s.sav.Queue(k)| >= SAVE_CAPACITY
  }

  /** Moreover the saver is gone. */
  predicate JammedAt(s: State, i: nat, k: Stack)
    requires i < |s.clients|
  {
    s.sav.thread.Stopped? && FullAt(s, i, k)
  }

  ghost predicate Jammed(s: State) {
    exists i, k :: 0 <= i < |s.clients| && JammedAt(s, i, k)
  }

  ghost predicate NoneFull(s: State) {
    forall i, k :: 0 <= i < |s.clients| ==> !FullAt(s, i, k)
  }

  /** A step that leaves leases where they are: no merge, no interrupt, and no new lease. */
  predicate Calm(a: Step) {
    !a.Interrupt? && !a.MergeLease? && (a.ClientMove? && a.x.GetAnswer? ==> a.x.out == Refused)
  }

  /** Nothing to receive for the collector, as far as it runs. */
  predicate Drained(s: State) { s.col.thread.Running? ==> s.col.results == [] }

  /** A busy client can move, unless its save queue is full. */
  lemma BusyClientMoves(cfg: Config, s: State, i: nat) returns (x: ClientStep)
    requires CollectorOk(cfg, s.main, s.col) && Drained(s) && !s.main.closed
    requires i < |s.clients| && ClientOk(cfg, i, s.clients[i]) && Busy(s.clients[i]) == 1
    requires !FullAt(s, i, V4) && !FullAt(s, i, V6)
    ensures ClientEnabled(s, i, x) && Calm(ClientMove(i, x))
  {
    var c := s.clients[i];
    if c.pc.First? || c.pc.Second? {
      x := LaunchStack(0);
    } else if c.pc.Returning? {
      x := Leave;
    } else if c.sub == 0 {
      x := Join;
    } else {
      var k := if c.d4.Alive() then V4 else V6;
      x := DialMoves(cfg, s, i, k);
    }
  }

  lemma DialMoves(cfg: Config, s: State, i: nat, k: Stack) returns (x: ClientStep)
    requires CollectorOk(cfg, s.main, s.col) && Drained(s) && !s.main.closed
    requires i < |s.clients| && s.clients[i].DialOf(k).Alive() && !FullAt(s, i, k)
    ensures ClientEnabled(s, i, x) && Calm(ClientMove(i, x))
  {
    match s.clients[i].DialOf(k)
    case Requesting(_) => x := GetAnswer(k, Refused);
    case Saving(_, _) => x := Save(k);
    case Reporting(_, _, _) => x := Report(k, 0);
    case Leaving(_, _) => x := SubDone(k);
  }

  /** After the dials the main goroutine, the saver and the collector take turns to the end. */
  lemma EndgameMoves(cfg: Config, s: State) returns (a: Step)
    requires Inv(cfg, s) && Drained(s) && !s.main.at.Spawning? && !s.main.at.Finished?
    ensures Enabled(cfg, s, a) && Calm(a)
  {
    match s.main.at
    case Cancelling => a := CancelSave;
    case AwaitSaver => a := if s.sav.thread.Running? then SaverExit else WaitSaver;
    case Closing => a := CloseResults;
    case AwaitCollector => a := if s.col.thread.Running? then CollectorExit else WaitCollector;
  }

  /** While dials are under way, one of them or the main goroutine can move. */
  lemma DialingMoves(cfg: Config, s: State) returns (a: Step)
    requires Inv(cfg, s) && Drained(s) && s.main.at.Spawning? && AllStarted(s) && s.wg != 0
    requires NoneFull(s)
    ensures Enabled(cfg, s, a) && Calm(a)
  {
    SumNonNegative(Busy, s.clients);
    var i := SumPositive(Busy, s.clients);
    assert !FullAt(s, i, V4) && !FullAt(s, i, V6);
    var x := BusyClientMoves(cfg, s, i);
    a := ClientMove(i, x);
  }

  /** Short of the end, and unless a save queue is full, some step is possible that leaves leases alone. */
  lemma CalmStep(cfg: Config, s: State) returns (a: Step)
    requires Inv(cfg, s) && !s.main.at.Finished? && NoneFull(s)
    ensures Enabled(cfg, s, a) && Calm(a)
  {
    if !Drained(s) {
      a := Collect;
    } else if !s.main.at.Spawning? {
      a := EndgameMoves(cfg, s);
    } else if !AllStarted(s) {
      var i :| 0 <= i < |s.clients| && s.clients[i].pc.NotStarted?;
      a := Spawn(i);
    } else if s.wg == 0 {
      a := WaitDials;
    } else {
      a := DialingMoves(cfg, s);
    }
  }

  lemma NothingFull(s: State)
    requires !Jammed(s) && (s.sav.thread.Running? ==> s.sav.q4 == [] && s.sav.q6 == [])
    ensures NoneFull(s)
  {
    forall i, k | 0 <= i < |s.clients| ensures !FullAt(s, i, k) { assert !JammedAt(s, i, k); }
  }

  /** Deadlock freedom: short of the end some goroutine can move, unless a dial is jammed. */
  lemma SomeStep(cfg: Config, s: State) returns (a: Step)
    requires Inv(cfg, s) && !s.main.at.Finished? && !Jammed(s)
    ensures Enabled(cfg, s, a) && !a.Interrupt? && !StepBreaks(cfg, a)
  {
    if s.sav.thread.Running? && s.sav.q4 != [] {
      a := MergeLease(V4);
    } else if s.sav.thread.Running? && s.sav.q6 != [] {
      a := MergeLease(V6);
    } else {
      NothingFull(s);
      a := CalmStep(cfg, s);
    }
  }

  lemma DoneIsNotJammed(cfg: Config, i: nat, c: Client, k: Stack)
    requires ClientOk(cfg, i, c) && (c.pc.Done? || !cfg.saveLease)
    ensures !c.DialOf(k).Saving?
  {}

  /** Without an interrupt from outside no dial can jam: the saver outlives the dials. */
  lemma NeverJammed(cfg: Config, s: State)
    requires Inv(cfg, s) && !cfg.interruptible
    ensures !Jammed(s)
  {
    if s.sav.thread.Stopped? {
      forall i, k | 0 <= i < |s.clients| ensures !JammedAt(s, i, k) {
        DoneIsNotJammed(cfg, i, s.clients[i], k);
      }
    }
  }

  ghost predicate Stuck(cfg: Config, s: State) { forall a :: !Enabled(cfg, s, a) }

  /** An uninterrupted run that cannot go on has panicked or finished: `run` has returned. */
  lemma RunFinishes(cfg: Config, steps: seq<Step>, t: State)
    requires Path(cfg, Init(cfg), steps, t) && Stuck(cfg, t) && !cfg.interruptible
    ensures t.panicked || t.main.at.Finished?
  {
    InitHolds(cfg);
    PathKeeps(cfg, Init(cfg), steps, t);
    NeverJammed(cfg, Unpanicked(t));
    if !t.panicked && !t.main.at.Finished? {
      var a := SomeStep(cfg, t);
    }
  }

  // ---- the interrupt ----

  /** The jammed dial itself cannot move, and nobody else makes room for it. */
  lemma JamStaysAt(cfg: Config, s: State, i: nat, k: Stack, a: Step)
    requires ClientsOk(cfg, s.clients) && Enabled(cfg, s, a) && i < |s.clients| && JammedAt(s, i, k)
    ensures |Next(cfg, s, a).clients| == |s.clients| && JammedAt(Next(cfg, s, a), i, k)
  {
    if a.ClientMove? && a.i == i { JammedDialStays(cfg, i, s.clients[i], a.x, k); }
  }

  lemma JammedDialStays(cfg: Config, i: nat, c: Client, x: ClientStep, k: Stack)
    requires ClientOk(cfg, i, c) && Ready(c, x) && c.DialOf(k).Saving? && Stores(i, c, x, k) == []
    ensures Moved(cfg, i, c, x).DialOf(k) == c.DialOf(k)
  {}

  lemma JammedIsNotDone(cfg: Config, s: State)
    requires Inv(cfg, s) && Jammed(s)
    ensures s.main.at.Spawning?
  {
    var i, k :| 0 <= i < |s.clients| && JammedAt(s, i, k);
    if s.clients[i].pc.Done? { DoneIsNotJammed(cfg, i, s.clients[i], k); }
  }

  /** A jam is for good: no step of anyone resolves it, and the run is never over. */
  lemma {:induction false} JamIsForEver(cfg: Config, s: State, steps: seq<Step>, t: State)
    requires Inv(cfg, s) && Jammed(s) && Path(cfg, s, steps, t)
    ensures Jammed(t) && !t.main.at.Finished?
    decreases |steps|
  {
    JammedIsNotDone(cfg, s);
    if steps == [] {
    } else {
      var i, k :| 0 <= i < |s.clients| && JammedAt(s, i, k);
      JamStaysAt(cfg, s, i, k, steps[0]);
      StepKeeps(cfg, s, steps[0]);
      if StepBreaks(cfg, steps[0]) {
        PanicIsLast(cfg, Next(cfg, s, steps[0]), steps[1..], t);
      } else {
        JamIsForEver(cfg, Next(cfg, s, steps[0]), steps[1..], t);
      }
    }
  }

  /**
   Exactly when a run hangs: one that cannot go on, and has not panicked, has finished if and only if no dial is
   jammed, that is, no dial has a lease to save while the saver, stopped by an interrupt, has left its queue full.
   */
  lemma HangsIffJammed(cfg: Config, steps: seq<Step>, t: State)
    requires Path(cfg, Init(cfg), steps, t) && Stuck(cfg, t)
    ensures !t.panicked ==> (t.main.at.Finished? <==> !Jammed(t))
  {
    InitHolds(cfg);
    PathKeeps(cfg, Init(cfg), steps, t);
    if t.panicked {
    } else if Jammed(t) {
      JamIsForEver(cfg, t, [], t);
    } else if !t.main.at.Finished? {
      var a := SomeStep(cfg, t);
    }
  }
}
