/**
 What a run reports, told from its steps alone: the times its dials were started and reported, and the answers
 they got.
 */
module RunTrace {
  import opened Wrappers
  import opened Sums
  import opened Summary
  import opened Dialing
  import opened RunProtocol
  import opened RunInvariant
  import opened RunOutcome

  // ---- what the steps say ----

  /** The times at which client i started to dial a stack, enabled or not. */
  function StartTimes(steps: seq<Step>, i: nat): seq<int> {
    if steps == [] then []
    else
      var last := steps[|steps| - 1];
      StartTimes(steps[..|steps| - 1], i)
      + if last.ClientMove? && last.i == i && last.x.LaunchStack? then [last.x.start] else []
  }

  /** What the exchanges of a stack of client i came to. */
  function Answers(steps: seq<Step>, i: nat, k: Stack): seq<Outcome> {
    if steps == [] then []
    else
      var last := steps[|steps| - 1];
      Answers(steps[..|steps| - 1], i, k)
      + if last.ClientMove? && last.i == i && last.x.GetAnswer? && last.x.k == k then [last.x.out] else []
  }

  /** The times at which a stack of client i was reported. */
  function ReportTimes(steps: seq<Step>, i: nat, k: Stack): seq<int> {
    if steps == [] then []
    else
      var last := steps[|steps| - 1];
      ReportTimes(steps[..|steps| - 1], i, k)
      + if last.ClientMove? && last.i == i && last.x.Report? && last.x.k == k then [last.x.finish] else []
  }

  lemma TimesSnoc(steps: seq<Step>, a: Step, i: nat, k: Stack)
    ensures StartTimes(steps + [a], i) == StartTimes(steps, i)
      + if a.ClientMove? && a.i == i && a.x.LaunchStack? then [a.x.start] else []
    ensures Answers(steps + [a], i, k) == Answers(steps, i, k)
      + if a.ClientMove? && a.i == i && a.x.GetAnswer? && a.x.k == k then [a.x.out] else []
    ensures ReportTimes(steps + [a], i, k) == ReportTimes(steps, i, k)
      + if a.ClientMove? && a.i == i && a.x.Report? && a.x.k == k then [a.x.finish] else []
  {
    assert (steps + [a])[..|steps|] == steps;
  }

  // ---- where a dial stands ----

  /** Which start of its client is that of the stack: DHCPv4 is first exactly when StackDelay is not negative. */
  function Turn(cfg: Config, k: Stack): nat { if k.V4? == cfg.v4First then 0 else 1 }

  /** How many starts a client has made. */
  function Starts(p: Position): nat {
    match p
    case NotStarted => 0
    case First => 0
    case Second => 1
    case _ => 2
  }

  /** The lease that a won dial sends to the saver. */
  function SavedAs(cfg: Config, i: nat, out: Outcome): Option<SavedLease> {
    if out.Leased? && cfg.saveLease then Some((i, out.lease)) else None
  }

  /** A dial is where the steps of its stack have brought it. */
  predicate Traced(cfg: Config, i: nat, k: Stack, d: Dial, starts: seq<int>, answers: seq<Outcome>, reports: seq<int>) {
    match d
    case Idle => answers == [] && reports == []
    case Requesting(start) => Turn(cfg, k) < |starts| && start == starts[Turn(cfg, k)] && answers == [] && reports == []
    case Saving(start, lease) =>
      && Turn(cfg, k) < |starts| && start == starts[Turn(cfg, k)] && reports == []
      && |answers| == 1 && answers[0].Leased? && answers[0].lease == lease && cfg.saveLease
    case Reporting(start, ok, saved) =>
      && Turn(cfg, k) < |starts| && start == starts[Turn(cfg, k)] && reports == []
      && |answers| == 1 && ok == answers[0].Leased? && saved == SavedAs(cfg, i, answers[0])
    case Leaving(r, saved) => TracedResult(cfg, i, k, r, saved, starts, answers, reports)
    case Gone(r, saved) => TracedResult(cfg, i, k, r, saved, starts, answers, reports)
  }

  predicate TracedResult(cfg: Config, i: nat, k: Stack, r: DialResult, saved: Option<SavedLease>,
                         starts: seq<int>, answers: seq<Outcome>, reports: seq<int>) {
    && Turn(cfg, k) < |starts| && |answers| == 1 && |reports| == 1
    && r.client == i && r.isV6 == k.V6? && r.action == DORA
    && r.ok == answers[0].Leased? && r.start == starts[Turn(cfg, k)] && r.finish == reports[0]
    && saved == SavedAs(cfg, i, answers[0])
  }

  predicate TracedClient(cfg: Config, steps: seq<Step>, i: nat, c: Client) {
    && |StartTimes(steps, i)| == Starts(c.pc)
    && Traced(cfg, i, V4, c.d4, StartTimes(steps, i), Answers(steps, i, V4), ReportTimes(steps, i, V4))
    && Traced(cfg, i, V6, c.d6, StartTimes(steps, i), Answers(steps, i, V6), ReportTimes(steps, i, V6))
  }

  /** More starts do not change where a dial stands. */
  lemma MoreStarts(cfg: Config, i: nat, k: Stack, d: Dial, starts: seq<int>, more: seq<int>,
                   answers: seq<Outcome>, reports: seq<int>)
    requires Traced(cfg, i, k, d, starts, answers, reports)
    ensures Traced(cfg, i, k, d, starts + more, answers, reports)
  {}

  lemma LaunchTraced(cfg: Config, i: nat, c: Client, start: int, k: Stack,
                     starts: seq<int>, answers: seq<Outcome>, reports: seq<int>)
    requires ClientOk(cfg, i, c) && Ready(c, LaunchStack(start)) && |starts| == Starts(c.pc)
    requires Traced(cfg, i, k, c.DialOf(k), starts, answers, reports)
    ensures Traced(cfg, i, k, Moved(cfg, i, c, LaunchStack(start)).DialOf(k), starts + [start], answers, reports)
  {
    MoreStarts(cfg, i, k, c.DialOf(k), starts, [start], answers, reports);
  }

  lemma AnswerTraced(cfg: Config, i: nat, c: Client, l: Stack, out: Outcome, k: Stack,
                     starts: seq<int>, answers: seq<Outcome>, reports: seq<int>)
    requires Ready(c, GetAnswer(l, out)) && Traced(cfg, i, k, c.DialOf(k), starts, answers, reports)
    ensures Traced(cfg, i, k, Moved(cfg, i, c, GetAnswer(l, out)).DialOf(k), starts,
                   answers + (if l == k then [out] else []), reports)
  {}

  lemma ReportTraced(cfg: Config, i: nat, c: Client, l: Stack, finish: int, k: Stack,
                     starts: seq<int>, answers: seq<Outcome>, reports: seq<int>)
    requires Ready(c, Report(l, finish)) && Traced(cfg, i, k, c.DialOf(k), starts, answers, reports)
    ensures Traced(cfg, i, k, Moved(cfg, i, c, Report(l, finish)).DialOf(k), starts, answers,
                   reports + if l == k then [finish] else [])
  {}

  lemma OtherwiseTraced(cfg: Config, i: nat, c: Client, x: ClientStep, k: Stack,
                        starts: seq<int>, answers: seq<Outcome>, reports: seq<int>)
    requires Ready(c, x) && Traced(cfg, i, k, c.DialOf(k), starts, answers, reports)
    requires !x.LaunchStack? && !x.GetAnswer? && !x.Report?
    ensures Traced(cfg, i, k, Moved(cfg, i, c, x).DialOf(k), starts, answers, reports)
  {}

  lemma DialTraced(cfg: Config, steps: seq<Step>, i: nat, c: Client, x: ClientStep, k: Stack)
    requires ClientOk(cfg, i, c) && Ready(c, x) && |StartTimes(steps, i)| == Starts(c.pc)
    requires Traced(cfg, i, k, c.DialOf(k), StartTimes(steps, i), Answers(steps, i, k), ReportTimes(steps, i, k))
    ensures var a := ClientMove(i, x);
      Traced(cfg, i, k, Moved(cfg, i, c, x).DialOf(k), StartTimes(steps + [a], i), Answers(steps + [a], i, k),
             ReportTimes(steps + [a], i, k))
  {
    TimesSnoc(steps, ClientMove(i, x), i, k);
    var starts, answers, reports := StartTimes(steps, i), Answers(steps, i, k), ReportTimes(steps, i, k);
    assert starts + [] == starts && answers + [] == answers && reports + [] == reports;
    match x {
      case LaunchStack(start) => LaunchTraced(cfg, i, c, start, k, starts, answers, reports);
      case GetAnswer(l, out) => AnswerTraced(cfg, i, c, l, out, k, starts, answers, reports);
      case Report(l, finish) => ReportTraced(cfg, i, c, l, finish, k, starts, answers, reports);
      case _ => OtherwiseTraced(cfg, i, c, x, k, starts, answers, reports);
    }
  }

  lemma MoveTraced(cfg: Config, steps: seq<Step>, i: nat, c: Client, x: ClientStep)
    requires ClientOk(cfg, i, c) && Ready(c, x) && TracedClient(cfg, steps, i, c)
    ensures TracedClient(cfg, steps + [ClientMove(i, x)], i, Moved(cfg, i, c, x))
  {
    DialTraced(cfg, steps, i, c, x, V4);
    DialTraced(cfg, steps, i, c, x, V6);
    TimesSnoc(steps, ClientMove(i, x), i, V4);
  }

  /** A step that is not the client's leaves its trace alone. */
  lemma OtherTraced(cfg: Config, steps: seq<Step>, a: Step, i: nat, c: Client)
    requires TracedClient(cfg, steps, i, c) && !(a.ClientMove? && a.i == i)
    ensures TracedClient(cfg, steps + [a], i, c)
  {
    TimesSnoc(steps, a, i, V4);
    TimesSnoc(steps, a, i, V6);
  }

  lemma StepTraced(cfg: Config, steps: seq<Step>, s: State, a: Step, i: nat)
    requires ClientsOk(cfg, s.clients) && Enabled(cfg, s, a) && i < |s.clients|
    requires TracedClient(cfg, steps, i, s.clients[i])
    ensures |Next(cfg, s, a).clients| == |s.clients|
    ensures TracedClient(cfg, steps + [a], i, Next(cfg, s, a).clients[i])
  {
    if a.ClientMove? && a.i == i {
      MoveTraced(cfg, steps, i, s.clients[i], a.x);
    } else {
      OtherTraced(cfg, steps, a, i, s.clients[i]);
    }
  }

  lemma ReachedClients(cfg: Config, steps: seq<Step>, t: State)
    requires Path(cfg, Init(cfg), steps, t) && !t.panicked
    ensures ClientsOk(cfg, t.clients)
  {
    ReachedInv(cfg, steps, t);
  }

  lemma InitTraced(cfg: Config, i: nat)
    requires i < cfg.n
    ensures TracedClient(cfg, [], i, Init(cfg).clients[i])
  {}

  lemma LastTraced(cfg: Config, front: seq<Step>, m: State, last: Step, steps: seq<Step>, t: State, i: nat)
    requires ClientsOk(cfg, m.clients) && Enabled(cfg, m, last) && i < |m.clients|
    requires TracedClient(cfg, front, i, m.clients[i]) && steps == front + [last] && t == Next(cfg, m, last)
    ensures i < |t.clients| && TracedClient(cfg, steps, i, t.clients[i])
  {
    StepTraced(cfg, front, m, last, i);
  }

  lemma {:induction false} PathTraced(cfg: Config, steps: seq<Step>, t: State, i: nat)
    requires Path(cfg, Init(cfg), steps, t) && i < cfg.n
    ensures i < |t.clients| && TracedClient(cfg, steps, i, t.clients[i])
    decreases |steps|
  {
    if steps == [] {
      InitTraced(cfg, i);
    } else {
      var front, last := steps[..|steps| - 1], steps[|steps| - 1];
      var m := BeforeLast(cfg, Init(cfg), steps, t);
      PathTraced(cfg, front, m, i);
      ReachedClients(cfg, front, m);
      LastTraced(cfg, front, m, last, steps, t, i);
    }
  }

  lemma FinishedClient(cfg: Config, steps: seq<Step>, t: State, i: nat)
    requires Path(cfg, Init(cfg), steps, t) && !t.panicked && t.main.at.Finished? && i < cfg.n
    ensures i < |t.clients| && ClientOk(cfg, i, t.clients[i]) && t.clients[i].pc.Done?
  {
    ReachedInv(cfg, steps, t);
  }

  lemma DoneTrace(cfg: Config, steps: seq<Step>, i: nat, c: Client, k: Stack)
    requires TracedClient(cfg, steps, i, c) && ClientOk(cfg, i, c) && c.pc.Done? && cfg.Enables(k)
    ensures |StartTimes(steps, i)| == 2 && |Answers(steps, i, k)| == 1 && |ReportTimes(steps, i, k)| == 1
    ensures ReportOf(c.DialOf(k)) ==
      [DialResult(i, k.V6?, DORA, Answers(steps, i, k)[0].Leased?,
                  StartTimes(steps, i)[if k.V4? == cfg.v4First then 0 else 1], ReportTimes(steps, i, k)[0])]
    ensures SavedOf(c.DialOf(k)) ==
      if cfg.saveLease && Answers(steps, i, k)[0].Leased? then [(i, Answers(steps, i, k)[0].lease)] else []
  {
    DoneClientReports(cfg, i, c);
  }

  /**
   The report of each dial of a finished run, told from the steps: it is a success exactly when the exchange
   ended in a lease that could be applied, whether or not leases are saved; it has the time its dial was
   started at, DHCPv4 first exactly when StackDelay is not negative, and the time of the report; and exactly the
   lease of a success goes to the saver, when leases are saved.
   */
  lemma ReportsFollowSteps(cfg: Config, steps: seq<Step>, t: State, i: nat, k: Stack)
    requires Path(cfg, Init(cfg), steps, t) && !t.panicked && t.main.at.Finished? && i < cfg.n && cfg.Enables(k)
    ensures i < |t.clients|
    ensures |StartTimes(steps, i)| == 2 && |Answers(steps, i, k)| == 1 && |ReportTimes(steps, i, k)| == 1
    ensures ReportOf(t.clients[i].DialOf(k)) ==
      [DialResult(i, k.V6?, DORA, Answers(steps, i, k)[0].Leased?,
                  StartTimes(steps, i)[if k.V4? == cfg.v4First then 0 else 1], ReportTimes(steps, i, k)[0])]
    ensures SavedOf(t.clients[i].DialOf(k)) ==
      if cfg.saveLease && Answers(steps, i, k)[0].Leased? then [(i, Answers(steps, i, k)[0].lease)] else []
  {
    PathTraced(cfg, steps, t, i);
    FinishedClient(cfg, steps, t, i);
    DoneTrace(cfg, steps, i, t.clients[i], k);
  }

  // ---- which leases clients hold ----

  /** What the answers of a stack leave its client with. */
  predicate HoldsAfter(cfg: Config, k: Stack, h: Held, answers: seq<Outcome>) {
    match h
    case NoLease => answers == [] || (|answers| == 1 && (answers[0] == Refused || answers[0] == Broken))
    case Usable => |answers| == 1 && !LeftBare(cfg, k, answers[0]) && (answers[0].NotApplied? || answers[0].Leased?)
    case Bare => |answers| == 1 && LeftBare(cfg, k, answers[0])
  }

  /** A DHCPv6 server that does not conform has left out who is who in its Reply. */
  predicate LeftBare(cfg: Config, k: Stack, out: Outcome) {
    k == V6 && !cfg.conforming && (out == NotApplied(true) || (out.Leased? && out.bare))
  }

  lemma MoveHolds(cfg: Config, steps: seq<Step>, i: nat, c: Client, x: ClientStep, k: Stack)
    requires Ready(c, x) && TracedClient(cfg, steps, i, c) && HoldsAfter(cfg, k, c.HeldOf(k), Answers(steps, i, k))
    ensures HoldsAfter(cfg, k, Moved(cfg, i, c, x).HeldOf(k), Answers(steps + [ClientMove(i, x)], i, k))
  {
    TimesSnoc(steps, ClientMove(i, x), i, k);
  }

  lemma StepHolds(cfg: Config, steps: seq<Step>, s: State, a: Step, i: nat, k: Stack)
    requires Enabled(cfg, s, a) && i < |s.clients| && TracedClient(cfg, steps, i, s.clients[i])
    requires HoldsAfter(cfg, k, s.clients[i].HeldOf(k), Answers(steps, i, k))
    ensures |Next(cfg, s, a).clients| == |s.clients|
    ensures HoldsAfter(cfg, k, Next(cfg, s, a).clients[i].HeldOf(k), Answers(steps + [a], i, k))
  {
    if a.ClientMove? && a.i == i {
      MoveHolds(cfg, steps, i, s.clients[i], a.x, k);
    } else {
      TimesSnoc(steps, a, i, k);
    }
  }

  lemma NothingHeld(cfg: Config, i: nat, k: Stack)
    requires i < cfg.n
    ensures Init(cfg).clients[i].HeldOf(k) == NoLease
  {}

  /**
   Which leases clients hold, in every state a run can reach, told from the answers: one that could not be applied
   is held like any other, and one whose Reply does not name client and server is held as bare.
   */
  lemma {:induction false} LeasesFollowAnswers(cfg: Config, steps: seq<Step>, t: State, i: nat, k: Stack)
    requires Path(cfg, Init(cfg), steps, t) && i < cfg.n
    ensures i < |t.clients| && HoldsAfter(cfg, k, t.clients[i].HeldOf(k), Answers(steps, i, k))
    decreases |steps|
  {
    if steps == [] {
      NothingHeld(cfg, i, k);
    } else {
      var front, last := steps[..|steps| - 1], steps[|steps| - 1];
      var m := BeforeLast(cfg, Init(cfg), steps, t);
      PathTraced(cfg, front, m, i);
      LeasesFollowAnswers(cfg, front, m, i, k);
      StepHolds(cfg, front, m, last, i, k);
      assert steps == front + [last];
    }
  }

  // ---- how many dials succeed ----

  /** A step in which an exchange ends in a lease that could be applied. */
  function StepWon(a: Step): nat { if a.ClientMove? && a.x.GetAnswer? && a.x.out.Leased? then 1 else 0 }

  /** How many exchanges ended in a lease that could be applied. */
  function Wins(steps: seq<Step>): nat {
    if steps == [] then 0 else StepWon(steps[0]) + Wins(steps[1..])
  }

  function WonDial(d: Dial): int { if d.Saving? || (d.Reporting? && d.ok) || (d.Sent() && d.r.ok) then 1 else 0 }

  function Won(c: Client): int { WonDial(c.d4) + WonDial(c.d6) }

  lemma LaunchWins(cfg: Config, i: nat, c: Client, start: int, k: Stack)
    requires PlaceOk(cfg, c, k) && Ready(c, LaunchStack(start))
    ensures WonDial(Moved(cfg, i, c, LaunchStack(start)).DialOf(k)) == WonDial(c.DialOf(k))
  {}

  lemma DialWins(cfg: Config, i: nat, c: Client, x: ClientStep, k: Stack)
    requires PlaceOk(cfg, c, k) && Ready(c, x)
    ensures WonDial(Moved(cfg, i, c, x).DialOf(k))
         == WonDial(c.DialOf(k)) + if x.GetAnswer? && x.k == k && x.out.Leased? then 1 else 0
  {
    if x.LaunchStack? { LaunchWins(cfg, i, c, x.start, k); }
  }

  lemma MoveWins(cfg: Config, i: nat, c: Client, x: ClientStep)
    requires ClientOk(cfg, i, c) && Ready(c, x)
    ensures Won(Moved(cfg, i, c, x)) == Won(c) + if x.GetAnswer? && x.out.Leased? then 1 else 0
  {
    DialWins(cfg, i, c, x, V4);
    DialWins(cfg, i, c, x, V6);
  }

  lemma StepWins(cfg: Config, s: State, a: Step)
    requires Inv(cfg, s) && Enabled(cfg, s, a)
    ensures Sum(Won, Next(cfg, s, a).clients) == Sum(Won, s.clients) + StepWon(a)
  {
    if a.ClientMove? {
      MoveWins(cfg, a.i, s.clients[a.i], a.x);
      SumUpdate(Won, s.clients, a.i, Moved(cfg, a.i, s.clients[a.i], a.x));
    } else if a.Spawn? {
      SumUpdate(Won, s.clients, a.i, s.clients[a.i].(pc := First));
    }
  }

  lemma {:induction false} PathWins(cfg: Config, s: State, steps: seq<Step>, t: State)
    requires Inv(cfg, s) && Path(cfg, s, steps, t)
    ensures Sum(Won, t.clients) == Sum(Won, s.clients) + Wins(steps)
    decreases |steps|
  {
    if steps == [] {
    } else {
      StepWins(cfg, s, steps[0]);
      StepKeeps(cfg, s, steps[0]);
      if StepBreaks(cfg, steps[0]) {
        PanicIsLast(cfg, Next(cfg, s, steps[0]), steps[1..], t);
      } else {
        PathWins(cfg, Next(cfg, s, steps[0]), steps[1..], t);
      }
    }
  }

  function Good(): DialResult -> bool { (r: DialResult) => r.Dialed() }

  lemma CountReport(d: Dial)
    requires d.Sent() ==> d.r.action == DORA
    requires !d.Saving? && !d.Reporting?
    ensures Count(Good(), ReportOf(d)) == WonDial(d)
  {
    if d.Sent() { CountOne(Good(), d.r); }
  }

  /** The client is done and in order. */
  ghost predicate Settled(cfg: Config, c: Client) { c.pc.Done? && exists i: nat :: ClientOk(cfg, i, c) }

  lemma CountOfClient(cfg: Config, c: Client)
    requires Settled(cfg, c)
    ensures Count(Good(), Reports(c)) == Won(c)
  {
    var i: nat :| ClientOk(cfg, i, c);
    CountReport(c.d4);
    CountReport(c.d6);
    CountConcat(Good(), ReportOf(c.d4), ReportOf(c.d6));
  }

  lemma {:induction false} CountReports(cfg: Config, clients: seq<Client>)
    requires forall j :: 0 <= j < |clients| ==> Settled(cfg, clients[j])
    ensures Count(Good(), Gather(Reports, clients)) == Sum(Won, clients)
  {
    if clients == [] {
    } else {
      var c, rest := clients[0], clients[1..];
      CountOfClient(cfg, c);
      CountConcat(Good(), Reports(c), Gather(Reports, rest));
      assert forall j :: 0 <= j < |rest| ==> rest[j] == clients[j + 1];
      CountReports(cfg, rest);
      assert Gather(Reports, clients) == Reports(c) + Gather(Reports, rest);
    }
  }

  lemma NothingWon(cfg: Config)
    ensures Sum(Won, Init(cfg).clients) == 0
  {
    SumConstant(Won, Repeat(cfg.n, FRESH), 0);
  }

  lemma FinishedCounts(cfg: Config, t: State)
    requires Inv(cfg, t) && t.main.at.Finished?
    ensures t.col.summary.success == Sum(Won, t.clients)
    ensures t.col.summary.failed == cfg.n * Stacks(cfg) - Sum(Won, t.clients)
  {
    SummaryOfFinishedRun(cfg, t);
    Counters(cfg.beginTime, cfg.endTime, Gather(Reports, t.clients));
    forall j | 0 <= j < |t.clients| ensures Settled(cfg, t.clients[j]) {
      assert ClientOk(cfg, j, t.clients[j]);
    }
    CountReports(cfg, t.clients);
  }

  lemma WinsAreWon(cfg: Config, steps: seq<Step>, t: State)
    requires Path(cfg, Init(cfg), steps, t)
    ensures Sum(Won, t.clients) == Wins(steps)
  {
    InitHolds(cfg);
    PathWins(cfg, Init(cfg), steps, t);
    NothingWon(cfg);
  }

  lemma FinishedRunCounts(cfg: Config, steps: seq<Step>, t: State)
    requires Path(cfg, Init(cfg), steps, t) && !t.panicked && t.main.at.Finished?
    ensures t.col.summary.success == Sum(Won, t.clients)
    ensures t.col.summary.failed == cfg.n * Stacks(cfg) - Sum(Won, t.clients)
  {
    ReachedInv(cfg, steps, t);
    FinishedCounts(cfg, t);
  }

  /**
   The summary of a finished run counts as successes exactly the exchanges that ended in a lease that could be
   applied, and all other dials as failures, whether or not leases are saved.
   */
  lemma SuccessesAreWins(cfg: Config, steps: seq<Step>, t: State)
    requires Path(cfg, Init(cfg), steps, t) && !t.panicked && t.main.at.Finished?
    ensures t.col.summary.success == Wins(steps)
    ensures t.col.summary.failed == cfg.n * Stacks(cfg) - Wins(steps)
  {
    FinishedRunCounts(cfg, steps, t);
    WinsAreWon(cfg, steps, t);
  }
}
