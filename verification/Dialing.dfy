/**
 One client's dials (sched.go: dialAll, dialv4, dialv6): the positions of its up to three goroutines and
 the WaitGroup they share. What they do to channels is left to the protocol around them.
 */
module Dialing {
  import opened Wrappers
  import opened Summary

  datatype Stack = V4 | V6

  /**
   n clients with a DHCPv4 side, a DHCPv6 side or both. v4First: StackDelay >= 0. interruptible: whether
   the outer context may be cancelled during the run. flapSpread: the longest flapping interval minus the
   shortest. Two things a server may or may not keep to, and the program does not check: conforming, every
   DHCPv6 Reply names client and server (section 16.10 of RFC 8415); complete, every DHCPv6 answer carries the
   IAs that the dial looks into. The two times are the collector's sentinels.
   */
  datatype Config = Config(
    n: nat, enable4: bool, enable6: bool, v4First: bool, saveLease: bool, interruptible: bool, flapSpread: nat,
    conforming: bool, complete: bool, beginTime: int, endTime: int)
  {
    function Zero(): Tally { Start(beginTime, endTime) }
    predicate Enables(k: Stack) { if k.V4? then enable4 else enable6 }
    function FirstStack(): Stack { if v4First then V4 else V6 }
    function SecondStack(): Stack { if v4First then V6 else V4 }
    predicate Dials() { enable4 || enable6 }
  }

  /** A lease on its way to the saver, under the id of its client. */
  type SavedLease = (nat, nat)

  /**
   A dial goroutine. Deferred calls run last in, first out: the result is sent while Reporting, and only
   then the WaitGroup is told while Leaving.
   */
  datatype Dial =
    | Idle
    | Requesting(start: int)
    | Saving(start: int, lease: nat)
    | Reporting(start: int, ok: bool, saved: Option<SavedLease>)
    | Leaving(r: DialResult, saved: Option<SavedLease>)
    | Gone(r: DialResult, saved: Option<SavedLease>)
  {
    predicate Alive() { !Idle? && !Gone? }
    predicate Sent() { Leaving? || Gone? }
  }

  /**
   What an exchange with the server comes to. Broken: an answer lacks an IA that the dial looks into. bare: the
   Reply does not name client and server.
   */
  datatype Outcome = Refused | Broken | NotApplied(bare: bool) | Leased(lease: nat, bare: bool)

  /** The lease a client holds of a stack. A bare one makes no Release that can be sent. */
  datatype Held = NoLease | Usable | Bare

  datatype Position = NotStarted | First | Second | Waiting | Returning | Done

  datatype Client = Client(pc: Position, d4: Dial, d6: Dial, sub: int, held4: Held, held6: Held)
  {
    function HeldOf(k: Stack): Held { if k.V4? then held4 else held6 }
    function Holding(k: Stack, h: Held): Client { if k.V4? then this.(held4 := h) else this.(held6 := h) }
    function DialOf(k: Stack): Dial { if k.V4? then d4 else d6 }
    function With(k: Stack, d: Dial): Client { if k.V4? then this.(d4 := d) else this.(d6 := d) }
  }

  const FRESH := Client(NotStarted, Idle, Idle, 0, NoLease, NoLease)

  const RESULT_CAPACITY := 1024
  const SAVE_CAPACITY := 8

  // ---- steps ----

  datatype ClientStep =
    | LaunchStack(start: int)
    | Join
    | Leave
    | GetAnswer(k: Stack, out: Outcome)
    | Save(k: Stack)
    | Report(k: Stack, finish: int)
    | SubDone(k: Stack)

  /** Whether the goroutine is at that point; a full channel may still block it. */
  predicate Ready(c: Client, x: ClientStep) {
    match x
    case LaunchStack(_) => c.pc.First? || c.pc.Second?
    case Join => c.pc.Waiting? && c.sub == 0
    case Leave => c.pc.Returning?
    case GetAnswer(k, _) => c.DialOf(k).Requesting?
    case Save(k) => c.DialOf(k).Saving?
    case Report(k, _) => c.DialOf(k).Reporting?
    case SubDone(k) => c.DialOf(k).Leaving?
  }

  function StartStack(cfg: Config, c: Client, k: Stack, start: int): Client {
    if cfg.Enables(k) then c.(sub := c.sub + 1).With(k, Requesting(start)) else c
  }

  /** dialAll starts one stack and moves on. */
  function Launch(cfg: Config, c: Client, start: int): Client {
    if c.pc.First? then StartStack(cfg, c, cfg.FirstStack(), start).(pc := Second)
    else StartStack(cfg, c, cfg.SecondStack(), start).(pc := Waiting)
  }

  /** The exchange ends; a lease goes to the saver when leases are saved. */
  function Answer(cfg: Config, d: Dial, out: Outcome): Dial
    requires d.Requesting?
  {
    if !out.Leased? then Reporting(d.start, false, None)
    else if cfg.saveLease then Saving(d.start, out.lease)
    else Reporting(d.start, true, None)
  }

  /** A lease is kept even when it could not be applied to the interface. */
  function HeldAfter(cfg: Config, h: Held, k: Stack, out: Outcome): Held {
    if out.Refused? || out.Broken? then h
    else if k.V6? && out.bare && !cfg.conforming then Bare
    else Usable
  }

  /** Looking into an IA that is not there is a call on nil. From a complete server a broken answer is a refusal. */
  predicate Breaks(cfg: Config, x: ClientStep) {
    x.GetAnswer? && x.k.V6? && x.out.Broken? && !cfg.complete
  }

  function ResultOf(i: nat, k: Stack, d: Dial, finish: int): DialResult
    requires d.Reporting?
  {
    DialResult(i, k.V6?, DORA, d.ok, d.start, finish)
  }

  function Moved(cfg: Config, i: nat, c: Client, x: ClientStep): Client
    requires Ready(c, x)
  {
    match x
    case LaunchStack(start) => Launch(cfg, c, start)
    case Join => c.(pc := Returning)
    case Leave => c.(pc := Done)
    case GetAnswer(k, out) =>
      c.With(k, Answer(cfg, c.DialOf(k), out)).Holding(k, HeldAfter(cfg, c.HeldOf(k), k, out))
    case Save(k) => c.With(k, Reporting(c.DialOf(k).start, true, Some((i, c.DialOf(k).lease))))
    case Report(k, finish) => c.With(k, Leaving(ResultOf(i, k, c.DialOf(k), finish), c.DialOf(k).saved))
    case SubDone(k) => c.With(k, Gone(c.DialOf(k).r, c.DialOf(k).saved)).(sub := c.sub - 1)
  }

  /** What the step sends on the result channel. */
  function Sends(i: nat, c: Client, x: ClientStep): seq<DialResult>
    requires Ready(c, x)
  {
    if x.Report? then [ResultOf(i, x.k, c.DialOf(x.k), x.finish)] else []
  }

  /** What the step sends on the save channel of a stack. */
  function Stores(i: nat, c: Client, x: ClientStep, k: Stack): seq<SavedLease>
    requires Ready(c, x)
  {
    if x.Save? && x.k == k then [(i, c.DialOf(k).lease)] else []
  }

  /** What a step does outside the client: results and leases it sends, and whether dialAll returns. */
  datatype Effect = Effect(sends: seq<DialResult>, v4: seq<SavedLease>, v6: seq<SavedLease>, leaves: bool)

  function EffectOf(i: nat, c: Client, x: ClientStep): Effect
    requires Ready(c, x)
  {
    Effect(Sends(i, c, x), Stores(i, c, x, V4), Stores(i, c, x, V6), x.Leave?)
  }

  // ---- what holds at each position ----

  function Alive(d: Dial): int { if d.Alive() then 1 else 0 }

  predicate DialOk(cfg: Config, i: nat, k: Stack, d: Dial) {
    && (d.Saving? ==> cfg.saveLease)
    && (d.Sent() ==> d.r.client == i && d.r.isV6 == k.V6? && d.r.action == DORA)
    && (d.Reporting? ==> (d.saved.Some? <==> d.ok && cfg.saveLease))
    && (d.Sent() ==> (d.saved.Some? <==> d.r.ok && cfg.saveLease))
    && ((d.Reporting? || d.Sent()) && d.saved.Some? ==> d.saved.value.0 == i)
  }

  /** A stack that is switched off is never dialed, one that is on is dialed once its turn has come. */
  predicate PlaceOk(cfg: Config, c: Client, k: Stack) {
    var turn := if k == cfg.FirstStack() then !c.pc.NotStarted? && !c.pc.First?
                else c.pc.Waiting? || c.pc.Returning? || c.pc.Done?;
    && (c.DialOf(k).Idle? <==> !(turn && cfg.Enables(k)))
    && (c.pc.Returning? || c.pc.Done? ==> !c.DialOf(k).Alive())
  }

  predicate LeaseOk(cfg: Config, c: Client, k: Stack) {
    && (c.HeldOf(k) != NoLease ==> cfg.Enables(k))
    && (c.HeldOf(k) == Bare ==> k.V6? && !cfg.conforming)
  }

  /** A dial that succeeds leaves a lease. */
  predicate SuccessOk(c: Client, k: Stack) {
    var d := c.DialOf(k);
    d.Saving? || (d.Reporting? && d.ok) || (d.Sent() && d.r.ok) ==> c.HeldOf(k) != NoLease
  }

  predicate LeasesOk(cfg: Config, c: Client) { LeaseOk(cfg, c, V4) && LeaseOk(cfg, c, V6) }

  predicate ClientOk(cfg: Config, i: nat, c: Client) {
    DialsOk(cfg, i, c) && LeasesOk(cfg, c) && SuccessOk(c, V4) && SuccessOk(c, V6)
  }

  predicate DialsOk(cfg: Config, i: nat, c: Client) {
    && DialOk(cfg, i, V4, c.d4) && DialOk(cfg, i, V6, c.d6)
    && PlaceOk(cfg, c, V4) && PlaceOk(cfg, c, V6)
    && c.sub == Alive(c.d4) + Alive(c.d6)
  }

  /** Whether dialAll has been started and has not returned. */
  function Busy(c: Client): int { if c.pc.NotStarted? || c.pc.Done? then 0 else 1 }

  // ---- what a client has sent so far ----

  function ReportOf(d: Dial): seq<DialResult> { if d.Sent() then [d.r] else [] }

  function Reports(c: Client): seq<DialResult> { ReportOf(c.d4) + ReportOf(c.d6) }

  function SavedOf(d: Dial): seq<SavedLease> {
    if (d.Reporting? || d.Sent()) && d.saved.Some? then [d.saved.value] else []
  }

  function Saved4(c: Client): seq<SavedLease> { SavedOf(c.d4) }

  function Saved6(c: Client): seq<SavedLease> { SavedOf(c.d6) }

  // ---- how much a client still has to do ----

  function DialRank(d: Dial): int {
    match d
    case Idle => 7
    case Requesting(_) => 6
    case Saving(_, _) => 5
    case Reporting(_, _, _) => 3
    case Leaving(_, _) => 1
    case Gone(_, _) => 0
  }

  function PositionRank(p: Position): int {
    match p
    case NotStarted => 5
    case First => 4
    case Second => 3
    case Waiting => 2
    case Returning => 1
    case Done => 0
  }

  function Rank(c: Client): int { PositionRank(c.pc) + DialRank(c.d4) + DialRank(c.d6) }

  // ---- one step ----

  /** The client stays in order, and it was busy until now. */
  ghost predicate Proceeds(cfg: Config, i: nat, c: Client, c': Client, leaves: bool) {
    ClientOk(cfg, i, c') && c.pc != Done && Busy(c) == 1 && Busy(c') == (if leaves then 0 else 1)
  }

  /** What the client has sent more than before is what goes outside. */
  ghost predicate Delivers(c: Client, c': Client, sends: seq<DialResult>, v4: seq<SavedLease>, v6: seq<SavedLease>) {
    && multiset(Reports(c')) == multiset(Reports(c)) + multiset(sends)
    && Saved4(c') == Saved4(c) + v4 && Saved6(c') == Saved6(c) + v6
    && |sends| <= 1 && |v4| <= 1 && |v6| <= 1
  }

  lemma StepKeepsDials(cfg: Config, i: nat, c: Client, x: ClientStep)
    requires DialsOk(cfg, i, c) && Ready(c, x)
    ensures DialsOk(cfg, i, Moved(cfg, i, c, x))
  {}

  lemma StepKeepsLeases(cfg: Config, i: nat, c: Client, x: ClientStep)
    requires ClientOk(cfg, i, c) && Ready(c, x)
    ensures LeasesOk(cfg, Moved(cfg, i, c, x))
  {}

  lemma StepKeepsSuccess(cfg: Config, i: nat, c: Client, x: ClientStep, k: Stack)
    requires ClientOk(cfg, i, c) && Ready(c, x)
    ensures SuccessOk(Moved(cfg, i, c, x), k)
  {}

  lemma StepIsBusy(cfg: Config, i: nat, c: Client, x: ClientStep)
    requires DialsOk(cfg, i, c) && Ready(c, x)
    ensures Busy(c) == 1 && Busy(Moved(cfg, i, c, x)) == (if x.Leave? then 0 else 1)
    ensures x.SubDone? ==> c.sub > 0
  {}

  lemma StepProceeds(cfg: Config, i: nat, c: Client, x: ClientStep)
    requires ClientOk(cfg, i, c) && Ready(c, x)
    ensures Proceeds(cfg, i, c, Moved(cfg, i, c, x), x.Leave?)
    ensures x.SubDone? ==> c.sub > 0
  {
    StepKeepsDials(cfg, i, c, x);
    StepKeepsLeases(cfg, i, c, x);
    StepKeepsSuccess(cfg, i, c, x, V4);
    StepKeepsSuccess(cfg, i, c, x, V6);
    StepIsBusy(cfg, i, c, x);
  }

  lemma StepSendsOn(cfg: Config, i: nat, c: Client, x: ClientStep, k: Stack)
    requires DialsOk(cfg, i, c) && Ready(c, x)
    ensures ReportOf(Moved(cfg, i, c, x).DialOf(k))
         == ReportOf(c.DialOf(k)) + if x.Report? && x.k == k then Sends(i, c, x) else []
    ensures SavedOf(Moved(cfg, i, c, x).DialOf(k)) == SavedOf(c.DialOf(k)) + Stores(i, c, x, k)
  {}

  lemma AddToEither<T>(a: seq<T>, b: seq<T>, a': seq<T>, b': seq<T>, x: seq<T>)
    requires (a' == a + x && b' == b) || (a' == a && b' == b + x)
    ensures multiset(a' + b') == multiset(a + b) + multiset(x)
  {}

  lemma StepReports(cfg: Config, i: nat, c: Client, x: ClientStep)
    requires DialsOk(cfg, i, c) && Ready(c, x)
    ensures multiset(Reports(Moved(cfg, i, c, x))) == multiset(Reports(c)) + multiset(Sends(i, c, x))
  {
    StepSendsOn(cfg, i, c, x, V4);
    StepSendsOn(cfg, i, c, x, V6);
    var c' := Moved(cfg, i, c, x);
    NothingAdded(ReportOf(c.d4));
    NothingAdded(ReportOf(c.d6));
    AddToEither(ReportOf(c.d4), ReportOf(c.d6), ReportOf(c'.d4), ReportOf(c'.d6), Sends(i, c, x));
  }

  lemma NothingAdded<T>(a: seq<T>)
    ensures a + [] == a
  {}

  lemma StepDelivers(cfg: Config, i: nat, c: Client, x: ClientStep)
    requires DialsOk(cfg, i, c) && Ready(c, x)
    ensures Delivers(c, Moved(cfg, i, c, x), Sends(i, c, x), Stores(i, c, x, V4), Stores(i, c, x, V6))
  {
    StepReports(cfg, i, c, x);
    StepSendsOn(cfg, i, c, x, V4);
    StepSendsOn(cfg, i, c, x, V6);
  }

  /** Every step, with all it sends, brings the client closer to its end. */
  lemma StepLowersRank(cfg: Config, i: nat, c: Client, x: ClientStep)
    requires DialsOk(cfg, i, c) && Ready(c, x)
    ensures Rank(Moved(cfg, i, c, x)) + |Sends(i, c, x)| + |Stores(i, c, x, V4)| + |Stores(i, c, x, V6)| < Rank(c)
  {}
}
