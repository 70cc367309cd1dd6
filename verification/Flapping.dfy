/**
 The flapping phase (sched.go: flapFunc and the code around it): after the first dials every client
 releases its leases and dials again, over and over, until the context is cancelled. Any positive FlapNum
 makes all clients flap, because the counter that FlapNum is compared with never changes.
 */
module Flapping {
  import opened Wrappers
  import opened Sums
  import opened Summary
  import opened Dialing

  /** Between two sleeps, releases and dials the loop looks at the context: Check1 to Check5. */
  datatype FlapPosition =
    NotFlapping | Check1 | Check2 | Drop4 | Check3 | Drop6 | Check4 | Check5 | Redialing | Ending | Ended

  /**
   A flapping client. other: the stacks that have a client for releases; these are made once, before flapping
   starts, for the leases held then.
   */
  datatype Flapper = Flapper(at: FlapPosition, client: Client, other: set<Stack>)

  datatype FlapMain = Starting | AwaitCollector | Finished

  /** log is everything sent on the result channel so far; the last `queued` of it have not been collected. */
  datatype FlapState = FlapState(
    flappers: seq<Flapper>, wg: int, main: FlapMain, stopped: bool, closed: bool,
    collecting: bool, tg: int, log: seq<DialResult>, queued: nat, saved4: nat, saved6: nat, panicked: bool)

  datatype FlapStep =
    | StartFlapper(i: nat)
    | Check(i: nat)
    | Drop(i: nat, ok: bool, start: int, finish: int)
    | Redial(i: nat, x: ClientStep)
    | EndFlapper(i: nat)
    | Stop
    | CollectOne
    | CollectorEnds
    | CloseChannel
    | AwaitEnd

  // ---- one client ----

  predicate AtCheck(f: Flapper) { f.at.Check1? || f.at.Check2? || f.at.Check3? || f.at.Check4? || f.at.Check5? }

  predicate AtDrop(f: Flapper) { f.at.Drop4? || f.at.Drop6? }

  function DropStack(f: Flapper): Stack { if f.at.Drop4? then V4 else V6 }

  /** It holds a lease of the stack, from its first dial or a later one. */
  predicate Holds(f: Flapper, k: Stack) { f.client.HeldOf(k) != NoLease }

  /** A release goes through the client for releases, and a bare lease makes a message that cannot be encoded. */
  predicate CanRelease(f: Flapper, k: Stack) { k in f.other && f.client.HeldOf(k) != Bare }

  /** The client as dialAll starts over; it still has its leases. */
  function Anew(c: Client): Client { FRESH.(pc := First, held4 := c.held4, held6 := c.held6) }

  /** A cancelled context ends the loop at the next check. */
  function AfterCheck(f: Flapper, stopped: bool): Flapper {
    if stopped then f.(at := Ending)
    else match f.at
      case Check1 => f.(at := Check2)
      case Check2 => f.(at := Drop4)
      case Check3 => f.(at := Drop6)
      case Check4 => f.(at := Check5)
      case _ => f.(at := Redialing, client := Anew(f.client))
  }

  function AfterDrop(f: Flapper): Flapper { f.(at := if f.at.Drop4? then Check3 else Check4) }

  /** A release that succeeds or fails is reported as a release; for DHCPv6 always as a successful one. */
  function DropResult(i: nat, f: Flapper, ok: bool, start: int, finish: int): DialResult {
    DialResult(i, f.at.Drop6?, Release, ok || f.at.Drop6?, start, finish)
  }

  const MAX_SENDS := 3

  /**
   releasev4: up to three attempts, until one can be sent; sends says which can. The release is a success if
   one of the three can.
   */
  method ReleaseV4(i: nat, f: Flapper, sends: int -> bool, start: int, finish: int)
      returns (r: DialResult, attempts: nat)
    requires f.at.Drop4?
    ensures r == DropResult(i, f, sends(0) || sends(1) || sends(2), start, finish)
    ensures r.client == i && !r.isV6 && r.action == Release && r.start == start && r.finish == finish
    ensures 1 <= attempts <= 3 && (r.ok <==> sends(attempts - 1))
    ensures forall n :: 0 <= n < attempts - 1 ==> !sends(n)
    ensures !r.ok ==> attempts == 3
  {
    attempts := 0;
    var ok := false;
    while attempts < MAX_SENDS && !ok
      invariant attempts <= MAX_SENDS && (attempts == 0 ==> !ok) && (attempts > 0 ==> ok == sends(attempts - 1))
      invariant forall n :: 0 <= n < attempts - 1 ==> !sends(n)
    {
      ok := sends(attempts);
      attempts := attempts + 1;
    }
    r := DialResult(i, false, Release, ok, start, finish);
  }

  /**
   releaseOrRenewV6: up to three attempts, until one is answered. The result is set to success before the
   first, and stays so whatever becomes of them.
   */
  method ReleaseV6(i: nat, f: Flapper, answered: int -> bool, start: int, finish: int)
      returns (r: DialResult, attempts: nat)
    requires f.at.Drop6?
    ensures r.ok && forall ok :: r == DropResult(i, f, ok, start, finish)
    ensures r.client == i && r.isV6 && r.action == Release && r.start == start && r.finish == finish
    ensures 1 <= attempts <= 3 && forall n :: 0 <= n < attempts - 1 ==> !answered(n)
    ensures !answered(attempts - 1) ==> attempts == 3
  {
    r := DialResult(i, true, Release, true, start, finish);
    attempts := 0;
    var done := false;
    while attempts < MAX_SENDS && !done
      invariant attempts <= MAX_SENDS && (attempts == 0 ==> !done) && (attempts > 0 ==> done == answered(attempts - 1))
      invariant forall n :: 0 <= n < attempts - 1 ==> !answered(n)
    {
      done := answered(attempts);
      attempts := attempts + 1;
    }
  }

  function AfterMove(cfg: Config, i: nat, f: Flapper, x: ClientStep): Flapper
    requires Ready(f.client, x)
  {
    f.(client := Moved(cfg, i, f.client, x), at := if x.Leave? then Check1 else f.at)
  }

  // ---- steps ----

  predicate Room(s: FlapState, sends: seq<DialResult>) { sends != [] ==> s.closed || s.queued < RESULT_CAPACITY }

  /** Nobody receives saved leases any more: the saver has stopped before flapping starts. */
  predicate SaveRoom(s: FlapState, v4: seq<SavedLease>, v6: seq<SavedLease>) {
    (v4 != [] ==> s.saved4 < SAVE_CAPACITY) && (v6 != [] ==> s.saved6 < SAVE_CAPACITY)
  }

  predicate Enabled(s: FlapState, a: FlapStep) {
    && !s.panicked
    && match a
       case StartFlapper(i) => s.main.Starting? && i < |s.flappers| && s.flappers[i].at.NotFlapping?
       case Check(i) => i < |s.flappers| && AtCheck(s.flappers[i])
       case Drop(i, ok, start, finish) =>
         && i < |s.flappers| && AtDrop(s.flappers[i])
         && (Holds(s.flappers[i], DropStack(s.flappers[i])) ==>
             Room(s, [DropResult(i, s.flappers[i], ok, start, finish)]))
       case Redial(i, x) =>
         && i < |s.flappers| && s.flappers[i].at.Redialing? && Ready(s.flappers[i].client, x)
         && Room(s, Sends(i, s.flappers[i].client, x))
         && SaveRoom(s, Stores(i, s.flappers[i].client, x, V4), Stores(i, s.flappers[i].client, x, V6))
       case EndFlapper(i) => i < |s.flappers| && s.flappers[i].at.Ending?
       case Stop => !s.stopped
       case CollectOne => s.collecting && s.queued > 0
       case CollectorEnds => s.collecting && s.closed && s.queued == 0
       case CloseChannel =>
         s.main.Starting? && s.wg == 0 && forall i :: 0 <= i < |s.flappers| ==> !s.flappers[i].at.NotFlapping?
       case AwaitEnd => s.main.AwaitCollector? && s.tg == 0
  }

  /** Flapper i becomes f and sends results. */
  function Send(s: FlapState, i: nat, f: Flapper, sends: seq<DialResult>): FlapState
    requires i < |s.flappers|
  {
    s.(flappers := s.flappers[i := f], log := s.log + sends, queued := s.queued + |sends|,
       panicked := s.closed && sends != [])
  }

  /** The first sleep draws a random number from an empty range. */
  predicate NoDelay(cfg: Config, s: FlapState, i: nat) {
    i < |s.flappers| && s.flappers[i].at.Check1? && !s.stopped && cfg.flapSpread == 0
  }

  function CheckNext(cfg: Config, s: FlapState, i: nat): FlapState
    requires i < |s.flappers|
  {
    if NoDelay(cfg, s, i) then s.(panicked := true) else Send(s, i, AfterCheck(s.flappers[i], s.stopped), [])
  }

  /** A release that cannot be made takes the program down. */
  function DropNext(s: FlapState, i: nat, r: DialResult): FlapState
    requires i < |s.flappers|
  {
    var f := s.flappers[i];
    if !Holds(f, DropStack(f)) then Send(s, i, AfterDrop(f), [])
    else if !CanRelease(f, DropStack(f)) then s.(panicked := true)
    else Send(s, i, AfterDrop(f), [r])
  }

  function Next(cfg: Config, s: FlapState, a: FlapStep): FlapState
    requires Enabled(s, a)
  {
    match a
    case StartFlapper(i) => Send(s, i, s.flappers[i].(at := Check1), []).(wg := s.wg + 1)
    case Check(i) => CheckNext(cfg, s, i)
    case Drop(i, ok, start, finish) => DropNext(s, i, DropResult(i, s.flappers[i], ok, start, finish))
    case Redial(i, x) =>
      var c := s.flappers[i].client;
      var t := Send(s, i, AfterMove(cfg, i, s.flappers[i], x), Sends(i, c, x));
      t.(saved4 := s.saved4 + |Stores(i, c, x, V4)|, saved6 := s.saved6 + |Stores(i, c, x, V6)|,
         panicked := t.panicked || (x.SubDone? && c.sub <= 0) || Breaks(cfg, x))
    case EndFlapper(i) => Send(s, i, s.flappers[i].(at := Ended), []).(wg := s.wg - 1, panicked := s.wg <= 0)
    case Stop => s.(stopped := true)
    case CollectOne => s.(queued := s.queued - 1)
    case CollectorEnds => s.(collecting := false, tg := s.tg - 1, panicked := s.tg <= 0)
    case CloseChannel => s.(main := AwaitCollector, closed := true, panicked := s.closed)
    case AwaitEnd => s.(main := Finished)
  }

  ghost predicate Path(cfg: Config, s: FlapState, steps: seq<FlapStep>, t: FlapState)
    decreases |steps|
  {
    if steps == [] then s == t
    else Enabled(s, steps[0]) && Path(cfg, Next(cfg, s, steps[0]), steps[1..], t)
  }

  // ---- histories ----

  predicate Concerns(r: DialResult, i: nat, k: Stack) { r.client == i && r.isV6 == k.V6? }

  /** The transactions of one stack of one client, in order. */
  function History(log: seq<DialResult>, i: nat, k: Stack): seq<Action> {
    if log == [] then []
    else History(log[..|log| - 1], i, k) + if Concerns(log[|log| - 1], i, k) then [log[|log| - 1].action] else []
  }

  /** A prefix of DORA, release, DORA, release, ... */
  predicate Alternates(h: seq<Action>) {
    forall j :: 0 <= j < |h| ==> h[j] == if j % 2 == 0 then DORA else Release
  }

  /** Whether the last transaction of the stack is a dial, from where its client is. */
  predicate Up(f: Flapper, k: Stack) {
    match f.at
    case NotFlapping => true
    case Check1 => true
    case Check2 => true
    case Drop4 => true
    case Check3 => k.V6?
    case Drop6 => k.V6?
    case Redialing => f.client.DialOf(k).Sent()
    case _ => false
  }

  // ---- invariants ----

  predicate FlapperOk(cfg: Config, i: nat, f: Flapper) {
    && (f.at.Redialing? ==> ClientOk(cfg, i, f.client) && !f.client.pc.NotStarted? && !f.client.pc.Done?)
    && LeasesOk(cfg, f.client)
    && forall k :: k in f.other ==> Holds(f, k)
  }

  /** The history of a stack that held a lease when flapping began. */
  predicate HistoryOk(f: Flapper, h: seq<Action>, k: Stack) {
    k in f.other ==> h != [] && Alternates(h) && (!f.at.Ending? && !f.at.Ended? ==> (|h| % 2 == 1 <==> Up(f, k)))
  }

  /** Whether flapFunc has been started and has not returned. */
  function Flaps(f: Flapper): int { if f.at.NotFlapping? || f.at.Ended? then 0 else 1 }

  predicate FlappersOk(cfg: Config, flappers: seq<Flapper>, log: seq<DialResult>) {
    forall i :: 0 <= i < |flappers| ==>
      && FlapperOk(cfg, i, flappers[i])
      && HistoryOk(flappers[i], History(log, i, V4), V4) && HistoryOk(flappers[i], History(log, i, V6), V6)
  }

  predicate AllEnded(s: FlapState) { forall i :: 0 <= i < |s.flappers| ==> s.flappers[i].at.Ended? }

  predicate ControlOk(s: FlapState) {
    && (s.closed <==> !s.main.Starting?)
    && s.tg == (if s.collecting then 1 else 0)
    && (!s.collecting ==> s.closed && s.queued == 0)
    && (s.main.Finished? ==> !s.collecting)
    && s.queued <= RESULT_CAPACITY
  }

  predicate Inv(cfg: Config, s: FlapState) {
    && !s.panicked
    && FlappersOk(cfg, s.flappers, s.log)
    && s.wg == Sum(Flaps, s.flappers)
    && ControlOk(s)
    && (s.closed ==> AllEnded(s))
  }

  /**
   A release that cannot be made: of a lease that was won only after flapping had begun, or of a DHCPv6 lease
   without client and server id.
   */
  predicate BadRelease(s: FlapState, a: FlapStep) {
    && a.Drop? && a.i < |s.flappers|
    && Holds(s.flappers[a.i], DropStack(s.flappers[a.i])) && !CanRelease(s.flappers[a.i], DropStack(s.flappers[a.i]))
  }

  /** What takes the program down: a bad release, an empty range of delays, or a broken answer. */
  predicate Fatal(cfg: Config, s: FlapState, a: FlapStep) {
    BadRelease(s, a) || (a.Check? && NoDelay(cfg, s, a.i)) || (a.Redial? && Breaks(cfg, a.x))
  }

  /** The state without regard to a panic. */
  function Unpanicked(s: FlapState): FlapState { s.(panicked := false) }
}
