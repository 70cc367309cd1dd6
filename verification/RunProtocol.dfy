/**
 A DORA run without flapping (sched.go: run, dialAll, dialv4, dialv6, collectResults; lease.go:
 saveLeaseToFiles) as a protocol: goroutine positions, bounded channels, WaitGroups, a cancellation and a
 channel close. A step belongs to one goroutine; sleeps are arbitrary scheduling.
 */
module RunProtocol {
  import opened Wrappers
  import opened Sums
  import opened Summary
  import opened LeaseMerge
  import opened Dialing

  datatype Thread = Running | Stopped

  datatype MainPosition = Spawning | Cancelling | AwaitSaver | Closing | AwaitCollector | Finished

  /** run itself: cancelled by savecancelf, interrupted from outside, the result channel closed. */
  datatype MainState = MainState(at: MainPosition, cancelled: bool, interrupted: bool, closed: bool)

  /** The collector and its channel; tallied is the history of what it has received. */
  datatype CollectorState = CollectorState(
    thread: Thread, tg: int, results: seq<DialResult>, tallied: seq<DialResult>, summary: Tally)

  type SavedMap = map<nat, Leases<nat, nat>>

  /** The saver and its channels; events is the history of what it has received. */
  datatype SaverState = SaverState(
    thread: Thread, wg: int, q4: seq<SavedLease>, q6: seq<SavedLease>,
    events: seq<Event<nat, nat, nat>>, leaseMap: SavedMap, file: Option<SavedMap>)
  {
    function Queue(k: Stack): seq<SavedLease> { if k.V4? then q4 else q6 }
  }

  /**
   panicked stands for what kills the program: a send on a closed channel, a second close, a negative
   WaitGroup counter, a call on nil.
   */
  datatype State = State(
    clients: seq<Client>, wg: int, main: MainState, col: CollectorState, sav: SaverState, panicked: bool)

  datatype Step =
    | Spawn(i: nat)
    | ClientMove(i: nat, x: ClientStep)
    | Collect
    | CollectorExit
    | MergeLease(k: Stack)
    | SaverExit
    | WaitDials
    | CancelSave
    | WaitSaver
    | CloseResults
    | WaitCollector
    | Interrupt

  function Repeat(n: nat, c: Client): (r: seq<Client>)
    ensures |r| == n && forall k :: 0 <= k < n ==> r[k] == c
  {
    if n == 0 then [] else Repeat(n - 1, c) + [c]
  }

  /** The collector and, if leases are saved, the saver are running; no client has been started. */
  function Init(cfg: Config): State {
    State(Repeat(cfg.n, FRESH), 0, MainState(Spawning, false, false, false),
          CollectorState(Running, 1, [], [], cfg.Zero()),
          if cfg.saveLease then SaverState(Running, 1, [], [], [], map[], None)
          else SaverState(Stopped, 0, [], [], [], map[], None),
          false)
  }

  // ---- steps ----

  /** The channels have room for the effect; a send on a closed channel does not block, it panics. */
  predicate HasRoom(s: State, e: Effect) {
    && (e.sends != [] ==> s.main.closed || |s.col.results| < RESULT_CAPACITY)
    && (e.v4 != [] ==> |s.sav.q4| < SAVE_CAPACITY)
    && (e.v6 != [] ==> |s.sav.q6| < SAVE_CAPACITY)
  }

  predicate ClientEnabled(s: State, i: nat, x: ClientStep) {
    i < |s.clients| && Ready(s.clients[i], x) && HasRoom(s, EffectOf(i, s.clients[i], x))
  }

  /** Client i becomes c with effect e; fatal: its own WaitGroup would go negative, or it makes a call on nil. */
  function Apply(s: State, i: nat, c: Client, e: Effect, fatal: bool): State
    requires i < |s.clients|
  {
    State(s.clients[i := c],
          s.wg - (if e.leaves then 1 else 0),
          s.main,
          s.col.(results := s.col.results + e.sends),
          s.sav.(q4 := s.sav.q4 + e.v4, q6 := s.sav.q6 + e.v6),
          fatal || (s.main.closed && e.sends != []) || (e.leaves && s.wg <= 0))
  }

  function ClientNext(cfg: Config, s: State, i: nat, x: ClientStep): State
    requires ClientEnabled(s, i, x)
  {
    var c := s.clients[i];
    Apply(s, i, Moved(cfg, i, c, x), EffectOf(i, c, x), (x.SubDone? && c.sub <= 0) || Breaks(cfg, x))
  }

  predicate SpawnEnabled(s: State, i: nat) {
    s.main.at.Spawning? && i < |s.clients| && s.clients[i].pc.NotStarted?
  }

  function SpawnNext(s: State, i: nat): State
    requires SpawnEnabled(s, i)
  {
    s.(clients := s.clients[i := s.clients[i].(pc := First)], wg := s.wg + 1)
  }

  /** The collector's loop ends when the channel is closed and empty. */
  function CollectNext(col: CollectorState): CollectorState
    requires col.results != []
  {
    var r := col.results[0];
    col.(results := col.results[1..], tallied := col.tallied + [r], summary := Observe(col.summary, r))
  }

  function MergeNext(sav: SaverState, k: Stack): SaverState
    requires sav.Queue(k) != []
  {
    var (id, lease) := sav.Queue(k)[0];
    var e := if k.V4? then GotV4(id, lease) else GotV6(id, lease);
    var sav' := sav.(events := sav.events + [e], leaseMap := Merge(sav.leaseMap, e));
    if k.V4? then sav'.(q4 := sav.q4[1..]) else sav'.(q6 := sav.q6[1..])
  }

  predicate AllStarted(s: State) { forall i :: 0 <= i < |s.clients| ==> !s.clients[i].pc.NotStarted? }

  /** Whether the goroutine that would take the step is there and does not block. */
  predicate Enabled(cfg: Config, s: State, a: Step) {
    && !s.panicked
    && match a
       case Spawn(i) => SpawnEnabled(s, i)
       case ClientMove(i, x) => ClientEnabled(s, i, x)
       case Collect => s.col.thread.Running? && s.col.results != []
       case CollectorExit => s.col.thread.Running? && s.main.closed && s.col.results == []
       case MergeLease(k) => s.sav.thread.Running? && s.sav.Queue(k) != []
       case SaverExit => s.sav.thread.Running? && (s.main.cancelled || s.main.interrupted)
       case WaitDials => s.main.at.Spawning? && s.wg == 0 && AllStarted(s)
       case CancelSave => s.main.at.Cancelling?
       case WaitSaver => s.main.at.AwaitSaver? && s.sav.wg == 0
       case CloseResults => s.main.at.Closing?
       case WaitCollector => s.main.at.AwaitCollector? && s.col.tg == 0
       case Interrupt => cfg.interruptible && !s.main.interrupted
  }

  function Next(cfg: Config, s: State, a: Step): State
    requires Enabled(cfg, s, a)
  {
    match a
    case Spawn(i) => SpawnNext(s, i)
    case ClientMove(i, x) => ClientNext(cfg, s, i, x)
    case Collect => s.(col := CollectNext(s.col))
    case CollectorExit => s.(col := s.col.(thread := Stopped, tg := s.col.tg - 1), panicked := s.col.tg <= 0)
    case MergeLease(k) => s.(sav := MergeNext(s.sav, k))
    case SaverExit =>
      s.(sav := s.sav.(thread := Stopped, file := Some(s.sav.leaseMap), wg := s.sav.wg - 1), panicked := s.sav.wg <= 0)
    case WaitDials => s.(main := s.main.(at := if cfg.saveLease then Cancelling else Closing))
    case CancelSave => s.(main := s.main.(at := AwaitSaver, cancelled := true))
    case WaitSaver => s.(main := s.main.(at := Closing))
    case CloseResults => s.(main := s.main.(at := AwaitCollector, closed := true), panicked := s.main.closed)
    case WaitCollector => s.(main := s.main.(at := Finished))
    case Interrupt => s.(main := s.main.(interrupted := true))
  }

  /** The client looks into an IA that the answer does not have. */
  predicate StepBreaks(cfg: Config, a: Step) { a.ClientMove? && Breaks(cfg, a.x) }

  /** The state without regard to a panic. */
  function Unpanicked(s: State): State { s.(panicked := false) }

  /** The steps lead from s to t. */
  ghost predicate Path(cfg: Config, s: State, steps: seq<Step>, t: State)
    decreases |steps|
  {
    if steps == [] then s == t
    else Enabled(cfg, s, steps[0]) && Path(cfg, Next(cfg, s, steps[0]), steps[1..], t)
  }

  // ---- invariants ----

  predicate ClientsOk(cfg: Config, clients: seq<Client>) {
    && |clients| == cfg.n
    && forall i :: 0 <= i < |clients| ==> ClientOk(cfg, i, clients[i])
  }

  predicate AllDone(clients: seq<Client>) { forall i :: 0 <= i < |clients| ==> clients[i].pc.Done? }

  /** What run has reached, given whether leases are saved. */
  predicate MainOk(cfg: Config, m: MainState) {
    && (m.closed <==> m.at.AwaitCollector? || m.at.Finished?)
    && (m.at.Cancelling? || m.at.AwaitSaver? ==> cfg.saveLease)
    && (m.cancelled <==> cfg.saveLease && !m.at.Spawning? && !m.at.Cancelling?)
    && (m.interrupted ==> cfg.interruptible)
  }

  /** The collector outlives the channel; its summary is that of the results it has received. */
  predicate CollectorOk(cfg: Config, m: MainState, col: CollectorState) {
    && col.tg == (if col.thread.Running? then 1 else 0)
    && (col.thread.Stopped? ==> m.closed && col.results == [])
    && (m.at.Finished? ==> col.thread.Stopped?)
    && |col.results| <= RESULT_CAPACITY
    && col.summary == TallyAll(cfg.Zero(), col.tallied)
  }

  /** The saver stops only once told to, and then has written what it had merged. */
  predicate SaverOk(cfg: Config, m: MainState, sav: SaverState) {
    && sav.wg == (if sav.thread.Running? then 1 else 0)
    && (sav.thread.Running? ==> cfg.saveLease && !m.closed && !m.at.Closing?)
    && (cfg.saveLease && sav.thread.Stopped? ==> m.cancelled || m.interrupted)
    && sav.file == (if cfg.saveLease && sav.thread.Stopped? then Some(sav.leaseMap) else None)
    && |sav.q4| <= SAVE_CAPACITY && |sav.q6| <= SAVE_CAPACITY
    && sav.leaseMap == MergeAll(sav.events)
  }

  /** Every result a dial has sent is still in the channel or has been collected, exactly once. */
  predicate ResultsKept(clients: seq<Client>, col: CollectorState) {
    multiset(col.tallied + col.results) == multiset(Gather(Reports, clients))
  }

  /** Every lease a dial has sent is still queued or has been merged, exactly once. */
  predicate LeasesKept(clients: seq<Client>, sav: SaverState) {
    && multiset(V4Stream(sav.events) + sav.q4) == multiset(Gather(Saved4, clients))
    && multiset(V6Stream(sav.events) + sav.q6) == multiset(Gather(Saved6, clients))
  }

  predicate Inv(cfg: Config, s: State) {
    && !s.panicked
    && ClientsOk(cfg, s.clients)
    && s.wg == Sum(Busy, s.clients)
    && (s.main.at.Spawning? || AllDone(s.clients))
    && MainOk(cfg, s.main) && CollectorOk(cfg, s.main, s.col) && SaverOk(cfg, s.main, s.sav)
    && ResultsKept(s.clients, s.col) && LeasesKept(s.clients, s.sav)
  }
}
