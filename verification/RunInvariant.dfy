/** The invariants of the run hold in every reachable state. */
module RunInvariant {
  import opened Wrappers
  import opened Sums
  import opened Summary
  import opened LeaseMerge
  import opened Dialing
  import opened RunProtocol

  lemma FreshClient(cfg: Config, i: nat)
    ensures ClientOk(cfg, i, FRESH) && Busy(FRESH) == 0
    ensures Reports(FRESH) == [] && Saved4(FRESH) == [] && Saved6(FRESH) == []
  {}

  lemma FreshTotals(clients: seq<Client>)
    requires forall k :: 0 <= k < |clients| ==> clients[k] == FRESH
    ensures Sum(Busy, clients) == 0
    ensures Gather(Reports, clients) == [] && Gather(Saved4, clients) == [] && Gather(Saved6, clients) == []
  {
    SumConstant(Busy, clients, 0);
    GatherLength(Reports, clients, 0);
    GatherLength(Saved4, clients, 0);
    GatherLength(Saved6, clients, 0);
  }

  lemma FreshClients(cfg: Config, clients: seq<Client>)
    requires |clients| == cfg.n && forall k :: 0 <= k < cfg.n ==> clients[k] == FRESH
    ensures ClientsOk(cfg, clients)
  {
    forall i | 0 <= i < cfg.n ensures ClientOk(cfg, i, clients[i]) { FreshClient(cfg, i); }
  }

  lemma InitHolds(cfg: Config)
    ensures Inv(cfg, Init(cfg))
  {
    FreshClients(cfg, Repeat(cfg.n, FRESH));
    FreshTotals(Repeat(cfg.n, FRESH));
  }

  // ---- steps of a client ----

  /** The counter of a WaitGroup is positive while someone it counts is busy. */
  lemma BusyCounted(cfg: Config, s: State, i: nat)
    requires Inv(cfg, s) && i < |s.clients|
    ensures s.wg >= Busy(s.clients[i])
  {
    SumNonNegative(Busy, s.clients);
  }

  /** A client's results and leases reach the channels, each once. */
  lemma Transfer<T>(f: Client -> seq<T>, clients: seq<Client>, i: nat, c: Client, kept: seq<T>, sent: seq<T>)
    requires i < |clients|
    requires multiset(kept) == multiset(Gather(f, clients))
    requires multiset(f(c)) == multiset(f(clients[i])) + multiset(sent)
    ensures multiset(kept + sent) == multiset(Gather(f, clients[i := c]))
  {
    GatherUpdate(f, clients, i, c);
    Cancel(multiset(Gather(f, clients[i := c])), multiset(kept + sent), multiset(f(clients[i])));
  }

  lemma Cancel<T>(a: multiset<T>, b: multiset<T>, x: multiset<T>)
    requires a + x == b + x
    ensures a == b
  {
    assert a == a + x - x;
    assert b == b + x - x;
  }

  lemma ResultsTransfer(clients: seq<Client>, i: nat, c: Client, col: CollectorState, sends: seq<DialResult>)
    requires i < |clients| && ResultsKept(clients, col)
    requires multiset(Reports(c)) == multiset(Reports(clients[i])) + multiset(sends)
    ensures ResultsKept(clients[i := c], col.(results := col.results + sends))
  {
    Transfer(Reports, clients, i, c, col.tallied + col.results, sends);
    Assoc(col.tallied, col.results, sends);
  }

  lemma LeasesTransfer(clients: seq<Client>, i: nat, c: Client, sav: SaverState,
                       v4: seq<SavedLease>, v6: seq<SavedLease>)
    requires i < |clients| && LeasesKept(clients, sav)
    requires Saved4(c) == Saved4(clients[i]) + v4 && Saved6(c) == Saved6(clients[i]) + v6
    ensures LeasesKept(clients[i := c], sav.(q4 := sav.q4 + v4, q6 := sav.q6 + v6))
  {
    Transfer(Saved4, clients, i, c, V4Stream(sav.events) + sav.q4, v4);
    Transfer(Saved6, clients, i, c, V6Stream(sav.events) + sav.q6, v6);
    Assoc(V4Stream(sav.events), sav.q4, v4);
    Assoc(V6Stream(sav.events), sav.q6, v6);
  }

  lemma ClientsUpdate(cfg: Config, clients: seq<Client>, i: nat, c: Client)
    requires ClientsOk(cfg, clients) && i < |clients| && ClientOk(cfg, i, c)
    ensures ClientsOk(cfg, clients[i := c])
    ensures Sum(Busy, clients[i := c]) == Sum(Busy, clients) - Busy(clients[i]) + Busy(c)
  {
    SumUpdate(Busy, clients, i, c);
  }

  lemma ChannelsUpdate(cfg: Config, s: State, e: Effect)
    requires CollectorOk(cfg, s.main, s.col) && SaverOk(cfg, s.main, s.sav) && HasRoom(s, e) && !s.main.closed
    requires |e.sends| <= 1 && |e.v4| <= 1 && |e.v6| <= 1
    ensures CollectorOk(cfg, s.main, s.col.(results := s.col.results + e.sends))
    ensures SaverOk(cfg, s.main, s.sav.(q4 := s.sav.q4 + e.v4, q6 := s.sav.q6 + e.v6))
  {}

  /** The parts of the invariant, put together for the state after a client's step. */
  lemma ApplyKeeps(cfg: Config, s: State, i: nat, c: Client, e: Effect)
    requires i < |s.clients| && s.main.at.Spawning? && MainOk(cfg, s.main)
    requires e.leaves ==> s.wg > 0
    requires ClientsOk(cfg, s.clients[i := c])
    requires s.wg - (if e.leaves then 1 else 0) == Sum(Busy, s.clients[i := c])
    requires CollectorOk(cfg, s.main, s.col.(results := s.col.results + e.sends))
    requires SaverOk(cfg, s.main, s.sav.(q4 := s.sav.q4 + e.v4, q6 := s.sav.q6 + e.v6))
    requires ResultsKept(s.clients[i := c], s.col.(results := s.col.results + e.sends))
    requires LeasesKept(s.clients[i := c], s.sav.(q4 := s.sav.q4 + e.v4, q6 := s.sav.q6 + e.v6))
    ensures Inv(cfg, Apply(s, i, c, e, false))
  {}

  lemma ApplyPremises(cfg: Config, s: State, i: nat, c: Client, e: Effect)
    requires Inv(cfg, s) && i < |s.clients| && HasRoom(s, e)
    requires Proceeds(cfg, i, s.clients[i], c, e.leaves) && Delivers(s.clients[i], c, e.sends, e.v4, e.v6)
    ensures s.main.at.Spawning? && (e.leaves ==> s.wg > 0)
    ensures ClientsOk(cfg, s.clients[i := c])
    ensures s.wg - (if e.leaves then 1 else 0) == Sum(Busy, s.clients[i := c])
    ensures CollectorOk(cfg, s.main, s.col.(results := s.col.results + e.sends))
    ensures SaverOk(cfg, s.main, s.sav.(q4 := s.sav.q4 + e.v4, q6 := s.sav.q6 + e.v6))
  {
    BusyCounted(cfg, s, i);
    ClientsUpdate(cfg, s.clients, i, c);
    ChannelsUpdate(cfg, s, e);
  }

  lemma ClientMoveKeeps(cfg: Config, s: State, i: nat, x: ClientStep)
    requires Inv(cfg, s) && ClientEnabled(s, i, x)
    ensures Inv(cfg, Unpanicked(ClientNext(cfg, s, i, x)))
    ensures ClientNext(cfg, s, i, x).panicked <==> Breaks(cfg, x)
  {
    var c := s.clients[i];
    StepProceeds(cfg, i, c, x);
    StepDelivers(cfg, i, c, x);
    var (c', e) := (Moved(cfg, i, c, x), EffectOf(i, c, x));
    ApplyPremises(cfg, s, i, c', e);
    ResultsTransfer(s.clients, i, c', s.col, e.sends);
    LeasesTransfer(s.clients, i, c', s.sav, e.v4, e.v6);
    ApplyKeeps(cfg, s, i, c', e);
  }

  lemma NothingSent(clients: seq<Client>, i: nat, c: Client, col: CollectorState, sav: SaverState)
    requires i < |clients| && ResultsKept(clients, col) && LeasesKept(clients, sav)
    requires Reports(c) == Reports(clients[i]) && Saved4(c) == Saved4(clients[i]) && Saved6(c) == Saved6(clients[i])
    ensures ResultsKept(clients[i := c], col) && LeasesKept(clients[i := c], sav)
  {
    Transfer(Reports, clients, i, c, col.tallied + col.results, []);
    Transfer(Saved4, clients, i, c, V4Stream(sav.events) + sav.q4, []);
    Transfer(Saved6, clients, i, c, V6Stream(sav.events) + sav.q6, []);
    FirstToEnd(col.tallied + col.results, []);
    FirstToEnd(V4Stream(sav.events) + sav.q4, []);
    FirstToEnd(V6Stream(sav.events) + sav.q6, []);
  }

  lemma SpawnedClient(cfg: Config, i: nat, c: Client)
    requires ClientOk(cfg, i, c) && c.pc.NotStarted?
    ensures ClientOk(cfg, i, c.(pc := First)) && Busy(c) == 0 && Busy(c.(pc := First)) == 1
  {}

  lemma SpawnParts(cfg: Config, s: State, i: nat, clients: seq<Client>)
    requires SpawnEnabled(s, i) && clients == s.clients[i := s.clients[i].(pc := First)]
    requires !s.panicked && MainOk(cfg, s.main) && CollectorOk(cfg, s.main, s.col) && SaverOk(cfg, s.main, s.sav)
    requires ClientsOk(cfg, clients) && s.wg + 1 == Sum(Busy, clients)
    requires ResultsKept(clients, s.col) && LeasesKept(clients, s.sav)
    ensures Inv(cfg, SpawnNext(s, i))
  {}

  lemma SpawnKeeps(cfg: Config, s: State, i: nat)
    requires Inv(cfg, s) && SpawnEnabled(s, i)
    ensures Inv(cfg, SpawnNext(s, i))
  {
    var c := s.clients[i].(pc := First);
    SpawnedClient(cfg, i, s.clients[i]);
    ClientsUpdate(cfg, s.clients, i, c);
    NothingSent(s.clients, i, c, s.col, s.sav);
    SpawnParts(cfg, s, i, s.clients[i := c]);
  }

  // ---- steps of the collector and the saver ----

  lemma CollectKeepsCollector(cfg: Config, m: MainState, col: CollectorState)
    requires CollectorOk(cfg, m, col) && col.results != [] && col.thread.Running?
    ensures CollectorOk(cfg, m, CollectNext(col))
  {
    TallySnoc(cfg.Zero(), col.tallied, col.results[0]);
  }

  lemma CollectKeeps(cfg: Config, clients: seq<Client>, m: MainState, col: CollectorState)
    requires CollectorOk(cfg, m, col) && ResultsKept(clients, col) && col.results != [] && col.thread.Running?
    ensures CollectorOk(cfg, m, CollectNext(col)) && ResultsKept(clients, CollectNext(col))
  {
    CollectKeepsCollector(cfg, m, col);
    FirstToEnd(col.tallied, col.results);
  }

  lemma MergeStream(sav: SaverState, k: Stack, l: Stack)
    requires sav.Queue(k) != []
    ensures var sav' := MergeNext(sav, k);
      Stream(sav'.events, l) + sav'.Queue(l) == Stream(sav.events, l) + sav.Queue(l)
  {
    var (id, lease) := sav.Queue(k)[0];
    var events := MergeNext(sav, k).events;
    assert events[..|sav.events|] == sav.events;
    assert Stream(events, l) == Stream(sav.events, l) + if l == k then [(id, lease)] else [];
    FirstToEnd(Stream(sav.events, l), sav.Queue(l));
  }

  function Stream(events: seq<Event<nat, nat, nat>>, k: Stack): seq<SavedLease> {
    if k.V4? then V4Stream(events) else V6Stream(events)
  }

  lemma MergeKeepsSaver(cfg: Config, m: MainState, sav: SaverState, k: Stack)
    requires SaverOk(cfg, m, sav) && sav.Queue(k) != [] && sav.thread.Running?
    ensures SaverOk(cfg, m, MergeNext(sav, k))
  {
    var (id, lease) := sav.Queue(k)[0];
    MergeAllSnoc(sav.events, if k.V4? then GotV4(id, lease) else GotV6(id, lease));
  }

  lemma MergeKeeps(cfg: Config, clients: seq<Client>, m: MainState, sav: SaverState, k: Stack)
    requires SaverOk(cfg, m, sav) && LeasesKept(clients, sav) && sav.Queue(k) != [] && sav.thread.Running?
    ensures SaverOk(cfg, m, MergeNext(sav, k)) && LeasesKept(clients, MergeNext(sav, k))
  {
    MergeKeepsSaver(cfg, m, sav, k);
    MergeStream(sav, k, V4);
    MergeStream(sav, k, V6);
  }

  lemma FirstToEnd<T>(a: seq<T>, q: seq<T>)
    ensures q != [] ==> a + [q[0]] + q[1..] == a + q
    ensures a + [] == a
  {}

  // ---- every step ----

  lemma OtherStepsKeep(cfg: Config, s: State, a: Step)
    requires Inv(cfg, s) && Enabled(cfg, s, a)
    requires
      || a.CollectorExit? || a.SaverExit? || a.CancelSave? || a.WaitSaver?
      || a.CloseResults? || a.WaitCollector? || a.Interrupt?
    ensures Inv(cfg, Next(cfg, s, a))
  {}

  /** All dials have been started and none is counted any more: all are done. */
  lemma NobodyBusy(cfg: Config, s: State)
    requires Inv(cfg, s) && s.wg == 0 && AllStarted(s)
    ensures AllDone(s.clients)
  {
    forall i | 0 <= i < |s.clients| ensures s.clients[i].pc.Done? { BusyCounted(cfg, s, i); }
  }

  lemma GoroutinesKeep(cfg: Config, s: State, a: Step)
    requires Inv(cfg, s) && Enabled(cfg, s, a) && !a.ClientMove?
    ensures Inv(cfg, Next(cfg, s, a))
  {
    match a
    case Spawn(i) => SpawnKeeps(cfg, s, i);
    case Collect => CollectKeeps(cfg, s.clients, s.main, s.col);
    case MergeLease(k) => MergeKeeps(cfg, s.clients, s.main, s.sav, k);
    case WaitDials => NobodyBusy(cfg, s);
    case _ => OtherStepsKeep(cfg, s, a);
  }

  lemma InvUnpanicked(cfg: Config, s: State)
    requires Inv(cfg, s)
    ensures Unpanicked(s) == s && !s.panicked
  {}

  /** A step keeps the invariants, but for a panic, and exactly a broken answer makes one. */
  lemma StepKeeps(cfg: Config, s: State, a: Step)
    requires Inv(cfg, s) && Enabled(cfg, s, a)
    ensures Inv(cfg, Unpanicked(Next(cfg, s, a)))
    ensures Next(cfg, s, a).panicked <==> StepBreaks(cfg, a)
  {
    if a.ClientMove? {
      ClientMoveKeeps(cfg, s, a.i, a.x);
    } else {
      GoroutinesKeep(cfg, s, a);
      InvUnpanicked(cfg, Next(cfg, s, a));
    }
  }

  /** Nothing happens after a panic. */
  lemma PanicIsLast(cfg: Config, s: State, steps: seq<Step>, t: State)
    requires s.panicked && Path(cfg, s, steps, t)
    ensures steps == [] && t == s
  {}

  /** The invariants hold in every state a run can reach, but for a panic. */
  lemma {:induction false} PathKeeps(cfg: Config, s: State, steps: seq<Step>, t: State)
    requires Inv(cfg, s) && Path(cfg, s, steps, t)
    ensures Inv(cfg, Unpanicked(t))
    decreases |steps|
  {
    if steps == [] {
    } else {
      StepKeeps(cfg, s, steps[0]);
      if StepBreaks(cfg, steps[0]) {
        PanicIsLast(cfg, Next(cfg, s, steps[0]), steps[1..], t);
      } else {
        PathKeeps(cfg, Next(cfg, s, steps[0]), steps[1..], t);
      }
    }
  }

  /** A state reached without a panic keeps them all. */
  lemma ReachedInv(cfg: Config, steps: seq<Step>, t: State)
    requires Path(cfg, Init(cfg), steps, t) && !t.panicked
    ensures Inv(cfg, t)
  {
    InitHolds(cfg);
    PathKeeps(cfg, Init(cfg), steps, t);
    assert Unpanicked(t) == t;
  }

  /** Every DHCPv6 answer carries what the dial looks into, or there is none. */
  predicate Unbreakable(cfg: Config) { cfg.complete || !cfg.enable6 || cfg.n == 0 }

  lemma BreaksDialed(cfg: Config, i: nat, c: Client, x: ClientStep)
    requires ClientOk(cfg, i, c) && Ready(c, x) && Breaks(cfg, x)
    ensures cfg.enable6
  {}

  lemma NothingBreaks(cfg: Config, s: State, a: Step)
    requires Inv(cfg, s) && Enabled(cfg, s, a) && Unbreakable(cfg)
    ensures !StepBreaks(cfg, a)
  {
    if StepBreaks(cfg, a) { BreaksDialed(cfg, a.i, s.clients[a.i], a.x); }
  }

  /** Where no answer can break a dial nothing panics, and the invariants hold without exception. */
  lemma {:induction false} UnbreakableKeeps(cfg: Config, s: State, steps: seq<Step>, t: State)
    requires Inv(cfg, s) && Path(cfg, s, steps, t) && Unbreakable(cfg)
    ensures Inv(cfg, t)
    decreases |steps|
  {
    if steps == [] {
    } else {
      StepKeeps(cfg, s, steps[0]);
      NothingBreaks(cfg, s, steps[0]);
      UnbreakableKeeps(cfg, Next(cfg, s, steps[0]), steps[1..], t);
    }
  }
}
