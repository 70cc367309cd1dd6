/** Flapping takes over where the run of the first dials stands once all of them are over. */
module FlappingStart {
  import opened Wrappers
  import opened Sums
  import opened Summary
  import opened Dialing
  import RunProtocol
  import RunInvariant
  import RunLiveness
  import RunWitness
  import opened Flapping
  import opened FlappingProof
  import FlappingWitness
  import FlappingEnd

  // ---- which clients flap ----

  /**
   The loop that starts the flappers; its counter i is compared with flapNum but never incremented. As many
   clients flap as asked for exactly when none or all are asked for.
   */
  method StartFlappers<T>(clients: seq<T>, flapNum: int) returns (started: seq<T>)
    ensures started == clients || started == []
    ensures flapNum > 0 ==> started == clients
    ensures |started| == flapNum <==> flapNum == 0 || flapNum == |clients|
  {
    started := [];
    if flapNum > 0 {
      var i := 0;
      for n := 0 to |clients|
        invariant i == 0 && started == clients[..n]
      {
        if i < flapNum {
          started := started + [clients[n]];
        }
      }
    }
  }

  // ---- the take-over ----

  /** A client with clients for releases, made for just the leases it holds. */
  function Landed(c: Client): Flapper {
    Flapper(NotFlapping, c, (if c.held4 != NoLease then {V4} else {}) + (if c.held6 != NoLease then {V6} else {}))
  }

  /** The state that flapping of all clients starts from; an interrupt during the first dials ends it at once. */
  function TakeOver(s: RunProtocol.State): FlapState {
    FlapState(
      seq(|s.clients|, i requires 0 <= i < |s.clients| => Landed(s.clients[i])), 0, Starting, s.main.interrupted,
      false, true, 1, s.col.tallied + s.col.results, |s.col.results|, |s.sav.q4|, |s.sav.q6|, false)
  }

  lemma {:induction false} NoneConcerned(log: seq<DialResult>, i: nat, k: Stack)
    requires forall r :: r in log ==> !Concerns(r, i, k)
    ensures History(log, i, k) == []
  {
    if log == [] {
    } else {
      NoneConcerned(log[..|log| - 1], i, k);
    }
  }

  /** The history of a stack that only one entry concerns, once. */
  lemma {:induction false} OneConcerned(log: seq<DialResult>, i: nat, k: Stack, r: DialResult)
    requires Concerns(r, i, k) && multiset(log)[r] == 1
    requires forall q :: q in log && Concerns(q, i, k) ==> q == r
    ensures History(log, i, k) == [r.action]
  {
    var rest, last := log[..|log| - 1], log[|log| - 1];
    assert log == rest + [last];
    assert multiset(log) == multiset(rest) + multiset{last};
    if last == r {
      NoneConcerned(rest, i, k);
    } else {
      OneConcerned(rest, i, k, r);
    }
  }

  lemma DoneReports(cfg: Config, i: nat, c: Client, k: Stack)
    requires ClientOk(cfg, i, c) && c.pc.Done? && cfg.Enables(k)
    ensures c.DialOf(k).Gone? && Concerns(c.DialOf(k).r, i, k) && c.DialOf(k).r.action == DORA
    ensures multiset(Reports(c))[c.DialOf(k).r] == 1
    ensures forall q :: q in Reports(c) && Concerns(q, i, k) ==> q == c.DialOf(k).r
  {}

  lemma OnlyOwnReports(cfg: Config, i: nat, c: Client)
    requires ClientOk(cfg, i, c)
    ensures forall q :: q in Reports(c) ==> q.client == i
  {}

  /** Whose report it is. */
  lemma Reporter(cfg: Config, clients: seq<Client>, i: nat, k: Stack, q: DialResult)
    requires RunProtocol.ClientsOk(cfg, clients) && q in Gather(Reports, clients) && Concerns(q, i, k)
    ensures i < |clients| && q in Reports(clients[i])
  {
    GatherOrigin(Reports, clients, q);
    var j :| 0 <= j < |clients| && q in Reports(clients[j]);
    OnlyOwnReports(cfg, j, clients[j]);
  }

  lemma ReportedOnce(cfg: Config, clients: seq<Client>, i: nat, k: Stack)
    requires RunProtocol.ClientsOk(cfg, clients) && i < |clients| && clients[i].pc.Done? && cfg.Enables(k)
    ensures clients[i].DialOf(k).Gone? && multiset(Gather(Reports, clients))[clients[i].DialOf(k).r] == 1
  {
    DoneReports(cfg, i, clients[i], k);
    var r := clients[i].DialOf(k).r;
    forall j | 0 <= j < |clients| && j != i ensures r !in Reports(clients[j]) {
      OnlyOwnReports(cfg, j, clients[j]);
    }
    GatherCount(Reports, clients, i, r);
  }

  lemma FirstDialIn(cfg: Config, clients: seq<Client>, log: seq<DialResult>, i: nat, k: Stack)
    requires RunProtocol.ClientsOk(cfg, clients) && i < |clients| && clients[i].pc.Done? && cfg.Enables(k)
    requires multiset(log) == multiset(Gather(Reports, clients))
    ensures History(log, i, k) == [DORA]
  {
    DoneReports(cfg, i, clients[i], k);
    ReportedOnce(cfg, clients, i, k);
    forall q | q in log && Concerns(q, i, k) ensures q == clients[i].DialOf(k).r {
      assert q in multiset(log);
      Reporter(cfg, clients, i, k, q);
    }
    OneConcerned(log, i, k, clients[i].DialOf(k).r);
  }

  /** After the first dials the log holds exactly one DORA of every dialed stack. */
  lemma FirstDialLogged(cfg: Config, s: RunProtocol.State, i: nat, k: Stack)
    requires RunProtocol.Inv(cfg, s) && RunProtocol.AllDone(s.clients) && i < |s.clients| && cfg.Enables(k)
    ensures History(s.col.tallied + s.col.results, i, k) == [DORA]
  {
    FirstDialIn(cfg, s.clients, s.col.tallied + s.col.results, i, k);
  }

  lemma LandedOk(c: Client, k: Stack)
    ensures k in Landed(c).other <==> Holds(Landed(c), k)
  {}

  lemma LandedBegins(cfg: Config, s: RunProtocol.State, i: nat)
    requires RunProtocol.Inv(cfg, s) && s.main.at.Closing? && i < |s.clients|
    ensures BeginsAt(cfg, s.col.tallied + s.col.results, i, Landed(s.clients[i]))
  {
    var c := s.clients[i];
    assert ClientOk(cfg, i, c);
    forall k
      ensures k in Landed(c).other <==> c.HeldOf(k) != NoLease
      ensures c.HeldOf(k) != NoLease ==> History(s.col.tallied + s.col.results, i, k) == [DORA]
    {
      LandedOk(c, k);
      if c.HeldOf(k) != NoLease {
        assert LeaseOk(cfg, c, k);
        FirstDialLogged(cfg, s, i, k);
      }
    }
  }

  /** The end of the first dials is a beginning for flapping. */
  lemma FlappingBegins(cfg: Config, s: RunProtocol.State)
    requires RunProtocol.Inv(cfg, s) && s.main.at.Closing?
    ensures Begins(cfg, TakeOver(s))
  {
    forall i | 0 <= i < |s.clients|
      ensures BeginsAt(cfg, s.col.tallied + s.col.results, i, Landed(s.clients[i]))
    {
      LandedBegins(cfg, s, i);
    }
  }

  /** Every result of the first dials is a success. */
  predicate AllSucceeded(s: RunProtocol.State) {
    (forall r :: r in s.col.tallied ==> r.ok) && forall r :: r in s.col.results ==> r.ok
  }

  lemma SuccessHolds(cfg: Config, i: nat, c: Client, k: Stack)
    requires ClientOk(cfg, i, c) && c.DialOf(k).Gone? && c.DialOf(k).r.ok
    ensures c.HeldOf(k) != NoLease
  {}

  /** After successful first dials only, all enabled stacks are leased. */
  lemma SuccessLeases(cfg: Config, s: RunProtocol.State)
    requires RunProtocol.Inv(cfg, s) && s.main.at.Closing? && AllSucceeded(s)
    ensures AllLeased(cfg, TakeOver(s))
  {
    forall i, k | 0 <= i < |s.clients| && cfg.Enables(k) ensures k in Landed(s.clients[i]).other {
      DialSucceeded(cfg, s, i, k);
      LandedOk(s.clients[i], k);
    }
  }

  lemma DialSucceeded(cfg: Config, s: RunProtocol.State, i: nat, k: Stack)
    requires RunProtocol.Inv(cfg, s) && RunProtocol.AllDone(s.clients) && AllSucceeded(s)
    requires i < |s.clients| && cfg.Enables(k)
    ensures s.clients[i].HeldOf(k) != NoLease
  {
    assert s.clients[i].pc.Done?;
    ReportedOnce(cfg, s.clients, i, k);
    var r := s.clients[i].DialOf(k).r;
    assert r in multiset(s.col.tallied + s.col.results);
    SuccessHolds(cfg, i, s.clients[i], k);
  }

  // ---- programs from their start ----

  /** The dials of a program up to the point where flapping takes over. */
  ghost predicate DialsLeadTo(cfg: Config, dials: seq<RunProtocol.Step>, s: RunProtocol.State) {
    RunProtocol.Path(cfg, RunProtocol.Init(cfg), dials, s) && !s.panicked && s.main.at.Closing?
  }

  lemma DialsKeep(cfg: Config, dials: seq<RunProtocol.Step>, s: RunProtocol.State)
    requires DialsLeadTo(cfg, dials, s)
    ensures RunProtocol.Inv(cfg, s) && Begins(cfg, TakeOver(s)) && |s.clients| == cfg.n
  {
    RunInvariant.ReachedInv(cfg, dials, s);
    FlappingBegins(cfg, s);
  }

  /**
   A flapping program from its start, when every first dial succeeds, delays can be drawn and DHCPv6 answers
   carry what the program looks into: under every scheduling of the dials and of flapping, nothing panics and
   each stack's transactions alternate between DORA and release.
   */
  lemma FlappingProgram(cfg: Config, dials: seq<RunProtocol.Step>, s: RunProtocol.State,
                        steps: seq<FlapStep>, t: FlapState, i: nat, k: Stack)
    requires DialsLeadTo(cfg, dials, s) && AllSucceeded(s) && SafeSetup(cfg)
    requires Path(cfg, TakeOver(s), steps, t) && i < cfg.n && cfg.Enables(k)
    ensures !t.panicked && (t.closed ==> AllEnded(t))
    ensures Alternates(History(t.log, i, k))
  {
    DialsKeep(cfg, dials, s);
    SuccessLeases(cfg, s);
    FlappingHistory(cfg, TakeOver(s), steps, t, i, k);
  }

  /** What the program has reported when the first dials are over. */
  function FirstReports(s: RunProtocol.State): seq<DialResult> { s.col.tallied + s.col.results }

  /** A program that is interrupted during its first dials does not flap: it reports nothing else. */
  lemma InterruptedNeverFlaps(cfg: Config, dials: seq<RunProtocol.Step>, s: RunProtocol.State,
                              steps: seq<FlapStep>, t: FlapState)
    requires DialsLeadTo(cfg, dials, s) && s.main.interrupted && Path(cfg, TakeOver(s), steps, t)
    ensures t.log == FirstReports(s)
  {
    FlappingEnd.NothingAfterStop(cfg, TakeOver(s), steps, t);
  }

  /** While flapping, a whole program saves no more leases of a stack than the queue had places left. */
  lemma FewSavedWhileFlapping(cfg: Config, dials: seq<RunProtocol.Step>, s: RunProtocol.State,
                              steps: seq<FlapStep>, t: FlapState, k: Stack)
    requires DialsLeadTo(cfg, dials, s) && cfg.saveLease && Path(cfg, TakeOver(s), steps, t)
    ensures FlappingEnd.Succeeded(t.log, k) - FlappingEnd.Succeeded(FirstReports(s), k) <= 8 - |s.sav.Queue(k)|
  {
    DialsKeep(cfg, dials, s);
    FlappingEnd.FewRedialsSucceed(cfg, TakeOver(s), steps, t, k);
  }

  // ---- programs that jam while flapping ----

  ghost predicate ProgramCanJam(cfg: Config) {
    exists dials, s :: DialsLeadTo(cfg, dials, s) && FlappingWitness.CanJam(cfg, TakeOver(s))
  }

  /** The first client gets and saves one lease, everything else is refused. */
  lemma OneLeased(cfg: Config) returns (dials: seq<RunProtocol.Step>, s: RunProtocol.State)
    requires cfg.saveLease && cfg.Dials() && cfg.n > 0
    ensures DialsLeadTo(cfg, dials, s) && !s.main.interrupted && s.clients != []
    ensures forall k :: s.clients[0].HeldOf(k) == if k == RunWitness.DialedFirst(cfg) then Usable else NoLease
  {
    var first, m := RunWitness.OneSaved(cfg);
    var rest;
    rest, s := RunWitness.DriveTo(cfg, m, RunProtocol.Closing);
    RunWitness.PathConcat(cfg, RunProtocol.Init(cfg), first, m, rest, s);
    dials := first + rest;
  }

  lemma LandedReleasable(c: Client, k: Stack)
    requires forall l :: c.HeldOf(l) == if l == k then Usable else NoLease
    ensures FlappingWitness.Releasable(Landed(c), k)
  {
    assert c.HeldOf(V4) != Bare && c.HeldOf(V6) != Bare;
    forall l ensures l in Landed(c).other <==> Holds(Landed(c), l) { LandedOk(c, l); }
  }

  /**
   Which programs can jam while flapping, from their start: exactly those that save leases, have a client that
   dials, and can draw delays.
   */
  lemma ProgramJamsIffSaving(cfg: Config)
    ensures ProgramCanJam(cfg) <==> cfg.saveLease && cfg.Dials() && cfg.n > 0 && cfg.flapSpread > 0
  {
    if cfg.saveLease && cfg.Dials() && cfg.n > 0 && cfg.flapSpread > 0 {
      var dials, s := OneLeased(cfg);
      DialsKeep(cfg, dials, s);
      LandedReleasable(s.clients[0], RunWitness.DialedFirst(cfg));
      FlappingWitness.OneCanJam(cfg, TakeOver(s), 0, RunWitness.DialedFirst(cfg));
    }
    if ProgramCanJam(cfg) {
      var dials, s :| DialsLeadTo(cfg, dials, s) && FlappingWitness.CanJam(cfg, TakeOver(s));
      DialsKeep(cfg, dials, s);
      FlappingWitness.JamNeeds(cfg, TakeOver(s));
    }
  }

  /** After any uninterrupted first dials that all succeed, flapping can jam exactly when leases are saved. */
  lemma JamsAfterDialsIffSaving(cfg: Config, dials: seq<RunProtocol.Step>, s: RunProtocol.State)
    requires DialsLeadTo(cfg, dials, s) && AllSucceeded(s) && (cfg.enable6 ==> cfg.conforming)
    requires !s.main.interrupted && cfg.n > 0 && cfg.Dials()
    ensures FlappingWitness.CanJam(cfg, TakeOver(s)) <==> cfg.saveLease && cfg.flapSpread > 0
  {
    DialsKeep(cfg, dials, s);
    SuccessLeases(cfg, s);
    NotBare(cfg, TakeOver(s), 0);
    FlappingWitness.JamsIffSaving(cfg, TakeOver(s));
  }

  lemma NotBare(cfg: Config, s: FlapState, i: nat)
    requires Begins(cfg, s) && (cfg.enable6 ==> cfg.conforming) && i < |s.flappers|
    ensures !FlappingWitness.HoldsBare(s.flappers[i])
  {
    assert BeginsAt(cfg, s.log, i, s.flappers[i]);
    assert LeaseOk(cfg, s.flappers[i].client, V4) && LeaseOk(cfg, s.flappers[i].client, V6);
  }

  // ---- programs that panic while flapping ----

  /** Some run of the whole program panics while flapping. */
  ghost predicate ProgramCanPanic(cfg: Config) {
    exists dials, s :: DialsLeadTo(cfg, dials, s) && FlappingWitness.CanPanic(cfg, TakeOver(s))
  }

  /** The first dials may all be refused. */
  lemma AllRefused(cfg: Config) returns (dials: seq<RunProtocol.Step>, s: RunProtocol.State)
    ensures DialsLeadTo(cfg, dials, s) && !s.main.interrupted && |s.clients| == cfg.n
    ensures forall i, k :: 0 <= i < |s.clients| ==> s.clients[i].HeldOf(k) == NoLease
  {
    var init := RunProtocol.Init(cfg);
    RunInvariant.InitHolds(cfg);
    assert forall i, k :: 0 <= i < |init.clients| ==> init.clients[i].HeldOf(k) == NoLease;
    dials, s := RunWitness.DriveTo(cfg, init, RunProtocol.Closing);
  }

  lemma RefusedIsUnleased(cfg: Config, s: RunProtocol.State, k: Stack)
    requires s.clients != [] && s.clients[0].HeldOf(k) == NoLease && cfg.Enables(k)
    ensures !AllLeased(cfg, TakeOver(s))
  {
    LandedOk(s.clients[0], k);
    assert TakeOver(s).flappers[0] == Landed(s.clients[0]);
  }

  /**
   Which programs can panic while flapping, from their start. Nothing but the server's refusals is needed: all
   that dial at all, and those with clients that cannot draw delays.
   */
  lemma PanicsIffDials(cfg: Config)
    ensures ProgramCanPanic(cfg) <==> cfg.n > 0 && (cfg.Dials() || cfg.flapSpread == 0)
  {
    if cfg.n > 0 && (cfg.Dials() || cfg.flapSpread == 0) {
      var dials, s := AllRefused(cfg);
      DialsKeep(cfg, dials, s);
      if cfg.Dials() { RefusedIsUnleased(cfg, s, if cfg.enable4 then V4 else V6); }
      FlappingWitness.PanicsIffUnsafe(cfg, TakeOver(s));
    }
    if ProgramCanPanic(cfg) {
      var dials, s :| DialsLeadTo(cfg, dials, s) && FlappingWitness.CanPanic(cfg, TakeOver(s));
      DialsKeep(cfg, dials, s);
      if cfg.n == 0 || !(cfg.Dials() || cfg.flapSpread == 0) { NothingToFlap(cfg, TakeOver(s)); }
    }
  }

  lemma NothingToFlap(cfg: Config, s: FlapState)
    requires Begins(cfg, s) && (s.flappers == [] || (!cfg.Dials() && cfg.flapSpread > 0))
    ensures !FlappingWitness.CanPanic(cfg, s)
  {
    assert forall k :: !cfg.Dials() ==> !cfg.Enables(k);
    assert Safe(cfg, s);
    BeginsInOrder(cfg, s);
    forall steps, t | Path(cfg, s, steps, t) ensures !t.panicked { FlappingKeeps(cfg, s, steps, t); }
  }
}
