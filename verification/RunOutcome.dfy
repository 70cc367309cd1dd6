/** What a finished run has accounted for: every dial's result, and every lease's whereabouts. */
module RunOutcome {
  import opened Wrappers
  import opened Sums
  import opened Summary
  import opened LeaseMerge
  import opened Dialing
  import opened RunProtocol
  import opened RunInvariant
  import opened RunLiveness

  // ---- results ----

  /** How many dials a client makes. */
  function Stacks(cfg: Config): nat { (if cfg.enable4 then 1 else 0) + (if cfg.enable6 then 1 else 0) }

  lemma DoneClientReports(cfg: Config, i: nat, c: Client)
    requires ClientOk(cfg, i, c) && c.pc.Done?
    ensures |Reports(c)| == Stacks(cfg)
    ensures forall r :: r in Reports(c) ==> r.client == i && r.action == DORA
    ensures cfg.enable4 ==> c.d4.Gone? && !c.d4.r.isV6
    ensures cfg.enable6 ==> c.d6.Gone? && c.d6.r.isV6
  {}

  /**
   Exact accounting: when the run is over the channel is closed and empty and the summary, Shortest apart,
   is the one of exactly one result for each enabled stack of each client.
   */
  lemma SummaryOfFinishedRun(cfg: Config, s: State)
    requires Inv(cfg, s) && s.main.at.Finished?
    ensures s.main.closed && s.col.results == [] && !s.panicked
    ensures OrderFree(s.col.summary) == OrderFree(TallyAll(cfg.Zero(), Gather(Reports, s.clients)))
    ensures s.col.summary.total == cfg.n * Stacks(cfg)
    ensures s.col.summary.total == s.col.summary.success + s.col.summary.failed
  {
    assert s.col.tallied + [] == s.col.tallied;
    OrderIndependent(cfg.Zero(), s.col.tallied, Gather(Reports, s.clients));
    forall i | 0 <= i < |s.clients| ensures |Reports(s.clients[i])| == Stacks(cfg) {
      DoneClientReports(cfg, i, s.clients[i]);
    }
    GatherLength(Reports, s.clients, Stacks(cfg));
    AllDora(cfg, s);
    DoraTotals(cfg.Zero(), s.col.tallied, cfg.beginTime, cfg.endTime);
  }

  lemma AllDora(cfg: Config, s: State)
    requires Inv(cfg, s) && s.main.at.Finished?
    ensures forall k :: 0 <= k < |s.col.tallied| ==> s.col.tallied[k].action == DORA
  {
    forall k | 0 <= k < |s.col.tallied| ensures s.col.tallied[k].action == DORA {
      var r := s.col.tallied[k];
      FromEither(s.col.tallied, s.col.results, Gather(Reports, s.clients), r);
      GatherOrigin(Reports, s.clients, r);
      var i :| 0 <= i < |s.clients| && r in Reports(s.clients[i]);
      DoneClientReports(cfg, i, s.clients[i]);
    }
  }

  lemma {:induction false} DoraTotals(zero: Tally, rs: seq<DialResult>, b: int, e: int)
    requires zero == Start(b, e) && forall k :: 0 <= k < |rs| ==> rs[k].action == DORA
    ensures TallyAll(zero, rs).total == |rs|
    ensures TallyAll(zero, rs).total == TallyAll(zero, rs).success + TallyAll(zero, rs).failed
  {
    if rs == [] {
    } else {
      DoraTotals(zero, rs[..|rs| - 1], b, e);
    }
  }

  // ---- leases ----

  /** The leases of a client's stack that were sent to the saver: at most one, under the client's id. */
  lemma OwnLease(cfg: Config, i: nat, c: Client, k: Stack)
    requires ClientOk(cfg, i, c)
    ensures |SavedOf(c.DialOf(k))| <= 1
    ensures forall p :: p in SavedOf(c.DialOf(k)) ==> p.0 == i
  {}

  /** A stream of leases in which every id occurs at most once. */
  ghost predicate OneForEach(f: Client -> seq<SavedLease>, clients: seq<Client>) {
    forall i :: 0 <= i < |clients| ==> |f(clients[i])| <= 1 && forall p :: p in f(clients[i]) ==> p.0 == i
  }

  /** Where the lease of client i is: merged as the last of its id, or still queued, and not both. */
  lemma Whereabouts(f: Client -> seq<SavedLease>, clients: seq<Client>, i: nat, p: SavedLease,
                    merged: seq<SavedLease>, queue: seq<SavedLease>)
    requires OneForEach(f, clients) && i < |clients| && f(clients[i]) == [p]
    requires multiset(merged + queue) == multiset(Gather(f, clients))
    ensures Last(merged, i) == Some(p.1) <==> p !in queue
    ensures Last(merged, i).Some? ==> Last(merged, i) == Some(p.1)
  {
    forall j | 0 <= j < |clients| && j != i ensures p !in f(clients[j]) {}
    GatherCount(f, clients, i, p);
    assert multiset(merged)[p] + multiset(queue)[p] == 1;
    LastIn(merged, i);
    if Last(merged, i).Some? {
      var q := (i, Last(merged, i).value);
      FromEither(merged, queue, Gather(f, clients), q);
      GatherOrigin(f, clients, q);
    }
    if p in merged {
      HasLast(merged);
    }
  }

  lemma {:induction false} LastIn(stream: seq<SavedLease>, id: nat)
    ensures Last(stream, id).Some? ==> (id, Last(stream, id).value) in stream
    ensures forall p :: p in stream && p.0 == id ==> Last(stream, id).Some?
  {
    if stream == [] {
    } else {
      LastIn(stream[..|stream| - 1], id);
    }
  }

  lemma OneForEachStack(cfg: Config, s: State)
    requires ClientsOk(cfg, s.clients)
    ensures OneForEach(Saved4, s.clients) && OneForEach(Saved6, s.clients)
  {
    forall i | 0 <= i < |s.clients|
      ensures |Saved4(s.clients[i])| <= 1 && forall p :: p in Saved4(s.clients[i]) ==> p.0 == i
      ensures |Saved6(s.clients[i])| <= 1 && forall p :: p in Saved6(s.clients[i]) ==> p.0 == i
    {
      OwnLease(cfg, i, s.clients[i], V4);
      OwnLease(cfg, i, s.clients[i], V6);
    }
  }

  /** The lease the map holds for client i and stack k. */
  function InMap(m: SavedMap, i: nat, k: Stack): Option<nat> {
    if i !in m then None else if k.V4? then m[i].v4 else m[i].v6
  }

  lemma InMapIsLast(events: seq<Event<nat, nat, nat>>, i: nat)
    ensures InMap(MergeAll(events), i, V4) == Last(V4Stream(events), i)
    ensures InMap(MergeAll(events), i, V6) == Last(V6Stream(events), i)
  {
    MergeAllIsCombined(events);
    HasLast(V4Stream(events));
    HasLast(V6Stream(events));
  }

  /**
   In every reachable state a lease that a dial has sent is in the saver's map if and only if it is not
   waiting in its queue; at most eight of each stack wait.
   */
  lemma LeaseIsMergedOrQueued(cfg: Config, s: State, i: nat, k: Stack, lease: nat)
    requires Inv(cfg, s) && i < |s.clients| && SavedOf(s.clients[i].DialOf(k)) == [(i, lease)]
    ensures InMap(s.sav.leaseMap, i, k) == Some(lease) <==> (i, lease) !in s.sav.Queue(k)
    ensures |s.sav.Queue(k)| <= 8
  {
    OneForEachStack(cfg, s);
    InMapIsLast(s.sav.events, i);
    if k.V4? {
      Whereabouts(Saved4, s.clients, i, (i, lease), V4Stream(s.sav.events), s.sav.q4);
    } else {
      Whereabouts(Saved6, s.clients, i, (i, lease), V6Stream(s.sav.events), s.sav.q6);
    }
  }

  /** What has been merged for an id is the lease that the client with that id has sent. */
  lemma MergedIsOwn(f: Client -> seq<SavedLease>, clients: seq<Client>, i: nat,
                    merged: seq<SavedLease>, queue: seq<SavedLease>)
    requires OneForEach(f, clients) && Last(merged, i).Some?
    requires multiset(merged + queue) == multiset(Gather(f, clients))
    ensures i < |clients| && f(clients[i]) == [(i, Last(merged, i).value)]
  {
    var p := (i, Last(merged, i).value);
    LastIn(merged, i);
    FromEither(merged, queue, Gather(f, clients), p);
    GatherOrigin(f, clients, p);
    var j :| 0 <= j < |clients| && p in f(clients[j]);
    OnlyOwner(f, clients, j, p);
  }

  lemma FromEither<T>(a: seq<T>, b: seq<T>, c: seq<T>, x: T)
    requires multiset(a + b) == multiset(c) && (x in a || x in b)
    ensures x in c
  {
    assert x in multiset(a + b);
  }

  lemma OnlyOwner(f: Client -> seq<SavedLease>, clients: seq<Client>, j: nat, p: SavedLease)
    requires OneForEach(f, clients) && j < |clients| && p in f(clients[j])
    ensures j == p.0 && f(clients[j]) == [p]
  {}

  /** Nothing else is in the map: what it holds for a client is a lease that the client's dial has sent. */
  lemma NoStrayLease(cfg: Config, s: State, i: nat, k: Stack)
    requires Inv(cfg, s) && InMap(s.sav.leaseMap, i, k).Some?
    ensures i < |s.clients| && SavedOf(s.clients[i].DialOf(k)) == [(i, InMap(s.sav.leaseMap, i, k).value)]
  {
    OneForEachStack(cfg, s);
    InMapIsLast(s.sav.events, i);
    if k.V4? {
      MergedIsOwn(Saved4, s.clients, i, V4Stream(s.sav.events), s.sav.q4);
    } else {
      MergedIsOwn(Saved6, s.clients, i, V6Stream(s.sav.events), s.sav.q6);
    }
  }

  /**
   The saved file of a finished run: it holds the lease of every successful dial, except exactly those
   still queued when the saver stopped.
   */
  lemma SavedFile(cfg: Config, s: State, i: nat, k: Stack)
    requires Inv(cfg, s) && s.main.at.Finished? && cfg.saveLease && i < cfg.n && cfg.Enables(k)
    ensures s.sav.file.Some? && s.clients[i].DialOf(k).Gone?
    ensures var d := s.clients[i].DialOf(k);
      if !d.r.ok then InMap(s.sav.file.value, i, k) == None
      else d.saved.Some? && d.saved.value.0 == i
           && (InMap(s.sav.file.value, i, k) == Some(d.saved.value.1) <==> d.saved.value !in s.sav.Queue(k))
  {
    DoneClientReports(cfg, i, s.clients[i]);
    var d := s.clients[i].DialOf(k);
    assert ClientOk(cfg, i, s.clients[i]);
    if d.r.ok {
      LeaseIsMergedOrQueued(cfg, s, i, k, d.saved.value.1);
    } else if InMap(s.sav.leaseMap, i, k).Some? {
      NoStrayLease(cfg, s, i, k);
    }
  }

  /** The lease of every successful dial of this stack is in the map. */
  ghost predicate Complete(s: State, k: Stack) {
    forall i :: 0 <= i < |s.clients| ==>
      forall p :: p in SavedOf(s.clients[i].DialOf(k)) ==> InMap(s.sav.leaseMap, i, k) == Some(p.1)
  }

  lemma DrainedIsComplete(cfg: Config, s: State, k: Stack, i: nat, p: SavedLease)
    requires Inv(cfg, s) && s.sav.Queue(k) == []
    requires i < |s.clients| && p in SavedOf(s.clients[i].DialOf(k))
    ensures InMap(s.sav.leaseMap, i, k) == Some(p.1)
  {
    OwnLease(cfg, i, s.clients[i], k);
    LeaseIsMergedOrQueued(cfg, s, i, k, p.1);
  }

  lemma QueuedIsMissing(cfg: Config, s: State, k: Stack, p: SavedLease)
    requires Inv(cfg, s) && p in s.sav.Queue(k)
    ensures !Complete(s, k)
  {
    var i := QueuedFrom(s, k, p);
    OneForEachStack(cfg, s);
    if k.V4? { OnlyOwner(Saved4, s.clients, i, p); } else { OnlyOwner(Saved6, s.clients, i, p); }
    LeaseIsMergedOrQueued(cfg, s, i, k, p.1);
  }

  /** The map is complete if and only if the queue has been drained, in every reachable state. */
  lemma CompleteIffDrained(cfg: Config, s: State, k: Stack)
    requires Inv(cfg, s)
    ensures Complete(s, k) <==> s.sav.Queue(k) == []
  {
    if s.sav.Queue(k) == [] {
      forall i, p | 0 <= i < |s.clients| && p in SavedOf(s.clients[i].DialOf(k))
        ensures InMap(s.sav.leaseMap, i, k) == Some(p.1)
      {
        DrainedIsComplete(cfg, s, k, i, p);
      }
    } else {
      QueuedIsMissing(cfg, s, k, s.sav.Queue(k)[0]);
    }
  }

  lemma QueuedFrom(s: State, k: Stack, p: SavedLease) returns (i: nat)
    requires LeasesKept(s.clients, s.sav) && p in s.sav.Queue(k)
    ensures i < |s.clients| && p in SavedOf(s.clients[i].DialOf(k))
  {
    if k.V4? {
      FromEither(V4Stream(s.sav.events), s.sav.q4, Gather(Saved4, s.clients), p);
      GatherOrigin(Saved4, s.clients, p);
      i :| 0 <= i < |s.clients| && p in Saved4(s.clients[i]);
    } else {
      FromEither(V6Stream(s.sav.events), s.sav.q6, Gather(Saved6, s.clients), p);
      GatherOrigin(Saved6, s.clients, p);
      i :| 0 <= i < |s.clients| && p in Saved6(s.clients[i]);
    }
  }

  // ---- whole runs ----

  /**
   The run from start to end, under every scheduling: whatever steps were taken, when no step is left and no
   broken answer has taken the program down, `run` has returned, the channel is closed and drained, the summary
   counts one result for each dial, and the file holds all leases but those still queued.
   */
  lemma WholeRun(cfg: Config, steps: seq<Step>, t: State)
    requires Path(cfg, Init(cfg), steps, t) && Stuck(cfg, t) && !cfg.interruptible
    ensures |steps| <= 19 * cfg.n + 8
    ensures Unbreakable(cfg) ==> !t.panicked
    ensures !t.panicked ==> t.main.at.Finished? && AllAccounted(cfg, t)
  {
    RunFinishes(cfg, steps, t);
    RunsAreBounded(cfg, steps, t);
    InitHolds(cfg);
    if Unbreakable(cfg) { UnbreakableKeeps(cfg, Init(cfg), steps, t); }
    if !t.panicked {
      PathKeeps(cfg, Init(cfg), steps, t);
      FinishedIsAccounted(cfg, t);
    }
  }

  /** What a finished run leaves behind. */
  ghost predicate AllAccounted(cfg: Config, t: State) {
    && t.main.closed && t.col.results == []
    && t.col.summary.total == cfg.n * Stacks(cfg)
    && OrderFree(t.col.summary) == OrderFree(TallyAll(cfg.Zero(), Gather(Reports, t.clients)))
    && (cfg.saveLease ==> t.sav.file == Some(t.sav.leaseMap))
    && (Complete(t, V4) <==> t.sav.q4 == []) && (Complete(t, V6) <==> t.sav.q6 == [])
    && |t.sav.q4| <= SAVE_CAPACITY && |t.sav.q6| <= SAVE_CAPACITY
  }

  lemma FinishedIsAccounted(cfg: Config, t: State)
    requires Inv(cfg, t) && t.main.at.Finished?
    ensures AllAccounted(cfg, t)
  {
    SummaryOfFinishedRun(cfg, t);
    CompleteIffDrained(cfg, t, V4);
    CompleteIffDrained(cfg, t, V6);
  }

  /** Once the channel is closed no client has a step left, so none will ever send on it. */
  lemma ClosedMeansSilent(cfg: Config, s: State, i: nat, x: ClientStep)
    requires Inv(cfg, s) && s.main.closed
    ensures !ClientEnabled(s, i, x)
  {
    if i < |s.clients| && Ready(s.clients[i], x) { StepProceeds(cfg, i, s.clients[i], x); }
  }

  /** The state before the last step. */
  lemma {:induction false} BeforeLast(cfg: Config, s: State, steps: seq<Step>, t: State) returns (m: State)
    requires Path(cfg, s, steps, t) && steps != []
    ensures Path(cfg, s, steps[..|steps| - 1], m) && Enabled(cfg, m, steps[|steps| - 1])
    ensures t == Next(cfg, m, steps[|steps| - 1])
    decreases |steps|
  {
    if |steps| == 1 {
      m := s;
    } else {
      m := BeforeLast(cfg, Next(cfg, s, steps[0]), steps[1..], t);
      assert steps[..|steps| - 1][1..] == steps[1..][..|steps| - 2];
    }
  }

  lemma LastBreaks(cfg: Config, steps: seq<Step>, t: State)
    requires Path(cfg, Init(cfg), steps, t)
    ensures t.panicked <==> steps != [] && StepBreaks(cfg, steps[|steps| - 1])
  {
    if steps != [] {
      var m := BeforeLast(cfg, Init(cfg), steps, t);
      InitHolds(cfg);
      PathKeeps(cfg, Init(cfg), steps[..|steps| - 1], m);
      assert Unpanicked(m) == m;
      StepKeeps(cfg, m, steps[|steps| - 1]);
    }
  }

  /**
   Close safety: no send hits a closed channel, nothing is closed twice, no WaitGroup goes negative. A program
   that has panicked has done so in its last step, on a broken answer.
   */
  lemma CloseSafety(cfg: Config, steps: seq<Step>, t: State)
    requires Path(cfg, Init(cfg), steps, t)
    ensures t.panicked <==> steps != [] && StepBreaks(cfg, steps[|steps| - 1])
    ensures forall i: nat, x :: t.main.closed ==> !ClientEnabled(t, i, x)
  {
    LastBreaks(cfg, steps, t);
    forall i: nat, x | t.main.closed ensures !ClientEnabled(t, i, x) { ClosedRunIsSilent(cfg, steps, t, i, x); }
  }

  lemma ClosedRunIsSilent(cfg: Config, steps: seq<Step>, t: State, i: nat, x: ClientStep)
    requires Path(cfg, Init(cfg), steps, t) && t.main.closed
    ensures !ClientEnabled(t, i, x)
  {
    InitHolds(cfg);
    PathKeeps(cfg, Init(cfg), steps, t);
    ClosedMeansSilent(cfg, Unpanicked(t), i, x);
  }
}
