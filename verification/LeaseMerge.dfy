/**
 The lease saver (lease.go): leases arrive on two channels, one for each stack, in whatever order the
 select picks them, and are merged into one entry per client id.
 */
module LeaseMerge {
  import opened Wrappers

  /** One round of the saver's select. */
  datatype Event<I, A, B> = GotV4(id: I, v4: A) | GotV6(id: I, v6: B)

  /** The leases of one client. */
  datatype Leases<A, B> = Leases(v4: Option<A>, v6: Option<B>)

  function Merge<I(==), A, B>(m: map<I, Leases<A, B>>, e: Event<I, A, B>): map<I, Leases<A, B>> {
    var old_ := if e.id in m then m[e.id] else Leases(None, None);
    match e
    case GotV4(id, l) => m[id := old_.(v4 := Some(l))]
    case GotV6(id, l) => m[id := old_.(v6 := Some(l))]
  }

  function MergeAll<I(==), A, B>(events: seq<Event<I, A, B>>): map<I, Leases<A, B>> {
    if events == [] then map[] else Merge(MergeAll(events[..|events| - 1]), events[|events| - 1])
  }

  lemma MergeAllSnoc<I, A, B>(events: seq<Event<I, A, B>>, e: Event<I, A, B>)
    ensures MergeAll(events + [e]) == Merge(MergeAll(events), e)
  {
    assert (events + [e])[..|events|] == events;
  }

  // ---- the loop, on entries that are updated in place ----

  class FullStackLease<A, B> {
    var v4: Option<A>
    var v6: Option<B>

    constructor (v4: Option<A>, v6: Option<B>)
      ensures this.v4 == v4 && this.v6 == v6
    {
      this.v4, this.v6 := v4, v6;
    }
  }

  type LeaseMap<I, A, B> = map<I, FullStackLease<A, B>>

  /** Different ids have different entries, and the entries hold what m says. */
  ghost predicate Holds<I, A, B>(leaseMap: LeaseMap<I, A, B>, m: map<I, Leases<A, B>>)
    reads leaseMap.Values
  {
    && leaseMap.Keys == m.Keys
    && (forall i :: i in m ==> leaseMap[i].v4 == m[i].v4 && leaseMap[i].v6 == m[i].v6)
    && forall i, j :: i in leaseMap && j in leaseMap && i != j ==> leaseMap[i] != leaseMap[j]
  }

  method SaveLeases<I(==), A, B>(events: seq<Event<I, A, B>>) returns (leaseMap: LeaseMap<I, A, B>)
    ensures Holds(leaseMap, MergeAll(events))
  {
    leaseMap := map[];
    for n := 0 to |events|
      invariant Holds(leaseMap, MergeAll(events[..n]))
      invariant forall i :: i in leaseMap ==> fresh(leaseMap[i])
    {
      assert events[..n + 1][..n] == events[..n];
      match events[n] {
        case GotV4(id, lease) =>
          if id in leaseMap {
            leaseMap[id].v4 := Some(lease);
          } else {
            var fl := new FullStackLease(Some(lease), None);
            leaseMap := leaseMap[id := fl];
          }
        case GotV6(id, lease) =>
          if id in leaseMap {
            leaseMap[id].v6 := Some(lease);
          } else {
            var fl := new FullStackLease(None, Some(lease));
            leaseMap := leaseMap[id := fl];
          }
      }
    }
    assert events[..|events|] == events;
  }

  // ---- independence of the arrival order ----

  /** The two streams of an event sequence. */
  function V4Stream<I, A, B>(events: seq<Event<I, A, B>>): seq<(I, A)> {
    if events == [] then []
    else V4Stream(events[..|events| - 1])
         + match events[|events| - 1] case GotV4(id, l) => [(id, l)] case GotV6(_, _) => []
  }

  function V6Stream<I, A, B>(events: seq<Event<I, A, B>>): seq<(I, B)> {
    if events == [] then []
    else V6Stream(events[..|events| - 1])
         + match events[|events| - 1] case GotV4(_, _) => [] case GotV6(id, l) => [(id, l)]
  }

  /** The last lease a stream holds for an id. */
  function Last<I(==), L>(stream: seq<(I, L)>, id: I): (r: Option<L>)
    ensures r.None? <==> forall k :: 0 <= k < |stream| ==> stream[k].0 != id
  {
    if stream == [] then None
    else if stream[|stream| - 1].0 == id then Some(stream[|stream| - 1].1)
    else Last(stream[..|stream| - 1], id)
  }

  /** A lease that no later one of the stream replaces. */
  lemma {:induction false} LastIs<I, L>(stream: seq<(I, L)>, k: nat)
    requires k < |stream| && forall j :: k < j < |stream| ==> stream[j].0 != stream[k].0
    ensures Last(stream, stream[k].0) == Some(stream[k].1)
  {
    if k < |stream| - 1 {
      LastIs(stream[..|stream| - 1], k);
    }
  }

  ghost function IdsIn<I, L>(stream: seq<(I, L)>): set<I> { set k | 0 <= k < |stream| :: stream[k].0 }

  lemma HasLast<I, L>(stream: seq<(I, L)>)
    ensures forall id :: id in IdsIn(stream) <==> Last(stream, id).Some?
  {
    forall id | Last(stream, id).Some? ensures id in IdsIn(stream) {
      var k :| 0 <= k < |stream| && stream[k].0 == id;
    }
  }

  lemma LastSnoc<I, L>(stream: seq<(I, L)>, p: (I, L))
    ensures forall id :: Last(stream + [p], id) == if id == p.0 then Some(p.1) else Last(stream, id)
    ensures IdsIn(stream + [p]) == IdsIn(stream) + {p.0}
  {
    assert (stream + [p])[..|stream|] == stream;
    assert (stream + [p])[|stream|] == p;
    forall id | id in IdsIn(stream) ensures id in IdsIn(stream + [p]) {
      var k :| 0 <= k < |stream| && stream[k].0 == id;
      assert (stream + [p])[k].0 == id;
    }
  }

  /**
   What the merge comes to, without any mention of the arrival order: an entry for each id of either
   stream, holding the last v4 and the last v6 lease its stream has for that id.
   */
  ghost function Combined<I, A, B>(s4: seq<(I, A)>, s6: seq<(I, B)>): map<I, Leases<A, B>> {
    map id | id in IdsIn(s4) + IdsIn(s6) :: Leases(Last(s4, id), Last(s6, id))
  }

  lemma {:induction false} MergeAllIsCombined<I, A, B>(events: seq<Event<I, A, B>>)
    ensures MergeAll(events) == Combined(V4Stream(events), V6Stream(events))
  {
    if events == [] {
    } else {
      var front, e := events[..|events| - 1], events[|events| - 1];
      var s4, s6 := V4Stream(front), V6Stream(front);
      MergeAllIsCombined(front);
      HasLast(s4);
      HasLast(s6);
      match e {
        case GotV4(id, l) =>
          LastSnoc(s4, (id, l));
          assert V6Stream(events) == s6;
        case GotV6(id, l) =>
          LastSnoc(s6, (id, l));
          assert V4Stream(events) == s4;
      }
    }
  }

  /** The last DHCPv4 lease for its id, or the last DHCPv6 lease. */
  ghost predicate LastOfStack<I, A, B>(events: seq<Event<I, A, B>>, k: nat) {
    && k < |events|
    && forall j :: k < j < |events| ==> events[j].id != events[k].id || events[j].GotV4? != events[k].GotV4?
  }

  /** Told from the events: the merged map holds a lease that arrived exactly where no later one replaces it. */
  lemma {:induction false} MergedIsLast<I, A, B>(events: seq<Event<I, A, B>>, k: nat)
    requires LastOfStack(events, k)
    ensures var m, e := MergeAll(events), events[k];
      && e.id in m
      && (e.GotV4? ==> m[e.id].v4 == Some(e.v4)) && (e.GotV6? ==> m[e.id].v6 == Some(e.v6))
  {
    if k < |events| - 1 {
      MergedIsLast(events[..|events| - 1], k);
    }
  }

  /** And it holds nothing else. */
  lemma {:induction false} MergedArrived<I, A, B>(events: seq<Event<I, A, B>>, id: I)
    ensures var m := MergeAll(events);
      && (id in m ==> exists k :: 0 <= k < |events| && events[k].id == id)
      && (id in m && m[id].v4.Some? ==> exists k :: 0 <= k < |events| && events[k] == GotV4(id, m[id].v4.value))
      && (id in m && m[id].v6.Some? ==> exists k :: 0 <= k < |events| && events[k] == GotV6(id, m[id].v6.value))
  {
    if events != [] {
      var n := |events| - 1;
      var front := events[..n];
      MergedArrived(front, id);
      assert forall k :: 0 <= k < n ==> events[k] == front[k];
      assert events[n].id == id || MergeAll(front).Keys * {id} == MergeAll(events).Keys * {id};
    }
  }

  /** Whatever interleaving of the two streams the select picks, the saved map is the same. */
  lemma MergeConfluent<I, A, B>(e1: seq<Event<I, A, B>>, e2: seq<Event<I, A, B>>)
    requires V4Stream(e1) == V4Stream(e2) && V6Stream(e1) == V6Stream(e2)
    ensures MergeAll(e1) == MergeAll(e2)
  {
    MergeAllIsCombined(e1);
    MergeAllIsCombined(e2);
  }
}
