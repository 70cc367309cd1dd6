/** VLAN tags as the program holds them: a list of references to mutable tags. */
module VlanTags {
  class Vlan {
    var id: nat
    var etherType: nat

    constructor (id: nat, etherType: nat)
      ensures this.id == id && this.etherType == etherType
    {
      this.id, this.etherType := id, etherType;
    }
  }

  function Ids(vs: seq<Vlan>): (ids: seq<nat>)
    reads vs
    ensures |ids| == |vs| && forall k :: 0 <= k < |vs| ==> ids[k] == vs[k].id
  {
    if vs == [] then [] else Ids(vs[..|vs| - 1]) + [vs[|vs| - 1].id]
  }

  function EtherTypes(vs: seq<Vlan>): (types: seq<nat>)
    reads vs
    ensures |types| == |vs| && forall k :: 0 <= k < |vs| ==> types[k] == vs[k].etherType
  {
    if vs == [] then [] else EtherTypes(vs[..|vs| - 1]) + [vs[|vs| - 1].etherType]
  }

  ghost function Objects(vs: seq<Vlan>): set<Vlan> { set v | v in vs }

  ghost predicate Distinct(vs: seq<Vlan>) {
    forall j, k :: 0 <= j < k < |vs| ==> vs[j] != vs[k]
  }

  /** No tag object of a is one of b. */
  ghost predicate Apart(a: seq<Vlan>, b: seq<Vlan>) {
    forall j, k :: 0 <= j < |a| && 0 <= k < |b| ==> a[j] != b[k]
  }

  /** A deep copy: new tags with the same contents. */
  method Clone(vs: seq<Vlan>) returns (r: seq<Vlan>)
    ensures Ids(r) == Ids(vs) && EtherTypes(r) == EtherTypes(vs)
    ensures Distinct(r) && fresh(Objects(r))
  {
    r := [];
    for i := 0 to |vs|
      invariant |r| == i && Distinct(r)
      invariant forall k :: 0 <= k < i ==> fresh(r[k])
      invariant forall k :: 0 <= k < i ==> r[k].id == vs[k].id && r[k].etherType == vs[k].etherType
    {
      var v := new Vlan(vs[i].id, vs[i].etherType);
      r := r + [v];
    }
  }

  /** Overwrites the tag ids in place; refuses a list of another length. */
  method SetIds(vs: seq<Vlan>, ids: seq<nat>) returns (ok: bool)
    requires Distinct(vs)
    modifies Objects(vs)
    ensures ok <==> |vs| == |ids|
    ensures ok ==> Ids(vs) == ids
    ensures !ok ==> Ids(vs) == old(Ids(vs))
    ensures EtherTypes(vs) == old(EtherTypes(vs))
  {
    ok := |vs| == |ids|;
    if ok {
      for i := 0 to |vs|
        invariant forall k :: 0 <= k < |vs| ==> vs[k].etherType == old(vs[k].etherType)
        invariant forall k :: 0 <= k < i ==> vs[k].id == ids[k]
      {
        vs[i].id := ids[i];
      }
    }
  }

  /** A deep copy whose ids are then overwritten; the original keeps its own. */
  method CloneWithIds(vs: seq<Vlan>, ids: seq<nat>) returns (ok: bool, r: seq<Vlan>)
    ensures ok <==> |vs| == |ids|
    ensures ok ==> Ids(r) == ids && EtherTypes(r) == EtherTypes(vs)
    ensures Distinct(r) && fresh(Objects(r))
  {
    ghost var types := EtherTypes(vs);
    r := Clone(vs);
    assert forall v :: v in vs ==> v !in Objects(r);
    ok := SetIds(r, ids);
    assert EtherTypes(vs) == types;
  }

  /** testSetup.excluded: whether some tag of the stack is on the exclusion list. */
  method Excluded(vids: seq<nat>, excludes: seq<nat>) returns (found: bool)
    ensures found <==> exists k :: 0 <= k < |vids| && vids[k] in excludes
  {
    for i := 0 to |vids|
      invariant forall k :: 0 <= k < i ==> vids[k] !in excludes
    {
      for j := 0 to |excludes|
        invariant vids[i] !in excludes[..j]
      {
        if excludes[j] == vids[i] {
          return true;
        }
      }
    }
    found := false;
  }
}
