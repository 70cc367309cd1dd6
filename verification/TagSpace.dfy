/**
 The VLAN stacks a test may use: the progression start, start + step, start + 2 * step, ... of tag
 stacks read as one number, without the stacks that contain an excluded tag (setup.go).

 `Position` follows the program, which looks at most ten places ahead for the next stack.
 `FreeBelow` and `Reachable` say without any search which place belongs to which client.
 */
module TagSpace {
  import opened Wrappers
  import opened Digits

  const MAX_TRIES := 10

  datatype Space = Space(base: nat, width: nat, start: nat, step: nat, excludes: seq<nat>)
  {
    predicate Valid() { base > 0 && start < Pow(base, width) }

    function Number(j: nat): nat { Term(start, step, j) }

    predicate InRange(j: nat) { Number(j) < Pow(base, width) }

    /** The tag stack at place j of the progression. */
    function At(j: nat): seq<nat>
      requires base > 0
    {
      Render(base, width, Number(j))
    }

    predicate Free(j: nat)
      requires base > 0
    {
      forall k :: 0 <= k < width ==> At(j)[k] !in excludes
    }

    /** How many of the places 0 .. j-1 are free. */
    function FreeBelow(j: nat): nat
      requires base > 0
    {
      if j == 0 then 0 else FreeBelow(j - 1) + if Free(j - 1) then 1 else 0
    }

    /** The first free place among the next `tries` places after p. */
    function Search(p: nat, tries: nat): Option<nat>
      requires base > 0
      decreases tries
    {
      if tries == 0 || !InRange(p + 1) then None
      else if Free(p + 1) then Some(p + 1)
      else Search(p + 1, tries - 1)
    }

    /** The place the program gives to client i. */
    function Position(i: nat): Option<nat>
      requires base > 0
    {
      if i == 0 then
        if Free(0) then Some(0) else Search(0, MAX_TRIES)
      else
        match Position(i - 1)
        case None => None
        case Some(p) => Search(p, MAX_TRIES)
    }

    /** Some of the ten places k .. k+9 is free. */
    predicate FreeNear(k: nat)
      requires base > 0
    {
      exists m :: k <= m < k + 10 && Free(m)
    }

    /**
     Place j belongs to client i: it is free, i free places come before it, it fits the width, and no
     ten excluded places in a row come before it. (Ten in a row do no harm when they start at place 0,
     because the search that runs over them starts one place later.)
     */
    predicate Reachable(i: nat, j: nat)
      requires base > 0
    {
      && InRange(j) && Free(j) && FreeBelow(j) == i
      && forall k :: 1 <= k && k + 10 <= j ==> FreeNear(k)
    }
  }

  /** There is a place for client i. */
  ghost predicate HasPlace(sp: Space, i: nat)
    requires sp.base > 0
  {
    exists j :: sp.Reachable(i, j)
  }

  lemma InRangeMonotone(sp: Space, j: nat, k: nat)
    requires j <= k && sp.InRange(k)
    ensures sp.InRange(j)
  {
    TermMonotone(sp.start, sp.step, j, k);
  }

  lemma {:induction false} FreeBelowMonotone(sp: Space, j: nat, k: nat)
    requires sp.base > 0 && j <= k
    ensures sp.FreeBelow(j) <= sp.FreeBelow(k)
    ensures j < k && sp.Free(j) ==> sp.FreeBelow(j) < sp.FreeBelow(k)
  {
    if j == k {
    } else {
      FreeBelowMonotone(sp, j, k - 1);
    }
  }

  lemma {:induction false} FreeBelowFlat(sp: Space, j: nat, k: nat)
    requires sp.base > 0 && j <= k
    requires forall m :: j <= m < k ==> !sp.Free(m)
    ensures sp.FreeBelow(k) == sp.FreeBelow(j)
  {
    if j == k {
    } else {
      FreeBelowFlat(sp, j, k - 1);
    }
  }

  /** A place belongs to at most one client and a client has at most one place. */
  lemma ReachableUnique(sp: Space, i: nat, i': nat, j: nat, j': nat)
    requires sp.base > 0 && sp.Reachable(i, j) && sp.Reachable(i', j')
    ensures i == i' <==> j == j'
    ensures i < i' <==> j < j'
  {
    if j < j' { FreeBelowMonotone(sp, j, j'); }
    if j' < j { FreeBelowMonotone(sp, j', j); }
  }

  /** What the bounded search finds: the nearest free place, when it is near enough and in range. */
  lemma {:induction false} SearchFinds(sp: Space, p: nat, tries: nat)
    requires sp.base > 0
    ensures match sp.Search(p, tries)
      case Some(j) => p < j <= p + tries && sp.InRange(j) && sp.Free(j) && forall m :: p < m < j ==> !sp.Free(m)
      case None => forall j :: p < j <= p + tries && sp.InRange(j) ==> !sp.Free(j)
    decreases tries
  {
    if tries > 0 && !sp.InRange(p + 1) {
      forall j | p < j ensures !sp.InRange(j) {
        if sp.InRange(j) { InRangeMonotone(sp, p + 1, j); }
      }
    } else if tries > 0 && !sp.Free(p + 1) {
      SearchFinds(sp, p + 1, tries - 1);
    }
  }

  /** The next free place after a reachable one, found within the allowed tries, is reachable. */
  lemma ReachNext(sp: Space, i: nat, p: nat, j: nat)
    requires sp.base > 0 && p < j <= p + MAX_TRIES
    requires sp.InRange(j) && sp.Free(j) && forall m :: p < m < j ==> !sp.Free(m)
    requires sp.FreeBelow(p + 1) == i
    requires forall k :: 1 <= k && k + MAX_TRIES <= p ==> sp.FreeNear(k)
    requires p == 0 || sp.Free(p)
    ensures sp.Reachable(i, j)
  {
    FreeBelowFlat(sp, p + 1, j);
    forall k | 1 <= k && k + MAX_TRIES <= j ensures sp.FreeNear(k) {
      if k + MAX_TRIES > p {
        assert k <= p < k + MAX_TRIES && sp.Free(p);
      }
    }
  }

  /** When the search from p fails, nothing beyond p is reachable. */
  lemma NothingBeyond(sp: Space, i: nat, p: nat, j: nat)
    requires sp.base > 0 && sp.Search(p, MAX_TRIES).None? && p < j
    ensures !sp.Reachable(i, j)
  {
    SearchFinds(sp, p, MAX_TRIES);
    if j > p + MAX_TRIES && sp.Reachable(i, j) {
      assert sp.FreeNear(p + 1);
      var m :| p + 1 <= m < p + 1 + MAX_TRIES && sp.Free(m);
      InRangeMonotone(sp, m, j);
    }
  }

  lemma {:induction false} PositionReachable(sp: Space, i: nat)
    requires sp.Valid()
    ensures match sp.Position(i)
      case Some(j) => sp.Reachable(i, j)
      case None => forall i', j :: i <= i' ==> !sp.Reachable(i', j)
  {
    if i == 0 {
      if sp.Free(0) {
        assert sp.InRange(0);
      } else {
        SearchFinds(sp, 0, MAX_TRIES);
        assert sp.FreeBelow(1) == 0;
        if sp.Position(0).Some? {
          ReachNext(sp, 0, 0, sp.Position(0).value);
        } else {
          forall i': nat, j: nat ensures !sp.Reachable(i', j) {
            if j > 0 { NothingBeyond(sp, i', 0, j); }
          }
        }
      }
    } else {
      PositionReachable(sp, i - 1);
      if sp.Position(i - 1).Some? {
        var p := sp.Position(i - 1).value;
        SearchFinds(sp, p, MAX_TRIES);
        if sp.Position(i).Some? {
          ReachNext(sp, i, p, sp.Position(i).value);
        } else {
          forall i': nat, j: nat | i <= i' ensures !sp.Reachable(i', j) {
            if j > p {
              NothingBeyond(sp, i', p, j);
            } else if sp.Reachable(i', j) {
              ReachableUnique(sp, i - 1, i', p, j);
            }
          }
        }
      }
    }
  }

  /**
   The bounded incremental search refines the enumeration: client i gets the i-th free place, and gets
   none exactly when no place is reachable for it.
   */
  lemma PositionExact(sp: Space, i: nat, j: nat)
    requires sp.Valid()
    ensures sp.Position(i) == Some(j) <==> sp.Reachable(i, j)
  {
    PositionReachable(sp, i);
    if sp.Position(i).Some? && sp.Reachable(i, j) {
      ReachableUnique(sp, i, i, sp.Position(i).value, j);
    }
  }

  /** A client that cannot be served stops all later ones. */
  lemma {:induction false} PositionMonotone(sp: Space, i: nat, i': nat)
    requires sp.base > 0 && i <= i'
    ensures sp.Position(i').Some? ==> sp.Position(i).Some? && sp.Position(i).value + (i' - i) <= sp.Position(i').value
  {
    if i == i' {
    } else {
      PositionMonotone(sp, i, i' - 1);
      if sp.Position(i' - 1).Some? {
        SearchFinds(sp, sp.Position(i' - 1).value, MAX_TRIES);
      }
    }
  }

  /** With a positive step, different places hold different stacks. */
  lemma StacksDiffer(sp: Space, j: nat, k: nat)
    requires sp.Valid() && sp.InRange(j) && sp.InRange(k)
    ensures sp.At(j) == sp.At(k) <==> j == k || sp.step == 0
  {
    ValueOfRender(sp.base, sp.width, sp.Number(j));
    ValueOfRender(sp.base, sp.width, sp.Number(k));
    TermMonotone(sp.start, sp.step, if j < k then j else k, if j < k then k else j);
  }
}
