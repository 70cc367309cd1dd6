/**
 From configurations to the table of clients (sched.go, NewSched), and the end-to-end claim: each
 client has an identity of its own and an entry of its own.
 */
module ClientTable {
  import opened Wrappers
  import opened Bytes
  import opened Text
  import opened Digits
  import opened TagSpace
  import opened VlanTags
  import opened Allocator
  import opened ClientId
  import Template

  const ETHERTYPE_IPV4 := 0x0800
  const ETHERTYPE_IPV6 := 0x86DD

  function OctetByte(d: nat): Byte { (d % OCTET) as Byte }

  lemma OctetByteInjective(d: nat, e: nat)
    requires d < OCTET && e < OCTET && OctetByte(d) == OctetByte(e)
    ensures d == e
  {}

  function MacBytes(mac: seq<nat>): (bytes: seq<Byte>)
    ensures |bytes| == |mac|
  {
    if mac == [] then [] else MacBytes(mac[..|mac| - 1]) + [OctetByte(mac[|mac| - 1])]
  }

  lemma LastByte(mac: seq<nat>)
    requires mac != []
    ensures MacBytes(mac)[..|mac| - 1] == MacBytes(mac[..|mac| - 1])
    ensures MacBytes(mac)[|mac| - 1] == OctetByte(mac[|mac| - 1])
  {}

  lemma {:induction false} MacBytesInjective(a: seq<nat>, b: seq<nat>)
    requires |a| == |b| && IsDigits(OCTET, a) && IsDigits(OCTET, b) && MacBytes(a) == MacBytes(b)
    ensures a == b
  {
    if a == [] {
    } else {
      var n := |a| - 1;
      LastByte(a);
      LastByte(b);
      OctetByteInjective(a[n], b[n]);
      MacBytesInjective(a[..n], b[..n]);
      assert a == a[..n] + [a[n]] && b == b[..n] + [b[n]];
    }
  }

  /** The bytes of a MAC are its octets, in order. */
  lemma {:induction false} MacBytesAt(mac: seq<nat>, k: nat)
    requires IsDigits(OCTET, mac) && k < |mac|
    ensures MacBytes(mac)[k] as int == mac[k]
  {
    LastByte(mac);
    if k == |mac| - 1 {
    } else {
      MacBytesAt(mac[..|mac| - 1], k);
      assert MacBytes(mac)[k] == MacBytes(mac)[..|mac| - 1][k];
    }
  }

  /** The octets of a MAC, as numbers. */
  function Octets(bytes: seq<Byte>): (r: seq<nat>)
    ensures |r| == |bytes| && forall k :: 0 <= k < |bytes| ==> r[k] == bytes[k] as int
  {
    seq(|bytes|, k requires 0 <= k < |bytes| => bytes[k] as nat)
  }

  lemma OctetsOfMacBytes(mac: seq<nat>)
    requires IsDigits(OCTET, mac)
    ensures Octets(MacBytes(mac)) == mac
  {
    forall k | 0 <= k < |mac| ensures Octets(MacBytes(mac))[k] == mac[k] { MacBytesAt(mac, k); }
  }

  // ---- identities of a plan ----

  /** The client's keys hold all its tags, and no tag is the library's gap mark. */
  ghost predicate Keyable(plan: Plan, slots: nat) {
    && plan.Valid() && |plan.startMac| == MAC_SIZE
    && plan.space.width <= slots && plan.space.base <= NOVLANTAG
  }

  function IdentityAt(plan: Plan, i: nat): Identity
    requires plan.space.base > 0 && plan.TagsFit(i)
  {
    Identity(MacBytes(plan.MacOf(i)), plan.TagsOf(i))
  }

  /** What makes consecutive clients differ at all. */
  predicate Advances(plan: Plan) {
    plan.macStep > 0 || (plan.space.step > 0 && plan.space.width > 0)
  }

  /** Two clients have the same identity exactly when neither MAC nor tags advance. */
  lemma IdentitiesDiffer(plan: Plan, slots: nat, i: nat, j: nat)
    requires Keyable(plan, slots) && i != j
    requires plan.MacFits(i) && plan.TagsFit(i) && plan.MacFits(j) && plan.TagsFit(j)
    ensures IdentityAt(plan, i) != IdentityAt(plan, j) <==> Advances(plan)
  {
    MacsDiffer(plan, i, j);
    TagsDiffer(plan, i, j);
    if MacBytes(plan.MacOf(i)) == MacBytes(plan.MacOf(j)) {
      MacBytesInjective(plan.MacOf(i), plan.MacOf(j));
    }
  }

  lemma MacsDiffer(plan: Plan, i: nat, j: nat)
    requires plan.Valid() && plan.MacFits(i) && plan.MacFits(j) && i != j
    ensures plan.MacOf(i) != plan.MacOf(j) <==> plan.macStep > 0
  {
    ValueOfRender(OCTET, |plan.startMac|, plan.MacNumber(i));
    ValueOfRender(OCTET, |plan.startMac|, plan.MacNumber(j));
    TermMonotone(Value(OCTET, plan.startMac), plan.macStep, if i < j then i else j, if i < j then j else i);
  }

  lemma TagsDiffer(plan: Plan, i: nat, j: nat)
    requires plan.Valid() && plan.TagsFit(i) && plan.TagsFit(j) && i != j
    ensures plan.TagsOf(i) != plan.TagsOf(j) <==> plan.space.step > 0 && plan.space.width > 0
  {
    if plan.space.width > 0 {
      PositionReachable(plan.space, i);
      PositionReachable(plan.space, j);
      var p, q := plan.space.Position(i).value, plan.space.Position(j).value;
      ReachableUnique(plan.space, i, j, p, q);
      StacksDiffer(plan.space, p, q);
    }
  }

  /** The printed identity of client i. */
  function ClientIdAt(plan: Plan, i: nat): string
    requires plan.space.base > 0 && plan.TagsFit(i)
  {
    IdText(IdentityAt(plan, i))
  }

  lemma ClientIdsDiffer(plan: Plan, slots: nat, i: nat, j: nat)
    requires Keyable(plan, slots) && i != j
    requires plan.MacFits(i) && plan.TagsFit(i) && plan.MacFits(j) && plan.TagsFit(j)
    ensures ClientIdAt(plan, i) != ClientIdAt(plan, j) <==> Advances(plan)
  {
    IdentitiesDiffer(plan, slots, i, j);
    ParseOfIdText(IdentityAt(plan, i));
    ParseOfIdText(IdentityAt(plan, j));
  }

  /** Client i's MAC fits exactly when StartMAC + i * MacStep is a number of that many octets. */
  lemma MacFitsExact(plan: Plan, i: nat)
    requires plan.Valid()
    ensures plan.MacFits(i) <==> Value(OCTET, plan.startMac) + i * plan.macStep < Pow(OCTET, |plan.startMac|)
    ensures plan.MacFits(i) ==> Value(OCTET, plan.MacOf(i)) == Value(OCTET, plan.startMac) + i * plan.macStep
  {
    TermIsProduct(Value(OCTET, plan.startMac), plan.macStep, i);
    if plan.MacFits(i) { ValueOfRender(OCTET, |plan.startMac|, plan.MacNumber(i)); }
  }

  /** Client i's tags fit exactly when the enumeration has a place for it, and then they are that place. */
  lemma TagsFitExact(plan: Plan, i: nat)
    requires plan.Valid() && plan.space.width > 0
    ensures plan.TagsFit(i) <==> HasPlace(plan.space, i)
    ensures forall j: nat :: plan.space.Reachable(i, j) ==> plan.TagsFit(i) && plan.TagsOf(i) == plan.space.At(j)
  {
    PositionReachable(plan.space, i);
    forall j: nat | plan.space.Reachable(i, j) ensures plan.space.Position(i) == Some(j) {
      PositionExact(plan.space, i, j);
    }
  }

  // ---- the table ----

  class DClient {
    const cfg: ClientConfig
    const id: string

    constructor (cfg: ClientConfig, id: string)
      ensures this.cfg == cfg && this.id == id
    {
      this.cfg, this.id := cfg, id;
    }
  }

  function IdSet(ids: seq<string>): set<string> { set id | id in ids }

  /** The last client with a given id; the one that stays in the table. */
  function LastWith(ids: seq<string>, id: string): (r: Option<nat>)
    ensures r.Some? ==> r.value < |ids| && ids[r.value] == id && forall j :: r.value < j < |ids| ==> ids[j] != id
    ensures r.None? ==> id !in ids
  {
    if ids == [] then None
    else if ids[|ids| - 1] == id then Some(|ids| - 1)
    else LastWith(ids[..|ids| - 1], id)
  }

  lemma LastWithSnoc(ids: seq<string>, id: string, x: string)
    ensures LastWith(ids + [id], x) == if x == id then Some(|ids|) else LastWith(ids, x)
  {
    assert (ids + [id])[..|ids|] == ids;
  }

  /** Every id seen so far has an entry: the client's own id and the last configuration that has it. */
  ghost predicate Tabled(configs: seq<ClientConfig>, ids: seq<string>, table: map<string, DClient>)
    requires |ids| <= |configs|
  {
    && table.Keys == IdSet(ids)
    && forall id :: id in table ==>
      && table[id].id == id
      && LastWith(ids, id).Some? && table[id].cfg == configs[LastWith(ids, id).value]
  }

  lemma TabledSnoc(configs: seq<ClientConfig>, ids: seq<string>, table: map<string, DClient>, dc: DClient)
    requires |ids| < |configs| && Tabled(configs, ids, table) && dc.cfg == configs[|ids|]
    ensures Tabled(configs, ids + [dc.id], table[dc.id := dc])
  {
    var table' := table[dc.id := dc];
    forall x | x in table'
      ensures LastWith(ids + [dc.id], x) == if x == dc.id then Some(|ids|) else LastWith(ids, x)
    {
      LastWithSnoc(ids, dc.id, x);
    }
  }

  /** The identity fits the key format. */
  predicate Fits(c: Identity, slots: nat) {
    && |c.mac| == MAC_SIZE && |c.vids| <= slots
    && forall k :: 0 <= k < |c.vids| ==> c.vids[k] < NOVLANTAG
  }

  method ClientIdOf(c: Identity, slots: nat, enableV4: bool, enableV6: bool) returns (id: string)
    requires enableV4 || enableV6
    requires Fits(c, slots)
    ensures id == IdText(c)
  {
    var key := KeyOf(Identity(seq(MAC_SIZE, _ => 0), []), slots, 0);
    if enableV4 {
      key := KeyOf(c, slots, ETHERTYPE_IPV4);
      IdentityOfKey(c, slots, ETHERTYPE_IPV4);
    }
    if enableV6 {
      key := KeyOf(c, slots, ETHERTYPE_IPV6);
      IdentityOfKey(c, slots, ETHERTYPE_IPV6);
    }
    id := GetClientIDFromL2Key(key);
  }

  predicate AllFit(identities: seq<Identity>, slots: nat) {
    forall i :: 0 <= i < |identities| ==> Fits(identities[i], slots)
  }

  /** One client: its id, and its entry in place of an earlier one with the same id. */
  method AddClient(configs: seq<ClientConfig>, c: Identity, i: nat, ghost ids: seq<string>, table: map<string, DClient>,
                   slots: nat, enableV4: bool, enableV6: bool) returns (table': map<string, DClient>)
    requires (enableV4 || enableV6) && Fits(c, slots)
    requires i < |ids| <= |configs| && ids[i] == IdText(c) && Tabled(configs, ids[..i], table)
    ensures Tabled(configs, ids[..i + 1], table')
  {
    var id := ClientIdOf(c, slots, enableV4, enableV6);
    var dc := new DClient(configs[i], id);
    assert ids[..i + 1] == ids[..i] + [id];
    TabledSnoc(configs, ids[..i], table, dc);
    table' := table[id := dc];
  }

  /**
   The client loop of NewSched. With both stacks enabled the id comes from the v6 key, which prints
   like the v4 key.
   */
  method NewClients(configs: seq<ClientConfig>, identities: seq<Identity>, slots: nat, enableV4: bool, enableV6: bool)
    returns (table: map<string, DClient>, ghost ids: seq<string>)
    requires enableV4 || enableV6
    requires |configs| == |identities| && AllFit(identities, slots)
    ensures ids == PrintAll(IdText, identities) && Tabled(configs, ids, table)
  {
    table := map[];
    ids := PrintAll(IdText, identities);
    for i := 0 to |configs|
      invariant Tabled(configs, ids[..i], table)
    {
      table := AddClient(configs, identities[i], i, ids, table, slots, enableV4, enableV6);
    }
    assert ids[..|ids|] == ids;
  }

  ghost predicate PairwiseDistinct(ids: seq<string>) {
    forall i, j :: 0 <= i < j < |ids| ==> ids[i] != ids[j]
  }

  /** The table has an entry for each client exactly when the ids are pairwise distinct. */
  lemma {:induction false} TableSize(ids: seq<string>)
    ensures |IdSet(ids)| <= |ids|
    ensures |IdSet(ids)| == |ids| <==> PairwiseDistinct(ids)
  {
    if ids == [] {
    } else {
      var n := |ids| - 1;
      var front, id := ids[..n], ids[n];
      TableSize(front);
      assert ids == front + [id];
      assert IdSet(ids) == IdSet(front) + {id};
      if id in front {
        assert IdSet(ids) == IdSet(front);
      } else {
        assert |IdSet(ids)| == |IdSet(front)| + 1;
      }
    }
  }

  /** Under distinct ids every client's own entry is the one in the table. */
  lemma {:induction false} OwnEntry(ids: seq<string>, i: nat)
    requires PairwiseDistinct(ids) && i < |ids|
    ensures LastWith(ids, ids[i]) == Some(i)
  {
    if i == |ids| - 1 {
    } else {
      OwnEntry(ids[..|ids| - 1], i);
    }
  }

  /** The strings are the ids of a plan's clients, in order. */
  ghost predicate PlanIds(plan: Plan, ids: seq<string>)
    requires plan.space.base > 0
  {
    forall i :: 0 <= i < |ids| ==> plan.MacFits(i) && plan.TagsFit(i) && ids[i] == ClientIdAt(plan, i)
  }

  lemma PlanIdsDistinct(plan: Plan, slots: nat, ids: seq<string>)
    requires Keyable(plan, slots) && PlanIds(plan, ids)
    ensures PairwiseDistinct(ids) <==> |ids| <= 1 || Advances(plan)
  {
    forall i, j | 0 <= i < j < |ids| ensures ids[i] != ids[j] <==> Advances(plan) {
      ClientIdsDiffer(plan, slots, i, j);
    }
    if |ids| > 1 { assert ids[0] != ids[1] <==> Advances(plan); }
  }

  /**
   End to end: the table of n clients has exactly n entries, each client's own under its own id, if and
   only if there is at most one client or MACs or tags advance.
   */
  lemma OneEntryPerClient(plan: Plan, slots: nat, ids: seq<string>)
    requires Keyable(plan, slots) && PlanIds(plan, ids)
    ensures |IdSet(ids)| == |ids| <==> |ids| <= 1 || Advances(plan)
    ensures |ids| <= 1 || Advances(plan) ==> forall i :: 0 <= i < |ids| ==> LastWith(ids, ids[i]) == Some(i)
  {
    PlanIdsDistinct(plan, slots, ids);
    TableSize(ids);
    if |ids| <= 1 || Advances(plan) {
      forall i | 0 <= i < |ids| ensures LastWith(ids, ids[i]) == Some(i) { OwnEntry(ids, i); }
    }
  }

  // ---- from the setup to the table ----

  /** The identities are those of the configurations. */
  ghost predicate Identifies(configs: seq<ClientConfig>, identities: seq<Identity>)
    reads TagObjects(configs)
  {
    && |identities| == |configs|
    && forall i :: 0 <= i < |configs| ==> identities[i] == Identity(MacBytes(configs[i].mac), Ids(configs[i].vlans))
  }

  method IdentitiesOf(configs: seq<ClientConfig>) returns (r: seq<Identity>)
    ensures Identifies(configs, r)
  {
    r := [];
    for i := 0 to |configs|
      invariant |r| == i
      invariant forall k :: 0 <= k < i ==> r[k] == Identity(MacBytes(configs[k].mac), Ids(configs[k].vlans))
    {
      r := r + [Identity(MacBytes(configs[i].mac), Ids(configs[i].vlans))];
    }
  }

  /** The configurations have the MACs and tags of the plan. */
  ghost predicate Planned(plan: Plan, configs: seq<ClientConfig>)
    requires plan.space.base > 0
    reads TagObjects(configs)
  {
    forall i :: 0 <= i < |configs| ==>
      && plan.MacFits(i) && configs[i].mac == plan.MacOf(i)
      && plan.TagsFit(i) && Ids(configs[i].vlans) == plan.TagsOf(i)
  }

  lemma ServedIsPlanned(s: Setup, plan: Plan, types: seq<nat>, configs: seq<ClientConfig>)
    requires plan.space.base > 0
    requires Template.Usable(s.rid) && Template.Usable(s.cid) && Template.Usable(s.clntId)
    requires ServesAll(s, plan, types, configs)
    ensures Planned(plan, configs)
  {
    forall i | 0 <= i < |configs|
      ensures plan.MacFits(i) && configs[i].mac == plan.MacOf(i)
      ensures plan.TagsFit(i) && Ids(configs[i].vlans) == plan.TagsOf(i)
    {
      assert Serves(s, plan, types, i, configs[i]);
    }
  }

  lemma PlanFits(plan: Plan, slots: nat, i: nat)
    requires Keyable(plan, slots) && plan.MacFits(i) && plan.TagsFit(i)
    ensures Fits(IdentityAt(plan, i), slots)
  {
    var vids := plan.TagsOf(i);
    assert plan.space.width == 0 ==> vids == [];
    assert IsDigits(plan.space.base, vids);
  }

  /** The identities are those of the plan, and fit the key format. */
  ghost predicate PlanIdentities(plan: Plan, slots: nat, identities: seq<Identity>)
    requires plan.space.base > 0
  {
    forall i :: 0 <= i < |identities| ==>
      plan.MacFits(i) && plan.TagsFit(i) && identities[i] == IdentityAt(plan, i) && Fits(identities[i], slots)
  }

  lemma PlannedIdentities(plan: Plan, slots: nat, configs: seq<ClientConfig>, identities: seq<Identity>)
    requires Keyable(plan, slots) && Planned(plan, configs) && |identities| == |configs|
    requires forall i :: 0 <= i < |configs| ==>
      identities[i] == Identity(MacBytes(configs[i].mac), Ids(configs[i].vlans))
    ensures PlanIdentities(plan, slots, identities)
  {
    forall i | 0 <= i < |identities| ensures Fits(identities[i], slots) { PlanFits(plan, slots, i); }
  }

  lemma PrintedPlanIds(plan: Plan, slots: nat, identities: seq<Identity>)
    requires plan.space.base > 0 && PlanIdentities(plan, slots, identities)
    ensures PlanIds(plan, PrintAll(IdText, identities))
  {}

  /** Client i's own entry is in the table. */
  ghost predicate Entered(plan: Plan, table: map<string, DClient>, i: nat)
    requires plan.space.base > 0
    reads set id, k | id in table && 0 <= k < |table[id].cfg.vlans| :: table[id].cfg.vlans[k]
  {
    && plan.TagsFit(i)
    && var id := ClientIdAt(plan, i);
       && id in table && table[id].id == id
       && table[id].cfg.mac == plan.MacOf(i) && Ids(table[id].cfg.vlans) == plan.TagsOf(i)
  }

  lemma OwnEntered(plan: Plan, configs: seq<ClientConfig>, ids: seq<string>, table: map<string, DClient>, i: nat)
    requires plan.space.base > 0 && Planned(plan, configs) && |ids| == |configs| && PlanIds(plan, ids)
    requires Tabled(configs, ids, table) && i < |ids| && LastWith(ids, ids[i]) == Some(i)
    ensures Entered(plan, table, i)
  {
    assert ids[i] in IdSet(ids);
  }

  /** The table of n clients is complete exactly when there is one at most or the plan advances. */
  ghost predicate TableOk(plan: Plan, n: nat, table: map<string, DClient>)
    requires plan.space.base > 0
    reads set id, k | id in table && 0 <= k < |table[id].cfg.vlans| :: table[id].cfg.vlans[k]
  {
    && (|table| == n <==> n <= 1 || Advances(plan))
    && (n <= 1 || Advances(plan) ==> forall i: nat :: i < n ==> Entered(plan, table, i))
  }

  lemma TableOfPlan(plan: Plan, slots: nat, configs: seq<ClientConfig>, ids: seq<string>, table: map<string, DClient>)
    requires Keyable(plan, slots) && Planned(plan, configs) && |ids| == |configs| && PlanIds(plan, ids)
    requires Tabled(configs, ids, table)
    ensures TableOk(plan, |configs|, table)
  {
    OneEntryPerClient(plan, slots, ids);
    assert |table| == |table.Keys| == |IdSet(ids)|;
    if |configs| <= 1 || Advances(plan) {
      forall i: nat | i < |configs| ensures Entered(plan, table, i) { OwnEntered(plan, configs, ids, table, i); }
    }
  }

  lemma PlannedFit(plan: Plan, slots: nat, configs: seq<ClientConfig>, identities: seq<Identity>)
    requires Keyable(plan, slots) && Planned(plan, configs) && Identifies(configs, identities)
    ensures AllFit(identities, slots)
  {
    PlannedIdentities(plan, slots, configs, identities);
  }

  lemma PlannedTable(plan: Plan, slots: nat, configs: seq<ClientConfig>, identities: seq<Identity>,
                     ids: seq<string>, table: map<string, DClient>)
    requires Keyable(plan, slots) && Planned(plan, configs) && Identifies(configs, identities)
    requires ids == PrintAll(IdText, identities) && Tabled(configs, ids, table)
    ensures TableOk(plan, |configs|, table)
  {
    PlannedIdentities(plan, slots, configs, identities);
    PrintedPlanIds(plan, slots, identities);
    TableOfPlan(plan, slots, configs, ids, table);
  }

  /**
   What an id says about client i of the setup: it reads back as a MAC whose octets, as a number, are
   StartMAC + i * MacStep, and as the tags at the place of the progression that is the client's.
   */
  ghost predicate Tells(s: Setup, i: nat, id: string)
    requires s.base > 0
    reads s.startVlans
  {
    match Parse(id)
    case None => false
    case Some(c) =>
      && |c.mac| == |s.startMac| && Value(OCTET, Octets(c.mac)) == Value(OCTET, s.startMac) + i * s.macStep
      && if s.startVlans == [] then c.vids == []
         else exists j: nat :: j >= i && PlanOf(s).space.Reachable(i, j) && IsStack(s, j, c.vids)
  }

  lemma IdTells(s: Setup, slots: nat, i: nat)
    requires ValidSetup(s) && Keyable(PlanOf(s), slots) && PlanOf(s).MacFits(i) && PlanOf(s).TagsFit(i)
    ensures Tells(s, i, ClientIdAt(PlanOf(s), i))
  {
    var plan := PlanOf(s);
    PlanMeans(s, i);
    OctetsOfMacBytes(plan.MacOf(i));
    ParseOfIdText(IdentityAt(plan, i));
  }

  lemma IdsTell(s: Setup, slots: nat)
    requires ValidSetup(s) && Keyable(PlanOf(s), slots) && ServesEveryone(s.numOfClients, PlanOf(s))
    ensures forall i: nat :: i < s.numOfClients ==>
      PlanOf(s).TagsFit(i) && Tells(s, i, ClientIdAt(PlanOf(s), i))
  {
    forall i: nat | i < s.numOfClients ensures PlanOf(s).TagsFit(i) && Tells(s, i, ClientIdAt(PlanOf(s), i)) {
      LaterFails(i, s.numOfClients, PlanOf(s));
      IdTells(s, slots, i);
    }
  }

  /** The client loop leaves the configurations as they are. */
  method ClientsOf(configs: seq<ClientConfig>, identities: seq<Identity>, slots: nat, enableV4: bool, enableV6: bool,
                   ghost plan: Plan) returns (table: map<string, DClient>, ghost ids: seq<string>)
    requires plan.space.base > 0 && Planned(plan, configs) && Identifies(configs, identities)
    requires AllFit(identities, slots) && (enableV4 || enableV6)
    ensures Planned(plan, configs) && Identifies(configs, identities)
    ensures ids == PrintAll(IdText, identities) && Tabled(configs, ids, table)
  {
    table, ids := NewClients(configs, identities, slots, enableV4, enableV6);
  }

  method TableOf(configs: seq<ClientConfig>, slots: nat, enableV4: bool, enableV6: bool, ghost plan: Plan)
    returns (table: map<string, DClient>)
    requires Keyable(plan, slots) && Planned(plan, configs) && (enableV4 || enableV6)
    ensures TableOk(plan, |configs|, table)
  {
    var identities := IdentitiesOf(configs);
    PlannedFit(plan, slots, configs, identities);
    ghost var ids;
    table, ids := ClientsOf(configs, identities, slots, enableV4, enableV6, plan);
    PlannedTable(plan, slots, configs, identities, ids, table);
  }

  /**
   NewSched, as far as it is about who the clients are: it fails when somebody cannot be served, and then
   each client has an entry of its own under its own id, exactly when there is one client at most or MACs
   or tags advance.
   */
  method NewSched(s: Setup, slots: nat, enableV4: bool, enableV6: bool) returns (ok: bool, table: map<string, DClient>)
    requires ValidSetup(s) && Keyable(PlanOf(s), slots) && (enableV4 || enableV6)
    ensures ok <==> ServesEveryone(s.numOfClients, old(PlanOf(s)))
    ensures ok ==> (|table| == s.numOfClients <==> s.numOfClients <= 1 || Advances(old(PlanOf(s))))
    ensures ok && (s.numOfClients <= 1 || Advances(old(PlanOf(s)))) ==>
      forall i: nat :: i < s.numOfClients ==> Entered(old(PlanOf(s)), table, i)
    ensures ok ==> forall i: nat :: i < s.numOfClients ==>
      old(PlanOf(s)).TagsFit(i) && old(Tells(s, i, ClientIdAt(PlanOf(s), i)))
  {
    ghost var plan, types := PlanOf(s), EtherTypes(s.startVlans);
    if ServesEveryone(s.numOfClients, plan) { IdsTell(s, slots); }
    var configs := GenClientConfigurations(s);
    ok, table := configs.Some?, map[];
    if ok {
      ServedIsPlanned(s, plan, types, configs.value);
      table := TableOf(configs.value, slots, enableV4, enableV6, plan);
    }
  }
}
