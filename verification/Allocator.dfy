/** The client configurations of a test (setup.go): who gets which MAC, VLAN stack and options. */
module Allocator {
  import opened Wrappers
  import opened Digits
  import opened TagSpace
  import opened VlanTags
  import Template

  datatype Opt =
    | Plain(code: nat, data: string)
    | AgentInfo(subOptions: seq<Opt>)
    | AgentRemoteId(text: string)
    | AgentCircuitId(text: string)
    | ClientIdentifier(text: string)
    | RemoteId(text: string)
    | InterfaceId(text: string)
    | ClientDuid(text: string)

  /** The part of the configuration that decides about clients; base is the number of VLAN ids. */
  datatype Setup = Setup(
    numOfClients: nat, startMac: seq<nat>, macStep: nat,
    startVlans: seq<Vlan>, base: nat, vlanStep: nat, excludedVlans: seq<nat>,
    v4Options: seq<Opt>, v6Options: seq<Opt>,
    rid: string, cid: string, clntId: string)

  datatype ClientConfig = ClientConfig(
    mac: seq<nat>, vlans: seq<Vlan>, v4Options: seq<Opt>, v6Options: seq<Opt>, relayOptions: seq<Opt>)

  const OCTET := 256

  /** Where clients get their addresses from, as values. */
  datatype Plan = Plan(startMac: seq<nat>, macStep: nat, space: Space)
  {
    ghost predicate Valid() { IsDigits(OCTET, startMac) && space.Valid() }

    /** The MAC of client i as a number: StartMAC + i * MacStep. */
    function MacNumber(i: nat): nat { Term(Value(OCTET, startMac), macStep, i) }

    predicate MacFits(i: nat) { MacNumber(i) < Pow(OCTET, |startMac|) }

    function MacOf(i: nat): seq<nat> { Render(OCTET, |startMac|, MacNumber(i)) }

    /** Without tags there is nothing to advance; otherwise client i needs the i-th free stack. */
    predicate TagsFit(i: nat)
      requires space.base > 0
    {
      space.width == 0 || space.Position(i).Some?
    }

    function TagsOf(i: nat): seq<nat>
      requires space.base > 0 && TagsFit(i)
    {
      if space.width == 0 then [] else space.At(space.Position(i).value)
    }
  }

  function PlanOf(s: Setup): Plan
    reads s.startVlans
  {
    Plan(s.startMac, s.macStep,
         Space(s.base, |s.startVlans|, Value(s.base, Ids(s.startVlans)), s.vlanStep, s.excludedVlans))
  }

  ghost predicate ValidSetup(s: Setup)
    reads s.startVlans
  {
    && s.base > 0
    && IsDigits(OCTET, s.startMac) && IsDigits(s.base, Ids(s.startVlans))
    && Template.Usable(s.rid) && Template.Usable(s.cid) && Template.Usable(s.clntId)
  }

  // ---- options ----

  /** An option that is present only when its template is not empty. */
  function Named(template: string, o: Opt): seq<Opt> { if template == "" then [] else [o] }

  function SubOptionsOf(s: Setup, i: nat): seq<Opt>
    requires Template.Usable(s.rid) && Template.Usable(s.cid)
  {
    Named(s.rid, AgentRemoteId(Template.Generate(s.rid, i))) + Named(s.cid, AgentCircuitId(Template.Generate(s.cid, i)))
  }

  function V4OptionsOf(s: Setup, i: nat): seq<Opt>
    requires Template.Usable(s.rid) && Template.Usable(s.cid) && Template.Usable(s.clntId)
  {
    var sub := SubOptionsOf(s, i);
    s.v4Options + AgentOption(sub)
    + Named(s.clntId, ClientIdentifier(Template.Generate(s.clntId, i)))
  }

  function V6OptionsOf(s: Setup, i: nat): seq<Opt>
    requires Template.Usable(s.clntId)
  {
    s.v6Options + Named(s.clntId, ClientDuid(Template.Generate(s.clntId, i)))
  }

  function RelayOptionsOf(s: Setup, i: nat): seq<Opt>
    requires Template.Usable(s.rid) && Template.Usable(s.cid)
  {
    Named(s.rid, RemoteId(Template.Generate(s.rid, i))) + Named(s.cid, InterfaceId(Template.Generate(s.cid, i)))
  }

  /**
   Which texts client i's options carry, and where: circuit id and interface id that of the circuit template,
   both remote ids that of the remote template, client identifier and DUID that of the client id template, each
   with the client's index and exactly if its template is set. What is configured for all clients comes first.
   */
  ghost predicate CarryTexts(s: Setup, i: nat, v4: seq<Opt>, v6: seq<Opt>, relay: seq<Opt>)
    requires Template.Usable(s.rid) && Template.Usable(s.cid) && Template.Usable(s.clntId)
  {
    var rid, cid, clntId := Template.Generate(s.rid, i), Template.Generate(s.cid, i), Template.Generate(s.clntId, i);
    && s.v4Options <= v4 && s.v6Options <= v6
    && v4[|s.v4Options|..] ==
         (if s.rid != "" && s.cid != "" then [AgentInfo([AgentRemoteId(rid), AgentCircuitId(cid)])]
          else if s.rid != "" then [AgentInfo([AgentRemoteId(rid)])]
          else if s.cid != "" then [AgentInfo([AgentCircuitId(cid)])]
          else [])
         + (if s.clntId != "" then [ClientIdentifier(clntId)] else [])
    && v6[|s.v6Options|..] == (if s.clntId != "" then [ClientDuid(clntId)] else [])
    && relay ==
         (if s.rid != "" then [RemoteId(rid)] else []) + (if s.cid != "" then [InterfaceId(cid)] else [])
  }

  lemma DropPrefix<T>(a: seq<T>, b: seq<T>)
    ensures a <= a + b && (a + b)[|a|..] == b
  {}

  lemma SubOptionsListed(s: Setup, i: nat)
    requires Template.Usable(s.rid) && Template.Usable(s.cid)
    ensures SubOptionsOf(s, i) ==
      if s.rid != "" && s.cid != "" then
        [AgentRemoteId(Template.Generate(s.rid, i)), AgentCircuitId(Template.Generate(s.cid, i))]
      else if s.rid != "" then [AgentRemoteId(Template.Generate(s.rid, i))]
      else if s.cid != "" then [AgentCircuitId(Template.Generate(s.cid, i))]
      else []
  {}

  lemma OptionsCarryTexts(s: Setup, i: nat)
    requires Template.Usable(s.rid) && Template.Usable(s.cid) && Template.Usable(s.clntId)
    ensures CarryTexts(s, i, V4OptionsOf(s, i), V6OptionsOf(s, i), RelayOptionsOf(s, i))
  {
    var named := Named(s.clntId, ClientIdentifier(Template.Generate(s.clntId, i)));
    var agent := AgentOption(SubOptionsOf(s, i));
    assert s.v4Options + agent + named == s.v4Options + (agent + named);
    SubOptionsListed(s, i);
    DropPrefix(s.v4Options, agent + named);
    DropPrefix(s.v6Options, Named(s.clntId, ClientDuid(Template.Generate(s.clntId, i))));
  }

  method GenOptions(s: Setup, i: nat) returns (v4: seq<Opt>, v6: seq<Opt>, relay: seq<Opt>)
    requires Template.Usable(s.rid) && Template.Usable(s.cid) && Template.Usable(s.clntId)
    ensures CarryTexts(s, i, v4, v6, relay)
    ensures v4 == V4OptionsOf(s, i) && v6 == V6OptionsOf(s, i) && relay == RelayOptionsOf(s, i)
  {
    OptionsCarryTexts(s, i);
    v4, v6, relay := s.v4Options, s.v6Options, [];
    if s.rid != "" || s.cid != "" {
      var subOptList: seq<Opt> := [];
      if s.rid != "" {
        subOptList := subOptList + [AgentRemoteId(Template.Generate(s.rid, i))];
        relay := relay + [RemoteId(Template.Generate(s.rid, i))];
      }
      if s.cid != "" {
        subOptList := subOptList + [AgentCircuitId(Template.Generate(s.cid, i))];
        relay := relay + [InterfaceId(Template.Generate(s.cid, i))];
      }
      assert subOptList == SubOptionsOf(s, i);
      v4 := v4 + [AgentInfo(subOptList)];
    }
    if s.clntId != "" {
      v4 := v4 + [ClientIdentifier(Template.Generate(s.clntId, i))];
      v6 := v6 + [ClientDuid(Template.Generate(s.clntId, i))];
    }
  }

  lemma NamedDiffers(template: string, o: Opt, o': Opt)
    ensures Named(template, o) != Named(template, o') <==> template != "" && o != o'
  {
    if template != "" && o != o' { assert Named(template, o)[0] != Named(template, o')[0]; }
  }

  lemma PairsDiffer<T>(a: seq<T>, b: seq<T>, a': seq<T>, b': seq<T>)
    requires |a| == |a'|
    ensures a + b == a' + b' <==> a == a' && b == b'
  {
    if a + b == a' + b' {
      assert a == (a + b)[..|a|] && a' == (a' + b')[..|a'|];
      assert b == (a + b)[|a|..] && b' == (a' + b')[|a'|..];
    }
  }

  /** Two clients have different identity options exactly when a template mentions the client's index. */
  lemma OptionsDiffer(s: Setup, i: nat, j: nat)
    requires Template.Usable(s.rid) && Template.Usable(s.cid) && Template.Usable(s.clntId) && i != j
    ensures V6OptionsOf(s, i) != V6OptionsOf(s, j) <==> Template.HasVariable(s.clntId)
    ensures RelayOptionsOf(s, i) != RelayOptionsOf(s, j) <==> Template.HasVariable(s.rid) || Template.HasVariable(s.cid)
    ensures V4OptionsOf(s, i) != V4OptionsOf(s, j) <==>
      Template.HasVariable(s.rid) || Template.HasVariable(s.cid) || Template.HasVariable(s.clntId)
  {
    Template.GenerateInjective(s.clntId, i, j);
    Template.GenerateInjective(s.rid, i, j);
    Template.GenerateInjective(s.cid, i, j);
    NamedDiffers(s.clntId, ClientDuid(Template.Generate(s.clntId, i)), ClientDuid(Template.Generate(s.clntId, j)));
    PairsDiffer(s.v6Options, Named(s.clntId, ClientDuid(Template.Generate(s.clntId, i))),
                s.v6Options, Named(s.clntId, ClientDuid(Template.Generate(s.clntId, j))));
    NamedDiffers(s.rid, RemoteId(Template.Generate(s.rid, i)), RemoteId(Template.Generate(s.rid, j)));
    NamedDiffers(s.cid, InterfaceId(Template.Generate(s.cid, i)), InterfaceId(Template.Generate(s.cid, j)));
    PairsDiffer(Named(s.rid, RemoteId(Template.Generate(s.rid, i))),
                Named(s.cid, InterfaceId(Template.Generate(s.cid, i))),
                Named(s.rid, RemoteId(Template.Generate(s.rid, j))),
                Named(s.cid, InterfaceId(Template.Generate(s.cid, j))));
    V4OptionsDiffer(s, i, j);
  }

  lemma SubOptionsDiffer(s: Setup, i: nat, j: nat)
    requires Template.Usable(s.rid) && Template.Usable(s.cid) && i != j
    ensures |SubOptionsOf(s, i)| == |SubOptionsOf(s, j)|
    ensures SubOptionsOf(s, i) != SubOptionsOf(s, j) <==> Template.HasVariable(s.rid) || Template.HasVariable(s.cid)
  {
    Template.GenerateInjective(s.rid, i, j);
    Template.GenerateInjective(s.cid, i, j);
    var r, r' := AgentRemoteId(Template.Generate(s.rid, i)), AgentRemoteId(Template.Generate(s.rid, j));
    var c, c' := AgentCircuitId(Template.Generate(s.cid, i)), AgentCircuitId(Template.Generate(s.cid, j));
    NamedDiffers(s.rid, r, r');
    NamedDiffers(s.cid, c, c');
    PairsDiffer(Named(s.rid, r), Named(s.cid, c), Named(s.rid, r'), Named(s.cid, c'));
  }

  /** Option 82 with the sub-options, if there are any. */
  function AgentOption(sub: seq<Opt>): seq<Opt> { if sub == [] then [] else [AgentInfo(sub)] }

  lemma AgentOptionDiffers(sub: seq<Opt>, sub': seq<Opt>)
    requires |sub| == |sub'|
    ensures |AgentOption(sub)| == |AgentOption(sub')| && (AgentOption(sub) != AgentOption(sub') <==> sub != sub')
  {
    if sub != sub' { assert AgentOption(sub)[0] != AgentOption(sub')[0]; }
  }

  lemma V4OptionsDiffer(s: Setup, i: nat, j: nat)
    requires Template.Usable(s.rid) && Template.Usable(s.cid) && Template.Usable(s.clntId) && i != j
    ensures V4OptionsOf(s, i) != V4OptionsOf(s, j) <==>
      Template.HasVariable(s.rid) || Template.HasVariable(s.cid) || Template.HasVariable(s.clntId)
  {
    Template.GenerateInjective(s.clntId, i, j);
    SubOptionsDiffer(s, i, j);
    var a, a' := AgentOption(SubOptionsOf(s, i)), AgentOption(SubOptionsOf(s, j));
    AgentOptionDiffers(SubOptionsOf(s, i), SubOptionsOf(s, j));
    var c, c' := ClientIdentifier(Template.Generate(s.clntId, i)), ClientIdentifier(Template.Generate(s.clntId, j));
    NamedDiffers(s.clntId, c, c');
    PairsDiffer(s.v4Options + a, Named(s.clntId, c), s.v4Options + a', Named(s.clntId, c'));
    PairsDiffer(s.v4Options, a, s.v4Options, a');
  }

  // ---- the VLAN stack ----

  /** incvidFunc: advances until a stack without excluded tags is found, ten times at most. */
  method IncVids(ids: seq<nat>, sp: Space, ghost p: nat) returns (r: Option<seq<nat>>)
    requires sp.Valid() && sp.InRange(p) && ids == sp.At(p)
    ensures r.Some? <==> sp.Search(p, MAX_TRIES).Some?
    ensures r.Some? ==> r.value == sp.At(sp.Search(p, MAX_TRIES).value)
  {
    var newids := ids;
    for i := 0 to MAX_TRIES
      invariant sp.InRange(p + i) && newids == sp.At(p + i)
      invariant sp.Search(p, MAX_TRIES) == sp.Search(p + i, MAX_TRIES - i)
    {
      var next := IncreaseIds(newids, sp, p + i);
      if next.None? {
        return None;
      }
      newids := next.value;
      var excluded := Excluded(newids, sp.excludes);
      if !excluded {
        return Some(newids);
      }
    }
    r := None;
  }

  /** One step along the progression. */
  method IncreaseIds(ids: seq<nat>, sp: Space, ghost p: nat) returns (r: Option<seq<nat>>)
    requires sp.Valid() && sp.InRange(p) && ids == sp.At(p)
    ensures r.Some? <==> sp.InRange(p + 1)
    ensures r.Some? ==> r.value == sp.At(p + 1)
  {
    StepValue(sp, p);
    r := Increase(sp.base, ids, sp.step);
    if r.Some? { RenderOfValue(sp.base, r.value); }
  }

  lemma StepValue(sp: Space, p: nat)
    requires sp.Valid() && sp.InRange(p)
    ensures Value(sp.base, sp.At(p)) + sp.step == sp.Number(p + 1)
  {
    ValueOfRender(sp.base, sp.width, sp.Number(p));
  }

  /** The MAC of client i + 1 is one step after that of client i. */
  lemma StepMac(plan: Plan, i: nat)
    requires plan.Valid() && plan.MacFits(i)
    ensures Value(OCTET, plan.MacOf(i)) + plan.macStep == plan.MacNumber(i + 1)
  {
    ValueOfRender(OCTET, |plan.startMac|, plan.MacNumber(i));
  }

  lemma PlanIsValid(s: Setup)
    requires ValidSetup(s)
    ensures PlanOf(s).Valid() && PlanOf(s).MacFits(0)
    ensures PlanOf(s).MacOf(0) == s.startMac
    ensures PlanOf(s).space.At(0) == Ids(s.startVlans)
  {
    ValueBound(s.base, Ids(s.startVlans));
    ValueBound(OCTET, s.startMac);
    RenderOfValue(s.base, Ids(s.startVlans));
    RenderOfValue(OCTET, s.startMac);
  }

  // ---- the plan in terms of the setup ----

  /** Stack j of the progression as a number, and its tags. */
  function StackNumber(s: Setup, j: nat): nat
    reads s.startVlans
  {
    Value(s.base, Ids(s.startVlans)) + j * s.vlanStep
  }

  /** The tags are stack j of the progression, none of them excluded. */
  ghost predicate IsStack(s: Setup, j: nat, tags: seq<nat>)
    reads s.startVlans
  {
    && |tags| == |s.startVlans| && IsDigits(s.base, tags) && Value(s.base, tags) == StackNumber(s, j)
    && forall k :: 0 <= k < |tags| ==> tags[k] !in s.excludedVlans
  }

  /** Which places of the plan's progression exist and are free, in terms of the setup. */
  lemma PlaceMeans(s: Setup, j: nat)
    requires ValidSetup(s)
    ensures PlanOf(s).space.InRange(j) <==> StackNumber(s, j) < Pow(s.base, |s.startVlans|)
    ensures PlanOf(s).space.InRange(j) ==>
      (PlanOf(s).space.Free(j) <==> IsStack(s, j, PlanOf(s).space.At(j)))
  {
    var sp := PlanOf(s).space;
    TermIsProduct(sp.start, sp.step, j);
    if sp.InRange(j) { ValueOfRender(sp.base, sp.width, sp.Number(j)); }
  }

  lemma PlanMac(s: Setup, i: nat)
    requires ValidSetup(s) && PlanOf(s).MacFits(i)
    ensures Value(OCTET, PlanOf(s).MacOf(i)) == Value(OCTET, s.startMac) + i * s.macStep
    ensures |PlanOf(s).MacOf(i)| == |s.startMac|
  {
    TermIsProduct(Value(OCTET, s.startMac), s.macStep, i);
    ValueOfRender(OCTET, |s.startMac|, PlanOf(s).MacNumber(i));
  }

  lemma PlanTags(s: Setup, i: nat) returns (j: nat)
    requires ValidSetup(s) && PlanOf(s).TagsFit(i) && s.startVlans != []
    ensures j >= i && PlanOf(s).space.Reachable(i, j) && IsStack(s, j, PlanOf(s).TagsOf(i))
  {
    PlanIsValid(s);
    PositionReachable(PlanOf(s).space, i);
    PositionMonotone(PlanOf(s).space, 0, i);
    j := PlanOf(s).space.Position(i).value;
    PlaceMeans(s, j);
  }

  /**
   What the plan gives to client i, in terms of the setup: the MAC that is StartMAC + i * MacStep, and a stack
   of the progression StartVLANs + j * VLANStep without excluded tags, for the place j that is the client's.
   */
  lemma PlanMeans(s: Setup, i: nat)
    requires ValidSetup(s) && PlanOf(s).MacFits(i) && PlanOf(s).TagsFit(i)
    ensures Value(OCTET, PlanOf(s).MacOf(i)) == Value(OCTET, s.startMac) + i * s.macStep
    ensures |PlanOf(s).MacOf(i)| == |s.startMac|
    ensures s.startVlans != [] ==>
      exists j: nat :: j >= i && PlanOf(s).space.Reachable(i, j) && IsStack(s, j, PlanOf(s).TagsOf(i))
    ensures s.startVlans == [] ==> PlanOf(s).TagsOf(i) == []
  {
    PlanMac(s, i);
    if s.startVlans != [] {
      var j := PlanTags(s, i);
    }
  }

  // ---- all clients ----

  /** The last client's MAC fits, and so does its place among the tag stacks. */
  predicate ServesEveryone(n: nat, plan: Plan)
    requires plan.space.base > 0
  {
    n == 0 || (plan.MacFits(n - 1) && plan.TagsFit(n - 1))
  }

  /** A client that cannot be served makes the whole generation fail. */
  lemma LaterFails(i: nat, n: nat, plan: Plan)
    requires plan.Valid() && i < n
    ensures ServesEveryone(n, plan) ==> plan.MacFits(i) && plan.TagsFit(i)
  {
    TermMonotone(Value(OCTET, plan.startMac), plan.macStep, i, n - 1);
    PositionMonotone(plan.space, i, n - 1);
  }

  /** What configuration c promises to client i. */
  ghost predicate Serves(s: Setup, plan: Plan, types: seq<nat>, i: nat, c: ClientConfig)
    requires plan.space.base > 0
    requires Template.Usable(s.rid) && Template.Usable(s.cid) && Template.Usable(s.clntId)
    reads c.vlans
  {
    && plan.MacFits(i) && c.mac == plan.MacOf(i)
    && plan.TagsFit(i) && Ids(c.vlans) == plan.TagsOf(i)
    && EtherTypes(c.vlans) == types
    && c.v4Options == V4OptionsOf(s, i)
    && c.v6Options == V6OptionsOf(s, i)
    && c.relayOptions == RelayOptionsOf(s, i)
  }

  ghost function TagObjects(r: seq<ClientConfig>): set<Vlan> {
    set i, k | 0 <= i < |r| && 0 <= k < |r[i].vlans| :: r[i].vlans[k]
  }

  ghost predicate ServesAll(s: Setup, plan: Plan, types: seq<nat>, r: seq<ClientConfig>)
    requires plan.space.base > 0
    requires Template.Usable(s.rid) && Template.Usable(s.cid) && Template.Usable(s.clntId)
    reads TagObjects(r)
  {
    forall i :: 0 <= i < |r| ==> Serves(s, plan, types, i, r[i])
  }

  /** The tag objects of different clients are different, and so are those of one client. */
  ghost predicate NoSharing(r: seq<ClientConfig>) {
    && (forall i :: 0 <= i < |r| ==> Distinct(r[i].vlans))
    && (forall i, j :: 0 <= i < j < |r| ==> Apart(r[i].vlans, r[j].vlans))
  }

  lemma TagObjectsSnoc(r: seq<ClientConfig>, c: ClientConfig)
    ensures TagObjects(r + [c]) == TagObjects(r) + Objects(c.vlans)
  {
    var r' := r + [c];
    assert r'[|r|] == c;
    forall v | v in TagObjects(r) ensures v in TagObjects(r') {
      var i, k :| 0 <= i < |r| && 0 <= k < |r[i].vlans| && r[i].vlans[k] == v;
      assert r'[i].vlans[k] == v;
    }
    forall v | v in Objects(c.vlans) ensures v in TagObjects(r') {
      var k :| 0 <= k < |c.vlans| && c.vlans[k] == v;
      assert r'[|r|].vlans[k] == v;
    }
  }

  lemma NoSharingSnoc(r: seq<ClientConfig>, c: ClientConfig)
    requires NoSharing(r) && Distinct(c.vlans) && Objects(c.vlans) !! TagObjects(r)
    ensures NoSharing(r + [c])
  {
    forall i | 0 <= i < |r| ensures Apart(r[i].vlans, c.vlans) {
      assert forall k :: 0 <= k < |r[i].vlans| ==> r[i].vlans[k] in TagObjects(r);
      assert forall k :: 0 <= k < |c.vlans| ==> c.vlans[k] in Objects(c.vlans);
    }
  }

  lemma OneMore(s: Setup, plan: Plan, types: seq<nat>, r: seq<ClientConfig>, c: ClientConfig)
    requires plan.space.base > 0
    requires Template.Usable(s.rid) && Template.Usable(s.cid) && Template.Usable(s.clntId)
    requires NoSharing(r) && Distinct(c.vlans) && Objects(c.vlans) !! TagObjects(r)
    requires ServesAll(s, plan, types, r) && Serves(s, plan, types, |r|, c)
    ensures NoSharing(r + [c]) && ServesAll(s, plan, types, r + [c])
    ensures TagObjects(r + [c]) == TagObjects(r) + Objects(c.vlans)
  {
    TagObjectsSnoc(r, c);
    NoSharingSnoc(r, c);
  }

  lemma PlaceInRange(sp: Space, i: nat)
    requires sp.Valid() && sp.Position(i).Some?
    ensures sp.InRange(sp.Position(i).value)
  {
    PositionReachable(sp, i);
  }

  /** The ids that replace the last client's, when they need replacing at all. */
  method NextIds(ids: seq<nat>, sp: Space, i: nat, ghost plan: Plan) returns (change: bool, rids: Option<seq<nat>>)
    requires sp.Valid() && plan.space == sp && |ids| == sp.width
    requires i == 0 ==> ids == sp.At(0)
    requires i > 0 ==> plan.TagsFit(i - 1) && ids == plan.TagsOf(i - 1)
    ensures plan.TagsFit(i) <==> (change ==> rids.Some?)
    ensures plan.TagsFit(i) ==> plan.TagsOf(i) == if change then rids.value else ids
  {
    rids := None;
    var excluded := Excluded(ids, sp.excludes);
    change := (|ids| > 0 && i > 0) || excluded;
    if change {
      if i == 0 {
        assert sp.InRange(0);
        rids := IncVids(ids, sp, 0);
      } else {
        PlaceInRange(sp, i - 1);
        rids := IncVids(ids, sp, sp.Position(i - 1).value);
      }
    }
  }

  /** The next client's tags: a copy of the last client's, overwritten in place with the next stack. */
  method NextVlans(vlans: seq<Vlan>, sp: Space, i: nat, ghost plan: Plan) returns (ok: bool, r: seq<Vlan>)
    requires sp.Valid() && plan.space == sp && |vlans| == sp.width
    requires i == 0 ==> Ids(vlans) == sp.At(0)
    requires i > 0 ==> plan.TagsFit(i - 1) && Ids(vlans) == plan.TagsOf(i - 1)
    ensures ok <==> plan.TagsFit(i)
    ensures ok ==> Ids(r) == plan.TagsOf(i) && EtherTypes(r) == EtherTypes(vlans)
    ensures Distinct(r) && fresh(Objects(r))
  {
    var change, rids := NextIds(Ids(vlans), sp, i, plan);
    if !change {
      ok := true;
      r := Clone(vlans);
    } else if rids.None? {
      ok, r := false, [];
    } else {
      TagsWidth(plan, i);
      ok, r := CloneWithIds(vlans, rids.value);
    }
  }

  lemma TagsWidth(plan: Plan, i: nat)
    requires plan.space.base > 0 && plan.TagsFit(i)
    ensures |plan.TagsOf(i)| == plan.space.width
  {}

  /** The first client has the start MAC itself, every other one a step more than the last. */
  method NextMac(clntmac: seq<nat>, macStep: nat, i: nat, ghost plan: Plan) returns (r: Option<seq<nat>>)
    requires plan.Valid() && plan.MacFits(0) && macStep == plan.macStep
    requires i == 0 ==> clntmac == plan.MacOf(0)
    requires i > 0 ==> plan.MacFits(i - 1) && clntmac == plan.MacOf(i - 1)
    ensures r.Some? <==> plan.MacFits(i)
    ensures r.Some? ==> r.value == plan.MacOf(i)
  {
    if i == 0 {
      return Some(clntmac);
    }
    StepMac(plan, i - 1);
    r := Increase(OCTET, clntmac, macStep);
    if r.Some? { RenderOfValue(OCTET, r.value); }
  }

  /** One round of the loop: client i's configuration, from the last client's MAC and tags. */
  method GenClient(s: Setup, clntmac: seq<nat>, vlans: seq<Vlan>, sp: Space, i: nat, ghost plan: Plan)
    returns (r: Option<ClientConfig>)
    requires Template.Usable(s.rid) && Template.Usable(s.cid) && Template.Usable(s.clntId)
    requires plan.Valid() && plan.space == sp && plan.macStep == s.macStep && |vlans| == sp.width
    requires plan.MacFits(0)
    requires i == 0 ==> clntmac == plan.MacOf(0) && Ids(vlans) == sp.At(0)
    requires i > 0 ==> plan.MacFits(i - 1) && clntmac == plan.MacOf(i - 1)
    requires i > 0 ==> plan.TagsFit(i - 1) && Ids(vlans) == plan.TagsOf(i - 1)
    ensures r.Some? <==> plan.MacFits(i) && plan.TagsFit(i)
    ensures r.Some? ==> Serves(s, plan, EtherTypes(vlans), i, r.value)
    ensures r.Some? ==> Distinct(r.value.vlans) && fresh(Objects(r.value.vlans))
  {
    var mac := NextMac(clntmac, s.macStep, i, plan);
    if mac.None? {
      return None;
    }
    var ok, next := NextVlans(vlans, sp, i, plan);
    if !ok {
      return None;
    }
    var v4, v6, relay := GenOptions(s, i);
    r := Some(ClientConfig(mac.value, next, v4, v6, relay));
  }

  /** What holds after some rounds: so many clients served, and the last MAC and tags at hand. */
  ghost predicate Generated(s: Setup, plan: Plan, types: seq<nat>, configs: seq<ClientConfig>,
                            clntmac: seq<nat>, vlans: seq<Vlan>)
    requires plan.space.base > 0
    requires Template.Usable(s.rid) && Template.Usable(s.cid) && Template.Usable(s.clntId)
    reads TagObjects(configs), vlans
  {
    && NoSharing(configs) && ServesAll(s, plan, types, configs)
    && |vlans| == plan.space.width && EtherTypes(vlans) == types
    && (configs == [] ==> clntmac == plan.MacOf(0) && Ids(vlans) == plan.space.At(0))
    && (configs != [] ==> clntmac == configs[|configs| - 1].mac && vlans == configs[|configs| - 1].vlans)
  }

  lemma GeneratedSnoc(s: Setup, plan: Plan, types: seq<nat>, configs: seq<ClientConfig>, c: ClientConfig)
    requires plan.space.base > 0
    requires Template.Usable(s.rid) && Template.Usable(s.cid) && Template.Usable(s.clntId)
    requires NoSharing(configs) && Distinct(c.vlans) && Objects(c.vlans) !! TagObjects(configs)
    requires ServesAll(s, plan, types, configs) && Serves(s, plan, types, |configs|, c)
    ensures Generated(s, plan, types, configs + [c], c.mac, c.vlans)
    ensures TagObjects(configs + [c]) == TagObjects(configs) + Objects(c.vlans)
  {
    OneMore(s, plan, types, configs, c);
    TagsWidth(plan, |configs|);
  }

  method AddClient(s: Setup, plan: Plan, ghost types: seq<nat>, configs: seq<ClientConfig>,
                   clntmac: seq<nat>, vlans: seq<Vlan>)
    returns (ok: bool, configs': seq<ClientConfig>, clntmac': seq<nat>, vlans': seq<Vlan>)
    requires Template.Usable(s.rid) && Template.Usable(s.cid) && Template.Usable(s.clntId)
    requires plan.Valid() && plan.macStep == s.macStep && plan.MacFits(0)
    requires Generated(s, plan, types, configs, clntmac, vlans)
    ensures ok <==> plan.MacFits(|configs|) && plan.TagsFit(|configs|)
    ensures ok ==> |configs'| == |configs| + 1 && Generated(s, plan, types, configs', clntmac', vlans')
    ensures ok ==> fresh(TagObjects(configs') - TagObjects(configs))
  {
    var next := GenClient(s, clntmac, vlans, plan.space, |configs|, plan);
    ok := next.Some?;
    configs', clntmac', vlans' := configs, clntmac, vlans;
    if ok {
      var c := next.value;
      GeneratedSnoc(s, plan, types, configs, c);
      configs', clntmac', vlans' := configs + [c], c.mac, c.vlans;
    }
  }

  lemma EveryoneServed(s: Setup, plan: Plan, types: seq<nat>, configs: seq<ClientConfig>)
    requires Template.Usable(s.rid) && Template.Usable(s.cid) && Template.Usable(s.clntId)
    requires plan.space.base > 0 && ServesAll(s, plan, types, configs)
    ensures ServesEveryone(|configs|, plan)
  {
    if configs != [] { assert Serves(s, plan, types, |configs| - 1, configs[|configs| - 1]); }
  }

  method GenClients(s: Setup, plan: Plan, ghost types: seq<nat>) returns (r: Option<seq<ClientConfig>>)
    requires Template.Usable(s.rid) && Template.Usable(s.cid) && Template.Usable(s.clntId)
    requires plan.Valid() && plan.macStep == s.macStep && plan.MacFits(0)
    requires Generated(s, plan, types, [], s.startMac, s.startVlans)
    ensures r.Some? <==> ServesEveryone(s.numOfClients, plan)
    ensures r.Some? ==> |r.value| == s.numOfClients && ServesAll(s, plan, types, r.value)
    ensures r.Some? ==> NoSharing(r.value) && fresh(TagObjects(r.value))
  {
    var configs: seq<ClientConfig> := [];
    var clntmac, vlans := s.startMac, s.startVlans;
    for i := 0 to s.numOfClients
      invariant |configs| == i && fresh(TagObjects(configs))
      invariant Generated(s, plan, types, configs, clntmac, vlans)
    {
      var ok;
      ok, configs, clntmac, vlans := AddClient(s, plan, types, configs, clntmac, vlans);
      if !ok {
        LaterFails(i, s.numOfClients, plan);
        return None;
      }
    }
    EveryoneServed(s, plan, types, configs);
    r := Some(configs);
  }

  /**
   All configurations or none. Nothing that existed before is modified, so the start tags keep their
   ids although every client's tags are overwritten in place.
   */
  method GenClientConfigurations(s: Setup) returns (r: Option<seq<ClientConfig>>)
    requires ValidSetup(s)
    ensures r.Some? <==> ServesEveryone(s.numOfClients, old(PlanOf(s)))
    ensures r.Some? ==> |r.value| == s.numOfClients
    ensures r.Some? ==> ServesAll(s, old(PlanOf(s)), old(EtherTypes(s.startVlans)), r.value)
    ensures r.Some? ==> NoSharing(r.value) && fresh(TagObjects(r.value))
  {
    PlanIsValid(s);
    r := GenClients(s, PlanOf(s), EtherTypes(s.startVlans));
  }
}
