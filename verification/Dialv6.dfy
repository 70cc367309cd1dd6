/**
 The messages of a DHCPv6 dial (buildSolicit, NewRequestFromAdv, dialv6 in sched.go, Genv6Release in lease.go)
 and the dial itself over any network, so over one with a relay agent in between as well.
 */
module Dialv6 {
  import opened Wrappers
  import opened Bytes
  import opened Sums
  import opened Dhcpv6Wire
  import opened RelayAgent

  const OPTION_IANA := 3
  const OPTION_IAADDR := 5
  const OPTION_ORO := 6
  const OPTION_ELAPSED := 8
  const OPTION_VENDOR_CLASS := 16
  const OPTION_IAPD := 25
  const OPTION_IAPREFIX := 26

  /** IAID, T1 and T2 in front of the options of an IA_NA or IA_PD (sections 21.4 and 21.21 of RFC 8415). */
  const IA_HEADER_SIZE := 12

  const REQUESTED := DhcpOption(OPTION_ORO, [0, 23, 0, 24])
  const ELAPSED := DhcpOption(OPTION_ELAPSED, [0, 0])
  const NEW_IANA := DhcpOption(OPTION_IANA, [0, 0, 0, 0, 0, 0, 0, 0, 0, 0, 0, 0])
  const NEW_IAPD := DhcpOption(OPTION_IAPD, [0, 0, 0, 1, 0, 0, 0, 0, 0, 0, 0, 0])

  /** The part of a client's configuration that goes into its messages; duid is made of its MAC address. */
  datatype Config = Config(duid: seq<Byte>, v6Options: seq<DhcpOption>, needNA: bool, needPD: bool)
  {
    ghost predicate Valid() { |duid| <= MAX_UINT16 && ValidOptions(v6Options) }

    /** The options that are put into a Solicit one by one, each in place of one with the same code. */
    function Wanted(): seq<DhcpOption> {
      v6Options + (if needNA then [NEW_IANA] else []) + (if needPD then [NEW_IAPD] else [])
    }
  }

  // ---- building messages ----

  /** Replaces the first option with the same code, or appends. */
  function Update(os: seq<DhcpOption>, o: DhcpOption): seq<DhcpOption> {
    if os == [] then [o]
    else if os[0].code == o.code then [o] + os[1..]
    else [os[0]] + Update(os[1..], o)
  }

  function UpdateAll(os: seq<DhcpOption>, more: seq<DhcpOption>): seq<DhcpOption>
    decreases |more|
  {
    if more == [] then os else UpdateAll(Update(os, more[0]), more[1..])
  }

  function Fixed(c: Config): seq<DhcpOption> { [DhcpOption(OPTION_CLIENTID, c.duid), REQUESTED, ELAPSED] }

  function Solicit(c: Config, id: seq<Byte>): Packet { Message(SOLICIT, id, UpdateAll(Fixed(c), c.Wanted())) }

  method BuildSolicit(c: Config, id: seq<Byte>) returns (m: Packet)
    ensures m == Solicit(c, id)
    ensures m.Message? && m.msgType == SOLICIT && m.transactionId == id && Encode(m)[0] == 1
  {
    var mods := c.v6Options;
    if c.needNA {
      mods := mods + [NEW_IANA];
    }
    if c.needPD {
      mods := mods + [NEW_IAPD];
    }
    assert mods == c.Wanted();
    var options := Fixed(c);
    for i := 0 to |mods|
      invariant UpdateAll(options, mods[i..]) == UpdateAll(Fixed(c), mods)
    {
      assert mods[i..][1..] == mods[i + 1..];
      options := Update(options, mods[i]);
    }
    m := Message(SOLICIT, id, options);
  }

  lemma {:induction false} UpdateFinds(os: seq<DhcpOption>, o: DhcpOption, code: nat)
    ensures GetOne(Update(os, o), code) == if code == o.code then Some(o) else GetOne(os, code)
  {
    if os == [] {
    } else {
      UpdateFinds(os[1..], o, code);
    }
  }

  /** The last option with a code. */
  function GetLast(os: seq<DhcpOption>, code: nat): Option<DhcpOption> {
    if os == [] then None
    else if os[|os| - 1].code == code then Some(os[|os| - 1])
    else GetLast(os[..|os| - 1], code)
  }

  lemma {:induction false} GetLastCons(o: DhcpOption, os: seq<DhcpOption>, code: nat)
    ensures GetLast([o] + os, code) ==
      if GetLast(os, code).Some? then GetLast(os, code) else if o.code == code then Some(o) else None
  {
    if os == [] {
      assert ([o] + os)[..0] == [];
    } else {
      assert ([o] + os)[..|os|] == [o] + os[..|os| - 1];
      GetLastCons(o, os[..|os| - 1], code);
    }
  }

  /** Of the options with a code, a Solicit carries the one that was set last. */
  lemma {:induction false} LastOneCounts(os: seq<DhcpOption>, more: seq<DhcpOption>, code: nat)
    ensures GetOne(UpdateAll(os, more), code) ==
      if GetLast(more, code).Some? then GetLast(more, code) else GetOne(os, code)
    decreases |more|
  {
    if more == [] {
    } else {
      UpdateFinds(os, more[0], code);
      LastOneCounts(Update(os, more[0]), more[1..], code);
      GetLastCons(more[0], more[1..], code);
      assert more == [more[0]] + more[1..];
    }
  }

  lemma {:induction false} UpdateValid(os: seq<DhcpOption>, o: DhcpOption)
    requires ValidOptions(os) && o.Valid()
    ensures ValidOptions(Update(os, o))
  {
    if os != [] && os[0].code != o.code {
      UpdateValid(os[1..], o);
    }
  }

  lemma {:induction false} UpdateAllValid(os: seq<DhcpOption>, more: seq<DhcpOption>)
    requires ValidOptions(os) && ValidOptions(more)
    ensures ValidOptions(UpdateAll(os, more))
    decreases |more|
  {
    if more == [] {
    } else {
      UpdateValid(os, more[0]);
      UpdateAllValid(Update(os, more[0]), more[1..]);
    }
  }

  /**
   A Solicit can be sent, always has a client id, and asks for exactly what is needed: addresses and prefixes
   with fresh IAs, the configured options otherwise, the last of each code.
   */
  lemma SolicitCarries(c: Config, id: seq<Byte>, code: nat)
    requires c.Valid() && |id| == 3
    ensures Valid(Solicit(c, id)) && HasClientId(Solicit(c, id))
    ensures GetOne(Solicit(c, id).options, code) ==
      if code == OPTION_IANA && c.needNA then Some(NEW_IANA)
      else if code == OPTION_IAPD && c.needPD then Some(NEW_IAPD)
      else if GetLast(c.v6Options, code).Some? then GetLast(c.v6Options, code)
      else GetOne(Fixed(c), code)
  {
    UpdateAllValid(Fixed(c), c.Wanted());
    LastOneCounts(Fixed(c), c.Wanted(), OPTION_CLIENTID);
    LastOneCounts(Fixed(c), c.Wanted(), code);
    var withNA := c.v6Options + (if c.needNA then [NEW_IANA] else []);
    if c.needPD { assert c.Wanted()[..|withNA|] == withNA; } else { assert c.Wanted() == withNA; }
    if c.needNA { assert withNA[..|c.v6Options|] == c.v6Options; } else { assert withNA == c.v6Options; }
  }

  /** No option is set for a code. */
  ghost predicate Unset(c: Config, code: nat) { forall o :: o in c.v6Options ==> o.code != code }

  /** What is in front of the configured options: a client id, a request for options, an elapsed time, no more. */
  lemma FixedHolds(c: Config, code: nat)
    ensures GetOne(Fixed(c), code) ==
      if code == 1 then Some(DhcpOption(1, c.duid))
      else if code == 6 then Some(REQUESTED)
      else if code == 8 then Some(ELAPSED)
      else None
  {
    var a := DhcpOption(OPTION_CLIENTID, c.duid);
    assert Fixed(c) == [a] + [REQUESTED] + [ELAPSED];
    GetOneConcat([a] + [REQUESTED], [ELAPSED], code);
    GetOneConcat([a], [REQUESTED], code);
  }

  lemma RequestedIs()
    ensures REQUESTED == DhcpOption(6, Bytes16(23) + Bytes16(24))
  {
    assert Bytes16(23) + Bytes16(24) == [0, 23, 0, 24];
  }

  /**
   What a Solicit carries under a code that nothing is configured for: the DUID of the client, a request for the
   options 23 and 24 (DNS servers and domain search list), an elapsed time of 0, the needed IAs, and nothing else.
   */
  lemma SolicitDefaults(c: Config, id: seq<Byte>, code: nat)
    requires c.Valid() && |id| == 3 && Unset(c, code)
    ensures GetOne(Solicit(c, id).options, code) ==
      if code == 1 then Some(DhcpOption(1, c.duid))
      else if code == 3 && c.needNA then Some(DhcpOption(3, [0, 0, 0, 0] + [0, 0, 0, 0] + [0, 0, 0, 0]))
      else if code == 6 then Some(DhcpOption(6, Bytes16(23) + Bytes16(24)))
      else if code == 8 then Some(DhcpOption(8, Bytes16(0)))
      else if code == 25 && c.needPD then Some(DhcpOption(25, [0, 0, 0, 1] + [0, 0, 0, 0] + [0, 0, 0, 0]))
      else None
  {
    SolicitCarries(c, id, code);
    GetLastFinds(c.v6Options, code);
    FixedHolds(c, code);
    RequestedIs();
    NewIAs();
  }

  /** The first four bytes of a Solicit: type 1, then the transaction id. */
  lemma SolicitStarts(c: Config, id: seq<Byte>)
    requires |id| == 3
    ensures Encode(Solicit(c, id))[..4] == [1] + id
  {
    MessageStarts(SOLICIT, id, Solicit(c, id).options);
  }

  lemma MessageStarts(t: Byte, id: seq<Byte>, os: seq<DhcpOption>)
    requires |id| == 3
    ensures Encode(Message(t, id, os))[..4] == [t] + id
  {}

  lemma {:induction false} GetLastFinds(os: seq<DhcpOption>, code: nat)
    ensures GetLast(os, code).Some? ==> GetLast(os, code).value in os && GetLast(os, code).value.code == code
  {
    if os == [] {
    } else {
      GetLastFinds(os[..|os| - 1], code);
    }
  }

  /** What a fresh IA asks for: its own IAID, no times, no addresses or prefixes yet. */
  lemma NewIAs()
    ensures NEW_IANA == DhcpOption(3, [0, 0, 0, 0] + [0, 0, 0, 0] + [0, 0, 0, 0])
    ensures NEW_IAPD == DhcpOption(25, [0, 0, 0, 1] + [0, 0, 0, 0] + [0, 0, 0, 0])
  {}

  function OptionalOne(os: seq<DhcpOption>, code: nat): seq<DhcpOption> {
    match GetOne(os, code)
    case Some(o) => [o]
    case None => []
  }

  /** NewRequestFromAdv; None is its error. */
  function Request(adv: Packet, id: seq<Byte>): Option<Packet> {
    if adv.msgType != ADVERTISE then None
    else match (GetOne(adv.options, OPTION_CLIENTID), GetOne(adv.options, OPTION_SERVERID))
      case (Some(cid), Some(sid)) =>
        Some(Message(REQUEST, id,
          [cid, sid, ELAPSED] + OptionalOne(adv.options, OPTION_IANA) + OptionalOne(adv.options, OPTION_IAPD)
          + [REQUESTED] + OptionalOne(adv.options, OPTION_VENDOR_CLASS)))
      case _ => None
  }

  /** The message has an option with the code. */
  ghost predicate Names(m: Packet, code: nat) { exists o :: o in m.options && o.code == code }

  method NewRequestFromAdv(adv: Packet, id: seq<Byte>) returns (r: Option<Packet>)
    ensures r == Request(adv, id)
    ensures r.Some? <==> adv.msgType == 2 && Names(adv, 1) && Names(adv, 2)
    ensures r.Some? ==> r.value.Message? && r.value.msgType == 3 && r.value.transactionId == id
  {
    GetOneFinds(adv.options, OPTION_CLIENTID);
    GetOneFinds(adv.options, OPTION_SERVERID);
    if adv.msgType != ADVERTISE {
      return None;
    }
    var options := [];
    var cid := GetOne(adv.options, OPTION_CLIENTID);
    if cid.None? {
      return None;
    }
    options := options + [cid.value];
    var sid := GetOne(adv.options, OPTION_SERVERID);
    if sid.None? {
      return None;
    }
    options := options + [sid.value];
    options := options + [ELAPSED];
    var iana := GetOne(adv.options, OPTION_IANA);
    if iana.Some? {
      options := options + [iana.value];
    }
    assert options == [cid.value, sid.value, ELAPSED] + OptionalOne(adv.options, OPTION_IANA);
    ghost var fixed := options;
    var iapd := GetOne(adv.options, OPTION_IAPD);
    if iapd.Some? {
      options := options + [iapd.value];
    }
    assert options == fixed + OptionalOne(adv.options, OPTION_IAPD);
    options := options + [REQUESTED];
    fixed := options;
    var vClass := GetOne(adv.options, OPTION_VENDOR_CLASS);
    if vClass.Some? {
      options := options + [vClass.value];
    }
    assert options == fixed + OptionalOne(adv.options, OPTION_VENDOR_CLASS);
    return Some(Message(REQUEST, id, options));
  }

  /** What a Request takes over from the Advertise. */
  predicate Echoed(code: nat) {
    code in {OPTION_CLIENTID, OPTION_SERVERID, OPTION_IANA, OPTION_IAPD, OPTION_VENDOR_CLASS}
  }

  lemma {:induction false} GetOneConcat(a: seq<DhcpOption>, b: seq<DhcpOption>, code: nat)
    ensures GetOne(a + b, code) == if GetOne(a, code).Some? then GetOne(a, code) else GetOne(b, code)
  {
    if a == [] {
      assert a + b == b;
    } else {
      assert (a + b)[1..] == a[1..] + b;
      GetOneConcat(a[1..], b, code);
    }
  }

  lemma OptionalFinds(os: seq<DhcpOption>, k: nat, code: nat)
    ensures GetOne(OptionalOne(os, k), code) == if code == k then GetOne(os, k) else None
  {
    GetOneFinds(os, k);
  }

  /** A Request names the client, the server and the offer of the Advertise, and nothing else of it. */
  lemma RequestEchoes(adv: Packet, id: seq<Byte>, code: nat)
    requires Request(adv, id).Some?
    ensures var r := Request(adv, id).value;
      GetOne(r.options, code) ==
        if Echoed(code) then GetOne(adv.options, code)
        else if code == OPTION_ELAPSED then Some(ELAPSED)
        else if code == OPTION_ORO then Some(REQUESTED)
        else None
  {
    var os := adv.options;
    GetOneFinds(os, OPTION_CLIENTID);
    GetOneFinds(os, OPTION_SERVERID);
    var cid, sid := GetOne(os, OPTION_CLIENTID).value, GetOne(os, OPTION_SERVERID).value;
    var na, pd, vc := OptionalOne(os, OPTION_IANA), OptionalOne(os, OPTION_IAPD), OptionalOne(os, OPTION_VENDOR_CLASS);
    GetOneConcat([cid, sid, ELAPSED] + na + pd + [REQUESTED], vc, code);
    GetOneConcat([cid, sid, ELAPSED] + na + pd, [REQUESTED], code);
    GetOneConcat([cid, sid, ELAPSED] + na, pd, code);
    GetOneConcat([cid, sid, ELAPSED], na, code);
    GetOneConcat([cid], [sid, ELAPSED], code);
    GetOneConcat([sid], [ELAPSED], code);
    assert [cid] + [sid, ELAPSED] == [cid, sid, ELAPSED] && [sid] + [ELAPSED] == [sid, ELAPSED];
    OptionalFinds(os, OPTION_IANA, code);
    OptionalFinds(os, OPTION_IAPD, code);
    OptionalFinds(os, OPTION_VENDOR_CLASS, code);
  }

  // ---- the dial ----

  /** What comes back for one datagram. */
  type Net = Datagram -> seq<Datagram>

  /** The first message with the awaited type that answers the transaction. */
  function FirstMatch(replies: seq<Datagram>, id: seq<Byte>, msgType: Byte): Option<Packet> {
    if replies == [] then None
    else match MessageFromBytes(replies[0])
      case Some(m) =>
        if m.transactionId == id && m.msgType == msgType then Some(m) else FirstMatch(replies[1..], id, msgType)
      case None => FirstMatch(replies[1..], id, msgType)
  }

  /** SendAndRead; None stands for giving up after the last retry. */
  function SendAndRead(net: Net, msg: Packet, msgType: Byte): Option<Packet>
    requires msg.Message?
  {
    FirstMatch(net(Encode(msg)), msg.transactionId, msgType)
  }

  /** The IA holds an option of that kind. */
  predicate Holds(ia: DhcpOption, code: nat) {
    && |ia.data| >= IA_HEADER_SIZE
    && match DecodeOptions(ia.data[IA_HEADER_SIZE..])
       case Some(os) => GetOne(os, code).Some?
       case None => false
  }

  datatype Check = Fine | Lacking | Crashed

  /** checkResp. It looks into the first IA without asking whether there is one. */
  function CheckResp(c: Config, m: Packet): Check {
    if c.needNA && GetOne(m.options, OPTION_IANA).None? then Crashed
    else if c.needNA && !Holds(GetOne(m.options, OPTION_IANA).value, OPTION_IAADDR) then Lacking
    else if c.needPD && GetOne(m.options, OPTION_IAPD).None? then Crashed
    else if c.needPD && !Holds(GetOne(m.options, OPTION_IAPD).value, OPTION_IAPREFIX) then Lacking
    else Fine
  }

  datatype DialEnd = NoAnswer | BadAnswer(msgType: Byte) | NoRequest | Panicked | Leased(reply: Packet)

  /** dialv6 up to the lease; its two branches, for a direct and a relayed dial, are the same. */
  method Dial(net: Net, c: Config, id: seq<Byte>, id': seq<Byte>) returns (r: DialEnd)
    ensures r == DialResult(net, c, id, id')
  {
    var solicitMsg := BuildSolicit(c, id);
    var adv := SendAndRead(net, solicitMsg, ADVERTISE);
    if adv.None? {
      return NoAnswer;
    }
    var check := CheckResp(c, adv.value);
    if check.Crashed? {
      return Panicked;
    } else if check.Lacking? {
      return BadAnswer(ADVERTISE);
    }
    var request := NewRequestFromAdv(adv.value, id');
    if request.None? {
      return NoRequest;
    }
    var reply := SendAndRead(net, request.value, REPLY);
    if reply.None? {
      return NoAnswer;
    }
    check := CheckResp(c, reply.value);
    if check.Crashed? {
      return Panicked;
    } else if check.Lacking? {
      return BadAnswer(REPLY);
    }
    return Leased(reply.value);
  }

  /** The dial as two exchanges, each of which may end it. */
  function DialResult(net: Net, c: Config, id: seq<Byte>, id': seq<Byte>): DialEnd {
    match Exchange(net, c, Solicit(c, id), ADVERTISE)
    case Leased(adv) =>
      (match Request(adv, id')
       case Some(request) => Exchange(net, c, request, REPLY)
       case None => NoRequest)
    case end => end
  }

  function Exchange(net: Net, c: Config, msg: Packet, msgType: Byte): DialEnd
    requires msg.Message?
  {
    match SendAndRead(net, msg, msgType)
    case None => NoAnswer
    case Some(answer) =>
      match CheckResp(c, answer)
      case Crashed => Panicked
      case Lacking => BadAnswer(msgType)
      case Fine => Leased(answer)
  }

  lemma {:induction false} FirstMatchMatches(replies: seq<Datagram>, id: seq<Byte>, msgType: Byte)
    requires FirstMatch(replies, id, msgType).Some?
    ensures var m := FirstMatch(replies, id, msgType).value;
      m.Message? && m.transactionId == id && m.msgType == msgType && Valid(m)
      && exists k :: 0 <= k < |replies| && MessageFromBytes(replies[k]) == Some(m)
  {
    var first := MessageFromBytes(replies[0]);
    if first.Some? && first.value.transactionId == id && first.value.msgType == msgType {
      EncodeOfDecode(replies[0]);
    } else {
      FirstMatchMatches(replies[1..], id, msgType);
      var k :| 0 <= k < |replies[1..]| && MessageFromBytes(replies[1..][k]) == FirstMatch(replies, id, msgType);
      assert replies[k + 1] == replies[1..][k];
    }
  }

  /** A lease holds what is needed. */
  lemma LeaseHolds(net: Net, c: Config, id: seq<Byte>, id': seq<Byte>)
    requires DialResult(net, c, id, id').Leased?
    ensures var reply := DialResult(net, c, id, id').reply;
      && reply.Message? && reply.msgType == REPLY && reply.transactionId == id'
      && (c.needNA ==> exists o :: o in reply.options && o.code == OPTION_IANA && Holds(o, OPTION_IAADDR))
      && (c.needPD ==> exists o :: o in reply.options && o.code == OPTION_IAPD && Holds(o, OPTION_IAPREFIX))
  {
    var reply := DialResult(net, c, id, id').reply;
    var adv := Exchange(net, c, Solicit(c, id), ADVERTISE).reply;
    FirstMatchMatches(net(Encode(Request(adv, id').value)), id', REPLY);
    GetOneFinds(reply.options, OPTION_IANA);
    GetOneFinds(reply.options, OPTION_IAPD);
  }

  /** The first IA of that kind in the message holds an option of the other kind. */
  ghost predicate FirstHolds(m: Packet, ia: nat, code: nat) {
    exists k: nat :: FirstWith(m.options, k, ia) && Holds(m.options[k], code)
  }

  lemma FirstHoldsExactly(m: Packet, ia: nat, code: nat)
    ensures FirstHolds(m, ia, code) <==> GetOne(m.options, ia).Some? && Holds(GetOne(m.options, ia).value, code)
  {
    GotIsFirst(m.options, ia);
    forall k: nat | FirstWith(m.options, k, ia) ensures GetOne(m.options, ia) == Some(m.options[k]) {
      FirstIsGot(m.options, k, ia);
    }
  }

  /** An answer passes exactly if it holds an address and a prefix where these are needed. */
  lemma PassesExactly(c: Config, m: Packet)
    ensures CheckResp(c, m).Fine? <==>
      (c.needNA ==> FirstHolds(m, 3, 5)) && (c.needPD ==> FirstHolds(m, 25, 26))
  {
    FirstHoldsExactly(m, OPTION_IANA, OPTION_IAADDR);
    FirstHoldsExactly(m, OPTION_IAPD, OPTION_IAPREFIX);
  }

  /** An IA on the wire that holds an option of a kind: twelve bytes, then options, one of them of that kind. */
  ghost predicate Carries(ia: DhcpOption, code: nat) {
    exists header: seq<Byte>, os: seq<DhcpOption> ::
      && |header| == 12 && ValidOptions(os) && ia.data == header + EncodeOptions(os)
      && exists o :: o in os && o.code == code
  }

  lemma CarriedIsHeld(ia: DhcpOption, header: seq<Byte>, os: seq<DhcpOption>, code: nat)
    requires |header| == 12 && ValidOptions(os) && ia.data == header + EncodeOptions(os)
    requires exists o :: o in os && o.code == code
    ensures Holds(ia, code)
  {
    assert (header + EncodeOptions(os))[12..] == EncodeOptions(os);
    DecodeOfEncodeOptions(os);
    GetOneFinds(os, code);
  }

  lemma HoldsExactly(ia: DhcpOption, code: nat)
    ensures Holds(ia, code) <==> Carries(ia, code)
  {
    if Holds(ia, code) {
      var header, os := ia.data[..12], DecodeOptions(ia.data[12..]).value;
      EncodeOfDecodeOptions(ia.data[12..]);
      GetOneFinds(os, code);
      assert ia.data == header + EncodeOptions(os);
    }
    if Carries(ia, code) {
      var header: seq<Byte>, os: seq<DhcpOption> :| |header| == 12 && ValidOptions(os)
        && ia.data == header + EncodeOptions(os) && exists o :: o in os && o.code == code;
      CarriedIsHeld(ia, header, os, code);
    }
  }

  /** The reply answers the transaction, and is of the awaited type. */
  predicate Matches(b: Datagram, id: seq<Byte>, msgType: Byte) {
    && MessageFromBytes(b).Some?
    && MessageFromBytes(b).value.transactionId == id && MessageFromBytes(b).value.msgType == msgType
  }

  /** There is no match exactly if no reply matches. */
  lemma {:induction false} NoMatchExactly(replies: seq<Datagram>, id: seq<Byte>, msgType: Byte)
    ensures FirstMatch(replies, id, msgType).None? <==> forall b :: b in replies ==> !Matches(b, id, msgType)
  {
    if replies == [] {
    } else if Matches(replies[0], id, msgType) {
      assert replies[0] in replies;
    } else {
      assert FirstMatch(replies, id, msgType) == FirstMatch(replies[1..], id, msgType);
      NoMatchExactly(replies[1..], id, msgType);
      assert forall b :: b in replies <==> b == replies[0] || b in replies[1..];
    }
  }

  /** The match is the first of all. */
  lemma {:induction false} FirstMatchExactly(replies: seq<Datagram>, id: seq<Byte>, msgType: Byte, k: nat)
    requires k < |replies| && Matches(replies[k], id, msgType)
    requires forall j :: 0 <= j < k ==> !Matches(replies[j], id, msgType)
    ensures FirstMatch(replies, id, msgType) == MessageFromBytes(replies[k])
  {
    if k > 0 {
      assert !Matches(replies[0], id, msgType);
      assert replies[k] == replies[1..][k - 1];
      FirstMatchExactly(replies[1..], id, msgType, k - 1);
    }
  }

  /** How a dial ends, told from the answers to its two messages. */
  lemma EndsExactly(net: Net, c: Config, id: seq<Byte>, id': seq<Byte>)
    ensures var end, adv := DialResult(net, c, id, id'), SendAndRead(net, Solicit(c, id), 2);
      if adv.None? then end == NoAnswer
      else if CheckResp(c, adv.value).Lacking? then end == BadAnswer(2)
      else if CheckResp(c, adv.value).Crashed? then end == Panicked
      else if Request(adv.value, id').None? then end == NoRequest
      else
        var reply := SendAndRead(net, Request(adv.value, id').value, 7);
        if reply.None? then end == NoAnswer
        else if CheckResp(c, reply.value).Lacking? then end == BadAnswer(7)
        else if CheckResp(c, reply.value).Crashed? then end == Panicked
        else end == Leased(reply.value)
  {}

  /** checkResp is given a message without an IA that it looks into. */
  ghost predicate LacksIA(c: Config, m: Packet) {
    || (c.needNA && forall o :: o in m.options ==> o.code != OPTION_IANA)
    || (c.needPD && (forall o :: o in m.options ==> o.code != OPTION_IAPD)
        && (c.needNA ==> FirstHolds(m, OPTION_IANA, OPTION_IAADDR)))
  }

  lemma ChecksExactly(c: Config, m: Packet)
    ensures CheckResp(c, m).Crashed? <==> LacksIA(c, m)
  {
    GetOneFinds(m.options, OPTION_IANA);
    GetOneFinds(m.options, OPTION_IAPD);
    FirstHoldsExactly(m, OPTION_IANA, OPTION_IAADDR);
  }

  /**
   A dial crashes exactly when the first matching Advertise lacks an IA that is looked into, or when the dial
   gets as far as a Reply and the first matching one does.
   */
  lemma PanicsExactly(net: Net, c: Config, id: seq<Byte>, id': seq<Byte>)
    ensures DialResult(net, c, id, id').Panicked? <==>
      var adv := SendAndRead(net, Solicit(c, id), ADVERTISE);
      adv.Some? &&
      (LacksIA(c, adv.value)
       || (CheckResp(c, adv.value).Fine? && Request(adv.value, id').Some?
           && var reply := SendAndRead(net, Request(adv.value, id').value, REPLY);
              reply.Some? && LacksIA(c, reply.value)))
  {
    var adv := SendAndRead(net, Solicit(c, id), ADVERTISE);
    if adv.Some? {
      ChecksExactly(c, adv.value);
      if Request(adv.value, id').Some? {
        var reply := SendAndRead(net, Request(adv.value, id').value, REPLY);
        if reply.Some? { ChecksExactly(c, reply.value); }
      }
    }
  }

  /** A server that advertises nothing at all crashes every dial that needs an address or a prefix, and no other. */
  lemma EmptyAdvertiseCrashes(c: Config, id: seq<Byte>, id': seq<Byte>)
    requires |id| == 3
    ensures DialResult(_ => [Encode(Message(ADVERTISE, id, []))], c, id, id').Panicked? <==> c.needNA || c.needPD
  {
    var adv := Message(ADVERTISE, id, []);
    var net: Net := _ => [Encode(adv)];
    DecodeOfEncode(adv);
    assert SendAndRead(net, Solicit(c, id), ADVERTISE) == Some(adv);
    PanicsExactly(net, c, id, id');
  }

  // ---- through a relay ----

  function Directly(srv: Server): Net { b => DirectOut(srv, b) }

  /** The message and the answers to it are small enough for the agent. */
  ghost predicate Passes(s: RelaySetup, srv: Server, msg: Packet) {
    |Encode(msg)| <= MAX_DHCPV6_SIZE && FitsThrough(s, srv, msg)
  }

  lemma SameReplies(s: RelaySetup, srv: Server, msg: Packet)
    requires s.Valid() && Valid(msg) && msg.Message? && HasClientId(msg) && Passes(s, srv, msg)
    ensures Through(s, srv)(Encode(msg)) == Directly(srv)(Encode(msg))
  {
    DecodeOfEncode(msg);
    RelayIsTransparent(s, srv, Encode(msg));
  }

  lemma RequestCanBeSent(adv: Packet, id: seq<Byte>)
    requires Valid(adv) && |id| == 3 && Request(adv, id).Some?
    ensures Valid(Request(adv, id).value) && HasClientId(Request(adv, id).value)
  {
    RequestEchoes(adv, id, OPTION_CLIENTID);
    var os := adv.options;
    GetOneFinds(os, OPTION_CLIENTID);
    GetOneFinds(os, OPTION_SERVERID);
    GetOneFinds(os, OPTION_IANA);
    GetOneFinds(os, OPTION_IAPD);
    GetOneFinds(os, OPTION_VENDOR_CLASS);
  }

  /** The Request of a dial that gets that far. */
  function SecondMessage(net: Net, c: Config, id: seq<Byte>, id': seq<Byte>): (r: Option<Packet>)
    ensures r.Some? ==> r.value.Message?
  {
    match Exchange(net, c, Solicit(c, id), ADVERTISE)
    case Leased(adv) => Request(adv, id')
    case _ => None
  }

  lemma SecondMessageCanBeSent(net: Net, c: Config, id: seq<Byte>, id': seq<Byte>)
    requires |id'| == 3 && SecondMessage(net, c, id, id').Some?
    ensures var m := SecondMessage(net, c, id, id').value; Valid(m) && HasClientId(m)
  {
    FirstMatchMatches(net(Encode(Solicit(c, id))), id, ADVERTISE);
    RequestCanBeSent(Exchange(net, c, Solicit(c, id), ADVERTISE).reply, id');
  }

  /** Two networks that answer the messages of a dial alike let it end alike. */
  lemma SameDial(net: Net, net': Net, c: Config, id: seq<Byte>, id': seq<Byte>)
    requires net(Encode(Solicit(c, id))) == net'(Encode(Solicit(c, id)))
    requires var m := SecondMessage(net, c, id, id'); m.Some? ==> net(Encode(m.value)) == net'(Encode(m.value))
    ensures DialResult(net, c, id, id') == DialResult(net', c, id, id')
  {}

  /**
   A dial through a relay ends exactly as the direct dial does, with the same lease, if the messages of the
   direct dial and the answers to them are small enough.
   */
  lemma DialThroughRelay(s: RelaySetup, srv: Server, c: Config, id: seq<Byte>, id': seq<Byte>)
    requires s.Valid() && c.Valid() && |id| == 3 && |id'| == 3
    requires Passes(s, srv, Solicit(c, id))
    requires var m := SecondMessage(Directly(srv), c, id, id'); m.Some? ==> Passes(s, srv, m.value)
    ensures DialResult(Through(s, srv), c, id, id') == DialResult(Directly(srv), c, id, id')
  {
    SolicitCarries(c, id, OPTION_CLIENTID);
    SameReplies(s, srv, Solicit(c, id));
    var m := SecondMessage(Directly(srv), c, id, id');
    if m.Some? {
      SecondMessageCanBeSent(Directly(srv), c, id, id');
      SameReplies(s, srv, m.value);
    }
    SameDial(Directly(srv), Through(s, srv), c, id, id');
  }

  // ---- giving the lease back ----

  function GetAll(os: seq<DhcpOption>, code: nat): seq<DhcpOption> {
    if os == [] then [] else (if os[0].code == code then [os[0]] else []) + GetAll(os[1..], code)
  }

  /** Genv6Release; None is a crash on a reply without the option. */
  function Release(reply: Packet, msgType: Byte, id: seq<Byte>): Option<Packet> {
    match (GetOne(reply.options, OPTION_CLIENTID), GetOne(reply.options, OPTION_SERVERID))
    case (Some(cid), Some(sid)) =>
      Some(Message(msgType, id,
        [cid, sid, ELAPSED] + GetAll(reply.options, OPTION_IANA) + GetAll(reply.options, OPTION_IAPD)))
    case _ => None
  }

  /** All options with the code and no others. */
  lemma {:induction false} GetAllFinds(os: seq<DhcpOption>, code: nat)
    ensures forall o :: o in GetAll(os, code) <==> o in os && o.code == code
  {
    if os == [] {
    } else {
      GetAllFinds(os[1..], code);
      assert forall o :: o in os <==> o == os[0] || o in os[1..];
    }
  }

  lemma {:induction false} GetAllConcat(a: seq<DhcpOption>, b: seq<DhcpOption>, code: nat)
    ensures GetAll(a + b, code) == GetAll(a, code) + GetAll(b, code)
  {
    if a == [] {
      assert a + b == b;
    } else {
      assert (a + b)[1..] == a[1..] + b;
      GetAllConcat(a[1..], b, code);
      Assoc(if a[0].code == code then [a[0]] else [], GetAll(a[1..], code), GetAll(b, code));
    }
  }

  lemma {:induction false} GetAllAgain(os: seq<DhcpOption>, k: nat, code: nat)
    ensures GetAll(GetAll(os, k), code) == if code == k then GetAll(os, k) else []
  {
    if os == [] {
    } else {
      GetAllAgain(os[1..], k, code);
      GetAllConcat(if os[0].code == k then [os[0]] else [], GetAll(os[1..], k), code);
    }
  }

  lemma GetAllOfThree(a: DhcpOption, b: DhcpOption, c: DhcpOption, code: nat)
    ensures GetAll([a, b, c], code) == GetAll([a], code) + GetAll([b], code) + GetAll([c], code)
  {
    GetAllConcat([a], [b, c], code);
    GetAllConcat([b], [c], code);
    assert [a] + [b, c] == [a, b, c] && [b] + [c] == [b, c];
  }

  /** A Reply that names no server, but carries the needed IAs, is accepted as a lease and makes no Release. */
  lemma BareLeaseHasNoRelease(c: Config, id: seq<Byte>, id': seq<Byte>, adv: Packet, reply: Packet, msgType: Byte)
    requires CheckResp(c, adv).Fine? && CheckResp(c, reply).Fine? && |id| == 3 && |id'| == 3 && id != id'
    requires Valid(adv) && adv.Message? && adv.msgType == ADVERTISE && adv.transactionId == id
    requires Valid(reply) && reply.Message? && reply.msgType == REPLY && reply.transactionId == id'
    requires Request(adv, id').Some? && forall o :: o in reply.options ==> o.code != OPTION_SERVERID
    ensures DialResult(_ => [Encode(adv), Encode(reply)], c, id, id') == Leased(reply)
    ensures Release(reply, msgType, id).None?
  {
    DecodeOfEncode(adv);
    DecodeOfEncode(reply);
    var answers := [Encode(adv), Encode(reply)];
    assert answers[1..] == [Encode(reply)];
    assert FirstMatch(answers, id, ADVERTISE) == Some(adv);
    assert FirstMatch(answers, id', REPLY) == Some(reply) by {
      assert FirstMatch(answers[1..], id', REPLY) == Some(reply);
    }
    GetOneFinds(reply.options, OPTION_SERVERID);
  }

  /** A Release can be made exactly from a Reply that names client and server. */
  lemma ReleaseNeedsIds(reply: Packet, msgType: Byte, id: seq<Byte>)
    ensures Release(reply, msgType, id).Some? <==>
      && (exists o :: o in reply.options && o.code == OPTION_CLIENTID)
      && (exists o :: o in reply.options && o.code == OPTION_SERVERID)
  {
    GetOneFinds(reply.options, OPTION_CLIENTID);
    GetOneFinds(reply.options, OPTION_SERVERID);
  }

  lemma ReleaseStarts(reply: Packet, msgType: Byte, id: seq<Byte>)
    requires Release(reply, msgType, id).Some? && |id| == 3
    ensures Release(reply, msgType, id).value.Message?
    ensures Encode(Release(reply, msgType, id).value)[..4] == [msgType] + id
  {
    MessageStarts(msgType, id, Release(reply, msgType, id).value.options);
  }

  lemma RequestStarts(adv: Packet, id: seq<Byte>)
    requires Request(adv, id).Some? && |id| == 3
    ensures Encode(Request(adv, id).value)[..4] == [3] + id
  {
    MessageStarts(REQUEST, id, Request(adv, id).value.options);
  }

  /** The part of a Release in front of the IAs. */
  lemma HeadOfRelease(cid: DhcpOption, sid: DhcpOption, code: nat)
    requires cid.code == OPTION_CLIENTID && sid.code == OPTION_SERVERID
    ensures GetAll([cid, sid, ELAPSED], code) ==
      if code == OPTION_CLIENTID then [cid]
      else if code == OPTION_SERVERID then [sid]
      else if code == OPTION_ELAPSED then [ELAPSED]
      else []
  {
    GetAllOfThree(cid, sid, ELAPSED, code);
    assert forall o: DhcpOption :: [o][1..] == [];
  }

  lemma GetAllOfParts(head: seq<DhcpOption>, os: seq<DhcpOption>, code: nat)
    ensures GetAll(head + GetAll(os, OPTION_IANA) + GetAll(os, OPTION_IAPD), code) ==
      GetAll(head, code) + if code == OPTION_IANA || code == OPTION_IAPD then GetAll(os, code) else []
  {
    ThreeParts(head, GetAll(os, OPTION_IANA), GetAll(os, OPTION_IAPD), code);
    GetAllAgain(os, OPTION_IANA, code);
    GetAllAgain(os, OPTION_IAPD, code);
  }

  lemma ThreeParts(a: seq<DhcpOption>, b: seq<DhcpOption>, c: seq<DhcpOption>, code: nat)
    ensures GetAll(a + b + c, code) == GetAll(a, code) + GetAll(b, code) + GetAll(c, code)
  {
    GetAllConcat(a + b, c, code);
    GetAllConcat(a, b, code);
  }

  /** A Release names the server and gives back every IA of the lease, in order, and no other option of it. */
  lemma ReleaseGivesBack(reply: Packet, msgType: Byte, id: seq<Byte>, code: nat)
    requires Release(reply, msgType, id).Some?
    ensures var r := Release(reply, msgType, id).value;
      GetAll(r.options, code) ==
        if code == OPTION_IANA || code == OPTION_IAPD then GetAll(reply.options, code)
        else if code == OPTION_CLIENTID || code == OPTION_SERVERID then OptionalOne(reply.options, code)
        else if code == OPTION_ELAPSED then [ELAPSED]
        else []
  {
    var os := reply.options;
    var cid, sid := GetOne(os, OPTION_CLIENTID).value, GetOne(os, OPTION_SERVERID).value;
    GetOneFinds(os, OPTION_CLIENTID);
    GetOneFinds(os, OPTION_SERVERID);
    HeadOfRelease(cid, sid, code);
    GetAllOfParts([cid, sid, ELAPSED], os, code);
  }
}
