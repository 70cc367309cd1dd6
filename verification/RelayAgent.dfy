/**
 The DHCPv6 relay agent (relay.go): client messages are put into Relay-forward messages, and what comes back
 in Relay-reply messages is taken out again (sections 19.1 and 19.2 of RFC 8415).
 */
module RelayAgent {
  import opened Wrappers
  import opened Bytes
  import opened Sums
  import opened ConnPair
  import opened Dhcpv6Wire

  const MAX_DHCPV6_SIZE := 1500

  type Datagram = seq<Byte>

  /** How the agent fills the relay messages it makes. */
  datatype RelaySetup = RelaySetup(linkAddr: seq<Byte>, peerAddr: seq<Byte>, options: seq<DhcpOption>)
  {
    ghost predicate Valid() {
      && |linkAddr| == ADDRESS_SIZE && |peerAddr| == ADDRESS_SIZE && ValidOptions(options)
      && forall k :: 0 <= k < |options| ==> options[k].code != OPTION_RELAY_MSG
    }
  }

  predicate HasClientId(p: Packet) { GetOne(p.options, OPTION_CLIENTID).Some? }

  const UNSPECIFIED: seq<Byte> := [0, 0, 0, 0, 0, 0, 0, 0, 0, 0, 0, 0, 0, 0, 0, 0]

  /** The agent's own idea of the peer address counts when the packet's source says nothing. */
  method UsePeerAddr(source: Option<seq<Byte>>, peerAddr: seq<Byte>) returns (r: seq<Byte>)
    ensures r == if source.Some? && source.value != UNSPECIFIED then source.value else peerAddr
  {
    r := peerAddr;
    if source.Some? && source.value != UNSPECIFIED {
      r := source.value;
    }
  }

  /** EncapsulateRelay of a client message, and the agent's own options behind the Relay Message option. */
  function Forwarded(s: RelaySetup, msg: Packet): Packet {
    Relay(RELAY_FORW, 0, s.linkAddr, s.peerAddr, [DhcpOption(OPTION_RELAY_MSG, Encode(msg))] + s.options)
  }

  /** What one packet from the client makes the agent send to the server. */
  function AccessOut(s: RelaySetup, packet: Datagram): seq<Datagram> {
    match MessageFromBytes(Cut(packet, MAX_DHCPV6_SIZE))
    case None => []
    case Some(msg) => if HasClientId(msg) then [Encode(Forwarded(s, msg))] else []
  }

  function Access(s: RelaySetup): Datagram -> seq<Datagram> { p => AccessOut(s, p) }

  /** What becomes of one packet from the server; Crash is a method call on a message that is not there. */
  datatype Verdict = Delivered(bytes: Datagram) | Dropped | Crash

  function Received(packet: Datagram): Verdict {
    match RelayMessageFromBytes(Cut(packet, MAX_DHCPV6_SIZE))
    case None => Dropped
    case Some(msg) =>
      if msg.msgType != RELAY_REPL then Dropped
      else match GetOne(msg.options, OPTION_RELAY_MSG)
        case None => Crash
        case Some(o) =>
          match Decode(o.data)
          case None => Dropped
          case Some(inner) => Delivered(Encode(inner))
  }

  function NetworkOut(packet: Datagram): seq<Datagram> {
    match Received(packet)
    case Delivered(b) => [b]
    case _ => []
  }

  function Network(): Datagram -> seq<Datagram> { NetworkOut }

  function Crashes(): Datagram -> bool { p => Received(p).Crash? }

  /** How many items are handled before the first that c holds of. */
  function Survived<T>(c: T -> bool, s: seq<T>): (n: nat)
    ensures n <= |s| && (n < |s| ==> c(s[n])) && forall k :: 0 <= k < n ==> !c(s[k])
  {
    if s == [] || c(s[0]) then 0 else 1 + Survived(c, s[1..])
  }

  // ---- setting up ----

  datatype Modifier = WithLinkAddr(addr: seq<Byte>) | WithPeerAddr(addr: seq<Byte>) | WithOptions(opts: seq<DhcpOption>)

  function Modified(s: RelaySetup, m: Modifier): RelaySetup {
    match m
    case WithLinkAddr(addr) => s.(linkAddr := addr)
    case WithPeerAddr(addr) => s.(peerAddr := addr)
    case WithOptions(opts) => s.(options := opts)
  }

  function ModifiedBy(s: RelaySetup, ms: seq<Modifier>): RelaySetup {
    if ms == [] then s else Modified(ModifiedBy(s, ms[..|ms| - 1]), ms[|ms| - 1])
  }

  /** The last modifier of its kind counts, whatever the others are. */
  lemma {:induction false} LastModifierCounts(s: RelaySetup, ms: seq<Modifier>, k: nat)
    requires k < |ms|
    ensures ms[k].WithLinkAddr? && (forall j :: k < j < |ms| ==> !ms[j].WithLinkAddr?) ==>
      ModifiedBy(s, ms).linkAddr == ms[k].addr
    ensures ms[k].WithPeerAddr? && (forall j :: k < j < |ms| ==> !ms[j].WithPeerAddr?) ==>
      ModifiedBy(s, ms).peerAddr == ms[k].addr
    ensures ms[k].WithOptions? && (forall j :: k < j < |ms| ==> !ms[j].WithOptions?) ==>
      ModifiedBy(s, ms).options == ms[k].opts
  {
    if k < |ms| - 1 {
      LastModifierCounts(s, ms[..|ms| - 1], k);
    }
  }

  method NewRelayAgent(ms: seq<Modifier>) returns (r: Agent)
    ensures fresh(r) && r.Setup() == ModifiedBy(RelaySetup([], [], []), ms)
  {
    r := new Agent();
    for i := 0 to |ms|
      invariant fresh(r) && r.Setup() == ModifiedBy(RelaySetup([], [], []), ms[..i])
    {
      assert ms[..i + 1][..i] == ms[..i];
      r.Apply(ms[i]);
    }
    assert ms[..|ms|] == ms;
  }

  /** The agent of a DHCPv6 client, as NewSched makes it: it peers with the client's link-local address. */
  method AgentFor(linkLocal: seq<Byte>, relayOptions: seq<DhcpOption>) returns (r: Agent)
    ensures fresh(r) && r.Setup() == RelaySetup(UNSPECIFIED, linkLocal, relayOptions)
  {
    var ms := [WithLinkAddr(UNSPECIFIED), WithPeerAddr(linkLocal), WithOptions(relayOptions)];
    r := NewRelayAgent(ms);
    assert ms[..2][..1] == ms[..1] && ms[..1][..0] == [];
    assert ModifiedBy(RelaySetup([], [], []), ms[..1]) == RelaySetup(UNSPECIFIED, [], []);
    assert ModifiedBy(RelaySetup([], [], []), ms[..2]) == RelaySetup(UNSPECIFIED, linkLocal, []);
  }

  // ---- the two loops ----

  function WithMore(p: Packet, os: seq<DhcpOption>): Packet
    requires p.Relay?
  {
    Relay(p.msgType, p.hopCount, p.linkAddr, p.peerAddr, p.options + os)
  }

  /** Appends options one by one. */
  method AddOptions(p: Packet, os: seq<DhcpOption>) returns (r: Packet)
    requires p.Relay?
    ensures r == WithMore(p, os)
  {
    r := p;
    for i := 0 to |os|
      invariant r == WithMore(p, os[..i])
    {
      assert os[..i + 1] == os[..i] + [os[i]];
      r := WithMore(r, [os[i]]);
    }
    assert os[..|os|] == os;
  }

  /** One round of recvNetwork. */
  method Receive(packet: Datagram) returns (out: seq<Datagram>, crashed: bool)
    ensures crashed == Crashes()(packet)
    ensures out == Network()(packet)
  {
    var msg := RelayMessageFromBytes(Cut(packet, MAX_DHCPV6_SIZE));
    if msg.None? || msg.value.msgType != RELAY_REPL {
      return [], false;
    }
    var o := GetOne(msg.value.options, OPTION_RELAY_MSG);
    if o.None? {
      return [], true;
    }
    var inner := Decode(o.value.data);
    if inner.None? {
      return [], false;
    }
    return [Encode(inner.value)], false;
  }

  class Agent {
    var linkAddr: seq<Byte>
    var peerAddr: seq<Byte>
    var options: seq<DhcpOption>

    constructor ()
      ensures Setup() == RelaySetup([], [], [])
    {
      linkAddr, peerAddr, options := [], [], [];
    }

    /** WithLinkAddr, WithPeerAddr and WithOptions */
    method Apply(m: Modifier)
      modifies this
      ensures Setup() == Modified(old(Setup()), m)
    {
      match m
      case WithLinkAddr(addr) => linkAddr := addr;
      case WithPeerAddr(addr) => peerAddr := addr;
      case WithOptions(opts) => options := opts;
    }

    function Setup(): RelaySetup
      reads this
    {
      RelaySetup(linkAddr, peerAddr, options)
    }

    /**
     recvAccess, for the packets the client sends until the connection ends. A packet pair gives every packet
     the unspecified address as its source.
     */
    method RecvAccess(packets: seq<Datagram>) returns (sent: seq<Datagram>)
      ensures sent == Gather(Access(Setup()), packets)
    {
      sent := [];
      for i := 0 to |packets|
        invariant sent == Gather(Access(Setup()), packets[..i])
      {
        GatherPrefix(Access(Setup()), packets, i);
        var parsed := MessageFromBytes(Cut(packets[i], MAX_DHCPV6_SIZE));
        if parsed.None? || !HasClientId(parsed.value) {
          continue;
        }
        var usePeerAddr := UsePeerAddr(Some(UNSPECIFIED), peerAddr);
        var relayed := DhcpOption(OPTION_RELAY_MSG, Encode(parsed.value));
        var relayfwd := Relay(RELAY_FORW, 0, linkAddr, usePeerAddr, [relayed]);
        relayfwd := AddOptions(relayfwd, options);
        sent := sent + [Encode(relayfwd)];
      }
      assert packets[..|packets|] == packets;
    }

    /** recvNetwork, up to the end of the connection or the first packet it does not survive. */
    method RecvNetwork(packets: seq<Datagram>) returns (sent: seq<Datagram>, taken: nat)
      ensures taken == Survived(Crashes(), packets) <= |packets|
      ensures sent == Gather(Network(), packets[..taken])
    {
      sent, taken := [], 0;
      while taken < |packets|
        invariant taken <= |packets|
        invariant taken + Survived(Crashes(), packets[taken..]) == Survived(Crashes(), packets)
        invariant sent == Gather(Network(), packets[..taken])
      {
        var out, crashed := Receive(packets[taken]);
        if crashed {
          return;
        }
        GatherPrefix(Network(), packets, taken);
        assert packets[taken..][1..] == packets[taken + 1..];
        sent, taken := sent + out, taken + 1;
      }
    }
  }

  // ---- a server behind the agent ----

  /** answer: the replies to a client message. echo: the relay options the server returns to the agent. */
  datatype Server = Server(answer: Packet -> seq<Packet>, echo: seq<DhcpOption> -> seq<DhcpOption>)

  function EncodeAll(ps: seq<Packet>): seq<Datagram> { if ps == [] then [] else [Encode(ps[0])] + EncodeAll(ps[1..]) }

  /** Every reply of the server, in order. */
  lemma {:induction false} EncodeAllAt(ps: seq<Packet>, k: nat)
    requires k < |ps|
    ensures |EncodeAll(ps)| == |ps| && EncodeAll(ps)[k] == Encode(ps[k])
  {
    if |ps| > 1 {
      EncodeAllAt(ps[1..], if k > 0 then k - 1 else 0);
    }
  }

  /** Without a relay: the datagrams the server returns for a datagram of the client. */
  function DirectOut(srv: Server, b: Datagram): seq<Datagram> {
    match MessageFromBytes(b)
    case None => []
    case Some(msg) => EncodeAll(srv.answer(msg))
  }

  /** A reply as the server sends it through a relay (section 19.3 of RFC 8415). */
  function Wrapped(srv: Server, fwd: Packet, reply: Packet): Packet
    requires fwd.Relay?
  {
    Relay(RELAY_REPL, fwd.hopCount, fwd.linkAddr, fwd.peerAddr,
          [DhcpOption(OPTION_RELAY_MSG, Encode(reply))] + srv.echo(fwd.options))
  }

  function WrapAll(srv: Server, fwd: Packet, replies: seq<Packet>): seq<Datagram>
    requires fwd.Relay?
  {
    if replies == [] then [] else [Encode(Wrapped(srv, fwd, replies[0]))] + WrapAll(srv, fwd, replies[1..])
  }

  function ServerOut(srv: Server, b: Datagram): seq<Datagram> {
    match RelayMessageFromBytes(b)
    case None => []
    case Some(fwd) =>
      match GetOne(fwd.options, OPTION_RELAY_MSG)
      case None => []
      case Some(o) =>
        match MessageFromBytes(o.data)
        case None => []
        case Some(msg) => WrapAll(srv, fwd, srv.answer(msg))
  }

  function Serve(srv: Server): Datagram -> seq<Datagram> { b => ServerOut(srv, b) }

  /** The replies to msg are proper messages, and small enough to pass the agent in their wrapping. */
  ghost predicate FitsThrough(s: RelaySetup, srv: Server, msg: Packet) {
    var echoed := srv.echo(Forwarded(s, msg).options);
    && ValidOptions(echoed)
    && (forall k :: 0 <= k < |echoed| ==> echoed[k].code != OPTION_RELAY_MSG)
    && forall k :: 0 <= k < |srv.answer(msg)| ==>
      var reply := srv.answer(msg)[k];
      && Valid(reply) && reply.Message?
      && RELAY_HEADER_SIZE + 4 + |Encode(reply)| + |EncodeOptions(echoed)| <= MAX_DHCPV6_SIZE
  }

  lemma ForwardedDecodes(s: RelaySetup, b: Datagram)
    requires s.Valid() && |b| <= MAX_DHCPV6_SIZE && MessageFromBytes(b).Some?
    ensures var fwd := Forwarded(s, MessageFromBytes(b).value);
      Valid(fwd) && RelayMessageFromBytes(Encode(fwd)) == Some(fwd) && fwd.options[0].data == b
  {
    EncodeOfDecode(b);
    DecodeOfEncode(Forwarded(s, MessageFromBytes(b).value));
  }

  /** What a buffer of 1500 bytes takes of a packet. */
  function Fitting(packet: Datagram): Datagram { if |packet| <= 1500 then packet else packet[..1500] }

  /**
   What the server finds in what the agent makes of a client's datagram: a Relay-forward with hop count 0,
   the agent's addresses and options, and the client's message byte for byte, as far as it fits the agent's
   buffer. Nothing is sent exactly when what fits is no message or has no client id.
   */
  lemma AgentForwards(s: RelaySetup, packet: Datagram)
    requires s.Valid()
    ensures var b := Fitting(packet);
      AccessOut(s, packet) == [] <==> MessageFromBytes(b).None? || !HasClientId(MessageFromBytes(b).value)
    ensures AccessOut(s, packet) != [] ==>
      && |AccessOut(s, packet)| == 1
      && var seen := RelayMessageFromBytes(AccessOut(s, packet)[0]);
         && seen.Some? && seen.value.msgType == 12 && seen.value.hopCount == 0
         && seen.value.linkAddr == s.linkAddr && seen.value.peerAddr == s.peerAddr
         && seen.value.options == [DhcpOption(9, Fitting(packet))] + s.options
  {
    var b := Fitting(packet);
    assert Cut(packet, MAX_DHCPV6_SIZE) == b;
    if MessageFromBytes(b).Some? { ForwardedDecodes(s, b); EncodeOfDecode(b); }
  }

  /**
   What the agent hands to the client of a packet from the server: the first message that a Relay-reply carries,
   byte for byte. Everything else but a Relay-reply without a message is dropped.
   */
  lemma DeliversExactly(packet: Datagram, r: Packet, k: nat)
    requires RelayMessageFromBytes(Fitting(packet)) == Some(r) && FirstWith(r.options, k, 9)
    ensures Received(packet) == if r.msgType == 13 then Delivered(r.options[k].data) else Dropped
  {
    assert Cut(packet, MAX_DHCPV6_SIZE) == Fitting(packet);
    FirstIsGot(r.options, k, 9);
    EncodeOfDecode(Fitting(packet));
    EncodeOfDecode(r.options[k].data);
  }

  lemma DropsExactly(packet: Datagram)
    ensures var r := RelayMessageFromBytes(Fitting(packet));
      r.None? || r.value.msgType != 13 ==> Received(packet) == Dropped
  {
    assert Cut(packet, MAX_DHCPV6_SIZE) == Fitting(packet);
  }

  lemma ReplyArrives(w: Packet, inner: Packet)
    requires Valid(w) && w.Relay? && w.msgType == RELAY_REPL && |Encode(w)| <= MAX_DHCPV6_SIZE
    requires w.options != [] && w.options[0].code == OPTION_RELAY_MSG && Decode(w.options[0].data) == Some(inner)
    ensures Received(Encode(w)) == Delivered(Encode(inner))
  {
    DecodeOfEncode(w);
    assert Cut(Encode(w), MAX_DHCPV6_SIZE) == Encode(w);
  }

  lemma WrappedArrives(srv: Server, fwd: Packet, reply: Packet)
    requires Valid(fwd) && fwd.Relay? && Valid(reply) && reply.Message? && ValidOptions(srv.echo(fwd.options))
    requires forall k :: 0 <= k < |srv.echo(fwd.options)| ==> srv.echo(fwd.options)[k].code != OPTION_RELAY_MSG
    requires RELAY_HEADER_SIZE + 4 + |Encode(reply)| + |EncodeOptions(srv.echo(fwd.options))| <= MAX_DHCPV6_SIZE
    ensures Received(Encode(Wrapped(srv, fwd, reply))) == Delivered(Encode(reply))
  {
    var w := Wrapped(srv, fwd, reply);
    DecodeOfEncode(reply);
    assert w.options[0] == DhcpOption(OPTION_RELAY_MSG, Encode(reply));
    assert w.options[1..] == srv.echo(fwd.options);
    ReplyArrives(w, reply);
  }

  lemma {:induction false} AllArrive(srv: Server, fwd: Packet, replies: seq<Packet>)
    requires Valid(fwd) && fwd.Relay? && ValidOptions(srv.echo(fwd.options))
    requires forall k :: 0 <= k < |srv.echo(fwd.options)| ==> srv.echo(fwd.options)[k].code != OPTION_RELAY_MSG
    requires forall k :: 0 <= k < |replies| ==>
      Valid(replies[k]) && replies[k].Message?
      && RELAY_HEADER_SIZE + 4 + |Encode(replies[k])| + |EncodeOptions(srv.echo(fwd.options))| <= MAX_DHCPV6_SIZE
    ensures Gather(NetworkOut, WrapAll(srv, fwd, replies)) == EncodeAll(replies)
    ensures NoneOf(Crashes(), WrapAll(srv, fwd, replies))
  {
    if replies == [] {
    } else {
      WrappedArrives(srv, fwd, replies[0]);
      AllArrive(srv, fwd, replies[1..]);
      GatherConcat(NetworkOut, [Encode(Wrapped(srv, fwd, replies[0]))], WrapAll(srv, fwd, replies[1..]));
      GatherOne(NetworkOut, Encode(Wrapped(srv, fwd, replies[0])));
      NoneOfConcat(Crashes(), [Encode(Wrapped(srv, fwd, replies[0]))], WrapAll(srv, fwd, replies[1..]));
    }
  }

  /** The way of one datagram through agent, server and agent. */
  function Through(s: RelaySetup, srv: Server): Datagram -> seq<Datagram> {
    b => Gather(NetworkOut, Gather(Serve(srv), AccessOut(s, b)))
  }

  /**
   Transparency for one datagram: a client message comes back through the relay with exactly the datagrams
   the server would return directly, if it has a client id; without one the agent drops it.
   */
  lemma RelayIsTransparent(s: RelaySetup, srv: Server, b: Datagram)
    requires s.Valid() && |b| <= MAX_DHCPV6_SIZE
    requires MessageFromBytes(b).Some? ==> FitsThrough(s, srv, MessageFromBytes(b).value)
    ensures Through(s, srv)(b) ==
      if MessageFromBytes(b).Some? && HasClientId(MessageFromBytes(b).value) then DirectOut(srv, b) else []
    ensures NoneOf(Crashes(), Gather(Serve(srv), AccessOut(s, b)))
  {
    assert Cut(b, MAX_DHCPV6_SIZE) == b;
    if MessageFromBytes(b).Some? && HasClientId(MessageFromBytes(b).value) {
      var msg := MessageFromBytes(b).value;
      var fwd := Forwarded(s, msg);
      ForwardedDecodes(s, b);
      GatherOne(Serve(srv), Encode(fwd));
      assert ServerOut(srv, Encode(fwd)) == WrapAll(srv, fwd, srv.answer(msg));
      AllArrive(srv, fwd, srv.answer(msg));
    }
  }

  /** The agent crashes on exactly the Relay-reply messages that carry no message. */
  lemma CrashExactly(packet: Datagram)
    ensures Received(packet).Crash? <==>
      (var r := RelayMessageFromBytes(Cut(packet, MAX_DHCPV6_SIZE));
       r.Some? && r.value.msgType == RELAY_REPL && forall o :: o in r.value.options ==> o.code != OPTION_RELAY_MSG)
  {
    var r := RelayMessageFromBytes(Cut(packet, MAX_DHCPV6_SIZE));
    if r.Some? { GetOneFinds(r.value.options, OPTION_RELAY_MSG); }
  }

  /** One such packet: a Relay-reply without any option. */
  lemma EmptyReplyCrashes(hopCount: Byte, link: seq<Byte>, peer: seq<Byte>)
    requires |link| == ADDRESS_SIZE == |peer|
    ensures Received(Encode(Relay(RELAY_REPL, hopCount, link, peer, []))).Crash?
  {
    var p := Relay(RELAY_REPL, hopCount, link, peer, []);
    DecodeOfEncode(p);
    assert Cut(Encode(p), MAX_DHCPV6_SIZE) == Encode(p);
  }
}
