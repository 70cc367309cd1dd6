/**
 A DHCPv6 dial over the line of client, relay agent and server as they run concurrently: whatever the
 interleaving, the dial ends as the direct one.
 */
module RelayedDial {
  import opened Wrappers
  import opened Bytes
  import opened Sums
  import opened Dhcpv6Wire
  import opened RelayAgent
  import opened RelayLine
  import opened Dialv6
  import Pipeline

  type Lane = Pipeline.Line<Datagram>

  /** The line runs from l to l'. */
  ghost predicate Comes(s: RelaySetup, srv: Server, l: Lane, hops: seq<Pipeline.Hop<Datagram>>, l': Lane) {
    Pipeline.Run(Relayed(s, srv), l, hops, l')
  }

  lemma {:induction false} RunConcat(g: Pipeline.Stages<Datagram>, l: Lane, a: seq<Pipeline.Hop<Datagram>>, m: Lane,
                                     b: seq<Pipeline.Hop<Datagram>>, l': Lane)
    requires Pipeline.Run(g, l, a, m) && Pipeline.Run(g, m, b, l')
    ensures Pipeline.Run(g, l, a + b, l')
    decreases |a|
  {
    if a == [] {
      assert a + b == b;
    } else {
      RunConcat(g, Pipeline.DoHop(g, l, a[0]), a[1..], m, b, l');
      assert (a + b)[1..] == a[1..] + b;
    }
  }

  lemma PassesFits(s: RelaySetup, srv: Server, msg: Packet)
    requires Valid(msg) && msg.Message? && Passes(s, srv, msg)
    ensures |Encode(msg)| <= MAX_DHCPV6_SIZE && MessageFromBytes(Encode(msg)) == Some(msg) && FitsThrough(s, srv, msg)
  {
    DecodeOfEncode(msg);
  }

  /** What a direct connection answers to a message with a client id is what the agent's client is to read. */
  lemma DirectIsDirectly(srv: Server, msg: Packet)
    requires Valid(msg) && msg.Message? && HasClientId(msg)
    ensures Direct(srv)(Encode(msg)) == Directly(srv)(Encode(msg))
  {
    DecodeOfEncode(msg);
  }

  lemma OneDelivered(s: RelaySetup, srv: Server, hops: seq<Pipeline.Hop<Datagram>>, l: Lane, msg: Packet)
    requires s.Valid() && Comes(s, srv, Pipeline.Start(), hops, l) && l.sent == [Encode(msg)]
    requires Valid(msg) && msg.Message? && HasClientId(msg) && Passes(s, srv, msg)
    ensures !l.crashed && l.delivered <= Directly(srv)(Encode(msg))
    ensures Pipeline.Quiet(Relayed(s, srv), l) ==> l.delivered == Directly(srv)(Encode(msg))
  {
    PassesFits(s, srv, msg);
    Transparent(s, srv, hops, l);
    GatherOne(Direct(srv), Encode(msg));
    DirectIsDirectly(srv, msg);
  }

  lemma TwoDirect(srv: Server, msg: Packet, msg': Packet)
    requires Valid(msg) && msg.Message? && HasClientId(msg) && Valid(msg') && msg'.Message? && HasClientId(msg')
    ensures Gather(Direct(srv), [Encode(msg), Encode(msg')])
      == Directly(srv)(Encode(msg)) + Directly(srv)(Encode(msg'))
  {
    assert [Encode(msg), Encode(msg')] == [Encode(msg)] + [Encode(msg')];
    GatherConcat(Direct(srv), [Encode(msg)], [Encode(msg')]);
    GatherOne(Direct(srv), Encode(msg));
    GatherOne(Direct(srv), Encode(msg'));
    DirectIsDirectly(srv, msg);
    DirectIsDirectly(srv, msg');
  }

  lemma TwoFit(s: RelaySetup, srv: Server, msg: Packet, msg': Packet)
    requires Valid(msg) && msg.Message? && Passes(s, srv, msg) && Valid(msg') && msg'.Message? && Passes(s, srv, msg')
    ensures AllFit(s, srv, [Encode(msg), Encode(msg')])
  {
    PassesFits(s, srv, msg);
    PassesFits(s, srv, msg');
  }

  lemma TwoDelivered(s: RelaySetup, srv: Server, hops: seq<Pipeline.Hop<Datagram>>, l: Lane, msg: Packet, msg': Packet)
    requires s.Valid() && Comes(s, srv, Pipeline.Start(), hops, l) && l.sent == [Encode(msg), Encode(msg')]
    requires Valid(msg) && msg.Message? && HasClientId(msg) && Passes(s, srv, msg)
    requires Valid(msg') && msg'.Message? && HasClientId(msg') && Passes(s, srv, msg')
    ensures !l.crashed && l.delivered <= Directly(srv)(Encode(msg)) + Directly(srv)(Encode(msg'))
    ensures Pipeline.Quiet(Relayed(s, srv), l) ==>
      l.delivered == Directly(srv)(Encode(msg)) + Directly(srv)(Encode(msg'))
  {
    TwoFit(s, srv, msg, msg');
    Transparent(s, srv, hops, l);
    TwoDirect(srv, msg, msg');
  }

  /** What is found in what has been read so far is found for good. */
  lemma {:induction false} FoundEarly(read: seq<Datagram>, all: seq<Datagram>, id: seq<Byte>, msgType: Byte)
    requires read <= all && FirstMatch(read, id, msgType).Some?
    ensures FirstMatch(all, id, msgType) == FirstMatch(read, id, msgType)
  {
    assert all[0] == read[0];
    var first := MessageFromBytes(read[0]);
    if !(first.Some? && first.value.transactionId == id && first.value.msgType == msgType) {
      FoundEarly(read[1..], all[1..], id, msgType);
    }
  }

  /**
   A dial over the line: the client writes the Solicit and looks for an Advertise in what it reads; when that
   makes a Request, the client writes it and looks for a Reply in what it reads from then on.
   */
  function LineDial(c: Config, id: seq<Byte>, id': seq<Byte>, first: seq<Datagram>, second: seq<Datagram>): DialEnd {
    match Checked(c, FirstMatch(first, id, ADVERTISE), ADVERTISE)
    case Leased(adv) =>
      (match Request(adv, id')
       case Some(_) => Checked(c, FirstMatch(second, id', REPLY), REPLY)
       case None => NoRequest)
    case end => end
  }

  function Checked(c: Config, answer: Option<Packet>, msgType: Byte): DialEnd {
    match answer
    case None => NoAnswer
    case Some(m) =>
      match CheckResp(c, m)
      case Crashed => Panicked
      case Lacking => BadAnswer(msgType)
      case Fine => Leased(m)
  }

  /** The line has delivered what it will of the first message, or the awaited answer is already there. */
  ghost predicate Enough(s: RelaySetup, srv: Server, l: Lane, read: seq<Datagram>, id: seq<Byte>, msgType: Byte) {
    Pipeline.Quiet(Relayed(s, srv), l) || FirstMatch(read, id, msgType).Some?
  }

  lemma FirstAnswer(s: RelaySetup, srv: Server, hops: seq<Pipeline.Hop<Datagram>>, l: Lane, msg: Packet, msgType: Byte)
    requires s.Valid() && Comes(s, srv, Pipeline.Start(), hops, l) && l.sent == [Encode(msg)]
    requires Valid(msg) && msg.Message? && HasClientId(msg) && Passes(s, srv, msg)
    requires Enough(s, srv, l, l.delivered, msg.transactionId, msgType)
    ensures FirstMatch(l.delivered, msg.transactionId, msgType) == SendAndRead(Directly(srv), msg, msgType)
  {
    OneDelivered(s, srv, hops, l, msg);
    if !Pipeline.Quiet(Relayed(s, srv), l) {
      FoundEarly(l.delivered, Directly(srv)(Encode(msg)), msg.transactionId, msgType);
    }
  }

  lemma {:induction false} FirstMatchConcat(a: seq<Datagram>, b: seq<Datagram>, id: seq<Byte>, msgType: Byte)
    ensures FirstMatch(a + b, id, msgType) ==
      if FirstMatch(a, id, msgType).Some? then FirstMatch(a, id, msgType) else FirstMatch(b, id, msgType)
  {
    if a == [] {
      assert a + b == b;
    } else {
      assert (a + b)[1..] == a[1..] + b;
      FirstMatchConcat(a[1..], b, id, msgType);
    }
  }

  /** Answers to the first message that are still under way do not count for the second. */
  lemma Leftovers(a: seq<Datagram>, b: seq<Datagram>, n: nat, id: seq<Byte>, msgType: Byte)
    requires n <= |a| && FirstMatch(a, id, msgType).None?
    ensures FirstMatch((a + b)[n..], id, msgType) == FirstMatch(b, id, msgType)
  {
    assert a == a[..n] + a[n..];
    FirstMatchConcat(a[..n], a[n..], id, msgType);
    assert (a + b)[n..] == a[n..] + b;
    FirstMatchConcat(a[n..], b, id, msgType);
  }

  lemma {:induction false} ReadsGrow(g: Pipeline.Stages<Datagram>, l: Lane, hops: seq<Pipeline.Hop<Datagram>>, l': Lane)
    requires Pipeline.Run(g, l, hops, l')
    ensures l.delivered <= l'.delivered
    decreases |hops|
  {
    if hops == [] {
    } else {
      ReadsGrow(g, Pipeline.DoHop(g, l, hops[0]), hops[1..], l');
    }
  }

  lemma SecondAnswer(s: RelaySetup, srv: Server, hops: seq<Pipeline.Hop<Datagram>>, l: Lane,
                     msg: Packet, msg': Packet, n: nat, msgType: Byte)
    requires s.Valid() && Comes(s, srv, Pipeline.Start(), hops, l) && l.sent == [Encode(msg), Encode(msg')]
    requires Valid(msg) && msg.Message? && HasClientId(msg) && Passes(s, srv, msg)
    requires Valid(msg') && msg'.Message? && HasClientId(msg') && Passes(s, srv, msg')
    requires FirstMatch(Directly(srv)(Encode(msg)), msg'.transactionId, msgType).None?
    requires n <= |l.delivered| && n <= |Directly(srv)(Encode(msg))|
    requires Enough(s, srv, l, l.delivered[n..], msg'.transactionId, msgType)
    ensures FirstMatch(l.delivered[n..], msg'.transactionId, msgType) == SendAndRead(Directly(srv), msg', msgType)
  {
    TwoDelivered(s, srv, hops, l, msg, msg');
    var a, b := Directly(srv)(Encode(msg)), Directly(srv)(Encode(msg'));
    Leftovers(a, b, n, msg'.transactionId, msgType);
    if !Pipeline.Quiet(Relayed(s, srv), l) {
      assert l.delivered[n..] <= (a + b)[n..];
      FoundEarly(l.delivered[n..], (a + b)[n..], msg'.transactionId, msgType);
    }
  }

  /** What the client reads from l1 to l2. */
  function Since(l1: Lane, l2: Lane): seq<Datagram> {
    if |l1.delivered| <= |l2.delivered| then l2.delivered[|l1.delivered|..] else []
  }

  lemma SecondHalf(s: RelaySetup, srv: Server, msg: Packet, msg': Packet, msgType: Byte,
                   hops1: seq<Pipeline.Hop<Datagram>>, l1: Lane, hops2: seq<Pipeline.Hop<Datagram>>, l2: Lane)
    requires s.Valid() && Comes(s, srv, Pipeline.Start(), hops1, l1) && l1.sent == [Encode(msg)]
    requires Valid(msg) && msg.Message? && HasClientId(msg) && Passes(s, srv, msg)
    requires Valid(msg') && msg'.Message? && HasClientId(msg') && Passes(s, srv, msg')
    requires FirstMatch(Directly(srv)(Encode(msg)), msg'.transactionId, msgType).None?
    requires Comes(s, srv, l1, hops2, l2) && l2.sent == [Encode(msg), Encode(msg')]
    requires Enough(s, srv, l2, Since(l1, l2), msg'.transactionId, msgType)
    ensures FirstMatch(Since(l1, l2), msg'.transactionId, msgType) == SendAndRead(Directly(srv), msg', msgType)
  {
    OneDelivered(s, srv, hops1, l1, msg);
    RunConcat(Relayed(s, srv), Pipeline.Start(), hops1, l1, hops2, l2);
    ReadsGrow(Relayed(s, srv), l1, hops2, l2);
    SecondAnswer(s, srv, hops1 + hops2, l2, msg, msg', |l1.delivered|, msgType);
  }

  lemma SameAnswers(net: Net, c: Config, id: seq<Byte>, id': seq<Byte>, first: seq<Datagram>, second: seq<Datagram>)
    requires FirstMatch(first, id, ADVERTISE) == SendAndRead(net, Solicit(c, id), ADVERTISE)
    requires var r := SecondMessage(net, c, id, id');
      r.Some? ==> FirstMatch(second, id', REPLY) == SendAndRead(net, r.value, REPLY)
    ensures LineDial(c, id, id', first, second) == DialResult(net, c, id, id')
  {}

  /** The line has run long enough for the second message of the dial, if there is one. */
  ghost predicate GoesOn(s: RelaySetup, srv: Server, c: Config, msg: Packet, r: Option<Packet>, l1: Lane, l2: Lane) {
    r.Some? && r.value.Message? ==>
      && Passes(s, srv, r.value)
      && FirstMatch(Directly(srv)(Encode(msg)), r.value.transactionId, REPLY).None?
      && l2.sent == [Encode(msg), Encode(r.value)]
      && Enough(s, srv, l2, Since(l1, l2), r.value.transactionId, REPLY)
  }

  /**
   A dial over the line ends as the direct dial, in every interleaving. The line runs from its start until the
   first answer is there or nothing moves any more (l1); if the dial goes on, the Request is written and the
   line runs on, until its answer is there or nothing moves (l2). Answers to the Solicit may still be under
   way then; only if one of them passed for an answer to the Request could the two dials differ.
   */
  lemma DialOverLine(s: RelaySetup, srv: Server, c: Config, id: seq<Byte>, id': seq<Byte>,
                     hops1: seq<Pipeline.Hop<Datagram>>, l1: Lane, hops2: seq<Pipeline.Hop<Datagram>>, l2: Lane)
    requires s.Valid() && c.Valid() && |id| == 3 && |id'| == 3 && Passes(s, srv, Solicit(c, id))
    requires Comes(s, srv, Pipeline.Start(), hops1, l1) && l1.sent == [Encode(Solicit(c, id))]
    requires Enough(s, srv, l1, l1.delivered, id, ADVERTISE)
    requires Comes(s, srv, l1, hops2, l2)
    requires GoesOn(s, srv, c, Solicit(c, id), SecondMessage(Directly(srv), c, id, id'), l1, l2)
    ensures LineDial(c, id, id', l1.delivered, Since(l1, l2)) == DialResult(Directly(srv), c, id, id')
  {
    SolicitCarries(c, id, OPTION_CLIENTID);
    FirstAnswer(s, srv, hops1, l1, Solicit(c, id), ADVERTISE);
    var r := SecondMessage(Directly(srv), c, id, id');
    if r.Some? {
      SecondMessageCanBeSent(Directly(srv), c, id, id');
      RequestId(Directly(srv), c, id, id');
      SecondHalf(s, srv, Solicit(c, id), r.value, REPLY, hops1, l1, hops2, l2);
    }
    SameAnswers(Directly(srv), c, id, id', l1.delivered, Since(l1, l2));
  }

  lemma RequestId(net: Net, c: Config, id: seq<Byte>, id': seq<Byte>)
    requires SecondMessage(net, c, id, id').Some?
    ensures SecondMessage(net, c, id, id').value.transactionId == id'
  {}
}
