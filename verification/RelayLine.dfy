/**
 A DHCPv6 client behind its relay agent: client, the two loops of the agent and the server run concurrently,
 over the packet pair on one side and the network on the other. For every interleaving the client reads what
 it would read without the agent.
 */
module RelayLine {
  import opened Bytes
  import opened Sums
  import opened Wrappers
  import opened ConnPair
  import opened Dhcpv6Wire
  import opened RelayAgent
  import Pipeline

  /** A packet as the client reads it into a buffer of the agent's size. */
  function Buffered(): Datagram -> seq<Datagram> { b => [Cut(b, MAX_DHCPV6_SIZE)] }

  function Relayed(s: RelaySetup, srv: Server): Pipeline.Stages<Datagram> {
    Pipeline.Stages(Access(s), Serve(srv), Network(), Buffered(), Crashes(), MAX_DEPTH)
  }

  /** What the server returns directly for one datagram, if it is a message the agent takes. */
  function Direct(srv: Server): Datagram -> seq<Datagram> {
    b => if Taken(b) then DirectOut(srv, b) else []
  }

  predicate Taken(b: Datagram) { MessageFromBytes(b).Some? && HasClientId(MessageFromBytes(b).value) }

  /** Every client message is small enough, and so is every reply in its wrapping. */
  ghost predicate AllFit(s: RelaySetup, srv: Server, sent: seq<Datagram>) {
    forall b :: b in sent ==>
      |b| <= MAX_DHCPV6_SIZE
      && (MessageFromBytes(b).Some? ==> FitsThrough(s, srv, MessageFromBytes(b).value))
  }

  lemma {:induction false} ReadWhole(s: seq<Datagram>)
    requires forall b :: b in s ==> |b| <= MAX_DHCPV6_SIZE
    ensures Gather(Buffered(), s) == s
  {
    if s == [] {
    } else {
      ReadWhole(s[1..]);
      assert Cut(s[0], MAX_DHCPV6_SIZE) == s[0];
      assert [s[0]] + s[1..] == s;
    }
  }

  lemma {:induction false} RepliesFit(replies: seq<Packet>)
    requires forall k :: 0 <= k < |replies| ==> |Encode(replies[k])| <= MAX_DHCPV6_SIZE
    ensures forall b :: b in EncodeAll(replies) ==> |b| <= MAX_DHCPV6_SIZE
  {
    if replies == [] {
    } else {
      RepliesFit(replies[1..]);
    }
  }

  lemma DirectFits(s: RelaySetup, srv: Server, b: Datagram)
    requires MessageFromBytes(b).Some? ==> FitsThrough(s, srv, MessageFromBytes(b).value)
    ensures forall p :: p in Direct(srv)(b) ==> |p| <= MAX_DHCPV6_SIZE
  {
    if Taken(b) {
      RepliesFit(srv.answer(MessageFromBytes(b).value));
    }
  }

  lemma OutcomeOfOne<T>(g: Pipeline.Stages<T>, x: T, answers: seq<T>, out: seq<T>)
    requires Gather(g.answer, g.forward(x)) == answers && Gather(g.back, answers) == out && Gather(g.read, out) == out
    ensures Pipeline.Answers(g, [x]) == answers && Pipeline.Outcome(g, [x]) == out
  {
    GatherOne(g.forward, x);
  }

  /** One datagram on its way there and back. */
  lemma OneOutcome(s: RelaySetup, srv: Server, b: Datagram)
    requires s.Valid() && |b| <= MAX_DHCPV6_SIZE
    requires MessageFromBytes(b).Some? ==> FitsThrough(s, srv, MessageFromBytes(b).value)
    ensures Pipeline.Outcome(Relayed(s, srv), [b]) == Direct(srv)(b)
    ensures NoneOf(Crashes(), Pipeline.Answers(Relayed(s, srv), [b]))
  {
    RelayIsTransparent(s, srv, b);
    DirectFits(s, srv, b);
    ReadWhole(Direct(srv)(b));
    OutcomeOfOne(Relayed(s, srv), b, Gather(Serve(srv), AccessOut(s, b)), Direct(srv)(b));
  }

  lemma {:induction false} AllOutcomes(s: RelaySetup, srv: Server, sent: seq<Datagram>)
    requires s.Valid() && AllFit(s, srv, sent)
    ensures Pipeline.Outcome(Relayed(s, srv), sent) == Gather(Direct(srv), sent)
    ensures NoneOf(Crashes(), Pipeline.Answers(Relayed(s, srv), sent))
  {
    if sent == [] {
    } else {
      assert sent == [sent[0]] + sent[1..];
      assert sent[0] in sent;
      OneOutcome(s, srv, sent[0]);
      AllOutcomes(s, srv, sent[1..]);
      Pipeline.OutcomeConcat(Relayed(s, srv), [sent[0]], sent[1..]);
      NoneOfConcat(Crashes(), Pipeline.Answers(Relayed(s, srv), [sent[0]]),
                   Pipeline.Answers(Relayed(s, srv), sent[1..]));
    }
  }

  /**
   Relay transparency over every interleaving: if all messages fit, the agent never crashes, the client has
   always read a prefix of what a direct connection delivers, and all of it once the line is quiet.
   */
  lemma Transparent(s: RelaySetup, srv: Server, hops: seq<Pipeline.Hop<Datagram>>, l: Pipeline.Line<Datagram>)
    requires s.Valid() && AllFit(s, srv, l.sent) && Pipeline.Run(Relayed(s, srv), Pipeline.Start(), hops, l)
    ensures !l.crashed && l.delivered <= Gather(Direct(srv), l.sent)
    ensures |l.access| <= MAX_DEPTH && |l.home| <= MAX_DEPTH
    ensures Pipeline.Quiet(Relayed(s, srv), l) ==> l.delivered == Gather(Direct(srv), l.sent)
  {
    var g := Relayed(s, srv);
    AllOutcomes(s, srv, l.sent);
    Pipeline.RunLaw(g, hops, l);
    if Pipeline.Quiet(g, l) { Pipeline.RunEnd(g, hops, l); }
  }
}
