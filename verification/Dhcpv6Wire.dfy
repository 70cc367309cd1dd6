/**
 DHCPv6 messages on the wire: the client/server format and the relay format (sections 8 and 9 of RFC 8415)
 with options in type-length-value form (section 21.1). Option bodies other than that of the Relay Message
 option (section 21.10) are bytes.
 */
module Dhcpv6Wire {
  import opened Wrappers
  import opened Bytes

  const SOLICIT: Byte := 1
  const ADVERTISE: Byte := 2
  const REQUEST: Byte := 3
  const REPLY: Byte := 7
  const RELAY_FORW: Byte := 12
  const RELAY_REPL: Byte := 13

  const OPTION_CLIENTID := 1
  const OPTION_SERVERID := 2
  const OPTION_RELAY_MSG := 9

  const ADDRESS_SIZE := 16
  const HEADER_SIZE := 4
  const RELAY_HEADER_SIZE := 34

  datatype DhcpOption = DhcpOption(code: nat, data: seq<Byte>)
  {
    predicate Valid() { code <= MAX_UINT16 && |data| <= MAX_UINT16 }
  }

  datatype Packet =
    | Message(msgType: Byte, transactionId: seq<Byte>, options: seq<DhcpOption>)
    | Relay(msgType: Byte, hopCount: Byte, linkAddr: seq<Byte>, peerAddr: seq<Byte>, options: seq<DhcpOption>)

  predicate IsRelayType(t: Byte) { t == RELAY_FORW || t == RELAY_REPL }

  // ---- options ----

  function EncodeOption(o: DhcpOption): seq<Byte> { Bytes16(o.code) + Bytes16(|o.data|) + o.data }

  function EncodeOptions(os: seq<DhcpOption>): seq<Byte> {
    if os == [] then [] else EncodeOption(os[0]) + EncodeOptions(os[1..])
  }

  /** Options to the last byte; a header or a body that is cut short is an error. */
  function DecodeOptions(b: seq<Byte>): (r: Option<seq<DhcpOption>>)
    ensures r.Some? ==> forall k :: 0 <= k < |r.value| ==> |r.value[k].data| + 4 <= |b|
  {
    if b == [] then Some([])
    else if |b| < 4 then None
    else
      var n := Uint16(b[2], b[3]);
      if |b| < 4 + n then None
      else match DecodeOptions(b[4 + n..])
        case None => None
        case Some(rest) => Some([DhcpOption(Uint16(b[0], b[1]), b[4..4 + n])] + rest)
  }

  ghost predicate ValidOptions(os: seq<DhcpOption>) { forall k :: 0 <= k < |os| ==> os[k].Valid() }

  lemma {:induction false} DecodeOfEncodeOptions(os: seq<DhcpOption>)
    requires ValidOptions(os)
    ensures DecodeOptions(EncodeOptions(os)) == Some(os)
  {
    if os == [] {
    } else {
      var o, rest := os[0], EncodeOptions(os[1..]);
      var b := EncodeOptions(os);
      assert b[4 + |o.data|..] == rest;
      assert b[4..4 + |o.data|] == o.data;
      DecodeOfEncodeOptions(os[1..]);
      assert [o] + os[1..] == os;
    }
  }

  lemma OptionBytes(b: seq<Byte>, n: nat)
    requires |b| >= 4 + n && n == Uint16(b[2], b[3])
    ensures EncodeOption(DhcpOption(Uint16(b[0], b[1]), b[4..4 + n])) == b[..4 + n]
  {
    Bytes16OfUint16(b[0], b[1]);
    Bytes16OfUint16(b[2], b[3]);
    FourBytes(b[..4 + n]);
    assert b[..4 + n][4..] == b[4..4 + n];
  }

  lemma FourBytes(b: seq<Byte>)
    requires |b| >= 4
    ensures [b[0], b[1]] + [b[2], b[3]] + b[4..] == b
  {}

  lemma EncodeOptionsCons(o: DhcpOption, os: seq<DhcpOption>)
    ensures EncodeOptions([o] + os) == EncodeOption(o) + EncodeOptions(os)
  {
    assert ([o] + os)[1..] == os;
  }

  lemma FirstOption(b: seq<Byte>) returns (n: nat, o: DhcpOption, rest: seq<DhcpOption>)
    requires b != [] && DecodeOptions(b).Some?
    ensures 4 + n <= |b| && o.Valid() && EncodeOption(o) == b[..4 + n]
    ensures DecodeOptions(b[4 + n..]) == Some(rest) && DecodeOptions(b) == Some([o] + rest)
  {
    n := Uint16(b[2], b[3]);
    o, rest := DhcpOption(Uint16(b[0], b[1]), b[4..4 + n]), DecodeOptions(b[4 + n..]).value;
    OptionBytes(b, n);
  }

  lemma {:induction false} EncodeOfDecodeOptions(b: seq<Byte>)
    requires DecodeOptions(b).Some?
    ensures ValidOptions(DecodeOptions(b).value) && EncodeOptions(DecodeOptions(b).value) == b
  {
    if b == [] {
    } else {
      var n, o, rest := FirstOption(b);
      EncodeOfDecodeOptions(b[4 + n..]);
      EncodeOptionsCons(o, rest);
      assert b == b[..4 + n] + b[4 + n..];
    }
  }

  /** The first option with a code. */
  function GetOne(os: seq<DhcpOption>, code: nat): Option<DhcpOption> {
    if os == [] then None else if os[0].code == code then Some(os[0]) else GetOne(os[1..], code)
  }

  lemma {:induction false} GetOneFinds(os: seq<DhcpOption>, code: nat)
    ensures match GetOne(os, code)
      case Some(o) => o.code == code && o in os
      case None => forall o :: o in os ==> o.code != code
  {
    if os == [] {
    } else {
      GetOneFinds(os[1..], code);
    }
  }

  /** Option k is the first with the code. */
  ghost predicate FirstWith(os: seq<DhcpOption>, k: nat, code: nat) {
    k < |os| && os[k].code == code && forall j :: 0 <= j < k ==> os[j].code != code
  }

  lemma {:induction false} FirstIsGot(os: seq<DhcpOption>, k: nat, code: nat)
    requires FirstWith(os, k, code)
    ensures GetOne(os, code) == Some(os[k])
  {
    if k > 0 {
      assert os[0].code != code;
      FirstIsGot(os[1..], k - 1, code);
    }
  }

  lemma {:induction false} GotIsFirst(os: seq<DhcpOption>, code: nat)
    ensures GetOne(os, code).Some? ==> exists k: nat :: FirstWith(os, k, code)
  {
    if os != [] && os[0].code != code && GetOne(os, code).Some? {
      GotIsFirst(os[1..], code);
      var k: nat :| FirstWith(os[1..], k, code);
      assert forall j :: 0 < j < k + 1 ==> os[j] == os[1..][j - 1];
      assert FirstWith(os, k + 1, code);
    } else if os != [] && os[0].code == code {
      assert FirstWith(os, 0, code);
    }
  }

  // ---- packets ----

  function Encode(p: Packet): seq<Byte> {
    match p
    case Message(t, id, os) => [t] + id + EncodeOptions(os)
    case Relay(t, hops, link, peer, os) => [t, hops] + link + peer + EncodeOptions(os)
  }

  /** A packet that Encode can put on the wire; what a Relay Message option carries is one as well. */
  ghost predicate Valid(p: Packet) {
    && ValidOptions(p.options)
    && match p
       case Message(t, id, _) => !IsRelayType(t) && |id| == 3
       case Relay(t, _, link, peer, os) =>
         && IsRelayType(t) && |link| == ADDRESS_SIZE && |peer| == ADDRESS_SIZE
         && forall k :: 0 <= k < |os| && os[k].code == OPTION_RELAY_MSG ==> Decode(os[k].data).Some?
  }

  function Decode(b: seq<Byte>): Option<Packet>
    decreases |b|
  {
    if b == [] then None
    else if IsRelayType(b[0]) then
      if |b| < RELAY_HEADER_SIZE then None
      else match DecodeOptions(b[RELAY_HEADER_SIZE..])
        case None => None
        case Some(os) =>
          if forall k :: 0 <= k < |os| && os[k].code == OPTION_RELAY_MSG ==> Decode(os[k].data).Some?
          then Some(Relay(b[0], b[1], b[2..18], b[18..34], os))
          else None
    else
      if |b| < HEADER_SIZE then None
      else match DecodeOptions(b[HEADER_SIZE..])
        case None => None
        case Some(os) => Some(Message(b[0], b[1..HEADER_SIZE], os))
  }

  /** Type, transaction id, options (section 8 of RFC 8415). */
  lemma MessageLayout(p: Packet)
    requires Valid(p) && p.Message?
    ensures var b := Encode(p);
      |b| >= 4 && b[0] == p.msgType && b[1..4] == p.transactionId && b[4..] == EncodeOptions(p.options)
  {}

  /** Type, hop count, link address, peer address, options (section 9); these types are 12 and 13. */
  lemma RelayLayout(p: Packet)
    requires Valid(p) && p.Relay?
    ensures p.msgType == 12 || p.msgType == 13
    ensures var b := Encode(p);
      && |b| >= 34 && b[0] == p.msgType && b[1] == p.hopCount
      && b[2..18] == p.linkAddr && b[18..34] == p.peerAddr && b[34..] == EncodeOptions(p.options)
  {}

  /** Code and length in network byte order, then the data (section 21.1). */
  lemma OptionLayout(o: DhcpOption)
    requires o.Valid()
    ensures var b := EncodeOption(o);
      && |b| == 4 + |o.data| && b[4..] == o.data
      && 256 * (b[0] as int) + b[1] as int == o.code && 256 * (b[2] as int) + b[3] as int == |o.data|
  {}

  /** Options are encoded one after the other. */
  lemma {:induction false} EncodeOptionsConcat(a: seq<DhcpOption>, b: seq<DhcpOption>)
    ensures EncodeOptions(a + b) == EncodeOptions(a) + EncodeOptions(b)
    ensures |a| == 1 ==> EncodeOptions(a) == EncodeOption(a[0])
  {
    if a == [] {
      assert a + b == b;
    } else {
      assert (a + b)[1..] == a[1..] + b;
      EncodeOptionsConcat(a[1..], b);
    }
  }

  lemma DecodeOfMessage(p: Packet, b: seq<Byte>)
    requires Valid(p) && p.Message? && b == Encode(p) && DecodeOptions(EncodeOptions(p.options)) == Some(p.options)
    ensures Decode(b) == Some(p)
  {
    MessageLayout(p);
  }

  lemma DecodeOfRelay(p: Packet, b: seq<Byte>)
    requires Valid(p) && p.Relay? && b == Encode(p) && DecodeOptions(EncodeOptions(p.options)) == Some(p.options)
    ensures Decode(b) == Some(p)
  {
    RelayLayout(p);
  }

  /** Decoding recovers type, transaction id or hop count and addresses, and all options in order. */
  lemma DecodeOfEncode(p: Packet)
    requires Valid(p)
    ensures Decode(Encode(p)) == Some(p)
  {
    DecodeOfEncodeOptions(p.options);
    if p.Message? {
      DecodeOfMessage(p, Encode(p));
    } else {
      DecodeOfRelay(p, Encode(p));
    }
  }

  lemma RelayHeader(b: seq<Byte>)
    requires |b| >= RELAY_HEADER_SIZE
    ensures [b[0], b[1]] + b[2..18] + b[18..34] + b[RELAY_HEADER_SIZE..] == b
  {}

  lemma MessageHeader(b: seq<Byte>)
    requires |b| >= HEADER_SIZE
    ensures [b[0]] + b[1..HEADER_SIZE] + b[HEADER_SIZE..] == b
  {}

  /** What decodes is the encoding of what it decodes to, byte for byte. */
  lemma EncodeOfDecode(b: seq<Byte>)
    requires Decode(b).Some?
    ensures Valid(Decode(b).value) && Encode(Decode(b).value) == b
  {
    if IsRelayType(b[0]) {
      EncodeOfDecodeOptions(b[RELAY_HEADER_SIZE..]);
      RelayHeader(b);
    } else {
      EncodeOfDecodeOptions(b[HEADER_SIZE..]);
      MessageHeader(b);
    }
  }

  /** MessageFromBytes: a packet in client/server format, not a relayed one. */
  function MessageFromBytes(b: seq<Byte>): Option<Packet> {
    match Decode(b)
    case Some(p) => if p.Message? then Some(p) else None
    case None => None
  }

  /** RelayMessageFromBytes */
  function RelayMessageFromBytes(b: seq<Byte>): Option<Packet> {
    match Decode(b)
    case Some(p) => if p.Relay? then Some(p) else None
    case None => None
  }
}
