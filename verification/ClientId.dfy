/**
 The identity of a client (lease.go): the text printed from its binary layer-2 key without the
 EtherType. A key holds the MAC, a number of two-byte VLAN slots and the EtherType.
 */
module ClientId {
  import opened Wrappers
  import opened Bytes
  import opened Text

  const MAC_SIZE := 6

  /** The slot value of the layer-2 library for "no tag here". */
  const NOVLANTAG := 0xFFFF

  type Key = k: seq<Byte> | |k| >= MAC_SIZE + 2 && |k| % 2 == 0 witness [0, 0, 0, 0, 0, 0, 0, 0]

  function SlotCount(k: Key): nat { (|k| - MAC_SIZE - 2) / 2 }

  function Slot(k: Key, j: nat): nat
    requires j < SlotCount(k)
  {
    Uint16(k[MAC_SIZE + 2 * j], k[MAC_SIZE + 2 * j + 1])
  }

  /** The tags in the first n slots. */
  function Tags(k: Key, n: nat): seq<nat>
    requires n <= SlotCount(k)
  {
    if n == 0 then []
    else Tags(k, n - 1) + if Slot(k, n - 1) != NOVLANTAG then [Slot(k, n - 1)] else []
  }

  datatype Identity = Identity(mac: seq<Byte>, vids: seq<nat>)

  /** What a key says about the client, apart from the protocol. */
  function IdentityOf(k: Key): Identity { Identity(k[..MAC_SIZE], Tags(k, SlotCount(k))) }

  // ---- printing ----

  function MacText(mac: seq<Byte>): string { Join(PrintAll(HexPair, mac), ':') }

  function IdFields(c: Identity): seq<string> { [MacText(c.mac)] + PrintAll(Decimal, c.vids) }

  function IdText(c: Identity): string { Join(IdFields(c), '|') }

  /** The MAC as text: two hexadecimal digits for each byte, with colons between. */
  lemma MacTextAt(mac: seq<Byte>, k: nat)
    requires k < |mac|
    ensures |MacText(mac)| == 3 * |mac| - 1
    ensures MacText(mac)[3 * k..3 * k + 2] == HexPair(mac[k])
    ensures k + 1 < |mac| ==> MacText(mac)[3 * k + 2] == ':'
  {
    JoinPairsAt(PrintAll(HexPair, mac), ':', k);
  }

  lemma TagsStep(k: Key, n: nat, vid: nat)
    requires 0 < n <= SlotCount(k) && vid == Slot(k, n - 1)
    ensures vid == NOVLANTAG ==> Tags(k, n) == Tags(k, n - 1)
    ensures vid != NOVLANTAG ==> Tags(k, n) == Tags(k, n - 1) + [vid]
  {}

  lemma IdTextSnoc(mac: seq<Byte>, vids: seq<nat>, vid: nat)
    ensures IdText(Identity(mac, vids + [vid])) == IdText(Identity(mac, vids)) + "|" + Decimal(vid)
  {
    var fields := IdFields(Identity(mac, vids));
    assert (vids + [vid])[..|vids|] == vids;
    assert IdFields(Identity(mac, vids + [vid])) == fields + [Decimal(vid)];
    JoinSnoc(fields, Decimal(vid), '|');
  }

  /** A text with the tags behind it. */
  function Appended(start: string, vids: seq<nat>): string {
    if vids == [] then start else Appended(start, vids[..|vids| - 1]) + "|" + Decimal(vids[|vids| - 1])
  }

  lemma {:induction false} AppendedIs(mac: seq<Byte>, vids: seq<nat>)
    ensures Appended(MacText(mac), vids) == IdText(Identity(mac, vids))
  {
    if vids == [] {
    } else {
      var front, last := vids[..|vids| - 1], vids[|vids| - 1];
      AppendedIs(mac, front);
      IdTextSnoc(mac, front, last);
      assert front + [last] == vids;
    }
  }

  lemma AppendedSnoc(start: string, vids: seq<nat>, vid: nat)
    ensures Appended(start, vids + [vid]) == Appended(start, vids) + "|" + Decimal(vid)
  {
    assert (vids + [vid])[..|vids|] == vids;
  }

  /** One round of the loop over the slots. */
  method AppendSlot(ghost start: string, k: Key, i: nat, ghost n: nat, r: string) returns (r': string)
    requires i == MAC_SIZE + 2 * n && n < SlotCount(k) && r == Appended(start, Tags(k, n))
    ensures r' == Appended(start, Tags(k, n + 1))
  {
    var vid := Uint16(k[i], k[i + 1]);
    r' := r;
    TagsStep(k, n + 1, vid);
    if vid != NOVLANTAG {
      AppendedSnoc(start, Tags(k, n), vid);
      r' := r' + "|" + Decimal(vid);
    }
  }

  method AppendSlots(start: string, k: Key) returns (r: string)
    ensures r == Appended(start, Tags(k, SlotCount(k)))
  {
    r := start;
    var i := MAC_SIZE;
    ghost var n := 0;
    while i + 2 <= |k| - 2
      invariant i == MAC_SIZE + 2 * n && n <= SlotCount(k)
      invariant r == Appended(start, Tags(k, n))
    {
      r := AppendSlot(start, k, i, n, r);
      i, n := i + 2, n + 1;
    }
  }

  /** getClientIDFromL2Key */
  method GetClientIDFromL2Key(k: Key) returns (r: string)
    ensures r == IdText(IdentityOf(k))
  {
    r := AppendSlots(MacText(k[..MAC_SIZE]), k);
    AppendedIs(k[..MAC_SIZE], Tags(k, SlotCount(k)));
  }

  // ---- parsing ----

  /** Reads an identity back from its text. */
  function Parse(text: string): Option<Identity> {
    var fields := Split(text, '|');
    match (ParseAll(ParseHexPair, Split(fields[0], ':')), ParseAll(ParseDecimal, fields[1..]))
    case (Some(mac), Some(vids)) => Some(Identity(mac, vids))
    case _ => None
  }

  lemma {:induction false} JoinAvoids(fields: seq<string>, sep: char, c: char)
    requires c != sep && forall k :: 0 <= k < |fields| ==> c !in fields[k]
    ensures c !in Join(fields, sep)
  {
    if |fields| <= 1 {
    } else {
      JoinAvoids(fields[1..], sep, c);
    }
  }

  lemma MacTextParses(mac: seq<Byte>)
    requires mac != []
    ensures ParseAll(ParseHexPair, Split(MacText(mac), ':')) == Some(mac)
    ensures '|' !in MacText(mac)
  {
    var fields := PrintAll(HexPair, mac);
    forall k | 0 <= k < |mac|
      ensures ParseHexPair(HexPair(mac[k])) == Some(mac[k]) && ':' !in fields[k] && '|' !in fields[k]
    {
      ParseOfHexPair(mac[k]);
    }
    ParseOfPrintAll(HexPair, ParseHexPair, mac);
    SplitOfJoin(fields, ':');
    JoinAvoids(fields, ':', '|');
  }

  lemma TagTextsParse(vids: seq<nat>)
    ensures ParseAll(ParseDecimal, PrintAll(Decimal, vids)) == Some(vids)
    ensures forall k :: 0 <= k < |vids| ==> '|' !in PrintAll(Decimal, vids)[k]
  {
    forall k | 0 <= k < |vids|
      ensures ParseDecimal(Decimal(vids[k])) == Some(vids[k]) && '|' !in PrintAll(Decimal, vids)[k]
    {
      NumberOfDecimal(vids[k]);
    }
    ParseOfPrintAll(Decimal, ParseDecimal, vids);
  }

  /** Printing loses nothing: the parser recovers MAC and tags from the text of every identity. */
  lemma ParseOfIdText(c: Identity)
    requires c.mac != []
    ensures Parse(IdText(c)) == Some(c)
  {
    MacTextParses(c.mac);
    TagTextsParse(c.vids);
    var fields := IdFields(c);
    assert fields[1..] == PrintAll(Decimal, c.vids);
    forall k | 0 <= k < |fields| ensures '|' !in fields[k] {
      if k > 0 { assert fields[k] == fields[1..][k - 1]; }
    }
    SplitOfJoin(fields, '|');
  }

  /** Two keys print alike exactly when they agree on the MAC and on the tags in use. */
  lemma SameTextIffSameIdentity(a: Key, b: Key)
    ensures IdText(IdentityOf(a)) == IdText(IdentityOf(b)) <==> IdentityOf(a) == IdentityOf(b)
  {
    ParseOfIdText(IdentityOf(a));
    ParseOfIdText(IdentityOf(b));
  }

  // ---- keys as the layer-2 library fills them ----

  /** Unused slots come last. */
  predicate TrailingGaps(k: Key) {
    forall i, j :: 0 <= i < j < SlotCount(k) && Slot(k, i) == NOVLANTAG ==> Slot(k, j) == NOVLANTAG
  }

  /** The slot values that stand for the given tags: the tags themselves, then gaps. */
  function Filled(vids: seq<nat>, j: nat): nat { if j < |vids| then vids[j] else NOVLANTAG }

  lemma {:induction false} TagsOfFilled(k: Key, vids: seq<nat>, n: nat)
    requires n <= SlotCount(k) && forall j :: 0 <= j < n ==> Slot(k, j) == Filled(vids, j)
    requires NOVLANTAG !in vids
    ensures Tags(k, n) == vids[..if n < |vids| then n else |vids|]
  {
    if n == 0 {
    } else {
      TagsOfFilled(k, vids, n - 1);
    }
  }

  lemma {:induction false} FilledByTags(k: Key, n: nat)
    requires TrailingGaps(k) && n <= SlotCount(k)
    ensures |Tags(k, n)| <= n && forall j :: 0 <= j < n ==> Slot(k, j) == Filled(Tags(k, n), j)
    ensures |Tags(k, n)| < n ==> Slot(k, n - 1) == NOVLANTAG
  {
    if n == 0 {
    } else {
      FilledByTags(k, n - 1);
    }
  }

  function SlotBytes(vids: seq<nat>, n: nat): (bytes: seq<Byte>)
    ensures |bytes| == 2 * n
  {
    if n == 0 then [] else SlotBytes(vids, n - 1) + Bytes16(Filled(vids, n - 1))
  }

  /** The key of a client with the given MAC and tags, for one EtherType. */
  function KeyOf(c: Identity, slots: nat, etherType: nat): (k: Key)
    requires |c.mac| == MAC_SIZE
    ensures |k| == MAC_SIZE + 2 * slots + 2
  {
    c.mac + SlotBytes(c.vids, slots) + Bytes16(etherType)
  }

  /** The MAC comes first, the EtherType last. */
  lemma KeyEnds(c: Identity, slots: nat, etherType: nat)
    requires |c.mac| == MAC_SIZE && etherType <= MAX_UINT16
    ensures var k := KeyOf(c, slots, etherType);
      && k[..MAC_SIZE] == c.mac
      && 256 * (k[|k| - 2] as int) + k[|k| - 1] as int == etherType
  {}

  lemma {:induction false} SlotBytesAt(vids: seq<nat>, n: nat, j: nat)
    requires j < n && forall k :: 0 <= k < |vids| ==> vids[k] <= NOVLANTAG
    ensures Uint16(SlotBytes(vids, n)[2 * j], SlotBytes(vids, n)[2 * j + 1]) == Filled(vids, j)
  {
    if j == n - 1 {
    } else {
      SlotBytesAt(vids, n - 1, j);
    }
  }

  /** A key tells MAC and tags back, whatever its EtherType is. */
  lemma IdentityOfKey(c: Identity, slots: nat, etherType: nat)
    requires |c.mac| == MAC_SIZE && |c.vids| <= slots
    requires forall k :: 0 <= k < |c.vids| ==> c.vids[k] < NOVLANTAG
    ensures IdentityOf(KeyOf(c, slots, etherType)) == c
  {
    var k := KeyOf(c, slots, etherType);
    assert k[..MAC_SIZE] == c.mac;
    forall j | 0 <= j < slots ensures Slot(k, j) == Filled(c.vids, j) {
      SlotBytesAt(c.vids, slots, j);
      assert k[MAC_SIZE + 2 * j] == SlotBytes(c.vids, slots)[2 * j];
      assert k[MAC_SIZE + 2 * j + 1] == SlotBytes(c.vids, slots)[2 * j + 1];
    }
    TagsOfFilled(k, c.vids, slots);
  }

  /**
   Among keys of one size whose unused slots come last, two print alike exactly when they differ at
   most in the EtherType. This is why the v4 and the v6 lease of one client meet in one entry.
   */
  lemma SameTextUpToEtherType(a: Key, b: Key)
    requires |a| == |b| && TrailingGaps(a) && TrailingGaps(b)
    ensures IdText(IdentityOf(a)) == IdText(IdentityOf(b)) <==> a[..|a| - 2] == b[..|b| - 2]
  {
    SameTextIffSameIdentity(a, b);
    if IdentityOf(a) == IdentityOf(b) {
      SameIdentitySamePrefix(a, b);
    }
    if a[..|a| - 2] == b[..|b| - 2] {
      SamePrefixSameIdentity(a, b);
    }
  }

  lemma SamePrefixSameIdentity(a: Key, b: Key)
    requires |a| == |b| && a[..|a| - 2] == b[..|b| - 2]
    ensures IdentityOf(a) == IdentityOf(b)
  {
    SamePrefixSameTags(a, b, SlotCount(a));
    assert a[..MAC_SIZE] == a[..|a| - 2][..MAC_SIZE];
    assert b[..MAC_SIZE] == b[..|b| - 2][..MAC_SIZE];
  }

  lemma SameSlots(a: Key, b: Key, j: nat)
    requires |a| == |b| && TrailingGaps(a) && TrailingGaps(b) && j < SlotCount(a)
    requires Tags(a, SlotCount(a)) == Tags(b, SlotCount(b))
    ensures Slot(a, j) == Slot(b, j)
  {
    FilledByTags(a, SlotCount(a));
    FilledByTags(b, SlotCount(b));
  }

  lemma SameIdentitySamePrefix(a: Key, b: Key)
    requires |a| == |b| && TrailingGaps(a) && TrailingGaps(b)
    requires IdentityOf(a) == IdentityOf(b)
    ensures a[..|a| - 2] == b[..|b| - 2]
  {
    forall i | 0 <= i < |a| - 2 ensures a[i] == b[i] {
      if i < MAC_SIZE {
        assert a[..MAC_SIZE][i] == b[..MAC_SIZE][i];
      } else {
        var j := (i - MAC_SIZE) / 2;
        SameSlots(a, b, j);
        SameByte(a, b, i, j);
      }
    }
  }

  lemma SameByte(a: Key, b: Key, i: nat, j: nat)
    requires |a| == |b| && j < SlotCount(a) && Slot(a, j) == Slot(b, j)
    requires MAC_SIZE + 2 * j <= i <= MAC_SIZE + 2 * j + 1
    ensures a[i] == b[i]
  {
    SameSlotSameBytes(a, b, j);
  }

  lemma SameSlotSameBytes(a: Key, b: Key, j: nat)
    requires |a| == |b| && j < SlotCount(a) && Slot(a, j) == Slot(b, j)
    ensures a[MAC_SIZE + 2 * j] == b[MAC_SIZE + 2 * j] && a[MAC_SIZE + 2 * j + 1] == b[MAC_SIZE + 2 * j + 1]
  {}

  lemma {:induction false} SamePrefixSameTags(a: Key, b: Key, n: nat)
    requires |a| == |b| && a[..|a| - 2] == b[..|b| - 2] && n <= SlotCount(a)
    ensures Tags(a, n) == Tags(b, n)
  {
    if n == 0 {
    } else {
      SamePrefixSameTags(a, b, n - 1);
      var p := MAC_SIZE + 2 * (n - 1);
      assert a[p] == a[..|a| - 2][p] && a[p + 1] == a[..|a| - 2][p + 1];
    }
  }

  lemma OneTag(k: Key, v: nat)
    requires SlotCount(k) == 2 && v != NOVLANTAG
    requires (Slot(k, 0) == NOVLANTAG && Slot(k, 1) == v) || (Slot(k, 0) == v && Slot(k, 1) == NOVLANTAG)
    ensures Tags(k, 2) == [v]
  {
    assert Tags(k, 0) == [];
    TagsStep(k, 1, Slot(k, 0));
    TagsStep(k, 2, Slot(k, 1));
  }

  lemma DifferentSlots(a: Key, b: Key)
    requires SlotCount(a) == 2 == SlotCount(b) && Slot(a, 0) != Slot(b, 0)
    ensures a[..|a| - 2] != b[..|b| - 2]
  {
    var i := if a[MAC_SIZE] != b[MAC_SIZE] then MAC_SIZE else MAC_SIZE + 1;
    assert a[..|a| - 2][i] == a[i] && b[..|b| - 2][i] == b[i];
  }

  /** Without that condition two different tag stacks can print alike: a gap before a tag leaves no trace. */
  lemma LeadingGapCollides(a: Key, b: Key, v: nat)
    requires SlotCount(a) == 2 == SlotCount(b) && a[..MAC_SIZE] == b[..MAC_SIZE] && v != NOVLANTAG
    requires Slot(a, 0) == NOVLANTAG && Slot(a, 1) == v && Slot(b, 0) == v && Slot(b, 1) == NOVLANTAG
    ensures IdText(IdentityOf(a)) == IdText(IdentityOf(b)) && a[..|a| - 2] != b[..|b| - 2]
  {
    OneTag(a, v);
    OneTag(b, v);
    assert Slot(a, 0) != Slot(b, 0);
    DifferentSlots(a, b);
  }
}
