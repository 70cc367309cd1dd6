/**
 An in-memory pair of packet connections (conpair.go), before Close and without timeouts. A write enqueues
 the caller's buffer itself, not a copy, so a buffer that is changed while it waits arrives changed.
 */
module ConnPair {
  import opened Bytes
  import opened Sums

  const MAX_DEPTH := 32

  /** What a reader with a buffer of n bytes gets of a packet. */
  function Cut(packet: seq<Byte>, n: nat): seq<Byte> { packet[..Min(|packet|, n)] }

  // ---- the connection objects ----

  class PacketConnPair {
    var peer: PacketConnPair?
    var ch: seq<array<Byte>>

    /** What the queued packets contained when they were handed over. */
    ghost var handed: seq<seq<Byte>>

    constructor ()
      ensures peer == null && ch == [] && handed == []
    {
      peer, ch, handed := null, [], [];
    }

    /** No queued buffer has been changed since it was handed over. */
    ghost predicate Intact()
      reads this, ch
    {
      |handed| == |ch| && forall k :: 0 <= k < |ch| ==> ch[k][..] == handed[k]
    }

    /** Copies the oldest packet into p as far as it fits; blocks when there is none. */
    method ReadFrom(p: array<Byte>) returns (blocked: bool, n: nat)
      modifies this`ch, this`handed, p
      ensures blocked <==> old(ch) == []
      ensures blocked ==> ch == [] && p[..] == old(p[..]) && handed == old(handed)
      ensures !blocked ==> ch == old(ch)[1..] && n == Min(old(ch)[0].Length, p.Length)
      ensures !blocked ==> p[..n] == Cut(old(ch[0][..]), p.Length) && p[n..] == old(p[n..])
      ensures !blocked && old(Intact()) ==> p[..n] == Cut(old(handed)[0], p.Length)
      ensures !blocked && old(Intact()) && p !in ch ==> Intact() && handed == old(handed)[1..]
    {
      if ch == [] {
        return true, 0;
      }
      blocked := false;
      var buf := ch[0];
      ch := ch[1..];
      handed := if handed == [] then [] else handed[1..];
      n := Min(buf.Length, p.Length);
      ghost var packet := buf[..];
      forall k | 0 <= k < n { p[k] := buf[k]; }
      assert p[..n] == packet[..n];
    }

    /** Hands the buffer over to the peer; blocks when 32 packets wait there. */
    method WriteTo(p: array<Byte>) returns (blocked: bool, n: nat)
      requires peer != null
      modifies peer`ch, peer`handed
      ensures blocked <==> |old(peer.ch)| >= 32
      ensures blocked ==> peer.ch == old(peer.ch) && peer.handed == old(peer.handed)
      ensures !blocked ==> peer.ch == old(peer.ch) + [p] && n == p.Length
      ensures !blocked ==> peer.handed == old(peer.handed) + [p[..]]
      ensures old(peer.Intact()) ==> peer.Intact()
      ensures |old(peer.ch)| <= 32 ==> |peer.ch| <= 32
    {
      if |peer.ch| >= MAX_DEPTH {
        return true, 0;
      }
      blocked, n := false, p.Length;
      peer.ch := peer.ch + [p];
      peer.handed := peer.handed + [p[..]];
    }
  }

  method NewPacketConnPair() returns (a: PacketConnPair, b: PacketConnPair)
    ensures fresh(a) && fresh(b) && a != b && a.peer == b && b.peer == a
    ensures a.ch == [] && b.ch == [] && a.Intact() && b.Intact()
  {
    a := new PacketConnPair();
    b := new PacketConnPair();
    a.peer, b.peer := b, a;
  }

  // ---- whole runs ----

  datatype Side = A | B

  /** Buffers are named; Overwrite is a writer changing one of its buffers. */
  datatype Event = Write(to: Side, buffer: int) | Read(at: Side, room: nat) | Overwrite(buffer: int, bytes: seq<Byte>)

  /** One direction: the buffers that wait, and what was written and got so far. */
  datatype Direction = Direction(queue: seq<int>, written: seq<seq<Byte>>, rooms: seq<nat>, got: seq<seq<Byte>>)

  const IDLE := Direction([], [], [], [])

  type Heap = int -> seq<Byte>

  datatype Wire = Wire(heap: Heap, toA: Direction, toB: Direction)
  {
    function To(x: Side): Direction { if x.A? then toA else toB }
    function With(x: Side, d: Direction): Wire { if x.A? then this.(toA := d) else this.(toB := d) }
  }

  predicate CanDo(w: Wire, e: Event) {
    match e
    case Write(x, _) => |w.To(x).queue| < MAX_DEPTH
    case Read(x, _) => w.To(x).queue != []
    case Overwrite(_, _) => true
  }

  function Do(w: Wire, e: Event): Wire
    requires CanDo(w, e)
  {
    match e
    case Write(x, b) =>
      var d := w.To(x);
      w.With(x, d.(queue := d.queue + [b], written := d.written + [w.heap(b)]))
    case Read(x, room) =>
      var d := w.To(x);
      w.With(x, d.(queue := d.queue[1..], rooms := d.rooms + [room], got := d.got + [Cut(w.heap(d.queue[0]), room)]))
    case Overwrite(b, bytes) =>
      var heap := w.heap;
      w.(heap := c => if c == b then bytes else heap(c))
  }

  ghost predicate Run(w: Wire, events: seq<Event>, w': Wire)
    decreases |events|
  {
    if events == [] then w == w'
    else CanDo(w, events[0]) && Run(Do(w, events[0]), events[1..], w')
  }

  /** Read packets are the written ones, in order, cut to the reader's room; the others still wait. */
  predicate InOrder(d: Direction) {
    && |d.got| == |d.rooms| && |d.got| + |d.queue| == |d.written|
    && |d.queue| <= MAX_DEPTH
    && forall j :: 0 <= j < |d.got| ==> d.got[j] == Cut(d.written[j], d.rooms[j])
  }

  /** The packets that wait are as they were written. */
  ghost predicate Unchanged(heap: Heap, d: Direction) {
    |d.queue| <= |d.written|
    && forall k :: 0 <= k < |d.queue| ==> heap(d.queue[k]) == d.written[|d.written| - |d.queue| + k]
  }

  /** The writer changes a buffer that still waits, to something else than what was handed over. */
  predicate Disturbs(w: Wire, e: Event) {
    e.Overwrite? && (e.buffer in w.toA.queue || e.buffer in w.toB.queue) && w.heap(e.buffer) != e.bytes
  }

  ghost predicate Undisturbed(w: Wire, events: seq<Event>)
    decreases |events|
  {
    events != [] && CanDo(w, events[0]) ==> !Disturbs(w, events[0]) && Undisturbed(Do(w, events[0]), events[1..])
  }

  /** Both directions obey the channel law, and would go on to if drained now. */
  ghost predicate Lawful(w: Wire) {
    InOrder(w.toA) && InOrder(w.toB) && Unchanged(w.heap, w.toA) && Unchanged(w.heap, w.toB)
  }

  lemma WriteLaw(heap: Heap, d: Direction, b: int)
    requires InOrder(d) && Unchanged(heap, d) && |d.queue| < MAX_DEPTH
    ensures var d' := d.(queue := d.queue + [b], written := d.written + [heap(b)]);
      InOrder(d') && Unchanged(heap, d')
  {}

  lemma ReadLaw(heap: Heap, d: Direction, room: nat)
    requires InOrder(d) && Unchanged(heap, d) && d.queue != []
    ensures var d' := d.(queue := d.queue[1..], rooms := d.rooms + [room],
                         got := d.got + [Cut(heap(d.queue[0]), room)]);
      InOrder(d') && Unchanged(heap, d')
  {}

  lemma OverwriteLaw(heap: Heap, heap': Heap, d: Direction, b: int)
    requires Unchanged(heap, d) && forall c :: c != b ==> heap'(c) == heap(c)
    ensures Unchanged(heap', d) <==> b !in d.queue || heap'(b) == heap(b)
  {
    if b in d.queue && heap'(b) != heap(b) {
      var k :| 0 <= k < |d.queue| && d.queue[k] == b;
      assert heap'(d.queue[k]) != d.written[|d.written| - |d.queue| + k];
    }
  }

  /** One event keeps the law exactly when it does not change a waiting buffer. */
  lemma EventLaw(w: Wire, e: Event)
    requires Lawful(w) && CanDo(w, e)
    ensures Lawful(Do(w, e)) <==> !Disturbs(w, e)
  {
    match e
    case Write(x, b) => WriteLaw(w.heap, w.To(x), b);
    case Read(x, room) => ReadLaw(w.heap, w.To(x), room);
    case Overwrite(b, _) =>
      OverwriteLaw(w.heap, Do(w, e).heap, w.toA, b);
      OverwriteLaw(w.heap, Do(w, e).heap, w.toB, b);
  }

  /**
   The channel law over every interleaving: as long as no writer changes a buffer that still waits, each
   direction delivers what was written to it, in order, cut to the reader's room, and at most 32 wait.
   */
  lemma {:induction false} ChannelLaw(w: Wire, events: seq<Event>, w': Wire)
    requires Lawful(w) && Run(w, events, w') && Undisturbed(w, events)
    ensures Lawful(w')
    decreases |events|
  {
    if events == [] {
    } else {
      EventLaw(w, events[0]);
      ChannelLaw(Do(w, events[0]), events[1..], w');
    }
  }

  lemma RunCons(w: Wire, e: Event, events: seq<Event>, w': Wire)
    requires CanDo(w, e) && Run(Do(w, e), events, w')
    ensures Run(w, [e] + events, w')
  {
    assert ([e] + events)[1..] == events;
  }

  // ---- exactly when a run obeys the law ----

  /** As many packets were got and wait as were written. */
  predicate Counted(d: Direction) {
    |d.got| == |d.rooms| && |d.got| + |d.queue| == |d.written| && |d.queue| <= MAX_DEPTH
  }

  /** A read finds the packet as it was handed over, as far as it reads. */
  predicate ReadsTrue(w: Wire, e: Event) {
    e.Read? && w.To(e.at).queue != [] && |w.To(e.at).got| < |w.To(e.at).written| ==>
      var d := w.To(e.at);
      Cut(w.heap(d.queue[0]), e.room) == Cut(d.written[|d.got|], e.room)
  }

  ghost predicate ReadsAllTrue(w: Wire, events: seq<Event>)
    decreases |events|
  {
    events != [] && CanDo(w, events[0]) ==> ReadsTrue(w, events[0]) && ReadsAllTrue(Do(w, events[0]), events[1..])
  }

  lemma ReadIsCounted(d: Direction, room: nat, bytes: seq<Byte>)
    requires Counted(d) && d.queue != []
    ensures var d' := d.(queue := d.queue[1..], rooms := d.rooms + [room], got := d.got + [bytes]);
      Counted(d') && (InOrder(d') <==> InOrder(d) && bytes == Cut(d.written[|d.got|], room))
  {
    var d' := d.(queue := d.queue[1..], rooms := d.rooms + [room], got := d.got + [bytes]);
    assert forall j :: 0 <= j < |d.got| ==> d'.got[j] == d.got[j] && d'.rooms[j] == d.rooms[j];
    assert d'.got[|d.got|] == bytes && d'.rooms[|d.got|] == room;
  }

  lemma WriteIsCounted(d: Direction, b: int, bytes: seq<Byte>)
    requires Counted(d) && |d.queue| < MAX_DEPTH
    ensures var d' := d.(queue := d.queue + [b], written := d.written + [bytes]);
      Counted(d') && (InOrder(d') <==> InOrder(d))
  {
    var d' := d.(queue := d.queue + [b], written := d.written + [bytes]);
    assert forall j :: 0 <= j < |d.got| ==> d'.written[j] == d.written[j];
  }

  lemma EventInOrder(w: Wire, e: Event)
    requires CanDo(w, e) && Counted(w.toA) && Counted(w.toB)
    ensures Counted(Do(w, e).toA) && Counted(Do(w, e).toB)
    ensures InOrder(Do(w, e).toA) && InOrder(Do(w, e).toB) <==>
      InOrder(w.toA) && InOrder(w.toB) && ReadsTrue(w, e)
  {
    match e
    case Write(x, b) => WriteIsCounted(w.To(x), b, w.heap(b));
    case Read(x, room) => ReadIsCounted(w.To(x), room, Cut(w.heap(w.To(x).queue[0]), room));
    case Overwrite(_, _) =>
  }

  /**
   Exactly when a run delivers in order: when every read finds its packet as it was handed over, as far as it
   reads. Changes that nobody sees do no harm.
   */
  lemma {:induction false} InOrderExactly(w: Wire, events: seq<Event>, w': Wire)
    requires Run(w, events, w') && Counted(w.toA) && Counted(w.toB)
    ensures Counted(w'.toA) && Counted(w'.toB)
    ensures InOrder(w'.toA) && InOrder(w'.toB) <==> InOrder(w.toA) && InOrder(w.toB) && ReadsAllTrue(w, events)
    decreases |events|
  {
    if events == [] {
    } else {
      EventInOrder(w, events[0]);
      InOrderExactly(Do(w, events[0]), events[1..], w');
    }
  }

  // ---- the same, told from the events alone ----

  /** What buffer b contains after the events. */
  function Content(heap: Heap, events: seq<Event>, b: int): seq<Byte> {
    if events == [] then heap(b)
    else
      var last := events[|events| - 1];
      if last.Overwrite? && last.buffer == b then last.bytes else Content(heap, events[..|events| - 1], b)
  }

  /** The buffers written to x, and what they contained when they were handed over. */
  function Handed(heap: Heap, events: seq<Event>, x: Side): seq<(int, seq<Byte>)> {
    if events == [] then []
    else
      var front, last := events[..|events| - 1], events[|events| - 1];
      Handed(heap, front, x)
      + if last.Write? && last.to == x then [(last.buffer, Content(heap, front, last.buffer))] else []
  }

  function Reads(events: seq<Event>, x: Side): nat {
    if events == [] then 0
    else
      var last := events[|events| - 1];
      Reads(events[..|events| - 1], x) + if last.Read? && last.at == x then 1 else 0
  }

  /** The n-th read finds the n-th buffer without a change that it could see since the hand-over. */
  predicate FindsHanded(heap: Heap, before: seq<Event>, e: Event) {
    e.Read? && Reads(before, e.at) < |Handed(heap, before, e.at)| ==>
      var (b, bytes) := Handed(heap, before, e.at)[Reads(before, e.at)];
      Cut(Content(heap, before, b), e.room) == Cut(bytes, e.room)
  }

  predicate NoVisibleChange(heap: Heap, events: seq<Event>) {
    events == [] ||
    (NoVisibleChange(heap, events[..|events| - 1])
     && FindsHanded(heap, events[..|events| - 1], events[|events| - 1]))
  }

  function Buffers(s: seq<(int, seq<Byte>)>): (r: seq<int>)
    ensures |r| == |s|
  {
    if s == [] then [] else Buffers(s[..|s| - 1]) + [s[|s| - 1].0]
  }

  function Contents(s: seq<(int, seq<Byte>)>): (r: seq<seq<Byte>>)
    ensures |r| == |s|
  {
    if s == [] then [] else Contents(s[..|s| - 1]) + [s[|s| - 1].1]
  }

  lemma {:induction false} HandedAt(s: seq<(int, seq<Byte>)>)
    ensures forall k :: 0 <= k < |s| ==> Buffers(s)[k] == s[k].0 && Contents(s)[k] == s[k].1
  {
    if s == [] {
    } else {
      HandedAt(s[..|s| - 1]);
      forall k | 0 <= k < |s| ensures Buffers(s)[k] == s[k].0 && Contents(s)[k] == s[k].1 {
        if k < |s| - 1 { assert s[k] == s[..|s| - 1][k]; }
      }
    }
  }

  lemma BuffersSnoc(s: seq<(int, seq<Byte>)>, p: (int, seq<Byte>))
    ensures Buffers(s + [p]) == Buffers(s) + [p.0] && Contents(s + [p]) == Contents(s) + [p.1]
  {
    assert (s + [p])[..|s|] == s;
  }

  /** A direction as the events make it. */
  ghost predicate Follows(heap: Heap, events: seq<Event>, x: Side, d: Direction) {
    var handed := Handed(heap, events, x);
    && Reads(events, x) == |d.got| == |d.rooms| <= |handed|
    && d.written == Contents(handed) && d.queue == Buffers(handed)[|d.got|..]
  }

  /** The wire as the events make it. */
  ghost predicate FollowsAll(heap: Heap, events: seq<Event>, w: Wire) {
    && (forall b :: w.heap(b) == Content(heap, events, b))
    && Follows(heap, events, A, w.toA) && Follows(heap, events, B, w.toB)
  }

  lemma EventsSnoc(heap: Heap, front: seq<Event>, e: Event, x: Side)
    ensures Reads(front + [e], x) == Reads(front, x) + if e.Read? && e.at == x then 1 else 0
    ensures Handed(heap, front + [e], x) == Handed(heap, front, x)
      + if e.Write? && e.to == x then [(e.buffer, Content(heap, front, e.buffer))] else []
  {
    assert (front + [e])[..|front|] == front;
  }

  lemma QueueSnoc(buffers: seq<int>, n: nat, b: int)
    requires n <= |buffers|
    ensures (buffers + [b])[n..] == buffers[n..] + [b]
  {}

  lemma WriteFollows(heap: Heap, front: seq<Event>, x: Side, d: Direction, b: int, bytes: seq<Byte>)
    requires Follows(heap, front, x, d) && bytes == Content(heap, front, b)
    ensures Follows(heap, front + [Write(x, b)], x, d.(queue := d.queue + [b], written := d.written + [bytes]))
  {
    EventsSnoc(heap, front, Write(x, b), x);
    BuffersSnoc(Handed(heap, front, x), (b, bytes));
    QueueSnoc(Buffers(Handed(heap, front, x)), |d.got|, b);
  }

  lemma ReadFollows(heap: Heap, front: seq<Event>, x: Side, d: Direction, room: nat, bytes: seq<Byte>)
    requires Follows(heap, front, x, d) && d.queue != []
    ensures Follows(heap, front + [Read(x, room)], x,
                    d.(queue := d.queue[1..], rooms := d.rooms + [room], got := d.got + [bytes]))
  {
    EventsSnoc(heap, front, Read(x, room), x);
    assert Handed(heap, front, x) + [] == Handed(heap, front, x);
  }

  lemma OtherFollows(heap: Heap, front: seq<Event>, x: Side, d: Direction, e: Event)
    requires Follows(heap, front, x, d) && !(e.Write? && e.to == x) && !(e.Read? && e.at == x)
    ensures Follows(heap, front + [e], x, d)
  {
    EventsSnoc(heap, front, e, x);
    assert Handed(heap, front, x) + [] == Handed(heap, front, x);
  }

  lemma EventFollows(heap: Heap, front: seq<Event>, w: Wire, e: Event, x: Side)
    requires Follows(heap, front, x, w.To(x)) && (forall b :: w.heap(b) == Content(heap, front, b)) && CanDo(w, e)
    ensures Follows(heap, front + [e], x, Do(w, e).To(x))
  {
    if e.Write? && e.to == x {
      WriteFollows(heap, front, x, w.To(x), e.buffer, w.heap(e.buffer));
    } else if e.Read? && e.at == x {
      ReadFollows(heap, front, x, w.To(x), e.room, Cut(w.heap(w.To(x).queue[0]), e.room));
    } else {
      OtherFollows(heap, front, x, w.To(x), e);
    }
  }

  lemma EventFollowsAll(heap: Heap, front: seq<Event>, w: Wire, e: Event)
    requires FollowsAll(heap, front, w) && CanDo(w, e)
    ensures FollowsAll(heap, front + [e], Do(w, e))
  {
    EventFollows(heap, front, w, e, A);
    EventFollows(heap, front, w, e, B);
    assert (front + [e])[..|front|] == front;
  }

  /** The wire before the last event. */
  lemma {:induction false} BeforeLast(w: Wire, events: seq<Event>, w': Wire) returns (m: Wire)
    requires Run(w, events, w') && events != []
    ensures Run(w, events[..|events| - 1], m) && CanDo(m, events[|events| - 1])
    ensures w' == Do(m, events[|events| - 1])
    decreases |events|
  {
    if |events| == 1 {
      m := w;
    } else {
      m := BeforeLast(Do(w, events[0]), events[1..], w');
      assert events[..|events| - 1][1..] == events[1..][..|events| - 2];
    }
  }

  lemma ReadFinds(heap: Heap, before: seq<Event>, w: Wire, e: Event)
    requires FollowsAll(heap, before, w) && CanDo(w, e)
    ensures ReadsTrue(w, e) <==> FindsHanded(heap, before, e)
  {
    if e.Read? { HandedAt(Handed(heap, before, e.at)); }
  }

  lemma {:induction false} RunFollows(heap: Heap, events: seq<Event>, w': Wire)
    requires Run(Wire(heap, IDLE, IDLE), events, w')
    ensures FollowsAll(heap, events, w')
    decreases |events|
  {
    if events == [] {
    } else {
      var front, last := events[..|events| - 1], events[|events| - 1];
      var m := BeforeLast(Wire(heap, IDLE, IDLE), events, w');
      RunFollows(heap, front, m);
      EventFollowsAll(heap, front, m, last);
      assert events == front + [last];
    }
  }

  lemma LastInOrder(heap: Heap, front: seq<Event>, m: Wire, last: Event)
    requires Run(Wire(heap, IDLE, IDLE), front, m) && CanDo(m, last) && Counted(m.toA) && Counted(m.toB)
    ensures Counted(Do(m, last).toA) && Counted(Do(m, last).toB)
    ensures InOrder(Do(m, last).toA) && InOrder(Do(m, last).toB) <==>
      InOrder(m.toA) && InOrder(m.toB) && FindsHanded(heap, front, last)
  {
    RunFollows(heap, front, m);
    ReadFinds(heap, front, m, last);
    EventInOrder(m, last);
  }

  /**
   Exactly which event sequences deliver in order, told from the events alone: those in which nobody changes,
   between the hand-over of a buffer and its read, a part of it that the read takes.
   */
  lemma {:induction false} InOrderFromEvents(heap: Heap, events: seq<Event>, w': Wire)
    requires Run(Wire(heap, IDLE, IDLE), events, w')
    ensures Counted(w'.toA) && Counted(w'.toB)
    ensures InOrder(w'.toA) && InOrder(w'.toB) <==> NoVisibleChange(heap, events)
    decreases |events|
  {
    if events == [] {
    } else {
      var front, last := events[..|events| - 1], events[|events| - 1];
      var m := BeforeLast(Wire(heap, IDLE, IDLE), events, w');
      InOrderFromEvents(heap, front, m);
      LastInOrder(heap, front, m, last);
    }
  }

  // ---- the objects do what the events say ----

  /** The object's queue is that of the direction; buffers go by their names. */
  ghost predicate Models(c: PacketConnPair, names: array<Byte> -> int, heap: Heap, d: Direction)
    reads c, c.ch
  {
    && |c.ch| == |d.queue|
    && forall k :: 0 <= k < |c.ch| ==> names(c.ch[k]) == d.queue[k] && heap(d.queue[k]) == c.ch[k][..]
  }

  method DoWrite(c: PacketConnPair, p: array<Byte>, ghost names: array<Byte> -> int, ghost w: Wire, ghost x: Side)
      returns (blocked: bool)
    requires c.peer != null && Models(c.peer, names, w.heap, w.To(x)) && w.heap(names(p)) == p[..]
    modifies c.peer`ch, c.peer`handed
    ensures blocked <==> !CanDo(w, Write(x, names(p)))
    ensures !blocked ==> c.peer == old(c.peer) && Models(c.peer, names, w.heap, Do(w, Write(x, names(p))).To(x))
  {
    var n;
    blocked, n := c.WriteTo(p);
  }

  method DoRead(c: PacketConnPair, p: array<Byte>, ghost names: array<Byte> -> int, ghost w: Wire, ghost x: Side)
      returns (blocked: bool, n: nat)
    requires Models(c, names, w.heap, w.To(x)) && p !in c.ch
    modifies c`ch, c`handed, p
    ensures blocked <==> !CanDo(w, Read(x, p.Length))
    ensures !blocked ==> n <= p.Length && Models(c, names, w.heap, Do(w, Read(x, p.Length)).To(x))
    ensures !blocked ==> Do(w, Read(x, p.Length)).To(x).got == w.To(x).got + [p[..n]]
  {
    blocked, n := c.ReadFrom(p);
  }

  predicate Concerns(e: Event, x: Side) {
    match e
    case Write(y, _) => y == x
    case Read(y, _) => y == x
    case Overwrite(_, _) => true
  }

  /** The events without the writes and reads of the other direction. */
  function Only(events: seq<Event>, x: Side): seq<Event> {
    if events == [] then []
    else (if Concerns(events[0], x) then [events[0]] else []) + Only(events[1..], x)
  }

  /** Two wires that agree on one direction and on all buffers. */
  ghost predicate Alike(w: Wire, v: Wire, x: Side) { (forall c :: w.heap(c) == v.heap(c)) && w.To(x) == v.To(x) }

  /**
   The directions do not interfere: what one of them comes to in a run is what it comes to without any of
   the other's writes and reads.
   */
  lemma {:induction false} NoInterference(w: Wire, events: seq<Event>, w': Wire, v: Wire, x: Side) returns (v': Wire)
    requires Run(w, events, w') && Alike(w, v, x)
    ensures Run(v, Only(events, x), v') && Alike(w', v', x)
    decreases |events|
  {
    if events == [] {
      v' := v;
    } else {
      var e, rest := events[0], events[1..];
      if Concerns(e, x) {
        v' := NoInterference(Do(w, e), rest, w', Do(v, e), x);
        RunCons(v, e, Only(rest, x), v');
      } else {
        v' := NoInterference(Do(w, e), rest, w', v, x);
        assert [] + Only(rest, x) == Only(rest, x);
      }
    }
  }

  /** A changed buffer arrives changed: write, change, read. */
  lemma ChangedInTransit(bytes: seq<Byte>, other: seq<Byte>)
    requires bytes != other
    ensures var w := Wire(_ => bytes, IDLE, IDLE);
      exists w' :: Run(w, [Write(B, 0), Overwrite(0, other), Read(B, |other|)], w')
        && w'.toB.written == [bytes] && w'.toB.got == [other]
  {
    var w := Wire(_ => bytes, IDLE, IDLE);
    var w1 := Do(w, Write(B, 0));
    var w2 := Do(w1, Overwrite(0, other));
    var w3 := Do(w2, Read(B, |other|));
    RunCons(w2, Read(B, |other|), [], w3);
    RunCons(w1, Overwrite(0, other), [Read(B, |other|)], w3);
    RunCons(w, Write(B, 0), [Overwrite(0, other), Read(B, |other|)], w3);
    assert [Write(B, 0)] + [Overwrite(0, other), Read(B, |other|)]
        == [Write(B, 0), Overwrite(0, other), Read(B, |other|)];
    assert [Overwrite(0, other)] + [Read(B, |other|)] == [Overwrite(0, other), Read(B, |other|)];
    assert w2.toB.queue == [0] && w2.heap(0) == other && Cut(other, |other|) == other;
  }
}
