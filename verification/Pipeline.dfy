/**
 Client, agent and server as concurrent processes with a queue between each two of them: what the client
 writes is forwarded, answered, returned and read. Every process takes one item at a time from its queue.
 */
module Pipeline {
  import opened Sums

  /**
   What each process makes of one item. crash says which items the returning process does not survive; depth
   is the capacity of the two queues between client and agent, the others are unbounded.
   */
  datatype Stages<!T> = Stages(
    forward: T -> seq<T>, answer: T -> seq<T>, back: T -> seq<T>, read: T -> seq<T>,
    crash: T -> bool, depth: nat)

  /**
   sent and delivered: what the client has written and read so far. returned: what the agent took from the
   server's side. A crash takes the whole program down.
   */
  datatype Line<T> = Line(
    sent: seq<T>, access: seq<T>, up: seq<T>, down: seq<T>, returned: seq<T>, home: seq<T>, delivered: seq<T>,
    crashed: bool)

  datatype Hop<T> = Write(x: T) | Forward | Answer | Back | Read

  function Start<T>(): Line<T> { Line([], [], [], [], [], [], [], false) }

  predicate CanHop<T>(g: Stages<T>, l: Line<T>, h: Hop<T>) {
    && !l.crashed
    && match h
       case Write(_) => |l.access| < g.depth
       case Forward => l.access != []
       case Answer => l.up != []
       case Back => l.down != [] && |l.home| < g.depth
       case Read => l.home != []
  }

  function DoHop<T>(g: Stages<T>, l: Line<T>, h: Hop<T>): Line<T>
    requires CanHop(g, l, h)
  {
    match h
    case Write(x) => l.(sent := l.sent + [x], access := l.access + [x])
    case Forward => l.(access := l.access[1..], up := l.up + g.forward(l.access[0]))
    case Answer => l.(up := l.up[1..], down := l.down + g.answer(l.up[0]))
    case Back =>
      if g.crash(l.down[0]) then l.(crashed := true)
      else l.(down := l.down[1..], returned := l.returned + [l.down[0]], home := l.home + g.back(l.down[0]))
    case Read => l.(home := l.home[1..], delivered := l.delivered + g.read(l.home[0]))
  }

  ghost predicate Run<T(!new)>(g: Stages<T>, l: Line<T>, hops: seq<Hop<T>>, l': Line<T>)
    decreases |hops|
  {
    if hops == [] then l == l'
    else CanHop(g, l, hops[0]) && Run(g, DoHop(g, l, hops[0]), hops[1..], l')
  }

  // ---- what waits at a process, and what will come to wait there ----

  function Via<T>(f: T -> seq<T>, here: seq<T>, before: seq<T>): seq<T> { here + Gather(f, before) }

  function ToServer<T>(g: Stages<T>, l: Line<T>): seq<T> { Via(g.forward, l.up, l.access) }

  function ToAgent<T>(g: Stages<T>, l: Line<T>): seq<T> { Via(g.answer, l.down, ToServer(g, l)) }

  function ToClient<T>(g: Stages<T>, l: Line<T>): seq<T> { Via(g.back, l.home, ToAgent(g, l)) }

  /** What the client has read when everything under way has arrived. */
  function InTheEnd<T>(g: Stages<T>, l: Line<T>): seq<T> { Via(g.read, l.delivered, ToClient(g, l)) }

  /** The answers of the server to what the client wrote, and what the client is to read of them. */
  function Answers<T>(g: Stages<T>, sent: seq<T>): seq<T> { Gather(g.answer, Gather(g.forward, sent)) }

  function Outcome<T>(g: Stages<T>, sent: seq<T>): seq<T> { Gather(g.read, Gather(g.back, Answers(g, sent))) }

  /** How many hops it takes to drain the line. */
  function Remaining<T>(g: Stages<T>, l: Line<T>): nat {
    |l.access| + |ToServer(g, l)| + |ToAgent(g, l)| + |ToClient(g, l)|
  }

  ghost predicate Inv<T(!new)>(g: Stages<T>, l: Line<T>) {
    && InTheEnd(g, l) == Outcome(g, l.sent)
    && l.returned + ToAgent(g, l) == Answers(g, l.sent)
    && NoneOf(g.crash, l.returned)
    && (l.crashed ==> l.down != [] && g.crash(l.down[0]))
    && |l.access| <= g.depth && |l.home| <= g.depth
  }

  /** A process takes the first item of its queue and passes on what it makes of it. */
  lemma Passes<T>(f: T -> seq<T>, here: seq<T>, before: seq<T>)
    requires before != []
    ensures Via(f, here + f(before[0]), before[1..]) == Via(f, here, before)
  {
    assert Gather(f, before) == f(before[0]) + Gather(f, before[1..]);
  }

  /** Items that come to wait further back. */
  lemma Follows<T>(f: T -> seq<T>, here: seq<T>, before: seq<T>, more: seq<T>)
    ensures Via(f, here, before + more) == Via(f, here, before) + Gather(f, more)
  {
    GatherConcat(f, before, more);
  }

  /** The first item leaves. */
  lemma Leaves<T>(f: T -> seq<T>, here: seq<T>, before: seq<T>)
    requires here != []
    ensures Via(f, here[1..], before) == Via(f, here, before)[1..] && Via(f, here, before)[0] == here[0]
  {}

  /** Everything that waits waits a place further on, or has been written. */
  lemma {:induction false} WriteShifts<T>(g: Stages<T>, l: Line<T>, x: T)
    requires CanHop(g, l, Write(x))
    ensures var l', news := DoHop(g, l, Write(x)), Gather(g.forward, [x]);
      && ToServer(g, l') == ToServer(g, l) + news
      && ToAgent(g, l') == ToAgent(g, l) + Answers(g, [x])
      && InTheEnd(g, l') == InTheEnd(g, l) + Outcome(g, [x])
  {
    var news := Gather(g.forward, [x]);
    Follows(g.forward, l.up, l.access, [x]);
    Follows(g.answer, l.down, ToServer(g, l), news);
    Follows(g.back, l.home, ToAgent(g, l), Answers(g, [x]));
    Follows(g.read, l.delivered, ToClient(g, l), Gather(g.back, Answers(g, [x])));
  }

  lemma OutcomeConcat<T>(g: Stages<T>, a: seq<T>, b: seq<T>)
    ensures Answers(g, a + b) == Answers(g, a) + Answers(g, b)
    ensures Outcome(g, a + b) == Outcome(g, a) + Outcome(g, b)
  {
    GatherConcat(g.forward, a, b);
    GatherConcat(g.answer, Gather(g.forward, a), Gather(g.forward, b));
    GatherConcat(g.back, Answers(g, a), Answers(g, b));
    GatherConcat(g.read, Gather(g.back, Answers(g, a)), Gather(g.back, Answers(g, b)));
  }

  lemma WriteKeeps<T(!new)>(g: Stages<T>, l: Line<T>, x: T)
    requires CanHop(g, l, Write(x)) && Inv(g, l)
    ensures Inv(g, DoHop(g, l, Write(x)))
  {
    WriteShifts(g, l, x);
    OutcomeConcat(g, l.sent, [x]);
    Assoc(l.returned, ToAgent(g, l), Answers(g, [x]));
  }

  /** A hop other than a write moves one item one place; what comes out in the end stays the same. */
  lemma Moves<T(!new)>(g: Stages<T>, l: Line<T>, h: Hop<T>)
    requires CanHop(g, l, h) && !h.Write? && !DoHop(g, l, h).crashed
    ensures var l' := DoHop(g, l, h);
      && InTheEnd(g, l') == InTheEnd(g, l)
      && l'.returned + ToAgent(g, l') == l.returned + ToAgent(g, l)
      && Remaining(g, l') == Remaining(g, l) - 1
  {
    match h
    case Forward => Passes(g.forward, l.up, l.access);
    case Answer =>
      Leaves(g.forward, l.up, l.access);
      Passes(g.answer, l.down, ToServer(g, l));
    case Back =>
      Leaves(g.answer, l.down, ToServer(g, l));
      Passes(g.back, l.home, ToAgent(g, l));
      Assoc(l.returned, [l.down[0]], ToAgent(g, l)[1..]);
    case Read =>
      Leaves(g.back, l.home, ToAgent(g, l));
      Passes(g.read, l.delivered, ToClient(g, l));
  }

  lemma HopKeeps<T(!new)>(g: Stages<T>, l: Line<T>, h: Hop<T>)
    requires CanHop(g, l, h) && Inv(g, l) && forall x :: |g.back(x)| <= 1
    ensures Inv(g, DoHop(g, l, h))
  {
    match h
    case Write(x) => WriteKeeps(g, l, x);
    case _ => if !DoHop(g, l, h).crashed { Moves(g, l, h); }
  }

  lemma {:induction false} RunKeeps<T(!new)>(g: Stages<T>, l: Line<T>, hops: seq<Hop<T>>, l': Line<T>)
    requires Run(g, l, hops, l') && Inv(g, l) && forall x :: |g.back(x)| <= 1
    ensures Inv(g, l')
    decreases |hops|
  {
    if hops == [] {
    } else {
      HopKeeps(g, l, hops[0]);
      RunKeeps(g, DoHop(g, l, hops[0]), hops[1..], l');
    }
  }

  ghost predicate Quiet<T(!new)>(g: Stages<T>, l: Line<T>) {
    forall h :: CanHop(g, l, h) ==> h.Write?
  }

  /**
   Every interleaving: what the client has read is a prefix of what it is to read, the queues of the packet
   pair stay within their capacity, and a crash is due to the first answer the agent does not survive.
   */
  lemma RunLaw<T(!new)>(g: Stages<T>, hops: seq<Hop<T>>, l: Line<T>)
    requires Run(g, Start(), hops, l) && forall x :: |g.back(x)| <= 1
    ensures l.delivered <= Outcome(g, l.sent)
    ensures |l.access| <= g.depth && |l.home| <= g.depth
    ensures l.returned <= Answers(g, l.sent) && NoneOf(g.crash, l.returned)
    ensures l.crashed ==>
      |l.returned| < |Answers(g, l.sent)| && g.crash(Answers(g, l.sent)[|l.returned|])
  {
    RunKeeps(g, Start(), hops, l);
  }

  /** A line on which nothing can move without a further write has crashed, or delivered everything. */
  lemma RunEnd<T(!new)>(g: Stages<T>, hops: seq<Hop<T>>, l: Line<T>)
    requires Run(g, Start(), hops, l) && Quiet(g, l) && g.depth > 0 && forall x :: |g.back(x)| <= 1
    ensures l.crashed <==> !NoneOf(g.crash, Answers(g, l.sent))
    ensures !l.crashed ==> l.delivered == Outcome(g, l.sent) && Remaining(g, l) == 0
  {
    RunKeeps(g, Start(), hops, l);
    RunLaw(g, hops, l);
    if !l.crashed {
      assert !CanHop(g, l, Forward) && !CanHop(g, l, Answer) && !CanHop(g, l, Back) && !CanHop(g, l, Read);
      assert l.returned == Answers(g, l.sent);
    }
  }

  /** No run of the line goes on for ever without further writes. */
  lemma {:induction false} RunsDrain<T(!new)>(g: Stages<T>, l: Line<T>, hops: seq<Hop<T>>, l': Line<T>)
    requires Run(g, l, hops, l') && forall k :: 0 <= k < |hops| ==> !hops[k].Write?
    ensures !l'.crashed ==> Remaining(g, l') + |hops| == Remaining(g, l)
    ensures |hops| <= Remaining(g, l)
    decreases |hops|
  {
    if hops == [] {
    } else {
      var m := DoHop(g, l, hops[0]);
      if m.crashed {
        assert hops[1..] == [];
      } else {
        Moves(g, l, hops[0]);
        RunsDrain(g, m, hops[1..], l');
      }
    }
  }
}
