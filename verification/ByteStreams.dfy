// The network of byte messages over framed streams: what one end sends is written as frames into
// a stream of bytes, which the other end reads in pieces and reassembles.
module ByteStreams {
  import opened Common
  import opened Framing
  import opened ByteRuns
  import P = Protocol
  import W = WrapperModel
  import S = StubModel
  import B = ByteNetwork

  // One direction of a channel: the partial message of the reader and the bytes it has still to
  // read. pending is history: the messages not yet delivered whose frames these bytes make up.
  datatype Pipe = Pipe(partial: Partial, bytes: seq<Byte>, pending: seq<seq<Byte>>)

  // In net, a queue holds the messages that have been delivered and not yet processed.
  datatype Net = Net(net: B.Net, up: P.Link -> Pipe, down: P.Link -> Pipe)

  datatype Action =
    | Do(a: B.Action)                  // a party does something
    | ReadUp(l: P.Link, n: nat)        // the wrapper reads the next n bytes
    | ReadDown(l: P.Link, n: nat)      // the stub does

  // ---------------------------------------------------------------- a party does something

  // The messages a step takes from a channel.
  function TakesUp(a: B.Action, l: P.Link): nat {
    if a.AtWrapper? && a.l == l then 1 else 0
  }

  function TakesDown(a: B.Action, l: P.Link): nat {
    if a.AtStub? && a.l == l then 1 else 0
  }

  function Behind<T>(s: seq<T>, n: nat): seq<T> {
    if n <= |s| then s[n..] else []
  }

  // What a step adds to a channel, behind what it leaves of it.
  ghost function SentUp(b: B.Net, a: B.Action, l: P.Link): seq<seq<Byte>>
    requires B.Can(b, a) && B.Defined(b, a)
  {
    Behind(B.Perform(b, a).up(l), |Behind(b.up(l), TakesUp(a, l))|)
  }

  ghost function SentDown(b: B.Net, a: B.Action, l: P.Link): seq<seq<Byte>>
    requires B.Can(b, a) && B.Defined(b, a)
  {
    Behind(B.Perform(b, a).down(l), |Behind(b.down(l), TakesDown(a, l))|)
  }

  // Messages written into a stream, as frames.
  ghost function Written(bigEndian: bool, p: Pipe, messages: seq<seq<Byte>>): Pipe {
    if AllSendable(messages) then
      p.(bytes := p.bytes + Stream(bigEndian, messages), pending := p.pending + messages)
    else p
  }

  // Every message fits the buffer from which it is written.
  ghost predicate FitAt(b: B.Net, a: B.Action, l: P.Link)
    requires B.Can(b, a) && B.Defined(b, a)
  {
    AllSendable(SentUp(b, a, l)) && AllSendable(SentDown(b, a, l))
  }

  // What is sent goes into the streams instead of the queues.
  ghost function Doing(bigEndian: bool, s: Net, a: B.Action): Net
    requires B.Can(s.net, a) && B.Defined(s.net, a)
  {
    var b := s.net;
    Net(B.Perform(b, a).(up := l => Behind(b.up(l), TakesUp(a, l)), down := l => Behind(b.down(l), TakesDown(a, l))),
        l => Written(bigEndian, s.up(l), SentUp(b, a, l)), l => Written(bigEndian, s.down(l), SentDown(b, a, l)))
  }

  // ---------------------------------------------------------------- reading

  // The next n bytes end at a safe cut of what is pending.
  ghost predicate SafeRead(p: Pipe, n: nat) {
    0 < n <= |p.bytes| && SafeCut(p.pending, Offset(p.partial) + n)
  }

  ghost function Fed(bigEndian: bool, p: Pipe, n: nat): Outcome
    requires n <= |p.bytes|
  {
    Feed(bigEndian, p.partial, p.bytes[..n])
  }

  ghost function AfterRead(bigEndian: bool, p: Pipe, n: nat): Pipe
    requires n <= |p.bytes|
  {
    var o := Fed(bigEndian, p, n);
    Pipe(o.partial, p.bytes[n..], Behind(p.pending, |o.delivered|))
  }

  // ---------------------------------------------------------------- steps and runs

  ghost predicate Can(s: Net, a: Action) {
    match a
    case Do(a) => B.Can(s.net, a) && B.Defined(s.net, a) && forall l :: FitAt(s.net, a, l)
    case ReadUp(l, n) => SafeRead(s.up(l), n)
    case ReadDown(l, n) => SafeRead(s.down(l), n)
  }

  ghost function Perform(bigEndian: bool, s: Net, a: Action): Net
    requires Can(s, a)
  {
    match a
    case Do(a) => Doing(bigEndian, s, a)
    case ReadUp(l, n) =>
      Net(s.net.(up := P.Put(s.net.up, l, s.net.up(l) + Fed(bigEndian, s.up(l), n).delivered)),
          P.Put(s.up, l, AfterRead(bigEndian, s.up(l), n)), s.down)
    case ReadDown(l, n) =>
      Net(s.net.(down := P.Put(s.net.down, l, s.net.down(l) + Fed(bigEndian, s.down(l), n).delivered)),
          s.up, P.Put(s.down, l, AfterRead(bigEndian, s.down(l), n)))
  }

  ghost predicate EmptyPipe(p: Pipe) {
    p == Pipe(Partial([], 0), [], [])
  }

  ghost predicate PipesEmpty(s: Net, l: P.Link) {
    EmptyPipe(s.up(l)) && EmptyPipe(s.down(l))
  }

  datatype Run = Run(nets: seq<Net>, actions: seq<Action>)

  ghost predicate StepAt(bigEndian: bool, r: Run, i: nat)
    requires i < |r.actions| < |r.nets|
  {
    Can(r.nets[i], r.actions[i]) && r.nets[i + 1] == Perform(bigEndian, r.nets[i], r.actions[i])
  }

  // A run whose reads all end at safe cuts.
  ghost predicate IsRun(bigEndian: bool, r: Run) {
    && |r.nets| == |r.actions| + 1 && B.Initial(r.nets[0].net) && (forall l :: PipesEmpty(r.nets[0], l))
    && forall i :: 0 <= i < |r.actions| ==> StepAt(bigEndian, r, i)
  }

  ghost function End(r: Run): Net
    requires r.nets != []
  {
    r.nets[|r.nets| - 1]
  }

  ghost predicate CalmAt(r: Run, i: nat)
    requires i < |r.actions| < |r.nets|
  {
    r.actions[i].Do? ==> B.Calm(r.nets[i].net, r.actions[i].a)
  }

  ghost predicate Uncrowded(r: Run)
    requires |r.nets| == |r.actions| + 1
  {
    forall i :: 0 <= i < |r.actions| ==> CalmAt(r, i)
  }

  // ---------------------------------------------------------------- what flows

  // A queue of messages, of which some have been delivered and the others are in the stream.
  ghost predicate Flows(bigEndian: bool, queue: seq<seq<Byte>>, delivered: seq<seq<Byte>>, p: Pipe) {
    queue == delivered + p.pending && AllSendable(p.pending) && Expects(bigEndian, p.partial, p.pending, p.bytes)
  }

  // Reading at a safe cut delivers the next messages, and leaves the queue as it is.
  lemma ReadFlows(bigEndian: bool, queue: seq<seq<Byte>>, delivered: seq<seq<Byte>>, p: Pipe, n: nat)
    requires Flows(bigEndian, queue, delivered, p) && SafeRead(p, n)
    ensures Flows(bigEndian, queue, delivered + Fed(bigEndian, p, n).delivered, AfterRead(bigEndian, p, n))
  {
    hide Feed, SafeCut, Expects;
    var o := Fed(bigEndian, p, n);
    assert p.bytes == p.bytes[..n] + p.bytes[n..];
    FeedUpTo(bigEndian, p.partial, p.pending, p.bytes[..n], p.bytes[n..]);
    var m := |o.delivered|;
    assert p.pending == p.pending[..m] + p.pending[m..];
    ConcatAssoc(delivered, p.pending[..m], p.pending[m..]);
  }

  lemma {:induction false} StreamAppend(bigEndian: bool, ps: seq<seq<Byte>>, qs: seq<seq<Byte>>)
    requires AllSendable(ps) && AllSendable(qs)
    ensures AllSendable(ps + qs) && Stream(bigEndian, ps + qs) == Stream(bigEndian, ps) + Stream(bigEndian, qs)
  {
    hide Frame;
    if ps == [] {
      assert ps + qs == qs;
    } else {
      assert (ps + qs)[0] == ps[0] && (ps + qs)[1..] == ps[1..] + qs;
      StreamAppend(bigEndian, ps[1..], qs);
      ConcatAssoc(Frame(bigEndian, ps[0]), Stream(bigEndian, ps[1..]), Stream(bigEndian, qs));
    }
  }

  // Frames are written behind those that are on their way.
  lemma WriteFlows(bigEndian: bool, queue: seq<seq<Byte>>, delivered: seq<seq<Byte>>, p: Pipe, messages: seq<seq<Byte>>)
    requires Flows(bigEndian, queue, delivered, p) && AllSendable(messages)
    ensures Flows(bigEndian, queue + messages, delivered, Written(bigEndian, p, messages))
  {
    hide Stream;
    ConcatAssoc(delivered, p.pending, messages);
    if p.partial.expected == 0 {
      StreamAppend(bigEndian, p.pending, messages);
    } else {
      var first, rest := p.pending[0], p.pending[1..];
      StreamAppend(bigEndian, rest, messages);
      assert (p.pending + messages)[0] == first && (p.pending + messages)[1..] == rest + messages;
      ConcatAssoc(first[|p.partial.buffered|..] + [MSG_END], Stream(bigEndian, rest), Stream(bigEndian, messages));
    }
  }

  // A message is taken from those delivered.
  lemma TakeFlows(bigEndian: bool, queue: seq<seq<Byte>>, delivered: seq<seq<Byte>>, p: Pipe, k: nat)
    requires Flows(bigEndian, queue, delivered, p) && k <= |delivered|
    ensures k <= |queue| && Flows(bigEndian, queue[k..], delivered[k..], p)
  {
    hide Expects;
    assert (delivered + p.pending)[k..] == delivered[k..] + p.pending;
  }

  // ---------------------------------------------------------------- the network of messages behind it

  ghost predicate SameStub(m: B.Net, b: B.Net, s: int) {
    m.stubs(s) == b.stubs(s) && m.home(s) == b.home(s)
  }

  ghost predicate SameWrapper(m: B.Net, b: B.Net, w: int) {
    m.wrappers(w) == b.wrappers(w) && m.alive(w) == b.alive(w) && m.dirty(w) == b.dirty(w)
  }

  // The queues of b are the first part of those of m.
  ghost predicate Starts(m: B.Net, b: B.Net, l: P.Link) {
    m.exposed(l) == b.exposed(l) && b.up(l) <= m.up(l) && b.down(l) <= m.down(l)
  }

  ghost predicate SameEnds(m: B.Net, b: B.Net) {
    (forall s :: SameStub(m, b, s)) && (forall w :: SameWrapper(m, b, w))
  }

  // A step of a party takes the same messages and sends the same ones, however long the queues are.
  ghost predicate SameTraffic(m: B.Net, b: B.Net, a: B.Action, l: P.Link)
    requires B.Can(b, a) && B.Defined(b, a) && B.Can(m, a) && B.Defined(m, a)
  {
    var m', b' := B.Perform(m, a), B.Perform(b, a);
    && m'.exposed(l) == b'.exposed(l)
    && m'.up(l) == Behind(m.up(l), TakesUp(a, l)) + SentUp(b, a, l)
    && m'.down(l) == Behind(m.down(l), TakesDown(a, l)) + SentDown(b, a, l)
  }

  lemma SameCan(m: B.Net, b: B.Net, a: B.Action)
    requires SameEnds(m, b) && (forall l :: Starts(m, b, l)) && B.Can(b, a)
    ensures B.Can(m, a) && (B.Defined(m, a) <==> B.Defined(b, a)) && (B.Calm(b, a) <==> B.Calm(m, a))
  {
    hide S.ProcessInput, W.ProcessInput, B.ReturnFits;
    match a {
      case Discover(l) =>
      case Advertise(l) => assert SameWrapper(m, b, l.w);
      case AtStub(l) => assert SameStub(m, b, l.s) && Starts(m, b, l);
      case AtWrapper(l, _) => assert SameWrapper(m, b, l.w) && Starts(m, b, l);
      case SetAttribute(s, _, _, _) => assert SameStub(m, b, s);
      case CallMethod(s, _, _, _) => assert SameStub(m, b, s);
      case Disconnect(s, _) => assert SameStub(m, b, s);
      case LocalWrite(w, _, _) => assert SameWrapper(m, b, w);
      case Publish(w, _) => assert SameWrapper(m, b, w);
      case Quit(w) => assert SameWrapper(m, b, w);
    }
  }

  // The party that acts is the same, and finds the same message.
  ghost predicate SameActor(m: B.Net, b: B.Net, a: B.Action) {
    match a
    case Discover(l) => SameStub(m, b, l.s)
    case Advertise(l) => SameWrapper(m, b, l.w)
    case AtStub(l) => SameStub(m, b, l.s) && b.down(l) != [] && m.down(l) != [] && m.down(l)[0] == b.down(l)[0]
    case AtWrapper(l, _) => SameWrapper(m, b, l.w) && b.up(l) != [] && m.up(l) != [] && m.up(l)[0] == b.up(l)[0]
    case SetAttribute(s, _, _, _) => SameStub(m, b, s)
    case CallMethod(s, _, _, _) => SameStub(m, b, s)
    case Disconnect(s, _) => SameStub(m, b, s)
    case LocalWrite(w, _, _) => SameWrapper(m, b, w)
    case Publish(w, _) => SameWrapper(m, b, w)
    case Quit(w) => SameWrapper(m, b, w)
  }

  lemma ActorIsSame(m: B.Net, b: B.Net, a: B.Action)
    requires SameEnds(m, b) && (forall l :: Starts(m, b, l)) && B.Can(b, a)
    ensures SameActor(m, b, a)
  {
    hide SameStub, SameWrapper, B.ReturnFits;
    if a.AtStub? || a.AtWrapper? {
      assert Starts(m, b, a.l);
    }
  }

  lemma SameStubAfter(m: B.Net, b: B.Net, a: B.Action, s: int)
    requires B.Can(b, a) && B.Defined(b, a) && B.Can(m, a) && B.Defined(m, a) && SameActor(m, b, a) && SameStub(m, b, s)
    ensures SameStub(B.Perform(m, a), B.Perform(b, a), s)
  {
    hide S.ProcessInput, W.ProcessInput, S.SetAttribute, S.PyCall, S.ShutdownModule, W.UpdateAttribute, W.Farewells,
         B.ReturnFits, B.HomeAfter, B.Announces, B.IsExpose;
  }

  lemma SameWrapperAfter(m: B.Net, b: B.Net, a: B.Action, w: int)
    requires B.Can(b, a) && B.Defined(b, a) && B.Can(m, a) && B.Defined(m, a) && SameActor(m, b, a)
    requires SameWrapper(m, b, w)
    ensures SameWrapper(B.Perform(m, a), B.Perform(b, a), w)
  {
    hide S.ProcessInput, W.ProcessInput, S.SetAttribute, S.PyCall, S.ShutdownModule, W.UpdateAttribute, W.Farewells,
         B.ReturnFits;
  }

  predicate FromStub(a: B.Action) {
    a.Discover? || a.AtStub? || a.SetAttribute? || a.CallMethod? || a.Disconnect?
  }

  lemma SameFromStub(m: B.Net, b: B.Net, a: B.Action, l: P.Link)
    requires B.Can(b, a) && B.Defined(b, a) && B.Can(m, a) && B.Defined(m, a) && SameActor(m, b, a) && Starts(m, b, l)
    requires FromStub(a)
    ensures SameTraffic(m, b, a, l)
  {
    hide S.ProcessInput, W.ProcessInput, S.SetAttribute, S.PyCall, S.ShutdownModule, W.UpdateAttribute, W.Farewells,
         B.ReturnFits, B.HomeAfter, B.WrapperMoves;
  }

  lemma SameFromWrapper(m: B.Net, b: B.Net, a: B.Action, l: P.Link)
    requires B.Can(b, a) && B.Defined(b, a) && B.Can(m, a) && B.Defined(m, a) && SameActor(m, b, a) && Starts(m, b, l)
    requires !FromStub(a)
    ensures SameTraffic(m, b, a, l)
  {
    hide S.ProcessInput, W.ProcessInput, S.SetAttribute, S.PyCall, S.ShutdownModule, W.UpdateAttribute, W.Farewells,
         B.ReturnFits, B.Announces, B.StubMoves;
  }

  lemma SameTrafficAt(m: B.Net, b: B.Net, a: B.Action, l: P.Link)
    requires B.Can(b, a) && B.Defined(b, a) && B.Can(m, a) && B.Defined(m, a) && SameActor(m, b, a) && Starts(m, b, l)
    ensures SameTraffic(m, b, a, l)
  {
    hide B.Can, B.Defined, B.Perform, SameTraffic, SameActor, Starts;
    if FromStub(a) {
      SameFromStub(m, b, a, l);
    } else {
      SameFromWrapper(m, b, a, l);
    }
  }

  lemma SameStep(m: B.Net, b: B.Net, a: B.Action)
    requires SameEnds(m, b) && (forall l :: Starts(m, b, l)) && B.Can(b, a) && B.Defined(b, a)
    ensures B.Can(m, a) && B.Defined(m, a) && (B.Calm(b, a) <==> B.Calm(m, a))
    ensures SameEnds(B.Perform(m, a), B.Perform(b, a)) && forall l :: SameTraffic(m, b, a, l)
  {
    hide B.Can, B.Defined, B.Perform, B.Calm, SameStub, SameWrapper, SameActor, SameTraffic;
    SameCan(m, b, a);
    ActorIsSame(m, b, a);
    forall s
      ensures SameStub(B.Perform(m, a), B.Perform(b, a), s)
    {
      SameStubAfter(m, b, a, s);
    }
    forall w
      ensures SameWrapper(B.Perform(m, a), B.Perform(b, a), w)
    {
      SameWrapperAfter(m, b, a, w);
    }
    forall l
      ensures SameTraffic(m, b, a, l)
    {
      SameTrafficAt(m, b, a, l);
    }
  }

  // What the channel of m holds is what the streams of s deliver.
  ghost predicate FlowsAt(bigEndian: bool, m: B.Net, s: Net, l: P.Link) {
    && m.exposed(l) == s.net.exposed(l)
    && Flows(bigEndian, m.up(l), s.net.up(l), s.up(l)) && Flows(bigEndian, m.down(l), s.net.down(l), s.down(l))
  }

  // The network of messages m is behind the network of streams s.
  ghost predicate Behaves(bigEndian: bool, m: B.Net, s: Net) {
    SameEnds(m, s.net) && forall l :: FlowsAt(bigEndian, m, s, l)
  }

  lemma BehavesStarts(bigEndian: bool, m: B.Net, s: Net)
    requires Behaves(bigEndian, m, s)
    ensures forall l :: Starts(m, s.net, l)
  {
    hide SameEnds, Flows;
    forall l
      ensures Starts(m, s.net, l)
    {
      assert FlowsAt(bigEndian, m, s, l);
      FlowsStart(bigEndian, m.up(l), s.net.up(l), s.up(l));
      FlowsStart(bigEndian, m.down(l), s.net.down(l), s.down(l));
    }
  }

  // A party's step in the network of streams is one in the network of messages.
  lemma DoBehaves(bigEndian: bool, m: B.Net, s: Net, a: B.Action)
    requires Behaves(bigEndian, m, s) && Can(s, Do(a))
    ensures B.Can(m, a) && B.Defined(m, a) && (B.Calm(s.net, a) <==> B.Calm(m, a))
    ensures Behaves(bigEndian, B.Perform(m, a), Doing(bigEndian, s, a))
  {
    hide B.Can, B.Defined, B.Perform, B.Calm, SameStub, SameWrapper, Flows, Written, SentUp, SentDown;
    BehavesStarts(bigEndian, m, s);
    SameStep(m, s.net, a);
    var m', s' := B.Perform(m, a), Doing(bigEndian, s, a);
    SameEndsOf(m', B.Perform(s.net, a), s'.net);
    forall l
      ensures FlowsAt(bigEndian, m', s', l)
    {
      assert FlowsAt(bigEndian, m, s, l) && SameTraffic(m, s.net, a, l) && FitAt(s.net, a, l);
      TakesWhatIsThere(s.net, a, l);
      TakeFlows(bigEndian, m.up(l), s.net.up(l), s.up(l), TakesUp(a, l));
      WriteFlows(bigEndian, m.up(l)[TakesUp(a, l)..], s'.net.up(l), s.up(l), SentUp(s.net, a, l));
      TakeFlows(bigEndian, m.down(l), s.net.down(l), s.down(l), TakesDown(a, l));
      WriteFlows(bigEndian, m.down(l)[TakesDown(a, l)..], s'.net.down(l), s.down(l), SentDown(s.net, a, l));
    }
  }

  lemma FlowsStart(bigEndian: bool, queue: seq<seq<Byte>>, delivered: seq<seq<Byte>>, p: Pipe)
    requires Flows(bigEndian, queue, delivered, p)
    ensures delivered <= queue
  {
    hide Expects;
  }

  lemma SameEndsOf(m: B.Net, b: B.Net, b': B.Net)
    requires SameEnds(m, b) && b' == b.(up := b'.up, down := b'.down)
    ensures SameEnds(m, b')
  {
    forall s
      ensures SameStub(m, b', s)
    {
      assert SameStub(m, b, s);
    }
    forall w
      ensures SameWrapper(m, b', w)
    {
      assert SameWrapper(m, b, w);
    }
  }

  lemma TakesWhatIsThere(b: B.Net, a: B.Action, l: P.Link)
    requires B.Can(b, a)
    ensures TakesUp(a, l) <= |b.up(l)| && TakesDown(a, l) <= |b.down(l)|
  {
    hide B.ReturnFits;
  }

  // A read changes nothing in the network of messages.
  lemma ReadBehaves(bigEndian: bool, m: B.Net, s: Net, a: Action)
    requires Behaves(bigEndian, m, s) && Can(s, a) && !a.Do?
    ensures Behaves(bigEndian, m, Perform(bigEndian, s, a))
  {
    hide SameStub, SameWrapper, Flows, SafeRead, Fed, AfterRead;
    var s' := Perform(bigEndian, s, a);
    SameEndsOf(m, s.net, s'.net);
    forall l
      ensures FlowsAt(bigEndian, m, s', l)
    {
      assert FlowsAt(bigEndian, m, s, l);
      if a.l == l {
        if a.ReadUp? {
          ReadFlows(bigEndian, m.up(l), s.net.up(l), s.up(l), a.n);
        } else {
          ReadFlows(bigEndian, m.down(l), s.net.down(l), s.down(l), a.n);
        }
      }
    }
  }

  // ---------------------------------------------------------------- every run

  lemma EmptyFlows(bigEndian: bool, s: Net)
    requires B.Initial(s.net) && forall l :: PipesEmpty(s, l)
    ensures Behaves(bigEndian, s.net, s)
  {
    hide B.WrapperFresh, B.StubFresh;
    forall l
      ensures FlowsAt(bigEndian, s.net, s, l)
    {
      assert PipesEmpty(s, l) && B.LinkFresh(s.net, l);
      assert Stream(bigEndian, []) == [];
    }
    forall i
      ensures SameStub(s.net, s.net, i) && SameWrapper(s.net, s.net, i)
    {
    }
  }

  // The first k steps.
  lemma {:induction false} PrefixBehaves(bigEndian: bool, r: Run, k: nat) returns (m: B.Run)
    requires IsRun(bigEndian, r) && Uncrowded(r) && k < |r.nets|
    ensures B.IsRun(m) && B.Uncrowded(m) && B.Start(m) == r.nets[0].net && Behaves(bigEndian, B.End(m), r.nets[k])
    decreases k
  {
    hide Behaves, B.Initial, B.Can, B.Defined, B.Perform, B.Calm;
    if k == 0 {
      EmptyFlows(bigEndian, r.nets[0]);
      m := B.Run([r.nets[0].net], []);
    } else {
      var before := PrefixBehaves(bigEndian, r, k - 1);
      assert StepAt(bigEndian, r, k - 1) && CalmAt(r, k - 1);
      var s, a := r.nets[k - 1], r.actions[k - 1];
      if a.Do? {
        DoBehaves(bigEndian, B.End(before), s, a.a);
        m := Extended(before, a.a);
      } else {
        ReadBehaves(bigEndian, B.End(before), s, a);
        m := before;
      }
    }
  }

  // A run goes on.
  lemma Extended(r: B.Run, a: B.Action) returns (r': B.Run)
    requires B.IsRun(r) && B.Uncrowded(r)
    requires B.Can(B.End(r), a) && B.Defined(B.End(r), a) && B.Calm(B.End(r), a)
    ensures B.IsRun(r') && B.Uncrowded(r') && B.Start(r') == B.Start(r) && B.End(r') == B.Perform(B.End(r), a)
  {
    hide B.Initial, B.Can, B.Defined, B.Perform, B.Calm;
    r' := B.Run(r.nets + [B.Perform(B.End(r), a)], r.actions + [a]);
    forall i | 0 <= i < |r'.actions|
      ensures B.StepAt(r', i) && B.CalmAt(r', i)
    {
      if i < |r.actions| {
        assert B.StepAt(r, i) && B.CalmAt(r, i);
      }
    }
  }

  // However the streams are cut into reads, as long as each read ends at a safe cut, a run over
  // streams is a run over whole messages: the same states at all ends, and each channel holds
  // what has been delivered and what its stream will still deliver.
  lemma StreamsCarryMessages(bigEndian: bool, r: Run) returns (m: B.Run)
    requires IsRun(bigEndian, r) && Uncrowded(r)
    ensures B.IsRun(m) && B.Uncrowded(m) && B.Start(m) == r.nets[0].net && Behaves(bigEndian, B.End(m), End(r))
  {
    m := PrefixBehaves(bigEndian, r, |r.actions|);
  }

  // After every such run, whatever a party does next stays within its message and its containers.
  lemma StepsOverStreamsAreDefined(bigEndian: bool, r: Run, a: B.Action)
    requires IsRun(bigEndian, r) && Uncrowded(r) && B.Can(End(r).net, a) && B.Calm(End(r).net, a)
    ensures B.Defined(End(r).net, a)
  {
    hide B.IsRun, B.Uncrowded, B.Initial, StepAt, Uncrowded, B.Perform, B.Can, B.Defined, B.Calm, SameEnds, Flows;
    var m := StreamsCarryMessages(bigEndian, r);
    BehavesStarts(bigEndian, B.End(m), End(r));
    SameCan(B.End(m), End(r).net, a);
    EveryStepIsDefined(m, a);
  }

  // What channel l holds, in either direction: messages delivered and not yet processed, and
  // messages that are still in the stream.
  function OnTheWayUp(s: Net, l: P.Link): seq<seq<Byte>> {
    s.net.up(l) + s.up(l).pending
  }

  function OnTheWayDown(s: Net, l: P.Link): seq<seq<Byte>> {
    s.net.down(l) + s.down(l).pending
  }

  // The module at place i belongs to a running wrapper, and nothing about its attribute k is on
  // its way in either direction.
  ghost predicate Settled(s: Net, l: P.Link, i: nat, k: nat) {
    && 0 <= l.s < 16 && B.Few(s.net, l.s) && s.net.alive(l.w)
    && i < |s.net.stubs(l.s).modules| && B.HomeOf(s.net.home(l.s), s.net.stubs(l.s).modules[i].id) == l.w
    && (forall m :: m in OnTheWayUp(s, l) ==> !Concerns(m, s.net.stubs(l.s).modules[i].id, k))
    && (forall m :: m in OnTheWayDown(s, l) ==> !Changes(m, s.net.stubs(l.s).modules[i].id, k))
  }

  lemma SettledIsQuiet(bigEndian: bool, m: B.Net, s: Net, l: P.Link, i: nat, k: nat)
    requires Behaves(bigEndian, m, s) && Settled(s, l, i, k)
    ensures Quiet(m, l, i, k) && B.Few(m, l.s) && SameStub(m, s.net, l.s) && SameWrapper(m, s.net, l.w)
  {
    hide Expects, Concerns, Changes;
    assert FlowsAt(bigEndian, m, s, l) && SameStub(m, s.net, l.s) && SameWrapper(m, s.net, l.w);
  }

  // So the objects in Python are coherent over streams: with nothing about an attribute on its
  // way, the object of the wrapper's module shows it, if the program has announced it.
  lemma CoherentOverStreams(bigEndian: bool, r: Run, l: P.Link, i: nat, k: nat)
    requires IsRun(bigEndian, r) && Uncrowded(r) && Settled(End(r), l, i, k)
    requires k < |End(r).net.wrappers(l.w).attributes| && k !in End(r).net.dirty(l.w)
    ensures Shows(End(r).net, l, i, k)
  {
    hide B.IsRun, B.Uncrowded, B.Initial, StepAt, Uncrowded, Behaves;
    var m := StreamsCarryMessages(bigEndian, r);
    SettledIsQuiet(bigEndian, B.End(m), End(r), l, i, k);
    ObjectsAreCoherent(m, l, i, k);
  }

  predicate ReadUpToEnd(p: Pipe) {
    p.bytes == [] && p.partial.expected == 0
  }

  // Once all bytes of a stream have been read and no message is begun, it holds none.
  lemma ReadToTheEnd(bigEndian: bool, r: Run, l: P.Link)
    requires IsRun(bigEndian, r) && Uncrowded(r)
    ensures ReadUpToEnd(End(r).up(l)) ==> OnTheWayUp(End(r), l) == End(r).net.up(l)
    ensures ReadUpToEnd(End(r).down(l)) ==> OnTheWayDown(End(r), l) == End(r).net.down(l)
  {
    hide B.IsRun, B.Uncrowded, B.Initial, StepAt, Uncrowded, SameEnds, Flows;
    var m := StreamsCarryMessages(bigEndian, r);
    var s := End(r);
    assert FlowsAt(bigEndian, B.End(m), s, l);
    NothingPending(bigEndian, B.End(m).up(l), s.net.up(l), s.up(l));
    NothingPending(bigEndian, B.End(m).down(l), s.net.down(l), s.down(l));
    assert s.net.up(l) + [] == s.net.up(l) && s.net.down(l) + [] == s.net.down(l);
  }

  lemma NothingPending(bigEndian: bool, queue: seq<seq<Byte>>, delivered: seq<seq<Byte>>, p: Pipe)
    requires Flows(bigEndian, queue, delivered, p)
    ensures ReadUpToEnd(p) ==> p.pending == []
  {
  }
}
