// The queues of byte messages between a stub and a wrapper, and the messages of the protocol
// machine that they stand for.
module ByteQueues {
  import opened Common
  import opened Messages
  import opened Calls
  import opened Refinement
  import P = Protocol
  import W = WrapperModel
  import S = StubModel

  // ---------------------------------------------------------------- a wrapper's shape

  function WithValues(attrs: seq<Attribute>, values: seq<Value>): (r: seq<Attribute>)
    requires |values| == |attrs|
    ensures |r| == |attrs| && forall i :: 0 <= i < |r| ==> r[i] == attrs[i].(value := values[i])
  {
    seq(|attrs|, i requires 0 <= i < |attrs| => attrs[i].(value := values[i]))
  }

  // The wrapper with other values.
  function Shown(w: W.Wrapper, values: seq<Value>): W.Wrapper
    requires |values| == |w.attributes|
  {
    w.(attributes := WithValues(w.attributes, values))
  }

  // w publishes what base published, with values of its own.
  ghost predicate SameShape(base: W.Wrapper, w: W.Wrapper) {
    && |w.attributes| == |base.attributes| && w.attributes == WithValues(base.attributes, Values(w.attributes))
    && w.name == base.name && w.desc == base.desc && w.leftToRight == base.leftToRight && w.methods == base.methods
  }

  lemma KeptShape(base: W.Wrapper, w: W.Wrapper, w': W.Wrapper)
    requires SameShape(base, w) && W.Keeps(w, w')
    ensures SameShape(base, w')
  {
    var attrs := WithValues(base.attributes, Values(w'.attributes));
    forall i | 0 <= i < |attrs|
      ensures attrs[i] == w'.attributes[i]
    {
      assert w.attributes[i] == base.attributes[i].(value := w.attributes[i].value);
    }
  }

  // ---------------------------------------------------------------- the queue to a wrapper

  // A value that attribute k can take and the encoding can carry.
  predicate Carriable(base: W.Wrapper, k: nat, value: Value) {
    k < |base.attributes| && HasType(value, base.attributes[k].t) && Wireable(value)
  }

  // A method call, which the machine leaves out.
  ghost predicate IsCallOf(base: W.Wrapper, s: int, message: seq<Byte>, noCallback: bool, id: Byte, j: nat,
                           values: seq<Value>)
  {
    && j < |base.methods| && Typed(W.ArgTypes(base.methods[j]), values)
    && message == CallMessage(if noCallback then CALL_ATTR_METD_NOCB else CALL_ATTR_METD, s, id, |base.attributes| + j,
                              S.PackArgs(values, base.leftToRight))
  }

  ghost predicate IsCall(base: W.Wrapper, s: int, message: seq<Byte>) {
    exists noCallback, id: Byte, j: nat, values :: IsCallOf(base, s, message, noCallback, id, j, values)
  }

  // Message m of the machine, as stub s sends it.
  ghost predicate IsUp(base: W.Wrapper, s: int, message: seq<Byte>, m: P.Up) {
    && UpFits(base, m) && |message| >= 2
    && message == UpBytes(s, m, message[0] / 16 == CALL_ATTR_METD_NOCB, message[1])
  }

  ghost predicate UpMatches(base: W.Wrapper, s: int, queue: seq<seq<Byte>>, ms: seq<P.Up>) {
    if queue == [] then ms == []
    else
      || (IsCall(base, s, queue[0]) && UpMatches(base, s, queue[1..], ms))
      || (ms != [] && IsUp(base, s, queue[0], ms[0]) && UpMatches(base, s, queue[1..], ms[1..]))
  }

  lemma {:induction false} UpAppend(base: W.Wrapper, s: int, queue: seq<seq<Byte>>, ms: seq<P.Up>,
                                    queue2: seq<seq<Byte>>, ms2: seq<P.Up>)
    requires UpMatches(base, s, queue, ms) && UpMatches(base, s, queue2, ms2)
    ensures UpMatches(base, s, queue + queue2, ms + ms2)
  {
    hide IsCall, IsUp;
    if queue == [] {
      assert queue + queue2 == queue2 && ms + ms2 == ms2;
    } else {
      assert (queue + queue2)[0] == queue[0] && (queue + queue2)[1..] == queue[1..] + queue2;
      if IsCall(base, s, queue[0]) && UpMatches(base, s, queue[1..], ms) {
        UpAppend(base, s, queue[1..], ms, queue2, ms2);
      } else {
        assert (ms + ms2)[0] == ms[0] && (ms + ms2)[1..] == ms[1..] + ms2;
        UpAppend(base, s, queue[1..], ms[1..], queue2, ms2);
      }
    }
  }

  lemma UpOne(base: W.Wrapper, s: int, message: seq<Byte>, ms: seq<P.Up>)
    requires if ms == [] then IsCall(base, s, message) else |ms| == 1 && IsUp(base, s, message, ms[0])
    ensures UpMatches(base, s, [message], ms)
  {
    hide IsCall, IsUp;
    assert [message][1..] == [];
    assert UpMatches(base, s, [], []);
    if ms != [] {
      assert ms[1..] == [];
    }
  }

  // ---------------------------------------------------------------- the queue to a stub

  // The last id that will have been exposed.
  function Done(ms: seq<P.Down>, id: int): int
    decreases |ms|
  {
    if ms == [] then id else Done(ms[1..], NextDone(id, ms[0]))
  }

  function NextDone(id: int, m: P.Down): int {
    if m.Expose? then m.id else id
  }

  // Message m of the machine can be sent: texts fit, values are of their attribute's type, an id is
  // exposed once, after all earlier ones, and updates are for the id exposed last, or for none.
  ghost predicate DownFit(base: W.Wrapper, m: P.Down, done: int) {
    match m
    case DeclareModule(name) => ShortName(name) && LongText(base.desc)
    case Expose(id, values) =>
      done < id && |values| == |base.attributes| && Publishable(WithValues(base.attributes, values), base.methods)
    case Update(id, note) => Carriable(base, note.index, note.value) && (id == done || id == P.IdByte(UNASSIGNED))
    case ModuleShutdown(_) => true
  }

  // A wrapper that sends m.
  function Sender(base: W.Wrapper, m: P.Down): W.Wrapper {
    if m.Expose? && |m.values| == |base.attributes| then Shown(base, m.values) else base
  }

  ghost predicate IsDown(base: W.Wrapper, message: seq<Byte>, m: P.Down, done: int) {
    message != [] && DownFit(base, m, done) && message == Received(Sender(base, m), message[0] % 16, m)
  }

  // DESC for the module that was exposed last.
  ghost predicate IsDesc(base: W.Wrapper, message: seq<Byte>, done: int) {
    message != [] && message == DescMessage(message[0] % 16, done, base.attributes, base.methods)
  }

  // The answer to a method call.
  ghost predicate IsReplyOf(base: W.Wrapper, message: seq<Byte>, done: int, j: nat, err: Byte, v: Value) {
    && message != [] && j < |base.methods| && err < 16
    && (if err == 0 then Returns(base.methods[j], v) else v == NoneVal)
    && message == RespMessage(ATTR_METD_RESP, message[0] % 16, done, err, |base.attributes| + j, PackValue(v))
  }

  ghost predicate IsReply(base: W.Wrapper, message: seq<Byte>, done: int) {
    exists j: nat, err: Byte, v :: IsReplyOf(base, message, done, j, err, v)
  }

  // A message that the machine leaves out.
  ghost predicate Stutter(base: W.Wrapper, message: seq<Byte>, done: int) {
    IsDesc(base, message, done) || IsReply(base, message, done)
  }

  ghost predicate DownMatches(base: W.Wrapper, queue: seq<seq<Byte>>, ms: seq<P.Down>, done: int) {
    if queue == [] then ms == []
    else
      || (Stutter(base, queue[0], done) && DownMatches(base, queue[1..], ms, done))
      || (&& ms != [] && IsDown(base, queue[0], ms[0], done)
          && DownMatches(base, queue[1..], ms[1..], NextDone(done, ms[0])))
  }

  lemma {:induction false} DownAppend(base: W.Wrapper, queue: seq<seq<Byte>>, ms: seq<P.Down>, done: int,
                                      queue2: seq<seq<Byte>>, ms2: seq<P.Down>)
    requires DownMatches(base, queue, ms, done) && DownMatches(base, queue2, ms2, Done(ms, done))
    ensures DownMatches(base, queue + queue2, ms + ms2, done)
    ensures Done(ms + ms2, done) == Done(ms2, Done(ms, done))
  {
    hide Stutter, IsDown, NextDone;
    if queue == [] {
      assert queue + queue2 == queue2 && ms + ms2 == ms2;
    } else {
      assert (queue + queue2)[0] == queue[0] && (queue + queue2)[1..] == queue[1..] + queue2;
      if Stutter(base, queue[0], done) && DownMatches(base, queue[1..], ms, done) {
        DownAppend(base, queue[1..], ms, done, queue2, ms2);
      } else {
        assert (ms + ms2)[0] == ms[0] && (ms + ms2)[1..] == ms[1..] + ms2;
        DownAppend(base, queue[1..], ms[1..], NextDone(done, ms[0]), queue2, ms2);
      }
    }
  }

  lemma DownOne(base: W.Wrapper, message: seq<Byte>, ms: seq<P.Down>, done: int)
    requires if ms == [] then Stutter(base, message, done) else |ms| == 1 && IsDown(base, message, ms[0], done)
    ensures DownMatches(base, [message], ms, done)
  {
    hide Stutter, IsDown;
    assert [message][1..] == [];
    assert forall d :: DownMatches(base, [], [], d);
    if ms != [] {
      assert ms[1..] == [];
    }
  }

  // What a wrapper sends for one message of the machine.
  lemma SentMatches(base: W.Wrapper, w: W.Wrapper, s: int, m: P.Down, done: int)
    requires SameShape(base, w) && 0 <= s < 16 && DownFit(base, m, done)
    requires m.Expose? ==> m.values == Values(w.attributes)
    ensures DownMatches(base, AllDownBytes(w, s, [m]), [m], done)
  {
    hide Publishable, DownBytes;
    var queue := AllDownBytes(w, s, [m]);
    OneReply(w, s, m);
    HeaderOf(w, s, m);
    SameBytes(base, w, s, m);
    assert queue[0] in queue;
    if m.Expose? {
      assert queue[1] in queue;
      assert queue == [queue[0]] + [queue[1]] && [m] + [] == [m];
      SameDesc(base, w, s, m.id);
      DownOne(base, queue[0], [m], done);
      DownOne(base, queue[1], [], m.id);
      assert [m][1..] == [];
      DownAppend(base, [queue[0]], [m], done, [queue[1]], []);
    } else {
      assert queue == [queue[0]];
      DownOne(base, queue[0], [m], done);
    }
  }

  lemma SameBytes(base: W.Wrapper, w: W.Wrapper, s: int, m: P.Down)
    requires SameShape(base, w) && (m.Expose? ==> m.values == Values(w.attributes))
    ensures DownBytes(w, s, m) == DownBytes(Sender(base, m), s, m)
  {
    hide ExposeMessage, DescMessage, DeclareMessage, UpdateBytes, Header;
  }

  lemma HeaderOf(w: W.Wrapper, s: int, m: P.Down)
    requires 0 <= s < 16
    ensures |DownBytes(w, s, m)| == if m.Expose? then 2 else 1
    ensures m.Expose? ==> DownBytes(w, s, m)[1] == DescMessage(s, m.id, w.attributes, w.methods)
    ensures forall b :: b in DownBytes(w, s, m) ==> b != [] && b[0] % 16 == s
  {
    hide ExposeBody, DescBody, CallBody, PackShortString, PackLongString;
  }

  lemma SameDesc(base: W.Wrapper, w: W.Wrapper, s: int, id: int)
    requires SameShape(base, w)
    ensures DescMessage(s, id, w.attributes, w.methods) == DescMessage(s, id, base.attributes, base.methods)
  {
    SameDescs(base.attributes, w.attributes);
  }

  lemma {:induction false} SameDescs(attrs: seq<Attribute>, attrs': seq<Attribute>)
    requires |attrs| == |attrs'| && forall i :: 0 <= i < |attrs| ==> attrs'[i].desc == attrs[i].desc
    ensures Flatten(AttributeDesc, attrs') == Flatten(AttributeDesc, attrs)
  {
    if attrs != [] {
      SameDescs(attrs[1..], attrs'[1..]);
    }
  }
}
