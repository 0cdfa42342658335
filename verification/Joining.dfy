// A wrapper that advertises itself to a stub is registered there, and its module mirrored.
module Joining {
  import opened Common
  import opened Messages
  import opened Calls
  import opened Refinement
  import opened WrapperSteps
  import opened ByteRuns
  import P = Protocol
  import W = WrapperModel
  import S = StubModel
  import B = ByteNetwork

  // What there is at the two ends of channel l and on it; the module is the only one of the stub.
  ghost predicate Stands(b: B.Net, l: P.Link, st: S.Stub, w: W.Wrapper, up: seq<seq<Byte>>, down: seq<seq<Byte>>) {
    b.stubs(l.s) == st && b.wrappers(l.w) == w && b.alive(l.w) && b.up(l) == up && b.down(l) == down
  }

  function Declaration(w: W.Wrapper): seq<Byte> {
    DeclareMessage(0, W.OptionByte(w.leftToRight), w.name, w.desc)
  }

  // The broadcast of the wrapper arrives.
  lemma Advertised(b: B.Net, l: P.Link) returns (b': B.Net)
    requires B.Initial(b) && 0 <= l.s < 16
    ensures B.Step(b, B.Advertise(l), b')
    ensures Stands(b', l, b.stubs(l.s), b.wrappers(l.w), [], [Declaration(b.wrappers(l.w))])
    ensures b'.home(l.s) == map[] && b'.dirty == b.dirty
  {
    hide B.Fit;
    assert B.StubFresh(b, l.s) && B.WrapperFresh(b, l.w) && B.LinkFresh(b, l);
    b' := B.AdvertiseOn(b, l);
    assert [] + [Declaration(b.wrappers(l.w))] == [Declaration(b.wrappers(l.w))];
  }

  // The stub takes it for a new module, and assigns an id.
  lemma Declared(b: B.Net, l: P.Link, st: S.Stub, w: W.Wrapper) returns (b': B.Net)
    requires Stands(b, l, st, w, [], [Declaration(w)]) && 0 <= l.s < 16 && b.home(l.s) == map[]
    requires st.serverId == l.s && st.modules == [] && st.nextObjId == 1
    requires w.name != [] && ShortName(w.name) && LongText(w.desc)
    ensures B.Step(b, B.AtStub(l), b')
    ensures var o := S.NewObject(1, w.name, w.desc, W.OptionByte(w.leftToRight));
            var assign := AssignMessage(l.s, 1, w.name);
            && Stands(b', l, st.(modules := [o], nextObjId := 2, sent := st.sent + [assign]), w, [assign], [])
            && b'.home(l.s) == map[1 := l.w] && b'.dirty == b.dirty
  {
    hide S.ProcessInput, ShortName, LongText, AssignMessage, DeclareMessage;
    DeclareProcessed(st, 0, W.OptionByte(w.leftToRight), w.name, w.desc);
    b' := B.StubStepOn(b, l);
    var assign := AssignMessage(l.s, 1, w.name);
    assert B.Since(st.sent, st.sent + [assign]) == [assign] && [] + [assign] == [assign];
    assert b.down(l)[1..] == [];
  }

  function Exposing(w: W.Wrapper, s: int): seq<Byte> {
    ExposeMessage(s, 1, w.attributes, w.methods)
  }

  function Describing(w: W.Wrapper, s: int): seq<Byte> {
    DescMessage(s, 1, w.attributes, w.methods)
  }

  // The wrapper takes the id over and publishes its interface.
  lemma Assigned(b: B.Net, l: P.Link, st: S.Stub, w: W.Wrapper) returns (b': B.Net)
    requires Stands(b, l, st, w, [AssignMessage(l.s, 1, w.name)], []) && 0 <= l.s < 16 && ShortName(w.name)
    ensures B.Step(b, B.AtWrapper(l, W.Threw), b')
    ensures Stands(b', l, st, W.IdAssigned(w, l.s, 1), [], [Exposing(w, l.s), Describing(w, l.s)])
    ensures b'.home == b.home && b'.dirty(l.w) <= b.dirty(l.w)
  {
    hide W.ProcessInput, ShortName, AssignMessage, ExposeMessage, DescMessage;
    var message, expose, desc := AssignMessage(l.s, 1, w.name), Exposing(w, l.s), Describing(w, l.s);
    AssignedProcessed(w, l.s, 1, w.name, W.Threw);
    b' := B.WrapperStepOn(b, l, W.Threw);
    DirectTwo(expose, desc);
    assert B.Since(w.sent, W.IdAssigned(w, l.s, 1).sent) == Direct([expose, desc]);
    BothFor(w, l.s);
    assert b.up(l)[1..] == [] && [] + [expose, desc] == [expose, desc];
  }

  lemma BothFor(w: W.Wrapper, s: int)
    requires 0 <= s < 16
    ensures For(Direct([Exposing(w, s), Describing(w, s)]), s) == [Exposing(w, s), Describing(w, s)]
  {
    hide ExposeBody, DescBody;
    var messages := [Exposing(w, s), Describing(w, s)];
    assert messages[0] != [] && messages[0][0] % 16 == s && messages[1] != [] && messages[1][0] % 16 == s;
    DirectFor(messages, s, s);
  }

  // A message from the wrapper about its interface, taken by the stub.
  lemma Taken(b: B.Net, l: P.Link, st: S.Stub, w: W.Wrapper, message: seq<Byte>, down: seq<seq<Byte>>, st': S.Stub)
    returns (b': B.Net)
    requires Stands(b, l, st, w, [], [message] + down) && 0 <= l.s < 16
    requires S.ProcessInput(st, message).Some? && S.ProcessInput(st, message).value.stub == st'
    requires st'.sent == st.sent && st'.nextObjId == st.nextObjId
    ensures B.Step(b, B.AtStub(l), b') && Stands(b', l, st', w, [], down)
    ensures b'.home(l.s) == b.home(l.s) && b'.dirty == b.dirty
  {
    hide S.ProcessInput;
    b' := B.StubStepOn(b, l);
    assert B.Since(st.sent, st'.sent) == [] && ([message] + down)[1..] == down && [] + [] == b.up(l);
  }

  // The last two steps: the module gets the interface, and its descriptions.
  lemma InterfaceTaken(b: B.Net, l: P.Link, st: S.Stub, w: W.Wrapper, w1: W.Wrapper) returns (b1: B.Net, b2: B.Net)
    requires Stands(b, l, st, w1, [], [Exposing(w, l.s), Describing(w, l.s)]) && 0 <= l.s < 16 && B.Fit(w)
    requires |st.modules| == 1 && st.modules[0].id == 1 && st.modules[0].attrs == [] && st.modules[0].metds == []
    requires st.modules[0].argEvalReversed == w.leftToRight
    ensures B.Step(b, B.AtStub(l), b1) && B.Step(b1, B.AtStub(l), b2)
    ensures b1.stubs(l.s).nextObjId == st.nextObjId
    ensures b2.home(l.s) == b.home(l.s) && b2.dirty == b.dirty && b2.alive(l.w) && b2.up(l) == [] && b2.down(l) == []
    ensures b2.wrappers(l.w) == w1 && |b2.stubs(l.s).modules| == 1 && b2.stubs(l.s).nextObjId == st.nextObjId
    ensures b2.stubs(l.s).modules[0].id == 1 && Mirrors(b2.stubs(l.s).modules[0], w)
  {
    hide S.ProcessInput, ExposeMessage, DescMessage, Mirrors, B.Fit;
    var o, expose, desc := st.modules[0], Exposing(w, l.s), Describing(w, l.s);
    FitIsPublishable(w);
    ExposeArrives(st, 0, o, w, l.s);
    var st1 := S.ProcessInput(st, expose).value.stub;
    b1 := Taken(b, l, st, w1, expose, [desc], st1);
    DescArrives(st1, 0, Exposed(o, w), w, l.s);
    var st2 := S.ProcessInput(st1, desc).value.stub;
    assert [desc] + [] == [desc];
    b2 := Taken(b1, l, st1, w1, desc, [], st2);
    InterfaceArrives(st, 0, o, w, l.s);
  }

  lemma FitIsPublishable(w: W.Wrapper)
    requires B.Fit(w)
    ensures Publishable(w.attributes, w.methods) && |w.attributes| + |w.methods| <= MAX_STR_LENGTH
    ensures ShortName(w.name) && LongText(w.desc)
  {
  }

  // From any network in which nothing has happened, a wrapper that advertises itself to a stub is
  // registered and mirrored within five steps: nothing is on its way any more, and the object
  // shows every attribute.
  lemma WrapperJoins(b: B.Net, l: P.Link) returns (r: B.Run)
    requires B.Initial(b) && 0 <= l.s < 16 && b.wrappers(l.w).name != []
    ensures B.IsRun(r) && B.Uncrowded(r) && B.Start(r) == b && |r.actions| == 5
    ensures var e := B.End(r);
            && |e.stubs(l.s).modules| == 1 && Mirrors(e.stubs(l.s).modules[0], b.wrappers(l.w))
            && B.Few(e, l.s) && (forall k :: Quiet(e, l, 0, k))
            && forall k :: 0 <= k < |e.wrappers(l.w).attributes| ==> k !in e.dirty(l.w) && Shows(e, l, 0, k)
  {
    hide B.Step, B.Initial, Mirrors, B.Fit;
    var st, w := b.stubs(l.s), b.wrappers(l.w);
    FreshEnds(b, l);
    FitIsPublishable(w);
    var b1 := Advertised(b, l);
    var b2 := Declared(b1, l, st, w);
    var st2 := b2.stubs(l.s);
    var b3 := Assigned(b2, l, st2, w);
    var b4, b5 := InterfaceTaken(b3, l, st2, w, b3.wrappers(l.w));
    var actions := [B.Advertise(l), B.AtStub(l), B.AtWrapper(l, W.Threw), B.AtStub(l), B.AtStub(l)];
    r := B.Run([b, b1, b2, b3, b4, b5], actions);
    forall i | 0 <= i < 5
      ensures B.StepAt(r, i) && B.CalmAt(r, i)
    {
    }
    forall k | 0 <= k < |b5.wrappers(l.w).attributes|
      ensures Shows(b5, l, 0, k)
    {
      ObjectsAreCoherent(r, l, 0, k);
    }
  }

  lemma FreshEnds(b: B.Net, l: P.Link)
    requires B.Initial(b)
    ensures b.stubs(l.s).serverId == l.s && b.stubs(l.s).modules == [] && b.stubs(l.s).nextObjId == 1
    ensures B.Fit(b.wrappers(l.w)) && b.dirty(l.w) == {}
  {
    assert B.StubFresh(b, l.s) && B.WrapperFresh(b, l.w);
  }

  // A network in which every wrapper publishes one attribute.
  ghost function Plain(): B.Net {
    var a := Attribute([97], [], BOOL, true, BoolVal(false));
    B.Net(s => S.Stub(s, [], 1, [], []), w => W.Wrapper([109], [], true, [a], [], [], [], []), w => true,
          l => [], l => [], s => map[], l => 0, w => {})
  }

  lemma PlainIsInitial()
    ensures B.Initial(Plain()) && forall w :: Plain().wrappers(w).name != [] && |Plain().wrappers(w).attributes| == 1
  {
    var b := Plain();
    forall w
      ensures B.WrapperFresh(b, w)
    {
      PlainFits(b.wrappers(w));
    }
    forall s
      ensures B.StubFresh(b, s)
    {
    }
    forall l
      ensures B.LinkFresh(b, l)
    {
    }
  }

  lemma PlainFits(w: W.Wrapper)
    requires w == Plain().wrappers(0)
    ensures B.Fit(w)
  {
    assert w.attributes[1..] == [];
  }
}
