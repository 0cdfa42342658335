// Method calls over every run of the network of byte messages: what Python asks for at a stub,
// and what the wrapped programs carry out.
module ByteCalls {
  import opened Common
  import opened Registry
  import opened Messages
  import opened Calls
  import opened Refinement
  import opened ByteQueues
  import opened Simulation
  import opened StubRules
  import opened StubSteps
  import opened StubStatements
  import opened WrapperSteps
  import opened ByteRuns
  import P = Protocol
  import G = Registration
  import W = WrapperModel
  import S = StubModel
  import B = ByteNetwork

  // A call of a method by name, for the module with this id.
  datatype Request = Request(id: Byte, call: W.Call)

  // ---------------------------------------------------------------- requests on their way

  // An index behind the attributes is a method's.
  predicate IsMethodCall(base: W.Wrapper, message: seq<Byte>) {
    && |message| >= 2 && message[0] / 16 in [CALL_ATTR_METD, CALL_ATTR_METD_NOCB]
    && ParseIndex(message[2..]).Some? && ParseIndex(message[2..]).value.0 >= |base.attributes|
  }

  ghost predicate CarriesAt(base: W.Wrapper, s: int, message: seq<Byte>, q: Request, noCallback: bool, j: nat) {
    IsCallOf(base, s, message, noCallback, q.id, j, q.call.args) && base.methods[j].name == q.call.name
  }

  ghost predicate Carries(base: W.Wrapper, s: int, message: seq<Byte>, q: Request) {
    exists noCallback, j: nat :: CarriesAt(base, s, message, q, noCallback, j)
  }

  // The method calls in this queue are these, in this order.
  ghost predicate InFlight(base: W.Wrapper, s: int, queue: seq<seq<Byte>>, qs: seq<Request>) {
    if queue == [] then qs == []
    else if IsMethodCall(base, queue[0]) then
      qs != [] && Carries(base, s, queue[0], qs[0]) && InFlight(base, s, queue[1..], qs[1..])
    else InFlight(base, s, queue[1..], qs)
  }

  lemma {:induction false} InFlightAppend(base: W.Wrapper, s: int, queue: seq<seq<Byte>>, qs: seq<Request>,
                                          queue2: seq<seq<Byte>>, qs2: seq<Request>)
    requires InFlight(base, s, queue, qs) && InFlight(base, s, queue2, qs2)
    ensures InFlight(base, s, queue + queue2, qs + qs2)
  {
    hide IsMethodCall, Carries;
    if queue == [] {
      assert queue + queue2 == queue2 && qs + qs2 == qs2;
    } else {
      assert (queue + queue2)[0] == queue[0] && (queue + queue2)[1..] == queue[1..] + queue2;
      if IsMethodCall(base, queue[0]) {
        assert (qs + qs2)[0] == qs[0] && (qs + qs2)[1..] == qs[1..] + qs2;
        InFlightAppend(base, s, queue[1..], qs[1..], queue2, qs2);
      } else {
        InFlightAppend(base, s, queue[1..], qs, queue2, qs2);
      }
    }
  }

  lemma NoneInFlight(base: W.Wrapper, s: int)
    ensures InFlight(base, s, [], [])
  {
  }

  lemma OneInFlight(base: W.Wrapper, s: int, message: seq<Byte>, qs: seq<Request>)
    requires if qs == [] then !IsMethodCall(base, message)
             else |qs| == 1 && IsMethodCall(base, message) && Carries(base, s, message, qs[0])
    ensures InFlight(base, s, [message], qs)
  {
    hide IsMethodCall, Carries;
    assert [message][1..] == [];
    NoneInFlight(base, s);
    if qs != [] {
      assert qs[1..] == [];
    }
  }

  // ---------------------------------------------------------------- asking

  function AsMethod(m: StubMethod): Method {
    Method(m.name, m.desc, m.retType, m.args)
  }

  // What action a asks for on channel l: a call that is not refused.
  ghost function Asks(b: B.Net, l: P.Link, a: B.Action): seq<Request>
    requires B.Can(b, a)
  {
    if !a.CallMethod? then []
    else
      var st := b.stubs(a.s);
      var o := st.modules[a.i];
      if P.Link(a.s, B.HomeOf(b.home(a.s), o.id)) != l || S.PyCall(o, st.serverId, a.j, a.values).sent == [] then []
      else [Request(P.IdByte(o.id), W.Call(o.metds[a.j].name, ArrivalAll(AsMethod(o.metds[a.j]), a.values)))]
  }

  // Values of the declared types are asked for as they are given.
  lemma AskedAsGiven(b: B.Net, l: P.Link, s: int, i: nat, j: nat, values: seq<Value>)
    requires B.Can(b, B.CallMethod(s, i, j, values)) && Asks(b, l, B.CallMethod(s, i, j, values)) != []
    requires var m := AsMethod(b.stubs(s).modules[i].metds[j]); Typed(W.ArgTypes(m), values)
    ensures var o := b.stubs(s).modules[i];
            Asks(b, l, B.CallMethod(s, i, j, values)) == [Request(P.IdByte(o.id), W.Call(o.metds[j].name, values))]
  {
    hide S.PyCall, Typed, NoneOptional;
    AllArriveAsGiven(AsMethod(b.stubs(s).modules[i].metds[j]), values);
  }

  // A call that is sent carries what was asked for.
  lemma CallCarries(o: S.Object, base: W.Wrapper, done: int, s: int, j: nat, values: seq<Value>)
    requires ObjectOk(o, base, done) && B.Fit(base) && 0 <= s < 16 && o.id >= 0 && j < |o.metds|
    requires NoneOptional(o.metds[j].args) || |values| == |o.metds[j].args|
    requires forall v :: v in values ==> Wireable(Narrow(Cut(v)))
    requires S.PyCall(o, s, j, values).sent != []
    ensures var q := Request(P.IdByte(o.id), W.Call(o.metds[j].name, ArrivalAll(AsMethod(o.metds[j]), values)));
            var sent := S.PyCall(o, s, j, values).sent;
            |sent| == 1 && IsMethodCall(base, sent[0]) && Carries(base, s, sent[0], q)
  {
    hide Typed, S.PackArgs, CallMessage, Callable, ParseIndex, B.Fit, NoneOptional, S.OptionalCount;
    assert Mirrors(o, base) && SameMethod(o.metds[j], base.methods[j]);
    var m := base.methods[j];
    SentIsComplete(o, s, j, values);
    assert S.ArgumentsFit(o.metds[j].args, values);
    FittingIsCallable(m, values);
    PyCallSends(o, base, s, j, values);
    hide Mirrors, S.PyCall;
    var args, data := ArrivalAll(m, values), S.PackArgs(ArrivalAll(m, values), base.leftToRight);
    assert ArrivalAll(AsMethod(o.metds[j]), values) == args;
    SameCall(S.CallType(o), s, o.id, |base.attributes| + j, data);
    CallableIsTyped(m, values);
    var q := Request(P.IdByte(o.id), W.Call(m.name, args));
    var message := S.PyCall(o, s, j, values).sent[0];
    assert CarriesAt(base, s, message, q, o.noCallback, j);
    CallIsMethodCall(base, s, message, q, o.noCallback, j);
  }

  lemma CallIsMethodCall(base: W.Wrapper, s: int, message: seq<Byte>, q: Request, noCallback: bool, j: nat)
    requires B.Fit(base) && 0 <= s < 16 && CarriesAt(base, s, message, q, noCallback, j)
    ensures IsMethodCall(base, message)
  {
    hide ParseIndex, CallBody, S.PackArgs, Typed, B.Fit;
    CallParts(base, s, message, noCallback, q.id, j, q.call.args);
  }

  // ---------------------------------------------------------------- what is added to a channel

  // What a stub answers is no method call.
  lemma StubAnswers(st: S.Stub, message: seq<Byte>)
    requires S.ProcessInput(st, message).Some?
    ensures var sent := B.Since(st.sent, S.ProcessInput(st, message).value.stub.sent);
            sent == [] || (|sent| == 1 && sent[0] != [] && sent[0][0] / 16 == MODULE_ASSIGN_ID)
  {
    hide S.ForModule, UnpackShortString, UnpackLongString, PackShortString;
    if |message| >= 2 {
      var i := S.PlaceOf(st.modules, Masked(message[1]));
      if i < |st.modules| {
        ModuleSendsNothing(st, i, message);
      }
    }
  }

  lemma ModuleSendsNothing(st: S.Stub, i: nat, message: seq<Byte>)
    requires i < |st.modules| && |message| >= 2
    ensures var r := S.ForModule(st, i, message); r.Some? ==> r.value.stub.sent == st.sent
  {
    hide ParseExpose, ParseDesc, ParseIndex, S.OnResponse, S.OnUpdate, S.OnDesc, S.OnExpose;
  }

  // Nor is what it says of its own accord, apart from calls.
  lemma SetIsNoMethodCall(base: W.Wrapper, done: int, o: S.Object, s: int, name: Str, value: Value)
    requires ObjectOk(o, base, done) && B.Fit(base) && 0 <= s < 16 && Wireable(Narrow(Cut(value)))
    ensures var sent := S.SetAttribute(o, s, name, value).sent;
            sent == [] || (|sent| == 1 && !IsMethodCall(base, sent[0]))
  {
    hide S.SetAttribute, B.Fit, Mirrors, CallMessage, ParseIndex, PackValue, Wireable, HasType;
    var o1, k := SetCases(o, s, name, value);
    var sent := S.SetAttribute(o, s, name, value).sent;
    if sent != [] {
      var arrives := Arrival(value, o.attrs[k].t);
      ArrivalCarriable(o, base, done, k, value);
      ArrivalPacks(value, o.attrs[k].t);
      PackedFit(arrives);
      FitSize(base);
      SameCall(S.CallType(o1), s, o.id, k, PackAs(value, o.attrs[k].t));
      CallArrives(S.CallType(o1), s, P.IdByte(o.id), k, PackAs(value, o.attrs[k].t));
    }
  }

  // A channel that nothing, or one message that is no call, is added to.
  lemma OtherAdded(base: W.Wrapper, s: int, before: seq<seq<Byte>>, sent: seq<seq<Byte>>, qs: seq<Request>)
    requires InFlight(base, s, before, qs)
    requires sent == [] || (|sent| == 1 && !IsMethodCall(base, sent[0]))
    ensures InFlight(base, s, before + sent, qs)
  {
    hide IsMethodCall, InFlight;
    NoneInFlight(base, s);
    if sent != [] {
      assert sent == [sent[0]];
      OneInFlight(base, s, sent[0], []);
    }
    InFlightAppend(base, s, before, qs, sent, []);
    assert qs + [] == qs;
  }

  // A stub's answers, or its other statements, on channel l.
  lemma AnswerIsNoCall(base: W.Wrapper, sent: seq<seq<Byte>>)
    requires |sent| == 1 && sent[0] != [] && sent[0][0] / 16 !in [CALL_ATTR_METD, CALL_ATTR_METD_NOCB]
    ensures !IsMethodCall(base, sent[0])
  {
  }

  // A step of anyone but the wrapper of channel l adds to it what it asks for.
  lemma AskedIsAdded(base: Published, b: B.Net, n: P.Net, l: P.Link, a: B.Action, b': B.Net, qs: seq<Request>)
    requires Sim(base, b, n) && 0 <= l.s < 16 && B.Step(b, a, b') && !(a.AtWrapper? && a.l == l)
    requires InFlight(base(l.w), l.s, b.up(l), qs)
    ensures InFlight(base(l.w), l.s, b'.up(l), qs + Asks(b, l, a))
  {
    hide Sim, StubSim, WrapperSim, LinkSim, InFlight, S.ProcessInput, W.ProcessInput, S.SetAttribute, S.PyCall,
         IsMethodCall, Carries,
         W.UpdateAttribute, W.Farewells, B.ReturnFits;
    var w0, st := base(l.w), b.stubs(l.s);
    AtLink(base, b, n, l);
    assert qs + [] == qs;
    match a {
      case Discover(k) =>
        if k == l {
          var sent := [S.DiscoveryMessage(st.serverId)];
          assert B.Since(st.sent, S.SendDiscoveryMsg(st).sent) == sent;
          AnswerIsNoCall(w0, sent);
          OtherAdded(w0, l.s, b.up(l), sent, qs);
        }
      case AtStub(k) =>
        if k == l {
          StubAnswers(st, b.down(l)[0]);
          var sent := B.Since(st.sent, b'.stubs(l.s).sent);
          if sent != [] {
            AnswerIsNoCall(w0, sent);
          }
          OtherAdded(w0, l.s, b.up(l), sent, qs);
        }
      case Disconnect(s, i) =>
        if P.Link(s, B.HomeOf(b.home(s), b.stubs(s).modules[i].id)) == l {
          var sent := [[Header(SERVER_SHUTDOWN, st.serverId), st.modules[i].id % 256, MSG_END]];
          assert B.Since(st.sent, S.ShutdownModule(st, i).sent) == sent;
          AnswerIsNoCall(w0, sent);
          OtherAdded(w0, l.s, b.up(l), sent, qs);
        }
      case SetAttribute(s, i, name, value) =>
        if P.Link(s, B.HomeOf(b.home(s), b.stubs(s).modules[i].id)) == l {
          SetIsAdded(base, b, n, l, i, name, value, qs);
        }
      case CallMethod(s, i, j, values) =>
        if P.Link(s, B.HomeOf(b.home(s), b.stubs(s).modules[i].id)) == l {
          CallIsAdded(base, b, n, l, i, j, values, qs);
        }
      case _ =>
    }
  }

  lemma SetIsAdded(base: Published, b: B.Net, n: P.Net, l: P.Link, i: nat, name: Str, value: Value, qs: seq<Request>)
    requires Sim(base, b, n) && 0 <= l.s < 16 && i < |b.stubs(l.s).modules| && Wireable(Narrow(Cut(value)))
    requires B.HomeOf(b.home(l.s), b.stubs(l.s).modules[i].id) == l.w && InFlight(base(l.w), l.s, b.up(l), qs)
    ensures var a := S.SetAttribute(b.stubs(l.s).modules[i], b.stubs(l.s).serverId, name, value);
            InFlight(base(l.w), l.s, B.AttemptOn(b, l.s, i, a).up(l), qs)
  {
    hide Sim, StubShows, InFlight, S.SetAttribute, IsMethodCall, ObjectOk, B.Fit, SameShape, W.Valid, WrapperShows,
         UpMatches,
         DownMatches;
    var st, o := b.stubs(l.s), b.stubs(l.s).modules[i];
    AtLink(base, b, n, l);
    assert ObjectAt(base, b.exposed, b.home(l.s), st, i);
    SetIsNoMethodCall(base(l.w), b.exposed(l), o, l.s, name, value);
    var sent := S.SetAttribute(o, l.s, name, value).sent;
    assert B.Since(st.sent, st.sent + sent) == sent;
    OtherAdded(base(l.w), l.s, b.up(l), sent, qs);
  }

  lemma CallIsAdded(base: Published, b: B.Net, n: P.Net, l: P.Link, i: nat, j: nat, values: seq<Value>,
                    qs: seq<Request>)
    requires Sim(base, b, n) && 0 <= l.s < 16 && B.Can(b, B.CallMethod(l.s, i, j, values))
    requires B.HomeOf(b.home(l.s), b.stubs(l.s).modules[i].id) == l.w && InFlight(base(l.w), l.s, b.up(l), qs)
    ensures InFlight(base(l.w), l.s,
                     B.AttemptOn(b, l.s, i, S.PyCall(b.stubs(l.s).modules[i], b.stubs(l.s).serverId, j, values)).up(l),
                     qs + Asks(b, l, B.CallMethod(l.s, i, j, values)))
  {
    hide Sim, InFlight, S.PyCall, IsMethodCall, Carries, ObjectOk, B.Fit, SameShape, W.Valid, WrapperShows, UpMatches,
         DownMatches,
         StubShows;
    var st, o := b.stubs(l.s), b.stubs(l.s).modules[i];
    var asked, sent := Asks(b, l, B.CallMethod(l.s, i, j, values)), S.PyCall(o, l.s, j, values).sent;
    AtLink(base, b, n, l);
    assert ObjectAt(base, b.exposed, b.home(l.s), st, i);
    ShownIsConsistent(st, n.servers(l.s));
    DistinctIds(st, i, i);
    assert B.Since(st.sent, st.sent + sent) == sent;
    if sent == [] {
      OtherAdded(base(l.w), l.s, b.up(l), sent, qs);
      assert qs + [] == qs;
    } else {
      CallCarries(o, base(l.w), b.exposed(l), l.s, j, values);
      OneInFlight(base(l.w), l.s, sent[0], asked);
      assert sent == [sent[0]];
      InFlightAppend(base(l.w), l.s, b.up(l), qs, sent, asked);
    }
  }

  // ---------------------------------------------------------------- carrying out

  // A message that is no method call leads to none.
  lemma NothingCalled(base: W.Wrapper, w: W.Wrapper, message: seq<Byte>, beh: W.Behaviour)
    requires |w.attributes| == |base.attributes| && !IsMethodCall(base, message)
    requires W.ProcessInput(w, message, beh).Some?
    ensures W.ProcessInput(w, message, beh).value.wrapper.calls == w.calls
  {
    hide W.CallAttrMetd, W.GetAttrValue, W.GetDesc, ParseIndex, UnpackShortString, ExposeMessage, DescMessage,
         DeclareMessage;
    if message == [] || !W.Negotiates(message[0] / 16) {
      W.OtherMessages(w, message, beh);
      if |message| >= 2 {
        if message[0] / 16 in [CALL_ATTR_METD, CALL_ATTR_METD_NOCB] {
          SetCallsNothing(w, message, beh);
        }
        RequestsCallNothing(w, message);
      }
    }
  }

  lemma SetCallsNothing(w: W.Wrapper, message: seq<Byte>, beh: W.Behaviour)
    requires |message| >= 2 && (ParseIndex(message[2..]).Some? ==> ParseIndex(message[2..]).value.0 < |w.attributes|)
    ensures var r := W.CallAttrMetd(w, message, message[0] % 16, beh); r.Some? ==> r.value.0.calls == w.calls
  {
    hide ParseIndex, WrapperGet, W.Updates, W.MethodCall, W.ValidateAttribute;
  }

  lemma RequestsCallNothing(w: W.Wrapper, message: seq<Byte>)
    requires |message| >= 2
    ensures var r := W.GetAttrValue(w, message, message[0] % 16); r.Some? ==> r.value.0.calls == w.calls
    ensures var r := W.GetDesc(w, message, message[0] % 16); r.Some? ==> r.value.0.calls == w.calls
  {
    hide ParseIndex, UnpackInt, RespMessage;
  }

  // A request is carried out once, if its id is the one this wrapper has at the stub.
  lemma RequestCarriedOut(base: W.Wrapper, w: W.Wrapper, s: int, message: seq<Byte>, q: Request, beh: W.Behaviour)
    requires B.Fit(base) && SameShape(base, w) && W.Valid(w) && 0 <= s < 16 && Carries(base, s, message, q)
    ensures W.ProcessInput(w, message, beh).Some?
    ensures W.ProcessInput(w, message, beh).value.wrapper.calls
         == w.calls + (if AssignedId(w, s) == Some(q.id as int) then [q.call] else [])
  {
    hide W.ProcessInput, CallMessage, ParseIndex, S.PackArgs, W.Replies, Typed, B.Fit, W.Valid;
    var noCallback, j: nat :| CarriesAt(base, s, message, q, noCallback, j);
    var msgType: MsgType := if noCallback then CALL_ATTR_METD_NOCB else CALL_ATTR_METD;
    CallParts(base, s, message, noCallback, q.id, j, q.call.args);
    ShapeSize(base, w);
    if AssignedId(w, s) == Some(q.id as int) {
      CallReaches(w, s, msgType, q.id, j, q.call.args, beh);
    } else {
      CallIgnored(w, s, msgType, q.id, |base.attributes| + j, S.PackArgs(q.call.args, base.leftToRight), beh);
    }
  }

  // A stub's request is taken from the channel.
  ghost predicate TakesOne(b: B.Net, b': B.Net, l: P.Link, q: Request) {
    b'.wrappers(l.w).calls
    == b.wrappers(l.w).calls + (if AssignedId(b.wrappers(l.w), l.s) == Some(q.id as int) then [q.call] else [])
  }

  lemma TakenFromChannel(base: Published, b: B.Net, n: P.Net, l: P.Link, beh: W.Behaviour, b': B.Net, qs: seq<Request>)
    requires Sim(base, b, n) && B.Step(b, B.AtWrapper(l, beh), b') && InFlight(base(l.w), l.s, b.up(l), qs)
    ensures b.up(l) != []
    ensures if IsMethodCall(base(l.w), b.up(l)[0]) then
              qs != [] && TakesOne(b, b', l, qs[0]) && InFlight(base(l.w), l.s, b'.up(l), qs[1..])
            else
              b'.wrappers(l.w).calls == b.wrappers(l.w).calls && InFlight(base(l.w), l.s, b'.up(l), qs)
  {
    hide Sim, W.ProcessInput, IsMethodCall, Carries, WrapperShows, B.Fit, W.Valid, LinkSim, StubSim, For, B.ReturnFits;
    var w0, w, message := base(l.w), b.wrappers(l.w), b.up(l)[0];
    AtLink(base, b, n, l);
    ShapeSize(w0, w);
    if IsMethodCall(w0, message) {
      RequestCarriedOut(w0, w, l.s, message, qs[0], beh);
    } else {
      NothingCalled(w0, w, message, beh);
    }
  }

  // ---------------------------------------------------------------- every run

  // What the first k steps asked for on channel l.
  ghost function Asked(r: B.Run, l: P.Link, k: nat): seq<Request>
    requires B.IsRun(r) && k < |r.nets|
  {
    if k == 0 then []
    else
      assert B.StepAt(r, k - 1);
      Asked(r, l, k - 1) + Asks(r.nets[k - 1], l, r.actions[k - 1])
  }

  // What the wrapper of channel l carried out for messages from it in the first k steps.
  ghost function Carried(r: B.Run, l: P.Link, k: nat): seq<W.Call>
    requires B.IsRun(r) && k < |r.nets|
  {
    if k == 0 then []
    else if !r.actions[k - 1].AtWrapper? || r.actions[k - 1].l != l then Carried(r, l, k - 1)
    else Carried(r, l, k - 1) + B.Since(r.nets[k - 1].wrappers(l.w).calls, r.nets[k].wrappers(l.w).calls)
  }

  function CallsOf(qs: seq<Request>): (calls: seq<W.Call>)
    ensures |calls| == |qs| && forall i :: 0 <= i < |qs| ==> calls[i] == qs[i].call
  {
    seq(|qs|, i requires 0 <= i < |qs| => qs[i].call)
  }

  // xs are some of ys, in the same order.
  predicate Part<T(==)>(xs: seq<T>, ys: seq<T>)
    decreases |ys|
  {
    if ys == [] then xs == []
    else
      || Part(xs, ys[..|ys| - 1])
      || (xs != [] && xs[|xs| - 1] == ys[|ys| - 1] && Part(xs[..|xs| - 1], ys[..|ys| - 1]))
  }

  lemma PartGrows<T>(xs: seq<T>, ys: seq<T>, y: T)
    requires Part(xs, ys)
    ensures Part(xs, ys + [y]) && Part(xs + [y], ys + [y])
  {
    assert (ys + [y])[..|ys|] == ys && (xs + [y])[..|xs|] == xs;
  }

  // After the first k steps, the first `taken` requests have been taken from the channel, and the
  // others are on their way.
  lemma {:induction false} CallsSoFar(r: B.Run, l: P.Link, k: nat) returns (taken: nat)
    requires B.IsRun(r) && B.Uncrowded(r) && k < |r.nets| && 0 <= l.s < 16
    ensures taken <= |Asked(r, l, k)|
    ensures InFlight(B.Start(r).wrappers(l.w), l.s, r.nets[k].up(l), Asked(r, l, k)[taken..])
    ensures Part(Carried(r, l, k), CallsOf(Asked(r, l, k)[..taken]))
    decreases k
  {
    hide Sim, G.Inv, B.Perform, B.Can, B.Defined, B.Uncrowded, B.Initial, InFlight, Asks, IsMethodCall, Part, Follows,
         TakesOne;
    var base := B.Start(r).wrappers;
    if k == 0 {
      taken := 0;
      NothingAsked(r, l);
    } else {
      taken := CallsSoFar(r, l, k - 1);
      var b, b', a := r.nets[k - 1], r.nets[k], r.actions[k - 1];
      var asked := Asked(r, l, k - 1);
      var qs := asked[taken..];
      var _, n := PrefixSim(r, k - 1);
      assert B.StepAt(r, k - 1);
      if a.AtWrapper? && a.l == l {
        TakenFromChannel(base, b, n, l, a.b, b', qs);
        NothingElseAsked(b, l, a);
        assert Asked(r, l, k) == asked + [] == asked;
        if IsMethodCall(base(l.w), b.up(l)[0]) {
          assert qs[1..] == asked[taken + 1..] && qs[0] == asked[taken];
          OneMoreTaken(b, b', l, qs[0], Carried(r, l, k - 1), asked[..taken]);
          assert asked[..taken + 1] == asked[..taken] + [qs[0]];
          taken := taken + 1;
        } else {
          assert B.Since(b.wrappers(l.w).calls, b'.wrappers(l.w).calls) == [];
          assert Carried(r, l, k) == Carried(r, l, k - 1) + [] == Carried(r, l, k - 1);
        }
      } else {
        AskedIsAdded(base, b, n, l, a, b', qs);
        var more := Asks(b, l, a);
        assert Asked(r, l, k) == asked + more;
        assert (asked + more)[taken..] == qs + more && (asked + more)[..taken] == asked[..taken];
      }
    }
  }

  lemma NothingAsked(r: B.Run, l: P.Link)
    requires B.IsRun(r)
    ensures InFlight(B.Start(r).wrappers(l.w), l.s, r.nets[0].up(l), Asked(r, l, 0)[0..]) && Asked(r, l, 0)[..0] == []
    ensures Part(Carried(r, l, 0), CallsOf(Asked(r, l, 0)[..0]))
  {
    assert B.LinkFresh(r.nets[0], l);
    NoneInFlight(B.Start(r).wrappers(l.w), l.s);
    assert CallsOf([]) == [];
  }

  lemma NothingElseAsked(b: B.Net, l: P.Link, a: B.Action)
    requires B.Can(b, a) && !a.CallMethod?
    ensures Asks(b, l, a) == []
  {
  }

  lemma OneMoreTaken(b: B.Net, b': B.Net, l: P.Link, q: Request, carried: seq<W.Call>, taken: seq<Request>)
    requires TakesOne(b, b', l, q) && Part(carried, CallsOf(taken))
    ensures Part(carried + B.Since(b.wrappers(l.w).calls, b'.wrappers(l.w).calls), CallsOf(taken + [q]))
  {
    hide Part;
    var more := B.Since(b.wrappers(l.w).calls, b'.wrappers(l.w).calls);
    assert CallsOf(taken + [q]) == CallsOf(taken) + [q.call];
    PartGrows(carried, CallsOf(taken), q.call);
    assert more == [] || more == [q.call];
    assert carried + [] == carried;
  }

  // In every run in which no crowded stub takes a message: what a wrapper has carried out for a
  // stub is some of what was asked for there, in the same order, each request at most once; those
  // not yet taken are on their way.
  lemma CallsArriveInOrder(r: B.Run, l: P.Link) returns (taken: nat)
    requires B.IsRun(r) && B.Uncrowded(r) && 0 <= l.s < 16
    ensures var asked := Asked(r, l, |r.actions|);
            && taken <= |asked| && Part(Carried(r, l, |r.actions|), CallsOf(asked[..taken]))
            && InFlight(B.Start(r).wrappers(l.w), l.s, B.End(r).up(l), asked[taken..])
  {
    hide B.Initial, B.Uncrowded;
    taken := CallsSoFar(r, l, |r.actions|);
  }

  // The id a wrapper has at a stub is that of a module this stub got from it.
  lemma HeldIdIsHome(base: Published, b: B.Net, n: P.Net, l: P.Link)
    requires Sim(base, b, n) && G.Inv(n) && 0 <= l.s < 16 && b.alive(l.w)
    ensures var held := AssignedId(b.wrappers(l.w), l.s);
            held.Some? && held.value >= 0 ==> held.value in b.home(l.s) && b.home(l.s)[held.value] == l.w
  {
    hide Sim, LinkSim, StubShows, ObjectsOk, B.Fit, SameShape, W.Valid;
    AtLink(base, b, n, l);
    assert G.LinkAt(n, l);
    assert P.Entry(n.wrappers(l.w), l.s) == AssignedId(b.wrappers(l.w), l.s);
  }

  // In every such run, a step in which a wrapped program is called takes a request that was made
  // before at the stub at the other end, for a module that this stub got from this wrapper; the
  // method of that name is called, once, with the arguments that were given.
  lemma EveryCallWasAsked(r: B.Run, i: nat, w: int) returns (l: P.Link, q: Request)
    requires B.IsRun(r) && B.Uncrowded(r) && i < |r.actions|
    requires r.nets[i + 1].wrappers(w).calls != r.nets[i].wrappers(w).calls
    ensures r.actions[i].AtWrapper? && r.actions[i].l == l && l.w == w && q in Asked(r, l, i)
    ensures r.nets[i + 1].wrappers(w).calls == r.nets[i].wrappers(w).calls + [q.call]
    ensures var home := r.nets[i].home(l.s); q.id in home && home[q.id] == w
  {
    hide Sim, G.Inv, B.Uncrowded, B.Initial, InFlight, IsMethodCall, Follows, S.ProcessInput, W.ProcessInput,
         S.SetAttribute, S.PyCall,
         W.Farewells, W.Updates, B.ReturnFits;
    var b, b', a := r.nets[i], r.nets[i + 1], r.actions[i];
    assert B.StepAt(r, i);
    l := a.l;
    var taken := CallsSoFar(r, l, i);
    var _, n := PrefixSim(r, i);
    TakenFromChannel(B.Start(r).wrappers, b, n, l, a.b, b', Asked(r, l, i)[taken..]);
    HeldIdIsHome(B.Start(r).wrappers, b, n, l);
    q := Asked(r, l, i)[taken];
  }
}
