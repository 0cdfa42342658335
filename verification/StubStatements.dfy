// What a stub starts on its own: looking for modules, and the statements of a Python program.
module StubStatements {
  import opened Common
  import opened Names
  import opened Registry
  import opened Messages
  import opened Calls
  import opened Refinement
  import opened ByteQueues
  import opened Simulation
  import opened StubRules
  import opened StubSteps
  import P = Protocol
  import W = WrapperModel
  import S = StubModel
  import B = ByteNetwork

  // ---------------------------------------------------------------- a stub starts something

  // A stub that sends something on channel l.
  lemma StubSendsSim(base: Published, b: B.Net, n: P.Net, l: P.Link, st: S.Stub, n': P.Net, ms: seq<P.Up>)
    requires Sim(base, b, n) && 0 <= l.s < 16
    requires OnlyServerMoved(n, n', l) && n'.down(l) == n.down(l) && n'.up(l) == n.up(l) + ms
    requires StubSim(base, b.exposed, b.home(l.s), l.s, st, n'.servers(l.s))
    requires UpMatches(base(l.w), l.s, B.Since(b.stubs(l.s).sent, st.sent), ms)
    ensures Sim(base, B.StubMoves(b, l, st), n')
  {
    hide Sim, StubSim, UpMatches, DownMatches, Done, WrapperSim;
    AtLink(base, b, n, l);
    StubMovesSim(base, b, n, l, B.StubMoves(b, l, st), n', B.Since(b.stubs(l.s).sent, st.sent), ms);
  }

  lemma DiscoverSim(base: Published, b: B.Net, n: P.Net, l: P.Link)
    requires Sim(base, b, n) && 0 <= l.s < 16
    ensures Sim(base, B.StubMoves(b, l, S.SendDiscoveryMsg(b.stubs(l.s))), P.SendUp(n, l, [P.Discovery]))
  {
    hide Sim, StubShows, IsCall, WrapperSim, LinkSim, ObjectsOk;
    var st, sv := b.stubs(l.s), n.servers(l.s);
    var st' := S.SendDiscoveryMsg(st);
    AtLink(base, b, n, l);
    DiscoverRefinesMachine(st, sv);
    SameModules(base, b.exposed, b.home(l.s), st, st');
    var message := S.DiscoveryMessage(l.s);
    assert IsUp(base(l.w), l.s, message, P.Discovery);
    UpOne(base(l.w), l.s, message, [P.Discovery]);
    assert B.Since(st.sent, st'.sent) == [message];
    hide IsUp, UpMatches;
    StubSendsSim(base, b, n, l, st', P.SendUp(n, l, [P.Discovery]), [P.Discovery]);
  }

  // A listed module is registered.
  lemma ListedIsRegistered(st: S.Stub, i: nat)
    requires i < |st.modules|
    ensures HasId(S.RegistryOf(st), st.modules[i].id)
  {
    NotBeforePlace(st.modules, i);
  }

  lemma DisconnectSim(base: Published, b: B.Net, n: P.Net, s: int, i: nat)
    requires Sim(base, b, n) && 0 <= s < 16 && i < |b.stubs(s).modules|
    ensures var id := b.stubs(s).modules[i].id;
            HasId(n.servers(s).reg, id) && Sim(base, B.DisconnectOn(b, s, i), P.DisconnectOn(n, s, id))
  {
    hide Sim, IsCall, WrapperSim, LinkSim, ObjectsOk, ObjectOk, Consistent;
    var st, sv := b.stubs(s), n.servers(s);
    var id, st' := st.modules[i].id, S.ShutdownModule(st, i);
    var l := P.Link(s, P.Home(sv, id));
    AtLink(base, b, n, l);
    ListedIsRegistered(st, i);
    DisconnectRefinesMachine(st, sv, i);
    ShutdownKeepsOthers(base, b.exposed, b.home(s), st, i, st');
    var message := UpBytes(s, P.ServerShutdown, false, id % 256);
    assert IsUp(base(l.w), s, message, P.ServerShutdown);
    UpOne(base(l.w), s, message, [P.ServerShutdown]);
    assert B.Since(st.sent, st'.sent) == [message];
    hide IsUp, UpMatches, StubShows;
    StubSendsSim(base, b, n, l, st', P.DisconnectOn(n, s, id), [P.ServerShutdown]);
  }

  // ---------------------------------------------------------------- setting an attribute

  // Setting under any name: the module may change its mode or its description, or this is a set
  // of attribute k.
  lemma SetCases(o: S.Object, s: int, name: Str, value: Value) returns (o1: S.Object, k: nat)
    ensures o1 == o.(noCallback := o1.noCallback)
    ensures var a := S.SetAttribute(o, s, name, value);
            || (a.sent == [] && a.obj == o1.(desc := a.obj.desc))
            || (&& k < |o.attrs| && !o.attrs[k].readOnly && HasType(Coerced(value, o.attrs[k].t), o.attrs[k].t)
                && a == S.SetRemote(o1, s, k, value))
  {
    hide ValidatedSize, PackAs, CallMessage;
    o1 := if name == S.NOCALLBACK && value.BoolVal? then o.(noCallback := value.b) else o;
    k := IndexOf(S.StubAttributeName, o.attrs, name);
    if k < |o.attrs| {
      ValidatedSizeExact(value, o.attrs[k].t);
    }
  }

  // The machine sees neither the mode nor the description.
  lemma ModeShows(st: S.Stub, sv: P.Server, i: nat, o: S.Object, st': S.Stub)
    requires StubShows(st, sv) && i < |st.modules| && o.attrs == st.modules[i].attrs
    requires S.Listed(o) == S.Listed(st.modules[i])
    requires st'.modules == st.modules[i := o] && st'.nextObjId == st.nextObjId
    ensures StubShows(st', sv)
  {
    assert MirrorShown(st.modules, sv, i);
    UpdatedShows(st, sv, i, o, st', sv.(mirrors := sv.mirrors[o.id := Mirrored(o.attrs)]));
    SameMirrors(st', sv, o.id, Mirrored(o.attrs));
  }

  // A module at place i gets another face-preserving state.
  lemma FaceKeepsObjects(base: Published, exposed: LastIds, home: map<int, int>, st: S.Stub, i: nat, o: S.Object,
                         st': S.Stub)
    requires ObjectsOk(base, exposed, home, st) && i < |st.modules| && SameFace(st.modules[i], o)
    requires st'.modules == st.modules[i := o] && st'.serverId == st.serverId
    ensures ObjectsOk(base, exposed, home, st')
  {
    hide ObjectOk, SameFace;
    forall j | 0 <= j < |st'.modules|
      ensures ObjectAt(base, exposed, home, st', j)
    {
      assert ObjectAt(base, exposed, home, st, j);
      if j == i {
        var w := B.HomeOf(home, o.id);
        KeptId(st.modules[i], o);
        FaceOk(st.modules[i], o, base(w), exposed(P.Link(st.serverId, w)));
      }
    }
  }

  lemma KeptId(o: S.Object, o': S.Object)
    requires SameFace(o, o')
    ensures o'.id == o.id
  {
  }

  // A statement that sends nothing is no step of the machine.
  lemma SilentSim(base: Published, b: B.Net, n: P.Net, s: int, i: nat, a: S.Attempt)
    requires Sim(base, b, n) && 0 <= s < 16 && i < |b.stubs(s).modules| && a.sent == []
    requires SameFace(b.stubs(s).modules[i], a.obj) && a.obj.attrs == b.stubs(s).modules[i].attrs
    ensures Sim(base, B.AttemptOn(b, s, i, a), n)
  {
    hide Sim, WrapperSim, LinkSim, ObjectsOk, StubShows, SameFace;
    var st, sv := b.stubs(s), n.servers(s);
    var l := P.Link(s, B.HomeOf(b.home(s), st.modules[i].id));
    var st' := st.(modules := st.modules[i := a.obj], sent := st.sent + a.sent);
    AtLink(base, b, n, l);
    KeptName(st.modules[i], a.obj);
    ModeShows(st, sv, i, a.obj, st');
    FaceKeepsObjects(base, b.exposed, b.home(s), st, i, a.obj, st');
    NothingUp(base(l.w), s);
    assert B.Since(st.sent, st'.sent) == [] && n.up(l) + [] == n.up(l);
    hide UpMatches;
    StubSendsSim(base, b, n, l, st', n, []);
  }

  lemma KeptName(o: S.Object, o': S.Object)
    requires SameFace(o, o')
    ensures S.Listed(o') == S.Listed(o)
  {
  }

  // What arrives of a value for an attribute of the mirror, the wrapper's attribute can take.
  lemma ArrivalCarriable(o: S.Object, base: W.Wrapper, done: int, k: nat, value: Value)
    requires ObjectOk(o, base, done) && k < |o.attrs| && !o.attrs[k].readOnly
    requires HasType(Coerced(value, o.attrs[k].t), o.attrs[k].t) && Wireable(Narrow(Cut(value)))
    ensures UpFits(base, P.CallSet(P.IdByte(o.id), P.Note(k, Arrival(value, o.attrs[k].t))))
  {
    assert SameAttribute(o.attrs[k], base.attributes[k]);
  }

  lemma SetKeepsFace(o: S.Object, o1: S.Object, s: int, k: nat, value: Value)
    requires k < |o.attrs| && o1 == o.(noCallback := o1.noCallback)
    ensures SameFace(o, S.SetRemote(o1, s, k, value).obj)
  {
    hide ValidatedSize, PackAs;
  }

  lemma SetIsUp(base: W.Wrapper, s: int, id: int, note: P.Note, noCallback: bool)
    requires UpFits(base, P.CallSet(P.IdByte(id), note)) && 0 <= s < 16
    ensures var m := P.CallSet(P.IdByte(id), note); UpMatches(base, s, [UpBytes(s, m, noCallback, 0)], [m])
  {
    hide UpFits, IsCall, CallBody;
    var m := P.CallSet(P.IdByte(id), note);
    assert IsUp(base, s, UpBytes(s, m, noCallback, 0), m);
    hide IsUp;
    UpOne(base, s, UpBytes(s, m, noCallback, 0), [m]);
  }

  lemma MirrorSize(st: S.Stub, sv: P.Server, i: nat)
    requires StubShows(st, sv) && i < |st.modules|
    ensures |P.Mirror(sv, st.modules[i].id)| == |st.modules[i].attrs|
  {
    assert MirrorShown(st.modules, sv, i);
  }

  // In no-callback mode the mirror is written at once.
  function NotedHere(sv: P.Server, id: int, note: P.Note): P.Server {
    sv.(mirrors := sv.mirrors[id := P.ApplyNote(P.Mirror(sv, id), note)])
  }

  // A set, at the stub.
  lemma SetAtStub(base: Published, exposed: LastIds, home: map<int, int>, s: int, st: S.Stub, sv: P.Server,
                  i: nat, o1: S.Object, k: nat, value: Value)
    requires StubSim(base, exposed, home, s, st, sv) && 0 <= s < 16 && i < |st.modules| && k < |st.modules[i].attrs|
    requires var o := st.modules[i];
             && o1 == o.(noCallback := o1.noCallback) && !o.attrs[k].readOnly
             && HasType(Coerced(value, o.attrs[k].t), o.attrs[k].t) && Wireable(Narrow(Cut(value)))
    ensures var a, note := S.SetRemote(o1, s, k, value), P.Note(k, value);
            var sv' := if o1.noCallback then NotedHere(sv, o1.id, note) else sv;
            var m := P.CallSet(P.IdByte(o1.id), P.Note(k, Arrival(value, o1.attrs[k].t)));
            && StubSim(base, exposed, home, s, st.(modules := st.modules[i := a.obj], sent := st.sent + a.sent), sv')
            && UpMatches(base(B.HomeOf(home, o1.id)), s, a.sent, [m])
            && k < |P.Mirror(sv, o1.id)|
  {
    hide StubShows, S.SetRemote, UpBytes, UpMatches, Mirrors, SameFace;
    var o, a := st.modules[i], S.SetRemote(o1, s, k, value);
    var w := B.HomeOf(home, o.id);
    var st1 := st.(modules := st.modules[i := o1]);
    var st' := st.(modules := st.modules[i := a.obj], sent := st.sent + a.sent);
    MirrorSize(st, sv, i);
    ModeShows(st, sv, i, o1, st1);
    SetRefinesMachine(st1, sv, i, k, value);
    assert st1.modules[i := a.obj] == st'.modules;
    var sv' := if o1.noCallback then NotedHere(sv, o1.id, P.Note(k, value)) else sv;
    UpdatedNothing(st1.(modules := st1.modules[i := a.obj]), sv', st');
    SetKeepsFace(o, o1, s, k, value);
    FaceKeepsObjects(base, exposed, home, st, i, a.obj, st');
    assert ObjectAt(base, exposed, home, st, i);
    ArrivalCarriable(o, base(w), exposed(P.Link(s, w)), k, value);
    SetIsUp(base(w), s, o.id, P.Note(k, Arrival(value, o.attrs[k].t)), o1.noCallback);
  }

  function SetStep(st: S.Stub, o: S.Object, k: nat, value: Value): P.Action
    requires k < |o.attrs|
  {
    P.SetAttribute(st.serverId, o.id, P.Note(k, value), Arrival(value, o.attrs[k].t), o.noCallback)
  }

  // A set that goes out is the machine's.
  lemma SetGoesOut(base: Published, b: B.Net, n: P.Net, s: int, i: nat, o1: S.Object, k: nat, value: Value)
    requires Sim(base, b, n) && 0 <= s < 16 && i < |b.stubs(s).modules|
    requires var o := b.stubs(s).modules[i];
             && o1 == o.(noCallback := o1.noCallback) && k < |o.attrs| && !o.attrs[k].readOnly
             && HasType(Coerced(value, o.attrs[k].t), o.attrs[k].t) && Wireable(Narrow(Cut(value)))
    ensures var step := SetStep(b.stubs(s), o1, k, value);
            P.Can(n, step) && Sim(base, B.AttemptOn(b, s, i, S.SetRemote(o1, s, k, value)), P.Perform(n, step))
  {
    hide Sim, WrapperSim, LinkSim, ObjectsOk, S.SetRemote, UpMatches, StubShows;
    var st, sv, a := b.stubs(s), n.servers(s), S.SetRemote(o1, s, k, value);
    var l, note, arrives := P.Link(s, B.HomeOf(b.home(s), o1.id)), P.Note(k, value), Arrival(value, o1.attrs[k].t);
    AtLink(base, b, n, l);
    SetAtStub(base, b.exposed, b.home(s), s, st, sv, i, o1, k, value);
    RegisteredHere(st, sv, i);
    var st' := st.(modules := st.modules[i := a.obj], sent := st.sent + a.sent);
    assert B.Since(st.sent, st'.sent) == a.sent;
    hide StubSim;
    StubSendsSim(base, b, n, l, st', P.SetAttributeOn(n, s, o1.id, note, arrives, o1.noCallback),
                 [P.CallSet(P.IdByte(o1.id), P.Note(k, arrives))]);
  }

  lemma RegisteredHere(st: S.Stub, sv: P.Server, i: nat)
    requires StubShows(st, sv) && i < |st.modules|
    ensures HasId(sv.reg, st.modules[i].id)
  {
    ListedIsRegistered(st, i);
  }

  // One step of the machine, or none.
  ghost predicate Follows(n: P.Net, steps: seq<P.Action>, n': P.Net) {
    P.CanRun(n, steps) && n' == P.After(n, steps)
  }

  lemma FollowsNone(n: P.Net)
    ensures Follows(n, [], n)
  {
  }

  lemma FollowsOne(n: P.Net, a: P.Action)
    requires P.Can(n, a)
    ensures Follows(n, [a], P.Perform(n, a))
  {
    assert [a][1..] == [];
    FollowsNone(P.Perform(n, a));
  }

  lemma SetSim(base: Published, b: B.Net, n: P.Net, s: int, i: nat, name: Str, value: Value)
    returns (steps: seq<P.Action>, n': P.Net)
    requires Sim(base, b, n) && 0 <= s < 16 && i < |b.stubs(s).modules| && Wireable(Narrow(Cut(value)))
    ensures Follows(n, steps, n')
    ensures Sim(base, B.AttemptOn(b, s, i, S.SetAttribute(b.stubs(s).modules[i], s, name, value)), n')
  {
    hide Sim, S.SetAttribute, S.SetRemote, Follows, P.Perform, StubSim, LinkSim, WrapperSim;
    var o, a := b.stubs(s).modules[i], S.SetAttribute(b.stubs(s).modules[i], s, name, value);
    AtLink(base, b, n, P.Link(s, 0));
    var o1, k := SetCases(o, s, name, value);
    if a.sent == [] && a.obj == o1.(desc := a.obj.desc) {
      steps, n' := [], n;
      FollowsNone(n);
      SilentSim(base, b, n, s, i, a);
    } else {
      SetGoesOut(base, b, n, s, i, o1, k, value);
      var step := SetStep(b.stubs(s), o1, k, value);
      steps, n' := [step], P.Perform(n, step);
      FollowsOne(n, step);
    }
  }

  // ---------------------------------------------------------------- calling a method

  // Arguments that fit the mirror can be passed to the wrapper's method.
  lemma FittingIsCallable(m: Method, values: seq<Value>)
    requires |values| == |m.args| && S.ArgumentsFit(m.args, values) && forall v :: v in values ==> Wireable(Narrow(Cut(v)))
    ensures Callable(m, values)
  {
    forall k | 0 <= k < |values|
      ensures HasType(ArrivalAll(m, values)[k], W.ArgTypes(m)[k]) && Wireable(ArrivalAll(m, values)[k])
    {
      assert values[k] in values;
    }
  }

  // A call sends nothing, or one message that the wrapper takes for a call of the same method.
  lemma CallIsSent(o: S.Object, base: W.Wrapper, done: int, s: int, j: nat, values: seq<Value>)
    requires ObjectOk(o, base, done) && 0 <= s < 16 && o.id >= 0 && j < |o.metds|
    requires NoneOptional(o.metds[j].args) || |values| == |o.metds[j].args|
    requires forall v :: v in values ==> Wireable(Narrow(Cut(v)))
    ensures var a := S.PyCall(o, s, j, values);
            && a.obj == o
            && (a.sent == [] || (|a.sent| == 1 && IsCall(base, s, a.sent[0])))
  {
    hide Typed, S.PackArgs, CallMessage, Callable, NoneOptional, S.OptionalCount;
    assert Mirrors(o, base) && SameMethod(o.metds[j], base.methods[j]);
    if S.PyCall(o, s, j, values).sent != [] {
      SentIsComplete(o, s, j, values);
      var m := base.methods[j];
      FittingIsCallable(m, values);
      PyCallSends(o, base, s, j, values);
      hide Mirrors, S.PyCall;
      var data := S.PackArgs(ArrivalAll(m, values), base.leftToRight);
      SameCall(S.CallType(o), s, o.id, |base.attributes| + j, data);
      CallableIsTyped(m, values);
      var message := S.PyCall(o, s, j, values).sent[0];
      assert IsCallOf(base, s, message, o.noCallback, P.IdByte(o.id), j, ArrivalAll(m, values));
    }
  }

  lemma CallableIsTyped(m: Method, values: seq<Value>)
    requires |values| == |m.args| && Callable(m, values)
    ensures Typed(W.ArgTypes(m), ArrivalAll(m, values))
  {
  }

  lemma CallSim(base: Published, b: B.Net, n: P.Net, s: int, i: nat, j: nat, values: seq<Value>)
    requires Sim(base, b, n) && 0 <= s < 16 && i < |b.stubs(s).modules| && j < |b.stubs(s).modules[i].metds|
    requires var args := b.stubs(s).modules[i].metds[j].args; NoneOptional(args) || |values| == |args|
    requires forall v :: v in values ==> Wireable(Narrow(Cut(v)))
    ensures Sim(base, B.AttemptOn(b, s, i, S.PyCall(b.stubs(s).modules[i], s, j, values)), n)
  {
    hide Sim, WrapperSim, LinkSim, ObjectOk, StubShows, S.PyCall, IsCall;
    var st, sv := b.stubs(s), n.servers(s);
    var o, a := st.modules[i], S.PyCall(st.modules[i], s, j, values);
    var l := P.Link(s, B.HomeOf(b.home(s), o.id));
    AtLink(base, b, n, l);
    assert ObjectAt(base, b.exposed, b.home(s), st, i);
    ShownIsConsistent(st, sv);
    DistinctIds(st, i, i);
    CallIsSent(o, base(l.w), b.exposed(l), s, j, values);
    var st' := st.(modules := st.modules[i := a.obj], sent := st.sent + a.sent);
    assert st'.modules == st.modules && B.Since(st.sent, st'.sent) == a.sent && n.up(l) + [] == n.up(l);
    UpdatedNothing(st, sv, st');
    SameModules(base, b.exposed, b.home(s), st, st');
    if a.sent == [] {
      NothingUp(base(l.w), s);
    } else {
      UpOne(base(l.w), s, a.sent[0], []);
    }
    hide UpMatches;
    StubSendsSim(base, b, n, l, st', n, []);
  }
}
