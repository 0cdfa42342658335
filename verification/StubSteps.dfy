// What a stub does with a message, in the network and in the protocol machine.
module StubSteps {
  import opened Common
  import opened Registry
  import opened Messages
  import opened Calls
  import opened Refinement
  import opened ByteQueues
  import opened Simulation
  import P = Protocol
  import G = Registration
  import C = Coherence
  import W = WrapperModel
  import S = StubModel
  import B = ByteNetwork

  // ---------------------------------------------------------------- a stub takes a message

  // What is known of a message for the module it names, once it is its turn.
  ghost predicate Aimed(m: P.Down, sv: P.Server, w: int) {
    !m.DeclareModule? && HasId(sv.reg, Masked(m.id)) ==> Masked(m.id) == m.id && B.HomeOf(sv.home, m.id) == w
  }

  // The stub's step for message m is defined and the machine's, and all modules are as they should.
  ghost predicate Taken(base: Published, exposed: LastIds, l: P.Link, st: S.Stub, sv: P.Server, m: P.Down,
                        r: Option<S.Processed>)
  {
    var sv' := P.ServerReceive(sv, l.w, m).server;
    StubStepMatches(st, sv, l.w, m, r) && StubSim(base, exposed, sv'.home, l.s, r.value.stub, sv')
  }

  lemma FacesKeepSim(base: Published, exposed: LastIds, home: map<int, int>, s: int,
                     st: S.Stub, sv: P.Server, st': S.Stub, sv': P.Server)
    requires StubSim(base, exposed, home, s, st, sv)
    requires FacesKept(st, st') && StubShows(st', sv') && sv'.home == home
    ensures StubSim(base, exposed, home, s, st', sv')
  {
    forall i | 0 <= i < |st'.modules|
      ensures ObjectAt(base, exposed, home, st', i)
    {
      assert ObjectAt(base, exposed, home, st, i);
      var w := B.HomeOf(home, st.modules[i].id);
      FaceOk(st.modules[i], st'.modules[i], base(w), exposed(P.Link(s, w)));
    }
  }

  // The module that a message from this channel is about.
  lemma Addressee(base: Published, exposed: LastIds, home: map<int, int>, l: P.Link, st: S.Stub, sv: P.Server, id: Byte)
    requires StubSim(base, exposed, home, l.s, st, sv)
    requires HasId(sv.reg, Masked(id)) ==> Masked(id) == id && B.HomeOf(home, id) == l.w
    ensures var i := S.PlaceOf(st.modules, Masked(id));
            i < |st.modules| ==>
              && st.modules[i].id == Masked(id) == id && B.HomeOf(home, id) == l.w
              && Reachable(st, i, st.modules[i]) && ObjectOk(st.modules[i], base(l.w), exposed(l))
  {
    var i := S.PlaceOf(st.modules, Masked(id));
    if i < |st.modules| {
      FoundIsReachable(st, id);
      assert ObjectAt(base, exposed, home, st, i);
    }
  }

  lemma TakesUpdate(base: Published, exposed: LastIds, home: map<int, int>, l: P.Link,
                    st: S.Stub, sv: P.Server, m: P.Down, message: seq<Byte>)
    requires StubSim(base, exposed, home, l.s, st, sv) && Aimed(m, sv, l.w) && B.Fit(base(l.w))
    requires m.Update? && IsDown(base(l.w), message, m, exposed(l))
    ensures Taken(base, exposed, l, st, sv, m, S.ProcessInput(st, message))
  {
    var w0 := base(l.w);
    Addressee(base, exposed, home, l, st, sv, m.id);
    var i := S.PlaceOf(st.modules, Masked(m.id));
    assert DownFits(st, w0, m) by {
      if i < |st.modules| && m.note.index < |st.modules[i].attrs| {
        assert SameAttribute(st.modules[i].attrs[m.note.index], w0.attributes[m.note.index]);
      }
    }
    hide S.ProcessInput, StubShows, DownFits;
    StubRefinesMachine(st, sv, l.w, w0, message[0] % 16, m);
    UpdateType(message[0] % 16, m.id, m.note);
    ValueMessageKeepsFaces(st, message);
    FacesKeepSim(base, exposed, home, l.s, st, sv, S.ProcessInput(st, message).value.stub,
                 P.ServerReceive(sv, l.w, m).server);
  }

  lemma UpdateType(s: int, id: Byte, note: P.Note)
    ensures |UpdateBytes(s, id, note)| >= 2 && UpdateBytes(s, id, note)[0] / 16 == ATTR_VALUE_UPDATE
  {
    hide CallBody;
  }

  lemma ShutdownKeepsOthers(base: Published, exposed: LastIds, home: map<int, int>, st: S.Stub, j: nat, st': S.Stub)
    requires ObjectsOk(base, exposed, home, st) && st'.serverId == st.serverId
    requires j <= |st.modules| && st'.modules == S.Without(st.modules, j)
    ensures ObjectsOk(base, exposed, home, st')
  {
    hide ObjectOk;
    forall i | 0 <= i < |st'.modules|
      ensures ObjectAt(base, exposed, home, st', i)
    {
      var k := if j < |st.modules| && j <= i then i + 1 else i;
      assert ObjectAt(base, exposed, home, st, k) && st'.modules[i] == st.modules[k];
    }
  }

  lemma TakesShutdown(base: Published, exposed: LastIds, home: map<int, int>, l: P.Link,
                      st: S.Stub, sv: P.Server, m: P.Down, message: seq<Byte>)
    requires StubSim(base, exposed, home, l.s, st, sv)
    requires m.ModuleShutdown? && IsDown(base(l.w), message, m, exposed(l))
    ensures Taken(base, exposed, l, st, sv, m, S.ProcessInput(st, message))
  {
    var st' := S.DeleteModuleByID(st, Masked(m.id));
    assert S.ProcessInput(st, message) == Some(S.Processed(st', MESG_TO_SHUTDOWN));
    hide S.ProcessInput, StubShows, ObjectsOk;
    StubRefinesMachine(st, sv, l.w, base(l.w), message[0] % 16, m);
    ShutdownKeepsOthers(base, exposed, home, st, S.PlaceOf(st.modules, Masked(m.id)), st');
  }

  // A new module has no interface, and an id that nothing was exposed under.
  lemma DeclareKeepsOthers(base: Published, exposed: LastIds, home: map<int, int>, l: P.Link, st: S.Stub,
                           o: S.Object, st': S.Stub)
    requires Consistent(S.RegistryOf(st)) && st.serverId == st'.serverId == l.s && ObjectsOk(base, exposed, home, st)
    requires Empty(o) && o.argEvalReversed == base(l.w).leftToRight && o.id == st.nextObjId && exposed(l) < o.id
    requires st'.modules == st.modules + [o]
    ensures ObjectsOk(base, exposed, home[o.id := l.w], st')
  {
    hide Consistent, Mirrors;
    var home' := home[o.id := l.w];
    forall i | 0 <= i < |st'.modules|
      ensures ObjectAt(base, exposed, home', st', i)
    {
      if i < |st.modules| {
        DistinctIds(st, i, i);
        assert ObjectAt(base, exposed, home, st, i);
      }
    }
  }

  lemma TakesDeclare(base: Published, exposed: LastIds, home: map<int, int>, l: P.Link,
                     st: S.Stub, sv: P.Server, m: P.Down, message: seq<Byte>)
    requires StubSim(base, exposed, home, l.s, st, sv) && exposed(l) < st.nextObjId
    requires m.DeclareModule? && IsDown(base(l.w), message, m, exposed(l))
    ensures Taken(base, exposed, l, st, sv, m, S.ProcessInput(st, message))
  {
    hide S.ProcessInput, ObjectsOk, ShortName, LongText, Consistent, DeclareMessage;
    var w0, s := base(l.w), message[0] % 16;
    var option := W.OptionByte(w0.leftToRight);
    StubRefinesMachine(st, sv, l.w, w0, s, m);
    DeclareProcessed(st, s, option, m.name, w0.desc);
    if !HasName(sv.reg, m.name) && Accepts(sv.reg, m.name) {
      DeclareKeepsOthers(base, exposed, home, l, st, S.NewObject(st.nextObjId, m.name, w0.desc, option),
                         S.ProcessInput(st, message).value.stub);
    } else {
      SameModules(base, exposed, home, st, S.ProcessInput(st, message).value.stub);
    }
  }

  lemma SameModules(base: Published, exposed: LastIds, home: map<int, int>, st: S.Stub, st': S.Stub)
    requires ObjectsOk(base, exposed, home, st) && st'.modules == st.modules && st'.serverId == st.serverId
    ensures ObjectsOk(base, exposed, home, st')
  {
    forall i | 0 <= i < |st'.modules|
      ensures ObjectAt(base, exposed, home, st', i)
    {
      assert ObjectAt(base, exposed, home, st, i);
    }
  }

  lemma ViewsMirror(o: S.Object, base: W.Wrapper, values: seq<Value>)
    requires B.Fit(base) && |values| == |base.attributes| && o.argEvalReversed == base.leftToRight
    ensures Mirrors(Exposed(o, Shown(base, values)), base)
  {
  }

  // What EXPOSE does to the list of modules.
  lemma ExposeEffect(st: S.Stub, id: Byte, w: W.Wrapper, s: int)
    requires Publishable(w.attributes, w.methods)
    requires var i := S.PlaceOf(st.modules, Masked(id));
             i < |st.modules| ==> Reachable(st, i, st.modules[i]) && st.modules[i].id == id && Empty(st.modules[i])
    ensures var i := S.PlaceOf(st.modules, Masked(id));
            var r := S.ProcessInput(st, ExposeMessage(s, id, w.attributes, w.methods));
            && r.Some? && r.value.stub.serverId == st.serverId
            && r.value.stub.modules
               == if i < |st.modules| then st.modules[i := Exposed(st.modules[i], w)] else st.modules
  {
    hide S.ForModule, Publishable;
    var i, m := S.PlaceOf(st.modules, Masked(id)), ExposeMessage(s, id, w.attributes, w.methods);
    if i < |st.modules| {
      ExposeArrives(st, i, st.modules[i], w, s);
    } else {
      assert |m| >= 2 && m[0] / 16 == ATTR_METD_EXPOSE && m[1] == id;
      hide ExposeMessage;
    }
  }

  // EXPOSE finds a module without interface, and gives it the wrapper's.
  lemma TakesExpose(base: Published, exposed: LastIds, home: map<int, int>, l: P.Link,
                    st: S.Stub, sv: P.Server, m: P.Down, message: seq<Byte>, exposed': LastIds)
    requires StubSim(base, exposed, home, l.s, st, sv) && Aimed(m, sv, l.w) && B.Fit(base(l.w))
    requires m.Expose? && IsDown(base(l.w), message, m, exposed(l)) && Masked(m.id) == m.id
    requires forall k :: exposed'(k) == if k == l then m.id as int else exposed(k)
    ensures Taken(base, exposed', l, st, sv, m, S.ProcessInput(st, message))
  {
    hide S.ProcessInput, Publishable, ExposeMessage, ObjectOk, StubShows;
    var w, s := Sender(base(l.w), m), message[0] % 16;
    assert Values(w.attributes) == m.values;
    ShownIsConsistent(st, sv);
    StubRefinesMachine(st, sv, l.w, w, s, m);
    Addressee(base, exposed, home, l, st, sv, m.id);
    var i := S.PlaceOf(st.modules, Masked(m.id));
    if i < |st.modules| {
      NotYetExposed(st.modules[i], base(l.w), exposed(l));
    }
    ExposeEffect(st, m.id, w, s);
    ExposeKeepsOthers(base, exposed, home, l, st, m.id, m.values, exposed', S.ProcessInput(st, message).value.stub);
  }

  lemma ShownIsConsistent(st: S.Stub, sv: P.Server)
    requires StubShows(st, sv)
    ensures Consistent(S.RegistryOf(st)) && sv.reg.nextObjId == st.nextObjId
  {
  }

  lemma NotYetExposed(o: S.Object, base: W.Wrapper, done: int)
    requires ObjectOk(o, base, done) && done < o.id
    ensures Empty(o)
  {
  }

  lemma ExposeKeepsOthers(base: Published, exposed: LastIds, home: map<int, int>, l: P.Link, st: S.Stub,
                          id: Byte, values: seq<Value>, exposed': LastIds, st': S.Stub)
    requires Consistent(S.RegistryOf(st)) && st.serverId == st'.serverId == l.s && ObjectsOk(base, exposed, home, st)
    requires B.Fit(base(l.w)) && |values| == |base(l.w).attributes| && exposed(l) < id && Masked(id) == id
    requires forall k :: exposed'(k) == if k == l then id as int else exposed(k)
    requires var i := S.PlaceOf(st.modules, id);
             && (i < |st.modules| ==> B.HomeOf(home, id) == l.w)
             && st'.modules == if i < |st.modules|
                               then st.modules[i := Exposed(st.modules[i], Shown(base(l.w), values))]
                               else st.modules
    ensures ObjectsOk(base, exposed', home, st')
  {
    hide Consistent, Mirrors;
    var i := S.PlaceOf(st.modules, id);
    forall j | 0 <= j < |st'.modules|
      ensures ObjectAt(base, exposed', home, st', j)
    {
      assert ObjectAt(base, exposed, home, st, j);
      NotBeforePlace(st.modules, j);
      if i < |st.modules| {
        DistinctIds(st, i, j);
        assert ObjectAt(base, exposed, home, st, i);
        ViewsMirror(st.modules[i], base(l.w), values);
      }
    }
  }

  // DESC and answers of methods find their module with its interface, and leave what the machine
  // sees of the stub.
  lemma TakesStutter(base: Published, exposed: LastIds, home: map<int, int>, l: P.Link,
                     st: S.Stub, sv: P.Server, message: seq<Byte>)
    requires StubSim(base, exposed, home, l.s, st, sv) && B.Fit(base(l.w))
    requires ExposedOk(exposed(l), home, l.w) && exposed(l) <= 15 && Stutter(base(l.w), message, exposed(l))
    ensures var r := S.ProcessInput(st, message);
            && r.Some? && StubSim(base, exposed, home, l.s, r.value.stub, sv)
            && r.value.stub.sent == st.sent && r.value.stub.nextObjId == st.nextObjId
    ensures !B.IsExpose(message)
  {
    hide S.ProcessInput, ObjectsOk, StubShows, DescMessage, RespMessage;
    var done := exposed(l);
    ShownIsConsistent(st, sv);
    if IsDesc(base(l.w), message, done) {
      DescDefined(base, exposed, home, l, st, sv, message);
    } else {
      ReplyDefined(base, exposed, home, l, st, sv, message);
    }
    ValueMessageKeepsFaces(st, message);
    StubStutters(st, sv, message);
    FacesKeepSim(base, exposed, home, l.s, st, sv, S.ProcessInput(st, message).value.stub, sv);
  }

  // The module exposed last, if it is still there.
  lemma LastExposed(base: Published, exposed: LastIds, home: map<int, int>, l: P.Link, st: S.Stub, sv: P.Server)
    requires StubSim(base, exposed, home, l.s, st, sv) && ExposedOk(exposed(l), home, l.w) && exposed(l) <= 15
    ensures var i := S.PlaceOf(st.modules, Masked(exposed(l)));
            i < |st.modules| ==>
              Reachable(st, i, st.modules[i]) && st.modules[i].id == exposed(l) && Mirrors(st.modules[i], base(l.w))
  {
    ShownIsConsistent(st, sv);
    if HasId(sv.reg, exposed(l)) {
      Registered(sv.reg, exposed(l));
    }
    Addressee(base, exposed, home, l, st, sv, exposed(l));
  }

  lemma DescDefined(base: Published, exposed: LastIds, home: map<int, int>, l: P.Link,
                    st: S.Stub, sv: P.Server, message: seq<Byte>)
    requires StubSim(base, exposed, home, l.s, st, sv) && B.Fit(base(l.w))
    requires ExposedOk(exposed(l), home, l.w) && exposed(l) <= 15 && IsDesc(base(l.w), message, exposed(l))
    ensures |message| >= 2 && message[0] / 16 == ATTR_METD_DESC && S.ProcessInput(st, message).Some?
  {
    hide S.ForModule, ParseDesc, B.Fit, StubSim, IsDesc;
    DescParses(base(l.w), message, exposed(l));
    LastExposed(base, exposed, home, l, st, sv);
    var i := S.PlaceOf(st.modules, Masked(exposed(l)));
    if i < |st.modules| {
      ModuleMessageIsDispatched(st, i, st.modules[i], message);
      DescIsApplied(st, i, message);
    } else {
      UnknownModule(st, message);
    }
  }

  lemma DescParses(base: W.Wrapper, message: seq<Byte>, done: Byte)
    requires B.Fit(base) && IsDesc(base, message, done)
    ensures |message| >= 2 && message[0] / 16 == ATTR_METD_DESC && message[1] == done
    ensures var r := ParseDesc(Cursor(message[2..], 0));
            r.Some? && |r.value.0.0| == |base.attributes| && |r.value.0.1| == |base.methods|
  {
    hide ParseDesc, DescBody;
    DescRoundTrip(base.attributes, base.methods, [MSG_END], 0);
    assert message[2..] == DescBody(base.attributes, base.methods) + [MSG_END];
  }

  lemma ReplyDefined(base: Published, exposed: LastIds, home: map<int, int>, l: P.Link,
                     st: S.Stub, sv: P.Server, message: seq<Byte>)
    requires StubSim(base, exposed, home, l.s, st, sv) && B.Fit(base(l.w))
    requires ExposedOk(exposed(l), home, l.w) && exposed(l) <= 15 && IsReply(base(l.w), message, exposed(l))
    ensures |message| >= 3 && message[0] / 16 == ATTR_METD_RESP && S.ProcessInput(st, message).Some?
    ensures var i := S.PlaceOf(st.modules, Masked(message[1]));
            i < |st.modules| && ParseIndex(message[3..]).Some? ==>
              ParseIndex(message[3..]).value.0 >= |st.modules[i].attrs|
  {
    hide S.ProcessInput, S.OnResponse, ParseIndex, RespMessage, CallBody, StubShows, Returns, PackValue;
    var w0, done := base(l.w), exposed(l);
    var j: nat, err: Byte, v :| IsReplyOf(w0, message, done, j, err, v);
    var index, data := |w0.attributes| + j, PackValue(v);
    LastExposed(base, exposed, home, l, st, sv);
    var i := S.PlaceOf(st.modules, Masked(done));
    ReplyData(w0.methods[j], err, v);
    ResponseArrives(ATTR_METD_RESP, message[0] % 16, done, err, index, data);
    if i < |st.modules| {
      var o := st.modules[i];
      assert SameMethod(o.metds[j], w0.methods[j]);
      ReplyReacts(o, j, err, v, w0.methods[j]);
      ResponseIsDispatched(st, i, o, message, index);
    } else {
      UnknownModule(st, message);
    }
  }

  lemma ReplyData(m: Method, err: Byte, v: Value)
    requires if err == 0 then Returns(m, v) else v == NoneVal
    ensures |PackValue(v)| <= 40000
  {
    if err == 0 {
      ReturnFits(m, v);
    }
  }

  lemma ReplyReacts(o: S.Object, j: nat, err: Byte, v: Value, m: Method)
    requires j < |o.metds| && SameMethod(o.metds[j], m) && (err == 0 ==> Returns(m, v))
    ensures S.OnResponse(o, |o.attrs| + j, err, Cursor(PackValue(v) + [MSG_END], |PackValue(v)|)).Some?
  {
    if err == 0 {
      MethodCompletes(o, j, v, m);
    }
  }

  // ---------------------------------------------------------------- a stub's step in the network

  lemma SimParts(base: Published, exposed: LastIds, home: map<int, int>, s: int, st: S.Stub, sv: P.Server)
    requires StubSim(base, exposed, home, s, st, sv)
    ensures sv.reg.nextObjId == st.nextObjId && sv.home == home && st.serverId == s
  {
  }

  // What the relation says of one channel and its ends.
  lemma AtLink(base: Published, b: B.Net, n: P.Net, l: P.Link)
    requires Sim(base, b, n) && 0 <= l.s < 16
    ensures LinkSim(base(l.w), b, n, l) && StubSim(base, b.exposed, b.home(l.s), l.s, b.stubs(l.s), n.servers(l.s))
    ensures WrapperSim(base(l.w), b.wrappers(l.w), b.alive(l.w), b.dirty(l.w), n.wrappers(l.w))
    ensures var st, sv := b.stubs(l.s), n.servers(l.s);
            sv.reg.nextObjId == st.nextObjId && sv.home == b.home(l.s) && st.serverId == l.s
  {
    hide WrapperSim, StubShows, ObjectsOk, LinkSim;
    assert LinkIn(base, b, n, l) && StubIn(base, b, n, l.s) && WrapperIn(base, b, n, l.w);
    SimParts(base, b.exposed, b.home(l.s), l.s, b.stubs(l.s), n.servers(l.s));
  }

  lemma StubSimFrame(base: Published, exposed: LastIds, exposed': LastIds, home: map<int, int>, s: int,
                     st: S.Stub, sv: P.Server)
    requires StubSim(base, exposed, home, s, st, sv) && forall w :: exposed'(P.Link(s, w)) == exposed(P.Link(s, w))
    ensures StubSim(base, exposed', home, s, st, sv)
  {
    hide ObjectOk, StubShows;
    forall i | 0 <= i < |st.modules|
      ensures ObjectAt(base, exposed', home, st, i)
    {
      assert ObjectAt(base, exposed, home, st, i);
    }
  }

  // Stub l.s has moved: it may have taken a message from channel l and sent one into it.
  ghost predicate OnlyStubMoved(b: B.Net, b': B.Net, l: P.Link) {
    && (forall w :: b'.wrappers(w) == b.wrappers(w) && b'.alive(w) == b.alive(w) && b'.dirty(w) == b.dirty(w))
    && (forall s :: s != l.s ==> b'.stubs(s) == b.stubs(s) && b'.home(s) == b.home(s))
    && (forall k :: k != l ==> b'.exposed(k) == b.exposed(k) && b'.up(k) == b.up(k) && b'.down(k) == b.down(k))
    && (forall id :: id in b.home(l.s) ==> id in b'.home(l.s) && b'.home(l.s)[id] == b.home(l.s)[id])
  }

  ghost predicate OnlyServerMoved(n: P.Net, n': P.Net, l: P.Link) {
    && (forall w :: n'.wrappers(w) == n.wrappers(w))
    && (forall s :: s != l.s ==> n'.servers(s) == n.servers(s))
    && (forall k :: k != l ==> n'.up(k) == n.up(k) && n'.down(k) == n.down(k))
  }

  lemma StubMovesSim(base: Published, b: B.Net, n: P.Net, l: P.Link, b': B.Net, n': P.Net, queue: seq<seq<Byte>>,
                     ms: seq<P.Up>)
    requires Sim(base, b, n) && 0 <= l.s < 16 && OnlyStubMoved(b, b', l) && OnlyServerMoved(n, n', l)
    requires StubSim(base, b'.exposed, b'.home(l.s), l.s, b'.stubs(l.s), n'.servers(l.s))
    requires b'.up(l) == b.up(l) + queue && n'.up(l) == n.up(l) + ms && UpMatches(base(l.w), l.s, queue, ms)
    requires DownMatches(base(l.w), b'.down(l), n'.down(l), b'.exposed(l))
    requires Done(n'.down(l), b'.exposed(l)) == Done(n.down(l), b.exposed(l))
    requires ExposedOk(b'.exposed(l), b'.home(l.s), l.w)
    ensures Sim(base, b', n')
  {
    hide UpMatches, DownMatches, Done, StubSim, WrapperSim;
    forall w
      ensures WrapperIn(base, b', n', w)
    {
      assert WrapperIn(base, b, n, w);
    }
    forall s
      ensures StubIn(base, b', n', s)
    {
      assert StubIn(base, b, n, s);
      if s != l.s && 0 <= s < 16 {
        StubSimFrame(base, b.exposed, b'.exposed, b.home(s), s, b.stubs(s), n.servers(s));
      }
    }
    forall k
      ensures LinkIn(base, b', n', k)
    {
      assert LinkIn(base, b, n, k);
      if k == l {
        UpAppend(base(l.w), l.s, b.up(l), n.up(l), queue, ms);
      }
    }
  }

  // The first byte tells an EXPOSE from the other messages of the machine.
  lemma ExposeIsTold(base: W.Wrapper, message: seq<Byte>, m: P.Down, done: int)
    requires IsDown(base, message, m, done)
    ensures B.IsExpose(message) <==> m.Expose?
    ensures m.Expose? ==> message[1] == m.id
  {
    hide ExposeBody, CallBody, PackShortString, PackLongString, DownFit;
  }

  lemma {:induction false} RepliesMatch(base: W.Wrapper, s: int, sv: P.Server, w: int, m: P.Down, message: seq<Byte>,
                                        done: int)
    requires IsDown(base, message, m, done) && 0 <= s < 16
    ensures var replies := P.ServerReceive(sv, w, m).replies; UpMatches(base, s, AllUpBytes(s, replies), replies)
  {
    hide IsCall, PackShortString, ShortName;
    var replies := P.ServerReceive(sv, w, m).replies;
    if replies != [] {
      var bytes := UpBytes(s, replies[0], false, 0);
      assert replies == [replies[0]] && AllUpBytes(s, replies) == [bytes];
      UpOne(base, s, bytes, replies);
    } else {
      assert UpMatches(base, s, [], []);
    }
  }

  // What the invariants of the machine say of the message whose turn it is.
  lemma NextMessage(n: P.Net, l: P.Link)
    requires G.Inv(n) && C.FewIds(n, l.s) && n.down(l) != []
    ensures var m, sv := n.down(l)[0], n.servers(l.s);
            && Aimed(m, sv, l.w) && 1 <= sv.reg.nextObjId
            && (forall id :: id in sv.home ==> 1 <= id < sv.reg.nextObjId)
            && (m.Expose? ==> Masked(m.id) == m.id && ExposedOk(m.id, sv.home, l.w))
            && (forall id :: id in sv.home ==> var home' := P.ServerReceive(sv, l.w, m).server.home;
                                               id in home' && home'[id] == sv.home[id])
  {
    var m, sv := n.down(l)[0], n.servers(l.s);
    C.Routed(n, l);
    assert G.LinkAt(n, l) && G.ServerOk(sv, n.wrappers);
    assert G.DownOk(m, P.Last(n.wrappers(l.w), l.s), sv.home, l.w, n.wrappers(l.w).name);
    G.ServerReceiveOk(sv, n.wrappers, l.w, m);
  }

  // A message of the machine, taken by the stub.
  lemma StubTakes(base: Published, b: B.Net, n: P.Net, l: P.Link)
    requires Sim(base, b, n) && G.Inv(n) && C.FewIds(n, l.s) && 0 <= l.s < 16
    requires b.down(l) != [] && n.down(l) != [] && IsDown(base(l.w), b.down(l)[0], n.down(l)[0], b.exposed(l))
    ensures var message, m := b.down(l)[0], n.down(l)[0];
            var exposed' := P.Put(b.exposed, l, if B.IsExpose(message) then message[1] else b.exposed(l));
            Taken(base, exposed', l, b.stubs(l.s), n.servers(l.s), m, S.ProcessInput(b.stubs(l.s), message))
  {
    hide S.ProcessInput, StubSim, IsDown, UpMatches, DownMatches, StubShows;
    var message, m, st, sv := b.down(l)[0], n.down(l)[0], b.stubs(l.s), n.servers(l.s);
    var exposed' := P.Put(b.exposed, l, if B.IsExpose(message) then message[1] else b.exposed(l));
    AtLink(base, b, n, l);
    SimParts(base, b.exposed, b.home(l.s), l.s, st, sv);
    NextMessage(n, l);
    ExposeIsTold(base(l.w), message, m, b.exposed(l));
    match m {
      case DeclareModule(_) => TakesDeclare(base, b.exposed, b.home(l.s), l, st, sv, m, message);
      case Expose(_, _) => TakesExpose(base, b.exposed, b.home(l.s), l, st, sv, m, message, exposed');
      case Update(_, _) => TakesUpdate(base, b.exposed, b.home(l.s), l, st, sv, m, message);
      case ModuleShutdown(_) => TakesShutdown(base, b.exposed, b.home(l.s), l, st, sv, m, message);
    }
    if !m.Expose? {
      var sv' := P.ServerReceive(sv, l.w, m).server;
      StubSimFrame(base, b.exposed, exposed', sv'.home, l.s, S.ProcessInput(st, message).value.stub, sv');
    }
  }

  // Where the new module belongs is the machine's history, too.
  lemma SameHome(st: S.Stub, sv: P.Server, st': S.Stub, w: int, m: P.Down)
    requires sv.reg.nextObjId == st.nextObjId && P.ServerReceive(sv, w, m).server.reg.nextObjId == st'.nextObjId
    ensures B.HomeAfter(sv.home, st, st', w) == P.ServerReceive(sv, w, m).server.home
  {
  }

  lemma MachineMessageSim(base: Published, b: B.Net, n: P.Net, l: P.Link)
    requires Sim(base, b, n) && G.Inv(n) && C.FewIds(n, l.s) && 0 <= l.s < 16
    requires b.down(l) != [] && n.down(l) != [] && IsDown(base(l.w), b.down(l)[0], n.down(l)[0], b.exposed(l))
    requires DownMatches(base(l.w), b.down(l)[1..], n.down(l)[1..], NextDone(b.exposed(l), n.down(l)[0]))
    ensures S.ProcessInput(b.stubs(l.s), b.down(l)[0]).Some? && Sim(base, B.StubStepOn(b, l), P.ServerStepOn(n, l))
  {
    hide S.ProcessInput, StubSim, IsDown, UpMatches, DownMatches, StubShows, P.ServerReceive, Sim;
    var message, m, st, sv := b.down(l)[0], n.down(l)[0], b.stubs(l.s), n.servers(l.s);
    StubTakes(base, b, n, l);
    AtLink(base, b, n, l);
    var step := P.ServerReceive(sv, l.w, m);
    var b', n', st' := B.StubStepOn(b, l), P.ServerStepOn(n, l), S.ProcessInput(st, message).value.stub;
    SimParts(base, b'.exposed, step.server.home, l.s, st', step.server);
    SameHome(st, sv, st', l.w, m);
    NextMessage(n, l);
    ExposeIsTold(base(l.w), message, m, b.exposed(l));
    RepliesMatch(base(l.w), l.s, sv, l.w, m, message, b.exposed(l));
    assert B.Since(st.sent, st'.sent) == AllUpBytes(l.s, step.replies);
    StubMovesSim(base, b, n, l, b', n', AllUpBytes(l.s, step.replies), step.replies);
  }

  // DESC, or the answer of a method: a step that the machine does not take.
  lemma StutterSim(base: Published, b: B.Net, n: P.Net, l: P.Link)
    requires Sim(base, b, n) && G.Inv(n) && C.FewIds(n, l.s) && 0 <= l.s < 16
    requires b.down(l) != [] && Stutter(base(l.w), b.down(l)[0], b.exposed(l))
    requires DownMatches(base(l.w), b.down(l)[1..], n.down(l), b.exposed(l))
    ensures S.ProcessInput(b.stubs(l.s), b.down(l)[0]).Some? && Sim(base, B.StubStepOn(b, l), n)
  {
    hide S.ProcessInput, StubSim, Stutter, UpMatches, DownMatches, StubShows, Sim, G.LinksOk;
    var message, st, sv := b.down(l)[0], b.stubs(l.s), n.servers(l.s);
    AtLink(base, b, n, l);
    assert G.ServerOk(sv, n.wrappers);
    TakesStutter(base, b.exposed, b.home(l.s), l, st, sv, message);
    var b', st' := B.StubStepOn(b, l), S.ProcessInput(st, message).value.stub;
    StubSimFrame(base, b.exposed, b'.exposed, b.home(l.s), l.s, st', sv);
    assert UpMatches(base(l.w), l.s, [], []) by { NothingUp(base(l.w), l.s); }
    assert n.up(l) + [] == n.up(l) && b.up(l) + [] == b.up(l);
    StubMovesSim(base, b, n, l, b', n, [], []);
  }

  lemma NothingUp(base: W.Wrapper, s: int)
    ensures UpMatches(base, s, [], [])
  {
  }
}
