// When a network of byte messages is in a state of the protocol machine.
module Simulation {
  import opened Common
  import opened Registry
  import opened Messages
  import opened Calls
  import opened Refinement
  import opened ByteQueues
  import P = Protocol
  import W = WrapperModel
  import S = StubModel
  import B = ByteNetwork

  // What each wrapper published.
  type Published = int -> W.Wrapper

  // For each channel the last id whose EXPOSE the stub took from it.
  type LastIds = P.Link -> int

  // ---------------------------------------------------------------- a module of a stub

  predicate Empty(o: S.Object) {
    o.attrs == [] && o.metds == []
  }

  // Before EXPOSE a module has no interface, and afterwards the wrapper's; done is the last id
  // whose EXPOSE came from this wrapper.
  ghost predicate ObjectOk(o: S.Object, base: W.Wrapper, done: int) {
    && o.argEvalReversed == base.leftToRight
    && (Empty(o) || (Mirrors(o, base) && o.id <= done))
    && (o.id == done ==> Mirrors(o, base))
  }

  // The same interface: values, descriptions and the mode may differ.
  ghost predicate SameFace(o: S.Object, o': S.Object) {
    && o'.id == o.id && o'.name == o.name && o'.argEvalReversed == o.argEvalReversed
    && |o'.attrs| == |o.attrs| && |o'.metds| == |o.metds|
    && (forall i :: 0 <= i < |o.attrs| ==>
          && o'.attrs[i].name == o.attrs[i].name && o'.attrs[i].t == o.attrs[i].t
          && o'.attrs[i].readOnly == o.attrs[i].readOnly)
    && (forall i :: 0 <= i < |o.metds| ==>
          && o'.metds[i].name == o.metds[i].name && o'.metds[i].retType == o.metds[i].retType
          && o'.metds[i].args == o.metds[i].args)
  }

  lemma FaceOk(o: S.Object, o': S.Object, base: W.Wrapper, done: int)
    requires SameFace(o, o') && ObjectOk(o, base, done)
    ensures ObjectOk(o', base, done)
  {
    if Mirrors(o, base) {
      forall i | 0 <= i < |base.attributes|
        ensures SameAttribute(o'.attrs[i], base.attributes[i])
      {
        assert SameAttribute(o.attrs[i], base.attributes[i]);
      }
      forall i | 0 <= i < |base.methods|
        ensures SameMethod(o'.metds[i], base.methods[i])
      {
        assert SameMethod(o.metds[i], base.methods[i]);
      }
    }
  }

  lemma {:induction false} DescribedFace(attrs: seq<StubAttribute>, descs: seq<Str>)
    requires |descs| <= |attrs|
    ensures var r := S.Described(attrs, descs);
            |r| == |attrs| && forall i :: 0 <= i < |attrs| ==> r[i] == attrs[i].(desc := r[i].desc)
  {
    if descs != [] {
      DescribedFace(attrs[1..], descs[1..]);
    }
  }

  lemma {:induction false} DescribedMethodsFace(metds: seq<StubMethod>, descs: seq<Str>)
    requires |descs| <= |metds|
    ensures var r := S.DescribedMethods(metds, descs);
            |r| == |metds| && forall i :: 0 <= i < |metds| ==> r[i] == metds[i].(desc := r[i].desc)
  {
    if descs != [] {
      DescribedMethodsFace(metds[1..], descs[1..]);
    }
  }

  // A message about values or descriptions keeps every interface, and is not answered.
  ghost predicate FacesKept(st: S.Stub, st': S.Stub) {
    && |st'.modules| == |st.modules| && st'.nextObjId == st.nextObjId && st'.sent == st.sent
    && st'.serverId == st.serverId
    && forall i :: 0 <= i < |st.modules| ==> SameFace(st.modules[i], st'.modules[i])
  }

  lemma ValueMessageKeepsFaces(st: S.Stub, message: seq<Byte>)
    requires |message| >= 2 && message[0] / 16 in [ATTR_METD_RESP, ATTR_VALUE_UPDATE, ATTR_METD_DESC]
    requires S.ProcessInput(st, message).Some?
    ensures FacesKept(st, S.ProcessInput(st, message).value.stub)
  {
    hide S.ForModule, SameFace;
    var i := S.PlaceOf(st.modules, Masked(message[1]));
    FaceOfItself(st);
    if i < |st.modules| {
      assert S.ProcessInput(st, message) == S.ForModule(st, i, message);
      hide S.ProcessInput;
      if message[0] / 16 == ATTR_METD_DESC {
        DescKeepsFace(st, i, message);
      } else {
        AnswerKeepsFace(st, i, message);
      }
    }
  }

  lemma FaceOfItself(st: S.Stub)
    ensures FacesKept(st, st)
  {
  }

  ghost predicate OneFaceKept(st: S.Stub, i: nat, st': S.Stub)
    requires i < |st.modules|
  {
    && st'.nextObjId == st.nextObjId && st'.sent == st.sent && st'.serverId == st.serverId
    && |st'.modules| == |st.modules| && st'.modules == st.modules[i := st'.modules[i]]
    && SameFace(st.modules[i], st'.modules[i])
  }

  lemma DescKeepsFace(st: S.Stub, i: nat, message: seq<Byte>)
    requires i < |st.modules| && |message| >= 2 && message[0] / 16 == ATTR_METD_DESC
    requires S.ForModule(st, i, message).Some?
    ensures OneFaceKept(st, i, S.ForModule(st, i, message).value.stub)
  {
    hide ParseDesc, S.Described, S.DescribedMethods;
    var (attrDescs, metdDescs) := ParseDesc(Cursor(message[2..], 0)).value.0;
    DescribedFace(st.modules[i].attrs, attrDescs);
    DescribedMethodsFace(st.modules[i].metds, metdDescs);
  }

  lemma ReactionKeepsFace(o: S.Object, index: nat, err: int, c: Cursor)
    ensures var r := S.OnResponse(o, index, err, c); r.Some? ==> SameFace(o, r.value.0.obj)
    ensures var r := S.OnUpdate(o, index, err, c); r.Some? ==> SameFace(o, r.value.0.obj)
  {
    hide StubUnpack;
  }

  lemma AnswerKeepsFace(st: S.Stub, i: nat, message: seq<Byte>)
    requires i < |st.modules| && |message| >= 2 && message[0] / 16 in [ATTR_METD_RESP, ATTR_VALUE_UPDATE]
    requires S.ForModule(st, i, message).Some?
    ensures OneFaceKept(st, i, S.ForModule(st, i, message).value.stub)
  {
    hide ParseIndex, S.OnResponse, S.OnUpdate, SameFace;
    var p := ParseIndex(message[3..]);
    ReactionKeepsFace(st.modules[i], p.value.0, message[2] % 16, p.value.1);
  }

  // ---------------------------------------------------------------- the relation

  ghost predicate ObjectsOk(base: Published, exposed: LastIds, home: map<int, int>, st: S.Stub) {
    forall i :: 0 <= i < |st.modules| ==> ObjectAt(base, exposed, home, st, i)
  }

  ghost predicate ObjectAt(base: Published, exposed: LastIds, home: map<int, int>, st: S.Stub, i: nat)
    requires i < |st.modules|
  {
    var w := B.HomeOf(home, st.modules[i].id);
    ObjectOk(st.modules[i], base(w), exposed(P.Link(st.serverId, w)))
  }

  ghost predicate StubSim(base: Published, exposed: LastIds, home: map<int, int>, s: int, st: S.Stub, sv: P.Server) {
    st.serverId == s && StubShows(st, sv) && home == sv.home && ObjectsOk(base, exposed, home, st)
  }

  ghost predicate WrapperSim(base: W.Wrapper, w: W.Wrapper, alive: bool, dirty: set<int>, p: P.Wrapper) {
    && B.Fit(base) && SameShape(base, w) && W.Valid(w)
    && alive == p.alive && p.dirty <= dirty && (alive ==> WrapperShows(w, p))
  }

  // What a stub got over this channel was meant for a module that came from it.
  ghost predicate ExposedOk(exposed: int, home: map<int, int>, w: int) {
    exposed == 0 || (0 < exposed < 256 && exposed in home && home[exposed] == w)
  }

  ghost predicate LinkSim(base: W.Wrapper, b: B.Net, n: P.Net, l: P.Link) {
    && UpMatches(base, l.s, b.up(l), n.up(l))
    && DownMatches(base, b.down(l), n.down(l), b.exposed(l))
    && Done(n.down(l), b.exposed(l)) == P.Last(n.wrappers(l.w), l.s)
    && ExposedOk(b.exposed(l), b.home(l.s), l.w)
  }

  ghost predicate WrapperIn(base: Published, b: B.Net, n: P.Net, w: int) {
    WrapperSim(base(w), b.wrappers(w), b.alive(w), b.dirty(w), n.wrappers(w))
  }

  ghost predicate StubIn(base: Published, b: B.Net, n: P.Net, s: int) {
    0 <= s < 16 ==> StubSim(base, b.exposed, b.home(s), s, b.stubs(s), n.servers(s))
  }

  ghost predicate LinkIn(base: Published, b: B.Net, n: P.Net, l: P.Link) {
    0 <= l.s < 16 ==> LinkSim(base(l.w), b, n, l)
  }

  // Network b of bytes, whose wrappers published what base says, is in the state n of the machine.
  ghost predicate Sim(base: Published, b: B.Net, n: P.Net) {
    (forall w :: WrapperIn(base, b, n, w)) && (forall s :: StubIn(base, b, n, s)) && (forall l :: LinkIn(base, b, n, l))
  }
}
